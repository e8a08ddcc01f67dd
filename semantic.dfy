/**
 * Phase 3, semantic analysis (`semanticAnalysis`).
 *
 * A recursive walk from the root in scope `global` fills a flat symbol
 * table keyed `name@scope`.  A named Function records itself as type
 * `function` and walks its children in scope `scope.name`; a
 * VariableDeclaration takes the second space-separated word of its text as
 * its name and either records it (with the type found after the first
 * `:`) or, when the key is already taken, appends one redeclaration error.
 * Every other node walks its children in the same scope.
 */
module Semantic {
  import opened Wrappers
  import opened Text
  import opened Lexer
  import opened Parser

  /** One symbol-table entry (`type`, `scope`, `line`). */
  datatype Symbol = Symbol(kind: string, scope: string, line: nat)

  /** The table and the error list as the walk leaves them. */
  datatype Analysis = Analysis(table: map<string, Symbol>, errors: seq<string>)

  /** `node.line || 0`. */
  function LineOf(n: Node): nat {
    n.line.GetOr(0)
  }

  function Key(name: string, scope: string): string {
    name + "@" + scope
  }

  function RedeclarationError(name: string, scope: string): string {
    "Error: Variable '" + name + "' already declared in scope '" + scope + "'"
  }

  /** Whether `/:\s*([a-zA-Z\[\]]+)/` matches with its `:` at `p`. */
  predicate TypeAfterColon(v: string, p: nat)
    requires p < |v|
  {
    v[p] == ':' && SkipWs(v, p + 1) < |v| && IsTypeChar(v[SkipWs(v, p + 1)])
  }

  /** The capture of `/:\s*([a-zA-Z\[\]]+)/`, searching from `i` on. */
  function TypeMatch(v: string, i: nat): Option<string>
    requires i <= |v|
    decreases |v| - i
  {
    var p := IndexOf(v, ':', i);
    if p == |v| then None
    else if TypeAfterColon(v, p) then
      var q := SkipWs(v, p + 1);
      Some(v[q..TypeEnd(v, q)])
    else TypeMatch(v, p + 1)
  }

  /** The declared type: the capture, or `unknown`. */
  function TypeOf(v: string): string {
    TypeMatch(v, 0).GetOr("unknown")
  }

  /** `analyzeNode(n, scope)` applied to the state `st`. */
  function Analyze(n: Node, scope: string, st: Analysis): Analysis
    decreases n
  {
    if n.kind == Function && Truthy(n.value) then
      var f := n.value.value;
      var entered := st.(table := st.table[Key(f, scope) := Symbol("function", scope, LineOf(n))]);
      AnalyzeAll(n.children, scope + "." + f, entered)
    else if n.kind == VariableDeclaration && Truthy(n.value) then
      var parts := Split(n.value.value, ' ');
      if |parts| > 1 then
        var name := parts[1];
        if Key(name, scope) in st.table then
          st.(errors := st.errors + [RedeclarationError(name, scope)])
        else
          st.(table := st.table[Key(name, scope) := Symbol(TypeOf(n.value.value), scope, LineOf(n))])
      else st
    else
      AnalyzeAll(n.children, scope, st)
  }

  /** `children.forEach(child => analyzeNode(child, scope))`. */
  function AnalyzeAll(cs: seq<Node>, scope: string, st: Analysis): Analysis
    decreases cs
  {
    if cs == [] then st
    else Analyze(cs[|cs| - 1], scope, AnalyzeAll(cs[..|cs| - 1], scope, st))
  }

  function AnalysisOf(ast: Node): Analysis {
    Analyze(ast, "global", Analysis(map[], []))
  }

  /** The symbol table and error list that the nested `analyzeNode` closure updates. */
  class Analyzer {
    var symbolTable: map<string, Symbol>
    var errors: seq<string>

    constructor ()
      ensures symbolTable == map[] && errors == []
    {
      symbolTable := map[];
      errors := [];
    }

    method AnalyzeNode(node: Node, scope: string)
      modifies this
      ensures Analysis(symbolTable, errors) == Analyze(node, scope, old(Analysis(symbolTable, errors)))
      decreases node
    {
      if node.kind == Function && Truthy(node.value) {
        symbolTable := symbolTable[Key(node.value.value, scope) := Symbol("function", scope, LineOf(node))];
        AnalyzeChildren(node, scope + "." + node.value.value);
      } else if node.kind == VariableDeclaration && Truthy(node.value) {
        var parts := Split(node.value.value, ' ');
        if |parts| > 1 {
          var varName := parts[1];
          if Key(varName, scope) in symbolTable {
            errors := errors + [RedeclarationError(varName, scope)];
          } else {
            var varType := "unknown";
            var typeMatch := TypeMatch(node.value.value, 0);
            if typeMatch.Some? {
              varType := typeMatch.value;
            }
            symbolTable := symbolTable[Key(varName, scope) := Symbol(varType, scope, LineOf(node))];
          }
        }
      } else {
        AnalyzeChildren(node, scope);
      }
    }

    /** The `forEach` over the children of `node`. */
    method AnalyzeChildren(node: Node, scope: string)
      modifies this
      ensures Analysis(symbolTable, errors) == AnalyzeAll(node.children, scope, old(Analysis(symbolTable, errors)))
      decreases node, 0
    {
      var cs := node.children;
      for i := 0 to |cs|
        invariant Analysis(symbolTable, errors) == AnalyzeAll(cs[..i], scope, old(Analysis(symbolTable, errors)))
      {
        assert cs[..i + 1][..i] == cs[..i];
        AnalyzeNode(cs[i], scope);
      }
      assert cs[..|cs|] == cs;
    }
  }

  method SemanticAnalysis(ast: Node) returns (symbolTable: map<string, Symbol>, errors: seq<string>)
    ensures Analysis(symbolTable, errors) == AnalysisOf(ast)
  {
    var analyzer := new Analyzer();
    analyzer.AnalyzeNode(ast, "global");
    symbolTable, errors := analyzer.symbolTable, analyzer.errors;
  }

  // ---------------------------------------------------------------------
  // The type pattern

  /** `t` is the capture of the type pattern whose `:` sits at `p`. */
  predicate TypeCaptureAt(v: string, p: nat, t: string) {
    && p < |v| && v[p] == ':'
    && var q := SkipWs(v, p + 1);
       && AllWs(v[p + 1..q])
       && 1 <= |t| && q + |t| <= |v| && v[q..q + |t|] == t
       && (forall k :: 0 <= k < |t| ==> IsTypeChar(t[k]))
       && (q + |t| == |v| || !IsTypeChar(v[q + |t|]))
  }

  /** No `:` in `v[i..p]` is followed (after whitespace) by a letter or bracket. */
  predicate NoTypeBetween(v: string, i: nat, p: nat)
    requires p <= |v|
  {
    forall p' :: i <= p' < p ==> !TypeAfterColon(v, p')
  }

  /** A stretch without `:` holds no type pattern. */
  lemma NoColonNoType(v: string, i: nat, p: nat)
    requires i <= p <= |v| && forall k :: i <= k < p ==> v[k] != ':'
    ensures NoTypeBetween(v, i, p)
  {
    forall p' | i <= p' < p ensures !TypeAfterColon(v, p') {
      assert v[p'] != ':';
    }
  }

  /** Two adjacent stretches without a type pattern make one. */
  lemma NoTypeJoin(v: string, i: nat, c: nat, p: nat)
    requires i <= c < p <= |v|
    requires NoTypeBetween(v, i, c) && !TypeAfterColon(v, c) && NoTypeBetween(v, c + 1, p)
    ensures NoTypeBetween(v, i, p)
  {
    forall p' | i <= p' < p ensures !TypeAfterColon(v, p') {
      if p' < c {
        assert NoTypeBetween(v, i, c);
      } else if p' > c {
        assert NoTypeBetween(v, c + 1, p);
      }
    }
  }

  /** Without a match, no `:` from `i` on starts the pattern. */
  lemma {:induction false} TypeMatchNoneAll(v: string, i: nat)
    requires i <= |v| && TypeMatch(v, i).None?
    ensures NoTypeBetween(v, i, |v|)
    decreases |v| - i
  {
    var p := IndexOf(v, ':', i);
    NoColonNoType(v, i, p);
    if p < |v| {
      assert !TypeAfterColon(v, p) && TypeMatch(v, p + 1).None?;
      TypeMatchNoneAll(v, p + 1);
      NoTypeJoin(v, i, p, |v|);
    }
  }

  /** The text the type pattern captures when its `:` sits at `p`. */
  function Capture(v: string, p: nat): string
    requires p < |v|
  {
    var q := SkipWs(v, p + 1);
    v[q..TypeEnd(v, q)]
  }

  /** A match found from `i` comes from the first `:` at or after `i` that starts the pattern. */
  lemma {:induction false} TypeMatchFirst(v: string, i: nat) returns (p: nat)
    requires i <= |v| && TypeMatch(v, i).Some?
    ensures i <= p < |v| && TypeAfterColon(v, p) && NoTypeBetween(v, i, p)
    ensures TypeMatch(v, i) == Some(Capture(v, p))
    decreases |v| - i
  {
    var c := IndexOf(v, ':', i);
    NoColonNoType(v, i, c);
    if TypeAfterColon(v, c) {
      p := c;
    } else {
      p := TypeMatchFirst(v, c + 1);
      NoTypeJoin(v, i, c, p);
    }
  }

  /** What the capture at a `:` that starts the pattern consists of. */
  lemma CaptureShape(v: string, p: nat)
    requires p < |v| && TypeAfterColon(v, p)
    ensures TypeCaptureAt(v, p, Capture(v, p))
  {
  }

  /** There is no type exactly when no `:` is followed (after whitespace) by a letter or bracket. */
  lemma TypeMatchNone(v: string, i: nat)
    requires i <= |v|
    ensures TypeMatch(v, i).None? <==> NoTypeBetween(v, i, |v|)
  {
    if TypeMatch(v, i).Some? {
      var p := TypeMatchFirst(v, i);
    } else {
      TypeMatchNoneAll(v, i);
    }
  }

  /** Otherwise the type is the whole run of letters and brackets after the first such `:`, at `p`. */
  lemma TypeMatchSome(v: string, i: nat) returns (p: nat)
    requires i <= |v| && TypeMatch(v, i).Some?
    ensures i <= p && TypeCaptureAt(v, p, TypeMatch(v, i).value)
    ensures NoTypeBetween(v, i, p)
  {
    p := TypeMatchFirst(v, i);
    CaptureShape(v, p);
  }

  // ---------------------------------------------------------------------
  // Declarations

  /**
   * A declaration whose key is already taken leaves the table as it is and
   * appends exactly one error; otherwise it records the name with its type
   * and appends no error.
   */
  lemma Declaration(n: Node, scope: string, st: Analysis)
    requires n.kind == VariableDeclaration && Truthy(n.value) && |Split(n.value.value, ' ')| > 1
    ensures var x := Split(n.value.value, ' ')[1];
      var r := Analyze(n, scope, st);
      && (Key(x, scope) in st.table ==>
            r.table == st.table && r.errors == st.errors + [RedeclarationError(x, scope)])
      && (Key(x, scope) !in st.table ==>
            r.errors == st.errors && r.table == st.table[Key(x, scope) := Symbol(TypeOf(n.value.value), scope, LineOf(n))])
  {
  }

  // ---------------------------------------------------------------------
  // What the walk never undoes

  /** Keys are never removed and errors are only appended. */
  predicate Grows(st: Analysis, r: Analysis) {
    st.table.Keys <= r.table.Keys && |st.errors| <= |r.errors| && r.errors[..|st.errors|] == st.errors
  }

  lemma GrowsTrans(a: Analysis, b: Analysis, c: Analysis)
    requires Grows(a, b) && Grows(b, c)
    ensures Grows(a, c)
  {
    assert c.errors[..|a.errors|] == c.errors[..|b.errors|][..|a.errors|];
  }

  lemma {:induction false} AnalyzeGrows(n: Node, scope: string, st: Analysis)
    ensures Grows(st, Analyze(n, scope, st))
    decreases n
  {
    if n.kind == Function && Truthy(n.value) {
      var f := n.value.value;
      var entered := st.(table := st.table[Key(f, scope) := Symbol("function", scope, LineOf(n))]);
      AnalyzeAllGrows(n.children, scope + "." + f, entered);
      GrowsTrans(st, entered, Analyze(n, scope, st));
    } else if n.kind == VariableDeclaration && Truthy(n.value) {
    } else {
      AnalyzeAllGrows(n.children, scope, st);
    }
  }

  lemma {:induction false} AnalyzeAllGrows(cs: seq<Node>, scope: string, st: Analysis)
    ensures Grows(st, AnalyzeAll(cs, scope, st))
    decreases cs
  {
    if cs != [] {
      var mid := AnalyzeAll(cs[..|cs| - 1], scope, st);
      AnalyzeAllGrows(cs[..|cs| - 1], scope, st);
      AnalyzeGrows(cs[|cs| - 1], scope, mid);
      GrowsTrans(st, mid, AnalyzeAll(cs, scope, st));
    }
  }

  /** A tree without Function nodes. */
  predicate NoFunctions(n: Node)
    decreases n
  {
    n.kind != Function && forall c :: c in n.children ==> NoFunctions(c)
  }

  /** Entries already in the table are never changed. */
  predicate Keeps(st: Analysis, r: Analysis) {
    forall k :: k in st.table ==> k in r.table && r.table[k] == st.table[k]
  }

  /** Only Function nodes overwrite entries: without them every existing entry stays as it is. */
  lemma {:induction false} AnalyzeKeeps(n: Node, scope: string, st: Analysis)
    requires NoFunctions(n)
    ensures Keeps(st, Analyze(n, scope, st))
    decreases n
  {
    if !(n.kind == VariableDeclaration && Truthy(n.value)) {
      AnalyzeAllKeeps(n.children, scope, st);
    }
  }

  lemma {:induction false} AnalyzeAllKeeps(cs: seq<Node>, scope: string, st: Analysis)
    requires forall c :: c in cs ==> NoFunctions(c)
    ensures Keeps(st, AnalyzeAll(cs, scope, st))
    decreases cs
  {
    if cs != [] {
      var mid := AnalyzeAll(cs[..|cs| - 1], scope, st);
      AnalyzeAllKeeps(cs[..|cs| - 1], scope, st);
      assert cs[|cs| - 1] in cs;
      AnalyzeKeeps(cs[|cs| - 1], scope, mid);
    }
  }

  /** Every key is some name, `@`, and the scope its entry records. */
  ghost predicate Scoped(table: map<string, Symbol>) {
    forall k :: k in table ==> exists name :: k == Key(name, table[k].scope)
  }

  lemma {:induction false} AnalyzeScoped(n: Node, scope: string, st: Analysis)
    requires Scoped(st.table)
    ensures Scoped(Analyze(n, scope, st).table)
    decreases n
  {
    if n.kind == Function && Truthy(n.value) {
      var f := n.value.value;
      var entered := st.(table := st.table[Key(f, scope) := Symbol("function", scope, LineOf(n))]);
      assert Scoped(entered.table) by {
        forall k | k in entered.table
          ensures exists name :: k == Key(name, entered.table[k].scope)
        {
          if k == Key(f, scope) {
            assert k == Key(f, entered.table[k].scope);
          }
        }
      }
      AnalyzeAllScoped(n.children, scope + "." + f, entered);
    } else if n.kind == VariableDeclaration && Truthy(n.value) {
      var parts := Split(n.value.value, ' ');
      if |parts| > 1 {
        var x := parts[1];
        var r := Analyze(n, scope, st);
        forall k | k in r.table
          ensures exists name :: k == Key(name, r.table[k].scope)
        {
          if k == Key(x, scope) && Key(x, scope) !in st.table {
            assert k == Key(x, r.table[k].scope);
          }
        }
      }
    } else {
      AnalyzeAllScoped(n.children, scope, st);
    }
  }

  lemma {:induction false} AnalyzeAllScoped(cs: seq<Node>, scope: string, st: Analysis)
    requires Scoped(st.table)
    ensures Scoped(AnalyzeAll(cs, scope, st).table)
    decreases cs
  {
    if cs != [] {
      AnalyzeAllScoped(cs[..|cs| - 1], scope, st);
      AnalyzeScoped(cs[|cs| - 1], scope, AnalyzeAll(cs[..|cs| - 1], scope, st));
    }
  }

  /** Error `j` names a variable whose key the table holds. */
  ghost predicate ExplainedAt(r: Analysis, j: nat)
    requires j < |r.errors|
  {
    exists x, s :: r.errors[j] == RedeclarationError(x, s) && Key(x, s) in r.table
  }

  /** Each error from `from` on names a variable whose key the final table holds. */
  ghost predicate Explained(r: Analysis, from: nat)
    requires from <= |r.errors|
  {
    forall j :: from <= j < |r.errors| ==> ExplainedAt(r, j)
  }

  lemma {:induction false} AnalyzeExplained(n: Node, scope: string, st: Analysis)
    ensures Grows(st, Analyze(n, scope, st)) && Explained(Analyze(n, scope, st), |st.errors|)
    decreases n
  {
    AnalyzeGrows(n, scope, st);
    if n.kind == Function && Truthy(n.value) {
      var f := n.value.value;
      var entered := st.(table := st.table[Key(f, scope) := Symbol("function", scope, LineOf(n))]);
      AnalyzeAllExplained(n.children, scope + "." + f, entered);
    } else if n.kind == VariableDeclaration && Truthy(n.value) {
      var parts := Split(n.value.value, ' ');
      if |parts| > 1 && Key(parts[1], scope) in st.table {
        var r := Analyze(n, scope, st);
        assert r.errors[|st.errors|] == RedeclarationError(parts[1], scope);
      }
    } else {
      AnalyzeAllExplained(n.children, scope, st);
    }
  }

  lemma {:induction false} AnalyzeAllExplained(cs: seq<Node>, scope: string, st: Analysis)
    ensures Grows(st, AnalyzeAll(cs, scope, st)) && Explained(AnalyzeAll(cs, scope, st), |st.errors|)
    decreases cs
  {
    AnalyzeAllGrows(cs, scope, st);
    if cs != [] {
      var mid := AnalyzeAll(cs[..|cs| - 1], scope, st);
      AnalyzeAllExplained(cs[..|cs| - 1], scope, st);
      AnalyzeExplained(cs[|cs| - 1], scope, mid);
      AnalyzeGrows(cs[|cs| - 1], scope, mid);
      ExplainedStep(mid, AnalyzeAll(cs, scope, st), |st.errors|);
    }
  }

  /** Errors explained before a step that keeps every key stay explained after it. */
  lemma ExplainedStep(mid: Analysis, r: Analysis, from: nat)
    requires from <= |mid.errors| && Grows(mid, r)
    requires Explained(mid, from) && Explained(r, |mid.errors|)
    ensures Explained(r, from)
  {
    forall j | from <= j < |r.errors|
      ensures ExplainedAt(r, j)
    {
      if j < |mid.errors| {
        assert r.errors[j] == r.errors[..|mid.errors|][j] == mid.errors[j];
        assert ExplainedAt(mid, j);
        var x, s :| mid.errors[j] == RedeclarationError(x, s) && Key(x, s) in mid.table;
        assert Key(x, s) in r.table;
      }
    }
  }

  /** Every error of the analysis is a redeclaration of a key its table holds. */
  lemma ErrorsExplained(ast: Node)
    ensures Explained(AnalysisOf(ast), 0)
    ensures Scoped(AnalysisOf(ast).table)
  {
    AnalyzeExplained(ast, "global", Analysis(map[], []));
    AnalyzeScoped(ast, "global", Analysis(map[], []));
  }

  // ---------------------------------------------------------------------
  // The table of a parsed program

  /** Flat statements add entries only for their own scope, all at line 0, and change none. */
  lemma {:induction false} StatementsEffect(cs: seq<Node>, scope: string, st: Analysis)
    requires forall c :: c in cs ==> StatementNode(c)
    ensures var r := AnalyzeAll(cs, scope, st);
      && Keeps(st, r)
      && forall k :: k in r.table ==> k in st.table || (r.table[k].scope == scope && r.table[k].line == 0)
    decreases |cs|
  {
    if cs != [] {
      var mid := AnalyzeAll(cs[..|cs| - 1], scope, st);
      StatementsEffect(cs[..|cs| - 1], scope, st);
      assert cs[|cs| - 1] in cs;
      assert AnalyzeAll([], scope, mid) == mid;
    }
  }

  /** The invariant of the function loop, over the functions `fs` seen so far. */
  ghost predicate FunctionTable(fs: seq<Node>, table: map<string, Symbol>) {
    && (forall k :: k in table ==> table[k].line == 0)
    && (forall k :: k in table && table[k].scope == "global" ==> table[k].kind == "function")
    && (forall k :: k in table && table[k].scope != "global" ==>
          exists c :: c in fs && Truthy(c.value) && table[k].scope == "global." + c.value.value)
    && (forall c :: c in fs && Truthy(c.value) ==>
          Key(c.value.value, "global") in table && table[Key(c.value.value, "global")] == Symbol("function", "global", 0))
  }

  /** The walk over a named function at the top level: its entry, then its body in its own scope. */
  lemma FunctionEntered(g: Node, st: Analysis)
    requires g.kind == Function && Truthy(g.value)
    ensures Analyze(g, "global", st) ==
      AnalyzeAll(g.children, "global." + g.value.value,
                 st.(table := st.table[Key(g.value.value, "global") := Symbol("function", "global", LineOf(g))]))
  {
    assert "global" + "." + g.value.value == "global." + g.value.value;
  }

  /** One more function keeps the invariant of the function loop. */
  lemma FunctionStep(front: seq<Node>, g: Node, mid: Analysis)
    requires FunctionTable(front, mid.table) && FunctionNode(g) && NamedOrEmpty(g)
    ensures FunctionTable(front + [g], Analyze(g, "global", mid).table)
  {
    var fs := front + [g];
    var r := Analyze(g, "global", mid);
    assert g in fs;
    assert forall c :: c in front ==> c in fs;
    if Truthy(g.value) {
      var name := g.value.value;
      var scope := "global." + name;
      var entered := mid.(table := mid.table[Key(name, "global") := Symbol("function", "global", 0)]);
      assert LineOf(g) == 0;
      FunctionEntered(g, mid);
      assert r == AnalyzeAll(g.children, scope, entered);
      StatementsEffect(g.children, scope, entered);
      assert scope[..6] == "global" && scope != "global";
      forall k | k in r.table && r.table[k].scope != "global"
        ensures exists c :: c in fs && Truthy(c.value) && r.table[k].scope == "global." + c.value.value
      {
        if k in entered.table {
          if k != Key(name, "global") {
            var c :| c in front && Truthy(c.value) && mid.table[k].scope == "global." + c.value.value;
          }
        }
      }
    } else {
      assert r == AnalyzeAll([], "global", mid) == mid;
    }
  }

  lemma {:induction false} FunctionsEffect(fs: seq<Node>)
    requires forall c :: c in fs ==> FunctionNode(c) && NamedOrEmpty(c)
    ensures FunctionTable(fs, AnalyzeAll(fs, "global", Analysis(map[], [])).table)
    decreases |fs|
  {
    if fs != [] {
      var front, g := fs[..|fs| - 1], fs[|fs| - 1];
      assert fs == front + [g];
      assert forall c :: c in front ==> c in fs;
      assert g in fs;
      FunctionsEffect(front);
      FunctionStep(front, g, AnalyzeAll(front, "global", Analysis(map[], [])));
    }
  }

  /**
   * In the table of a parsed program every entry is at line 0; the entries
   * of scope `global` are functions, the others belong to the scope
   * `global.f` of a named function `f`; and every named function `f` has
   * the entry `f@global` of type `function`.
   */
  lemma ParsedTable(tokens: seq<Token>)
    requires forall t :: t in tokens ==> t.value != ""
    ensures FunctionTable(Parse(tokens).children, AnalysisOf(Parse(tokens)).table)
  {
    var ast := Parse(tokens);
    ParseWellShaped(tokens);
    ParseNamed(tokens);
    FunctionsEffect(ast.children);
  }
}
