/**
 * Phase 4, intermediate code generation (`generateIntermediateCode`).
 *
 * A recursive walk pushes three-address instructions: FUNC_BEGIN/FUNC_END
 * around a named function's code, PRINT_STR for a printed string literal,
 * EVAL into a fresh temporary followed by PRINT or RETURN of it, ASSIGN for
 * an initialised declaration or an assignment and DECLARE for a bare
 * declaration.  The text of each statement is taken apart by a regular
 * expression; each is written out below as a function that finds the
 * leftmost match and its captures.  One temporary counter serves the whole
 * run.
 */
module IrGen {
  import opened Wrappers
  import opened Text
  import opened Lexer
  import opened Parser

  /** One three-address instruction (`operation`, `args`, `result`). */
  datatype Instr = Instr(op: string, args: seq<string>, result: string)

  /** The code pushed so far and the temporary counter. */
  datatype Gen = Gen(code: seq<Instr>, temps: nat)

  /** The name `newTemp` gives for counter value `k`. */
  function Temp(k: nat): string {
    "t" + NatToString(k)
  }

  // ---------------------------------------------------------------------
  // The regular expressions

  /** The first index at or after `i` where `w` occurs in `v`, or |v|. */
  function FindFrom(v: string, w: string, i: nat): (s: nat)
    requires i <= |v| && |w| > 0
    ensures i <= s <= |v|
    ensures s < |v| ==> StartsWith(v[s..], w)
    ensures forall k :: i <= k < s ==> !StartsWith(v[k..], w)
    decreases |v| - i
  {
    if i == |v| || StartsWith(v[i..], w) then i else FindFrom(v, w, i + 1)
  }

  /** Where `.+` from `p` stops: the first line terminator at or after `p`, or |v|. */
  function LineEnd(v: string, p: nat): (e: nat)
    requires p <= |v|
    ensures p <= e <= |v|
    ensures e < |v| ==> IsLineTerminator(v[e])
    ensures forall k :: p <= k < e ==> !IsLineTerminator(v[k])
    decreases |v| - p
  {
    if p == |v| || IsLineTerminator(v[p]) then p else LineEnd(v, p + 1)
  }

  /**
   * `(.+)` at the end of a pattern, tried at `p`, `p - 1`, …, `lo` in the
   * order in which a greedy `\s` run before it gives characters back: the
   * first start that is not a line terminator, up to the next one.
   */
  function DotsFrom(v: string, lo: nat, p: nat): Option<string>
    requires p <= |v|
    decreases p
  {
    if p < lo then None
    else if p < |v| && !IsLineTerminator(v[p]) then Some(v[p..LineEnd(v, p)])
    else if p == 0 then None
    else DotsFrom(v, lo, p - 1)
  }

  /** `\s{least,}(.+)` at `from`. */
  function Capture(v: string, from: nat, least: nat): Option<string>
    requires from <= |v|
  {
    DotsFrom(v, from + least, SkipWs(v, from))
  }

  /** `\s*\)` matches at `j`: whitespace, then a `)`. */
  predicate ParenAfter(v: string, j: nat)
    requires j <= |v|
  {
    SkipWs(v, j) < |v| && v[SkipWs(v, j)] == ')'
  }

  /**
   * The largest `j` with `a < j <= e` at which `\s*\)` matches, or -1:
   * where a greedy `.+` from `a` that can reach `e` stops giving back.
   */
  function CloseFrom(v: string, a: nat, e: nat): (j: int)
    requires e <= |v|
    ensures j == -1 || (a < j <= e && ParenAfter(v, j))
    ensures forall k :: j < k <= e && a < k ==> !ParenAfter(v, k)
    decreases e
  {
    if e <= a then -1
    else if ParenAfter(v, e) then e
    else CloseFrom(v, a, e - 1)
  }

  /** `(.+)\s*\)` with the group tried at `p`, `p - 1`, …, `lo`. */
  function PrintArg(v: string, lo: nat, p: nat): Option<string>
    requires p <= |v|
    decreases p
  {
    if p < lo then None
    else
      var j := CloseFrom(v, p, LineEnd(v, p));
      if j > p then Some(v[p..j])
      else if p == 0 then None
      else PrintArg(v, lo, p - 1)
  }

  /** `/print\s*\(\s*(.+)\s*\)/` with `print` at `s`. */
  function PrintAt(v: string, s: nat): Option<string>
    requires s + 5 <= |v|
  {
    var w := SkipWs(v, s + 5);
    if w < |v| && v[w] == '(' then PrintArg(v, w + 1, SkipWs(v, w + 1))
    else None
  }

  function PrintMatch(v: string, i: nat): Option<string>
    requires i <= |v|
    decreases |v| - i
  {
    var s := FindFrom(v, "print", i);
    if s == |v| then None
    else if PrintAt(v, s).Some? then PrintAt(v, s)
    else PrintMatch(v, s + 1)
  }

  /** `/return\s+(.+)/` with `return` at `s`. */
  function ReturnAt(v: string, s: nat): Option<string>
    requires s + 6 <= |v|
  {
    Capture(v, s + 6, 1)
  }

  function ReturnMatch(v: string, i: nat): Option<string>
    requires i <= |v|
    decreases |v| - i
  {
    var s := FindFrom(v, "return", i);
    if s == |v| then None
    else if ReturnAt(v, s).Some? then ReturnAt(v, s)
    else ReturnMatch(v, s + 1)
  }

  /** The identifier `[a-zA-Z_][a-zA-Z0-9_]*` after `var\s+` with `var` at `s`, as its end index. */
  function VarNameEnd(v: string, s: nat): Option<nat>
    requires s + 3 <= |v|
  {
    var u := SkipWs(v, s + 3);
    if u == s + 3 || u == |v| || !IsIdentStart(v[u]) then None
    else Some(WordEnd(v, u + 1))
  }

  /**
   * The index of the `=` of `\s*(?::\s*[a-zA-Z\[\]]+)?\s*=` from `n`, the
   * end of the name, or -1.
   */
  function InitEquals(v: string, n: nat): (e: int)
    requires n <= |v|
    ensures -1 <= e < |v|
    ensures e >= 0 ==> v[e] == '='
  {
    var q := SkipWs(v, n);
    if q < |v| && v[q] == ':' then
      var q2 := SkipWs(v, q + 1);
      var te := TypeEnd(v, q2);
      var e := SkipWs(v, te);
      if te > q2 && e < |v| && v[e] == '=' then e else -1
    else if q < |v| && v[q] == '=' then q
    else -1
  }

  /** A name and the text of its value. */
  datatype Binding = Binding(name: string, value: string)

  /** `/var\s+([a-zA-Z_][a-zA-Z0-9_]*)\s*(?::\s*[a-zA-Z\[\]]+)?\s*=\s*(.+)/` with `var` at `s`. */
  function VarInitAt(v: string, s: nat): Option<Binding>
    requires s + 3 <= |v|
  {
    match VarNameEnd(v, s)
    case None => None
    case Some(ne) =>
      var u := SkipWs(v, s + 3);
      var e := InitEquals(v, ne);
      if e < 0 then None
      else match Capture(v, e + 1, 0)
        case None => None
        case Some(init) => Some(Binding(v[u..ne], init))
  }

  function VarInitMatch(v: string, i: nat): Option<Binding>
    requires i <= |v|
    decreases |v| - i
  {
    var s := FindFrom(v, "var", i);
    if s == |v| then None
    else if VarInitAt(v, s).Some? then VarInitAt(v, s)
    else VarInitMatch(v, s + 1)
  }

  /** `/var\s+([a-zA-Z_][a-zA-Z0-9_]*)/`. */
  function VarNameMatch(v: string, i: nat): Option<string>
    requires i <= |v|
    decreases |v| - i
  {
    var s := FindFrom(v, "var", i);
    if s == |v| then None
    else match VarNameEnd(v, s)
      case Some(ne) => Some(v[SkipWs(v, s + 3)..ne])
      case None => VarNameMatch(v, s + 1)
  }

  /**
   * The end of `[a-zA-Z0-9_]*(?:\[[^\]]+\])?` after an identifier start at
   * `s`, or -1 when a `[` follows the name without a closing `]` after at
   * least one character.
   */
  function TargetEnd(v: string, s: nat): (t: int)
    requires s < |v|
    ensures t == -1 || s < t <= |v|
  {
    var n := WordEnd(v, s + 1);
    if n < |v| && v[n] == '[' then
      var b := IndexOf(v, ']', n + 1);
      if n + 1 < b < |v| then b + 1 else -1
    else n
  }

  /** `/([a-zA-Z_][a-zA-Z0-9_]*(?:\[[^\]]+\])?)\s*=\s*(.+)/` starting at `s`. */
  function AssignAt(v: string, s: nat): Option<Binding>
    requires s < |v|
  {
    if !IsIdentStart(v[s]) then None
    else
      var t := TargetEnd(v, s);
      if t < 0 then None
      else
        var e := SkipWs(v, t);
        if e < |v| && v[e] == '=' then
          match Capture(v, e + 1, 0)
          case None => None
          case Some(value) => Some(Binding(v[s..t], value))
        else None
  }

  function AssignMatch(v: string, i: nat): Option<Binding>
    requires i <= |v|
    decreases |v| - i
  {
    if i == |v| then None
    else if AssignAt(v, i).Some? then AssignAt(v, i)
    else AssignMatch(v, i + 1)
  }

  // ---------------------------------------------------------------------
  // The walk

  /** The instructions a print statement with text `v` pushes, and the temporaries they use. */
  function PrintCode(v: string, k: nat): (seq<Instr>, nat) {
    match PrintMatch(v, 0)
    case None => ([], k)
    case Some(a) =>
      var arg := Trim(a);
      if StartsWith(arg, "\"") && EndsWith(arg, "\"") then ([Instr("PRINT_STR", [arg], "")], k)
      else ([Instr("EVAL", [arg], Temp(k)), Instr("PRINT", [Temp(k)], "")], k + 1)
  }

  function ReturnCode(v: string, k: nat): (seq<Instr>, nat) {
    match ReturnMatch(v, 0)
    case None => ([Instr("RETURN", [], "")], k)
    case Some(r) => ([Instr("EVAL", [Trim(r)], Temp(k)), Instr("RETURN", [Temp(k)], "")], k + 1)
  }

  function DeclarationCode(v: string): seq<Instr> {
    match VarInitMatch(v, 0)
    case Some(b) => [Instr("ASSIGN", [Trim(b.value)], b.name)]
    case None =>
      match VarNameMatch(v, 0)
      case Some(x) => [Instr("DECLARE", [x], "")]
      case None => []
  }

  function AssignmentCode(v: string): seq<Instr> {
    match AssignMatch(v, 0)
    case Some(b) => [Instr("ASSIGN", [Trim(b.value)], b.name)]
    case None => []
  }

  /** The simple statements, whose text is taken apart by a regular expression. */
  predicate Simple(k: NodeKind) {
    k in {PrintStatement, ReturnStatement, VariableDeclaration, Assignment}
  }

  /** The instructions a simple statement with text `n.value` pushes, and the new counter. */
  function Emit(n: Node, k: nat): (seq<Instr>, nat)
    requires Truthy(n.value)
  {
    match n.kind
    case PrintStatement => PrintCode(n.value.value, k)
    case ReturnStatement => ReturnCode(n.value.value, k)
    case VariableDeclaration => (DeclarationCode(n.value.value), k)
    case Assignment => (AssignmentCode(n.value.value), k)
    case _ => ([], k)
  }

  /** `generateForNode(n)` applied to the state `g`. */
  function GenNode(n: Node, g: Gen): Gen
    decreases n
  {
    if n.kind == Program then GenAll(n.children, g)
    else if n.kind == Function && Truthy(n.value) then
      var f := n.value.value;
      var body := GenAll(n.children, Gen(g.code + [Instr("FUNC_BEGIN", [f], "")], g.temps));
      Gen(body.code + [Instr("FUNC_END", [f], "")], body.temps)
    else if Simple(n.kind) && Truthy(n.value) then
      var e := Emit(n, g.temps);
      Gen(g.code + e.0, e.1)
    else if n.kind == Statement then GenAll(n.children, g)
    else g
  }

  /** `children.forEach(generateForNode)`. */
  function GenAll(cs: seq<Node>, g: Gen): Gen
    decreases cs
  {
    if cs == [] then g else GenNode(cs[|cs| - 1], GenAll(cs[..|cs| - 1], g))
  }

  function Generate(ast: Node): seq<Instr> {
    GenNode(ast, Gen([], 0)).code
  }

  /** The code buffer and temporary counter that `generateForNode` and `newTemp` update. */
  class Generator {
    var intermediateCode: seq<Instr>
    var tempCounter: nat

    constructor ()
      ensures intermediateCode == [] && tempCounter == 0
    {
      intermediateCode := [];
      tempCounter := 0;
    }

    method NewTemp() returns (t: string)
      modifies this
      ensures t == Temp(old(tempCounter)) && tempCounter == old(tempCounter) + 1
      ensures intermediateCode == old(intermediateCode)
    {
      t := Temp(tempCounter);
      tempCounter := tempCounter + 1;
    }

    method GenerateForNode(node: Node)
      modifies this
      ensures Gen(intermediateCode, tempCounter) == GenNode(node, old(Gen(intermediateCode, tempCounter)))
      decreases node
    {
      if node.kind == Program {
        GenerateForChildren(node);
      } else if node.kind == Function && Truthy(node.value) {
        intermediateCode := intermediateCode + [Instr("FUNC_BEGIN", [node.value.value], "")];
        GenerateForChildren(node);
        intermediateCode := intermediateCode + [Instr("FUNC_END", [node.value.value], "")];
      } else if node.kind == PrintStatement && Truthy(node.value) {
        GeneratePrint(node.value.value);
      } else if node.kind == ReturnStatement && Truthy(node.value) {
        GenerateReturn(node.value.value);
      } else if node.kind == VariableDeclaration && Truthy(node.value) {
        GenerateDeclaration(node.value.value);
      } else if node.kind == Assignment && Truthy(node.value) {
        GenerateAssignment(node.value.value);
      } else if node.kind == Statement {
        GenerateForChildren(node);
      }
    }

    /** The PrintStatement branch of `generateForNode` for the text `value`. */
    method GeneratePrint(value: string)
      modifies this
      ensures (intermediateCode, tempCounter) ==
        (old(intermediateCode) + PrintCode(value, old(tempCounter)).0, PrintCode(value, old(tempCounter)).1)
    {
      var printMatch := PrintMatch(value, 0);
      if printMatch.Some? {
        var printArg := Trim(printMatch.value);
        if StartsWith(printArg, "\"") && EndsWith(printArg, "\"") {
          intermediateCode := intermediateCode + [Instr("PRINT_STR", [printArg], "")];
        } else {
          var temp := NewTemp();
          intermediateCode := intermediateCode + [Instr("EVAL", [printArg], temp)];
          intermediateCode := intermediateCode + [Instr("PRINT", [temp], "")];
          assert intermediateCode == old(intermediateCode) + [Instr("EVAL", [printArg], temp), Instr("PRINT", [temp], "")];
        }
      } else {
        assert intermediateCode + [] == intermediateCode;
      }
    }

    /** The ReturnStatement branch. */
    method GenerateReturn(value: string)
      modifies this
      ensures (intermediateCode, tempCounter) ==
        (old(intermediateCode) + ReturnCode(value, old(tempCounter)).0, ReturnCode(value, old(tempCounter)).1)
    {
      var returnMatch := ReturnMatch(value, 0);
      if returnMatch.Some? {
        var returnValue := Trim(returnMatch.value);
        var temp := NewTemp();
        intermediateCode := intermediateCode + [Instr("EVAL", [returnValue], temp)];
        intermediateCode := intermediateCode + [Instr("RETURN", [temp], "")];
        assert intermediateCode == old(intermediateCode) + [Instr("EVAL", [returnValue], temp), Instr("RETURN", [temp], "")];
      } else {
        intermediateCode := intermediateCode + [Instr("RETURN", [], "")];
      }
    }

    /** The VariableDeclaration branch. */
    method GenerateDeclaration(value: string)
      modifies this
      ensures intermediateCode == old(intermediateCode) + DeclarationCode(value)
      ensures tempCounter == old(tempCounter)
    {
      match VarInitMatch(value, 0) {
        case Some(b) =>
          intermediateCode := intermediateCode + [Instr("ASSIGN", [Trim(b.value)], b.name)];
        case None =>
          match VarNameMatch(value, 0) {
            case Some(x) =>
              intermediateCode := intermediateCode + [Instr("DECLARE", [x], "")];
            case None =>
              assert intermediateCode + [] == intermediateCode;
          }
      }
    }

    /** The Assignment branch. */
    method GenerateAssignment(value: string)
      modifies this
      ensures intermediateCode == old(intermediateCode) + AssignmentCode(value)
      ensures tempCounter == old(tempCounter)
    {
      match AssignMatch(value, 0) {
        case Some(b) =>
          intermediateCode := intermediateCode + [Instr("ASSIGN", [Trim(b.value)], b.name)];
        case None =>
          assert intermediateCode + [] == intermediateCode;
      }
    }

    /** The `forEach` over the children of `node`. */
    method GenerateForChildren(node: Node)
      modifies this
      ensures Gen(intermediateCode, tempCounter) == GenAll(node.children, old(Gen(intermediateCode, tempCounter)))
      decreases node, 0
    {
      var cs := node.children;
      for i := 0 to |cs|
        invariant Gen(intermediateCode, tempCounter) == GenAll(cs[..i], old(Gen(intermediateCode, tempCounter)))
      {
        assert cs[..i + 1][..i] == cs[..i];
        GenerateForNode(cs[i]);
      }
      assert cs[..|cs|] == cs;
    }
  }

  method GenerateIntermediateCode(ast: Node) returns (code: seq<Instr>)
    ensures code == Generate(ast)
  {
    var generator := new Generator();
    generator.GenerateForNode(ast);
    code := generator.intermediateCode;
  }

  // Properties of the patterns' captures

  /**
   * A final `(.+)` captures from the last start `q` the whitespace run can
   * give back to that is not a line terminator, up to the next line
   * terminator: a non-empty capture without one.
   */
  lemma {:induction false} DotsFromLine(v: string, lo: nat, p: nat) returns (q: nat)
    requires p <= |v| && DotsFrom(v, lo, p).Some?
    ensures lo <= q <= p && q < LineEnd(v, q)
    ensures DotsFrom(v, lo, p).value == v[q..LineEnd(v, q)]
    ensures forall k :: q < k <= p ==> k == |v| || IsLineTerminator(v[k])
    decreases p
  {
    if p < |v| && !IsLineTerminator(v[p]) {
      q := p;
    } else {
      q := DotsFromLine(v, lo, p - 1);
    }
  }

  /**
   * The print pattern's group runs from the last start `q` the whitespace
   * after `(` can give back to at which a `)` can be reached, to the
   * largest end `j` on its line from which only whitespace precedes a `)`.
   */
  lemma {:induction false} PrintArgLine(v: string, lo: nat, p: nat) returns (q: nat, j: nat)
    requires p <= |v| && PrintArg(v, lo, p).Some?
    ensures lo <= q <= p && q < j <= LineEnd(v, q) && ParenAfter(v, j)
    ensures PrintArg(v, lo, p).value == v[q..j]
    ensures forall k :: j < k <= LineEnd(v, q) ==> !ParenAfter(v, k)
    ensures forall k :: q < k <= p ==> CloseFrom(v, k, LineEnd(v, k)) == -1
    decreases p
  {
    var c := CloseFrom(v, p, LineEnd(v, p));
    if c > p {
      q, j := p, c;
    } else {
      q, j := PrintArgLine(v, lo, p - 1);
    }
  }

  // ---------------------------------------------------------------------
  // Properties of the generated code

  /** Two different counter values give two different temporaries. */
  lemma TempInjective(a: nat, b: nat)
    requires Temp(a) == Temp(b)
    ensures a == b
  {
    assert NatToString(a) == Temp(a)[1..];
    assert NatToString(b) == Temp(b)[1..];
    NatToStringInjective(a, b);
  }

  /** The arguments each operation carries, as the target-code generator reads them. */
  predicate WellFormed(i: Instr) {
    || (i.op in {"FUNC_BEGIN", "FUNC_END", "DECLARE", "PRINT"} && |i.args| == 1 && i.result == "")
    || (i.op == "PRINT_STR" && |i.args| == 1 && i.result == ""
        && StartsWith(i.args[0], "\"") && EndsWith(i.args[0], "\""))
    || (i.op in {"EVAL", "ASSIGN"} && |i.args| == 1 && i.result != "")
    || (i.op == "RETURN" && |i.args| <= 1 && i.result == "")
  }

  predicate AllWellFormed(code: seq<Instr>) {
    forall p :: 0 <= p < |code| ==> WellFormed(code[p])
  }

  lemma DeclarationWellFormed(v: string)
    ensures AllWellFormed(DeclarationCode(v))
  {
    match VarInitMatch(v, 0)
    case Some(b) => VarInitNamed(v, 0);
    case None =>
  }

  lemma AssignmentWellFormed(v: string)
    ensures AllWellFormed(AssignmentCode(v))
  {
    match AssignMatch(v, 0)
    case Some(b) => AssignNamed(v, 0);
    case None =>
  }

  /** A declaration's initialiser binds the (non-empty) identifier after `var`. */
  lemma {:induction false} VarInitNamed(v: string, i: nat)
    requires i <= |v| && VarInitMatch(v, i).Some?
    ensures VarInitMatch(v, i).value.name != ""
    decreases |v| - i
  {
    var s := FindFrom(v, "var", i);
    if VarInitAt(v, s).None? {
      VarInitNamed(v, s + 1);
    }
  }

  /** An assignment's target starts with an identifier character, so it is not empty. */
  lemma {:induction false} AssignNamed(v: string, i: nat)
    requires i <= |v| && AssignMatch(v, i).Some?
    ensures AssignMatch(v, i).value.name != ""
    decreases |v| - i
  {
    if AssignAt(v, i).None? {
      AssignNamed(v, i + 1);
    }
  }

  /** Every instruction the walk pushes onto well-formed code is well formed. */
  lemma {:induction false} GenNodeWellFormed(n: Node, g: Gen)
    requires AllWellFormed(g.code)
    ensures AllWellFormed(GenNode(n, g).code)
    decreases n
  {
    if n.kind == Program {
      GenAllWellFormed(n.children, g);
    } else if n.kind == Function && Truthy(n.value) {
      var f := n.value.value;
      var g1 := Gen(g.code + [Instr("FUNC_BEGIN", [f], "")], g.temps);
      GenAllWellFormed(n.children, g1);
    } else if n.kind == VariableDeclaration && Truthy(n.value) {
      DeclarationWellFormed(n.value.value);
    } else if n.kind == Assignment && Truthy(n.value) {
      AssignmentWellFormed(n.value.value);
    } else if n.kind == Statement {
      GenAllWellFormed(n.children, g);
    }
  }

  lemma {:induction false} GenAllWellFormed(cs: seq<Node>, g: Gen)
    requires AllWellFormed(g.code)
    ensures AllWellFormed(GenAll(cs, g).code)
    decreases cs
  {
    if cs != [] {
      GenAllWellFormed(cs[..|cs| - 1], g);
      GenNodeWellFormed(cs[|cs| - 1], GenAll(cs[..|cs| - 1], g));
    }
  }

  lemma GenerateWellFormed(ast: Node)
    ensures AllWellFormed(Generate(ast))
  {
    GenNodeWellFormed(ast, Gen([], 0));
  }

  /** The number of EVAL instructions in `code`, the temporaries it has used. */
  function CountEval(code: seq<Instr>): nat {
    if code == [] then 0
    else CountEval(code[..|code| - 1]) + (if code[|code| - 1].op == "EVAL" then 1 else 0)
  }

  lemma {:induction false} CountEvalAppend(a: seq<Instr>, b: seq<Instr>)
    ensures CountEval(a + b) == CountEval(a) + CountEval(b)
    decreases |b|
  {
    if b != [] {
      assert (a + b)[..|a + b| - 1] == a + b[..|b| - 1];
      CountEvalAppend(a, b[..|b| - 1]);
    } else {
      assert a + b == a;
    }
  }

  /** An instruction that reads the temporary of the EVAL just before it. */
  predicate Uses(i: Instr) {
    i.op == "PRINT" || (i.op == "RETURN" && i.args != [])
  }

  /** The `p`-th instruction, if an EVAL, writes the temporary numbered by the EVALs before it. */
  predicate FreshAt(code: seq<Instr>, p: nat)
    requires p < |code|
  {
    code[p].op == "EVAL" ==> code[p].result == Temp(CountEval(code[..p]))
  }

  /** Every EVAL is read by the PRINT or RETURN right after it, and only those read temporaries. */
  predicate PairedAt(code: seq<Instr>, p: nat)
    requires p < |code|
  {
    && (code[p].op == "EVAL" ==>
          p + 1 < |code| && code[p + 1].op in {"PRINT", "RETURN"} && code[p + 1].args == [code[p].result])
    && (Uses(code[p]) ==> p > 0 && code[p - 1].op == "EVAL" && code[p].args == [code[p - 1].result])
  }

  /** The state the walk keeps between statements. */
  predicate Numbered(g: Gen) {
    && g.temps == CountEval(g.code)
    && (forall p :: 0 <= p < |g.code| ==> FreshAt(g.code, p))
    && (forall p :: 0 <= p < |g.code| ==> PairedAt(g.code, p))
  }

  /** Code without temporaries. */
  predicate NoTemps(out: seq<Instr>) {
    forall p :: 0 <= p < |out| ==> out[p].op != "EVAL" && !Uses(out[p])
  }

  lemma NoTempsCount(out: seq<Instr>)
    requires NoTemps(out)
    ensures CountEval(out) == 0
    decreases |out|
  {
    if out != [] {
      NoTempsCount(out[..|out| - 1]);
    }
  }

  lemma {:induction false} AppendNoTemps(g: Gen, out: seq<Instr>)
    requires Numbered(g) && NoTemps(out)
    ensures Numbered(Gen(g.code + out, g.temps))
  {
    var c := g.code + out;
    CountEvalAppend(g.code, out);
    NoTempsCount(out);
    forall p | 0 <= p < |c|
      ensures FreshAt(c, p) && PairedAt(c, p)
    {
      if p < |g.code| {
        assert c[..p] == g.code[..p];
        assert FreshAt(g.code, p) && PairedAt(g.code, p);
      } else {
        assert c[p] == out[p - |g.code|];
      }
    }
  }

  lemma {:induction false} AppendTemp(g: Gen, arg: string, op: string)
    requires Numbered(g) && op in {"PRINT", "RETURN"}
    ensures Numbered(Gen(g.code + [Instr("EVAL", [arg], Temp(g.temps)), Instr(op, [Temp(g.temps)], "")], g.temps + 1))
  {
    var out := [Instr("EVAL", [arg], Temp(g.temps)), Instr(op, [Temp(g.temps)], "")];
    var c := g.code + out;
    CountEvalAppend(g.code, out);
    assert CountEval(out) == 1 by {
      assert out[..1][..0] == [];
      assert CountEval(out[..1]) == 1;
      assert out[..|out| - 1] == out[..1];
      assert op != "EVAL";
    }
    forall p | 0 <= p < |c|
      ensures FreshAt(c, p) && PairedAt(c, p)
    {
      if p < |g.code| {
        assert c[..p] == g.code[..p];
        assert FreshAt(g.code, p) && PairedAt(g.code, p);
      } else if p == |g.code| {
        assert c[..p] == g.code;
      }
    }
  }

  lemma PrintNumbered(v: string, g: Gen)
    requires Numbered(g)
    ensures Numbered(Gen(g.code + PrintCode(v, g.temps).0, PrintCode(v, g.temps).1))
  {
    match PrintMatch(v, 0) {
      case None => AppendNoTemps(g, []);
      case Some(a) =>
        var arg := Trim(a);
        if StartsWith(arg, "\"") && EndsWith(arg, "\"") {
          AppendNoTemps(g, [Instr("PRINT_STR", [arg], "")]);
        } else {
          assert PrintCode(v, g.temps) == ([Instr("EVAL", [arg], Temp(g.temps)), Instr("PRINT", [Temp(g.temps)], "")], g.temps + 1);
          AppendTemp(g, arg, "PRINT");
        }
    }
  }

  lemma ReturnNumbered(v: string, g: Gen)
    requires Numbered(g)
    ensures Numbered(Gen(g.code + ReturnCode(v, g.temps).0, ReturnCode(v, g.temps).1))
  {
    match ReturnMatch(v, 0) {
      case None => AppendNoTemps(g, [Instr("RETURN", [], "")]);
      case Some(r) =>
        assert ReturnCode(v, g.temps) == ([Instr("EVAL", [Trim(r)], Temp(g.temps)), Instr("RETURN", [Temp(g.temps)], "")], g.temps + 1);
        AppendTemp(g, Trim(r), "RETURN");
    }
  }

  lemma EmitNumbered(n: Node, g: Gen)
    requires Numbered(g) && Truthy(n.value)
    ensures Numbered(Gen(g.code + Emit(n, g.temps).0, Emit(n, g.temps).1))
  {
    var v := n.value.value;
    match n.kind {
      case PrintStatement => PrintNumbered(v, g);
      case ReturnStatement => ReturnNumbered(v, g);
      case VariableDeclaration => AppendNoTemps(g, DeclarationCode(v));
      case Assignment => AppendNoTemps(g, AssignmentCode(v));
      case _ => AppendNoTemps(g, []);
    }
  }

  /** Each statement keeps the numbering: fresh temporaries, each read once, right away. */
  lemma {:induction false} GenNodeNumbered(n: Node, g: Gen)
    requires Numbered(g)
    ensures Numbered(GenNode(n, g))
    decreases n
  {
    if n.kind == Program {
      GenAllNumbered(n.children, g);
    } else if n.kind == Function && Truthy(n.value) {
      var f := n.value.value;
      var g1 := Gen(g.code + [Instr("FUNC_BEGIN", [f], "")], g.temps);
      AppendNoTemps(g, [Instr("FUNC_BEGIN", [f], "")]);
      GenAllNumbered(n.children, g1);
      AppendNoTemps(GenAll(n.children, g1), [Instr("FUNC_END", [f], "")]);
    } else if Simple(n.kind) && Truthy(n.value) {
      EmitNumbered(n, g);
    } else if n.kind == Statement {
      GenAllNumbered(n.children, g);
    }
  }

  lemma {:induction false} GenAllNumbered(cs: seq<Node>, g: Gen)
    requires Numbered(g)
    ensures Numbered(GenAll(cs, g))
    decreases cs
  {
    if cs != [] {
      GenAllNumbered(cs[..|cs| - 1], g);
      GenNodeNumbered(cs[|cs| - 1], GenAll(cs[..|cs| - 1], g));
    }
  }

  /**
   * In the generated code the k-th EVAL writes `t<k>`, the PRINT or RETURN
   * right after it reads that temporary, and no other instruction reads one.
   */
  lemma GenerateNumbered(ast: Node)
    ensures Numbered(Gen(Generate(ast), CountEval(Generate(ast))))
  {
    GenNodeNumbered(ast, Gen([], 0));
  }

  lemma CountEvalHead(b: seq<Instr>)
    requires b != [] && b[0].op == "EVAL"
    ensures CountEval(b) >= 1
  {
    assert b == [b[0]] + b[1..];
    CountEvalAppend([b[0]], b[1..]);
    assert [b[0]][..0] == [];
  }

  /** `newTemp` never hands out a name twice: distinct EVALs write distinct temporaries. */
  lemma TempsDistinct(g: Gen, p: nat, q: nat)
    requires Numbered(g) && p < q < |g.code|
    requires g.code[p].op == "EVAL" && g.code[q].op == "EVAL"
    ensures g.code[p].result != g.code[q].result
  {
    var c := g.code;
    assert FreshAt(c, p) && FreshAt(c, q);
    assert c[..q] == c[..p] + c[p..q];
    CountEvalAppend(c[..p], c[p..q]);
    CountEvalHead(c[p..q]);
    if c[p].result == c[q].result {
      TempInjective(CountEval(c[..p]), CountEval(c[..q]));
    }
  }

  // ---------------------------------------------------------------------
  // Function brackets

  predicate IsBracket(i: Instr) {
    i.op == "FUNC_BEGIN" || i.op == "FUNC_END"
  }

  /** The FUNC_BEGIN and FUNC_END instructions of `code`, in order. */
  function Brackets(code: seq<Instr>): (r: seq<Instr>)
    ensures forall i :: i in r ==> i in code && IsBracket(i)
  {
    if code == [] then []
    else Brackets(code[..|code| - 1]) + (if IsBracket(code[|code| - 1]) then [code[|code| - 1]] else [])
  }

  lemma {:induction false} BracketsAppend(a: seq<Instr>, b: seq<Instr>)
    ensures Brackets(a + b) == Brackets(a) + Brackets(b)
    decreases |b|
  {
    if b != [] {
      assert (a + b)[..|a + b| - 1] == a + b[..|b| - 1];
      BracketsAppend(a, b[..|b| - 1]);
    } else {
      assert a + b == a;
    }
  }

  /** The brackets the function node `f` should get: a BEGIN/END pair when it is named. */
  function Pair(f: Node): seq<Instr> {
    if Truthy(f.value) then [Instr("FUNC_BEGIN", [f.value.value], ""), Instr("FUNC_END", [f.value.value], "")]
    else []
  }

  /** The brackets the functions `fs` of a program should get, in order. */
  function Expected(fs: seq<Node>): seq<Instr> {
    if fs == [] then [] else Expected(fs[..|fs| - 1]) + Pair(fs[|fs| - 1])
  }

  lemma NoBrackets(out: seq<Instr>)
    requires forall i :: i in out ==> !IsBracket(i)
    ensures Brackets(out) == []
    decreases |out|
  {
    if out != [] {
      NoBrackets(out[..|out| - 1]);
    }
  }

  lemma EmitNoBrackets(n: Node, k: nat)
    requires Truthy(n.value)
    ensures forall i :: i in Emit(n, k).0 ==> !IsBracket(i)
  {
  }

  /** A statement adds no brackets. */
  lemma StatementBrackets(n: Node, g: Gen)
    requires StatementNode(n)
    ensures Brackets(GenNode(n, g).code) == Brackets(g.code)
  {
    if n.kind == Statement {
      assert n.children == [];
    } else if Truthy(n.value) {
      var out := Emit(n, g.temps).0;
      assert GenNode(n, g).code == g.code + out;
      EmitNoBrackets(n, g.temps);
      BracketsAppend(g.code, out);
      NoBrackets(out);
    }
  }

  lemma {:induction false} BodyBrackets(cs: seq<Node>, g: Gen)
    requires forall c :: c in cs ==> StatementNode(c)
    ensures Brackets(GenAll(cs, g).code) == Brackets(g.code)
    decreases cs
  {
    if cs != [] {
      BodyBrackets(cs[..|cs| - 1], g);
      StatementBrackets(cs[|cs| - 1], GenAll(cs[..|cs| - 1], g));
    }
  }

  lemma BracketsPush(c: seq<Instr>, i: Instr)
    requires IsBracket(i)
    ensures Brackets(c + [i]) == Brackets(c) + [i]
  {
    assert (c + [i])[..|c + [i]| - 1] == c;
  }

  /** The walk over a named function: FUNC_BEGIN, the body, FUNC_END. */
  lemma FunctionCode(f: Node, h: Gen)
    requires f.kind == Function && Truthy(f.value)
    ensures var body := GenAll(f.children, Gen(h.code + [Instr("FUNC_BEGIN", [f.value.value], "")], h.temps));
      GenNode(f, h) == Gen(body.code + [Instr("FUNC_END", [f.value.value], "")], body.temps)
  {
  }

  lemma FunctionBrackets(f: Node, h: Gen)
    requires FunctionNode(f)
    ensures Brackets(GenNode(f, h).code) == Brackets(h.code) + Pair(f)
  {
    if Truthy(f.value) {
      var name := f.value.value;
      var b, e := Instr("FUNC_BEGIN", [name], ""), Instr("FUNC_END", [name], "");
      var h1 := Gen(h.code + [b], h.temps);
      var body := GenAll(f.children, h1);
      FunctionCode(f, h);
      BracketsPush(h.code, b);
      BodyBrackets(f.children, h1);
      BracketsPush(body.code, e);
      calc {
        Brackets(GenNode(f, h).code);
        Brackets(body.code + [e]);
        Brackets(body.code) + [e];
        Brackets(h.code) + [b] + [e];
        Brackets(h.code) + ([b] + [e]);
        { assert [b] + [e] == [b, e] == Pair(f); }
        Brackets(h.code) + Pair(f);
      }
    } else {
      assert GenNode(f, h) == h;
      assert Brackets(h.code) + [] == Brackets(h.code);
    }
  }

  lemma GenAllSnoc(cs: seq<Node>, c: Node, g: Gen)
    ensures GenAll(cs + [c], g) == GenNode(c, GenAll(cs, g))
  {
    assert (cs + [c])[..|cs|] == cs;
  }

  lemma ExpectedSnoc(fs: seq<Node>, f: Node)
    ensures Expected(fs + [f]) == Expected(fs) + Pair(f)
  {
    assert (fs + [f])[..|fs|] == fs;
  }

  /** One more function adds its pair after the pairs of the functions before it. */
  lemma FunctionsStep(init: seq<Node>, f: Node, g: Gen)
    requires FunctionNode(f)
    requires Brackets(GenAll(init, g).code) == Brackets(g.code) + Expected(init)
    ensures Brackets(GenAll(init + [f], g).code) == Brackets(g.code) + Expected(init + [f])
  {
    SnocBrackets(init, f, g);
    ExpectedSnoc(init, f);
    ConcatAssoc(Brackets(g.code), Expected(init), Pair(f));
  }

  lemma ConcatAssoc(a: seq<Instr>, b: seq<Instr>, c: seq<Instr>)
    ensures a + b + c == a + (b + c)
  {
  }

  /** Walking one more function appends its pair of brackets. */
  lemma SnocBrackets(init: seq<Node>, f: Node, g: Gen)
    requires FunctionNode(f)
    ensures Brackets(GenAll(init + [f], g).code) == Brackets(GenAll(init, g).code) + Pair(f)
  {
    GenAllSnoc(init, f, g);
    FunctionBrackets(f, GenAll(init, g));
  }

  lemma {:induction false} FunctionsBrackets(fs: seq<Node>, g: Gen)
    requires forall f :: f in fs ==> FunctionNode(f)
    ensures Brackets(GenAll(fs, g).code) == Brackets(g.code) + Expected(fs)
    decreases fs
  {
    if fs == [] {
      assert Brackets(g.code) + [] == Brackets(g.code);
    } else {
      var init, f := fs[..|fs| - 1], fs[|fs| - 1];
      assert fs == init + [f];
      assert forall x :: x in init ==> x in fs;
      assert f in fs;
      FunctionsBrackets(init, g);
      FunctionsStep(init, f, g);
    }
  }

  /**
   * For a parsed program the FUNC_BEGIN/FUNC_END instructions are exactly
   * one matching pair per named function, in source order.  What lies
   * inside each pair is stated, one function at a time, by FunctionCode.
   */
  lemma GenerateBrackets(ast: Node)
    requires WellShaped(ast)
    ensures Brackets(Generate(ast)) == Expected(ast.children)
  {
    FunctionsBrackets(ast.children, Gen([], 0));
  }

  // ---------------------------------------------------------------------
  // Statement texts as the parser produces them (token values joined by spaces)

  /** A typed declaration with an initialiser becomes an ASSIGN of the trimmed value. */
  lemma ExampleTypedInit()
    ensures DeclarationCode("var x : int = 5") == [Instr("ASSIGN", ["5"], "x")]
  {
    var v := "var x : int = 5";
    assert StartsWith(v[0..], "var");
    assert FindFrom(v, "var", 0) == 0;
    assert SkipWs(v, 4) == 4;
    assert SkipWs(v, 3) == 4;
    assert WordEnd(v, 5) == 5;
    assert VarNameEnd(v, 0) == Some(5);
    assert SkipWs(v, 6) == 6;
    assert SkipWs(v, 5) == 6;
    assert SkipWs(v, 8) == 8;
    assert SkipWs(v, 7) == 8;
    assert TypeEnd(v, 11) == 11;
    assert TypeEnd(v, 8) == 11;
    assert SkipWs(v, 12) == 12;
    assert SkipWs(v, 11) == 12;
    assert InitEquals(v, 5) == 12;
    assert SkipWs(v, 14) == 14;
    assert SkipWs(v, 13) == 14;
    assert LineEnd(v, 14) == 15;
    assert !IsLineTerminator(v[14]) && v[14..LineEnd(v, 14)] == v[14..];
    assert DotsFrom(v, 13, 14) == Some(v[14..]);
    assert Capture(v, 13, 0) == Some(v[14..]);
    assert v[14..] == "5" && v[4..5] == "x";
    assert VarInitMatch(v, 0) == Some(Binding("x", "5"));
    assert SkipWs("5", 0) == 0;
    assert SkipWsBack("5", 0, 1) == 1;
    assert Trim("5") == "5";
  }
  /** A declaration without `=` becomes a DECLARE of its name. */
  lemma ExampleBareDeclaration()
    ensures DeclarationCode("var y : int") == [Instr("DECLARE", ["y"], "")]
  {
    BareDeclarationNoInit();
    BareDeclarationName();
  }

  /** `var y : int` has no initialiser: no `=` follows its type. */
  lemma BareDeclarationNoInit()
    ensures VarInitMatch("var y : int", 0) == None
  {
    var v := "var y : int";
    assert StartsWith(v[0..], "var");
    assert FindFrom(v, "var", 0) == 0;
    assert SkipWs(v, 4) == 4;
    assert SkipWs(v, 3) == 4;
    assert WordEnd(v, 5) == 5;
    assert VarNameEnd(v, 0) == Some(5);
    assert SkipWs(v, 6) == 6;
    assert SkipWs(v, 5) == 6;
    assert SkipWs(v, 8) == 8;
    assert SkipWs(v, 7) == 8;
    assert TypeEnd(v, 11) == 11;
    assert TypeEnd(v, 8) == 11;
    assert SkipWs(v, 11) == 11;
    assert InitEquals(v, 5) == -1;
    assert VarInitAt(v, 0) == None;
    assert forall k :: 1 <= k < 11 ==> !StartsWith(v[k..], "var");
    assert FindFrom(v, "var", 1) == 11;
  }

  /** The name pattern of `var y : int` captures `y`. */
  lemma BareDeclarationName()
    ensures VarNameMatch("var y : int", 0) == Some("y")
  {
    var v := "var y : int";
    assert StartsWith(v[0..], "var");
    assert FindFrom(v, "var", 0) == 0;
    assert SkipWs(v, 4) == 4;
    assert SkipWs(v, 3) == 4;
    assert WordEnd(v, 5) == 5;
    assert VarNameEnd(v, 0) == Some(5);
    assert v[4..5] == "y";
  }

  /** An assignment becomes an ASSIGN of the text after `=`. */
  lemma ExampleAssignment()
    ensures AssignmentCode("x = x + 1") == [Instr("ASSIGN", ["x + 1"], "x")]
  {
    var v := "x = x + 1";
    assert WordEnd(v, 1) == 1;
    assert TargetEnd(v, 0) == 1;
    assert SkipWs(v, 2) == 2;
    assert SkipWs(v, 1) == 2;
    assert SkipWs(v, 4) == 4;
    assert SkipWs(v, 3) == 4;
    assert LineEnd(v, 8) == 9;
    assert LineEnd(v, 6) == 9;
    assert LineEnd(v, 4) == 9;
    assert !IsLineTerminator(v[4]) && v[4..LineEnd(v, 4)] == v[4..];
    assert DotsFrom(v, 4, 4) == Some(v[4..]);
    assert Capture(v, 4, 0) == Some(v[4..]);
    assert v[4..] == "x + 1";
    assert v[0..1] == "x";
    assert AssignAt(v, 0) == Some(Binding("x", "x + 1"));
    assert AssignMatch(v, 0) == Some(Binding("x", "x + 1"));
    var w := "x + 1";
    assert SkipWs(w, 0) == 0;
    assert SkipWsBack(w, 0, 5) == 5;
    assert Trim(w) == w;
  }
  /** Printing a string literal (tokens joined by spaces) gives PRINT_STR of the quoted text. */
  lemma ExamplePrintString()
    ensures PrintCode("print ( \"Hi\" )", 0) == ([Instr("PRINT_STR", ["\"Hi\""], "")], 0)
  {
    var v := "print ( \"Hi\" )";
    assert StartsWith(v[0..], "print");
    assert FindFrom(v, "print", 0) == 0;
    assert SkipWs(v, 6) == 6;
    assert SkipWs(v, 5) == 6;
    assert SkipWs(v, 8) == 8;
    assert SkipWs(v, 7) == 8;
    assert LineEnd(v, 12) == 14;
    assert LineEnd(v, 10) == 14;
    assert LineEnd(v, 8) == 14;
    assert SkipWs(v, 14) == 14 && SkipWs(v, 13) == 13;
    assert CloseFrom(v, 8, 14) == 13;
    assert PrintAt(v, 0) == Some(v[8..13]);
    assert v[8..13] == "\"Hi\" ";
    assert PrintMatch(v, 0) == Some("\"Hi\" ");
    var a := "\"Hi\" ";
    assert SkipWs(a, 0) == 0;
    assert SkipWsBack(a, 0, 4) == 4;
    assert SkipWsBack(a, 0, 5) == 4;
    assert Trim(a) == "\"Hi\"";
    assert StartsWith(Trim(a), "\"") && EndsWith(Trim(a), "\"");
  }
  /**
   * `.` does not match a line terminator, and `\s*\)` cannot reach the
   * closing parenthesis across the `b` after the carriage return: this
   * print statement pushes nothing.
   */
  lemma ExamplePrintLineBreak(k: nat)
    ensures PrintCode("print ( \"a\rb\" )", k) == ([], k)
  {
    var v := "print ( \"a\rb\" )";
    assert PrintMatch(v, 1) == None by {
      NoPrintFrom(v, 1);
    }
    assert StartsWith(v[0..], "print");
    PrintAtLineBreak();
  }

  /**
   * When a `)` follows the carriage return after whitespace only, the print
   * group stops at the carriage return: `"a` is taken for an expression.
   */
  lemma ExamplePrintCloseInLiteral(k: nat)
    ensures PrintCode("print ( \"a\r)\" )", k)
      == ([Instr("EVAL", ["\"a"], Temp(k)), Instr("PRINT", [Temp(k)], "")], k + 1)
  {
    var v := "print ( \"a\r)\" )";
    assert StartsWith(v[0..], "print");
    assert FindFrom(v, "print", 0) == 0;
    assert SkipWs(v, 6) == 6;
    assert SkipWs(v, 5) == 6;
    assert SkipWs(v, 8) == 8;
    assert SkipWs(v, 7) == 8;
    assert LineEnd(v, 10) == 10;
    assert LineEnd(v, 8) == 10;
    assert SkipWs(v, 11) == 11 && SkipWs(v, 10) == 11;
    assert ParenAfter(v, 10);
    assert CloseFrom(v, 8, 10) == 10;
    assert v[8..10] == "\"a";
    assert PrintAt(v, 0) == Some("\"a");
    assert PrintMatch(v, 0) == Some("\"a");
    var a := "\"a";
    assert SkipWs(a, 0) == 0;
    assert SkipWsBack(a, 0, 2) == 2;
    assert Trim(a) == a;
    assert !EndsWith(a, "\"");
  }

  /** Without a `p` from `i` on, there is no match of the print pattern. */
  lemma NoPrintFrom(v: string, i: nat)
    requires i <= |v|
    requires forall j :: i <= j < |v| ==> v[j] != 'p'
    ensures PrintMatch(v, i) == None
  {
    var s := FindFrom(v, "print", i);
    StartsWithHead(v[s..], "print");
  }

  /** The match attempt at the one `print` of that text fails. */
  lemma PrintAtLineBreak()
    ensures PrintAt("print ( \"a\rb\" )", 0) == None
  {
    var v := "print ( \"a\rb\" )";
    assert SkipWs(v, 6) == 6;
    assert SkipWs(v, 5) == 6;
    assert SkipWs(v, 8) == 8;
    assert SkipWs(v, 7) == 8;
    assert LineEnd(v, 10) == 10;
    assert LineEnd(v, 8) == 10;
    assert LineEnd(v, 7) == 10;
    assert SkipWs(v, 11) == 11 && SkipWs(v, 10) == 11 && SkipWs(v, 9) == 9;
    assert CloseFrom(v, 8, 10) == -1;
    assert CloseFrom(v, 7, 10) == -1;
    assert PrintArg(v, 7, 8) == None;
  }

  /** A return with a value uses the next temporary. */
  lemma ExampleReturn()
    ensures ReturnCode("return 0", 3) == ([Instr("EVAL", ["0"], "t3"), Instr("RETURN", ["t3"], "")], 4)
  {
    var v := "return 0";
    assert StartsWith(v[0..], "return");
    assert FindFrom(v, "return", 0) == 0;
    assert SkipWs(v, 7) == 7;
    assert SkipWs(v, 6) == 7;
    assert LineEnd(v, 7) == 8;
    assert !IsLineTerminator(v[7]) && v[7..LineEnd(v, 7)] == v[7..];
    assert DotsFrom(v, 7, 7) == Some(v[7..]);
    assert ReturnAt(v, 0) == Some("0");
    assert ReturnMatch(v, 0) == Some("0");
    assert SkipWs("0", 0) == 0;
    assert SkipWsBack("0", 0, 1) == 1;
    assert Trim("0") == "0";
    assert NatToString(3) == "3";
    assert Temp(3) == "t3";
    assert ReturnCode(v, 3) == ([Instr("EVAL", [Trim("0")], Temp(3)), Instr("RETURN", [Temp(3)], "")], 4);
  }

  /** A returned string literal holding a carriage return is cut at it. */
  lemma ExampleReturnLineBreak(k: nat)
    ensures ReturnCode("return \"a\rb\"", k)
      == ([Instr("EVAL", ["\"a"], Temp(k)), Instr("RETURN", [Temp(k)], "")], k + 1)
  {
    var v := "return \"a\rb\"";
    assert StartsWith(v[0..], "return");
    assert FindFrom(v, "return", 0) == 0;
    assert SkipWs(v, 7) == 7;
    assert SkipWs(v, 6) == 7;
    assert LineEnd(v, 9) == 9;
    assert LineEnd(v, 7) == 9;
    assert !IsLineTerminator(v[7]) && v[7..LineEnd(v, 7)] == "\"a";
    assert DotsFrom(v, 7, 7) == Some("\"a");
    assert ReturnMatch(v, 0) == Some("\"a");
    var r := "\"a";
    assert SkipWs(r, 0) == 0;
    assert SkipWsBack(r, 0, 2) == 2;
    assert Trim(r) == r;
  }

  /** A `return` without a value (the statement `return;`) gives a RETURN with no arguments. */
  lemma ExampleBareReturn()
    ensures ReturnCode("return", 2) == ([Instr("RETURN", [], "")], 2)
  {
    var v := "return";
    assert StartsWith(v[0..], "return");
    assert FindFrom(v, "return", 0) == 0;
    assert SkipWs(v, 6) == 6;
    assert ReturnAt(v, 0).None?;
    assert FindFrom(v, "return", 1) == 6;
    assert ReturnMatch(v, 0).None?;
  }

  /**
   * Of the statement nodes only the four simple kinds emit code, and only
   * print and return statements use temporaries: if, for and while
   * statements, and plain statements, leave the code as it is.
   */
  lemma StatementEffect(n: Node, g: Gen)
    requires StatementNode(n)
    ensures GenNode(n, g).code != g.code ==> Simple(n.kind)
    ensures GenNode(n, g).temps != g.temps ==> n.kind in {PrintStatement, ReturnStatement}
    ensures GenNode(n, g).code[..|g.code|] == g.code
  {
    if Simple(n.kind) && Truthy(n.value) {
      var e := Emit(n, g.temps);
      assert (g.code + e.0)[..|g.code|] == g.code;
      if n.kind !in {PrintStatement, ReturnStatement} {
        assert e.1 == g.temps;
      }
    } else if n.kind == Statement {
      assert GenNode(n, g) == GenAll([], g) == g;
    }
  }
}
