/**
 * Phase 2, syntax analysis (`syntaxAnalysis`).
 *
 * COMMENT tokens are filtered out, then a cursor walks the rest:
 * `program NAME {` followed by functions up to the first `}`; each
 * `function NAME … {` followed by statements up to `}`; each statement is
 * the run of tokens up to the next `;` or `}` (no nesting is tracked), its
 * value the space-joined token texts and its kind decided by its first
 * token.  The parser never sets a line or a column.
 */
module Parser {
  import opened Wrappers
  import opened Text
  import opened Lexer

  datatype NodeKind =
    | Program | Function | Statement | VariableDeclaration | IfStatement
    | ForLoop | WhileLoop | ReturnStatement | PrintStatement | Assignment

  /** An AST node: `children` stands for the optional array, which the parser always creates. */
  datatype Node = Node(kind: NodeKind, value: Option<string>, children: seq<Node>,
                       line: Option<nat>, column: Option<nat>)

  /** JavaScript truthiness of an optional string: present and not empty. */
  predicate Truthy(v: Option<string>) {
    v.Some? && v.value != ""
  }

  /** A parse result and the cursor position after it. */
  datatype Parsed<+T> = Parsed(result: T, next: nat)

  predicate IsOp(t: Token, v: string) {
    t.kind == Operator && t.value == v
  }

  predicate IsKw(t: Token, v: string) {
    t.kind == Keyword && t.value == v
  }

  /** The tokens that end a statement. */
  predicate EndsStatement(t: Token) {
    IsOp(t, ";") || IsOp(t, "}")
  }

  /** `tokens.filter(token => token.type !== 'COMMENT')`. */
  function WithoutComments(tokens: seq<Token>): (r: seq<Token>)
    ensures |r| <= |tokens|
    ensures forall t :: t in r ==> t in tokens && t.kind != Comment
  {
    if tokens == [] then []
    else (if tokens[0].kind == Comment then [] else [tokens[0]]) + WithoutComments(tokens[1..])
  }

  /** The texts of the tokens, in order (`statementTokens.map(t => t.value)`). */
  function Values(ts: seq<Token>): (vs: seq<string>)
    ensures |vs| == |ts|
  {
    if ts == [] then [] else [ts[0].value] + Values(ts[1..])
  }

  /** The first index at or after `i` that ends a statement, or |toks|. */
  function StatementEnd(toks: seq<Token>, i: nat): (e: nat)
    requires i <= |toks|
    ensures i <= e <= |toks|
    ensures forall k :: i <= k < e ==> !EndsStatement(toks[k])
    ensures e == |toks| || EndsStatement(toks[e])
    decreases |toks| - i
  {
    if i < |toks| && !EndsStatement(toks[i]) then StatementEnd(toks, i + 1) else i
  }

  /** The first index at or after `i` holding the operator `v`, or |toks|. */
  function FindOp(toks: seq<Token>, v: string, i: nat): (k: nat)
    requires i <= |toks|
    ensures i <= k <= |toks|
    ensures forall j :: i <= j < k ==> !IsOp(toks[j], v)
    ensures k == |toks| || IsOp(toks[k], v)
    decreases |toks| - i
  {
    if i < |toks| && !IsOp(toks[i], v) then FindOp(toks, v, i + 1) else i
  }

  /** The kind of a statement, from its first token. */
  function StatementKind(ts: seq<Token>): NodeKind {
    if ts == [] then Statement
    else if ts[0].kind == Keyword then
      match ts[0].value
      case "var" => VariableDeclaration
      case "if" => IfStatement
      case "for" => ForLoop
      case "while" => WhileLoop
      case "return" => ReturnStatement
      case "print" => PrintStatement
      case _ => Statement
    else if ts[0].kind == Identifier then Assignment
    else Statement
  }

  /** `parseStatement` with the cursor at `i`. */
  function StatementAt(toks: seq<Token>, i: nat): (r: Parsed<Node>)
    requires i <= |toks|
    ensures i <= r.next <= |toks|
    ensures i < |toks| && !IsOp(toks[i], "}") ==> r.next > i
  {
    var e := StatementEnd(toks, i);
    var ts := toks[i..e];
    var next := if e < |toks| && IsOp(toks[e], ";") then e + 1 else e;
    Parsed(Node(StatementKind(ts), Some(Join(Values(ts), " ")), [], None, None), next)
  }

  /** The statement loop of `parseFunction`, from `i` to the next `}` or the end. */
  function BodyAt(toks: seq<Token>, i: nat): (r: Parsed<seq<Node>>)
    requires i <= |toks|
    ensures i <= r.next <= |toks|
    ensures r.next == |toks| || IsOp(toks[r.next], "}")
    decreases |toks| - i
  {
    if i == |toks| || IsOp(toks[i], "}") then Parsed([], i)
    else
      var s := StatementAt(toks, i);
      var rest := BodyAt(toks, s.next);
      Parsed([s.result] + rest.result, rest.next)
  }

  /** One turn of the statement loop: the statement at `i`, then the loop from after it. */
  lemma BodyStep(toks: seq<Token>, i: nat)
    requires i < |toks| && !IsOp(toks[i], "}")
    ensures var s := StatementAt(toks, i);
      && BodyAt(toks, i).result == [s.result] + BodyAt(toks, s.next).result
      && BodyAt(toks, i).next == BodyAt(toks, s.next).next
  {
  }

  /** `parseFunction` with the cursor on the `function` keyword at `i`. */
  function FunctionAt(toks: seq<Token>, i: nat): (r: Parsed<Node>)
    requires i < |toks|
    ensures i < r.next <= |toks|
  {
    var j := i + 1;
    if j < |toks| && toks[j].kind == Identifier then
      var k := FindOp(toks, "{", j + 1);
      if k < |toks| then
        var b := BodyAt(toks, k + 1);
        var next := if b.next < |toks| then b.next + 1 else b.next;
        Parsed(Node(Function, Some(toks[j].value), b.result, None, None), next)
      else
        Parsed(Node(Function, Some(toks[j].value), [], None, None), k)
    else
      Parsed(Node(Function, None, [], None, None), j)
  }

  /** A named function whose `{` is found: its body, and the `}` closing it consumed. */
  lemma FunctionAtBody(toks: seq<Token>, i: nat, k: nat, b: Parsed<seq<Node>>)
    requires i + 1 < |toks| && toks[i + 1].kind == Identifier
    requires k == FindOp(toks, "{", i + 2) && k < |toks| && b == BodyAt(toks, k + 1)
    ensures FunctionAt(toks, i).result == Node(Function, Some(toks[i + 1].value), b.result, None, None)
    ensures FunctionAt(toks, i).next == if b.next < |toks| then b.next + 1 else b.next
  {
  }

  /** A named function without a `{`: no body, and the cursor at the end. */
  lemma FunctionAtUnclosed(toks: seq<Token>, i: nat)
    requires i + 1 < |toks| && toks[i + 1].kind == Identifier && FindOp(toks, "{", i + 2) == |toks|
    ensures FunctionAt(toks, i) == Parsed(Node(Function, Some(toks[i + 1].value), [], None, None), |toks|)
  {
  }

  /** The function loop of `parseProgram`, from `i` to the next `}` or the end. */
  function FunctionsAt(toks: seq<Token>, i: nat): (r: Parsed<seq<Node>>)
    requires i <= |toks|
    ensures i <= r.next <= |toks|
    ensures r.next == |toks| || IsOp(toks[r.next], "}")
    decreases |toks| - i
  {
    if i == |toks| || IsOp(toks[i], "}") then Parsed([], i)
    else if IsKw(toks[i], "function") then
      var f := FunctionAt(toks, i);
      var rest := FunctionsAt(toks, f.next);
      Parsed([f.result] + rest.result, rest.next)
    else
      FunctionsAt(toks, i + 1)
  }

  /** `parseProgram` on the comment-free tokens. */
  function ProgramOf(toks: seq<Token>): Node {
    if |toks| > 1 && IsKw(toks[0], "program") && toks[1].kind == Identifier then
      var children := if |toks| > 2 && IsOp(toks[2], "{") then FunctionsAt(toks, 3).result else [];
      Node(Program, Some(toks[1].value), children, None, None)
    else
      Node(Program, None, [], None, None)
  }

  function Parse(tokens: seq<Token>): Node {
    ProgramOf(WithoutComments(tokens))
  }

  /** The cursor shared by the nested parsing closures of `syntaxAnalysis`. */
  class Parser {
    const tokens: seq<Token>
    var current: nat

    constructor (tokens: seq<Token>)
      ensures this.tokens == tokens && current == 0
    {
      this.tokens := tokens;
      current := 0;
    }

    method ParseStatement() returns (node: Node)
      requires current <= |tokens|
      modifies this
      ensures Parsed(node, current) == StatementAt(tokens, old(current))
    {
      var statementTokens: seq<Token> := [];
      var startIndex := current;
      while current < |tokens| && !EndsStatement(tokens[current])
        invariant startIndex <= current <= |tokens|
        invariant statementTokens == tokens[startIndex..current]
        invariant StatementEnd(tokens, current) == StatementEnd(tokens, startIndex)
        decreases |tokens| - current
      {
        statementTokens := statementTokens + [tokens[current]];
        current := current + 1;
      }
      if current < |tokens| && IsOp(tokens[current], ";") {
        current := current + 1;
      }
      node := Node(StatementKind(statementTokens), Some(Join(Values(statementTokens), " ")), [], None, None);
    }

    /** The statement loop of `parseFunction`. */
    method ParseBody() returns (children: seq<Node>)
      requires current <= |tokens|
      modifies this
      ensures Parsed(children, current) == BodyAt(tokens, old(current))
    {
      children := [];
      while current < |tokens| && !IsOp(tokens[current], "}")
        invariant old(current) <= current <= |tokens|
        invariant children + BodyAt(tokens, current).result == BodyAt(tokens, old(current)).result
        invariant BodyAt(tokens, current).next == BodyAt(tokens, old(current)).next
        decreases |tokens| - current
      {
        BodyStep(tokens, current);
        var statement := ParseStatement();
        children := children + [statement];
      }
      assert BodyAt(tokens, current) == Parsed([], current);
      assert children + [] == children;
    }

    method ParseFunction() returns (node: Node)
      requires current < |tokens|
      modifies this
      ensures Parsed(node, current) == FunctionAt(tokens, old(current))
    {
      ghost var at := current;
      node := Node(Function, None, [], None, None);
      current := current + 1;
      if current < |tokens| && tokens[current].kind == Identifier {
        node := node.(value := Some(tokens[current].value));
        current := current + 1;
        while current < |tokens| && !IsOp(tokens[current], "{")
          invariant at + 2 <= current <= |tokens|
          invariant FindOp(tokens, "{", current) == FindOp(tokens, "{", at + 2)
          decreases |tokens| - current
        {
          current := current + 1;
        }
        ghost var k := current;
        assert k == FindOp(tokens, "{", at + 2);
        if current < |tokens| && IsOp(tokens[current], "{") {
          current := current + 1;
          ghost var b := BodyAt(tokens, current);
          FunctionAtBody(tokens, at, k, b);
          var children := ParseBody();
          if current < |tokens| {
            current := current + 1;
          }
          node := node.(children := children);
        } else {
          FunctionAtUnclosed(tokens, at);
          assert FunctionAt(tokens, at) == Parsed(node, current);
        }
      } else {
        assert FunctionAt(tokens, at) == Parsed(node, current);
      }
    }

    /** The function loop of `parseProgram`. */
    method ParseFunctions() returns (children: seq<Node>)
      requires current <= |tokens|
      modifies this
      ensures Parsed(children, current) == FunctionsAt(tokens, old(current))
    {
      children := [];
      while current < |tokens| && !IsOp(tokens[current], "}")
        invariant old(current) <= current <= |tokens|
        invariant children + FunctionsAt(tokens, current).result == FunctionsAt(tokens, old(current)).result
        invariant FunctionsAt(tokens, current).next == FunctionsAt(tokens, old(current)).next
        decreases |tokens| - current
      {
        if IsKw(tokens[current], "function") {
          ghost var at := current;
          var fn := ParseFunction();
          assert FunctionsAt(tokens, at).result == [fn] + FunctionsAt(tokens, current).result;
          children := children + [fn];
        } else {
          current := current + 1;
        }
      }
      assert FunctionsAt(tokens, current) == Parsed([], current);
      assert children + [] == children;
    }

    method ParseProgram() returns (node: Node)
      requires current == 0
      modifies this
      ensures node == ProgramOf(tokens)
    {
      node := Node(Program, None, [], None, None);
      if current < |tokens| && IsKw(tokens[current], "program") {
        current := current + 1;
        if current < |tokens| && tokens[current].kind == Identifier {
          node := node.(value := Some(tokens[current].value));
          current := current + 1;
          if current < |tokens| && IsOp(tokens[current], "{") {
            current := current + 1;
            var children := ParseFunctions();
            if current < |tokens| && IsOp(tokens[current], "}") {
              current := current + 1;
            }
            node := node.(children := children);
          }
        }
      }
    }
  }

  method SyntaxAnalysis(tokens: seq<Token>) returns (ast: Node)
    ensures ast == Parse(tokens)
  {
    var codeTokens := WithoutComments(tokens);
    var parser := new Parser(codeTokens);
    ast := parser.ParseProgram();
  }

  // ---------------------------------------------------------------------
  // The statement scan

  /**
   * For the first statement end `e` at or after `i`: the statement is the
   * tokens before `e` joined with spaces, its kind is decided by them, a `;`
   * at `e` is consumed and a `}` (or the end of the tokens) is left.
   */
  lemma StatementScan(toks: seq<Token>, i: nat, e: nat)
    requires i <= e <= |toks|
    requires forall k :: i <= k < e ==> !EndsStatement(toks[k])
    requires e == |toks| || EndsStatement(toks[e])
    ensures var r := StatementAt(toks, i);
      && r.result.value == Some(Join(Values(toks[i..e]), " "))
      && r.result.kind == StatementKind(toks[i..e])
      && r.result.children == [] && r.result.line == None && r.result.column == None
      && r.next == (if e < |toks| && IsOp(toks[e], ";") then e + 1 else e)
  {
  }

  /** The statement kind depends on the first token alone. */
  lemma StatementKindTable(ts: seq<Token>)
    ensures StatementKind(ts) == VariableDeclaration <==> ts != [] && IsKw(ts[0], "var")
    ensures StatementKind(ts) == IfStatement <==> ts != [] && IsKw(ts[0], "if")
    ensures StatementKind(ts) == ForLoop <==> ts != [] && IsKw(ts[0], "for")
    ensures StatementKind(ts) == WhileLoop <==> ts != [] && IsKw(ts[0], "while")
    ensures StatementKind(ts) == ReturnStatement <==> ts != [] && IsKw(ts[0], "return")
    ensures StatementKind(ts) == PrintStatement <==> ts != [] && IsKw(ts[0], "print")
    ensures StatementKind(ts) == Assignment <==> ts != [] && ts[0].kind == Identifier
    ensures StatementKind(ts) !in {Program, Function}
  {
  }

  // ---------------------------------------------------------------------
  // The shape of the tree

  /** A statement node: a value, no children, no position. */
  predicate StatementNode(n: Node) {
    n.kind !in {Program, Function} && n.value.Some? && n.children == [] && n.line == None && n.column == None
  }

  /** A function node: statement children only, no position. */
  predicate FunctionNode(n: Node) {
    && n.kind == Function && n.line == None && n.column == None
    && forall c :: c in n.children ==> StatementNode(c)
  }

  /** The two-level tree: a Program whose children are function nodes. */
  predicate WellShaped(n: Node) {
    && n.kind == Program && n.line == None && n.column == None
    && forall c :: c in n.children ==> FunctionNode(c)
  }

  lemma {:induction false} BodyStatements(toks: seq<Token>, i: nat)
    requires i <= |toks|
    ensures forall c :: c in BodyAt(toks, i).result ==> StatementNode(c)
    decreases |toks| - i
  {
    if i < |toks| && !IsOp(toks[i], "}") {
      BodyStatements(toks, StatementAt(toks, i).next);
    }
  }

  lemma FunctionShape(toks: seq<Token>, i: nat)
    requires i < |toks|
    ensures FunctionNode(FunctionAt(toks, i).result)
  {
    var j := i + 1;
    if j < |toks| && toks[j].kind == Identifier {
      var k := FindOp(toks, "{", j + 1);
      if k < |toks| {
        BodyStatements(toks, k + 1);
      }
    }
  }

  lemma {:induction false} FunctionsShape(toks: seq<Token>, i: nat)
    requires i <= |toks|
    ensures forall c :: c in FunctionsAt(toks, i).result ==> FunctionNode(c)
    decreases |toks| - i
  {
    if i < |toks| && !IsOp(toks[i], "}") {
      if IsKw(toks[i], "function") {
        FunctionShape(toks, i);
        FunctionsShape(toks, FunctionAt(toks, i).next);
      } else {
        FunctionsShape(toks, i + 1);
      }
    }
  }

  /** Every parse is a Program of functions of flat statements, with no line or column anywhere. */
  lemma ParseWellShaped(tokens: seq<Token>)
    ensures WellShaped(Parse(tokens))
  {
    var toks := WithoutComments(tokens);
    if |toks| > 2 {
      FunctionsShape(toks, 3);
    }
  }

  /** A function node either has a non-empty name or is empty. */
  predicate NamedOrEmpty(n: Node) {
    Truthy(n.value) || (n.value.None? && n.children == [])
  }

  lemma {:induction false} FunctionsNamed(toks: seq<Token>, i: nat)
    requires i <= |toks|
    requires forall k :: 0 <= k < |toks| ==> toks[k].value != ""
    ensures forall c :: c in FunctionsAt(toks, i).result ==> NamedOrEmpty(c)
    decreases |toks| - i
  {
    if i < |toks| && !IsOp(toks[i], "}") {
      if IsKw(toks[i], "function") {
        FunctionsNamed(toks, FunctionAt(toks, i).next);
      } else {
        FunctionsNamed(toks, i + 1);
      }
    }
  }

  /** With non-empty token texts (as the tokenizer gives), every function of the tree is named or empty. */
  lemma ParseNamed(tokens: seq<Token>)
    requires forall t :: t in tokens ==> t.value != ""
    ensures forall c :: c in Parse(tokens).children ==> NamedOrEmpty(c)
  {
    var toks := WithoutComments(tokens);
    assert forall k :: 0 <= k < |toks| ==> toks[k] in tokens;
    if |toks| > 2 {
      FunctionsNamed(toks, 3);
    }
  }

  /** The program header decides the program's name, and without `program NAME {` there are no children. */
  lemma ProgramHeader(tokens: seq<Token>)
    ensures var toks := WithoutComments(tokens);
      && (Parse(tokens).value.Some? <==> |toks| > 1 && IsKw(toks[0], "program") && toks[1].kind == Identifier)
      && (Parse(tokens).value.Some? ==> Parse(tokens).value.value == toks[1].value)
      && (Parse(tokens).children != [] ==>
            |toks| > 2 && IsKw(toks[0], "program") && toks[1].kind == Identifier && IsOp(toks[2], "{"))
  {
  }

  // ---------------------------------------------------------------------
  // Comments never affect the tree

  lemma {:induction false} WithoutCommentsAppend(a: seq<Token>, b: seq<Token>)
    ensures WithoutComments(a + b) == WithoutComments(a) + WithoutComments(b)
    decreases |a|
  {
    if a == [] {
      assert a + b == b;
    } else {
      var h := if a[0].kind == Comment then [] else [a[0]];
      calc {
        WithoutComments(a + b);
      == { assert (a + b)[0] == a[0]; assert (a + b)[1..] == a[1..] + b; }
        h + WithoutComments(a[1..] + b);
      == { WithoutCommentsAppend(a[1..], b); }
        h + (WithoutComments(a[1..]) + WithoutComments(b));
      ==
        (h + WithoutComments(a[1..])) + WithoutComments(b);
      }
    }
  }

  /** Tokens without comments are kept as they are. */
  lemma {:induction false} WithoutCommentsNone(ts: seq<Token>)
    requires forall k :: 0 <= k < |ts| ==> ts[k].kind != Comment
    ensures WithoutComments(ts) == ts
  {
    if ts != [] {
      WithoutCommentsNone(ts[1..]);
      assert [ts[0]] + ts[1..] == ts;
    }
  }

  /** Inserting a COMMENT token anywhere leaves the tree unchanged. */
  lemma CommentIgnored(a: seq<Token>, c: Token, b: seq<Token>)
    requires c.kind == Comment
    ensures Parse(a + [c] + b) == Parse(a + b)
  {
    CommentDropped(a, c, b);
  }

  lemma CommentDropped(a: seq<Token>, c: Token, b: seq<Token>)
    requires c.kind == Comment
    ensures WithoutComments(a + [c] + b) == WithoutComments(a + b)
  {
    WithoutCommentsAppend(a + [c], b);
    WithoutCommentsAppend(a, [c]);
    WithoutCommentsAppend(a, b);
    assert WithoutComments([c]) == [];
    assert WithoutComments(a) + [] == WithoutComments(a);
  }

  // ---------------------------------------------------------------------
  // Nothing after the first top-level `}` matters

  lemma {:induction false} StatementEndExtend(toks: seq<Token>, i: nat, more: seq<Token>)
    requires i <= |toks| && StatementEnd(toks, i) < |toks|
    ensures StatementEnd(toks + more, i) == StatementEnd(toks, i)
    decreases |toks| - i
  {
    assert (toks + more)[i] == toks[i];
    if !EndsStatement(toks[i]) {
      StatementEndExtend(toks, i + 1, more);
    }
  }

  lemma {:induction false} FindOpExtend(toks: seq<Token>, v: string, i: nat, more: seq<Token>)
    requires i <= |toks| && FindOp(toks, v, i) < |toks|
    ensures FindOp(toks + more, v, i) == FindOp(toks, v, i)
    decreases |toks| - i
  {
    assert (toks + more)[i] == toks[i];
    if !IsOp(toks[i], v) {
      FindOpExtend(toks, v, i + 1, more);
    }
  }

  lemma StatementAtExtend(toks: seq<Token>, i: nat, more: seq<Token>)
    requires i <= |toks| && StatementEnd(toks, i) < |toks|
    ensures StatementAt(toks + more, i) == StatementAt(toks, i)
  {
    var e := StatementEnd(toks, i);
    StatementEndExtend(toks, i, more);
    assert (toks + more)[i..e] == toks[i..e];
    assert (toks + more)[e] == toks[e];
  }

  lemma {:induction false} BodyAtExtend(toks: seq<Token>, i: nat, more: seq<Token>)
    requires i <= |toks| && BodyAt(toks, i).next < |toks|
    ensures BodyAt(toks + more, i) == BodyAt(toks, i)
    decreases |toks| - i
  {
    assert (toks + more)[i] == toks[i];
    if !IsOp(toks[i], "}") {
      var s := StatementAt(toks, i);
      assert s.next <= BodyAt(toks, s.next).next;
      StatementAtExtend(toks, i, more);
      BodyAtExtend(toks, s.next, more);
    }
  }

  lemma FunctionAtExtend(toks: seq<Token>, i: nat, more: seq<Token>)
    requires i < |toks| && FunctionAt(toks, i).next < |toks|
    ensures FunctionAt(toks + more, i) == FunctionAt(toks, i)
  {
    var j, ext := i + 1, toks + more;
    assert j < |toks| && ext[j] == toks[j];
    if toks[j].kind == Identifier {
      var k := FindOp(toks, "{", j + 1);
      assert k < |toks|;
      FindOpExtend(toks, "{", j + 1, more);
      var b := BodyAt(toks, k + 1);
      assert b.next < |toks|;
      BodyAtExtend(toks, k + 1, more);
      assert ext[b.next] == toks[b.next];
      assert FunctionAt(toks, i) == Parsed(Node(Function, Some(toks[j].value), b.result, None, None), b.next + 1);
    }
  }

  lemma {:induction false} FunctionsAtExtend(toks: seq<Token>, i: nat, more: seq<Token>)
    requires i <= |toks| && FunctionsAt(toks, i).next < |toks|
    ensures FunctionsAt(toks + more, i) == FunctionsAt(toks, i)
    decreases |toks| - i
  {
    assert (toks + more)[i] == toks[i];
    if !IsOp(toks[i], "}") {
      if IsKw(toks[i], "function") {
        var f := FunctionAt(toks, i);
        assert f.next <= FunctionsAt(toks, f.next).next;
        FunctionAtExtend(toks, i, more);
        FunctionsAtExtend(toks, f.next, more);
      } else {
        FunctionsAtExtend(toks, i + 1, more);
      }
    }
  }

  /**
   * The function loop stops at the first top-level `}`: once it has been
   * met, whatever follows it (further functions included) is ignored.
   */
  lemma ProgramIgnoresAfterClose(toks: seq<Token>, more: seq<Token>)
    requires |toks| > 2 && IsKw(toks[0], "program") && toks[1].kind == Identifier && IsOp(toks[2], "{")
    requires FunctionsAt(toks, 3).next < |toks|
    ensures ProgramOf(toks + more) == ProgramOf(toks)
    ensures IsOp(toks[FunctionsAt(toks, 3).next], "}")
  {
    assert (toks + more)[..3] == toks[..3];
    assert (toks + more)[0] == toks[0] && (toks + more)[1] == toks[1] && (toks + more)[2] == toks[2];
    FunctionsAtExtend(toks, 3, more);
  }
}
