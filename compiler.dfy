/**
 * The driver (`compileCode`): the six phases in sequence.  An exception
 * thrown by any phase is caught and reported as `Compilation failed: `
 * followed by its message; here the only phase that can throw is the
 * target-code generator, and the lemmas below show that it does not on
 * anything the earlier phases produce.
 */
module Compiler {
  import opened Wrappers
  import opened Lexer
  import opened Parser
  import opened Semantic
  import opened IrGen
  import opened Optimizer
  import opened Emitter

  /** The object `compileCode` returns when no phase throws. */
  datatype Compilation = Compilation(
    tokens: seq<Token>,
    ast: Node,
    symbolTable: map<string, Symbol>,
    semanticErrors: seq<string>,
    intermediateCode: seq<Instr>,
    optimizedCode: seq<Instr>,
    targetCode: seq<Section>)

  function Compile(code: string): Result<Compilation, string> {
    var tokens := Tokenize(code);
    var ast := Parse(tokens);
    var analysis := AnalysisOf(ast);
    var intermediateCode := Generate(ast);
    var optimizedCode := Optimize(intermediateCode);
    match TargetCode(optimizedCode)
    case Err(message) => Err("Compilation failed: " + message)
    case Ok(targetCode) =>
      Ok(Compilation(tokens, ast, analysis.table, analysis.errors, intermediateCode, optimizedCode, targetCode))
  }

  method CompileCode(code: string) returns (r: Result<Compilation, string>)
    ensures r == Compile(code)
  {
    var tokens := LexicalAnalysis(code);
    var ast := SyntaxAnalysis(tokens);
    var symbolTable, errors := SemanticAnalysis(ast);
    var intermediateCode := GenerateIntermediateCode(ast);
    var optimizedCode := OptimizeCode(intermediateCode);
    var targetCode := GenerateTargetCode(optimizedCode);
    match targetCode {
      case Err(message) =>
        r := Err("Compilation failed: " + message);
      case Ok(sections) =>
        r := Ok(Compilation(tokens, ast, symbolTable, errors, intermediateCode, optimizedCode, sections));
    }
  }

  /** The optimiser never creates an ASSIGN without a source out of well-formed code. */
  lemma OptimizeNoBareAssign(xs: seq<Instr>)
    requires AllWellFormed(xs)
    ensures forall p :: 0 <= p < |Optimize(xs)| ==> !BareAssign(Optimize(xs)[p])
  {
    var src := OptimizeOrder(xs);
    forall p | 0 <= p < |Optimize(xs)|
      ensures !BareAssign(Optimize(xs)[p])
    {
      assert WellFormed(xs[src[p]]);
    }
  }

  /** `compileCode` never reaches its `catch`: every program text compiles. */
  lemma CompileSucceeds(code: string)
    ensures Compile(code).Ok?
  {
    var ast := Parse(Tokenize(code));
    GenerateWellFormed(ast);
    OptimizeNoBareAssign(Generate(ast));
    TargetShape(Optimize(Generate(ast)));
  }

  /**
   * What the phases hand on: a two-level tree, one FUNC_BEGIN/FUNC_END pair
   * per named function in order, optimised code that is no longer and has
   * no PRINT left, and the data and text sections with their headers.
   */
  lemma CompiledShape(code: string)
    ensures Compile(code).Ok?
    ensures var c := Compile(code).value;
      && WellShaped(c.ast)
      && Brackets(c.intermediateCode) == Expected(c.ast.children)
      && |c.optimizedCode| <= |c.intermediateCode|
      && (forall o :: o in c.optimizedCode ==> o.op != "PRINT")
      && |c.targetCode| == 2 && c.targetCode[0].section == "data" && c.targetCode[1].section == "text"
  {
    CompileSucceeds(code);
    var ast := Parse(Tokenize(code));
    ParseWellShaped(Tokenize(code));
    GenerateBrackets(ast);
    OptimizeLength(Generate(ast));
    GeneratedNoPrint(ast);
    TargetShape(Optimize(Generate(ast)));
  }

  /**
   * Every token the tokenizer produces has a non-empty value, so in the
   * symbol table every named function `f` has `f@global` of kind
   * `function`, every other entry lies in the scope of one of them, and
   * every line is 0.
   */
  lemma CompiledTable(code: string)
    ensures Compile(code).Ok?
    ensures FunctionTable(Compile(code).value.ast.children, Compile(code).value.symbolTable)
  {
    CompileSucceeds(code);
    var tokens := Tokenize(code);
    TokenizeTokens(code);
    ParsedTable(tokens);
  }
}
