/**
 * Phase 6, target code generation (`generateTargetCode`).
 *
 * Two line buffers, a data section and a text section, start with fixed
 * header lines and are appended to once per instruction.  String operands
 * (of PRINT_STR, and of an ASSIGN whose source starts with `"`) get a data
 * line `str_N: .asciiz ...` with one counter N shared by both.  An
 * argument that is missing prints as `undefined`, as a JavaScript template
 * string renders it, except for an ASSIGN, whose missing source makes
 * `args[0].startsWith` throw.
 */
module Emitter {
  import opened Wrappers
  import opened Text
  import opened IrGen

  /** A `TargetCode` record. */
  datatype Section = Section(section: string, instructions: seq<string>)

  /** The two buffers and the loop's `currentFunction` and `stringCounter`. */
  datatype Buffers = Buffers(data: seq<string>, text: seq<string>, currentFunction: string, stringCounter: nat)

  const DataHeader: seq<string> :=
    ["# Data section", "format_int: .asciiz \"%d\\n\"", "format_str: .asciiz \"%s\\n\"", ""]

  const TextHeader: seq<string> := ["# Text section", ".globl main"]

  /** The message of the TypeError `undefined.startsWith(...)` throws, as V8 words it. */
  const AssignFault := "Cannot read properties of undefined (reading 'startsWith')"

  // Fixed text lines
  const Prologue := "    # Function prologue"
  const PushBase := "    pushq %rbp"
  const SetBase := "    movq %rsp, %rbp"
  const Epilogue := "    # Function epilogue"
  const ResetStack := "    movq %rbp, %rsp"
  const PopBase := "    popq %rbp"
  const Ret := "    ret"
  const LoadFormatInt := "    leaq format_int(%rip), %rdi"
  const LoadFormatStr := "    leaq format_str(%rip), %rdi"
  const ClearRax := "    xorq %rax, %rax"
  const CallPrintf := "    call printf"
  const ExprComment := "    # (Evaluate expression, simplified implementation)"
  const ExprDummy := "    movq $1, %rsi    # Simplified: dummy value for expression result"
  const ReturnVoid := "    # Return void"

  /** `${instruction.args[0]}`. */
  function Arg0(i: Instr): string {
    if |i.args| > 0 then i.args[0] else "undefined"
  }

  /** `str_${n}`. */
  function Label(n: nat): string {
    "str_" + NatToString(n)
  }

  /** `/^[0-9]+$/`. */
  predicate IsNumeral(a: string) {
    |a| > 0 && AllDigits(a)
  }

  function Assumes(x: string): string {
    "    # Simplified: assumes " + x + " is at -8(%rbp)"
  }

  /** The instruction needs a `str_N` data line. */
  predicate HasString(i: Instr) {
    || i.op == "PRINT_STR"
    || (i.op == "ASSIGN" && |i.args| > 0 && !IsNumeral(i.args[0]) && StartsWith(i.args[0], "\""))
  }

  /** One turn of the `switch`: the buffers after `ins`, or the error it throws. */
  function Step(b: Buffers, ins: Instr): Result<Buffers, string> {
    var a := Arg0(ins);
    if ins.op == "FUNC_BEGIN" then
      Ok(b.(text := b.text + ["", a + ":", Prologue, PushBase, SetBase],
            currentFunction := a))
    else if ins.op == "FUNC_END" then
      Ok(b.(text := b.text + [Epilogue, ResetStack, PopBase, Ret]))
    else if ins.op == "DECLARE" then
      Ok(b.(text := b.text + ["    # Declare " + a, "    subq $8, %rsp    # Allocate space for " + a]))
    else if ins.op == "ASSIGN" then
      if |ins.args| == 0 then Err(AssignFault)
      else
        var head := "    # " + ins.result + " = " + a;
        var tail := "    movq %rax, -8(%rbp)" + Assumes(ins.result);
        if IsNumeral(a) then
          Ok(b.(text := b.text + [head, "    movq $" + a + ", %rax", tail]))
        else if StartsWith(a, "\"") then
          var strLabel := Label(b.stringCounter);
          Ok(b.(data := b.data + [strLabel + ": .asciiz " + a],
                text := b.text + [head, "    leaq " + strLabel + "(%rip), %rax", tail],
                stringCounter := b.stringCounter + 1))
        else
          Ok(b.(text := b.text + [head, "    # Load " + a, "    movq -8(%rbp), %rax" + Assumes(a), tail]))
    else if ins.op == "PRINT_STR" then
      var strLabel := Label(b.stringCounter);
      Ok(b.(data := b.data + [strLabel + ": .asciiz " + a],
            text := b.text + ["    # Print string \"" + a + "\"", "    leaq " + strLabel + "(%rip), %rsi",
                              LoadFormatStr, ClearRax, CallPrintf],
            stringCounter := b.stringCounter + 1))
    else if ins.op == "PRINT" then
      Ok(b.(text := b.text + ["    # Print " + a, "    movq -8(%rbp), %rsi" + Assumes(a),
                              LoadFormatInt, ClearRax, CallPrintf]))
    else if ins.op == "PRINT_EXPR" then
      Ok(b.(text := b.text + ["    # Print expression " + a, ExprComment,
                              ExprDummy,
                              LoadFormatInt, ClearRax, CallPrintf]))
    else if ins.op == "RETURN" then
      if |ins.args| > 0 then
        Ok(b.(text := b.text + ["    # Return " + a, "    movq -8(%rbp), %rax" + Assumes(a)]))
      else
        Ok(b.(text := b.text + [ReturnVoid, ClearRax]))
    else
      Ok(b.(text := b.text + ["    # Unsupported operation: " + ins.op]))
  }

  /** The buffers before the loop. */
  const Start := Buffers(DataHeader, TextHeader, "", 0)

  /** The loop over `code`: the first error thrown, or the final buffers. */
  function Run(code: seq<Instr>): Result<Buffers, string> {
    if code == [] then Ok(Start)
    else
      match Run(code[..|code| - 1])
      case Err(e) => Err(e)
      case Ok(b) => Step(b, code[|code| - 1])
  }

  function TargetCode(code: seq<Instr>): Result<seq<Section>, string> {
    match Run(code)
    case Err(e) => Err(e)
    case Ok(b) => Ok([Section("data", b.data), Section("text", b.text)])
  }

  /** The two section buffers and the loop variables, updated in place. */
  class Target {
    var data: seq<string>
    var text: seq<string>
    var currentFunction: string
    var stringCounter: nat

    function State(): Buffers
      reads this
    {
      Buffers(data, text, currentFunction, stringCounter)
    }

    constructor ()
      ensures State() == Start
    {
      data := DataHeader;
      text := TextHeader;
      currentFunction := "";
      stringCounter := 0;
    }

    /** The `switch` for one instruction; `fault` is the error it throws, if any. */
    method Emit(ins: Instr) returns (fault: Option<string>)
      modifies this
      ensures Step(old(State()), ins).Ok? ==> fault.None? && State() == Step(old(State()), ins).value
      ensures Step(old(State()), ins).Err? ==> fault == Some(Step(old(State()), ins).error)
    {
      fault := None;
      var arg := Arg0(ins);
      if ins.op == "FUNC_BEGIN" {
        currentFunction := arg;
        text := text + ["", currentFunction + ":", Prologue, PushBase, SetBase];
      } else if ins.op == "FUNC_END" {
        text := text + [Epilogue, ResetStack, PopBase, Ret];
      } else if ins.op == "DECLARE" {
        text := text + ["    # Declare " + arg, "    subq $8, %rsp    # Allocate space for " + arg];
      } else if ins.op == "ASSIGN" {
        EmitAssign(ins);
        if |ins.args| == 0 {
          fault := Some(AssignFault);
        }
      } else if ins.op == "PRINT_STR" {
        var strLabel := Label(stringCounter);
        stringCounter := stringCounter + 1;
        data := data + [strLabel + ": .asciiz " + arg];
        text := text + ["    # Print string \"" + arg + "\"", "    leaq " + strLabel + "(%rip), %rsi",
                        LoadFormatStr, ClearRax, CallPrintf];
      } else if ins.op == "PRINT" {
        text := text + ["    # Print " + arg, "    movq -8(%rbp), %rsi" + Assumes(arg),
                        LoadFormatInt, ClearRax, CallPrintf];
      } else if ins.op == "PRINT_EXPR" {
        text := text + ["    # Print expression " + arg, ExprComment,
                        ExprDummy,
                        LoadFormatInt, ClearRax, CallPrintf];
      } else if ins.op == "RETURN" {
        if |ins.args| > 0 {
          text := text + ["    # Return " + arg, "    movq -8(%rbp), %rax" + Assumes(arg)];
        } else {
          text := text + [ReturnVoid, ClearRax];
        }
      } else {
        text := text + ["    # Unsupported operation: " + ins.op];
      }
    }

    /** The ASSIGN case; with no source it changes nothing, since the caller throws. */
    method EmitAssign(ins: Instr)
      requires ins.op == "ASSIGN"
      modifies this
      ensures |ins.args| > 0 ==> State() == Step(old(State()), ins).value
      ensures |ins.args| == 0 ==> State() == old(State())
    {
      if |ins.args| > 0 {
        var source := ins.args[0];
        var head := "    # " + ins.result + " = " + source;
        var tail := "    movq %rax, -8(%rbp)" + Assumes(ins.result);
        if IsNumeral(source) {
          text := text + [head, "    movq $" + source + ", %rax", tail];
        } else if StartsWith(source, "\"") {
          var strLabel := Label(stringCounter);
          stringCounter := stringCounter + 1;
          data := data + [strLabel + ": .asciiz " + source];
          text := text + [head, "    leaq " + strLabel + "(%rip), %rax", tail];
        } else {
          text := text + [head, "    # Load " + source, "    movq -8(%rbp), %rax" + Assumes(source), tail];
        }
      }
    }
  }

  /** Once the loop has thrown, the rest of the code does not matter. */
  lemma {:induction false} RunSticky(code: seq<Instr>, i: nat)
    requires i <= |code| && Run(code[..i]).Err?
    ensures Run(code) == Run(code[..i])
    decreases |code| - i
  {
    if i == |code| {
      assert code[..i] == code;
    } else {
      assert code[..i + 1][..i] == code[..i];
      RunSticky(code, i + 1);
    }
  }

  /** `generateTargetCode`, with a thrown error as `Err`. */
  method GenerateTargetCode(optimizedCode: seq<Instr>) returns (r: Result<seq<Section>, string>)
    ensures r == TargetCode(optimizedCode)
  {
    var code := optimizedCode;
    var target := new Target();
    for i := 0 to |code|
      invariant Run(code[..i]) == Ok(target.State())
    {
      assert code[..i + 1][..i] == code[..i];
      var fault := target.Emit(code[i]);
      if fault.Some? {
        RunSticky(code, i + 1);
        return Err(fault.value);
      }
    }
    assert code[..|code|] == code;
    r := Ok([Section("data", target.data), Section("text", target.text)]);
  }

  // ---------------------------------------------------------------------
  // Properties

  /** The number of text lines each operation appends. */
  function LineCount(i: Instr): nat {
    if i.op == "FUNC_BEGIN" then 5
    else if i.op == "FUNC_END" then 4
    else if i.op == "DECLARE" then 2
    else if i.op == "ASSIGN" then (if IsNumeral(Arg0(i)) || StartsWith(Arg0(i), "\"") then 3 else 4)
    else if i.op == "PRINT_STR" || i.op == "PRINT" then 5
    else if i.op == "PRINT_EXPR" then 6
    else if i.op == "RETURN" then 2
    else 1
  }

  /** An ASSIGN without a source, the one instruction the loop cannot get past. */
  predicate BareAssign(i: Instr) {
    i.op == "ASSIGN" && i.args == []
  }

  /** One instruction only appends: its line count to the text, its string (if any) to the data. */
  lemma StepShape(b: Buffers, ins: Instr)
    ensures Step(b, ins).Err? <==> BareAssign(ins)
    ensures Step(b, ins).Err? ==> Step(b, ins).error == AssignFault
    ensures Step(b, ins).Ok? ==>
      var c := Step(b, ins).value;
      && |c.text| == |b.text| + LineCount(ins) && c.text[..|b.text|] == b.text
      && c.data == b.data + (if HasString(ins) then [Label(b.stringCounter) + ": .asciiz " + Arg0(ins)] else [])
      && c.stringCounter == b.stringCounter + (if HasString(ins) then 1 else 0)
  {
    if ins.op == "ASSIGN" {
      AssignShape(b, ins);
    } else {
      OtherShape(b, ins);
    }
  }

  lemma AssignShape(b: Buffers, ins: Instr)
    requires ins.op == "ASSIGN"
    ensures Step(b, ins).Err? <==> BareAssign(ins)
    ensures Step(b, ins).Err? ==> Step(b, ins).error == AssignFault
    ensures Step(b, ins).Ok? ==>
      var c := Step(b, ins).value;
      && |c.text| == |b.text| + LineCount(ins) && c.text[..|b.text|] == b.text
      && c.data == b.data + (if HasString(ins) then [Label(b.stringCounter) + ": .asciiz " + Arg0(ins)] else [])
      && c.stringCounter == b.stringCounter + (if HasString(ins) then 1 else 0)
  {
  }

  lemma OtherShape(b: Buffers, ins: Instr)
    requires ins.op != "ASSIGN"
    ensures Step(b, ins).Ok?
    ensures
      var c := Step(b, ins).value;
      && |c.text| == |b.text| + LineCount(ins) && c.text[..|b.text|] == b.text
      && c.data == b.data + (if HasString(ins) then [Label(b.stringCounter) + ": .asciiz " + Arg0(ins)] else [])
      && c.stringCounter == b.stringCounter + (if HasString(ins) then 1 else 0)
  {
    if ins.op in {"FUNC_BEGIN", "FUNC_END", "DECLARE"} {
      FrameShape(b, ins);
    } else if ins.op in {"PRINT_STR", "PRINT", "PRINT_EXPR"} {
      PrintShape(b, ins);
    } else {
      RestShape(b, ins);
    }
  }

  lemma FrameShape(b: Buffers, ins: Instr)
    requires ins.op in {"FUNC_BEGIN", "FUNC_END", "DECLARE"}
    ensures Step(b, ins).Ok?
    ensures
      var c := Step(b, ins).value;
      && |c.text| == |b.text| + LineCount(ins) && c.text[..|b.text|] == b.text
      && c.data == b.data + (if HasString(ins) then [Label(b.stringCounter) + ": .asciiz " + Arg0(ins)] else [])
      && c.stringCounter == b.stringCounter + (if HasString(ins) then 1 else 0)
  {
  }

  lemma PrintShape(b: Buffers, ins: Instr)
    requires ins.op in {"PRINT_STR", "PRINT", "PRINT_EXPR"}
    ensures Step(b, ins).Ok?
    ensures
      var c := Step(b, ins).value;
      && |c.text| == |b.text| + LineCount(ins) && c.text[..|b.text|] == b.text
      && c.data == b.data + (if HasString(ins) then [Label(b.stringCounter) + ": .asciiz " + Arg0(ins)] else [])
      && c.stringCounter == b.stringCounter + (if HasString(ins) then 1 else 0)
  {
    if ins.op == "PRINT_STR" {
      PrintStrShape(b, ins);
    } else if ins.op == "PRINT" {
      PrintValueShape(b, ins);
    } else {
      PrintExprShape(b, ins);
    }
  }

  lemma PrintStrShape(b: Buffers, ins: Instr)
    requires ins.op == "PRINT_STR"
    ensures Step(b, ins).Ok?
    ensures
      var c := Step(b, ins).value;
      && |c.text| == |b.text| + LineCount(ins) && c.text[..|b.text|] == b.text
      && c.data == b.data + (if HasString(ins) then [Label(b.stringCounter) + ": .asciiz " + Arg0(ins)] else [])
      && c.stringCounter == b.stringCounter + (if HasString(ins) then 1 else 0)
  {
  }

  lemma PrintValueShape(b: Buffers, ins: Instr)
    requires ins.op == "PRINT"
    ensures Step(b, ins).Ok?
    ensures
      var c := Step(b, ins).value;
      && |c.text| == |b.text| + LineCount(ins) && c.text[..|b.text|] == b.text
      && c.data == b.data + (if HasString(ins) then [Label(b.stringCounter) + ": .asciiz " + Arg0(ins)] else [])
      && c.stringCounter == b.stringCounter + (if HasString(ins) then 1 else 0)
  {
  }

  lemma PrintExprShape(b: Buffers, ins: Instr)
    requires ins.op == "PRINT_EXPR"
    ensures Step(b, ins).Ok?
    ensures
      var c := Step(b, ins).value;
      && |c.text| == |b.text| + LineCount(ins) && c.text[..|b.text|] == b.text
      && c.data == b.data + (if HasString(ins) then [Label(b.stringCounter) + ": .asciiz " + Arg0(ins)] else [])
      && c.stringCounter == b.stringCounter + (if HasString(ins) then 1 else 0)
  {
  }

  lemma RestShape(b: Buffers, ins: Instr)
    requires ins.op !in {"FUNC_BEGIN", "FUNC_END", "DECLARE", "ASSIGN", "PRINT_STR", "PRINT", "PRINT_EXPR"}
    ensures Step(b, ins).Ok?
    ensures
      var c := Step(b, ins).value;
      && |c.text| == |b.text| + LineCount(ins) && c.text[..|b.text|] == b.text
      && c.data == b.data + (if HasString(ins) then [Label(b.stringCounter) + ": .asciiz " + Arg0(ins)] else [])
      && c.stringCounter == b.stringCounter + (if HasString(ins) then 1 else 0)
  {
  }

  function TextLines(code: seq<Instr>): nat {
    if code == [] then 0 else TextLines(code[..|code| - 1]) + LineCount(code[|code| - 1])
  }

  /** The string operands that get data lines, in instruction order. */
  function Strings(code: seq<Instr>): seq<string> {
    if code == [] then []
    else Strings(code[..|code| - 1]) + (if HasString(code[|code| - 1]) then [Arg0(code[|code| - 1])] else [])
  }

  function DataLines(ss: seq<string>): (r: seq<string>)
    ensures |r| == |ss| && forall k :: 0 <= k < |ss| ==> r[k] == Label(k) + ": .asciiz " + ss[k]
  {
    seq(|ss|, k requires 0 <= k < |ss| => Label(k) + ": .asciiz " + ss[k])
  }

  /** The loop fails exactly when some ASSIGN has no source, with the TypeError's message. */
  lemma {:induction false} RunFault(code: seq<Instr>)
    ensures Run(code).Err? <==> exists p :: 0 <= p < |code| && BareAssign(code[p])
    ensures Run(code).Err? ==> Run(code).error == AssignFault
  {
    if code != [] {
      var init, last := code[..|code| - 1], code[|code| - 1];
      RunFault(init);
      assert forall p :: 0 <= p < |init| ==> init[p] == code[p];
      if Run(init).Ok? {
        StepShape(Run(init).value, last);
      }
    }
  }

  /** Otherwise the text section is its two header lines followed by each instruction's line count. */
  lemma {:induction false} RunText(code: seq<Instr>)
    ensures Run(code).Ok? ==>
      var b := Run(code).value;
      |b.text| == |TextHeader| + TextLines(code) && b.text[..|TextHeader|] == TextHeader
  {
    if code != [] && Run(code).Ok? {
      var init, last := code[..|code| - 1], code[|code| - 1];
      RunText(init);
      var b := Run(init).value;
      StepShape(b, last);
      assert Run(code).value.text[..|TextHeader|] == b.text[..|b.text|][..|TextHeader|];
    }
  }

  /** The data section is its four header lines and then `str_0`, `str_1`, ... for the string operands in order. */
  lemma {:induction false} RunData(code: seq<Instr>)
    ensures Run(code).Ok? ==>
      var b := Run(code).value;
      b.data == DataHeader + DataLines(Strings(code)) && b.stringCounter == |Strings(code)|
  {
    if code != [] && Run(code).Ok? {
      var init, last := code[..|code| - 1], code[|code| - 1];
      RunData(init);
      assert Run(init).Ok? && Run(code) == Step(Run(init).value, last);
      DataStep(Run(init).value, last, Strings(init));
    }
  }

  /** One turn of the loop adds the line of its string, if any, to the data section. */
  lemma DataStep(b: Buffers, ins: Instr, ss: seq<string>)
    requires b.data == DataHeader + DataLines(ss) && b.stringCounter == |ss| && Step(b, ins).Ok?
    ensures var ss' := ss + (if HasString(ins) then [Arg0(ins)] else []);
      Step(b, ins).value.data == DataHeader + DataLines(ss') && Step(b, ins).value.stringCounter == |ss'|
  {
    StepShape(b, ins);
    if HasString(ins) {
      assert DataLines(ss + [Arg0(ins)]) == DataLines(ss) + [Label(|ss|) + ": .asciiz " + Arg0(ins)];
    } else {
      assert ss + [] == ss;
    }
  }

  /** The result is exactly the data section and then the text section, with their headers. */
  lemma TargetShape(code: seq<Instr>)
    ensures TargetCode(code).Ok? <==> forall p :: 0 <= p < |code| ==> !BareAssign(code[p])
    ensures TargetCode(code).Ok? ==>
      var r := TargetCode(code).value;
      && |r| == 2 && r[0].section == "data" && r[1].section == "text"
      && |r[0].instructions| >= 4 && r[0].instructions[..4] == DataHeader
      && |r[1].instructions| >= 2 && r[1].instructions[..2] == TextHeader
  {
    RunFault(code);
    RunText(code);
    RunData(code);
    if Run(code).Ok? {
      var d := Run(code).value.data;
      assert d[..4] == DataHeader;
    }
  }
}
