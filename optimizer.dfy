/**
 * Phase 5, the peephole optimiser (`optimizeCode`).
 *
 * One left-to-right pass over the intermediate code with a set of indices
 * already dealt with.  At each index, in this order: an ASSIGN followed by
 * an ASSIGN to the same result is dropped; an EVAL followed by a PRINT of
 * its result becomes one PRINT_EXPR carrying the EVAL's operands, and the
 * PRINT is skipped; anything else is copied.  Because the first rule looks
 * one instruction ahead at every index, a run of same-target ASSIGNs keeps
 * only its last member.
 */
module Optimizer {
  import Parser
  import opened IrGen

  /** Rule 1: `a` is an ASSIGN made redundant by the ASSIGN `b` after it. */
  predicate Redundant(a: Instr, b: Instr) {
    a.op == "ASSIGN" && b.op == "ASSIGN" && a.result == b.result
  }

  /**
   * Rule 2: `a` is an EVAL whose result the PRINT `b` prints.  A PRINT
   * without arguments has `args[0]` undefined, which equals no result.
   */
  predicate Fusible(a: Instr, b: Instr) {
    a.op == "EVAL" && b.op == "PRINT" && |b.args| > 0 && b.args[0] == a.result
  }

  function Fused(a: Instr): Instr {
    Instr("PRINT_EXPR", a.args, "")
  }

  /** The pass, read from the front of the code. */
  function Optimize(xs: seq<Instr>): seq<Instr>
    decreases |xs|
  {
    if xs == [] then []
    else if |xs| >= 2 && Redundant(xs[0], xs[1]) then Optimize(xs[1..])
    else if |xs| >= 2 && Fusible(xs[0], xs[1]) then [Fused(xs[0])] + Optimize(xs[2..])
    else [xs[0]] + Optimize(xs[1..])
  }

  /** `optimizeCode`: the indexed loop with its `processed` set. */
  method OptimizeCode(intermediateCode: seq<Instr>) returns (optimizedCode: seq<Instr>)
    ensures optimizedCode == Optimize(intermediateCode)
  {
    var code := intermediateCode;
    optimizedCode := [];
    var processed: set<nat> := {};
    for i := 0 to |code|
      invariant forall j :: j in processed ==> j <= i
      invariant i in processed ==> i < |code| && optimizedCode + Optimize(code[i + 1..]) == Optimize(code)
      invariant i !in processed ==> optimizedCode + Optimize(code[i..]) == Optimize(code)
    {
      if i in processed {
        assert i + 1 !in processed;
        continue;
      }
      assert i + 1 !in processed;
      var current := code[i];
      if i < |code| - 1 && current.op == "ASSIGN" && code[i + 1].op == "ASSIGN" && current.result == code[i + 1].result {
        OptimizeDrop(code, i, optimizedCode);
        processed := processed + {i};
      } else if current.op == "EVAL" && i < |code| - 1 && code[i + 1].op == "PRINT"
        && |code[i + 1].args| > 0 && code[i + 1].args[0] == current.result
      {
        OptimizeFuse(code, i, optimizedCode);
        optimizedCode := optimizedCode + [Instr("PRINT_EXPR", current.args, "")];
        processed := processed + {i, i + 1};
      } else {
        OptimizeKeep(code, i, optimizedCode);
        optimizedCode := optimizedCode + [current];
      }
    }
    assert optimizedCode + [] == optimizedCode;
  }

  /** Rule 1 at `i`: the pass goes on from `i + 1`, after the output `acc` so far. */
  lemma OptimizeDrop(xs: seq<Instr>, i: nat, acc: seq<Instr>)
    requires i + 1 < |xs| && Redundant(xs[i], xs[i + 1])
    ensures acc + Optimize(xs[i..]) == acc + Optimize(xs[i + 1..])
  {
    assert xs[i..][0] == xs[i] && xs[i..][1] == xs[i + 1] && xs[i..][1..] == xs[i + 1..];
  }

  /** Rule 2 at `i`: one PRINT_EXPR, then the pass goes on from `i + 2`. */
  lemma OptimizeFuse(xs: seq<Instr>, i: nat, acc: seq<Instr>)
    requires i + 1 < |xs| && !Redundant(xs[i], xs[i + 1]) && Fusible(xs[i], xs[i + 1])
    ensures acc + Optimize(xs[i..]) == acc + [Fused(xs[i])] + Optimize(xs[i + 2..])
  {
    assert xs[i..][0] == xs[i] && xs[i..][1] == xs[i + 1] && xs[i..][2..] == xs[i + 2..];
  }

  /** Otherwise instruction `i` is kept and the pass goes on from `i + 1`. */
  lemma OptimizeKeep(xs: seq<Instr>, i: nat, acc: seq<Instr>)
    requires i < |xs|
    requires i + 1 < |xs| ==> !Redundant(xs[i], xs[i + 1]) && !Fusible(xs[i], xs[i + 1])
    ensures acc + Optimize(xs[i..]) == acc + [xs[i]] + Optimize(xs[i + 1..])
  {
    assert xs[i..][0] == xs[i] && xs[i..][1..] == xs[i + 1..];
    if i + 1 < |xs| {
      assert xs[i..][1] == xs[i + 1];
    }
  }

  // ---------------------------------------------------------------------
  // The same pass, decided instruction by instruction

  /**
   * Instruction `i` disappears when an ASSIGN to its result follows it
   * (rule 1), or when it is a PRINT fused into the EVAL before it (rule 2).
   */
  predicate Dropped(xs: seq<Instr>, i: nat)
    requires i < |xs|
  {
    (i + 1 < |xs| && Redundant(xs[i], xs[i + 1])) || (i > 0 && Fusible(xs[i - 1], xs[i]))
  }

  /** What a surviving instruction `i` becomes. */
  function Rewrite(xs: seq<Instr>, i: nat): Instr
    requires i < |xs|
  {
    if i + 1 < |xs| && Fusible(xs[i], xs[i + 1]) then Fused(xs[i]) else xs[i]
  }

  /** The output of instructions `i..`, each decided by its neighbours alone. */
  function LocalFrom(xs: seq<Instr>, i: nat): seq<Instr>
    requires i <= |xs|
    decreases |xs| - i
  {
    if i == |xs| then []
    else (if Dropped(xs, i) then [] else [Rewrite(xs, i)]) + LocalFrom(xs, i + 1)
  }

  lemma {:induction false} OptimizeLocalFrom(xs: seq<Instr>, i: nat)
    requires i <= |xs|
    requires 0 < i < |xs| ==> !Fusible(xs[i - 1], xs[i])
    ensures Optimize(xs[i..]) == LocalFrom(xs, i)
    decreases |xs| - i
  {
    if i < |xs| {
      var ys := xs[i..];
      assert ys[0] == xs[i] && ys[1..] == xs[i + 1..];
      if i + 1 < |xs| && Redundant(xs[i], xs[i + 1]) {
        OptimizeLocalFrom(xs, i + 1);
      } else if i + 1 < |xs| && Fusible(xs[i], xs[i + 1]) {
        assert ys[2..] == xs[i + 2..];
        OptimizeLocalFrom(xs, i + 2);
        assert Dropped(xs, i + 1);
        assert LocalFrom(xs, i + 1) == LocalFrom(xs, i + 2);
      } else {
        OptimizeLocalFrom(xs, i + 1);
      }
    }
  }

  /**
   * The pass keeps the surviving instructions in their order: an ASSIGN
   * survives exactly when the next instruction is not an ASSIGN to the same
   * result, a PRINT exactly when the EVAL before it does not print into it,
   * everything else always; a surviving EVAL that a PRINT of its result
   * follows becomes PRINT_EXPR, any other survivor is unchanged.
   */
  lemma OptimizeLocal(xs: seq<Instr>)
    ensures Optimize(xs) == LocalFrom(xs, 0)
  {
    OptimizeLocalFrom(xs, 0);
    assert xs[0..] == xs;
  }

  lemma {:induction false} LocalFromLength(xs: seq<Instr>, i: nat)
    requires i <= |xs|
    ensures |LocalFrom(xs, i)| <= |xs| - i
    decreases |xs| - i
  {
    if i < |xs| {
      LocalFromLength(xs, i + 1);
    }
  }

  /** The output is never longer than the input. */
  lemma OptimizeLength(xs: seq<Instr>)
    ensures |Optimize(xs)| <= |xs|
  {
    OptimizeLocal(xs);
    LocalFromLength(xs, 0);
  }

  /**
   * `out` is traced back to `xs` through the strictly increasing positions
   * `src`: each output is its source instruction or that EVAL fused into a
   * PRINT_EXPR.
   */
  predicate Traced(xs: seq<Instr>, out: seq<Instr>, src: seq<nat>) {
    && |src| == |out|
    && (forall k :: 0 <= k < |src| ==>
          (src[k] < |xs| && (out[k] == xs[src[k]] || (xs[src[k]].op == "EVAL" && out[k] == Fused(xs[src[k]])))))
    && (forall k, l :: 0 <= k < l < |src| ==> src[k] < src[l])
  }

  function Shift(src: seq<nat>, d: nat): (r: seq<nat>)
    ensures |r| == |src| && forall k :: 0 <= k < |r| ==> r[k] == src[k] + d
  {
    seq(|src|, k requires 0 <= k < |src| => src[k] + d)
  }

  lemma TracedShift(xs: seq<Instr>, d: nat, out: seq<Instr>, src: seq<nat>)
    requires d <= |xs| && Traced(xs[d..], out, src)
    ensures Traced(xs, out, Shift(src, d))
  {
    var r := Shift(src, d);
    forall k | 0 <= k < |r|
      ensures r[k] < |xs| && (out[k] == xs[r[k]] || (xs[r[k]].op == "EVAL" && out[k] == Fused(xs[r[k]])))
    {
      assert xs[d..][src[k]] == xs[r[k]];
    }
  }

  lemma TracedCons(xs: seq<Instr>, o: Instr, out: seq<Instr>, src: seq<nat>)
    requires xs != [] && Traced(xs, out, src)
    requires forall k :: 0 <= k < |src| ==> src[k] > 0
    requires o == xs[0] || (xs[0].op == "EVAL" && o == Fused(xs[0]))
    ensures Traced(xs, [o] + out, [0] + src)
  {
    var r, w := [0] + src, [o] + out;
    forall k | 1 <= k < |r|
      ensures r[k] == src[k - 1] && w[k] == out[k - 1]
    {
    }
  }

  /** Every output instruction comes from an input instruction, and the order is kept. */
  lemma {:induction false} OptimizeOrder(xs: seq<Instr>) returns (src: seq<nat>)
    ensures Traced(xs, Optimize(xs), src)
    decreases |xs|
  {
    if xs == [] {
      src := [];
    } else if |xs| >= 2 && Redundant(xs[0], xs[1]) {
      var rest := OptimizeOrder(xs[1..]);
      TracedShift(xs, 1, Optimize(xs[1..]), rest);
      src := Shift(rest, 1);
    } else if |xs| >= 2 && Fusible(xs[0], xs[1]) {
      var rest := OptimizeOrder(xs[2..]);
      TracedShift(xs, 2, Optimize(xs[2..]), rest);
      TracedCons(xs, Fused(xs[0]), Optimize(xs[2..]), Shift(rest, 2));
      src := [0] + Shift(rest, 2);
    } else {
      var rest := OptimizeOrder(xs[1..]);
      TracedShift(xs, 1, Optimize(xs[1..]), rest);
      TracedCons(xs, xs[0], Optimize(xs[1..]), Shift(rest, 1));
      src := [0] + Shift(rest, 1);
    }
  }

  // ---------------------------------------------------------------------
  // Idempotence

  /** Code the pass has nothing to do on. */
  predicate Clean(ys: seq<Instr>) {
    forall k :: 0 <= k < |ys| - 1 ==> !Redundant(ys[k], ys[k + 1]) && !Fusible(ys[k], ys[k + 1])
  }

  /** The first output instruction, by the first input instruction's operation. */
  lemma {:induction false} OptimizeHead(ys: seq<Instr>)
    requires ys != []
    ensures Optimize(ys) != []
    ensures ys[0].op == "ASSIGN" ==> Optimize(ys)[0].op == "ASSIGN" && Optimize(ys)[0].result == ys[0].result
    ensures ys[0].op == "EVAL" ==> Optimize(ys)[0] == ys[0] || Optimize(ys)[0] == Fused(ys[0])
    ensures ys[0].op != "ASSIGN" && ys[0].op != "EVAL" ==> Optimize(ys)[0] == ys[0]
    decreases |ys|
  {
    if |ys| >= 2 && Redundant(ys[0], ys[1]) {
      OptimizeHead(ys[1..]);
    }
  }

  /** After the pass no rule applies any more. */
  lemma {:induction false} OptimizeClean(xs: seq<Instr>)
    ensures Clean(Optimize(xs))
    decreases |xs|
  {
    if xs == [] {
    } else if |xs| >= 2 && Redundant(xs[0], xs[1]) {
      OptimizeClean(xs[1..]);
    } else if |xs| >= 2 && Fusible(xs[0], xs[1]) {
      OptimizeClean(xs[2..]);
      var r := Optimize(xs[2..]);
      assert Optimize(xs) == [Fused(xs[0])] + r;
      assert forall k :: 1 <= k < |r| ==> ([Fused(xs[0])] + r)[k] == r[k - 1];
    } else {
      OptimizeClean(xs[1..]);
      var r := Optimize(xs[1..]);
      assert Optimize(xs) == [xs[0]] + r;
      assert forall k :: 1 <= k < |r| ==> ([xs[0]] + r)[k] == r[k - 1];
      if r != [] {
        OptimizeHead(xs[1..]);
        assert !Redundant(xs[0], r[0]) && !Fusible(xs[0], r[0]);
      }
    }
  }

  /** The pass leaves clean code as it is. */
  lemma {:induction false} OptimizeFixpoint(ys: seq<Instr>)
    requires Clean(ys)
    ensures Optimize(ys) == ys
    decreases |ys|
  {
    if ys != [] {
      assert Clean(ys[1..]) by {
        forall k | 0 <= k < |ys| - 2
          ensures !Redundant(ys[1..][k], ys[1..][k + 1]) && !Fusible(ys[1..][k], ys[1..][k + 1])
        {
          assert ys[1..][k] == ys[k + 1] && ys[1..][k + 1] == ys[k + 2];
        }
      }
      OptimizeFixpoint(ys[1..]);
    }
  }

  /** Running the pass on its own output changes nothing. */
  lemma OptimizeIdempotent(xs: seq<Instr>)
    ensures Optimize(Optimize(xs)) == Optimize(xs)
  {
    OptimizeClean(xs);
    OptimizeFixpoint(Optimize(xs));
  }

  // ---------------------------------------------------------------------
  // On generator output

  /** Every PRINT follows an EVAL of the temporary it prints. */
  predicate PrintsFollowEvals(xs: seq<Instr>) {
    forall p :: 0 <= p < |xs| && xs[p].op == "PRINT" ==> p > 0 && Fusible(xs[p - 1], xs[p])
  }

  lemma {:induction false} LocalFromNoPrint(xs: seq<Instr>, i: nat)
    requires i <= |xs| && PrintsFollowEvals(xs)
    ensures forall o :: o in LocalFrom(xs, i) ==> o.op != "PRINT"
    decreases |xs| - i
  {
    if i < |xs| {
      LocalFromNoPrint(xs, i + 1);
    }
  }

  /** When every PRINT follows the EVAL it prints, the pass removes every PRINT. */
  lemma OptimizeNoPrint(xs: seq<Instr>)
    requires PrintsFollowEvals(xs)
    ensures forall o :: o in Optimize(xs) ==> o.op != "PRINT"
  {
    OptimizeLocal(xs);
    LocalFromNoPrint(xs, 0);
  }

  /** The intermediate code of any tree has that shape, so its optimised form has no PRINT. */
  lemma GeneratedNoPrint(ast: Parser.Node)
    ensures forall o :: o in Optimize(Generate(ast)) ==> o.op != "PRINT"
  {
    var code := Generate(ast);
    GenerateNumbered(ast);
    forall p | 0 <= p < |code| && code[p].op == "PRINT"
      ensures p > 0 && Fusible(code[p - 1], code[p])
    {
      assert PairedAt(code, p);
    }
    OptimizeNoPrint(code);
  }
}
