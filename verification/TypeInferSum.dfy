/**
 A counting loop comes out unboxed: with its parameter known to be a Long, inference
 gives every variable of `(fn [n] (loop [i 0 acc 0] (if (< i n) (recur (+ i 1) (+ acc i))
 acc)))` a representation, and boxes none.
 */
module TypeInferSum {
  import opened Common
  import opened Ir
  import opened IrRun
  import opened TypeInfer
  import opened TypeInferTheory
  import opened TypeInferSound
  import opened TypeInferCoerce
  import opened TypeInferPrecise

  /** `n` is variable 0, the two zeros 1 and 2, `i` 3, `acc` 4, the test 5, the one 6 and the two sums 7 and 8. */
  const SUM: IrFunction := IrFunction("sum", [0], [
      Block(0, [], [Const(1, ConstLong(0)), Const(2, ConstLong(0))], RecurJump(1, [1, 2])),
      Block(1, [Phi(3, [(0, 1), (2, 7)]), Phi(4, [(0, 2), (2, 8)])], [CallKnown(5, Lt, [3, 0])], Branch(5, 2, 3)),
      Block(2, [], [Const(6, ConstLong(1)), CallKnown(7, Add, [3, 6]), CallKnown(8, Add, [4, 3])],
            RecurJump(1, [7, 8])),
      Block(3, [], [], Return(4))
    ], [], [])

  function SumInst(k: nat): Inst {
    if k == 1 then Const(1, ConstLong(0))
    else if k == 2 then Const(2, ConstLong(0))
    else if k == 3 then Phi(3, [(0, 1), (2, 7)])
    else if k == 4 then Phi(4, [(0, 2), (2, 8)])
    else if k == 5 then CallKnown(5, Lt, [3, 0])
    else if k == 6 then Const(6, ConstLong(1))
    else if k == 7 then CallKnown(7, Add, [3, 6])
    else CallKnown(8, Add, [4, 3])
  }

  predicate SumCopy(src: Var, dst: Var) {
    (dst == 3 && (src == 1 || src == 7)) || (dst == 4 && (src == 2 || src == 8))
  }

  /** The text of `SUM`, as far as inference looks at it. */
  ghost predicate SumText(f: IrFunction) {
    && f.params == [0] && f.localSeeds == []
    && (forall k :: 1 <= k <= 8 ==> InText(f, SumInst(k)))
    && (forall inst :: InText(f, inst) ==> exists k :: 1 <= k <= 8 && inst == SumInst(k))
    && (forall src: Var, dst: Var :: Recurs(f, src, dst) ==> SumCopy(src, dst))
  }

  /** Every variable is a Long but the test, a Bool. */
  ghost predicate SumReprs(m: LatMap) {
    && (forall v :: v in m <==> 0 <= v <= 8)
    && forall v :: v in m ==> m[v] == if v == 5 then Bool else Long
  }

  lemma InstKeeps(k: nat, m: LatMap)
    requires 1 <= k <= 8 && SumReprs(m)
    ensures InstKept(SumInst(k), k, m)
    ensures SumInst(k).CallKnown? ==> CallTold(SumInst(k), m)
  {
    match SumInst(k)
    case Const(_, _) =>
    case Phi(_, _) =>
    case CallKnown(_, fn, args) =>
      KnownKept(fn, m[args[0]], m[args[1]], m[k]);
    case _ =>
  }

  lemma SumKept(f: IrFunction, m: LatMap)
    requires SumText(f) && SumReprs(m)
    ensures Kept(f, [Long], m) && AllTold(f, m)
  {
    forall inst | InText(f, inst)
      ensures inst.Dst().Some? && InstKept(inst, inst.Dst().value, m)
      ensures inst.CallKnown? && |inst.args| == 2 ==> CallTold(inst, m)
    {
      var k: nat :| 1 <= k <= 8 && inst == SumInst(k);
      InstKeeps(k, m);
    }
  }

  /** What an instruction needs before it gives anything. */
  predicate Needs(k: nat, sol: LatMap) {
    match k
    case 3 => 1 in sol
    case 4 => 2 in sol
    case 5 => 3 in sol && 0 in sol
    case 7 => 3 in sol && 6 in sol
    case 8 => 4 in sol && 3 in sol
    case _ => true
  }

  lemma Given(f: IrFunction, sol: LatMap, k: nat)
    requires SumText(f) && Kept(f, [Long], sol) && 1 <= k <= 8 && Needs(k, sol)
    ensures k in sol
  {
    assert InText(f, SumInst(k)) && SumInst(k).Dst() == Some(k);
    assert InstKept(SumInst(k), k, sol);
    if k == 3 {
      assert (0, 1) in SumInst(k).entries;
    } else if k == 4 {
      assert (0, 2) in SumInst(k).entries;
    }
  }

  lemma ParamGiven(f: IrFunction, sol: LatMap)
    requires SumText(f) && Kept(f, [Long], sol)
    ensures 0 in sol
  {
    assert IsLast(f.params, 0);
    assert Leq(Some(Long), Get(sol, f.params[0]));
  }

  /** All of them are given a representation. */
  lemma SumGiven(f: IrFunction, sol: LatMap)
    requires SumText(f) && Kept(f, [Long], sol)
    ensures forall v :: 0 <= v <= 8 ==> v in sol
  {
    ParamGiven(f, sol);
    Given(f, sol, 1);
    Given(f, sol, 2);
    Given(f, sol, 6);
    Given(f, sol, 3);
    Given(f, sol, 4);
    Given(f, sol, 5);
    Given(f, sol, 7);
    Given(f, sol, 8);
  }

  function SumRepr(v: Var): Repr {
    if v == 5 then Bool else Long
  }

  lemma SumMap() returns (m: LatMap)
    ensures SumReprs(m)
  {
    m := map v: Var | 0 <= v <= 8 :: SumRepr(v);
  }

  lemma SumInferred(f: IrFunction, v: Var)
    requires SumText(f) && v <= 8
    ensures v in Unboxed(Solution(f, [Long])) && Unboxed(Solution(f, [Long]))[v] == SumRepr(v)
  {
    var m := SumMap();
    var sol := Solution(f, [Long]);
    SumKept(f, m);
    MostPrecise(f, [Long], m);
    SolutionKept(f, [Long]);
    SumGiven(f, sol);
    GetMono(sol, m, v);
  }

  // ---- The text is that of the function ----

  ghost predicate Laid(f: IrFunction) {
    && f.params == [0] && f.localSeeds == [] && |f.blocks| == 4
    && (forall i :: 0 <= i < 4 ==> f.blocks[i].id == i)
    && f.blocks[0].phis == [] && f.blocks[0].insts == [SumInst(1), SumInst(2)]
    && f.blocks[0].term == RecurJump(1, [1, 2])
    && f.blocks[1].phis == [SumInst(3), SumInst(4)] && f.blocks[1].insts == [SumInst(5)]
    && f.blocks[1].term == Branch(5, 2, 3)
    && f.blocks[2].phis == [] && f.blocks[2].insts == [SumInst(6), SumInst(7), SumInst(8)]
    && f.blocks[2].term == RecurJump(1, [7, 8])
    && f.blocks[3].phis == [] && f.blocks[3].insts == [] && f.blocks[3].term == Return(4)
  }

  lemma LaidHas(f: IrFunction, k: nat)
    requires Laid(f) && 1 <= k <= 8
    ensures InText(f, SumInst(k))
  {
    var b := if k <= 2 then 0 else if k <= 5 then 1 else 2;
    var blk := f.blocks[b];
    if k == 3 || k == 4 {
      assert blk.phis[k - 3] == SumInst(k);
    } else {
      assert blk.insts[if k <= 2 then k - 1 else if k == 5 then 0 else k - 6] == SumInst(k);
    }
  }

  lemma LaidOnly(f: IrFunction, inst: Inst) returns (k: nat)
    requires Laid(f) && InText(f, inst)
    ensures 1 <= k <= 8 && inst == SumInst(k)
  {
    var b :| 0 <= b < |f.blocks| && (inst in f.blocks[b].phis || inst in f.blocks[b].insts);
    if b == 0 {
      k := if inst == SumInst(1) then 1 else 2;
    } else if b == 1 {
      k := if inst == SumInst(3) then 3 else if inst == SumInst(4) then 4 else 5;
    } else {
      k := if inst == SumInst(6) then 6 else if inst == SumInst(7) then 7 else 8;
    }
  }

  lemma LaidCopies(f: IrFunction, src: Var, dst: Var)
    requires Laid(f) && Recurs(f, src, dst)
    ensures SumCopy(src, dst)
  {
    var b: nat, t: nat, i: nat :| b < |f.blocks| && RecursAt(f, b, t, i, src, dst);
    assert f.blocks[t].id == 1 && t == 1;
    assert b == 0 || b == 2;
    assert i == 0 || i == 1;
  }

  lemma LaidText(f: IrFunction)
    requires Laid(f)
    ensures SumText(f)
  {
    forall k | 1 <= k <= 8 ensures InText(f, SumInst(k)) {
      LaidHas(f, k);
    }
    forall inst | InText(f, inst) ensures exists k :: 1 <= k <= 8 && inst == SumInst(k) {
      var k := LaidOnly(f, inst);
    }
    forall src: Var, dst: Var | Recurs(f, src, dst) ensures SumCopy(src, dst) {
      LaidCopies(f, src, dst);
    }
  }

  /** Every variable of the loop is unboxed: the test as a Bool, all others as Longs. */
  lemma LoopUnboxed(v: Var)
    requires v <= 8
    ensures v in Unboxed(Solution(SUM, [Long]))
    ensures Unboxed(Solution(SUM, [Long]))[v] == if v == 5 then Bool else Long
  {
    assert Laid(SUM);
    LaidText(SUM);
    SumInferred(SUM, v);
  }
}
