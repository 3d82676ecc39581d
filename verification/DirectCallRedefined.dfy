/**
 Why direct-call rewriting needs one meaning for each global: the definition map
 keeps only the last definition of a name, so a call made between two definitions
 is sent to the wrong function.
 */
module DirectCallRedefined {
  import opened Common
  import opened Ir
  import opened IrRun
  import opened DirectCall
  import opened DirectCallRun
  import opened DirectCallMeaning

  const T1 := ClosureTemplate(["f1"], [0], [false])
  const T2 := ClosureTemplate(["f2"], [0], [false])

  const MAIN_INSTS: seq<Inst> := [
    AllocClosure(0, T1, []), DefVar(1, "u", "f", 0),
    LoadGlobal(2, "u", "f"), Call(3, 2, []),
    AllocClosure(4, T2, []), DefVar(5, "u", "f", 4)]

  const REWRITTEN_INSTS: seq<Inst> := MAIN_INSTS[3 := CallDirect(3, "f2", [])]

  function Body(name: string, insts: seq<Inst>, result: Var, subs: seq<IrFunction>): IrFunction {
    IrFunction(name, [], [Block(0, [], insts, Return(result))], subs, [])
  }

  const F1 := Body("f1", [Const(0, ConstLong(1))], 0, [])
  const F2 := Body("f2", [Const(0, ConstLong(2))], 0, [])

  /** `(def f (fn [] 1)) (f) (def f (fn [] 2))`, answering what the call gave. */
  const UNIT := Body("main", MAIN_INSTS, 3, [F1, F2])

  lemma InstsOfBody(name: string, insts: seq<Inst>, result: Var, subs: seq<IrFunction>)
    ensures AllInsts(Body(name, insts, result, subs).blocks) == insts
  {
    var blocks := Body(name, insts, result, subs).blocks;
    assert blocks[..0] == [];
    assert AllInsts(blocks) == AllInsts(blocks[..0]) + insts;
  }

  lemma SnocLaws(insts: seq<Inst>, i: nat, d: Defns)
    requires i < |insts|
    ensures See(insts[..i + 1]) == SeeInst(See(insts[..i]), insts[i])
    ensures LoadTargets(insts[..i + 1], d) ==
      var before := LoadTargets(insts[..i], d);
      var inst := insts[i];
      if inst.LoadGlobal? && (inst.ns, inst.name) in d then before[inst.dst := (inst.ns, inst.name)] else before
  {
    assert insts[..i + 1][..i] == insts[..i];
  }

  lemma SeenInMain()
    ensures See(MAIN_INSTS) == Seen(map[0 := T1, 4 := T2], map[("u", "f") := T2])
  {
    var i := MAIN_INSTS;
    assert i[..0] == [] && i[..6] == i;
    SnocLaws(i, 0, map[]);
    SnocLaws(i, 1, map[]);
    assert See(i[..2]) == Seen(map[0 := T1], map[("u", "f") := T1]);
    SnocLaws(i, 2, map[]);
    SnocLaws(i, 3, map[]);
    assert See(i[..4]) == Seen(map[0 := T1], map[("u", "f") := T1]);
    SnocLaws(i, 4, map[]);
    SnocLaws(i, 5, map[]);
  }

  lemma PlainCollect(f: IrFunction, insts: seq<Inst>)
    requires AllInsts(f.blocks) == insts && |insts| == 1 && insts[0].Const?
    ensures Collect(f) == map[]
  {
    assert insts[..0] == [];
    assert See(insts) == Seen(map[], map[]);
  }

  lemma CollectedIsLast()
    ensures Collect(UNIT) + CollectEach(UNIT.subfunctions) == map[("u", "f") := Infos(T2)]
  {
    InstsOfBody("main", MAIN_INSTS, 3, [F1, F2]);
    InstsOfBody("f1", F1.blocks[0].insts, 0, []);
    InstsOfBody("f2", F2.blocks[0].insts, 0, []);
    SeenInMain();
    PlainCollect(F1, F1.blocks[0].insts);
    PlainCollect(F2, F2.blocks[0].insts);
    assert [F1, F2][..1] == [F1] && [F1][..0] == [];
    assert CollectEach([F1]) == map[];
    assert CollectEach([F1, F2]) == map[];
  }

  lemma TargetsOfMain(d: Defns)
    requires d == map[("u", "f") := Infos(T2)]
    ensures LoadTargets(MAIN_INSTS, d) == map[2 := ("u", "f")]
  {
    var i := MAIN_INSTS;
    assert i[..0] == [] && i[..6] == i;
    SnocLaws(i, 0, d);
    SnocLaws(i, 1, d);
    SnocLaws(i, 2, d);
    SnocLaws(i, 3, d);
    SnocLaws(i, 4, d);
    SnocLaws(i, 5, d);
  }

  lemma OptimizedCode()
    ensures SameCode(Optimize(UNIT), Body("main", REWRITTEN_INSTS, 3, []))
  {
    var d: Defns := map[("u", "f") := Infos(T2)];
    CollectedIsLast();
    InstsOfBody("main", MAIN_INSTS, 3, [F1, F2]);
    TargetsOfMain(d);
    var targets := map[2 := ("u", "f")];
    assert Infos(T2) == [ArityInfo("f2", 0, false)];
    assert RewriteInst(MAIN_INSTS[3], targets, d) == CallDirect(3, "f2", []);
    assert RewriteInsts(MAIN_INSTS, targets, d) == REWRITTEN_INSTS;
    assert Rewrite(UNIT, d).blocks == [Block(0, [], REWRITTEN_INSTS, Return(3))];
  }

  /** One instruction that gives a value. */
  lemma OneStep(o: Oracle, fns: seq<IrFunction>, f: IrFunction, pc: nat, regs: Regs, w: World, fuel: nat,
                v: Value, w': World)
    requires |f.blocks| > 0 && pc < |f.blocks[0].insts| && fuel > 0 && !f.blocks[0].insts[pc].Phi?
    requires Effect(o, fns, f.blocks[0].insts[pc], regs, w, fuel - 1) == Gives(v, w')
    ensures Run(o, fns, f, 0, pc, regs, w, fuel) ==
            Run(o, fns, f, 0, pc + 1, Store(regs, f.blocks[0].insts[pc].Dst(), v), w', fuel - 1)
  {
  }

  lemma ConstFn(o: Oracle, fns: seq<IrFunction>, f: IrFunction, n: I64, w: World, fuel: nat)
    requires f.blocks == [Block(0, [], [Const(0, ConstLong(n))], Return(0))] && fuel >= 2
    ensures Run(o, fns, f, 0, 0, map[], w, fuel) == Returned(LongV(n), w)
  {
    OneStep(o, fns, f, 0, map[], w, fuel, LongV(n), w);
  }

  ghost predicate IsMain(f: IrFunction) {
    f.blocks == [Block(0, [], MAIN_INSTS, Return(3))] || f.blocks == [Block(0, [], REWRITTEN_INSTS, Return(3))]
  }

  function FirstDef(w: World): World {
    w.(globals := w.globals[("u", "f") := ClosureV(T1, [])])
  }

  function AtCall(): Regs {
    map[0 := ClosureV(T1, []), 1 := OtherV(0), 2 := ClosureV(T1, [])]
  }

  lemma UpToCall(o: Oracle, fns: seq<IrFunction>, f: IrFunction, w: World, fuel: nat)
    requires IsMain(f) && fuel >= 7
    ensures Run(o, fns, f, 0, 0, map[], w, fuel) == Run(o, fns, f, 0, 3, AtCall(), FirstDef(w), fuel - 3)
  {
    var c1 := ClosureV(T1, []);
    assert forall regs: Regs :: Read([], regs) == [];
    var r1: Regs := map[0 := c1];
    var r2: Regs := map[0 := c1, 1 := OtherV(0)];
    OneStep(o, fns, f, 0, map[], w, fuel, c1, w);
    OneStep(o, fns, f, 1, r1, w, fuel - 1, OtherV(0), FirstDef(w));
    OneStep(o, fns, f, 2, r2, FirstDef(w), fuel - 2, c1, FirstDef(w));
    assert Store(r2, Some(2), c1) == AtCall();
  }

  lemma AfterCall(o: Oracle, fns: seq<IrFunction>, f: IrFunction, n: I64, w: World, fuel: nat)
    requires IsMain(f) && fuel >= 3
    ensures var r := Run(o, fns, f, 0, 4, AtCall()[3 := LongV(n)], w, fuel);
      r.Returned? && r.v == LongV(n)
  {
    var c2 := ClosureV(T2, []);
    var w2 := w.(globals := w.globals[("u", "f") := c2]);
    assert forall regs: Regs :: Read([], regs) == [];
    var r4: Regs := AtCall()[3 := LongV(n)];
    var r5: Regs := r4[4 := c2];
    OneStep(o, fns, f, 4, r4, w, fuel, c2, w);
    OneStep(o, fns, f, 5, r5, w, fuel - 1, OtherV(0), w2);
  }

  /** A main body whose call at index 3 answers `n`. */
  lemma MainAnswers(o: Oracle, fns: seq<IrFunction>, f: IrFunction, n: I64, w: World, fuel: nat)
    requires IsMain(f) && fuel >= 7
    requires Effect(o, fns, f.blocks[0].insts[3], AtCall(), FirstDef(w), fuel - 4) == Gives(LongV(n), FirstDef(w))
    ensures Run(o, fns, f, 0, 0, map[], w, fuel).Returned? && Run(o, fns, f, 0, 0, map[], w, fuel).v == LongV(n)
  {
    UpToCall(o, fns, f, w, fuel);
    OneStep(o, fns, f, 3, AtCall(), FirstDef(w), fuel - 3, LongV(n), FirstDef(w));
    AfterCall(o, fns, f, n, FirstDef(w), fuel - 4);
  }

  lemma OriginalAnswersOne(o: Oracle, fns: seq<IrFunction>, w: World, fuel: nat)
    requires fuel >= 7 && |fns| >= 3 && SameCode(fns[1], F1) && SameCode(fns[0], UNIT)
    ensures Run(o, fns, fns[0], 0, 0, map[], w, fuel).Returned?
    ensures Run(o, fns, fns[0], 0, 0, map[], w, fuel).v == LongV(1)
  {
    var regs, w1 := AtCall(), FirstDef(w);
    assert FindFn(fns, "f1") == Some(1) by {
      assert FindFn(fns[1..], "f1") == Some(0);
    }
    ConstFn(o, fns, fns[1], 1, w1, fuel - 5);
    assert BindParams([], []) == map[];
    assert CallFn(o, fns, "f1", [], w1, fuel - 4) == Returned(LongV(1), w1);
    assert Infos(T1) == [ArityInfo("f1", 0, false)];
    assert Read([], regs) == [];
    var none: seq<Value> := [];
    assert none + none == none;
    assert Dispatch(T1, none, none) == Some(("f1", none));
    assert Apply(o, fns, ClosureV(T1, []), [], w1, fuel - 4) == Gives(LongV(1), w1);
    MainAnswers(o, fns, fns[0], 1, w, fuel);
  }

  lemma OptimizedAnswersTwo(o: Oracle, fns: seq<IrFunction>, w: World, fuel: nat)
    requires fuel >= 7 && |fns| >= 3 && SameCode(fns[2], F2) && fns[1].name == "f1"
    requires SameCode(fns[0], Body("main", REWRITTEN_INSTS, 3, []))
    ensures Run(o, fns, fns[0], 0, 0, map[], w, fuel).Returned?
    ensures Run(o, fns, fns[0], 0, 0, map[], w, fuel).v == LongV(2)
  {
    var regs, w1 := AtCall(), FirstDef(w);
    assert FindFn(fns, "f2") == Some(2) by {
      assert fns[1..][1..] == fns[2..];
      assert FindFn(fns[2..], "f2") == Some(0);
      assert FindFn(fns[1..], "f2") == Some(1);
    }
    ConstFn(o, fns, fns[2], 2, w1, fuel - 5);
    assert BindParams([], []) == map[];
    assert Read([], regs) == [];
    MainAnswers(o, fns, fns[0], 2, w, fuel);
  }

  lemma PlainFns(a: IrFunction, b: IrFunction)
    requires a.subfunctions == [] && b.subfunctions == []
    ensures FnsOf([a, b]) == [a, b]
  {
    assert Fns(a) == [a] && Fns(b) == [b];
    assert [a, b][1..] == [b] && [b][1..] == [];
    assert FnsOf([b]) == [b];
  }

  lemma OptimizedSubs(a: IrFunction, b: IrFunction, d: Defns)
    ensures OptimizeSubs([a, b], d) == [OptimizeWith(a, d), OptimizeWith(b, d)]
  {
    assert [a, b][1..] == [b] && [b][1..] == [];
    assert OptimizeSubs([b], d) == [OptimizeWith(b, d)] + OptimizeSubs([], d);
    assert OptimizeSubs([a, b], d) == [OptimizeWith(a, d)] + OptimizeSubs([b], d);
  }

  lemma UnitFns()
    ensures Fns(UNIT) == [UNIT, F1, F2]
    ensures |Fns(Optimize(UNIT))| >= 3
    ensures SameCode(Fns(Optimize(UNIT))[0], Body("main", REWRITTEN_INSTS, 3, []))
    ensures Fns(Optimize(UNIT))[1].name == "f1" && SameCode(Fns(Optimize(UNIT))[2], F2)
  {
    PlainFns(F1, F2);
    OptimizedCode();
    CollectedIsLast();
    var d: Defns := map[("u", "f") := Infos(T2)];
    assert ("u", "f") in d && d != map[];
    var g1, g2 := OptimizeWith(F1, d), OptimizeWith(F2, d);
    OptimizedSubs(F1, F2, d);
    PlainSub(F1, d);
    PlainSub(F2, d);
    PlainFns(g1, g2);
    assert Optimize(UNIT).subfunctions == [g1, g2];
    assert Fns(Optimize(UNIT)) == [Optimize(UNIT), g1, g2];
  }

  /** A function without calls or subfunctions comes out as it went in. */
  lemma PlainSub(f: IrFunction, d: Defns)
    requires f.subfunctions == [] && |f.blocks| == 1 && |f.blocks[0].insts| == 1 && f.blocks[0].insts[0].Const?
    ensures SameCode(OptimizeWith(f, d), f) && OptimizeWith(f, d).subfunctions == []
  {
    var all := d + Collect(f);
    var targets := LoadTargets(AllInsts(f.blocks), all);
    assert RewriteInsts(f.blocks[0].insts, targets, all) == f.blocks[0].insts;
    assert Rewrite(f, all).blocks == f.blocks;
  }

  /** On this unit the rewriting changes the answer from 1 to 2. */
  lemma RedefinitionChangesAnswer(o: Oracle, w: World, fuel: nat)
    requires fuel >= 8
    ensures var before := CallFn(o, Fns(UNIT), "main", [], w, fuel);
      before.Returned? && before.v == LongV(1)
    ensures var after := CallFn(o, Fns(Optimize(UNIT)), "main", [], w, fuel);
      after.Returned? && after.v == LongV(2)
  {
    UnitFns();
    assert BindParams([], []) == map[];
    OriginalAnswersOne(o, Fns(UNIT), w, fuel - 1);
    OptimizedAnswersTwo(o, Fns(Optimize(UNIT)), w, fuel - 1);
  }
}
