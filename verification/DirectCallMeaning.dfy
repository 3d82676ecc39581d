/**
 A condition on the unit's text under which every run is preserved: each global the
 unit defines with a closure has one meaning. Every definition of it stores the same
 zero-capture closure, and nothing outside rebinds it.
 */
module DirectCallMeaning {
  import opened Common
  import opened Ir
  import opened IrRun
  import opened DirectCall
  import opened DirectCallRun
  import opened DirectCallSound

  // ---- The condition ----

  /** Nothing in `f` defines `v` but instructions equal to `inst`. */
  ghost predicate DefinedOnlyBy(f: IrFunction, v: Var, inst: Inst) {
    v !in f.params &&
    (forall i :: i in AllInsts(f.blocks) && i.Dst() == Some(v) ==> i == inst) &&
    (forall b, phi :: b in f.blocks && phi in b.phis ==> phi.Dst() != Some(v))
  }

  /** Every definition of an expected global stores its closure, and every load of
      one is the only definition of its variable, as SSA form guarantees. */
  ghost predicate OneMeaning(f: IrFunction, want: map<Key, ClosureTemplate>) {
    forall i {:trigger InstOk(f, i, want)} :: i in AllInsts(f.blocks) ==> InstOk(f, i, want)
  }

  ghost predicate InstOk(f: IrFunction, i: Inst, want: map<Key, ClosureTemplate>) {
    (i.DefVar? && (i.ns, i.name) in want ==>
      DefinedOnlyBy(f, i.val, AllocClosure(i.val, want[(i.ns, i.name)], []))) &&
    (i.LoadGlobal? && (i.ns, i.name) in want ==> DefinedOnlyBy(f, i.dst, i))
  }

  ghost predicate GlobalsOk(g: map<Key, Value>, want: map<Key, ClosureTemplate>) {
    forall k :: k in want && k in g ==> g[k] == ClosureV(want[k], [])
  }

  ghost predicate Respects(o: Oracle, want: map<Key, ClosureTemplate>) {
    forall q: Query, w: World :: GlobalsOk(w.globals, want) ==> GlobalsOk(o(q, w).w.globals, want)
  }

  ghost predicate Allowed(d: Defns, want: map<Key, ClosureTemplate>) {
    forall k :: k in d ==> k in want && d[k] == Infos(want[k])
  }

  predicate SameCode(f: IrFunction, g: IrFunction) {
    f.name == g.name && f.params == g.params && f.blocks == g.blocks
  }

  ghost predicate LinkedAt(f: IrFunction, f': IrFunction, d: Defns, want: map<Key, ClosureTemplate>) {
    Allowed(d, want) && SameCode(f', Rewrite(f, d))
  }

  /** Two units, function by function the original and a rewriting of it. */
  ghost predicate Linked(fns: seq<IrFunction>, fns': seq<IrFunction>, ds: seq<Defns>, want: map<Key, ClosureTemplate>) {
    |fns| == |fns'| == |ds| &&
    forall i {:trigger LinkedAt(fns[i], fns'[i], ds[i], want)} :: 0 <= i < |fns| ==>
      LinkedAt(fns[i], fns'[i], ds[i], want)
  }

  ghost predicate Setup(o: Oracle, fns: seq<IrFunction>, fns': seq<IrFunction>, ds: seq<Defns>,
                        want: map<Key, ClosureTemplate>) {
    Linked(fns, fns', ds, want) && Respects(o, want) &&
    forall i {:trigger OneMeaning(fns[i], want)} :: 0 <= i < |fns| ==> OneMeaning(fns[i], want)
  }

  /** Variables that stand for an expected closure hold it. */
  ghost predicate RegsOk(f: IrFunction, want: map<Key, ClosureTemplate>, regs: Regs) {
    forall i {:trigger HoldsOk(i, want, regs)} :: i in AllInsts(f.blocks) ==> HoldsOk(i, want, regs)
  }

  ghost predicate HoldsOk(i: Inst, want: map<Key, ClosureTemplate>, regs: Regs) {
    (i.DefVar? && (i.ns, i.name) in want && i.val in regs ==> regs[i.val] == ClosureV(want[(i.ns, i.name)], [])) &&
    (i.LoadGlobal? && (i.ns, i.name) in want && i.dst in regs ==> regs[i.dst] == ClosureV(want[(i.ns, i.name)], []))
  }

  ghost predicate ResOk(r: Res, want: map<Key, ClosureTemplate>) {
    r.Returned? || r.Threw? ==> GlobalsOk(r.w.globals, want)
  }

  ghost predicate EffOk(e: Eff, want: map<Key, ClosureTemplate>) {
    if e.Gives? then GlobalsOk(e.w.globals, want) else ResOk(e.r, want)
  }

  lemma {:induction false} InstIsIn(blocks: seq<Block>, b: nat, i: nat)
    requires b < |blocks| && i < |blocks[b].insts|
    ensures blocks[b].insts[i] in AllInsts(blocks)
  {
    if b < |blocks| - 1 {
      InstIsIn(blocks[..|blocks| - 1], b, i);
    }
  }

  lemma {:induction false} BindParamsKeys(params: seq<Var>, args: seq<Value>, v: Var)
    requires v in BindParams(params, args)
    ensures v in params
  {
    var n := |params| - 1;
    if v != params[n] {
      BindParamsKeys(params[..n], args, v);
    }
  }

  lemma ParamsOk(f: IrFunction, want: map<Key, ClosureTemplate>, args: seq<Value>)
    requires OneMeaning(f, want)
    ensures RegsOk(f, want, BindParams(f.params, args))
  {
    var regs := BindParams(f.params, args);
    forall i | i in AllInsts(f.blocks) ensures HoldsOk(i, want, regs) {
      assert InstOk(f, i, want);
      if i.DefVar? && i.val in regs { BindParamsKeys(f.params, args, i.val); }
      if i.LoadGlobal? && i.dst in regs { BindParamsKeys(f.params, args, i.dst); }
    }
  }

  lemma {:induction false} BindPhisKeeps(phis: seq<Inst>, srcs: seq<Option<Var>>, n: nat, regs: Regs, v: Var)
    requires n <= |phis| == |srcs|
    requires forall i :: 0 <= i < |srcs| && srcs[i].Some? ==> phis[i].Phi? && srcs[i].value in regs
    requires forall phi :: phi in phis ==> phi.Dst() != Some(v)
    ensures var r := BindPhis(phis, srcs, n, regs); v in r <==> v in regs
    ensures v in regs ==> BindPhis(phis, srcs, n, regs)[v] == regs[v]
  {
    if n > 0 {
      BindPhisKeeps(phis, srcs, n - 1, regs, v);
      assert phis[n - 1] in phis;
    }
  }

  lemma EdgeKeepsVar(f: IrFunction, b: Block, regs: Regs, v: Var, inst: Inst)
    requires DefinedOnlyBy(f, v, inst) && Edge(f, b, regs).Some?
    ensures var r := Edge(f, b, regs).value.1; (v in r <==> v in regs) && (v in regs ==> r[v] == regs[v])
  {
    var t := Edge(f, b, regs).value.0;
    var phis := f.blocks[t].phis;
    assert f.blocks[t] in f.blocks;
    BindPhisKeeps(phis, Sources(phis, b), |phis|, regs, v);
  }

  lemma EdgeKeeps(f: IrFunction, want: map<Key, ClosureTemplate>, b: Block, regs: Regs)
    requires OneMeaning(f, want) && RegsOk(f, want, regs) && Edge(f, b, regs).Some?
    ensures RegsOk(f, want, Edge(f, b, regs).value.1)
  {
    var regs' := Edge(f, b, regs).value.1;
    forall i | i in AllInsts(f.blocks) ensures HoldsOk(i, want, regs') {
      assert InstOk(f, i, want) && HoldsOk(i, want, regs);
      if i.DefVar? && (i.ns, i.name) in want {
        EdgeKeepsVar(f, b, regs, i.val, AllocClosure(i.val, want[(i.ns, i.name)], []));
      }
      if i.LoadGlobal? && (i.ns, i.name) in want {
        EdgeKeepsVar(f, b, regs, i.dst, i);
      }
    }
  }

  /** Storing an instruction's own result keeps the registers right. */
  lemma StoreKeeps(o: Oracle, fns: seq<IrFunction>, f: IrFunction, want: map<Key, ClosureTemplate>,
                   inst: Inst, regs: Regs, w: World, fuel: nat)
    requires OneMeaning(f, want) && RegsOk(f, want, regs) && GlobalsOk(w.globals, want)
    requires inst in AllInsts(f.blocks) && !inst.Phi? && Effect(o, fns, inst, regs, w, fuel).Gives?
    ensures RegsOk(f, want, Store(regs, inst.Dst(), Effect(o, fns, inst, regs, w, fuel).v))
  {
    var v := Effect(o, fns, inst, regs, w, fuel).v;
    var regs' := Store(regs, inst.Dst(), v);
    forall i | i in AllInsts(f.blocks) ensures HoldsOk(i, want, regs') {
      assert InstOk(f, i, want) && HoldsOk(i, want, regs);
      if i.DefVar? && (i.ns, i.name) in want && inst.Dst() == Some(i.val) {
        assert inst == AllocClosure(i.val, want[(i.ns, i.name)], []);
        assert Read([], regs) == [];
      }
      if i.LoadGlobal? && (i.ns, i.name) in want && inst.Dst() == Some(i.dst) {
        assert inst == i;
      }
    }
  }

  lemma DefVarKeeps(f: IrFunction, want: map<Key, ClosureTemplate>, inst: Inst, regs: Regs, w: World)
    requires RegsOk(f, want, regs) && GlobalsOk(w.globals, want)
    requires inst in AllInsts(f.blocks) && inst.DefVar? && inst.val in regs
    ensures GlobalsOk(w.globals[(inst.ns, inst.name) := regs[inst.val]], want)
  {
    assert HoldsOk(inst, want, regs);
  }

  /** A rewritten call finds the closure that dispatch would send to the very
      function it names. */
  lemma RewrittenDispatch(f: IrFunction, d: Defns, want: map<Key, ClosureTemplate>, inst: Inst, regs: Regs)
    requires Allowed(d, want) && RegsOk(f, want, regs) && inst.Call?
    requires inst.callee in regs && AllDefined(inst.args, regs)
    requires RewriteInst(inst, LoadTargets(AllInsts(f.blocks), d), d) != inst
    ensures regs[inst.callee].ClosureV?
    ensures Dispatch(regs[inst.callee].template, regs[inst.callee].captured, Read(inst.args, regs)) ==
            Some((RewriteInst(inst, LoadTargets(AllInsts(f.blocks), d), d).fnName, Read(inst.args, regs)))
  {
    var all := AllInsts(f.blocks);
    var i := TargetIsLoad(all, d, inst.callee);
    assert all[i] in all;
    assert HoldsOk(all[i], want, regs);
    assert [] + Read(inst.args, regs) == Read(inst.args, regs);
  }

  // ---- One meaning makes every rewritten call dispatch as named ----

  lemma {:induction false} MeaningCall(o: Oracle, fns: seq<IrFunction>, fns': seq<IrFunction>, ds: seq<Defns>,
                      want: map<Key, ClosureTemplate>, name: string, args: seq<Value>, w: World, fuel: nat)
    requires Setup(o, fns, fns', ds, want) && GlobalsOk(w.globals, want)
    ensures DispatchesCall(o, fns, fns', name, args, w, fuel)
    ensures ResOk(CallFn(o, fns, name, args, w, fuel), want)
    decreases fuel, 0
  {
    var found := FindFn(fns, name);
    if found.Some? {
      var k := found.value;
      if fuel > 0 && fns[k].blocks != [] {
        assert OneMeaning(fns[k], want);
        ParamsOk(fns[k], want, args);
        MeaningRun(o, fns, fns', ds, want, k, 0, 0, BindParams(fns[k].params, args), w, fuel - 1);
        CallIsRun(o, fns, fns', want, k, name, args, w, fuel);
      }
    }
  }

  lemma {:induction false} CallIsRun(o: Oracle, fns: seq<IrFunction>, fns': seq<IrFunction>,
                    want: map<Key, ClosureTemplate>, k: nat, name: string, args: seq<Value>, w: World, fuel: nat)
    requires FindFn(fns, name) == Some(k) && k < |fns| && fns[k].blocks != [] && fuel > 0
    requires Fine(o, fns, fns', want, k, 0, 0, BindParams(fns[k].params, args), w, fuel - 1)
    ensures DispatchesCall(o, fns, fns', name, args, w, fuel)
    ensures ResOk(CallFn(o, fns, name, args, w, fuel), want)
  {
  }

  lemma {:induction false} MeaningApply(o: Oracle, fns: seq<IrFunction>, fns': seq<IrFunction>, ds: seq<Defns>,
                       want: map<Key, ClosureTemplate>, callee: Value, args: seq<Value>, w: World, fuel: nat)
    requires Setup(o, fns, fns', ds, want) && GlobalsOk(w.globals, want)
    ensures DispatchesApply(o, fns, fns', callee, args, w, fuel)
    ensures EffOk(Apply(o, fns, callee, args, w, fuel), want)
    decreases fuel, 1
  {
    if callee.ClosureV? {
      var target := Dispatch(callee.template, callee.captured, args);
      if target.Some? {
        MeaningCall(o, fns, fns', ds, want, target.value.0, target.value.1, w, fuel);
      }
    } else {
      assert GlobalsOk(o(AskCall(callee, args), w).w.globals, want);
    }
  }

  lemma {:induction false} MeaningInst(o: Oracle, fns: seq<IrFunction>, fns': seq<IrFunction>, ds: seq<Defns>,
                      want: map<Key, ClosureTemplate>, k: nat, inst: Inst, regs: Regs, w: World, fuel: nat)
    requires Setup(o, fns, fns', ds, want) && GlobalsOk(w.globals, want) && k < |fns|
    requires inst in AllInsts(fns[k].blocks) && RegsOk(fns[k], want, regs)
    ensures DispatchesInst(o, fns, fns', inst, RewriteInst(inst, LoadTargets(AllInsts(fns[k].blocks), ds[k]), ds[k]),
                           regs, w, fuel)
    ensures EffOk(Effect(o, fns, inst, regs, w, fuel), want)
    decreases fuel, 2
  {
    assert LinkedAt(fns[k], fns'[k], ds[k], want);
    match inst
    case Call(_, callee, args) =>
      if callee in regs && AllDefined(args, regs) {
        MeaningApply(o, fns, fns', ds, want, regs[callee], Read(args, regs), w, fuel);
        if RewriteInst(inst, LoadTargets(AllInsts(fns[k].blocks), ds[k]), ds[k]) != inst {
          RewrittenDispatch(fns[k], ds[k], want, inst, regs);
        }
      }
    case CallDirect(_, fnName, args) =>
      if AllDefined(args, regs) {
        MeaningCall(o, fns, fns', ds, want, fnName, Read(args, regs), w, fuel);
      }
    case CallKnown(_, fn, args) =>
      if AllDefined(args, regs) {
        assert GlobalsOk(o(AskKnown(fn, Read(args, regs)), w).w.globals, want);
      }
    case Other(op, uses, _) =>
      if AllDefined(uses, regs) {
        assert GlobalsOk(o(AskOther(op, Read(uses, regs)), w).w.globals, want);
      }
    case DefVar(_, _, _, val) =>
      if val in regs {
        DefVarKeeps(fns[k], want, inst, regs, w);
      }
    case _ =>
  }

  /** From a point of function `k` the run dispatches as rewritten and keeps the meanings. */
  ghost predicate Fine(o: Oracle, fns: seq<IrFunction>, fns': seq<IrFunction>, want: map<Key, ClosureTemplate>,
                       k: nat, b: nat, pc: nat, regs: Regs, w: World, fuel: nat)
    requires k < |fns| && b < |fns[k].blocks|
  {
    DispatchesRun(o, fns, fns', k, b, pc, regs, w, fuel) && ResOk(Run(o, fns, fns[k], b, pc, regs, w, fuel), want)
  }

  ghost predicate InstAt(fns: seq<IrFunction>, fns': seq<IrFunction>, k: nat, b: nat, pc: nat,
                         inst: Inst, inst': Inst)
  {
    && k < |fns| == |fns'| && b < |fns[k].blocks| == |fns'[k].blocks|
    && pc < |fns[k].blocks[b].insts| == |fns'[k].blocks[b].insts|
    && inst == fns[k].blocks[b].insts[pc] && inst' == fns'[k].blocks[b].insts[pc]
  }

  /** One instruction does, and so does what follows it. */
  ghost predicate InstFine(o: Oracle, fns: seq<IrFunction>, fns': seq<IrFunction>, want: map<Key, ClosureTemplate>,
                           k: nat, b: nat, pc: nat, inst: Inst, inst': Inst, regs: Regs, w: World, fuel: nat)
    requires k < |fns| && b < |fns[k].blocks|
  {
    var e := Effect(o, fns, inst, regs, w, fuel);
    && DispatchesInst(o, fns, fns', inst, inst', regs, w, fuel)
    && EffOk(e, want)
    && (e.Gives? ==> Fine(o, fns, fns', want, k, b, pc + 1, Store(regs, inst.Dst(), e.v), e.w, fuel))
  }

  lemma {:induction false} InstIsFine(o: Oracle, fns: seq<IrFunction>, fns': seq<IrFunction>,
                     want: map<Key, ClosureTemplate>, k: nat, b: nat, pc: nat, inst: Inst, inst': Inst,
                     regs: Regs, w: World, fuel: nat)
    requires InstAt(fns, fns', k, b, pc, inst, inst') && fuel > 0 && !inst.Phi?
    requires InstFine(o, fns, fns', want, k, b, pc, inst, inst', regs, w, fuel - 1)
    ensures Fine(o, fns, fns', want, k, b, pc, regs, w, fuel)
  {
  }

  lemma {:induction false} MeaningStep(o: Oracle, fns: seq<IrFunction>, fns': seq<IrFunction>, ds: seq<Defns>,
                      want: map<Key, ClosureTemplate>, k: nat, b: nat, pc: nat, inst: Inst, inst': Inst,
                      regs: Regs, w: World, fuel: nat)
    requires Setup(o, fns, fns', ds, want) && GlobalsOk(w.globals, want) && k < |fns| && b < |fns[k].blocks|
    requires RegsOk(fns[k], want, regs) && inst in AllInsts(fns[k].blocks) && !inst.Phi?
    requires inst' == RewriteInst(inst, LoadTargets(AllInsts(fns[k].blocks), ds[k]), ds[k])
    ensures InstFine(o, fns, fns', want, k, b, pc, inst, inst', regs, w, fuel)
    decreases fuel, 6
  {
    MeaningInst(o, fns, fns', ds, want, k, inst, regs, w, fuel);
    var e := Effect(o, fns, inst, regs, w, fuel);
    if e.Gives? {
      MeaningNext(o, fns, fns', ds, want, k, b, pc, inst, regs, w, e.v, e.w, fuel);
    }
  }

  lemma {:induction false} MeaningNext(o: Oracle, fns: seq<IrFunction>, fns': seq<IrFunction>, ds: seq<Defns>,
                      want: map<Key, ClosureTemplate>, k: nat, b: nat, pc: nat, inst: Inst,
                      regs: Regs, w: World, v: Value, w': World, fuel: nat)
    requires Setup(o, fns, fns', ds, want) && GlobalsOk(w.globals, want)
    requires k < |fns| && b < |fns[k].blocks| && RegsOk(fns[k], want, regs)
    requires inst in AllInsts(fns[k].blocks) && !inst.Phi?
    requires Effect(o, fns, inst, regs, w, fuel) == Gives(v, w') && GlobalsOk(w'.globals, want)
    ensures Fine(o, fns, fns', want, k, b, pc + 1, Store(regs, inst.Dst(), v), w', fuel)
    decreases fuel, 5
  {
    assert OneMeaning(fns[k], want);
    StoreKeeps(o, fns, fns[k], want, inst, regs, w, fuel);
    MeaningRun(o, fns, fns', ds, want, k, b, pc + 1, Store(regs, inst.Dst(), v), w', fuel);
  }

  lemma RewrittenAt(f: IrFunction, f': IrFunction, d: Defns, b: nat, pc: nat)
    requires SameCode(f', Rewrite(f, d)) && b < |f.blocks| && pc < |f.blocks[b].insts|
    ensures |f'.blocks| == |f.blocks| && |f'.blocks[b].insts| == |f.blocks[b].insts|
    ensures f'.blocks[b].insts[pc] == RewriteInst(f.blocks[b].insts[pc], LoadTargets(AllInsts(f.blocks), d), d)
  {
  }

  lemma {:induction false} MeaningAt(o: Oracle, fns: seq<IrFunction>, fns': seq<IrFunction>, ds: seq<Defns>,
                    want: map<Key, ClosureTemplate>, k: nat, b: nat, pc: nat, regs: Regs, w: World, fuel: nat)
    requires Setup(o, fns, fns', ds, want) && GlobalsOk(w.globals, want) && fuel > 0
    requires k < |fns| && b < |fns[k].blocks| && RegsOk(fns[k], want, regs)
    requires pc < |fns[k].blocks[b].insts| && !fns[k].blocks[b].insts[pc].Phi?
    ensures Fine(o, fns, fns', want, k, b, pc, regs, w, fuel)
    decreases fuel, 3
  {
    assert LinkedAt(fns[k], fns'[k], ds[k], want);
    RewrittenAt(fns[k], fns'[k], ds[k], b, pc);
    var inst, inst' := fns[k].blocks[b].insts[pc], fns'[k].blocks[b].insts[pc];
    InstIsIn(fns[k].blocks, b, pc);
    MeaningStep(o, fns, fns', ds, want, k, b, pc, inst, inst', regs, w, fuel - 1);
    InstIsFine(o, fns, fns', want, k, b, pc, inst, inst', regs, w, fuel);
  }

  lemma {:induction false} MeaningRun(o: Oracle, fns: seq<IrFunction>, fns': seq<IrFunction>, ds: seq<Defns>,
                     want: map<Key, ClosureTemplate>, k: nat, b: nat, pc: nat, regs: Regs, w: World, fuel: nat)
    requires Setup(o, fns, fns', ds, want) && GlobalsOk(w.globals, want)
    requires k < |fns| && b < |fns[k].blocks| && RegsOk(fns[k], want, regs)
    ensures Fine(o, fns, fns', want, k, b, pc, regs, w, fuel)
    decreases fuel, 4
  {
    var blk := fns[k].blocks[b];
    if fuel > 0 {
      if pc < |blk.insts| {
        if blk.insts[pc].Phi? {
          MeaningRun(o, fns, fns', ds, want, k, b, pc + 1, regs, w, fuel - 1);
        } else {
          MeaningAt(o, fns, fns', ds, want, k, b, pc, regs, w, fuel);
        }
      } else if !blk.term.Return? && Edge(fns[k], blk, regs).Some? {
        assert OneMeaning(fns[k], want);
        EdgeKeeps(fns[k], want, blk, regs);
        var e := Edge(fns[k], blk, regs).value;
        MeaningRun(o, fns, fns', ds, want, k, e.0, 0, e.1, w, fuel - 1);
      }
    }
  }

  // ---- The pass over the tree ----

  /** The closure each global of the unit is meant to hold. */
  function Wanted(fns: seq<IrFunction>): map<Key, ClosureTemplate> {
    if fns == [] then map[] else Wanted(fns[..|fns| - 1]) + Templates(fns[|fns| - 1])
  }

  ghost predicate SingleMeaning(root: IrFunction) {
    forall i :: 0 <= i < |Fns(root)| ==> OneMeaning(Fns(root)[i], Wanted(Fns(root)))
  }

  lemma {:induction false} SeenClosure(insts: seq<Inst>, v: Var)
    requires v in See(insts).closures
    ensures AllocClosure(v, See(insts).closures[v], []) in insts
  {
    var n := |insts| - 1;
    if insts[n] != AllocClosure(v, See(insts).closures[v], []) {
      SeenClosure(insts[..n], v);
    }
  }

  lemma {:induction false} SeenDef(insts: seq<Inst>, k: Key) returns (def: Inst)
    requires k in See(insts).defs
    ensures def in insts && def.DefVar? && (def.ns, def.name) == k
    ensures AllocClosure(def.val, See(insts).defs[k], []) in insts
  {
    var n := |insts| - 1;
    var before := See(insts[..n]);
    if insts[n].DefVar? && (insts[n].ns, insts[n].name) == k && insts[n].val in before.closures {
      def := insts[n];
      SeenClosure(insts[..n], def.val);
    } else {
      def := SeenDef(insts[..n], k);
    }
  }

  lemma {:induction false} WantedHas(fns: seq<IrFunction>, i: nat, k: Key)
    requires i < |fns| && k in Templates(fns[i])
    ensures k in Wanted(fns)
  {
    if i < |fns| - 1 {
      WantedHas(fns[..|fns| - 1], i, k);
    }
  }

  lemma CollectAllowed(fns: seq<IrFunction>, i: nat)
    requires i < |fns| && OneMeaning(fns[i], Wanted(fns))
    ensures Allowed(Collect(fns[i]), Wanted(fns))
  {
    var f, want := fns[i], Wanted(fns);
    forall k | k in Collect(f) ensures k in want && Collect(f)[k] == Infos(want[k]) {
      WantedHas(fns, i, k);
      var def := SeenDef(AllInsts(f.blocks), k);
      assert InstOk(f, def, want);
    }
  }

  lemma RewriteNothing(f: IrFunction)
    ensures SameCode(f, Rewrite(f, map[]))
  {
    var d: Defns := map[];
    var targets := LoadTargets(AllInsts(f.blocks), d);
    forall i | 0 <= i < |f.blocks| ensures Rewrite(f, d).blocks[i] == f.blocks[i] {
      assert RewriteInsts(f.blocks[i].insts, targets, d) == f.blocks[i].insts;
    }
    assert Rewrite(f, d).blocks == f.blocks;
  }

  lemma LinkedUnchanged(fns: seq<IrFunction>, want: map<Key, ClosureTemplate>) returns (ds: seq<Defns>)
    ensures Linked(fns, fns, ds, want)
  {
    ds := seq(|fns|, _ => map[]);
    forall i | 0 <= i < |fns| ensures LinkedAt(fns[i], fns[i], ds[i], want) {
      RewriteNothing(fns[i]);
    }
  }

  lemma LinkedConcat(a: seq<IrFunction>, a': seq<IrFunction>, da: seq<Defns>,
                     b: seq<IrFunction>, b': seq<IrFunction>, db: seq<Defns>, want: map<Key, ClosureTemplate>)
    requires Linked(a, a', da, want) && Linked(b, b', db, want)
    ensures Linked(a + b, a' + b', da + db, want)
  {
    forall i | 0 <= i < |a + b| ensures LinkedAt((a + b)[i], (a' + b')[i], (da + db)[i], want) {
      if i < |a| {
        assert LinkedAt(a[i], a'[i], da[i], want);
      } else {
        assert LinkedAt(b[i - |a|], b'[i - |a|], db[i - |a|], want);
      }
    }
  }

  ghost predicate AllCollect(fns: seq<IrFunction>, want: map<Key, ClosureTemplate>) {
    forall g :: g in fns ==> Allowed(Collect(g), want)
  }

  lemma {:induction false} WithLinked(f: IrFunction, d: Defns, want: map<Key, ClosureTemplate>) returns (ds: seq<Defns>)
    requires Allowed(d, want) && AllCollect(Fns(f), want)
    ensures Linked(Fns(f), Fns(OptimizeWith(f, d)), ds, want)
    decreases f, 1
  {
    var all := d + Collect(f);
    assert f in Fns(f);
    if all == map[] {
      ds := LinkedUnchanged(Fns(f), want);
    } else {
      ds := BelowLinked(f, all, want);
    }
  }

  /** The function itself and then its subfunctions. */
  lemma {:induction false} BelowLinked(f: IrFunction, all: Defns, want: map<Key, ClosureTemplate>)
    returns (ds: seq<Defns>)
    requires Allowed(all, want) && AllCollect(FnsOf(f.subfunctions), want)
    ensures var f' := Rewrite(f, all).(subfunctions := OptimizeSubs(f.subfunctions, all));
      Linked(Fns(f), Fns(f'), ds, want)
    decreases f, 0
  {
    var f' := Rewrite(f, all).(subfunctions := OptimizeSubs(f.subfunctions, all));
    var below := SubsLinked(f.subfunctions, all, want);
    assert LinkedAt(f, f', all, want);
    LinkedConcat([f], [f'], [all], FnsOf(f.subfunctions), FnsOf(f'.subfunctions), below, want);
    ds := [all] + below;
  }

  lemma {:induction false} SubsLinked(subs: seq<IrFunction>, d: Defns, want: map<Key, ClosureTemplate>)
    returns (ds: seq<Defns>)
    requires Allowed(d, want) && AllCollect(FnsOf(subs), want)
    ensures Linked(FnsOf(subs), FnsOf(OptimizeSubs(subs, d)), ds, want)
    decreases subs, 0
  {
    if subs == [] {
      ds := [];
    } else {
      var subs' := OptimizeSubs(subs, d);
      assert subs'[1..] == OptimizeSubs(subs[1..], d);
      var head := WithLinked(subs[0], d, want);
      var tail := SubsLinked(subs[1..], d, want);
      LinkedConcat(Fns(subs[0]), Fns(subs'[0]), head, FnsOf(subs[1..]), FnsOf(subs'[1..]), tail, want);
      ds := head + tail;
    }
  }

  lemma {:induction false} SubIn(subs: seq<IrFunction>, g: IrFunction)
    requires g in subs
    ensures g in FnsOf(subs)
  {
    if g != subs[0] {
      assert g in subs[1..];
      SubIn(subs[1..], g);
    }
  }

  lemma {:induction false} CollectEachAllowed(subs: seq<IrFunction>, want: map<Key, ClosureTemplate>)
    requires forall g :: g in subs ==> Allowed(Collect(g), want)
    ensures Allowed(CollectEach(subs), want)
  {
    if subs != [] {
      CollectEachAllowed(subs[..|subs| - 1], want);
      assert subs[|subs| - 1] in subs;
    }
  }

  lemma OptimizeLinked(root: IrFunction) returns (ds: seq<Defns>)
    requires SingleMeaning(root)
    ensures Linked(Fns(root), Fns(Optimize(root)), ds, Wanted(Fns(root)))
  {
    var fns, want := Fns(root), Wanted(Fns(root));
    forall g | g in fns ensures Allowed(Collect(g), want) {
      var i :| 0 <= i < |fns| && fns[i] == g;
      CollectAllowed(fns, i);
    }
    forall g | g in root.subfunctions ensures Allowed(Collect(g), want) {
      SubIn(root.subfunctions, g);
      assert g in fns;
    }
    CollectEachAllowed(root.subfunctions, want);
    assert root in fns;
    var all := Collect(root) + CollectEach(root.subfunctions);
    if all == map[] {
      ds := LinkedUnchanged(fns, want);
    } else {
      ds := BelowLinked(root, all, want);
    }
  }

  /** If every global the unit defines with a closure has one meaning, the initial globals agree
      with it and the oracle leaves them alone, then every run is preserved. */
  lemma DirectCallsPreserve(root: IrFunction, o: Oracle, name: string, args: seq<Value>, w: World, fuel: nat)
    requires SingleMeaning(root) && Respects(o, Wanted(Fns(root))) && GlobalsOk(w.globals, Wanted(Fns(root)))
    requires CallFn(o, Fns(root), name, args, w, fuel) != Stuck
    ensures CallFn(o, Fns(Optimize(root)), name, args, w, fuel) == CallFn(o, Fns(root), name, args, w, fuel)
  {
    var ds := OptimizeLinked(root);
    RunPreserved(root, o, name, args, w, fuel);
    MeaningCall(o, Fns(root), Fns(Optimize(root)), ds, Wanted(Fns(root)), name, args, w, fuel);
  }
}
