/**
 Direct-call rewriting preserves every run in which each executed call that was
 rewritten would have been dispatched to the very function the direct call names.
 Nothing is asked of the globals, of the oracle, or of calls that do not run.
 */
module DirectCallSound {
  import opened Common
  import opened Ir
  import opened IrRun
  import opened DirectCall
  import opened DirectCallRun

  // ---- Rewritings ----

  /** An instruction as it was, or a call made direct with its destination and arguments. */
  predicate InstPair(i: Inst, i': Inst) {
    i' == i || (i.Call? && i'.CallDirect? && i'.dst == i.dst && i'.args == i.args)
  }

  predicate BlockPair(b: Block, b': Block) {
    && b'.id == b.id && b'.phis == b.phis && b'.term == b.term && |b'.insts| == |b.insts|
    && forall j :: 0 <= j < |b.insts| ==> InstPair(b.insts[j], b'.insts[j])
  }

  predicate FnPair(f: IrFunction, f': IrFunction) {
    && f'.name == f.name && f'.params == f.params && |f'.blocks| == |f.blocks|
    && forall b :: 0 <= b < |f.blocks| ==> BlockPair(f.blocks[b], f'.blocks[b])
  }

  /** Two units, function by function the same up to calls made direct. */
  predicate Rewriting(fns: seq<IrFunction>, fns': seq<IrFunction>) {
    |fns| == |fns'| && forall i :: 0 <= i < |fns| ==> FnPair(fns[i], fns'[i])
  }

  // ---- Runs that dispatch as rewritten ----

  /** Dynamic dispatch of the call would reach the function the direct call names. */
  predicate Sends(inst: Inst, inst': Inst, regs: Regs) {
    inst' != inst && inst.Call? && inst'.CallDirect? && inst.callee in regs && AllDefined(inst.args, regs) ==>
      var callee, args := regs[inst.callee], Read(inst.args, regs);
      callee.ClosureV? && Dispatch(callee.template, callee.captured, args) == Some((inst'.fnName, args))
  }

  /** The instruction in the same place of the other unit. */
  function Counterpart(fns: seq<IrFunction>, k: nat, b: nat, pc: nat, inst: Inst): Inst {
    if k < |fns| && b < |fns[k].blocks| && pc < |fns[k].blocks[b].insts| then fns[k].blocks[b].insts[pc] else inst
  }

  /** At every rewritten call that the original run executes, in this function or
      in any it calls, dispatch goes where the direct call does. */
  predicate DispatchesCall(o: Oracle, fns: seq<IrFunction>, fns': seq<IrFunction>, name: string, args: seq<Value>,
                           w: World, fuel: nat)
    decreases fuel, 0
  {
    match FindFn(fns, name)
    case None => true
    case Some(k) =>
      fns[k].blocks == [] || fuel == 0 ||
      DispatchesRun(o, fns, fns', k, 0, 0, BindParams(fns[k].params, args), w, fuel - 1)
  }

  predicate DispatchesApply(o: Oracle, fns: seq<IrFunction>, fns': seq<IrFunction>, callee: Value, args: seq<Value>,
                            w: World, fuel: nat)
    decreases fuel, 1
  {
    callee.ClosureV? ==>
      match Dispatch(callee.template, callee.captured, args)
      case None => true
      case Some(target) => DispatchesCall(o, fns, fns', target.0, target.1, w, fuel)
  }

  predicate DispatchesInst(o: Oracle, fns: seq<IrFunction>, fns': seq<IrFunction>, inst: Inst, inst': Inst,
                           regs: Regs, w: World, fuel: nat)
    decreases fuel, 2
  {
    Sends(inst, inst', regs) &&
    match inst
    case Call(_, callee, args) =>
      callee in regs && AllDefined(args, regs) ==>
        DispatchesApply(o, fns, fns', regs[callee], Read(args, regs), w, fuel)
    case CallDirect(_, name, args) =>
      AllDefined(args, regs) ==> DispatchesCall(o, fns, fns', name, Read(args, regs), w, fuel)
    case _ => true
  }

  predicate DispatchesRun(o: Oracle, fns: seq<IrFunction>, fns': seq<IrFunction>, k: nat, b: nat, pc: nat,
                          regs: Regs, w: World, fuel: nat)
    requires k < |fns| && b < |fns[k].blocks|
    decreases fuel, 3
  {
    var blk := fns[k].blocks[b];
    if fuel == 0 then true
    else if pc < |blk.insts| then
      var inst := blk.insts[pc];
      if inst.Phi? then DispatchesRun(o, fns, fns', k, b, pc + 1, regs, w, fuel - 1)
      else
        DispatchesInst(o, fns, fns', inst, Counterpart(fns', k, b, pc, inst), regs, w, fuel - 1) &&
        match Effect(o, fns, inst, regs, w, fuel - 1)
        case Ends(_) => true
        case Gives(v, w') =>
          DispatchesRun(o, fns, fns', k, b, pc + 1, Store(regs, inst.Dst(), v), w', fuel - 1)
    else if blk.term.Return? then true
    else match Edge(fns[k], blk, regs)
      case None => true
      case Some(e) => DispatchesRun(o, fns, fns', k, e.0, 0, e.1, w, fuel - 1)
  }

  // ---- Simulation ----

  lemma {:induction false} LinkedFind(fns: seq<IrFunction>, fns': seq<IrFunction>, name: string)
    requires |fns| == |fns'| && forall i :: 0 <= i < |fns| ==> fns[i].name == fns'[i].name
    ensures FindFn(fns, name) == FindFn(fns', name)
  {
    if fns != [] {
      LinkedFind(fns[1..], fns'[1..], name);
    }
  }

  lemma {:induction false} FindBlockRewritten(blocks: seq<Block>, blocks': seq<Block>, id: BlockId)
    requires |blocks| == |blocks'| && forall i :: 0 <= i < |blocks| ==> blocks[i].id == blocks'[i].id
    ensures FindBlock(blocks, id) == FindBlock(blocks', id)
  {
    if blocks != [] {
      FindBlockRewritten(blocks[1..], blocks'[1..], id);
    }
  }

  ghost predicate SameEntries(f: IrFunction, f': IrFunction) {
    && |f.blocks| == |f'.blocks|
    && forall i :: 0 <= i < |f.blocks| ==> f.blocks[i].id == f'.blocks[i].id && f.blocks[i].phis == f'.blocks[i].phis
  }

  lemma PairEntries(f: IrFunction, f': IrFunction)
    requires FnPair(f, f')
    ensures SameEntries(f, f')
  {
    forall i | 0 <= i < |f.blocks| ensures f.blocks[i].id == f'.blocks[i].id && f.blocks[i].phis == f'.blocks[i].phis {
      assert BlockPair(f.blocks[i], f'.blocks[i]);
    }
  }

  lemma EnterSame(f: IrFunction, f': IrFunction, b: Block, b': Block, id: BlockId, regs: Regs)
    requires SameEntries(f, f') && b.id == b'.id && b.term == b'.term
    ensures Enter(f', FindBlock(f'.blocks, id), b', regs) == Enter(f, FindBlock(f.blocks, id), b, regs)
  {
    FindBlockRewritten(f.blocks, f'.blocks, id);
  }

  lemma EdgeSame(f: IrFunction, f': IrFunction, b: Block, b': Block, regs: Regs)
    requires FnPair(f, f') && b.id == b'.id && b.term == b'.term
    ensures Edge(f', b', regs) == Edge(f, b, regs)
  {
    PairEntries(f, f');
    match b.term
    case Jump(t) => EnterSame(f, f', b, b', t, regs);
    case Branch(c, t, e) =>
      if c in regs {
        EnterSame(f, f', b, b', if Truthy(regs[c]) then t else e, regs);
      }
    case RecurJump(t, _) => EnterSame(f, f', b, b', t, regs);
    case _ =>
  }

  lemma {:induction false} SimCallFn(o: Oracle, fns: seq<IrFunction>, fns': seq<IrFunction>, name: string,
                                     args: seq<Value>, w: World, fuel: nat)
    requires Rewriting(fns, fns') && DispatchesCall(o, fns, fns', name, args, w, fuel)
    ensures CallFn(o, fns, name, args, w, fuel) != Stuck ==>
      CallFn(o, fns', name, args, w, fuel) == CallFn(o, fns, name, args, w, fuel)
    decreases fuel, 0
  {
    forall i | 0 <= i < |fns| ensures fns[i].name == fns'[i].name {
      assert FnPair(fns[i], fns'[i]);
    }
    LinkedFind(fns, fns', name);
    var found := FindFn(fns, name);
    if found.Some? {
      var k := found.value;
      assert FnPair(fns[k], fns'[k]);
      if fuel > 0 && fns[k].blocks != [] {
        SimRun(o, fns, fns', k, 0, 0, BindParams(fns[k].params, args), w, fuel - 1);
      }
    }
  }

  lemma {:induction false} SimApply(o: Oracle, fns: seq<IrFunction>, fns': seq<IrFunction>, callee: Value,
                                    args: seq<Value>, w: World, fuel: nat)
    requires Rewriting(fns, fns') && DispatchesApply(o, fns, fns', callee, args, w, fuel)
    ensures Apply(o, fns, callee, args, w, fuel) != Ends(Stuck) ==>
      Apply(o, fns', callee, args, w, fuel) == Apply(o, fns, callee, args, w, fuel)
    decreases fuel, 1
  {
    if callee.ClosureV? {
      var target := Dispatch(callee.template, callee.captured, args);
      if target.Some? {
        SimCallFn(o, fns, fns', target.value.0, target.value.1, w, fuel);
      }
    }
  }

  lemma {:induction false} SimEffect(o: Oracle, fns: seq<IrFunction>, fns': seq<IrFunction>, inst: Inst, inst': Inst,
                                     regs: Regs, w: World, fuel: nat)
    requires Rewriting(fns, fns') && InstPair(inst, inst')
    requires DispatchesInst(o, fns, fns', inst, inst', regs, w, fuel)
    ensures Effect(o, fns, inst, regs, w, fuel) != Ends(Stuck) ==>
      Effect(o, fns', inst', regs, w, fuel) == Effect(o, fns, inst, regs, w, fuel)
    decreases fuel, 2
  {
    match inst
    case Call(_, callee, args) =>
      if callee in regs && AllDefined(args, regs) {
        SimApply(o, fns, fns', regs[callee], Read(args, regs), w, fuel);
      }
    case CallDirect(_, name, args) =>
      if AllDefined(args, regs) {
        SimCallFn(o, fns, fns', name, Read(args, regs), w, fuel);
      }
    case _ =>
  }

  /** From a point of function `k` the two units run alike, unless the original gets stuck. */
  ghost predicate Agree(o: Oracle, fns: seq<IrFunction>, fns': seq<IrFunction>,
                        k: nat, b: nat, pc: nat, regs: Regs, w: World, fuel: nat)
    requires k < |fns| == |fns'| && b < |fns[k].blocks| == |fns'[k].blocks|
  {
    var r := Run(o, fns, fns[k], b, pc, regs, w, fuel);
    r != Stuck ==> Run(o, fns', fns'[k], b, pc, regs, w, fuel) == r
  }

  lemma {:induction false} InstAgrees(o: Oracle, fns: seq<IrFunction>, fns': seq<IrFunction>,
                                      k: nat, b: nat, pc: nat, regs: Regs, w: World, fuel: nat)
    requires k < |fns| == |fns'| && b < |fns[k].blocks| == |fns'[k].blocks| && fuel > 0
    requires pc < |fns[k].blocks[b].insts| == |fns'[k].blocks[b].insts|
    requires var inst, inst' := fns[k].blocks[b].insts[pc], fns'[k].blocks[b].insts[pc];
      !inst.Phi? && !inst'.Phi? && inst.Dst() == inst'.Dst() &&
      var e := Effect(o, fns, inst, regs, w, fuel - 1);
      (e != Ends(Stuck) ==> Effect(o, fns', inst', regs, w, fuel - 1) == e) &&
      (e.Gives? ==> Agree(o, fns, fns', k, b, pc + 1, Store(regs, inst.Dst(), e.v), e.w, fuel - 1))
    ensures Agree(o, fns, fns', k, b, pc, regs, w, fuel)
  {
  }

  lemma {:induction false} SimInst(o: Oracle, fns: seq<IrFunction>, fns': seq<IrFunction>,
                                   k: nat, b: nat, pc: nat, regs: Regs, w: World, fuel: nat)
    requires Rewriting(fns, fns') && k < |fns| && b < |fns[k].blocks| && fuel > 0
    requires |fns[k].blocks| == |fns'[k].blocks| && BlockPair(fns[k].blocks[b], fns'[k].blocks[b])
    requires pc < |fns[k].blocks[b].insts| && DispatchesRun(o, fns, fns', k, b, pc, regs, w, fuel)
    ensures Agree(o, fns, fns', k, b, pc, regs, w, fuel)
    decreases fuel, 3
  {
    var inst, inst' := fns[k].blocks[b].insts[pc], fns'[k].blocks[b].insts[pc];
    assert InstPair(inst, inst');
    if inst.Phi? {
      SimRun(o, fns, fns', k, b, pc + 1, regs, w, fuel - 1);
    } else {
      SimEffect(o, fns, fns', inst, inst', regs, w, fuel - 1);
      var e := Effect(o, fns, inst, regs, w, fuel - 1);
      if e.Gives? {
        SimRun(o, fns, fns', k, b, pc + 1, Store(regs, inst.Dst(), e.v), e.w, fuel - 1);
      }
      InstAgrees(o, fns, fns', k, b, pc, regs, w, fuel);
    }
  }

  lemma {:induction false} SimRun(o: Oracle, fns: seq<IrFunction>, fns': seq<IrFunction>,
                                  k: nat, b: nat, pc: nat, regs: Regs, w: World, fuel: nat)
    requires Rewriting(fns, fns') && k < |fns| && b < |fns[k].blocks|
    requires DispatchesRun(o, fns, fns', k, b, pc, regs, w, fuel)
    ensures |fns[k].blocks| == |fns'[k].blocks| && Agree(o, fns, fns', k, b, pc, regs, w, fuel)
    decreases fuel, 4
  {
    assert FnPair(fns[k], fns'[k]) && BlockPair(fns[k].blocks[b], fns'[k].blocks[b]);
    var blk := fns[k].blocks[b];
    if fuel > 0 {
      if pc < |blk.insts| {
        SimInst(o, fns, fns', k, b, pc, regs, w, fuel);
      } else if !blk.term.Return? {
        EdgeSame(fns[k], fns'[k], blk, fns'[k].blocks[b], regs);
        if Edge(fns[k], blk, regs).Some? {
          var e := Edge(fns[k], blk, regs).value;
          SimRun(o, fns, fns', k, e.0, 0, e.1, w, fuel - 1);
        }
      }
    }
  }

  // ---- The pass is a rewriting ----

  lemma RewritePairs(f: IrFunction, d: Defns, subs: seq<IrFunction>)
    ensures FnPair(f, Rewrite(f, d).(subfunctions := subs))
  {
    var f' := Rewrite(f, d);
    forall b | 0 <= b < |f.blocks| ensures BlockPair(f.blocks[b], f'.blocks[b]) {
      forall j | 0 <= j < |f.blocks[b].insts| ensures InstPair(f.blocks[b].insts[j], f'.blocks[b].insts[j]) {
      }
    }
  }

  lemma RewritingSame(fns: seq<IrFunction>)
    ensures Rewriting(fns, fns)
  {
  }

  lemma RewritingConcat(a: seq<IrFunction>, a': seq<IrFunction>, b: seq<IrFunction>, b': seq<IrFunction>)
    requires Rewriting(a, a') && Rewriting(b, b')
    ensures Rewriting(a + b, a' + b')
  {
  }

  lemma {:induction false} WithRewrites(f: IrFunction, d: Defns)
    ensures Rewriting(Fns(f), Fns(OptimizeWith(f, d)))
    decreases f, 1
  {
    var all := d + Collect(f);
    if all == map[] {
      RewritingSame(Fns(f));
    } else {
      BelowRewrites(f, all);
    }
  }

  lemma {:induction false} BelowRewrites(f: IrFunction, all: Defns)
    ensures Rewriting(Fns(f), Fns(Rewrite(f, all).(subfunctions := OptimizeSubs(f.subfunctions, all))))
    decreases f, 0
  {
    var f' := Rewrite(f, all).(subfunctions := OptimizeSubs(f.subfunctions, all));
    RewritePairs(f, all, OptimizeSubs(f.subfunctions, all));
    SubsRewrite(f.subfunctions, all);
    assert Rewriting([f], [f']);
    RewritingConcat([f], [f'], FnsOf(f.subfunctions), FnsOf(f'.subfunctions));
  }

  lemma {:induction false} SubsRewrite(subs: seq<IrFunction>, d: Defns)
    ensures Rewriting(FnsOf(subs), FnsOf(OptimizeSubs(subs, d)))
    decreases subs, 0
  {
    if subs != [] {
      var subs' := OptimizeSubs(subs, d);
      assert subs'[1..] == OptimizeSubs(subs[1..], d);
      WithRewrites(subs[0], d);
      SubsRewrite(subs[1..], d);
      RewritingConcat(Fns(subs[0]), Fns(subs'[0]), FnsOf(subs[1..]), FnsOf(subs'[1..]));
    }
  }

  lemma OptimizeRewrites(root: IrFunction)
    ensures Rewriting(Fns(root), Fns(Optimize(root)))
  {
    var all := Collect(root) + CollectEach(root.subfunctions);
    if all == map[] {
      RewritingSame(Fns(root));
    } else {
      BelowRewrites(root, all);
    }
  }

  /** Meaning preservation, run by run: if at each rewritten call the run executes dispatch would
      reach the function named, then calling any function of the optimized unit gives exactly the
      result, exception, globals and history of the original, for all arguments, all worlds, all
      oracles and all fuel. A stuck run is one that reads an undefined variable or a missing
      function, which no lowered program does. */
  lemma RunPreserved(root: IrFunction, o: Oracle, name: string, args: seq<Value>, w: World, fuel: nat)
    ensures Rewriting(Fns(root), Fns(Optimize(root)))
    ensures
      && DispatchesCall(o, Fns(root), Fns(Optimize(root)), name, args, w, fuel)
      && CallFn(o, Fns(root), name, args, w, fuel) != Stuck
      ==> CallFn(o, Fns(Optimize(root)), name, args, w, fuel) == CallFn(o, Fns(root), name, args, w, fuel)
  {
    OptimizeRewrites(root);
    if DispatchesCall(o, Fns(root), Fns(Optimize(root)), name, args, w, fuel) {
      SimCallFn(o, Fns(root), Fns(Optimize(root)), name, args, w, fuel);
    }
  }
}
