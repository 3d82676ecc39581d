/**
 The calls of a run, in order, and what direct-call rewriting does to them: the
 optimized unit makes the same calls if and only if every rewritten call that the
 original run executes would have been dispatched to the function named.
 */
module DirectCallTrace {
  import opened Common
  import opened Ir
  import opened IrRun
  import opened DirectCall
  import opened DirectCallRun
  import opened DirectCallSound

  /** A function of the unit entered, or a value called that leads to none. */
  datatype CallEvent = Entered(name: string, args: seq<Value>) | Outside(callee: Value, args: seq<Value>)

  function CallsOfFn(o: Oracle, fns: seq<IrFunction>, name: string, args: seq<Value>, w: World, fuel: nat)
    : (t: seq<CallEvent>)
    ensures |t| > 0 && t[0] == Entered(name, args)
    decreases fuel, 0
  {
    [Entered(name, args)] +
    match FindFn(fns, name)
    case None => []
    case Some(k) =>
      if fns[k].blocks == [] || fuel == 0 then []
      else CallsOfRun(o, fns, fns[k], 0, 0, BindParams(fns[k].params, args), w, fuel - 1)
  }

  function CallsOfApply(o: Oracle, fns: seq<IrFunction>, callee: Value, args: seq<Value>, w: World, fuel: nat)
    : seq<CallEvent>
    decreases fuel, 1
  {
    if !callee.ClosureV? then [Outside(callee, args)]
    else match Dispatch(callee.template, callee.captured, args)
      case None => [Outside(callee, args)]
      case Some(target) => CallsOfFn(o, fns, target.0, target.1, w, fuel)
  }

  function CallsOfInst(o: Oracle, fns: seq<IrFunction>, inst: Inst, regs: Regs, w: World, fuel: nat): seq<CallEvent>
    decreases fuel, 2
  {
    match inst
    case Call(_, callee, args) =>
      if callee in regs && AllDefined(args, regs) then CallsOfApply(o, fns, regs[callee], Read(args, regs), w, fuel)
      else []
    case CallDirect(_, name, args) =>
      if AllDefined(args, regs) then CallsOfFn(o, fns, name, Read(args, regs), w, fuel) else []
    case _ => []
  }

  function CallsOfRun(o: Oracle, fns: seq<IrFunction>, f: IrFunction, b: nat, pc: nat, regs: Regs, w: World, fuel: nat)
    : seq<CallEvent>
    requires b < |f.blocks|
    decreases fuel, 3
  {
    var blk := f.blocks[b];
    if fuel == 0 then []
    else if pc < |blk.insts| then
      var inst := blk.insts[pc];
      if inst.Phi? then CallsOfRun(o, fns, f, b, pc + 1, regs, w, fuel - 1)
      else
        CallsOfInst(o, fns, inst, regs, w, fuel - 1) +
        match Effect(o, fns, inst, regs, w, fuel - 1)
        case Ends(_) => []
        case Gives(v, w') => CallsOfRun(o, fns, f, b, pc + 1, Store(regs, inst.Dst(), v), w', fuel - 1)
    else if blk.term.Return? then []
    else match Edge(f, blk, regs)
      case None => []
      case Some(e) => CallsOfRun(o, fns, f, e.0, 0, e.1, w, fuel - 1)
  }

  // ---- Divergence ----

  /** Some call is different in the two, with the same number of calls before it. */
  ghost predicate Diverge(t: seq<CallEvent>, t': seq<CallEvent>) {
    exists i :: 0 <= i < |t| && i < |t'| && t[i] != t'[i]
  }

  /** Two lists of calls are the same if the run dispatches and does not get stuck, and diverge if it does not. */
  ghost predicate Tied(t: seq<CallEvent>, t': seq<CallEvent>, dispatches: bool, stuck: bool) {
    (dispatches && !stuck ==> t == t') && (!dispatches ==> Diverge(t, t'))
  }

  lemma DivergeOnward(t: seq<CallEvent>, t': seq<CallEvent>, u: seq<CallEvent>, u': seq<CallEvent>)
    requires Diverge(t, t')
    ensures Diverge(t + u, t' + u')
  {
    var i :| 0 <= i < |t| && i < |t'| && t[i] != t'[i];
    assert (t + u)[i] == t[i] && (t' + u')[i] == t'[i];
  }

  lemma DivergeAfter(t: seq<CallEvent>, u: seq<CallEvent>, u': seq<CallEvent>)
    requires Diverge(u, u')
    ensures Diverge(t + u, t + u')
  {
    var i :| 0 <= i < |u| && i < |u'| && u[i] != u'[i];
    assert (t + u)[|t| + i] == u[i] && (t + u')[|t| + i] == u'[i];
  }

  lemma DivergeAtOnce(t: seq<CallEvent>, t': seq<CallEvent>)
    requires |t| > 0 && |t'| > 0 && t[0] != t'[0]
    ensures Diverge(t, t')
  {
  }

  lemma TiedJoin(t: seq<CallEvent>, t': seq<CallEvent>, d: bool,
                 u: seq<CallEvent>, u': seq<CallEvent>, e: bool, stuck: bool)
    requires Tied(t, t', d, false) && (d ==> Tied(u, u', e, stuck))
    ensures Tied(t + u, t' + u', d && e, stuck)
  {
    if !d {
      DivergeOnward(t, t', u, u');
    } else if !e {
      DivergeAfter(t, u, u');
    }
  }

  // ---- The two units' calls ----

  lemma {:induction false} TieFn(o: Oracle, fns: seq<IrFunction>, fns': seq<IrFunction>, name: string,
                                 args: seq<Value>, w: World, fuel: nat)
    requires Rewriting(fns, fns')
    ensures Tied(CallsOfFn(o, fns, name, args, w, fuel), CallsOfFn(o, fns', name, args, w, fuel),
              DispatchesCall(o, fns, fns', name, args, w, fuel), CallFn(o, fns, name, args, w, fuel) == Stuck)
    decreases fuel, 0
  {
    forall i | 0 <= i < |fns| ensures fns[i].name == fns'[i].name {
      assert FnPair(fns[i], fns'[i]);
    }
    LinkedFind(fns, fns', name);
    var found := FindFn(fns, name);
    if found.Some? {
      var k := found.value;
      assert FnPair(fns[k], fns'[k]);
      if fuel > 0 && fns[k].blocks != [] {
        var regs := BindParams(fns[k].params, args);
        TieRun(o, fns, fns', k, 0, 0, regs, w, fuel - 1);
        var first := [Entered(name, args)];
        TiedJoin(first, first, true,
          CallsOfRun(o, fns, fns[k], 0, 0, regs, w, fuel - 1), CallsOfRun(o, fns', fns'[k], 0, 0, regs, w, fuel - 1),
          DispatchesRun(o, fns, fns', k, 0, 0, regs, w, fuel - 1), CallFn(o, fns, name, args, w, fuel) == Stuck);
      }
    }
  }

  lemma {:induction false} TieApply(o: Oracle, fns: seq<IrFunction>, fns': seq<IrFunction>, callee: Value,
                                    args: seq<Value>, w: World, fuel: nat)
    requires Rewriting(fns, fns')
    ensures Tied(CallsOfApply(o, fns, callee, args, w, fuel), CallsOfApply(o, fns', callee, args, w, fuel),
              DispatchesApply(o, fns, fns', callee, args, w, fuel), Apply(o, fns, callee, args, w, fuel) == Ends(Stuck))
    decreases fuel, 1
  {
    if callee.ClosureV? {
      var target := Dispatch(callee.template, callee.captured, args);
      if target.Some? {
        TieFn(o, fns, fns', target.value.0, target.value.1, w, fuel);
      }
    }
  }

  /** A rewritten call that does not dispatch as named differs at once. */
  lemma TieRewritten(o: Oracle, fns: seq<IrFunction>, fns': seq<IrFunction>, inst: Inst, inst': Inst,
                     regs: Regs, w: World, fuel: nat)
    requires inst.Call? && inst'.CallDirect? && inst'.args == inst.args && !Sends(inst, inst', regs)
    ensures Diverge(CallsOfInst(o, fns, inst, regs, w, fuel), CallsOfInst(o, fns', inst', regs, w, fuel))
  {
    var callee, args := regs[inst.callee], Read(inst.args, regs);
    var t, t' := CallsOfApply(o, fns, callee, args, w, fuel), CallsOfFn(o, fns', inst'.fnName, args, w, fuel);
    assert |t| > 0 && t[0] != t'[0];
    DivergeAtOnce(t, t');
  }

  lemma {:induction false} TieInst(o: Oracle, fns: seq<IrFunction>, fns': seq<IrFunction>, inst: Inst, inst': Inst,
                                   regs: Regs, w: World, fuel: nat)
    requires Rewriting(fns, fns') && InstPair(inst, inst')
    ensures Tied(CallsOfInst(o, fns, inst, regs, w, fuel), CallsOfInst(o, fns', inst', regs, w, fuel),
              DispatchesInst(o, fns, fns', inst, inst', regs, w, fuel),
              Effect(o, fns, inst, regs, w, fuel) == Ends(Stuck))
    decreases fuel, 2
  {
    if !Sends(inst, inst', regs) {
      TieRewritten(o, fns, fns', inst, inst', regs, w, fuel);
    } else {
      match inst
      case Call(_, callee, args) =>
        if callee in regs && AllDefined(args, regs) {
          TieApply(o, fns, fns', regs[callee], Read(args, regs), w, fuel);
        }
      case CallDirect(_, name, args) =>
        if AllDefined(args, regs) {
          TieFn(o, fns, fns', name, Read(args, regs), w, fuel);
        }
      case _ =>
    }
  }

  /** The calls of the two units from a point of function `k` are tied. */
  ghost predicate TiedAt(o: Oracle, fns: seq<IrFunction>, fns': seq<IrFunction>,
                         k: nat, b: nat, pc: nat, regs: Regs, w: World, fuel: nat)
    requires k < |fns| == |fns'| && b < |fns[k].blocks| == |fns'[k].blocks|
  {
    Tied(CallsOfRun(o, fns, fns[k], b, pc, regs, w, fuel), CallsOfRun(o, fns', fns'[k], b, pc, regs, w, fuel),
      DispatchesRun(o, fns, fns', k, b, pc, regs, w, fuel), Run(o, fns, fns[k], b, pc, regs, w, fuel) == Stuck)
  }

  lemma {:induction false} TieRunInst(o: Oracle, fns: seq<IrFunction>, fns': seq<IrFunction>,
                                      k: nat, b: nat, pc: nat, regs: Regs, w: World, fuel: nat)
    requires Rewriting(fns, fns') && k < |fns| && b < |fns[k].blocks| && fuel > 0
    requires |fns[k].blocks| == |fns'[k].blocks| && BlockPair(fns[k].blocks[b], fns'[k].blocks[b])
    requires pc < |fns[k].blocks[b].insts|
    ensures TiedAt(o, fns, fns', k, b, pc, regs, w, fuel)
    decreases fuel, 3
  {
    var inst, inst' := fns[k].blocks[b].insts[pc], fns'[k].blocks[b].insts[pc];
    assert InstPair(inst, inst');
    if inst.Phi? {
      TieRun(o, fns, fns', k, b, pc + 1, regs, w, fuel - 1);
    } else {
      TieInst(o, fns, fns', inst, inst', regs, w, fuel - 1);
      var e := Effect(o, fns, inst, regs, w, fuel - 1);
      var e' := Effect(o, fns', inst', regs, w, fuel - 1);
      var d := DispatchesInst(o, fns, fns', inst, inst', regs, w, fuel - 1);
      if d {
        SimEffect(o, fns, fns', inst, inst', regs, w, fuel - 1);
      }
      if e.Gives? {
        TieRun(o, fns, fns', k, b, pc + 1, Store(regs, inst.Dst(), e.v), e.w, fuel - 1);
      }
      TieStep(o, fns, fns', k, b, pc, regs, w, fuel, inst, inst', e, e', d);
    }
  }

  function After(o: Oracle, fns: seq<IrFunction>, f: IrFunction, b: nat, pc: nat, regs: Regs, inst: Inst, e: Eff,
                 fuel: nat): seq<CallEvent>
    requires b < |f.blocks|
  {
    if e.Gives? then CallsOfRun(o, fns, f, b, pc + 1, Store(regs, inst.Dst(), e.v), e.w, fuel) else []
  }

  lemma TieStep(o: Oracle, fns: seq<IrFunction>, fns': seq<IrFunction>, k: nat, b: nat, pc: nat, regs: Regs, w: World,
                fuel: nat, inst: Inst, inst': Inst, e: Eff, e': Eff, d: bool)
    requires k < |fns| == |fns'| && b < |fns[k].blocks| == |fns'[k].blocks| && fuel > 0
    requires pc < |fns[k].blocks[b].insts| == |fns'[k].blocks[b].insts|
    requires inst == fns[k].blocks[b].insts[pc] && inst' == fns'[k].blocks[b].insts[pc]
    requires !inst.Phi? && !inst'.Phi? && inst.Dst() == inst'.Dst()
    requires e == Effect(o, fns, inst, regs, w, fuel - 1) && e' == Effect(o, fns', inst', regs, w, fuel - 1)
    requires d == DispatchesInst(o, fns, fns', inst, inst', regs, w, fuel - 1)
    requires Tied(CallsOfInst(o, fns, inst, regs, w, fuel - 1), CallsOfInst(o, fns', inst', regs, w, fuel - 1),
               d, e == Ends(Stuck))
    requires d && e != Ends(Stuck) ==> e' == e
    requires e.Gives? ==> TiedAt(o, fns, fns', k, b, pc + 1, Store(regs, inst.Dst(), e.v), e.w, fuel - 1)
    ensures TiedAt(o, fns, fns', k, b, pc, regs, w, fuel)
  {
    if e != Ends(Stuck) || !d {
      var t, t' := CallsOfInst(o, fns, inst, regs, w, fuel - 1), CallsOfInst(o, fns', inst', regs, w, fuel - 1);
      var u := After(o, fns, fns[k], b, pc, regs, inst, e, fuel - 1);
      var u' := After(o, fns', fns'[k], b, pc, regs, inst', e', fuel - 1);
      var rest := e.Gives? ==> DispatchesRun(o, fns, fns', k, b, pc + 1, Store(regs, inst.Dst(), e.v), e.w, fuel - 1);
      TiedJoin(t, t', d, u, u', rest, Run(o, fns, fns[k], b, pc, regs, w, fuel) == Stuck);
    }
  }

  lemma {:induction false} TieRun(o: Oracle, fns: seq<IrFunction>, fns': seq<IrFunction>,
                                  k: nat, b: nat, pc: nat, regs: Regs, w: World, fuel: nat)
    requires Rewriting(fns, fns') && k < |fns| && b < |fns[k].blocks|
    ensures |fns[k].blocks| == |fns'[k].blocks| && TiedAt(o, fns, fns', k, b, pc, regs, w, fuel)
    decreases fuel, 4
  {
    assert FnPair(fns[k], fns'[k]) && BlockPair(fns[k].blocks[b], fns'[k].blocks[b]);
    var blk := fns[k].blocks[b];
    if fuel > 0 {
      if pc < |blk.insts| {
        TieRunInst(o, fns, fns', k, b, pc, regs, w, fuel);
      } else if !blk.term.Return? {
        EdgeSame(fns[k], fns'[k], blk, fns'[k].blocks[b], regs);
        if Edge(fns[k], blk, regs).Some? {
          var e := Edge(fns[k], blk, regs).value;
          TieRun(o, fns, fns', k, e.0, 0, e.1, w, fuel - 1);
        }
      }
    }
  }

  /** The optimized unit makes the calls of the original, each of the same function with the same
      arguments and in the same order, if and only if dispatch goes where the direct calls go. */
  lemma SameCallsIff(root: IrFunction, o: Oracle, name: string, args: seq<Value>, w: World, fuel: nat)
    requires CallFn(o, Fns(root), name, args, w, fuel) != Stuck
    ensures
      CallsOfFn(o, Fns(Optimize(root)), name, args, w, fuel) == CallsOfFn(o, Fns(root), name, args, w, fuel) <==>
      DispatchesCall(o, Fns(root), Fns(Optimize(root)), name, args, w, fuel)
  {
    OptimizeRewrites(root);
    TieFn(o, Fns(root), Fns(Optimize(root)), name, args, w, fuel);
  }
}
