/**
 Runs of a compilation unit: the flat list of its functions, found by name. What
 lies outside it, native functions and the other instructions, is an oracle that
 sees and may change the globals. `fuel` bounds steps and call depth.
 */
module DirectCallRun {
  import opened Common
  import opened Ir
  import opened IrRun
  import opened DirectCall

  datatype World = World(globals: map<Key, Value>, history: seq<nat>)

  datatype Query =
    | AskOther(op: nat, args: seq<Value>)
    | AskKnown(fn: KnownFn, args: seq<Value>)
    | AskCall(callee: Value, args: seq<Value>)

  datatype Answer = Answered(v: Value, w: World) | Raised(v: Value, w: World)

  type Oracle = (Query, World) -> Answer

  datatype Res = Returned(v: Value, w: World) | Threw(v: Value, w: World) | Stuck | NoFuel

  /** An instruction gives a value or ends the run. */
  datatype Eff = Gives(v: Value, w: World) | Ends(r: Res)

  function FromAnswer(a: Answer): Eff {
    match a
    case Answered(v, w) => Gives(v, w)
    case Raised(v, w) => Ends(Threw(v, w))
  }

  function FromRes(r: Res): Eff {
    if r.Returned? then Gives(r.v, r.w) else Ends(r)
  }

  function ConstValue(c: Const): Value {
    match c
    case ConstNil => Nil
    case ConstBool(b) => BoolV(b)
    case ConstLong(n) => LongV(n)
    case ConstDouble(d) => DoubleV(d)
    case ConstOther(text) => OtherV(|text|)
  }

  function FindFn(fns: seq<IrFunction>, name: string): (r: Option<nat>)
    ensures r.Some? ==> r.value < |fns| && fns[r.value].name == name
  {
    if fns == [] then None
    else if fns[0].name == name then Some(0)
    else match FindFn(fns[1..], name)
      case None => None
      case Some(k) => Some(k + 1)
  }

  function FirstVariadic(arities: seq<ArityInfo>, argc: nat): (r: Option<ArityInfo>)
    ensures r.Some? ==> r.value.paramCount <= argc
  {
    if arities == [] then None
    else if arities[0].isVariadic && arities[0].paramCount <= argc then Some(arities[0])
    else FirstVariadic(arities[1..], argc)
  }

  /** Dynamic dispatch: an exact fixed arity first, then a variadic one, whose
      extra arguments become a list. Captured values come first. */
  function Dispatch(t: ClosureTemplate, captured: seq<Value>, args: seq<Value>): Option<(string, seq<Value>)> {
    match FindMatching(Infos(t), |args|)
    case Some(a) => Some((a.fnName, captured + args))
    case None =>
      match FirstVariadic(Infos(t), |args|)
      case None => None
      case Some(a) =>
        var n := a.paramCount;
        var rest := if n == |args| then Nil else ListV(args[n..]);
        Some((a.fnName, captured + args[..n] + [rest]))
  }

  function Effect(o: Oracle, fns: seq<IrFunction>, inst: Inst, regs: Regs, w: World, fuel: nat): Eff
    decreases fuel, 2
  {
    match inst
    case Const(_, c) => Gives(ConstValue(c), w)
    case LoadGlobal(_, ns, name) =>
      if (ns, name) in w.globals then Gives(w.globals[(ns, name)], w) else Ends(Threw(Nil, w))
    case AllocClosure(_, t, caps) =>
      if AllDefined(caps, regs) then Gives(ClosureV(t, Read(caps, regs)), w) else Ends(Stuck)
    case CallKnown(_, fn, args) =>
      if AllDefined(args, regs) then FromAnswer(o(AskKnown(fn, Read(args, regs)), w)) else Ends(Stuck)
    case Call(_, callee, args) =>
      if callee in regs && AllDefined(args, regs) then Apply(o, fns, regs[callee], Read(args, regs), w, fuel)
      else Ends(Stuck)
    case CallDirect(_, fnName, args) =>
      if AllDefined(args, regs) then FromRes(CallFn(o, fns, fnName, Read(args, regs), w, fuel)) else Ends(Stuck)
    case DefVar(_, ns, name, val) =>
      if val in regs then Gives(OtherV(0), w.(globals := w.globals[(ns, name) := regs[val]])) else Ends(Stuck)
    case Phi(_, _) => Gives(Nil, w)
    case Other(op, uses, _) =>
      if AllDefined(uses, regs) then FromAnswer(o(AskOther(op, Read(uses, regs)), w)) else Ends(Stuck)
  }

  function Apply(o: Oracle, fns: seq<IrFunction>, callee: Value, args: seq<Value>, w: World, fuel: nat): Eff
    decreases fuel, 1
  {
    if !callee.ClosureV? then FromAnswer(o(AskCall(callee, args), w))
    else match Dispatch(callee.template, callee.captured, args)
      case None => Ends(Threw(Nil, w))
      case Some(target) => FromRes(CallFn(o, fns, target.0, target.1, w, fuel))
  }

  function CallFn(o: Oracle, fns: seq<IrFunction>, name: string, args: seq<Value>, w: World, fuel: nat): Res
    decreases fuel, 0
  {
    match FindFn(fns, name)
    case None => Stuck
    case Some(i) =>
      if fns[i].blocks == [] then Stuck
      else if fuel == 0 then NoFuel
      else Run(o, fns, fns[i], 0, 0, BindParams(fns[i].params, args), w, fuel - 1)
  }

  /** The block an edge enters and the registers there. */
  function Edge(f: IrFunction, b: Block, regs: Regs): (r: Option<(nat, Regs)>)
    ensures r.Some? ==> r.value.0 < |f.blocks|
  {
    match b.term
    case Jump(t) => Enter(f, FindBlock(f.blocks, t), b, regs)
    case Branch(c, t, e) =>
      if c !in regs then None
      else Enter(f, FindBlock(f.blocks, if Truthy(regs[c]) then t else e), b, regs)
    case RecurJump(t, _) => Enter(f, FindBlock(f.blocks, t), b, regs)
    case Return(_) => None
    case Unreachable => None
  }

  function Enter(f: IrFunction, t: Option<nat>, b: Block, regs: Regs): (r: Option<(nat, Regs)>)
    requires t.Some? ==> t.value < |f.blocks|
    ensures r.Some? ==> r.value.0 < |f.blocks|
  {
    if t.None? then None
    else
      var phis := f.blocks[t.value].phis;
      var srcs := Sources(phis, b);
      if forall i :: 0 <= i < |srcs| && srcs[i].Some? ==> srcs[i].value in regs
      then Some((t.value, BindPhis(phis, srcs, |phis|, regs)))
      else None
  }

  function Store(regs: Regs, dst: Option<Var>, v: Value): Regs {
    if dst.None? then regs else regs[dst.value := v]
  }

  /** Run `f` from instruction `pc` of block `b`. */
  function Run(o: Oracle, fns: seq<IrFunction>, f: IrFunction, b: nat, pc: nat, regs: Regs, w: World, fuel: nat): Res
    requires b < |f.blocks|
    decreases fuel, 3
  {
    var blk := f.blocks[b];
    if fuel == 0 then NoFuel
    else if pc < |blk.insts| then
      var inst := blk.insts[pc];
      if inst.Phi? then Run(o, fns, f, b, pc + 1, regs, w, fuel - 1)
      else match Effect(o, fns, inst, regs, w, fuel - 1)
        case Ends(r) => r
        case Gives(v, w') => Run(o, fns, f, b, pc + 1, Store(regs, inst.Dst(), v), w', fuel - 1)
    else if blk.term.Return? then
      if blk.term.result in regs then Returned(regs[blk.term.result], w) else Stuck
    else match Edge(f, blk, regs)
      case None => Stuck
      case Some(e) => Run(o, fns, f, e.0, 0, e.1, w, fuel - 1)
  }

  function Fns(f: IrFunction): seq<IrFunction>
    decreases f, 1
  {
    [f] + FnsOf(f.subfunctions)
  }

  function FnsOf(subs: seq<IrFunction>): seq<IrFunction>
    decreases subs, 0
  {
    if subs == [] then [] else Fns(subs[0]) + FnsOf(subs[1..])
  }
}
