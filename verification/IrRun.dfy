/**
 How compiled code moves values: parameters, registers, and the phis of an edge.
 A jump or branch feeds each phi from its entry for the predecessor, a recur edge
 feeds phis by position, all phis of an edge at once.
 */
module IrRun {
  import opened Common
  import opened Ir

  type Regs = map<Var, Value>

  predicate AllDefined(vars: seq<Var>, regs: Regs) {
    forall i :: 0 <= i < |vars| ==> vars[i] in regs
  }

  function Read(vars: seq<Var>, regs: Regs): seq<Value>
    requires AllDefined(vars, regs)
  {
    seq(|vars|, i requires 0 <= i < |vars| => regs[vars[i]])
  }

  function EntryFor(entries: seq<(BlockId, Var)>, pred: BlockId): Option<Var> {
    if entries == [] then None
    else if entries[0].0 == pred then Some(entries[0].1)
    else EntryFor(entries[1..], pred)
  }

  /** For each phi of a block, the variable an edge feeds it from. */
  function JumpSources(phis: seq<Inst>, pred: BlockId): seq<Option<Var>> {
    seq(|phis|, i requires 0 <= i < |phis| =>
      if phis[i].Phi? then EntryFor(phis[i].entries, pred) else None)
  }

  function RecurSources(phis: seq<Inst>, args: seq<Var>): seq<Option<Var>> {
    seq(|phis|, i requires 0 <= i < |phis| =>
      if phis[i].Phi? && i < |args| then Some(args[i]) else None)
  }

  /** Where the edge leaving `b` feeds the phis of its target from. */
  function Sources(phis: seq<Inst>, b: Block): (srcs: seq<Option<Var>>)
    ensures |srcs| == |phis|
    ensures forall i :: 0 <= i < |srcs| && srcs[i].Some? ==> phis[i].Phi?
  {
    if b.term.RecurJump? then RecurSources(phis, b.term.recurArgs) else JumpSources(phis, b.id)
  }

  /** The phis before index `n` take their new values, all read from `old'`. */
  function BindPhis(phis: seq<Inst>, srcs: seq<Option<Var>>, n: nat, old': Regs): Regs
    requires n <= |phis| == |srcs|
    requires forall i :: 0 <= i < |srcs| && srcs[i].Some? ==> phis[i].Phi? && srcs[i].value in old'
  {
    if n == 0 then old'
    else
      var before := BindPhis(phis, srcs, n - 1, old');
      if srcs[n - 1].None? then before else before[phis[n - 1].dst := old'[srcs[n - 1].value]]
  }

  function Phis(f: IrFunction, t: Option<nat>): seq<Inst>
    requires t.Some? ==> t.value < |f.blocks|
  {
    if t.Some? then f.blocks[t.value].phis else []
  }

  function ArgAt(args: seq<Value>, i: nat): Value {
    if i < |args| then args[i] else Nil
  }

  function BindParams(params: seq<Var>, args: seq<Value>): Regs {
    if params == [] then map[]
    else
      var n := |params| - 1;
      BindParams(params[..n], args)[params[n] := ArgAt(args, n)]
  }
}
