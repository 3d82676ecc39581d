/**
 Soundness of representation inference over whole runs of compiled code.

 The run semantics follows the compiled tiers: a jump or branch binds each phi
 from its entry for the predecessor, a recur edge binds phis by position, all
 phis of an edge at once. A throw ends the run. Reading a register that holds
 nothing is not a step.
 */
module TypeInferSound {
  import opened Common
  import opened Ir
  import opened IrRun
  import opened TypeInfer
  import opened TypeInferTheory

  // ---- What representations mean ----

  predicate HasRepr(v: Value, r: Repr) {
    match r
    case Boxed => true
    case Long => v.LongV?
    case Double => v.DoubleV?
    case Bool => v.BoolV?
    case LongArray => v.LongArrayV?
    case DoubleArray => v.DoubleArrayV?
  }

  // ---- Run-time operations ----

  predicate IsNumber(v: Value) {
    v.LongV? || v.DoubleV?
  }

  function Wrap(x: int): I64 {
    var m := (x - I64_MIN) % 0x1_0000_0000_0000_0000;
    m + I64_MIN
  }

  function IntOp(fn: KnownFn, x: int, y: int): int {
    match fn
    case Add | UncheckedAdd => x + y
    case Sub | UncheckedSub => x - y
    case Mul | UncheckedMul => x * y
    case _ => 0
  }

  function IntCmp(fn: KnownFn, x: int, y: int): bool {
    match fn
    case Lt => x < y
    case Gt => x > y
    case Lte => x <= y
    case Gte => x >= y
    case _ => x == y
  }

  /** The values `(fn a b)` can return; no value at all means that it throws. */
  predicate Returns2(fn: KnownFn, a: Value, b: Value, v: Value) {
    match fn
    case Add | Sub | Mul =>
      if a.LongV? && b.LongV? then v.LongV? && v.n as int == IntOp(fn, a.n, b.n)
      else if IsNumber(a) && IsNumber(b) then v.DoubleV?
      else v == Nil
    case UncheckedAdd | UncheckedSub | UncheckedMul =>
      if a.LongV? && b.LongV? then v == LongV(Wrap(IntOp(fn, a.n, b.n)))
      else if IsNumber(a) && IsNumber(b) then v.DoubleV?
      else v == Nil
    case Div =>
      if a.LongV? && b.LongV? && b.n != 0 then v.LongV?
      else if IsNumber(a) && IsNumber(b) && !(a.LongV? && b.LongV?) then v.DoubleV?
      else v == Nil
    case Lt | Gt | Lte | Gte | Eq =>
      v.BoolV? && (a.LongV? && b.LongV? ==> v.b == IntCmp(fn, a.n, b.n))
    case CaseEq => v.BoolV?
    case Aget =>
      b.LongV? && (a.LongArrayV? ==> v.LongV?) && (a.DoubleArrayV? ==> v.DoubleV?)
    case _ => true
  }

  predicate Returns(fn: KnownFn, vs: seq<Value>, v: Value) {
    if fn == Alength then v.LongV? && v.n >= 0
    else if |vs| == 2 then Returns2(fn, vs[0], vs[1], v)
    else true
  }

  predicate ConstGives(c: Const, v: Value) {
    match c
    case ConstNil => v == Nil
    case ConstBool(b) => v == BoolV(b)
    case ConstLong(n) => v == LongV(n)
    case ConstDouble(d) => v == DoubleV(d)
    case ConstOther(_) => true
  }

  // ---- Runs ----

  datatype State = State(block: nat, pc: nat, regs: Regs)

  /** Results of an instruction that defines a variable. Calls, allocations,
      loads and the rest may give any value. */
  predicate Gives(inst: Inst, regs: Regs, v: Value) {
    match inst
    case Const(_, c) => ConstGives(c, v)
    case CallKnown(_, fn, args) => AllDefined(args, regs) && Returns(fn, Read(args, regs), v)
    case _ => true
  }

  ghost predicate Exec(inst: Inst, regs: Regs, regs': Regs) {
    if inst.Phi? || inst.Dst().None? then regs' == regs
    else exists v :: Gives(inst, regs, v) && regs' == regs[inst.Dst().value := v]
  }

  predicate Enters(f: IrFunction, t: Option<nat>, srcs: seq<Option<Var>>, regs: Regs, s': State)
    requires t.Some? ==> t.value < |f.blocks| && |srcs| == |f.blocks[t.value].phis|
  {
    t.Some? && s'.block == t.value && s'.pc == 0 &&
    var phis := f.blocks[t.value].phis;
    (forall i :: 0 <= i < |srcs| && srcs[i].Some? ==> phis[i].Phi? && srcs[i].value in regs) &&
    s'.regs == BindPhis(phis, srcs, |phis|, regs)
  }

  predicate Jumps(f: IrFunction, from: Block, to: BlockId, regs: Regs, s': State) {
    var t := FindBlock(f.blocks, to);
    Enters(f, t, JumpSources(Phis(f, t), from.id), regs, s')
  }

  predicate Leaves(f: IrFunction, b: Block, regs: Regs, s': State) {
    match b.term
    case Jump(t) => Jumps(f, b, t, regs, s')
    case Branch(c, t, e) => c in regs && Jumps(f, b, if Truthy(regs[c]) then t else e, regs, s')
    case RecurJump(to, args) =>
      var t := FindBlock(f.blocks, to);
      Enters(f, t, RecurSources(Phis(f, t), args), regs, s')
    case Return(_) => false
    case Unreachable => false
  }

  ghost predicate Step(f: IrFunction, s: State, s': State) {
    s.block < |f.blocks| &&
    var b := f.blocks[s.block];
    if s.pc < |b.insts| then
      s'.block == s.block && s'.pc == s.pc + 1 && Exec(b.insts[s.pc], s.regs, s'.regs)
    else Leaves(f, b, s.regs, s')
  }

  /** A run of `f` on `args`: any number of steps from the entry block. */
  ghost predicate IsRun(f: IrFunction, args: seq<Value>, run: seq<State>) {
    |run| > 0 && run[0] == State(0, 0, BindParams(f.params, args)) &&
    forall i :: 0 <= i < |run| - 1 ==> Step(f, run[i], run[i + 1])
  }

  /** The guard the compiled prologue checks. */
  predicate MatchesSpecs(f: IrFunction, specs: seq<Repr>, args: seq<Value>) {
    forall i :: 0 <= i < |f.params| ==> HasRepr(ArgAt(args, i), SpecAt(specs, i))
  }

  // ---- Soundness ----

  /** Every register that holds a value is above bottom and well represented. */
  ghost predicate RegsOk(regs: Regs, m: LatMap) {
    forall x :: x in regs ==> x in m && HasRepr(regs[x], m[x])
  }

  lemma HasReprUp(v: Value, r: Repr, r': Repr)
    requires HasRepr(v, r) && Leq(Some(r), Some(r'))
    ensures HasRepr(v, r')
  {
  }

  lemma KnownSound(fn: KnownFn, a: Value, b: Value, ra: Repr, rb: Repr, v: Value)
    requires HasRepr(a, ra) && HasRepr(b, rb) && Returns2(fn, a, b, v)
    ensures KnownResult(fn, Some(ra), Some(rb)).Some?
    ensures HasRepr(v, KnownResult(fn, Some(ra), Some(rb)).value)
  {
  }

  lemma TransferSound(inst: Inst, regs: Regs, m: LatMap, v: Value)
    requires RegsOk(regs, m) && !inst.Phi? && Gives(inst, regs, v)
    ensures Transfer(inst, m).Some? && HasRepr(v, Transfer(inst, m).value)
  {
    if inst.CallKnown? && |inst.args| == 2 {
      var a, b := inst.args[0], inst.args[1];
      assert a in regs && b in regs;
      if inst.fn != Alength {
        KnownSound(inst.fn, regs[a], regs[b], m[a], m[b], v);
      }
    }
  }

  lemma InstSound(f: IrFunction, m: LatMap, i: nat, k: nat, regs: Regs, regs': Regs)
    requires Closed(Rules(f), m) && RegsOk(regs, m)
    requires i < |f.blocks| && k < |f.blocks[i].insts|
    requires Exec(f.blocks[i].insts[k], regs, regs')
    ensures RegsOk(regs', m)
  {
    var b := f.blocks[i];
    var inst := b.insts[k];
    if !inst.Phi? && inst.Dst().Some? {
      var d := inst.Dst().value;
      var v :| Gives(inst, regs, v) && regs' == regs[d := v];
      TransferSound(inst, regs, m, v);
      var r := FromInst(d, inst);
      InstRuleIn(b.phis + b.insts, r);
      BlockRuleIn(f, |f.blocks|, i, r);
      assert Leq(Out(r, m), Get(m, d));
      HasReprUp(v, Transfer(inst, m).value, m[d]);
    }
  }

  lemma {:induction false} EntryBelowPhi(entries: seq<(BlockId, Var)>, m: LatMap, k: nat)
    requires k < |entries|
    ensures Leq(Get(m, entries[k].1), PhiMeet(entries, m))
  {
    var n := |entries| - 1;
    if k < n {
      EntryBelowPhi(entries[..n], m, k);
      LeqTrans(Get(m, entries[k].1), PhiMeet(entries[..n], m), PhiMeet(entries, m));
    }
  }

  lemma {:induction false} EntryForIn(entries: seq<(BlockId, Var)>, pred: BlockId) returns (k: nat)
    requires EntryFor(entries, pred).Some?
    ensures k < |entries| && entries[k].1 == EntryFor(entries, pred).value
  {
    if entries[0].0 == pred {
      k := 0;
    } else {
      k := EntryForIn(entries[1..], pred);
      k := k + 1;
    }
  }

  /** The variable a source feeds is at least as high as the source. */
  ghost predicate SourcesBelow(phis: seq<Inst>, srcs: seq<Option<Var>>, m: LatMap) {
    |phis| == |srcs| &&
    forall i :: 0 <= i < |srcs| && srcs[i].Some? ==>
      phis[i].Phi? && Leq(Get(m, srcs[i].value), Get(m, phis[i].dst))
  }

  lemma JumpSourcesBelow(f: IrFunction, m: LatMap, t: nat, pred: BlockId)
    requires Closed(Rules(f), m) && t < |f.blocks|
    ensures SourcesBelow(f.blocks[t].phis, JumpSources(f.blocks[t].phis, pred), m)
  {
    var b := f.blocks[t];
    var srcs := JumpSources(b.phis, pred);
    forall i | 0 <= i < |srcs| && srcs[i].Some?
      ensures b.phis[i].Phi? && Leq(Get(m, srcs[i].value), Get(m, b.phis[i].dst))
    {
      var phi := b.phis[i];
      var k := EntryForIn(phi.entries, pred);
      EntryBelowPhi(phi.entries, m, k);
      var r := FromInst(phi.dst, phi);
      assert (b.phis + b.insts)[i] == phi;
      InstRuleIn(b.phis + b.insts, r);
      BlockRuleIn(f, |f.blocks|, t, r);
      assert Leq(Out(r, m), Get(m, phi.dst));
      LeqTrans(Get(m, srcs[i].value), Out(r, m), Get(m, phi.dst));
    }
  }

  lemma {:induction false} CopyRuleIn(phis: seq<Inst>, args: seq<Var>, n: nat, i: nat)
    requires i < n <= |phis| && n <= |args| && phis[i].Phi?
    ensures CopyArg(phis[i].dst, args[i]) in CopyRules(phis, args, n)
  {
    if i < n - 1 {
      CopyRuleIn(phis, args, n - 1, i);
    }
  }

  lemma RecurSourcesBelow(f: IrFunction, m: LatMap, i: nat, t: nat)
    requires Closed(Rules(f), m) && i < |f.blocks| && f.blocks[i].term.RecurJump?
    requires FindBlock(f.blocks, f.blocks[i].term.target) == Some(t)
    ensures SourcesBelow(f.blocks[t].phis, RecurSources(f.blocks[t].phis, f.blocks[i].term.recurArgs), m)
  {
    var phis, args := f.blocks[t].phis, f.blocks[i].term.recurArgs;
    forall k | 0 <= k < |phis| && phis[k].Phi? && k < |args|
      ensures Leq(Get(m, args[k]), Get(m, phis[k].dst))
    {
      CopyRuleIn(phis, args, Min(|phis|, |args|), k);
      BlockRuleIn(f, |f.blocks|, i, CopyArg(phis[k].dst, args[k]));
    }
  }

  lemma {:induction false} BindPhisSound(phis: seq<Inst>, srcs: seq<Option<Var>>, n: nat, regs: Regs, m: LatMap)
    requires RegsOk(regs, m) && SourcesBelow(phis, srcs, m) && n <= |phis|
    requires forall i :: 0 <= i < |srcs| && srcs[i].Some? ==> phis[i].Phi? && srcs[i].value in regs
    ensures RegsOk(BindPhis(phis, srcs, n, regs), m)
  {
    if n > 0 {
      BindPhisSound(phis, srcs, n - 1, regs, m);
      if srcs[n - 1].Some? {
        var a, d := srcs[n - 1].value, phis[n - 1].dst;
        assert a in m && Leq(Get(m, a), Get(m, d));
        HasReprUp(regs[a], m[a], m[d]);
      }
    }
  }

  lemma EdgeBelow(f: IrFunction, m: LatMap, i: nat, regs: Regs, s': State)
    requires Closed(Rules(f), m) && i < |f.blocks| && Leaves(f, f.blocks[i], regs, s')
    ensures s'.block < |f.blocks|
    ensures
      var srcs, phis := Sources(f.blocks[s'.block].phis, f.blocks[i]), f.blocks[s'.block].phis;
      SourcesBelow(phis, srcs, m) &&
      (forall k :: 0 <= k < |srcs| && srcs[k].Some? ==> srcs[k].value in regs) &&
      s'.regs == BindPhis(phis, srcs, |phis|, regs)
  {
    if f.blocks[i].term.RecurJump? {
      RecurSourcesBelow(f, m, i, s'.block);
    } else {
      JumpSourcesBelow(f, m, s'.block, f.blocks[i].id);
    }
  }

  lemma StepSound(f: IrFunction, m: LatMap, s: State, s': State)
    requires Closed(Rules(f), m) && RegsOk(s.regs, m) && Step(f, s, s')
    ensures RegsOk(s'.regs, m)
  {
    var b := f.blocks[s.block];
    if s.pc < |b.insts| {
      InstSound(f, m, s.block, s.pc, s.regs, s'.regs);
    } else {
      EdgeBelow(f, m, s.block, s.regs, s');
      var phis := f.blocks[s'.block].phis;
      BindPhisSound(phis, Sources(f.blocks[s'.block].phis, b), |phis|, s.regs, m);
    }
  }

  lemma {:induction false} ParamsOk(params: seq<Var>, specs: seq<Repr>, args: seq<Value>)
    requires forall i :: 0 <= i < |params| ==> HasRepr(ArgAt(args, i), SpecAt(specs, i))
    ensures RegsOk(BindParams(params, args), ParamSeeds(params, specs))
  {
    if params != [] {
      ParamsOk(params[..|params| - 1], specs, args);
    }
  }

  lemma RegsOkUp(regs: Regs, m: LatMap, m': LatMap)
    requires RegsOk(regs, m) && LeqMap(m, m')
    ensures RegsOk(regs, m')
  {
    forall x | x in regs ensures x in m' && HasRepr(regs[x], m'[x]) {
      GetMono(m, m', x);
      HasReprUp(regs[x], m[x], m'[x]);
    }
  }

  lemma {:induction false} RunOk(f: IrFunction, specs: seq<Repr>, args: seq<Value>, run: seq<State>, i: nat)
    requires IsRun(f, args, run) && MatchesSpecs(f, specs, args) && i < |run|
    ensures RegsOk(run[i].regs, Solution(f, specs))
  {
    SolutionIsLeastModel(f, specs);
    if i == 0 {
      ParamsOk(f.params, specs, args);
      AddHintsAbove(ParamSeeds(f.params, specs), f.localSeeds);
      LeqMapTrans(ParamSeeds(f.params, specs), Seeds(f, specs), Solution(f, specs));
      RegsOkUp(run[0].regs, ParamSeeds(f.params, specs), Solution(f, specs));
    } else {
      RunOk(f, specs, args, run, i - 1);
      assert Step(f, run[i - 1], run[i]);
      StepSound(f, Solution(f, specs), run[i - 1], run[i]);
    }
  }

  /** Soundness: at every point of every run whose arguments pass the guards,
      every register that holds a value is above bottom, and if inference made
      it unboxed then the value has exactly that representation. */
  lemma InferenceSound(f: IrFunction, specs: seq<Repr>, args: seq<Value>, run: seq<State>)
    requires IsRun(f, args, run) && MatchesSpecs(f, specs, args)
    ensures forall i, x :: 0 <= i < |run| && x in run[i].regs ==> x in Solution(f, specs)
    ensures forall i, x :: 0 <= i < |run| && x in run[i].regs && x in Unboxed(Solution(f, specs)) ==>
      HasRepr(run[i].regs[x], Unboxed(Solution(f, specs))[x])
  {
    forall i | 0 <= i < |run| ensures RegsOk(run[i].regs, Solution(f, specs)) {
      RunOk(f, specs, args, run, i);
    }
  }
}
