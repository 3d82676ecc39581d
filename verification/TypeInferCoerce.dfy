/**
 Coercion on the edges into phis. Code generation fails when an edge would feed an
 unboxed phi from a variable of another representation. That never happens on an
 edge a run takes; over the text it happens exactly when the variable is not
 grounded, a property of the instructions alone that reachable, dominated code has.
 */
module TypeInferCoerce {
  import opened Common
  import opened Ir
  import opened IrRun
  import opened TypeInfer
  import opened TypeInferTheory
  import opened TypeInferSound

  function ReprOf(reprs: map<Var, Repr>, v: Var): Repr {
    if v in reprs then reprs[v] else Boxed
  }

  /** What code generation accepts on an edge into a phi: the same
      representation, or boxing on the edge. Anything else is an error. */
  predicate Coercible(reprs: map<Var, Repr>, src: Var, phi: Var) {
    ReprOf(reprs, src) == ReprOf(reprs, phi) || ReprOf(reprs, phi) == Boxed
  }

  /** No edge taken in a run feeds an unboxed phi from a boxed variable. */
  lemma RunEdgesCoercible(f: IrFunction, specs: seq<Repr>, args: seq<Value>, run: seq<State>, i: nat)
    requires IsRun(f, args, run) && MatchesSpecs(f, specs, args) && i + 1 < |run|
    requires run[i].block < |f.blocks| && run[i].pc >= |f.blocks[run[i].block].insts|
    ensures run[i + 1].block < |f.blocks|
    ensures
      var srcs := Sources(f.blocks[run[i + 1].block].phis, f.blocks[run[i].block]);
      var phis := f.blocks[run[i + 1].block].phis;
      forall k :: 0 <= k < |srcs| && srcs[k].Some? ==>
        phis[k].Phi? && Coercible(Unboxed(Solution(f, specs)), srcs[k].value, phis[k].dst)
  {
    var m := Solution(f, specs);
    SolutionIsLeastModel(f, specs);
    RunOk(f, specs, args, run, i);
    assert Step(f, run[i], run[i + 1]);
    EdgeBelow(f, m, run[i].block, run[i].regs, run[i + 1]);
    var srcs := Sources(f.blocks[run[i + 1].block].phis, f.blocks[run[i].block]);
    var phis := f.blocks[run[i + 1].block].phis;
    forall k | 0 <= k < |srcs| && srcs[k].Some?
      ensures phis[k].Phi? && Coercible(Unboxed(m), srcs[k].value, phis[k].dst)
    {
      assert srcs[k].value in m;
    }
  }

  // ---- Grounded variables ----

  /** Whether an instruction's result is known once the variables in `s` are. */
  predicate Grounds(inst: Inst, s: set<Var>) {
    match inst
    case Phi(_, entries) => exists k :: 0 <= k < |entries| && entries[k].1 in s
    case CallKnown(_, fn, args) =>
      |args| != 2 || fn == CaseEq || fn == Alength || fn.OtherFn? || (args[0] in s && args[1] in s)
    case _ => true
  }

  predicate RuleGrounds(r: Rule, s: set<Var>) {
    match r
    case FromInst(_, inst) => Grounds(inst, s)
    case CopyArg(_, src) => src in s
  }

  ghost function Roots(f: IrFunction): set<Var> {
    (set v | v in f.params) + (set h | h in f.localSeeds :: h.0)
  }

  ghost predicate ClosedSet(f: IrFunction, s: set<Var>) {
    Roots(f) <= s && forall r :: r in Rules(f) && RuleGrounds(r, s) ==> r.dst in s
  }

  ghost predicate InEveryClosed(f: IrFunction, v: Var) {
    forall s: set<Var> :: ClosedSet(f, s) ==> v in s
  }

  ghost function TextVars(f: IrFunction): set<Var> {
    Roots(f) + (set r | r in Rules(f) :: r.dst)
  }

  /** The least set that holds the parameters and hinted locals and, with the
      operands of an instruction or a recur argument, what they define. */
  ghost function Ground(f: IrFunction): set<Var> {
    set v | v in TextVars(f) && InEveryClosed(f, v)
  }

  lemma {:induction false} PhiGrounds(entries: seq<(BlockId, Var)>, m: LatMap)
    ensures PhiMeet(entries, m).Some? <==> exists k :: 0 <= k < |entries| && entries[k].1 in m.Keys
  {
    if entries != [] {
      var n := |entries| - 1;
      PhiGrounds(entries[..n], m);
      if entries[n].1 !in m && PhiMeet(entries, m).Some? {
        var k :| 0 <= k < |entries[..n]| && entries[..n][k].1 in m.Keys;
        assert entries[k].1 in m.Keys;
      }
      if k :| 0 <= k < |entries| && entries[k].1 in m.Keys {
        assert k < n ==> entries[..n][k].1 in m.Keys;
      }
    }
  }

  /** Whether a rule gives anything depends on which variables have a value, not on the values. */
  lemma OutGrounds(r: Rule, m: LatMap)
    ensures Out(r, m).Some? <==> RuleGrounds(r, m.Keys)
  {
    if r.FromInst? && r.inst.Phi? {
      PhiGrounds(r.inst.entries, m);
    }
  }

  lemma {:induction false} ParamSeedKeys(params: seq<Var>, specs: seq<Repr>)
    ensures ParamSeeds(params, specs).Keys == set v | v in params
  {
    if params != [] {
      var n := |params| - 1;
      ParamSeedKeys(params[..n], specs);
      assert params == params[..n] + [params[n]];
    }
  }

  lemma RaiseKeys(m: LatMap, v: Var, r: Repr)
    ensures Raise(m, v, Some(r)).Keys == m.Keys + {v}
  {
    assert Leq(Some(r), Get(Raise(m, v, Some(r)), v));
  }

  lemma {:induction false} HintKeys(m: LatMap, hints: seq<(Var, Repr)>)
    ensures AddHints(m, hints).Keys == m.Keys + set h | h in hints :: h.0
  {
    if hints != [] {
      var n := |hints| - 1;
      HintKeys(m, hints[..n]);
      assert hints == hints[..n] + [hints[n]];
      RaiseKeys(AddHints(m, hints[..n]), hints[n].0, hints[n].1);
    }
  }

  lemma SeedKeys(f: IrFunction, specs: seq<Repr>)
    ensures Seeds(f, specs).Keys == Roots(f)
  {
    ParamSeedKeys(f.params, specs);
    HintKeys(ParamSeeds(f.params, specs), f.localSeeds);
  }

  lemma ClosedBounds(f: IrFunction, specs: seq<Repr>, s: set<Var>)
    requires ClosedSet(f, s)
    ensures Solution(f, specs).Keys <= s
  {
    SolutionIsLeastModel(f, specs);
    var top: LatMap := map v | v in s :: Boxed;
    assert top.Keys == s;
    SeedKeys(f, specs);
    forall r | r in Rules(f) ensures Leq(Out(r, top), Get(top, r.dst)) {
      OutGrounds(r, top);
    }
    assert Models(f, specs, top);
    var sol := Solution(f, specs);
    assert LeqMap(sol, top);
    forall v | v in sol ensures v in s {
      assert Leq(Get(sol, v), Get(top, v));
    }
  }

  lemma KeysClosed(f: IrFunction, specs: seq<Repr>)
    ensures ClosedSet(f, Solution(f, specs).Keys)
  {
    SolutionIsLeastModel(f, specs);
    SeedKeys(f, specs);
    var sol := Solution(f, specs);
    forall v | v in Roots(f) ensures v in sol.Keys {
      assert Leq(Get(Seeds(f, specs), v), Get(sol, v));
    }
    forall r | r in Rules(f) && RuleGrounds(r, sol.Keys) ensures r.dst in sol.Keys {
      OutGrounds(r, sol);
      assert Leq(Out(r, sol), Get(sol, r.dst));
    }
  }

  /** Which variables inference leaves at bottom does not depend on the parameter
      representations: it determines exactly the grounded ones. */
  lemma SolutionGrounds(f: IrFunction, specs: seq<Repr>)
    ensures Solution(f, specs).Keys == Ground(f)
  {
    var keys := Solution(f, specs).Keys;
    KeysClosed(f, specs);
    assert ClosedSet(f, TextVars(f));
    ClosedBounds(f, specs, TextVars(f));
    forall v | v in keys ensures v in Ground(f) {
      forall s: set<Var> | ClosedSet(f, s) ensures v in s {
        ClosedBounds(f, specs, s);
      }
    }
  }

  lemma NotGround(f: IrFunction, v: Var, s: set<Var>)
    requires ClosedSet(f, s) && v !in s
    ensures v !in Ground(f)
  {
  }

  // ---- The edges of the text ----

  /** An entry of phi `i` of block `t`, or a recur argument that reaches it by position. */
  ghost predicate Feeds(f: IrFunction, v: Var, t: nat, i: nat) {
    && t < |f.blocks| && i < |f.blocks[t].phis| && f.blocks[t].phis[i].Phi?
    && (EntryFeeds(f.blocks[t].phis[i].entries, v) || exists b :: 0 <= b < |f.blocks| && RecurFeeds(f, b, v, t, i))
  }

  predicate EntryFeeds(entries: seq<(BlockId, Var)>, v: Var) {
    exists k :: 0 <= k < |entries| && entries[k].1 == v
  }

  predicate RecurFeeds(f: IrFunction, b: nat, v: Var, t: nat, i: nat)
    requires b < |f.blocks|
  {
    var term := f.blocks[b].term;
    term.RecurJump? && FindBlock(f.blocks, term.target) == Some(t) && i < |term.recurArgs| && term.recurArgs[i] == v
  }

  lemma FeedBelow(f: IrFunction, m: LatMap, v: Var, t: nat, i: nat)
    requires Closed(Rules(f), m) && Feeds(f, v, t, i)
    ensures Leq(Get(m, v), Get(m, f.blocks[t].phis[i].dst))
  {
    var blk := f.blocks[t];
    var phi := blk.phis[i];
    if EntryFeeds(phi.entries, v) {
      var k :| 0 <= k < |phi.entries| && phi.entries[k].1 == v;
      EntryBelowPhi(phi.entries, m, k);
      var r := FromInst(phi.dst, phi);
      assert (blk.phis + blk.insts)[i] == phi;
      InstRuleIn(blk.phis + blk.insts, r);
      BlockRuleIn(f, |f.blocks|, t, r);
      assert Leq(Out(r, m), Get(m, phi.dst));
      LeqTrans(Get(m, v), Out(r, m), Get(m, phi.dst));
    } else {
      var b :| 0 <= b < |f.blocks| && RecurFeeds(f, b, v, t, i);
      RecurSourcesBelow(f, m, b, t);
      assert RecurSources(blk.phis, f.blocks[b].term.recurArgs)[i] == Some(v);
    }
  }

  /** Over all edges of the text, taken or not: a boxed phi takes anything, an unboxed one
      exactly the grounded variables. */
  lemma EdgeCoercible(f: IrFunction, specs: seq<Repr>, v: Var, t: nat, i: nat)
    requires Feeds(f, v, t, i)
    ensures
      var reprs := Unboxed(Solution(f, specs));
      var phi := f.blocks[t].phis[i].dst;
      && (phi !in reprs ==> Coercible(reprs, v, phi))
      && (phi in reprs ==> (Coercible(reprs, v, phi) <==> v in Ground(f)))
  {
    SolutionIsLeastModel(f, specs);
    SolutionGrounds(f, specs);
    FeedBelow(f, Solution(f, specs), v, t, i);
  }

  // ---- Reachable, dominated code ----

  predicate EdgeTo(f: IrFunction, b: Block, t: nat) {
    match b.term
    case Jump(x) => FindBlock(f.blocks, x) == Some(t)
    case Branch(_, x, y) => FindBlock(f.blocks, x) == Some(t) || FindBlock(f.blocks, y) == Some(t)
    case RecurJump(x, _) => FindBlock(f.blocks, x) == Some(t)
    case _ => false
  }

  /** A path through the text from the entry block. */
  predicate IsPath(f: IrFunction, path: seq<nat>) {
    if |path| <= 1 then path == [0] && |f.blocks| > 0
    else
      var n := |path| - 1;
      && IsPath(f, path[..n])
      && path[n - 1] < |f.blocks| && path[n] < |f.blocks| && EdgeTo(f, f.blocks[path[n - 1]], path[n])
  }

  function Uses(inst: Inst): set<Var> {
    match inst
    case AllocClosure(_, _, captures) => set v | v in captures
    case CallKnown(_, _, args) => set v | v in args
    case Call(_, callee, args) => {callee} + set v | v in args
    case CallDirect(_, _, args) => set v | v in args
    case DefVar(_, _, _, val) => {val}
    case Other(_, uses, _) => set v | v in uses
    case _ => {}
  }

  function Defs(insts: seq<Inst>): set<Var> {
    if insts == [] then {}
    else
      var n := |insts| - 1;
      Defs(insts[..n]) + if insts[n].Phi? || insts[n].Dst().None? then {} else {insts[n].Dst().value}
  }

  /** The phis before index `n` that an edge feeds. */
  function Fed(phis: seq<Inst>, srcs: seq<Option<Var>>, n: nat): set<Var>
    requires n <= |phis| == |srcs| && forall i :: 0 <= i < |srcs| && srcs[i].Some? ==> phis[i].Phi?
  {
    if n == 0 then {}
    else Fed(phis, srcs, n - 1) + if srcs[n - 1].Some? then {phis[n - 1].dst} else {}
  }

  /** What is defined along a path on entering its last block. */
  function Entered(f: IrFunction, path: seq<nat>): set<Var>
    requires IsPath(f, path)
    decreases |path|, 0
  {
    if |path| == 1 then set v | v in f.params
    else
      var n := |path| - 1;
      var phis := f.blocks[path[n]].phis;
      Left(f, path[..n]) + Fed(phis, Sources(phis, f.blocks[path[n - 1]]), |phis|)
  }

  /** And on leaving it. */
  function Left(f: IrFunction, path: seq<nat>): set<Var>
    requires IsPath(f, path)
    decreases |path|, 1
  {
    PathEnd(f, path);
    Entered(f, path) + Defs(f.blocks[path[|path| - 1]].insts)
  }

  lemma PathEnd(f: IrFunction, path: seq<nat>)
    requires IsPath(f, path)
    ensures |path| > 0 && path[|path| - 1] < |f.blocks|
  {
  }

  /** Along every path, what an instruction or an edge reads has been defined. */
  ghost predicate Dominated(f: IrFunction) {
    forall path {:trigger PathDominated(f, path)} :: IsPath(f, path) ==> PathDominated(f, path)
  }

  ghost predicate PathDominated(f: IrFunction, path: seq<nat>)
    requires IsPath(f, path)
  {
    PathEnd(f, path);
    var blk := f.blocks[path[|path| - 1]];
    && (forall pc :: 0 <= pc < |blk.insts| ==> Uses(blk.insts[pc]) <= Entered(f, path) + Defs(blk.insts[..pc]))
    && (forall t :: 0 <= t < |f.blocks| && EdgeTo(f, blk, t) ==> EdgeDominated(f, path, t))
  }

  ghost predicate EdgeDominated(f: IrFunction, path: seq<nat>, t: nat)
    requires IsPath(f, path) && t < |f.blocks|
  {
    PathEnd(f, path);
    var srcs := Sources(f.blocks[t].phis, f.blocks[path[|path| - 1]]);
    forall k :: 0 <= k < |srcs| && srcs[k].Some? ==> srcs[k].value in Left(f, path)
  }

  lemma GroundClosed(f: IrFunction)
    ensures ClosedSet(f, Ground(f))
  {
    SolutionGrounds(f, []);
    KeysClosed(f, []);
  }

  lemma {:induction false} DefsGrounded(f: IrFunction, b: nat, before: set<Var>, n: nat)
    requires b < |f.blocks| && n <= |f.blocks[b].insts| && before <= Ground(f)
    requires forall pc :: 0 <= pc < |f.blocks[b].insts| ==>
      Uses(f.blocks[b].insts[pc]) <= before + Defs(f.blocks[b].insts[..pc])
    ensures Defs(f.blocks[b].insts[..n]) <= Ground(f)
  {
    if n > 0 {
      DefsGrounded(f, b, before, n - 1);
      var blk := f.blocks[b];
      var inst := blk.insts[n - 1];
      assert blk.insts[..n][..n - 1] == blk.insts[..n - 1];
      if !inst.Phi? && inst.Dst().Some? {
        InstGrounded(f, b, n - 1);
      }
    }
  }

  lemma InstGrounded(f: IrFunction, b: nat, pc: nat)
    requires b < |f.blocks| && pc < |f.blocks[b].insts|
    requires var inst := f.blocks[b].insts[pc]; !inst.Phi? && inst.Dst().Some? && Uses(inst) <= Ground(f)
    ensures f.blocks[b].insts[pc].Dst().value in Ground(f)
  {
    var blk := f.blocks[b];
    var inst := blk.insts[pc];
    var r := FromInst(inst.Dst().value, inst);
    assert (blk.phis + blk.insts)[|blk.phis| + pc] == inst;
    InstRuleIn(blk.phis + blk.insts, r);
    BlockRuleIn(f, |f.blocks|, b, r);
    GroundClosed(f);
    assert RuleGrounds(r, Ground(f));
  }

  lemma SourceFeeds(f: IrFunction, b: nat, t: nat, k: nat)
    requires b < |f.blocks| && t < |f.blocks| && EdgeTo(f, f.blocks[b], t) && k < |f.blocks[t].phis|
    requires Sources(f.blocks[t].phis, f.blocks[b])[k].Some?
    ensures Feeds(f, Sources(f.blocks[t].phis, f.blocks[b])[k].value, t, k)
  {
    var phi := f.blocks[t].phis[k];
    var v := Sources(f.blocks[t].phis, f.blocks[b])[k].value;
    if f.blocks[b].term.RecurJump? {
      assert RecurFeeds(f, b, v, t, k);
    } else {
      var j := EntryForIn(phi.entries, f.blocks[b].id);
      assert EntryFeeds(phi.entries, v);
    }
  }

  lemma FeedGrounds(f: IrFunction, v: Var, t: nat, i: nat)
    requires Feeds(f, v, t, i) && v in Ground(f)
    ensures f.blocks[t].phis[i].dst in Ground(f)
  {
    SolutionIsLeastModel(f, []);
    SolutionGrounds(f, []);
    FeedBelow(f, Solution(f, []), v, t, i);
  }

  lemma {:induction false} FedGrounded(f: IrFunction, b: nat, t: nat, n: nat)
    requires b < |f.blocks| && t < |f.blocks| && EdgeTo(f, f.blocks[b], t) && n <= |f.blocks[t].phis|
    requires var srcs := Sources(f.blocks[t].phis, f.blocks[b]);
      forall k :: 0 <= k < |srcs| && srcs[k].Some? ==> srcs[k].value in Ground(f)
    ensures Fed(f.blocks[t].phis, Sources(f.blocks[t].phis, f.blocks[b]), n) <= Ground(f)
  {
    if n > 0 {
      FedGrounded(f, b, t, n - 1);
      var srcs := Sources(f.blocks[t].phis, f.blocks[b]);
      if srcs[n - 1].Some? {
        SourceFeeds(f, b, t, n - 1);
        FeedGrounds(f, srcs[n - 1].value, t, n - 1);
      }
    }
  }

  lemma EnteredGrounded(f: IrFunction, path: seq<nat>)
    requires Dominated(f) && IsPath(f, path) && |path| > 1 && Left(f, path[..|path| - 1]) <= Ground(f)
    ensures Entered(f, path) <= Ground(f)
  {
    var n := |path| - 1;
    assert PathDominated(f, path[..n]);
    assert EdgeDominated(f, path[..n], path[n]);
    FedGrounded(f, path[n - 1], path[n], |f.blocks[path[n]].phis|);
  }

  lemma LeftGrounded(f: IrFunction, path: seq<nat>)
    requires Dominated(f) && IsPath(f, path) && Entered(f, path) <= Ground(f)
    ensures Left(f, path) <= Ground(f)
  {
    PathEnd(f, path);
    var b := path[|path| - 1];
    assert PathDominated(f, path);
    DefsGrounded(f, b, Entered(f, path), |f.blocks[b].insts|);
    assert f.blocks[b].insts[..|f.blocks[b].insts|] == f.blocks[b].insts;
  }

  /** In dominated code, everything defined along a path from the entry is grounded. */
  lemma {:induction false} PathGrounded(f: IrFunction, path: seq<nat>)
    requires Dominated(f) && IsPath(f, path)
    ensures Entered(f, path) <= Ground(f) && Left(f, path) <= Ground(f)
    decreases |path|
  {
    if |path| == 1 {
      GroundClosed(f);
    } else {
      PathGrounded(f, path[..|path| - 1]);
      EnteredGrounded(f, path);
    }
    LeftGrounded(f, path);
  }

  ghost predicate Reachable(f: IrFunction, b: nat) {
    exists path :: IsPath(f, path) && path[|path| - 1] == b
  }

  /** So where uses are dominated by definitions, no edge out of a reachable block fails to coerce,
      and nothing it reads is at bottom. */
  lemma ReachableEdgesCoercible(f: IrFunction, specs: seq<Repr>, b: nat, t: nat, k: nat)
    requires Dominated(f) && Reachable(f, b) && b < |f.blocks| && t < |f.blocks| && EdgeTo(f, f.blocks[b], t)
    requires k < |f.blocks[t].phis| && Sources(f.blocks[t].phis, f.blocks[b])[k].Some?
    ensures var v := Sources(f.blocks[t].phis, f.blocks[b])[k].value;
      v in Solution(f, specs) && Coercible(Unboxed(Solution(f, specs)), v, f.blocks[t].phis[k].dst)
  {
    var path :| IsPath(f, path) && path[|path| - 1] == b;
    var v := Sources(f.blocks[t].phis, f.blocks[b])[k].value;
    PathGrounded(f, path);
    assert PathDominated(f, path);
    assert EdgeDominated(f, path, t);
    SolutionGrounds(f, specs);
    SourceFeeds(f, b, t, k);
    EdgeCoercible(f, specs, v, t, k);
  }

  // ---- A function on which it fails ----

  /** `v2` circulates in a block no run reaches, is not grounded, and feeds the Long phi
      `v1` of the join. */
  const DEAD_LOOP: IrFunction := IrFunction("f", [], [
      Block(0, [], [Const(0, ConstLong(7))], Jump(2)),
      Block(1, [Phi(2, [(1, 2)])], [], Branch(0, 1, 2)),
      Block(2, [Phi(1, [(0, 0), (1, 2)])], [], Return(1))
    ], [], [])

  lemma DeadLoopRules()
    ensures Rules(DEAD_LOOP) ==
      [FromInst(0, Const(0, ConstLong(7))), FromInst(2, Phi(2, [(1, 2)])), FromInst(1, Phi(1, [(0, 0), (1, 2)]))]
  {
    var f := DEAD_LOOP;
    var b0, b1, b2 := f.blocks[0], f.blocks[1], f.blocks[2];
    assert b0.phis + b0.insts == [Const(0, ConstLong(7))];
    assert b1.phis + b1.insts == [Phi(2, [(1, 2)])];
    assert b2.phis + b2.insts == [Phi(1, [(0, 0), (1, 2)])];
    assert RulesUpTo(f, 1) == RulesUpTo(f, 0) + BlockRules(f, b0);
    assert RulesUpTo(f, 2) == RulesUpTo(f, 1) + BlockRules(f, b1);
    assert RulesUpTo(f, 3) == RulesUpTo(f, 2) + BlockRules(f, b2);
  }

  ghost predicate HasDeadLoop(f: IrFunction) {
    && f.params == [] && f.localSeeds == []
    && Rules(f) ==
       [FromInst(0, Const(0, ConstLong(7))), FromInst(2, Phi(2, [(1, 2)])), FromInst(1, Phi(1, [(0, 0), (1, 2)]))]
  }

  lemma SelfPhi(v: Var, s: set<Var>)
    requires v !in s
    ensures !Grounds(Phi(v, [(1, v)]), s)
  {
    var entries: seq<(BlockId, Var)> := [(1, v)];
    assert forall k :: 0 <= k < |entries| ==> entries[k].1 == v;
  }

  lemma DeadLoopNotGrounded(f: IrFunction)
    requires HasDeadLoop(f)
    ensures 2 !in Ground(f)
  {
    SelfPhi(2, {0, 1});
    assert Roots(f) == {};
    var self := FromInst(2, Phi(2, [(1, 2)]));
    assert forall r :: r in Rules(f) ==> r == self || r.dst in {0, 1};
    NotGround(f, 2, {0, 1});
  }

  lemma DeadLoopAbove(f: IrFunction, m: LatMap)
    requires HasDeadLoop(f) && Closed(Rules(f), m)
    ensures Leq(Some(Long), Get(m, 1))
  {
    var entries: seq<(BlockId, Var)> := [(0, 0), (1, 2)];
    var r0, r2 := Rules(f)[0], Rules(f)[2];
    assert r0 in Rules(f) && r2 in Rules(f);
    assert Leq(Out(r0, m), Get(m, 0)) && Leq(Out(r2, m), Get(m, 1));
    EntryBelowPhi(entries, m, 0);
    LeqTrans(Some(Long), Get(m, 0), PhiMeet(entries, m));
    LeqTrans(Some(Long), PhiMeet(entries, m), Get(m, 1));
  }

  lemma DeadLoopGuessModels(f: IrFunction, guess: LatMap)
    requires HasDeadLoop(f) && guess == map[0 := Long, 1 := Long]
    ensures Models(f, [], guess)
  {
    assert Seeds(f, []) == map[];
    var r0, r1, r2 := Rules(f)[0], Rules(f)[1], Rules(f)[2];
    assert forall r :: r in Rules(f) ==> r == r0 || r == r1 || r == r2;
    assert [(0 as BlockId, 0 as Var), (1, 2)][..1] == [(0, 0)];
    assert [(0 as BlockId, 0 as Var)][..0] == [];
    assert PhiMeet([(0, 0)], guess) == Some(Long);
    assert PhiMeet([(1, 2)], guess) == None;
  }

  lemma DeadLoopPhiLong(f: IrFunction)
    requires HasDeadLoop(f)
    ensures Get(Solution(f, []), 1) == Some(Long)
  {
    var guess: LatMap := map[0 := Long, 1 := Long];
    DeadLoopGuessModels(f, guess);
    BelowModel(f, [], guess, 1);
    DeadLoopAbove(f, Solution(f, []));
  }

  lemma BelowModel(f: IrFunction, specs: seq<Repr>, m: LatMap, v: Var)
    requires Models(f, specs, m)
    ensures Closed(Rules(f), Solution(f, specs)) && Leq(Get(Solution(f, specs), v), Get(m, v))
  {
    SolutionIsLeastModel(f, specs);
    GetMono(Solution(f, specs), m, v);
  }

  lemma DeadLoopCoercion(f: IrFunction)
    requires HasDeadLoop(f)
    ensures !Coercible(Unboxed(Solution(f, [])), 2, 1)
  {
    DeadLoopNotGrounded(f);
    DeadLoopPhiLong(f);
    SolutionGrounds(f, []);
  }

  lemma DeadLoopNotCoercible()
    ensures !Coercible(Unboxed(Solution(DEAD_LOOP, [])), 2, 1)
  {
    DeadLoopRules();
    DeadLoopCoercion(DEAD_LOOP);
  }

  ghost predicate Shaped(f: IrFunction) {
    && f.params == [] && |f.blocks| == 3
    && (forall i :: 0 <= i < 3 ==> f.blocks[i].id == i)
    && f.blocks[0].insts == [Const(0, ConstLong(7))] && f.blocks[0].term == Jump(2)
    && f.blocks[1].term == Branch(0, 1, 2)
    && f.blocks[2].phis == [Phi(1, [(0, 0), (1, 2)])] && f.blocks[2].insts == [] && f.blocks[2].term == Return(1)
  }

  lemma Numbered(blocks: seq<Block>, k: nat)
    requires k < |blocks| && forall i :: 0 <= i < |blocks| ==> blocks[i].id == i
    ensures FindBlock(blocks, k) == Some(k)
  {
    assert blocks[k].id == k;
  }

  lemma DeadLoopEdges(f: IrFunction, b: nat, t: nat)
    requires Shaped(f) && b < 3
    ensures EdgeTo(f, f.blocks[b], t) <==> (b == 0 && t == 2) || (b == 1 && 1 <= t <= 2)
  {
    Numbered(f.blocks, 1);
    Numbered(f.blocks, 2);
  }

  lemma {:induction false} DeadLoopPaths(f: IrFunction, path: seq<nat>)
    requires Shaped(f) && IsPath(f, path)
    ensures path == [0] || path == [0, 2]
    decreases |path|
  {
    var n := |path| - 1;
    if n > 0 {
      DeadLoopPaths(f, path[..n]);
      DeadLoopEdges(f, path[n - 1], path[n]);
    }
  }

  lemma DeadLoopEntry(f: IrFunction)
    requires Shaped(f)
    ensures IsPath(f, [0]) && PathDominated(f, [0])
  {
    var blk := f.blocks[0];
    assert Defs([]) == {} && blk.insts[..0] == [];
    assert Defs(blk.insts) == {0};
    assert Entered(f, [0]) == {};
    assert Left(f, [0]) == {0};
    forall t | 0 <= t < 3 && EdgeTo(f, blk, t) ensures EdgeDominated(f, [0], t) {
      DeadLoopEdges(f, 0, t);
      assert Sources(f.blocks[2].phis, blk) == [Some(0)];
    }
  }

  lemma DeadLoopJoin(f: IrFunction)
    requires Shaped(f) && IsPath(f, [0, 2])
    ensures PathDominated(f, [0, 2])
  {
    forall t | 0 <= t < 3 ensures !EdgeTo(f, f.blocks[2], t) {
      DeadLoopEdges(f, 2, t);
    }
  }

  lemma ShapedDominated(f: IrFunction)
    requires Shaped(f)
    ensures Dominated(f) && Reachable(f, 0) && !Reachable(f, 1)
    ensures EdgeTo(f, f.blocks[0], 2) && EdgeTo(f, f.blocks[1], 2)
  {
    DeadLoopEdges(f, 0, 2);
    DeadLoopEdges(f, 1, 2);
    DeadLoopEntry(f);
    var entry := [0];
    assert IsPath(f, entry) && entry[|entry| - 1] == 0;
    forall path | IsPath(f, path) ensures PathDominated(f, path) && path[|path| - 1] != 1 {
      DeadLoopPaths(f, path);
      if path == [0, 2] {
        DeadLoopJoin(f);
      }
    }
  }

  /** Its uses are all dominated, so `ReachableEdgesCoercible` does not hold of blocks no path reaches. */
  lemma DeadLoopDominated()
    ensures Dominated(DEAD_LOOP) && Reachable(DEAD_LOOP, 0) && !Reachable(DEAD_LOOP, 1)
    ensures EdgeTo(DEAD_LOOP, DEAD_LOOP.blocks[0], 2) && EdgeTo(DEAD_LOOP, DEAD_LOOP.blocks[1], 2)
  {
    ShapedDominated(DEAD_LOOP);
  }
}
