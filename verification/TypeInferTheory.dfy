/**
 What the fixpoint of representation inference is: the least closed assignment
 above the seeds. Independence of processing order and monotonicity in the
 seeds follow from that characterisation alone.
 */
module TypeInferTheory {
  import opened Common
  import opened Ir
  import opened TypeInfer

  ghost predicate Closed(rules: seq<Rule>, m: LatMap) {
    forall r :: r in rules ==> Leq(Out(r, m), Get(m, r.dst))
  }

  /** An assignment above the seeds and closed under every rule. */
  ghost predicate Models(f: IrFunction, specs: seq<Repr>, m: LatMap) {
    LeqMap(Seeds(f, specs), m) && Closed(Rules(f), m)
  }

  lemma LeqTrans(a: Lat, b: Lat, c: Lat)
    requires Leq(a, b) && Leq(b, c)
    ensures Leq(a, c)
  {
  }

  lemma GetMono(m: LatMap, m': LatMap, v: Var)
    requires LeqMap(m, m')
    ensures Leq(Get(m, v), Get(m', v))
  {
  }

  lemma {:induction false} PhiMeetMono(entries: seq<(BlockId, Var)>, m: LatMap, m': LatMap)
    requires LeqMap(m, m')
    ensures Leq(PhiMeet(entries, m), PhiMeet(entries, m'))
  {
    if entries != [] {
      var n := |entries| - 1;
      PhiMeetMono(entries[..n], m, m');
      GetMono(m, m', entries[n].1);
      LeqTrans(PhiMeet(entries[..n], m), PhiMeet(entries[..n], m'), PhiMeet(entries, m'));
      LeqTrans(Get(m, entries[n].1), Get(m', entries[n].1), PhiMeet(entries, m'));
    }
  }

  /** Every transfer rule is monotone. */
  lemma OutMono(r: Rule, m: LatMap, m': LatMap)
    requires LeqMap(m, m')
    ensures Leq(Out(r, m), Out(r, m'))
  {
    match r
    case CopyArg(_, src) => GetMono(m, m', src);
    case FromInst(_, inst) =>
      match inst
      case Phi(_, entries) => PhiMeetMono(entries, m, m');
      case CallKnown(_, _, args) =>
        if |args| == 2 {
          GetMono(m, m', args[0]);
          GetMono(m, m', args[1]);
        }
      case _ =>
  }

  lemma {:induction false} ApplyAllBelow(rules: seq<Rule>, m: LatMap, top: LatMap)
    requires LeqMap(m, top) && Closed(rules, top)
    ensures LeqMap(ApplyAll(rules, m), top)
  {
    if rules != [] {
      var init, r := rules[..|rules| - 1], rules[|rules| - 1];
      assert forall q :: q in init ==> q in rules;
      ApplyAllBelow(init, m, top);
      var before := ApplyAll(init, m);
      OutMono(r, before, top);
      LeqTrans(Out(r, before), Out(r, top), Get(top, r.dst));
      forall v | v in ApplyAll(rules, m) ensures Leq(Get(ApplyAll(rules, m), v), Get(top, v)) {
        GetMono(before, top, v);
      }
    }
  }

  lemma {:induction false} StableIsClosed(rules: seq<Rule>, m: LatMap)
    requires ApplyAll(rules, m) == m
    ensures Closed(rules, m)
  {
    if rules != [] {
      var init, r := rules[..|rules| - 1], rules[|rules| - 1];
      ApplyAllInflates(init, m);
      LeqMapAntisymmetric(ApplyAll(init, m), m);
      StableIsClosed(init, m);
      assert forall q :: q in rules ==> q in init || q == r;
    }
  }

  lemma {:induction false} FixCharacterised(rules: seq<Rule>, m: LatMap, vars: set<Var>)
    requires m.Keys <= vars && RuleVars(rules) <= vars
    ensures LeqMap(m, Fix(rules, m, vars)) && Closed(rules, Fix(rules, m, vars))
    ensures forall top: LatMap :: LeqMap(m, top) && Closed(rules, top) ==> LeqMap(Fix(rules, m, vars), top)
    decreases 2 * |vars| - Rank(m)
  {
    var m' := ApplyAll(rules, m);
    ApplyAllInflates(rules, m);
    ApplyAllKeys(rules, m);
    if m' == m {
      StableIsClosed(rules, m);
    } else {
      RankStrict(m, m');
      RankBound(m', vars);
      FixCharacterised(rules, m', vars);
      LeqMapTrans(m, m', Fix(rules, m', vars));
      forall top: LatMap | LeqMap(m, top) && Closed(rules, top)
        ensures LeqMap(Fix(rules, m, vars), top)
      {
        ApplyAllBelow(rules, m, top);
      }
    }
  }

  /** The result of inference is the least model. */
  lemma SolutionIsLeastModel(f: IrFunction, specs: seq<Repr>)
    ensures Models(f, specs, Solution(f, specs))
    ensures forall m: LatMap :: Models(f, specs, m) ==> LeqMap(Solution(f, specs), m)
  {
    FixCharacterised(Rules(f), Seeds(f, specs), Vars(f, specs));
  }

  // ---- Order independence ----

  lemma {:induction false} InstRuleIn(insts: seq<Inst>, r: Rule)
    ensures r in InstRules(insts) <==>
            r.FromInst? && r.inst in insts && r.inst.Dst() == Some(r.dst)
  {
    if insts != [] {
      var n := |insts| - 1;
      InstRuleIn(insts[..n], r);
      assert insts == insts[..n] + [insts[n]];
    }
  }

  function Flatten<T>(parts: seq<seq<T>>): seq<T> {
    if |parts| == 0 then [] else Flatten(parts[..|parts| - 1]) + parts[|parts| - 1]
  }

  lemma {:induction false} FlattenFrom<T>(parts: seq<seq<T>>, x: T) returns (i: nat)
    requires x in Flatten(parts)
    ensures i < |parts| && x in parts[i]
  {
    if x in parts[|parts| - 1] {
      i := |parts| - 1;
    } else {
      i := FlattenFrom(parts[..|parts| - 1], x);
    }
  }

  lemma {:induction false} FlattenHas<T>(parts: seq<seq<T>>, i: nat, x: T)
    requires i < |parts| && x in parts[i]
    ensures x in Flatten(parts)
  {
    if i < |parts| - 1 {
      FlattenHas(parts[..|parts| - 1], i, x);
    }
  }

  ghost function RulesByBlock(f: IrFunction, n: nat): seq<seq<Rule>>
    requires n <= |f.blocks|
  {
    seq(n, i requires 0 <= i < n => BlockRules(f, f.blocks[i]))
  }

  lemma {:induction false} RulesFlatten(f: IrFunction, n: nat)
    requires n <= |f.blocks|
    ensures RulesUpTo(f, n) == Flatten(RulesByBlock(f, n))
  {
    if n > 0 {
      RulesFlatten(f, n - 1);
      assert RulesByBlock(f, n)[..n - 1] == RulesByBlock(f, n - 1);
    }
  }

  lemma RuleComesFrom(f: IrFunction, n: nat, r: Rule) returns (i: nat)
    requires n <= |f.blocks| && r in RulesUpTo(f, n)
    ensures i < n && r in BlockRules(f, f.blocks[i])
  {
    RulesFlatten(f, n);
    i := FlattenFrom(RulesByBlock(f, n), r);
  }

  lemma BlockRuleIn(f: IrFunction, n: nat, i: nat, r: Rule)
    requires i < n <= |f.blocks| && r in BlockRules(f, f.blocks[i])
    ensures r in RulesUpTo(f, n)
  {
    RulesFlatten(f, n);
    FlattenHas(RulesByBlock(f, n), i, r);
  }

  ghost function InstSet(insts: seq<Inst>): set<Inst> {
    set inst | inst in insts
  }

  ghost predicate SameBlock(b: Block, c: Block) {
    b.id == c.id && b.phis == c.phis && b.term == c.term &&
    InstSet(b.insts) == InstSet(c.insts)
  }

  /** Every block of `f` is what `g` finds under its id, up to the order of the
      instructions. */
  ghost predicate Covers(f: IrFunction, g: IrFunction) {
    forall i :: 0 <= i < |f.blocks| ==> Found(f.blocks[i], g)
  }

  ghost predicate Found(b: Block, g: IrFunction) {
    var k := FindBlock(g.blocks, b.id);
    k.Some? && SameBlock(b, g.blocks[k.value])
  }

  /** `g` is `f` with its blocks, and the instructions inside each block, listed
      in another order. */
  ghost predicate Reordered(f: IrFunction, g: IrFunction) {
    f.params == g.params && f.localSeeds == g.localSeeds && Covers(f, g) && Covers(g, f)
  }

  lemma SameRecurRules(f: IrFunction, g: IrFunction, b: Block, c: Block)
    requires Covers(f, g) && Covers(g, f) && b.term == c.term
    ensures RecurRules(f, b) == RecurRules(g, c)
  {
    if b.term.RecurJump? {
      var t, u := FindBlock(f.blocks, b.term.target), FindBlock(g.blocks, b.term.target);
      assert t.Some? ==> Found(f.blocks[t.value], g);
      assert u.Some? ==> Found(g.blocks[u.value], f);
    }
  }

  lemma SameBlockRules(f: IrFunction, g: IrFunction, b: Block, c: Block, r: Rule)
    requires SameBlock(b, c) && RecurRules(f, b) == RecurRules(g, c)
    requires r in BlockRules(f, b)
    ensures r in BlockRules(g, c)
  {
    if r in RecurRules(f, b) {
      assert r in RecurRules(g, c);
    } else {
      InstRuleIn(b.phis + b.insts, r);
      InstRuleIn(c.phis + c.insts, r);
      if r.inst !in b.phis {
        assert r.inst in InstSet(b.insts);
      }
    }
  }

  lemma ReorderedRules(f: IrFunction, g: IrFunction, r: Rule)
    requires Covers(f, g) && Covers(g, f) && r in Rules(f)
    ensures r in Rules(g)
  {
    var i := RuleComesFrom(f, |f.blocks|, r);
    assert Found(f.blocks[i], g);
    var k := FindBlock(g.blocks, f.blocks[i].id).value;
    SameRecurRules(f, g, f.blocks[i], g.blocks[k]);
    SameBlockRules(f, g, f.blocks[i], g.blocks[k], r);
    BlockRuleIn(g, |g.blocks|, k, r);
  }

  lemma LeastUnderReordering(f: IrFunction, g: IrFunction, specs: seq<Repr>)
    requires Reordered(f, g)
    ensures LeqMap(Solution(f, specs), Solution(g, specs))
  {
    SolutionIsLeastModel(f, specs);
    SolutionIsLeastModel(g, specs);
    forall r | r in Rules(f) ensures r in Rules(g) {
      ReorderedRules(f, g, r);
    }
  }

  /** The order in which blocks and instructions are visited does not matter. */
  lemma OrderIndependent(f: IrFunction, g: IrFunction, specs: seq<Repr>)
    requires Reordered(f, g)
    ensures Solution(f, specs) == Solution(g, specs)
  {
    LeastUnderReordering(f, g, specs);
    LeastUnderReordering(g, f, specs);
    LeqMapAntisymmetric(Solution(f, specs), Solution(g, specs));
  }

  // ---- Monotonicity in the seeds ----

  /** `weak` is `specs` with some entries given up to Boxed. */
  ghost predicate Weaker(specs: seq<Repr>, weak: seq<Repr>) {
    forall i: nat :: Leq(Some(SpecAt(specs, i)), Some(SpecAt(weak, i)))
  }

  lemma {:induction false} ParamSeedsMono(params: seq<Var>, specs: seq<Repr>, weak: seq<Repr>)
    requires Weaker(specs, weak)
    ensures ParamSeeds(params, specs).Keys == ParamSeeds(params, weak).Keys
    ensures LeqMap(ParamSeeds(params, specs), ParamSeeds(params, weak))
  {
    if params != [] {
      var n := |params| - 1;
      ParamSeedsMono(params[..n], specs, weak);
      assert Leq(Some(SpecAt(specs, n)), Some(SpecAt(weak, n)));
      var a, b := ParamSeeds(params[..n], specs), ParamSeeds(params[..n], weak);
      forall v | v in ParamSeeds(params, specs)
        ensures Leq(Get(ParamSeeds(params, specs), v), Get(ParamSeeds(params, weak), v))
      {
        GetMono(a, b, v);
      }
    }
  }

  lemma RaiseMono(m: LatMap, m': LatMap, dst: Var, x: Lat)
    requires m.Keys == m'.Keys && LeqMap(m, m')
    ensures Raise(m, dst, x).Keys == Raise(m', dst, x).Keys
    ensures LeqMap(Raise(m, dst, x), Raise(m', dst, x))
  {
    GetMono(m, m', dst);
    LeqTrans(Get(m, dst), Get(m', dst), Meet(Get(m', dst), x));
    assert dst in Raise(m, dst, x) <==> dst in m || x.Some?;
    assert dst in Raise(m', dst, x) <==> dst in m' || x.Some?;
    forall v | v in Raise(m, dst, x) ensures Leq(Get(Raise(m, dst, x), v), Get(Raise(m', dst, x), v)) {
      GetMono(m, m', v);
    }
  }

  lemma {:induction false} AddHintsMono(m: LatMap, m': LatMap, hints: seq<(Var, Repr)>)
    requires m.Keys == m'.Keys && LeqMap(m, m')
    ensures AddHints(m, hints).Keys == AddHints(m', hints).Keys
    ensures LeqMap(AddHints(m, hints), AddHints(m', hints))
  {
    if hints != [] {
      var n := |hints| - 1;
      AddHintsMono(m, m', hints[..n]);
      RaiseMono(AddHints(m, hints[..n]), AddHints(m', hints[..n]), hints[n].0, Some(hints[n].1));
    }
  }

  /** Whether a rule gives bottom depends only on which variables are bottom. */
  lemma {:induction false} PhiMeetKeys(entries: seq<(BlockId, Var)>, m: LatMap, m': LatMap)
    requires m.Keys == m'.Keys
    ensures PhiMeet(entries, m).Some? == PhiMeet(entries, m').Some?
  {
    if entries != [] {
      PhiMeetKeys(entries[..|entries| - 1], m, m');
    }
  }

  lemma OutKeys(r: Rule, m: LatMap, m': LatMap)
    requires m.Keys == m'.Keys
    ensures Out(r, m).Some? == Out(r, m').Some?
  {
    if r.FromInst? && r.inst.Phi? {
      PhiMeetKeys(r.inst.entries, m, m');
    }
  }

  lemma AllBoxedModels(f: IrFunction, specs: seq<Repr>, specs': seq<Repr>, sol: LatMap, top: LatMap)
    requires Seeds(f, specs).Keys == Seeds(f, specs').Keys && Models(f, specs, sol)
    requires top.Keys == sol.Keys && forall v :: v in top ==> top[v] == Boxed
    ensures Models(f, specs', top)
  {
    assert forall v :: v in Seeds(f, specs) ==> Leq(Get(Seeds(f, specs), v), Get(sol, v));
    assert forall v :: v in Seeds(f, specs') ==> v in sol;
    forall r | r in Rules(f) ensures Leq(Out(r, top), Get(top, r.dst)) {
      OutKeys(r, sol, top);
      assert Leq(Out(r, sol), Get(sol, r.dst));
    }
  }

  lemma SolutionKeysBelow(f: IrFunction, specs: seq<Repr>, specs': seq<Repr>)
    requires Seeds(f, specs).Keys == Seeds(f, specs').Keys
    ensures Solution(f, specs').Keys <= Solution(f, specs).Keys
  {
    SolutionIsLeastModel(f, specs);
    SolutionIsLeastModel(f, specs');
    var sol := Solution(f, specs);
    var top: LatMap := map v | v in sol :: Boxed;
    AllBoxedModels(f, specs, specs', sol, top);
    assert LeqMap(Solution(f, specs'), top);
    forall v | v in Solution(f, specs') ensures v in sol {
      assert Leq(Get(Solution(f, specs'), v), Get(top, v));
    }
  }

  /** Giving up a parameter's representation never makes any variable more
      specialised, and loses no variable to bottom: the weaker result map is a
      submap of the stronger one. */
  lemma MonotoneInSeeds(f: IrFunction, specs: seq<Repr>, weak: seq<Repr>)
    requires Weaker(specs, weak)
    ensures LeqMap(Solution(f, specs), Solution(f, weak))
    ensures forall v :: v in Unboxed(Solution(f, weak)) ==>
      v in Unboxed(Solution(f, specs)) &&
      Unboxed(Solution(f, specs))[v] == Unboxed(Solution(f, weak))[v]
  {
    ParamSeedsMono(f.params, specs, weak);
    AddHintsMono(ParamSeeds(f.params, specs), ParamSeeds(f.params, weak), f.localSeeds);
    SolutionKeysBelow(f, specs, weak);
    SolutionIsLeastModel(f, specs);
    SolutionIsLeastModel(f, weak);
    LeqMapTrans(Seeds(f, specs), Seeds(f, weak), Solution(f, weak));
    assert Models(f, specs, Solution(f, weak));
    forall v | v in Unboxed(Solution(f, weak))
      ensures v in Solution(f, specs) && Solution(f, specs)[v] == Solution(f, weak)[v]
    {
      GetMono(Solution(f, specs), Solution(f, weak), v);
    }
  }

  lemma {:induction false} AddHintsAbove(m: LatMap, hints: seq<(Var, Repr)>)
    ensures LeqMap(m, AddHints(m, hints))
  {
    if hints != [] {
      var init := hints[..|hints| - 1];
      AddHintsAbove(m, init);
      LeqMapTrans(m, AddHints(m, init), AddHints(m, hints));
    }
  }

  lemma RuleOfBlocks(f: IrFunction, g: IrFunction, r: Rule)
    requires f.blocks == g.blocks && r in Rules(f)
    ensures r in Rules(g)
  {
    var i := RuleComesFrom(f, |f.blocks|, r);
    RecurRulesOfBlocks(f, g, f.blocks[i]);
    BlockRuleIn(g, |g.blocks|, i, r);
  }

  lemma RecurRulesOfBlocks(f: IrFunction, g: IrFunction, b: Block)
    requires f.blocks == g.blocks
    ensures RecurRules(f, b) == RecurRules(g, b)
  {
  }

  lemma UnhintedModelled(f: IrFunction, specs: seq<Repr>, m: LatMap)
    requires Models(f, specs, m)
    ensures Models(f.(localSeeds := []), specs, m)
  {
    var g := f.(localSeeds := []);
    forall r | r in Rules(g) ensures r in Rules(f) {
      RuleOfBlocks(g, f, r);
    }
    AddHintsAbove(ParamSeeds(f.params, specs), f.localSeeds);
    LeqMapTrans(Seeds(g, specs), Seeds(f, specs), m);
  }

  /** A hint only raises: it confirms a representation the text agrees with and forces none. What
      was boxed without hints stays boxed, and what is unboxed with them was so without, and alike,
      unless it had no representation at all. */
  lemma HintsOnlyRaise(f: IrFunction, specs: seq<Repr>)
    ensures var plain := Solution(f.(localSeeds := []), specs);
      LeqMap(plain, Solution(f, specs)) &&
      forall v :: v in Unboxed(Solution(f, specs)) && v in plain ==> plain[v] == Solution(f, specs)[v]
  {
    var g := f.(localSeeds := []);
    SolutionIsLeastModel(f, specs);
    SolutionIsLeastModel(g, specs);
    UnhintedModelled(f, specs, Solution(f, specs));
    forall v | v in Unboxed(Solution(f, specs)) && v in Solution(g, specs)
      ensures Solution(g, specs)[v] == Solution(f, specs)[v]
    {
      GetMono(Solution(g, specs), Solution(f, specs), v);
    }
  }
}
