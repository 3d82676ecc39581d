/**
 Scalar representation inference: a fixpoint over the lattice
 bottom < {Long, Double, Bool, LongArray, DoubleArray} < Boxed.

 The loop of `Infer` is tied to the function `Solution`, and `Solution` is
 characterised without reference to the loop: it is the least assignment above
 the seeds that is closed under every transfer rule of the function.
 */
module TypeInfer {
  import opened Common
  import opened Ir

  /** A lattice element; `None` is bottom, "not yet computed". */
  type Lat = Option<Repr>

  /** A lattice assignment; a variable without an entry is at bottom. */
  type LatMap = map<Var, Repr>

  function Get(m: LatMap, v: Var): Lat {
    if v in m then Some(m[v]) else None
  }

  predicate Leq(a: Lat, b: Lat) {
    a == None || a == b || b == Some(Boxed)
  }

  ghost predicate LeqMap(m: LatMap, m': LatMap) {
    forall v :: v in m ==> Leq(Get(m, v), Get(m', v))
  }

  /** The source calls its join `meet`; it is the least upper bound of `Leq`. */
  function Meet(a: Lat, b: Lat): (r: Lat)
    ensures Leq(a, r) && Leq(b, r)
    ensures forall c: Lat :: Leq(a, c) && Leq(b, c) ==> Leq(r, c)
  {
    match (a, b)
    case (None, x) => x
    case (x, None) => x
    case (Some(x), Some(y)) => if x == y then Some(x) else Some(Boxed)
  }

  // ---- Transfer functions ----

  predicate Numeric(r: Repr) {
    r == Long || r == Double
  }

  function ArithResult(a: Lat, b: Lat): Lat {
    if a.None? || b.None? then None
    else if a.value == Long && b.value == Long then Some(Long)
    else if Numeric(a.value) && Numeric(b.value) then Some(Double)
    else Some(Boxed)
  }

  function CmpResult(a: Lat, b: Lat): Lat {
    if a.None? || b.None? then None
    else if Numeric(a.value) && Numeric(b.value) then Some(Bool)
    else Some(Boxed)
  }

  /** Result of a two-argument known function, arm by arm as in the source. */
  function KnownResult(fn: KnownFn, a: Lat, b: Lat): Lat {
    match fn
    case Add | Sub | Mul | UncheckedAdd | UncheckedSub | UncheckedMul => ArithResult(a, b)
    case Div =>
      if a == Some(Double) && b == Some(Double) then Some(Double)
      else if a.None? || b.None? then None
      else Some(Boxed)
    case Lt | Gt | Lte | Gte => CmpResult(a, b)
    case Eq =>
      if a == Some(Long) && b == Some(Long) then Some(Bool)
      else if a.None? || b.None? then None
      else Some(Boxed)
    case CaseEq => Some(Bool)
    case Aget =>
      if a == Some(LongArray) && b == Some(Long) then Some(Long)
      else if a == Some(DoubleArray) && b == Some(Long) then Some(Double)
      else if a.None? || b.None? then None
      else Some(Boxed)
    case _ => Some(Boxed)
  }

  function ConstRepr(c: Const): Repr {
    match c
    case ConstLong(_) => Long
    case ConstDouble(_) => Double
    case ConstBool(_) => Bool
    case _ => Boxed
  }

  function PhiMeet(entries: seq<(BlockId, Var)>, m: LatMap): Lat {
    if entries == [] then None
    else Meet(PhiMeet(entries[..|entries| - 1], m), Get(m, entries[|entries| - 1].1))
  }

  function Transfer(inst: Inst, m: LatMap): Lat {
    match inst
    case Const(_, c) => Some(ConstRepr(c))
    case Phi(_, entries) => PhiMeet(entries, m)
    case CallKnown(_, fn, args) =>
      if |args| == 2 then KnownResult(fn, Get(m, args[0]), Get(m, args[1]))
      else if fn == Alength then Some(Long)
      else Some(Boxed)
    case _ => Some(Boxed)
  }

  // ---- Rules: the constraints a function imposes, in processing order ----

  /** Either the transfer function of an instruction, or the copy of a recur
      argument into the phi it feeds by position. */
  datatype Rule = FromInst(dst: Var, inst: Inst) | CopyArg(dst: Var, src: Var)

  function Out(r: Rule, m: LatMap): Lat {
    match r
    case FromInst(_, inst) => Transfer(inst, m)
    case CopyArg(_, src) => Get(m, src)
  }

  function InstRules(insts: seq<Inst>): seq<Rule> {
    if insts == [] then []
    else
      var last := insts[|insts| - 1];
      InstRules(insts[..|insts| - 1]) +
      (match last.Dst() case None => [] case Some(d) => [FromInst(d, last)])
  }

  function CopyRules(phis: seq<Inst>, args: seq<Var>, n: nat): seq<Rule>
    requires n <= |phis| && n <= |args|
  {
    if n == 0 then []
    else CopyRules(phis, args, n - 1) +
         (if phis[n - 1].Phi? then [CopyArg(phis[n - 1].dst, args[n - 1])] else [])
  }

  function Min(a: nat, b: nat): nat {
    if a < b then a else b
  }

  function RecurRules(f: IrFunction, b: Block): seq<Rule> {
    if !b.term.RecurJump? then []
    else match FindBlock(f.blocks, b.term.target)
      case None => []
      case Some(t) =>
        var phis := f.blocks[t].phis;
        CopyRules(phis, b.term.recurArgs, Min(|phis|, |b.term.recurArgs|))
  }

  function BlockRules(f: IrFunction, b: Block): seq<Rule> {
    InstRules(b.phis + b.insts) + RecurRules(f, b)
  }

  function RulesUpTo(f: IrFunction, n: nat): seq<Rule>
    requires n <= |f.blocks|
  {
    if n == 0 then [] else RulesUpTo(f, n - 1) + BlockRules(f, f.blocks[n - 1])
  }

  function Rules(f: IrFunction): seq<Rule> {
    RulesUpTo(f, |f.blocks|)
  }

  // ---- Seeds ----

  function SpecAt(specs: seq<Repr>, i: nat): Repr {
    if i < |specs| then specs[i] else Boxed
  }

  /** Parameters are inserted in order, so the last of two equal ids counts. */
  function ParamSeeds(params: seq<Var>, specs: seq<Repr>): LatMap {
    if params == [] then map[]
    else
      var n := |params| - 1;
      ParamSeeds(params[..n], specs)[params[n] := SpecAt(specs, n)]
  }

  function AddHints(m: LatMap, hints: seq<(Var, Repr)>): LatMap {
    if hints == [] then m
    else
      var h := hints[|hints| - 1];
      Raise(AddHints(m, hints[..|hints| - 1]), h.0, Some(h.1))
  }

  function Seeds(f: IrFunction, specs: seq<Repr>): LatMap {
    AddHints(ParamSeeds(f.params, specs), f.localSeeds)
  }

  // ---- One pass ----

  function Raise(m: LatMap, dst: Var, x: Lat): (m': LatMap)
    ensures LeqMap(m, m')
    ensures Leq(x, Get(m', dst))
    ensures m'.Keys <= m.Keys + {dst}
  {
    var merged := Meet(Get(m, dst), x);
    if merged == Get(m, dst) then m else m[dst := merged.value]
  }

  function ApplyAll(rules: seq<Rule>, m: LatMap): LatMap {
    if rules == [] then m
    else
      var before := ApplyAll(rules[..|rules| - 1], m);
      var r := rules[|rules| - 1];
      Raise(before, r.dst, Out(r, before))
  }

  lemma {:induction false} ApplyAllConcat(a: seq<Rule>, b: seq<Rule>, m: LatMap)
    ensures ApplyAll(a + b, m) == ApplyAll(b, ApplyAll(a, m))
    decreases |b|
  {
    if b == [] {
      assert a + b == a;
    } else {
      var n := |b| - 1;
      assert (a + b)[..|a + b| - 1] == a + b[..n];
      ApplyAllConcat(a, b[..n], m);
    }
  }

  lemma LeqMapTrans(a: LatMap, b: LatMap, c: LatMap)
    requires LeqMap(a, b) && LeqMap(b, c)
    ensures LeqMap(a, c)
  {
    forall v | v in a ensures Leq(Get(a, v), Get(c, v)) {
      assert Leq(Get(a, v), Get(b, v));
      assert v in b ==> Leq(Get(b, v), Get(c, v));
    }
  }

  lemma LeqMapAntisymmetric(a: LatMap, b: LatMap)
    requires LeqMap(a, b) && LeqMap(b, a)
    ensures a == b
  {
    forall v ensures Get(a, v) == Get(b, v) {
      assert v in a ==> Leq(Get(a, v), Get(b, v));
      assert v in b ==> Leq(Get(b, v), Get(a, v));
    }
    assert forall v :: Get(a, v) == Get(b, v);
    assert forall v :: v in a <==> Get(a, v).Some?;
    assert forall v :: v in b <==> Get(b, v).Some?;
    assert a.Keys == b.Keys;
    forall v | v in a ensures a[v] == b[v] {
      assert Get(a, v) == Get(b, v);
    }
  }

  lemma {:induction false} ApplyAllInflates(rules: seq<Rule>, m: LatMap)
    ensures LeqMap(m, ApplyAll(rules, m))
  {
    if rules != [] {
      var init := rules[..|rules| - 1];
      ApplyAllInflates(init, m);
      LeqMapTrans(m, ApplyAll(init, m), ApplyAll(rules, m));
    }
  }

  // ---- Rank: the termination measure ----

  ghost function BoxedVars(m: LatMap): set<Var> {
    set v | v in m && m[v] == Boxed
  }

  /** Total height of an assignment: one for each variable above bottom, one
      more for each variable that is Boxed. */
  ghost function Rank(m: LatMap): nat {
    |m.Keys| + |BoxedVars(m)|
  }

  lemma {:induction false} SubsetCard(a: set<Var>, b: set<Var>)
    requires a <= b
    ensures |a| <= |b|
    ensures a != b ==> |a| < |b|
  {
    if a != {} {
      var x :| x in a;
      SubsetCard(a - {x}, b - {x});
    }
  }

  lemma RankStrict(m: LatMap, m': LatMap)
    requires LeqMap(m, m') && m != m'
    ensures Rank(m) < Rank(m')
  {
    assert forall v :: v in m ==> Leq(Get(m, v), Get(m', v));
    SubsetCard(m.Keys, m'.Keys);
    SubsetCard(BoxedVars(m), BoxedVars(m'));
    var v :| v in m' && Get(m, v) != Get(m', v);
    assert v in m ==> v in BoxedVars(m') && v !in BoxedVars(m);
  }

  lemma RankBound(m: LatMap, vars: set<Var>)
    requires m.Keys <= vars
    ensures Rank(m) <= 2 * |vars|
  {
    SubsetCard(m.Keys, vars);
    SubsetCard(BoxedVars(m), vars);
  }

  ghost function RuleVars(rules: seq<Rule>): set<Var> {
    set r | r in rules :: r.dst
  }

  /** The variables inference can give a representation to. */
  ghost function Vars(f: IrFunction, specs: seq<Repr>): set<Var> {
    Seeds(f, specs).Keys + RuleVars(Rules(f))
  }

  lemma {:induction false} ApplyAllKeys(rules: seq<Rule>, m: LatMap)
    ensures ApplyAll(rules, m).Keys <= m.Keys + RuleVars(rules)
  {
    if rules != [] {
      var init := rules[..|rules| - 1];
      ApplyAllKeys(init, m);
      assert RuleVars(init) <= RuleVars(rules);
      assert rules[|rules| - 1] in rules;
    }
  }

  // ---- The fixpoint ----

  ghost function Fix(rules: seq<Rule>, m: LatMap, vars: set<Var>): LatMap
    requires m.Keys <= vars && RuleVars(rules) <= vars
    decreases 2 * |vars| - Rank(m)
  {
    var m' := ApplyAll(rules, m);
    if m' == m then m
    else
      ApplyAllInflates(rules, m);
      ApplyAllKeys(rules, m);
      RankStrict(m, m');
      RankBound(m', vars);
      Fix(rules, m', vars)
  }

  ghost function Solution(f: IrFunction, specs: seq<Repr>): LatMap {
    Fix(Rules(f), Seeds(f, specs), Vars(f, specs))
  }

  /** What `infer` returns: the entries that are neither bottom nor Boxed. */
  function Unboxed(m: LatMap): map<Var, Repr> {
    map v | v in m && m[v] != Boxed :: m[v]
  }

  method Update(lat: LatMap, dst: Var, x: Lat) returns (lat': LatMap, grew: bool)
    ensures lat' == Raise(lat, dst, x)
    ensures forall v :: v != dst ==> Get(lat', v) == Get(lat, v)
    ensures grew <==> lat' != lat
  {
    var old' := Get(lat, dst);
    var merged := Meet(old', x);
    if merged != old' {
      lat', grew := lat[dst := merged.value], true;
      assert Get(lat', dst) == merged;
    } else {
      lat', grew := lat, false;
    }
  }

  method PhiResult(entries: seq<(BlockId, Var)>, lat: LatMap) returns (m: Lat)
    ensures m == PhiMeet(entries, lat)
  {
    m := None;
    for i := 0 to |entries|
      invariant m == PhiMeet(entries[..i], lat)
    {
      assert entries[..i + 1][..i] == entries[..i];
      m := Meet(m, Get(lat, entries[i].1));
    }
    assert entries[..|entries|] == entries;
  }

  lemma StillGrown(start: LatMap, mid: LatMap, now: LatMap)
    requires LeqMap(start, mid) && LeqMap(mid, now)
    ensures LeqMap(start, now)
    ensures now != start <==> (mid != start || now != mid)
  {
    LeqMapTrans(start, mid, now);
    if now == start {
      LeqMapAntisymmetric(start, mid);
    }
  }

  lemma InstRulesSnoc(insts: seq<Inst>, i: nat, m: LatMap)
    requires i < |insts|
    ensures ApplyAll(InstRules(insts[..i + 1]), m) ==
            var before := ApplyAll(InstRules(insts[..i]), m);
            match insts[i].Dst()
            case None => before
            case Some(d) => Raise(before, d, Transfer(insts[i], before))
  {
    assert insts[..i + 1][..i] == insts[..i];
    var rules := InstRules(insts[..i]);
    if insts[i].Dst().None? {
      assert rules + [] == rules;
    } else {
      assert (rules + [FromInst(insts[i].Dst().value, insts[i])])[..|rules|] == rules;
    }
  }

  /** The transfer functions of a list of instructions, in order. */
  method FoldInsts(insts: seq<Inst>, start: LatMap) returns (lat: LatMap, changed: bool)
    ensures lat == ApplyAll(InstRules(insts), start)
    ensures LeqMap(start, lat)
    ensures changed <==> lat != start
  {
    lat, changed := start, false;
    for i := 0 to |insts|
      invariant lat == ApplyAll(InstRules(insts[..i]), start)
      invariant LeqMap(start, lat)
      invariant changed <==> lat != start
    {
      InstRulesSnoc(insts, i, start);
      var inst := insts[i];
      if inst.Dst().Some? {
        var new';
        if inst.Phi? {
          new' := PhiResult(inst.entries, lat);
        } else {
          new' := Transfer(inst, lat);
        }
        var lat', grew := Update(lat, inst.Dst().value, new');
        StillGrown(start, lat, lat');
        lat, changed := lat', changed || grew;
      }
    }
    assert insts[..|insts|] == insts;
  }

  lemma CopyRulesSnoc(phis: seq<Inst>, args: seq<Var>, k: nat, m: LatMap)
    requires k < |phis| && k < |args|
    ensures ApplyAll(CopyRules(phis, args, k + 1), m) ==
            var before := ApplyAll(CopyRules(phis, args, k), m);
            if phis[k].Phi? then Raise(before, phis[k].dst, Get(before, args[k])) else before
  {
    var rules := CopyRules(phis, args, k);
    if !phis[k].Phi? {
      assert rules + [] == rules;
    } else {
      assert (rules + [CopyArg(phis[k].dst, args[k])])[..|rules|] == rules;
    }
  }

  /** Recur back-edges feed the target's phis by position. */
  method FoldRecur(f: IrFunction, b: Block, start: LatMap) returns (lat: LatMap, changed: bool)
    ensures lat == ApplyAll(RecurRules(f, b), start)
    ensures LeqMap(start, lat)
    ensures changed <==> lat != start
  {
    lat, changed := start, false;
    if !b.term.RecurJump? { return; }
    var t := FindBlock(f.blocks, b.term.target);
    if t.None? { return; }
    var phis, args := f.blocks[t.value].phis, b.term.recurArgs;
    for k := 0 to Min(|phis|, |args|)
      invariant lat == ApplyAll(CopyRules(phis, args, k), start)
      invariant LeqMap(start, lat)
      invariant changed <==> lat != start
    {
      CopyRulesSnoc(phis, args, k, start);
      if phis[k].Phi? {
        var lat', grew := Update(lat, phis[k].dst, Get(lat, args[k]));
        StillGrown(start, lat, lat');
        lat, changed := lat', changed || grew;
      }
    }
  }

  /** One sweep over the function: every block's phis, instructions and recur
      edge. The flag says whether anything moved. */
  method Sweep(f: IrFunction, start: LatMap) returns (lat: LatMap, changed: bool)
    ensures lat == ApplyAll(Rules(f), start)
    ensures changed <==> lat != start
  {
    lat, changed := start, false;
    for i := 0 to |f.blocks|
      invariant lat == ApplyAll(RulesUpTo(f, i), start)
      invariant LeqMap(start, lat)
      invariant changed <==> lat != start
    {
      var b := f.blocks[i];
      var lat1, grew1 := FoldInsts(b.phis + b.insts, lat);
      var lat2, grew2 := FoldRecur(f, b, lat1);
      ApplyAllConcat(InstRules(b.phis + b.insts), RecurRules(f, b), lat);
      ApplyAllConcat(RulesUpTo(f, i), BlockRules(f, b), start);
      StillGrown(start, lat, lat1);
      StillGrown(start, lat1, lat2);
      lat, changed := lat2, changed || grew1 || grew2;
    }
  }

  method SeedLat(f: IrFunction, specs: seq<Repr>) returns (lat: LatMap)
    ensures lat == Seeds(f, specs)
  {
    lat := map[];
    for i := 0 to |f.params|
      invariant lat == ParamSeeds(f.params[..i], specs)
    {
      assert f.params[..i + 1][..i] == f.params[..i];
      lat := lat[f.params[i] := SpecAt(specs, i)];
    }
    assert f.params[..|f.params|] == f.params;
    for i := 0 to |f.localSeeds|
      invariant lat == AddHints(ParamSeeds(f.params, specs), f.localSeeds[..i])
    {
      assert f.localSeeds[..i + 1][..i] == f.localSeeds[..i];
      var merged, _ := Update(lat, f.localSeeds[i].0, Some(f.localSeeds[i].1));
      lat := merged;
    }
    assert f.localSeeds[..|f.localSeeds|] == f.localSeeds;
  }

  /** Inference. `passes` counts the sweeps over the function. */
  method Infer(f: IrFunction, specs: seq<Repr>) returns (reprs: map<Var, Repr>, passes: nat)
    ensures reprs == Unboxed(Solution(f, specs))
    ensures passes <= 2 * |Vars(f, specs)| + 1
  {
    var lat := SeedLat(f, specs);
    ghost var vars := Vars(f, specs);
    var changed := true;
    passes := 0;
    while changed
      invariant lat.Keys <= vars
      invariant Fix(Rules(f), lat, vars) == Solution(f, specs)
      invariant changed ==> passes <= Rank(lat)
      invariant !changed ==> passes <= Rank(lat) + 1 && lat == Solution(f, specs)
      decreases changed, 2 * |vars| - Rank(lat)
    {
      ghost var before := lat;
      lat, changed := Sweep(f, lat);
      passes := passes + 1;
      ApplyAllInflates(Rules(f), before);
      ApplyAllKeys(Rules(f), before);
      RankBound(lat, vars);
      if changed {
        RankStrict(before, lat);
      }
    }
    RankBound(lat, vars);
    reprs := Unboxed(lat);
  }
}
