/**
 Precision of representation inference. Soundness alone would let inference box
 everything; here it is shown to find the most specialised assignment that the
 operations' own meaning justifies.

 For a known call the result inferred is the least representation that holds
 everything the call can return, exactly for the operand representations of `Told`.
 For a whole function, any assignment that holds the parameters and hints and is kept
 by every instruction and edge, as `Returns` and `ConstGives` describe them, lies above
 the result wherever its calls are told.
 */
module TypeInferPrecise {
  import opened Common
  import opened Ir
  import opened IrRun
  import opened TypeInfer
  import opened TypeInferTheory
  import opened TypeInferSound
  import opened TypeInferCoerce

  // ---- One call ----

  /** The call has operands represented as `ra` and `rb` and can return `v`. */
  predicate Possible(fn: KnownFn, ra: Repr, rb: Repr, a: Value, b: Value, v: Value) {
    HasRepr(a, ra) && HasRepr(b, rb) && Returns(fn, [a, b], v)
  }

  /** `r` holds whatever `(fn a b)` returns on operands represented as `ra` and `rb`. */
  ghost predicate Holds2(fn: KnownFn, ra: Repr, rb: Repr, r: Repr) {
    forall a, b, v :: Possible(fn, ra, rb, a, b, v) ==> HasRepr(v, r)
  }

  predicate IsNumeric(r: Repr) {
    r == Long || r == Double
  }

  /** Operand representations on which the result inferred loses nothing. The source boxes the quotient of
      a Long and a Double, comparisons of anything but numbers, equality of anything but two Longs,
      and an element read at an index it does not know to be Long. */
  predicate Told(fn: KnownFn, ra: Repr, rb: Repr) {
    match fn
    case Div => !(ra == Long && rb == Double) && !(ra == Double && rb == Long)
    case Lt | Gt | Lte | Gte => IsNumeric(ra) && IsNumeric(rb)
    case Eq => ra == Long && rb == Long
    case Aget => rb == Long || (rb == Boxed && ra != LongArray && ra != DoubleArray)
    case Alength => false
    case _ => true
  }

  ghost predicate Best2(fn: KnownFn, ra: Repr, rb: Repr) {
    forall r :: Holds2(fn, ra, rb, r) ==> Leq(KnownResult(fn, Some(ra), Some(rb)), Some(r))
  }

  /** A value that can be returned bounds what holds from below. */
  lemma BestBy(fn: KnownFn, ra: Repr, rb: Repr, a: Value, b: Value, v: Value)
    requires Possible(fn, ra, rb, a, b, v)
    requires forall r :: HasRepr(v, r) ==> Leq(KnownResult(fn, Some(ra), Some(rb)), Some(r))
    ensures Best2(fn, ra, rb)
  {
    forall r | Holds2(fn, ra, rb, r) ensures Leq(KnownResult(fn, Some(ra), Some(rb)), Some(r)) {
      assert HasRepr(v, r);
    }
  }

  lemma NotBestBy(fn: KnownFn, ra: Repr, rb: Repr, r: Repr)
    requires Holds2(fn, ra, rb, r) && !Leq(KnownResult(fn, Some(ra), Some(rb)), Some(r))
    ensures !Best2(fn, ra, rb)
  {
  }

  /** A value of a representation; of the boxed one, a value that is no number. */
  function Sample(r: Repr): (v: Value)
    ensures HasRepr(v, r)
    ensures v.LongV? <==> r == Long
    ensures v.DoubleV? <==> r == Double
    ensures v.LongArrayV? <==> r == LongArray
    ensures v.DoubleArrayV? <==> r == DoubleArray
  {
    match r
    case Boxed => Nil
    case Long => LongV(0)
    case Double => DoubleV(0.0)
    case Bool => BoolV(false)
    case LongArray => LongArrayV(0)
    case DoubleArray => DoubleArrayV(0)
  }

  predicate Arithmetic(fn: KnownFn) {
    fn.Add? || fn.Sub? || fn.Mul? || fn.UncheckedAdd? || fn.UncheckedSub? || fn.UncheckedMul?
  }

  lemma ArithBest(fn: KnownFn, ra: Repr, rb: Repr)
    requires Arithmetic(fn)
    ensures Best2(fn, ra, rb)
  {
    var v :=
      if ra == Long && rb == Long then LongV(0)
      else if IsNumeric(ra) && IsNumeric(rb) then DoubleV(0.0)
      else Nil;
    assert Wrap(0) == 0;
    BestBy(fn, ra, rb, Sample(ra), Sample(rb), v);
  }

  lemma DivBest(ra: Repr, rb: Repr)
    ensures Best2(Div, ra, rb) <==> Told(Div, ra, rb)
  {
    if Told(Div, ra, rb) {
      BestBy(Div, ra, rb, Sample(ra), Sample(rb), if ra == Double && rb == Double then DoubleV(0.0) else Nil);
    } else {
      NotBestBy(Div, ra, rb, Double);
    }
  }

  predicate IsOrder(fn: KnownFn) {
    fn.Lt? || fn.Gt? || fn.Lte? || fn.Gte?
  }

  lemma OrderBest(fn: KnownFn, ra: Repr, rb: Repr)
    requires IsOrder(fn)
    ensures Best2(fn, ra, rb) <==> Told(fn, ra, rb)
  {
    if Told(fn, ra, rb) {
      OrderTold(fn, ra, rb);
    } else {
      OrderUntold(fn, ra, rb);
    }
  }

  lemma OrderUntold(fn: KnownFn, ra: Repr, rb: Repr)
    requires IsOrder(fn) && !Told(fn, ra, rb)
    ensures !Best2(fn, ra, rb)
  {
    assert KnownResult(fn, Some(ra), Some(rb)) == Some(Boxed);
    assert Holds2(fn, ra, rb, Bool);
    NotBestBy(fn, ra, rb, Bool);
  }

  lemma OrderTold(fn: KnownFn, ra: Repr, rb: Repr)
    requires IsOrder(fn) && Told(fn, ra, rb)
    ensures Best2(fn, ra, rb)
  {
    var a, b, v := Sample(ra), Sample(rb), BoolV(IntCmp(fn, 0, 0));
    assert Possible(fn, ra, rb, a, b, v);
    BestBy(fn, ra, rb, a, b, v);
  }

  lemma EqBest(fn: KnownFn, ra: Repr, rb: Repr)
    requires fn == Eq || fn == CaseEq
    ensures Best2(fn, ra, rb) <==> Told(fn, ra, rb)
  {
    if Told(fn, ra, rb) {
      BestBy(fn, ra, rb, Sample(ra), Sample(rb), BoolV(true));
    } else {
      NotBestBy(fn, ra, rb, Bool);
    }
  }

  lemma AgetBest(ra: Repr, rb: Repr)
    ensures Best2(Aget, ra, rb) <==> Told(Aget, ra, rb)
  {
    if Told(Aget, ra, rb) {
      var v := if ra == LongArray then LongV(0) else if ra == DoubleArray then DoubleV(0.0) else Nil;
      BestBy(Aget, ra, rb, Sample(ra), LongV(0), v);
    } else {
      NotBestBy(Aget, ra, rb, if ra == DoubleArray then Double else Long);
    }
  }

  lemma OtherBest(fn: KnownFn, ra: Repr, rb: Repr)
    requires fn == Alength || fn.OtherFn?
    ensures Best2(fn, ra, rb) <==> Told(fn, ra, rb)
  {
    if fn == Alength {
      NotBestBy(fn, ra, rb, Long);
    } else {
      BestBy(fn, ra, rb, Sample(ra), Sample(rb), Nil);
    }
  }

  /** The result inferred for a call is the least representation that holds everything it can return,
      if and only if the operands are told. */
  lemma KnownPrecise(fn: KnownFn, ra: Repr, rb: Repr)
    ensures (forall r :: Holds2(fn, ra, rb, r) ==> Leq(KnownResult(fn, Some(ra), Some(rb)), Some(r))) <==>
      Told(fn, ra, rb)
  {
    if Arithmetic(fn) {
      ArithBest(fn, ra, rb);
    } else if fn == Div {
      DivBest(ra, rb);
    } else if fn == Aget {
      AgetBest(ra, rb);
    } else if fn == Alength || fn.OtherFn? {
      OtherBest(fn, ra, rb);
    } else if IsOrder(fn) {
      OrderBest(fn, ra, rb);
    } else {
      EqBest(fn, ra, rb);
    }
  }

  // ---- The rules of a function are those of its text ----

  predicate InText(f: IrFunction, inst: Inst) {
    exists b :: 0 <= b < |f.blocks| && (inst in f.blocks[b].phis || inst in f.blocks[b].insts)
  }

  /** A recur edge copies `src` into the phi `dst` that stands where `src` stands among its arguments. */
  ghost predicate Recurs(f: IrFunction, src: Var, dst: Var) {
    exists b: nat, t: nat, i: nat :: b < |f.blocks| && RecursAt(f, b, t, i, src, dst)
  }

  predicate RecursAt(f: IrFunction, b: nat, t: nat, i: nat, src: Var, dst: Var)
    requires b < |f.blocks|
  {
    && RecurFeeds(f, b, src, t, i)
    && t < |f.blocks| && i < |f.blocks[t].phis| && f.blocks[t].phis[i].Phi? && f.blocks[t].phis[i].dst == dst
  }

  lemma {:induction false} CopyRuleFrom(phis: seq<Inst>, args: seq<Var>, n: nat, r: Rule) returns (i: nat)
    requires n <= |phis| && n <= |args| && r in CopyRules(phis, args, n)
    ensures i < n && phis[i].Phi? && r == CopyArg(phis[i].dst, args[i])
  {
    if phis[n - 1].Phi? && r == CopyArg(phis[n - 1].dst, args[n - 1]) {
      i := n - 1;
    } else {
      i := CopyRuleFrom(phis, args, n - 1, r);
    }
  }

  lemma InstRuleText(f: IrFunction, inst: Inst)
    requires InText(f, inst) && inst.Dst().Some?
    ensures FromInst(inst.Dst().value, inst) in Rules(f)
  {
    var b :| 0 <= b < |f.blocks| && (inst in f.blocks[b].phis || inst in f.blocks[b].insts);
    var r := FromInst(inst.Dst().value, inst);
    InstRuleIn(f.blocks[b].phis + f.blocks[b].insts, r);
    BlockRuleIn(f, |f.blocks|, b, r);
  }

  lemma CopyRuleText(f: IrFunction, src: Var, dst: Var)
    requires Recurs(f, src, dst)
    ensures CopyArg(dst, src) in Rules(f)
  {
    var b: nat, t: nat, i: nat :| b < |f.blocks| && RecursAt(f, b, t, i, src, dst);
    var phis, args := f.blocks[t].phis, f.blocks[b].term.recurArgs;
    CopyRuleIn(phis, args, Min(|phis|, |args|), i);
    BlockRuleIn(f, |f.blocks|, b, CopyArg(dst, src));
  }

  lemma RecurRuleFrom(f: IrFunction, b: nat, r: Rule)
    requires b < |f.blocks| && r in RecurRules(f, f.blocks[b])
    ensures r.CopyArg? && Recurs(f, r.src, r.dst)
  {
    var t := FindBlock(f.blocks, f.blocks[b].term.target).value;
    var phis, args := f.blocks[t].phis, f.blocks[b].term.recurArgs;
    var i := CopyRuleFrom(phis, args, Min(|phis|, |args|), r);
    assert RecursAt(f, b, t, i, r.src, r.dst);
  }

  /** A rule is the transfer of an instruction of the text or the copy of a recur argument, and all are there. */
  lemma RulesAreText(f: IrFunction, r: Rule)
    ensures r in Rules(f) <==>
      (r.FromInst? && InText(f, r.inst) && r.inst.Dst() == Some(r.dst)) || (r.CopyArg? && Recurs(f, r.src, r.dst))
  {
    if r in Rules(f) {
      var b := RuleComesFrom(f, |f.blocks|, r);
      if r in RecurRules(f, f.blocks[b]) {
        RecurRuleFrom(f, b, r);
      } else {
        InstRuleIn(f.blocks[b].phis + f.blocks[b].insts, r);
      }
    }
    if r.FromInst? && InText(f, r.inst) && r.inst.Dst() == Some(r.dst) {
      InstRuleText(f, r.inst);
    }
    if r.CopyArg? && Recurs(f, r.src, r.dst) {
      CopyRuleText(f, r.src, r.dst);
    }
  }

  // ---- The seeds ----

  /** Above every parameter's representation, the last of equal ids counting, and every hint. */
  ghost predicate HoldsSeeds(f: IrFunction, specs: seq<Repr>, m: LatMap) {
    HoldsParams(f.params, specs, m) && HoldsHints(f.localSeeds, m)
  }

  predicate IsLast(params: seq<Var>, i: nat)
    requires i < |params|
  {
    forall j :: i < j < |params| ==> params[j] != params[i]
  }

  ghost predicate HoldsParams(params: seq<Var>, specs: seq<Repr>, m: LatMap) {
    forall i :: 0 <= i < |params| && IsLast(params, i) ==>
      Leq(Some(if i < |specs| then specs[i] else Boxed), Get(m, params[i]))
  }

  ghost predicate HoldsHints(hints: seq<(Var, Repr)>, m: LatMap) {
    forall h :: h in hints ==> Leq(Some(h.1), Get(m, h.0))
  }

  lemma {:induction false} ParamSeedLast(params: seq<Var>, specs: seq<Repr>, v: Var) returns (i: nat)
    requires v in params
    ensures i < |params| && params[i] == v && IsLast(params, i)
    ensures Get(ParamSeeds(params, specs), v) == Some(if i < |specs| then specs[i] else Boxed)
  {
    var n := |params| - 1;
    if params[n] == v {
      i := n;
    } else {
      i := ParamSeedLast(params[..n], specs, v);
      forall j | i < j < |params| ensures params[j] != params[i] {
        assert j < n ==> params[..n][j] != params[..n][i];
      }
    }
  }

  lemma ParamSeedsLeast(params: seq<Var>, specs: seq<Repr>, m: LatMap)
    ensures LeqMap(ParamSeeds(params, specs), m) <==> HoldsParams(params, specs, m)
  {
    ParamSeedKeys(params, specs);
    var seeds := ParamSeeds(params, specs);
    if LeqMap(seeds, m) {
      forall i | 0 <= i < |params| && IsLast(params, i)
        ensures Leq(Some(if i < |specs| then specs[i] else Boxed), Get(m, params[i]))
      {
        var j := ParamSeedLast(params, specs, params[i]);
        assert !(i < j) && !(j < i);
        assert Leq(Get(seeds, params[i]), Get(m, params[i]));
      }
    }
    if HoldsParams(params, specs, m) {
      forall v | v in seeds ensures Leq(Get(seeds, v), Get(m, v)) {
        var j := ParamSeedLast(params, specs, v);
      }
    }
  }

  lemma RaiseLeast(m: LatMap, v: Var, r: Repr, top: LatMap)
    ensures LeqMap(Raise(m, v, Some(r)), top) <==> LeqMap(m, top) && Leq(Some(r), Get(top, v))
  {
    var up := Raise(m, v, Some(r));
    if LeqMap(up, top) {
      LeqMapTrans(m, up, top);
      assert v in up;
      LeqTrans(Some(r), Get(up, v), Get(top, v));
    }
    if LeqMap(m, top) && Leq(Some(r), Get(top, v)) {
      forall x | x in up ensures Leq(Get(up, x), Get(top, x)) {
        GetMono(m, top, x);
      }
    }
  }

  lemma {:induction false} HintsLeast(m: LatMap, hints: seq<(Var, Repr)>, top: LatMap)
    ensures LeqMap(AddHints(m, hints), top) <==> LeqMap(m, top) && HoldsHints(hints, top)
  {
    if hints != [] {
      var n := |hints| - 1;
      HintsLeast(m, hints[..n], top);
      RaiseLeast(AddHints(m, hints[..n]), hints[n].0, hints[n].1, top);
      assert hints == hints[..n] + [hints[n]];
    }
  }

  /** The seeds are the least assignment above the parameters' representations and the hints. */
  lemma SeedsLeast(f: IrFunction, specs: seq<Repr>, m: LatMap)
    ensures LeqMap(Seeds(f, specs), m) <==> HoldsSeeds(f, specs, m)
  {
    ParamSeedsLeast(f.params, specs, m);
    HintsLeast(ParamSeeds(f.params, specs), f.localSeeds, m);
  }

  // ---- Whole functions ----

  /** `r` holds whatever `fn` returns on `n` arguments. */
  ghost predicate HoldsAny(fn: KnownFn, n: nat, r: Repr) {
    forall vs, v :: |vs| == n && Returns(fn, vs, v) ==> HasRepr(v, r)
  }

  ghost predicate HoldsConst(c: Const, r: Repr) {
    forall v :: ConstGives(c, v) ==> HasRepr(v, r)
  }

  ghost predicate HoldsAll(r: Repr) {
    forall v :: HasRepr(v, r)
  }

  /** The assignment holds what an instruction gives when its operands are as assigned. */
  ghost predicate InstKept(inst: Inst, d: Var, m: LatMap) {
    match inst
    case Const(_, c) => d in m && HoldsConst(c, m[d])
    case Phi(_, entries) => forall e :: e in entries ==> Leq(Get(m, e.1), Get(m, d))
    case CallKnown(_, fn, args) =>
      if |args| != 2 then d in m && HoldsAny(fn, |args|, m[d])
      else args[0] in m && args[1] in m ==> d in m && Holds2(fn, m[args[0]], m[args[1]], m[d])
    case _ => d in m && HoldsAll(m[d])
  }

  /** Holds the parameters and the hints, and is kept by every instruction and every recur edge. */
  ghost predicate Kept(f: IrFunction, specs: seq<Repr>, m: LatMap) {
    && HoldsSeeds(f, specs, m)
    && (forall inst :: InText(f, inst) && inst.Dst().Some? ==> InstKept(inst, inst.Dst().value, m))
    && (forall src, dst :: Recurs(f, src, dst) ==> Leq(Get(m, src), Get(m, dst)))
  }

  /** Every known call has its operands assigned, and told. */
  ghost predicate AllTold(f: IrFunction, m: LatMap) {
    forall inst :: InText(f, inst) && inst.CallKnown? && |inst.args| == 2 ==> CallTold(inst, m)
  }

  predicate CallTold(inst: Inst, m: LatMap)
    requires inst.CallKnown? && |inst.args| == 2
  {
    inst.args[0] in m && inst.args[1] in m && Told(inst.fn, m[inst.args[0]], m[inst.args[1]])
  }

  lemma {:induction false} PhiBelow(entries: seq<(BlockId, Var)>, m: LatMap, top: Lat)
    requires forall e :: e in entries ==> Leq(Get(m, e.1), top)
    ensures Leq(PhiMeet(entries, m), top)
  {
    if entries != [] {
      var n := |entries| - 1;
      PhiBelow(entries[..n], m, top);
      assert entries[n] in entries;
    }
  }

  lemma ConstBest(c: Const, r: Repr)
    requires HoldsConst(c, r)
    ensures Leq(Some(ConstRepr(c)), Some(r))
  {
    var v := match c
      case ConstNil => Nil
      case ConstBool(b) => BoolV(b)
      case ConstLong(n) => LongV(n)
      case ConstDouble(d) => DoubleV(d)
      case ConstOther(_) => Nil;
    assert ConstGives(c, v);
  }

  lemma AnyBest(fn: KnownFn, n: nat, r: Repr)
    requires HoldsAny(fn, n, r) && n != 2
    ensures Leq(Some(if fn == Alength then Long else Boxed), Some(r))
  {
    var vs := seq(n, i => Nil);
    var v := if fn == Alength then LongV(0) else Nil;
    assert |vs| == n && Returns(fn, vs, v);
  }

  lemma AllBest(r: Repr)
    requires HoldsAll(r)
    ensures r == Boxed
  {
    assert HasRepr(Nil, r);
  }

  /** What is kept and told bounds the transfer function. */
  lemma TransferBest(inst: Inst, d: Var, m: LatMap)
    requires InstKept(inst, d, m) && (inst.CallKnown? && |inst.args| == 2 ==> CallTold(inst, m))
    ensures Leq(Transfer(inst, m), Get(m, d))
  {
    match inst
    case Const(_, c) => ConstBest(c, m[d]);
    case Phi(_, entries) => PhiBelow(entries, m, Get(m, d));
    case CallKnown(_, fn, args) =>
      if |args| != 2 {
        AnyBest(fn, |args|, m[d]);
      } else {
        KnownPrecise(fn, m[args[0]], m[args[1]]);
      }
    case _ => AllBest(m[d]);
  }

  /** Inference finds the most specialised assignment: its result lies below every one that holds the
      parameters and hints and is kept by the text, if the known calls are told in it. */
  lemma MostPrecise(f: IrFunction, specs: seq<Repr>, m: LatMap)
    requires Kept(f, specs, m) && AllTold(f, m)
    ensures LeqMap(Solution(f, specs), m)
  {
    SeedsLeast(f, specs, m);
    forall r | r in Rules(f) ensures Leq(Out(r, m), Get(m, r.dst)) {
      RulesAreText(f, r);
      if r.FromInst? {
        TransferBest(r.inst, r.dst, m);
      }
    }
    SolutionIsLeastModel(f, specs);
    assert Models(f, specs, m);
  }

  lemma KnownKept(fn: KnownFn, ra: Repr, rb: Repr, r: Repr)
    requires Leq(KnownResult(fn, Some(ra), Some(rb)), Some(r))
    ensures Holds2(fn, ra, rb, r)
  {
    if fn != Alength {
      forall a, b, v | Possible(fn, ra, rb, a, b, v) ensures HasRepr(v, r) {
        KnownSound(fn, a, b, ra, rb, v);
        HasReprUp(v, KnownResult(fn, Some(ra), Some(rb)).value, r);
      }
    }
  }

  lemma TransferKept(inst: Inst, d: Var, m: LatMap)
    requires Leq(Transfer(inst, m), Get(m, d))
    ensures InstKept(inst, d, m)
  {
    match inst
    case Phi(_, entries) =>
      forall e | e in entries ensures Leq(Get(m, e.1), Get(m, d)) {
        var k :| 0 <= k < |entries| && entries[k] == e;
        EntryBelowPhi(entries, m, k);
        LeqTrans(Get(m, e.1), PhiMeet(entries, m), Get(m, d));
      }
    case CallKnown(_, fn, args) =>
      if |args| == 2 && args[0] in m && args[1] in m {
        var ra, rb := m[args[0]], m[args[1]];
        assert KnownResult(fn, Some(ra), Some(rb)).Some?;
        KnownKept(fn, ra, rb, m[d]);
      }
    case _ =>
  }

  /** And it is itself such an assignment. */
  lemma SolutionKept(f: IrFunction, specs: seq<Repr>)
    ensures Kept(f, specs, Solution(f, specs))
  {
    var sol := Solution(f, specs);
    SolutionIsLeastModel(f, specs);
    SeedsLeast(f, specs, sol);
    forall inst | InText(f, inst) && inst.Dst().Some? ensures InstKept(inst, inst.Dst().value, sol) {
      InstRuleText(f, inst);
      assert Leq(Out(FromInst(inst.Dst().value, inst), sol), Get(sol, inst.Dst().value));
      TransferKept(inst, inst.Dst().value, sol);
    }
    forall src, dst | Recurs(f, src, dst) ensures Leq(Get(sol, src), Get(sol, dst)) {
      CopyRuleText(f, src, dst);
      assert Leq(Out(CopyArg(dst, src), sol), Get(sol, dst));
    }
  }

  // ---- One variable ----

  /** Nothing but `inst` gives `d` a value. */
  ghost predicate OnlyDefinition(f: IrFunction, d: Var, inst: Inst) {
    && d !in Roots(f) && InText(f, inst) && inst.Dst() == Some(d) && !inst.Phi?
    && forall i :: InText(f, i) && i.Dst() == Some(d) ==> i == inst
  }

  lemma OnlyRule(f: IrFunction, d: Var, inst: Inst, r: Rule)
    requires OnlyDefinition(f, d, inst) && r in Rules(f) && r.dst == d
    ensures r == FromInst(d, inst)
  {
    RulesAreText(f, r);
    if r.CopyArg? {
      var b: nat, t: nat, i: nat :| b < |f.blocks| && RecursAt(f, b, t, i, r.src, d);
      assert InText(f, f.blocks[t].phis[i]);
    }
  }

  /** With `x` lowered to what its only definition gives, the assignment still models the function. */
  lemma LoweredModels(f: IrFunction, specs: seq<Repr>, d: Var, inst: Inst, low: LatMap)
    requires OnlyDefinition(f, d, inst) && Transfer(inst, Solution(f, specs)).Some?
    requires low == Solution(f, specs)[d := Transfer(inst, Solution(f, specs)).value]
    ensures Models(f, specs, low)
  {
    var sol := Solution(f, specs);
    SolutionIsLeastModel(f, specs);
    InstRuleText(f, inst);
    assert Leq(Out(FromInst(d, inst), sol), Get(sol, d));
    assert LeqMap(low, sol);
    SeedKeys(f, specs);
    forall v | v in Seeds(f, specs) ensures Leq(Get(Seeds(f, specs), v), Get(low, v)) {
      GetMono(Seeds(f, specs), sol, v);
    }
    forall r | r in Rules(f) ensures Leq(Out(r, low), Get(low, r.dst)) {
      OutMono(r, low, sol);
      if r.dst == d {
        OnlyRule(f, d, inst, r);
      } else {
        LeqTrans(Out(r, low), Out(r, sol), Get(sol, r.dst));
      }
    }
  }

  /** A variable with one definition is represented as that definition says. */
  lemma OneDefinition(f: IrFunction, specs: seq<Repr>, d: Var, inst: Inst)
    requires OnlyDefinition(f, d, inst) && Transfer(inst, Solution(f, specs)).Some?
    ensures Get(Solution(f, specs), d) == Transfer(inst, Solution(f, specs))
  {
    var sol := Solution(f, specs);
    var low := sol[d := Transfer(inst, sol).value];
    LoweredModels(f, specs, d, inst, low);
    SolutionIsLeastModel(f, specs);
    InstRuleText(f, inst);
    assert Leq(Out(FromInst(d, inst), sol), Get(sol, d));
    GetMono(sol, low, d);
  }

  /** The result of a call is unboxed as `r`, if that holds everything the call returns and its operands
      are told. */
  lemma CallUnboxed(f: IrFunction, specs: seq<Repr>, d: Var, fn: KnownFn, x: Var, y: Var, r: Repr)
    requires OnlyDefinition(f, d, CallKnown(d, fn, [x, y]))
    requires x in Solution(f, specs) && y in Solution(f, specs)
    requires Told(fn, Solution(f, specs)[x], Solution(f, specs)[y])
    requires Holds2(fn, Solution(f, specs)[x], Solution(f, specs)[y], r) && r != Boxed
    ensures d in Unboxed(Solution(f, specs)) && Unboxed(Solution(f, specs))[d] == r
  {
    var sol := Solution(f, specs);
    CallTransfer(d, fn, x, y, r, sol);
    OneDefinition(f, specs, d, CallKnown(d, fn, [x, y]));
  }

  lemma CallTransfer(d: Var, fn: KnownFn, x: Var, y: Var, r: Repr, m: LatMap)
    requires x in m && y in m && Told(fn, m[x], m[y]) && Holds2(fn, m[x], m[y], r) && r != Boxed
    ensures Transfer(CallKnown(d, fn, [x, y]), m) == Some(r)
  {
    KnownPrecise(fn, m[x], m[y]);
    KnownGives(fn, m[x], m[y]);
  }

  lemma KnownGives(fn: KnownFn, ra: Repr, rb: Repr)
    ensures KnownResult(fn, Some(ra), Some(rb)).Some?
  {
  }
}
