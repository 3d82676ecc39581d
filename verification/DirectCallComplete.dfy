/**
 Completeness of direct-call rewriting. A global that the unit defines once, with a
 capture-free closure, in the root function or one of its direct subfunctions, is
 called directly wherever in the unit a call loads it with a number of arguments that
 a fixed arity takes.
 */
module DirectCallComplete {
  import opened Common
  import opened Ir
  import opened DirectCall
  import opened DirectCallRun
  import opened DirectCallMeaning

  // ---- The condition, on the instructions ----

  predicate Defines(inst: Inst, k: Key) {
    inst.DefVar? && (inst.ns, inst.name) == k
  }

  predicate NeverDefines(insts: seq<Inst>, k: Key) {
    forall i :: 0 <= i < |insts| ==> !Defines(insts[i], k)
  }

  /** `k` is defined at one place, with a variable that holds the capture-free closure `t` allocated before
      and never another. */
  predicate DefinesOnce(insts: seq<Inst>, k: Key, t: ClosureTemplate, p: nat, q: nat) {
    && p < q < |insts| && Defines(insts[q], k) && insts[p] == AllocClosure(insts[q].val, t, [])
    && (forall i :: 0 <= i < |insts| && i != q ==> !Defines(insts[i], k))
    && (forall i :: 0 <= i < |insts| && i != p ==> !(insts[i].AllocClosure? && insts[i].dst == insts[q].val))
  }

  /** Every load into `v` is of `k`, and there is one. */
  predicate LoadsOnly(insts: seq<Inst>, v: Var, k: Key) {
    && (exists i :: 0 <= i < |insts| && insts[i].LoadGlobal? && insts[i].dst == v)
    && (forall i :: 0 <= i < |insts| && insts[i].LoadGlobal? && insts[i].dst == v ==> (insts[i].ns, insts[i].name) == k)
  }

  /** The first fixed arity of a template that takes `argc` arguments. */
  predicate FirstFixed(t: ClosureTemplate, argc: nat, j: nat) {
    && j < |t.arityFnNames| && j < |t.paramCounts| && j < |t.isVariadic|
    && t.paramCounts[j] == argc && !t.isVariadic[j]
    && forall i :: 0 <= i < j ==> t.paramCounts[i] != argc || t.isVariadic[i]
  }

  // ---- Collecting ----

  lemma {:induction false} SeeClosure(insts: seq<Inst>, n: nat, p: nat, v: Var, t: ClosureTemplate)
    requires p < n <= |insts| && insts[p] == AllocClosure(v, t, [])
    requires forall i :: 0 <= i < |insts| && i != p ==> !(insts[i].AllocClosure? && insts[i].dst == v)
    ensures v in See(insts[..n]).closures && See(insts[..n]).closures[v] == t
  {
    assert insts[..n][..n - 1] == insts[..n - 1];
    if p < n - 1 {
      SeeClosure(insts, n - 1, p, v, t);
    }
  }

  lemma {:induction false} SeeNever(insts: seq<Inst>, k: Key)
    requires NeverDefines(insts, k)
    ensures k !in See(insts).defs
  {
    if insts != [] {
      SeeNever(insts[..|insts| - 1], k);
    }
  }

  lemma {:induction false} SeeDefinition(insts: seq<Inst>, n: nat, k: Key, t: ClosureTemplate, p: nat, q: nat)
    requires DefinesOnce(insts, k, t, p, q) && q < n <= |insts|
    ensures k in See(insts[..n]).defs && See(insts[..n]).defs[k] == t
  {
    assert insts[..n][..n - 1] == insts[..n - 1];
    if q < n - 1 {
      SeeDefinition(insts, n - 1, k, t, p, q);
    } else {
      SeeClosure(insts, q, p, insts[q].val, t);
    }
  }

  lemma CollectsOnce(f: IrFunction, k: Key, t: ClosureTemplate, p: nat, q: nat)
    requires DefinesOnce(AllInsts(f.blocks), k, t, p, q)
    ensures k in Collect(f) && Collect(f)[k] == Infos(t)
  {
    var insts := AllInsts(f.blocks);
    SeeDefinition(insts, |insts|, k, t, p, q);
    assert insts[..|insts|] == insts;
  }

  lemma CollectsNever(f: IrFunction, k: Key)
    requires NeverDefines(AllInsts(f.blocks), k)
    ensures k !in Collect(f)
  {
    SeeNever(AllInsts(f.blocks), k);
  }

  // ---- What reaches the functions below ----

  ghost predicate KnownAt(f: IrFunction, f': IrFunction, k: Key, infos: seq<ArityInfo>) {
    exists d: Defns :: k in d && d[k] == infos && SameCode(f', Rewrite(f, d))
  }

  ghost predicate KnownIn(fns: seq<IrFunction>, fns': seq<IrFunction>, k: Key, infos: seq<ArityInfo>) {
    |fns| == |fns'| && forall i :: 0 <= i < |fns| ==> KnownAt(fns[i], fns'[i], k, infos)
  }

  ghost predicate NoneDefine(fns: seq<IrFunction>, k: Key) {
    forall i :: 0 <= i < |fns| ==> NeverDefines(AllInsts(fns[i].blocks), k)
  }

  lemma KnownConcat(a: seq<IrFunction>, a': seq<IrFunction>, b: seq<IrFunction>, b': seq<IrFunction>,
                    k: Key, infos: seq<ArityInfo>)
    requires KnownIn(a, a', k, infos) && KnownIn(b, b', k, infos)
    ensures KnownIn(a + b, a' + b', k, infos)
  {
  }

  /** A function whose definitions `all` know `k`, and all functions below it that do not define `k` again. */
  lemma {:induction false} BelowKnown(f: IrFunction, all: Defns, k: Key, infos: seq<ArityInfo>)
    requires k in all && all[k] == infos && NoneDefine(FnsOf(f.subfunctions), k)
    ensures var f' := Rewrite(f, all).(subfunctions := OptimizeSubs(f.subfunctions, all));
      KnownIn(Fns(f), Fns(f'), k, infos)
    decreases f, 0
  {
    var f' := Rewrite(f, all).(subfunctions := OptimizeSubs(f.subfunctions, all));
    SubsKnown(f.subfunctions, all, k, infos);
    assert SameCode(f', Rewrite(f, all));
    assert KnownIn([f], [f'], k, infos);
    KnownConcat([f], [f'], FnsOf(f.subfunctions), FnsOf(f'.subfunctions), k, infos);
  }

  lemma {:induction false} WithKnown(f: IrFunction, d: Defns, k: Key, infos: seq<ArityInfo>)
    requires k in d && d[k] == infos && NoneDefine(Fns(f), k)
    ensures KnownIn(Fns(f), Fns(OptimizeWith(f, d)), k, infos)
    decreases f, 1
  {
    assert Fns(f)[0] == f && Fns(f)[1..] == FnsOf(f.subfunctions);
    CollectsNever(f, k);
    BelowKnown(f, d + Collect(f), k, infos);
  }

  lemma {:induction false} SubsKnown(subs: seq<IrFunction>, d: Defns, k: Key, infos: seq<ArityInfo>)
    requires k in d && d[k] == infos && NoneDefine(FnsOf(subs), k)
    ensures KnownIn(FnsOf(subs), FnsOf(OptimizeSubs(subs, d)), k, infos)
    decreases subs, 0
  {
    if subs != [] {
      var fns, rest := Fns(subs[0]), FnsOf(subs[1..]);
      assert FnsOf(subs) == fns + rest;
      NoneDefineParts(fns, rest, k);
      WithKnown(subs[0], d, k, infos);
      SubsKnown(subs[1..], d, k, infos);
      var subs' := OptimizeSubs(subs, d);
      assert subs'[1..] == OptimizeSubs(subs[1..], d);
      KnownConcat(fns, Fns(subs'[0]), rest, FnsOf(subs'[1..]), k, infos);
    }
  }

  lemma NoneDefineParts(a: seq<IrFunction>, b: seq<IrFunction>, k: Key)
    requires NoneDefine(a + b, k)
    ensures NoneDefine(a, k) && NoneDefine(b, k)
  {
    forall i | 0 <= i < |a| ensures NeverDefines(AllInsts(a[i].blocks), k) {
      assert (a + b)[i] == a[i];
    }
    forall i | 0 <= i < |b| ensures NeverDefines(AllInsts(b[i].blocks), k) {
      assert (a + b)[|a| + i] == b[i];
    }
  }

  // ---- The call ----

  lemma {:induction false} TargetKnown(insts: seq<Inst>, d: Defns, v: Var, k: Key)
    requires LoadsOnly(insts, v, k) && k in d
    ensures v in LoadTargets(insts, d) && LoadTargets(insts, d)[v] == k
  {
    var n := |insts| - 1;
    if !(insts[n].LoadGlobal? && insts[n].dst == v) {
      var i :| 0 <= i < |insts| && insts[i].LoadGlobal? && insts[i].dst == v;
      assert insts[..n][i] == insts[i];
      TargetKnown(insts[..n], d, v, k);
    }
  }

  lemma {:induction false} FirstMatches(infos: seq<ArityInfo>, argc: nat, j: nat)
    requires j < |infos| && infos[j].paramCount == argc && !infos[j].isVariadic
    requires forall i :: 0 <= i < j ==> infos[i].paramCount != argc || infos[i].isVariadic
    ensures FindMatching(infos, argc) == Some(infos[j])
  {
    if j > 0 {
      FirstMatches(infos[1..], argc, j - 1);
    }
  }

  /** A call of a global that is known is made direct, to the first fixed arity that takes its arguments. */
  lemma CallMadeDirect(f: IrFunction, f': IrFunction, b: nat, pc: nat, k: Key, t: ClosureTemplate, j: nat)
    requires KnownAt(f, f', k, Infos(t)) && b < |f.blocks| && pc < |f.blocks[b].insts|
    requires var inst := f.blocks[b].insts[pc];
      inst.Call? && LoadsOnly(AllInsts(f.blocks), inst.callee, k) && FirstFixed(t, |inst.args|, j)
    ensures var inst := f.blocks[b].insts[pc];
      && |f'.blocks| == |f.blocks| && |f'.blocks[b].insts| == |f.blocks[b].insts|
      && f'.blocks[b].insts[pc] == CallDirect(inst.dst, t.arityFnNames[j], inst.args)
  {
    var inst := f.blocks[b].insts[pc];
    var d: Defns :| k in d && d[k] == Infos(t) && SameCode(f', Rewrite(f, d));
    TargetKnown(AllInsts(f.blocks), d, inst.callee, k);
    FirstMatches(Infos(t), |inst.args|, j);
  }

  // ---- The unit ----

  /** `f` defines `k` once, and nothing below it does. */
  ghost predicate DefinedIn(f: IrFunction, k: Key, t: ClosureTemplate) {
    && (exists p: nat, q: nat :: DefinesOnce(AllInsts(f.blocks), k, t, p, q))
    && NoneDefine(FnsOf(f.subfunctions), k)
  }

  /** A direct subfunction of `root` defines `k` once, and nothing else in the unit does. */
  ghost predicate DefinedInSub(root: IrFunction, s: nat, k: Key, t: ClosureTemplate) {
    && s < |root.subfunctions| && DefinedIn(root.subfunctions[s], k, t)
    && NeverDefines(AllInsts(root.blocks), k)
    && forall i :: 0 <= i < |root.subfunctions| && i != s ==> NoneDefine(Fns(root.subfunctions[i]), k)
  }

  /** The unit defines `k` once, in its root or in a direct subfunction. */
  ghost predicate DefinedInUnit(root: IrFunction, k: Key, t: ClosureTemplate) {
    DefinedIn(root, k, t) || exists s: nat :: DefinedInSub(root, s, k, t)
  }

  lemma CollectsDefined(f: IrFunction, k: Key, t: ClosureTemplate)
    requires DefinedIn(f, k, t)
    ensures k in Collect(f) && Collect(f)[k] == Infos(t)
  {
    var p: nat, q: nat :| DefinesOnce(AllInsts(f.blocks), k, t, p, q);
    CollectsOnce(f, k, t, p, q);
  }

  lemma {:induction false} EachNever(subs: seq<IrFunction>, k: Key)
    requires forall i :: 0 <= i < |subs| ==> NoneDefine(Fns(subs[i]), k)
    ensures k !in CollectEach(subs)
  {
    if subs != [] {
      var n := |subs| - 1;
      EachNever(subs[..n], k);
      assert Fns(subs[n])[0] == subs[n];
      CollectsNever(subs[n], k);
    }
  }

  lemma {:induction false} EachOnce(subs: seq<IrFunction>, s: nat, k: Key, t: ClosureTemplate)
    requires s < |subs| && DefinedIn(subs[s], k, t)
    requires forall i :: 0 <= i < |subs| && i != s ==> NoneDefine(Fns(subs[i]), k)
    ensures k in CollectEach(subs) && CollectEach(subs)[k] == Infos(t)
  {
    var n := |subs| - 1;
    if s == n {
      CollectsDefined(subs[n], k, t);
    } else {
      EachOnce(subs[..n], s, k, t);
      assert Fns(subs[n])[0] == subs[n];
      CollectsNever(subs[n], k);
    }
  }

  lemma {:induction false} NoneBelow(subs: seq<IrFunction>, k: Key, i: nat)
    requires NoneDefine(FnsOf(subs), k) && i < |subs|
    ensures NoneDefine(Fns(subs[i]), k)
  {
    NoneDefineParts(Fns(subs[0]), FnsOf(subs[1..]), k);
    if i > 0 {
      NoneBelow(subs[1..], k, i - 1);
    }
  }

  /** A function's own definitions are known in it and below, whatever came from above. */
  lemma OwnKnown(f: IrFunction, d: Defns, k: Key, t: ClosureTemplate)
    requires DefinedIn(f, k, t)
    ensures KnownIn(Fns(f), Fns(OptimizeWith(f, d)), k, Infos(t))
  {
    CollectsDefined(f, k, t);
    BelowKnown(f, d + Collect(f), k, Infos(t));
  }

  lemma {:induction false} SubsKnownBut(subs: seq<IrFunction>, d: Defns, s: nat, k: Key, t: ClosureTemplate)
    requires k in d && d[k] == Infos(t) && s < |subs| && DefinedIn(subs[s], k, t)
    requires forall i :: 0 <= i < |subs| && i != s ==> NoneDefine(Fns(subs[i]), k)
    ensures KnownIn(FnsOf(subs), FnsOf(OptimizeSubs(subs, d)), k, Infos(t))
    decreases |subs|
  {
    var subs' := OptimizeSubs(subs, d);
    assert subs'[1..] == OptimizeSubs(subs[1..], d);
    if s == 0 {
      OwnKnown(subs[0], d, k, t);
      NoneDefineAll(subs[1..], k);
      SubsKnown(subs[1..], d, k, Infos(t));
    } else {
      WithKnown(subs[0], d, k, Infos(t));
      SubsKnownBut(subs[1..], d, s - 1, k, t);
    }
    KnownConcat(Fns(subs[0]), Fns(subs'[0]), FnsOf(subs[1..]), FnsOf(subs'[1..]), k, Infos(t));
  }

  lemma {:induction false} NoneDefineAll(subs: seq<IrFunction>, k: Key)
    requires forall i :: 0 <= i < |subs| ==> NoneDefine(Fns(subs[i]), k)
    ensures NoneDefine(FnsOf(subs), k)
  {
    if subs != [] {
      NoneDefineAll(subs[1..], k);
    }
  }

  lemma RootKnown(root: IrFunction, k: Key, t: ClosureTemplate)
    requires DefinedIn(root, k, t)
    ensures KnownIn(Fns(root), Fns(Optimize(root)), k, Infos(t))
  {
    CollectsDefined(root, k, t);
    forall i | 0 <= i < |root.subfunctions| ensures NoneDefine(Fns(root.subfunctions[i]), k) {
      NoneBelow(root.subfunctions, k, i);
    }
    EachNever(root.subfunctions, k);
    BelowKnown(root, Collect(root) + CollectEach(root.subfunctions), k, Infos(t));
  }

  lemma SubKnown(root: IrFunction, s: nat, k: Key, t: ClosureTemplate)
    requires DefinedInSub(root, s, k, t)
    ensures KnownIn(Fns(root), Fns(Optimize(root)), k, Infos(t))
  {
    var subs, all := root.subfunctions, Collect(root) + CollectEach(root.subfunctions);
    EachOnce(subs, s, k, t);
    SubsKnownBut(subs, all, s, k, t);
    var root' := Optimize(root);
    assert SameCode(root', Rewrite(root, all));
    assert KnownIn([root], [root'], k, Infos(t));
    KnownConcat([root], [root'], FnsOf(subs), FnsOf(root'.subfunctions), k, Infos(t));
  }

  /** In every function of the unit, each call of a global that the unit defines once, with as many arguments
      as a fixed arity takes, is a direct call to that arity after the pass. */
  lemma CallsMadeDirect(root: IrFunction, k: Key, t: ClosureTemplate, i: nat, b: nat, pc: nat, j: nat)
    requires DefinedInUnit(root, k, t) && i < |Fns(root)|
    requires b < |Fns(root)[i].blocks| && pc < |Fns(root)[i].blocks[b].insts|
    requires var f := Fns(root)[i];
      var inst := f.blocks[b].insts[pc];
      inst.Call? && LoadsOnly(AllInsts(f.blocks), inst.callee, k) && FirstFixed(t, |inst.args|, j)
    ensures |Fns(Optimize(root))| == |Fns(root)|
    ensures var f, f' := Fns(root)[i], Fns(Optimize(root))[i];
      var inst := f.blocks[b].insts[pc];
      && |f'.blocks| == |f.blocks| && |f'.blocks[b].insts| == |f.blocks[b].insts|
      && f'.blocks[b].insts[pc] == CallDirect(inst.dst, t.arityFnNames[j], inst.args)
  {
    if DefinedIn(root, k, t) {
      RootKnown(root, k, t);
    } else {
      var s: nat :| DefinedInSub(root, s, k, t);
      SubKnown(root, s, k, t);
    }
    CallMadeDirect(Fns(root)[i], Fns(Optimize(root))[i], b, pc, k, t, j);
  }

  // ---- A global defined in several functions ----

  lemma {:induction false} EachLast(subs: seq<IrFunction>, s: nat, k: Key, t: ClosureTemplate, p: nat, q: nat)
    requires s < |subs| && DefinesOnce(AllInsts(subs[s].blocks), k, t, p, q)
    requires forall i :: s < i < |subs| ==> NeverDefines(AllInsts(subs[i].blocks), k)
    ensures k in CollectEach(subs) && CollectEach(subs)[k] == Infos(t)
  {
    var n := |subs| - 1;
    if s == n {
      CollectsOnce(subs[n], k, t, p, q);
    } else {
      EachLast(subs[..n], s, k, t, p, q);
      CollectsNever(subs[n], k);
    }
  }

  /** In the root itself the last direct subfunction that defines a global decides, whatever the root and earlier
      subfunctions define it as. */
  lemma LastSubfunctionDecides(root: IrFunction, s: nat, k: Key, t: ClosureTemplate, p: nat, q: nat)
    requires s < |root.subfunctions| && DefinesOnce(AllInsts(root.subfunctions[s].blocks), k, t, p, q)
    requires forall i :: s < i < |root.subfunctions| ==> NeverDefines(AllInsts(root.subfunctions[i].blocks), k)
    ensures KnownAt(root, Optimize(root), k, Infos(t))
  {
    EachLast(root.subfunctions, s, k, t, p, q);
    assert SameCode(Optimize(root), Rewrite(root, Collect(root) + CollectEach(root.subfunctions)));
  }
}
