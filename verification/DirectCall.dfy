/**
 Direct-call rewriting: a call of a global that the compilation unit itself
 defines with a closure becomes a call of the compiled function, if a fixed arity
 takes exactly the arguments given.
 */
module DirectCall {
  import opened Common
  import opened Ir

  type Key = (string, string)

  datatype ArityInfo = ArityInfo(fnName: string, paramCount: nat, isVariadic: bool)

  type Defns = map<Key, seq<ArityInfo>>

  function Min3(a: nat, b: nat, c: nat): nat {
    if a <= b && a <= c then a else if b <= c then b else c
  }

  /** The arities of a template, as the three lists zipped. */
  function Infos(t: ClosureTemplate): seq<ArityInfo> {
    seq(Min3(|t.arityFnNames|, |t.paramCounts|, |t.isVariadic|),
        i requires 0 <= i < Min3(|t.arityFnNames|, |t.paramCounts|, |t.isVariadic|) =>
          ArityInfo(t.arityFnNames[i], t.paramCounts[i], t.isVariadic[i]))
  }

  // ---- Collecting definitions ----

  function AllInsts(blocks: seq<Block>): seq<Inst> {
    if blocks == [] then [] else AllInsts(blocks[..|blocks| - 1]) + blocks[|blocks| - 1].insts
  }

  /** Zero-capture closures seen so far, and the globals defined with them. */
  datatype Seen = Seen(closures: map<Var, ClosureTemplate>, defs: map<Key, ClosureTemplate>)

  function SeeInst(s: Seen, inst: Inst): Seen {
    match inst
    case AllocClosure(dst, t, captures) =>
      if captures == [] then s.(closures := s.closures[dst := t]) else s
    case DefVar(_, ns, name, val) =>
      if val in s.closures then s.(defs := s.defs[(ns, name) := s.closures[val]]) else s
    case _ => s
  }

  function See(insts: seq<Inst>): Seen {
    if insts == [] then Seen(map[], map[])
    else SeeInst(See(insts[..|insts| - 1]), insts[|insts| - 1])
  }

  function Templates(f: IrFunction): map<Key, ClosureTemplate> {
    See(AllInsts(f.blocks)).defs
  }

  function Collect(f: IrFunction): Defns {
    var defs := Templates(f);
    map k | k in defs :: Infos(defs[k])
  }

  lemma AllInstsSnoc(blocks: seq<Block>, i: nat)
    requires i < |blocks|
    ensures AllInsts(blocks[..i + 1]) == AllInsts(blocks[..i]) + blocks[i].insts
  {
    assert blocks[..i + 1][..i] == blocks[..i];
  }

  lemma PrefixSnoc(insts: seq<Inst>, before: seq<Inst>, j: nat)
    requires j < |insts|
    ensures before + insts[..j + 1] == (before + insts[..j]) + [insts[j]]
    ensures (before + insts[..j + 1])[..|before| + j] == before + insts[..j]
  {
  }

  method CollectBlock(insts: seq<Inst>, seen: Seen, ghost before: seq<Inst>) returns (s: Seen)
    requires seen == See(before)
    ensures s == See(before + insts)
  {
    var closures, defs := seen.closures, seen.defs;
    assert before + insts[..0] == before;
    for j := 0 to |insts|
      invariant Seen(closures, defs) == See(before + insts[..j])
    {
      PrefixSnoc(insts, before, j);
      match insts[j] {
        case AllocClosure(dst, t, captures) =>
          if captures == [] {
            closures := closures[dst := t];
          }
        case DefVar(_, ns, name, val) =>
          if val in closures {
            defs := defs[(ns, name) := closures[val]];
          }
        case _ =>
      }
    }
    assert insts[..|insts|] == insts;
    s := Seen(closures, defs);
  }

  method CollectDefns(f: IrFunction) returns (defns: Defns)
    ensures defns == Collect(f)
  {
    var s := Seen(map[], map[]);
    for i := 0 to |f.blocks|
      invariant s == See(AllInsts(f.blocks[..i]))
    {
      AllInstsSnoc(f.blocks, i);
      s := CollectBlock(f.blocks[i].insts, s, AllInsts(f.blocks[..i]));
    }
    assert f.blocks[..|f.blocks|] == f.blocks;
    defns := map k | k in s.defs :: Infos(s.defs[k]);
  }

  // ---- Rewriting ----

  /** The first fixed arity taking exactly `argc` arguments. */
  function FindMatching(arities: seq<ArityInfo>, argc: nat): (r: Option<ArityInfo>)
    ensures r.Some? ==> r.value in arities && !r.value.isVariadic && r.value.paramCount == argc
    ensures r.None? ==> forall a :: a in arities ==> a.isVariadic || a.paramCount != argc
  {
    if arities == [] then None
    else if !arities[0].isVariadic && arities[0].paramCount == argc then Some(arities[0])
    else FindMatching(arities[1..], argc)
  }

  /** Variables loaded from a global that has known arities. */
  function LoadTargets(insts: seq<Inst>, defns: Defns): map<Var, Key> {
    if insts == [] then map[]
    else
      var before, last := LoadTargets(insts[..|insts| - 1], defns), insts[|insts| - 1];
      if last.LoadGlobal? && (last.ns, last.name) in defns then before[last.dst := (last.ns, last.name)] else before
  }

  function RewriteInst(inst: Inst, targets: map<Var, Key>, defns: Defns): Inst {
    if inst.Call? && inst.callee in targets && targets[inst.callee] in defns then
      match FindMatching(defns[targets[inst.callee]], |inst.args|)
      case Some(a) => CallDirect(inst.dst, a.fnName, inst.args)
      case None => inst
    else inst
  }

  function RewriteInsts(insts: seq<Inst>, targets: map<Var, Key>, defns: Defns): seq<Inst> {
    seq(|insts|, i requires 0 <= i < |insts| => RewriteInst(insts[i], targets, defns))
  }

  function RewriteBlocks(blocks: seq<Block>, targets: map<Var, Key>, defns: Defns): seq<Block> {
    seq(|blocks|, i requires 0 <= i < |blocks| =>
      blocks[i].(insts := RewriteInsts(blocks[i].insts, targets, defns)))
  }

  /** One function, its subfunctions untouched. */
  function Rewrite(f: IrFunction, defns: Defns): IrFunction {
    f.(blocks := RewriteBlocks(f.blocks, LoadTargets(AllInsts(f.blocks), defns), defns))
  }

  method FindLoadTargets(f: IrFunction, defns: Defns) returns (targets: map<Var, Key>)
    ensures targets == LoadTargets(AllInsts(f.blocks), defns)
  {
    targets := map[];
    for i := 0 to |f.blocks|
      invariant targets == LoadTargets(AllInsts(f.blocks[..i]), defns)
    {
      AllInstsSnoc(f.blocks, i);
      var insts := f.blocks[i].insts;
      ghost var before := AllInsts(f.blocks[..i]);
      assert before + insts[..0] == before;
      for j := 0 to |insts|
        invariant targets == LoadTargets(before + insts[..j], defns)
      {
        PrefixSnoc(insts, before, j);
        var inst := insts[j];
        if inst.LoadGlobal? && (inst.ns, inst.name) in defns {
          targets := targets[inst.dst := (inst.ns, inst.name)];
        }
      }
      assert insts[..|insts|] == insts;
    }
    assert f.blocks[..|f.blocks|] == f.blocks;
  }

  method RewriteInPlace(insts: seq<Inst>, targets: map<Var, Key>, defns: Defns)
    returns (insts': seq<Inst>, rewrites: nat)
    ensures insts' == RewriteInsts(insts, targets, defns)
    ensures rewrites == 0 <==> insts' == insts
  {
    insts', rewrites := insts, 0;
    for j := 0 to |insts|
      invariant |insts'| == |insts|
      invariant forall k :: 0 <= k < j ==> insts'[k] == RewriteInst(insts[k], targets, defns)
      invariant forall k :: j <= k < |insts| ==> insts'[k] == insts[k]
      invariant rewrites == 0 <==> insts' == insts
    {
      var inst := insts'[j];
      if inst.Call? && inst.callee in targets && targets[inst.callee] in defns {
        var arity := FindMatching(defns[targets[inst.callee]], |inst.args|);
        if arity.Some? {
          insts' := insts'[j := CallDirect(inst.dst, arity.value.fnName, inst.args)];
          rewrites := rewrites + 1;
          assert insts'[j] != insts[j];
        }
      }
    }
  }

  method RewriteCalls(f: IrFunction, defns: Defns) returns (f': IrFunction, rewrites: nat)
    ensures f' == Rewrite(f, defns)
    ensures rewrites == 0 <==> f' == f
  {
    var targets := FindLoadTargets(f, defns);
    var blocks := f.blocks;
    rewrites := 0;
    for i := 0 to |f.blocks|
      invariant |blocks| == |f.blocks|
      invariant forall k :: 0 <= k < i ==>
        blocks[k] == f.blocks[k].(insts := RewriteInsts(f.blocks[k].insts, targets, defns))
      invariant forall k :: i <= k < |blocks| ==> blocks[k] == f.blocks[k]
      invariant rewrites == 0 <==> blocks == f.blocks
    {
      var insts', n := RewriteInPlace(blocks[i].insts, targets, defns);
      blocks := blocks[i := blocks[i].(insts := insts')];
      rewrites := rewrites + n;
      assert n > 0 ==> blocks[i] != f.blocks[i];
    }
    f' := f.(blocks := blocks);
  }

  // ---- The pass over a tree of functions ----

  function CollectEach(subs: seq<IrFunction>): Defns {
    if subs == [] then map[] else CollectEach(subs[..|subs| - 1]) + Collect(subs[|subs| - 1])
  }

  /** Definitions of the root and its direct subfunctions are known everywhere;
      deeper ones below their own function. */
  function Optimize(f: IrFunction): IrFunction {
    var all := Collect(f) + CollectEach(f.subfunctions);
    if all == map[] then f
    else Rewrite(f, all).(subfunctions := OptimizeSubs(f.subfunctions, all))
  }

  function OptimizeWith(f: IrFunction, defns: Defns): IrFunction
    decreases f, 1
  {
    var all := defns + Collect(f);
    if all == map[] then f
    else Rewrite(f, all).(subfunctions := OptimizeSubs(f.subfunctions, all))
  }

  function OptimizeSubs(subs: seq<IrFunction>, defns: Defns): seq<IrFunction>
    decreases subs, 0
  {
    if subs == [] then [] else [OptimizeWith(subs[0], defns)] + OptimizeSubs(subs[1..], defns)
  }

  // ---- What a rewrite may change ----

  lemma {:induction false} TargetIsLoad(insts: seq<Inst>, defns: Defns, v: Var) returns (i: nat)
    requires v in LoadTargets(insts, defns)
    ensures i < |insts| && insts[i].LoadGlobal? && insts[i].dst == v
    ensures LoadTargets(insts, defns)[v] == (insts[i].ns, insts[i].name) && LoadTargets(insts, defns)[v] in defns
  {
    var n := |insts| - 1;
    if insts[n].LoadGlobal? && insts[n].dst == v && (insts[n].ns, insts[n].name) in defns {
      i := n;
    } else {
      i := TargetIsLoad(insts[..n], defns, v);
    }
  }

  /** Each rewritten instruction is a call whose callee is loaded from a global
      with a fixed arity of exactly that many arguments, and keeps destination and
      arguments; every other instruction, every phi and terminator is unchanged. */
  lemma RewriteIsExact(f: IrFunction, defns: Defns, b: nat, i: nat)
    requires b < |f.blocks| && i < |f.blocks[b].insts|
    ensures var f' := Rewrite(f, defns);
      |f'.blocks| == |f.blocks| && |f'.blocks[b].insts| == |f.blocks[b].insts| &&
      f'.blocks[b].(insts := []) == f.blocks[b].(insts := []) &&
      f'.(blocks := []) == f.(blocks := [])
    ensures
      var inst, inst' := f.blocks[b].insts[i], Rewrite(f, defns).blocks[b].insts[i];
      inst' != inst ==>
        inst.Call? && inst'.CallDirect? && inst'.dst == inst.dst && inst'.args == inst.args &&
        exists load :: load in AllInsts(f.blocks) && load.LoadGlobal? && load.dst == inst.callee &&
          (load.ns, load.name) in defns &&
          ArityInfo(inst'.fnName, |inst.args|, false) in defns[(load.ns, load.name)]
  {
    var inst := f.blocks[b].insts[i];
    var all := AllInsts(f.blocks);
    if Rewrite(f, defns).blocks[b].insts[i] != inst {
      var k := TargetIsLoad(all, defns, inst.callee);
      assert all[k] in all;
    }
  }
}
