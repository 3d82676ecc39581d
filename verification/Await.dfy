/**
 Futures, promises and whoever is parked on them.

 A future is settled in two moments: the state is written under its lock, and
 later the wakers are drained. A promise does both under its lock. An awaiting
 task checks the state, and if it saw nothing registers its waker under the same
 lock after looking again. A compiled task may reach the second look without the
 first. Steps of settlers and tasks interleave freely, so settlers may run on
 other threads.
 */
module Await {
  import opened Common

  type Tid = nat
  type Fid = nat
  type Result = int

  /** `writes` lists the values settled, `owed` counts the drains still to come, and
      `drained` says whether a drain has followed a write. */
  datatype Fut =
    Fut(promise: bool, settled: Option<Result>, wakers: seq<Tid>, writes: seq<Result>, owed: nat, drained: bool)

  /** Registration keeps each waker once. */
  function Register(f: Fut, t: Tid): Fut {
    if t in f.wakers then f else f.(wakers := f.wakers + [t])
  }

  function Write(f: Fut, v: Result): Fut {
    f.(settled := Some(v), writes := f.writes + [v], owed := f.owed + 1)
  }

  function Drain(f: Fut): Fut {
    f.(wakers := [], owed := if f.owed > 0 then f.owed - 1 else 0, drained := f.drained || f.settled.Some?)
  }

  /** Delivering twice is a no-op; writing and draining are one moment. */
  function Deliver(f: Fut, v: Result): Fut {
    if f.settled.Some? then f
    else f.(settled := Some(v), wakers := [], writes := f.writes + [v], drained := true)
  }

  // ---- The object ----

  class CljxFuture {
    var settled: Option<Result>
    var wakers: seq<Tid>
    ghost var writes: seq<Result>
    ghost var owed: nat
    ghost var drained: bool

    constructor ()
      ensures State() == Fut(false, None, [], [], 0, false)
    {
      settled, wakers := None, [];
      writes, owed, drained := [], 0, false;
    }

    ghost function State(): Fut
      reads this
    {
      Fut(false, settled, wakers, writes, owed, drained)
    }

    method RegisterWaker(t: Tid)
      modifies this
      ensures State() == Register(old(State()), t)
    {
      var present := false;
      for i := 0 to |wakers|
        invariant present <==> t in wakers[..i]
        invariant State() == old(State())
      {
        if wakers[i] == t {
          present := true;
        }
      }
      assert wakers[..|wakers|] == wakers;
      if !present {
        wakers := wakers + [t];
      }
    }

    /** The first half of settling: overwrites whatever was there. */
    method SettleWrite(v: Result)
      modifies this
      ensures State() == Write(old(State()), v)
    {
      settled := Some(v);
      writes, owed := writes + [v], owed + 1;
    }

    /** The second half: every registered waker is woken, in order. */
    method NotifySettled() returns (woken: seq<Tid>)
      modifies this
      ensures State() == Drain(old(State()))
      ensures woken == old(wakers)
    {
      woken := [];
      while wakers != []
        invariant woken + wakers == old(wakers)
        invariant State() == old(State()).(wakers := wakers)
        decreases |wakers|
      {
        assert wakers == [wakers[0]] + wakers[1..];
        woken := woken + [wakers[0]];
        wakers := wakers[1..];
      }
      owed, drained := if owed > 0 then owed - 1 else 0, drained || settled.Some?;
    }

    /** Under the state lock: register and park if still running, else go on. Both
        the interpreted await and the compiled task end their poll this way. */
    method ParkUnlessSettled(t: Tid) returns (parked: bool)
      modifies this
      ensures parked <==> old(settled).None?
      ensures State() == if parked then Register(old(State()), t) else old(State())
    {
      if settled.None? {
        RegisterWaker(t);
        parked := true;
      } else {
        parked := false;
      }
    }
  }

  // ---- Runs ----

  datatype Phase = Runnable | Unsettled | Parked | Finished(r: Result)

  /** A task and the future it awaits; `Unsettled` is between the two looks. */
  datatype Task = Task(fut: Fid, phase: Phase)

  datatype Sys = Sys(futs: map<Fid, Fut>, tasks: map<Tid, Task>)

  datatype Step =
    | Create(f: Fid, promise: bool)
    | Begin(t: Tid, f: Fid, skipFirstLook: bool)
    | Look(t: Tid)
    | Enlist(t: Tid)
    | Spurious(t: Tid)
    | SettleStep(f: Fid, v: Result)
    | NotifyStep(f: Fid)
    | DeliverStep(f: Fid, v: Result)

  predicate Enabled(s: Sys, st: Step) {
    match st
    case Create(f, _) => f !in s.futs
    case Begin(t, f, _) => f in s.futs && (t in s.tasks ==> s.tasks[t].phase.Finished?)
    case Look(t) => t in s.tasks && s.tasks[t].phase == Runnable && s.tasks[t].fut in s.futs
    case Enlist(t) => t in s.tasks && s.tasks[t].phase == Unsettled && s.tasks[t].fut in s.futs
    case Spurious(t) => t in s.tasks && s.tasks[t].phase == Parked
    case SettleStep(f, _) => f in s.futs && !s.futs[f].promise
    case NotifyStep(f) => f in s.futs && s.futs[f].owed > 0
    case DeliverStep(f, _) => f in s.futs && s.futs[f].promise
  }

  /** Waking a parked task makes it runnable; waking any other does nothing. */
  function WakeAll(tasks: map<Tid, Task>, wakers: seq<Tid>): map<Tid, Task> {
    map t | t in tasks ::
      if t in wakers && tasks[t].phase == Parked then tasks[t].(phase := Runnable) else tasks[t]
  }

  function Apply(s: Sys, st: Step): Sys
    requires Enabled(s, st)
  {
    match st
    case Create(f, promise) => s.(futs := s.futs[f := Fut(promise, None, [], [], 0, false)])
    case Begin(t, f, skip) => s.(tasks := s.tasks[t := Task(f, if skip then Unsettled else Runnable)])
    case Look(t) =>
      var f := s.futs[s.tasks[t].fut];
      s.(tasks := s.tasks[t := s.tasks[t].(phase := if f.settled.Some? then Finished(f.settled.value) else Unsettled)])
    case Enlist(t) =>
      var k := s.tasks[t].fut;
      if s.futs[k].settled.Some? then s.(tasks := s.tasks[t := s.tasks[t].(phase := Runnable)])
      else Sys(s.futs[k := Register(s.futs[k], t)], s.tasks[t := s.tasks[t].(phase := Parked)])
    case Spurious(t) => s.(tasks := s.tasks[t := s.tasks[t].(phase := Runnable)])
    case SettleStep(f, v) => s.(futs := s.futs[f := Write(s.futs[f], v)])
    case NotifyStep(f) => Sys(s.futs[f := Drain(s.futs[f])], WakeAll(s.tasks, s.futs[f].wakers))
    case DeliverStep(f, v) =>
      if s.futs[f].settled.Some? then s
      else Sys(s.futs[f := Deliver(s.futs[f], v)], WakeAll(s.tasks, s.futs[f].wakers))
  }

  ghost predicate Next(s: Sys, s': Sys) {
    exists st :: Enabled(s, st) && s' == Apply(s, st)
  }

  ghost predicate IsRun(run: seq<Sys>) {
    |run| > 0 && run[0] == Sys(map[], map[]) &&
    forall i :: 0 <= i < |run| - 1 ==> Next(run[i], run[i + 1])
  }

  // ---- Nobody is stranded ----

  ghost predicate FutOk(f: Fut) {
    (f.settled == if f.writes == [] then None else Some(f.writes[|f.writes| - 1])) &&
    (f.settled.Some? <==> f.owed > 0 || f.drained) &&
    (f.promise ==> f.owed == 0 && |f.writes| <= 1)
  }

  /** A parked task is registered with a future no drain has passed yet. */
  ghost predicate Registered(s: Sys, t: Tid)
    requires t in s.tasks
  {
    s.tasks[t].fut in s.futs &&
    t in s.futs[s.tasks[t].fut].wakers && !s.futs[s.tasks[t].fut].drained
  }

  /** A finished task got a value its future was settled with. */
  ghost predicate ResultOk(s: Sys, t: Tid)
    requires t in s.tasks && s.tasks[t].phase.Finished?
  {
    s.tasks[t].fut in s.futs && s.tasks[t].phase.r in s.futs[s.tasks[t].fut].writes
  }

  ghost predicate Inv(s: Sys) {
    (forall f :: f in s.futs ==> FutOk(s.futs[f])) &&
    (forall t :: t in s.tasks && s.tasks[t].phase == Parked ==> Registered(s, t)) &&
    (forall t :: t in s.tasks && s.tasks[t].phase.Finished? ==> ResultOk(s, t))
  }

  lemma WakeAllKeeps(s: Sys, k: Fid, f: Fut)
    requires Inv(s) && k in s.futs && f.wakers == [] && f.drained && FutOk(f)
    requires s.futs[k].writes <= f.writes
    ensures Inv(Sys(s.futs[k := f], WakeAll(s.tasks, s.futs[k].wakers)))
  {
    var s' := Sys(s.futs[k := f], WakeAll(s.tasks, s.futs[k].wakers));
    forall t | t in s'.tasks && s'.tasks[t].phase == Parked ensures Registered(s', t) {
      assert Registered(s, t);
    }
    forall t | t in s'.tasks && s'.tasks[t].phase.Finished? ensures ResultOk(s', t) {
      assert s.tasks[t] == s'.tasks[t] && ResultOk(s, t);
    }
  }

  lemma EnlistKeeps(s: Sys, t: Tid)
    requires Inv(s) && Enabled(s, Enlist(t))
    ensures Inv(Apply(s, Enlist(t)))
  {
    var s' := Apply(s, Enlist(t));
    forall u | u in s'.tasks && s'.tasks[u].phase == Parked ensures Registered(s', u) {
      assert u != t ==> Registered(s, u);
      assert FutOk(s.futs[s.tasks[t].fut]);
    }
    forall u | u in s'.tasks && s'.tasks[u].phase.Finished? ensures ResultOk(s', u) {
      assert ResultOk(s, u);
    }
  }

  lemma SettleKeeps(s: Sys, k: Fid, v: Result)
    requires Inv(s) && Enabled(s, SettleStep(k, v))
    ensures Inv(Apply(s, SettleStep(k, v)))
  {
    var s' := Apply(s, SettleStep(k, v));
    forall t | t in s'.tasks && s'.tasks[t].phase == Parked ensures Registered(s', t) {
      assert Registered(s, t);
    }
    forall t | t in s'.tasks && s'.tasks[t].phase.Finished? ensures ResultOk(s', t) {
      assert ResultOk(s, t) && FutOk(s.futs[s.tasks[t].fut]);
    }
  }

  lemma StepKeeps(s: Sys, st: Step)
    requires Inv(s) && Enabled(s, st)
    ensures Inv(Apply(s, st))
  {
    var s' := Apply(s, st);
    match st
    case Enlist(t) => EnlistKeeps(s, t);
    case SettleStep(f, v) => SettleKeeps(s, f, v);
    case NotifyStep(f) => WakeAllKeeps(s, f, Drain(s.futs[f]));
    case DeliverStep(f, v) =>
      if s.futs[f].settled.None? {
        WakeAllKeeps(s, f, Deliver(s.futs[f], v));
      }
    case _ =>
      forall t | t in s'.tasks && s'.tasks[t].phase == Parked ensures Registered(s', t) {
        assert Registered(s, t);
      }
      forall t | t in s'.tasks && s'.tasks[t].phase.Finished? ensures ResultOk(s', t) {
        assert t in s.tasks && s.tasks[t].phase.Finished? && s.tasks[t] == s'.tasks[t] ==> ResultOk(s, t);
        assert FutOk(s'.futs[s'.tasks[t].fut]);
      }
  }

  lemma {:induction false} RunInv(run: seq<Sys>, i: nat)
    requires IsRun(run) && i < |run|
    ensures Inv(run[i])
  {
    if i > 0 {
      RunInv(run, i - 1);
      assert Next(run[i - 1], run[i]);
      var st :| Enabled(run[i - 1], st) && run[i] == Apply(run[i - 1], st);
      StepKeeps(run[i - 1], st);
    }
  }

  /** In every interleaving: once a drain has followed the settlement, no task is
      parked on the future; before that, a settled future with a parked task
      still has a drain to come. A delivered promise never has a parked task. */
  lemma NoAwaiterStranded(run: seq<Sys>, i: nat, t: Tid)
    requires IsRun(run) && i < |run| && t in run[i].tasks && run[i].tasks[t].phase == Parked
    ensures run[i].tasks[t].fut in run[i].futs
    ensures var f := run[i].futs[run[i].tasks[t].fut];
      !f.drained && (f.settled.Some? ==> f.owed > 0) && (f.promise ==> f.settled.None?)
  {
    RunInv(run, i);
    assert Registered(run[i], t);
    assert FutOk(run[i].futs[run[i].tasks[t].fut]);
  }

  /** An awaiter finishes only with a value its future was settled with; a promise has one at most. */
  lemma AwaiterGetsWritten(run: seq<Sys>, i: nat, t: Tid)
    requires IsRun(run) && i < |run| && t in run[i].tasks && run[i].tasks[t].phase.Finished?
    ensures run[i].tasks[t].fut in run[i].futs
    ensures var f := run[i].futs[run[i].tasks[t].fut];
      run[i].tasks[t].phase.r in f.writes && (f.promise ==> |f.writes| == 1)
  {
    RunInv(run, i);
    assert ResultOk(run[i], t);
    assert FutOk(run[i].futs[run[i].tasks[t].fut]);
  }

  // ---- When all awaiters agree ----

  ghost predicate Reachable(s: Sys) {
    exists run: seq<Sys> :: IsRun(run) && run[|run| - 1] == s
  }

  lemma ReachNext(s: Sys, st: Step)
    requires Reachable(s) && Enabled(s, st)
    ensures Reachable(Apply(s, st))
  {
    var run: seq<Sys> :| IsRun(run) && run[|run| - 1] == s;
    var run' := run + [Apply(s, st)];
    forall i | 0 <= i < |run'| - 1 ensures Next(run'[i], run'[i + 1]) {
      assert i < |run| - 1 ==> Next(run[i], run[i + 1]);
      assert i == |run| - 1 ==> Enabled(s, st) && run'[i + 1] == Apply(run'[i], st);
    }
    assert IsRun(run');
    assert run'[|run'| - 1] == Apply(s, st);
  }

  /** Everybody who has finished awaiting `k` got the same value. */
  ghost predicate Agree(s: Sys, k: Fid) {
    forall t, u :: Got(s, k, t) && Got(s, k, u) ==> s.tasks[t].phase == s.tasks[u].phase
  }

  predicate Got(s: Sys, k: Fid, t: Tid) {
    t in s.tasks && s.tasks[t].fut == k && s.tasks[t].phase.Finished?
  }

  /** On every schedule in which a future is settled with `vs`, in that order, its awaiters agree. */
  ghost predicate AlwaysAgree(vs: seq<Result>) {
    forall s: Sys, k: Fid :: Reachable(s) && k in s.futs && s.futs[k].writes == vs ==> Agree(s, k)
  }

  ghost predicate AllSame(vs: seq<Result>) {
    forall i, j :: 0 <= i < |vs| && 0 <= j < |vs| ==> vs[i] == vs[j]
  }

  ghost function SettleAll(s: Sys, k: Fid, vs: seq<Result>): Sys
    requires k in s.futs && !s.futs[k].promise
    decreases |vs|
  {
    if vs == [] then s else SettleAll(Apply(s, SettleStep(k, vs[0])), k, vs[1..])
  }

  lemma {:induction false} SettleAllReached(s: Sys, k: Fid, vs: seq<Result>)
    requires Reachable(s) && k in s.futs && !s.futs[k].promise
    ensures var s' := SettleAll(s, k, vs);
      && Reachable(s') && s'.tasks == s.tasks && k in s'.futs && !s'.futs[k].promise
      && s'.futs[k].writes == s.futs[k].writes + vs
      && (vs != [] ==> s'.futs[k].settled == Some(vs[|vs| - 1]))
    decreases |vs|
  {
    if vs == [] {
      assert s.futs[k].writes + vs == s.futs[k].writes;
    } else {
      ReachNext(s, SettleStep(k, vs[0]));
      SettleAllReached(Apply(s, SettleStep(k, vs[0])), k, vs[1..]);
      assert s.futs[k].writes + [vs[0]] + vs[1..] == s.futs[k].writes + vs;
    }
  }

  /** Two tasks awaiting one future. */
  lemma TwoAwaiters() returns (s: Sys)
    ensures Reachable(s) && s.futs == map[0 := Fut(false, None, [], [], 0, false)]
    ensures s.tasks == map[1 := Task(0, Runnable), 2 := Task(0, Runnable)]
  {
    s := Sys(map[], map[]);
    assert IsRun([s]);
    assert [s][|[s]| - 1] == s;
    ReachNext(s, Create(0, false));
    s := Apply(s, Create(0, false));
    ReachNext(s, Begin(1, 0, false));
    s := Apply(s, Begin(1, 0, false));
    ReachNext(s, Begin(2, 0, false));
    s := Apply(s, Begin(2, 0, false));
  }

  /** Some settlements, and then a look that finds the last of them. */
  lemma SettleThenLook(s: Sys, k: Fid, vs: seq<Result>, t: Tid) returns (s': Sys)
    requires Reachable(s) && k in s.futs && !s.futs[k].promise && vs != []
    requires t in s.tasks && s.tasks[t] == Task(k, Runnable)
    ensures Reachable(s') && k in s'.futs && !s'.futs[k].promise && s'.futs[k].writes == s.futs[k].writes + vs
    ensures s'.tasks == s.tasks[t := Task(k, Finished(vs[|vs| - 1]))]
  {
    SettleAllReached(s, k, vs);
    s' := SettleAll(s, k, vs);
    ReachNext(s', Look(t));
    s' := Apply(s', Look(t));
  }

  lemma TwoLooks(us: seq<Result>, vs: seq<Result>) returns (s: Sys)
    requires us != [] && vs != []
    ensures Reachable(s) && 0 in s.futs && !s.futs[0].promise && s.futs[0].writes == us + vs
    ensures s.tasks == map[1 := Task(0, Finished(us[|us| - 1])), 2 := Task(0, Finished(vs[|vs| - 1]))]
  {
    s := TwoAwaiters();
    s := SettleThenLook(s, 0, us, 1);
    assert s.tasks == map[1 := Task(0, Finished(us[|us| - 1])), 2 := Task(0, Runnable)];
    assert [] + us == us;
    s := SettleThenLook(s, 0, vs, 2);
  }

  /** Two awaiters that look after different settlements. */
  lemma Disagreement(vs: seq<Result>, i: nat, j: nat) returns (s: Sys)
    requires i < j < |vs| && vs[i] != vs[j]
    ensures Reachable(s) && 0 in s.futs && s.futs[0].writes == vs && !Agree(s, 0)
  {
    var s2 := TwoLooks(vs[..i + 1], vs[i + 1..j + 1]);
    SettleAllReached(s2, 0, vs[j + 1..]);
    s := SettleAll(s2, 0, vs[j + 1..]);
    assert vs[..i + 1] + vs[i + 1..j + 1] + vs[j + 1..] == vs;
    assert Got(s, 0, 1) && Got(s, 0, 2);
  }

  /** Awaiters agree on every schedule if and only if no two of the values settled differ. */
  lemma AwaitersAgreeIff(vs: seq<Result>)
    ensures AlwaysAgree(vs) <==> AllSame(vs)
  {
    if AllSame(vs) {
      forall s: Sys, k: Fid | Reachable(s) && k in s.futs && s.futs[k].writes == vs ensures Agree(s, k) {
        var run: seq<Sys> :| IsRun(run) && run[|run| - 1] == s;
        RunInv(run, |run| - 1);
        forall t | Got(s, k, t)
          ensures s.tasks[t].phase.r in vs
        {
          assert ResultOk(s, t);
        }
      }
    } else {
      var i, j :| 0 <= i < |vs| && 0 <= j < |vs| && vs[i] != vs[j];
      var s := Disagreement(vs, if i < j then i else j, if i < j then j else i);
      assert !AlwaysAgree(vs);
    }
  }

  // ---- Awaiters do not wait longer than they must ----

  /** In every run, a look ends the wait if and only if the future has been settled, with the value settled last;
      and registering parks the task if and only if it has not, or else sends it to look again. */
  lemma LookAnswers(run: seq<Sys>, i: nat, t: Tid)
    requires IsRun(run) && i < |run|
    ensures Enabled(run[i], Look(t)) ==>
      var writes := run[i].futs[run[i].tasks[t].fut].writes;
      Apply(run[i], Look(t)).tasks[t].phase == if writes == [] then Unsettled else Finished(writes[|writes| - 1])
    ensures Enabled(run[i], Enlist(t)) ==>
      var writes := run[i].futs[run[i].tasks[t].fut].writes;
      Apply(run[i], Enlist(t)).tasks[t].phase == if writes == [] then Parked else Runnable
  {
    RunInv(run, i);
    if t in run[i].tasks && run[i].tasks[t].fut in run[i].futs {
      assert FutOk(run[i].futs[run[i].tasks[t].fut]);
    }
  }

  /** In every run, draining a future, or delivering a promise for the first time, makes every task parked on it
      runnable. */
  lemma DrainReleases(run: seq<Sys>, i: nat, k: Fid, v: Result, t: Tid)
    requires IsRun(run) && i < |run| && t in run[i].tasks && run[i].tasks[t] == Task(k, Parked)
    ensures Enabled(run[i], NotifyStep(k)) ==> Apply(run[i], NotifyStep(k)).tasks[t] == Task(k, Runnable)
    ensures Enabled(run[i], DeliverStep(k, v)) ==> Apply(run[i], DeliverStep(k, v)).tasks[t] == Task(k, Runnable)
  {
    RunInv(run, i);
    assert Registered(run[i], t);
    assert FutOk(run[i].futs[k]);
  }

  /** The first value delivered to a promise stays; every settlement of a future is written over the one before. */
  lemma FirstDeliveryStays(run: seq<Sys>, i: nat, k: Fid, v: Result)
    requires IsRun(run) && i < |run| && k in run[i].futs
    ensures run[i].futs[k].promise ==>
      var writes := Apply(run[i], DeliverStep(k, v)).futs[k].writes;
      writes == if run[i].futs[k].writes == [] then [v] else run[i].futs[k].writes
    ensures !run[i].futs[k].promise ==> Apply(run[i], SettleStep(k, v)).futs[k].writes == run[i].futs[k].writes + [v]
  {
    RunInv(run, i);
    assert FutOk(run[i].futs[k]);
  }

  ghost predicate AwaitsKnown(s: Sys) {
    forall t :: t in s.tasks ==> s.tasks[t].fut in s.futs
  }

  lemma {:induction false} RunAwaitsKnown(run: seq<Sys>, i: nat)
    requires IsRun(run) && i < |run|
    ensures AwaitsKnown(run[i])
  {
    if i > 0 {
      RunAwaitsKnown(run, i - 1);
      assert Next(run[i - 1], run[i]);
      var st :| Enabled(run[i - 1], st) && run[i] == Apply(run[i - 1], st);
    }
  }

  /** In every run a task that waits and is not parked has exactly one step of its own to take: the look or, after
      it, the registration. */
  lemma CanGoOn(run: seq<Sys>, i: nat, t: Tid)
    requires IsRun(run) && i < |run| && t in run[i].tasks
    ensures Enabled(run[i], Look(t)) <==> run[i].tasks[t].phase.Runnable?
    ensures Enabled(run[i], Enlist(t)) <==> run[i].tasks[t].phase.Unsettled?
  {
    RunAwaitsKnown(run, i);
  }
}
