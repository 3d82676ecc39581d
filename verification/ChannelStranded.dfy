/**
 Where async puts do lose wakeups. A take that sees nil passes its wakeup on;
 a put never does. So a close releases one parked put only, and on a rendezvous
 channel the wakeup for a freed slot can be spent on the put whose value was
 taken. Each failure is shown by a run, with the exact condition that avoids it.
 */
module ChannelStranded {
  import opened Common
  import opened Channel
  import opened ChannelRuns
  import opened ChannelWakeups

  ghost predicate Possible(a: Async, acts: seq<Action>)
    decreases |acts|
  {
    acts == [] || (Can(a, acts[0]) && Possible(Do(a, acts[0]), acts[1..]))
  }

  ghost function After(a: Async, acts: seq<Action>): Async
    requires Possible(a, acts)
    decreases |acts|
  {
    if acts == [] then a else After(Do(a, acts[0]), acts[1..])
  }

  // ---- Close ----

  predicate TakesValue(a: Async, act: Action)
    requires Can(a, act)
  {
    act.Run? && a.sys.tasks[act.id].Taking? && a.sys.ch.queue != []
  }

  /** The actions that wake a put: values taken, and closes. */
  ghost function Wakes(a: Async, acts: seq<Action>): nat
    requires Possible(a, acts)
    decreases |acts|
  {
    if acts == [] then 0
    else (if acts[0] == CloseIt || TakesValue(a, acts[0]) then 1 else 0) + Wakes(Do(a, acts[0]), acts[1..])
  }

  function DropFirst<T>(s: seq<T>, n: nat): seq<T> {
    if n >= |s| then [] else s[n..]
  }

  /** On a closed channel no put parks again, and each waking action releases one. */
  lemma ClosedStep(a: Async, act: Action)
    requires a.sys.ch.closed && Can(a, act)
    ensures Do(a, act).sys.ch.closed
    ensures Do(a, act).putters.parked == DropFirst(a.putters.parked, Wakes(a, [act]))
  {
    assert Wakes(Do(a, act), []) == 0;
    assert [act][1..] == [];
  }

  lemma {:induction false} ClosedRun(a: Async, acts: seq<Action>)
    requires a.sys.ch.closed && Possible(a, acts)
    ensures After(a, acts).putters.parked == DropFirst(a.putters.parked, Wakes(a, acts))
    decreases |acts|
  {
    if acts != [] {
      ClosedStep(a, acts[0]);
      ClosedRun(Do(a, acts[0]), acts[1..]);
      assert Wakes(Do(a, acts[0]), []) == 0 && [acts[0]][1..] == [];
    }
  }

  /** Whatever happens after a close, the puts parked before it are released in arrival order,
      one for the close and one for each value taken and each further close: all of them if and
      only if there were no more than that. */
  lemma CloseReleases(a: Async, acts: seq<Action>)
    requires Possible(Do(a, CloseIt), acts)
    ensures var parked, woken := After(Do(a, CloseIt), acts).putters.parked, 1 + Wakes(Do(a, CloseIt), acts);
      parked == DropFirst(a.putters.parked, woken) && (parked == [] <==> |a.putters.parked| <= woken)
  {
    ClosedRun(Do(a, CloseIt), acts);
  }

  // ---- Rendezvous ----

  /** The states of a run of two puts and two takes on one rendezvous channel. */
  function StuckAt(ch: Chan<Item>, tasks: map<Id, Task>, log: seq<(Id, Item)>, takers: Notify, putters: Notify): Async {
    Async(Sys(ch, tasks, [Item(1, 7)], log, []), takers, putters)
  }

  const SPAWNED := Async(
    Sys(New(0), map[1 := Putting(7), 2 := Putting(8), 3 := Taking, 4 := Taking], [], [], []),
    Notify(false, [], {}), Notify(false, [], {}))
  const OFFER_MADE := StuckAt(Chan([Item(1, 7)], 0, false, 0),
    map[1 := Pending(7, 0, 0), 2 := Putting(8), 3 := Taking, 4 := Taking], [],
    Notify(true, [], {}), Notify(false, [1], {}))
  const SECOND_PARKED := OFFER_MADE.(putters := Notify(false, [1, 2], {}))
  const HANDED_OVER := StuckAt(Chan([], 0, false, 1),
    map[1 := Pending(7, 0, 0), 2 := Putting(8), 3 := TakeDone(Some(Item(1, 7))), 4 := Taking], [(3, Item(1, 7))],
    Notify(true, [], {}), Notify(false, [2], {1}))
  const FIRST_DONE := StuckAt(Chan([], 0, false, 1),
    map[1 := PutDone(7, true), 2 := Putting(8), 3 := TakeDone(Some(Item(1, 7))), 4 := Taking], [(3, Item(1, 7))],
    Notify(true, [], {}), Notify(false, [2], {}))
  const STUCK := FIRST_DONE.(takers := Notify(false, [4], {}))

  lemma StuckSpawns() returns (a1: Async, a2: Async, a3: Async)
    ensures TwoPuts(a1) && TwoPuts(a2) && TwoPuts(a3) && TwoPuts(SPAWNED)
    ensures AsyncNext(Start(0), a1) && AsyncNext(a1, a2) && AsyncNext(a2, a3) && AsyncNext(a3, SPAWNED)
  {
    a1 := Do(Start(0), SpawnPut(1, 7));
    a2 := Do(a1, SpawnPut(2, 8));
    a3 := Do(a2, SpawnTake(3));
    assert Can(Start(0), SpawnPut(1, 7)) && Can(a1, SpawnPut(2, 8)) && Can(a2, SpawnTake(3));
    assert Can(a3, SpawnTake(4)) && Do(a3, SpawnTake(4)) == SPAWNED;
  }

  lemma StuckOffer()
    ensures AsyncNext(SPAWNED, OFFER_MADE) && TwoPuts(OFFER_MADE)
  {
    assert Can(SPAWNED, Run(1));
    assert Resume(SPAWNED.putters, 1) == SPAWNED.putters;
    assert Do(SPAWNED, Run(1)) == OFFER_MADE;
  }

  lemma StuckSecond()
    ensures AsyncNext(OFFER_MADE, SECOND_PARKED) && TwoPuts(SECOND_PARKED)
  {
    assert Can(OFFER_MADE, Run(2));
    assert Resume(OFFER_MADE.putters, 2) == OFFER_MADE.putters;
    assert Do(OFFER_MADE, Run(2)) == SECOND_PARKED;
  }

  lemma StuckHandover()
    ensures AsyncNext(SECOND_PARKED, HANDED_OVER) && TwoPuts(HANDED_OVER)
  {
    assert Can(SECOND_PARKED, Run(3));
    assert Resume(SECOND_PARKED.takers, 3) == SECOND_PARKED.takers;
    assert NotifyOne(SECOND_PARKED.putters) == Notify(false, [2], {1});
    assert Do(SECOND_PARKED, Run(3)) == HANDED_OVER;
  }

  lemma StuckFirst()
    ensures AsyncNext(HANDED_OVER, FIRST_DONE) && TwoPuts(FIRST_DONE)
  {
    assert Can(HANDED_OVER, Run(1));
    assert Do(HANDED_OVER, Run(1)) == FIRST_DONE;
  }

  lemma StuckTake()
    ensures AsyncNext(FIRST_DONE, STUCK) && TwoPuts(STUCK)
  {
    assert Can(FIRST_DONE, Run(4));
    assert Resume(FIRST_DONE.takers, 4) == FIRST_DONE.takers;
    assert Do(FIRST_DONE, Run(4)) == STUCK;
  }

  /** A run of at most two puts at a time, none waiting long enough for the counter to wrap. */
  ghost predicate SmallRun(run: seq<Async>) {
    IsAsyncRun(0, run) && forall i :: 0 <= i < |run| ==> Small(run[i])
  }

  ghost predicate Small(a: Async) {
    AtMost(a, 2) && NoWrap(a.sys)
  }

  ghost predicate TwoPuts(a: Async) {
    |a.sys.log| <= 1 && forall id :: LivePut(a, id) ==> id == 1 || id == 2
  }

  lemma IsSmall(a: Async)
    requires TwoPuts(a)
    ensures Small(a)
  {
    var rest := {1, 2} - LivePuts(a);
    assert {1, 2} == LivePuts(a) + rest;
  }

  lemma Extend(run: seq<Async>, last: Async, next: Async) returns (run': seq<Async>)
    requires SmallRun(run) && run[|run| - 1] == last && AsyncNext(last, next)
    requires TwoPuts(next)
    ensures SmallRun(run') && run'[|run'| - 1] == next
  {
    run' := run + [next];
    IsSmall(next);
    forall i | 0 <= i < |run'| - 1 ensures AsyncNext(run'[i], run'[i + 1]) {
      assert i < |run| - 1 ==> AsyncNext(run[i], run[i + 1]);
    }
  }

  lemma StuckBegins() returns (run: seq<Async>)
    ensures SmallRun(run) && run[|run| - 1] == SPAWNED
  {
    var a1, a2, a3 := StuckSpawns();
    IsSmall(Start(0));
    run := Extend([Start(0)], Start(0), a1);
    run := Extend(run, a1, a2);
    run := Extend(run, a2, a3);
    run := Extend(run, a3, SPAWNED);
  }

  lemma ParkedRun() returns (run: seq<Async>)
    ensures SmallRun(run) && run[|run| - 1] == SECOND_PARKED
  {
    run := StuckBegins();
    StuckOffer();
    run := Extend(run, SPAWNED, OFFER_MADE);
    StuckSecond();
    run := Extend(run, OFFER_MADE, SECOND_PARKED);
  }

  lemma HandedRun() returns (run: seq<Async>)
    ensures SmallRun(run) && run[|run| - 1] == HANDED_OVER
  {
    run := ParkedRun();
    StuckHandover();
    run := Extend(run, SECOND_PARKED, HANDED_OVER);
  }

  lemma StuckRun() returns (run: seq<Async>)
    ensures SmallRun(run) && run[|run| - 1] == STUCK
  {
    run := HandedRun();
    StuckFirst();
    run := Extend(run, HANDED_OVER, FIRST_DONE);
    StuckTake();
    run := Extend(run, FIRST_DONE, STUCK);
  }

  /** The first value is handed over, and then a put and a take both wait for
      ever on an open channel whose slot is free. */
  lemma RendezvousStuck() returns (run: seq<Async>)
    ensures SmallRun(run)
    ensures var a := run[|run| - 1];
      Quiescent(a) && !a.sys.ch.closed && a.sys.ch.queue == [] &&
      a.putters.parked == [2] && a.takers.parked == [4]
  {
    run := StuckRun();
  }

  // ---- A close that strands a put ----

  const CLOSED_NOW := StuckAt(Chan([Item(1, 7)], 0, true, 0),
    map[1 := Pending(7, 0, 0), 2 := Putting(8), 3 := Taking, 4 := Taking], [],
    Notify(true, [], {}), Notify(false, [2], {1}))
  const CANCELLED := Async(
    Sys(Chan([], 0, true, 0), map[1 := PutDone(7, false), 2 := Putting(8), 3 := Taking, 4 := Taking],
        [Item(1, 7)], [], [(1, Item(1, 7))]),
    Notify(true, [], {}), Notify(false, [2], {}))
  const THIRD_DONE := CANCELLED.(sys := CANCELLED.sys.(tasks := CANCELLED.sys.tasks[3 := TakeDone(None)]))
  const ALL_DONE := THIRD_DONE.(sys := THIRD_DONE.sys.(tasks := THIRD_DONE.sys.tasks[4 := TakeDone(None)]))

  lemma CloseStep()
    ensures AsyncNext(SECOND_PARKED, CLOSED_NOW) && TwoPuts(CLOSED_NOW)
  {
    assert NotifyOne(SECOND_PARKED.putters) == Notify(false, [2], {1});
    assert Can(SECOND_PARKED, CloseIt) && Do(SECOND_PARKED, CloseIt) == CLOSED_NOW;
  }

  lemma CancelStep()
    ensures AsyncNext(CLOSED_NOW, CANCELLED) && TwoPuts(CANCELLED)
  {
    assert Can(CLOSED_NOW, Run(1));
    assert Resume(CLOSED_NOW.putters, 1) == Notify(false, [2], {});
    assert Do(CLOSED_NOW, Run(1)) == CANCELLED;
  }

  lemma DrainSteps()
    ensures AsyncNext(CANCELLED, THIRD_DONE) && TwoPuts(THIRD_DONE)
    ensures AsyncNext(THIRD_DONE, ALL_DONE) && TwoPuts(ALL_DONE)
  {
    assert Can(CANCELLED, Run(3)) && Can(THIRD_DONE, Run(4));
    assert Resume(CANCELLED.takers, 3) == CANCELLED.takers && Resume(THIRD_DONE.takers, 4) == THIRD_DONE.takers;
    assert Do(CANCELLED, Run(3)) == THIRD_DONE;
    assert Do(THIRD_DONE, Run(4)) == ALL_DONE;
  }

  lemma ClosedTwoRun() returns (run: seq<Async>)
    ensures SmallRun(run) && run[|run| - 1] == CANCELLED
  {
    run := ParkedRun();
    CloseStep();
    run := Extend(run, SECOND_PARKED, CLOSED_NOW);
    CancelStep();
    run := Extend(run, CLOSED_NOW, CANCELLED);
  }

  /** Two puts parked, then a close: everything else ends and the second put waits for ever. */
  lemma CloseStrandsPut() returns (run: seq<Async>)
    ensures SmallRun(run)
    ensures var a := run[|run| - 1];
      Quiescent(a) && a.sys.ch.closed && a.sys.ch.queue == [] && a.putters.parked == [2] && a.takers.parked == []
  {
    run := ClosedTwoRun();
    DrainSteps();
    run := Extend(run, CANCELLED, THIRD_DONE);
    run := Extend(run, THIRD_DONE, ALL_DONE);
  }

  // ---- One put at a time ----

  predicate LivePut(a: Async, id: Id) {
    id in a.sys.tasks && (a.sys.tasks[id].Putting? || a.sys.tasks[id].Pending?)
  }

  ghost function LivePuts(a: Async): set<Id> {
    set id | id in a.sys.tasks && LivePut(a, id)
  }

  /** At most `n` puts are unfinished. */
  ghost predicate AtMost(a: Async, n: nat) {
    |LivePuts(a)| <= n
  }

  lemma OneAtMost(a: Async, p: Id, q: Id)
    requires AtMost(a, 1) && LivePut(a, p) && LivePut(a, q)
    ensures p == q
  {
    var rest := LivePuts(a) - {p};
    assert LivePuts(a) == {p} + rest;
    assert rest == {};
    assert q in LivePuts(a) && q !in rest;
  }

  lemma OneParked(a: Async)
    requires WakeInv(a) && AtMost(a, 1)
    ensures |a.putters.parked| <= 1
  {
    if a.putters.parked != [] {
      var p := a.putters.parked[0];
      assert p in Members(a.putters);
      forall q | q in Members(a.putters) ensures q == p {
        OneAtMost(a, p, q);
      }
      assert Members(a.putters) == {p};
    }
  }

  lemma QueuedIsPending(s: Sys)
    requires Inv(s) && s.ch.capacity == 0 && s.ch.queue != []
    ensures s.ch.queue[0].putter in s.tasks && s.tasks[s.ch.queue[0].putter].Pending?
  {
    var n, p := |s.log|, s.ch.queue[0].putter;
    assert s.cancelled == [];
    assert s.accepted[n] == s.ch.queue[0];
    assert WasAccepted(s, p);
    if s.tasks[p].PutDone? {
      assert PutDoneOk(s, p);
      var k :| 0 <= k < |s.log| && s.log[k].1.putter == p;
      LogIsPrefix(s, k);
      assert false;
    }
  }

  /** A parked put on an open channel means that the slot is full. */
  ghost predicate SlotFull(a: Async) {
    a.putters.parked != [] && !a.sys.ch.closed ==> a.sys.ch.queue != []
  }

  lemma SoloStatusKeeps(a: Async, id: Id)
    requires SlotFull(a) && Inv(a.sys) && NoWrap(a.sys)
    requires Can(a, Run(id)) && a.sys.tasks[id].Pending?
    ensures SlotFull(Poll(a, id))
  {
    assert PendingOk(a.sys, id);
    if !a.sys.ch.closed && a.sys.ch.taken == a.sys.tasks[id].token {
      SameWord(a.sys.tasks[id].at, |a.sys.log|);
      PendingIsQueued(a.sys, id);
    }
  }

  lemma SoloKeeps(a: Async, act: Action)
    requires SlotFull(a) && |a.putters.parked| <= 1 && Inv(a.sys) && NoWrap(a.sys)
    requires a.sys.ch.capacity == 0 && Can(a, act)
    ensures SlotFull(Do(a, act))
  {
    if act.Run? {
      match a.sys.tasks[act.id] {
        case Taking => assert SlotFull(PollTake(a, act.id));
        case Putting(v) => assert SlotFull(PollOffer(a, act.id, v));
        case Pending(_, _, _) => SoloStatusKeeps(a, act.id);
      }
    }
  }

  ghost predicate Solo(a: Async) {
    AtMost(a, 1) && NoWrap(a.sys)
  }

  lemma SoloNext(a: Async, a': Async)
    requires WakeInv(a) && Solo(a) && SlotFull(a) && Inv(a.sys) && a.sys.ch.capacity == 0 && AsyncNext(a, a')
    ensures SlotFull(a') && Inv(a'.sys)
  {
    var act :| Can(a, act) && a' == Do(a, act);
    SoloStep(a, act);
  }

  lemma {:induction false} SoloInv(run: seq<Async>, i: nat)
    requires IsAsyncRun(0, run) && i < |run|
    requires forall j :: 0 <= j <= i ==> Solo(run[j])
    ensures SlotFull(run[i]) && Inv(run[i].sys)
  {
    if i == 0 {
      SoloStart();
    } else {
      SoloInv(run, i - 1);
      SoloAfter(run, i - 1);
    }
  }

  lemma SoloStart()
    ensures SlotFull(Start(0)) && Inv(Start(0).sys)
  {
  }

  lemma SoloAfter(run: seq<Async>, i: nat)
    requires IsAsyncRun(0, run) && i + 1 < |run| && Solo(run[i]) && SlotFull(run[i]) && Inv(run[i].sys)
    ensures SlotFull(run[i + 1]) && Inv(run[i + 1].sys)
  {
    RunInv(0, run, i);
    SoloNext(run[i], run[i + 1]);
  }

  lemma SoloStep(a: Async, act: Action)
    requires WakeInv(a) && AtMost(a, 1) && SlotFull(a) && Inv(a.sys) && NoWrap(a.sys)
    requires a.sys.ch.capacity == 0 && Can(a, act)
    ensures SlotFull(Do(a, act)) && Inv(Do(a, act).sys)
  {
    OneParked(a);
    SoloKeeps(a, act);
    DoIsApply(a, act);
    StepKeeps(a.sys, act);
  }

  /** With one put at a time the rendezvous loses no wakeup: while the channel is
      open, a parked put is the one whose value is in the slot. With two, the run
      of `RendezvousStuck` loses one. */
  lemma SoloPutNotStranded(run: seq<Async>, i: nat, id: Id)
    requires IsAsyncRun(0, run) && i < |run|
    requires forall j :: 0 <= j <= i ==> Solo(run[j])
    requires id in run[i].putters.parked && !run[i].sys.ch.closed
    ensures id in run[i].sys.tasks && run[i].sys.tasks[id].Pending?
    ensures run[i].sys.ch.queue == [Item(id, run[i].sys.tasks[id].v)]
  {
    var a := run[i];
    SoloInv(run, i);
    RunInv(0, run, i);
    QueuedIsPending(a.sys);
    assert id in Members(a.putters);
    OneAtMost(a, id, a.sys.ch.queue[0].putter);
    assert a.sys.accepted[|a.sys.log|] == a.sys.ch.queue[0];
  }

  /** Nothing can run, and a put waits on an open channel although the slot is free: a
      wakeup was lost. */
  ghost predicate Stuck(a: Async) {
    Quiescent(a) && !a.sys.ch.closed && a.sys.ch.queue == [] && a.putters.parked != []
  }

  ghost predicate NeverStuck(n: nat) {
    forall run: seq<Async>, i: nat ::
      IsAsyncRun(0, run) && i < |run| && (forall j :: 0 <= j <= i ==> AtMost(run[j], n) && NoWrap(run[j].sys))
      ==> !Stuck(run[i])
  }

  /** Callers that keep at most `n` puts going at a time are safe from a lost wakeup on an open
      rendezvous channel if and only if `n` is at most one. */
  lemma SafeUpToOne(n: nat)
    ensures NeverStuck(n) <==> n <= 1
  {
    if n <= 1 {
      forall run: seq<Async>, i: nat
        | IsAsyncRun(0, run) && i < |run| && (forall j :: 0 <= j <= i ==> AtMost(run[j], n) && NoWrap(run[j].sys))
        ensures !Stuck(run[i])
      {
        assert forall j :: 0 <= j <= i ==> Solo(run[j]);
        SoloInv(run, i);
      }
    } else {
      var run := RendezvousStuck();
      var i: nat := |run| - 1;
      assert forall j :: 0 <= j <= i ==> Small(run[j]);
      assert Stuck(run[i]);
    }
  }
}
