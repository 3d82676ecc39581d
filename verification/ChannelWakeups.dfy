/**
 Wakeups of async channel operations on a single-threaded executor.

 A task runs from one suspension to the next in one step, so that checking the
 channel and parking is atomic. `notify_one` wakes one parked waiter or stores
 one permit. Every step here is a step of `ChannelRuns`, so its results apply.
 */
module ChannelWakeups {
  import opened Common
  import opened Channel
  import opened ChannelRuns

  datatype Async = Async(sys: Sys, takers: Notify, putters: Notify)

  /** Payload 0 stands for nil, which a taker mistakes for a closed channel. */
  predicate IsNil(v: Payload) {
    v == 0
  }

  function Resume(n: Notify, id: Id): Notify {
    n.(woken := n.woken - {id})
  }

  /** Await the signal: a stored permit only makes its owner look again, in vain. */
  function Park(n: Notify, id: Id): Notify {
    n.(permit := false, parked := n.parked + [id])
  }

  predicate Parked(a: Async, id: Id) {
    id in a.takers.parked || id in a.putters.parked
  }

  predicate Can(a: Async, act: Action) {
    Enabled(a.sys, act) && (act.Run? ==> !Parked(a, act.id))
  }

  function PollTake(a: Async, id: Id): Async {
    var sys := RunTake(a.sys, id);
    var takers := Resume(a.takers, id);
    match TryTake(a.sys.ch).1
    case Got(item) => Async(sys, if IsNil(item.v) then NotifyOne(takers) else takers, NotifyOne(a.putters))
    case Drained => Async(sys, NotifyOne(takers), a.putters)
    case WouldBlock => Async(sys, Park(takers, id), a.putters)
  }

  function PollPutBuffered(a: Async, id: Id, v: Payload): Async {
    var sys := RunPutBuffered(a.sys, id, v);
    var putters := Resume(a.putters, id);
    match TryPut(a.sys.ch, Item(id, v)).1
    case Accepted => Async(sys, NotifyOne(a.takers), putters)
    case Refused => Async(sys, a.takers, putters)
    case Full => Async(sys, a.takers, Park(putters, id))
  }

  /** A successful offer is followed, in the same step, by a status check that
      finds it waiting, and by parking. */
  function PollOffer(a: Async, id: Id, v: Payload): Async {
    var sys := RunOffer(a.sys, id, v);
    var putters := Resume(a.putters, id);
    match RvOffer(a.sys.ch, Item(id, v)).1
    case Offered(_) => Async(sys, NotifyOne(a.takers), Park(putters, id))
    case OfferClosed => Async(sys, a.takers, putters)
    case OfferFull => Async(sys, a.takers, Park(putters, id))
  }

  function PollStatus(a: Async, id: Id, v: Payload, token: nat): Async {
    var sys := RunStatus(a.sys, id, v, token);
    var putters := Resume(a.putters, id);
    match RvStatus(a.sys.ch, token).1
    case Taken => Async(sys, a.takers, putters)
    case ClosedUntaken => Async(sys, a.takers, putters)
    case Waiting => Async(sys, a.takers, Park(putters, id))
  }

  function Poll(a: Async, id: Id): Async
    requires Can(a, Run(id))
  {
    match a.sys.tasks[id]
    case Taking => PollTake(a, id)
    case Putting(v) => if a.sys.ch.capacity == 0 then PollOffer(a, id, v) else PollPutBuffered(a, id, v)
    case Pending(v, token, _) => PollStatus(a, id, v, token)
  }

  function Do(a: Async, act: Action): Async
    requires Can(a, act)
  {
    match act
    case Run(id) => Poll(a, id)
    case CloseIt => Async(Apply(a.sys, act), NotifyOne(a.takers), NotifyOne(a.putters))
    case _ => a.(sys := Apply(a.sys, act))
  }

  function Start(capacity: nat): Async {
    Async(Init(capacity), Notify(false, [], {}), Notify(false, [], {}))
  }

  ghost predicate AsyncNext(a: Async, a': Async) {
    exists act :: Can(a, act) && a' == Do(a, act)
  }

  ghost predicate IsAsyncRun(capacity: nat, run: seq<Async>) {
    |run| > 0 && run[0] == Start(capacity) &&
    forall i :: 0 <= i < |run| - 1 ==> AsyncNext(run[i], run[i + 1])
  }

  // ---- Every async step is a step of the free interleaving ----

  lemma DoIsApply(a: Async, act: Action)
    requires Can(a, act)
    ensures Do(a, act).sys == Apply(a.sys, act)
  {
  }

  /** So conservation and exactness hold of async runs. */
  lemma AsyncRunIsExec(capacity: nat, run: seq<Async>, states: seq<Sys>)
    requires IsAsyncRun(capacity, run) && |states| == |run|
    requires forall i :: 0 <= i < |run| ==> states[i] == run[i].sys && NoWrap(states[i])
    ensures IsExec(capacity, states)
  {
    forall i | 0 <= i < |states| - 1 ensures NoWrap(states[i]) && Next(states[i], states[i + 1]) {
      assert AsyncNext(run[i], run[i + 1]);
      var act :| Can(run[i], act) && run[i + 1] == Do(run[i], act);
      DoIsApply(run[i], act);
      assert states[i + 1] == Apply(states[i], act);
    }
  }

  // ---- The wakeup invariant ----

  ghost function ToSet(s: seq<Id>): set<Id> {
    set id | id in s
  }

  ghost function Members(n: Notify): set<Id> {
    ToSet(n.parked) + n.woken
  }

  /** A permit is stored only while nobody is parked, and no waiter is listed
      twice. */
  ghost predicate SignalOk(n: Notify) {
    (n.permit ==> n.parked == []) && |Members(n)| == |n.parked| + |n.woken|
  }

  /** Waiters are unfinished operations of the right kind. */
  ghost predicate TakersLive(members: set<Id>, tasks: map<Id, Task>) {
    forall id :: id in members ==> id in tasks && tasks[id].Taking?
  }

  ghost predicate PuttersLive(members: set<Id>, tasks: map<Id, Task>) {
    forall id :: id in members ==> id in tasks && (tasks[id].Putting? || tasks[id].Pending?)
  }

  ghost predicate WaitersLive(a: Async) {
    TakersLive(Members(a.takers), a.sys.tasks) && PuttersLive(Members(a.putters), a.sys.tasks)
  }

  /** If a taker is parked, the woken takers cover the queued values, with one
      to spare once the channel is closed. */
  ghost predicate TakersCovered(a: Async) {
    a.takers.parked != [] ==>
      |a.sys.ch.queue| + (if a.sys.ch.closed then 1 else 0) <= |a.takers.woken|
  }

  /** If a putter is parked on an open buffered channel, the woken putters cover
      the free slots. */
  ghost predicate PuttersCovered(a: Async) {
    a.putters.parked != [] && a.sys.ch.capacity > 0 && !a.sys.ch.closed ==>
      a.sys.ch.capacity - |a.sys.ch.queue| <= |a.putters.woken|
  }

  ghost predicate WakeInv(a: Async) {
    SignalOk(a.takers) && SignalOk(a.putters) && WaitersLive(a) && TakersCovered(a) && PuttersCovered(a)
  }

  lemma {:induction false} ToSetCard(s: seq<Id>)
    ensures |ToSet(s)| <= |s|
  {
    if s != [] {
      ToSetCard(s[1..]);
      assert ToSet(s) == {s[0]} + ToSet(s[1..]);
    }
  }

  lemma UnionCard(a: set<Id>, b: set<Id>)
    ensures |a + b| <= |a| + |b|
  {
    assert a + b == a + (b - a);
    assert b == (b - a) + (b * a);
  }

  lemma HeadNotWoken(n: Notify)
    requires SignalOk(n) && n.parked != []
    ensures n.parked[0] !in n.woken
  {
    if n.parked[0] in n.woken {
      assert n.parked == [n.parked[0]] + n.parked[1..];
      assert Members(n) == ToSet(n.parked[1..]) + n.woken;
      ToSetCard(n.parked[1..]);
      UnionCard(ToSet(n.parked[1..]), n.woken);
    }
  }

  lemma ParkedNotWoken(n: Notify, id: Id)
    requires SignalOk(n) && id in n.parked
    ensures id !in n.woken
  {
    ToSetCard(n.parked);
    UnionCard(ToSet(n.parked) - {id}, n.woken);
    assert id in n.woken ==> Members(n) == (ToSet(n.parked) - {id}) + n.woken;
  }

  lemma NotifyOneOk(n: Notify)
    requires SignalOk(n)
    ensures var n' := NotifyOne(n);
      SignalOk(n') && Members(n') == Members(n) &&
      (n.parked != [] ==> |n'.woken| == |n.woken| + 1) && (n.parked == [] ==> n'.parked == [])
  {
    if n.parked != [] {
      HeadNotWoken(n);
      NotifyOneMembers(n);
    }
  }

  lemma NotifyOneMembers(n: Notify)
    requires n.parked != []
    ensures Members(NotifyOne(n)) == Members(n)
  {
    assert n.parked == [n.parked[0]] + n.parked[1..];
  }

  lemma ResumeOk(n: Notify, id: Id)
    requires SignalOk(n) && id !in n.parked
    ensures SignalOk(Resume(n, id)) && Members(Resume(n, id)) == Members(n) - {id}
    ensures |Resume(n, id).woken| >= |n.woken| - 1
  {
    if id !in n.woken {
      assert n.woken - {id} == n.woken;
    }
    assert Members(Resume(n, id)) == Members(n) - {id};
  }

  lemma ParkOk(n: Notify, id: Id)
    requires SignalOk(n) && id !in Members(n)
    ensures SignalOk(Park(n, id)) && Members(Park(n, id)) == Members(n) + {id}
  {
    assert Members(Park(n, id)) == Members(n) + {id};
  }

  lemma Untouched(members: set<Id>, tasks: map<Id, Task>, id: Id, t: Task)
    ensures TakersLive(members, tasks) && (t.Taking? || id !in members) ==> TakersLive(members, tasks[id := t])
    ensures PuttersLive(members, tasks) && (t.Putting? || t.Pending? || id !in members) ==>
      PuttersLive(members, tasks[id := t])
  {
  }

  lemma GotKeepsWake(a: Async, id: Id)
    requires WakeInv(a) && Can(a, Run(id)) && a.sys.tasks[id].Taking? && a.sys.ch.queue != []
    ensures WakeInv(PollTake(a, id))
  {
    var takers, done := Resume(a.takers, id), TakeDone(Some(a.sys.ch.queue[0]));
    var passed := if IsNil(a.sys.ch.queue[0].v) then NotifyOne(takers) else takers;
    ResumeOk(a.takers, id);
    NotifyOneOk(takers);
    assert SignalOk(passed) && Members(passed) == Members(takers);
    assert passed.parked != [] ==> |passed.woken| >= |a.takers.woken| - 1;
    NotifyOneOk(a.putters);
    Untouched(Members(takers), a.sys.tasks, id, done);
    Untouched(Members(a.putters), a.sys.tasks, id, done);
  }

  lemma DrainedKeepsWake(a: Async, id: Id)
    requires WakeInv(a) && Can(a, Run(id)) && a.sys.tasks[id].Taking? && a.sys.ch.queue == [] && a.sys.ch.closed
    ensures WakeInv(PollTake(a, id))
  {
    var takers := Resume(a.takers, id);
    ResumeOk(a.takers, id);
    NotifyOneOk(takers);
    Untouched(Members(takers), a.sys.tasks, id, TakeDone(None));
    Untouched(Members(a.putters), a.sys.tasks, id, TakeDone(None));
  }

  lemma PollTakeKeeps(a: Async, id: Id)
    requires WakeInv(a) && Can(a, Run(id)) && a.sys.tasks[id].Taking?
    ensures WakeInv(PollTake(a, id))
  {
    if a.sys.ch.queue != [] {
      GotKeepsWake(a, id);
    } else if a.sys.ch.closed {
      DrainedKeepsWake(a, id);
    } else {
      ResumeOk(a.takers, id);
      ParkOk(Resume(a.takers, id), id);
    }
  }

  /** A put that ends without filling a slot of an open buffer. */
  lemma PutEndsKeepsWake(a: Async, id: Id, t: Task)
    requires WakeInv(a) && Can(a, Run(id)) && !a.sys.tasks[id].Taking? && t.PutDone?
    requires a.sys.ch.capacity == 0 || a.sys.ch.closed
    ensures WakeInv(Async(a.sys.(tasks := a.sys.tasks[id := t]), a.takers, Resume(a.putters, id)))
  {
    ResumeOk(a.putters, id);
    Untouched(Members(a.takers), a.sys.tasks, id, t);
    Untouched(Members(Resume(a.putters, id)), a.sys.tasks, id, t);
  }

  lemma AcceptedKeepsWake(a: Async, id: Id)
    requires WakeInv(a) && Can(a, Run(id)) && a.sys.tasks[id].Putting?
    requires !a.sys.ch.closed && |a.sys.ch.queue| < a.sys.ch.capacity
    ensures WakeInv(PollPutBuffered(a, id, a.sys.tasks[id].v))
  {
    var putters, done := Resume(a.putters, id), PutDone(a.sys.tasks[id].v, true);
    ResumeOk(a.putters, id);
    NotifyOneOk(a.takers);
    Untouched(Members(a.takers), a.sys.tasks, id, done);
    Untouched(Members(putters), a.sys.tasks, id, done);
  }

  lemma BackToParkKeepsWake(a: Async, id: Id)
    requires WakeInv(a) && Can(a, Run(id)) && (a.sys.tasks[id].Putting? || a.sys.tasks[id].Pending?)
    requires a.sys.ch.capacity > 0 ==> |a.sys.ch.queue| >= a.sys.ch.capacity
    ensures WakeInv(Async(a.sys, a.takers, Park(Resume(a.putters, id), id)))
  {
    ResumeOk(a.putters, id);
    ParkOk(Resume(a.putters, id), id);
  }

  lemma PollPutBufferedKeeps(a: Async, id: Id)
    requires WakeInv(a) && Can(a, Run(id)) && a.sys.tasks[id].Putting? && a.sys.ch.capacity > 0
    ensures WakeInv(PollPutBuffered(a, id, a.sys.tasks[id].v))
  {
    var v := a.sys.tasks[id].v;
    if a.sys.ch.closed {
      PutEndsKeepsWake(a, id, PutDone(v, false));
      assert PollPutBuffered(a, id, v) ==
        Async(a.sys.(tasks := a.sys.tasks[id := PutDone(v, false)]), a.takers, Resume(a.putters, id));
    } else if |a.sys.ch.queue| < a.sys.ch.capacity {
      AcceptedKeepsWake(a, id);
    } else {
      BackToParkKeepsWake(a, id);
      assert PollPutBuffered(a, id, v) == Async(a.sys, a.takers, Park(Resume(a.putters, id), id));
    }
  }

  lemma OfferedKeepsWake(a: Async, id: Id)
    requires WakeInv(a) && Can(a, Run(id)) && a.sys.tasks[id].Putting?
    requires a.sys.ch.capacity == 0 && !a.sys.ch.closed && a.sys.ch.queue == []
    ensures WakeInv(PollOffer(a, id, a.sys.tasks[id].v))
  {
    var putters, t := Resume(a.putters, id), Pending(a.sys.tasks[id].v, a.sys.ch.taken, |a.sys.log|);
    ResumeOk(a.putters, id);
    ParkOk(putters, id);
    NotifyOneOk(a.takers);
    Untouched(Members(a.takers), a.sys.tasks, id, t);
    Untouched(Members(putters), a.sys.tasks, id, t);
  }

  lemma PollOfferKeeps(a: Async, id: Id)
    requires WakeInv(a) && Can(a, Run(id)) && a.sys.tasks[id].Putting? && a.sys.ch.capacity == 0
    ensures WakeInv(PollOffer(a, id, a.sys.tasks[id].v))
  {
    if a.sys.ch.closed {
      PutEndsKeepsWake(a, id, PutDone(a.sys.tasks[id].v, false));
    } else if a.sys.ch.queue == [] {
      OfferedKeepsWake(a, id);
    } else {
      BackToParkKeepsWake(a, id);
    }
  }

  lemma CancelKeepsWake(a: Async, queue: seq<Item>)
    requires WakeInv(a) && a.sys.ch.capacity == 0 && |queue| <= |a.sys.ch.queue|
    ensures WakeInv(a.(sys := a.sys.(ch := a.sys.ch.(queue := queue))))
  {
  }

  lemma PollStatusKeeps(a: Async, id: Id)
    requires WakeInv(a) && Can(a, Run(id)) && a.sys.tasks[id].Pending? && a.sys.ch.capacity == 0
    ensures WakeInv(Poll(a, id))
  {
    var t := a.sys.tasks[id];
    var (ch, r) := RvStatus(a.sys.ch, t.token);
    match r
    case Taken => PutEndsKeepsWake(a, id, PutDone(t.v, true));
    case ClosedUntaken =>
      PutEndsKeepsWake(a, id, PutDone(t.v, false));
      CancelKeepsWake(Async(a.sys.(tasks := a.sys.tasks[id := PutDone(t.v, false)]), a.takers, Resume(a.putters, id)),
                      ch.queue);
    case Waiting => BackToParkKeepsWake(a, id);
  }

  /** Offers are made on rendezvous channels only. */
  ghost predicate ModeOk(s: Sys) {
    forall id :: id in s.tasks && s.tasks[id].Pending? ==> s.ch.capacity == 0
  }

  lemma PollKeeps(a: Async, id: Id)
    requires WakeInv(a) && ModeOk(a.sys) && Can(a, Run(id))
    ensures WakeInv(Poll(a, id))
  {
    match a.sys.tasks[id]
    case Taking => PollTakeKeeps(a, id);
    case Putting(_) => if a.sys.ch.capacity == 0 { PollOfferKeeps(a, id); } else { PollPutBufferedKeeps(a, id); }
    case Pending(_, _, _) => PollStatusKeeps(a, id);
  }

  lemma CloseKeepsWake(a: Async)
    requires WakeInv(a)
    ensures WakeInv(Do(a, CloseIt))
  {
    NotifyOneOk(a.takers);
    NotifyOneOk(a.putters);
  }

  lemma SpawnKeepsWake(a: Async, id: Id, t: Task)
    requires WakeInv(a) && id !in a.sys.tasks
    ensures WakeInv(a.(sys := a.sys.(tasks := a.sys.tasks[id := t])))
  {
    Untouched(Members(a.takers), a.sys.tasks, id, t);
    Untouched(Members(a.putters), a.sys.tasks, id, t);
  }

  lemma ApplyKeepsMode(s: Sys, act: Action)
    requires ModeOk(s) && Enabled(s, act)
    ensures ModeOk(Apply(s, act)) && Apply(s, act).ch.capacity == s.ch.capacity
  {
  }

  lemma DoKeeps(a: Async, act: Action)
    requires WakeInv(a) && ModeOk(a.sys) && Can(a, act)
    ensures WakeInv(Do(a, act))
  {
    match act
    case Run(id) => PollKeeps(a, id);
    case CloseIt => CloseKeepsWake(a);
    case SpawnPut(id, v) => SpawnKeepsWake(a, id, Putting(v));
    case SpawnTake(id) => SpawnKeepsWake(a, id, Taking);
  }

  lemma {:induction false} RunInv(capacity: nat, run: seq<Async>, i: nat)
    requires IsAsyncRun(capacity, run) && i < |run|
    ensures WakeInv(run[i]) && ModeOk(run[i].sys) && run[i].sys.ch.capacity == capacity
  {
    if i > 0 {
      RunInv(capacity, run, i - 1);
      assert AsyncNext(run[i - 1], run[i]);
      var act :| Can(run[i - 1], act) && run[i] == Do(run[i - 1], act);
      DoKeeps(run[i - 1], act);
      DoIsApply(run[i - 1], act);
      ApplyKeepsMode(run[i - 1].sys, act);
    }
  }

  // ---- Main results ----

  /** Nothing can run: every unfinished operation is parked. */
  ghost predicate Quiescent(a: Async) {
    forall id :: id in a.sys.tasks && Live(a.sys.tasks[id]) ==> Parked(a, id)
  }

  lemma QuiescentWoken(a: Async)
    requires WakeInv(a) && Quiescent(a)
    ensures a.takers.woken == {} && a.putters.woken == {}
  {
    forall id ensures id !in a.takers.woken && id !in a.putters.woken {
      assert id in a.takers.woken ==> id in Members(a.takers);
      assert id in a.putters.woken ==> id in Members(a.putters);
      assert id in a.takers.parked ==> id in Members(a.takers);
      assert id in a.putters.parked ==> id in Members(a.putters);
      if id in a.takers.parked { ParkedNotWoken(a.takers, id); }
      if id in a.putters.parked { ParkedNotWoken(a.putters, id); }
    }
  }

  /** Takers lose no wakeup: in every run, while a taker is parked the woken
      takers outnumber or match the queued values, strictly once closed; so no
      quiescent state has a parked taker beside a value or a closed channel. */
  lemma NoLostTake(capacity: nat, run: seq<Async>, i: nat)
    requires IsAsyncRun(capacity, run) && i < |run| && run[i].takers.parked != []
    ensures |run[i].sys.ch.queue| <= |run[i].takers.woken|
    ensures run[i].sys.ch.closed ==> |run[i].sys.ch.queue| < |run[i].takers.woken|
    ensures Quiescent(run[i]) ==> run[i].sys.ch.queue == [] && !run[i].sys.ch.closed
  {
    RunInv(capacity, run, i);
    if Quiescent(run[i]) {
      QuiescentWoken(run[i]);
    }
  }

  /** The dual for putters, on an open buffered channel. */
  lemma NoLostPut(capacity: nat, run: seq<Async>, i: nat)
    requires IsAsyncRun(capacity, run) && i < |run| && run[i].putters.parked != []
    requires capacity > 0 && !run[i].sys.ch.closed
    ensures capacity - |run[i].sys.ch.queue| <= |run[i].putters.woken|
    ensures Quiescent(run[i]) ==> |run[i].sys.ch.queue| >= capacity
  {
    RunInv(capacity, run, i);
    if Quiescent(run[i]) {
      QuiescentWoken(run[i]);
    }
  }
}
