/**
 Tasks in `(await agent)`. Such a task looks at the agent when it is polled, and
 unless the agent is idle or failed it leaves its waker with the agent and parks. A
 drainer wakes all of them when it retires, with the mailbox empty or the agent
 failed. A task may be polled at any time, and then leaves its waker once more.
 */
module AgentAwait {
  import opened Common
  import opened Agent
  import opened AgentRuns

  type Id = nat

  /** The agent, the wakers left with it, the tasks waiting, and those among them that are
      going to be polled. */
  datatype Hall<S, A, E> = Hall(w: World<S, A, E>, wakers: seq<Id>, waiting: set<Id>, woken: set<Id>)

  datatype Move<S, A> = Act(step: Step<S, A>) | Arrive(id: Id) | Poll(id: Id)

  function Open<S, A, E>(init: S): Hall<S, A, E> {
    Hall(Start(init), [], {}, {})
  }

  predicate Idle<S, A, E>(w: World<S, A, E>) {
    !w.box.draining && |w.box.queue| == 0
  }

  /** The steps at whose end a drainer retires. */
  predicate Retires<S, A, E>(b: Behaviour<S, A, E>, w: World<S, A, E>, step: Step<S, A>) {
    match step
    case Send(_, _) => false
    case Restart(_, _, _) => false
    case AwaitNow(context, _) => context && !w.box.draining && |w.box.queue| > 0
    case TaskStep(i) =>
      i < |w.tasks| &&
      match w.tasks[i]
      case Ready => |w.box.queue| == 0
      case Running(a, prev) => Failure(b, a, prev).Some?
  }

  function Known(ids: seq<Id>): set<Id> {
    set i | 0 <= i < |ids| :: ids[i]
  }

  function NotifyIdle<S, A, E>(h: Hall<S, A, E>): Hall<S, A, E> {
    h.(wakers := [], woken := h.woken + (Known(h.wakers) * h.waiting))
  }

  function DoPoll<S, A, E>(h: Hall<S, A, E>, id: Id): Hall<S, A, E> {
    if id !in h.waiting then h
    else if Idle(h.w) || h.w.box.error.Some? then h.(waiting := h.waiting - {id}, woken := h.woken - {id})
    else h.(wakers := h.wakers + [id], woken := h.woken - {id})
  }

  function Do<S, A, E>(b: Behaviour<S, A, E>, h: Hall<S, A, E>, move: Move<S, A>): Hall<S, A, E> {
    match move
    case Act(step) =>
      var h' := h.(w := Next(b, h.w, step));
      if Retires(b, h.w, step) then NotifyIdle(h') else h'
    case Arrive(id) => h.(waiting := h.waiting + {id}, woken := h.woken + {id})
    case Poll(id) => DoPoll(h, id)
  }

  function Play<S, A, E>(b: Behaviour<S, A, E>, h: Hall<S, A, E>, moves: seq<Move<S, A>>): Hall<S, A, E> {
    if |moves| == 0 then h else Do(b, Play(b, h, moves[..|moves| - 1]), moves[|moves| - 1])
  }

  /** The steps of the agent in a play. */
  function StepsOf<S, A>(moves: seq<Move<S, A>>): seq<Step<S, A>> {
    if |moves| == 0 then []
    else
      var last := moves[|moves| - 1];
      StepsOf(moves[..|moves| - 1]) + if last.Act? then [last.step] else []
  }

  predicate Parked<S, A, E>(h: Hall<S, A, E>, id: Id) {
    id in h.waiting && id !in h.woken
  }

  /** The tasks waiting do not touch the agent. */
  lemma {:induction false} PlayIsRun<S, A, E>(b: Behaviour<S, A, E>, init: S, moves: seq<Move<S, A>>)
    ensures Play(b, Open(init), moves).w == Run(b, Start(init), StepsOf(moves))
  {
    if |moves| > 0 {
      var before, last := moves[..|moves| - 1], moves[|moves| - 1];
      PlayIsRun(b, init, before);
      if last.Act? {
        var steps := StepsOf(before) + [last.step];
        assert steps[..|steps| - 1] == StepsOf(before);
      } else {
        assert StepsOf(before) + [] == StepsOf(before);
      }
    }
  }

  /** A parked task has its waker with the agent, and somebody will drain or the actions are stranded. */
  ghost predicate Owed<S, A, E>(h: Hall<S, A, E>) {
    forall id :: Parked(h, id) ==> id in h.wakers && (|h.w.tasks| == 1 || Stranded(h.w))
  }

  lemma AgentKeeps<S, A, E>(b: Behaviour<S, A, E>, init: S, h: Hall<S, A, E>, step: Step<S, A>)
    requires Owed(h) && Inv(b, init, h.w)
    ensures Owed(Do(b, h, Act(step)))
  {
    var h' := Do(b, h, Act(step));
    forall id | Parked(h', id) ensures id in h'.wakers && (|h'.w.tasks| == 1 || Stranded(h'.w)) {
      assert Parked(h, id) && id in Known(h.wakers);
      assert !Retires(b, h.w, step);
    }
  }

  lemma PollKeeps<S, A, E>(b: Behaviour<S, A, E>, init: S, h: Hall<S, A, E>, id: Id)
    requires Owed(h) && Inv(b, init, h.w)
    ensures Owed(DoPoll(h, id))
  {
    var h' := DoPoll(h, id);
    forall k | Parked(h', k) ensures k in h'.wakers && (|h'.w.tasks| == 1 || Stranded(h'.w)) {
      assert k == id || Parked(h, k);
    }
  }

  lemma {:induction false} PlayKeeps<S, A, E>(b: Behaviour<S, A, E>, init: S, moves: seq<Move<S, A>>)
    ensures Owed(Play(b, Open(init), moves))
  {
    if |moves| > 0 {
      var before := moves[..|moves| - 1];
      var h := Play(b, Open(init), before);
      PlayKeeps(b, init, before);
      PlayIsRun(b, init, before);
      RunKeeps(b, init, StepsOf(before));
      match moves[|moves| - 1]
      case Act(step) => AgentKeeps(b, init, h, step);
      case Arrive(id) =>
        assert forall k :: Parked(Do(b, h, Arrive(id)), k) ==> Parked(h, k);
      case Poll(id) => PollKeeps(b, init, h, id);
    }
  }

  /** Wherever tasks are parked, a drainer exists if and only if the actions are not stranded; so at rest
      nobody waits on an agent whose actions are not. */
  lemma AwaiterOwed<S, A, E>(b: Behaviour<S, A, E>, init: S, moves: seq<Move<S, A>>, id: Id)
    requires Parked(Play(b, Open(init), moves), id)
    ensures var h := Play(b, Open<S, A, E>(init), moves);
      id in h.wakers && h.w.box.error.None? && (|h.w.tasks| == 1 <==> !Stranded(h.w))
  {
    PlayKeeps(b, init, moves);
    PlayIsRun(b, init, moves);
    RunKeeps(b, init, StepsOf(moves));
  }

  /** When every caller that queues has a context, a parked task always has a drainer to wake it. */
  lemma AwaiterNeverForgotten<S, A, E>(b: Behaviour<S, A, E>, init: S, moves: seq<Move<S, A>>, id: Id)
    requires forall i :: 0 <= i < |StepsOf(moves)| ==>
      var step := StepsOf(moves)[i]; step.TaskStep? || step.AwaitNow? || step.context
    requires Parked(Play(b, Open(init), moves), id)
    ensures |Play(b, Open<S, A, E>(init), moves).w.tasks| == 1
  {
    AwaiterOwed(b, init, moves, id);
    PlayIsRun(b, init, moves);
    NeverStranded(b, init, StepsOf(moves));
  }

  /** A retiring drainer wakes every task, and finds the agent as they wait for it. */
  lemma RetiringWakes<S, A, E>(b: Behaviour<S, A, E>, init: S, moves: seq<Move<S, A>>, step: Step<S, A>)
    requires Retires(b, Play(b, Open(init), moves).w, step)
    ensures var h := Do(b, Play(b, Open<S, A, E>(init), moves), Act(step));
      (forall id :: !Parked(h, id)) && (Idle(h.w) || h.w.box.error.Some?)
  {
    var h := Play(b, Open<S, A, E>(init), moves);
    PlayKeeps(b, init, moves);
    PlayIsRun(b, init, moves);
    RunKeeps(b, init, StepsOf(moves));
    RetiresFree(b, init, h.w, step);
    forall id ensures !Parked(Do(b, h, Act(step)), id) {
      assert Parked(h, id) ==> id in Known(h.wakers);
    }
  }

  lemma RetiresFree<S, A, E>(b: Behaviour<S, A, E>, init: S, w: World<S, A, E>, step: Step<S, A>)
    requires Inv(b, init, w) && Retires(b, w, step)
    ensures Idle(Next(b, w, step)) || Next(b, w, step).box.error.Some?
  {
    if step.AwaitNow? {
      InlineKeeps(b, init, w, step.script);
      InlineEnds(b, w, step.script);
    }
  }

  /** On an action sent without a context a task waits, and nobody is going to wake it. */
  lemma AwaiterForgotten<S, A, E>(b: Behaviour<S, A, E>, init: S, a: A, id: Id)
    ensures var h := Play(b, Open<S, A, E>(init), [Act(Send(a, false)), Arrive(id), Poll(id)]);
      Parked(h, id) && h.w.tasks == [] && Stranded(h.w)
  {
    var send, arrive, poll := Act(Send(a, false)), Arrive(id), Poll(id);
    var h0 := Open<S, A, E>(init);
    var moves := [send, arrive, poll];
    assert moves[..2] == [send, arrive] && moves[..2][..1] == [send] && [send][..0] == [];
    assert Play(b, h0, [send]) == Do(b, h0, send);
    assert Play(b, h0, [send, arrive]) == Do(b, Do(b, h0, send), arrive);
  }

  /** In every run, a task that is polled is released if and only if the agent has failed, or has no drainer and
      nothing queued. */
  lemma ReleasedExactly<S, A, E>(b: Behaviour<S, A, E>, init: S, moves: seq<Move<S, A>>, id: Id)
    requires id in Play(b, Open<S, A, E>(init), moves).waiting
    ensures var h := Play(b, Open<S, A, E>(init), moves);
      id !in Do(b, h, Poll(id)).waiting <==> h.w.box.error.Some? || (h.w.tasks == [] && h.w.box.queue == [])
  {
    PlayIsRun(b, init, moves);
    RunKeeps(b, init, StepsOf(moves));
  }
}
