/**
 Every run of an agent on the executor: sends and restarts from anywhere,
 interleaved with the steps of whatever drainer tasks exist. A drainer's turn
 is two steps, taking an action and settling it, because the action may be
 awaited and may send in between.
 */
module AgentRuns {
  import opened Common
  import opened Agent

  datatype Task<S, A> = Ready | Running(a: A, prev: S)

  datatype Fate = Completed | WatchFailed | ActionFailed

  /** An action's turn, forced if the agent had failed; actions cleared; a restart. */
  datatype Event<S, A> =
    | Turn(a: A, fate: Fate, forced: bool)
    | Cleared(actions: seq<A>)
    | Restarted(s: S)

  /** The agent, its drainer tasks, and what happened: actions accepted, and their fates. */
  datatype World<S, A, E> = World(box: Mailbox<S, A, E>, tasks: seq<Task<S, A>>, sent: seq<A>, log: seq<Event<S, A>>)

  /** `context` is whether the caller has an evaluation context. An `await-agent` drains inline; the k-th
      action it takes sends `script[k]` to its own agent while it runs. */
  datatype Step<S, A> =
    | Send(a: A, context: bool)
    | Restart(s: S, clear: bool, context: bool)
    | AwaitNow(context: bool, script: seq<seq<A>>)
    | TaskStep(i: nat)

  function Start<S, A, E>(init: S): World<S, A, E> {
    World(Mailbox(init, None, [], false), [], [], [])
  }

  function Schedule<S, A, E>(w: World<S, A, E>): World<S, A, E> {
    if w.box.draining then w
    else w.(box := w.box.(draining := true), tasks := w.tasks + [Ready])
  }

  function DoSend<S, A, E>(w: World<S, A, E>, a: A, context: bool): World<S, A, E> {
    if w.box.error.Some? then w
    else
      var w' := w.(box := w.box.(queue := w.box.queue + [a]), sent := w.sent + [a]);
      if context then Schedule(w') else w'
  }

  function DoRestart<S, A, E>(w: World<S, A, E>, s: S, clear: bool, context: bool): World<S, A, E> {
    if w.box.error.None? then w
    else
      var queue := if clear then [] else w.box.queue;
      var cleared := if clear then [Cleared(w.box.queue)] else [];
      var w' := w.(box := w.box.(state := s, error := None, queue := queue), log := w.log + cleared + [Restarted(s)]);
      if |queue| > 0 && context then Schedule(w') else w'
  }

  function Drop<T>(s: seq<T>, i: nat): seq<T>
    requires i < |s|
  {
    s[..i] + s[i + 1..]
  }

  function DoTask<S, A, E>(b: Behaviour<S, A, E>, w: World<S, A, E>, i: nat): World<S, A, E> {
    if i >= |w.tasks| then w
    else
      match w.tasks[i]
      case Ready =>
        if |w.box.queue| == 0 then w.(box := w.box.(draining := false), tasks := Drop(w.tasks, i))
        else w.(box := w.box.(queue := w.box.queue[1..]),
                tasks := w.tasks[i := Running(w.box.queue[0], w.box.state)])
      case Running(a, prev) =>
        w.(box := Settle(b, w.box, a, prev),
           tasks := if Failure(b, a, prev).Some? then Drop(w.tasks, i) else w.tasks[i := Ready],
           log := w.log + [Turn(a, FateOf(b, a, prev), w.box.error.Some?)])
  }

  function FateOf<S, A, E>(b: Behaviour<S, A, E>, a: A, prev: S): Fate {
    if b.run(a, prev).Threw? then ActionFailed
    else if Failure(b, a, prev).Some? then WatchFailed
    else Completed
  }

  /** One turn of the inline drainer. Its claim of the drainer's role is over before anybody looks. */
  function InlineTurn<S, A, E>(b: Behaviour<S, A, E>, w: World<S, A, E>, more: seq<A>): World<S, A, E>
    requires |w.box.queue| > 0
  {
    var a, prev := w.box.queue[0], w.box.state;
    var joined := Joined(w.box, more);
    w.(box := Settle(b, w.box.(queue := w.box.queue[1..] + joined), a, prev),
       sent := w.sent + joined,
       log := w.log + [Turn(a, FateOf(b, a, prev), w.box.error.Some?)])
  }

  function Inline<S, A, E>(b: Behaviour<S, A, E>, w: World<S, A, E>, script: seq<seq<A>>): World<S, A, E>
    decreases Total(script) + |w.box.queue|
  {
    if |w.box.queue| == 0 then w
    else
      HeadTotal(script);
      var w' := InlineTurn(b, w, Head(script));
      if Failure(b, w.box.queue[0], w.box.state).Some? then w' else Inline(b, w', Tail(script))
  }

  function DoAwait<S, A, E>(b: Behaviour<S, A, E>, w: World<S, A, E>, context: bool, script: seq<seq<A>>)
    : World<S, A, E>
  {
    if w.box.draining || !context then w else Inline(b, w, script)
  }

  function Next<S, A, E>(b: Behaviour<S, A, E>, w: World<S, A, E>, step: Step<S, A>): World<S, A, E> {
    match step
    case Send(a, context) => DoSend(w, a, context)
    case Restart(s, clear, context) => DoRestart(w, s, clear, context)
    case AwaitNow(context, script) => DoAwait(b, w, context, script)
    case TaskStep(i) => DoTask(b, w, i)
  }

  function Run<S, A, E>(b: Behaviour<S, A, E>, w: World<S, A, E>, steps: seq<Step<S, A>>): World<S, A, E> {
    if |steps| == 0 then w else Next(b, Run(b, w, steps[..|steps| - 1]), steps[|steps| - 1])
  }

  // ---- What the log means, independently of the machine ----

  function Concerned<S, A>(e: Event<S, A>): seq<A> {
    match e
    case Turn(a, _, _) => [a]
    case Cleared(actions) => actions
    case Restarted(_) => []
  }

  function Actions<S, A>(log: seq<Event<S, A>>): seq<A> {
    if |log| == 0 then [] else Actions(log[..|log| - 1]) + Concerned(log[|log| - 1])
  }

  function StateStep<S, A, E>(b: Behaviour<S, A, E>, s: S, e: Event<S, A>): S {
    match e
    case Turn(a, _, _) => StateAfter(b, a, s)
    case Cleared(_) => s
    case Restarted(s') => s'
  }

  function ErrorStep<S, A, E>(b: Behaviour<S, A, E>, s: S, error: Option<E>, e: Event<S, A>): Option<E> {
    match e
    case Turn(a, _, _) => if Failure(b, a, s).Some? then Failure(b, a, s) else error
    case Cleared(_) => error
    case Restarted(_) => None
  }

  /** The fold of the applied actions, starting afresh at every restart. */
  function Replay<S, A, E>(b: Behaviour<S, A, E>, init: S, log: seq<Event<S, A>>): S {
    if |log| == 0 then init
    else StateStep(b, Replay(b, init, log[..|log| - 1]), log[|log| - 1])
  }

  /** The error of the last failing turn that no restart followed. */
  function ErrorOf<S, A, E>(b: Behaviour<S, A, E>, init: S, log: seq<Event<S, A>>): Option<E> {
    if |log| == 0 then None
    else
      var before := log[..|log| - 1];
      ErrorStep(b, Replay(b, init, before), ErrorOf(b, init, before), log[|log| - 1])
  }

  /** Every turn names its true fate and whether it was forced on a failed agent; actions are cleared and
      restarts happen only after a failure. */
  ghost predicate Honest<S, A, E>(b: Behaviour<S, A, E>, init: S, log: seq<Event<S, A>>) {
    |log| > 0 ==> Honest(b, init, log[..|log| - 1]) && HonestEvent(b, init, log[..|log| - 1], log[|log| - 1])
  }

  ghost predicate HonestEvent<S, A, E>(b: Behaviour<S, A, E>, init: S, before: seq<Event<S, A>>, e: Event<S, A>) {
    var failed := ErrorOf<S, A, E>(b, init, before).Some?;
    if e.Turn? then e.fate == FateOf(b, e.a, Replay(b, init, before)) && e.forced == failed else failed
  }

  /** The action the drainer has taken and not settled. */
  function InFlight<S, A>(tasks: seq<Task<S, A>>): seq<A> {
    if |tasks| > 0 && tasks[0].Running? then [tasks[0].a] else []
  }

  /** The draining flag stands for the one drainer task; a failed agent has none. */
  ghost predicate Roles<S, A, E>(w: World<S, A, E>) {
    && |w.tasks| == (if w.box.draining then 1 else 0)
    && (w.box.error.Some? ==> !w.box.draining)
    && (|w.tasks| == 1 && w.tasks[0].Running? ==> w.tasks[0].prev == w.box.state)
  }

  /** The log accounts for the state and the error. */
  ghost predicate Accounts<S, A, E>(b: Behaviour<S, A, E>, init: S, log: seq<Event<S, A>>, state: S, error: Option<E>) {
    && Honest(b, init, log)
    && state == Replay(b, init, log)
    && error == ErrorOf(b, init, log)
  }

  /** Every action sent is in the log, in flight or queued, in send order. */
  ghost predicate Conserves<S, A, E>(w: World<S, A, E>) {
    w.sent == Actions(w.log) + InFlight(w.tasks) + w.box.queue
  }

  ghost predicate Inv<S, A, E>(b: Behaviour<S, A, E>, init: S, w: World<S, A, E>) {
    && Roles(w)
    && Conserves(w)
    && Accounts(b, init, w.log, w.box.state, w.box.error)
  }

  lemma LogSnoc<S, A, E>(b: Behaviour<S, A, E>, init: S, log: seq<Event<S, A>>, e: Event<S, A>)
    requires Honest(b, init, log) && HonestEvent(b, init, log, e)
    ensures Replay(b, init, log + [e]) == StateStep(b, Replay(b, init, log), e)
    ensures ErrorOf(b, init, log + [e]) == ErrorStep(b, Replay(b, init, log), ErrorOf(b, init, log), e)
    ensures Honest(b, init, log + [e])
  {
    assert (log + [e])[..|log|] == log;
  }

  lemma SendKeeps<S, A, E>(b: Behaviour<S, A, E>, init: S, w: World<S, A, E>, a: A, context: bool)
    requires Inv(b, init, w)
    ensures Inv(b, init, DoSend(w, a, context))
  {
    if !w.box.draining {
      assert InFlight(w.tasks) == [];
    }
    var mid := Actions(w.log) + InFlight(w.tasks);
    assert mid + w.box.queue + [a] == mid + (w.box.queue + [a]);
  }

  lemma ActionsSnoc<S, A>(log: seq<Event<S, A>>, e: Event<S, A>)
    ensures Actions(log + [e]) == Actions(log) + Concerned(e)
  {
    assert (log + [e])[..|log|] == log;
  }

  lemma RestartAccounts<S, A, E>(b: Behaviour<S, A, E>, init: S, w: World<S, A, E>, s: S, clear: bool, context: bool)
    requires Inv(b, init, w) && w.box.error.Some?
    ensures var w' := DoRestart(w, s, clear, context);
      Accounts(b, init, w'.log, w'.box.state, w'.box.error)
  {
    if clear {
      LogSnoc(b, init, w.log, Cleared(w.box.queue));
      LogSnoc(b, init, w.log + [Cleared(w.box.queue)], Restarted(s));
    } else {
      LogSnoc(b, init, w.log, Restarted(s));
      assert w.log + [] == w.log;
    }
  }

  lemma ActionsRestarted<S, A>(log: seq<Event<S, A>>, queue: seq<A>, s: S)
    ensures Actions(log + [Cleared(queue)] + [Restarted(s)]) == Actions(log) + queue
    ensures Actions(log + [] + [Restarted(s)]) == Actions(log)
  {
    ActionsSnoc(log, Cleared(queue));
    ActionsSnoc(log + [Cleared(queue)], Restarted(s));
    ActionsSnoc(log, Restarted(s));
    assert log + [] == log;
  }

  lemma RestartConserves<S, A, E>(w: World<S, A, E>, s: S, clear: bool, context: bool)
    requires Roles(w) && Conserves(w) && w.box.error.Some?
    ensures Conserves(DoRestart(w, s, clear, context))
  {
    ActionsRestarted(w.log, w.box.queue, s);
    assert Actions(w.log) + [] == Actions(w.log);
    assert clear ==> w.sent + [] == w.sent;
  }

  lemma RestartKeeps<S, A, E>(b: Behaviour<S, A, E>, init: S, w: World<S, A, E>, s: S, clear: bool, context: bool)
    requires Inv(b, init, w)
    ensures Inv(b, init, DoRestart(w, s, clear, context))
  {
    if w.box.error.Some? {
      RestartAccounts(b, init, w, s, clear, context);
      RestartConserves(w, s, clear, context);
    }
  }

  lemma TakeConserves<S, A, E>(b: Behaviour<S, A, E>, w: World<S, A, E>)
    requires Conserves(w) && w.tasks == [Ready]
    ensures Conserves(DoTask(b, w, 0))
  {
    var w' := DoTask(b, w, 0);
    assert InFlight(w.tasks) == [];
    if |w.box.queue| > 0 {
      var a := w.box.queue[0];
      assert w'.tasks == [Running(a, w.box.state)];
      assert InFlight(w'.tasks) == [a];
      assert [a] + w.box.queue[1..] == w.box.queue;
    }
  }

  lemma SettleConserves<S, A, E>(b: Behaviour<S, A, E>, w: World<S, A, E>)
    requires Conserves(w) && |w.tasks| == 1 && w.tasks[0].Running?
    ensures Conserves(DoTask(b, w, 0))
  {
    var a := w.tasks[0].a;
    ActionsSnoc(w.log, Turn(a, FateOf(b, a, w.tasks[0].prev), w.box.error.Some?));
    assert Actions(w.log) + [a] + [] == Actions(w.log) + [a];
  }

  lemma SettleAccounts<S, A, E>(b: Behaviour<S, A, E>, init: S, w: World<S, A, E>)
    requires Inv(b, init, w) && |w.tasks| == 1 && w.tasks[0].Running?
    ensures var w' := DoTask(b, w, 0);
      Accounts(b, init, w'.log, w'.box.state, w'.box.error)
  {
    LogSnoc(b, init, w.log, Turn(w.tasks[0].a, FateOf(b, w.tasks[0].a, w.box.state), false));
  }

  lemma TaskKeeps<S, A, E>(b: Behaviour<S, A, E>, init: S, w: World<S, A, E>, i: nat)
    requires Inv(b, init, w)
    ensures Inv(b, init, DoTask(b, w, i))
  {
    if i < |w.tasks| {
      assert w.tasks == [w.tasks[0]];
      if w.tasks[0].Ready? {
        TakeConserves(b, w);
      } else {
        SettleConserves(b, w);
        SettleAccounts(b, init, w);
      }
    }
  }

  lemma Regroup<A>(done: seq<A>, queue: seq<A>, joined: seq<A>)
    requires |queue| > 0
    ensures done + [] + queue + joined == done + [queue[0]] + [] + (queue[1..] + joined)
  {
    assert queue == [queue[0]] + queue[1..];
  }

  lemma InlineTurnConserves<S, A, E>(b: Behaviour<S, A, E>, w: World<S, A, E>, more: seq<A>)
    requires Conserves(w) && w.tasks == [] && |w.box.queue| > 0
    ensures Conserves(InlineTurn(b, w, more))
  {
    var a := w.box.queue[0];
    ActionsSnoc(w.log, Turn(a, FateOf(b, a, w.box.state), w.box.error.Some?));
    Regroup(Actions(w.log), w.box.queue, Joined(w.box, more));
  }

  lemma InlineTurnAccounts<S, A, E>(b: Behaviour<S, A, E>, init: S, w: World<S, A, E>, more: seq<A>)
    requires Accounts(b, init, w.log, w.box.state, w.box.error) && |w.box.queue| > 0
    ensures var w' := InlineTurn(b, w, more);
      Accounts(b, init, w'.log, w'.box.state, w'.box.error)
  {
    var a := w.box.queue[0];
    LogSnoc(b, init, w.log, Turn(a, FateOf(b, a, w.box.state), w.box.error.Some?));
  }

  lemma InlineTurnKeeps<S, A, E>(b: Behaviour<S, A, E>, init: S, w: World<S, A, E>, more: seq<A>)
    requires Inv(b, init, w) && !w.box.draining && |w.box.queue| > 0
    ensures Inv(b, init, InlineTurn(b, w, more)) && !InlineTurn(b, w, more).box.draining
  {
    InlineTurnConserves(b, w, more);
    InlineTurnAccounts(b, init, w, more);
  }

  lemma {:induction false} InlineKeeps<S, A, E>(b: Behaviour<S, A, E>, init: S, w: World<S, A, E>, script: seq<seq<A>>)
    requires Inv(b, init, w) && !w.box.draining
    ensures Inv(b, init, Inline(b, w, script))
    decreases Total(script) + |w.box.queue|
  {
    if |w.box.queue| > 0 {
      HeadTotal(script);
      InlineTurnKeeps(b, init, w, Head(script));
      if Failure(b, w.box.queue[0], w.box.state).None? {
        InlineKeeps(b, init, InlineTurn(b, w, Head(script)), Tail(script));
      }
    }
  }

  lemma {:induction false} RunKeeps<S, A, E>(b: Behaviour<S, A, E>, init: S, steps: seq<Step<S, A>>)
    ensures Inv(b, init, Run(b, Start(init), steps))
  {
    if |steps| > 0 {
      RunKeeps(b, init, steps[..|steps| - 1]);
      var w := Run(b, Start(init), steps[..|steps| - 1]);
      match steps[|steps| - 1]
      case Send(a, context) => SendKeeps(b, init, w, a, context);
      case Restart(s, clear, context) => RestartKeeps(b, init, w, s, clear, context);
      case AwaitNow(_, script) => if !w.box.draining { InlineKeeps(b, init, w, script); }
      case TaskStep(i) => TaskKeeps(b, init, w, i);
    }
  }

  /** At most one drainer, ever, and none on a failed agent. */
  lemma OneDrainer<S, A, E>(b: Behaviour<S, A, E>, init: S, steps: seq<Step<S, A>>)
    ensures var w := Run(b, Start(init), steps);
      |w.tasks| <= 1 && (|w.tasks| == 1 <==> w.box.draining) && (w.box.error.Some? ==> w.tasks == [])
  {
    RunKeeps(b, init, steps);
  }

  /** Nothing sent is lost, repeated or reordered, and the log tells each action's true fate. */
  lemma SerialAndLossless<S, A, E>(b: Behaviour<S, A, E>, init: S, steps: seq<Step<S, A>>)
    ensures var w := Run(b, Start(init), steps);
      && w.sent == Actions(w.log) + InFlight(w.tasks) + w.box.queue
      && Honest(b, init, w.log)
      && w.box.state == Replay(b, init, w.log)
      && w.box.error == ErrorOf(b, init, w.log)
  {
    RunKeeps(b, init, steps);
  }

  // ---- A queued action always has somebody to run it ----

  /** Actions queued on a healthy agent that nobody is going to run. */
  predicate Stranded<S, A, E>(w: World<S, A, E>) {
    |w.box.queue| > 0 && w.box.error.None? && |w.tasks| == 0
  }

  /** Calls that queue an action, or keep some queued, but have no context to start a drainer in. */
  predicate Forgets<S, A, E>(w: World<S, A, E>, step: Step<S, A>) {
    match step
    case Send(_, context) => !context && w.box.error.None? && !w.box.draining
    case Restart(_, clear, context) => !context && w.box.error.Some? && !clear && |w.box.queue| > 0
    case AwaitNow(_, _) => false
    case TaskStep(_) => false
  }

  /** Calls that start a drainer: with a context, a send to a healthy agent, or a restart of a failed one that
      leaves actions queued. */
  predicate Starts<S, A, E>(w: World<S, A, E>, step: Step<S, A>) {
    match step
    case Send(_, context) => context && w.box.error.None?
    case Restart(_, clear, context) => context && w.box.error.Some? && !clear && |w.box.queue| > 0
    case _ => false
  }

  /** Where there is no drainer, exactly those calls start one. */
  lemma StartedExactly<S, A, E>(b: Behaviour<S, A, E>, init: S, w: World<S, A, E>, step: Step<S, A>)
    requires Inv(b, init, w) && w.tasks == []
    ensures Next(b, w, step).tasks == if Starts(w, step) then [Ready] else []
  {
    if step.AwaitNow? {
      InlineEnds(b, w, step.script);
    }
  }

  /** An inline drain ends with the mailbox empty or the agent failed. */
  lemma {:induction false} InlineEnds<S, A, E>(b: Behaviour<S, A, E>, w: World<S, A, E>, script: seq<seq<A>>)
    ensures var w' := Inline(b, w, script);
      w'.tasks == w.tasks && (|w'.box.queue| == 0 || w'.box.error.Some?) && (w.box.error.Some? ==> w'.box.error.Some?)
    decreases Total(script) + |w.box.queue|
  {
    if |w.box.queue| > 0 {
      HeadTotal(script);
      if Failure(b, w.box.queue[0], w.box.state).None? {
        InlineEnds(b, InlineTurn(b, w, Head(script)), Tail(script));
      }
    }
  }

  /** A step strands actions exactly when it forgets to start a drainer. */
  lemma StrandedExactly<S, A, E>(b: Behaviour<S, A, E>, init: S, w: World<S, A, E>, step: Step<S, A>)
    requires Inv(b, init, w) && !Stranded(w)
    ensures Stranded(Next(b, w, step)) <==> Forgets(w, step)
  {
    if step.AwaitNow? {
      InlineEnds(b, w, step.script);
    }
  }

  /** A send without a context strands its action on a fresh agent; an await with one rescues it. */
  lemma StrandedAndRescued<S, A, E>(b: Behaviour<S, A, E>, init: S, a: A, script: seq<seq<A>>)
    ensures Stranded(Run(b, Start<S, A, E>(init), [Send(a, false)]))
    ensures !Stranded(Run(b, Start<S, A, E>(init), [Send(a, false), AwaitNow(true, script)]))
  {
    var s0 := Start<S, A, E>(init);
    var send, await := Send(a, false), AwaitNow(true, script);
    assert [send][..0] == [] && [send, await][..1] == [send];
    InlineEnds(b, Run(b, s0, [send]), script);
  }

  /** When every caller that queues has a context, no reachable state has queued actions, no error and no drainer. */
  lemma {:induction false} NeverStranded<S, A, E>(b: Behaviour<S, A, E>, init: S, steps: seq<Step<S, A>>)
    requires forall i :: 0 <= i < |steps| ==> steps[i].TaskStep? || steps[i].AwaitNow? || steps[i].context
    ensures !Stranded(Run(b, Start(init), steps))
  {
    if |steps| > 0 {
      NeverStranded(b, init, steps[..|steps| - 1]);
      RunKeeps(b, init, steps[..|steps| - 1]);
      StrandedExactly(b, init, Run(b, Start(init), steps[..|steps| - 1]), steps[|steps| - 1]);
    }
  }

  // ---- The outcome depends only on the order of the sends ----

  datatype Result<S, A, E> = Result(state: S, error: Option<E>, rest: seq<A>)

  /** Actions applied one after another until one fails. */
  function Serial<S, A, E>(b: Behaviour<S, A, E>, s: S, actions: seq<A>): Result<S, A, E>
    decreases |actions|
  {
    if |actions| == 0 then Result(s, None, [])
    else
      var s' := StateAfter(b, actions[0], s);
      var failure := Failure(b, actions[0], s);
      if failure.Some? then Result(s', failure, actions[1..]) else Serial(b, s', actions[1..])
  }

  /** The state the last restart set, or the initial one. */
  function Base<S, A>(init: S, log: seq<Event<S, A>>): S {
    if |log| == 0 then init
    else if log[|log| - 1].Restarted? then log[|log| - 1].s
    else Base(init, log[..|log| - 1])
  }

  /** The actions that had their turn since the last restart. */
  function Since<S, A>(log: seq<Event<S, A>>): seq<A> {
    if |log| == 0 || log[|log| - 1].Restarted? then []
    else if log[|log| - 1].Cleared? then Since(log[..|log| - 1])
    else Since(log[..|log| - 1]) + Concerned(log[|log| - 1])
  }

  /** No turn since the last restart was forced on a failed agent. */
  ghost predicate Unforced<S, A>(log: seq<Event<S, A>>) {
    |log| == 0 || log[|log| - 1].Restarted? ||
    (!(log[|log| - 1].Turn? && log[|log| - 1].forced) && Unforced(log[..|log| - 1]))
  }

  /** What is still to come picks up where the log left off. */
  lemma {:induction false} SerialResumes<S, A, E>(b: Behaviour<S, A, E>, init: S, log: seq<Event<S, A>>, more: seq<A>)
    requires Honest(b, init, log) && Unforced(log)
    ensures var s := Replay(b, init, log);
      var e := ErrorOf(b, init, log);
      Serial(b, Base(init, log), Since(log) + more) == if e.Some? then Result(s, e, more) else Serial(b, s, more)
    decreases |log|
  {
    if |log| == 0 || log[|log| - 1].Restarted? {
      assert Since(log) + more == more;
    } else if log[|log| - 1].Cleared? {
      SerialResumes(b, init, log[..|log| - 1], more);
    } else {
      var before := log[..|log| - 1];
      var a := log[|log| - 1].a;
      SerialResumes(b, init, before, [a] + more);
      Shift(Since(before), a, more);
      SerialHead(b, Replay(b, init, before), a, more);
    }
  }

  lemma Shift<A>(done: seq<A>, a: A, more: seq<A>)
    ensures done + [a] + more == done + ([a] + more)
  {
  }

  lemma SerialHead<S, A, E>(b: Behaviour<S, A, E>, s: S, a: A, more: seq<A>)
    ensures var s', failure := StateAfter(b, a, s), Failure(b, a, s);
      Serial(b, s, [a] + more) == if failure.Some? then Result(s', failure, more) else Serial(b, s', more)
  {
    assert ([a] + more)[0] == a && ([a] + more)[1..] == more;
  }

  /** At rest the agent is where applying its actions one by one, in send order, leaves it, unless an
      await forced actions on it after a failure. */
  lemma RestIsSerial<S, A, E>(b: Behaviour<S, A, E>, init: S, steps: seq<Step<S, A>>)
    ensures var w := Run(b, Start(init), steps);
      |w.tasks| == 0 && !Stranded(w) && Unforced(w.log) ==>
        Serial(b, Base(init, w.log), Since(w.log) + w.box.queue) == Result(w.box.state, w.box.error, w.box.queue)
  {
    RunKeeps(b, init, steps);
    var w := Run(b, Start(init), steps);
    if |w.tasks| == 0 && !Stranded(w) && Unforced(w.log) {
      SerialResumes(b, init, w.log, w.box.queue);
    }
  }

  // ---- The inline drainer ----

  function Flat<A>(script: seq<seq<A>>, n: nat): seq<A> {
    if n == 0 then [] else Head(script) + Flat(Tail(script), n - 1)
  }

  /** The inline drainer takes the actions queued, and those sent meanwhile, through the same serial run. */
  lemma {:induction false} DrainedIsSerial<S, A, E>(b: Behaviour<S, A, E>, m: Mailbox<S, A, E>, script: seq<seq<A>>)
    requires m.error.None?
    ensures var (m', n) := Drained(b, m, script);
      && !m'.draining
      && Serial(b, m.state, m.queue + Flat(script, n)) == Result(m'.state, m'.error, m'.queue)
    decreases Total(script) + |m.queue|
  {
    if |m.queue| == 0 {
      assert m.queue + [] == [];
    } else {
      var a := m.queue[0];
      var m1 := m.(queue := m.queue[1..] + Joined(m, Head(script)));
      var m2 := Settle(b, m1, a, m.state);
      var n := Drained(b, m, script).1;
      var all := m.queue + Flat(script, n);
      HeadTotal(script);
      assert all[0] == a && all[1..] == m1.queue + Flat(Tail(script), n - 1);
      if Failure(b, a, m.state).Some? {
        assert m1.queue + Flat(Tail(script), 0) == m1.queue;
      } else {
        DrainedIsSerial(b, m2, Tail(script));
      }
    }
  }

  /** Both drainers leave the same state, error and queue after the same sends. */
  lemma SyncMatchesAsync<S, A, E>(b: Behaviour<S, A, E>, m: Mailbox<S, A, E>, script: seq<seq<A>>,
                                  steps: seq<Step<S, A>>)
    requires m.error.None?
    requires var w := Run(b, Start(m.state), steps);
      && |w.tasks| == 0 && !Stranded(w)
      && (forall i :: 0 <= i < |steps| ==> !steps[i].Restart? && !steps[i].AwaitNow?)
      && w.sent == m.queue + Flat(script, Drained(b, m, script).1)
    ensures var w := Run(b, Start(m.state), steps);
      var m' := Drained(b, m, script).0;
      m'.state == w.box.state && m'.error == w.box.error && m'.queue == w.box.queue
  {
    var w := Run(b, Start(m.state), steps);
    RunKeeps(b, m.state, steps);
    RestIsSerial(b, m.state, steps);
    NoRestart(b, m.state, steps);
    DrainedIsSerial(b, m, script);
    assert Since(w.log) + [] == Since(w.log);
  }

  /** A log of unforced turns since the start. */
  ghost predicate Plain<S, A>(init: S, log: seq<Event<S, A>>) {
    Base(init, log) == init && Since(log) == Actions(log) && Unforced(log)
  }

  lemma PlainSnoc<S, A>(init: S, log: seq<Event<S, A>>, e: Event<S, A>)
    requires Plain(init, log) && e.Turn? && !e.forced
    ensures Plain(init, log + [e])
  {
    assert (log + [e])[..|log|] == log;
  }

  lemma PlainStep<S, A, E>(b: Behaviour<S, A, E>, init: S, w: World<S, A, E>, step: Step<S, A>)
    requires Inv(b, init, w) && Plain(init, w.log) && !step.Restart? && !step.AwaitNow?
    ensures Plain(init, Next(b, w, step).log)
  {
    if step.TaskStep? && step.i < |w.tasks| && w.tasks[step.i].Running? {
      var t := w.tasks[step.i];
      PlainSnoc(init, w.log, Turn(t.a, FateOf(b, t.a, t.prev), w.box.error.Some?));
    }
  }

  lemma {:induction false} NoRestart<S, A, E>(b: Behaviour<S, A, E>, init: S, steps: seq<Step<S, A>>)
    requires forall i :: 0 <= i < |steps| ==> !steps[i].Restart? && !steps[i].AwaitNow?
    ensures Plain(init, Run(b, Start<S, A, E>(init), steps).log)
  {
    if |steps| > 0 {
      NoRestart(b, init, steps[..|steps| - 1]);
      RunKeeps(b, init, steps[..|steps| - 1]);
      PlainStep(b, init, Run(b, Start(init), steps[..|steps| - 1]), steps[|steps| - 1]);
    }
  }

  // ---- Waiting on a failed agent ----

  /** `await-agent` leaves a failed agent's pending actions queued exactly when there are none
      or the caller has no evaluation context. */
  lemma AwaitKeepsFailed<S, A, E>(b: Behaviour<S, A, E>, w: World<S, A, E>, context: bool, script: seq<seq<A>>)
    requires w.box.error.Some? && !w.box.draining
    ensures DoAwait(b, w, context, script).box.queue == w.box.queue <==> !context || w.box.queue == []
  {
    InlineShrinks(b, w, script);
  }

  lemma {:induction false} InlineShrinks<S, A, E>(b: Behaviour<S, A, E>, w: World<S, A, E>, script: seq<seq<A>>)
    requires w.box.error.Some?
    ensures var q := Inline(b, w, script).box.queue;
      |q| <= |w.box.queue| && (|w.box.queue| > 0 ==> |q| < |w.box.queue|)
    decreases |w.box.queue|
  {
    if |w.box.queue| > 0 {
      HeadTotal(script);
      InlineShrinks(b, InlineTurn(b, w, Head(script)), Tail(script));
    }
  }

  /** The steps after which an agent has failed on `a` with `c` still queued. */
  function FailThenWait<S, A>(a: A, c: A): seq<Step<S, A>> {
    [Send(a, true), Send(c, true), TaskStep(0), TaskStep(0)]
  }

  lemma FailedWithQueue<S, A, E>(b: Behaviour<S, A, E>, init: S, a: A, c: A)
    requires Failure(b, a, init).Some?
    ensures var w := Run(b, Start(init), FailThenWait(a, c));
      w.box == Mailbox(StateAfter(b, a, init), Failure(b, a, init), [c], false) && w.tasks == []
  {
    var steps: seq<Step<S, A>> := FailThenWait(a, c);
    assert steps[..4] == steps;
    var w1 := Next(b, Start(init), steps[0]);
    var w2 := Next(b, w1, steps[1]);
    var w3 := Next(b, w2, steps[2]);
    assert steps[..4][..3] == steps[..3] && steps[..3][..2] == steps[..2] && steps[..2][..1] == steps[..1];
    assert steps[..1][..0] == [];
    assert w2.box.queue == [a, c] && w2.tasks == [Ready];
    assert w3.box.queue == [c] && w3.tasks == [Running(a, init)];
    assert Run(b, Start(init), steps[..1]) == w1;
    assert Run(b, Start(init), steps[..2]) == w2;
    assert Run(b, Start(init), steps[..3]) == w3;
  }

  /** So an await applies an action to a failed agent, with no restart in between. */
  lemma AwaitForces<S, A, E>(b: Behaviour<S, A, E>, init: S, a: A, c: A)
    requires Failure(b, a, init).Some?
    ensures var w := Run(b, Start(init), FailThenWait(a, c));
      var w' := DoAwait(b, w, true, []);
      w'.box.state == StateAfter(b, c, w.box.state) && w'.box.queue == [] && w'.box.error.Some?
  {
    FailedWithQueue(b, init, a, c);
    var w := Run(b, Start(init), FailThenWait(a, c));
    var none: seq<seq<A>> := [];
    var turn := InlineTurn(b, w, Head(none));
    assert turn.box.queue == [];
    assert Inline(b, turn, Tail(none)) == turn;
    assert DoAwait(b, w, true, none) == turn;
  }

  // ---- The inline drainer of the mailbox is the one of the runs ----

  lemma {:induction false} InlineIsDrained<S, A, E>(b: Behaviour<S, A, E>, w: World<S, A, E>, m: Mailbox<S, A, E>,
                                                   script: seq<seq<A>>)
    requires !w.box.draining && m == w.box.(draining := true)
    ensures Inline(b, w, script).box == Drained(b, m, script).0
    decreases Total(script) + |m.queue|
  {
    if |m.queue| > 0 {
      HeadTotal(script);
      if Failure(b, m.queue[0], m.state).None? {
        var w' := InlineTurn(b, w, Head(script));
        InlineIsDrained(b, w', w'.box.(draining := true), Tail(script));
      }
    }
  }
}
