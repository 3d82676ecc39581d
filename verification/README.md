# clojurust: a verified model of its core

A Dafny model of the parts of clojurust, a Clojure implementation in Rust, whose
correctness is hardest to see from the code: representation inference in the
compiler, channels, the async evaluator, futures, ahead-of-time rewriting and form
normalisation, the bencode codec behind the nREPL server, agents, `sort`, and
exact arithmetic.

Code that updates things in place is modelled by classes, arrays and loops, and
proved against functions on values; what the system promises is proved of those
functions, over all inputs, all runs or all interleavings.

| files | models |
|---|---|
| `Ir`, `IrRun`, `TypeInfer`, `TypeInferTheory`, `TypeInferSound`, `TypeInferCoerce`, `TypeInferPrecise`, `TypeInferSum` | the intermediate representation, inference as a fixpoint, its theory, its soundness over runs, its precision, coercion on edges |
| `Channel`, `ChannelRuns`, `ChannelAnswers`, `ChannelWrap`, `ChannelWakeups`, `ChannelStranded` | channel operations, conservation and exactness over executions, what answers mean, the counter that wraps, wake-ups, and where they are lost |
| `EvalSpec`, `EvalAsync`, `EvalMeaning`, `EvalLaws`, `EvalSignals` | the environment-passing evaluator, the evaluator with mutable frames refining it, what each form means, their laws, exceptions and signals over whole evaluations |
| `Await` | futures, promises and whoever is parked on them |
| `DirectCall`, `DirectCallRun`, `DirectCallSound`, `DirectCallTrace`, `DirectCallComplete`, `DirectCallMeaning`, `DirectCallRedefined` | direct-call rewriting, runs of a unit, preservation run by run, the calls made, which calls become direct, a condition on the text, and the unit for which it fails |
| `ReaderConds`, `ReaderReading`, `AnonFns`, `AnonCall`, `AnonHygiene`, `AnonArity` | reader conditionals and how they read, anonymous function literals, what calling them binds, the names they capture, and the order of the two |
| `Decimal`, `Bencode`, `BencodeFormat`, `BencodeLaws`, `BencodeGrammar`, `BencodeCanonical`, `BencodeStream`, `BencodeViable` | the codec, round trip and stability, the language accepted, which inputs are canonical, framing of a byte stream, when waiting for more bytes is in vain |
| `Agent`, `AgentRuns`, `AgentAwait` | the mailbox and both drainers, every run of an agent, tasks that await it |
| `MergeSort`, `MergeSortLaws` | the in-place sort and what it guarantees |
| `Rational`, `Arith` | ratios in lowest terms, `+`, `-`, `*` and their promoting forms |

Some expected properties turned out false of the code. Each has a concrete
counterexample and the condition under which it holds:

- An unboxed phi can have an argument that inference left without a representation
  when the argument is dead code (`DeadLoopNotCoercible`). The compiler's coercion into
  an unboxed phi succeeds exactly for the grounded variables (`EdgeCoercible`), always on
  edges that run, and always out of reachable blocks where uses are dominated by
  definitions (`ReachableEdgesCoercible`; `DeadLoopDominated` shows reachability is needed).
- `close` documents that woken putters pass the notification on; puts do not. Puts
  parked at a close are all released exactly when there were no more than one, plus one
  for each value taken or further close after it (`CloseReleases`, `CloseStrandsPut`).
  On an open rendezvous channel two puts and two takes can come to rest with one of each
  waiting for ever (`RendezvousStuck`); callers are safe from that exactly if they keep
  to one put at a time (`SafeUpToOne`).
- The rendezvous token answers rightly exactly until the 64-bit take count comes
  round to it (`TokenExact`, `TokenWraps`).
- Awaiters of a future settled more than once agree on every schedule exactly if the
  values settled are all the same (`AwaitersAgreeIff`, `Disagreement`).
- Direct-call rewriting changes the answer of a unit that defines a global twice
  (`RedefinitionChangesAnswer`). It preserves every run in which each rewritten call
  that is executed would have been dispatched to the function it names (`RunPreserved`),
  and so every run of a unit whose globals have one meaning (`DirectCallsPreserve`). The
  calls made are the same exactly under that condition (`SameCallsIff`).
- The parameter vector of `#(...)` binds every introduced name exactly if the body does
  not refer to `%0` (`IntroducedBound`). It captures a symbol of the body, as in
  `#(% p__1)` (`Captured`), exactly if that is the name of a parameter
  (`NothingCaptured`, `KeptApart`). Its arity depends on whether conditionals are
  expanded first (`ArityDependsOnOrder`), exactly when a dropped reference exceeds every
  kept one (`ArityByOrder`).
- The decoder's "need more bytes" is documented as meaning a prefix of a value. It is
  also the answer where no continuation is a value (`WaitsInVain`);
  `IncompleteIsPrefix` says exactly when it is a prefix.
- Actions can be queued on a healthy agent with no drainer, exactly when a caller had
  no evaluation context (`StrandedExactly`, `StrandedAndRescued`), and a task that awaits
  such an agent has nobody to wake it (`AwaiterOwed`, `AwaiterForgotten`). `await-agent` runs the
  pending actions of a failed agent, which are documented to wait for a restart
  (`AwaitKeepsFailed`, `AwaitForces`).
- `+'`, `-'` and `*'` are documented to return a machine integer when the result fits,
  and do so only up to 0x7F00000000000000; `(-' n)` returns `n` (`SubQuote`,
  `PromotedTooSoon`).

The bencode decoder accepts more than the bencoding section of BEP 3 allows: `i-0e`,
leading zeros, and dictionary keys unsorted or repeated (`NegativeZeroRead`). The model
follows the code; `ReadsBackIff` says that these are the only inputs accepted that differ
from what the encoder writes.

## Model

| member | source | states |
|---|---|---|
| TypeInfer.Meet | crates/cljrs-compiler/src/typeinfer.rs:53-59 | The combination is the least upper bound of the order bottom, unboxed, boxed. |
| TypeInfer.Raise | crates/cljrs-compiler/src/typeinfer.rs:106-115 | Folding a value into a variable lowers nothing, reaches at least that value and adds no other variable. |
| TypeInfer.Update | crates/cljrs-compiler/src/typeinfer.rs:106-115 | The update is `Raise`, touches no other variable, and reports growth exactly when the table changed. |
| TypeInfer.PhiResult | crates/cljrs-compiler/src/typeinfer.rs:129-135 | The loop over phi entries computes the join of all of them, ignoring bottom. |
| TypeInfer.FoldInsts | crates/cljrs-compiler/src/typeinfer.rs:118-184 | Running the transfer functions of a block in order never lowers a variable, and the flag is set exactly when something moved. |
| TypeInfer.FoldRecur | crates/cljrs-compiler/src/typeinfer.rs:185-196 | A recur edge joins its arguments into the target phis by position; same monotonicity and exact flag. |
| TypeInfer.Sweep | crates/cljrs-compiler/src/typeinfer.rs:104-202 | One pass applies every rule of the function once, and the changed flag is exact. |
| TypeInfer.SeedLat | crates/cljrs-compiler/src/typeinfer.rs:84-98 | Parameters are seeded from the specs by position, the last of equal ids winning, and local hints are joined in. |
| TypeInfer.Infer | crates/cljrs-compiler/src/typeinfer.rs:83-208 | Inference returns the unboxed part of the least solution and stops within 2·|variables| + 1 passes. |
| TypeInferTheory.OutMono | crates/cljrs-compiler/src/typeinfer.rs:53-77 | Every transfer rule is monotone in the table. |
| TypeInferTheory.SolutionIsLeastModel | crates/cljrs-compiler/src/typeinfer.rs:86-202 | The result is a model of seeds and rules and lies below every other model. |
| TypeInferTheory.OrderIndependent | crates/cljrs-compiler/src/typeinfer.rs:117-197 | Reordering the blocks, or the instructions inside blocks, leaves the result unchanged. |
| TypeInferTheory.MonotoneInSeeds | crates/cljrs-compiler/src/typeinfer.rs:86-98 | Weakening a parameter to boxed never makes a variable more specialised: the weaker result map is a submap of the stronger. |
| TypeInferTheory.HintsOnlyRaise | crates/cljrs-compiler/src/typeinfer.rs:91-98 | Type hints only raise the result: what was boxed without them stays boxed, and what is unboxed with them was so without, alike, or had no representation at all. |
| TypeInferSound.KnownSound | crates/cljrs-compiler/src/rt_abi.rs:332-460 | A known function applied to operands of given representations returns a value of the inferred one. |
| TypeInferSound.StepSound | crates/cljrs-compiler/src/typeinfer.rs:117-197 | One step of execution keeps every register inside the representation of any closed table. |
| TypeInferSound.InferenceSound | crates/cljrs-compiler/src/typeinfer.rs:83-208 | At every point of every run whose arguments pass the guards, each register holding a value is above bottom and, if inferred unboxed, holds a value of exactly that representation. |
| TypeInferPrecise.KnownPrecise | crates/cljrs-compiler/src/typeinfer.rs:61-174 | For every known function and operand representations, the result inferred is the least representation that holds everything the call can return, if and only if the operands are not among those the source boxes by choice. |
| TypeInferPrecise.RulesAreText | crates/cljrs-compiler/src/typeinfer.rs:112-197 | The constraints are exactly the transfer of each instruction of the text and the copy of each recur argument into the phi at its position. |
| TypeInferPrecise.SeedsLeast | crates/cljrs-compiler/src/typeinfer.rs:86-98 | The seeds are the least assignment above every parameter representation, boxed where none is given, and every hint. |
| TypeInferPrecise.MostPrecise | crates/cljrs-compiler/src/typeinfer.rs:79-207 | The result lies below every assignment that holds the parameters and hints and is kept by what the instructions and edges mean, if known calls are told in it: inference boxes nothing without need. |
| TypeInferPrecise.SolutionKept | crates/cljrs-compiler/src/typeinfer.rs:102-202 | The result is itself such an assignment. |
| TypeInferPrecise.CallUnboxed | crates/cljrs-compiler/src/typeinfer.rs:200-207 | A variable defined only by a known call is unboxed as any representation that holds all results of the call on its operands as inferred. |
| TypeInferSum.LoopUnboxed | crates/cljrs-compiler/src/typeinfer.rs:216-288 | In the counting loop with its bound known to be a Long, every variable is unboxed, the test as Bool and all others as Long. |
| TypeInferCoerce.RunEdgesCoercible | crates/cljrs-compiler/src/codegen.rs:1479-1494 | No edge taken in a run feeds an unboxed phi from a variable of another representation. |
| TypeInferCoerce.SolutionGrounds | crates/cljrs-compiler/src/typeinfer.rs:86-202 | Whatever the parameter representations, inference leaves at bottom exactly the variables that are not grounded: the least set that holds parameters and hinted locals and, with the operands of an instruction or a recur argument, what they define. |
| TypeInferCoerce.EdgeCoercible | crates/cljrs-compiler/src/codegen.rs:1317-1387 | Over all edges of the text, jump or recur, taken or not: coercion into a boxed phi succeeds, into an unboxed phi if and only if the variable fed to it is grounded. |
| TypeInferCoerce.PathGrounded | crates/cljrs-compiler/src/typeinfer.rs:86-202 | Where uses are dominated by definitions, everything defined along a path from the entry is grounded. |
| TypeInferCoerce.ReachableEdgesCoercible | crates/cljrs-compiler/src/codegen.rs:1278-1387 | So where uses are dominated by definitions, no edge out of a reachable block fails to coerce. |
| TypeInferCoerce.DeadLoopNotCoercible | crates/cljrs-compiler/src/typeinfer.rs:204-207 | A function with an unreachable self-feeding variable for which the coercion of a phi argument fails. |
| TypeInferCoerce.DeadLoopDominated | crates/cljrs-compiler/src/codegen.rs:1278-1387 | In that function every use is dominated by its definition, the entry block is reachable and the failing edge leaves a block that is not: reachability cannot be dropped. |
| Channel.CljChannel.constructor | crates/cljrs-async/src/channel.rs:84-97 | A new channel is open and empty with a zero take count and nobody waiting. |
| Channel.CljChannel.DoClose | crates/cljrs-async/src/channel.rs:106-114 | Closing is idempotent and wakes at most one taker and one putter. |
| Channel.CljChannel.DoTryTake | crates/cljrs-async/src/channel.rs:121-134 | Takes the oldest value and counts it (wrapping), or answers nil once closed and drained, or would block; wakes one putter only when it took. |
| Channel.CljChannel.DoTryPut | crates/cljrs-async/src/channel.rs:141-157 | Refuses when closed, appends below capacity and wakes one taker, otherwise would block. |
| Channel.CljChannel.DoRvOffer | crates/cljrs-async/src/channel.rs:160-177 | Offers into the single slot with the take count as token; closed and full slots refuse. |
| Channel.CljChannel.DoRvStatus | crates/cljrs-async/src/channel.rs:341-351 | Taken when the count has moved from the token; on a closed channel the front offer is cancelled. |
| ChannelRuns.ChannelConserves | crates/cljrs-async/src/channel.rs:121-177 | In every execution the accepted values in enqueue order are the taken ones, at most one cancelled offer, and the queue; the counter counts takes modulo 2^64; the queue is bounded by the capacity, or by one. |
| ChannelRuns.RendezvousExact | crates/cljrs-async/src/channel.rs:306-325 | A finished rendezvous put returned true if and only if its own value was delivered exactly once, and false if and only if it was never delivered. |
| ChannelRuns.CancelsOwnOffer | crates/cljrs-async/src/channel.rs:341-351 | A cancellation removed the canceller's own offer, and that offer is never delivered. |
| ChannelRuns.BufferedExact | crates/cljrs-async/src/channel.rs:326-333 | A finished buffered put returned true if and only if its value was accepted. |
| ChannelAnswers.TakeAnswers | crates/cljrs-async/src/channel.rs:121-134 | A take gets the oldest value if there is one, ends with nil if and only if the channel is closed and empty, and waits if and only if it is open and empty. |
| ChannelAnswers.PutAnswers | crates/cljrs-async/src/channel.rs:141-156 | A buffered put is accepted last in the queue if and only if the channel is open with room, refused if and only if it is closed, and waits if and only if it is open and full. |
| ChannelAnswers.OfferAnswers | crates/cljrs-async/src/channel.rs:160-178 | A rendezvous put makes its offer if and only if the channel is open and the slot free, and is refused if and only if it is closed. |
| ChannelAnswers.StatusAnswers | crates/cljrs-async/src/channel.rs:341-352 | In every execution an offer answers true if and only if its value was taken, false if and only if not and the channel is closed, and waits otherwise. |
| ChannelAnswers.EndedOnlyIfClosed | crates/cljrs-async/src/channel.rs:285-352 | In every execution a take that ended with nil, or a put that ended with false, ended on a closed channel. |
| ChannelAnswers.EndsOrParks | crates/cljrs-async/src/channel.rs:285-325 | An async operation that is polled ends or parks, on its own side of the channel and behind all others. |
| ChannelAnswers.TakePassesOn | crates/cljrs-async/src/channel.rs:285-296 | A take that got a value wakes the longest-parked put; it wakes the longest-parked take exactly if it ends with nil, from a closed channel or as a value. |
| ChannelRuns.TokenExact | crates/cljrs-async/src/channel.rs:341-351 | The status of a waiting offer is right if and only if the take count has not moved by a positive multiple of 2^64 since the offer. |
| ChannelWrap.TokenWraps | crates/cljrs-async/src/channel.rs:341-351 | An execution that reaches such a state: a delivered offer is told that it is still waiting. |
| ChannelRuns.PendingIsQueued | crates/cljrs-async/src/channel.rs:335-351 | While the take count stands at the token the queue is exactly the waiting offer. |
| ChannelWakeups.AsyncRunIsExec | crates/cljrs-async/src/channel.rs:285-333 | Async runs, with parking and waking, are executions of the channel, so conservation and exactness hold of them. |
| ChannelWakeups.NoLostTake | crates/cljrs-async/src/channel.rs:285-296 | While a taker is parked, queued values do not exceed woken takers, strictly fewer once closed; no quiescent state has a parked taker beside a value or a closed channel. |
| ChannelWakeups.NoLostPut | crates/cljrs-async/src/channel.rs:326-333 | On an open buffered channel with a parked putter, free slots do not exceed woken putters; at quiescence the buffer is full. |
| ChannelStranded.CloseReleases | crates/cljrs-async/src/channel.rs:106-114 | After a close, whatever follows, the puts parked before it are released in order, one for the close and one for each value taken and each further close; all of them if and only if there were no more than that. |
| ChannelStranded.CloseStrandsPut | crates/cljrs-async/src/channel.rs:106-114 | A run in which two puts are parked at a close and the second waits for ever. |
| ChannelStranded.RendezvousStuck | crates/cljrs-async/src/channel.rs:306-325 | A run with two puts and two takes that ends with a put and a take both parked on an open channel whose slot is free. |
| ChannelStranded.SoloPutNotStranded | crates/cljrs-async/src/channel.rs:306-325 | With one put at a time, a parked put on an open rendezvous channel is the one whose value is in the slot. |
| ChannelStranded.SafeUpToOne | crates/cljrs-async/src/channel.rs:306-325 | For every n: no run with at most n unfinished puts at a time comes to rest with a put parked on an open rendezvous channel whose slot is free, if and only if n is at most one. |
| EvalAsync.Evaluator.PushFrame | crates/cljrs-env/src/env.rs:732-734 | Pushing a frame leaves every lookup unchanged. |
| EvalAsync.Evaluator.PopFrame | crates/cljrs-env/src/env.rs:736-738 | Pops the top frame, and does nothing on no frames. |
| EvalAsync.Evaluator.BindName | crates/cljrs-env/src/env.rs:741-747 | Binding shadows earlier bindings of the name, touches only the top frame, and is dropped when there is none. |
| EvalAsync.Evaluator.LookupFrame | crates/cljrs-env/src/env.rs:59-69 | Within a frame the last binding of a name counts. |
| EvalAsync.Evaluator.Lookup | crates/cljrs-env/src/env.rs:750-758 | Lookup finds the innermost, latest binding, then the global. |
| EvalAsync.Evaluator.BindPattern | crates/cljrs-interp/src/destructure.rs:18-63 | Destructuring binds in the top frame only and agrees with binding in a pure environment, failing exactly when that fails. |
| EvalAsync.Evaluator.EvalForm | crates/cljrs-async/src/eval_async.rs:137-233 | The evaluator with mutable frames restores the frame stack on every outcome and gives the outcome and effects of the environment-passing evaluator. |
| EvalAsync.Evaluator.EvalForms | crates/cljrs-async/src/eval_async.rs:363-369 | A body evaluates its forms in order up to the first that does not give a value; same refinement. |
| EvalAsync.Evaluator.EvalIf | crates/cljrs-async/src/eval_async.rs:440-457 | `if` evaluates its test and only the chosen branch; same refinement. |
| EvalAsync.Evaluator.EvalLetForm | crates/cljrs-async/src/eval_async.rs:461-489 | `let` binds in one new frame, each init seeing the bindings before it, and pops that frame on every outcome; same refinement. |
| EvalAsync.Evaluator.EvalLoopForm | crates/cljrs-async/src/eval_async.rs:494-589 | `loop` rebinds its patterns in a fresh frame on every `recur`; frames are popped on every outcome; same refinement. |
| EvalAsync.Evaluator.EvalTry | crates/cljrs-async/src/eval_async.rs:376-437 | `try` with catches and finally refines the pure evaluator and restores the frames. |
| EvalAsync.Evaluator.HandleWith | crates/cljrs-async/src/eval_async.rs:408-429 | A raised value is given to the first matching clause in a frame of its own, popped afterwards; unmatched values are raised again. |
| EvalLaws.LoopAbsorbsRecur | crates/cljrs-async/src/eval_async.rs:494-589 | A loop never answers `recur` once its inits are evaluated. |
| EvalLaws.FuelIrrelevant | crates/cljrs-async/src/eval_async.rs:137-233 | An outcome reached with some evaluation budget is the outcome with any larger one. |
| EvalMeaning.IfChooses | crates/cljrs-async/src/eval_async.rs:440-458 | Of two branches nil and false take the second and every other value the first, from the trace the test left; any other outcome of the test is that of the form. |
| EvalMeaning.IfShort | crates/cljrs-async/src/eval_async.rs:440-458 | A missing branch is nil, a missing test an error. |
| EvalMeaning.DoConcat | crates/cljrs-async/src/eval_async.rs:363-373 | The forms after a prefix of a body run if and only if the prefix gives a value. |
| EvalMeaning.ArgsConcat | crates/cljrs-async/src/eval_async.rs:617-652 | Arguments are evaluated left to right, the first that gives no value stops them, and values keep their order. |
| EvalMeaning.CallPerforms | crates/cljrs-async/src/eval_async.rs:617-652 | A call performs one event with its arguments in order and ends as the world answers, answer by answer. |
| EvalMeaning.LiteralForms | crates/cljrs-async/src/eval_async.rs:137-233 | Vectors collect, recur hands on, await waits for a future and passes any other value. |
| EvalMeaning.SymbolLooksUp | crates/cljrs-async/src/eval_async.rs:137-233 | A local shadows a global; an unknown name is an error. |
| EvalMeaning.PatternBinds | crates/cljrs-interp/src/destructure.rs:42-97 | A sequential pattern binds each part to the item where it stands, nil past the end or in anything but a vector. |
| EvalMeaning.LetBinds | crates/cljrs-async/src/eval_async.rs:461-491 | A let evaluates its first init and continues as the let of the others with the first pattern bound. |
| EvalMeaning.LoopInits | crates/cljrs-async/src/eval_async.rs:494-530 | The inits of a loop are evaluated in order before anything is bound. |
| EvalMeaning.LoopIterates | crates/cljrs-async/src/eval_async.rs:530-589 | An iteration is a let of the values at hand; recur with as many values continues the loop with those, with another number is an error, and anything else ends it. |
| EvalMeaning.CatchNames | crates/cljrs-interp/src/special.rs:1069-1080 | By what follows its last dot a clause name catches everything, errors with data, or nothing. |
| EvalMeaning.CatchSees | crates/cljrs-async/src/eval_async.rs:381-430 | A catch-all clause sees a thrown value as it is and an error as an error value, and no control signal. |
| EvalSignals.SignalEnds | crates/cljrs-async/src/eval_async.rs:137-233 | For every form, however deep: when an effect outside every finally answers exit, gas exhaustion or interruption, that signal is the outcome of the whole form, and what follows in the trace is one run of each finally block around the effect, innermost first. |
| EvalSignals.EventUnwinds | crates/cljrs-async/src/eval_async.rs:363-589 | What an effect that answers no value does to the evaluation around it, from any trace and for every kind of form; where the form has no finally every effect performed is covered. |
| EvalSignals.UncaughtEnds | crates/cljrs-async/src/eval_async.rs:376-437 | For every form, however deep: an exception, error or signal outside every finally that no clause around it matches is the outcome of the whole form, an error as a thrown value once it has left a try, and what follows in the trace is one run of each finally block around it, innermost first. |
| EvalSignals.CaughtBy | crates/cljrs-async/src/eval_async.rs:381-437 | An exception is handled by the innermost try around it with a matching clause and by its first such clause: after the exception come the finally blocks of the tries inside that one, then the clause, then its own finally. |
| EvalSignals.SignalIsLast | crates/cljrs-async/src/eval_async.rs:381-406 | In a form without finally such a signal is the last event. |
| Await.CljxFuture.RegisterWaker | crates/cljrs-value/src/types.rs:1242-1252 | A waker is added to the waiting list. |
| Await.CljxFuture.SettleWrite | crates/cljrs-async/src/eval_async.rs:72-79 | Settling overwrites the state with the result. |
| Await.CljxFuture.NotifySettled | crates/cljrs-value/src/types.rs:1253-1258 | All registered wakers are woken in order and forgotten. |
| Await.CljxFuture.ParkUnlessSettled | crates/cljrs-async/src/eval_async.rs:264-336 | Under the lock a poll parks if and only if the future is not settled, and registers exactly when it parks. |
| Await.NoAwaiterStranded | crates/cljrs-async/src/state_machine.rs:198-227 | In every interleaving, a task parked on a settled future still has a wake-up owed to it, no task is parked once the settler has drained the wakers, and none ever on a delivered promise. |
| Await.LookAnswers | crates/cljrs-async/src/eval_async.rs:264-336 | In every run a look ends the wait if and only if the future has been settled, with the value settled last; registering parks the task if and only if it has not, or else sends it to look again. |
| Await.CanGoOn | crates/cljrs-async/src/eval_async.rs:264-336 | In every run a task that waits and is not parked has one step of its own to take: the look or, after it, the registration. |
| Await.DrainReleases | crates/cljrs-value/src/types.rs:1112-1258 | In every run, draining a future, or delivering a promise for the first time, makes every task parked on it runnable. |
| Await.FirstDeliveryStays | crates/cljrs-value/src/types.rs:1112-1124 | The first value delivered to a promise stays; a settlement of a future is written over the one before. |
| Await.AwaiterGetsWritten | crates/cljrs-async/src/eval_async.rs:264-336 | An awaiter finishes only with a value its future was settled with; a promise has exactly one. |
| Await.AwaitersAgreeIff | crates/cljrs-async/src/eval_async.rs:72-83 | The awaiters of a future settled with given values agree on every schedule if and only if no two of the values differ. |
| Await.Disagreement | crates/cljrs-async/src/eval_async.rs:72-83 | For any two different values settled, a run in which two awaiters get one each. |
| DirectCall.CollectBlock | crates/cljrs-compiler/src/aot.rs:135-159 | Scanning instructions in order collects, per global, the arities of the closure last defined. |
| DirectCall.CollectDefns | crates/cljrs-compiler/src/aot.rs:125-163 | The same over all blocks of a function. |
| DirectCall.FindMatching | crates/cljrs-compiler/src/aot.rs:169-173 | Finds a fixed arity with exactly that many parameters if and only if one exists. |
| DirectCall.FindLoadTargets | crates/cljrs-compiler/src/aot.rs:237-247 | The variables loaded from globals with known arities, as the last load of each variable says. |
| DirectCall.RewriteInPlace | crates/cljrs-compiler/src/aot.rs:249-261 | Rewrites a block and counts rewrites; the count is zero exactly when nothing changed. |
| DirectCall.RewriteCalls | crates/cljrs-compiler/src/aot.rs:230-264 | The same for all blocks of a function. |
| DirectCall.TargetIsLoad | crates/cljrs-compiler/src/aot.rs:237-247 | Each target comes from a load of that global into that variable. |
| DirectCall.RewriteIsExact | crates/cljrs-compiler/src/aot.rs:230-264 | Each new direct call replaces a call through a loaded global by a fixed arity of exactly that many arguments, keeping destination and arguments; all else is unchanged. |
| DirectCallComplete.CallsMadeDirect | crates/cljrs-compiler/src/aot.rs:181-264 | In every function of the unit, each call of a global that the unit defines once in its root or a direct subfunction, with as many arguments as a fixed arity takes, becomes a direct call to the first such arity. |
| DirectCallComplete.OwnKnown | crates/cljrs-compiler/src/aot.rs:205-226 | A function's own definitions reach its calls and those of all functions below it, whatever was passed down. |
| DirectCallComplete.LastSubfunctionDecides | crates/cljrs-compiler/src/aot.rs:181-202 | For the calls of the root, of several definitions of a global the one in the last direct subfunction counts. |
| DirectCallSound.OptimizeRewrites | crates/cljrs-compiler/src/aot.rs:181-226 | The pass over a unit and its nested functions changes nothing but calls made direct with their destination and arguments. |
| DirectCallSound.SimCallFn | crates/cljrs-compiler/src/aot.rs:230-264 | For two units so related: if at each rewritten call the run executes, dispatch would reach the function named, then the run that does not get stuck gives the same outcome. |
| DirectCallSound.RunPreserved | crates/cljrs-compiler/src/aot.rs:125-264 | Under that condition on the run alone, for all worlds, oracles and arguments, calling a function of the optimized unit gives the result, exception, globals and history of the original. |
| DirectCallTrace.SameCallsIff | crates/cljrs-compiler/src/aot.rs:125-264 | The optimized unit makes the calls of the original run, the same functions with the same arguments in the same order, if and only if dispatch goes where the direct calls go. |
| DirectCallTrace.TieFn | crates/cljrs-compiler/src/aot.rs:205-264 | For any rewriting of a unit: where the original run dispatches as named the calls agree, and where it does not they differ at some position common to both. |
| DirectCallMeaning.OptimizeLinked | crates/cljrs-compiler/src/aot.rs:181-226 | In a unit whose globals have one meaning, every call is rewritten against that meaning. |
| DirectCallMeaning.MeaningCall | crates/cljrs-compiler/src/aot.rs:230-264 | In such a unit, with globals and oracle that keep to it, every rewritten call dispatches as named. |
| DirectCallMeaning.DirectCallsPreserve | crates/cljrs-compiler/src/aot.rs:125-264 | So every run of such a unit is preserved. |
| DirectCallRedefined.RedefinitionChangesAnswer | crates/cljrs-compiler/src/aot.rs:125-163 | A unit that defines a global twice, for which the rewriting changes the answer from 1 to 2. |
| ReaderConds.SelectFrom | crates/cljrs-builtins/src/form.rs:317-333 | The branch chosen is the first whose key matches, reading clauses in pairs; none if and only if no key matches. |
| ReaderConds.SelectReaderCond | crates/cljrs-builtins/src/form.rs:317-333 | The loop computes that selection. |
| ReaderConds.ExpandReaderConds | crates/cljrs-builtins/src/form.rs:362-397 | The loop expands one level, splicing where asked. |
| ReaderConds.ExpandLevelSmaller | crates/cljrs-builtins/src/form.rs:362-397 | Expansion never grows a form, so deep expansion terminates. |
| ReaderConds.FormExpanded | crates/cljrs-compiler/src/aot.rs:1171-1205 | Deep expansion of a form leaves no conditional at any depth. |
| ReaderConds.DeepExpanded | crates/cljrs-compiler/src/aot.rs:1162-1169 | The same for a list of forms. |
| ReaderConds.FormUnchanged | crates/cljrs-compiler/src/aot.rs:1171-1205 | A form without conditionals is left alone. |
| ReaderConds.DeepUnchanged | crates/cljrs-compiler/src/aot.rs:1162-1169 | A list of forms without conditionals is left alone. |
| ReaderConds.ExpandIdempotent | crates/cljrs-compiler/src/aot.rs:1162-1205 | Expanding twice is expanding once. |
| ReaderReading.SelectsFirst | crates/cljrs-builtins/src/form.rs:305-333 | The first key in clause order that is `:default` or names a feature selects, and nothing else does. |
| ReaderReading.DeepConcat | crates/cljrs-compiler/src/aot.rs:1162-1205 | The expansion of a sequence is that of its parts, in order. |
| ReaderReading.ConditionalInPlace | crates/cljrs-builtins/src/form.rs:362-397 | A conditional among other forms becomes, in its place, its branch, the expanded elements of its branch if it splices a list or vector, or nothing. |
| ReaderReading.DeepReads | crates/cljrs-compiler/src/aot.rs:1162-1205 | A sequence expanded at every depth spells, token by token, its text with each conditional replaced where it stands by its selected branch. |
| ReaderReading.FormReads | crates/cljrs-compiler/src/aot.rs:1162-1205 | The same for a form. |
| AnonFns.FindPctRefs | crates/cljrs-builtins/src/form.rs:44-48 | The two out-parameters hold the greatest positional reference of the forms and whether the rest is used. |
| AnonFns.FindPctRefsForm | crates/cljrs-builtins/src/form.rs:50-88 | The same for one form. |
| AnonFns.MakeFn | crates/cljrs-builtins/src/form.rs:14-42 | Builds the parameter vector and the rewritten body. |
| AnonCall.References | crates/cljrs-builtins/src/form.rs:50-89 | `%` and `%1` are the first argument, `%n` the n-th, `%&` the rest; a symbol that starts otherwise is no reference. |
| AnonCall.CallBinds | crates/cljrs-builtins/src/form.rs:14-42 | Called with enough arguments, each reference of the body finds its own: `%n` the n-th, `%&` those past the greatest one. |
| AnonCall.RewriteInPlace | crates/cljrs-builtins/src/form.rs:98-171 | The symbols after rewriting are those of the original renamed one by one, in order. |
| AnonCall.AnonUnchanged | crates/cljrs-compiler/src/aot.rs:1216-1244 | A form without anonymous functions is left alone. |
| AnonCall.EachInPlace | crates/cljrs-compiler/src/aot.rs:1216-1244 | The forms of a sequence are expanded one by one, in their places. |
| AnonFns.RewriteNames | crates/cljrs-builtins/src/form.rs:98-171 | The symbols after rewriting are exactly those of the original, each reference replaced by its parameter. |
| AnonFns.RewrittenNames | crates/cljrs-builtins/src/form.rs:98-171 | The symbols of a rewritten body are the introduced names and the symbols that are no references, and nothing else. |
| AnonFns.RewriteLeavesNoRef | crates/cljrs-builtins/src/form.rs:98-171 | No reference is left by the rewriting. |
| AnonFns.RewriteKeepsShape | crates/cljrs-builtins/src/form.rs:91-171 | Rewriting keeps the number of nested anonymous functions and the absence of conditionals. |
| AnonHygiene.OnlySymbolsChange | crates/cljrs-builtins/src/form.rs:91-171 | Rewriting changes nothing but symbols outside nested anonymous functions: with those blanked, the form is the same. |
| AnonFns.ParamsBind | crates/cljrs-builtins/src/form.rs:14-42 | The parameter vector binds the name of a reference if and only if the reference is not `%0`, and the rest if and only if it is used. |
| AnonFns.IntroducedBound | crates/cljrs-builtins/src/form.rs:14-42 | Every name the rewriting introduced is a parameter if and only if the body does not refer to `%0`. |
| AnonHygiene.KeptApart | crates/cljrs-builtins/src/form.rs:98-171 | Symbols that mean different things stay different under rewriting if and only if no symbol that is not a reference is a name introduced for one. |
| AnonHygiene.FreeAfter | crates/cljrs-builtins/src/form.rs:14-42 | What is free in the expansion: the symbols that are no references and no parameters, and the name standing for `%0`. |
| AnonHygiene.NothingCaptured | crates/cljrs-builtins/src/form.rs:14-42 | Every symbol that is no reference is still free in the expansion if and only if none is the name of an argument up to the greatest used, or of the rest where that is used. |
| AnonHygiene.Captured | crates/cljrs-builtins/src/form.rs:14-42 | In `#(% p__1)` both symbols become the one parameter. |
| AnonFns.ExpandAnonFnShape | crates/cljrs-builtins/src/form.rs:14-42 | Expanding an anonymous function removes exactly one of them. |
| AnonFns.AnonExpanded | crates/cljrs-compiler/src/aot.rs:1216-1244 | On forms without conditionals no anonymous function is left at any depth. |
| AnonFns.NormalisationComplete | crates/cljrs-compiler/src/aot.rs:1162-1244 | After both passes neither construct is left. |
| AnonArity.PartitionAll | crates/cljrs-builtins/src/form.rs:317-397 | Every symbol of a body is in a selected branch or in one passed over, as its clauses say. |
| AnonArity.DeepKept | crates/cljrs-compiler/src/aot.rs:1162-1205 | Deep expansion keeps exactly the symbols of selected branches. |
| AnonArity.ArityByOrder | crates/cljrs-builtins/src/form.rs:14-88 | For every body and feature set, expanding conditionals first never raises the arity or adds a rest parameter; the parameter vector is the same if and only if no dropped reference exceeds every kept one and a dropped rest reference has a kept one beside it. |
| AnonArity.ArityDependsOnOrder | crates/cljrs-builtins/src/form.rs:50-88 | A body whose arity is 5 or 1 according to the order. |
| Bencode.EncodeTo | crates/cljrs-bencode/src/lib.rs:54-82 | Appends the encoding to the buffer and changes nothing before it. |
| Bencode.ParseIntAt | crates/cljrs-bencode/src/lib.rs:149-168 | The scanning loop: a minus only at the start, digits up to `e`, and the four ways to fail. |
| Bencode.ParseBytesAt | crates/cljrs-bencode/src/lib.rs:170-194 | The scanning loop and the checked length: overflow is malformed, a short buffer is incomplete. |
| Bencode.ParseAt | crates/cljrs-bencode/src/lib.rs:113-147 | The decoder with cursor and loops computes `ParseValue`. |
| Bencode.ParseItemsAt | crates/cljrs-bencode/src/lib.rs:117-127 | The list loop collects values up to the closing byte. |
| Bencode.ParseEntriesAt | crates/cljrs-bencode/src/lib.rs:128-143 | The dictionary loop inserts pairs up to the closing byte; a key that is not a byte string is malformed. |
| BencodeLaws.ParseStable | crates/cljrs-bencode/src/lib.rs:99-111 | A value or an error found in a buffer is found unchanged when any bytes are appended. |
| BencodeLaws.PrefixIncomplete | crates/cljrs-bencode/src/lib.rs:99-111 | Every proper prefix of a decodable message answers "need more bytes". |
| BencodeLaws.RoundTrip | crates/cljrs-bencode/src/lib.rs:54-194 | Decoding an encoding followed by any bytes gives the value back and consumes exactly its bytes, for every value whose encoding has at most 2^64 - 1 bytes. |
| BencodeLaws.RoundTripAt | crates/cljrs-bencode/src/lib.rs:113-194 | The same at any position of any buffer. |
| BencodeLaws.EncodeInjective | crates/cljrs-bencode/src/lib.rs:54-82 | Equal encodings come from equal values. |
| BencodeLaws.PrefixFree | crates/cljrs-bencode/src/lib.rs:54-82 | No encoding is a proper prefix of another. |
| BencodeLaws.InsertSorted | crates/cljrs-bencode/src/lib.rs:128-143 | Insertion keeps a dictionary sorted by key without repeats. |
| BencodeLaws.InsertValid | crates/cljrs-bencode/src/lib.rs:128-143 | Insertion keeps a dictionary valid and adds nothing but the new entry. |
| BencodeLaws.InsertUpdates | crates/cljrs-bencode/src/lib.rs:128-143 | After insertion the key finds the new value and every other key what it found before. |
| BencodeLaws.ParseValid | crates/cljrs-bencode/src/lib.rs:113-147 | Every dictionary in a decoded value is sorted by key without repeats, whatever the input order. |
| BencodeLaws.Normalises | crates/cljrs-bencode/src/lib.rs:54-194 | A decoded value re-encodes to bytes that decode to it, however lenient the original bytes. |
| BencodeGrammar.DecodesExactly | crates/cljrs-bencode/src/lib.rs:104-194 | At every position the decoder reads a value and stops at an end if and only if the bytes between are a legal text of that value, in a grammar that allows leading zeros, negative zero and keys in any order. |
| BencodeFormat.Format | crates/cljrs-bencode/src/lib.rs:54-82 | The format with its bytes written out. |
| BencodeFormat.OneEntry | crates/cljrs-bencode/src/lib.rs:231-237 | A dictionary of one entry, byte by byte. |
| BencodeFormat.LessLexicographic | crates/cljrs-bencode/src/lib.rs:20-24 | Keys are in lexicographic order of their bytes. |
| BencodeCanonical.ReadsBackIff | crates/cljrs-bencode/src/lib.rs:54-194 | The decoder consumes exactly what the encoder writes for the value it returns if and only if no number in the message has a leading zero or is a negative zero and the keys of every dictionary strictly ascend. |
| BencodeCanonical.WrittenIffCanonical | crates/cljrs-bencode/src/lib.rs:54-194 | The same at any position. |
| BencodeCanonical.NumberCanonical | crates/cljrs-bencode/src/lib.rs:149-194 | A run of digits is the notation of its value if and only if it has no leading zero. |
| BencodeCanonical.NegativeZeroRead | crates/cljrs-bencode/src/lib.rs:149-168 | `i-0e` is read as zero. |
| BencodeStream.DrainBuffer | crates/cljrs-nrepl/src/server.rs:121-133 | Takes every complete message off the front of the buffer, stopping at an incomplete one or at an error. |
| BencodeStream.ReaderTask | crates/cljrs-nrepl/src/server.rs:111-139 | The reader alternates draining and reading until the input ends or an error drops the connection. |
| BencodeStream.ChunkingIrrelevant | crates/cljrs-nrepl/src/server.rs:111-139 | On any bytes, well formed or not, the messages dispatched and the fate of the connection do not depend on how the bytes were cut into reads. |
| BencodeStream.AllDelivered | crates/cljrs-nrepl/src/server.rs:111-139 | Messages sent whole are all dispatched in order under any chunking, and the start of one more waits in the buffer. |
| BencodeViable.IncompleteIsPrefix | crates/cljrs-bencode/src/lib.rs:99-111 | "Need more bytes" can be satisfied by some continuation if and only if the token cut off can be finished: its number in range and, where a key belongs, a byte string. |
| BencodeViable.ValueCompleted | crates/cljrs-bencode/src/lib.rs:113-194 | When it can, the bytes given complete it to a value that ends with them. |
| BencodeViable.ValueHopeless | crates/cljrs-bencode/src/lib.rs:113-194 | When it cannot, no continuation decodes. |
| BencodeViable.WaitsInVain | crates/cljrs-bencode/src/lib.rs:128-143 | `di` answers "need more bytes" although no continuation decodes. |
| Agent.FirstError | crates/cljrs-async/src/runtime.rs:137-145 | The error of the first failing watch, and none if and only if no watch fails. |
| Agent.TurnOnce | crates/cljrs-async/src/runtime.rs:121-160 | An action that throws leaves the state; one that returns sets it, and the watches get the old state and the new, up to the first that fails. |
| Agent.AgentCell.constructor | crates/cljrs-value/src/types.rs:1362-1371 | A new agent has its state, no error, an empty mailbox and no drainer. |
| Agent.AgentCell.ClaimDrain | crates/cljrs-async/src/runtime.rs:101-107 | The drainer's role goes to the first to claim it. |
| Agent.AgentCell.Enqueue | crates/cljrs-builtins/src/builtins.rs:9222-9240 | A failed agent refuses; otherwise the action queues behind everything sent before. |
| Agent.AgentCell.TakeNext | crates/cljrs-async/src/runtime.rs:113-119 | The drainer takes the oldest action, or retires when there is none. |
| Agent.AgentCell.RunWatches | crates/cljrs-async/src/runtime.rs:137-145 | Watches run in order up to the first that fails. |
| Agent.AgentCell.FinishAction | crates/cljrs-async/src/runtime.rs:123-160 | The new state stays even if a watch then fails; a failure records the error and ends the drain with the rest of the queue kept. |
| Agent.AgentCell.DrainSync | crates/cljrs-builtins/src/builtins.rs:9171-9217 | The inline drainer takes actions, including those sent meanwhile, until none is left or one fails; a nested call changes nothing. |
| Agent.AgentCell.SendSync | crates/cljrs-builtins/src/builtins.rs:9152-9242 | `send` without an executor: refused when failed, queued but not run without an evaluation context, otherwise drained inline. |
| Agent.AgentCell.Restart | crates/cljrs-builtins/src/builtins.rs:9285-9315 | Refused unless failed; sets the state, clears the error and keeps or drops the queue. |
| Agent.AgentCell.AwaitAgent | crates/cljrs-builtins/src/builtins.rs:9249-9267 | Drains inline when actions are queued and nobody is draining, failed or not; without an evaluation context that is an error and nothing changes. |
| AgentRuns.OneDrainer | crates/cljrs-async/src/runtime.rs:101-107 | In every run there is at most one drainer task, exactly while the flag is set, and none on a failed agent. |
| AgentRuns.SerialAndLossless | crates/cljrs-async/src/runtime.rs:101-164 | In every run the actions sent are, in send order, those in the log, the one in flight and the queue; the log names each action's true fate and whether it was forced on a failed agent; the state is the fold of the applied actions since the last restart and the error that of the last failure since. |
| AgentRuns.StrandedExactly | crates/cljrs-builtins/src/builtins.rs:9152-9168 | From a state with no such actions, a step leaves actions queued on a healthy agent without a drainer if and only if it queued or kept some without an evaluation context to start one in. |
| AgentRuns.StartedExactly | crates/cljrs-builtins/src/builtins.rs:9152-9167 | Where there is no drainer, one is started exactly by a send to a healthy agent, or by a restart of a failed one that leaves actions queued, with a context. |
| AgentRuns.NeverStranded | crates/cljrs-builtins/src/builtins.rs:9152-9242 | When every caller has an evaluation context, a non-empty queue without an error always has a drainer. |
| AgentRuns.StrandedAndRescued | crates/cljrs-builtins/src/builtins.rs:9249-9267 | A send without a context strands its action on a fresh agent; an await with one runs it. |
| AgentRuns.RestIsSerial | crates/cljrs-async/src/runtime.rs:101-164 | At rest, whatever the interleaving, unless an await forced actions on it after a failure, the agent is where applying its actions one by one in send order since the last restart leaves it: same state, error and remaining queue. |
| AgentRuns.DrainedIsSerial | crates/cljrs-builtins/src/builtins.rs:9171-9217 | The inline drainer reaches the state, error and queue of the same serial application. |
| AgentRuns.SyncMatchesAsync | crates/cljrs-builtins/src/builtins.rs:9168-9217 | After the same sends the inline drainer and the one on the executor agree on state, error and queue. |
| AgentRuns.AwaitKeepsFailed | crates/cljrs-builtins/src/builtins.rs:9249-9267 | Waiting on a failed agent leaves its pending actions queued if and only if there are none or the caller has no evaluation context: otherwise it runs them without a restart. |
| AgentRuns.AwaitForces | crates/cljrs-builtins/src/builtins.rs:9249-9267 | A run in which an await applies an action to a failed agent. |
| AgentRuns.InlineIsDrained | crates/cljrs-builtins/src/builtins.rs:9171-9217 | The inline drain of the runs is that of the mailbox. |
| AgentAwait.AwaiterOwed | crates/cljrs-async/src/eval_async.rs:338-357 | In every run, a task parked in `(await agent)` has its waker with the agent, the agent has not failed, and a drainer exists to wake it if and only if the actions are not stranded. |
| AgentAwait.AwaiterNeverForgotten | crates/cljrs-async/src/eval_async.rs:338-357 | When every caller that queues has an evaluation context, a parked task always has a drainer to wake it. |
| AgentAwait.RetiringWakes | crates/cljrs-async/src/runtime.rs:101-163 | A drainer that retires wakes every parked task and leaves the agent idle or failed. |
| AgentAwait.ReleasedExactly | crates/cljrs-async/src/eval_async.rs:345-355 | In every run a task that is polled is released if and only if the agent has failed, or has no drainer and nothing queued. |
| AgentAwait.AwaiterForgotten | crates/cljrs-async/src/eval_async.rs:338-357 | A task that awaits an action sent without a context is parked with nobody to wake it. |
| MergeSort.SortInPlace | crates/cljrs-builtins/src/builtins.rs:8503-8543 | On success the range holds the sorted sequence of its old contents; on failure the comparator's first error is returned; outside the range nothing changes. |
| MergeSort.MergeInPlace | crates/cljrs-builtins/src/builtins.rs:8515-8542 | The three loops merge two adjacent runs in place, the left element first unless it compares greater. |
| MergeSortLaws.SortPermutes | crates/cljrs-builtins/src/builtins.rs:8503-8543 | For any comparator, a successful sort is a permutation. |
| MergeSortLaws.SortFails | crates/cljrs-builtins/src/builtins.rs:8503-8543 | An error from the sort is the comparator's own on two elements of the input. |
| MergeSortLaws.LeftErrorFirst | crates/cljrs-builtins/src/builtins.rs:8503-8543 | An error among the comparisons of the left half is the answer, whatever the right half holds. |
| MergeSortLaws.SortOrders | crates/cljrs-builtins/src/builtins.rs:8503-8543 | For a comparator that fits a total preorder the sort succeeds, is sorted, and keeps or reverses the input order of each group of ties, as the comparator decides ties. |
| MergeSortLaws.StableSort | crates/cljrs-builtins/src/builtins.rs:8503-8543 | Under a total preorder the sort is sorted and stable. |
| MergeSortLaws.NumberSort | crates/cljrs-builtins/src/builtins.rs:8572-8595 | With numeric comparator replies the sort is sorted and stable for the order in which a reply of at most zero, NaN included, keeps the first element first. |
| MergeSortLaws.PredicateSort | crates/cljrs-builtins/src/builtins.rs:8572-8595 | Under a strict boolean predicate the sort is sorted and reverses the input order of each group of ties. |
| MergeSortLaws.ReplyRead | crates/cljrs-builtins/src/builtins.rs:8572-8595 | A number is read by its sign, true as less and false as greater; anything else is an error. |
| MergeSortLaws.OtherFails | crates/cljrs-builtins/src/builtins.rs:8572-8595 | A comparator that answers neither number nor boolean fails every sort of two elements or more. |
| Arith.WidestCategory | crates/cljrs-builtins/src/builtins.rs:2343-2366 | The widest category among the arguments, or an error if and only if one is not a number. |
| Arith.CategoryOrder | crates/cljrs-builtins/src/builtins.rs:2343-2366 | Machine integers, big integers, ratios, decimals and doubles, each wider than those before. |
| Arith.SimplifyBigInt | crates/cljrs-builtins/src/builtins.rs:2392-2397 | The result is a machine integer if and only if it fits. |
| Arith.SimplifyRatio | crates/cljrs-builtins/src/builtins.rs:2370-2388 | A ratio if and only if the value is not an integer, a machine integer if and only if it is one that fits. |
| Arith.LongLoop | crates/cljrs-builtins/src/builtins.rs:2430-2448 | Checked machine arithmetic with a switch to big integers at the first overflow is exact wherever that is, and a machine integer if and only if the final result fits. |
| Arith.BigIntLoop | crates/cljrs-builtins/src/builtins.rs:2423-2429 | The big-integer loop is exact on lists without ratios. |
| Arith.RatioLoop | crates/cljrs-builtins/src/builtins.rs:2416-2422 | The ratio loop is exact on machine integers, big integers and ratios. |
| Arith.AddNums | crates/cljrs-builtins/src/builtins.rs:2399-2450 | `+` gives the mathematical sum, in the representation its value and the widest argument determine; errors and the inexact categories as in the source. |
| Arith.MulNums | crates/cljrs-builtins/src/builtins.rs:2627-2677 | `*` gives the mathematical product, likewise. |
| Arith.SubNums | crates/cljrs-builtins/src/builtins.rs:2484-2557 | `-` gives the first argument less the others, or the negation of a single one, likewise; no argument is an arity error. |
| Arith.Negate | crates/cljrs-builtins/src/builtins.rs:2492-2506 | Unary minus is exact; it narrows a big integer that fits. |
| Arith.AddQuote | crates/cljrs-builtins/src/builtins.rs:2453-2482 | `+'` on machine integers is exact and machine-sized if and only if between the machine minimum and 0x7F00000000000000; otherwise as `+`. |
| Arith.MulQuote | crates/cljrs-builtins/src/builtins.rs:2596-2625 | `*'` likewise. |
| Arith.SubQuote | crates/cljrs-builtins/src/builtins.rs:2559-2594 | `-'` likewise, except that on one machine integer it returns that integer, its negation only when zero; any other single argument is negated, inexact or an error as for `-`. |
| Arith.LongWhenFits | crates/cljrs-builtins/src/builtins.rs:2399-2450 | On machine integers the answer is a machine integer if and only if the exact value fits. |
| Arith.ConversionsLossless | crates/cljrs-builtins/src/builtins.rs:2283-2293 | In the category chosen no argument is truncated by the conversion to a big integer. |
| Arith.RatioTruncates | crates/cljrs-builtins/src/builtins.rs:2283-2293 | The conversion of a ratio truncates toward zero. |
| Arith.NegationNarrows | crates/cljrs-builtins/src/builtins.rs:2492-2506 | Negating a big integer that fits gives a machine integer, subtracting it from zero a big one. |
| Arith.PromotedTooSoon | crates/cljrs-builtins/src/builtins.rs:2453-2625 | The greatest machine integer is promoted by the three forms though it fits, and `(-' 1)` is 1. |
| Arith.QuoteBound | crates/cljrs-builtins/src/builtins.rs:2453-2625 | 0x7F00000000000000 stays a machine integer and the next number does not; likewise at the machine minimum. |
| Rational.Reduce | crates/cljrs-builtins/src/builtins.rs:2370-2388 | Reduction keeps the value, reaches lowest terms, and has denominator one if and only if the value is an integer. |

## Left out

- Floating point and decimals: doubles and big decimals appear only as the categories that leave the exact part of arithmetic; NaN only as a comparator reply.
- TypeInferSound.InferenceSound: machine values are abstract for doubles, so which double an operation returns is not modelled, only that it is one.
- ChannelWakeups.NoLostTake: covers tasks on one executor, where checking and parking are one step; blocking callers, condition-variable timeouts and tasks dropped while parked are not modelled.
- ChannelWakeups.NoLostPut: the same, and buffered channels only; rendezvous puts are covered by the members of `ChannelStranded`.
- ChannelRuns.RendezvousExact: executions in which the take count does not wrap round while a put waits; `TokenExact` says what happens when it does. The same bound is in `SoloPutNotStranded` and `SafeUpToOne`.
- EvalAsync.Evaluator.EvalForm: covers constants, symbols, vector literals, do, if, let, loop, recur, try, await and primitive calls, whose answers are a parameter; macro expansion, map and set literals, deref and other special forms are not modelled; a fuel argument bounds loops, and `FuelIrrelevant` says that it never changes an answer.
- EvalAsync.Evaluator.BindPattern: plain names and sequential patterns by position; associative patterns, `& rest` and `:as` are not modelled.
- The trampoline that runs async functions, and compiled state machines beyond their park-and-wake step.
- DirectCallSound.RunPreserved: says nothing of a run that gets stuck on an undefined variable or a missing function, which lowering rules out; calls out of the unit are an oracle, and fuel bounds the length of a run.
- Code generation, regions, garbage collection, gas metering and error traces.
- Bencode.EncodeTo: the buffer is a sequence passed and returned rather than updated through a reference.
- BencodeLaws.RoundTrip: values whose encoding is longer than the address space are excluded, as are such buffers in `ReadsBackIff`.
- The nREPL server beyond framing, and the pod protocol, whose reader has the same loop.
- AgentRuns.SyncMatchesAsync: actions that hand back a future are settled by the drainer on the executor and stored as they are by the inline drainer, so the two are compared on actions that do not.
- Agent.AgentCell.DrainSync: what the running actions send to their own agent is a finite script, so drains that never end are not modelled. Sends an action makes to its failed agent are refused, as in the source.
- AgentRuns.SerialAndLossless: an action that restarts its own agent while an await forces it on a failed one is not modelled.
- AgentAwait.AwaiterOwed: tasks on the executor's thread, where looking and leaving a waker are one step; a task dropped while parked is not modelled.
- MergeSort.SortInPlace: comparators are functions; one whose answers change between calls is not modelled, nor are the exact contents of the range after an error.
- Arith.AddNums: division, remainders and bit operations are not modelled.
- Isolates, worker pools, collections, strings, regular expressions and the reader: thin layers over code outside the model, or easy members.
