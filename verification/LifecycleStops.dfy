/** Which runtimes an owner can still stop, and runs into the states that abandon a thread. */
module LifecycleStops {
  import opened Wrappers
  import opened LifecycleCalls
  import opened LifecycleInvariants
  import opened LifecycleThreads
  import opened LifecycleProtocol
  import opened LifecycleTheorems
  import opened LifecycleReports

  // ---------- Schedules of a few actions ----------

  function Try(s: System, a: Action): System {
    if Enabled(s, a) then Next(s, a) else s
  }

  lemma OneMore(s: System, schedule: seq<Action>, a: Action)
    ensures Execute(s, schedule + [a]) == Try(Execute(s, schedule), a)
  {
    assert (schedule + [a])[..|schedule|] == schedule;
  }

  lemma ThreeActions(s: System, a: Action, b: Action, c: Action)
    ensures Execute(s, [a, b, c]) == Try(Try(Try(s, a), b), c)
  {
    OneMore(s, [], a);
    OneMore(s, [a], b);
    OneMore(s, [a, b], c);
    assert [] + [a] == [a] && [a] + [b] == [a, b] && [a, b] + [c] == [a, b, c];
  }

  lemma FourActions(s: System, a: Action, b: Action, c: Action, d: Action)
    ensures Execute(s, [a, b, c, d]) == Try(Try(Try(Try(s, a), b), c), d)
  {
    ThreeActions(s, a, b, c);
    OneMore(s, [a, b, c], d);
    assert [a, b, c] + [d] == [a, b, c, d];
  }

  lemma {:induction false} ExecuteAppends(s: System, first: seq<Action>, second: seq<Action>)
    ensures Execute(s, first + second) == Execute(Execute(s, first), second)
  {
    if second == [] {
      assert first + second == first;
    } else {
      ExecuteAppends(s, first, Front(second));
      OneMore(s, first + Front(second), Last(second));
      assert first + Front(second) + [Last(second)] == first + second;
    }
  }

  // ---------- One command, one start ----------

  /** An idle owner whose thread waits for the next command. */
  predicate Serving(s: System, t: nat) {
    s.waiting.Idle? && s.runtime.sender == Some(t) && t < |s.threads| && s.threads[t].phase.Receiving?
  }

  /** The owner sends a command; its thread takes it, calls the adapter and answers. */
  function Asks(call: Call, t: nat, reply: Reply): seq<Action> {
    [Begin(call), Runs(t, None), Runs(t, Some(reply)), Runs(t, None)]
  }

  function Handed(s: System, t: nat, call: Call, begun: Runtime, command: Command): System {
    s.(runtime := begun, waiting := AwaitReply(t, Request(s.requests, command), call), requests := s.requests + 1)
  }

  function Served(th: Thread, request: Request, reply: Reply): Thread {
    th.(phase := if request.command.Stop? then Finishing else Receiving, queue := [],
    trace := th.trace + [Entry(CommandCall(request.command), Some(request.id), Some(reply))])
  }

  function Taken(th: Thread, request: Request): Thread { th.(phase := Handling(request), queue := []) }

  lemma CommandIsSent(s: System, t: nat, call: Call, begun: Runtime, command: Command)
    requires Inv(s) && Serving(s, t) && Opening(s.runtime, call) == Sends(begun, command)
    ensures Try(s, Begin(call))
         == Handed(s, t, call, begun, command).(
            threads := s.threads[t := s.threads[t].(queue := [Request(s.requests, command)])])
  {
    ReplayConsistent(s.start, s.history);
    OpeningKeepsSlot(s.runtime, call);
    var request := Request(s.requests, command);
    assert Placed(s.waiting, s.replies, t, s.threads[t]);
    assert s.threads[t].queue + [request] == [request];
  }

  lemma SentIsTaken(s: System, t: nat, request: Request)
    requires t < |s.threads| && s.threads[t].phase.Receiving? && s.threads[t].queue == [request]
    ensures Try(s, Runs(t, None)) == s.(threads := s.threads[t := Taken(s.threads[t], request)])
  {
    assert [request][1..] == [];
  }

  /** The command is sent and taken. */
  lemma CommandIsTaken(s: System, t: nat, call: Call, begun: Runtime, command: Command)
    requires Inv(s) && Serving(s, t) && Opening(s.runtime, call) == Sends(begun, command)
    ensures Try(Try(s, Begin(call)), Runs(t, None))
         == Handed(s, t, call, begun, command).(
            threads := s.threads[t := Taken(s.threads[t], Request(s.requests, command))])
  {
    var request := Request(s.requests, command);
    var th := s.threads[t];
    var queued := th.(queue := [request]);
    CommandIsSent(s, t, call, begun, command);
    SentIsTaken(Handed(s, t, call, begun, command).(threads := s.threads[t := queued]), t, request);
    assert s.threads[t := queued][t := Taken(th, request)] == s.threads[t := Taken(th, request)];
  }

  /** A thread with a command in hand calls the adapter and answers. */
  lemma TakenIsAnswered(s: System, t: nat, th: Thread, request: Request, reply: Reply)
    requires t < |s.threads| && s.threads[t] == Taken(th, request)
    ensures Try(Try(s, Runs(t, Some(reply))), Runs(t, None))
         == s.(replies := s.replies[request.id := reply], threads := s.threads[t := Served(th, request, reply)])
  {
    var called :=
      Called(s.threads[t], CommandCall(request.command), Some(request.id), Some(reply), Replying(request, reply));
    var replying := s.(threads := s.threads[t := called]);
    assert Try(s, Runs(t, Some(reply))) == replying;
    assert RunThread(called, None) == Served(th, request, reply);
    assert replying.threads[t := Served(th, request, reply)] == s.threads[t := Served(th, request, reply)];
  }

  lemma CommandIsServed(s: System, t: nat, call: Call, begun: Runtime, command: Command, reply: Reply)
    requires Inv(s) && Serving(s, t) && Opening(s.runtime, call) == Sends(begun, command)
    ensures Execute(s, Asks(call, t, reply))
         == Handed(s, t, call, begun, command).(
            replies := s.replies[s.requests := reply],
            threads := s.threads[t := Served(s.threads[t], Request(s.requests, command), reply)])
  {
    var request := Request(s.requests, command);
    var th := s.threads[t];
    var served := Served(th, request, reply);
    FourActions(s, Begin(call), Runs(t, None), Runs(t, Some(reply)), Runs(t, None));
    CommandIsTaken(s, t, call, begun, command);
    var taken := Handed(s, t, call, begun, command).(threads := s.threads[t := Taken(th, request)]);
    TakenIsAnswered(taken, t, th, request, reply);
    assert taken.threads[t := served] == s.threads[t := served];
  }

  /** The owner takes the reply: the call is over, unless it was a stop that now has to join. */
  lemma CommandCompletes(s: System, t: nat, call: Call, begun: Runtime, command: Command, reply: Reply)
    requires Inv(s) && Serving(s, t) && Opening(s.runtime, call) == Sends(begun, command)
    requires !AwaitsJoin(command, Answered(reply))
    ensures var after := Execute(s, Asks(call, t, reply) + [TakeReply]);
            var done := AfterAnswer(begun, command, Answered(reply));
            && Inv(after) && after.waiting.Idle? && after.runtime == done.0 && after.last == Some(done.1)
            && after.threads == s.threads[t := Served(s.threads[t], Request(s.requests, command), reply)]
  {
    CommandIsServed(s, t, call, begun, command, reply);
    OneMore(s, Asks(call, t, reply), TakeReply);
    ExecuteKeepsInv(s, Asks(call, t, reply) + [TakeReply]);
  }

  /** The adapter panics over a command, and the owner finds the reply channel closed. */
  function Panics(call: Call, t: nat): seq<Action> {
    [Begin(call), Runs(t, None), Runs(t, None), TakeReply]
  }

  lemma TakenPanics(s: System, t: nat, th: Thread, request: Request)
    requires t < |s.threads| && s.threads[t] == Taken(th, request)
    requires s.waiting.AwaitReply? && s.waiting.thread == t && s.waiting.request == request
    requires request.id !in s.replies
    ensures var after := Try(Try(s, Runs(t, None)), TakeReply);
            var done := AfterAnswer(s.runtime, request.command, ResponseLost);
            && after.waiting.Idle? && |after.threads| == |s.threads| && after.threads[t].phase.Panicked?
            && after.runtime == done.0 && after.last == Some(done.1)
  {
    var panicked := Try(s, Runs(t, None));
    assert panicked.threads[t].phase.Panicked?;
    assert Enabled(panicked, TakeReply) && AnswerTaken(panicked).ResponseLost?;
  }

  lemma CommandPanics(s: System, t: nat, call: Call, begun: Runtime, command: Command)
    requires Inv(s) && Serving(s, t) && Opening(s.runtime, call) == Sends(begun, command)
    ensures var after := Execute(s, Panics(call, t));
            var done := AfterAnswer(begun, command, ResponseLost);
            && after.waiting.Idle? && |after.threads| == |s.threads| && after.threads[t].phase.Panicked?
            && after.runtime == done.0 && after.last == Some(done.1)
  {
    var request := Request(s.requests, command);
    FourActions(s, Begin(call), Runs(t, None), Runs(t, None), TakeReply);
    CommandIsTaken(s, t, call, begun, command);
    TakenPanics(
      Handed(s, t, call, begun, command).(threads := s.threads[t := Taken(s.threads[t], request)]), t, s.threads[t],
      request);
  }

  /** The owner activates; the new thread starts its adapter and announces what it returned. */
  function StartsUp(call: Call, t: nat, reply: Reply): seq<Action> {
    [Begin(call), Runs(t, Some(reply)), Runs(t, None), TakeStart]
  }

  function Started(reply: Reply): Thread {
    Thread(Receiving, [], Some(reply), [Entry(StartCall, None, Some(reply))])
  }

  /** The new thread's first two steps. */
  lemma SpawnedAnnounces(s: System, threads: seq<Thread>, reply: Reply)
    requires s.threads == threads + [SPAWNED]
    ensures Try(Try(s, Runs(|threads|, Some(reply))), Runs(|threads|, None))
         == s.(threads := threads + [Started(reply)])
  {
    var n := |threads|;
    var called := Called(SPAWNED, StartCall, None, Some(reply), Announcing(reply));
    assert called.trace == [Entry(StartCall, None, Some(reply))];
    var announcing := s.(threads := threads + [called]);
    assert s.threads[n := called] == announcing.threads;
    assert Try(s, Runs(n, Some(reply))) == announcing;
    assert announcing.threads[n := Started(reply)] == threads + [Started(reply)];
  }

  lemma ActivationStarts(s: System, call: Call, begun: Runtime, reply: Reply)
    requires s.waiting.Idle? && Opening(s.runtime, call) == Spawns(begun)
    ensures var n := |s.threads|;
            var after := Execute(s, StartsUp(call, n, reply));
            && after.waiting.Idle? && after.threads == s.threads + [Started(reply)]
            && after.runtime == AfterStart(begun, Some(reply), n).0 && after.start == s.start
            && after.requests == s.requests && after.replies == s.replies
  {
    var n := |s.threads|;
    FourActions(s, Begin(call), Runs(n, Some(reply)), Runs(n, None), TakeStart);
    var spawned := s.(runtime := begun, waiting := AwaitStart(n, call), threads := s.threads + [SPAWNED]);
    assert Try(s, Begin(call)) == spawned;
    SpawnedAnnounces(spawned, s.threads, reply);
    var announced := spawned.(threads := s.threads + [Started(reply)]);
    assert Enabled(announced, TakeStart);
  }

  // ---------- Which runtimes can be stopped ----------

  /** Nothing to stop, or a thread that still takes commands. */
  predicate TakesCommands(s: System) {
    s.runtime.sender.Some? ==>
      s.runtime.sender.value < |s.threads| && s.threads[s.runtime.sender.value].phase.Receiving?
  }

  predicate StoppedNow(s: System) { s.waiting.Idle? && s.runtime.status.lifecycle == Stopped }

  /** Some schedule stops the runtime without activating it anew. */
  ghost predicate Stoppable(s: System) {
    exists schedule :: NoReactivation(s.runtime, schedule) && StoppedNow(Execute(s, schedule))
  }

  /** A shutdown that its thread acknowledges and that is joined. */
  function ShutsDown(t: nat, fallback: Fallback, o: Outcome): seq<Action> {
    Asks(Shutdown(fallback), t, Ok(o)) + [TakeReply, Runs(t, Some(Ok(o))), TakeJoin]
  }

  /** An acknowledged shutdown is joined once its thread has made its final call. */
  lemma AcknowledgedIsJoined(s: System, t: nat, final: Reply)
    requires s.waiting.AwaitReply? && s.waiting.thread == t && t < |s.threads| && s.threads[t].phase.Finishing?
    requires s.waiting.request.command.Stop? && s.waiting.request.id in s.replies
    requires s.replies[s.waiting.request.id].Ok?
    ensures StoppedNow(Execute(s, [TakeReply, Runs(t, Some(final)), TakeJoin]))
  {
    ThreeActions(s, TakeReply, Runs(t, Some(final)), TakeJoin);
    var joining := Try(s, TakeReply);
    assert joining.waiting.AwaitJoin? && joining.threads == s.threads;
    var ended := Try(joining, Runs(t, Some(final)));
    assert ended.threads[t].phase.Ended? && ended.waiting == joining.waiting;
    assert Enabled(ended, TakeJoin);
  }

  lemma ServingCanShutDown(s: System, t: nat, fallback: Fallback, o: Outcome)
    requires Inv(s) && Serving(s, t)
    ensures StoppedNow(Execute(s, ShutsDown(t, fallback, o)))
  {
    var call := Shutdown(fallback);
    var status := BeginCommand(s.runtime.profile, s.runtime.status, Stopping, SHUTDOWN_REFS, fallback);
    var begun := s.runtime.(status := status);
    assert Opening(s.runtime, call) == Sends(begun, Stop);
    CommandIsServed(s, t, call, begun, Stop, Ok(o));
    ExecuteAppends(s, Asks(call, t, Ok(o)), [TakeReply, Runs(t, Some(Ok(o))), TakeJoin]);
    AcknowledgedIsJoined(Execute(s, Asks(call, t, Ok(o))), t, Ok(o));
  }

  /** Without a thread a shutdown completes at once. */
  lemma DisconnectedShutsDown(s: System, fallback: Fallback)
    requires Inv(s) && s.waiting.Idle? && s.runtime.sender.None?
    ensures StoppedNow(Execute(s, [Begin(Shutdown(fallback))]))
  {
    OneMore(s, [], Begin(Shutdown(fallback)));
    assert [] + [Begin(Shutdown(fallback))] == [Begin(Shutdown(fallback))];
  }

  lemma NotServingIsStuck(s: System)
    requires Inv(s) && s.waiting.Idle? && !TakesCommands(s)
    ensures Stuck(s, s.runtime.sender.value)
  {
    var t := s.runtime.sender.value;
    assert Placed(s.waiting, s.replies, t, s.threads[t]);
  }

  const ANY_OUTCOME := EventLogOutcome(
    ControlStopped, false, false, false, false, true, 0, 0, 0, 0, 0, 0, [], None)

  /**
   * Between calls, whatever happened before: an owner can bring its runtime to Stopped without activating it anew
   * if and only if there is no thread or the thread still takes commands. A thread that answered a stop with an
   * error, or whose adapter panicked, does not.
   */
  lemma StoppableExactlyWhen(s: System)
    requires Inv(s) && s.waiting.Idle?
    ensures Stoppable(s) <==> TakesCommands(s)
  {
    if !TakesCommands(s) {
      NotServingIsStuck(s);
      forall schedule | NoReactivation(s.runtime, schedule) ensures !StoppedNow(Execute(s, schedule)) {
        FailedStopIsNeverJoined(s, s.runtime.sender.value, schedule);
      }
    } else if s.runtime.sender.None? {
      DisconnectedShutsDown(s, NoFallback);
      assert NoReactivation(s.runtime, [Begin(Shutdown(NoFallback))]);
    } else {
      var t := s.runtime.sender.value;
      ServingCanShutDown(s, t, NoFallback, ANY_OUTCOME);
      assert NoReactivation(s.runtime, ShutsDown(t, NoFallback, ANY_OUTCOME));
    }
  }

  // ---------- What the owner can tell from its own calls ----------

  /** An error that a call returns only if the thread is out of its loop. */
  predicate LosesThread(call: Call, ending: Ending) {
    && ending.Fails?
    && (ending.error.CommandRejected? || ending.error.ResponseUnavailable?
        || (IsStop(call) && ending.error.AdapterError?))
  }

  predicate Reconnects(call: Call, ending: Ending) { call.Activate? && ending.Checked? }

  /** Some call since the last completed activation has returned such an error. */
  predicate ThreadLost(start: Runtime, history: seq<Step>) {
    history != []
    && var step := Last(history);
    var ending := Perform(Replay(start, Front(history)), step.call, step.env).1;
    !Reconnects(step.call, ending) && (ThreadLost(start, Front(history)) || LosesThread(step.call, ending))
  }

  predicate Left(th: Thread) { th.phase.Finishing? || Gone(th) }

  /** The owner's history knows about its thread, wherever the owner stands. */
  predicate LossKnown(s: System) {
    var lost := ThreadLost(s.start, s.history);
    match s.waiting
    case Idle => lost <==> !TakesCommands(s)
    case AwaitStart(t, _) =>
      (lost <==> !TakesCommands(s)) && t < |s.threads| && (s.threads[t].phase.Panicked? ==> s.threads[t].ready.None?)
    case AwaitReply(t, request, _) =>
      lost ==> t < |s.threads| && Left(s.threads[t]) && request.id !in s.replies
    case AwaitJoin(_, _, _) => !lost
  }

  lemma LossGrows(s: System, done: (Runtime, Ending), step: Step)
    requires done == Perform(Replay(s.start, s.history), step.call, step.env)
    ensures var after := Complete(s, done, step);
            ThreadLost(after.start, after.history)
            <==> !Reconnects(step.call, done.1)
                 && (ThreadLost(s.start, s.history) || LosesThread(step.call, done.1))
  {
    HistoryGrows(s, step);
  }

  lemma OpeningLosesNothing(r: Runtime, call: Call)
    ensures var stage := Opening(r, call);
            stage.Completes? ==> !LosesThread(call, stage.ending) && !Reconnects(call, stage.ending)
    ensures Opening(r, call).Spawns? ==> call.Activate?
    ensures Opening(r, call).Sends? ==> !call.Activate? && (IsStop(call) <==> Opening(r, call).command.Stop?)
  {}

  lemma BeginKeepsLoss(s: System, call: Call)
    requires Inv(s) && LossKnown(s) && s.waiting.Idle?
    ensures LossKnown(BeginNext(s, call))
  {
    ReplayConsistent(s.start, s.history);
    OpeningKeepsSlot(s.runtime, call);
    OpeningLosesNothing(s.runtime, call);
    match Opening(s.runtime, call)
    case Completes(after, ending) =>
      PerformIsStaged(s.runtime, call, NO_ENV);
      LossGrows(s, (after, ending), Step(call, NO_ENV));
    case Spawns(begun) =>
    case Sends(begun, command) =>
      var t := begun.sender.value;
      assert Placed(s.waiting, s.replies, t, s.threads[t]);
      if Gone(s.threads[t]) {
        var env := NO_ENV.(answer := SendRejected);
        PerformIsStaged(s.runtime, call, env);
        LossGrows(s, AfterAnswer(begun, command, SendRejected), Step(call, env));
        AfterAnswerKeepsSlot(begun, command, SendRejected);
      }
  }

  lemma TakeStartKeepsLoss(s: System)
    requires Inv(s) && LossKnown(s) && Enabled(s, TakeStart)
    ensures LossKnown(TakeStartNext(s))
  {
    var t := s.waiting.thread;
    var before := Replay(s.start, s.history);
    var env := NO_ENV.(spawned := t, started := s.threads[t].ready);
    ReplayConsistent(s.start, s.history);
    OpeningLosesNothing(before, s.waiting.call);
    PerformIsStaged(before, s.waiting.call, env);
    LossGrows(s, AfterStart(s.runtime, env.started, t), Step(s.waiting.call, env));
    assert Placed(s.waiting, s.replies, t, s.threads[t]);
  }

  lemma TakeReplyKeepsLoss(s: System)
    requires Inv(s) && LossKnown(s) && Enabled(s, TakeReply)
    ensures LossKnown(TakeReplyNext(s))
  {
    var answer := AnswerTaken(s);
    var command := s.waiting.request.command;
    ReplierAtRest(s);
    if !AwaitsJoin(command, answer) {
      var env := NO_ENV.(answer := answer);
      var before := Replay(s.start, s.history);
      ReplayConsistent(s.start, s.history);
      OpeningLosesNothing(before, s.waiting.call);
      PerformIsStaged(before, s.waiting.call, env);
      LossGrows(s, AfterAnswer(s.runtime, command, answer), Step(s.waiting.call, env));
      AfterAnswerKeepsSlot(s.runtime, command, answer);
      AnswerTells(s);
    }
  }

  /** Unless the call returns such an error, the thread that answered takes the next command. */
  lemma AnswerTells(s: System)
    requires Inv(s) && Enabled(s, TakeReply) && !AwaitsJoin(s.waiting.request.command, AnswerTaken(s))
    requires IsStop(s.waiting.call) <==> s.waiting.request.command.Stop?
    ensures LosesThread(s.waiting.call, AfterAnswer(s.runtime, s.waiting.request.command, AnswerTaken(s)).1)
            <==> !s.threads[s.waiting.thread].phase.Receiving?
  {
    assert Placed(s.waiting, s.replies, s.waiting.thread, s.threads[s.waiting.thread]);
  }

  lemma TakeJoinKeepsLoss(s: System)
    requires Inv(s) && LossKnown(s) && Enabled(s, TakeJoin)
    ensures LossKnown(TakeJoinNext(s))
  {
    var env := NO_ENV.(answer := s.waiting.answer, joined := s.threads[s.waiting.thread].phase.Ended?);
    var before := Replay(s.start, s.history);
    OpeningLosesNothing(before, s.waiting.call);
    PerformIsStaged(before, s.waiting.call, env);
    LossGrows(s, AfterJoin(s.runtime, env.joined), Step(s.waiting.call, env));
  }

  lemma RunsKeepsLoss(s: System, t: nat, answer: Option<Reply>)
    requires Inv(s) && LossKnown(s) && ThreadEnabled(s, t)
    ensures LossKnown(RunsNext(s, t, answer))
  {
    assert Placed(s.waiting, s.replies, t, s.threads[t]);
  }

  lemma NextKeepsLoss(s: System, a: Action)
    requires Inv(s) && LossKnown(s) && Enabled(s, a)
    ensures LossKnown(Next(s, a))
  {
    match a
    case Begin(call) => BeginKeepsLoss(s, call);
    case TakeStart => TakeStartKeepsLoss(s);
    case TakeReply => TakeReplyKeepsLoss(s);
    case TakeJoin => TakeJoinKeepsLoss(s);
    case Runs(t, answer) => RunsKeepsLoss(s, t, answer);
  }

  lemma {:induction false} ExecuteKeepsLoss(s: System, schedule: seq<Action>)
    requires Inv(s) && LossKnown(s)
    ensures Inv(Execute(s, schedule)) && LossKnown(Execute(s, schedule))
  {
    if schedule != [] {
      var before := Execute(s, Front(schedule));
      ExecuteKeepsLoss(s, Front(schedule));
      if Enabled(before, Last(schedule)) {
        NextKeepsInv(before, Last(schedule));
        NextKeepsLoss(before, Last(schedule));
      }
    }
  }

  /**
   * After any schedule from a new runtime the owner can tell from the results of its own calls: it can still stop
   * the runtime without activating it anew if and only if, since its last completed activation, no command was
   * rejected or left unanswered and no stop was answered with an error.
   */
  lemma StoppableByHistory(profile: Profile, owner: Owner, fallback: Fallback, schedule: seq<Action>)
    ensures var s := Execute(Initial(profile, owner, fallback), schedule);
            s.waiting.Idle? ==> (Stoppable(s) <==> !ThreadLost(New(profile, owner, fallback), s.history))
  {
    var s := Execute(Initial(profile, owner, fallback), schedule);
    InitialInv(profile, owner, fallback);
    ExecuteKeepsLoss(Initial(profile, owner, fallback), schedule);
    ExecuteKeepsStart(Initial(profile, owner, fallback), schedule);
    if s.waiting.Idle? { StoppableExactlyWhen(s); }
  }

  // ---------- Runs that cannot be stopped ----------

  /** A runtime just activated. */
  function Activated(profile: Profile, owner: Owner, fallback: Fallback, started: Reply): System {
    Execute(Initial(profile, owner, fallback), StartsUp(Activate(owner, [], fallback), 0, started))
  }

  lemma ActivatedServes(profile: Profile, owner: Owner, fallback: Fallback, started: Reply)
    requires Accepted(owner)
    ensures var s := Activated(profile, owner, fallback, started);
            && Inv(s) && Serving(s, 0) && s.runtime.owner == owner && s.runtime.profile == profile
            && s.runtime.status.lifecycle == (if started.Ok? then Active else Degraded)
            && s.threads == [Started(started)]
  {
    var initial := Initial(profile, owner, fallback);
    var call := Activate(owner, [], fallback);
    var begun := initial.runtime.(status := BeginActivation(profile, initial.runtime.status, [], fallback));
    assert Opening(initial.runtime, call) == Spawns(begun);
    ActivationStarts(initial, call, begun, started);
    assert [] + [Started(started)] == [Started(started)];
    InitialInv(profile, owner, fallback);
    ExecuteKeepsInv(initial, StartsUp(call, 0, started));
  }

  /** Activate, then a stop that the adapter answers with an error: no later call stops the runtime. */
  lemma RefusedStopRun(profile: Profile, owner: Owner, fallback: Fallback, started: Reply, reason: string)
    requires Accepted(owner)
    ensures var stop := StopCall(owner, [], fallback);
            var s := Execute(Activated(profile, owner, fallback, started), Asks(stop, 0, Err(reason)) + [TakeReply]);
            && Inv(s) && s.last == Some(Fails(AdapterError(reason))) && s.runtime.status.lifecycle == Stopping
            && Stuck(s, 0) && s.waiting.Idle? && !Stoppable(s)
  {
    var active := Activated(profile, owner, fallback, started);
    ActivatedServes(profile, owner, fallback, started);
    var stop := StopCall(owner, [], fallback);
    var begun := active.runtime.(status := BeginCommand(profile, active.runtime.status, Stopping, [], fallback));
    assert Opening(active.runtime, stop) == Sends(begun, Stop);
    CommandCompletes(active, 0, stop, begun, Stop, Err(reason));
    StuckIsNotStoppable(Execute(active, Asks(stop, 0, Err(reason)) + [TakeReply]), 0);
  }

  lemma LostReplyKeepsSlot(s: System)
    requires SlotOk(s) && Enabled(s, TakeReply) && AnswerTaken(s).ResponseLost?
    ensures var after := TakeReplyNext(s);
            Stuck(after, s.waiting.thread) && after.waiting.Idle? && after.last == Some(Fails(ResponseUnavailable))
  {
    AfterAnswerKeepsSlot(s.runtime, s.waiting.request.command, ResponseLost);
  }

  lemma StuckIsNotStoppable(s: System, t: nat)
    requires Inv(s) && s.waiting.Idle? && Stuck(s, t)
    ensures !Stoppable(s)
  {
    StoppableExactlyWhen(s);
  }

  /** A reply that never comes leaves the slot with a thread that is gone. */
  lemma LostReplyIsStuck(s: System)
    requires Inv(s) && Enabled(s, TakeReply) && AnswerTaken(s).ResponseLost?
    ensures var after := TakeReplyNext(s);
            Inv(after) && Stuck(after, s.waiting.thread) && after.last == Some(Fails(ResponseUnavailable))
            && !Stoppable(after)
  {
    TakeReplyKeepsInv(s);
    LostReplyKeepsSlot(s);
    StuckIsNotStoppable(TakeReplyNext(s), s.waiting.thread);
  }

  /**
   * Activate, then a drain over which the adapter panics: the runtime calls itself Active, no later stop stops it,
   * and an activation returns its status at once and starts nothing.
   */
  lemma PanicRun(profile: Profile, owner: Owner, fallback: Fallback, started: Outcome, maxBatches: nat)
    requires Accepted(owner)
    ensures var s := Execute(
                       Activated(profile, owner, fallback, Ok(started)), Panics(DrainCall(owner, maxBatches), 0));
            && Inv(s) && s.last == Some(Fails(ResponseUnavailable)) && s.runtime.status.lifecycle == Active
            && Stuck(s, 0) && s.waiting.Idle? && !Stoppable(s)
            && var again := Try(s, Begin(Activate(owner, [], fallback)));
            again.runtime == s.runtime && again.threads == s.threads
            && again.last == Some(Returns(StatusReturned(s.runtime.status)))
  {
    var active := Activated(profile, owner, fallback, Ok(started));
    ActivatedServes(profile, owner, fallback, Ok(started));
    var drain := DrainCall(owner, maxBatches);
    assert Opening(active.runtime, drain) == Sends(active.runtime, Drain(maxBatches));
    CommandPanics(active, 0, drain, active.runtime, Drain(maxBatches));
    ExecuteKeepsInv(active, Panics(drain, 0));
    StuckIsNotStoppable(Execute(active, Panics(drain, 0)), 0);
  }

  // ---------- Runs with two adapters ----------

  /**
   * An owner's activation over a present thread, announced: it takes the sender away from that thread if and only
   * if the runtime is neither Active nor Degraded. The thread itself is not told.
   */
  lemma ActivationDetachesExactlyWhen(s: System, t: nat, call: Call, reply: Reply)
    requires Inv(s) && s.waiting.Idle? && s.runtime.sender == Some(t) && Reactivates(s.runtime, call)
    ensures var after := Execute(s, StartsUp(call, |s.threads|, reply));
            && (Detached(after, t) <==> s.runtime.status.lifecycle !in {Active, Degraded})
            && t < |after.threads| && after.threads[t] == s.threads[t]
            && (Detached(after, t) ==> after.threads == s.threads + [Started(reply)] && Serving(after, |s.threads|))
  {
    var n := |s.threads|;
    if s.runtime.status.lifecycle in {Active, Degraded} {
      FourActions(s, Begin(call), Runs(n, Some(reply)), Runs(n, None), TakeStart);
    } else {
      ActivationStarts(s, call, Opening(s.runtime, call).begun, reply);
    }
  }

  /** Activate and pause. */
  function PausedAfter(
    profile: Profile, owner: Owner, fallback: Fallback, started: Reply, paused: Outcome): System
  {
    Execute(
      Activated(profile, owner, fallback, started),
      Asks(PauseCall(owner, [], fallback), 0, Ok(paused)) + [TakeReply])
  }

  lemma ServingPauses(s: System, t: nat, owner: Owner, fallback: Fallback, paused: Outcome)
    requires Inv(s) && Serving(s, t) && Accepted(owner) && s.runtime.owner == owner
    requires s.runtime.status.lifecycle != Paused
    ensures var after := Execute(s, Asks(PauseCall(owner, [], fallback), t, Ok(paused)) + [TakeReply]);
            && Inv(after) && Serving(after, t) && |after.threads| == |s.threads|
            && after.runtime.owner == owner && after.runtime.status.lifecycle == Paused
  {
    var pause := PauseCall(owner, [], fallback);
    var status := BeginCommand(s.runtime.profile, s.runtime.status, Pausing, [], fallback);
    var begun := s.runtime.(status := status);
    assert Opening(s.runtime, pause) == Sends(begun, Pause);
    CommandCompletes(s, t, pause, begun, Pause, Ok(paused));
    FinishPauseKeeps(s.runtime.profile, status, paused);
  }

  lemma PausedServes(profile: Profile, owner: Owner, fallback: Fallback, started: Reply, paused: Outcome)
    requires Accepted(owner)
    ensures var s := PausedAfter(profile, owner, fallback, started, paused);
            && Inv(s) && Serving(s, 0) && |s.threads| == 1 && InLoop(s.threads[0].trace)
            && s.runtime.owner == owner && s.runtime.status.lifecycle == Paused
  {
    ActivatedServes(profile, owner, fallback, started);
    ServingPauses(Activated(profile, owner, fallback, started), 0, owner, fallback, paused);
    assert Orderly(PausedAfter(profile, owner, fallback, started, paused).threads[0]);
  }

  /** Activate, pause, activate: two threads with started adapters, and only the second can still be told to stop. */
  lemma TwoAdaptersRun(
    profile: Profile, owner: Owner, fallback: Fallback, started: Reply, paused: Outcome, restarted: Reply)
    requires Accepted(owner)
    ensures var s := Execute(
                       PausedAfter(profile, owner, fallback, started, paused),
                       StartsUp(Activate(owner, [], fallback), 1, restarted));
            && |s.threads| == 2 && s.threads[0].phase.Receiving? && Detached(s, 0)
            && InLoop(s.threads[0].trace) && s.threads[1] == Started(restarted) && Serving(s, 1)
  {
    PausedServes(profile, owner, fallback, started, paused);
    ActivationDetachesExactlyWhen(
      PausedAfter(profile, owner, fallback, started, paused), 0, Activate(owner, [], fallback), restarted);
  }
}
