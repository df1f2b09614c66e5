/**
 * The owner and its control threads as one interleaved system.
 *
 * The owner runs one call at a time and may wait: for a new thread's start reply, for the reply to a command,
 * or for a thread to be joined. Every thread runs its receive loop step by step. An adapter call returns any
 * reply or panics; a panic ends its thread.
 */
module LifecycleThreads {
  import opened Wrappers
  import opened LifecycleCalls
  import opened LifecycleInvariants

  // ---------- The stages of a call ----------

  /** How far a call gets before it has to wait. */
  datatype Stage =
    | Completes(after: Runtime, ending: Ending)
    | Spawns(begun: Runtime)
    | Sends(begun: Runtime, command: Command)

  function Sending(begun: Runtime, command: Command): Stage {
    if begun.sender.None? then Completes(begun, Fails(ThreadUnavailable)) else Sends(begun, command)
  }

  function OpeningStop(r: Runtime, refs: seq<string>, fallback: Fallback): Stage {
    if r.handle.None? then
      var status := StopWithoutThread(r.profile, r.status, refs, fallback);
      Completes(r.(status := status), Checked(StatusReturned(status)))
    else Sending(r.(status := BeginCommand(r.profile, r.status, Stopping, refs, fallback)), Stop)
  }

  function Opening(r: Runtime, call: Call): Stage {
    if Refusal(r, call).Some? then Completes(r, Fails(Refusal(r, call).value))
    else
      match call
      case Activate(_, refs, fallback) =>
        if r.handle.Some? && r.status.lifecycle in {Active, Degraded}
        then Completes(r, Returns(StatusReturned(r.status)))
        else Spawns(r.(status := BeginActivation(r.profile, r.status, refs, fallback)))
      case PauseCall(_, refs, fallback) =>
        if r.status.lifecycle == Paused then Completes(r, Returns(StatusReturned(r.status)))
        else Sending(r.(status := BeginCommand(r.profile, r.status, Pausing, refs, fallback)), Pause)
      case ResumeCall(_, refs, fallback) =>
        if r.status.lifecycle == Active then Completes(r, Returns(StatusReturned(r.status)))
        else Sending(r.(status := BeginCommand(r.profile, r.status, Resuming, refs, fallback)), Resume)
      case StopCall(_, refs, fallback) => OpeningStop(r, refs, fallback)
      case Shutdown(fallback) => OpeningStop(r, SHUTDOWN_REFS, fallback)
      case DrainCall(_, maxBatches) =>
        if r.status.lifecycle != Active then Completes(r, Returns(BatchesReturned([])))
        else Sending(r, Drain(maxBatches))
      case RecordHandoff(_, batches, publications, facts) =>
        var status := RecordedHandoff(r.status, batches, publications, facts);
        Completes(r.(status := status), Checked(StatusReturned(status)))
  }

  function AfterStart(begun: Runtime, started: Option<Reply>, thread: nat): (Runtime, Ending) {
    if started.None? then (begun, Fails(StartFailed))
    else
      var status := FinishActivation(begun.profile, begun.status, started.value);
      (begun.(status := status, sender := Some(thread), handle := Some(thread)), Checked(StatusReturned(status)))
  }

  predicate AwaitsJoin(command: Command, answer: Answer) {
    command.Stop? && answer.Answered? && answer.reply.Ok?
  }

  /** Every command but an acknowledged stop is over once its answer is in. */
  function AfterAnswer(begun: Runtime, command: Command, answer: Answer): (Runtime, Ending)
    requires !AwaitsJoin(command, answer)
  {
    match SendResult(begun.sender, answer)
    case Err(e) => (begun, Fails(e))
    case Ok(o) =>
      match command
      case Pause =>
        var status := FinishPause(begun.profile, begun.status, o);
        (begun.(status := status), Checked(StatusReturned(status)))
      case Resume =>
        var status := FinishResume(begun.profile, begun.status, o);
        (begun.(status := status), Checked(StatusReturned(status)))
      case Drain(_) =>
        (begun.(status := ApplyOutcome(begun.status, Ok(o), Active, false)), Checked(BatchesReturned(o.batches)))
  }

  function Acknowledged(begun: Runtime, o: Outcome): Runtime {
    begun.(status := ApplyRuntimeOutcome(begun.status, o), sender := None, handle := None)
  }

  function AfterJoin(acknowledged: Runtime, joined: bool): (Runtime, Ending) {
    if joined then
      var status := FinishStop(acknowledged.profile, acknowledged.status);
      (acknowledged.(status := status), Checked(StatusReturned(status)))
    else (acknowledged.(status := FailStop(acknowledged.profile, acknowledged.status)), Fails(JoinFailed))
  }

  function Staged(stage: Stage, env: Env): (Runtime, Ending)
    requires stage.Sends? ==> stage.begun.sender.Some?
  {
    match stage
    case Completes(after, ending) => (after, ending)
    case Spawns(begun) => AfterStart(begun, env.started, env.spawned)
    case Sends(begun, command) =>
      if AwaitsJoin(command, env.answer) then AfterJoin(Acknowledged(begun, env.answer.reply.value), env.joined)
      else AfterAnswer(begun, command, env.answer)
  }

  lemma StopIsStaged(r: Runtime, refs: seq<string>, fallback: Fallback, env: Env)
    ensures Staged(OpeningStop(r, refs, fallback), env) == DoStop(r, refs, fallback, env)
  {}

  /** The stages of a call, run with the answers it gets, are the call. */
  lemma PerformIsStaged(r: Runtime, call: Call, env: Env)
    ensures Staged(Opening(r, call), env) == Perform(r, call, env)
  {
    if Refusal(r, call).None? {
      match call
      case Activate(_, refs, fallback) =>
      case PauseCall(_, refs, fallback) =>
      case ResumeCall(_, refs, fallback) =>
      case StopCall(_, refs, fallback) => StopIsStaged(r, refs, fallback, env);
      case Shutdown(fallback) => StopIsStaged(r, SHUTDOWN_REFS, fallback, env);
      case DrainCall(_, _) =>
      case RecordHandoff(_, batches, publications, facts) =>
    }
  }

  // ---------- Threads ----------

  datatype Request = Request(id: nat, command: Command)

  datatype AdapterCall = StartCall | CommandCall(command: Command) | FinalStop

  /** One adapter call: for which request it was made, and what it returned, unless it panicked. */
  datatype Entry = Entry(call: AdapterCall, request: Option<nat>, returned: Option<Reply>)

  datatype Phase =
    | Starting
    | Announcing(reply: Reply)
    | Receiving
    | Handling(request: Request)
    | Replying(request: Request, reply: Reply)
    | Finishing
    | Ended
    | Panicked

  datatype Thread = Thread(phase: Phase, queue: seq<Request>, ready: Option<Reply>, trace: seq<Entry>)

  const SPAWNED := Thread(Starting, [], None, [])

  /** A thread that is gone has dropped its receiver, its pending requests and its reply channels. */
  predicate Gone(th: Thread) { th.phase.Ended? || th.phase.Panicked? }

  datatype Waiting =
    | Idle
    | AwaitStart(thread: nat, call: Call)
    | AwaitReply(thread: nat, request: Request, call: Call)
    | AwaitJoin(thread: nat, call: Call, answer: Answer)

  datatype System = System(
    start: Runtime,
    runtime: Runtime,
    waiting: Waiting,
    threads: seq<Thread>,
    replies: map<nat, Reply>,
    requests: nat,
    history: seq<Step>,
    last: Option<Ending>)

  datatype Action =
    | Begin(call: Call)
    | TakeStart
    | TakeReply
    | TakeJoin
    | Runs(thread: nat, answer: Option<Reply>)

  function Initial(profile: Profile, owner: Owner, fallback: Fallback): System {
    var runtime := New(profile, owner, fallback);
    System(runtime, runtime, Idle, [], map[], 0, [], None)
  }

  /** Some owner-side value still holds the sender: the slot, or the activation that is under way. */
  predicate SenderHeld(s: System, t: nat) {
    s.runtime.sender == Some(t) || (s.waiting.AwaitStart? && s.waiting.thread == t)
  }

  // ---------- Steps ----------

  predicate ThreadEnabled(s: System, t: nat) {
    && t < |s.threads|
    && !Gone(s.threads[t])
    && (s.threads[t].phase.Receiving? ==> s.threads[t].queue != [] || !SenderHeld(s, t))
  }

  predicate Enabled(s: System, a: Action) {
    match a
    case Begin(_) => s.waiting.Idle?
    case TakeStart =>
      s.waiting.AwaitStart? && s.waiting.thread < |s.threads|
      && (s.threads[s.waiting.thread].ready.Some? || Gone(s.threads[s.waiting.thread]))
    case TakeReply =>
      s.waiting.AwaitReply? && s.waiting.thread < |s.threads|
      && (s.waiting.request.id in s.replies || Gone(s.threads[s.waiting.thread]))
    case TakeJoin => s.waiting.AwaitJoin? && s.waiting.thread < |s.threads| && Gone(s.threads[s.waiting.thread])
    case Runs(t, _) => ThreadEnabled(s, t)
  }

  const NO_ENV := Env(0, None, ResponseLost, false)

  function Complete(s: System, done: (Runtime, Ending), step: Step): System {
    s.(runtime := done.0, waiting := Idle, history := s.history + [step], last := Some(done.1))
  }

  function BeginNext(s: System, call: Call): System {
    match Opening(s.runtime, call)
    case Completes(after, ending) => Complete(s, (after, ending), Step(call, NO_ENV))
    case Spawns(begun) =>
      s.(runtime := begun, waiting := AwaitStart(|s.threads|, call), threads := s.threads + [SPAWNED])
    case Sends(begun, command) =>
      var t := if begun.sender.Some? then begun.sender.value else 0;
      if t < |s.threads| && !Gone(s.threads[t]) then
        var request := Request(s.requests, command);
        var th := s.threads[t];
        s.(runtime := begun, waiting := AwaitReply(t, request, call), requests := s.requests + 1,
        threads := s.threads[t := th.(queue := th.queue + [request])])
      else
        Complete(s, AfterAnswer(begun, command, SendRejected), Step(call, NO_ENV.(answer := SendRejected)))
  }

  function TakeStartNext(s: System): System
    requires Enabled(s, TakeStart)
  {
    var t := s.waiting.thread;
    var started := s.threads[t].ready;
    Complete(s, AfterStart(s.runtime, started, t), Step(s.waiting.call, NO_ENV.(spawned := t, started := started)))
  }

  function AnswerTaken(s: System): Answer
    requires Enabled(s, TakeReply)
  {
    if s.waiting.request.id in s.replies then Answered(s.replies[s.waiting.request.id]) else ResponseLost
  }

  function TakeReplyNext(s: System): System
    requires Enabled(s, TakeReply)
  {
    var answer := AnswerTaken(s);
    if AwaitsJoin(s.waiting.request.command, answer) then
      s.(runtime := Acknowledged(s.runtime, answer.reply.value),
      waiting := AwaitJoin(s.waiting.thread, s.waiting.call, answer))
    else
      Complete(
        s, AfterAnswer(s.runtime, s.waiting.request.command, answer), Step(s.waiting.call, NO_ENV.(answer := answer)))
  }

  function TakeJoinNext(s: System): System
    requires Enabled(s, TakeJoin)
  {
    var joined := s.threads[s.waiting.thread].phase.Ended?;
    Complete(
      s, AfterJoin(s.runtime, joined), Step(s.waiting.call, NO_ENV.(answer := s.waiting.answer, joined := joined)))
  }

  function Called(th: Thread, call: AdapterCall, request: Option<nat>, answer: Option<Reply>, returned: Phase): Thread {
    th.(
    trace := th.trace + [Entry(call, request, answer)],
    phase := if answer.Some? then returned else Panicked,
    queue := if answer.Some? && !returned.Ended? then th.queue else [])
  }

  /** One step of the receive loop; `answer` is what the adapter returns when the step calls it. */
  function RunThread(th: Thread, answer: Option<Reply>): Thread {
    match th.phase
    case Starting =>
      Called(th, StartCall, None, answer, if answer.Some? then Announcing(answer.value) else Panicked)
    case Announcing(reply) => th.(ready := Some(reply), phase := Receiving)
    case Receiving =>
      if th.queue != [] then th.(phase := Handling(th.queue[0]), queue := th.queue[1..]) else th.(phase := Finishing)
    case Handling(request) =>
      Called(
        th, CommandCall(request.command), Some(request.id), answer,
        if answer.Some? then Replying(request, answer.value) else Panicked)
    case Replying(request, _) => th.(phase := if request.command.Stop? then Finishing else Receiving)
    case Finishing => Called(th, FinalStop, None, answer, Ended)
    case Ended => th
    case Panicked => th
  }

  function RunsNext(s: System, t: nat, answer: Option<Reply>): System
    requires ThreadEnabled(s, t)
  {
    var th := s.threads[t];
    var ran := s.(threads := s.threads[t := RunThread(th, answer)]);
    if th.phase.Replying? then ran.(replies := s.replies[th.phase.request.id := th.phase.reply]) else ran
  }

  function Next(s: System, a: Action): System
    requires Enabled(s, a)
  {
    match a
    case Begin(call) => BeginNext(s, call)
    case TakeStart => TakeStartNext(s)
    case TakeReply => TakeReplyNext(s)
    case TakeJoin => TakeJoinNext(s)
    case Runs(t, answer) => RunsNext(s, t, answer)
  }

  /** A schedule, in which an action that cannot happen is passed over. */
  function Execute(s: System, schedule: seq<Action>): System {
    if schedule == [] then s
    else
      var before := Execute(s, schedule[..|schedule| - 1]);
      var a := schedule[|schedule| - 1];
      if Enabled(before, a) then Next(before, a) else before
  }
}
