/** The DNS and auth-remote systems of owner and threads run in step with the ETW system. */
module LifecycleSimulation {
  import opened Wrappers
  import opened LifecycleCalls
  import opened LifecycleInvariants
  import opened LifecycleProtocol
  import opened LifecycleThreads

  // ---------- A system in the ETW runtime's terms ----------

  function TraceReturn(answer: Option<Reply>): Option<Reply> {
    if answer.Some? then Some(TraceReply(answer.value)) else None
  }

  function TraceAnswer(answer: Answer): Answer {
    if answer.Answered? then Answered(TraceReply(answer.reply)) else answer
  }

  function TraceEntry(e: Entry): Entry { e.(returned := TraceReturn(e.returned)) }

  function TraceEntries(trace: seq<Entry>): (r: seq<Entry>)
    ensures |r| == |trace|
  {
    seq(|trace|, i requires 0 <= i < |trace| => TraceEntry(trace[i]))
  }

  function TracePhase(phase: Phase): Phase {
    match phase
    case Announcing(reply) => Announcing(TraceReply(reply))
    case Replying(request, reply) => Replying(request, TraceReply(reply))
    case _ => phase
  }

  function TraceThread(th: Thread): Thread {
    Thread(TracePhase(th.phase), th.queue, TraceReturn(th.ready), TraceEntries(th.trace))
  }

  function TraceThreads(threads: seq<Thread>): (r: seq<Thread>)
    ensures |r| == |threads|
    ensures forall t :: 0 <= t < |threads| ==> r[t] == TraceThread(threads[t])
  {
    seq(|threads|, t requires 0 <= t < |threads| => TraceThread(threads[t]))
  }

  function TraceReplies(replies: map<nat, Reply>): map<nat, Reply> {
    map id | id in replies :: TraceReply(replies[id])
  }

  function TraceWaiting(w: Waiting): Waiting {
    if w.AwaitJoin? then w.(answer := TraceAnswer(w.answer)) else w
  }

  function TraceAction(a: Action): Action {
    if a.Runs? then Runs(a.thread, TraceReturn(a.answer)) else a
  }

  function TraceSchedule(schedule: seq<Action>): (r: seq<Action>)
    ensures |r| == |schedule|
  {
    seq(|schedule|, i requires 0 <= i < |schedule| => TraceAction(schedule[i]))
  }

  predicate RefsSettled(s: Status) { BoundedRefs(s.authorizationRefs) == s.authorizationRefs }

  predicate RuntimesTrack(x: Runtime, y: Runtime) {
    x.profile.kind == Etw && Agree(x, y) && RefsSettled(y.status)
  }

  /** The first system is the second one in the ETW runtime's terms, up to the notes and the last report. */
  predicate Tracks(x: System, y: System) {
    && RuntimesTrack(x.runtime, y.runtime)
    && x.waiting == TraceWaiting(y.waiting)
    && x.threads == TraceThreads(y.threads)
    && x.replies == TraceReplies(y.replies)
    && x.requests == y.requests
    && x.history == TraceHistory(y.history)
  }

  // ---------- Threads ----------

  lemma EntriesAppend(trace: seq<Entry>, e: Entry)
    ensures TraceEntries(trace + [e]) == TraceEntries(trace) + [TraceEntry(e)]
  {
  }

  lemma RunThreadTraces(th: Thread, answer: Option<Reply>)
    ensures RunThread(TraceThread(th), TraceReturn(answer)) == TraceThread(RunThread(th, answer))
  {
    match th.phase
    case Starting => EntriesAppend(th.trace, Entry(StartCall, None, answer));
    case Announcing(_) =>
    case Receiving =>
    case Handling(request) =>
      EntriesAppend(th.trace, Entry(CommandCall(request.command), Some(request.id), answer));
    case Replying(_, _) =>
    case Finishing => EntriesAppend(th.trace, Entry(FinalStop, None, answer));
    case Ended =>
    case Panicked =>
  }

  lemma EnabledAlike(x: System, y: System, a: Action)
    requires Tracks(x, y)
    ensures Enabled(x, TraceAction(a)) <==> Enabled(y, a)
  {
  }

  lemma ThreadsUpdated(threads: seq<Thread>, t: nat, th: Thread)
    requires t < |threads|
    ensures TraceThreads(threads[t := th]) == TraceThreads(threads)[t := TraceThread(th)]
  {
  }

  lemma RepliesUpdated(replies: map<nat, Reply>, id: nat, reply: Reply)
    ensures TraceReplies(replies[id := reply]) == TraceReplies(replies)[id := TraceReply(reply)]
  {
  }

  lemma RunsTracks(x: System, y: System, t: nat, answer: Option<Reply>)
    requires Tracks(x, y) && ThreadEnabled(x, t) && ThreadEnabled(y, t)
    ensures Tracks(RunsNext(x, t, TraceReturn(answer)), RunsNext(y, t, answer))
  {
    var th := y.threads[t];
    RunThreadTraces(th, answer);
    ThreadsUpdated(y.threads, t, RunThread(th, answer));
    if th.phase.Replying? { RepliesUpdated(y.replies, th.phase.request.id, th.phase.reply); }
  }

  // ---------- The owner's stages ----------

  lemma HistoryTraced(history: seq<Step>, step: Step)
    ensures TraceHistory(history + [step]) == TraceHistory(history) + [step.(env := TraceEnv(step.env))]
  {
  }

  predicate StagesTrack(x: Stage, y: Stage) {
    match y
    case Completes(after, _) => x.Completes? && RuntimesTrack(x.after, after)
    case Spawns(begun) => x.Spawns? && RuntimesTrack(x.begun, begun)
    case Sends(begun, command) => x.Sends? && x.command == command && RuntimesTrack(x.begun, begun)
  }

  lemma OpeningTracks(x: Runtime, y: Runtime, call: Call)
    requires RuntimesTrack(x, y)
    ensures StagesTrack(Opening(x, call), Opening(y, call))
  {
    if Refusal(y, call).None? {
      match call
      case Activate(_, refs, _) => BoundedRefsIdempotent(refs);
      case PauseCall(_, refs, _) => BoundedRefsIdempotent(refs);
      case ResumeCall(_, refs, _) => BoundedRefsIdempotent(refs);
      case StopCall(_, refs, _) => BoundedRefsIdempotent(refs);
      case Shutdown(_) => BoundedRefsIdempotent(SHUTDOWN_REFS);
      case DrainCall(_, _) =>
      case RecordHandoff(_, _, _, _) =>
    }
  }

  lemma AfterStartTracks(x: Runtime, y: Runtime, started: Option<Reply>, t: nat)
    requires RuntimesTrack(x, y)
    ensures RuntimesTrack(AfterStart(x, TraceReturn(started), t).0, AfterStart(y, started, t).0)
  {
    if started.Some? {
      ApplyOutcomeAgrees(
        x.status.(threadActive := true), y.status.(threadActive := true), started.value, Active, true);
    }
  }

  lemma AfterAnswerTracks(x: Runtime, y: Runtime, command: Command, answer: Answer)
    requires RuntimesTrack(x, y) && !AwaitsJoin(command, answer)
    ensures !AwaitsJoin(command, TraceAnswer(answer))
    ensures RuntimesTrack(AfterAnswer(x, command, TraceAnswer(answer)).0, AfterAnswer(y, command, answer).0)
  {
    var sent := SendResult(y.sender, answer);
    if sent.Ok? {
      match command
      case Pause => ApplyOutcomeAgrees(x.status, y.status, Ok(sent.value), Paused, false);
      case Resume => ApplyOutcomeAgrees(x.status, y.status, Ok(sent.value), Active, true);
      case Drain(_) => ApplyOutcomeAgrees(x.status, y.status, Ok(sent.value), Active, false);
    }
  }

  lemma AcknowledgedTracks(x: Runtime, y: Runtime, o: Outcome)
    requires RuntimesTrack(x, y)
    ensures RuntimesTrack(Acknowledged(x, TraceView(o)), Acknowledged(y, o))
  {
    ViewAgrees(o);
  }

  lemma AfterJoinTracks(x: Runtime, y: Runtime)
    requires RuntimesTrack(x, y)
    ensures RuntimesTrack(AfterJoin(x, true).0, AfterJoin(y, true).0)
  {
    FinishStopAgrees(x.profile, y.profile, x.status, y.status);
  }

  // ---------- Steps of the systems ----------

  lemma CompleteTracks(x: System, y: System, dx: (Runtime, Ending), dy: (Runtime, Ending), call: Call, env: Env)
    requires Tracks(x, y) && RuntimesTrack(dx.0, dy.0)
    ensures Tracks(Complete(x, dx, Step(call, TraceEnv(env))), Complete(y, dy, Step(call, env)))
  {
    HistoryTraced(y.history, Step(call, env));
  }

  function Spawned(s: System, begun: Runtime, call: Call): System {
    s.(runtime := begun, waiting := AwaitStart(|s.threads|, call), threads := s.threads + [SPAWNED])
  }

  lemma SpawnTracks(x: System, y: System, p: Runtime, q: Runtime, call: Call)
    requires Tracks(x, y) && RuntimesTrack(p, q)
    ensures Tracks(Spawned(x, p, call), Spawned(y, q, call))
  {
    assert TraceThread(SPAWNED) == SPAWNED;
    assert TraceThreads(y.threads + [SPAWNED]) == x.threads + [SPAWNED];
  }

  function Delivered(s: System, begun: Runtime, t: nat, command: Command, call: Call): System
    requires t < |s.threads|
  {
    var request := Request(s.requests, command);
    s.(runtime := begun, waiting := AwaitReply(t, request, call), requests := s.requests + 1,
    threads := s.threads[t := s.threads[t].(queue := s.threads[t].queue + [request])])
  }

  function Rejected(s: System, begun: Runtime, command: Command, call: Call): System {
    Complete(s, AfterAnswer(begun, command, SendRejected), Step(call, NO_ENV.(answer := SendRejected)))
  }

  /** What a system does with a command that its call sends. */
  function Sent(s: System, begun: Runtime, command: Command, call: Call): System {
    var t := if begun.sender.Some? then begun.sender.value else 0;
    if t < |s.threads| && !Gone(s.threads[t]) then Delivered(s, begun, t, command, call)
    else Rejected(s, begun, command, call)
  }

  lemma DeliveredTracks(x: System, y: System, p: Runtime, q: Runtime, t: nat, command: Command, call: Call)
    requires Tracks(x, y) && RuntimesTrack(p, q) && t < |x.threads| && t < |y.threads|
    ensures Tracks(Delivered(x, p, t, command, call), Delivered(y, q, t, command, call))
  {
    ThreadsUpdated(y.threads, t, y.threads[t].(queue := y.threads[t].queue + [Request(y.requests, command)]));
  }

  lemma RejectedTracks(x: System, y: System, p: Runtime, q: Runtime, command: Command, call: Call)
    requires Tracks(x, y) && RuntimesTrack(p, q)
    ensures Tracks(Rejected(x, p, command, call), Rejected(y, q, command, call))
  {
    AfterAnswerTracks(p, q, command, SendRejected);
    CompleteTracks(x, y, AfterAnswer(p, command, SendRejected), AfterAnswer(q, command, SendRejected), call,
                   NO_ENV.(answer := SendRejected));
  }

  function Target(begun: Runtime): nat { if begun.sender.Some? then begun.sender.value else 0 }

  predicate Delivers(s: System, begun: Runtime) { Target(begun) < |s.threads| && !Gone(s.threads[Target(begun)]) }

  lemma SentIs(s: System, begun: Runtime, command: Command, call: Call)
    ensures Sent(s, begun, command, call)
            == if Delivers(s, begun) then Delivered(s, begun, Target(begun), command, call)
               else Rejected(s, begun, command, call)
  {
  }

  lemma DeliverAlike(x: System, y: System, p: Runtime, q: Runtime)
    requires Tracks(x, y) && RuntimesTrack(p, q)
    ensures Target(p) == Target(q) && (Delivers(x, p) <==> Delivers(y, q))
  {
  }

  lemma SendTracks(x: System, y: System, p: Runtime, q: Runtime, command: Command, call: Call)
    requires Tracks(x, y) && RuntimesTrack(p, q)
    ensures Tracks(Sent(x, p, command, call), Sent(y, q, command, call))
  {
    SentIs(x, p, command, call);
    SentIs(y, q, command, call);
    DeliverAlike(x, y, p, q);
    if Delivers(y, q) {
      DeliveredTracks(x, y, p, q, Target(q), command, call);
    } else {
      RejectedTracks(x, y, p, q, command, call);
    }
  }

  /** What a system does once its call has opened. */
  function Began(s: System, stage: Stage, call: Call): System {
    match stage
    case Completes(after, ending) => Complete(s, (after, ending), Step(call, NO_ENV))
    case Spawns(begun) => Spawned(s, begun, call)
    case Sends(begun, command) => Sent(s, begun, command, call)
  }

  lemma BeginIsBegan(s: System, call: Call)
    ensures BeginNext(s, call) == Began(s, Opening(s.runtime, call), call)
  {
  }

  lemma BeganTracks(x: System, y: System, p: Stage, q: Stage, call: Call)
    requires Tracks(x, y) && StagesTrack(p, q)
    ensures Tracks(Began(x, p, call), Began(y, q, call))
  {
    match q
    case Completes(after, ending) => CompleteTracks(x, y, (p.after, p.ending), (after, ending), call, NO_ENV);
    case Spawns(begun) => SpawnTracks(x, y, p.begun, begun, call);
    case Sends(begun, command) => SendTracks(x, y, p.begun, begun, command, call);
  }

  lemma BeginTracks(x: System, y: System, call: Call)
    requires Tracks(x, y) && y.waiting.Idle?
    ensures Tracks(BeginNext(x, call), BeginNext(y, call))
  {
    OpeningTracks(x.runtime, y.runtime, call);
    BeginIsBegan(x, call);
    BeginIsBegan(y, call);
    BeganTracks(x, y, Opening(x.runtime, call), Opening(y.runtime, call), call);
  }

  lemma TakeStartTracks(x: System, y: System)
    requires Tracks(x, y) && Enabled(x, TakeStart) && Enabled(y, TakeStart)
    ensures Tracks(TakeStartNext(x), TakeStartNext(y))
  {
    var t := y.waiting.thread;
    var started := y.threads[t].ready;
    AfterStartTracks(x.runtime, y.runtime, started, t);
    CompleteTracks(x, y, AfterStart(x.runtime, TraceReturn(started), t), AfterStart(y.runtime, started, t),
                   y.waiting.call, NO_ENV.(spawned := t, started := started));
  }

  lemma AnswerTraced(x: System, y: System)
    requires Tracks(x, y) && Enabled(x, TakeReply) && Enabled(y, TakeReply)
    ensures AnswerTaken(x) == TraceAnswer(AnswerTaken(y))
  {
  }

  lemma TakeReplyTracks(x: System, y: System)
    requires Tracks(x, y) && Enabled(x, TakeReply) && Enabled(y, TakeReply)
    ensures Tracks(TakeReplyNext(x), TakeReplyNext(y))
  {
    var answer := AnswerTaken(y);
    var command := y.waiting.request.command;
    AnswerTraced(x, y);
    if AwaitsJoin(command, answer) {
      AcknowledgedTracks(x.runtime, y.runtime, answer.reply.value);
    } else {
      AfterAnswerTracks(x.runtime, y.runtime, command, answer);
      CompleteTracks(x, y, AfterAnswer(x.runtime, command, TraceAnswer(answer)),
                     AfterAnswer(y.runtime, command, answer), y.waiting.call, NO_ENV.(answer := answer));
    }
  }

  lemma TakeJoinTracks(x: System, y: System)
    requires Tracks(x, y) && Enabled(x, TakeJoin) && Enabled(y, TakeJoin)
    requires y.threads[y.waiting.thread].phase.Ended?
    ensures Tracks(TakeJoinNext(x), TakeJoinNext(y))
  {
    AfterJoinTracks(x.runtime, y.runtime);
    CompleteTracks(x, y, AfterJoin(x.runtime, true), AfterJoin(y.runtime, true), y.waiting.call,
                   NO_ENV.(answer := y.waiting.answer, joined := true));
  }

  // ---------- Every schedule ----------

  /** A join that the history records as a success found a thread that ended normally. */
  lemma JoinedThreadEnded(y: System)
    requires Inv(y) && Enabled(y, TakeJoin) && JoinsSucceed(TakeJoinNext(y).history)
    ensures y.threads[y.waiting.thread].phase.Ended?
  {
    var step := Last(TakeJoinNext(y).history);
    assert JoinSucceeds(step.call, step.env);
  }

  lemma HistoryKept(y: System, a: Action)
    requires Enabled(y, a) && JoinsSucceed(Next(y, a).history)
    ensures JoinsSucceed(y.history)
  {
    assert y.history <= Next(y, a).history;
  }

  lemma NextTracks(x: System, y: System, a: Action)
    requires Tracks(x, y) && Inv(y) && Enabled(x, TraceAction(a)) && Enabled(y, a)
    requires JoinsSucceed(Next(y, a).history)
    ensures Tracks(Next(x, TraceAction(a)), Next(y, a))
  {
    match a
    case Begin(call) => BeginTracks(x, y, call);
    case TakeStart => TakeStartTracks(x, y);
    case TakeReply => TakeReplyTracks(x, y);
    case TakeJoin =>
      JoinedThreadEnded(y);
      TakeJoinTracks(x, y);
    case Runs(t, answer) => RunsTracks(x, y, t, answer);
  }

  lemma InitialTracks(etw: Profile, profile: Profile, owner: Owner, fallback: Fallback)
    requires etw.kind == Etw
    ensures Tracks(Initial(etw, owner, fallback), Initial(profile, owner, fallback))
  {
  }

  /**
   * On every schedule whose joins succeed, a system of any of the three runtimes and its threads runs in step with
   * the ETW system whose adapters return the same in its own terms: same waits, threads, replies and history, and a
   * runtime that agrees in everything but the notes.
   */
  lemma {:induction false} SystemsSimulateEtw(
    etw: Profile, profile: Profile, owner: Owner, fallback: Fallback, schedule: seq<Action>)
    requires etw.kind == Etw
    requires JoinsSucceed(Execute(Initial(profile, owner, fallback), schedule).history)
    ensures Tracks(Execute(Initial(etw, owner, fallback), TraceSchedule(schedule)),
                   Execute(Initial(profile, owner, fallback), schedule))
  {
    if schedule == [] {
      InitialTracks(etw, profile, owner, fallback);
    } else {
      var front, a := Front(schedule), Last(schedule);
      var y := Execute(Initial(profile, owner, fallback), front);
      var x := Execute(Initial(etw, owner, fallback), TraceSchedule(front));
      assert Front(TraceSchedule(schedule)) == TraceSchedule(front);
      assert Last(TraceSchedule(schedule)) == TraceAction(a);
      if Enabled(y, a) { HistoryKept(y, a); }
      SystemsSimulateEtw(etw, profile, owner, fallback, front);
      EnabledAlike(x, y, a);
      if Enabled(y, a) {
        InitialInv(profile, owner, fallback);
        ExecuteKeepsInv(Initial(profile, owner, fallback), front);
        NextTracks(x, y, a);
      }
    }
  }
}
