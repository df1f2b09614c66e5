/** What every interleaving of the owner and its control threads keeps. */
module LifecycleProtocol {
  import opened Wrappers
  import opened LifecycleCalls
  import opened LifecycleInvariants
  import opened LifecycleThreads

  // ---------- The order of adapter calls ----------

  predicate StartReturned(e: Entry) { e.call.StartCall? && e.request.None? && e.returned.Some? }

  predicate Served(e: Entry) { e.call.CommandCall? && e.request.Some? && e.returned.Some? }

  /** Started, then any pauses, resumes and drains. */
  predicate InLoop(trace: seq<Entry>) {
    && |trace| >= 1 && StartReturned(trace[0])
    && forall i :: 1 <= i < |trace| ==> Served(trace[i]) && !trace[i].call.command.Stop?
  }

  function Front<T>(xs: seq<T>): seq<T>
    requires xs != []
  {
    xs[..|xs| - 1]
  }

  function Last<T>(xs: seq<T>): T
    requires xs != []
  {
    xs[|xs| - 1]
  }

  /** The loop was left: with a served stop as its last command, or because the channel closed. */
  predicate LoopLeft(trace: seq<Entry>) {
    InLoop(trace) || (|trace| >= 2 && InLoop(Front(trace)) && Served(Last(trace)) && Last(trace).call.command.Stop?)
  }

  predicate TraceFits(phase: Phase, trace: seq<Entry>) {
    match phase
    case Starting => trace == []
    case Announcing(reply) => trace == [Entry(StartCall, None, Some(reply))]
    case Receiving => InLoop(trace)
    case Handling(_) => InLoop(trace)
    case Replying(request, reply) =>
      |trace| >= 2 && InLoop(Front(trace))
      && Last(trace) == Entry(CommandCall(request.command), Some(request.id), Some(reply))
    case Finishing => LoopLeft(trace)
    case Ended =>
      |trace| >= 2 && LoopLeft(Front(trace)) && Last(trace).call.FinalStop? && Last(trace).returned.Some?
    case Panicked =>
      && trace != [] && Last(trace).returned.None?
      && match Last(trace).call
         case StartCall => |trace| == 1 && Last(trace).request.None?
         case CommandCall(_) => |trace| >= 2 && InLoop(Front(trace))
         case FinalStop => |trace| >= 2 && LoopLeft(Front(trace))
  }

  predicate ReadyFits(th: Thread) {
    && (th.phase.Starting? || th.phase.Announcing? ==> th.ready.None?)
    && (th.phase.Panicked? ==> (th.ready.None? <==> |th.trace| == 1))
    && (!th.phase.Starting? && !th.phase.Announcing? && !th.phase.Panicked? ==> th.ready.Some?)
    && (th.ready.Some? ==> th.trace != [] && th.trace[0] == Entry(StartCall, None, th.ready))
  }

  predicate Orderly(th: Thread) { TraceFits(th.phase, th.trace) && ReadyFits(th) }

  lemma CalledTrace(th: Thread, call: AdapterCall, request: Option<nat>, answer: Option<Reply>, returned: Phase)
    ensures var trace := Called(th, call, request, answer, returned).trace;
            Front(trace) == th.trace && Last(trace) == Entry(call, request, answer)
  {}

  lemma ServedExtends(trace: seq<Entry>)
    requires |trace| >= 2 && InLoop(Front(trace)) && Served(Last(trace)) && !Last(trace).call.command.Stop?
    ensures InLoop(trace)
  {
    assert trace[0] == Front(trace)[0];
    forall i | 1 <= i < |trace| ensures Served(trace[i]) && !trace[i].call.command.Stop? {
      if i < |trace| - 1 { assert trace[i] == Front(trace)[i]; }
    }
  }

  lemma ReplyingKeepsTrace(request: Request, reply: Reply, trace: seq<Entry>)
    requires TraceFits(Replying(request, reply), trace)
    ensures if request.command.Stop? then LoopLeft(trace) else InLoop(trace)
  {
    if !request.command.Stop? { ServedExtends(trace); }
  }

  lemma RunKeepsTrace(th: Thread, answer: Option<Reply>)
    requires TraceFits(th.phase, th.trace) && !Gone(th)
    ensures var after := RunThread(th, answer); TraceFits(after.phase, after.trace)
  {
    if th.phase.Replying? {
      ReplyingKeepsTrace(th.phase.request, th.phase.reply, th.trace);
    } else if th.phase.Handling? {
      var request := th.phase.request;
      CalledTrace(
        th, CommandCall(request.command), Some(request.id), answer,
        if answer.Some? then Replying(request, answer.value) else Panicked);
    } else if th.phase.Finishing? {
      CalledTrace(th, FinalStop, None, answer, Ended);
    }
  }

  lemma RunKeepsOrderly(th: Thread, answer: Option<Reply>)
    requires Orderly(th) && !Gone(th)
    ensures Orderly(RunThread(th, answer))
  {
    RunKeepsTrace(th, answer);
    var after := RunThread(th, answer);
    assert th.trace != [] ==> after.trace != [] && after.trace[0] == th.trace[0];
  }

  // ---------- Where each thread can be ----------

  /** Nothing queued, nothing in hand: between commands, or on the way out. */
  predicate Quiet(th: Thread) {
    th.queue == [] && (th.phase.Receiving? || th.phase.Finishing? || Gone(th))
  }

  predicate Answers(trace: seq<Entry>, id: nat) {
    exists i :: 0 <= i < |trace| && trace[i].request == Some(id) && trace[i].returned.Some?
  }

  predicate IdsBelow(trace: seq<Entry>, bound: nat) {
    forall i :: 0 <= i < |trace| && trace[i].request.Some? ==> trace[i].request.value < bound
  }

  predicate AnsweredFits(th: Thread, request: Request, reply: Reply) {
    && th.queue == []
    && (if request.command.Stop? then th.phase.Finishing? || Gone(th) else th.phase.Receiving?)
    && Entry(CommandCall(request.command), Some(request.id), Some(reply)) in th.trace
  }

  predicate Unanswered(th: Thread, request: Request) {
    || ((th.phase.Receiving? || th.phase.Finishing?) && th.queue == [request] && !Answers(th.trace, request.id))
    || (th.phase == Handling(request) && th.queue == [] && !Answers(th.trace, request.id))
    || (th.phase.Replying? && th.phase.request == request && th.queue == [])
    || (Gone(th) && th.queue == [] && !Answers(th.trace, request.id))
  }

  predicate Starts(th: Thread) {
    th.queue == [] && (th.phase.Starting? || th.phase.Announcing? || th.phase.Receiving? || th.phase.Panicked?)
  }

  /** What the owner's position says about a thread. */
  predicate Placed(waiting: Waiting, replies: map<nat, Reply>, t: nat, th: Thread) {
    if waiting.AwaitReply? && waiting.thread == t then
      if waiting.request.id in replies then AnsweredFits(th, waiting.request, replies[waiting.request.id])
      else Unanswered(th, waiting.request)
    else if waiting.AwaitStart? && waiting.thread == t then Starts(th)
    else if waiting.AwaitJoin? && waiting.thread == t then th.queue == [] && (th.phase.Finishing? || Gone(th))
    else Quiet(th)
  }

  predicate ThreadsOk(s: System) {
    forall t :: 0 <= t < |s.threads| ==>
                  && Orderly(s.threads[t])
                  && Placed(s.waiting, s.replies, t, s.threads[t])
                  && IdsBelow(s.threads[t].trace, s.requests)
  }

  predicate SlotOk(s: System) {
    && s.runtime.sender == s.runtime.handle
    && (s.runtime.sender.Some? ==> s.runtime.sender.value < |s.threads|)
    && (s.waiting.AwaitStart? ==> s.waiting.thread == |s.threads| - 1 && s.runtime.sender != Some(s.waiting.thread))
    && (s.waiting.AwaitReply? ==> s.runtime.sender == Some(s.waiting.thread) && s.waiting.request.id < s.requests)
    && (s.waiting.AwaitJoin? ==> s.waiting.thread < |s.threads| && s.runtime.sender.None?)
    && (forall id :: id in s.replies ==> id < s.requests)
  }

  predicate Running(lifecycle: Lifecycle) { lifecycle in {Active, Paused, Degraded} }

  /** A runtime that calls itself active, paused or degraded has a thread that did not leave its loop normally. */
  predicate RunningOk(s: System) {
    Running(s.runtime.status.lifecycle) && s.runtime.sender.Some? && s.runtime.sender.value < |s.threads| ==>
      var phase := s.threads[s.runtime.sender.value].phase;
      !phase.Finishing? && !phase.Ended?
  }

  // ---------- The owner follows the sequential machine ----------

  /** Where the owner stands is a stage of the call after the calls it completed. */
  predicate Follows(s: System) {
    var before := Replay(s.start, s.history);
    match s.waiting
    case Idle =>
      && s.runtime == before
      && (s.history != [] ==>
            s.last == Some(Perform(Replay(s.start, Front(s.history)), Last(s.history).call, Last(s.history).env).1))
    case AwaitStart(_, call) => Opening(before, call) == Spawns(s.runtime)
    case AwaitReply(_, request, call) => Opening(before, call) == Sends(s.runtime, request.command)
    case AwaitJoin(_, call, answer) =>
      var stage := Opening(before, call);
      && stage.Sends? && stage.command == Stop && stage.begun.sender.Some? && AwaitsJoin(Stop, answer)
      && s.runtime == Acknowledged(stage.begun, answer.reply.value)
  }

  predicate Inv(s: System) {
    Consistent(s.start) && Follows(s) && SlotOk(s) && ThreadsOk(s) && RunningOk(s)
  }

  lemma InitialInv(profile: Profile, owner: Owner, fallback: Fallback)
    ensures Inv(Initial(profile, owner, fallback))
  {
    NewConsistent(profile, owner, fallback);
  }

  // ---------- Owner steps ----------

  lemma OpeningKeepsSlot(r: Runtime, call: Call)
    requires Consistent(r)
    ensures var stage := Opening(r, call);
            match stage
            case Completes(after, _) =>
              after.sender == r.sender && after.handle == r.handle
              && (Running(after.status.lifecycle) ==> Running(r.status.lifecycle))
            case Spawns(begun) =>
              begun.sender == r.sender && begun.handle == r.handle && !Running(begun.status.lifecycle)
            case Sends(begun, command) =>
              begun.sender == r.sender && begun.handle == r.handle && begun.sender.Some?
              && (Running(begun.status.lifecycle) ==> command.Drain? && begun == r && r.status.lifecycle == Active)
  {}

  lemma AfterAnswerKeepsSlot(begun: Runtime, command: Command, answer: Answer)
    requires !AwaitsJoin(command, answer)
    ensures var after := AfterAnswer(begun, command, answer).0;
            && after.sender == begun.sender && after.handle == begun.handle
            && (!(answer.Answered? && answer.reply.Ok?) ==> after == begun)
  {}

  lemma HistoryGrows(s: System, step: Step)
    ensures Replay(s.start, s.history + [step]) == Perform(Replay(s.start, s.history), step.call, step.env).0
    ensures Front(s.history + [step]) == s.history && Last(s.history + [step]) == step
  {
    assert (s.history + [step])[..|s.history|] == s.history;
  }

  /** A call that completes with the stages' outcome is one more step of the sequential machine. */
  lemma CompleteFollows(s: System, done: (Runtime, Ending), step: Step)
    requires done == Perform(Replay(s.start, s.history), step.call, step.env)
    ensures Follows(Complete(s, done, step))
  {
    HistoryGrows(s, step);
  }

  lemma ReplacedThreads(s: System, after: System, t: nat)
    requires t < |s.threads| && ThreadsOk(s)
    requires |after.threads| == |s.threads| && s.requests <= after.requests
    requires forall u :: 0 <= u < |s.threads| && u != t ==> after.threads[u] == s.threads[u]
    requires forall u :: 0 <= u < |s.threads| && u != t ==>
                           Placed(after.waiting, after.replies, u, after.threads[u])
    requires Orderly(after.threads[t]) && Placed(after.waiting, after.replies, t, after.threads[t])
    requires IdsBelow(after.threads[t].trace, after.requests)
    ensures ThreadsOk(after)
  {}

  lemma BeginKeepsInv(s: System, call: Call)
    requires Inv(s) && Enabled(s, Begin(call))
    ensures Inv(BeginNext(s, call))
  {
    ReplayConsistent(s.start, s.history);
    OpeningKeepsSlot(s.runtime, call);
    match Opening(s.runtime, call)
    case Completes(after, ending) =>
      PerformIsStaged(s.runtime, call, NO_ENV);
      CompleteFollows(s, (after, ending), Step(call, NO_ENV));
    case Spawns(begun) =>
      BeginSpawnKeepsThreads(s, call, begun);
    case Sends(begun, command) =>
      var t := begun.sender.value;
      if Gone(s.threads[t]) {
        PerformIsStaged(s.runtime, call, NO_ENV.(answer := SendRejected));
        CompleteFollows(s, AfterAnswer(begun, command, SendRejected), Step(call, NO_ENV.(answer := SendRejected)));
        AfterAnswerKeepsSlot(begun, command, SendRejected);
      } else {
        BeginSendKeepsThreads(s, call, begun, command);
      }
  }

  lemma BeginSpawnKeepsThreads(s: System, call: Call, begun: Runtime)
    requires Inv(s) && s.waiting.Idle? && begun.sender == s.runtime.sender
    ensures var after :=
              s.(runtime := begun, waiting := AwaitStart(|s.threads|, call), threads := s.threads + [SPAWNED]);
            ThreadsOk(after)
  {}

  lemma BeginSendKeepsThreads(s: System, call: Call, begun: Runtime, command: Command)
    requires Inv(s) && s.waiting.Idle? && begun.sender == s.runtime.sender && begun.sender.Some?
    requires !Gone(s.threads[begun.sender.value])
    ensures var t := begun.sender.value;
            var request := Request(s.requests, command);
            ThreadsOk(s.(runtime := begun, waiting := AwaitReply(t, request, call), requests := s.requests + 1,
                      threads := s.threads[t := s.threads[t].(queue := s.threads[t].queue + [request])]))
  {
    var t := begun.sender.value;
    var request := Request(s.requests, command);
    var th := s.threads[t];
    assert th.queue + [request] == [request];
    assert !Answers(th.trace, request.id);
    assert IdsBelow(th.trace, s.requests + 1);
    ReplacedThreads(
      s, s.(runtime := begun, waiting := AwaitReply(t, request, call), requests := s.requests + 1,
      threads := s.threads[t := th.(queue := th.queue + [request])]), t);
  }

  lemma TakeStartKeepsInv(s: System)
    requires Inv(s) && Enabled(s, TakeStart)
    ensures Inv(TakeStartNext(s))
  {
    var t := s.waiting.thread;
    var env := NO_ENV.(spawned := t, started := s.threads[t].ready);
    PerformIsStaged(Replay(s.start, s.history), s.waiting.call, env);
    CompleteFollows(s, AfterStart(s.runtime, env.started, t), Step(s.waiting.call, env));
    ReplayConsistent(s.start, s.history);
    OpeningKeepsSlot(Replay(s.start, s.history), s.waiting.call);
  }

  /** A thread whose reply is taken, or that is gone without one, has nothing in hand. */
  lemma ReplierAtRest(s: System)
    requires ThreadsOk(s) && Enabled(s, TakeReply)
    ensures var th := s.threads[s.waiting.thread];
            && th.queue == []
            && (Gone(th) || if s.waiting.request.command.Stop? then th.phase.Finishing? else th.phase.Receiving?)
  {
    var t := s.waiting.thread;
    assert Placed(s.waiting, s.replies, t, s.threads[t]);
  }

  /** Only what the owner waits for has changed, and the awaited thread is at rest. */
  lemma RestKeepsThreads(s: System, after: System)
    requires ThreadsOk(s) && Enabled(s, TakeReply)
    requires after.threads == s.threads && after.requests == s.requests
    requires || after.waiting.Idle?
             || (after.waiting.AwaitJoin? && after.waiting.thread == s.waiting.thread
                 && s.waiting.request.command.Stop?)
    ensures ThreadsOk(after)
  {
    ReplierAtRest(s);
    forall t | 0 <= t < |s.threads| ensures Placed(after.waiting, after.replies, t, s.threads[t]) {
      assert Placed(s.waiting, s.replies, t, s.threads[t]);
    }
  }

  lemma TakeReplyJoins(s: System)
    requires Inv(s) && Enabled(s, TakeReply) && AwaitsJoin(s.waiting.request.command, AnswerTaken(s))
    ensures Inv(TakeReplyNext(s))
  {
    RestKeepsThreads(s, TakeReplyNext(s));
    ReplayConsistent(s.start, s.history);
    OpeningKeepsSlot(Replay(s.start, s.history), s.waiting.call);
  }

  /** A call that its answer completes has the ending of the sequential machine. */
  lemma AnsweredFollows(s: System)
    requires Inv(s) && Enabled(s, TakeReply) && !AwaitsJoin(s.waiting.request.command, AnswerTaken(s))
    ensures Follows(TakeReplyNext(s))
  {
    var env := NO_ENV.(answer := AnswerTaken(s));
    var before := Replay(s.start, s.history);
    ReplayConsistent(s.start, s.history);
    OpeningKeepsSlot(before, s.waiting.call);
    PerformIsStaged(before, s.waiting.call, env);
    CompleteFollows(s, AfterAnswer(s.runtime, s.waiting.request.command, env.answer), Step(s.waiting.call, env));
  }

  lemma AnsweredRuns(s: System)
    requires Inv(s) && Enabled(s, TakeReply) && !AwaitsJoin(s.waiting.request.command, AnswerTaken(s))
    ensures RunningOk(TakeReplyNext(s)) && SlotOk(TakeReplyNext(s))
  {
    var answer := AnswerTaken(s);
    AfterAnswerKeepsSlot(s.runtime, s.waiting.request.command, answer);
    ReplierAtRest(s);
    if answer.Answered? && answer.reply.Ok? {
      assert !s.waiting.request.command.Stop?;
      AnsweredNotGone(s);
    }
  }

  /** A thread that answered a command other than a stop has not left its loop. */
  lemma AnsweredNotGone(s: System)
    requires ThreadsOk(s) && Enabled(s, TakeReply) && AnswerTaken(s).Answered? && !s.waiting.request.command.Stop?
    ensures s.threads[s.waiting.thread].phase.Receiving?
  {
    var t := s.waiting.thread;
    assert Placed(s.waiting, s.replies, t, s.threads[t]);
  }

  lemma TakeReplyCompletes(s: System)
    requires Inv(s) && Enabled(s, TakeReply) && !AwaitsJoin(s.waiting.request.command, AnswerTaken(s))
    ensures Inv(TakeReplyNext(s))
  {
    RestKeepsThreads(s, TakeReplyNext(s));
    AnsweredFollows(s);
    AnsweredRuns(s);
  }

  lemma TakeReplyKeepsInv(s: System)
    requires Inv(s) && Enabled(s, TakeReply)
    ensures Inv(TakeReplyNext(s))
  {
    if AwaitsJoin(s.waiting.request.command, AnswerTaken(s)) { TakeReplyJoins(s); } else { TakeReplyCompletes(s); }
  }

  /** The joined thread is gone, with nothing in hand. */
  lemma JoinKeepsThreads(s: System)
    requires ThreadsOk(s) && Enabled(s, TakeJoin)
    ensures ThreadsOk(TakeJoinNext(s))
  {
    forall t | 0 <= t < |s.threads| ensures Placed(Idle, s.replies, t, s.threads[t]) {
      assert Placed(s.waiting, s.replies, t, s.threads[t]);
    }
  }

  lemma JoinFollows(s: System)
    requires Inv(s) && Enabled(s, TakeJoin)
    ensures Follows(TakeJoinNext(s))
  {
    var env := NO_ENV.(answer := s.waiting.answer, joined := s.threads[s.waiting.thread].phase.Ended?);
    PerformIsStaged(Replay(s.start, s.history), s.waiting.call, env);
    CompleteFollows(s, AfterJoin(s.runtime, env.joined), Step(s.waiting.call, env));
  }

  lemma TakeJoinKeepsInv(s: System)
    requires Inv(s) && Enabled(s, TakeJoin)
    ensures Inv(TakeJoinNext(s))
  {
    JoinKeepsThreads(s);
    JoinFollows(s);
  }

  // ---------- Thread steps ----------

  lemma RunKeepsIds(th: Thread, answer: Option<Reply>, bound: nat)
    requires IdsBelow(th.trace, bound) && (th.phase.Handling? ==> th.phase.request.id < bound)
    ensures IdsBelow(RunThread(th, answer).trace, bound)
  {}

  /** A thread's own step keeps it where the owner expects it. */
  lemma RunKeepsPlaced(s: System, t: nat, answer: Option<Reply>)
    requires SlotOk(s) && ThreadsOk(s) && ThreadEnabled(s, t)
    ensures var after := RunsNext(s, t, answer); Placed(after.waiting, after.replies, t, after.threads[t])
  {
    var th := s.threads[t];
    var after := RunThread(th, answer);
    if s.waiting.AwaitReply? && s.waiting.thread == t && s.waiting.request.id !in s.replies {
      var request := s.waiting.request;
      if after.trace != th.trace {
        assert after.trace == th.trace + [Last(after.trace)];
        if !Answers(th.trace, request.id) && Last(after.trace).request != Some(request.id) {
          assert !Answers(after.trace, request.id);
        }
        if !Answers(th.trace, request.id) && Last(after.trace).returned.None? {
          assert !Answers(after.trace, request.id);
        }
      }
      if th.phase.Replying? {
        assert Last(th.trace) in th.trace;
      }
    }
  }

  /** A thread's step leaves every other thread where the owner expects it. */
  lemma RunKeepsOthers(s: System, t: nat, answer: Option<Reply>, u: nat)
    requires SlotOk(s) && ThreadsOk(s) && ThreadEnabled(s, t) && u < |s.threads| && u != t
    ensures var after := RunsNext(s, t, answer); Placed(after.waiting, after.replies, u, s.threads[u])
  {
    assert Placed(s.waiting, s.replies, u, s.threads[u]);
    assert Placed(s.waiting, s.replies, t, s.threads[t]);
  }

  lemma RunKeepsThreads(s: System, t: nat, answer: Option<Reply>)
    requires SlotOk(s) && ThreadsOk(s) && ThreadEnabled(s, t)
    ensures ThreadsOk(RunsNext(s, t, answer))
  {
    var after := RunsNext(s, t, answer);
    var th := s.threads[t];
    RunKeepsOrderly(th, answer);
    RunKeepsIds(th, answer, s.requests);
    RunKeepsPlaced(s, t, answer);
    forall u: nat | u < |s.threads| && u != t
      ensures Placed(after.waiting, after.replies, u, after.threads[u])
    {
      RunKeepsOthers(s, t, answer, u);
    }
    ReplacedThreads(s, after, t);
  }

  /** A runtime that calls itself running is not waiting for the reply to a stop. */
  lemma RunningAwaitsNoStop(s: System)
    requires Inv(s) && s.waiting.AwaitReply? && Running(s.runtime.status.lifecycle)
    ensures !s.waiting.request.command.Stop?
  {
    ReplayConsistent(s.start, s.history);
    OpeningKeepsSlot(Replay(s.start, s.history), s.waiting.call);
  }

  lemma RunKeepsSlot(s: System, t: nat, answer: Option<Reply>)
    requires SlotOk(s) && ThreadsOk(s) && ThreadEnabled(s, t)
    ensures SlotOk(RunsNext(s, t, answer))
  {
    assert Placed(s.waiting, s.replies, t, s.threads[t]);
  }

  lemma RunKeepsRunning(s: System, t: nat, answer: Option<Reply>)
    requires SlotOk(s) && ThreadsOk(s) && RunningOk(s) && ThreadEnabled(s, t)
    requires s.waiting.AwaitReply? && Running(s.runtime.status.lifecycle) ==> !s.waiting.request.command.Stop?
    ensures RunningOk(RunsNext(s, t, answer))
  {
    assert Placed(s.waiting, s.replies, t, s.threads[t]);
  }

  lemma RunsKeepsInv(s: System, t: nat, answer: Option<Reply>)
    requires Inv(s) && ThreadEnabled(s, t)
    ensures Inv(RunsNext(s, t, answer))
  {
    RunKeepsThreads(s, t, answer);
    RunKeepsSlot(s, t, answer);
    if s.waiting.AwaitReply? && Running(s.runtime.status.lifecycle) { RunningAwaitsNoStop(s); }
    RunKeepsRunning(s, t, answer);
  }

  lemma NextKeepsInv(s: System, a: Action)
    requires Inv(s) && Enabled(s, a)
    ensures Inv(Next(s, a))
  {
    match a
    case Begin(call) => BeginKeepsInv(s, call);
    case TakeStart => TakeStartKeepsInv(s);
    case TakeReply => TakeReplyKeepsInv(s);
    case TakeJoin => TakeJoinKeepsInv(s);
    case Runs(t, answer) => RunsKeepsInv(s, t, answer);
  }

  /** Every schedule of owner and threads, from a new runtime, keeps the invariant. */
  lemma {:induction false} ExecuteKeepsInv(s: System, schedule: seq<Action>)
    requires Inv(s)
    ensures Inv(Execute(s, schedule))
  {
    if schedule != [] {
      var before := Execute(s, schedule[..|schedule| - 1]);
      ExecuteKeepsInv(s, schedule[..|schedule| - 1]);
      if Enabled(before, Last(schedule)) { NextKeepsInv(before, Last(schedule)); }
    }
  }
}
