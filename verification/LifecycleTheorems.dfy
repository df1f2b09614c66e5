/** What follows for every schedule: release of the owner, order of adapter calls, abandoned and stuck threads. */
module LifecycleTheorems {
  import opened Wrappers
  import opened LifecycleCalls
  import opened LifecycleInvariants
  import opened LifecycleThreads
  import opened LifecycleProtocol

  // ---------- Every interleaving is a history of calls ----------

  /** Between calls the owner is exactly the sequential machine after the calls completed so far. */
  lemma EveryInterleavingIsSequential(profile: Profile, owner: Owner, fallback: Fallback, schedule: seq<Action>)
    ensures var s := Execute(Initial(profile, owner, fallback), schedule);
            Inv(s) && (s.waiting.Idle? ==>
                         s.runtime == Replay(New(profile, owner, fallback), s.history) && Consistent(s.runtime))
  {
    InitialInv(profile, owner, fallback);
    ExecuteKeepsInv(Initial(profile, owner, fallback), schedule);
    var s := Execute(Initial(profile, owner, fallback), schedule);
    ExecuteKeepsStart(Initial(profile, owner, fallback), schedule);
    ReplayConsistent(s.start, s.history);
  }

  lemma {:induction false} ExecuteKeepsStart(s: System, schedule: seq<Action>)
    ensures Execute(s, schedule).start == s.start
  {
    if schedule != [] { ExecuteKeepsStart(s, schedule[..|schedule| - 1]); }
  }

  // ---------- The owner is released ----------

  /** Steps of the awaited thread until the owner can go on. */
  function Remaining(s: System): nat {
    if s.waiting.Idle? || s.waiting.thread >= |s.threads| then 0
    else
      var phase := s.threads[s.waiting.thread].phase;
      match s.waiting
      case AwaitStart(_, _) => if phase.Starting? then 2 else if phase.Announcing? then 1 else 0
      case AwaitReply(_, request, _) =>
        if request.id in s.replies then 0
        else if phase.Receiving? then 3
        else if phase.Handling? then 2
        else if phase.Replying? || phase.Finishing? then 1
        else 0
      case AwaitJoin(_, _, _) => if phase.Finishing? then 1 else 0
  }

  predicate OwnerCanMove(s: System) {
    Enabled(s, TakeStart) || Enabled(s, TakeReply) || Enabled(s, TakeJoin)
  }

  lemma ReleasedAtZero(s: System)
    requires SlotOk(s) && ThreadsOk(s) && !s.waiting.Idle?
    ensures OwnerCanMove(s) <==> Remaining(s) == 0
    ensures Remaining(s) <= 3
    ensures (s.waiting.AwaitStart? ==> Remaining(s) <= 2) && (s.waiting.AwaitJoin? ==> Remaining(s) <= 1)
  {}

  /** While the owner waits, the thread it waits for can always run, and each of its steps brings release nearer. */
  lemma AwaitedThreadRuns(s: System, answer: Option<Reply>)
    requires SlotOk(s) && ThreadsOk(s) && Remaining(s) > 0
    ensures ThreadEnabled(s, s.waiting.thread)
    ensures Remaining(RunsNext(s, s.waiting.thread, answer)) < Remaining(s)
  {}

  lemma OthersDoNotDelay(s: System, t: nat, answer: Option<Reply>)
    requires SlotOk(s) && ThreadsOk(s) && !s.waiting.Idle? && t != s.waiting.thread && ThreadEnabled(s, t)
    ensures Remaining(RunsNext(s, t, answer)) == Remaining(s)
  {}

  function StepsOf(schedule: seq<Action>, t: nat): nat {
    if schedule == [] then 0
    else StepsOf(Front(schedule), t) + if Last(schedule).Runs? && Last(schedule).thread == t then 1 else 0
  }

  lemma ZeroStays(s: System, answer: Option<Reply>)
    requires SlotOk(s) && ThreadsOk(s) && !s.waiting.Idle? && Remaining(s) == 0 && ThreadEnabled(s, s.waiting.thread)
    ensures Remaining(RunsNext(s, s.waiting.thread, answer)) == 0
  {}

  /** A thread's turn, which may find it blocked. */
  function Turn(s: System, t: nat, answer: Option<Reply>): System {
    if ThreadEnabled(s, t) then RunsNext(s, t, answer) else s
  }

  lemma TurnReleases(s: System, t: nat, answer: Option<Reply>)
    requires SlotOk(s) && ThreadsOk(s) && !s.waiting.Idle?
    ensures var after := Turn(s, t, answer);
            && after.waiting == s.waiting && Remaining(after) <= Remaining(s)
            && (t == s.waiting.thread && Remaining(s) > 0 ==> Remaining(after) < Remaining(s))
  {
    if t != s.waiting.thread {
      if ThreadEnabled(s, t) { OthersDoNotDelay(s, t, answer); }
    } else if Remaining(s) > 0 {
      AwaitedThreadRuns(s, answer);
    } else if ThreadEnabled(s, t) {
      ZeroStays(s, answer);
    }
  }

  lemma TurnKeepsInv(s: System, t: nat, answer: Option<Reply>)
    requires Inv(s)
    ensures Inv(Turn(s, t, answer))
  {
    if ThreadEnabled(s, t) { RunsKeepsInv(s, t, answer); }
  }

  predicate OnlyTurns(schedule: seq<Action>) { forall i :: 0 <= i < |schedule| ==> schedule[i].Runs? }

  lemma LastTurn(s: System, schedule: seq<Action>)
    requires schedule != [] && OnlyTurns(schedule)
    ensures OnlyTurns(Front(schedule))
    ensures Execute(s, schedule) == Turn(Execute(s, Front(schedule)), Last(schedule).thread, Last(schedule).answer)
  {
    assert Last(schedule) == schedule[|schedule| - 1];
  }

  lemma {:induction false} TurnsRelease(s: System, schedule: seq<Action>)
    requires Inv(s) && !s.waiting.Idle? && OnlyTurns(schedule)
    ensures var after := Execute(s, schedule);
            && after.waiting == s.waiting && Inv(after)
            && (Remaining(after) == 0 || Remaining(after) + StepsOf(schedule, s.waiting.thread) <= Remaining(s))
  {
    if schedule != [] {
      var before := Execute(s, Front(schedule));
      var a := Last(schedule);
      LastTurn(s, schedule);
      TurnsRelease(s, Front(schedule));
      TurnKeepsInv(before, a.thread, a.answer);
      TurnReleases(before, a.thread, a.answer);
    }
  }

  /**
   * However threads are scheduled and whatever their adapters return, an owner that waits can go on once the
   * thread it waits for has run the steps that remain: at most three, two for a start, one for a join.
   */
  lemma OwnerIsReleased(s: System, schedule: seq<Action>)
    requires Inv(s) && !s.waiting.Idle? && OnlyTurns(schedule)
    ensures var after := Execute(s, schedule);
            && after.waiting == s.waiting && Inv(after)
            && (StepsOf(schedule, s.waiting.thread) >= Remaining(s) ==> OwnerCanMove(after))
            && (Remaining(after) == 0 || Remaining(after) + StepsOf(schedule, s.waiting.thread) <= Remaining(s))
  {
    TurnsRelease(s, schedule);
    ReleasedAtZero(Execute(s, schedule));
  }

  // ---------- The owner gets its own reply ----------

  /** The answer taken is what the adapter returned for this very request, or the request was never answered. */
  lemma ReplyIsOwn(s: System)
    requires Inv(s) && Enabled(s, TakeReply)
    ensures var th := s.threads[s.waiting.thread];
            var request := s.waiting.request;
            match AnswerTaken(s)
            case Answered(reply) => Entry(CommandCall(request.command), Some(request.id), Some(reply)) in th.trace
            case ResponseLost => Gone(th) && !Answers(th.trace, request.id)
            case SendRejected => false
  {}

  lemma StartReplyIsOwn(s: System)
    requires Inv(s) && Enabled(s, TakeStart)
    ensures var th := s.threads[s.waiting.thread];
            if th.ready.Some? then th.trace[0] == Entry(StartCall, None, th.ready)
            else th.phase.Panicked? && th.trace == [Entry(StartCall, None, None)]
  {
    var th := s.threads[s.waiting.thread];
    assert Orderly(th) && Placed(s.waiting, s.replies, s.waiting.thread, th);
    if th.ready.None? {
      assert th.phase.Panicked? && |th.trace| == 1;
      assert Last(th.trace) == th.trace[0];
    }
  }

  // ---------- The order of adapter calls ----------

  predicate StopsAdapter(e: Entry) {
    e.call.FinalStop? || (e.call.CommandCall? && e.call.command.Stop?)
  }

  /**
   * Start first and only first; after a stop, at most the final stop; the final stop last; nothing after a panic.
   */
  predicate Lawful(trace: seq<Entry>) {
    && (forall i :: 0 <= i < |trace| ==> (trace[i].call.StartCall? <==> i == 0))
    && (forall i :: 0 <= i < |trace| && trace[i].call.FinalStop? ==> i == |trace| - 1)
    && (forall i :: 0 <= i < |trace| && StopsAdapter(trace[i]) ==>
                      i == |trace| - 1 || (i == |trace| - 2 && trace[i + 1].call.FinalStop?))
    && (forall i :: 0 <= i < |trace| && trace[i].returned.None? ==> i == |trace| - 1)
  }

  lemma InLoopLawful(trace: seq<Entry>)
    requires InLoop(trace)
    ensures Lawful(trace)
    ensures forall i :: 0 <= i < |trace| ==> !StopsAdapter(trace[i]) && trace[i].returned.Some?
  {
    forall i | 0 <= i < |trace|
      ensures !StopsAdapter(trace[i]) && trace[i].returned.Some? && (trace[i].call.StartCall? <==> i == 0)
    {
      if i > 0 { assert Served(trace[i]); }
    }
  }

  lemma LoopLeftLawful(trace: seq<Entry>)
    requires LoopLeft(trace)
    ensures Lawful(trace)
    ensures forall i :: 0 <= i < |trace| ==> trace[i].returned.Some? && !trace[i].call.FinalStop?
    ensures forall i :: 0 <= i < |trace| - 1 ==> !StopsAdapter(trace[i])
  {
    if InLoop(trace) {
      InLoopLawful(trace);
    } else {
      InLoopLawful(Front(trace));
      assert trace == Front(trace) + [Last(trace)];
    }
  }

  lemma AppendLawful(trace: seq<Entry>)
    requires trace != [] && Front(trace) != [] && LoopLeft(Front(trace))
    requires !Last(trace).call.StartCall?
    requires Last(trace).call.FinalStop? || InLoop(Front(trace))
    ensures Lawful(trace)
  {
    LoopLeftLawful(Front(trace));
    if InLoop(Front(trace)) { InLoopLawful(Front(trace)); }
    assert trace == Front(trace) + [Last(trace)];
  }

  lemma FittingTraceLawful(phase: Phase, trace: seq<Entry>)
    requires TraceFits(phase, trace)
    ensures Lawful(trace)
  {
    match phase
    case Starting =>
    case Announcing(_) =>
    case Receiving => InLoopLawful(trace);
    case Handling(_) => InLoopLawful(trace);
    case Replying(_, _) => AppendLawful(trace);
    case Finishing => LoopLeftLawful(trace);
    case Ended => AppendLawful(trace);
    case Panicked => if |trace| > 1 { AppendLawful(trace); }
  }

  /**
   * In every schedule, every thread ever spawned drives its adapter in order; one that ended normally stopped
   * it last, and twice exactly if a stop command was served.
   */
  lemma AdapterCallsInOrder(profile: Profile, owner: Owner, fallback: Fallback, schedule: seq<Action>, t: nat)
    requires t < |Execute(Initial(profile, owner, fallback), schedule).threads|
    ensures var th := Execute(Initial(profile, owner, fallback), schedule).threads[t];
            && Lawful(th.trace)
            && (th.phase.Ended? ==> |th.trace| >= 2 && Last(th.trace).call.FinalStop?)
            && (th.phase.Ended? ==> forall i :: 0 <= i < |th.trace| - 2 ==> !StopsAdapter(th.trace[i]))
  {
    EveryInterleavingIsSequential(profile, owner, fallback, schedule);
    var th := Execute(Initial(profile, owner, fallback), schedule).threads[t];
    FittingTraceLawful(th.phase, th.trace);
    if th.phase.Ended? {
      LoopLeftLawful(Front(th.trace));
      forall i | 0 <= i < |th.trace| - 2 ensures !StopsAdapter(th.trace[i]) {
        assert th.trace[i] == Front(th.trace)[i];
      }
    }
  }

  // ---------- Threads whose sender is gone ----------

  predicate Detached(s: System, t: nat) { t < |s.threads| && !SenderHeld(s, t) }

  function StepsLeft(th: Thread): nat {
    if th.phase.Receiving? then 2 else if th.phase.Finishing? then 1 else 0
  }

  /** At most one adapter call is left to a thread without a sender, and that call stops the adapter. */
  predicate OnlyFinished(trace: seq<Entry>, later: seq<Entry>) {
    later == trace || (|later| == |trace| + 1 && Front(later) == trace && Last(later).call.FinalStop?)
  }

  lemma DetachedQuiet(s: System, t: nat)
    requires SlotOk(s) && ThreadsOk(s) && Detached(s, t)
    ensures Quiet(s.threads[t])
    ensures ThreadEnabled(s, t) <==> StepsLeft(s.threads[t]) > 0
  {}

  lemma DetachedRuns(s: System, t: nat, u: nat, answer: Option<Reply>)
    requires SlotOk(s) && ThreadsOk(s) && Detached(s, t) && ThreadEnabled(s, u)
    ensures var after := RunsNext(s, u, answer);
            && Detached(after, t)
            && if u == t
               then after.threads[t] == RunThread(s.threads[t], answer)
                    && StepsLeft(after.threads[t]) < StepsLeft(s.threads[t])
               else after.threads[t] == s.threads[t]
  {
    DetachedQuiet(s, t);
  }

  lemma DetachedBegin(s: System, t: nat, call: Call)
    requires Inv(s) && Detached(s, t) && s.waiting.Idle?
    ensures Detached(BeginNext(s, call), t) && BeginNext(s, call).threads[t] == s.threads[t]
  {
    ReplayConsistent(s.start, s.history);
    OpeningKeepsSlot(s.runtime, call);
  }

  lemma DetachedTakes(s: System, t: nat, a: Action)
    requires Inv(s) && Detached(s, t) && Enabled(s, a) && (a.TakeStart? || a.TakeReply? || a.TakeJoin?)
    ensures Detached(Next(s, a), t) && Next(s, a).threads[t] == s.threads[t]
  {
    match a
    case TakeStart =>
    case TakeReply =>
      if !AwaitsJoin(s.waiting.request.command, AnswerTaken(s)) {
        AfterAnswerKeepsSlot(s.runtime, s.waiting.request.command, AnswerTaken(s));
      }
    case TakeJoin =>
  }

  lemma DetachedStep(s: System, t: nat, a: Action)
    requires Inv(s) && Detached(s, t) && Enabled(s, a)
    ensures Detached(Next(s, a), t)
    ensures if a.Runs? && a.thread == t
            then Next(s, a).threads[t] == RunThread(s.threads[t], a.answer)
                 && StepsLeft(Next(s, a).threads[t]) < StepsLeft(s.threads[t])
            else Next(s, a).threads[t] == s.threads[t]
  {
    match a
    case Begin(call) => DetachedBegin(s, t, call);
    case Runs(u, answer) => DetachedRuns(s, t, u, answer);
    case _ => DetachedTakes(s, t, a);
  }

  lemma FinalCallEndsTrace(th: Thread, answer: Option<Reply>, trace: seq<Entry>)
    requires Quiet(th) && StepsLeft(th) > 0 && th.trace == trace
    ensures OnlyFinished(trace, RunThread(th, answer).trace)
    ensures RunThread(th, answer).trace != trace ==> StepsLeft(RunThread(th, answer)) == 0
  {
    if th.phase.Finishing? { CalledTrace(th, FinalStop, None, answer, Ended); }
  }

  /** One more step of the system, seen from a thread without a sender. */
  lemma DetachedGoesOn(s: System, t: nat, a: Action, trace: seq<Entry>)
    requires Inv(s) && Detached(s, t) && Enabled(s, a) && OnlyFinished(trace, s.threads[t].trace)
    requires s.threads[t].trace != trace ==> StepsLeft(s.threads[t]) == 0
    ensures var after := Next(s, a);
            && Inv(after) && Detached(after, t) && StepsLeft(after.threads[t]) <= StepsLeft(s.threads[t])
            && OnlyFinished(trace, after.threads[t].trace)
            && (after.threads[t].trace != trace ==> StepsLeft(after.threads[t]) == 0)
  {
    NextKeepsInv(s, a);
    DetachedQuiet(s, t);
    DetachedStep(s, t, a);
    if a.Runs? && a.thread == t { FinalCallEndsTrace(s.threads[t], a.answer, trace); }
  }

  /**
   * Once no sender is held for a thread, it takes at most two more steps in any schedule, of which at most one
   * calls the adapter: to stop it.
   */
  lemma {:induction false} DetachedThreadOnlyFinishes(s: System, t: nat, schedule: seq<Action>)
    requires Inv(s) && Detached(s, t)
    ensures var after := Execute(s, schedule);
            && Inv(after) && Detached(after, t)
            && StepsLeft(after.threads[t]) <= StepsLeft(s.threads[t]) <= 2
            && OnlyFinished(s.threads[t].trace, after.threads[t].trace)
            && (after.threads[t].trace != s.threads[t].trace ==> StepsLeft(after.threads[t]) == 0)
  {
    if schedule == [] {
      DetachedQuiet(s, t);
    } else {
      var before := Execute(s, Front(schedule));
      DetachedThreadOnlyFinishes(s, t, Front(schedule));
      if Enabled(before, Last(schedule)) { DetachedGoesOn(before, t, Last(schedule), s.threads[t].trace); }
    }
  }

  /** Activating over a thread that is still there takes its sender away without joining it. */
  lemma ReactivationDetaches(s: System, t: nat)
    requires Inv(s) && Enabled(s, TakeStart) && s.runtime.sender == Some(t)
    ensures s.threads[s.waiting.thread].ready.Some? ==>
              Detached(TakeStartNext(s), t) && TakeStartNext(s).threads[t] == s.threads[t]
    ensures s.threads[s.waiting.thread].ready.None? ==>
              TakeStartNext(s).runtime.sender == Some(t) && Detached(TakeStartNext(s), s.waiting.thread)
  {}

  /** Every thread that is not gone holds a sender, or has its last steps before it. */
  lemma UnfinishedThreads(s: System, t: nat)
    requires Inv(s) && t < |s.threads| && !Gone(s.threads[t])
    ensures SenderHeld(s, t) || (Quiet(s.threads[t]) && 1 <= StepsLeft(s.threads[t]) <= 2 && ThreadEnabled(s, t))
  {
    if Detached(s, t) { DetachedQuiet(s, t); }
  }

  // ---------- After a stop ----------

  predicate NoReactivation(owner: Runtime, schedule: seq<Action>) {
    forall i :: 0 <= i < |schedule| && schedule[i].Begin? ==> !Reactivates(owner, schedule[i].call)
  }

  predicate Resting(s: System) { s.waiting.Idle? && s.runtime.sender.None? }

  lemma RestingStep(s: System, a: Action)
    requires Inv(s) && Resting(s) && Enabled(s, a)
    requires a.Begin? ==> !Reactivates(s.runtime, a.call)
    ensures Resting(Next(s, a)) && |Next(s, a).threads| == |s.threads| && Next(s, a).runtime.owner == s.runtime.owner
  {
    ReplayConsistent(s.start, s.history);
    if a.Begin? {
      OpeningKeepsSlot(s.runtime, a.call);
      PerformKeepsConsistent(s.runtime, a.call, NO_ENV);
      PerformIsStaged(s.runtime, a.call, NO_ENV);
    }
  }

  /** An owner whose last call was a stop that returned Ok is at rest. */
  lemma OkStopRests(s: System)
    requires Inv(s) && s.waiting.Idle? && s.history != [] && IsStop(Last(s.history).call)
    requires s.last.Some? && Report(s.runtime, s.last.value).Ok?
    ensures Resting(s) && s.runtime.status.lifecycle == Stopped
  {
    ReplayConsistent(s.start, Front(s.history));
    StopOkMeansStopped(Replay(s.start, Front(s.history)), Last(s.history).call, Last(s.history).env);
  }

  /**
   * At rest, as after a stop that returned Ok, no schedule reaches an adapter again before the owner activates,
   * but for the final stops of threads that were already on their way out.
   */
  lemma {:induction false} StoppedSystemStaysQuiet(s: System, schedule: seq<Action>)
    requires Inv(s) && Resting(s) && NoReactivation(s.runtime, schedule)
    ensures var after := Execute(s, schedule);
            && Inv(after) && Resting(after) && |after.threads| == |s.threads| && after.runtime.owner == s.runtime.owner
            && forall t :: 0 <= t < |s.threads| ==> OnlyFinished(s.threads[t].trace, after.threads[t].trace)
  {
    if schedule != [] {
      var before := Execute(s, Front(schedule));
      StoppedSystemStaysQuiet(s, Front(schedule));
      var a := Last(schedule);
      assert a == schedule[|schedule| - 1];
      if Enabled(before, a) {
        NextKeepsInv(before, a);
        RestingStep(before, a);
      }
    }
    forall t | 0 <= t < |s.threads|
      ensures OnlyFinished(s.threads[t].trace, Execute(s, schedule).threads[t].trace)
    {
      DetachedThreadOnlyFinishes(s, t, schedule);
    }
  }

  // ---------- After the thread left its loop ----------

  /** The slot's thread has left its receive loop, and no reply of it is outstanding. */
  predicate Stuck(s: System, t: nat) {
    && s.runtime.sender == Some(t) && t < |s.threads|
    && (s.threads[t].phase.Finishing? || Gone(s.threads[t]))
    && (s.waiting.Idle? || (s.waiting.AwaitReply? && s.waiting.request.id !in s.replies))
  }

  lemma StuckBegin(s: System, t: nat, call: Call)
    requires Inv(s) && Stuck(s, t) && s.waiting.Idle? && !Reactivates(s.runtime, call)
    ensures Stuck(BeginNext(s, call), t) && BeginNext(s, call).runtime.owner == s.runtime.owner
  {
    ReplayConsistent(s.start, s.history);
    OpeningKeepsSlot(s.runtime, call);
    OpeningKeepsOwner(s.runtime, call);
  }

  lemma StuckReply(s: System, t: nat)
    requires Inv(s) && Stuck(s, t) && Enabled(s, TakeReply)
    ensures Stuck(TakeReplyNext(s), t) && TakeReplyNext(s).runtime.owner == s.runtime.owner
  {
    AfterAnswerKeepsSlot(s.runtime, s.waiting.request.command, ResponseLost);
  }

  lemma StuckRuns(s: System, t: nat, u: nat, answer: Option<Reply>)
    requires SlotOk(s) && ThreadsOk(s) && Stuck(s, t) && ThreadEnabled(s, u)
    ensures Stuck(RunsNext(s, u, answer), t)
  {
    assert Placed(s.waiting, s.replies, u, s.threads[u]);
  }

  lemma StuckStep(s: System, t: nat, a: Action)
    requires Inv(s) && Stuck(s, t) && Enabled(s, a)
    requires a.Begin? ==> !Reactivates(s.runtime, a.call)
    ensures Stuck(Next(s, a), t) && Next(s, a).runtime.owner == s.runtime.owner
  {
    match a
    case Begin(call) => StuckBegin(s, t, call);
    case TakeReply => StuckReply(s, t);
    case Runs(u, answer) => StuckRuns(s, t, u, answer);
  }

  lemma OpeningKeepsOwner(r: Runtime, call: Call)
    ensures var stage := Opening(r, call);
            && (if stage.Completes? then stage.after.owner else stage.begun.owner) == r.owner
            && (stage.Spawns? ==> Reactivates(r, call))
  {}

  /**
   * A thread that left its loop while the slot keeps it is never joined: without an owner's activation no later
   * stop, drain, pause, resume or shutdown brings the runtime to Stopped.
   */
  lemma {:induction false} FailedStopIsNeverJoined(s: System, t: nat, schedule: seq<Action>)
    requires Inv(s) && Stuck(s, t) && NoReactivation(s.runtime, schedule)
    ensures var after := Execute(s, schedule);
            && Inv(after) && Stuck(after, t) && after.runtime.owner == s.runtime.owner
            && (after.waiting.Idle? ==> after.runtime.status.lifecycle != Stopped)
  {
    if schedule != [] {
      var before := Execute(s, Front(schedule));
      FailedStopIsNeverJoined(s, t, Front(schedule));
      var a := Last(schedule);
      assert a == schedule[|schedule| - 1];
      if Enabled(before, a) {
        NextKeepsInv(before, a);
        StuckStep(before, t, a);
      }
    }
    var after := Execute(s, schedule);
    ReplayConsistent(after.start, after.history);
  }

  /** One way there: the reply to a stop was an error. */
  lemma RefusedStopIsStuck(s: System)
    requires Inv(s) && Enabled(s, TakeReply) && s.waiting.request.command.Stop?
    requires AnswerTaken(s).Answered? && AnswerTaken(s).reply.Err?
    ensures var after := TakeReplyNext(s);
            && Stuck(after, s.waiting.thread) && after.last == Some(Fails(AdapterError(AnswerTaken(s).reply.error)))
            && after.runtime.status.lifecycle == Stopping
  {
    ReplayConsistent(s.start, s.history);
    OpeningKeepsSlot(Replay(s.start, s.history), s.waiting.call);
    assert Placed(s.waiting, s.replies, s.waiting.thread, s.threads[s.waiting.thread]);
  }
}
