/** What every history of owner calls keeps, whatever the control threads answer. */
module LifecycleInvariants {
  import opened Wrappers
  import opened Text
  import opened LifecycleCalls

  // ---------- Reachable states ----------

  predicate Connected(r: Runtime) { r.sender.Some? }

  predicate ConsistentSlot(r: Runtime) {
    && r.sender == r.handle
    && (r.status.lifecycle in {Active, Paused, Degraded} ==> r.handle.Some?)
    && (r.status.lifecycle in {Inactive, Stopped, Failed} ==> r.handle.None?)
    && (r.sender.Some? ==> r.status.authorization == Authorized)
  }

  predicate FullyStopped(s: Status) {
    && s.session == SessionStopped && s.authorization == Invalidated
    && !s.threadActive && s.threadJoined && s.collection == JOINED
  }

  /** Sessions are counted at most once per activation or resume, even where counters saturate. */
  predicate GenerationBounded(s: Status) {
    s.tally.generation <= s.tally.activations + s.tally.resumes
  }

  predicate Consistent(r: Runtime) {
    && ConsistentSlot(r)
    && (r.status.lifecycle == Stopped ==> FullyStopped(r.status))
    && GenerationBounded(r.status)
  }

  lemma ActivateKeepsConsistent(r: Runtime, refs: seq<string>, fallback: Fallback, env: Env)
    requires Consistent(r)
    ensures Consistent(DoActivate(r, refs, fallback, env).0)
  {}

  lemma FinishPauseKeeps(p: Profile, s: Status, o: Outcome)
    ensures var t := FinishPause(p, s, o);
            t.lifecycle == Paused && t.authorization == s.authorization && t.tally.generation == s.tally.generation
            && t.tally.activations == s.tally.activations && t.tally.resumes == s.tally.resumes
  {}

  lemma PauseKeepsConsistent(r: Runtime, refs: seq<string>, fallback: Fallback, env: Env)
    requires Consistent(r)
    ensures Consistent(DoPause(r, refs, fallback, env).0)
  {
    var sent := SendResult(r.sender, env.answer);
    if sent.Ok? {
      FinishPauseKeeps(r.profile, BeginCommand(r.profile, r.status, Pausing, refs, fallback), sent.value);
    }
  }

  lemma ResumeKeepsConsistent(r: Runtime, refs: seq<string>, fallback: Fallback, env: Env)
    requires Consistent(r)
    ensures Consistent(DoResume(r, refs, fallback, env).0)
  {}

  lemma StopKeepsConsistent(r: Runtime, refs: seq<string>, fallback: Fallback, env: Env)
    requires Consistent(r)
    ensures Consistent(DoStop(r, refs, fallback, env).0)
  {}

  lemma PerformKeepsConsistent(r: Runtime, call: Call, env: Env)
    requires Consistent(r)
    ensures Consistent(Perform(r, call, env).0)
    ensures Perform(r, call, env).0.profile == r.profile && Perform(r, call, env).0.owner == r.owner
  {
    match call
    case Activate(_, refs, fallback) => ActivateKeepsConsistent(r, refs, fallback, env);
    case PauseCall(_, refs, fallback) => PauseKeepsConsistent(r, refs, fallback, env);
    case ResumeCall(_, refs, fallback) => ResumeKeepsConsistent(r, refs, fallback, env);
    case StopCall(_, refs, fallback) => StopKeepsConsistent(r, refs, fallback, env);
    case Shutdown(fallback) => StopKeepsConsistent(r, SHUTDOWN_REFS, fallback, env);
    case DrainCall(_, _) =>
    case RecordHandoff(_, batches, publications, facts) =>
  }

  lemma NewConsistent(profile: Profile, owner: Owner, fallback: Fallback)
    ensures Consistent(New(profile, owner, fallback))
  {}

  lemma {:induction false} ReplayConsistent(r: Runtime, history: seq<Step>)
    requires Consistent(r)
    ensures Consistent(Replay(r, history))
    ensures Replay(r, history).profile == r.profile && Replay(r, history).owner == r.owner
  {
    if history != [] {
      var last := history[|history| - 1];
      ReplayConsistent(r, history[..|history| - 1]);
      PerformKeepsConsistent(Replay(r, history[..|history| - 1]), last.call, last.env);
    }
  }

  // ---------- What a stop guarantees ----------

  predicate IsStop(call: Call) { call.StopCall? || call.Shutdown? }

  /** A stop that returns Ok leaves nothing running. */
  lemma StopOkMeansStopped(r: Runtime, call: Call, env: Env)
    requires Consistent(r) && IsStop(call)
    ensures var (after, ending) := Perform(r, call, env);
            Report(after, ending).Ok? ==>
              after.status.lifecycle == Stopped && FullyStopped(after.status) && !Connected(after)
  {
    PerformKeepsConsistent(r, call, env);
  }

  predicate Reactivates(r: Runtime, call: Call) {
    call.Activate? && Refusal(r, call).None?
  }

  /**
   * Without a thread, a call other than an activation by the owner reaches no adapter: what it does is the
   * same whatever the outside would have answered, and it leaves the runtime without a thread.
   */
  lemma DisconnectedCallIgnoresAdapters(r: Runtime, call: Call, env: Env, other: Env)
    requires Consistent(r) && !Connected(r) && !Reactivates(r, call)
    ensures Perform(r, call, env) == Perform(r, call, other)
    ensures !Connected(Perform(r, call, env).0)
  {
    PerformKeepsConsistent(r, call, env);
  }

  lemma {:induction false} StoppedUntilReactivated(r: Runtime, history: seq<Step>)
    requires Consistent(r) && !Connected(r)
    requires forall i :: 0 <= i < |history| ==> !Reactivates(r, history[i].call)
    ensures var after := Replay(r, history);
            Consistent(after) && !Connected(after) && after.owner == r.owner
            && after.status.tally.activations == r.status.tally.activations
            && after.status.tally.generation == r.status.tally.generation
  {
    if history != [] {
      var last := history[|history| - 1];
      var before := Replay(r, history[..|history| - 1]);
      StoppedUntilReactivated(r, history[..|history| - 1]);
      DisconnectedCallIgnoresAdapters(before, last.call, last.env, last.env);
      PerformKeepsConsistent(before, last.call, last.env);
    }
  }

  // ---------- When a completed stop still reports an error ----------

  /** The runtime as it stands after its thread acknowledged the stop and was joined. */
  function Joined(r: Runtime, refs: seq<string>, fallback: Fallback, o: Outcome): Status {
    FinishStop(r.profile, ApplyRuntimeOutcome(BeginCommand(r.profile, r.status, Stopping, refs, fallback), o))
  }

  /**
   * The thread is gone and the status is Stopped, yet the call returns an error exactly when a text is
   * unsafe or the counters of the final outcome do not cover the batches published over all sessions.
   */
  lemma JoinedStopReportsOkExactlyWhen(r: Runtime, refs: seq<string>, fallback: Fallback, o: Outcome, env: Env)
    requires r.handle.Some? && r.sender.Some? && env.answer == Answered(Ok(o)) && env.joined
    ensures var (after, ending) := DoStop(r, refs, fallback, env);
            && after.status.lifecycle == Stopped && after.handle.None?
            && (Report(after, ending).Ok? <==>
                  TextsValid(Joined(r, refs, fallback, o)) && CountersValid(EventsOf(o), r.status.handoff.batches))
  {
    assert DoStop(r, refs, fallback, env).0.status == Joined(r, refs, fallback, o);
  }

  /**
   * An activation that opens a session reports an error in exactly these cases, with the thread running and
   * the runtime Active all the same: among them, an adapter that starts counting from zero again after
   * batches were published in an earlier session.
   */
  lemma ActivationReportsOkExactlyWhen(r: Runtime, refs: seq<string>, fallback: Fallback, o: Outcome, env: Env)
    requires r.handle.Some? ==> r.status.lifecycle !in {Active, Degraded}
    requires env.started == Some(Ok(o))
    ensures var (after, ending) := DoActivate(r, refs, fallback, env);
            && after.status.lifecycle == Active && Connected(after)
            && (Report(after, ending).Ok? <==>
                  && TextsValid(after.status)
                  && CountersValid(EventsOf(o), r.status.handoff.batches)
                  && o.state == ControlActive && EverythingCollected(CollectionOf(o)))
  {}

  /** Published batches only ever accumulate; a later session does not start again from zero. */
  lemma PublishedBatchesNeverDrop(r: Runtime, call: Call, env: Env)
    ensures r.status.handoff.batches <= Perform(r, call, env).0.status.handoff.batches
    ensures Perform(r, call, env).0.status.handoff.batches != r.status.handoff.batches ==> call.RecordHandoff?
  {
    if Refusal(r, call).None? {
      match call
      case Activate(_, refs, fallback) =>
      case PauseCall(_, refs, fallback) =>
      case ResumeCall(_, refs, fallback) =>
      case StopCall(_, refs, fallback) =>
      case Shutdown(fallback) =>
      case DrainCall(_, _) =>
      case RecordHandoff(_, batches, publications, facts) =>
    }
  }

  // ---------- The three copies ----------

  /** An outcome in the ETW runtime's terms: an event log's enabled provider stands for a trace session. */
  function TraceView(o: Outcome): (r: Outcome)
    ensures r.TraceOutcome?
    ensures OpensSession(r) == OpensSession(o) && r.state == o.state
  {
    match o
    case TraceOutcome(_, _, _, _, _, _, _, _, _, _, _, _, _, _) => o
    case EventLogOutcome(
      state, provider, collection, consumer, active, joined, raw, auth, remote, dropped, rate, schema, batches, why) =>
      TraceOutcome(state, provider, provider, collection, consumer, active, joined, raw, Max(auth, remote), dropped,
                   rate, schema, batches, why)
  }

  function TraceReply(reply: Reply): Reply {
    match reply
    case Ok(o) => Ok(TraceView(o))
    case Err(_) => reply
  }

  function TraceEnv(env: Env): Env {
    env.(
    started := if env.started.Some? then Some(TraceReply(env.started.value)) else None,
    answer := if env.answer.Answered? then Answered(TraceReply(env.answer.reply)) else env.answer)
  }

  function TraceHistory(history: seq<Step>): (r: seq<Step>)
    ensures |r| == |history|
  {
    seq(|history|, i requires 0 <= i < |history| => history[i].(env := TraceEnv(history[i].env)))
  }

  /** The same in everything but the notes: lifecycle, session, authorization, flags, counters, refs, slot. */
  predicate Same(s: Status, t: Status) {
    && s.lifecycle == t.lifecycle && s.session == t.session && s.authorization == t.authorization
    && s.threadActive == t.threadActive && s.threadJoined == t.threadJoined
    && s.collection == t.collection && s.events == t.events && s.handoff == t.handoff && s.tally == t.tally
    && s.authorizationRefs == t.authorizationRefs
  }

  predicate Agree(a: Runtime, b: Runtime) {
    Same(a.status, b.status) && a.owner == b.owner && a.sender == b.sender && a.handle == b.handle
  }

  lemma {:induction false} DropBlankFixed(xs: seq<string>)
    requires forall x :: x in xs ==> !IsBlank(x)
    ensures DropBlank(xs) == xs
  {
    if xs != [] {
      assert xs[0] in xs;
      DropBlankFixed(xs[1..]);
      assert xs == [xs[0]] + xs[1..];
    }
  }

  lemma {:induction false} DropBlankMembers(xs: seq<string>)
    ensures forall x :: x in DropBlank(xs) <==> x in xs && !IsBlank(x)
  {
    if xs != [] {
      DropBlankMembers(xs[1..]);
      assert xs == [xs[0]] + xs[1..];
    }
  }

  /** Bounded refs ascend strictly and are exactly the first 16 that are not blank, untrimmed, each once. */
  lemma BoundedRefsShape(values: seq<string>)
    ensures var b := BoundedRefs(values);
            |b| <= 16 && StrictlyAscending(b) && forall x :: x in b ==> x in values && !IsBlank(x)
    ensures forall x :: x in BoundedRefs(values) <==> x in Take(DropBlank(values), 16)
  {
    var taken := Take(DropBlank(values), MAX_LIFECYCLE_REFS);
    DropBlankMembers(values);
    SortSorts(taken);
    DedupMembers(Sort(taken));
    DedupStrict(Sort(taken));
  }

  /** Bounding twice is bounding once: the other two runtimes rely on it when they stop. */
  lemma BoundedRefsIdempotent(values: seq<string>)
    ensures BoundedRefs(BoundedRefs(values)) == BoundedRefs(values)
  {
    var b := BoundedRefs(values);
    BoundedRefsShape(values);
    DropBlankFixed(b);
    SortFixed(b);
    DedupFixed(b);
  }

  lemma ViewAgrees(o: Outcome)
    ensures CollectionOf(TraceView(o)) == CollectionOf(o) && EventsOf(TraceView(o)) == EventsOf(o)
  {}

  lemma ApplyOutcomeAgrees(s: Status, t: Status, reply: Reply, success: Lifecycle, count: bool)
    requires Same(s, t)
    ensures Same(ApplyOutcome(s, TraceReply(reply), success, count), ApplyOutcome(t, reply, success, count))
  {
    if reply.Ok? { ViewAgrees(reply.value); }
  }

  lemma SendAgrees(sender: Option<nat>, env: Env)
    ensures var (x, y) := (SendResult(sender, TraceEnv(env).answer), SendResult(sender, env.answer));
            x == if y.Ok? then Ok(TraceView(y.value)) else y
  {}

  lemma BeginActivationAgrees(p: Profile, q: Profile, s: Status, t: Status, refs: seq<string>, fallback: Fallback)
    requires Same(s, t)
    ensures Same(BeginActivation(p, s, refs, fallback), BeginActivation(q, t, refs, fallback))
  {}

  lemma FinishActivationAgrees(p: Profile, q: Profile, s: Status, t: Status, reply: Reply)
    requires Same(s, t)
    ensures Same(FinishActivation(p, s, TraceReply(reply)), FinishActivation(q, t, reply))
  {
    ApplyOutcomeAgrees(s.(threadActive := true), t.(threadActive := true), reply, Active, true);
  }

  lemma ActivateAgrees(a: Runtime, b: Runtime, refs: seq<string>, fallback: Fallback, env: Env)
    requires a.profile.kind == Etw && Agree(a, b)
    ensures Agree(DoActivate(a, refs, fallback, TraceEnv(env)).0, DoActivate(b, refs, fallback, env).0)
  {
    BeginActivationAgrees(a.profile, b.profile, a.status, b.status, refs, fallback);
    if env.started.Some? {
      FinishActivationAgrees(
        a.profile, b.profile,
        BeginActivation(a.profile, a.status, refs, fallback),
        BeginActivation(b.profile, b.status, refs, fallback), env.started.value);
    }
  }

  lemma PauseAgrees(a: Runtime, b: Runtime, refs: seq<string>, fallback: Fallback, env: Env)
    requires a.profile.kind == Etw && Agree(a, b)
    ensures Agree(DoPause(a, refs, fallback, TraceEnv(env)).0, DoPause(b, refs, fallback, env).0)
  {
    SendAgrees(b.sender, env);
    var sent := SendResult(b.sender, env.answer);
    if b.status.lifecycle != Paused && sent.Ok? {
      ApplyOutcomeAgrees(
        BeginCommand(a.profile, a.status, Pausing, refs, fallback),
        BeginCommand(b.profile, b.status, Pausing, refs, fallback), Ok(sent.value), Paused, false);
    }
  }

  lemma ResumeAgrees(a: Runtime, b: Runtime, refs: seq<string>, fallback: Fallback, env: Env)
    requires a.profile.kind == Etw && Agree(a, b)
    ensures Agree(DoResume(a, refs, fallback, TraceEnv(env)).0, DoResume(b, refs, fallback, env).0)
  {
    SendAgrees(b.sender, env);
    var sent := SendResult(b.sender, env.answer);
    if b.status.lifecycle != Active && sent.Ok? {
      ApplyOutcomeAgrees(
        BeginCommand(a.profile, a.status, Resuming, refs, fallback),
        BeginCommand(b.profile, b.status, Resuming, refs, fallback), Ok(sent.value), Active, true);
    }
  }

  lemma FinishStopAgrees(p: Profile, q: Profile, s: Status, t: Status)
    requires p.kind == Etw && s.tally == t.tally && s.handoff == t.handoff && s.events == t.events
    requires s.authorizationRefs == t.authorizationRefs == BoundedRefs(t.authorizationRefs)
    ensures Same(FinishStop(p, s), FinishStop(q, t))
  {}

  predicate Acknowledges(answer: Answer) { answer.Answered? && answer.reply.Ok? }

  /** Only an acknowledged stop joins a thread; every other call ignores how a join would go. */
  predicate JoinSucceeds(call: Call, env: Env) { IsStop(call) && Acknowledges(env.answer) ==> env.joined }

  predicate JoinsSucceed(history: seq<Step>) {
    forall i :: 0 <= i < |history| ==> JoinSucceeds(history[i].call, history[i].env)
  }

  lemma StopAgrees(a: Runtime, b: Runtime, refs: seq<string>, fallback: Fallback, env: Env)
    requires a.profile.kind == Etw && Agree(a, b) && (Acknowledges(env.answer) ==> env.joined)
    ensures Agree(DoStop(a, refs, fallback, TraceEnv(env)).0, DoStop(b, refs, fallback, env).0)
  {
    SendAgrees(b.sender, env);
    var sent := SendResult(b.sender, env.answer);
    if b.handle.Some? && sent.Ok? {
      BoundedRefsIdempotent(refs);
      ViewAgrees(sent.value);
      FinishStopAgrees(
        a.profile, b.profile,
        ApplyRuntimeOutcome(BeginCommand(a.profile, a.status, Stopping, refs, fallback), TraceView(sent.value)),
        ApplyRuntimeOutcome(BeginCommand(b.profile, b.status, Stopping, refs, fallback), sent.value));
    }
  }

  lemma DrainAgrees(a: Runtime, b: Runtime, env: Env)
    requires Agree(a, b)
    ensures Agree(DoDrain(a, TraceEnv(env)).0, DoDrain(b, env).0)
  {
    SendAgrees(b.sender, env);
    var sent := SendResult(b.sender, env.answer);
    if sent.Ok? { ApplyOutcomeAgrees(a.status, b.status, Ok(sent.value), Active, false); }
  }

  lemma DispatchAgrees(a: Runtime, b: Runtime, call: Call, env: Env)
    requires a.profile.kind == Etw && Agree(a, b) && JoinSucceeds(call, env)
    ensures Agree(Dispatch(a, call, TraceEnv(env)).0, Dispatch(b, call, env).0)
  {
    match call
    case Activate(_, refs, fallback) => ActivateAgrees(a, b, refs, fallback, env);
    case PauseCall(_, refs, fallback) => PauseAgrees(a, b, refs, fallback, env);
    case ResumeCall(_, refs, fallback) => ResumeAgrees(a, b, refs, fallback, env);
    case StopCall(_, refs, fallback) => StopAgrees(a, b, refs, fallback, env);
    case Shutdown(fallback) => StopAgrees(a, b, SHUTDOWN_REFS, fallback, env);
    case DrainCall(_, _) => DrainAgrees(a, b, env);
    case RecordHandoff(_, batches, publications, facts) =>
  }

  lemma PerformAgrees(a: Runtime, b: Runtime, call: Call, env: Env)
    requires a.profile.kind == Etw && Agree(a, b) && JoinSucceeds(call, env)
    ensures Agree(Perform(a, call, TraceEnv(env)).0, Perform(b, call, env).0)
  {
    if Refusal(b, call).None? { DispatchAgrees(a, b, call, env); }
  }

  /** On every history whose joins succeed, each of the other runtimes is the ETW runtime. */
  lemma {:induction false} RuntimesSimulateEtw(
    etw: Profile, profile: Profile, owner: Owner, fallback: Fallback, history: seq<Step>)
    requires etw.kind == Etw && JoinsSucceed(history)
    ensures Agree(Replay(New(etw, owner, fallback), TraceHistory(history)),
                  Replay(New(profile, owner, fallback), history))
  {
    if history != [] {
      var n := |history| - 1;
      RuntimesSimulateEtw(etw, profile, owner, fallback, history[..n]);
      assert TraceHistory(history)[..n] == TraceHistory(history[..n]);
      NewConsistent(etw, owner, fallback);
      ReplayConsistent(New(etw, owner, fallback), TraceHistory(history[..n]));
      PerformAgrees(
        Replay(New(etw, owner, fallback), TraceHistory(history[..n])),
        Replay(New(profile, owner, fallback), history[..n]),
        history[n].call, history[n].env);
    }
  }

  /** A failed join parts the copies exactly when the last outcome still claimed a session or a worker. */
  lemma FailedJoinAgreesExactlyWhen(
      a: Runtime, b: Runtime, refs: seq<string>, fallback: Fallback, o: Outcome, env: Env)
    requires a.profile.kind == Etw && b.profile.kind != Etw && Agree(a, b) && b.handle.Some? && b.sender.Some?
    requires env.answer == Answered(Ok(o)) && !env.joined
    ensures Agree(DoStop(a, refs, fallback, TraceEnv(env)).0, DoStop(b, refs, fallback, env).0)
            <==> !OpensSession(o) && !TraceView(o).workerActive
  {
    var x := DoStop(a, refs, fallback, TraceEnv(env)).0.status;
    var y := DoStop(b, refs, fallback, env).0.status;
    assert y.collection == CollectionOf(o);
    assert x.collection == CollectionOf(o).(traceSession := false, workerActive := false);
    assert Same(x, y.(collection := x.collection));
  }
}
