/** When a completed activation or stop still reports an error, for runtimes that a program can have. */
module LifecycleReports {
  import opened Wrappers
  import opened Text
  import opened LifecycleCalls
  import opened LifecycleInvariants
  import opened LifecycleEffects

  // ---------- Texts without an equals sign are safe ----------

  /** A label: lowercase letters and underscores, not too long. */
  predicate Label(s: string) {
    1 <= |s| <= MAX_LIFECYCLE_TEXT && Plain(s)
  }

  lemma {:induction false} LabelLength(s: string)
    requires Plain(s)
    ensures Utf8Length(s) == |s|
  {
    if s != [] { LabelLength(s[1..]); }
  }

  predicate EndsWithEquals(marker: string) { marker != "" && marker[|marker| - 1] == '=' }

  lemma MarkersEndWithEquals(marker: string)
    requires marker in UNSAFE_MARKERS
    ensures EndsWithEquals(marker)
  {
    assert forall i :: 0 <= i < |UNSAFE_MARKERS| ==> EndsWithEquals(UNSAFE_MARKERS[i]);
  }

  lemma LabelHoldsNoMarker(s: string, marker: string)
    requires Label(s) && EndsWithEquals(marker)
    ensures !ContainsFolded(s, marker)
  {
    forall i: nat | i <= |s| ensures !MatchesFolded(s, marker, i) {
      if i + |marker| <= |s| {
        var j := |marker| - 1;
        assert AsciiLower(s[i + j]) != marker[j];
      }
    }
  }

  lemma LabelIsSafe(s: string)
    requires Label(s)
    ensures SafeText(s)
  {
    assert !IsWhitespace(s[0]) && !IsWhitespace(s[|s| - 1]);
    LabelLength(s);
    forall m | m in UNSAFE_MARKERS ensures !ContainsFolded(s, m) {
      MarkersEndWithEquals(m);
      LabelHoldsNoMarker(s, m);
    }
  }

  // ---------- What the notes of a runtime hold ----------

  predicate Labels(refs: seq<string>) { forall i :: 0 <= i < |refs| ==> Label(refs[i]) }

  /** The labels that a profile puts into a status; the two without a pause and a resume entry never use them. */
  predicate LabelledProfile(p: Profile) {
    && Label(p.lifecycleRef) && Label(p.initialEntry) && Label(p.provenanceRef) && Label(p.activationEntry)
    && (p.kind == Etw ==> Label(p.pauseEntry) && Label(p.resumeEntry))
    && Label(p.stopEntry) && Label(p.stopReason) && Label(p.joinReason)
  }

  lemma PlainJoins(a: string, b: string)
    requires Plain(a) && Plain(b)
    ensures Plain(a + b)
  {
  }

  lemma TwoWords(a: Word, b: Word)
    requires 1 <= |a| + |b| <= MAX_LIFECYCLE_TEXT
    ensures Label(a + b)
  {
    PlainJoins(a, b);
  }

  lemma ThreeWords(a: Word, b: Word, c: Word)
    requires 1 <= |a| + |b| + |c| <= MAX_LIFECYCLE_TEXT
    ensures Label(a + b + c)
  {
    PlainJoins(a, b);
    PlainJoins(a + b, c);
  }

  lemma FourWords(a: Word, b: Word, c: Word, d: Word)
    requires 1 <= |a| + |b| + |c| + |d| <= MAX_LIFECYCLE_TEXT
    ensures Label(a + b + c + d)
  {
    PlainJoins(a, b);
    PlainJoins(a + b, c);
    PlainJoins(a + b + c, d);
  }

  lemma EtwIsLabelled()
    ensures LabelledProfile(ProfileOf(Etw))
  {
    ThreeWords(ETW_, LIFECYCLE_, REF);
    ThreeWords(ETW_, LIFECYCLE_, INITIALIZED);
    FourWords(SERVICEHOST_, ETW_, LIFECYCLE_, RUNTIME);
    TwoWords(ETW_, ACTIVATION_AUTHORIZED);
    TwoWords(ETW_, PAUSE_COMPLETED);
    TwoWords(ETW_, RESUME_COMPLETED);
    TwoWords(ETW_, STOP_COMPLETED);
    ThreeWords(ETW_, CONTROL_, SESSION_STOPPED);
    ThreeWords(ETW_, CONTROL_, THREAD_JOIN_FAILED);
  }

  lemma DnsIsLabelled()
    ensures LabelledProfile(ProfileOf(Dns))
  {
    FourWords(DNS_, SENSING_, LIFECYCLE_, REF);
    ThreeWords(DNS_, SENSING_, INITIALIZED);
    FourWords(SERVICEHOST_, DNS_, SENSING_, RUNTIME);
    TwoWords(DNS_, ACTIVATION_AUTHORIZED);
    TwoWords(DNS_, STOP_COMPLETED);
    ThreeWords(DNS_, CONTROL_, SESSION_STOPPED);
    ThreeWords(DNS_, CONTROL_, THREAD_JOIN_FAILED);
  }

  lemma AuthRemoteIsLabelled()
    ensures LabelledProfile(ProfileOf(AuthRemote))
  {
    FourWords(AUTH_, SENSING_, LIFECYCLE_, REF);
    ThreeWords(AUTH_, SENSING_, INITIALIZED);
    FourWords(SERVICEHOST_, AUTH_, SENSING_, RUNTIME);
    TwoWords(AUTH_, ACTIVATION_AUTHORIZED);
    TwoWords(AUTH_, STOP_COMPLETED);
    ThreeWords(AUTH_, EVENT_LOG_, SESSION_STOPPED);
    ThreeWords(AUTH_, CONTROL_, THREAD_JOIN_FAILED);
  }

  lemma ProfilesAreLabelled(kind: Kind)
    ensures LabelledProfile(ProfileOf(kind))
  {
    match kind
    case Etw => EtwIsLabelled();
    case Dns => DnsIsLabelled();
    case AuthRemote => AuthRemoteIsLabelled();
  }

  /** What no call changes in the notes, and what the audit trail is made of; the reason and fallback are free. */
  predicate Known(p: Profile, owner: Owner, n: Notes) {
    && n.lifecycleRef == p.lifecycleRef && n.provenanceRefs == [p.provenanceRef]
    && n.ownershipRef == owner.ownershipRef && n.ownershipEpoch == owner.ownershipEpoch
    && |n.auditRefs| <= MAX_LIFECYCLE_REFS && Labels(n.auditRefs)
  }

  predicate KnownRuntime(r: Runtime) { LabelledProfile(r.profile) && Known(r.profile, r.owner, r.status.notes) }

  lemma AuditedKnown(p: Profile, owner: Owner, n: Notes, entry: string)
    requires Known(p, owner, n) && Label(entry)
    ensures Known(p, owner, Audited(n, entry))
  {
    var values := n.auditRefs + [entry];
    BoundedRefsShape(values);
    forall i | 0 <= i < |BoundedRefs(values)| ensures Label(BoundedRefs(values)[i]) {
      assert BoundedRefs(values)[i] in values;
    }
  }

  lemma ActivateKeepsKnown(r: Runtime, refs: seq<string>, fallback: Fallback, env: Env)
    requires KnownRuntime(r)
    ensures KnownRuntime(DoActivate(r, refs, fallback, env).0)
  {
    if env.started.Some? {
      var begun := BeginActivation(r.profile, r.status, refs, fallback).(threadActive := true);
      var applied := ApplyOutcome(begun, env.started.value, Active, true);
      AuditedKnown(r.profile, r.owner, applied.notes, r.profile.activationEntry);
    }
  }

  lemma PauseKeepsKnown(r: Runtime, refs: seq<string>, fallback: Fallback, env: Env)
    requires KnownRuntime(r)
    ensures KnownRuntime(DoPause(r, refs, fallback, env).0)
  {
    var sent := SendResult(r.sender, env.answer);
    if sent.Ok? && r.profile.kind == Etw {
      var begun := BeginCommand(r.profile, r.status, Pausing, refs, fallback);
      AuditedKnown(
        r.profile, r.owner, ApplyOutcome(begun, Ok(sent.value), Paused, false).notes, r.profile.pauseEntry);
    }
  }

  lemma ResumeKeepsKnown(r: Runtime, refs: seq<string>, fallback: Fallback, env: Env)
    requires KnownRuntime(r)
    ensures KnownRuntime(DoResume(r, refs, fallback, env).0)
  {
    var sent := SendResult(r.sender, env.answer);
    if sent.Ok? && r.profile.kind == Etw {
      var begun := BeginCommand(r.profile, r.status, Resuming, refs, fallback);
      AuditedKnown(
        r.profile, r.owner, ApplyOutcome(begun, Ok(sent.value), Active, true).notes, r.profile.resumeEntry);
    }
  }

  lemma StopKeepsKnown(r: Runtime, refs: seq<string>, fallback: Fallback, env: Env)
    requires KnownRuntime(r)
    ensures KnownRuntime(DoStop(r, refs, fallback, env).0)
  {
    var sent := SendResult(r.sender, env.answer);
    if r.handle.Some? && sent.Ok? {
      var applied := ApplyRuntimeOutcome(BeginCommand(r.profile, r.status, Stopping, refs, fallback), sent.value);
      AuditedKnown(r.profile, r.owner, applied.notes.(degradedReason := Some(r.profile.stopReason)),
                   r.profile.stopEntry);
    }
  }

  lemma PerformKeepsKnown(r: Runtime, call: Call, env: Env)
    requires KnownRuntime(r)
    ensures KnownRuntime(Perform(r, call, env).0)
  {
    match call
    case Activate(_, refs, fallback) => ActivateKeepsKnown(r, refs, fallback, env);
    case PauseCall(_, refs, fallback) => PauseKeepsKnown(r, refs, fallback, env);
    case ResumeCall(_, refs, fallback) => ResumeKeepsKnown(r, refs, fallback, env);
    case StopCall(_, refs, fallback) => StopKeepsKnown(r, refs, fallback, env);
    case Shutdown(fallback) => StopKeepsKnown(r, SHUTDOWN_REFS, fallback, env);
    case DrainCall(_, _) =>
    case RecordHandoff(_, batches, publications, facts) =>
  }

  /** The runtime of a kind after a history of calls. */
  function Reached(kind: Kind, owner: Owner, fallback: Fallback, history: seq<Step>): Runtime {
    Replay(New(ProfileOf(kind), owner, fallback), history)
  }

  lemma NewKnown(profile: Profile, owner: Owner, fallback: Fallback)
    requires LabelledProfile(profile)
    ensures KnownRuntime(New(profile, owner, fallback))
  {
  }

  lemma {:induction false} ReplayKnown(r: Runtime, history: seq<Step>)
    requires KnownRuntime(r)
    ensures KnownRuntime(Replay(r, history))
  {
    if history != [] {
      var n := |history| - 1;
      ReplayKnown(r, history[..n]);
      PerformKeepsKnown(Replay(r, history[..n]), history[n].call, history[n].env);
    }
  }

  lemma ReachedKnown(kind: Kind, owner: Owner, fallback: Fallback, history: seq<Step>)
    ensures var r := Reached(kind, owner, fallback, history);
            KnownRuntime(r) && r.owner == owner && r.profile == ProfileOf(kind) && Consistent(r)
  {
    var r := New(ProfileOf(kind), owner, fallback);
    ProfilesAreLabelled(kind);
    NewKnown(ProfileOf(kind), owner, fallback);
    ReplayKnown(r, history);
    NewConsistent(ProfileOf(kind), owner, fallback);
    ReplayConsistent(r, history);
  }

  // ---------- When a status passes its text checks ----------

  predicate OwnerNamed(owner: Owner) { SafeText(owner.ownershipRef) && owner.ownershipEpoch != 0 }

  predicate ReasonSafe(reason: Option<string>) { reason.Some? ==> SafeText(reason.value) }

  lemma LabelsAreSafe(refs: seq<string>)
    requires Labels(refs) && |refs| <= MAX_LIFECYCLE_REFS
    ensures SafeRefs(refs)
  {
    forall i | 0 <= i < |refs| ensures SafeText(refs[i]) { LabelIsSafe(refs[i]); }
  }

  /** With known notes only the owner's name, the caller's refs and the reason can fail the text checks. */
  lemma TextsValidExactlyWhen(p: Profile, owner: Owner, s: Status)
    requires LabelledProfile(p) && Known(p, owner, s.notes)
    ensures TextsValid(s)
            <==> OwnerNamed(owner) && SafeRefs(s.authorizationRefs) && ReasonSafe(s.notes.degradedReason)
  {
    LabelIsSafe(p.lifecycleRef);
    LabelsAreSafe(s.notes.auditRefs);
    LabelsAreSafe(s.notes.provenanceRefs);
  }

  /** The outcome's counts are in order, and its normalized events are at least as many as the batches published. */
  predicate CountsCover(o: Outcome, published: nat) {
    match o
    case TraceOutcome(_, _, _, _, _, _, _, raw, normalized, dropped, rate, schema, _, _) =>
      normalized <= raw && rate <= dropped && schema <= dropped && published <= normalized
    case EventLogOutcome(_, _, _, _, _, _, raw, auth, remote, dropped, rate, schema, _, _) =>
      && auth <= raw && remote <= raw && rate <= dropped && schema <= dropped
      && (published <= auth || published <= remote)
  }

  /** The session is active, and everything collects. */
  predicate Collects(o: Outcome) {
    && o.state == ControlActive && o.providerEnabled && o.collectionStarted && o.consumerStarted && o.workerActive
    && !o.workerJoined && (o.TraceOutcome? ==> o.traceSessionCreated)
  }

  /** The session is paused, and nothing is collected. */
  predicate Rests(o: Outcome) {
    && o.state == ControlPaused && !o.providerEnabled && !o.collectionStarted && !o.consumerStarted
    && !o.workerActive && o.workerJoined && (o.TraceOutcome? ==> !o.traceSessionCreated)
  }

  lemma CountersValidExactlyWhen(o: Outcome, published: u32)
    ensures CountersValid(EventsOf(o), published) <==> CountsCover(o, published)
  {}

  lemma CollectsExactlyWhen(o: Outcome)
    ensures o.state == ControlActive && EverythingCollected(CollectionOf(o)) <==> Collects(o)
  {}

  /**
   * A stop whose thread acknowledged it and was joined leaves the runtime Stopped, and returns Ok if and only if the
   * owner's name and the caller's refs are safe and the last outcome's counters cover the batches published so far.
   */
  lemma ReachedStopReportsOkExactlyWhen(
    kind: Kind, owner: Owner, fallback: Fallback, history: seq<Step>, refs: seq<string>, now: Fallback, o: Outcome,
    env: Env)
    requires Reached(kind, owner, fallback, history).handle.Some?
    requires env.answer == Answered(Ok(o)) && env.joined
    ensures var r := Reached(kind, owner, fallback, history);
            var (after, ending) := DoStop(r, refs, now, env);
            && after.status.lifecycle == Stopped && after.handle.None?
            && (Report(after, ending).Ok?
                <==> OwnerNamed(owner) && SafeRefs(BoundedRefs(refs)) && CountsCover(o, r.status.handoff.batches))
  {
    var r := Reached(kind, owner, fallback, history);
    ReachedKnown(kind, owner, fallback, history);
    JoinedStopReportsOkExactlyWhen(r, refs, now, o, env);
    StopKeepsKnown(r, refs, now, env);
    var after := DoStop(r, refs, now, env).0;
    assert after.status == Joined(r, refs, now, o);
    TextsValidExactlyWhen(r.profile, r.owner, after.status);
    LabelIsSafe(r.profile.stopReason);
    BoundedRefsIdempotent(refs);
    assert after.status.authorizationRefs == BoundedRefs(refs);
    CountersValidExactlyWhen(o, r.status.handoff.batches);
  }

  /**
   * An activation whose adapter started leaves the runtime Active and connected, and returns Ok if and only if the
   * owner's name, the caller's refs and the outcome's reason are safe, the outcome's counters cover the batches
   * published so far, and the outcome reports an active session that collects everything.
   */
  lemma ReachedActivationReportsOkExactlyWhen(
    kind: Kind, owner: Owner, fallback: Fallback, history: seq<Step>, refs: seq<string>, now: Fallback, o: Outcome,
    env: Env)
    requires var r := Reached(kind, owner, fallback, history);
             r.handle.Some? ==> r.status.lifecycle !in {Active, Degraded}
    requires env.started == Some(Ok(o))
    ensures var r := Reached(kind, owner, fallback, history);
            var (after, ending) := DoActivate(r, refs, now, env);
            && after.status.lifecycle == Active && Connected(after)
            && (Report(after, ending).Ok?
                <==> OwnerNamed(owner) && SafeRefs(BoundedRefs(refs)) && ReasonSafe(o.degradedReason)
                     && CountsCover(o, r.status.handoff.batches) && Collects(o))
  {
    var r := Reached(kind, owner, fallback, history);
    ReachedKnown(kind, owner, fallback, history);
    ActivationReportsOkExactlyWhen(r, refs, now, o, env);
    ActivateKeepsKnown(r, refs, now, env);
    TextsValidExactlyWhen(r.profile, r.owner, DoActivate(r, refs, now, env).0.status);
    CountersValidExactlyWhen(o, r.status.handoff.batches);
    CollectsExactlyWhen(o);
  }

  // ---------- The other calls ----------

  lemma PerformKeepsActive(r: Runtime, call: Call, env: Env)
    requires Consistent(r) && (r.sender.Some? ==> r.status.threadActive)
    ensures var after := Perform(r, call, env).0; after.sender.Some? ==> after.status.threadActive
  {
    CallFits(ActiveField, r, call, env);
    LetInExactlyWhen(r, call);
    if LetIn(r, call) { EndingTells(r, call, env); }
  }

  /** A connected runtime says that its thread is active. */
  lemma {:induction false} ConnectedIsActive(kind: Kind, owner: Owner, fallback: Fallback, history: seq<Step>)
    ensures var r := Reached(kind, owner, fallback, history); r.sender.Some? ==> r.status.threadActive
  {
    if history != [] {
      var n := |history| - 1;
      ConnectedIsActive(kind, owner, fallback, history[..n]);
      ReachedKnown(kind, owner, fallback, history[..n]);
      PerformKeepsActive(Reached(kind, owner, fallback, history[..n]), history[n].call, history[n].env);
    }
  }

  lemma PausedStatus(r: Runtime, refs: seq<string>, now: Fallback, o: Outcome, env: Env)
    requires r.status.lifecycle != Paused && r.sender.Some? && env.answer == Answered(Ok(o))
    requires Consistent(r) && r.status.threadActive
    ensures var (after, ending) := DoPause(r, refs, now, env);
            && after.status.lifecycle == Paused && ending.Checked?
            && after.status.notes.degradedReason == o.degradedReason
            && after.status.authorizationRefs == BoundedRefs(refs)
            && after.status.events == EventsOf(o) && after.status.handoff == r.status.handoff
            && (StateValid(after.status) <==> Rests(o))
  {
    AppliedShows(BeginCommand(r.profile, r.status, Pausing, refs, now), o, Paused, false);
  }

  /** A pause that its adapter carried out is reported Ok if and only if the outcome says that collection rests. */
  lemma ReachedPauseReportsOkExactlyWhen(
    kind: Kind, owner: Owner, fallback: Fallback, history: seq<Step>, refs: seq<string>, now: Fallback, o: Outcome,
    env: Env)
    requires var r := Reached(kind, owner, fallback, history); r.sender.Some? && r.status.lifecycle != Paused
    requires env.answer == Answered(Ok(o))
    ensures var r := Reached(kind, owner, fallback, history);
            var (after, ending) := DoPause(r, refs, now, env);
            && after.status.lifecycle == Paused
            && (Report(after, ending).Ok?
                <==> OwnerNamed(owner) && SafeRefs(BoundedRefs(refs)) && ReasonSafe(o.degradedReason)
                     && CountsCover(o, r.status.handoff.batches) && Rests(o))
  {
    var r := Reached(kind, owner, fallback, history);
    ReachedKnown(kind, owner, fallback, history);
    ConnectedIsActive(kind, owner, fallback, history);
    PausedStatus(r, refs, now, o, env);
    PauseKeepsKnown(r, refs, now, env);
    TextsValidExactlyWhen(r.profile, r.owner, DoPause(r, refs, now, env).0.status);
    CountersValidExactlyWhen(o, r.status.handoff.batches);
  }

  lemma ResumedStatus(r: Runtime, refs: seq<string>, now: Fallback, o: Outcome, env: Env)
    requires r.status.lifecycle != Active && r.sender.Some? && env.answer == Answered(Ok(o))
    requires Consistent(r) && r.status.threadActive
    ensures var (after, ending) := DoResume(r, refs, now, env);
            && after.status.lifecycle == Active && ending.Checked?
            && after.status.notes.degradedReason == o.degradedReason
            && after.status.authorizationRefs == BoundedRefs(refs)
            && after.status.events == EventsOf(o) && after.status.handoff == r.status.handoff
            && (StateValid(after.status) <==> Collects(o))
  {
    AppliedShows(BeginCommand(r.profile, r.status, Resuming, refs, now), o, Active, true);
  }

  /** A resume that its adapter carried out is reported Ok if and only if the outcome says that everything collects. */
  lemma ReachedResumeReportsOkExactlyWhen(
    kind: Kind, owner: Owner, fallback: Fallback, history: seq<Step>, refs: seq<string>, now: Fallback, o: Outcome,
    env: Env)
    requires var r := Reached(kind, owner, fallback, history); r.sender.Some? && r.status.lifecycle != Active
    requires env.answer == Answered(Ok(o))
    ensures var r := Reached(kind, owner, fallback, history);
            var (after, ending) := DoResume(r, refs, now, env);
            && after.status.lifecycle == Active
            && (Report(after, ending).Ok?
                <==> OwnerNamed(owner) && SafeRefs(BoundedRefs(refs)) && ReasonSafe(o.degradedReason)
                     && CountsCover(o, r.status.handoff.batches) && Collects(o))
  {
    var r := Reached(kind, owner, fallback, history);
    ReachedKnown(kind, owner, fallback, history);
    ConnectedIsActive(kind, owner, fallback, history);
    ResumedStatus(r, refs, now, o, env);
    ResumeKeepsKnown(r, refs, now, env);
    TextsValidExactlyWhen(r.profile, r.owner, DoResume(r, refs, now, env).0.status);
    CountersValidExactlyWhen(o, r.status.handoff.batches);
  }

  lemma DrainedStatus(r: Runtime, o: Outcome, env: Env)
    requires r.status.lifecycle == Active && r.sender.Some? && env.answer == Answered(Ok(o))
    requires Consistent(r) && r.status.threadActive
    ensures var (after, ending) := DoDrain(r, env);
            && ending == Checked(BatchesReturned(o.batches))
            && after.status.notes == r.status.notes.(degradedReason := o.degradedReason)
            && after.status.authorizationRefs == r.status.authorizationRefs
            && after.status.events == EventsOf(o) && after.status.handoff == r.status.handoff
            && (StateValid(after.status) <==> Collects(o))
  {
    AppliedShows(r.status, o, Active, false);
  }

  /**
   * A drain of an Active runtime returns the batches of its outcome if and only if the outcome passes the contract
   * check; otherwise the batches are gone from the adapter and the caller gets an error in their place.
   */
  lemma ReachedDrainReturnsBatchesExactlyWhen(
    kind: Kind, owner: Owner, fallback: Fallback, history: seq<Step>, o: Outcome, env: Env)
    requires var r := Reached(kind, owner, fallback, history); r.sender.Some? && r.status.lifecycle == Active
    requires env.answer == Answered(Ok(o))
    ensures var r := Reached(kind, owner, fallback, history);
            var (after, ending) := DoDrain(r, env);
            Report(after, ending)
            == if OwnerNamed(owner) && SafeRefs(r.status.authorizationRefs) && ReasonSafe(o.degradedReason)
                  && CountsCover(o, r.status.handoff.batches) && Collects(o)
               then Ok(BatchesReturned(o.batches)) else Err(ContractViolated)
  {
    var r := Reached(kind, owner, fallback, history);
    ReachedKnown(kind, owner, fallback, history);
    ConnectedIsActive(kind, owner, fallback, history);
    DrainedStatus(r, o, env);
    TextsValidExactlyWhen(r.profile, r.owner, DoDrain(r, env).0.status);
    CountersValidExactlyWhen(o, r.status.handoff.batches);
  }

  // ---------- A run that fails in this way ----------

  predicate Accepted(owner: Owner) { owner.category.ServiceHost? && owner.serviceOwned }

  /** Activate, hand on one published batch. */
  function Published(owner: Owner, fallback: Fallback, started: Outcome): seq<Step> {
    [Step(Activate(owner, [], fallback), Env(0, Some(Ok(started)), ResponseLost, false)),
     Step(RecordHandoff(owner, 1, 1, 1), Env(0, None, ResponseLost, false))]
  }

  lemma ReplayTwo(r: Runtime, a: Step, b: Step)
    ensures Replay(r, [a, b]) == Perform(Perform(r, a.call, a.env).0, b.call, b.env).0
  {
    assert [a, b][..1] == [a] && [a][..0] == [];
    assert Replay(r, [a]) == Perform(Replay(r, []), a.call, a.env).0;
  }

  lemma PublishedState(kind: Kind, owner: Owner, fallback: Fallback, started: Outcome)
    requires Accepted(owner)
    ensures var r := Reached(kind, owner, fallback, Published(owner, fallback, started));
            r.handle.Some? && r.status.handoff.batches == 1 && r.status.events == EventsOf(started)
  {
    var steps := Published(owner, fallback, started);
    ReplayTwo(New(ProfileOf(kind), owner, fallback), steps[0], steps[1]);
  }

  /**
   * For every runtime and any outcomes: after one published batch, a stop whose outcome counts no normalized event is
   * acknowledged and joined, leaves the runtime Stopped, and is reported as a contract violation.
   */
  lemma StopAfterPublishingFails(kind: Kind, owner: Owner, fallback: Fallback, started: Outcome, stopped: Outcome)
    requires Accepted(owner) && EventsOf(stopped).normalized == 0
    ensures var r := Reached(kind, owner, fallback, Published(owner, fallback, started));
            var (after, ending) :=
              Perform(r, StopCall(owner, [], fallback), Env(0, None, Answered(Ok(stopped)), true));
            after.status.lifecycle == Stopped && Report(after, ending) == Err(ContractViolated)
  {
    var history := Published(owner, fallback, started);
    var env := Env(0, None, Answered(Ok(stopped)), true);
    PublishedState(kind, owner, fallback, started);
    ReachedKnown(kind, owner, fallback, history);
    ReachedStopReportsOkExactlyWhen(kind, owner, fallback, history, [], fallback, stopped, env);
  }
}
