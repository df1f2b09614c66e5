/** What holds of the native permission plane over every run of calls. */
module NativeTheorems {
  import opened Wrappers
  import opened NativePermissions

  function Run(p: Plane, calls: seq<Call>): Plane {
    if calls == [] then p
    else
      var n := |calls| - 1;
      Step(Run(p, calls[..n]), calls[n]).0
  }

  lemma RunNext(p: Plane, calls: seq<Call>, call: Call)
    ensures Run(p, calls + [call]) == Step(Run(p, calls), call).0
  {
    assert (calls + [call])[..|calls|] == calls;
  }

  // ---------- What every call keeps ----------

  /** Enabled, granted and session-bound are one fact; granted excludes revoked and the response placeholder. */
  predicate Coherent(s: State, access: Access) {
    && (s.enabled <==> s.permission.GrantedSession?)
    && (s.enabled <==> s.mode.ExplicitSessionBound?)
    && (s.enabled <==> s.lifecycle.Granted?)
    && (s.enabled ==> !s.revoked && access.ReadOnlyVisibility? && s.availability.SamplerInactive? && s.health.Unknown?)
    && (s.revoked ==> s.permission.PermissionRevoked? || s.permission.PermissionDisabled?)
    && (s.revoked ==> s.lifecycle.Revoked? || s.lifecycle.Disabled?)
    && (s.permission.PermissionRevoked? || s.lifecycle.Revoked? ==> s.revoked)
    && !s.health.Healthy?
  }

  predicate AllCoherent(p: Plane) {
    forall k :: 0 <= k < |p.capabilities| ==> Coherent(p.capabilities[k].state, p.capabilities[k].access)
  }

  lemma TransitionKeepsCoherent(s: State, access: Access, action: Action)
    requires Coherent(s, access)
    ensures Coherent(Transition(s, access, action), access)
  {
  }

  /** What a call does to the capability at a position. */
  lemma StepAtPosition(p: Plane, call: Call, k: nat)
    requires k < |p.capabilities|
    ensures var q := Step(p, call).0;
            && |q.capabilities| == |p.capabilities|
            && q.capabilities[k].id == p.capabilities[k].id
            && q.capabilities[k].access == p.capabilities[k].access
            && q.capabilities[k].state
               == if Target(p, call) == Some(k)
                  then Transition(p.capabilities[k].state, p.capabilities[k].access, call.request.action)
                  else p.capabilities[k].state
  {
  }

  lemma StepKeepsCoherent(p: Plane, call: Call)
    requires AllCoherent(p)
    ensures AllCoherent(Step(p, call).0)
  {
    var q := Step(p, call).0;
    assert |q.capabilities| == |p.capabilities|;
    forall k: nat | k < |q.capabilities| ensures Coherent(q.capabilities[k].state, q.capabilities[k].access) {
      StepAtPosition(p, call, k);
      TransitionKeepsCoherent(p.capabilities[k].state, p.capabilities[k].access, call.request.action);
    }
  }

  /** Nothing about the capability can make it fail validation, apart from a granted placeholder. */
  predicate Tame(c: Capability) {
    c.sound && c.state.reason != Some(OtherReason(false)) && |c.auditRefs| <= MAX_NATIVE_AUDIT_REFS
  }

  predicate AllTame(p: Plane) { forall k :: 0 <= k < |p.capabilities| ==> Tame(p.capabilities[k]) }

  lemma TransitionKeepsReason(s: State, access: Access, action: Action)
    requires s.reason != Some(OtherReason(false))
    ensures Transition(s, access, action).reason != Some(OtherReason(false))
  {
  }

  lemma StepKeepsTame(p: Plane, call: Call)
    requires AllTame(p)
    ensures AllTame(Step(p, call).0)
  {
    if Target(p, call).Some? {
      var k := Target(p, call).value;
      TransitionKeepsReason(p.capabilities[k].state, p.capabilities[k].access, call.request.action);
    }
  }

  /** What the default catalog has, and every run keeps. */
  predicate Sane(p: Plane) { AllCoherent(p) && AllTame(p) }

  lemma {:induction false} RunKeepsSane(p: Plane, calls: seq<Call>)
    requires Sane(p)
    ensures Sane(Run(p, calls))
  {
    if calls != [] {
      var n := |calls| - 1;
      RunKeepsSane(p, calls[..n]);
      StepKeepsCoherent(Run(p, calls[..n]), calls[n]);
      StepKeepsTame(Run(p, calls[..n]), calls[n]);
    }
  }

  function StartPlane(): Plane { Plane(DefaultCatalog(), [], []) }

  /** The default catalog is sane, and nothing in it is enabled, revoked or audited yet. */
  lemma CatalogIsSane()
    ensures Sane(StartPlane())
    ensures forall c :: c in DefaultCatalog() ==> !c.state.enabled && !c.state.revoked && c.auditRefs == []
  {
  }

  /** From the default catalog, whatever is called and however it ends, every capability stays coherent and valid. */
  lemma CatalogRunsAreSane(calls: seq<Call>)
    ensures Sane(Run(StartPlane(), calls))
    ensures forall k :: 0 <= k < |Run(StartPlane(), calls).capabilities|
                        ==> ValidCapability(Run(StartPlane(), calls).capabilities[k])
  {
    CatalogIsSane();
    RunKeepsSane(StartPlane(), calls);
  }

  /** A successful call reports exactly five events, the last one of degraded visibility, all citing its audit entry. */
  lemma EverySuccessReportsDegradedVisibility(p: Plane, call: Call)
    requires Sane(p) && Step(p, call).1.Applied?
    ensures var events := Step(p, call).1.events;
            && |events| == 5
            && (forall i :: 0 <= i < 4 ==> events[i].topic == STATUS_TOPICS[i])
            && events[4].topic == VisibilityDegraded
            && forall i :: 0 <= i < 5 ==> events[i].auditRef == call.auditId
  {
    var k := Target(p, call).value;
    TransitionKeepsCoherent(p.capabilities[k].state, p.capabilities[k].access, call.request.action);
  }

  /** A sane plane refuses a call only for its request, for an unknown id or because an event is refused. */
  lemma AppliedExactlyWhen(p: Plane, call: Call)
    requires Sane(p)
    ensures var outcome := Step(p, call).1;
            && (outcome.BadRequest? <==> !ValidRequest(call.request))
            && !outcome.UnsafeCapability?
            && (outcome.Applied? <==> Target(p, call).Some? && call.accepted >= 5)
  {
    if Target(p, call).Some? {
      var k := Target(p, call).value;
      TransitionKeepsCoherent(p.capabilities[k].state, p.capabilities[k].access, call.request.action);
      TransitionKeepsReason(p.capabilities[k].state, p.capabilities[k].access, call.request.action);
    }
  }

  // ---------- Which calls decide a capability's state ----------

  lemma {:induction false} PositionById(a: seq<Capability>, b: seq<Capability>, id: string)
    requires |a| == |b| && forall i :: 0 <= i < |a| ==> a[i].id == b[i].id
    ensures Position(a, id) == Position(b, id)
  {
    if a != [] { PositionById(a[1..], b[1..], id); }
  }

  lemma {:induction false} RunKeepsIdentity(p: Plane, calls: seq<Call>)
    ensures |Run(p, calls).capabilities| == |p.capabilities|
    ensures forall k :: 0 <= k < |p.capabilities| ==>
              && Run(p, calls).capabilities[k].id == p.capabilities[k].id
              && Run(p, calls).capabilities[k].access == p.capabilities[k].access
  {
    if calls != [] {
      var n := |calls| - 1;
      RunKeepsIdentity(p, calls[..n]);
      forall k: nat | k < |p.capabilities|
        ensures Run(p, calls).capabilities[k].id == p.capabilities[k].id
        ensures Run(p, calls).capabilities[k].access == p.capabilities[k].access
      {
        StepAtPosition(Run(p, calls[..n]), calls[n], k);
      }
    }
  }

  lemma TargetIsFixed(p: Plane, calls: seq<Call>, call: Call)
    ensures Target(Run(p, calls), call) == Target(p, call)
  {
    RunKeepsIdentity(p, calls);
    PositionById(Run(p, calls).capabilities, p.capabilities, call.request.capabilityId);
  }

  /** The last call that reaches a capability with one of the actions. */
  function LastAction(p: Plane, calls: seq<Call>, k: nat, actions: set<Action>): Option<Action> {
    if calls == [] then None
    else
      var n := |calls| - 1;
      if Target(p, calls[n]) == Some(k) && calls[n].request.action in actions then Some(calls[n].request.action)
      else LastAction(p, calls[..n], k, actions)
  }

  const ENABLING := {RequestAuthorization, GrantAuthorization, RevokeAuthorization, DisableCapability}

  const REVOKING := {RequestAuthorization, GrantAuthorization, RevokeAuthorization}

  /** A capability after a run. */
  function CapabilityAt(p: Plane, calls: seq<Call>, k: nat): Capability
    requires k < |p.capabilities|
  {
    RunKeepsIdentity(p, calls);
    Run(p, calls).capabilities[k]
  }

  function StateAt(p: Plane, calls: seq<Call>, k: nat): State
    requires k < |p.capabilities|
  {
    CapabilityAt(p, calls, k).state
  }

  lemma StateNext(p: Plane, calls: seq<Call>, k: nat)
    requires calls != [] && k < |p.capabilities|
    ensures var n := |calls| - 1;
            StateAt(p, calls, k)
            == if Target(p, calls[n]) == Some(k)
               then Transition(StateAt(p, calls[..n], k), p.capabilities[k].access, calls[n].request.action)
               else StateAt(p, calls[..n], k)
  {
    var n := |calls| - 1;
    TargetIsFixed(p, calls[..n], calls[n]);
    RunKeepsIdentity(p, calls[..n]);
    StepAtPosition(Run(p, calls[..n]), calls[n], k);
  }

  lemma TransitionEnables(s: State, access: Access, action: Action)
    requires Coherent(s, access)
    ensures Transition(s, access, action).enabled
            <==> if action in ENABLING then action.GrantAuthorization? && access.ReadOnlyVisibility? else s.enabled
  {
  }

  lemma TransitionRevokes(s: State, access: Access, action: Action)
    ensures Transition(s, access, action).revoked
            <==> if action in REVOKING then action.RevokeAuthorization? else s.revoked
  {
  }

  lemma {:induction false} StatesAreCoherent(p: Plane, calls: seq<Call>, k: nat)
    requires k < |p.capabilities| && Coherent(p.capabilities[k].state, p.capabilities[k].access)
    ensures Coherent(StateAt(p, calls, k), p.capabilities[k].access)
  {
    if calls != [] {
      var n := |calls| - 1;
      StatesAreCoherent(p, calls[..n], k);
      StateNext(p, calls, k);
      TransitionKeepsCoherent(StateAt(p, calls[..n], k), p.capabilities[k].access, calls[n].request.action);
    }
  }

  /**
   * A capability is enabled exactly when its last request, grant, revocation or disabling was a grant, and it is not
   * the response placeholder. Calls that are refused for an unsafe capability or a failed publish count too.
   */
  lemma {:induction false} EnabledExactlyWhen(p: Plane, calls: seq<Call>, k: nat)
    requires k < |p.capabilities| && Coherent(p.capabilities[k].state, p.capabilities[k].access)
    requires !p.capabilities[k].state.enabled
    ensures StateAt(p, calls, k).enabled
            <==> && p.capabilities[k].access.ReadOnlyVisibility?
                 && LastAction(p, calls, k, ENABLING) == Some(GrantAuthorization)
  {
    if calls != [] {
      var n := |calls| - 1;
      EnabledExactlyWhen(p, calls[..n], k);
      StateNext(p, calls, k);
      StatesAreCoherent(p, calls[..n], k);
      TransitionEnables(StateAt(p, calls[..n], k), p.capabilities[k].access, calls[n].request.action);
    }
  }

  /** A capability is revoked exactly when its last request, grant or revocation was a revocation. */
  lemma {:induction false} RevokedExactlyWhen(p: Plane, calls: seq<Call>, k: nat)
    requires k < |p.capabilities| && !p.capabilities[k].state.revoked
    ensures StateAt(p, calls, k).revoked <==> LastAction(p, calls, k, REVOKING) == Some(RevokeAuthorization)
  {
    if calls != [] {
      var n := |calls| - 1;
      RevokedExactlyWhen(p, calls[..n], k);
      StateNext(p, calls, k);
      TransitionRevokes(StateAt(p, calls[..n], k), p.capabilities[k].access, calls[n].request.action);
    }
  }

  /** Every enabled capability goes back to a call in which the user explicitly granted it. */
  lemma {:induction false} EnabledMeansUserGranted(p: Plane, calls: seq<Call>, k: nat)
    requires LastAction(p, calls, k, ENABLING) == Some(GrantAuthorization)
    ensures exists i ::
              && 0 <= i < |calls| && calls[i].request.action == GrantAuthorization
              && calls[i].request.explicitUserAction && Target(p, calls[i]) == Some(k)
              && forall j :: i < j < |calls| && Target(p, calls[j]) == Some(k) ==> calls[j].request.action !in ENABLING
  {
    var n := |calls| - 1;
    if Target(p, calls[n]) == Some(k) && calls[n].request.action in ENABLING {
      assert calls[n].request.explicitUserAction;
    } else {
      EnabledMeansUserGranted(p, calls[..n], k);
      var i :| && 0 <= i < n && calls[..n][i].request.action == GrantAuthorization
               && calls[..n][i].request.explicitUserAction && Target(p, calls[..n][i]) == Some(k)
               && forall j :: i < j < n && Target(p, calls[..n][j]) == Some(k)
                              ==> calls[..n][j].request.action !in ENABLING;
      assert calls[i] == calls[..n][i];
      forall j | i < j < |calls| && Target(p, calls[j]) == Some(k) ensures calls[j].request.action !in ENABLING {
        if j < n { assert calls[j] == calls[..n][j]; }
      }
    }
  }

  // ---------- The bounded logs ----------

  /** The last 64 of a list, in order. */
  function Newest<T>(xs: seq<T>): seq<T> { if |xs| <= 64 then xs else xs[|xs| - 64..] }

  /** The first 64 of a list, in order. */
  function Oldest<T>(xs: seq<T>): seq<T> { if |xs| <= 64 then xs else xs[..64] }

  /** The entry that a call writes to the audit log: one if it reaches a capability that is then valid. */
  function Written(p: Plane, call: Call): seq<AuditEntry> {
    if Target(p, call).None? then []
    else
      var moved := Moved(p.capabilities[Target(p, call).value], call.request.action);
      if ValidCapability(moved) then [EntryFor(moved, call)] else []
  }

  /** The events that a call writes: all five if it succeeds, those before the refused one if it does not. */
  function Emitted(p: Plane, call: Call): seq<StatusEvent> {
    if Written(p, call) == [] then []
    else
      var moved := Moved(p.capabilities[Target(p, call).value], call.request.action);
      First(EventsFor(Audited(moved, call.auditId), EntryFor(moved, call)), call.accepted)
  }

  function AuditHistory(p: Plane, calls: seq<Call>): seq<AuditEntry> {
    if calls == [] then []
    else
      var n := |calls| - 1;
      AuditHistory(p, calls[..n]) + Written(Run(p, calls[..n]), calls[n])
  }

  function EventHistory(p: Plane, calls: seq<Call>): seq<StatusEvent> {
    if calls == [] then []
    else
      var n := |calls| - 1;
      EventHistory(p, calls[..n]) + Emitted(Run(p, calls[..n]), calls[n])
  }

  lemma LastOfLast<T>(a: seq<T>, b: seq<T>, n: nat)
    ensures Last(Last(a, n) + b, n) == Last(a + b, n)
  {
  }

  lemma StepWritesAudit(p: Plane, call: Call)
    requires |p.audits| <= MAX_NATIVE_AUDIT_REFS
    ensures Step(p, call).0.audits == Last(p.audits + Written(p, call), MAX_NATIVE_AUDIT_REFS)
  {
    assert p.audits + [] == p.audits;
  }

  /** After any run, failed calls included, the audit log is exactly the last 64 entries ever written. */
  lemma {:induction false} AuditLogIsLast64(p: Plane, calls: seq<Call>)
    requires |p.audits| <= MAX_NATIVE_AUDIT_REFS
    ensures Run(p, calls).audits == Newest(p.audits + AuditHistory(p, calls))
  {
    if calls == [] {
      assert p.audits + [] == p.audits;
    } else {
      var n := |calls| - 1;
      AuditLogIsLast64(p, calls[..n]);
      AuditLogNext(p, calls, n);
    }
  }

  lemma NewestNext<T>(before: seq<T>, more: seq<T>)
    ensures Last(Newest(before) + more, 64) == Newest(before + more)
  {
    LastOfLast(before, more, 64);
  }

  lemma AuditLogStep(p: Plane, calls: seq<Call>, n: nat)
    requires |calls| == n + 1 && |Run(p, calls[..n]).audits| <= 64
    ensures var written := Written(Run(p, calls[..n]), calls[n]);
            && Run(p, calls).audits == Last(Run(p, calls[..n]).audits + written, 64)
            && AuditHistory(p, calls) == AuditHistory(p, calls[..n]) + written
  {
    StepWritesAudit(Run(p, calls[..n]), calls[n]);
  }

  lemma AuditLogNext(p: Plane, calls: seq<Call>, n: nat)
    requires |calls| == n + 1 && Run(p, calls[..n]).audits == Newest(p.audits + AuditHistory(p, calls[..n]))
    ensures Run(p, calls).audits == Newest(p.audits + AuditHistory(p, calls))
  {
    var history := AuditHistory(p, calls[..n]);
    var written := Written(Run(p, calls[..n]), calls[n]);
    AuditLogStep(p, calls, n);
    NewestNext(p.audits + history, written);
    assert p.audits + (history + written) == p.audits + history + written;
  }

  function Kept<T>(log: seq<T>, trimmed: bool): seq<T> { if trimmed then Last(log, MAX_NATIVE_AUDIT_REFS) else log }

  lemma StepWritesEvents(p: Plane, call: Call)
    ensures Step(p, call).0.events == Kept(p.events + Emitted(p, call), Step(p, call).1.Applied?)
  {
    assert p.events + [] == p.events;
  }

  predicate IsWindow<T(==)>(log: seq<T>, all: seq<T>) {
    && log == Last(all, |log|)
    && (|log| < MAX_NATIVE_AUDIT_REFS ==> log == all)
  }

  lemma WindowGrows<T>(log: seq<T>, all: seq<T>, more: seq<T>, trimmed: bool)
    requires IsWindow(log, all)
    ensures IsWindow(Kept(log + more, trimmed), all + more)
  {
    var k := |all| - |log|;
    assert k >= 0 && log == all[k..];
    assert log + more == (all + more)[k..];
  }

  lemma HistoryNext(p: Plane, calls: seq<Call>, call: Call)
    ensures EventHistory(p, calls + [call]) == EventHistory(p, calls) + Emitted(Run(p, calls), call)
  {
    assert (calls + [call])[..|calls|] == calls;
  }

  lemma WindowNext(p: Plane, calls: seq<Call>, call: Call)
    requires IsWindow(Run(p, calls).events, p.events + EventHistory(p, calls))
    ensures IsWindow(Run(p, calls + [call]).events, p.events + EventHistory(p, calls + [call]))
  {
    var q := Run(p, calls);
    RunNext(p, calls, call);
    HistoryNext(p, calls, call);
    StepWritesEvents(q, call);
    WindowJoins(q.events, p.events, EventHistory(p, calls), Emitted(q, call), Step(q, call).1.Applied?);
  }

  lemma WindowJoins<T>(log: seq<T>, start: seq<T>, before: seq<T>, more: seq<T>, trimmed: bool)
    requires IsWindow(log, start + before)
    ensures IsWindow(Kept(log + more, trimmed), start + (before + more))
  {
    WindowGrows(log, start + before, more, trimmed);
    assert start + before + more == start + (before + more);
  }

  /** After any run the event log is the end of everything ever emitted, and never less than the last 64 of it. */
  lemma {:induction false} EventLogIsWindow(p: Plane, calls: seq<Call>)
    ensures IsWindow(Run(p, calls).events, p.events + EventHistory(p, calls))
  {
    if calls == [] {
      assert p.events + [] == p.events;
    } else {
      var n := |calls| - 1;
      EventLogIsWindow(p, calls[..n]);
      WindowNext(p, calls[..n], calls[n]);
      assert calls[..n] + [calls[n]] == calls;
    }
  }

  lemma WindowIsLast<T>(log: seq<T>, all: seq<T>)
    requires IsWindow(log, all)
    ensures log == Last(all, MAX_NATIVE_AUDIT_REFS) <==> |log| <= MAX_NATIVE_AUDIT_REFS
  {
  }

  lemma EmittedLength(p: Plane, call: Call)
    requires Sane(p)
    ensures |Emitted(p, call)| == if Target(p, call).None? then 0 else if call.accepted < 5 then call.accepted else 5
    ensures Step(p, call).1.Applied? <==> Target(p, call).Some? && call.accepted >= 5
  {
    AppliedExactlyWhen(p, call);
    if Target(p, call).Some? {
      var k := Target(p, call).value;
      TransitionKeepsCoherent(p.capabilities[k].state, p.capabilities[k].access, call.request.action);
      TransitionKeepsReason(p.capabilities[k].state, p.capabilities[k].access, call.request.action);
    }
  }

  /** A call leaves more than the last 64 events exactly when it is refused an event that the log has no room for. */
  lemma StepTrimsExactlyWhen(p: Plane, call: Call)
    requires Sane(p) && |p.events| <= MAX_NATIVE_AUDIT_REFS
    ensures Step(p, call).0.events == Newest(p.events + Emitted(p, call))
            <==> || Target(p, call).None? || call.accepted >= 5
                 || |p.events| + call.accepted <= 64
  {
    EmittedLength(p, call);
    StepWritesEvents(p, call);
  }

  predicate Trims(p: Plane, call: Call) { Target(p, call).Some? && call.accepted >= 5 }

  /** The events accepted since the last call that had all its events accepted. */
  function AcceptedSince(p: Plane, calls: seq<Call>): nat {
    if calls == [] then 0
    else
      var n := |calls| - 1;
      if Trims(p, calls[n]) then 0
      else AcceptedSince(p, calls[..n]) + if Target(p, calls[n]).Some? then calls[n].accepted else 0
  }

  /** The length at which that call left the log. */
  function LeftByLast(p: Plane, calls: seq<Call>): nat {
    if calls == [] then |p.events|
    else
      var n := |calls| - 1;
      if !Trims(p, calls[n]) then LeftByLast(p, calls[..n])
      else
        var grown := LeftByLast(p, calls[..n]) + AcceptedSince(p, calls[..n]) + 5;
        if grown <= MAX_NATIVE_AUDIT_REFS then grown else MAX_NATIVE_AUDIT_REFS
  }

  lemma StepLength(p: Plane, call: Call)
    requires Sane(p)
    ensures |Step(p, call).0.events|
            == if Target(p, call).None? then |p.events|
               else if call.accepted < 5 then |p.events| + call.accepted
               else if |p.events| + 5 <= MAX_NATIVE_AUDIT_REFS then |p.events| + 5
               else MAX_NATIVE_AUDIT_REFS
  {
    EmittedLength(p, call);
    StepWritesEvents(p, call);
  }

  lemma {:induction false} RunLength(p: Plane, calls: seq<Call>)
    requires Sane(p)
    ensures |Run(p, calls).events| == LeftByLast(p, calls) + AcceptedSince(p, calls)
  {
    if calls != [] {
      var n := |calls| - 1;
      RunLength(p, calls[..n]);
      RunKeepsSane(p, calls[..n]);
      TargetIsFixed(p, calls[..n], calls[n]);
      StepLength(Run(p, calls[..n]), calls[n]);
    }
  }

  /** On any plane at all: the event log is the last 64 events exactly when it is no longer than that. */
  lemma LogWithinCapIsLast64(p: Plane, calls: seq<Call>)
    ensures Run(p, calls).events == Last(p.events + EventHistory(p, calls), MAX_NATIVE_AUDIT_REFS)
            <==> |Run(p, calls).events| <= MAX_NATIVE_AUDIT_REFS
    ensures calls != [] && Step(Run(p, calls[..|calls| - 1]), calls[|calls| - 1]).1.Applied?
            ==> |Run(p, calls).events| <= MAX_NATIVE_AUDIT_REFS
  {
    EventLogIsWindow(p, calls);
    WindowIsLast(Run(p, calls).events, p.events + EventHistory(p, calls));
    if calls != [] { StepWritesEvents(Run(p, calls[..|calls| - 1]), calls[|calls| - 1]); }
  }

  /**
   * The event log is exactly the last 64 events exactly when what the last fully accepted call left in it and the
   * events accepted since are together at most 64.
   */
  lemma EventLogIsLast64ExactlyWhen(p: Plane, calls: seq<Call>)
    requires Sane(p)
    ensures Run(p, calls).events == Newest(p.events + EventHistory(p, calls))
            <==> LeftByLast(p, calls) + AcceptedSince(p, calls) <= 64
  {
    LogWithinCapIsLast64(p, calls);
    RunLength(p, calls);
  }

  function Repeat(call: Call, n: nat): (calls: seq<Call>)
    ensures |calls| == n
  {
    if n == 0 then [] else Repeat(call, n - 1) + [call]
  }

  /** Publishing that keeps failing after some events makes the event log grow without bound: nothing trims it. */
  lemma {:induction false} FailedPublishesGrow(p: Plane, call: Call, n: nat)
    requires Sane(p) && Target(p, call).Some? && call.accepted <= 4
    ensures |Run(p, Repeat(call, n)).events| == |p.events| + n * call.accepted
  {
    if n > 0 {
      FailedPublishesGrow(p, call, n - 1);
      RefusedPublishAgain(p, call, n);
      OneMoreTime(n, call.accepted);
    }
  }

  lemma RefusedPublishAgain(p: Plane, call: Call, n: nat)
    requires Sane(p) && Target(p, call).Some? && call.accepted <= 4 && n > 0
    ensures |Run(p, Repeat(call, n)).events| == |Run(p, Repeat(call, n - 1)).events| + call.accepted
  {
    RefusedPublishGrows(p, Repeat(call, n - 1), call);
  }

  lemma OneMoreTime(n: nat, k: nat)
    requires n > 0
    ensures n * k == (n - 1) * k + k
  {}

  lemma RefusedPublishGrows(p: Plane, calls: seq<Call>, call: Call)
    requires Sane(p) && Target(p, call).Some? && call.accepted <= 4
    ensures |Run(p, calls + [call]).events| == |Run(p, calls).events| + call.accepted
  {
    RunKeepsSane(p, calls);
    TargetIsFixed(p, calls, call);
    RunNext(p, calls, call);
    RefusedPublishKeepsPart(Run(p, calls), call);
  }

  lemma RefusedPublishKeepsPart(q: Plane, call: Call)
    requires Sane(q) && Target(q, call).Some? && call.accepted <= 4
    ensures |Step(q, call).0.events| == |q.events| + call.accepted
  {
    AppliedExactlyWhen(q, call);
    var k := Target(q, call).value;
    TransitionKeepsCoherent(q.capabilities[k].state, q.capabilities[k].access, call.request.action);
  }

  // ---------- A capability's own references ----------

  /** The audit ids of the entries written for the capability at a position. */
  function OwnHistory(p: Plane, calls: seq<Call>, k: nat): seq<AuditId> {
    if calls == [] then []
    else
      var n := |calls| - 1;
      OwnHistory(p, calls[..n], k)
      + if Target(p, calls[n]) == Some(k) && Written(Run(p, calls[..n]), calls[n]) != [] then [calls[n].auditId] else []
  }

  lemma StepKeepsFirstRefs(p: Plane, call: Call, k: nat)
    requires k < |p.capabilities| && |p.capabilities[k].auditRefs| <= MAX_NATIVE_AUDIT_REFS
    ensures var q := Step(p, call).0;
            && |q.capabilities| == |p.capabilities|
            && q.capabilities[k].auditRefs
               == First(p.capabilities[k].auditRefs
                        + (if Target(p, call) == Some(k) && Written(p, call) != [] then [call.auditId] else []),
                        MAX_NATIVE_AUDIT_REFS)
  {
    var refs := p.capabilities[k].auditRefs;
    assert refs + [] == refs;
  }

  lemma FirstOfFirst<T>(a: seq<T>, b: seq<T>, n: nat)
    ensures First(First(a, n) + b, n) == First(a + b, n)
  {
  }

  /** The logs keep the newest entries, a capability keeps the oldest: its references are the first 64 of its own. */
  lemma {:induction false} OwnRefsAreFirst64(p: Plane, calls: seq<Call>, k: nat)
    requires k < |p.capabilities| && |p.capabilities[k].auditRefs| <= MAX_NATIVE_AUDIT_REFS
    ensures CapabilityAt(p, calls, k).auditRefs
            == Oldest(p.capabilities[k].auditRefs + OwnHistory(p, calls, k))
  {
    var refs := p.capabilities[k].auditRefs;
    if calls == [] {
      assert refs + [] == refs;
    } else {
      var n := |calls| - 1;
      var q := Run(p, calls[..n]);
      RunKeepsIdentity(p, calls[..n]);
      OwnRefsAreFirst64(p, calls[..n], k);
      TargetIsFixed(p, calls[..n], calls[n]);
      StepKeepsFirstRefs(q, calls[n], k);
      var more :=
        if Target(p, calls[n]) == Some(k) && Written(q, calls[n]) != [] then [calls[n].auditId] else [];
      FirstOfFirst(refs + OwnHistory(p, calls[..n], k), more, MAX_NATIVE_AUDIT_REFS);
      assert refs + OwnHistory(p, calls, k) == refs + OwnHistory(p, calls[..n], k) + more;
    }
  }

  // ---------- The audit summary ----------

  /** How many entries of a list leave a capability revoked. */
  function CountRevoked(entries: seq<AuditEntry>): nat {
    if entries == [] then 0
    else
      var n := |entries| - 1;
      CountRevoked(entries[..n]) + if entries[n].resulting.Revoked? then 1 else 0
  }

  lemma {:induction false} ReverseCounts(entries: seq<AuditEntry>)
    ensures |RevokedRefs(Reverse(entries))| == CountRevoked(entries)
  {
    if entries != [] {
      var n := |entries| - 1;
      ReverseCounts(entries[..n]);
      assert Reverse(entries)[1..] == Reverse(entries[..n]);
    }
  }

  lemma ReverseSafe(entries: seq<AuditEntry>)
    ensures TextsSafe(Reverse(entries)) <==> TextsSafe(entries)
  {
    var n := |entries|;
    if TextsSafe(Reverse(entries)) {
      forall i | 0 <= i < n ensures entries[i].textSafe { assert Reverse(entries)[n - 1 - i] == entries[i]; }
    }
  }

  /** The audit summary fails exactly when more than 32 of the last 64 entries revoked, or one of them is unsafe. */
  lemma SummaryFailsExactlyWhen(entries: seq<AuditEntry>)
    ensures Summarise(entries).Err?
            <==> CountRevoked(Newest(entries)) > 32 || !TextsSafe(Newest(entries))
  {
    ReverseCounts(Last(entries, MAX_NATIVE_AUDIT_REFS));
    ReverseSafe(Last(entries, MAX_NATIVE_AUDIT_REFS));
  }

  /** An entry carries over whether its capability's texts are safe. */
  lemma {:induction false} WrittenEntriesAreSafe(p: Plane, calls: seq<Call>)
    requires Sane(p)
    ensures TextsSafe(AuditHistory(p, calls))
  {
    if calls != [] { WrittenEntriesAreSafe(p, calls[..|calls| - 1]); }
  }

  /** On a sane plane the count alone decides: after any run the summary fails exactly on more than 32 revocations. */
  lemma RunSummaryFailsExactlyWhen(p: Plane, calls: seq<Call>)
    requires Sane(p) && |p.audits| <= MAX_NATIVE_AUDIT_REFS && TextsSafe(p.audits)
    ensures Summarise(Run(p, calls).audits).Err?
            <==> CountRevoked(Newest(p.audits + AuditHistory(p, calls))) > 32
  {
    AuditLogIsLast64(p, calls);
    WrittenEntriesAreSafe(p, calls);
    var log := Run(p, calls).audits;
    SummaryFailsExactlyWhen(log);
    assert Last(log, MAX_NATIVE_AUDIT_REFS) == log;
  }

  predicate AllRevoke(p: Plane, calls: seq<Call>) {
    forall i :: 0 <= i < |calls| ==>
      Target(p, calls[i]).Some? && calls[i].request.action.RevokeAuthorization?
  }

  lemma {:induction false} RevocationsAreWritten(p: Plane, calls: seq<Call>)
    requires Sane(p) && AllRevoke(p, calls)
    ensures |AuditHistory(p, calls)| == |calls|
    ensures forall i :: 0 <= i < |calls| ==> AuditHistory(p, calls)[i].resulting.Revoked?
  {
    if calls != [] {
      var n := |calls| - 1;
      RevocationsAreWritten(p, calls[..n]);
      RunKeepsSane(p, calls[..n]);
      TargetIsFixed(p, calls[..n], calls[n]);
      RevocationIsWritten(Run(p, calls[..n]), calls[n]);
    }
  }

  lemma RevocationIsWritten(q: Plane, call: Call)
    requires Sane(q) && Target(q, call).Some? && call.request.action.RevokeAuthorization?
    ensures |Written(q, call)| == 1 && Written(q, call)[0].resulting.Revoked?
  {
  }

  lemma {:induction false} CountAll(entries: seq<AuditEntry>, from: nat)
    requires from <= |entries| && forall i :: from <= i < |entries| ==> entries[i].resulting.Revoked?
    ensures CountRevoked(entries) >= |entries| - from
  {
    if from < |entries| { CountAll(entries[..|entries| - 1], from); }
  }

  /** The newest entries still hold the last 33 of a longer row. */
  lemma RowIsNewest(before: seq<AuditEntry>, row: seq<AuditEntry>)
    requires |row| >= 33 && forall i :: 0 <= i < |row| ==> row[i].resulting.Revoked?
    ensures CountRevoked(Newest(before + row)) > 32
  {
    var log := Newest(before + row);
    var from := if |row| >= |log| then 0 else |log| - |row|;
    forall i | from <= i < |log| ensures log[i].resulting.Revoked? {
      assert log[i] == row[|row| - |log| + i];
    }
    CountAll(log, from);
  }

  /** After 33 revocations in a row, each of a known capability, the audit summary can no longer be produced. */
  lemma RevocationsBreakTheSummary(p: Plane, calls: seq<Call>)
    requires Sane(p) && |p.audits| <= MAX_NATIVE_AUDIT_REFS
    requires AllRevoke(p, calls) && |calls| >= 33
    ensures Summarise(Run(p, calls).audits).Err?
  {
    var log := Run(p, calls).audits;
    assert log == Newest(p.audits + AuditHistory(p, calls)) by { AuditLogIsLast64(p, calls); }
    assert CountRevoked(log) > 32 by {
      RevocationsAreWritten(p, calls);
      RowIsNewest(p.audits, AuditHistory(p, calls));
    }
    assert Newest(log) == log;
    SummaryFailsExactlyWhen(log);
  }
}
