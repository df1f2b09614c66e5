/** What a capability says after a run of calls, and what a call reports. */
module NativeOutcomes {
  import opened Wrappers
  import opened NativePermissions
  import opened NativeTheorems

  // ---------- The last decision ----------

  predicate Reaches(p: Plane, call: Call, k: nat) { Target(p, call) == Some(k) }

  predicate Decides(action: Action) {
    action.RequestAuthorization? || action.GrantAuthorization? || action.RevokeAuthorization?
    || action.DisableCapability?
  }

  /** The last request, grant, revocation or disabling that reaches the capability. */
  function Decision(p: Plane, calls: seq<Call>, k: nat): Option<Action> {
    if calls == [] then None
    else
      var n := |calls| - 1;
      if Reaches(p, calls[n], k) && Decides(calls[n].request.action) then Some(calls[n].request.action)
      else Decision(p, calls[..n], k)
  }

  /** The last of these but the disablings was a revocation. */
  predicate Revoking(p: Plane, calls: seq<Call>, k: nat) {
    calls != []
    && var n := |calls| - 1;
    var action := calls[n].request.action;
    if Reaches(p, calls[n], k) && Decides(action) && !action.DisableCapability? then action.RevokeAuthorization?
    else Revoking(p, calls[..n], k)
  }

  /** Since the last decision one of the actions reached the capability. */
  predicate Since(p: Plane, calls: seq<Call>, k: nat, actions: set<Action>) {
    calls != []
    && var n := |calls| - 1;
    var action := calls[n].request.action;
    if Reaches(p, calls[n], k) && Decides(action) then false
    else (Reaches(p, calls[n], k) && action in actions) || Since(p, calls[..n], k, actions)
  }

  predicate Stands(s: State, lifecycle: Lifecycle, permission: Permission, mode: Mode, reason: Reason) {
    s.lifecycle == lifecycle && s.permission == permission && s.mode == mode && s.reason == Some(reason)
  }

  predicate StandsDefault(s: State) {
    Stands(s, PortableDefaultUnavailable, NotGranted, NoMode, PortableNativeUnavailable)
  }

  /** The standing by decision; `checked` and `touched` say whether a recheck, or a recheck or clearing, came later. */
  predicate Standing(
    s: State, initial: State, access: Access, decision: Option<Action>, revoking: bool, checked: bool, touched: bool)
  {
    match decision
    case None =>
      if touched then StandsDefault(s)
      else
        && s.lifecycle == initial.lifecycle && s.permission == initial.permission && s.mode == initial.mode
        && s.reason == initial.reason
    case Some(RequestAuthorization) =>
      if touched then StandsDefault(s)
      else Stands(s, Requested, PermissionRequested, NoMode, AuthorizationRequested)
    case Some(GrantAuthorization) =>
      if access.ReadOnlyVisibility? then
        Stands(s, Granted, GrantedSession, ExplicitSessionBound, AuthorizedNoSampler)
      else if touched then StandsDefault(s)
      else Stands(s, Denied, PermissionDenied, NoMode, SeparatePolicyRequired)
    case Some(RevokeAuthorization) => Stands(s, Revoked, PermissionRevoked, NoMode, AuthorizationRevoked)
    case Some(DisableCapability) =>
      if revoking && checked then Stands(s, Revoked, PermissionDisabled, NoMode, AuthorizationRevoked)
      else if !revoking && touched then StandsDefault(s)
      else Stands(s, Disabled, PermissionDisabled, NoMode, CapabilityDisabled)
    case Some(RecheckStatus) => false
    case Some(ClearInactiveState) => false
  }

  const CHECKS := {RecheckStatus}

  const TOUCHES := {RecheckStatus, ClearInactiveState}

  lemma {:induction false} RevokedIsRevoking(p: Plane, calls: seq<Call>, k: nat)
    requires k < |p.capabilities| && !p.capabilities[k].state.revoked
    ensures StateAt(p, calls, k).revoked <==> Revoking(p, calls, k)
  {
    if calls != [] {
      var n := |calls| - 1;
      RevokedIsRevoking(p, calls[..n], k);
      StateNext(p, calls, k);
    }
  }

  lemma StandingNext(
    s: State, initial: State, access: Access, action: Action, decision: Option<Action>, checked: bool, touched: bool)
    requires Standing(s, initial, access, decision, s.revoked, checked, touched)
    requires Coherent(s, access) && !initial.permission.GrantedSession?
    requires (decision.None? ==> !s.revoked) && (checked ==> touched)
    requires decision == Some(RequestAuthorization) || decision == Some(GrantAuthorization) ==> !s.revoked
    ensures var t := Transition(s, access, action);
            if Decides(action) then Standing(t, initial, access, Some(action), t.revoked, false, false)
            else Standing(t, initial, access, decision, t.revoked, checked || action.RecheckStatus?, true)
  {}

  lemma {:induction false} SinceCovers(p: Plane, calls: seq<Call>, k: nat)
    ensures Since(p, calls, k, CHECKS) ==> Since(p, calls, k, TOUCHES)
    ensures Decision(p, calls, k) in {None, Some(RequestAuthorization), Some(GrantAuthorization)}
            ==> !Revoking(p, calls, k)
  {
    if calls != [] { SinceCovers(p, calls[..|calls| - 1], k); }
  }

  predicate StandsAfter(p: Plane, calls: seq<Call>, k: nat)
    requires k < |p.capabilities|
  {
    Standing(StateAt(p, calls, k), p.capabilities[k].state, p.capabilities[k].access, Decision(p, calls, k),
             Revoking(p, calls, k), Since(p, calls, k, CHECKS), Since(p, calls, k, TOUCHES))
  }

  /** One more call that reaches the capability. */
  lemma StandingReached(p: Plane, calls: seq<Call>, k: nat, n: nat)
    requires k < |p.capabilities| && Coherent(p.capabilities[k].state, p.capabilities[k].access)
    requires !p.capabilities[k].state.enabled && !p.capabilities[k].state.revoked
    requires |calls| == n + 1 && Reaches(p, calls[n], k) && StandsAfter(p, calls[..n], k)
    ensures StandsAfter(p, calls, k)
  {
    StateNext(p, calls, k);
    StatesAreCoherent(p, calls[..n], k);
    RevokedIsRevoking(p, calls[..n], k);
    RevokedIsRevoking(p, calls, k);
    SinceCovers(p, calls[..n], k);
    StandingNext(
      StateAt(p, calls[..n], k), p.capabilities[k].state, p.capabilities[k].access, calls[n].request.action,
      Decision(p, calls[..n], k), Since(p, calls[..n], k, CHECKS), Since(p, calls[..n], k, TOUCHES));
  }

  /** After any run of calls, however they ended, a capability stands as the table says for its last decision. */
  lemma {:induction false} StandingByLastDecision(p: Plane, calls: seq<Call>, k: nat)
    requires k < |p.capabilities| && Coherent(p.capabilities[k].state, p.capabilities[k].access)
    requires !p.capabilities[k].state.enabled && !p.capabilities[k].state.revoked
    ensures StandsAfter(p, calls, k)
  {
    if calls != [] {
      var n := |calls| - 1;
      StandingByLastDecision(p, calls[..n], k);
      if Reaches(p, calls[n], k) { StandingReached(p, calls, k, n); } else { StateNext(p, calls, k); }
    }
  }

  // ---------- Availability and health ----------

  /** The call sets availability and health: a visibility grant, a revocation, a recheck, or a clearing that clears. */
  predicate SetsHealth(s: State, access: Access, action: Action) {
    match action
    case RequestAuthorization => false
    case GrantAuthorization => access.ReadOnlyVisibility?
    case RevokeAuthorization => true
    case DisableCapability => false
    case RecheckStatus => true
    case ClearInactiveState => !s.revoked && !s.enabled
  }

  predicate HealthFits(s: State, action: Action, after: State) {
    match action
    case RequestAuthorization => false
    case GrantAuthorization => after.availability == SamplerInactive && after.health == Unknown
    case RevokeAuthorization => after.availability == AccessRevoked && after.health == HealthRevoked
    case DisableCapability => false
    case RecheckStatus =>
      if s.revoked then after.availability == AccessRevoked && after.health == HealthRevoked
      else if s.enabled then after.availability == SamplerInactive && after.health == Unknown
      else after.availability == PortableDefaultActive && after.health == Unknown
    case ClearInactiveState => after.availability == PortableDefaultActive && after.health == Unknown
  }

  lemma TransitionHealth(s: State, access: Access, action: Action)
    requires Coherent(s, access)
    ensures var t := Transition(s, access, action);
            t.checked
            && if SetsHealth(s, access, action) then HealthFits(s, action, t)
               else t.availability == s.availability && t.health == s.health
  {}

  predicate SetsHealthAt(p: Plane, calls: seq<Call>, k: nat, i: nat)
    requires k < |p.capabilities| && i < |calls|
  {
    Reaches(p, calls[i], k) && SetsHealth(StateAt(p, calls[..i], k), p.capabilities[k].access, calls[i].request.action)
  }

  predicate LastSetsHealth(p: Plane, calls: seq<Call>, k: nat, i: nat)
    requires k < |p.capabilities|
  {
    i < |calls| && SetsHealthAt(p, calls, k, i) && forall j :: i < j < |calls| ==> !SetsHealthAt(p, calls, k, j)
  }

  lemma HealthOfPrefix(p: Plane, calls: seq<Call>, k: nat, n: nat, i: nat)
    requires k < |p.capabilities| && i < n <= |calls|
    ensures SetsHealthAt(p, calls[..n], k, i) == SetsHealthAt(p, calls, k, i)
  {
    assert calls[..n][..i] == calls[..i];
  }

  /** Availability and health are those of the last call that sets them; what it sets depends on the state it meets. */
  lemma {:induction false} HealthIsLastSet(p: Plane, calls: seq<Call>, k: nat, i: nat)
    requires k < |p.capabilities| && Coherent(p.capabilities[k].state, p.capabilities[k].access)
    requires LastSetsHealth(p, calls, k, i)
    ensures HealthFits(StateAt(p, calls[..i], k), calls[i].request.action, StateAt(p, calls, k))
  {
    var n := |calls| - 1;
    HealthNext(p, calls, k, n);
    if i < n {
      LastSetsHealthBefore(p, calls, k, n, i);
      HealthIsLastSet(p, calls[..n], k, i);
      assert calls[..n][..i] == calls[..i];
    }
  }

  lemma HealthNext(p: Plane, calls: seq<Call>, k: nat, n: nat)
    requires k < |p.capabilities| && Coherent(p.capabilities[k].state, p.capabilities[k].access)
    requires |calls| == n + 1
    ensures var s := StateAt(p, calls[..n], k);
            var t := StateAt(p, calls, k);
            if SetsHealthAt(p, calls, k, n) then HealthFits(s, calls[n].request.action, t)
            else t.availability == s.availability && t.health == s.health
  {
    StateNext(p, calls, k);
    StatesAreCoherent(p, calls[..n], k);
    TransitionHealth(StateAt(p, calls[..n], k), p.capabilities[k].access, calls[n].request.action);
  }

  lemma LastSetsHealthBefore(p: Plane, calls: seq<Call>, k: nat, n: nat, i: nat)
    requires k < |p.capabilities| && |calls| == n + 1 && i < n && LastSetsHealth(p, calls, k, i)
    ensures LastSetsHealth(p, calls[..n], k, i) && !SetsHealthAt(p, calls, k, n)
  {
    forall j: nat | j < n ensures SetsHealthAt(p, calls[..n], k, j) == SetsHealthAt(p, calls, k, j) {
      HealthOfPrefix(p, calls, k, n, j);
    }
  }

  /** A capability says that it was checked exactly when a call ever reached it. */
  lemma {:induction false} CheckedExactlyWhen(p: Plane, calls: seq<Call>, k: nat)
    requires k < |p.capabilities| && !p.capabilities[k].state.checked
    ensures StateAt(p, calls, k).checked <==> exists i :: 0 <= i < |calls| && Reaches(p, calls[i], k)
  {
    if calls != [] {
      var n := |calls| - 1;
      CheckedExactlyWhen(p, calls[..n], k);
      StateNext(p, calls, k);
      if i :| 0 <= i < n && Reaches(p, calls[i], k) { assert Reaches(p, calls[..n][i], k); }
    }
  }

  // ---------- What a call reports ----------

  /** The first capability with the requested id, if the texts are safe and a grant is the user's own. */
  predicate Finds(p: Plane, call: Call, k: nat) {
    && call.request.textSafe && (call.request.action.GrantAuthorization? ==> call.request.explicitUserAction)
    && k < |p.capabilities| && p.capabilities[k].id == call.request.capabilityId
    && forall j :: 0 <= j < k ==> p.capabilities[j].id != call.request.capabilityId
  }

  lemma ReachesExactlyWhen(p: Plane, call: Call, k: nat)
    ensures Reaches(p, call, k) <==> Finds(p, call, k)
  {
    PositionIsFirst(p.capabilities, call.request.capabilityId);
  }

  /** What a call that finds nothing returns, and that it changes nothing. */
  lemma RefusedExactlyWhen(p: Plane, call: Call)
    ensures Step(p, call).1 == BadRequest
            <==> !call.request.textSafe || (call.request.action.GrantAuthorization? && !call.request.explicitUserAction)
    ensures Step(p, call).1 == NotFound
            <==> && Step(p, call).1 != BadRequest
                 && forall k :: 0 <= k < |p.capabilities| ==> p.capabilities[k].id != call.request.capabilityId
    ensures Step(p, call).1 in {BadRequest, NotFound} ==> Step(p, call).0 == p
  {
    PositionIsFirst(p.capabilities, call.request.capabilityId);
  }

  /** The event speaks of the capability as it is now, and cites the entry. */
  predicate Tells(e: StatusEvent, c: Capability, id: AuditId) {
    && e.capabilityId == c.id && e.permission == c.state.permission && e.health == c.state.health
    && e.reason == c.state.reason && e.auditRef == id
    && e.missing == if c.state.permission == GrantedSession then NativeSamplerInactive else CapabilityMissing(c.id)
  }

  /** A success reports the capability that the plane now holds, the entry that it wrote, and events about it. */
  lemma AppliedTells(p: Plane, call: Call)
    requires Sane(p) && Step(p, call).1.Applied?
    ensures var (after, outcome) := Step(p, call);
            exists k: nat ::
              && Finds(p, call, k) && k < |after.capabilities| && outcome.capability == after.capabilities[k]
              && outcome.capability.id == call.request.capabilityId
              && outcome.audit == AuditEntry(
                                    call.auditId, call.request.capabilityId, call.request.action,
                                    outcome.capability.state.lifecycle, outcome.capability.sound)
              && after.audits != [] && after.audits[|after.audits| - 1] == outcome.audit
              && |outcome.events| == 5 && |after.events| >= 5
              && after.events[|after.events| - 5..] == outcome.events
              && forall i :: 0 <= i < 5 ==> Tells(outcome.events[i], outcome.capability, call.auditId)
  {
    var k := Target(p, call).value;
    ReachesExactlyWhen(p, call, k);
    EverySuccessReportsDegradedVisibility(p, call);
    var (after, outcome) := Step(p, call);
    LastEndsWith(p.audits, [outcome.audit]);
    LastEndsWith(p.events, outcome.events);
    assert after.audits[|after.audits| - 1..] == [outcome.audit];
    assert Finds(p, call, k) && outcome.capability == after.capabilities[k];
  }

  const TOPICS := [CapabilityStatus, PermissionStatus, VisibilityStatus, AuditPermission, VisibilityDegraded]

  /** Whatever becomes of its events, a call that finds a capability writes one entry, and events on the five topics. */
  lemma WrittenTells(p: Plane, call: Call, k: nat)
    requires Sane(p) && Finds(p, call, k)
    ensures k < |Step(p, call).0.capabilities|
    ensures var c := Step(p, call).0.capabilities[k];
            && Written(p, call) == [AuditEntry(
                                      call.auditId, call.request.capabilityId, call.request.action,
                                      c.state.lifecycle, c.sound)]
            && |Emitted(p, call)| == (if call.accepted < 5 then call.accepted else 5)
            && forall i :: 0 <= i < |Emitted(p, call)| ==>
                 Emitted(p, call)[i].topic == TOPICS[i] && Tells(Emitted(p, call)[i], c, call.auditId)
  {
    ReachesExactlyWhen(p, call, k);
    TransitionKeepsCoherent(p.capabilities[k].state, p.capabilities[k].access, call.request.action);
    TransitionKeepsReason(p.capabilities[k].state, p.capabilities[k].access, call.request.action);
  }

  lemma LastEndsWith<T>(xs: seq<T>, more: seq<T>)
    requires |more| <= MAX_NATIVE_AUDIT_REFS
    ensures var all := Last(xs + more, MAX_NATIVE_AUDIT_REFS); |all| >= |more| && all[|all| - |more|..] == more
  {}

  // ---------- The audit summary ----------

  lemma {:induction false} RevokedRefAt(entries: seq<AuditEntry>, n: nat)
    requires n < |entries| && entries[n].resulting.Revoked?
    ensures CountRevoked(entries[..n]) < |RevokedRefs(entries)|
    ensures RevokedRefs(entries)[CountRevoked(entries[..n])] == entries[n].capabilityId
  {
    if n == 0 {
      assert entries[..0] == [];
    } else {
      RevokedRefAt(entries[1..], n - 1);
      CountHead(entries[..n]);
      assert entries[..n][1..] == entries[1..][..n - 1];
    }
  }

  lemma {:induction false} CountHead(entries: seq<AuditEntry>)
    requires entries != []
    ensures CountRevoked(entries) == (if entries[0].resulting.Revoked? then 1 else 0) + CountRevoked(entries[1..])
  {
    var n := |entries| - 1;
    if n > 0 {
      CountHead(entries[..n]);
      assert entries[..n][1..] == entries[1..][..n - 1];
    } else {
      assert entries[..0] == [] && entries[1..] == [];
    }
  }

  lemma {:induction false} RevokedCount(entries: seq<AuditEntry>)
    ensures |RevokedRefs(entries)| == CountRevoked(entries)
  {
    if entries != [] {
      CountHead(entries);
      RevokedCount(entries[1..]);
    }
  }

  /**
   * A summary lists the newest 64 entries, newest first, with their ids, and the capability of every entry that left
   * one revoked, in that order.
   */
  lemma SummaryTells(log: seq<AuditEntry>)
    requires Summarise(log).Ok?
    ensures var summary := Summarise(log).value;
            var shown := if |log| <= 64 then |log| else 64;
            && |summary.entries| == shown && |summary.auditRefs| == shown
            && (forall i :: 0 <= i < shown ==>
                  summary.entries[i] == log[|log| - 1 - i] && summary.auditRefs[i] == log[|log| - 1 - i].id)
            && |summary.revokedRefs| == CountRevoked(summary.entries) <= 32
            && forall i :: 0 <= i < shown && summary.entries[i].resulting.Revoked? ==>
                 && CountRevoked(summary.entries[..i]) < |summary.revokedRefs|
                 && summary.revokedRefs[CountRevoked(summary.entries[..i])] == summary.entries[i].capabilityId
  {
    var entries := Summarise(log).value.entries;
    RevokedCount(entries);
    forall i: nat | i < |entries| && entries[i].resulting.Revoked?
      ensures CountRevoked(entries[..i]) < |RevokedRefs(entries)|
      ensures RevokedRefs(entries)[CountRevoked(entries[..i])] == entries[i].capabilityId
    {
      RevokedRefAt(entries, i);
    }
  }

  // ---------- The catalog ----------

  /** The catalog begins with nine visibilities that nobody asked for, and ends with the response placeholder. */
  lemma CatalogTells(k: nat)
    requires k < |DefaultCatalog()|
    ensures |DefaultCatalog()| == 10
    ensures var c := DefaultCatalog()[k];
            && c.sound && c.auditRefs == [] && !c.state.enabled && !c.state.revoked && !c.state.checked
            && c.state.mode == NoMode
            && if k < 9 then
                 && c.access == ReadOnlyVisibility && StandsDefault(c.state)
                 && c.state.availability == PortableDefaultActive && c.state.health == Unknown
               else
                 && c.access == ResponsePlaceholder && c.id == "native_response_capability_placeholder"
                 && Stands(c.state, NotSupported, PermissionNotSupported, NoMode, FuturePlaceholder)
                 && c.state.availability == UnsupportedPlatform && c.state.health == HealthNotSupported
  {}
}
