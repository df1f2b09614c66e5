/** The control plane for native permissions: one state machine per capability, and bounded logs of what was done. */
module NativePermissions {
  import opened Wrappers

  // ---------- Data ----------

  datatype Lifecycle =
    | Unavailable | Available | PermissionRequired | Requested | Granted | Denied | Revoked | Expired | Degraded
    | Disabled | NotSupported | PortableDefaultUnavailable

  datatype Availability =
    | ServiceUnavailable | AvailableUnauthorized | SamplerInactive | AvailabilityDegraded | AccessRevoked
    | UnsupportedPlatform | MissingServiceBinary | HealthUnknown | AuthorizationExpired | PortableDefaultActive

  datatype Permission =
    | NotGranted | PermissionRequested | GrantedSession | PermissionDenied | PermissionRevoked | PermissionExpired
    | PermissionDisabled | PermissionNotSupported

  datatype Mode = NoMode | ExplicitSessionBound

  datatype Access = ReadOnlyVisibility | ResponsePlaceholder

  datatype Health = Healthy | Unknown | HealthDegraded | HealthUnavailable | HealthRevoked | HealthNotSupported

  datatype Reason =
    | AuthorizationRequested | SeparatePolicyRequired | AuthorizedNoSampler | AuthorizationRevoked
    | CapabilityDisabled | PortableNativeUnavailable | FuturePlaceholder | OtherReason(safe: bool)

  datatype State = State(
    lifecycle: Lifecycle,
    availability: Availability,
    permission: Permission,
    mode: Mode,
    enabled: bool,
    revoked: bool,
    health: Health,
    reason: Option<Reason>,
    checked: bool)

  type AuditId = nat

  /** `sound` says of what no action changes that the texts are safe and no forbidden runtime flag is set. */
  datatype Capability = Capability(id: string, access: Access, sound: bool, state: State, auditRefs: seq<AuditId>)

  datatype Action =
    RequestAuthorization | GrantAuthorization | RevokeAuthorization | DisableCapability | RecheckStatus
    | ClearInactiveState

  datatype Request = Request(capabilityId: string, action: Action, explicitUserAction: bool, textSafe: bool)

  /** `textSafe` says that the texts of the entry pass their check. */
  datatype AuditEntry =
    AuditEntry(id: AuditId, capabilityId: string, action: Action, resulting: Lifecycle, textSafe: bool)

  datatype Topic = CapabilityStatus | PermissionStatus | VisibilityStatus | AuditPermission | VisibilityDegraded

  datatype Missing = NativeSamplerInactive | CapabilityMissing(id: string)

  datatype StatusEvent = StatusEvent(
    topic: Topic,
    capabilityId: string,
    permission: Permission,
    health: Health,
    reason: Option<Reason>,
    missing: Missing,
    auditRef: AuditId)

  const MAX_NATIVE_AUDIT_REFS := 64

  // ---------- One capability ----------

  function PortableDefault(s: State): State {
    s.(lifecycle := PortableDefaultUnavailable, availability := PortableDefaultActive, permission := NotGranted,
       mode := NoMode, enabled := false, health := Unknown, reason := Some(PortableNativeUnavailable))
  }

  function Grant(s: State, access: Access): State {
    if access.ResponsePlaceholder? then
      s.(lifecycle := Denied, permission := PermissionDenied, mode := NoMode, enabled := false, revoked := false,
         reason := Some(SeparatePolicyRequired))
    else
      s.(lifecycle := Granted, availability := SamplerInactive, permission := GrantedSession,
         mode := ExplicitSessionBound, enabled := true, revoked := false, health := Unknown,
         reason := Some(AuthorizedNoSampler))
  }

  function Recheck(s: State): State {
    if s.revoked then
      s.(lifecycle := Revoked, availability := AccessRevoked, health := HealthRevoked,
         reason := Some(AuthorizationRevoked))
    else if s.permission.GrantedSession? then
      s.(lifecycle := Granted, availability := SamplerInactive, health := Unknown, reason := Some(AuthorizedNoSampler))
    else PortableDefault(s)
  }

  function Transition(s: State, access: Access, action: Action): State {
    var next :=
      match action
      case RequestAuthorization =>
        s.(lifecycle := Requested, permission := PermissionRequested, mode := NoMode, enabled := false,
           revoked := false, reason := Some(AuthorizationRequested))
      case GrantAuthorization => Grant(s, access)
      case RevokeAuthorization =>
        s.(lifecycle := Revoked, availability := AccessRevoked, permission := PermissionRevoked, mode := NoMode,
           enabled := false, revoked := true, health := HealthRevoked, reason := Some(AuthorizationRevoked))
      case DisableCapability =>
        s.(lifecycle := Disabled, permission := PermissionDisabled, mode := NoMode, enabled := false,
           reason := Some(CapabilityDisabled))
      case RecheckStatus => Recheck(s)
      case ClearInactiveState => if s.revoked || s.permission.GrantedSession? then s else PortableDefault(s);
    next.(checked := true)
  }

  predicate ValidRequest(r: Request) {
    r.textSafe && (r.action.GrantAuthorization? ==> r.explicitUserAction)
  }

  predicate ValidCapability(c: Capability) {
    c.sound && c.state.reason != Some(OtherReason(false)) && |c.auditRefs| <= MAX_NATIVE_AUDIT_REFS
    && !(c.access.ResponsePlaceholder? && c.state.permission.GrantedSession?)
  }

  function EventOn(topic: Topic, c: Capability, entry: AuditEntry): StatusEvent {
    StatusEvent(topic, c.id, c.state.permission, c.state.health, c.state.reason,
                if c.state.permission.GrantedSession? then NativeSamplerInactive else CapabilityMissing(c.id), entry.id)
  }

  const STATUS_TOPICS := [CapabilityStatus, PermissionStatus, VisibilityStatus, AuditPermission]

  predicate DegradesVisibility(s: State) { !s.permission.GrantedSession? || s.revoked || !s.health.Healthy? }

  function TopicsFor(s: State): seq<Topic> {
    STATUS_TOPICS + if DegradesVisibility(s) then [VisibilityDegraded] else []
  }

  function EventsFor(c: Capability, entry: AuditEntry): (events: seq<StatusEvent>)
    ensures |events| == |TopicsFor(c.state)|
  {
    var topics := TopicsFor(c.state);
    seq(|topics|, i requires 0 <= i < |topics| => EventOn(topics[i], c, entry))
  }

  // ---------- The plane ----------

  datatype Plane = Plane(capabilities: seq<Capability>, audits: seq<AuditEntry>, events: seq<StatusEvent>)

  /** One call: the request, the audit id that is drawn, and how many events are accepted before one is refused. */
  datatype Call = Call(request: Request, auditId: AuditId, accepted: nat)

  datatype Outcome =
    | Applied(capability: Capability, audit: AuditEntry, events: seq<StatusEvent>)
    | BadRequest
    | NotFound
    | UnsafeCapability
    | PublishFailed

  function First<T>(xs: seq<T>, n: nat): seq<T> { if |xs| <= n then xs else xs[..n] }

  function Last<T>(xs: seq<T>, n: nat): seq<T> { if |xs| <= n then xs else xs[|xs| - n..] }

  function Position(capabilities: seq<Capability>, id: string): Option<nat> {
    if capabilities == [] then None
    else if capabilities[0].id == id then Some(0)
    else
      var rest := Position(capabilities[1..], id);
      if rest.Some? then Some(rest.value + 1) else None
  }

  lemma {:induction false} PositionIsFirst(capabilities: seq<Capability>, id: string)
    ensures var p := Position(capabilities, id);
            && (p.Some? ==> p.value < |capabilities| && capabilities[p.value].id == id)
            && (p.None? ==> forall i :: 0 <= i < |capabilities| ==> capabilities[i].id != id)
            && (p.Some? ==> forall i :: 0 <= i < p.value ==> capabilities[i].id != id)
  {
    if capabilities != [] {
      PositionIsFirst(capabilities[1..], id);
      assert forall i :: 0 < i < |capabilities| ==> capabilities[i] == capabilities[1..][i - 1];
    }
  }

  /** The capability that a call reaches: the first with the requested id, if the request is valid. */
  function Target(p: Plane, call: Call): (k: Option<nat>)
    ensures k.Some? ==> k.value < |p.capabilities|
  {
    PositionIsFirst(p.capabilities, call.request.capabilityId);
    if ValidRequest(call.request) then Position(p.capabilities, call.request.capabilityId) else None
  }

  function Moved(c: Capability, action: Action): Capability { c.(state := Transition(c.state, c.access, action)) }

  function EntryFor(c: Capability, call: Call): AuditEntry {
    AuditEntry(call.auditId, c.id, call.request.action, c.state.lifecycle, c.sound)
  }

  function Audited(c: Capability, id: AuditId): Capability {
    c.(auditRefs := First(c.auditRefs + [id], MAX_NATIVE_AUDIT_REFS))
  }

  /** What one call does to the plane, and what it reports. */
  function Step(p: Plane, call: Call): (Plane, Outcome) {
    if !ValidRequest(call.request) then (p, BadRequest)
    else if Target(p, call).None? then (p, NotFound)
    else
      var k := Target(p, call).value;
      var moved := Moved(p.capabilities[k], call.request.action);
      if !ValidCapability(moved) then (p.(capabilities := p.capabilities[k := moved]), UnsafeCapability)
      else
        var entry := EntryFor(moved, call);
        var audited := Audited(moved, call.auditId);
        var emitted := EventsFor(audited, entry);
        var capabilities := p.capabilities[k := audited];
        var audits := Last(p.audits + [entry], MAX_NATIVE_AUDIT_REFS);
        if call.accepted < |emitted| then
          (Plane(capabilities, audits, p.events + emitted[..call.accepted]), PublishFailed)
        else
          (Plane(capabilities, audits, Last(p.events + emitted, MAX_NATIVE_AUDIT_REFS)),
           Applied(audited, entry, emitted))
  }

  /** The program's runtime object. */
  class PermissionRuntime {
    var capabilities: seq<Capability>
    var auditEntries: seq<AuditEntry>
    var statusEvents: seq<StatusEvent>

    function Contents(): Plane
      reads this
    {
      Plane(capabilities, auditEntries, statusEvents)
    }

    constructor (loaded: seq<Capability>, entries: seq<AuditEntry>, events: seq<StatusEvent>)
      ensures Contents() == Plane(if loaded == [] then DefaultCatalog() else loaded, entries, events)
    {
      capabilities := if loaded == [] then DefaultCatalog() else loaded;
      auditEntries := entries;
      statusEvents := events;
    }

    method Find(id: string) returns (index: Option<nat>)
      ensures index == Position(capabilities, id)
    {
      var i := 0;
      while i < |capabilities|
        invariant 0 <= i <= |capabilities|
        invariant Position(capabilities, id)
                  == (var rest := Position(capabilities[i..], id);
                      if rest.Some? then Some(rest.value + i) else None)
      {
        if capabilities[i].id == id { return Some(i); }
        assert capabilities[i..][1..] == capabilities[i + 1..];
        i := i + 1;
      }
      index := None;
    }

    /** Publishes event by event; a refusal leaves the events before it in the log, untrimmed. */
    method Publish(emitted: seq<StatusEvent>, accepted: nat) returns (ok: bool)
      modifies `statusEvents
      ensures ok <==> accepted >= |emitted|
      ensures statusEvents == if ok then Last(old(statusEvents) + emitted, MAX_NATIVE_AUDIT_REFS)
                              else old(statusEvents) + emitted[..accepted]
    {
      var i := 0;
      while i < |emitted|
        invariant 0 <= i <= |emitted| && i <= accepted
        invariant statusEvents == old(statusEvents) + emitted[..i]
      {
        if i == accepted { return false; }
        statusEvents := statusEvents + [emitted[i]];
        i := i + 1;
      }
      assert emitted[..i] == emitted;
      if |statusEvents| > MAX_NATIVE_AUDIT_REFS {
        statusEvents := statusEvents[|statusEvents| - MAX_NATIVE_AUDIT_REFS..];
      }
      ok := true;
    }

    method ApplyAction(call: Call) returns (outcome: Outcome)
      modifies this
      ensures (Contents(), outcome) == Step(old(Contents()), call)
    {
      if !ValidRequest(call.request) { return BadRequest; }
      var index := Find(call.request.capabilityId);
      PositionIsFirst(capabilities, call.request.capabilityId);
      if index.None? { return NotFound; }
      var k := index.value;
      capabilities := capabilities[k := Moved(capabilities[k], call.request.action)];
      if !ValidCapability(capabilities[k]) { return UnsafeCapability; }
      var entry := EntryFor(capabilities[k], call);
      capabilities := capabilities[k := Audited(capabilities[k], call.auditId)];
      assert capabilities == old(capabilities)[k := capabilities[k]];
      auditEntries := auditEntries + [entry];
      if |auditEntries| > MAX_NATIVE_AUDIT_REFS {
        auditEntries := auditEntries[|auditEntries| - MAX_NATIVE_AUDIT_REFS..];
      }
      var emitted := EventsFor(capabilities[k], entry);
      var ok := Publish(emitted, call.accepted);
      outcome := if ok then Applied(capabilities[k], entry, emitted) else PublishFailed;
    }
  }

  // ---------- The default catalog ----------

  const VISIBILITY_IDS: seq<string> := [
    "native_host_visibility",
    "process_metadata_visibility",
    "process_network_attribution_visibility",
    "service_metadata_visibility",
    "autorun_persistence_visibility",
    "file_activity_summary_visibility",
    "registry_summary_visibility",
    "endpoint_network_attribution_visibility",
    "native_health_probe"
  ]

  const PLACEHOLDER_ID := "native_response_capability_placeholder"

  const DEFAULT_STATE := State(PortableDefaultUnavailable, PortableDefaultActive, NotGranted, NoMode, false, false,
                               Unknown, Some(PortableNativeUnavailable), false)

  const PLACEHOLDER_STATE := State(NotSupported, UnsupportedPlatform, PermissionNotSupported, NoMode, false, false,
                                   HealthNotSupported, Some(FuturePlaceholder), false)

  function Visibility(id: string): Capability { Capability(id, ReadOnlyVisibility, true, DEFAULT_STATE, []) }

  function DefaultCatalog(): seq<Capability> {
    seq(|VISIBILITY_IDS|, i requires 0 <= i < |VISIBILITY_IDS| => Visibility(VISIBILITY_IDS[i]))
    + [Capability(PLACEHOLDER_ID, ResponsePlaceholder, true, PLACEHOLDER_STATE, [])]
  }

  // ---------- The audit summary ----------

  const MAX_NATIVE_CAPABILITY_REFS := 32

  datatype AuditSummary = AuditSummary(entries: seq<AuditEntry>, auditRefs: seq<AuditId>, revokedRefs: seq<string>)

  datatype SummaryError = RevokedRefsTooMany | UnsafeText

  predicate TextsSafe(entries: seq<AuditEntry>) { forall i :: 0 <= i < |entries| ==> entries[i].textSafe }

  function Reverse<T>(xs: seq<T>): (r: seq<T>)
    ensures |r| == |xs|
    ensures forall i :: 0 <= i < |xs| ==> r[i] == xs[|xs| - 1 - i]
  {
    seq(|xs|, i requires 0 <= i < |xs| => xs[|xs| - 1 - i])
  }

  function RevokedRefs(entries: seq<AuditEntry>): seq<string> {
    if entries == [] then []
    else
      (if entries[0].resulting.Revoked? then [entries[0].capabilityId] else []) + RevokedRefs(entries[1..])
  }

  /** The newest 64 entries first, and the capabilities they revoked; more than 32 of those or an unsafe text fail. */
  function Summarise(entries: seq<AuditEntry>): Result<AuditSummary, SummaryError> {
    var bounded := Reverse(Last(entries, MAX_NATIVE_AUDIT_REFS));
    var revoked := RevokedRefs(bounded);
    if |revoked| > MAX_NATIVE_CAPABILITY_REFS then Err(RevokedRefsTooMany)
    else if !TextsSafe(bounded) then Err(UnsafeText)
    else Ok(AuditSummary(bounded, seq(|bounded|, i requires 0 <= i < |bounded| => bounded[i].id), revoked))
  }
}
