/**
 * The service-owned sensing lifecycle, one owner call at a time.
 *
 * Three runtimes (ETW network, Windows DNS, auth/remote event logs) share one status record and one
 * protocol with their control thread, and differ in a few fields. `Kind` says which one is meant;
 * every function branches on it exactly where the three copies differ.
 *
 * What a call learns from its control thread is an argument, `Env`. LifecycleThreads says which
 * answers the threads can really give.
 */
module LifecycleCalls {
  import opened Wrappers
  import opened Text

  // ---------- Data ----------

  type u32 = n: int | 0 <= n < 0x1_0000_0000

  const U32_MAX: u32 := 0xFFFF_FFFF

  const MAX_LIFECYCLE_REFS := 16

  const MAX_LIFECYCLE_TEXT := 128

  function SaturatingAdd(a: u32, b: u32): (r: u32)
    ensures r as int == if a + b > U32_MAX then U32_MAX as int else a + b
  {
    if a + b > U32_MAX then U32_MAX else a + b
  }

  function Bump(a: u32): u32 { SaturatingAdd(a, 1) }

  datatype Kind = Etw | Dns | AuthRemote

  /** The texts in which the three runtimes differ. */
  datatype Profile = Profile(
    kind: Kind,
    lifecycleRef: string,
    initialEntry: string,
    provenanceRef: string,
    activationEntry: string,
    pauseEntry: string,
    resumeEntry: string,
    stopEntry: string,
    stopReason: string,
    joinReason: string)

  datatype Lifecycle =
    Inactive | Activating | Active | Pausing | Paused | Resuming | Degraded | Stopping | Stopped | Failed

  datatype Session = NotCreated | SessionActive | SessionPaused | SessionStopped | SessionUnavailable

  datatype Authorization = Required | Authorized | Invalidated

  datatype Fallback = IpHelperActive | IpHelperAvailable | PortableMetadataOnly | NoFallback

  datatype ControlState = ControlInactive | ControlActive | ControlPaused | ControlStopped | ControlUnavailable

  /** A normalized batch, named by a number: the lifecycle only hands batches on. */
  type Batch = nat

  /** What an adapter reports. Event-log adapters have no trace session to report on. */
  datatype Outcome =
    | TraceOutcome(
        state: ControlState,
        traceSessionCreated: bool,
        providerEnabled: bool,
        collectionStarted: bool,
        consumerStarted: bool,
        workerActive: bool,
        workerJoined: bool,
        rawEvents: u32,
        normalizedEvents: u32,
        droppedEvents: u32,
        rateLimitedEvents: u32,
        schemaRejectedEvents: u32,
        batches: seq<Batch>,
        degradedReason: Option<string>)
    | EventLogOutcome(
        state: ControlState,
        providerEnabled: bool,
        collectionStarted: bool,
        consumerStarted: bool,
        workerActive: bool,
        workerJoined: bool,
        rawEvents: u32,
        authObservations: u32,
        remoteAccessObservations: u32,
        queueDroppedEvents: u32,
        rateLimitedEvents: u32,
        schemaRejected: u32,
        batches: seq<Batch>,
        degradedReason: Option<string>)

  type Reply = Result<Outcome, string>

  datatype Collection = Collection(
    traceSession: bool,
    provider: bool,
    collecting: bool,
    consumer: bool,
    workerActive: bool,
    workerJoined: bool)

  datatype Events = Events(raw: u32, normalized: u32, dropped: u32, rateLimited: u32, schemaRejected: u32)

  datatype Handoff = Handoff(batches: u32, publications: u32, facts: u32)

  datatype Tally = Tally(generation: u32, activations: u32, pauses: u32, resumes: u32, stops: u32)

  /** Labels, reasons and trails: what a status says about itself besides its state. */
  datatype Notes = Notes(
    lifecycleRef: string,
    ownershipRef: string,
    ownershipEpoch: nat,
    fallback: Fallback,
    degradedReason: Option<string>,
    auditRefs: seq<string>,
    provenanceRefs: seq<string>)

  /** The status record; its fields are grouped, its timestamps are left out. */
  datatype Status = Status(
    lifecycle: Lifecycle,
    session: Session,
    authorization: Authorization,
    threadActive: bool,
    threadJoined: bool,
    collection: Collection,
    events: Events,
    handoff: Handoff,
    tally: Tally,
    authorizationRefs: seq<string>,
    notes: Notes)

  datatype OwnerCategory = ServiceHost | OtherOwner

  datatype Owner = Owner(category: OwnerCategory, serviceOwned: bool, ownershipRef: string, ownershipEpoch: nat)

  /** The owner object: its identity, its status, and its two ends of the control thread. */
  datatype Runtime = Runtime(
    profile: Profile,
    owner: Owner,
    status: Status,
    sender: Option<nat>,
    handle: Option<nat>)

  datatype Command = Pause | Resume | Stop | Drain(maxBatches: nat)

  datatype Call =
    | Activate(ctx: Owner, refs: seq<string>, fallback: Fallback)
    | PauseCall(ctx: Owner, refs: seq<string>, fallback: Fallback)
    | ResumeCall(ctx: Owner, refs: seq<string>, fallback: Fallback)
    | StopCall(ctx: Owner, refs: seq<string>, fallback: Fallback)
    | Shutdown(fallback: Fallback)
    | DrainCall(ctx: Owner, maxBatches: nat)
    | RecordHandoff(ctx: Owner, batches: u32, publications: u32, facts: u32)

  datatype Error =
    | OwnerMismatch
    | StaleEpoch
    | StartFailed
    | ThreadUnavailable
    | CommandRejected
    | ResponseUnavailable
    | AdapterError(reason: string)
    | JoinFailed
    | ContractViolated

  /** What `send_command` meets after the sender was found: a closed channel, a lost request, or a reply. */
  datatype Answer = SendRejected | ResponseLost | Answered(reply: Reply)

  /** What one call learns from the outside: the new thread and its start reply, the answer, the join. */
  datatype Env = Env(spawned: nat, started: Option<Reply>, answer: Answer, joined: bool)

  datatype Returned = StatusReturned(status: Status) | BatchesReturned(batches: seq<Batch>)

  type CallResult = Result<Returned, Error>

  /** How a call ends: at once, with an error, or with a value that the status contract must still allow. */
  datatype Ending = Returns(value: Returned) | Fails(error: Error) | Checked(value: Returned)

  // ---------- Validation of a status ----------

  /** Bytes of the UTF-8 form of a string. */
  function Utf8Length(s: string): nat {
    if s == [] then 0
    else
      var n := s[0] as int;
      (if n < 0x80 then 1 else if n < 0x800 then 2 else if n < 0x1_0000 then 3 else 4) + Utf8Length(s[1..])
  }

  function TrimStart(s: string): (r: string)
    ensures |r| <= |s|
  {
    if s != [] && IsWhitespace(s[0]) then TrimStart(s[1..]) else s
  }

  function TrimEnd(s: string): (r: string)
    ensures |r| <= |s|
  {
    if s != [] && IsWhitespace(s[|s| - 1]) then TrimEnd(s[..|s| - 1]) else s
  }

  function AsciiLower(c: char): char {
    if 'A' <= c <= 'Z' then (c as int + 32) as char else c
  }

  predicate MatchesFolded(s: string, marker: string, i: nat) {
    i + |marker| <= |s| && forall j :: 0 <= j < |marker| ==> AsciiLower(s[i + j]) == marker[j]
  }

  predicate ContainsFolded(s: string, marker: string) {
    exists i: nat :: i <= |s| && MatchesFolded(s, marker, i)
  }

  const UNSAFE_MARKERS: seq<string> := [
    "handle=", "session_name=", "provider_guid=", "pid=", "process_name=", "raw_address=", "exact_port=",
    "path=", "token=", "credential=", "secret=", "password=", "api_key="
  ]

  predicate SafeText(s: string) {
    var trimmed := TrimEnd(TrimStart(s));
    && trimmed != []
    && Utf8Length(trimmed) <= MAX_LIFECYCLE_TEXT
    && forall m :: m in UNSAFE_MARKERS ==> !ContainsFolded(trimmed, m)
  }

  predicate SafeRefs(refs: seq<string>) {
    |refs| <= MAX_LIFECYCLE_REFS && forall i :: 0 <= i < |refs| ==> SafeText(refs[i])
  }

  predicate TextsValid(s: Status) {
    && SafeText(s.notes.lifecycleRef)
    && SafeText(s.notes.ownershipRef)
    && (s.notes.degradedReason.Some? ==> SafeText(s.notes.degradedReason.value))
    && SafeRefs(s.authorizationRefs)
    && SafeRefs(s.notes.auditRefs)
    && SafeRefs(s.notes.provenanceRefs)
    && s.notes.ownershipEpoch != 0
  }

  predicate CountersValid(events: Events, published: u32) {
    && events.normalized <= events.raw
    && events.rateLimited <= events.dropped
    && events.schemaRejected <= events.dropped
    && published <= events.normalized
  }

  predicate NothingCollected(c: Collection) {
    !c.traceSession && !c.provider && !c.collecting && !c.consumer && !c.workerActive
  }

  predicate EverythingCollected(c: Collection) {
    c.traceSession && c.provider && c.collecting && c.consumer && c.workerActive && !c.workerJoined
  }

  predicate StateValid(s: Status) {
    match s.lifecycle
    case Inactive =>
      s.authorization == Required && s.session == NotCreated && !s.threadActive && NothingCollected(s.collection)
    case Activating => s.authorization == Authorized
    case Pausing => s.authorization == Authorized
    case Resuming => s.authorization == Authorized
    case Stopping => s.authorization == Authorized
    case Active =>
      && s.authorization == Authorized && s.session == SessionActive && s.threadActive
      && EverythingCollected(s.collection)
    case Paused =>
      && s.authorization == Authorized && s.session == SessionPaused && s.threadActive
      && NothingCollected(s.collection) && s.collection.workerJoined
    case Degraded => NothingCollected(s.collection)
    case Failed => NothingCollected(s.collection)
    case Stopped =>
      && s.session == SessionStopped && !s.threadActive && s.threadJoined
      && NothingCollected(s.collection) && s.collection.workerJoined
  }

  predicate Valid(s: Status) {
    TextsValid(s) && CountersValid(s.events, s.handoff.batches) && StateValid(s)
  }

  // ---------- Reference lists ----------

  function DropBlank(values: seq<string>): seq<string> {
    if values == [] then []
    else if IsBlank(values[0]) then DropBlank(values[1..])
    else [values[0]] + DropBlank(values[1..])
  }

  function Take<T>(xs: seq<T>, n: nat): seq<T> {
    if |xs| <= n then xs else xs[..n]
  }

  /** Note the order: cut to the limit first, then sort, then drop repeats. */
  function BoundedRefs(values: seq<string>): seq<string> {
    Dedup(Sort(Take(DropBlank(values), MAX_LIFECYCLE_REFS)))
  }

  function Audited(notes: Notes, entry: string): Notes {
    notes.(auditRefs := BoundedRefs(notes.auditRefs + [entry]))
  }

  // ---------- Status changes ----------

  const IDLE := Collection(false, false, false, false, false, false)

  /** Nothing is collected and the consumer worker is joined. */
  const JOINED := Collection(false, false, false, false, false, true)

  /** Lowercase letters and underscores: what the runtimes' own texts are put together from. */
  predicate Plain(s: string) { forall i :: 0 <= i < |s| ==> 'a' <= s[i] <= 'z' || s[i] == '_' }

  type Word = s: string | Plain(s) witness ""

  const ETW_: Word := "etw_"
  const DNS_: Word := "windows_dns_"
  const AUTH_: Word := "windows_auth_remote_"
  const SERVICEHOST_: Word := "servicehost_"
  const SENSING_: Word := "sensing_"
  const LIFECYCLE_: Word := "lifecycle_"
  const CONTROL_: Word := "control_"
  const EVENT_LOG_: Word := "event_log_"
  const REF: Word := "ref"
  const RUNTIME: Word := "runtime"
  const INITIALIZED: Word := "initialized"
  const ACTIVATION_AUTHORIZED: Word := "activation_authorized"
  const PAUSE_COMPLETED: Word := "pause_completed"
  const RESUME_COMPLETED: Word := "resume_completed"
  const STOP_COMPLETED: Word := "stop_completed"
  const SESSION_STOPPED: Word := "session_stopped"
  const SHUTDOWN: Word := "shutdown"
  const THREAD_JOIN_FAILED: Word := "thread_join_failed"

  /** Only the ETW runtime audits pauses and resumes, so the other two have no entry for them. */
  function ProfileOf(kind: Kind): (p: Profile)
    ensures p.kind == kind
  {
    match kind
    case Etw => Profile(
      Etw, ETW_ + LIFECYCLE_ + REF, ETW_ + LIFECYCLE_ + INITIALIZED, SERVICEHOST_ + ETW_ + LIFECYCLE_ + RUNTIME,
      ETW_ + ACTIVATION_AUTHORIZED, ETW_ + PAUSE_COMPLETED, ETW_ + RESUME_COMPLETED, ETW_ + STOP_COMPLETED,
      ETW_ + CONTROL_ + SESSION_STOPPED, ETW_ + CONTROL_ + THREAD_JOIN_FAILED)
    case Dns => Profile(
      Dns, DNS_ + SENSING_ + LIFECYCLE_ + REF, DNS_ + SENSING_ + INITIALIZED,
      SERVICEHOST_ + DNS_ + SENSING_ + RUNTIME, DNS_ + ACTIVATION_AUTHORIZED, "", "", DNS_ + STOP_COMPLETED,
      DNS_ + CONTROL_ + SESSION_STOPPED, DNS_ + CONTROL_ + THREAD_JOIN_FAILED)
    case AuthRemote => Profile(
      AuthRemote, AUTH_ + SENSING_ + LIFECYCLE_ + REF, AUTH_ + SENSING_ + INITIALIZED,
      SERVICEHOST_ + AUTH_ + SENSING_ + RUNTIME, AUTH_ + ACTIVATION_AUTHORIZED, "", "", AUTH_ + STOP_COMPLETED,
      AUTH_ + EVENT_LOG_ + SESSION_STOPPED, AUTH_ + CONTROL_ + THREAD_JOIN_FAILED)
  }

  function New(profile: Profile, owner: Owner, fallback: Fallback): Runtime {
    var notes := Notes(
      profile.lifecycleRef, owner.ownershipRef, owner.ownershipEpoch,
      if profile.kind == Etw then fallback else PortableMetadataOnly,
      Some("explicit_authorization_required"), [profile.initialEntry], [profile.provenanceRef]);
    var status := Status(
      Inactive, NotCreated, Required, false, false, IDLE, Events(0, 0, 0, 0, 0), Handoff(0, 0, 0),
      Tally(0, 0, 0, 0, 0), [], notes);
    Runtime(profile, owner, status, None, None)
  }

  function SessionOf(c: ControlState): Session {
    match c
    case ControlActive => SessionActive
    case ControlPaused => SessionPaused
    case ControlStopped => SessionStopped
    case ControlInactive => NotCreated
    case ControlUnavailable => SessionUnavailable
  }

  /** Whether the outcome says that a new collection session was opened. */
  predicate OpensSession(o: Outcome) {
    if o.TraceOutcome? then o.traceSessionCreated else o.providerEnabled
  }

  function Max(a: u32, b: u32): u32 { if a < b then b else a }

  function CollectionOf(o: Outcome): Collection {
    match o
    case TraceOutcome(_, trace, provider, collecting, consumer, active, joined, _, _, _, _, _, _, _) =>
      Collection(trace, provider, collecting, consumer, active, joined)
    case EventLogOutcome(_, provider, collecting, consumer, active, joined, _, _, _, _, _, _, _, _) =>
      Collection(provider, provider, collecting, consumer, active, joined)
  }

  function EventsOf(o: Outcome): Events {
    match o
    case TraceOutcome(_, _, _, _, _, _, _, raw, normalized, dropped, rate, schema, _, _) =>
      Events(raw, normalized, dropped, rate, schema)
    case EventLogOutcome(_, _, _, _, _, _, raw, auth, remote, dropped, rate, schema, _, _) =>
      Events(raw, Max(auth, remote), dropped, rate, schema)
  }

  function ApplyRuntimeOutcome(s: Status, o: Outcome): Status {
    s.(collection := CollectionOf(o), events := EventsOf(o), notes := s.notes.(degradedReason := o.degradedReason))
  }

  function ApplyOutcome(s: Status, reply: Reply, success: Lifecycle, countGeneration: bool): Status {
    match reply
    case Ok(o) =>
      var counted :=
        if countGeneration && OpensSession(o) then s.tally.(generation := Bump(s.tally.generation)) else s.tally;
      ApplyRuntimeOutcome(s.(lifecycle := success, session := SessionOf(o.state), tally := counted), o)
    case Err(reason) =>
      s.(lifecycle := Degraded, session := SessionUnavailable, collection := JOINED,
      notes := s.notes.(degradedReason := Some(reason)))
  }

  /** Only the ETW runtime takes a fallback state with each call. */
  function WithFallback(p: Profile, notes: Notes, fallback: Fallback): Notes {
    if p.kind == Etw then notes.(fallback := fallback) else notes
  }

  function BeginActivation(p: Profile, s: Status, refs: seq<string>, fallback: Fallback): Status {
    s.(lifecycle := Activating, authorization := Authorized, authorizationRefs := BoundedRefs(refs),
    threadJoined := false, notes := WithFallback(p, s.notes, fallback))
  }

  function FinishActivation(p: Profile, s: Status, started: Reply): Status {
    var applied := ApplyOutcome(s.(threadActive := true), started, Active, true);
    applied.(
    tally := applied.tally.(activations := Bump(applied.tally.activations)),
    notes := Audited(applied.notes, p.activationEntry))
  }

  function BeginCommand(p: Profile, s: Status, transit: Lifecycle, refs: seq<string>, fallback: Fallback): Status {
    s.(lifecycle := transit, authorizationRefs := BoundedRefs(refs), notes := WithFallback(p, s.notes, fallback))
  }

  /** Only the ETW runtime leaves an audit entry for a pause or a resume. */
  function FinishPause(p: Profile, s: Status, o: Outcome): Status {
    var applied := ApplyOutcome(s, Ok(o), Paused, false);
    applied.(
    tally := applied.tally.(pauses := Bump(applied.tally.pauses)),
    notes := if p.kind == Etw then Audited(applied.notes, p.pauseEntry) else applied.notes)
  }

  function FinishResume(p: Profile, s: Status, o: Outcome): Status {
    var applied := ApplyOutcome(s, Ok(o), Active, true);
    applied.(
    tally := applied.tally.(resumes := Bump(applied.tally.resumes)),
    notes := if p.kind == Etw then Audited(applied.notes, p.resumeEntry) else applied.notes)
  }

  function Cleared(s: Status): Status {
    s.(lifecycle := Stopped, session := SessionStopped, authorization := Invalidated,
    threadActive := false, threadJoined := true, collection := JOINED)
  }

  /** Stopping a runtime that has no control thread. The ETW runtime keeps its last reason. */
  function StopWithoutThread(p: Profile, s: Status, refs: seq<string>, fallback: Fallback): Status {
    var notes := WithFallback(p, s.notes, fallback);
    Cleared(s).(
    authorizationRefs := BoundedRefs(refs),
    notes := if p.kind == Etw then notes else notes.(degradedReason := Some(p.stopReason)))
  }

  /** The thread was joined. The other two runtimes pass their already bounded refs through the bound again. */
  function FinishStop(p: Profile, s: Status): Status {
    Cleared(s).(
    authorizationRefs := if p.kind == Etw then s.authorizationRefs else BoundedRefs(s.authorizationRefs),
    tally := s.tally.(stops := Bump(s.tally.stops)),
    notes := Audited(s.notes.(degradedReason := Some(p.stopReason)), p.stopEntry))
  }

  /** The join failed. Only the ETW runtime clears the trace and worker flags here. */
  function FailStop(p: Profile, s: Status): Status {
    s.(lifecycle := Failed, session := SessionUnavailable, threadActive := false, threadJoined := false,
    collection := if p.kind == Etw then s.collection.(traceSession := false, workerActive := false) else s.collection,
    notes := s.notes.(degradedReason := Some(p.joinReason)))
  }

  function RecordedHandoff(s: Status, batches: u32, publications: u32, facts: u32): Status {
    s.(handoff := Handoff(
      SaturatingAdd(s.handoff.batches, batches),
      SaturatingAdd(s.handoff.publications, publications),
      SaturatingAdd(s.handoff.facts, facts)))
  }

  // ---------- Calls ----------

  function OwnerError(runtime: Runtime, ctx: Owner): Option<Error> {
    if ctx.category != ServiceHost || !ctx.serviceOwned || ctx.ownershipRef != runtime.owner.ownershipRef
    then Some(OwnerMismatch)
    else if ctx.ownershipEpoch != runtime.owner.ownershipEpoch then Some(StaleEpoch)
    else None
  }

  /** The answer as `send_command` hands it to its caller: an outcome or an error. */
  function SendResult(sender: Option<nat>, answer: Answer): Result<Outcome, Error> {
    if sender.None? then Err(ThreadUnavailable)
    else
      match answer
      case SendRejected => Err(CommandRejected)
      case ResponseLost => Err(ResponseUnavailable)
      case Answered(Ok(o)) => Ok(o)
      case Answered(Err(reason)) => Err(AdapterError(reason))
  }

  function DoActivate(r: Runtime, refs: seq<string>, fallback: Fallback, env: Env): (Runtime, Ending) {
    if r.handle.Some? && r.status.lifecycle in {Active, Degraded} then (r, Returns(StatusReturned(r.status)))
    else
      var begun := r.(status := BeginActivation(r.profile, r.status, refs, fallback));
      match env.started
      case None => (begun, Fails(StartFailed))
      case Some(reply) =>
        var status := FinishActivation(r.profile, begun.status, reply);
        (begun.(status := status, sender := Some(env.spawned), handle := Some(env.spawned)),
         Checked(StatusReturned(status)))
  }

  function DoPause(r: Runtime, refs: seq<string>, fallback: Fallback, env: Env): (Runtime, Ending) {
    if r.status.lifecycle == Paused then (r, Returns(StatusReturned(r.status)))
    else
      var begun := r.(status := BeginCommand(r.profile, r.status, Pausing, refs, fallback));
      match SendResult(r.sender, env.answer)
      case Err(e) => (begun, Fails(e))
      case Ok(o) =>
        var status := FinishPause(r.profile, begun.status, o);
        (begun.(status := status), Checked(StatusReturned(status)))
  }

  function DoResume(r: Runtime, refs: seq<string>, fallback: Fallback, env: Env): (Runtime, Ending) {
    if r.status.lifecycle == Active then (r, Returns(StatusReturned(r.status)))
    else
      var begun := r.(status := BeginCommand(r.profile, r.status, Resuming, refs, fallback));
      match SendResult(r.sender, env.answer)
      case Err(e) => (begun, Fails(e))
      case Ok(o) =>
        var status := FinishResume(r.profile, begun.status, o);
        (begun.(status := status), Checked(StatusReturned(status)))
  }

  function DoStop(r: Runtime, refs: seq<string>, fallback: Fallback, env: Env): (Runtime, Ending) {
    if r.handle.None? then
      var status := StopWithoutThread(r.profile, r.status, refs, fallback);
      (r.(status := status), Checked(StatusReturned(status)))
    else
      var begun := r.(status := BeginCommand(r.profile, r.status, Stopping, refs, fallback));
      match SendResult(r.sender, env.answer)
      case Err(e) => (begun, Fails(e))
      case Ok(o) =>
        var applied := begun.(status := ApplyRuntimeOutcome(begun.status, o), sender := None, handle := None);
        if env.joined then
          var status := FinishStop(r.profile, applied.status);
          (applied.(status := status), Checked(StatusReturned(status)))
        else
          (applied.(status := FailStop(r.profile, applied.status)), Fails(JoinFailed))
  }

  function DoDrain(r: Runtime, env: Env): (Runtime, Ending) {
    if r.status.lifecycle != Active then (r, Returns(BatchesReturned([])))
    else
      match SendResult(r.sender, env.answer)
      case Err(e) => (r, Fails(e))
      case Ok(o) =>
        var status := ApplyOutcome(r.status, Ok(o), Active, false);
        (r.(status := status), Checked(BatchesReturned(o.batches)))
  }

  const SHUTDOWN_REFS: seq<string> := [SERVICEHOST_ + SHUTDOWN]

  function Dispatch(r: Runtime, call: Call, env: Env): (Runtime, Ending) {
    match call
    case Activate(_, refs, fallback) => DoActivate(r, refs, fallback, env)
    case PauseCall(_, refs, fallback) => DoPause(r, refs, fallback, env)
    case ResumeCall(_, refs, fallback) => DoResume(r, refs, fallback, env)
    case StopCall(_, refs, fallback) => DoStop(r, refs, fallback, env)
    case Shutdown(fallback) => DoStop(r, SHUTDOWN_REFS, fallback, env)
    case DrainCall(_, _) => DoDrain(r, env)
    case RecordHandoff(_, batches, publications, facts) =>
      var status := RecordedHandoff(r.status, batches, publications, facts);
      (r.(status := status), Checked(StatusReturned(status)))
  }

  /** Why the caller is turned away, if it is. Shutting down asks for no owner. */
  function Refusal(r: Runtime, call: Call): Option<Error> {
    if call.Shutdown? then None else OwnerError(r, call.ctx)
  }

  /** One owner call, from entry to return. */
  function Perform(r: Runtime, call: Call, env: Env): (Runtime, Ending) {
    if Refusal(r, call).Some? then (r, Fails(Refusal(r, call).value)) else Dispatch(r, call, env)
  }

  /** What the caller is given. */
  function Report(after: Runtime, ending: Ending): CallResult {
    match ending
    case Returns(value) => Ok(value)
    case Fails(error) => Err(error)
    case Checked(value) => if Valid(after.status) then Ok(value) else Err(ContractViolated)
  }

  datatype Step = Step(call: Call, env: Env)

  /** The owner object after a history of calls. */
  function Replay(r: Runtime, history: seq<Step>): Runtime {
    if history == [] then r
    else
      var last := history[|history| - 1];
      Perform(Replay(r, history[..|history| - 1]), last.call, last.env).0
  }
}
