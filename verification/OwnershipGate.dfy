/** Who owns the runtime as the desktop sees it, and the gate that lets it build one of its own. */
module OwnershipGate {
  import opened Wrappers

  datatype Mode =
    | Unresolved
    | PortableInProcess
    | ServiceOwned
    | ServiceDegraded
    | ServiceUnavailable
    | ProtocolIncompatible
    | OwnershipTransitionPending
    | ShutdownInProgress
    | Failed

  datatype ClientState = Connected | ExplicitFallback | Unavailable | Incompatible | Degraded | ReconnectPending

  datatype Reason =
    | FallbackSelected
    | ConnectionLost
    | DuplicateNotRuledOut
    | FallbackNeedsValidation
    | ServiceOwnedActive
    | FallbackNotAuthorized
    | ProtocolReason
    | ExplicitFallbackRequired
    | OwnershipNotAvailable
    | Given(text: string)

  datatype Status = Status(
    mode: Mode,
    connected: bool,
    client: ClientState,
    protocolValid: bool,
    schemaValid: bool,
    explicitFallback: bool,
    duplicateRuledOut: bool,
    cachedStale: bool,
    attempts: nat,
    localRuntime: bool,
    localNative: bool,
    schedulerOwned: bool,
    reason: Option<Reason>,
    summaryEpoch: Option<nat>)

  datatype Gate = Gate(mode: Mode, production: bool, portable: bool, native: bool, blocked: Option<Reason>)

  datatype GateError = RuntimeOwnerMismatch

  // ---------- Where statuses come from ----------

  function OwnedByService(epoch: nat): Status {
    Status(ServiceOwned, true, Connected, true, true, false, false, false, 0, false, false, false, None, Some(epoch))
  }

  function PortableFallback(): Status {
    Status(PortableInProcess, false, ExplicitFallback, false, false, true, true, false, 0, true, false, false,
           Some(FallbackSelected), None)
  }

  function UnavailableService(reason: string, explicitFallback: bool): Status {
    if explicitFallback then PortableFallback()
    else
      Status(ServiceUnavailable, false, Unavailable, false, false, false, false, true, 0, false, false, false,
             Some(Given(reason)), None)
  }

  function IncompatibleProtocol(reason: string): Status {
    Status(ProtocolIncompatible, true, Incompatible, false, false, false, false, true, 0, false, false, false,
           Some(Given(reason)), None)
  }

  function DegradedService(reason: string): Status {
    Status(ServiceDegraded, true, Degraded, true, true, false, false, true, 0, false, false, false,
           Some(Given(reason)), None)
  }

  function SaturatingInc8(a: nat): nat { if a >= 255 then 255 else a + 1 }

  function Min(a: nat, b: nat): nat { if a < b then a else b }

  function Disconnect(s: Status): Status {
    var marked :=
      if s.mode == ServiceOwned then
        s.(mode := ServiceDegraded, connected := false, client := ReconnectPending, cachedStale := true,
        attempts := Min(SaturatingInc8(s.attempts), 3), reason := Some(ConnectionLost))
      else s;
    marked.(localRuntime := false, localNative := false, schedulerOwned := false)
  }

  function AfterReconnect(next: Status): Status {
    next.(localRuntime := false, localNative := false, schedulerOwned := false)
  }

  /** The shared ownership state, replaced and marked in place. */
  class OwnershipState {
    var status: Status

    constructor (initial: Status)
      ensures status == initial
    {
      status := initial;
    }

    method MarkServiceDisconnected() returns (r: Status)
      modifies this
      ensures status == Disconnect(old(status)) && r == status
    {
      if status.mode == ServiceOwned {
        status := status.(mode := ServiceDegraded);
        status := status.(connected := false, client := ReconnectPending);
        status := status.(cachedStale := true);
        status := status.(attempts := Min(SaturatingInc8(status.attempts), 3));
        status := status.(reason := Some(ConnectionLost));
      }
      status := status.(localRuntime := false, localNative := false);
      status := status.(schedulerOwned := false);
      return status;
    }

    method ReplaceAfterReconnect(next: Status) returns (r: Status)
      modifies this
      ensures status == AfterReconnect(next) && r == status
    {
      status := next.(localRuntime := false, localNative := false, schedulerOwned := false);
      return status;
    }
  }

  // ---------- The gate ----------

  predicate LocalCoreAllowed(s: Status) { s.mode == PortableInProcess && s.explicitFallback }

  function ModeGate(mode: Mode, explicitFallback: bool): Result<Gate, GateError> {
    var refused := Gate(mode, false, false, false, None);
    var fallback := Gate(mode, explicitFallback, explicitFallback, false, None);
    match mode
    case ServiceOwned => Err(RuntimeOwnerMismatch)
    case PortableInProcess =>
      Ok(if explicitFallback then fallback else fallback.(blocked := Some(FallbackNotAuthorized)))
    case ProtocolIncompatible => Ok(refused.(blocked := Some(ProtocolReason)))
    case ServiceUnavailable =>
      Ok(if explicitFallback then fallback else fallback.(blocked := Some(ExplicitFallbackRequired)))
    case ServiceDegraded =>
      Ok(if explicitFallback then fallback else fallback.(blocked := Some(ExplicitFallbackRequired)))
    case Unresolved => Ok(refused.(blocked := Some(OwnershipNotAvailable)))
    case OwnershipTransitionPending => Ok(refused.(blocked := Some(OwnershipNotAvailable)))
    case ShutdownInProgress => Ok(refused.(blocked := Some(OwnershipNotAvailable)))
    case Failed => Ok(refused.(blocked := Some(OwnershipNotAvailable)))
  }

  function StatusGate(s: Status, explicitFallback: bool): Result<Gate, GateError> {
    if LocalCoreAllowed(s) then ModeGate(PortableInProcess, true)
    else
      var gate := Gate(s.mode, false, false, false, s.reason);
      if explicitFallback then
        if s.duplicateRuledOut then Ok(Gate(PortableInProcess, true, true, false, None))
        else Ok(gate.(blocked := Some(DuplicateNotRuledOut)))
      else if s.mode in {ServiceDegraded, ServiceUnavailable, ProtocolIncompatible} then
        Ok(gate.(blocked := Some(FallbackNeedsValidation)))
      else if s.mode == ServiceOwned then Ok(gate.(blocked := Some(ServiceOwnedActive)))
      else Ok(gate)
  }

  /** What the gate says of a status however it came about; GateOnReachableStatuses is what follows from it. */
  lemma GateOpensExactlyWhen(s: Status, explicitFallback: bool)
    ensures StatusGate(s, explicitFallback).Ok?
    ensures var gate := StatusGate(s, explicitFallback).value;
            && (gate.production <==> LocalCoreAllowed(s) || (explicitFallback && s.duplicateRuledOut))
            && gate.portable == gate.production && !gate.native
  {}

  // ---------- Reachable statuses ----------

  /** How a status came about: built, then marked or replaced by another that came about likewise. */
  datatype Path =
    | Owned(epoch: nat)
    | Fallback
    | NoService(reason: string, explicitFallback: bool)
    | NoProtocol(reason: string)
    | Degrades(reason: string)
    | Disconnects(before: Path)
    | Replaces(before: Path, next: Path)

  function StatusOf(p: Path): Status {
    match p
    case Owned(epoch) => OwnedByService(epoch)
    case Fallback => PortableFallback()
    case NoService(reason, explicitFallback) => UnavailableService(reason, explicitFallback)
    case NoProtocol(reason) => IncompatibleProtocol(reason)
    case Degrades(reason) => DegradedService(reason)
    case Disconnects(before) => Disconnect(StatusOf(before))
    case Replaces(_, next) => AfterReconnect(StatusOf(next))
  }

  predicate Coherent(s: Status) {
    && s.mode in {ServiceOwned, PortableInProcess, ServiceUnavailable, ProtocolIncompatible, ServiceDegraded}
    && (s.duplicateRuledOut <==> s.mode == PortableInProcess)
    && (s.explicitFallback <==> s.mode == PortableInProcess)
    && !s.localNative && !s.schedulerOwned
    && (s.localRuntime ==> s.mode == PortableInProcess)
    && (s.mode == ServiceOwned ==> s.attempts == 0 && s.connected && s.summaryEpoch.Some?)
    && s.attempts == (if s.client == ReconnectPending then 1 else 0)
    && (s.client == ReconnectPending ==> s.mode == ServiceDegraded && !s.connected && s.cachedStale)
  }

  lemma {:induction false} ReachableCoherent(p: Path)
    ensures Coherent(StatusOf(p))
  {
    match p
    case Disconnects(before) => ReachableCoherent(before);
    case Replaces(_, next) => ReachableCoherent(next);
    case _ =>
  }

  /**
   * On every reachable status, and for either request, the gate permits a production runtime exactly when the
   * status is the explicit portable fallback; it never permits a native one; a refusal names its reason; and
   * the reconnect counter, capped at 3, never gets past 1.
   */
  lemma GateOnReachableStatuses(p: Path, explicitFallback: bool)
    ensures var s := StatusOf(p);
            && StatusGate(s, explicitFallback).Ok?
            && var gate := StatusGate(s, explicitFallback).value;
            && (gate.production <==> LocalCoreAllowed(s))
            && gate.portable == gate.production && !gate.native
            && gate.mode == (if gate.production then PortableInProcess else s.mode)
            && gate.blocked == (if gate.production then None
                                else if explicitFallback then Some(DuplicateNotRuledOut)
                                else if s.mode == ServiceOwned then Some(ServiceOwnedActive)
                                else Some(FallbackNeedsValidation))
            && s.attempts <= 1 && !s.localNative
  {
    ReachableCoherent(p);
    GateOpensExactlyWhen(StatusOf(p), explicitFallback);
  }

  // ---------- What a reachable status says ----------

  /** The constructor that the status goes back to. */
  function Root(p: Path): (r: Path)
    ensures !r.Disconnects? && !r.Replaces?
  {
    match p
    case Disconnects(before) => Root(before)
    case Replaces(_, next) => Root(next)
    case _ => p
  }

  /** The status was marked disconnected since it was built. */
  predicate Lost(p: Path) {
    match p
    case Disconnects(_) => true
    case Replaces(_, next) => Lost(next)
    case _ => false
  }

  predicate Portable(p: Path) { Root(p).Fallback? || (Root(p).NoService? && Root(p).explicitFallback) }

  predicate Says(s: Status, mode: Mode, client: ClientState, reason: Option<Reason>) {
    s.mode == mode && s.client == client && s.reason == reason
  }

  /** Connected, protocol and schema valid, caches stale. */
  predicate Flags(s: Status, connected: bool, protocolValid: bool, schemaValid: bool, stale: bool) {
    s.connected == connected && s.protocolValid == protocolValid && s.schemaValid == schemaValid
    && s.cachedStale == stale
  }

  /**
   * A status says what the constructor it goes back to made of it, and a disconnect tells only on a service-owned one.
   * It has a local runtime exactly if it is portable and was neither marked disconnected nor put in by a replacement.
   */
  lemma {:induction false} StatusByRoot(p: Path)
    ensures var s := StatusOf(p);
            && (match Root(p)
                case Owned(epoch) =>
                  s.summaryEpoch == Some(epoch)
                  && if Lost(p) then
                       Says(s, ServiceDegraded, ReconnectPending, Some(ConnectionLost))
                       && Flags(s, false, true, true, true) && s.attempts == 1
                     else
                       Says(s, ServiceOwned, Connected, None) && Flags(s, true, true, true, false) && s.attempts == 0
                case NoProtocol(reason) =>
                  Says(s, ProtocolIncompatible, Incompatible, Some(Given(reason)))
                  && Flags(s, true, false, false, true) && s.attempts == 0 && s.summaryEpoch.None?
                case Degrades(reason) =>
                  Says(s, ServiceDegraded, Degraded, Some(Given(reason)))
                  && Flags(s, true, true, true, true) && s.attempts == 0 && s.summaryEpoch.None?
                case NoService(reason, explicitFallback) =>
                  Flags(s, false, false, false, !explicitFallback) && s.attempts == 0 && s.summaryEpoch.None?
                  && if explicitFallback then Says(s, PortableInProcess, ExplicitFallback, Some(FallbackSelected))
                     else Says(s, ServiceUnavailable, Unavailable, Some(Given(reason)))
                case Fallback =>
                  Flags(s, false, false, false, false) && s.attempts == 0 && s.summaryEpoch.None?
                  && Says(s, PortableInProcess, ExplicitFallback, Some(FallbackSelected))
                case Disconnects(_) => false
                case Replaces(_, _) => false)
            && s.explicitFallback == Portable(p) && s.duplicateRuledOut == Portable(p)
            && s.localRuntime == (Portable(p) && !p.Disconnects? && !p.Replaces?)
            && !s.localNative && !s.schedulerOwned
  {
    match p
    case Disconnects(before) => StatusByRoot(before);
    case Replaces(_, next) => StatusByRoot(next);
    case _ =>
  }

  // ---------- The gate by mode alone ----------

  /** What the gate for a bare mode says: an error for a service-owned one, and otherwise a reason for every refusal. */
  lemma ModeGateExactlyWhen(mode: Mode, explicitFallback: bool)
    ensures ModeGate(mode, explicitFallback)
            == if mode == ServiceOwned then Err(RuntimeOwnerMismatch)
               else if explicitFallback && mode in {PortableInProcess, ServiceUnavailable, ServiceDegraded} then
                 Ok(Gate(mode, true, true, false, None))
               else
                 Ok(Gate(mode, false, false, false,
                         Some(if mode == PortableInProcess then FallbackNotAuthorized
                              else if mode == ProtocolIncompatible then ProtocolReason
                              else if mode in {ServiceUnavailable, ServiceDegraded} then ExplicitFallbackRequired
                              else OwnershipNotAvailable)))
  {}

  /** Where the two gates part on a reachable status: over a fallback that only one of them takes as established. */
  lemma GatesPartExactlyWhen(p: Path, explicitFallback: bool)
    ensures var s := StatusOf(p);
            var byMode := ModeGate(s.mode, explicitFallback);
            var production := StatusGate(s, explicitFallback).value.production;
            (byMode.Ok? && byMode.value.production) != production
            <==> if explicitFallback then s.mode in {ServiceUnavailable, ServiceDegraded}
                 else s.mode == PortableInProcess
  {
    ReachableCoherent(p);
    GateOpensExactlyWhen(StatusOf(p), explicitFallback);
    ModeGateExactlyWhen(StatusOf(p).mode, explicitFallback);
  }
}
