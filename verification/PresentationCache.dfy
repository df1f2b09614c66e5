/** The desktop's cache of service read models: one record per command for the owner epoch in force. */
module PresentationCache {
  import opened Wrappers

  /** Read commands in the order the service declares them. */
  type CommandId = n: nat | n < 25

  const COMMANDS: nat := 25

  datatype Freshness = Fresh | Aging | Stale | Unavailable

  function Rank(f: Freshness): nat {
    match f case Fresh => 0 case Aging => 1 case Stale => 2 case Unavailable => 3
  }

  datatype Connection = Connected | Disconnected | ReconnectPending | ProtocolIncompatible

  datatype Reason =
    | ServiceDisconnected
    | SnapshotStale
    | CanonicalOwnerUnavailable
    | ReconnectIsPending
    | FallbackNeedsValidation
    | ProtocolIsIncompatible
    | NotServiceOwned
    | Given(text: string)

  /** A service answer; `valid` says whether it meets the declaration of its command. */
  datatype Response = Response(
    snapshotRef: nat,
    command: CommandId,
    epoch: nat,
    freshness: Freshness,
    degradedReason: Option<Reason>,
    truncated: bool,
    itemCount: nat,
    valid: bool)

  datatype Record = Record(
    snapshotRef: nat,
    command: CommandId,
    epoch: nat,
    freshness: Freshness,
    connection: Connection,
    degradedReason: Option<Reason>,
    superseded: bool,
    truncated: bool,
    itemCount: nat)

  datatype Snapshot = Snapshot(
    connection: Connection,
    freshness: Freshness,
    epoch: Option<nat>,
    records: seq<Record>,
    superseded: seq<Record>,
    reasons: seq<Reason>,
    reconnectPending: bool)

  datatype Mode = ServiceOwned | Incompatible | DegradedOrUnavailable | OtherMode

  /** What the cache reads of an ownership status. */
  datatype Ownership = Ownership(mode: Mode, reason: Option<Reason>, summaryEpoch: Option<nat>)

  const DISCONNECTED_REASONS := [
    ServiceDisconnected, SnapshotStale, CanonicalOwnerUnavailable, ReconnectIsPending, FallbackNeedsValidation
  ]

  function FromOwnership(o: Ownership): Snapshot {
    match o.mode
    case ServiceOwned => Snapshot(Connected, Fresh, o.summaryEpoch, [], [], [], false)
    case Incompatible =>
      Snapshot(
        ProtocolIncompatible, Unavailable, o.summaryEpoch, [], [],
        [ProtocolIsIncompatible, CanonicalOwnerUnavailable, FallbackNeedsValidation], false)
    case DegradedOrUnavailable =>
      Snapshot(Connection.ReconnectPending, Stale, o.summaryEpoch, [], [], DISCONNECTED_REASONS, true)
    case OtherMode => Snapshot(Disconnected, Unavailable, o.summaryEpoch, [], [], [CanonicalOwnerUnavailable], false)
  }

  // ---------- Records ----------

  function FromResponse(r: Response, connection: Connection): Record {
    Record(r.snapshotRef, r.command, r.epoch, r.freshness, connection, r.degradedReason, false, r.truncated,
           r.itemCount)
  }

  function MarkStale(record: Record, connection: Connection): Record {
    record.(freshness := Stale, connection := connection, degradedReason := Some(SnapshotStale))
  }

  function MarkAllStale(records: seq<Record>, connection: Connection): (r: seq<Record>)
    ensures |r| == |records|
    ensures forall i :: 0 <= i < |r| ==> r[i] == MarkStale(records[i], connection)
  {
    seq(|records|, i requires 0 <= i < |records| => MarkStale(records[i], connection))
  }

  function Retire(record: Record): Record {
    MarkStale(record.(superseded := true), Connected)
  }

  function RetireAll(records: seq<Record>): (r: seq<Record>)
    ensures |r| == |records|
    ensures forall i :: 0 <= i < |r| ==> r[i] == Retire(records[i])
  {
    seq(|records|, i requires 0 <= i < |records| => Retire(records[i]))
  }

  function Without(records: seq<Record>, command: CommandId): seq<Record> {
    if records == [] then []
    else if records[0].command == command then Without(records[1..], command)
    else [records[0]] + Without(records[1..], command)
  }

  predicate KeyBefore(a: Record, b: Record) {
    a.epoch < b.epoch || (a.epoch == b.epoch && a.command < b.command)
  }

  function InsertAfterEqual(records: seq<Record>, record: Record): seq<Record> {
    if records == [] then [record]
    else if KeyBefore(record, records[0]) then [record] + records
    else [records[0]] + InsertAfterEqual(records[1..], record)
  }

  /** The stable sort by epoch and command. */
  function SortByKey(records: seq<Record>): seq<Record> {
    if records == [] then []
    else InsertAfterEqual(SortByKey(records[..|records| - 1]), records[|records| - 1])
  }

  function StalerOf(a: Freshness, b: Freshness): Freshness {
    if Rank(a) < Rank(b) then b else a
  }

  /** The greatest freshness value present. */
  function Stalest(records: seq<Record>): (f: Freshness)
    requires records != []
    ensures forall i :: 0 <= i < |records| ==> Rank(records[i].freshness) <= Rank(f)
    ensures exists i :: 0 <= i < |records| && records[i].freshness == f
  {
    if |records| == 1 then
      assert records[0].freshness == records[0].freshness;
      records[0].freshness
    else
      var rest := Stalest(records[1..]);
      var f := StalerOf(records[0].freshness, rest);
      assert exists i :: 0 <= i < |records| && records[i].freshness == f by {
        if f == rest {
          var i :| 0 <= i < |records[1..]| && records[1..][i].freshness == rest;
          assert records[i + 1].freshness == f;
        } else {
          assert records[0].freshness == f;
        }
      }
      f
  }

  function HeaderFreshness(records: seq<Record>): Freshness {
    if records == [] then Unavailable else Stalest(records)
  }

  // ---------- Calls ----------

  function Supersede(s: Snapshot): Snapshot {
    s.(superseded := s.superseded + RetireAll(s.records), records := [])
  }

  /** Moves to an epoch, retiring the records of another one. */
  function AdoptForInstall(s: Snapshot, epoch: nat): Snapshot {
    if s.epoch.Some? && s.epoch.value != epoch then Supersede(s).(epoch := Some(epoch))
    else s.(epoch := Some(epoch))
  }

  function InstallValid(s: Snapshot, r: Response): Snapshot {
    var adopted := AdoptForInstall(s, r.epoch);
    var records := SortByKey(Without(adopted.records, r.command) + [FromResponse(r, s.connection)]);
    adopted.(records := records, freshness := HeaderFreshness(records))
  }

  /** Responses are installed in turn; the first invalid one ends the work with what was done so far. */
  function InstallAll(s: Snapshot, responses: seq<Response>): (Snapshot, bool)
    decreases |responses|
  {
    if responses == [] then (s, true)
    else if !responses[0].valid then (s, false)
    else InstallAll(InstallValid(s, responses[0]), responses[1..])
  }

  datatype CacheCall =
    | Install(response: Response)
    | MarkDisconnected
    | MarkIncompatible(reason: Reason)
    | Reconnect(ownership: Ownership, responses: seq<Response>)

  function Incompatibly(s: Snapshot, reason: Reason): Snapshot {
    s.(connection := ProtocolIncompatible, freshness := Unavailable, reconnectPending := false,
    reasons := [reason, CanonicalOwnerUnavailable, FallbackNeedsValidation],
    records := MarkAllStale(s.records, ProtocolIncompatible))
  }

  function Disconnectedly(s: Snapshot): Snapshot {
    s.(connection := Connection.ReconnectPending, freshness := Stale, reconnectPending := true,
    reasons := DISCONNECTED_REASONS, records := MarkAllStale(s.records, Connection.ReconnectPending))
  }

  /** What a reconnect to a service-owned runtime asks for before it touches the cache. */
  predicate ReconnectAdmitted(o: Ownership, responses: seq<Response>) {
    && o.summaryEpoch.Some? && o.summaryEpoch.value != 0 && responses != []
    && forall i :: 0 <= i < |responses| ==> responses[i].epoch == o.summaryEpoch.value
  }

  function AdoptForReconnect(s: Snapshot, epoch: nat): Snapshot {
    var adopted := if s.epoch != Some(epoch) then Supersede(s).(epoch := Some(epoch)) else s;
    adopted.(connection := Connected, freshness := Fresh, reconnectPending := false, reasons := [])
  }

  /** The cache after a call, and whether the call returned Ok. */
  function Apply(s: Snapshot, call: CacheCall): (Snapshot, bool) {
    match call
    case Install(r) => if r.valid then (InstallValid(s, r), true) else (s, false)
    case MarkDisconnected => (Disconnectedly(s), true)
    case MarkIncompatible(reason) => (Incompatibly(s, reason), true)
    case Reconnect(o, responses) =>
      if o.mode != ServiceOwned then
        (Incompatibly(s, if o.reason.Some? then o.reason.value else NotServiceOwned), true)
      else if !ReconnectAdmitted(o, responses) then (s, false)
      else InstallAll(AdoptForReconnect(s, o.summaryEpoch.value), responses)
  }

  function Run(s: Snapshot, calls: seq<CacheCall>): Snapshot {
    if calls == [] then s else Apply(Run(s, calls[..|calls| - 1]), calls[|calls| - 1]).0
  }

  // ---------- The cache object ----------

  class Cache {
    var connection: Connection
    var freshness: Freshness
    var epoch: Option<nat>
    var records: seq<Record>
    var superseded: seq<Record>
    var reasons: seq<Reason>
    var reconnectPending: bool

    function View(): Snapshot
      reads this
    {
      Snapshot(connection, freshness, epoch, records, superseded, reasons, reconnectPending)
    }

    constructor (o: Ownership)
      ensures View() == FromOwnership(o)
    {
      var s := FromOwnership(o);
      connection, freshness, epoch := s.connection, s.freshness, s.epoch;
      records, superseded, reasons, reconnectPending := [], [], s.reasons, s.reconnectPending;
    }

    method MarkRecordsStale(to: Connection)
      modifies this`records
      ensures records == MarkAllStale(old(records), to)
    {
      var i := 0;
      while i < |records|
        invariant 0 <= i <= |records| == |old(records)|
        invariant forall j :: 0 <= j < i ==> records[j] == MarkStale(old(records)[j], to)
        invariant forall j :: i <= j < |records| ==> records[j] == old(records)[j]
      {
        records := records[i := MarkStale(records[i], to)];
        i := i + 1;
      }
    }

    method SupersedeCurrentRecords()
      modifies this`records, this`superseded
      ensures records == [] && superseded == old(superseded) + RetireAll(old(records))
    {
      var drained := records;
      records := [];
      var i := 0;
      while i < |drained|
        invariant 0 <= i <= |drained| && records == []
        invariant superseded == old(superseded) + RetireAll(drained)[..i]
      {
        superseded := superseded + [Retire(drained[i])];
        assert RetireAll(drained)[..i + 1] == RetireAll(drained)[..i] + [Retire(drained[i])];
        i := i + 1;
      }
      assert RetireAll(drained)[..i] == RetireAll(drained);
    }

    method CacheServiceResponse(r: Response) returns (ok: bool)
      modifies this
      ensures ok == r.valid && View() == if ok then InstallValid(old(View()), r) else old(View())
    {
      if !r.valid { return false; }
      var record := FromResponse(r, connection);
      if epoch.Some? {
        if epoch.value != record.epoch {
          SupersedeCurrentRecords();
          epoch := Some(record.epoch);
        }
      } else {
        epoch := Some(record.epoch);
      }
      records := Without(records, record.command);
      records := records + [record];
      records := SortByKey(records);
      freshness := HeaderFreshness(records);
      return true;
    }

    method InstallServiceSnapshot(r: Response) returns (ok: bool)
      modifies this
      ensures (View(), ok) == Apply(old(View()), Install(r))
    {
      ok := CacheServiceResponse(r);
    }

    method Disconnect()
      modifies this
      ensures (View(), true) == Apply(old(View()), CacheCall.MarkDisconnected)
    {
      connection := Connection.ReconnectPending;
      freshness := Stale;
      reconnectPending := true;
      reasons := DISCONNECTED_REASONS;
      MarkRecordsStale(Connection.ReconnectPending);
    }

    method MarkProtocolIncompatible(reason: Reason)
      modifies this
      ensures (View(), true) == Apply(old(View()), MarkIncompatible(reason))
    {
      connection := ProtocolIncompatible;
      freshness := Unavailable;
      reconnectPending := false;
      reasons := [reason, CanonicalOwnerUnavailable, FallbackNeedsValidation];
      MarkRecordsStale(ProtocolIncompatible);
    }

    method ReplaceAfterReconnect(o: Ownership, responses: seq<Response>) returns (ok: bool)
      modifies this
      ensures (View(), ok) == Apply(old(View()), Reconnect(o, responses))
    {
      if o.mode != ServiceOwned {
        MarkProtocolIncompatible(if o.reason.Some? then o.reason.value else NotServiceOwned);
        return true;
      }
      if o.summaryEpoch.None? { return false; }
      var expected := o.summaryEpoch.value;
      if expected == 0 { return false; }
      if responses == [] { return false; }
      if exists i :: 0 <= i < |responses| && responses[i].epoch != expected { return false; }
      if epoch != Some(expected) {
        SupersedeCurrentRecords();
        epoch := Some(expected);
      }
      connection := Connected;
      freshness := Fresh;
      reconnectPending := false;
      reasons := [];
      var i := 0;
      while i < |responses|
        invariant 0 <= i <= |responses|
        invariant InstallAll(View(), responses[i..])
                  == InstallAll(AdoptForReconnect(old(View()), expected), responses)
      {
        ok := CacheServiceResponse(responses[i]);
        if !ok { return false; }
        assert responses[i..][1..] == responses[i + 1..];
        i := i + 1;
      }
      return true;
    }
  }
}
