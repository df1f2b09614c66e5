/** What the cache says of itself and of each record after any run of calls. */
module CacheHeaders {
  import opened Wrappers
  import opened PresentationCache

  // ---------- Which calls do something ----------

  /** A reconnect to a service-owned runtime that is let in: a non-zero epoch, and answers all of that epoch. */
  predicate LetsIn(call: CacheCall) {
    && call.Reconnect? && call.ownership.mode == ServiceOwned
    && call.ownership.summaryEpoch.Some? && call.ownership.summaryEpoch.value != 0 && call.responses != []
    && forall i :: 0 <= i < |call.responses| ==> call.responses[i].epoch == call.ownership.summaryEpoch.value
  }

  predicate BecomesIncompatible(call: CacheCall) {
    call.MarkIncompatible? || (call.Reconnect? && call.ownership.mode != ServiceOwned)
  }

  function ReasonGiven(call: CacheCall): Reason
    requires BecomesIncompatible(call)
  {
    if call.MarkIncompatible? then call.reason
    else if call.ownership.reason.Some? then call.ownership.reason.value
    else NotServiceOwned
  }

  predicate AllValid(responses: seq<Response>) { forall i :: 0 <= i < |responses| ==> responses[i].valid }

  lemma {:induction false} InstallsAllExactlyWhen(s: Snapshot, responses: seq<Response>)
    ensures InstallAll(s, responses).1 <==> AllValid(responses)
    decreases |responses|
  {
    if responses != [] {
      AllValidHead(responses);
      if responses[0].valid { InstallsAllExactlyWhen(InstallValid(s, responses[0]), responses[1..]); }
    }
  }

  lemma AllValidHead(responses: seq<Response>)
    requires responses != []
    ensures AllValid(responses) <==> responses[0].valid && AllValid(responses[1..])
  {
    if responses[0].valid && AllValid(responses[1..]) {
      forall i | 0 <= i < |responses| ensures responses[i].valid {
        if i > 0 { assert responses[1..][i - 1] == responses[i]; }
      }
    }
  }

  /** A call fails exactly on an invalid response or a reconnect not let in; only a reconnect let in fails late. */
  lemma OkExactlyWhen(s: Snapshot, call: CacheCall)
    ensures Apply(s, call).1
            <==> match call
                 case Install(r) => r.valid
                 case MarkDisconnected => true
                 case MarkIncompatible(_) => true
                 case Reconnect(o, responses) => o.mode != ServiceOwned || (LetsIn(call) && AllValid(responses))
    ensures !Apply(s, call).1 && !LetsIn(call) ==> Apply(s, call).0 == s
  {
    if LetsIn(call) {
      InstallsAllExactlyWhen(AdoptForReconnect(s, call.ownership.summaryEpoch.value), call.responses);
    }
  }

  // ---------- The header ----------

  /** The call sets connection, pending flag and reasons. */
  predicate SetsHeader(call: CacheCall) { call.MarkDisconnected? || BecomesIncompatible(call) || LetsIn(call) }

  predicate Header(s: Snapshot, connection: Connection, pending: bool, reasons: seq<Reason>) {
    s.connection == connection && s.reconnectPending == pending && s.reasons == reasons
  }

  predicate HeaderFits(s: Snapshot, call: CacheCall)
    requires SetsHeader(call)
  {
    if call.MarkDisconnected? then
      Header(s, Connection.ReconnectPending, true,
             [ServiceDisconnected, SnapshotStale, CanonicalOwnerUnavailable, ReconnectIsPending,
              FallbackNeedsValidation])
    else if BecomesIncompatible(call) then
      Header(s, ProtocolIncompatible, false, [ReasonGiven(call), CanonicalOwnerUnavailable, FallbackNeedsValidation])
    else Header(s, Connected, false, [])
  }

  predicate SameHeader(s: Snapshot, t: Snapshot) { Header(t, s.connection, s.reconnectPending, s.reasons) }

  lemma {:induction false} InstallsKeepHeader(s: Snapshot, responses: seq<Response>)
    ensures SameHeader(s, InstallAll(s, responses).0)
    decreases |responses|
  {
    if responses != [] && responses[0].valid { InstallsKeepHeader(InstallValid(s, responses[0]), responses[1..]); }
  }

  lemma CallSetsHeader(s: Snapshot, call: CacheCall)
    ensures var t := Apply(s, call).0; if SetsHeader(call) then HeaderFits(t, call) else SameHeader(s, t)
  {
    if LetsIn(call) {
      InstallsKeepHeader(AdoptForReconnect(s, call.ownership.summaryEpoch.value), call.responses);
    }
  }

  predicate LastHeader(calls: seq<CacheCall>, i: nat) {
    i < |calls| && SetsHeader(calls[i]) && forall j :: i < j < |calls| ==> !SetsHeader(calls[j])
  }

  /** Connection, pending flag and reasons are those of the last disconnect, incompatibility or reconnect let in. */
  lemma {:induction false} HeaderIsLastSet(o: Ownership, calls: seq<CacheCall>, i: nat)
    requires LastHeader(calls, i)
    ensures HeaderFits(Run(FromOwnership(o), calls), calls[i])
  {
    var n := |calls| - 1;
    var before := Run(FromOwnership(o), calls[..n]);
    CallSetsHeader(before, calls[n]);
    if i < n {
      assert !SetsHeader(calls[n]);
      HeaderIsLastSet(o, calls[..n], i);
    }
  }

  /** What the constructor says of each ownership mode. */
  predicate Began(s: Snapshot, mode: Mode) {
    match mode
    case ServiceOwned => Header(s, Connected, false, [])
    case Incompatible =>
      Header(s, ProtocolIncompatible, false,
             [ProtocolIsIncompatible, CanonicalOwnerUnavailable, FallbackNeedsValidation])
    case DegradedOrUnavailable =>
      Header(s, Connection.ReconnectPending, true,
             [ServiceDisconnected, SnapshotStale, CanonicalOwnerUnavailable, ReconnectIsPending,
              FallbackNeedsValidation])
    case OtherMode => Header(s, Disconnected, false, [CanonicalOwnerUnavailable])
  }

  /** What the constructor makes of the rest. */
  lemma BeginsEmpty(o: Ownership)
    ensures var s := FromOwnership(o);
            && s.records == [] && s.superseded == [] && s.epoch == o.summaryEpoch
            && s.freshness == (match o.mode
                               case ServiceOwned => Fresh
                               case Incompatible => Freshness.Unavailable
                               case DegradedOrUnavailable => Stale
                               case OtherMode => Freshness.Unavailable)
  {}

  /** Until the first such call the header is the constructor's. */
  lemma {:induction false} HeaderUntilFirstSet(o: Ownership, calls: seq<CacheCall>)
    requires forall i :: 0 <= i < |calls| ==> !SetsHeader(calls[i])
    ensures Began(Run(FromOwnership(o), calls), o.mode)
  {
    if calls != [] {
      var n := |calls| - 1;
      HeaderUntilFirstSet(o, calls[..n]);
      assert !SetsHeader(calls[n]);
      CallSetsHeader(Run(FromOwnership(o), calls[..n]), calls[n]);
    }
  }

  /** The header's freshness is the stalest among the live records. */
  predicate Tight(s: Snapshot) {
    && (forall i :: 0 <= i < |s.records| ==> Rank(s.records[i].freshness) <= Rank(s.freshness))
    && exists i :: 0 <= i < |s.records| && s.records[i].freshness == s.freshness
  }

  lemma {:induction false} InsertSome(records: seq<Record>, record: Record)
    ensures InsertAfterEqual(records, record) != []
  {}

  lemma InstallIsTight(s: Snapshot, r: Response)
    ensures Tight(InstallValid(s, r))
  {
    var adopted := AdoptForInstall(s, r.epoch);
    var all := Without(adopted.records, r.command) + [FromResponse(r, s.connection)];
    InsertSome(SortByKey(all[..|all| - 1]), all[|all| - 1]);
  }

  lemma {:induction false} InstallAllIsTight(s: Snapshot, responses: seq<Response>)
    requires responses != [] && responses[0].valid
    ensures Tight(InstallAll(s, responses).0)
    decreases |responses|
  {
    var after := InstallValid(s, responses[0]);
    InstallIsTight(s, responses[0]);
    if |responses| > 1 && responses[1].valid {
      assert responses[1..][0] == responses[1];
      InstallAllIsTight(after, responses[1..]);
    } else {
      NothingInstalled(after, responses[1..]);
    }
  }

  lemma NothingInstalled(s: Snapshot, responses: seq<Response>)
    requires responses == [] || !responses[0].valid
    ensures InstallAll(s, responses).0 == s
  {}

  lemma MarkedFreshness(s: Snapshot, call: CacheCall)
    requires call.MarkDisconnected? || BecomesIncompatible(call)
    ensures Apply(s, call).0.freshness == if call.MarkDisconnected? then Stale else Freshness.Unavailable
  {}

  lemma ReconnectedFreshness(s: Snapshot, call: CacheCall)
    requires LetsIn(call)
    ensures if call.responses[0].valid then Tight(Apply(s, call).0) else Apply(s, call).0.freshness == Fresh
  {
    var adopted := AdoptForReconnect(s, call.ownership.summaryEpoch.value);
    if call.responses[0].valid {
      InstallAllIsTight(adopted, call.responses);
    } else {
      NothingInstalled(adopted, call.responses);
    }
  }

  /** What each call makes of the header's freshness. */
  lemma FreshnessAfter(s: Snapshot, call: CacheCall)
    ensures call.MarkDisconnected? ==> Apply(s, call).0.freshness == Stale
    ensures BecomesIncompatible(call) ==> Apply(s, call).0.freshness == Freshness.Unavailable
    ensures call.Install? && call.response.valid ==> Tight(Apply(s, call).0)
    ensures LetsIn(call) && call.responses[0].valid ==> Tight(Apply(s, call).0)
    ensures LetsIn(call) && !call.responses[0].valid ==> Apply(s, call).0.freshness == Fresh
  {
    if call.MarkDisconnected? || BecomesIncompatible(call) { MarkedFreshness(s, call); }
    if call.Install? && call.response.valid { InstallIsTight(s, call.response); }
    if LetsIn(call) { ReconnectedFreshness(s, call); }
  }

  // ---------- The records ----------

  /** What happens to live records, one event at a time. */
  datatype Event = Installed(response: Response, connection: Connection) | Marked(connection: Connection)

  /** The valid responses in front of the first invalid one. */
  function Arrivals(responses: seq<Response>, connection: Connection): seq<Event> {
    if responses == [] || !responses[0].valid then []
    else [Installed(responses[0], connection)] + Arrivals(responses[1..], connection)
  }

  /** The events of a run; a response arrives under the connection that the header shows at the time. */
  function Events(o: Ownership, calls: seq<CacheCall>): seq<Event> {
    if calls == [] then []
    else
      var n := |calls| - 1;
      Events(o, calls[..n]) + EventsOf(calls[n], Run(FromOwnership(o), calls[..n]).connection)
  }

  function EventsOf(call: CacheCall, connection: Connection): seq<Event> {
    if call.MarkDisconnected? then [Marked(Connection.ReconnectPending)]
    else if BecomesIncompatible(call) then [Marked(ProtocolIncompatible)]
    else if call.Install? then Arrivals([call.response], connection)
    else if LetsIn(call) then Arrivals(call.responses, Connected)
    else []
  }

  predicate Touches(e: Event, command: CommandId) { e.Marked? || e.response.command == command }

  /** The event is the last to touch records of the command. */
  predicate LastTouch(events: seq<Event>, i: nat, command: CommandId) {
    i < |events| && Touches(events[i], command) && forall j :: i < j < |events| ==> !Touches(events[j], command)
  }

  /** Installed: as the response says, under the connection of the time. Marked since: stale, under the mark's. */
  predicate SaysOf(record: Record, e: Event) {
    match e
    case Installed(r, connection) =>
      && record.freshness == r.freshness && record.degradedReason == r.degradedReason
      && record.connection == connection
    case Marked(connection) =>
      && record.freshness == Stale && record.degradedReason == Some(SnapshotStale)
      && record.connection == connection
  }

  ghost predicate Told(record: Record, events: seq<Event>) {
    !record.superseded && exists i: nat :: LastTouch(events, i, record.command) && SaysOf(record, events[i])
  }

  ghost predicate AllTold(s: Snapshot, events: seq<Event>) {
    forall i :: 0 <= i < |s.records| ==> Told(s.records[i], events)
  }

  predicate Retired(record: Record) {
    && record.superseded && record.freshness == Stale && record.degradedReason == Some(SnapshotStale)
    && record.connection == Connected
  }

  predicate AllRetired(s: Snapshot) { forall i :: 0 <= i < |s.superseded| ==> Retired(s.superseded[i]) }

  /** An event that does not touch the command leaves what was told. */
  lemma ToldStill(record: Record, events: seq<Event>, e: Event)
    requires Told(record, events) && !Touches(e, record.command)
    ensures Told(record, events + [e])
  {
    var i: nat :| LastTouch(events, i, record.command) && SaysOf(record, events[i]);
    assert LastTouch(events + [e], i, record.command);
  }

  lemma ToldNow(record: Record, events: seq<Event>, e: Event)
    requires Touches(e, record.command) && SaysOf(record, e) && !record.superseded
    ensures Told(record, events + [e])
  {
    assert LastTouch(events + [e], |events|, record.command);
  }

  lemma {:induction false} WithoutMember(records: seq<Record>, command: CommandId, x: Record)
    ensures x in Without(records, command) <==> x in records && x.command != command
  {
    if records != [] {
      assert records == [records[0]] + records[1..];
      WithoutMember(records[1..], command, x);
    }
  }

  lemma {:induction false} InsertMember(records: seq<Record>, record: Record, x: Record)
    ensures x in InsertAfterEqual(records, record) <==> x == record || x in records
  {
    if records != [] {
      assert records == [records[0]] + records[1..];
      InsertMember(records[1..], record, x);
    }
  }

  lemma {:induction false} SortMember(records: seq<Record>, x: Record)
    ensures x in SortByKey(records) <==> x in records
  {
    if records != [] {
      var n := |records| - 1;
      assert records == records[..n] + [records[n]];
      SortMember(records[..n], x);
      InsertMember(SortByKey(records[..n]), records[n], x);
    }
  }

  lemma InstallTells(s: Snapshot, events: seq<Event>, r: Response)
    requires AllTold(s, events)
    ensures AllTold(InstallValid(s, r), events + [Installed(r, s.connection)])
  {
    var adopted := AdoptForInstall(s, r.epoch);
    var arrived := FromResponse(r, s.connection);
    var kept := Without(adopted.records, r.command);
    var after := InstallValid(s, r).records;
    var e := Installed(r, s.connection);
    forall i | 0 <= i < |after| ensures Told(after[i], events + [e]) {
      SortMember(kept + [arrived], after[i]);
      WithoutMember(adopted.records, r.command, after[i]);
      if after[i] == arrived {
        ToldNow(after[i], events, e);
      } else {
        assert after[i] in s.records;
        ToldStill(after[i], events, e);
      }
    }
  }

  lemma {:induction false} InstallAllTells(s: Snapshot, events: seq<Event>, responses: seq<Response>)
    requires AllTold(s, events)
    ensures AllTold(InstallAll(s, responses).0, events + Arrivals(responses, s.connection))
    decreases |responses|
  {
    if responses == [] || !responses[0].valid {
      assert events + [] == events;
    } else {
      var e := Installed(responses[0], s.connection);
      InstallTells(s, events, responses[0]);
      InstallAllTells(InstallValid(s, responses[0]), events + [e], responses[1..]);
      assert events + [e] + Arrivals(responses[1..], s.connection) == events + Arrivals(responses, s.connection);
    }
  }

  lemma MarkTells(s: Snapshot, events: seq<Event>, to: Connection, after: seq<Record>)
    requires AllTold(s, events) && after == MarkAllStale(s.records, to)
    ensures forall i :: 0 <= i < |after| ==> Told(after[i], events + [Marked(to)])
  {
    forall i | 0 <= i < |after| ensures Told(after[i], events + [Marked(to)]) {
      ToldNow(after[i], events, Marked(to));
    }
  }

  lemma InstallOneTells(s: Snapshot, events: seq<Event>, r: Response)
    requires AllTold(s, events)
    ensures AllTold(Apply(s, Install(r)).0, events + Arrivals([r], s.connection))
  {
    assert [r][1..] == [] && InstallAll(s, [r]).0 == Apply(s, Install(r)).0;
    InstallAllTells(s, events, [r]);
  }

  lemma CallTells(s: Snapshot, events: seq<Event>, call: CacheCall)
    requires AllTold(s, events)
    ensures AllTold(Apply(s, call).0, events + EventsOf(call, s.connection))
  {
    if call.MarkDisconnected? {
      MarkTells(s, events, Connection.ReconnectPending, Apply(s, call).0.records);
    } else if BecomesIncompatible(call) {
      MarkTells(s, events, ProtocolIncompatible, Apply(s, call).0.records);
    } else if call.Install? {
      InstallOneTells(s, events, call.response);
    } else if LetsIn(call) {
      InstallAllTells(AdoptForReconnect(s, call.ownership.summaryEpoch.value), events, call.responses);
    } else {
      assert events + [] == events;
    }
  }

  /**
   * After any run of calls, failed ones included, every live record says what the last event to touch it made of it:
   * its own arrival, or the last disconnect or incompatibility since.
   */
  lemma {:induction false} RecordsAreLastTouched(o: Ownership, calls: seq<CacheCall>)
    ensures AllTold(Run(FromOwnership(o), calls), Events(o, calls))
  {
    if calls != [] {
      var n := |calls| - 1;
      RecordsAreLastTouched(o, calls[..n]);
      CallTells(Run(FromOwnership(o), calls[..n]), Events(o, calls[..n]), calls[n]);
    }
  }

  lemma {:induction false} InstallAllRetires(s: Snapshot, responses: seq<Response>)
    requires AllRetired(s)
    ensures AllRetired(InstallAll(s, responses).0)
    decreases |responses|
  {
    if responses != [] && responses[0].valid {
      InstallRetires(s, responses[0]);
      InstallAllRetires(InstallValid(s, responses[0]), responses[1..]);
    }
  }

  lemma InstallRetires(s: Snapshot, r: Response)
    requires AllRetired(s)
    ensures AllRetired(InstallValid(s, r))
  {}

  lemma CallRetires(s: Snapshot, call: CacheCall)
    requires AllRetired(s)
    ensures AllRetired(Apply(s, call).0)
  {
    if call.Install? && call.response.valid { InstallRetires(s, call.response); }
    if LetsIn(call) {
      InstallAllRetires(AdoptForReconnect(s, call.ownership.summaryEpoch.value), call.responses);
    }
  }

  /** Every record of an earlier epoch is marked superseded and stale. */
  lemma {:induction false} SupersededAreRetired(o: Ownership, calls: seq<CacheCall>)
    ensures AllRetired(Run(FromOwnership(o), calls))
  {
    if calls != [] {
      var n := |calls| - 1;
      SupersededAreRetired(o, calls[..n]);
      CallRetires(Run(FromOwnership(o), calls[..n]), calls[n]);
    }
  }
}
