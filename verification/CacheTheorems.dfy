/** The cache agrees with plain maps from command to response, and never calls itself fresher than its records. */
module CacheTheorems {
  import opened Wrappers
  import opened PresentationCache

  // ---------- The plain map ----------

  /** What of a response survives in a record, whatever stale marks the record gets. */
  datatype Identity = Identity(snapshotRef: nat, command: CommandId, epoch: nat, truncated: bool, itemCount: nat)

  function Of(r: Response): Identity { Identity(r.snapshotRef, r.command, r.epoch, r.truncated, r.itemCount) }

  function OfRecord(r: Record): Identity { Identity(r.snapshotRef, r.command, r.epoch, r.truncated, r.itemCount) }

  function Identities(records: seq<Record>): (ids: seq<Identity>)
    ensures |ids| == |records|
    ensures forall i :: 0 <= i < |ids| ==> ids[i] == OfRecord(records[i])
  {
    seq(|records|, i requires 0 <= i < |records| => OfRecord(records[i]))
  }

  lemma IdentitiesAppend(a: seq<Record>, b: seq<Record>)
    ensures Identities(a + b) == Identities(a) + Identities(b)
  {}

  type Live = map<CommandId, Response>

  predicate Keyed(m: Live) { forall c :: c in m ==> m[c].command == c }

  /** A map's responses in command order, from a command on. */
  function Listing(m: Live, from: nat): seq<Identity>
    requires from <= COMMANDS
    decreases COMMANDS - from
  {
    if from == COMMANDS then []
    else if from in m then [Of(m[from])] + Listing(m, from + 1)
    else Listing(m, from + 1)
  }

  function Listings(closed: seq<Live>): seq<Identity> {
    if closed == [] then [] else Listings(closed[..|closed| - 1]) + Listing(closed[|closed| - 1], 0)
  }

  predicate Ascending(ids: seq<Identity>) {
    forall i, j :: 0 <= i < j < |ids| ==> ids[i].command < ids[j].command
  }

  /** A listing is strictly sorted by command. */
  lemma {:induction false} ListingAscends(m: Live, from: nat)
    requires from <= COMMANDS && Keyed(m)
    ensures Ascending(Listing(m, from))
    ensures forall i :: 0 <= i < |Listing(m, from)| ==> from <= Listing(m, from)[i].command
    decreases COMMANDS - from
  {
    if from < COMMANDS { ListingAscends(m, from + 1); }
  }

  lemma {:induction false} ListingIgnoresBefore(m: Live, n: Live, from: nat)
    requires from <= COMMANDS
    requires forall c: CommandId :: from <= c ==> (c in m <==> c in n) && (c in m ==> m[c] == n[c])
    ensures Listing(m, from) == Listing(n, from)
    decreases COMMANDS - from
  {
    if from < COMMANDS {
      var c: CommandId := from;
      assert c in m <==> c in n;
      ListingIgnoresBefore(m, n, from + 1);
    }
  }

  // ---------- The list operations on listings ----------

  predicate AtEpoch(records: seq<Record>, epoch: Option<nat>) {
    forall i :: 0 <= i < |records| ==> Some(records[i].epoch) == epoch && !records[i].superseded
  }

  lemma {:induction false} WithoutAbsent(records: seq<Record>, command: CommandId)
    requires forall i :: 0 <= i < |records| ==> records[i].command != command
    ensures Without(records, command) == records
  {
    if records != [] {
      WithoutAbsent(records[1..], command);
      assert records == [records[0]] + records[1..];
    }
  }

  lemma {:induction false} WithoutEpoch(records: seq<Record>, command: CommandId, epoch: Option<nat>)
    requires AtEpoch(records, epoch)
    ensures AtEpoch(Without(records, command), epoch)
  {
    if records != [] { WithoutEpoch(records[1..], command, epoch); }
  }

  lemma IdentitiesHead(records: seq<Record>, first: Identity, rest: seq<Identity>)
    requires Identities(records) == [first] + rest
    ensures records != [] && OfRecord(records[0]) == first && Identities(records[1..]) == rest
  {
    assert Identities(records)[0] == first;
    assert Identities(records[1..]) == Identities(records)[1..];
  }

  lemma LaterCommands(records: seq<Record>, m: Live, command: CommandId, from: nat)
    requires command < from <= COMMANDS && Keyed(m) && Identities(records) == Listing(m, from)
    ensures forall i :: 0 <= i < |records| ==> records[i].command != command
  {
    ListingAscends(m, from);
    forall i | 0 <= i < |records| ensures records[i].command != command {
      assert Identities(records)[i].command == records[i].command;
    }
  }

  /** The dropped command stands first. */
  lemma WithoutFirst(records: seq<Record>, m: Live, command: CommandId)
    requires Keyed(m) && command in m && records != [] && records[0].command == command
    requires Identities(records[1..]) == Listing(m, command + 1)
    ensures Identities(Without(records, command)) == Listing(m - {command}, command)
  {
    LaterCommands(records[1..], m, command, command + 1);
    WithoutAbsent(records[1..], command);
    ListingIgnoresBefore(m, m - {command}, command + 1);
  }

  /** Another command stands first. */
  lemma WithoutLater(records: seq<Record>, m: Live, from: nat, command: CommandId)
    requires from < COMMANDS && from != command && Keyed(m) && from in m
    requires records != [] && OfRecord(records[0]) == Of(m[from])
    requires Identities(Without(records[1..], command)) == Listing(m - {command}, from + 1)
    ensures Identities(Without(records, command)) == Listing(m - {command}, from)
  {
    IdentitiesAppend([records[0]], Without(records[1..], command));
  }

  /** Dropping a command from the list drops it from the map. */
  lemma {:induction false} WithoutIsRemoval(records: seq<Record>, m: Live, from: nat, command: CommandId)
    requires from <= COMMANDS && Keyed(m) && Identities(records) == Listing(m, from)
    ensures Identities(Without(records, command)) == Listing(m - {command}, from)
    decreases COMMANDS - from
  {
    if from == COMMANDS {
      assert records == [];
    } else if from in m {
      IdentitiesHead(records, Of(m[from]), Listing(m, from + 1));
      if from == command {
        WithoutFirst(records, m, command);
      } else {
        WithoutIsRemoval(records[1..], m, from + 1, command);
        WithoutLater(records, m, from, command);
      }
    } else {
      WithoutIsRemoval(records, m, from + 1, command);
    }
  }

  /** The inserted command comes before all others. */
  lemma InsertFirst(records: seq<Record>, m: Live, record: Record, r: Response)
    requires Keyed(m) && r.command !in m && Identities(records) == Listing(m, r.command)
    requires OfRecord(record) == Of(r) && AtEpoch(records, Some(record.epoch))
    ensures Identities(InsertAfterEqual(records, record)) == Listing(m[r.command := r], r.command)
  {
    ListingIgnoresBefore(m, m[r.command := r], r.command + 1);
    ListingAscends(m, r.command + 1);
    assert records != [] ==> Identities(records)[0].command == records[0].command;
    assert InsertAfterEqual(records, record) == [record] + records;
    IdentitiesAppend([record], records);
  }

  /** Another command comes first. */
  lemma InsertLater(records: seq<Record>, m: Live, from: nat, record: Record, r: Response)
    requires from < r.command && from in m && Keyed(m) && records != []
    requires OfRecord(record) == Of(r) && AtEpoch(records, Some(record.epoch)) && OfRecord(records[0]) == Of(m[from])
    requires Identities(InsertAfterEqual(records[1..], record)) == Listing(m[r.command := r], from + 1)
    ensures Identities(InsertAfterEqual(records, record)) == Listing(m[r.command := r], from)
  {
    assert !KeyBefore(record, records[0]);
    IdentitiesAppend([records[0]], InsertAfterEqual(records[1..], record));
  }

  /** Inserting a record of an absent command in order adds it to the map. */
  lemma {:induction false} InsertIsUpdate(records: seq<Record>, m: Live, from: nat, record: Record, r: Response)
    requires from <= r.command && Keyed(m) && r.command !in m && Identities(records) == Listing(m, from)
    requires OfRecord(record) == Of(r) && AtEpoch(records, Some(record.epoch))
    ensures Identities(InsertAfterEqual(records, record)) == Listing(m[r.command := r], from)
    decreases COMMANDS - from
  {
    if from == r.command {
      InsertFirst(records, m, record, r);
    } else if from in m {
      IdentitiesHead(records, Of(m[from]), Listing(m, from + 1));
      InsertIsUpdate(records[1..], m, from + 1, record, r);
      InsertLater(records, m, from, record, r);
    } else {
      InsertIsUpdate(records, m, from + 1, record, r);
    }
  }

  lemma {:induction false} InsertEpoch(records: seq<Record>, record: Record)
    requires AtEpoch(records, Some(record.epoch)) && !record.superseded
    ensures AtEpoch(InsertAfterEqual(records, record), Some(record.epoch))
  {
    if records != [] && !KeyBefore(record, records[0]) { InsertEpoch(records[1..], record); }
  }

  lemma {:induction false} InsertLast(records: seq<Record>, record: Record)
    requires forall i :: 0 <= i < |records| ==> !KeyBefore(record, records[i])
    ensures InsertAfterEqual(records, record) == records + [record]
  {
    if records != [] {
      InsertLast(records[1..], record);
      assert records == [records[0]] + records[1..];
    }
  }

  lemma NothingBeforeLast(records: seq<Record>, epoch: Option<nat>, n: nat, i: nat)
    requires Ascending(Identities(records)) && AtEpoch(records, epoch)
    requires i < n < |records|
    ensures !KeyBefore(records[n], records[i])
  {
    assert Identities(records)[i].command < Identities(records)[n].command;
  }

  lemma FrontInOrder(records: seq<Record>, epoch: Option<nat>, n: nat)
    requires Ascending(Identities(records)) && AtEpoch(records, epoch) && n <= |records|
    ensures Ascending(Identities(records[..n])) && AtEpoch(records[..n], epoch)
  {
    assert Identities(records[..n]) == Identities(records)[..n];
  }

  /** A list in order is left as it is by the sort. */
  lemma {:induction false} SortKeepsSorted(records: seq<Record>, epoch: Option<nat>)
    requires Ascending(Identities(records)) && AtEpoch(records, epoch)
    ensures SortByKey(records) == records
  {
    if records != [] {
      var n := |records| - 1;
      var front := records[..n];
      FrontInOrder(records, epoch, n);
      SortKeepsSorted(front, epoch);
      forall i | 0 <= i < n ensures !KeyBefore(records[n], front[i]) { NothingBeforeLast(records, epoch, n, i); }
      InsertLast(front, records[n]);
      assert records == front + [records[n]];
    }
  }

  lemma SortAppended(records: seq<Record>, epoch: Option<nat>, record: Record)
    requires Ascending(Identities(records)) && AtEpoch(records, epoch)
    ensures SortByKey(records + [record]) == InsertAfterEqual(records, record)
  {
    SortKeepsSorted(records, epoch);
    assert (records + [record])[..|records|] == records;
  }

  /** Retain, push and sort together are one map update. */
  lemma InstallIsUpdate(records: seq<Record>, m: Live, record: Record, r: Response)
    requires Keyed(m) && Identities(records) == Listing(m, 0) && AtEpoch(records, Some(record.epoch))
    requires OfRecord(record) == Of(r) && !record.superseded
    ensures var installed := SortByKey(Without(records, r.command) + [record]);
            && Identities(installed) == Listing(m[r.command := r], 0)
            && AtEpoch(installed, Some(record.epoch))
  {
    var kept := Without(records, r.command);
    var rest := m - {r.command};
    assert Identities(kept) == Listing(rest, 0) by { WithoutIsRemoval(records, m, 0, r.command); }
    assert AtEpoch(kept, Some(record.epoch)) by { WithoutEpoch(records, r.command, Some(record.epoch)); }
    SortKept(kept, rest, record);
    InsertIsUpdate(kept, rest, 0, record, r);
    InsertEpoch(kept, record);
    assert rest[r.command := r] == m[r.command := r];
  }

  lemma SortKept(kept: seq<Record>, rest: Live, record: Record)
    requires Keyed(rest) && Identities(kept) == Listing(rest, 0) && AtEpoch(kept, Some(record.epoch))
    ensures SortByKey(kept + [record]) == InsertAfterEqual(kept, record)
  {
    ListingAscends(rest, 0);
    SortAppended(kept, Some(record.epoch), record);
  }

  /**
   * The cache's abstract state: what was installed, per closed epoch and in the epoch in force, and a log of
   * every response ever installed.
   */
  datatype Ledger = Ledger(epoch: Option<nat>, live: Live, closed: seq<Live>, log: seq<Response>)

  function OpenEpoch(l: Ledger, epoch: nat): Ledger {
    if l.epoch == Some(epoch) then l
    else if l.epoch.None? then l.(epoch := Some(epoch))
    else l.(epoch := Some(epoch), live := map[], closed := l.closed + [l.live])
  }

  function Record1(l: Ledger, r: Response): Ledger {
    var begun := OpenEpoch(l, r.epoch);
    begun.(live := begun.live[r.command := r], log := begun.log + [r])
  }

  function RecordAll(l: Ledger, responses: seq<Response>): Ledger
    decreases |responses|
  {
    if responses == [] || !responses[0].valid then l else RecordAll(Record1(l, responses[0]), responses[1..])
  }

  function Post(l: Ledger, call: CacheCall): Ledger {
    match call
    case Install(r) => if r.valid then Record1(l, r) else l
    case MarkDisconnected => l
    case MarkIncompatible(_) => l
    case Reconnect(o, responses) =>
      if o.mode == ServiceOwned && ReconnectAdmitted(o, responses)
      then RecordAll(OpenEpoch(l, o.summaryEpoch.value), responses)
      else l
  }

  function Ledgered(epoch: Option<nat>, calls: seq<CacheCall>): Ledger {
    if calls == [] then Ledger(epoch, map[], [], [])
    else Post(Ledgered(epoch, calls[..|calls| - 1]), calls[|calls| - 1])
  }

  // ---------- The cache refines the ledger ----------

  predicate AllRetired(records: seq<Record>) {
    forall i :: 0 <= i < |records| ==> records[i].superseded && records[i].freshness == Stale
  }

  predicate Refines(s: Snapshot, l: Ledger) {
    && s.epoch == l.epoch
    && Identities(s.records) == Listing(l.live, 0) && Keyed(l.live) && AtEpoch(s.records, s.epoch)
    && Identities(s.superseded) == Listings(l.closed) && AllRetired(s.superseded)
    && (l.epoch.None? ==> l.live == map[])
  }

  lemma {:induction false} EmptyListing(from: nat)
    requires from <= COMMANDS
    ensures Listing(map[], from) == []
    decreases COMMANDS - from
  {
    if from < COMMANDS { EmptyListing(from + 1); }
  }

  lemma RetiredRefine(s: Snapshot, l: Ledger)
    requires Refines(s, l)
    ensures var all := s.superseded + RetireAll(s.records);
            Identities(all) == Listings(l.closed + [l.live]) && AllRetired(all)
  {
    assert (l.closed + [l.live])[..|l.closed|] == l.closed;
    assert Identities(RetireAll(s.records)) == Identities(s.records);
    IdentitiesAppend(s.superseded, RetireAll(s.records));
  }

  /** A snapshot without records refines a ledger whose epoch has just been opened. */
  lemma EmptiedRefines(s: Snapshot, l: Ledger)
    requires s.epoch == l.epoch && s.records == [] && l.live == map[]
    requires Identities(s.superseded) == Listings(l.closed) && AllRetired(s.superseded)
    ensures Refines(s, l)
  {
    EmptyListing(0);
  }

  lemma UnopenedHasNoRecords(s: Snapshot, l: Ledger)
    requires Refines(s, l) && s.epoch.None?
    ensures s.records == []
  {
    EmptyListing(0);
    assert |Identities(s.records)| == |s.records|;
  }

  lemma SupersedeRefines(s: Snapshot, l: Ledger, epoch: nat)
    requires Refines(s, l) && s.epoch != Some(epoch)
    ensures Refines(Supersede(s).(epoch := Some(epoch)), OpenEpoch(l, epoch))
    ensures s.epoch.None? ==> Refines(s.(epoch := Some(epoch)), OpenEpoch(l, epoch))
  {
    if s.epoch.None? {
      UnopenedHasNoRecords(s, l);
      assert s.superseded + RetireAll(s.records) == s.superseded;
      EmptiedRefines(s.(epoch := Some(epoch)), OpenEpoch(l, epoch));
      assert Supersede(s).(epoch := Some(epoch)) == s.(epoch := Some(epoch));
    } else {
      RetiredRefine(s, l);
      EmptiedRefines(Supersede(s).(epoch := Some(epoch)), OpenEpoch(l, epoch));
    }
  }

  lemma AdoptRefines(s: Snapshot, l: Ledger, epoch: nat)
    requires Refines(s, l)
    ensures Refines(AdoptForInstall(s, epoch), OpenEpoch(l, epoch))
  {
    if s.epoch != Some(epoch) { SupersedeRefines(s, l, epoch); }
  }

  lemma ReplacedRecordsRefine(
      s: Snapshot, l: Ledger, records: seq<Record>, freshness: Freshness, live: Live, log: seq<Response>)
    requires Refines(s, l) && s.epoch.Some?
    requires Identities(records) == Listing(live, 0) && Keyed(live) && AtEpoch(records, s.epoch)
    ensures Refines(s.(records := records, freshness := freshness), l.(live := live, log := log))
  {}

  lemma InstallRefines(s: Snapshot, l: Ledger, r: Response)
    requires Refines(s, l)
    ensures Refines(InstallValid(s, r), Record1(l, r))
  {
    var adopted := AdoptForInstall(s, r.epoch);
    var begun := OpenEpoch(l, r.epoch);
    var record := FromResponse(r, s.connection);
    var records := SortByKey(Without(adopted.records, r.command) + [record]);
    AdoptRefines(s, l, r.epoch);
    assert Identities(records) == Listing(begun.live[r.command := r], 0) && AtEpoch(records, Some(r.epoch)) by {
      InstallIsUpdate(adopted.records, begun.live, record, r);
    }
    ReplacedRecordsRefine(
      adopted, begun, records, HeaderFreshness(records), begun.live[r.command := r], begun.log + [r]);
  }

  lemma {:induction false} InstallAllRefines(s: Snapshot, l: Ledger, responses: seq<Response>)
    requires Refines(s, l)
    ensures Refines(InstallAll(s, responses).0, RecordAll(l, responses))
    decreases |responses|
  {
    if responses != [] && responses[0].valid {
      InstallRefines(s, l, responses[0]);
      InstallAllRefines(InstallValid(s, responses[0]), Record1(l, responses[0]), responses[1..]);
    }
  }

  lemma StaleMarksKeepIdentities(s: Snapshot, to: Connection)
    ensures Identities(MarkAllStale(s.records, to)) == Identities(s.records)
    ensures AtEpoch(s.records, s.epoch) ==> AtEpoch(MarkAllStale(s.records, to), s.epoch)
  {}

  lemma ApplyRefines(s: Snapshot, l: Ledger, call: CacheCall)
    requires Refines(s, l)
    ensures Refines(Apply(s, call).0, Post(l, call))
  {
    match call
    case Install(r) => if r.valid { InstallRefines(s, l, r); }
    case MarkDisconnected => StaleMarksKeepIdentities(s, Connection.ReconnectPending);
    case MarkIncompatible(_) => StaleMarksKeepIdentities(s, ProtocolIncompatible);
    case Reconnect(o, responses) =>
      if o.mode != ServiceOwned {
        StaleMarksKeepIdentities(s, ProtocolIncompatible);
      } else if ReconnectAdmitted(o, responses) {
        var epoch := o.summaryEpoch.value;
        if s.epoch != Some(epoch) { SupersedeRefines(s, l, epoch); }
        InstallAllRefines(AdoptForReconnect(s, epoch), OpenEpoch(l, epoch), responses);
      }
  }

  /**
   * After any run of calls, failed ones included, the live records are the listing of the map from command to
   * the last response installed since the epoch in force was adopted, all at that epoch, and the superseded
   * list is the listings of the maps of the earlier epochs, in order.
   */
  lemma {:induction false} CacheIsTheLedger(o: Ownership, calls: seq<CacheCall>)
    ensures var s := Run(FromOwnership(o), calls);
            var l := Ledgered(o.summaryEpoch, calls);
            && Refines(s, l)
            && Ascending(Identities(s.records))
  {
    if calls == [] {
      EmptyListing(0);
      assert Identities([]) == [];
    } else {
      CacheIsTheLedger(o, calls[..|calls| - 1]);
      ApplyRefines(Run(FromOwnership(o), calls[..|calls| - 1]), Ledgered(o.summaryEpoch, calls[..|calls| - 1]),
                   calls[|calls| - 1]);
    }
    ListingAscends(Ledgered(o.summaryEpoch, calls).live, 0);
  }

  // ---------- Nothing installed is lost ----------

  predicate OverwrittenLater(log: seq<Response>, i: nat)
    requires i < |log|
  {
    exists j :: i < j < |log| && log[j].command == log[i].command && log[j].epoch == log[i].epoch
  }

  predicate Holds(m: Live, r: Response) { r.command in m && m[r.command] == r }

  predicate InClosed(closed: seq<Live>, r: Response) {
    exists k :: 0 <= k < |closed| && Holds(closed[k], r)
  }

  predicate Accounted(l: Ledger) {
    && (forall i :: 0 <= i < |l.log| ==>
          Holds(l.live, l.log[i]) || InClosed(l.closed, l.log[i]) || OverwrittenLater(l.log, i))
    && (forall c :: c in l.live ==> l.live[c] in l.log && l.live[c].command == c && Some(l.live[c].epoch) == l.epoch)
    && (forall k, c :: 0 <= k < |l.closed| && c in l.closed[k] ==> l.closed[k][c] in l.log)
  }

  lemma OpenEpochAccounted(l: Ledger, epoch: nat)
    requires Accounted(l) && (l.epoch.None? ==> l.live == map[])
    ensures Accounted(OpenEpoch(l, epoch))
  {
    var begun := OpenEpoch(l, epoch);
    if l.epoch != Some(epoch) && l.epoch.Some? {
      assert begun.closed[|l.closed|] == l.live;
      forall i | 0 <= i < |l.log|
        ensures InClosed(begun.closed, l.log[i]) || OverwrittenLater(l.log, i)
      {
        if Holds(l.live, l.log[i]) {
          assert Holds(begun.closed[|l.closed|], l.log[i]);
        } else if InClosed(l.closed, l.log[i]) {
          var k :| 0 <= k < |l.closed| && Holds(l.closed[k], l.log[i]);
          assert Holds(begun.closed[k], l.log[i]);
        }
      }
    }
  }

  lemma Record1Accounted(l: Ledger, r: Response)
    requires Accounted(l) && (l.epoch.None? ==> l.live == map[])
    ensures Accounted(Record1(l, r))
  {
    OpenEpochAccounted(l, r.epoch);
    var begun := OpenEpoch(l, r.epoch);
    var after := Record1(l, r);
    var n := |begun.log|;
    assert after.log[n] == r;
    forall i | 0 <= i < |after.log|
      ensures Holds(after.live, after.log[i]) || InClosed(after.closed, after.log[i]) || OverwrittenLater(after.log, i)
    {
      if i < n {
        assert after.log[i] == begun.log[i];
        if OverwrittenLater(begun.log, i) {
          var j :| && i < j < n && begun.log[j].command == begun.log[i].command
                   && begun.log[j].epoch == begun.log[i].epoch;
          assert after.log[j] == begun.log[j];
        } else if Holds(begun.live, begun.log[i]) && begun.log[i].command == r.command {
          assert after.log[n].command == after.log[i].command && after.log[n].epoch == after.log[i].epoch;
        }
      }
    }
  }

  lemma {:induction false} RecordAllAccounted(l: Ledger, responses: seq<Response>)
    requires Accounted(l) && (l.epoch.None? ==> l.live == map[])
    ensures Accounted(RecordAll(l, responses))
    decreases |responses|
  {
    if responses != [] && responses[0].valid {
      Record1Accounted(l, responses[0]);
      RecordAllAccounted(Record1(l, responses[0]), responses[1..]);
    }
  }

  /**
   * Every response ever installed is live, in a closed epoch, or was overwritten by a later one for the same
   * command and epoch; and nothing is live or closed that was not installed.
   */
  lemma {:induction false} NothingInstalledIsLost(o: Ownership, calls: seq<CacheCall>)
    ensures Accounted(Ledgered(o.summaryEpoch, calls))
  {
    if calls != [] {
      var front := calls[..|calls| - 1];
      NothingInstalledIsLost(o, front);
      CacheIsTheLedger(o, front);
      var l := Ledgered(o.summaryEpoch, front);
      match calls[|calls| - 1]
      case Install(r) => if r.valid { Record1Accounted(l, r); }
      case MarkDisconnected =>
      case MarkIncompatible(_) =>
      case Reconnect(own, responses) =>
        if own.mode == ServiceOwned && ReconnectAdmitted(own, responses) {
          OpenEpochAccounted(l, own.summaryEpoch.value);
          RecordAllAccounted(OpenEpoch(l, own.summaryEpoch.value), responses);
        }
    }
  }

  /** The superseded list only grows. */
  lemma {:induction false} SupersededOnlyGrows(s: Snapshot, responses: seq<Response>)
    ensures s.superseded <= InstallAll(s, responses).0.superseded
    decreases |responses|
  {
    if responses != [] && responses[0].valid {
      SupersededOnlyGrows(InstallValid(s, responses[0]), responses[1..]);
    }
  }

  lemma ApplyGrowsSuperseded(s: Snapshot, call: CacheCall)
    ensures s.superseded <= Apply(s, call).0.superseded
  {
    if call.Reconnect? && call.ownership.mode == ServiceOwned && ReconnectAdmitted(call.ownership, call.responses) {
      SupersededOnlyGrows(AdoptForReconnect(s, call.ownership.summaryEpoch.value), call.responses);
    }
  }

  // ---------- The header is never fresher than a record ----------

  predicate HonestHeader(s: Snapshot) {
    forall i :: 0 <= i < |s.records| ==> Rank(s.records[i].freshness) <= Rank(s.freshness)
  }

  lemma {:induction false} InstallAllHonest(s: Snapshot, responses: seq<Response>)
    requires responses != [] && responses[0].valid
    ensures HonestHeader(InstallAll(s, responses).0)
    decreases |responses|
  {
    var after := InstallValid(s, responses[0]);
    assert HonestHeader(after);
    if |responses| > 1 && responses[1].valid {
      assert responses[1..][0] == responses[1];
      InstallAllHonest(after, responses[1..]);
    } else {
      assert InstallAll(after, responses[1..]).0 == after;
    }
  }

  /** Whatever happened before, failed calls included, a call that returns Ok leaves an honest header. */
  lemma OkCallsLeaveHonestHeader(s: Snapshot, call: CacheCall)
    ensures Apply(s, call).1 ==> HonestHeader(Apply(s, call).0)
  {
    match call
    case Install(r) =>
    case MarkDisconnected =>
    case MarkIncompatible(_) =>
    case Reconnect(o, responses) =>
      if o.mode == ServiceOwned && ReconnectAdmitted(o, responses) && responses[0].valid {
        InstallAllHonest(AdoptForReconnect(s, o.summaryEpoch.value), responses);
      }
  }

  /** A reconnect that is let in, keeps the epoch, and fails on its first response. */
  predicate FailsAtOnce(s: Snapshot, call: CacheCall) {
    && call.Reconnect? && call.ownership.mode == ServiceOwned
    && ReconnectAdmitted(call.ownership, call.responses)
    && !call.responses[0].valid
    && s.epoch == call.ownership.summaryEpoch
  }

  /**
   * An honest header stays honest through every call but one: a reconnect in the same epoch whose first
   * response is invalid, over records of which some are not fresh. It has set the header to Fresh already.
   */
  lemma HeaderStaysHonestExactlyWhen(s: Snapshot, call: CacheCall)
    requires HonestHeader(s)
    ensures HonestHeader(Apply(s, call).0)
            <==> !(FailsAtOnce(s, call) && exists i :: 0 <= i < |s.records| && s.records[i].freshness != Fresh)
  {
    if FailsAtOnce(s, call) {
      assert Apply(s, call).0.records == s.records && Apply(s, call).0.freshness == Fresh;
    } else if call.Reconnect? && call.ownership.mode == ServiceOwned
              && ReconnectAdmitted(call.ownership, call.responses) {
      if call.responses[0].valid {
        InstallAllHonest(AdoptForReconnect(s, call.ownership.summaryEpoch.value), call.responses);
      }
    } else {
      OkCallsLeaveHonestHeader(s, call);
    }
  }

  lemma FailsOnFirst(s: Snapshot, o: Ownership, bad: Response)
    requires o.mode == ServiceOwned && o.summaryEpoch.Some? && o.summaryEpoch.value != 0
    requires s.epoch == o.summaryEpoch && !bad.valid && bad.epoch == o.summaryEpoch.value
    ensures var after := Apply(s, Reconnect(o, [bad])).0; after.freshness == Fresh && after.records == s.records
  {
  }

  /** Such a run: a stale response is installed, then a reconnect in its epoch brings one invalid response. */
  lemma FailedReconnectLies(o: Ownership, stale: Response, bad: Response)
    requires o.mode == ServiceOwned && o.summaryEpoch.Some? && o.summaryEpoch.value != 0
    requires stale.valid && stale.epoch == o.summaryEpoch.value && stale.freshness == Stale
    requires !bad.valid && bad.epoch == o.summaryEpoch.value
    ensures var s := Run(FromOwnership(o), [Install(stale), Reconnect(o, [bad])]);
            s.freshness == Fresh && |s.records| == 1 && s.records[0].freshness == Stale && !HonestHeader(s)
  {
    var installed := InstallValid(FromOwnership(o), stale);
    RunTwo(FromOwnership(o), Install(stale), Reconnect(o, [bad]));
    FirstInstalled(FromOwnership(o), stale);
    FailsOnFirst(installed, o, bad);
  }

  lemma RunTwo(s: Snapshot, a: CacheCall, b: CacheCall)
    ensures Run(s, [a, b]) == Apply(Apply(s, a).0, b).0
  {
    assert [a, b][..1] == [a] && [a][..0] == [];
    assert Run(s, [a]) == Apply(Run(s, []), a).0;
  }

  lemma FirstInstalled(s: Snapshot, r: Response)
    requires s.records == [] && (s.epoch.Some? ==> s.epoch.value == r.epoch)
    ensures InstallValid(s, r).records == [FromResponse(r, s.connection)] && InstallValid(s, r).epoch == Some(r.epoch)
  {
    var record := FromResponse(r, s.connection);
    var none: seq<Record> := [];
    assert Without(none, r.command) + [record] == [record];
    assert [record][..0] == none;
    assert SortByKey([record]) == InsertAfterEqual(SortByKey(none), record) == [record];
  }

  /** In a run of calls that all return Ok the header is honest throughout. */
  lemma {:induction false} OkRunsAreHonest(o: Ownership, calls: seq<CacheCall>)
    requires forall i :: 0 <= i < |calls| ==> Apply(Run(FromOwnership(o), calls[..i]), calls[i]).1
    ensures HonestHeader(Run(FromOwnership(o), calls))
  {
    if calls != [] {
      OkCallsLeaveHonestHeader(Run(FromOwnership(o), calls[..|calls| - 1]), calls[|calls| - 1]);
    }
  }
}
