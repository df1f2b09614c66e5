/** The two inverse indexes that incident grouping looks references up in. */
module IncidentIndexes {
  import opened Wrappers
  import opened BaselineModel

  // ---------- Baseline records by fact ----------

  type FactIndex = map<Id, seq<Id>>

  function Entry(index: FactIndex, fact: Id): seq<Id> { if fact in index then index[fact] else [] }

  /** The id once for every time the fact is listed. */
  function Repeats(refs: seq<Id>, fact: Id, id: Id): seq<Id> {
    if refs == [] then []
    else
      var n := |refs| - 1;
      Repeats(refs[..n], fact, id) + if refs[n] == fact then [id] else []
  }

  /** A plain scan: the ids of the records that list a fact, in record order, as often as they list it. */
  function Listing(records: seq<BaselineRecord>, fact: Id): seq<Id> {
    if records == [] then []
    else
      var n := |records| - 1;
      Listing(records[..n], fact) + Repeats(records[n].factRefs, fact, records[n].id)
  }

  ghost predicate NoEmptyEntry(index: FactIndex) { forall fact :: fact in index ==> index[fact] != [] }

  /** The index agrees with the scan of the records, and has no empty entries. */
  ghost predicate IndexesFacts(index: FactIndex, records: seq<BaselineRecord>) {
    NoEmptyEntry(index) && forall fact :: Entry(index, fact) == Listing(records, fact)
  }

  /** Each entry has gained the id once for every time its fact is listed. */
  ghost predicate Gained(index: FactIndex, next: FactIndex, refs: seq<Id>, id: Id) {
    forall fact :: Entry(next, fact) == Entry(index, fact) + Repeats(refs, fact, id)
  }

  function Push(index: FactIndex, fact: Id, id: Id): FactIndex { index[fact := Entry(index, fact) + [id]] }

  lemma GainedNext(index: FactIndex, next: FactIndex, refs: seq<Id>, j: nat, id: Id, fact: Id)
    requires j < |refs|
    requires Entry(next, fact) == Entry(index, fact) + Repeats(refs[..j], fact, id)
    ensures Entry(Push(next, refs[j], id), fact)
            == Entry(index, fact) + Repeats(refs[..j + 1], fact, id)
  {
    assert refs[..j + 1][..j] == refs[..j];
  }

  lemma PushStep(index: FactIndex, next: FactIndex, refs: seq<Id>, j: nat, id: Id)
    requires j < |refs| && NoEmptyEntry(next) && Gained(index, next, refs[..j], id)
    ensures NoEmptyEntry(Push(next, refs[j], id)) && Gained(index, Push(next, refs[j], id), refs[..j + 1], id)
  {
    forall fact ensures Entry(Push(next, refs[j], id), fact) == Entry(index, fact) + Repeats(refs[..j + 1], fact, id) {
      assert Entry(next, fact) == Entry(index, fact) + Repeats(refs[..j], fact, id);
      GainedNext(index, next, refs, j, id, fact);
    }
  }

  method IndexRecord(index: FactIndex, record: BaselineRecord) returns (next: FactIndex)
    requires NoEmptyEntry(index)
    ensures NoEmptyEntry(next) && Gained(index, next, record.factRefs, record.id)
  {
    next := index;
    var refs := record.factRefs;
    var j := 0;
    while j < |refs|
      invariant 0 <= j <= |refs|
      invariant NoEmptyEntry(next) && Gained(index, next, refs[..j], record.id)
    {
      PushStep(index, next, refs, j, record.id);
      next := Push(next, refs[j], record.id);
      j := j + 1;
    }
    assert refs[..j] == refs;
  }

  /** The program's index: ids pushed record by record and reference by reference. */
  method RecordsByFact(records: seq<BaselineRecord>) returns (byFact: FactIndex)
    ensures IndexesFacts(byFact, records)
  {
    byFact := map[];
    var i := 0;
    while i < |records|
      invariant 0 <= i <= |records|
      invariant IndexesFacts(byFact, records[..i])
    {
      assert records[..i + 1][..i] == records[..i];
      byFact := IndexRecord(byFact, records[i]);
      i := i + 1;
    }
    assert records[..i] == records;
  }

  lemma {:induction false} RepeatsMember(refs: seq<Id>, fact: Id, id: Id, x: Id)
    ensures x in Repeats(refs, fact, id) <==> x == id && fact in refs
  {
    if refs != [] {
      var n := |refs| - 1;
      RepeatsMember(refs[..n], fact, id, x);
      assert refs == refs[..n] + [refs[n]];
    }
  }

  predicate Lists(records: seq<BaselineRecord>, id: Id, fact: Id) {
    exists record :: record in records && record.id == id && fact in record.factRefs
  }

  lemma {:induction false} ListingMember(records: seq<BaselineRecord>, fact: Id, id: Id)
    ensures id in Listing(records, fact) <==> Lists(records, id, fact)
  {
    if records != [] {
      var n := |records| - 1;
      ListingMember(records[..n], fact, id);
      RepeatsMember(records[n].factRefs, fact, records[n].id, id);
      assert records == records[..n] + [records[n]];
    }
  }

  /** An entry holds a baseline id exactly when a record with that id lists the fact. */
  lemma IndexedExactlyWhen(index: FactIndex, records: seq<BaselineRecord>, fact: Id, id: Id)
    requires IndexesFacts(index, records)
    ensures fact in index && id in index[fact] <==> Lists(records, id, fact)
  {
    ListingMember(records, fact, id);
    assert Entry(index, fact) == Listing(records, fact);
  }

  // ---------- Incidents by finding ----------

  predicate Reaches(incident: Incident, alerts: seq<Alert>, finding: Id) {
    || finding in incident.findingRefs
    || exists alert :: alert in alerts && alert.id in incident.alertRefs && finding in alert.findingRefs
  }

  /** The last incident in list order that reaches a finding, directly or through one of its alerts. */
  function OwnerOf(incidents: seq<Incident>, alerts: seq<Alert>, finding: Id): Option<Id> {
    if incidents == [] then None
    else
      var n := |incidents| - 1;
      if Reaches(incidents[n], alerts, finding) then Some(incidents[n].id)
      else OwnerOf(incidents[..n], alerts, finding)
  }

  type OwnerIndex = map<Id, Id>

  function Owner(index: OwnerIndex, finding: Id): Option<Id> {
    if finding in index then Some(index[finding]) else None
  }

  /** Overwrites the owner of every finding in the list. */
  method Claim(index: OwnerIndex, findings: seq<Id>, id: Id) returns (claimed: OwnerIndex)
    ensures forall f :: Owner(claimed, f) == if f in findings then Some(id) else Owner(index, f)
  {
    claimed := index;
    var i := 0;
    while i < |findings|
      invariant 0 <= i <= |findings|
      invariant forall f :: Owner(claimed, f) == if f in findings[..i] then Some(id) else Owner(index, f)
    {
      assert findings[..i + 1] == findings[..i] + [findings[i]];
      claimed := claimed[findings[i] := id];
      i := i + 1;
    }
    assert findings[..i] == findings;
  }

  /** The finding is listed by one of the alerts that carry the id. */
  predicate AlertReaches(alerts: seq<Alert>, alertId: Id, finding: Id) {
    exists alert :: alert in alerts && alert.id == alertId && finding in alert.findingRefs
  }

  method ClaimThroughAlert(index: OwnerIndex, alerts: seq<Alert>, alertId: Id, id: Id) returns (claimed: OwnerIndex)
    ensures forall f :: Owner(claimed, f) == if AlertReaches(alerts, alertId, f) then Some(id) else Owner(index, f)
  {
    claimed := index;
    var i := 0;
    while i < |alerts|
      invariant 0 <= i <= |alerts|
      invariant forall f ::
                  Owner(claimed, f) == if AlertReaches(alerts[..i], alertId, f) then Some(id) else Owner(index, f)
    {
      AlertReachesNext(alerts, i, alertId);
      if alerts[i].id == alertId { claimed := Claim(claimed, alerts[i].findingRefs, id); }
      i := i + 1;
    }
    assert alerts[..i] == alerts;
  }

  lemma AlertReachesNext(alerts: seq<Alert>, i: nat, alertId: Id)
    requires i < |alerts|
    ensures forall f :: AlertReaches(alerts[..i + 1], alertId, f)
                        <==> AlertReaches(alerts[..i], alertId, f)
                             || (alerts[i].id == alertId && f in alerts[i].findingRefs)
  {
    assert alerts[..i + 1] == alerts[..i] + [alerts[i]];
  }

  /** One of the alert ids leads to the finding. */
  predicate SomeAlertReaches(alerts: seq<Alert>, alertRefs: seq<Id>, finding: Id) {
    exists i :: 0 <= i < |alertRefs| && AlertReaches(alerts, alertRefs[i], finding)
  }

  lemma ReachesThroughAlerts(incident: Incident, alerts: seq<Alert>, finding: Id)
    ensures Reaches(incident, alerts, finding)
            <==> finding in incident.findingRefs || SomeAlertReaches(alerts, incident.alertRefs, finding)
  {
    if alert :| alert in alerts && alert.id in incident.alertRefs && finding in alert.findingRefs {
      var i :| 0 <= i < |incident.alertRefs| && incident.alertRefs[i] == alert.id;
      assert AlertReaches(alerts, incident.alertRefs[i], finding);
    }
  }

  method ClaimAll(index: OwnerIndex, alerts: seq<Alert>, incident: Incident) returns (claimed: OwnerIndex)
    ensures forall f ::
              Owner(claimed, f) == if Reaches(incident, alerts, f) then Some(incident.id) else Owner(index, f)
  {
    claimed := Claim(index, incident.findingRefs, incident.id);
    ghost var direct := claimed;
    var refs := incident.alertRefs;
    var i := 0;
    while i < |refs|
      invariant 0 <= i <= |refs|
      invariant forall f ::
                  Owner(claimed, f)
                  == if SomeAlertReaches(alerts, refs[..i], f) then Some(incident.id) else Owner(direct, f)
    {
      claimed := ClaimThroughAlert(claimed, alerts, refs[i], incident.id);
      forall f ensures SomeAlertReaches(alerts, refs[..i + 1], f)
                       <==> SomeAlertReaches(alerts, refs[..i], f) || AlertReaches(alerts, refs[i], f)
      {
        SomeAlertReachesNext(alerts, refs, i, f);
      }
      i := i + 1;
    }
    assert refs[..i] == refs;
    forall f ensures Reaches(incident, alerts, f) <==> f in incident.findingRefs || SomeAlertReaches(alerts, refs, f) {
      ReachesThroughAlerts(incident, alerts, f);
    }
  }

  lemma SomeAlertReachesNext(alerts: seq<Alert>, refs: seq<Id>, i: nat, f: Id)
    requires i < |refs|
    ensures SomeAlertReaches(alerts, refs[..i + 1], f)
            <==> SomeAlertReaches(alerts, refs[..i], f) || AlertReaches(alerts, refs[i], f)
  {
    if SomeAlertReaches(alerts, refs[..i], f) {
      var k :| 0 <= k < i && AlertReaches(alerts, refs[..i][k], f);
      assert refs[..i + 1][k] == refs[..i][k];
    }
    if AlertReaches(alerts, refs[i], f) { assert refs[..i + 1][i] == refs[i]; }
    if SomeAlertReaches(alerts, refs[..i + 1], f) {
      var k :| 0 <= k < i + 1 && AlertReaches(alerts, refs[..i + 1][k], f);
      if k < i { assert refs[..i][k] == refs[..i + 1][k]; }
    }
  }

  /** The program's index: every finding is owned by the last incident that reaches it. */
  method FindingToIncident(incidents: seq<Incident>, alerts: seq<Alert>) returns (byFinding: OwnerIndex)
    ensures forall f :: Owner(byFinding, f) == OwnerOf(incidents, alerts, f)
  {
    byFinding := map[];
    var i := 0;
    while i < |incidents|
      invariant 0 <= i <= |incidents|
      invariant forall f :: Owner(byFinding, f) == OwnerOf(incidents[..i], alerts, f)
    {
      assert incidents[..i + 1][..i] == incidents[..i];
      byFinding := ClaimAll(byFinding, alerts, incidents[i]);
      i := i + 1;
    }
    assert incidents[..i] == incidents;
  }

  /** Nothing later in the list reaches the finding, and the owner does. */
  lemma {:induction false} OwnerIsLastReaching(incidents: seq<Incident>, alerts: seq<Alert>, f: Id, i: nat)
    requires i < |incidents| && Reaches(incidents[i], alerts, f)
    requires forall j :: i < j < |incidents| ==> !Reaches(incidents[j], alerts, f)
    ensures OwnerOf(incidents, alerts, f) == Some(incidents[i].id)
  {
    if i < |incidents| - 1 { OwnerIsLastReaching(incidents[..|incidents| - 1], alerts, f, i); }
  }

  lemma {:induction false} UnreachedHasNoOwner(incidents: seq<Incident>, alerts: seq<Alert>, f: Id)
    ensures OwnerOf(incidents, alerts, f).None?
            <==> forall i :: 0 <= i < |incidents| ==> !Reaches(incidents[i], alerts, f)
  {
    if incidents != [] {
      var n := |incidents| - 1;
      UnreachedHasNoOwner(incidents[..n], alerts, f);
      if OwnerOf(incidents, alerts, f).None? {
        forall i | 0 <= i < |incidents| ensures !Reaches(incidents[i], alerts, f) {
          if i < n { assert incidents[..n][i] == incidents[i]; }
        }
      }
    }
  }
}
