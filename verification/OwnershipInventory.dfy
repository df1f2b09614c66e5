/** The validator of the canonical read-model ownership inventory. */
module OwnershipInventory {
  import Text
  import opened Wrappers

  datatype Category =
    | RuntimeOwnership | ComponentLifecycleHealth | RuntimeHealth | StorageOwnerSummary | CapabilityHealth
    | Scheduler | SchedulerHost | SamplerState | NativePermissionReadiness | EndpointThreat
    | Fusion | EvidenceQuality | Risk | AttackContext | Graph
    | Baseline | IncidentLinkedGroups | ReportTraceability | ExportTraceabilityHistory | ProviderControllerStatus

  datatype Classification =
    IntendedServiceHostOwner | PresentationCacheOnly | TestHarnessOnly | OwnershipViolation | UnknownOwner

  /** The texts: producer, mutable owner, cache owner, persistence, service owner, contract, action and blocker. */
  datatype Entry = Entry(category: Category, classification: Classification, texts: seq<string>)

  datatype InventoryError =
    | DuplicateCanonicalOwner(category: Category)
    | MissingCanonicalOwner(category: Category)
    | CanonicalOwnershipViolation(category: Category)
    | AmbiguousCanonicalOwner(category: Category)

  datatype Verdict = Accepted | Rejected(error: InventoryError)

  const REQUIRED: seq<Category> := [
    RuntimeOwnership, ComponentLifecycleHealth, RuntimeHealth, StorageOwnerSummary, CapabilityHealth,
    Scheduler, SchedulerHost, SamplerState, NativePermissionReadiness, EndpointThreat,
    Fusion, EvidenceQuality, Risk, AttackContext, Graph,
    Baseline, IncidentLinkedGroups, ReportTraceability, ExportTraceabilityHistory, ProviderControllerStatus
  ]

  predicate HasBlank(texts: seq<string>) { exists i :: 0 <= i < |texts| && Text.IsBlank(texts[i]) }

  /** The fault of an entry on its own, in the order in which the checks stand. */
  function EntryFault(entry: Entry): Option<InventoryError> {
    if entry.classification.OwnershipViolation? then Some(CanonicalOwnershipViolation(entry.category))
    else if entry.classification.UnknownOwner? || HasBlank(entry.texts) then
      Some(AmbiguousCanonicalOwner(entry.category))
    else None
  }

  predicate Owns(entry: Entry, category: Category) {
    entry.classification.IntendedServiceHostOwner? && entry.category == category
  }

  /** The positions at which a category has an intended owner. */
  function OwnersOf(entries: seq<Entry>, category: Category): set<nat> {
    set i: nat | i < |entries| && Owns(entries[i], category)
  }

  function CountFault(entries: seq<Entry>, category: Category): Option<InventoryError> {
    if OwnersOf(entries, category) == {} then Some(MissingCanonicalOwner(category))
    else if |OwnersOf(entries, category)| > 1 then Some(DuplicateCanonicalOwner(category))
    else None
  }

  lemma OwnersNext(entries: seq<Entry>, i: nat, category: Category)
    requires i < |entries|
    ensures OwnersOf(entries[..i + 1], category)
            == OwnersOf(entries[..i], category) + if Owns(entries[i], category) then {i} else {}
  {
    assert entries[..i + 1][..i] == entries[..i];
  }

  function Count(counts: map<Category, nat>, category: Category): nat {
    if category in counts then counts[category] else 0
  }

  method HasBlankText(texts: seq<string>) returns (blank: bool)
    ensures blank <==> HasBlank(texts)
  {
    blank := false;
    var i := 0;
    while i < |texts| && !blank
      invariant 0 <= i <= |texts|
      invariant blank <==> HasBlank(texts[..i])
    {
      assert texts[..i + 1] == texts[..i] + [texts[i]];
      blank := Text.IsBlank(texts[i]);
      if blank { assert texts[..i + 1][i] == texts[i]; }
      i := i + 1;
    }
    if blank {
      var k :| 0 <= k < i && Text.IsBlank(texts[..i][k]);
      assert Text.IsBlank(texts[k]);
    } else {
      assert texts[..i] == texts;
    }
  }

  ghost predicate CountsOwners(counts: map<Category, nat>, entries: seq<Entry>) {
    forall category :: Count(counts, category) == |OwnersOf(entries, category)|
  }

  lemma CountsNext(counts: map<Category, nat>, entries: seq<Entry>, i: nat)
    requires i < |entries| && CountsOwners(counts, entries[..i])
    ensures var c := entries[i].category;
            CountsOwners(if entries[i].classification.IntendedServiceHostOwner?
                         then counts[c := Count(counts, c) + 1] else counts, entries[..i + 1])
  {
    var c := entries[i].category;
    var next :=
      if entries[i].classification.IntendedServiceHostOwner? then counts[c := Count(counts, c) + 1] else counts;
    forall category ensures Count(next, category) == |OwnersOf(entries[..i + 1], category)| {
      OwnersNext(entries, i, category);
      assert i !in OwnersOf(entries[..i], category);
      assert Count(counts, category) == |OwnersOf(entries[..i], category)|;
      if !Owns(entries[i], category) {
        assert OwnersOf(entries[..i + 1], category) == OwnersOf(entries[..i], category);
      }
    }
  }

  /** The first entry that has a fault on its own, and nothing before it has one. */
  predicate FirstEntryFault(entries: seq<Entry>, i: nat, error: InventoryError) {
    i < |entries| && EntryFault(entries[i]) == Some(error)
    && forall j :: 0 <= j < i ==> EntryFault(entries[j]).None?
  }

  predicate FirstCountFault(entries: seq<Entry>, i: nat, error: InventoryError) {
    i < |REQUIRED| && CountFault(entries, REQUIRED[i]) == Some(error)
    && forall j :: 0 <= j < i ==> CountFault(entries, REQUIRED[j]).None?
  }

  predicate EntriesSound(entries: seq<Entry>) {
    forall i :: 0 <= i < |entries| ==> EntryFault(entries[i]).None?
  }

  predicate OneOwnerEach(entries: seq<Entry>) {
    forall i :: 0 <= i < |REQUIRED| ==> |OwnersOf(entries, REQUIRED[i])| == 1
  }

  /** What the verdict means: an error is the first fault, entries before categories; acceptance that there is none. */
  predicate Judges(entries: seq<Entry>, verdict: Verdict) {
    match verdict
    case Accepted => EntriesSound(entries) && OneOwnerEach(entries)
    case Rejected(error) =>
      || (exists i :: 0 <= i < |entries| && FirstEntryFault(entries, i, error))
      || (EntriesSound(entries) && exists i :: 0 <= i < |REQUIRED| && FirstCountFault(entries, i, error))
  }

  /** The first loop: it stops at the first faulty entry, and otherwise has counted every owner. */
  method ScanEntries(entries: seq<Entry>) returns (fault: Option<InventoryError>, counts: map<Category, nat>)
    ensures fault.Some? ==> exists i :: 0 <= i < |entries| && FirstEntryFault(entries, i, fault.value)
    ensures fault.None? ==> EntriesSound(entries) && CountsOwners(counts, entries)
  {
    counts := map[];
    var i := 0;
    while i < |entries|
      invariant 0 <= i <= |entries|
      invariant forall j :: 0 <= j < i ==> EntryFault(entries[j]).None?
      invariant CountsOwners(counts, entries[..i])
    {
      var entry := entries[i];
      if entry.classification.OwnershipViolation? {
        assert FirstEntryFault(entries, i, CanonicalOwnershipViolation(entry.category));
        return Some(CanonicalOwnershipViolation(entry.category)), counts;
      }
      if entry.classification.UnknownOwner? {
        assert FirstEntryFault(entries, i, AmbiguousCanonicalOwner(entry.category));
        return Some(AmbiguousCanonicalOwner(entry.category)), counts;
      }
      CountsNext(counts, entries, i);
      if entry.classification.IntendedServiceHostOwner? {
        counts := counts[entry.category := Count(counts, entry.category) + 1];
      }
      var blank := HasBlankText(entry.texts);
      if blank {
        assert FirstEntryFault(entries, i, AmbiguousCanonicalOwner(entry.category));
        return Some(AmbiguousCanonicalOwner(entry.category)), counts;
      }
      i := i + 1;
    }
    assert entries[..i] == entries;
    fault := None;
  }

  lemma CountFaultBySize(entries: seq<Entry>, category: Category)
    ensures CountFault(entries, category)
            == if |OwnersOf(entries, category)| == 1 then None
               else if |OwnersOf(entries, category)| == 0 then Some(MissingCanonicalOwner(category))
               else Some(DuplicateCanonicalOwner(category))
  {
  }

  /** The program's validator. */
  method Validate(entries: seq<Entry>) returns (verdict: Verdict)
    ensures Judges(entries, verdict)
  {
    var fault, counts := ScanEntries(entries);
    if fault.Some? { return Rejected(fault.value); }
    var i := 0;
    while i < |REQUIRED|
      invariant 0 <= i <= |REQUIRED|
      invariant forall j :: 0 <= j < i ==> CountFault(entries, REQUIRED[j]).None?
    {
      var category := REQUIRED[i];
      CountFaultBySize(entries, category);
      var count := Count(counts, category);
      if count == 0 {
        assert FirstCountFault(entries, i, MissingCanonicalOwner(category));
        return Rejected(MissingCanonicalOwner(category));
      } else if count != 1 {
        assert FirstCountFault(entries, i, DuplicateCanonicalOwner(category));
        return Rejected(DuplicateCanonicalOwner(category));
      }
      i := i + 1;
    }
    forall j | 0 <= j < |REQUIRED| ensures |OwnersOf(entries, REQUIRED[j])| == 1 {
      CountFaultBySize(entries, REQUIRED[j]);
    }
    verdict := Accepted;
  }

  // ---------- The verdict is determined by its meaning ----------

  lemma FirstEntryFaultUnique(entries: seq<Entry>, i: nat, a: InventoryError, j: nat, b: InventoryError)
    requires FirstEntryFault(entries, i, a) && FirstEntryFault(entries, j, b)
    ensures a == b
  {
    assert i <= j && j <= i;
  }

  lemma FirstCountFaultUnique(entries: seq<Entry>, i: nat, a: InventoryError, j: nat, b: InventoryError)
    requires FirstCountFault(entries, i, a) && FirstCountFault(entries, j, b)
    ensures a == b
  {
    assert i <= j && j <= i;
  }

  lemma OneOwnerEachBySize(entries: seq<Entry>)
    ensures OneOwnerEach(entries)
            <==> forall i :: 0 <= i < |REQUIRED| ==> CountFault(entries, REQUIRED[i]).None?
  {
    forall i: nat | i < |REQUIRED|
      ensures |OwnersOf(entries, REQUIRED[i])| == 1 <==> CountFault(entries, REQUIRED[i]).None?
    {
      CountFaultBySize(entries, REQUIRED[i]);
    }
  }

  /** The inventory is accepted exactly when every entry is sound and every required category has exactly one owner. */
  lemma AcceptedExactlyWhen(entries: seq<Entry>, verdict: Verdict)
    requires Judges(entries, verdict)
    ensures verdict.Accepted? <==> EntriesSound(entries) && OneOwnerEach(entries)
  {
    OneOwnerEachBySize(entries);
  }

  /** No two verdicts fit one inventory: what the validator returns is fixed by its meaning. */
  lemma VerdictIsUnique(entries: seq<Entry>, a: Verdict, b: Verdict)
    requires Judges(entries, a) && Judges(entries, b)
    ensures a == b
  {
    AcceptedExactlyWhen(entries, a);
    AcceptedExactlyWhen(entries, b);
    if a.Rejected? {
      if EntriesSound(entries) {
        var i :| 0 <= i < |REQUIRED| && FirstCountFault(entries, i, a.error);
        var j :| 0 <= j < |REQUIRED| && FirstCountFault(entries, j, b.error);
        FirstCountFaultUnique(entries, i, a.error, j, b.error);
      } else {
        var i :| 0 <= i < |entries| && FirstEntryFault(entries, i, a.error);
        var j :| 0 <= j < |entries| && FirstEntryFault(entries, j, b.error);
        FirstEntryFaultUnique(entries, i, a.error, j, b.error);
      }
    }
  }

  /** Rows that do not own a category, like extra cache or test rows, change nothing while they are sound. */
  lemma ExtraRowsDoNotMatter(entries: seq<Entry>, extra: Entry)
    requires EntryFault(extra).None? && !extra.classification.IntendedServiceHostOwner?
    ensures EntriesSound(entries + [extra]) && OneOwnerEach(entries + [extra])
            <==> EntriesSound(entries) && OneOwnerEach(entries)
  {
    var all := entries + [extra];
    forall category ensures OwnersOf(all, category) == OwnersOf(entries, category) {
    }
    if EntriesSound(all) {
      forall i | 0 <= i < |entries| ensures EntryFault(entries[i]).None? { assert all[i] == entries[i]; }
    }
  }

  // ---------- The verdict by the fields of the entries ----------

  /** Neither a violation nor unknown, and none of its texts is blank. */
  predicate Sound(entry: Entry) {
    && entry.classification != OwnershipViolation && entry.classification != UnknownOwner
    && forall i :: 0 <= i < |entry.texts| ==> !Text.IsBlank(entry.texts[i])
  }

  predicate OwnedAt(entries: seq<Entry>, c: Category, i: nat) {
    i < |entries| && entries[i].classification == IntendedServiceHostOwner && entries[i].category == c
  }

  ghost predicate OwnedOnce(entries: seq<Entry>, c: Category) {
    && (exists i: nat :: OwnedAt(entries, c, i))
    && forall i: nat, j: nat :: OwnedAt(entries, c, i) && OwnedAt(entries, c, j) ==> i == j
  }

  lemma SoundExactlyWhen(entry: Entry)
    ensures EntryFault(entry).None? <==> Sound(entry)
    ensures EntryFault(entry) == Some(CanonicalOwnershipViolation(entry.category))
            <==> entry.classification == OwnershipViolation
  {}

  lemma OnlyMember(s: set<nat>, i: nat)
    requires i in s && |s| == 1
    ensures s == {i}
  {
    var rest := s - {i};
    assert |rest| == 0;
    assert s == {i} + rest;
  }

  lemma OwnedOnceExactlyWhen(entries: seq<Entry>, c: Category)
    ensures |OwnersOf(entries, c)| == 1 <==> OwnedOnce(entries, c)
    ensures |OwnersOf(entries, c)| == 0 <==> forall i: nat :: !OwnedAt(entries, c, i)
  {
    var owners := OwnersOf(entries, c);
    assert forall i: nat :: OwnedAt(entries, c, i) <==> i in owners;
    if |owners| == 1 {
      var i :| i in owners;
      OnlyMember(owners, i);
    }
    if OwnedOnce(entries, c) {
      var i: nat :| OwnedAt(entries, c, i);
      assert owners == {i};
    }
  }

  lemma EveryCategoryIsRequired(c: Category)
    ensures c in REQUIRED
  {
    var i :=
      match c
      case RuntimeOwnership => 0 case ComponentLifecycleHealth => 1 case RuntimeHealth => 2
      case StorageOwnerSummary => 3 case CapabilityHealth => 4 case Scheduler => 5 case SchedulerHost => 6
      case SamplerState => 7 case NativePermissionReadiness => 8 case EndpointThreat => 9 case Fusion => 10
      case EvidenceQuality => 11 case Risk => 12 case AttackContext => 13 case Graph => 14 case Baseline => 15
      case IncidentLinkedGroups => 16 case ReportTraceability => 17 case ExportTraceabilityHistory => 18
      case ProviderControllerStatus => 19;
    assert REQUIRED[i] == c;
  }

  /** Accepted exactly when every entry is sound and every one of the categories is owned once. */
  lemma AcceptedByFields(entries: seq<Entry>, verdict: Verdict)
    requires Judges(entries, verdict)
    ensures verdict.Accepted?
            <==> && (forall i :: 0 <= i < |entries| ==> Sound(entries[i]))
                 && forall c: Category :: OwnedOnce(entries, c)
  {
    AcceptedExactlyWhen(entries, verdict);
    forall i | 0 <= i < |entries| ensures EntryFault(entries[i]).None? <==> Sound(entries[i]) {
      SoundExactlyWhen(entries[i]);
    }
    forall c: Category ensures |OwnersOf(entries, c)| == 1 <==> OwnedOnce(entries, c) {
      OwnedOnceExactlyWhen(entries, c);
    }
    if OneOwnerEach(entries) {
      forall c: Category ensures OwnedOnce(entries, c) {
        EveryCategoryIsRequired(c);
        var i :| 0 <= i < |REQUIRED| && REQUIRED[i] == c;
      }
    }
  }

  /** The entry is the first that is not sound. */
  predicate FirstUnsound(entries: seq<Entry>, i: nat) {
    i < |entries| && !Sound(entries[i]) && forall j :: 0 <= j < i ==> Sound(entries[j])
  }

  /** What an error says: of the first entry that is not sound, or else of a category that is not owned once. */
  lemma RejectedTells(entries: seq<Entry>, error: InventoryError)
    requires Judges(entries, Rejected(error))
    ensures match error
            case CanonicalOwnershipViolation(c) =>
              exists i: nat :: FirstUnsound(entries, i) && entries[i].category == c
                               && entries[i].classification == OwnershipViolation
            case AmbiguousCanonicalOwner(c) =>
              exists i: nat :: FirstUnsound(entries, i) && entries[i].category == c
                               && entries[i].classification != OwnershipViolation
            case MissingCanonicalOwner(c) =>
              EntriesAllSound(entries) && forall i: nat :: !OwnedAt(entries, c, i)
            case DuplicateCanonicalOwner(c) =>
              EntriesAllSound(entries)
              && exists i: nat, j: nat :: i < j && OwnedAt(entries, c, i) && OwnedAt(entries, c, j)
  {
    forall i | 0 <= i < |entries| ensures EntryFault(entries[i]).None? <==> Sound(entries[i]) {
      SoundExactlyWhen(entries[i]);
    }
    if EntriesSound(entries) {
      var i :| 0 <= i < |REQUIRED| && FirstCountFault(entries, i, error);
      CountFaultBySize(entries, REQUIRED[i]);
      OwnedOnceExactlyWhen(entries, REQUIRED[i]);
      if error.DuplicateCanonicalOwner? { TwoOwners(entries, error.category); }
    } else {
      var i :| 0 <= i < |entries| && FirstEntryFault(entries, i, error);
      SoundExactlyWhen(entries[i]);
      assert FirstUnsound(entries, i);
    }
  }

  predicate EntriesAllSound(entries: seq<Entry>) { forall i :: 0 <= i < |entries| ==> Sound(entries[i]) }

  lemma TwoOwners(entries: seq<Entry>, c: Category)
    requires |OwnersOf(entries, c)| != 0 && |OwnersOf(entries, c)| != 1
    ensures exists i: nat, j: nat :: i < j && OwnedAt(entries, c, i) && OwnedAt(entries, c, j)
  {
    var owners := OwnersOf(entries, c);
    var i :| i in owners;
    var rest := owners - {i};
    assert |rest| == |owners| - 1;
    var j :| j in rest;
    assert OwnedAt(entries, c, i) && OwnedAt(entries, c, j);
    if i < j { assert i < j && OwnedAt(entries, c, i); } else { assert j < i && OwnedAt(entries, c, j); }
  }
}
