/** Grouping of hypotheses under a shared key, and what a finished group says. */
module IncidentGroups {
  import opened Wrappers
  import opened BaselineModel
  import opened BoundedRefs
  import opened IncidentIndexes
  import GroupKeys
  import opened Grouping
  import SafeSlug
  import Text

  // ---------- The accumulator ----------

  datatype Refs = Refs(
    hypotheses: seq<Id>,
    evidence: seq<Id>,
    facts: seq<Id>,
    findings: seq<Id>,
    risks: seq<Id>,
    graph: seq<Id>,
    baselines: seq<Id>)

  datatype Notes = Notes(attack: seq<AttackRef>, missing: seq<string>, degraded: seq<string>, times: seq<int>)

  datatype View = View(refs: Refs, notes: Notes)

  const NEW_VIEW := View(Refs([], [], [], [], [], [], []), Notes([], [], [], []))

  function Slugs(values: seq<string>): (r: seq<string>)
    ensures |r| == |values|
  {
    seq(|values|, i requires 0 <= i < |values| => SafeSlug.SlugOf(values[i]))
  }

  function DegradedSlugs(h: Hypothesis): seq<string> {
    if h.degradedReason.Some? then [SafeSlug.SlugOf(h.degradedReason.value)] else []
  }

  /** The baseline ids of the facts, in fact order. */
  function BaselinesOf(facts: seq<Id>, index: FactIndex): seq<Id> {
    if facts == [] then []
    else
      var n := |facts| - 1;
      BaselinesOf(facts[..n], index) + Entry(index, facts[n])
  }

  function AddRefs(r: Refs, h: Hypothesis, index: FactIndex): Refs {
    Refs(PushRef(r.hypotheses, h.id),
         ExtendRefs(r.evidence, h.evidenceRefs),
         ExtendRefs(r.facts, h.factRefs),
         ExtendRefs(r.findings, h.findingRefs),
         ExtendRefs(r.risks, h.riskRefs),
         ExtendRefs(r.graph, h.graphRefs),
         ExtendRefs(r.baselines, BaselinesOf(h.factRefs, index)))
  }

  function AddNotes(n: Notes, h: Hypothesis): Notes {
    Notes(ExtendRefs(n.attack, h.attackRefs),
          ExtendRefs(n.missing, Slugs(h.missingVisibility)),
          ExtendRefs(n.degraded, DegradedSlugs(h)),
          n.times + [h.createdAt])
  }

  function Add(view: View, h: Hypothesis, index: FactIndex): View {
    View(AddRefs(view.refs, h, index), AddNotes(view.notes, h))
  }

  function AddWith(index: FactIndex): (View, Hypothesis) -> View { (view, h) => Add(view, h, index) }

  function Accumulate(members: seq<Hypothesis>, index: FactIndex): View {
    Grouping.Fold(AddWith(index), NEW_VIEW, members)
  }

  /** The builder that the program keeps for every key. */
  class GroupBuilder {
    var hypotheses: seq<Id>
    var evidence: seq<Id>
    var facts: seq<Id>
    var findings: seq<Id>
    var risks: seq<Id>
    var graph: seq<Id>
    var baselines: seq<Id>
    var attack: seq<AttackRef>
    var missing: seq<string>
    var degraded: seq<string>
    var times: seq<int>

    function Contents(): View
      reads this
    {
      View(Refs(hypotheses, evidence, facts, findings, risks, graph, baselines),
           Notes(attack, missing, degraded, times))
    }

    constructor ()
      ensures Contents() == NEW_VIEW
    {
      hypotheses, evidence, facts, findings, risks, graph, baselines := [], [], [], [], [], [], [];
      attack, missing, degraded, times := [], [], [], [];
    }

    /** The builder as it stands in the map. */
    constructor Holding(view: View)
      ensures Contents() == view
    {
      hypotheses, evidence, facts := view.refs.hypotheses, view.refs.evidence, view.refs.facts;
      findings := view.refs.findings;
      risks, graph, baselines := view.refs.risks, view.refs.graph, view.refs.baselines;
      attack, missing, degraded, times := view.notes.attack, view.notes.missing, view.notes.degraded, view.notes.times;
    }

    method AddReferences(h: Hypothesis, index: FactIndex)
      modifies `hypotheses, `evidence, `facts, `findings, `risks, `graph, `baselines
      ensures Contents().refs == AddRefs(old(Contents().refs), h, index)
    {
      hypotheses := PushRef(hypotheses, h.id);
      evidence := ExtendRefs(evidence, h.evidenceRefs);
      facts := ExtendRefs(facts, h.factRefs);
      findings := ExtendRefs(findings, h.findingRefs);
      risks := ExtendRefs(risks, h.riskRefs);
      graph := ExtendRefs(graph, h.graphRefs);
      baselines := ExtendBaselines(baselines, h.factRefs, index);
    }

    method AddReason(h: Hypothesis)
      modifies `degraded
      ensures degraded == ExtendRefs(old(degraded), DegradedSlugs(h))
    {
      if h.degradedReason.Some? {
        degraded := PushSafeString(degraded, h.degradedReason.value);
        ExtendOne(old(degraded), DegradedSlugs(h)[0]);
      }
    }

    method AddHypothesis(h: Hypothesis, index: FactIndex)
      modifies this
      ensures Contents() == Add(old(Contents()), h, index)
    {
      AddReferences(h, index);
      missing := ExtendStrings(missing, h.missingVisibility);
      AddReason(h);
      attack := ExtendRefs(attack, h.attackRefs);
      times := times + [h.createdAt];
    }
  }

  lemma ExtendOne<T>(values: seq<T>, x: T)
    ensures ExtendRefs(values, [x]) == PushRef(values, x)
  {
    assert [x][1..] == [];
  }

  /** A reason or flag is normalised before it is pushed. */
  method PushSafeString(values: seq<string>, value: string) returns (pushed: seq<string>)
    ensures pushed == PushRef(values, SafeSlug.SlugOf(value))
  {
    var slug := SafeSlug.Slug(value);
    SafeSlug.SlugShape(value);
    pushed := values;
    if slug != "" && |values| < MAX_BASELINE_REFS && slug !in values { pushed := values + [slug]; }
  }

  method ExtendStrings(values: seq<string>, incoming: seq<string>) returns (extended: seq<string>)
    ensures extended == ExtendRefs(values, Slugs(incoming))
  {
    extended := values;
    var i := 0;
    while i < |incoming|
      invariant 0 <= i <= |incoming|
      invariant extended == ExtendRefs(values, Slugs(incoming[..i]))
    {
      ExtendLast(values, Slugs(incoming[..i]), SafeSlug.SlugOf(incoming[i]));
      assert Slugs(incoming[..i + 1]) == Slugs(incoming[..i]) + [SafeSlug.SlugOf(incoming[i])];
      extended := PushSafeString(extended, incoming[i]);
      i := i + 1;
    }
    assert incoming[..i] == incoming;
  }

  method ExtendBaselines(values: seq<Id>, facts: seq<Id>, index: FactIndex) returns (extended: seq<Id>)
    ensures extended == ExtendRefs(values, BaselinesOf(facts, index))
  {
    extended := values;
    var i := 0;
    while i < |facts|
      invariant 0 <= i <= |facts|
      invariant extended == ExtendRefs(values, BaselinesOf(facts[..i], index))
    {
      assert facts[..i + 1][..i] == facts[..i];
      ExtendComposes(values, BaselinesOf(facts[..i], index), Entry(index, facts[i]));
      if facts[i] in index { extended := ExtendRefs(extended, index[facts[i]]); }
      i := i + 1;
    }
    assert facts[..i] == facts;
  }

  // ---------- Grouping ----------

  /** The hypotheses with evidence, each with its key; the others are skipped. */
  function KeyedOf(hs: seq<Hypothesis>, facts: seq<Fact>, hash: Hash): seq<Keyed<Hypothesis>> {
    if hs == [] then []
    else
      var n := |hs| - 1;
      var front := KeyedOf(hs[..n], facts, hash);
      if hs[n].evidenceRefs == [] then front else front + [Keyed(GroupKeys.KeyOf(hs[n], facts, hash), hs[n])]
  }

  lemma KeyedNext(hs: seq<Hypothesis>, i: nat, facts: seq<Fact>, hash: Hash)
    requires i < |hs|
    ensures KeyedOf(hs[..i + 1], facts, hash)
            == if hs[i].evidenceRefs == [] then KeyedOf(hs[..i], facts, hash)
               else KeyedOf(hs[..i], facts, hash) + [Keyed(GroupKeys.KeyOf(hs[i], facts, hash), hs[i])]
  {
    assert hs[..i + 1][..i] == hs[..i];
  }

  /** One step of the program's loop: find or create what is held under a key, and add the hypothesis to it. */
  method AddToGroup(held: View, h: Hypothesis, index: FactIndex) returns (view: View)
    ensures view == Add(held, h, index)
  {
    var builder := new GroupBuilder.Holding(held);
    builder.AddHypothesis(h, index);
    view := builder.Contents();
  }

  /** The program's accumulation loop; the map owns its builders, so they are held as values. */
  method CollectGroups(hs: seq<Hypothesis>, facts: seq<Fact>, hash: Hash, index: FactIndex)
    returns (groups: map<string, View>)
    ensures FoldsOf(groups, KeyedOf(hs, facts, hash), AddWith(index), NEW_VIEW)
  {
    groups := map[];
    var i := 0;
    while i < |hs|
      invariant 0 <= i <= |hs|
      invariant FoldsOf(groups, KeyedOf(hs[..i], facts, hash), AddWith(index), NEW_VIEW)
    {
      KeyedNext(hs, i, facts, hash);
      if hs[i].evidenceRefs != [] {
        var key := GroupKeys.GroupKeyForHypothesis(hs[i], facts, hash);
        FoldsNext(groups, KeyedOf(hs[..i], facts, hash), Keyed(key, hs[i]), AddWith(index), NEW_VIEW);
        var view := AddToGroup(if key in groups then groups[key] else NEW_VIEW, hs[i], index);
        groups := groups[key := view];
      }
      i := i + 1;
    }
    assert hs[..i] == hs;
  }

  // ---------- Finishing a group ----------

  datatype Group = Group(
    incident: Option<Id>,
    refs: Refs,
    attack: seq<AttackRef>,
    missing: seq<string>,
    degradedReason: string,
    firstSeen: Option<int>,
    lastUpdated: Option<int>,
    weakMerge: bool,
    broadMergeRejected: bool)

  const METADATA_ONLY := "metadata_only_visibility"

  function InsertTime(t: int, times: seq<int>): seq<int> {
    if times == [] then [t]
    else if t <= times[0] then [t] + times
    else [times[0]] + InsertTime(t, times[1..])
  }

  function SortTimes(times: seq<int>): seq<int> {
    if times == [] then [] else InsertTime(times[0], SortTimes(times[1..]))
  }

  function FirstOwned(findings: seq<Id>, owners: OwnerIndex): Option<Id> {
    if findings == [] then None
    else if findings[0] in owners then Some(owners[findings[0]])
    else FirstOwned(findings[1..], owners)
  }

  /** The flags are normalised a second time, and only then sorted. */
  function BoundedStrings(values: seq<string>): seq<string> {
    Take(Text.Dedup(Text.Sort(Bounded(Slugs(values)))), MAX_BASELINE_REFS)
  }

  function BoundAll(r: Refs): Refs {
    Refs(Bounded(r.hypotheses), Bounded(r.evidence), Bounded(r.facts), Bounded(r.findings),
         Bounded(r.risks), Bounded(r.graph), Bounded(r.baselines))
  }

  function Build(view: View, owners: OwnerIndex): Option<Group> {
    if view.refs.hypotheses == [] || view.refs.evidence == [] then None
    else
      var sorted := SortTimes(view.notes.times);
      Some(Group(
        FirstOwned(view.refs.findings, owners),
        BoundAll(view.refs),
        Bounded(view.notes.attack),
        BoundedStrings(view.notes.missing),
        if view.notes.degraded == [] then METADATA_ONLY else view.notes.degraded[0],
        if sorted == [] then None else Some(sorted[0]),
        if sorted == [] then None else Some(sorted[|sorted| - 1]),
        |view.refs.hypotheses| <= 1 || |view.refs.evidence| <= 1,
        |view.refs.baselines| <= 1 && |view.refs.facts| <= 1 && |view.refs.hypotheses| > 1))
  }

  datatype Source = Source(
    hypotheses: seq<Hypothesis>,
    facts: seq<Fact>,
    records: seq<BaselineRecord>,
    incidents: seq<Incident>,
    alerts: seq<Alert>)

  /** The members of a group: the hypotheses with evidence that carry its key. */
  function GroupMembers(state: Source, hash: Hash, key: string): seq<Hypothesis> {
    Members(KeyedOf(state.hypotheses, state.facts, hash), key)
  }

  /** The program's builder of incident groups, before the final ordering and the cut at 128 groups. */
  method BuildIncidentGroups(state: Source, hash: Hash)
    returns (built: map<string, Group>, index: FactIndex, owners: OwnerIndex)
    ensures IndexesFacts(index, state.records)
    ensures forall f :: Owner(owners, f) == OwnerOf(state.incidents, state.alerts, f)
    ensures forall key :: key in built <==> GroupMembers(state, hash, key) != []
    ensures forall key :: key in built ==>
              Some(built[key]) == Build(Accumulate(GroupMembers(state, hash, key), index), owners)
  {
    index := RecordsByFact(state.records);
    var groups := CollectGroups(state.hypotheses, state.facts, hash, index);
    owners := FindingToIncident(state.incidents, state.alerts);
    built := map key | key in groups && Build(groups[key], owners).Some? :: Build(groups[key], owners).value;
    forall key ensures key in built <==> GroupMembers(state, hash, key) != [] {
      assert FoldAt(groups, KeyedOf(state.hypotheses, state.facts, hash), AddWith(index), NEW_VIEW, key);
      if key in groups {
        MembersHaveEvidence(state.hypotheses, state.facts, hash, key);
        BuildNeverDrops(GroupMembers(state, hash, key), index, owners);
      }
    }
    forall key | key in built
      ensures Some(built[key]) == Build(Accumulate(GroupMembers(state, hash, key), index), owners)
    {
      assert FoldAt(groups, KeyedOf(state.hypotheses, state.facts, hash), AddWith(index), NEW_VIEW, key);
    }
  }

  predicate AllHaveEvidence(members: seq<Hypothesis>) {
    forall i :: 0 <= i < |members| ==> members[i].evidenceRefs != []
  }

  lemma {:induction false} MembersHaveEvidence(hs: seq<Hypothesis>, facts: seq<Fact>, hash: Hash, key: string)
    ensures AllHaveEvidence(Members(KeyedOf(hs, facts, hash), key))
  {
    if hs != [] {
      var n := |hs| - 1;
      MembersHaveEvidence(hs[..n], facts, hash, key);
      assert hs[..n + 1] == hs;
      KeyedNext(hs, n, facts, hash);
      if hs[n].evidenceRefs != [] {
        MembersNext(KeyedOf(hs[..n], facts, hash), Keyed(GroupKeys.KeyOf(hs[n], facts, hash), hs[n]), key);
      }
    }
  }

  /** A group with a member is always built: the check for empty references never fires. */
  lemma {:induction false} BuildNeverDrops(members: seq<Hypothesis>, index: FactIndex, owners: OwnerIndex)
    requires members != [] && AllHaveEvidence(members)
    ensures Build(Accumulate(members, index), owners).Some?
  {
    var n := |members| - 1;
    var before := Accumulate(members[..n], index);
    assert Accumulate(members, index) == Add(before, members[n], index);
    ExtendKeepsSome(before.refs.evidence, members[n].evidenceRefs);
  }

  lemma {:induction false} ExtendKeepsSome<T>(values: seq<T>, incoming: seq<T>)
    requires values != [] || incoming != []
    ensures ExtendRefs(values, incoming) != []
    decreases |incoming|
  {
    if incoming != [] { ExtendKeepsSome(PushRef(values, incoming[0]), incoming[1..]); }
  }
}
