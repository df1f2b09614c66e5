/** What a finished incident group says about the hypotheses it was built from. */
module GroupTheorems {
  import opened Wrappers
  import opened BaselineModel
  import opened BoundedRefs
  import opened Grouping
  import opened IncidentGroups
  import opened IncidentIndexes
  import GroupKeys
  import GroupKeyFields
  import SafeSlug
  import Text

  // ---------- Who is in which group ----------

  lemma {:induction false} KeyedExactlyWhen(
    hs: seq<Hypothesis>, facts: seq<Fact>, hash: Hash, key: string, h: Hypothesis)
    ensures Keyed(key, h) in KeyedOf(hs, facts, hash)
            <==> h in hs && h.evidenceRefs != [] && key == GroupKeys.KeyOf(h, facts, hash)
  {
    if hs != [] {
      var n := |hs| - 1;
      KeyedExactlyWhen(hs[..n], facts, hash, key, h);
      assert hs == hs[..n] + [hs[n]];
      assert hs[..n + 1] == hs;
      KeyedNext(hs, n, facts, hash);
    }
  }

  /** A hypothesis is in a group exactly when it has evidence and carries the group's key. */
  lemma MemberOfGroupExactlyWhen(state: Source, hash: Hash, key: string, h: Hypothesis)
    ensures h in GroupMembers(state, hash, key)
            <==> h in state.hypotheses && h.evidenceRefs != [] && key == GroupKeys.KeyOf(h, state.facts, hash)
  {
    KeyedExactlyWhen(state.hypotheses, state.facts, hash, key, h);
    MemberExactlyWhen(KeyedOf(state.hypotheses, state.facts, hash), key, h);
  }

  /** Two hypotheses with evidence are in one group exactly when they say the same of everything a key is made of. */
  lemma SameGroupExactlyWhen(state: Source, hash: Hash, a: Hypothesis, b: Hypothesis)
    requires a in state.hypotheses && b in state.hypotheses && a.evidenceRefs != [] && b.evidenceRefs != []
    ensures b in GroupMembers(state, hash, GroupKeys.KeyOf(a, state.facts, hash))
            <==> GroupKeyFields.SayTheSame(a, b, state.facts, hash)
  {
    var key := GroupKeys.KeyOf(a, state.facts, hash);
    MemberOfGroupExactlyWhen(state, hash, key, b);
    GroupKeyFields.SameKeyExactlyWhen(a, b, state.facts, hash);
  }

  function Evidenced(hs: seq<Hypothesis>): seq<Hypothesis> {
    if hs == [] then []
    else
      var n := |hs| - 1;
      if hs[n].evidenceRefs == [] then Evidenced(hs[..n]) else Evidenced(hs[..n]) + [hs[n]]
  }

  lemma {:induction false} KeyedCount(hs: seq<Hypothesis>, facts: seq<Fact>, hash: Hash)
    ensures |KeyedOf(hs, facts, hash)| == |Evidenced(hs)|
  {
    if hs != [] {
      var n := |hs| - 1;
      KeyedCount(hs[..n], facts, hash);
      assert hs[..n + 1] == hs;
      KeyedNext(hs, n, facts, hash);
    }
  }

  /** Over any list of different keys that covers the groups, the groups hold every evidenced hypothesis once. */
  lemma GroupsHoldEveryHypothesisOnce(state: Source, hash: Hash, keys: seq<string>)
    requires DistinctKeys(keys) && forall key :: GroupMembers(state, hash, key) != [] ==> key in keys
    ensures CountOver(keys, KeyedOf(state.hypotheses, state.facts, hash)) == |Evidenced(state.hypotheses)|
  {
    var items := KeyedOf(state.hypotheses, state.facts, hash);
    forall i | 0 <= i < |items| ensures items[i].key in keys {
      assert Keyed(items[i].key, items[i].item) in items;
      MemberExactlyWhen(items, items[i].key, items[i].item);
    }
    GroupsPartition(keys, items);
    KeyedCount(state.hypotheses, state.facts, hash);
  }

  // ---------- What a group's references are ----------

  function Flat<T>(members: seq<Hypothesis>, part: Hypothesis -> seq<T>): seq<T> {
    if members == [] then []
    else
      var n := |members| - 1;
      Flat(members[..n], part) + part(members[n])
  }

  function IdOf(h: Hypothesis): seq<Id> { [h.id] }
  function EvidenceOf(h: Hypothesis): seq<Id> { h.evidenceRefs }
  function FactsOf(h: Hypothesis): seq<Id> { h.factRefs }
  function FindingsOf(h: Hypothesis): seq<Id> { h.findingRefs }
  function RisksOf(h: Hypothesis): seq<Id> { h.riskRefs }
  function GraphOf(h: Hypothesis): seq<Id> { h.graphRefs }
  function AttackOf(h: Hypothesis): seq<AttackRef> { h.attackRefs }
  function FlagsOf(h: Hypothesis): seq<string> { Slugs(h.missingVisibility) }
  function TimeOf(h: Hypothesis): seq<int> { [h.createdAt] }
  function BaselinesWith(index: FactIndex): Hypothesis -> seq<Id> { (h: Hypothesis) => BaselinesOf(h.factRefs, index) }

  /** The references of all members, bounded once. */
  function RefsOf(members: seq<Hypothesis>, index: FactIndex): Refs {
    Refs(Bounded(Flat(members, IdOf)),
         Bounded(Flat(members, EvidenceOf)),
         Bounded(Flat(members, FactsOf)),
         Bounded(Flat(members, FindingsOf)),
         Bounded(Flat(members, RisksOf)),
         Bounded(Flat(members, GraphOf)),
         Bounded(Flat(members, BaselinesWith(index))))
  }

  function NotesOf(members: seq<Hypothesis>): Notes {
    Notes(Bounded(Flat(members, AttackOf)),
          Bounded(Flat(members, FlagsOf)),
          Bounded(Flat(members, DegradedSlugs)),
          Flat(members, TimeOf))
  }

  lemma FlatStep<T>(members: seq<Hypothesis>, part: Hypothesis -> seq<T>)
    requires members != []
    ensures var n := |members| - 1;
            ExtendRefs(Bounded(Flat(members[..n], part)), part(members[n])) == Bounded(Flat(members, part))
  {
    var n := |members| - 1;
    BoundedExtends(Flat(members[..n], part), part(members[n]));
  }

  lemma {:induction false} RefsAccumulate(members: seq<Hypothesis>, index: FactIndex)
    ensures Accumulate(members, index).refs == RefsOf(members, index)
  {
    if members != [] {
      var n := |members| - 1;
      RefsAccumulate(members[..n], index);
      var r := Accumulate(members[..n], index).refs;
      assert Accumulate(members, index).refs == AddRefs(r, members[n], index);
      ExtendOne(r.hypotheses, members[n].id);
      FlatStep(members, IdOf);
      FlatStep(members, EvidenceOf);
      FlatStep(members, FactsOf);
      FlatStep(members, FindingsOf);
      FlatStep(members, RisksOf);
      FlatStep(members, GraphOf);
      FlatStep(members, BaselinesWith(index));
    }
  }

  lemma {:induction false} NotesAccumulate(members: seq<Hypothesis>, index: FactIndex)
    ensures Accumulate(members, index).notes == NotesOf(members)
  {
    if members != [] {
      var n := |members| - 1;
      NotesAccumulate(members[..n], index);
      assert Accumulate(members, index).notes == AddNotes(Accumulate(members[..n], index).notes, members[n]);
      FlatStep(members, AttackOf);
      FlatStep(members, FlagsOf);
      FlatStep(members, DegradedSlugs);
    }
  }

  /** A built group lists the first 64 distinct references of its members; bounding again when built changes nothing. */
  lemma GroupHoldsBoundedRefs(members: seq<Hypothesis>, index: FactIndex, owners: OwnerIndex)
    requires members != [] && AllHaveEvidence(members)
    ensures Build(Accumulate(members, index), owners).Some?
    ensures Build(Accumulate(members, index), owners).value.refs == RefsOf(members, index)
    ensures Build(Accumulate(members, index), owners).value.attack == Bounded(Flat(members, AttackOf))
  {
    BuildNeverDrops(members, index, owners);
    RefsAccumulate(members, index);
    NotesAccumulate(members, index);
    BoundedIdempotent(Flat(members, IdOf));
    BoundedIdempotent(Flat(members, EvidenceOf));
    BoundedIdempotent(Flat(members, FactsOf));
    BoundedIdempotent(Flat(members, FindingsOf));
    BoundedIdempotent(Flat(members, RisksOf));
    BoundedIdempotent(Flat(members, GraphOf));
    BoundedIdempotent(Flat(members, BaselinesWith(index)));
    BoundedIdempotent(Flat(members, AttackOf));
  }

  predicate SomeMember<T(==)>(members: seq<Hypothesis>, part: Hypothesis -> seq<T>, x: T) {
    exists i :: 0 <= i < |members| && x in part(members[i])
  }

  lemma {:induction false} FlatMember<T>(members: seq<Hypothesis>, part: Hypothesis -> seq<T>, x: T)
    ensures x in Flat(members, part) <==> SomeMember(members, part, x)
  {
    if members != [] {
      var n := |members| - 1;
      FlatMember(members[..n], part, x);
      if SomeMember(members[..n], part, x) {
        var i :| 0 <= i < n && x in part(members[..n][i]);
        assert x in part(members[i]);
      }
      if SomeMember(members, part, x) {
        var i :| 0 <= i < |members| && x in part(members[i]);
        if i < n { assert x in part(members[..n][i]); }
      }
    }
  }

  /** A reference bounded over the members comes from a member, and is missing only when 64 others came first. */
  lemma BoundedFromMembers<T>(members: seq<Hypothesis>, part: Hypothesis -> seq<T>, x: T)
    ensures x in Bounded(Flat(members, part)) ==> SomeMember(members, part, x)
    ensures SomeMember(members, part, x) && |Bounded(Flat(members, part))| < MAX_BASELINE_REFS
            ==> x in Bounded(Flat(members, part))
  {
    var all := Flat(members, part);
    FlatMember(members, part, x);
    BoundedShape(all);
    BoundedIsFirstDistinct(all);
    DistinctMembers(all);
  }

  lemma {:induction false} BaselinesMember(facts: seq<Id>, index: FactIndex, id: Id)
    ensures id in BaselinesOf(facts, index) <==> exists fact :: fact in facts && fact in index && id in index[fact]
  {
    if facts != [] {
      var n := |facts| - 1;
      BaselinesMember(facts[..n], index, id);
      assert facts == facts[..n] + [facts[n]];
    }
  }

  /** A record shares a fact with one of the members. */
  predicate SharesFact(members: seq<Hypothesis>, records: seq<BaselineRecord>, id: Id) {
    exists i, fact :: 0 <= i < |members| && fact in members[i].factRefs && Lists(records, id, fact)
  }

  /** Every baseline reference of a group belongs to a record that shares a fact with a member. */
  lemma BaselineSharesFact(
    members: seq<Hypothesis>, records: seq<BaselineRecord>, index: FactIndex, owners: OwnerIndex, id: Id)
    requires members != [] && AllHaveEvidence(members) && IndexesFacts(index, records)
    ensures Build(Accumulate(members, index), owners).Some?
    ensures var refs := Build(Accumulate(members, index), owners).value.refs.baselines;
            && (id in refs ==> SharesFact(members, records, id))
            && (SharesFact(members, records, id) && |refs| < MAX_BASELINE_REFS ==> id in refs)
  {
    GroupHoldsBoundedRefs(members, index, owners);
    BuildNeverDrops(members, index, owners);
    var part := BaselinesWith(index);
    BoundedFromMembers(members, part, id);
    if SomeMember(members, part, id) {
      var i :| 0 <= i < |members| && id in part(members[i]);
      BaselinesMember(members[i].factRefs, index, id);
      var fact :| fact in members[i].factRefs && fact in index && id in index[fact];
      IndexedExactlyWhen(index, records, fact, id);
    }
    if SharesFact(members, records, id) {
      var i, fact :| 0 <= i < |members| && fact in members[i].factRefs && Lists(records, id, fact);
      IndexedExactlyWhen(index, records, fact, id);
      BaselinesMember(members[i].factRefs, index, id);
      assert id in part(members[i]);
    }
  }

  /** Every piece of evidence in a group comes from a member; none is missing below the cap. */
  lemma EvidenceComesFromMembers(members: seq<Hypothesis>, index: FactIndex, owners: OwnerIndex, id: Id)
    requires members != [] && AllHaveEvidence(members)
    ensures Build(Accumulate(members, index), owners).Some?
    ensures var refs := Build(Accumulate(members, index), owners).value.refs.evidence;
            && (id in refs ==> SomeMember(members, EvidenceOf, id))
            && (SomeMember(members, EvidenceOf, id) && |refs| < MAX_BASELINE_REFS ==> id in refs)
  {
    BuildNeverDrops(members, index, owners);
    GroupHoldsBoundedRefs(members, index, owners);
    BoundedFromMembers(members, EvidenceOf, id);
  }

  // ---------- The incident of a group ----------

  lemma {:induction false} FirstOwnedIs(findings: seq<Id>, owners: OwnerIndex, i: nat)
    requires i < |findings| && findings[i] in owners
    requires forall j :: 0 <= j < i ==> findings[j] !in owners
    ensures FirstOwned(findings, owners) == Some(owners[findings[i]])
  {
    if i > 0 { FirstOwnedIs(findings[1..], owners, i - 1); }
  }

  lemma {:induction false} FirstOwnedNone(findings: seq<Id>, owners: OwnerIndex)
    ensures FirstOwned(findings, owners).None? <==> forall j :: 0 <= j < |findings| ==> findings[j] !in owners
  {
    if findings != [] {
      FirstOwnedNone(findings[1..], owners);
      assert findings == [findings[0]] + findings[1..];
    }
  }

  predicate Unreached(state: Source, findings: seq<Id>) {
    forall i :: 0 <= i < |findings| ==> OwnerOf(state.incidents, state.alerts, findings[i]).None?
  }

  ghost predicate OwnsFindings(owners: OwnerIndex, state: Source) {
    forall f :: Owner(owners, f) == OwnerOf(state.incidents, state.alerts, f)
  }

  lemma FirstOwnedNoneExactlyWhen(state: Source, owners: OwnerIndex, findings: seq<Id>)
    requires OwnsFindings(owners, state)
    ensures FirstOwned(findings, owners).None? <==> Unreached(state, findings)
  {
    FirstOwnedNone(findings, owners);
    forall i | 0 <= i < |findings|
      ensures findings[i] in owners <==> OwnerOf(state.incidents, state.alerts, findings[i]).Some?
    {
      assert Owner(owners, findings[i]) == OwnerOf(state.incidents, state.alerts, findings[i]);
    }
  }

  lemma BuildIncident(view: View, owners: OwnerIndex)
    requires Build(view, owners).Some?
    ensures Build(view, owners).value.incident == FirstOwned(view.refs.findings, owners)
  {
  }

  /** The group is linked to the last incident that reaches its first finding that any incident reaches. */
  lemma IncidentIsOwnerOfFirstReached(
    state: Source, members: seq<Hypothesis>, index: FactIndex, owners: OwnerIndex, i: nat)
    requires members != [] && AllHaveEvidence(members) && OwnsFindings(owners, state)
    requires var findings := Bounded(Flat(members, FindingsOf));
             && i < |findings|
             && OwnerOf(state.incidents, state.alerts, findings[i]).Some?
             && Unreached(state, findings[..i])
    ensures Build(Accumulate(members, index), owners).Some?
    ensures Build(Accumulate(members, index), owners).value.incident
            == OwnerOf(state.incidents, state.alerts, Bounded(Flat(members, FindingsOf))[i])
  {
    BuildNeverDrops(members, index, owners);
    var view := Accumulate(members, index);
    assert view.refs.findings == Bounded(Flat(members, FindingsOf)) by { RefsAccumulate(members, index); }
    BuildIncident(view, owners);
    FirstOwnedIsReached(state, owners, view.refs.findings, i);
  }

  lemma FirstOwnedIsReached(state: Source, owners: OwnerIndex, findings: seq<Id>, i: nat)
    requires OwnsFindings(owners, state) && i < |findings| && Unreached(state, findings[..i])
    requires OwnerOf(state.incidents, state.alerts, findings[i]).Some?
    ensures FirstOwned(findings, owners) == OwnerOf(state.incidents, state.alerts, findings[i])
  {
    assert Owner(owners, findings[i]) == OwnerOf(state.incidents, state.alerts, findings[i]);
    forall j | 0 <= j < i ensures findings[j] !in owners {
      assert Owner(owners, findings[..i][j]) == OwnerOf(state.incidents, state.alerts, findings[..i][j]);
    }
    FirstOwnedIs(findings, owners, i);
  }

  /** A group has no incident exactly when no incident reaches any of the findings it lists. */
  lemma NoIncidentExactlyWhen(state: Source, members: seq<Hypothesis>, index: FactIndex, owners: OwnerIndex)
    requires members != [] && AllHaveEvidence(members) && OwnsFindings(owners, state)
    ensures Build(Accumulate(members, index), owners).Some?
    ensures Build(Accumulate(members, index), owners).value.incident.None?
            <==> Unreached(state, Bounded(Flat(members, FindingsOf)))
  {
    BuildNeverDrops(members, index, owners);
    var view := Accumulate(members, index);
    assert view.refs.findings == Bounded(Flat(members, FindingsOf)) by { RefsAccumulate(members, index); }
    BuildIncident(view, owners);
    FirstOwnedNoneExactlyWhen(state, owners, view.refs.findings);
  }

  lemma BoundedAtMostOne<T>(xs: seq<T>)
    ensures |Bounded(xs)| <= 1 <==> |Distinct(xs)| <= 1
  {
    BoundedIsFirstDistinct(xs);
  }

  /** The merge warnings count different references over all members; the cap of 64 does not affect them. */
  lemma WarningsCountDistinctRefs(members: seq<Hypothesis>, index: FactIndex, owners: OwnerIndex)
    requires members != [] && AllHaveEvidence(members)
    ensures Build(Accumulate(members, index), owners).Some?
    ensures Build(Accumulate(members, index), owners).value.weakMerge
            <==> |Distinct(Flat(members, IdOf))| <= 1 || |Distinct(Flat(members, EvidenceOf))| <= 1
    ensures Build(Accumulate(members, index), owners).value.broadMergeRejected
            <==> && |Distinct(Flat(members, BaselinesWith(index)))| <= 1
                 && |Distinct(Flat(members, FactsOf))| <= 1
                 && |Distinct(Flat(members, IdOf))| > 1
  {
    BuildNeverDrops(members, index, owners);
    var view := Accumulate(members, index);
    assert view.refs == RefsOf(members, index) by { RefsAccumulate(members, index); }
    BuildWarnings(view, owners);
    BoundedAtMostOne(Flat(members, IdOf));
    BoundedAtMostOne(Flat(members, EvidenceOf));
    BoundedAtMostOne(Flat(members, FactsOf));
    BoundedAtMostOne(Flat(members, BaselinesWith(index)));
  }

  lemma BuildWarnings(view: View, owners: OwnerIndex)
    requires Build(view, owners).Some?
    ensures Build(view, owners).value.weakMerge <==> |view.refs.hypotheses| <= 1 || |view.refs.evidence| <= 1
    ensures Build(view, owners).value.broadMergeRejected
            <==> |view.refs.baselines| <= 1 && |view.refs.facts| <= 1 && |view.refs.hypotheses| > 1
  {
  }

  // ---------- The times of a group ----------

  predicate Ordered(times: seq<int>) { forall i, j :: 0 <= i < j < |times| ==> times[i] <= times[j] }

  lemma {:induction false} InsertTimeMember(t: int, times: seq<int>, x: int)
    ensures x in InsertTime(t, times) <==> x == t || x in times
  {
    if times != [] {
      assert times == [times[0]] + times[1..];
      InsertTimeMember(t, times[1..], x);
    }
  }

  lemma {:induction false} InsertTimeSorts(t: int, times: seq<int>)
    requires Ordered(times)
    ensures Ordered(InsertTime(t, times))
  {
    if times != [] && t > times[0] {
      InsertTimeSorts(t, times[1..]);
      var rest := InsertTime(t, times[1..]);
      forall k | 0 <= k < |rest| ensures times[0] <= rest[k] {
        InsertTimeMember(t, times[1..], rest[k]);
      }
    }
  }

  lemma {:induction false} SortTimesSorts(times: seq<int>)
    ensures Ordered(SortTimes(times)) && SameMembers(SortTimes(times), times)
  {
    if times != [] {
      assert times == [times[0]] + times[1..];
      var rest := SortTimes(times[1..]);
      SortTimesSorts(times[1..]);
      InsertTimeSorts(times[0], rest);
      forall x ensures x in SortTimes(times) <==> x in times { InsertTimeMember(times[0], rest, x); }
    }
  }

  /** The ends of the sorted times are times themselves, and bound all of them. */
  lemma SortedEnds(times: seq<int>)
    requires times != []
    ensures var s := SortTimes(times);
            && s != [] && s[0] in times && s[|s| - 1] in times
            && forall t :: t in times ==> s[0] <= t <= s[|s| - 1]
  {
    var s := SortTimes(times);
    SortTimesSorts(times);
    assert times[0] in s;
  }

  lemma {:induction false} TimesOfMembers(members: seq<Hypothesis>)
    ensures |Flat(members, TimeOf)| == |members|
    ensures forall i :: 0 <= i < |members| ==> Flat(members, TimeOf)[i] == members[i].createdAt
  {
    if members != [] { TimesOfMembers(members[..|members| - 1]); }
  }

  predicate CreatedAt(members: seq<Hypothesis>, t: int) {
    exists i :: 0 <= i < |members| && members[i].createdAt == t
  }

  /** The first and last time are creation times of members, and no member was created outside them. */
  predicate Spans(first: Option<int>, last: Option<int>, members: seq<Hypothesis>) {
    && first.Some? && CreatedAt(members, first.value)
    && last.Some? && CreatedAt(members, last.value)
    && forall i :: 0 <= i < |members| ==> first.value <= members[i].createdAt <= last.value
  }

  lemma BuildTimes(view: View, owners: OwnerIndex)
    requires Build(view, owners).Some? && SortTimes(view.notes.times) != []
    ensures var g, s := Build(view, owners).value, SortTimes(view.notes.times);
            g.firstSeen == Some(s[0]) && g.lastUpdated == Some(s[|s| - 1])
  {
  }

  lemma TimesOfView(view: View, members: seq<Hypothesis>, owners: OwnerIndex)
    requires members != [] && Build(view, owners).Some? && view.notes.times == Flat(members, TimeOf)
    ensures Spans(Build(view, owners).value.firstSeen, Build(view, owners).value.lastUpdated, members)
  {
    MemberTimesSorted(members);
    BuildTimes(view, owners);
  }

  /** The times of a group are the earliest and the latest creation among its members. */
  lemma TimesBoundMembers(members: seq<Hypothesis>, index: FactIndex, owners: OwnerIndex)
    requires members != [] && AllHaveEvidence(members)
    ensures Build(Accumulate(members, index), owners).Some?
    ensures var g := Build(Accumulate(members, index), owners).value;
            Spans(g.firstSeen, g.lastUpdated, members)
  {
    BuildNeverDrops(members, index, owners);
    var view := Accumulate(members, index);
    assert view.notes.times == Flat(members, TimeOf) by { NotesAccumulate(members, index); }
    TimesOfView(view, members, owners);
  }

  lemma MemberTimesSorted(members: seq<Hypothesis>)
    requires members != []
    ensures var s := SortTimes(Flat(members, TimeOf));
            && s != [] && CreatedAt(members, s[0]) && CreatedAt(members, s[|s| - 1])
            && forall i :: 0 <= i < |members| ==> s[0] <= members[i].createdAt <= s[|s| - 1]
  {
    var times := Flat(members, TimeOf);
    TimesOfMembers(members);
    SortedEnds(times);
    forall i | 0 <= i < |members| ensures members[i].createdAt in times { assert times[i] == members[i].createdAt; }
  }

  // ---------- The flags of a group ----------

  /** The flag is what normalising some member's flag twice gives. */
  predicate TwiceNormalised(members: seq<Hypothesis>, flag: string) {
    exists i :: 0 <= i < |members| && FlagOf(members[i], flag)
  }

  predicate FlagOf(h: Hypothesis, flag: string) {
    exists j :: 0 <= j < |h.missingVisibility| && flag == SafeSlug.SlugOf(SafeSlug.SlugOf(h.missingVisibility[j]))
  }

  /** Some flag of the hypothesis has the given slug. */
  predicate SluggedFlag(h: Hypothesis, slug: string) {
    exists j :: 0 <= j < |h.missingVisibility| && slug == SafeSlug.SlugOf(h.missingVisibility[j])
  }

  lemma FlagIsSlugged(h: Hypothesis, slug: string)
    requires slug in FlagsOf(h)
    ensures SluggedFlag(h, slug)
  {
    var j :| 0 <= j < |h.missingVisibility| && FlagsOf(h)[j] == slug;
  }

  lemma SlugAgain(h: Hypothesis, slug: string)
    requires SluggedFlag(h, slug)
    ensures FlagOf(h, SafeSlug.SlugOf(slug))
  {
  }

  lemma MemberFlagAgain(members: seq<Hypothesis>, slug: string)
    requires SomeMember(members, FlagsOf, slug)
    ensures TwiceNormalised(members, SafeSlug.SlugOf(slug))
  {
    var i :| 0 <= i < |members| && slug in FlagsOf(members[i]);
    FlagIsSlugged(members[i], slug);
    SlugAgain(members[i], slug);
  }

  lemma FlagsFromMembers(members: seq<Hypothesis>, flag: string)
    requires flag in BoundedStrings(Bounded(Flat(members, FlagsOf)))
    ensures TwiceNormalised(members, flag)
  {
    var once := Bounded(Flat(members, FlagsOf));
    FlagsFromSlugs(once, flag);
    var k :| 0 <= k < |once| && flag == SafeSlug.SlugOf(once[k]);
    BoundedFromMembers(members, FlagsOf, once[k]);
    MemberFlagAgain(members, once[k]);
  }

  lemma BuildFlags(view: View, owners: OwnerIndex)
    requires Build(view, owners).Some?
    ensures Build(view, owners).value.missing == BoundedStrings(view.notes.missing)
  {
  }

  /** Every flag of a finished group is a member's flag normalised twice. */
  lemma FlagsAreNormalisedTwice(members: seq<Hypothesis>, index: FactIndex, owners: OwnerIndex, flag: string)
    requires members != [] && AllHaveEvidence(members)
    requires Build(Accumulate(members, index), owners).Some?
    requires flag in Build(Accumulate(members, index), owners).value.missing
    ensures TwiceNormalised(members, flag)
  {
    var view := Accumulate(members, index);
    assert view.notes.missing == Bounded(Flat(members, FlagsOf)) by { NotesAccumulate(members, index); }
    BuildFlags(view, owners);
    FlagsFromMembers(members, flag);
  }

  lemma FlagsFromSlugs(values: seq<string>, flag: string)
    requires flag in BoundedStrings(values)
    ensures exists k :: 0 <= k < |values| && flag == SafeSlug.SlugOf(values[k])
  {
    var slugs := Slugs(values);
    var sorted := Text.Sort(Bounded(slugs));
    BoundedShape(slugs);
    Text.SortSorts(Bounded(slugs));
    Text.DedupMembers(sorted);
    assert flag in Text.Dedup(sorted);
    assert flag in slugs;
    var k :| 0 <= k < |slugs| && slugs[k] == flag;
    assert flag == SafeSlug.SlugOf(values[k]);
  }

  /** The deduplication after sorting finds nothing to drop. */
  lemma BoundedStringsShape(values: seq<string>)
    ensures Text.StrictlyAscending(BoundedStrings(values)) && |BoundedStrings(values)| <= MAX_BASELINE_REFS
    ensures forall x :: x in BoundedStrings(values) <==> x in Bounded(Slugs(values))
  {
    var bounded := Bounded(Slugs(values));
    BoundedShape(Slugs(values));
    Text.SortSorts(bounded);
    Text.DedupStrict(Text.Sort(bounded));
    Text.DedupMembers(Text.Sort(bounded));
    assert |Text.Dedup(Text.Sort(bounded))| <= MAX_BASELINE_REFS;
  }

  /** Every flag that a member raises is there, normalised twice, unless the members raise 64 different ones or more. */
  lemma FlagsAreComplete(members: seq<Hypothesis>, index: FactIndex, owners: OwnerIndex, i: nat, j: nat)
    requires members != [] && AllHaveEvidence(members)
    requires Build(Accumulate(members, index), owners).Some?
    requires i < |members| && j < |members[i].missingVisibility| && |Bounded(Flat(members, FlagsOf))| < 64
    ensures SafeSlug.SlugOf(SafeSlug.SlugOf(members[i].missingVisibility[j]))
            in Build(Accumulate(members, index), owners).value.missing
  {
    var view := Accumulate(members, index);
    assert view.notes.missing == Bounded(Flat(members, FlagsOf)) by { NotesAccumulate(members, index); }
    BuildFlags(view, owners);
    var slug := SafeSlug.SlugOf(members[i].missingVisibility[j]);
    assert FlagsOf(members[i])[j] == slug;
    BoundedFromMembers(members, FlagsOf, slug);
    SecondSlugsComplete(view.notes.missing, slug);
  }

  lemma SecondSlugsComplete(values: seq<string>, value: string)
    requires value in values && |values| < 64
    ensures SafeSlug.SlugOf(value) in BoundedStrings(values)
  {
    var slugs := Slugs(values);
    var k :| 0 <= k < |values| && values[k] == value;
    assert slugs[k] == SafeSlug.SlugOf(value);
    BoundedStringsShape(values);
    BoundedShape(slugs);
    BoundedIsFirstDistinct(slugs);
    DistinctMembers(slugs);
  }

  // ---------- The reason of a group ----------

  predicate NoReason(members: seq<Hypothesis>) {
    forall i :: 0 <= i < |members| ==> members[i].degradedReason.None?
  }

  /** The first member that gives a reason. */
  predicate FirstReason(members: seq<Hypothesis>, i: nat) {
    i < |members| && members[i].degradedReason.Some?
    && forall j :: 0 <= j < i ==> members[j].degradedReason.None?
  }

  lemma {:induction false} ReasonsFromMembers(members: seq<Hypothesis>)
    ensures NoReason(members) ==> Flat(members, DegradedSlugs) == []
    ensures forall i: nat :: FirstReason(members, i) ==>
              Flat(members, DegradedSlugs) != []
              && Flat(members, DegradedSlugs)[0] == SafeSlug.SlugOf(members[i].degradedReason.value)
  {
    if members != [] {
      var n := |members| - 1;
      var front := members[..n];
      ReasonsFromMembers(front);
      forall i: nat | FirstReason(members, i)
        ensures Flat(members, DegradedSlugs) != []
                && Flat(members, DegradedSlugs)[0] == SafeSlug.SlugOf(members[i].degradedReason.value)
      {
        if i < n {
          assert front[i] == members[i];
          assert FirstReason(front, i);
        } else {
          assert NoReason(front);
        }
      }
    }
  }

  lemma {:induction false} ExtendKeepsFirst<T>(values: seq<T>, incoming: seq<T>)
    requires values != []
    ensures ExtendRefs(values, incoming) != [] && ExtendRefs(values, incoming)[0] == values[0]
    decreases |incoming|
  {
    if incoming != [] { ExtendKeepsFirst(PushRef(values, incoming[0]), incoming[1..]); }
  }

  lemma BoundedKeepsFirst<T>(xs: seq<T>)
    requires xs != []
    ensures Bounded(xs) != [] && Bounded(xs)[0] == xs[0]
  {
    assert PushRef([], xs[0]) == [xs[0]];
    ExtendKeepsFirst([xs[0]], xs[1..]);
  }

  lemma BuildReason(view: View, owners: OwnerIndex)
    requires Build(view, owners).Some?
    ensures Build(view, owners).value.degradedReason
            == if view.notes.degraded == [] then "metadata_only_visibility" else view.notes.degraded[0]
  {}

  /** A group gives the normalised reason of its first member that has one, and otherwise the metadata-only default. */
  lemma ReasonIsFirstGiven(members: seq<Hypothesis>, index: FactIndex, owners: OwnerIndex)
    requires members != [] && AllHaveEvidence(members)
    ensures Build(Accumulate(members, index), owners).Some?
    ensures var reason := Build(Accumulate(members, index), owners).value.degradedReason;
            && (NoReason(members) ==> reason == "metadata_only_visibility")
            && forall i: nat :: FirstReason(members, i) ==>
                 reason == SafeSlug.SlugOf(members[i].degradedReason.value)
  {
    BuildNeverDrops(members, index, owners);
    var view := Accumulate(members, index);
    assert view.notes.degraded == Bounded(Flat(members, DegradedSlugs)) by { NotesAccumulate(members, index); }
    BuildReason(view, owners);
    ReasonsFromMembers(members);
    if Flat(members, DegradedSlugs) != [] { BoundedKeepsFirst(Flat(members, DegradedSlugs)); }
  }
}
