/** The key under which hypotheses are grouped: sorted, deduplicated parts joined by a bar. */
module GroupKeys {
  import opened Wrappers
  import opened BaselineModel
  import SafeSlug
  import Text

  // ---------- The parts of a key ----------

  datatype Tag = CategoryTag | EvidenceTag | RouteTag | ProviderTag | IdentityTag | DeceptionTag | ProvenanceTag

  datatype Part = Part(tag: Tag, value: Plain)

  function TagName(tag: Tag): string {
    match tag
    case CategoryTag => "category"
    case EvidenceTag => "evidence"
    case RouteTag => "route"
    case ProviderTag => "provider"
    case IdentityTag => "identity"
    case DeceptionTag => "deception"
    case ProvenanceTag => "provenance"
  }

  function Render(part: Part): string { TagName(part.tag) + ":" + part.value }

  function PlainSlug(value: string): Plain {
    SlugIsPlain(value);
    SafeSlug.SlugOf(value)
  }

  lemma SlugIsPlain(value: string)
    ensures '|' !in SafeSlug.SlugOf(value)
  {
    SafeSlug.SlugShape(value);
    var slug := SafeSlug.SlugOf(value);
    forall i | 0 <= i < |slug| ensures slug[i] != '|' { assert SafeSlug.IsSlugChar(slug[i]); }
  }

  function OptionalPart(tag: Tag, value: Option<Plain>): seq<Part> {
    if value.Some? then [Part(tag, value.value)] else []
  }

  function Slugged(value: Option<string>): Option<Plain> {
    if value.Some? then Some(PlainSlug(value.value)) else None
  }

  function Hashed(hash: Hash, salt: string, value: Option<string>): Option<Plain> {
    if value.Some? then Some(hash(salt, value.value)) else None
  }

  function PartsOfFact(fact: Fact, hash: Hash): seq<Part> {
    OptionalPart(RouteTag, Hashed(hash, "route", fact.route))
    + OptionalPart(ProviderTag, Slugged(if fact.provider.Some? then fact.provider else fact.saas))
    + OptionalPart(IdentityTag, Hashed(hash, "identity", fact.identity))
    + OptionalPart(DeceptionTag, Slugged(fact.deception))
    + OptionalPart(ProvenanceTag, fact.provenance)
  }

  /** The fact an id stands for; the last one listed wins. */
  function Lookup(facts: seq<Fact>, id: Id): Option<Fact> {
    if facts == [] then None
    else if facts[|facts| - 1].id == id then Some(facts[|facts| - 1])
    else Lookup(facts[..|facts| - 1], id)
  }

  function PartsOfFacts(refs: seq<Id>, facts: seq<Fact>, hash: Hash): seq<Part> {
    if refs == [] then []
    else
      var n := |refs| - 1;
      var found := Lookup(facts, refs[n]);
      PartsOfFacts(refs[..n], facts, hash) + if found.Some? then PartsOfFact(found.value, hash) else []
  }

  const MAX_KEY_FACTS := 8

  function KeyFacts(h: Hypothesis): seq<Id> {
    if |h.factRefs| <= MAX_KEY_FACTS then h.factRefs else h.factRefs[..MAX_KEY_FACTS]
  }

  function Parts(h: Hypothesis, facts: seq<Fact>, hash: Hash): seq<Part> {
    [Part(CategoryTag, PlainSlug(h.category))]
    + (if h.evidenceRefs != [] then [Part(EvidenceTag, h.evidenceRefs[0])] else [])
    + PartsOfFacts(KeyFacts(h), facts, hash)
  }

  // ---------- Joining ----------

  function RenderAll(parts: seq<Part>): (texts: seq<string>)
    ensures |texts| == |parts|
    ensures forall i :: 0 <= i < |parts| ==> texts[i] == Render(parts[i])
  {
    seq(|parts|, i requires 0 <= i < |parts| => Render(parts[i]))
  }

  function Join(texts: seq<string>): string {
    if texts == [] then ""
    else if |texts| == 1 then texts[0]
    else texts[0] + "|" + Join(texts[1..])
  }

  function Canonical(texts: seq<string>): string { Join(Text.Dedup(Text.Sort(texts))) }

  function KeyOf(h: Hypothesis, facts: seq<Fact>, hash: Hash): string { Canonical(RenderAll(Parts(h, facts, hash))) }

  method IndexFacts(facts: seq<Fact>) returns (lookup: map<Id, Fact>)
    ensures forall id :: Lookup(facts, id) == if id in lookup then Some(lookup[id]) else None
  {
    lookup := map[];
    var i := 0;
    while i < |facts|
      invariant 0 <= i <= |facts|
      invariant forall id :: Lookup(facts[..i], id) == if id in lookup then Some(lookup[id]) else None
    {
      assert facts[..i + 1][..i] == facts[..i];
      lookup := lookup[facts[i].id := facts[i]];
      i := i + 1;
    }
    assert facts[..i] == facts;
  }

  method CollectFact(fact: Fact, hash: Hash) returns (parts: seq<Part>)
    ensures parts == PartsOfFact(fact, hash)
  {
    parts := [];
    if fact.route.Some? { parts := [Part(RouteTag, hash("route", fact.route.value))]; }
    ghost var before := parts;
    assert parts == OptionalPart(RouteTag, Hashed(hash, "route", fact.route));
    var provider := if fact.provider.Some? then fact.provider else fact.saas;
    if provider.Some? { parts := parts + [Part(ProviderTag, PlainSlug(provider.value))]; }
    assert parts == before + OptionalPart(ProviderTag, Slugged(provider));
    before := parts;
    if fact.identity.Some? { parts := parts + [Part(IdentityTag, hash("identity", fact.identity.value))]; }
    assert parts == before + OptionalPart(IdentityTag, Hashed(hash, "identity", fact.identity));
    before := parts;
    if fact.deception.Some? { parts := parts + [Part(DeceptionTag, PlainSlug(fact.deception.value))]; }
    assert parts == before + OptionalPart(DeceptionTag, Slugged(fact.deception));
    if fact.provenance.Some? { parts := parts + [Part(ProvenanceTag, fact.provenance.value)]; }
  }

  function PartsOfRef(ref: Id, facts: seq<Fact>, hash: Hash): seq<Part> {
    if Lookup(facts, ref).Some? then PartsOfFact(Lookup(facts, ref).value, hash) else []
  }

  lemma PartsOfFactsNext(refs: seq<Id>, i: nat, facts: seq<Fact>, hash: Hash)
    requires i < |refs|
    ensures PartsOfFacts(refs[..i + 1], facts, hash)
            == PartsOfFacts(refs[..i], facts, hash) + PartsOfRef(refs[i], facts, hash)
  {
    assert refs[..i + 1][..i] == refs[..i];
  }

  method CollectRef(ref: Id, lookup: map<Id, Fact>, ghost facts: seq<Fact>, hash: Hash) returns (parts: seq<Part>)
    requires Lookup(facts, ref) == if ref in lookup then Some(lookup[ref]) else None
    ensures parts == PartsOfRef(ref, facts, hash)
  {
    parts := [];
    if ref in lookup { parts := CollectFact(lookup[ref], hash); }
  }

  method CollectFacts(refs: seq<Id>, facts: seq<Fact>, hash: Hash) returns (parts: seq<Part>)
    ensures parts == PartsOfFacts(refs, facts, hash)
  {
    var lookup := IndexFacts(facts);
    parts := [];
    var i := 0;
    while i < |refs|
      invariant 0 <= i <= |refs|
      invariant parts == PartsOfFacts(refs[..i], facts, hash)
    {
      PartsOfFactsNext(refs, i, facts, hash);
      var more := CollectRef(refs[i], lookup, facts, hash);
      parts := parts + more;
      i := i + 1;
    }
    assert refs[..i] == refs;
  }

  method CollectParts(h: Hypothesis, facts: seq<Fact>, hash: Hash) returns (parts: seq<Part>)
    ensures parts == Parts(h, facts, hash)
  {
    parts := [Part(CategoryTag, PlainSlug(h.category))];
    if h.evidenceRefs != [] { parts := parts + [Part(EvidenceTag, h.evidenceRefs[0])]; }
    var more := CollectFacts(KeyFacts(h), facts, hash);
    parts := parts + more;
  }

  /** The program's key builder. */
  method GroupKeyForHypothesis(h: Hypothesis, facts: seq<Fact>, hash: Hash) returns (key: string)
    ensures key == KeyOf(h, facts, hash)
  {
    var parts := CollectParts(h, facts, hash);
    key := Join(Text.Dedup(Text.Sort(RenderAll(parts))));
  }

  // ---------- A key splits back into its parts ----------

  function Split(s: string): (pieces: seq<string>)
    ensures pieces != []
  {
    if s == "" then [""]
    else
      var rest := Split(s[1..]);
      if s[0] == '|' then [""] + rest else [[s[0]] + rest[0]] + rest[1..]
  }

  predicate AllPlain(texts: seq<string>) { forall i :: 0 <= i < |texts| ==> '|' !in texts[i] }

  lemma {:induction false} SplitPlain(s: string)
    requires '|' !in s
    ensures Split(s) == [s]
  {
    if s != "" {
      assert s == [s[0]] + s[1..];
      SplitPlain(s[1..]);
    }
  }

  lemma {:induction false} SplitAtBar(s: string, rest: string)
    requires '|' !in s
    ensures Split(s + "|" + rest) == [s] + Split(rest)
  {
    var whole := s + "|" + rest;
    if s == "" {
      assert whole[1..] == rest;
    } else {
      assert s == [s[0]] + s[1..];
      assert whole[1..] == s[1..] + "|" + rest;
      SplitAtBar(s[1..], rest);
    }
  }

  /** Splitting a joined list at its bars gives the list back. */
  lemma {:induction false} SplitJoin(texts: seq<string>)
    requires texts != [] && AllPlain(texts)
    ensures Split(Join(texts)) == texts
  {
    if |texts| == 1 {
      SplitPlain(texts[0]);
    } else {
      SplitAtBar(texts[0], Join(texts[1..]));
      SplitJoin(texts[1..]);
    }
  }

  predicate SameTexts(a: seq<string>, b: seq<string>) {
    (forall x :: x in a ==> x in b) && (forall x :: x in b ==> x in a)
  }

  lemma CanonicalShape(texts: seq<string>)
    ensures Text.StrictlyAscending(Text.Dedup(Text.Sort(texts)))
    ensures SameTexts(Text.Dedup(Text.Sort(texts)), texts)
  {
    Text.SortSorts(texts);
    Text.DedupStrict(Text.Sort(texts));
    Text.DedupMembers(Text.Sort(texts));
  }

  /** Two lists of plain texts have one canonical form exactly when they hold the same texts. */
  lemma CanonicalExactlyWhen(a: seq<string>, b: seq<string>)
    requires a != [] && b != [] && AllPlain(a) && AllPlain(b)
    ensures Canonical(a) == Canonical(b) <==> SameTexts(a, b)
    ensures SameTexts(Split(Canonical(a)), a)
  {
    var ca, cb := Text.Dedup(Text.Sort(a)), Text.Dedup(Text.Sort(b));
    CanonicalShape(a);
    CanonicalShape(b);
    CanonicalSplits(a);
    CanonicalSplits(b);
    if SameTexts(a, b) { Text.StrictlyAscendingUnique(ca, cb); }
  }

  lemma CanonicalSplits(a: seq<string>)
    requires a != [] && AllPlain(a)
    ensures Split(Canonical(a)) == Text.Dedup(Text.Sort(a))
  {
    var ca := Text.Dedup(Text.Sort(a));
    CanonicalShape(a);
    assert a[0] in ca;
    forall i | 0 <= i < |ca| ensures '|' !in ca[i] { assert ca[i] in a; }
    SplitJoin(ca);
  }

  // ---------- Which hypotheses share a key ----------

  lemma TagNameHasNoColon(tag: Tag)
    ensures ':' !in TagName(tag) && '|' !in TagName(tag)
  {
  }

  lemma TagNameInjective(a: Tag, b: Tag)
    requires TagName(a) == TagName(b)
    ensures a == b
  {
    assert TagName(a)[0] == TagName(b)[0];
    assert |TagName(a)| == |TagName(b)|;
    assert a.ProviderTag? || a.ProvenanceTag? ==> TagName(a)[3] == TagName(b)[3];
  }

  lemma ColonSplits(a: string, x: string, b: string, y: string)
    requires ':' !in a && ':' !in b && a + ":" + x == b + ":" + y
    ensures a == b && x == y
  {
    var s := a + ":" + x;
    forall i | 0 <= i < |a| ensures s[i] != ':' { assert s[i] == a[i]; }
    forall i | 0 <= i < |b| ensures s[i] != ':' { assert s[i] == b[i]; }
    assert s[|a|] == ':' && s[|b|] == ':';
    assert a == s[..|a|] && b == s[..|b|];
    assert x == s[|a| + 1..] && y == s[|b| + 1..];
  }

  lemma RenderInjective(p: Part, q: Part)
    requires Render(p) == Render(q)
    ensures p == q
  {
    TagNameHasNoColon(p.tag);
    TagNameHasNoColon(q.tag);
    ColonSplits(TagName(p.tag), p.value, TagName(q.tag), q.value);
    TagNameInjective(p.tag, q.tag);
  }

  predicate SameParts(a: seq<Part>, b: seq<Part>) {
    (forall p :: p in a ==> p in b) && (forall p :: p in b ==> p in a)
  }

  lemma RenderAllMember(parts: seq<Part>, p: Part)
    ensures Render(p) in RenderAll(parts) <==> p in parts
  {
    if Render(p) in RenderAll(parts) {
      var i :| 0 <= i < |parts| && RenderAll(parts)[i] == Render(p);
      RenderInjective(parts[i], p);
    }
    if p in parts {
      var i :| 0 <= i < |parts| && parts[i] == p;
      assert RenderAll(parts)[i] == Render(p);
    }
  }

  lemma RenderSame(a: seq<Part>, b: seq<Part>)
    ensures SameTexts(RenderAll(a), RenderAll(b)) <==> SameParts(a, b)
  {
    if SameTexts(RenderAll(a), RenderAll(b)) {
      forall p ensures p in a <==> p in b {
        RenderAllMember(a, p);
        RenderAllMember(b, p);
      }
    }
    if SameParts(a, b) {
      forall x ensures x in RenderAll(a) <==> x in RenderAll(b) {
        if x in RenderAll(a) {
          var i :| 0 <= i < |a| && RenderAll(a)[i] == x;
          assert a[i] in b;
          RenderAllMember(b, a[i]);
        }
        if x in RenderAll(b) {
          var i :| 0 <= i < |b| && RenderAll(b)[i] == x;
          assert b[i] in a;
          RenderAllMember(a, b[i]);
        }
      }
    }
  }

  lemma RenderPlain(parts: seq<Part>)
    ensures AllPlain(RenderAll(parts))
  {
    forall i | 0 <= i < |parts| ensures '|' !in RenderAll(parts)[i] { TagNameHasNoColon(parts[i].tag); }
  }

  /** Two hypotheses share a key exactly when they have the same set of parts; the key splits back into that set. */
  lemma KeysEqualExactlyWhen(a: Hypothesis, b: Hypothesis, facts: seq<Fact>, hash: Hash)
    ensures KeyOf(a, facts, hash) == KeyOf(b, facts, hash)
            <==> SameParts(Parts(a, facts, hash), Parts(b, facts, hash))
    ensures forall p :: p in Parts(a, facts, hash) <==> Render(p) in Split(KeyOf(a, facts, hash))
  {
    var pa, pb := Parts(a, facts, hash), Parts(b, facts, hash);
    RenderPlain(pa);
    RenderPlain(pb);
    CanonicalExactlyWhen(RenderAll(pa), RenderAll(pb));
    RenderSame(pa, pb);
    forall p ensures p in pa <==> Render(p) in Split(KeyOf(a, facts, hash)) { RenderAllMember(pa, p); }
  }

  lemma {:induction false} FactPartTags(refs: seq<Id>, facts: seq<Fact>, hash: Hash, p: Part)
    requires p in PartsOfFacts(refs, facts, hash)
    ensures !p.tag.CategoryTag? && !p.tag.EvidenceTag?
  {
    var n := |refs| - 1;
    if p in PartsOfFacts(refs[..n], facts, hash) { FactPartTags(refs[..n], facts, hash, p); }
  }

  /** Sharing a key means at least the same category slug and the same first piece of evidence. */
  lemma SharedKeySharesCategoryAndEvidence(a: Hypothesis, b: Hypothesis, facts: seq<Fact>, hash: Hash)
    requires a.evidenceRefs != [] && b.evidenceRefs != []
    requires KeyOf(a, facts, hash) == KeyOf(b, facts, hash)
    ensures SafeSlug.SlugOf(a.category) == SafeSlug.SlugOf(b.category)
    ensures a.evidenceRefs[0] == b.evidenceRefs[0]
  {
    KeysEqualExactlyWhen(a, b, facts, hash);
    var pb := Parts(b, facts, hash);
    var category, evidence := Part(CategoryTag, PlainSlug(a.category)), Part(EvidenceTag, a.evidenceRefs[0]);
    assert category in Parts(a, facts, hash) && evidence in Parts(a, facts, hash);
    assert category in pb && evidence in pb;
    if category in PartsOfFacts(KeyFacts(b), facts, hash) { FactPartTags(KeyFacts(b), facts, hash, category); }
    if evidence in PartsOfFacts(KeyFacts(b), facts, hash) { FactPartTags(KeyFacts(b), facts, hash, evidence); }
  }
}
