/** What a group key says of a hypothesis, in terms of the fields of the hypothesis and of the facts it lists. */
module GroupKeyFields {
  import opened Wrappers
  import opened BaselineModel
  import opened GroupKeys
  import SafeSlug
  import Text

  // ---------- The parts by their fields ----------

  /** The fact that an id stands for is the last one listed with it. */
  predicate LastWithId(facts: seq<Fact>, id: Id, i: nat) {
    i < |facts| && facts[i].id == id && forall k :: i < k < |facts| ==> facts[k].id != id
  }

  predicate FactSays(fact: Fact, hash: Hash, p: Part) {
    match p.tag
    case RouteTag => fact.route.Some? && p.value == hash("route", fact.route.value)
    case ProviderTag =>
      || (fact.provider.Some? && p.value == SafeSlug.SlugOf(fact.provider.value))
      || (fact.provider.None? && fact.saas.Some? && p.value == SafeSlug.SlugOf(fact.saas.value))
    case IdentityTag => fact.identity.Some? && p.value == hash("identity", fact.identity.value)
    case DeceptionTag => fact.deception.Some? && p.value == SafeSlug.SlugOf(fact.deception.value)
    case ProvenanceTag => fact.provenance.Some? && p.value == fact.provenance.value
    case CategoryTag => false
    case EvidenceTag => false
  }

  /** One of the first eight listed facts says so. */
  ghost predicate FactsSay(h: Hypothesis, facts: seq<Fact>, hash: Hash, p: Part) {
    exists j: nat, i: nat ::
      j < 8 && j < |h.factRefs| && LastWithId(facts, h.factRefs[j], i) && FactSays(facts[i], hash, p)
  }

  ghost predicate Says(h: Hypothesis, facts: seq<Fact>, hash: Hash, p: Part) {
    || (p.tag.CategoryTag? && p.value == SafeSlug.SlugOf(h.category))
    || (p.tag.EvidenceTag? && h.evidenceRefs != [] && p.value == h.evidenceRefs[0])
    || FactsSay(h, facts, hash, p)
  }

  /** Both hypotheses say the same of everything that goes into a key. */
  ghost predicate SayTheSame(a: Hypothesis, b: Hypothesis, facts: seq<Fact>, hash: Hash) {
    forall p :: Says(a, facts, hash, p) <==> Says(b, facts, hash, p)
  }

  // ---------- The key holds exactly those ----------

  lemma {:induction false} LookupIsLast(facts: seq<Fact>, id: Id)
    ensures Lookup(facts, id).Some? ==>
              exists i: nat :: LastWithId(facts, id, i) && Lookup(facts, id) == Some(facts[i])
    ensures forall i: nat :: LastWithId(facts, id, i) ==> Lookup(facts, id) == Some(facts[i])
  {
    if facts != [] {
      var n := |facts| - 1;
      var front := facts[..n];
      LookupIsLast(front, id);
      if facts[n].id == id {
        assert LastWithId(facts, id, n);
      } else {
        forall i: nat | i < |facts| ensures LastWithId(facts, id, i) <==> LastWithId(front, id, i) {
          if LastWithId(facts, id, i) { assert i != n; }
          if LastWithId(front, id, i) { assert facts[i] == front[i]; }
        }
        if Lookup(front, id).Some? {
          var i: nat :| LastWithId(front, id, i) && Lookup(front, id) == Some(front[i]);
          assert LastWithId(facts, id, i);
        }
      }
    }
  }

  lemma OptionalMember(tag: Tag, value: Option<Plain>, p: Part)
    ensures p in OptionalPart(tag, value) <==> value.Some? && p.tag == tag && p.value == value.value
  {}

  lemma PartsOfFactSay(fact: Fact, hash: Hash, p: Part)
    ensures p in PartsOfFact(fact, hash) <==> FactSays(fact, hash, p)
  {
    var provider := Slugged(if fact.provider.Some? then fact.provider else fact.saas);
    OptionalMember(RouteTag, Hashed(hash, "route", fact.route), p);
    OptionalMember(ProviderTag, provider, p);
    OptionalMember(IdentityTag, Hashed(hash, "identity", fact.identity), p);
    OptionalMember(DeceptionTag, Slugged(fact.deception), p);
    OptionalMember(ProvenanceTag, fact.provenance, p);
  }

  ghost predicate RefSays(ref: Id, facts: seq<Fact>, hash: Hash, p: Part) {
    exists i: nat :: LastWithId(facts, ref, i) && FactSays(facts[i], hash, p)
  }

  lemma PartsOfRefSay(ref: Id, facts: seq<Fact>, hash: Hash, p: Part)
    ensures p in PartsOfRef(ref, facts, hash) <==> RefSays(ref, facts, hash, p)
  {
    LookupIsLast(facts, ref);
    if Lookup(facts, ref).Some? { PartsOfFactSay(Lookup(facts, ref).value, hash, p); }
  }

  ghost predicate SomeRefSays(refs: seq<Id>, facts: seq<Fact>, hash: Hash, p: Part) {
    exists j: nat :: j < |refs| && RefSays(refs[j], facts, hash, p)
  }

  lemma {:induction false} PartsOfFactsSay(refs: seq<Id>, facts: seq<Fact>, hash: Hash, p: Part)
    ensures p in PartsOfFacts(refs, facts, hash) <==> SomeRefSays(refs, facts, hash, p)
  {
    if refs != [] {
      var n := |refs| - 1;
      PartsOfFactsSay(refs[..n], facts, hash, p);
      PartsOfRefSay(refs[n], facts, hash, p);
      assert refs[..n + 1] == refs;
      PartsOfFactsNext(refs, n, facts, hash);
      SomeRefSaysNext(refs, n, facts, hash, p);
    }
  }

  lemma SomeRefSaysNext(refs: seq<Id>, n: nat, facts: seq<Fact>, hash: Hash, p: Part)
    requires |refs| == n + 1
    ensures SomeRefSays(refs, facts, hash, p)
            <==> SomeRefSays(refs[..n], facts, hash, p) || RefSays(refs[n], facts, hash, p)
  {
    if SomeRefSays(refs[..n], facts, hash, p) {
      var j: nat :| j < n && RefSays(refs[..n][j], facts, hash, p);
      assert RefSays(refs[j], facts, hash, p);
    }
    if SomeRefSays(refs, facts, hash, p) && !RefSays(refs[n], facts, hash, p) {
      var j: nat :| j < |refs| && RefSays(refs[j], facts, hash, p);
      assert refs[..n][j] == refs[j];
    }
  }

  lemma KeyFactsSay(h: Hypothesis, facts: seq<Fact>, hash: Hash, p: Part)
    ensures SomeRefSays(KeyFacts(h), facts, hash, p) <==> FactsSay(h, facts, hash, p)
  {
    var refs := KeyFacts(h);
    if SomeRefSays(refs, facts, hash, p) {
      var j: nat :| j < |refs| && RefSays(refs[j], facts, hash, p);
      var i: nat :| LastWithId(facts, refs[j], i) && FactSays(facts[i], hash, p);
      assert refs[j] == h.factRefs[j];
    }
    if FactsSay(h, facts, hash, p) {
      var j: nat, i: nat :|
        j < 8 && j < |h.factRefs| && LastWithId(facts, h.factRefs[j], i) && FactSays(facts[i], hash, p);
      assert refs[j] == h.factRefs[j];
      assert RefSays(refs[j], facts, hash, p);
    }
  }

  lemma PartExactlyWhen(h: Hypothesis, facts: seq<Fact>, hash: Hash, p: Part)
    ensures p in Parts(h, facts, hash) <==> Says(h, facts, hash, p)
  {
    PartsOfFactsSay(KeyFacts(h), facts, hash, p);
    KeyFactsSay(h, facts, hash, p);
  }

  /** The written form of every kind of part. */
  lemma PartsAreWritten(value: Plain)
    ensures Render(Part(CategoryTag, value)) == "category:" + value
    ensures Render(Part(EvidenceTag, value)) == "evidence:" + value
    ensures Render(Part(RouteTag, value)) == "route:" + value
    ensures Render(Part(ProviderTag, value)) == "provider:" + value
    ensures Render(Part(IdentityTag, value)) == "identity:" + value
    ensures Render(Part(DeceptionTag, value)) == "deception:" + value
    ensures Render(Part(ProvenanceTag, value)) == "provenance:" + value
  {
    assert "category" + ":" == "category:" && "evidence" + ":" == "evidence:" && "route" + ":" == "route:";
    assert "provider" + ":" == "provider:" && "identity" + ":" == "identity:";
    assert "deception" + ":" == "deception:" && "provenance" + ":" == "provenance:";
  }

  ghost predicate WrittenOf(h: Hypothesis, facts: seq<Fact>, hash: Hash, text: string) {
    exists p :: Says(h, facts, hash, p) && text == Render(p)
  }

  /** The key is the ascending list of what the hypothesis says, each once, written and joined with bars. */
  lemma KeySaysExactly(h: Hypothesis, facts: seq<Fact>, hash: Hash)
    ensures var pieces := Split(KeyOf(h, facts, hash));
            && Text.StrictlyAscending(pieces) && KeyOf(h, facts, hash) == Join(pieces)
            && forall text :: text in pieces <==> WrittenOf(h, facts, hash, text)
  {
    var parts := Parts(h, facts, hash);
    var texts := RenderAll(parts);
    RenderPlain(parts);
    CanonicalShape(texts);
    CanonicalSplits(texts);
    forall text ensures text in texts <==> WrittenOf(h, facts, hash, text) {
      if text in texts {
        var i :| 0 <= i < |parts| && texts[i] == text;
        PartExactlyWhen(h, facts, hash, parts[i]);
      }
      if WrittenOf(h, facts, hash, text) {
        var p :| Says(h, facts, hash, p) && text == Render(p);
        PartExactlyWhen(h, facts, hash, p);
        RenderAllMember(parts, p);
      }
    }
  }

  /** Two hypotheses share a key exactly when they say the same of category, first evidence and first eight facts. */
  lemma SameKeyExactlyWhen(a: Hypothesis, b: Hypothesis, facts: seq<Fact>, hash: Hash)
    ensures KeyOf(a, facts, hash) == KeyOf(b, facts, hash) <==> SayTheSame(a, b, facts, hash)
  {
    KeysEqualExactlyWhen(a, b, facts, hash);
    forall p
      ensures p in Parts(a, facts, hash) <==> Says(a, facts, hash, p)
      ensures p in Parts(b, facts, hash) <==> Says(b, facts, hash, p)
    {
      PartExactlyWhen(a, facts, hash, p);
      PartExactlyWhen(b, facts, hash, p);
    }
  }

  /** Hypotheses on an identity that the other's facts do not have never share a key. */
  lemma IdentitiesSeparate(a: Hypothesis, b: Hypothesis, facts: seq<Fact>, hash: Hash, j: nat, i: nat)
    requires j < 8 && j < |a.factRefs| && LastWithId(facts, a.factRefs[j], i) && facts[i].identity.Some?
    requires forall k: nat, m: nat :: k < |b.factRefs| && LastWithId(facts, b.factRefs[k], m) && facts[m].identity.Some?
               ==> hash("identity", facts[m].identity.value) != hash("identity", facts[i].identity.value)
    ensures KeyOf(a, facts, hash) != KeyOf(b, facts, hash)
  {
    var p := Part(IdentityTag, hash("identity", facts[i].identity.value));
    assert Says(a, facts, hash, p) by { assert FactSays(facts[i], hash, p); }
    assert !Says(b, facts, hash, p);
    assert !SayTheSame(a, b, facts, hash);
    SameKeyExactlyWhen(a, b, facts, hash);
  }
}
