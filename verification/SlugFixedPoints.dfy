/** Which texts the string normaliser leaves alone. */
module SlugFixedPoints {
  import opened SafeSlug

  // ---------- Where a text first differs ----------

  /**
   * Every rewrite but one replaces, at the first character that it changes, a character by a heavier one. So a change
   * at the first place where a text differs from the original is never undone there.
   */
  function Weight(c: char): nat {
    match c
    case 'c' => 1
    case 't' => 1
    case 'u' => 1
    case 'l' => 1
    case 'a' => 2
    case 'm' => 2
    case 'e' => 3
    case 'p' => 3
    case 'i' => 4
    case 'n' => 4
    case 's' => 5
    case '_' => 5
    case 'r' => 6
    case _ => 0
  }

  /** How a replaced "payload" begins: the one rewrite to a lighter character, which these letters protect. */
  const SHIELD := ['c', 'o', 'n', 't', 'e', 'n', 't', '_']

  predicate Shielded(t: string, m: nat) {
    m + |SHIELD| <= |t| && forall j :: 0 <= j < |SHIELD| ==> t[m + j] == SHIELD[j]
  }

  /** The texts part at m, where the second is heavier or holds the beginning of a replaced "payload". */
  predicate Parts(s: string, t: string, m: nat) {
    && m < |s| && m < |t| && t[..m] == s[..m]
    && (Weight(s[m]) < Weight(t[m]) || (s[m] == 'p' && Shielded(t, m)))
    && (t[m] == '_' ==> m > 0 && s[m - 1] != '_')
  }

  /** The texts part, and not by the barred character. */
  predicate PartsBy(s: string, t: string, barred: char) { exists m: nat :: m < |s| && Parts(s, t, m) && t[m] != barred }

  /** No rewrite ever brings in a bar. */
  const NOTHING := '|'

  // ---------- One rewrite ----------

  predicate ForksAt(from: string, to: string, d: nat) {
    d < |from| && d < |to| && from[..d] == to[..d] && from[d] != to[d]
  }

  /** Laid so that its first change falls on the j-th protected letter, the marker disagrees with some of them. */
  predicate Clashes(from: string, d: nat, j: nat) {
    exists a :: 0 <= a < |from| && 0 <= a - d + j < |SHIELD| && from[a] != SHIELD[a - d + j]
  }

  predicate Harmless(from: string, d: nat) { forall j: nat :: j < |SHIELD| ==> Clashes(from, d, j) }

  /** The rewrite changes its d-th character first, to a heavier one, and cannot change a protected letter. */
  predicate Advances(from: string, to: string, d: nat, barred: char) {
    && ForksAt(from, to, d) && Weight(from[d]) < Weight(to[d]) && Harmless(from, d) && to[d] != barred
    && (to[d] == '_' ==> d > 0 && to[d - 1] != '_')
  }

  /** The first occurrence of a marker. */
  predicate FirstAt(t: string, from: string, k: nat) {
    k < |t| && OccursAt(t, from, k) && forall i: nat :: i < k ==> !OccursAt(t, from, i)
  }

  lemma FirstAtTail(t: string, from: string, k: nat)
    requires FirstAt(t, from, k) && k > 0
    ensures FirstAt(t[1..], from, k - 1) && !(from <= t)
  {
    OccursInFront(t, from);
    assert !OccursAt(t, from, 0);
    assert t[1..][k - 1..] == t[k..];
    forall i: nat | i < k - 1 ensures !OccursAt(t[1..], from, i) {
      assert !OccursAt(t, from, i + 1) && t[1..][i..] == t[i + 1..];
    }
  }

  lemma Regroup(t: string, k: nat, n: nat, to: string, rest: string)
    requires 0 < k && k + n <= |t|
    ensures t[1..][k - 1 + n..] == t[k + n..]
    ensures [t[0]] + (t[1..][..k - 1] + to + rest) == t[..k] + to + rest
  {
    assert [t[0]] + t[1..][..k - 1] == t[..k];
  }

  lemma OccursInFront(t: string, from: string)
    ensures OccursAt(t, from, 0) <==> from <= t
  {
    assert t[0..] == t;
  }

  lemma ReplaceHere(t: string, from: string, to: string)
    requires from != "" && from <= t
    ensures Replace(t, from, to) == to + Replace(t[|from|..], from, to)
  {
  }

  lemma NoFront(t: string, to: string, rest: string)
    ensures t[..0] + to + rest == to + rest
  {
    assert t[..0] == "";
  }

  lemma ReplaceSkips(t: string, from: string, to: string)
    requires from != "" && t != "" && !(from <= t)
    ensures Replace(t, from, to) == [t[0]] + Replace(t[1..], from, to)
  {
  }

  /** The text with the marker at k replaced, and everything after it rewritten. */
  function ReplacedAt(t: string, from: string, to: string, k: nat): string
    requires from != "" && k + |from| <= |t|
  {
    t[..k] + to + Replace(t[k + |from|..], from, to)
  }

  lemma ReplacedInFront(t: string, from: string, to: string)
    requires from != "" && from <= t
    ensures Replace(t, from, to) == ReplacedAt(t, from, to, 0)
  {
    ReplaceHere(t, from, to);
    NoFront(t, to, Replace(t[|from|..], from, to));
  }

  lemma ReplacedBehind(t: string, from: string, to: string, k: nat)
    requires from != "" && 0 < k && k + |from| <= |t| && !(from <= t)
    requires Replace(t[1..], from, to) == ReplacedAt(t[1..], from, to, k - 1)
    ensures Replace(t, from, to) == ReplacedAt(t, from, to, k)
  {
    ReplaceSkips(t, from, to);
    Regroup(t, k, |from|, to, Replace(t[k + |from|..], from, to));
  }

  lemma {:induction false} ReplaceFirst(t: string, from: string, to: string, k: nat)
    requires from != "" && FirstAt(t, from, k)
    ensures k + |from| <= |t| && Replace(t, from, to) == ReplacedAt(t, from, to, k)
    decreases |t|
  {
    if k == 0 {
      OccursInFront(t, from);
      ReplacedInFront(t, from, to);
    } else {
      FirstAtTail(t, from, k);
      ReplaceFirst(t[1..], from, to, k - 1);
      ReplacedBehind(t, from, to, k);
    }
  }

  lemma {:induction false} FindFirst(t: string, from: string, k: nat) returns (first: nat)
    requires k < |t| && OccursAt(t, from, k)
    ensures FirstAt(t, from, first)
  {
    if i: nat :| i < k && OccursAt(t, from, i) {
      first := FindFirst(t, from, i);
    } else {
      first := k;
    }
  }

  predicate MarkerAt(t: string, from: string, k: nat) {
    k + |from| <= |t| && forall a :: 0 <= a < |from| ==> t[k + a] == from[a]
  }

  /** What a rewrite that finds its marker at k does to a text: nothing before k + d, and its change there. */
  predicate Forked(t: string, r: string, from: string, to: string, d: nat, k: nat) {
    && MarkerAt(t, from, k) && d < |from| && d < |to|
    && k + d < |r| && r[..k + d] == t[..k + d] && r[k + d] == to[d]
    && (d > 0 ==> t[k + d - 1] == to[d - 1])
  }

  lemma OccurrenceIsMarker(t: string, from: string, k: nat)
    requires OccursAt(t, from, k)
    ensures MarkerAt(t, from, k)
  {
    forall a | 0 <= a < |from| ensures t[k + a] == from[a] { assert t[k..][a] == from[a]; }
  }

  lemma ReplaceForks(t: string, from: string, to: string, d: nat, k: nat)
    requires ForksAt(from, to, d) && FirstAt(t, from, k)
    ensures Forked(t, Replace(t, from, to), from, to, d, k)
  {
    ReplaceFirst(t, from, to, k);
    OccurrenceIsMarker(t, from, k);
    JoinForks(t, from, to, d, k, Replace(t[k + |from|..], from, to));
  }

  lemma JoinForks(t: string, from: string, to: string, d: nat, k: nat, rest: string)
    requires ForksAt(from, to, d) && MarkerAt(t, from, k)
    ensures Forked(t, t[..k] + to + rest, from, to, d, k)
  {
    var r := t[..k] + to + rest;
    forall i | 0 <= i < d ensures from[i] == to[i] { assert from[..d][i] == to[..d][i]; }
    forall i | 0 <= i < k + d ensures r[i] == t[i] {
      if i >= k { assert r[i] == to[i - k] && t[k + (i - k)] == from[i - k]; }
    }
  }

  lemma ClashKeepsApart(t: string, m: nat, from: string, d: nat, k: nat, j: nat)
    requires Shielded(t, m) && Clashes(from, d, j) && MarkerAt(t, from, k)
    ensures k + d != m + j
  {
    var a :| 0 <= a < |from| && 0 <= a - d + j < |SHIELD| && from[a] != SHIELD[a - d + j];
    assert t[m + (a - d + j)] == SHIELD[a - d + j];
  }

  /** A first change never falls on a protected letter. */
  lemma ShieldHolds(t: string, m: nat, from: string, d: nat, k: nat)
    requires Shielded(t, m) && Harmless(from, d) && MarkerAt(t, from, k)
    ensures k + d < m || k + d >= m + |SHIELD|
  {
    if m <= k + d < m + |SHIELD| { ClashKeepsApart(t, m, from, d, k, k + d - m); }
  }

  lemma SamePrefix(s: string, t: string, m: nat, n: nat)
    requires n < m <= |s| && m <= |t| && t[..m] == s[..m]
    ensures t[..n] == s[..n] && t[n] == s[n]
  {
    assert t[..n] == t[..m][..n] && s[..n] == s[..m][..n];
    assert t[n] == t[..m][n] && s[n] == s[..m][n];
  }

  lemma PartAtFork(
    s: string, t: string, r: string, from: string, to: string, d: nat, k: nat, barred: char)
    requires Advances(from, to, d, barred) && Forked(t, r, from, to, d, k)
    requires k + d < |s| && t[..k + d] == s[..k + d] && t[k + d] == s[k + d]
    ensures PartsBy(s, r, barred)
  {
    assert t[k + d] == from[d];
    if d > 0 { SamePrefix(s, t, k + d, k + d - 1); }
    assert Parts(s, r, k + d);
  }

  lemma PartAgain(
    s: string, t: string, r: string, m: nat, from: string, to: string, d: nat, k: nat, barred: char)
    requires Advances(from, to, d, barred) && Forked(t, r, from, to, d, k) && Parts(s, t, m) && k + d == m
    ensures PartsBy(s, r, barred)
  {
    assert t[k + d] == from[d];
    if Shielded(t, m) { ShieldHolds(t, m, from, d, k); }
    if m > 0 { assert t[m - 1] == t[..m][m - 1] == s[..m][m - 1]; }
    assert Parts(s, r, m);
  }

  lemma PartBefore(
    s: string, t: string, r: string, m: nat, from: string, to: string, d: nat, k: nat, barred: char)
    requires Harmless(from, d) && Forked(t, r, from, to, d, k) && Parts(s, t, m) && t[m] != barred && m < k + d
    ensures PartsBy(s, r, barred)
  {
    forall i | 0 <= i < k + d ensures r[i] == t[i] { assert r[..k + d][i] == t[..k + d][i]; }
    assert r[..m] == t[..m];
    if Shielded(t, m) { ShieldHolds(t, m, from, d, k); }
    assert Parts(s, r, m);
  }

  /** A rewrite that finds something keeps two texts parted. */
  lemma AdvanceParted(
    s: string, t: string, r: string, m: nat, from: string, to: string, d: nat, k: nat, barred: char)
    requires Advances(from, to, d, barred) && Forked(t, r, from, to, d, k) && Parts(s, t, m) && t[m] != barred
    ensures PartsBy(s, r, barred)
  {
    if k + d < m {
      SamePrefix(s, t, m, k + d);
      PartAtFork(s, t, r, from, to, d, k, barred);
    } else if k + d == m {
      PartAgain(s, t, r, m, from, to, d, k, barred);
    } else {
      PartBefore(s, t, r, m, from, to, d, k, barred);
    }
  }

  /** A rewrite that finds something parts two texts, or keeps them parted. */
  lemma AdvanceParts(s: string, t: string, from: string, to: string, d: nat, k: nat, barred: char)
    requires Advances(from, to, d, barred) && FirstAt(t, from, k) && (t == s || PartsBy(s, t, barred))
    ensures PartsBy(s, Replace(t, from, to), barred)
  {
    ReplaceForks(t, from, to, d, k);
    if t == s {
      PartAtFork(s, t, Replace(t, from, to), from, to, d, k, barred);
    } else {
      var m: nat :| m < |s| && Parts(s, t, m) && t[m] != barred;
      AdvanceParted(s, t, Replace(t, from, to), m, from, to, d, k, barred);
    }
  }

  // ---------- All rewrites ----------

  lemma {:induction false} AvoidsOrFirst(t: string, from: string) returns (first: nat)
    ensures FirstAt(t, from, first) || forall k: nat :: k < |t| ==> !OccursAt(t, from, k)
  {
    first := 0;
    if k: nat :| k < |t| && OccursAt(t, from, k) { first := FindFirst(t, from, k); }
  }

  predicate AllAdvance(table: Rewrites, forks: seq<nat>, barred: char) {
    |forks| == |table| && forall i :: 0 <= i < |table| ==> Advances(table[i].0, table[i].1, forks[i], barred)
  }

  /** The result of some rewrites: parted from the original, or the original, in which none of them found anything. */
  predicate Settled(s: string, t: string, table: Rewrites, barred: char) {
    PartsBy(s, t, barred) || (t == s && Avoids(s, table))
  }

  /** Rewrites that advance part a text from the original as soon as one of them finds something, for good. */
  lemma {:induction false} AdvancingRewrites(
    s: string, t: string, table: Rewrites, forks: seq<nat>, barred: char)
    requires AllAdvance(table, forks, barred) && (t == s || PartsBy(s, t, barred))
    ensures Settled(s, RewriteAll(t, table), table, barred)
    ensures PartsBy(s, t, barred) ==> PartsBy(s, RewriteAll(t, table), barred)
    decreases |table|
  {
    if table != [] {
      var from, to := table[0].0, table[0].1;
      var next := Replace(t, from, to);
      var k := AvoidsOrFirst(t, from);
      if FirstAt(t, from, k) {
        AdvanceParts(s, t, from, to, forks[0], k, barred);
      } else {
        ReplaceAbsent(t, from, to);
      }
      AdvancingRewrites(s, next, table[1..], forks[1..], barred);
      if t == s && FirstAt(t, from, k) { PartedDiffer(s, RewriteAll(t, table), barred); }
    }
  }

  lemma PartedDiffer(s: string, t: string, barred: char)
    requires PartsBy(s, t, barred)
    ensures s != t
  {
    var m: nat :| m < |s| && Parts(s, t, m) && t[m] != barred;
    assert Shielded(t, m) ==> t[m + 0] == SHIELD[0];
  }

  // ---------- The table ----------

  predicate IsPayload(from: string, to: string) {
    |from| > 0 && |to| >= |SHIELD| && from[0] == 'p' && forall j :: 0 <= j < |SHIELD| ==> to[j] == SHIELD[j]
  }

  lemma PayloadForks(t: string, from: string, to: string, k: nat)
    requires IsPayload(from, to) && FirstAt(t, from, k)
    ensures Forked(t, Replace(t, from, to), from, to, 0, k) && Shielded(Replace(t, from, to), k)
  {
    assert to[0] == SHIELD[0];
    ReplaceForks(t, from, to, 0, k);
    ReplaceFirst(t, from, to, k);
    var r := Replace(t, from, to);
    forall j | 0 <= j < |SHIELD| ensures r[k + j] == SHIELD[j] { assert r[k + j] == to[j]; }
  }

  lemma PayloadBehind(s: string, t: string, r: string, m: nat, from: string, to: string, k: nat)
    requires IsPayload(from, to) && Forked(t, r, from, to, 0, k) && m < |s| && Parts(s, t, m) && m < k
    ensures PartsBy(s, r, NOTHING)
  {
    forall i | 0 <= i < k ensures r[i] == t[i] { assert r[..k][i] == t[..k][i]; }
    assert r[..m] == t[..m];
    if Shielded(t, m) {
      assert t[k + 0] == 'p';
      if k < m + |SHIELD| { assert t[m + (k - m)] == SHIELD[k - m]; }
    }
    assert Parts(s, r, m);
  }

  /** The one rewrite to a lighter character meets no text parted by the letter that it replaces. */
  lemma PayloadParts(s: string, t: string, r: string, from: string, to: string, k: nat)
    requires IsPayload(from, to) && Forked(t, r, from, to, 0, k) && Shielded(r, k)
    requires t == s || PartsBy(s, t, 'p')
    ensures PartsBy(s, r, NOTHING)
  {
    assert t[k + 0] == from[0] == 'p' && r[k] == to[0] == SHIELD[0];
    if t == s {
      assert Parts(s, r, k);
    } else {
      var m: nat :| m < |s| && Parts(s, t, m) && t[m] != 'p';
      if k < m {
        SamePrefix(s, t, m, k);
        assert Parts(s, r, k);
      } else {
        PayloadBehind(s, t, r, m, from, to, k);
      }
    }
  }

  // ---------- The table ----------

  lemma ClashAt(from: string, d: nat, j: nat, a: nat)
    requires a < |from| && 0 <= a - d + j < |SHIELD| && from[a] != SHIELD[a - d + j]
    ensures Clashes(from, d, j)
  {
  }

  /** A disagreeing letter of the marker for every protected letter. */
  lemma HarmlessBy(from: string, d: nat, witnesses: seq<nat>)
    requires |witnesses| == |SHIELD|
    requires forall j :: 0 <= j < |SHIELD| ==>
               && witnesses[j] < |from| && 0 <= witnesses[j] - d + j < |SHIELD|
               && from[witnesses[j]] != SHIELD[witnesses[j] - d + j]
    ensures Harmless(from, d)
  {
    forall j: nat | j < |SHIELD| ensures Clashes(from, d, j) { ClashAt(from, d, j, witnesses[j]); }
  }

  /** The first letter that the rewrite changes is not a protected one. */
  lemma HarmlessAlone(from: string, d: nat)
    requires d < |from| && from[d] !in SHIELD
    ensures Harmless(from, d)
  {
    forall j: nat | j < |SHIELD| ensures Clashes(from, d, j) {
      assert SHIELD[j] in SHIELD;
      ClashAt(from, d, j, d);
    }
  }

  /** The rewrites before the one of "payload" bring in no "p". */
  lemma EarlyAdvance()
    ensures AllAdvance(MATERIAL_REWRITES[..4], [0, 0, 0, 0], 'p')
  {
    HarmlessBy("credential", 0, [1, 0, 0, 0, 0, 0, 0, 0]);
    HarmlessBy("token", 0, [0, 0, 0, 1, 0, 0, 1, 0]);
    HarmlessAlone("secret", 0);
    HarmlessAlone("password", 0);
  }

  lemma RecordsAdvance()
    ensures AllAdvance(RECORD_REWRITES, [1, 1, 1, 0, 0], NOTHING)
  {
    HarmlessAlone("raw_log", 1);
    HarmlessAlone("raw_json", 1);
    HarmlessAlone("raw_packet", 1);
    HarmlessAlone("username", 0);
    HarmlessBy("email", 0, [0, 0, 0, 0, 1, 0, 0, 0]);
  }

  lemma ScopesAdvance()
    ensures AllAdvance(SCOPE_REWRITES, [0, 0, 7, 8], NOTHING)
  {
    HarmlessBy("tenant_id", 0, [0, 0, 0, 3, 0, 0, 1, 0]);
    HarmlessAlone("account_id", 0);
    HarmlessAlone("device_id", 7);
    HarmlessAlone("command_line", 8);
  }

  lemma ClaimsAdvance()
    ensures AllAdvance(CLAIM_REWRITES, [0, 0, 0], NOTHING)
  {
    HarmlessAlone("private_marker", 0);
    HarmlessBy("confirmed_compromise", 0, [3, 0, 0, 0, 0, 0, 0, 0]);
    HarmlessBy("credential_theft", 0, [1, 0, 0, 0, 0, 0, 0, 0]);
  }

  lemma HostsAdvance()
    ensures AllAdvance(HOST_REWRITES, [5, 0, 0], NOTHING)
  {
    HarmlessBy("host_compromise", 5, [7, 5, 5, 5, 5, 5, 5, 5]);
    HarmlessAlone("malware_execution", 0);
    HarmlessAlone("process_attribution", 0);
  }

  lemma FilesAdvance()
    ensures AllAdvance(FILE_REWRITES, [0, 4, 0], NOTHING)
  {
    HarmlessAlone("full_capture", 0);
    HarmlessBy("filename", 4, [4, 4, 3, 4, 4, 2, 4, 4]);
    HarmlessAlone("local_path", 0);
  }

  lemma {:induction false} AvoidsAppend(s: string, a: Rewrites, b: Rewrites)
    ensures Avoids(s, a + b) <==> Avoids(s, a) && Avoids(s, b)
  {
    if a == [] {
      assert a + b == b;
    } else {
      assert (a + b)[0] == a[0] && (a + b)[1..] == a[1..] + b;
      AvoidsAppend(s, a[1..], b);
    }
  }

  lemma SettleOn(s: string, done: Rewrites, more: Rewrites, forks: seq<nat>)
    requires Settled(s, RewriteAll(s, done), done, NOTHING) && AllAdvance(more, forks, NOTHING)
    ensures Settled(s, RewriteAll(s, done + more), done + more, NOTHING)
  {
    AdvancingRewrites(s, RewriteAll(s, done), more, forks, NOTHING);
    RewriteAppend(s, done, more);
    AvoidsAppend(s, done, more);
  }

  lemma PartsByAnything(s: string, t: string)
    requires PartsBy(s, t, 'p')
    ensures PartsBy(s, t, NOTHING)
  {
    var m: nat :| m < |s| && Parts(s, t, m) && t[m] != 'p';
    assert Shielded(t, m) ==> t[m + 0] == SHIELD[0];
  }

  lemma PayloadSettles(s: string, done: Rewrites, from: Marker, to: Lower)
    requires Settled(s, RewriteAll(s, done), done, 'p') && IsPayload(from, to)
    ensures Settled(s, RewriteAll(s, done + [(from, to)]), done + [(from, to)], NOTHING)
  {
    var rule: Rewrites := [(from, to)];
    var t := RewriteAll(s, done);
    var r := Replace(t, from, to);
    RewriteAppend(s, done, rule);
    AvoidsAppend(s, done, rule);
    assert rule[1..] == [] && RewriteAll(t, rule) == r;
    var k := AvoidsOrFirst(t, from);
    if FirstAt(t, from, k) {
      PayloadForks(t, from, to, k);
      PayloadParts(s, t, r, from, to, k);
    } else {
      ReplaceAbsent(t, from, to);
      if PartsBy(s, t, 'p') {
        PartsByAnything(s, t);
      } else {
        assert t == s && Avoids(s, rule);
      }
    }
  }

  lemma MaterialSettles(s: string)
    ensures Settled(s, RewriteAll(s, MATERIAL_REWRITES), MATERIAL_REWRITES, NOTHING)
  {
    var early := MATERIAL_REWRITES[..4];
    var from, to := MATERIAL_REWRITES[4].0, MATERIAL_REWRITES[4].1;
    EarlyAdvance();
    AdvancingRewrites(s, s, early, [0, 0, 0, 0], 'p');
    PayloadSettles(s, early, from, to);
    assert early + [(from, to)] == MATERIAL_REWRITES;
  }

  /** Either no marker occurs in a text, or all rewrites together leave a text that parts from it. */
  lemma RewritesSettle(s: string)
    ensures Settled(s, RewriteAll(s, REWRITES), REWRITES, NOTHING)
  {
    var m, r, c, l, h, f :=
      MATERIAL_REWRITES, RECORD_REWRITES, SCOPE_REWRITES, CLAIM_REWRITES, HOST_REWRITES, FILE_REWRITES;
    MaterialSettles(s);
    RecordsAdvance();
    SettleOn(s, m, r, [1, 1, 1, 0, 0]);
    ScopesAdvance();
    SettleOn(s, m + r, c, [0, 0, 7, 8]);
    ClaimsAdvance();
    SettleOn(s, m + r + c, l, [0, 0, 0]);
    HostsAdvance();
    SettleOn(s, m + r + c + l, h, [5, 0, 0]);
    FilesAdvance();
    SettleOn(s, m + r + c + l + h, f, [0, 4, 0]);
  }

  // ---------- The passes after the rewrites ----------

  predicate IsSlug(s: string) { 1 <= |s| <= MAX_SLUG && SlugChars(s) && NoDouble(s) && !Leads(s) }

  /** A beginning without two underscores together is left alone by the collapse. */
  lemma {:induction false} CollapseKeepsPrefix(u: string, n: nat)
    requires n <= |u| && NoDouble(u[..n])
    ensures n <= |Collapse(u)| && Collapse(u)[..n] == u[..n]
    decreases |u|
  {
    if |u| >= 2 && n > 0 {
      if u[0] == '_' && u[1] == '_' {
        assert n >= 2 ==> DoubleAt(u[..n], 0);
        CollapseKeepsPrefix(u[1..], 1);
        assert Collapse(u)[0] == u[1..][0];
      } else {
        var tail := u[1..][..n - 1];
        forall i: nat | i < |tail| ensures !DoubleAt(tail, i) { assert !DoubleAt(u[..n], i + 1); }
        CollapseKeepsPrefix(u[1..], n - 1);
        PrefixCons(u, Collapse(u[1..]), n);
      }
    }
  }

  lemma PrefixCons(u: string, rest: string, n: nat)
    requires 0 < n <= |u| && n - 1 <= |rest| && rest[..n - 1] == u[1..][..n - 1]
    ensures ([u[0]] + rest)[..n] == u[..n]
  {
    forall i | 0 <= i < n ensures ([u[0]] + rest)[i] == u[i] {
      if i > 0 { assert rest[..n - 1][i - 1] == u[1..][..n - 1][i - 1]; }
    }
  }

  /** The mapping keeps the place where the texts part, and no two underscores meet there. */
  lemma MapKeepsParting(s: string, w: string, m: nat)
    requires IsSlug(s) && m < |s| && Parts(s, w, m)
    ensures var u := MapChars(w);
            && m < |u| && u[..m] == s[..m] && u[m] != s[m] && NoDouble(u[..m + 1]) && !Leads(u)
  {
    var u := MapChars(w);
    assert Shielded(w, m) ==> w[m + 0] == SHIELD[0];
    assert u[m] == w[m] != s[m];
    forall i | 0 <= i < m ensures u[i] == s[i] {
      assert w[i] == w[..m][i] == s[..m][i];
      assert IsSlugChar(s[i]);
    }
    var front := u[..m + 1];
    forall i: nat | i < |front| ensures !DoubleAt(front, i) { assert !DoubleAt(s, i); }
  }

  /** After the collapse only trimming and the cut are left, and they cannot bring the text back. */
  lemma PartedSlugDiffers(s: string, m: nat)
    requires IsSlug(s) && m < |s| && Parts(s, RewriteAll(ToLower(s), REWRITES), m)
    ensures SlugOf(s) != s
  {
    var u := MapChars(RewriteAll(ToLower(s), REWRITES));
    MapKeepsParting(s, RewriteAll(ToLower(s), REWRITES), m);
    CollapseKeepsPrefix(u, m + 1);
    CutStaysParted(s, u, Collapse(u), m);
  }

  lemma CutStaysParted(s: string, u: string, c: string, m: nat)
    requires m < |s| <= MAX_SLUG && m < |u| && u[m] != s[m] && !Leads(u)
    requires m + 1 <= |c| && c[..m + 1] == u[..m + 1]
    ensures var t := TrimRight(TrimLeft(c)); t != "" && Truncate(t) != s
  {
    assert c[0] == c[..m + 1][0] == u[..m + 1][0] == u[0];
    assert c[m] == c[..m + 1][m] == u[..m + 1][m] == u[m];
    TrimRightShorter(c);
  }

  predicate Occurs(s: string, part: string) { exists k: nat :: k < |s| && OccursAt(s, part, k) }

  /** One of the texts that the rewrites look for occurs. */
  predicate HoldsMarker(s: string, table: Rewrites) {
    exists i :: 0 <= i < |table| && Occurs(s, table[i].0)
  }

  lemma {:induction false} AvoidsExactlyWhen(s: string, table: Rewrites)
    ensures Avoids(s, table) <==> !HoldsMarker(s, table)
  {
    if table != [] {
      AvoidsExactlyWhen(s, table[1..]);
      assert Occurs(s, table[0].0) ==> HoldsMarker(s, table);
      if HoldsMarker(s, table[1..]) {
        var i :| 0 <= i < |table[1..]| && Occurs(s, table[1..][i].0);
        assert Occurs(s, table[i + 1].0);
      }
      if HoldsMarker(s, table) {
        var i :| 0 <= i < |table| && Occurs(s, table[i].0);
        if i > 0 { assert Occurs(s, table[1..][i - 1].0); }
      }
    }
  }

  lemma MarkedMoves(s: string)
    requires IsSlug(s) && HoldsMarker(s, REWRITES)
    ensures SlugOf(s) != s
  {
    assert ToLower(s) == s by { MapFixed(s); }
    AvoidsExactlyWhen(s, REWRITES);
    RewritesSettle(s);
    var m: nat :| m < |s| && Parts(s, RewriteAll(s, REWRITES), m) && RewriteAll(s, REWRITES)[m] != NOTHING;
    PartedSlugDiffers(s, m);
  }

  lemma UnmarkedFixed(s: string)
    requires IsSlug(s) && !HoldsMarker(s, REWRITES)
    ensures SlugOf(s) == s <==> s[|s| - 1] != '_'
  {
    assert RewriteAll(s, REWRITES) == s by {
      AvoidsExactlyWhen(s, REWRITES);
      RewriteAbsent(s, REWRITES);
    }
    MapFixed(s);
    CollapseFixed(s);
    assert TrimLeft(s) == s && Trimmed(s) == TrimRight(s);
    TrimRightShorter(s);
  }

  /**
   * The normaliser leaves a text alone if and only if the text looks like a slug, holds no marker and does not end in
   * an underscore. The rewrites can undo each other's letters, but never at the first place where they changed any.
   */
  lemma SlugFixed(s: string)
    ensures SlugOf(s) == s <==> IsSlug(s) && !HoldsMarker(s, REWRITES) && s[|s| - 1] != '_'
  {
    FixedIsSlug(s);
    if IsSlug(s) {
      if HoldsMarker(s, REWRITES) { MarkedMoves(s); } else { UnmarkedFixed(s); }
    }
  }

  lemma FixedIsSlug(s: string)
    ensures SlugOf(s) == s ==> IsSlug(s)
  {
    SlugShape(s);
  }

  /** A slug comes back unchanged from a second pass if and only if it holds no marker and was not cut at a word. */
  lemma SecondPassExactlyWhen(value: string)
    ensures SlugOf(SlugOf(value)) == SlugOf(value)
            <==> !HoldsMarker(SlugOf(value), REWRITES) && SlugOf(value)[|SlugOf(value)| - 1] != '_'
  {
    SlugShape(value);
    SlugFixed(SlugOf(value));
  }
}
