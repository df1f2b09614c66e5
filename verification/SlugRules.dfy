/** The normaliser stage by stage: the 23 markers, what each becomes, and what the trimming and the cut leave. */
module SlugRules {
  import opened SafeSlug
  import opened SlugFixedPoints

  // ---------- Markers and replacements ----------

  /** The markers in the order in which they are looked for. */
  const MARKERS: seq<string> :=
    ["credential", "token", "secret", "password", "payload"]
    + ["raw_log", "raw_json", "raw_packet", "username", "email"]
    + ["tenant_id", "account_id", "device_id", "command_line"]
    + ["private_marker", "confirmed_compromise", "credential_theft"]
    + ["host_compromise", "malware_execution", "process_attribution"]
    + ["full_capture", "filename", "local_path"]

  const REPLACEMENTS: seq<string> :=
    ["auth_material", "auth_material", "redacted_material", "redacted_material", "content_summary"]
    + ["redacted_log", "redacted_json", "redacted_packet", "identity_label", "identity_label"]
    + ["provider_scope", "provider_scope", "device_scope", "command_metadata"]
    + ["redacted_marker", "possible_metadata_pattern", "auth_material_abuse"]
    + ["host_risk_context", "execution_visibility_required", "native_visibility_required"]
    + ["capture_visibility_required", "file_ref", "path_ref"]

  function Markers(table: Rewrites): (r: seq<string>)
    ensures |r| == |table|
    ensures forall i :: 0 <= i < |r| ==> r[i] == table[i].0
  {
    seq(|table|, i requires 0 <= i < |table| => table[i].0)
  }

  function Replacements(table: Rewrites): (r: seq<string>)
    ensures |r| == |table|
    ensures forall i :: 0 <= i < |r| ==> r[i] == table[i].1
  {
    seq(|table|, i requires 0 <= i < |table| => table[i].1)
  }

  lemma MarkersJoin(a: Rewrites, b: Rewrites)
    ensures Markers(a + b) == Markers(a) + Markers(b) && Replacements(a + b) == Replacements(a) + Replacements(b)
  {}

  lemma GroupsListed()
    ensures Markers(MATERIAL_REWRITES) == ["credential", "token", "secret", "password", "payload"]
    ensures Markers(RECORD_REWRITES) == ["raw_log", "raw_json", "raw_packet", "username", "email"]
    ensures Markers(SCOPE_REWRITES) == ["tenant_id", "account_id", "device_id", "command_line"]
    ensures Markers(CLAIM_REWRITES) == ["private_marker", "confirmed_compromise", "credential_theft"]
    ensures Markers(HOST_REWRITES) == ["host_compromise", "malware_execution", "process_attribution"]
    ensures Markers(FILE_REWRITES) == ["full_capture", "filename", "local_path"]
  {}

  lemma ReplacementsListed()
    ensures Replacements(MATERIAL_REWRITES)
         == ["auth_material", "auth_material", "redacted_material", "redacted_material", "content_summary"]
    ensures Replacements(RECORD_REWRITES)
         == ["redacted_log", "redacted_json", "redacted_packet", "identity_label", "identity_label"]
    ensures Replacements(SCOPE_REWRITES) == ["provider_scope", "provider_scope", "device_scope", "command_metadata"]
    ensures Replacements(CLAIM_REWRITES) == ["redacted_marker", "possible_metadata_pattern", "auth_material_abuse"]
    ensures Replacements(HOST_REWRITES)
         == ["host_risk_context", "execution_visibility_required", "native_visibility_required"]
    ensures Replacements(FILE_REWRITES) == ["capture_visibility_required", "file_ref", "path_ref"]
  {}

  lemma TableListed()
    ensures Markers(REWRITES) == MARKERS && Replacements(REWRITES) == REPLACEMENTS
  {
    var m, r, c, l, h, f :=
      MATERIAL_REWRITES, RECORD_REWRITES, SCOPE_REWRITES, CLAIM_REWRITES, HOST_REWRITES, FILE_REWRITES;
    GroupsListed();
    ReplacementsListed();
    MarkersJoin(m, r);
    MarkersJoin(m + r, c);
    MarkersJoin(m + r + c, l);
    MarkersJoin(m + r + c + l, h);
    MarkersJoin(m + r + c + l + h, f);
  }

  predicate HoldsOneOf(s: string, markers: seq<string>) {
    exists i :: 0 <= i < |markers| && Occurs(s, markers[i])
  }

  lemma HoldsExactlyWhen(s: string, table: Rewrites)
    ensures HoldsOneOf(s, Markers(table)) <==> HoldsMarker(s, table)
  {
    if HoldsMarker(s, table) {
      var i :| 0 <= i < |table| && Occurs(s, table[i].0);
      assert Occurs(s, Markers(table)[i]);
    }
  }

  lemma OneRewrite(s: string, rule: (Marker, Lower))
    ensures RewriteAll(s, [rule]) == Replace(s, rule.0, rule.1)
  {
    assert [rule][1..] == [];
  }

  lemma RuleAfter(s: string, front: Rewrites, rule: (Marker, Lower), k: nat)
    requires !HoldsMarker(s, front) && FirstAt(s, rule.0, k)
    ensures k + |rule.0| <= |s| && RewriteAll(s, front + [rule]) == ReplacedAt(s, rule.0, rule.1, k)
  {
    assert RewriteAll(s, front) == s by {
      AvoidsExactlyWhen(s, front);
      RewriteAbsent(s, front);
    }
    RewriteAppend(s, front, [rule]);
    OneRewrite(s, rule);
    assert k + |rule.0| <= |s| && Replace(s, rule.0, rule.1) == ReplacedAt(s, rule.0, rule.1, k) by {
      ReplaceFirst(s, rule.0, rule.1, k);
    }
  }

  lemma FrontHoldsNone(s: string, table: Rewrites, i: nat)
    requires i <= |table| && !HoldsOneOf(s, Markers(table)[..i])
    ensures !HoldsMarker(s, table[..i])
  {
    assert Markers(table[..i]) == Markers(table)[..i];
    HoldsExactlyWhen(s, table[..i]);
  }

  lemma PrefixNext(table: Rewrites, i: nat)
    requires i < |table|
    ensures table[..i + 1] == table[..i] + [table[i]]
  {}

  lemma RuleAt(s: string, table: Rewrites, i: nat, k: nat)
    requires i < |table| && !HoldsMarker(s, table[..i]) && FirstAt(s, table[i].0, k)
    ensures k + |table[i].0| <= |s| && RewriteAll(s, table[..i + 1]) == ReplacedAt(s, table[i].0, table[i].1, k)
  {
    PrefixNext(table, i);
    RuleAfter(s, table[..i], table[i], k);
  }

  lemma RuleReplaces(
    s: string, table: Rewrites, markers: seq<string>, replacements: seq<string>, i: nat, k: nat)
    requires Markers(table) == markers && Replacements(table) == replacements && i < |markers|
    requires !HoldsOneOf(s, markers[..i]) && FirstAt(s, markers[i], k)
    ensures i < |table| && i < |replacements| && markers[i] != "" && k + |markers[i]| <= |s|
    ensures RewriteAll(s, table[..i + 1]) == ReplacedAt(s, markers[i], replacements[i], k)
  {
    FrontHoldsNone(s, table, i);
    RuleAt(s, table, i, k);
  }

  /**
   * On a text that holds none of the markers before it, the rewrite of a marker puts its replacement in the place of
   * the first occurrence, and goes on behind it.
   */
  lemma MarkerIsReplaced(s: string, i: nat, k: nat)
    requires i < |MARKERS| && !HoldsOneOf(s, MARKERS[..i]) && FirstAt(s, MARKERS[i], k)
    ensures i < |REWRITES| && i < |REPLACEMENTS| && MARKERS[i] != "" && k + |MARKERS[i]| <= |s|
    ensures RewriteAll(s, REWRITES[..i + 1])
         == s[..k] + REPLACEMENTS[i] + Replace(s[k + |MARKERS[i]|..], MARKERS[i], REPLACEMENTS[i])
  {
    TableListed();
    RuleReplaces(s, REWRITES, MARKERS, REPLACEMENTS, i, k);
  }

  /** Normalising leaves a text alone exactly if it looks like a slug, holds no marker, and ends in no underscore. */
  lemma SlugFixedByMarkers(s: string)
    ensures SlugOf(s) == s <==> IsSlug(s) && !HoldsOneOf(s, MARKERS) && s[|s| - 1] != '_'
  {
    TableListed();
    HoldsExactlyWhen(s, REWRITES);
    SlugFixed(s);
  }

  // ---------- Characters ----------

  /** Capitals of the basic alphabet become small, and no other character changes. */
  lemma LoweredChar(c: char)
    ensures 'A' <= c <= 'Z' ==> 'a' <= LowerChar(c) <= 'z' && LowerChar(c) as int - 'a' as int == c as int - 'A' as int
    ensures !('A' <= c <= 'Z') ==> LowerChar(c) == c
  {}

  lemma KeptChar(c: char)
    ensures IsKept(c)
            <==> 'a' <= c <= 'z' || 'A' <= c <= 'Z' || '0' <= c <= '9' || c == '_' || c == '-' || c == ':' || c == '.'
  {}

  // ---------- Trimming and the cut ----------

  /** The part from a to b is what is left without the underscores at both ends. */
  predicate Inner(s: string, a: nat, b: nat) {
    && a <= b <= |s|
    && (forall i :: 0 <= i < a ==> s[i] == '_') && (forall i :: b <= i < |s| ==> s[i] == '_')
    && (a < b ==> s[a] != '_' && s[b - 1] != '_')
  }

  lemma {:induction false} TrimLeftCuts(s: string) returns (a: nat)
    ensures a <= |s| && TrimLeft(s) == s[a..] && forall i :: 0 <= i < a ==> s[i] == '_'
    ensures a < |s| ==> s[a] != '_'
  {
    a := 0;
    if s != "" && s[0] == '_' {
      var rest := TrimLeftCuts(s[1..]);
      a := rest + 1;
      forall i | 0 <= i < a ensures s[i] == '_' {
        if i > 0 { assert s[1..][i - 1] == s[i]; }
      }
      assert s[1..][rest..] == s[a..];
    }
  }

  lemma {:induction false} TrimRightCuts(s: string) returns (b: nat)
    ensures b <= |s| && TrimRight(s) == s[..b] && forall i :: b <= i < |s| ==> s[i] == '_'
    ensures b > 0 ==> s[b - 1] != '_'
  {
    b := |s|;
    if s != "" && s[|s| - 1] == '_' {
      b := TrimRightCuts(s[..|s| - 1]);
      assert s[..|s| - 1][..b] == s[..b];
    }
  }

  lemma TrimIsInner(s: string) returns (a: nat, b: nat)
    ensures Inner(s, a, b) && TrimRight(TrimLeft(s)) == s[a..b]
  {
    a := TrimLeftCuts(s);
    var n := TrimRightCuts(s[a..]);
    b := a + n;
    assert s[a..][..n] == s[a..b];
    forall i | b <= i < |s| ensures s[i] == '_' { assert s[a..][i - a] == s[i]; }
    if n > 0 { assert s[a..][n - 1] == s[b - 1]; }
  }

  /** The first 96 characters between the underscores at both ends, or the default if there are none. */
  predicate CutFrom(slug: string, s: string, a: nat, b: nat) {
    Inner(s, a, b)
    && if a == b then slug == "redacted_category"
       else if b - a <= 96 then slug == s[a..b]
       else slug == s[a..a + 96]
  }

  lemma TrimmedIsInner(value: string) returns (a: nat, b: nat)
    ensures var s := Collapse(MapChars(RewriteAll(ToLower(value), REWRITES)));
            Inner(s, a, b) && Trimmed(value) == s[a..b]
  {
    a, b := TrimIsInner(Collapse(MapChars(RewriteAll(ToLower(value), REWRITES))));
  }

  lemma CutIsPrefix(s: string, a: nat, b: nat)
    requires a < b <= |s|
    ensures s[a..b] != "" && Truncate(s[a..b]) == if b - a <= 96 then s[a..b] else s[a..a + 96]
  {}

  /** The slug is cut from the collapsed text. */
  lemma SlugIsInnerPart(value: string)
    ensures var s := Collapse(MapChars(RewriteAll(ToLower(value), REWRITES)));
            exists a: nat, b: nat :: CutFrom(SlugOf(value), s, a, b)
  {
    var s := Collapse(MapChars(RewriteAll(ToLower(value), REWRITES)));
    var a, b := TrimmedIsInner(value);
    if a < b { CutIsPrefix(s, a, b); }
    assert CutFrom(SlugOf(value), s, a, b);
  }
}
