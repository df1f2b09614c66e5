/** The string normaliser of the baseline read models. */
module SafeSlug {

  // ---------- The passes ----------

  function ToLower(s: string): (r: string)
    ensures |r| == |s|
    ensures forall i :: 0 <= i < |r| ==> r[i] == LowerChar(s[i])
  {
    seq(|s|, i requires 0 <= i < |s| => LowerChar(s[i]))
  }

  function LowerChar(c: char): char {
    if 'A' <= c <= 'Z' then (c as int + 32) as char else c
  }

  /** Replaces the non-overlapping occurrences of a text, found from left to right. */
  function Replace(s: string, from: string, to: string): string
    requires from != ""
    decreases |s|
  {
    if s == "" then ""
    else if from <= s then to + Replace(s[|from|..], from, to)
    else [s[0]] + Replace(s[1..], from, to)
  }

  predicate IsLower(c: char) { !('A' <= c <= 'Z') }

  predicate Lowered(s: string) { forall c :: c in s ==> IsLower(c) }

  type Marker = s: string | s != "" witness "x"

  type Lower = s: string | Lowered(s) witness ""

  type Rewrites = seq<(Marker, Lower)>

  // Replacements that are long enough to be named on their own.
  const POSSIBLE_PATTERN: Lower := "possible_metadata_pattern"
  const MATERIAL_ABUSE: Lower := "auth_material_abuse"
  const HOST_RISK: Lower := "host_risk_context"
  const EXECUTION_VISIBILITY: Lower := "execution_visibility_required"
  const NATIVE_VISIBILITY: Lower := "native_visibility_required"
  const CAPTURE_VISIBILITY: Lower := "capture_visibility_required"

  const MATERIAL_REWRITES: Rewrites := [
    ("credential", "auth_material"),
    ("token", "auth_material"),
    ("secret", "redacted_material"),
    ("password", "redacted_material"),
    ("payload", "content_summary")
  ]

  const RECORD_REWRITES: Rewrites := [
    ("raw_log", "redacted_log"),
    ("raw_json", "redacted_json"),
    ("raw_packet", "redacted_packet"),
    ("username", "identity_label"),
    ("email", "identity_label")
  ]

  const SCOPE_REWRITES: Rewrites := [
    ("tenant_id", "provider_scope"),
    ("account_id", "provider_scope"),
    ("device_id", "device_scope"),
    ("command_line", "command_metadata")
  ]

  const CLAIM_REWRITES: Rewrites := [
    ("private_marker", "redacted_marker"),
    ("confirmed_compromise", POSSIBLE_PATTERN),
    ("credential_theft", MATERIAL_ABUSE)
  ]

  const HOST_REWRITES: Rewrites := [
    ("host_compromise", HOST_RISK),
    ("malware_execution", EXECUTION_VISIBILITY),
    ("process_attribution", NATIVE_VISIBILITY)
  ]

  const FILE_REWRITES: Rewrites := [
    ("full_capture", CAPTURE_VISIBILITY),
    ("filename", "file_ref"),
    ("local_path", "path_ref")
  ]

  /** The rewrites in the order in which they run. */
  const REWRITES: Rewrites := 
    MATERIAL_REWRITES + RECORD_REWRITES + SCOPE_REWRITES + CLAIM_REWRITES + HOST_REWRITES + FILE_REWRITES

  /** Each rewrite runs over the whole result of the ones before it. */
  function RewriteAll(s: string, table: Rewrites): string
    decreases |table|
  {
    if table == [] then s else RewriteAll(Replace(s, table[0].0, table[0].1), table[1..])
  }

  predicate IsAlphanumeric(c: char) { 'a' <= c <= 'z' || 'A' <= c <= 'Z' || '0' <= c <= '9' }

  predicate IsKept(c: char) { IsAlphanumeric(c) || c in {'_', '-', ':', '.'} }

  function MapChars(s: string): (r: string)
    ensures |r| == |s|
    ensures forall i :: 0 <= i < |r| ==> r[i] == if IsKept(s[i]) then s[i] else '_'
  {
    seq(|s|, i requires 0 <= i < |s| => if IsKept(s[i]) then s[i] else '_')
  }

  predicate DoubleAt(s: string, i: nat) { i + 1 < |s| && s[i] == '_' && s[i + 1] == '_' }

  predicate NoDouble(s: string) { forall i: nat :: i < |s| ==> !DoubleAt(s, i) }

  /** One pass of the rewrite loop. */
  function Halve(s: string): string { Replace(s, "__", "_") }

  /** Every maximal run of underscores becomes one underscore. */
  function Collapse(s: string): string {
    if |s| < 2 then s
    else if s[0] == '_' && s[1] == '_' then Collapse(s[1..])
    else [s[0]] + Collapse(s[1..])
  }

  function TrimLeft(s: string): string {
    if s != "" && s[0] == '_' then TrimLeft(s[1..]) else s
  }

  function TrimRight(s: string): string {
    if s != "" && s[|s| - 1] == '_' then TrimRight(s[..|s| - 1]) else s
  }

  const MAX_SLUG := 96

  function Truncate(s: string): string { if |s| <= MAX_SLUG then s else s[..MAX_SLUG] }

  /** The text before the last cut: lowered, rewritten, mapped, collapsed and trimmed. */
  function Trimmed(value: string): string
  {
    TrimRight(TrimLeft(Collapse(MapChars(RewriteAll(ToLower(value), REWRITES)))))
  }

  const EMPTY_SLUG := "redacted_category"

  function SlugOf(value: string): string {
    if Trimmed(value) == "" then EMPTY_SLUG else Truncate(Trimmed(value))
  }

  /** The program's normaliser; its underscore loop runs until no double is left. */
  method Slug(value: string) returns (slug: string)
    ensures slug == SlugOf(value)
  {
    var normalized := ToLower(value);
    var i := 0;
    while i < |REWRITES|
      invariant 0 <= i <= |REWRITES|
      invariant RewriteAll(normalized, REWRITES[i..]) == RewriteAll(ToLower(value), REWRITES)
    {
      normalized := Replace(normalized, REWRITES[i].0, REWRITES[i].1);
      assert REWRITES[i..][1..] == REWRITES[i + 1..];
      i := i + 1;
    }
    slug := MapChars(normalized);
    ghost var mapped := slug;
    while !NoDouble(slug)
      invariant Collapse(slug) == Collapse(mapped)
      decreases |slug|
    {
      HalveShortens(slug);
      HalveKeepsCollapse(slug);
      slug := Halve(slug);
    }
    CollapseFixed(slug);
    slug := TrimRight(TrimLeft(slug));
    if slug == "" { return EMPTY_SLUG; }
    slug := Truncate(slug);
  }

  // ---------- The underscore loop ----------

  lemma DoubleLeads(s: string)
    ensures "__" <= s <==> DoubleAt(s, 0)
  {
    if |s| >= 2 { assert s[..2] == [s[0], s[1]]; }
  }

  lemma NoDoubleTail(s: string)
    requires NoDouble(s) && s != ""
    ensures NoDouble(s[1..])
  {
    forall i: nat | i < |s[1..]| ensures !DoubleAt(s[1..], i) { assert !DoubleAt(s, i + 1); }
  }

  lemma {:induction false} HalveShortens(s: string)
    requires !NoDouble(s)
    ensures |Halve(s)| < |s|
    decreases |s|
  {
    if "__" <= s {
      HalveNoLonger(s[2..]);
    } else {
      var i: nat :| i < |s| && DoubleAt(s, i);
      DoubleLeads(s);
      assert DoubleAt(s[1..], i - 1);
      HalveShortens(s[1..]);
    }
  }

  lemma {:induction false} HalveNoLonger(s: string)
    ensures |Halve(s)| <= |s|
    decreases |s|
  {
    if s != "" {
      if "__" <= s { HalveNoLonger(s[2..]); } else { HalveNoLonger(s[1..]); }
    }
  }

  predicate Leads(s: string) { s != "" && s[0] == '_' }

  lemma HalveKeepsLead(s: string)
    ensures Leads(Halve(s)) <==> Leads(s)
  {
    if s != "" && "__" <= s { assert s[0] == "__"[0]; }
  }

  lemma CollapseCons(c: char, s: string)
    ensures Collapse([c] + s) == if c == '_' && Leads(s) then Collapse(s) else [c] + Collapse(s)
  {
    assert ([c] + s)[1..] == s;
  }

  lemma {:induction false} HalveKeepsCollapse(s: string)
    ensures Collapse(Halve(s)) == Collapse(s)
    decreases |s|
  {
    if s != "" {
      assert s == [s[0]] + s[1..];
      CollapseCons(s[0], s[1..]);
      if "__" <= s {
        var rest := s[2..];
        assert s[0] == '_' && s[1..] == ['_'] + rest;
        HalveKeepsCollapse(rest);
        HalveKeepsLead(rest);
        CollapseCons('_', rest);
        CollapseCons('_', Halve(rest));
        assert Halve(s) == ['_'] + Halve(rest);
      } else {
        HalveKeepsCollapse(s[1..]);
        HalveKeepsLead(s[1..]);
        CollapseCons(s[0], Halve(s[1..]));
        DoubleLeads(s);
      }
    }
  }

  lemma {:induction false} CollapseFixed(s: string)
    requires NoDouble(s)
    ensures Collapse(s) == s
  {
    if |s| >= 2 {
      NoDoubleTail(s);
      assert !DoubleAt(s, 0);
      CollapseFixed(s[1..]);
    }
  }

  // ---------- What a slug looks like ----------

  lemma {:induction false} ReplaceKeepsLowered(s: string, from: string, to: string)
    requires from != "" && Lowered(s) && Lowered(to)
    ensures Lowered(Replace(s, from, to))
    decreases |s|
  {
    if s != "" {
      if from <= s { ReplaceKeepsLowered(s[|from|..], from, to); } else { ReplaceKeepsLowered(s[1..], from, to); }
    }
  }

  lemma {:induction false} RewriteKeepsLowered(s: string, table: Rewrites)
    requires Lowered(s)
    ensures Lowered(RewriteAll(s, table))
    decreases |table|
  {
    if table != [] {
      ReplaceKeepsLowered(s, table[0].0, table[0].1);
      RewriteKeepsLowered(Replace(s, table[0].0, table[0].1), table[1..]);
    }
  }

  /** The characters of a slug. */
  predicate IsSlugChar(c: char) { 'a' <= c <= 'z' || '0' <= c <= '9' || c in {'_', '-', ':', '.'} }

  predicate SlugChars(s: string) { forall i :: 0 <= i < |s| ==> IsSlugChar(s[i]) }

  lemma {:induction false} CollapseShape(s: string)
    requires SlugChars(s)
    ensures SlugChars(Collapse(s)) && NoDouble(Collapse(s)) && (Leads(Collapse(s)) <==> Leads(s))
  {
    if |s| >= 2 {
      CollapseShape(s[1..]);
      var rest := Collapse(s[1..]);
      if !(s[0] == '_' && s[1] == '_') {
        var c := [s[0]] + rest;
        forall i: nat | i < |c| ensures !DoubleAt(c, i) {
          if i > 0 { assert !DoubleAt(rest, i - 1); }
        }
      }
    }
  }

  lemma {:induction false} TrimLeftShape(s: string)
    requires SlugChars(s) && NoDouble(s)
    ensures SlugChars(TrimLeft(s)) && NoDouble(TrimLeft(s)) && !Leads(TrimLeft(s))
  {
    if s != "" && s[0] == '_' {
      NoDoubleTail(s);
      TrimLeftShape(s[1..]);
    }
  }

  lemma {:induction false} TrimRightShape(s: string)
    requires SlugChars(s) && NoDouble(s) && !Leads(s)
    ensures var t := TrimRight(s);
            SlugChars(t) && NoDouble(t) && !Leads(t) && (t != "" ==> t[|t| - 1] != '_')
  {
    if s != "" && s[|s| - 1] == '_' {
      PrefixShape(s, |s| - 1);
      TrimRightShape(s[..|s| - 1]);
    }
  }

  lemma PrefixShape(s: string, n: nat)
    requires n <= |s| && SlugChars(s) && NoDouble(s) && !Leads(s)
    ensures SlugChars(s[..n]) && NoDouble(s[..n]) && !Leads(s[..n])
  {
    forall i: nat | i < n ensures !DoubleAt(s[..n], i) { assert !DoubleAt(s, i); }
  }

  lemma TrimmedShape(value: string)
    ensures var t := Trimmed(value);
            SlugChars(t) && NoDouble(t) && !Leads(t) && (t != "" ==> t[|t| - 1] != '_')
  {
    RewriteKeepsLowered(ToLower(value), REWRITES);
    var mapped := MapChars(RewriteAll(ToLower(value), REWRITES));
    var rewritten := RewriteAll(ToLower(value), REWRITES);
    assert SlugChars(mapped) by {
      forall i | 0 <= i < |mapped| ensures IsSlugChar(mapped[i]) { assert rewritten[i] in rewritten; }
    }
    CollapseShape(mapped);
    TrimLeftShape(Collapse(mapped));
    TrimRightShape(TrimLeft(Collapse(mapped)));
  }

  /**
   * A slug is never empty, has at most 96 characters, all lowercase letters, digits or one of _-:. , has no two
   * underscores together and none in front; it ends in one exactly when the cut at 96 falls on it.
   */
  lemma SlugShape(value: string)
    ensures var slug := SlugOf(value);
            && 1 <= |slug| <= 96
            && SlugChars(slug) && NoDouble(slug) && !Leads(slug)
    ensures var slug := SlugOf(value);
            slug[|slug| - 1] == '_' <==> |Trimmed(value)| > 96 && Trimmed(value)[95] == '_'
  {
    TrimmedShape(value);
    if Trimmed(value) != "" {
      if |Trimmed(value)| > MAX_SLUG { PrefixShape(Trimmed(value), MAX_SLUG); }
    }
  }

  // ---------- A slug is not a fixed point ----------

  predicate OccursAt(s: string, part: string, k: nat) { k <= |s| && part <= s[k..] }

  lemma {:induction false} ReplaceAbsent(s: string, from: string, to: string)
    requires from != "" && forall k: nat :: k < |s| ==> !OccursAt(s, from, k)
    ensures Replace(s, from, to) == s
    decreases |s|
  {
    if s != "" {
      assert !OccursAt(s, from, 0) && s[0..] == s;
      forall k: nat | k < |s[1..]| ensures !OccursAt(s[1..], from, k) {
        assert !OccursAt(s, from, k + 1) && s[1..][k..] == s[k + 1..];
      }
      ReplaceAbsent(s[1..], from, to);
    }
  }

  /** No marker of the table occurs in the text. */
  predicate Avoids(s: string, table: Rewrites) {
    table == [] || ((forall k: nat :: k < |s| ==> !OccursAt(s, table[0].0, k)) && Avoids(s, table[1..]))
  }

  /** A text that no rewrite finds passes through all of them. */
  lemma {:induction false} RewriteAbsent(s: string, table: Rewrites)
    requires Avoids(s, table)
    ensures RewriteAll(s, table) == s
    decreases |table|
  {
    if table != [] {
      ReplaceAbsent(s, table[0].0, table[0].1);
      RewriteAbsent(s, table[1..]);
    }
  }

  lemma {:induction false} MapFixed(s: string)
    requires SlugChars(s)
    ensures MapChars(s) == s && ToLower(s) == s
  {
    forall i | 0 <= i < |s| ensures MapChars(s)[i] == s[i] && ToLower(s)[i] == s[i] { assert IsSlugChar(s[i]); }
  }

  lemma {:induction false} TrimRightShorter(s: string)
    requires s != "" && !Leads(s)
    ensures TrimRight(s) <= s && TrimRight(s) != ""
    ensures TrimRight(s) == s <==> s[|s| - 1] != '_'
  {
    if s[|s| - 1] == '_' {
      TrimRightShorter(s[..|s| - 1]);
    }
  }

  lemma {:induction false} RewriteAppend(s: string, a: Rewrites, b: Rewrites)
    ensures RewriteAll(s, a + b) == RewriteAll(RewriteAll(s, a), b)
    decreases |a|
  {
    if a == [] {
      assert a + b == b;
    } else {
      assert (a + b)[1..] == a[1..] + b;
      RewriteAppend(Replace(s, a[0].0, a[0].1), a[1..], b);
    }
  }

  /** Each marker has a character that the text lacks. */
  predicate LacksOneOfEach(s: string, table: Rewrites, lacking: string) {
    |lacking| == |table| && forall i :: 0 <= i < |table| ==> lacking[i] in table[i].0 && lacking[i] !in s
  }

  lemma {:induction false} LackingAvoids(s: string, table: Rewrites, lacking: string)
    requires LacksOneOfEach(s, table, lacking)
    ensures Avoids(s, table)
    decreases |table|
  {
    if table != [] {
      var part := table[0].0;
      var j :| 0 <= j < |part| && part[j] == lacking[0];
      forall k: nat | k < |s| ensures !OccursAt(s, part, k) {
        if k + j < |s| { assert s[k..][j] == s[k + j] && s[k + j] in s; }
      }
      LackingAvoids(s, table[1..], lacking[1..]);
    }
  }

  lemma LackingUnchanged(s: string, table: Rewrites, lacking: string)
    requires LacksOneOfEach(s, table, lacking)
    ensures RewriteAll(s, table) == s
  {
    LackingAvoids(s, table, lacking);
    RewriteAbsent(s, table);
  }

  lemma RewriteInGroups(s: string)
    ensures var t := RewriteAll(RewriteAll(RewriteAll(s, MATERIAL_REWRITES), RECORD_REWRITES), SCOPE_REWRITES);
            RewriteAll(s, REWRITES)
            == RewriteAll(RewriteAll(RewriteAll(t, CLAIM_REWRITES), HOST_REWRITES), FILE_REWRITES)
  {
    var m, r, c, l, h, f :=
      MATERIAL_REWRITES, RECORD_REWRITES, SCOPE_REWRITES, CLAIM_REWRITES, HOST_REWRITES, FILE_REWRITES;
    RewriteAppend(s, m, r);
    RewriteAppend(s, m + r, c);
    RewriteAppend(s, m + r + c, l);
    RewriteAppend(s, m + r + c + l, h);
    RewriteAppend(s, m + r + c + l + h, f);
  }

  lemma MaterialUnchanged(s: string)
    requires 'c' !in s && 't' !in s && 's' !in s && 'p' !in s
    ensures RewriteAll(s, MATERIAL_REWRITES) == s
  {
    LackingUnchanged(s, MATERIAL_REWRITES, "ctspp");
  }

  lemma RecordUnchanged(s: string)
    requires '_' !in s && 'u' !in s && 'e' !in s
    ensures RewriteAll(s, RECORD_REWRITES) == s
  {
    LackingUnchanged(s, RECORD_REWRITES, "___ue");
  }

  lemma RecordTailUnchanged(s: string)
    requires 'w' !in s && 'u' !in s && 'm' !in s
    ensures RewriteAll(s, RECORD_REWRITES[1..]) == s
  {
    LackingUnchanged(s, RECORD_REWRITES[1..], "wwum");
  }

  lemma ScopeUnchanged(s: string)
    requires '_' !in s || ('n' !in s && 'u' !in s && 'v' !in s && 'm' !in s)
    ensures RewriteAll(s, SCOPE_REWRITES) == s
  {
    LackingUnchanged(s, SCOPE_REWRITES, if '_' !in s then "____" else "nuvm");
  }

  lemma ClaimUnchanged(s: string)
    requires '_' !in s || ('p' !in s && 'n' !in s)
    ensures RewriteAll(s, CLAIM_REWRITES) == s
  {
    LackingUnchanged(s, CLAIM_REWRITES, if '_' !in s then "___" else "pnn");
  }

  lemma HostUnchanged(s: string)
    requires '_' !in s || ('h' !in s && 'm' !in s && 'p' !in s)
    ensures RewriteAll(s, HOST_REWRITES) == s
  {
    LackingUnchanged(s, HOST_REWRITES, if '_' !in s then "___" else "hmp");
  }

  lemma FileUnchanged(s: string)
    requires 'f' !in s && ('_' !in s || 'p' !in s)
    ensures RewriteAll(s, FILE_REWRITES) == s
  {
    LackingUnchanged(s, FILE_REWRITES, if '_' !in s then "ff_" else "ffp");
  }

  /** The text has none of the letters that the markers before the records need. */
  predicate PlainBefore(s: string) { 'c' !in s && 't' !in s && 's' !in s && 'p' !in s }

  /** The text has none of the letters that the markers after the records need. */
  predicate PlainAfter(s: string) {
    'n' !in s && 'u' !in s && 'v' !in s && 'm' !in s && 'p' !in s && 'h' !in s && 'f' !in s
  }

  lemma RecordsOnly(s: string, t: string)
    requires PlainBefore(s) && RewriteAll(s, RECORD_REWRITES) == t && PlainAfter(t)
    ensures RewriteAll(s, REWRITES) == t
  {
    MaterialUnchanged(s);
    ScopeUnchanged(t);
    ClaimUnchanged(t);
    HostUnchanged(t);
    FileUnchanged(t);
    RewriteInGroups(s);
  }

  lemma FirstRecordRewrite(s: string, t: string)
    requires Replace(s, "raw_log", "redacted_log") == t
    requires 'w' !in t && 'u' !in t && 'm' !in t
    ensures RewriteAll(s, RECORD_REWRITES) == t
  {
    assert RECORD_REWRITES[0].0 == "raw_log" && RECORD_REWRITES[0].1 == "redacted_log";
    RecordTailUnchanged(t);
  }

  lemma WholeReplaced(s: string, to: string)
    requires s != ""
    ensures Replace(s, s, to) == to
  {
    assert s[|s|..] == "";
  }

  lemma SlugStages(value: string, rewritten: string, t: string)
    requires ToLower(value) == value && RewriteAll(value, REWRITES) == rewritten
    requires MapChars(rewritten) == t && NoDouble(t) && t != "" && |t| <= MAX_SLUG
    requires t[0] != '_' && t[|t| - 1] != '_'
    ensures SlugOf(value) == t
  {
    CollapseFixed(t);
  }

  /** "raw log" with the given separator. */
  predicate RawLog(s: string, separator: char) {
    |s| == 7 && s[0] == 'r' && s[1] == 'a' && s[2] == 'w' && s[3] == separator
    && s[4] == 'l' && s[5] == 'o' && s[6] == 'g'
  }

  predicate RedactedLog(s: string) {
    |s| == 12 && s[0] == 'r' && s[1] == 'e' && s[2] == 'd' && s[3] == 'a' && s[4] == 'c' && s[5] == 't'
    && s[6] == 'e' && s[7] == 'd' && s[8] == '_' && s[9] == 'l' && s[10] == 'o' && s[11] == 'g'
  }

  lemma RawLogIsMarker(s: string, t: string)
    requires RawLog(s, '_') && RedactedLog(t)
    ensures Replace(s, "raw_log", "redacted_log") == t
  {
    assert s == "raw_log";
    assert t == "redacted_log";
    WholeReplaced(s, t);
  }

  lemma LogIsPlain(s: string, separator: char)
    requires RawLog(s, separator) && separator in " _"
    ensures PlainBefore(s) && PlainAfter(s) && 'e' !in s && (separator == ' ' ==> '_' !in s)
    ensures ToLower(s) == s
  {
  }

  lemma RedactedIsPlain(s: string)
    requires RedactedLog(s)
    ensures PlainAfter(s) && 'w' !in s && MapChars(s) == s && NoDouble(s)
  {
  }

  lemma SpacedMaps(s: string, t: string)
    requires RawLog(s, ' ') && RawLog(t, '_')
    ensures MapChars(s) == t && NoDouble(t)
  {
  }

  lemma SpacedToJoined(s: string, t: string)
    requires RawLog(s, ' ') && RawLog(t, '_')
    ensures SlugOf(s) == t
  {
    LogIsPlain(s, ' ');
    SpacedMaps(s, t);
    assert RewriteAll(s, REWRITES) == s by {
      RecordUnchanged(s);
      RecordsOnly(s, s);
    }
    SlugStages(s, s, t);
  }

  lemma JoinedToRedacted(s: string, t: string)
    requires RawLog(s, '_') && RedactedLog(t)
    ensures SlugOf(s) == t
  {
    LogIsPlain(s, '_');
    RedactedIsPlain(t);
    assert RewriteAll(s, REWRITES) == t by {
      RawLogIsMarker(s, t);
      FirstRecordRewrite(s, t);
      RecordsOnly(s, t);
    }
    SlugStages(s, t, t);
  }

  /** Spaces become underscores after the rewrites: the slug of "raw log" is a marker, which a second pass rewrites. */
  lemma SlugNotIdempotent(s: string)
    requires RawLog(s, ' ')
    ensures RawLog(SlugOf(s), '_') && RedactedLog(SlugOf(SlugOf(s)))
    ensures SlugOf(SlugOf(s)) != SlugOf(s)
  {
    var joined := s[3 := '_'];
    SpacedToJoined(s, joined);
    var redacted := [s[0], 'e', 'd', s[1], 'c', 't', 'e', 'd', '_', s[4], s[5], s[6]];
    JoinedToRedacted(joined, redacted);
  }
}
