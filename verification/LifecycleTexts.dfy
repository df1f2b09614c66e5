/** Which texts the status contract calls safe. */
module LifecycleTexts {
  import opened Wrappers
  import opened Text
  import opened LifecycleCalls
  import opened LifecycleReports

  // ---------- Trimming ----------

  /** The part from a to b starts and ends with a visible character, and only whitespace is around it. */
  predicate Visible(s: string, a: nat, b: nat) {
    && a < b <= |s| && !IsWhitespace(s[a]) && !IsWhitespace(s[b - 1])
    && (forall i :: 0 <= i < a ==> IsWhitespace(s[i]))
    && (forall i :: b <= i < |s| ==> IsWhitespace(s[i]))
  }

  lemma {:induction false} TrimStartCuts(s: string) returns (a: nat)
    ensures a <= |s| && TrimStart(s) == s[a..] && (forall i :: 0 <= i < a ==> IsWhitespace(s[i]))
    ensures a < |s| ==> !IsWhitespace(s[a])
  {
    a := 0;
    if s != [] && IsWhitespace(s[0]) {
      var rest := TrimStartCuts(s[1..]);
      a := rest + 1;
      forall i | 0 <= i < a ensures IsWhitespace(s[i]) {
        if i > 0 { assert s[1..][i - 1] == s[i]; }
      }
      assert s[1..][rest..] == s[a..];
    }
  }

  lemma {:induction false} TrimEndCuts(s: string) returns (b: nat)
    ensures b <= |s| && TrimEnd(s) == s[..b] && (forall i :: b <= i < |s| ==> IsWhitespace(s[i]))
    ensures b > 0 ==> !IsWhitespace(s[b - 1])
  {
    b := |s|;
    if s != [] && IsWhitespace(s[|s| - 1]) {
      b := TrimEndCuts(s[..|s| - 1]);
      assert s[..|s| - 1][..b] == s[..b];
    }
  }

  lemma TrimIsVisible(s: string) returns (a: nat, b: nat)
    requires !IsBlank(s)
    ensures Visible(s, a, b) && TrimEnd(TrimStart(s)) == s[a..b]
  {
    a := TrimStartCuts(s);
    var n := TrimEndCuts(s[a..]);
    b := a + n;
    assert s[a..][..n] == s[a..b];
    var seen :| 0 <= seen < |s| && !IsWhitespace(s[seen]);
    assert a <= seen;
    assert s[a..][0] == s[a];
    forall i | b <= i < |s| ensures IsWhitespace(s[i]) { assert s[a..][i - a] == s[i]; }
    assert s[a..][n - 1] == s[b - 1];
  }

  lemma VisibleIsUnique(s: string, a: nat, b: nat, c: nat, d: nat)
    requires Visible(s, a, b) && Visible(s, c, d)
    ensures a == c && b == d
  {}

  lemma BlankTrimsToNothing(s: string)
    requires IsBlank(s)
    ensures TrimEnd(TrimStart(s)) == []
  {
    var a := TrimStartCuts(s);
    assert a == |s|;
  }

  // ---------- Markers ----------

  /** A marker starts and ends with visible characters. */
  predicate Solid(marker: string) {
    marker != [] && 'a' <= marker[0] <= 'z' && marker[|marker| - 1] == '='
  }

  lemma MarkersAreSolid(marker: string)
    requires marker in UNSAFE_MARKERS
    ensures Solid(marker)
  {
    assert forall i :: 0 <= i < |UNSAFE_MARKERS| ==> Solid(UNSAFE_MARKERS[i]);
  }

  lemma FoldKeepsVisible(c: char)
    requires 'a' <= AsciiLower(c) <= 'z' || AsciiLower(c) == '='
    ensures !IsWhitespace(c)
  {}

  /** Trimming cuts no marker. */
  lemma TrimKeepsMarkers(s: string, a: nat, b: nat, marker: string)
    requires Visible(s, a, b) && Solid(marker)
    ensures ContainsFolded(s[a..b], marker) <==> ContainsFolded(s, marker)
  {
    var t := s[a..b];
    var n := |marker|;
    if ContainsFolded(t, marker) {
      var i: nat :| i <= |t| && MatchesFolded(t, marker, i);
      forall j | 0 <= j < n ensures AsciiLower(s[a + i + j]) == marker[j] { assert t[i + j] == s[a + i + j]; }
      assert MatchesFolded(s, marker, a + i);
    }
    if ContainsFolded(s, marker) {
      var i: nat :| i <= |s| && MatchesFolded(s, marker, i);
      assert AsciiLower(s[i + 0]) == marker[0] && AsciiLower(s[i + (n - 1)]) == marker[n - 1];
      FoldKeepsVisible(s[i]);
      FoldKeepsVisible(s[i + n - 1]);
      assert a <= i && i + n <= b;
      forall j | 0 <= j < n ensures AsciiLower(t[i - a + j]) == marker[j] {
        assert t[i - a + j] == s[i + j] && AsciiLower(s[i + j]) == marker[j];
      }
      assert MatchesFolded(t, marker, i - a);
    }
  }

  // ---------- Safe texts ----------

  /** The letters agree, a capital of the basic alphabet with its small letter. */
  predicate SameLetter(c: char, small: char) {
    c == small || ('A' <= c <= 'Z' && 'a' <= small <= 'z' && c as int - 'A' as int == small as int - 'a' as int)
  }

  /** The marker stands somewhere in the text, in capitals or small letters. */
  predicate Mentions(s: string, marker: string) {
    exists i: nat :: i + |marker| <= |s| && MentionsAt(s, marker, i)
  }

  predicate MentionsAt(s: string, marker: string, i: nat)
    requires i + |marker| <= |s|
  {
    forall j :: 0 <= j < |marker| ==> SameLetter(s[i + j], marker[j])
  }

  lemma MentionsExactlyWhen(s: string, marker: string)
    requires forall j :: 0 <= j < |marker| ==> !('A' <= marker[j] <= 'Z')
    ensures Mentions(s, marker) <==> ContainsFolded(s, marker)
  {
    forall i: nat | i + |marker| <= |s| ensures MentionsAt(s, marker, i) <==> MatchesFolded(s, marker, i) {
      forall j | 0 <= j < |marker| ensures SameLetter(s[i + j], marker[j]) <==> AsciiLower(s[i + j]) == marker[j] {}
    }
  }

  predicate Small(marker: string) { forall j :: 0 <= j < |marker| ==> !('A' <= marker[j] <= 'Z') }

  lemma MarkersAreSmall(marker: string)
    requires marker in UNSAFE_MARKERS
    ensures Small(marker)
  {
    EarlyMarkersAreSmall();
    LateMarkersAreSmall();
  }

  lemma EarlyMarkersAreSmall()
    ensures forall i :: 0 <= i < 7 ==> Small(UNSAFE_MARKERS[i])
  {}

  lemma LateMarkersAreSmall()
    ensures forall i :: 7 <= i < |UNSAFE_MARKERS| ==> Small(UNSAFE_MARKERS[i])
  {}

  /** The text is not blank, its visible part takes at most 128 bytes, and it mentions none of the markers. */
  ghost predicate SafeByItself(s: string) {
    && (exists a: nat, b: nat :: Visible(s, a, b) && Utf8Length(s[a..b]) <= 128)
    && forall m :: m in [
         "handle=", "session_name=", "provider_guid=", "pid=", "process_name=", "raw_address=", "exact_port=",
         "path=", "token=", "credential=", "secret=", "password=", "api_key="
       ] ==> !Mentions(s, m)
  }

  lemma SafeTextExactlyWhen(s: string)
    ensures SafeText(s) <==> SafeByItself(s)
  {
    if IsBlank(s) {
      BlankTrimsToNothing(s);
      assert forall a: nat, b: nat :: !Visible(s, a, b);
    } else {
      var a, b := TrimIsVisible(s);
      forall m | m in UNSAFE_MARKERS ensures Mentions(s, m) <==> ContainsFolded(s[a..b], m) {
        MarkersAreSolid(m);
        MarkersAreSmall(m);
        TrimKeepsMarkers(s, a, b, m);
        MentionsExactlyWhen(s, m);
      }
      if c: nat, d: nat :| Visible(s, c, d) && Utf8Length(s[c..d]) <= 128 { VisibleIsUnique(s, a, b, c, d); }
    }
  }

  // ---------- Bytes ----------

  /** How many bytes a character takes. */
  lemma BytesOfChar(c: char)
    ensures var n := c as int;
            Utf8Length([c]) == if n <= 0x7F then 1 else if n <= 0x7FF then 2 else if n <= 0xFFFF then 3 else 4
  {
    assert [c][1..] == [];
  }

  /** Texts take the bytes of their parts. */
  lemma {:induction false} BytesAdd(a: string, b: string)
    ensures Utf8Length(a + b) == Utf8Length(a) + Utf8Length(b)
  {
    if a == [] {
      assert a + b == b;
    } else {
      BytesAdd(a[1..], b);
      assert (a + b)[1..] == a[1..] + b;
    }
  }
}
