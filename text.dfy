/** String operations of Rust's `str` that the core relies on: ASCII case
    folding (`eq_ignore_ascii_case`, `to_lowercase` on ASCII extensions),
    `trim`, `split` on a pattern, `join`, and decimal formatting of integers. */
module Text {
  import opened Wrappers

  // ---------------------------------------------------------------------------
  // ASCII case folding

  function AsciiLower(c: char): (r: char)
    ensures 'A' <= c <= 'Z' ==> r as int == c as int + 32
    ensures !('A' <= c <= 'Z') ==> r == c
  {
    if 'A' <= c <= 'Z' then (c as int + 32) as char else c
  }

  function AsciiLowerStr(s: string): (r: string)
    ensures |r| == |s|
    ensures forall i :: 0 <= i < |s| ==> r[i] == AsciiLower(s[i])
  {
    if s == [] then [] else [AsciiLower(s[0])] + AsciiLowerStr(s[1..])
  }

  /** `str::eq_ignore_ascii_case`: equal once every ASCII letter is lowered. */
  predicate EqIgnoreAsciiCase(a: string, b: string) {
    AsciiLowerStr(a) == AsciiLowerStr(b)
  }

  lemma EqIgnoreAsciiCaseIsEquivalence(a: string, b: string, c: string)
    ensures EqIgnoreAsciiCase(a, a)
    ensures EqIgnoreAsciiCase(a, b) ==> EqIgnoreAsciiCase(b, a)
    ensures EqIgnoreAsciiCase(a, b) && EqIgnoreAsciiCase(b, c) ==> EqIgnoreAsciiCase(a, c)
  {
  }

  // ---------------------------------------------------------------------------
  // Unicode whitespace and trim

  /** The characters with the Unicode White_Space property, which is what
      Rust's `char::is_whitespace` (and so `str::trim`) tests. */
  predicate IsWhitespace(c: char) {
    var u := c as int;
    (0x09 <= u <= 0x0D) || u == 0x20 || u == 0x85 || u == 0xA0 || u == 0x1680
    || (0x2000 <= u <= 0x200A) || u == 0x2028 || u == 0x2029 || u == 0x202F
    || u == 0x205F || u == 0x3000
  }

  /** How many whitespace characters `s` starts with. */
  function LeadingSpace(s: string): (n: nat)
    ensures n <= |s| && (n < |s| ==> !IsWhitespace(s[n]))
    ensures forall k :: 0 <= k < n ==> IsWhitespace(s[k])
  {
    if s != [] && IsWhitespace(s[0]) then
      var m := LeadingSpace(s[1..]);
      assert forall k :: 1 <= k < m + 1 ==> s[k] == s[1..][k - 1];
      m + 1
    else 0
  }

  /** How many whitespace characters `s` ends with. */
  function TrailingSpace(s: string): (n: nat)
    ensures n <= |s| && (n < |s| ==> !IsWhitespace(s[|s| - 1 - n]))
    ensures forall k :: |s| - n <= k < |s| ==> IsWhitespace(s[k])
  {
    if s != [] && IsWhitespace(s[|s| - 1]) then
      var m := TrailingSpace(s[..|s| - 1]);
      assert forall k :: |s| - 1 - m <= k < |s| - 1 ==> s[k] == s[..|s| - 1][k];
      m + 1
    else 0
  }

  /** `str::trim`: the longest slice of `s` that neither starts nor ends with
      whitespace; everything cut off on either side is whitespace. */
  function Trim(s: string): (r: string)
    ensures var i := LeadingSpace(s);
              && i + |r| <= |s| && r == s[i..i + |r|]
              && (forall k :: 0 <= k < i ==> IsWhitespace(s[k]))
              && (forall k :: i + |r| <= k < |s| ==> IsWhitespace(s[k]))
    ensures r != [] ==> !IsWhitespace(r[0]) && !IsWhitespace(r[|r| - 1])
  {
    var i := LeadingSpace(s);
    if i == |s| then []
    else
      var j := |s| - TrailingSpace(s);
      assert !IsWhitespace(s[i]);
      s[i..j]
  }

  /** A string that neither starts nor ends with whitespace is its own trim. */
  lemma TrimUntrimmed(s: string)
    requires s != [] ==> !IsWhitespace(s[0]) && !IsWhitespace(s[|s| - 1])
    ensures Trim(s) == s
  {
    assert LeadingSpace(s) == 0 && TrailingSpace(s) == 0;
  }

  // ---------------------------------------------------------------------------
  // split / join

  predicate OccursAt(s: string, pat: string, k: int) {
    0 <= k && k + |pat| <= |s| && s[k..k + |pat|] == pat
  }

  predicate Contains(s: string, pat: string) {
    exists k :: 0 <= k <= |s| && OccursAt(s, pat, k)
  }

  /** The first position at or after `from` where `pat` occurs. */
  function IndexOfFrom(s: string, pat: string, from: nat): (r: Option<nat>)
    requires |pat| > 0
    ensures r.Some? ==>
              && from <= r.value && OccursAt(s, pat, r.value)
              && forall k :: from <= k < r.value ==> !OccursAt(s, pat, k)
    ensures r.None? ==> forall k :: from <= k ==> !OccursAt(s, pat, k)
    decreases |s| - from
  {
    if from + |pat| > |s| then None
    else if s[from..from + |pat|] == pat then Some(from)
    else IndexOfFrom(s, pat, from + 1)
  }

  /** `str::split(pat)`: the pieces between non-overlapping occurrences of
      `pat`, found left to right. */
  function Split(s: string, pat: string): (parts: seq<string>)
    requires |pat| > 0
    ensures |parts| >= 1
    decreases |s|
  {
    match IndexOfFrom(s, pat, 0)
    case None => [s]
    case Some(i) => [s[..i]] + Split(s[i + |pat|..], pat)
  }

  /** `[&str]::join(sep)`. */
  function Join(parts: seq<string>, sep: string): (r: string)
  {
    if parts == [] then ""
    else if |parts| == 1 then parts[0]
    else parts[0] + sep + Join(parts[1..], sep)
  }

  lemma {:induction false} JoinSplit(s: string, pat: string)
    requires |pat| > 0
    ensures Join(Split(s, pat), pat) == s
    decreases |s|
  {
    var f := IndexOfFrom(s, pat, 0);
    if f.Some? {
      var i := f.value;
      var rest := s[i + |pat|..];
      var tail := Split(rest, pat);
      JoinSplit(rest, pat);
      var parts := Split(s, pat);
      assert parts == [s[..i]] + tail;
      assert parts[1..] == tail;
      assert Join(parts, pat) == s[..i] + pat + Join(tail, pat);
      assert s == s[..i] + s[i..i + |pat|] + rest;
    }
  }

  /** `s` splits into at least two pieces exactly when `pat` occurs in it. */
  lemma SplitCount(s: string, pat: string)
    requires |pat| > 0
    ensures |Split(s, pat)| >= 2 <==> Contains(s, pat)
  {
    var f := IndexOfFrom(s, pat, 0);
    if f.Some? {
      assert OccursAt(s, pat, f.value);
    } else {
      assert forall k :: 0 <= k ==> !OccursAt(s, pat, k);
    }
  }

  /** A pattern with a character that `s` lacks does not occur in `s`. */
  lemma NotContainedByChar(s: string, pat: string, j: nat)
    requires j < |pat| && pat[j] !in s
    ensures !Contains(s, pat)
  {
    forall k | 0 <= k <= |s| ensures !OccursAt(s, pat, k) {
      if k + |pat| <= |s| {
        assert s[k..k + |pat|][j] == s[k + j];
      }
    }
  }

  lemma SplitAbsent(s: string, pat: string, j: nat)
    requires j < |pat| && pat[j] !in s
    ensures Split(s, pat) == [s]
  {
    NotContainedByChar(s, pat, j);
    SplitCount(s, pat);
  }

  /** When `pat` cannot start inside `a`, splitting `a + pat + b` cuts at the
      `pat` right after `a`. */
  lemma SplitFirst(a: string, pat: string, b: string, j: nat)
    requires j < |pat| && pat[j] !in a + pat[..j]
    ensures Split(a + pat + b, pat) == [a] + Split(b, pat)
  {
    var s := a + pat + b;
    assert s[|a|..|a| + |pat|] == pat;
    assert OccursAt(s, pat, |a|);
    forall k | 0 <= k < |a| ensures !OccursAt(s, pat, k) {
      assert s[k + j] == (a + pat[..j])[k + j];
      assert s[k..k + |pat|][j] == s[k + j];
    }
    assert IndexOfFrom(s, pat, 0) == Some(|a|);
    assert s[..|a|] == a && s[|a| + |pat|..] == b;
  }

  /** No piece of a split contains the separator when it is one character. */
  lemma {:induction false} SplitPiecesFree(s: string, c: char)
    ensures forall j, k :: 0 <= j < |Split(s, [c])| && 0 <= k < |Split(s, [c])[j]| ==> Split(s, [c])[j][k] != c
    decreases |s|
  {
    match IndexOfFrom(s, [c], 0)
    case None =>
      forall k | 0 <= k < |s| ensures s[k] != c {
        assert !OccursAt(s, [c], k);
        assert s[k..k + 1] == [s[k]];
      }
    case Some(i) =>
      var rest := s[i + 1..];
      SplitPiecesFree(rest, c);
      forall k | 0 <= k < i ensures s[k] != c {
        assert !OccursAt(s, [c], k);
        assert s[k..k + 1] == [s[k]];
      }
  }

  lemma JoinLast(parts: seq<string>, sep: string)
    requires |parts| >= 2
    ensures Join(parts, sep) == Join(parts[..|parts| - 1], sep) + sep + parts[|parts| - 1]
    decreases |parts|
  {
    if |parts| > 2 {
      JoinLast(parts[1..], sep);
      assert parts[1..][..|parts| - 2] == parts[..|parts| - 1][1..];
    }
  }

  // ---------------------------------------------------------------------------
  // decimal formatting, as `format!("{}", n)` prints an integer

  function DigitChar(d: int): (c: char)
    requires 0 <= d < 10
    ensures '0' <= c <= '9' && c as int - '0' as int == d
  {
    ('0' as int + d) as char
  }

  function NatToDecimal(n: nat): (s: string)
    ensures |s| >= 1
    ensures forall i :: 0 <= i < |s| ==> '0' <= s[i] <= '9'
    decreases n
  {
    if n < 10 then [DigitChar(n)] else NatToDecimal(n / 10) + [DigitChar(n % 10)]
  }

  function IntToDecimal(n: int): (s: string)
    ensures |s| >= 1
    ensures n < 0 <==> s[0] == '-'
    ensures forall i :: 0 <= i < |s| ==> s[i] == '-' || '0' <= s[i] <= '9'
  {
    if n < 0 then "-" + NatToDecimal(-n) else NatToDecimal(n)
  }

  /** Reads back a string of decimal digits. */
  function DigitsValue(s: string): (n: nat)
    requires forall i :: 0 <= i < |s| ==> '0' <= s[i] <= '9'
  {
    if s == [] then 0 else 10 * DigitsValue(s[..|s| - 1]) + (s[|s| - 1] as int - '0' as int)
  }

  lemma {:induction false} NatToDecimalRoundTrip(n: nat)
    ensures DigitsValue(NatToDecimal(n)) == n
    decreases n
  {
    var s := NatToDecimal(n);
    if n >= 10 {
      NatToDecimalRoundTrip(n / 10);
      assert s[..|s| - 1] == NatToDecimal(n / 10);
    }
  }

  /** The digits carry no leading zero: only zero itself starts with '0',
      as `format!("{}", n)` prints it. */
  lemma {:induction false} NatToDecimalNoLeadingZero(n: nat)
    ensures NatToDecimal(n)[0] == '0' <==> n == 0
    ensures |NatToDecimal(n)| > 1 ==> NatToDecimal(n)[0] != '0'
    decreases n
  {
    if n >= 10 {
      NatToDecimalNoLeadingZero(n / 10);
      assert NatToDecimal(n)[0] == NatToDecimal(n / 10)[0];
    }
  }

  /** Decimal formatting loses nothing: different integers print differently. */
  lemma IntToDecimalInjective(a: int, b: int)
    requires IntToDecimal(a) == IntToDecimal(b)
    ensures a == b
  {
    var sa := IntToDecimal(a);
    assert a < 0 <==> sa[0] == '-';
    assert b < 0 <==> sa[0] == '-';
    if a < 0 {
      var na, nb: nat := -a, -b;
      assert sa == "-" + NatToDecimal(na) == "-" + NatToDecimal(nb);
      assert NatToDecimal(na) == sa[1..] == NatToDecimal(nb);
      NatToDecimalRoundTrip(na);
      NatToDecimalRoundTrip(nb);
    } else {
      var na, nb: nat := a, b;
      assert NatToDecimal(na) == NatToDecimal(nb);
      NatToDecimalRoundTrip(na);
      NatToDecimalRoundTrip(nb);
    }
  }
}
