/** The handful of Python `str` operations the reply handling relies on:
    `strip()`, `c in s`, `find`, `rfind` and slicing `s[a:b]`. */
module PyText {

  /** `c.isspace()`: the characters `str.strip()` removes when called
      without arguments. */
  predicate IsSpace(c: char)
  {
    || c == ' '
    || '\t' <= c <= '\r'
    || '\U{1C}' <= c <= '\U{1F}'
    || c == '\U{85}'
    || c == '\U{A0}'
    || c == '\U{1680}'
    || '\U{2000}' <= c <= '\U{200A}'
    || c == '\U{2028}'
    || c == '\U{2029}'
    || c == '\U{202F}'
    || c == '\U{205F}'
    || c == '\U{3000}'
  }

  ghost predicate AllSpace(s: string)
  {
    forall k :: 0 <= k < |s| ==> IsSpace(s[k])
  }

  /** Length of the longest all-whitespace prefix of `s`. */
  function LeadingSpaces(s: string): (n: nat)
    ensures n <= |s|
    ensures forall k :: 0 <= k < n ==> IsSpace(s[k])
    ensures n < |s| ==> !IsSpace(s[n])
  {
    if |s| > 0 && IsSpace(s[0]) then 1 + LeadingSpaces(s[1..]) else 0
  }

  /** Length of the longest all-whitespace suffix of `s`. */
  function TrailingSpaces(s: string): (n: nat)
    ensures n <= |s|
    ensures forall k :: |s| - n <= k < |s| ==> IsSpace(s[k])
    ensures n < |s| ==> !IsSpace(s[|s| - n - 1])
  {
    if |s| > 0 && IsSpace(s[|s| - 1]) then 1 + TrailingSpaces(s[..|s| - 1]) else 0
  }

  /** `r` is what is left of `s` once a whitespace-only prefix and a
      whitespace-only suffix are cut off, and `r` itself neither starts nor
      ends with whitespace. */
  ghost predicate IsStripOf(s: string, r: string)
  {
    && (r == [] || (!IsSpace(r[0]) && !IsSpace(r[|r| - 1])))
    && exists i, j :: 0 <= i <= j <= |s| && s[i..j] == r && AllSpace(s[..i]) && AllSpace(s[j..])
  }

  /** Where `s.strip()` starts: after the leading whitespace. */
  function StripStart(s: string): (i: nat)
    ensures i <= |s|
  {
    LeadingSpaces(s)
  }

  /** Where `s.strip()` ends: before the trailing whitespace, and never
      before it starts. */
  function StripEnd(s: string): (j: nat)
    ensures StripStart(s) <= j <= |s|
  {
    |s| - TrailingSpaces(s[StripStart(s)..])
  }

  /** `s.strip()`. */
  function Strip(s: string): (r: string)
    ensures |r| <= |s|
    ensures r == [] || (!IsSpace(r[0]) && !IsSpace(r[|r| - 1]))
  {
    s[StripStart(s)..StripEnd(s)]
  }

  /** `s.strip()` cuts off only whitespace, from both ends. */
  lemma StripIsStripOf(s: string)
    ensures IsStripOf(s, Strip(s))
  {
    var i, j := StripStart(s), StripEnd(s);
    assert AllSpace(s[..i]);
    assert AllSpace(s[j..]) by {
      var rest := s[i..];
      forall k | 0 <= k < |s| - j ensures s[j..][k] == rest[|rest| - (|s| - j) + k] { }
    }
    assert Strip(s) == s[i..j];
  }

  /** `strip()` never cuts into a stretch of `s` that begins and ends with
      non-whitespace characters. */
  lemma StripKeepsCore(s: string, i: nat, j: nat)
    requires i < j <= |s| && !IsSpace(s[i]) && !IsSpace(s[j - 1])
    ensures StripStart(s) <= i && j <= StripEnd(s)
  {
    var lead := StripStart(s);
    var rest := s[lead..];
    assert rest[j - 1 - lead] == s[j - 1];
  }

  /** The whitespace prefix ends exactly at the first non-whitespace character. */
  lemma LeadingSpacesAt(s: string, i: nat)
    requires i < |s| && AllSpace(s[..i]) && !IsSpace(s[i])
    ensures LeadingSpaces(s) == i
  {
  }

  /** The whitespace suffix starts right after the last non-whitespace character. */
  lemma TrailingSpacesAt(s: string, j: nat)
    requires 0 < j <= |s| && AllSpace(s[j..]) && !IsSpace(s[j - 1])
    ensures TrailingSpaces(s) == |s| - j
  {
  }

  /** A stretch bounded by non-whitespace, with only whitespace outside it,
      is exactly what `strip()` keeps. */
  lemma StripAt(s: string, i: nat, j: nat)
    requires i < j <= |s| && !IsSpace(s[i]) && !IsSpace(s[j - 1])
    requires AllSpace(s[..i]) && AllSpace(s[j..])
    ensures StripStart(s) == i && StripEnd(s) == j
  {
    LeadingSpacesAt(s, i);
    var rest := s[i..];
    assert rest[j - i - 1] == s[j - 1];
    assert rest[j - i..] == s[j..];
    TrailingSpacesAt(rest, j - i);
  }

  /** An all-whitespace string strips to nothing. */
  lemma StripAllSpace(s: string)
    requires AllSpace(s)
    ensures Strip(s) == []
  {
    assert LeadingSpaces(s) == |s|;
  }

  /** There is only one way to strip a string: any `r` meeting the
      description of a stripped `s` is `s.strip()`. */
  lemma StripUnique(s: string, r: string)
    requires IsStripOf(s, r)
    ensures r == Strip(s)
  {
    var i, j :| 0 <= i <= j <= |s| && s[i..j] == r && AllSpace(s[..i]) && AllSpace(s[j..]);
    if r == [] {
      SpaceOnBothSides(s, i);
      StripAllSpace(s);
    } else {
      assert s[i] == r[0] && s[j - 1] == r[|r| - 1];
      StripAt(s, i, j);
    }
  }

  /** Whitespace up to `i` and whitespace from `i` on make a string of
      whitespace. */
  lemma SpaceOnBothSides(s: string, i: nat)
    requires i <= |s| && AllSpace(s[..i]) && AllSpace(s[i..])
    ensures AllSpace(s)
  {
    forall k | 0 <= k < |s| ensures IsSpace(s[k]) {
      if k < i { assert s[..i][k] == s[k]; } else { assert s[i..][k - i] == s[k]; }
    }
  }

  /** A string that neither starts nor ends with whitespace is its own strip;
      in particular `strip()` is idempotent. */
  lemma StripKeepsTrimmed(s: string)
    requires s == [] || (!IsSpace(s[0]) && !IsSpace(s[|s| - 1]))
    ensures Strip(s) == s
  {
    if s != [] {
      StripKeepsCore(s, 0, |s|);
    }
  }

  /** `s.find(c)`: the index of the first `c`, or -1 when there is none. */
  function Find(s: string, c: char): (r: int)
    ensures -1 <= r < |s|
    ensures r == -1 <==> c !in s
    ensures 0 <= r ==> s[r] == c && forall k :: 0 <= k < r ==> s[k] != c
  {
    if |s| == 0 then -1
    else if s[0] == c then 0
    else
      var k := Find(s[1..], c);
      assert c in s <==> c in s[1..];
      if k == -1 then -1 else k + 1
  }

  /** `s.rfind(c)`: the index of the last `c`, or -1 when there is none. */
  function RFind(s: string, c: char): (r: int)
    ensures -1 <= r < |s|
    ensures r == -1 <==> c !in s
    ensures 0 <= r ==> s[r] == c && forall k :: r < k < |s| ==> s[k] != c
  {
    if |s| == 0 then -1
    else if s[|s| - 1] == c then |s| - 1
    else
      var k := RFind(s[..|s| - 1], c);
      assert c in s <==> c in s[..|s| - 1];
      k
  }

  /** `s[a:b]` for non-negative bounds: both bounds are clamped to the
      length, and a reversed range gives the empty string. */
  function Slice(s: string, a: nat, b: nat): (r: string)
    ensures |r| == if a < b && a < |s| then (if b < |s| then b else |s|) - a else 0
    ensures forall k :: 0 <= k < |r| ==> r[k] == s[a + k]
  {
    var hi := if b < |s| then b else |s|;
    if a < hi then s[a..hi] else []
  }
}
