// The few Python `str` built-ins that the marker protocol relies on:
// substring search (`pat in s`), `s.split(sep)` and `s.strip()`.

module Text {

  /** `pat` occurs in `s` starting at index `i`. */
  predicate OccursAt(s: string, pat: string, i: int) {
    0 <= i && i + |pat| <= |s| && s[i..i + |pat|] == pat
  }

  /** Index of the leftmost occurrence of `pat` in `s`, or -1 (Python's `s.find(pat)`). */
  function Find(s: string, pat: string): (r: int)
    ensures -1 <= r <= |s|
    ensures r >= 0 ==> OccursAt(s, pat, r)
    ensures forall j :: 0 <= j && (r < 0 || j < r) ==> !OccursAt(s, pat, j)
    decreases |s|
  {
    if |s| < |pat| then -1
    else if s[..|pat|] == pat then 0
    else
      assert !OccursAt(s, pat, 0) by { assert s[0..|pat|] == s[..|pat|]; }
      var k := Find(s[1..], pat);
      var r := if k < 0 then -1 else k + 1;
      forall j | 1 <= j && (r < 0 || j < r) ensures !OccursAt(s, pat, j) {
        assert !OccursAt(s[1..], pat, j - 1);
        if j + |pat| <= |s| { assert s[1..][j - 1..j - 1 + |pat|] == s[j..j + |pat|]; }
      }
      assert k >= 0 ==> s[1..][k..k + |pat|] == s[k + 1..k + 1 + |pat|];
      r
  }

  /** Python's `pat in s`. */
  predicate Contains(s: string, pat: string) {
    Find(s, pat) >= 0
  }

  /** Any occurrence makes `pat in s` true, and the leftmost one is no later. */
  lemma OccurrenceFound(s: string, pat: string, i: int)
    requires OccursAt(s, pat, i)
    ensures Contains(s, pat) && Find(s, pat) <= i
  {
  }

  /** `sep.join(parts)`: the inverse of `Split`. */
  function Join(parts: seq<string>, sep: string): string {
    if |parts| == 0 then ""
    else if |parts| == 1 then parts[0]
    else parts[0] + sep + Join(parts[1..], sep)
  }

  /**
   * Python's `s.split(sep)` for a non-empty separator: cut `s` at every leftmost,
   * non-overlapping occurrence of `sep`. (`split("")` raises ValueError in Python.)
   */
  function Split(s: string, sep: string): (parts: seq<string>)
    requires |sep| > 0
    ensures |parts| >= 1
    ensures Join(parts, sep) == s
    ensures forall k :: 0 <= k < |parts| ==> !Contains(parts[k], sep)
    ensures forall k :: 0 <= k < |parts| - 1 ==> !Contains(parts[k] + sep[..|sep| - 1], sep)
    ensures |parts| == 1 <==> !Contains(s, sep)
    ensures |parts| > 1 ==> parts[0] == s[..Find(s, sep)]
    decreases |s|
  {
    var i := Find(s, sep);
    if i < 0 then [s]
    else
      SplitHead(s, sep, i);
      var rest := Split(s[i + |sep|..], sep);
      SplitCons(s, sep, i, rest);
      [s[..i]] + rest
  }

  /** The first piece, put in front of the pieces of what follows the first separator. */
  lemma SplitCons(s: string, sep: string, i: int, rest: seq<string>)
    requires |sep| > 0 && 0 <= i && i + |sep| <= |s|
    requires !Contains(s[..i], sep) && !Contains(s[..i] + sep[..|sep| - 1], sep)
    requires s == s[..i] + sep + s[i + |sep|..]
    requires |rest| >= 1 && Join(rest, sep) == s[i + |sep|..]
    requires forall k :: 0 <= k < |rest| ==> !Contains(rest[k], sep)
    requires forall k :: 0 <= k < |rest| - 1 ==> !Contains(rest[k] + sep[..|sep| - 1], sep)
    ensures var parts := [s[..i]] + rest;
      && Join(parts, sep) == s
      && (forall k :: 0 <= k < |parts| ==> !Contains(parts[k], sep))
      && (forall k :: 0 <= k < |parts| - 1 ==> !Contains(parts[k] + sep[..|sep| - 1], sep))
  {
    var parts := [s[..i]] + rest;
    assert Join(parts, sep) == s by {
      assert parts[0] == s[..i] && parts[1..] == rest;
    }
    forall k | 0 <= k < |parts| ensures !Contains(parts[k], sep) {
      if k > 0 { assert parts[k] == rest[k - 1]; }
    }
    forall k | 0 <= k < |parts| - 1 ensures !Contains(parts[k] + sep[..|sep| - 1], sep) {
      if k > 0 { assert parts[k] == rest[k - 1]; }
    }
  }

  /** A prefix in which no occurrence starts holds no occurrence. */
  lemma PrefixFree(s: string, pat: string, m: int)
    requires 0 <= m <= |s|
    requires forall j :: 0 <= j && j + |pat| <= m ==> !OccursAt(s, pat, j)
    ensures !Contains(s[..m], pat)
  {
    var p := s[..m];
    forall j | 0 <= j ensures !OccursAt(p, pat, j) {
      if j + |pat| <= m {
        assert !OccursAt(s, pat, j);
        assert p[j..j + |pat|] == s[j..j + |pat|];
      }
    }
  }

  /**
   * The piece before the first separator holds no separator, not even one that
   * would end inside the separator itself, and the string is that piece, the
   * separator and the rest.
   */
  lemma SplitHead(s: string, sep: string, i: int)
    requires |sep| > 0 && OccursAt(s, sep, i)
    requires forall j :: 0 <= j < i ==> !OccursAt(s, sep, j)
    ensures !Contains(s[..i], sep)
    ensures !Contains(s[..i] + sep[..|sep| - 1], sep)
    ensures s == s[..i] + sep + s[i + |sep|..]
  {
    PrefixFree(s, sep, i);
    PrefixFree(s, sep, i + |sep| - 1);
    CutInsideSeparator(s, sep, i);
    assert s == s[..i] + s[i..i + |sep|] + s[i + |sep|..];
  }

  /** Cutting one character short of the end of an occurrence at `i` leaves the text before it and all but the last character of the pattern. */
  lemma CutInsideSeparator(s: string, sep: string, i: int)
    requires |sep| > 0 && OccursAt(s, sep, i)
    ensures s[..i + |sep| - 1] == s[..i] + sep[..|sep| - 1]
  {
    var a, b := s[..i + |sep| - 1], s[..i] + sep[..|sep| - 1];
    forall k | 0 <= k < |a| ensures a[k] == b[k] {
      if k >= i {
        assert sep[k - i] == s[i..i + |sep|][k - i];
      }
    }
  }

  /** Python's `str.isspace()` for one character (the code points that `strip()` removes). */
  predicate IsSpace(c: char) {
    var n := c as int;
    (0x09 <= n <= 0x0D) || (0x1C <= n <= 0x20) || n == 0x85 || n == 0xA0 || n == 0x1680
    || (0x2000 <= n <= 0x200A) || n == 0x2028 || n == 0x2029 || n == 0x202F || n == 0x205F
    || n == 0x3000
  }

  /** Neither the first nor the last character is whitespace. */
  predicate NoEdgeSpace(s: string) {
    |s| == 0 || (!IsSpace(s[0]) && !IsSpace(s[|s| - 1]))
  }

  /** Number of leading whitespace characters: what `s.lstrip()` removes. */
  function Lead(s: string): (n: nat)
    ensures n <= |s|
    ensures forall i :: 0 <= i < n ==> IsSpace(s[i])
    ensures n < |s| ==> !IsSpace(s[n])
  {
    if |s| > 0 && IsSpace(s[0]) then 1 + Lead(s[1..]) else 0
  }

  /**
   * Where the text in `s[lo..hi]` ends once trailing whitespace is dropped:
   * what `rstrip()` keeps of that slice is `s[lo..e]`.
   */
  function TextEnd(s: string, lo: nat, hi: nat): (e: nat)
    requires lo <= hi <= |s|
    ensures lo <= e <= hi
    ensures forall i :: e <= i < hi ==> IsSpace(s[i])
    ensures e > lo ==> !IsSpace(s[e - 1])
    decreases hi
  {
    if hi > lo && IsSpace(s[hi - 1]) then TextEnd(s, lo, hi - 1) else hi
  }

  /**
   * Python's `s.strip()`: the result is the slice of `s` left between its leading
   * and its trailing whitespace, and it neither starts nor ends with whitespace.
   */
  function Strip(s: string): (r: string)
    ensures NoEdgeSpace(r)
    ensures var lo := Lead(s);
      && lo + |r| <= |s| && r == s[lo..lo + |r|]
      && (forall i :: 0 <= i < lo ==> IsSpace(s[i]))
      && (forall i :: lo + |r| <= i < |s| ==> IsSpace(s[i]))
  {
    var lo := Lead(s);
    var e := TextEnd(s, lo, |s|);
    assert lo < e ==> s[lo..e][0] == s[lo] && s[lo..e][e - lo - 1] == s[e - 1];
    s[lo..e]
  }

  /** A string without surrounding whitespace is left unchanged by `strip()`. */
  lemma {:induction false} StripKeeps(s: string)
    requires NoEdgeSpace(s)
    ensures Strip(s) == s
  {
    assert Lead(s) == 0;
    assert TextEnd(s, 0, |s|) == |s|;
    assert s[0..|s|] == s;
  }
}
