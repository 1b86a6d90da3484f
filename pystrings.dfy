/**
 * The Python `str` operations that the agent's text handling relies on:
 * `find`, `in`, `strip`, `endswith`, and the first/last position of a
 * character (what the brace-matching regular expression amounts to).
 */
module PyStrings {

  /** `pat` occurs in `s` starting at position `k`. */
  predicate OccursAt(s: string, pat: string, k: nat)
  {
    k + |pat| <= |s| && s[k..k + |pat|] == pat
  }

  /**
   * Python's `s.find(pat, from)`: a position `r >= from` at which `pat`
   * occurs, or -1; `FindIsLeast` shows it is the least such position and
   * that -1 means there is none.
   */
  function Find(s: string, pat: string, from: nat): (r: int)
    ensures r == -1 || (from <= r && OccursAt(s, pat, r))
    decreases |s| - from
  {
    if from + |pat| > |s| then -1
    else if OccursAt(s, pat, from) then from
    else Find(s, pat, from + 1)
  }

  /** `find` skips no occurrence: -1 only when there is none from `from`, and otherwise none before the result. */
  lemma {:induction false} FindIsLeast(s: string, pat: string, from: nat)
    ensures Find(s, pat, from) == -1 ==> forall k: nat :: from <= k ==> !OccursAt(s, pat, k)
    ensures Find(s, pat, from) != -1 ==> forall k: nat :: from <= k < Find(s, pat, from) ==> !OccursAt(s, pat, k)
    decreases |s| - from
  {
    if from + |pat| > |s| {
    } else if OccursAt(s, pat, from) {
    } else {
      FindIsLeast(s, pat, from + 1);
    }
  }

  /** Python's `pat in s`. */
  function Contains(s: string, pat: string): (b: bool)
    ensures b <==> exists k: nat :: OccursAt(s, pat, k)
  {
    FindIsLeast(s, pat, 0);
    Find(s, pat, 0) != -1
  }

  /** Any occurrence at or after `from` that is not preceded by another one is what `find` returns. */
  lemma FindFirst(s: string, pat: string, from: nat, r: nat)
    requires from <= r && OccursAt(s, pat, r)
    requires forall k: nat :: from <= k < r ==> !OccursAt(s, pat, k)
    ensures Find(s, pat, from) == r
  {
    FindIsLeast(s, pat, from);
  }

  /** Python's `s.endswith(suffix)`. */
  function EndsWith(s: string, suffix: string): (b: bool)
    ensures b <==> exists stem :: s == stem + suffix
  {
    if |suffix| <= |s| then
      assert s == s[..|s| - |suffix|] + s[|s| - |suffix|..];
      s[|s| - |suffix|..] == suffix
    else
      false
  }

  /** The characters for which Python's `str.isspace` holds; `str.strip()` removes exactly these. */
  const SpaceChars: set<char> := {
    ' ', '\t', '\n', '\U{B}', '\U{C}', '\r', '\U{1C}', '\U{1D}', '\U{1E}', '\U{1F}',
    '\U{85}', '\U{A0}', '\U{1680}',
    '\U{2000}', '\U{2001}', '\U{2002}', '\U{2003}', '\U{2004}', '\U{2005}',
    '\U{2006}', '\U{2007}', '\U{2008}', '\U{2009}', '\U{200A}',
    '\U{2028}', '\U{2029}', '\U{202F}', '\U{205F}', '\U{3000}'
  }

  /** Python's `c.isspace()`. */
  predicate IsSpace(c: char)
  {
    c in SpaceChars
  }

  predicate AllSpace(s: string)
  {
    forall k :: 0 <= k < |s| ==> IsSpace(s[k])
  }

  /** Python's `s.lstrip()`: drop leading whitespace, one character at a time. */
  function StripStart(s: string): (r: string)
    ensures |r| <= |s|
  {
    if s != [] && IsSpace(s[0]) then StripStart(s[1..]) else s
  }

  /** `lstrip` returns the suffix left after a run of whitespace, and that suffix does not start with whitespace. */
  lemma {:induction false} StripStartSpec(s: string)
    ensures StripStart(s) == s[|s| - |StripStart(s)|..]
    ensures AllSpace(s[..|s| - |StripStart(s)|])
    ensures StripStart(s) == [] || !IsSpace(StripStart(s)[0])
  {
    if s != [] && IsSpace(s[0]) {
      StripStartSpec(s[1..]);
      var n := |s| - |StripStart(s)|;
      assert s[..n] == [s[0]] + s[1..][..n - 1];
    }
  }

  /** Python's `s.rstrip()`: drop trailing whitespace, one character at a time. */
  function StripEnd(s: string): (r: string)
    ensures |r| <= |s|
  {
    if s != [] && IsSpace(s[|s| - 1]) then StripEnd(s[..|s| - 1]) else s
  }

  /** `rstrip` returns the prefix left before a run of whitespace, and that prefix does not end with whitespace. */
  lemma {:induction false} StripEndSpec(s: string)
    ensures StripEnd(s) == s[..|StripEnd(s)|]
    ensures AllSpace(s[|StripEnd(s)|..])
    ensures StripEnd(s) == [] || !IsSpace(StripEnd(s)[|StripEnd(s)| - 1])
  {
    if s != [] && IsSpace(s[|s| - 1]) {
      var t := s[..|s| - 1];
      StripEndSpec(t);
      var n := |StripEnd(s)|;
      assert s[n..] == t[n..] + [s[|s| - 1]];
    }
  }

  /** `r` is the slice of `s` at offset `i` with nothing but whitespace on either side of it. */
  ghost predicate SurroundedBySpace(s: string, r: string, i: nat)
  {
    i + |r| <= |s| && r == s[i..i + |r|] && AllSpace(s[..i]) && AllSpace(s[i + |r|..])
  }

  /** Python's `s.strip()`. */
  function Strip(s: string): (r: string)
    ensures |r| <= |s|
  {
    StripEnd(StripStart(s))
  }

  /** `strip` returns the slice of `s` left after removing leading and trailing whitespace. */
  lemma StripSpec(s: string)
    ensures exists i: nat :: SurroundedBySpace(s, Strip(s), i)
  {
    var t := StripStart(s);
    var r := StripEnd(t);
    StripStartSpec(s);
    StripEndSpec(t);
    var i: nat := |s| - |t|;
    assert t == s[i..];
    assert r == s[i..][..|r|] == s[i..i + |r|];
    assert s[i + |r|..] == t[|r|..];
    assert SurroundedBySpace(s, Strip(s), i);
  }

  /** What `strip` returns neither starts nor ends with whitespace. */
  lemma StripUnpaddedResult(s: string)
    ensures Strip(s) == [] || (!IsSpace(Strip(s)[0]) && !IsSpace(Strip(s)[|Strip(s)| - 1]))
  {
    var t := StripStart(s);
    StripStartSpec(s);
    StripEndSpec(t);
    assert Strip(s) != [] ==> Strip(s)[0] == t[0];
  }

  /** Stripping a string that has no surrounding whitespace leaves it as it is. */
  lemma {:induction false} StripUnpadded(s: string)
    requires s == [] || (!IsSpace(s[0]) && !IsSpace(s[|s| - 1]))
    ensures Strip(s) == s
  {
    assert StripStart(s) == s;
    assert StripEnd(s) == s;
  }

  /** `strip` is idempotent. */
  lemma {:induction false} StripIdempotent(s: string)
    ensures Strip(Strip(s)) == Strip(s)
  {
    StripUnpaddedResult(s);
    StripUnpadded(Strip(s));
  }

  /** Leading whitespace in front of a string that does not start with whitespace is what `lstrip` removes. */
  lemma {:induction false} StripStartPadded(pad: string, u: string)
    requires AllSpace(pad)
    requires u == [] || !IsSpace(u[0])
    ensures StripStart(pad + u) == u
  {
    if pad != [] {
      assert (pad + u)[1..] == pad[1..] + u;
      StripStartPadded(pad[1..], u);
    }
  }

  /** Trailing whitespace after a string that does not end with whitespace is what `rstrip` removes. */
  lemma {:induction false} StripEndPadded(u: string, pad: string)
    requires AllSpace(pad)
    requires u == [] || !IsSpace(u[|u| - 1])
    ensures StripEnd(u + pad) == u
  {
    if pad != [] {
      assert (u + pad)[..|u + pad| - 1] == u + pad[..|pad| - 1];
      StripEndPadded(u, pad[..|pad| - 1]);
    }
  }

  /** Stripping `pad1 + t + pad2` with whitespace-only pads and an unpadded `t` gives `t`. */
  lemma {:induction false} StripPadded(pad1: string, t: string, pad2: string)
    requires AllSpace(pad1) && AllSpace(pad2)
    requires t == [] || (!IsSpace(t[0]) && !IsSpace(t[|t| - 1]))
    ensures Strip(pad1 + t + pad2) == t
  {
    if t == [] {
      assert pad1 + t + pad2 == (pad1 + pad2) + [];
      StripStartPadded(pad1 + pad2, []);
    } else {
      assert pad1 + t + pad2 == pad1 + (t + pad2);
      StripStartPadded(pad1, t + pad2);
      StripEndPadded(t, pad2);
    }
  }

  /** Python's `s.find(c)` for one character: a position holding `c`, or -1. */
  function IndexOf(s: string, c: char): (r: int)
    ensures r == -1 || (0 <= r < |s| && s[r] == c)
  {
    if s == [] then -1
    else if s[0] == c then 0
    else
      var r := IndexOf(s[1..], c);
      if r == -1 then -1 else r + 1
  }

  /** `find` returns the first position of `c`, and -1 only when `c` does not occur. */
  lemma {:induction false} IndexOfIsFirst(s: string, c: char)
    ensures IndexOf(s, c) == -1 ==> forall k :: 0 <= k < |s| ==> s[k] != c
    ensures IndexOf(s, c) != -1 ==> forall k :: 0 <= k < IndexOf(s, c) ==> s[k] != c
  {
    if s != [] && s[0] != c {
      IndexOfIsFirst(s[1..], c);
      assert forall k :: 1 <= k < |s| ==> s[k] == s[1..][k - 1];
    }
  }

  /** Python's `s.rfind(c)` for one character: a position holding `c`, or -1. */
  function LastIndexOf(s: string, c: char): (r: int)
    ensures r == -1 || (0 <= r < |s| && s[r] == c)
  {
    if s == [] then -1
    else if s[|s| - 1] == c then |s| - 1
    else LastIndexOf(s[..|s| - 1], c)
  }

  /** `rfind` returns the last position of `c`, and -1 only when `c` does not occur. */
  lemma {:induction false} LastIndexOfIsLast(s: string, c: char)
    ensures LastIndexOf(s, c) == -1 ==> forall k :: 0 <= k < |s| ==> s[k] != c
    ensures LastIndexOf(s, c) != -1 ==> forall k :: LastIndexOf(s, c) < k < |s| ==> s[k] != c
  {
    if s != [] && s[|s| - 1] != c {
      LastIndexOfIsLast(s[..|s| - 1], c);
    }
  }
}
