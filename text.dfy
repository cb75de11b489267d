/**
 * The string operations the handler relies on: Python's `str.strip()` and
 * the first/last occurrence of a character.
 */
module Text {
  import opened Wrappers

  /** Python's `str.isspace()` for one character: the characters `str.strip()` removes. */
  predicate IsSpace(c: char) {
    var n := c as int;
    || (0x09 <= n <= 0x0D)
    || (0x1C <= n <= 0x20)
    || n == 0x85
    || n == 0xA0
    || n == 0x1680
    || (0x2000 <= n <= 0x200A)
    || n == 0x2028
    || n == 0x2029
    || n == 0x202F
    || n == 0x205F
    || n == 0x3000
  }

  ghost predicate AllSpace(s: string) {
    forall k :: 0 <= k < |s| ==> IsSpace(s[k])
  }

  /** Drops the leading whitespace of `s`. */
  function TrimStart(s: string): (r: string)
    ensures |r| <= |s| && r == s[|s| - |r|..]
    ensures AllSpace(s[..|s| - |r|])
    ensures r == [] || !IsSpace(r[0])
  {
    if |s| > 0 && IsSpace(s[0]) then
      var r := TrimStart(s[1..]);
      assert s[..|s| - |r|] == [s[0]] + s[1..][..|s[1..]| - |r|];
      r
    else
      s
  }

  /** Drops the trailing whitespace of `s`. */
  function TrimEnd(s: string): (r: string)
    ensures |r| <= |s| && r == s[..|r|]
    ensures AllSpace(s[|r|..])
    ensures r == [] || !IsSpace(r[|r| - 1])
  {
    if |s| > 0 && IsSpace(s[|s| - 1]) then
      var r := TrimEnd(s[..|s| - 1]);
      assert s[|r|..] == s[..|s| - 1][|r|..] + [s[|s| - 1]];
      r
    else
      s
  }

  /** `r` is `s[a..a + |r|]` and everything around it is whitespace. */
  ghost predicate PaddedBySpace(s: string, r: string, a: nat) {
    a + |r| <= |s| && s[a..a + |r|] == r && AllSpace(s[..a]) && AllSpace(s[a + |r|..])
  }

  /**
   * Python's `s.strip()`: the longest run of `s` that neither starts nor
   * ends with whitespace, obtained by removing whitespace at both ends only.
   */
  function Strip(s: string): (r: string)
    ensures exists a :: PaddedBySpace(s, r, a)
    ensures r == [] || (!IsSpace(r[0]) && !IsSpace(r[|r| - 1]))
  {
    var t := TrimStart(s);
    var r := TrimEnd(t);
    TrimmedBothEnds(s, t, r);
    r
  }

  lemma TrimmedBothEnds(s: string, t: string, r: string)
    requires |t| <= |s| && t == s[|s| - |t|..] && AllSpace(s[..|s| - |t|])
    requires |r| <= |t| && r == t[..|r|] && AllSpace(t[|r|..])
    ensures PaddedBySpace(s, r, |s| - |t|)
  {
    var a := |s| - |t|;
    var tail := s[a + |r|..];
    forall k | 0 <= k < |tail|
      ensures IsSpace(tail[k])
    {
      assert tail[k] == t[|r|..][k];
    }
  }

  /** Index of the first `c` in `s` (Python's `s.find(c)`, with `None` for -1). */
  function IndexOf(s: string, c: char): (r: Option<nat>)
    ensures r.Some? ==> r.value < |s| && s[r.value] == c
    ensures r.Some? ==> forall k :: 0 <= k < r.value ==> s[k] != c
    ensures r.None? <==> c !in s
  {
    if |s| == 0 then None
    else if s[0] == c then Some(0)
    else match IndexOf(s[1..], c)
      case None => None
      case Some(k) => Some(k + 1)
  }

  /** Index of the last `c` in `s` (Python's `s.rfind(c)`, with `None` for -1). */
  function LastIndexOf(s: string, c: char): (r: Option<nat>)
    ensures r.Some? ==> r.value < |s| && s[r.value] == c
    ensures r.Some? ==> forall k :: r.value < k < |s| ==> s[k] != c
    ensures r.None? <==> c !in s
  {
    if |s| == 0 then None
    else if s[|s| - 1] == c then Some(|s| - 1)
    else
      assert c in s[..|s| - 1] <==> c in s by {
        assert s == s[..|s| - 1] + [s[|s| - 1]];
      }
      LastIndexOf(s[..|s| - 1], c)
  }

  /** A slice that lies inside the left operand of `+`. */
  lemma SliceOfLeft<T>(a: seq<T>, b: seq<T>, i: nat, j: nat)
    requires i <= j <= |a|
    ensures (a + b)[i..j] == a[i..j]
  {
    assert forall k :: 0 <= k < j - i ==> (a + b)[i..j][k] == a[i..j][k];
  }

  /** A slice that lies inside the right operand of `+`. */
  lemma SliceOfRight<T>(a: seq<T>, b: seq<T>, i: nat, j: nat)
    requires |a| <= i <= j <= |a| + |b|
    ensures (a + b)[i..j] == b[i - |a|..j - |a|]
  {
    assert forall k :: 0 <= k < j - i ==> (a + b)[i..j][k] == b[i - |a|..j - |a|][k];
  }

  /** A slice that lies inside the middle operand of `a + b + c`. */
  lemma SliceOfMiddle<T>(a: seq<T>, b: seq<T>, c: seq<T>, i: nat, j: nat)
    requires i <= j <= |b|
    ensures (a + b + c)[|a| + i..|a| + j] == b[i..j]
  {
    SliceOfLeft(a + b, c, |a| + i, |a| + j);
    SliceOfRight(a, b, |a| + i, |a| + j);
  }

  /** `needle in hay` for Python strings: `needle` is a substring of `hay`. */
  ghost predicate OccursIn(needle: string, hay: string) {
    exists k :: 0 <= k <= |hay| && needle <= hay[k..]
  }

  lemma OccursInItself(s: string)
    ensures OccursIn(s, s)
  {
    assert s <= s[0..];
  }

  lemma OccursInLeft(needle: string, a: string, b: string)
    requires OccursIn(needle, a)
    ensures OccursIn(needle, a + b)
  {
    var k :| 0 <= k <= |a| && needle <= a[k..];
    assert (a + b)[k..] == a[k..] + b;
  }

  lemma OccursInRight(needle: string, a: string, b: string)
    requires OccursIn(needle, b)
    ensures OccursIn(needle, a + b)
  {
    var k :| 0 <= k <= |b| && needle <= b[k..];
    assert (a + b)[|a| + k..] == b[k..];
  }
}
