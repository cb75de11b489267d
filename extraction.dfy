/**
 * The JSON-span search of the recommendations handler: Python's
 * `re.search(r"\{[\s\S]*\}", text)` and `match.group(0)`.
 *
 * The pattern matches any run of text that starts with `{`, ends with `}`
 * and is at least two characters long. `re.search` takes the leftmost
 * start at which a match exists and, because `[\s\S]*` is greedy, the
 * longest match from that start.
 */
module Extraction {
  import opened Wrappers
  import opened Text

  /** `text[i..j]` is matched by the pattern `\{[\s\S]*\}`. */
  ghost predicate Matches(text: string, i: nat, j: nat) {
    i + 2 <= j <= |text| && text[i] == '{' && text[j - 1] == '}'
  }

  /** `text[i..j]` is the match `re.search` reports: leftmost, then longest. */
  ghost predicate LeftmostLongest(text: string, i: nat, j: nat) {
    && Matches(text, i, j)
    && (forall i': nat, j': nat :: Matches(text, i', j') ==> i <= i')
    && (forall j': nat :: Matches(text, i, j') ==> j' <= j)
  }

  /**
   * The bounds `(start, end)` of the regex match (`match.span()`), found as
   * the first `{` and the last `}` after it; `None` when there is no match.
   */
  function Search(text: string): (r: Option<(nat, nat)>)
    ensures r.Some? ==> LeftmostLongest(text, r.value.0, r.value.1)
    ensures r.None? <==> forall i: nat, j: nat :: !Matches(text, i, j)
  {
    match IndexOf(text, '{')
    case None => None
    case Some(i) =>
      match LastIndexOf(text, '}')
      case None => None
      case Some(j) =>
        if i < j then
          assert Matches(text, i, j + 1);
          Some((i, j + 1))
        else
          None
  }

  /** `match.group(0)`: the matched text, if any. */
  function ExtractSpan(text: string): (r: Option<string>)
    ensures r.Some? ==> 2 <= |r.value| && r.value[0] == '{' && r.value[|r.value| - 1] == '}'
    ensures r.None? <==> forall i: nat, j: nat :: !Matches(text, i, j)
  {
    match Search(text)
    case None => None
    case Some((i, j)) => Some(text[i..j])
  }

  /** Two matches that are both leftmost-longest are the same match. */
  lemma LeftmostLongestUnique(text: string, i: nat, j: nat, i': nat, j': nat)
    requires LeftmostLongest(text, i, j) && LeftmostLongest(text, i', j')
    ensures i == i' && j == j'
  {
  }

  /**
   * The span is a contiguous piece of the text; what comes before it holds
   * no `{` and what comes after it holds no `}`, so only text outside the
   * outermost braces is discarded.
   */
  lemma {:induction false} SpanDiscardsOnlyOutside(text: string)
    requires Search(text).Some?
    ensures var (i, j) := Search(text).value;
      && ExtractSpan(text) == Some(text[i..j])
      && text == text[..i] + text[i..j] + text[j..]
      && '{' !in text[..i]
      && '}' !in text[j..]
  {
    var (i, j) := Search(text).value;
    assert text == text[..i] + text[i..j] + text[j..];
    forall k | 0 <= k < i
      ensures text[..i][k] != '{'
    {
      assert Matches(text, k, j) ==> i <= k;
    }
    forall k | 0 <= k < |text| - j
      ensures text[j..][k] != '}'
    {
      assert Matches(text, i, j + k + 1) ==> j + k + 1 <= j;
    }
  }

  /**
   * A reply made of prose without `{`, then a brace-delimited object, then
   * prose without `}` yields exactly that object.
   */
  lemma {:induction false} SpanOfWrappedObject(pre: string, obj: string, post: string)
    requires '{' !in pre && '}' !in post
    requires 2 <= |obj| && obj[0] == '{' && obj[|obj| - 1] == '}'
    ensures ExtractSpan(pre + obj + post) == Some(obj)
  {
    var text := pre + obj + post;
    var a, b := |pre|, |pre| + |obj|;
    assert text[a] == obj[0] && text[b - 1] == obj[|obj| - 1];
    assert Matches(text, a, b);
    var (i, j) := Search(text).value;
    assert text[a..b] == obj;
  }

  /** Where a match can lie once brace-free text surrounds `body`: only inside `body`. */
  lemma MatchInPadded(pre: string, body: string, post: string, i: nat, j: nat)
    requires '{' !in pre && '}' !in pre && '{' !in post && '}' !in post
    ensures Matches(pre + body + post, i, j) <==>
      |pre| <= i <= j <= |pre| + |body| && Matches(body, i - |pre|, j - |pre|)
  {
    var text, n := pre + body + post, |pre|;
    if Matches(text, i, j) {
      assert text[i] == body[i - n] && text[j - 1] == body[j - 1 - n];
    }
    if n <= i <= j <= n + |body| && Matches(body, i - n, j - n) {
      assert text[i] == body[i - n] && text[j - 1] == body[j - 1 - n];
    }
  }

  /** The leftmost-longest match is the one `Search` reports. */
  lemma SearchFindsLeftmostLongest(text: string, i: nat, j: nat)
    requires LeftmostLongest(text, i, j)
    ensures Search(text) == Some((i, j)) && ExtractSpan(text) == Some(text[i..j])
  {
    var (i', j') := Search(text).value;
    LeftmostLongestUnique(text, i', j', i, j);
  }

  /**
   * Text without braces around the reply changes neither whether a span is
   * found nor what it is.
   */
  lemma {:induction false} SpanIgnoresBracelessPadding(pre: string, body: string, post: string)
    requires '{' !in pre && '}' !in pre && '{' !in post && '}' !in post
    ensures ExtractSpan(pre + body + post) == ExtractSpan(body)
  {
    if Search(body).None? {
      NoSpanInPadded(pre, body, post);
    } else {
      var (i, j) := Search(body).value;
      ShiftedMatchIsLeftmostLongest(pre, body, post, i, j);
      SearchFindsLeftmostLongest(pre + body + post, |pre| + i, |pre| + j);
      SliceOfMiddle(pre, body, post, i, j);
    }
  }

  lemma NoSpanInPadded(pre: string, body: string, post: string)
    requires '{' !in pre && '}' !in pre && '{' !in post && '}' !in post
    requires Search(body).None?
    ensures ExtractSpan(pre + body + post).None?
  {
    forall x: nat, y: nat
      ensures !Matches(pre + body + post, x, y)
    {
      MatchInPadded(pre, body, post, x, y);
    }
  }

  lemma ShiftedMatchIsLeftmostLongest(pre: string, body: string, post: string, i: nat, j: nat)
    requires '{' !in pre && '}' !in pre && '{' !in post && '}' !in post
    requires LeftmostLongest(body, i, j)
    ensures LeftmostLongest(pre + body + post, |pre| + i, |pre| + j)
  {
    var text, i', j' := pre + body + post, |pre| + i, |pre| + j;
    MatchInPadded(pre, body, post, i', j');
    forall x: nat, y: nat | Matches(text, x, y)
      ensures i' <= x
    {
      MatchInPadded(pre, body, post, x, y);
    }
    forall y: nat | Matches(text, i', y)
      ensures y <= j'
    {
      MatchInPadded(pre, body, post, i', y);
    }
  }

  /** Whitespace holds no braces. */
  lemma SpaceHasNoBraces(s: string)
    requires AllSpace(s)
    ensures '{' !in s && '}' !in s
  {
    assert !IsSpace('{') && !IsSpace('}');
    forall k | 0 <= k < |s|
      ensures s[k] != '{' && s[k] != '}'
    {
      assert IsSpace(s[k]);
    }
  }

  /** Removing whitespace from both ends of a text does not change its span. */
  lemma PaddingKeepsSpan(text: string, r: string, a: nat)
    requires PaddedBySpace(text, r, a)
    ensures ExtractSpan(r) == ExtractSpan(text)
  {
    var pre, post := text[..a], text[a + |r|..];
    assert text == pre + r + post;
    SpaceHasNoBraces(pre);
    SpaceHasNoBraces(post);
    SpanIgnoresBracelessPadding(pre, r, post);
  }

  /** Stripping whitespace off the reply does not change the span it yields. */
  lemma {:induction false} StripKeepsSpan(text: string)
    ensures ExtractSpan(Strip(text)) == ExtractSpan(text)
  {
    var a: nat :| PaddedBySpace(text, Strip(text), a);
    PaddingKeepsSpan(text, Strip(text), a);
  }
}
