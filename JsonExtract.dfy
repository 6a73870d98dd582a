/** `extractJsonObject`: pull the first brace-balanced `{...}` span out of raw
    model output, skipping any text before it (such as a `<think>` block) and
    after it. The scan counts every `{` and `}` it meets, including those
    inside quoted JSON strings. */
module JsonExtract {
  import opened Wrappers

  /** Number of occurrences of `c` in `s`. */
  function Count(s: string, c: char): nat {
    if s == [] then 0 else Count(s[..|s| - 1], c) + (if s[|s| - 1] == c then 1 else 0)
  }

  /** Brace depth after reading `s`: opening braces minus closing braces. */
  function Depth(s: string): int {
    Count(s, '{') - Count(s, '}')
  }

  /** Index of the first occurrence of `c` in `s` (`s.indexOf(c)`), or None. */
  function IndexOf(s: string, c: char): (r: Option<nat>)
    ensures r.None? ==> c !in s
    ensures r.Some? ==> r.value < |s| && s[r.value] == c && c !in s[..r.value]
  {
    if s == [] then None
    else if s[0] == c then Some(0)
    else match IndexOf(s[1..], c)
      case None => None
      case Some(i) => Some(i + 1)
  }

  /** The first occurrence is the one with no earlier occurrence. */
  lemma {:induction false} IndexOfAt(s: string, c: char, i: nat)
    requires i < |s| && s[i] == c && c !in s[..i]
    ensures IndexOf(s, c) == Some(i)
    decreases i
  {
    if i > 0 {
      assert s[0] == s[..i][0];
      assert s[1..][..i - 1] == s[..i][1..];
      IndexOfAt(s[1..], c, i - 1);
    }
  }

  /** `text[start..end]` is the shortest balanced span starting at `start`:
      balanced as a whole, while every proper non-empty prefix has more
      opening than closing braces. */
  ghost predicate ShortestBalanced(text: string, start: nat, end: nat) {
    && start < end <= |text|
    && Depth(text[start..end]) == 0
    && forall k :: start < k < end ==> Depth(text[start..k]) > 0
  }

  /** What `extractJsonObject(text)` returns: null when there is no `{`;
      otherwise the shortest balanced span from the first `{`, or null when
      the depth never returns to zero before the text ends. */
  ghost predicate IsExtraction(text: string, r: Option<string>) {
    match IndexOf(text, '{')
    case None => r == None
    case Some(start) =>
      match r
      case None => forall k :: start < k <= |text| ==> Depth(text[start..k]) > 0
      case Some(obj) => exists end: nat :: ShortestBalanced(text, start, end) && obj == text[start..end]
  }

  /** Depth of a one-character extension. */
  lemma DepthSnoc(text: string, start: nat, i: nat)
    requires start <= i < |text|
    ensures Depth(text[start..i + 1]) == Depth(text[start..i])
      + (if text[i] == '{' then 1 else if text[i] == '}' then -1 else 0)
  {
    assert text[start..i + 1][..i - start] == text[start..i];
  }

  method ExtractJsonObject(text: string) returns (r: Option<string>)
    ensures IsExtraction(text, r)
  {
    var found := IndexOf(text, '{');
    if found.None? {
      return None;
    }
    var start := found.value;
    var depth := 0;
    var i := start;
    assert text[start..i] == [];
    while i < |text|
      invariant start <= i <= |text|
      invariant depth == Depth(text[start..i])
      invariant i == start || depth > 0
      invariant forall k :: start < k <= i ==> Depth(text[start..k]) > 0
    {
      DepthSnoc(text, start, i);
      var c := text[i];
      if c == '{' {
        depth := depth + 1;
      } else if c == '}' {
        depth := depth - 1;
        if depth == 0 {
          assert ShortestBalanced(text, start, i + 1);
          return Some(text[start..i + 1]);
        }
      }
      i := i + 1;
    }
    return None;
  }

  /** A returned object starts with `{`, ends with `}` and contains as many
      opening as closing braces. */
  lemma ObjectShape(text: string, start: nat, end: nat)
    requires IndexOf(text, '{') == Some(start)
    requires ShortestBalanced(text, start, end)
    ensures var obj := text[start..end];
      obj[0] == '{' && obj[|obj| - 1] == '}' && Count(obj, '{') == Count(obj, '}')
  {
    DepthSnoc(text, start, end - 1);
  }

  /** At most one span qualifies, so the extraction is determined by the
      text alone. */
  lemma {:induction false} ShortestBalancedUnique(text: string, start: nat, e1: nat, e2: nat)
    requires ShortestBalanced(text, start, e1) && ShortestBalanced(text, start, e2)
    ensures e1 == e2
  {
  }

  lemma ExtractionIsUnique(text: string, r1: Option<string>, r2: Option<string>)
    requires IsExtraction(text, r1) && IsExtraction(text, r2)
    ensures r1 == r2
  {
    match IndexOf(text, '{')
    case None =>
    case Some(start) =>
      if r1.Some? && r2.Some? {
        var e1: nat :| ShortestBalanced(text, start, e1) && r1.value == text[start..e1];
        var e2: nat :| ShortestBalanced(text, start, e2) && r2.value == text[start..e2];
        ShortestBalancedUnique(text, start, e1, e2);
      }
  }

  lemma {:induction false} CountAppend(s: string, t: string, c: char)
    ensures Count(s + t, c) == Count(s, c) + Count(t, c)
    decreases |t|
  {
    if t == [] {
      assert s + t == s;
    } else {
      var u := t[..|t| - 1];
      assert (s + t)[..|s + t| - 1] == s + u;
      CountAppend(s, u, c);
    }
  }

  /** Depth of a concatenation is the sum of the depths. */
  lemma DepthAppend(s: string, t: string)
    ensures Depth(s + t) == Depth(s) + Depth(t)
  {
    CountAppend(s, t, '{');
    CountAppend(s, t, '}');
  }

  /** Text without braces leaves the depth where it is. */
  lemma {:induction false} DepthOfPlain(s: string)
    requires '{' !in s && '}' !in s
    ensures Depth(s) == 0
    decreases |s|
  {
    if s != [] {
      DepthOfPlain(s[..|s| - 1]);
    }
  }

  /** Inside `{` + plain + `}`, every proper prefix has depth one and the
      whole span has depth zero. */
  lemma FlatObject(text: string, start: nat, end: nat)
    requires start + 2 <= end <= |text|
    requires text[start] == '{' && text[end - 1] == '}'
    requires forall k :: start < k < end - 1 ==> text[k] != '{' && text[k] != '}'
    ensures ShortestBalanced(text, start, end)
  {
    forall k | start < k <= end
      ensures Depth(text[start..k]) == if k == end then 0 else 1
    {
      var plain := text[start + 1..if k == end then end - 1 else k];
      DepthOfPlain(plain);
      DepthAppend(['{'], plain);
      if k == end {
        assert text[start..k] == ['{'] + plain + ['}'];
        DepthAppend(['{'] + plain, ['}']);
      } else {
        assert text[start..k] == ['{'] + plain;
      }
    }
  }

  /** A flat object found after `start` is the extraction of the text. */
  lemma FlatExtraction(text: string, start: nat, end: nat)
    requires IndexOf(text, '{') == Some(start)
    requires start + 2 <= end <= |text| && text[end - 1] == '}'
    requires forall k :: start < k < end - 1 ==> text[k] != '{' && text[k] != '}'
    ensures IsExtraction(text, Some(text[start..end]))
  {
    FlatObject(text, start, end);
  }

  /** Depth of `{` followed by brace-free text. */
  lemma DepthOpenPlain(a: string)
    requires '{' !in a && '}' !in a
    ensures Depth(['{'] + a) == 1
  {
    DepthOfPlain(a);
    DepthAppend(['{'], a);
  }

  /** Depth of `{` plain `{` plain. */
  lemma DepthTwoOpen(outer: string, b: string)
    requires '{' !in outer && '}' !in outer && '{' !in b && '}' !in b
    ensures Depth(['{'] + outer + ['{'] + b) == 2
  {
    DepthOpenPlain(outer);
    DepthOpenPlain(b);
    assert ['{'] + outer + ['{'] + b == (['{'] + outer) + (['{'] + b);
    DepthAppend(['{'] + outer, ['{'] + b);
  }

  /** `{` plain `{` plain `}}`: one object nested directly inside another. */
  lemma NestedObject(text: string, start: nat, inner: nat, close: nat)
    requires start < inner < close && close + 2 <= |text|
    requires text[start] == '{' && text[inner] == '{' && text[close] == '}' && text[close + 1] == '}'
    requires '{' !in text[start + 1..inner] && '}' !in text[start + 1..inner]
    requires '{' !in text[inner + 1..close] && '}' !in text[inner + 1..close]
    ensures ShortestBalanced(text, start, close + 2)
  {
    var outer := text[start + 1..inner];
    var nested := text[inner + 1..close];
    forall k | start < k <= close + 2
      ensures Depth(text[start..k]) == if k <= inner then 1 else if k <= close then 2 else if k == close + 1 then 1 else 0
    {
      if k <= inner {
        var a := text[start + 1..k];
        assert a == outer[..k - start - 1];
        assert text[start..k] == ['{'] + a;
        DepthOpenPlain(a);
      } else if k <= close {
        var b := text[inner + 1..k];
        assert b == nested[..k - inner - 1];
        assert text[start..k] == ['{'] + outer + ['{'] + b;
        DepthTwoOpen(outer, b);
      } else {
        var head := ['{'] + outer + ['{'] + nested;
        DepthTwoOpen(outer, nested);
        DepthAppend(head, ['}']);
        if k == close + 1 {
          assert text[start..k] == head + ['}'];
        } else {
          assert text[start..k] == head + ['}'] + ['}'];
          DepthAppend(head + ['}'], ['}']);
        }
      }
    }
  }

  /** Nested objects are returned whole and the text around them is
      dropped: in `pre {outer {nested}} post`, with no brace in `pre`,
      `outer` or `nested`, the extraction is `{outer {nested}}` (the shape of
      `prefix {"a":1, "b": {"c":2}} suffix`). */
  lemma NestedExtraction(pre: string, outer: string, nested: string, post: string)
    requires '{' !in pre
    requires '{' !in outer && '}' !in outer && '{' !in nested && '}' !in nested
    ensures IsExtraction(pre + "{" + outer + "{" + nested + "}}" + post, Some("{" + outer + "{" + nested + "}}"))
  {
    var obj := "{" + outer + "{" + nested + "}}";
    var text := pre + obj + post;
    assert text == pre + "{" + outer + "{" + nested + "}}" + post;
    var start, inner, close := |pre|, |pre| + 1 + |outer|, |pre| + 2 + |outer| + |nested|;
    assert text[..start] == pre;
    IndexOfAt(text, '{', start);
    assert text[start + 1..inner] == outer;
    assert text[inner + 1..close] == nested;
    NestedObject(text, start, inner, close);
    assert text[start..close + 2] == obj;
  }

  /** A flat object is returned whole and the text around it is dropped: in
      `pre {body} post`, with no brace in `body` and no `{` in `pre`, the
      extraction is `{body}` (so `<think> {"stance":5}` yields
      `{"stance":5}`). */
  lemma FlatObjectExtraction(pre: string, body: string, post: string)
    requires '{' !in pre && '{' !in body && '}' !in body
    ensures IsExtraction(pre + "{" + body + "}" + post, Some("{" + body + "}"))
  {
    var obj := "{" + body + "}";
    var text := pre + obj + post;
    assert text == pre + "{" + body + "}" + post;
    var start, end := |pre|, |pre| + |obj|;
    assert text[..start] == pre;
    IndexOfAt(text, '{', start);
    forall k | start < k < end - 1 ensures text[k] != '{' && text[k] != '}' {
      assert text[k] == body[k - start - 1];
    }
    FlatExtraction(text, start, end);
    assert text[start..end] == obj;
  }

  /** There is no string awareness: the `}` inside the quoted value of
      `{"k":"}"}` closes the object early, giving `{"k":"}`. */
  lemma QuotedBraceExample()
    ensures IsExtraction("{\"k\":\"}\"}", Some("{\"k\":\"}"))
  {
    FlatObjectExtraction("", "\"k\":\"", "\"}");
    assert "" + "{" + "\"k\":\"" + "}" + "\"}" == "{\"k\":\"}\"}";
  }

  /** Text without any `{` yields null. */
  lemma NoBraceExample(text: string)
    requires text == "no json here"
    ensures IsExtraction(text, None)
  {
    assert '{' !in text;
  }
}
