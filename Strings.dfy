/** The JavaScript string operations the core relies on: truthiness of an
    optional string, `Array.prototype.join`, template concatenation, decimal
    rendering of integers in template literals and `String.prototype.trim`. */
module Strings {
  import opened Wrappers

  /** A JavaScript string value used as a condition: present and non-empty. */
  predicate Truthy(s: Option<string>) {
    s.Some? && s.value != ""
  }

  /** `s || fallback` for a string that may be null or undefined. */
  function OrElse(s: Option<string>, fallback: string): (r: string)
    ensures Truthy(s) ==> r == s.value
    ensures !Truthy(s) ==> r == fallback
    ensures fallback != "" ==> r != ""
  {
    if Truthy(s) then s.value else fallback
  }

  /** True when `needle` occurs in `hay` starting at index `i`. */
  predicate OccursAt(needle: string, hay: string, i: int) {
    0 <= i && i + |needle| <= |hay| && hay[i..i + |needle|] == needle
  }

  /** True when `p` is a prefix of `s`. */
  predicate StartsWith(s: string, p: string) {
    |p| <= |s| && s[..|p|] == p
  }

  /** True when `p` is a suffix of `s`. */
  predicate EndsWith(s: string, p: string) {
    |p| <= |s| && s[|s| - |p|..] == p
  }

  /** A text starts with whatever it was built on. */
  lemma StartsWithAppended(a: string, b: string)
    ensures StartsWith(a + b, a)
  {
    assert (a + b)[..|a|] == a;
  }

  /** What is appended ends the text. */
  lemma EndsWithAppended(a: string, b: string)
    ensures EndsWith(a + b, b)
  {
    assert (a + b)[|a|..] == b;
  }

  /** What stands between two texts occurs right after the first. */
  lemma OccursBetween(a: string, m: string, b: string)
    ensures OccursAt(m, a + m + b, |a|)
  {
    assert (a + m + b)[|a|..|a| + |m|] == m;
  }

  // ---------------------------------------------------------------------
  // Array.prototype.join and template concatenation

  /** `parts.join(sep)`: the parts in order with `sep` between neighbours. */
  function Join(parts: seq<string>, sep: string): string {
    if |parts| == 0 then ""
    else if |parts| == 1 then parts[0]
    else parts[0] + sep + Join(parts[1..], sep)
  }

  /** Where part `k` starts in `Join(parts, sep)`: every earlier part and the
      separator after it come first. */
  function Offset(parts: seq<string>, sep: string, k: nat): nat
    requires k <= |parts|
  {
    if k == 0 then 0 else |parts[0]| + |sep| + Offset(parts[1..], sep, k - 1)
  }

  /** Each part after the first starts right after the previous part and
      one separator. */
  lemma {:induction false} OffsetNext(parts: seq<string>, sep: string, k: nat)
    requires k < |parts|
    ensures Offset(parts, sep, k + 1) == Offset(parts, sep, k) + |parts[k]| + |sep|
  {
    if k > 0 {
      OffsetNext(parts[1..], sep, k - 1);
    }
  }

  /** An occurrence in `b` is an occurrence in `a + b`, shifted by `|a|`. */
  lemma OccursAfter(needle: string, a: string, b: string, i: int)
    requires OccursAt(needle, b, i)
    ensures OccursAt(needle, a + b, |a| + i)
  {
    assert (a + b)[|a| + i..|a| + i + |needle|] == b[i..i + |needle|];
  }

  /** An occurrence in `a` is an occurrence in `a + b`. */
  lemma OccursBefore(needle: string, a: string, b: string, i: int)
    requires OccursAt(needle, a, i)
    ensures OccursAt(needle, a + b, i)
  {
    assert (a + b)[i..i + |needle|] == a[i..i + |needle|];
  }

  /** Unfolding `Join` once: the first part, the separator, then the rest. */
  lemma JoinCons(parts: seq<string>, sep: string)
    requires |parts| > 1
    ensures Join(parts, sep) == (parts[0] + sep) + Join(parts[1..], sep)
  {
  }

  /** Every part appears whole at its offset, in input order. */
  lemma {:induction false} JoinPart(parts: seq<string>, sep: string, k: nat)
    requires k < |parts|
    ensures OccursAt(parts[k], Join(parts, sep), Offset(parts, sep, k))
  {
    if |parts| > 1 {
      JoinCons(parts, sep);
      if k == 0 {
        assert OccursAt(parts[0], parts[0] + sep, 0);
        OccursBefore(parts[0], parts[0] + sep, Join(parts[1..], sep), 0);
      } else {
        JoinPart(parts[1..], sep, k - 1);
        OccursAfter(parts[k], parts[0] + sep, Join(parts[1..], sep), Offset(parts[1..], sep, k - 1));
      }
    }
  }

  /** A separator follows every part except the last. */
  lemma {:induction false} JoinSeparator(parts: seq<string>, sep: string, k: nat)
    requires k + 1 < |parts|
    ensures OccursAt(sep, Join(parts, sep), Offset(parts, sep, k) + |parts[k]|)
  {
    JoinCons(parts, sep);
    if k == 0 {
      assert OccursAt(sep, parts[0] + sep, |parts[0]|);
      OccursBefore(sep, parts[0] + sep, Join(parts[1..], sep), |parts[0]|);
    } else {
      JoinSeparator(parts[1..], sep, k - 1);
      OccursAfter(sep, parts[0] + sep, Join(parts[1..], sep), Offset(parts[1..], sep, k - 1) + |parts[k]|);
    }
  }

  /** Part `k` appears whole at its offset; a separator follows it unless it
      is the last, and the next part starts right after that separator. */
  lemma JoinLayout(parts: seq<string>, sep: string, k: nat)
    requires k < |parts|
    ensures OccursAt(parts[k], Join(parts, sep), Offset(parts, sep, k))
    ensures k + 1 < |parts| ==>
      && OccursAt(sep, Join(parts, sep), Offset(parts, sep, k) + |parts[k]|)
      && Offset(parts, sep, k + 1) == Offset(parts, sep, k) + |parts[k]| + |sep|
  {
    JoinPart(parts, sep, k);
    if k + 1 < |parts| {
      JoinSeparator(parts, sep, k);
      OffsetNext(parts, sep, k);
    }
  }

  /** The same layout after a fixed header. */
  lemma PrefixedJoinLayout(header: string, parts: seq<string>, sep: string, k: nat)
    requires k < |parts|
    ensures StartsWith(header + Join(parts, sep), header)
    ensures OccursAt(parts[k], header + Join(parts, sep), |header| + Offset(parts, sep, k))
    ensures k + 1 < |parts| ==> OccursAt(sep, header + Join(parts, sep), |header| + Offset(parts, sep, k) + |parts[k]|)
  {
    var body := Join(parts, sep);
    JoinLayout(parts, sep, k);
    OccursAfter(parts[k], header, body, Offset(parts, sep, k));
    if k + 1 < |parts| {
      OccursAfter(sep, header, body, Offset(parts, sep, k) + |parts[k]|);
    }
    StartsWithAppended(header, body);
  }


  /** When every part is non-empty, the joined text is empty exactly when
      there are no parts. */
  lemma {:induction false} JoinEmptyIff(parts: seq<string>, sep: string)
    requires forall k :: 0 <= k < |parts| ==> parts[k] != ""
    ensures Join(parts, sep) == "" <==> parts == []
  {
    if |parts| > 0 {
      JoinPart(parts, sep, 0);
    }
  }

  /** Template concatenation of consecutive segments. */
  function Concat(segments: seq<string>): string {
    if segments == [] then "" else segments[0] + Concat(segments[1..])
  }

  /** Concatenating two runs of segments concatenates their texts. */
  lemma {:induction false} ConcatAppend(a: seq<string>, b: seq<string>)
    ensures Concat(a + b) == Concat(a) + Concat(b)
  {
    if a == [] {
      assert a + b == b;
    } else {
      assert (a + b)[1..] == a[1..] + b;
      ConcatAppend(a[1..], b);
      calc {
        Concat(a + b);
        a[0] + Concat(a[1..] + b);
        a[0] + (Concat(a[1..]) + Concat(b));
        (a[0] + Concat(a[1..])) + Concat(b);
      }
    }
  }

  /** A run of `n` consecutive segments appears whole right after the
      segments before it. */
  lemma ConcatRun(segments: seq<string>, k: nat, n: nat)
    requires k + n <= |segments|
    ensures OccursAt(Concat(segments[k..k + n]), Concat(segments), |Concat(segments[..k])|)
  {
    var before, run, after := segments[..k], segments[k..k + n], segments[k + n..];
    assert segments == before + (run + after);
    ConcatAppend(before, run + after);
    ConcatAppend(run, after);
    OccursBefore(Concat(run), Concat(run), Concat(after), 0);
    OccursAfter(Concat(run), Concat(before), Concat(run) + Concat(after), 0);
  }

  /** Two segments concatenate to their plain sum. */
  lemma ConcatTwo(a: string, b: string)
    ensures Concat([a, b]) == a + b
  {
    assert [a, b][1..] == [b];
    assert [b][1..] == [];
    assert Concat([b]) == b + "" == b;
  }

  /** Three consecutive segments concatenate to their plain sum. */
  lemma ConcatThree(a: string, b: string, c: string)
    ensures Concat([a, b, c]) == a + b + c
  {
    assert [a, b, c][1..] == [b, c];
    ConcatTwo(b, c);
    assert a + (b + c) == a + b + c;
  }

  /** Three consecutive segments appear, joined, right after the segments
      before them. */
  lemma ConcatThreeAt(segments: seq<string>, k: nat)
    requires k + 3 <= |segments|
    ensures OccursAt(segments[k] + segments[k + 1] + segments[k + 2], Concat(segments), |Concat(segments[..k])|)
  {
    ConcatRun(segments, k, 3);
    assert segments[k..k + 3] == [segments[k], segments[k + 1], segments[k + 2]];
    ConcatThree(segments[k], segments[k + 1], segments[k + 2]);
  }

  /** The last segments end the text. */
  lemma ConcatEndsWith(segments: seq<string>, k: nat)
    requires k <= |segments|
    ensures EndsWith(Concat(segments), Concat(segments[k..]))
  {
    assert segments == segments[..k] + segments[k..];
    ConcatAppend(segments[..k], segments[k..]);
  }

  // ---------------------------------------------------------------------
  // Decimal rendering of integers, as `${n}` does for an integral number

  predicate IsDigits(s: string) {
    forall k :: 0 <= k < |s| ==> '0' <= s[k] <= '9'
  }

  function DigitChar(d: nat): (c: char)
    requires d < 10
    ensures '0' <= c <= '9'
  {
    (('0' as int) + d) as char
  }

  /** Decimal digits of `n`, most significant first, with no leading zero. */
  function NatToString(n: nat): (r: string)
    ensures r != [] && IsDigits(r)
    ensures r[0] == '0' ==> n == 0
    decreases n
  {
    if n < 10 then [DigitChar(n)] else NatToString(n / 10) + [DigitChar(n % 10)]
  }

  /** Decimal rendering of an integer: a minus sign before a negative one. */
  function IntToString(i: int): (r: string)
    ensures r != []
    ensures i < 0 <==> r[0] == '-'
    ensures i >= 0 ==> IsDigits(r) && DigitsValue(r) == i
    ensures i < 0 ==> r[1..] == NatToString(-i) && DigitsValue(r[1..]) == -i
  {
    var r := if i < 0 then "-" + NatToString(-i) else NatToString(i);
    NatToStringRoundTrip(if i < 0 then -i else i);
    assert i < 0 ==> r[1..] == NatToString(-i);
    r
  }

  /** The number a string of decimal digits denotes. */
  function DigitsValue(s: string): nat
    requires IsDigits(s)
  {
    if s == [] then 0 else 10 * DigitsValue(s[..|s| - 1]) + (s[|s| - 1] as int - '0' as int)
  }

  /** Reading the digits back gives the number: distinct numbers are never
      rendered alike. */
  lemma {:induction false} NatToStringRoundTrip(n: nat)
    ensures DigitsValue(NatToString(n)) == n
    decreases n
  {
    if n >= 10 {
      var r := NatToString(n);
      NatToStringRoundTrip(n / 10);
      assert r[..|r| - 1] == NatToString(n / 10);
    }
  }

  lemma NatToStringInjective(m: nat, n: nat)
    requires NatToString(m) == NatToString(n)
    ensures m == n
  {
    NatToStringRoundTrip(m);
    NatToStringRoundTrip(n);
  }

  // ---------------------------------------------------------------------
  // parseInt(s, 10)

  predicate IsDigit(c: char) {
    '0' <= c <= '9'
  }

  /** The longest prefix of `s` made of decimal digits. */
  function DigitPrefix(s: string): (r: string)
    ensures |r| <= |s| && r == s[..|r|] && IsDigits(r)
    ensures |r| < |s| ==> !IsDigit(s[|r|])
  {
    if s != [] && IsDigit(s[0]) then [s[0]] + DigitPrefix(s[1..]) else []
  }

  /** The value of the digits at the start of `t`, or None without any. */
  function LeadingNumber(t: string): Option<nat> {
    var digits := DigitPrefix(t);
    if digits == [] then None else Some(DigitsValue(digits))
  }

  /** An optional sign, then the digits after it. */
  function SignedNumber(t: string): Option<int> {
    if t != [] && t[0] == '-' then
      match LeadingNumber(t[1..])
      case None => None
      case Some(v) => Some(-(v as int))
    else if t != [] && t[0] == '+' then
      match LeadingNumber(t[1..])
      case None => None
      case Some(v) => Some(v as int)
    else
      match LeadingNumber(t)
      case None => None
      case Some(v) => Some(v as int)
  }

  /** `parseInt(s, 10)`: leading white space is skipped, one optional sign is
      read, then the longest run of decimal digits; anything after it is
      ignored. No digits gives NaN, here `None`. */
  function ParseInt(s: string): Option<int> {
    SignedNumber(TrimStart(s))
  }

  /** The digit prefix of digits followed by a non-digit is those digits. */
  lemma {:induction false} DigitPrefixOf(d: string, rest: string)
    requires IsDigits(d)
    requires rest == [] || !IsDigit(rest[0])
    ensures DigitPrefix(d + rest) == d
  {
    if d != [] {
      assert (d + rest)[1..] == d[1..] + rest;
      DigitPrefixOf(d[1..], rest);
    } else {
      assert d + rest == rest;
    }
  }

  /** Text that starts with a digit parses to the value of its digit
      prefix. */
  lemma ParseIntUnsigned(s: string)
    requires s != [] && IsDigit(s[0])
    ensures ParseInt(s) == Some(DigitsValue(DigitPrefix(s)) as int)
  {
    assert !IsTrimmable(s[0]);
    assert TrimStart(s) == s;
  }

  /** `parseInt` reads back what `${n}` renders for a natural number,
      whatever non-digit text follows it (so `"12abc"` and `"12.5"` both read
      as 12). */
  lemma ParseIntOfRendered(n: nat, rest: string)
    requires rest == [] || !IsDigit(rest[0])
    ensures ParseInt(NatToString(n) + rest) == Some(n)
  {
    var d := NatToString(n);
    NatToStringRoundTrip(n);
    DigitPrefixOf(d, rest);
    ParseIntUnsigned(d + rest);
  }

  /** Text with no digit at all parses to NaN. */
  lemma ParseIntWithoutDigits(s: string)
    requires forall k :: 0 <= k < |s| ==> !IsDigit(s[k])
    ensures ParseInt(s) == None
  {
    TrimStartSpec(s);
  }

  // ---------------------------------------------------------------------
  // String.prototype.trim

  /** The characters `trim` removes: ECMAScript WhiteSpace (tab, vertical
      tab, form feed, the byte order mark and every space separator) and
      LineTerminator. */
  predicate IsTrimmable(c: char) {
    || c == '\t' || c == '\U{B}' || c == '\U{C}' || c == '\U{FEFF}'
    || c == ' ' || c == '\U{A0}' || c == '\U{1680}' || ('\U{2000}' <= c <= '\U{200A}')
    || c == '\U{202F}' || c == '\U{205F}' || c == '\U{3000}'
    || c == '\n' || c == '\r' || c == '\U{2028}' || c == '\U{2029}'
  }

  predicate AllTrimmable(s: string) {
    forall k :: 0 <= k < |s| ==> IsTrimmable(s[k])
  }

  /** `s` without its leading trimmable characters. */
  function TrimStart(s: string): string {
    if s != [] && IsTrimmable(s[0]) then TrimStart(s[1..]) else s
  }

  /** `s` without its trailing trimmable characters. */
  function TrimEnd(s: string): string {
    if s != [] && IsTrimmable(s[|s| - 1]) then TrimEnd(s[..|s| - 1]) else s
  }

  /** `s.trim()`. */
  function Trim(s: string): string {
    TrimEnd(TrimStart(s))
  }

  /** A trimmable character followed by `n - 1` trimmable ones. */
  lemma TrimmableCons(s: string, n: nat)
    requires 0 < n <= |s| && IsTrimmable(s[0]) && AllTrimmable(s[1..][..n - 1])
    ensures AllTrimmable(s[..n])
  {
    forall k | 0 < k < n ensures IsTrimmable(s[k]) {
      assert s[k] == s[1..][..n - 1][k - 1];
    }
  }

  /** Trimmable characters ending in a trimmable last one. */
  lemma TrimmableSnoc(s: string, n: nat)
    requires n < |s| && IsTrimmable(s[|s| - 1]) && AllTrimmable(s[..|s| - 1][n..])
    ensures AllTrimmable(s[n..])
  {
    forall k | n <= k < |s| - 1 ensures IsTrimmable(s[k]) {
      assert s[k] == s[..|s| - 1][n..][k - n];
    }
  }

  /** `TrimStart` drops a trimmable prefix and stops at the first other
      character. */
  lemma {:induction false} TrimStartSpec(s: string)
    ensures var r := TrimStart(s);
      |r| <= |s| && r == s[|s| - |r|..] && AllTrimmable(s[..|s| - |r|])
      && (r != [] ==> !IsTrimmable(r[0]))
  {
    if s != [] && IsTrimmable(s[0]) {
      var r := TrimStart(s[1..]);
      TrimStartSpec(s[1..]);
      assert s[1..][|s| - 1 - |r|..] == s[|s| - |r|..];
      TrimmableCons(s, |s| - |r|);
    }
  }

  /** `TrimEnd` drops a trimmable suffix and stops at the last other
      character. */
  lemma {:induction false} TrimEndSpec(s: string)
    ensures var r := TrimEnd(s);
      |r| <= |s| && r == s[..|r|] && AllTrimmable(s[|r|..])
      && (r != [] ==> !IsTrimmable(r[|r| - 1]))
  {
    if s != [] && IsTrimmable(s[|s| - 1]) {
      var r := TrimEnd(s[..|s| - 1]);
      TrimEndSpec(s[..|s| - 1]);
      assert s[..|s| - 1][..|r|] == s[..|r|];
      TrimmableSnoc(s, |r|);
    }
  }

  /** `s.trim()` is a contiguous slice of `s` that neither starts nor ends
      with a trimmable character, and everything cut away is trimmable. */
  lemma TrimSpec(s: string)
    ensures exists i: nat, j: nat ::
      i <= j <= |s| && Trim(s) == s[i..j] && AllTrimmable(s[..i]) && AllTrimmable(s[j..])
    ensures Trim(s) != [] ==> !IsTrimmable(Trim(s)[0]) && !IsTrimmable(Trim(s)[|Trim(s)| - 1])
  {
    var t := TrimStart(s);
    TrimStartSpec(s);
    TrimEndSpec(t);
    var i, j := |s| - |t|, |s| - |t| + |Trim(s)|;
    assert Trim(s) == s[i..j];
    assert s[j..] == t[|Trim(s)|..];
  }

  /** Nothing is left of a string that has only trimmable characters. */
  lemma {:induction false} TrimStartOfBlank(s: string)
    requires AllTrimmable(s)
    ensures TrimStart(s) == []
  {
    if s != [] {
      assert AllTrimmable(s[1..]) by {
        forall k | 0 <= k < |s| - 1 ensures IsTrimmable(s[1..][k]) {
          assert s[1..][k] == s[k + 1];
        }
      }
      TrimStartOfBlank(s[1..]);
    }
  }

  /** `s.trim()` is empty exactly when `s` consists of trimmable characters. */
  lemma TrimEmptyIff(s: string)
    ensures Trim(s) == "" <==> AllTrimmable(s)
  {
    var t := TrimStart(s);
    TrimStartSpec(s);
    TrimEndSpec(t);
    if Trim(s) == "" {
      assert t[0..] == t;
      assert s[..|s| - |t|] == s;
    } else if AllTrimmable(s) {
      TrimStartOfBlank(s);
    }
  }
}
