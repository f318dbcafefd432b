/** Optional values, used for request fields that may be missing or null. */
module Wrappers {
  datatype Option<+T> = None | Some(value: T)
}

/**
  The string primitives the order controller relies on, with PHP's meaning:
  `trim` (default character list), `strtoupper` (ASCII only), `str_starts_with`,
  integer-to-string conversion, `implode` and `strlen` (which counts UTF-8 bytes).
  Strings are sequences of Unicode characters.
 */
module Text {
  import opened Wrappers

  /** The characters PHP's `trim` strips by default: space, tab, line feed,
      carriage return, NUL and vertical tab. */
  predicate IsTrimmable(c: char) {
    c == ' ' || c == '\t' || c == '\n' || c == '\r' || c == '\0' || c == '\U{000B}'
  }

  /** True iff every character of `s` is one that `trim` strips. */
  predicate IsBlank(s: string) {
    forall i :: 0 <= i < |s| ==> IsTrimmable(s[i])
  }

  /** The first index at or after `i` whose character `trim` keeps, or `|s|`. */
  function SkipLeading(s: string, i: nat): (k: nat)
    requires i <= |s|
    ensures i <= k <= |s|
    ensures forall j :: i <= j < k ==> IsTrimmable(s[j])
    ensures k == |s| || !IsTrimmable(s[k])
    decreases |s| - i
  {
    if i < |s| && IsTrimmable(s[i]) then SkipLeading(s, i + 1) else i
  }

  /** The end of `s[..j]` once its trimmable tail is dropped. */
  function SkipTrailing(s: string, j: nat): (k: nat)
    requires j <= |s|
    ensures k <= j
    ensures forall i :: k <= i < j ==> IsTrimmable(s[i])
    ensures k == 0 || !IsTrimmable(s[k - 1])
  {
    if j > 0 && IsTrimmable(s[j - 1]) then SkipTrailing(s, j - 1) else j
  }

  /** `ltrim`: drops the longest all-trimmable prefix. */
  function TrimLeft(s: string): (r: string)
    ensures |r| <= |s| && r == s[|s| - |r|..]
    ensures r == [] || !IsTrimmable(r[0])
    ensures forall i :: 0 <= i < |s| - |r| ==> IsTrimmable(s[i])
  {
    s[SkipLeading(s, 0)..]
  }

  /** `rtrim`: drops the longest all-trimmable suffix. */
  function TrimRight(s: string): (r: string)
    ensures |r| <= |s| && r == s[..|r|]
    ensures r == [] || !IsTrimmable(r[|r| - 1])
    ensures forall i :: |r| <= i < |s| ==> IsTrimmable(s[i])
  {
    s[..SkipTrailing(s, |s|)]
  }

  /** PHP `trim`: the infix of `s` left after stripping both ends. */
  function Trim(s: string): (r: string)
    ensures |r| <= |s|
    ensures exists a :: 0 <= a && a + |r| <= |s| && r == s[a..a + |r|] && IsBlank(s[..a]) && IsBlank(s[a + |r|..])
    ensures r == [] || (!IsTrimmable(r[0]) && !IsTrimmable(r[|r| - 1]))
    ensures r == [] <==> IsBlank(s)
  {
    var l := TrimLeft(s);
    var r := TrimRight(l);
    TrimSlice(s);
    assert r != [] ==> r[0] == l[0];
    assert r == [] ==> forall i :: 0 <= i < |s| ==> IsTrimmable(s[i]) by {
      if r == [] {
        assert l == [];
      }
    }
    r
  }

  /** PHP `strtoupper` on one character: ASCII letters only. */
  function UpperChar(c: char): char {
    if 'a' <= c <= 'z' then (c as int - 32) as char else c
  }

  /** PHP `strtoupper`: maps every character through `UpperChar`, keeping the length. */
  function Upper(s: string): (r: string)
    ensures |r| == |s|
    ensures forall i :: 0 <= i < |s| ==> r[i] == UpperChar(s[i])
  {
    if s == [] then [] else [UpperChar(s[0])] + Upper(s[1..])
  }

  /** The two trims leave the slice of `s` between two blank ends. */
  lemma TrimSlice(s: string)
    ensures var l := TrimLeft(s);
      var r := TrimRight(l);
      var a := |s| - |l|;
      a + |r| <= |s| && r == s[a..a + |r|] && IsBlank(s[..a]) && IsBlank(s[a + |r|..])
  {
    var l := TrimLeft(s);
    var r := TrimRight(l);
    var a := |s| - |l|;
    assert l == s[a..];
    assert r == l[..|r|];
    assert s[a..][..|r|] == s[a..a + |r|];
    var tail := s[a + |r|..];
    assert IsBlank(tail) by {
      forall i | 0 <= i < |tail| ensures IsTrimmable(tail[i]) {
        assert tail[i] == l[|r| + i];
      }
    }
  }

  /** `strtoupper(trim(s))`, the normalised form of a table number: no
      lower-case ASCII letter is left, and it is empty exactly when `s` is
      blank. */
  function Normalize(s: string): (r: string)
    ensures |r| == |Trim(s)|
    ensures r == [] <==> IsBlank(s)
    ensures forall i :: 0 <= i < |r| ==> !('a' <= r[i] <= 'z')
  {
    Upper(Trim(s))
  }

  /** Laravel's `required` on a string field: present, not null, and not
      blank once trimmed. */
  predicate Present(v: Option<string>)
    ensures Present(v) <==> v.Some? && Trim(v.value) != []
  {
    v.Some? && !IsBlank(v.value)
  }

  /** PHP `str_starts_with`. */
  predicate StartsWith(s: string, prefix: string) {
    |prefix| <= |s| && s[..|prefix|] == prefix
  }

  predicate IsDigit(c: char) {
    '0' <= c <= '9'
  }

  predicate IsDigits(s: string) {
    forall i :: 0 <= i < |s| ==> IsDigit(s[i])
  }

  function DigitChar(d: nat): (c: char)
    requires d < 10
    ensures IsDigit(c) && c as int - '0' as int == d
  {
    ('0' as int + d) as char
  }

  /** PHP's conversion of a non-negative integer to its decimal string. */
  function NatToString(n: nat): (s: string)
    ensures 1 <= |s| && IsDigits(s)
    ensures s[0] == '0' ==> n == 0
  {
    if n < 10 then [DigitChar(n)] else NatToString(n / 10) + [DigitChar(n % 10)]
  }

  /** The number a string of decimal digits denotes. */
  function DigitsValue(s: string): nat
    requires IsDigits(s)
  {
    if s == [] then 0 else DigitsValue(s[..|s| - 1]) * 10 + (s[|s| - 1] as int - '0' as int)
  }

  /** Reading back the digits written for `n` gives `n`. */
  lemma {:induction false} NatToStringRoundTrip(n: nat)
    ensures DigitsValue(NatToString(n)) == n
  {
    if n >= 10 {
      NatToStringRoundTrip(n / 10);
      var s := NatToString(n);
      assert s[..|s| - 1] == NatToString(n / 10);
    }
  }

  /** Two numbers are written alike only when they are equal. */
  lemma NatToStringInjective(m: nat, n: nat)
    requires NatToString(m) == NatToString(n)
    ensures m == n
  {
    NatToStringRoundTrip(m);
    NatToStringRoundTrip(n);
  }

  /** PHP `implode(sep, parts)`. */
  function Join(sep: string, parts: seq<string>): (r: string)
    ensures parts == [] ==> r == []
    ensures |parts| == 1 ==> r == parts[0]
    ensures |parts| >= 1 ==> StartsWith(r, parts[0])
  {
    if parts == [] then []
    else if |parts| == 1 then parts[0]
    else parts[0] + sep + Join(sep, parts[1..])
  }

  /** Joining two non-empty lists puts one separator between their joins. */
  lemma {:induction false} JoinAppend(sep: string, a: seq<string>, b: seq<string>)
    requires a != [] && b != []
    ensures Join(sep, a + b) == Join(sep, a) + sep + Join(sep, b)
  {
    var ab := a + b;
    assert ab[0] == a[0];
    if |a| == 1 {
      assert ab[1..] == b;
      calc {
        Join(sep, ab);
        ab[0] + sep + Join(sep, ab[1..]);
        a[0] + sep + Join(sep, b);
      }
    } else {
      assert ab[1..] == a[1..] + b;
      JoinAppend(sep, a[1..], b);
      calc {
        Join(sep, ab);
        ab[0] + sep + Join(sep, ab[1..]);
        a[0] + sep + (Join(sep, a[1..]) + sep + Join(sep, b));
        (a[0] + sep + Join(sep, a[1..])) + sep + Join(sep, b);
        Join(sep, a) + sep + Join(sep, b);
      }
    }
  }

  /** Number of bytes of the UTF-8 encoding of `c`. */
  function Utf8Width(c: char): (w: nat)
    ensures 1 <= w <= 4
    ensures w == 1 <==> c as int < 0x80
  {
    if c as int < 0x80 then 1
    else if c as int < 0x800 then 2
    else if c as int < 0x10000 then 3
    else 4
  }

  /** PHP `strlen` of a UTF-8 string: its length in bytes. */
  function ByteLength(s: string): (n: nat)
    ensures n >= |s|
    ensures n == |s| <==> forall i :: 0 <= i < |s| ==> s[i] as int < 0x80
  {
    if s == [] then 0 else Utf8Width(s[0]) + ByteLength(s[1..])
  }

  /** `strtoupper` is idempotent. */
  lemma UpperIdempotent(s: string)
    ensures Upper(Upper(s)) == Upper(s)
  {
  }

  /** `strtoupper` keeps trimmable characters and non-trimmable ones apart. */
  lemma UpperCharTrimmable(c: char)
    ensures IsTrimmable(UpperChar(c)) <==> IsTrimmable(c)
  {
  }

  lemma {:induction false} SkipLeadingUpper(s: string, i: nat)
    requires i <= |s|
    ensures SkipLeading(Upper(s), i) == SkipLeading(s, i)
    decreases |s| - i
  {
    if i < |s| {
      UpperCharTrimmable(s[i]);
      if IsTrimmable(s[i]) {
        SkipLeadingUpper(s, i + 1);
      }
    }
  }

  lemma {:induction false} SkipTrailingUpper(s: string, j: nat)
    requires j <= |s|
    ensures SkipTrailing(Upper(s), j) == SkipTrailing(s, j)
  {
    if j > 0 {
      UpperCharTrimmable(s[j - 1]);
      if IsTrimmable(s[j - 1]) {
        SkipTrailingUpper(s, j - 1);
      }
    }
  }

  lemma TrimLeftUpper(s: string)
    ensures TrimLeft(Upper(s)) == Upper(TrimLeft(s))
  {
    SkipLeadingUpper(s, 0);
    var k := SkipLeading(s, 0);
    assert Upper(s)[k..] == Upper(s[k..]);
  }

  lemma TrimRightUpper(s: string)
    ensures TrimRight(Upper(s)) == Upper(TrimRight(s))
  {
    SkipTrailingUpper(s, |s|);
    var k := SkipTrailing(s, |s|);
    assert Upper(s)[..k] == Upper(s[..k]);
  }

  /** Trimming and upper-casing commute. */
  lemma TrimUpper(s: string)
    ensures Trim(Upper(s)) == Upper(Trim(s))
  {
    TrimLeftUpper(s);
    TrimRightUpper(TrimLeft(s));
  }

  /** `trim` is idempotent. */
  lemma TrimIdempotent(s: string)
    ensures Trim(Trim(s)) == Trim(s)
  {
    var t := Trim(s);
    assert TrimLeft(t) == t;
    assert TrimRight(t) == t;
  }

  /** Normalising a table number twice gives the same result as once, so one
      physical table always normalises to one identifier. */
  lemma NormalizeIdempotent(s: string)
    ensures Normalize(Normalize(s)) == Normalize(s)
  {
    var t := Trim(s);
    TrimUpper(t);
    TrimIdempotent(s);
    UpperIdempotent(t);
  }
}
