/**
 * The few Python string operations the engine relies on, with the
 * semantics of CPython's `str` methods restricted to what the engine uses:
 * `split` on one character, `strip`, `find`, `replace`, `zfill`, `str(n)`
 * and `int(s)` on ASCII decimal digits.
 */
module Text {
  import opened Base

  // ---------------------------------------------------------------------
  // Whitespace and strip()

  /** `str.isspace()` on the ASCII range: tab, newline, vertical tab, form
      feed, carriage return, the four separators 0x1C..0x1F, and space. */
  predicate IsSpace(c: char) {
    var k := c as int;
    k == 32 || 9 <= k <= 13 || 28 <= k <= 31
  }

  function TrimLeft(s: string): (r: string)
    ensures |r| <= |s|
    ensures r == [] || !IsSpace(r[0])
  {
    if |s| > 0 && IsSpace(s[0]) then TrimLeft(s[1..]) else s
  }

  function TrimRight(s: string): (r: string)
    ensures |r| <= |s|
    ensures r == [] || (r[0] == s[0] && !IsSpace(r[|r| - 1]))
  {
    if |s| > 0 && IsSpace(s[|s| - 1]) then TrimRight(s[..|s| - 1]) else s
  }

  /** `str.strip()`: removes leading and trailing whitespace. */
  function Strip(s: string): (r: string)
    ensures |r| <= |s|
    ensures r == [] || (!IsSpace(r[0]) && !IsSpace(r[|r| - 1]))
  {
    TrimRight(TrimLeft(s))
  }

  /** strip() only removes characters: it brings in none. */
  lemma StripWithin(s: string, c: char)
    requires c !in s
    ensures c !in Strip(s)
  {
    TrimLeftWithin(s, c);
    TrimRightWithin(TrimLeft(s), c);
  }

  lemma {:induction false} TrimLeftWithin(s: string, c: char)
    requires c !in s
    ensures c !in TrimLeft(s)
  {
    if |s| > 0 && IsSpace(s[0]) {
      assert forall k :: 0 <= k < |s| - 1 ==> s[1..][k] == s[k + 1];
      TrimLeftWithin(s[1..], c);
    }
  }

  lemma {:induction false} TrimRightWithin(s: string, c: char)
    requires c !in s
    ensures c !in TrimRight(s)
  {
    if |s| > 0 && IsSpace(s[|s| - 1]) {
      assert forall k :: 0 <= k < |s| - 1 ==> s[..|s| - 1][k] == s[k];
      TrimRightWithin(s[..|s| - 1], c);
    }
  }

  predicate AllSpace(s: string) {
    forall k :: 0 <= k < |s| ==> IsSpace(s[k])
  }

  /** Whitespace around a word is exactly what strip() removes. */
  lemma {:induction false} StripPadded(pre: string, s: string, post: string)
    requires AllSpace(pre) && AllSpace(post)
    requires s == [] || (!IsSpace(s[0]) && !IsSpace(s[|s| - 1]))
    requires s != [] || post == []
    ensures Strip(pre + s + post) == s
  {
    TrimLeftPadded(pre, s + post);
    assert TrimLeft(pre + s + post) == s + post by {
      assert pre + s + post == pre + (s + post);
    }
    TrimRightPadded(s, post);
  }

  lemma {:induction false} TrimLeftPadded(pre: string, s: string)
    requires AllSpace(pre)
    requires s == [] || !IsSpace(s[0])
    ensures TrimLeft(pre + s) == s
  {
    if pre != [] {
      assert (pre + s)[1..] == pre[1..] + s;
      TrimLeftPadded(pre[1..], s);
    } else {
      assert pre + s == s;
    }
  }

  lemma {:induction false} TrimRightPadded(s: string, post: string)
    requires AllSpace(post)
    requires s == [] || !IsSpace(s[|s| - 1])
    requires s != [] || post == []
    ensures TrimRight(s + post) == s
  {
    if post != [] {
      assert (s + post)[..|s + post| - 1] == s + post[..|post| - 1];
      TrimRightPadded(s, post[..|post| - 1]);
    } else {
      assert s + post == s;
    }
  }

  // ---------------------------------------------------------------------
  // split() and its inverse join()

  /** `s.split(sep)` for a one-character separator: the pieces between
      separators, one more piece than there are separators. */
  function Split(s: string, sep: char): (r: seq<string>)
    ensures |r| >= 1
    ensures forall k :: 0 <= k < |r| ==> sep !in r[k]
  {
    if |s| == 0 then [[]]
    else
      var rest := Split(s[1..], sep);
      if s[0] == sep then [[]] + rest
      else [[s[0]] + rest[0]] + rest[1..]
  }

  /** `sep.join(parts)`. */
  function Join(parts: seq<string>, sep: char): string {
    if |parts| == 0 then []
    else if |parts| == 1 then parts[0]
    else parts[0] + [sep] + Join(parts[1..], sep)
  }

  lemma JoinCons(p: string, rest: seq<string>, sep: char)
    requires |rest| >= 1
    ensures Join([p] + rest, sep) == p + [sep] + Join(rest, sep)
  {
    assert ([p] + rest)[1..] == rest;
  }

  /** Joining the pieces of a split gives the original string back. */
  lemma {:induction false} JoinSplit(s: string, sep: char)
    ensures Join(Split(s, sep), sep) == s
  {
    if |s| > 0 {
      var rest := Split(s[1..], sep);
      JoinSplit(s[1..], sep);
      if s[0] == sep {
        JoinCons([], rest, sep);
        assert s == [sep] + s[1..];
      } else if |rest| == 1 {
        assert s == [s[0]] + s[1..];
      } else {
        JoinCons([s[0]] + rest[0], rest[1..], sep);
        JoinCons(rest[0], rest[1..], sep);
        assert rest == [rest[0]] + rest[1..];
        assert s == [s[0]] + s[1..];
      }
    }
  }

  /** One more piece than there are separators. */
  lemma {:induction false} SplitCount(s: string, sep: char)
    ensures |Split(s, sep)| == multiset(s)[sep] + 1
  {
    if |s| > 0 {
      SplitCount(s[1..], sep);
      assert s == [s[0]] + s[1..];
      assert multiset(s) == multiset{s[0]} + multiset(s[1..]);
    }
  }

  lemma {:induction false} SplitWithoutSep(s: string, sep: char)
    requires sep !in s
    ensures Split(s, sep) == [s]
  {
    if |s| > 0 {
      SplitWithoutSep(s[1..], sep);
      assert s == [s[0]] + s[1..];
    }
  }

  lemma {:induction false} SplitAfterPiece(a: string, b: string, sep: char)
    requires sep !in a
    ensures Split(a + [sep] + b, sep) == [a] + Split(b, sep)
  {
    if |a| == 0 {
      assert (a + [sep] + b)[1..] == b;
    } else {
      assert (a + [sep] + b)[1..] == a[1..] + [sep] + b;
      SplitAfterPiece(a[1..], b, sep);
      assert [a[0]] + a[1..] == a;
    }
  }

  /** Splitting a join of separator-free pieces gives the pieces back. */
  lemma {:induction false} SplitJoin(parts: seq<string>, sep: char)
    requires |parts| >= 1
    requires forall k :: 0 <= k < |parts| ==> sep !in parts[k]
    ensures Split(Join(parts, sep), sep) == parts
  {
    if |parts| == 1 {
      SplitWithoutSep(parts[0], sep);
    } else {
      SplitAfterPiece(parts[0], Join(parts[1..], sep), sep);
      SplitJoin(parts[1..], sep);
      assert parts == [parts[0]] + parts[1..];
    }
  }

  // ---------------------------------------------------------------------
  // Decimal numbers: int(s) and str(n)

  predicate IsDigit(c: char) {
    '0' <= c <= '9'
  }

  predicate AllDigits(s: string) {
    forall k :: 0 <= k < |s| ==> IsDigit(s[k])
  }

  function DigitsValue(s: string): nat
    requires AllDigits(s)
  {
    if |s| == 0 then 0
    else DigitsValue(s[..|s| - 1]) * 10 + (s[|s| - 1] as int - '0' as int)
  }

  /** `int(s)` for ASCII decimal digits; `None` where Python raises ValueError. */
  function ParseNat(s: string): Option<nat> {
    if |s| > 0 && AllDigits(s) then Some(DigitsValue(s)) else None
  }

  function DigitChar(d: nat): (c: char)
    requires d < 10
    ensures IsDigit(c)
  {
    ('0' as int + d) as char
  }

  /** `str(n)` for a natural number: decimal digits without leading zeros. */
  function NatToString(n: nat): (r: string)
    ensures |r| >= 1 && AllDigits(r)
    ensures r[0] == '0' ==> n == 0
    ensures '-' !in r && ',' !in r && '%' !in r && '.' !in r
  {
    if n < 10 then [DigitChar(n)] else NatToString(n / 10) + [DigitChar(n % 10)]
  }

  /** int(str(n)) == n. */
  lemma {:induction false} ParseNatToString(n: nat)
    ensures ParseNat(NatToString(n)) == Some(n)
  {
    var s := NatToString(n);
    if n >= 10 {
      ParseNatToString(n / 10);
      assert s[..|s| - 1] == NatToString(n / 10);
      assert s[|s| - 1] as int - '0' as int == n % 10;
      assert DigitsValue(s) == (n / 10) * 10 + n % 10;
    } else {
      assert s[..|s| - 1] == [];
      assert s[0] as int - '0' as int == n;
    }
  }

  /** The number of decimal digits of n, i.e. 1 + floor(log10(n)) for n >= 1. */
  function DigitCount(n: nat): nat {
    |NatToString(n)|
  }

  lemma {:induction false} DigitCountMonotone(a: nat, b: nat)
    requires a <= b
    ensures DigitCount(a) <= DigitCount(b)
  {
    if a >= 10 {
      DigitCountMonotone(a / 10, b / 10);
    }
  }

  function Zeros(k: nat): (r: string)
    ensures |r| == k && AllDigits(r)
  {
    seq(k, _ => '0')
  }

  /** `s.zfill(width)` for an unsigned string of digits. */
  function ZFill(s: string, width: nat): (r: string)
    ensures |r| == if |s| >= width then |s| else width
    ensures r[|r| - |s|..] == s
    ensures forall k :: 0 <= k < |r| - |s| ==> r[k] == '0'
  {
    if |s| >= width then s else Zeros(width - |s|) + s
  }

  lemma {:induction false} ZerosValue(k: nat)
    ensures DigitsValue(Zeros(k)) == 0
  {
    if k > 0 {
      assert Zeros(k)[..k - 1] == Zeros(k - 1);
      ZerosValue(k - 1);
    }
  }

  /** Leading zeros do not change the value of a number. */
  lemma {:induction false} LeadingZeros(k: nat, s: string)
    requires AllDigits(s)
    ensures AllDigits(Zeros(k) + s) && DigitsValue(Zeros(k) + s) == DigitsValue(s)
  {
    if |s| == 0 {
      assert Zeros(k) + s == Zeros(k);
      ZerosValue(k);
    } else {
      var t := Zeros(k) + s;
      assert t[..|t| - 1] == Zeros(k) + s[..|s| - 1];
      LeadingZeros(k, s[..|s| - 1]);
    }
  }

  /** The index token of a slide: `str(index).zfill(width)`. Reading it back
      gives the index, and it is exactly `width` long when the index has no
      more digits than that. */
  lemma PaddedIndex(index: nat, width: nat)
    requires DigitCount(index) <= width
    ensures |ZFill(NatToString(index), width)| == width
    ensures ParseNat(ZFill(NatToString(index), width)) == Some(index)
  {
    var s := NatToString(index);
    ParseNatToString(index);
    LeadingZeros(width - |s|, s);
  }

  // ---------------------------------------------------------------------
  // find() and replace()

  predicate OccursAt(s: string, pat: string, i: int) {
    0 <= i && i + |pat| <= |s| && s[i..i + |pat|] == pat
  }

  function FindFrom(s: string, pat: string, i: nat): (r: int)
    requires i <= |s|
    ensures r == -1 || (i <= r && OccursAt(s, pat, r))
    ensures r == -1 ==> forall j :: i <= j ==> !OccursAt(s, pat, j)
    ensures r >= 0 ==> forall j :: i <= j < r ==> !OccursAt(s, pat, j)
    decreases |s| - i
  {
    if OccursAt(s, pat, i) then i
    else if i == |s| then -1
    else FindFrom(s, pat, i + 1)
  }

  /** `s.find(pat)`: the lowest index where pat occurs, or -1. */
  function Find(s: string, pat: string): (r: int)
    ensures -1 <= r
    ensures r == -1 <==> forall j :: !OccursAt(s, pat, j)
    ensures r >= 0 ==> OccursAt(s, pat, r) && forall j :: 0 <= j < r ==> !OccursAt(s, pat, j)
  {
    FindFrom(s, pat, 0)
  }

  /** `s.replace(pat, rep)`: every non-overlapping occurrence, left to right. */
  function Replace(s: string, pat: string, rep: string): string
    requires |pat| > 0
    decreases |s|
  {
    if |s| < |pat| then s
    else if s[..|pat|] == pat then rep + Replace(s[|pat|..], pat, rep)
    else [s[0]] + Replace(s[1..], pat, rep)
  }

  /** Replacing a pattern that does not occur changes nothing. */
  lemma {:induction false} ReplaceAbsent(s: string, pat: string, rep: string)
    requires |pat| > 0
    requires forall j :: !OccursAt(s, pat, j)
    ensures Replace(s, pat, rep) == s
  {
    if |s| >= |pat| {
      assert !OccursAt(s, pat, 0);
      forall j | OccursAt(s[1..], pat, j)
        ensures false
      {
        assert s[1..][j..j + |pat|] == s[j + 1..j + 1 + |pat|];
        assert OccursAt(s, pat, j + 1);
      }
      ReplaceAbsent(s[1..], pat, rep);
      assert s == [s[0]] + s[1..];
    }
  }

  // Markers of filename templates: '%' followed by one letter.

  predicate MarkerAt(s: string, x: char, i: int) {
    0 <= i && i + 1 < |s| && s[i] == '%' && s[i + 1] == x
  }

  predicate NoMarker(s: string, x: char) {
    forall i :: 0 <= i < |s| ==> !MarkerAt(s, x, i)
  }

  predicate NoDoublePercent(s: string) {
    NoMarker(s, '%')
  }

  lemma MarkerOccurs(s: string, x: char)
    ensures NoMarker(s, x) <==> Find(s, ['%', x]) == -1
  {
    forall i
      ensures OccursAt(s, ['%', x], i) <==> MarkerAt(s, x, i)
    {
      if 0 <= i && i + 2 <= |s| {
        assert s[i..i + 2] == [s[i], s[i + 1]];
      }
    }
  }

  /** Replacing the marker '%x' by a value without '%' removes every '%x',
      and creates no marker that was not already there. */
  lemma {:induction false} ReplaceMarker(s: string, x: char, y: char, rep: string)
    requires x != '%' && '%' !in rep
    requires NoDoublePercent(s)
    ensures NoDoublePercent(Replace(s, ['%', x], rep))
    ensures NoMarker(Replace(s, ['%', x], rep), x)
    ensures NoMarker(s, y) ==> NoMarker(Replace(s, ['%', x], rep), y)
  {
    var pat := ['%', x];
    var r := Replace(s, pat, rep);
    if |s| < 2 {
      assert r == s;
    } else if s[..2] == pat {
      var t := s[2..];
      assert NoDoublePercent(t) by {
        forall i | MarkerAt(t, '%', i) ensures false {
          assert MarkerAt(s, '%', i + 2);
        }
      }
      assert NoMarker(s, y) ==> NoMarker(t, y) by {
        forall i | MarkerAt(t, y, i) ensures MarkerAt(s, y, i + 2) { }
      }
      ReplaceMarker(t, x, y, rep);
      var r' := Replace(t, pat, rep);
      assert r == rep + r';
      forall z, i | MarkerAt(r, z, i) && z != x && z != '%'
        ensures MarkerAt(r', z, i - |rep|)
      {
        assert r[i] == '%';
        assert i >= |rep|;
      }
      forall z, i | MarkerAt(r, z, i) && (z == x || z == '%')
        ensures false
      {
        assert r[i] == '%';
        assert i >= |rep|;
        assert MarkerAt(r', z, i - |rep|);
      }
    } else {
      var t := s[1..];
      assert NoDoublePercent(t) by {
        forall i | MarkerAt(t, '%', i) ensures false {
          assert MarkerAt(s, '%', i + 1);
        }
      }
      assert NoMarker(s, y) ==> NoMarker(t, y) by {
        forall i | MarkerAt(t, y, i) ensures MarkerAt(s, y, i + 1) { }
      }
      ReplaceMarker(t, x, y, rep);
      var r' := Replace(t, pat, rep);
      assert r == [s[0]] + r';
      // after a '%' the next character is kept as it is
      if s[0] == '%' {
        assert s[1] != '%' by { assert !MarkerAt(s, '%', 0); }
        assert |t| >= 2 ==> t[..2][0] == s[1];
        assert |r'| > 0 && r'[0] == s[1];
      }
      assert s[1] != x || s[0] != '%' by {
        assert s[..2] == [s[0], s[1]];
      }
      forall z, i | MarkerAt(r, z, i) && i == 0
        ensures z != x && z != '%' && MarkerAt(s, z, 0)
      {
        assert !MarkerAt(s, '%', 0);
      }
      forall z, i | MarkerAt(r, z, i) && i > 0
        ensures MarkerAt(r', z, i - 1)
      {
      }
    }
  }
}
