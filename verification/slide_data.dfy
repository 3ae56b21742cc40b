/**
 * `filter_slide_data`: a comma-separated list of layer selectors given on
 * the command line, where `\,` stands for a comma inside one selector.
 */
module SlideData {
  import opened Base
  import opened Text

  /** `re.split(r'(?<!\\),', s)` with `escaped` telling whether the
      character just before `s` was a backslash: a comma is a separator
      unless a backslash precedes it. */
  function SplitFrom(s: string, escaped: bool): (r: seq<string>)
    ensures |r| >= 1
  {
    if |s| == 0 then [[]]
    else
      var rest := SplitFrom(s[1..], s[0] == '\\');
      if s[0] == ',' && !escaped then [[]] + rest
      else [[s[0]] + rest[0]] + rest[1..]
  }

  function SplitUnescaped(s: string): seq<string> {
    SplitFrom(s, false)
  }

  /** `t.replace('\,', ',')`. */
  function Unescape(t: string): string {
    Replace(t, "\\,", ",")
  }

  /** `filter_slide_data`: split at unescaped commas, then unescape. */
  function FilterSlideData(s: string): (r: seq<string>)
    ensures |r| == |SplitUnescaped(s)| && |r| >= 1
    ensures forall k :: 0 <= k < |r| ==> r[k] == Unescape(SplitUnescaped(s)[k])
  {
    var pieces := SplitUnescaped(s);
    seq(|pieces|, k requires 0 <= k < |pieces| => Unescape(pieces[k]))
  }

  // ---------------------------------------------------------------------
  // The split: lossless, and it leaves no unescaped comma in a piece

  /** Every comma of p has a backslash just before it (or, at offset 0,
      `escaped` stands for that backslash). */
  predicate Guarded(p: string, escaped: bool) {
    (|p| > 0 && p[0] == ',' ==> escaped) &&
    forall k :: 0 < k < |p| && p[k] == ',' ==> p[k - 1] == '\\'
  }

  /** Joining the pieces with ',' gives the input back. */
  lemma {:induction false} SplitFromJoin(s: string, escaped: bool)
    ensures Join(SplitFrom(s, escaped), ',') == s
  {
    if |s| > 0 {
      var rest := SplitFrom(s[1..], s[0] == '\\');
      SplitFromJoin(s[1..], s[0] == '\\');
      assert s == [s[0]] + s[1..];
      if s[0] == ',' && !escaped {
        JoinCons([], rest, ',');
      } else if |rest| > 1 {
        JoinCons([s[0]] + rest[0], rest[1..], ',');
        JoinCons(rest[0], rest[1..], ',');
        assert rest == [rest[0]] + rest[1..];
      }
    }
  }

  /** No piece keeps a comma that the pattern would have matched. */
  lemma {:induction false} SplitFromGuarded(s: string, escaped: bool)
    ensures var r := SplitFrom(s, escaped);
      Guarded(r[0], escaped) && forall j :: 1 <= j < |r| ==> Guarded(r[j], false)
  {
    if |s| > 0 {
      var rest := SplitFrom(s[1..], s[0] == '\\');
      SplitFromGuarded(s[1..], s[0] == '\\');
      if !(s[0] == ',' && !escaped) {
        var p := [s[0]] + rest[0];
        forall k | 0 < k < |p| && p[k] == ','
          ensures p[k - 1] == '\\'
        {
          assert rest[0][k - 1] == ',';
          if k > 1 {
            assert p[k - 1] == rest[0][k - 2];
          }
        }
      }
    }
  }

  /** The split of a whole input: the text between cuts, none of which
      holds an unescaped comma. */
  lemma SplitUnescapedMeaning(s: string)
    ensures Join(SplitUnescaped(s), ',') == s
    ensures forall j :: 0 <= j < |SplitUnescaped(s)| ==> Guarded(SplitUnescaped(s)[j], false)
  {
    SplitFromJoin(s, false);
    SplitFromGuarded(s, false);
  }

  // ---------------------------------------------------------------------
  // The inverse: escaping the commas of selectors and joining them

  /** Writes every comma of x as `\,`. */
  function Escape(x: string): (r: string)
    ensures '\\' !in x ==> Guarded(r, false)
    ensures '\\' !in x ==> r == [] || r[|r| - 1] != '\\'
  {
    if x == [] then []
    else if x[0] == ',' then
      var rest := Escape(x[1..]);
      var r := "\\," + rest;
      assert forall k :: 2 <= k < |r| ==> r[k] == rest[k - 2];
      r
    else
      var rest := Escape(x[1..]);
      var r := [x[0]] + rest;
      assert forall k :: 1 <= k < |r| ==> r[k] == rest[k - 1];
      assert rest != [] && rest[0] == ',' ==> x[1..][0] == ',';
      r
  }

  lemma {:induction false} UnescapeEscape(x: string)
    requires '\\' !in x
    ensures Unescape(Escape(x)) == x
  {
    if x != [] {
      UnescapeEscape(x[1..]);
      var rest := Escape(x[1..]);
      if x[0] == ',' {
        assert ("\\," + rest)[..2] == "\\,";
        assert ("\\," + rest)[2..] == rest;
      } else {
        var r := [x[0]] + rest;
        assert x[0] in x;
        assert |r| >= 2 ==> r[..2][0] == x[0] && "\\,"[0] == '\\';
        assert r[1..] == rest;
      }
      assert x == [x[0]] + x[1..];
    }
  }

  /** A guarded piece that does not end in a backslash, then a comma: the
      split cuts exactly there. */
  lemma {:induction false} PieceThenComma(e: string, t: string, escaped: bool)
    requires Guarded(e, escaped)
    requires if e == [] then !escaped else e[|e| - 1] != '\\'
    ensures SplitFrom(e + [','] + t, escaped) == [e] + SplitFrom(t, false)
  {
    var s := e + [','] + t;
    if e == [] {
      assert s[1..] == t;
    } else {
      assert s[1..] == e[1..] + [','] + t;
      assert Guarded(e[1..], e[0] == '\\') by {
        forall k | 0 < k < |e[1..]| && e[1..][k] == ','
          ensures e[1..][k - 1] == '\\'
        {
          assert e[k + 1] == ',';
        }
        if |e[1..]| > 0 && e[1..][0] == ',' {
          assert e[1] == ',';
        }
      }
      PieceThenComma(e[1..], t, e[0] == '\\');
      assert e[0] == ',' ==> escaped;
      assert [e[0]] + e[1..] == e;
    }
  }

  lemma {:induction false} LastPiece(e: string, escaped: bool)
    requires Guarded(e, escaped)
    ensures SplitFrom(e, escaped) == [e]
  {
    if e != [] {
      assert Guarded(e[1..], e[0] == '\\') by {
        forall k | 0 < k < |e[1..]| && e[1..][k] == ','
          ensures e[1..][k - 1] == '\\'
        {
          assert e[k + 1] == ',';
        }
        if |e[1..]| > 0 && e[1..][0] == ',' {
          assert e[1] == ',';
        }
      }
      LastPiece(e[1..], e[0] == '\\');
      assert e[0] == ',' ==> escaped;
      assert [e[0]] + e[1..] == e;
    }
  }

  function EscapeAll(xs: seq<string>): (r: seq<string>)
    ensures |r| == |xs|
    ensures forall k :: 0 <= k < |xs| ==> r[k] == Escape(xs[k])
  {
    seq(|xs|, k requires 0 <= k < |xs| => Escape(xs[k]))
  }

  predicate NoBackslash(xs: seq<string>) {
    forall k :: 0 <= k < |xs| ==> '\\' !in xs[k]
  }

  lemma {:induction false} SplitEscapedJoin(xs: seq<string>)
    requires |xs| >= 1 && NoBackslash(xs)
    ensures SplitUnescaped(Join(EscapeAll(xs), ',')) == EscapeAll(xs)
  {
    var es := EscapeAll(xs);
    if |xs| == 1 {
      LastPiece(es[0], false);
    } else {
      assert EscapeAll(xs[1..]) == es[1..];
      SplitEscapedJoin(xs[1..]);
      JoinCons(es[0], es[1..], ',');
      assert es == [es[0]] + es[1..];
      PieceThenComma(es[0], Join(es[1..], ','), false);
    }
  }

  /** Selectors without backslashes, their commas escaped and the
      selectors joined by ',', come back unchanged. */
  lemma FilterSlideDataEscaped(xs: seq<string>)
    requires |xs| >= 1 && NoBackslash(xs)
    ensures FilterSlideData(Join(EscapeAll(xs), ',')) == xs
  {
    SplitEscapedJoin(xs);
    forall k | 0 <= k < |xs|
      ensures Unescape(Escape(xs[k])) == xs[k]
    {
      UnescapeEscape(xs[k]);
    }
  }
}
