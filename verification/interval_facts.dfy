/**
 * Properties of the interval mini-language: the two revisions compared,
 * a printer that the parser inverts, and the documented examples.
 */
module IntervalFacts {
  import opened Base
  import opened Text
  import opened Intervals

  /** Whatever the current revision accepts, the flat revision accepts too,
      with the same intervals: dropping the '#' check only widens the language. */
  lemma CurrentImpliesFlat(s: string, ivs: seq<Interval>)
    requires ParseIntervals(Current, s) == Ok(Some(ivs))
    ensures ParseIntervals(Flat, s) == Ok(Some(ivs))
  {
    var items := Split(s, ',');
    ParseItemsYield(Current, items);
    forall k | 0 <= k < |items|
      ensures WellFormedItem(Flat, items[k]) && ItemInterval(Flat, items[k]) == ivs[k]
    {
      ItemCurrentImpliesFlat(items[k]);
    }
    ParseItemsYield(Flat, items);
    SameIntervals(ParseIntervals(Flat, s).value.value, ivs);
  }

  lemma ItemCurrentImpliesFlat(item: string)
    requires WellFormedItem(Current, item)
    ensures WellFormedItem(Flat, item) && ItemInterval(Flat, item) == ItemInterval(Current, item)
  {
  }

  lemma SameIntervals(a: seq<Interval>, b: seq<Interval>)
    requires |a| == |b| && forall k :: 0 <= k < |a| ==> a[k] == b[k]
    ensures a == b
  {
  }

  // ---------------------------------------------------------------------
  // Printing intervals

  predicate NaturalBounds(ivs: seq<Interval>) {
    forall k :: 0 <= k < |ivs| ==> 0 <= ivs[k].lower && 0 <= ivs[k].upper
  }

  /** "#N" for a one-point interval, "#N-#M" otherwise. */
  function FormatInterval(iv: Interval): (r: string)
    requires 0 <= iv.lower && 0 <= iv.upper
    ensures ',' !in r
  {
    if iv.lower == iv.upper then "#" + NatToString(iv.lower)
    else ("#" + NatToString(iv.lower)) + "-" + ("#" + NatToString(iv.upper))
  }

  function FormatItems(ivs: seq<Interval>): (r: seq<string>)
    requires NaturalBounds(ivs)
    ensures |r| == |ivs| && forall k :: 0 <= k < |ivs| ==> r[k] == FormatInterval(ivs[k])
  {
    if ivs == [] then [] else [FormatInterval(ivs[0])] + FormatItems(ivs[1..])
  }

  /** The comma-separated form of a list of intervals. */
  function FormatIntervals(ivs: seq<Interval>): string
    requires NaturalBounds(ivs)
  {
    Join(FormatItems(ivs), ',')
  }

  /** "#" followed by the digits of n is a token both revisions read as n. */
  lemma NumberToken(n: nat)
    ensures Strip("#" + NatToString(n)) == "#" + NatToString(n)
    ensures Sentinelled("#" + NatToString(n))
    ensures ParseNat(Suffix("#" + NatToString(n))) == Some(n)
    ensures '-' !in "#" + NatToString(n)
  {
    StripWord("#" + NatToString(n));
    NumberSuffix(n);
  }

  lemma StripWord(x: string)
    requires x != [] && !IsSpace(x[0]) && !IsSpace(x[|x| - 1])
    ensures Strip(x) == x
  {
    StripPadded([], x, []);
    assert [] + x + [] == x;
  }

  lemma NumberSuffix(n: nat)
    ensures ParseNat(Suffix("#" + NatToString(n))) == Some(n)
  {
    assert ("#" + NatToString(n))[1..] == NatToString(n);
    ParseNatToString(n);
  }

  /** A token that reads as a number, as the number token lemma describes. */
  predicate NumberWord(a: string, n: int) {
    Strip(a) == a && Sentinelled(a) && ParseNat(Suffix(a)) == Some(n) && '-' !in a
  }

  lemma FormatIntervalTokens(rev: Revision, iv: Interval)
    requires 0 <= iv.lower && 0 <= iv.upper
    ensures WellFormedItem(rev, FormatInterval(iv))
    ensures ItemInterval(rev, FormatInterval(iv)) == iv
  {
    NumberToken(iv.lower);
    NumberToken(iv.upper);
    if iv.lower == iv.upper {
      SingleItem(rev, "#" + NatToString(iv.lower), iv);
    } else {
      PairItem(rev, "#" + NatToString(iv.lower), "#" + NatToString(iv.upper), iv);
    }
  }

  lemma SingleItem(rev: Revision, a: string, iv: Interval)
    requires NumberWord(a, iv.lower) && iv.lower == iv.upper
    ensures WellFormedItem(rev, a) && ItemInterval(rev, a) == iv
  {
    SplitWithoutSep(a, '-');
    assert Tokens(a) == [a];
  }

  lemma PairItem(rev: Revision, a: string, b: string, iv: Interval)
    requires NumberWord(a, iv.lower) && NumberWord(b, iv.upper)
    ensures WellFormedItem(rev, a + "-" + b) && ItemInterval(rev, a + "-" + b) == iv
  {
    PairTokens(a, b);
  }

  lemma PairTokens(a: string, b: string)
    requires '-' !in a && '-' !in b && Strip(a) == a && Strip(b) == b
    ensures Tokens(a + "-" + b) == [a, b]
  {
    assert a + "-" + b == a + ['-'] + b;
    SplitAfterPiece(a, b, '-');
    SplitWithoutSep(b, '-');
    var t := Tokens(a + "-" + b);
    assert |t| == 2 && t[0] == a && t[1] == b;
  }

  /** Parsing the printed form of intervals with natural bounds gives them
      back, in either revision. */
  lemma ParseFormatted(rev: Revision, ivs: seq<Interval>)
    requires |ivs| >= 1 && NaturalBounds(ivs)
    ensures ParseIntervals(rev, FormatIntervals(ivs)) == Ok(Some(ivs))
  {
    var items := FormatItems(ivs);
    SplitJoin(items, ',');
    forall k | 0 <= k < |items|
      ensures WellFormedItem(rev, items[k]) && ItemInterval(rev, items[k]) == ivs[k]
    {
      FormatIntervalTokens(rev, ivs[k]);
    }
    ParseItemsYield(rev, items);
    SameIntervals(ParseIntervals(rev, FormatIntervals(ivs)).value.value, ivs);
  }

  // ---------------------------------------------------------------------
  // Whole expressions from their items

  /** Comma items that are all well formed parse to their intervals, in order. */
  lemma ParseWellFormed(rev: Revision, items: seq<string>, ivs: seq<Interval>)
    requires |ivs| == |items|
    requires forall k :: 0 <= k < |items| ==> WellFormedItem(rev, items[k]) && ItemInterval(rev, items[k]) == ivs[k]
    ensures ParseItems(rev, items) == Ok(Some(ivs))
  {
    ParseItemsYield(rev, items);
    assert Yielded(ParseItems(rev, items));
    SameIntervals(ParseItems(rev, items).value.value, ivs);
  }

  /** An expression of one well-formed item. */
  lemma ParseOne(rev: Revision, x: string, iv: Interval)
    requires ',' !in x && WellFormedItem(rev, x) && ItemInterval(rev, x) == iv
    ensures ParseIntervals(rev, x) == Ok(Some([iv]))
  {
    SplitWithoutSep(x, ',');
    ParseWellFormed(rev, Split(x, ','), [iv]);
  }

  /** One malformed comma item makes the flat revision return None. */
  lemma FlatRejects(s: string, k: nat)
    requires k < |Split(s, ',')| && !WellFormedItem(Flat, Split(s, ',')[k])
    ensures ParseIntervals(Flat, s) == Ok(None)
  {
    ParseItemsYield(Flat, Split(s, ','));
    ParseItemsCrash(Flat, Split(s, ','));
  }

  /** A malformed comma item makes both revisions return None, provided no
      item has an empty token (the only thing the current revision raises on). */
  lemma MalformedRejects(rev: Revision, s: string, k: nat)
    requires k < |Split(s, ',')| && !WellFormedItem(rev, Split(s, ',')[k])
    requires forall item :: item in Split(s, ',') ==> [] !in Tokens(item)
    ensures ParseIntervals(rev, s) == Ok(None)
  {
    var items := Split(s, ',');
    ParseItemsYield(rev, items);
    ParseItemsCrash(rev, items);
    forall j | 0 <= j < |items|
      ensures !SentinelCrash(Tokens(items[j]))
    {
    }
  }

  /** Blanks around a number word do not change what it denotes. */
  lemma PaddedSingle(rev: Revision, pre: string, a: string, post: string, n: int)
    requires AllSpace(pre) && AllSpace(post) && '-' !in pre && '-' !in post
    requires NumberWord(a, n)
    ensures WellFormedItem(rev, pre + a + post) && ItemInterval(rev, pre + a + post) == Interval(n, n)
  {
    PaddedWord(pre, a, post);
    SingleToken(pre + a + post, a);
    NumberTokens(rev, [a], Interval(n, n));
  }

  /** Blanks around the two number words of a pair do not change what it denotes. */
  lemma PaddedPair(rev: Revision, p1: string, a: string, p2: string, p3: string, b: string, p4: string, iv: Interval)
    requires AllSpace(p1) && AllSpace(p2) && AllSpace(p3) && AllSpace(p4)
    requires '-' !in p1 && '-' !in p2 && '-' !in p3 && '-' !in p4
    requires NumberWord(a, iv.lower) && NumberWord(b, iv.upper)
    ensures WellFormedItem(rev, p1 + a + p2 + "-" + p3 + b + p4)
    ensures ItemInterval(rev, p1 + a + p2 + "-" + p3 + b + p4) == iv
  {
    PaddedWord(p1, a, p2);
    PaddedWord(p3, b, p4);
    TwoTokens(p1 + a + p2, p3 + b + p4, a, b);
    assert p1 + a + p2 + "-" + p3 + b + p4 == (p1 + a + p2) + ['-'] + (p3 + b + p4);
    NumberTokens(rev, [a, b], iv);
  }

  lemma PaddedWord(pre: string, a: string, post: string)
    requires AllSpace(pre) && AllSpace(post) && '-' !in pre && '-' !in post
    requires '-' !in a && a != [] && !IsSpace(a[0]) && !IsSpace(a[|a| - 1])
    ensures Strip(pre + a + post) == a && '-' !in pre + a + post
  {
    StripPadded(pre, a, post);
  }

  lemma SingleToken(x: string, a: string)
    requires '-' !in x && Strip(x) == a
    ensures Tokens(x) == [a]
  {
    SplitWithoutSep(x, '-');
  }

  lemma TwoTokens(x: string, y: string, a: string, b: string)
    requires '-' !in x && '-' !in y && Strip(x) == a && Strip(y) == b
    ensures Tokens(x + ['-'] + y) == [a, b]
  {
    SplitAfterPiece(x, y, '-');
    SplitWithoutSep(y, '-');
    var t := Tokens(x + ['-'] + y);
    assert |t| == 2 && t[0] == a && t[1] == b;
  }

  /** One or two number words form a well-formed token list. */
  lemma NumberTokens(rev: Revision, t: seq<string>, iv: Interval)
    requires 1 <= |t| <= 2
    requires NumberWord(t[0], iv.lower) && NumberWord(t[|t| - 1], iv.upper)
    ensures WellFormedTokens(rev, t) && TokensInterval(rev, t) == iv
  {
    forall k | 0 <= k < |t|
      ensures WellFormedToken(rev, t[k])
    {
      if k > 0 { assert t[k] == t[|t| - 1]; }
    }
  }

  // ---------------------------------------------------------------------
  // Documented examples

  /** The examples of the parser's own documentation. */
  lemma DocstringExampleInterval(rev: Revision)
    ensures ParseIntervals(rev, "#0-#10") == Ok(Some([Interval(0, 10)]))
  {
    FormattedExampleInterval();
    ParseFormatted(rev, [Interval(0, 10)]);
  }

  lemma DocstringExampleValues(rev: Revision)
    ensures ParseIntervals(rev, "#0,#10") == Ok(Some([Interval(0, 0), Interval(10, 10)]))
  {
    FormattedExampleValues();
    ParseFormatted(rev, [Interval(0, 0), Interval(10, 10)]);
  }

  lemma DocstringExampleMixed(rev: Revision)
    ensures ParseIntervals(rev, "#0,#10-#15,#30") ==
      Ok(Some([Interval(0, 0), Interval(10, 15), Interval(30, 30)]))
  {
    FormattedExampleMixed();
    ParseFormatted(rev, [Interval(0, 0), Interval(10, 15), Interval(30, 30)]);
  }

  lemma FormattedExampleInterval()
    ensures FormatIntervals([Interval(0, 10)]) == "#0-#10"
  {
    FormattedNumerals();
    assert FormatItems([Interval(0, 10)]) == ["#0-#10"];
  }

  lemma FormattedExampleValues()
    ensures FormatIntervals([Interval(0, 0), Interval(10, 10)]) == "#0,#10"
  {
    FormattedNumerals();
    assert FormatItems([Interval(0, 0), Interval(10, 10)]) == ["#0", "#10"];
  }

  lemma FormattedExampleMixed()
    ensures FormatIntervals([Interval(0, 0), Interval(10, 15), Interval(30, 30)]) == "#0,#10-#15,#30"
  {
    MixedItems();
    assert Join(["#0", "#10-#15", "#30"], ',') == "#0,#10-#15,#30";
  }

  lemma MixedItems()
    ensures FormatItems([Interval(0, 0), Interval(10, 15), Interval(30, 30)]) == ["#0", "#10-#15", "#30"]
  {
    FormattedNumerals();
  }

  lemma FormattedNumerals()
    ensures FormatInterval(Interval(0, 0)) == "#0" && FormatInterval(Interval(10, 10)) == "#10"
    ensures FormatInterval(Interval(30, 30)) == "#30"
    ensures FormatInterval(Interval(0, 10)) == "#0-#10" && FormatInterval(Interval(10, 15)) == "#10-#15"
  {
    Numerals();
  }

  lemma Numerals()
    ensures NatToString(0) == "0" && NatToString(10) == "10"
    ensures NatToString(15) == "15" && NatToString(30) == "30"
  {
  }
}
