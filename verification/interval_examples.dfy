/**
 * The interval parser on the inputs of the flat revision's unit tests
 * (TestSuite.py), and on the edge cases where the two revisions part
 * ways.  Every unit-test input is stated for both revisions: they agree
 * on all of them.
 */
module IntervalExamples {
  import opened Base
  import opened Text
  import opened Intervals
  import opened IntervalFacts

  lemma NumberWords()
    ensures NumberWord("#0", 0) && NumberWord("#10", 10)
    ensures NumberWord("#100", 100) && NumberWord("#200", 200)
  {
    assert NatToString(0) == "0" && NatToString(10) == "10";
    assert NatToString(100) == "100" && NatToString(200) == "200";
    NumberToken(0);
    NumberToken(10);
    NumberToken(100);
    NumberToken(200);
  }

  lemma BlankedZero(rev: Revision)
    ensures WellFormedItem(rev, " #0 ") && ItemInterval(rev, " #0 ") == Interval(0, 0)
  {
    assert " #0 " == " " + "#0" + " ";
    NumberWords();
    PaddedSingle(rev, " ", "#0", " ", 0);
  }

  /** ' #0 ' gives [(0, 0)]. */
  lemma OneValue(rev: Revision)
    ensures ParseIntervals(rev, " #0 ") == Ok(Some([Interval(0, 0)]))
  {
    BlankedZero(rev);
    ParseOne(rev, " #0 ", Interval(0, 0));
  }

  /** ' #0 - #10 ' gives [(0, 10)]. */
  lemma OneInterval(rev: Revision)
    ensures ParseIntervals(rev, " #0 - #10 ") == Ok(Some([Interval(0, 10)]))
  {
    assert " " + "#0" + " " + "-" + " " + "#10" + " " == " #0 - #10 ";
    NumberWords();
    PaddedTens(rev, "#0", "#10", Interval(0, 10));
  }

  /** "a - b" with a blank on either side of each number word. */
  lemma PaddedTens(rev: Revision, a: string, b: string, iv: Interval)
    requires NumberWord(a, iv.lower) && NumberWord(b, iv.upper) && ',' !in a && ',' !in b
    ensures ParseIntervals(rev, " " + a + " " + "-" + " " + b + " ") == Ok(Some([iv]))
  {
    assert ',' !in " " + a + " " + "-" + " " + b + " ";
    PaddedPair(rev, " ", a, " ", " ", b, " ", iv);
    ParseOne(rev, " " + a + " " + "-" + " " + b + " ", iv);
  }

  /** Two comma items without a comma of their own. */
  lemma TwoItems(a: string, b: string)
    requires ',' !in a && ',' !in b
    ensures Split(a + "," + b, ',') == [a, b]
  {
    SplitAfterPiece(a, b, ',');
    SplitWithoutSep(b, ',');
  }

  /** A well-formed item in front of items that yield adds its interval in
      front of theirs. */
  lemma ParseItemsCons(rev: Revision, x: string, rest: seq<string>, ix: Interval)
    requires WellFormedItem(rev, x) && ItemInterval(rev, x) == ix
    requires Yielded(ParseItems(rev, rest))
    ensures ParseItems(rev, [x] + rest) == Ok(Some([ix] + ParseItems(rev, rest).value.value))
  {
    var rs := ItemResults(rev, [x] + rest);
    assert rs[0] == ParseTokens(rev, Tokens(x));
    assert rs[1..] == ItemResults(rev, rest);
  }

  /** Two well-formed comma items give their two intervals. */
  lemma ParseTwoItems(rev: Revision, x: string, y: string, ix: Interval, iy: Interval)
    requires ',' !in x && ',' !in y
    requires WellFormedItem(rev, x) && ItemInterval(rev, x) == ix
    requires WellFormedItem(rev, y) && ItemInterval(rev, y) == iy
    ensures ParseIntervals(rev, x + "," + y) == Ok(Some([ix] + [iy]))
  {
    SplitAfterPiece(x, y, ',');
    ParseOne(rev, y, iy);
    ParseItemsCons(rev, x, Split(y, ','), ix);
  }

  /** ' #0, #10 ' gives [(0, 0), (10, 10)]. */
  lemma TwoValues(rev: Revision)
    ensures ParseIntervals(rev, " #0, #10 ") == Ok(Some([Interval(0, 0), Interval(10, 10)]))
  {
    assert [Interval(0, 0)] + [Interval(10, 10)] == [Interval(0, 0), Interval(10, 10)];
    assert (" " + "#0" + "") + "," + (" " + "#10" + " ") == " #0, #10 ";
    NumberWords();
    PaddedValues(rev, "#0", "#10", 0, 10);
  }

  lemma PaddedValues(rev: Revision, a: string, b: string, m: int, n: int)
    requires NumberWord(a, m) && NumberWord(b, n) && ',' !in a && ',' !in b
    ensures ParseIntervals(rev, (" " + a + "") + "," + (" " + b + " ")) == Ok(Some([Interval(m, m)] + [Interval(n, n)]))
  {
    assert ',' !in " " + a + "" && ',' !in " " + b + " ";
    PaddedSingle(rev, " ", a, "", m);
    PaddedSingle(rev, " ", b, " ", n);
    ParseTwoItems(rev, " " + a + "", " " + b + " ", Interval(m, m), Interval(n, n));
  }

  /** ' #0 - #10 , #100 - #200 ' gives [(0, 10), (100, 200)]. */
  lemma TwoIntervals(rev: Revision)
    ensures ParseIntervals(rev, " #0 - #10 , #100 - #200 ") == Ok(Some([Interval(0, 10), Interval(100, 200)]))
  {
    assert [Interval(0, 10)] + [Interval(100, 200)] == [Interval(0, 10), Interval(100, 200)];
    TwoIntervalsText();
    NumberWords();
    PaddedIntervals(rev, "#0", "#10", "#100", "#200", Interval(0, 10), Interval(100, 200));
  }

  lemma TwoIntervalsText()
    ensures (" " + "#0" + " " + "-" + " " + "#10" + " ") + "," + (" " + "#100" + " " + "-" + " " + "#200" + " ")
      == " #0 - #10 , #100 - #200 "
  {
  }

  lemma PaddedIntervals(rev: Revision, a: string, b: string, c: string, d: string, i1: Interval, i2: Interval)
    requires NumberWord(a, i1.lower) && NumberWord(b, i1.upper) && ',' !in a && ',' !in b
    requires NumberWord(c, i2.lower) && NumberWord(d, i2.upper) && ',' !in c && ',' !in d
    ensures ParseIntervals(rev, (" " + a + " " + "-" + " " + b + " ") + "," + (" " + c + " " + "-" + " " + d + " "))
      == Ok(Some([i1] + [i2]))
  {
    assert ',' !in " " + a + " " + "-" + " " + b + " ";
    assert ',' !in " " + c + " " + "-" + " " + d + " ";
    PaddedPair(rev, " ", a, " ", " ", b, " ", i1);
    PaddedPair(rev, " ", c, " ", " ", d, " ", i2);
    ParseTwoItems(rev, " " + a + " " + "-" + " " + b + " ", " " + c + " " + "-" + " " + d + " ", i1, i2);
  }

  /** '#0,#5-#10,#15,#20-#30' gives [(0, 0), (5, 10), (15, 15), (20, 30)]. */
  lemma ValuesAndIntervals(rev: Revision)
    ensures ParseIntervals(rev, "#0,#5-#10,#15,#20-#30") ==
      Ok(Some([Interval(0, 0), Interval(5, 10), Interval(15, 15), Interval(20, 30)]))
  {
    FormattedValuesAndIntervals();
    ParseFormatted(rev, [Interval(0, 0), Interval(5, 10), Interval(15, 15), Interval(20, 30)]);
  }

  lemma FormattedValuesAndIntervals()
    ensures FormatIntervals([Interval(0, 0), Interval(5, 10), Interval(15, 15), Interval(20, 30)])
      == "#0,#5-#10,#15,#20-#30"
  {
    assert "#0" + [','] + ("#5-#10" + [','] + ("#15" + [','] + "#20-#30")) == "#0,#5-#10,#15,#20-#30";
    ValuesAndIntervalsItems();
    JoinFour("#0", "#5-#10", "#15", "#20-#30", ',');
  }

  lemma JoinFour(w: string, x: string, y: string, z: string, sep: char)
    ensures Join([w, x, y, z], sep) == w + [sep] + (x + [sep] + (y + [sep] + z))
  {
    assert [w, x, y, z][1..] == [x, y, z] && [x, y, z][1..] == [y, z] && [y, z][1..] == [z];
    assert Join([y, z], sep) == y + [sep] + z;
    assert Join([x, y, z], sep) == x + [sep] + (y + [sep] + z);
  }

  lemma ValuesAndIntervalsItems()
    ensures FormatItems([Interval(0, 0), Interval(5, 10), Interval(15, 15), Interval(20, 30)])
      == ["#0", "#5-#10", "#15", "#20-#30"]
  {
    FourFormats();
    FormatFour(Interval(0, 0), Interval(5, 10), Interval(15, 15), Interval(20, 30));
  }

  lemma FourFormats()
    ensures FormatInterval(Interval(0, 0)) == "#0" && FormatInterval(Interval(5, 10)) == "#5-#10"
    ensures FormatInterval(Interval(15, 15)) == "#15" && FormatInterval(Interval(20, 30)) == "#20-#30"
  {
    assert NatToString(0) == "0" && NatToString(5) == "5" && NatToString(10) == "10";
    assert NatToString(15) == "15" && NatToString(20) == "20" && NatToString(30) == "30";
  }

  lemma FormatFour(i0: Interval, i1: Interval, i2: Interval, i3: Interval)
    requires 0 <= i0.lower && 0 <= i0.upper && 0 <= i1.lower && 0 <= i1.upper
    requires 0 <= i2.lower && 0 <= i2.upper && 0 <= i3.lower && 0 <= i3.upper
    ensures FormatItems([i0, i1, i2, i3])
      == [FormatInterval(i0), FormatInterval(i1), FormatInterval(i2), FormatInterval(i3)]
  {
  }

  /** A non-empty token with no blank at either end and no '-' or ','. */
  predicate Word(w: string) {
    w != [] && !IsSpace(w[0]) && !IsSpace(w[|w| - 1]) && '-' !in w && ',' !in w
  }

  /** One token that the revision does not accept. */
  lemma RejectOneToken(rev: Revision, w: string)
    requires Word(w) && !WellFormedToken(rev, w)
    ensures ParseIntervals(rev, w) == Ok(None)
  {
    StripWord(w);
    SingleToken(w, w);
    SplitWithoutSep(w, ',');
    MalformedRejects(rev, w, 0);
  }

  /** Two tokens, the second of which the revision does not accept. */
  lemma RejectSecondToken(rev: Revision, a: string, b: string)
    requires Word(a) && Word(b) && !WellFormedToken(rev, b)
    ensures ParseIntervals(rev, a + "-" + b) == Ok(None)
  {
    StripWord(a);
    StripWord(b);
    PairTokens(a, b);
    var t := Tokens(a + "-" + b);
    assert t[1] == b && !WellFormedTokens(rev, t);
    SplitWithoutSep(a + "-" + b, ',');
    assert Split(a + "-" + b, ',')[0] == a + "-" + b;
    MalformedRejects(rev, a + "-" + b, 0);
  }

  /** Two comma items, the second a token the revision does not accept. */
  lemma RejectSecondItem(rev: Revision, a: string, b: string)
    requires Word(a) && Word(b) && !WellFormedToken(rev, b)
    ensures ParseIntervals(rev, a + "," + b) == Ok(None)
  {
    StripWord(a);
    StripWord(b);
    SingleToken(a, a);
    SingleToken(b, b);
    TwoItems(a, b);
    assert Split(a + "," + b, ',')[1] == b && Tokens(b)[0] == b;
    assert !WellFormedTokens(rev, Tokens(b));
    MalformedRejects(rev, a + "," + b, 1);
  }

  /** Three words joined by dashes are three tokens. */
  lemma ThreeWordTokens(a: string, b: string, c: string)
    requires Word(a) && Word(b) && Word(c)
    ensures Tokens(a + "-" + b + "-" + c) == [a, b, c]
  {
    assert a + "-" + b + "-" + c == a + ['-'] + (b + ['-'] + c);
    SplitAfterPiece(a, b + ['-'] + c, '-');
    SplitAfterPiece(b, c, '-');
    SplitWithoutSep(c, '-');
    StripWord(a);
    StripWord(b);
    StripWord(c);
    var t := Tokens(a + "-" + b + "-" + c);
    assert |t| == 3 && t[0] == a && t[1] == b && t[2] == c;
  }

  /** Three tokens are one too many, whatever they are. */
  lemma RejectThreeTokens(rev: Revision, a: string, b: string, c: string)
    requires Word(a) && Word(b) && Word(c)
    ensures ParseIntervals(rev, a + "-" + b + "-" + c) == Ok(None)
  {
    var s := a + "-" + b + "-" + c;
    ThreeWordTokens(a, b, c);
    assert !WellFormedTokens(rev, Tokens(s));
    SplitWithoutSep(s, ',');
    assert Split(s, ',')[0] == s;
    MalformedRejects(rev, s, 0);
  }

  /** '0': the token lacks '#', and the flat revision's int('') fails. */
  lemma WrongFormatBareNumber(rev: Revision)
    ensures ParseIntervals(rev, "0") == Ok(None)
  {
    assert Suffix("0") == [];
    RejectOneToken(rev, "0");
  }

  /** '#0-1': the second token lacks '#'. */
  lemma WrongFormatBareUpper(rev: Revision)
    ensures ParseIntervals(rev, "#0-1") == Ok(None)
  {
    assert "#0" + "-" + "1" == "#0-1";
    assert Suffix("1") == [];
    RejectSecondToken(rev, "#0", "1");
  }

  /** '#0,1': the second comma item lacks '#'. */
  lemma WrongFormatBareItem(rev: Revision)
    ensures ParseIntervals(rev, "#0,1") == Ok(None)
  {
    assert "#0" + "," + "1" == "#0,1";
    assert Suffix("1") == [];
    RejectSecondItem(rev, "#0", "1");
  }

  /** '#0-#1-#2': three tokens. */
  lemma WrongFormatThreeTokens(rev: Revision)
    ensures ParseIntervals(rev, "#0-#1-#2") == Ok(None)
  {
    assert "#0" + "-" + "#1" + "-" + "#2" == "#0-#1-#2";
    RejectThreeTokens(rev, "#0", "#1", "#2");
  }

  /** A label-like word such as "L1": the current revision rejects it for
      lacking '#', the flat revision drops its first character unchecked. */
  lemma RevisionsPartOnLabelWord(c: char, n: nat)
    requires c != '#' && !IsSpace(c) && c != ',' && c != '-'
    ensures ParseIntervals(Current, [c] + NatToString(n)) == Ok(None)
    ensures ParseIntervals(Flat, [c] + NatToString(n)) == Ok(Some([Interval(n, n)]))
  {
    var x := [c] + NatToString(n);
    LabelWord(c, n);
    ParseOne(Flat, x, Interval(n, n));
    SplitWithoutSep(x, ',');
    ParseItemsYield(Current, [x]);
    ParseItemsCrash(Current, [x]);
  }

  lemma LabelWord(c: char, n: nat)
    requires c != '#' && !IsSpace(c) && c != ',' && c != '-'
    ensures ',' !in [c] + NatToString(n) && Tokens([c] + NatToString(n)) == [[c] + NatToString(n)]
    ensures WellFormedItem(Flat, [c] + NatToString(n)) && ItemInterval(Flat, [c] + NatToString(n)) == Interval(n, n)
    ensures !WellFormedItem(Current, [c] + NatToString(n))
    ensures !SentinelCrash(Tokens([c] + NatToString(n)))
  {
    var x := [c] + NatToString(n);
    assert x[1..] == NatToString(n);
    ParseNatToString(n);
    StripWord(x);
    SingleToken(x, x);
  }

  /** A trailing dash leaves an empty token: the current revision raises,
      the flat revision returns None. */
  lemma TrailingDash(n: nat)
    ensures ParseIntervals(Current, "#" + NatToString(n) + "-") == Err(EmptyToken)
    ensures ParseIntervals(Flat, "#" + NatToString(n) + "-") == Ok(None)
  {
    var x := "#" + NatToString(n) + "-";
    DashTokens(n);
    SplitWithoutSep(x, ',');
    ParseItemsCrash(Current, [x]);
    ParseItemsYield(Current, [x]);
    assert ItemCrash(Current, [x]);
    ParseItemsCrash(Flat, [x]);
    ParseItemsYield(Flat, [x]);
  }

  lemma DashTokens(n: nat)
    ensures ',' !in "#" + NatToString(n) + "-"
    ensures Tokens("#" + NatToString(n) + "-") == ["#" + NatToString(n), []]
    ensures SentinelCrash(Tokens("#" + NatToString(n) + "-"))
    ensures !WellFormedItem(Flat, "#" + NatToString(n) + "-")
  {
    var a := "#" + NatToString(n);
    NumberToken(n);
    assert Strip([]) == [];
    TwoTokens(a, [], a, []);
    assert a + "-" == a + ['-'] + [];
    var t := Tokens(a + "-");
    assert t[1] == [] && Sentinelled(t[0]);
  }

  /** An empty expression is one empty token. */
  lemma EmptyExpression()
    ensures ParseIntervals(Current, "") == Err(EmptyToken)
    ensures ParseIntervals(Flat, "") == Ok(None)
  {
    assert Split("", ',') == [""];
    assert Tokens("") == [""];
    assert Tokens("")[0] == [];
    ParseItemsCrash(Current, [""]);
    ParseItemsYield(Current, [""]);
    assert ItemCrash(Current, [""]);
    ParseItemsCrash(Flat, [""]);
    ParseItemsYield(Flat, [""]);
  }
}
