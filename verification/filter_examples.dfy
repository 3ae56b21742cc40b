/**
 * The label filter on a label that looks like an interval, and on every
 * input of the flat revision's filtering unit tests (TestSuite.py). Each
 * test is stated for both revisions: they agree on all of them, since a
 * label key such as "L2" that the flat revision reads as its own position
 * selects that same position by name in the current revision.
 */
module FilterExamples {
  import opened Base
  import opened Text
  import opened Intervals
  import opened IntervalFacts
  import opened IntervalExamples
  import opened LabelFilter

  lemma ParseHashThree(rev: Revision)
    ensures ParseIntervals(rev, "#3") == Ok(Some([Interval(3, 3)]))
  {
    assert NatToString(3) == "3";
    assert FormatInterval(Interval(3, 3)) == "#3";
    assert FormatItems([Interval(3, 3)]) == ["#3"];
    ParseFormatted(rev, [Interval(3, 3)]);
  }

  lemma HashThreeCovers(rev: Revision, n: int)
    ensures SomeCovers(ExprResults(rev, ["#3"]), n) <==> n == 3
  {
    ParseHashThree(rev);
    var rs := ExprResults(rev, ["#3"]);
    assert rs == [Ok(Some([Interval(3, 3)]))];
    if SomeCovers(rs, n) {
      var j :| 0 <= j < |rs| && Yielded(rs[j]) && InIntervals(n, rs[j].value.value);
      assert j == 0;
    }
    if n == 3 {
      assert Yielded(rs[0]) && InIntervals(n, rs[0].value.value);
    }
  }

  /** A layer literally labelled "#3": the include token "#3" selects both
      position 3, as an interval, and the label's own position, by name. */
  lemma IntervalLookingLabel(rev: Revision, labels: seq<string>, p: nat, n: nat)
    requires p < |labels| && n < |labels|
    requires labels[p] == "#3" && FirstOccurrence(labels, p)
    ensures Kept(rev, labels, Filters(Some(["#3"]), None), n) <==> n == 3 || n == p
  {
    HashThreeCovers(rev, n);
    if labels[n] == "#3" && FirstOccurrence(labels, n) {
      assert n == p;
    }
  }

  // ---------------------------------------------------------------------
  // Keys of the two shapes the unit tests use

  /** Tokens es name the labels at positions q, no earlier label repeating
      them, and each token reads as nothing or as its own label's position. */
  predicate NamedKey(rev: Revision, labels: seq<string>, es: seq<string>, q: seq<int>) {
    NamedPositions(labels, es, q) && NameResults(ExprResults(rev, es), q)
  }

  /** Tokens es are the labels at positions q, each at its first occurrence. */
  predicate NamedPositions(labels: seq<string>, es: seq<string>, q: seq<int>) {
    |q| == |es| &&
    forall j :: 0 <= j < |q| ==> 0 <= q[j] < |labels| && es[j] == labels[q[j]] && FirstOccurrence(labels, q[j])
  }

  /** Each result is nothing or the single position q[j]. */
  predicate NameResults(rs: seq<Result<Option<seq<Interval>>>>, q: seq<int>) {
    |rs| == |q| && forall j :: 0 <= j < |rs| ==> NameResult(rs[j], q[j])
  }

  predicate NameResult(r: Result<Option<seq<Interval>>>, n: int) {
    r == Ok(None) || r == Ok(Some([Interval(n, n)]))
  }

  /** Token e either names no position or names position n. */
  predicate LabelKey(rev: Revision, e: string, n: int) {
    NameResult(ParseIntervals(rev, e), n)
  }

  /** Token e is no label and reads as the intervals ivs. */
  predicate RangeKey(rev: Revision, labels: seq<string>, e: string, ivs: seq<Interval>) {
    ParseIntervals(rev, e) == Ok(Some(ivs)) && e !in labels
  }

  /** p lists in increasing order the positions that ivs covers and q misses. */
  predicate KeptPositions(labels: seq<string>, ivs: seq<Interval>, q: seq<int>, p: seq<int>) {
    (forall j :: 0 <= j < |p| ==> 0 <= p[j] < |labels|) &&
    (forall j, k :: 0 <= j < k < |p| ==> p[j] < p[k]) &&
    forall n :: 0 <= n < |labels| ==> (InIntervals(n, ivs) && n !in q <==> n in p)
  }

  /** A key naming labels selects exactly their positions and never raises. */
  lemma NamedKeySelects(rev: Revision, labels: seq<string>, es: seq<string>, q: seq<int>, n: int)
    requires NamedKey(rev, labels, es, q) && 0 <= n < |labels|
    ensures !KeyRaises(rev, Some(es))
    ensures Selects(rev, labels, Some(es), n) <==> n in q
  {
    var rs := ExprResults(rev, es);
    NamedResults(rs, q, n);
    NamesAt(labels, es, q, n);
  }

  /** Results that are each nothing or the single position q[j] never
      raise, and cover only positions of q. */
  lemma NamedResults(rs: seq<Result<Option<seq<Interval>>>>, q: seq<int>, n: int)
    requires NameResults(rs, q)
    ensures !SomeRaises(rs)
    ensures SomeCovers(rs, n) ==> n in q
  {
    if SomeCovers(rs, n) {
      var j :| 0 <= j < |rs| && Yielded(rs[j]) && InIntervals(n, rs[j].value.value);
      assert q[j] == n;
    }
  }

  /** Tokens that name the labels at positions q, each a first occurrence,
      pick by name exactly the positions of q. */
  lemma NamesAt(labels: seq<string>, es: seq<string>, q: seq<int>, n: int)
    requires NamedPositions(labels, es, q) && 0 <= n < |labels|
    ensures labels[n] in es && FirstOccurrence(labels, n) <==> n in q
  {
    if labels[n] in es && FirstOccurrence(labels, n) {
      var j :| 0 <= j < |es| && es[j] == labels[n];
      assert !(n < q[j]) && !(q[j] < n);
    }
    if n in q {
      var j :| 0 <= j < |q| && q[j] == n;
      assert labels[n] == es[j];
    }
  }

  /** A key of one token that is no label and reads as the intervals ivs
      selects exactly what ivs covers and never raises. */
  lemma RangeKeySelects(rev: Revision, labels: seq<string>, e: string, ivs: seq<Interval>, n: int)
    requires RangeKey(rev, labels, e, ivs)
    ensures !KeyRaises(rev, Some([e]))
    ensures Selects(rev, labels, Some([e]), n) <==> InIntervals(n, ivs)
  {
    var rs := ExprResults(rev, [e]);
    assert rs[0] == ParseIntervals(rev, e);
    if SomeCovers(rs, n) {
      var j :| 0 <= j < |rs| && Yielded(rs[j]) && InIntervals(n, rs[j].value.value);
      assert j == 0;
    }
    if InIntervals(n, ivs) {
      assert Yielded(rs[0]) && InIntervals(n, rs[0].value.value);
    }
  }

  /** Once every position is known to be kept or not, the filter gives the
      labels at the kept positions, listed in increasing order. */
  lemma FilteredAt(rev: Revision, labels: seq<string>, f: Filters, p: seq<int>)
    requires !KeyRaises(rev, f.toInclude) && !KeyRaises(rev, f.toExclude)
    requires forall j :: 0 <= j < |p| ==> 0 <= p[j] < |labels|
    requires forall j, k :: 0 <= j < k < |p| ==> p[j] < p[k]
    requires forall i :: 0 <= i < |labels| ==> (Kept(rev, labels, f, i) <==> i in p)
    ensures FilteredLabels(rev, labels, f) == Ok(Picked(labels, p))
  {
    FilteredRaises(rev, labels, f);
    FilteredMeaning(rev, labels, f);
    RestrictAt(labels, KeptMask(rev, labels, f), p);
  }

  /** An include key of one interval token and an exclude key of label
      names keep the positions the intervals cover and the names miss. */
  lemma RangeMinusNames(rev: Revision, labels: seq<string>, e: string, ivs: seq<Interval>,
                        es: seq<string>, q: seq<int>, p: seq<int>)
    requires RangeKey(rev, labels, e, ivs) && NamedKey(rev, labels, es, q) && KeptPositions(labels, ivs, q, p)
    ensures FilteredLabels(rev, labels, Filters(Some([e]), Some(es))) == Ok(Picked(labels, p))
  {
    var f := Filters(Some([e]), Some(es));
    forall n | 0 <= n < |labels|
      ensures Kept(rev, labels, f, n) <==> n in p
    {
      RangeKeySelects(rev, labels, e, ivs, n);
      NamedKeySelects(rev, labels, es, q, n);
    }
    if labels != [] {
      RangeKeySelects(rev, labels, e, ivs, 0);
      NamedKeySelects(rev, labels, es, q, 0);
    } else {
      assert KeyRaises(rev, f.toInclude) ==> false by {
        RangeKeySelects(rev, labels, e, ivs, 0);
      }
      assert KeyRaises(rev, f.toExclude) ==> false by {
        NamedResults(ExprResults(rev, es), q, 0);
      }
    }
    FilteredAt(rev, labels, f, p);
  }

  /** An include key of label names and no exclude key keep exactly the
      named positions. */
  lemma NamesOnly(rev: Revision, labels: seq<string>, es: seq<string>, q: seq<int>)
    requires NamedKey(rev, labels, es, q) && labels != []
    requires forall j, k :: 0 <= j < k < |q| ==> q[j] < q[k]
    ensures FilteredLabels(rev, labels, Filters(Some(es), None)) == Ok(Picked(labels, q))
  {
    var f := Filters(Some(es), None);
    forall n | 0 <= n < |labels|
      ensures Kept(rev, labels, f, n) <==> n in q
    {
      NamedKeySelects(rev, labels, es, q, n);
    }
    NamedKeySelects(rev, labels, es, q, 0);
    FilteredAt(rev, labels, f, q);
  }

  /** A key of one label name at its first occurrence. */
  lemma NamedSingle(rev: Revision, labels: seq<string>, a: string, m: int)
    requires 0 <= m < |labels| && labels[m] == a && FirstOccurrence(labels, m) && LabelKey(rev, a, m)
    ensures NamedKey(rev, labels, [a], [m])
  {
    assert [a] + [] == [a] && [m] + [] == [m];
    assert NamedKey(rev, labels, [], []);
    NamedCons(rev, labels, a, m, [], []);
  }

  /** A key of two label names, each at its first occurrence. */
  lemma NamedPair(rev: Revision, labels: seq<string>, a: string, m: int, b: string, n: int)
    requires 0 <= m < |labels| && labels[m] == a && FirstOccurrence(labels, m) && LabelKey(rev, a, m)
    requires 0 <= n < |labels| && labels[n] == b && FirstOccurrence(labels, n) && LabelKey(rev, b, n)
    ensures NamedKey(rev, labels, [a, b], [m, n])
  {
    assert [a] + [b] == [a, b] && [m] + [n] == [m, n];
    NamedSingle(rev, labels, b, n);
    NamedCons(rev, labels, a, m, [b], [n]);
  }

  /** A key of three label names, each at its first occurrence. */
  lemma NamedTriple(rev: Revision, labels: seq<string>, a: string, m: int, b: string, n: int, c: string, k: int)
    requires 0 <= m < |labels| && labels[m] == a && FirstOccurrence(labels, m) && LabelKey(rev, a, m)
    requires 0 <= n < |labels| && labels[n] == b && FirstOccurrence(labels, n) && LabelKey(rev, b, n)
    requires 0 <= k < |labels| && labels[k] == c && FirstOccurrence(labels, k) && LabelKey(rev, c, k)
    ensures NamedKey(rev, labels, [a, b, c], [m, n, k])
  {
    assert [a] + [b, c] == [a, b, c] && [m] + [n, k] == [m, n, k];
    NamedPair(rev, labels, b, n, c, k);
    NamedCons(rev, labels, a, m, [b, c], [n, k]);
  }

  /** A name in front of a key of names. */
  lemma NamedCons(rev: Revision, labels: seq<string>, e: string, n: int, es: seq<string>, q: seq<int>)
    requires NamedKey(rev, labels, es, q)
    requires 0 <= n < |labels| && labels[n] == e && FirstOccurrence(labels, n) && LabelKey(rev, e, n)
    ensures NamedKey(rev, labels, [e] + es, [n] + q)
  {
    PositionsCons(labels, e, n, es, q);
    ExprResultsCons(rev, e, es);
    ResultsCons(ParseIntervals(rev, e), n, ExprResults(rev, es), q);
  }

  lemma PositionsCons(labels: seq<string>, e: string, n: int, es: seq<string>, q: seq<int>)
    requires NamedPositions(labels, es, q)
    requires 0 <= n < |labels| && labels[n] == e && FirstOccurrence(labels, n)
    ensures NamedPositions(labels, [e] + es, [n] + q)
  {
    var es', q' := [e] + es, [n] + q;
    assert forall j :: 1 <= j < |es'| ==> es'[j] == es[j - 1] && q'[j] == q[j - 1];
  }

  lemma ResultsCons(r: Result<Option<seq<Interval>>>, n: int, rs: seq<Result<Option<seq<Interval>>>>, q: seq<int>)
    requires NameResult(r, n) && NameResults(rs, q)
    ensures NameResults([r] + rs, [n] + q)
  {
    var rs', q' := [r] + rs, [n] + q;
    assert forall j :: 1 <= j < |rs'| ==> rs'[j] == rs[j - 1] && q'[j] == q[j - 1];
  }

  lemma ExprResultsCons(rev: Revision, e: string, es: seq<string>)
    ensures ExprResults(rev, [e] + es) == [ParseIntervals(rev, e)] + ExprResults(rev, es)
  {
    var es' := [e] + es;
    assert forall j :: 1 <= j < |es'| ==> es'[j] == es[j - 1];
  }

  /** "#m-#n" with m < n is the interval (m, n). */
  lemma ParseRange(rev: Revision, m: nat, n: nat)
    requires m < n
    ensures ParseIntervals(rev, ("#" + NatToString(m)) + "-" + ("#" + NatToString(n))) == Ok(Some([Interval(m, n)]))
  {
    assert FormatItems([Interval(m, n)]) == [FormatInterval(Interval(m, n))];
    ParseFormatted(rev, [Interval(m, n)]);
  }

  /** "Ln" is read as nothing or as (n, n). */
  lemma LabelToken(rev: Revision, n: nat)
    ensures LabelKey(rev, ['L'] + NatToString(n), n)
  {
    RevisionsPartOnLabelWord('L', n);
  }

  /** A label whose suffix starts with a non-blank and holds a blank further
      on is no number, so it names nothing. */
  lemma SpacedKey(rev: Revision, w: string, n: int, b: int)
    requires Word(w) && 1 < b < |w| && w[1] != ' ' && w[b] == ' '
    ensures LabelKey(rev, w, n)
  {
    assert Suffix(w)[b - 1] == ' ' && !IsDigit(' ');
    RejectOneToken(rev, w);
  }

  // ---------------------------------------------------------------------
  // The filtering unit tests, each for both revisions

  /** No include key: nothing is kept. */
  lemma NoInclusion(rev: Revision)
    ensures FilteredLabels(rev, ["L0", "L1", "L2", "L3", "L4"], Filters(None, Some(["L2"]))) == Ok([])
  {
    var labels := ["L0", "L1", "L2", "L3", "L4"];
    var f := Filters(None, Some(["L2"]));
    FiveKeys(rev);
    NamedKeySelects(rev, labels, ["L2"], [2], 0);
    FilteredRaises(rev, labels, f);
    NoIncludeKeepsNothing(rev, labels, f);
  }

  /** Include "L0" and "L2", no exclude key: those two labels. */
  lemma NoExclusion(rev: Revision)
    ensures FilteredLabels(rev, ["L0", "L1", "L2", "L3", "L4"], Filters(Some(["L0", "L2"]), None)) == Ok(["L0", "L2"])
  {
    ZeroAndTwo();
    ZeroAndTwoKey(rev);
    NamesOnly(rev, ["L0", "L1", "L2", "L3", "L4"], ["L0", "L2"], [0, 2]);
  }

  lemma ZeroAndTwo()
    ensures Picked(["L0", "L1", "L2", "L3", "L4"], [0, 2]) == ["L0", "L2"]
  {
  }

  lemma ZeroAndTwoKey(rev: Revision)
    ensures NamedKey(rev, ["L0", "L1", "L2", "L3", "L4"], ["L0", "L2"], [0, 2])
  {
    var labels := ["L0", "L1", "L2", "L3", "L4"];
    assert FirstOccurrence(labels, 0) && FirstOccurrence(labels, 2);
    LabelKeys(rev);
    NamedPair(rev, labels, "L0", 0, "L2", 2);
  }

  /** Include "#0-#4", exclude "L2": every label but "L2". */
  lemma IncludeRangeExcludeLabel(rev: Revision)
    ensures FilteredLabels(rev, ["L0", "L1", "L2", "L3", "L4"], Filters(Some(["#0-#4"]), Some(["L2"])))
      == Ok(["L0", "L1", "L3", "L4"])
  {
    AllButTwo();
    FiveKeys(rev);
    RangeMinusNames(rev, ["L0", "L1", "L2", "L3", "L4"], "#0-#4", [Interval(0, 4)], ["L2"], [2], [0, 1, 3, 4]);
  }

  lemma AllButTwo()
    ensures KeptPositions(["L0", "L1", "L2", "L3", "L4"], [Interval(0, 4)], [2], [0, 1, 3, 4])
    ensures Picked(["L0", "L1", "L2", "L3", "L4"], [0, 1, 3, 4]) == ["L0", "L1", "L3", "L4"]
  {
    var p := [0, 1, 3, 4];
    forall n | 0 <= n < 5
      ensures InIntervals(n, [Interval(0, 4)]) && n !in [2] <==> n in p
    {
    }
  }

  lemma FiveKeys(rev: Revision)
    ensures RangeKey(rev, ["L0", "L1", "L2", "L3", "L4"], "#0-#4", [Interval(0, 4)])
    ensures NamedKey(rev, ["L0", "L1", "L2", "L3", "L4"], ["L2"], [2])
  {
    var labels := ["L0", "L1", "L2", "L3", "L4"];
    assert FirstOccurrence(labels, 2) && labels[2] == "L2";
    assert "#0-#4" !in labels;
    FiveTokens(rev);
    NamedSingle(rev, labels, "L2", 2);
  }

  lemma FiveTokens(rev: Revision)
    ensures ParseIntervals(rev, "#0-#4") == Ok(Some([Interval(0, 4)]))
    ensures LabelKey(rev, "L2", 2)
  {
    assert NatToString(0) == "0" && NatToString(2) == "2" && NatToString(4) == "4";
    assert ("#" + NatToString(0)) + "-" + ("#" + NatToString(4)) == "#0-#4";
    assert ['L'] + NatToString(2) == "L2";
    ParseRange(rev, 0, 4);
    LabelToken(rev, 2);
  }

  /** Include "#0-#4,#6-#7", exclude "L0", "L2" and "L7". */
  lemma TwoRangesThreeNames(rev: Revision)
    ensures FilteredLabels(rev, ["L0", "L1", "L2", "L3", "L4", "L5", "L6", "L7"],
      Filters(Some(["#0-#4,#6-#7"]), Some(["L0", "L2", "L7"]))) == Ok(["L1", "L3", "L4", "L6"])
  {
    var labels := ["L0", "L1", "L2", "L3", "L4", "L5", "L6", "L7"];
    assert Picked(labels, [1, 3, 4, 6]) == ["L1", "L3", "L4", "L6"];
    EightPositions(labels);
    EightKeys(rev);
    RangeMinusNames(rev, labels, "#0-#4,#6-#7", [Interval(0, 4), Interval(6, 7)], ["L0", "L2", "L7"], [0, 2, 7], [1, 3, 4, 6]);
  }

  lemma EightPositions(labels: seq<string>)
    requires |labels| == 8
    ensures KeptPositions(labels, [Interval(0, 4), Interval(6, 7)], [0, 2, 7], [1, 3, 4, 6])
  {
    var p := [1, 3, 4, 6];
    forall n | 0 <= n < |labels|
      ensures InIntervals(n, [Interval(0, 4), Interval(6, 7)]) && n !in [0, 2, 7] <==> n in p
    {
    }
  }

  lemma EightKeys(rev: Revision)
    ensures RangeKey(rev, ["L0", "L1", "L2", "L3", "L4", "L5", "L6", "L7"], "#0-#4,#6-#7", [Interval(0, 4), Interval(6, 7)])
    ensures NamedKey(rev, ["L0", "L1", "L2", "L3", "L4", "L5", "L6", "L7"], ["L0", "L2", "L7"], [0, 2, 7])
  {
    var labels := ["L0", "L1", "L2", "L3", "L4", "L5", "L6", "L7"];
    assert labels[0] == "L0" && labels[2] == "L2" && labels[7] == "L7";
    assert FirstOccurrence(labels, 0) && FirstOccurrence(labels, 2) && FirstOccurrence(labels, 7);
    assert "#0-#4,#6-#7" !in labels;
    LabelKeys(rev);
    TwoRangesKey(rev, labels);
    NamedTriple(rev, labels, "L0", 0, "L2", 2, "L7", 7);
  }

  lemma LabelKeys(rev: Revision)
    ensures LabelKey(rev, "L0", 0) && LabelKey(rev, "L2", 2) && LabelKey(rev, "L7", 7)
  {
    assert NatToString(0) == "0" && NatToString(2) == "2" && NatToString(7) == "7";
    assert ['L'] + NatToString(0) == "L0" && ['L'] + NatToString(2) == "L2" && ['L'] + NatToString(7) == "L7";
    LabelToken(rev, 0);
    LabelToken(rev, 2);
    LabelToken(rev, 7);
  }

  lemma TwoRangesKey(rev: Revision, labels: seq<string>)
    requires "#0-#4,#6-#7" !in labels
    ensures RangeKey(rev, labels, "#0-#4,#6-#7", [Interval(0, 4), Interval(6, 7)])
  {
    TwoRanges(rev);
  }

  lemma TwoRanges(rev: Revision)
    ensures ParseIntervals(rev, "#0-#4,#6-#7") == Ok(Some([Interval(0, 4), Interval(6, 7)]))
  {
    TwoRangesText();
    ParseFormatted(rev, [Interval(0, 4), Interval(6, 7)]);
  }

  lemma TwoRangesText()
    ensures FormatIntervals([Interval(0, 4), Interval(6, 7)]) == "#0-#4,#6-#7"
  {
    assert "#0-#4" + [','] + "#6-#7" == "#0-#4,#6-#7";
    assert NatToString(0) == "0" && NatToString(4) == "4" && NatToString(6) == "6" && NatToString(7) == "7";
    assert FormatInterval(Interval(0, 4)) == "#0-#4" && FormatInterval(Interval(6, 7)) == "#6-#7";
    assert FormatItems([Interval(0, 4), Interval(6, 7)]) == ["#0-#4", "#6-#7"];
    assert ["#0-#4", "#6-#7"][1..] == ["#6-#7"];
  }

  /** The same filter on labels that hold blanks and excluded by their full text. */
  lemma SpacedLabels(rev: Revision)
    ensures FilteredLabels(rev, ["L0 test", "L1 test 2", "L2 test 3", "L3", "L4", "L5", "L6 last", "L7"],
      Filters(Some(["#0-#4,#6-#7"]), Some(["L0 test", "L2 test 3", "L7"]))) == Ok(["L1 test 2", "L3", "L4", "L6 last"])
  {
    var labels := ["L0 test", "L1 test 2", "L2 test 3", "L3", "L4", "L5", "L6 last", "L7"];
    assert Picked(labels, [1, 3, 4, 6]) == ["L1 test 2", "L3", "L4", "L6 last"];
    EightPositions(labels);
    SpacedKeys(rev);
    RangeMinusNames(rev, labels, "#0-#4,#6-#7", [Interval(0, 4), Interval(6, 7)],
      ["L0 test", "L2 test 3", "L7"], [0, 2, 7], [1, 3, 4, 6]);
  }

  lemma SpacedKeys(rev: Revision)
    ensures RangeKey(rev, ["L0 test", "L1 test 2", "L2 test 3", "L3", "L4", "L5", "L6 last", "L7"],
      "#0-#4,#6-#7", [Interval(0, 4), Interval(6, 7)])
    ensures NamedKey(rev, ["L0 test", "L1 test 2", "L2 test 3", "L3", "L4", "L5", "L6 last", "L7"],
      ["L0 test", "L2 test 3", "L7"], [0, 2, 7])
  {
    var labels := ["L0 test", "L1 test 2", "L2 test 3", "L3", "L4", "L5", "L6 last", "L7"];
    assert labels[0] == "L0 test" && labels[2] == "L2 test 3" && labels[7] == "L7";
    assert FirstOccurrence(labels, 0) && FirstOccurrence(labels, 2) && FirstOccurrence(labels, 7);
    assert "#0-#4,#6-#7" !in labels;
    SpacedWords(rev);
    LabelKeys(rev);
    TwoRangesKey(rev, labels);
    NamedTriple(rev, labels, "L0 test", 0, "L2 test 3", 2, "L7", 7);
  }

  lemma SpacedWords(rev: Revision)
    ensures LabelKey(rev, "L0 test", 0) && LabelKey(rev, "L2 test 3", 2)
  {
    ZeroTestWord(rev);
    TwoTestWord(rev);
  }

  lemma ZeroTestWord(rev: Revision)
    ensures LabelKey(rev, "L0 test", 0)
  {
    assert Word("L0 test");
    SpacedKey(rev, "L0 test", 0, 2);
  }

  lemma TwoTestWord(rev: Revision)
    ensures LabelKey(rev, "L2 test 3", 2)
  {
    assert Word("L2 test 3");
    SpacedKey(rev, "L2 test 3", 2, 2);
  }

  /** Include "#0-#6", exclude "L5 msg:greetings": the key with a blank names
      its label and parses to nothing, so no error stops the filter. */
  lemma ErrorCondition(rev: Revision)
    ensures FilteredLabels(rev, ["L0", "L1", "L2", "L3", "L4", "L5 msg:greetings",
      "L6", "L7", "L8", "L9", "L10", "L11", "L12 msg:reply"],
      Filters(Some(["#0-#6"]), Some(["L5 msg:greetings"]))) == Ok(["L0", "L1", "L2", "L3", "L4", "L6"])
  {
    var labels := ["L0", "L1", "L2", "L3", "L4", "L5 msg:greetings",
      "L6", "L7", "L8", "L9", "L10", "L11", "L12 msg:reply"];
    assert Picked(labels, [0, 1, 2, 3, 4, 6]) == ["L0", "L1", "L2", "L3", "L4", "L6"];
    ThirteenPositions(labels);
    ThirteenKeys(rev);
    RangeMinusNames(rev, labels, "#0-#6", [Interval(0, 6)], ["L5 msg:greetings"], [5], [0, 1, 2, 3, 4, 6]);
  }

  lemma ThirteenPositions(labels: seq<string>)
    requires |labels| == 13
    ensures KeptPositions(labels, [Interval(0, 6)], [5], [0, 1, 2, 3, 4, 6])
  {
    var p := [0, 1, 2, 3, 4, 6];
    forall n | 0 <= n < |labels|
      ensures InIntervals(n, [Interval(0, 6)]) && n !in [5] <==> n in p
    {
    }
  }

  lemma ThirteenKeys(rev: Revision)
    ensures RangeKey(rev, ["L0", "L1", "L2", "L3", "L4", "L5 msg:greetings",
      "L6", "L7", "L8", "L9", "L10", "L11", "L12 msg:reply"], "#0-#6", [Interval(0, 6)])
    ensures NamedKey(rev, ["L0", "L1", "L2", "L3", "L4", "L5 msg:greetings",
      "L6", "L7", "L8", "L9", "L10", "L11", "L12 msg:reply"], ["L5 msg:greetings"], [5])
  {
    var labels := ["L0", "L1", "L2", "L3", "L4", "L5 msg:greetings",
      "L6", "L7", "L8", "L9", "L10", "L11", "L12 msg:reply"];
    assert FirstOccurrence(labels, 5) && labels[5] == "L5 msg:greetings";
    assert "#0-#6" !in labels;
    UpToSix(rev, labels);
    GreetingsWord(rev);
    NamedSingle(rev, labels, "L5 msg:greetings", 5);
  }

  lemma UpToSix(rev: Revision, labels: seq<string>)
    requires "#0-#6" !in labels
    ensures RangeKey(rev, labels, "#0-#6", [Interval(0, 6)])
  {
    assert NatToString(0) == "0" && NatToString(6) == "6";
    assert ("#" + NatToString(0)) + "-" + ("#" + NatToString(6)) == "#0-#6";
    ParseRange(rev, 0, 6);
  }

  lemma GreetingsWord(rev: Revision)
    ensures LabelKey(rev, "L5 msg:greetings", 5)
  {
    assert Word("L5 msg:greetings");
    SpacedKey(rev, "L5 msg:greetings", 5, 2);
  }
}
