/**
 * Resolving an include/exclude specification against the ordered list of
 * layer labels of a drawing (`get_filters`, `get_filters_by_label` and
 * `get_filtered_layer_labels`, identical in both revisions apart from the
 * interval parser they call).
 */
module LabelFilter {
  import opened Base
  import opened Text
  import opened Intervals

  /** The `include` and `exclude` keys of a slide descriptor; `None` where
      the key is absent. */
  datatype Filters = Filters(toInclude: Option<seq<string>>, toExclude: Option<seq<string>>)

  // ---------------------------------------------------------------------
  // get_filters: the intervals of every expression of one key

  /** The outcome of parsing each expression on its own. */
  function ExprResults(rev: Revision, exprs: seq<string>): (rs: seq<Result<Option<seq<Interval>>>>)
    ensures |rs| == |exprs|
    ensures forall k {:trigger ParseIntervals(rev, exprs[k])} :: 0 <= k < |exprs| ==> rs[k] == ParseIntervals(rev, exprs[k])
  {
    seq(|exprs|, k requires 0 <= k < |exprs| => ParseIntervals(rev, exprs[k]))
  }

  /** The expressions' outcomes taken in order: a raising expression ends
      everything, one that gives None is skipped, the others are concatenated. */
  function Gather(rs: seq<Result<Option<seq<Interval>>>>): Result<seq<Interval>> {
    if rs == [] then Ok([])
    else if rs[0].Err? then Err(rs[0].error)
    else
      var rest :- Gather(rs[1..]);
      Ok(rs[0].value.GetOr([]) + rest)
  }

  /** `get_filters(filters, keyword)`: no key gives no interval. */
  function KeyIntervals(rev: Revision, exprs: Option<seq<string>>): Result<seq<Interval>> {
    match exprs
    case None => Ok([])
    case Some(es) => Gather(ExprResults(rev, es))
  }

  /** Some outcome raises. */
  predicate SomeRaises(rs: seq<Result<Option<seq<Interval>>>>) {
    exists j :: 0 <= j < |rs| && rs[j].Err?
  }

  /** Some outcome is a list of intervals that contains n. */
  predicate SomeCovers(rs: seq<Result<Option<seq<Interval>>>>, n: int) {
    exists j :: 0 <= j < |rs| && Yielded(rs[j]) && InIntervals(n, rs[j].value.value)
  }

  /** The gathered intervals raise exactly when some expression raises,
      and then with that expression's failure. */
  lemma {:induction false} GatherRaises(rs: seq<Result<Option<seq<Interval>>>>)
    ensures Gather(rs).Err? <==> SomeRaises(rs)
    ensures Gather(rs).Err? ==> exists j :: 0 <= j < |rs| && rs[j] == Err(Gather(rs).error)
  {
    if rs != [] && rs[0].Ok? {
      GatherRaises(rs[1..]);
      assert forall j :: 0 < j < |rs| ==> rs[j] == rs[1..][j - 1];
      if SomeRaises(rs) {
        var j :| 0 <= j < |rs| && rs[j].Err?;
        assert rs[1..][j - 1].Err?;
      }
    }
  }

  /** A number lies in the gathered intervals exactly when it lies in the
      intervals of some expression; expressions that give None add nothing. */
  lemma {:induction false} GatherCovers(rs: seq<Result<Option<seq<Interval>>>>, n: int)
    requires Gather(rs).Ok?
    ensures InIntervals(n, Gather(rs).value) <==> SomeCovers(rs, n)
  {
    if rs != [] {
      GatherCovers(rs[1..], n);
      var rest := Gather(rs[1..]).value;
      InIntervalsAppend(n, rs[0].value.GetOr([]), rest);
      assert forall j :: 0 < j < |rs| ==> rs[j] == rs[1..][j - 1];
      if SomeCovers(rs, n) {
        var j :| 0 <= j < |rs| && Yielded(rs[j]) && InIntervals(n, rs[j].value.value);
        if j > 0 {
          assert SomeCovers(rs[1..], n);
        }
      }
    }
  }

  // ---------------------------------------------------------------------
  // get_filters_by_label: tokens that name a label

  /** `labels.index(x)`: the position of the first label equal to x. */
  function FirstIndex(labels: seq<string>, x: string): (i: nat)
    requires x in labels
    ensures i < |labels| && labels[i] == x
    ensures forall k :: 0 <= k < i ==> labels[k] != x
  {
    if labels[0] == x then 0 else 1 + FirstIndex(labels[1..], x)
  }

  /** No earlier label is equal to the one at position n. */
  predicate FirstOccurrence(labels: seq<string>, n: int)
    requires 0 <= n < |labels|
  {
    forall k :: 0 <= k < n ==> labels[k] != labels[n]
  }

  /** One one-point interval per token equal to some label, in token order. */
  function LabelIntervals(labels: seq<string>, names: seq<string>): seq<Interval> {
    if names == [] then []
    else
      var head := if names[0] in labels then [Interval(FirstIndex(labels, names[0]), FirstIndex(labels, names[0]))] else [];
      head + LabelIntervals(labels, names[1..])
  }

  /** Position n is picked by label exactly when its label is named and no
      earlier label is the same: a label repeated in the drawing can only
      be picked at its first position. */
  lemma {:induction false} LabelIntervalsCover(labels: seq<string>, names: seq<string>, n: int)
    ensures InIntervals(n, LabelIntervals(labels, names)) <==>
      0 <= n < |labels| && labels[n] in names && FirstOccurrence(labels, n)
  {
    if names != [] {
      var rest := names[1..];
      LabelIntervalsCover(labels, rest, n);
      var head := if names[0] in labels then [Interval(FirstIndex(labels, names[0]), FirstIndex(labels, names[0]))] else [];
      InIntervalsAppend(n, head, LabelIntervals(labels, rest));
      HeadCover(labels, names[0], n);
      if 0 <= n < |labels| {
        NamesSplit(names, labels[n]);
      }
    }
  }

  /** The interval a single name contributes covers n exactly when n is the
      first position of that name. */
  lemma HeadCover(labels: seq<string>, x: string, n: int)
    ensures InIntervals(n, if x in labels then [Interval(FirstIndex(labels, x), FirstIndex(labels, x))] else []) <==>
      0 <= n < |labels| && labels[n] == x && FirstOccurrence(labels, n)
  {
    if x in labels {
      var i := FirstIndex(labels, x);
      assert InIntervals(n, [Interval(i, i)]) <==> n == i;
    }
  }

  lemma NamesSplit(names: seq<string>, x: string)
    requires names != []
    ensures x in names <==> x == names[0] || x in names[1..]
  {
    if x in names && x != names[0] {
      var j :| 0 <= j < |names| && names[j] == x;
      assert names[1..][j - 1] == x;
    }
  }

  // ---------------------------------------------------------------------
  // get_filtered_layer_labels

  /** The intervals of one key: the parsed expressions, then the labels named. */
  function Selection(rev: Revision, labels: seq<string>, exprs: Option<seq<string>>): Result<seq<Interval>> {
    var parsed :- KeyIntervals(rev, exprs);
    Ok(parsed + LabelIntervals(labels, exprs.GetOr([])))
  }

  /** The label list after the in-place pass: a position not included, or
      excluded, becomes None. */
  function Nulled(labels: seq<string>, incl: seq<Interval>, excl: seq<Interval>): (r: seq<Option<string>>)
    ensures |r| == |labels|
  {
    seq(|labels|, i requires 0 <= i < |labels| =>
      if !InIntervals(i, incl) || InIntervals(i, excl) then None else Some(labels[i]))
  }

  /** `[x for x in xs if x is not None]`. */
  function Compact(xs: seq<Option<string>>): (r: seq<string>)
    ensures |r| <= |xs|
  {
    if xs == [] then []
    else if xs[0].None? then Compact(xs[1..])
    else [xs[0].value] + Compact(xs[1..])
  }

  /** `get_filtered_layer_labels(labels, filters)`. */
  function FilteredLabels(rev: Revision, labels: seq<string>, f: Filters): Result<seq<string>> {
    var incl :- Selection(rev, labels, f.toInclude);
    var excl :- Selection(rev, labels, f.toExclude);
    Ok(Compact(Nulled(labels, incl, excl)))
  }

  // ---------------------------------------------------------------------
  // What the filter means, stated on the tokens themselves

  /** Some token of the key selects position n: by an interval of its
      parse, or by being the first label at n. A missing key selects nothing. */
  ghost predicate Selects(rev: Revision, labels: seq<string>, exprs: Option<seq<string>>, n: int) {
    exprs.Some? &&
    (SomeCovers(ExprResults(rev, exprs.value), n) ||
     (0 <= n < |labels| && labels[n] in exprs.value && FirstOccurrence(labels, n)))
  }

  /** Position n survives: selected by the include key, not by the exclude key. */
  ghost predicate Kept(rev: Revision, labels: seq<string>, f: Filters, n: int) {
    Selects(rev, labels, f.toInclude, n) && !Selects(rev, labels, f.toExclude, n)
  }

  ghost function KeptMask(rev: Revision, labels: seq<string>, f: Filters): (m: seq<bool>)
    ensures |m| == |labels|
  {
    seq(|labels|, i requires 0 <= i < |labels| => Kept(rev, labels, f, i))
  }

  /** The elements of xs at the positions the mask marks, in order. */
  function Restrict(xs: seq<string>, mask: seq<bool>): seq<string>
    requires |mask| == |xs|
  {
    if xs == [] then []
    else (if mask[0] then [xs[0]] else []) + Restrict(xs[1..], mask[1..])
  }

  /** Some token of the key raises (current revision only). */
  ghost predicate KeyRaises(rev: Revision, exprs: Option<seq<string>>) {
    exprs.Some? && SomeRaises(ExprResults(rev, exprs.value))
  }

  /** The selection of a key: raises exactly when a token raises, and
      otherwise contains n exactly when the key selects n. */
  lemma SelectionMeaning(rev: Revision, labels: seq<string>, exprs: Option<seq<string>>, n: int)
    ensures Selection(rev, labels, exprs).Err? <==> KeyRaises(rev, exprs)
    ensures Selection(rev, labels, exprs).Ok? ==>
      (InIntervals(n, Selection(rev, labels, exprs).value) <==> Selects(rev, labels, exprs, n))
  {
    if exprs.Some? {
      var rs := ExprResults(rev, exprs.value);
      GatherRaises(rs);
      if Gather(rs).Ok? {
        GatherCovers(rs, n);
        LabelIntervalsCover(labels, exprs.value, n);
        InIntervalsAppend(n, Gather(rs).value, LabelIntervals(labels, exprs.value));
      }
    }
  }

  /** The filter raises exactly when a token of either key raises. */
  lemma FilteredRaises(rev: Revision, labels: seq<string>, f: Filters)
    ensures FilteredLabels(rev, labels, f).Err? <==> KeyRaises(rev, f.toInclude) || KeyRaises(rev, f.toExclude)
  {
    SelectionMeaning(rev, labels, f.toInclude, 0);
    SelectionMeaning(rev, labels, f.toExclude, 0);
  }

  /** Only the current revision raises, and always with the empty-token failure. */
  lemma KeyRaisesCurrent(rev: Revision, exprs: Option<seq<string>>)
    requires KeyRaises(rev, exprs)
    ensures rev == Current
  {
    var rs := ExprResults(rev, exprs.value);
    var j :| 0 <= j < |rs| && rs[j].Err?;
    ParseItemsCrash(rev, Split(exprs.value[j], ','));
  }

  /** The filtered labels are the labels at the kept positions, in their
      original order. */
  lemma FilteredMeaning(rev: Revision, labels: seq<string>, f: Filters)
    requires FilteredLabels(rev, labels, f).Ok?
    ensures FilteredLabels(rev, labels, f).value == Restrict(labels, KeptMask(rev, labels, f))
  {
    var incl := Selection(rev, labels, f.toInclude).value;
    var excl := Selection(rev, labels, f.toExclude).value;
    var mask := KeptMask(rev, labels, f);
    forall i | 0 <= i < |labels|
      ensures Nulled(labels, incl, excl)[i] == if mask[i] then Some(labels[i]) else None
    {
      SelectionMeaning(rev, labels, f.toInclude, i);
      SelectionMeaning(rev, labels, f.toExclude, i);
    }
    CompactMasked(labels, mask, Nulled(labels, incl, excl));
  }

  lemma {:induction false} CompactMasked(xs: seq<string>, mask: seq<bool>, ys: seq<Option<string>>)
    requires |mask| == |xs| == |ys|
    requires forall i :: 0 <= i < |xs| ==> ys[i] == if mask[i] then Some(xs[i]) else None
    ensures Compact(ys) == Restrict(xs, mask)
  {
    if xs != [] {
      CompactMasked(xs[1..], mask[1..], ys[1..]);
    }
  }

  // ---------------------------------------------------------------------
  // Consequences

  /** Restrict keeps exactly the marked elements: the result is a
      subsequence, empty when nothing is marked. */
  lemma {:induction false} RestrictNone(xs: seq<string>, mask: seq<bool>)
    requires |mask| == |xs| && forall i :: 0 <= i < |mask| ==> !mask[i]
    ensures Restrict(xs, mask) == []
  {
    if xs != [] {
      RestrictNone(xs[1..], mask[1..]);
    }
  }

  /** Every marked element is in the result, and every element of the
      result comes from a marked position. */
  lemma {:induction false} RestrictMembers(xs: seq<string>, mask: seq<bool>, x: string)
    requires |mask| == |xs|
    ensures x in Restrict(xs, mask) <==> exists i :: 0 <= i < |xs| && mask[i] && xs[i] == x
  {
    if xs != [] {
      RestrictMembers(xs[1..], mask[1..], x);
      if exists i :: 0 <= i < |xs| && mask[i] && xs[i] == x {
        var i :| 0 <= i < |xs| && mask[i] && xs[i] == x;
        if i > 0 {
          assert mask[1..][i - 1] && xs[1..][i - 1] == x;
        }
      }
      if exists i :: 0 <= i < |xs[1..]| && mask[1..][i] && xs[1..][i] == x {
        var i :| 0 <= i < |xs[1..]| && mask[1..][i] && xs[1..][i] == x;
        assert mask[i + 1] && xs[i + 1] == x;
      }
    }
  }

  /** The elements of xs at the positions p, in the order of p. */
  function Picked(xs: seq<string>, p: seq<int>): (r: seq<string>)
    requires forall j :: 0 <= j < |p| ==> 0 <= p[j] < |xs|
    ensures |r| == |p| && forall j :: 0 <= j < |p| ==> r[j] == xs[p[j]]
  {
    seq(|p|, j requires 0 <= j < |p| => xs[p[j]])
  }

  /** Every position one lower. */
  function Lowered(p: seq<int>): (r: seq<int>)
    ensures |r| == |p| && forall j :: 0 <= j < |p| ==> r[j] == p[j] - 1
  {
    seq(|p|, j requires 0 <= j < |p| => p[j] - 1)
  }

  /** With the marked positions listed in increasing order, the result is
      the elements at those positions, in that order. */
  lemma {:induction false} RestrictAt(xs: seq<string>, mask: seq<bool>, p: seq<int>)
    requires |mask| == |xs|
    requires forall j :: 0 <= j < |p| ==> 0 <= p[j] < |xs|
    requires forall j, k :: 0 <= j < k < |p| ==> p[j] < p[k]
    requires forall i :: 0 <= i < |xs| ==> (mask[i] <==> i in p)
    ensures Restrict(xs, mask) == Picked(xs, p)
  {
    if xs == [] {
      assert |p| == 0;
    } else {
      var rest := if mask[0] then p[1..] else p;
      if mask[0] {
        assert forall k :: 0 < k < |p| ==> p[0] < p[k];
        var j :| 0 <= j < |p| && p[j] == 0;
        assert j == 0;
        assert p == [0] + rest;
      } else {
        assert forall j :: 0 <= j < |p| ==> p[j] != 0;
      }
      assert forall i :: 0 < i < |xs| ==> (i in p <==> i in rest);
      var q := Lowered(rest);
      forall i | 0 <= i < |xs| - 1
        ensures mask[1..][i] <==> i in q
      {
        LoweredMembers(rest, i);
      }
      RestrictAt(xs[1..], mask[1..], q);
      assert Restrict(xs, mask) == (if mask[0] then [xs[0]] else []) + Picked(xs[1..], q);
      Unshift(xs, rest, mask[0]);
      assert p == if mask[0] then [0] + rest else rest;
    }
  }

  lemma LoweredMembers(ps: seq<int>, i: int)
    ensures i in Lowered(ps) <==> i + 1 in ps
  {
    if i + 1 in ps {
      var j :| 0 <= j < |ps| && ps[j] == i + 1;
      assert Lowered(ps)[j] == i;
    }
  }

  /** Putting back the first element, and the positions one higher. */
  lemma Unshift(xs: seq<string>, rest: seq<int>, first: bool)
    requires xs != [] && forall j :: 0 <= j < |rest| ==> 1 <= rest[j] < |xs|
    ensures (if first then [xs[0]] else []) + Picked(xs[1..], Lowered(rest))
      == Picked(xs, if first then [0] + rest else rest)
  {
  }

  /** The result holds exactly one label per marked position. */
  lemma {:induction false} RestrictLength(xs: seq<string>, mask: seq<bool>)
    requires |mask| == |xs|
    ensures |Restrict(xs, mask)| == CountTrue(mask)
  {
    if xs != [] {
      RestrictLength(xs[1..], mask[1..]);
    }
  }

  function CountTrue(mask: seq<bool>): (c: nat)
    ensures c <= |mask|
  {
    if mask == [] then 0 else (if mask[0] then 1 else 0) + CountTrue(mask[1..])
  }

  /** Without an include key nothing is kept. */
  lemma NoIncludeKeepsNothing(rev: Revision, labels: seq<string>, f: Filters)
    requires f.toInclude.None? && FilteredLabels(rev, labels, f).Ok?
    ensures FilteredLabels(rev, labels, f).value == []
  {
    FilteredMeaning(rev, labels, f);
    RestrictNone(labels, KeptMask(rev, labels, f));
  }

  /** A label that occurs once in the drawing is in the result exactly
      when its position is kept. */
  lemma KeptLabel(rev: Revision, labels: seq<string>, f: Filters, n: nat)
    requires FilteredLabels(rev, labels, f).Ok? && n < |labels|
    requires forall k :: 0 <= k < |labels| && k != n ==> labels[k] != labels[n]
    ensures labels[n] in FilteredLabels(rev, labels, f).value <==> Kept(rev, labels, f, n)
  {
    FilteredMeaning(rev, labels, f);
    RestrictMembers(labels, KeptMask(rev, labels, f), labels[n]);
  }

  /** Exclusion wins: a label that occurs once and that the exclude key
      selects is not in the result, whatever the include key says. */
  lemma ExclusionWins(rev: Revision, labels: seq<string>, f: Filters, n: nat)
    requires FilteredLabels(rev, labels, f).Ok? && n < |labels|
    requires forall k :: 0 <= k < |labels| && k != n ==> labels[k] != labels[n]
    requires Selects(rev, labels, f.toExclude, n)
    ensures labels[n] !in FilteredLabels(rev, labels, f).value
  {
    KeptLabel(rev, labels, f, n);
  }

  // ---------------------------------------------------------------------
  // The source's loops

  /** `get_filters`: the expressions in order, returning at the first that raises. */
  method GetFilters(rev: Revision, exprs: Option<seq<string>>) returns (r: Result<seq<Interval>>)
    ensures r == KeyIntervals(rev, exprs)
  {
    if exprs.None? {
      return Ok([]);
    }
    var es := exprs.value;
    ghost var rs := ExprResults(rev, es);
    var filt: seq<Interval> := [];
    var k := 0;
    assert rs[0..] == rs;
    PrefixedNothing(Gather(rs));
    while k < |es|
      invariant 0 <= k <= |es|
      invariant Gather(rs) == Prefixed(filt, Gather(rs[k..]))
    {
      var ivs := ParseIntervalString(rev, es[k]);
      assert rs[k..][0] == ivs && rs[k..][1..] == rs[k + 1..];
      if ivs.Err? {
        return Err(ivs.error);
      }
      PrefixedAssoc(filt, ivs.value.GetOr([]), Gather(rs[k + 1..]));
      filt := filt + ivs.value.GetOr([]);
      k := k + 1;
    }
    assert rs[k..] == [];
    assert filt + [] == filt;
    r := Ok(filt);
  }

  /** What remains of the gathered intervals once `done` has been collected. */
  function Prefixed(done: seq<Interval>, r: Result<seq<Interval>>): Result<seq<Interval>> {
    match r
    case Ok(ivs) => Ok(done + ivs)
    case Err(e) => Err(e)
  }

  lemma PrefixedNothing(r: Result<seq<Interval>>)
    ensures Prefixed([], r) == r
  {
    if r.Ok? {
      assert [] + r.value == r.value;
    }
  }

  lemma PrefixedAssoc(a: seq<Interval>, b: seq<Interval>, r: Result<seq<Interval>>)
    ensures Prefixed(a, Prefixed(b, r)) == Prefixed(a + b, r)
  {
    if r.Ok? {
      assert a + (b + r.value) == a + b + r.value;
    }
  }

  /** `get_filters_by_label`: one one-point interval per token naming a label. */
  method GetFiltersByLabel(labels: seq<string>, exprs: Option<seq<string>>) returns (filt: seq<Interval>)
    ensures filt == LabelIntervals(labels, exprs.GetOr([]))
  {
    filt := [];
    if exprs.None? {
      return;
    }
    var names := exprs.value;
    var k := 0;
    assert names[0..] == names;
    while k < |names|
      invariant 0 <= k <= |names|
      invariant LabelIntervals(labels, names) == filt + LabelIntervals(labels, names[k..])
    {
      assert names[k..][0] == names[k] && names[k..][1..] == names[k + 1..];
      if names[k] in labels {
        var index := FirstIndex(labels, names[k]);
        assert filt + LabelIntervals(labels, names[k..]) ==
          (filt + [Interval(index, index)]) + LabelIntervals(labels, names[k + 1..]);
        filt := filt + [Interval(index, index)];
      }
      k := k + 1;
    }
    assert names[k..] == [];
    assert filt + [] == filt;
  }

  /** `get_filtered_layer_labels(labels, filters)`: the caller's list is
      overwritten in place, None at every position not included or
      excluded, then the remaining labels are returned. A raising token
      leaves the list untouched. */
  method GetFilteredLayerLabels(rev: Revision, labels: array<Option<string>>, f: Filters) returns (r: Result<seq<string>>)
    requires forall i :: 0 <= i < labels.Length ==> labels[i].Some?
    modifies labels
    ensures r == FilteredLabels(rev, Names(old(labels[..])), f)
    ensures r.Ok? ==>
      Selection(rev, Names(old(labels[..])), f.toInclude).Ok? &&
      Selection(rev, Names(old(labels[..])), f.toExclude).Ok? &&
      labels[..] == Nulled(Names(old(labels[..])),
                           Selection(rev, Names(old(labels[..])), f.toInclude).value,
                           Selection(rev, Names(old(labels[..])), f.toExclude).value)
    ensures r.Err? ==> labels[..] == old(labels[..])
  {
    ghost var names := Names(labels[..]);
    var current := Strings(labels);
    assert current == names;
    var incl := GetFilters(rev, f.toInclude);
    if incl.Err? {
      return Err(incl.error);
    }
    var excl := GetFilters(rev, f.toExclude);
    if excl.Err? {
      return Err(excl.error);
    }
    var byInclude := GetFiltersByLabel(current, f.toInclude);
    var byExclude := GetFiltersByLabel(current, f.toExclude);
    var inc := incl.value + byInclude;
    var exc := excl.value + byExclude;
    NullOut(labels, names, inc, exc);
    var kept := CompactArray(labels);
    r := Ok(kept);
  }

  /** The loop of `get_filtered_layer_labels` that sets to None every
      position not included, or excluded. */
  method NullOut(labels: array<Option<string>>, ghost names: seq<string>, inc: seq<Interval>, exc: seq<Interval>)
    requires |names| == labels.Length
    requires forall k :: 0 <= k < labels.Length ==> labels[k] == Some(names[k])
    modifies labels
    ensures labels[..] == Nulled(names, inc, exc)
  {
    var i := 0;
    while i < labels.Length
      invariant 0 <= i <= labels.Length
      invariant forall k :: 0 <= k < i ==> labels[k] == Nulled(names, inc, exc)[k]
      invariant forall k :: i <= k < labels.Length ==> labels[k] == Some(names[k])
    {
      if !InIntervals(i, inc) {
        labels[i] := None;
      }
      if InIntervals(i, exc) {
        labels[i] := None;
      }
      i := i + 1;
    }
  }

  /** The labels of a list that holds no None. */
  function Names(xs: seq<Option<string>>): (r: seq<string>)
    requires forall i :: 0 <= i < |xs| ==> xs[i].Some?
    ensures |r| == |xs| && forall i :: 0 <= i < |xs| ==> xs[i] == Some(r[i])
  {
    seq(|xs|, i requires 0 <= i < |xs| => xs[i].value)
  }

  method Strings(a: array<Option<string>>) returns (r: seq<string>)
    requires forall i :: 0 <= i < a.Length ==> a[i].Some?
    ensures r == Names(a[..])
  {
    r := [];
    var i := 0;
    while i < a.Length
      invariant 0 <= i <= a.Length
      invariant |r| == i && forall k :: 0 <= k < i ==> a[k] == Some(r[k])
    {
      r := r + [a[i].value];
      i := i + 1;
    }
  }

  /** The list comprehension that drops the None entries. */
  method CompactArray(a: array<Option<string>>) returns (r: seq<string>)
    ensures r == Compact(a[..])
  {
    r := [];
    var i := 0;
    assert a[0..] == a[..];
    while i < a.Length
      invariant 0 <= i <= a.Length
      invariant Compact(a[..]) == r + Compact(a[i..])
    {
      assert a[i..][1..] == a[i + 1..];
      if a[i].Some? {
        assert r + ([a[i].value] + Compact(a[i + 1..])) == (r + [a[i].value]) + Compact(a[i + 1..]);
        r := r + [a[i].value];
      }
      i := i + 1;
    }
    assert r + [] == r;
  }
}
