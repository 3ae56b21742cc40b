/**
 * The interval mini-language of layer filters: "#0,#5-#10" denotes the
 * closed index intervals (0, 0) and (5, 10).  Two revisions of the parser
 * exist: the current one checks that every token starts with '#' (and
 * raises IndexError on an empty token), the flat one drops the first
 * character of every token without looking at it.
 */
module Intervals {
  import opened Base
  import opened Text

  datatype Revision = Current | Flat

  /** A closed interval of layer indexes. */
  datatype Interval = Interval(lower: int, upper: int)

  /** `is_number_in_intervals`: some interval contains n. */
  function InIntervals(n: int, ivs: seq<Interval>): (r: bool)
    ensures r <==> exists k :: 0 <= k < |ivs| && ivs[k].lower <= n <= ivs[k].upper
  {
    if ivs == [] then false
    else (ivs[0].lower <= n <= ivs[0].upper) || InIntervals(n, ivs[1..])
  }

  lemma InIntervalsAppend(n: int, a: seq<Interval>, b: seq<Interval>)
    ensures InIntervals(n, a + b) <==> InIntervals(n, a) || InIntervals(n, b)
  {
    if InIntervals(n, a + b) {
      var k :| 0 <= k < |a + b| && (a + b)[k].lower <= n <= (a + b)[k].upper;
      if k >= |a| {
        assert b[k - |a|] == (a + b)[k];
      }
    }
    if InIntervals(n, a) {
      var k :| 0 <= k < |a| && a[k].lower <= n <= a[k].upper;
      assert (a + b)[k] == a[k];
    }
    if InIntervals(n, b) {
      var k :| 0 <= k < |b| && b[k].lower <= n <= b[k].upper;
      assert (a + b)[|a| + k] == b[k];
    }
  }

  // ---------------------------------------------------------------------
  // Tokens of a comma item

  /** The dash-separated tokens of one comma item, each stripped. */
  function Tokens(item: string): (t: seq<string>)
    ensures |t| == |Split(item, '-')| && |t| >= 1
    ensures forall k :: 0 <= k < |t| ==> t[k] == Strip(Split(item, '-')[k])
  {
    var parts := Split(item, '-');
    seq(|parts|, k requires 0 <= k < |parts| => Strip(parts[k]))
  }

  /** An item has one token per dash plus one; no token holds a dash or
      starts or ends with a blank; an item without a dash is one token. */
  lemma TokensMeaning(item: string)
    ensures |Tokens(item)| == multiset(item)['-'] + 1
    ensures forall k :: 0 <= k < |Tokens(item)| ==>
      '-' !in Tokens(item)[k] &&
      (Tokens(item)[k] == [] || (!IsSpace(Tokens(item)[k][0]) && !IsSpace(Tokens(item)[k][|Tokens(item)[k]| - 1])))
    ensures '-' !in item ==> Tokens(item) == [Strip(item)]
  {
    SplitCount(item, '-');
    var parts := Split(item, '-');
    forall k | 0 <= k < |parts| ensures '-' !in Tokens(item)[k] {
      StripWithin(parts[k], '-');
    }
    if '-' !in item {
      SplitWithoutSep(item, '-');
    }
  }

  /** What `x[1:]` leaves of a token. */
  function Suffix(x: string): string {
    if |x| == 0 then [] else x[1..]
  }

  predicate Sentinelled(x: string) {
    |x| > 0 && x[0] == '#'
  }

  /** The current revision's first check over the tokens, in order: an
      empty token raises, a token not starting with '#' gives false. */
  function CheckSentinels(t: seq<string>): (r: Result<bool>)
    ensures r == Ok(true) <==> forall k :: 0 <= k < |t| ==> Sentinelled(t[k])
    ensures r.Err? <==> SentinelCrash(t)
    ensures r.Err? ==> r == Err(EmptyToken)
  {
    if t == [] then Ok(true)
    else if t[0] == [] then Err(EmptyToken)
    else if t[0][0] != '#' then Ok(false)
    else
      var r := CheckSentinels(t[1..]);
      assert SentinelCrash(t[1..]) ==> SentinelCrash(t) by {
        if j :| 0 <= j < |t[1..]| && t[1..][j] == [] && forall i :: 0 <= i < j ==> Sentinelled(t[1..][i]) {
          assert forall i :: 0 <= i < j + 1 ==> Sentinelled(t[i]) by {
            forall i | 0 <= i < j + 1 ensures Sentinelled(t[i]) {
              if i > 0 { assert t[i] == t[1..][i - 1]; }
            }
          }
          assert t[j + 1] == [];
        }
      }
      assert SentinelCrash(t) ==> SentinelCrash(t[1..]) by {
        if j :| 0 <= j < |t| && t[j] == [] && forall i :: 0 <= i < j ==> Sentinelled(t[i]) {
          assert j > 0;
          assert t[1..][j - 1] == [];
          assert forall i :: 0 <= i < j - 1 ==> Sentinelled(t[1..][i]) by {
            forall i | 0 <= i < j - 1 ensures Sentinelled(t[1..][i]) {
              assert t[1..][i] == t[i + 1];
            }
          }
        }
      }
      assert (forall k :: 0 <= k < |t[1..]| ==> Sentinelled(t[1..][k]))
          <==> (forall k :: 0 <= k < |t| ==> Sentinelled(t[k])) by {
        if forall k :: 0 <= k < |t[1..]| ==> Sentinelled(t[1..][k]) {
          forall k | 0 <= k < |t| ensures Sentinelled(t[k]) {
            if k > 0 { assert t[k] == t[1..][k - 1]; }
          }
        }
      }
      r
  }

  /** Some token is empty and every token before it starts with '#'. */
  ghost predicate SentinelCrash(t: seq<string>) {
    exists j :: 0 <= j < |t| && t[j] == [] && forall i :: 0 <= i < j ==> Sentinelled(t[i])
  }

  /** `[int(x[1:]) for x in tokens]`: None as soon as one suffix is not a number. */
  function ParseSuffixes(t: seq<string>): (r: Option<seq<nat>>)
    ensures r.Some? <==> forall k :: 0 <= k < |t| ==> ParseNat(Suffix(t[k])).Some?
    ensures r.Some? ==>
      |r.value| == |t| && forall k :: 0 <= k < |t| ==> Some(r.value[k]) == ParseNat(Suffix(t[k]))
  {
    if t == [] then Some([])
    else match ParseNat(Suffix(t[0]))
      case None => None
      case Some(v) =>
        match ParseSuffixes(t[1..])
        case None =>
          var k :| 0 <= k < |t[1..]| && !ParseNat(Suffix(t[1..][k])).Some?;
          assert t[k + 1] == t[1..][k];
          None
        case Some(vs) =>
          assert forall k :: 0 < k < |t| ==> t[k] == t[1..][k - 1];
          Some([v] + vs)
  }

  // ---------------------------------------------------------------------
  // One comma item

  /** A token the given revision accepts. */
  predicate WellFormedToken(rev: Revision, x: string) {
    (rev == Current ==> Sentinelled(x)) && ParseNat(Suffix(x)).Some?
  }

  /** Tokens the given revision turns into an interval: at most two, each accepted. */
  predicate WellFormedTokens(rev: Revision, t: seq<string>) {
    |t| <= 2 && forall k :: 0 <= k < |t| ==> WellFormedToken(rev, t[k])
  }

  /** A comma item the given revision turns into an interval. */
  predicate WellFormedItem(rev: Revision, item: string) {
    WellFormedTokens(rev, Tokens(item))
  }

  /** The interval that well-formed tokens denote: (N, N) for "#N", (N, M)
      for "#N-#M", bounds taken as written. */
  function TokensInterval(rev: Revision, t: seq<string>): Interval
    requires |t| >= 1 && WellFormedTokens(rev, t)
  {
    Interval(ParseNat(Suffix(t[0])).value, ParseNat(Suffix(t[|t| - 1])).value)
  }

  function ItemInterval(rev: Revision, item: string): Interval
    requires WellFormedItem(rev, item)
  {
    TokensInterval(rev, Tokens(item))
  }

  /** The tokens of one comma item: `Ok(Some(interval))`, `Ok(None)` where
      Python returns None, `Err` where it raises. */
  function ParseTokens(rev: Revision, t: seq<string>): (r: Result<Option<Interval>>)
    requires |t| >= 1
    ensures Yields(r) <==> WellFormedTokens(rev, t)
    ensures Yields(r) ==> r.value.value == TokensInterval(rev, t)
    ensures r.Err? <==> rev == Current && SentinelCrash(t)
    ensures r.Err? ==> r == Err(EmptyToken)
  {
    var marked :- if rev == Current then CheckSentinels(t) else Ok(true);
    if !marked then Ok(None)
    else match ParseSuffixes(t)
      case None => Ok(None)
      case Some(vs) =>
        if |vs| == 1 then Ok(Some(Interval(vs[0], vs[0])))
        else if |vs| == 2 then Ok(Some(Interval(vs[0], vs[1])))
        else Ok(None)
  }

  function ParseItem(rev: Revision, item: string): Result<Option<Interval>> {
    ParseTokens(rev, Tokens(item))
  }

  /** An item result that carries an interval. */
  predicate Yields(r: Result<Option<Interval>>) {
    r.Ok? && r.value.Some?
  }

  // ---------------------------------------------------------------------
  // The whole expression

  /** The item results before the first raising one all carry an interval. */
  ghost predicate FirstFailureRaises(rs: seq<Result<Option<Interval>>>) {
    exists j :: 0 <= j < |rs| && rs[j].Err? && forall i :: 0 <= i < j ==> Yields(rs[i])
  }

  /** The per-item results taken in order: the first item that does not
      yield an interval decides the outcome. */
  function Combine(rs: seq<Result<Option<Interval>>>): Result<Option<seq<Interval>>> {
    if rs == [] then Ok(Some([]))
    else if rs[0].Err? then Err(rs[0].error)
    else if rs[0].value.None? then Ok(None)
    else match Combine(rs[1..])
      case Ok(Some(ivs)) => Ok(Some([rs[0].value.value] + ivs))
      case other => other
  }

  /** All items yield, or the result is not a list at all: never partial. */
  lemma {:induction false} CombineYields(rs: seq<Result<Option<Interval>>>)
    ensures Yielded(Combine(rs)) <==> forall k :: 0 <= k < |rs| ==> Yields(rs[k])
    ensures Yielded(Combine(rs)) ==>
      |Combine(rs).value.value| == |rs| && forall k :: 0 <= k < |rs| ==> rs[k] == Ok(Some(Combine(rs).value.value[k]))
  {
    if rs != [] {
      CombineYields(rs[1..]);
      assert forall k :: 0 < k < |rs| ==> rs[k] == rs[1..][k - 1];
    }
  }

  /** The result raises exactly when the first item that does not yield raises. */
  lemma {:induction false} CombineCrash(rs: seq<Result<Option<Interval>>>)
    ensures Combine(rs).Err? <==> FirstFailureRaises(rs)
    ensures Combine(rs).Err? ==> exists k :: 0 <= k < |rs| && rs[k] == Err(Combine(rs).error)
  {
    if rs == [] {
    } else if rs[0].Err? {
    } else if rs[0].value.None? {
    } else {
      CombineCrash(rs[1..]);
      if j :| 0 <= j < |rs| && rs[j].Err? && forall i :: 0 <= i < j ==> Yields(rs[i]) {
        assert rs[1..][j - 1].Err?;
        forall i | 0 <= i < j - 1 ensures Yields(rs[1..][i]) {
          assert rs[1..][i] == rs[i + 1];
        }
      }
      if j :| 0 <= j < |rs[1..]| && rs[1..][j].Err? && forall i :: 0 <= i < j ==> Yields(rs[1..][i]) {
        assert rs[j + 1].Err?;
        forall i | 0 <= i < j + 1 ensures Yields(rs[i]) {
          if i > 0 { assert rs[i] == rs[1..][i - 1]; }
        }
      }
    }
  }

  /** Every comma item parsed on its own. */
  function ItemResults(rev: Revision, items: seq<string>): (rs: seq<Result<Option<Interval>>>)
    ensures |rs| == |items| && forall k :: 0 <= k < |items| ==> rs[k] == ParseItem(rev, items[k])
  {
    seq(|items|, k requires 0 <= k < |items| => ParseItem(rev, items[k]))
  }

  /** The comma items of an expression, parsed in order. */
  function ParseItems(rev: Revision, items: seq<string>): Result<Option<seq<Interval>>> {
    Combine(ItemResults(rev, items))
  }

  /** `parse_interval_string(s)`. */
  function ParseIntervals(rev: Revision, s: string): Result<Option<seq<Interval>>> {
    ParseItems(rev, Split(s, ','))
  }

  /** Some comma item raises, and every item before it is well formed. */
  ghost predicate ItemCrash(rev: Revision, items: seq<string>) {
    exists j :: 0 <= j < |items| && rev == Current && SentinelCrash(Tokens(items[j])) &&
      forall i :: 0 <= i < j ==> WellFormedItem(rev, items[i])
  }

  /** The comma items yield one interval each, in order, exactly when every
      item is well formed: a result is never partial. */
  lemma ParseItemsYield(rev: Revision, items: seq<string>)
    ensures Yielded(ParseItems(rev, items)) <==> forall k :: 0 <= k < |items| ==> WellFormedItem(rev, items[k])
    ensures Yielded(ParseItems(rev, items)) ==>
      |ParseItems(rev, items).value.value| == |items| &&
      forall k :: 0 <= k < |items| ==> ParseItems(rev, items).value.value[k] == ItemInterval(rev, items[k])
  {
    var rs := ItemResults(rev, items);
    CombineYields(rs);
    forall k | 0 <= k < |items|
      ensures Yields(rs[k]) <==> WellFormedItem(rev, items[k])
      ensures Yields(rs[k]) ==> rs[k].value.value == ItemInterval(rev, items[k])
    {
      assert rs[k] == ParseTokens(rev, Tokens(items[k]));
    }
  }

  /** The parse raises exactly when the first item that is not well formed
      has an empty token before any token lacking '#'; only the current
      revision can raise. */
  lemma ParseItemsCrash(rev: Revision, items: seq<string>)
    ensures ParseItems(rev, items).Err? <==> ItemCrash(rev, items)
    ensures ParseItems(rev, items).Err? ==> rev == Current
    ensures ParseItems(rev, items).Err? ==> ParseItems(rev, items) == Err(EmptyToken)
  {
    var rs := ItemResults(rev, items);
    CombineCrash(rs);
    ItemOutcomes(rev, items);
    if FirstFailureRaises(rs) {
      RaisingItem(rev, items);
    }
    if ItemCrash(rev, items) {
      CrashingItem(rev, items);
    }
  }

  /** What each item's own result says about it. */
  lemma ItemOutcomes(rev: Revision, items: seq<string>)
    ensures forall k :: 0 <= k < |items| ==>
      (Yields(ItemResults(rev, items)[k]) <==> WellFormedItem(rev, items[k])) &&
      (ItemResults(rev, items)[k].Err? <==> rev == Current && SentinelCrash(Tokens(items[k]))) &&
      (ItemResults(rev, items)[k].Err? ==> ItemResults(rev, items)[k] == Err(EmptyToken))
  {
    var rs := ItemResults(rev, items);
    forall k | 0 <= k < |items|
      ensures Yields(rs[k]) <==> WellFormedItem(rev, items[k])
      ensures rs[k].Err? <==> rev == Current && SentinelCrash(Tokens(items[k]))
      ensures rs[k].Err? ==> rs[k] == Err(EmptyToken)
    {
      assert rs[k] == ParseTokens(rev, Tokens(items[k]));
    }
  }

  lemma RaisingItem(rev: Revision, items: seq<string>)
    requires FirstFailureRaises(ItemResults(rev, items))
    ensures ItemCrash(rev, items)
  {
    var rs := ItemResults(rev, items);
    ItemOutcomes(rev, items);
    var j :| 0 <= j < |rs| && rs[j].Err? && forall i :: 0 <= i < j ==> Yields(rs[i]);
    assert rev == Current && SentinelCrash(Tokens(items[j]));
  }

  lemma CrashingItem(rev: Revision, items: seq<string>)
    requires ItemCrash(rev, items)
    ensures FirstFailureRaises(ItemResults(rev, items))
  {
    var rs := ItemResults(rev, items);
    ItemOutcomes(rev, items);
    var j :| 0 <= j < |items| && rev == Current && SentinelCrash(Tokens(items[j])) &&
      forall i :: 0 <= i < j ==> WellFormedItem(rev, items[i]);
    assert rs[j].Err?;
  }

  predicate Yielded(r: Result<Option<seq<Interval>>>) {
    r.Ok? && r.value.Some?
  }

  /** What remains of the parse of items[k..] once `done` has been parsed. */
  function Prepend(done: seq<Interval>, r: Result<Option<seq<Interval>>>): Result<Option<seq<Interval>>> {
    match r
    case Ok(Some(ivs)) => Ok(Some(done + ivs))
    case _ => r
  }

  /** Before the item loop: nothing found yet, every item still to go. */
  lemma CombineFrom(rs: seq<Result<Option<Interval>>>)
    ensures Combine(rs) == Prepend([], Combine(rs[0..]))
  {
    assert rs[0..] == rs;
    if Yielded(Combine(rs)) {
      assert [] + Combine(rs).value.value == Combine(rs).value.value;
    }
  }

  /** After the item loop: the intervals found are the whole result. */
  lemma CombineDone(rs: seq<Result<Option<Interval>>>, done: seq<Interval>)
    ensures Prepend(done, Combine(rs[|rs|..])) == Ok(Some(done))
  {
    assert rs[|rs|..] == [];
    assert done + [] == done;
  }

  /** One step of the item loop: a failing item ends the parse with its
      own outcome, an interval joins the intervals found so far. */
  lemma CombineStep(rs: seq<Result<Option<Interval>>>, k: nat, done: seq<Interval>)
    requires k < |rs|
    ensures rs[k].Err? ==> Prepend(done, Combine(rs[k..])) == Err(rs[k].error)
    ensures rs[k].Ok? && rs[k].value.None? ==> Prepend(done, Combine(rs[k..])) == Ok(None)
    ensures Yields(rs[k]) ==>
      Prepend(done, Combine(rs[k..])) == Prepend(done + [rs[k].value.value], Combine(rs[k + 1..]))
  {
    assert rs[k..][0] == rs[k];
    assert rs[k..][1..] == rs[k + 1..];
    if Yields(rs[k]) {
      var rest := Combine(rs[k + 1..]);
      if rest.Ok? && rest.value.Some? {
        assert done + ([rs[k].value.value] + rest.value.value) == done + [rs[k].value.value] + rest.value.value;
      }
    }
  }

  /** The body of the item loop of `parse_interval_string`: the '#' check
      (current revision only), then `int(x[1:])` for every token, then the
      token count. */
  method ParseItemTokens(rev: Revision, tokens: seq<string>) returns (r: Result<Option<Interval>>)
    requires |tokens| >= 1
    ensures r == ParseTokens(rev, tokens)
  {
    var j := 0;
    if rev == Current {
      while j < |tokens|
        invariant 0 <= j <= |tokens|
        invariant CheckSentinels(tokens) == CheckSentinels(tokens[j..])
      {
        assert tokens[j..][1..] == tokens[j + 1..];
        if tokens[j] == [] {
          return Err(EmptyToken);
        }
        if tokens[j][0] != '#' {
          return Ok(None);
        }
        j := j + 1;
      }
      assert tokens[j..] == [];
    }
    var values: seq<nat> := [];
    j := 0;
    while j < |tokens|
      invariant 0 <= j <= |tokens|
      invariant |values| == j
      invariant forall i :: 0 <= i < j ==> ParseNat(Suffix(tokens[i])) == Some(values[i])
    {
      var v := ParseNat(Suffix(tokens[j]));
      if v.None? {
        return Ok(None);
      }
      values := values + [v.value];
      j := j + 1;
    }
    var parsed := ParseSuffixes(tokens);
    assert parsed.Some?;
    assert |parsed.value| == |values|;
    assert forall i :: 0 <= i < j ==> parsed.value[i] == values[i];
    assert parsed.value == values;
    if |values| == 1 {
      r := Ok(Some(Interval(values[0], values[0])));
    } else if |values| == 2 {
      r := Ok(Some(Interval(values[0], values[1])));
    } else {
      r := Ok(None);
    }
  }

  /** `parse_interval_string` as the source writes it: the comma items in
      order, returning at the first item that yields no interval. */
  method ParseIntervalString(rev: Revision, s: string) returns (r: Result<Option<seq<Interval>>>)
    ensures r == ParseIntervals(rev, s)
  {
    var items := Split(s, ',');
    ghost var rs := ItemResults(rev, items);
    var intervals: seq<Interval> := [];
    var k := 0;
    CombineFrom(rs);
    while k < |items|
      invariant 0 <= k <= |items| == |rs|
      invariant Combine(rs) == Prepend(intervals, Combine(rs[k..]))
    {
      var item := ParseItemTokens(rev, Tokens(items[k]));
      assert rs[k] == item;
      CombineStep(rs, k, intervals);
      if item.Err? {
        return Err(item.error);
      }
      if item.value.None? {
        return Ok(None);
      }
      intervals := intervals + [item.value.value];
      k := k + 1;
    }
    CombineDone(rs, intervals);
    r := Ok(Some(intervals));
  }
}
