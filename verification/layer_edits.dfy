/**
 * The two list edits of `filter_layers`: `add` appends each selected label
 * that is not there yet, `exclude` removes the first occurrence of each
 * selected label that is there.
 */
module LayerEdits {

  predicate NoDuplicates(xs: seq<string>) {
    forall i, j :: 0 <= i < j < |xs| ==> xs[i] != xs[j]
  }

  /** The `add` loop: `if layer not in layers: layers.append(layer)`. */
  function AddAll(layers: seq<string>, selected: seq<string>): seq<string>
    decreases |selected|
  {
    if selected == [] then layers
    else AddAll(if selected[0] in layers then layers else layers + [selected[0]], selected[1..])
  }

  /** `list.remove(x)`: drops the first occurrence of x. */
  function RemoveFirst(xs: seq<string>, x: string): seq<string> {
    if xs == [] then []
    else if xs[0] == x then xs[1..]
    else [xs[0]] + RemoveFirst(xs[1..], x)
  }

  /** The `exclude` loop: `if layer in layers: layers.remove(layer)`. */
  function ExcludeAll(layers: seq<string>, selected: seq<string>): seq<string>
    decreases |selected|
  {
    if selected == [] then layers
    else ExcludeAll(if selected[0] in layers then RemoveFirst(layers, selected[0]) else layers, selected[1..])
  }

  /** The elements of xs that are not in drop, in order. */
  function Without(xs: seq<string>, drop: seq<string>): (r: seq<string>)
    ensures forall x :: x in r <==> x in xs && x !in drop
    ensures |r| <= |xs|
  {
    if xs == [] then []
    else if xs[0] in drop then Without(xs[1..], drop)
    else [xs[0]] + Without(xs[1..], drop)
  }

  // ---------------------------------------------------------------------
  // add

  /** What was there stays, in place, as a prefix; exactly the selected
      labels are added; no label is added twice. */
  lemma {:induction false} AddAllMeaning(layers: seq<string>, selected: seq<string>)
    ensures layers <= AddAll(layers, selected)
    ensures forall x :: x in AddAll(layers, selected) <==> x in layers || x in selected
    ensures NoDuplicates(layers) ==> NoDuplicates(AddAll(layers, selected))
    decreases |selected|
  {
    if selected != [] {
      var x := selected[0];
      var next := if x in layers then layers else layers + [x];
      AddAllMeaning(next, selected[1..]);
      assert selected == [x] + selected[1..];
      assert layers <= next;
    }
  }

  /** Adding labels that are all present changes nothing. */
  lemma {:induction false} AddPresent(layers: seq<string>, selected: seq<string>)
    requires forall x :: x in selected ==> x in layers
    ensures AddAll(layers, selected) == layers
    decreases |selected|
  {
    if selected != [] {
      AddPresent(layers, selected[1..]);
    }
  }

  /** Whatever `add` appends is a selected label that was missing. */
  lemma {:induction false} AddAllAppends(layers: seq<string>, selected: seq<string>)
    ensures var r := AddAll(layers, selected);
      layers <= r && forall k :: |layers| <= k < |r| ==> r[k] in selected && r[k] !in layers
    decreases |selected|
  {
    if selected != [] {
      var x := selected[0];
      var next := if x in layers then layers else layers + [x];
      AddAllAppends(next, selected[1..]);
      assert selected == [x] + selected[1..];
    }
  }

  // ---------------------------------------------------------------------
  // exclude

  lemma {:induction false} RemoveFirstMultiset(xs: seq<string>, x: string)
    ensures multiset(RemoveFirst(xs, x)) == multiset(xs) - multiset{x}
  {
    if xs != [] {
      assert xs == [xs[0]] + xs[1..];
      if xs[0] != x {
        RemoveFirstMultiset(xs[1..], x);
      }
    }
  }

  /** `exclude` takes away one occurrence per selected occurrence: as
      multisets, the result is the difference. */
  lemma {:induction false} ExcludeAllMultiset(layers: seq<string>, selected: seq<string>)
    ensures multiset(ExcludeAll(layers, selected)) == multiset(layers) - multiset(selected)
    decreases |selected|
  {
    if selected != [] {
      var x := selected[0];
      var next := if x in layers then RemoveFirst(layers, x) else layers;
      RemoveFirstMultiset(layers, x);
      ExcludeAllMultiset(next, selected[1..]);
      assert selected == [x] + selected[1..];
      assert multiset(selected) == multiset{x} + multiset(selected[1..]);
    }
  }

  lemma {:induction false} RemoveFirstDistinct(xs: seq<string>, x: string)
    requires NoDuplicates(xs)
    ensures RemoveFirst(xs, x) == Without(xs, [x])
  {
    if xs != [] {
      if xs[0] == x {
        WithoutAbsent(xs[1..], [x]);
      } else {
        RemoveFirstDistinct(xs[1..], x);
      }
    }
  }

  lemma {:induction false} WithoutAbsent(xs: seq<string>, drop: seq<string>)
    requires forall x :: x in xs ==> x !in drop
    ensures Without(xs, drop) == xs
  {
    if xs != [] {
      WithoutAbsent(xs[1..], drop);
      assert xs == [xs[0]] + xs[1..];
    }
  }

  lemma {:induction false} WithoutTwice(xs: seq<string>, a: seq<string>, b: seq<string>)
    ensures Without(Without(xs, a), b) == Without(xs, a + b)
  {
    if xs != [] {
      WithoutTwice(xs[1..], a, b);
    }
  }

  lemma {:induction false} WithoutDistinct(xs: seq<string>, drop: seq<string>)
    requires NoDuplicates(xs)
    ensures NoDuplicates(Without(xs, drop))
  {
    if xs != [] {
      WithoutDistinct(xs[1..], drop);
    }
  }

  /** On labels without repeats, `exclude` keeps, in order, exactly the
      labels that are not selected. */
  lemma {:induction false} ExcludeAllDistinct(layers: seq<string>, selected: seq<string>)
    requires NoDuplicates(layers)
    ensures ExcludeAll(layers, selected) == Without(layers, selected)
    decreases |selected|
  {
    if selected == [] {
      WithoutAbsent(layers, selected);
    } else {
      var x := selected[0];
      var next := if x in layers then RemoveFirst(layers, x) else layers;
      if x in layers {
        RemoveFirstDistinct(layers, x);
      } else {
        WithoutAbsent(layers, [x]);
      }
      WithoutDistinct(layers, [x]);
      ExcludeAllDistinct(next, selected[1..]);
      WithoutTwice(layers, [x], selected[1..]);
      assert [x] + selected[1..] == selected;
    }
  }

  // ---------------------------------------------------------------------
  // add, then exclude, twice

  lemma {:induction false} WithoutAppend(a: seq<string>, b: seq<string>, drop: seq<string>)
    ensures Without(a + b, drop) == Without(a, drop) + Without(b, drop)
  {
    if a != [] {
      WithoutAppend(a[1..], b, drop);
      assert (a + b)[1..] == a[1..] + b;
    } else {
      assert a + b == b;
    }
  }

  lemma {:induction false} WithoutAll(xs: seq<string>, drop: seq<string>)
    requires forall x :: x in xs ==> x in drop
    ensures Without(xs, drop) == []
  {
    if xs != [] {
      WithoutAll(xs[1..], drop);
    }
  }

  /** The add-then-exclude edit of the global options, applied a second
      time to its own result, changes nothing (on labels without repeats). */
  lemma AddExcludeIdempotent(layers: seq<string>, added: seq<string>, excluded: seq<string>)
    requires NoDuplicates(layers)
    ensures var once := ExcludeAll(AddAll(layers, added), excluded);
      ExcludeAll(AddAll(once, added), excluded) == once
  {
    var grown := AddAll(layers, added);
    AddAllMeaning(layers, added);
    ExcludeAllDistinct(grown, excluded);
    WithoutDistinct(grown, excluded);
    SecondPass(Without(grown, excluded), added, excluded);
  }

  /** Adding again only appends labels that the exclusion then removes. */
  lemma SecondPass(once: seq<string>, added: seq<string>, excluded: seq<string>)
    requires NoDuplicates(once)
    requires forall x :: x in once ==> x !in excluded
    requires forall x :: x in added ==> x in once || x in excluded
    ensures ExcludeAll(AddAll(once, added), excluded) == once
  {
    var again := AddAll(once, added);
    AddAllMeaning(once, added);
    AddAllAppends(once, added);
    ExcludeAllDistinct(again, excluded);
    var tail := again[|once|..];
    assert again == once + tail;
    assert forall x :: x in tail ==> x in excluded;
    WithoutAppend(once, tail, excluded);
    WithoutAbsent(once, excluded);
    WithoutAll(tail, excluded);
    assert once + [] == once;
  }
}
