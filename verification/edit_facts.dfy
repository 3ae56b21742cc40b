/**
 * What the layer edits of the resolver guarantee: a filter only ever picks
 * labels of the drawing; the global add/exclude options, which
 * `process_slides` applies again at every level of its recursion, change
 * nothing the second time; a based-on slide holds its base's labels with
 * its own include added and its own exclude removed.
 */
module EditFacts {
  import opened Base
  import opened Intervals
  import opened LabelFilter
  import opened SvgFile
  import opened LayerEdits
  import opened Resolution

  // ---------------------------------------------------------------------
  // Picked labels are drawing labels

  /** The filter keeps labels from the list it is given. */
  lemma {:induction false} FilteredSubset(labels: seq<string>, f: Filters)
    requires FilteredLabels(Current, labels, f).Ok?
    ensures forall x :: x in FilteredLabels(Current, labels, f).value ==> x in labels
  {
    FilteredMeaning(Current, labels, f);
    forall x | x in FilteredLabels(Current, labels, f).value
      ensures x in labels
    {
      RestrictMembers(labels, KeptMask(Current, labels, f), x);
    }
  }

  /** Every label a filter picks is a label of the drawing. */
  lemma {:induction false} SelectedInDrawing(env: Env, filter: seq<string>)
    requires Selected(env, filter).Ok?
    ensures forall x :: x in Selected(env, filter).value ==> x in DrawingLabels(env)
  {
    FilteredSubset(DrawingLabels(env), Filters(Some(filter), None));
  }

  /** Labels of the drawing, turned into layer objects and back, come back
      unchanged. */
  lemma {:induction false} ObjectsKeepLabels(env: Env, labels: seq<string>)
    requires forall x :: x in labels ==> x in DrawingLabels(env)
    ensures LabelsOf(FilteredLayerObjs(env.drawing.layers, labels)) == labels
  {
    LabelRoundTrip(env.drawing.layers, labels);
    PresentAll(labels, DrawingLabels(env));
  }

  // ---------------------------------------------------------------------
  // The global options, slide by slide

  /** Both global edits applied to one slide, add first. */
  function BothEdits(env: Env, s: Slide): (r: Result<Slide>)
    ensures r.Ok? ==> r.value == s.(layers := r.value.layers)
  {
    var added :- if env.options.add.Some? then EditSlide(env, env.options.add.value, Add, s) else Ok(s);
    if env.options.exclude.Some? then EditSlide(env, env.options.exclude.value, Exclude, added) else Ok(added)
  }

  /** A pass succeeds exactly when there is no slide or the filter picks
      without raising, and then edits every slide on its own. */
  lemma {:induction false} GlobalPassPointwise(env: Env, filter: seq<string>, action: Action, slides: seq<Slide>)
    ensures GlobalPass(env, Some(filter), action, slides).Ok? <==> slides == [] || Selected(env, filter).Ok?
    ensures GlobalPass(env, Some(filter), action, slides).Ok? ==>
      forall k :: 0 <= k < |slides| ==>
        EditSlide(env, filter, action, slides[k]) == Ok(GlobalPass(env, Some(filter), action, slides).value[k])
  {
    if slides != [] {
      GlobalPassPointwise(env, filter, action, slides[1..]);
    }
  }

  /** Slide k of the global edits is slide k edited on its own. */
  lemma {:induction false} GlobalsPointwise(env: Env, slides: seq<Slide>)
    requires Globals(env, slides).Ok?
    ensures forall k :: 0 <= k < |slides| ==> BothEdits(env, slides[k]) == Ok(Globals(env, slides).value[k])
  {
    var added := GlobalPass(env, env.options.add, Add, slides).value;
    if env.options.add.Some? {
      GlobalPassPointwise(env, env.options.add.value, Add, slides);
    }
    if env.options.exclude.Some? {
      GlobalPassPointwise(env, env.options.exclude.value, Exclude, added);
    }
  }

  /** A slide whose labels are distinct labels of the drawing. */
  predicate Tidy(env: Env, s: Slide) {
    NoDuplicates(LabelsOf(s.layers)) && forall x :: x in LabelsOf(s.layers) ==> x in DrawingLabels(env)
  }

  lemma {:induction false} AddNothing(layers: seq<string>)
    ensures AddAll(layers, []) == layers
  {
  }

  /** On a tidy slide, the two global edits a second time change nothing. */
  lemma {:induction false} BothEditsIdempotent(env: Env, s: Slide)
    requires Tidy(env, s) && BothEdits(env, s).Ok?
    ensures BothEdits(env, BothEdits(env, s).value) == BothEdits(env, s)
  {
    var opts := env.options;
    var layers := env.drawing.layers;
    var labels := LabelsOf(s.layers);
    var g := BothEdits(env, s).value;
    var picked := if opts.add.Some? then Selected(env, opts.add.value).value else [];
    var dropped := if opts.exclude.Some? then Selected(env, opts.exclude.value).value else [];
    if opts.add.Some? {
      SelectedInDrawing(env, opts.add.value);
    }
    var grown := AddAll(labels, picked);
    AddAllMeaning(labels, picked);
    AddNothing(labels);
    ObjectsKeepLabels(env, grown);
    if opts.exclude.Some? {
      var once := ExcludeAll(grown, dropped);
      ExcludeAllDistinct(grown, dropped);
      ObjectsKeepLabels(env, once);
      assert g == s.(layers := FilteredLayerObjs(layers, once));
      AddExcludeIdempotent(labels, picked, dropped);
      AddAllMeaning(once, picked);
      ObjectsKeepLabels(env, AddAll(once, picked));
      AddNothing(once);
    } else if opts.add.Some? {
      assert g == s.(layers := FilteredLayerObjs(layers, grown));
      AddPresent(grown, picked);
    }
  }

  /** Applying the global add/exclude options to their own result changes
      nothing, as long as every slide's labels are distinct labels of the
      drawing: so the repeated application at each level of
      `process_slides` leaves the slides as one application would. */
  lemma {:induction false} GlobalsIdempotent(env: Env, slides: seq<Slide>)
    requires Globals(env, slides).Ok?
    requires forall s :: s in slides ==> Tidy(env, s)
    ensures Globals(env, Globals(env, slides).value) == Globals(env, slides)
  {
    var g := Globals(env, slides).value;
    GlobalsAgain(env, slides);
    var again := Globals(env, g).value;
    assert |GlobalPass(env, env.options.add, Add, slides).value| == |slides| == |g|;
    assert |GlobalPass(env, env.options.add, Add, g).value| == |g| == |again|;
    GlobalsPointwise(env, slides);
    GlobalsPointwise(env, g);
    forall k | 0 <= k < |g|
      ensures again[k] == g[k]
    {
      assert slides[k] in slides;
      BothEditsIdempotent(env, slides[k]);
    }
    assert again == g;
  }

  /** The global edits succeed on their own result. */
  lemma {:induction false} GlobalsAgain(env: Env, slides: seq<Slide>)
    requires Globals(env, slides).Ok?
    ensures Globals(env, Globals(env, slides).value).Ok?
  {
    var g := Globals(env, slides).value;
    var opts := env.options;
    var added := GlobalPass(env, opts.add, Add, slides).value;
    if opts.add.Some? {
      GlobalPassPointwise(env, opts.add.value, Add, slides);
      GlobalPassPointwise(env, opts.add.value, Add, g);
    }
    if opts.exclude.Some? {
      GlobalPassPointwise(env, opts.exclude.value, Exclude, added);
      GlobalPassPointwise(env, opts.exclude.value, Exclude, GlobalPass(env, opts.add, Add, g).value);
    }
  }

  // ---------------------------------------------------------------------
  // Based-on slides

  /** The labels a filter picks, or none when the key is absent. */
  function Picked(env: Env, key: Option<seq<string>>): seq<string>
    requires key.Some? ==> Selected(env, key.value).Ok?
  {
    if key.Some? then Selected(env, key.value).value else []
  }

  /** A based-on slide's own edits: on base labels without repeats the
      result has no repeats either, keeps the base labels that its exclude
      key does not pick, in order, and holds exactly the base labels and
      the labels its include key picks, minus those its exclude key picks. */
  lemma {:induction false} RefineMeaning(env: Env, d: Descriptor, base: seq<string>)
    requires NoDuplicates(base) && Refine(env, d, base).Ok?
    ensures d.toInclude.Some? ==> Selected(env, d.toInclude.value).Ok?
    ensures d.toExclude.Some? ==> Selected(env, d.toExclude.value).Ok?
    ensures var r := Refine(env, d, base).value;
      NoDuplicates(r) &&
      Without(base, Picked(env, d.toExclude)) <= r &&
      forall x :: x in r <==> (x in base || x in Picked(env, d.toInclude)) && x !in Picked(env, d.toExclude)
  {
    var inc := Picked(env, d.toInclude);
    var exc := Picked(env, d.toExclude);
    var grown := AddAll(base, inc);
    AddAllMeaning(base, inc);
    AddNothing(base);
    ExcludeAllDistinct(grown, exc);
    WithoutDistinct(grown, exc);
    var tail := grown[|base|..];
    assert grown == base + tail;
    WithoutAppend(base, tail, exc);
    assert ExcludeAll(grown, []) == grown;
    WithoutAbsent(grown, []);
  }

  /** No made slide carries the base name: the labels stay as they were. */
  lemma {:induction false} BasedOnNoMatch(env: Env, made: seq<Slide>, d: Descriptor, acc: seq<string>)
    requires forall s :: s in made ==> d.basedOn != Some(s.name)
    ensures BasedOnLabels(env, made, d, acc) == Ok(acc)
  {
    if made != [] {
      assert made[0] in made;
      BasedOnNoMatch(env, made[1..], d, acc);
    }
  }

  /** With exactly one made slide carrying the base name, a based-on slide
      gets that slide's labels refined by its own include and exclude keys. */
  lemma {:induction false} BasedOnSingle(env: Env, made: seq<Slide>, d: Descriptor, i: nat)
    requires i < |made| && d.basedOn == Some(made[i].name)
    requires forall k :: 0 <= k < |made| && k != i ==> made[k].name != made[i].name
    ensures BasedOnLabels(env, made, d, []) == Refine(env, d, LabelsOf(made[i].layers))
  {
    BasedOnPrefix(env, made, d, i);
    var r := Refine(env, d, LabelsOf(made[i].layers));
    if r.Ok? {
      forall s | s in made[i + 1..] ensures d.basedOn != Some(s.name) {
        var k :| 0 <= k < |made[i + 1..]| && made[i + 1..][k] == s;
        assert made[i + 1 + k] == s;
      }
      BasedOnNoMatch(env, made[i + 1..], d, r.value);
    }
  }

  /** The slides before the one at i leave the labels empty; the one at i
      refines its labels; the fold goes on from there. */
  lemma {:induction false} BasedOnPrefix(env: Env, made: seq<Slide>, d: Descriptor, i: nat)
    requires i < |made| && d.basedOn == Some(made[i].name)
    requires forall k :: 0 <= k < i ==> made[k].name != made[i].name
    ensures var r := Refine(env, d, LabelsOf(made[i].layers));
      BasedOnLabels(env, made, d, []) == if r.Ok? then BasedOnLabels(env, made[i + 1..], d, r.value) else r
  {
    if i > 0 {
      BasedOnPrefix(env, made[1..], d, i - 1);
      assert made[1..][i - 1..] == made[i..];
      assert made[1..][i - 1 + 1..] == made[i + 1..];
    } else {
      assert [] + LabelsOf(made[0].layers) == LabelsOf(made[0].layers);
    }
  }
}
