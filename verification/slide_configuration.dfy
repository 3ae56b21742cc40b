/**
 * `SlideConfiguration` as written: an object holding the options, the
 * drawing, the configuration's file name template and export type, and the
 * list of made slides that its methods append to, edit and sort in place.
 * Every method is proved to compute what the functions of the Resolution
 * module say.
 */
module Configuration {
  import opened Base
  import opened Intervals
  import opened LabelFilter
  import opened Filenames
  import opened SvgFile
  import opened LayerEdits
  import opened Resolution

  /** `get_filtered_layer_labels` on a fresh list of labels (the list the
      caller builds with `get_labels`, which the call then overwrites). */
  method FilterFreshLabels(labels: seq<string>, f: Filters) returns (r: Result<seq<string>>)
    ensures r == FilteredLabels(Current, labels, f)
  {
    var a := new Option<string>[|labels|](i requires 0 <= i < |labels| => Some(labels[i]));
    assert Names(a[..]) == labels;
    r := GetFilteredLayerLabels(Current, a, f);
  }

  class SlideConfiguration {
    const options: Options
    const svgFile: Drawing
    const fnameFmt: string
    const exportType: string
    /** The made slides, in the order they are made, then sorted. */
    var slides: seq<Slide>

    /** What the methods read besides the slides. */
    function Setup(): Env {
      Env(options, svgFile, fnameFmt, exportType)
    }

    /** The state `__init__` is in once its three settings are loaded. */
    constructor (options: Options, svgFile: Drawing, fnameFmt: string, exportType: string)
      ensures this.options == options && this.svgFile == svgFile
      ensures this.fnameFmt == fnameFmt && this.exportType == exportType
      ensures slides == []
    {
      this.options := options;
      this.svgFile := svgFile;
      this.fnameFmt := fnameFmt;
      this.exportType := exportType;
      slides := [];
    }

    /** `SlideConfiguration(svg_file, config, options)`: loads the template,
        the export type and the slide list, in that order (the first missing
        key raises), then loads the slides. */
    static method Load(svgFile: Drawing, config: Config, options: Options) returns (r: Result<SlideConfiguration>)
      ensures r.Ok? <==> Configure(svgFile, config, options).Ok?
      ensures r.Err? ==> Configure(svgFile, config, options) == Err(r.error)
      ensures r.Ok? ==> fresh(r.value) && r.value.slides == Configure(svgFile, config, options).value
      ensures r.Ok? ==> r.value.options == options && r.value.svgFile == svgFile
    {
      if config.output.None? || config.output.value.filename.None? {
        return Err(MissingKey("output", "filename"));
      }
      var fmt := config.output.value.filename.value;
      if config.output.value.exportType.None? {
        return Err(MissingKey("output", "type"));
      }
      var kind := config.output.value.exportType.value;
      if config.output.value.slides.None? {
        return Err(MissingKey("output", "slides"));
      }
      var c := new SlideConfiguration(options, svgFile, fmt, kind);
      var loaded := c.LoadSlides(config.output.value.slides.value);
      if loaded.Err? {
        return Err(loaded.error);
      }
      r := Ok(c);
    }

    /** `load_slides`, called by `__init__` while no slide is made yet. */
    method LoadSlides(descs: seq<Descriptor>) returns (r: Result<bool>)
      requires slides == []
      modifies this
      ensures r.Ok? <==> Resolution.LoadSlides(Setup(), descs).Ok?
      ensures r.Err? ==> Resolution.LoadSlides(Setup(), descs) == Err(r.error)
      ensures r.Ok? ==> slides == Resolution.LoadSlides(Setup(), descs).value
    {
      if !UniqueNames(descs) {
        return Err(DuplicateName);
      }
      var chosen := descs;
      if options.stack {
        chosen := LoadStackedSlides();
      }
      assert chosen == Chosen(Setup(), descs);
      var pending := [];
      var index := 0;
      while index < |chosen|
        invariant 0 <= index <= |chosen|
        invariant pending == Numbered(chosen[..index])
      {
        pending := pending + [Pending(index, chosen[index])];
        index := index + 1;
      }
      assert chosen[..index] == chosen;
      var processed := ProcessSlides(pending);
      if processed.Err? {
        return Err(processed.error);
      }
      slides := SortById(slides);
      NameSlides();
      r := Ok(true);
    }

    /** The naming loop of `load_slides`: each slide's file name from its
        template, the drawing's base name and, when the template holds
        `%n`, its zero-padded position. */
    method NameSlides()
      modifies this
      ensures slides == Named(svgFile.basefilename, old(slides))
    {
      ghost var sorted := slides;
      var bn := svgFile.basefilename;
      var index := 0;
      while index < |slides|
        invariant 0 <= index <= |slides| == |sorted|
        invariant forall k :: 0 <= k < index ==> slides[k] == Named(bn, sorted)[k]
        invariant forall k :: index <= k < |slides| ==> slides[k] == sorted[k]
      {
        var slide := slides[index];
        var fnumber := FileNumber(slide.fnameFmt, index, |slides|);
        var name := ExpandFilename(slide.fnameFmt, Some(bn), Some("svg"), fnumber);
        slides := slides[index := slide.(filename := name)];
        index := index + 1;
      }
    }

    /** `load_stacked_slides`: descriptor i includes the labels at
        positions 0..i. */
    method LoadStackedSlides() returns (descs: seq<Descriptor>)
      ensures descs == StackedDescriptors(DrawingLabels(Setup()))
    {
      var labels := GetLabels(svgFile);
      descs := [];
      var i := 0;
      while i < |labels|
        invariant 0 <= i <= |labels|
        invariant |descs| == i
        invariant forall k :: 0 <= k < i ==> descs[k] == StackedDescriptors(labels)[k]
      {
        var layers := StackedLabels(labels, i);
        descs := descs + [Descriptor(None, None, Some(layers), None, None, None)];
        i := i + 1;
      }
    }

    /** `get_stacked_labels(counter)`: the labels up to position counter,
        collected until the loop breaks. */
    static method StackedLabels(labels: seq<string>, counter: nat) returns (layers: seq<string>)
      requires counter < |labels|
      ensures layers == labels[..counter + 1]
    {
      layers := [];
      var i := 0;
      while i < |labels|
        invariant 0 <= i <= counter + 1
        invariant layers == labels[..i]
      {
        if i <= counter {
          layers := layers + [labels[i]];
        } else {
          break;
        }
        i := i + 1;
      }
    }

    /** `filter_layers`: the labels the filter picks in the drawing are
        appended when missing (`add`) or have their first occurrence
        removed when present (`exclude`). The source edits the caller's
        list; here the edited list is returned. */
    method FilterLayers(filter: seq<string>, action: Action, layers: seq<string>) returns (r: Result<seq<string>>)
      ensures r == Resolution.FilterLayers(Setup(), filter, action, layers)
    {
      var labelsFil := GetLabels(svgFile);
      var picked := FilterFreshLabels(labelsFil, Filters(Some(filter), None));
      if picked.Err? {
        return Err(picked.error);
      }
      var layersFil := picked.value;
      var edited := layers;
      var i := 0;
      if action == Add {
        while i < |layersFil|
          invariant 0 <= i <= |layersFil|
          invariant AddAll(edited, layersFil[i..]) == AddAll(layers, layersFil)
        {
          if layersFil[i] !in edited {
            edited := edited + [layersFil[i]];
          }
          i := i + 1;
        }
      } else {
        while i < |layersFil|
          invariant 0 <= i <= |layersFil|
          invariant ExcludeAll(edited, layersFil[i..]) == ExcludeAll(layers, layersFil)
        {
          if layersFil[i] in edited {
            edited := RemoveFirst(edited, layersFil[i]);
          }
          i := i + 1;
        }
      }
      r := Ok(edited);
    }

    /** `make_slide`: the slide's settings and name, and its layers: those
        of every made slide carrying its base name, each followed by its
        own include and exclude edits; or, without a base, those its keys
        pick in the drawing. */
    method MakeSlide(p: Pending) returns (r: Result<Slide>)
      ensures r == Resolution.MakeSlide(Setup(), slides, p)
    {
      var d := p.desc;
      var fmt := Setting(options.outfile, d.filename, fnameFmt);
      var kind := Setting(options.exportType, d.exportType, exportType);
      var slideLabel := d.name.GetOr("");
      var labels := GetLabels(svgFile);
      var layers: seq<string> := [];
      if d.basedOn.Some? {
        var i := 0;
        while i < |slides|
          invariant 0 <= i <= |slides|
          invariant BasedOnLabels(Setup(), slides, d, []) == BasedOnLabels(Setup(), slides[i..], d, layers)
        {
          var madeSlide := slides[i];
          if d.basedOn == Some(madeSlide.name) {
            var j := 0;
            ghost var start := layers;
            while j < |madeSlide.layers|
              invariant 0 <= j <= |madeSlide.layers|
              invariant layers == start + LabelsOf(madeSlide.layers[..j])
            {
              layers := layers + [madeSlide.layers[j].inkLabel];
              j := j + 1;
            }
            assert madeSlide.layers[..j] == madeSlide.layers;
            if d.toInclude.Some? {
              var added := FilterLayers(d.toInclude.value, Add, layers);
              if added.Err? {
                return Err(added.error);
              }
              layers := added.value;
            }
            if d.toExclude.Some? {
              var kept := FilterLayers(d.toExclude.value, Exclude, layers);
              if kept.Err? {
                return Err(kept.error);
              }
              layers := kept.value;
            }
          }
          assert slides[i..][1..] == slides[i + 1..];
          i := i + 1;
        }
      } else {
        var picked := FilterFreshLabels(labels, Filters(d.toInclude, d.toExclude));
        if picked.Err? {
          return Err(picked.error);
        }
        layers := picked.value;
      }
      var layerObjs := GetFilteredLayerObjs(svgFile, layers);
      r := Ok(Slide(p.id, Some(""), fmt, slideLabel, kind, layerObjs));
    }

    /** `process_slides`: makes every ready descriptor, appending it at
        once; goes on with the rest while the round made something and
        something is left; raises when the round made nothing; then applies
        the global add and exclude options to every made slide. */
    method ProcessSlides(pending: seq<Pending>) returns (r: Result<bool>)
      modifies this
      ensures r.Ok? <==> Resolution.Process(Setup(), old(slides), pending).Ok?
      ensures r.Err? ==> Resolution.Process(Setup(), old(slides), pending) == Err(r.error)
      ensures r.Ok? ==> slides == Resolution.Process(Setup(), old(slides), pending).value
      decreases |pending|
    {
      var oldCount := |pending|;
      var i := 0;
      while i < |pending|
        invariant 0 <= i <= |pending|
        invariant Round(Setup(), old(slides), pending) == Round(Setup(), slides, pending[i..])
      {
        var slide := pending[i];
        if Ready(slides, slide.desc) {
          var created := MakeSlide(slide);
          if created.Err? {
            return Err(created.error);
          }
          slides := slides + [created.value];
        }
        assert pending[i..][1..] == pending[i + 1..];
        i := i + 1;
      }
      var rest := Remaining(slides, pending);
      var newCount := |rest|;
      if newCount != 0 && newCount != oldCount {
        var deep := ProcessSlides(rest);
        if deep.Err? {
          return Err(deep.error);
        }
      }
      if newCount == oldCount {
        return Err(BasedOnUnresolved);
      }
      if options.add.Some? {
        var added := FilterWithGlobals(options.add.value, Add);
        if added.Err? {
          return Err(added.error);
        }
      }
      if options.exclude.Some? {
        var kept := FilterWithGlobals(options.exclude.value, Exclude);
        if kept.Err? {
          return Err(kept.error);
        }
      }
      r := Ok(true);
    }

    /** `filter_with_globals`: each made slide's labels, edited by the
        option, become its layers. */
    method FilterWithGlobals(filter: seq<string>, action: Action) returns (r: Result<bool>)
      modifies this
      ensures r.Ok? <==> GlobalPass(Setup(), Some(filter), action, old(slides)).Ok?
      ensures r.Err? ==> GlobalPass(Setup(), Some(filter), action, old(slides)) == Err(r.error)
      ensures r.Ok? ==> slides == GlobalPass(Setup(), Some(filter), action, old(slides)).value
    {
      ghost var env := Setup();
      var orig := slides;
      var done: seq<Slide> := [];
      var k := 0;
      ThenNothing(GlobalPass(env, Some(filter), action, orig));
      while k < |orig|
        invariant 0 <= k <= |orig| && |done| == k
        invariant GlobalPass(env, Some(filter), action, orig) ==
          Then(done, GlobalPass(env, Some(filter), action, orig[k..]))
      {
        var edited := EditOne(filter, action, orig[k]);
        if edited.Err? {
          PassFails(env, filter, action, done, orig[k..]);
          return Err(edited.error);
        }
        PassGoesOn(env, filter, action, done, orig[k..]);
        done := done + [edited.value];
        assert orig[k..][1..] == orig[k + 1..];
        k := k + 1;
      }
      slides := done;
      r := Ok(true);
    }

    /** The body of `filter_with_globals` for one slide: its labels, edited
        by the option, become its layers. */
    method EditOne(filter: seq<string>, action: Action, slide: Slide) returns (r: Result<Slide>)
      ensures r == EditSlide(Setup(), filter, action, slide)
    {
      var layers := LabelsOf(slide.layers);
      var edited := FilterLayers(filter, action, layers);
      if edited.Err? {
        return Err(edited.error);
      }
      var layerObjs := GetFilteredLayerObjs(svgFile, edited.value);
      r := Ok(slide.(layers := layerObjs));
    }
  }

  /** A pass whose next slide fails to edit fails with that failure. */
  lemma {:induction false} PassFails(env: Env, filter: seq<string>, action: Action, done: seq<Slide>, rest: seq<Slide>)
    requires rest != [] && EditSlide(env, filter, action, rest[0]).Err?
    ensures Then(done, GlobalPass(env, Some(filter), action, rest)) == EditSlide(env, filter, action, rest[0]).PropagateFailure()
  {
  }

  /** A pass whose next slide edits goes on with that slide done. */
  lemma {:induction false} PassGoesOn(env: Env, filter: seq<string>, action: Action, done: seq<Slide>, rest: seq<Slide>)
    requires rest != [] && EditSlide(env, filter, action, rest[0]).Ok?
    ensures Then(done, GlobalPass(env, Some(filter), action, rest)) ==
      Then(done + [EditSlide(env, filter, action, rest[0]).value], GlobalPass(env, Some(filter), action, rest[1..]))
  {
    var head := EditSlide(env, filter, action, rest[0]).value;
    var tail := GlobalPass(env, Some(filter), action, rest[1..]);
    if tail.Ok? {
      assert done + ([head] + tail.value) == done + [head] + tail.value;
    }
  }

  lemma {:induction false} ThenNothing(rest: Result<seq<Slide>>)
    ensures Then([], rest) == rest
  {
    if rest.Ok? {
      assert [] + rest.value == rest.value;
    }
  }

  /** The slides edited so far, put before the result for the others. */
  function Then(done: seq<Slide>, rest: Result<seq<Slide>>): (r: Result<seq<Slide>>)
    ensures r.Ok? <==> rest.Ok?
    ensures r.Ok? ==> r.value == done + rest.value
    ensures r.Err? ==> r.error == rest.error
  {
    match rest
    case Ok(v) => Ok(done + v)
    case Err(e) => Err(e)
  }
}
