/**
 * The flat revision's `process_config_file`: for every entry of
 * `output -> slides`, in order, a file name from the entry's own template
 * (or the global one) with the input's base name, the extension "svg" and
 * the entry's position; the labels its own include and exclude keys pick;
 * and the export type of the entry (or the global one). The drawing is
 * saved and converted once per entry; the file names are returned.
 */
module FlatProcessing {
  import opened Base
  import opened Text
  import opened Intervals
  import opened LabelFilter
  import opened Filenames
  import opened Resolution

  /** The configuration as the flat revision reads it: `input -> filename`
      and the `output` section. */
  datatype ConfigFile = ConfigFile(input: Option<string>, output: Option<Output>)

  /** What one entry hands to `save_svg` and `svg2file`: the file written,
      the type it is converted to, and the labels of the layers kept. */
  datatype Export = Export(filename: string, exportType: string, layers: seq<string>)

  /** The flat filter never raises: a token it cannot read selects nothing. */
  lemma {:induction false} FlatFilterNeverRaises(labels: seq<string>, f: Filters)
    ensures FilteredLabels(Flat, labels, f).Ok?
  {
    FilteredRaises(Flat, labels, f);
    if KeyRaises(Flat, f.toInclude) {
      KeyRaisesCurrent(Flat, f.toInclude);
    }
    if KeyRaises(Flat, f.toExclude) {
      KeyRaisesCurrent(Flat, f.toExclude);
    }
  }

  /** One entry at position `index`: the slide's `filename` and `type` keys
      override the global ones. A template that cannot be expanded gives
      `None`, on which the following `split_filename` call fails. */
  function SlideExport(outfile: string, destType: string, bn: Option<string>, labels: seq<string>,
                       index: nat, slide: Descriptor): (r: Result<Export>)
    ensures r.Err? ==> r.error == NoFilename
  {
    var fmt := slide.filename.GetOr(outfile);
    var kind := slide.exportType.GetOr(destType);
    var name := GetFilename(fmt, bn, Some("svg"), Some(NatToString(index)));
    if name.None? then Err(NoFilename)
    else
      FlatFilterNeverRaises(labels, Filters(slide.toInclude, slide.toExclude));
      var layers := FilteredLabels(Flat, labels, Filters(slide.toInclude, slide.toExclude)).value;
      Ok(Export(name.value, kind, layers))
  }

  /** Each entry's outcome, at its position. */
  function Entries(outfile: string, destType: string, bn: Option<string>, labels: seq<string>,
                   slides: seq<Descriptor>): (rs: seq<Result<Export>>)
    ensures |rs| == |slides|
    ensures forall k :: 0 <= k < |slides| ==> rs[k] == SlideExport(outfile, destType, bn, labels, k, slides[k])
  {
    seq(|slides|, k requires 0 <= k < |slides| => SlideExport(outfile, destType, bn, labels, k, slides[k]))
  }

  /** The outcomes taken in order, stopping at the first failure. */
  function Collect<T>(rs: seq<Result<T>>): (r: Result<seq<T>>)
    ensures r.Ok? ==> |r.value| == |rs|
    decreases |rs|
  {
    if rs == [] then Ok([])
    else if rs[0].Err? then Err(rs[0].error)
    else
      var rest :- Collect(rs[1..]);
      Ok([rs[0].value] + rest)
  }

  /** The whole call: the input file name, then the output template, type
      and slides, in that order; a missing one ends the call with `None`. */
  function Plan(conf: ConfigFile, labels: seq<string>): Result<seq<Export>> {
    if conf.input.None? then Err(MissingKey("input", "filename"))
    else if conf.output.None? || conf.output.value.filename.None? then Err(MissingKey("output", "filename"))
    else if conf.output.value.exportType.None? then Err(MissingKey("output", "type"))
    else if conf.output.value.slides.None? then Err(MissingKey("output", "slides"))
    else
      var out := conf.output.value;
      Collect(Entries(out.filename.value, out.exportType.value, SplitFilename(conf.input.value).basename,
                      labels, out.slides.value))
  }

  function ExportNames(exports: seq<Export>): (r: seq<string>)
    ensures |r| == |exports| && forall k :: 0 <= k < |r| ==> r[k] == exports[k].filename
  {
    seq(|exports|, k requires 0 <= k < |exports| => exports[k].filename)
  }

  /** `process_config_file(conf, args)` over the drawing's labels: the
      file names, and the exports made in order; on a failure, the exports
      made before it. */
  method ProcessConfigFile(conf: ConfigFile, labels: seq<string>) returns (r: Result<seq<string>>, written: seq<Export>)
    ensures r.Ok? <==> Plan(conf, labels).Ok?
    ensures r.Err? ==> Plan(conf, labels) == Err(r.error)
    ensures r.Ok? ==> written == Plan(conf, labels).value && r.value == ExportNames(written)
    ensures r.Err? && r.error.MissingKey? ==> written == []
    ensures r.Err? && r.error == NoFilename ==>
      var out := conf.output.value;
      |written| < |out.slides.value| &&
      (forall k :: 0 <= k < |written| ==>
        SlideExport(out.filename.value, out.exportType.value, SplitFilename(conf.input.value).basename,
                    labels, k, out.slides.value[k]) == Ok(written[k])) &&
      SlideExport(out.filename.value, out.exportType.value, SplitFilename(conf.input.value).basename,
                  labels, |written|, out.slides.value[|written|]).Err?
  {
    written := [];
    if conf.input.None? {
      return Err(MissingKey("input", "filename")), written;
    }
    var infile := conf.input.value;
    if conf.output.None? || conf.output.value.filename.None? {
      return Err(MissingKey("output", "filename")), written;
    }
    var outfile := conf.output.value.filename.value;
    if conf.output.value.exportType.None? {
      return Err(MissingKey("output", "type")), written;
    }
    var destType := conf.output.value.exportType.value;
    if conf.output.value.slides.None? {
      return Err(MissingKey("output", "slides")), written;
    }
    var slides := conf.output.value.slides.value;
    ghost var rs := Entries(outfile, destType, SplitFilename(infile).basename, labels, slides);
    r, written := ExportAll(outfile, destType, infile, labels, slides, rs);
    CollectPointwise(rs);
    if r.Ok? {
      assert written == Collect(rs).value;
    }
  }

  /** `rs` holds the outcome of every entry, at its position. */
  ghost predicate Outcomes(outfile: string, destType: string, bn: Option<string>, labels: seq<string>,
                           slides: seq<Descriptor>, rs: seq<Result<Export>>) {
    |rs| == |slides| &&
    forall k {:trigger SlideExport(outfile, destType, bn, labels, k, slides[k])} ::
      0 <= k < |slides| ==> rs[k] == SlideExport(outfile, destType, bn, labels, k, slides[k])
  }

  /** The loop of `process_config_file` over the entries: the file names
      and the exports in order, stopping at the first entry whose file
      name cannot be expanded. */
  method ExportAll(outfile: string, destType: string, infile: string, labels: seq<string>, slides: seq<Descriptor>,
                   ghost rs: seq<Result<Export>>)
    returns (r: Result<seq<string>>, written: seq<Export>)
    requires Outcomes(outfile, destType, SplitFilename(infile).basename, labels, slides, rs)
    ensures |written| <= |slides|
    ensures forall k :: 0 <= k < |written| ==> rs[k] == Ok(written[k])
    ensures r.Ok? ==> |written| == |slides| && r.value == ExportNames(written)
    ensures r.Err? ==> r.error == NoFilename && |written| < |slides| && rs[|written|].Err?
  {
    written := [];
    var filenames: seq<string> := [];
    var index := 0;
    while index < |slides|
      invariant 0 <= index <= |slides| && |written| == index
      invariant forall k :: 0 <= k < index ==> rs[k] == Ok(written[k])
      invariant filenames == ExportNames(written)
    {
      var entry := ExportAt(outfile, destType, infile, labels, slides, rs, index);
      if entry.Err? {
        return Err(entry.error), written;
      }
      filenames := filenames + [entry.value.filename];
      written := written + [entry.value];
      index := index + 1;
    }
    r := Ok(filenames);
  }

  /** One pass of the loop, up to the save and the conversion: the entry
      at `index` has the outcome `rs` records for it. */
  method ExportAt(outfile: string, destType: string, infile: string, labels: seq<string>, slides: seq<Descriptor>,
                  ghost rs: seq<Result<Export>>, index: nat) returns (entry: Result<Export>)
    requires Outcomes(outfile, destType, SplitFilename(infile).basename, labels, slides, rs)
    requires index < |slides|
    ensures entry == rs[index]
    ensures entry.Err? ==> entry.error == NoFilename
  {
    entry := ExportEntry(outfile, destType, infile, labels, index, slides[index]);
  }

  /** The body of the loop of `process_config_file` for the entry at
      position `index`, up to the save and the conversion. */
  method ExportEntry(outfile: string, destType: string, infile: string, labels: seq<string>,
                     index: nat, slide: Descriptor) returns (r: Result<Export>)
    ensures r == SlideExport(outfile, destType, SplitFilename(infile).basename, labels, index, slide)
  {
    var slideFilenameFmt := outfile;
    if slide.filename.Some? {
      slideFilenameFmt := slide.filename.value;
    }
    var typeSlide := destType;
    if slide.exportType.Some? {
      typeSlide := slide.exportType.value;
    }
    var bn := SplitFilename(infile).basename;
    var slideFilename := ExpandFilename(slideFilenameFmt, bn, Some("svg"), Some(NatToString(index)));
    if slideFilename.None? {
      return Err(NoFilename);
    }
    var copy := new Option<string>[|labels|](i requires 0 <= i < |labels| => Some(labels[i]));
    assert Names(copy[..]) == labels;
    var layers := GetFilteredLayerLabels(Flat, copy, Filters(slide.toInclude, slide.toExclude));
    FlatFilterNeverRaises(labels, Filters(slide.toInclude, slide.toExclude));
    r := Ok(Export(slideFilename.value, typeSlide, layers.value));
  }

  // ---------------------------------------------------------------------
  // What the plan means, entry by entry

  /** The outcomes succeed together exactly when each does, and then hold
      each value at its position; otherwise the first failure is the
      result. */
  lemma {:induction false} CollectPointwise<T>(rs: seq<Result<T>>)
    ensures Collect(rs).Ok? <==> forall k :: 0 <= k < |rs| ==> rs[k].Ok?
    ensures Collect(rs).Ok? ==> |Collect(rs).value| == |rs| && forall k :: 0 <= k < |rs| ==> rs[k] == Ok(Collect(rs).value[k])
    ensures Collect(rs).Err? ==>
      exists j :: 0 <= j < |rs| && rs[j] == Err(Collect(rs).error) && forall k :: 0 <= k < j ==> rs[k].Ok?
    decreases |rs|
  {
    if rs != [] {
      CollectPointwise(rs[1..]);
      if rs[0].Err? {
        assert rs[0] == Err(Collect(rs).error);
      } else if Collect(rs[1..]).Err? {
        var j :| 0 <= j < |rs[1..]| && rs[1..][j] == Err(Collect(rs[1..]).error) &&
          forall k :: 0 <= k < j ==> rs[1..][k].Ok?;
        assert rs[j + 1] == Err(Collect(rs).error);
        forall k | 0 <= k < j + 1 ensures rs[k].Ok? {
          if k > 0 {
            assert rs[k] == rs[1..][k - 1];
          }
        }
      } else {
        var all := [rs[0].value] + Collect(rs[1..]).value;
        assert Collect(rs) == Ok(all);
        forall k | 0 <= k < |rs| ensures rs[k] == Ok(all[k]) {
          if k > 0 {
            assert rs[k] == rs[1..][k - 1];
          }
        }
      }
    }
  }

  /** Entry k of a successful call: its file name is its own template, or
      else the global one, expanded with the input's base name, "svg" and
      the plain decimal k; its type is its own, or else the global one; its
      layers are the labels its include and exclude keys pick. */
  lemma {:induction false} EntryMeaning(conf: ConfigFile, labels: seq<string>, k: nat)
    requires Plan(conf, labels).Ok?
    requires k < |conf.output.value.slides.value|
    ensures var out := conf.output.value;
      var slide := out.slides.value[k];
      var e := Plan(conf, labels).value[k];
      GetFilename(slide.filename.GetOr(out.filename.value), SplitFilename(conf.input.value).basename,
                  Some("svg"), Some(NatToString(k))) == Some(e.filename) &&
      e.exportType == slide.exportType.GetOr(out.exportType.value) &&
      Ok(e.layers) == FilteredLabels(Flat, labels, Filters(slide.toInclude, slide.toExclude))
  {
    var out := conf.output.value;
    var rs := Entries(out.filename.value, out.exportType.value, SplitFilename(conf.input.value).basename,
                      labels, out.slides.value);
    CollectPointwise(rs);
    var slide := out.slides.value[k];
    FlatFilterNeverRaises(labels, Filters(slide.toInclude, slide.toExclude));
    assert rs[k] == Ok(Plan(conf, labels).value[k]);
  }

  /** The call fails on the entries exactly when some entry's template has
      a `%b` past its start and the input name has no dot (for a template
      without "%%", and a base name that is not empty and has no '%'). */
  lemma {:induction false} PlanFailsExactly(conf: ConfigFile, labels: seq<string>)
    requires conf.input.Some? && conf.output.Some?
    requires conf.output.value.filename.Some? && conf.output.value.exportType.Some?
    requires conf.output.value.slides.Some?
    requires var b := SplitFilename(conf.input.value).basename;
      b.Some? ==> b.value != [] && '%' !in b.value
    requires var out := conf.output.value;
      forall k :: 0 <= k < |out.slides.value| ==>
        NoDoublePercent(out.slides.value[k].filename.GetOr(out.filename.value))
    ensures var out := conf.output.value;
      Plan(conf, labels).Err? <==>
        '.' !in conf.input.value &&
        exists k :: 0 <= k < |out.slides.value| && Late(out.slides.value[k].filename.GetOr(out.filename.value), 'b')
  {
    var out := conf.output.value;
    var slides := out.slides.value;
    var bn := SplitFilename(conf.input.value).basename;
    SplitJoinsBack(conf.input.value);
    CollectPointwise(Entries(out.filename.value, out.exportType.value, bn, labels, slides));
    forall k | 0 <= k < |slides|
      ensures SlideExport(out.filename.value, out.exportType.value, bn, labels, k, slides[k]).Err? <==>
        bn.None? && Late(slides[k].filename.GetOr(out.filename.value), 'b')
    {
      RefusalExactly(slides[k].filename.GetOr(out.filename.value), bn, Some("svg"), Some(NatToString(k)));
    }
  }

  /** An entry's own `filename` and `type` keys make the global ones
      irrelevant to it; an entry without them behaves as if it carried the
      global ones. */
  lemma {:induction false} EntryOverrides(outfile: string, destType: string, bn: Option<string>, labels: seq<string>,
                                          index: nat, slide: Descriptor, otherFile: string, otherType: string)
    ensures slide.filename.Some? && slide.exportType.Some? ==>
      SlideExport(otherFile, otherType, bn, labels, index, slide) == SlideExport(outfile, destType, bn, labels, index, slide)
    ensures SlideExport(outfile, destType, bn, labels, index, slide) ==
      SlideExport(otherFile, otherType, bn, labels, index,
                  slide.(filename := Some(slide.filename.GetOr(outfile)),
                         exportType := Some(slide.exportType.GetOr(destType))))
  {
  }
}
