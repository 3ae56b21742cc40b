/**
 * How `SlideConfiguration` resolves the slides of a configuration file,
 * written as functions: the descriptors are made into slides in rounds (a
 * slide based on another one waits until that one exists), the global
 * add/exclude options edit every slide, the slides are ordered by id and
 * each gets its file name. The class in slide_configuration.dfy follows the
 * source's methods step by step and is proved equal to these functions.
 */
module Resolution {
  import opened Base
  import opened Text
  import opened Intervals
  import opened LabelFilter
  import opened Filenames
  import opened SvgFile
  import opened LayerEdits

  /** One entry of `output -> slides`; every key may be absent. */
  datatype Descriptor = Descriptor(
    name: Option<string>,
    basedOn: Option<string>,
    toInclude: Option<seq<string>>,
    toExclude: Option<seq<string>>,
    filename: Option<string>,
    exportType: Option<string>)

  /** The options handed to the configuration by `filtered_arguments`. */
  datatype Options = Options(
    add: Option<seq<string>>,
    exclude: Option<seq<string>>,
    outfile: Option<string>,
    exportType: Option<string>,
    stack: bool)

  /** A made slide. `filename` is `''` until the naming pass, and None
      there when the template cannot be expanded. */
  datatype Slide = Slide(
    id: nat,
    filename: Option<string>,
    fnameFmt: string,
    name: string,
    exportType: string,
    layers: seq<Layer>)

  /** A descriptor once `load_slides` has given it its `id`. */
  datatype Pending = Pending(id: nat, desc: Descriptor)

  /** What every step reads: the options, the drawing, and the file name
      template and export type of the configuration file. */
  datatype Env = Env(options: Options, drawing: Drawing, fnameFmt: string, exportType: string)

  datatype Action = Add | Exclude

  // ---------------------------------------------------------------------
  // Settings and layer edits

  /** `get_slide_specific_setting`: a command-line value wins, then the
      slide's own key, then the configuration's value. */
  function Setting(cli: Option<string>, slide: Option<string>, config: string): string {
    if cli.Some? then cli.value
    else if slide.Some? then slide.value
    else config
  }

  function DrawingLabels(env: Env): seq<string> {
    LabelsOf(env.drawing.layers)
  }

  /** The labels a filter picks in the drawing: `get_filtered_layer_labels`
      with the filter as the only (include) key. */
  function Selected(env: Env, filter: seq<string>): Result<seq<string>> {
    FilteredLabels(Current, DrawingLabels(env), Filters(Some(filter), None))
  }

  /** `filter_layers`: the picked labels are added to, or removed from, the list. */
  function FilterLayers(env: Env, filter: seq<string>, action: Action, layers: seq<string>): Result<seq<string>> {
    var picked :- Selected(env, filter);
    match action
    case Add => Ok(AddAll(layers, picked))
    case Exclude => Ok(ExcludeAll(layers, picked))
  }

  /** The edits a based-on slide makes to its base's labels: its include
      key is added, then its exclude key is removed. */
  function Refine(env: Env, d: Descriptor, layers: seq<string>): Result<seq<string>> {
    var added :- if d.toInclude.Some? then FilterLayers(env, d.toInclude.value, Add, layers) else Ok(layers);
    if d.toExclude.Some? then FilterLayers(env, d.toExclude.value, Exclude, added) else Ok(added)
  }

  /** The based-on loop of `make_slide` over the made slides, from the
      labels collected so far: every made slide carrying the base name
      contributes its labels, which are then refined. */
  function BasedOnLabels(env: Env, made: seq<Slide>, d: Descriptor, acc: seq<string>): Result<seq<string>>
    decreases |made|
  {
    if made == [] then Ok(acc)
    else
      var next :- if d.basedOn == Some(made[0].name) then Refine(env, d, acc + LabelsOf(made[0].layers)) else Ok(acc);
      BasedOnLabels(env, made[1..], d, next)
  }

  /** `make_slide`: the slide's settings, name and layers. */
  function MakeSlide(env: Env, made: seq<Slide>, p: Pending): (r: Result<Slide>)
    ensures r.Ok? ==> r.value.id == p.id && r.value.name == p.desc.name.GetOr("")
    ensures r.Ok? ==> r.value.fnameFmt == Setting(env.options.outfile, p.desc.filename, env.fnameFmt)
    ensures r.Ok? ==> r.value.exportType == Setting(env.options.exportType, p.desc.exportType, env.exportType)
  {
    var d := p.desc;
    var labels :-
      if d.basedOn.Some? then BasedOnLabels(env, made, d, [])
      else FilteredLabels(Current, DrawingLabels(env), Filters(d.toInclude, d.toExclude));
    Ok(Slide(p.id, Some(""),
             Setting(env.options.outfile, d.filename, env.fnameFmt),
             d.name.GetOr(""),
             Setting(env.options.exportType, d.exportType, env.exportType),
             FilteredLayerObjs(env.drawing.layers, labels)))
  }

  // ---------------------------------------------------------------------
  // Rounds

  /** `madeNames`: the non-empty names of the made slides. */
  function MadeNames(made: seq<Slide>): (r: seq<string>)
    ensures forall x :: x in r <==> x != "" && exists s :: s in made && s.name == x
  {
    if made == [] then []
    else
      assert forall s :: s in made <==> s == made[0] || s in made[1..];
      (if made[0].name != "" then [made[0].name] else []) + MadeNames(made[1..])
  }

  /** A descriptor can be made now: it has no base, or its base is made. */
  predicate Ready(made: seq<Slide>, d: Descriptor) {
    d.basedOn.None? || d.basedOn.value in MadeNames(made)
  }

  /** One pass of the loop of `process_slides` over the pending
      descriptors: each ready one is made and appended at once. */
  function Round(env: Env, made: seq<Slide>, pending: seq<Pending>): Result<seq<Slide>>
    decreases |pending|
  {
    if pending == [] then Ok(made)
    else
      var next :-
        if Ready(made, pending[0].desc) then
          var s :- MakeSlide(env, made, pending[0]);
          Ok(made + [s])
        else Ok(made);
      Round(env, next, pending[1..])
  }

  function Ids(slides: seq<Slide>): (r: seq<nat>)
    ensures |r| == |slides| && forall k :: 0 <= k < |slides| ==> r[k] == slides[k].id
  {
    seq(|slides|, k requires 0 <= k < |slides| => slides[k].id)
  }

  /** The descriptors whose id no made slide carries, in order. */
  function Remaining(made: seq<Slide>, pending: seq<Pending>): (r: seq<Pending>)
    ensures |r| <= |pending|
    ensures forall q :: q in r <==> q in pending && q.id !in Ids(made)
  {
    if pending == [] then []
    else
      assert forall q :: q in pending <==> q == pending[0] || q in pending[1..];
      (if pending[0].id in Ids(made) then [] else [pending[0]]) + Remaining(made, pending[1..])
  }

  /** `filter_with_globals` for one slide. */
  function EditSlide(env: Env, filter: seq<string>, action: Action, s: Slide): Result<Slide> {
    var labels :- FilterLayers(env, filter, action, LabelsOf(s.layers));
    Ok(s.(layers := FilteredLayerObjs(env.drawing.layers, labels)))
  }

  /** `filter_with_globals` over all made slides, when the option is set:
      only the layers of a slide change. */
  function GlobalPass(env: Env, filter: Option<seq<string>>, action: Action, slides: seq<Slide>): (r: Result<seq<Slide>>)
    ensures r.Ok? ==> |r.value| == |slides|
    ensures r.Ok? ==> forall k :: 0 <= k < |slides| ==> r.value[k] == slides[k].(layers := r.value[k].layers)
  {
    if filter.None? || slides == [] then Ok(slides)
    else
      var head :- EditSlide(env, filter.value, action, slides[0]);
      var tail :- GlobalPass(env, filter, action, slides[1..]);
      Ok([head] + tail)
  }

  /** Both global options, add first. */
  function Globals(env: Env, slides: seq<Slide>): Result<seq<Slide>> {
    var added :- GlobalPass(env, env.options.add, Add, slides);
    GlobalPass(env, env.options.exclude, Exclude, added)
  }

  /** `process_slides`: a round, then the same on what is left while the
      round made something; a round that made nothing raises. The global
      options are applied on the way back, at every level. */
  function Process(env: Env, made: seq<Slide>, pending: seq<Pending>): Result<seq<Slide>>
    decreases |pending|
  {
    var after :- Round(env, made, pending);
    var rest := Remaining(after, pending);
    var deep :- if |rest| != 0 && |rest| != |pending| then Process(env, after, rest) else Ok(after);
    if |rest| == |pending| then Err(BasedOnUnresolved)
    else Globals(env, deep)
  }

  // ---------------------------------------------------------------------
  // Loading

  /** The names the descriptors give, in order. */
  function DescribedNames(descs: seq<Descriptor>): (r: seq<string>)
    ensures |r| <= |descs|
  {
    if descs == [] then []
    else (if descs[0].name.Some? then [descs[0].name.value] else []) + DescribedNames(descs[1..])
  }

  /** What `check_unique_slide_names` accepts. */
  predicate UniqueNames(descs: seq<Descriptor>) {
    NoDuplicates(DescribedNames(descs))
  }

  /** `load_stacked_slides`: one descriptor per layer, including that
      layer's label and all labels before it. */
  function StackedDescriptors(labels: seq<string>): (r: seq<Descriptor>)
    ensures |r| == |labels|
  {
    seq(|labels|, i requires 0 <= i < |labels| =>
      Descriptor(None, None, Some(labels[..i + 1]), None, None, None))
  }

  /** The ids `load_slides` gives: the position in the list. */
  function Numbered(descs: seq<Descriptor>): (r: seq<Pending>)
    ensures |r| == |descs| && forall k :: 0 <= k < |descs| ==> r[k] == Pending(k, descs[k])
  {
    seq(|descs|, k requires 0 <= k < |descs| => Pending(k, descs[k]))
  }

  predicate SortedById(slides: seq<Slide>) {
    forall i, j :: 0 <= i < j < |slides| ==> slides[i].id <= slides[j].id
  }

  /** Puts s after every slide whose id is not larger (a stable insertion). */
  function Insert(s: Slide, sorted: seq<Slide>): (r: seq<Slide>)
    ensures |r| == |sorted| + 1
  {
    if sorted == [] then [s]
    else if s.id < sorted[0].id then [s] + sorted
    else [sorted[0]] + Insert(s, sorted[1..])
  }

  /** `self.slides.sort(key=lambda x: x.id)`, a stable sort. */
  function SortById(slides: seq<Slide>): (r: seq<Slide>)
    ensures |r| == |slides|
  {
    if slides == [] then []
    else Insert(slides[|slides| - 1], SortById(slides[..|slides| - 1]))
  }

  /** The file number of the slide at `index` among `count`: its index
      zero-padded to the digits of the count, when the template asks for one. */
  function FileNumber(fmt: string, index: nat, count: nat): Option<string> {
    if Find(fmt, Marker('n')) >= 0 then Some(ZFill(NatToString(index), DigitCount(count))) else None
  }

  /** The naming loop of `load_slides`: only the file names change. */
  function Named(basefilename: string, slides: seq<Slide>): (r: seq<Slide>)
    ensures |r| == |slides|
    ensures forall k :: 0 <= k < |slides| ==> r[k] == slides[k].(filename := r[k].filename)
  {
    seq(|slides|, k requires 0 <= k < |slides| =>
      slides[k].(filename := GetFilename(slides[k].fnameFmt, Some(basefilename), Some("svg"),
                                         FileNumber(slides[k].fnameFmt, k, |slides|))))
  }

  /** The descriptors that are made: the configuration's, or the stacked ones. */
  function Chosen(env: Env, descs: seq<Descriptor>): seq<Descriptor> {
    if env.options.stack then StackedDescriptors(DrawingLabels(env)) else descs
  }

  /** `load_slides`. */
  function LoadSlides(env: Env, descs: seq<Descriptor>): Result<seq<Slide>> {
    if !UniqueNames(descs) then Err(DuplicateName)
    else
      var made :- Process(env, [], Numbered(Chosen(env, descs)));
      Ok(Named(env.drawing.basefilename, SortById(made)))
  }

  // ---------------------------------------------------------------------
  // The configuration file

  datatype Output = Output(filename: Option<string>, exportType: Option<string>, slides: Option<seq<Descriptor>>)

  datatype Config = Config(output: Option<Output>)

  /** `__init__`'s three `load_element` calls, in order: the first missing
      key raises. */
  function Settings(drawing: Drawing, config: Config, options: Options): Result<Env> {
    if config.output.None? || config.output.value.filename.None? then Err(MissingKey("output", "filename"))
    else if config.output.value.exportType.None? then Err(MissingKey("output", "type"))
    else if config.output.value.slides.None? then Err(MissingKey("output", "slides"))
    else Ok(Env(options, drawing, config.output.value.filename.value, config.output.value.exportType.value))
  }

  /** `SlideConfiguration(svg_file, config, options).slides`. */
  function Configure(drawing: Drawing, config: Config, options: Options): Result<seq<Slide>> {
    var env :- Settings(drawing, config, options);
    LoadSlides(env, config.output.value.slides.value)
  }
}
