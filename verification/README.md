# inklayers slide configuration, modelled in Dafny

inklayers turns one Inkscape drawing into a series of slides. Each slide
is a choice of the drawing's layers. A configuration lists the slides:

- A slide picks layers with `include` and `exclude` keys. A key is a list
  of interval expressions (`"#0-#4,#6"`) or layer labels.
- A slide can be `based-on` another named slide. It then starts from that
  slide's layers and adds or removes its own.
- Global `add` / `exclude` options edit every slide.
- A file name template holds `%b` (drawing name), `%e` (extension) and
  `%n` (slide number).

This project models the engine that resolves such a configuration in two
revisions of the program:

- **Current** (`inklayers/inklayers.py`):
  - the `StringParser` functions: interval parsing, label filtering,
    file name expansion and command-line slide data;
  - the `SlideConfiguration` class: loading, name checking, the
    based-on resolution rounds, the global edits, stacked mode and slide
    naming;
  - `SVGFile.get_labels` and `SVGFile.get_filtered_layer_objs`.
- **Flat** (`inklayers.py`): its variants of the parser, the filter and
  `get_filename`, plus `split_filename` and `process_config_file`.

Modules, file by file:

- `base.dfy`: `Option`, `Result` and the failures. A raised exception
  becomes `Err`; a returned `None` becomes `None`.
- `text.dfy`: the Python string operations the core relies on: `strip`,
  `split`, `int`, `str`, `zfill`, `find`, `replace`.
- `intervals.dfy`, `interval_facts.dfy`, `interval_examples.dfy`:
  `parse_interval_string` and `is_number_in_intervals`, for both
  revisions (`Revision = Current | Flat`).
- `label_filter.dfy`, `filter_examples.dfy`: `get_filters`,
  `get_filters_by_label` and `get_filtered_layer_labels`. The last works
  in place on an array of optional labels.
- `slide_data.dfy`: `filter_slide_data`.
- `filenames.dfy`, `filename_examples.dfy`: `get_filename` and
  `split_filename`.
- `svg_file.dfy`: the drawing's layers, `get_labels` and
  `get_filtered_layer_objs`.
- `layer_edits.dfy`: the `add` and `exclude` loops of `filter_layers`.
- `resolution.dfy`: the resolution as functions on values. A made slide
  is a `Slide` value. `Process` is the recursion of `process_slides`.
  `LoadSlides` is `load_slides`.
- `resolution_facts.dfy`, `edit_facts.dfy`: what the resolution
  guarantees. One slide per descriptor, in id order. Settings
  precedence. Failure on unresolvable bases and duplicate names.
  Zero-padded file numbers. Stacked mode. Idempotent global edits.
  Based-on refinement.
- `slide_configuration.dfy`: the `SlideConfiguration` class as written.
  It has a `slides` field that its methods append to, edit and sort.
  Every method is proved equal to the functions of `resolution.dfy`.
- `flat_config.dfy`: the flat revision's `process_config_file`, a loop
  proved equal to a function of the configuration, and its properties.

The inputs of the flat revision's unit tests (`TestSuite.py`) for
interval parsing, label filtering and file names are stated as lemmas in
`interval_examples.dfy`, `filter_examples.dfy` and
`filename_examples.dfy`. The parsing and filtering ones hold in both
revisions.

## Model

| member | source | states |
|---|---|---|
| Text.Strip | inklayers/inklayers.py:107 | `str.strip()`: the result is no longer than the input, and neither starts nor ends with whitespace |
| Text.StripPadded | inklayers/inklayers.py:107 | whitespace around a word is exactly what strip removes |
| Text.Split | inklayers/inklayers.py:105-106 | `split` on one character gives at least one piece, and no piece holds the separator |
| Text.JoinSplit | inklayers/inklayers.py:105-106 | joining the pieces of a split with the separator gives the input back |
| Text.SplitJoin | inklayers/inklayers.py:105-106 | splitting a join of separator-free pieces gives the pieces back |
| Text.NatToString | inklayers/inklayers.py:151 | `str(n)` is decimal digits, has no leading zero unless n is 0, and holds no '-', ',', '%' or '.' |
| Text.ParseNatToString | inklayers/inklayers.py:112 | `int(str(n)) == n` |
| Text.ZFill | inklayers/inklayers.py:415 | `zfill(width)` has length max(len, width), ends with the input and is preceded by zeros only |
| Text.DigitCountMonotone | inklayers/inklayers.py:415 | a smaller number never has more digits, so an index below the count fits the count's width |
| Text.PaddedIndex | inklayers/inklayers.py:414-415 | an index padded to at least its digit count has exactly that width and reads back as the index |
| Text.Find | inklayers/inklayers.py:140 | `find` gives the lowest offset of the pattern, or -1 exactly when it does not occur |
| Text.ReplaceAbsent | inklayers/inklayers.py:143 | replacing a pattern that does not occur changes nothing |
| Text.ReplaceMarker | inklayers/inklayers.py:142-151 | replacing `%x` by a '%'-free value removes every `%x` and creates no new marker |
| Intervals.InIntervals | inklayers/inklayers.py:124-133 | true exactly when some interval has lower <= n <= upper |
| Intervals.InIntervalsAppend | inklayers/inklayers.py:177-178 | n is in the extended interval list exactly when it is in one of the two parts |
| Intervals.TokensMeaning | inklayers/inklayers.py:105-107 | an item gives one token per dash plus one; no token holds a dash or has a blank at either end; an item without a dash is one stripped token |
| Text.SplitCount | inklayers/inklayers.py:105-106 | splitting gives one more piece than there are separators |
| Intervals.CheckSentinels | inklayers/inklayers.py:108-110 | the '#' check passes exactly when every token starts with '#'; it raises exactly when an empty token comes before any token without '#' |
| Intervals.ParseSuffixes | inklayers/inklayers.py:111-114 | the suffixes read as numbers exactly when each does, and then they give those numbers in order |
| Intervals.ParseTokens | inklayers/inklayers.py:106-120 | one comma item yields an interval exactly when its tokens are well formed (one or two numbers), and then the interval they denote; it raises exactly in the current revision on an empty token |
| Intervals.CombineYields | inklayers/inklayers.py:104-121 | the parse yields a list exactly when every item yields, with one interval per item; a result is never partial |
| Intervals.CombineCrash | inklayers/inklayers.py:104-121 | the parse raises exactly when the first item that does not yield raises, and with its failure |
| Intervals.ParseItemsYield | inklayers/inklayers.py:89-121 | an expression yields intervals exactly when every comma item is well formed, and then the items' intervals in order |
| Intervals.ParseItemsCrash | inklayers/inklayers.py:108-109 | an expression raises exactly when a well-formed prefix is followed by an item with an empty token; only the current revision raises, always `IndexError` |
| Intervals.ItemOutcomes | inklayers/inklayers.py:105-120 | each item's own outcome: yields iff well formed, raises iff current revision and an empty token |
| Intervals.ParseItemTokens | inklayers/inklayers.py:106-120 | the per-item loop as written computes the token parse |
| Intervals.ParseIntervalString | inklayers/inklayers.py:89-121 | `parse_interval_string`, as a loop returning at the first bad item, computes the parse |
| IntervalFacts.CurrentImpliesFlat | inklayers.py:256-283 | whatever the current revision accepts, the flat revision accepts with the same intervals |
| IntervalFacts.ParseFormatted | inklayers/inklayers.py:89-121 | parsing the printed form `#N-#M,#K` of intervals with natural bounds gives them back, in both revisions |
| IntervalFacts.FormatIntervalTokens | inklayers/inklayers.py:115-118 | `#N` denotes (N, N) and `#N-#M` denotes (N, M) in both revisions |
| IntervalFacts.ParseWellFormed | inklayers/inklayers.py:104-121 | well-formed items parse to their intervals, in order |
| IntervalFacts.FlatRejects | inklayers.py:270-282 | one malformed comma item makes the flat parse return None |
| IntervalFacts.PaddedSingle | TestSuite.py:59-61 | blanks around a number word do not change the interval |
| IntervalFacts.PaddedPair | TestSuite.py:63-73 | blanks around the two words of a pair do not change the interval |
| IntervalFacts.DocstringExampleInterval | inklayers/inklayers.py:100 | "#0-#10" gives [(0, 10)] |
| IntervalFacts.DocstringExampleValues | inklayers/inklayers.py:101 | "#0,#10" gives [(0, 0), (10, 10)] |
| IntervalFacts.DocstringExampleMixed | inklayers/inklayers.py:102 | "#0,#10-#15,#30" gives [(0, 0), (10, 15), (30, 30)] |
| IntervalExamples.OneValue | TestSuite.py:59-61 | " #0 " gives [(0, 0)] in both revisions |
| IntervalExamples.OneInterval | TestSuite.py:63-65 | " #0 - #10 " gives [(0, 10)] in both revisions |
| IntervalExamples.TwoValues | TestSuite.py:67-69 | " #0, #10 " gives [(0, 0), (10, 10)] in both revisions |
| IntervalExamples.TwoIntervals | TestSuite.py:71-73 | " #0 - #10 , #100 - #200 " gives [(0, 10), (100, 200)] in both revisions |
| IntervalExamples.ValuesAndIntervals | TestSuite.py:75-77 | "#0,#5-#10,#15,#20-#30" gives [(0, 0), (5, 10), (15, 15), (20, 30)] in both revisions |
| IntervalExamples.WrongFormatBareNumber | TestSuite.py:79-81 | "0" gives None in both revisions |
| IntervalExamples.WrongFormatBareUpper | TestSuite.py:83-85 | "#0-1" gives None in both revisions |
| IntervalExamples.WrongFormatBareItem | TestSuite.py:87-89 | "#0,1" gives None in both revisions |
| IntervalExamples.WrongFormatThreeTokens | TestSuite.py:91-93 | "#0-#1-#2" gives None in both revisions |
| IntervalExamples.ParseTwoItems | inklayers/inklayers.py:104-121 | two well-formed comma items give their two intervals, in order |
| IntervalExamples.RejectOneToken | inklayers/inklayers.py:106-114 | one non-empty token the revision does not accept gives None, never an error |
| IntervalExamples.RejectSecondToken | inklayers/inklayers.py:106-114 | a pair whose second token the revision does not accept gives None |
| IntervalExamples.RejectSecondItem | inklayers/inklayers.py:104-114 | a second comma item the revision does not accept makes the whole parse None |
| IntervalExamples.RejectThreeTokens | inklayers/inklayers.py:115-120 | three non-empty tokens give None, whatever they are |
| IntervalExamples.RevisionsPartOnLabelWord | inklayers/inklayers.py:108-110 | a label-like word "L1": the current revision returns None, the flat one drops the first character and reads (1, 1) |
| IntervalExamples.TrailingDash | inklayers/inklayers.py:108-109 | "#N-" raises in the current revision and gives None in the flat one |
| IntervalExamples.EmptyExpression | inklayers/inklayers.py:105-109 | the empty expression raises in the current revision and gives None in the flat one |
| LabelFilter.GatherRaises | inklayers/inklayers.py:72-86 | the key's intervals raise exactly when one expression raises, with its failure |
| LabelFilter.GatherCovers | inklayers/inklayers.py:72-86 | n is in the key's intervals exactly when some expression's intervals cover it; expressions giving None add nothing |
| LabelFilter.GetFilters | inklayers/inklayers.py:72-86 | `get_filters` as a loop computes the key's intervals |
| LabelFilter.FirstIndex | inklayers/inklayers.py:171 | `labels.index(x)` is the first position holding x |
| LabelFilter.LabelIntervalsCover | inklayers/inklayers.py:166-173 | the label intervals cover n exactly when the label at n is named by the key and occurs there first |
| LabelFilter.GetFiltersByLabel | inklayers/inklayers.py:166-173 | `get_filters_by_label` as a loop computes the label intervals |
| LabelFilter.SelectionMeaning | inklayers/inklayers.py:162-175 | a key raises exactly when a token raises, and otherwise selects n exactly when an interval or a named label selects it |
| LabelFilter.FilteredRaises | inklayers/inklayers.py:155-186 | the filter raises exactly when a token of either key raises |
| LabelFilter.KeyRaisesCurrent | inklayers.py:273-276 | only the current revision raises; the flat one catches every error |
| LabelFilter.FilteredMeaning | inklayers/inklayers.py:177-186 | the result is the labels at the positions included and not excluded, in the drawing's order |
| LabelFilter.RestrictMembers | inklayers/inklayers.py:185 | a label is in the result exactly when some kept position holds it |
| LabelFilter.RestrictLength | inklayers/inklayers.py:185 | the result has one label per kept position |
| LabelFilter.NoIncludeKeepsNothing | inklayers/inklayers.py:179-180 | without an include key the result is empty |
| LabelFilter.KeptLabel | inklayers/inklayers.py:179-186 | a label that occurs once is in the result exactly when its position is kept |
| LabelFilter.ExclusionWins | inklayers/inklayers.py:182-183 | an excluded label that occurs once is not in the result, whatever the include key says |
| LabelFilter.GetFilteredLayerLabels | inklayers/inklayers.py:155-186 | the in-place filter over the label array computes the filtered labels |
| LabelFilter.CompactArray | inklayers/inklayers.py:185 | the comprehension drops the None entries, keeping the rest in order |
| FilterExamples.IntervalLookingLabel | inklayers/inklayers.py:162-175 | a layer labelled "#3" is selected by "#3" both as position 3 and by its own position |
| LabelFilter.RestrictAt | inklayers/inklayers.py:185 | the kept labels are exactly the labels at the kept positions, listed in increasing order |
| FilterExamples.NamedKeySelects | inklayers/inklayers.py:166-173 | a key of tokens that name labels (each token read as nothing or as its own label's position) never raises and selects exactly the named positions |
| FilterExamples.RangeKeySelects | inklayers/inklayers.py:162-164 | a key of one interval token that is no label never raises and selects exactly what its intervals cover |
| FilterExamples.FilteredAt | inklayers/inklayers.py:177-186 | when neither key raises, the result is the labels at the kept positions, in increasing order |
| FilterExamples.RangeMinusNames | inklayers/inklayers.py:155-186 | an interval include key and a label-name exclude key keep the covered positions the names miss |
| FilterExamples.NamesOnly | inklayers/inklayers.py:155-186 | a label-name include key without an exclude key keeps exactly the named labels |
| FilterExamples.SpacedKey | inklayers/inklayers.py:111-114 | a label whose suffix starts with a non-blank and holds a blank further on is no number (as Python's `int()` also refuses an inner blank), so as a token it gives None in both revisions |
| FilterExamples.NoInclusion | TestSuite.py:97-101 | exclude "L2" without an include key gives [] in both revisions |
| FilterExamples.NoExclusion | TestSuite.py:103-107 | include "L0", "L2" without an exclude key gives ["L0", "L2"] in both revisions |
| FilterExamples.IncludeRangeExcludeLabel | TestSuite.py:109-113 | include "#0-#4", exclude "L2" gives ["L0", "L1", "L3", "L4"] in both revisions |
| FilterExamples.TwoRangesThreeNames | TestSuite.py:115-119 | include "#0-#4,#6-#7", exclude "L0", "L2", "L7" gives ["L1", "L3", "L4", "L6"] in both revisions |
| FilterExamples.SpacedLabels | TestSuite.py:121-125 | the same filter on labels holding blanks, excluded by their full text, gives ["L1 test 2", "L3", "L4", "L6 last"] in both revisions |
| FilterExamples.ErrorCondition | TestSuite.py:127-132 | include "#0-#6", exclude "L5 msg:greetings" gives ["L0", "L1", "L2", "L3", "L4", "L6"] in both revisions: the blank-holding key raises nothing |
| SlideData.SplitFromJoin | inklayers/inklayers.py:195 | the pieces joined with ',' give the input back |
| SlideData.SplitUnescapedMeaning | inklayers/inklayers.py:195 | no piece holds a comma without a backslash before it |
| SlideData.UnescapeEscape | inklayers/inklayers.py:196 | unescaping an escaped selector without backslashes gives it back |
| SlideData.FilterSlideDataEscaped | inklayers/inklayers.py:189-197 | selectors without backslashes, escaped and joined with ',', come back unchanged |
| Filenames.ExpandFilename | inklayers/inklayers.py:136-152 | `get_filename` as written computes the three-step expansion |
| Filenames.TemplateWithoutMarkers | inklayers/inklayers.py:136-152 | a template without markers comes back unchanged |
| Filenames.ExpansionComplete | inklayers/inklayers.py:142-151 | for a template without "%%" and values free of '%', every supplied value replaces every occurrence of its marker |
| Filenames.RefusalExactly | inklayers/inklayers.py:140-149 | for a template without "%%" and a non-empty, '%'-free base name and extension, the expansion gives None exactly when a marker whose value is missing first occurs past offset 0 |
| Filenames.LeadingMarkerLeft | inklayers/inklayers.py:140-151 | a template starting with `%b`, `%e` or `%n` is never refused for that marker's missing value (`find` gives 0, not more), keeps the marker at its head, and is not refused at all when the other values are supplied |
| Filenames.SplitJoinsBack | inklayers.py:225-235 | `split_filename` gives both parts exactly when there is a dot; the extension has no dot and base + "." + extension is the name |
| Filenames.SplitOfJoined | inklayers.py:225-235 | splitting base + "." + a dot-free extension gives both back |
| FilenameExamples.NoFormatters | TestSuite.py:37-39 | 'test.svg' stays 'test.svg' |
| FilenameExamples.WithBasename | TestSuite.py:41-43 | '%b.svg' with 'test' gives 'test.svg' |
| FilenameExamples.WithExtension | TestSuite.py:45-47 | 'test.%e' with 'svg' gives 'test.svg' |
| FilenameExamples.WithIndex | TestSuite.py:49-51 | 'test-%n.svg' with index 100 gives 'test-100.svg' |
| FilenameExamples.AllFormatters | TestSuite.py:53-55 | '%b-%n.%e' gives 'test-100.svg' |
| FilenameExamples.NoDotLeavesBasenameMarker | inklayers.py:413-414 | an input file name without a dot gives no base name: a template starting with `%b` keeps its marker, and "%b.svg" comes out unchanged |
| SvgFile.LabelsOfMeaning | inklayers/inklayers.py:576-583 | the labels of two runs of layers are the labels of each run, in order; a label is listed exactly when some layer carries it |
| SvgFile.FirstLayer | inklayers/inklayers.py:590-594 | the first layer carrying the label, or none |
| SvgFile.GetLabels | inklayers/inklayers.py:576-583 | the loop collects the labels of the drawing's layers |
| SvgFile.GetFilteredLayerObjs | inklayers/inklayers.py:585-595 | the nested loop with `break` gives, per label, the first layer carrying it |
| SvgFile.LabelRoundTrip | inklayers/inklayers.py:585-595 | labels to layer objects and back keeps exactly the labels the drawing has, in order |
| SvgFile.PresentAll | inklayers/inklayers.py:585-595 | labels of the drawing come back unchanged |
| SvgFile.ObjectsAreFirstLayers | inklayers/inklayers.py:585-595 | every object handed out is the drawing's first layer with its label |
| LayerEdits.AddAllMeaning | inklayers/inklayers.py:513-516 | `add` keeps the list as a prefix, holds exactly the old and the selected labels, and adds no repeat |
| LayerEdits.AddPresent | inklayers/inklayers.py:513-516 | adding labels that are present changes nothing |
| LayerEdits.AddAllAppends | inklayers/inklayers.py:513-516 | whatever `add` appends is a selected label that was missing |
| LayerEdits.ExcludeAllMultiset | inklayers/inklayers.py:517-520 | `exclude` removes one occurrence per selected occurrence: a multiset difference |
| LayerEdits.ExcludeAllDistinct | inklayers/inklayers.py:517-520 | on labels without repeats, `exclude` keeps exactly the unselected labels, in order |
| LayerEdits.AddExcludeIdempotent | inklayers/inklayers.py:464-469 | for a layer list without duplicates, add-then-exclude applied to its own result changes nothing |
| Resolution.MakeSlide | inklayers/inklayers.py:471-500 | the made slide carries the descriptor's id and name, and the settings chosen by precedence |
| Resolution.MadeNames | inklayers/inklayers.py:439-440 | exactly the non-empty names of the made slides |
| Resolution.Remaining | inklayers/inklayers.py:449-451 | exactly the pending descriptors whose id no made slide has |
| Resolution.GlobalPass | inklayers/inklayers.py:459-465 | a global edit keeps the slide count and changes only layers |
| ResolutionFacts.NumberedBag | inklayers/inklayers.py:405-406 | the ids handed out are 0 to n-1, each exactly once, so no two numbered descriptors share an id |
| Resolution.Named | inklayers/inklayers.py:412-418 | naming changes only the file names |
| ResolutionFacts.RoundAccounts | inklayers/inklayers.py:442-451 | a round appends to the made slides; appended plus remaining are, as ids, exactly the pending descriptors |
| ResolutionFacts.ProcessAccounts | inklayers/inklayers.py:433-469 | a successful `process_slides` adds exactly one slide per descriptor |
| ResolutionFacts.GlobalsKeepIds | inklayers/inklayers.py:458-469 | the global options change no id |
| ResolutionFacts.SortFacts | inklayers/inklayers.py:409 | the sort orders by id and is a permutation |
| ResolutionFacts.SortedRange | inklayers/inklayers.py:405-409 | sorted slides whose ids are 0..n-1 once each carry id k at position k |
| ResolutionFacts.ProcessDescribes | inklayers/inklayers.py:433-500 | every made slide carries its descriptor's name and settings; unedited, its layers are those its keys pick |
| ResolutionFacts.LoadSlidesNumbering | inklayers/inklayers.py:396-418 | slide k is made from descriptor k, in order, named from its own position |
| ResolutionFacts.SettingsPrecedence | inklayers/inklayers.py:522-534 | the command line wins over the slide's key, which wins over the configuration, for template and type |
| ResolutionFacts.StalledRaises | inklayers/inklayers.py:456-457 | when no descriptor is ready, including an empty list, `process_slides` raises |
| ResolutionFacts.NoSlidesRaise | inklayers/inklayers.py:456-457 | an empty slide list (not stacked) raises |
| ResolutionFacts.BlockedRaises | inklayers/inklayers.py:442-457 | descriptors waiting on base names only they would give are never made: the call raises |
| ResolutionFacts.ClosedBasesRaise | inklayers/inklayers.py:396-457 | a set of slides all based on names only the set gives (missing base, self, cycle) makes loading fail |
| ResolutionFacts.SelfBasedRaises | inklayers/inklayers.py:445-447 | a slide based on its own name makes loading fail |
| ResolutionFacts.UniqueNamesMeaning | inklayers/inklayers.py:420-431 | the name check accepts exactly the lists where no two descriptors give the same name |
| ResolutionFacts.DuplicateNamesRaise | inklayers/inklayers.py:402 | a repeated name raises before any slide is made, also in stacked mode |
| ResolutionFacts.FileNumberPadded | inklayers/inklayers.py:413-417 | a number exactly when the template holds `%n`: the index padded to the count's digits, reading back as the index |
| ResolutionFacts.StackedGrowth | inklayers/inklayers.py:536-555 | stacked descriptor k includes labels 0..k, each adding the next label |
| ResolutionFacts.StackedSelects | inklayers/inklayers.py:536-555 | the stacked include key of slide k picks layer n exactly when n <= k |
| ResolutionFacts.StackedSlideLayers | inklayers/inklayers.py:403-404 | in stacked mode with distinct, non-interval labels and no global option, slide k holds exactly layers 0..k |
| EditFacts.FilteredSubset | inklayers/inklayers.py:155-186 | the filter only returns labels from its input |
| EditFacts.SelectedInDrawing | inklayers/inklayers.py:507-512 | every label a filter picks is a drawing label |
| EditFacts.ObjectsKeepLabels | inklayers/inklayers.py:461-465 | drawing labels to layer objects and back are unchanged |
| EditFacts.BothEdits | inklayers/inklayers.py:466-469 | both global edits of one slide change only its layers |
| EditFacts.GlobalPassPointwise | inklayers/inklayers.py:459-465 | a global pass succeeds iff no slide or the filter succeeds, editing each slide on its own |
| EditFacts.GlobalsPointwise | inklayers/inklayers.py:466-469 | slide k of the global edits is slide k edited on its own |
| EditFacts.BothEditsIdempotent | inklayers/inklayers.py:459-469 | on a slide with distinct drawing labels, the two edits again change nothing |
| EditFacts.GlobalsIdempotent | inklayers/inklayers.py:453-469 | re-applying the global edits at each recursion level is harmless for such slides |
| EditFacts.RefineMeaning | inklayers/inklayers.py:484-494 | a based-on slide holds its base's and its included labels, minus its excluded ones, keeping the base order, no repeats |
| EditFacts.BasedOnNoMatch | inklayers/inklayers.py:484-486 | with no made slide of the base name, no labels are added |
| EditFacts.BasedOnSingle | inklayers/inklayers.py:484-494 | with one made slide of that name, the labels are that slide's, refined |
| Configuration.FilterFreshLabels | inklayers/inklayers.py:481-496 | filtering a fresh copy of the labels gives the filtered labels |
| Configuration.SlideConfiguration.constructor | inklayers/inklayers.py:379-384 | the object holds the options, drawing, template and type, and no slide |
| Configuration.SlideConfiguration.Load | inklayers/inklayers.py:379-394 | loads template, type and slides in order, the first missing key raising |
| Configuration.SlideConfiguration.LoadSlides | inklayers/inklayers.py:396-418 | the method's outcome and slides are those of the `load_slides` function |
| Configuration.SlideConfiguration.NameSlides | inklayers/inklayers.py:410-417 | the naming loop sets each file name as the naming function says |
| Configuration.SlideConfiguration.LoadStackedSlides | inklayers/inklayers.py:536-555 | the loop builds the stacked descriptors |
| Configuration.SlideConfiguration.StackedLabels | inklayers/inklayers.py:544-551 | the loop with `break` collects labels 0..counter |
| Configuration.SlideConfiguration.FilterLayers | inklayers/inklayers.py:502-520 | the `add` / `exclude` loops compute the layer edit |
| Configuration.SlideConfiguration.MakeSlide | inklayers/inklayers.py:471-500 | the method, with its loop over made slides, computes the made slide |
| Configuration.SlideConfiguration.ProcessSlides | inklayers/inklayers.py:433-469 | rounds, recursion, raising and global edits give the outcome and slides of `Process` |
| Configuration.SlideConfiguration.FilterWithGlobals | inklayers/inklayers.py:459-465 | the loop over the made slides gives the outcome and slides of the global pass |
| Configuration.SlideConfiguration.EditOne | inklayers/inklayers.py:461-465 | one slide's global edit |
| FlatProcessing.FlatFilterNeverRaises | inklayers.py:269-283 | the flat filter never raises |
| FlatProcessing.SlideExport | inklayers.py:401-420 | an entry fails only because its file name cannot be expanded |
| FlatProcessing.ExportEntry | inklayers.py:401-420 | the loop body computes one entry's export |
| FlatProcessing.ProcessConfigFile | inklayers.py:367-431 | key checks in order, then one file name per entry in order; on failure, the entries before it are written |
| FlatProcessing.ExportAll | inklayers.py:401-431 | the slide loop writes one export per entry, in order, and stops at the first entry whose file name cannot be expanded; every written export is that entry's own outcome |
| FlatProcessing.CollectPointwise | inklayers.py:401-420 | entries succeed together iff each does, in position; else the first failure decides |
| FlatProcessing.EntryMeaning | inklayers.py:401-420 | entry k is named from its own template (else the global one) with base name, "svg" and plain decimal k, uses its own type (else the global one), and keeps its filter's layers |
| FlatProcessing.PlanFailsExactly | inklayers.py:413-416 | the entries fail exactly when the input name has no dot and some template has `%b` past its start |
| FlatProcessing.EntryOverrides | inklayers.py:402-411 | an entry's own `filename` and `type` make the global ones irrelevant; without them it acts as if given the global ones |

## Left out

- The command line (`get_commandLine`, `filtered_arguments`), `FileHandler` (JSON/INI loading), `InklayersSystem` / `InklayersShell`, lxml trees and roots (`get_filtered_obj`, `save_svg`), Inkscape calls (`svg2file`), logging and printing. These are I/O or external programs.
  - The drawing is a list of labelled layers plus its base file name.
  - In the flat revision, the labels read from the file are a parameter. What `save_svg` and `svg2file` receive is returned as `Export` records.
- `1 + int(log10(len(slides)))` is modelled as the exact decimal digit count `DigitCount`; floating point is not modelled.
- Python `int()` on a suffix: only ASCII digits. Signs, underscores, surrounding blanks and non-ASCII digits are not accepted, so intervals always have natural bounds. `str.strip()`: ASCII whitespace only.
- `Layer` objects are modelled by their XML id and label (`Layer(id, inkLabel)`); the lxml element, its other attributes and children are not modelled. `Slide` objects are values in the `slides` field, since the source never shares them. The `root` of a slide is not modelled.
- Configuration.SlideConfiguration.FilterLayers: returns the edited list instead of changing the caller's list in place.
- Configuration.SlideConfiguration.FilterWithGlobals: builds the edited slides and stores the list once, instead of updating each `Slide` object in place. Nothing else holds the slides, so the result is the same.
- Configuration.SlideConfiguration.LoadSlides: requires an empty `slides` list, as only `__init__` calls it. The sort is the stable `SortById` function, not an in-place sort.
- Configuration.SlideConfiguration.Load: a missing `output` section is treated like a missing `output -> filename`. Both are the first `KeyError`.
- ResolutionFacts.StackedSlideLayers: holds only for distinct labels that do not read as interval expressions and without global options. With repeated labels or interval-looking labels, the stacked include key picks other layers.
- EditFacts.GlobalsIdempotent: needs slides with distinct drawing labels. The global options are applied again at every recursion level, and with repeated labels `exclude` removes one occurrence each time.
- FlatProcessing.PlanFailsExactly: assumes templates without "%%" and a base name that is non-empty and '%'-free, as the general refusal lemma does.
- The flat revision's `process_config_file` reports a missing key by printing and returning None. Here this is `Err(MissingKey(...))`. An entry whose file name cannot be expanded makes the following `split_filename(None)` call fail; here this is `Err(NoFilename)`.
- A token that parses as an interval expression and also equals a layer label selects both the positions its intervals cover and that label's first position (`FilterExamples.IntervalLookingLabel`).
- LabelFilter.GetFilteredLayerLabels: requires every entry of the label list to hold a label. In the source, `get_label_from_obj` (inklayers/inklayers.py:316-318) gives None for a layer without an `inkscape:label` attribute, and the filter's final pass (inklayers/inklayers.py:185) drops such entries along with the filtered ones; the model assumes every layer is labelled.
- JSON values of unexpected types (a number as a template, a string instead of a list of expressions) are not modelled; every key holds the type the code expects.
- The flat revision hands `svg2file` no base name when an expanded file name has no '.'. What happens then depends on whether Inkscape is installed, so it is not modelled.
