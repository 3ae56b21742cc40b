/**
 * The drawing as the slide configuration sees it (`SVGFile`): its base
 * file name and its layers in document order, each layer reduced to its
 * XML id and its label.
 */
module SvgFile {
  import opened Base

  /** A layer object: its `id` attribute and its `inkscape:label`. */
  datatype Layer = Layer(id: string, inkLabel: string)

  datatype Drawing = Drawing(basefilename: string, layers: seq<Layer>)

  function LabelsOf(layers: seq<Layer>): (r: seq<string>)
    ensures |r| == |layers|
    ensures forall k :: 0 <= k < |layers| ==> r[k] == layers[k].inkLabel
  {
    seq(|layers|, k requires 0 <= k < |layers| => layers[k].inkLabel)
  }

  /** The labels of two runs of layers are the labels of each run, in
      order, and a label is listed exactly when some layer carries it. */
  lemma LabelsOfMeaning(a: seq<Layer>, b: seq<Layer>, wanted: string)
    ensures LabelsOf(a + b) == LabelsOf(a) + LabelsOf(b)
    ensures wanted in LabelsOf(a) <==> exists l :: l in a && l.inkLabel == wanted
  {
  }

  /** The first layer, in document order, that carries the label. */
  function FirstLayer(layers: seq<Layer>, wanted: string): (r: Option<Layer>)
    ensures r.Some? <==> wanted in LabelsOf(layers)
    ensures r.Some? ==> r.value in layers && r.value.inkLabel == wanted
  {
    if layers == [] then None
    else if layers[0].inkLabel == wanted then Some(layers[0])
    else
      assert LabelsOf(layers) == [layers[0].inkLabel] + LabelsOf(layers[1..]);
      FirstLayer(layers[1..], wanted)
  }

  /** `get_filtered_layer_objs`: for each label, the first layer carrying
      it; labels that no layer carries contribute nothing. */
  function FilteredLayerObjs(layers: seq<Layer>, labels: seq<string>): seq<Layer> {
    if labels == [] then []
    else
      var front := FilteredLayerObjs(layers, labels[..|labels| - 1]);
      match FirstLayer(layers, labels[|labels| - 1])
      case Some(layer) => front + [layer]
      case None => front
  }

  /** The labels of `labels` that some layer carries, in order. */
  function Present(labels: seq<string>, known: seq<string>): (r: seq<string>)
    ensures forall x :: x in r <==> x in labels && x in known
  {
    if labels == [] then []
    else
      var front := Present(labels[..|labels| - 1], known);
      var x := labels[|labels| - 1];
      assert labels == labels[..|labels| - 1] + [x];
      if x in known then front + [x] else front
  }

  // ---------------------------------------------------------------------
  // Methods as written

  /** `SVGFile.get_labels`. */
  method GetLabels(d: Drawing) returns (labels: seq<string>)
    ensures labels == LabelsOf(d.layers)
  {
    labels := [];
    var i := 0;
    while i < |d.layers|
      invariant 0 <= i <= |d.layers|
      invariant labels == LabelsOf(d.layers[..i])
    {
      labels := labels + [d.layers[i].inkLabel];
      i := i + 1;
    }
    assert d.layers[..i] == d.layers;
  }

  /** `SVGFile.get_filtered_layer_objs`: an outer loop over the labels and
      an inner search over the layers that stops at the first match. */
  method GetFilteredLayerObjs(d: Drawing, labels: seq<string>) returns (objs: seq<Layer>)
    ensures objs == FilteredLayerObjs(d.layers, labels)
  {
    objs := [];
    var i := 0;
    while i < |labels|
      invariant 0 <= i <= |labels|
      invariant objs == FilteredLayerObjs(d.layers, labels[..i])
    {
      var wanted := labels[i];
      var j := 0;
      var hit: Option<Layer> := None;
      while j < |d.layers| && hit.None?
        invariant 0 <= j <= |d.layers|
        invariant hit.None? ==> FirstLayer(d.layers[j..], wanted) == FirstLayer(d.layers, wanted)
        invariant hit.Some? ==> hit == FirstLayer(d.layers, wanted)
        decreases |d.layers| - j, hit.None?
      {
        assert d.layers[j..][1..] == d.layers[j + 1..];
        if d.layers[j].inkLabel == wanted {
          hit := Some(d.layers[j]);
        } else {
          j := j + 1;
        }
      }
      if hit.Some? {
        objs := objs + [hit.value];
      }
      assert labels[..i + 1][..i] == labels[..i];
      i := i + 1;
    }
    assert labels[..i] == labels;
  }

  // ---------------------------------------------------------------------
  // Layers back to labels

  /** Going from labels to layer objects and back keeps exactly the labels
      the drawing has, in order. */
  lemma {:induction false} LabelRoundTrip(layers: seq<Layer>, labels: seq<string>)
    ensures LabelsOf(FilteredLayerObjs(layers, labels)) == Present(labels, LabelsOf(layers))
  {
    if labels != [] {
      var front := labels[..|labels| - 1];
      LabelRoundTrip(layers, front);
      var objs := FilteredLayerObjs(layers, front);
      var x := labels[|labels| - 1];
      if FirstLayer(layers, x).Some? {
        assert LabelsOf(objs + [FirstLayer(layers, x).value]) == LabelsOf(objs) + [x];
      }
    }
  }

  /** Labels taken from the drawing come back unchanged. */
  lemma {:induction false} PresentAll(labels: seq<string>, known: seq<string>)
    requires forall k :: 0 <= k < |labels| ==> labels[k] in known
    ensures Present(labels, known) == labels
  {
    if labels != [] {
      PresentAll(labels[..|labels| - 1], known);
      assert labels == labels[..|labels| - 1] + [labels[|labels| - 1]];
    }
  }

  /** Every object handed out is a layer of the drawing, the first one
      carrying its label. */
  lemma {:induction false} ObjectsAreFirstLayers(layers: seq<Layer>, labels: seq<string>)
    ensures forall o :: o in FilteredLayerObjs(layers, labels) ==>
      o in layers && FirstLayer(layers, o.inkLabel) == Some(o)
  {
    if labels != [] {
      ObjectsAreFirstLayers(layers, labels[..|labels| - 1]);
    }
  }
}
