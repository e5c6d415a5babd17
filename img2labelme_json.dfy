/**
 * img2labelmeJson/img2labelmeJson.py: the filter over connected-component
 * statistics that yields text regions, the two builders that turn regions
 * or boxes into LabelMe rectangle records, the image-format choice and the
 * emitter's input selection and output naming.
 *
 * The OpenCV calls that produce the statistics table, the PIL calls that
 * load and re-encode the image, base64 and the file write are not part of
 * this model: the table, the image size and the encoded image data are
 * parameters.
 */
module Img2LabelmeJson {
  import opened Wrappers
  import opened Paths
  import opened LabelMe

  /**
   * One row of the statistics table of connected-component labelling:
   * CC_STAT_LEFT, CC_STAT_TOP, CC_STAT_WIDTH, CC_STAT_HEIGHT, CC_STAT_AREA.
   * Row 0 is the background.
   */
  datatype CcStats = CcStats(left: int, top: int, width: int, height: int, area: int)

  /** Smallest component area (in pixels) that is kept: 30 by 30. */
  const MinRegion: int := 30 * 30

  /** A bounding box given as a map with keys xmin, ymin, xmax, ymax. */
  datatype Box = Box(xmin: int, ymin: int, xmax: int, ymax: int)

  /** The codec PIL is asked to save the image with. */
  datatype ImageFormat = JPEG | PNG

  /** `image_pil.size`, read from the loaded image. */
  datatype ImageSize = ImageSize(width: int, height: int)

  /** A document together with the path it is written to. */
  datatype JsonFile = JsonFile(path: string, document: Annotation)

  /** Default `label` argument of `ccRegion_to_json_shape`. */
  const DefaultLabel: string := "a"

  /** The label every box record carries. */
  const BoxLabel: string := "None"

  // ---------------------------------------------------------------------
  // connected_component_by_mask: the statistics filter

  /** The region built for one component: its top-left point, and that point moved by the component's size. */
  function ComponentCorners(s: CcStats): (c: Corners)
    ensures c.p1 == Point(s.left, s.top)
    ensures c.p2.x - c.p1.x == s.width && c.p2.y - c.p1.y == s.height
  {
    Corners(Point(s.left, s.top), Point(s.left + s.width, s.top + s.height))
  }

  /** The labels 1 .. hi - 1 of `stats` whose area is at least MinRegion, in ascending order. */
  function KeptLabels(stats: seq<CcStats>, hi: nat): (labels: seq<nat>)
    ensures forall k :: 0 <= k < |labels| ==> 1 <= labels[k] < hi && labels[k] < |stats|
  {
    if hi <= 1 then []
    else
      KeptLabels(stats, hi - 1)
      + (if hi - 1 < |stats| && stats[hi - 1].area >= MinRegion then [hi - 1] else [])
  }

  /** A label is kept exactly when it is not the background and its area reaches MinRegion. */
  lemma {:induction false} KeptLabelsExactly(stats: seq<CcStats>, hi: nat, l: nat)
    requires hi <= |stats|
    ensures l in KeptLabels(stats, hi) <==> 1 <= l < hi && stats[l].area >= MinRegion
  {
    if hi > 1 {
      KeptLabelsExactly(stats, hi - 1, l);
    }
  }

  /** Kept labels come out in strictly ascending label order, so none is repeated. */
  lemma {:induction false} KeptLabelsAscending(stats: seq<CcStats>, hi: nat)
    ensures forall i, j :: 0 <= i < j < |KeptLabels(stats, hi)| ==> KeptLabels(stats, hi)[i] < KeptLabels(stats, hi)[j]
  {
    if hi > 1 {
      KeptLabelsAscending(stats, hi - 1);
    }
  }

  /** `p1.copy()`: a fresh array with the same coordinates. */
  method CopyPoint(p: array<int>) returns (q: array<int>)
    ensures fresh(q) && q[..] == p[..]
  {
    q := new int[p.Length](i requires 0 <= i < p.Length reads p => p[i]);
  }

  /**
   * The loop of `connected_component_by_mask` over the statistics table:
   * one region per kept label, in label order. Each point is a
   * two-element array, and the bottom-right point is a copy of the
   * top-left one that is then moved, so moving it leaves p1 alone.
   */
  method ConnectedComponentRegions(stats: seq<CcStats>) returns (ccRegion: seq<Corners>)
    ensures |ccRegion| == |KeptLabels(stats, |stats|)|
    ensures forall k :: 0 <= k < |ccRegion| ==>
      ccRegion[k] == ComponentCorners(stats[KeptLabels(stats, |stats|)[k]])
  {
    var minRegion := MinRegion;
    ccRegion := [];
    var gLabel := 1;
    while gLabel < |stats|
      invariant 1 <= gLabel
      invariant gLabel <= |stats| || gLabel == 1
      invariant |ccRegion| == |KeptLabels(stats, gLabel)|
      invariant forall k :: 0 <= k < |ccRegion| ==>
        ccRegion[k] == ComponentCorners(stats[KeptLabels(stats, gLabel)[k]])
    {
      if stats[gLabel].area < minRegion {
        gLabel := gLabel + 1;
        continue;
      }
      var p1 := new int[2];
      p1[0], p1[1] := stats[gLabel].left, stats[gLabel].top;
      var objectW := stats[gLabel].width;
      var objectH := stats[gLabel].height;
      var p2 := CopyPoint(p1);
      p2[0] := p2[0] + objectW;
      p2[1] := p2[1] + objectH;
      ccRegion := ccRegion + [Corners(Point(p1[0], p1[1]), Point(p2[0], p2[1]))];
      gLabel := gLabel + 1;
    }
    assert KeptLabels(stats, gLabel) == KeptLabels(stats, |stats|);
  }

  // ---------------------------------------------------------------------
  // bBoxes_to_json_shape and ccRegion_to_json_shape

  /** The box a rectangle record stands for: its first point is the minimum corner. */
  function BoxOf(s: Shape): Box
  {
    Box(s.points.p1.x, s.points.p1.y, s.points.p2.x, s.points.p2.y)
  }

  /** `bBoxes_to_json_shape`: one "None"-labelled rectangle record per box, in box order. */
  method BoxesToShapes(bBoxes: seq<Box>) returns (shape: seq<Shape>)
    ensures |shape| == |bBoxes|
    ensures forall i :: 0 <= i < |shape| ==>
      IsRectangleRecord(shape[i]) && shape[i].labelName == BoxLabel && BoxOf(shape[i]) == bBoxes[i]
  {
    shape := [];
    for i := 0 to |bBoxes|
      invariant |shape| == i
      invariant forall k :: 0 <= k < i ==>
        IsRectangleRecord(shape[k]) && shape[k].labelName == BoxLabel && BoxOf(shape[k]) == bBoxes[k]
    {
      var box := bBoxes[i];
      var data := RectangleRecord(BoxLabel, Corners(Point(box.xmin, box.ymin), Point(box.xmax, box.ymax)));
      shape := shape + [data];
    }
  }

  /** `ccRegion_to_json_shape`: one record per region, in region order, carrying the region's two points. */
  method RegionsToShapes(ccRegion: seq<Corners>, labelName: string := DefaultLabel) returns (shape: seq<Shape>)
    ensures |shape| == |ccRegion|
    ensures forall i :: 0 <= i < |shape| ==>
      IsRectangleRecord(shape[i]) && shape[i].labelName == labelName && shape[i].points == ccRegion[i]
  {
    shape := [];
    for i := 0 to |ccRegion|
      invariant |shape| == i
      invariant forall k :: 0 <= k < i ==>
        IsRectangleRecord(shape[k]) && shape[k].labelName == labelName && shape[k].points == ccRegion[k]
    {
      var cc := ccRegion[i];
      var ccData := RectangleRecord(labelName, Corners(Point(cc.p1.x, cc.p1.y), Point(cc.p2.x, cc.p2.y)));
      shape := shape + [ccData];
    }
  }

  // ---------------------------------------------------------------------
  // img_array_to_b64: the format choice

  /** JPEG when the lower-cased extension is ".jpg" or ".jpeg", PNG for anything else. */
  function FormatFor(fileName: string): ImageFormat
  {
    var ext := Lower(SplitExt(fileName).1);
    if ext == ".jpg" || ext == ".jpeg" then JPEG else PNG
  }

  /** For a file `stem.ext`, the format is JPEG exactly when `ext` is "jpg" or "jpeg" in any letter case. */
  lemma FormatOfStem(stem: string, ext: string)
    requires Sep !in stem && Sep !in ext && ExtSep !in ext
    requires exists k :: 0 <= k < |stem| && stem[k] != ExtSep
    ensures FormatFor(stem + [ExtSep] + ext) == JPEG <==> Lower(ext) == "jpg" || Lower(ext) == "jpeg"
  {
    var e := Lower(ext);
    assert Lower(SplitExt(stem + [ExtSep] + ext).1) == [ExtSep] + e by {
      SplitExtOfStem(stem, ext);
      LowerCons(ExtSep, ext);
    }
    DottedJpeg(e);
  }

  /** ".jpg" and ".jpeg" are a dot followed by "jpg" and "jpeg". */
  lemma DottedJpeg(e: string)
    ensures [ExtSep] + e == ".jpg" || [ExtSep] + e == ".jpeg" <==> e == "jpg" || e == "jpeg"
  {
    var dotted := [ExtSep] + e;
    assert ".jpg" == [ExtSep] + "jpg" && ".jpeg" == [ExtSep] + "jpeg";
    assert e == dotted[1..];
  }

  /** A name that is only a dot and "jpg" has no extension, so it is saved as PNG. */
  lemma DotFileIsPng()
    ensures FormatFor(".jpg") == PNG
  {
    var p := ".jpg";
    assert p[0] == ExtSep && p[1] != ExtSep && p[2] != ExtSep && p[3] != ExtSep;
    assert Sep !in p;
    assert RFind(p, ExtSep) == 0;
    assert SplitExt(p) == (p, []);
  }

  // ---------------------------------------------------------------------
  // generateImgLabelJson

  /** A file name without any dot is saved as PNG and gets the output name `name.json`. */
  lemma NoDotNames(name: string)
    requires ExtSep !in name
    ensures FormatFor(name) == PNG && JsonName(name) == name + ".json"
  {
    SplitExtNoDot(name);
  }

  /** The output name: the file name without its extension, plus ".json". */
  function JsonName(fileName: string): string
  {
    SplitExt(fileName).0 + ".json"
  }

  /** A file `stem.ext` is given the name `stem.json`. */
  lemma JsonNameOfStem(stem: string, ext: string)
    requires Sep !in stem && Sep !in ext && ExtSep !in ext
    requires exists k :: 0 <= k < |stem| && stem[k] != ExtSep
    ensures JsonName(stem + [ExtSep] + ext) == stem + ".json"
  {
    SplitExtOfStem(stem, ext);
  }

  /** An image named `stem.ext` is written to the file `stem.json` inside `outRoot`. */
  lemma OutputNameOfImage(outRoot: string, stem: string, ext: string)
    requires Sep !in stem && Sep !in ext && ExtSep !in ext
    requires exists k :: 0 <= k < |stem| && stem[k] != ExtSep
    ensures Basename(Join(outRoot, JsonName(stem + [ExtSep] + ext))) == stem + ".json"
  {
    JsonNameOfStem(stem, ext);
    var name := stem + ".json";
    assert Sep !in name;
    JoinBasename(outRoot, name);
  }

  /**
   * `generateImgLabelJson`: nothing is written when both inputs are None;
   * otherwise regions take precedence over boxes (an empty region list
   * still counts as given), and the document is written to
   * `outRoot/<stem>.json`. `encode` stands for PIL's save in the chosen
   * format followed by base64.
   */
  method GenerateImgLabelJson(
    filePath: string, outRoot: string, size: ImageSize, encode: ImageFormat -> string,
    ccRegion: Option<seq<Corners>> := None, bBoxes: Option<seq<Box>> := None)
    returns (written: Option<JsonFile>)
    ensures written.None? <==> ccRegion.None? && bBoxes.None?
    ensures written.Some? ==>
      var fileName := Basename(filePath);
      written.value.path == Join(outRoot, JsonName(fileName)) &&
      written.value.document
        == Document(written.value.document.shapes, fileName, encode(FormatFor(fileName)), size.height, size.width)
    ensures ccRegion.Some? ==>
      written.Some? &&
      var shapes := written.value.document.shapes;
      |shapes| == |ccRegion.value| &&
      forall i :: 0 <= i < |shapes| ==> shapes[i] == RectangleRecord(DefaultLabel, ccRegion.value[i])
    ensures ccRegion.None? && bBoxes.Some? ==>
      written.Some? &&
      var shapes := written.value.document.shapes;
      |shapes| == |bBoxes.value| &&
      forall i :: 0 <= i < |shapes| ==>
        IsRectangleRecord(shapes[i]) && shapes[i].labelName == BoxLabel && BoxOf(shapes[i]) == bBoxes.value[i]
  {
    if ccRegion == None && bBoxes == None {
      return None;
    }
    var fileName := Basename(filePath);
    var shape;
    if ccRegion != None {
      shape := RegionsToShapes(ccRegion.value);
    } else {
      shape := BoxesToShapes(bBoxes.value);
    }
    var imageData := encode(FormatFor(fileName));
    var name := JsonName(fileName);
    var data := Document(shape, fileName, imageData, size.height, size.width);
    written := Some(JsonFile(Join(outRoot, name), data));
  }
}
