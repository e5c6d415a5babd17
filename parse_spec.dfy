/**
 * parse.py: the walk over Manga109 annotation trees that writes one
 * LabelMe document per page, holding a rectangle for every text element
 * whose box is not degenerate.
 *
 * The annotation trees are given already parsed (one root per XML file,
 * in directory-listing order); opening an image, reading its size and
 * base64-encoding its bytes are one foreign call, `load`, that may fail.
 * The first exception ends the whole run; the files written before it stay
 * written.
 */
module ParseSpec {
  import opened Wrappers
  import opened Paths
  import opened LabelMe
  import opened PyStr

  /** An XML element: its tag, its attributes as text, and its children in document order. */
  datatype Element = Element(tag: string, attrib: map<string, string>, children: seq<Element>)

  /**
   * The exceptions that end `parse`: an attribute lookup that fails, an
   * attribute text that `int` rejects, an image that cannot be opened.
   */
  datatype ParseError = KeyError(key: string) | ValueError(text: string) | ImageError(path: string)

  /** What the image calls yield: `image.size` and `img_to_base64(img_path)`. */
  datatype LoadedImage = LoadedImage(width: int, height: int, base64: string)

  /** A document together with the path it is written to. */
  datatype PageJson = PageJson(path: string, document: Annotation)

  /** A run so far: the files written, and the exception that stopped it, if any. */
  datatype Run = Run(written: seq<PageJson>, error: Option<ParseError>)

  /** `default_label`, the label of every text record. */
  const TextLabel: string := "a"

  /** `int(attr[key])`. */
  function IntAttr(attrib: map<string, string>, key: string): Result<int, ParseError>
  {
    if key !in attrib then Failure(KeyError(key))
    else match ParseInt(attrib[key])
      case None => Failure(ValueError(attrib[key]))
      case Some(n) => Success(n)
  }

  /**
   * The condition and record for one `text` element, from the four
   * conversions `int(attr['xmin'])`, `int(attr['xmax'])`, `int(attr['ymin'])`
   * and `int(attr['ymax'])`. The x test is evaluated first, and the y
   * conversions only count when it holds, so their exceptions are raised
   * only then.
   */
  function BoxRecord(xmin: Result<int, ParseError>, xmax: Result<int, ParseError>,
                     ymin: Result<int, ParseError>, ymax: Result<int, ParseError>): Result<Option<Shape>, ParseError>
  {
    if xmin.Failure? then Failure(xmin.error)
    else if xmax.Failure? then Failure(xmax.error)
    else if !(xmin.value < xmax.value) then Success(None)
    else if ymin.Failure? then Failure(ymin.error)
    else if ymax.Failure? then Failure(ymax.error)
    else if ymin.value < ymax.value then
      Success(Some(RectangleRecord(TextLabel, Corners(Point(xmin.value, ymin.value), Point(xmax.value, ymax.value)))))
    else Success(None)
  }

  /** What one child of a page contributes: nothing unless it is a `text` element. */
  function ElementRecord(element: Element): Result<Option<Shape>, ParseError>
  {
    if element.tag != "text" then Success(None)
    else
      var attrib := element.attrib;
      BoxRecord(IntAttr(attrib, "xmin"), IntAttr(attrib, "xmax"), IntAttr(attrib, "ymin"), IntAttr(attrib, "ymax"))
  }

  /** A record of the kind a page holds: label "a", a rectangle, and a box that is not degenerate. */
  predicate IsTextRecord(s: Shape)
  {
    s.labelName == TextLabel && IsRectangleRecord(s) && NonDegenerate(s.points)
  }

  /** What one child of a page contributes, or the exception it raises. */
  type ElementResult = Result<Option<Shape>, ParseError>

  /** What each child of a page contributes, in order. */
  function ElementResults(elements: seq<Element>): (results: seq<ElementResult>)
    ensures |results| == |elements|
  {
    seq(|elements|, i requires 0 <= i < |elements| => ElementRecord(elements[i]))
  }

  /**
   * The `shape` list grown by `append` over a page's children: their
   * records in order, or the first exception.
   */
  function Collect(results: seq<ElementResult>): Result<seq<Shape>, ParseError>
  {
    if results == [] then Success([])
    else
      match Collect(results[..|results| - 1])
      case Failure(e) => Failure(e)
      case Success(shapes) =>
        match results[|results| - 1]
        case Failure(e) => Failure(e)
        case Success(None) => Success(shapes)
        case Success(Some(s)) => Success(shapes + [s])
  }

  /** The `shape` list of one page, or the first exception raised while reading its children. */
  function PageRecords(elements: seq<Element>): Result<seq<Shape>, ParseError>
  {
    Collect(ElementResults(elements))
  }

  /** Whether an element contributes a record to its page. */
  predicate Yields(element: Element)
  {
    ElementRecord(element).Success? && ElementRecord(element).value.Some?
  }

  /** The positions of the results that hold a record, ascending. */
  function Positions(results: seq<ElementResult>): (ix: seq<nat>)
    ensures forall k :: 0 <= k < |ix| ==> ix[k] < |results|
    ensures forall k, l :: 0 <= k < l < |ix| ==> ix[k] < ix[l]
  {
    if results == [] then []
    else
      var n := |results| - 1;
      Positions(results[..n]) + (if results[n].Success? && results[n].value.Some? then [n] else [])
  }

  /** The positions of the children of a page that contribute records, ascending. */
  function RecordIndices(elements: seq<Element>): seq<nat>
  {
    Positions(ElementResults(elements))
  }

  /** `page.attrib['index'].zfill(3) + '.jpg'`. */
  function ImageName(index: string): string
  {
    ZFill(index, 3) + ".jpg"
  }

  /** `img_name.split('.')[0] + '.json'`. */
  function PageJsonName(imgName: string): string
  {
    BeforeFirst(imgName, ExtSep) + ".json"
  }

  /** What converting one page gives: the file to write, or the exception raised. */
  function PageOutcome(mangaFolder: string, page: Element, load: string -> Option<LoadedImage>): Result<PageJson, ParseError>
  {
    if "index" !in page.attrib then Failure(KeyError("index"))
    else
      var imgName := ImageName(page.attrib["index"]);
      var imgPath := Join(mangaFolder, imgName);
      match load(imgPath)
      case None => Failure(ImageError(imgPath))
      case Some(image) =>
        match PageRecords(page.children)
        case Failure(e) => Failure(e)
        case Success(shapes) =>
          Success(PageJson(
            Join(mangaFolder, PageJsonName(imgName)),
            Document(shapes, imgName, image.base64, image.height, image.width)))
  }

  /** The root children tagged `pages`, flattened into their page elements, in order. */
  function PagesOf(children: seq<Element>): seq<Element>
  {
    if children == [] then []
    else
      var child := children[|children| - 1];
      PagesOf(children[..|children| - 1]) + (if child.tag == "pages" then child.children else [])
  }

  /** What converting one page gives. */
  type Outcome = Result<PageJson, ParseError>

  /** The outcomes of a sequence of pages, in order. */
  function PageOutcomes(mangaFolder: string, pages: seq<Element>, load: string -> Option<LoadedImage>): (outs: seq<Outcome>)
    ensures |outs| == |pages|
  {
    seq(|pages|, k requires 0 <= k < |pages| => PageOutcome(mangaFolder, pages[k], load))
  }

  /**
   * The outcomes of one annotation tree: its title names the image folder
   * and every page under a `pages` child is converted; a tree without a
   * title raises before any of its pages.
   */
  function TreeOutcomes(imgFolder: string, root: Element, load: string -> Option<LoadedImage>): seq<Outcome>
  {
    if "title" !in root.attrib then [Failure(KeyError("title"))]
    else PageOutcomes(Join(imgFolder, root.attrib["title"]), PagesOf(root.children), load)
  }

  /** The outcomes of a sequence of annotation trees, tree after tree. */
  function AllOutcomes(imgFolder: string, roots: seq<Element>, load: string -> Option<LoadedImage>): seq<Outcome>
  {
    if roots == [] then []
    else AllOutcomes(imgFolder, roots[..|roots| - 1], load) + TreeOutcomes(imgFolder, roots[|roots| - 1], load)
  }

  /** One step of a run: a file is written, or the run stops; once stopped, nothing happens. */
  function Step(run: Run, outcome: Outcome): Run
  {
    if run.error.Some? then run
    else
      match outcome
      case Success(file) => Run(run.written + [file], None)
      case Failure(e) => Run(run.written, Some(e))
  }

  /** A run over a sequence of outcomes, in order. */
  function RunOutcomes(run: Run, outcomes: seq<Outcome>): Run
  {
    if outcomes == [] then run
    else Step(RunOutcomes(run, outcomes[..|outcomes| - 1]), outcomes[|outcomes| - 1])
  }

  /**
   * `parse(rootFolder)` over the annotation trees `roots`, given in the
   * order the annotation folder lists them: every page is converted and
   * written in order, until the first exception.
   */
  function Conversion(rootFolder: string, roots: seq<Element>, load: string -> Option<LoadedImage>): Run
  {
    RunOutcomes(Run([], None), AllOutcomes(Join(rootFolder, "images"), roots, load))
  }
}
