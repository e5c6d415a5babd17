/** The loops of parse.py, each proved to compute its specification in ParseSpec. */
module ParseRun {
  import opened Wrappers
  import opened Paths
  import opened LabelMe
  import opened PyStr
  import opened ParseSpec
  import opened PageFacts
  import opened RunFacts

  /** `parse`'s loop over the children of one page. */
  method CollectTextShapes(elements: seq<Element>) returns (r: Result<seq<Shape>, ParseError>)
    ensures r == PageRecords(elements)
  {
    ghost var results := ElementResults(elements);
    var shape: seq<Shape> := [];
    for i := 0 to |elements|
      invariant Collect(results[..i]) == Success(shape)
    {
      var element := elements[i];
      assert results[..i + 1][..i] == results[..i];
      assert results[i] == ElementRecord(element);
      if element.tag == "text" {
        var attr := element.attrib;
        var record := BoxRecord(IntAttr(attr, "xmin"), IntAttr(attr, "xmax"), IntAttr(attr, "ymin"), IntAttr(attr, "ymax"));
        if record.Failure? {
          r := Failure(record.error);
          CollectStops(results, i + 1);
          return;
        }
        if record.value.Some? {
          shape := shape + [record.value.value];
        }
      }
    }
    assert results[..|elements|] == results;
    r := Success(shape);
  }

  /** The body of `parse`'s loop over pages, for one page. */
  method ConvertPage(mangaFolder: string, page: Element, load: string -> Option<LoadedImage>)
    returns (r: Result<PageJson, ParseError>)
    ensures r == PageOutcome(mangaFolder, page, load)
  {
    if "index" !in page.attrib {
      return Failure(KeyError("index"));
    }
    var imgName := ZFill(page.attrib["index"], 3) + ".jpg";
    var imgPath := Join(mangaFolder, imgName);
    var image := load(imgPath);
    if image.None? {
      return Failure(ImageError(imgPath));
    }
    var shape := CollectTextShapes(page.children);
    if shape.Failure? {
      return Failure(shape.error);
    }
    var jsonPath := Join(mangaFolder, BeforeFirst(imgName, ExtSep) + ".json");
    var data := Document(shape.value, imgName, image.value.base64, image.value.height, image.value.width);
    r := Success(PageJson(jsonPath, data));
  }

  /**
   * `parse`'s loop over the pages of one `pages` element, continuing the
   * run `start`: each page is converted and its file written, until the
   * first exception.
   */
  method ConvertPages(mangaFolder: string, pages: seq<Element>, load: string -> Option<LoadedImage>, start: Run)
    returns (run: Run)
    requires start.error.None?
    ensures run == RunOutcomes(start, PageOutcomes(mangaFolder, pages, load))
  {
    run := start;
    for k := 0 to |pages|
      invariant run.error.None? && run == RunOutcomes(start, PageOutcomes(mangaFolder, pages[..k], load))
    {
      var r := ConvertPage(mangaFolder, pages[k], load);
      PagesStep(start, mangaFolder, pages, k, load);
      if r.Failure? {
        run := Run(run.written, Some(r.error));
        PagesStop(start, mangaFolder, pages, k, load);
        return;
      }
      run := Run(run.written + [r.value], None);
    }
    assert pages[..|pages|] == pages;
  }

  /**
   * `parse`'s work on one annotation tree, continuing the run `start`: the
   * title names the image folder, and the pages of every root child tagged
   * `pages` are converted in order, until the first exception.
   */
  method ConvertTree(imgFolder: string, root: Element, load: string -> Option<LoadedImage>, start: Run)
    returns (run: Run)
    requires start.error.None?
    ensures run == RunOutcomes(start, TreeOutcomes(imgFolder, root, load))
  {
    if "title" !in root.attrib {
      assert TreeOutcomes(imgFolder, root, load)[..0] == [];
      return Run(start.written, Some(KeyError("title")));
    }
    var mangaFolder := Join(imgFolder, root.attrib["title"]);
    var children := root.children;
    run := start;
    for j := 0 to |children|
      invariant run.error.None? && run == RunOutcomes(start, PageOutcomes(mangaFolder, PagesOf(children[..j]), load))
    {
      var child := children[j];
      ChildrenStep(start, mangaFolder, children, j, load);
      if child.tag == "pages" {
        run := ConvertPages(mangaFolder, child.children, load, run);
        if run.error.Some? {
          ChildrenStop(start, mangaFolder, children, j, load);
          return;
        }
      }
    }
    assert children[..|children|] == children;
  }

  /**
   * `parse(rootFolder)` over the annotation trees `roots`: every tree is
   * converted in order, until the first exception.
   */
  method Parse(rootFolder: string, roots: seq<Element>, load: string -> Option<LoadedImage>) returns (run: Run)
    ensures run == Conversion(rootFolder, roots, load)
  {
    var imgFolder := Join(rootFolder, "images");
    run := Run([], None);
    for i := 0 to |roots|
      invariant run.error.None? && run == RunOutcomes(Run([], None), AllOutcomes(imgFolder, roots[..i], load))
    {
      run := ConvertTree(imgFolder, roots[i], load, run);
      TreesStep(imgFolder, roots, i, load);
      if run.error.Some? {
        TreesStop(imgFolder, roots, i, load);
        return;
      }
    }
    assert roots[..|roots|] == roots;
  }
}
