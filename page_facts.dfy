/** What parse.py's walk over one page's elements guarantees. */
module PageFacts {
  import opened Wrappers
  import opened Paths
  import opened LabelMe
  import opened PyStr
  import opened ParseSpec
  import PyStrFacts

  /**
   * Once its four coordinates are read, a text element yields a record
   * exactly when xmin < xmax and ymin < ymax, and that record holds the
   * coordinates as `[[xmin, ymin], [xmax, ymax]]`.
   */
  lemma BoxRecordExactly(xmin: int, ymin: int, xmax: int, ymax: int)
    ensures var r := BoxRecord(Success(xmin), Success(xmax), Success(ymin), Success(ymax));
      r.Success? && (r.value.Some? <==> xmin < xmax && ymin < ymax) &&
      (r.value.Some? ==> IsTextRecord(r.value.value) && r.value.value.points == Corners(Point(xmin, ymin), Point(xmax, ymax)))
  {
  }

  /**
   * A text element raises exactly when xmin or xmax cannot be read, or when
   * xmin < xmax holds and ymin or ymax cannot be read; the exception is the
   * one of the first conversion that failed.
   */
  lemma BoxRecordFailure(xmin: Result<int, ParseError>, xmax: Result<int, ParseError>,
                         ymin: Result<int, ParseError>, ymax: Result<int, ParseError>)
    ensures var r := BoxRecord(xmin, xmax, ymin, ymax);
      r.Failure? <==>
        xmin.Failure? || xmax.Failure? || (xmin.value < xmax.value && (ymin.Failure? || ymax.Failure?))
    ensures var r := BoxRecord(xmin, xmax, ymin, ymax);
      var first := if xmin.Failure? then xmin else if xmax.Failure? then xmax else if ymin.Failure? then ymin else ymax;
      r.Failure? ==> r.error == first.error
  {
  }

  /**
   * A `text` element whose four coordinates read as integers yields a
   * record exactly when int(xmin) < int(xmax) and int(ymin) < int(ymax),
   * and the record holds those coordinates; an element with another tag
   * yields nothing.
   */
  lemma ElementRecordExactly(element: Element, xmin: int, ymin: int, xmax: int, ymax: int)
    requires IntAttr(element.attrib, "xmin") == Success(xmin) && IntAttr(element.attrib, "xmax") == Success(xmax)
    requires IntAttr(element.attrib, "ymin") == Success(ymin) && IntAttr(element.attrib, "ymax") == Success(ymax)
    ensures Yields(element) <==> element.tag == "text" && xmin < xmax && ymin < ymax
    ensures Yields(element) ==> ElementRecord(element).value.value.points == Corners(Point(xmin, ymin), Point(xmax, ymax))
  {
    BoxRecordExactly(xmin, ymin, xmax, ymax);
  }

  /** Every record an element yields comes from a text element and is a non-degenerate "a" rectangle. */
  lemma ElementRecordValid(element: Element)
    requires Yields(element)
    ensures element.tag == "text" && IsTextRecord(ElementRecord(element).value.value)
  {
  }

  /** Once an exception is raised on a page, the rest of the page is not read. */
  lemma {:induction false} CollectStops(results: seq<ElementResult>, i: nat)
    requires i <= |results| && Collect(results[..i]).Failure?
    ensures Collect(results) == Collect(results[..i])
    decreases |results| - i
  {
    if i < |results| {
      var n := |results| - 1;
      assert results[..n][..i] == results[..i];
      CollectStops(results[..n], i);
    } else {
      assert results[..i] == results;
    }
  }

  /** A page is read without an exception exactly when none of its children raises one. */
  lemma {:induction false} CollectSucceeds(results: seq<ElementResult>)
    ensures Collect(results).Success? <==> forall k :: 0 <= k < |results| ==> results[k].Success?
  {
    if results != [] {
      var n := |results| - 1;
      CollectSucceeds(results[..n]);
      assert forall k :: 0 <= k < n ==> results[..n][k] == results[k];
    }
  }

  /**
   * The records are the contents of the results that hold one, in order:
   * the k-th record comes from the k-th such position.
   */
  lemma {:induction false} CollectInOrder(results: seq<ElementResult>)
    requires Collect(results).Success?
    ensures var shapes := Collect(results).value;
      var ix := Positions(results);
      |shapes| == |ix| && forall k :: 0 <= k < |ix| ==> results[ix[k]] == Success(Some(shapes[k]))
  {
    if results != [] {
      var n := |results| - 1;
      CollectInOrder(results[..n]);
      var ix := Positions(results[..n]);
      assert forall k :: 0 <= k < |ix| ==> results[..n][ix[k]] == results[ix[k]];
    }
  }

  /** The positions Positions lists are exactly those of the results that hold a record. */
  lemma {:induction false} PositionsExactly(results: seq<ElementResult>, i: nat)
    requires i < |results|
    ensures i in Positions(results) <==> results[i].Success? && results[i].value.Some?
  {
    var n := |results| - 1;
    if i < n {
      PositionsExactly(results[..n], i);
    }
  }

  /** A page is read without an exception exactly when none of its `text` elements raises one. */
  lemma PageRecordsSucceeds(elements: seq<Element>)
    ensures PageRecords(elements).Success? <==> forall k :: 0 <= k < |elements| ==> ElementRecord(elements[k]).Success?
  {
    var results := ElementResults(elements);
    CollectSucceeds(results);
    assert forall k :: 0 <= k < |elements| ==> results[k] == ElementRecord(elements[k]);
  }

  /**
   * A page that is read without an exception holds one record per yielding
   * element, in element order: the k-th record is the record of the k-th
   * yielding element, which is a text element.
   */
  lemma PageRecordsInOrder(elements: seq<Element>)
    requires PageRecords(elements).Success?
    ensures var shapes := PageRecords(elements).value;
      var ix := RecordIndices(elements);
      |shapes| == |ix| &&
      forall k :: 0 <= k < |ix| ==>
        Yields(elements[ix[k]]) && elements[ix[k]].tag == "text" && shapes[k] == ElementRecord(elements[ix[k]]).value.value
  {
    var results := ElementResults(elements);
    CollectInOrder(results);
    var ix := RecordIndices(elements);
    forall k | 0 <= k < |ix|
      ensures Yields(elements[ix[k]]) && elements[ix[k]].tag == "text"
    {
      assert results[ix[k]] == ElementRecord(elements[ix[k]]);
      ElementRecordValid(elements[ix[k]]);
    }
  }

  /** The positions RecordIndices lists are exactly those of the yielding elements. */
  lemma RecordIndicesExactly(elements: seq<Element>, i: nat)
    requires i < |elements|
    ensures i in RecordIndices(elements) <==> Yields(elements[i])
  {
    PositionsExactly(ElementResults(elements), i);
  }

  /** Every record on a page is a non-degenerate "a" rectangle. */
  lemma PageRecordsValid(elements: seq<Element>)
    requires PageRecords(elements).Success?
    ensures forall s :: s in PageRecords(elements).value ==> IsTextRecord(s)
  {
    var shapes := PageRecords(elements).value;
    var ix := RecordIndices(elements);
    PageRecordsInOrder(elements);
    forall s | s in shapes
      ensures IsTextRecord(s)
    {
      var k :| 0 <= k < |shapes| && shapes[k] == s;
      ElementRecordValid(elements[ix[k]]);
    }
  }

  /** A text element whose box is inverted yields no record. */
  lemma InvertedTextDropped()
    ensures PageRecords([Element("text", map["xmin" := "5", "ymin" := "5", "xmax" := "3", "ymax" := "3"], [])])
      == Success([])
  {
    PyStrFacts.ParseIntDecimal(5);
    PyStrFacts.ParseIntDecimal(3);
    var e := Element("text", map["xmin" := "5", "ymin" := "5", "xmax" := "3", "ymax" := "3"], []);
    assert Decimal(5) == "5" && Decimal(3) == "3";
    assert IntAttr(e.attrib, "xmin") == Success(5) && IntAttr(e.attrib, "xmax") == Success(3);
    assert ElementRecord(e) == Success(None);
    assert ElementResults([e]) == [Success(None)];
    assert ElementResults([e])[..0] == [];
  }

  /**
   * A page index without a dot names the image `<padded>.jpg` and the
   * document `<padded>.json`, where the padded index is at least 3 long
   * and ends with the index itself.
   */
  lemma PageNames(index: string)
    requires ExtSep !in index
    ensures var padded := ZFill(index, 3);
      ImageName(index) == padded + ".jpg" && PageJsonName(ImageName(index)) == padded + ".json"
      && |padded| == (if |index| >= 3 then |index| else 3)
  {
    var padded := ZFill(index, 3);
    assert ExtSep !in padded by {
      if HasSign(index) {
        assert forall i :: |padded| - |index| + 1 <= i < |padded| ==> padded[i] == index[i - |padded| + |index|];
      } else {
        assert forall i :: |padded| - |index| <= i < |padded| ==> padded[i] == index[i - |padded| + |index|];
      }
    }
    var name := padded + ".jpg";
    assert name[|padded|] == ExtSep;
    assert BeforeFirst(name, ExtSep) == padded;
  }

  /** Page "7" is the image "007.jpg" and the document "007.json". */
  lemma PageSeven()
    ensures ImageName("7") == "007.jpg" && PageJsonName("007.jpg") == "007.json"
  {
    assert ZFill("7", 3) == "007";
    PageNames("7");
  }

  /** Every document a page yields holds only non-degenerate "a" rectangles and names its own image. */
  lemma PageOutcomeValid(mangaFolder: string, page: Element, load: string -> Option<LoadedImage>)
    requires PageOutcome(mangaFolder, page, load).Success?
    ensures var doc := PageOutcome(mangaFolder, page, load).value.document;
      doc.version == Version && doc.imagePath == ImageName(page.attrib["index"])
      && forall s :: s in doc.shapes ==> IsTextRecord(s)
  {
    PageRecordsValid(page.children);
  }
}
