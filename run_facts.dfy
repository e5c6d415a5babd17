/** How parse.py's run over annotation trees and pages proceeds and stops. */
module RunFacts {
  import opened Wrappers
  import opened Paths
  import opened ParseSpec
  import opened PageFacts

  /** Only the children of root children tagged `pages` are visited as pages. */
  lemma {:induction false} PagesOfOnlyPages(children: seq<Element>, page: Element)
    requires page in PagesOf(children)
    ensures exists c :: c in children && c.tag == "pages" && page in c.children
  {
    var n := |children| - 1;
    var child := children[n];
    if page in PagesOf(children[..n]) {
      PagesOfOnlyPages(children[..n], page);
      var c :| c in children[..n] && c.tag == "pages" && page in c.children;
      assert c in children;
    } else {
      assert child in children;
    }
  }

  /** Splitting the root children splits the pages visited. */
  lemma {:induction false} PagesOfAppend(a: seq<Element>, b: seq<Element>)
    ensures PagesOf(a + b) == PagesOf(a) + PagesOf(b)
    decreases |b|
  {
    if b != [] {
      var n := |b| - 1;
      assert (a + b)[..|a + b| - 1] == a + b[..n];
      PagesOfAppend(a, b[..n]);
    } else {
      assert a + b == a;
    }
  }

  /** Splitting the pages splits their outcomes. */
  lemma PageOutcomesAppend(mangaFolder: string, a: seq<Element>, b: seq<Element>, load: string -> Option<LoadedImage>)
    ensures PageOutcomes(mangaFolder, a + b, load) == PageOutcomes(mangaFolder, a, load) + PageOutcomes(mangaFolder, b, load)
  {
    var ab := PageOutcomes(mangaFolder, a + b, load);
    var both := PageOutcomes(mangaFolder, a, load) + PageOutcomes(mangaFolder, b, load);
    assert forall k :: 0 <= k < |ab| ==> ab[k] == both[k] by {
      forall k | 0 <= k < |ab|
        ensures ab[k] == both[k]
      {
        if k < |a| {
          assert (a + b)[k] == a[k];
        } else {
          assert (a + b)[k] == b[k - |a|];
        }
      }
    }
  }

  /** Splitting the annotation trees splits their outcomes. */
  lemma {:induction false} AllOutcomesAppend(imgFolder: string, a: seq<Element>, b: seq<Element>, load: string -> Option<LoadedImage>)
    ensures AllOutcomes(imgFolder, a + b, load) == AllOutcomes(imgFolder, a, load) + AllOutcomes(imgFolder, b, load)
    decreases |b|
  {
    if b != [] {
      var n := |b| - 1;
      assert (a + b)[..|a + b| - 1] == a + b[..n];
      AllOutcomesAppend(imgFolder, a, b[..n], load);
    } else {
      assert a + b == a;
    }
  }

  /** A stopped run stays stopped. */
  lemma {:induction false} RunOutcomesAbsorbs(run: Run, outcomes: seq<Outcome>)
    requires run.error.Some?
    ensures RunOutcomes(run, outcomes) == run
  {
    if outcomes != [] {
      RunOutcomesAbsorbs(run, outcomes[..|outcomes| - 1]);
    }
  }

  /** Running over `a + b` is running over `a`, then over `b`. */
  lemma {:induction false} RunOutcomesAppend(run: Run, a: seq<Outcome>, b: seq<Outcome>)
    ensures RunOutcomes(run, a + b) == RunOutcomes(RunOutcomes(run, a), b)
    decreases |b|
  {
    if b != [] {
      var n := |b| - 1;
      assert (a + b)[..|a + b| - 1] == a + b[..n];
      RunOutcomesAppend(run, a, b[..n]);
    } else {
      assert a + b == a;
    }
  }

  /** Once a run has stopped, later outcomes are ignored. */
  lemma RunOutcomesStops(run: Run, a: seq<Outcome>, b: seq<Outcome>)
    requires RunOutcomes(run, a).error.Some?
    ensures RunOutcomes(run, a + b) == RunOutcomes(run, a)
  {
    RunOutcomesAppend(run, a, b);
    RunOutcomesAbsorbs(RunOutcomes(run, a), b);
  }

  /**
   * Files are written in order, one per successful outcome, and the run
   * stops at the first failing outcome and reports its exception; a run
   * with no failing outcome writes them all.
   */
  lemma {:induction false} RunOutcomesResult(run: Run, outcomes: seq<Outcome>)
    requires run.error.None?
    ensures var r := RunOutcomes(run, outcomes);
      var done := |r.written| - |run.written|;
      |run.written| <= |r.written| && r.written[..|run.written|] == run.written && done <= |outcomes|
      && (forall k :: 0 <= k < done ==> outcomes[k] == Success(r.written[|run.written| + k]))
      && (r.error.None? ==> done == |outcomes|)
      && (r.error.Some? ==> done < |outcomes| && outcomes[done] == Failure(r.error.value))
  {
    if outcomes != [] {
      var n := |outcomes| - 1;
      RunOutcomesResult(run, outcomes[..n]);
    }
  }

  /** The documents in the outcomes of a sequence of pages. */
  predicate AllTextRecords(outcomes: seq<Outcome>)
  {
    forall k :: 0 <= k < |outcomes| && outcomes[k].Success? ==>
      forall s :: s in outcomes[k].value.document.shapes ==> IsTextRecord(s)
  }

  /** Every document a sequence of pages yields holds only non-degenerate "a" rectangles. */
  lemma PageOutcomesValid(mangaFolder: string, pages: seq<Element>, load: string -> Option<LoadedImage>)
    ensures AllTextRecords(PageOutcomes(mangaFolder, pages, load))
  {
    var outcomes := PageOutcomes(mangaFolder, pages, load);
    forall k | 0 <= k < |outcomes| && outcomes[k].Success?
      ensures forall s :: s in outcomes[k].value.document.shapes ==> IsTextRecord(s)
    {
      assert outcomes[k] == PageOutcome(mangaFolder, pages[k], load);
      PageOutcomeValid(mangaFolder, pages[k], load);
    }
  }

  /** Every document the annotation trees yield holds only non-degenerate "a" rectangles. */
  lemma {:induction false} AllOutcomesValid(imgFolder: string, roots: seq<Element>, load: string -> Option<LoadedImage>)
    ensures AllTextRecords(AllOutcomes(imgFolder, roots, load))
  {
    if roots != [] {
      var n := |roots| - 1;
      AllOutcomesValid(imgFolder, roots[..n], load);
      var root := roots[n];
      if "title" in root.attrib {
        PageOutcomesValid(Join(imgFolder, root.attrib["title"]), PagesOf(root.children), load);
      }
    }
  }

  /** Every document the whole conversion writes holds only non-degenerate "a" rectangles. */
  lemma ConversionValid(rootFolder: string, roots: seq<Element>, load: string -> Option<LoadedImage>)
    ensures forall f :: f in Conversion(rootFolder, roots, load).written ==>
      forall s :: s in f.document.shapes ==> IsTextRecord(s)
  {
    var outcomes := AllOutcomes(Join(rootFolder, "images"), roots, load);
    AllOutcomesValid(Join(rootFolder, "images"), roots, load);
    RunKeepsTextRecords(outcomes);
  }

  /** A run started afresh writes only documents the outcomes hold, so it keeps their shapes' shape. */
  lemma RunKeepsTextRecords(outcomes: seq<Outcome>)
    requires AllTextRecords(outcomes)
    ensures forall f :: f in RunOutcomes(Run([], None), outcomes).written ==>
      forall s :: s in f.document.shapes ==> IsTextRecord(s)
  {
    var r := RunOutcomes(Run([], None), outcomes);
    RunOutcomesResult(Run([], None), outcomes);
    forall f | f in r.written
      ensures forall s :: s in f.document.shapes ==> IsTextRecord(s)
    {
      var k :| 0 <= k < |r.written| && r.written[k] == f;
      assert outcomes[k] == Success(f);
    }
  }

  /** One more page: the run goes on with that page's outcome. */
  lemma PagesStep(start: Run, mangaFolder: string, pages: seq<Element>, k: nat, load: string -> Option<LoadedImage>)
    requires k < |pages|
    ensures RunOutcomes(start, PageOutcomes(mangaFolder, pages[..k + 1], load))
      == Step(RunOutcomes(start, PageOutcomes(mangaFolder, pages[..k], load)), PageOutcome(mangaFolder, pages[k], load))
  {
    var done := PageOutcomes(mangaFolder, pages[..k], load);
    var outcome := PageOutcome(mangaFolder, pages[k], load);
    assert PageOutcomes(mangaFolder, pages[..k + 1], load) == done + [outcome] by {
      assert pages[..k + 1] == pages[..k] + [pages[k]];
      PageOutcomesAppend(mangaFolder, pages[..k], [pages[k]], load);
      assert PageOutcomes(mangaFolder, [pages[k]], load) == [outcome];
    }
    assert (done + [outcome])[..|done|] == done;
  }

  /** A run that stops at the k-th page is the run over all the pages. */
  lemma PagesStop(start: Run, mangaFolder: string, pages: seq<Element>, k: nat, load: string -> Option<LoadedImage>)
    requires k < |pages| && RunOutcomes(start, PageOutcomes(mangaFolder, pages[..k + 1], load)).error.Some?
    ensures RunOutcomes(start, PageOutcomes(mangaFolder, pages, load))
      == RunOutcomes(start, PageOutcomes(mangaFolder, pages[..k + 1], load))
  {
    assert pages == pages[..k + 1] + pages[k + 1..];
    PageOutcomesAppend(mangaFolder, pages[..k + 1], pages[k + 1..], load);
    RunOutcomesStops(start, PageOutcomes(mangaFolder, pages[..k + 1], load), PageOutcomes(mangaFolder, pages[k + 1..], load));
  }

  /** One more root child: its pages, if it is tagged `pages`, continue the run. */
  lemma ChildrenStep(start: Run, mangaFolder: string, children: seq<Element>, j: nat, load: string -> Option<LoadedImage>)
    requires j < |children|
    ensures var before := RunOutcomes(start, PageOutcomes(mangaFolder, PagesOf(children[..j]), load));
      RunOutcomes(start, PageOutcomes(mangaFolder, PagesOf(children[..j + 1]), load))
        == if children[j].tag == "pages" then RunOutcomes(before, PageOutcomes(mangaFolder, children[j].children, load)) else before
  {
    assert children[..j + 1][..j] == children[..j];
    var done := PageOutcomes(mangaFolder, PagesOf(children[..j]), load);
    if children[j].tag == "pages" {
      PageOutcomesAppend(mangaFolder, PagesOf(children[..j]), children[j].children, load);
      RunOutcomesAppend(start, done, PageOutcomes(mangaFolder, children[j].children, load));
    } else {
      assert PagesOf(children[..j + 1]) == PagesOf(children[..j]);
    }
  }

  /** A run that stops at the j-th root child is the run over all of them. */
  lemma ChildrenStop(start: Run, mangaFolder: string, children: seq<Element>, j: nat, load: string -> Option<LoadedImage>)
    requires j < |children| && RunOutcomes(start, PageOutcomes(mangaFolder, PagesOf(children[..j + 1]), load)).error.Some?
    ensures RunOutcomes(start, PageOutcomes(mangaFolder, PagesOf(children), load))
      == RunOutcomes(start, PageOutcomes(mangaFolder, PagesOf(children[..j + 1]), load))
  {
    assert children == children[..j + 1] + children[j + 1..];
    PagesOfAppend(children[..j + 1], children[j + 1..]);
    PageOutcomesAppend(mangaFolder, PagesOf(children[..j + 1]), PagesOf(children[j + 1..]), load);
    RunOutcomesStops(start, PageOutcomes(mangaFolder, PagesOf(children[..j + 1]), load),
      PageOutcomes(mangaFolder, PagesOf(children[j + 1..]), load));
  }

  /** One more annotation tree: its outcomes continue the run. */
  lemma TreesStep(imgFolder: string, roots: seq<Element>, i: nat, load: string -> Option<LoadedImage>)
    requires i < |roots|
    ensures RunOutcomes(Run([], None), AllOutcomes(imgFolder, roots[..i + 1], load))
      == RunOutcomes(RunOutcomes(Run([], None), AllOutcomes(imgFolder, roots[..i], load)), TreeOutcomes(imgFolder, roots[i], load))
  {
    assert roots[..i + 1][..i] == roots[..i];
    RunOutcomesAppend(Run([], None), AllOutcomes(imgFolder, roots[..i], load), TreeOutcomes(imgFolder, roots[i], load));
  }

  /** The annotation trees split after the i-th tree. */
  lemma TreesSplit(imgFolder: string, roots: seq<Element>, i: nat, load: string -> Option<LoadedImage>)
    requires i < |roots|
    ensures AllOutcomes(imgFolder, roots, load) == AllOutcomes(imgFolder, roots[..i + 1], load) + AllOutcomes(imgFolder, roots[i + 1..], load)
  {
    assert roots == roots[..i + 1] + roots[i + 1..];
    AllOutcomesAppend(imgFolder, roots[..i + 1], roots[i + 1..], load);
  }

  /** A run that stops at the i-th tree is the run over all of them. */
  lemma TreesStop(imgFolder: string, roots: seq<Element>, i: nat, load: string -> Option<LoadedImage>)
    requires i < |roots| && RunOutcomes(Run([], None), AllOutcomes(imgFolder, roots[..i + 1], load)).error.Some?
    ensures RunOutcomes(Run([], None), AllOutcomes(imgFolder, roots, load))
      == RunOutcomes(Run([], None), AllOutcomes(imgFolder, roots[..i + 1], load))
  {
    TreesSplit(imgFolder, roots, i, load);
    RunOutcomesStops(Run([], None), AllOutcomes(imgFolder, roots[..i + 1], load), AllOutcomes(imgFolder, roots[i + 1..], load));
  }
}
