/** The A4 document wrapper: which pages are rendered, the blocks of
    each page, the viewport scale, the download filename, and the PDF
    export, whose effects are recorded as a log of operations on the
    page container, the export flag and an opaque PDF writer. */
module A4Form {
  import opened Wrappers
  import opened Strings
  import opened Lists

  /** A page; absent optional texts are "". The content is opaque. */
  datatype A4Page = A4Page(title: string, copyType: string, content: string, refNo: string)

  /** `pagesToRender`: an explicit list is rendered as given (even when
      empty); otherwise one page with the wrapper's title and children. */
  function PagesToRender(pages: Option<seq<A4Page>>, title: string, children: string): (r: seq<A4Page>)
    ensures pages.Some? ==> r == pages.value
    ensures pages.None? ==> |r| == 1 && r[0].title == title && r[0].content == children
    ensures pages.None? ==> r[0].copyType == "" && r[0].refNo == ""
  {
    match pages
    case Some(ps) => ps
    case None => [A4Page(title, "", children, "")]
  }

  // ---------------------------------------------------------------------
  // Page layout
  // ---------------------------------------------------------------------

  datatype Block = Watermark | CopyStamp(text: string) | Header | RefLine(refNo: string) | TitleBlock(text: string) | Body(content: string)

  /** The position of a block kind in the page layout. */
  function Rank(b: Block): nat
  {
    match b
    case Watermark => 0
    case CopyStamp(_) => 1
    case Header => 2
    case RefLine(_) => 3
    case TitleBlock(_) => 4
    case Body(_) => 5
  }

  /** `renderA4`: the blocks of one page, top to bottom. */
  function RenderA4(page: A4Page): seq<Block>
  {
    [Watermark] +
    (if page.copyType != "" then [CopyStamp(page.copyType)] else []) +
    [Header] +
    (if page.refNo != "" then [RefLine(page.refNo)] else []) +
    (if page.title != "" then [TitleBlock(page.title)] else []) +
    [Body(page.content)]
  }

  /** Block kinds strictly increase in rank down the list. */
  predicate RanksIncrease(bs: seq<Block>)
  {
    forall i :: 0 <= i < |bs| - 1 ==> Rank(bs[i]) < Rank(bs[i + 1])
  }

  /** Two increasing runs joined where the first ends below the second's
      start make one increasing run. */
  lemma RanksIncreaseJoin(xs: seq<Block>, ys: seq<Block>)
    requires RanksIncrease(xs) && RanksIncrease(ys) && |xs| > 0 && |ys| > 0
    requires Rank(xs[|xs| - 1]) < Rank(ys[0])
    ensures RanksIncrease(xs + ys)
  {
    var zs := xs + ys;
    forall i | 0 <= i < |zs| - 1 ensures Rank(zs[i]) < Rank(zs[i + 1]) {
      if i + 1 < |xs| {
        assert zs[i] == xs[i] && zs[i + 1] == xs[i + 1];
      } else if i + 1 == |xs| {
        assert zs[i] == xs[|xs| - 1] && zs[i + 1] == ys[0];
      } else {
        assert zs[i] == ys[i - |xs|] && zs[i + 1] == ys[i - |xs| + 1];
      }
    }
  }

  /** The layout order is fixed: block kinds strictly increase in rank
      down the page, so each appears at most once and in the listed
      order; the watermark comes first and the content last. */
  lemma RenderA4Order(page: A4Page)
    ensures RanksIncrease(RenderA4(page))
    ensures RenderA4(page)[0] == Watermark
    ensures RenderA4(page)[|RenderA4(page)| - 1] == Body(page.content)
  {
    var top := TopBlocks(page);
    var rest := LowerBlocks(page);
    TopBlocksOrder(page);
    LowerBlocksOrder(page);
    assert RenderA4(page) == top + rest;
    RanksIncreaseJoin(top, rest);
    assert (top + rest)[0] == top[0];
    assert (top + rest)[|top + rest| - 1] == rest[|rest| - 1];
  }

  /** The watermark, the copy stamp and the header. */
  function TopBlocks(page: A4Page): seq<Block>
  {
    [Watermark] + (if page.copyType != "" then [CopyStamp(page.copyType)] else []) + [Header]
  }

  /** The reference line, the title and the content. */
  function LowerBlocks(page: A4Page): seq<Block>
  {
    (if page.refNo != "" then [RefLine(page.refNo)] else []) +
    (if page.title != "" then [TitleBlock(page.title)] else []) +
    [Body(page.content)]
  }

  lemma TopBlocksOrder(page: A4Page)
    ensures var top := TopBlocks(page);
      RanksIncrease(top) && |top| > 0 && top[0] == Watermark && top[|top| - 1] == Header
  {
    if page.copyType == "" {
      assert TopBlocks(page) == [Watermark, Header];
    } else {
      assert TopBlocks(page) == [Watermark, CopyStamp(page.copyType), Header];
    }
  }

  lemma LowerBlocksOrder(page: A4Page)
    ensures var rest := LowerBlocks(page);
      RanksIncrease(rest) && |rest| > 0 && Rank(rest[0]) >= 3 && rest[|rest| - 1] == Body(page.content)
  {
    if page.refNo == "" && page.title == "" {
      assert LowerBlocks(page) == [Body(page.content)];
    } else if page.refNo == "" {
      assert LowerBlocks(page) == [TitleBlock(page.title), Body(page.content)];
    } else if page.title == "" {
      assert LowerBlocks(page) == [RefLine(page.refNo), Body(page.content)];
    } else {
      assert LowerBlocks(page) == [RefLine(page.refNo), TitleBlock(page.title), Body(page.content)];
    }
  }

  /** The header is always there; each optional block is there exactly
      when its text is not empty. */
  lemma RenderA4Presence(page: A4Page)
    ensures Header in RenderA4(page)
    ensures CopyStamp(page.copyType) in RenderA4(page) <==> page.copyType != ""
    ensures RefLine(page.refNo) in RenderA4(page) <==> page.refNo != ""
    ensures TitleBlock(page.title) in RenderA4(page) <==> page.title != ""
    ensures |RenderA4(page)| == 3 + (if page.copyType != "" then 1 else 0) +
      (if page.refNo != "" then 1 else 0) + (if page.title != "" then 1 else 0)
  {
    var c := if page.copyType != "" then [CopyStamp(page.copyType)] else [];
    var r := if page.refNo != "" then [RefLine(page.refNo)] else [];
    var t := if page.title != "" then [TitleBlock(page.title)] else [];
    var bs := RenderA4(page);
    assert bs == [Watermark] + c + [Header] + r + t + [Body(page.content)];
    assert forall x :: x in bs <==> x == Watermark || x in c || x == Header || x in r || x in t || x == Body(page.content);
  }

  // ---------------------------------------------------------------------
  // Viewport scale
  // ---------------------------------------------------------------------

  const A4WidthPx := 794
  const Padding := 16

  /** `calculateScale`: below 850 pixels the page is scaled to the screen
      less its padding, never above 1. */
  function Scale(width: int): (r: real)
    ensures r <= 1.0
  {
    if width < 850 then
      var s := (width - Padding) as real / A4WidthPx as real;
      if s < 1.0 then s else 1.0
    else 1.0
  }

  /** The page is shrunk exactly below 810 pixels, and then the scaled
      page plus its padding fills the screen exactly; the scale grows
      with the screen. */
  lemma ScaleLaws(width: int, wider: int)
    ensures Scale(width) == 1.0 <==> width >= A4WidthPx + Padding
    ensures width < A4WidthPx + Padding ==> Scale(width) * A4WidthPx as real + Padding as real == width as real
    ensures width <= wider ==> Scale(width) <= Scale(wider)
  {
  }

  // ---------------------------------------------------------------------
  // Download filename
  // ---------------------------------------------------------------------

  const DefaultName := "SOETR_Official_Form"

  /** The name the PDF is saved under: every white-space run of the title
      becomes "_", and an empty result falls back to the default name. */
  function Filename(title: string): string
  {
    var base := ReplaceWhitespaceRuns(title, "_");
    (if base == "" then DefaultName else base) + ".pdf"
  }

  /** An empty title gives the default name, a title of white space alone
      gives "_.pdf", and any other title keeps its own name, unchanged
      when it has no white space. */
  lemma FilenameCases(title: string)
    ensures title == "" ==> Filename(title) == "SOETR_Official_Form.pdf"
    ensures title != "" && AllWhitespace(title) ==> Filename(title) == "_.pdf"
    ensures title != "" ==> Filename(title) == ReplaceWhitespaceRuns(title, "_") + ".pdf"
    ensures NoWhitespace(title) && title != "" ==> Filename(title) == title + ".pdf"
  {
    ReplaceWhitespaceRunsLaws(title, "_");
    if title != "" && AllWhitespace(title) {
      WhitespaceOnlyBecomesRep(title, "_");
    }
  }

  /** The saved name never holds white space. */
  lemma FilenameNoWhitespace(title: string)
    ensures NoWhitespace(Filename(title))
  {
    ReplaceWhitespaceRunsLaws(title, "_");
    var base := ReplaceWhitespaceRuns(title, "_");
    var name := if base == "" then DefaultName else base;
    NoWhitespaceAppend(name, ".pdf");
  }

  // ---------------------------------------------------------------------
  // The export protocol
  // ---------------------------------------------------------------------

  /** What the optional `validate` callback gives. */
  datatype Validation = NoValidator | ReturnsNull | Returns(errors: seq<string>)

  /** The download is refused only for a non-empty error list. */
  predicate Blocked(v: Validation)
  {
    v.Returns? && |v.errors| > 0
  }

  const BlockedAlert := "Please fix form errors before downloading."

  /** One recorded effect. `Capture(i)` is the rendering of page node i,
      `AddImage` places a captured image at (x, y) with size (w, h) in
      millimetres on the current PDF page. */
  datatype Op =
    | Alert(msg: string)
    | SetGenerating(on: bool)
    | AddExportClass
    | RemoveExportClass
    | NewPdf
    | AddPage
    | Capture(node: nat)
    | AddImage(node: nat, x: nat, y: nat, w: nat, h: nat)
    | Save(name: string)
    | ReportError

  /** The operations of one page node: a new PDF page before every node
      after the first, its capture, its full-page image. */
  function PageStep(i: nat): seq<Op>
  {
    (if i > 0 then [AddPage] else []) + [Capture(i), AddImage(i, 0, 0, 210, 297)]
  }

  /** The operations of the first `i` nodes, none of them failing. */
  function PagesDone(i: nat): seq<Op>
  {
    if i == 0 then [] else PagesDone(i - 1) + PageStep(i - 1)
  }

  /** The capture of node `failAt` throws, within the node list. */
  predicate Stops(n: nat, failAt: Option<nat>)
  {
    failAt.Some? && failAt.value < n
  }

  /** The loop over `n` nodes: all of them, or up to the capture that
      throws. */
  function LoopOps(n: nat, failAt: Option<nat>): seq<Op>
  {
    if Stops(n, failAt) then
      var k := failAt.value;
      PagesDone(k) + (if k > 0 then [AddPage] else []) + [Capture(k)]
    else PagesDone(n)
  }

  /** `handleDownload` for `n` page nodes, as a log: the validation gate,
      the missing-container return, then the export with its save, the
      caught error, and the cleanup that runs on both paths. */
  function DownloadOps(v: Validation, containerPresent: bool, n: nat, title: string, failAt: Option<nat>): seq<Op>
  {
    if Blocked(v) then [Alert(BlockedAlert)]
    else if !containerPresent then []
    else
      [SetGenerating(true), AddExportClass, NewPdf] + LoopOps(n, failAt) +
      (if Stops(n, failAt) then [ReportError] else [Save(Filename(title))]) +
      [RemoveExportClass, SetGenerating(false)]
  }

  /** The page list of a PDF writer: each page lists the nodes whose
      images it carries. */
  type Pdf = seq<seq<nat>>

  /** The effect of one operation on the PDF writer: a new writer has one
      blank page, `addPage` appends a blank page, `addImage` draws on the
      last page. */
  function Apply(doc: Pdf, op: Op): Pdf
  {
    match op
    case NewPdf => [[]]
    case AddPage => doc + [[]]
    case AddImage(i, _, _, _, _) => if doc == [] then doc else doc[..|doc| - 1] + [doc[|doc| - 1] + [i]]
    case _ => doc
  }

  function Run(doc: Pdf, ops: seq<Op>): Pdf
    decreases |ops|
  {
    if ops == [] then doc else Run(Apply(doc, ops[0]), ops[1..])
  }

  lemma {:induction false} RunAppend(doc: Pdf, xs: seq<Op>, ys: seq<Op>)
    ensures Run(doc, xs + ys) == Run(Run(doc, xs), ys)
    decreases |xs|
  {
    if xs == [] {
      assert xs + ys == ys;
    } else {
      assert (xs + ys)[0] == xs[0];
      assert (xs + ys)[1..] == xs[1..] + ys;
      RunAppend(Apply(doc, xs[0]), xs[1..], ys);
    }
  }

  /** `n` pages, page `i` carrying the image of node `i` alone. */
  function OnePerPage(n: nat): Pdf
  {
    seq(n, i requires 0 <= i < n => [i])
  }

  /** A fresh writer fed the first `n` (at least one) nodes has exactly
      `n` pages, one image each, in document order, with no blank
      leading page. */
  lemma {:induction false} PagesDoneLayout(n: nat)
    requires n >= 1
    ensures Run([[]], PagesDone(n)) == OnePerPage(n)
  {
    if n == 1 {
      assert PagesDone(1) == PagesDone(0) + PageStep(0);
      assert PagesDone(1) == PageStep(0);
      RunFirstStep();
      assert OnePerPage(1) == [[0]];
    } else {
      PagesDoneLayout(n - 1);
      RunAppend([[]], PagesDone(n - 1), PageStep(n - 1));
      RunLaterStep(OnePerPage(n - 1), n - 1);
      assert OnePerPage(n - 1) + [[n - 1]] == OnePerPage(n);
    }
  }

  /** The first node draws on the writer's own first page. */
  lemma RunFirstStep()
    ensures Run([[]], PageStep(0)) == [[0]]
  {
    var one: Pdf := [[]];
    var img := AddImage(0, 0, 0, 210, 297);
    assert PageStep(0) == [Capture(0), img];
    assert one[..0] == [] && one[0] + [0] == [0];
    assert Apply(one, img) == [[0]];
    assert [img][1..] == [];
    assert Run(one, [img]) == [[0]];
  }

  /** A later node opens a page and draws its image there alone. */
  lemma RunLaterStep(d: Pdf, i: nat)
    requires i > 0
    ensures Run(d, PageStep(i)) == d + [[i]]
  {
    var img := AddImage(i, 0, 0, 210, 297);
    assert PageStep(i) == [AddPage, Capture(i), img];
    var d1 := d + [[]];
    assert d1[..|d1| - 1] == d && d1[|d1| - 1] == [];
    assert d1[|d1| - 1] + [i] == [i];
    assert Apply(d1, img) == d + [[i]];
    assert [img][1..] == [];
    assert Run(d1, [img]) == d + [[i]];
    assert [Capture(i), img][1..] == [img];
    assert Run(d1, [Capture(i), img]) == d + [[i]];
    assert [AddPage, Capture(i), img][1..] == [Capture(i), img];
  }

  /** The operations of the first `n` nodes add `n - 1` pages and `n`
      images. */
  lemma {:induction false} PagesDoneCounts(n: nat)
    ensures Count(PagesDone(n), (op: Op) => op.AddPage?) == if n == 0 then 0 else n - 1
    ensures Count(PagesDone(n), (op: Op) => op.AddImage?) == n
  {
    if n > 0 {
      PagesDoneCounts(n - 1);
      PageStepCounts(n - 1);
      FilterAppend(PagesDone(n - 1), PageStep(n - 1), (op: Op) => op.AddPage?);
      FilterAppend(PagesDone(n - 1), PageStep(n - 1), (op: Op) => op.AddImage?);
    }
  }

  /** One node adds a page unless it is the first, and one image. */
  lemma PageStepCounts(i: nat)
    ensures Count(PageStep(i), (op: Op) => op.AddPage?) == if i == 0 then 0 else 1
    ensures Count(PageStep(i), (op: Op) => op.AddImage?) == 1
  {
    var isPage := (op: Op) => op.AddPage?;
    var isImage := (op: Op) => op.AddImage?;
    var img := AddImage(i, 0, 0, 210, 297);
    assert Filter([img], isPage) == [] && Filter([img], isImage) == [img];
    assert Filter([Capture(i), img], isPage) == [];
    assert Filter([Capture(i), img], isImage) == [img];
    if i > 0 {
      assert PageStep(i) == [AddPage, Capture(i), img];
    } else {
      assert PageStep(0) == [Capture(0), img];
    }
  }

  /** A successful export of `n >= 1` nodes saves a PDF of `n` pages with
      one image each, in document order, after `n - 1` page additions. */
  lemma SavedPdf(n: nat, failAt: Option<nat>)
    requires n >= 1 && !Stops(n, failAt)
    ensures Run([], [NewPdf] + LoopOps(n, failAt)) == OnePerPage(n)
    ensures Count(LoopOps(n, failAt), (op: Op) => op.AddPage?) == n - 1
    ensures Count(LoopOps(n, failAt), (op: Op) => op.AddImage?) == n
  {
    RunAppend([], [NewPdf], PagesDone(n));
    PagesDoneLayout(n);
    PagesDoneCounts(n);
  }

  /** The gate and the cleanup: a refused download only alerts and never
      touches the container, the flag or the PDF; a missing container
      does nothing; otherwise the class is added once, removed at the
      end and the flag is reset, whether the export saved or failed, and
      a failure is reported instead of saving. */
  lemma DownloadProtocol(v: Validation, containerPresent: bool, n: nat, title: string, failAt: Option<nat>)
    ensures var ops := DownloadOps(v, containerPresent, n, title, failAt);
      Blocked(v) ==> ops == [Alert(BlockedAlert)]
    ensures !Blocked(v) && !containerPresent ==> DownloadOps(v, containerPresent, n, title, failAt) == []
    ensures var ops := DownloadOps(v, containerPresent, n, title, failAt);
      !Blocked(v) && containerPresent ==>
        |ops| >= 5 && ops[..3] == [SetGenerating(true), AddExportClass, NewPdf] &&
        ops[|ops| - 2..] == [RemoveExportClass, SetGenerating(false)] &&
        (Save(Filename(title)) in ops <==> !Stops(n, failAt)) &&
        (ReportError in ops <==> Stops(n, failAt))
  {
    if !Blocked(v) && containerPresent {
      ExportShape(n, title, failAt);
    }
  }

  /** The export branch: set-up first, cleanup last, and exactly one of
      the save and the error report. */
  lemma ExportShape(n: nat, title: string, failAt: Option<nat>)
    ensures var ops := [SetGenerating(true), AddExportClass, NewPdf] + LoopOps(n, failAt) +
        (if Stops(n, failAt) then [ReportError] else [Save(Filename(title))]) +
        [RemoveExportClass, SetGenerating(false)];
      |ops| >= 5 && ops[..3] == [SetGenerating(true), AddExportClass, NewPdf] &&
      ops[|ops| - 2..] == [RemoveExportClass, SetGenerating(false)] &&
      (Save(Filename(title)) in ops <==> !Stops(n, failAt)) &&
      (ReportError in ops <==> Stops(n, failAt))
  {
    var loop := LoopOps(n, failAt);
    var tail := if Stops(n, failAt) then [ReportError] else [Save(Filename(title))];
    var ops := [SetGenerating(true), AddExportClass, NewPdf] + loop + tail + [RemoveExportClass, SetGenerating(false)];
    LoopOpsKinds(n, failAt);
    assert forall op :: op in ops <==>
      op in [SetGenerating(true), AddExportClass, NewPdf] || op in loop || op in tail ||
      op in [RemoveExportClass, SetGenerating(false)];
  }

  /** The loop only adds pages, captures and images. */
  lemma LoopOpsKinds(n: nat, failAt: Option<nat>)
    ensures forall op :: op in LoopOps(n, failAt) ==> op.AddPage? || op.Capture? || op.AddImage?
  {
    if Stops(n, failAt) {
      PagesDoneKinds(failAt.value);
    } else {
      PagesDoneKinds(n);
    }
  }

  lemma {:induction false} PagesDoneKinds(n: nat)
    ensures forall op :: op in PagesDone(n) ==> op.AddPage? || op.Capture? || op.AddImage?
  {
    if n > 0 {
      PagesDoneKinds(n - 1);
      assert forall op :: op in PagesDone(n) ==> op in PagesDone(n - 1) || op in PageStep(n - 1);
    }
  }

  /** The wrapper's export state: the generating flag (which also
      disables the button), the export-mode class on the container, and
      the log of effects. */
  class Wrapper {
    var generating: bool
    var exportMode: bool
    var log: seq<Op>

    constructor()
      ensures !generating && !exportMode && log == []
    {
      generating := false;
      exportMode := false;
      log := [];
    }

    /** The page loop of the export: for each node in document order, a
        new PDF page after the first, the capture, the full-page image;
        a capture that throws ends the loop. */
    method ExportPages(n: nat, failAt: Option<nat>) returns (failed: bool)
      modifies this`log
      ensures log == old(log) + LoopOps(n, failAt)
      ensures failed == Stops(n, failAt)
    {
      var i := 0;
      failed := false;
      while i < n && !failed
        invariant 0 <= i <= n
        invariant !failed ==> log == old(log) + PagesDone(i)
        invariant !failed ==> forall j :: 0 <= j < i ==> failAt != Some(j)
        invariant failed ==> Stops(n, failAt) && log == old(log) + LoopOps(n, failAt)
        decreases n - i, if failed then 0 else 1
      {
        if i > 0 {
          log := log + [AddPage];
        }
        log := log + [Capture(i)];
        if failAt == Some(i) {
          failed := true;
        } else {
          log := log + [AddImage(i, 0, 0, 210, 297)];
          assert PagesDone(i + 1) == PagesDone(i) + PageStep(i);
          i := i + 1;
        }
      }
    }

    /** `handleDownload` over the rendered page nodes. The foreign
        renderer is represented by `failAt`, the node (if any) whose
        capture throws; the error is caught and reported, and the
        cleanup runs on both paths. */
    method Download(v: Validation, containerPresent: bool, nodes: seq<A4Page>, title: string, failAt: Option<nat>)
      requires !generating && !exportMode
      modifies this
      ensures log == old(log) + DownloadOps(v, containerPresent, |nodes|, title, failAt)
      ensures !generating && !exportMode
    {
      if Blocked(v) {
        log := log + [Alert(BlockedAlert)];
        return;
      }
      if !containerPresent {
        return;
      }
      var start := [SetGenerating(true), AddExportClass, NewPdf];
      generating := true;
      exportMode := true;
      log := log + start;
      var failed := ExportPages(|nodes|, failAt);
      var tail := if failed then [ReportError] else [Save(Filename(title))];
      exportMode := false;
      generating := false;
      log := log + tail + [RemoveExportClass, SetGenerating(false)];
      assert log == old(log) + (start + LoopOps(|nodes|, failAt) + tail + [RemoveExportClass, SetGenerating(false)]);
    }
  }
}
