/** `processar_lote_pdf` of run_pdf.py: every request names an output PDF
    and an ordered list of pages; each page is a template picture with a
    text drawn on it. Pages lacking a picture or a text are skipped; an
    unknown template or a missing picture aborts that request only. */
module PdfBatch {
  import opened Common
  import opened BatchDraw
  import opened Documents

  /** One entry of `paginas`: `imagem`, `texto` and `fonte`. */
  datatype PageEntry = PageEntry(image: Option<string>, text: Option<string>, font: Option<string>)

  /** One request: `output_pdf` and `paginas`. */
  datatype PdfRequest = PdfRequest(outputPdf: Option<string>, pages: Option<seq<PageEntry>>)

  /** A page without a picture name, or whose text is null, is left out
      (an empty text is drawn). */
  predicate PageSkipped(p: PageEntry) {
    !Present(p.image) || p.text.None?
  }

  /** A request without an output name or without pages is skipped. */
  predicate RequestMalformed(r: PdfRequest) {
    !Present(r.outputPdf) || r.pages.None? || r.pages.value == []
  }

  /** The rendered page for an entry that is not skipped, or why the
      request fails on it. */
  function RenderPage(p: PageEntry, a: Assets): (r: Result<Page, Failure>)
    requires !PageSkipped(p)
    ensures r.Ok? ==>
      p.image.value in a.registry && p.image.value in a.pictures && r.value.base == Picture(p.image.value)
    ensures p.image.value !in a.registry ==> r == Err(TemplateNotFound(p.image.value))
    ensures p.image.value in a.registry && p.image.value !in a.pictures ==> r == Err(BaseImageMissing(p.image.value))
  {
    var name := p.image.value;
    if name !in a.registry then Err(TemplateNotFound(name))
    else if name !in a.pictures then Err(BaseImageMissing(name))
    else if !a.opens(name) then Err(ImageUnreadable(name))
    else match Drawn(a.registry[name], p.text.value, p.font, a.fonts, a.m)
      case Err(_) => Err(FontUnavailable)
      case Ok(ops) => Ok(Page(Picture(name), ops))
  }

  /** What the page loop makes of one entry: nothing when it is skipped,
      otherwise its rendered page or the failure it raises. */
  function PageStep(a: Assets): PageEntry -> Option<Result<Page, Failure>> {
    p => if PageSkipped(p) then None else Some(RenderPage(p, a))
  }

  /** The page loop over the entries in order under any per-entry step:
      the pages produced, or the failure of the first entry that fails. */
  function RenderWith(pages: seq<PageEntry>, step: PageEntry -> Option<Result<Page, Failure>>): Result<Document, Failure>
    decreases |pages|
  {
    if pages == [] then Ok([])
    else
      match RenderWith(pages[..|pages| - 1], step)
      case Err(e) => Err(e)
      case Ok(doc) =>
        match step(pages[|pages| - 1])
        case None => Ok(doc)
        case Some(Err(e)) => Err(e)
        case Some(Ok(page)) => Ok(doc + [page])
  }

  /** The pages rendered from a list of entries, in order, or the failure
      of the first entry that fails. */
  function RenderPages(pages: seq<PageEntry>, a: Assets): Result<Document, Failure> {
    RenderWith(pages, PageStep(a))
  }

  /** The entries that are not skipped, in order. */
  function Kept(pages: seq<PageEntry>): (r: seq<PageEntry>)
    ensures |r| <= |pages|
    ensures forall k :: 0 <= k < |r| ==> !PageSkipped(r[k])
    decreases |pages|
  {
    if pages == [] then []
    else Kept(pages[..|pages| - 1]) + (if PageSkipped(pages[|pages| - 1]) then [] else [pages[|pages| - 1]])
  }

  /** The page loop succeeds exactly when every kept entry yields a page,
      and its pages are then those of the kept entries, in order. */
  lemma {:induction false} RenderWithKept(pages: seq<PageEntry>, step: PageEntry -> Option<Result<Page, Failure>>)
    requires forall p :: step(p).None? <==> PageSkipped(p)
    ensures RenderWith(pages, step).Ok? <==> forall k :: 0 <= k < |Kept(pages)| ==> step(Kept(pages)[k]).value.Ok?
    ensures RenderWith(pages, step).Ok? ==>
      |RenderWith(pages, step).value| == |Kept(pages)| &&
      forall k :: 0 <= k < |Kept(pages)| ==> RenderWith(pages, step).value[k] == step(Kept(pages)[k]).value.value
    decreases |pages|
  {
    if pages != [] {
      var init := pages[..|pages| - 1];
      var p := pages[|pages| - 1];
      RenderWithKept(init, step);
      var kept := Kept(pages);
      if !PageSkipped(p) {
        assert kept == Kept(init) + [p];
        assert forall k :: 0 <= k < |Kept(init)| ==> kept[k] == Kept(init)[k];
        assert kept[|Kept(init)|] == p;
        if RenderWith(init, step).Err? {
          assert RenderWith(pages, step) == RenderWith(init, step);
          var k :| 0 <= k < |Kept(init)| && !step(Kept(init)[k]).value.Ok?;
          assert !step(Kept(pages)[k]).value.Ok?;
          assert !RenderWith(pages, step).Ok?;
        } else if step(p).value.Err? {
          assert RenderWith(pages, step) == Err(step(p).value.error);
          assert !step(kept[|Kept(init)|]).value.Ok?;
          assert !(forall j :: 0 <= j < |kept| ==> step(kept[j]).value.Ok?);
        } else {
          assert RenderWith(pages, step) == Ok(RenderWith(init, step).value + [step(p).value.value]);
          assert forall j :: 0 <= j < |kept| ==> step(kept[j]).value.Ok? by {
            forall j | 0 <= j < |kept|
              ensures step(kept[j]).value.Ok?
            {
              if j < |Kept(init)| {
                assert kept[j] == Kept(init)[j];
              }
            }
          }
        }
      } else {
        assert kept == Kept(init);
        assert RenderWith(pages, step) == RenderWith(init, step);
        assert (forall j :: 0 <= j < |Kept(pages)| ==> step(Kept(pages)[j]).value.Ok?) <==>
               (forall j :: 0 <= j < |Kept(init)| ==> step(Kept(init)[j]).value.Ok?);
      }
    }
  }

  /** Rendering succeeds exactly when every kept entry renders, and the
      document's pages are then the kept entries' pages, in order. */
  lemma RenderPagesKept(pages: seq<PageEntry>, a: Assets)
    ensures RenderPages(pages, a).Ok? <==> forall k :: 0 <= k < |Kept(pages)| ==> RenderPage(Kept(pages)[k], a).Ok?
    ensures RenderPages(pages, a).Ok? ==>
      |RenderPages(pages, a).value| == |Kept(pages)| &&
      forall k :: 0 <= k < |Kept(pages)| ==> RenderPages(pages, a).value[k] == RenderPage(Kept(pages)[k], a).value
  {
    var step := PageStep(a);
    assert forall p :: step(p).None? <==> PageSkipped(p);
    RenderWithKept(pages, step);
    var kept := Kept(pages);
    forall k | 0 <= k < |kept|
      ensures step(kept[k]) == Some(RenderPage(kept[k], a))
    {
    }
    assert (forall k :: 0 <= k < |kept| ==> step(kept[k]).value.Ok?) <==>
           (forall k :: 0 <= k < |kept| ==> RenderPage(kept[k], a).Ok?);
  }

  /** Once a page fails, the request fails with that failure whatever
      follows. */
  lemma {:induction false} RenderPagesFailureSticks(pages: seq<PageEntry>, j: nat, step: PageEntry -> Option<Result<Page, Failure>>)
    requires j <= |pages| && RenderWith(pages[..j], step).Err?
    ensures RenderWith(pages, step) == RenderWith(pages[..j], step)
    decreases |pages| - j
  {
    if j < |pages| {
      assert pages[..j + 1][..j] == pages[..j];
      RenderPagesFailureSticks(pages, j + 1, step);
    } else {
      assert pages[..j] == pages;
    }
  }

  /** What becomes of one request. */
  function AssemblePdf(req: PdfRequest, a: Assets): (o: Outcome)
    ensures RequestMalformed(req) ==> o == Skipped(MalformedRequest)
    ensures o.Saved? ==>
      && !RequestMalformed(req) && o.name == req.outputPdf.value && a.saves(o.name)
      && RenderPages(req.pages.value, a) == Ok(o.doc) && o.doc != []
  {
    if RequestMalformed(req) then Skipped(MalformedRequest)
    else match RenderPages(req.pages.value, a)
      case Err(e) => Failed(e)
      case Ok(doc) =>
        if doc == [] then Skipped(NoPagesRendered)
        else if !a.saves(req.outputPdf.value) then Failed(SaveFailed)
        else Saved(req.outputPdf.value, doc)
  }

  /** The outcomes of the requests, in order. */
  function Outcomes(reqs: seq<PdfRequest>, a: Assets): (os: seq<Outcome>)
    ensures |os| == |reqs|
    decreases |reqs|
  {
    if reqs == [] then [] else Outcomes(reqs[..|reqs| - 1], a) + [AssemblePdf(reqs[|reqs| - 1], a)]
  }

  /** Each request has its own outcome: the batch treats the requests
      independently and in order. */
  lemma {:induction false} OutcomesAt(reqs: seq<PdfRequest>, a: Assets, i: nat)
    requires i < |reqs|
    ensures Outcomes(reqs, a)[i] == AssemblePdf(reqs[i], a)
    decreases |reqs|
  {
    if i < |reqs| - 1 {
      var init := reqs[..|reqs| - 1];
      OutcomesAt(init, a, i);
      assert Outcomes(reqs, a)[i] == Outcomes(init, a)[i];
    }
  }

  /** A saved document holds the kept pages of its request, in the order
      of `paginas`, each drawn on its own template picture with the
      defaulting layout. */
  lemma SavedPages(req: PdfRequest, a: Assets)
    requires AssemblePdf(req, a).Saved?
    ensures var doc := AssemblePdf(req, a).doc;
      var kept := Kept(req.pages.value);
      |doc| == |kept| > 0 &&
      forall k :: 0 <= k < |kept| ==>
        var name := kept[k].image.value;
        name in a.registry && name in a.pictures &&
        doc[k].base == Picture(name) &&
        Drawn(a.registry[name], kept[k].text.value, kept[k].font, a.fonts, a.m) == Ok(doc[k].drawn)
  {
    RenderPagesKept(req.pages.value, a);
  }

  /** A request with a page that names an unknown template or a missing
      picture writes nothing, even when other pages rendered. */
  lemma BadPageAbortsRequest(req: PdfRequest, a: Assets, k: nat)
    requires !RequestMalformed(req)
    requires k < |req.pages.value| && !PageSkipped(req.pages.value[k])
    requires req.pages.value[k].image.value !in a.registry || req.pages.value[k].image.value !in a.pictures
    ensures AssemblePdf(req, a).Failed?
  {
    var pages := req.pages.value;
    RenderPagesKept(pages, a);
    KeptContains(pages, k);
    var j :| 0 <= j < |Kept(pages)| && Kept(pages)[j] == pages[k];
    assert RenderPage(Kept(pages)[j], a).Err?;
  }

  lemma {:induction false} KeptContains(pages: seq<PageEntry>, k: nat)
    requires k < |pages| && !PageSkipped(pages[k])
    ensures exists j :: 0 <= j < |Kept(pages)| && Kept(pages)[j] == pages[k]
    decreases |pages|
  {
    var init := pages[..|pages| - 1];
    if k < |pages| - 1 {
      KeptContains(init, k);
      var j :| 0 <= j < |Kept(init)| && Kept(init)[j] == init[k];
      assert Kept(pages)[j] == Kept(init)[j];
    } else {
      assert Kept(pages)[|Kept(init)|] == pages[k];
    }
  }

  /** One more entry extends the rendering of the entries before it. */
  lemma RenderStep(pages: seq<PageEntry>, j: nat, step: PageEntry -> Option<Result<Page, Failure>>, images: Document)
    requires j < |pages| && RenderWith(pages[..j], step) == Ok(images)
    ensures RenderWith(pages[..j + 1], step) ==
      match step(pages[j])
      case None => Ok(images)
      case Some(Err(e)) => Err(e)
      case Some(Ok(page)) => Ok(images + [page])
  {
    assert pages[..j + 1][..j] == pages[..j];
  }

  /** The checks and the drawing for one kept entry: the template must be
      known, its picture present and readable, and a font must load. */
  method RenderOnePage(p: PageEntry, a: Assets) returns (r: Result<Page, Failure>)
    requires !PageSkipped(p)
    ensures r == RenderPage(p, a)
  {
    var name := p.image.value;
    if name !in a.registry {
      return Err(TemplateNotFound(name));
    }
    if name !in a.pictures {
      return Err(BaseImageMissing(name));
    }
    if !a.opens(name) {
      return Err(ImageUnreadable(name));
    }
    var drawn := DrawTemplatedText(a.registry[name], p.text.value, p.font, a.fonts, a.m);
    if drawn.Err? {
      return Err(FontUnavailable);
    }
    return Ok(Page(Picture(name), drawn.value));
  }

  /** Renders the pages of one well-formed request, stopping at the first
      failing page (the body of the `try` of `processar_lote_pdf`). */
  method RenderRequestPages(pages: seq<PageEntry>, a: Assets) returns (r: Result<Document, Failure>)
    ensures r == RenderPages(pages, a)
  {
    var images: seq<Page> := [];
    var j := 0;
    while j < |pages|
      invariant 0 <= j <= |pages|
      invariant RenderWith(pages[..j], PageStep(a)) == Ok(images)
    {
      var p := pages[j];
      RenderStep(pages, j, PageStep(a), images);
      if !PageSkipped(p) {
        var page := RenderOnePage(p, a);
        assert PageStep(a)(p) == Some(page);
        if page.Err? {
          RenderPagesFailureSticks(pages, j + 1, PageStep(a));
          return Err(page.error);
        }
        images := images + [page.value];
      } else {
        assert PageStep(a)(p) == None;
      }
      j := j + 1;
    }
    assert pages[..|pages|] == pages;
    return Ok(images);
  }

  /** One iteration of `processar_lote_pdf`: the checks on the request,
      its pages, and the save. */
  method ProcessRequest(req: PdfRequest, a: Assets) returns (outcome: Outcome)
    ensures outcome == AssemblePdf(req, a)
  {
    if RequestMalformed(req) {
      return Skipped(MalformedRequest);
    }
    var rendered := RenderRequestPages(req.pages.value, a);
    if rendered.Err? {
      return Failed(rendered.error);
    }
    if rendered.value == [] {
      return Skipped(NoPagesRendered);
    }
    if !a.saves(req.outputPdf.value) {
      return Failed(SaveFailed);
    }
    return Saved(req.outputPdf.value, rendered.value);
  }

  /** `processar_lote_pdf`: processes every request in order, writing each
      assembled document into the output folder and counting the saved
      ones; a failing request never stops the later ones. */
  method ProcessarLotePdf(reqs: seq<PdfRequest>, a: Assets, folder: map<string, Document>)
    returns (written: map<string, Document>, succeeded: nat)
    ensures written == Publish(folder, Outcomes(reqs, a))
    ensures succeeded == Succeeded(Outcomes(reqs, a))
    ensures |reqs| - succeeded >= 0
  {
    written := folder;
    succeeded := 0;
    var i := 0;
    while i < |reqs|
      invariant 0 <= i <= |reqs|
      invariant written == Publish(folder, Outcomes(reqs[..i], a))
      invariant succeeded == Succeeded(Outcomes(reqs[..i], a))
    {
      assert reqs[..i + 1][..i] == reqs[..i];
      var outcome := ProcessRequest(reqs[i], a);
      assert Outcomes(reqs[..i + 1], a) == Outcomes(reqs[..i], a) + [outcome];
      PublishStep(folder, Outcomes(reqs[..i], a), outcome);
      if outcome.Saved? {
        written := written[outcome.name := outcome.doc];
        succeeded := succeeded + 1;
      }
      i := i + 1;
    }
    assert reqs[..|reqs|] == reqs;
  }
}
