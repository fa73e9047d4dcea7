/** `processar_pedidos_pdf_duas_paginas` of main/processar_agenda.py: each
    request names a two-page base PDF; its first page is rasterised and
    written on, its second page is kept as it is, and the two become a new
    two-page PDF. Both pages go through a temporary folder that is emptied
    again after every request. */
module TwoPageBatch {
  import opened Common
  import opened BatchDraw
  import opened Documents

  /** `pagina_frente`: `template_imagem`, `texto` and `fonte`. */
  datatype FrontConfig = FrontConfig(template: Option<string>, text: Option<string>, font: Option<string>)

  /** One request: `output_pdf`, `input_pdf_base` and `pagina_frente`
      (`None` when the key is absent, null or an empty object). */
  datatype TwoPageRequest = TwoPageRequest(outputPdf: Option<string>, inputPdfBase: Option<string>, front: Option<FrontConfig>)

  /** `extrair_pagina_pdf_para_png`: page `n` (0-based) of a PDF as an
      image, or `None` when the PDF cannot be opened or has no such page. */
  function ExtractPage(a: Assets, pdf: string, n: nat): Option<Raster> {
    if a.opens(pdf) && n < a.pageCount(pdf) then Some(PdfPage(pdf, n)) else None
  }

  predicate RequestMalformed(r: TwoPageRequest) {
    !Present(r.outputPdf) || !Present(r.inputPdfBase) || r.front.None?
  }

  predicate FrontIncomplete(f: FrontConfig) {
    !Present(f.template) || f.text.None?
  }

  /** What becomes of one request, checked in the order the source checks. */
  function AssembleTwoPages(req: TwoPageRequest, a: Assets): (o: Outcome)
    ensures RequestMalformed(req) <==> o == Skipped(MalformedRequest)
  {
    if RequestMalformed(req) then Skipped(MalformedRequest)
    else
      var base := req.inputPdfBase.value;
      var front := req.front.value;
      if base !in a.pictures then Skipped(BasePdfMissing(base))
      else if ExtractPage(a, base, 0).None? then Failed(PageExtractionFailed(0))
      else if ExtractPage(a, base, 1).None? then Failed(PageExtractionFailed(1))
      else if FrontIncomplete(front) then Failed(IncompleteFrontConfig)
      else if front.template.value !in a.registry then Failed(TemplateNotFound(front.template.value))
      else match Drawn(a.registry[front.template.value], front.text.value, front.font, a.fonts, a.m)
        case Err(_) => Failed(FontUnavailable)
        case Ok(ops) =>
          if !a.saves(req.outputPdf.value) then Failed(SaveFailed)
          else Saved(req.outputPdf.value, [Page(PdfPage(base, 0), ops), Page(PdfPage(base, 1), [])])
  }

  /** The outcomes of the requests, in order. */
  function Outcomes(reqs: seq<TwoPageRequest>, a: Assets): (os: seq<Outcome>)
    ensures |os| == |reqs|
    decreases |reqs|
  {
    if reqs == [] then [] else Outcomes(reqs[..|reqs| - 1], a) + [AssembleTwoPages(reqs[|reqs| - 1], a)]
  }

  /** Each request has its own outcome: the batch treats the requests
      independently and in order. */
  lemma {:induction false} OutcomesAt(reqs: seq<TwoPageRequest>, a: Assets, i: nat)
    requires i < |reqs|
    ensures Outcomes(reqs, a)[i] == AssembleTwoPages(reqs[i], a)
    decreases |reqs|
  {
    if i < |reqs| - 1 {
      var init := reqs[..|reqs| - 1];
      OutcomesAt(init, a, i);
      assert Outcomes(reqs, a)[i] == Outcomes(init, a)[i];
    }
  }

  /** A saved document has exactly two pages: the base PDF's first page
      with the front text drawn by the defaulting layout, then its second
      page untouched; so the base PDF is known to have at least two pages. */
  lemma SavedTwoPages(req: TwoPageRequest, a: Assets)
    requires AssembleTwoPages(req, a).Saved?
    ensures var o := AssembleTwoPages(req, a);
      var base := req.inputPdfBase.value;
      var front := req.front.value;
      && !RequestMalformed(req) && o.name == req.outputPdf.value && a.saves(o.name)
      && base in a.pictures && a.opens(base) && a.pageCount(base) >= 2
      && !FrontIncomplete(front) && front.template.value in a.registry
      && |o.doc| == 2
      && o.doc[0].base == PdfPage(base, 0)
      && Drawn(a.registry[front.template.value], front.text.value, front.font, a.fonts, a.m) == Ok(o.doc[0].drawn)
      && o.doc[1] == Page(PdfPage(base, 1), [])
  {
  }

  /** A base PDF with fewer than two pages, or one that cannot be opened,
      never yields a document. */
  lemma ShortBaseFails(req: TwoPageRequest, a: Assets)
    requires !RequestMalformed(req)
    requires !a.opens(req.inputPdfBase.value) || a.pageCount(req.inputPdfBase.value) < 2
    ensures !AssembleTwoPages(req, a).Saved?
  {
  }

  /** The names of the two temporary images of request `i`. */
  function TempFront(i: nat): string { "temp_" + IntToStr(i) + "_front.png" }
  function TempBack(i: nat): string { "temp_" + IntToStr(i) + "_back.png" }

  /** Different requests use different temporary names, and a request's
      two names differ. */
  lemma TempNamesDistinct(i: nat, j: nat)
    ensures TempFront(i) != TempBack(j)
    ensures i != j ==> TempFront(i) != TempFront(j) && TempBack(i) != TempBack(j)
  {
    var fi, bj := TempFront(i), TempBack(j);
    var di, dj := IntToStr(i), IntToStr(j);
    if |fi| == |bj| {
      // "_front.png" is one character longer than "_back.png", so the digits
      // of j run one place further, where the front name has its '_'
      assert |dj| == |di| + 1;
      assert fi[5 + |di|] == '_';
      assert bj[5 + |di|] == dj[|di|] == Digits(j)[|di|];
    }
    if i != j {
      TempPrefixInjective(i, j, "_front.png");
      TempPrefixInjective(i, j, "_back.png");
    }
  }

  lemma TempPrefixInjective(i: nat, j: nat, tail: string)
    requires i != j
    requires |tail| > 0 && tail[0] == '_'
    ensures "temp_" + IntToStr(i) + tail != "temp_" + IntToStr(j) + tail
  {
    var di, dj := Digits(i), Digits(j);
    assert IntToStr(i) == di && IntToStr(j) == dj;
    if |di| == |dj| {
      var k := DigitsDiffer(i, j);
      TempCharAt(di, tail, k);
      TempCharAt(dj, tail, k);
    } else if |di| < |dj| {
      TempCharAt(di, tail, |di|);
      TempCharAt(dj, tail, |di|);
    } else {
      TempCharAt(di, tail, |dj|);
      TempCharAt(dj, tail, |dj|);
    }
  }

  /** The digits of two different numbers of the same length differ at some
      place. */
  lemma DigitsDiffer(i: nat, j: nat) returns (k: nat)
    requires i != j && |Digits(i)| == |Digits(j)|
    ensures k < |Digits(i)| && Digits(i)[k] != Digits(j)[k]
  {
    DigitsRoundTrip(i);
    DigitsRoundTrip(j);
    var di, dj := Digits(i), Digits(j);
    assert di != dj;
    k :| 0 <= k < |di| && di[k] != dj[k];
  }

  /** The character at place `k` after the `temp_` prefix. */
  lemma TempCharAt(d: string, tail: string, k: nat)
    requires k < |d| + |tail|
    ensures ("temp_" + d + tail)[5 + k] == if k < |d| then d[k] else tail[k - |d|]
  {
  }

  /** The temporary folder the pages are extracted to. */
  class TempDir {
    var files: set<string>

    constructor ()
      ensures files == {}
    {
      files := {};
    }

    /** `shutil.rmtree` followed by `mkdir`: the folder is empty again. */
    method Wipe()
      modifies this
      ensures files == {}
    {
      files := {};
    }

    /** `pix.save`: a file appears. */
    method Write(name: string)
      modifies this
      ensures files == old(files) + {name}
    {
      files := files + {name};
    }

    /** `unlink` when the file exists. */
    method RemoveIfExists(name: string)
      modifies this
      ensures files == old(files) - {name}
    {
      if name in files {
        files := files - {name};
      }
    }
  }

  /** `extrair_pagina_pdf_para_png`: writes page `n` of the PDF to the
      temporary file `target` when it can be extracted. */
  method ExtractToPng(a: Assets, pdf: string, n: nat, target: string, tmp: TempDir) returns (r: Option<Raster>)
    modifies tmp
    ensures r == ExtractPage(a, pdf, n)
    ensures tmp.files == if r.Some? then old(tmp.files) + {target} else old(tmp.files)
  {
    if !a.opens(pdf) || n >= a.pageCount(pdf) {
      return None;
    }
    tmp.Write(target);
    return Some(PdfPage(pdf, n));
  }

  /** One iteration of the request loop, including the `finally` that
      removes both temporary images. */
  method ProcessRequest(req: TwoPageRequest, i: nat, a: Assets, tmp: TempDir) returns (o: Outcome)
    modifies tmp
    ensures o == AssembleTwoPages(req, a)
    ensures o.Skipped? ==> tmp.files == old(tmp.files)
    ensures !o.Skipped? ==> tmp.files == old(tmp.files) - {TempFront(i), TempBack(i)}
  {
    if RequestMalformed(req) {
      return Skipped(MalformedRequest);
    }
    var base := req.inputPdfBase.value;
    var front := req.front.value;
    if base !in a.pictures {
      return Skipped(BasePdfMissing(base));
    }
    var frontPng, backPng := TempFront(i), TempBack(i);
    var before := tmp.files;
    o := Failed(PageExtractionFailed(0));
    var first := ExtractToPng(a, base, 0, frontPng, tmp);
    if first.Some? {
      var second := ExtractToPng(a, base, 1, backPng, tmp);
      if second.None? {
        o := Failed(PageExtractionFailed(1));
      } else if FrontIncomplete(front) {
        o := Failed(IncompleteFrontConfig);
      } else if front.template.value !in a.registry {
        o := Failed(TemplateNotFound(front.template.value));
      } else {
        var drawn := DrawTemplatedText(a.registry[front.template.value], front.text.value, front.font, a.fonts, a.m);
        if drawn.Err? {
          o := Failed(FontUnavailable);
        } else if !a.saves(req.outputPdf.value) {
          o := Failed(SaveFailed);
        } else {
          o := Saved(req.outputPdf.value, [Page(PdfPage(base, 0), drawn.value), Page(PdfPage(base, 1), [])]);
        }
      }
    }
    assert tmp.files - {frontPng, backPng} == before - {frontPng, backPng};
    tmp.RemoveIfExists(frontPng);
    tmp.RemoveIfExists(backPng);
  }

  /** `processar_pedidos_pdf_duas_paginas`: processes every request in
      order, saving each assembled PDF into the output folder and counting
      the saved ones; the temporary folder is empty between requests and
      at the end. */
  method ProcessarPedidosPdfDuasPaginas(reqs: seq<TwoPageRequest>, a: Assets, folder: map<string, Document>, tmp: TempDir)
    returns (written: map<string, Document>, succeeded: nat)
    modifies tmp
    ensures written == Publish(folder, Outcomes(reqs, a))
    ensures succeeded == Succeeded(Outcomes(reqs, a))
    ensures tmp.files == {}
  {
    written := folder;
    succeeded := 0;
    tmp.Wipe();
    var i := 0;
    while i < |reqs|
      invariant 0 <= i <= |reqs|
      invariant written == Publish(folder, Outcomes(reqs[..i], a))
      invariant succeeded == Succeeded(Outcomes(reqs[..i], a))
      invariant tmp.files == {}
    {
      assert reqs[..i + 1][..i] == reqs[..i];
      var outcome := ProcessRequest(reqs[i], i, a, tmp);
      assert Outcomes(reqs[..i + 1], a) == Outcomes(reqs[..i], a) + [outcome];
      PublishStep(folder, Outcomes(reqs[..i], a), outcome);
      if outcome.Saved? {
        written := written[outcome.name := outcome.doc];
        succeeded := succeeded + 1;
      }
      i := i + 1;
    }
    assert reqs[..|reqs|] == reqs;
    tmp.Wipe();
  }
}
