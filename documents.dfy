/** What the two PDF batch assemblers (run_pdf.py and
    main/processar_agenda.py) share: composited pages, the outcome of one
    request, the files and codecs they rely on, and the output folder after
    a batch. */
module Documents {
  import opened TextLayout

  /** An unmodified base page: a picture file, or page `index` of a base PDF
      rasterised to an image. */
  datatype Raster = Picture(name: string) | PdfPage(doc: string, index: nat)

  /** A page of an output document: a base page with text drawn on it. */
  datatype Page = Page(base: Raster, drawn: seq<DrawOp>)

  type Document = seq<Page>

  /** Why a request wrote no document. */
  datatype Failure =
    | MalformedRequest
    | TemplateNotFound(template: string)
    | BaseImageMissing(image: string)
    | ImageUnreadable(image: string)
    | FontUnavailable
    | NoPagesRendered
    | BasePdfMissing(pdf: string)
    | PageExtractionFailed(page: nat)
    | IncompleteFrontConfig
    | SaveFailed

  /** One request's end: skipped before its work started, failed inside
      it, or saved under its output name. */
  datatype Outcome = Skipped(why: Failure) | Failed(reason: Failure) | Saved(name: string, doc: Document)

  /** The files and codecs a batch reads. The template registry, the
      pictures folder and the font folder are read-only; `opens` says
      whether Pillow or PyMuPDF can open a file, `pageCount` how many
      pages PyMuPDF finds in a PDF, and `saves` whether writing the output
      document of that name succeeds. */
  datatype Assets = Assets(
    registry: map<string, TemplateSpec>,
    pictures: set<string>,
    fonts: set<string>,
    m: Metrics,
    opens: string -> bool,
    pageCount: string -> nat,
    saves: string -> bool)

  /** The output folder after the outcomes in order: each saved document
      is written under its name, a later one replacing an earlier one. */
  function Publish(folder: map<string, Document>, outcomes: seq<Outcome>): map<string, Document>
    decreases |outcomes|
  {
    if outcomes == [] then folder
    else
      var before := Publish(folder, outcomes[..|outcomes| - 1]);
      var last := outcomes[|outcomes| - 1];
      if last.Saved? then before[last.name := last.doc] else before
  }

  /** The number of saved documents. */
  function Succeeded(outcomes: seq<Outcome>): (n: nat)
    ensures n <= |outcomes|
    decreases |outcomes|
  {
    if outcomes == [] then 0
    else Succeeded(outcomes[..|outcomes| - 1]) + (if outcomes[|outcomes| - 1].Saved? then 1 else 0)
  }

  /** The names some outcome saved under. */
  function SavedNames(outcomes: seq<Outcome>): set<string> {
    set k | 0 <= k < |outcomes| && outcomes[k].Saved? :: outcomes[k].name
  }

  /** One more outcome: a saved document is written under its name and
      counted; any other outcome changes nothing. */
  lemma PublishStep(folder: map<string, Document>, outcomes: seq<Outcome>, o: Outcome)
    ensures Publish(folder, outcomes + [o]) ==
      if o.Saved? then Publish(folder, outcomes)[o.name := o.doc] else Publish(folder, outcomes)
    ensures Succeeded(outcomes + [o]) == Succeeded(outcomes) + (if o.Saved? then 1 else 0)
  {
    assert (outcomes + [o])[..|outcomes|] == outcomes;
  }

  /** Only saved documents are written: the folder gains exactly their
      names, and every other file is left as it was. */
  lemma {:induction false} PublishFrame(folder: map<string, Document>, outcomes: seq<Outcome>)
    ensures Publish(folder, outcomes).Keys == folder.Keys + SavedNames(outcomes)
    ensures forall name :: name in folder && name !in SavedNames(outcomes) ==>
      Publish(folder, outcomes)[name] == folder[name]
    decreases |outcomes|
  {
    if outcomes != [] {
      var init := outcomes[..|outcomes| - 1];
      PublishFrame(folder, init);
      var last := outcomes[|outcomes| - 1];
      var names := SavedNames(outcomes);
      if last.Saved? {
        assert names == SavedNames(init) + {last.name} by {
          forall n | n in names ensures n in SavedNames(init) + {last.name} {
            var k :| 0 <= k < |outcomes| && outcomes[k].Saved? && outcomes[k].name == n;
            if k < |init| { assert init[k] == outcomes[k]; }
          }
          forall n | n in SavedNames(init) ensures n in names {
            var k :| 0 <= k < |init| && init[k].Saved? && init[k].name == n;
            assert outcomes[k] == init[k];
          }
        }
      } else {
        assert names == SavedNames(init) by {
          forall n | n in names ensures n in SavedNames(init) {
            var k :| 0 <= k < |outcomes| && outcomes[k].Saved? && outcomes[k].name == n;
            assert k < |init| && init[k] == outcomes[k];
          }
          forall n | n in SavedNames(init) ensures n in names {
            var k :| 0 <= k < |init| && init[k].Saved? && init[k].name == n;
            assert outcomes[k] == init[k];
          }
        }
      }
    }
  }

  /** Last writer wins: the file under a name holds the document of the
      last outcome that saved under that name. */
  lemma {:induction false} PublishLastWriter(folder: map<string, Document>, outcomes: seq<Outcome>, k: nat)
    requires k < |outcomes| && outcomes[k].Saved?
    requires forall j :: k < j < |outcomes| && outcomes[j].Saved? ==> outcomes[j].name != outcomes[k].name
    ensures outcomes[k].name in Publish(folder, outcomes)
    ensures Publish(folder, outcomes)[outcomes[k].name] == outcomes[k].doc
    decreases |outcomes|
  {
    if k < |outcomes| - 1 {
      var init := outcomes[..|outcomes| - 1];
      assert init[k] == outcomes[k];
      PublishLastWriter(folder, init, k);
    }
  }

  /** Requests are counted independently: the successes of a batch are
      the successes of its parts. */
  lemma {:induction false} SucceededAppend(a: seq<Outcome>, b: seq<Outcome>)
    ensures Succeeded(a + b) == Succeeded(a) + Succeeded(b)
    decreases |b|
  {
    if b == [] {
      assert a + b == a;
    } else {
      assert (a + b)[..|a + b| - 1] == a + b[..|b| - 1];
      SucceededAppend(a, b[..|b| - 1]);
    }
  }

  /** The success count is the number of saved outcomes. */
  lemma {:induction false} SucceededCounts(outcomes: seq<Outcome>)
    ensures Succeeded(outcomes) == |set k | 0 <= k < |outcomes| && outcomes[k].Saved?|
    decreases |outcomes|
  {
    if outcomes != [] {
      var n := |outcomes| - 1;
      var init := outcomes[..n];
      SucceededCounts(init);
      var before := set k | 0 <= k < n && init[k].Saved?;
      var after := set k | 0 <= k < |outcomes| && outcomes[k].Saved?;
      assert before == set k | 0 <= k < n && outcomes[k].Saved?;
      if outcomes[n].Saved? {
        assert after == before + {n};
      } else {
        assert after == before;
      }
    }
  }
}
