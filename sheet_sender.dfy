/** `processar_lote_local` of main/enviar_lote.py: sends the rows read from
    the order spreadsheet (columns already renamed to `order_id`,
    `template_image`, `text_to_add`) to the rendering API. */
module SheetSender {
  import opened Common
  import opened BatchSend

  /** A row is sent only when its three columns are all truthy. */
  predicate RowValid(row: Record) {
    Truthy(Get(row, "order_id")) && Truthy(Get(row, "template_image")) && Truthy(Get(row, "text_to_add"))
  }

  /** The payload of a row: the order id converted with `str()`, the other
      two columns as they are, and never a font override. */
  function BuildPayload(row: Record): (p: Payload)
    ensures p.Keys == {"order_id", "template_image", "text_to_add"}
    ensures p["order_id"] == Str(ScalarToStr(Get(row, "order_id")))
    ensures p["template_image"] == Get(row, "template_image") && p["text_to_add"] == Get(row, "text_to_add")
  {
    map["order_id" := Str(ScalarToStr(Get(row, "order_id"))),
        "template_image" := Get(row, "template_image"),
        "text_to_add" := Get(row, "text_to_add")]
  }

  /** A truthy order id keeps its text through `str()`: a string is sent
      unchanged, an integer as its decimal digits. */
  lemma OrderIdText(row: Record)
    requires RowValid(row)
    ensures var id := Get(row, "order_id");
      var sent := BuildPayload(row)["order_id"];
      && sent.Str? && sent.s != ""
      && (id.Str? ==> sent.s == id.s)
      && (id.Int? && id.i > 0 ==> DigitsValue(sent.s) == id.i)
  {
    var id := Get(row, "order_id");
    if id.Int? && id.i > 0 {
      DigitsRoundTrip(id.i);
    }
  }

  /** The report of the whole function; unlike run.py there is no special
      case for an empty list. */
  function SheetReport(rows: seq<Record>, post: nat -> PostOutcome): (r: Report)
    ensures !r.NothingToSend?
    ensures rows == [] ==> r == Finished([], 0, 0, 0)
  {
    Summary(Send(Offers(rows, RowValid, BuildPayload), post), |rows|)
  }

  /** No payload of this sender ever carries a font override, and every one
      sent has a string order id. */
  lemma NoFontOverride(rows: seq<Record>, post: nat -> PostOutcome)
    ensures var r := SheetReport(rows, post);
      forall k :: 0 <= k < |r.sent| ==> "font_override" !in r.sent[k] && Get(r.sent[k], "order_id").Str?
  {
    var items := Offers(rows, RowValid, BuildPayload);
    SendSpec(items, post);
    ValidBuilt(items, rows);
  }

  lemma {:induction false} ValidBuilt(items: seq<Option<Payload>>, rows: seq<Record>)
    requires items == Offers(rows, RowValid, BuildPayload)
    ensures forall k :: 0 <= k < |Valid(items)| ==>
      Valid(items)[k].Keys == {"order_id", "template_image", "text_to_add"} && Valid(items)[k]["order_id"].Str?
    decreases |rows|
  {
    if rows != [] {
      var init := rows[..|rows| - 1];
      assert items[..|items| - 1] == Offers(init, RowValid, BuildPayload);
      ValidBuilt(Offers(init, RowValid, BuildPayload), init);
    }
  }

  /** `processar_lote_local`: builds each payload and posts it, the k-th
      POST of the batch ending as `post(k)`. */
  method ProcessarLoteLocal(rows: seq<Record>, post: nat -> PostOutcome) returns (report: Report)
    ensures report == SheetReport(rows, post)
  {
    ghost var items := Offers(rows, RowValid, BuildPayload);
    var sent: seq<Payload> := [];
    var succeeded := 0;
    var i := 0;
    while i < |rows|
      invariant 0 <= i <= |rows|
      invariant Send(items[..i], post) == SendState(sent, succeeded, false)
    {
      SendStep(items, i, post);
      var row := rows[i];
      var orderId, templateImage, textToAdd := Get(row, "order_id"), Get(row, "template_image"), Get(row, "text_to_add");
      if !(Truthy(orderId) && Truthy(templateImage) && Truthy(textToAdd)) {
        i := i + 1;
        continue;
      }
      var payload := map["order_id" := Str(ScalarToStr(orderId)), "template_image" := templateImage,
                         "text_to_add" := textToAdd];
      assert payload == BuildPayload(row);
      assert items[i] == Some(payload);
      var response := post(|sent|);
      sent := sent + [payload];
      // `except ConnectionError` returns; any other exception of the POST
      // is not caught here and leaves the function.
      if response == ConnectionError || response == OtherError {
        AbortSticks(items, i + 1, post);
        SendWhole(items, post);
        return Aborted(sent, succeeded);
      }
      if response == Status(StatusOk) {
        succeeded := succeeded + 1;
      }
      i := i + 1;
    }
    SendWhole(items, post);
    return Finished(sent, |rows|, succeeded, |rows| - succeeded);
  }
}
