/** `processar_lote_local_json` of run.py: sends every record of the local
    request list (keys `ID`, `imagem`, `texto`, `fonte`) to the rendering
    API. */
module JsonSender {
  import opened Common
  import opened BatchSend

  /** A record is sent only when `ID`, `imagem` and `texto` are all truthy,
      so an empty text is skipped here. */
  predicate RowValid(row: Record) {
    Truthy(Get(row, "ID")) && Truthy(Get(row, "imagem")) && Truthy(Get(row, "texto"))
  }

  /** The payload of a record: the three fields under the API's names, and
      the font override only when `fonte` is truthy. */
  function BuildPayload(row: Record): (p: Payload)
    ensures p.Keys == {"order_id", "template_image", "text_to_add"} +
      (if Truthy(Get(row, "fonte")) then {"font_override"} else {})
    ensures p["order_id"] == Get(row, "ID") && p["template_image"] == Get(row, "imagem")
    ensures p["text_to_add"] == Get(row, "texto")
    ensures "font_override" in p ==> p["font_override"] == Get(row, "fonte") && Truthy(p["font_override"])
  {
    var base := map["order_id" := Get(row, "ID"), "template_image" := Get(row, "imagem"),
                    "text_to_add" := Get(row, "texto")];
    if Truthy(Get(row, "fonte")) then base["font_override" := Get(row, "fonte")] else base
  }

  /** The report of the whole function: an empty list sends nothing. */
  function JsonReport(rows: seq<Record>, post: nat -> PostOutcome): (r: Report)
    ensures rows == [] <==> r == NothingToSend
  {
    if rows == [] then NothingToSend else Summary(Send(Offers(rows, RowValid, BuildPayload), post), |rows|)
  }

  /** The records that are sent, in order. */
  function ValidRows(rows: seq<Record>): (vs: seq<Record>)
    ensures |vs| <= |rows|
    ensures forall k :: 0 <= k < |vs| ==> RowValid(vs[k])
    decreases |rows|
  {
    if rows == [] then []
    else
      var row := rows[|rows| - 1];
      ValidRows(rows[..|rows| - 1]) + (if RowValid(row) then [row] else [])
  }

  /** The payloads offered to the API are the payloads of the valid
      records, in input order. */
  lemma {:induction false} ValidPayloads(rows: seq<Record>)
    ensures |Valid(Offers(rows, RowValid, BuildPayload))| == |ValidRows(rows)|
    ensures forall k :: 0 <= k < |ValidRows(rows)| ==>
      Valid(Offers(rows, RowValid, BuildPayload))[k] == BuildPayload(ValidRows(rows)[k])
    decreases |rows|
  {
    if rows != [] {
      var init := rows[..|rows| - 1];
      ValidPayloads(init);
      var items := Offers(rows, RowValid, BuildPayload);
      assert items[..|items| - 1] == Offers(init, RowValid, BuildPayload);
    }
  }

  /** What a non-empty batch sends and counts: the payloads of the valid
      records in input order, one POST each, up to and including the first
      connection error or other exception; each carries a truthy id, image
      and text. */
  lemma SentPayloads(rows: seq<Record>, post: nat -> PostOutcome)
    requires rows != []
    ensures var r := JsonReport(rows, post);
      && |r.sent| <= |ValidRows(rows)|
      && (forall k :: 0 <= k < |r.sent| ==> r.sent[k] == BuildPayload(ValidRows(rows)[k]))
      && (forall k :: 0 <= k < |r.sent| ==>
            Truthy(Get(r.sent[k], "order_id")) && Truthy(Get(r.sent[k], "template_image")) &&
            Truthy(Get(r.sent[k], "text_to_add")))
      && (r.Finished? ==> |r.sent| == |ValidRows(rows)| && r.succeeded == AcceptedCount(post, |r.sent|))
      && (r.Aborted? ==> |r.sent| > 0 && Fatal(post(|r.sent| - 1)))
  {
    var items := Offers(rows, RowValid, BuildPayload);
    SendSpec(items, post);
    ValidPayloads(rows);
  }

  /** `processar_lote_local_json`: builds each payload and posts it, the
      k-th POST of the batch ending as `post(k)`. */
  method ProcessarLoteLocalJson(rows: seq<Record>, post: nat -> PostOutcome) returns (report: Report)
    ensures report == JsonReport(rows, post)
  {
    if |rows| == 0 {
      return NothingToSend;
    }
    ghost var items := Offers(rows, RowValid, BuildPayload);
    var sent: seq<Payload> := [];
    var succeeded := 0;
    var i := 0;
    while i < |rows|
      invariant 0 <= i <= |rows|
      invariant Send(items[..i], post) == SendState(sent, succeeded, false)
    {
      SendStep(items, i, post);
      var row := rows[i];
      var orderId, templateImage, textToAdd, fontOverride :=
        Get(row, "ID"), Get(row, "imagem"), Get(row, "texto"), Get(row, "fonte");
      if !(Truthy(orderId) && Truthy(templateImage) && Truthy(textToAdd)) {
        i := i + 1;
        continue;
      }
      var payload := map["order_id" := orderId, "template_image" := templateImage, "text_to_add" := textToAdd];
      if Truthy(fontOverride) {
        payload := payload["font_override" := fontOverride];
      }
      assert items[i] == Some(payload);
      var response := post(|sent|);
      sent := sent + [payload];
      // `except ConnectionError` returns; any other exception of the POST
      // leaves the loop for the outer `except Exception`.
      if response == ConnectionError || response == OtherError {
        AbortSticks(items, i + 1, post);
        SendWhole(items, post);
        return Aborted(sent, succeeded);
      }
      if response == Status(StatusOk) {
        succeeded := succeeded + 1;
      }
      i := i + 1;
    }
    SendWhole(items, post);
    return Finished(sent, |rows|, succeeded, |rows| - succeeded);
  }
}
