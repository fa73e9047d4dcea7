/** What the two HTTP batch senders (run.py and main/enviar_lote.py)
    share: each valid record becomes one POST to the local rendering API,
    status 200 is a success, any other status or a read timeout is a
    failure that does not stop the batch, and a connection error (a
    connect timeout included) or any other exception of the POST ends the
    batch at once. */
module BatchSend {
  import opened Common

  /** The JSON body of one POST. */
  type Payload = map<string, Scalar>

  /** How one `requests.post` ends: an answer with a status code, a read
      timeout (`ReadTimeout`), a connection error, or any other exception
      of the HTTP library (too many redirects, a broken chunked answer,
      ...). A connect timeout (`ConnectTimeout`) is a `ConnectionError`:
      the HTTP library makes it a subclass of both, and the senders test
      `ConnectionError` first. */
  datatype PostOutcome = Status(code: int) | Timeout | ConnectionError | OtherError

  /** The outcomes that end the batch: a connection error makes the loop
      return, and any other exception leaves the loop (run.py catches it
      outside the loop, main/enviar_lote.py lets it propagate); either way
      no summary is logged. */
  predicate Fatal(r: PostOutcome) {
    r.ConnectionError? || r.OtherError?
  }

  /** What each record contributes to the batch, in order: the payload
      `build` makes of it when it passes the sender's test `valid`, and
      nothing (`None`) when it is skipped. */
  function Offers(rows: seq<Record>, valid: Record -> bool, build: Record -> Payload)
    : (items: seq<Option<Payload>>)
    ensures |items| == |rows|
    ensures forall i :: 0 <= i < |rows| ==>
      items[i] == if valid(rows[i]) then Some(build(rows[i])) else None
    decreases |rows|
  {
    if rows == [] then []
    else
      var row := rows[|rows| - 1];
      Offers(rows[..|rows| - 1], valid, build) + [if valid(row) then Some(build(row)) else None]
  }

  /** The code of a successful generation. */
  const StatusOk: int := 200

  predicate Accepted(r: PostOutcome) {
    r == Status(StatusOk)
  }

  /** Progress of the send loop: the payloads posted so far, the successes
      among them, and whether the batch was abandoned. */
  datatype SendState = SendState(sent: seq<Payload>, succeeded: nat, aborted: bool)

  /** The payloads of the records that are sent, in order (`None` stands
      for a skipped record). */
  function Valid(items: seq<Option<Payload>>): (ps: seq<Payload>)
    ensures |ps| <= |items|
    decreases |items|
  {
    if items == [] then []
    else
      var last := items[|items| - 1];
      Valid(items[..|items| - 1]) + (if last.Some? then [last.value] else [])
  }

  /** The number of accepted POSTs among the first `n`, where `post(k)` is
      how the k-th POST of the batch ends. */
  function AcceptedCount(post: nat -> PostOutcome, n: nat): (c: nat)
    ensures c <= n
  {
    if n == 0 then 0 else AcceptedCount(post, n - 1) + (if Accepted(post(n - 1)) then 1 else 0)
  }

  /** The send loop over the records in order: skipped records change
      nothing, every other one is posted once, and after a POST that ends
      the batch (`Fatal`) nothing more happens. */
  function Send(items: seq<Option<Payload>>, post: nat -> PostOutcome): SendState
    decreases |items|
  {
    if items == [] then SendState([], 0, false)
    else
      var s := Send(items[..|items| - 1], post);
      var item := items[|items| - 1];
      if s.aborted || item.None? then s
      else
        var r := post(|s.sent|);
        SendState(s.sent + [item.value], s.succeeded + (if Accepted(r) then 1 else 0), Fatal(r))
  }

  /** One record of the send loop, on the first `i + 1` records. */
  lemma SendStep(items: seq<Option<Payload>>, i: nat, post: nat -> PostOutcome)
    requires i < |items|
    ensures var s := Send(items[..i], post);
      Send(items[..i + 1], post) ==
        if s.aborted || items[i].None? then s
        else SendState(s.sent + [items[i].value], s.succeeded + (if Accepted(post(|s.sent|)) then 1 else 0),
                       Fatal(post(|s.sent|)))
  {
    assert items[..i + 1][..i] == items[..i];
  }

  /** The loop over all the records is the whole batch. */
  lemma SendWhole(items: seq<Option<Payload>>, post: nat -> PostOutcome)
    ensures Send(items[..|items|], post) == Send(items, post)
  {
    assert items[..|items|] == items;
  }

  /** What the loop sends and counts: the valid payloads in order, up to
      and including the first POST that met a connection error or another
      exception; the
      successes are exactly the POSTs answered with status 200. */
  lemma {:induction false} SendSpec(items: seq<Option<Payload>>, post: nat -> PostOutcome)
    ensures var s := Send(items, post);
      && |s.sent| <= |Valid(items)|
      && s.sent == Valid(items)[..|s.sent|]
      && s.succeeded == AcceptedCount(post, |s.sent|)
      && (forall k :: 0 <= k < |s.sent| - 1 ==> !Fatal(post(k)))
      && (s.aborted <==> |s.sent| > 0 && Fatal(post(|s.sent| - 1)))
      && (!s.aborted ==> s.sent == Valid(items))
    decreases |items|
  {
    if items != [] {
      var init := items[..|items| - 1];
      SendSpec(init, post);
      var s0 := Send(init, post);
      var item := items[|items| - 1];
      if item.Some? {
        assert Valid(items) == Valid(init) + [item.value];
        if !s0.aborted {
          assert s0.sent + [item.value] == Valid(items)[..|s0.sent| + 1];
        } else {
          assert Valid(items)[..|s0.sent|] == Valid(init)[..|s0.sent|];
        }
      } else {
        assert Valid(items) == Valid(init);
      }
    }
  }

  /** The batch is abandoned exactly when one of the POSTs it would make
      meets a connection error or another exception. */
  lemma AbortedIff(items: seq<Option<Payload>>, post: nat -> PostOutcome)
    ensures Send(items, post).aborted <==> exists k :: 0 <= k < |Valid(items)| && Fatal(post(k))
  {
    SendSpec(items, post);
    var s := Send(items, post);
    if !s.aborted {
      assert forall k :: 0 <= k < |Valid(items)| ==> !Fatal(post(k)) by {
        forall k | 0 <= k < |Valid(items)|
          ensures !Fatal(post(k))
        {
          if k < |s.sent| - 1 {
          } else {
            assert k == |s.sent| - 1;
          }
        }
      }
    }
  }

  /** Once the batch is abandoned, the records after it change nothing. */
  lemma {:induction false} AbortSticks(items: seq<Option<Payload>>, j: nat, post: nat -> PostOutcome)
    requires j <= |items| && Send(items[..j], post).aborted
    ensures Send(items, post) == Send(items[..j], post)
    decreases |items| - j
  {
    if j < |items| {
      assert items[..j + 1][..j] == items[..j];
      AbortSticks(items, j + 1, post);
    } else {
      assert items[..j] == items;
    }
  }

  /** The outcome the loop of a sender reports. */
  datatype Report =
    | NothingToSend
    | Aborted(sent: seq<Payload>, succeeded: nat)
    | Finished(sent: seq<Payload>, total: nat, succeeded: nat, failed: int)

  /** The report of a batch over `total` records that runs to its end or is
      abandoned. */
  function Summary(s: SendState, total: nat): Report {
    if s.aborted then Aborted(s.sent, s.succeeded)
    else Finished(s.sent, total, s.succeeded, total - s.succeeded)
  }

  /** The failures reported at the end are the records that were skipped
      plus the POSTs that did not return 200, so they are never negative. */
  lemma FailedCounts(items: seq<Option<Payload>>, post: nat -> PostOutcome)
    requires !Send(items, post).aborted
    ensures var r := Summary(Send(items, post), |items|);
      r.failed == (|items| - |Valid(items)|) + (|Valid(items)| - AcceptedCount(post, |Valid(items)|))
    ensures Summary(Send(items, post), |items|).failed >= 0
  {
    SendSpec(items, post);
  }
}
