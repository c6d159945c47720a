// One bulk delivery to OpenSearch: a request, and the retry loop that re-sends
// only what the server refused (internal/output/opensearch_writer.go).
module BulkSend {
  import opened LogLines
  import opened Seqs

  /** What the server, or the network in front of it, does with one request. */
  datatype Response =
    | TransportError
    | Http(status: int, body: Body)

  datatype Body =
    | Undecodable
    | Bulk(errors: bool, statuses: seq<int>)

  /** One round of the retry loop: is the wait before it cut short by cancellation, and what
      does its request get. */
  datatype Attempt = Attempt(cancelled: bool, response: Response)

  datatype SendError = Cancelled | RetriesExhausted

  /** The result of a bulk delivery, with the requests made and what each one delivered. */
  datatype Delivery<D> = Delivery(
    undelivered: seq<D>, error: Option<SendError>, requests: seq<seq<D>>, acks: seq<seq<D>>)

  /** The documents whose item in the response carries a status of 300 or more. */
  function Refused<D>(docs: seq<D>, statuses: seq<int>): (r: seq<D>) {
    if docs == [] || statuses == [] then []
    else (if statuses[0] >= 300 then [docs[0]] else []) + Refused(docs[1..], statuses[1..])
  }

  /** The other documents, including those past the end of the response's items. */
  function NotRefused<D>(docs: seq<D>, statuses: seq<int>): (r: seq<D>) {
    if docs == [] then []
    else if statuses == [] then docs
    else (if statuses[0] >= 300 then [] else [docs[0]]) + NotRefused(docs[1..], statuses[1..])
  }

  /** What a request for `docs` leaves undelivered: None when the whole request failed. */
  function Leaves<D>(docs: seq<D>, response: Response): Option<seq<D>> {
    match response
    case TransportError => None
    case Http(status, body) =>
      if status >= 400 || body.Undecodable? then None
      else if !body.errors then Some([])
      else Some(Refused(docs, body.statuses))
  }

  /** What a request for `docs` delivers. */
  function Delivers<D>(docs: seq<D>, response: Response): seq<D> {
    match Leaves(docs, response)
    case None => []
    case Some(_) => if response.body.errors then NotRefused(docs, response.body.statuses) else docs
  }

  /** The retry loop, from round `attempt` on, over the documents `current`. */
  function Deliver<D>(current: seq<D>, attempt: nat, script: seq<Attempt>): (r: Delivery<D>)
    requires attempt <= |script|
    ensures |r.requests| == |r.acks| <= |script| - attempt
    decreases |script| - attempt
  {
    if attempt == |script| then Delivery(current, Some(RetriesExhausted), [], [])
    else if attempt > 0 && script[attempt].cancelled then Delivery(current, Some(Cancelled), [], [])
    else
      var got := Delivers(current, script[attempt].response);
      match Leaves(current, script[attempt].response)
      case Some(left) =>
        if left == [] then Delivery([], None, [current], [got])
        else Prepend(current, got, Deliver(left, attempt + 1, script))
      case None => Prepend(current, got, Deliver(current, attempt + 1, script))
  }

  function Prepend<D>(request: seq<D>, got: seq<D>, rest: Delivery<D>): Delivery<D> {
    rest.(requests := [request] + rest.requests, acks := [got] + rest.acks)
  }

  /** Everything a delivery got through. */
  function Acked<D>(docs: seq<D>, script: seq<Attempt>): seq<D> {
    Flatten(Deliver(docs, 0, script).acks)
  }

  function Undelivered<D>(docs: seq<D>, script: seq<Attempt>): seq<D> {
    Deliver(docs, 0, script).undelivered
  }

  // ---------------------------------------------------------------- one request

  lemma {:induction false} RefusedPartition<D>(docs: seq<D>, statuses: seq<int>)
    ensures multiset(docs) == multiset(Refused(docs, statuses)) + multiset(NotRefused(docs, statuses))
  {
    if docs != [] && statuses != [] {
      RefusedPartition(docs[1..], statuses[1..]);
      assert docs == [docs[0]] + docs[1..];
      OneMore(docs[0], docs[1..], Refused(docs[1..], statuses[1..]), NotRefused(docs[1..], statuses[1..]));
    }
  }

  lemma OneMore<D>(x: D, all: seq<D>, a: seq<D>, b: seq<D>)
    requires multiset(all) == multiset(a) + multiset(b)
    ensures multiset([x] + all) == multiset([x] + a) + multiset([] + b) == multiset([] + a) + multiset([x] + b)
  {
    assert [] + a == a && [] + b == b;
  }

  lemma {:induction false} RefusedInOrder<D>(docs: seq<D>, statuses: seq<int>)
    ensures Subseq(Refused(docs, statuses), docs)
  {
    if docs != [] && statuses != [] {
      RefusedInOrder(docs[1..], statuses[1..]);
      OneInFront(docs[0], Refused(docs[1..], statuses[1..]), docs[1..]);
      assert docs == [docs[0]] + docs[1..];
    }
  }

  lemma {:induction false} NotRefusedInOrder<D>(docs: seq<D>, statuses: seq<int>)
    ensures Subseq(NotRefused(docs, statuses), docs)
  {
    if docs != [] && statuses == [] {
      SubseqRefl(docs);
    } else if docs != [] {
      NotRefusedInOrder(docs[1..], statuses[1..]);
      OneInFront(docs[0], NotRefused(docs[1..], statuses[1..]), docs[1..]);
      assert docs == [docs[0]] + docs[1..];
    }
  }

  lemma OneInFront<D>(x: D, a: seq<D>, b: seq<D>)
    requires Subseq(a, b)
    ensures Subseq([x] + a, [x] + b) && Subseq([] + a, [x] + b)
  {
    SubseqRefl([x]);
    SubseqConcat([x], [x], a, b);
    SubseqSkip(a, [x], b);
    assert [] + a == a;
  }

  /** The documents refused and those not refused are all the documents, each in order. */
  lemma RefusedSplits<D>(docs: seq<D>, statuses: seq<int>)
    ensures multiset(docs) == multiset(Refused(docs, statuses)) + multiset(NotRefused(docs, statuses))
    ensures Subseq(Refused(docs, statuses), docs) && Subseq(NotRefused(docs, statuses), docs)
  {
    RefusedPartition(docs, statuses);
    RefusedInOrder(docs, statuses);
    NotRefusedInOrder(docs, statuses);
  }

  /** A decoded response splits the request, in order, into what it delivered and what it left. */
  lemma RequestSplits<D>(docs: seq<D>, response: Response)
    ensures Leaves(docs, response).None? ==> Delivers(docs, response) == []
    ensures Leaves(docs, response).Some? ==>
              && var left := Leaves(docs, response).value;
              && multiset(docs) == multiset(left) + multiset(Delivers(docs, response))
              && Subseq(left, docs) && Subseq(Delivers(docs, response), docs)
  {
    if Leaves(docs, response).Some? {
      RefusedSplits(docs, response.body.statuses);
      SubseqRefl(docs);
    }
  }

  /** Position by position: what the items of a response refuse. */
  lemma {:induction false} RefusedByPosition<D>(docs: seq<D>, statuses: seq<int>, marks: seq<bool>)
    requires |marks| == |docs|
    requires forall i :: 0 <= i < |docs| ==> (marks[i] <==> i >= |statuses| || statuses[i] < 300)
    ensures Refused(docs, statuses) == Pick(docs, marks, false)
    ensures NotRefused(docs, statuses) == Pick(docs, marks, true)
  {
    if docs != [] && statuses != [] {
      forall i | 0 <= i < |docs[1..]|
        ensures marks[1..][i] <==> i >= |statuses[1..]| || statuses[1..][i] < 300
      {
        assert marks[i + 1] <==> i + 1 >= |statuses| || statuses[i + 1] < 300;
      }
      RefusedByPosition(docs[1..], statuses[1..], marks[1..]);
    } else {
      PickAll(docs, marks, true);
    }
  }

  /** Position by position: a document is delivered if and only if the response is a bulk response of
      a status below 400 that reports no errors, or no status of 300 or more at that position; the
      others are left if the response could be used, and otherwise the whole request failed. */
  lemma RequestByPosition<D>(docs: seq<D>, response: Response, marks: seq<bool>)
    requires |marks| == |docs|
    requires forall i :: 0 <= i < |docs| ==>
               (marks[i] <==> && response.Http? && response.status < 400 && response.body.Bulk?
                              && (response.body.errors && i < |response.body.statuses| ==>
                                    response.body.statuses[i] < 300))
    ensures Delivers(docs, response) == Pick(docs, marks, true)
    ensures Leaves(docs, response)
            == if response.Http? && response.status < 400 && response.body.Bulk? then Some(Pick(docs, marks, false))
               else None
  {
    if response.Http? && response.status < 400 && response.body.Bulk? && response.body.errors {
      RefusedByPosition(docs, response.body.statuses, marks);
    } else {
      PickAll(docs, marks, response.Http? && response.status < 400 && response.body.Bulk?);
    }
  }

  // ---------------------------------------------------------------- the retry loop

  /** Round k of a delivery was due: the one before it left something, which this one is about, and
      its wait was not cancelled. */
  ghost predicate RoundDue<D>(d: Delivery<D>, attempt: nat, script: seq<Attempt>, k: nat)
    requires 0 < k < |d.requests| && attempt + |d.requests| <= |script|
  {
    && !script[attempt + k].cancelled
    && Leaves(d.requests[k - 1], script[attempt + k - 1].response) != Some([])
    && d.requests[k] == LeftOver(d.requests[k - 1], script[attempt + k - 1].response)
  }

  ghost predicate RoundsDue<D>(d: Delivery<D>, attempt: nat, script: seq<Attempt>)
  {
    && |d.requests| == |d.acks| && attempt + |d.requests| <= |script|
    && (forall k :: 0 <= k < |d.requests| ==> d.acks[k] == Delivers(d.requests[k], script[attempt + k].response))
    && (forall k :: 0 < k < |d.requests| ==> RoundDue(d, attempt, script, k))
  }

  /** What a delivery hands back and reports, by the last of its rounds. */
  ghost predicate EndsRight<D>(d: Delivery<D>, attempt: nat, script: seq<Attempt>)
    requires 0 < |d.requests| && attempt + |d.requests| <= |script|
  {
    EndsWith(d.undelivered, d.error, d.requests[|d.requests| - 1], attempt + |d.requests|, script)
  }

  /** The last round was about the documents `last`; round `next` would have been the next one. */
  ghost predicate EndsWith<D>(undelivered: seq<D>, error: Option<SendError>, last: seq<D>, next: nat, script: seq<Attempt>)
    requires 0 < next <= |script|
  {
    && undelivered == LeftOver(last, script[next - 1].response)
    && error == (if Leaves(last, script[next - 1].response) == Some([]) then None
                 else if next == |script| then Some(RetriesExhausted) else Some(Cancelled))
    && (error == Some(Cancelled) ==> script[next].cancelled)
  }

  /** A delivery makes exactly the rounds that are due, starting with the documents given, delivers
      in each what its response says, and ends when nothing is left, at a cancelled wait, or after the
      last round of the script. */
  ghost predicate RoundsRight<D>(docs: seq<D>, d: Delivery<D>, attempt: nat, script: seq<Attempt>)
    requires attempt < |script|
  {
    && RoundsDue(d, attempt, script)
    && (d.requests == [] <==> attempt > 0 && script[attempt].cancelled)
    && (if d.requests == [] then d.undelivered == docs && d.error == Some(Cancelled)
        else d.requests[0] == docs && EndsRight(d, attempt, script))
  }

  lemma {:induction false} RoundsMade<D>(docs: seq<D>, attempt: nat, script: seq<Attempt>)
    requires attempt < |script|
    ensures RoundsRight(docs, Deliver(docs, attempt, script), attempt, script)
    decreases |script| - attempt
  {
    if !(attempt > 0 && script[attempt].cancelled) && Leaves(docs, script[attempt].response) != Some([])
       && attempt + 1 < |script| {
      var left, got := LeftOver(docs, script[attempt].response), Delivers(docs, script[attempt].response);
      var rest := Deliver(left, attempt + 1, script);
      RoundsMade(left, attempt + 1, script);
      var d := Prepend(docs, got, rest);
      assert d == Deliver(docs, attempt, script);
      DuePrepend(docs, rest, d, attempt, script);
      EndsPrepend(docs, rest, d, attempt, script);
    } else {
      LastRound(docs, attempt, script);
    }
  }

  lemma LastRound<D>(docs: seq<D>, attempt: nat, script: seq<Attempt>)
    requires attempt < |script|
    requires (attempt > 0 && script[attempt].cancelled) || Leaves(docs, script[attempt].response) == Some([])
             || attempt + 1 == |script|
    ensures RoundsRight(docs, Deliver(docs, attempt, script), attempt, script)
  {
    if !(attempt > 0 && script[attempt].cancelled) {
      var d, left := Deliver(docs, attempt, script), LeftOver(docs, script[attempt].response);
      if Leaves(docs, script[attempt].response) != Some([]) {
        assert Deliver(left, attempt + 1, script) == Delivery(left, Some(RetriesExhausted), [], []);
      }
      assert d.error == (if Leaves(docs, script[attempt].response) == Some([]) then None else Some(RetriesExhausted));
      assert d.undelivered == left;
      assert d.requests == [docs] && d.acks == [Delivers(docs, script[attempt].response)];
      LastEnds(docs, d, attempt, script);
    }
  }

  lemma LastEnds<D>(docs: seq<D>, d: Delivery<D>, attempt: nat, script: seq<Attempt>)
    requires attempt < |script| && !(attempt > 0 && script[attempt].cancelled)
    requires d.requests == [docs] && d.acks == [Delivers(docs, script[attempt].response)]
    requires EndsWith(d.undelivered, d.error, docs, attempt + 1, script)
    ensures RoundsRight(docs, d, attempt, script)
  {
  }

  lemma DuePrepend<D>(docs: seq<D>, rest: Delivery<D>, d: Delivery<D>, attempt: nat, script: seq<Attempt>)
    requires attempt + 1 < |script| && Leaves(docs, script[attempt].response) != Some([])
    requires d == Prepend(docs, Delivers(docs, script[attempt].response), rest)
    requires RoundsRight(LeftOver(docs, script[attempt].response), rest, attempt + 1, script)
    ensures RoundsDue(d, attempt, script)
  {
    AcksPrepend(docs, rest, d, attempt, script);
    forall k | 0 < k < |d.requests| ensures RoundDue(d, attempt, script, k) {
      if k > 1 { assert RoundDue(rest, attempt + 1, script, k - 1); }
    }
  }

  lemma AcksPrepend<D>(docs: seq<D>, rest: Delivery<D>, d: Delivery<D>, attempt: nat, script: seq<Attempt>)
    requires attempt + 1 < |script| && d == Prepend(docs, Delivers(docs, script[attempt].response), rest)
    requires RoundsDue(rest, attempt + 1, script)
    ensures |d.requests| == |d.acks| && attempt + |d.requests| <= |script|
    ensures forall k :: 0 <= k < |d.requests| ==> d.acks[k] == Delivers(d.requests[k], script[attempt + k].response)
  {
    forall k | 0 <= k < |d.requests| ensures d.acks[k] == Delivers(d.requests[k], script[attempt + k].response) {
      if k > 0 {
        var i := attempt + k;
        assert i == attempt + 1 + (k - 1) && rest.acks[k - 1] == Delivers(rest.requests[k - 1], script[i].response);
      }
    }
  }

  lemma EndsPrepend<D>(docs: seq<D>, rest: Delivery<D>, d: Delivery<D>, attempt: nat, script: seq<Attempt>)
    requires attempt + 1 < |script| && Leaves(docs, script[attempt].response) != Some([])
    requires d == Prepend(docs, Delivers(docs, script[attempt].response), rest)
    requires RoundsRight(LeftOver(docs, script[attempt].response), rest, attempt + 1, script)
    ensures d.requests[0] == docs && EndsRight(d, attempt, script)
  {
    if rest.requests == [] {
      OnlyRound(docs, d, attempt, script);
    } else {
      assert d.requests[|rest.requests|] == rest.requests[|rest.requests| - 1];
      EndsLater(rest, d, attempt, script);
    }
  }

  lemma OnlyRound<D>(docs: seq<D>, d: Delivery<D>, attempt: nat, script: seq<Attempt>)
    requires attempt + 1 < |script| && Leaves(docs, script[attempt].response) != Some([]) && script[attempt + 1].cancelled
    requires d.requests == [docs] && d.error == Some(Cancelled) && d.undelivered == LeftOver(docs, script[attempt].response)
    ensures EndsRight(d, attempt, script)
  {
  }

  lemma EndsLater<D>(rest: Delivery<D>, d: Delivery<D>, attempt: nat, script: seq<Attempt>)
    requires 0 < |rest.requests| && attempt + 1 + |rest.requests| <= |script| && EndsRight(rest, attempt + 1, script)
    requires |d.requests| == |rest.requests| + 1 && d.requests[|rest.requests|] == rest.requests[|rest.requests| - 1]
    requires d.undelivered == rest.undelivered && d.error == rest.error
    ensures EndsRight(d, attempt, script)
  {
    assert attempt + |d.requests| == attempt + 1 + |rest.requests|;
  }

  /** A transport error, a status of 400 or more, or a body that cannot be decoded. */
  lemma {:induction false} AllFailedReturnsAll<D>(docs: seq<D>, attempt: nat, script: seq<Attempt>)
    requires attempt <= |script|
    requires forall a :: a in script ==>
               a.response.TransportError? || a.response.status >= 400 || a.response.body.Undecodable?
    ensures var d := Deliver(docs, attempt, script);
            d.undelivered == docs && Flatten(d.acks) == [] && d.error.Some?
    decreases |script| - attempt
  {
    if attempt < |script| && !(attempt > 0 && script[attempt].cancelled) {
      assert script[attempt] in script;
      AllFailedReturnsAll(docs, attempt + 1, script);
      FlattenCons<D>([], Deliver(docs, attempt + 1, script).acks);
    }
  }

  /** A server that takes everything at the first attempt. */
  predicate Takes(response: Response) {
    response.Http? && response.status < 400 && response.body.Bulk? && !response.body.errors
  }

  lemma TakenAtOnce<D>(docs: seq<D>, script: seq<Attempt>)
    requires script != [] && Takes(script[0].response)
    ensures Deliver(docs, 0, script) == Delivery([], None, [docs], [docs])
    ensures Acked(docs, script) == docs && Undelivered(docs, script) == []
  {
    FlattenCons(docs, []);
    assert [docs] + [] == [docs];
  }

  lemma FlattenCons<D>(first: seq<D>, rest: seq<seq<D>>)
    ensures Flatten([first] + rest) == first + Flatten(rest)
    ensures rest == [] ==> Flatten([first] + rest) == first
  {
    assert ([first] + rest)[1..] == rest;
  }

  /** The delivered and the returned documents are exactly the input, and what is returned
      kept its order. */
  lemma {:induction false} DeliverPartitions<D>(docs: seq<D>, attempt: nat, script: seq<Attempt>)
    requires attempt <= |script|
    ensures var d := Deliver(docs, attempt, script);
            && multiset(docs) == multiset(Flatten(d.acks)) + multiset(d.undelivered)
            && Subseq(d.undelivered, docs)
    decreases |script| - attempt
  {
    SubseqRefl(docs);
    if attempt < |script| && !(attempt > 0 && script[attempt].cancelled) {
      var response := script[attempt].response;
      var got := Delivers(docs, response);
      RequestSplits(docs, response);
      match Leaves(docs, response) {
        case Some(left) =>
          if left == [] {
            assert Flatten([got]) == got + Flatten([]) == got;
          } else {
            DeliverPartitions(left, attempt + 1, script);
            var rest := Deliver(left, attempt + 1, script);
            assert ([got] + rest.acks)[1..] == rest.acks;
            SubseqTrans(rest.undelivered, left, docs);
          }
        case None =>
          DeliverPartitions(docs, attempt + 1, script);
          var rest := Deliver(docs, attempt + 1, script);
          assert ([got] + rest.acks)[1..] == rest.acks;
          assert Flatten([got] + rest.acks) == Flatten(rest.acks);
      }
    }
  }

  lemma PrependFlatten<D>(request: seq<D>, got: seq<D>, rest: Delivery<D>, k: nat)
    requires 0 < k <= |rest.acks| + 1
    ensures Flatten(Prepend(request, got, rest).acks[..k]) == got + Flatten(rest.acks[..k - 1])
  {
    var acks := [got] + rest.acks;
    assert acks[..k] == [got] + rest.acks[..k - 1];
    assert acks[..k][1..] == rest.acks[..k - 1];
  }

  /** Request k of the delivery carries, in order, exactly the documents no earlier one delivered. */
  ghost predicate CarriesRest<D>(docs: seq<D>, d: Delivery<D>, k: nat)
    requires k < |d.requests| == |d.acks|
  {
    && multiset(docs) == multiset(Flatten(d.acks[..k])) + multiset(d.requests[k])
    && Subseq(d.requests[k], docs)
    && Subseq(d.acks[k], d.requests[k])
  }

  lemma PrependCarries<D>(docs: seq<D>, left: seq<D>, got: seq<D>, rest: Delivery<D>, k: nat)
    requires 0 < k <= |rest.requests| == |rest.acks| && CarriesRest(left, rest, k - 1)
    requires multiset(docs) == multiset(left) + multiset(got) && Subseq(left, docs)
    ensures CarriesRest(docs, Prepend(docs, got, rest), k)
  {
    PrependFlatten(docs, got, rest, k);
    SplitsAgain(docs, left, got, Flatten(rest.acks[..k - 1]), rest.requests[k - 1]);
  }

  /** Request number k carries, in order, exactly the documents no earlier request delivered:
      a delivered document never goes out again. */
  lemma DeliveredNeverResent<D>(docs: seq<D>, attempt: nat, script: seq<Attempt>, k: nat)
    requires attempt <= |script| && k < |Deliver(docs, attempt, script).requests|
    ensures var d := Deliver(docs, attempt, script);
            && multiset(docs) == multiset(Flatten(d.acks[..k])) + multiset(d.requests[k])
            && Subseq(d.requests[k], docs)
            && Subseq(d.acks[k], d.requests[k])
  {
    RequestCarries(docs, attempt, script, k);
  }

  lemma {:induction false} RequestCarries<D>(docs: seq<D>, attempt: nat, script: seq<Attempt>, k: nat)
    requires attempt <= |script| && k < |Deliver(docs, attempt, script).requests|
    ensures CarriesRest(docs, Deliver(docs, attempt, script), k)
    decreases |script| - attempt
  {
    if k == 0 {
      FirstRequest(docs, attempt, script);
    } else {
      var left, got := LeftOver(docs, script[attempt].response), Delivers(docs, script[attempt].response);
      DeliverStep(docs, attempt, script);
      RequestCarries(left, attempt + 1, script, k - 1);
      PrependCarries(docs, left, got, Deliver(left, attempt + 1, script), k);
    }
  }

  lemma FirstRequest<D>(docs: seq<D>, attempt: nat, script: seq<Attempt>)
    requires attempt <= |script| && Deliver(docs, attempt, script).requests != []
    ensures var d := Deliver(docs, attempt, script);
            && d.requests[0] == docs && Flatten(d.acks[..0]) == []
            && Subseq(docs, docs) && Subseq(d.acks[0], docs)
  {
    RequestSplits(docs, script[attempt].response);
    SubseqRefl(docs);
    assert Deliver(docs, attempt, script).acks[0] == Delivers(docs, script[attempt].response);
    assert Deliver(docs, attempt, script).acks[..0] == [];
  }

  /** What the next request of the loop is about. */
  function LeftOver<D>(docs: seq<D>, response: Response): seq<D> {
    match Leaves(docs, response) case Some(left) => left case None => docs
  }

  lemma DeliverStep<D>(docs: seq<D>, attempt: nat, script: seq<Attempt>)
    requires attempt < |script| && |Deliver(docs, attempt, script).requests| > 1
    ensures Deliver(docs, attempt, script)
            == Prepend(docs, Delivers(docs, script[attempt].response),
                       Deliver(LeftOver(docs, script[attempt].response), attempt + 1, script))
    ensures var left, got := LeftOver(docs, script[attempt].response), Delivers(docs, script[attempt].response);
            multiset(docs) == multiset(left) + multiset(got) && Subseq(left, docs)
  {
    RequestSplits(docs, script[attempt].response);
    SubseqRefl(docs);
  }

  lemma SplitsAgain<D>(docs: seq<D>, left: seq<D>, got: seq<D>, more: seq<D>, request: seq<D>)
    requires multiset(docs) == multiset(left) + multiset(got) && Subseq(left, docs)
    requires multiset(left) == multiset(more) + multiset(request) && Subseq(request, left)
    ensures multiset(docs) == multiset(got + more) + multiset(request) && Subseq(request, docs)
  {
    SubseqTrans(request, left, docs);
  }

  /** For documents told apart by value: once delivered by request j, absent from every later one. */
  lemma DeliveredDocAbsentLater<D>(docs: seq<D>, script: seq<Attempt>, doc: D, j: nat, k: nat)
    requires multiset(docs)[doc] <= 1
    requires j < k < |Deliver(docs, 0, script).requests|
    requires doc in Deliver(docs, 0, script).acks[j]
    ensures doc !in Deliver(docs, 0, script).requests[k]
    ensures doc !in Undelivered(docs, script)
  {
    var d := Deliver(docs, 0, script);
    DeliveredNeverResent(docs, 0, script, k);
    DeliverPartitions(docs, 0, script);
    InFlatten(d.acks[..k], j, doc);
    InFlatten(d.acks, j, doc);
    assert doc in multiset(Flatten(d.acks[..k])) && doc in multiset(Flatten(d.acks));
  }

  lemma {:induction false} InFlatten<D>(parts: seq<seq<D>>, j: nat, x: D)
    requires j < |parts| && x in parts[j]
    ensures x in Flatten(parts)
  {
    if j > 0 { InFlatten(parts[1..], j - 1, x); }
  }

  /** For a non-empty input the error is nil exactly when nothing is handed back. */
  lemma {:induction false} ErrorTellsUndelivered<D>(docs: seq<D>, attempt: nat, script: seq<Attempt>)
    requires attempt <= |script| && docs != []
    ensures var d := Deliver(docs, attempt, script);
            d.error.None? <==> d.undelivered == []
    decreases |script| - attempt
  {
    if attempt < |script| && !(attempt > 0 && script[attempt].cancelled) {
      match Leaves(docs, script[attempt].response) {
        case Some(left) => if left != [] { ErrorTellsUndelivered(left, attempt + 1, script); }
        case None => ErrorTellsUndelivered(docs, attempt + 1, script);
      }
    }
  }

  /** Sending nothing hands nothing back, whatever happens. */
  lemma {:induction false} NothingSentNothingReturned<D>(attempt: nat, script: seq<Attempt>)
    requires attempt <= |script|
    ensures Deliver<D>([], attempt, script).undelivered == []
    ensures Flatten(Deliver<D>([], attempt, script).acks) == []
    decreases |script| - attempt
  {
    DeliverPartitions<D>([], attempt, script);
    var d := Deliver<D>([], attempt, script);
    assert |multiset(Flatten(d.acks))| == 0 && |multiset(d.undelivered)| == 0;
  }

  /** Every response delivers the whole request or none of it. */
  ghost predicate AllOrNothing<D>(docs: seq<D>, script: seq<Attempt>) {
    forall a :: a in script ==>
      Leaves(docs, a.response).None? || Leaves(docs, a.response).value in {[], docs}
  }

  lemma {:induction false} AllOrNothingDelivery<D>(docs: seq<D>, attempt: nat, script: seq<Attempt>)
    requires attempt <= |script| && AllOrNothing(docs, script)
    ensures var d := Deliver(docs, attempt, script);
            || (d.undelivered == docs && Flatten(d.acks) == [])
            || (d.undelivered == [] && Flatten(d.acks) == docs)
    decreases |script| - attempt
  {
    if attempt < |script| && !(attempt > 0 && script[attempt].cancelled) {
      var response := script[attempt].response;
      assert script[attempt] in script;
      var got := Delivers(docs, response);
      RequestSplits(docs, response);
      if Leaves(docs, response) == Some([]) {
        WholeSubseq(got, docs);
        assert Flatten([got]) == got + Flatten([]) == got;
      } else {
        AllOrNothingDelivery(docs, attempt + 1, script);
        var rest := Deliver(docs, attempt + 1, script);
        assert |multiset(got)| == 0;
        assert got == [];
        assert ([got] + rest.acks)[1..] == rest.acks;
      }
    }
  }

  lemma {:induction false} WholeSubseq<D>(a: seq<D>, b: seq<D>)
    requires Subseq(a, b) && multiset(a) == multiset(b)
    ensures a == b
  {
    assert |a| == |multiset(a)| == |multiset(b)| == |b|;
    SameLengthSubseq(a, b);
  }

  lemma {:induction false} SameLengthSubseq<D>(a: seq<D>, b: seq<D>)
    requires Subseq(a, b) && |a| == |b|
    ensures a == b
  {
    if a != [] {
      if a[0] == b[0] && Subseq(a[1..], b[1..]) {
        SameLengthSubseq(a[1..], b[1..]);
      } else {
        ShorterSubseq(a, b[1..]);
      }
    }
  }

  lemma {:induction false} ShorterSubseq<D>(a: seq<D>, b: seq<D>)
    requires Subseq(a, b)
    ensures |a| <= |b|
  {
    SubseqMultiset(a, b);
    assert multiset(b) == multiset(a) + (multiset(b) - multiset(a));
    assert |multiset(b)| == |multiset(a)| + |multiset(b) - multiset(a)|;
  }

  // ---------------------------------------------------------------- the code

  lemma RefusedFrom<D>(docs: seq<D>, statuses: seq<int>, i: nat)
    requires i < |docs| && i < |statuses|
    ensures Refused(docs[i..], statuses[i..])
            == (if statuses[i] >= 300 then [docs[i]] else []) + Refused(docs[i + 1..], statuses[i + 1..])
  {
    assert docs[i..][1..] == docs[i + 1..] && statuses[i..][1..] == statuses[i + 1..];
  }

  /** doRequest: `ok` is false on a total failure; otherwise `failed` lists the refused
      documents in order. */
  method DoRequest<D>(docs: seq<D>, response: Response) returns (failed: seq<D>, ok: bool)
    ensures ok <==> response.Http? && response.status < 400 && response.body.Bulk?
    ensures ok <==> Leaves(docs, response).Some?
    ensures failed == if ok then Leaves(docs, response).value else []
  {
    failed, ok := [], false;
    if response.TransportError? || response.status >= 400 || response.body.Undecodable? {
      return;
    }
    ok := true;
    if response.body.errors {
      failed := CollectRefused(docs, response.body.statuses);
    }
  }

  /** The loop over the response's items; items past the request are ignored. */
  method CollectRefused<D>(docs: seq<D>, items: seq<int>) returns (failed: seq<D>)
    ensures failed == Refused(docs, items)
  {
    failed := [];
    ghost var rest := Refused(docs, items);
    assert docs[0..] == docs && items[0..] == items;
    for i := 0 to |items|
      invariant i < |docs| ==> rest == Refused(docs[i..], items[i..])
      invariant i >= |docs| ==> rest == []
      invariant Refused(docs, items) == failed + rest
    {
      if i < |docs| {
        RefusedFrom(docs, items, i);
        rest := Refused(docs[i + 1..], items[i + 1..]);
      }
      if items[i] >= 300 && i < |docs| {
        failed := failed + [docs[i]];
      }
    }
  }

  /** The delivery is what the rounds so far did, followed by what the remaining rounds do. */
  ghost predicate Continues<D>(
    whole: Delivery<D>, requests: seq<seq<D>>, acks: seq<seq<D>>, rest: Delivery<D>)
  {
    && whole.undelivered == rest.undelivered
    && whole.error == rest.error
    && whole.requests == requests + rest.requests
    && whole.acks == acks + rest.acks
  }

  lemma ContinuesOne<D>(whole: Delivery<D>, requests: seq<seq<D>>, acks: seq<seq<D>>,
                        current: seq<D>, got: seq<D>, rest: Delivery<D>)
    requires Continues(whole, requests, acks, Prepend(current, got, rest))
    ensures Continues(whole, requests + [current], acks + [got], rest)
  {
  }

  /** One turn of the loop, seen from the whole delivery. */
  lemma ContinuesTurn<D>(whole: Delivery<D>, requests: seq<seq<D>>, acks: seq<seq<D>>,
                         current: seq<D>, attempt: nat, script: seq<Attempt>)
    requires attempt < |script| && !(attempt > 0 && script[attempt].cancelled)
    requires Continues(whole, requests, acks, Deliver(current, attempt, script))
    ensures var left := Leaves(current, script[attempt].response);
            var requests', acks' := requests + [current], acks + [Delivers(current, script[attempt].response)];
            if left == Some([]) then whole == Delivery([], None, requests', acks')
            else Continues(whole, requests', acks',
                           Deliver(if left.Some? then left.value else current, attempt + 1, script))
  {
    var left := Leaves(current, script[attempt].response);
    if left != Some([]) {
      var rest := Deliver(if left.Some? then left.value else current, attempt + 1, script);
      ContinuesOne(whole, requests, acks, current, Delivers(current, script[attempt].response), rest);
    }
  }

  /** The end of the loop, by cancellation or exhaustion. */
  lemma ContinuesEnd<D>(whole: Delivery<D>, requests: seq<seq<D>>, acks: seq<seq<D>>,
                        current: seq<D>, attempt: nat, script: seq<Attempt>)
    requires attempt <= |script| && Continues(whole, requests, acks, Deliver(current, attempt, script))
    requires attempt < |script| ==> attempt > 0 && script[attempt].cancelled
    ensures whole == Delivery(current, Some(if attempt < |script| then Cancelled else RetriesExhausted), requests, acks)
  {
  }

  /** sendBulkWithContext, with the requests it made and what each one delivered. */
  method SendBulk<D>(docs: seq<D>, script: seq<Attempt>)
    returns (undelivered: seq<D>, error: Option<SendError>, requests: seq<seq<D>>, acks: seq<seq<D>>)
    requires |script| > 0
    ensures Delivery(undelivered, error, requests, acks) == Deliver(docs, 0, script)
    ensures RoundsRight(docs, Delivery(undelivered, error, requests, acks), 0, script)
    ensures |requests| <= |script|
    ensures multiset(docs) == multiset(Flatten(acks)) + multiset(undelivered)
    ensures Subseq(undelivered, docs)
    ensures docs != [] ==> (error.None? <==> undelivered == [])
  {
    ghost var whole := Deliver(docs, 0, script);
    var current := docs;
    requests, acks := [], [];
    for attempt := 0 to |script|
      invariant Continues(whole, requests, acks, Deliver(current, attempt, script))
    {
      if attempt > 0 && script[attempt].cancelled {
        ContinuesEnd(whole, requests, acks, current, attempt, script);
        Settles(docs, script);
        return current, Some(Cancelled), requests, acks;
      }
      var response := script[attempt].response;
      var failed, ok := DoRequest(current, response);
      ContinuesTurn(whole, requests, acks, current, attempt, script);
      requests := requests + [current];
      acks := acks + [Delivers(current, response)];
      if ok {
        if failed == [] {
          Settles(docs, script);
          return [], None, requests, acks;
        }
        current := failed;
      }
    }
    undelivered, error := current, Some(RetriesExhausted);
    ContinuesEnd(whole, requests, acks, current, |script|, script);
    Settles(docs, script);
  }

  lemma Settles<D>(docs: seq<D>, script: seq<Attempt>)
    requires script != []
    ensures RoundsRight(docs, Deliver(docs, 0, script), 0, script)
    ensures var d := Deliver(docs, 0, script);
            && multiset(docs) == multiset(Flatten(d.acks)) + multiset(d.undelivered)
            && Subseq(d.undelivered, docs)
            && (docs != [] ==> (d.error.None? <==> d.undelivered == []))
  {
    RoundsMade(docs, 0, script);
    DeliverPartitions(docs, 0, script);
    if docs != [] { ErrorTellsUndelivered(docs, 0, script); }
  }
}
