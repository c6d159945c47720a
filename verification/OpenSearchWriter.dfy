// The OpenSearch writer's methods (internal/output/opensearch_writer.go), each proved to be an
// uninterrupted run of the state machine in OpenSearchMachine.
module OpenSearchWriter {
  import opened LogLines
  import opened Seqs
  import opened BulkSend
  import opened OpenSearchMachine

  datatype WriteError = NotEncodable | FlushFailed(error: SendError)

  function WriteErrorOf(error: Option<SendError>): Option<WriteError> {
    match error case None => None case Some(e) => Some(FlushFailed(e))
  }

  /** What one uninterrupted flush by goroutine t does: the retry queue first, the batch only
      when the queue was empty or recovered, failures back into the queue. */
  function FlushEvents(s: State, t: nat, first: seq<Attempt>, second: seq<Attempt>): seq<Event> {
    if s.pending == [] then
      [Take(t), SendDone(t, second)] + (if Undelivered(s.buffer, second) == [] then [] else [Requeue(t)])
    else if Undelivered(s.pending, first) != [] then
      [Take(t), SendDone(t, first), Requeue(t)] + (if s.buffer == [] then [] else [Requeue(t)])
    else if s.buffer == [] then
      [Take(t), SendDone(t, first)]
    else
      [Take(t), SendDone(t, first), SendDone(t, second)]
      + (if Undelivered(s.buffer, second) == [] then [] else [Requeue(t)])
  }

  function WriteEvents(c: Config, s: State, t: nat, doc: LogLine, first: seq<Attempt>, second: seq<Attempt>): seq<Event> {
    [Append(t, doc)]
    + (if |s.buffer| + 1 < c.bulkSize then []
       else FlushEvents(s.(buffer := s.buffer + [doc]), t, first, second))
  }

  function FinalEvents(s: State, script: seq<Attempt>): seq<Event> {
    [FinalTake] + (if s.pending + s.buffer == [] then [] else [FinalDone(script)])
  }

  /** The error of that flush: the queue's when the queue did not recover, otherwise the batch's;
      a recovered queue with no batch behind it is no error. */
  function FlushError(s: State, first: seq<Attempt>, second: seq<Attempt>): Option<SendError> {
    if s.pending != [] && Undelivered(s.pending, first) != [] then Deliver(s.pending, 0, first).error
    else if s.pending != [] && s.buffer == [] then None
    else Deliver(s.buffer, 0, second).error
  }

  /** The events of `run` are possible from s and lead to s'. */
  ghost predicate Leads(c: Config, s: State, run: seq<Event>, s': State) {
    Run(c, s, run) && After(c, s, run) == s'
  }

  lemma LeadsSnoc(c: Config, s: State, run: seq<Event>, s1: State, e: Event, s2: State)
    requires Leads(c, s, run, s1) && Enabled(c, s1, e) && s2 == Apply(c, s1, e)
    ensures Leads(c, s, run + [e], s2)
  {
    RunOne(c, s1, e);
    RunConcat(c, s, run, [e]);
  }

  lemma LeadsFrom(c: Config, s: State, e: Event, s1: State)
    requires Enabled(c, s, e) && s1 == Apply(c, s, e)
    ensures Leads(c, s, [e], s1)
  {
    RunOne(c, s, e);
  }

  /** The states inside a flush: after the snapshot, and after the queue was re-sent. */
  function Taken(c: Config, s: State, t: nat): State
    requires Enabled(c, s, Take(t))
  {
    Apply(c, s, Take(t))
  }

  function Resent(c: Config, s: State, t: nat, first: seq<Attempt>): State
    requires Enabled(c, s, Take(t)) && s.pending != [] && |first| == c.maxRetries
  {
    Apply(c, Taken(c, s, t), SendDone(t, first))
  }

  function SendAndRequeue(batch: seq<LogLine>, script: seq<Attempt>, t: nat): seq<Event> {
    [SendDone(t, script)] + (if Undelivered(batch, script) == [] then [] else [Requeue(t)])
  }

  lemma FlushWithoutQueue(c: Config, s: State, t: nat, first: seq<Attempt>, second: seq<Attempt>, s': State)
    requires Enabled(c, s, Take(t)) && s.pending == []
    requires Leads(c, Taken(c, s, t), SendAndRequeue(s.buffer, second, t), s')
    ensures Leads(c, s, FlushEvents(s, t, first, second), s')
  {
    LeadsFrom(c, s, Take(t), Taken(c, s, t));
    RunConcat(c, s, [Take(t)], SendAndRequeue(s.buffer, second, t));
    assert [Take(t)] + SendAndRequeue(s.buffer, second, t) == FlushEvents(s, t, first, second);
  }

  lemma ResentLeads(c: Config, s: State, t: nat, first: seq<Attempt>)
    requires Enabled(c, s, Take(t)) && s.pending != [] && |first| == c.maxRetries
    ensures Leads(c, s, [Take(t), SendDone(t, first)], Resent(c, s, t, first))
  {
    LeadsFrom(c, s, Take(t), Taken(c, s, t));
    LeadsSnoc(c, s, [Take(t)], Taken(c, s, t), SendDone(t, first), Resent(c, s, t, first));
    assert [Take(t)] + [SendDone(t, first)] == [Take(t), SendDone(t, first)];
  }

  lemma FlushQueueFailed(c: Config, s: State, t: nat, first: seq<Attempt>, second: seq<Attempt>, s': State)
    requires Enabled(c, s, Take(t)) && s.pending != [] && |first| == c.maxRetries
    requires Undelivered(s.pending, first) != []
    requires Leads(c, Resent(c, s, t, first), [Requeue(t)] + (if s.buffer == [] then [] else [Requeue(t)]), s')
    ensures Leads(c, s, FlushEvents(s, t, first, second), s')
  {
    var rest := [Requeue(t)] + (if s.buffer == [] then [] else [Requeue(t)]);
    ResentLeads(c, s, t, first);
    RunConcat(c, s, [Take(t), SendDone(t, first)], rest);
    assert [Take(t), SendDone(t, first)] + rest == FlushEvents(s, t, first, second);
  }

  lemma FlushQueueOnly(c: Config, s: State, t: nat, first: seq<Attempt>, second: seq<Attempt>)
    requires Enabled(c, s, Take(t)) && s.pending != [] && |first| == c.maxRetries
    requires Undelivered(s.pending, first) == [] && s.buffer == []
    ensures Leads(c, s, FlushEvents(s, t, first, second), Resent(c, s, t, first))
  {
    ResentLeads(c, s, t, first);
  }

  lemma FlushBoth(c: Config, s: State, t: nat, first: seq<Attempt>, second: seq<Attempt>, s': State)
    requires Enabled(c, s, Take(t)) && s.pending != [] && |first| == c.maxRetries
    requires Undelivered(s.pending, first) == [] && s.buffer != []
    requires Leads(c, Resent(c, s, t, first), SendAndRequeue(s.buffer, second, t), s')
    ensures Leads(c, s, FlushEvents(s, t, first, second), s')
  {
    ResentLeads(c, s, t, first);
    RunConcat(c, s, [Take(t), SendDone(t, first)], SendAndRequeue(s.buffer, second, t));
    assert [Take(t), SendDone(t, first)] + SendAndRequeue(s.buffer, second, t) == FlushEvents(s, t, first, second);
  }

  /** What a flush of queue and batch does to the acknowledged documents and to the queue: the queue is
      sent, then, if nothing of it is left, the batch; what is left stays, as far as the bound allows the
      newest of it. */
  ghost predicate Flushed(c: Config, queue: seq<LogLine>, batch: seq<LogLine>, first: seq<Attempt>, second: seq<Attempt>,
                          was: seq<LogLine>, acked: seq<LogLine>, pending: seq<LogLine>)
    requires |first| == |second| == c.maxRetries && c.Valid()
  {
    var left := Undelivered(queue, first);
    if left == [] then
      acked == was + Acked(queue, first) + Acked(batch, second) && pending == LastN(Undelivered(batch, second), c.maxPending)
    else acked == was + Acked(queue, first) && pending == LastN(left + batch, c.maxPending)
  }

  /** Keeping the newest twice, with more documents in between, is keeping the newest of all. */
  lemma KeptTwice(queue: seq<LogLine>, a: seq<LogLine>, b: seq<LogLine>, n: nat, mid: seq<LogLine>, end: seq<LogLine>)
    requires mid == LastN(queue + a, n) && end == LastN(mid + b, n)
    ensures end == LastN(queue + a + b, n)
  {
  }

  /** The batch was sent, after the queue was got through or found empty. */
  lemma FlushedBatch(c: Config, queue: seq<LogLine>, batch: seq<LogLine>, first: seq<Attempt>, second: seq<Attempt>,
                     was: seq<LogLine>, mid: seq<LogLine>, acked: seq<LogLine>, pending: seq<LogLine>)
    requires c.Valid() && |first| == |second| == c.maxRetries
    requires if queue == [] then mid == was else Undelivered(queue, first) == [] && mid == was + Acked(queue, first)
    requires acked == mid + Acked(batch, second) || (batch == [] && acked == mid)
    requires pending == LastN([] + Undelivered(batch, second), c.maxPending) || (batch == [] && pending == [])
    ensures Flushed(c, queue, batch, first, second, was, acked, pending)
  {
    NothingSentNothingReturned<LogLine>(0, first);
    NothingSentNothingReturned<LogLine>(0, second);
    assert mid == was + Acked(queue, first);
    assert acked == mid + Acked(batch, second);
    assert [] + Undelivered(batch, second) == Undelivered(batch, second);
  }

  /** Part of the queue was left, and the batch was not sent. */
  lemma FlushedLeft(c: Config, queue: seq<LogLine>, batch: seq<LogLine>, first: seq<Attempt>, second: seq<Attempt>,
                    was: seq<LogLine>, acked: seq<LogLine>, pending: seq<LogLine>)
    requires c.Valid() && |first| == |second| == c.maxRetries && Undelivered(queue, first) != []
    requires acked == was + Acked(queue, first)
    requires pending == LastN([] + Undelivered(queue, first) + batch, c.maxPending)
    ensures Flushed(c, queue, batch, first, second, was, acked, pending)
  {
    assert [] + Undelivered(queue, first) == Undelivered(queue, first);
  }

  class Writer {
    const cfg: Config
    var buffer: seq<LogLine>
    var pending: seq<LogLine>
    var pendingDropped: nat
    var failedBatches: nat
    ghost var written: seq<LogLine>
    ghost var acked: seq<LogLine>
    ghost var dropped: seq<LogLine>

    /** The machine state, given where the ticker (0) and the calling goroutine (1) are. */
    ghost function Machine(threads: seq<Phase>, closing: Closing): State
      reads this
    {
      State(buffer, pending, pendingDropped, threads, closing, written, acked, dropped)
    }

    constructor (cfg: Config)
      ensures this.cfg == cfg
      ensures Machine([Idle, Idle], Open) == Start(1)
    {
      this.cfg := cfg;
      buffer, pending, pendingDropped, failedBatches := [], [], 0, 0;
      written, acked, dropped := [], [], [];
    }

    /** The locked part of flush and finalFlush. */
    method TakeAll() returns (queue: seq<LogLine>, batch: seq<LogLine>)
      modifies this`buffer, this`pending
      ensures queue == old(pending) && batch == old(buffer) && pending == [] && buffer == []
    {
      queue, pending, batch, buffer := pending, [], buffer, [];
    }

    /** enqueuePending: the queue grows at the end; what exceeds the bound leaves at the front,
        one document at a time, and is counted. */
    method EnqueuePending(docs: seq<LogLine>)
      modifies this`pending, this`pendingDropped, this`dropped
      ensures var queue := old(pending) + docs; var n := if docs == [] then 0 else Excess(cfg, queue);
              && pending == queue[n..]
              && dropped == old(dropped) + queue[..n]
              && pendingDropped == old(pendingDropped) + n
      ensures docs == [] ==> pending == old(pending)
      ensures docs != [] ==> pending == LastN(old(pending) + docs, cfg.maxPending)
      ensures docs != [] ==> |pending| == if |old(pending)| + |docs| <= cfg.maxPending then |old(pending)| + |docs|
                                          else cfg.maxPending
      ensures var queue, left := old(pending) + docs, |old(pending)| + |docs| - |pending|;
              && left >= 0 && pending == queue[left..] && dropped == old(dropped) + queue[..left]
              && pendingDropped == old(pendingDropped) + left
    {
      if docs == [] {
        assert old(pending) + docs == old(pending) && pending[0..] == pending && dropped + pending[..0] == dropped;
        return;
      }
      ghost var queue := pending + docs;
      pending := pending + docs;
      var lost := 0;
      while |pending| > cfg.maxPending
        invariant lost <= Excess(cfg, queue) && pending == queue[lost..]
        invariant dropped == old(dropped) && pendingDropped == old(pendingDropped)
        decreases |pending|
      {
        pending := pending[1..];
        lost := lost + 1;
      }
      dropped := dropped + queue[..lost];
      pendingDropped := pendingDropped + lost;
    }

    /** sendBulkWithContext on behalf of this writer. */
    method Send(docs: seq<LogLine>, script: seq<Attempt>)
      returns (failed: seq<LogLine>, error: Option<SendError>)
      requires |script| > 0
      modifies this`acked
      ensures failed == Undelivered(docs, script) && error == Deliver(docs, 0, script).error
      ensures acked == old(acked) + Acked(docs, script)
      ensures docs != [] ==> (error.None? <==> failed == [])
    {
      var requests, acks;
      failed, error, requests, acks := SendBulk(docs, script);
      acked := acked + Flatten(acks);
    }

    /** The branch of flush where re-sending the queue left documents over: they go back first,
        the batch after them. */
    method RequeueBoth(failed: seq<LogLine>, batch: seq<LogLine>, ghost t: nat)
      requires failed != [] && t < 2
      modifies this
      ensures var s := old(Machine([Idle, Idle][t := Requeueing(failed, batch)], Open));
              Leads(cfg, s, [Requeue(t)] + (if batch == [] then [] else [Requeue(t)]), Machine([Idle, Idle], Open))
      ensures written == old(written) && acked == old(acked) && buffer == old(buffer)
      ensures failedBatches == old(failedBatches) + 1
      ensures pending == LastN(old(pending) + failed + batch, cfg.maxPending)
    {
      ghost var before := pending;
      ghost var s := Machine([Idle, Idle][t := Requeueing(failed, batch)], Open);
      failedBatches := failedBatches + 1;
      EnqueuePending(failed);
      ghost var s1 := Apply(cfg, s, Requeue(t));
      LeadsFrom(cfg, s, Requeue(t), s1);
      if |batch| > 0 {
        EnqueuePending(batch);
        LeadsSnoc(cfg, s, [Requeue(t)], s1, Requeue(t), Apply(cfg, s1, Requeue(t)));
        KeptTwice(before, failed, batch, cfg.maxPending, s1.pending, pending);
      } else {
        assert before + failed + batch == before + failed;
      }
    }

    /** The last part of flush: the batch is sent, what is left over is queued. */
    method SendBatch(batch: seq<LogLine>, script: seq<Attempt>, ghost t: nat) returns (error: Option<SendError>)
      requires cfg.Valid() && |script| == cfg.maxRetries && t < 2
      modifies this
      ensures var s := old(Machine([Idle, Idle][t := Sending(batch)], Open));
              Leads(cfg, s, SendAndRequeue(batch, script, t), Machine([Idle, Idle], Open))
      ensures written == old(written) && buffer == old(buffer) && error == Deliver(batch, 0, script).error
      ensures batch != [] ==> (error.None? <==> failedBatches == old(failedBatches))
      ensures acked == old(acked) + Acked(batch, script)
      ensures pending == (if Undelivered(batch, script) == [] then old(pending)
                          else LastN(old(pending) + Undelivered(batch, script), cfg.maxPending))
      ensures failedBatches == old(failedBatches) ==> pending == old(pending)
    {
      ghost var s := Machine([Idle, Idle][t := Sending(batch)], Open);
      var failed, err := Send(batch, script);
      ghost var s1 := Apply(cfg, s, SendDone(t, script));
      LeadsFrom(cfg, s, SendDone(t, script), s1);
      assert [Idle, Idle][t := Idle] == [Idle, Idle];
      if |failed| > 0 {
        assert Machine([Idle, Idle][t := Requeueing(failed, [])], Open) == s1;
        assert pending + failed + [] == pending + failed;
        RequeueBoth(failed, [], t);
        assert [Requeue(t)] + [] == [Requeue(t)];
        RunConcat(cfg, s, [SendDone(t, script)], [Requeue(t)]);
      }
      return err;
    }

    /** flush, run without interruption by goroutine t: exactly the run FlushEvents of the machine.
        The retry queue is re-sent first; its error, or the batch's, is the error returned. */
    method Flush(ghost t: nat, first: seq<Attempt>, second: seq<Attempt>) returns (error: Option<SendError>)
      requires cfg.Valid() && |first| == |second| == cfg.maxRetries && t < 2
      modifies this
      ensures var s := old(Machine([Idle, Idle][t := if t == 0 then Idle else MustFlush], Open));
              Leads(cfg, s, FlushEvents(s, t, first, second), Machine([Idle, Idle], Open))
      ensures written == old(written) && buffer == []
      ensures Flushed(cfg, old(pending), old(buffer), first, second, old(acked), acked, pending)
      ensures error == FlushError(old(Machine([Idle, Idle], Open)), first, second)
      ensures old(pending) != [] || old(buffer) != [] ==>
                (error.None? <==> failedBatches == old(failedBatches)) && (error.None? ==> pending == [])
    {
      ghost var s := Machine([Idle, Idle][t := if t == 0 then Idle else MustFlush], Open);
      ghost var was := acked;
      var queue, batch := TakeAll();
      if |queue| == 0 {
        assert Machine([Idle, Idle][t := Sending(batch)], Open) == Taken(cfg, s, t);
        error := SendBatch(batch, second, t);
        FlushedBatch(cfg, queue, batch, first, second, was, was, acked, pending);
        FlushWithoutQueue(cfg, s, t, first, second, Machine([Idle, Idle], Open));
        return;
      }
      assert Machine([Idle, Idle][t := Resending(queue, batch)], Open) == Taken(cfg, s, t);
      var failed, err := Send(queue, first);
      if |failed| > 0 {
        assert Machine([Idle, Idle][t := Requeueing(failed, batch)], Open) == Resent(cfg, s, t, first);
        RequeueBoth(failed, batch, t);
        FlushedLeft(cfg, queue, batch, first, second, was, acked, pending);
        FlushQueueFailed(cfg, s, t, first, second, Machine([Idle, Idle], Open));
        return err;
      }
      if |batch| == 0 {
        assert Machine([Idle, Idle], Open) == Resent(cfg, s, t, first);
        FlushedBatch(cfg, queue, batch, first, second, was, acked, acked, pending);
        FlushQueueOnly(cfg, s, t, first, second);
        return None;
      }
      assert Machine([Idle, Idle][t := Sending(batch)], Open) == Resent(cfg, s, t, first);
      ghost var mid := acked;
      error := SendBatch(batch, second, t);
      FlushedBatch(cfg, queue, batch, first, second, was, mid, acked, pending);
      FlushBoth(cfg, s, t, first, second, Machine([Idle, Idle], Open));
    }

    /** Write, run without interruption: the document joins the buffer, and a full buffer is flushed.
        A line that cannot be encoded changes nothing. */
    method Write(doc: LogLine, encodable: bool, first: seq<Attempt>, second: seq<Attempt>)
      returns (error: Option<WriteError>)
      requires cfg.Valid() && |first| == |second| == cfg.maxRetries
      modifies this
      ensures !encodable ==> error == Some(NotEncodable)
      ensures !encodable ==> Machine([Idle, Idle], Open) == old(Machine([Idle, Idle], Open))
      ensures encodable ==>
                var s := old(Machine([Idle, Idle], Open));
                && Leads(cfg, s, WriteEvents(cfg, s, 1, doc, first, second), Machine([Idle, Idle], Open))
                && written == old(written) + [doc]
                && error == (if |s.buffer| + 1 < cfg.bulkSize then None
                             else WriteErrorOf(FlushError(s.(buffer := s.buffer + [doc]), first, second)))
      ensures encodable && |old(buffer)| + 1 < cfg.bulkSize ==>
                buffer == old(buffer) + [doc] && pending == old(pending) && acked == old(acked) && dropped == old(dropped)
      ensures encodable && |old(buffer)| + 1 >= cfg.bulkSize ==> buffer == []
    {
      if !encodable {
        return Some(NotEncodable);
      }
      ghost var s := Machine([Idle, Idle], Open);
      buffer := buffer + [doc];
      written := written + [doc];
      var shouldFlush := |buffer| >= cfg.bulkSize;
      ghost var s1 := Apply(cfg, s, Append(1, doc));
      LeadsFrom(cfg, s, Append(1, doc), s1);
      error := None;
      if shouldFlush {
        ghost var full := Machine([Idle, MustFlush], Open);
        var err := Flush(1, first, second);
        assert full == s1;
        RunConcat(cfg, s, [Append(1, doc)], FlushEvents(full, 1, first, second));
        SameFlush(s, full, 1, doc, first, second);
        if err.Some? { error := Some(FlushFailed(err.value)); }
      }
    }

    /** finalFlush: everything queued or buffered is sent once more; what the server does not take
        is counted, and reported as an error. */
    method FinalFlush(script: seq<Attempt>) returns (error: Option<SendError>)
      requires cfg.Valid() && |script| == cfg.maxRetries
      modifies this
      ensures var s := old(Machine([Exited, Idle], Cancelling));
              Leads(cfg, s, FinalEvents(s, script), Machine([Exited, Idle], Closed))
      ensures error.None? <==> pendingDropped == old(pendingDropped)
      ensures pending == [] && buffer == [] && written == old(written)
      ensures var docs := old(pending + buffer);
              docs != [] ==>
                && acked == old(acked) + Acked(docs, script)
                && dropped == old(dropped) + Undelivered(docs, script)
                && pendingDropped == old(pendingDropped) + |Undelivered(docs, script)|
    {
      ghost var s := Machine([Exited, Idle], Cancelling);
      var queue, batch := TakeAll();
      var docs := queue + batch;
      ghost var s1 := Apply(cfg, s, FinalTake);
      LeadsFrom(cfg, s, FinalTake, s1);
      if |docs| == 0 {
        return None;
      }
      var failed, err := Send(docs, script);
      if |failed| > 0 {
        pendingDropped := pendingDropped + |failed|;
      }
      dropped := dropped + failed;
      LeadsSnoc(cfg, s, [FinalTake], s1, FinalDone(script), Machine([Exited, Idle], Closed));
      return err;
    }
  }

  lemma SameFlush(s: State, full: State, t: nat, doc: LogLine, first: seq<Attempt>, second: seq<Attempt>)
    requires full.pending == s.pending && full.buffer == s.buffer + [doc]
    ensures FlushEvents(full, t, first, second) == FlushEvents(s.(buffer := s.buffer + [doc]), t, first, second)
  {
  }
}
