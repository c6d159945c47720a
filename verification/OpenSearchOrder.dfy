// Ordering of the OpenSearch writer: what holds as long as flushes do not overlap, and the
// run that shows overlapping flushes reorder the retry queue.
module OpenSearchOrder {
  import opened LogLines
  import opened Seqs
  import opened BulkSend
  import opened OpenSearchMachine

  /** The goroutine is inside flush, between taking documents and its last enqueue. */
  predicate Active(p: Phase) {
    p.Resending? || p.Sending? || p.Requeueing?
  }

  predicate NoFlushUnderWay(s: State) {
    !s.closing.FinalSending? && forall t :: 0 <= t < |s.threads| ==> !Active(s.threads[t])
  }

  /** A run in which a flush, or the final flush, starts only when none is under way. */
  predicate SerialRun(c: Config, s: State, run: seq<Event>)
    decreases |run|
  {
    run != [] ==>
      && Enabled(c, s, run[0])
      && (run[0].Take? || run[0].FinalTake? ==> NoFlushUnderWay(s))
      && SerialRun(c, Apply(c, s, run[0]), run[1..])
  }

  lemma {:induction false} SerialIsRun(c: Config, s: State, run: seq<Event>)
    requires SerialRun(c, s, run)
    ensures Run(c, s, run)
    decreases |run|
  {
    if run != [] { SerialIsRun(c, Apply(c, s, run[0]), run[1..]); }
  }

  /** The part of an active goroutine's documents that came from the buffer and was not sent yet. */
  function UnsentBatch(p: Phase): seq<LogLine> {
    if p.Resending? || p.Sending? then p.batch else []
  }

  /** The goroutine whose flush is under way, if any, after the event. */
  function Focus(t: nat, e: Event): nat {
    if e.Take? then e.t else t
  }

  function FocusAfter(t: nat, run: seq<Event>): nat
    decreases |run|
  {
    if run == [] then t else FocusAfter(Focus(t, run[0]), run[1..])
  }

  /** Everything not yet settled, oldest first. */
  function Unsettled(s: State, t: nat): seq<LogLine>
    requires t < |s.threads|
  {
    s.pending + (HeldBy(s.threads[t]) + FinalDocs(s.closing)) + s.buffer
  }

  /** Only goroutine t, or the final flush, holds documents; while they are sent the queue is empty. */
  ghost predicate Alone(s: State, t: nat) {
    && t < |s.threads|
    && (forall u :: 0 <= u < |s.threads| && u != t ==> HeldBy(s.threads[u]) == [])
    && (s.closing.FinalSending? ==> !Active(s.threads[t]))
    && (s.closing.FinalSending? || s.threads[t].Resending? || s.threads[t].Sending? ==> s.pending == [])
  }

  /** The unsettled documents are in the order of writing, the unsent ones the latest. */
  ghost predicate AsWritten(s: State, t: nat)
    requires t < |s.threads|
  {
    && Subseq(Unsettled(s, t), s.written)
    && EndsWith(s.written, UnsentBatch(s.threads[t]) + s.buffer)
  }

  ghost predicate InOrder(s: State, t: nat) { Alone(s, t) && AsWritten(s, t) }

  /** Moreover only goroutine t is inside flush. */
  ghost predicate Ordered(s: State, t: nat) {
    InOrder(s, t) && forall u :: 0 <= u < |s.threads| && u != t ==> !Active(s.threads[u])
  }

  predicate EndsWith(whole: seq<LogLine>, end: seq<LogLine>) {
    |end| <= |whole| && whole[|whole| - |end|..] == end
  }

  lemma EndsWithTail(whole: seq<LogLine>, a: seq<LogLine>, b: seq<LogLine>)
    requires EndsWith(whole, a + b)
    ensures EndsWith(whole, b)
  {
    assert whole[|whole| - |b|..] == whole[|whole| - |a + b|..][|a|..];
  }

  lemma EndsWithSnoc(whole: seq<LogLine>, end: seq<LogLine>, x: LogLine)
    requires EndsWith(whole, end)
    ensures EndsWith(whole + [x], end + [x])
  {
    assert (whole + [x])[|whole + [x]| - |end + [x]|..] == whole[|whole| - |end|..] + [x];
  }

  // ---------------------------------------------------------------- each step keeps the order

  lemma AppendInOrder(c: Config, s: State, t: nat, e: Event)
    requires InOrder(s, t) && e.Append? && Enabled(c, s, e)
    ensures InOrder(Apply(c, s, e), t)
  {
    AppendAlone(c, s, t, e);
    AppendAsWritten(c, s, t, e);
  }

  lemma AppendAlone(c: Config, s: State, t: nat, e: Event)
    requires Alone(s, t) && e.Append? && Enabled(c, s, e)
    ensures Alone(Apply(c, s, e), t)
  {
  }

  lemma AppendAsWritten(c: Config, s: State, t: nat, e: Event)
    requires t < |s.threads| && AsWritten(s, t) && e.Append? && Enabled(c, s, e)
    ensures AsWritten(Apply(c, s, e), t)
  {
    AppendUnsettled(c, s, t, e);
    WrittenOneMore(Unsettled(s, t), UnsentBatch(s.threads[t]) + s.buffer, s.written, e.doc,
                   Unsettled(Apply(c, s, e), t), UnsentBatch(Apply(c, s, e).threads[t]) + Apply(c, s, e).buffer);
  }

  lemma WrittenOneMore(a: seq<LogLine>, end: seq<LogLine>, whole: seq<LogLine>, x: LogLine,
                       a': seq<LogLine>, end': seq<LogLine>)
    requires Subseq(a, whole) && EndsWith(whole, end) && a' == a + [x] && end' == end + [x]
    ensures Subseq(a', whole + [x]) && EndsWith(whole + [x], end')
  {
    SubseqRefl([x]);
    SubseqConcat(a, whole, [x], [x]);
    EndsWithSnoc(whole, end, x);
  }

  lemma AppendUnsettled(c: Config, s: State, t: nat, e: Event)
    requires t < |s.threads| && e.Append? && Enabled(c, s, e)
    ensures var s' := Apply(c, s, e);
            && Unsettled(s', t) == Unsettled(s, t) + [e.doc]
            && UnsentBatch(s'.threads[t]) + s'.buffer == (UnsentBatch(s.threads[t]) + s.buffer) + [e.doc]
  {
    var s' := Apply(c, s, e);
    assert HeldBy(s'.threads[t]) == HeldBy(s.threads[t]) && UnsentBatch(s'.threads[t]) == UnsentBatch(s.threads[t]);
    OneMore(s.pending + (HeldBy(s.threads[t]) + FinalDocs(s.closing)), s.buffer, e.doc);
    OneMore(UnsentBatch(s.threads[t]), s.buffer, e.doc);
  }

  lemma OneMore(a: seq<LogLine>, b: seq<LogLine>, x: LogLine)
    ensures a + (b + [x]) == (a + b) + [x]
  {
  }

  /** What a take changes in the list of unsettled documents: nothing, when t holds none. */
  lemma TakeUnsettled(c: Config, s: State, t: nat, u: nat)
    requires Enabled(c, s, Take(u)) && t < |s.threads| && HeldBy(s.threads[t]) == [] && FinalDocs(s.closing) == []
    ensures Unsettled(Apply(c, s, Take(u)), u) == Unsettled(s, t) == s.pending + s.buffer
    ensures UnsentBatch(Apply(c, s, Take(u)).threads[u]) + Apply(c, s, Take(u)).buffer == s.buffer
  {
    var s' := Apply(c, s, Take(u));
    assert HeldBy(s'.threads[u]) == s.pending + s.buffer && s'.pending == [] && s'.buffer == [];
    NothingAround(s.pending + s.buffer);
    assert s.pending + ([] + []) + s.buffer == s.pending + s.buffer;
  }

  lemma NothingAround(docs: seq<LogLine>)
    ensures [] + (docs + []) + [] == docs
  {
  }

  lemma TakeInOrder(c: Config, s: State, t: nat, u: nat)
    requires InOrder(s, t) && Enabled(c, s, Take(u)) && HeldBy(s.threads[t]) == [] && !s.closing.FinalSending?
    ensures InOrder(Apply(c, s, Take(u)), u)
  {
    TakeAlone(c, s, t, u);
    TakeAsWritten(c, s, t, u);
  }

  lemma TakeAlone(c: Config, s: State, t: nat, u: nat)
    requires Alone(s, t) && Enabled(c, s, Take(u)) && HeldBy(s.threads[t]) == [] && !s.closing.FinalSending?
    ensures Alone(Apply(c, s, Take(u)), u)
  {
  }

  lemma TakeAsWritten(c: Config, s: State, t: nat, u: nat)
    requires t < |s.threads| && AsWritten(s, t) && Enabled(c, s, Take(u))
    requires HeldBy(s.threads[t]) == [] && FinalDocs(s.closing) == []
    ensures AsWritten(Apply(c, s, Take(u)), u)
  {
    TakeUnsettled(c, s, t, u);
    EndsWithTail(s.written, UnsentBatch(s.threads[t]), s.buffer);
  }

  lemma FinalTakeInOrder(c: Config, s: State, t: nat)
    requires InOrder(s, t) && Enabled(c, s, FinalTake) && !Active(s.threads[t])
    ensures InOrder(Apply(c, s, FinalTake), t)
  {
    FinalTakeUnsettled(c, s, t);
    assert UnsentBatch(s.threads[t]) + [] == [];
    assert EndsWith(s.written, []);
  }

  lemma FinalTakeUnsettled(c: Config, s: State, t: nat)
    requires Enabled(c, s, FinalTake) && t < |s.threads| && HeldBy(s.threads[t]) == []
    ensures Unsettled(Apply(c, s, FinalTake), t) == s.pending + s.buffer == Unsettled(s, t)
  {
  }

  lemma ExitUnsettled(c: Config, s: State, t: nat, e: Event)
    requires (e.TickerExit? || e.CloseCancel?) && Enabled(c, s, e) && t < |s.threads|
    ensures Unsettled(Apply(c, s, e), t) == Unsettled(s, t)
  {
    assert HeldBy(Apply(c, s, e).threads[t]) == HeldBy(s.threads[t]);
  }

  /** What is unsettled while the goroutine t is sending `docs` and keeps `batch` for later. */
  lemma UnsettledSending(s: State, t: nat, docs: seq<LogLine>, batch: seq<LogLine>)
    requires t < |s.threads| && s.pending == [] && FinalDocs(s.closing) == []
    requires HeldBy(s.threads[t]) == docs + batch
    ensures Unsettled(s, t) == docs + (batch + s.buffer)
  {
    assert Unsettled(s, t) == [] + ((docs + batch) + []) + s.buffer;
  }

  /** The phase that follows a delivery, whichever of the two it was. */
  function AfterDelivery(p: Phase, script: seq<Attempt>): Phase
    requires p.Resending? || p.Sending?
  {
    if p.Resending? then AfterResend(Undelivered(p.queue, script), p.batch)
    else AfterSend(Undelivered(p.batch, script))
  }

  function BeingSent(p: Phase): seq<LogLine> {
    match p case Resending(queue, _) => queue case Sending(batch) => batch case _ => []
  }

  /** What is kept for after the delivery. */
  function KeptBack(p: Phase): seq<LogLine> {
    if p.Resending? then p.batch else []
  }

  lemma DeliveryPhases(p: Phase, script: seq<Attempt>)
    requires p.Resending? || p.Sending?
    ensures HeldBy(p) == BeingSent(p) + KeptBack(p)
    ensures HeldBy(AfterDelivery(p, script)) == Undelivered(BeingSent(p), script) + KeptBack(p)
    ensures UnsentBatch(AfterDelivery(p, script)) in {[], UnsentBatch(p)}
  {
  }

  lemma SendStep(c: Config, s: State, t: nat, script: seq<Attempt>)
    requires Enabled(c, s, SendDone(t, script))
    ensures var p := s.threads[t];
            Apply(c, s, SendDone(t, script))
            == s.(acked := s.acked + Acked(BeingSent(p), script), threads := s.threads[t := AfterDelivery(p, script)])
  {
  }

  lemma SendInOrder(c: Config, s: State, t: nat, e: Event)
    requires InOrder(s, t) && e.SendDone? && e.t == t && Enabled(c, s, e)
    ensures InOrder(Apply(c, s, e), t)
  {
    SendUnsettled(c, s, t, e.script);
    assert Alone(Apply(c, s, e), t);
    SendAsWritten(c, s, t, e);
  }

  lemma SendAsWritten(c: Config, s: State, t: nat, e: Event)
    requires InOrder(s, t) && e.SendDone? && e.t == t && Enabled(c, s, e)
    ensures AsWritten(Apply(c, s, e), t)
  {
    var p, s' := s.threads[t], Apply(c, s, e);
    SendUnsettled(c, s, t, e.script);
    DeliverPartitions(BeingSent(p), 0, e.script);
    SmallerFront(BeingSent(p), Undelivered(BeingSent(p), e.script), KeptBack(p) + s.buffer, s.written);
    StillUnsent(s.written, UnsentBatch(p), UnsentBatch(s'.threads[t]), s.buffer);
  }

  lemma StillUnsent(whole: seq<LogLine>, unsent: seq<LogLine>, unsent': seq<LogLine>, buffer: seq<LogLine>)
    requires EndsWith(whole, unsent + buffer) && unsent' in {[], unsent}
    ensures EndsWith(whole, unsent' + buffer)
  {
    EndsWithTail(whole, unsent, buffer);
    assert [] + buffer == buffer;
  }

  lemma SmallerFront(a: seq<LogLine>, a': seq<LogLine>, rest: seq<LogLine>, whole: seq<LogLine>)
    requires Subseq(a', a) && Subseq(a + rest, whole)
    ensures Subseq(a' + rest, whole)
  {
    SubseqRefl(rest);
    SubseqConcat(a', a, rest, rest);
    SubseqTrans(a' + rest, a + rest, whole);
  }

  lemma SendUnsettled(c: Config, s: State, t: nat, script: seq<Attempt>)
    requires Enabled(c, s, SendDone(t, script)) && s.pending == [] && FinalDocs(s.closing) == []
    ensures var p, s' := s.threads[t], Apply(c, s, SendDone(t, script));
            && Unsettled(s, t) == BeingSent(p) + (KeptBack(p) + s.buffer)
            && Unsettled(s', t) == Undelivered(BeingSent(p), script) + (KeptBack(p) + s.buffer)
            && UnsentBatch(s'.threads[t]) in {[], UnsentBatch(p)}
            && s' == s.(acked := s'.acked, threads := s.threads[t := AfterDelivery(p, script)])
  {
    var p := s.threads[t];
    SendStep(c, s, t, script);
    DeliveryPhases(p, script);
    UnsettledSending(s, t, BeingSent(p), KeptBack(p));
    UnsettledSending(Apply(c, s, SendDone(t, script)), t, Undelivered(BeingSent(p), script), KeptBack(p));
  }

  /** A goroutine that holds nothing delivers and re-queues nothing. */
  lemma IdleSend(c: Config, s: State, t: nat, e: Event)
    requires InOrder(s, t) && e.SendDone? && e.t != t && Enabled(c, s, e)
    ensures InOrder(Apply(c, s, e), t)
  {
    IdleSendStep(c, s, e);
    assert Alone(Apply(c, s, e), t);
    assert AsWritten(Apply(c, s, e), t);
  }

  lemma IdleSendStep(c: Config, s: State, e: Event)
    requires e.SendDone? && Enabled(c, s, e) && HeldBy(s.threads[e.t]) == []
    ensures var s' := Apply(c, s, e); s' == s.(acked := s'.acked, threads := s.threads[e.t := Idle])
  {
    if s.threads[e.t].Resending? { assert s.threads[e.t].queue == [] && s.threads[e.t].batch == []; }
    NothingSentNothingReturned<LogLine>(0, e.script);
  }

  lemma IdleRequeue(c: Config, s: State, t: nat, e: Event)
    requires InOrder(s, t) && e.Requeue? && e.t != t && Enabled(c, s, e)
    ensures InOrder(Apply(c, s, e), t)
  {
    IdleRequeueStep(c, s, e.t);
    var s' := Apply(c, s, e);
    assert Alone(s', t);
    DropFront(s.pending, HeldBy(s.threads[t]) + FinalDocs(s.closing), s.buffer, Excess(c, s.pending), s.written);
    assert AsWritten(s', t);
  }

  lemma DropFront(a: seq<LogLine>, b: seq<LogLine>, d: seq<LogLine>, n: nat, whole: seq<LogLine>)
    requires n <= |a| && Subseq(a + b + d, whole)
    ensures Subseq(a[n..] + b + d, whole)
  {
    assert a + b + d == a + (b + d) && a[n..] + b + d == a[n..] + (b + d);
    DropOldest(a, n, b + d, whole);
  }

  lemma IdleRequeueStep(c: Config, s: State, u: nat)
    requires Enabled(c, s, Requeue(u)) && HeldBy(s.threads[u]) == []
    ensures var s' := Apply(c, s, Requeue(u));
            s' == s.(pending := s.pending[Excess(c, s.pending)..], dropped := s'.dropped,
                     pendingDropped := s'.pendingDropped, threads := s.threads[u := Idle])
  {
    var p := s.threads[u];
    assert p.docs == [] && p.andThen == [] && s.pending + p.docs == s.pending;
  }

  /** Putting documents back loses only the oldest of what is unsettled. */
  lemma RequeueUnsettled(c: Config, s: State, t: nat)
    requires Enabled(c, s, Requeue(t)) && FinalDocs(s.closing) == []
    ensures var queue, post := s.pending + s.threads[t].docs, s.threads[t].andThen + s.buffer;
            && Unsettled(s, t) == queue + post
            && Unsettled(Apply(c, s, Requeue(t)), t) == queue[Excess(c, queue)..] + post
  {
    assert HeldBy(Apply(c, s, Requeue(t)).threads[t]) == s.threads[t].andThen;
  }

  lemma RequeueInOrder(c: Config, s: State, t: nat, e: Event)
    requires InOrder(s, t) && e == Requeue(t) && Enabled(c, s, e)
    ensures InOrder(Apply(c, s, e), t)
  {
    var queue, post := s.pending + s.threads[t].docs, s.threads[t].andThen + s.buffer;
    RequeueUnsettled(c, s, t);
    DropOldest(queue, Excess(c, queue), post, s.written);
  }

  lemma DropOldest(queue: seq<LogLine>, n: nat, post: seq<LogLine>, whole: seq<LogLine>)
    requires n <= |queue| && Subseq(queue + post, whole)
    ensures Subseq(queue[n..] + post, whole)
  {
    SubseqSuffix(queue + post, n);
    assert (queue + post)[n..] == queue[n..] + post;
    SubseqTrans(queue[n..] + post, queue + post, whole);
  }

  lemma SettleInOrder(c: Config, s: State, t: nat, e: Event)
    requires InOrder(s, t) && (e.TickerExit? || e.CloseCancel? || e.FinalDone?) && Enabled(c, s, e)
    ensures InOrder(Apply(c, s, e), t)
  {
    SettleAlone(c, s, t, e);
    if e.FinalDone? {
      FinalAsWritten(c, s, t, e);
    } else {
      ExitAsWritten(c, s, t, e);
    }
  }

  lemma FinalAsWritten(c: Config, s: State, t: nat, e: Event)
    requires InOrder(s, t) && e.FinalDone? && Enabled(c, s, e)
    ensures AsWritten(Apply(c, s, e), t)
  {
    FinalUnsettled(c, s, t, e);
    DropAll(s.closing.docs, s.buffer, s.written);
  }

  lemma ExitAsWritten(c: Config, s: State, t: nat, e: Event)
    requires t < |s.threads| && AsWritten(s, t) && (e.TickerExit? || e.CloseCancel?) && Enabled(c, s, e)
    ensures AsWritten(Apply(c, s, e), t)
  {
    ExitUnsettled(c, s, t, e);
    assert UnsentBatch(Apply(c, s, e).threads[t]) == UnsentBatch(s.threads[t]);
  }

  lemma SettleAlone(c: Config, s: State, t: nat, e: Event)
    requires Alone(s, t) && (e.TickerExit? || e.CloseCancel? || e.FinalDone?) && Enabled(c, s, e)
    ensures Alone(Apply(c, s, e), t)
  {
  }

  lemma DropAll(a: seq<LogLine>, b: seq<LogLine>, whole: seq<LogLine>)
    requires Subseq(a + b, whole)
    ensures Subseq(b, whole)
  {
    SubseqSuffix(a + b, |a|);
    assert (a + b)[|a|..] == b;
    SubseqTrans(b, a + b, whole);
  }

  /** Every step but a take keeps the order, whoever performs it. */
  lemma StepInOrder(c: Config, s: State, t: nat, e: Event)
    requires InOrder(s, t) && Enabled(c, s, e) && !e.Take? && !e.FinalTake?
    ensures InOrder(Apply(c, s, e), t)
  {
    match e
    case Append(_, _) => AppendInOrder(c, s, t, e);
    case SendDone(u, _) => if u == t { SendInOrder(c, s, t, e); } else { IdleSend(c, s, t, e); }
    case Requeue(u) => if u == t { RequeueInOrder(c, s, t, e); } else { IdleRequeue(c, s, t, e); }
    case _ => SettleInOrder(c, s, t, e);
  }

  lemma OtherInactive(c: Config, s: State, t: nat, e: Event, u: nat)
    requires Ordered(s, t) && Enabled(c, s, e) && u < |s.threads| && u != Focus(t, e)
    requires e.Take? || e.FinalTake? ==> NoFlushUnderWay(s)
    ensures |Apply(c, s, e).threads| == |s.threads| && !Active(Apply(c, s, e).threads[u])
  {
    assert u != t ==> !Active(s.threads[u]);
    assert e.Take? ==> !Active(s.threads[t]);
  }

  lemma StepOrdered(c: Config, s: State, t: nat, e: Event)
    requires Ordered(s, t) && Enabled(c, s, e)
    requires e.Take? || e.FinalTake? ==> NoFlushUnderWay(s)
    ensures Ordered(Apply(c, s, e), Focus(t, e))
  {
    forall u | 0 <= u < |Apply(c, s, e).threads| && u != Focus(t, e) ensures !Active(Apply(c, s, e).threads[u]) {
      OtherInactive(c, s, t, e, u);
    }
    if e.Take? {
      TakeInOrder(c, s, t, e.t);
    } else if e.FinalTake? {
      FinalTakeInOrder(c, s, t);
    } else {
      StepInOrder(c, s, t, e);
    }
  }

  lemma {:induction false} RunOrdered(c: Config, s: State, t: nat, run: seq<Event>)
    requires Ordered(s, t) && SerialRun(c, s, run)
    ensures Run(c, s, run) && Ordered(After(c, s, run), FocusAfter(t, run))
    decreases |run|
  {
    SerialIsRun(c, s, run);
    if run != [] {
      StepOrdered(c, s, t, run[0]);
      RunOrdered(c, Apply(c, s, run[0]), Focus(t, run[0]), run[1..]);
    }
  }

  lemma StartOrdered(callers: nat)
    ensures Ordered(Start(callers), 0)
  {
    assert Unsettled(Start(callers), 0) == [];
  }

  // ---------------------------------------------------------------- the results

  /** The retry queue followed by the buffer is in the order of writing, in every serial run. */
  lemma QueueInWriteOrder(c: Config, callers: nat, run: seq<Event>)
    requires SerialRun(c, Start(callers), run)
    ensures Run(c, Start(callers), run)
    ensures var s := After(c, Start(callers), run);
            Subseq(s.pending + s.buffer, s.written)
  {
    StartOrdered(callers);
    RunOrdered(c, Start(callers), 0, run);
    var s, t := After(c, Start(callers), run), FocusAfter(0, run);
    SubseqMiddleDrop(s.pending, HeldBy(s.threads[t]) + FinalDocs(s.closing), s.buffer, s.written);
  }

  lemma SubseqMiddleDrop(pre: seq<LogLine>, mid: seq<LogLine>, post: seq<LogLine>, whole: seq<LogLine>)
    requires Subseq(pre + mid + post, whole)
    ensures Subseq(pre + post, whole)
  {
    SubseqMiddle(pre, mid, [], post, whole);
    assert pre + [] + post == pre + post;
  }

  /** Everything written before this batch and what is buffered after it is acknowledged or counted
      as dropped. */
  ghost predicate EarlierSettled(s: State, batch: seq<LogLine>) {
    && EndsWith(s.written, batch + s.buffer)
    && var earlier := s.written[..|s.written| - |batch + s.buffer|];
    && s.written == earlier + (batch + s.buffer)
    && multiset(earlier) == multiset(s.acked) + multiset(s.dropped)
  }

  /** No overtaking: while a batch is being sent, every document written before it has already
      been acknowledged or counted as dropped. */
  lemma NoOvertaking(c: Config, callers: nat, run: seq<Event>, t: nat)
    requires SerialRun(c, Start(callers), run) && Run(c, Start(callers), run)
    requires t < |After(c, Start(callers), run).threads| && After(c, Start(callers), run).threads[t].Sending?
    ensures EarlierSettled(After(c, Start(callers), run), After(c, Start(callers), run).threads[t].batch)
  {
    SerialRunKeeps(c, callers, run);
    SettledBefore(c, After(c, Start(callers), run), FocusAfter(0, run), t);
  }

  lemma SerialRunKeeps(c: Config, callers: nat, run: seq<Event>)
    requires SerialRun(c, Start(callers), run)
    ensures Run(c, Start(callers), run)
    ensures Ordered(After(c, Start(callers), run), FocusAfter(0, run)) && Accounted(c, After(c, Start(callers), run))
  {
    StartOrdered(callers);
    RunOrdered(c, Start(callers), 0, run);
    StartAccounted(c, callers);
    NoSilentLoss(c, Start(callers), run);
  }

  lemma SettledBefore(c: Config, s: State, focus: nat, t: nat)
    requires Ordered(s, focus) && Accounted(c, s) && t < |s.threads| && s.threads[t].Sending?
    ensures EarlierSettled(s, s.threads[t].batch)
  {
    assert t == focus;
    forall doc
      ensures Copies(doc, s.written)
              == Copies(doc, s.acked) + Copies(doc, s.dropped) + Copies(doc, s.threads[t].batch + s.buffer)
    {
      NotSettled(c, s, t, doc);
    }
    AllButLast(s.written, s.threads[t].batch + s.buffer, s.acked, s.dropped);
  }

  lemma AllButLast(whole: seq<LogLine>, last: seq<LogLine>, a: seq<LogLine>, b: seq<LogLine>)
    requires EndsWith(whole, last)
    requires forall doc :: Copies(doc, whole) == Copies(doc, a) + Copies(doc, b) + Copies(doc, last)
    ensures var earlier := whole[..|whole| - |last|];
            whole == earlier + last && multiset(earlier) == multiset(a) + multiset(b)
  {
    var earlier := whole[..|whole| - |last|];
    assert whole == earlier + last;
    forall doc ensures multiset(earlier)[doc] == (multiset(a) + multiset(b))[doc] {
      assert Copies(doc, whole) == Copies(doc, a) + Copies(doc, b) + Copies(doc, last);
      CopiesConcat(doc, earlier, last);
    }
  }

  lemma NotSettled(c: Config, s: State, t: nat, doc: LogLine)
    requires Ordered(s, t) && Accounted(c, s) && s.threads[t].Sending?
    ensures Copies(doc, s.written)
            == Copies(doc, s.acked) + Copies(doc, s.dropped) + Copies(doc, s.threads[t].batch + s.buffer)
  {
    OnlyOneInFlight(s.threads, t);
    assert Copies(doc, s.written) == Whereabouts(s, doc);
    CopiesConcat(doc, s.threads[t].batch, s.buffer);
  }

  lemma {:induction false} OnlyOneInFlight(threads: seq<Phase>, t: nat)
    requires t < |threads|
    requires forall u :: 0 <= u < |threads| && u != t ==> !Active(threads[u])
    ensures InFlight(threads) == HeldBy(threads[t])
  {
    if t == 0 {
      assert forall u :: 0 <= u < |threads[1..]| ==> threads[1..][u] == threads[u + 1];
      NoneInFlight(threads[1..]);
    } else {
      OnlyOneInFlight(threads[1..], t - 1);
    }
  }

  // ---------------------------------------------------------------- all-or-nothing servers

  /** The documents a delivery is about. */
  function SentBy(s: State, e: Event): seq<LogLine>
    requires e.SendDone? ==> e.t < |s.threads|
  {
    match e
    case SendDone(t, _) => BeingSent(s.threads[t])
    case FinalDone(_) => FinalDocs(s.closing)
    case _ => []
  }

  /** Every delivery gets through as a whole or not at all. */
  ghost predicate AtomicRun(c: Config, s: State, run: seq<Event>)
    requires Run(c, s, run)
    decreases |run|
  {
    run != [] ==>
      && (run[0].SendDone? || run[0].FinalDone? ==> AllOrNothing(SentBy(s, run[0]), run[0].script))
      && AtomicRun(c, Apply(c, s, run[0]), run[1..])
  }

  ghost predicate AcksOrdered(s: State, t: nat)
    requires t < |s.threads|
  {
    Subseq(s.acked + Unsettled(s, t), s.written)
  }

  lemma SendAcksOrdered(c: Config, s: State, t: nat, e: Event)
    requires Ordered(s, t) && AcksOrdered(s, t)
    requires e.SendDone? && Enabled(c, s, e) && AllOrNothing(SentBy(s, e), e.script)
    ensures AcksOrdered(Apply(c, s, e), t)
  {
    assert e.t == t;
    var p := s.threads[t];
    SendStep(c, s, t, e.script);
    DeliveryPhases(p, e.script);
    var s' := Apply(c, s, e);
    var docs, batch := BeingSent(p), KeptBack(p);
    AllOrNothingDelivery(docs, 0, e.script);
    UnsettledSending(s, t, docs, batch);
    UnsettledSending(s', t, Undelivered(docs, e.script), batch);
    ConcatAssoc(s.acked, Acked(docs, e.script), Undelivered(docs, e.script), batch + s.buffer);
    ConcatAssoc(s.acked, [], docs, batch + s.buffer);
  }

  lemma ConcatAssoc(a: seq<LogLine>, b: seq<LogLine>, d: seq<LogLine>, e: seq<LogLine>)
    ensures (a + b) + (d + e) == a + ((b + d) + e)
    ensures [] + d == d && b + [] == b
  {
  }

  lemma FinalAcksOrdered(c: Config, s: State, t: nat, e: Event)
    requires Ordered(s, t) && AcksOrdered(s, t)
    requires e.FinalDone? && Enabled(c, s, e) && AllOrNothing(SentBy(s, e), e.script)
    ensures AcksOrdered(Apply(c, s, e), t)
  {
    var docs := s.closing.docs;
    AllOrNothingDelivery(docs, 0, e.script);
    FinalUnsettled(c, s, t, e);
    SettledAcked(s.acked, docs, Acked(docs, e.script), s.buffer, s.written);
  }

  lemma FinalUnsettled(c: Config, s: State, t: nat, e: Event)
    requires Alone(s, t) && e.FinalDone? && Enabled(c, s, e)
    ensures Unsettled(s, t) == s.closing.docs + s.buffer && Unsettled(Apply(c, s, e), t) == s.buffer
  {
  }

  lemma SettledAcked(acked: seq<LogLine>, docs: seq<LogLine>, got: seq<LogLine>, rest: seq<LogLine>, whole: seq<LogLine>)
    requires Subseq(acked + (docs + rest), whole) && (got == docs || got == [])
    ensures Subseq((acked + got) + rest, whole)
  {
    assert acked + (docs + rest) == acked + docs + rest;
    if got != docs {
      assert acked + got == acked;
      SubseqMiddleDrop(acked, docs, rest, whole);
    }
  }

  lemma RequeueAcksOrdered(c: Config, s: State, t: nat, e: Event)
    requires Ordered(s, t) && AcksOrdered(s, t) && e.Requeue? && Enabled(c, s, e)
    ensures AcksOrdered(Apply(c, s, e), t)
  {
    assert e.t == t;
    var queue, post := s.pending + s.threads[t].docs, s.threads[t].andThen + s.buffer;
    var n := Excess(c, queue);
    RequeueUnsettled(c, s, t);
    SubseqSuffix(queue, n);
    assert s.acked + (queue + post) == s.acked + queue + post;
    assert s.acked + (queue[n..] + post) == s.acked + queue[n..] + post;
    SubseqMiddle(s.acked, queue, queue[n..], post, s.written);
  }

  lemma AppendAcksOrdered(c: Config, s: State, t: nat, e: Event)
    requires Ordered(s, t) && AcksOrdered(s, t) && e.Append? && Enabled(c, s, e)
    ensures AcksOrdered(Apply(c, s, e), t)
  {
    var s' := Apply(c, s, e);
    SubseqRefl([e.doc]);
    SubseqConcat(s.acked + Unsettled(s, t), s.written, [e.doc], [e.doc]);
    assert Unsettled(s', t) == Unsettled(s, t) + [e.doc];
    assert s.acked + (Unsettled(s, t) + [e.doc]) == s.acked + Unsettled(s, t) + [e.doc];
  }

  lemma SameUnsettled(c: Config, s: State, t: nat, e: Event)
    requires Ordered(s, t) && Enabled(c, s, e)
    requires ((e.Take? || e.FinalTake?) && NoFlushUnderWay(s)) || e.TickerExit? || e.CloseCancel?
    ensures Unsettled(Apply(c, s, e), Focus(t, e)) == Unsettled(s, t)
  {
    if e.Take? {
      TakeUnsettled(c, s, t, e.t);
    } else if e.FinalTake? {
      FinalTakeUnsettled(c, s, t);
    } else {
      ExitUnsettled(c, s, t, e);
    }
  }

  lemma StepAcksOrdered(c: Config, s: State, t: nat, e: Event)
    requires Ordered(s, t) && AcksOrdered(s, t) && Enabled(c, s, e)
    requires e.Take? || e.FinalTake? ==> NoFlushUnderWay(s)
    requires e.SendDone? || e.FinalDone? ==> AllOrNothing(SentBy(s, e), e.script)
    ensures Focus(t, e) < |Apply(c, s, e).threads| && AcksOrdered(Apply(c, s, e), Focus(t, e))
  {
    match e
    case Append(_, _) => AppendAcksOrdered(c, s, t, e);
    case SendDone(_, _) => SendAcksOrdered(c, s, t, e);
    case Requeue(_) => RequeueAcksOrdered(c, s, t, e);
    case FinalDone(_) => FinalAcksOrdered(c, s, t, e);
    case _ => SameUnsettled(c, s, t, e);
  }

  lemma {:induction false} RunAcksOrdered(c: Config, s: State, t: nat, run: seq<Event>)
    requires Ordered(s, t) && AcksOrdered(s, t) && SerialRun(c, s, run) && Run(c, s, run) && AtomicRun(c, s, run)
    ensures FocusAfter(t, run) < |After(c, s, run).threads| && AcksOrdered(After(c, s, run), FocusAfter(t, run))
    decreases |run|
  {
    if run != [] {
      StepOrdered(c, s, t, run[0]);
      StepAcksOrdered(c, s, t, run[0]);
      RunAcksOrdered(c, Apply(c, s, run[0]), Focus(t, run[0]), run[1..]);
    }
  }

  /** With a server that takes each bulk whole or not at all, documents are acknowledged in the
      order of writing, and everything still queued comes after them. */
  lemma AckedInWriteOrder(c: Config, callers: nat, run: seq<Event>)
    requires SerialRun(c, Start(callers), run) && Run(c, Start(callers), run)
    requires AtomicRun(c, Start(callers), run)
    ensures var s := After(c, Start(callers), run);
            Subseq(s.acked + s.pending + s.buffer, s.written)
  {
    StartOrdered(callers);
    assert Start(callers).acked + Unsettled(Start(callers), 0) == [];
    RunAcksOrdered(c, Start(callers), 0, run);
    DropInFlight(After(c, Start(callers), run), FocusAfter(0, run));
  }

  lemma DropInFlight(s: State, t: nat)
    requires t < |s.threads| && AcksOrdered(s, t)
    ensures Subseq(s.acked + s.pending + s.buffer, s.written)
  {
    var mid := HeldBy(s.threads[t]) + FinalDocs(s.closing);
    assert s.acked + (s.pending + mid + s.buffer) == (s.acked + s.pending) + mid + s.buffer;
    SubseqMiddleDrop(s.acked + s.pending, mid, s.buffer, s.written);
  }

  // ---------------------------------------------------------------- overlapping flushes

  predicate NoTake(run: seq<Event>) {
    forall e :: e in run ==> !e.Take? && !e.FinalTake?
  }

  /** Some continuation that starts with u's take and has no other one leaves the retry queue and
      the buffer out of the order of writing. */
  ghost predicate CanReorder(c: Config, s: State, u: nat) {
    exists run :: NoTake(run) && Run(c, s, [Take(u)] + run)
      && var s' := After(c, s, [Take(u)] + run); !Subseq(s'.pending + s'.buffer, s'.written)
  }

  ghost predicate Distinct(docs: seq<LogLine>) {
    forall i, j :: 0 <= i < j < |docs| ==> docs[i] != docs[j]
  }

  lemma {:induction false} RunInOrder(c: Config, s: State, t: nat, run: seq<Event>)
    requires InOrder(s, t) && Run(c, s, run) && NoTake(run)
    ensures InOrder(After(c, s, run), t)
    decreases |run|
  {
    if run != [] {
      assert run[0] in run;
      StepInOrder(c, s, t, run[0]);
      RunInOrder(c, Apply(c, s, run[0]), t, run[1..]);
    }
  }

  lemma InOrderQueue(s: State, t: nat)
    requires InOrder(s, t)
    ensures Subseq(s.pending + s.buffer, s.written)
  {
    SubseqMiddleDrop(s.pending, HeldBy(s.threads[t]) + FinalDocs(s.closing), s.buffer, s.written);
  }

  /** A take that finds nothing leaves t the only goroutine with documents. */
  lemma EmptyTakeInOrder(c: Config, s: State, t: nat, u: nat)
    requires InOrder(s, t) && Enabled(c, s, Take(u)) && u != t && s.pending == [] && s.buffer == []
    ensures InOrder(Apply(c, s, Take(u)), t)
  {
    var s' := Apply(c, s, Take(u));
    assert HeldBy(s'.threads[u]) == [] && s'.threads[t] == s.threads[t];
    assert Unsettled(s', t) == Unsettled(s, t);
  }

  lemma HarmlessTake(c: Config, s: State, t: nat, u: nat)
    requires Ordered(s, t) && Active(s.threads[t]) && Enabled(c, s, Take(u))
    requires HeldBy(s.threads[t]) == [] || s.pending + s.buffer == []
    ensures !CanReorder(c, s, u)
  {
    var s1 := Apply(c, s, Take(u));
    assert s.pending + s.buffer == [] ==> s.pending == [] && s.buffer == [];
    var w := if HeldBy(s.threads[t]) == [] then u else t;
    if w == u { TakeInOrder(c, s, t, u); } else { EmptyTakeInOrder(c, s, t, u); }
    forall run | NoTake(run) && Run(c, s, [Take(u)] + run)
      ensures var s' := After(c, s, [Take(u)] + run); Subseq(s'.pending + s'.buffer, s'.written)
    {
      assert ([Take(u)] + run)[1..] == run;
      RunInOrder(c, s1, w, run);
      InOrderQueue(After(c, s1, run), w);
    }
  }

  /** How far a goroutine is from the end of its flush. */
  function StepsLeft(p: Phase): nat {
    match p
    case Resending(_, _) => 4
    case Sending(_) => 3
    case Requeueing(_, andThen) => if andThen != [] then 2 else 1
    case _ => 0
  }

  /** The step that gets goroutine t closer to the end of its flush while the server is down. */
  function DownStep(c: Config, p: Phase, t: nat): Event {
    if p.Requeueing? then Requeue(t) else SendDone(t, AllFail(c.maxRetries))
  }

  /** The step empties nothing: it only moves documents from the goroutine to the end of the queue. */
  ghost predicate MovesBack(s: State, s': State, t: nat)
    requires t < |s.threads| == |s'.threads|
  {
    && s' == s.(pending := s'.pending, dropped := s'.dropped, acked := s'.acked,
                threads := s.threads[t := s'.threads[t]])
    && s'.pending + HeldBy(s'.threads[t]) == s.pending + HeldBy(s.threads[t])
    && StepsLeft(s'.threads[t]) < StepsLeft(s.threads[t])
  }

  lemma DownRequeue(c: Config, s: State, t: nat)
    requires t < |s.threads| && s.threads[t].Requeueing? && |s.pending| + |HeldBy(s.threads[t])| <= c.maxPending
    ensures MovesBack(s, Apply(c, s, Requeue(t)), t)
  {
    var p := s.threads[t];
    assert Excess(c, s.pending + p.docs) == 0;
    assert (s.pending + p.docs) + p.andThen == s.pending + (p.docs + p.andThen);
  }

  lemma DownSending(c: Config, s: State, t: nat)
    requires t < |s.threads| && (s.threads[t].Resending? || s.threads[t].Sending?)
    ensures MovesBack(s, Apply(c, s, SendDone(t, AllFail(c.maxRetries))), t)
  {
    var p := s.threads[t];
    AllFailReturnsAll(BeingSent(p), 0, c.maxRetries);
    SendStep(c, s, t, AllFail(c.maxRetries));
    assert p.Resending? && p.queue == [] ==> p.queue + p.batch == p.batch;
    assert BeingSent(p) + [] == BeingSent(p);
  }

  lemma DownStepGoes(c: Config, s: State, t: nat)
    requires t < |s.threads| && Active(s.threads[t]) && |s.pending| + |HeldBy(s.threads[t])| <= c.maxPending
    ensures Enabled(c, s, DownStep(c, s.threads[t], t))
    ensures |Apply(c, s, DownStep(c, s.threads[t], t)).threads| == |s.threads|
    ensures MovesBack(s, Apply(c, s, DownStep(c, s.threads[t], t)), t)
  {
    if s.threads[t].Requeueing? { DownRequeue(c, s, t); } else { DownSending(c, s, t); }
  }

  /** While the server is down goroutine t puts everything it holds back into the retry queue. */
  lemma {:induction false} PutsBack(c: Config, s: State, t: nat) returns (run: seq<Event>)
    requires t < |s.threads| && |s.pending| + |HeldBy(s.threads[t])| <= c.maxPending
    ensures Run(c, s, run) && NoTake(run)
    ensures var s' := After(c, s, run);
            && s'.pending == s.pending + HeldBy(s.threads[t])
            && s'.buffer == s.buffer && s'.written == s.written
            && |s'.threads| == |s.threads| && s'.threads == s.threads[t := s'.threads[t]]
    decreases StepsLeft(s.threads[t])
  {
    if !Active(s.threads[t]) {
      assert s.pending + [] == s.pending && s.threads == s.threads[t := s.threads[t]];
      return [];
    }
    var e := DownStep(c, s.threads[t], t);
    DownStepGoes(c, s, t);
    var s1 := Apply(c, s, e);
    assert |s1.pending + HeldBy(s1.threads[t])| == |s.pending + HeldBy(s.threads[t])|;
    var rest := PutsBack(c, s1, t);
    run := [e] + rest;
    assert run[1..] == rest;
  }

  /** Two goroutines put back what they hold, one after the other. */
  lemma BothPutBack(c: Config, s: State, first: nat, second: nat) returns (run: seq<Event>)
    requires first < |s.threads| && second < |s.threads| && first != second
    requires |s.pending| + |HeldBy(s.threads[first])| + |HeldBy(s.threads[second])| <= c.maxPending
    ensures Run(c, s, run) && NoTake(run)
    ensures var s' := After(c, s, run);
            && s'.pending == s.pending + HeldBy(s.threads[first]) + HeldBy(s.threads[second])
            && s'.buffer == s.buffer && s'.written == s.written
  {
    var one := PutsBack(c, s, first);
    var s1 := After(c, s, one);
    var two := PutsBack(c, s1, second);
    RunConcat(c, s, one, two);
    run := one + two;
  }

  lemma {:induction false} Positions(x: LogLine, y: LogLine, whole: seq<LogLine>) returns (i: nat, j: nat)
    requires Subseq([x, y], whole)
    ensures i < j < |whole| && whole[i] == x && whole[j] == y
    decreases |whole|
  {
    assert [x, y][1..] == [y];
    var rest := whole[1..];
    if Subseq([x, y], rest) {
      i, j := Positions(x, y, rest);
      i, j := i + 1, j + 1;
    } else {
      MemberOf([y], rest, 0);
      var k :| 0 <= k < |rest| && rest[k] == y;
      i, j := 0, k + 1;
    }
  }

  /** Of two documents in distinct ones, only one order is the order of writing. */
  lemma OneOrder(x: LogLine, y: LogLine, whole: seq<LogLine>)
    requires Distinct(whole) && Subseq([x, y], whole)
    ensures !Subseq([y, x], whole)
  {
    var i, j := Positions(x, y, whole);
    if Subseq([y, x], whole) {
      var k, l := Positions(y, x, whole);
    }
  }

  lemma MemberOf(a: seq<LogLine>, b: seq<LogLine>, i: nat)
    requires Subseq(a, b) && i < |a|
    ensures a[i] in b
  {
    SubseqMultiset(a, b);
    assert a[i] in multiset(a);
  }

  /** The first of one part comes before the first of a later part. */
  lemma FirstsOf(a: seq<LogLine>, mid: seq<LogLine>, b: seq<LogLine>, whole: seq<LogLine>)
    requires a != [] && b != [] && Subseq(a + mid + b, whole)
    ensures Subseq([a[0], b[0]], whole)
  {
    HeadOf(a);
    HeadOf(b);
    SubseqConcat([a[0]], a, [], mid);
    SubseqConcat([a[0]] + [], a + mid, [b[0]], b);
    assert [a[0]] + [] + [b[0]] == [a[0], b[0]];
    SubseqTrans([a[0], b[0]], a + mid + b, whole);
  }

  lemma HeadOf(a: seq<LogLine>)
    requires a != []
    ensures Subseq([a[0]], a)
  {
    assert [a[0]][1..] == [];
  }

  /** What goroutine t holds, with what was queued before it and buffered after it. */
  lemma Swapped(pending: seq<LogLine>, held: seq<LogLine>, buffer: seq<LogLine>, whole: seq<LogLine>)
    requires Distinct(whole) && held != [] && Subseq(pending + held + buffer, whole)
    ensures pending != [] ==> !Subseq(held + (pending + buffer), whole)
    ensures buffer != [] ==> !Subseq(([] + buffer) + held, whole)
  {
    if pending != [] {
      assert pending + held + buffer == pending + [] + (held + buffer);
      FirstsOf(pending, [], held + buffer, whole);
      OneOrder(pending[0], held[0], whole);
      if Subseq(held + (pending + buffer), whole) {
        assert held + (pending + buffer) == held + [] + (pending + buffer);
        FirstsOf(held, [], pending + buffer, whole);
      }
    }
    if buffer != [] {
      SubseqSuffix(pending + held + buffer, |pending|);
      assert (pending + held + buffer)[|pending|..] == held + [] + buffer;
      SubseqTrans(held + [] + buffer, pending + held + buffer, whole);
      FirstsOf(held, [], buffer, whole);
      OneOrder(held[0], buffer[0], whole);
      if Subseq(([] + buffer) + held, whole) {
        assert ([] + buffer) + held == buffer + [] + held;
        FirstsOf(buffer, [], held, whole);
      }
    }
  }

  lemma TakenBy(c: Config, s: State, t: nat, u: nat)
    requires Enabled(c, s, Take(u)) && t < |s.threads| && Active(s.threads[t]) && FinalDocs(s.closing) == []
    ensures var s1 := Apply(c, s, Take(u));
            && s1.pending == [] && s1.buffer == [] && s1.written == s.written && t != u
            && HeldBy(s1.threads[u]) == s.pending + s.buffer && s1.threads[t] == s.threads[t]
    ensures Unsettled(s, t) == s.pending + HeldBy(s.threads[t]) + s.buffer
  {
  }

  lemma ReorderedBy(c: Config, s: State, u: nat, run: seq<Event>, queue: seq<LogLine>)
    requires Enabled(c, s, Take(u)) && Run(c, Apply(c, s, Take(u)), run) && NoTake(run)
    requires var s' := After(c, Apply(c, s, Take(u)), run); s'.buffer == [] && s'.pending == queue && s'.written == s.written
    requires !Subseq(queue, s.written)
    ensures CanReorder(c, s, u)
  {
    assert ([Take(u)] + run)[1..] == run;
    var s' := After(c, s, [Take(u)] + run);
    assert s'.pending + s'.buffer == s'.pending;
  }

  /** One after the other, first `a` and then `b`, put everything back behind u's take. */
  lemma PutBackInTurn(c: Config, s: State, u: nat, a: nat, b: nat, queue: seq<LogLine>)
    requires Enabled(c, s, Take(u)) && a < |s.threads| && b < |s.threads| && a != b
    requires var s1 := Apply(c, s, Take(u));
             && s1.pending == [] && s1.buffer == [] && s1.written == s.written
             && queue == HeldBy(s1.threads[a]) + HeldBy(s1.threads[b]) && |queue| <= c.maxPending
    requires !Subseq(queue, s.written)
    ensures CanReorder(c, s, u)
  {
    var s1 := Apply(c, s, Take(u));
    var run := BothPutBack(c, s1, a, b);
    assert [] + HeldBy(s1.threads[a]) == HeldBy(s1.threads[a]);
    ReorderedBy(c, s, u, run, queue);
  }

  lemma OverlappingTake(c: Config, s: State, t: nat, u: nat)
    requires Ordered(s, t) && Active(s.threads[t]) && Enabled(c, s, Take(u))
    requires Distinct(s.written) && |Unsettled(s, t)| <= c.maxPending
    requires HeldBy(s.threads[t]) != [] && s.pending + s.buffer != []
    ensures CanReorder(c, s, u)
  {
    var held := HeldBy(s.threads[t]);
    TakenBy(c, s, t, u);
    Swapped(s.pending, held, s.buffer, s.written);
    if s.pending != [] {
      PutBackInTurn(c, s, u, t, u, held + (s.pending + s.buffer));
    } else {
      PutBackInTurn(c, s, u, u, t, ([] + s.buffer) + held);
    }
  }

  /** The exact condition for order to be at risk. With a flush under way in which goroutine t is,
      whatever its phase, a second take u can lead to a reordered retry queue, with no third flush,
      if and only if t still holds documents and u finds some. */
  lemma OverlapReordersIff(c: Config, s: State, t: nat, u: nat)
    requires Ordered(s, t) && Active(s.threads[t]) && Enabled(c, s, Take(u))
    requires Distinct(s.written) && |Unsettled(s, t)| <= c.maxPending
    ensures CanReorder(c, s, u) <==> HeldBy(s.threads[t]) != [] && s.pending + s.buffer != []
  {
    if HeldBy(s.threads[t]) != [] && s.pending + s.buffer != [] {
      OverlappingTake(c, s, t, u);
    } else {
      HarmlessTake(c, s, t, u);
    }
  }

  function Numbered(n: int): LogLine { LogLine(n, "info", "m", "s") }

  const TWO_AT_A_TIME := Config(2, 1, 10)

  /** One caller and the ticker: the ticker takes the first document, the caller the next two. */
  function BothTake(): seq<Event> {
    [Append(1, Numbered(1)), Take(0), Append(1, Numbered(2)), Append(1, Numbered(3)), Take(1)]
  }

  /** Both deliveries fail, and the caller re-queues before the ticker. */
  function BothRequeue(): seq<Event> {
    [SendDone(1, AllFail(1)), Requeue(1), SendDone(0, AllFail(1)), Requeue(0)]
  }

  function BothSending(): State {
    State([], [], 0, [Sending([Numbered(1)]), Sending([Numbered(2), Numbered(3)])], Open,
          [Numbered(1), Numbered(2), Numbered(3)], [], [])
  }

  function Reordered(): State {
    State([], [Numbered(2), Numbered(3), Numbered(1)], 0, [Idle, Idle], Open,
          [Numbered(1), Numbered(2), Numbered(3)], [], [])
  }

  lemma RunCons(c: Config, s: State, e: Event, s1: State, rest: seq<Event>)
    requires Enabled(c, s, e) && s1 == Apply(c, s, e) && Run(c, s1, rest)
    ensures Run(c, s, [e] + rest) && After(c, s, [e] + rest) == After(c, s1, rest)
  {
    assert ([e] + rest)[1..] == rest;
  }

  lemma BothTakeRuns()
    ensures Run(TWO_AT_A_TIME, Start(1), BothTake()) && After(TWO_AT_A_TIME, Start(1), BothTake()) == BothSending()
  {
    var c, d1, d2, d3 := TWO_AT_A_TIME, Numbered(1), Numbered(2), Numbered(3);
    var s1 := State([d1], [], 0, [Idle, Idle], Open, [d1], [], []);
    var s2 := State([], [], 0, [Sending([d1]), Idle], Open, [d1], [], []);
    var s3 := State([d2], [], 0, [Sending([d1]), Idle], Open, [d1, d2], [], []);
    var s4 := State([d2, d3], [], 0, [Sending([d1]), MustFlush], Open, [d1, d2, d3], [], []);
    RunOne(c, s4, Take(1));
    RunCons(c, s3, Append(1, d3), s4, [Take(1)]);
    RunCons(c, s2, Append(1, d2), s3, [Append(1, d3), Take(1)]);
    RunCons(c, s1, Take(0), s2, [Append(1, d2), Append(1, d3), Take(1)]);
    RunCons(c, Start(1), Append(1, d1), s1, [Take(0), Append(1, d2), Append(1, d3), Take(1)]);
  }

  lemma BothRequeueRuns()
    ensures Run(TWO_AT_A_TIME, BothSending(), BothRequeue())
    ensures After(TWO_AT_A_TIME, BothSending(), BothRequeue()) == Reordered()
  {
    var c, d1, d2, d3 := TWO_AT_A_TIME, Numbered(1), Numbered(2), Numbered(3);
    var down := AllFail(1);
    AllFailReturnsAll([d1], 0, 1);
    AllFailReturnsAll([d2, d3], 0, 1);
    var all := [d1, d2, d3];
    var s6 := State([], [], 0, [Sending([d1]), Requeueing([d2, d3], [])], Open, all, [], []);
    var s7 := State([], [d2, d3], 0, [Sending([d1]), Idle], Open, all, [], []);
    var s8 := State([], [d2, d3], 0, [Requeueing([d1], []), Idle], Open, all, [], []);
    RunOne(c, s8, Requeue(0));
    RunCons(c, s7, SendDone(0, down), s8, [Requeue(0)]);
    RunCons(c, s6, Requeue(1), s7, [SendDone(0, down), Requeue(0)]);
    RunCons(c, BothSending(), SendDone(1, down), s6, [Requeue(1), SendDone(0, down), Requeue(0)]);
  }

  /** Serial flushes are needed: with the caller's and the ticker's flush overlapping, the retry
      queue leaves the order of writing. */
  lemma OverlapReorders()
    ensures Run(TWO_AT_A_TIME, Start(1), BothTake() + BothRequeue())
    ensures var s := After(TWO_AT_A_TIME, Start(1), BothTake() + BothRequeue());
            s.closing.Open? && !Subseq(s.pending + s.buffer, s.written)
  {
    BothTakeRuns();
    BothRequeueRuns();
    RunConcat(TWO_AT_A_TIME, Start(1), BothTake(), BothRequeue());
    var s := Reordered();
    assert s.pending + s.buffer == s.pending;
    assert s.pending[0] != s.written[0];
    if Subseq(s.pending, s.written) { SameLengthSubseq(s.pending, s.written); }
  }
}
