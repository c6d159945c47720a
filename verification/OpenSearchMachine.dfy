// The OpenSearch writer as a state machine: one step per critical section or bulk delivery,
// any number of goroutines calling Write, the ticker goroutine (thread 0) and one Close,
// in every interleaving (internal/output/opensearch_writer.go).
module OpenSearchMachine {
  import opened LogLines
  import opened Seqs
  import opened BulkSend

  /** NewOpenSearchWriter replaces non-positive sizes by defaults, so both are positive. */
  datatype Config = Config(bulkSize: nat, maxRetries: nat, maxPending: nat) {
    predicate Valid() { bulkSize > 0 && maxRetries > 0 }
  }

  /** Where a goroutine is inside Write or flush. */
  datatype Phase =
    | Idle
    | MustFlush                                                   // its append filled the buffer
    | Resending(queue: seq<LogLine>, batch: seq<LogLine>)         // delivering the retry queue
    | Sending(batch: seq<LogLine>)                                // delivering the batch
    | Requeueing(docs: seq<LogLine>, andThen: seq<LogLine>)       // about to enqueuePending
    | Exited

  datatype Closing =
    | Open
    | Cancelling                          // cancelled; waiting for the ticker goroutine
    | FinalSending(docs: seq<LogLine>)
    | Closed

  /** `written`, `acked` and `dropped` record what happened to every document; the code keeps
      of them only the number of dropped ones. */
  datatype State = State(
    buffer: seq<LogLine>, pending: seq<LogLine>, pendingDropped: nat,
    threads: seq<Phase>, closing: Closing,
    written: seq<LogLine>, acked: seq<LogLine>, dropped: seq<LogLine>)

  datatype Event =
    | Append(t: nat, doc: LogLine)
    | Take(t: nat)
    | SendDone(t: nat, script: seq<Attempt>)
    | Requeue(t: nat)
    | TickerExit
    | CloseCancel
    | FinalTake
    | FinalDone(script: seq<Attempt>)

  function Start(callers: nat): State {
    State([], [], 0, seq(callers + 1, _ => Idle), Open, [], [], [])
  }

  predicate Enabled(c: Config, s: State, e: Event) {
    match e
    case Append(t, doc) => 0 < t < |s.threads| && s.threads[t].Idle?
    case Take(t) =>
      t < |s.threads| && if t == 0 then s.threads[0].Idle? else s.threads[t].MustFlush?
    case SendDone(t, script) =>
      t < |s.threads| && (s.threads[t].Resending? || s.threads[t].Sending?) && |script| == c.maxRetries
    case Requeue(t) => t < |s.threads| && s.threads[t].Requeueing?
    case TickerExit => 0 < |s.threads| && s.threads[0].Idle? && !s.closing.Open?
    case CloseCancel => s.closing.Open?
    case FinalTake => 0 < |s.threads| && s.threads[0].Exited? && s.closing.Cancelling?
    case FinalDone(script) => s.closing.FinalSending? && |script| == c.maxRetries
  }

  /** How many of the oldest documents the bound on the retry queue removes. */
  function Excess(c: Config, queue: seq<LogLine>): nat {
    if |queue| > c.maxPending then |queue| - c.maxPending else 0
  }

  function AfterRequeue(docs: seq<LogLine>): Phase {
    if docs == [] then Idle else Requeueing(docs, [])
  }

  function AfterResend(failed: seq<LogLine>, batch: seq<LogLine>): Phase {
    if failed != [] then Requeueing(failed, batch)
    else if batch == [] then Idle
    else Sending(batch)
  }

  function AfterSend(failed: seq<LogLine>): Phase {
    if failed != [] then Requeueing(failed, []) else Idle
  }

  function Apply(c: Config, s: State, e: Event): State
    requires Enabled(c, s, e)
  {
    match e
    case Append(t, doc) =>
      var buffer := s.buffer + [doc];
      s.(buffer := buffer, written := s.written + [doc],
         threads := s.threads[t := if |buffer| >= c.bulkSize then MustFlush else Idle])
    case Take(t) =>
      s.(buffer := [], pending := [],
         threads := s.threads[t := if s.pending != [] then Resending(s.pending, s.buffer) else Sending(s.buffer)])
    case SendDone(t, script) =>
      (match s.threads[t]
       case Resending(queue, batch) =>
         s.(acked := s.acked + Acked(queue, script),
            threads := s.threads[t := AfterResend(Undelivered(queue, script), batch)])
       case Sending(batch) =>
         s.(acked := s.acked + Acked(batch, script),
            threads := s.threads[t := AfterSend(Undelivered(batch, script))]))
    case Requeue(t) =>
      var queue := s.pending + s.threads[t].docs;
      var n := Excess(c, queue);
      s.(pending := queue[n..], dropped := s.dropped + queue[..n], pendingDropped := s.pendingDropped + n,
         threads := s.threads[t := AfterRequeue(s.threads[t].andThen)])
    case TickerExit => s.(threads := s.threads[0 := Exited])
    case CloseCancel => s.(closing := Cancelling)
    case FinalTake =>
      var docs := s.pending + s.buffer;
      s.(pending := [], buffer := [], closing := if docs == [] then Closed else FinalSending(docs))
    case FinalDone(script) =>
      var failed := Undelivered(s.closing.docs, script);
      s.(acked := s.acked + Acked(s.closing.docs, script), dropped := s.dropped + failed,
         pendingDropped := s.pendingDropped + |failed|, closing := Closed)
  }

  /** Every event of the run is possible when its turn comes. */
  predicate Run(c: Config, s: State, run: seq<Event>)
    decreases |run|
  {
    run == [] || (Enabled(c, s, run[0]) && Run(c, Apply(c, s, run[0]), run[1..]))
  }

  function After(c: Config, s: State, run: seq<Event>): State
    requires Run(c, s, run)
    decreases |run|
  {
    if run == [] then s else After(c, Apply(c, s, run[0]), run[1..])
  }

  // ---------------------------------------------------------------- where a document can be

  function HeldBy(p: Phase): seq<LogLine> {
    match p
    case Resending(queue, batch) => queue + batch
    case Sending(batch) => batch
    case Requeueing(docs, andThen) => docs + andThen
    case _ => []
  }

  function InFlight(threads: seq<Phase>): seq<LogLine> {
    if threads == [] then [] else HeldBy(threads[0]) + InFlight(threads[1..])
  }

  function FinalDocs(closing: Closing): seq<LogLine> {
    if closing.FinalSending? then closing.docs else []
  }

  function Copies(doc: LogLine, docs: seq<LogLine>): nat {
    multiset(docs)[doc]
  }

  /** The copies of a document over all the places it can be in. */
  function Whereabouts(s: State, doc: LogLine): nat {
    Copies(doc, s.buffer) + Copies(doc, s.pending) + Copies(doc, InFlight(s.threads))
    + Copies(doc, FinalDocs(s.closing)) + Copies(doc, s.acked) + Copies(doc, s.dropped)
  }

  /** Every document written is in exactly one place, losses are counted, the retry queue is bounded. */
  ghost predicate Accounted(c: Config, s: State) {
    && (forall doc :: Copies(doc, s.written) == Whereabouts(s, doc))
    && s.pendingDropped == |s.dropped|
    && |s.pending| <= c.maxPending
  }

  lemma CopiesConcat(doc: LogLine, a: seq<LogLine>, b: seq<LogLine>)
    ensures Copies(doc, a + b) == Copies(doc, a) + Copies(doc, b)
  {
  }

  lemma {:induction false} InFlightSplit(before: seq<Phase>, p: Phase, after: seq<Phase>)
    ensures InFlight(before + [p] + after) == InFlight(before) + HeldBy(p) + InFlight(after)
  {
    if before == [] {
      assert before + [p] + after == [p] + after;
      InFlightCons(p, after);
    } else {
      var first, rest := before[0], before[1..];
      assert before == [first] + rest;
      assert [first] + rest + [p] + after == [first] + (rest + [p] + after);
      InFlightCons(first, rest + [p] + after);
      InFlightSplit(rest, p, after);
      Regroup(HeldBy(first), InFlight(rest), HeldBy(p), InFlight(after));
    }
  }

  lemma InFlightCons(first: Phase, rest: seq<Phase>)
    ensures InFlight([first] + rest) == HeldBy(first) + InFlight(rest)
  {
    assert ([first] + rest)[1..] == rest;
  }

  lemma Regroup(a: seq<LogLine>, b: seq<LogLine>, d: seq<LogLine>, e: seq<LogLine>)
    ensures a + (b + d + e) == a + b + d + e
  {
  }

  lemma CopiesSplit(before: seq<Phase>, p: Phase, after: seq<Phase>, doc: LogLine)
    ensures Copies(doc, InFlight(before + [p] + after))
            == Copies(doc, InFlight(before)) + Copies(doc, HeldBy(p)) + Copies(doc, InFlight(after))
  {
    InFlightSplit(before, p, after);
    CopiesConcat(doc, InFlight(before) + HeldBy(p), InFlight(after));
    CopiesConcat(doc, InFlight(before), HeldBy(p));
  }

  lemma InFlightUpdate(threads: seq<Phase>, t: nat, p: Phase, doc: LogLine)
    requires t < |threads|
    ensures Copies(doc, InFlight(threads[t := p])) + Copies(doc, HeldBy(threads[t]))
            == Copies(doc, InFlight(threads)) + Copies(doc, HeldBy(p))
  {
    assert threads == threads[..t] + [threads[t]] + threads[t + 1..];
    assert threads[t := p] == threads[..t] + [p] + threads[t + 1..];
    CopiesSplit(threads[..t], threads[t], threads[t + 1..], doc);
    CopiesSplit(threads[..t], p, threads[t + 1..], doc);
  }

  lemma {:induction false} NoneInFlight(threads: seq<Phase>)
    requires forall t :: 0 <= t < |threads| ==> HeldBy(threads[t]) == []
    ensures InFlight(threads) == []
  {
    if threads != [] { NoneInFlight(threads[1..]); }
  }

  /** A delivery splits what was sent into acknowledged and returned documents. */
  lemma DeliverySplits(docs: seq<LogLine>, script: seq<Attempt>, doc: LogLine)
    ensures Copies(doc, docs) == Copies(doc, Acked(docs, script)) + Copies(doc, Undelivered(docs, script))
  {
    DeliverPartitions(docs, 0, script);
  }

  lemma SendDoneMoves(c: Config, s: State, t: nat, script: seq<Attempt>, doc: LogLine)
    requires Enabled(c, s, SendDone(t, script))
    ensures Whereabouts(Apply(c, s, SendDone(t, script)), doc) == Whereabouts(s, doc)
  {
    var s' := Apply(c, s, SendDone(t, script));
    InFlightUpdate(s.threads, t, s'.threads[t], doc);
    match s.threads[t]
    case Resending(queue, batch) =>
      HeldAfterResend(queue, batch, script, doc);
      CopiesConcat(doc, s.acked, Acked(queue, script));
    case Sending(batch) =>
      HeldAfterSend(batch, script, doc);
      CopiesConcat(doc, s.acked, Acked(batch, script));
  }

  lemma HeldAfterResend(queue: seq<LogLine>, batch: seq<LogLine>, script: seq<Attempt>, doc: LogLine)
    ensures Copies(doc, HeldBy(Resending(queue, batch)))
            == Copies(doc, Acked(queue, script))
               + Copies(doc, HeldBy(AfterResend(Undelivered(queue, script), batch)))
  {
    var failed := Undelivered(queue, script);
    DeliverySplits(queue, script, doc);
    CopiesConcat(doc, queue, batch);
    CopiesConcat(doc, failed, batch);
    assert HeldBy(AfterResend(failed, batch)) == failed + batch;
  }

  lemma HeldAfterSend(batch: seq<LogLine>, script: seq<Attempt>, doc: LogLine)
    ensures Copies(doc, batch)
            == Copies(doc, Acked(batch, script)) + Copies(doc, HeldBy(AfterSend(Undelivered(batch, script))))
  {
    var failed := Undelivered(batch, script);
    DeliverySplits(batch, script, doc);
    assert HeldBy(AfterSend(failed)) == failed;
  }

  lemma RequeueMoves(c: Config, s: State, t: nat, doc: LogLine)
    requires Enabled(c, s, Requeue(t))
    ensures Whereabouts(Apply(c, s, Requeue(t)), doc) == Whereabouts(s, doc)
  {
    var p := s.threads[t];
    var queue := s.pending + p.docs;
    var n := Excess(c, queue);
    assert queue == queue[..n] + queue[n..];
    CopiesConcat(doc, queue[..n], queue[n..]);
    CopiesConcat(doc, s.pending, p.docs);
    CopiesConcat(doc, s.dropped, queue[..n]);
    CopiesConcat(doc, p.docs, p.andThen);
    CopiesConcat(doc, p.andThen, []);
    InFlightUpdate(s.threads, t, AfterRequeue(p.andThen), doc);
  }

  lemma TakeMoves(c: Config, s: State, t: nat, doc: LogLine)
    requires Enabled(c, s, Take(t))
    ensures Whereabouts(Apply(c, s, Take(t)), doc) == Whereabouts(s, doc)
  {
    InFlightUpdate(s.threads, t, Apply(c, s, Take(t)).threads[t], doc);
    CopiesConcat(doc, s.pending, s.buffer);
  }

  lemma FinalMoves(c: Config, s: State, e: Event, doc: LogLine)
    requires (e.FinalTake? || e.FinalDone?) && Enabled(c, s, e)
    ensures Whereabouts(Apply(c, s, e), doc) == Whereabouts(s, doc)
  {
    if e.FinalTake? {
      CopiesConcat(doc, s.pending, s.buffer);
    } else {
      var docs := s.closing.docs;
      DeliverySplits(docs, e.script, doc);
      CopiesConcat(doc, s.acked, Acked(docs, e.script));
      CopiesConcat(doc, s.dropped, Undelivered(docs, e.script));
    }
  }

  lemma AppendMoves(c: Config, s: State, t: nat, d: LogLine, doc: LogLine)
    requires Enabled(c, s, Append(t, d))
    ensures Whereabouts(Apply(c, s, Append(t, d)), doc) + Copies(doc, s.written)
            == Whereabouts(s, doc) + Copies(doc, Apply(c, s, Append(t, d)).written)
  {
    CopiesConcat(doc, s.buffer, [d]);
    CopiesConcat(doc, s.written, [d]);
    InFlightUpdate(s.threads, t, Apply(c, s, Append(t, d)).threads[t], doc);
  }

  /** A step moves documents between places; only Append creates one. */
  lemma StepMoves(c: Config, s: State, e: Event, doc: LogLine)
    requires Enabled(c, s, e)
    ensures Whereabouts(Apply(c, s, e), doc) + Copies(doc, s.written)
            == Whereabouts(s, doc) + Copies(doc, Apply(c, s, e).written)
  {
    match e
    case Append(t, d) => AppendMoves(c, s, t, d, doc);
    case Take(t) => TakeMoves(c, s, t, doc);
    case SendDone(t, script) => SendDoneMoves(c, s, t, script, doc);
    case Requeue(t) => RequeueMoves(c, s, t, doc);
    case TickerExit => InFlightUpdate(s.threads, 0, Exited, doc);
    case CloseCancel =>
    case FinalTake => FinalMoves(c, s, e, doc);
    case FinalDone(script) => FinalMoves(c, s, e, doc);
  }

  lemma StepAccounted(c: Config, s: State, e: Event)
    requires Accounted(c, s) && Enabled(c, s, e)
    ensures Accounted(c, Apply(c, s, e))
  {
    forall doc ensures Copies(doc, Apply(c, s, e).written) == Whereabouts(Apply(c, s, e), doc) {
      StepMoves(c, s, e, doc);
    }
  }

  /** No silent loss: in every interleaving every written document is buffered, pending, in
      flight, acknowledged or counted as dropped, and the retry queue never outgrows its bound. */
  lemma {:induction false} NoSilentLoss(c: Config, s: State, run: seq<Event>)
    requires Accounted(c, s) && Run(c, s, run)
    ensures Accounted(c, After(c, s, run))
    decreases |run|
  {
    if run != [] {
      StepAccounted(c, s, run[0]);
      NoSilentLoss(c, Apply(c, s, run[0]), run[1..]);
    }
  }

  lemma StartAccounted(c: Config, callers: nat)
    ensures Accounted(c, Start(callers))
  {
    NoneInFlight(Start(callers).threads);
  }

  // ---------------------------------------------------------------- nothing is dropped without need

  /** What a re-queue does to the queue: as many of the newest documents stay as the bound allows, the
      older ones leave and are counted. */
  lemma RequeueKeepsNewest(c: Config, s: State, t: nat)
    requires Enabled(c, s, Requeue(t))
    ensures var queue, s' := s.pending + s.threads[t].docs, Apply(c, s, Requeue(t));
            && |s'.pending| == (if |queue| <= c.maxPending then |queue| else c.maxPending)
            && s'.pending == queue[|queue| - |s'.pending|..]
            && s'.dropped == s.dropped + queue[..|queue| - |s'.pending|]
            && s'.pendingDropped == s.pendingDropped + (|queue| - |s'.pending|)
  {
  }

  /** At every step the queue and what is in flight fit into the bound; the final flush, which drops
      what it cannot deliver, is not reached. */
  predicate Fits(c: Config, s: State, run: seq<Event>)
    requires Run(c, s, run)
    decreases |run|
  {
    && |s.pending| + |InFlight(s.threads)| <= c.maxPending
    && (run != [] ==> !run[0].FinalDone? && Fits(c, Apply(c, s, run[0]), run[1..]))
  }

  lemma HeldIsInFlight(threads: seq<Phase>, t: nat)
    requires t < |threads|
    ensures |HeldBy(threads[t])| <= |InFlight(threads)|
  {
    assert threads == threads[..t] + [threads[t]] + threads[t + 1..];
    InFlightSplit(threads[..t], threads[t], threads[t + 1..]);
  }

  /** As long as they fit, nothing is ever dropped. */
  lemma {:induction false} NothingDroppedWithinBound(c: Config, s: State, run: seq<Event>)
    requires Run(c, s, run) && Fits(c, s, run)
    ensures After(c, s, run).dropped == s.dropped && After(c, s, run).pendingDropped == s.pendingDropped
    decreases |run|
  {
    if run != [] {
      var e := run[0];
      if e.Requeue? {
        HeldIsInFlight(s.threads, e.t);
        RequeueKeepsNewest(c, s, e.t);
      }
      NothingDroppedWithinBound(c, Apply(c, s, e), run[1..]);
    }
  }

  /** The server takes every bulk at the first attempt. */
  predicate HealthyRun(run: seq<Event>) {
    forall e :: e in run && (e.SendDone? || e.FinalDone?) ==> e.script != [] && Takes(e.script[0].response)
  }

  /** Nothing is queued, lost, or on its way back. */
  ghost predicate Smooth(s: State) {
    && s.pending == [] && s.dropped == [] && s.pendingDropped == 0
    && forall t :: 0 <= t < |s.threads| ==> !s.threads[t].Requeueing? && !s.threads[t].Resending?
  }

  lemma StepSmooth(c: Config, s: State, e: Event)
    requires Smooth(s) && Enabled(c, s, e)
    requires e.SendDone? || e.FinalDone? ==> e.script != [] && Takes(e.script[0].response)
    ensures Smooth(Apply(c, s, e))
  {
    if e.SendDone? {
      assert s.threads[e.t].Sending?;
      TakenAtOnce(s.threads[e.t].batch, e.script);
    } else if e.FinalDone? {
      TakenAtOnce(s.closing.docs, e.script);
    }
  }

  lemma {:induction false} RunSmooth(c: Config, s: State, run: seq<Event>)
    requires Smooth(s) && Run(c, s, run) && HealthyRun(run)
    ensures Smooth(After(c, s, run))
    decreases |run|
  {
    if run != [] {
      assert run[0] in run;
      StepSmooth(c, s, run[0]);
      RunSmooth(c, Apply(c, s, run[0]), run[1..]);
    }
  }

  /** With a server that takes every bulk, no document is ever queued again or dropped; those not yet
      acknowledged are buffered or being sent, and when none is, all are acknowledged. */
  lemma HealthyServerGetsAll(c: Config, callers: nat, run: seq<Event>)
    requires Run(c, Start(callers), run) && HealthyRun(run)
    ensures var s := After(c, Start(callers), run);
            && s.pending == [] && s.dropped == [] && s.pendingDropped == 0
            && (s.buffer == [] && InFlight(s.threads) == [] && FinalDocs(s.closing) == [] ==>
                  multiset(s.acked) == multiset(s.written))
  {
    RunSmooth(c, Start(callers), run);
    StartAccounted(c, callers);
    NoSilentLoss(c, Start(callers), run);
    AllAcked(c, After(c, Start(callers), run));
  }

  lemma AllAcked(c: Config, s: State)
    requires Accounted(c, s) && s.pending == [] && s.dropped == []
    ensures s.buffer == [] && InFlight(s.threads) == [] && FinalDocs(s.closing) == [] ==>
              multiset(s.acked) == multiset(s.written)
  {
    if s.buffer == [] && InFlight(s.threads) == [] && FinalDocs(s.closing) == [] {
      forall doc ensures multiset(s.acked)[doc] == multiset(s.written)[doc] {
        assert Copies(doc, s.written) == Whereabouts(s, doc);
      }
    }
  }

  /** A full buffer has a goroutine that is about to flush it. */
  ghost predicate FullIsFlushed(c: Config, s: State) {
    |s.buffer| >= c.bulkSize > 0 ==> exists t :: 0 < t < |s.threads| && s.threads[t].MustFlush?
  }

  lemma {:induction false} FullBufferIsFlushed(c: Config, s: State, run: seq<Event>)
    requires FullIsFlushed(c, s) && Run(c, s, run)
    ensures FullIsFlushed(c, After(c, s, run))
    decreases |run|
  {
    if run != [] {
      StepFullIsFlushed(c, s, run[0]);
      FullBufferIsFlushed(c, Apply(c, s, run[0]), run[1..]);
    }
  }

  lemma StepFullIsFlushed(c: Config, s: State, e: Event)
    requires FullIsFlushed(c, s) && Enabled(c, s, e)
    ensures FullIsFlushed(c, Apply(c, s, e))
  {
    var s' := Apply(c, s, e);
    if |s'.buffer| >= c.bulkSize > 0 {
      if e.Append? {
        assert s'.threads[e.t].MustFlush?;
      } else {
        assert s'.buffer == s.buffer;
        var t :| 0 < t < |s.threads| && s.threads[t].MustFlush?;
        assert s'.threads[t].MustFlush?;
      }
    }
  }

  // ---------------------------------------------------------------- what Close leaves behind

  /** What Close can rely on when it takes the last documents: no goroutine still holds any. */
  ghost predicate CallersQuiet(s: State) {
    forall t :: 0 <= t < |s.threads| ==> HeldBy(s.threads[t]) == []
  }

  /** Nothing is buffered, queued or in flight outside the final flush. */
  ghost predicate Emptied(s: State) {
    s.buffer == [] && s.pending == [] && CallersQuiet(s) && !s.closing.Open? && !s.closing.Cancelling?
  }

  predicate NoAppend(run: seq<Event>) {
    forall e :: e in run ==> !e.Append?
  }

  lemma StepEmptied(c: Config, s: State, e: Event)
    requires Emptied(s) && Enabled(c, s, e) && !e.Append?
    ensures Emptied(Apply(c, s, e))
  {
    if e.SendDone? {
      NothingSentNothingReturned<LogLine>(0, e.script);
      var p := s.threads[e.t];
      assert HeldBy(p) == [];
      if p.Resending? { assert p.queue == [] && p.batch == []; }
    } else if e.Requeue? {
      var p := s.threads[e.t];
      assert HeldBy(p) == [];
      assert p.docs == [] && p.andThen == [];
    }
  }

  lemma {:induction false} RunEmptied(c: Config, s: State, run: seq<Event>)
    requires Emptied(s) && Run(c, s, run) && NoAppend(run)
    ensures Emptied(After(c, s, run))
    decreases |run|
  {
    if run != [] {
      assert run[0] in run;
      StepEmptied(c, s, run[0]);
      RunEmptied(c, Apply(c, s, run[0]), run[1..]);
    }
  }

  /** When no caller holds documents as Close takes its snapshot and none writes afterwards, the
      end of Close leaves nothing behind: written is exactly acknowledged plus counted losses. */
  lemma CloseLosesNothing(c: Config, s: State, run: seq<Event>)
    requires Accounted(c, s) && Enabled(c, s, FinalTake) && CallersQuiet(s)
    requires Run(c, s, [FinalTake] + run) && NoAppend(run)
    requires After(c, s, [FinalTake] + run).closing.Closed?
    ensures var s' := After(c, s, [FinalTake] + run);
            && s'.buffer == [] && s'.pending == [] && InFlight(s'.threads) == []
            && multiset(s'.written) == multiset(s'.acked) + multiset(s'.dropped)
            && |s'.written| == |s'.acked| + s'.pendingDropped
  {
    assert ([FinalTake] + run)[1..] == run;
    var s1 := Apply(c, s, FinalTake);
    NoSilentLoss(c, s, [FinalTake] + run);
    RunEmptied(c, s1, run);
    var s' := After(c, s, [FinalTake] + run);
    NoneInFlight(s'.threads);
    assert multiset(s'.written) == multiset(s'.acked + s'.dropped) by {
      forall doc ensures multiset(s'.written)[doc] == multiset(s'.acked + s'.dropped)[doc] {
        assert Copies(doc, s'.written) == Whereabouts(s', doc);
        CopiesConcat(doc, s'.acked, s'.dropped);
      }
    }
    assert |multiset(s'.written)| == |multiset(s'.acked + s'.dropped)|;
  }

  /** Every delivery attempt is refused at the transport. */
  function AllFail(n: nat): (script: seq<Attempt>) {
    seq(n, _ => Attempt(false, TransportError))
  }

  lemma {:induction false} AllFailReturnsAll(docs: seq<LogLine>, attempt: nat, n: nat)
    requires attempt <= n
    ensures Deliver(docs, attempt, AllFail(n)).undelivered == docs
    ensures Flatten(Deliver(docs, attempt, AllFail(n)).acks) == []
    decreases n - attempt
  {
    if attempt < n {
      AllFailReturnsAll(docs, attempt + 1, n);
      var rest := Deliver(docs, attempt + 1, AllFail(n));
      assert ([[]] + rest.acks)[1..] == rest.acks;
    }
  }

  /** The goroutine t carries its documents back to the retry queue when the server stays down. */
  function StrandingRun(c: Config, p: Phase, t: nat): seq<Event> {
    match p
    case Resending(queue, batch) =>
      if queue != [] then [SendDone(t, AllFail(c.maxRetries)), Requeue(t)]
      else [SendDone(t, AllFail(c.maxRetries)), SendDone(t, AllFail(c.maxRetries)), Requeue(t)]
    case Sending(batch) => [SendDone(t, AllFail(c.maxRetries)), Requeue(t)]
    case Requeueing(docs, andThen) => if docs != [] then [Requeue(t)] else [Requeue(t), Requeue(t)]
    case _ => []
  }

  /** A delivery while the server is down changes only where the goroutine is. */
  lemma DownSend(c: Config, s: State, t: nat)
    requires t < |s.threads| && (s.threads[t].Resending? || s.threads[t].Sending?)
    ensures Enabled(c, s, SendDone(t, AllFail(c.maxRetries)))
    ensures var s' := Apply(c, s, SendDone(t, AllFail(c.maxRetries)));
            && s'.pending == s.pending && s'.closing == s.closing && |s'.threads| == |s.threads|
            && s'.threads[t] == match s.threads[t]
                                case Resending(queue, batch) => AfterResend(queue, batch)
                                case Sending(batch) => AfterSend(batch)
  {
    var docs := match s.threads[t] case Resending(queue, _) => queue case Sending(batch) => batch;
    AllFailReturnsAll(docs, 0, c.maxRetries);
  }

  lemma RequeueFills(c: Config, s: State, t: nat)
    requires c.maxPending > 0 && t < |s.threads| && s.threads[t].Requeueing?
    ensures Enabled(c, s, Requeue(t))
    ensures var s' := Apply(c, s, Requeue(t));
            && s'.closing == s.closing && |s'.threads| == |s.threads|
            && s'.threads[t] == AfterRequeue(s.threads[t].andThen)
            && (s.threads[t].docs != [] ==> s'.pending != [])
  {
  }

  lemma StrandingRunStrands(c: Config, s: State, t: nat)
    requires c.maxPending > 0 && t < |s.threads| && HeldBy(s.threads[t]) != []
    ensures Run(c, s, StrandingRun(c, s.threads[t], t)) && NoAppend(StrandingRun(c, s.threads[t], t))
    ensures var s' := After(c, s, StrandingRun(c, s.threads[t], t));
            s'.pending != [] && s'.closing == s.closing
    decreases match s.threads[t] case Resending(_, _) => 2 case Sending(_) => 1 case _ => 0
  {
    var p := s.threads[t];
    var run := StrandingRun(c, p, t);
    if p.Requeueing? {
      RequeueFills(c, s, t);
      var s1 := Apply(c, s, Requeue(t));
      if p.docs != [] {
        RunOne(c, s, Requeue(t));
      } else {
        RequeueFills(c, s1, t);
        RunOne(c, s1, Requeue(t));
        assert run[1..] == [Requeue(t)];
      }
    } else {
      DownSend(c, s, t);
      var s1 := Apply(c, s, SendDone(t, AllFail(c.maxRetries)));
      if p.Resending? && p.queue != [] {
        RequeueFills(c, s1, t);
        RunOne(c, s1, Requeue(t));
        assert run[1..] == [Requeue(t)];
      } else {
        StrandingRunStrands(c, s1, t);
        assert run[1..] == StrandingRun(c, s1.threads[t], t);
      }
    }
  }

  lemma RunOne(c: Config, s: State, e: Event)
    requires Enabled(c, s, e)
    ensures Run(c, s, [e]) && After(c, s, [e]) == Apply(c, s, e)
  {
    assert [e][1..] == [];
    assert Run(c, Apply(c, s, e), []);
  }

  lemma {:induction false} RunConcat(c: Config, s: State, a: seq<Event>, b: seq<Event>)
    requires Run(c, s, a) && Run(c, After(c, s, a), b)
    ensures Run(c, s, a + b) && After(c, s, a + b) == After(c, After(c, s, a), b)
    decreases |a|
  {
    if a == [] {
      assert a + b == b;
    } else {
      assert (a + b)[1..] == a[1..] + b;
      RunConcat(c, Apply(c, s, a[0]), a[1..], b);
    }
  }

  /** Some way of finishing Close from `s`, with no further Write, ends with documents that are
      neither delivered nor counted as lost. */
  ghost predicate CanStrand(c: Config, s: State) {
    exists run :: Run(c, s, [FinalTake] + run) && NoAppend(run)
      && After(c, s, [FinalTake] + run).closing.Closed?
      && After(c, s, [FinalTake] + run).pending != []
  }

  /** The exact guard for Close: its accounting is complete in every continuation if and only if
      no goroutine holds documents when the last snapshot is taken. */
  lemma CloseCompleteIffQuiet(c: Config, s: State)
    requires c.maxPending > 0 && Accounted(c, s) && Enabled(c, s, FinalTake)
    ensures CallersQuiet(s) <==> !CanStrand(c, s)
  {
    if CallersQuiet(s) {
      forall run | Run(c, s, [FinalTake] + run) && NoAppend(run)
                   && After(c, s, [FinalTake] + run).closing.Closed?
        ensures After(c, s, [FinalTake] + run).pending == []
      {
        CloseLosesNothing(c, s, run);
      }
    } else {
      var t :| 0 <= t < |s.threads| && HeldBy(s.threads[t]) != [];
      var s1 := Apply(c, s, FinalTake);
      var finish := if s1.closing.FinalSending? then [FinalDone(AllFail(c.maxRetries))] else [];
      if finish != [] { RunOne(c, s1, finish[0]); }
      var s2 := After(c, s1, finish);
      assert s2.threads == s.threads && s2.closing.Closed?;
      var rest := StrandingRun(c, s2.threads[t], t);
      StrandingRunStrands(c, s2, t);
      RunConcat(c, s1, finish, rest);
      var run := finish + rest;
      assert ([FinalTake] + run)[1..] == run;
      assert Run(c, s, [FinalTake] + run);
      assert After(c, s, [FinalTake] + run) == After(c, s1, run);
    }
  }

  /** One document a batch, one attempt a delivery. */
  const ONE_AT_A_TIME := Config(1, 1, 10)

  /** A caller is in the middle of its delivery when Close gets to the last snapshot. */
  function CloseDuringFlush(doc: LogLine): seq<Event> {
    [Append(1, doc), Take(1), CloseCancel, TickerExit]
  }

  /** The unguarded case is real: a run from the start that leads to a final snapshot after which,
      by CloseCompleteIffQuiet, documents can be stranded. */
  lemma StrandingReachable(doc: LogLine)
    ensures Run(ONE_AT_A_TIME, Start(1), CloseDuringFlush(doc))
    ensures var s := After(ONE_AT_A_TIME, Start(1), CloseDuringFlush(doc));
            Enabled(ONE_AT_A_TIME, s, FinalTake) && !CallersQuiet(s) && CanStrand(ONE_AT_A_TIME, s)
  {
    var c, run := ONE_AT_A_TIME, CloseDuringFlush(doc);
    var s1 := State([doc], [], 0, [Idle, MustFlush], Open, [doc], [], []);
    var s2 := State([], [], 0, [Idle, Sending([doc])], Open, [doc], [], []);
    var s3 := s2.(closing := Cancelling);
    var s4 := s3.(threads := [Exited, Sending([doc])]);
    assert Start(1).threads == [Idle, Idle];
    assert Apply(c, Start(1), run[0]) == s1 && Apply(c, s1, run[1]) == s2;
    assert Apply(c, s2, run[2]) == s3 && Apply(c, s3, run[3]) == s4;
    RunOne(c, s3, TickerExit);
    assert run[1..][1..] == [CloseCancel, TickerExit] && [CloseCancel, TickerExit][1..] == [TickerExit];
    assert Run(c, s2, run[1..][1..]) && After(c, s2, run[1..][1..]) == s4;
    assert Run(c, s1, run[1..]) && After(c, s1, run[1..]) == s4;
    assert HeldBy(s4.threads[1]) == [doc];
    StartAccounted(c, 1);
    NoSilentLoss(c, Start(1), run);
    CloseCompleteIffQuiet(c, s4);
  }
}
