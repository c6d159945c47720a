// The whole path of a line without aggregation: pipeline, output manager, OpenSearch writer,
// composed from their state machines (cmd/pipeline.go, cmd/output_manager.go,
// internal/output/opensearch_writer.go).
module DeliveryPath {
  import opened LogLines
  import opened Seqs
  import OM = OutputQueue
  import OS = OpenSearchMachine
  import BulkSend

  /** What is fixed for a run: parsing, the level and regex filters, which lines can be encoded. */
  datatype Setup = Setup(
    parse: LogLine -> LogLine, passes: LogLine -> bool, encodable: LogLine -> bool, writer: OS.Config)

  datatype Phase =
    | Consuming
    | DrainingInput       // the context is cancelled, the tailers are being stopped
    | Sweeping            // all tailers are stopped
    | Returned

  datatype State = State(
    phase: Phase, logChan: seq<LogLine>,
    produced: seq<LogLine>, consumed: seq<LogLine>, passed: seq<LogLine>, unencodable: seq<LogLine>,
    inWrite: bool,        // the writer goroutine is inside OpenSearchWriter.Write, past its append
    om: OM.State, os: OS.State)

  datatype Event =
    | Produce(raw: LogLine)
    | Consume
    | ContextDone
    | TailersStopped
    | SweepEnd
    | InputClosed         // the line channel was closed, and is empty
    | Manager(e: OM.Event)          // steps of the output manager on its own
    | StartWrite
    | EndWrite
    | Writer(w: OS.Event)           // steps of the OpenSearch writer on its own
    | EndClose

  function Start(): State {
    State(Consuming, [], [], [], [], [], false, OM.Start(), OS.Start(1))
  }

  /** The output manager is closed only after the pipeline has returned. */
  predicate ManagerStep(s: State, e: OM.Event) {
    e.Pop? || e.BeginDrain? || e.ExitLoop? || e.ReadWriter? || (e.CloseCancel? && s.phase.Returned?)
  }

  /** The writer is closed only by the output manager's Close. */
  predicate WriterStep(s: State, w: OS.Event) {
    !w.Append? && (w.CloseCancel? ==> s.om.closer.ClosingWriter?)
  }

  /** The step of the output manager that an event performs, if any. */
  function ManagerEvent(c: Setup, s: State, e: Event): Option<OM.Event> {
    match e
    case Consume =>
      if s.logChan != [] && c.passes(c.parse(s.logChan[0])) then Some(OM.Offer(c.parse(s.logChan[0]))) else None
    case Manager(m) => Some(m)
    case StartWrite => if s.om.hand.Writing? && c.encodable(s.om.hand.line) then None else Some(OM.FinishWrite)
    case EndWrite => Some(OM.FinishWrite)
    case EndClose => Some(OM.CloseWriter)
    case _ => None
  }

  /** The step of the OpenSearch writer that an event performs, if any. */
  function WriterEvent(c: Setup, s: State, e: Event): Option<OS.Event> {
    match e
    case StartWrite =>
      if s.om.hand.Writing? && c.encodable(s.om.hand.line) then Some(OS.Append(1, s.om.hand.line)) else None
    case Writer(w) => Some(w)
    case _ => None
  }

  predicate Enabled(c: Setup, s: State, e: Event) {
    && (ManagerEvent(c, s, e).Some? ==> OM.Enabled(s.om, ManagerEvent(c, s, e).value))
    && (WriterEvent(c, s, e).Some? ==> OS.Enabled(c.writer, s.os, WriterEvent(c, s, e).value))
    && match e
       case Produce(_) => true
       case Consume => !s.phase.Returned? && s.logChan != []
       case ContextDone => s.phase.Consuming?
       case TailersStopped => s.phase.DrainingInput?
       case SweepEnd => s.phase.Sweeping? && s.logChan == []
       case InputClosed => s.phase.Consuming? && s.logChan == []
       case Manager(m) => ManagerStep(s, m)
       case StartWrite => s.om.hand.Writing? && !s.inWrite
       case EndWrite => s.om.hand.Writing? && s.inWrite && 1 < |s.os.threads| && s.os.threads[1].Idle?
       case Writer(w) => WriterStep(s, w)
       case EndClose => s.om.closer.ClosingWriter? && s.os.closing.Closed?
  }

  function StepManager(om: OM.State, e: Option<OM.Event>): OM.State
    requires e.Some? ==> OM.Enabled(om, e.value)
  {
    if e.Some? then OM.Apply(om, e.value) else om
  }

  function StepWriter(c: OS.Config, os: OS.State, e: Option<OS.Event>): OS.State
    requires e.Some? ==> OS.Enabled(c, os, e.value)
  {
    if e.Some? then OS.Apply(c, os, e.value) else os
  }

  function Apply(c: Setup, s: State, e: Event): State
    requires Enabled(c, s, e)
  {
    ApplyPipeline(c, s, e).(
      om := StepManager(s.om, ManagerEvent(c, s, e)), os := StepWriter(c.writer, s.os, WriterEvent(c, s, e)))
  }

  /** The pipeline's own part of an event: a consumed line is parsed and filtered; what passes is
      offered to the output manager, without ever waiting for it. */
  function ApplyPipeline(c: Setup, s: State, e: Event): State
    requires e.Consume? ==> s.logChan != []
  {
    match e
    case Produce(raw) => s.(logChan := s.logChan + [raw], produced := s.produced + [raw])
    case Consume =>
      var line := c.parse(s.logChan[0]);
      s.(logChan := s.logChan[1..], consumed := s.consumed + [s.logChan[0]],
         passed := if c.passes(line) then s.passed + [line] else s.passed)
    case ContextDone => s.(phase := DrainingInput)
    case TailersStopped => s.(phase := Sweeping)
    case SweepEnd => s.(phase := Returned)
    case InputClosed => s.(phase := Returned)
    case StartWrite =>
      if s.om.hand.Writing? && !c.encodable(s.om.hand.line) then s.(unencodable := s.unencodable + [s.om.hand.line])
      else s.(inWrite := true)
    case EndWrite => s.(inWrite := false)
    case _ => s
  }

  predicate Run(c: Setup, s: State, run: seq<Event>)
    decreases |run|
  {
    run != [] ==> Enabled(c, s, run[0]) && Run(c, Apply(c, s, run[0]), run[1..])
  }

  function After(c: Setup, s: State, run: seq<Event>): State
    requires Run(c, s, run)
    decreases |run|
  {
    if run == [] then s else After(c, Apply(c, s, run[0]), run[1..])
  }

  // ---------------------------------------------------------------- reference definitions

  /** The lines that pass the filters, in order. */
  function Passing(c: Setup, raws: seq<LogLine>): seq<LogLine> {
    if raws == [] then []
    else
      var line := c.parse(raws[|raws| - 1]);
      Passing(c, raws[..|raws| - 1]) + (if c.passes(line) then [line] else [])
  }

  function Keep(f: LogLine -> bool, lines: seq<LogLine>): seq<LogLine> {
    if lines == [] then []
    else Keep(f, lines[..|lines| - 1]) + (if f(lines[|lines| - 1]) then [lines[|lines| - 1]] else [])
  }

  lemma KeepSnoc(f: LogLine -> bool, lines: seq<LogLine>, line: LogLine)
    ensures Keep(f, lines + [line]) == Keep(f, lines) + (if f(line) then [line] else [])
  {
    assert (lines + [line])[..|lines + [line]| - 1] == lines;
  }

  lemma {:induction false} KeepOnly(f: LogLine -> bool, lines: seq<LogLine>)
    ensures forall l :: l in Keep(f, lines) ==> f(l)
  {
    if lines != [] { KeepOnly(f, lines[..|lines| - 1]); }
  }

  lemma {:induction false} KeepSplits(f: LogLine -> bool, g: LogLine -> bool, lines: seq<LogLine>, doc: LogLine)
    requires forall l :: g(l) == !f(l)
    ensures OS.Copies(doc, lines) == OS.Copies(doc, Keep(f, lines)) + OS.Copies(doc, Keep(g, lines))
  {
    if lines != [] {
      var front, last := lines[..|lines| - 1], lines[|lines| - 1];
      KeepSplits(f, g, front, doc);
      assert lines == front + [last];
      OS.CopiesConcat(doc, front, [last]);
      KeepSnoc(f, front, last);
      KeepSnoc(g, front, last);
      OS.CopiesConcat(doc, Keep(f, front), [last]);
      OS.CopiesConcat(doc, Keep(g, front), [last]);
    }
  }

  // ---------------------------------------------------------------- the invariant

  ghost predicate NoSwaps(om: OM.State) {
    (forall i :: i in om.accepted ==> i.Line?) && !om.hand.Creating? && !om.hand.ClosingOld?
  }

  /** The line whose append has reached the writer but whose Write has not returned. */
  function UnderWrite(s: State): seq<LogLine> {
    if s.inWrite && s.om.hand.Writing? then [s.om.hand.line] else []
  }

  /** The input side: nothing is skipped, and what passes is what is offered. */
  ghost predicate InputSide(c: Setup, s: State) {
    && s.consumed + s.logChan == s.produced
    && s.passed == Passing(c, s.consumed)
    && s.passed == s.om.offered
  }

  /** The hand-over: the writer was given exactly the encodable lines, in order. */
  ghost predicate HandOver(c: Setup, s: State) {
    && s.os.written == Keep(c.encodable, OM.OutputLines(s.om.outputs)) + UnderWrite(s)
    && s.unencodable == Keep(l => !c.encodable(l), OM.OutputLines(s.om.outputs))
    && (s.inWrite ==> s.om.hand.Writing? && c.encodable(s.om.hand.line))
  }

  /** Who may be where while whom is closing. */
  ghost predicate Shutdown(s: State) {
    && |s.os.threads| == 2 && !s.os.threads[0].MustFlush? && !s.os.threads[1].Exited?
    && (!s.inWrite ==> s.os.threads[1].Idle?)
    && (!s.om.closer.NotCalled? ==> s.phase.Returned?)
    && (s.om.loop.Done? ==> s.om.queue == [])
    && (!s.os.closing.Open? ==> s.om.closer.ClosingWriter? || s.om.closer.Returned?)
    && (s.om.closer.Returned? ==> s.os.closing.Closed?)
    && (s.os.closing.FinalSending? || s.os.closing.Closed? ==> OS.Emptied(s.os) && s.os.threads[0].Exited?)
  }

  ghost predicate Inv(c: Setup, s: State) {
    && OM.Inv(s.om) && NoSwaps(s.om)
    && OS.Accounted(c.writer, s.os)
    && InputSide(c, s) && HandOver(c, s) && Shutdown(s)
  }

  lemma PassingSnoc(c: Setup, raws: seq<LogLine>, raw: LogLine)
    ensures var line := c.parse(raw);
            Passing(c, raws + [raw]) == Passing(c, raws) + (if c.passes(line) then [line] else [])
  {
    assert (raws + [raw])[..|raws + [raw]| - 1] == raws;
  }

  /** A line passes for what it is once parsed, whatever came before it. */
  lemma {:induction false} PassingByPosition(c: Setup, raws: seq<LogLine>, lines: seq<LogLine>, marks: seq<bool>)
    requires |raws| == |lines| == |marks|
    requires forall i :: 0 <= i < |raws| ==> lines[i] == c.parse(raws[i]) && (marks[i] <==> c.passes(lines[i]))
    ensures Passing(c, raws) == Pick(lines, marks, true)
  {
    if raws != [] {
      var n := |raws| - 1;
      PassingByPosition(c, raws[..n], lines[..n], marks[..n]);
      PickSnoc(lines[..n], marks[..n], lines[n], marks[n], true);
      assert lines == lines[..n] + [lines[n]] && marks == marks[..n] + [marks[n]];
    }
  }

  lemma NoSwapStep(om: OM.State, m: OM.Event)
    requires OM.Queued(om) && NoSwaps(om) && OM.Enabled(om, m)
    requires !m.EnqueueSwap? && !m.Create? && !m.FinishSwap?
    ensures NoSwaps(OM.Apply(om, m))
  {
    if m.Pop? {
      assert om.accepted[|om.handled|] == om.queue[0] by {
        assert OM.InHand(om.hand) == [];
      }
      assert om.queue[0] in om.accepted;
    }
  }

  lemma ManagerSide(c: Setup, s: State, e: Event)
    requires OM.Inv(s.om) && NoSwaps(s.om) && Enabled(c, s, e)
    ensures OM.Inv(Apply(c, s, e).om) && NoSwaps(Apply(c, s, e).om)
  {
    var m := ManagerEvent(c, s, e);
    assert Apply(c, s, e).om == StepManager(s.om, m);
    if m.Some? {
      NoSwapEvent(c, s, e);
      ManagerStepInv(s.om, m.value);
    }
  }

  /** None of the events is a swap. */
  lemma NoSwapEvent(c: Setup, s: State, e: Event)
    requires NoSwaps(s.om) && Enabled(c, s, e) && ManagerEvent(c, s, e).Some?
    ensures var m := ManagerEvent(c, s, e).value; !m.EnqueueSwap? && !m.Create? && !m.FinishSwap?
  {
  }

  lemma ManagerStepInv(om: OM.State, m: OM.Event)
    requires OM.Inv(om) && NoSwaps(om) && OM.Enabled(om, m)
    requires !m.EnqueueSwap? && !m.Create? && !m.FinishSwap?
    ensures OM.Inv(OM.Apply(om, m)) && NoSwaps(OM.Apply(om, m))
  {
    OM.StepInv(om, m);
    NoSwapStep(om, m);
  }

  lemma WriterSide(c: Setup, s: State, e: Event)
    requires OS.Accounted(c.writer, s.os) && Enabled(c, s, e)
    ensures OS.Accounted(c.writer, Apply(c, s, e).os)
  {
    var w := WriterEvent(c, s, e);
    if w.Some? { OS.StepAccounted(c.writer, s.os, w.value); }
  }

  lemma StepInputSide(c: Setup, s: State, e: Event)
    requires InputSide(c, s) && Enabled(c, s, e)
    ensures InputSide(c, Apply(c, s, e))
  {
    if e.Produce? {
      assert s.consumed + (s.logChan + [e.raw]) == s.produced + [e.raw];
    } else if e.Consume? {
      ConsumeInputSide(c, s, e);
    } else {
      assert !e.Manager? || !e.e.Offer?;
    }
  }

  lemma ConsumeInputSide(c: Setup, s: State, e: Event)
    requires InputSide(c, s) && Enabled(c, s, e) && e.Consume?
    ensures InputSide(c, Apply(c, s, e))
  {
    var raw := s.logChan[0];
    assert (s.consumed + [raw]) + s.logChan[1..] == s.produced;
    PassingSnoc(c, s.consumed, raw);
    assert s.passed + [] == s.passed;
  }

  lemma FinishWriteHandOver(c: Setup, s: State, e: Event)
    requires HandOver(c, s) && Enabled(c, s, e) && ManagerEvent(c, s, e) == Some(OM.FinishWrite)
    requires e.StartWrite? || e.EndWrite?
    ensures HandOver(c, Apply(c, s, e))
  {
    var s', line := Apply(c, s, e), s.om.hand.line;
    var out := OM.OutputLines(s.om.outputs);
    assert OM.OutputLines(s'.om.outputs) == out + [line];
    KeepSnoc(c.encodable, out, line);
    KeepSnoc(l => !c.encodable(l), out, line);
    assert UnderWrite(s') == [];
    if e.StartWrite? {
      assert UnderWrite(s) == [];
    } else {
      assert UnderWrite(s) == [line];
      assert s'.os.written == Keep(c.encodable, out + [line]) + [];
    }
  }

  lemma StepHandOver(c: Setup, s: State, e: Event)
    requires HandOver(c, s) && Enabled(c, s, e)
    ensures HandOver(c, Apply(c, s, e))
  {
    var s' := Apply(c, s, e);
    if e.EndWrite? || (e.StartWrite? && !c.encodable(s.om.hand.line)) {
      FinishWriteHandOver(c, s, e);
    } else if e.StartWrite? {
      assert UnderWrite(s) == [] && UnderWrite(s') == [s.om.hand.line];
      assert s.os.written == Keep(c.encodable, OM.OutputLines(s.om.outputs)) + [];
    } else {
      assert s'.om.outputs == s.om.outputs && s'.os.written == s.os.written && UnderWrite(s') == UnderWrite(s);
    }
  }

  lemma WriterShutdown(c: Setup, s: State, e: Event)
    requires OM.Lifecycle(s.om) && Shutdown(s) && Enabled(c, s, e) && (e.Writer? || e.StartWrite?)
    requires s.inWrite ==> s.om.hand.Writing?
    ensures Shutdown(Apply(c, s, e))
  {
    assert Apply(c, s, e).om == StepManager(s.om, ManagerEvent(c, s, e));
    if e.Writer? && (s.os.closing.FinalSending? || s.os.closing.Closed?) {
      OS.StepEmptied(c.writer, s.os, e.w);
    } else if e.Writer? && e.w.FinalTake? {
      FinalTakeEmpties(c.writer, s.os);
    }
  }

  lemma FinalTakeEmpties(c: OS.Config, os: OS.State)
    requires OS.Enabled(c, os, OS.FinalTake) && |os.threads| == 2 && os.threads[1].Idle?
    ensures OS.Emptied(OS.Apply(c, os, OS.FinalTake))
  {
    var os' := OS.Apply(c, os, OS.FinalTake);
    assert OS.HeldBy(os'.threads[0]) == [] && OS.HeldBy(os'.threads[1]) == [];
  }

  lemma ManagerShutdown(c: Setup, s: State, e: Event)
    requires OM.Lifecycle(s.om) && Shutdown(s) && Enabled(c, s, e) && !e.Writer? && !e.StartWrite?
    ensures Shutdown(Apply(c, s, e))
  {
  }

  lemma StepInv(c: Setup, s: State, e: Event)
    requires Inv(c, s) && Enabled(c, s, e)
    ensures Inv(c, Apply(c, s, e))
  {
    ManagerSide(c, s, e);
    WriterSide(c, s, e);
    StepInputSide(c, s, e);
    StepHandOver(c, s, e);
    if e.Writer? || e.StartWrite? { WriterShutdown(c, s, e); } else { ManagerShutdown(c, s, e); }
  }

  lemma {:induction false} RunInv(c: Setup, s: State, run: seq<Event>)
    requires Inv(c, s) && Run(c, s, run)
    ensures Inv(c, After(c, s, run))
    decreases |run|
  {
    if run != [] {
      StepInv(c, s, run[0]);
      RunInv(c, Apply(c, s, run[0]), run[1..]);
    }
  }

  lemma StartInv(c: Setup)
    ensures Inv(c, Start())
  {
    OM.StartInv();
    OS.StartAccounted(c.writer, 1);
    assert Keep(c.encodable, OM.OutputLines([])) == [] && OM.OutputLines([]) == [];
  }

  // ---------------------------------------------------------------- the accounting

  lemma {:induction false} LinesOfConcat(a: seq<OM.Item>, b: seq<OM.Item>)
    ensures OM.LinesOf(a + b) == OM.LinesOf(a) + OM.LinesOf(b)
  {
    if b == [] {
      assert a + b == a;
    } else {
      var front, last := b[..|b| - 1], b[|b| - 1];
      assert a + b == (a + front) + [last];
      assert b == front + [last];
      OM.LinesOfSnoc(a + front, last);
      OM.LinesOfSnoc(front, last);
      LinesOfConcat(a, front);
    }
  }

  /** The line the writer goroutine holds and has not handed over. */
  function NotHandedOver(s: State): seq<LogLine> {
    if s.om.hand.Writing? && !s.inWrite then [s.om.hand.line] else []
  }

  lemma AcceptedLines(s: State, doc: LogLine)
    requires OM.Inv(s.om) && NoSwaps(s.om)
    ensures OS.Copies(doc, OM.LinesOf(s.om.accepted))
            == OS.Copies(doc, OM.OutputLines(s.om.outputs))
               + OS.Copies(doc, if s.om.hand.Writing? then [s.om.hand.line] else [])
               + OS.Copies(doc, OM.LinesOf(s.om.queue))
  {
    ThreeParts(OM.Items(s.om.handled), OM.InHand(s.om.hand), s.om.queue, doc);
    LineInHand(s.om.hand);
    OM.ReplayShape(s.om.handled);
  }

  lemma ThreeParts(a: seq<OM.Item>, b: seq<OM.Item>, d: seq<OM.Item>, doc: LogLine)
    ensures OS.Copies(doc, OM.LinesOf(a + b + d))
            == OS.Copies(doc, OM.LinesOf(a)) + OS.Copies(doc, OM.LinesOf(b)) + OS.Copies(doc, OM.LinesOf(d))
  {
    LinesOfConcat(a + b, d);
    LinesOfConcat(a, b);
    OS.CopiesConcat(doc, OM.LinesOf(a) + OM.LinesOf(b), OM.LinesOf(d));
    OS.CopiesConcat(doc, OM.LinesOf(a), OM.LinesOf(b));
  }

  lemma LineInHand(hand: OM.Hand)
    requires !hand.Creating?
    ensures OM.LinesOf(OM.InHand(hand)) == if hand.Writing? then [hand.line] else []
  {
    if hand.Writing? {
      OM.LinesOfSnoc([], OM.Line(hand.line));
      assert OM.InHand(hand) == [] + [OM.Line(hand.line)];
    }
  }

  lemma HandedOver(c: Setup, s: State, doc: LogLine)
    requires HandOver(c, s)
    ensures OS.Copies(doc, s.os.written) + OS.Copies(doc, s.unencodable) + OS.Copies(doc, NotHandedOver(s))
            == OS.Copies(doc, OM.OutputLines(s.om.outputs))
               + OS.Copies(doc, if s.om.hand.Writing? then [s.om.hand.line] else [])
  {
    var out := OM.OutputLines(s.om.outputs);
    KeepSplits(c.encodable, l => !c.encodable(l), out, doc);
    OS.CopiesConcat(doc, Keep(c.encodable, out), UnderWrite(s));
  }

  /** At every step of every run, each copy of a line that passed the filters is in exactly one
      place: still queued, in hand, unencodable, dropped by the queue, or somewhere in the writer
      (buffered, queued for retry, in flight, acknowledged, dropped there). */
  lemma EveryLineAccounted(c: Setup, run: seq<Event>, doc: LogLine)
    requires Run(c, Start(), run)
    ensures var s := After(c, Start(), run);
            && s.passed == Passing(c, s.consumed) && s.consumed + s.logChan == s.produced
            && OS.Copies(doc, s.passed)
               == OS.Whereabouts(s.os, doc) + OS.Copies(doc, NotHandedOver(s)) + OS.Copies(doc, s.unencodable)
                  + OS.Copies(doc, OM.LinesOf(s.om.queue)) + OS.Copies(doc, s.om.refused)
            && s.om.dropped == |s.om.refused| && s.os.pendingDropped == |s.os.dropped|
  {
    StartInv(c);
    RunInv(c, Start(), run);
    LineAccounted(c, After(c, Start(), run), doc);
  }

  /** The writer gets the lines that can be encoded, and only those that cannot are set aside. */
  lemma SetAsideExactly(c: Setup, run: seq<Event>)
    requires Run(c, Start(), run)
    ensures var s := After(c, Start(), run);
            && (forall line :: line in s.unencodable ==> !c.encodable(line))
            && (forall line :: line in s.os.written ==> c.encodable(line))
  {
    StartInv(c);
    RunInv(c, Start(), run);
    var s := After(c, Start(), run);
    KeepOnly(c.encodable, OM.OutputLines(s.om.outputs));
    KeepOnly(l => !c.encodable(l), OM.OutputLines(s.om.outputs));
  }

  lemma LineAccounted(c: Setup, s: State, doc: LogLine)
    requires Inv(c, s)
    ensures OS.Copies(doc, s.passed)
            == OS.Whereabouts(s.os, doc) + OS.Copies(doc, NotHandedOver(s)) + OS.Copies(doc, s.unencodable)
               + OS.Copies(doc, OM.LinesOf(s.om.queue)) + OS.Copies(doc, s.om.refused)
  {
    AcceptedLines(s, doc);
    HandedOver(c, s, doc);
    assert OS.Copies(doc, s.os.written) == OS.Whereabouts(s.os, doc);
    assert multiset(s.om.offered)[doc] == (multiset(OM.LinesOf(s.om.accepted)) + multiset(s.om.refused))[doc];
  }

  lemma ClosedLineAccounted(c: Setup, s: State, doc: LogLine)
    requires Inv(c, s) && s.om.closer.Returned?
    ensures OS.Copies(doc, s.passed)
            == OS.Copies(doc, s.os.acked) + OS.Copies(doc, s.os.dropped)
               + OS.Copies(doc, s.om.refused) + OS.Copies(doc, s.unencodable)
  {
    LineAccounted(c, s, doc);
    OS.NoneInFlight(s.os.threads);
    assert s.om.queue == [] && OM.LinesOf(s.om.queue) == [] && NotHandedOver(s) == [];
  }

  lemma FourParts(whole: seq<LogLine>, a: seq<LogLine>, b: seq<LogLine>, d: seq<LogLine>, e: seq<LogLine>)
    requires forall doc :: OS.Copies(doc, whole)
               == OS.Copies(doc, a) + OS.Copies(doc, b) + OS.Copies(doc, d) + OS.Copies(doc, e)
    ensures multiset(whole) == multiset(a) + multiset(b) + multiset(d) + multiset(e)
    ensures |whole| == |a| + |b| + |d| + |e|
  {
    var all := a + b + d + e;
    forall doc ensures multiset(whole)[doc] == multiset(all)[doc] {
      assert OS.Copies(doc, whole) == OS.Copies(doc, a) + OS.Copies(doc, b) + OS.Copies(doc, d) + OS.Copies(doc, e);
      OS.CopiesConcat(doc, a + b + d, e);
      OS.CopiesConcat(doc, a + b, d);
      OS.CopiesConcat(doc, a, b);
    }
    assert multiset(whole) == multiset(all);
    assert |multiset(whole)| == |multiset(all)|;
    assert multiset(all) == multiset(a + b + d) + multiset(e);
  }

  /** After the shutdown closed the output manager, and with it the writer, every passing line was
      acknowledged, or is one of the counted drops, or could not be encoded. */
  lemma NothingLostSilently(c: Setup, run: seq<Event>)
    requires Run(c, Start(), run) && After(c, Start(), run).om.closer.Returned?
    ensures var s := After(c, Start(), run);
            && multiset(s.passed)
               == multiset(s.os.acked) + multiset(s.os.dropped) + multiset(s.om.refused) + multiset(s.unencodable)
            && |s.passed| == |s.os.acked| + s.os.pendingDropped + s.om.dropped + |s.unencodable|
  {
    StartInv(c);
    RunInv(c, Start(), run);
    var s := After(c, Start(), run);
    forall doc ensures OS.Copies(doc, s.passed)
                       == OS.Copies(doc, s.os.acked) + OS.Copies(doc, s.os.dropped)
                          + OS.Copies(doc, s.om.refused) + OS.Copies(doc, s.unencodable)
    {
      ClosedLineAccounted(c, s, doc);
    }
    FourParts(s.passed, s.os.acked, s.os.dropped, s.om.refused, s.unencodable);
  }

  // ---------------------------------------------------------------- when everything is delivered

  /** The writer's server takes every bulk, and whenever a line is offered to the output manager fewer
      than 4096 of the accepted ones wait. */
  predicate HealthyRun(c: Setup, s: State, run: seq<Event>)
    requires Run(c, s, run)
    decreases |run|
  {
    run != [] ==>
      && HealthyStep(c, s, run[0])
      && HealthyRun(c, Apply(c, s, run[0]), run[1..])
  }

  predicate HealthyStep(c: Setup, s: State, e: Event) {
    && (e.Writer? && (e.w.SendDone? || e.w.FinalDone?) ==> e.w.script != [] && BulkSend.Takes(e.w.script[0].response))
    && (ManagerEvent(c, s, e).Some? && ManagerEvent(c, s, e).value.Offer? ==>
          |s.om.accepted| - |s.om.handled| - |OM.InHand(s.om.hand)| < 4096)
  }

  ghost predicate Clear(s: State) {
    OS.Smooth(s.os) && s.om.refused == [] && s.om.dropped == 0
  }

  lemma StepClear(c: Setup, s: State, e: Event)
    requires Inv(c, s) && Clear(s) && Enabled(c, s, e) && HealthyStep(c, s, e)
    ensures Clear(Apply(c, s, e))
  {
    var m, w := ManagerEvent(c, s, e), WriterEvent(c, s, e);
    if m.Some? { OM.RoomStep(s.om, m.value); }
    if w.Some? { OS.StepSmooth(c.writer, s.os, w.value); }
  }

  lemma {:induction false} RunClear(c: Setup, s: State, run: seq<Event>)
    requires Inv(c, s) && Clear(s) && Run(c, s, run) && HealthyRun(c, s, run)
    ensures Clear(After(c, s, run))
    decreases |run|
  {
    if run != [] {
      StepInv(c, s, run[0]);
      StepClear(c, s, run[0]);
      RunClear(c, Apply(c, s, run[0]), run[1..]);
    }
  }

  /** With room in the queue and a server that takes every bulk, after the shutdown exactly the passing
      lines, less those that could not be encoded, have been acknowledged, and nothing was dropped. */
  lemma HealthyPathDeliversAll(c: Setup, run: seq<Event>)
    requires Run(c, Start(), run) && HealthyRun(c, Start(), run) && After(c, Start(), run).om.closer.Returned?
    ensures var s := After(c, Start(), run);
            && multiset(s.passed) == multiset(s.os.acked) + multiset(s.unencodable)
            && s.om.dropped == 0 && s.os.pendingDropped == 0
  {
    StartInv(c);
    RunClear(c, Start(), run);
    NothingLostSilently(c, run);
  }
}
