// The output manager as a state machine: producers, hot-reload requests, the writer goroutine
// and Close, in every interleaving (cmd/output_manager.go).
module OutputQueue {
  import opened LogLines
  import opened Seqs

  const OUTPUT_QUEUE_BUFFER: nat := 4096

  datatype Item =
    | Line(line: LogLine)
    | Swap(config: string)

  /** What the writer goroutine did with an item. */
  datatype Outcome =
    | Wrote(line: LogLine)
    | Swapped(config: string)
    | SwapFailed(config: string)

  /** What the writer goroutine is in the middle of. */
  datatype Hand =
    | Nothing
    | Writing(line: LogLine)
    | Creating(config: string)
    | ClosingOld(previous: nat)

  datatype Loop = Running | Draining | Done

  datatype Closer = NotCalled | Waiting | ClosingWriter(writer: nat) | Returned

  /** A line and the number of the writer it went to. Writers are numbered as they are made
      current: the initial one is 0. */
  datatype Output = Output(writer: nat, line: LogLine)

  datatype State = State(
    queue: seq<Item>, dropped: nat, writer: nat, hand: Hand, loop: Loop, closer: Closer,
    outputs: seq<Output>, closed: seq<nat>, handled: seq<Outcome>,
    offered: seq<LogLine>, refused: seq<LogLine>, accepted: seq<Item>,
    cancelMark: nat, exitMark: nat)

  datatype Event =
    | Offer(line: LogLine)              // Write
    | EnqueueSwap(config: string)       // Swap, once there is room
    | AbandonSwap                       // Swap, after the cancel
    | CloseCancel
    | Pop
    | FinishWrite
    | Create(created: bool)
    | FinishSwap
    | BeginDrain
    | ExitLoop
    | ReadWriter
    | CloseWriter

  function Start(): State {
    State([], 0, 0, Nothing, Running, NotCalled, [], [], [], [], [], [], 0, 0)
  }

  predicate Enabled(s: State, e: Event) {
    match e
    case Offer(_) => true
    case EnqueueSwap(_) => |s.queue| < OUTPUT_QUEUE_BUFFER
    case AbandonSwap => !s.closer.NotCalled?
    case CloseCancel => s.closer.NotCalled?
    case Pop => s.hand.Nothing? && !s.loop.Done? && s.queue != []
    case FinishWrite => s.hand.Writing?
    case Create(_) => s.hand.Creating?
    case FinishSwap => s.hand.ClosingOld?
    case BeginDrain => s.hand.Nothing? && s.loop.Running? && !s.closer.NotCalled?
    case ExitLoop => s.hand.Nothing? && s.loop.Draining? && s.queue == []
    case ReadWriter => s.closer.Waiting? && s.loop.Done?
    case CloseWriter => s.closer.ClosingWriter?
  }

  function Apply(s: State, e: Event): State
    requires Enabled(s, e)
  {
    match e
    case Offer(line) =>
      if |s.queue| < OUTPUT_QUEUE_BUFFER then
        s.(queue := s.queue + [Line(line)], accepted := s.accepted + [Line(line)], offered := s.offered + [line])
      else
        s.(dropped := s.dropped + 1, refused := s.refused + [line], offered := s.offered + [line])
    case EnqueueSwap(config) => s.(queue := s.queue + [Swap(config)], accepted := s.accepted + [Swap(config)])
    case AbandonSwap => s
    case CloseCancel => s.(closer := Waiting, cancelMark := |s.accepted|)
    case Pop =>
      s.(queue := s.queue[1..],
         hand := match s.queue[0] case Line(line) => Writing(line) case Swap(config) => Creating(config))
    case FinishWrite =>
      s.(hand := Nothing, outputs := s.outputs + [Output(s.writer, s.hand.line)],
         handled := s.handled + [Wrote(s.hand.line)])
    case Create(created) =>
      if created then
        s.(hand := ClosingOld(s.writer), writer := s.writer + 1, handled := s.handled + [Swapped(s.hand.config)])
      else
        s.(hand := Nothing, handled := s.handled + [SwapFailed(s.hand.config)])
    case FinishSwap => s.(hand := Nothing, closed := s.closed + [s.hand.previous])
    case BeginDrain => s.(loop := Draining)
    case ExitLoop => s.(loop := Done, exitMark := |s.accepted|)
    case ReadWriter => s.(closer := ClosingWriter(s.writer))
    case CloseWriter => s.(closer := Returned, closed := s.closed + [s.closer.writer])
  }

  predicate Run(s: State, run: seq<Event>)
    decreases |run|
  {
    run != [] ==> Enabled(s, run[0]) && Run(Apply(s, run[0]), run[1..])
  }

  function After(s: State, run: seq<Event>): State
    requires Run(s, run)
    decreases |run|
  {
    if run == [] then s else After(Apply(s, run[0]), run[1..])
  }

  // ---------------------------------------------------------------- the sequential reference

  /** What a program without goroutines would do with the same outcomes, one after the other. */
  datatype Sequential = Sequential(writer: nat, outputs: seq<Output>, closed: seq<nat>)

  function Replay(handled: seq<Outcome>): Sequential {
    if handled == [] then Sequential(0, [], [])
    else
      var before := Replay(handled[..|handled| - 1]);
      match handled[|handled| - 1]
      case Wrote(line) => before.(outputs := before.outputs + [Output(before.writer, line)])
      case Swapped(_) => before.(writer := before.writer + 1, closed := before.closed + [before.writer])
      case SwapFailed(_) => before
  }

  function ItemOf(o: Outcome): Item {
    match o
    case Wrote(line) => Line(line)
    case Swapped(config) => Swap(config)
    case SwapFailed(config) => Swap(config)
  }

  function Items(handled: seq<Outcome>): (r: seq<Item>)
    ensures |r| == |handled|
  {
    seq(|handled|, i requires 0 <= i < |handled| => ItemOf(handled[i]))
  }

  function LinesOf(items: seq<Item>): seq<LogLine> {
    if items == [] then []
    else LinesOf(items[..|items| - 1]) + (match items[|items| - 1] case Line(line) => [line] case Swap(_) => [])
  }

  function OutputLines(outputs: seq<Output>): (r: seq<LogLine>)
    ensures |r| == |outputs|
  {
    seq(|outputs|, i requires 0 <= i < |outputs| => outputs[i].line)
  }

  function UpTo(n: nat): (r: seq<nat>)
    ensures |r| == n && forall i :: 0 <= i < n ==> r[i] == i
  {
    seq(n, i => i)
  }

  /** The reference closes the writers in order, each once, writes every line once, in order,
      and never to a writer that an earlier swap closed. */
  lemma {:induction false} ReplayShape(handled: seq<Outcome>)
    ensures Replay(handled).closed == UpTo(Replay(handled).writer)
    ensures OutputLines(Replay(handled).outputs) == LinesOf(Items(handled))
    ensures forall o :: o in Replay(handled).outputs ==> o.writer <= Replay(handled).writer
    ensures forall i, j :: 0 <= i < j < |Replay(handled).outputs| ==>
              Replay(handled).outputs[i].writer <= Replay(handled).outputs[j].writer
  {
    if handled != [] {
      var front := handled[..|handled| - 1];
      ReplayShape(front);
      assert Items(handled)[..|handled| - 1] == Items(front);
    }
  }

  lemma LinesOfSnoc(items: seq<Item>, last: Item)
    ensures LinesOf(items + [last]) == LinesOf(items) + (match last case Line(line) => [line] case Swap(_) => [])
  {
    assert (items + [last])[..|items + [last]| - 1] == items;
  }

  lemma ReplaySnoc(handled: seq<Outcome>, last: Outcome)
    ensures var before := Replay(handled);
            Replay(handled + [last]) ==
              match last
              case Wrote(line) => before.(outputs := before.outputs + [Output(before.writer, line)])
              case Swapped(_) => before.(writer := before.writer + 1, closed := before.closed + [before.writer])
              case SwapFailed(_) => before
    ensures Items(handled + [last]) == Items(handled) + [ItemOf(last)]
  {
    assert (handled + [last])[..|handled + [last]| - 1] == handled;
  }

  // ---------------------------------------------------------------- the invariant

  function InHand(hand: Hand): seq<Item> {
    match hand
    case Writing(line) => [Line(line)]
    case Creating(config) => [Swap(config)]
    case _ => []
  }

  /** Writers closed so far: those the reference closed, less the one whose Close is under way,
      and the last one once Close has returned. */
  function ClosedNow(s: State): seq<nat> {
    UpTo(if s.hand.ClosingOld? && s.writer > 0 then s.writer - 1
         else if s.closer.Returned? then s.writer + 1 else s.writer)
  }

  ghost predicate Refines(s: State) {
    && s.writer == Replay(s.handled).writer
    && s.outputs == Replay(s.handled).outputs
    && s.closed == ClosedNow(s)
    && (s.hand.ClosingOld? ==> s.writer == s.hand.previous + 1)
  }

  ghost predicate Queued(s: State) {
    && s.accepted == Items(s.handled) + InHand(s.hand) + s.queue
    && |s.queue| <= OUTPUT_QUEUE_BUFFER
    && Subseq(LinesOf(s.accepted), s.offered)
    && multiset(s.offered) == multiset(LinesOf(s.accepted)) + multiset(s.refused)
    && s.dropped == |s.refused|
  }

  ghost predicate Lifecycle(s: State) {
    && (s.loop.Done? ==> s.hand.Nothing? && |s.handled| == s.exitMark)
    && (!s.loop.Running? ==> !s.closer.NotCalled?)
    && (!s.closer.NotCalled? ==> s.cancelMark <= |s.accepted|)
    && (s.loop.Done? ==> s.cancelMark <= s.exitMark)
    && (s.closer.ClosingWriter? ==> s.loop.Done? && s.closer.writer == s.writer)
    && (s.closer.Returned? ==> s.loop.Done?)
  }

  ghost predicate Inv(s: State) {
    Refines(s) && Queued(s) && Lifecycle(s)
  }

  lemma OfferQueued(s: State, e: Event)
    requires Queued(s) && (e.Offer? || e.EnqueueSwap?) && Enabled(s, e)
    ensures Queued(Apply(s, e))
  {
    var item := if e.Offer? then Line(e.line) else Swap(e.config);
    LinesOfSnoc(s.accepted, item);
    AtTheEnd(Items(s.handled), InHand(s.hand), s.queue, item);
    if e.Offer? {
      OneMoreLine(LinesOf(s.accepted), s.offered, s.refused, e.line);
    } else {
      assert LinesOf(s.accepted) + [] == LinesOf(s.accepted);
    }
  }

  lemma AtTheEnd(a: seq<Item>, b: seq<Item>, queue: seq<Item>, item: Item)
    ensures a + b + (queue + [item]) == (a + b + queue) + [item]
  {
  }

  /** A further line is accepted, or refused. */
  lemma OneMoreLine(lines: seq<LogLine>, offered: seq<LogLine>, refused: seq<LogLine>, line: LogLine)
    requires Subseq(lines, offered) && multiset(offered) == multiset(lines) + multiset(refused)
    ensures Subseq(lines, offered + [line]) && Subseq(lines + [line], offered + [line])
    ensures multiset(offered + [line]) == multiset(lines + [line]) + multiset(refused)
    ensures multiset(offered + [line]) == multiset(lines) + multiset(refused + [line])
  {
    SubseqRefl([line]);
    SubseqConcat(lines, offered, [line], [line]);
    SubseqConcat(lines, offered, [], [line]);
    assert lines + [] == lines;
  }

  lemma HandleQueued(s: State, e: Event)
    requires Queued(s) && (e.Pop? || e.FinishWrite? || e.Create? || e.FinishSwap?) && Enabled(s, e)
    ensures Queued(Apply(s, e))
  {
    var s' := Apply(s, e);
    if e.Pop? {
      PopMoves(s);
    } else if e.FinishWrite? || e.Create? {
      OutOfHand(s.handled, s.hand, s'.handled[|s.handled|], s.queue);
    }
  }

  lemma PopMoves(s: State)
    requires Enabled(s, Pop)
    ensures var s' := Apply(s, Pop);
            Items(s.handled) + InHand(s.hand) + s.queue == Items(s'.handled) + InHand(s'.hand) + s'.queue
  {
    var s' := Apply(s, Pop);
    assert InHand(s.hand) == [] && s.queue == InHand(s'.hand) + s'.queue;
  }

  lemma OutOfHand(handled: seq<Outcome>, hand: Hand, outcome: Outcome, queue: seq<Item>)
    requires [ItemOf(outcome)] == InHand(hand)
    ensures Items(handled + [outcome]) + [] + queue == Items(handled) + InHand(hand) + queue
  {
    ReplaySnoc(handled, outcome);
  }

  lemma UpToSnoc(n: nat)
    ensures UpTo(n) + [n] == UpTo(n + 1)
  {
  }

  lemma HandledRefines(s: State, e: Event)
    requires Inv(s) && (e.FinishWrite? || e.Create?) && Enabled(s, e)
    ensures Refines(Apply(s, e))
  {
    if e.FinishWrite? {
      ReplaySnoc(s.handled, Wrote(s.hand.line));
    } else if e.created {
      ReplaySnoc(s.handled, Swapped(s.hand.config));
    } else {
      ReplaySnoc(s.handled, SwapFailed(s.hand.config));
    }
  }

  lemma ClosedRefines(s: State, e: Event)
    requires Inv(s) && (e.FinishSwap? || e.CloseWriter?) && Enabled(s, e)
    ensures Refines(Apply(s, e))
  {
    UpToSnoc(if e.FinishSwap? then s.writer - 1 else s.writer);
  }

  lemma OthersRefine(s: State, e: Event)
    requires Inv(s) && Enabled(s, e)
    requires !(e.FinishWrite? || e.Create? || e.FinishSwap? || e.CloseWriter?)
    ensures Refines(Apply(s, e))
  {
    var s' := Apply(s, e);
    assert s'.writer == s.writer && s'.outputs == s.outputs && s'.closed == s.closed && s'.handled == s.handled;
    assert s'.hand.ClosingOld? <==> s.hand.ClosingOld?;
    assert ClosedNow(s') == ClosedNow(s);
  }

  lemma StepRefines(s: State, e: Event)
    requires Inv(s) && Enabled(s, e)
    ensures Refines(Apply(s, e))
  {
    match e
    case FinishWrite => HandledRefines(s, e);
    case Create(_) => HandledRefines(s, e);
    case FinishSwap => ClosedRefines(s, e);
    case CloseWriter => ClosedRefines(s, e);
    case _ => OthersRefine(s, e);
  }

  lemma StepLifecycle(s: State, e: Event)
    requires Queued(s) && Lifecycle(s) && Enabled(s, e)
    ensures Lifecycle(Apply(s, e))
  {
    if e.ExitLoop? { assert s.accepted == Items(s.handled); }
  }

  lemma StepInv(s: State, e: Event)
    requires Inv(s) && Enabled(s, e)
    ensures Inv(Apply(s, e))
  {
    StepRefines(s, e);
    StepLifecycle(s, e);
    if e.Offer? || e.EnqueueSwap? {
      OfferQueued(s, e);
    } else if e.Pop? || e.FinishWrite? || e.Create? || e.FinishSwap? {
      HandleQueued(s, e);
    }
  }

  lemma {:induction false} RunInv(s: State, run: seq<Event>)
    requires Inv(s) && Run(s, run)
    ensures Inv(After(s, run))
    decreases |run|
  {
    if run != [] {
      StepInv(s, run[0]);
      RunInv(Apply(s, run[0]), run[1..]);
    }
  }

  lemma StartInv()
    ensures Inv(Start())
  {
    assert UpTo(0) == [];
  }

  // ---------------------------------------------------------------- the results

  /** In every interleaving the outputs are those of the sequential reference on the handled
      prefix, and handled, in hand and queued items are the accepted ones, each once, in order. */
  lemma RefinesSequential(run: seq<Event>)
    requires Run(Start(), run)
    ensures var s := After(Start(), run);
            && s.outputs == Replay(s.handled).outputs
            && OutputLines(s.outputs) == LinesOf(Items(s.handled))
            && s.accepted == Items(s.handled) + InHand(s.hand) + s.queue
            && Subseq(LinesOf(s.accepted), s.offered)
            && |s.offered| == |LinesOf(s.accepted)| + s.dropped
            && |s.queue| <= OUTPUT_QUEUE_BUFFER
  {
    StartInv();
    RunInv(Start(), run);
    var s := After(Start(), run);
    ReplayShape(s.handled);
    assert |multiset(s.offered)| == |multiset(LinesOf(s.accepted)) + multiset(s.refused)|;
  }

  /** Whenever a line is offered, fewer than 4096 of the accepted items wait. */
  predicate RoomRun(s: State, run: seq<Event>)
    requires Run(s, run)
    decreases |run|
  {
    run != [] ==>
      && (run[0].Offer? ==> |s.accepted| - |s.handled| - |InHand(s.hand)| < 4096)
      && RoomRun(Apply(s, run[0]), run[1..])
  }

  lemma {:induction false} RoomKeeps(s: State, run: seq<Event>)
    requires Inv(s) && Run(s, run) && RoomRun(s, run)
    ensures After(s, run).refused == s.refused && After(s, run).dropped == s.dropped
    decreases |run|
  {
    if run != [] {
      StepInv(s, run[0]);
      RoomStep(s, run[0]);
      RoomKeeps(Apply(s, run[0]), run[1..]);
    }
  }

  lemma RoomStep(s: State, e: Event)
    requires Queued(s) && Enabled(s, e)
    requires e.Offer? ==> |s.accepted| - |s.handled| - |InHand(s.hand)| < 4096
    ensures Apply(s, e).refused == s.refused && Apply(s, e).dropped == s.dropped
    ensures e.Offer? ==> Apply(s, e).accepted == s.accepted + [Line(e.line)]
  {
    assert |Items(s.handled) + InHand(s.hand) + s.queue| == |s.handled| + |InHand(s.hand)| + |s.queue|;
  }

  /** A line is refused only when 4096 accepted items wait: with room at every offer none ever is, and
      every line offered is accepted. */
  lemma NothingRefusedWithRoom(run: seq<Event>)
    requires Run(Start(), run) && RoomRun(Start(), run)
    ensures var s := After(Start(), run);
            s.refused == [] && s.dropped == 0 && multiset(LinesOf(s.accepted)) == multiset(s.offered)
  {
    StartInv();
    RunInv(Start(), run);
    RoomKeeps(Start(), run);
  }

  /** How many swaps succeeded. */
  function Swaps(handled: seq<Outcome>): nat {
    if handled == [] then 0
    else Swaps(handled[..|handled| - 1]) + (if handled[|handled| - 1].Swapped? then 1 else 0)
  }

  lemma {:induction false} WriterIsSwaps(handled: seq<Outcome>)
    ensures Replay(handled).writer == Swaps(handled)
  {
    if handled != [] { WriterIsSwaps(handled[..|handled| - 1]); }
  }

  /** Each line goes to the writer that was current when it was handled: after as many successful
      swaps as had been handled before it. */
  lemma {:induction false} LineGoesToCurrent(handled: seq<Outcome>, i: nat)
    requires i < |handled| && handled[i].Wrote?
    ensures var n := |LinesOf(Items(handled[..i]))|;
            && n < |Replay(handled).outputs|
            && Replay(handled).outputs[n] == Output(Swaps(handled[..i]), handled[i].line)
  {
    var front := handled[..|handled| - 1];
    assert handled == front + [handled[|handled| - 1]];
    ReplaySnoc(front, handled[|handled| - 1]);
    if i == |front| {
      assert handled[..i] == front;
      WriterIsSwaps(front);
      ReplayShape(front);
    } else {
      assert front[..i] == handled[..i];
      LineGoesToCurrent(front, i);
    }
  }

  /** No line is ever written to a closed writer, or to one whose Close has begun. */
  lemma NoWriteToClosed(run: seq<Event>)
    requires Run(Start(), run) && After(Start(), run).hand.Writing?
    ensures var s := After(Start(), run);
            s.writer !in s.closed && !s.closer.ClosingWriter? && !s.closer.Returned?
  {
    StartInv();
    RunInv(Start(), run);
  }

  /** When Close returns, every writer that was ever current has been closed exactly once, and
      everything enqueued before the cancel has been handled. */
  lemma CloseCompletes(run: seq<Event>)
    requires Run(Start(), run) && After(Start(), run).closer.Returned?
    ensures var s := After(Start(), run);
            && s.closed == UpTo(s.writer + 1)
            && s.cancelMark <= |s.handled| <= |s.accepted|
            && Items(s.handled)[..s.cancelMark] == s.accepted[..s.cancelMark]
  {
    StartInv();
    RunInv(Start(), run);
    var s := After(Start(), run);
    assert s.accepted[..s.cancelMark] == Items(s.handled)[..s.cancelMark];
  }

  /** What stays in the queue for good, once the writer goroutine is gone, is exactly what was
      accepted after its last look; nothing is stranded if and only if nothing was. */
  lemma StrandedExactly(run: seq<Event>)
    requires Run(Start(), run) && After(Start(), run).loop.Done?
    ensures var s := After(Start(), run);
            && s.exitMark <= |s.accepted|
            && s.queue == s.accepted[s.exitMark..]
            && (s.queue == [] <==> |s.accepted| == s.exitMark)
  {
    StartInv();
    RunInv(Start(), run);
    var s := After(Start(), run);
    QueueAfterExit(s);
  }

  lemma QueueAfterExit(s: State)
    requires Queued(s) && s.hand.Nothing? && |s.handled| == s.exitMark
    ensures s.exitMark <= |s.accepted| && s.queue == s.accepted[s.exitMark..]
  {
    assert s.accepted == Items(s.handled) + s.queue;
  }
}
