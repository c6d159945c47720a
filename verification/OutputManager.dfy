// The output manager's methods (cmd/output_manager.go), each proved to be an uninterrupted run
// of the state machine in OutputQueue.
module OutputManager {
  import opened LogLines
  import opened Seqs
  import opened OutputQueue

  /** The steps the writer goroutine takes for one item. */
  function HandleEvents(item: Item, created: bool): seq<Event> {
    match item
    case Line(_) => [Pop, FinishWrite]
    case Swap(_) => if created then [Pop, Create(true), FinishSwap] else [Pop, Create(false)]
  }

  /** The outcome recorded for it. */
  function OutcomeOf(item: Item, created: bool): Outcome {
    match item
    case Line(line) => Wrote(line)
    case Swap(config) => if created then Swapped(config) else SwapFailed(config)
  }

  lemma RunLast(s: State, e: Event)
    requires Enabled(s, e)
    ensures Run(s, [e]) && After(s, [e]) == Apply(s, e)
  {
    assert [e][1..] == [];
    assert Run(Apply(s, e), []);
  }

  lemma RunTwo(s: State, a: Event, b: Event)
    requires Enabled(s, a) && Enabled(Apply(s, a), b)
    ensures Run(s, [a, b]) && After(s, [a, b]) == Apply(Apply(s, a), b)
  {
    assert [a, b][1..] == [b];
    RunLast(Apply(s, a), b);
  }

  lemma RunThree(s: State, a: Event, b: Event, d: Event)
    requires Enabled(s, a) && Enabled(Apply(s, a), b) && Enabled(Apply(Apply(s, a), b), d)
    ensures Run(s, [a, b, d]) && After(s, [a, b, d]) == Apply(Apply(Apply(s, a), b), d)
  {
    assert [a, b, d][1..] == [b, d];
    RunTwo(Apply(s, a), b, d);
  }

  lemma MovesOne(handled: seq<Outcome>, queue: seq<Item>, created: bool)
    requires queue != []
    ensures Items(handled + [OutcomeOf(queue[0], created)]) + queue[1..] == Items(handled) + queue
  {
    ReplaySnoc(handled, OutcomeOf(queue[0], created));
    assert [queue[0]] + queue[1..] == queue;
    assert Items(handled) + [queue[0]] + queue[1..] == Items(handled) + ([queue[0]] + queue[1..]);
  }

  class Manager {
    var queue: seq<Item>
    var writer: nat
    var dropped: nat
    ghost var hand: Hand
    ghost var loop: Loop
    ghost var closer: Closer
    ghost var outputs: seq<Output>
    ghost var closed: seq<nat>
    ghost var handled: seq<Outcome>
    ghost var offered: seq<LogLine>
    ghost var refused: seq<LogLine>
    ghost var accepted: seq<Item>
    ghost var cancelMark: nat
    ghost var exitMark: nat

    ghost function View(): State
      reads this
    {
      State(queue, dropped, writer, hand, loop, closer, outputs, closed, handled, offered, refused, accepted,
            cancelMark, exitMark)
    }

    constructor ()
      ensures View() == Start()
    {
      queue, writer, dropped := [], 0, 0;
      hand, loop, closer := Nothing, Running, NotCalled;
      outputs, closed, handled, offered, refused, accepted := [], [], [], [], [], [];
      cancelMark, exitMark := 0, 0;
    }

    /** Never blocks: a line that finds the queue full is dropped and counted. */
    method Write(line: LogLine)
      modifies this
      ensures View() == Apply(old(View()), Offer(line))
      ensures |old(queue)| < 4096 ==> queue == old(queue) + [Line(line)] && dropped == old(dropped)
      ensures |old(queue)| >= 4096 ==> queue == old(queue) && dropped == old(dropped) + 1
    {
      offered := offered + [line];
      if |queue| < OUTPUT_QUEUE_BUFFER {
        queue := queue + [Line(line)];
        accepted := accepted + [Line(line)];
      } else {
        Drop(line);
      }
    }

    method Drop(line: LogLine)
      modifies this`dropped, this`refused
      ensures dropped == old(dropped) + 1 && refused == old(refused) + [line]
    {
      dropped := dropped + 1;
      refused := refused + [line];
    }

    /** Returns once there was room, or once the manager was cancelled. */
    method RequestSwap(config: string, gaveUp: bool)
      requires if gaveUp then !closer.NotCalled? else |queue| < OUTPUT_QUEUE_BUFFER
      modifies this
      ensures View() == Apply(old(View()), if gaveUp then AbandonSwap else EnqueueSwap(config))
      ensures queue == if gaveUp then old(queue) else old(queue) + [Swap(config)]
    {
      if !gaveUp {
        queue := queue + [Swap(config)];
        accepted := accepted + [Swap(config)];
      }
    }

    method WriteOne(line: LogLine)
      requires hand == Writing(line)
      modifies this
      ensures View() == Apply(old(View()), FinishWrite)
      ensures outputs == old(outputs) + [Output(writer, line)] && writer == old(writer)
    {
      outputs := outputs + [Output(writer, line)];
      hand, handled := Nothing, handled + [Wrote(line)];
    }

    /** A writer that cannot be created leaves the current one in place; otherwise the new one is
        made current before the old one is closed. */
    method PerformSwap(config: string, created: bool)
      requires hand == Creating(config)
      modifies this
      ensures created ==> View() == Apply(Apply(old(View()), Create(true)), FinishSwap)
      ensures !created ==> View() == Apply(old(View()), Create(false))
      ensures created ==> writer == old(writer) + 1 && closed == old(closed) + [old(writer)]
      ensures !created ==> writer == old(writer) && closed == old(closed)
    {
      if !created {
        hand, handled := Nothing, handled + [SwapFailed(config)];
        return;
      }
      var previous := writer;
      writer := writer + 1;
      handled := handled + [Swapped(config)];
      closed := closed + [previous];
      hand := Nothing;
    }

    /** One turn of the writer goroutine. */
    method HandleNext(created: bool)
      requires queue != [] && hand.Nothing? && !loop.Done?
      modifies this
      ensures Run(old(View()), HandleEvents(old(queue[0]), created))
      ensures View() == After(old(View()), HandleEvents(old(queue[0]), created))
      ensures queue == old(queue[1..]) && hand.Nothing? && loop == old(loop) && closer == old(closer)
      ensures handled == old(handled) + [OutcomeOf(old(queue[0]), created)]
      ensures accepted == old(accepted) && cancelMark == old(cancelMark)
    {
      ghost var s := View();
      var item := queue[0];
      queue := queue[1..];
      match item {
        case Line(line) =>
          hand := Writing(line);
          WriteOne(line);
          RunTwo(s, Pop, FinishWrite);
        case Swap(config) =>
          hand := Creating(config);
          ghost var popped := View();
          assert popped == Apply(s, Pop);
          PerformSwap(config, created);
          if created { RunThree(s, Pop, Create(true), FinishSwap); } else { RunTwo(s, Pop, Create(false)); }
      }
    }

    /** drainQueue: everything still queued is handled, in order; `creates` tells which writer
        creations succeed. */
    method DrainQueue(creates: nat -> bool)
      requires Inv(View()) && hand.Nothing? && !loop.Done?
      modifies this
      ensures Inv(View()) && queue == [] && hand.Nothing? && loop == old(loop) && closer == old(closer)
      ensures Items(handled) == Items(old(handled)) + old(queue)
      ensures accepted == old(accepted) && cancelMark == old(cancelMark)
    {
      var turn := 0;
      while |queue| > 0
        invariant Inv(View()) && hand.Nothing? && loop == old(loop) && closer == old(closer)
        invariant Items(handled) + queue == Items(old(handled)) + old(queue)
        invariant accepted == old(accepted) && cancelMark == old(cancelMark)
        decreases |queue|
      {
        ghost var s := View();
        HandleNext(creates(turn));
        RunInv(s, HandleEvents(s.queue[0], creates(turn)));
        MovesOne(s.handled, s.queue, creates(turn));
        turn := turn + 1;
      }
      assert Items(handled) + [] == Items(handled);
    }

    /** The cancel, seen by an idle writer goroutine. */
    method Cancel()
      requires hand.Nothing? && loop.Running? && closer.NotCalled?
      modifies this`closer, this`loop, this`cancelMark
      ensures View() == Apply(Apply(old(View()), CloseCancel), BeginDrain)
    {
      closer, cancelMark := Waiting, |accepted|;
      loop := Draining;
    }

    /** The writer goroutine exits, and Close closes the writer it left current. */
    method CloseLast()
      requires hand.Nothing? && loop.Draining? && closer.Waiting? && queue == []
      modifies this`loop, this`exitMark, this`closer, this`closed
      ensures View() == Apply(Apply(Apply(old(View()), ExitLoop), ReadWriter), CloseWriter)
    {
      ghost var s := View();
      loop, exitMark := Done, |accepted|;
      ghost var s1 := View();
      assert s1 == Apply(s, ExitLoop);
      var last := writer;
      closer := ClosingWriter(last);
      ghost var s2 := View();
      assert s2 == Apply(s1, ReadWriter);
      closed := closed + [last];
      closer := Returned;
      assert View() == Apply(s2, CloseWriter);
    }

    /** Close with no concurrent producer: the queue is drained, then the current writer closed. */
    method Close(creates: nat -> bool)
      requires Inv(View()) && hand.Nothing? && loop.Running? && closer.NotCalled?
      modifies this
      ensures Inv(View()) && closer.Returned? && queue == []
      ensures closed == UpTo(writer + 1)
      ensures Items(handled) == accepted == old(accepted)
      ensures outputs == Replay(handled).outputs
    {
      ghost var s := View();
      Cancel();
      Cancelled(s, View());
      DrainQueue(creates);
      s := View();
      CloseLast();
      ClosedDown(s, View());
    }
  }

  lemma Cancelled(s: State, s': State)
    requires Inv(s) && s.hand.Nothing? && s.loop.Running? && s.closer.NotCalled?
    requires s' == Apply(Apply(s, CloseCancel), BeginDrain)
    ensures Inv(s') && s'.hand.Nothing? && s'.loop.Draining? && s'.closer.Waiting?
    ensures s'.queue == s.queue && s'.accepted == s.accepted && s'.handled == s.handled
  {
    StepInv(s, CloseCancel);
    StepInv(Apply(s, CloseCancel), BeginDrain);
  }

  lemma ClosedDown(s: State, s': State)
    requires Inv(s) && s.hand.Nothing? && s.loop.Draining? && s.closer.Waiting? && s.queue == []
    requires s' == Apply(Apply(Apply(s, ExitLoop), ReadWriter), CloseWriter)
    ensures Inv(s') && s'.closer.Returned? && s'.queue == []
    ensures Items(s'.handled) == s'.accepted == s.accepted
    ensures s'.closed == UpTo(s'.writer + 1) && s'.outputs == Replay(s'.handled).outputs
  {
    StepInv(s, ExitLoop);
    StepInv(Apply(s, ExitLoop), ReadWriter);
    StepInv(Apply(Apply(s, ExitLoop), ReadWriter), CloseWriter);
    assert Items(s.handled) + [] + [] == Items(s.handled);
  }
}
