// The shutdown of the whole path cannot get stuck: from every state that can be reached, whatever the
// pipeline, the output manager and the OpenSearch writer are in the middle of, some continuation ends
// with the writer closed (cmd/pipeline.go, cmd/output_manager.go, internal/output/opensearch_writer.go).
module CleanShutdown {
  import opened LogLines
  import opened DeliveryPath
  import OM = OutputQueue
  import OS = OpenSearchMachine
  import OpenSearchOrder

  lemma RunOne(c: Setup, s: State, e: Event)
    requires Enabled(c, s, e)
    ensures Run(c, s, [e]) && After(c, s, [e]) == Apply(c, s, e)
  {
    assert [e][1..] == [] && Run(c, Apply(c, s, e), []);
  }

  lemma {:induction false} RunConcat(c: Setup, s: State, a: seq<Event>, b: seq<Event>)
    requires Run(c, s, a) && Run(c, After(c, s, a), b)
    ensures Run(c, s, a + b) && After(c, s, a + b) == After(c, After(c, s, a), b)
    decreases |a|
  {
    if a == [] {
      assert a + b == b;
    } else {
      assert (a + b)[1..] == a[1..] + b;
      RunConcat(c, Apply(c, s, a[0]), a[1..], b);
    }
  }

  // ---------------------------------------------------------------- a goroutine inside the writer

  /** How far a goroutine of the OpenSearch writer is from being idle. */
  function ToIdle(p: OS.Phase): nat {
    if p.MustFlush? then 5 else OpenSearchOrder.StepsLeft(p)
  }

  /** Its next step, while the server is down. */
  function NextStep(c: OS.Config, p: OS.Phase, t: nat): OS.Event {
    if p.MustFlush? then OS.Take(t) else OpenSearchOrder.DownStep(c, p, t)
  }

  lemma NextStepGoes(c: OS.Config, os: OS.State, t: nat)
    requires t < |os.threads| && ToIdle(os.threads[t]) > 0 && (os.threads[t].MustFlush? ==> t > 0)
    ensures var e := NextStep(c, os.threads[t], t);
            && OS.Enabled(c, os, e) && !e.Append? && !e.CloseCancel?
            && var os' := OS.Apply(c, os, e);
            && os'.closing == os.closing && |os'.threads| == |os.threads|
            && os'.threads == os.threads[t := os'.threads[t]]
            && ToIdle(os'.threads[t]) < ToIdle(os.threads[t]) && !os'.threads[t].Exited? && !os'.threads[t].MustFlush?
  {
    var p := os.threads[t];
    if p.Resending? || p.Sending? {
      OpenSearchOrder.DownSending(c, os, t);
      OpenSearchOrder.SendStep(c, os, t, OS.AllFail(c.maxRetries));
    }
  }

  /** A goroutine inside Write or flush can finish. */
  lemma FinishThread(c: Setup, s: State, t: nat) returns (run: seq<Event>)
    requires t < |s.os.threads| && !s.os.threads[t].Exited? && (s.os.threads[t].MustFlush? ==> t > 0)
    ensures Run(c, s, run)
    ensures var s' := After(c, s, run);
            && s' == s.(os := s'.os) && s'.os.closing == s.os.closing && s'.os.threads == s.os.threads[t := OS.Idle]
    decreases ToIdle(s.os.threads[t])
  {
    if ToIdle(s.os.threads[t]) == 0 {
      assert s.os.threads == s.os.threads[t := OS.Idle];
      return [];
    }
    var w := NextStep(c.writer, s.os.threads[t], t);
    NextStepGoes(c.writer, s.os, t);
    assert Enabled(c, s, Writer(w));
    var s1 := Apply(c, s, Writer(w));
    assert s1 == s.(os := OS.Apply(c.writer, s.os, w));
    var rest := FinishThread(c, s1, t);
    RunOne(c, s, Writer(w));
    RunConcat(c, s, [Writer(w)], rest);
    run := [Writer(w)] + rest;
  }

  // ---------------------------------------------------------------- the pipeline

  lemma ConsumeGoes(c: Setup, s: State)
    requires !s.phase.Returned? && s.logChan != []
    ensures Enabled(c, s, Consume)
    ensures Apply(c, s, Consume).phase == s.phase && Apply(c, s, Consume).logChan == s.logChan[1..]
  {
  }

  lemma StopGoes(c: Setup, s: State)
    ensures s.phase.Consuming? ==> Enabled(c, s, ContextDone) && Apply(c, s, ContextDone).phase.DrainingInput?
    ensures s.phase.DrainingInput? ==> Enabled(c, s, TailersStopped) && Apply(c, s, TailersStopped).phase.Sweeping?
  {
  }

  lemma OneStep(c: Setup, s: State, e: Event) returns (s1: State)
    requires Inv(c, s) && Enabled(c, s, e)
    ensures s1 == Apply(c, s, e) && Inv(c, s1) && Run(c, s, [e]) && After(c, s, [e]) == s1
  {
    StepInv(c, s, e);
    RunOne(c, s, e);
    s1 := Apply(c, s, e);
  }

  /** What still waits in the line channel can be consumed. */
  lemma Sweep(c: Setup, s: State) returns (run: seq<Event>)
    requires Inv(c, s) && s.phase.Sweeping?
    ensures Run(c, s, run) && Inv(c, After(c, s, run)) && After(c, s, run).phase.Returned?
    decreases |s.logChan|
  {
    if s.logChan == [] {
      var s1 := OneStep(c, s, SweepEnd);
      return [SweepEnd];
    }
    ConsumeGoes(c, s);
    var s1 := OneStep(c, s, Consume);
    var rest := Sweep(c, s1);
    RunConcat(c, s, [Consume], rest);
    run := [Consume] + rest;
  }

  /** The pipeline can return. */
  lemma Return(c: Setup, s: State) returns (run: seq<Event>)
    requires Inv(c, s)
    ensures Run(c, s, run) && Inv(c, After(c, s, run)) && After(c, s, run).phase.Returned?
    decreases match s.phase case Consuming => 2 case DrainingInput => 1 case _ => 0
  {
    match s.phase {
      case Returned => return [];
      case Sweeping => run := Sweep(c, s);
      case _ =>
        var e := if s.phase.Consuming? then ContextDone else TailersStopped;
        StopGoes(c, s);
        var s1 := OneStep(c, s, e);
        var rest := Return(c, s1);
        RunConcat(c, s, [e], rest);
        run := [e] + rest;
    }
  }

  // ---------------------------------------------------------------- the writer goroutine

  /** The goroutine can finish the line it has in hand. */
  lemma FinishHand(c: Setup, s: State) returns (run: seq<Event>)
    requires Inv(c, s)
    ensures Run(c, s, run) && Inv(c, After(c, s, run))
    ensures var s' := After(c, s, run);
            && s'.om.hand.Nothing? && s'.om.queue == s.om.queue && s'.om.loop == s.om.loop
            && s'.om.closer == s.om.closer && s'.phase == s.phase
  {
    if s.om.hand.Nothing? {
      return [];
    }
    if s.inWrite {
      run := FinishWrite(c, s);
    } else {
      BeginWrite(c, s);
      var s1 := OneStep(c, s, StartWrite);
      var rest := [];
      if s1.inWrite { rest := FinishWrite(c, s1); }
      RunConcat(c, s, [StartWrite], rest);
      run := [StartWrite] + rest;
    }
  }

  /** A line in hand can be handed to the writer; one that cannot be encoded is done with at once. */
  lemma BeginWrite(c: Setup, s: State)
    requires Inv(c, s) && !s.om.hand.Nothing? && !s.inWrite
    ensures Enabled(c, s, StartWrite)
    ensures var s' := Apply(c, s, StartWrite);
            && (s'.inWrite || s'.om.hand.Nothing?) && s'.om.queue == s.om.queue && s'.om.loop == s.om.loop
            && s'.om.closer == s.om.closer && s'.phase == s.phase
  {
    assert s.om.hand.Writing?;
  }

  lemma FinishWrite(c: Setup, s: State) returns (run: seq<Event>)
    requires Inv(c, s) && s.inWrite
    ensures Run(c, s, run) && Inv(c, After(c, s, run))
    ensures var s' := After(c, s, run);
            && s'.om.hand.Nothing? && s'.om.queue == s.om.queue && s'.om.loop == s.om.loop
            && s'.om.closer == s.om.closer && s'.phase == s.phase
  {
    CallerGoes(c, s);
    var first := FinishThread(c, s, 1);
    RunInv(c, s, first);
    var s1 := After(c, s, first);
    EndGoes(c, s1);
    var s2 := OneStep(c, s1, EndWrite);
    RunConcat(c, s, first, [EndWrite]);
    run := first + [EndWrite];
  }

  lemma EndGoes(c: Setup, s: State)
    requires s.inWrite && s.om.hand.Writing? && |s.os.threads| == 2 && s.os.threads[1].Idle?
    ensures Enabled(c, s, EndWrite)
    ensures var s' := Apply(c, s, EndWrite);
            && s'.om.hand.Nothing? && s'.om.queue == s.om.queue && s'.om.loop == s.om.loop
            && s'.om.closer == s.om.closer && s'.phase == s.phase
  {
  }

  /** The goroutine that calls Write does not end with the ticker. */
  lemma CallerGoes(c: Setup, s: State)
    requires Inv(c, s) && s.inWrite
    ensures |s.os.threads| == 2 && !s.os.threads[1].Exited?
  {
  }

  lemma ManagerAlone(c: Setup, s: State, m: OM.Event)
    requires OM.Enabled(s.om, m) && ManagerStep(s, m)
    ensures Enabled(c, s, Manager(m)) && Apply(c, s, Manager(m)) == s.(om := OM.Apply(s.om, m))
  {
  }

  /** A step of the output manager on its own. */
  lemma ManagerGoes(c: Setup, s: State, m: OM.Event) returns (s1: State)
    requires Inv(c, s) && OM.Enabled(s.om, m) && ManagerStep(s, m)
    ensures Run(c, s, [Manager(m)]) && After(c, s, [Manager(m)]) == s1 && Inv(c, s1)
    ensures s1 == s.(om := OM.Apply(s.om, m))
  {
    ManagerAlone(c, s, m);
    s1 := OneStep(c, s, Manager(m));
  }

  /** Whatever is queued can be handled once the drain has begun. */
  lemma DrainAll(c: Setup, s: State) returns (run: seq<Event>)
    requires Inv(c, s) && s.om.hand.Nothing? && s.om.loop.Draining?
    ensures Run(c, s, run) && Inv(c, After(c, s, run))
    ensures var s' := After(c, s, run);
            && s'.om.hand.Nothing? && s'.om.queue == [] && s'.om.loop.Draining? && s'.om.closer == s.om.closer
    decreases |s.om.queue|
  {
    if s.om.queue == [] {
      return [];
    }
    var pop := Manager(OM.Pop);
    var s1 := ManagerGoes(c, s, OM.Pop);
    var second := FinishHand(c, s1);
    var rest := DrainAll(c, After(c, s1, second));
    RunConcat(c, s1, second, rest);
    RunConcat(c, s, [pop], second + rest);
    run := [pop] + (second + rest);
  }

  // ---------------------------------------------------------------- closing the writer

  /** The step of Close after its snapshot, or before it. */
  lemma CloseStep(c: Setup, s: State, w: OS.Event) returns (s1: State)
    requires Inv(c, s) && s.om.closer.ClosingWriter? && OS.Enabled(c.writer, s.os, w) && !w.Append?
    ensures Run(c, s, [Writer(w)]) && After(c, s, [Writer(w)]) == s1 && Inv(c, s1)
    ensures s1.om.closer.ClosingWriter? && s1.os == OS.Apply(c.writer, s.os, w)
  {
    assert Enabled(c, s, Writer(w));
    s1 := OneStep(c, s, Writer(w));
  }

  /** With the writer closed, the output manager's Close returns. */
  lemma CloseEnds(c: Setup, s: State) returns (run: seq<Event>)
    requires Inv(c, s) && s.om.closer.ClosingWriter? && s.os.closing.Closed?
    ensures Run(c, s, run) && Inv(c, After(c, s, run)) && After(c, s, run).om.closer.Returned?
  {
    assert Enabled(c, s, EndClose);
    var s1 := OneStep(c, s, EndClose);
    run := [EndClose];
  }

  /** Once the last snapshot is taken, Close can finish. */
  lemma CloseSending(c: Setup, s: State) returns (run: seq<Event>)
    requires Inv(c, s) && s.om.closer.ClosingWriter? && (s.os.closing.FinalSending? || s.os.closing.Closed?)
    ensures Run(c, s, run) && Inv(c, After(c, s, run)) && After(c, s, run).om.closer.Returned?
  {
    if s.os.closing.Closed? {
      run := CloseEnds(c, s);
    } else {
      var w := OS.FinalDone(OS.AllFail(c.writer.maxRetries));
      var s1 := CloseStep(c, s, w);
      var rest := CloseEnds(c, s1);
      RunConcat(c, s, [Writer(w)], rest);
      run := [Writer(w)] + rest;
    }
  }

  /** The ticker goroutine can end, the last snapshot be taken, and Close finish. */
  lemma CloseCancelled(c: Setup, s: State) returns (run: seq<Event>)
    requires Inv(c, s) && s.om.closer.ClosingWriter? && s.os.closing.Cancelling?
    ensures Run(c, s, run) && Inv(c, After(c, s, run)) && After(c, s, run).om.closer.Returned?
  {
    var first := TickerEnds(c, s);
    var s1 := After(c, s, first);
    var s2 := CloseStep(c, s1, OS.FinalTake);
    var rest := CloseSending(c, s2);
    RunConcat(c, s1, [Writer(OS.FinalTake)], rest);
    RunConcat(c, s, first, [Writer(OS.FinalTake)] + rest);
    run := first + ([Writer(OS.FinalTake)] + rest);
  }

  /** OpenSearchWriter.Close can finish. */
  lemma CloseWriter(c: Setup, s: State) returns (run: seq<Event>)
    requires Inv(c, s) && s.om.closer.ClosingWriter?
    ensures Run(c, s, run) && Inv(c, After(c, s, run)) && After(c, s, run).om.closer.Returned?
  {
    match s.os.closing {
      case Open =>
        var s1 := CloseStep(c, s, OS.CloseCancel);
        var rest := CloseCancelled(c, s1);
        RunConcat(c, s, [Writer(OS.CloseCancel)], rest);
        run := [Writer(OS.CloseCancel)] + rest;
      case Cancelling => run := CloseCancelled(c, s);
      case _ => run := CloseSending(c, s);
    }
  }

  lemma TickerEnds(c: Setup, s: State) returns (run: seq<Event>)
    requires Inv(c, s) && s.om.closer.ClosingWriter? && s.os.closing.Cancelling?
    ensures Run(c, s, run) && Inv(c, After(c, s, run))
    ensures var s' := After(c, s, run);
            && s'.om.closer.ClosingWriter? && s'.os.closing == s.os.closing
            && |s'.os.threads| == 2 && s'.os.threads[0].Exited?
  {
    if s.os.threads[0].Exited? {
      return [];
    }
    var first := FinishThread(c, s, 0);
    RunInv(c, s, first);
    var s1 := After(c, s, first);
    var s2 := CloseStep(c, s1, OS.TickerExit);
    RunConcat(c, s, first, [Writer(OS.TickerExit)]);
    run := first + [Writer(OS.TickerExit)];
  }

  // ---------------------------------------------------------------- the whole shutdown

  /** An idle goroutine that has seen the cancel can drain the queue and end. */
  lemma DrainEnds(c: Setup, s: State) returns (run: seq<Event>)
    requires Inv(c, s) && s.om.closer.Waiting? && s.om.hand.Nothing? && s.om.loop.Draining?
    ensures Run(c, s, run) && Inv(c, After(c, s, run))
    ensures After(c, s, run).om.closer.Waiting? && After(c, s, run).om.loop.Done?
  {
    var first := DrainAll(c, s);
    var s1 := After(c, s, first);
    var s2 := ManagerGoes(c, s1, OM.ExitLoop);
    RunConcat(c, s, first, [Manager(OM.ExitLoop)]);
    run := first + [Manager(OM.ExitLoop)];
  }

  /** An idle one can see it. */
  lemma DrainBegins(c: Setup, s: State) returns (run: seq<Event>)
    requires Inv(c, s) && s.om.closer.Waiting? && s.om.hand.Nothing? && s.om.loop.Running?
    ensures Run(c, s, run) && Inv(c, After(c, s, run))
    ensures After(c, s, run).om.closer.Waiting? && After(c, s, run).om.loop.Done?
  {
    var e := Manager(OM.BeginDrain);
    var s1 := ManagerGoes(c, s, OM.BeginDrain);
    var rest := DrainEnds(c, s1);
    RunConcat(c, s, [e], rest);
    run := [e] + rest;
  }

  /** After the cancel of the output manager, its goroutine can drain the queue and end. */
  lemma GoroutineEnds(c: Setup, s: State) returns (run: seq<Event>)
    requires Inv(c, s) && s.om.closer.Waiting?
    ensures Run(c, s, run) && Inv(c, After(c, s, run))
    ensures After(c, s, run).om.closer.Waiting? && After(c, s, run).om.loop.Done?
  {
    if s.om.loop.Done? {
      return [];
    }
    var first := FinishHand(c, s);
    var s1, rest := After(c, s, first), [];
    if s1.om.loop.Running? {
      rest := DrainBegins(c, s1);
    } else {
      rest := DrainEnds(c, s1);
    }
    RunConcat(c, s, first, rest);
    run := first + rest;
  }

  lemma CloseWaiting(c: Setup, s: State) returns (run: seq<Event>)
    requires Inv(c, s) && s.om.closer.Waiting?
    ensures Run(c, s, run) && Inv(c, After(c, s, run)) && After(c, s, run).om.closer.Returned?
  {
    var first := GoroutineEnds(c, s);
    var s1 := After(c, s, first);
    var e := Manager(OM.ReadWriter);
    var s2 := ManagerGoes(c, s1, OM.ReadWriter);
    var rest := CloseWriter(c, s2);
    RunConcat(c, s1, [e], rest);
    RunConcat(c, s, first, [e] + rest);
    run := first + ([e] + rest);
  }

  /** Once the pipeline has returned, the output manager can be closed. */
  lemma CloseManager(c: Setup, s: State) returns (run: seq<Event>)
    requires Inv(c, s) && s.phase.Returned?
    ensures Run(c, s, run) && Inv(c, After(c, s, run)) && After(c, s, run).om.closer.Returned?
  {
    match s.om.closer {
      case Returned => return [];
      case ClosingWriter(_) => run := CloseWriter(c, s);
      case Waiting => run := CloseWaiting(c, s);
      case NotCalled => run := CloseOpen(c, s);
    }
  }

  lemma CloseOpen(c: Setup, s: State) returns (run: seq<Event>)
    requires Inv(c, s) && s.phase.Returned? && s.om.closer.NotCalled?
    ensures Run(c, s, run) && Inv(c, After(c, s, run)) && After(c, s, run).om.closer.Returned?
  {
    var e := Manager(OM.CloseCancel);
    var s1 := ManagerGoes(c, s, OM.CloseCancel);
    var rest := CloseWaiting(c, s1);
    RunConcat(c, s, [e], rest);
    run := [e] + rest;
  }

  /** No shutdown gets stuck: every run can be continued to one in which the output manager's Close has
      returned and the accounting is complete. */
  lemma CanAlwaysClose(c: Setup, run: seq<Event>) returns (longer: seq<Event>)
    requires Run(c, Start(), run)
    ensures |run| <= |longer| && longer[..|run|] == run && Run(c, Start(), longer)
    ensures var s := After(c, Start(), longer);
            && s.om.closer.Returned? && s.os.closing.Closed?
            && multiset(s.passed)
               == multiset(s.os.acked) + multiset(s.os.dropped) + multiset(s.om.refused) + multiset(s.unencodable)
  {
    StartInv(c);
    RunInv(c, Start(), run);
    var s := After(c, Start(), run);
    var first := Return(c, s);
    var second := CloseManager(c, After(c, s, first));
    RunConcat(c, s, first, second);
    RunConcat(c, Start(), run, first + second);
    longer := run + (first + second);
    NothingLostSilently(c, longer);
    RunInv(c, Start(), longer);
  }
}
