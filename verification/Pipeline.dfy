// The pipeline's select loop without aggregation (cmd/pipeline.go), over the outcomes of its
// successive selects.
module Pipeline {
  import opened LogLines
  import OM = OutputQueue
  import OutputManager
  import DeliveryPath

  /** What a select comes back with. Each of the three in the loop receives lines and source errors,
      and has one case of its own: the context's end, the tailers' stop, nothing being ready.
      A closed line channel yields no line. */
  datatype Choice =
    | Own
    | SourceError
    | Receive(line: Option<LogLine>)

  datatype Mode = Consuming | Draining | Sweeping

  /** How the loop stands: going on, returned, or down because process was given no line. */
  datatype End = Waiting | Returned | NilLine

  datatype Trace = Trace(mode: Mode, end: End, received: seq<LogLine>)

  /** One select and what the loop does about it. Only the first of the three checks for a closed
      channel. */
  function Turn(t: Trace, choice: Choice): Trace {
    match choice
    case SourceError => t
    case Receive(Some(raw)) => t.(received := t.received + [raw])
    case Receive(None) => t.(end := if t.mode.Consuming? then Returned else NilLine)
    case Own =>
      match t.mode
      case Consuming => t.(mode := Draining)
      case Draining => t.(mode := Sweeping)
      case Sweeping => t.(end := Returned)
  }

  /** The loop over the outcomes; those after its end are not used. */
  function Loop(choices: seq<Choice>): Trace {
    if choices == [] then Trace(Consuming, Waiting, [])
    else
      var before := Loop(choices[..|choices| - 1]);
      if before.end.Waiting? then Turn(before, choices[|choices| - 1]) else before
  }

  /** The output manager after being offered the lines, one after the other. */
  function OfferAll(s: OM.State, lines: seq<LogLine>): OM.State {
    if lines == [] then s
    else OM.Apply(OfferAll(s, lines[..|lines| - 1]), OM.Offer(lines[|lines| - 1]))
  }

  /** What offering lines one after the other does: as long as there is room they are queued, in order;
      the rest is dropped and counted. */
  lemma {:induction false} OfferedInOrder(s: OM.State, lines: seq<LogLine>, items: seq<OM.Item>)
    requires |items| == |lines| && forall i :: 0 <= i < |lines| ==> items[i] == OM.Line(lines[i])
    ensures var room := if |s.queue| < 4096 then 4096 - |s.queue| else 0;
            var taken := if |lines| < room then |lines| else room;
            && OfferAll(s, lines).queue == s.queue + items[..taken]
            && OfferAll(s, lines).dropped == s.dropped + |lines| - taken
            && OfferAll(s, lines).offered == s.offered + lines
  {
    if lines != [] {
      var n := |lines| - 1;
      OfferedInOrder(s, lines[..n], items[..n]);
      assert lines == lines[..n] + [lines[n]];
      var room := if |s.queue| < 4096 then 4096 - |s.queue| else 0;
      var before := if n < room then n else room;
      assert items[..n][..before] == items[..before];
      if n < room { assert items[..n + 1] == items[..n] + [items[n]]; }
    }
  }

  lemma LoopSnoc(choices: seq<Choice>, i: nat)
    requires i < |choices|
    ensures Loop(choices[..i + 1])
            == if Loop(choices[..i]).end.Waiting? then Turn(Loop(choices[..i]), choices[i]) else Loop(choices[..i])
  {
    assert choices[..i + 1][..|choices[..i + 1]| - 1] == choices[..i];
  }

  lemma {:induction false} EndedLoop(choices: seq<Choice>, i: nat)
    requires i <= |choices| && !Loop(choices[..i]).end.Waiting?
    ensures Loop(choices) == Loop(choices[..i])
    decreases |choices| - i
  {
    if i == |choices| {
      assert choices[..i] == choices;
    } else {
      LoopSnoc(choices, i);
      EndedLoop(choices, i + 1);
    }
  }

  lemma OfferOne(c: DeliveryPath.Setup, s: OM.State, raws: seq<LogLine>, raw: LogLine)
    ensures var line := c.parse(raw);
            OfferAll(s, DeliveryPath.Passing(c, raws + [raw]))
            == (var before := OfferAll(s, DeliveryPath.Passing(c, raws));
                if c.passes(line) then OM.Apply(before, OM.Offer(line)) else before)
  {
    DeliveryPath.PassingSnoc(c, raws, raw);
    var passing, line := DeliveryPath.Passing(c, raws), c.parse(raw);
    assert (passing + [line])[..|passing + [line]| - 1] == passing;
    assert passing + [] == passing;
  }

  // ---------------------------------------------------------------- the code

  /** process: parse, filter by level and regex, offer what passes. */
  method Process(c: DeliveryPath.Setup, om: OutputManager.Manager, raw: LogLine)
    modifies om
    ensures om.View() == if c.passes(c.parse(raw)) then OM.Apply(old(om.View()), OM.Offer(c.parse(raw)))
                         else old(om.View())
  {
    var parsed := c.parse(raw);
    if !c.passes(parsed) {
      return;
    }
    om.Write(parsed);
  }

  /** The output manager s, offered what passes of the lines received in the first i turns. */
  ghost function Offered(c: DeliveryPath.Setup, s: OM.State, choices: seq<Choice>, i: nat): OM.State
    requires i <= |choices|
  {
    OfferAll(s, DeliveryPath.Passing(c, Loop(choices[..i]).received))
  }

  lemma OfferedSnoc(c: DeliveryPath.Setup, s: OM.State, choices: seq<Choice>, i: nat)
    requires i < |choices| && Loop(choices[..i]).end.Waiting?
    ensures Offered(c, s, choices, i + 1)
            == match choices[i]
               case Receive(Some(raw)) =>
                 if c.passes(c.parse(raw)) then OM.Apply(Offered(c, s, choices, i), OM.Offer(c.parse(raw)))
                 else Offered(c, s, choices, i)
               case _ => Offered(c, s, choices, i)
  {
    LoopSnoc(choices, i);
    if choices[i].Receive? && choices[i].line.Some? {
      OfferOne(c, s, Loop(choices[..i]).received, choices[i].line.value);
    }
  }

  /** After i turns the loop goes on in this mode, and the output manager is in state v. */
  ghost predicate Reached(c: DeliveryPath.Setup, s: OM.State, choices: seq<Choice>, i: nat, mode: Mode, v: OM.State) {
    && i <= |choices| && v == Offered(c, s, choices, i)
    && Loop(choices[..i]).mode == mode && Loop(choices[..i]).end.Waiting?
  }

  /** The loop over all turns ends so, with the output manager in state v. */
  ghost predicate Ended(c: DeliveryPath.Setup, s: OM.State, choices: seq<Choice>, end: End, v: OM.State) {
    end == Loop(choices).end && v == OfferAll(s, DeliveryPath.Passing(c, Loop(choices).received))
  }

  lemma ReachesNext(c: DeliveryPath.Setup, s: OM.State, choices: seq<Choice>, i: nat, mode: Mode, v: OM.State)
    requires Reached(c, s, choices, i, mode, v) && i < |choices|
    ensures match choices[i]
            case SourceError => Reached(c, s, choices, i + 1, mode, v)
            case Receive(Some(raw)) =>
              Reached(c, s, choices, i + 1, mode, if c.passes(c.parse(raw)) then OM.Apply(v, OM.Offer(c.parse(raw))) else v)
            case Receive(None) => Ended(c, s, choices, if mode.Consuming? then Returned else NilLine, v)
            case Own =>
              if mode.Sweeping? then Ended(c, s, choices, Returned, v)
              else Reached(c, s, choices, i + 1, if mode.Consuming? then Draining else Sweeping, v)
  {
    if Turn(Loop(choices[..i]), choices[i]).end.Waiting? {
      LoopSnoc(choices, i);
      OfferedSnoc(c, s, choices, i);
    } else {
      EndingLoop(choices, i);
    }
  }

  lemma EndingLoop(choices: seq<Choice>, i: nat)
    requires i < |choices| && Loop(choices[..i]).end.Waiting? && !Turn(Loop(choices[..i]), choices[i]).end.Waiting?
    ensures Loop(choices) == Turn(Loop(choices[..i]), choices[i])
    ensures Loop(choices).received == Loop(choices[..i]).received
  {
    LoopSnoc(choices, i);
    EndedLoop(choices, i + 1);
  }

  lemma ReachedAll(c: DeliveryPath.Setup, s: OM.State, choices: seq<Choice>, mode: Mode, v: OM.State)
    requires Reached(c, s, choices, |choices|, mode, v)
    ensures Ended(c, s, choices, Waiting, v)
  {
    assert choices[..|choices|] == choices;
  }

  lemma ReachedNone(c: DeliveryPath.Setup, s: OM.State, choices: seq<Choice>)
    ensures Reached(c, s, choices, 0, Consuming, s)
  {
  }

  /** The sweep after the tailers' stop, from turn `start` on. */
  method Sweep(c: DeliveryPath.Setup, om: OutputManager.Manager, choices: seq<Choice>, start: nat, ghost s: OM.State)
    returns (end: End)
    requires Reached(c, s, choices, start, Sweeping, om.View())
    modifies om
    ensures Ended(c, s, choices, end, om.View())
  {
    for i := start to |choices|
      invariant Reached(c, s, choices, i, Sweeping, om.View())
    {
      ReachesNext(c, s, choices, i, Sweeping, om.View());
      match choices[i] {
        case Receive(Some(raw)) => Process(c, om, raw);
        case SourceError =>
        case Receive(None) => return NilLine;
        case Own => return Returned;
      }
    }
    ReachedAll(c, s, choices, Sweeping, om.View());
    return Waiting;
  }

  /** runPipeline: whatever the selects come back with, the output manager is offered exactly the
      passing lines among those received, in order, and the loop ends as Loop says. */
  method RunPipeline(c: DeliveryPath.Setup, om: OutputManager.Manager, choices: seq<Choice>) returns (end: End)
    modifies om
    ensures om.View() == OfferAll(old(om.View()), DeliveryPath.Passing(c, Loop(choices).received))
    ensures end == Loop(choices).end
  {
    ghost var s := om.View();
    var draining := false;
    ReachedNone(c, s, choices);
    for i := 0 to |choices|
      invariant Reached(c, s, choices, i, if draining then Draining else Consuming, om.View())
    {
      ReachesNext(c, s, choices, i, if draining then Draining else Consuming, om.View());
      if !draining {
        match choices[i] {
          case Receive(Some(raw)) => Process(c, om, raw);
          case SourceError =>
          case Own => draining := true;
          case Receive(None) => return Returned;
        }
      } else {
        match choices[i] {
          case Receive(Some(raw)) => Process(c, om, raw);
          case SourceError =>
          case Receive(None) => return NilLine;
          case Own =>
            end := Sweep(c, om, choices, i + 1, s);
            return;
        }
      }
    }
    ReachedAll(c, s, choices, if draining then Draining else Consuming, om.View());
    return Waiting;
  }

  // ---------------------------------------------------------------- when the loop ends, and how

  /** How many selects took their own case. */
  function Owns(choices: seq<Choice>): nat {
    if choices == [] then 0 else Owns(choices[..|choices| - 1]) + (if choices[|choices| - 1].Own? then 1 else 0)
  }

  predicate NoneClosed(choices: seq<Choice>) {
    forall i :: 0 <= i < |choices| ==> choices[i] != Receive(None)
  }

  function LinesIn(choices: seq<Choice>): seq<LogLine> {
    if choices == [] then []
    else
      LinesIn(choices[..|choices| - 1])
      + (match choices[|choices| - 1] case Receive(Some(raw)) => [raw] case _ => [])
  }

  /** Turn j is the one that makes the loop return: the channel is closed before the cancel, or the
      sweep after cancel and stop finds nothing ready. */
  predicate ReturnsAt(choices: seq<Choice>, j: nat)
    requires j < |choices|
  {
    && NoneClosed(choices[..j])
    && ((choices[j] == Receive(None) && Owns(choices[..j]) == 0) || (choices[j].Own? && Owns(choices[..j]) == 2))
  }

  /** Turn j hands a closed channel's missing line to process. */
  predicate FailsAt(choices: seq<Choice>, j: nat)
    requires j < |choices|
  {
    NoneClosed(choices[..j]) && choices[j] == Receive(None) && 1 <= Owns(choices[..j]) <= 2
  }

  lemma {:induction false} WhileWaiting(choices: seq<Choice>)
    ensures Loop(choices).end.Waiting? <==> NoneClosed(choices) && Owns(choices) < 3
    ensures Loop(choices).end.Waiting? ==>
              && Loop(choices).received == LinesIn(choices)
              && Loop(choices).mode == match Owns(choices) case 0 => Consuming case 1 => Draining case _ => Sweeping
  {
    if choices != [] {
      var front, last := choices[..|choices| - 1], choices[|choices| - 1];
      WhileWaiting(front);
      assert NoneClosed(choices) <==> NoneClosed(front) && last != Receive(None) by {
        assert forall i :: 0 <= i < |front| ==> front[i] == choices[i];
      }
      assert Loop(front).received + [] == Loop(front).received;
    }
  }

  lemma {:induction false} LoopEnds(choices: seq<Choice>) returns (j: nat)
    requires !Loop(choices).end.Waiting?
    ensures j < |choices| && Loop(choices[..j]).end.Waiting?
    ensures Loop(choices) == Turn(Loop(choices[..j]), choices[j])
  {
    var last := |choices| - 1;
    assert choices[..|choices|] == choices;
    LoopSnoc(choices, last);
    if Loop(choices[..last]).end.Waiting? {
      j := last;
    } else {
      j := LoopEnds(choices[..last]);
      assert choices[..last][..j] == choices[..j];
    }
  }

  lemma EndsAt(choices: seq<Choice>, j: nat)
    requires j < |choices| && (ReturnsAt(choices, j) || FailsAt(choices, j))
    ensures Loop(choices).end == if ReturnsAt(choices, j) then Returned else NilLine
    ensures Loop(choices).received == LinesIn(choices[..j])
  {
    WhileWaiting(choices[..j]);
    LoopSnoc(choices, j);
    EndedLoop(choices, j + 1);
  }

  /** Exactly when the loop goes on, returns, or fails; the lines it received are all those before. */
  lemma EndsExactly(choices: seq<Choice>)
    ensures Loop(choices).end.Waiting? <==> NoneClosed(choices) && Owns(choices) < 3
    ensures Loop(choices).end.Returned? <==> exists j :: 0 <= j < |choices| && ReturnsAt(choices, j)
    ensures Loop(choices).end.NilLine? <==> exists j :: 0 <= j < |choices| && FailsAt(choices, j)
    ensures Loop(choices).end.Waiting? ==> Loop(choices).received == LinesIn(choices)
    ensures forall j :: 0 <= j < |choices| && (ReturnsAt(choices, j) || FailsAt(choices, j)) ==>
              Loop(choices).received == LinesIn(choices[..j])
  {
    WhileWaiting(choices);
    forall j | 0 <= j < |choices| && (ReturnsAt(choices, j) || FailsAt(choices, j))
      ensures Loop(choices).end == if ReturnsAt(choices, j) then Returned else NilLine
      ensures Loop(choices).received == LinesIn(choices[..j])
    {
      EndsAt(choices, j);
    }
    if !Loop(choices).end.Waiting? {
      var j := EndingTurn(choices);
    }
  }

  lemma EndingTurn(choices: seq<Choice>) returns (j: nat)
    requires !Loop(choices).end.Waiting?
    ensures j < |choices|
    ensures Loop(choices).end.Returned? ==> ReturnsAt(choices, j)
    ensures Loop(choices).end.NilLine? ==> FailsAt(choices, j)
  {
    j := LoopEnds(choices);
    WhileWaiting(choices[..j]);
  }

  // ---------------------------------------------------------------- the line channel and the cancel

  /** From which turn on, if ever, the context is cancelled, the tailers have stopped, and the line
      channel is closed and empty. */
  datatype Surroundings = Surroundings(cancelled: Option<nat>, stopped: Option<nat>, closed: Option<nat>)

  predicate Since(start: Option<nat>, i: nat) { start.Some? && start.value <= i }

  /** Outcomes the surroundings allow. A closed channel always has something to receive, so the sweep
      cannot find nothing ready then. */
  predicate Possible(w: Surroundings, choices: seq<Choice>) {
    forall i :: 0 <= i < |choices| && Loop(choices[..i]).end.Waiting? ==>
      match choices[i]
      case SourceError => true
      case Receive(line) => line.None? <==> Since(w.closed, i)
      case Own =>
        match Loop(choices[..i]).mode
        case Consuming => Since(w.cancelled, i)
        case Draining => Since(w.stopped, i)
        case Sweeping => !Since(w.closed, i)
  }

  lemma {:induction false} DrainsOnlyCancelled(w: Surroundings, choices: seq<Choice>)
    requires Possible(w, choices) && !Loop(choices).mode.Consuming?
    ensures w.cancelled.Some?
  {
    var front, last := choices[..|choices| - 1], |choices| - 1;
    assert forall i :: 0 <= i < |front| ==> front[i] == choices[i] && front[..i] == choices[..i];
    if !Loop(front).mode.Consuming? {
      DrainsOnlyCancelled(w, front);
    } else {
      assert choices[last].Own? && Loop(choices[..last]).end.Waiting?;
    }
  }

  function Errors(n: nat): seq<Choice> { seq(n, _ => SourceError) }

  lemma {:induction false} ErrorsWait(n: nat)
    ensures Loop(Errors(n)) == Trace(Consuming, Waiting, [])
  {
    if n > 0 {
      assert Errors(n)[..n - 1] == Errors(n - 1);
      ErrorsWait(n - 1);
    }
  }

  /** Source errors until both have happened, then the cancel is seen, then the closed channel. */
  lemma CancelThenClosed(w: Surroundings, m: nat)
    requires Since(w.cancelled, m) && Since(w.closed, m)
    ensures Possible(w, Errors(m) + [Own, Receive(None)])
    ensures Loop(Errors(m) + [Own, Receive(None)]).end.NilLine?
  {
    var run := Errors(m) + [Own, Receive(None)];
    forall i | 0 <= i <= m ensures Loop(run[..i]) == Trace(Consuming, Waiting, []) {
      assert run[..i] == Errors(i);
      ErrorsWait(i);
    }
    LoopSnoc(run, m);
    LoopSnoc(run, m + 1);
    assert run[..m + 2] == run;
  }

  /** The loop is safe under every schedule if and only if the line channel is never closed or the
      context is never cancelled. */
  lemma SafeIffNotClosedAndCancelled(w: Surroundings)
    ensures (forall choices :: Possible(w, choices) ==> !Loop(choices).end.NilLine?)
            <==> w.closed.None? || w.cancelled.None?
  {
    forall choices | Possible(w, choices) && Loop(choices).end.NilLine?
      ensures w.closed.Some? && w.cancelled.Some?
    {
      var j := LoopEnds(choices);
      assert forall i :: 0 <= i < j ==> choices[..j][i] == choices[i] && choices[..j][..i] == choices[..i];
      DrainsOnlyCancelled(w, choices[..j]);
    }
    if w.closed.Some? && w.cancelled.Some? {
      CancelThenClosed(w, if w.closed.value < w.cancelled.value then w.cancelled.value else w.closed.value);
    }
  }
}
