// The WebSocket hub (internal/api/hub.go): its registration protocol keeps every Send channel
// from being closed twice or used after closing, and delivers in order.
module Hub {
  import opened LogLines
  import opened Seqs

  const HUB_BROADCAST_BUFFER: nat := 256
  const CLIENT_SEND_BUFFER: nat := 64
  const HUB_CONN_BUFFER: nat := 64

  datatype Filter = Filter(minLevel: string, sourceName: string)

  predicate MatchesFilter(f: Filter, line: LogLine) {
    && (f.sourceName == "" || f.sourceName == line.source)
    && (f.minLevel != "" && f.minLevel in LOG_LEVELS && line.level in LOG_LEVELS ==>
          LOG_LEVELS[line.level] >= LOG_LEVELS[f.minLevel])
  }

  /** A client: the lines waiting in its Send channel, all lines ever put there, and those its write
      pump took out. `closes` counts how often the channel was closed. */
  datatype Client = Client(
    filter: Filter, closed: bool, closes: nat, inbox: seq<LogLine>, got: seq<LogLine>, received: seq<LogLine>)

  datatype Delivery<K(==)> = Idle | Sending(line: LogLine, todo: set<K>)

  /** `failed` is set when a closed channel is sent to; `broadcast` are the lines given to Broadcast,
      `taken` those the hub took off its channel, `asked` the clients ever given to Register. */
  datatype State<K(==)> = State(
    clients: map<K, Client>, registered: set<K>,
    registerCh: seq<K>, unregisterCh: seq<K>, broadcastCh: seq<LogLine>,
    stopped: bool, exited: bool, delivery: Delivery<K>,
    broadcast: seq<LogLine>, taken: seq<LogLine>, asked: set<K>, failed: bool)

  datatype Event<K(==)> =
    | Connect(c: K, filter: Filter)
    | Register(c: K)
    | Unregister(c: K)
    | Abandon                    // Register or Unregister after Stop
    | Broadcast(line: LogLine)
    | Stop
    | TakeRegister
    | TakeUnregister
    | TakeBroadcast
    | SendTo(c: K)
    | EndDelivery
    | TakeDone
    | Receive(c: K)              // the client's write pump

  function Start<K>(): State<K> {
    State(map[], {}, [], [], [], false, false, Idle, [], [], {}, false)
  }

  predicate Listening<K>(s: State<K>) { !s.exited && s.delivery.Idle? }

  predicate Enabled<K>(s: State<K>, e: Event<K>) {
    match e
    case Connect(c, _) => c !in s.clients
    case Register(c) => c in s.clients && |s.registerCh| < HUB_CONN_BUFFER
    case Unregister(c) => c in s.clients && |s.unregisterCh| < HUB_CONN_BUFFER
    case Abandon => s.stopped
    case Broadcast(_) => true
    case Stop => !s.stopped
    case TakeRegister => Listening(s) && s.registerCh != []
    case TakeUnregister => Listening(s) && s.unregisterCh != []
    case TakeBroadcast => Listening(s) && s.broadcastCh != []
    case SendTo(c) => s.delivery.Sending? && c in s.delivery.todo && c in s.clients
    case EndDelivery => s.delivery.Sending? && s.delivery.todo == {}
    case TakeDone => Listening(s) && s.stopped
    case Receive(c) => c in s.clients && s.clients[c].inbox != []
  }

  function Connected(filter: Filter): Client { Client(filter, false, 0, [], [], []) }

  /** Closing a client's channel, as both places in Run do it. */
  function Shut(c: Client): Client {
    if c.closed then c else c.(closed := true, closes := c.closes + 1)
  }

  /** One non-blocking send. */
  function Offered(c: Client, line: LogLine): Client {
    if MatchesFilter(c.filter, line) && !c.closed && |c.inbox| < CLIENT_SEND_BUFFER
    then c.(inbox := c.inbox + [line], got := c.got + [line]) else c
  }

  /** The write pump takes the first waiting line. */
  function Pumped(c: Client): Client
    requires c.inbox != []
  {
    c.(inbox := c.inbox[1..], received := c.received + [c.inbox[0]])
  }

  function Apply<K>(s: State<K>, e: Event<K>): State<K>
    requires Enabled(s, e)
  {
    match e
    case Connect(c, filter) => s.(clients := s.clients[c := Connected(filter)])
    case Register(c) => s.(registerCh := s.registerCh + [c], asked := s.asked + {c})
    case Unregister(c) => s.(unregisterCh := s.unregisterCh + [c])
    case Abandon => s
    case Broadcast(line) =>
      s.(broadcast := s.broadcast + [line],
         broadcastCh := if |s.broadcastCh| < HUB_BROADCAST_BUFFER then s.broadcastCh + [line] else s.broadcastCh)
    case Stop => s.(stopped := true)
    case TakeRegister => s.(registerCh := s.registerCh[1..], registered := s.registered + {s.registerCh[0]})
    case TakeUnregister =>
      var c := s.unregisterCh[0];
      var s1 := s.(unregisterCh := s.unregisterCh[1..]);
      if c in s.registered && c in s.clients then
        s1.(registered := s.registered - {c}, clients := s.clients[c := Shut(s.clients[c])])
      else s1
    case TakeBroadcast =>
      s.(broadcastCh := s.broadcastCh[1..], taken := s.taken + [s.broadcastCh[0]],
         delivery := Sending(s.broadcastCh[0], s.registered))
    case SendTo(c) =>
      s.(delivery := s.delivery.(todo := s.delivery.todo - {c}),
         clients := s.clients[c := Offered(s.clients[c], s.delivery.line)],
         failed := s.failed || (s.clients[c].closed && MatchesFilter(s.clients[c].filter, s.delivery.line)))
    case EndDelivery => s.(delivery := Idle)
    case TakeDone =>
      s.(exited := true, registered := {},
         clients := map c | c in s.clients :: if c in s.registered then Shut(s.clients[c]) else s.clients[c])
    case Receive(c) => s.(clients := s.clients[c := Pumped(s.clients[c])])
  }

  predicate Run<K>(s: State<K>, run: seq<Event<K>>)
    decreases |run|
  {
    run != [] ==> Enabled(s, run[0]) && Run(Apply(s, run[0]), run[1..])
  }

  function After<K>(s: State<K>, run: seq<Event<K>>): State<K>
    requires Run(s, run)
    decreases |run|
  {
    if run == [] then s else After(Apply(s, run[0]), run[1..])
  }

  /** No client is given to Register twice. */
  predicate OnceRun<K>(s: State<K>, run: seq<Event<K>>)
    requires Run(s, run)
    decreases |run|
  {
    run != [] ==> (run[0].Register? ==> run[0].c !in s.asked) && OnceRun(Apply(s, run[0]), run[1..])
  }

  lemma RunOne<K>(s: State<K>, e: Event<K>)
    requires Enabled(s, e)
    ensures Run(s, [e]) && After(s, [e]) == Apply(s, e)
  {
    assert [e][1..] == [] && Run(Apply(s, e), []);
  }

  lemma {:induction false} RunConcat<K>(s: State<K>, a: seq<Event<K>>, b: seq<Event<K>>)
    requires Run(s, a) && Run(After(s, a), b)
    ensures Run(s, a + b) && After(s, a + b) == After(After(s, a), b)
    decreases |a|
  {
    if a == [] {
      assert a + b == b;
    } else {
      assert (a + b)[1..] == a[1..] + b;
      RunConcat(Apply(s, a[0]), a[1..], b);
    }
  }

  // ---------------------------------------------------------------- the protocol

  /** Registered clients and those on their way to be registered are open, and asked for it. */
  ghost predicate Registrations<K>(s: State<K>) {
    && s.registered <= s.asked <= s.clients.Keys
    && (forall c :: c in s.registered ==> !s.clients[c].closed && c !in s.registerCh)
    && (forall c :: c in s.registerCh ==> c in s.asked && !s.clients[c].closed)
    && (forall i, j :: 0 <= i < j < |s.registerCh| ==> s.registerCh[i] != s.registerCh[j])
    && (s.delivery.Sending? ==> s.delivery.todo <= s.registered)
  }

  /** Until the hub ends, who asked is waiting, registered, or was closed. */
  ghost predicate Whereabouts<K>(s: State<K>) {
    && s.asked <= s.clients.Keys && (s.exited ==> s.stopped)
    && (!s.exited ==> forall c :: c in s.asked ==> c in s.registerCh || c in s.registered || s.clients[c].closed)
  }

  ghost predicate ClosedOnce<K>(s: State<K>) {
    && (forall c :: c in s.clients ==> s.clients[c].closes == if s.clients[c].closed then 1 else 0)
    && (forall c :: c in s.clients && s.clients[c].closed ==> c in s.asked)
  }

  ghost predicate Protocol<K>(s: State<K>) {
    !s.failed && Registrations(s) && Whereabouts(s) && ClosedOnce(s)
  }

  lemma StepClosedOnce<K>(s: State<K>, e: Event<K>)
    requires ClosedOnce(s) && Enabled(s, e) && s.registered <= s.asked
    ensures ClosedOnce(Apply(s, e))
  {
  }

  lemma StepWhereabouts<K>(s: State<K>, e: Event<K>)
    requires Whereabouts(s) && Enabled(s, e)
    ensures Whereabouts(Apply(s, e))
  {
    if e.TakeRegister? {
      assert s.registerCh == [s.registerCh[0]] + s.registerCh[1..];
    }
  }

  lemma AskedRegisters<K>(s: State<K>, e: Event<K>)
    requires Registrations(s) && ClosedOnce(s) && e.Register? && Enabled(s, e) && e.c !in s.asked
    ensures Registrations(Apply(s, e))
  {
  }

  lemma TakenRegisters<K>(s: State<K>, e: Event<K>)
    requires Registrations(s) && e.TakeRegister? && Enabled(s, e)
    ensures Registrations(Apply(s, e))
  {
    var c := s.registerCh[0];
    assert c in s.registerCh;
    assert forall i :: 0 <= i < |s.registerCh[1..]| ==> s.registerCh[1..][i] == s.registerCh[i + 1];
  }

  lemma OthersRegister<K>(s: State<K>, e: Event<K>)
    requires Registrations(s) && Enabled(s, e) && !e.Register? && !e.TakeRegister?
    ensures Registrations(Apply(s, e))
  {
  }

  lemma StepProtocol<K>(s: State<K>, e: Event<K>)
    requires Protocol(s) && Enabled(s, e) && (e.Register? ==> e.c !in s.asked)
    ensures Protocol(Apply(s, e))
  {
    StepClosedOnce(s, e);
    StepWhereabouts(s, e);
    if e.Register? {
      AskedRegisters(s, e);
    } else if e.TakeRegister? {
      TakenRegisters(s, e);
    } else {
      OthersRegister(s, e);
      assert e.SendTo? ==> e.c in s.registered;
    }
  }

  lemma {:induction false} RunProtocol<K>(s: State<K>, run: seq<Event<K>>)
    requires Protocol(s) && Run(s, run) && OnceRun(s, run)
    ensures Protocol(After(s, run))
    decreases |run|
  {
    if run != [] {
      StepProtocol(s, run[0]);
      RunProtocol(Apply(s, run[0]), run[1..]);
    }
  }

  /** If every client registers at most once, then in every interleaving no closed channel is ever
      sent to or closed again, each is closed at most once, and registered clients are open. */
  lemma ChannelsSafe<K>(run: seq<Event<K>>)
    requires Run(Start<K>(), run) && OnceRun(Start<K>(), run)
    ensures var s := After(Start<K>(), run);
            && !s.failed
            && (forall c :: c in s.clients ==> s.clients[c].closes <= 1)
            && (forall c :: c in s.registered ==> c in s.clients && !s.clients[c].closed)
  {
    RunProtocol(Start<K>(), run);
  }

  // ---------------------------------------------------------------- delivery in order

  function Matching(f: Filter, lines: seq<LogLine>): seq<LogLine> {
    if lines == [] then []
    else Matching(f, lines[..|lines| - 1])
         + (if MatchesFilter(f, lines[|lines| - 1]) then [lines[|lines| - 1]] else [])
  }

  /** The lines whose delivery to the client is over. */
  function Past<K>(s: State<K>, c: K): seq<LogLine> {
    if s.delivery.Sending? && c in s.delivery.todo && s.taken != [] then s.taken[..|s.taken| - 1] else s.taken
  }

  /** What the client was given is, in order, part of the matching lines; what it received and what
      still waits are exactly that. */
  ghost predicate ServedInOrder(c: Client, past: seq<LogLine>) {
    Subseq(c.got, Matching(c.filter, past)) && c.received + c.inbox == c.got
  }

  ghost predicate DeliversLast<K>(s: State<K>) {
    s.delivery.Sending? ==> s.taken != [] && s.taken[|s.taken| - 1] == s.delivery.line
  }

  /** The hub takes what was broadcast, in order, less what found its channel full. */
  ghost predicate TakesInOrder<K>(s: State<K>) {
    Subseq(s.taken + s.broadcastCh, s.broadcast)
  }

  ghost predicate InOrder<K>(s: State<K>) {
    && DeliversLast(s) && TakesInOrder(s)
    && (forall c :: c in s.clients ==> ServedInOrder(s.clients[c], Past(s, c)))
  }

  lemma MatchingSnoc(f: Filter, lines: seq<LogLine>, line: LogLine)
    ensures Matching(f, lines + [line]) == Matching(f, lines) + (if MatchesFilter(f, line) then [line] else [])
  {
    assert (lines + [line])[..|lines + [line]| - 1] == lines;
  }

  lemma SubseqSnoc(a: seq<LogLine>, b: seq<LogLine>, line: LogLine)
    requires Subseq(a, b)
    ensures Subseq(a, b + [line]) && Subseq(a + [line], b + [line])
  {
    SubseqRefl([line]);
    SubseqConcat(a, b, [line], [line]);
    SubseqConcat(a, b, [], [line]);
    assert a + [] == a;
  }

  /** One more line taken off the broadcast channel, not yet offered, or offered, to the client. */
  lemma OfferedInOrder(c: Client, past: seq<LogLine>, line: LogLine)
    requires ServedInOrder(c, past)
    ensures ServedInOrder(c, past + [line]) && ServedInOrder(Offered(c, line), past + [line])
  {
    MatchingSnoc(c.filter, past, line);
    SubseqSnoc(c.got, Matching(c.filter, past), line);
    assert c.received + (c.inbox + [line]) == c.got + [line];
    assert Matching(c.filter, past) + [] == Matching(c.filter, past);
  }

  lemma ReceivedOne(c: Client, past: seq<LogLine>)
    requires ServedInOrder(c, past) && c.inbox != []
    ensures ServedInOrder(Pumped(c), past)
  {
    assert c.received + [c.inbox[0]] + c.inbox[1..] == c.received + c.inbox;
  }

  lemma ShutInOrder(c: Client, past: seq<LogLine>)
    requires ServedInOrder(c, past)
    ensures ServedInOrder(Shut(c), past)
  {
  }

  /** What a step other than a send can do to a client. */
  lemma ClientStep<K>(s: State<K>, e: Event<K>, c: K)
    requires Enabled(s, e) && !e.SendTo? && c in s.clients
    ensures var client := s.clients[c]; var client' := Apply(s, e).clients;
            c in client' && (client'[c] == client || client'[c] == Shut(client)
                             || (e == Receive(c) && client'[c] == Pumped(client)))
  {
  }

  /** What a step other than a send or a take leaves of the deliveries. */
  lemma PastStep<K>(s: State<K>, e: Event<K>, c: K)
    requires Enabled(s, e) && !e.SendTo? && !e.TakeBroadcast?
    ensures Past(Apply(s, e), c) == Past(s, c)
  {
  }

  lemma ServedStep<K>(s: State<K>, e: Event<K>, c: K)
    requires Enabled(s, e) && !e.SendTo? && c in s.clients && ServedInOrder(s.clients[c], Past(s, c))
    ensures ServedInOrder(Apply(s, e).clients[c], Past(s, c))
  {
    ClientStep(s, e, c);
    ShutInOrder(s.clients[c], Past(s, c));
    if e == Receive(c) { ReceivedOne(s.clients[c], Past(s, c)); }
  }

  lemma SendStep<K>(s: State<K>, e: Event<K>, c: K)
    requires e.SendTo? && Enabled(s, e) && c in s.clients && s.taken != []
    requires s.taken[|s.taken| - 1] == s.delivery.line && ServedInOrder(s.clients[c], Past(s, c))
    ensures ServedInOrder(Apply(s, e).clients[c], Past(Apply(s, e), c))
  {
    if c == e.c {
      assert Past(s, c) + [s.delivery.line] == s.taken == Past(Apply(s, e), c);
      OfferedInOrder(s.clients[c], Past(s, c), s.delivery.line);
    } else {
      assert Past(Apply(s, e), c) == Past(s, c);
    }
  }

  lemma TakeStep<K>(s: State<K>, e: Event<K>, c: K)
    requires e.TakeBroadcast? && Enabled(s, e) && c in s.clients && ServedInOrder(s.clients[c], s.taken)
    ensures ServedInOrder(s.clients[c], Past(Apply(s, e), c))
  {
    var line := s.broadcastCh[0];
    assert (s.taken + [line])[..|s.taken + [line]| - 1] == s.taken;
    OfferedInOrder(s.clients[c], s.taken, line);
  }

  lemma StepServes<K>(s: State<K>, e: Event<K>, c: K)
    requires InOrder(s) && Enabled(s, e) && c in s.clients
    ensures c in Apply(s, e).clients && ServedInOrder(Apply(s, e).clients[c], Past(Apply(s, e), c))
  {
    SameClients(s, e);
    if e.SendTo? {
      SendStep(s, e, c);
    } else if e.TakeBroadcast? {
      TakeStep(s, e, c);
    } else {
      PastStep(s, e, c);
      ServedStep(s, e, c);
    }
  }

  lemma DeliveryStep<K>(s: State<K>, e: Event<K>)
    requires DeliversLast(s) && Enabled(s, e)
    ensures DeliversLast(Apply(s, e))
  {
  }

  lemma SameClients<K>(s: State<K>, e: Event<K>)
    requires Enabled(s, e)
    ensures Apply(s, e).clients.Keys == s.clients.Keys + (if e.Connect? then {e.c} else {})
  {
  }

  lemma TakesStep<K>(s: State<K>, e: Event<K>)
    requires TakesInOrder(s) && Enabled(s, e)
    ensures TakesInOrder(Apply(s, e))
  {
    if e.TakeBroadcast? {
      assert s.taken + [s.broadcastCh[0]] + s.broadcastCh[1..] == s.taken + s.broadcastCh;
    } else if e.Broadcast? {
      SubseqSnoc(s.taken + s.broadcastCh, s.broadcast, e.line);
      assert s.taken + (s.broadcastCh + [e.line]) == s.taken + s.broadcastCh + [e.line];
    }
  }

  /** A new client was given nothing. */
  lemma ConnectServes<K>(s: State<K>, e: Event<K>)
    requires e.Connect? && Enabled(s, e)
    ensures ServedInOrder(Apply(s, e).clients[e.c], Past(Apply(s, e), e.c))
  {
  }

  lemma StepInOrder<K>(s: State<K>, e: Event<K>)
    requires InOrder(s) && Enabled(s, e)
    ensures InOrder(Apply(s, e))
  {
    SameClients(s, e);
    DeliveryStep(s, e);
    TakesStep(s, e);
    forall c | c in Apply(s, e).clients ensures ServedInOrder(Apply(s, e).clients[c], Past(Apply(s, e), c)) {
      if c in s.clients { StepServes(s, e, c); } else { ConnectServes(s, e); }
    }
  }

  lemma {:induction false} RunInOrder<K>(s: State<K>, run: seq<Event<K>>)
    requires InOrder(s) && Run(s, run)
    ensures InOrder(After(s, run))
    decreases |run|
  {
    if run != [] {
      StepInOrder(s, run[0]);
      RunInOrder(Apply(s, run[0]), run[1..]);
    }
  }

  lemma {:induction false} MatchingSubseq(f: Filter, a: seq<LogLine>, b: seq<LogLine>)
    requires Subseq(a, b)
    ensures Subseq(Matching(f, a), Matching(f, b))
    decreases |b|
  {
    if a != [] {
      MatchingCons(f, b[0], b[1..]);
      assert b == [b[0]] + b[1..];
      if a[0] == b[0] && Subseq(a[1..], b[1..]) {
        MatchingSubseq(f, a[1..], b[1..]);
        MatchingCons(f, a[0], a[1..]);
        assert a == [a[0]] + a[1..];
        SubseqRefl(Matching(f, [a[0]]));
        SubseqConcat(Matching(f, [a[0]]), Matching(f, [b[0]]), Matching(f, a[1..]), Matching(f, b[1..]));
      } else {
        MatchingSubseq(f, a, b[1..]);
        SubseqSkip(Matching(f, a), Matching(f, [b[0]]), Matching(f, b[1..]));
      }
    }
  }

  lemma {:induction false} MatchingCons(f: Filter, line: LogLine, rest: seq<LogLine>)
    ensures Matching(f, [line] + rest) == Matching(f, [line]) + Matching(f, rest)
    decreases |rest|
  {
    if rest == [] {
      assert [line] + rest == [line] && Matching(f, [line]) + [] == Matching(f, [line]);
    } else {
      var front, last := rest[..|rest| - 1], rest[|rest| - 1];
      assert rest == front + [last] && [line] + rest == ([line] + front) + [last];
      MatchingSnoc(f, [line] + front, last);
      MatchingSnoc(f, front, last);
      MatchingCons(f, line, front);
    }
  }

  /** A filter lets a line through if and only if it names no source or the line's, and no level, a name
      that is none, a line of no known level, or a level not above the line's. */
  lemma MatchesExactly(f: Filter, line: LogLine)
    ensures MatchesFilter(f, line)
            <==> && (f.sourceName == "" || f.sourceName == line.source)
                 && (f.minLevel in LEVEL_ORDER && line.level in LEVEL_ORDER ==>
                       exists i, j :: 0 <= i <= j < |LEVEL_ORDER| && LEVEL_ORDER[i] == f.minLevel
                                      && LEVEL_ORDER[j] == line.level)
  {
    LevelsInOrder();
    if f.minLevel in LEVEL_ORDER && line.level in LEVEL_ORDER {
      var a, b := LOG_LEVELS[f.minLevel], LOG_LEVELS[line.level];
      if a <= b { assert LEVEL_ORDER[a] == f.minLevel && LEVEL_ORDER[b] == line.level; }
      if i, j :| 0 <= i <= j < |LEVEL_ORDER| && LEVEL_ORDER[i] == f.minLevel && LEVEL_ORDER[j] == line.level {
        assert LOG_LEVELS[LEVEL_ORDER[i]] == i && LOG_LEVELS[LEVEL_ORDER[j]] == j;
      }
      assert f.minLevel != "";
    }
  }

  // ---------------------------------------------------------------- nothing is withheld

  /** A line offered to an open client that matches and has room is put at the end of its channel. */
  lemma OfferPuts<K>(s: State<K>, c: K)
    requires Enabled(s, SendTo(c)) && !s.clients[c].closed && MatchesFilter(s.clients[c].filter, s.delivery.line)
    requires |s.clients[c].inbox| < 64
    ensures Apply(s, SendTo(c)).clients[c].inbox == s.clients[c].inbox + [s.delivery.line]
    ensures Apply(s, SendTo(c)).clients[c].got == s.clients[c].got + [s.delivery.line]
  {
  }

  /** The client stays registered, and has room whenever a matching line is offered to it. */
  predicate RoomFor<K>(s: State<K>, c: K, run: seq<Event<K>>)
    requires Run(s, run)
    decreases |run|
  {
    run != [] ==>
      && !run[0].TakeDone? && (run[0].TakeUnregister? ==> s.unregisterCh[0] != c)
      && (run[0] == SendTo(c) ==> |s.clients[c].inbox| < 64)
      && RoomFor(Apply(s, run[0]), c, run[1..])
  }

  /** An open registered client was given, since the first n lines were taken, exactly what matched of
      those whose delivery to it is over. */
  ghost predicate GivenAll<K>(s: State<K>, c: K, before: seq<LogLine>, n: nat) {
    && c in s.registered && c in s.clients && !s.clients[c].closed && DeliversLast(s)
    && n <= |Past(s, c)|
    && s.clients[c].got == before + Matching(s.clients[c].filter, Past(s, c)[n..])
  }

  lemma GivenOne<K>(s: State<K>, c: K, before: seq<LogLine>, n: nat)
    requires GivenAll(s, c, before, n) && Enabled(s, SendTo(c)) && |s.clients[c].inbox| < 64
    ensures GivenAll(Apply(s, SendTo(c)), c, before, n)
  {
    var past, line := Past(s, c), s.delivery.line;
    assert past + [line] == s.taken == Past(Apply(s, SendTo(c)), c);
    MatchingFrom(s.clients[c].filter, before, past, n, line, s.taken);
  }

  lemma MatchingFrom(f: Filter, before: seq<LogLine>, past: seq<LogLine>, n: nat, line: LogLine, taken: seq<LogLine>)
    requires n <= |past| && taken == past + [line]
    ensures before + Matching(f, taken[n..])
            == if MatchesFilter(f, line) then (before + Matching(f, past[n..])) + [line] else before + Matching(f, past[n..])
  {
    assert taken[n..] == past[n..] + [line];
    MatchingSnoc(f, past[n..], line);
    var m := Matching(f, past[n..]);
    assert before + (m + [line]) == (before + m) + [line] && m + [] == m;
  }

  /** What a step other than the client's own send, or one that removes it, does to it. */
  lemma GivenSame<K>(s: State<K>, e: Event<K>, c: K)
    requires Enabled(s, e) && c in s.registered && c in s.clients && DeliversLast(s)
    requires e != SendTo(c) && !e.TakeDone? && (e.TakeUnregister? ==> s.unregisterCh[0] != c)
    ensures var s' := Apply(s, e);
            && c in s'.registered && c in s'.clients && s'.clients[c].got == s.clients[c].got
            && s'.clients[c].filter == s.clients[c].filter && s'.clients[c].closed == s.clients[c].closed
            && Past(s', c) == Past(s, c)
  {
    if e.TakeBroadcast? {
      var line := s.broadcastCh[0];
      assert (s.taken + [line])[..|s.taken + [line]| - 1] == s.taken;
    }
  }

  lemma {:induction false} RunGivesAll<K>(s: State<K>, c: K, run: seq<Event<K>>, before: seq<LogLine>, n: nat)
    requires GivenAll(s, c, before, n) && Run(s, run) && RoomFor(s, c, run)
    ensures GivenAll(After(s, run), c, before, n)
    decreases |run|
  {
    if run != [] {
      var e := run[0];
      if e == SendTo(c) {
        GivenOne(s, c, before, n);
      } else {
        GivenSame(s, e, c);
        DeliveryStep(s, e);
      }
      RunGivesAll(Apply(s, e), c, run[1..], before, n);
    }
  }

  /** Nothing is withheld: from a moment when no delivery is under way, an open registered client that
      stays registered and always has room is given every matching line the hub takes from then on. */
  lemma RegisteredGetsAll<K>(s: State<K>, c: K, run: seq<Event<K>>)
    requires s.delivery.Idle? && c in s.registered && c in s.clients && !s.clients[c].closed
    requires Run(s, run) && RoomFor(s, c, run) && After(s, run).delivery.Idle?
    ensures var s' := After(s, run);
            && c in s'.clients && |s.taken| <= |s'.taken|
            && s'.clients[c].got == s.clients[c].got + Matching(s.clients[c].filter, s'.taken[|s.taken|..])
  {
    assert s.clients[c].got + [] == s.clients[c].got;
    RunGivesAll(s, c, run, s.clients[c].got, |s.taken|);
    RunFilter(s, c, run);
  }

  lemma {:induction false} RunFilter<K>(s: State<K>, c: K, run: seq<Event<K>>)
    requires c in s.clients && Run(s, run)
    ensures c in After(s, run).clients && After(s, run).clients[c].filter == s.clients[c].filter
    decreases |run|
  {
    if run != [] { RunFilter(Apply(s, run[0]), c, run[1..]); }
  }

  /** Whenever a line is broadcast, fewer than 256 lines wait. */
  predicate BroadcastRoom<K>(s: State<K>, run: seq<Event<K>>)
    requires Run(s, run)
    decreases |run|
  {
    run != [] ==>
      && (run[0].Broadcast? ==> |s.broadcastCh| < 256)
      && BroadcastRoom(Apply(s, run[0]), run[1..])
  }

  /** With room, every line given to Broadcast is taken or waits, in order. */
  lemma {:induction false} NothingDroppedWithRoom<K>(s: State<K>, run: seq<Event<K>>)
    requires s.taken + s.broadcastCh == s.broadcast && Run(s, run) && BroadcastRoom(s, run)
    ensures var s' := After(s, run); s'.taken + s'.broadcastCh == s'.broadcast
    decreases |run|
  {
    if run != [] {
      var e := run[0];
      if e.TakeBroadcast? {
        assert s.taken + [s.broadcastCh[0]] + s.broadcastCh[1..] == s.taken + s.broadcastCh;
      } else if e.Broadcast? {
        assert s.taken + (s.broadcastCh + [e.line]) == s.taken + s.broadcastCh + [e.line];
      }
      NothingDroppedWithRoom(Apply(s, e), run[1..]);
    }
  }

  /** What a client receives is, in order, a part of the lines given to Broadcast that match its
      filter; what was put into its channel is what it received and what still waits there. */
  lemma ReceivedInOrder<K>(run: seq<Event<K>>, c: K)
    requires Run(Start<K>(), run) && c in After(Start<K>(), run).clients
    ensures var s := After(Start<K>(), run); var client := s.clients[c];
            && client.received + client.inbox == client.got
            && Subseq(client.got, Matching(client.filter, s.taken))
            && Subseq(s.taken + s.broadcastCh, s.broadcast)
            && Subseq(client.received, Matching(client.filter, s.broadcast))
  {
    RunInOrder(Start<K>(), run);
    var s := After(Start<K>(), run);
    ServedSoFar(s, c);
    ReceivedFrom(s.clients[c], s.taken, s.broadcastCh, s.broadcast);
  }

  lemma ReceivedFrom(c: Client, taken: seq<LogLine>, waiting: seq<LogLine>, broadcast: seq<LogLine>)
    requires ServedInOrder(c, taken) && Subseq(taken + waiting, broadcast)
    ensures Subseq(c.received, Matching(c.filter, broadcast))
  {
    PrefixOf(c.received, c.inbox);
    PrefixOf(taken, waiting);
    SubseqTrans(taken, taken + waiting, broadcast);
    MatchingSubseq(c.filter, taken, broadcast);
    SubseqTrans(c.received, c.got, Matching(c.filter, taken));
    SubseqTrans(c.received, Matching(c.filter, taken), Matching(c.filter, broadcast));
  }

  lemma PrefixOf(a: seq<LogLine>, b: seq<LogLine>)
    ensures Subseq(a, a + b)
  {
    SubseqRefl(a);
    SubseqConcat(a, a, [], b);
    assert a + [] == a;
  }

  lemma ServedSoFar<K>(s: State<K>, c: K)
    requires InOrder(s) && c in s.clients
    ensures ServedInOrder(s.clients[c], s.taken)
  {
    if Past(s, c) != s.taken {
      assert Past(s, c) + [s.delivery.line] == s.taken;
      OfferedInOrder(s.clients[c], Past(s, c), s.delivery.line);
    }
  }

  // ---------------------------------------------------------------- why once

  predicate NoRegister<K>(run: seq<Event<K>>) {
    forall e :: e in run ==> !e.Register?
  }

  lemma NoRegisterConcat<K>(a: seq<Event<K>>, b: seq<Event<K>>)
    requires NoRegister(a) && NoRegister(b)
    ensures NoRegister(a + b)
  {
  }

  /** The hub goes on, and nothing it will look at is unknown to it. */
  ghost predicate Going<K>(s: State<K>) {
    && !s.exited && s.registered <= s.clients.Keys && (forall c :: c in s.registerCh ==> c in s.clients)
    && (s.delivery.Sending? ==> s.delivery.todo <= s.clients.Keys)
  }

  ghost predicate SameClosed<K>(s: State<K>, s': State<K>) {
    && s'.clients.Keys == s.clients.Keys
    && forall c :: c in s.clients ==>
         s'.clients[c].closed == s.clients[c].closed && s'.clients[c].filter == s.clients[c].filter
  }

  /** A delivery under way can be finished. */
  lemma FinishDelivery<K>(s: State<K>) returns (run: seq<Event<K>>)
    requires Going(s)
    ensures Run(s, run) && NoRegister(run)
    ensures var s' := After(s, run);
            s' == s.(delivery := Idle, clients := s'.clients, failed := s'.failed) && SameClosed(s, s')
    decreases if s.delivery.Sending? then |s.delivery.todo| + 1 else 0
  {
    if s.delivery.Idle? {
      return [];
    }
    if s.delivery.todo == {} {
      RunOne(s, EndDelivery);
      return [EndDelivery];
    }
    var c :| c in s.delivery.todo;
    SendKeeps(s, c);
    RunOne(s, SendTo(c));
    var rest := FinishDelivery(Apply(s, SendTo(c)));
    RunConcat(s, [SendTo(c)], rest);
    NoRegisterConcat([SendTo(c)], rest);
    run := [SendTo(c)] + rest;
  }

  lemma SendKeeps<K>(s: State<K>, c: K)
    requires Going(s) && s.delivery.Sending? && c in s.delivery.todo
    ensures Enabled(s, SendTo(c)) && Going(Apply(s, SendTo(c))) && SameClosed(s, Apply(s, SendTo(c)))
    ensures var s' := Apply(s, SendTo(c));
            && s'.delivery == Sending(s.delivery.line, s.delivery.todo - {c})
            && s' == s.(delivery := s'.delivery, clients := s'.clients, failed := s'.failed)
  {
  }

  /** What waits in the broadcast channel can be delivered. */
  lemma DrainBroadcasts<K>(s: State<K>) returns (run: seq<Event<K>>)
    requires Going(s)
    ensures Run(s, run) && NoRegister(run)
    ensures var s' := After(s, run);
            && s' == s.(delivery := Idle, broadcastCh := [], taken := s'.taken, clients := s'.clients, failed := s'.failed)
            && SameClosed(s, s')
    decreases |s.broadcastCh|
  {
    var first := FinishDelivery(s);
    var s1 := After(s, first);
    if s1.broadcastCh == [] {
      return first;
    }
    RunOne(s1, TakeBroadcast);
    var rest := DrainBroadcasts(Apply(s1, TakeBroadcast));
    RunConcat(s1, [TakeBroadcast], rest);
    RunConcat(s, first, [TakeBroadcast] + rest);
    NoRegisterConcat([TakeBroadcast], rest);
    NoRegisterConcat(first, [TakeBroadcast] + rest);
    run := first + ([TakeBroadcast] + rest);
  }

  lemma RegisterOne<K>(s: State<K>)
    requires Going(s) && s.delivery.Idle? && s.registerCh != []
    ensures Enabled(s, TakeRegister) && Going(Apply(s, TakeRegister))
    ensures Apply(s, TakeRegister)
            == s.(registered := s.registered + {s.registerCh[0]}, registerCh := s.registerCh[1..])
  {
    assert s.registerCh[0] in s.registerCh;
  }

  /** The first n waiting clients can be registered. */
  lemma RegisterFirst<K>(s: State<K>, n: nat) returns (run: seq<Event<K>>)
    requires Going(s) && s.delivery.Idle? && n <= |s.registerCh|
    ensures Run(s, run) && NoRegister(run)
    ensures var s' := After(s, run);
            && s' == s.(registered := s'.registered, registerCh := s.registerCh[n..])
            && s'.registered >= s.registered && (forall i :: 0 <= i < n ==> s.registerCh[i] in s'.registered)
            && s'.registered <= s.clients.Keys
    decreases n
  {
    if n == 0 {
      assert s.registerCh[0..] == s.registerCh;
      return [];
    }
    RunOne(s, TakeRegister);
    RegisterOne(s);
    var rest := RegisterFirst(Apply(s, TakeRegister), n - 1);
    assert s.registerCh[1..][n - 1..] == s.registerCh[n..];
    assert forall i :: 0 < i < n ==> s.registerCh[i] == s.registerCh[1..][i - 1];
    RunConcat(s, [TakeRegister], rest);
    NoRegisterConcat([TakeRegister], rest);
    run := [TakeRegister] + rest;
  }

  /** Everyone who asked to leave can be closed; the others stay. */
  lemma UnregisterAll<K>(s: State<K>, c: K) returns (run: seq<Event<K>>)
    requires Going(s) && s.delivery.Idle? && c in s.clients
    ensures Run(s, run) && NoRegister(run)
    ensures var s' := After(s, run);
            && s' == s.(registered := s'.registered, unregisterCh := [], clients := s'.clients)
            && s'.clients.Keys == s.clients.Keys && s'.registered <= s.registered
            && s'.clients[c].filter == s.clients[c].filter && (s.clients[c].closed ==> s'.clients[c].closed)
            && (c in s.registered ==> c in s'.registered || s'.clients[c].closed)
    decreases |s.unregisterCh|
  {
    if s.unregisterCh == [] {
      return [];
    }
    RunOne(s, TakeUnregister);
    var rest := UnregisterAll(Apply(s, TakeUnregister), c);
    RunConcat(s, [TakeUnregister], rest);
    NoRegisterConcat([TakeUnregister], rest);
    run := [TakeUnregister] + rest;
  }

  /** A registered client can be closed. */
  lemma CloseClient<K>(s: State<K>, c: K) returns (run: seq<Event<K>>)
    requires Going(s) && s.delivery.Idle? && c in s.registered
    ensures Run(s, run) && NoRegister(run)
    ensures var s' := After(s, run);
            && s' == s.(registered := s'.registered, unregisterCh := [], clients := s'.clients)
            && s'.clients.Keys == s.clients.Keys && s'.registered <= s.registered && s'.clients[c].closed
  {
    run := UnregisterAll(s, c);
    var s1 := After(s, run);
    if !s1.clients[c].closed {
      RunOne(s1, Unregister(c));
      var s2 := Apply(s1, Unregister(c));
      RunOne(s2, TakeUnregister);
      RunConcat(s1, [Unregister(c)], [TakeUnregister]);
      RunConcat(s, run, [Unregister(c)] + [TakeUnregister]);
      NoRegisterConcat(run, [Unregister(c)] + [TakeUnregister]);
      run := run + ([Unregister(c)] + [TakeUnregister]);
    }
  }

  /** A line that every filter naming this source lets through. */
  function LineFor(f: Filter): LogLine { LogLine(0, "", "", f.sourceName) }

  lemma NoLevel()
    ensures "" !in LOG_LEVELS
  {
    assert forall name :: name in LOG_LEVELS ==> |name| > 0;
  }

  /** A closed client that is registered will be sent to. */
  lemma SendFails<K>(s: State<K>, c: K) returns (run: seq<Event<K>>)
    requires Going(s) && s.delivery.Idle? && s.broadcastCh == [] && c in s.registered && s.clients[c].closed
    ensures Run(s, run) && NoRegister(run) && After(s, run).failed
  {
    var line := LineFor(s.clients[c].filter);
    NoLevel();
    assert MatchesFilter(s.clients[c].filter, line);
    var s1 := Apply(s, Broadcast(line));
    assert s1.broadcastCh == [line];
    var s2 := Apply(s1, TakeBroadcast);
    RunOne(s, Broadcast(line));
    RunOne(s1, TakeBroadcast);
    RunOne(s2, SendTo(c));
    RunConcat(s1, [TakeBroadcast], [SendTo(c)]);
    RunConcat(s, [Broadcast(line)], [TakeBroadcast] + [SendTo(c)]);
    run := [Broadcast(line)] + ([TakeBroadcast] + [SendTo(c)]);
  }

  /** A closed client that waits to be registered will be registered, and then sent to. */
  lemma ClosedWaiting<K>(s: State<K>, c: K) returns (run: seq<Event<K>>)
    requires Going(s) && s.delivery.Idle? && s.broadcastCh == [] && c in s.registerCh && s.clients[c].closed
    ensures Run(s, run) && NoRegister(run) && After(s, run).failed
  {
    var first := RegisterFirst(s, |s.registerCh|);
    var rest := SendFails(After(s, first), c);
    RunConcat(s, first, rest);
    NoRegisterConcat(first, rest);
    run := first + rest;
  }

  /** So will one that is registered and waits to be registered again. */
  lemma RegisteredWaiting<K>(s: State<K>, c: K) returns (run: seq<Event<K>>)
    requires Going(s) && s.delivery.Idle? && s.broadcastCh == [] && c in s.registerCh && c in s.registered
    ensures Run(s, run) && NoRegister(run) && After(s, run).failed
  {
    var first := CloseClient(s, c);
    var rest := ClosedWaiting(After(s, first), c);
    RunConcat(s, first, rest);
    NoRegisterConcat(first, rest);
    run := first + rest;
  }

  /** And one that waits twice. */
  lemma TwiceWaiting<K>(s: State<K>, c: K, k: nat) returns (run: seq<Event<K>>)
    requires Going(s) && s.delivery.Idle? && s.broadcastCh == []
    requires k + 1 < |s.registerCh| && s.registerCh[k] == c && c in s.registerCh[k + 1..]
    ensures Run(s, run) && NoRegister(run) && After(s, run).failed
  {
    var first := RegisterFirst(s, k + 1);
    var rest := RegisteredWaiting(After(s, first), c);
    RunConcat(s, first, rest);
    NoRegisterConcat(first, rest);
    run := first + rest;
  }

  lemma WaitsAgain<K>(waiting: seq<K>, k: nat, c: K)
    requires k < |waiting|
    ensures c in (waiting + [c])[k + 1..]
  {
    assert (waiting + [c])[k + 1..] == waiting[k + 1..] + [c];
  }

  /** Whatever became of the first registration, a second one can be made to fail. */
  lemma SecondFails<K>(s: State<K>, c: K) returns (run: seq<Event<K>>)
    requires Protocol(s) && !s.stopped && Enabled(s, Register(c)) && c in s.asked
    ensures Run(s, [Register(c)] + run) && NoRegister(run) && After(s, [Register(c)] + run).failed
  {
    var s1 := Apply(s, Register(c));
    assert Going(s1);
    var first := DrainBroadcasts(s1);
    var s2 := After(s1, first);
    var rest;
    if s.clients[c].closed {
      rest := ClosedWaiting(s2, c);
    } else if c in s.registered {
      rest := RegisteredWaiting(s2, c);
    } else {
      var k :| 0 <= k < |s.registerCh| && s.registerCh[k] == c;
      WaitsAgain(s.registerCh, k, c);
      rest := TwiceWaiting(s2, c, k);
    }
    RunConcat(s1, first, rest);
    NoRegisterConcat(first, rest);
    run := first + rest;
    assert ([Register(c)] + run)[1..] == run;
  }

  lemma {:induction false} NoRegisterOnce<K>(s: State<K>, run: seq<Event<K>>)
    requires Run(s, run) && NoRegister(run)
    ensures OnceRun(s, run)
    decreases |run|
  {
    if run != [] {
      assert run[0] in run;
      NoRegisterOnce(Apply(s, run[0]), run[1..]);
    }
  }

  /** The exact condition for registering: from any state the protocol allows in a hub that was not
      stopped, no continuation without another Register ever sends to a closed channel if and only if
      the client was never given to Register before. */
  lemma RegisterSafeIff<K>(s: State<K>, c: K)
    requires Protocol(s) && !s.stopped && Enabled(s, Register(c))
    ensures (forall run :: NoRegister(run) && Run(s, [Register(c)] + run) ==> !After(s, [Register(c)] + run).failed)
            <==> c !in s.asked
  {
    if c in s.asked {
      var run := SecondFails(s, c);
    } else {
      forall run | NoRegister(run) && Run(s, [Register(c)] + run)
        ensures !After(s, [Register(c)] + run).failed
      {
        assert ([Register(c)] + run)[1..] == run;
        var s1 := Apply(s, Register(c));
        StepProtocol(s, Register(c));
        NoRegisterOnce(s1, run);
        RunProtocol(s1, run);
      }
    }
  }

  // ---------------------------------------------------------------- the code

  /** Client, with its Send channel. */
  class Connection {
    const filter: Filter
    var closed: bool
    var inbox: seq<LogLine>
    ghost var closes: nat
    ghost var got: seq<LogLine>
    ghost var received: seq<LogLine>

    ghost function Snapshot(): Client
      reads this
    {
      Client(filter, closed, closes, inbox, got, received)
    }

    constructor (filter: Filter)
      ensures Snapshot() == Connected(filter)
    {
      this.filter := filter;
      closed, inbox, closes, got, received := false, [], 0, [], [];
    }

    /** close(Send), behind the check of the flag. */
    method CloseSend()
      modifies this`closed, this`closes
      ensures Snapshot() == Shut(old(Snapshot()))
    {
      if !closed {
        closed, closes := true, closes + 1;
      }
    }

    /** The non-blocking send: a full channel drops the line, a closed one panics. */
    method TrySend(line: LogLine) returns (panicked: bool)
      modifies this`inbox, this`got
      ensures panicked == closed
      ensures MatchesFilter(filter, line) ==> Snapshot() == Offered(old(Snapshot()), line)
      ensures inbox == if !closed && |old(inbox)| < 64 then old(inbox) + [line] else old(inbox)
    {
      if closed {
        return true;
      }
      if |inbox| < CLIENT_SEND_BUFFER {
        inbox, got := inbox + [line], got + [line];
      }
      return false;
    }

    /** The write pump takes the next line. */
    method Pump() returns (line: LogLine)
      requires inbox != []
      modifies this`inbox, this`received
      ensures Snapshot() == Pumped(old(Snapshot())) && line == old(inbox[0])
    {
      line := inbox[0];
      inbox, received := inbox[1..], received + [line];
    }
  }

  /** The hub: the channels, and the cases of Run, one method each. `panicked` is set by a send to a
      closed channel. */
  class Registry {
    var clients: set<Connection>
    var registerCh: seq<Connection>
    var unregisterCh: seq<Connection>
    var broadcastCh: seq<LogLine>
    var done: bool
    var exited: bool
    var panicked: bool
    ghost var all: set<Connection>
    ghost var delivery: Delivery<Connection>
    ghost var broadcast: seq<LogLine>
    ghost var taken: seq<LogLine>
    ghost var asked: set<Connection>

    ghost function Snapshots(): map<Connection, Client>
      reads this, all
    {
      map c | c in all :: c.Snapshot()
    }

    ghost function View(): State<Connection>
      reads this, all
    {
      State(Snapshots(), clients, registerCh, unregisterCh, broadcastCh, done, exited,
            delivery, broadcast, taken, asked, panicked)
    }

    constructor ()
      ensures View() == Start<Connection>()
    {
      clients, registerCh, unregisterCh, broadcastCh := {}, [], [], [];
      done, exited, panicked := false, false, false;
      all, delivery, broadcast, taken, asked := {}, Idle, [], [], {};
    }

    /** A connection is made, with its client. */
    method Accept(filter: Filter) returns (c: Connection)
      modifies this`all
      ensures fresh(c) && Enabled(old(View()), Connect(c, filter))
      ensures View() == Apply(old(View()), Connect(c, filter))
    {
      c := new Connection(filter);
      all := all + {c};
    }

    method Register(c: Connection, gaveUp: bool)
      requires c in all && if gaveUp then done else |registerCh| < HUB_CONN_BUFFER
      modifies this`registerCh, this`asked
      ensures View() == Apply(old(View()), if gaveUp then Abandon else Event.Register(c))
      ensures registerCh == if gaveUp then old(registerCh) else old(registerCh) + [c]
    {
      if !gaveUp {
        registerCh, asked := registerCh + [c], asked + {c};
      }
    }

    method Unregister(c: Connection, gaveUp: bool)
      requires c in all && if gaveUp then done else |unregisterCh| < HUB_CONN_BUFFER
      modifies this`unregisterCh
      ensures View() == Apply(old(View()), if gaveUp then Abandon else Event.Unregister(c))
      ensures unregisterCh == if gaveUp then old(unregisterCh) else old(unregisterCh) + [c]
    {
      if !gaveUp {
        unregisterCh := unregisterCh + [c];
      }
    }

    /** Never blocks: a line that finds the channel full is dropped. */
    method Broadcast(line: LogLine)
      modifies this`broadcastCh, this`broadcast
      ensures View() == Apply(old(View()), Event.Broadcast(line))
      ensures broadcastCh == if |old(broadcastCh)| < 256 then old(broadcastCh) + [line] else old(broadcastCh)
    {
      broadcast := broadcast + [line];
      if |broadcastCh| < HUB_BROADCAST_BUFFER {
        broadcastCh := broadcastCh + [line];
      }
    }

    method Stop()
      requires !done
      modifies this`done
      ensures View() == Apply(old(View()), Event.Stop)
    {
      done := true;
    }

    /** One turn of a client's write pump. */
    method PumpOne(c: Connection) returns (line: LogLine)
      requires c in all && c.inbox != []
      modifies c
      ensures View() == Apply(old(View()), Receive(c)) && line == old(c.inbox[0])
    {
      line := c.Pump();
      assert Snapshots() == old(Snapshots())[c := Pumped(old(c.Snapshot()))];
    }

    method HandleRegister()
      requires Enabled(View(), TakeRegister)
      modifies this`registerCh, this`clients
      ensures View() == Apply(old(View()), TakeRegister)
      ensures clients == old(clients) + {old(registerCh[0])} && registerCh == old(registerCh[1..])
    {
      var c := registerCh[0];
      registerCh := registerCh[1..];
      clients := clients + {c};
    }

    method HandleUnregister()
      requires Enabled(View(), TakeUnregister) && clients <= all
      modifies this`unregisterCh, this`clients, unregisterCh[0]
      ensures View() == Apply(old(View()), TakeUnregister)
      ensures clients == old(clients) - {old(unregisterCh[0])} && unregisterCh == old(unregisterCh[1..])
      ensures old(unregisterCh[0]).closed == (old(unregisterCh[0].closed) || old(unregisterCh[0]) in old(clients))
    {
      var c := unregisterCh[0];
      unregisterCh := unregisterCh[1..];
      if c in clients {
        clients := clients - {c};
        c.CloseSend();
        assert Snapshots() == old(Snapshots())[c := Shut(old(c.Snapshot()))];
      }
    }

    /** The line at the head of the broadcast channel. */
    method TakeLine() returns (line: LogLine)
      requires Enabled(View(), TakeBroadcast)
      modifies this`broadcastCh, this`delivery, this`taken
      ensures View() == Apply(old(View()), TakeBroadcast) && delivery == Sending(line, clients)
      ensures line == old(broadcastCh[0]) && broadcastCh == old(broadcastCh[1..])
    {
      line := broadcastCh[0];
      broadcastCh := broadcastCh[1..];
      taken, delivery := taken + [line], Sending(line, clients);
    }

    /** Every registered client whose filter matches is offered the line, in any order; `order` tells
        in which. */
    method HandleBroadcast() returns (ghost order: seq<Connection>)
      requires Enabled(View(), TakeBroadcast) && clients <= all
      modifies this`broadcastCh, this`panicked, this`delivery, this`taken, clients
      ensures Leads(old(View()), DeliverTo(order), View())
      ensures broadcastCh == old(broadcastCh[1..]) && clients == old(clients)
      ensures forall c :: c in clients ==>
                c.inbox == if MatchesFilter(c.filter, old(broadcastCh[0])) && !c.closed && |old(c.inbox)| < 64
                           then old(c.inbox) + [old(broadcastCh[0])] else old(c.inbox)
    {
      ghost var s := View();
      var line := TakeLine();
      order := [];
      StartsDelivery(s);
      var todo := clients;
      while todo != {}
        invariant todo <= clients && clients == old(clients) && all == old(all)
        invariant delivery == Sending(line, todo)
        invariant Leads(s, [TakeBroadcast] + Sends(order), View())
        invariant broadcastCh == old(broadcastCh[1..])
        invariant forall c :: c in todo ==> c.inbox == old(c.inbox)
        invariant forall c :: c in clients && c !in todo ==>
                    c.inbox == if MatchesFilter(c.filter, line) && !c.closed && |old(c.inbox)| < 64
                               then old(c.inbox) + [line] else old(c.inbox)
        decreases todo
      {
        var c :| c in todo;
        SendNext(c, line, todo, s, order);
        todo := todo - {c};
        order := order + [c];
      }
      AllSent(line, s, order);
    }

    method AllSent(line: LogLine, ghost s: State<Connection>, ghost order: seq<Connection>)
      requires delivery == Sending(line, {}) && Leads(s, [TakeBroadcast] + Sends(order), View())
      modifies this`delivery
      ensures Leads(s, DeliverTo(order), View())
    {
      EndsDelivery(s, order, View());
      delivery := Idle;
    }

    /** One client's turn. */
    method SendNext(c: Connection, line: LogLine, ghost todo: set<Connection>,
                    ghost s: State<Connection>, ghost order: seq<Connection>)
      requires delivery == Sending(line, todo) && c in todo && c in all
      requires Leads(s, [TakeBroadcast] + Sends(order), View())
      modifies this`panicked, this`delivery, c
      ensures delivery == Sending(line, todo - {c})
      ensures Leads(s, [TakeBroadcast] + Sends(order + [c]), View())
      ensures c.closed == old(c.closed)
      ensures c.inbox == if MatchesFilter(c.filter, line) && !c.closed && |old(c.inbox)| < 64
                         then old(c.inbox) + [line] else old(c.inbox)
    {
      DeliversNext(s, order, View(), c);
      SendOne(c, line, todo);
    }

    method SendOne(c: Connection, line: LogLine, ghost todo: set<Connection>)
      requires delivery == Sending(line, todo) && c in todo && c in all
      modifies this`panicked, this`delivery, c
      ensures View() == Apply(old(View()), SendTo(c)) && delivery == Sending(line, todo - {c})
      ensures c.closed == old(c.closed)
      ensures c.inbox == if MatchesFilter(c.filter, line) && !c.closed && |old(c.inbox)| < 64
                         then old(c.inbox) + [line] else old(c.inbox)
    {
      if Matches(c.filter, line) {
        var down := c.TrySend(line);
        panicked := panicked || down;
      }
      delivery := Sending(line, todo - {c});
      assert Snapshots() == old(Snapshots())[c := Offered(old(c.Snapshot()), line)];
    }

    /** Shutdown: every registered client's channel is closed, in any order, and none stays. */
    method HandleDone()
      requires Enabled(View(), TakeDone) && clients <= all
      modifies this`clients, this`exited, clients
      ensures View() == Apply(old(View()), TakeDone)
      ensures clients == {} && forall c :: c in old(clients) ==> c.closed
    {
      ghost var s := View();
      ShutNone(s);
      while clients != {}
        invariant clients <= old(clients) && all == old(all)
        invariant ShutSoFar(s, clients, View())
        invariant forall c :: c in old(clients) && c !in clients ==> c.closed
        decreases clients
      {
        var c :| c in clients;
        ShutNext(s, clients, c, View());
        CloseNext(c);
      }
      ShutEveryone(s, View());
      exited := true;
    }

    method CloseNext(c: Connection)
      requires c in clients && c in all
      modifies this`clients, c
      ensures View() == old(View()).(registered := old(clients) - {c},
                                     clients := old(View()).clients[c := Shut(old(View()).clients[c])])
      ensures c.closed
    {
      c.CloseSend();
      clients := clients - {c};
    }
  }

  /** The events of `run` are possible from s and lead to s'. */
  ghost predicate Leads<K>(s: State<K>, run: seq<Event<K>>, s': State<K>) {
    Run(s, run) && After(s, run) == s'
  }

  ghost function Sends<K>(order: seq<K>): seq<Event<K>> {
    seq(|order|, i requires 0 <= i < |order| => SendTo(order[i]))
  }

  ghost function DeliverTo<K>(order: seq<K>): seq<Event<K>> { [TakeBroadcast] + Sends(order) + [EndDelivery] }

  lemma SendsSnoc<K>(order: seq<K>, c: K)
    ensures Sends(order + [c]) == Sends(order) + [SendTo(c)]
  {
  }

  lemma StartsDelivery<K>(s: State<K>)
    requires Enabled(s, TakeBroadcast)
    ensures Leads(s, [TakeBroadcast] + Sends<K>([]), Apply(s, TakeBroadcast))
  {
    RunOne(s, TakeBroadcast);
    assert [TakeBroadcast] + Sends<K>([]) == [TakeBroadcast];
  }

  lemma DeliversNext<K>(s: State<K>, order: seq<K>, v: State<K>, c: K)
    requires Leads(s, [TakeBroadcast] + Sends(order), v) && Enabled(v, SendTo(c))
    ensures Leads(s, [TakeBroadcast] + Sends(order + [c]), Apply(v, SendTo(c)))
  {
    RunOne(v, SendTo(c));
    RunConcat(s, [TakeBroadcast] + Sends(order), [SendTo(c)]);
    SendsSnoc(order, c);
    assert [TakeBroadcast] + Sends(order) + [SendTo(c)] == [TakeBroadcast] + Sends(order + [c]);
  }

  lemma EndsDelivery<K>(s: State<K>, order: seq<K>, v: State<K>)
    requires Leads(s, [TakeBroadcast] + Sends(order), v) && Enabled(v, EndDelivery)
    ensures Leads(s, DeliverTo(order), v.(delivery := Idle))
  {
    RunOne(v, EndDelivery);
    RunConcat(s, [TakeBroadcast] + Sends(order), [EndDelivery]);
  }

  /** The clients with the channels of some of them closed. */
  ghost function ShutAll<K>(clients: map<K, Client>, some: set<K>): map<K, Client> {
    map c | c in clients :: if c in some then Shut(clients[c]) else clients[c]
  }

  /** Of the clients registered in s, those in `left` have still to be closed. */
  ghost predicate ShutSoFar<K>(s: State<K>, left: set<K>, v: State<K>) {
    v == s.(registered := left, clients := ShutAll(s.clients, s.registered - left))
  }

  lemma ShutNone<K>(s: State<K>)
    ensures ShutSoFar(s, s.registered, s)
  {
  }

  lemma ShutNext<K>(s: State<K>, left: set<K>, c: K, v: State<K>)
    requires ShutSoFar(s, left, v) && c in left && left <= s.registered && c in s.clients
    ensures ShutSoFar(s, left - {c}, v.(registered := left - {c}, clients := v.clients[c := Shut(v.clients[c])]))
  {
    assert s.registered - (left - {c}) == (s.registered - left) + {c};
    assert ShutAll(s.clients, (s.registered - left) + {c})
        == ShutAll(s.clients, s.registered - left)[c := Shut(s.clients[c])];
  }

  lemma ShutEveryone<K>(s: State<K>, v: State<K>)
    requires ShutSoFar(s, {}, v) && Enabled(s, TakeDone)
    ensures v.(exited := true) == Apply(s, TakeDone)
  {
    assert s.registered - {} == s.registered;
  }

  /** matchesFilter, with its early returns. */
  function Matches(f: Filter, line: LogLine): (r: bool)
    ensures r == MatchesFilter(f, line)
  {
    if f.sourceName != "" && f.sourceName != line.source then false
    else if f.minLevel == "" then true
    else if f.minLevel !in LOG_LEVELS then true
    else if line.level !in LOG_LEVELS then true
    else !(LOG_LEVELS[line.level] < LOG_LEVELS[f.minLevel])
  }
}
