// The per-IP request limiter (internal/api/middleware.go): its cleanup goroutine cannot be
// observed, and no interval of one window length lets more than twice the limit through.
module FixedWindow {

  datatype Entry = Entry(count: nat, resetAt: int)

  type Clients = map<string, Entry>

  datatype Limits = Limits(limit: int, window: int)

  /** A request (static assets and health checks are exempt) or one pass of the cleanup goroutine. */
  datatype Event =
    | Request(ip: string, exempt: bool, at: int)
    | Cleanup(at: int)

  /** The entry a request at `now` is counted in, after counting it. */
  function Counted(l: Limits, clients: Clients, ip: string, now: int): Entry {
    if ip in clients && now <= clients[ip].resetAt then clients[ip].(count := clients[ip].count + 1)
    else Entry(1, now + l.window)
  }

  function Cleaned(clients: Clients, now: int): Clients {
    map ip | ip in clients && now <= clients[ip].resetAt :: clients[ip]
  }

  function Step(l: Limits, clients: Clients, e: Event): Clients {
    match e
    case Request(ip, exempt, at) => if exempt then clients else clients[ip := Counted(l, clients, ip, at)]
    case Cleanup(at) => Cleaned(clients, at)
  }

  /** Whether a request is let through. */
  predicate Accepts(l: Limits, clients: Clients, e: Event)
    requires e.Request?
  {
    e.exempt || Counted(l, clients, e.ip, e.at).count <= l.limit
  }

  datatype Decision = Decision(request: Event, accepted: bool)

  /** The requests of a run, in order, with the decision on each. */
  function Decisions(l: Limits, clients: Clients, run: seq<Event>): seq<Decision>
    decreases |run|
  {
    if run == [] then []
    else (if run[0].Request? then [Decision(run[0], Accepts(l, clients, run[0]))] else [])
         + Decisions(l, Step(l, clients, run[0]), run[1..])
  }

  ghost predicate Monotone(run: seq<Event>) {
    forall i, j :: 0 <= i <= j < |run| ==> run[i].at <= run[j].at
  }

  // ---------------------------------------------------------------- the cleanup is unobservable

  function Requests(run: seq<Event>): seq<Event> {
    if run == [] then []
    else (if run[0].Request? then [run[0]] else []) + Requests(run[1..])
  }

  /** The two tables count alike from `now` on: one may lack entries that have expired in the other. */
  ghost predicate Agree(cleaned: Clients, full: Clients, now: int) {
    && (forall ip :: ip in cleaned ==> ip in full && cleaned[ip] == full[ip])
    && (forall ip :: ip in full && ip !in cleaned ==> full[ip].resetAt < now)
  }

  lemma {:induction false} CleanupUnobservableFrom(l: Limits, cleaned: Clients, full: Clients, now: int, run: seq<Event>)
    requires Monotone(run) && Agree(cleaned, full, now) && (run != [] ==> now <= run[0].at)
    ensures Decisions(l, cleaned, run) == Decisions(l, full, Requests(run))
    decreases |run|
  {
    if run != [] {
      var e, rest := run[0], run[1..];
      assert Monotone(rest) by { assert forall i :: 0 <= i < |rest| ==> rest[i] == run[i + 1]; }
      if e.Request? {
        assert Requests(run)[0] == e && Requests(run)[1..] == Requests(rest);
        assert Counted(l, cleaned, e.ip, e.at) == Counted(l, full, e.ip, e.at);
        CleanupUnobservableFrom(l, Step(l, cleaned, e), Step(l, full, e), e.at, rest);
      } else {
        assert Requests(run) == Requests(rest);
        CleanupUnobservableFrom(l, Step(l, cleaned, e), full, e.at, rest);
        assert Decisions(l, cleaned, run) == Decisions(l, Step(l, cleaned, e), rest);
      }
    }
  }

  /** Wherever cleanup passes fall in a run, every decision is the one made without them. */
  lemma CleanupUnobservable(l: Limits, run: seq<Event>)
    requires Monotone(run)
    ensures Decisions(l, map[], run) == Decisions(l, map[], Requests(run))
  {
    CleanupUnobservableFrom(l, map[], map[], if run == [] then 0 else run[0].at, run);
  }

  // ---------------------------------------------------------------- the bound

  /** The times of the counted requests from `ip` that were let through. */
  function Admitted(decisions: seq<Decision>, ip: string): seq<int> {
    if decisions == [] then []
    else
      var d := decisions[|decisions| - 1];
      Admitted(decisions[..|decisions| - 1], ip)
      + (if d.accepted && d.request.Request? && !d.request.exempt && d.request.ip == ip then [d.request.at] else [])
  }

  /** How many of the times lie in the closed interval lo..hi. */
  function Within(times: seq<int>, lo: int, hi: int): nat {
    if times == [] then 0
    else Within(times[..|times| - 1], lo, hi) + (if lo <= times[|times| - 1] <= hi then 1 else 0)
  }

  function Allowance(l: Limits): nat { if l.limit < 0 then 0 else l.limit }

  function Used(l: Limits, count: nat): nat { if count <= Allowance(l) then count else Allowance(l) }

  /** The same without the request that opened the window. */
  function UsedLater(l: Limits, count: nat): nat { if Used(l, count) == 0 then 0 else Used(l, count) - 1 }

  /** The most requests an interval of one window length can let through. */
  function Bound(l: Limits): nat { Allowance(l) + UsedLater(l, Allowance(l)) }

  /** What the table's entry for an address says about the requests admitted from it so far: the
      window it opened admitted at most its count, the one before at most the limit, and an
      interval of one window length cannot contain the opening of both. */
  ghost predicate Explains(l: Limits, clients: Clients, ip: string, admitted: seq<int>, now: int) {
    && (forall i :: 0 <= i < |admitted| ==> admitted[i] <= now)
    && (ip !in clients ==> admitted == [])
    && (ip in clients ==>
          var e := clients[ip]; var openedAt := e.resetAt - l.window;
          && openedAt <= now && e.count > 0
          && (forall lo, hi :: openedAt < lo ==> Within(admitted, lo, hi) <= UsedLater(l, e.count))
          && (forall lo, hi :: lo <= openedAt <= lo + l.window ==>
                Within(admitted, lo, hi) <= Used(l, e.count) + UsedLater(l, Allowance(l))))
    && (forall lo, hi :: hi <= lo + l.window ==> Within(admitted, lo, hi) <= Bound(l))
  }

  lemma WithinSnoc(times: seq<int>, t: int, lo: int, hi: int)
    ensures Within(times + [t], lo, hi) == Within(times, lo, hi) + (if lo <= t <= hi then 1 else 0)
  {
    assert (times + [t])[..|times + [t]| - 1] == times;
  }

  lemma {:induction false} WithinLater(times: seq<int>, now: int, lo: int, hi: int)
    requires forall i :: 0 <= i < |times| ==> times[i] <= now
    requires now < lo
    ensures Within(times, lo, hi) == 0
  {
    if times != [] { WithinLater(times[..|times| - 1], now, lo, hi); }
  }

  /** Counting a request keeps the explanation, in the window it falls into or in a new one. */
  lemma CountedExplains(l: Limits, clients: Clients, ip: string, admitted: seq<int>, now: int, at: int)
    requires Explains(l, clients, ip, admitted, now) && now <= at
    ensures var e := Counted(l, clients, ip, at);
            Explains(l, clients[ip := e], ip, if e.count <= l.limit then admitted + [at] else admitted, at)
  {
    var e := Counted(l, clients, ip, at);
    var admitted' := if e.count <= l.limit then admitted + [at] else admitted;
    var openedAt := e.resetAt - l.window;
    forall lo, hi ensures Within(admitted', lo, hi) <= Within(admitted, lo, hi) + (if e.count <= l.limit && lo <= at <= hi then 1 else 0) {
      WithinSnoc(admitted, at, lo, hi);
    }
    forall lo, hi | openedAt < lo ensures Within(admitted', lo, hi) <= UsedLater(l, e.count) {
      if !(ip in clients && at <= clients[ip].resetAt) { WithinLater(admitted, now, lo, hi); }
    }
    forall lo, hi | lo <= openedAt <= lo + l.window ensures Within(admitted', lo, hi) <= Used(l, e.count) + UsedLater(l, Allowance(l)) {
    }
    forall lo, hi | hi <= lo + l.window ensures Within(admitted', lo, hi) <= Bound(l) {
      if !(lo <= at <= hi) {
        assert Within(admitted', lo, hi) <= Within(admitted, lo, hi);
      }
    }
  }

  lemma OtherAddress(l: Limits, clients: Clients, ip: string, admitted: seq<int>, now: int, at: int, clients': Clients)
    requires Explains(l, clients, ip, admitted, now) && now <= at
    requires (ip in clients <==> ip in clients') && (ip in clients ==> clients[ip] == clients'[ip])
    ensures Explains(l, clients', ip, admitted, at)
  {
  }

  lemma MonotoneRest(run: seq<Event>)
    requires Monotone(run) && run != []
    ensures Monotone(run[1..]) && (|run| > 1 ==> run[0].at <= run[1].at)
  {
    var rest := run[1..];
    assert forall i :: 0 <= i < |rest| ==> rest[i] == run[i + 1];
  }

  lemma DecisionsStep(l: Limits, clients: Clients, run: seq<Event>, before: seq<Decision>)
    requires run != [] && run[0].Request?
    ensures before + Decisions(l, clients, run)
            == before + [Decision(run[0], Accepts(l, clients, run[0]))] + Decisions(l, Step(l, clients, run[0]), run[1..])
  {
  }

  lemma AdmittedSnoc(decisions: seq<Decision>, d: Decision, ip: string)
    requires d.request.Request?
    ensures Admitted(decisions + [d], ip)
            == if d.accepted && !d.request.exempt && d.request.ip == ip then Admitted(decisions, ip) + [d.request.at]
               else Admitted(decisions, ip)
  {
    assert (decisions + [d])[..|decisions + [d]| - 1] == decisions;
  }

  lemma RequestExplains(l: Limits, clients: Clients, e: Event, ip: string, before: seq<Decision>, now: int)
    requires e.Request? && now <= e.at && Explains(l, clients, ip, Admitted(before, ip), now)
    ensures Explains(l, Step(l, clients, e), ip, Admitted(before + [Decision(e, Accepts(l, clients, e))], ip), e.at)
  {
    AdmittedSnoc(before, Decision(e, Accepts(l, clients, e)), ip);
    if e.ip == ip && !e.exempt {
      CountedExplains(l, clients, ip, Admitted(before, ip), now, e.at);
    } else {
      OtherAddress(l, clients, ip, Admitted(before, ip), now, e.at, Step(l, clients, e));
    }
  }

  lemma {:induction false} RequestsExplain(
    l: Limits, clients: Clients, run: seq<Event>, ip: string, before: seq<Decision>, now: int)
    requires Monotone(run) && (run != [] ==> now <= run[0].at)
    requires forall e :: e in run ==> e.Request?
    requires Explains(l, clients, ip, Admitted(before, ip), now)
    ensures forall lo, hi :: hi <= lo + l.window ==>
              Within(Admitted(before + Decisions(l, clients, run), ip), lo, hi) <= Bound(l)
    decreases |run|
  {
    if run == [] {
      assert before + Decisions(l, clients, run) == before;
    } else {
      var e, rest := run[0], run[1..];
      assert e in run;
      MonotoneRest(run);
      RequestExplains(l, clients, e, ip, before, now);
      RequestsExplain(l, Step(l, clients, e), rest, ip, before + [Decision(e, Accepts(l, clients, e))], e.at);
      DecisionsStep(l, clients, run, before);
    }
  }

  lemma {:induction false} RequestsMonotone(run: seq<Event>)
    requires Monotone(run)
    ensures Monotone(Requests(run)) && (forall e :: e in Requests(run) ==> e.Request? && e in run)
  {
    if run != [] {
      var rest := run[1..];
      MonotoneRest(run);
      RequestsMonotone(rest);
      if run[0].Request? {
        forall e | e in Requests(rest) ensures run[0].at <= e.at {
          var i :| 0 <= i < |rest| && rest[i] == e;
          assert run[i + 1] == e;
        }
        MonotoneCons(run[0], Requests(rest));
      } else {
        assert Requests(run) == [] + Requests(rest) == Requests(rest);
      }
    }
  }

  lemma MonotoneCons(e: Event, rest: seq<Event>)
    requires Monotone(rest) && forall later :: later in rest ==> e.at <= later.at
    ensures Monotone([e] + rest)
  {
    var run := [e] + rest;
    forall i, j | 0 <= i <= j < |run| ensures run[i].at <= run[j].at {
      if i > 0 { assert rest[i - 1].at <= rest[j - 1].at; } else if j > 0 { assert rest[j - 1] in rest; }
    }
  }

  /** In any closed interval no longer than the window, at most 2 * limit - 1 counted requests from
      one address are let through (none for a limit below one), with cleanup passes anywhere. */
  lemma UnderTwiceTheLimit(l: Limits, run: seq<Event>, ip: string, lo: int, hi: int)
    requires Monotone(run) && hi <= lo + l.window
    ensures Within(Admitted(Decisions(l, map[], run), ip), lo, hi) <= if l.limit < 1 then 0 else 2 * l.limit - 1
  {
    CleanupUnobservable(l, run);
    RequestsMonotone(run);
    FreshBounded(l, Requests(run), ip, lo, hi);
  }

  lemma NothingAdmitted(l: Limits, ip: string, now: int)
    ensures Explains(l, map[], ip, Admitted([], ip), now)
  {
  }

  lemma FreshBounded(l: Limits, requests: seq<Event>, ip: string, lo: int, hi: int)
    requires Monotone(requests) && (forall e :: e in requests ==> e.Request?) && hi <= lo + l.window
    ensures Within(Admitted(Decisions(l, map[], requests), ip), lo, hi) <= Bound(l)
  {
    var decisions := Decisions(l, map[], requests);
    NothingAdmitted(l, ip, if requests == [] then 0 else requests[0].at);
    RequestsExplain(l, map[], requests, ip, [], if requests == [] then 0 else requests[0].at);
    assert [] + decisions == decisions;
  }

  // ---------------------------------------------------------------- the bound is reached

  function Granted(ip: string, at: int): Decision { Decision(Request(ip, false, at), true) }

  /** n requests at one time, and the decisions that let them all through. */
  function Burst(ip: string, at: int, n: nat): seq<Event> { seq(n, _ => Request(ip, false, at)) }

  function BurstGranted(ip: string, at: int, n: nat): seq<Decision> { seq(n, _ => Granted(ip, at)) }

  lemma OneRequest(l: Limits, clients: Clients, e: Event, rest: seq<Event>, run: seq<Event>)
    requires e.Request? && run == [e] + rest
    ensures Decisions(l, clients, run) == [Decision(e, Accepts(l, clients, e))] + Decisions(l, Step(l, clients, e), rest)
  {
    assert run[0] == e && run[1..] == rest;
  }

  lemma BurstCons(ip: string, at: int, n: nat, rest: seq<Event>)
    requires n > 0
    ensures Burst(ip, at, n) + rest == [Request(ip, false, at)] + (Burst(ip, at, n - 1) + rest)
    ensures BurstGranted(ip, at, n) == [Granted(ip, at)] + BurstGranted(ip, at, n - 1)
  {
  }

  /** Requests that fit into the current window are all let through. */
  lemma {:induction false} BurstFits(l: Limits, clients: Clients, ip: string, at: int, n: nat, rest: seq<Event>,
                                     run: seq<Event>, final: Clients)
    requires ip in clients && at <= clients[ip].resetAt && clients[ip].count + n <= l.limit
    requires run == Burst(ip, at, n) + rest
    requires final == clients[ip := Entry(clients[ip].count + n, clients[ip].resetAt)]
    ensures Decisions(l, clients, run) == BurstGranted(ip, at, n) + Decisions(l, final, rest)
    decreases n
  {
    if n == 0 {
      assert run == rest && final == clients;
    } else {
      var e := Request(ip, false, at);
      var shorter := Burst(ip, at, n - 1) + rest;
      BurstCons(ip, at, n, rest);
      OneRequest(l, clients, e, shorter, run);
      BurstFits(l, Step(l, clients, e), ip, at, n - 1, rest, shorter, final);
      ConcatThree([Granted(ip, at)], BurstGranted(ip, at, n - 1), Decisions(l, final, rest));
    }
  }

  /** A window opened at one time and filled at another, not later than its end. */
  function FullWindow(l: Limits, ip: string, openAt: int, at: int): seq<Event>
    requires l.limit >= 1
  {
    [Request(ip, false, openAt)] + Burst(ip, at, l.limit - 1)
  }

  function FullWindowGranted(l: Limits, ip: string, openAt: int, at: int): seq<Decision>
    requires l.limit >= 1
  {
    [Granted(ip, openAt)] + BurstGranted(ip, at, l.limit - 1)
  }

  lemma FullWindowFits(l: Limits, clients: Clients, ip: string, openAt: int, at: int, rest: seq<Event>,
                       run: seq<Event>, final: Clients)
    requires l.limit >= 1 && at <= openAt + l.window && (ip in clients ==> clients[ip].resetAt < openAt)
    requires run == FullWindow(l, ip, openAt, at) + rest && final == clients[ip := Entry(l.limit, openAt + l.window)]
    ensures Decisions(l, clients, run) == FullWindowGranted(l, ip, openAt, at) + Decisions(l, final, rest)
  {
    var filled := Burst(ip, at, l.limit - 1) + rest;
    ConcatThree([Request(ip, false, openAt)], Burst(ip, at, l.limit - 1), rest);
    OpensWindow(l, clients, ip, openAt);
    OneRequest(l, clients, Request(ip, false, openAt), filled, run);
    BurstFits(l, clients[ip := Entry(1, openAt + l.window)], ip, at, l.limit - 1, rest, filled, final);
    ConcatThree([Granted(ip, openAt)], BurstGranted(ip, at, l.limit - 1), Decisions(l, final, rest));
  }

  lemma OpensWindow(l: Limits, clients: Clients, ip: string, at: int)
    requires l.limit >= 1 && (ip in clients ==> clients[ip].resetAt < at)
    ensures Step(l, clients, Request(ip, false, at)) == clients[ip := Entry(1, at + l.window)]
    ensures Accepts(l, clients, Request(ip, false, at))
  {
  }

  lemma ConcatThree<T>(a: seq<T>, b: seq<T>, d: seq<T>)
    ensures (a + b) + d == a + (b + d)
  {
  }

  /** The last requests of one window followed by all those of the next. */
  function AroundReset(l: Limits, ip: string, start: int): seq<Event>
    requires l.limit >= 1
  {
    FullWindow(l, ip, start, start + l.window) + FullWindow(l, ip, start + l.window + 1, start + l.window + 1)
  }

  lemma AroundResetGranted(l: Limits, ip: string, start: int)
    requires l.limit >= 1 && l.window >= 0
    ensures Decisions(l, map[], AroundReset(l, ip, start))
            == FullWindowGranted(l, ip, start, start + l.window)
               + FullWindowGranted(l, ip, start + l.window + 1, start + l.window + 1)
  {
    var at := start + l.window + 1;
    var clients: Clients := map[ip := Entry(l.limit, start + l.window)];
    var second := FullWindow(l, ip, at, at);
    FullWindowFits(l, map[], ip, start, start + l.window, second, AroundReset(l, ip, start), clients);
    FullWindowFits(l, clients, ip, at, at, [], second, clients[ip := Entry(l.limit, at + l.window)]);
    assert FullWindowGranted(l, ip, at, at) + [] == FullWindowGranted(l, ip, at, at);
  }

  lemma {:induction false} WithinBurst(before: seq<Decision>, ip: string, at: int, n: nat, lo: int, hi: int,
                                       after: seq<Decision>)
    requires after == before + BurstGranted(ip, at, n)
    ensures Within(Admitted(after, ip), lo, hi) == Within(Admitted(before, ip), lo, hi) + (if lo <= at <= hi then n else 0)
    decreases n
  {
    if n == 0 {
      assert after == before;
    } else {
      var shorter := before + BurstGranted(ip, at, n - 1);
      WithinBurst(before, ip, at, n - 1, lo, hi, shorter);
      assert after == shorter + [Granted(ip, at)];
      WithinOneMore(shorter, ip, at, lo, hi);
    }
  }

  lemma WithinOneMore(decisions: seq<Decision>, ip: string, at: int, lo: int, hi: int)
    ensures Within(Admitted(decisions + [Granted(ip, at)], ip), lo, hi)
            == Within(Admitted(decisions, ip), lo, hi) + (if lo <= at <= hi then 1 else 0)
  {
    AdmittedSnoc(decisions, Granted(ip, at), ip);
    WithinSnoc(Admitted(decisions, ip), at, lo, hi);
  }

  lemma WithinWindow(l: Limits, before: seq<Decision>, ip: string, openAt: int, at: int, lo: int, hi: int, after: seq<Decision>)
    requires l.limit >= 1 && after == before + FullWindowGranted(l, ip, openAt, at)
    ensures Within(Admitted(after, ip), lo, hi)
            == Within(Admitted(before, ip), lo, hi)
               + (if lo <= openAt <= hi then 1 else 0) + (if lo <= at <= hi then l.limit - 1 else 0)
  {
    var first := before + [Granted(ip, openAt)];
    assert after == first + BurstGranted(ip, at, l.limit - 1);
    WithinBurst(first, ip, at, l.limit - 1, lo, hi, after);
    WithinOneMore(before, ip, openAt, lo, hi);
  }

  lemma AroundResetMonotone(l: Limits, ip: string, start: int)
    requires l.limit >= 1 && l.window >= 0
    ensures Monotone(AroundReset(l, ip, start))
  {
    var run := AroundReset(l, ip, start);
    assert |run| == 2 * l.limit;
    forall i | 0 <= i < |run|
      ensures run[i].at == if i == 0 then start else if i < l.limit then start + l.window else start + l.window + 1
    {
    }
  }

  /** The bound is reached for every limit and window of at least one, every address and starting
      time: requests just before and just after a reset. */
  lemma BoundReached(l: Limits, ip: string, start: int)
    requires l.limit >= 1 && l.window >= 1
    ensures Monotone(AroundReset(l, ip, start))
    ensures var lo := start + 1;
            Within(Admitted(Decisions(l, map[], AroundReset(l, ip, start)), ip), lo, lo + l.window) == 2 * l.limit - 1
  {
    AroundResetMonotone(l, ip, start);
    AroundResetGranted(l, ip, start);
    WithinTwoWindows(l, ip, start, Decisions(l, map[], AroundReset(l, ip, start)));
  }

  lemma WithinTwoWindows(l: Limits, ip: string, start: int, decisions: seq<Decision>)
    requires l.limit >= 1 && l.window >= 1
    requires decisions == FullWindowGranted(l, ip, start, start + l.window)
                          + FullWindowGranted(l, ip, start + l.window + 1, start + l.window + 1)
    ensures Within(Admitted(decisions, ip), start + 1, start + l.window + 1) == 2 * l.limit - 1
  {
    var second := start + l.window + 1;
    var before := FullWindowGranted(l, ip, start, start + l.window);
    WithinFirst(l, ip, start, before);
    WithinWindow(l, before, ip, second, second, start + 1, second, decisions);
  }

  lemma NothingBefore(decisions: seq<Decision>, ip: string, lo: int, hi: int)
    ensures [] + decisions == decisions && Within(Admitted([], ip), lo, hi) == 0
  {
  }

  lemma WithinFirst(l: Limits, ip: string, start: int, before: seq<Decision>)
    requires l.limit >= 1 && l.window >= 1 && before == FullWindowGranted(l, ip, start, start + l.window)
    ensures Within(Admitted(before, ip), start + 1, start + l.window + 1) == l.limit - 1
  {
    NothingBefore(before, ip, start + 1, start + l.window + 1);
    WithinWindow(l, [], ip, start, start + l.window, start + 1, start + l.window + 1, before);
  }

  // ---------------------------------------------------------------- who is counted

  /** The requests that are counted for an address. */
  function OwnRequests(run: seq<Event>, ip: string): seq<Event> {
    if run == [] then []
    else (if run[0].Request? && !run[0].exempt && run[0].ip == ip then [run[0]] else []) + OwnRequests(run[1..], ip)
  }

  function OwnDecisions(decisions: seq<Decision>, ip: string): seq<Decision> {
    if decisions == [] then []
    else
      var e := decisions[0].request;
      (if e.Request? && !e.exempt && e.ip == ip then [decisions[0]] else []) + OwnDecisions(decisions[1..], ip)
  }

  lemma {:induction false} OwnRequestsOf(run: seq<Event>, ip: string)
    ensures OwnRequests(Requests(run), ip) == OwnRequests(run, ip)
  {
    if run != [] {
      OwnRequestsOf(run[1..], ip);
      if run[0].Request? {
        assert Requests(run)[0] == run[0] && Requests(run)[1..] == Requests(run[1..]);
      } else {
        assert Requests(run) == Requests(run[1..]);
      }
    }
  }

  lemma {:induction false} OwnFrom(l: Limits, all: Clients, own: Clients, run: seq<Event>, ip: string)
    requires forall e :: e in run ==> e.Request?
    requires (ip in all <==> ip in own) && (ip in all ==> all[ip] == own[ip])
    ensures OwnDecisions(Decisions(l, all, run), ip) == Decisions(l, own, OwnRequests(run, ip))
    decreases |run|
  {
    if run != [] {
      var e, rest := run[0], run[1..];
      assert e in run;
      OneRequest(l, all, e, rest, run);
      var d := Decision(e, Accepts(l, all, e));
      assert ([d] + Decisions(l, Step(l, all, e), rest))[1..] == Decisions(l, Step(l, all, e), rest);
      if !e.exempt && e.ip == ip {
        OwnFrom(l, Step(l, all, e), Step(l, own, e), rest, ip);
        OneRequest(l, own, e, OwnRequests(rest, ip), OwnRequests(run, ip));
      } else {
        OwnFrom(l, Step(l, all, e), own, rest, ip);
        assert OwnRequests(run, ip) == OwnRequests(rest, ip);
      }
    }
  }

  /** The decisions on the counted requests of an address are those of a limiter that sees nothing else:
      neither other addresses, nor exempt requests, nor cleanup passes have any influence. */
  lemma OwnRequestsDecide(l: Limits, run: seq<Event>, ip: string)
    requires Monotone(run)
    ensures OwnDecisions(Decisions(l, map[], run), ip) == Decisions(l, map[], OwnRequests(run, ip))
  {
    CleanupUnobservable(l, run);
    RequestsMonotone(run);
    OwnRequestsOf(run, ip);
    OwnFrom(l, map[], map[], Requests(run), ip);
  }

  /** Exempt requests are always let through. */
  lemma {:induction false} ExemptAccepted(l: Limits, clients: Clients, run: seq<Event>, i: nat)
    requires i < |Decisions(l, clients, run)|
    ensures var d := Decisions(l, clients, run)[i]; d.request.Request? && (d.request.exempt ==> d.accepted)
    decreases |run|
  {
    if run[0].Request? {
      if i > 0 {
        assert Decisions(l, clients, run)[i] == Decisions(l, Step(l, clients, run[0]), run[1..])[i - 1];
        ExemptAccepted(l, Step(l, clients, run[0]), run[1..], i - 1);
      }
    } else {
      assert Decisions(l, clients, run) == Decisions(l, Step(l, clients, run[0]), run[1..]);
      ExemptAccepted(l, Step(l, clients, run[0]), run[1..], i);
    }
  }

  // ---------------------------------------------------------------- the code

  class RateLimiter {
    const l: Limits
    var clients: Clients

    constructor (limit: int, window: int)
      ensures l == Limits(limit, window) && clients == map[]
    {
      l := Limits(limit, window);
      clients := map[];
    }

    /** The handler: `allowed` is false when the request is answered with 429. */
    method Handle(ip: string, exempt: bool, now: int) returns (allowed: bool)
      modifies this
      ensures clients == Step(l, old(clients), Request(ip, exempt, now))
      ensures allowed == Accepts(l, old(clients), Request(ip, exempt, now))
      ensures exempt ==> allowed && clients == old(clients)
      ensures !exempt ==>
                && clients == old(clients)[ip := clients[ip]]
                && clients[ip] == (if ip in old(clients) && now <= old(clients)[ip].resetAt
                                   then Entry(old(clients)[ip].count + 1, old(clients)[ip].resetAt)
                                   else Entry(1, now + l.window))
                && (allowed <==> clients[ip].count <= l.limit)
    {
      if exempt {
        return true;
      }
      if ip !in clients || now > clients[ip].resetAt {
        clients := clients[ip := Entry(0, now + l.window)];
      }
      clients := clients[ip := clients[ip].(count := clients[ip].count + 1)];
      var count := clients[ip].count;
      return !(count > l.limit);
    }

    /** One pass of the cleanup goroutine, in whatever order the map is walked. */
    method CleanupPass(now: int)
      modifies this
      ensures clients == Step(l, old(clients), Cleanup(now))
      ensures forall ip :: ip in clients <==> ip in old(clients) && now <= old(clients)[ip].resetAt
      ensures forall ip :: ip in clients ==> clients[ip] == old(clients)[ip]
    {
      var todo := clients.Keys;
      while todo != {}
        invariant todo <= clients.Keys <= old(clients).Keys
        invariant forall ip :: ip in clients ==> clients[ip] == old(clients)[ip]
        invariant forall ip :: ip in old(clients) && ip !in todo ==>
                    (ip in clients <==> now <= old(clients)[ip].resetAt)
        decreases todo
      {
        var ip :| ip in todo;
        if now > clients[ip].resetAt {
          clients := clients - {ip};
        }
        todo := todo - {ip};
      }
    }
  }
}
