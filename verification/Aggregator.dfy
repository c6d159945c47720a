// The aggregator of repeated lines (internal/aggregator/aggregator.go): over every sequence of
// operations no occurrence of a line is lost or counted twice.
module Aggregator {
  import opened LogLines

  datatype Entry = Entry(line: LogLine, count: nat, firstSeen: int, lastSeen: int)

  type Entries = map<string, Entry>

  datatype Params = Params(window: int, minCount: nat)

  /** One emitted line, the count that comes with it, and the annotation of its message with that count
      and the time from first to last occurrence, if any. */
  datatype Emission = Emission(key: string, line: LogLine, count: nat, span: Option<int>)

  /** `handed` and `abandoned` are the lines emitted so far: to a caller or the output channel, or
      collected by a tick that found the aggregator stopped. */
  datatype State = State(
    entries: Entries, stopped: bool, processed: seq<string>, handed: seq<Emission>, abandoned: seq<Emission>)

  /** The map is walked in any order: `results` is what came out. */
  datatype Step =
    | Process(line: LogLine, now: int, results: seq<Emission>)
    | Tick(now: int, abandon: bool, results: seq<Emission>)
    | Flush(results: seq<Emission>)
    | Stop

  function EntryKey(line: LogLine): string {
    line.source + "|" + line.level + "|" + line.message
  }

  predicate Expired(window: int, e: Entry, now: int) { now - e.firstSeen > window }

  function ExpiredEntries(window: int, entries: Entries, now: int): Entries {
    map k | k in entries && Expired(window, entries[k], now) :: entries[k]
  }

  function LiveEntries(window: int, entries: Entries, now: int): Entries {
    map k | k in entries && !Expired(window, entries[k], now) :: entries[k]
  }

  /** The table after counting a line, once expired entries are out. */
  function Counted(live: Entries, line: LogLine, now: int): Entries {
    var k := EntryKey(line);
    live[k := if k in live then live[k].(count := live[k].count + 1, lastSeen := now) else Entry(line, 1, now, now)]
  }

  /** The emission stands for the entry: its line and its count, annotated if the count reaches the
      minimum. */
  ghost predicate Shows(minCount: nat, r: Emission, e: Entry) {
    && r.line == e.line && r.count == e.count
    && r.span == if e.count >= minCount then Some(e.lastSeen - e.firstSeen) else None
  }

  ghost predicate DistinctKeys(results: seq<Emission>) {
    forall i, j :: 0 <= i < j < |results| ==> results[i].key != results[j].key
  }

  /** The results show the batch: each entry once, in some order. */
  ghost predicate Lists(minCount: nat, results: seq<Emission>, batch: Entries) {
    && (forall i :: 0 <= i < |results| ==> results[i].key in batch && Shows(minCount, results[i], batch[results[i].key]))
    && DistinctKeys(results)
    && (forall k :: k in batch ==> exists i :: 0 <= i < |results| && results[i].key == k)
  }

  ghost predicate Enabled(p: Params, s: State, e: Step) {
    match e
    case Process(_, now, results) => Lists(p.minCount, results, ExpiredEntries(p.window, s.entries, now))
    case Tick(now, abandon, results) =>
      (abandon ==> s.stopped) && Lists(p.minCount, results, ExpiredEntries(p.window, s.entries, now))
    case Flush(results) => Lists(p.minCount, results, s.entries)
    case Stop => true
  }

  ghost function Apply(p: Params, s: State, e: Step): State
    requires Enabled(p, s, e)
  {
    match e
    case Process(line, now, results) =>
      s.(entries := Counted(LiveEntries(p.window, s.entries, now), line, now),
         processed := s.processed + [EntryKey(line)], handed := s.handed + results)
    case Tick(now, abandon, results) =>
      var s1 := s.(entries := LiveEntries(p.window, s.entries, now));
      if abandon then s1.(abandoned := s.abandoned + results) else s1.(handed := s.handed + results)
    case Flush(results) => s.(entries := map[], handed := s.handed + results)
    case Stop => s.(stopped := true)
  }

  ghost predicate Run(p: Params, s: State, run: seq<Step>)
    decreases |run|
  {
    run != [] ==> Enabled(p, s, run[0]) && Run(p, Apply(p, s, run[0]), run[1..])
  }

  ghost function After(p: Params, s: State, run: seq<Step>): State
    requires Run(p, s, run)
    decreases |run|
  {
    if run == [] then s else After(p, Apply(p, s, run[0]), run[1..])
  }

  const START := State(map[], false, [], [], [])

  // ---------------------------------------------------------------- conservation

  function Occurrences(keys: seq<string>, k: string): nat { multiset(keys)[k] }

  function Held(entries: Entries, k: string): nat { if k in entries then entries[k].count else 0 }

  /** The sum of the counts emitted for a key. */
  function Total(emissions: seq<Emission>, k: string): nat {
    if emissions == [] then 0
    else
      Total(emissions[..|emissions| - 1], k)
      + (if emissions[|emissions| - 1].key == k then emissions[|emissions| - 1].count else 0)
  }

  lemma TotalSnoc(emissions: seq<Emission>, r: Emission, k: string)
    ensures Total(emissions + [r], k) == Total(emissions, k) + (if r.key == k then r.count else 0)
  {
    assert (emissions + [r])[..|emissions + [r]| - 1] == emissions;
  }

  lemma {:induction false} TotalConcat(a: seq<Emission>, b: seq<Emission>, k: string)
    ensures Total(a + b, k) == Total(a, k) + Total(b, k)
    decreases |b|
  {
    if b == [] {
      assert a + b == a;
    } else {
      var front, last := b[..|b| - 1], b[|b| - 1];
      assert b == front + [last] && a + b == (a + front) + [last];
      TotalSnoc(a + front, last, k);
      TotalSnoc(front, last, k);
      TotalConcat(a, front, k);
    }
  }

  lemma {:induction false} TotalNone(results: seq<Emission>, k: string)
    requires forall i :: 0 <= i < |results| ==> results[i].key != k
    ensures Total(results, k) == 0
  {
    if results != [] { TotalNone(results[..|results| - 1], k); }
  }

  lemma {:induction false} TotalOne(results: seq<Emission>, k: string, i: nat)
    requires DistinctKeys(results) && i < |results| && results[i].key == k
    ensures Total(results, k) == results[i].count
  {
    var front := results[..|results| - 1];
    if i == |front| {
      TotalNone(front, k);
    } else {
      assert results[|front|].key != k;
      TotalOne(front, k, i);
    }
  }

  /** Results that list a batch carry, key by key, its counts. */
  lemma ListsTotal(minCount: nat, results: seq<Emission>, batch: Entries, k: string)
    requires Lists(minCount, results, batch)
    ensures Total(results, k) == Held(batch, k)
  {
    if k in batch {
      var i :| 0 <= i < |results| && results[i].key == k;
      TotalOne(results, k, i);
    } else {
      TotalNone(results, k);
    }
  }

  /** An entry spans at most one window and stands for at least one line, with that key. */
  ghost predicate Sound(window: int, entries: Entries) {
    forall k :: k in entries ==>
      entries[k].lastSeen - entries[k].firstSeen <= window && entries[k].count > 0 && EntryKey(entries[k].line) == k
  }

  /** An emission stands for at least one line, has a line of its key, and is annotated exactly when its
      count reaches the minimum, with a time within the window. */
  ghost predicate Right(p: Params, r: Emission) {
    && r.count > 0 && EntryKey(r.line) == r.key
    && (r.span.Some? <==> r.count >= p.minCount)
    && (r.span.Some? ==> r.span.value <= p.window)
  }

  ghost predicate AllRight(p: Params, emissions: seq<Emission>) {
    forall i :: 0 <= i < |emissions| ==> Right(p, emissions[i])
  }

  ghost predicate Conserved(p: Params, s: State) {
    && (forall k :: Balanced(s, k))
    && Sound(p.window, s.entries) && AllRight(p, s.handed) && AllRight(p, s.abandoned)
    && (!s.stopped ==> s.abandoned == [])
  }

  /** The balance of one key: what was processed against what is emitted or held. */
  ghost predicate Balanced(s: State, k: string) {
    Occurrences(s.processed, k) == Total(s.handed, k) + Total(s.abandoned, k) + Held(s.entries, k)
  }

  /** Expired entries leave with their counts, and a counted line adds one. */
  lemma HeldSplits(window: int, entries: Entries, now: int, k: string)
    ensures Held(entries, k) == Held(LiveEntries(window, entries, now), k) + Held(ExpiredEntries(window, entries, now), k)
  {
  }

  lemma HeldCounted(live: Entries, line: LogLine, now: int, k: string)
    ensures Held(Counted(live, line, now), k) == Held(live, k) + (if k == EntryKey(line) then 1 else 0)
  {
  }

  lemma OccurrencesSnoc(keys: seq<string>, key: string, k: string)
    ensures Occurrences(keys + [key], k) == Occurrences(keys, k) + (if k == key then 1 else 0)
  {
  }

  lemma ProcessBalanced(p: Params, s: State, e: Step, k: string)
    requires Balanced(s, k) && e.Process? && Enabled(p, s, e)
    ensures Balanced(Apply(p, s, e), k)
  {
    HeldSplits(p.window, s.entries, e.now, k);
    HeldCounted(LiveEntries(p.window, s.entries, e.now), e.line, e.now, k);
    OccurrencesSnoc(s.processed, EntryKey(e.line), k);
    ListsTotal(p.minCount, e.results, ExpiredEntries(p.window, s.entries, e.now), k);
    TotalConcat(s.handed, e.results, k);
  }

  lemma TickBalanced(p: Params, s: State, e: Step, k: string)
    requires Balanced(s, k) && e.Tick? && Enabled(p, s, e)
    ensures Balanced(Apply(p, s, e), k)
  {
    HeldSplits(p.window, s.entries, e.now, k);
    ListsTotal(p.minCount, e.results, ExpiredEntries(p.window, s.entries, e.now), k);
    TotalConcat(if e.abandon then s.abandoned else s.handed, e.results, k);
  }

  lemma StepBalanced(p: Params, s: State, e: Step, k: string)
    requires Balanced(s, k) && Enabled(p, s, e)
    ensures Balanced(Apply(p, s, e), k)
  {
    match e
    case Process(_, _, _) => ProcessBalanced(p, s, e, k);
    case Tick(_, _, _) => TickBalanced(p, s, e, k);
    case Flush(results) =>
      ListsTotal(p.minCount, results, s.entries, k);
      TotalConcat(s.handed, results, k);
    case Stop =>
  }

  lemma ListsRight(p: Params, results: seq<Emission>, batch: Entries, before: seq<Emission>)
    requires Lists(p.minCount, results, batch) && Sound(p.window, batch) && AllRight(p, before)
    ensures AllRight(p, before + results)
  {
    forall i | 0 <= i < |before + results| ensures Right(p, (before + results)[i]) {
      if i >= |before| { assert Shows(p.minCount, results[i - |before|], batch[results[i - |before|].key]); }
    }
  }

  lemma StepRight(p: Params, s: State, e: Step)
    requires Sound(p.window, s.entries) && AllRight(p, s.handed) && AllRight(p, s.abandoned) && Enabled(p, s, e)
    ensures AllRight(p, Apply(p, s, e).handed) && AllRight(p, Apply(p, s, e).abandoned)
  {
    match e
    case Process(_, now, results) => ListsRight(p, results, ExpiredEntries(p.window, s.entries, now), s.handed);
    case Tick(now, abandon, results) =>
      ListsRight(p, results, ExpiredEntries(p.window, s.entries, now), if abandon then s.abandoned else s.handed);
    case Flush(results) => ListsRight(p, results, s.entries, s.handed);
    case Stop =>
  }

  lemma StepSound(p: Params, s: State, e: Step)
    requires p.window >= 0 && Sound(p.window, s.entries) && Enabled(p, s, e)
    ensures Sound(p.window, Apply(p, s, e).entries)
  {
  }

  lemma StepConserved(p: Params, s: State, e: Step)
    requires p.window >= 0 && Conserved(p, s) && Enabled(p, s, e)
    ensures Conserved(p, Apply(p, s, e))
  {
    forall k ensures Balanced(Apply(p, s, e), k) {
      assert Balanced(s, k);
      StepBalanced(p, s, e, k);
    }
    StepSound(p, s, e);
    StepRight(p, s, e);
  }

  lemma {:induction false} RunConserved(p: Params, s: State, run: seq<Step>)
    requires p.window >= 0 && Conserved(p, s) && Run(p, s, run)
    ensures Conserved(p, After(p, s, run))
    decreases |run|
  {
    if run != [] {
      StepConserved(p, s, run[0]);
      RunConserved(p, Apply(p, s, run[0]), run[1..]);
    }
  }

  /** Over every sequence of operations, and any clock: for each key the counts of the lines emitted
      plus the held count are the lines processed with it; every emitted line has its key, and is
      annotated exactly when its count reaches the minimum, with a time within the window. */
  lemma NothingLostOrDoubled(p: Params, run: seq<Step>, k: string)
    requires p.window >= 0 && Run(p, START, run)
    ensures var s := After(p, START, run);
            && Occurrences(s.processed, k) == Total(s.handed, k) + Total(s.abandoned, k) + Held(s.entries, k)
            && (forall i :: 0 <= i < |s.handed| ==>
                  var r := s.handed[i];
                  && EntryKey(r.line) == r.key && r.count > 0
                  && (r.span.Some? <==> r.count >= p.minCount) && (r.span.Some? ==> r.span.value <= p.window))
            && (!s.stopped ==> s.abandoned == [])
  {
    RunConserved(p, START, run);
    var s := After(p, START, run);
    assert Balanced(s, k);
    forall i | 0 <= i < |s.handed| ensures Right(p, s.handed[i]) {
    }
  }

  /** After a flush of an aggregator that was not stopped, the counts handed out are the lines processed. */
  lemma FlushHandsOutAll(p: Params, run: seq<Step>, results: seq<Emission>, k: string)
    requires p.window >= 0 && Run(p, START, run) && !After(p, START, run).stopped
    requires Enabled(p, After(p, START, run), Flush(results))
    ensures var s := Apply(p, After(p, START, run), Flush(results));
            Occurrences(s.processed, k) == Total(s.handed, k)
  {
    RunConserved(p, START, run);
    var s := After(p, START, run);
    StepConserved(p, s, Flush(results));
    assert Balanced(Apply(p, s, Flush(results)), k);
  }

  /** Nothing in the run is later than the window that began at `first`, and nothing is flushed. */
  predicate Fresh(p: Params, first: int, run: seq<Step>) {
    forall e :: e in run ==> match e
                             case Process(_, now, _) => now - first <= p.window
                             case Tick(now, _, _) => now - first <= p.window
                             case Flush(_) => false
                             case Stop => true
  }

  /** How many of the steps process a line with this key. */
  function Processed(run: seq<Step>, k: string): nat {
    if run == [] then 0
    else (if run[0].Process? && EntryKey(run[0].line) == k then 1 else 0) + Processed(run[1..], k)
  }

  /** Lines are merged as long as the window lasts: the entry stays, nothing of its key is emitted, and
      its count grows by every line processed with the key. */
  lemma {:induction false} WindowMerges(p: Params, s: State, run: seq<Step>, k: string)
    requires Run(p, s, run) && k in s.entries && Fresh(p, s.entries[k].firstSeen, run)
    ensures var s' := After(p, s, run);
            && k in s'.entries && s'.entries[k].firstSeen == s.entries[k].firstSeen
            && s'.entries[k].line == s.entries[k].line
            && s'.entries[k].count == s.entries[k].count + Processed(run, k)
            && Total(s'.handed, k) == Total(s.handed, k)
    decreases |run|
  {
    if run != [] {
      assert run[0] in run;
      FreshStep(p, s, run[0], k);
      assert forall e :: e in run[1..] ==> e in run;
      WindowMerges(p, Apply(p, s, run[0]), run[1..], k);
    }
  }

  lemma FreshStep(p: Params, s: State, e: Step, k: string)
    requires Enabled(p, s, e) && k in s.entries && Fresh(p, s.entries[k].firstSeen, [e])
    ensures var s' := Apply(p, s, e);
            && k in s'.entries && s'.entries[k].firstSeen == s.entries[k].firstSeen
            && s'.entries[k].line == s.entries[k].line
            && s'.entries[k].count == s.entries[k].count + (if e.Process? && EntryKey(e.line) == k then 1 else 0)
            && Total(s'.handed, k) == Total(s.handed, k)
  {
    assert e in [e];
    if e.Process? || e.Tick? {
      ListsTotal(p.minCount, e.results, ExpiredEntries(p.window, s.entries, e.now), k);
      TotalConcat(s.handed, e.results, k);
    }
  }

  // ---------------------------------------------------------------- keys

  predicate NoBar(s: string) { '|' !in s }

  lemma {:induction false} FirstPart(a: string, x: string, b: string, y: string)
    requires NoBar(a) && NoBar(b) && a + "|" + x == b + "|" + y
    ensures a == b && x == y
  {
    var l, r := a + "|" + x, b + "|" + y;
    assert a != [] ==> l[0] == a[0] && a[0] in a;
    assert b != [] ==> r[0] == b[0] && b[0] in b;
    assert (a == [] ==> l[0] == '|') && (b == [] ==> r[0] == '|');
    if a == [] {
      assert l[1..] == x && r[1..] == y;
    } else {
      assert l[1..] == a[1..] + "|" + x && r[1..] == b[1..] + "|" + y;
      FirstPart(a[1..], x, b[1..], y);
      assert a == [a[0]] + a[1..] && b == [b[0]] + b[1..];
    }
  }

  /** Lines are merged only when source, level and message agree, as long as source and level
      contain no bar. */
  lemma KeysTellLinesApart(a: LogLine, b: LogLine)
    requires NoBar(a.source) && NoBar(a.level) && NoBar(b.source) && NoBar(b.level)
    ensures EntryKey(a) == EntryKey(b) <==> a.source == b.source && a.level == b.level && a.message == b.message
  {
    if EntryKey(a) == EntryKey(b) {
      assert EntryKey(a) == a.source + "|" + (a.level + "|" + a.message);
      assert EntryKey(b) == b.source + "|" + (b.level + "|" + b.message);
      FirstPart(a.source, a.level + "|" + a.message, b.source, b.level + "|" + b.message);
      FirstPart(a.level, a.message, b.level, b.message);
    }
  }

  /** How many bars a string contains. */
  function Bars(s: string): (n: nat)
    ensures n == 0 <==> NoBar(s)
  {
    if s == [] then 0 else (if s[0] == '|' then 1 else 0) + Bars(s[1..])
  }

  lemma {:induction false} BarsConcat(a: string, b: string)
    ensures Bars(a + b) == Bars(a) + Bars(b)
  {
    if a == [] {
      assert a + b == b;
    } else {
      assert (a + b)[1..] == a[1..] + b;
      BarsConcat(a[1..], b);
    }
  }

  lemma KeyBars(line: LogLine)
    ensures Bars(EntryKey(line)) == Bars(line.source) + Bars(line.level) + Bars(line.message) + 2
  {
    BarsConcat(line.source + "|" + line.level + "|", line.message);
    BarsConcat(line.source + "|" + line.level, "|");
    BarsConcat(line.source + "|", line.level);
    BarsConcat(line.source, "|");
    assert "|"[1..] == "" && Bars("|") == 1;
  }

  /** The lines the aggregator is meant to merge. */
  predicate SameParts(a: LogLine, b: LogLine) {
    a.source == b.source && a.level == b.level && a.message == b.message
  }

  predicate BarFree(line: LogLine) {
    NoBar(line.source) && NoBar(line.level) && NoBar(line.message)
  }

  /** The string before its first bar, and what follows the bar. */
  function Before(s: string): (p: string)
    ensures NoBar(p) && |p| <= |s| && (NoBar(s) ==> p == s)
    ensures !NoBar(s) ==> |p| < |s| && s == p + "|" + s[|p| + 1..]
  {
    if s == [] || s[0] == '|' then []
    else
      assert s == [s[0]] + s[1..];
      [s[0]] + Before(s[1..])
  }

  function Rest(s: string): string { if NoBar(s) then "" else s[|Before(s)| + 1..] }

  /** Another line with the key of one that contains a bar: the parts are cut one bar elsewhere. */
  function Twin(line: LogLine): LogLine {
    if !NoBar(line.source) then
      line.(source := Before(line.source), level := Rest(line.source) + "|" + line.level)
    else if !NoBar(line.level) then
      line.(level := Before(line.level), message := Rest(line.level) + "|" + line.message)
    else
      line.(level := line.level + "|" + Before(line.message), message := Rest(line.message))
  }

  /** Three strings joined by bars, whichever of the three a fourth bar is counted to. */
  lemma BarMoves(a: string, b: string, c: string, d: string)
    ensures (a + "|" + b) + "|" + c + "|" + d == a + "|" + (b + "|" + c) + "|" + d
    ensures a + "|" + (b + "|" + c) + "|" + d == a + "|" + b + "|" + (c + "|" + d)
  {
    assert (a + "|" + b) + "|" + c == a + "|" + (b + "|" + c);
    assert (b + "|" + c) + "|" + d == b + "|" + (c + "|" + d);
    assert a + "|" + (b + "|" + c) + "|" + d == a + "|" + ((b + "|" + c) + "|" + d);
  }

  lemma TwinSharesKey(line: LogLine)
    requires !BarFree(line)
    ensures EntryKey(Twin(line)) == EntryKey(line) && !SameParts(Twin(line), line)
  {
    var s, l, m := line.source, line.level, line.message;
    if !NoBar(s) {
      BarMoves(Before(s), Rest(s), l, m);
    } else if !NoBar(l) {
      BarMoves(s, Before(l), Rest(l), m);
    } else {
      BarMoves(s, l, Before(m), Rest(m));
      assert |l + "|" + Before(m)| > |l|;
    }
  }

  /** The exact condition: a line is never merged with a different one if and only if none of its
      three parts, the message included, contains a bar. */
  lemma OwnKeyIffBarFree(a: LogLine)
    ensures (forall b: LogLine :: EntryKey(b) == EntryKey(a) ==> SameParts(a, b)) <==> BarFree(a)
  {
    if BarFree(a) {
      forall b: LogLine | EntryKey(b) == EntryKey(a) ensures SameParts(a, b) {
        KeyBars(a);
        KeyBars(b);
        KeysTellLinesApart(a, b);
      }
    } else {
      TwinSharesKey(a);
    }
  }

  // ---------------------------------------------------------------- the code

  lemma ListsOneMore(minCount: nat, results: seq<Emission>, batch: Entries, r: Emission, e: Entry)
    requires Lists(minCount, results, batch) && r.key !in batch && Shows(minCount, r, e)
    ensures Lists(minCount, results + [r], batch[r.key := e])
  {
    var longer, larger := results + [r], batch[r.key := e];
    forall key | key in larger ensures exists i :: 0 <= i < |longer| && longer[i].key == key {
      if key == r.key {
        assert longer[|results|].key == key;
      } else {
        var i :| 0 <= i < |results| && results[i].key == key;
        assert longer[i].key == key;
      }
    }
  }

  class Table {
    const window: int
    const minCount: nat
    var entries: Entries
    var stopped: bool
    ghost var processed: seq<string>
    ghost var handed: seq<Emission>
    ghost var abandoned: seq<Emission>

    ghost function View(): State
      reads this
    {
      State(entries, stopped, processed, handed, abandoned)
    }

    ghost function Settings(): Params { Params(window, minCount) }

    /** A non-positive window becomes five seconds (in nanoseconds), a minimum below two becomes two. */
    constructor (window: int, minCount: int)
      ensures View() == START
      ensures this.window == if window <= 0 then 5_000_000_000 else window
      ensures this.minCount == if minCount < 2 then 2 else minCount
    {
      this.window := if window <= 0 then 5_000_000_000 else window;
      this.minCount := if minCount < 2 then 2 else minCount;
      entries, stopped := map[], false;
      processed, handed, abandoned := [], [], [];
    }

    method EmitEntry(k: string) returns (r: Emission)
      requires k in entries
      modifies this`entries
      ensures entries == old(entries) - {k}
      ensures r.key == k && r.line == old(entries)[k].line && r.count == old(entries)[k].count
      ensures var e := old(entries)[k];
              r.span == if e.count >= minCount then Some(e.lastSeen - e.firstSeen) else None
    {
      var e := entries[k];
      entries := entries - {k};
      var span: Option<int> := None;
      if e.count >= minCount {
        span := Some(e.lastSeen - e.firstSeen);
      }
      return Emission(k, e.line, e.count, span);
    }

    /** Emits the expired entries, walking the map in any order. */
    method CollectExpired(now: int) returns (results: seq<Emission>)
      modifies this`entries
      ensures entries == LiveEntries(window, old(entries), now)
      ensures Lists(minCount, results, ExpiredEntries(window, old(entries), now))
    {
      results := [];
      var todo := entries.Keys;
      ghost var batch: Entries := map[];
      while todo != {}
        invariant todo <= entries.Keys
        invariant entries.Keys + batch.Keys == old(entries).Keys && entries.Keys !! batch.Keys
        invariant forall k :: k in entries ==> entries[k] == old(entries)[k]
        invariant forall k :: k in batch ==> batch[k] == old(entries)[k] && Expired(window, batch[k], now)
        invariant forall k :: k in entries && k !in todo ==> !Expired(window, entries[k], now)
        invariant Lists(minCount, results, batch)
        decreases todo
      {
        var k :| k in todo;
        if now - entries[k].firstSeen > window {
          ghost var e := entries[k];
          var r := EmitEntry(k);
          ListsOneMore(minCount, results, batch, r, e);
          batch := batch[k := e];
          results := results + [r];
        }
        todo := todo - {k};
      }
      assert batch == ExpiredEntries(window, old(entries), now);
      assert entries == LiveEntries(window, old(entries), now);
    }

    /** Process: the results are the expired entries, and the line is counted. An entry of the same key
        that is still there has not expired, so it is never emitted to make room for the new one. */
    method ProcessLine(line: LogLine, now: int) returns (results: seq<Emission>)
      modifies this
      ensures Enabled(Settings(), old(View()), Process(line, now, results))
      ensures View() == Apply(Settings(), old(View()), Process(line, now, results))
      ensures var k := EntryKey(line);
              && k in entries
              && entries[k] == if k in old(entries) && now - old(entries)[k].firstSeen <= window
                               then old(entries)[k].(count := old(entries)[k].count + 1, lastSeen := now)
                               else Entry(line, 1, now, now)
      ensures forall j :: j != EntryKey(line) ==>
                (j in entries <==> j in old(entries) && now - old(entries)[j].firstSeen <= window)
      ensures forall j :: j in entries && j != EntryKey(line) ==> entries[j] == old(entries)[j]
    {
      var k := EntryKey(line);
      processed := processed + [k];
      results := CollectExpired(now);
      handed := handed + results;
      if k in entries {
        var e := entries[k];
        if now - e.firstSeen <= window {
          entries := entries[k := e.(count := e.count + 1, lastSeen := now)];
          return;
        }
        assert false;
      }
      entries := entries[k := Entry(line, 1, now, now)];
    }

    /** One tick of the flush loop; a stopped aggregator may abandon what the tick collected. */
    method TickOnce(now: int, abandon: bool) returns (results: seq<Emission>)
      requires abandon ==> stopped
      modifies this
      ensures Enabled(Settings(), old(View()), Tick(now, abandon, results))
      ensures View() == Apply(Settings(), old(View()), Tick(now, abandon, results))
      ensures forall j :: j in entries <==> j in old(entries) && now - old(entries)[j].firstSeen <= window
      ensures forall j :: j in entries ==> entries[j] == old(entries)[j]
    {
      results := CollectExpired(now);
      if abandon { abandoned := abandoned + results; } else { handed := handed + results; }
    }

    /** Flush: every entry is emitted, in any order. */
    method FlushAll() returns (results: seq<Emission>)
      modifies this
      ensures Enabled(Settings(), old(View()), Flush(results))
      ensures View() == Apply(Settings(), old(View()), Flush(results)) && entries == map[]
    {
      results := [];
      ghost var batch: Entries := map[];
      while entries.Keys != {}
        invariant entries.Keys + batch.Keys == old(entries).Keys && entries.Keys !! batch.Keys
        invariant forall k :: k in entries ==> entries[k] == old(entries)[k]
        invariant forall k :: k in batch ==> batch[k] == old(entries)[k]
        invariant Lists(minCount, results, batch)
        invariant handed == old(handed) && processed == old(processed)
        invariant abandoned == old(abandoned) && stopped == old(stopped)
        decreases entries.Keys
      {
        var k :| k in entries.Keys;
        ghost var e := entries[k];
        var r := EmitEntry(k);
        ListsOneMore(minCount, results, batch, r, e);
        batch := batch[k := e];
        results := results + [r];
      }
      assert batch == old(entries) && entries == map[];
      handed := handed + results;
    }

    /** Stop, any number of times. */
    method StopOnce()
      modifies this`stopped
      ensures Enabled(Settings(), old(View()), Stop) && View() == Apply(Settings(), old(View()), Stop)
      ensures stopped
    {
      stopped := true;
    }
  }
}
