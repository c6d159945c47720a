// The error-rate rule (internal/alert/engine.go): the pruned window kept in place agrees with a
// filter over the whole history since the last firing.
module ErrorRate {
  import opened LogLines

  datatype RateRule = RateRule(source: string, threshold: int, window: int)

  /** Does the rule count this line? `lower` is the lower-casing of level names. */
  predicate Counts(r: RateRule, lower: string -> string, line: LogLine) {
    && (r.source == "" || r.source == line.source)
    && lower(line.level) in LOG_LEVELS
    && LOG_LEVELS[lower(line.level)] >= LOG_LEVELS["error"]
  }

  predicate Sorted(times: seq<int>) {
    forall i, j :: 0 <= i <= j < |times| ==> times[i] <= times[j]
  }

  /** The times at or after the cutoff, in order. */
  function Recent(times: seq<int>, cutoff: int): seq<int> {
    if times == [] then []
    else Recent(times[..|times| - 1], cutoff)
         + (if times[|times| - 1] >= cutoff then [times[|times| - 1]] else [])
  }

  /** The places of the times at or after the cutoff. */
  ghost function RecentPlaces(times: seq<int>, cutoff: int): set<int> {
    set j | 0 <= j < |times| && times[j] >= cutoff
  }

  lemma {:induction false} RecentCounts(times: seq<int>, cutoff: int)
    ensures |Recent(times, cutoff)| == |RecentPlaces(times, cutoff)|
  {
    if times == [] {
      assert RecentPlaces(times, cutoff) == {};
    } else {
      var n := |times| - 1;
      RecentCounts(times[..n], cutoff);
      if times[n] >= cutoff {
        assert RecentPlaces(times, cutoff) == RecentPlaces(times[..n], cutoff) + {n};
      } else {
        assert RecentPlaces(times, cutoff) == RecentPlaces(times[..n], cutoff);
      }
    }
  }

  /** What the rule is meant to do: look at all errors since the last firing, fire when enough of
      them are recent. */
  datatype Outcome = Outcome(kept: seq<int>, fired: Option<nat>)

  function Reference(r: RateRule, since: seq<int>, now: int): Outcome {
    var all := since + [now];
    var n := |Recent(all, now - r.window)|;
    if n >= r.threshold then Outcome([], Some(n)) else Outcome(all, None)
  }

  /** An event is emitted if and only if at least the threshold of all errors since the last firing are
      within the window; it carries their number, and they are forgotten. */
  ghost predicate Decided(r: RateRule, all: seq<int>, now: int, fired: Option<nat>, kept: seq<int>) {
    var recent := set j | 0 <= j < |all| && all[j] >= now - r.window;
    && (fired.Some? <==> |recent| >= r.threshold)
    && (fired.Some? ==> fired.value == |recent|)
    && kept == if fired.Some? then [] else all
  }

  lemma ReferenceDecides(r: RateRule, since: seq<int>, now: int)
    ensures Decided(r, since + [now], now, Reference(r, since, now).fired, Reference(r, since, now).kept)
  {
    RecentCounts(since + [now], now - r.window);
  }

  /** Without the leading times before the cutoff. */
  function Pruned(times: seq<int>, cutoff: int): seq<int> {
    if times != [] && times[0] < cutoff then Pruned(times[1..], cutoff) else times
  }

  /** What the code does: prune the kept times in place, then compare their number. */
  function Windowed(r: RateRule, kept: seq<int>, now: int): Outcome {
    var pruned := Pruned(kept + [now], now - r.window);
    if |pruned| >= r.threshold then Outcome([], Some(|pruned|)) else Outcome(pruned, None)
  }

  // ---------------------------------------------------------------- one step refines the other

  lemma RecentSnoc(times: seq<int>, t: int, cutoff: int)
    ensures Recent(times + [t], cutoff) == Recent(times, cutoff) + (if t >= cutoff then [t] else [])
  {
    assert (times + [t])[..|times + [t]| - 1] == times;
  }

  lemma {:induction false} RecentTwice(times: seq<int>, earlier: int, later: int)
    requires earlier <= later
    ensures Recent(Recent(times, earlier), later) == Recent(times, later)
  {
    if times != [] {
      var front, last := times[..|times| - 1], times[|times| - 1];
      RecentTwice(front, earlier, later);
      if last >= earlier {
        RecentSnoc(Recent(front, earlier), last, later);
      } else {
        assert Recent(times, earlier) == Recent(front, earlier) + [] == Recent(front, earlier);
      }
    }
  }

  lemma {:induction false} RecentWithin(times: seq<int>, cutoff: int)
    ensures forall t :: t in Recent(times, cutoff) ==> t in times
  {
    if times != [] { RecentWithin(times[..|times| - 1], cutoff); }
  }

  lemma SortedSnoc(times: seq<int>, t: int)
    requires Sorted(times) && forall x :: x in times ==> x <= t
    ensures Sorted(times + [t])
  {
    var longer := times + [t];
    forall i, j | 0 <= i <= j < |longer| ensures longer[i] <= longer[j] {
      if j == |times| { assert i < |times| ==> times[i] in times; }
    }
  }

  lemma {:induction false} RecentSorted(times: seq<int>, cutoff: int)
    requires Sorted(times)
    ensures Sorted(Recent(times, cutoff))
  {
    if times != [] {
      var front, last := times[..|times| - 1], times[|times| - 1];
      RecentSorted(front, cutoff);
      RecentWithin(front, cutoff);
      if last >= cutoff { SortedSnoc(Recent(front, cutoff), last); }
    }
  }

  lemma {:induction false} AllRecent(times: seq<int>, cutoff: int)
    requires forall i :: 0 <= i < |times| ==> times[i] >= cutoff
    ensures Recent(times, cutoff) == times
  {
    if times != [] {
      AllRecent(times[..|times| - 1], cutoff);
      assert times[..|times| - 1] + [times[|times| - 1]] == times;
    }
  }

  lemma {:induction false} RecentDropsOld(times: seq<int>, cutoff: int)
    requires times != [] && times[0] < cutoff
    ensures Recent(times, cutoff) == Recent(times[1..], cutoff)
    decreases |times|
  {
    if |times| == 1 {
      assert times[..0] == [] && times[1..] == [];
    } else {
      var front := times[..|times| - 1];
      RecentDropsOld(front, cutoff);
      assert times[1..][..|times[1..]| - 1] == front[1..];
    }
  }

  /** On sorted times, removing a prefix is the filter. */
  lemma {:induction false} PruningIsFiltering(times: seq<int>, cutoff: int)
    requires Sorted(times)
    ensures Pruned(times, cutoff) == Recent(times, cutoff)
    decreases |times|
  {
    if times != [] && times[0] < cutoff {
      RecentDropsOld(times, cutoff);
      PruningIsFiltering(times[1..], cutoff);
    } else {
      AllRecent(times, cutoff);
    }
  }

  /** The kept times are the recent part of the errors since the last firing. */
  ghost predicate Tracks(r: RateRule, kept: seq<int>, since: seq<int>) {
    && Sorted(since)
    && kept == if since == [] then [] else Recent(since, since[|since| - 1] - r.window)
  }

  lemma LaterThanAll(since: seq<int>, now: int)
    requires Sorted(since) && (since != [] ==> since[|since| - 1] <= now)
    ensures forall x :: x in since ==> x <= now
  {
    forall x | x in since ensures x <= now {
      var i :| 0 <= i < |since| && since[i] == x;
      assert since[i] <= since[|since| - 1];
    }
  }

  lemma ExtendedSorted(r: RateRule, kept: seq<int>, since: seq<int>, now: int)
    requires Tracks(r, kept, since) && (since != [] ==> since[|since| - 1] <= now)
    ensures Sorted(kept + [now]) && Sorted(since + [now])
  {
    LaterThanAll(since, now);
    KeptWithin(r, kept, since);
    SortedSnoc(kept, now);
    SortedSnoc(since, now);
  }

  lemma KeptWithin(r: RateRule, kept: seq<int>, since: seq<int>)
    requires Tracks(r, kept, since)
    ensures Sorted(kept) && forall t :: t in kept ==> t in since
  {
    if since == [] {
      assert kept == [];
    } else {
      RecentSorted(since, since[|since| - 1] - r.window);
      RecentWithin(since, since[|since| - 1] - r.window);
    }
  }

  /** With one more error, the kept times and the history have the same recent part. */
  lemma SameRecent(since: seq<int>, kept: seq<int>, before: int, now: int, cutoff: int, all: seq<int>, window: seq<int>)
    requires before <= cutoff && kept == Recent(since, before) && all == since + [now] && window == kept + [now]
    ensures Recent(window, cutoff) == Recent(all, cutoff)
  {
    RecentTwice(since, before, cutoff);
    RecentSnoc(since, now, cutoff);
    RecentSnoc(kept, now, cutoff);
  }

  lemma PrunedIsRecent(r: RateRule, kept: seq<int>, since: seq<int>, now: int, all: seq<int>, window: seq<int>)
    requires Tracks(r, kept, since) && (since != [] ==> since[|since| - 1] <= now)
    requires all == since + [now] && window == kept + [now]
    ensures Pruned(window, now - r.window) == Recent(all, now - r.window)
  {
    ExtendedSorted(r, kept, since, now);
    PruningIsFiltering(window, now - r.window);
    if since == [] {
      assert window == all;
    } else {
      SameRecent(since, kept, since[|since| - 1] - r.window, now, now - r.window, all, window);
    }
  }

  /** The same recent part, so the same decision. */
  lemma SameDecision(r: RateRule, kept: seq<int>, since: seq<int>, now: int)
    requires Pruned(kept + [now], now - r.window) == Recent(since + [now], now - r.window)
    ensures var w, h := Windowed(r, kept, now), Reference(r, since, now);
            && w.fired == h.fired
            && if h.fired.Some? then w.kept == h.kept == []
               else w.kept == Recent(since + [now], now - r.window) && h.kept == since + [now]
  {
  }

  lemma RecentTracks(r: RateRule, since: seq<int>, now: int)
    requires Sorted(since + [now])
    ensures Tracks(r, Recent(since + [now], now - r.window), since + [now])
  {
  }

  lemma StepAgrees(r: RateRule, kept: seq<int>, since: seq<int>, now: int)
    requires Tracks(r, kept, since) && (since != [] ==> since[|since| - 1] <= now)
    ensures Windowed(r, kept, now).fired == Reference(r, since, now).fired
    ensures Tracks(r, Windowed(r, kept, now).kept, Reference(r, since, now).kept)
  {
    PrunedIsRecent(r, kept, since, now, since + [now], kept + [now]);
    SameDecision(r, kept, since, now);
    if Reference(r, since, now).fired.None? {
      ExtendedSorted(r, kept, since, now);
      RecentTracks(r, since, now);
    }
  }

  // ---------------------------------------------------------------- whole runs

  /** The firings of a run over the times of the counted errors. */
  function WindowedRun(r: RateRule, kept: seq<int>, times: seq<int>): seq<Option<nat>>
    decreases |times|
  {
    if times == [] then []
    else var w := Windowed(r, kept, times[0]); [w.fired] + WindowedRun(r, w.kept, times[1..])
  }

  function ReferenceRun(r: RateRule, since: seq<int>, times: seq<int>): seq<Option<nat>>
    decreases |times|
  {
    if times == [] then []
    else var h := Reference(r, since, times[0]); [h.fired] + ReferenceRun(r, h.kept, times[1..])
  }

  lemma {:induction false} RunsAgreeFrom(r: RateRule, kept: seq<int>, since: seq<int>, times: seq<int>)
    requires Tracks(r, kept, since) && Sorted(times)
    requires since != [] && times != [] ==> since[|since| - 1] <= times[0]
    ensures WindowedRun(r, kept, times) == ReferenceRun(r, since, times)
    decreases |times|
  {
    if times != [] {
      var now, rest := times[0], times[1..];
      StepAgrees(r, kept, since, now);
      SortedRest(times);
      RunsAgreeFrom(r, Windowed(r, kept, now).kept, Reference(r, since, now).kept, rest);
    }
  }

  lemma SortedRest(times: seq<int>)
    requires Sorted(times) && times != []
    ensures Sorted(times[1..]) && (|times| > 1 ==> times[0] <= times[1])
  {
    forall i, j | 0 <= i <= j < |times[1..]| ensures times[1..][i] <= times[1..][j] {
      assert times[i + 1] <= times[j + 1];
    }
  }

  /** The in-place window fires at exactly the errors, and with exactly the counts, of the filter
      over the whole history since the last firing. */
  lemma WindowRefinesHistory(r: RateRule, times: seq<int>)
    requires Sorted(times)
    ensures WindowedRun(r, [], times) == ReferenceRun(r, [], times)
  {
    RunsAgreeFrom(r, [], [], times);
  }

  lemma {:induction false} PrunedShorter(times: seq<int>, cutoff: int)
    ensures |Pruned(times, cutoff)| <= |times|
  {
    if times != [] && times[0] < cutoff { PrunedShorter(times[1..], cutoff); }
  }

  /** A positive threshold is hit exactly: every event carries the threshold as its count, and
      fewer than that many times are ever kept. */
  lemma {:induction false} CountIsThreshold(r: RateRule, kept: seq<int>, times: seq<int>, i: nat)
    requires r.threshold >= 1 && |kept| < r.threshold && i < |times|
    ensures |WindowedRun(r, kept, times)| == |times|
    ensures WindowedRun(r, kept, times)[i].Some? ==> WindowedRun(r, kept, times)[i].value == r.threshold
    decreases |times|
  {
    PrunedShorter(kept + [times[0]], times[0] - r.window);
    var w := Windowed(r, kept, times[0]);
    if |times| > 1 {
      CountIsThreshold(r, w.kept, times[1..], if i == 0 then 0 else i - 1);
    }
  }

  lemma SlideKeeps(r: RateRule, kept: seq<int>, since: seq<int>, now: int)
    requires Tracks(r, kept, since) && (since != [] ==> since[|since| - 1] <= now)
    requires r.threshold >= 1 ==> |kept| < r.threshold
    ensures var w, h := Windowed(r, kept, now), Reference(r, since, now);
            && w.fired == h.fired && Tracks(r, w.kept, h.kept)
            && (r.threshold >= 1 ==> |w.kept| < r.threshold && (w.fired.Some? ==> w.fired.value == r.threshold))
  {
    StepAgrees(r, kept, since, now);
    PrunedShorter(kept + [now], now - r.window);
  }

  // ---------------------------------------------------------------- the code

  class Evaluator {
    const rule: RateRule
    var timestamps: seq<int>
    ghost var since: seq<int>      // every counted error since the last firing

    ghost predicate Valid()
      reads this
    {
      && Tracks(rule, timestamps, since)
      && (rule.threshold >= 1 ==> |timestamps| < rule.threshold)
    }

    constructor (rule: RateRule)
      ensures Valid() && this.rule == rule && since == []
    {
      this.rule := rule;
      timestamps, since := [], [];
    }

    /** The part of evaluate under the lock: append, prune in place, and clear on firing. */
    method Slide(now: int) returns (fired: Option<nat>)
      modifies this`timestamps
      ensures Outcome(timestamps, fired) == Windowed(rule, old(timestamps), now)
    {
      timestamps := timestamps + [now];
      var start := FirstRecent(timestamps, now - rule.window);
      timestamps := timestamps[start..];
      var count := |timestamps|;
      if count >= rule.threshold {
        timestamps := [];
        return Some(count);
      }
      return None;
    }

    /** A counted error at time `now`. */
    method CountError(now: int) returns (fired: Option<nat>)
      requires Valid() && (since != [] ==> since[|since| - 1] <= now)
      modifies this
      ensures Outcome(since, fired) == Reference(rule, old(since), now)
      ensures Decided(rule, old(since) + [now], now, fired, since)
      ensures Valid()
      ensures fired.Some? && rule.threshold >= 1 ==> fired.value == rule.threshold
    {
      ghost var all, expected := since + [now], Reference(rule, since, now);
      ReferenceDecides(rule, since, now);
      SlideKeeps(rule, timestamps, since, now);
      fired := Slide(now);
      since := expected.kept;
      assert fired == expected.fired;
      assert Decided(rule, all, now, fired, since);
    }

    /** evaluate: the count of the event, when one is emitted. Among all errors since the last
        firing, those within the window of `now` decide, and a firing forgets them all. */
    method Evaluate(line: LogLine, lower: string -> string, now: int) returns (fired: Option<nat>)
      requires Valid() && (since != [] ==> since[|since| - 1] <= now)
      modifies this
      ensures Valid()
      ensures var counts := (rule.source == "" || rule.source == line.source) && lower(line.level) in ["error", "fatal"];
              && counts == Counts(rule, lower, line)
              && (counts ==> Decided(rule, old(since) + [now], now, fired, since))
              && (!counts ==> fired.None? && since == old(since) && timestamps == old(timestamps))
      ensures Counts(rule, lower, line) ==> Outcome(since, fired) == Reference(rule, old(since), now)
      ensures fired.Some? && rule.threshold >= 1 ==> fired.value == rule.threshold
    {
      ErrorLevels(lower(line.level));
      if rule.source != "" && rule.source != line.source {
        return None;
      }
      var level := lower(line.level);
      if level !in LOG_LEVELS {
        return None;
      }
      if LOG_LEVELS[level] < LOG_LEVELS["error"] {
        return None;
      }
      fired := CountError(now);
    }
  }

  lemma ErrorLevels(level: string)
    ensures level in LOG_LEVELS && LOG_LEVELS[level] >= LOG_LEVELS["error"] <==> level in ["error", "fatal"]
  {
    LevelsInOrder();
    assert LEVEL_ORDER[3] == "error" && LEVEL_ORDER[4] == "fatal";
  }

  /** The pruning loop: the number of leading times before the cutoff. */
  method FirstRecent(times: seq<int>, cutoff: int) returns (start: nat)
    ensures start <= |times| && times[start..] == Pruned(times, cutoff)
    ensures forall i :: 0 <= i < start ==> times[i] < cutoff
    ensures start < |times| ==> times[start] >= cutoff
  {
    start := 0;
    while start < |times| && times[start] < cutoff
      invariant start <= |times| && Pruned(times, cutoff) == Pruned(times[start..], cutoff)
      invariant forall i :: 0 <= i < start ==> times[i] < cutoff
    {
      assert times[start..][1..] == times[start + 1..];
      start := start + 1;
    }
  }
}
