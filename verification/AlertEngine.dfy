// The alert engine's bookkeeping over every interleaving of firings and rule reloads
// (internal/alert/engine.go), and the cooldown limiter (internal/alert/ratelimit.go).
module AlertEngine {
  import opened LogLines
  import opened Seqs

  const MAX_RECENT_EVENTS: nat := 100

  datatype Rule = Rule(name: string, kind: string, pattern: string, level: string, cooldown: int)

  datatype AlertEvent = AlertEvent(rule: string, message: string, timestamp: int)

  datatype Stat = Stat(fireCount: nat, lastFired: Option<int>)

  /** Where a goroutine is inside fireEvent: the three critical sections are separate steps. */
  datatype Stage =
    | Quiet
    | Allowed(rule: string, event: AlertEvent)
    | Counted(event: AlertEvent)

  /** What happened to the rule statistics, in order. */
  datatype LogEntry =
    | Loaded(names: set<string>)
    | Fired(name: string, at: int)

  datatype Grant = Grant(name: string, at: int)

  /** `log`, `recorded` and `grants` are histories; the rest is the engine's state. */
  datatype State = State(
    rules: seq<Rule>, stats: map<string, Stat>, recent: seq<AlertEvent>, lastFire: map<string, int>,
    threads: seq<Stage>, log: seq<LogEntry>, recorded: seq<AlertEvent>, grants: seq<Grant>)

  /** Allow carries the limiter's two clock readings. */
  datatype Step =
    | Allow(t: nat, rule: Rule, event: AlertEvent, checkedAt: int, recordedAt: int)
    | CountFiring(t: nat)
    | Record(t: nat)
    | Reload(rules: seq<Rule>, regexOk: string -> bool, lower: string -> string)

  /** compileRule. */
  predicate Compiles(r: Rule, regexOk: string -> bool, lower: string -> string) {
    match r.kind
    case "pattern" => regexOk(r.pattern)
    case "level" => lower(r.level) in LOG_LEVELS
    case "error_rate" => true
    case "health_change" => true
    case _ => false
  }

  predicate AllCompile(rules: seq<Rule>, regexOk: string -> bool, lower: string -> string) {
    forall i :: 0 <= i < |rules| ==> Compiles(rules[i], regexOk, lower)
  }

  function Names(rules: seq<Rule>): set<string> {
    set i | 0 <= i < |rules| :: rules[i].name
  }

  /** Statistics after a reload: kept for names that stay, fresh for names that enter. */
  function Reloaded(stats: map<string, Stat>, names: set<string>): map<string, Stat> {
    map name | name in names :: if name in stats then stats[name] else Stat(0, None)
  }

  predicate MayFire(lastFire: map<string, int>, name: string, cooldown: int, now: int) {
    cooldown <= 0 || !(name in lastFire && now - lastFire[name] < cooldown)
  }

  function Bumped(stats: map<string, Stat>, name: string, at: int): map<string, Stat> {
    if name in stats then stats[name := Stat(stats[name].fireCount + 1, Some(at))] else stats
  }

  function Pushed(recent: seq<AlertEvent>, event: AlertEvent): seq<AlertEvent> {
    (if |recent| >= MAX_RECENT_EVENTS then recent[1..] else recent) + [event]
  }

  function Start(rules: seq<Rule>, goroutines: nat): State {
    State(rules, Reloaded(map[], Names(rules)), [], map[], seq(goroutines, _ => Quiet),
          [Loaded(Names(rules))], [], [])
  }

  predicate Enabled(s: State, e: Step) {
    match e
    case Allow(t, _, _, _, _) => t < |s.threads| && s.threads[t].Quiet?
    case CountFiring(t) => t < |s.threads| && s.threads[t].Allowed?
    case Record(t) => t < |s.threads| && s.threads[t].Counted?
    case Reload(_, _, _) => true
  }

  function Apply(s: State, e: Step): State
    requires Enabled(s, e)
  {
    match e
    case Allow(t, rule, event, checkedAt, recordedAt) =>
      if !MayFire(s.lastFire, rule.name, rule.cooldown, checkedAt) then s
      else
        var s1 := s.(threads := s.threads[t := Allowed(rule.name, event)]);
        if rule.cooldown <= 0 then s1
        else s1.(lastFire := s.lastFire[rule.name := recordedAt], grants := s.grants + [Grant(rule.name, recordedAt)])
    case CountFiring(t) =>
      var name, event := s.threads[t].rule, s.threads[t].event;
      s.(stats := Bumped(s.stats, name, event.timestamp), log := s.log + [Fired(name, event.timestamp)],
         threads := s.threads[t := Counted(event)])
    case Record(t) =>
      var event := s.threads[t].event;
      s.(recent := Pushed(s.recent, event), recorded := s.recorded + [event], threads := s.threads[t := Quiet])
    case Reload(rules, regexOk, lower) =>
      if AllCompile(rules, regexOk, lower) then
        s.(rules := rules, stats := Reloaded(s.stats, Names(rules)), log := s.log + [Loaded(Names(rules))])
      else s
  }

  predicate Run(s: State, run: seq<Step>)
    decreases |run|
  {
    run != [] ==> Enabled(s, run[0]) && Run(Apply(s, run[0]), run[1..])
  }

  function After(s: State, run: seq<Step>): State
    requires Run(s, run)
    decreases |run|
  {
    if run == [] then s else After(Apply(s, run[0]), run[1..])
  }

  // ---------------------------------------------------------------- statistics and recent events

  function Firings(log: seq<LogEntry>, name: string): seq<int> {
    if log == [] then []
    else Firings(log[..|log| - 1], name)
         + (match log[|log| - 1] case Fired(n, at) => (if n == name then [at] else []) case Loaded(_) => [])
  }

  /** The rule set in force after the first n entries contains the name. */
  predicate PresentAfter(log: seq<LogEntry>, n: nat, name: string)
    requires n <= |log|
  {
    n > 0 && match log[n - 1] case Loaded(names) => name in names case Fired(_, _) => PresentAfter(log, n - 1, name)
  }

  /** The name entered the rule set with entry p and has been in it ever since. */
  ghost predicate EnteredAt(log: seq<LogEntry>, p: nat, name: string) {
    && p < |log| && log[p].Loaded? && name in log[p].names
    && !PresentAfter(log, p, name)
    && forall q :: p <= q < |log| && log[q].Loaded? ==> name in log[q].names
  }

  function LastOf(times: seq<int>): Option<int> {
    if times == [] then None else Some(times[|times| - 1])
  }

  /** The statistics tell what happened since the name last entered the rule set. */
  ghost predicate Tells(stat: Stat, log: seq<LogEntry>, p: nat, name: string)
    requires p <= |log|
  {
    var times := Firings(log[p..], name);
    && stat.fireCount == |times|
    && stat.lastFired == LastOf(times)
  }

  /** Some entry point explains the statistics of the name. */
  ghost predicate Explained(stat: Stat, log: seq<LogEntry>, name: string) {
    exists p :: 0 <= p < |log| && EnteredAt(log, p, name) && Tells(stat, log, p, name)
  }

  ghost predicate StatsRight(s: State) {
    && (forall name :: name in s.stats <==> PresentAfter(s.log, |s.log|, name))
    && (forall name :: name in s.stats ==> Explained(s.stats[name], s.log, name))
  }

  lemma {:induction false} PresentPrefix(log: seq<LogEntry>, more: seq<LogEntry>, n: nat, name: string)
    requires n <= |log|
    ensures PresentAfter(log + more, n, name) == PresentAfter(log, n, name)
    decreases n
  {
    if n > 0 { PresentPrefix(log, more, n - 1, name); }
  }

  lemma EnteredStays(log: seq<LogEntry>, p: nat, name: string, last: LogEntry)
    requires EnteredAt(log, p, name) && (last.Loaded? ==> name in last.names)
    ensures EnteredAt(log + [last], p, name)
  {
    PresentPrefix(log, [last], p, name);
  }

  lemma FiringsSnoc(log: seq<LogEntry>, p: nat, name: string, last: LogEntry)
    requires p <= |log|
    ensures Firings((log + [last])[p..], name)
            == Firings(log[p..], name) + (match last case Fired(n, at) => (if n == name then [at] else []) case Loaded(_) => [])
  {
    assert (log + [last])[p..] == log[p..] + [last];
    assert (log[p..] + [last])[..|log[p..] + [last]| - 1] == log[p..];
  }

  lemma CountRight(s: State, e: Step)
    requires StatsRight(s) && e.CountFiring? && Enabled(s, e)
    ensures StatsRight(Apply(s, e))
  {
    var fired, event := s.threads[e.t].rule, s.threads[e.t].event;
    var stats', log' := Bumped(s.stats, fired, event.timestamp), s.log + [Fired(fired, event.timestamp)];
    forall name ensures name in stats' <==> PresentAfter(log', |log'|, name) {
      PresentPrefix(s.log, [Fired(fired, event.timestamp)], |s.log|, name);
    }
    forall name | name in stats' ensures Explained(stats'[name], log', name) {
      BumpExplained(s.stats, s.log, name, fired, event.timestamp);
    }
  }

  lemma BumpExplained(stats: map<string, Stat>, log: seq<LogEntry>, name: string, fired: string, at: int)
    requires name in stats && Explained(stats[name], log, name)
    ensures Explained(Bumped(stats, fired, at)[name], log + [Fired(fired, at)], name)
  {
    var p :| 0 <= p < |log| && EnteredAt(log, p, name) && Tells(stats[name], log, p, name);
    BumpTells(stats, log, p, name, fired, at);
    assert p < |log + [Fired(fired, at)]|;
  }

  lemma BumpTells(stats: map<string, Stat>, log: seq<LogEntry>, p: nat, name: string, fired: string, at: int)
    requires name in stats && p < |log| && EnteredAt(log, p, name) && Tells(stats[name], log, p, name)
    ensures EnteredAt(log + [Fired(fired, at)], p, name)
    ensures Tells(Bumped(stats, fired, at)[name], log + [Fired(fired, at)], p, name)
  {
    EnteredStays(log, p, name, Fired(fired, at));
    FiringsSnoc(log, p, name, Fired(fired, at));
  }

  /** A name that stays keeps its entry and its statistics; one that enters does so with this reload. */
  lemma StaysTells(stat: Stat, log: seq<LogEntry>, p: nat, name: string, names: set<string>)
    requires EnteredAt(log, p, name) && Tells(stat, log, p, name) && name in names
    ensures EnteredAt(log + [Loaded(names)], p, name) && Tells(stat, log + [Loaded(names)], p, name)
  {
    EnteredStays(log, p, name, Loaded(names));
    FiringsSnoc(log, p, name, Loaded(names));
  }

  lemma EntersTells(log: seq<LogEntry>, name: string, names: set<string>)
    requires !PresentAfter(log, |log|, name) && name in names
    ensures EnteredAt(log + [Loaded(names)], |log|, name)
    ensures Tells(Stat(0, None), log + [Loaded(names)], |log|, name)
  {
    PresentPrefix(log, [Loaded(names)], |log|, name);
    FiringsSnoc(log, |log|, name, Loaded(names));
    assert log[|log|..] == [];
  }

  lemma ReloadExplained(stats: map<string, Stat>, log: seq<LogEntry>, name: string, names: set<string>)
    requires name in names
    requires if name in stats then Explained(stats[name], log, name) else !PresentAfter(log, |log|, name)
    ensures Explained(Reloaded(stats, names)[name], log + [Loaded(names)], name)
  {
    if name in stats {
      var p :| 0 <= p < |log| && EnteredAt(log, p, name) && Tells(stats[name], log, p, name);
      StaysTells(stats[name], log, p, name, names);
      assert p < |log + [Loaded(names)]|;
    } else {
      EntersTells(log, name, names);
      assert |log| < |log + [Loaded(names)]|;
    }
  }

  lemma ReloadRight(s: State, e: Step)
    requires StatsRight(s) && e.Reload? && Enabled(s, e) && AllCompile(e.rules, e.regexOk, e.lower)
    ensures StatsRight(Apply(s, e))
  {
    var names := Names(e.rules);
    forall name | name in names ensures Explained(Reloaded(s.stats, names)[name], s.log + [Loaded(names)], name) {
      ReloadExplained(s.stats, s.log, name, names);
    }
  }

  lemma StartRight(rules: seq<Rule>, goroutines: nat)
    ensures StatsRight(Start(rules, goroutines))
  {
    var s := Start(rules, goroutines);
    forall name | name in s.stats ensures Explained(s.stats[name], s.log, name) {
      assert [] + [Loaded(Names(rules))] == [Loaded(Names(rules))];
      EntersTells([], name, Names(rules));
      assert EnteredAt(s.log, 0, name) && Tells(s.stats[name], s.log, 0, name);
    }
  }

  ghost predicate Bookkept(s: State) {
    StatsRight(s) && s.recent == LastN(s.recorded, 100)
  }

  lemma StepBookkept(s: State, e: Step)
    requires Bookkept(s) && Enabled(s, e)
    ensures Bookkept(Apply(s, e))
  {
    if e.CountFiring? {
      CountRight(s, e);
    } else if e.Reload? && AllCompile(e.rules, e.regexOk, e.lower) {
      ReloadRight(s, e);
    } else if e.Record? {
      PushedIsLast(s.recent, s.recorded, s.threads[e.t].event);
    }
  }

  lemma PushedIsLast(recent: seq<AlertEvent>, recorded: seq<AlertEvent>, event: AlertEvent)
    requires recent == LastN(recorded, 100)
    ensures Pushed(recent, event) == LastN(recorded + [event], 100)
  {
  }

  lemma {:induction false} RunBookkept(s: State, run: seq<Step>)
    requires Bookkept(s) && Run(s, run)
    ensures Bookkept(After(s, run))
    decreases |run|
  {
    if run != [] {
      StepBookkept(s, run[0]);
      RunBookkept(Apply(s, run[0]), run[1..]);
    }
  }

  /** In every interleaving: the recent list is the last hundred recorded events, the statistics
      cover exactly the current rule names, and each counts the firings since its name last entered. */
  lemma StatisticsAndRecent(rules: seq<Rule>, goroutines: nat, run: seq<Step>, name: string)
    requires Run(Start(rules, goroutines), run)
    ensures var s := After(Start(rules, goroutines), run);
            && s.recent == LastN(s.recorded, 100)
            && (name in s.stats <==> PresentAfter(s.log, |s.log|, name))
            && (name in s.stats ==>
                  exists p :: 0 <= p < |s.log| && EnteredAt(s.log, p, name)
                              && s.stats[name].fireCount == |Firings(s.log[p..], name)|
                              && s.stats[name].lastFired == LastOf(Firings(s.log[p..], name)))
  {
    StartRight(rules, goroutines);
    RunBookkept(Start(rules, goroutines), run);
    var s := After(Start(rules, goroutines), run);
    if name in s.stats {
      var p :| 0 <= p < |s.log| && EnteredAt(s.log, p, name) && Tells(s.stats[name], s.log, p, name);
    }
  }

  /** The entry point is unique, so the statistics have one possible value. */
  lemma EntryUnique(log: seq<LogEntry>, p: nat, q: nat, name: string)
    requires EnteredAt(log, p, name) && EnteredAt(log, q, name)
    ensures p == q
  {
    if p < q {
      StillPresent(log, p, q, name);
    } else if q < p {
      StillPresent(log, q, p, name);
    }
  }

  lemma {:induction false} StillPresent(log: seq<LogEntry>, p: nat, n: nat, name: string)
    requires EnteredAt(log, p, name) && p < n <= |log|
    ensures PresentAfter(log, n, name)
    decreases n
  {
    if p + 1 < n && log[n - 1].Fired? { StillPresent(log, p, n - 1, name); }
  }

  // ---------------------------------------------------------------- the cooldown

  /** The limiter reads the clock under its lock, so its readings never go back. */
  ghost predicate Timed(run: seq<Step>, now: int)
    decreases |run|
  {
    run != [] ==>
      if run[0].Allow? then now <= run[0].checkedAt <= run[0].recordedAt && Timed(run[1..], run[0].recordedAt)
      else Timed(run[1..], now)
  }

  /** Every rule of that name that fires has the same positive cooldown. */
  ghost predicate FixedCooldown(run: seq<Step>, name: string, cooldown: int) {
    cooldown > 0 && forall e :: e in run && e.Allow? && e.rule.name == name ==> e.rule.cooldown == cooldown
  }

  function GrantsOf(grants: seq<Grant>, name: string): seq<int> {
    if grants == [] then []
    else GrantsOf(grants[..|grants| - 1], name)
         + (if grants[|grants| - 1].name == name then [grants[|grants| - 1].at] else [])
  }

  lemma GrantsSnoc(grants: seq<Grant>, g: Grant, name: string)
    ensures GrantsOf(grants + [g], name) == GrantsOf(grants, name) + (if g.name == name then [g.at] else [])
  {
    assert (grants + [g])[..|grants + [g]| - 1] == grants;
  }

  /** Consecutive firings are at least the cooldown apart. */
  ghost predicate Spaced(times: seq<int>, cooldown: int) {
    forall i :: 0 < i < |times| ==> times[i] - times[i - 1] >= cooldown
  }

  ghost predicate Remembers(s: State, name: string) {
    var times := GrantsOf(s.grants, name);
    if times == [] then name !in s.lastFire
    else name in s.lastFire && s.lastFire[name] == times[|times| - 1]
  }

  lemma StepRemembers(s: State, e: Step, name: string)
    requires Remembers(s, name) && Enabled(s, e)
    ensures Remembers(Apply(s, e), name)
  {
    if e.Allow? && e.rule.cooldown > 0 && MayFire(s.lastFire, e.rule.name, e.rule.cooldown, e.checkedAt) {
      GrantRemembered(s, Apply(s, e), e.rule.name, e.recordedAt, name);
    } else {
      assert Apply(s, e).grants == s.grants && Apply(s, e).lastFire == s.lastFire;
    }
  }

  lemma GrantRemembered(s: State, s': State, granted: string, at: int, name: string)
    requires Remembers(s, name)
    requires s'.grants == s.grants + [Grant(granted, at)] && s'.lastFire == s.lastFire[granted := at]
    ensures Remembers(s', name)
  {
    GrantsSnoc(s.grants, Grant(granted, at), name);
    assert GrantsOf(s.grants, name) + [] == GrantsOf(s.grants, name);
  }

  lemma {:induction false} RunRemembers(s: State, run: seq<Step>, name: string)
    requires Remembers(s, name) && Run(s, run)
    ensures Remembers(After(s, run), name)
    decreases |run|
  {
    if run != [] {
      StepRemembers(s, run[0], name);
      RunRemembers(Apply(s, run[0]), run[1..], name);
    }
  }

  /** A rule fires whenever it may: after any run, the limiter lets it through if and only if it has no
      cooldown, was never let through before, or was last let through at least its cooldown ago; and
      then the time is recorded. */
  lemma GrantedUnlessCooling(rules: seq<Rule>, goroutines: nat, run: seq<Step>, t: nat, rule: Rule, event: AlertEvent,
                             checkedAt: int, recordedAt: int)
    requires Run(Start(rules, goroutines), run)
    requires Enabled(After(Start(rules, goroutines), run), Allow(t, rule, event, checkedAt, recordedAt))
    ensures var s := After(Start(rules, goroutines), run);
            var s', times := Apply(s, Allow(t, rule, event, checkedAt, recordedAt)), GrantsOf(s.grants, rule.name);
            && (s'.threads[t] == Allowed(rule.name, event)
                <==> rule.cooldown <= 0 || times == [] || checkedAt - times[|times| - 1] >= rule.cooldown)
            && (s'.threads[t] != Allowed(rule.name, event) ==> s' == s)
            && GrantsOf(s'.grants, rule.name)
               == times + (if rule.cooldown > 0 && s'.threads[t].Allowed? then [recordedAt] else [])
  {
    RunRemembers(Start(rules, goroutines), run, rule.name);
    var s := After(Start(rules, goroutines), run);
    GrantsSnoc(s.grants, Grant(rule.name, recordedAt), rule.name);
    assert GrantsOf(s.grants, rule.name) + [] == GrantsOf(s.grants, rule.name);
  }

  lemma SpacedSnoc(times: seq<int>, at: int, cooldown: int)
    requires Spaced(times, cooldown) && (times != [] ==> at - times[|times| - 1] >= cooldown)
    ensures Spaced(times + [at], cooldown)
  {
  }

  lemma AllowSpaced(s: State, e: Step, name: string, cooldown: int)
    requires e.Allow? && Enabled(s, e) && cooldown > 0
    requires e.checkedAt <= e.recordedAt && (e.rule.name == name ==> e.rule.cooldown == cooldown)
    requires Spaced(GrantsOf(s.grants, name), cooldown) && Remembers(s, name)
    ensures Spaced(GrantsOf(Apply(s, e).grants, name), cooldown) && Remembers(Apply(s, e), name)
  {
    var times, rule := GrantsOf(s.grants, name), e.rule;
    if rule.cooldown > 0 && MayFire(s.lastFire, rule.name, rule.cooldown, e.checkedAt) {
      GrantsSnoc(s.grants, Grant(rule.name, e.recordedAt), name);
      if rule.name == name {
        SpacedSnoc(times, e.recordedAt, cooldown);
      } else {
        assert times + [] == times;
      }
    } else {
      assert Apply(s, e).grants == s.grants && Apply(s, e).lastFire == s.lastFire;
    }
  }

  lemma StepSpaced(s: State, e: Step, name: string, cooldown: int)
    requires Enabled(s, e) && cooldown > 0
    requires e.Allow? ==> e.checkedAt <= e.recordedAt && (e.rule.name == name ==> e.rule.cooldown == cooldown)
    requires Spaced(GrantsOf(s.grants, name), cooldown) && Remembers(s, name)
    ensures Spaced(GrantsOf(Apply(s, e).grants, name), cooldown) && Remembers(Apply(s, e), name)
  {
    if e.Allow? {
      AllowSpaced(s, e, name, cooldown);
    } else {
      assert Apply(s, e).grants == s.grants && Apply(s, e).lastFire == s.lastFire;
    }
  }

  lemma {:induction false} RunSpaced(s: State, run: seq<Step>, now: int, name: string, cooldown: int)
    requires Run(s, run) && Timed(run, now) && FixedCooldown(run, name, cooldown)
    requires Spaced(GrantsOf(s.grants, name), cooldown) && Remembers(s, name)
    ensures Spaced(GrantsOf(After(s, run).grants, name), cooldown)
    decreases |run|
  {
    if run != [] {
      var e := run[0];
      assert e in run;
      StepSpaced(s, e, name, cooldown);
      RunSpaced(Apply(s, e), run[1..], if e.Allow? then e.recordedAt else now, name, cooldown);
    }
  }

  lemma {:induction false} SpacedApart(times: seq<int>, cooldown: int, i: nat, j: nat)
    requires Spaced(times, cooldown) && i <= j < |times|
    ensures times[j] - times[i] >= (j - i) * cooldown
    decreases j
  {
    if i < j {
      SpacedApart(times, cooldown, i, j - 1);
      assert (j - i) * cooldown == (j - 1 - i) * cooldown + cooldown;
    }
  }

  /** Across every run, reloads and other rules' firings included, two recorded firings of a rule
      with cooldown C > 0 that are k firings apart are at least k * C apart in time; so an interval
      of length L holds at most 1 + L / C of them. */
  lemma CooldownBound(rules: seq<Rule>, goroutines: nat, run: seq<Step>, now: int, name: string, cooldown: int,
                      i: nat, j: nat, length: int)
    requires Run(Start(rules, goroutines), run) && Timed(run, now) && FixedCooldown(run, name, cooldown)
    requires i <= j < |GrantsOf(After(Start(rules, goroutines), run).grants, name)|
    requires var times := GrantsOf(After(Start(rules, goroutines), run).grants, name);
             times[j] - times[i] <= length
    ensures var times := GrantsOf(After(Start(rules, goroutines), run).grants, name);
            times[j] - times[i] >= (j - i) * cooldown
    ensures j - i + 1 <= 1 + length / cooldown
  {
    RunSpaced(Start(rules, goroutines), run, now, name, cooldown);
    SpacedApart(GrantsOf(After(Start(rules, goroutines), run).grants, name), cooldown, i, j);
    DivideBound(j - i, cooldown, length);
  }

  lemma MulOrder(a: int, b: int, d: int)
    requires a <= b && d >= 0
    ensures a * d <= b * d
  {
    assert b * d - a * d == (b - a) * d;
  }

  lemma DivideBound(k: int, cooldown: int, length: int)
    requires cooldown > 0 && k * cooldown <= length
    ensures k <= length / cooldown
  {
    var q := length / cooldown;
    assert length < q * cooldown + cooldown == (q + 1) * cooldown;
    if q < k { MulOrder(q + 1, k, cooldown); }
  }

  // ---------------------------------------------------------------- the code

  /** compileRule: the kinds of rules there are, and what each needs. */
  method CompileRule(r: Rule, regexOk: string -> bool, lower: string -> string) returns (ok: bool)
    ensures ok == Compiles(r, regexOk, lower)
    ensures ok <==> || (r.kind == "pattern" && regexOk(r.pattern))
                    || (r.kind == "level" && lower(r.level) in LEVEL_ORDER)
                    || r.kind in ["error_rate", "health_change"]
  {
    LevelsInOrder();
    if r.kind == "pattern" {
      return regexOk(r.pattern);
    } else if r.kind == "level" {
      return lower(r.level) in LOG_LEVELS;
    } else if r.kind == "error_rate" {
      return true;
    } else if r.kind == "health_change" {
      return true;
    }
    return false;
  }

  class Engine {
    var rules: seq<Rule>
    var stats: map<string, Stat>
    var recent: seq<AlertEvent>
    var lastFire: map<string, int>
    ghost var log: seq<LogEntry>
    ghost var recorded: seq<AlertEvent>
    ghost var grants: seq<Grant>

    ghost function View(stage: Stage): State
      reads this
    {
      State(rules, stats, recent, lastFire, [stage], log, recorded, grants)
    }

    /** The limiter's Allow, with its two clock readings. */
    method Allow(ruleName: string, cooldown: int, checkedAt: int, recordedAt: int) returns (ok: bool)
      modifies this`lastFire, this`grants
      ensures ok <==> cooldown <= 0 || ruleName !in old(lastFire) || checkedAt - old(lastFire)[ruleName] >= cooldown
      ensures ok == MayFire(old(lastFire), ruleName, cooldown, checkedAt)
      ensures lastFire == if ok && cooldown > 0 then old(lastFire)[ruleName := recordedAt] else old(lastFire)
      ensures grants == if ok && cooldown > 0 then old(grants) + [Grant(ruleName, recordedAt)] else old(grants)
    {
      if cooldown <= 0 {
        return true;
      }
      if ruleName in lastFire && checkedAt - lastFire[ruleName] < cooldown {
        return false;
      }
      lastFire := lastFire[ruleName := recordedAt];
      grants := grants + [Grant(ruleName, recordedAt)];
      return true;
    }

    /** The second critical section of fireEvent. */
    method BumpStats(ruleName: string, at: int)
      modifies this`stats, this`log
      ensures stats == Bumped(old(stats), ruleName, at) && log == old(log) + [Fired(ruleName, at)]
    {
      if ruleName in stats {
        stats := stats[ruleName := Stat(stats[ruleName].fireCount + 1, Some(at))];
      }
      log := log + [Fired(ruleName, at)];
    }

    /** The third: the oldest of a hundred events makes room. */
    method Push(event: AlertEvent)
      modifies this`recent, this`recorded
      ensures recent == Pushed(old(recent), event) && recorded == old(recorded) + [event]
    {
      if |recent| >= MAX_RECENT_EVENTS {
        recent := recent[1..];
      }
      recent := recent + [event];
      recorded := recorded + [event];
    }

    /** fireEvent without interruption: the three steps of the machine, or the first alone when the
        limiter refuses. */
    method FireEvent(r: Rule, event: AlertEvent, checkedAt: int, recordedAt: int)
      modifies this
      ensures var s := old(View(Quiet)); var allow := Step.Allow(0, r, event, checkedAt, recordedAt);
              if MayFire(old(lastFire), r.name, r.cooldown, checkedAt) then
                Run(s, [allow, CountFiring(0), Record(0)]) && View(Quiet) == After(s, [allow, CountFiring(0), Record(0)])
              else View(Quiet) == Apply(s, allow)
      ensures var name, was := r.name, old(stats);
              var fires := r.cooldown <= 0 || name !in old(lastFire) || checkedAt - old(lastFire)[name] >= r.cooldown;
              && recent == (if !fires then old(recent)
                            else (if |old(recent)| >= 100 then old(recent)[1..] else old(recent)) + [event])
              && stats == (if !fires || name !in was then was
                           else was[name := Stat(was[name].fireCount + 1, Some(event.timestamp))])
              && lastFire == (if fires && r.cooldown > 0 then old(lastFire)[name := recordedAt] else old(lastFire))
              && rules == old(rules)
    {
      ghost var s := View(Quiet);
      ghost var allow := Step.Allow(0, r, event, checkedAt, recordedAt);
      var ok := Allow(r.name, r.cooldown, checkedAt, recordedAt);
      if !ok {
        return;
      }
      assert View(Allowed(r.name, event)) == Apply(s, allow);
      BumpStats(r.name, event.timestamp);
      assert View(Counted(event)) == Apply(Apply(s, allow), CountFiring(0));
      Push(event);
      ThreeSteps(s, allow, CountFiring(0), Record(0));
    }

    /** ReloadRules: a rule that does not compile leaves everything as it was. */
    method ReloadRules(newRules: seq<Rule>, regexOk: string -> bool, lower: string -> string) returns (ok: bool)
      modifies this
      ensures ok == AllCompile(newRules, regexOk, lower)
      ensures !ok ==> rules == old(rules) && stats == old(stats)
      ensures ok ==> rules == newRules && forall name :: name in stats <==> exists i :: 0 <= i < |newRules| && newRules[i].name == name
      ensures ok ==> forall name :: name in stats ==>
                       stats[name] == if name in old(stats) then old(stats)[name] else Stat(0, None)
      ensures View(Quiet) == Apply(old(View(Quiet)), Reload(newRules, regexOk, lower))
    {
      var newStats: map<string, Stat> := map[];
      for i := 0 to |newRules|
        invariant forall j :: 0 <= j < i ==> Compiles(newRules[j], regexOk, lower)
        invariant newStats.Keys == Names(newRules[..i])
        invariant forall name :: name in newStats ==> newStats[name] == Stat(0, None)
        invariant View(Quiet) == old(View(Quiet))
      {
        var compiles := CompileRule(newRules[i], regexOk, lower);
        if !compiles {
          return false;
        }
        assert newRules[..i + 1] == newRules[..i] + [newRules[i]];
        NamesSnoc(newRules[..i], newRules[i]);
        newStats := newStats[newRules[i].name := Stat(0, None)];
      }
      assert newRules[..|newRules|] == newRules;
      newStats := KeepOldStats(newStats);
      rules, stats := newRules, newStats;
      log := log + [Loaded(Names(newRules))];
      return true;
    }

    /** Copies the old statistics of the names that stay, in whatever order the map is walked. */
    method KeepOldStats(entering: map<string, Stat>) returns (kept: map<string, Stat>)
      requires forall name :: name in entering ==> entering[name] == Stat(0, None)
      ensures kept == Reloaded(stats, entering.Keys)
    {
      kept := entering;
      var todo := entering.Keys;
      while todo != {}
        invariant todo <= entering.Keys == kept.Keys
        invariant forall name :: name in todo ==> kept[name] == Stat(0, None)
        invariant forall name :: name in entering && name !in todo ==>
                    kept[name] == if name in stats then stats[name] else Stat(0, None)
        decreases todo
      {
        var name :| name in todo;
        if name in stats {
          kept := kept[name := stats[name]];
        }
        todo := todo - {name};
      }
    }

    /** RecentEvents: the last `limit` of the recent events, or all of them when the limit is not
        positive or too large. */
    method RecentEvents(limit: int) returns (result: seq<AlertEvent>)
      ensures result == if limit <= 0 then recent else LastN(recent, limit)
    {
      var n := limit;
      if n <= 0 || n > |recent| {
        n := |recent|;
      }
      var start := |recent| - n;
      result := [];
      for i := start to |recent|
        invariant result == recent[start..i]
      {
        result := result + [recent[i]];
      }
    }
  }

  lemma NamesSnoc(rules: seq<Rule>, r: Rule)
    ensures Names(rules + [r]) == Names(rules) + {r.name}
  {
    var longer := rules + [r];
    forall name | name in Names(rules) + {r.name} ensures name in Names(longer) {
      if name in Names(rules) {
        var i :| 0 <= i < |rules| && rules[i].name == name;
        assert longer[i].name == name;
      } else {
        assert longer[|rules|].name == name;
      }
    }
  }

  lemma ThreeSteps(s: State, a: Step, b: Step, d: Step)
    requires Enabled(s, a) && Enabled(Apply(s, a), b) && Enabled(Apply(Apply(s, a), b), d)
    ensures Run(s, [a, b, d]) && After(s, [a, b, d]) == Apply(Apply(Apply(s, a), b), d)
  {
    assert [a, b, d][1..] == [b, d] && [b, d][1..] == [d] && [d][1..] == [];
    assert Run(Apply(Apply(Apply(s, a), b), d), []);
    assert Run(Apply(Apply(s, a), b), [d]) && After(Apply(Apply(s, a), b), [d]) == Apply(Apply(Apply(s, a), b), d);
    assert Run(Apply(s, a), [b, d]);
  }
}
