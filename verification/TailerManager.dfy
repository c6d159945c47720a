// The tailer manager (cmd/tailer_manager.go): hot-reload converges to the new configuration.
module TailerManager {

  datatype SourceConfig = SourceConfig(
    name: string, kind: string, path: string, container: string, unit: string, priority: string,
    outputFormat: string, namespace: string, pod: string, labelSelector: string, kubeconfig: string,
    follow: bool, parser: string)

  type Sources = map<string, SourceConfig>

  /** Tailers are told apart by the order in which they were started. */
  type TailerId = nat

  /** What is tracked, and which tailers run: everything started and not stopped. `signalled` tells
      whether StopAll has gone through once, `closes` how often the Stopped channel was closed. */
  datatype State = State(
    tailers: map<string, TailerId>, sources: Sources, running: set<TailerId>, stopped: seq<TailerId>, next: TailerId,
    signalled: bool, closes: nat)

  predicate SourceChanged(a: SourceConfig, b: SourceConfig) {
    a.kind != b.kind || a.path != b.path || a.container != b.container || a.unit != b.unit
    || a.follow != b.follow || a.parser != b.parser || a.namespace != b.namespace || a.pod != b.pod
    || a.labelSelector != b.labelSelector || a.kubeconfig != b.kubeconfig || a.priority != b.priority
    || a.outputFormat != b.outputFormat
  }

  /** Comparing all but the name misses nothing between configurations of one name. */
  lemma UnchangedMeansEqual(a: SourceConfig, b: SourceConfig)
    requires a.name == b.name
    ensures !SourceChanged(a, b) <==> a == b
  {
  }

  /** The configuration by name; the last of several sources with one name wins. */
  function ByName(sources: seq<SourceConfig>): Sources {
    if sources == [] then map[]
    else ByName(sources[..|sources| - 1])[sources[|sources| - 1].name := sources[|sources| - 1]]
  }

  lemma {:induction false} ByNameIsLast(sources: seq<SourceConfig>, name: string)
    ensures name in ByName(sources) <==> exists i :: 0 <= i < |sources| && sources[i].name == name
    ensures name in ByName(sources) ==>
              exists i :: 0 <= i < |sources| && sources[i].name == name && ByName(sources)[name] == sources[i]
                          && forall j :: i < j < |sources| ==> sources[j].name != name
  {
    if sources != [] {
      var front, last := sources[..|sources| - 1], sources[|sources| - 1];
      ByNameIsLast(front, name);
      if last.name == name {
        assert sources[|sources| - 1].name == name && ByName(sources)[name] == sources[|sources| - 1];
      } else if name in ByName(front) {
        var i :| 0 <= i < |front| && front[i].name == name && ByName(front)[name] == front[i]
                 && forall j :: i < j < |front| ==> front[j].name != name;
        assert sources[i].name == name && ByName(sources)[name] == sources[i];
      } else {
        forall i | 0 <= i < |sources| ensures sources[i].name != name {
          if i < |front| { assert front[i].name != name; }
        }
      }
    }
  }

  /** Tracked is the same as running, and nothing is tracked twice. */
  ghost predicate Tracked(tailers: map<string, TailerId>, running: set<TailerId>, next: TailerId) {
    && (forall n :: n in tailers ==> tailers[n] in running)
    && (forall t :: t in running ==> t < next && exists n :: n in tailers && tailers[n] == t)
    && (forall n, m :: n in tailers && m in tailers && tailers[n] == tailers[m] ==> n == m)
  }

  /** Names and sources agree, tracked tailers are exactly the running ones, none tracked twice. */
  ghost predicate Consistent(s: State) {
    && s.tailers.Keys == s.sources.Keys
    && (forall n :: n in s.sources ==> s.sources[n].name == n)
    && Tracked(s.tailers, s.running, s.next)
    && (forall i :: 0 <= i < |s.stopped| ==> s.stopped[i] < s.next && s.stopped[i] !in s.running)
    && s.closes == if s.signalled then 1 else 0
  }

  // ---------------------------------------------------------------- what a reload does

  /** A name that goes on with the tailer it has. */
  predicate Kept(current: Sources, wanted: Sources, name: string) {
    name in current && name in wanted && !SourceChanged(current[name], wanted[name])
  }

  /** A name that needs a tailer to be created. */
  predicate Needed(current: Sources, wanted: Sources, name: string) {
    name in wanted && !Kept(current, wanted, name)
  }

  /** The outcome of a reload, whatever the order in which the maps are walked: `creates` tells
      for which sources a tailer can be created. */
  ghost predicate Reconciled(s: State, wanted: Sources, creates: SourceConfig -> bool, s': State) {
    && Consistent(s') && s'.signalled == s.signalled
    && s'.sources == (map n | n in wanted && (Kept(s.sources, wanted, n) || creates(wanted[n])) :: wanted[n])
    && (forall n :: n in s'.sources && Kept(s.sources, wanted, n) ==>
          n in s.tailers && s'.tailers[n] == s.tailers[n])
    && (forall n :: n in s'.sources && Needed(s.sources, wanted, n) ==> s'.tailers[n] >= s.next)
    && Stops(s, (set n | n in s.tailers && !Kept(s.sources, wanted, n)), s'.stopped)
  }

  /** Since s, exactly the tailers that s tracked under the given names were stopped, each once. */
  ghost predicate Stops(s: State, gone: set<string>, stopped: seq<TailerId>) {
    && |stopped| == |s.stopped| + |gone| && stopped[..|s.stopped|] == s.stopped
    && gone <= s.tailers.Keys
    && (forall n :: n in gone ==> s.tailers[n] in stopped[|s.stopped|..])
    && (forall t :: t in stopped[|s.stopped|..] ==> exists n :: n in gone && s.tailers[n] == t)
  }

  lemma StopsOneMore(s: State, gone: set<string>, stopped: seq<TailerId>, name: string)
    requires Stops(s, gone, stopped) && name in s.tailers && name !in gone
    ensures Stops(s, gone + {name}, stopped + [s.tailers[name]])
  {
    var longer := stopped + [s.tailers[name]];
    assert longer[|s.stopped|..] == stopped[|s.stopped|..] + [s.tailers[name]];
    forall t | t in longer[|s.stopped|..] ensures exists n :: n in gone + {name} && s.tailers[n] == t {
      if t in stopped[|s.stopped|..] {
        var n :| n in gone && s.tailers[n] == t;
        assert n in gone + {name};
      } else {
        assert name in gone + {name} && s.tailers[name] == t;
      }
    }
  }

  /** Reloading the same configuration again stops nothing, keeps every tailer, and only tries
      again what failed. */
  lemma SecondReloadOnlyRetries(
    s: State, wanted: Sources, creates: SourceConfig -> bool, s1: State, again: SourceConfig -> bool, s2: State)
    requires Consistent(s) && (forall n :: n in wanted ==> wanted[n].name == n)
    requires Reconciled(s, wanted, creates, s1) && Reconciled(s1, wanted, again, s2)
    ensures s2.stopped == s1.stopped
    ensures forall n :: n in s1.tailers ==> n in s2.tailers && s2.tailers[n] == s1.tailers[n]
    ensures forall n :: n in s2.sources <==> n in s1.sources || (n in wanted && again(wanted[n]))
  {
    AllKept(s, wanted, creates, s1);
    NothingStops(s1, wanted, s2.stopped);
  }

  lemma AllKept(s: State, wanted: Sources, creates: SourceConfig -> bool, s1: State)
    requires forall n :: n in wanted ==> wanted[n].name == n
    requires Reconciled(s, wanted, creates, s1)
    ensures s1.tailers.Keys == s1.sources.Keys && forall n :: n in s1.sources ==> Kept(s1.sources, wanted, n)
  {
    forall n | n in s1.sources ensures Kept(s1.sources, wanted, n) {
      UnchangedMeansEqual(s1.sources[n], wanted[n]);
    }
  }

  lemma NothingStops(s1: State, wanted: Sources, stopped: seq<TailerId>)
    requires forall n :: n in s1.tailers ==> Kept(s1.sources, wanted, n)
    requires Stops(s1, (set n | n in s1.tailers && !Kept(s1.sources, wanted, n)), stopped)
    ensures stopped == s1.stopped
  {
    assert (set n | n in s1.tailers && !Kept(s1.sources, wanted, n)) == {};
    assert stopped == stopped[..|s1.stopped|];
  }

  /** A reload in which everything can be created ends with exactly the wanted configuration. */
  lemma ReloadConverges(s: State, wanted: Sources, creates: SourceConfig -> bool, s': State)
    requires Reconciled(s, wanted, creates, s')
    requires forall n :: n in wanted && Needed(s.sources, wanted, n) ==> creates(wanted[n])
    ensures s'.sources == wanted && s'.tailers.Keys == wanted.Keys && |s'.running| == |wanted|
  {
    AllCreated(s, wanted, creates, s');
    RunningIsTracked(s'.tailers, s'.running);
    assert |s'.tailers| == |s'.tailers.Keys| == |wanted.Keys|;
  }

  lemma AllCreated(s: State, wanted: Sources, creates: SourceConfig -> bool, s': State)
    requires s'.sources == (map n | n in wanted && (Kept(s.sources, wanted, n) || creates(wanted[n])) :: wanted[n])
    requires forall n :: n in wanted && Needed(s.sources, wanted, n) ==> creates(wanted[n])
    ensures s'.sources == wanted
  {
    assert s'.sources.Keys == wanted.Keys;
  }

  lemma {:induction false} RunningIsTracked(tailers: map<string, TailerId>, running: set<TailerId>)
    requires forall n :: n in tailers ==> tailers[n] in running
    requires forall t :: t in running ==> exists n :: n in tailers && tailers[n] == t
    requires forall n, m :: n in tailers && m in tailers && tailers[n] == tailers[m] ==> n == m
    ensures |running| == |tailers|
    decreases running
  {
    if running == {} {
      if n :| n in tailers { assert false; }
      assert tailers == map[];
    } else {
      var t :| t in running;
      var n :| n in tailers && tailers[n] == t;
      forall u | u in running - {t} ensures exists m :: m in tailers - {n} && (tailers - {n})[m] == u {
        var m :| m in tailers && tailers[m] == u;
        assert m in tailers - {n} && (tailers - {n})[m] == u;
      }
      RunningIsTracked(tailers - {n}, running - {t});
      assert |tailers - {n}| == |tailers| - 1 by {
        assert (tailers - {n}).Keys == tailers.Keys - {n};
        assert |(tailers - {n}).Keys| == |tailers.Keys| - 1;
      }
    }
  }

  // ---------------------------------------------------------------- single operations

  /** Tracking a new tailer under the source's name. */
  function Added(s: State, src: SourceConfig): State {
    s.(tailers := s.tailers[src.name := s.next], sources := s.sources[src.name := src],
       running := s.running + {s.next}, next := s.next + 1)
  }

  function Removed(s: State, name: string): State
    requires name in s.tailers
  {
    s.(tailers := s.tailers - {name}, sources := s.sources - {name},
       running := s.running - {s.tailers[name]}, stopped := s.stopped + [s.tailers[name]])
  }

  /** What a reload does about one wanted source: nothing when it is unchanged, otherwise a restart,
      or a start, which may fail. */
  function OneReconciled(s: State, src: SourceConfig, created: bool): State {
    if src.name in s.sources && src.name in s.tailers then
      if !SourceChanged(s.sources[src.name], src) then s
      else if created then Added(Removed(s, src.name), src)
      else Removed(s, src.name)
    else if created then Added(s, src) else s
  }

  lemma AddTracked(tailers: map<string, TailerId>, running: set<TailerId>, next: TailerId, name: string)
    requires Tracked(tailers, running, next) && name !in tailers
    ensures Tracked(tailers[name := next], running + {next}, next + 1)
  {
    var tailers' := tailers[name := next];
    forall t | t in running + {next} ensures exists n :: n in tailers' && tailers'[n] == t {
      if t in running {
        var n :| n in tailers && tailers[n] == t;
        assert tailers'[n] == t;
      } else {
        assert tailers'[name] == t;
      }
    }
    forall n | n in tailers ensures tailers'[n] < next {
    }
  }

  lemma AddConsistent(s: State, src: SourceConfig)
    requires Consistent(s) && src.name !in s.tailers
    ensures Consistent(Added(s, src))
  {
    AddTracked(s.tailers, s.running, s.next, src.name);
  }

  lemma RemoveConsistent(s: State, name: string)
    requires Consistent(s) && name in s.tailers
    ensures Consistent(Removed(s, name))
  {
    var s' := Removed(s, name);
    forall t | t in s'.running ensures t < s'.next && exists n :: n in s'.tailers && s'.tailers[n] == t {
      var n :| n in s.tailers && s.tailers[n] == t;
      assert s'.tailers[n] == t;
    }
  }

  lemma OneConsistent(s: State, src: SourceConfig, created: bool)
    requires Consistent(s)
    ensures Consistent(OneReconciled(s, src, created))
  {
    if src.name in s.tailers {
      RemoveConsistent(s, src.name);
      if created { AddConsistent(Removed(s, src.name), src); }
    } else if created {
      AddConsistent(s, src);
    }
  }

  // ---------------------------------------------------------------- the first pass

  /** Some names, those in `todo`, have still to be looked at by the removal pass over s0. */
  ghost predicate Pruning(s0: State, wanted: Sources, todo: set<string>, gone: set<string>, s: State) {
    && s.sources == (map n | n in s0.sources && (n in todo || n in wanted) :: s0.sources[n])
    && s.tailers == (map n | n in s0.tailers && (n in todo || n in wanted) :: s0.tailers[n])
    && s.next == s0.next && s.signalled == s0.signalled
    && gone == s0.tailers.Keys - wanted.Keys - todo
  }

  lemma PruningStep(s0: State, wanted: Sources, todo: set<string>, gone: set<string>, s: State, name: string)
    requires s0.tailers.Keys == s0.sources.Keys && todo <= s0.sources.Keys
    requires Pruning(s0, wanted, todo, gone, s) && name in todo
    ensures name in wanted ==> Pruning(s0, wanted, todo - {name}, gone, s)
    ensures name !in wanted ==>
              && name in s.tailers && s.tailers[name] == s0.tailers[name] && name !in gone
              && Pruning(s0, wanted, todo - {name}, gone + {name}, Removed(s, name))
  {
    if name !in wanted {
      var s' := Removed(s, name);
      assert s'.sources == (map n | n in s0.sources && (n in todo - {name} || n in wanted) :: s0.sources[n]);
      assert s'.tailers == (map n | n in s0.tailers && (n in todo - {name} || n in wanted) :: s0.tailers[n]);
    }
  }

  // ---------------------------------------------------------------- the second pass

  /** Some wanted names, those in `todo`, have still to be reconciled. */
  ghost predicate Reconciling(s0: State, wanted: Sources, creates: SourceConfig -> bool,
                              todo: set<string>, gone: set<string>, s: State)
  {
    && (forall n :: n in s.sources <==>
          n in wanted && if n in todo then n in s0.sources else Kept(s0.sources, wanted, n) || creates(wanted[n]))
    && (forall n :: n in s.sources ==> s.sources[n] == if n in todo then s0.sources[n] else wanted[n])
    && gone == (set n | n in s0.tailers && n !in todo && !Kept(s0.sources, wanted, n))
  }

  /** The same about the tailers: kept names have the tailer they had, restarted ones a new one. */
  ghost predicate Restarting(s0: State, wanted: Sources, todo: set<string>, s: State) {
    && s.next >= s0.next && s.signalled == s0.signalled
    && (forall n :: n in s.tailers && (n in todo || Kept(s0.sources, wanted, n)) ==>
          n in s0.tailers && s.tailers[n] == s0.tailers[n])
    && (forall n :: n in s.tailers && n !in todo && !Kept(s0.sources, wanted, n) ==> s.tailers[n] >= s0.next)
  }

  /** What one wanted source changes in the tracked sources. */
  function SourcesAfter(sources: Sources, src: SourceConfig, created: bool): Sources {
    if src.name in sources && !SourceChanged(sources[src.name], src) then sources
    else if created then sources[src.name := src]
    else sources - {src.name}
  }

  lemma OneSources(s: State, src: SourceConfig, created: bool)
    requires s.tailers.Keys == s.sources.Keys
    ensures OneReconciled(s, src, created).sources == SourcesAfter(s.sources, src, created)
  {
  }

  lemma ReconcilingStep(s0: State, wanted: Sources, creates: SourceConfig -> bool,
                        todo: set<string>, gone: set<string>, s: State, name: string)
    requires s0.tailers.Keys == s0.sources.Keys && s.tailers.Keys == s.sources.Keys
    requires name in todo && todo <= wanted.Keys && wanted[name].name == name
    requires name in s0.sources ==> s0.sources[name].name == name
    requires Reconciling(s0, wanted, creates, todo, gone, s)
    ensures var s' := OneReconciled(s, wanted[name], creates(wanted[name]));
            var gone' := if name in s0.sources && !Kept(s0.sources, wanted, name) then gone + {name} else gone;
            Reconciling(s0, wanted, creates, todo - {name}, gone', s')
  {
    OneSources(s, wanted[name], creates(wanted[name]));
    GoneStep(s0, wanted, todo, gone, name);
    forall n
      ensures var after := SourcesAfter(s.sources, wanted[name], creates(wanted[name]));
              n in after <==> n in wanted && if n in todo - {name} then n in s0.sources
                                             else Kept(s0.sources, wanted, n) || creates(wanted[n])
    {
      if n == name && name in s0.sources { UnchangedMeansEqual(s0.sources[name], wanted[name]); }
    }
    if name in s0.sources { UnchangedMeansEqual(s0.sources[name], wanted[name]); }
  }

  lemma GoneStep(s0: State, wanted: Sources, todo: set<string>, gone: set<string>, name: string)
    requires s0.tailers.Keys == s0.sources.Keys && name in todo
    requires gone == (set n | n in s0.tailers && n !in todo && !Kept(s0.sources, wanted, n))
    ensures var gone' := if name in s0.sources && !Kept(s0.sources, wanted, name) then gone + {name} else gone;
            gone' == (set n | n in s0.tailers && n !in todo - {name} && !Kept(s0.sources, wanted, n))
  {
  }

  lemma RestartingStep(s0: State, wanted: Sources, creates: SourceConfig -> bool,
                       todo: set<string>, gone: set<string>, s: State, name: string)
    requires s0.tailers.Keys == s0.sources.Keys && s.tailers.Keys == s.sources.Keys
    requires name in todo && todo <= wanted.Keys && wanted[name].name == name
    requires Reconciling(s0, wanted, creates, todo, gone, s) && Restarting(s0, wanted, todo, s)
    ensures Restarting(s0, wanted, todo - {name}, OneReconciled(s, wanted[name], creates(wanted[name])))
  {
    var s' := OneReconciled(s, wanted[name], creates(wanted[name]));
    forall n | n != name
      ensures n in s'.tailers <==> n in s.tailers
      ensures n in s'.tailers ==> s'.tailers[n] == s.tailers[n]
    {
    }
  }

  lemma OneStops(s0: State, wanted: Sources, creates: SourceConfig -> bool,
                 todo: set<string>, gone: set<string>, s: State, name: string)
    requires s0.tailers.Keys == s0.sources.Keys && s.tailers.Keys == s.sources.Keys
    requires name in todo && todo <= wanted.Keys && wanted[name].name == name
    requires Reconciling(s0, wanted, creates, todo, gone, s) && Restarting(s0, wanted, todo, s)
    requires Stops(s0, gone, s.stopped)
    ensures var s' := OneReconciled(s, wanted[name], creates(wanted[name]));
            var gone' := if name in s0.sources && !Kept(s0.sources, wanted, name) then gone + {name} else gone;
            Stops(s0, gone', s'.stopped)
  {
    if name in s0.sources && !Kept(s0.sources, wanted, name) {
      assert name in s.sources && name !in gone;
      StopsOneMore(s0, gone, s.stopped, name);
    }
  }

  lemma ReconcileDone(s0: State, wanted: Sources, creates: SourceConfig -> bool, gone: set<string>, s: State)
    requires Consistent(s) && Reconciling(s0, wanted, creates, {}, gone, s) && Restarting(s0, wanted, {}, s)
    requires Stops(s0, gone, s.stopped)
    ensures Reconciled(s0, wanted, creates, s)
  {
    SourcesDone(s0, wanted, creates, gone, s);
  }

  lemma SourcesDone(s0: State, wanted: Sources, creates: SourceConfig -> bool, gone: set<string>, s: State)
    requires Reconciling(s0, wanted, creates, {}, gone, s)
    ensures s.sources == (map n | n in wanted && (Kept(s0.sources, wanted, n) || creates(wanted[n])) :: wanted[n])
    ensures gone == (set n | n in s0.tailers && !Kept(s0.sources, wanted, n))
  {
  }

  lemma PruningDone(s0: State, wanted: Sources, creates: SourceConfig -> bool, gone: set<string>, s: State)
    requires s0.tailers.Keys == s0.sources.Keys && Pruning(s0, wanted, {}, gone, s)
    ensures Reconciling(s0, wanted, creates, wanted.Keys, gone, s) && Restarting(s0, wanted, wanted.Keys, s)
  {
    assert gone == (set n | n in s0.tailers && n !in wanted.Keys && !Kept(s0.sources, wanted, n));
  }

  lemma {:induction false} NamesMatch(sources: seq<SourceConfig>)
    ensures forall n :: n in ByName(sources) ==> ByName(sources)[n].name == n
  {
    if sources != [] { NamesMatch(sources[..|sources| - 1]); }
  }

  // ---------------------------------------------------------------- the code

  class Manager {
    var tailers: map<string, TailerId>
    var sources: Sources
    var next: TailerId
    ghost var running: set<TailerId>
    ghost var stopped: seq<TailerId>
    var signalled: bool
    ghost var closes: nat

    ghost function View(): State
      reads this
    {
      State(tailers, sources, running, stopped, next, signalled, closes)
    }

    constructor ()
      ensures Consistent(View()) && sources == map[] && running == {} && !signalled
    {
      tailers, sources, signalled, closes := map[], map[], false, 0;
      running, stopped, next := {}, [], 0;
    }

    /** Add: on success the new tailer is tracked under the source's name and runs. */
    method Add(src: SourceConfig, created: bool) returns (ok: bool)
      modifies this
      ensures ok == created
      ensures View() == if created then Added(old(View()), src) else old(View())
    {
      if !created {
        return false;
      }
      tailers := tailers[src.name := next];
      sources := sources[src.name := src];
      running := running + {next};
      next := next + 1;
      return true;
    }

    /** Remove: a tracked tailer is forgotten, then stopped. */
    method Remove(name: string)
      modifies this
      ensures View() == if name in old(tailers) then Removed(old(View()), name) else old(View())
    {
      if name in tailers {
        running, stopped := running - {tailers[name]}, stopped + [tailers[name]];
        tailers := tailers - {name};
        sources := sources - {name};
      }
    }

    /** The first pass: tailers whose source is no longer wanted are stopped. */
    method RemoveUnwanted(wanted: Sources) returns (ghost gone: set<string>)
      requires Consistent(View())
      modifies this
      ensures Consistent(View()) && Pruning(old(View()), wanted, {}, gone, View())
      ensures Stops(old(View()), gone, stopped)
    {
      ghost var s0 := View();
      gone := {};
      var todo := sources.Keys;
      PruningStart(s0, wanted);
      StopsNone(s0);
      while todo != {}
        invariant todo <= s0.sources.Keys && Consistent(View())
        invariant Pruning(s0, wanted, todo, gone, View()) && Stops(s0, gone, stopped)
        decreases todo
      {
        var name :| name in todo;
        ghost var s := View();
        PruningStep(s0, wanted, todo, gone, s, name);
        todo := todo - {name};
        if name !in wanted {
          RemoveConsistent(s, name);
          StopsOneMore(s0, gone, s.stopped, name);
          Remove(name);
          gone := gone + {name};
        }
      }
    }

    /** One wanted source: skipped when unchanged, otherwise stopped if it ran, and started. */
    method ReconcileOne(src: SourceConfig, known: bool, changed: bool, created: bool)
      requires tailers.Keys == sources.Keys && (known <==> src.name in sources)
      requires known ==> (changed <==> SourceChanged(sources[src.name], src))
      modifies this
      ensures View() == OneReconciled(old(View()), src, created)
    {
      if !known {
        var _ := Add(src, created);
        return;
      }
      if changed {
        Remove(src.name);
        var _ := Add(src, created);
      }
    }

    /** Reconcile, walking both maps in any order. */
    method Reconcile(newSources: seq<SourceConfig>, creates: SourceConfig -> bool)
      requires Consistent(View())
      modifies this
      ensures Reconciled(old(View()), ByName(newSources), creates, View())
    {
      ghost var s0 := View();
      var wanted := ByName(newSources);
      NamesMatch(newSources);
      var current := sources;
      ghost var gone := RemoveUnwanted(wanted);
      PruningDone(s0, wanted, creates, gone, View());
      var todo := wanted.Keys;
      while todo != {}
        invariant todo <= wanted.Keys && Consistent(View())
        invariant Reconciling(s0, wanted, creates, todo, gone, View()) && Restarting(s0, wanted, todo, View())
        invariant Stops(s0, gone, stopped)
        decreases todo
      {
        var name :| name in todo;
        ghost var s := View();
        OneConsistent(s, wanted[name], creates(wanted[name]));
        ReconcilingStep(s0, wanted, creates, todo, gone, s, name);
        RestartingStep(s0, wanted, creates, todo, gone, s, name);
        OneStops(s0, wanted, creates, todo, gone, s, name);
        var known := name in current;
        ReconcileOne(wanted[name], known, known && SourceChanged(current[name], wanted[name]), creates(wanted[name]));
        if known && !Kept(s0.sources, wanted, name) { gone := gone + {name}; }
        todo := todo - {name};
      }
      ReconcileDone(s0, wanted, creates, gone, View());
    }

    /** The loop of StopAll over the copied map, in any order. */
    method StopEach(copies: map<string, TailerId>, ghost s0: State)
      requires s0.tailers == copies && stopped == s0.stopped
      modifies this`stopped
      ensures Stops(s0, copies.Keys, stopped)
    {
      var todo := copies.Keys;
      ghost var gone: set<string> := {};
      StopsNone(s0);
      assert copies.Keys - todo == {};
      while todo != {}
        invariant todo <= copies.Keys && gone == copies.Keys - todo && Stops(s0, gone, stopped)
        decreases todo
      {
        var name :| name in todo;
        StopsOneMore(s0, gone, stopped, name);
        stopped := stopped + [copies[name]];
        gone := gone + {name};
        todo := todo - {name};
      }
      assert gone == copies.Keys;
    }

    /** The signal, sent by the first call alone. */
    method SignalOnce()
      requires closes == if signalled then 1 else 0
      modifies this`signalled, this`closes
      ensures signalled && closes == 1
    {
      if !signalled {
        signalled, closes := true, closes + 1;
      }
    }

    /** StopAll: everything is forgotten first, then every tailer that was tracked is stopped; the
        Stopped channel is closed by then, and only once over any number of calls. */
    method StopAll()
      requires Consistent(View())
      modifies this
      ensures signalled && closes == 1
      ensures Consistent(View()) && tailers == map[] && sources == map[] && running == {}
      ensures Stops(old(View()), old(tailers).Keys, stopped)
    {
      ghost var s0 := View();
      var copies := tailers;
      tailers, sources := map[], map[];
      StopEach(copies, s0);
      running := running - copies.Values;
      SignalOnce();
      AllStopped(s0, View());
    }
  }

  lemma AllStopped(s0: State, s: State)
    requires Consistent(s0) && s.tailers == map[] && s.sources == map[] && s.next == s0.next
    requires s.running == s0.running - s0.tailers.Values && s.signalled && s.closes == 1
    requires Stops(s0, s0.tailers.Keys, s.stopped)
    ensures s.running == {} && Consistent(s)
  {
    forall t | t in s0.running ensures t !in s.running {
      var n :| n in s0.tailers && s0.tailers[n] == t;
    }
    forall i | 0 <= i < |s.stopped| ensures s.stopped[i] < s.next {
      if i < |s0.stopped| {
        assert s.stopped[..|s0.stopped|][i] == s0.stopped[i];
      } else {
        var t := s.stopped[|s0.stopped|..][i - |s0.stopped|];
        assert t == s.stopped[i] && t in s.stopped[|s0.stopped|..];
        var n :| n in s0.tailers.Keys && s0.tailers[n] == t;
      }
    }
  }

  lemma PruningStart(s0: State, wanted: Sources)
    requires s0.tailers.Keys == s0.sources.Keys
    ensures Pruning(s0, wanted, s0.sources.Keys, {}, s0)
  {
    assert s0.sources == (map n | n in s0.sources && (n in s0.sources.Keys || n in wanted) :: s0.sources[n]);
    assert s0.tailers == (map n | n in s0.tailers && (n in s0.sources.Keys || n in wanted) :: s0.tailers[n]);
  }

  lemma StopsNone(s: State)
    ensures Stops(s, {}, s.stopped)
  {
    assert s.stopped == s.stopped + [];
  }
}
