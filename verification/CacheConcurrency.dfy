/** The reference cache under concurrent use. Each region between taking and releasing the lock is
    one atomic step; Add and Remove release the read lock before they take the write lock, so other
    calls may run in the gap. Every interleaving behaves like the calls executed one after the
    other on a plain map from ManifestWork to configs. */
module CacheConcurrency {
  import opened ReferenceCache

  datatype Op =
    | Add(ns: string, name: string, configs: set<string>)
    | Remove(ns: string, name: string)
    | GetNamespaces(config: string)

  // ---------------------------------------------------------------- the sequential specification

  type Works = map<(string, string), set<string>>

  ghost function Effect(w: Works, op: Op): Works {
    match op
    case Add(ns, name, configs) => w[(ns, name) := configs]
    case Remove(ns, name) => w - {(ns, name)}
    case GetNamespaces(_) => w
  }

  /** The namespaces having a work that references the config. */
  ghost function Users(w: Works, config: string): set<string> {
    set work | work in w && config in w[work] :: work.0
  }

  ghost function Answer(w: Works, op: Op): set<string> {
    if op.GetNamespaces? then Users(w, op.config) else {}
  }

  // ---------------------------------------------------------------- the concurrent system

  /** Starting: the call has not taken a lock yet. Upgrading: its read-locked check found work to
      do and the read lock is released. Finished: the call has returned. */
  datatype Phase = Starting | Upgrading | Finished(result: set<string>)

  datatype Call = Call(op: Op, phase: Phase)

  /** The log remembers, in order, the steps at which calls took effect. */
  datatype Entry = Entry(call: nat, op: Op, result: set<string>)

  datatype System = System(cache: CacheState, calls: seq<Call>, log: seq<Entry>)

  ghost predicate Init(s: System) {
    s == System(EMPTY, [], [])
  }

  ghost predicate Invoke(s: System, s': System, op: Op) {
    s' == s.(calls := s.calls + [Call(op, Starting)])
  }

  /** The call takes effect and returns. */
  ghost function Finish(s: System, id: nat, cache: CacheState, result: set<string>): System
    requires id < |s.calls|
  {
    System(cache, s.calls[id := s.calls[id].(phase := Finished(result))], s.log + [Entry(id, s.calls[id].op, result)])
  }

  ghost function Upgrade(s: System, id: nat): System
    requires id < |s.calls|
  {
    s.(calls := s.calls[id := s.calls[id].(phase := Upgrading)])
  }

  /** The read-locked region. */
  ghost function ReadRegion(s: System, id: nat): System
    requires id < |s.calls|
  {
    match s.calls[id].op
    case Add(ns, name, configs) =>
      var key := MWKey(ns, name);
      if key in s.cache.mwKeyToConfigs && s.cache.mwKeyToConfigs[key] == configs then Finish(s, id, s.cache, {})
      else Upgrade(s, id)
    case Remove(ns, name) =>
      if MWKey(ns, name) !in s.cache.mwKeyToConfigs then Finish(s, id, s.cache, {}) else Upgrade(s, id)
    case GetNamespaces(config) =>
      Finish(s, id, s.cache, NamespacesIn(s.cache.configToMWNs, config))
  }

  /** The write-locked region; it checks again before it changes anything. */
  ghost function WriteRegion(s: System, id: nat): System
    requires id < |s.calls|
  {
    match s.calls[id].op
    case Add(ns, name, configs) => Finish(s, id, AddResult(s.cache, ns, name, configs), {})
    case Remove(ns, name) => Finish(s, id, RemoveResult(s.cache, ns, name), {})
    case GetNamespaces(_) => s
  }

  ghost predicate Advance(s: System, s': System, id: int) {
    && 0 <= id < |s.calls|
    && match s.calls[id].phase
       case Starting => s' == ReadRegion(s, id)
       case Upgrading => s' == WriteRegion(s, id)
       case Finished(_) => s' == s
  }

  ghost predicate Next(s: System, s': System) {
    || (exists op :: Invoke(s, s', op))
    || (exists id :: Advance(s, s', id))
  }

  /** A run: any interleaving of calls. */
  ghost predicate IsRun(run: seq<System>) {
    && run != [] && Init(run[0])
    && forall i :: 0 <= i < |run| - 1 ==> Next(run[i], run[i + 1])
  }

  /** What callers promise: namespaces hold no `/`. */
  ghost predicate WellNamed(op: Op) {
    !op.GetNamespaces? ==> '/' !in op.ns
  }

  ghost predicate CallersWellNamed(calls: seq<Call>) {
    forall i :: 0 <= i < |calls| ==> WellNamed(calls[i].op)
  }

  // ---------------------------------------------------------------- the abstract state of a log

  ghost function Replay(log: seq<Entry>): Works {
    if log == [] then map[] else Effect(Replay(log[..|log| - 1]), log[|log| - 1].op)
  }

  /** Every entry has the answer of the sequential specification at its place in the log. */
  ghost predicate Legal(log: seq<Entry>) {
    forall i :: 0 <= i < |log| ==> log[i].result == Answer(Replay(log[..i]), log[i].op)
  }

  function NewConfigs(op: Op): set<string> {
    if op.Add? then op.configs else {}
  }

  /** The call makes its work give up a config that another work of the namespace references at
      that moment. */
  ghost predicate Lossy(w: Works, op: Op) {
    !op.GetNamespaces? && (op.ns, op.name) in w
    && exists other, config :: other in w && other.0 == op.ns && other != (op.ns, op.name)
         && config in w[other] && config in w[(op.ns, op.name)] && config !in NewConfigs(op)
  }

  /** No call of the log does that when it takes effect. */
  ghost predicate Lossless(log: seq<Entry>) {
    forall k :: 0 <= k < |log| ==> !Lossy(Replay(log[..k]), log[k].op)
  }

  /** No two works of one namespace reference the same config. */
  ghost predicate ShareFree(w: Works) {
    forall a, b :: a in w && b in w && a.0 == b.0 && a != b ==> w[a] !! w[b]
  }

  ghost predicate Represents(st: CacheState, w: Works) {
    && (forall work :: work in w ==>
          '/' !in work.0 && MWKey(work.0, work.1) in st.mwKeyToConfigs && st.mwKeyToConfigs[MWKey(work.0, work.1)] == w[work])
    && (forall key :: key in st.mwKeyToConfigs ==> exists work :: work in w && MWKey(work.0, work.1) == key)
  }

  /** Each work of the log's state was entered by a call. */
  ghost predicate EnteredByCalls(w: Works, calls: seq<Call>) {
    forall work :: work in w ==> exists i :: 0 <= i < |calls| && calls[i].op == Add(work.0, work.1, w[work])
  }

  ghost predicate LogMatchesCalls(s: System) {
    && (forall i :: 0 <= i < |s.log| ==>
          && s.log[i].call < |s.calls|
          && s.calls[s.log[i].call] == Call(s.log[i].op, Finished(s.log[i].result)))
    && (forall i, j :: 0 <= i < j < |s.log| ==> s.log[i].call != s.log[j].call)
    && (forall id :: 0 <= id < |s.calls| && s.calls[id].phase.Finished? ==> exists i :: 0 <= i < |s.log| && s.log[i].call == id)
  }

  ghost predicate Invariant(s: System) {
    && LogMatchesCalls(s)
    && Represents(s.cache, Replay(s.log))
    && EnteredByCalls(Replay(s.log), s.calls)
    && Sound(s.cache)
    && (forall id :: 0 <= id < |s.calls| ==> s.calls[id].phase.Upgrading? ==> !s.calls[id].op.GetNamespaces?)
  }

  // ---------------------------------------------------------------- the invariant is kept

  lemma ReplaySnoc(log: seq<Entry>, e: Entry)
    ensures Replay(log + [e]) == Effect(Replay(log), e.op)
  {
    assert (log + [e])[..|log|] == log;
  }

  lemma AddRepresents(st: CacheState, w: Works, ns: string, name: string, configs: set<string>)
    requires Represents(st, w) && '/' !in ns
    ensures Represents(AddResult(st, ns, name, configs), w[(ns, name) := configs])
  {
    var st' := AddResult(st, ns, name, configs);
    var w' := w[(ns, name) := configs];
    forall work | work in w'
      ensures '/' !in work.0 && MWKey(work.0, work.1) in st'.mwKeyToConfigs
      ensures st'.mwKeyToConfigs[MWKey(work.0, work.1)] == w'[work]
    {
      if MWKey(work.0, work.1) == MWKey(ns, name) && work != (ns, name) {
        MWKeyInjective(work.0, work.1, ns, name);
      }
    }
    forall key | key in st'.mwKeyToConfigs ensures exists work :: work in w' && MWKey(work.0, work.1) == key {
      if key == MWKey(ns, name) {
        assert (ns, name) in w';
      } else {
        var work :| work in w && MWKey(work.0, work.1) == key;
        assert work in w';
      }
    }
  }

  lemma RemoveRepresents(st: CacheState, w: Works, ns: string, name: string)
    requires Represents(st, w) && '/' !in ns
    ensures Represents(RemoveResult(st, ns, name), w - {(ns, name)})
  {
    var st' := RemoveResult(st, ns, name);
    var w' := w - {(ns, name)};
    forall work | work in w'
      ensures '/' !in work.0 && MWKey(work.0, work.1) in st'.mwKeyToConfigs
      ensures st'.mwKeyToConfigs[MWKey(work.0, work.1)] == w'[work]
    {
      if MWKey(work.0, work.1) == MWKey(ns, name) {
        MWKeyInjective(work.0, work.1, ns, name);
      }
    }
    forall key | key in st'.mwKeyToConfigs ensures exists work :: work in w' && MWKey(work.0, work.1) == key {
      var work :| work in w && MWKey(work.0, work.1) == key;
      assert work in w';
    }
  }

  lemma FinishMatchesCalls(s: System, id: nat, cache: CacheState, result: set<string>)
    requires LogMatchesCalls(s) && id < |s.calls| && !s.calls[id].phase.Finished?
    ensures LogMatchesCalls(Finish(s, id, cache, result))
  {
    var s' := Finish(s, id, cache, result);
    forall i | 0 <= i < |s.log| ensures s'.log[i] == s.log[i] && s.log[i].call != id {
    }
    forall k | 0 <= k < |s'.calls| && s'.calls[k].phase.Finished?
      ensures exists i :: 0 <= i < |s'.log| && s'.log[i].call == k
    {
      if k == id {
        assert s'.log[|s.log|].call == id;
      } else {
        assert s.calls[k].phase.Finished?;
        var i :| 0 <= i < |s.log| && s.log[i].call == k;
        assert s'.log[i].call == k;
      }
    }
  }

  lemma EffectEntered(w: Works, calls: seq<Call>, id: nat, calls': seq<Call>)
    requires EnteredByCalls(w, calls) && id < |calls| == |calls'|
    requires forall i :: 0 <= i < |calls| ==> calls'[i].op == calls[i].op
    ensures EnteredByCalls(Effect(w, calls[id].op), calls')
  {
    var op := calls[id].op;
    var w' := Effect(w, op);
    forall work | work in w' ensures exists i :: 0 <= i < |calls'| && calls'[i].op == Add(work.0, work.1, w'[work]) {
      if op.Add? && work == (op.ns, op.name) {
        assert calls'[id].op == Add(work.0, work.1, w'[work]);
      } else {
        var i :| 0 <= i < |calls| && calls[i].op == Add(work.0, work.1, w[work]);
        assert calls'[i].op == calls[i].op;
      }
    }
  }

  /** A step at which a call takes effect and returns. */
  lemma FinishKeepsInvariant(s: System, id: nat, cache: CacheState, result: set<string>)
    requires Invariant(s) && id < |s.calls| && !s.calls[id].phase.Finished?
    requires Represents(cache, Effect(Replay(s.log), s.calls[id].op)) && Sound(cache)
    ensures Invariant(Finish(s, id, cache, result))
  {
    var s' := Finish(s, id, cache, result);
    ReplaySnoc(s.log, Entry(id, s.calls[id].op, result));
    FinishMatchesCalls(s, id, cache, result);
    EffectEntered(Replay(s.log), s.calls, id, s'.calls);
  }

  lemma ReadKeepsInvariant(s: System, id: nat)
    requires Invariant(s) && id < |s.calls| && s.calls[id].phase.Starting? && WellNamed(s.calls[id].op)
    ensures Invariant(ReadRegion(s, id))
  {
    var w := Replay(s.log);
    match s.calls[id].op {
      case Add(ns, name, configs) =>
        var key := MWKey(ns, name);
        if key in s.cache.mwKeyToConfigs && s.cache.mwKeyToConfigs[key] == configs {
          AddRepresents(s.cache, w, ns, name, configs);
          FinishKeepsInvariant(s, id, s.cache, {});
        } else {
          UpgradeKeepsInvariant(s, id);
        }
      case Remove(ns, name) =>
        if MWKey(ns, name) !in s.cache.mwKeyToConfigs {
          RemoveRepresents(s.cache, w, ns, name);
          FinishKeepsInvariant(s, id, s.cache, {});
        } else {
          UpgradeKeepsInvariant(s, id);
        }
      case GetNamespaces(config) =>
        FinishKeepsInvariant(s, id, s.cache, NamespacesIn(s.cache.configToMWNs, config));
    }
  }

  lemma UpgradeKeepsInvariant(s: System, id: nat)
    requires Invariant(s) && id < |s.calls| && s.calls[id].phase.Starting? && !s.calls[id].op.GetNamespaces?
    ensures Invariant(Upgrade(s, id))
  {
    var s' := Upgrade(s, id);
    forall work | work in Replay(s'.log)
      ensures exists i :: 0 <= i < |s'.calls| && s'.calls[i].op == Add(work.0, work.1, Replay(s'.log)[work])
    {
      var i :| 0 <= i < |s.calls| && s.calls[i].op == Add(work.0, work.1, Replay(s.log)[work]);
      assert s'.calls[i].op == s.calls[i].op;
    }
  }

  lemma WriteKeepsInvariant(s: System, id: nat)
    requires Invariant(s) && id < |s.calls| && s.calls[id].phase.Upgrading? && WellNamed(s.calls[id].op)
    ensures Invariant(WriteRegion(s, id))
  {
    var w := Replay(s.log);
    match s.calls[id].op {
      case Add(ns, name, configs) =>
        AddRepresents(s.cache, w, ns, name, configs);
        AddKeepsSound(s.cache, ns, name, configs);
        FinishKeepsInvariant(s, id, AddResult(s.cache, ns, name, configs), {});
      case Remove(ns, name) =>
        RemoveRepresents(s.cache, w, ns, name);
        RemoveKeepsSound(s.cache, ns, name);
        FinishKeepsInvariant(s, id, RemoveResult(s.cache, ns, name), {});
      case GetNamespaces(_) =>
    }
  }

  lemma InvokeKeepsInvariant(s: System, s': System, op: Op)
    requires Invariant(s) && Invoke(s, s', op)
    ensures Invariant(s')
  {
    forall work | work in Replay(s'.log)
      ensures exists i :: 0 <= i < |s'.calls| && s'.calls[i].op == Add(work.0, work.1, Replay(s'.log)[work])
    {
      var i :| 0 <= i < |s.calls| && s.calls[i].op == Add(work.0, work.1, Replay(s.log)[work]);
      assert s'.calls[i] == s.calls[i];
    }
  }

  lemma NextKeepsInvariant(s: System, s': System)
    requires Invariant(s) && Next(s, s') && CallersWellNamed(s'.calls)
    ensures Invariant(s')
  {
    if op :| Invoke(s, s', op) {
      InvokeKeepsInvariant(s, s', op);
    } else {
      var id :| Advance(s, s', id);
      NextKeepsOps(s, s');
      assert s.calls[id].op == s'.calls[id].op;
      match s.calls[id].phase {
        case Starting => ReadKeepsInvariant(s, id);
        case Upgrading => WriteKeepsInvariant(s, id);
        case Finished(_) =>
      }
    }
  }

  /** A step neither forgets a call nor changes its operation nor rewrites the log. */
  lemma NextKeepsOps(s: System, s': System)
    requires Next(s, s')
    ensures |s.calls| <= |s'.calls|
    ensures forall i :: 0 <= i < |s.calls| ==> s'.calls[i].op == s.calls[i].op
    ensures s.log <= s'.log
  {
  }

  // ---------------------------------------------------------------- completeness and answers

  /** The documented assumption, made about each moment, keeps a log lossless. */
  lemma ShareFreeLossless(log: seq<Entry>)
    requires forall k :: 0 <= k < |log| ==> ShareFree(Replay(log[..k]))
    ensures Lossless(log)
  {
  }

  /** The loss is visible in the cache exactly as it is in the abstract map. */
  lemma LossyIff(st: CacheState, w: Works, op: Op)
    requires Represents(st, w) && !op.GetNamespaces? && '/' !in op.ns
    ensures var key := MWKey(op.ns, op.name);
      UsedElsewhere(st, op.ns, key, Dropped(st, key, NewConfigs(op))) <==> Lossy(w, op)
  {
    hide NsOf, MWKey;
    var key := MWKey(op.ns, op.name);
    var dropped := Dropped(st, key, NewConfigs(op));
    NsOfKey(op.ns, op.name);
    if UsedElsewhere(st, op.ns, key, dropped) {
      var other, config :| other in st.mwKeyToConfigs && other != key && NsOf(other) == op.ns
        && config in dropped && config in st.mwKeyToConfigs[other];
      var a :| a in w && MWKey(a.0, a.1) == other;
      var b :| b in w && MWKey(b.0, b.1) == key;
      NsOfKey(a.0, a.1);
      MWKeyInjective(b.0, b.1, op.ns, op.name);
      assert config in w[a];
    }
    if Lossy(w, op) {
      var other, config :| other in w && other.0 == op.ns && other != (op.ns, op.name)
         && config in w[other] && config in w[(op.ns, op.name)] && config !in NewConfigs(op);
      NsOfKey(other.0, other.1);
      if MWKey(other.0, other.1) == key {
        MWKeyInjective(other.0, other.1, op.ns, op.name);
      }
      assert config in dropped && config in st.mwKeyToConfigs[MWKey(other.0, other.1)];
    }
  }

  /** The calls that took effect in a step lost nothing. */
  ghost predicate StepLossless(s: System, s': System) {
    forall k :: |s.log| <= k < |s'.log| ==> !Lossy(Replay(s'.log[..k]), s'.log[k].op)
  }

  lemma FinishLossless(s: System, id: nat, cache: CacheState, result: set<string>)
    requires id < |s.calls|
    ensures StepLossless(s, Finish(s, id, cache, result)) <==> !Lossy(Replay(s.log), s.calls[id].op)
  {
    hide Lossy, Replay;
    var s' := Finish(s, id, cache, result);
    var n := |s.log|;
    assert s'.log[..n] == s.log && s'.log[n].op == s.calls[id].op;
    assert !Lossy(Replay(s.log), s.calls[id].op) <==> !Lossy(Replay(s'.log[..n]), s'.log[n].op);
  }

  lemma ReadCompleteIff(s: System, id: nat)
    requires Invariant(s) && id < |s.calls| && Complete(s.cache)
    ensures var s' := ReadRegion(s, id); Complete(s'.cache) && StepLossless(s, s')
  {
    hide Complete, Replay, StepLossless;
    var op, s' := s.calls[id].op, ReadRegion(s, id);
    if s' == Upgrade(s, id) {
      NothingLogged(s, s');
    } else {
      FinishLossless(s, id, s.cache, if op.GetNamespaces? then NamespacesIn(s.cache.configToMWNs, op.config) else {});
    }
  }

  lemma NothingLogged(s: System, s': System)
    requires s'.log == s.log
    ensures StepLossless(s, s')
  {
  }

  lemma WriteCompleteIff(s: System, id: nat)
    requires Invariant(s) && id < |s.calls| && Complete(s.cache) && s.calls[id].phase.Upgrading? && WellNamed(s.calls[id].op)
    ensures var s' := WriteRegion(s, id); Complete(s'.cache) <==> StepLossless(s, s')
  {
    hide Complete, Replay, StepLossless, Lossy, UsedElsewhere, MWKey;
    var op, w := s.calls[id].op, Replay(s.log);
    LossyIff(s.cache, w, op);
    if op.Add? {
      AddCompleteIff(s.cache, op.ns, op.name, op.configs);
      FinishLossless(s, id, AddResult(s.cache, op.ns, op.name, op.configs), {});
    } else {
      RemoveCompleteIff(s.cache, op.ns, op.name);
      FinishLossless(s, id, RemoveResult(s.cache, op.ns, op.name), {});
    }
  }

  /** A step from a complete cache leaves it complete exactly if what took effect lost nothing. */
  lemma NextCompleteIff(s: System, s': System)
    requires Invariant(s) && Next(s, s') && CallersWellNamed(s'.calls) && Complete(s.cache)
    ensures Complete(s'.cache) <==> StepLossless(s, s')
  {
    hide Complete, StepLossless, Invariant;
    NextKeepsOps(s, s');
    if op :| Invoke(s, s', op) {
      NothingLogged(s, s');
    } else {
      var id :| Advance(s, s', id);
      assert WellNamed(s'.calls[id].op);
      match s.calls[id].phase {
        case Starting => ReadCompleteIff(s, id);
        case Upgrading => WriteCompleteIff(s, id);
        case Finished(_) => NothingLogged(s, s');
      }
    }
  }

  /** A lookup in the cache is the answer of the sequential specification. */
  lemma LookupAnswers(st: CacheState, w: Works, config: string)
    requires Represents(st, w) && Sound(st) && Complete(st)
    ensures NamespacesIn(st.configToMWNs, config) == Users(w, config)
  {
    forall ns ensures ns in NamespacesIn(st.configToMWNs, config) <==> ns in Users(w, config) {
      LookupExact(st, config, ns);
      if ns in Users(w, config) {
        var work :| work in w && config in w[work] && work.0 == ns;
        NsOfKey(work.0, work.1);
        assert MWKey(work.0, work.1) in st.mwKeyToConfigs;
      }
      if Referenced(st, ns, config) {
        var key :| key in st.mwKeyToConfigs && NsOf(key) == ns && config in st.mwKeyToConfigs[key];
        var work :| work in w && MWKey(work.0, work.1) == key;
        NsOfKey(work.0, work.1);
      }
    }
  }

  /** Conversely, a reference the cache lost is missing from some lookup. */
  lemma LookupsAnswerIff(st: CacheState, w: Works)
    requires Represents(st, w) && Sound(st)
    ensures Complete(st) <==> forall config :: NamespacesIn(st.configToMWNs, config) == Users(w, config)
  {
    if Complete(st) {
      forall config ensures NamespacesIn(st.configToMWNs, config) == Users(w, config) {
        LookupAnswers(st, w, config);
      }
    } else {
      var key, config :| key in st.mwKeyToConfigs && config in st.mwKeyToConfigs[key]
        && NsOf(key) !in NamespacesIn(st.configToMWNs, config);
      var work :| work in w && MWKey(work.0, work.1) == key;
      NsOfKey(work.0, work.1);
      assert work.0 in Users(w, config);
    }
  }

  lemma LegalSnoc(log: seq<Entry>, e: Entry)
    requires Legal(log) && e.result == Answer(Replay(log), e.op)
    ensures Legal(log + [e])
  {
    var log' := log + [e];
    forall i | 0 <= i < |log'| ensures log'[i].result == Answer(Replay(log'[..i]), log'[i].op) {
      assert log'[..i] == log[..i];
      assert log[..|log|] == log;
    }
  }

  /** What a step may append to the log. */
  lemma LogGrowth(s: System, s': System, id: nat)
    requires Advance(s, s', id) && (s.calls[id].phase.Upgrading? ==> !s.calls[id].op.GetNamespaces?)
    ensures var op := s.calls[id].op;
      var result := if op.GetNamespaces? then NamespacesIn(s.cache.configToMWNs, op.config) else {};
      s'.log == s.log || s'.log == s.log + [Entry(id, op, result)]
  {
  }

  lemma NextKeepsLegal(s: System, s': System)
    requires Invariant(s) && Next(s, s') && Complete(s.cache) && Legal(s.log)
    ensures Legal(s'.log)
  {
    if id :| Advance(s, s', id) {
      var op := s.calls[id].op;
      LogGrowth(s, s', id);
      if op.GetNamespaces? {
        LookupAnswers(s.cache, Replay(s.log), op.config);
      }
      var result := if op.GetNamespaces? then NamespacesIn(s.cache.configToMWNs, op.config) else {};
      LegalSnoc(s.log, Entry(id, op, result));
    }
  }

  // ---------------------------------------------------------------- whole runs

  lemma {:induction false} RunMonotone(run: seq<System>, i: nat, j: nat)
    requires IsRun(run) && i <= j < |run|
    ensures |run[i].calls| <= |run[j].calls|
    ensures forall k :: 0 <= k < |run[i].calls| ==> run[j].calls[k].op == run[i].calls[k].op
    ensures run[i].log <= run[j].log
    decreases j - i
  {
    if i < j {
      NextKeepsOps(run[i], run[i + 1]);
      RunMonotone(run, i + 1, j);
    }
  }

  lemma CallersOfPrefix(run: seq<System>, i: nat, j: nat)
    requires IsRun(run) && i <= j < |run|
    ensures CallersWellNamed(run[j].calls) ==> CallersWellNamed(run[i].calls)
  {
    RunMonotone(run, i, j);
    if CallersWellNamed(run[j].calls) {
      forall k | 0 <= k < |run[i].calls| ensures WellNamed(run[i].calls[k].op) {
        assert WellNamed(run[j].calls[k].op);
      }
    }
  }

  /** Safety of every run, whether or not works share configs: the cache is sound, it represents
      the works the finished calls entered, and each finished call took effect exactly once. */
  lemma {:induction false} RunSafe(run: seq<System>, i: nat)
    requires IsRun(run) && i < |run| && CallersWellNamed(run[i].calls)
    ensures Invariant(run[i])
    decreases i
  {
    if i > 0 {
      CallersOfPrefix(run, i - 1, i);
      RunSafe(run, i - 1);
      assert Next(run[i - 1], run[i - 1 + 1]);
      NextKeepsInvariant(run[i - 1], run[i]);
    }
  }

  lemma LosslessGrows(log: seq<Entry>, longer: seq<Entry>)
    requires log <= longer
    ensures Lossless(longer) <==>
            Lossless(log) && forall k :: |log| <= k < |longer| ==> !Lossy(Replay(longer[..k]), longer[k].op)
  {
    hide Lossy, Replay;
    forall k | 0 <= k < |log| ensures longer[..k] == log[..k] && longer[k] == log[k] {
    }
  }

  /** When the cache loses a reference, for every interleaving: it is complete in all states up to
      now exactly if no call gave up a config that another work of its namespace referenced when the
      call took effect. A config may well move from one work to another. */
  lemma {:induction false} RunExactIff(run: seq<System>, i: nat)
    requires IsRun(run) && i < |run| && CallersWellNamed(run[i].calls)
    ensures (forall t :: 0 <= t <= i ==> Complete(run[t].cache)) <==> Lossless(run[i].log)
    decreases i
  {
    hide Complete, Lossy, Replay, Invariant, Next;
    if i == 0 {
      StartsComplete(run);
    } else {
      CallersOfPrefix(run, i - 1, i);
      RunExactIff(run, i - 1);
      RunSafe(run, i - 1);
      assert Next(run[i - 1], run[i - 1 + 1]);
      NextKeepsOps(run[i - 1], run[i]);
      LosslessGrows(run[i - 1].log, run[i].log);
      if Complete(run[i - 1].cache) {
        NextCompleteIff(run[i - 1], run[i]);
      }
    }
  }

  lemma StartsComplete(run: seq<System>)
    requires IsRun(run)
    ensures Complete(run[0].cache) && run[0].log == []
  {
  }

  /** The same for what callers see: in every state up to now every lookup would be right. */
  lemma LookupsRightIff(run: seq<System>, i: nat)
    requires IsRun(run) && i < |run| && CallersWellNamed(run[i].calls)
    ensures (forall t, config :: 0 <= t <= i ==> NamespacesIn(run[t].cache.configToMWNs, config) == Users(Replay(run[t].log), config))
       <==> Lossless(run[i].log)
  {
    hide Complete, Lossless, Replay, Users, NamespacesIn;
    RunExactIff(run, i);
    forall t | 0 <= t <= i
      ensures Complete(run[t].cache) <==>
              forall config :: NamespacesIn(run[t].cache.configToMWNs, config) == Users(Replay(run[t].log), config)
    {
      CallersOfPrefix(run, t, i);
      RunSafe(run, t);
      LookupsAnswerIff(run[t].cache, Replay(run[t].log));
    }
  }

  /** Without such a call every lookup is answered like the sequential specification answers it. */
  lemma {:induction false} RunExact(run: seq<System>, i: nat)
    requires IsRun(run) && i < |run|
    requires CallersWellNamed(run[i].calls) && Lossless(run[i].log)
    ensures Complete(run[i].cache) && Legal(run[i].log)
    decreases i
  {
    hide Complete, Lossy, Replay, Invariant, Next, Legal;
    RunExactIff(run, i);
    if i == 0 {
      StartsComplete(run);
      EmptyLegal();
    } else {
      CallersOfPrefix(run, i - 1, i);
      assert Next(run[i - 1], run[i - 1 + 1]);
      NextKeepsOps(run[i - 1], run[i]);
      LosslessGrows(run[i - 1].log, run[i].log);
      RunExact(run, i - 1);
      RunSafe(run, i - 1);
      NextKeepsLegal(run[i - 1], run[i]);
    }
  }

  lemma EmptyLegal()
    ensures Legal([])
  {
  }

  /** At this moment call `a` has returned and call `b` is not invoked yet. */
  ghost predicate ReturnedBeforeInvoked(s: System, a: int, b: int) {
    0 <= a < |s.calls| <= b && s.calls[a].phase.Finished?
  }

  ghost predicate Precedes(log: seq<Entry>, a: int, b: int) {
    forall i, j :: 0 <= i < |log| && 0 <= j < |log| && log[i].call == a && log[j].call == b ==> i < j
  }

  /** Linearizability: the log of a run is a sequential execution of its finished calls, each with
      the answer it returned, and it respects the order of calls that do not overlap. */
  lemma Linearizable(run: seq<System>)
    requires IsRun(run)
    requires CallersWellNamed(run[|run| - 1].calls) && Lossless(run[|run| - 1].log)
    ensures var s := run[|run| - 1];
      && Legal(s.log)
      && LogMatchesCalls(s)
      && Represents(s.cache, Replay(s.log))
      && (forall config :: NamespacesIn(s.cache.configToMWNs, config) == Users(Replay(s.log), config))
    ensures forall t, a, b :: 0 <= t < |run| && ReturnedBeforeInvoked(run[t], a, b) ==> Precedes(run[|run| - 1].log, a, b)
  {
    var last := |run| - 1;
    var s := run[last];
    RunSafe(run, last);
    RunExact(run, last);
    forall config ensures NamespacesIn(s.cache.configToMWNs, config) == Users(Replay(s.log), config) {
      LookupAnswers(s.cache, Replay(s.log), config);
    }
    forall t, a, b | 0 <= t < |run| && ReturnedBeforeInvoked(run[t], a, b)
      ensures Precedes(s.log, a, b)
    {
      RealTimeOrder(run, t, a, b);
    }
  }

  lemma RealTimeOrder(run: seq<System>, t: nat, a: int, b: int)
    requires IsRun(run) && t < |run| && CallersWellNamed(run[|run| - 1].calls)
    requires ReturnedBeforeInvoked(run[t], a, b)
    ensures Precedes(run[|run| - 1].log, a, b)
  {
    var last := |run| - 1;
    CallersOfPrefix(run, t, last);
    RunSafe(run, t);
    RunSafe(run, last);
    RunMonotone(run, t, last);
    var early, late := run[t].log, run[last].log;
    var p :| 0 <= p < |early| && early[p].call == a;
    forall i, j | 0 <= i < |late| && 0 <= j < |late| && late[i].call == a && late[j].call == b ensures i < j {
      assert late[p] == early[p];
      assert i == p;
      if j < |early| {
        assert false;
      }
    }
  }
}
