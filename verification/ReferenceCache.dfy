/** The reference cache of the watcher (internal/controllers/watcher/cache.go): which ManifestWork
    namespaces reference a configuration resource, kept in step with which configuration resources
    a ManifestWork references. */
module ReferenceCache {
  import opened Text

  /** The two maps the cache keeps. */
  datatype CacheState = CacheState(configToMWNs: map<string, set<string>>, mwKeyToConfigs: map<string, set<string>>)

  const EMPTY := CacheState(map[], map[])

  function MWKey(ns: string, name: string): string {
    ns + "/" + name
  }

  /** The namespace part of a ManifestWork key. */
  function NsOf(key: string): string {
    Split(key, '/')[0]
  }

  lemma NsOfKey(ns: string, name: string)
    requires '/' !in ns
    ensures NsOf(MWKey(ns, name)) == ns
  {
    SplitCons(ns, name, '/');
    assert MWKey(ns, name) == ns + ['/'] + name;
  }

  lemma MWKeyInjective(ns: string, name: string, ns': string, name': string)
    requires '/' !in ns && '/' !in ns'
    requires MWKey(ns, name) == MWKey(ns', name')
    ensures ns == ns' && name == name'
  {
    NsOfKey(ns, name);
    NsOfKey(ns', name');
    assert name == MWKey(ns, name)[|ns| + 1..];
    assert name' == MWKey(ns', name')[|ns'| + 1..];
  }

  // ---------------------------------------------------------------- what the operations compute

  function WithoutRef(refs: map<string, set<string>>, ns: string, config: string): map<string, set<string>> {
    if config !in refs then refs
    else if refs[config] - {ns} == {} then refs - {config}
    else refs[config := refs[config] - {ns}]
  }

  function WithoutRefs(refs: map<string, set<string>>, ns: string, configs: set<string>): map<string, set<string>> {
    map config | config in refs && !(config in configs && refs[config] - {ns} == {})
      :: if config in configs then refs[config] - {ns} else refs[config]
  }

  function WithRefs(refs: map<string, set<string>>, ns: string, configs: set<string>): map<string, set<string>> {
    map config | config in refs.Keys + configs
      :: if config in configs then NamespacesIn(refs, config) + {ns} else refs[config]
  }

  function NamespacesIn(refs: map<string, set<string>>, config: string): set<string> {
    if config in refs then refs[config] else {}
  }

  /** The configs that a work with key `key` stops referencing when its new configs are `configs`. */
  function Dropped(st: CacheState, key: string, configs: set<string>): set<string> {
    if key in st.mwKeyToConfigs then st.mwKeyToConfigs[key] - configs else {}
  }

  function AddResult(st: CacheState, ns: string, name: string, configs: set<string>): CacheState {
    var key := MWKey(ns, name);
    if key in st.mwKeyToConfigs && st.mwKeyToConfigs[key] == configs then st
    else
      CacheState(WithRefs(WithoutRefs(st.configToMWNs, ns, Dropped(st, key, configs)), ns, configs),
                 st.mwKeyToConfigs[key := configs])
  }

  function RemoveResult(st: CacheState, ns: string, name: string): CacheState {
    var key := MWKey(ns, name);
    if key !in st.mwKeyToConfigs then st
    else CacheState(WithoutRefs(st.configToMWNs, ns, st.mwKeyToConfigs[key]), st.mwKeyToConfigs - {key})
  }

  // ---------------------------------------------------------------- the cache itself

  class Cache {
    var configToMWNs: map<string, set<string>>
    var mwKeyToConfigs: map<string, set<string>>

    ghost function State(): CacheState
      reads this
    {
      CacheState(configToMWNs, mwKeyToConfigs)
    }

    constructor ()
      ensures State() == EMPTY
    {
      configToMWNs, mwKeyToConfigs := map[], map[];
    }

    /** Records that the work references exactly `newConfigs`. */
    method Add(mwNamespace: string, mwName: string, newConfigs: set<string>)
      modifies this
      ensures State() == AddResult(old(State()), mwNamespace, mwName, newConfigs)
    {
      var mwKey := MWKey(mwNamespace, mwName);
      if mwKey in mwKeyToConfigs && mwKeyToConfigs[mwKey] == newConfigs {
        return;
      }
      // the read lock is released and the write lock taken here
      if mwKey in mwKeyToConfigs && mwKeyToConfigs[mwKey] == newConfigs {
        return;
      }
      ghost var dropped := Dropped(State(), mwKey, newConfigs);
      if mwKey in mwKeyToConfigs {
        var todo := mwKeyToConfigs[mwKey];
        ghost var done: set<string> := {};
        while todo != {}
          invariant mwKeyToConfigs == old(mwKeyToConfigs)
          invariant todo + done == mwKeyToConfigs[mwKey]
          invariant configToMWNs == WithoutRefs(old(configToMWNs), mwNamespace, done - newConfigs)
          decreases todo
        {
          var configKey :| configKey in todo;
          if configKey !in newConfigs {
            RemoveRef(mwNamespace, configKey);
            WithoutRefsStep(old(configToMWNs), mwNamespace, done - newConfigs, configKey);
            assert (done + {configKey}) - newConfigs == (done - newConfigs) + {configKey};
          } else {
            assert (done + {configKey}) - newConfigs == done - newConfigs;
          }
          todo, done := todo - {configKey}, done + {configKey};
        }
        assert done - newConfigs == dropped;
      }
      assert configToMWNs == WithoutRefs(old(configToMWNs), mwNamespace, dropped);
      mwKeyToConfigs := mwKeyToConfigs[mwKey := newConfigs];
      AddRefs(mwNamespace, newConfigs);
    }

    /** The loop of Add that enters the namespace for every new config. */
    method AddRefs(mwNamespace: string, newConfigs: set<string>)
      modifies this`configToMWNs
      ensures configToMWNs == WithRefs(old(configToMWNs), mwNamespace, newConfigs)
    {
      var todo := newConfigs;
      ghost var done: set<string> := {};
      while todo != {}
        invariant todo + done == newConfigs
        invariant configToMWNs == WithRefs(old(configToMWNs), mwNamespace, done)
        decreases todo
      {
        var configKey :| configKey in todo;
        WithRefsStep(old(configToMWNs), mwNamespace, done, configKey);
        if configKey !in configToMWNs {
          configToMWNs := configToMWNs[configKey := {}];
        }
        configToMWNs := configToMWNs[configKey := configToMWNs[configKey] + {mwNamespace}];
        todo, done := todo - {configKey}, done + {configKey};
      }
    }

    /** Forgets the work. */
    method Remove(mwNamespace: string, mwName: string)
      modifies this
      ensures State() == RemoveResult(old(State()), mwNamespace, mwName)
    {
      var mwKey := MWKey(mwNamespace, mwName);
      if mwKey !in mwKeyToConfigs {
        return;
      }
      // the read lock is released and the write lock taken here
      if mwKey in mwKeyToConfigs {
        var todo := mwKeyToConfigs[mwKey];
        ghost var done: set<string> := {};
        while todo != {}
          invariant mwKeyToConfigs == old(mwKeyToConfigs)
          invariant todo + done == mwKeyToConfigs[mwKey]
          invariant configToMWNs == WithoutRefs(old(configToMWNs), mwNamespace, done)
          decreases todo
        {
          var configKey :| configKey in todo;
          RemoveRef(mwNamespace, configKey);
          WithoutRefsStep(old(configToMWNs), mwNamespace, done, configKey);
          todo, done := todo - {configKey}, done + {configKey};
        }
        assert done == mwKeyToConfigs[mwKey];
        mwKeyToConfigs := mwKeyToConfigs - {mwKey};
      }
    }

    method RemoveRef(mwNamespace: string, configKey: string)
      modifies this`configToMWNs
      ensures configToMWNs == WithoutRef(old(configToMWNs), mwNamespace, configKey)
    {
      if configKey in configToMWNs {
        var nss := configToMWNs[configKey] - {mwNamespace};
        configToMWNs := configToMWNs[configKey := nss];
        if |nss| == 0 {
          configToMWNs := configToMWNs - {configKey};
        }
      }
    }

    /** The namespaces that reference the config, without duplicates, in any order. */
    method GetNamespaces(configKey: string) returns (result: seq<string>)
      ensures forall ns :: ns in result <==> ns in NamespacesIn(configToMWNs, configKey)
      ensures forall i, j :: 0 <= i < j < |result| ==> result[i] != result[j]
    {
      result := [];
      if configKey in configToMWNs {
        var todo := configToMWNs[configKey];
        while todo != {}
          invariant forall ns :: ns in configToMWNs[configKey] <==> ns in todo || ns in result
          invariant forall ns :: ns in result ==> ns !in todo
          invariant forall i, j :: 0 <= i < j < |result| ==> result[i] != result[j]
          decreases todo
        {
          var ns :| ns in todo;
          result := result + [ns];
          todo := todo - {ns};
        }
      }
    }
  }

  lemma WithoutRefsStep(refs: map<string, set<string>>, ns: string, done: set<string>, config: string)
    ensures WithoutRef(WithoutRefs(refs, ns, done), ns, config) == WithoutRefs(refs, ns, done + {config})
  {
    var a := WithoutRef(WithoutRefs(refs, ns, done), ns, config);
    var b := WithoutRefs(refs, ns, done + {config});
    if config in refs {
      assert (refs[config] - {ns}) - {ns} == refs[config] - {ns};
    }
    assert a.Keys == b.Keys;
  }

  lemma WithRefsStep(refs: map<string, set<string>>, ns: string, done: set<string>, config: string)
    ensures var now := WithRefs(refs, ns, done);
      now[config := NamespacesIn(now, config) + {ns}] == WithRefs(refs, ns, done + {config})
  {
  }

  // ---------------------------------------------------------------- what is entered and removed

  /** Whatever the cache held: if Add changes it, the work is tracked with its new configs, the
      namespace is listed under each of them and no longer under those that only the old ones named,
      and nothing else changes; it changes nothing exactly if the work is tracked with these configs. */
  lemma AddLists(st: CacheState, ns: string, name: string, configs: set<string>, config: string, other: string)
    ensures var st', key := AddResult(st, ns, name, configs), MWKey(ns, name);
      && key in st'.mwKeyToConfigs && st'.mwKeyToConfigs[key] == configs && st'.mwKeyToConfigs - {key} == st.mwKeyToConfigs - {key}
      && (st' == st <== key in st.mwKeyToConfigs && st.mwKeyToConfigs[key] == configs)
      && (key !in st.mwKeyToConfigs || st.mwKeyToConfigs[key] != configs ==>
            && (config in configs ==> ns in NamespacesIn(st'.configToMWNs, config))
            && (config !in configs && key in st.mwKeyToConfigs && config in st.mwKeyToConfigs[key] ==>
                  ns !in NamespacesIn(st'.configToMWNs, config))
            && (config !in configs && (key !in st.mwKeyToConfigs || config !in st.mwKeyToConfigs[key]) ==>
                  (ns in NamespacesIn(st'.configToMWNs, config) <==> ns in NamespacesIn(st.configToMWNs, config))))
      && (other != ns ==> (other in NamespacesIn(st'.configToMWNs, config) <==> other in NamespacesIn(st.configToMWNs, config)))
  {
  }

  /** Remove forgets the work and takes its namespace off exactly its configs. */
  lemma RemoveUnlists(st: CacheState, ns: string, name: string, config: string, other: string)
    ensures var st', key := RemoveResult(st, ns, name), MWKey(ns, name);
      && st'.mwKeyToConfigs == st.mwKeyToConfigs - {key}
      && (ns in NamespacesIn(st'.configToMWNs, config) <==>
            ns in NamespacesIn(st.configToMWNs, config) && !(key in st.mwKeyToConfigs && config in st.mwKeyToConfigs[key]))
      && (other != ns ==> (other in NamespacesIn(st'.configToMWNs, config) <==> other in NamespacesIn(st.configToMWNs, config)))
  {
  }

  // ---------------------------------------------------------------- soundness

  /** Some tracked work of the namespace references the config. */
  ghost predicate Referenced(st: CacheState, ns: string, config: string) {
    exists key :: key in st.mwKeyToConfigs && NsOf(key) == ns && config in st.mwKeyToConfigs[key]
  }

  /** Every listed namespace is backed by a tracked work, and no empty set is stored. */
  ghost predicate Sound(st: CacheState) {
    && (forall config, ns :: config in st.configToMWNs && ns in st.configToMWNs[config] ==> Referenced(st, ns, config))
    && (forall config :: config in st.configToMWNs ==> st.configToMWNs[config] != {})
  }

  lemma AddKeepsSound(st: CacheState, ns: string, name: string, configs: set<string>)
    requires Sound(st) && '/' !in ns
    ensures Sound(AddResult(st, ns, name, configs))
  {
    var key := MWKey(ns, name);
    var st' := AddResult(st, ns, name, configs);
    NsOfKey(ns, name);
    if st' != st {
      forall config, ns' | config in st'.configToMWNs && ns' in st'.configToMWNs[config]
        ensures Referenced(st', ns', config)
      {
        if ns' == ns && config in configs {
          assert key in st'.mwKeyToConfigs;
        } else {
          assert config in st.configToMWNs && ns' in st.configToMWNs[config];
          var user :| user in st.mwKeyToConfigs && NsOf(user) == ns' && config in st.mwKeyToConfigs[user];
          if user == key {
            assert false;
          }
          assert user in st'.mwKeyToConfigs;
        }
      }
    }
  }

  lemma RemoveKeepsSound(st: CacheState, ns: string, name: string)
    requires Sound(st) && '/' !in ns
    ensures Sound(RemoveResult(st, ns, name))
  {
    var key := MWKey(ns, name);
    var st' := RemoveResult(st, ns, name);
    NsOfKey(ns, name);
    if st' != st {
      forall config, ns' | config in st'.configToMWNs && ns' in st'.configToMWNs[config]
        ensures Referenced(st', ns', config)
      {
        var user :| user in st.mwKeyToConfigs && NsOf(user) == ns' && config in st.mwKeyToConfigs[user];
        if user == key {
          assert false;
        }
        assert user in st'.mwKeyToConfigs;
      }
    }
  }

  // ---------------------------------------------------------------- completeness

  /** Every reference of a tracked work is listed. */
  ghost predicate Complete(st: CacheState) {
    forall key, config :: key in st.mwKeyToConfigs && config in st.mwKeyToConfigs[key]
      ==> NsOf(key) in NamespacesIn(st.configToMWNs, config)
  }

  /** Some other tracked work of the namespace references one of the configs. */
  ghost predicate UsedElsewhere(st: CacheState, ns: string, key: string, configs: set<string>) {
    exists other, config :: other in st.mwKeyToConfigs && other != key && NsOf(other) == ns
      && config in configs && config in st.mwKeyToConfigs[other]
  }

  /** Add keeps the cache complete exactly if no other work of the namespace references a config
      that this work drops. */
  lemma AddCompleteIff(st: CacheState, ns: string, name: string, configs: set<string>)
    requires Complete(st) && '/' !in ns
    ensures Complete(AddResult(st, ns, name, configs))
       <==> !UsedElsewhere(st, ns, MWKey(ns, name), Dropped(st, MWKey(ns, name), configs))
  {
    var key := MWKey(ns, name);
    var st' := AddResult(st, ns, name, configs);
    var dropped := Dropped(st, key, configs);
    NsOfKey(ns, name);
    if st' != st {
      if UsedElsewhere(st, ns, key, dropped) {
        var other, config :| other in st.mwKeyToConfigs && other != key && NsOf(other) == ns
          && config in dropped && config in st.mwKeyToConfigs[other];
        assert other in st'.mwKeyToConfigs && config in st'.mwKeyToConfigs[other];
        assert NsOf(other) !in NamespacesIn(st'.configToMWNs, config);
      } else {
        forall user, config | user in st'.mwKeyToConfigs && config in st'.mwKeyToConfigs[user]
          ensures NsOf(user) in NamespacesIn(st'.configToMWNs, config)
        {
          if user != key {
            assert user in st.mwKeyToConfigs && config in st.mwKeyToConfigs[user];
            assert NsOf(user) in NamespacesIn(st.configToMWNs, config);
          }
        }
      }
    } else {
      assert dropped == {};
    }
  }

  lemma RemoveCompleteIff(st: CacheState, ns: string, name: string)
    requires Complete(st) && '/' !in ns
    ensures Complete(RemoveResult(st, ns, name))
       <==> !UsedElsewhere(st, ns, MWKey(ns, name), Dropped(st, MWKey(ns, name), {}))
  {
    var key := MWKey(ns, name);
    var st' := RemoveResult(st, ns, name);
    var dropped := Dropped(st, key, {});
    NsOfKey(ns, name);
    if key in st.mwKeyToConfigs {
      assert dropped == st.mwKeyToConfigs[key];
      if UsedElsewhere(st, ns, key, dropped) {
        var other, config :| other in st.mwKeyToConfigs && other != key && NsOf(other) == ns
          && config in dropped && config in st.mwKeyToConfigs[other];
        assert other in st'.mwKeyToConfigs && config in st'.mwKeyToConfigs[other];
        assert NsOf(other) !in NamespacesIn(st'.configToMWNs, config);
      } else {
        forall user, config | user in st'.mwKeyToConfigs && config in st'.mwKeyToConfigs[user]
          ensures NsOf(user) in NamespacesIn(st'.configToMWNs, config)
        {
          assert NsOf(user) in NamespacesIn(st.configToMWNs, config);
        }
      }
    }
  }

  /** In a sound and complete cache a lookup is exact. */
  lemma LookupExact(st: CacheState, config: string, ns: string)
    requires Sound(st) && Complete(st)
    ensures ns in NamespacesIn(st.configToMWNs, config) <==> Referenced(st, ns, config)
  {
  }

  /** Two works of one namespace share a config and one of them is removed: the other still
      references the config, but a lookup no longer finds the namespace. */
  lemma SharedConfigLost(ns: string, name: string, other: string, config: string)
    requires '/' !in ns && name != other
    ensures var both := AddResult(AddResult(EMPTY, ns, name, {config}), ns, other, {config});
      var st := RemoveResult(both, ns, name);
      Referenced(st, ns, config) && ns !in NamespacesIn(st.configToMWNs, config)
  {
    if MWKey(ns, name) == MWKey(ns, other) {
      MWKeyInjective(ns, name, ns, other);
    }
    NsOfKey(ns, other);
    var both := AddResult(AddResult(EMPTY, ns, name, {config}), ns, other, {config});
    var st := RemoveResult(both, ns, name);
    assert st.mwKeyToConfigs[MWKey(ns, other)] == {config};
  }

  /** The same loss when the work is updated to references without the config. */
  lemma SharedConfigDropped(ns: string, name: string, other: string, config: string)
    requires '/' !in ns && name != other
    ensures var both := AddResult(AddResult(EMPTY, ns, name, {config}), ns, other, {config});
      var st := AddResult(both, ns, name, {});
      Referenced(st, ns, config) && ns !in NamespacesIn(st.configToMWNs, config)
  {
    if MWKey(ns, name) == MWKey(ns, other) {
      MWKeyInjective(ns, name, ns, other);
    }
    NsOfKey(ns, other);
    var both := AddResult(AddResult(EMPTY, ns, name, {config}), ns, other, {config});
    var st := AddResult(both, ns, name, {});
    assert st.mwKeyToConfigs[MWKey(ns, other)] == {config};
  }
}
