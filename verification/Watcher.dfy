/** The watcher (internal/controllers/watcher/controller.go): it fills the reference cache from the
    manifests of a ManifestWork and turns events on configuration resources into requests. A copied
    Secret or ConfigMap carries the address of its source in an annotation
    (internal/metrics/handlers/handler.go). */
module Watcher {
  import opened Config
  import opened Wrappers
  import opened Text
  import opened ReferenceCache
  import CacheConcurrency

  datatype Resource = Resource(group: string, kind: string, namespace: string, name: string)

  /** A manifest of a work: its group and kind and its original-resource annotation. */
  datatype Manifest = Unreadable | Manifest(group: string, kind: string, original: Option<string>)

  datatype Request = Request(namespace: string, name: string)

  /** `<Group>/<Kind>/<Namespace>/<Name>` */
  function ConfigKey(r: Resource): string {
    r.group + "/" + r.kind + "/" + r.namespace + "/" + r.name
  }

  /** The annotation written when a resource is copied. */
  function Annotation(namespace: string, name: string): string {
    namespace + "/" + name
  }

  predicate IsCopiedKind(group: string, kind: string) {
    group == "" && (kind == "Secret" || kind == "ConfigMap")
  }

  /** The cache key a manifest contributes, if any. */
  function OriginalKey(m: Manifest): Option<string> {
    if m.Unreadable? || !IsCopiedKind(m.group, m.kind) || m.original.None? then None
    else
      var parts := Split(m.original.value, '/');
      if |parts| != 2 || parts[0] == "" || parts[1] == "" then None
      else Some(ConfigKey(Resource(m.group, m.kind, parts[0], parts[1])))
  }

  function ReferencedKeys(ms: seq<Manifest>): set<string> {
    set m | m in ms && OriginalKey(m).Some? :: OriginalKey(m).value
  }

  lemma ReferencedKeysSnoc(ms: seq<Manifest>, m: Manifest)
    ensures ReferencedKeys(ms + [m]) == ReferencedKeys(ms) + if OriginalKey(m).Some? then {OriginalKey(m).value} else {}
  {
    forall x ensures x in ms + [m] <==> x in ms || x == m {}
  }

  class Reconciler {
    const cache: Cache

    constructor (cache: Cache)
      ensures this.cache == cache
    {
      this.cache := cache;
    }

    method UpdateCache(mwNamespace: string, mwName: string, manifests: seq<Manifest>)
      modifies cache
      ensures cache.State() == AddResult(old(cache.State()), mwNamespace, mwName, ReferencedKeys(manifests))
    {
      var keys: set<string> := {};
      for i := 0 to |manifests|
        invariant keys == ReferencedKeys(manifests[..i])
        invariant cache.State() == old(cache.State())
      {
        var m := manifests[i];
        assert manifests[..i + 1] == manifests[..i] + [m];
        ReferencedKeysSnoc(manifests[..i], m);
        if m.Manifest? && IsCopiedKind(m.group, m.kind) && m.original.Some? {
          var parts := Split(m.original.value, '/');
          if |parts| == 2 && parts[0] != "" && parts[1] != "" {
            keys := keys + {ConfigKey(Resource(m.group, m.kind, parts[0], parts[1]))};
          }
        }
      }
      assert manifests[..|manifests|] == manifests;
      cache.Add(mwNamespace, mwName, keys);
    }

    /** One request for the addon in each namespace that references the resource. */
    method EnqueueForConfigResource(r: Resource) returns (requests: seq<Request>)
      ensures forall q :: q in requests <==> q.name == ADDON_NAME && q.namespace in NamespacesIn(cache.configToMWNs, ConfigKey(r))
      ensures forall i, j :: 0 <= i < j < |requests| ==> requests[i] != requests[j]
    {
      var namespaces := cache.GetNamespaces(ConfigKey(r));
      requests := [];
      for i := 0 to |namespaces|
        invariant |requests| == i
        invariant forall k :: 0 <= k < i ==> requests[k] == Request(namespaces[k], ADDON_NAME)
      {
        requests := requests + [Request(namespaces[i], ADDON_NAME)];
      }
      forall q: Request | q.name == ADDON_NAME && q.namespace in NamespacesIn(cache.configToMWNs, ConfigKey(r))
        ensures q in requests
      {
        var k :| 0 <= k < |namespaces| && namespaces[k] == q.namespace;
        assert requests[k] == q;
      }
    }
  }

  // ---------------------------------------------------------------- keys

  predicate SlashFree(r: Resource) {
    '/' !in r.group && '/' !in r.kind && '/' !in r.namespace && '/' !in r.name
  }

  lemma KeyParts(r: Resource)
    requires SlashFree(r)
    ensures Split(ConfigKey(r), '/') == [r.group, r.kind, r.namespace, r.name]
  {
    var parts := [r.group, r.kind, r.namespace, r.name];
    assert parts[1..] == [r.kind, r.namespace, r.name];
    assert parts[1..][1..] == [r.namespace, r.name];
    assert parts[1..][1..][1..] == [r.name];
    assert Join([r.name], '/') == r.name;
    assert Join([r.namespace, r.name], '/') == r.namespace + "/" + r.name;
    assert Join([r.kind, r.namespace, r.name], '/') == r.kind + "/" + (r.namespace + "/" + r.name);
    assert Join(parts, '/') == r.group + "/" + (r.kind + "/" + (r.namespace + "/" + r.name)) == ConfigKey(r);
    SplitJoin(parts, '/');
  }

  /** Distinct resources never share a key. */
  lemma KeysDistinct(a: Resource, b: Resource)
    requires SlashFree(a) && SlashFree(b)
    ensures ConfigKey(a) == ConfigKey(b) <==> a == b
  {
    KeyParts(a);
    KeyParts(b);
  }

  /** The annotation of a copy leads back to the key of its source exactly if the source's
      namespace and name are non-empty and hold no slash. */
  lemma AnnotationRoundTripIff(kind: string, namespace: string, name: string)
    requires kind == "Secret" || kind == "ConfigMap"
    ensures OriginalKey(Manifest("", kind, Some(Annotation(namespace, name)))) ==
              Some(ConfigKey(Resource("", kind, namespace, name)))
       <==> namespace != "" && name != "" && '/' !in namespace && '/' !in name
  {
    var parts := [namespace, name];
    assert parts[1..] == [name];
    assert Join(parts, '/') == Annotation(namespace, name);
    if '/' !in namespace && '/' !in name {
      SplitJoin(parts, '/');
    } else {
      CountJoin(parts, '/');
      JoinSplit(Annotation(namespace, name), '/');
    }
  }

  predicate NamesSource(annotation: string, namespace: string, name: string) {
    namespace != "" && name != "" && '/' !in namespace && '/' !in name && annotation == Annotation(namespace, name)
  }

  /** A manifest contributes a key exactly if it is a Secret or ConfigMap whose annotation is one
      slash between two non-empty texts. */
  lemma ContributesIff(m: Manifest)
    ensures OriginalKey(m).Some? <==>
      && m.Manifest? && m.group == "" && m.kind in {"Secret", "ConfigMap"} && m.original.Some?
      && exists namespace, name :: NamesSource(m.original.value, namespace, name)
  {
    hide Split;
    if m.Manifest? && m.original.Some? {
      var parts := Split(m.original.value, '/');
      JoinSplit(m.original.value, '/');
      if |parts| == 2 {
        assert parts == [parts[0], parts[1]] && parts[1..] == [parts[1]];
        assert m.original.value == Annotation(parts[0], parts[1]);
        if parts[0] != "" && parts[1] != "" {
          assert NamesSource(m.original.value, parts[0], parts[1]);
        }
      }
      if namespace, name :| NamesSource(m.original.value, namespace, name) {
        var pair := [namespace, name];
        assert pair[1..] == [name];
        assert Join(pair, '/') == Annotation(namespace, name);
        SplitJoin(pair, '/');
      }
    }
  }

  /** Conversely, a manifest that contributes the key of a resource names that resource. */
  lemma KeyNamesSource(m: Manifest, r: Resource)
    requires SlashFree(r)
    requires OriginalKey(m) == Some(ConfigKey(r))
    ensures m == Manifest(r.group, r.kind, Some(Annotation(r.namespace, r.name)))
  {
    var parts := Split(m.original.value, '/');
    JoinSplit(m.original.value, '/');
    assert parts == [parts[0], parts[1]] && parts[1..] == [parts[1]];
    KeysDistinct(Resource(m.group, m.kind, parts[0], parts[1]), r);
  }

  // ---------------------------------------------------------------- events reach the right works

  predicate IsSource(r: Resource) {
    SlashFree(r) && r.group == "" && r.kind in {"Secret", "ConfigMap"} && r.namespace != "" && r.name != ""
  }

  /** The work holds a copy of the resource. */
  ghost predicate Copies(ms: seq<Manifest>, r: Resource) {
    Manifest(r.group, r.kind, Some(Annotation(r.namespace, r.name))) in ms
  }

  lemma ReferencesAreCopies(ms: seq<Manifest>, r: Resource)
    requires IsSource(r)
    ensures ConfigKey(r) in ReferencedKeys(ms) <==> Copies(ms, r)
  {
    AnnotationRoundTripIff(r.kind, r.namespace, r.name);
    if ConfigKey(r) in ReferencedKeys(ms) {
      var m :| m in ms && OriginalKey(m) == Some(ConfigKey(r));
      KeyNamesSource(m, r);
    }
  }

  /** Caching a work that copies a resource makes events on the resource reach its namespace. */
  lemma CachedWorkIsReached(st: CacheState, mwNamespace: string, mwName: string, ms: seq<Manifest>, r: Resource)
    requires Complete(st) && '/' !in mwNamespace && IsSource(r) && Copies(ms, r)
    ensures mwNamespace in NamespacesIn(AddResult(st, mwNamespace, mwName, ReferencedKeys(ms)).configToMWNs, ConfigKey(r))
  {
    ReferencesAreCopies(ms, r);
    NsOfKey(mwNamespace, mwName);
  }

  /** After any run of concurrent cache calls that entered each work with the keys of its manifests,
      an event on a resource is routed to exactly the namespaces of the works that copy it. */
  lemma EventReachesExactly(run: seq<CacheConcurrency.System>, manifests: map<(string, string), seq<Manifest>>, r: Resource, ns: string)
    requires CacheConcurrency.IsRun(run) && IsSource(r)
    requires CacheConcurrency.CallersWellNamed(run[|run| - 1].calls) && CacheConcurrency.Lossless(run[|run| - 1].log)
    requires var w := CacheConcurrency.Replay(run[|run| - 1].log);
      w.Keys == manifests.Keys && forall work :: work in w ==> w[work] == ReferencedKeys(manifests[work])
    ensures ns in NamespacesIn(run[|run| - 1].cache.configToMWNs, ConfigKey(r))
       <==> exists work :: work in manifests && work.0 == ns && Copies(manifests[work], r)
  {
    var w := CacheConcurrency.Replay(run[|run| - 1].log);
    CacheConcurrency.Linearizable(run);
    forall work | work in w ensures ConfigKey(r) in w[work] <==> Copies(manifests[work], r) {
      ReferencesAreCopies(manifests[work], r);
    }
    assert NamespacesIn(run[|run| - 1].cache.configToMWNs, ConfigKey(r)) == CacheConcurrency.Users(w, ConfigKey(r));
  }
}
