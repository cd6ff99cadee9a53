/** The fields of a PrometheusAgent that the hub enforces (internal/metrics/resource/agentssa.go)
    and that the spoke values later inject (internal/metrics/manifests/values.go). */
module AgentSpec {
  import opened Wrappers
  import opened RemoteWrites

  const OCP_CLASS := "ocp-monitoring"
  const NON_OCP_CLASS := "non-ocp-monitoring"
  const CA_CONFIGMAP := "prometheus-server-ca"
  const TOKEN_FILE := "/var/run/secrets/kubernetes.io/serviceaccount/token"

  datatype ScrapeClass = ScrapeClass(
    name: string,
    relabelings: seq<string>,
    credentialsFile: Option<string>,
    caFile: Option<string>,
    isDefault: Option<bool>,
    other: Option<string>)

  /** `fixed` stands for the enforced constants (image, service account and the like), `free` for
      everything users may set. */
  datatype Spec = Spec(
    secrets: seq<string>,
    remoteWrite: seq<RemoteWrite<string>>,
    scrapeClasses: seq<ScrapeClass>,
    configMaps: seq<string>,
    volumes: seq<string>,
    containers: seq<string>,
    fixed: string,
    free: string)

  datatype Settings = Settings(endpoint: string, fixed: string, proxyVolume: string, proxyContainer: string)

  // ---------------------------------------------------------------- what Build computes

  function WithSecret(secrets: seq<string>, existing: seq<string>, needed: string): seq<string> {
    if needed in existing then secrets else secrets + [needed]
  }

  function BuiltSecrets(existing: seq<string>): seq<string> {
    WithSecret(WithSecret(existing, existing, HUB_CA_SECRET), existing, CLIENT_CERT_SECRET)
  }

  /** The enforced remote write; the user's queue config and timeout override its defaults. */
  function MainRemoteWrite(endpoint: string, found: Option<RemoteWrite<string>>): RemoteWrite<string> {
    var queue := if found.Some? then found.value.queueConfig else None;
    var timeout := if found.Some? && found.value.remoteTimeout.Some? then found.value.remoteTimeout else Some("30s");
    var tls := TLSConfig(SecretPath(HUB_CA_SECRET, CA_KEY), SecretPath(CLIENT_CERT_SECRET, CERT_KEY),
                         SecretPath(CLIENT_CERT_SECRET, KEY_KEY), None);
    RemoteWrite(endpoint, Some(REMOTE_WRITE_NAME), timeout, None, None, None, queue, Some(tls), None, None, None, [], None)
  }

  /** The remote writes that are not the addon's. */
  function Others<R>(rws: seq<RemoteWrite<R>>): seq<RemoteWrite<R>> {
    if rws == [] then []
    else Others(rws[..|rws| - 1]) + if IsMain(rws[|rws| - 1]) then [] else [rws[|rws| - 1]]
  }

  /** The position of the first remote write that is the addon's, or the length of the list. */
  function MainIndex<R>(rws: seq<RemoteWrite<R>>): (k: nat)
    ensures k <= |rws|
    ensures forall i :: 0 <= i < k ==> !IsMain(rws[i])
    ensures k < |rws| ==> IsMain(rws[k])
  {
    if rws == [] || IsMain(rws[0]) then 0 else 1 + MainIndex(rws[1..])
  }

  function BuiltRemoteWrite(rws: seq<RemoteWrite<string>>, endpoint: string): seq<RemoteWrite<string>> {
    var k := MainIndex(rws);
    if k < |rws| then rws[..k] + [MainRemoteWrite(endpoint, Some(rws[k]))] + Others(rws[k + 1..])
    else rws + [MainRemoteWrite(endpoint, None)]
  }

  predicate IsAddonClass(c: ScrapeClass) {
    c.name == OCP_CLASS || c.name == NON_OCP_CLASS
  }

  /** Only the relabelings of the addon's scrape classes are the user's to set. */
  function Scrubbed(c: ScrapeClass): ScrapeClass {
    if IsAddonClass(c) then ScrapeClass(c.name, c.relabelings, None, None, None, None) else c
  }

  function BuiltClasses(cs: seq<ScrapeClass>): (r: seq<ScrapeClass>)
    ensures |r| == |cs|
    ensures forall i :: 0 <= i < |cs| ==> r[i] == Scrubbed(cs[i])
  {
    if cs == [] then [] else BuiltClasses(cs[..|cs| - 1]) + [Scrubbed(cs[|cs| - 1])]
  }

  /** The list without any occurrence of `x`. */
  function Removing(x: string, xs: seq<string>): seq<string> {
    if xs == [] then []
    else Removing(x, xs[..|xs| - 1]) + if xs[|xs| - 1] == x then [] else [xs[|xs| - 1]]
  }

  function Built(existing: Spec, s: Settings): Spec {
    Spec(BuiltSecrets(existing.secrets), BuiltRemoteWrite(existing.remoteWrite, s.endpoint),
         BuiltClasses(existing.scrapeClasses), Removing(CA_CONFIGMAP, existing.configMaps),
         [s.proxyVolume], [s.proxyContainer], s.fixed, "")
  }

  // ---------------------------------------------------------------- the builder

  class PrometheusAgentSSA {
    const existing: Spec
    const settings: Settings
    var desired: Spec

    constructor (existing: Spec, settings: Settings)
      ensures this.existing == existing && this.settings == settings
    {
      this.existing, this.settings := existing, settings;
      desired := Spec([], [], [], [], [], [], "", "");
    }

    method Build()
      modifies this
      ensures desired == Built(existing, settings)
    {
      desired := Spec([], [], [], [], [], [], settings.fixed, "");
      SetRemoteWriteSecrets();
      SetRemoteWriteConfig();
      SetScrapeClasses();
      SetConfigMaps();
      SetKubeRBACProxySidecar();
    }

    method SetRemoteWriteSecrets()
      modifies this
      ensures desired == old(desired).(secrets := BuiltSecrets(existing.secrets))
    {
      var secrets := existing.secrets;
      if HUB_CA_SECRET !in existing.secrets {
        secrets := secrets + [HUB_CA_SECRET];
      }
      if CLIENT_CERT_SECRET !in existing.secrets {
        secrets := secrets + [CLIENT_CERT_SECRET];
      }
      desired := desired.(secrets := secrets);
    }

    method SetRemoteWriteConfig()
      modifies this
      ensures desired == old(desired).(remoteWrite := BuiltRemoteWrite(existing.remoteWrite, settings.endpoint))
    {
      var rws, found := SingleMain(existing.remoteWrite);
      var main := MainRemoteWrite(settings.endpoint, found);
      var index := FirstMain(rws);
      SingleMainIndex(existing.remoteWrite);
      if index < |rws| {
        rws := rws[index := main];
      } else {
        rws := rws + [main];
      }
      desired := desired.(remoteWrite := rws);
    }

    method SetScrapeClasses()
      modifies this
      ensures desired == old(desired).(scrapeClasses := BuiltClasses(existing.scrapeClasses))
    {
      var classes := existing.scrapeClasses;
      for i := 0 to |classes|
        invariant |classes| == |existing.scrapeClasses|
        invariant forall k :: 0 <= k < i ==> classes[k] == Scrubbed(existing.scrapeClasses[k])
        invariant forall k :: i <= k < |classes| ==> classes[k] == existing.scrapeClasses[k]
      {
        var c := classes[i];
        if c.name == OCP_CLASS || c.name == NON_OCP_CLASS {
          classes := classes[i := ScrapeClass(c.name, c.relabelings, None, None, None, None)];
        }
      }
      desired := desired.(scrapeClasses := classes);
    }

    method SetConfigMaps()
      modifies this
      ensures desired == old(desired).(configMaps := Removing(CA_CONFIGMAP, existing.configMaps))
    {
      var kept: seq<string> := [];
      for i := 0 to |existing.configMaps|
        invariant kept == Removing(CA_CONFIGMAP, existing.configMaps[..i])
      {
        assert existing.configMaps[..i + 1][..i] == existing.configMaps[..i];
        if existing.configMaps[i] != CA_CONFIGMAP {
          kept := kept + [existing.configMaps[i]];
        }
      }
      assert existing.configMaps[..|existing.configMaps|] == existing.configMaps;
      desired := desired.(configMaps := kept);
    }

    method SetKubeRBACProxySidecar()
      modifies this
      ensures desired == old(desired).(volumes := old(desired).volumes + [settings.proxyVolume],
                                       containers := old(desired).containers + [settings.proxyContainer])
    {
      desired := desired.(volumes := desired.volumes + [settings.proxyVolume]);
      desired := desired.(containers := desired.containers + [settings.proxyContainer]);
    }
  }

  method FirstMain(rws: seq<RemoteWrite<string>>) returns (index: nat)
    ensures index == MainIndex(rws)
  {
    index := 0;
    while index < |rws| && !IsMain(rws[index])
      invariant index <= |rws| && forall k :: 0 <= k < index ==> !IsMain(rws[k])
    {
      index := index + 1;
    }
  }

  lemma SingleBetween<R>(front: seq<RemoteWrite<R>>, x: RemoteWrite<R>, tail: seq<RemoteWrite<R>>)
    requires IsMain(x)
    requires forall i :: 0 <= i < |front| ==> !IsMain(front[i])
    requires forall i :: 0 <= i < |tail| ==> !IsMain(tail[i])
    ensures SingleAt(front + [x] + tail, |front|) && (front + [x] + tail)[|front|] == x
  {
    var all, k := front + [x] + tail, |front|;
    forall i | 0 <= i < |all| ensures IsMain(all[i]) <==> i == k {
      if i < k {
        assert all[i] == front[i];
      } else if i > k {
        assert all[i] == tail[i - k - 1];
      }
    }
  }

  lemma MainIndexBetween<R>(front: seq<RemoteWrite<R>>, x: RemoteWrite<R>, tail: seq<RemoteWrite<R>>)
    requires IsMain(x)
    requires forall i :: 0 <= i < |front| ==> !IsMain(front[i])
    requires forall i :: 0 <= i < |tail| ==> !IsMain(tail[i])
    ensures MainIndex(front + [x] + tail) == |front|
  {
    SingleBetween(front, x, tail);
    MainIndexUnique(front + [x] + tail, |front|);
  }

  /** The list without the later ones. */
  function Single(rws: seq<RemoteWrite<string>>): seq<RemoteWrite<string>> {
    var k := MainIndex(rws);
    if k < |rws| then rws[..k] + [rws[k]] + Others(rws[k + 1..]) else rws
  }

  /** Deleting the later ones does not move the first. */
  lemma SingleMainIndex(rws: seq<RemoteWrite<string>>)
    ensures MainIndex(Single(rws)) == MainIndex(rws)
  {
    var k := MainIndex(rws);
    if k < |rws| {
      OthersOnly(rws[k + 1..]);
      MainIndexBetween(rws[..k], rws[k], Others(rws[k + 1..]));
    }
  }

  function FirstOf(rws: seq<RemoteWrite<string>>): Option<RemoteWrite<string>> {
    var k := MainIndex(rws);
    if k < |rws| then Some(rws[k]) else None
  }

  lemma {:induction false} MainIndexSnoc(rws: seq<RemoteWrite<string>>, x: RemoteWrite<string>)
    ensures MainIndex(rws + [x]) == if MainIndex(rws) < |rws| || IsMain(x) then MainIndex(rws) else |rws| + 1
  {
    if rws == [] {
      assert [] + [x] == [x] && [x][1..] == [];
    } else if !IsMain(rws[0]) {
      assert (rws + [x])[1..] == rws[1..] + [x];
      MainIndexSnoc(rws[1..], x);
    }
  }

  lemma SingleSnocFound(rws: seq<RemoteWrite<string>>, x: RemoteWrite<string>)
    requires FirstOf(rws).Some?
    ensures FirstOf(rws + [x]) == FirstOf(rws)
    ensures Single(rws + [x]) == if IsMain(x) then Single(rws) else Single(rws) + [x]
  {
    hide MainIndex, Others, IsMain;
    var k, all := MainIndex(rws), rws + [x];
    MainIndexSnoc(rws, x);
    assert all[k + 1..] == rws[k + 1..] + [x] && all[..k] == rws[..k] && all[k] == rws[k];
    OthersConcat(rws[k + 1..], [x]);
    OthersOne(x);
  }

  lemma SingleSnoc(rws: seq<RemoteWrite<string>>, x: RemoteWrite<string>)
    ensures FirstOf(rws + [x]) == if FirstOf(rws).None? && IsMain(x) then Some(x) else FirstOf(rws)
    ensures Single(rws + [x]) == if FirstOf(rws).Some? && IsMain(x) then Single(rws) else Single(rws) + [x]
  {
    hide MainIndex;
    if FirstOf(rws).Some? {
      SingleSnocFound(rws, x);
    } else {
      var all := rws + [x];
      MainIndexSnoc(rws, x);
      if IsMain(x) {
        assert all[..|rws|] == rws && all[|rws| + 1..] == [];
      }
    }
  }

  /** Deletes every remote write of the addon but the first, which it also returns. */
  method SingleMain(rws: seq<RemoteWrite<string>>) returns (kept: seq<RemoteWrite<string>>, found: Option<RemoteWrite<string>>)
    ensures found == FirstOf(rws) && kept == Single(rws)
  {
    found := None;
    kept := [];
    for i := 0 to |rws|
      invariant found == FirstOf(rws[..i]) && kept == Single(rws[..i])
    {
      assert rws[..i + 1] == rws[..i] + [rws[i]];
      SingleSnoc(rws[..i], rws[i]);
      if !IsMain(rws[i]) {
        kept := kept + [rws[i]];
      } else if found.None? {
        found := Some(rws[i]);
        kept := kept + [rws[i]];
      }
    }
    assert rws[..|rws|] == rws;
  }

  // ---------------------------------------------------------------- remote writes

  lemma {:induction false} OthersConcat<R>(xs: seq<RemoteWrite<R>>, ys: seq<RemoteWrite<R>>)
    ensures Others(xs + ys) == Others(xs) + Others(ys)
  {
    if ys == [] {
      assert xs + ys == xs;
    } else {
      var init := ys[..|ys| - 1];
      assert (xs + ys)[..|xs + ys| - 1] == xs + init;
      OthersConcat(xs, init);
    }
  }

  lemma {:induction false} OthersOnly<R>(xs: seq<RemoteWrite<R>>)
    ensures forall i :: 0 <= i < |Others(xs)| ==> !IsMain(Others(xs)[i])
    ensures Others(Others(xs)) == Others(xs)
  {
    if xs != [] {
      var init, last := xs[..|xs| - 1], xs[|xs| - 1];
      OthersOnly(init);
      if !IsMain(last) {
        OthersConcat(Others(init), [last]);
        assert [last][..0] == [];
      } else {
        assert Others(xs) == Others(init);
      }
    }
  }

  lemma {:induction false} OthersAll<R>(xs: seq<RemoteWrite<R>>)
    requires forall i :: 0 <= i < |xs| ==> !IsMain(xs[i])
    ensures Others(xs) == xs
  {
    if xs != [] {
      OthersAll(xs[..|xs| - 1]);
    }
  }

  lemma OthersOne<R>(x: RemoteWrite<R>)
    ensures Others([x]) == if IsMain(x) then [] else [x]
  {
    assert [x][..0] == [];
    assert Others([x][..0]) == [];
  }

  ghost predicate SingleAt<R>(rws: seq<RemoteWrite<R>>, k: nat) {
    k < |rws| && forall i :: 0 <= i < |rws| ==> (IsMain(rws[i]) <==> i == k)
  }

  lemma BuiltKeepsOthers(rws: seq<RemoteWrite<string>>, endpoint: string)
    ensures Others(BuiltRemoteWrite(rws, endpoint)) == Others(rws)
  {
    var k := MainIndex(rws);
    if k < |rws| {
      var front, main, tail := rws[..k], MainRemoteWrite(endpoint, Some(rws[k])), rws[k + 1..];
      assert rws == front + [rws[k]] + tail;
      OthersOnly(tail);
      OthersConcat(front + [main], Others(tail));
      OthersConcat(front, [main]);
      OthersConcat(front + [rws[k]], tail);
      OthersConcat(front, [rws[k]]);
      OthersOne(main);
      OthersOne(rws[k]);
    } else {
      OthersConcat(rws, [MainRemoteWrite(endpoint, None)]);
      OthersOne(MainRemoteWrite(endpoint, None));
    }
  }

  lemma BuiltHasSingle(rws: seq<RemoteWrite<string>>, endpoint: string)
    ensures SingleAt(BuiltRemoteWrite(rws, endpoint), MainIndex(rws))
    ensures BuiltRemoteWrite(rws, endpoint)[MainIndex(rws)] ==
            MainRemoteWrite(endpoint, if MainIndex(rws) < |rws| then Some(rws[MainIndex(rws)]) else None)
  {
    hide MainIndex, Others;
    var k := MainIndex(rws);
    if k < |rws| {
      OthersOnly(rws[k + 1..]);
      SingleBetween(rws[..k], MainRemoteWrite(endpoint, Some(rws[k])), Others(rws[k + 1..]));
    } else {
      SingleBetween(rws, MainRemoteWrite(endpoint, None), []);
      assert rws + [MainRemoteWrite(endpoint, None)] + [] == rws + [MainRemoteWrite(endpoint, None)];
    }
  }

  /** Exactly one remote write is the addon's, in the place of the first one there was; the others
      keep their content and order; the user's queue config and timeout survive. */
  lemma RemoteWriteEnforced(rws: seq<RemoteWrite<string>>, endpoint: string)
    ensures var r, k := BuiltRemoteWrite(rws, endpoint), MainIndex(rws);
      && SingleAt(r, k)
      && Others(r) == Others(rws)
      && r[k].name == Some("acm-observability") && r[k].url == endpoint
      && r[k].tls == Some(TLSConfig("/etc/prometheus/secrets/" + HUB_CA_SECRET + "/ca.crt",
                                    "/etc/prometheus/secrets/" + CLIENT_CERT_SECRET + "/tls.crt",
                                    "/etc/prometheus/secrets/" + CLIENT_CERT_SECRET + "/tls.key", None))
      && r[k].(url := "", name := None, tls := None, queueConfig := None, remoteTimeout := None) == RulesOnly([])
      && (k < |rws| ==> r[k].queueConfig == rws[k].queueConfig)
      && (k < |rws| && rws[k].remoteTimeout.Some? ==> r[k].remoteTimeout == rws[k].remoteTimeout)
      && (k == |rws| || rws[k].remoteTimeout.None? ==> r[k].remoteTimeout == Some("30s"))
  {
    hide MainRemoteWrite, MainIndex, Others, BuiltRemoteWrite;
    BuiltKeepsOthers(rws, endpoint);
    BuiltHasSingle(rws, endpoint);
    MainIs(endpoint, FirstOf(rws));
  }

  /** What is enforced on the addon's remote write, and what the user may set. */
  lemma MainIs(endpoint: string, found: Option<RemoteWrite<string>>)
    ensures var r := MainRemoteWrite(endpoint, found);
      && r.name == Some("acm-observability") && r.url == endpoint
      && r.tls == Some(TLSConfig("/etc/prometheus/secrets/" + HUB_CA_SECRET + "/ca.crt",
                                 "/etc/prometheus/secrets/" + CLIENT_CERT_SECRET + "/tls.crt",
                                 "/etc/prometheus/secrets/" + CLIENT_CERT_SECRET + "/tls.key", None))
      && r.(url := "", name := None, tls := None, queueConfig := None, remoteTimeout := None) == RulesOnly([])
      && r.queueConfig == (if found.Some? then found.value.queueConfig else None)
      && r.remoteTimeout == if found.Some? && found.value.remoteTimeout.Some? then found.value.remoteTimeout else Some("30s")
  {
    assert SecretPath(HUB_CA_SECRET, CA_KEY) == "/etc/prometheus/secrets/" + HUB_CA_SECRET + "/ca.crt";
    assert SecretPath(CLIENT_CERT_SECRET, CERT_KEY) == "/etc/prometheus/secrets/" + CLIENT_CERT_SECRET + "/tls.crt";
    assert SecretPath(CLIENT_CERT_SECRET, KEY_KEY) == "/etc/prometheus/secrets/" + CLIENT_CERT_SECRET + "/tls.key";
  }

  lemma MainIndexUnique<R>(rws: seq<RemoteWrite<R>>, k: nat)
    requires SingleAt(rws, k)
    ensures MainIndex(rws) == k
  {
    assert MainIndex(rws) < |rws| ==> IsMain(rws[MainIndex(rws)]);
    assert IsMain(rws[k]);
  }

  lemma MainRebuilt(endpoint: string, found: Option<RemoteWrite<string>>)
    ensures MainRemoteWrite(endpoint, Some(MainRemoteWrite(endpoint, found))) == MainRemoteWrite(endpoint, found)
  {
  }

  lemma SingleRebuilt(r: seq<RemoteWrite<string>>, k: nat, endpoint: string)
    requires SingleAt(r, k) && MainRemoteWrite(endpoint, Some(r[k])) == r[k]
    ensures BuiltRemoteWrite(r, endpoint) == r
  {
    MainIndexUnique(r, k);
    OthersAll(r[k + 1..]);
    assert r == r[..k] + [r[k]] + r[k + 1..];
  }

  lemma RemoteWriteFixpoint(rws: seq<RemoteWrite<string>>, endpoint: string)
    ensures BuiltRemoteWrite(BuiltRemoteWrite(rws, endpoint), endpoint) == BuiltRemoteWrite(rws, endpoint)
  {
    var k := MainIndex(rws);
    BuiltHasSingle(rws, endpoint);
    MainRebuilt(endpoint, if k < |rws| then Some(rws[k]) else None);
    SingleRebuilt(BuiltRemoteWrite(rws, endpoint), k, endpoint);
  }

  // ---------------------------------------------------------------- the other lists

  lemma {:induction false} RemovingHas(x: string, xs: seq<string>, y: string)
    ensures y in Removing(x, xs) <==> y in xs && y != x
  {
    if xs != [] {
      RemovingHas(x, xs[..|xs| - 1], y);
      assert xs == xs[..|xs| - 1] + [xs[|xs| - 1]];
    }
  }

  lemma {:induction false} RemovingNothing(x: string, xs: seq<string>)
    requires x !in xs
    ensures Removing(x, xs) == xs
  {
    if xs != [] {
      assert xs == xs[..|xs| - 1] + [xs[|xs| - 1]];
      RemovingNothing(x, xs[..|xs| - 1]);
    }
  }

  lemma {:induction false} RemovingConcat(x: string, xs: seq<string>, ys: seq<string>)
    ensures Removing(x, xs + ys) == Removing(x, xs) + Removing(x, ys)
  {
    if ys == [] {
      assert xs + ys == xs;
    } else {
      assert (xs + ys)[..|xs + ys| - 1] == xs + ys[..|ys| - 1];
      RemovingConcat(x, xs, ys[..|ys| - 1]);
    }
  }

  /** Both secrets are listed, the user's come first, and none is listed twice unless it was. */
  lemma SecretsEnforced(existing: seq<string>)
    ensures var r := BuiltSecrets(existing);
      && HUB_CA_SECRET in r && CLIENT_CERT_SECRET in r
      && (forall s :: s in r <==> s in existing || s == HUB_CA_SECRET || s == CLIENT_CERT_SECRET)
      && ((forall i, j :: 0 <= i < j < |existing| ==> existing[i] != existing[j]) ==>
          forall i, j :: 0 <= i < j < |r| ==> r[i] != r[j])
  {
    assert HUB_CA_SECRET != CLIENT_CERT_SECRET;
  }

  /** The missing ones are appended, the CA first. */
  lemma SecretsAppended(existing: seq<string>)
    ensures BuiltSecrets(existing) ==
      existing + (if HUB_CA_SECRET in existing then [] else [HUB_CA_SECRET])
               + (if CLIENT_CERT_SECRET in existing then [] else [CLIENT_CERT_SECRET])
  {
  }

  // ---------------------------------------------------------------- Build is a fixpoint

  /** The stored agent after its enforced fields are overwritten by the built ones. */
  function Overwritten(existing: Spec, built: Spec): Spec {
    built.(free := existing.free)
  }

  /** Rebuilding from an agent that holds the built fields changes nothing. */
  lemma BuildFixpoint(existing: Spec, s: Settings)
    ensures var once := Overwritten(existing, Built(existing, s)); Overwritten(once, Built(once, s)) == once
  {
    var once := Overwritten(existing, Built(existing, s));
    RemoteWriteFixpoint(existing.remoteWrite, s.endpoint);
    SecretsEnforced(existing.secrets);
    assert BuiltSecrets(once.secrets) == once.secrets;
    assert BuiltClasses(once.scrapeClasses) == once.scrapeClasses;
    RemovingHas(CA_CONFIGMAP, existing.configMaps, CA_CONFIGMAP);
    RemovingNothing(CA_CONFIGMAP, once.configMaps);
  }

  // ---------------------------------------------------------------- spoke-side injection

  /** The position of the first scrape class with this name, or the length of the list. */
  function ClassIndex(cs: seq<ScrapeClass>, name: string): (k: nat)
    ensures k <= |cs|
    ensures forall i :: 0 <= i < k ==> cs[i].name != name
    ensures k < |cs| ==> cs[k].name == name
  {
    if cs == [] || cs[0].name == name then 0 else 1 + ClassIndex(cs[1..], name)
  }

  function OcpClass(relabelings: seq<string>): ScrapeClass {
    ScrapeClass(OCP_CLASS, relabelings, Some(TOKEN_FILE), Some("/etc/prometheus/configmaps/" + CA_CONFIGMAP + "/service-ca.crt"), Some(true), None)
  }

  function InjectedClasses(cs: seq<ScrapeClass>): seq<ScrapeClass> {
    var k := ClassIndex(cs, OCP_CLASS);
    if k < |cs| then cs[k := OcpClass(cs[k].relabelings)] else cs + [OcpClass([])]
  }

  function InjectedConfigMaps(cms: seq<string>): seq<string> {
    if CA_CONFIGMAP in cms then cms else cms + [CA_CONFIGMAP]
  }

  function Injected(spec: Spec): Spec {
    spec.(configMaps := InjectedConfigMaps(spec.configMaps), scrapeClasses := InjectedClasses(spec.scrapeClasses))
  }

  class SpokeAgent {
    var spec: Spec

    constructor (spec: Spec)
      ensures this.spec == spec
    {
      this.spec := spec;
    }

    method ConfigureForOCP()
      modifies this
      ensures spec == Injected(old(spec))
    {
      if CA_CONFIGMAP !in spec.configMaps {
        spec := spec.(configMaps := spec.configMaps + [CA_CONFIGMAP]);
      }
      var desiredScrapeClass := OcpClass([]);
      var classes := spec.scrapeClasses;
      var index := 0;
      while index < |classes| && classes[index].name != desiredScrapeClass.name
        invariant index <= |classes| && forall k :: 0 <= k < index ==> classes[k].name != OCP_CLASS
      {
        index := index + 1;
      }
      if index < |classes| {
        if |classes[index].relabelings| > 0 {
          desiredScrapeClass := desiredScrapeClass.(relabelings := classes[index].relabelings);
        }
        classes := classes[index := desiredScrapeClass];
      } else {
        classes := classes + [desiredScrapeClass];
      }
      spec := spec.(scrapeClasses := classes);
    }
  }

  /** What the spoke receives after the hub scrubbed the user's spec and the values logic injected
      its settings: the CA configmap exactly once, after the user's others in their order; the
      first `ocp-monitoring` class with the addon's settings and the user's relabelings; all other
      user classes as the hub left them, in their places. */
  lemma ScrubThenInject(existing: Spec, s: Settings)
    ensures var r, k := Injected(Built(existing, s)), ClassIndex(existing.scrapeClasses, OCP_CLASS);
      && r.configMaps == Removing(CA_CONFIGMAP, existing.configMaps) + [CA_CONFIGMAP]
      && CA_CONFIGMAP !in Removing(CA_CONFIGMAP, existing.configMaps)
      && |r.scrapeClasses| == (if k < |existing.scrapeClasses| then |existing.scrapeClasses| else k + 1)
      && r.scrapeClasses[k] == ScrapeClass(
           "ocp-monitoring", if k < |existing.scrapeClasses| then existing.scrapeClasses[k].relabelings else [],
           Some("/var/run/secrets/kubernetes.io/serviceaccount/token"),
           Some("/etc/prometheus/configmaps/" + CA_CONFIGMAP + "/service-ca.crt"), Some(true), None)
      && (forall i :: 0 <= i < |existing.scrapeClasses| && i != k ==>
            var c := existing.scrapeClasses[i];
            r.scrapeClasses[i] ==
              if c.name == "ocp-monitoring" || c.name == "non-ocp-monitoring" then ScrapeClass(c.name, c.relabelings, None, None, None, None)
              else c)
  {
    RemovingHas(CA_CONFIGMAP, existing.configMaps, CA_CONFIGMAP);
    ScrubKeepsIndex(existing.scrapeClasses);
  }

  lemma ScrubKeepsIndex(cs: seq<ScrapeClass>)
    ensures ClassIndex(BuiltClasses(cs), OCP_CLASS) == ClassIndex(cs, OCP_CLASS)
  {
    assert forall i :: 0 <= i < |cs| ==> BuiltClasses(cs)[i].name == cs[i].name;
  }

  /** Injecting again changes nothing. */
  lemma InjectIdempotent(spec: Spec)
    ensures Injected(Injected(spec)) == Injected(spec)
  {
    var cs := spec.scrapeClasses;
    var once := InjectedClasses(cs);
    var k := ClassIndex(cs, OCP_CLASS);
    assert ClassIndex(once, OCP_CLASS) == k by {
      var k' := ClassIndex(once, OCP_CLASS);
      assert once[k].name == OCP_CLASS;
    }
    assert once[k := OcpClass(once[k].relabelings)] == once;
  }

  lemma RemovingLast(x: string, xs: seq<string>)
    requires x !in xs
    ensures Removing(x, xs + [x]) == xs
  {
    RemovingConcat(x, xs, [x]);
    RemovingNothing(x, xs);
    assert [x][..0] == [];
    assert Removing(x, [x][..0]) == [];
  }

  lemma BuiltClassesTwice(cs: seq<ScrapeClass>)
    ensures BuiltClasses(BuiltClasses(cs)) == BuiltClasses(cs)
  {
  }

  /** The hub's scrub takes the injection back, up to the class the injection had to add. */
  lemma ScrubUndoesInject(existing: Spec, s: Settings)
    ensures var built := Built(existing, s); var again := Built(Injected(built), s);
      && again.configMaps == built.configMaps
      && again.scrapeClasses == built.scrapeClasses +
           (if ClassIndex(existing.scrapeClasses, OCP_CLASS) < |existing.scrapeClasses| then [] else [Scrubbed(OcpClass([]))])
  {
    hide Removing, ClassIndex, BuiltClasses, BuiltSecrets, BuiltRemoteWrite, OcpClass, Scrubbed;
    assert BuiltClasses(BuiltClasses(existing.scrapeClasses)) == BuiltClasses(existing.scrapeClasses) by {
      BuiltClassesTwice(existing.scrapeClasses);
    }
    RemovingHas(CA_CONFIGMAP, existing.configMaps, CA_CONFIGMAP);
    RemovingLast(CA_CONFIGMAP, Removing(CA_CONFIGMAP, existing.configMaps));
    ScrubKeepsIndex(existing.scrapeClasses);
    ClassesScrubbedBack(BuiltClasses(existing.scrapeClasses));
  }

  lemma ScrubForgets(c: ScrapeClass)
    requires c.name == OCP_CLASS
    ensures Scrubbed(OcpClass(c.relabelings)) == Scrubbed(c)
  {
  }

  lemma UpdateScrubbedBack(cs: seq<ScrapeClass>, k: nat, c: ScrapeClass)
    requires k < |cs| && BuiltClasses(cs) == cs && Scrubbed(c) == Scrubbed(cs[k])
    ensures BuiltClasses(cs[k := c]) == cs
  {
    var r := BuiltClasses(cs[k := c]);
    forall i | 0 <= i < |cs| ensures r[i] == cs[i] {
      assert BuiltClasses(cs)[i] == Scrubbed(cs[i]);
    }
  }

  lemma SnocScrubbed(cs: seq<ScrapeClass>, c: ScrapeClass)
    ensures BuiltClasses(cs + [c]) == BuiltClasses(cs) + [Scrubbed(c)]
  {
  }

  lemma ClassesScrubbedBack(cs: seq<ScrapeClass>)
    requires BuiltClasses(cs) == cs
    ensures var k := ClassIndex(cs, OCP_CLASS);
      BuiltClasses(InjectedClasses(cs)) == if k < |cs| then cs else cs + [Scrubbed(OcpClass([]))]
  {
    var k := ClassIndex(cs, OCP_CLASS);
    if k < |cs| {
      ScrubForgets(cs[k]);
      UpdateScrubbedBack(cs, k, OcpClass(cs[k].relabelings));
    } else {
      SnocScrubbed(cs, OcpClass([]));
    }
  }

  // ---------------------------------------------------------------- when the hub applies the spec

  /** The addon skips the apply when the built spec is "derivative" of the stored one, which for
      lists means an element-wise prefix and for everything else that unset parts count as equal. */
  predicate DerivativeOption<T(==)>(a: Option<T>, b: Option<T>) {
    a.Some? ==> a == b
  }

  predicate DerivativeTLS(a: TLSConfig, b: TLSConfig) {
    && (a.caFile == "" || a.caFile == b.caFile)
    && (a.certFile == "" || a.certFile == b.certFile)
    && (a.keyFile == "" || a.keyFile == b.keyFile)
    && DerivativeOption(a.safe, b.safe)
  }

  predicate DerivativeClass(a: ScrapeClass, b: ScrapeClass) {
    && (a.name == "" || a.name == b.name)
    && a.relabelings <= b.relabelings
    && DerivativeOption(a.credentialsFile, b.credentialsFile) && DerivativeOption(a.caFile, b.caFile)
    && DerivativeOption(a.isDefault, b.isDefault) && DerivativeOption(a.other, b.other)
  }

  predicate DerivativeRemoteWrite(a: RemoteWrite<string>, b: RemoteWrite<string>) {
    && (a.url == "" || a.url == b.url)
    && DerivativeOption(a.name, b.name) && DerivativeOption(a.remoteTimeout, b.remoteTimeout)
    && DerivativeOption(a.basicAuth, b.basicAuth) && DerivativeOption(a.authorization, b.authorization)
    && DerivativeOption(a.oauth2, b.oauth2) && DerivativeOption(a.queueConfig, b.queueConfig)
    && (a.tls.Some? ==> b.tls.Some? && DerivativeTLS(a.tls.value, b.tls.value)) && DerivativeOption(a.proxyURL, b.proxyURL)
    && DerivativeOption(a.noProxy, b.noProxy) && DerivativeOption(a.headers, b.headers)
    && a.rules <= b.rules && DerivativeOption(a.other, b.other)
  }

  predicate Derivative(a: Spec, b: Spec) {
    && a.secrets <= b.secrets
    && |a.remoteWrite| <= |b.remoteWrite| && (forall i :: 0 <= i < |a.remoteWrite| ==> DerivativeRemoteWrite(a.remoteWrite[i], b.remoteWrite[i]))
    && |a.scrapeClasses| <= |b.scrapeClasses| && (forall i :: 0 <= i < |a.scrapeClasses| ==> DerivativeClass(a.scrapeClasses[i], b.scrapeClasses[i]))
    && a.configMaps <= b.configMaps && a.volumes <= b.volumes && a.containers <= b.containers
    && (a.fixed == "" || a.fixed == b.fixed) && (a.free == "" || a.free == b.free)
  }

  /** The stored agent after one pass of the hub. */
  function Enforced(existing: Spec, s: Settings): Spec {
    var built := Built(existing, s);
    if Derivative(built, existing) then existing else Overwritten(existing, built)
  }

  lemma DerivativeReflexive(a: Spec)
    ensures Derivative(a.(free := ""), a)
  {
  }

  /** A second pass leaves the agent alone. */
  lemma EnforceIdempotent(existing: Spec, s: Settings)
    ensures Enforced(Enforced(existing, s), s) == Enforced(existing, s)
  {
    var once := Overwritten(existing, Built(existing, s));
    BuildFixpoint(existing, s);
    assert Built(once, s) == once.(free := "");
    DerivativeReflexive(once);
  }
}
