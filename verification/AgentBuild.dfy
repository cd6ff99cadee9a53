/** Building the agent that is sent to a managed cluster and collecting the secrets it mounts
    (internal/metrics/handlers/handler.go). */
module AgentBuild {
  import opened Config
  import opened Wrappers
  import opened RemoteWrites
  import opened AgentSpec

  const ACCESSOR_SECRET := "observability-alertmanager-accessor"

  datatype Address = Address(namespace: string, name: string)

  /** A copied secret or configmap; an empty namespace stands for the addon's install namespace. */
  datatype Copy = Copy(name: string, namespace: string, data: string, original: string)

  /** The objects of one kind stored on the hub. */
  type Store = map<Address, string>

  function Original(a: Address): string {
    a.namespace + "/" + a.name
  }

  predicate Has(copies: seq<Copy>, name: string, namespace: string) {
    exists i :: 0 <= i < |copies| && copies[i].name == name && copies[i].namespace == namespace
  }

  /** The list after copying `source` to the target address, unless the target is already there. */
  function Added(copies: seq<Copy>, store: Store, source: Address, name: string, namespace: string): (r: Result<seq<Copy>, string>)
    ensures r.Ok? ==> copies <= r.value && Has(r.value, name, namespace)
  {
    if Has(copies, name, namespace) then Ok(copies)
    else if source !in store then Err("not found")
    else
      var r := copies + [Copy(name, namespace, store[source], Original(source))];
      assert r[|copies|].name == name;
      Ok(r)
  }

  /** No target address occurs twice. */
  ghost predicate Unique(copies: seq<Copy>) {
    forall i, j :: 0 <= i < j < |copies| ==> copies[i].name != copies[j].name || copies[i].namespace != copies[j].namespace
  }

  lemma AddedKeepsUnique(copies: seq<Copy>, store: Store, source: Address, name: string, namespace: string)
    requires Unique(copies)
    ensures var r := Added(copies, store, source, name, namespace); r.Ok? ==> Unique(r.value)
  {
  }

  // ---------------------------------------------------------------- names on the managed cluster

  /** strings.ReplaceAll(s, "-", "") */
  function WithoutDashes(s: string): string {
    if s == "" then "" else (if s[0] == '-' then "" else [s[0]]) + WithoutDashes(s[1..])
  }

  function TrimmedClusterID(clusterID: string): (r: string)
    ensures |r| <= 19
  {
    var s := WithoutDashes(clusterID);
    if |s| <= 19 then s else s[..19]
  }

  lemma {:induction false} WithoutDashesConcat(a: string, b: string)
    ensures WithoutDashes(a + b) == WithoutDashes(a) + WithoutDashes(b)
  {
    if a == "" {
      assert a + b == b;
    } else {
      assert (a + b)[1..] == a[1..] + b;
      WithoutDashesConcat(a[1..], b);
    }
  }

  lemma {:induction false} NoDashes(s: string)
    ensures '-' !in WithoutDashes(s)
    ensures '-' !in s ==> WithoutDashes(s) == s
  {
    if s != "" {
      assert s == [s[0]] + s[1..];
      NoDashes(s[1..]);
    }
  }

  /** A trimmed id is the first 19 characters of the id without its dashes. */
  lemma TrimmedIs(a: string, b: string)
    ensures '-' !in TrimmedClusterID(a)
    ensures '-' !in a ==> TrimmedClusterID(a) == if |a| <= 19 then a else a[..19]
    ensures TrimmedClusterID(a + "-" + b) == TrimmedClusterID(a + b)
  {
    hide WithoutDashes;
    OneDash();
    NoDashes(a);
    WithoutDashesConcat(a + "-", b);
    WithoutDashesConcat(a, "-");
    WithoutDashesConcat(a, b);
  }

  lemma OneDash()
    ensures WithoutDashes("-") == ""
  {
  }

  function CaTarget(hubID: string): string {
    "hub-mtls-ca-" + TrimmedClusterID(hubID)
  }

  function CertTarget(hubID: string): string {
    "hub-mtls-cert-" + TrimmedClusterID(hubID)
  }

  function AccessorTarget(hubID: string): string {
    ACCESSOR_SECRET + "-" + TrimmedClusterID(hubID)
  }

  function Renamed(hubID: string, secret: string): string {
    if secret == HUB_CA_SECRET then CaTarget(hubID)
    else if secret == CLIENT_CERT_SECRET then CertTarget(hubID)
    else secret
  }

  /** Where the secret mounted under this name comes from. */
  function SourceOf(hubID: string, agentNamespace: string, secret: string): Address {
    if secret == CaTarget(hubID) then Address(HUB_NS, HUB_CA_SECRET)
    else if secret == CertTarget(hubID) then Address(HUB_NS, CLIENT_CERT_SECRET)
    else if secret == AccessorTarget(hubID) then Address(HUB_NS, ACCESSOR_SECRET)
    else Address(agentNamespace, secret)
  }

  // ---------------------------------------------------------------- what the build computes

  datatype Proxy = Proxy(url: string, noProxy: string)

  /** The parts of the cluster's options the build reads; `rules` are the write relabel rules of
      the cluster, `free` the settings that overwrite user fields. */
  datatype Target = Target(hubID: string, rules: seq<string>, proxy: Option<Proxy>, free: string)

  function RenamedAll(hubID: string, secrets: seq<string>): (r: seq<string>)
    ensures |r| == |secrets|
    ensures forall i :: 0 <= i < |secrets| ==> r[i] == Renamed(hubID, secrets[i])
  {
    seq(|secrets|, i requires 0 <= i < |secrets| => Renamed(hubID, secrets[i]))
  }

  function Relabeled(rw: RemoteWrite<string>, t: Target): RemoteWrite<string> {
    var r := rw.(rules := rw.rules + t.rules);
    if t.proxy.None? then r else r.(proxyURL := Some(t.proxy.value.url), noProxy := Some(t.proxy.value.noProxy))
  }

  function WithTargetFiles(rw: RemoteWrite<string>, hubID: string): RemoteWrite<string> {
    if rw.tls.None? then rw
    else rw.(tls := Some(rw.tls.value.(caFile := SecretPath(CaTarget(hubID), CA_KEY),
                                       certFile := SecretPath(CertTarget(hubID), CERT_KEY),
                                       keyFile := SecretPath(CertTarget(hubID), KEY_KEY))))
  }

  /** All remote writes get the cluster's rules and proxy; the main one also gets the files of the
      renamed secrets. */
  function BuiltRemoteWrites(rws: seq<RemoteWrite<string>>, t: Target): (r: seq<RemoteWrite<string>>)
    ensures |r| == |rws|
    ensures forall i :: 0 <= i < |rws| ==>
      r[i] == if i == MainIndex(rws) then WithTargetFiles(Relabeled(rws[i], t), t.hubID) else Relabeled(rws[i], t)
  {
    seq(|rws|, i requires 0 <= i < |rws| =>
      if i == MainIndex(rws) then WithTargetFiles(Relabeled(rws[i], t), t.hubID) else Relabeled(rws[i], t))
  }

  function BuiltAgent(spec: Spec, t: Target): Spec {
    spec.(secrets := RenamedAll(t.hubID, spec.secrets), remoteWrite := BuiltRemoteWrites(spec.remoteWrite, t), free := t.free)
  }

  /** The copies after fetching the mounted secrets, in order. */
  function Fetched(copies: seq<Copy>, store: Store, hubID: string, namespace: string, names: seq<string>): (r: Result<seq<Copy>, string>)
    ensures r.Ok? ==> copies <= r.value
  {
    if names == [] then Ok(copies)
    else
      var last := names[|names| - 1];
      var before :- Fetched(copies, store, hubID, namespace, names[..|names| - 1]);
      Added(before, store, SourceOf(hubID, namespace, last), last, "")
  }

  /** The copies after fetching the mounted configmaps, in order. */
  function FetchedMaps(copies: seq<Copy>, store: Store, namespace: string, names: seq<string>): (r: Result<seq<Copy>, string>)
    ensures r.Ok? ==> copies <= r.value
  {
    if names == [] then Ok(copies)
    else
      var last := names[|names| - 1];
      var before :- FetchedMaps(copies, store, namespace, names[..|names| - 1]);
      Added(before, store, Address(namespace, last), last, "")
  }

  /** A step that failed stays failed. */
  lemma {:induction false} FetchStopsAtError(copies: seq<Copy>, store: Store, hubID: string, namespace: string, names: seq<string>, i: nat)
    requires i <= |names| && Fetched(copies, store, hubID, namespace, names[..i]).Err?
    ensures Fetched(copies, store, hubID, namespace, names).Err?
    decreases |names|
  {
    if i == |names| {
      assert names[..i] == names;
    } else {
      var init := names[..|names| - 1];
      assert init[..i] == names[..i];
      FetchStopsAtError(copies, store, hubID, namespace, init, i);
    }
  }

  lemma {:induction false} FetchMapsStopsAtError(copies: seq<Copy>, store: Store, namespace: string, names: seq<string>, i: nat)
    requires i <= |names| && FetchedMaps(copies, store, namespace, names[..i]).Err?
    ensures FetchedMaps(copies, store, namespace, names).Err?
    decreases |names|
  {
    if i == |names| {
      assert names[..i] == names;
    } else {
      var init := names[..|names| - 1];
      assert init[..i] == names[..i];
      FetchMapsStopsAtError(copies, store, namespace, init, i);
    }
  }

  /** The copies after adding the hub's mTLS secrets and the accessor secret for one namespace. */
  function WithMtls(copies: seq<Copy>, store: Store, hubID: string, namespace: string): (r: Result<seq<Copy>, string>)
    ensures r.Ok? ==> copies <= r.value
  {
    var ca :- Added(copies, store, Address(HUB_NS, HUB_CA_SECRET), CaTarget(hubID), namespace);
    var cert :- Added(ca, store, Address(HUB_NS, CLIENT_CERT_SECRET), CertTarget(hubID), namespace);
    Added(cert, store, Address(HUB_NS, ACCESSOR_SECRET), AccessorTarget(hubID), namespace)
  }

  const PLATFORM_NS := "openshift-monitoring"
  const UWL_NS := "openshift-user-workload-monitoring"

  /** The copies after adding what the Alertmanager configuration of the cluster needs. */
  function WithAlertmanager(copies: seq<Copy>, store: Store, hubID: string, platform: bool, userWorkloads: bool, isOCP: bool)
    : (r: Result<seq<Copy>, string>)
    ensures r.Ok? ==> copies <= r.value
  {
    var first :- if platform then WithMtls(copies, store, hubID, if isOCP then PLATFORM_NS else "") else Ok(copies);
    if isOCP && userWorkloads then WithMtls(first, store, hubID, UWL_NS) else Ok(first)
  }

  // ---------------------------------------------------------------- the builder

  class OptionsBuilder {
    const secretStore: Store
    const configMapStore: Store
    var secrets: seq<Copy>
    var configMaps: seq<Copy>

    constructor (secretStore: Store, configMapStore: Store)
      ensures this.secretStore == secretStore && this.configMapStore == configMapStore
      ensures secrets == [] && configMaps == []
    {
      this.secretStore, this.configMapStore := secretStore, configMapStore;
      secrets, configMaps := [], [];
    }

    method AddSecret(source: Address, targetName: string, targetNamespace: string) returns (ok: bool)
      modifies this`secrets
      ensures ok <==> Added(old(secrets), secretStore, source, targetName, targetNamespace).Ok?
      ensures secrets == if ok then Added(old(secrets), secretStore, source, targetName, targetNamespace).value else old(secrets)
    {
      if Has(secrets, targetName, targetNamespace) {
        return true;
      }
      if source !in secretStore {
        return false;
      }
      secrets := secrets + [Copy(targetName, targetNamespace, secretStore[source], Original(source))];
      return true;
    }

    method AddConfigMap(source: Address, targetName: string, targetNamespace: string) returns (ok: bool)
      modifies this`configMaps
      ensures ok <==> Added(old(configMaps), configMapStore, source, targetName, targetNamespace).Ok?
      ensures configMaps == if ok then Added(old(configMaps), configMapStore, source, targetName, targetNamespace).value else old(configMaps)
    {
      if Has(configMaps, targetName, targetNamespace) {
        return true;
      }
      if source !in configMapStore {
        return false;
      }
      configMaps := configMaps + [Copy(targetName, targetNamespace, configMapStore[source], Original(source))];
      return true;
    }

    /** Adds the secrets for the Alertmanager configuration, depending on which metrics are collected. */
    method AddAlertmanagerMtlsSecrets(hubID: string, platform: bool, userWorkloads: bool, isOCP: bool) returns (ok: bool)
      modifies this`secrets
      ensures ok <==> WithAlertmanager(old(secrets), secretStore, hubID, platform, userWorkloads, isOCP).Ok?
      ensures ok ==> secrets == WithAlertmanager(old(secrets), secretStore, hubID, platform, userWorkloads, isOCP).value
    {
      hide Added;
      if platform {
        ok := AddMtlsSecrets(hubID, if isOCP then PLATFORM_NS else "");
        if !ok {
          return;
        }
      }
      if isOCP && userWorkloads {
        ok := AddMtlsSecrets(hubID, UWL_NS);
        if !ok {
          return;
        }
      }
      ok := true;
    }

    method AddMtlsSecrets(hubID: string, targetNamespace: string) returns (ok: bool)
      modifies this`secrets
      ensures ok <==> WithMtls(old(secrets), secretStore, hubID, targetNamespace).Ok?
      ensures ok ==> secrets == WithMtls(old(secrets), secretStore, hubID, targetNamespace).value
    {
      hide Added;
      ok := AddSecret(Address(HUB_NS, HUB_CA_SECRET), CaTarget(hubID), targetNamespace);
      if !ok {
        return;
      }
      ok := AddSecret(Address(HUB_NS, CLIENT_CERT_SECRET), CertTarget(hubID), targetNamespace);
      if !ok {
        return;
      }
      ok := AddSecret(Address(HUB_NS, ACCESSOR_SECRET), AccessorTarget(hubID), targetNamespace);
    }

    /** Builds the agent for a cluster; fails if the addon does not own the agent, if the agent
        lacks the main remote write, or if a mounted secret or configmap is missing. */
    method BuildPrometheusAgent(namespace: string, spec: Spec, isOwned: bool, t: Target) returns (res: Result<Spec, string>)
      modifies this
      ensures res.Ok? <==>
        && isOwned && MainIndex(spec.remoteWrite) < |spec.remoteWrite|
        && Fetched(old(secrets), secretStore, t.hubID, namespace, BuiltAgent(spec, t).secrets).Ok?
        && FetchedMaps(old(configMaps), configMapStore, namespace, spec.configMaps).Ok?
      ensures res.Ok? ==>
        && res.value == BuiltAgent(spec, t)
        && secrets == Fetched(old(secrets), secretStore, t.hubID, namespace, res.value.secrets).value
        && configMaps == FetchedMaps(old(configMaps), configMapStore, namespace, spec.configMaps).value
    {
      if !isOwned {
        return Err("object is not owned by the ClusterManagementAddOn");
      }
      var mainIndex := FirstMain(spec.remoteWrite);
      if mainIndex == |spec.remoteWrite| {
        return Err("missing expected remote write spec in the prometheusAgent");
      }
      var rws := AddClusterSettings(spec.remoteWrite, t);
      var renamed := RenameSecrets(spec.secrets, t.hubID);
      rws := rws[mainIndex := WithTargetFiles(rws[mainIndex], t.hubID)];
      assert rws == BuiltRemoteWrites(spec.remoteWrite, t);
      assert renamed == BuiltAgent(spec, t).secrets;
      var gotSecrets := FetchSecrets(namespace, t.hubID, renamed);
      if !gotSecrets {
        return Err("failed to get secret");
      }
      var gotMaps := FetchConfigMaps(namespace, spec.configMaps);
      if !gotMaps {
        return Err("failed to get configmap");
      }
      return Ok(spec.(secrets := renamed, remoteWrite := rws, free := t.free));
    }

    method FetchSecrets(namespace: string, hubID: string, names: seq<string>) returns (ok: bool)
      modifies this`secrets
      ensures ok <==> Fetched(old(secrets), secretStore, hubID, namespace, names).Ok?
      ensures ok ==> secrets == Fetched(old(secrets), secretStore, hubID, namespace, names).value
    {
      for i := 0 to |names|
        invariant Fetched(old(secrets), secretStore, hubID, namespace, names[..i]) == Ok(secrets)
      {
        assert names[..i + 1][..i] == names[..i];
        var added := AddSecret(SourceOf(hubID, namespace, names[i]), names[i], "");
        if !added {
          FetchStopsAtError(old(secrets), secretStore, hubID, namespace, names, i + 1);
          return false;
        }
      }
      assert names[..|names|] == names;
      return true;
    }

    method FetchConfigMaps(namespace: string, names: seq<string>) returns (ok: bool)
      modifies this`configMaps
      ensures ok <==> FetchedMaps(old(configMaps), configMapStore, namespace, names).Ok?
      ensures ok ==> configMaps == FetchedMaps(old(configMaps), configMapStore, namespace, names).value
    {
      for i := 0 to |names|
        invariant FetchedMaps(old(configMaps), configMapStore, namespace, names[..i]) == Ok(configMaps)
      {
        assert names[..i + 1][..i] == names[..i];
        var added := AddConfigMap(Address(namespace, names[i]), names[i], "");
        if !added {
          FetchMapsStopsAtError(old(configMaps), configMapStore, namespace, names, i + 1);
          return false;
        }
      }
      assert names[..|names|] == names;
      return true;
    }
  }

  /** Appends the cluster's relabel rules and sets its proxy on every remote write. */
  method AddClusterSettings(remoteWrites: seq<RemoteWrite<string>>, t: Target) returns (rws: seq<RemoteWrite<string>>)
    ensures |rws| == |remoteWrites|
    ensures forall i :: 0 <= i < |rws| ==> rws[i] == Relabeled(remoteWrites[i], t)
    ensures forall i :: 0 <= i < |rws| ==> rws[i].rules == remoteWrites[i].rules + t.rules
    ensures t.proxy.Some? ==> forall i :: 0 <= i < |rws| ==>
              rws[i].proxyURL == Some(t.proxy.value.url) && rws[i].noProxy == Some(t.proxy.value.noProxy)
    ensures t.proxy.None? ==> forall i :: 0 <= i < |rws| ==>
              rws[i].proxyURL == remoteWrites[i].proxyURL && rws[i].noProxy == remoteWrites[i].noProxy
    ensures forall i :: 0 <= i < |rws| ==>
              rws[i].(rules := [], proxyURL := None, noProxy := None) == remoteWrites[i].(rules := [], proxyURL := None, noProxy := None)
  {
    rws := remoteWrites;
    for i := 0 to |rws|
      invariant |rws| == |remoteWrites|
      invariant forall k :: 0 <= k < i ==> rws[k] == remoteWrites[k].(rules := remoteWrites[k].rules + t.rules)
      invariant forall k :: i <= k < |rws| ==> rws[k] == remoteWrites[k]
    {
      rws := rws[i := rws[i].(rules := rws[i].rules + t.rules)];
    }
    if t.proxy.Some? {
      for i := 0 to |rws|
        invariant |rws| == |remoteWrites|
        invariant forall k :: 0 <= k < i ==> rws[k] == Relabeled(remoteWrites[k], t)
        invariant forall k :: i <= k < |rws| ==> rws[k] == remoteWrites[k].(rules := remoteWrites[k].rules + t.rules)
      {
        rws := rws[i := rws[i].(proxyURL := Some(t.proxy.value.url), noProxy := Some(t.proxy.value.noProxy))];
      }
    }
  }

  method RenameSecrets(secrets: seq<string>, hubID: string) returns (renamed: seq<string>)
    ensures renamed == RenamedAll(hubID, secrets)
  {
    renamed := secrets;
    for i := 0 to |renamed|
      invariant |renamed| == |secrets|
      invariant forall k :: 0 <= k < i ==> renamed[k] == Renamed(hubID, secrets[k])
      invariant forall k :: i <= k < |renamed| ==> renamed[k] == secrets[k]
    {
      if renamed[i] == HUB_CA_SECRET {
        renamed := renamed[i := CaTarget(hubID)];
      } else if renamed[i] == CLIENT_CERT_SECRET {
        renamed := renamed[i := CertTarget(hubID)];
      }
    }
  }

  // ---------------------------------------------------------------- mount closure

  /** Exactly one copy has this target address. */
  ghost predicate ExactlyOne(copies: seq<Copy>, name: string, namespace: string) {
    exists i :: 0 <= i < |copies| && copies[i].name == name && copies[i].namespace == namespace
      && forall j :: 0 <= j < |copies| && copies[j].name == name && copies[j].namespace == namespace ==> j == i
  }

  lemma UniqueHasOne(copies: seq<Copy>, name: string, namespace: string)
    requires Unique(copies) && Has(copies, name, namespace)
    ensures ExactlyOne(copies, name, namespace)
  {
    var i :| 0 <= i < |copies| && copies[i].name == name && copies[i].namespace == namespace;
    assert forall j :: 0 <= j < |copies| && copies[j].name == name && copies[j].namespace == namespace ==> j == i;
  }

  lemma HasLonger(copies: seq<Copy>, longer: seq<Copy>, name: string, namespace: string)
    requires copies <= longer && Has(copies, name, namespace)
    ensures Has(longer, name, namespace)
  {
    var i :| 0 <= i < |copies| && copies[i].name == name && copies[i].namespace == namespace;
    assert longer[i] == copies[i];
  }

  /** A copy has the data of its source and, in its annotation, the address of its source. */
  predicate IsCopyOf(c: Copy, store: Store, namespace: string, name: string) {
    var source := Address(namespace, name);
    source in store && c.data == store[source] && c.original == namespace + "/" + name
  }

  lemma TargetsDiffer(hubID: string)
    ensures CaTarget(hubID) != CertTarget(hubID) && CaTarget(hubID) != AccessorTarget(hubID) && CertTarget(hubID) != AccessorTarget(hubID)
  {
    assert CaTarget(hubID)[10] == 'a' && CertTarget(hubID)[10] == 'e';
    assert CaTarget(hubID)[0] == 'h' && CertTarget(hubID)[0] == 'h' && AccessorTarget(hubID)[0] == 'o';
  }

  /** The names tell hubs apart as far as their trimmed ids do, and a volume made from one of them,
      which is named after it with `secret-` in front, keeps within the 63 characters of a label. */
  lemma TargetNames(hubID: string, otherID: string)
    ensures CaTarget(hubID) == CaTarget(otherID) <==> TrimmedClusterID(hubID) == TrimmedClusterID(otherID)
    ensures CertTarget(hubID) == CertTarget(otherID) <==> TrimmedClusterID(hubID) == TrimmedClusterID(otherID)
    ensures AccessorTarget(hubID) == AccessorTarget(otherID) <==> TrimmedClusterID(hubID) == TrimmedClusterID(otherID)
    ensures |"secret-" + CaTarget(hubID)| <= 63 && |"secret-" + CertTarget(hubID)| <= 63 && |"secret-" + AccessorTarget(hubID)| <= 63
  {
    var x, y := TrimmedClusterID(hubID), TrimmedClusterID(otherID);
    assert CaTarget(hubID)[|"hub-mtls-ca-"|..] == x && CaTarget(otherID)[|"hub-mtls-ca-"|..] == y;
    assert CertTarget(hubID)[|"hub-mtls-cert-"|..] == x && CertTarget(otherID)[|"hub-mtls-cert-"|..] == y;
    assert AccessorTarget(hubID)[|ACCESSOR_SECRET| + 1..] == x && AccessorTarget(otherID)[|ACCESSOR_SECRET| + 1..] == y;
  }

  /** Under the names of the hub's secrets there are copies of these, and under any other name a copy
      of the secret with that name in the agent's namespace. */
  predicate ComesFrom(c: Copy, store: Store, hubID: string, namespace: string) {
    && (c.name == CaTarget(hubID) ==> IsCopyOf(c, store, HUB_NS, HUB_CA_SECRET))
    && (c.name == CertTarget(hubID) ==> IsCopyOf(c, store, HUB_NS, CLIENT_CERT_SECRET))
    && (c.name == AccessorTarget(hubID) ==> IsCopyOf(c, store, HUB_NS, ACCESSOR_SECRET))
    && (c.name !in {CaTarget(hubID), CertTarget(hubID), AccessorTarget(hubID)} ==> IsCopyOf(c, store, namespace, c.name))
  }

  lemma SourceIsRight(c: Copy, store: Store, hubID: string, namespace: string)
    requires SourceOf(hubID, namespace, c.name) in store
    requires c.data == store[SourceOf(hubID, namespace, c.name)] && c.original == Original(SourceOf(hubID, namespace, c.name))
    ensures ComesFrom(c, store, hubID, namespace)
  {
    hide CaTarget, CertTarget, AccessorTarget;
    TargetsDiffer(hubID);
  }

  /** Fetching keeps target addresses unique, provides every mounted name, and copies what it adds
      from the right source into the install namespace. */
  lemma {:induction false} FetchedAll(copies: seq<Copy>, store: Store, hubID: string, namespace: string, names: seq<string>)
    requires Unique(copies) && Fetched(copies, store, hubID, namespace, names).Ok?
    ensures var r := Fetched(copies, store, hubID, namespace, names).value;
      && Unique(r)
      && (forall i :: 0 <= i < |names| ==> Has(r, names[i], ""))
      && (forall k :: |copies| <= k < |r| ==> r[k].name in names && r[k].namespace == "" && ComesFrom(r[k], store, hubID, namespace))
  {
    hide ComesFrom, SourceOf;
    if names != [] {
      var init, last := names[..|names| - 1], names[|names| - 1];
      assert names == init + [last];
      FetchedAll(copies, store, hubID, namespace, init);
      var before := Fetched(copies, store, hubID, namespace, init).value;
      var r := Fetched(copies, store, hubID, namespace, names).value;
      AddedKeepsUnique(before, store, SourceOf(hubID, namespace, last), last, "");
      if |r| > |before| {
        SourceIsRight(r[|before|], store, hubID, namespace);
      }
      forall i | 0 <= i < |names| ensures Has(r, names[i], "") {
        if i < |init| {
          assert names[i] == init[i];
          HasLonger(before, r, init[i], "");
        }
      }
    }
  }

  /** The same for configmaps, which all come from the agent's namespace. */
  lemma {:induction false} FetchedMapsAll(copies: seq<Copy>, store: Store, namespace: string, names: seq<string>)
    requires Unique(copies) && FetchedMaps(copies, store, namespace, names).Ok?
    ensures var r := FetchedMaps(copies, store, namespace, names).value;
      && Unique(r)
      && (forall i :: 0 <= i < |names| ==> Has(r, names[i], ""))
      && (forall k :: |copies| <= k < |r| ==> r[k].name in names && r[k].namespace == "" && IsCopyOf(r[k], store, namespace, r[k].name))
  {
    if names != [] {
      var init, last := names[..|names| - 1], names[|names| - 1];
      assert names == init + [last];
      FetchedMapsAll(copies, store, namespace, init);
      var before := FetchedMaps(copies, store, namespace, init).value;
      var r := FetchedMaps(copies, store, namespace, names).value;
      AddedKeepsUnique(before, store, Address(namespace, last), last, "");
      forall i | 0 <= i < |names| ensures Has(r, names[i], "") {
        if i < |init| {
          assert names[i] == init[i];
          HasLonger(before, r, init[i], "");
        }
      }
    }
  }

  /** What a successful build starting from nothing leaves for a cluster: the agent mounts what it
      mounted on the hub, the hub's two mTLS secrets under their new names; every secret and
      configmap it mounts is copied exactly once into the install namespace, and nothing else is; the
      copies under the new names have the data and the address of the hub's secrets, all others those
      of the object of the same name in the agent's namespace. */
  lemma BuiltCopies(spec: Spec, t: Target, namespace: string, store: Store, maps: Store)
    requires Fetched([], store, t.hubID, namespace, BuiltAgent(spec, t).secrets).Ok?
    requires FetchedMaps([], maps, namespace, spec.configMaps).Ok?
    ensures var mounted, secrets := BuiltAgent(spec, t).secrets, Fetched([], store, t.hubID, namespace, BuiltAgent(spec, t).secrets).value;
      && |mounted| == |spec.secrets|
      && (forall i :: 0 <= i < |mounted| && spec.secrets[i] == HUB_CA_SECRET ==> mounted[i] == CaTarget(t.hubID))
      && (forall i :: 0 <= i < |mounted| && spec.secrets[i] == CLIENT_CERT_SECRET ==> mounted[i] == CertTarget(t.hubID))
      && (forall i :: 0 <= i < |mounted| && spec.secrets[i] != HUB_CA_SECRET && spec.secrets[i] != CLIENT_CERT_SECRET ==>
            mounted[i] == spec.secrets[i])
      && (forall i :: 0 <= i < |mounted| ==> ExactlyOne(secrets, mounted[i], ""))
      && (forall k :: 0 <= k < |secrets| ==>
            secrets[k].name in mounted && secrets[k].namespace == "" && ComesFrom(secrets[k], store, t.hubID, namespace))
    ensures var mounted, configMaps := spec.configMaps, FetchedMaps([], maps, namespace, spec.configMaps).value;
      && (forall i :: 0 <= i < |mounted| ==> ExactlyOne(configMaps, mounted[i], ""))
      && (forall k :: 0 <= k < |configMaps| ==>
            configMaps[k].name in mounted && configMaps[k].namespace == "" && IsCopyOf(configMaps[k], maps, namespace, configMaps[k].name))
  {
    hide ComesFrom, Fetched, FetchedMaps, Has, CaTarget, CertTarget, ExactlyOne;
    assert HUB_CA_SECRET != CLIENT_CERT_SECRET;
    var mounted := BuiltAgent(spec, t).secrets;
    FetchedAll([], store, t.hubID, namespace, mounted);
    FetchedMapsAll([], maps, namespace, spec.configMaps);
    forall i | 0 <= i < |mounted| ensures ExactlyOne(Fetched([], store, t.hubID, namespace, mounted).value, mounted[i], "") {
      UniqueHasOne(Fetched([], store, t.hubID, namespace, mounted).value, mounted[i], "");
    }
    forall i | 0 <= i < |spec.configMaps| ensures ExactlyOne(FetchedMaps([], maps, namespace, spec.configMaps).value, spec.configMaps[i], "") {
      UniqueHasOne(FetchedMaps([], maps, namespace, spec.configMaps).value, spec.configMaps[i], "");
    }
  }

  /** Mount closure: after a successful build every secret the agent mounts was fetched exactly
      once into the install namespace, and the files of the main remote write lie in secrets the
      agent mounts: `ca.crt` in the copy of the hub's CA, `tls.crt` and `tls.key` in that of the client
      certificate. */
  lemma MountClosure(stored: Spec, s: Settings, namespace: string, t: Target, copies: seq<Copy>, store: Store)
    requires Unique(copies)
    requires Fetched(copies, store, t.hubID, namespace, BuiltAgent(Overwritten(stored, Built(stored, s)), t).secrets).Ok?
    ensures var agent := BuiltAgent(Overwritten(stored, Built(stored, s)), t);
      var r := Fetched(copies, store, t.hubID, namespace, agent.secrets).value;
      var k := MainIndex(stored.remoteWrite);
      && (forall name :: name in agent.secrets ==> ExactlyOne(r, name, ""))
      && k < |agent.remoteWrite| && IsMain(agent.remoteWrite[k]) && agent.remoteWrite[k].tls.Some?
      && CaTarget(t.hubID) in agent.secrets && CertTarget(t.hubID) in agent.secrets
      && agent.remoteWrite[k].tls.value.caFile == "/etc/prometheus/secrets/" + CaTarget(t.hubID) + "/ca.crt"
      && agent.remoteWrite[k].tls.value.certFile == "/etc/prometheus/secrets/" + CertTarget(t.hubID) + "/tls.crt"
      && agent.remoteWrite[k].tls.value.keyFile == "/etc/prometheus/secrets/" + CertTarget(t.hubID) + "/tls.key"
  {
    hide Fetched, Built, MainIndex, CaTarget, CertTarget, ExactlyOne, Has, ComesFrom;
    var agent := BuiltAgent(Overwritten(stored, Built(stored, s)), t);
    var r := Fetched(copies, store, t.hubID, namespace, agent.secrets).value;
    FetchedAll(copies, store, t.hubID, namespace, agent.secrets);
    forall name | name in agent.secrets ensures ExactlyOne(r, name, "") {
      var i :| 0 <= i < |agent.secrets| && agent.secrets[i] == name;
      UniqueHasOne(r, name, "");
    }
    MountedFiles(stored, s, t);
  }

  /** What the build changes on the remote writes: each gets the cluster's rules behind its own and its
      proxy, if there is one; the files of the main one, if it has a TLS configuration, become those of
      the renamed secrets. All else stays, on the agent, too, beside its secrets and free settings. */
  lemma BuiltWrites(spec: Spec, t: Target, i: nat)
    requires i < |spec.remoteWrite|
    ensures var agent, old_ := BuiltAgent(spec, t), spec.remoteWrite[i];
      && agent.(secrets := [], remoteWrite := [], free := "") == spec.(secrets := [], remoteWrite := [], free := "")
      && |agent.remoteWrite| == |spec.remoteWrite|
      && var new_ := agent.remoteWrite[i];
      && new_.rules == old_.rules + t.rules
      && new_.proxyURL == (if t.proxy.Some? then Some(t.proxy.value.url) else old_.proxyURL)
      && new_.noProxy == (if t.proxy.Some? then Some(t.proxy.value.noProxy) else old_.noProxy)
      && new_.(rules := [], proxyURL := None, noProxy := None, tls := None) == old_.(rules := [], proxyURL := None, noProxy := None, tls := None)
      && (i != MainIndex(spec.remoteWrite) || old_.tls.None? ==> new_.tls == old_.tls)
      && (i == MainIndex(spec.remoteWrite) && old_.tls.Some? ==> new_.tls == Some(TLSConfig(
            "/etc/prometheus/secrets/" + CaTarget(t.hubID) + "/ca.crt",
            "/etc/prometheus/secrets/" + CertTarget(t.hubID) + "/tls.crt",
            "/etc/prometheus/secrets/" + CertTarget(t.hubID) + "/tls.key", old_.tls.value.safe)))
  {
    hide CaTarget, CertTarget, MainIndex, SecretPath;
    PathsAre(t.hubID);
  }

  lemma PathsAre(hubID: string)
    ensures SecretPath(CaTarget(hubID), CA_KEY) == "/etc/prometheus/secrets/" + CaTarget(hubID) + "/ca.crt"
    ensures SecretPath(CertTarget(hubID), CERT_KEY) == "/etc/prometheus/secrets/" + CertTarget(hubID) + "/tls.crt"
    ensures SecretPath(CertTarget(hubID), KEY_KEY) == "/etc/prometheus/secrets/" + CertTarget(hubID) + "/tls.key"
  {
    hide CaTarget, CertTarget;
  }

  /** The files of the main remote write of an agent built on the hub. */
  lemma MountedFiles(stored: Spec, s: Settings, t: Target)
    ensures var agent := BuiltAgent(Overwritten(stored, Built(stored, s)), t);
      var k := MainIndex(stored.remoteWrite);
      && k < |agent.remoteWrite| && IsMain(agent.remoteWrite[k]) && agent.remoteWrite[k].tls.Some?
      && CaTarget(t.hubID) in agent.secrets && CertTarget(t.hubID) in agent.secrets
      && agent.remoteWrite[k].tls.value.caFile == "/etc/prometheus/secrets/" + CaTarget(t.hubID) + "/ca.crt"
      && agent.remoteWrite[k].tls.value.certFile == "/etc/prometheus/secrets/" + CertTarget(t.hubID) + "/tls.crt"
      && agent.remoteWrite[k].tls.value.keyFile == "/etc/prometheus/secrets/" + CertTarget(t.hubID) + "/tls.key"
  {
    hide CaTarget, CertTarget, MainIndex, BuiltRemoteWrite, MainRemoteWrite, BuiltAgent, BuiltSecrets;
    var hubSpec, k := Overwritten(stored, Built(stored, s)), MainIndex(stored.remoteWrite);
    BuiltHasSingle(stored.remoteWrite, s.endpoint);
    MainIndexUnique(hubSpec.remoteWrite, k);
    MainIs(s.endpoint, FirstOf(stored.remoteWrite));
    assert hubSpec.remoteWrite[k] == MainRemoteWrite(s.endpoint, FirstOf(stored.remoteWrite));
    BuiltWrites(hubSpec, t, k);
    assert BuiltAgent(hubSpec, t).secrets == RenamedAll(t.hubID, BuiltSecrets(stored.secrets)) by { SecretsRenamed(hubSpec, t); }
    RenamedMounted(stored.secrets, t.hubID);
  }

  lemma SecretsRenamed(spec: Spec, t: Target)
    ensures BuiltAgent(spec, t).secrets == RenamedAll(t.hubID, spec.secrets)
  {
  }

  lemma RenamedMounted(secrets: seq<string>, hubID: string)
    ensures CaTarget(hubID) in RenamedAll(hubID, BuiltSecrets(secrets))
    ensures CertTarget(hubID) in RenamedAll(hubID, BuiltSecrets(secrets))
  {
    var built := BuiltSecrets(secrets);
    SecretsEnforced(secrets);
    var i :| 0 <= i < |built| && built[i] == HUB_CA_SECRET;
    var j :| 0 <= j < |built| && built[j] == CLIENT_CERT_SECRET;
    assert HUB_CA_SECRET != CLIENT_CERT_SECRET;
    assert RenamedAll(hubID, built)[i] == CaTarget(hubID);
    assert RenamedAll(hubID, built)[j] == CertTarget(hubID);
  }
}
