/** The secrets of one cluster from the empty list to the finished one
    (internal/metrics/handlers/handler.go): the Alertmanager configuration, the agents and the raw
    scrape configs all add copies to it, and everything that refers to a copy must find the right one
    in the finished list. */
module SecretFlow {
  import opened Config
  import opened Wrappers
  import opened Relabel
  import opened RemoteWrites
  import opened AgentBuild
  import opened Routing
  import opened RoutingProperties

  /** What stays the same while the options of a cluster are built. */
  datatype Cluster = Cluster(store: Store, hubID: string, isOCP: bool)

  /** One thing that adds copies: the Alertmanager configuration, an agent that mounts secrets, or a
      list of scrape configs. */
  datatype Step =
    | Alertmanager(platform: bool, userWorkloads: bool)
    | Mount(namespace: string, names: seq<string>)
    | Route(scrapeConfigs: seq<ScrapeConfig>, agent: Option<seq<RemoteWrite<Rule>>>, defaultNamespace: string)

  function RouteEnv(c: Cluster, agent: Option<seq<RemoteWrite<Rule>>>, defaultNamespace: string): Env {
    Env(agent, c.store, CaTarget(c.hubID), CertTarget(c.hubID), c.isOCP, defaultNamespace)
  }

  function Stepped(c: Cluster, secrets: seq<Copy>, step: Step): Result<seq<Copy>, string> {
    match step
    case Alertmanager(platform, userWorkloads) => WithAlertmanager(secrets, c.store, c.hubID, platform, userWorkloads, c.isOCP)
    case Mount(namespace, names) => Fetched(secrets, c.store, c.hubID, namespace, names)
    case Route(scrapeConfigs, agent, defaultNamespace) =>
      var o :- Routed(scrapeConfigs, RouteEnv(c, agent, defaultNamespace), secrets);
      Ok(o.secrets)
  }

  /** The copies after some steps. */
  function Secrets(c: Cluster, steps: seq<Step>): Result<seq<Copy>, string> {
    if steps == [] then Ok([])
    else
      var before :- Secrets(c, steps[..|steps| - 1]);
      Stepped(c, before, steps[|steps| - 1])
  }

  /** The routing depends on the names of the copies and where they come from, not on anything else. */
  ghost predicate Right(secrets: seq<Copy>, c: Cluster) {
    Unique(secrets) && TargetsRight(secrets, RouteEnv(c, None, ""))
  }

  lemma AddedKeepsRight(secrets: seq<Copy>, c: Cluster, source: string, name: string, namespace: string)
    requires Right(secrets, c) && Added(secrets, c.store, Address(HUB_NS, source), name, namespace).Ok?
    requires name == CaTarget(c.hubID) ==> source == HUB_CA_SECRET
    requires name == CertTarget(c.hubID) ==> source == CLIENT_CERT_SECRET
    ensures Right(Added(secrets, c.store, Address(HUB_NS, source), name, namespace).value, c)
  {
    hide CaTarget, CertTarget;
    AddedKeepsUnique(secrets, c.store, Address(HUB_NS, source), name, namespace);
  }

  /** Both mTLS secrets and the accessor secret are there. */
  predicate AllThree(secrets: seq<Copy>, c: Cluster, namespace: string) {
    Has(secrets, CaTarget(c.hubID), namespace) && Has(secrets, CertTarget(c.hubID), namespace) && Has(secrets, AccessorTarget(c.hubID), namespace)
  }

  lemma MtlsKeepsRight(secrets: seq<Copy>, c: Cluster, namespace: string)
    requires Right(secrets, c) && WithMtls(secrets, c.store, c.hubID, namespace).Ok?
    ensures Right(WithMtls(secrets, c.store, c.hubID, namespace).value, c)
    ensures AllThree(WithMtls(secrets, c.store, c.hubID, namespace).value, c, namespace)
  {
    hide CaTarget, CertTarget, AccessorTarget, Right, Has;
    TargetsDiffer(c.hubID);
    var ca := Added(secrets, c.store, Address(HUB_NS, HUB_CA_SECRET), CaTarget(c.hubID), namespace).value;
    var cert := Added(ca, c.store, Address(HUB_NS, CLIENT_CERT_SECRET), CertTarget(c.hubID), namespace).value;
    var all := Added(cert, c.store, Address(HUB_NS, ACCESSOR_SECRET), AccessorTarget(c.hubID), namespace).value;
    AddedKeepsRight(secrets, c, HUB_CA_SECRET, CaTarget(c.hubID), namespace);
    AddedKeepsRight(ca, c, CLIENT_CERT_SECRET, CertTarget(c.hubID), namespace);
    AddedKeepsRight(cert, c, ACCESSOR_SECRET, AccessorTarget(c.hubID), namespace);
    HasLonger(ca, all, CaTarget(c.hubID), namespace);
    HasLonger(cert, all, CertTarget(c.hubID), namespace);
  }

  lemma AllThreeLonger(secrets: seq<Copy>, longer: seq<Copy>, c: Cluster, namespace: string)
    requires secrets <= longer && AllThree(secrets, c, namespace)
    ensures AllThree(longer, c, namespace)
  {
    HasLonger(secrets, longer, CaTarget(c.hubID), namespace);
    HasLonger(secrets, longer, CertTarget(c.hubID), namespace);
    HasLonger(secrets, longer, AccessorTarget(c.hubID), namespace);
  }

  /** The Alertmanager configuration finds its three secrets: in openshift-monitoring, or in the install
      namespace outside OpenShift, and for user workloads in openshift-user-workload-monitoring. */
  lemma AlertmanagerProvided(secrets: seq<Copy>, c: Cluster, platform: bool, userWorkloads: bool)
    requires Right(secrets, c) && WithAlertmanager(secrets, c.store, c.hubID, platform, userWorkloads, c.isOCP).Ok?
    ensures var r := WithAlertmanager(secrets, c.store, c.hubID, platform, userWorkloads, c.isOCP).value;
      && Right(r, c)
      && (platform ==> AllThree(r, c, if c.isOCP then "openshift-monitoring" else ""))
      && (userWorkloads && c.isOCP ==> AllThree(r, c, "openshift-user-workload-monitoring"))
  {
    hide WithMtls, Right, AllThree;
    var ns := if c.isOCP then PLATFORM_NS else "";
    var first := if platform then WithMtls(secrets, c.store, c.hubID, ns).value else secrets;
    if platform {
      MtlsKeepsRight(secrets, c, ns);
    }
    if c.isOCP && userWorkloads {
      MtlsKeepsRight(first, c, UWL_NS);
      if platform {
        AllThreeLonger(first, WithMtls(first, c.store, c.hubID, UWL_NS).value, c, ns);
      }
    }
  }

  lemma FetchKeepsRight(secrets: seq<Copy>, c: Cluster, namespace: string, names: seq<string>)
    requires Right(secrets, c) && Fetched(secrets, c.store, c.hubID, namespace, names).Ok?
    ensures Right(Fetched(secrets, c.store, c.hubID, namespace, names).value, c)
  {
    hide CaTarget, CertTarget, AccessorTarget, IsCopyOf, Fetched, Unique;
    FetchedAll(secrets, c.store, c.hubID, namespace, names);
    var r := Fetched(secrets, c.store, c.hubID, namespace, names).value;
    forall i | 0 <= i < |r| ensures TargetRight(r[i], RouteEnv(c, None, "")) {
      if i < |secrets| {
        assert r[i] == secrets[i];
      }
    }
  }

  lemma RightAnyEnv(secrets: seq<Copy>, c: Cluster, agent: Option<seq<RemoteWrite<Rule>>>, defaultNamespace: string)
    ensures Right(secrets, c) <==> Unique(secrets) && TargetsRight(secrets, RouteEnv(c, agent, defaultNamespace))
  {
    hide CaTarget, CertTarget, Unique, IsCopyOf;
    var e, e' := RouteEnv(c, None, ""), RouteEnv(c, agent, defaultNamespace);
    assert forall copy :: TargetRight(copy, e) <==> TargetRight(copy, e');
  }

  /** Every step keeps earlier copies in front and the right copies under the names of the hub's
      secrets. */
  lemma StepKeepsRight(c: Cluster, secrets: seq<Copy>, step: Step)
    requires Right(secrets, c) && Stepped(c, secrets, step).Ok?
    ensures Right(Stepped(c, secrets, step).value, c) && secrets <= Stepped(c, secrets, step).value
  {
    hide Right, Routed, WithAlertmanager, Fetched, TargetsRight, Unique, CaTarget, CertTarget, AllThree;
    match step
    case Alertmanager(platform, userWorkloads) => AlertmanagerProvided(secrets, c, platform, userWorkloads);
    case Mount(namespace, names) => FetchKeepsRight(secrets, c, namespace, names);
    case Route(scrapeConfigs, agent, defaultNamespace) =>
      var env := RouteEnv(c, agent, defaultNamespace);
      TargetsDiffer(c.hubID);
      RightAnyEnv(secrets, c, agent, defaultNamespace);
      RoutedSecrets(scrapeConfigs, env, secrets);
      RightAnyEnv(Routed(scrapeConfigs, env, secrets).value.secrets, c, agent, defaultNamespace);
  }

  lemma NothingRight(c: Cluster)
    ensures Right([], c)
  {
  }

  lemma {:induction false} SecretsRight(c: Cluster, steps: seq<Step>)
    requires Secrets(c, steps).Ok?
    ensures Right(Secrets(c, steps).value, c)
  {
    hide Right, Stepped;
    if steps == [] {
      NothingRight(c);
    } else {
      SecretsRight(c, steps[..|steps| - 1]);
      StepKeepsRight(c, Secrets(c, steps[..|steps| - 1]).value, steps[|steps| - 1]);
    }
  }

  /** The copies of the first steps stay in front. */
  lemma {:induction false} SecretsGrowing(c: Cluster, steps: seq<Step>, k: nat)
    requires k <= |steps| && Secrets(c, steps).Ok?
    ensures Secrets(c, steps[..k]).Ok? && Secrets(c, steps[..k]).value <= Secrets(c, steps).value
    decreases |steps|
  {
    hide Stepped, Right;
    if k == |steps| {
      assert steps[..k] == steps;
    } else {
      var init := steps[..|steps| - 1];
      assert init[..k] == steps[..k];
      SecretsGrowing(c, init, k);
      SecretsRight(c, init);
      StepKeepsRight(c, Secrets(c, init).value, steps[|steps| - 1]);
    }
  }

  lemma ResolvesLonger(secrets: seq<Copy>, longer: seq<Copy>, name: string, namespace: string, store: Store, source: string)
    requires secrets <= longer && Unique(longer) && Resolves(secrets, name, namespace, store, source)
    ensures Resolves(longer, name, namespace, store, source)
  {
    var i :| 0 <= i < |secrets| && secrets[i].name == name && secrets[i].namespace == namespace
      && IsCopyOf(secrets[i], store, HUB_NS, source);
    assert longer[i] == secrets[i];
  }

  lemma AuthenticatesLonger(spec: RemoteWrite<Rule>, secrets: seq<Copy>, longer: seq<Copy>, store: Store, namespace: string)
    requires secrets <= longer && Unique(longer) && Authenticates(spec, secrets, store, namespace)
    ensures Authenticates(spec, longer, store, namespace)
  {
    hide Resolves, Unique;
    var safe := spec.tls.value.safe.value;
    ResolvesLonger(secrets, longer, safe.caSecret, namespace, store, HUB_CA_SECRET);
    ResolvesLonger(secrets, longer, safe.certSecret, namespace, store, CLIENT_CERT_SECRET);
    ResolvesLonger(secrets, longer, safe.keySecret, namespace, store, CLIENT_CERT_SECRET);
  }

  /** What the scrape configs of step `k` were routed to. */
  function RoutedAt(c: Cluster, steps: seq<Step>, k: nat): (o: Outcome)
    requires k < |steps| && steps[k].Route? && Secrets(c, steps).Ok?
  {
    SecretsGrowing(c, steps, k + 1);
    SecretsGrowing(c, steps, k);
    assert steps[..k + 1][..k] == steps[..k];
    Routed(steps[k].scrapeConfigs, RouteEnv(c, steps[k].agent, steps[k].defaultNamespace), Secrets(c, steps[..k]).value).value
  }

  lemma RoutedAtIs(c: Cluster, steps: seq<Step>, k: nat)
    requires k < |steps| && steps[k].Route? && Secrets(c, steps).Ok?
    ensures var env := RouteEnv(c, steps[k].agent, steps[k].defaultNamespace);
      && Secrets(c, steps[..k]).Ok? && Right(Secrets(c, steps[..k]).value, c)
      && Routed(steps[k].scrapeConfigs, env, Secrets(c, steps[..k]).value) == Ok(RoutedAt(c, steps, k))
      && RoutedAt(c, steps, k).secrets <= Secrets(c, steps).value && Unique(Secrets(c, steps).value)
  {
    hide Routed, TargetsRight;
    SecretsGrowing(c, steps, k);
    SecretsGrowing(c, steps, k + 1);
    assert steps[..k + 1][..k] == steps[..k];
    SecretsRight(c, steps[..k]);
    SecretsRight(c, steps);
  }

  /** Whatever is built for a cluster, in whatever order: in the finished list of secrets, every remote
      write of every patched stack authenticates with the copies of the hub's CA and of the client
      certificate in the namespace of its stack. */
  lemma StackWritesAuthenticate(c: Cluster, steps: seq<Step>, k: nat, stack: Address)
    requires k < |steps| && steps[k].Route? && Secrets(c, steps).Ok?
    ensures var o := RoutedAt(c, steps, k);
      stack in Keys(o.contributions) ==>
        forall j :: 0 <= j < |SpecsFor(o.contributions, stack)| ==>
          Authenticates(SpecsFor(o.contributions, stack)[j], Secrets(c, steps).value, c.store, stack.namespace)
  {
    hide Routed, RoutedAt, Keys, SpecsFor, Authenticates, TargetsRight, Unique, Right, CaTarget, CertTarget, Secrets;
    var o, env := RoutedAt(c, steps, k), RouteEnv(c, steps[k].agent, steps[k].defaultNamespace);
    RoutedAtIs(c, steps, k);
    var before := Secrets(c, steps[..k]).value;
    TargetsDiffer(c.hubID);
    RightAnyEnv(before, c, steps[k].agent, steps[k].defaultNamespace);
    SecretClosure(steps[k].scrapeConfigs, env, before, stack);
    if stack in Keys(o.contributions) {
      forall j | 0 <= j < |SpecsFor(o.contributions, stack)|
        ensures Authenticates(SpecsFor(o.contributions, stack)[j], Secrets(c, steps).value, c.store, stack.namespace)
      {
        AuthenticatesLonger(SpecsFor(o.contributions, stack)[j], o.secrets, Secrets(c, steps).value, c.store, stack.namespace);
      }
    }
  }

  /** Outside OpenShift, the remote writes of the addon's own server authenticate with the copies in
      the install namespace that the Alertmanager configuration put there first. */
  lemma ServerWritesAuthenticate(c: Cluster, steps: seq<Step>, k: nat)
    requires 0 < k < |steps| && steps[k].Route? && Secrets(c, steps).Ok?
    requires !c.isOCP && steps[0].Alertmanager? && steps[0].platform
    ensures var o := RoutedAt(c, steps, k);
      forall j :: 0 <= j < |o.server| ==> Authenticates(o.server[j], Secrets(c, steps).value, c.store, "")
  {
    hide Routed, RoutedAt, Authenticates, TargetsRight, Unique, Right, CaTarget, CertTarget, AccessorTarget, Has, Secrets, Stepped;
    var o, env := RoutedAt(c, steps, k), RouteEnv(c, steps[k].agent, steps[k].defaultNamespace);
    RoutedAtIs(c, steps, k);
    var before := Secrets(c, steps[..k]).value;
    TargetsDiffer(c.hubID);
    RightAnyEnv(before, c, steps[k].agent, steps[k].defaultNamespace);
    SecretsGrowing(c, steps[..k], 1);
    assert steps[..k][..1] == steps[..1] == [steps[0]];
    FirstStep(c, steps[0]);
    AllThreeLonger(Secrets(c, steps[..1]).value, before, c, "");
    ServerClosure(steps[k].scrapeConfigs, env, before);
    forall j | 0 <= j < |o.server| ensures Authenticates(o.server[j], Secrets(c, steps).value, c.store, "") {
      AuthenticatesLonger(o.server[j], o.secrets, Secrets(c, steps).value, c.store, "");
    }
  }

  lemma FirstStep(c: Cluster, step: Step)
    requires Secrets(c, [step]).Ok? && !c.isOCP && step.Alertmanager? && step.platform
    ensures AllThree(Secrets(c, [step]).value, c, "")
  {
    hide WithAlertmanager, AllThree, Right;
    assert [step][..0] == [];
    NothingRight(c);
    AlertmanagerProvided([], c, step.platform, step.userWorkloads);
  }

  /** An agent mounts, from the finished list, exactly one copy under each name it asks for. */
  lemma MountsFound(c: Cluster, steps: seq<Step>, k: nat, name: string)
    requires k < |steps| && steps[k].Mount? && name in steps[k].names && Secrets(c, steps).Ok?
    ensures ExactlyOne(Secrets(c, steps).value, name, "")
    ensures name == CaTarget(c.hubID) ==> Resolves(Secrets(c, steps).value, name, "", c.store, HUB_CA_SECRET)
    ensures name == CertTarget(c.hubID) ==> Resolves(Secrets(c, steps).value, name, "", c.store, CLIENT_CERT_SECRET)
  {
    hide Has, CaTarget, CertTarget, AccessorTarget, Fetched, IsCopyOf, Secrets;
    var all := Secrets(c, steps).value;
    SecretsGrowing(c, steps, k + 1);
    SecretsGrowing(c, steps, k);
    assert steps[..k + 1][..k] == steps[..k];
    SecretsRight(c, steps[..k]);
    SecretsRight(c, steps);
    LastStep(c, steps[..k + 1]);
    FetchedAll(Secrets(c, steps[..k]).value, c.store, c.hubID, steps[k].namespace, steps[k].names);
    var i :| 0 <= i < |steps[k].names| && steps[k].names[i] == name;
    HasLonger(Secrets(c, steps[..k + 1]).value, all, name, "");
    UniqueHasOne(all, name, "");
    var j :| 0 <= j < |all| && all[j].name == name && all[j].namespace == "";
    assert TargetRight(all[j], RouteEnv(c, None, ""));
  }

  lemma LastStep(c: Cluster, steps: seq<Step>)
    requires steps != [] && Secrets(c, steps).Ok?
    ensures Secrets(c, steps[..|steps| - 1]).Ok?
    ensures Secrets(c, steps) == Stepped(c, Secrets(c, steps[..|steps| - 1]).value, steps[|steps| - 1])
  {
  }
}
