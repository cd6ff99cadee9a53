/** One pass of the resource creator on the hub (internal/controllers/resourcecreator/controller.go,
    internal/metrics/resource/resource.go, internal/addon/common/cleanup_resources.go): it makes
    sure default agents exist, attaches configurations to the placements of the
    ClusterManagementAddOn and deletes agents whose placements are gone. */
module HubReconcile {
  import opened Config
  import opened Wrappers
  import opened Placements
  import opened AddonConfigs
  import opened AgentSpec
  import opened PlacementDefaults

  const GLOBAL := "global"

  const REF_NAME_LABEL := "placement-ref-name"
  const REF_NAMESPACE_LABEL := "placement-ref-namespace"
  const MANAGED_BY_LABEL := "app.kubernetes.io/managed-by"
  const BACKUP_LABEL := "cluster.open-cluster-management.io/backup"

  const PLATFORM_APP := "platform-metrics-collector"
  const UWL_APP := "user-workload-metrics-collector"
  const ETCD_APP := "etcd-hcp-user-workload-metrics-collector"
  const APISERVER_APP := "apiserver-hcp-user-workload-metrics-collector"

  /** A PrometheusAgent in the addon's namespace on the hub. */
  datatype Agent = Agent(
    name: string, labels: map<string, string>, annotations: map<string, string>, owners: seq<OwnerRef>, spec: Spec)

  /** What passes do not change: the addon's options, the ownership of the ClusterManagementAddOn
      and the other objects on the hub. */
  datatype Env = Env(
    uid: string, ownerRefs: seq<OwnerRef>, platform: bool, userWorkloads: bool, host: string, hasHosted: bool,
    platformSettings: Settings, uwlSettings: Settings, platformDefault: Spec, uwlDefault: Spec,
    scrapeConfigs: seq<ConfigObject>, rules: seq<ConfigObject>, otherObjects: set<Object>)

  function SettingsFor(env: Env, isUWL: bool): Settings {
    if isUWL then env.uwlSettings else env.platformSettings
  }

  function DefaultSpec(env: Env, isUWL: bool): Spec {
    if isUWL then env.uwlDefault else env.platformDefault
  }

  datatype Hub = Hub(agents: seq<Agent>, placements: seq<Placement>)

  function AnnotationOf(a: Agent): string {
    Lookup(a.annotations, PLACEMENTS_KEY)
  }

  function ComponentName(isUWL: bool): string {
    if isUWL then UWL_APP else PLATFORM_APP
  }

  // ---------------------------------------------------------------- migration

  /** Go's strings.Contains. */
  predicate Contains(s: string, sub: string) {
    sub <= s || (s != "" && Contains(s[1..], sub))
  }

  function MigratedAgent(a: Agent): Agent {
    var name, namespace := Lookup(a.labels, REF_NAME_LABEL), Lookup(a.labels, REF_NAMESPACE_LABEL);
    if name == "" || namespace == "" then a
    else
      var newRef := namespace + "/" + name;
      var existing := AnnotationOf(a);
      var annotations :=
        if existing == "" then a.annotations[PLACEMENTS_KEY := newRef]
        else if !Contains(existing, newRef) then a.annotations[PLACEMENTS_KEY := existing + "," + newRef]
        else a.annotations;
      a.(annotations := annotations, labels := a.labels - {REF_NAME_LABEL, REF_NAMESPACE_LABEL})
  }

  predicate IsManaged(a: Agent) {
    Lookup(a.labels, MANAGED_BY_LABEL) == ADDON_NAME
  }

  function MigratedIfManaged(a: Agent): Agent {
    if IsManaged(a) then MigratedAgent(a) else a
  }

  function Migrated(agents: seq<Agent>): (r: seq<Agent>)
    ensures |r| == |agents|
    ensures forall i :: 0 <= i < |agents| ==> r[i] == MigratedIfManaged(agents[i])
  {
    seq(|agents|, i requires 0 <= i < |agents| => MigratedIfManaged(agents[i]))
  }

  // ---------------------------------------------------------------- recognized agents

  predicate IsRecognized(a: Agent, uid: string) {
    HasControllerUID(a.owners, uid) || Lookup(a.labels, PART_OF_LABEL) == ADDON_NAME
  }

  /** The agents one collector's reconciliation looks at. */
  predicate InScope(a: Agent, env: Env, isUWL: bool) {
    Lookup(a.labels, COMPONENT_LABEL) == ComponentName(isUWL) && IsRecognized(a, env.uid)
  }

  // ---------------------------------------------------------------- the default agent

  /** The namespace of the first placement with this name. */
  function FindPlacementNamespace(ps: seq<Placement>, name: string): Option<string> {
    if ps == [] then None
    else if ps[0].ref.name == name then Some(ps[0].ref.namespace)
    else FindPlacementNamespace(ps[1..], name)
  }

  function AgentName(app: string, placement: string): string {
    "mcoa-default-" + app + "-" + placement
  }

  function DummyName(isUWL: bool): string {
    AgentName(ComponentName(isUWL), DUMMY)
  }

  function DefaultGlobalName(isUWL: bool): string {
    AgentName(ComponentName(isUWL), GLOBAL) + "-default"
  }

  predicate TargetsGlobal(a: Agent, global: Option<string>) {
    global.Some? && Targets(AnnotationOf(a), global.value, GLOBAL)
  }

  /** An agent that makes a default agent unnecessary. */
  predicate IsAnchor(a: Agent, global: Option<string>, isUWL: bool) {
    Targets(AnnotationOf(a), HUB_NS, DUMMY) || (TargetsGlobal(a, global) && a.name == DefaultGlobalName(isUWL))
  }

  predicate HasAnchor(agents: seq<Agent>, env: Env, global: Option<string>, isUWL: bool) {
    exists i :: 0 <= i < |agents| && InScope(agents[i], env, isUWL) && IsAnchor(agents[i], global, isUWL)
  }

  predicate GlobalReferenced(agents: seq<Agent>, env: Env, global: Option<string>, isUWL: bool) {
    exists i :: 0 <= i < |agents| && InScope(agents[i], env, isUWL) && TargetsGlobal(agents[i], global)
  }

  /** The controller reference to the ClusterManagementAddOn. */
  function AddonOwner(env: Env): OwnerRef {
    OwnerRef("addon.open-cluster-management.io", "ClusterManagementAddOn", ADDON_NAME, env.uid, true)
  }

  function NewAgent(env: Env, isUWL: bool, name: string, ref: PlacementRef): Agent
  {
    Agent(name, map[MANAGED_BY_LABEL := ADDON_NAME, COMPONENT_LABEL := ComponentName(isUWL)],
          map[PLACEMENTS_KEY := RefText(ref)], [AddonOwner(env)], DefaultSpec(env, isUWL))
  }

  /** The default agent that is missing, if any. */
  function MissingAgent(agents: seq<Agent>, env: Env, ps: seq<Placement>, isUWL: bool): Option<Agent>
  {
    var global := FindPlacementNamespace(ps, GLOBAL);
    if HasAnchor(agents, env, global, isUWL) then None
    else if global.None? || GlobalReferenced(agents, env, global, isUWL) then
      Some(NewAgent(env, isUWL, DummyName(isUWL), PlacementRef(HUB_NS, DUMMY)))
    else
      Some(NewAgent(env, isUWL, DefaultGlobalName(isUWL), PlacementRef(global.value, GLOBAL)))
  }

  predicate NameTaken(agents: seq<Agent>, name: string) {
    exists i :: 0 <= i < |agents| && agents[i].name == name
  }

  /** The stored agents after CreateDefaultAgent; creating fails if the name is taken. */
  function Created(agents: seq<Agent>, env: Env, ps: seq<Placement>, isUWL: bool): Result<seq<Agent>, string>
  {
    var missing := MissingAgent(agents, env, ps, isUWL);
    if missing.None? then Ok(agents)
    else if NameTaken(agents, missing.value.name) then Err("already exists")
    else Ok(agents + [missing.value])
  }

  // ---------------------------------------------------------------- enforcing the spec

  predicate HasUID(owners: seq<OwnerRef>, uid: string) {
    exists i :: 0 <= i < |owners| && owners[i].uid == uid
  }

  /** The entries with the addon's uid become the addon's controller reference. */
  function Merged(owners: seq<OwnerRef>, env: Env): (r: seq<OwnerRef>)
    ensures |r| == |owners|
    ensures forall i :: 0 <= i < |owners| ==> r[i] == if owners[i].uid == env.uid then AddonOwner(env) else owners[i]
  {
    seq(|owners|, i requires 0 <= i < |owners| => if owners[i].uid == env.uid then AddonOwner(env) else owners[i])
  }

  /** The owners after the addon's controller reference is applied: owner references are merged by
      their uid. */
  function WithAddonOwner(owners: seq<OwnerRef>, env: Env): seq<OwnerRef> {
    if HasUID(owners, env.uid) then Merged(owners, env) else owners + [AddonOwner(env)]
  }

  /** The API server refuses a second controller. */
  predicate HasForeignController(owners: seq<OwnerRef>, uid: string) {
    exists i :: 0 <= i < |owners| && owners[i].controller && owners[i].uid != uid
  }

  function Applied(a: Agent, env: Env, isUWL: bool): Result<Agent, string>
  {
    var built := Built(a.spec, SettingsFor(env, isUWL));
    if Derivative(built, a.spec) then Ok(a)
    else if HasForeignController(a.owners, env.uid) then Err("invalid owner references")
    else Ok(a.(spec := Overwritten(a.spec, built), owners := WithAddonOwner(a.owners, env), labels := a.labels[BACKUP_LABEL := ""]))
  }

  function AgentConfig(a: Agent): AddonConfig {
    AddonConfig(RHOBS, "prometheusagents", HUB_NS, a.name)
  }

  /** The agents so far, the configs they want, and whether an error ended the pass. */
  datatype Progress = Progress(agents: seq<Agent>, configs: seq<DefaultConfig>, failed: bool)

  datatype AgentStep = AgentStep(agent: Agent, configs: seq<DefaultConfig>, failed: bool)

  /** What happens to one listed agent. */
  function ProcessedOne(a: Agent, env: Env, isUWL: bool): AgentStep {
    if !InScope(a, env, isUWL) then AgentStep(a, [], false)
    else
      var applied := Applied(a, env, isUWL);
      if applied.Err? then AgentStep(a, [], true)
      else
        var refs := PlacementRefs(AnnotationOf(a));
        if refs.Err? then AgentStep(applied.value, [], true)
        else AgentStep(applied.value, ForRefs(refs.value, AgentConfig(a)), false)
  }

  function Processed(agents: seq<Agent>, env: Env, isUWL: bool): (p: Progress)
    ensures |p.agents| == |agents|
  {
    if agents == [] then Progress([], [], false)
    else
      var p, a := Processed(agents[..|agents| - 1], env, isUWL), agents[|agents| - 1];
      if p.failed then p.(agents := p.agents + [a])
      else
        var step := ProcessedOne(a, env, isUWL);
        Progress(p.agents + [step.agent], p.configs + step.configs, step.failed)
  }

  function ReconciledAgents(agents: seq<Agent>, env: Env, ps: seq<Placement>, isUWL: bool): Progress
  {
    var created := Created(agents, env, ps, isUWL);
    if created.Err? then Progress(agents, [], true)
    else if env.host == "" then Progress(created.value, [], true)
    else Processed(created.value, env, isUWL)
  }

  // ---------------------------------------------------------------- scrape configs and rules

  function RefsIn(ps: seq<Placement>): (r: seq<PlacementRef>)
    ensures |r| == |ps|
    ensures forall i :: 0 <= i < |ps| ==> r[i] == ps[i].ref
  {
    seq(|ps|, i requires 0 <= i < |ps| => ps[i].ref)
  }

  function ScrapeComponents(env: Env, isUWL: bool): set<string> {
    if !isUWL then {PLATFORM_APP}
    else {UWL_APP} + if env.hasHosted then {ETCD_APP, APISERVER_APP} else {}
  }

  function RuleComponents(env: Env): set<string> {
    (if env.platform then {PLATFORM_APP} else {}) + (if env.userWorkloads then ScrapeComponents(env, true) else {})
  }

  function ScrapeDefaults(env: Env, refs: seq<PlacementRef>, isUWL: bool): Result<seq<DefaultConfig>, string> {
    var uid := McoUID(env.ownerRefs);
    if uid == "" then Ok([]) else ObjectDefaults(env.scrapeConfigs, ScrapeComponents(env, isUWL), uid, refs)
  }

  function RuleDefaults(env: Env, refs: seq<PlacementRef>): Result<seq<DefaultConfig>, string> {
    var uid := McoUID(env.ownerRefs);
    if uid == "" then Ok([]) else ObjectDefaults(env.rules, RuleComponents(env), uid, refs)
  }

  // ---------------------------------------------------------------- the metrics resources

  function Component(p: Progress, env: Env, ps: seq<Placement>, isUWL: bool): Progress
  {
    if p.failed then p
    else
      var q := ReconciledAgents(p.agents, env, ps, isUWL);
      var scrape := ScrapeDefaults(env, RefsIn(ps), isUWL);
      if q.failed || scrape.Err? then Progress(q.agents, p.configs, true)
      else Progress(q.agents, p.configs + q.configs + scrape.value, false)
  }

  function Metrics(h: Hub, env: Env): Progress
  {
    var p0 := Progress(Migrated(h.agents), [], false);
    var p1 := if env.platform then Component(p0, env, h.placements, false) else p0;
    var p2 := if env.userWorkloads then Component(p1, env, h.placements, true) else p1;
    if p2.failed || !(env.platform || env.userWorkloads) then p2
    else
      var rules := RuleDefaults(env, RefsIn(h.placements));
      if rules.Err? then p2.(failed := true) else p2.(configs := p2.configs + rules.value)
  }

  // ---------------------------------------------------------------- orphans

  /** controllerutil.HasOwnerReference compares group, kind and name. */
  predicate IsOwnedByAddon(a: Agent) {
    exists i :: 0 <= i < |a.owners| && a.owners[i].group == "addon.open-cluster-management.io"
      && a.owners[i].kind == "ClusterManagementAddOn" && a.owners[i].name == ADDON_NAME
  }

  function PlacementTexts(ps: seq<Placement>): set<string> {
    set i | 0 <= i < |ps| :: RefText(ps[i].ref)
  }

  predicate IsOrphan(a: Agent, ps: seq<Placement>) {
    (IsOwnedByAddon(a) || Lookup(a.labels, PART_OF_LABEL) == ADDON_NAME) && !HasExistingRef(AnnotationOf(a), PlacementTexts(ps))
  }

  function Surviving(agents: seq<Agent>, ps: seq<Placement>): seq<Agent> {
    if agents == [] then []
    else Surviving(agents[..|agents| - 1], ps) + if IsOrphan(agents[|agents| - 1], ps) then [] else [agents[|agents| - 1]]
  }

  // ---------------------------------------------------------------- the pass

  function ObjectOf(a: Agent): Object {
    Object(RHOBS, PROMETHEUS_AGENT, HUB_NS, a.name)
  }

  function Stored(agents: seq<Agent>, env: Env): set<Object> {
    env.otherObjects + (set o | o in env.scrapeConfigs :: o.obj) + (set o | o in env.rules :: o.obj)
      + (set a | a in agents :: ObjectOf(a))
  }

  /** The hub after a pass, and whether the pass succeeded. */
  function Pass(h: Hub, env: Env): (Hub, bool)
  {
    var m := Metrics(h, env);
    if m.failed then (Hub(m.agents, h.placements), false)
    else
      var ps := Reconciled(h.placements, m.configs, Stored(m.agents, env));
      (Hub(Surviving(m.agents, ps), ps), true)
  }

  class Reconciler {
    const env: Env
    const cmao: ClusterManagementAddOn
    var agents: seq<Agent>

    ghost function State(): Hub
      reads this, cmao
    {
      Hub(agents, cmao.placements)
    }

    constructor (env: Env, cmao: ClusterManagementAddOn, agents: seq<Agent>)
      ensures this.env == env && this.cmao == cmao && this.agents == agents
    {
      this.env, this.cmao, this.agents := env, cmao, agents;
    }

    /** One pass over the hub. */
    method Reconcile() returns (ok: bool)
      modifies this, cmao
      ensures (State(), ok) == Pass(old(State()), env)
    {
      var configs;
      ok, configs := ReconcileMetrics();
      if !ok {
        return;
      }
      cmao.EnsureAddonConfig(configs, Stored(agents, env));
      DeleteOrphanResources();
    }

    method ReconcileMetrics() returns (ok: bool, configs: seq<DefaultConfig>)
      modifies this
      ensures Progress(agents, configs, !ok) == Metrics(old(State()), env)
    {
      MigrateAgentPlacementLabels();
      configs := [];
      ok := true;
      if env.platform {
        ok, configs := ReconcileComponent(configs, false);
      }
      if ok && env.userWorkloads {
        ok, configs := ReconcileComponent(configs, true);
      }
      if ok && (env.platform || env.userWorkloads) {
        var rules := GetPrometheusRules();
        if rules.Err? {
          ok := false;
        } else {
          configs := configs + rules.value;
        }
      }
    }

    method MigrateAgentPlacementLabels()
      modifies this
      ensures agents == Migrated(old(agents))
    {
      for i := 0 to |agents|
        invariant |agents| == |old(agents)|
        invariant forall k :: 0 <= k < i ==> agents[k] == MigratedIfManaged(old(agents)[k])
        invariant forall k :: i <= k < |agents| ==> agents[k] == old(agents)[k]
      {
        if IsManaged(agents[i]) {
          agents := agents[i := MigratedAgent(agents[i])];
        }
      }
    }

    method ReconcileComponent(configs0: seq<DefaultConfig>, isUWL: bool) returns (ok: bool, configs: seq<DefaultConfig>)
      modifies this
      ensures Progress(agents, configs, !ok) ==
              Component(Progress(old(agents), configs0, false), env, cmao.placements, isUWL)
    {
      configs := configs0;
      var agentConfigs;
      ok, agentConfigs := ReconcileAgents(isUWL);
      if !ok {
        return;
      }
      var scrape := ReconcileScrapeConfigs(isUWL);
      if scrape.Err? {
        return false, configs;
      }
      configs := configs + agentConfigs + scrape.value;
    }

    /** The placements each scrape config of the collector goes to. */
    method ReconcileScrapeConfigs(isUWL: bool) returns (res: Result<seq<DefaultConfig>, string>)
      ensures res == ScrapeDefaults(env, RefsIn(cmao.placements), isUWL)
    {
      var mcoUID := FindMcoUID(env.ownerRefs);
      if |mcoUID| == 0 {
        return Ok([]);
      }
      var labelVals := {};
      if isUWL {
        labelVals := labelVals + {UWL_APP};
        if env.hasHosted {
          labelVals := labelVals + {ETCD_APP, APISERVER_APP};
        }
      } else {
        labelVals := labelVals + {PLATFORM_APP};
      }
      assert labelVals == ScrapeComponents(env, isUWL);
      res := CollectDefaults(env.scrapeConfigs, labelVals, mcoUID, RefsIn(cmao.placements));
    }

    /** The placements each rule goes to. */
    method GetPrometheusRules() returns (res: Result<seq<DefaultConfig>, string>)
      ensures res == RuleDefaults(env, RefsIn(cmao.placements))
    {
      var mcoUID := FindMcoUID(env.ownerRefs);
      if |mcoUID| == 0 {
        return Ok([]);
      }
      var labelVals := {};
      if env.platform {
        labelVals := labelVals + {PLATFORM_APP};
      }
      if env.userWorkloads {
        labelVals := labelVals + {UWL_APP};
        if env.hasHosted {
          labelVals := labelVals + {ETCD_APP, APISERVER_APP};
        }
      }
      assert labelVals == RuleComponents(env);
      res := CollectDefaults(env.rules, labelVals, mcoUID, RefsIn(cmao.placements));
    }

    method ReconcileAgents(isUWL: bool) returns (ok: bool, configs: seq<DefaultConfig>)
      modifies this
      ensures Progress(agents, configs, !ok) == ReconciledAgents(old(agents), env, cmao.placements, isUWL)
    {
      configs := [];
      ok := CreateDefaultAgent(isUWL);
      if !ok {
        return;
      }
      if env.host == "" {
        return false, [];
      }
      ok, configs := ProcessAgents(isUWL);
    }

    /** Enforces the spec of every agent in scope and collects the configs it wants. */
    method ProcessAgents(isUWL: bool) returns (ok: bool, configs: seq<DefaultConfig>)
      modifies this
      ensures Progress(agents, configs, !ok) == Processed(old(agents), env, isUWL)
    {
      configs := [];
      ghost var listed := agents;
      assert Processed([], env, isUWL) == Progress([], [], false);
      hide Processed, ProcessedOne, InScope, Applied;
      ghost var done: seq<Agent> := [];
      for i := 0 to |agents|
        invariant |done| == i <= |listed| == |agents| && agents == done + listed[i..]
        invariant Processed(listed[..i], env, isUWL) == Progress(done, configs, false)
      {
        ProcessedStep(listed, env, isUWL, i, done, configs);
        UpdateSplit(done, listed, i, ProcessedOne(listed[i], env, isUWL).agent);
        assert agents[i] == listed[i];
        ok, configs := ProcessAgent(i, configs, isUWL);
        done := done + [agents[i]];
        if !ok {
          return;
        }
      }
      assert listed[..|listed|] == listed;
      ok := true;
    }

    method ProcessAgent(i: nat, configs0: seq<DefaultConfig>, isUWL: bool) returns (ok: bool, configs: seq<DefaultConfig>)
      requires i < |agents|
      modifies this
      ensures var step := ProcessedOne(old(agents)[i], env, isUWL);
        agents == old(agents)[i := step.agent] && configs == configs0 + step.configs && ok == !step.failed
    {
      configs := configs0;
      ok := true;
      var agent := agents[i];
      if InScope(agent, env, isUWL) {
        var applied := Applied(agent, env, isUWL);
        if applied.Err? {
          return false, configs;
        }
        agents := agents[i := applied.value];
        var refs := PlacementRefs(AnnotationOf(agent));
        if refs.Err? {
          return false, configs;
        }
        configs := configs + ForRefs(refs.value, AgentConfig(agent));
      }
    }

    method CreateDefaultAgent(isUWL: bool) returns (ok: bool)
      modifies this
      ensures var created := Created(old(agents), env, cmao.placements, isUWL);
        ok == created.Ok? && agents == if ok then created.value else old(agents)
    {
      var global := FindPlacementNamespace(cmao.placements, GLOBAL);
      var anchored, globalReferenced := SurveyAgents(global, isUWL);
      if anchored {
        return true;
      }
      var agent;
      if global.None? {
        agent := NewAgent(env, isUWL, DummyName(isUWL), PlacementRef(HUB_NS, DUMMY));
      } else if globalReferenced {
        agent := NewAgent(env, isUWL, DummyName(isUWL), PlacementRef(HUB_NS, DUMMY));
      } else {
        agent := NewAgent(env, isUWL, DefaultGlobalName(isUWL), PlacementRef(global.value, GLOBAL));
      }
      if NameTaken(agents, agent.name) {
        return false;
      }
      agents := agents + [agent];
      return true;
    }

    /** Looks for an anchor and for any agent that targets the global placement. */
    method SurveyAgents(global: Option<string>, isUWL: bool) returns (anchored: bool, globalReferenced: bool)
      ensures anchored == HasAnchor(agents, env, global, isUWL)
      ensures !anchored ==> globalReferenced == GlobalReferenced(agents, env, global, isUWL)
    {
      hide InScope, Targets;
      globalReferenced := false;
      for i := 0 to |agents|
        invariant forall k :: 0 <= k < i && InScope(agents[k], env, isUWL) ==> !IsAnchor(agents[k], global, isUWL)
        invariant globalReferenced <==> exists k :: 0 <= k < i && InScope(agents[k], env, isUWL) && TargetsGlobal(agents[k], global)
      {
        var agent := agents[i];
        if InScope(agent, env, isUWL) {
          if Targets(AnnotationOf(agent), HUB_NS, DUMMY) {
            return true, globalReferenced;
          }
          if TargetsGlobal(agent, global) && agent.name == DefaultGlobalName(isUWL) {
            return true, globalReferenced;
          }
          if TargetsGlobal(agent, global) {
            globalReferenced := true;
          }
        }
      }
      anchored := false;
    }

    /** Builds the set of placements and deletes the agents none of whose references is in it. */
    method DeleteOrphanResources()
      modifies this
      ensures agents == Surviving(old(agents), cmao.placements)
    {
      var placements := cmao.placements;
      var dict: set<string> := {};
      for i := 0 to |placements|
        invariant dict == set k | 0 <= k < i :: RefText(placements[k].ref)
      {
        dict := dict + {RefText(placements[i].ref)};
      }
      var listed := agents;
      var left: seq<Agent> := [];
      for i := 0 to |listed|
        invariant left == Surviving(listed[..i], placements)
      {
        assert listed[..i + 1][..i] == listed[..i];
        var kept := !IsOwnedByAddon(listed[i]) && Lookup(listed[i].labels, PART_OF_LABEL) != ADDON_NAME;
        if !kept {
          kept := HasExistingPlacementRef(AnnotationOf(listed[i]), dict);
        }
        if kept {
          left := left + [listed[i]];
        }
      }
      assert listed[..|listed|] == listed;
      agents := left;
    }
  }

  lemma UpdateSplit(done: seq<Agent>, listed: seq<Agent>, i: nat, a: Agent)
    requires i < |listed| && |done| == i
    ensures (done + listed[i..])[i := a] == done + [a] + listed[i + 1..]
  {
  }

  /** One more agent is processed; if that fails, the rest stays as listed. */
  lemma ProcessedStep(listed: seq<Agent>, env: Env, isUWL: bool, i: nat, done: seq<Agent>, configs: seq<DefaultConfig>)
    requires i < |listed| && Processed(listed[..i], env, isUWL) == Progress(done, configs, false)
    ensures var step := ProcessedOne(listed[i], env, isUWL);
      && Processed(listed[..i + 1], env, isUWL) == Progress(done + [step.agent], configs + step.configs, step.failed)
      && (step.failed ==>
            Processed(listed, env, isUWL) == Progress(done + [step.agent] + listed[i + 1..], configs + step.configs, true))
  {
    hide ProcessedOne, Processed;
    assert listed[..i + 1][..i] == listed[..i];
    ProcessedNext(listed[..i + 1], env, isUWL);
    if ProcessedOne(listed[i], env, isUWL).failed {
      ProcessedStops(listed, env, isUWL, i + 1);
    }
  }

  lemma ProcessedNext(agents: seq<Agent>, env: Env, isUWL: bool)
    requires agents != [] && !Processed(agents[..|agents| - 1], env, isUWL).failed
    ensures var p, step := Processed(agents[..|agents| - 1], env, isUWL), ProcessedOne(agents[|agents| - 1], env, isUWL);
      Processed(agents, env, isUWL) == Progress(p.agents + [step.agent], p.configs + step.configs, step.failed)
  {
  }

  /** After an error the rest of the list is left alone. */
  lemma {:induction false} ProcessedStops(agents: seq<Agent>, env: Env, isUWL: bool, i: nat)
    requires i <= |agents| && Processed(agents[..i], env, isUWL).failed
    ensures var p := Processed(agents[..i], env, isUWL);
      Processed(agents, env, isUWL) == Progress(p.agents + agents[i..], p.configs, true)
    decreases |agents|
  {
    hide ProcessedOne;
    if i == |agents| {
      assert agents[..i] == agents;
    } else {
      var init := agents[..|agents| - 1];
      assert init[..i] == agents[..i];
      ProcessedStops(init, env, isUWL, i);
      assert agents[i..] == init[i..] + [agents[|agents| - 1]];
    }
  }
}
