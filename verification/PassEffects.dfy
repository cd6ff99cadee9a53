/** What a successful pass of the resource creator leaves on the hub, in terms of the objects before
    it: the enforced specs of the agents and the configs attached to the placements. */
module PassEffects {
  import opened Config
  import opened Wrappers
  import opened RemoteWrites
  import opened Placements
  import opened AddonConfigs
  import opened AgentSpec
  import opened PlacementDefaults
  import opened HubReconcile
  import opened Convergence
  import opened PassConditions
  import opened PassFailures

  // ---------------------------------------------------------------- the agents of a collector

  /** The agent has the collector's component label, and the addon controls it or it has the part-of
      label. */
  ghost predicate IsCollectorAgent(a: Agent, env: Env, isUWL: bool) {
    && Lookup(a.labels, "app.kubernetes.io/component") ==
         (if isUWL then "user-workload-metrics-collector" else "platform-metrics-collector")
    && (|| (exists o :: o in a.owners && o.controller && o.uid == env.uid)
        || Lookup(a.labels, "app.kubernetes.io/part-of") == ADDON_NAME)
  }

  lemma ScopeIff(a: Agent, env: Env, isUWL: bool)
    ensures InScope(a, env, isUWL) <==> IsCollectorAgent(a, env, isUWL)
  {
    if o :| o in a.owners && o.controller && o.uid == env.uid {
      var i :| 0 <= i < |a.owners| && a.owners[i] == o;
    }
  }

  // ---------------------------------------------------------------- the default agent

  function App(isUWL: bool): string {
    if isUWL then "user-workload-metrics-collector" else "platform-metrics-collector"
  }

  /** The collector needs no default agent exactly if one of its agents targets the sentinel, or the
      one that has the name of the default agent targets the global placement. */
  lemma NothingMissingIff(agents: seq<Agent>, env: Env, ps: seq<Placement>, isUWL: bool)
    ensures MissingAgent(agents, env, ps, isUWL).None? <==>
      var global := FindPlacementNamespace(ps, "global");
      exists a :: a in agents && IsCollectorAgent(a, env, isUWL)
        && (|| Targets(AnnotationOf(a), HUB_NS, "dummy")
            || (global.Some? && Targets(AnnotationOf(a), global.value, "global")
                && a.name == "mcoa-default-" + App(isUWL) + "-global-default"))
  {
    hide Targets, InScope, IsCollectorAgent, FindPlacementNamespace;
    var global := FindPlacementNamespace(ps, GLOBAL);
    DefaultNames(isUWL);
    forall a ensures InScope(a, env, isUWL) <==> IsCollectorAgent(a, env, isUWL) { ScopeIff(a, env, isUWL); }
    if a :| a in agents && InScope(a, env, isUWL) && IsAnchor(a, global, isUWL) {
      var i :| 0 <= i < |agents| && agents[i] == a;
      assert HasAnchor(agents, env, global, isUWL);
    }
    if HasAnchor(agents, env, global, isUWL) {
      var i :| 0 <= i < |agents| && InScope(agents[i], env, isUWL) && IsAnchor(agents[i], global, isUWL);
      assert agents[i] in agents;
    }
  }

  lemma DefaultNames(isUWL: bool)
    ensures DefaultGlobalName(isUWL) == "mcoa-default-" + App(isUWL) + "-global-default"
    ensures DummyName(isUWL) == "mcoa-default-" + App(isUWL) + "-dummy"
  {
    hide App;
    assert ComponentName(isUWL) == App(isUWL) by { AppIs(isUWL); }
    assert DefaultGlobalName(isUWL) == "mcoa-default-" + App(isUWL) + ("-global" + "-default");
  }

  lemma AppIs(isUWL: bool)
    ensures ComponentName(isUWL) == App(isUWL)
  {
  }

  /** The agent that is missing is for the global placement if there is one and no agent of the
      collector targets it, and for the sentinel otherwise; it is the addon's. */
  lemma MissingIs(agents: seq<Agent>, env: Env, ps: seq<Placement>, isUWL: bool)
    requires MissingAgent(agents, env, ps, isUWL).Some?
    ensures var a, global := MissingAgent(agents, env, ps, isUWL).value, FindPlacementNamespace(ps, "global");
      && a.owners == [OwnerRef("addon.open-cluster-management.io", "ClusterManagementAddOn", ADDON_NAME, env.uid, true)]
      && a.labels == map["app.kubernetes.io/managed-by" := ADDON_NAME, "app.kubernetes.io/component" := App(isUWL)]
      && a.spec == (if isUWL then env.uwlDefault else env.platformDefault)
      && if global.Some? && forall b :: b in agents && IsCollectorAgent(b, env, isUWL) ==> !Targets(AnnotationOf(b), global.value, "global") then
           a.name == "mcoa-default-" + App(isUWL) + "-global-default" && a.annotations == map[PLACEMENTS_KEY := global.value + "/global"]
         else
           a.name == "mcoa-default-" + App(isUWL) + "-dummy" && a.annotations == map[PLACEMENTS_KEY := HUB_NS + "/dummy"]
  {
    hide Targets, InScope, IsCollectorAgent, FindPlacementNamespace, HasAnchor, DefaultGlobalName, DummyName;
    var global := FindPlacementNamespace(ps, GLOBAL);
    DefaultNames(isUWL);
    AppIs(isUWL);
    forall a ensures InScope(a, env, isUWL) <==> IsCollectorAgent(a, env, isUWL) { ScopeIff(a, env, isUWL); }
    if global.Some? {
      assert HUB_NS + "/" + "dummy" == HUB_NS + "/dummy" && global.value + "/" + "global" == global.value + "/global";
      if b :| b in agents && IsCollectorAgent(b, env, isUWL) && Targets(AnnotationOf(b), global.value, "global") {
        var i :| 0 <= i < |agents| && agents[i] == b;
        assert GlobalReferenced(agents, env, global, isUWL);
      }
    } else {
      assert HUB_NS + "/" + "dummy" == HUB_NS + "/dummy";
    }
  }

  // ---------------------------------------------------------------- enforcement, one agent

  /** What enforcing makes of one agent of a collector: its spec is the enforced one; if that is the
      one it had, nothing happens at all; otherwise the addon is its controller and the backup label
      is set, and its name, annotations, other labels and other owners stay. */
  ghost predicate EnforcedAgent(a: Agent, b: Agent, env: Env, isUWL: bool) {
    && b.spec == Enforced(a.spec, if isUWL then env.uwlSettings else env.platformSettings)
    && b.name == a.name && b.annotations == a.annotations
    && (b.spec == a.spec ==> b == a)
    && (b.spec != a.spec ==>
          && OwnerRef("addon.open-cluster-management.io", "ClusterManagementAddOn", ADDON_NAME, env.uid, true) in b.owners
          && (forall o :: o in b.owners && o.controller ==> o.uid == env.uid)
          && (forall o :: o in a.owners && o.uid != env.uid ==> o in b.owners)
          && "cluster.open-cluster-management.io/backup" in b.labels
          && b.labels["cluster.open-cluster-management.io/backup"] == ""
          && b.labels - {BACKUP_LABEL} == a.labels - {BACKUP_LABEL})
  }

  lemma OwnersApplied(owners: seq<OwnerRef>, env: Env)
    requires !HasForeignController(owners, env.uid)
    ensures var r := WithAddonOwner(owners, env);
      && OwnerRef("addon.open-cluster-management.io", "ClusterManagementAddOn", ADDON_NAME, env.uid, true) in r
      && (forall o :: o in r && o.controller ==> o.uid == env.uid)
      && (forall o :: o in owners && o.uid != env.uid ==> o in r)
  {
    var r := WithAddonOwner(owners, env);
    if HasUID(owners, env.uid) {
      var i :| 0 <= i < |owners| && owners[i].uid == env.uid;
      assert r[i] == AddonOwner(env);
    } else {
      assert r[|owners|] == AddonOwner(env);
    }
    forall o | o in owners && o.uid != env.uid ensures o in r {
      var i :| 0 <= i < |owners| && owners[i] == o;
      assert r[i] == o;
    }
  }

  /** An apply is made exactly if it changes the spec. */
  lemma UnchangedNotApplied(spec: Spec, s: Settings)
    ensures Enforced(spec, s) == spec <==> Derivative(Built(spec, s), spec)
  {
    hide Derivative, Built;
    if Overwritten(spec, Built(spec, s)) == spec {
      assert Built(spec, s) == spec.(free := "") by { BuiltFree(spec, s); }
      DerivativeReflexive(spec);
    }
  }

  lemma BuiltFree(spec: Spec, s: Settings)
    ensures Built(spec, s).free == ""
  {
  }

  lemma AppliedEnforces(a: Agent, env: Env, isUWL: bool)
    requires Applied(a, env, isUWL).Ok?
    ensures EnforcedAgent(a, Applied(a, env, isUWL).value, env, isUWL)
  {
    hide Derivative, Built, Overwritten, WithAddonOwner, HasForeignController;
    var s := if isUWL then env.uwlSettings else env.platformSettings;
    UnchangedNotApplied(a.spec, s);
    if !Derivative(Built(a.spec, s), a.spec) {
      OwnersApplied(a.owners, env);
    }
  }

  /** After a run without errors every agent of the collector is enforced and every other one is as it
      was. */
  lemma {:induction false} ProcessedEnforces(agents: seq<Agent>, env: Env, isUWL: bool)
    requires !Processed(agents, env, isUWL).failed
    ensures var after := Processed(agents, env, isUWL).agents;
      forall i :: 0 <= i < |agents| ==>
        if IsCollectorAgent(agents[i], env, isUWL) then EnforcedAgent(agents[i], after[i], env, isUWL) else after[i] == agents[i]
  {
    hide Applied, InScope, EnforcedAgent, PlacementRefs, IsCollectorAgent;
    if agents != [] {
      var init, a := agents[..|agents| - 1], agents[|agents| - 1];
      ProcessedEnforces(init, env, isUWL);
      assert forall i :: 0 <= i < |init| ==> agents[i] == init[i];
      ScopeIff(a, env, isUWL);
      if InScope(a, env, isUWL) {
        AppliedEnforces(a, env, isUWL);
      }
    }
  }

  /** The agent's spec needs enforcing while somebody else controls the agent. */
  ghost predicate IsLocked(a: Agent, env: Env, isUWL: bool) {
    && Enforced(a.spec, if isUWL then env.uwlSettings else env.platformSettings) != a.spec
    && exists o :: o in a.owners && o.controller && o.uid != env.uid
  }

  /** An agent makes the pass fail exactly if it is in scope and either its spec needs enforcing while
      somebody else controls it, or its annotation is malformed. */
  lemma AgentFailsIff(a: Agent, env: Env, isUWL: bool)
    ensures ProcessedOne(a, env, isUWL).failed <==>
      && IsCollectorAgent(a, env, isUWL)
      && (PlacementRefs(AnnotationOf(a)).Err? || IsLocked(a, env, isUWL))
  {
    hide Derivative, Built, Overwritten, PlacementRefs, InScope, WithAddonOwner, Enforced, IsCollectorAgent;
    ScopeIff(a, env, isUWL);
    UnchangedNotApplied(a.spec, if isUWL then env.uwlSettings else env.platformSettings);
    if o :| o in a.owners && o.controller && o.uid != env.uid {
      var i :| 0 <= i < |a.owners| && a.owners[i] == o;
    }
  }

  /** What happens to an agent that makes the run fail: one that is locked stays as it is, one with a
      malformed annotation is enforced before that is found out. */
  lemma FailedEnforces(a: Agent, env: Env, isUWL: bool)
    requires ProcessedOne(a, env, isUWL).failed
    ensures var b := ProcessedOne(a, env, isUWL).agent;
      if IsLocked(a, env, isUWL) then b == a else PlacementRefs(AnnotationOf(a)).Err? && EnforcedAgent(a, b, env, isUWL)
  {
    hide Derivative, Built, Overwritten, PlacementRefs, InScope, WithAddonOwner, Enforced, IsCollectorAgent, EnforcedAgent;
    AgentFailsIff(a, env, isUWL);
    UnchangedNotApplied(a.spec, if isUWL then env.uwlSettings else env.platformSettings);
    if Applied(a, env, isUWL).Ok? {
      AppliedEnforces(a, env, isUWL);
      assert !IsLocked(a, env, isUWL) by {
        if o :| o in a.owners && o.controller && o.uid != env.uid {
          var i :| 0 <= i < |a.owners| && a.owners[i] == o;
        }
      }
    } else {
      var i :| 0 <= i < |a.owners| && a.owners[i].controller && a.owners[i].uid != env.uid;
      assert a.owners[i] in a.owners;
    }
  }

  /** The agent was handled without an error. */
  ghost predicate Handled(a: Agent, b: Agent, env: Env, isUWL: bool) {
    if IsCollectorAgent(a, env, isUWL) then
      !IsLocked(a, env, isUWL) && PlacementRefs(AnnotationOf(a)).Ok? && EnforcedAgent(a, b, env, isUWL)
    else b == a
  }

  /** The agents before position `k` were handled, the one there made the run fail, and those behind it
      are as they were. */
  ghost predicate StopsAt(agents: seq<Agent>, p: Progress, env: Env, isUWL: bool, k: int) {
    var after := p.agents;
    && 0 <= k <= |agents| == |after|
    && (p.failed <==> k < |agents|)
    && (forall i :: 0 <= i < k ==> Handled(agents[i], after[i], env, isUWL))
    && (forall i :: k < i < |agents| ==> after[i] == agents[i])
    && (k < |agents| ==>
          && IsCollectorAgent(agents[k], env, isUWL)
          && if IsLocked(agents[k], env, isUWL) then after[k] == agents[k]
             else PlacementRefs(AnnotationOf(agents[k])).Err? && EnforcedAgent(agents[k], after[k], env, isUWL))
  }

  lemma HandledOne(a: Agent, env: Env, isUWL: bool)
    requires !ProcessedOne(a, env, isUWL).failed
    ensures Handled(a, ProcessedOne(a, env, isUWL).agent, env, isUWL)
  {
    hide Applied, InScope, EnforcedAgent, PlacementRefs, IsCollectorAgent, IsLocked;
    AgentFailsIff(a, env, isUWL);
    ScopeIff(a, env, isUWL);
    if InScope(a, env, isUWL) {
      AppliedEnforces(a, env, isUWL);
    }
  }

  /** A run over the agents of a collector handles them in order and stops at the first that fails;
      without one it handles all. */
  lemma {:induction false} ProcessedStopsAt(agents: seq<Agent>, env: Env, isUWL: bool)
    ensures exists k :: StopsAt(agents, Processed(agents, env, isUWL), env, isUWL, k)
  {
    hide ProcessedOne, EnforcedAgent, PlacementRefs, IsCollectorAgent, IsLocked, Handled, AnnotationOf;
    if agents == [] {
      assert StopsAt(agents, Processed(agents, env, isUWL), env, isUWL, 0);
    } else {
      var init, a := agents[..|agents| - 1], agents[|agents| - 1];
      ProcessedStopsAt(init, env, isUWL);
      var p := Processed(init, env, isUWL);
      var k :| StopsAt(init, p, env, isUWL, k);
      if p.failed {
        assert StopsAt(agents, Processed(agents, env, isUWL), env, isUWL, k);
      } else if ProcessedOne(a, env, isUWL).failed {
        AgentFailsIff(a, env, isUWL);
        FailedEnforces(a, env, isUWL);
        assert StopsAt(agents, Processed(agents, env, isUWL), env, isUWL, |init|);
      } else {
        HandledOne(a, env, isUWL);
        assert StopsAt(agents, Processed(agents, env, isUWL), env, isUWL, |agents|);
      }
    }
  }

  // ---------------------------------------------------------------- enforcement, a whole pass

  /** The agent's spec is the enforced one of the listed agent with its name, or of the default agent. */
  ghost predicate EnforcedFrom(b: Agent, agents: seq<Agent>, env: Env, isUWL: bool) {
    var s := if isUWL then env.uwlSettings else env.platformSettings;
    || (exists i :: 0 <= i < |agents| && agents[i].name == b.name && b.spec == Enforced(agents[i].spec, s))
    || b.spec == Enforced(if isUWL then env.uwlDefault else env.platformDefault, s)
  }

  lemma ProcessedScope(agents: seq<Agent>, env: Env, isUWL: bool, j: nat)
    requires !Processed(agents, env, isUWL).failed && j < |agents|
    ensures InScope(Processed(agents, env, isUWL).agents[j], env, isUWL) ==> InScope(agents[j], env, isUWL)
  {
    hide Processed, InScope, SameIdentity;
    ProcessedFacts(agents, env, isUWL);
    assert Stepped(agents[j], Processed(agents, env, isUWL).agents[j], env, isUWL);
  }

  lemma EnforcedParts(a: Agent, b: Agent, env: Env, isUWL: bool)
    requires EnforcedAgent(a, b, env, isUWL)
    ensures b.name == a.name && b.spec == Enforced(a.spec, if isUWL then env.uwlSettings else env.platformSettings)
  {
  }

  /** What one collector's reconciliation makes of its agents. */
  lemma ReconciledEnforces(agents: seq<Agent>, env: Env, ps: seq<Placement>, isUWL: bool, j: nat)
    requires !ReconciledAgents(agents, env, ps, isUWL).failed && j < |ReconciledAgents(agents, env, ps, isUWL).agents|
    ensures var b := ReconciledAgents(agents, env, ps, isUWL).agents[j];
      InScope(b, env, isUWL) ==>
        if j < |agents| then InScope(agents[j], env, isUWL) && EnforcedAgent(agents[j], b, env, isUWL)
        else EnforcedFrom(b, [], env, isUWL)
  {
    hide Processed, InScope, EnforcedAgent, MissingAgent, NameTaken, Enforced, IsCollectorAgent;
    var created := Created(agents, env, ps, isUWL).value;
    ProcessedEnforces(created, env, isUWL);
    ProcessedScope(created, env, isUWL, j);
    ScopeIff(created[j], env, isUWL);
    var b := ReconciledAgents(agents, env, ps, isUWL).agents[j];
    if InScope(b, env, isUWL) && j >= |agents| {
      EnforcedParts(created[j], b, env, isUWL);
      MissingSpec(agents, env, ps, isUWL);
    }
  }

  lemma MissingSpec(agents: seq<Agent>, env: Env, ps: seq<Placement>, isUWL: bool)
    requires MissingAgent(agents, env, ps, isUWL).Some?
    ensures MissingAgent(agents, env, ps, isUWL).value.spec == if isUWL then env.uwlDefault else env.platformDefault
  {
  }

  lemma MigratedSame(agents: seq<Agent>, i: nat)
    requires i < |agents|
    ensures Migrated(agents)[i].name == agents[i].name && Migrated(agents)[i].spec == agents[i].spec
  {
    MigrationSettles(agents[i]);
  }

  lemma AgentsOf(p: Progress, env: Env, ps: seq<Placement>, isUWL: bool)
    requires !p.failed
    ensures Component(p, env, ps, isUWL).agents == ReconciledAgents(p.agents, env, ps, isUWL).agents
    ensures !Component(p, env, ps, isUWL).failed ==> !ReconciledAgents(p.agents, env, ps, isUWL).failed
  {
  }

  lemma MetricsEnforces(h: Hub, env: Env, isUWL: bool, b: Agent)
    requires CleanPlacements(h.placements) && !Metrics(h, env).failed && Enabled(env, isUWL)
    requires b in Metrics(h, env).agents && InScope(b, env, isUWL)
    ensures EnforcedFrom(b, h.agents, env, isUWL)
  {
    hide Component, ReconciledAgents, InScope, RuleDefaults, ScrapeDefaults, Enforced, EnforcedAgent, AllStable, AllSettled,
         HasAnchor, SomeWishes, CleanPlacements, FindPlacementNamespace;
    var ps := h.placements;
    var p0 := Progress(Migrated(h.agents), [], false);
    var p1 := if env.platform then Component(p0, env, ps, false) else p0;
    FailedStays(p1, env, ps, true);
    var p2 := if env.userWorkloads then Component(p1, env, ps, true) else p1;
    var j :| 0 <= j < |p2.agents| && p2.agents[j] == b;
    if env.platform {
      AgentsOf(p0, env, ps, false);
      AgentsFacts(p0.agents, env, ps, false);
    }
    if env.userWorkloads {
      AgentsOf(p1, env, ps, true);
      AgentsFacts(p1.agents, env, ps, true);
    }
    if isUWL {
      ReconciledEnforces(p1.agents, env, ps, true, j);
      if j < |p1.agents| {
        assert p1.agents[j] == p0.agents[j];
        EnforcedParts(p1.agents[j], b, env, true);
        MigratedSame(h.agents, j);
      }
    } else {
      assert p1.agents[j] == b;
      ReconciledEnforces(p0.agents, env, ps, false, j);
      if j < |p0.agents| {
        EnforcedParts(p0.agents[j], b, env, false);
        MigratedSame(h.agents, j);
      }
    }
  }

  /** After a successful pass the spec of every agent of an enabled collector is the enforced one of the
      agent that was there under its name, or of the default agent. */
  lemma PassEnforces(h: Hub, env: Env, isUWL: bool, b: Agent)
    requires CleanPlacements(h.placements) && Pass(h, env).1 && Enabled(env, isUWL)
    requires b in Pass(h, env).0.agents && IsCollectorAgent(b, env, isUWL)
    ensures EnforcedFrom(b, h.agents, env, isUWL)
  {
    hide Metrics, CleanPlacements, Surviving, Reconciled, Stored, EnforcedFrom, InScope, IsCollectorAgent;
    ScopeIff(b, env, isUWL);
    SurvivingHas(Metrics(h, env).agents, Pass(h, env).0.placements, b);
    MetricsEnforces(h, env, isUWL, b);
  }

  /** A malformed scrape config makes the pass fail, but not before the agents of its collector are
      enforced. */
  lemma MalformedStillEnforces(p: Progress, env: Env, ps: seq<Placement>, isUWL: bool, j: nat)
    requires !p.failed && !ReconciledAgents(p.agents, env, ps, isUWL).failed && j < |Component(p, env, ps, isUWL).agents|
    ensures Component(p, env, ps, isUWL).failed <==> ScrapeDefaults(env, RefsIn(ps), isUWL).Err?
    ensures var b := Component(p, env, ps, isUWL).agents[j];
      IsCollectorAgent(b, env, isUWL) ==> EnforcedFrom(b, p.agents, env, isUWL)
  {
    hide ReconciledAgents, IsCollectorAgent, ScrapeDefaults, InScope, EnforcedAgent, Enforced;
    var b := Component(p, env, ps, isUWL).agents[j];
    ScopeIff(b, env, isUWL);
    AgentsOf(p, env, ps, isUWL);
    if IsCollectorAgent(b, env, isUWL) {
      ReconciledEnforces(p.agents, env, ps, isUWL, j);
      if j < |p.agents| {
        EnforcedParts(p.agents[j], b, env, isUWL);
      }
    }
  }

  lemma ReconciledAnnotations(agents: seq<Agent>, env: Env, ps: seq<Placement>, isUWL: bool)
    ensures |agents| <= |ReconciledAgents(agents, env, ps, isUWL).agents|
    ensures forall i :: 0 <= i < |agents| ==> ReconciledAgents(agents, env, ps, isUWL).agents[i].annotations == agents[i].annotations
  {
    hide Processed, InScope, MissingAgent, NameTaken, AllSettled;
    if Created(agents, env, ps, isUWL).Ok? {
      var created := Created(agents, env, ps, isUWL).value;
      ProcessedAgain(created, env, isUWL);
      var after := Processed(created, env, isUWL).agents;
      forall i | 0 <= i < |created| ensures after[i].annotations == created[i].annotations {
        assert Stepped(created[i], after[i], env, isUWL);
      }
    }
  }

  /** What a failed pass has done before the error stays: the placement labels are migrated. */
  lemma FailedPassMigrates(h: Hub, env: Env, i: nat)
    requires !Pass(h, env).1 && i < |h.agents|
    ensures i < |Pass(h, env).0.agents|
    ensures Pass(h, env).0.agents[i].annotations == MigratedIfManaged(h.agents[i]).annotations
  {
    hide ReconciledAgents, ScrapeDefaults, RuleDefaults, MigratedIfManaged;
    var p0 := Progress(Migrated(h.agents), [], false);
    var p1 := if env.platform then Component(p0, env, h.placements, false) else p0;
    ReconciledAnnotations(p0.agents, env, h.placements, false);
    ReconciledAnnotations(p1.agents, env, h.placements, true);
  }

  /** A failed pass attaches nothing and deletes nothing: the placements stay, every agent is still
      there under its name in its place, and new ones are default agents. */
  lemma FailedPassDeletesNothing(h: Hub, env: Env)
    requires !Pass(h, env).1
    ensures var h1 := Pass(h, env).0;
      && h1.placements == h.placements && |h.agents| <= |h1.agents|
      && (forall i :: 0 <= i < |h.agents| ==> h1.agents[i].name == h.agents[i].name)
      && (forall i :: |h.agents| <= i < |h1.agents| ==>
            h1.agents[i].name in {DummyName(false), DefaultGlobalName(false), DummyName(true), DefaultGlobalName(true)})
  {
    hide ReconciledAgents, ScrapeDefaults, RuleDefaults, DummyName, DefaultGlobalName, MigratedIfManaged;
    var p0 := Progress(Migrated(h.agents), [], false);
    var p1 := if env.platform then Component(p0, env, h.placements, false) else p0;
    forall i | 0 <= i < |h.agents| ensures p0.agents[i].name == h.agents[i].name {
      MigratedSame(h.agents, i);
    }
    ReconciledNames(p0.agents, env, h.placements, false);
    ReconciledNames(p1.agents, env, h.placements, true);
  }

  // ---------------------------------------------------------------- what an enforced spec carries

  /** The spec mounts the hub's mTLS secrets, has the addon's remote write to the hub with the files of
      these, and runs the proxy; an unset setting accepts what is there. */
  ghost predicate Carries(spec: Spec, s: Settings) {
    && HUB_CA_SECRET in spec.secrets && CLIENT_CERT_SECRET in spec.secrets
    && (exists k :: 0 <= k < |spec.remoteWrite| && IsHubWrite(spec.remoteWrite[k], s.endpoint))
    && s.proxyVolume in spec.volumes && s.proxyContainer in spec.containers
    && (s.fixed != "" ==> spec.fixed == s.fixed)
  }

  ghost predicate IsHubWrite(rw: RemoteWrite<string>, endpoint: string) {
    && rw.name == Some("acm-observability")
    && (endpoint != "" ==> rw.url == endpoint)
    && rw.tls.Some?
    && rw.tls.value.caFile == "/etc/prometheus/secrets/" + HUB_CA_SECRET + "/ca.crt"
    && rw.tls.value.certFile == "/etc/prometheus/secrets/" + CLIENT_CERT_SECRET + "/tls.crt"
    && rw.tls.value.keyFile == "/etc/prometheus/secrets/" + CLIENT_CERT_SECRET + "/tls.key"
  }

  lemma PrefixHas<T>(xs: seq<T>, ys: seq<T>, x: T)
    requires xs <= ys && x in xs
    ensures x in ys
  {
    var i :| 0 <= i < |xs| && xs[i] == x;
    assert ys[i] == x;
  }

  lemma MainIsHubWrite(endpoint: string, found: Option<RemoteWrite<string>>)
    ensures IsHubWrite(MainRemoteWrite(endpoint, found), endpoint)
  {
  }

  lemma DerivativeHubWrite(a: RemoteWrite<string>, b: RemoteWrite<string>, endpoint: string)
    requires IsHubWrite(a, endpoint) && DerivativeRemoteWrite(a, b)
    ensures IsHubWrite(b, endpoint)
  {
  }

  lemma BuiltCarries(spec: Spec, s: Settings)
    ensures Carries(Built(spec, s), s)
    ensures MainIndex(spec.remoteWrite) < |Built(spec, s).remoteWrite|
    ensures IsHubWrite(Built(spec, s).remoteWrite[MainIndex(spec.remoteWrite)], s.endpoint)
  {
    hide IsHubWrite, MainRemoteWrite, BuiltRemoteWrite, MainIndex;
    var k := MainIndex(spec.remoteWrite);
    BuiltHasSingle(spec.remoteWrite, s.endpoint);
    MainIsHubWrite(s.endpoint, if k < |spec.remoteWrite| then Some(spec.remoteWrite[k]) else None);
    SecretsEnforced(spec.secrets);
  }

  lemma DerivativeCarries(spec: Spec, s: Settings)
    requires Derivative(Built(spec, s), spec)
    ensures Carries(spec, s)
  {
    hide Built, MainIndex, IsHubWrite, DerivativeRemoteWrite;
    var built, k := Built(spec, s), MainIndex(spec.remoteWrite);
    BuiltCarries(spec, s);
    BuiltLists(spec, s);
    PrefixHas(built.secrets, spec.secrets, HUB_CA_SECRET);
    PrefixHas(built.secrets, spec.secrets, CLIENT_CERT_SECRET);
    PrefixHas(built.volumes, spec.volumes, s.proxyVolume);
    PrefixHas(built.containers, spec.containers, s.proxyContainer);
    DerivativeHubWrite(built.remoteWrite[k], spec.remoteWrite[k], s.endpoint);
  }

  lemma BuiltLists(spec: Spec, s: Settings)
    ensures Built(spec, s).volumes == [s.proxyVolume] && Built(spec, s).containers == [s.proxyContainer] && Built(spec, s).fixed == s.fixed
  {
  }

  /** Whatever the stored spec was, the enforced one carries all of it, and the user's secrets, remote
      writes and free settings are still there, in their order. */
  lemma EnforcedCarries(spec: Spec, s: Settings)
    ensures Carries(Enforced(spec, s), s)
    ensures spec.secrets <= Enforced(spec, s).secrets && Enforced(spec, s).free == spec.free
    ensures Others(Enforced(spec, s).remoteWrite) == Others(spec.remoteWrite)
  {
    hide Derivative, Carries, Others, BuiltRemoteWrite;
    BuiltCarries(spec, s);
    SecretsEnforced(spec.secrets);
    BuiltKeepsOthers(spec.remoteWrite, s.endpoint);
    if Derivative(Built(spec, s), spec) {
      DerivativeCarries(spec, s);
    } else {
      CarriesAnyFree(Built(spec, s), spec.free, s);
    }
  }

  lemma CarriesAnyFree(spec: Spec, free: string, s: Settings)
    requires Carries(spec, s)
    ensures Carries(spec.(free := free), s)
  {
    hide IsHubWrite;
  }

  /** After a successful pass every agent of an enabled collector writes to the hub. */
  lemma PassCarries(h: Hub, env: Env, isUWL: bool, b: Agent)
    requires CleanPlacements(h.placements) && Pass(h, env).1 && Enabled(env, isUWL)
    requires b in Pass(h, env).0.agents && IsCollectorAgent(b, env, isUWL)
    ensures Carries(b.spec, if isUWL then env.uwlSettings else env.platformSettings)
  {
    hide Pass, CleanPlacements, IsCollectorAgent, Enforced, Carries;
    var s := if isUWL then env.uwlSettings else env.platformSettings;
    PassEnforces(h, env, isUWL, b);
    if i :| 0 <= i < |h.agents| && h.agents[i].name == b.name && b.spec == Enforced(h.agents[i].spec, s) {
      EnforcedCarries(h.agents[i].spec, s);
    } else {
      EnforcedCarries(if isUWL then env.uwlDefault else env.platformDefault, s);
    }
  }

  // ---------------------------------------------------------------- who wants what

  /** The component label is one of the collector's; those for hosted clusters count only if there are
      any. */
  predicate IsForCollector(o: ConfigObject, env: Env, isUWL: bool) {
    var component := Lookup(o.labels, "app.kubernetes.io/component");
    if isUWL then
      || component == "user-workload-metrics-collector"
      || (env.hasHosted && (component == "etcd-hcp-user-workload-metrics-collector" || component == "apiserver-hcp-user-workload-metrics-collector"))
    else component == "platform-metrics-collector"
  }

  /** The object wants its config at the placement: one that the controller of the
      ClusterManagementAddOn owns at every placement, one that a user marked as the addon's at those
      its annotation names. */
  ghost predicate WantsAt(o: ConfigObject, env: Env, ps: seq<Placement>, d: DefaultConfig) {
    exists uid :: uid != "" && Controls(env.ownerRefs, uid)
      && NamesObject(d.config, o.obj)
      && if HasControllerUID(o.owners, uid) then d.ref in RefsIn(ps)
         else Lookup(o.labels, PART_OF_LABEL) == ADDON_NAME
              && PlacementRefs(Lookup(o.annotations, PLACEMENTS_KEY)).Ok?
              && d.ref in PlacementRefs(Lookup(o.annotations, PLACEMENTS_KEY)).value
  }

  ghost predicate ScrapeConfigWants(env: Env, ps: seq<Placement>, isUWL: bool, d: DefaultConfig) {
    exists o :: o in env.scrapeConfigs && IsForCollector(o, env, isUWL) && WantsAt(o, env, ps, d)
  }

  /** Rules are taken for the enabled collectors. */
  ghost predicate RuleWants(env: Env, ps: seq<Placement>, d: DefaultConfig) {
    exists o, isUWL :: o in env.rules && Enabled(env, isUWL) && IsForCollector(o, env, isUWL) && WantsAt(o, env, ps, d)
  }

  /** An agent of the collector wants its config at the placements its annotation names. */
  ghost predicate AsksFor(a: Agent, env: Env, isUWL: bool, d: DefaultConfig) {
    && IsCollectorAgent(a, env, isUWL)
    && PlacementRefs(AnnotationOf(a)).Ok? && d.ref in PlacementRefs(AnnotationOf(a)).value
    && NamesObject(d.config, Object("monitoring.rhobs", "PrometheusAgent", HUB_NS, a.name))
  }

  ghost predicate AgentWants(agents: seq<Agent>, env: Env, isUWL: bool, d: DefaultConfig) {
    exists a :: a in agents && AsksFor(a, env, isUWL, d)
  }

  lemma WantsAtIff(o: ConfigObject, env: Env, components: set<string>, ps: seq<Placement>, d: DefaultConfig)
    requires McoUID(env.ownerRefs) != ""
    ensures ObjectWants(o, components, McoUID(env.ownerRefs), RefsIn(ps), d) <==>
            Lookup(o.labels, COMPONENT_LABEL) in components && WantsAt(o, env, ps, d)
  {
    hide NamesObject, HasControllerUID, PlacementRefs, McoUID, Controls;
    var uid := McoUID(env.ownerRefs);
    McoUIDControls(env.ownerRefs, uid);
    forall other | other != "" && Controls(env.ownerRefs, other) ensures other == uid {
      McoUIDControls(env.ownerRefs, other);
    }
  }

  lemma NoMcoNoWants(o: ConfigObject, env: Env, ps: seq<Placement>, d: DefaultConfig)
    requires McoUID(env.ownerRefs) == ""
    ensures !WantsAt(o, env, ps, d)
  {
    hide NamesObject, HasControllerUID, PlacementRefs, McoUID, Controls;
    forall other | other != "" && Controls(env.ownerRefs, other) ensures false {
      McoUIDControls(env.ownerRefs, other);
    }
  }

  lemma CollectorLabels(o: ConfigObject, env: Env, isUWL: bool)
    ensures Lookup(o.labels, COMPONENT_LABEL) in ScrapeComponents(env, isUWL) <==> IsForCollector(o, env, isUWL)
  {
  }

  lemma RuleLabels(o: ConfigObject, env: Env)
    ensures Lookup(o.labels, COMPONENT_LABEL) in RuleComponents(env) <==>
            (env.platform && IsForCollector(o, env, false)) || (env.userWorkloads && IsForCollector(o, env, true))
  {
    hide IsForCollector;
    CollectorLabels(o, env, false);
    CollectorLabels(o, env, true);
  }

  /** The scrape configs' part of the wishes. */
  lemma ScrapeWantsIff(env: Env, ps: seq<Placement>, isUWL: bool, d: DefaultConfig)
    requires ScrapeDefaults(env, RefsIn(ps), isUWL).Ok?
    ensures d in ScrapeDefaults(env, RefsIn(ps), isUWL).value <==> ScrapeConfigWants(env, ps, isUWL, d)
  {
    hide ObjectDefaults, ObjectWants, WantsAt, IsForCollector, ScrapeComponents, McoUID;
    var uid, components := McoUID(env.ownerRefs), ScrapeComponents(env, isUWL);
    if uid == "" {
      forall o ensures !WantsAt(o, env, ps, d) { NoMcoNoWants(o, env, ps, d); }
    } else {
      DefaultsHasIff(env.scrapeConfigs, components, uid, RefsIn(ps), d);
      forall o ensures ObjectWants(o, components, uid, RefsIn(ps), d) <==> IsForCollector(o, env, isUWL) && WantsAt(o, env, ps, d) {
        WantsAtIff(o, env, components, ps, d);
        CollectorLabels(o, env, isUWL);
      }
    }
  }

  /** The rules' part of the wishes. */
  lemma RuleWantsIff(env: Env, ps: seq<Placement>, d: DefaultConfig)
    requires RuleDefaults(env, RefsIn(ps)).Ok?
    ensures d in RuleDefaults(env, RefsIn(ps)).value <==> RuleWants(env, ps, d)
  {
    hide ObjectDefaults, ObjectWants, WantsAt, IsForCollector, RuleComponents, McoUID;
    var uid, components := McoUID(env.ownerRefs), RuleComponents(env);
    if uid == "" {
      forall o ensures !WantsAt(o, env, ps, d) { NoMcoNoWants(o, env, ps, d); }
    } else {
      DefaultsHasIff(env.rules, components, uid, RefsIn(ps), d);
      forall o ensures ObjectWants(o, components, uid, RefsIn(ps), d) <==>
        (exists isUWL :: Enabled(env, isUWL) && IsForCollector(o, env, isUWL)) && WantsAt(o, env, ps, d)
      {
        WantsAtIff(o, env, components, ps, d);
        RuleLabels(o, env);
        assert Enabled(env, false) == env.platform && Enabled(env, true) == env.userWorkloads;
      }
    }
  }

  /** Collecting them fails exactly if some object of the collector is malformed. */
  ghost predicate Malformed(o: ConfigObject, env: Env) {
    exists uid :: uid != "" && Controls(env.ownerRefs, uid)
      && (HasControllerUID(o.owners, uid) || Lookup(o.labels, PART_OF_LABEL) == ADDON_NAME)
      && (|| o.obj.kind !in {"ScrapeConfig", "PrometheusRule", "PrometheusAgent"}
          || (!HasControllerUID(o.owners, uid) && PlacementRefs(Lookup(o.annotations, PLACEMENTS_KEY)).Err?))
  }

  lemma MalformedIff(o: ConfigObject, env: Env, components: set<string>)
    ensures McoUID(env.ownerRefs) != "" && ObjectFails(o, components, McoUID(env.ownerRefs)) <==>
            Lookup(o.labels, COMPONENT_LABEL) in components && Malformed(o, env)
  {
    hide HasControllerUID, PlacementRefs, McoUID, Controls;
    var uid := McoUID(env.ownerRefs);
    if uid != "" {
      McoUIDControls(env.ownerRefs, uid);
    }
    forall other | other != "" && Controls(env.ownerRefs, other) ensures other == uid {
      McoUIDControls(env.ownerRefs, other);
    }
  }

  lemma ScrapeFailsIff(env: Env, ps: seq<Placement>, isUWL: bool)
    ensures ScrapeDefaults(env, RefsIn(ps), isUWL).Err? <==>
            exists o :: o in env.scrapeConfigs && IsForCollector(o, env, isUWL) && Malformed(o, env)
  {
    hide ObjectDefaults, ObjectFails, Malformed, IsForCollector, ScrapeComponents, McoUID;
    var uid, components := McoUID(env.ownerRefs), ScrapeComponents(env, isUWL);
    DefaultsFailIff(env.scrapeConfigs, components, uid, RefsIn(ps));
    forall o ensures uid != "" && ObjectFails(o, components, uid) <==> IsForCollector(o, env, isUWL) && Malformed(o, env) {
      MalformedIff(o, env, components);
      CollectorLabels(o, env, isUWL);
    }
  }

  lemma RulesFailIff(env: Env, ps: seq<Placement>)
    ensures RuleDefaults(env, RefsIn(ps)).Err? <==>
            exists o, isUWL :: o in env.rules && Enabled(env, isUWL) && IsForCollector(o, env, isUWL) && Malformed(o, env)
  {
    hide ObjectDefaults, ObjectFails, Malformed, IsForCollector, RuleComponents, McoUID;
    var uid, components := McoUID(env.ownerRefs), RuleComponents(env);
    DefaultsFailIff(env.rules, components, uid, RefsIn(ps));
    forall o ensures uid != "" && ObjectFails(o, components, uid) <==>
      (exists isUWL :: Enabled(env, isUWL) && IsForCollector(o, env, isUWL)) && Malformed(o, env)
    {
      MalformedIff(o, env, components);
      RuleLabels(o, env);
      assert Enabled(env, false) == env.platform && Enabled(env, true) == env.userWorkloads;
    }
  }

  // ---------------------------------------------------------------- attachment, a whole pass

  /** Something on the hub asks for the config at the placement: an agent, a scrape config or a rule. */
  ghost predicate Requested(agents: seq<Agent>, env: Env, ps: seq<Placement>, d: DefaultConfig) {
    || (exists isUWL :: Enabled(env, isUWL) && (AgentWants(agents, env, isUWL, d) || ScrapeConfigWants(env, ps, isUWL, d)))
    || RuleWants(env, ps, d)
  }

  lemma AgentNamed(a: Agent, cfg: AddonConfig)
    ensures cfg == AgentConfig(a) <==> NamesObject(cfg, Object("monitoring.rhobs", "PrometheusAgent", HUB_NS, a.name))
  {
    assert PROMETHEUS_AGENT != SCRAPE_CONFIG by { assert PROMETHEUS_AGENT[0] != SCRAPE_CONFIG[0]; }
    assert PROMETHEUS_AGENT != PROMETHEUS_RULE by { assert |PROMETHEUS_AGENT| != |PROMETHEUS_RULE|; }
  }

  lemma AgentWantsIff(agents: seq<Agent>, env: Env, isUWL: bool, d: DefaultConfig)
    ensures SomeWishes(agents, env, isUWL, d) <==> AgentWants(agents, env, isUWL, d)
  {
    hide InScope, PlacementRefs, NamesObject, AgentConfig, AnnotationOf, IsCollectorAgent;
    forall a ensures InScope(a, env, isUWL) <==> IsCollectorAgent(a, env, isUWL) { ScopeIff(a, env, isUWL); }
    forall a ensures d.config == AgentConfig(a) <==> NamesObject(d.config, Object("monitoring.rhobs", "PrometheusAgent", HUB_NS, a.name)) {
      AgentNamed(a, d.config);
    }
    if i :| 0 <= i < |agents| && Wishes(agents[i], env, isUWL, d) {
      assert agents[i] in agents;
    }
    if a :| a in agents && AsksFor(a, env, isUWL, d) {
      var i :| 0 <= i < |agents| && agents[i] == a;
      assert Wishes(agents[i], env, isUWL, d);
    }
  }

  lemma WantedIff(agents: seq<Agent>, env: Env, ps: seq<Placement>, d: DefaultConfig)
    requires AllReady(agents, env, ps)
    ensures Wanted(agents, env, ps, d) <==> Requested(agents, env, ps, d)
  {
    hide SomeWishes, ScrapeDefaults, RuleDefaults, AgentWants, ScrapeConfigWants, RuleWants, AllSettled, AllStable, HasAnchor;
    forall isUWL | Enabled(env, isUWL)
      ensures ComponentWants(agents, env, ps, isUWL, d) <==> AgentWants(agents, env, isUWL, d) || ScrapeConfigWants(env, ps, isUWL, d)
    {
      AgentWantsIff(agents, env, isUWL, d);
      ScrapeWantsIff(env, ps, isUWL, d);
    }
    assert Enabled(env, false) == env.platform && Enabled(env, true) == env.userWorkloads;
    if env.platform || env.userWorkloads {
      RuleWantsIff(env, ps, d);
    } else {
      NoRuleWants(env, ps, d);
    }
  }

  lemma NoRuleWants(env: Env, ps: seq<Placement>, d: DefaultConfig)
    requires !env.platform && !env.userWorkloads
    ensures !RuleWants(env, ps, d)
  {
  }

  lemma NamedExists(store: set<Object>, cfg: AddonConfig, o: Object)
    requires NamesObject(cfg, o) && o in store
    ensures Exists(store, cfg)
  {
  }

  /** What is asked for exists. */
  lemma RequestedExists(agents: seq<Agent>, env: Env, ps: seq<Placement>, d: DefaultConfig)
    requires Requested(agents, env, ps, d)
    ensures Exists(Stored(agents, env), d.config)
  {
    hide NamesObject, Exists, IsCollectorAgent, PlacementRefs, IsForCollector, Controls, HasControllerUID;
    var store := Stored(agents, env);
    if RuleWants(env, ps, d) {
      var o, isUWL :| o in env.rules && Enabled(env, isUWL) && IsForCollector(o, env, isUWL) && WantsAt(o, env, ps, d);
      NamedExists(store, d.config, o.obj);
    } else {
      var isUWL :| Enabled(env, isUWL) && (AgentWants(agents, env, isUWL, d) || ScrapeConfigWants(env, ps, isUWL, d));
      if AgentWants(agents, env, isUWL, d) {
        var a :| a in agents && AsksFor(a, env, isUWL, d);
        assert ObjectOf(a) in store;
        NamedExists(store, d.config, ObjectOf(a));
      } else {
        var o :| o in env.scrapeConfigs && IsForCollector(o, env, isUWL) && WantsAt(o, env, ps, d);
        NamedExists(store, d.config, o.obj);
      }
    }
  }

  /** An agent that asks for something at an existing placement is not deleted. */
  lemma RequesterStays(a: Agent, ps: seq<Placement>, ref: PlacementRef)
    requires CleanPlacements(ps) && ref in RefsIn(ps)
    requires PlacementRefs(AnnotationOf(a)).Ok? && ref in PlacementRefs(AnnotationOf(a)).value
    ensures !IsOrphan(a, ps)
  {
    hide CleanPlacements, PlacementRefs, IsOrphan;
    OrphanIffParsed(a, ps);
  }

  lemma SurvivorsRequest(agents: seq<Agent>, env: Env, ps: seq<Placement>, isUWL: bool, d: DefaultConfig)
    requires CleanPlacements(ps) && d.ref in RefsIn(ps)
    ensures AgentWants(Surviving(agents, ps), env, isUWL, d) <==> AgentWants(agents, env, isUWL, d)
  {
    hide IsCollectorAgent, PlacementRefs, NamesObject, IsOrphan, Surviving, CleanPlacements, AnnotationOf;
    forall a ensures a in Surviving(agents, ps) <==> a in agents && !IsOrphan(a, ps) {
      SurvivingHas(agents, ps, a);
    }
    if a :| a in agents && AsksFor(a, env, isUWL, d) {
      RequesterStays(a, ps, d.ref);
    }
  }

  lemma SurvivorsRequested(agents: seq<Agent>, env: Env, ps: seq<Placement>, d: DefaultConfig)
    requires CleanPlacements(ps) && d.ref in RefsIn(ps)
    ensures Requested(Surviving(agents, ps), env, ps, d) <==> Requested(agents, env, ps, d)
  {
    hide AgentWants, ScrapeConfigWants, RuleWants, Surviving, CleanPlacements;
    SurvivorsRequest(agents, env, ps, false, d);
    SurvivorsRequest(agents, env, ps, true, d);
  }

  /** After a successful pass a placement lists exactly the configs that something on the hub asks for
      and those it listed before whose object existed until the orphans were deleted; earlier entries
      stay in front. */
  lemma PassAttaches(h: Hub, env: Env, i: nat, cfg: AddonConfig)
    requires CleanPlacements(h.placements) && Pass(h, env).1 && i < |h.placements|
    ensures var h1, store, p := Pass(h, env).0, Stored(Metrics(h, env).agents, env), h.placements[i];
      && |h1.placements| == |h.placements| && h1.placements[i].ref == p.ref
      && Live(store, p.configs) <= h1.placements[i].configs
      && (cfg in h1.placements[i].configs <==>
            Requested(h1.agents, env, h.placements, DefaultConfig(p.ref, cfg)) || (cfg in p.configs && Exists(store, cfg)))
  {
    hide Metrics, AllReady, Surviving, CleanPlacements, Wanted, Requested, Stored, Exists, Live, EnsuredOne;
    var m, ps := Metrics(h, env), h.placements;
    var store, h1, d := Stored(m.agents, env), Pass(h, env).0, DefaultConfig(ps[i].ref, cfg);
    MetricsFacts(h, env);
    ReconciledSameRefs(ps, m.configs, store);
    SurvivingSame(m.agents, ps, h1.placements);
    Attachment(ps[i], m.configs, store);
    WantedIff(m.agents, env, ps, d);
    assert RefsIn(ps)[i] == d.ref;
    SurvivorsRequested(m.agents, env, ps, d);
    EnsuredSameRef(ps[i], m.configs);
    if Requested(h1.agents, env, ps, d) {
      RequestedExists(m.agents, env, ps, d);
    }
  }

  lemma EnsuredSameRef(p: Placement, defaults: seq<DefaultConfig>)
    ensures EnsuredOne(p, defaults).ref == p.ref
  {
  }

  /** In the end, after two passes or more, a placement lists exactly the configs that something on the
      hub asks for and those it listed at the start whose object still exists. */
  lemma AttachedFinally(h: Hub, env: Env, n: nat, i: nat, cfg: AddonConfig)
    requires CleanPlacements(h.placements) && Pass(h, env).1 && n >= 2 && i < |h.placements|
    ensures var end, p := After(h, env, n), h.placements[i];
      && |end.placements| == |h.placements|
      && (cfg in end.placements[i].configs <==>
            || Requested(end.agents, env, h.placements, DefaultConfig(p.ref, cfg))
            || (cfg in p.configs && Exists(Stored(end.agents, env), cfg)))
  {
    hide Pass, Metrics, Surviving, CleanPlacements, Requested, Stored, Exists, Live;
    var h1, store := Pass(h, env).0, Stored(Pass(h, env).0.agents, env);
    StaysConverged(h, env, n);
    AfterTwo(h, env);
    SecondPass(h, env);
    PassAttaches(h, env, i, cfg);
    LiveHas(store, h1.placements[i].configs, cfg);
    PassShrinks(h, env);
    StoredFewer(h1.agents, Metrics(h, env).agents, env, cfg);
    if Requested(h1.agents, env, h.placements, DefaultConfig(h.placements[i].ref, cfg)) {
      RequestedExists(h1.agents, env, h.placements, DefaultConfig(h.placements[i].ref, cfg));
    }
  }

  lemma AfterTwo(h: Hub, env: Env)
    ensures After(h, env, 2) == Pass(Pass(h, env).0, env).0
  {
    hide Pass;
    assert After(h, env, 1) == Pass(After(h, env, 0), env).0;
  }

  lemma PassShrinks(h: Hub, env: Env)
    requires Pass(h, env).1
    ensures Subset(Pass(h, env).0.agents, Metrics(h, env).agents)
  {
    hide Metrics, Surviving, Reconciled, Stored;
    SurvivingSubset(Metrics(h, env).agents, Pass(h, env).0.placements);
  }
}
