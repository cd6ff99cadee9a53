/** When one pass over the hub is enough, and which agents cover the global placement, in terms of the
    hub before the pass. */
module PassConditions {
  import opened Config
  import opened Wrappers
  import opened Placements
  import opened AddonConfigs
  import opened AgentSpec
  import opened PlacementDefaults
  import opened HubReconcile
  import opened Sorting
  import opened Convergence

  // ---------------------------------------------------------------- covering the global placement

  /** Some agent in scope targets the sentinel placement. */
  predicate DummyReferenced(agents: seq<Agent>, env: Env, isUWL: bool) {
    exists i :: 0 <= i < |agents| && InScope(agents[i], env, isUWL) && Targets(AnnotationOf(agents[i]), HUB_NS, DUMMY)
  }

  lemma SteppedGlobalIff(agents: seq<Agent>, agents': seq<Agent>, env: Env, global: Option<string>, isUWL: bool)
    requires AllStepped(agents, agents', env, isUWL)
    ensures GlobalReferenced(agents, env, global, isUWL) <==> GlobalReferenced(agents', env, global, isUWL)
  {
    hide InScope;
    forall i | 0 <= i < |agents|
      ensures InScope(agents[i], env, isUWL) <==> InScope(agents'[i], env, isUWL)
      ensures AnnotationOf(agents[i]) == AnnotationOf(agents'[i])
    {
      assert Stepped(agents[i], agents'[i], env, isUWL);
    }
  }

  /** A successful run of one collector's reconciliation leaves some agent that targets the global
      placement exactly if there was one before or no agent targeted the sentinel. */
  lemma GlobalCoveredIff(agents: seq<Agent>, env: Env, ps: seq<Placement>, isUWL: bool)
    requires CleanPlacements(ps) && !ReconciledAgents(agents, env, ps, isUWL).failed
    requires FindPlacementNamespace(ps, GLOBAL).Some?
    ensures var global := FindPlacementNamespace(ps, GLOBAL);
      GlobalReferenced(ReconciledAgents(agents, env, ps, isUWL).agents, env, global, isUWL) <==>
      GlobalReferenced(agents, env, global, isUWL) || !DummyReferenced(agents, env, isUWL)
  {
    hide Processed, InScope, Targets, NameTaken;
    var global := FindPlacementNamespace(ps, GLOBAL);
    var created := Created(agents, env, ps, isUWL).value;
    ProcessedFacts(created, env, isUWL);
    SteppedGlobalIff(created, Processed(created, env, isUWL).agents, env, global, isUWL);
    CreatedGlobalIff(agents, env, ps, isUWL);
  }

  lemma DummyIsAnchor(agents: seq<Agent>, env: Env, global: Option<string>, isUWL: bool)
    ensures DummyReferenced(agents, env, isUWL) ==> HasAnchor(agents, env, global, isUWL)
  {
    hide InScope, Targets;
    if i :| 0 <= i < |agents| && InScope(agents[i], env, isUWL) && Targets(AnnotationOf(agents[i]), HUB_NS, DUMMY) {
      assert IsAnchor(agents[i], global, isUWL);
    }
  }

  lemma CreatedGlobalIff(agents: seq<Agent>, env: Env, ps: seq<Placement>, isUWL: bool)
    requires CleanPlacements(ps) && Created(agents, env, ps, isUWL).Ok?
    requires FindPlacementNamespace(ps, GLOBAL).Some?
    ensures var global := FindPlacementNamespace(ps, GLOBAL);
      GlobalReferenced(Created(agents, env, ps, isUWL).value, env, global, isUWL) <==>
      GlobalReferenced(agents, env, global, isUWL) || !DummyReferenced(agents, env, isUWL)
  {
    hide InScope, Targets, NameTaken, NewAgent;
    var global := FindPlacementNamespace(ps, GLOBAL);
    var created := Created(agents, env, ps, isUWL).value;
    if i :| 0 <= i < |agents| && InScope(agents[i], env, isUWL) && TargetsGlobal(agents[i], global) {
      assert created[i] == agents[i];
    } else if !HasAnchor(agents, env, global, isUWL) {
      GlobalFound(ps);
      NewAgentFacts(env, isUWL, DefaultGlobalName(isUWL), PlacementRef(global.value, GLOBAL));
      assert TargetsGlobal(created[|agents|], global);
      DummyIsAnchor(agents, env, global, isUWL);
    } else {
      var i :| 0 <= i < |agents| && InScope(agents[i], env, isUWL) && IsAnchor(agents[i], global, isUWL);
      assert Targets(AnnotationOf(agents[i]), HUB_NS, DUMMY);
    }
  }

  lemma SurvivingGlobalIff(agents: seq<Agent>, env: Env, ps: seq<Placement>, isUWL: bool)
    ensures var global := FindPlacementNamespace(ps, GLOBAL);
      GlobalReferenced(Surviving(agents, ps), env, global, isUWL) <==> GlobalReferenced(agents, env, global, isUWL)
  {
    hide InScope, IsOrphan, TargetsGlobal, Surviving;
    var global, left := FindPlacementNamespace(ps, GLOBAL), Surviving(agents, ps);
    if i :| 0 <= i < |agents| && InScope(agents[i], env, isUWL) && TargetsGlobal(agents[i], global) {
      GlobalIsNoOrphan(agents[i], ps);
      SurvivingHas(agents, ps, agents[i]);
      var j :| 0 <= j < |left| && left[j] == agents[i];
    }
    if i :| 0 <= i < |left| && InScope(left[i], env, isUWL) && TargetsGlobal(left[i], global) {
      SurvivingHas(agents, ps, left[i]);
      var j :| 0 <= j < |agents| && agents[j] == left[i];
    }
  }

  lemma GlobalIsNoOrphan(a: Agent, ps: seq<Placement>)
    requires TargetsGlobal(a, FindPlacementNamespace(ps, GLOBAL))
    ensures !IsOrphan(a, ps)
  {
    GlobalFound(ps);
    var i :| 0 <= i < |ps| && ps[i].ref == PlacementRef(FindPlacementNamespace(ps, GLOBAL).value, GLOBAL);
    assert RefText(ps[i].ref) in PlacementTexts(ps);
    assert RefText(ps[i].ref) in Entries(AnnotationOf(a));
  }

  /** What one collector leaves alone of the other: what its agents target. */
  lemma UntouchedTargets(agents: seq<Agent>, agents': seq<Agent>, env: Env, global: Option<string>, other: bool)
    requires Untouched(agents, agents', env, other)
    ensures GlobalReferenced(agents, env, global, other) <==> GlobalReferenced(agents', env, global, other)
    ensures DummyReferenced(agents, env, other) <==> DummyReferenced(agents', env, other)
  {
    hide InScope, TargetsGlobal, Targets;
    if i :| 0 <= i < |agents| && InScope(agents[i], env, other) && TargetsGlobal(agents[i], global) {
      assert agents'[i] == agents[i];
    }
    if i :| 0 <= i < |agents'| && InScope(agents'[i], env, other) && TargetsGlobal(agents'[i], global) {
      assert agents'[i] == agents[i];
    }
    if i :| 0 <= i < |agents| && InScope(agents[i], env, other) && Targets(AnnotationOf(agents[i]), HUB_NS, DUMMY) {
      assert agents'[i] == agents[i];
    }
    if i :| 0 <= i < |agents'| && InScope(agents'[i], env, other) && Targets(AnnotationOf(agents'[i]), HUB_NS, DUMMY) {
      assert agents'[i] == agents[i];
    }
  }

  predicate Enabled(env: Env, isUWL: bool) {
    if isUWL then env.userWorkloads else env.platform
  }

  lemma MetricsGlobalIff(h: Hub, env: Env, isUWL: bool)
    requires CleanPlacements(h.placements) && !Metrics(h, env).failed && Enabled(env, isUWL)
    requires FindPlacementNamespace(h.placements, GLOBAL).Some?
    ensures var global, agents := FindPlacementNamespace(h.placements, GLOBAL), Migrated(h.agents);
      GlobalReferenced(Metrics(h, env).agents, env, global, isUWL) <==>
      GlobalReferenced(agents, env, global, isUWL) || !DummyReferenced(agents, env, isUWL)
  {
    hide ReconciledAgents, GlobalReferenced, DummyReferenced, Untouched, RuleDefaults, ScrapeDefaults, AllStable, AllSettled,
         HasAnchor, SomeWishes, CleanPlacements, FindPlacementNamespace;
    var ps, global := h.placements, FindPlacementNamespace(h.placements, GLOBAL);
    var p0 := Progress(Migrated(h.agents), [], false);
    var p1 := if env.platform then Component(p0, env, ps, false) else p0;
    FailedStays(p1, env, ps, true);
    if env.platform {
      AgentsFacts(p0.agents, env, ps, false);
      GlobalCoveredIff(p0.agents, env, ps, false);
      UntouchedTargets(p0.agents, p1.agents, env, global, true);
    }
    if env.userWorkloads {
      AgentsFacts(p1.agents, env, ps, true);
      GlobalCoveredIff(p1.agents, env, ps, true);
      UntouchedTargets(p1.agents, Component(p1, env, ps, true).agents, env, global, false);
    }
  }

  lemma {:induction false} AgentsAfter(h: Hub, env: Env, n: nat)
    requires CleanPlacements(h.placements) && Pass(h, env).1 && n >= 1
    ensures After(h, env, n).agents == Pass(h, env).0.agents && AgentsFinal(After(h, env, n), env)
  {
    hide Pass, AgentsFinal, Metrics, Reconciled;
    if n == 1 {
      assert After(h, env, 1) == Pass(After(h, env, 0), env).0;
      FirstPass(h, env);
    } else {
      AgentsAfter(h, env, n - 1);
      FinalPass(After(h, env, n - 1), env);
    }
  }

  /** Coverage of the global placement over runs: after any number of passes some agent targets it
      exactly if one did at the start, after migration, or no agent targeted the sentinel then. A
      default agent made before the global placement existed keeps the addon from ever making one
      for it. */
  lemma GlobalCoveredAfterIff(h: Hub, env: Env, isUWL: bool, n: nat)
    requires CleanPlacements(h.placements) && Pass(h, env).1 && n >= 1
    ensures var global, agents := FindPlacementNamespace(h.placements, GLOBAL), Migrated(h.agents);
      Enabled(env, isUWL) && global.Some? ==>
        (GlobalReferenced(After(h, env, n).agents, env, global, isUWL) <==>
         GlobalReferenced(agents, env, global, isUWL) || !DummyReferenced(agents, env, isUWL))
  {
    hide GlobalReferenced, DummyReferenced, Metrics, CleanPlacements, AgentsFinal, Surviving, Reconciled, FindPlacementNamespace;
    var m := Metrics(h, env);
    AgentsAfter(h, env, n);
    if Enabled(env, isUWL) && FindPlacementNamespace(h.placements, GLOBAL).Some? {
      MetricsGlobalIff(h, env, isUWL);
    }
    ReconciledSameRefs(h.placements, m.configs, Stored(m.agents, env));
    SameRefsFacts(h.placements, Pass(h, env).0.placements);
    SurvivingGlobalIff(m.agents, env, Pass(h, env).0.placements, isUWL);
  }

  // ---------------------------------------------------------------- the order of the placements

  /** All placements with this name are in one namespace. */
  predicate OneNamespace(ps: seq<Placement>, name: string) {
    forall i, j :: 0 <= i < |ps| && 0 <= j < |ps| && ps[i].ref.name == ps[j].ref.name == name
      ==> ps[i].ref.namespace == ps[j].ref.namespace
  }

  lemma {:induction false} FindFinds(ps: seq<Placement>, name: string)
    ensures var found := FindPlacementNamespace(ps, name);
      if found.Some? then PlacementRef(found.value, name) in RefsIn(ps) else forall i :: 0 <= i < |ps| ==> ps[i].ref.name != name
  {
    if ps != [] && ps[0].ref.name != name {
      FindFinds(ps[1..], name);
      var found := FindPlacementNamespace(ps, name);
      if found.Some? {
        var i :| 0 <= i < |ps[1..]| && RefsIn(ps[1..])[i] == PlacementRef(found.value, name);
        assert RefsIn(ps)[i + 1] == PlacementRef(found.value, name);
      } else {
        forall i | 0 <= i < |ps| ensures ps[i].ref.name != name {
          if i > 0 { assert ps[i] == ps[1..][i - 1]; }
        }
      }
    } else if ps != [] {
      assert RefsIn(ps)[0] == PlacementRef(ps[0].ref.namespace, name);
    }
  }

  lemma FindPermuted(ps: seq<Placement>, ps': seq<Placement>, name: string)
    requires multiset(ps) == multiset(ps') && OneNamespace(ps, name)
    ensures FindPlacementNamespace(ps', name) == FindPlacementNamespace(ps, name)
  {
    FindFinds(ps, name);
    FindFinds(ps', name);
    forall p ensures p in ps <==> p in ps' {
      assert p in multiset(ps) <==> p in multiset(ps');
    }
    var found, found' := FindPlacementNamespace(ps, name), FindPlacementNamespace(ps', name);
    if found.Some? {
      var i :| 0 <= i < |ps| && RefsIn(ps)[i] == PlacementRef(found.value, name);
      assert ps[i] in ps';
      var j :| 0 <= j < |ps'| && ps'[j] == ps[i];
    }
    if found'.Some? {
      var j :| 0 <= j < |ps'| && RefsIn(ps')[j] == PlacementRef(found'.value, name);
      assert ps'[j] in ps;
      var i :| 0 <= i < |ps| && ps[i] == ps'[j];
    }
  }

  /** The decision to create a default agent ignores the order of the agents, and that of the
      placements too, exactly if all placements named `global` are in one namespace. */
  lemma DecisionOrderIff(env: Env, ps: seq<Placement>, isUWL: bool)
    ensures (forall agents: seq<Agent>, agents', ps' {:trigger MissingAgent(agents, env, ps, isUWL), MissingAgent(agents', env, ps', isUWL)} ::
               multiset(agents) == multiset(agents') && multiset(ps) == multiset(ps') ==>
               MissingAgent(agents, env, ps, isUWL) == MissingAgent(agents', env, ps', isUWL))
       <==> OneNamespace(ps, GLOBAL)
  {
    if OneNamespace(ps, GLOBAL) {
      forall agents: seq<Agent>, agents', ps' | multiset(agents) == multiset(agents') && multiset(ps) == multiset(ps')
        ensures MissingAgent(agents, env, ps, isUWL) == MissingAgent(agents', env, ps', isUWL)
      {
        hide MissingAgent, InScope, FindPlacementNamespace;
        FindPermuted(ps, ps', GLOBAL);
        forall a ensures a in agents <==> a in agents' {
          assert a in multiset(agents) <==> a in multiset(agents');
        }
        DecisionIgnoresOrder(agents, agents', env, ps, isUWL);
        DecisionOfNamespace(agents', env, ps, ps', isUWL);
      }
    } else {
      var ps' := TwoGlobals(ps);
      TwoDecisions(env, ps, ps', isUWL);
      assert MissingAgent([], env, ps, isUWL) != MissingAgent([], env, ps', isUWL);
      assert multiset(ps) == multiset(ps');
    }
  }

  lemma DecisionOfNamespace(agents: seq<Agent>, env: Env, ps: seq<Placement>, ps': seq<Placement>, isUWL: bool)
    requires FindPlacementNamespace(ps', GLOBAL) == FindPlacementNamespace(ps, GLOBAL)
    ensures MissingAgent(agents, env, ps', isUWL) == MissingAgent(agents, env, ps, isUWL)
  {
  }

  lemma TwoGlobals(ps: seq<Placement>) returns (ps': seq<Placement>)
    requires !OneNamespace(ps, GLOBAL)
    ensures multiset(ps) == multiset(ps')
    ensures FindPlacementNamespace(ps, GLOBAL).Some? && FindPlacementNamespace(ps', GLOBAL).Some?
    ensures FindPlacementNamespace(ps, GLOBAL) != FindPlacementNamespace(ps', GLOBAL)
  {
    hide FindPlacementNamespace;
    var i, j :| 0 <= i < |ps| && 0 <= j < |ps| && ps[i].ref.name == ps[j].ref.name == GLOBAL
      && ps[i].ref.namespace != ps[j].ref.namespace;
    FindFinds(ps, GLOBAL);
    var k := if FindPlacementNamespace(ps, GLOBAL) == Some(ps[i].ref.namespace) then j else i;
    ps' := [ps[k]] + Without(ps, k);
    WithoutMultiset(ps, k);
    FindFirst(ps', GLOBAL);
  }

  lemma FindFirst(ps: seq<Placement>, name: string)
    requires ps != [] && ps[0].ref.name == name
    ensures FindPlacementNamespace(ps, name) == Some(ps[0].ref.namespace)
  {
  }

  lemma TwoDecisions(env: Env, ps: seq<Placement>, ps': seq<Placement>, isUWL: bool)
    requires FindPlacementNamespace(ps, GLOBAL).Some? && FindPlacementNamespace(ps', GLOBAL).Some?
    requires FindPlacementNamespace(ps, GLOBAL) != FindPlacementNamespace(ps', GLOBAL)
    ensures MissingAgent([], env, ps, isUWL) != MissingAgent([], env, ps', isUWL)
  {
    var x, y := FindPlacementNamespace(ps, GLOBAL).value, FindPlacementNamespace(ps', GLOBAL).value;
    var a, b := MissingAgent([], env, ps, isUWL).value, MissingAgent([], env, ps', isUWL).value;
    assert AnnotationOf(a) == RefText(PlacementRef(x, GLOBAL)) && AnnotationOf(b) == RefText(PlacementRef(y, GLOBAL));
    SameText(x, y, GLOBAL);
  }

  lemma SameText(x: string, y: string, name: string)
    ensures RefText(PlacementRef(x, name)) == RefText(PlacementRef(y, name)) <==> x == y
  {
    var s, t := RefText(PlacementRef(x, name)), RefText(PlacementRef(y, name));
    assert s[..|x|] == x && t[..|y|] == y;
    assert s == t ==> |x| == |y|;
  }

  // ---------------------------------------------------------------- one pass or two

  /** What Kubernetes guarantees about the objects of a hub: agents have distinct names, an owner
      reference with the addon's uid is to the addon, and objects outside the lists of agents, scrape
      configs and rules are not agents in the addon's namespace. */
  ghost predicate WellFormed(h: Hub, env: Env) {
    && DistinctAgents(h.agents)
    && (forall i :: 0 <= i < |h.agents| ==> OwnersSound(h.agents[i].owners, env))
    && (forall o :: o in env.otherObjects ==> o.group != RHOBS || o.kind != PROMETHEUS_AGENT || o.namespace != HUB_NS)
    && (forall i :: 0 <= i < |env.scrapeConfigs| ==> env.scrapeConfigs[i].obj.kind == SCRAPE_CONFIG)
    && (forall i :: 0 <= i < |env.rules| ==> env.rules[i].obj.kind == PROMETHEUS_RULE)
  }

  ghost predicate DistinctAgents(agents: seq<Agent>) {
    forall i, j :: 0 <= i < j < |agents| ==> agents[i].name != agents[j].name
  }

  ghost predicate OwnersSound(owners: seq<OwnerRef>, env: Env) {
    forall i :: 0 <= i < |owners| && owners[i].uid == env.uid ==>
      owners[i].group == "addon.open-cluster-management.io" && owners[i].kind == "ClusterManagementAddOn" && owners[i].name == ADDON_NAME
  }

  /** The agent is the addon's, so a pass deletes it once no placement keeps it. */
  predicate Deletable(a: Agent) {
    IsOwnedByAddon(a) || Lookup(a.labels, PART_OF_LABEL) == ADDON_NAME
  }

  lemma RecognizedDeletable(a: Agent, env: Env)
    requires OwnersSound(a.owners, env) && IsRecognized(a, env.uid)
    ensures Deletable(a)
  {
    if i :| 0 <= i < |a.owners| && a.owners[i].controller && a.owners[i].uid == env.uid {
      assert IsOwnedByAddon(a);
    }
  }

  /** The agents of a later moment of the pass: the earlier ones in their places, with the same names
      and the same fate, and behind them new ones that stay. */
  ghost predicate Follows(xs: seq<Agent>, ys: seq<Agent>, env: Env, ps: seq<Placement>) {
    && |xs| <= |ys| && DistinctAgents(ys)
    && (forall i :: 0 <= i < |ys| ==> OwnersSound(ys[i].owners, env))
    && (forall i :: 0 <= i < |xs| ==> ys[i].name == xs[i].name && (IsOrphan(ys[i], ps) <==> IsOrphan(xs[i], ps)))
    && (forall i :: |xs| <= i < |ys| ==> !IsOrphan(ys[i], ps))
  }

  lemma FollowsTransitive(xs: seq<Agent>, ys: seq<Agent>, zs: seq<Agent>, env: Env, ps: seq<Placement>)
    requires Follows(xs, ys, env, ps) && Follows(ys, zs, env, ps)
    ensures Follows(xs, zs, env, ps)
  {
    hide IsOrphan, OwnersSound;
  }

  lemma AppliedOwners(a: Agent, env: Env, isUWL: bool)
    requires Applied(a, env, isUWL).Ok? && OwnersSound(a.owners, env)
    ensures OwnersSound(Applied(a, env, isUWL).value.owners, env)
  {
    hide Derivative, Built, Overwritten, SettingsFor;
  }

  /** Processing an agent does not change whether it will be deleted. */
  lemma ProcessedFate(a: Agent, env: Env, ps: seq<Placement>, isUWL: bool)
    requires OwnersSound(a.owners, env) && !ProcessedOne(a, env, isUWL).failed
    ensures var b := ProcessedOne(a, env, isUWL).agent;
      b.name == a.name && OwnersSound(b.owners, env) && (IsOrphan(b, ps) <==> IsOrphan(a, ps))
  {
    hide Applied, HasExistingRef, OwnersSound, PlacementRefs;
    var b := ProcessedOne(a, env, isUWL).agent;
    if InScope(a, env, isUWL) {
      AppliedOwners(a, env, isUWL);
      AppliedFacts(a, env, isUWL);
      RecognizedDeletable(a, env);
      SameScope(a, b, env, isUWL);
      RecognizedDeletable(b, env);
    }
  }

  lemma {:induction false} ProcessedFates(agents: seq<Agent>, env: Env, ps: seq<Placement>, isUWL: bool)
    requires DistinctAgents(agents) && forall i :: 0 <= i < |agents| ==> OwnersSound(agents[i].owners, env)
    ensures !Processed(agents, env, isUWL).failed ==> Follows(agents, Processed(agents, env, isUWL).agents, env, ps)
  {
    hide ProcessedOne, IsOrphan, OwnersSound;
    if agents != [] {
      var init, a := agents[..|agents| - 1], agents[|agents| - 1];
      ProcessedFates(init, env, ps, isUWL);
      if !Processed(agents, env, isUWL).failed {
        ProcessedFate(a, env, ps, isUWL);
      }
    }
  }

  lemma CreatedFates(agents: seq<Agent>, env: Env, ps: seq<Placement>, isUWL: bool)
    requires CleanPlacements(ps) && Created(agents, env, ps, isUWL).Ok?
    requires DistinctAgents(agents) && forall i :: 0 <= i < |agents| ==> OwnersSound(agents[i].owners, env)
    ensures Follows(agents, Created(agents, env, ps, isUWL).value, env, ps)
  {
    hide IsOrphan, HasAnchor, GlobalReferenced, InScope, IsAnchor, Settled;
    if MissingAgent(agents, env, ps, isUWL).Some? {
      MissingIsAnchor(agents, env, ps, isUWL);
      AnchorIsNoOrphan(MissingAgent(agents, env, ps, isUWL).value, ps, isUWL);
    }
  }

  lemma ComponentFates(p: Progress, env: Env, ps: seq<Placement>, isUWL: bool)
    requires CleanPlacements(ps) && !p.failed && !Component(p, env, ps, isUWL).failed
    requires DistinctAgents(p.agents) && forall i :: 0 <= i < |p.agents| ==> OwnersSound(p.agents[i].owners, env)
    ensures Follows(p.agents, Component(p, env, ps, isUWL).agents, env, ps)
  {
    hide Created, Processed, IsOrphan, OwnersSound, ScrapeDefaults, CleanPlacements;
    var created := Created(p.agents, env, ps, isUWL).value;
    CreatedFates(p.agents, env, ps, isUWL);
    ProcessedFates(created, env, ps, isUWL);
    FollowsTransitive(p.agents, created, Processed(created, env, isUWL).agents, env, ps);
  }

  lemma FollowsItself(agents: seq<Agent>, env: Env, ps: seq<Placement>)
    requires DistinctAgents(agents) && forall i :: 0 <= i < |agents| ==> OwnersSound(agents[i].owners, env)
    ensures Follows(agents, agents, env, ps)
  {
  }

  /** Across the whole metrics step, starting from the migrated agents. */
  lemma MetricsFates(h: Hub, env: Env)
    requires CleanPlacements(h.placements) && WellFormed(h, env) && !Metrics(h, env).failed
    ensures Follows(Migrated(h.agents), Metrics(h, env).agents, env, h.placements)
  {
    hide Component, IsOrphan, OwnersSound, RuleDefaults, CleanPlacements, Follows;
    var ps := h.placements;
    var p0 := Progress(Migrated(h.agents), [], false);
    MigratedSound(h, env);
    var p1 := if env.platform then Component(p0, env, ps, false) else p0;
    FailedStays(p1, env, ps, true);
    FollowsItself(p0.agents, env, ps);
    if env.platform {
      ComponentFates(p0, env, ps, false);
    }
    FollowsSound(p0.agents, p1.agents, env, ps);
    if env.userWorkloads {
      ComponentFates(p1, env, ps, true);
      FollowsTransitive(p0.agents, p1.agents, Component(p1, env, ps, true).agents, env, ps);
    }
  }

  lemma FollowsSound(xs: seq<Agent>, ys: seq<Agent>, env: Env, ps: seq<Placement>)
    requires Follows(xs, ys, env, ps)
    ensures DistinctAgents(ys) && forall i :: 0 <= i < |ys| ==> OwnersSound(ys[i].owners, env)
  {
    hide IsOrphan, OwnersSound;
  }

  lemma MigratedSound(h: Hub, env: Env)
    requires WellFormed(h, env)
    ensures DistinctAgents(Migrated(h.agents))
    ensures forall i :: 0 <= i < |h.agents| ==> OwnersSound(Migrated(h.agents)[i].owners, env)
  {
    hide MigratedIfManaged, OwnersSound;
    forall i | 0 <= i < |h.agents|
      ensures Migrated(h.agents)[i].name == h.agents[i].name && Migrated(h.agents)[i].owners == h.agents[i].owners
    {
      MigrationSettles(h.agents[i]);
    }
  }

  // what the pass wants of deleted agents

  /** Configs of scrape configs and rules are no configs of agents. */
  lemma ObjectDefaultsNoAgent(objects: seq<ConfigObject>, components: set<string>, uid: string, refs: seq<PlacementRef>, kind: string)
    requires ObjectDefaults(objects, components, uid, refs).Ok? && kind != PROMETHEUS_AGENT
    requires forall i :: 0 <= i < |objects| ==> objects[i].obj.kind == kind
    ensures forall d, a :: d in ObjectDefaults(objects, components, uid, refs).value ==> d.config != AgentConfig(a)
  {
    hide ObjectDefaults, PlacementRefs, HasControllerUID;
    forall d | d in ObjectDefaults(objects, components, uid, refs).value ensures d.config.resource != "prometheusagents" {
      DefaultsHasIff(objects, components, uid, refs, d);
      var o :| o in objects && ObjectWants(o, components, uid, refs, d);
      ResourcesDiffer();
    }
  }

  lemma ResourcesDiffer()
    ensures "prometheusagents" != "scrapeconfigs" && "prometheusagents" != "prometheusrules"
  {
    assert "prometheusagents"[0] != "scrapeconfigs"[0] && |"prometheusagents"| != |"prometheusrules"|;
  }

  /** A wish for the config of an agent is that agent's own, so a deleted agent's config is wanted on
      no placement. */
  lemma OrphanUnwanted(agents: seq<Agent>, env: Env, ps: seq<Placement>, a: Agent, i: nat)
    requires CleanPlacements(ps) && DistinctAgents(agents) && a in agents && IsOrphan(a, ps) && i < |ps|
    requires forall k :: 0 <= k < |env.scrapeConfigs| ==> env.scrapeConfigs[k].obj.kind == SCRAPE_CONFIG
    requires forall k :: 0 <= k < |env.rules| ==> env.rules[k].obj.kind == PROMETHEUS_RULE
    ensures !Wanted(agents, env, ps, DefaultConfig(ps[i].ref, AgentConfig(a)))
  {
    hide ObjectDefaults, ScrapeComponents, RuleComponents, IsOrphan, InScope, PlacementRefs, CleanPlacements;
    var d := DefaultConfig(ps[i].ref, AgentConfig(a));
    assert RefsIn(ps)[i] == d.ref;
    var uid := McoUID(env.ownerRefs);
    forall isUWL ensures !ComponentWants(agents, env, ps, isUWL, d) {
      if ObjectDefaults(env.scrapeConfigs, ScrapeComponents(env, isUWL), uid, RefsIn(ps)).Ok? {
        ObjectDefaultsNoAgent(env.scrapeConfigs, ScrapeComponents(env, isUWL), uid, RefsIn(ps), SCRAPE_CONFIG);
      }
      if k :| 0 <= k < |agents| && Wishes(agents[k], env, isUWL, d) {
        assert agents[k].name == a.name;
        var j :| 0 <= j < |agents| && agents[j] == a;
        assert agents[k] == a;
        OrphanIffParsed(a, ps);
      }
    }
    if ObjectDefaults(env.rules, RuleComponents(env), uid, RefsIn(ps)).Ok? {
      ObjectDefaultsNoAgent(env.rules, RuleComponents(env), uid, RefsIn(ps), PROMETHEUS_RULE);
    }
  }

  // what is gone after the deletion of orphans

  lemma AgentStored(agents: seq<Agent>, env: Env, a: Agent)
    requires forall o :: o in env.otherObjects ==> o.group != RHOBS || o.kind != PROMETHEUS_AGENT || o.namespace != HUB_NS
    requires forall i :: 0 <= i < |env.scrapeConfigs| ==> env.scrapeConfigs[i].obj.kind == SCRAPE_CONFIG
    requires forall i :: 0 <= i < |env.rules| ==> env.rules[i].obj.kind == PROMETHEUS_RULE
    ensures Exists(Stored(agents, env), AgentConfig(a)) <==> NameTaken(agents, a.name)
  {
    if Exists(Stored(agents, env), AgentConfig(a)) {
      var b :| b in agents && ObjectOf(b) == ObjectOf(a);
      var k :| 0 <= k < |agents| && agents[k] == b;
    }
    if k :| 0 <= k < |agents| && agents[k].name == a.name {
      assert ObjectOf(agents[k]) == ObjectOf(a) && agents[k] in agents;
    }
  }

  lemma SurvivesByName(agents: seq<Agent>, ps: seq<Placement>, a: Agent)
    requires DistinctAgents(agents) && a in agents
    ensures NameTaken(Surviving(agents, ps), a.name) <==> !IsOrphan(a, ps)
  {
    hide IsOrphan, Surviving;
    var left := Surviving(agents, ps);
    SurvivingHas(agents, ps, a);
    if !IsOrphan(a, ps) {
      var k :| 0 <= k < |left| && left[k] == a;
    }
    if k :| 0 <= k < |left| && left[k].name == a.name {
      SurvivingHas(agents, ps, left[k]);
      var i :| 0 <= i < |agents| && agents[i] == left[k];
      var j :| 0 <= j < |agents| && agents[j] == a;
      assert i == j;
    }
  }

  lemma StoredAgents(agents: seq<Agent>, agents': seq<Agent>, env: Env, cfg: AddonConfig)
    requires Exists(Stored(agents, env), cfg) && !Exists(Stored(agents', env), cfg)
    ensures exists a :: a in agents && cfg == AgentConfig(a)
  {
  }

  /** What the deletion of orphans makes disappear: exactly the configs of the deleted agents. */
  lemma GoneIff(h: Hub, env: Env, agents: seq<Agent>, ps: seq<Placement>, cfg: AddonConfig)
    requires WellFormed(h, env) && DistinctAgents(agents) && Exists(Stored(agents, env), cfg)
    ensures !Exists(Stored(Surviving(agents, ps), env), cfg) <==> exists a :: a in agents && IsOrphan(a, ps) && cfg == AgentConfig(a)
  {
    hide IsOrphan, Surviving, Stored, Exists, NameTaken;
    var left := Surviving(agents, ps);
    forall a | a in agents ensures Exists(Stored(left, env), AgentConfig(a)) <==> !IsOrphan(a, ps) {
      AgentStored(left, env, a);
      SurvivesByName(agents, ps, a);
    }
    if !Exists(Stored(left, env), cfg) {
      StoredAgents(agents, left, env, cfg);
    }
  }

  /** What the first pass leaves on the placements that is gone after it: the configs of the agents it
      deletes, where they were listed before. */
  lemma StaleIff(h: Hub, env: Env, i: nat, cfg: AddonConfig)
    requires CleanPlacements(h.placements) && WellFormed(h, env) && Pass(h, env).1 && i < |h.placements|
    ensures var h1, agents := Pass(h, env).0, Metrics(h, env).agents;
      cfg in h1.placements[i].configs && !Exists(Stored(h1.agents, env), cfg) <==>
      cfg in h.placements[i].configs && exists a :: a in agents && IsOrphan(a, h.placements) && cfg == AgentConfig(a)
  {
    hide Metrics, IsOrphan, Surviving, CleanPlacements, Wanted, Exists, Stored, Follows, Live, EnsuredOne;
    var m, h1 := Metrics(h, env), Pass(h, env).0;
    var ps, store := h.placements, Stored(m.agents, env);
    MetricsFacts(h, env);
    MetricsFates(h, env);
    FollowsSound(Migrated(h.agents), m.agents, env, ps);
    ReconciledSameRefs(ps, m.configs, store);
    SurvivingSame(m.agents, ps, h1.placements);
    Attachment(ps[i], m.configs, store);
    if Exists(store, cfg) {
      GoneIff(h, env, m.agents, ps, cfg);
    }
    SurvivingSubset(m.agents, ps);
    if a :| a in m.agents && IsOrphan(a, ps) && cfg == AgentConfig(a) {
      OrphanUnwanted(m.agents, env, ps, a, i);
      var k :| 0 <= k < |m.agents| && m.agents[k] == a;
      AgentStored(m.agents, env, a);
    }
    StoredFewer(Surviving(m.agents, ps), m.agents, env, cfg);
  }

  lemma StoredFewer(agents: seq<Agent>, agents': seq<Agent>, env: Env, cfg: AddonConfig)
    requires Subset(agents, agents')
    ensures Exists(Stored(agents, env), cfg) ==> Exists(Stored(agents', env), cfg)
  {
    hide Stored;
    StoredMonotone(agents, agents', env);
  }

  lemma SurvivingSame(agents: seq<Agent>, ps: seq<Placement>, ps': seq<Placement>)
    requires SameRefs(ps, ps')
    ensures Surviving(agents, ps') == Surviving(agents, ps)
  {
    hide IsOrphan;
    SameRefsFacts(ps, ps');
    forall a ensures IsOrphan(a, ps') <==> IsOrphan(a, ps) {
      SameFate(a, ps, ps');
    }
    SurvivingBySameFate(agents, ps, ps');
  }

  lemma SameFate(a: Agent, ps: seq<Placement>, ps': seq<Placement>)
    requires PlacementTexts(ps) == PlacementTexts(ps')
    ensures IsOrphan(a, ps') <==> IsOrphan(a, ps)
  {
  }

  lemma {:induction false} SurvivingBySameFate(agents: seq<Agent>, ps: seq<Placement>, ps': seq<Placement>)
    requires forall a :: IsOrphan(a, ps') <==> IsOrphan(a, ps)
    ensures Surviving(agents, ps') == Surviving(agents, ps)
  {
    hide IsOrphan;
    if agents != [] {
      SurvivingBySameFate(agents[..|agents| - 1], ps, ps');
    }
  }

  /** Some placement lists an agent of the addon that, after migration, names neither the sentinel nor
      an existing placement. */
  ghost predicate ListsOrphan(h: Hub) {
    exists i, a :: 0 <= i < |h.placements| && a in h.agents
      && IsOrphan(MigratedIfManaged(a), h.placements) && AgentConfig(a) in h.placements[i].configs
  }

  /** When one pass is not enough, told from the hub before it: the second pass changes something
      exactly if some placement lists an orphan. */
  lemma SecondPassNeededIff(h: Hub, env: Env)
    requires CleanPlacements(h.placements) && WellFormed(h, env) && Pass(h, env).1
    ensures var h1 := Pass(h, env).0; Pass(h1, env).0 != h1 <==> ListsOrphan(h)
  {
    hide Pass, Metrics, IsOrphan, CleanPlacements, WellFormed, Exists, Stored, MigratedIfManaged, Follows;
    var h1, agents := Pass(h, env).0, Metrics(h, env).agents;
    SecondPassStaleIff(h, env);
    PassPlacements(h, env);
    if i, cfg :| 0 <= i < |h1.placements| && cfg in h1.placements[i].configs && !Exists(Stored(h1.agents, env), cfg) {
      StaleIff(h, env, i, cfg);
      var a :| a in agents && IsOrphan(a, h.placements) && cfg == AgentConfig(a);
      OrphanBefore(h, env, a);
    }
    if ListsOrphan(h) {
      var i, a :| 0 <= i < |h.placements| && a in h.agents && IsOrphan(MigratedIfManaged(a), h.placements)
        && AgentConfig(a) in h.placements[i].configs;
      OrphanAfter(h, env, a);
      StaleIff(h, env, i, AgentConfig(a));
    }
  }

  lemma PassPlacements(h: Hub, env: Env)
    requires Pass(h, env).1
    ensures |Pass(h, env).0.placements| == |h.placements| && !Metrics(h, env).failed
  {
    hide Metrics, Surviving, Stored;
  }

  lemma OrphanBefore(h: Hub, env: Env, b: Agent)
    requires CleanPlacements(h.placements) && WellFormed(h, env) && !Metrics(h, env).failed
    requires b in Metrics(h, env).agents && IsOrphan(b, h.placements)
    ensures exists a :: a in h.agents && IsOrphan(MigratedIfManaged(a), h.placements) && AgentConfig(a) == AgentConfig(b)
  {
    hide Metrics, IsOrphan, CleanPlacements, WellFormed, OwnersSound, MigratedIfManaged;
    MetricsFates(h, env);
    var k :| 0 <= k < |Metrics(h, env).agents| && Metrics(h, env).agents[k] == b;
    var a := h.agents[k];
    MigrationSettles(a);
    assert Migrated(h.agents)[k] == MigratedIfManaged(a);
    assert a in h.agents;
  }

  lemma OrphanAfter(h: Hub, env: Env, a: Agent)
    requires CleanPlacements(h.placements) && WellFormed(h, env) && !Metrics(h, env).failed
    requires a in h.agents && IsOrphan(MigratedIfManaged(a), h.placements)
    ensures exists b :: b in Metrics(h, env).agents && IsOrphan(b, h.placements) && AgentConfig(a) == AgentConfig(b)
  {
    hide Metrics, IsOrphan, CleanPlacements, WellFormed, OwnersSound, MigratedIfManaged;
    MetricsFates(h, env);
    var k :| 0 <= k < |h.agents| && h.agents[k] == a;
    var b := Metrics(h, env).agents[k];
    MigrationSettles(a);
    assert Migrated(h.agents)[k] == MigratedIfManaged(a);
    assert b in Metrics(h, env).agents;
  }

  // ---------------------------------------------------------------- two hubs

  /** Platform metrics only, and no scrape configs or rules on the hub. */
  predicate IsSimple(env: Env) {
    env.platform && !env.userWorkloads && env.host != "" && env.scrapeConfigs == [] && env.rules == [] && env.otherObjects == {}
  }

  lemma {:induction false} NoneFails(agents: seq<Agent>, env: Env, isUWL: bool)
    requires forall i :: 0 <= i < |agents| ==> !ProcessedOne(agents[i], env, isUWL).failed
    ensures !Processed(agents, env, isUWL).failed
  {
    hide ProcessedOne;
    if agents != [] {
      NoneFails(agents[..|agents| - 1], env, isUWL);
    }
  }

  lemma SimplePass(h: Hub, env: Env)
    requires IsSimple(env) && AllSettled(h.agents) && Created(h.agents, env, h.placements, false).Ok?
    requires var created := Created(h.agents, env, h.placements, false).value;
      forall i :: 0 <= i < |created| ==> !ProcessedOne(created[i], env, false).failed
    ensures Pass(h, env).1
  {
    hide Created, Processed, ProcessedOne, Settled;
    SettledMigration(h.agents);
    NoneFails(Created(h.agents, env, h.placements, false).value, env, false);
    NoDefaults(env, RefsIn(h.placements));
  }

  lemma NoDefaults(env: Env, refs: seq<PlacementRef>)
    requires IsSimple(env)
    ensures ScrapeDefaults(env, refs, false).Ok? && RuleDefaults(env, refs).Ok?
  {
  }

  /** The default agent for the sentinel. */
  function DummyAgent(env: Env): Agent {
    NewAgent(env, false, DummyName(false), PlacementRef(HUB_NS, DUMMY))
  }

  lemma DummyProcessed(env: Env)
    ensures !ProcessedOne(DummyAgent(env), env, false).failed && Settled(DummyAgent(env))
    ensures InScope(DummyAgent(env), env, false) && Targets(AnnotationOf(DummyAgent(env)), HUB_NS, DUMMY)
    ensures AnnotationOf(DummyAgent(env)) == RefText(PlacementRef(HUB_NS, DUMMY))
  {
    hide Built, Derivative, PlacementRefs, Settled, InScope, Targets;
    DummyClean();
    NewAgentFacts(env, false, DummyName(false), PlacementRef(HUB_NS, DUMMY));
    SingleRefRoundTrip(PlacementRef(HUB_NS, DUMMY));
  }

  /** A hub on which the sentinel's default agent was there before the global placement. */
  function LateGlobalHub(env: Env): Hub {
    Hub([DummyAgent(env)], [Placement(PlacementRef("set", GLOBAL), [])])
  }

  lemma LateGlobalClean()
    ensures Clean(PlacementRef("set", GLOBAL))
  {
    assert "set"[0] == 's' && GLOBAL[|GLOBAL| - 1] == 'l';
  }

  /** On it no agent ever targets the global placement, however many passes are made. */
  lemma GlobalNeverCovered(env: Env, n: nat)
    requires IsSimple(env) && n >= 1
    ensures var h := LateGlobalHub(env);
      Pass(h, env).1 && FindPlacementNamespace(h.placements, GLOBAL) == Some("set")
      && !GlobalReferenced(After(h, env, n).agents, env, Some("set"), false)
  {
    hide InScope, Targets, ProcessedOne, Settled, Pass, AnnotationOf, DummyAgent, After;
    var h := LateGlobalHub(env);
    var global := Some("set");
    DummyProcessed(env);
    LateGlobalClean();
    assert FindPlacementNamespace(h.placements, GLOBAL) == global;
    assert IsAnchor(h.agents[0], global, false);
    assert HasAnchor(h.agents, env, global, false);
    assert Created(h.agents, env, h.placements, false) == Ok(h.agents);
    SimplePass(h, env);
    GlobalCoveredAfterIff(h, env, false, n);
    SettledMigration(h.agents);
    assert DummyReferenced(h.agents, env, false);
    DummyMissesGlobal(env);
  }

  lemma DummyMissesGlobal(env: Env)
    ensures !Targets(AnnotationOf(DummyAgent(env)), "set", GLOBAL)
  {
    hide DummyAgent, AnnotationOf;
    DummyProcessed(env);
    DummyClean();
    LateGlobalClean();
    SingleRefRoundTrip(PlacementRef(HUB_NS, DUMMY));
    TargetsIffParsed(RefText(PlacementRef(HUB_NS, DUMMY)), PlacementRef("set", GLOBAL));
  }

  /** An agent of the addon whose only placement is gone. */
  function LeftoverAgent(env: Env): Agent {
    Agent("leftover", map[PART_OF_LABEL := ADDON_NAME], map[PLACEMENTS_KEY := "set/gone"], [], DefaultSpec(env, false))
  }

  /** A hub that lists it on another placement. */
  function LeftoverHub(env: Env): Hub {
    Hub([LeftoverAgent(env)], [Placement(PlacementRef("set", "here"), [AgentConfig(LeftoverAgent(env))])])
  }

  lemma LeftoverClean(name: string)
    requires name == "gone" || name == "here"
    ensures Clean(PlacementRef("set", name))
  {
    assert "set"[0] == 's' && name[|name| - 1] == 'e';
  }

  lemma LeftoverSettled(env: Env)
    ensures Settled(LeftoverAgent(env)) && !InScope(LeftoverAgent(env), env, false)
  {
    hide Settled;
    var a := LeftoverAgent(env);
    SettledLabels(a);
    assert Lookup(a.labels, COMPONENT_LABEL) == "" != PLATFORM_APP;
  }

  lemma LeftoverIsOrphan(env: Env)
    ensures IsOrphan(LeftoverAgent(env), LeftoverHub(env).placements)
  {
    hide IsOrphan, Clean, Targets, PlacementRefs, RefText;
    var a, ps := LeftoverAgent(env), LeftoverHub(env).placements;
    var gone, here := PlacementRef("set", "gone"), PlacementRef("set", "here");
    LeftoverClean("gone");
    LeftoverClean("here");
    LeftoverText(env);
    SingleRefRoundTrip(gone);
    assert RefsIn(ps) == [here];
    assert "gone" != DUMMY && "gone" != "here" by { assert "gone"[0] == 'g' && DUMMY[0] == 'd' && "here"[0] == 'h'; }
    OrphanIffParsed(a, ps);
  }

  lemma LeftoverText(env: Env)
    ensures AnnotationOf(LeftoverAgent(env)) == RefText(PlacementRef("set", "gone"))
    ensures Lookup(LeftoverAgent(env).labels, PART_OF_LABEL) == ADDON_NAME
  {
    assert "set" + "/" + "gone" == "set/gone";
  }

  /** One pass over it is not enough. */
  lemma OnePassNotEnough(env: Env)
    requires IsSimple(env)
    ensures var h := LeftoverHub(env); Pass(h, env).1 && Pass(Pass(h, env).0, env).0 != Pass(h, env).0
  {
    hide InScope, ProcessedOne, Settled, Pass, AnnotationOf, IsOrphan, Clean, Targets;
    var h := LeftoverHub(env);
    LeftoverIsOrphan(env);
    LeftoverSettled(env);
    DummyProcessed(env);
    LeftoverClean("here");
    assert MissingAgent(h.agents, env, h.placements, false) == Some(DummyAgent(env)) by { LeftoverDecision(env); }
    assert !NameTaken(h.agents, DummyName(false)) by { LeftoverName(); }
    var created := Created(h.agents, env, h.placements, false).value;
    assert created == [LeftoverAgent(env), DummyAgent(env)];
    OutOfScopeStable(LeftoverAgent(env), env, false);
    StableStep(LeftoverAgent(env), env, false);
    SimplePass(h, env);
    SettledMigration(h.agents);
    assert WellFormed(h, env);
    assert ListsOrphan(h) by {
      var a := h.agents[0];
      assert MigratedIfManaged(a) == a by { assert Migrated(h.agents)[0] == a; }
      assert AgentConfig(a) in h.placements[0].configs;
    }
    SecondPassNeededIff(h, env);
  }

  lemma LeftoverName()
    ensures "leftover" != DummyName(false)
  {
    assert "leftover"[0] == 'l' && DummyName(false)[0] == 'm';
  }

  lemma LeftoverDecision(env: Env)
    requires !InScope(LeftoverAgent(env), env, false)
    ensures MissingAgent(LeftoverHub(env).agents, env, LeftoverHub(env).placements, false) == Some(DummyAgent(env))
  {
    hide InScope, IsAnchor;
    assert "here" != GLOBAL by { assert "here"[0] == 'h' && GLOBAL[0] == 'g'; }
    assert FindPlacementNamespace(LeftoverHub(env).placements, GLOBAL) == None;
  }
}
