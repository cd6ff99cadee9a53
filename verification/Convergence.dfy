/** What repeated passes of the resource creator do: after one successful pass the agents are
    final, after two the whole hub is. */
module Convergence {
  import opened Config
  import opened Wrappers
  import opened Placements
  import opened AddonConfigs
  import opened AgentSpec
  import opened PlacementDefaults
  import opened HubReconcile

  /** Placements have proper, clean names, as Kubernetes guarantees. */
  ghost predicate CleanPlacements(ps: seq<Placement>) {
    forall i :: 0 <= i < |ps| ==> Clean(ps[i].ref)
  }

  // ---------------------------------------------------------------- migration

  /** Nothing is left to migrate. */
  predicate Settled(a: Agent) {
    MigratedIfManaged(a) == a
  }

  /** Migrating keeps the existing annotation text in front and happens once. */
  lemma MigrationSettles(a: Agent)
    ensures Settled(MigratedIfManaged(a))
    ensures AnnotationOf(a) <= AnnotationOf(MigratedIfManaged(a))
    ensures MigratedIfManaged(a).name == a.name && MigratedIfManaged(a).owners == a.owners && MigratedIfManaged(a).spec == a.spec
  {
    hide Contains;
  }

  ghost predicate AllSettled(agents: seq<Agent>) {
    forall i :: 0 <= i < |agents| ==> Settled(agents[i])
  }

  lemma SettledMigration(agents: seq<Agent>)
    requires AllSettled(agents)
    ensures Migrated(agents) == agents
  {
  }

  // ---------------------------------------------------------------- one agent

  /** The agents differ at most in what an apply may change. */
  ghost predicate SameIdentity(a: Agent, b: Agent) {
    && a.name == b.name && a.annotations == b.annotations
    && (forall key :: key != BACKUP_LABEL ==> Lookup(a.labels, key) == Lookup(b.labels, key))
    && (forall uid :: HasControllerUID(a.owners, uid) ==> HasControllerUID(b.owners, uid))
  }

  lemma OwnersGrow(owners: seq<OwnerRef>, env: Env, uid: string)
    requires HasControllerUID(owners, uid)
    ensures HasControllerUID(WithAddonOwner(owners, env), uid)
  {
    var i :| 0 <= i < |owners| && owners[i].controller && owners[i].uid == uid;
    var r := WithAddonOwner(owners, env);
    assert r[i].controller && r[i].uid == uid;
  }

  /** Applying keeps the agent's identity, and a second apply does nothing. */
  lemma AppliedFacts(a: Agent, env: Env, isUWL: bool)
    requires Applied(a, env, isUWL).Ok?
    ensures SameIdentity(a, Applied(a, env, isUWL).value)
    ensures Applied(Applied(a, env, isUWL).value, env, isUWL) == Applied(a, env, isUWL)
  {
    hide Derivative, Built, Overwritten, SettingsFor;
    var s := SettingsFor(env, isUWL);
    forall uid | HasControllerUID(a.owners, uid) ensures HasControllerUID(Applied(a, env, isUWL).value.owners, uid) {
      OwnersGrow(a.owners, env, uid);
    }
    AppliedDerivative(a.spec, s);
  }

  lemma AppliedDerivative(spec: Spec, s: Settings)
    ensures Derivative(Built(Overwritten(spec, Built(spec, s)), s), Overwritten(spec, Built(spec, s)))
  {
    var once := Overwritten(spec, Built(spec, s));
    BuildFixpoint(spec, s);
    assert Built(once, s) == once.(free := "");
    DerivativeReflexive(once);
  }

  lemma SameScope(a: Agent, b: Agent, env: Env, isUWL: bool)
    requires SameIdentity(a, b) && InScope(a, env, isUWL)
    ensures InScope(b, env, isUWL) && AnnotationOf(b) == AnnotationOf(a)
  {
  }

  lemma OneScope(a: Agent, env: Env, isUWL: bool)
    requires InScope(a, env, isUWL)
    ensures !InScope(a, env, !isUWL)
  {
    assert PLATFORM_APP[0] != UWL_APP[0];
  }

  /** The agent was left alone, or it is in scope and keeps its identity. */
  ghost predicate Stepped(a: Agent, b: Agent, env: Env, isUWL: bool) {
    b == a || (InScope(a, env, isUWL) && InScope(b, env, isUWL) && SameIdentity(a, b))
  }

  /** The agent wants this default config. */
  ghost predicate Wishes(a: Agent, env: Env, isUWL: bool, d: DefaultConfig) {
    && InScope(a, env, isUWL) && PlacementRefs(AnnotationOf(a)).Ok?
    && d.ref in PlacementRefs(AnnotationOf(a)).value && d.config == AgentConfig(a)
  }

  /** Processing the agent again would not change it and would not fail. */
  predicate Stable(a: Agent, env: Env, isUWL: bool) {
    var step := ProcessedOne(a, env, isUWL);
    step.agent == a && !step.failed
  }

  lemma ProcessedOneFacts(a: Agent, env: Env, isUWL: bool)
    requires !ProcessedOne(a, env, isUWL).failed
    ensures var step := ProcessedOne(a, env, isUWL);
      && Stepped(a, step.agent, env, isUWL)
      && Stable(step.agent, env, isUWL)
      && (Settled(a) ==> Settled(step.agent))
      && (forall d :: d in step.configs <==> Wishes(step.agent, env, isUWL, d))
  {
    hide Applied, PlacementRefs, SameIdentity, Settled;
    var step := ProcessedOne(a, env, isUWL);
    if InScope(a, env, isUWL) {
      AppliedFacts(a, env, isUWL);
      SameScope(a, step.agent, env, isUWL);
      SameName(a, step.agent);
      AppliedSettled(a, env, isUWL);
      forall d {
        ForRefsHas(PlacementRefs(AnnotationOf(a)).value, AgentConfig(a), d);
      }
    }
  }

  lemma SameName(a: Agent, b: Agent)
    requires SameIdentity(a, b)
    ensures a.name == b.name
  {
  }

  lemma AppliedSettled(a: Agent, env: Env, isUWL: bool)
    requires Applied(a, env, isUWL).Ok?
    ensures Settled(a) ==> Settled(Applied(a, env, isUWL).value)
  {
    hide Contains, Derivative, Built;
    var b := Applied(a, env, isUWL).value;
    SettledLabels(a);
    SettledLabels(b);
  }

  lemma SettledLabels(a: Agent)
    ensures Settled(a) <==> !IsManaged(a) || Lookup(a.labels, REF_NAME_LABEL) == "" || Lookup(a.labels, REF_NAMESPACE_LABEL) == ""
  {
    hide Contains;
    if Lookup(a.labels, REF_NAME_LABEL) != "" {
      assert REF_NAME_LABEL in a.labels && REF_NAME_LABEL !in a.labels - {REF_NAME_LABEL, REF_NAMESPACE_LABEL};
    }
  }

  // ---------------------------------------------------------------- one component

  ghost predicate AllStable(agents: seq<Agent>, env: Env, isUWL: bool) {
    forall i :: 0 <= i < |agents| ==> Stable(agents[i], env, isUWL)
  }

  ghost predicate SomeWishes(agents: seq<Agent>, env: Env, isUWL: bool, d: DefaultConfig) {
    exists i :: 0 <= i < |agents| && Wishes(agents[i], env, isUWL, d)
  }

  ghost predicate AllStepped(agents: seq<Agent>, agents': seq<Agent>, env: Env, isUWL: bool) {
    |agents| == |agents'| && forall i :: 0 <= i < |agents| ==> Stepped(agents[i], agents'[i], env, isUWL)
  }

  lemma SomeWishesSnoc(agents: seq<Agent>, a: Agent, env: Env, isUWL: bool, d: DefaultConfig)
    ensures SomeWishes(agents + [a], env, isUWL, d) <==> SomeWishes(agents, env, isUWL, d) || Wishes(a, env, isUWL, d)
  {
    var all := agents + [a];
    if i :| 0 <= i < |agents| && Wishes(agents[i], env, isUWL, d) {
      assert Wishes(all[i], env, isUWL, d);
    }
    if Wishes(a, env, isUWL, d) {
      assert Wishes(all[|agents|], env, isUWL, d);
    }
    if i :| 0 <= i < |all| && Wishes(all[i], env, isUWL, d) {
      if i < |agents| { assert agents[i] == all[i]; }
    }
  }

  lemma {:induction false} ProcessedFacts(agents: seq<Agent>, env: Env, isUWL: bool)
    requires !Processed(agents, env, isUWL).failed
    ensures var p := Processed(agents, env, isUWL);
      && AllStepped(agents, p.agents, env, isUWL)
      && AllStable(p.agents, env, isUWL)
      && (AllSettled(agents) ==> AllSettled(p.agents))
      && (forall d :: d in p.configs <==> SomeWishes(p.agents, env, isUWL, d))
  {
    hide ProcessedOne, Wishes, Settled, Stable, Stepped;
    if agents != [] {
      var init, a := agents[..|agents| - 1], agents[|agents| - 1];
      var before, p := Processed(init, env, isUWL), Processed(agents, env, isUWL);
      ProcessedFacts(init, env, isUWL);
      ProcessedOneFacts(a, env, isUWL);
      var step := ProcessedOne(a, env, isUWL);
      forall d ensures d in p.configs <==> SomeWishes(p.agents, env, isUWL, d) {
        SomeWishesSnoc(before.agents, step.agent, env, isUWL, d);
      }
    }
  }

  /** Agents that are stable are processed without any effect. */
  lemma {:induction false} StableProcessed(agents: seq<Agent>, env: Env, isUWL: bool)
    requires AllStable(agents, env, isUWL)
    ensures var p := Processed(agents, env, isUWL); !p.failed && p.agents == agents
  {
    hide ProcessedOne;
    if agents != [] {
      var init, a := agents[..|agents| - 1], agents[|agents| - 1];
      assert agents == init + [a];
      StableProcessed(init, env, isUWL);
      assert Stable(a, env, isUWL);
      StableStep(a, env, isUWL);
    }
  }

  lemma StableStep(a: Agent, env: Env, isUWL: bool)
    requires Stable(a, env, isUWL)
    ensures ProcessedOne(a, env, isUWL).agent == a && !ProcessedOne(a, env, isUWL).failed
  {
  }

  // ---------------------------------------------------------------- anchors

  lemma HubNamespaceFree(c: char)
    requires c == '/' || c == ','
    ensures c !in HUB_NS
  {
  }

  lemma DummyClean()
    ensures Clean(PlacementRef(HUB_NS, DUMMY))
  {
    HubNamespaceFree('/');
    HubNamespaceFree(',');
    assert HUB_NS[0] == 'o';
    assert DUMMY[|DUMMY| - 1] == 'y';
  }

  lemma GlobalFound(ps: seq<Placement>)
    requires FindPlacementNamespace(ps, GLOBAL).Some?
    ensures exists i :: 0 <= i < |ps| && ps[i].ref == PlacementRef(FindPlacementNamespace(ps, GLOBAL).value, GLOBAL)
  {
    if ps[0].ref.name != GLOBAL {
      GlobalFound(ps[1..]);
      var i :| 0 <= i < |ps[1..]| && ps[1..][i].ref == PlacementRef(FindPlacementNamespace(ps, GLOBAL).value, GLOBAL);
      assert ps[i + 1].ref == ps[1..][i].ref;
    } else {
      assert ps[0].ref == PlacementRef(FindPlacementNamespace(ps, GLOBAL).value, GLOBAL);
    }
  }

  lemma NewAgentFacts(env: Env, isUWL: bool, name: string, ref: PlacementRef)
    requires Clean(ref)
    ensures var a := NewAgent(env, isUWL, name, ref);
      && InScope(a, env, isUWL) && Targets(AnnotationOf(a), ref.namespace, ref.name) && a.name == name && Settled(a)
  {
    var a := NewAgent(env, isUWL, name, ref);
    SingleRefRoundTrip(ref);
    assert a.owners[0].controller && a.owners[0].uid == env.uid;
    SettledLabels(a);
  }

  /** The agent that is created is an anchor. */
  lemma MissingIsAnchor(agents: seq<Agent>, env: Env, ps: seq<Placement>, isUWL: bool)
    requires CleanPlacements(ps) && MissingAgent(agents, env, ps, isUWL).Some?
    ensures var a := MissingAgent(agents, env, ps, isUWL).value;
      InScope(a, env, isUWL) && IsAnchor(a, FindPlacementNamespace(ps, GLOBAL), isUWL) && Settled(a)
  {
    hide Targets, InScope, Settled, HasAnchor, GlobalReferenced;
    var global := FindPlacementNamespace(ps, GLOBAL);
    if global.None? || GlobalReferenced(agents, env, global, isUWL) {
      DummyClean();
      NewAgentFacts(env, isUWL, DummyName(isUWL), PlacementRef(HUB_NS, DUMMY));
    } else {
      GlobalFound(ps);
      NewAgentFacts(env, isUWL, DefaultGlobalName(isUWL), PlacementRef(global.value, GLOBAL));
    }
  }

  lemma CreatedHasAnchor(agents: seq<Agent>, env: Env, ps: seq<Placement>, isUWL: bool)
    requires CleanPlacements(ps) && Created(agents, env, ps, isUWL).Ok?
    ensures var r := Created(agents, env, ps, isUWL).value;
      HasAnchor(r, env, FindPlacementNamespace(ps, GLOBAL), isUWL) && (AllSettled(agents) ==> AllSettled(r))
  {
    hide IsAnchor, InScope, Settled, NameTaken;
    var r := Created(agents, env, ps, isUWL).value;
    if MissingAgent(agents, env, ps, isUWL).Some? {
      MissingIsAnchor(agents, env, ps, isUWL);
      assert r[|agents|] == MissingAgent(agents, env, ps, isUWL).value;
    }
  }

  lemma SteppedAnchor(agents: seq<Agent>, agents': seq<Agent>, env: Env, global: Option<string>, isUWL: bool)
    requires AllStepped(agents, agents', env, isUWL) && HasAnchor(agents, env, global, isUWL)
    ensures HasAnchor(agents', env, global, isUWL)
  {
    var i :| 0 <= i < |agents| && InScope(agents[i], env, isUWL) && IsAnchor(agents[i], global, isUWL);
    assert Stepped(agents[i], agents'[i], env, isUWL);
    assert InScope(agents'[i], env, isUWL) && IsAnchor(agents'[i], global, isUWL);
  }

  /** The decision to create a default agent, and which one, depends only on which agents there
      are, not on their order. */
  lemma DecisionIgnoresOrder(xs: seq<Agent>, ys: seq<Agent>, env: Env, ps: seq<Placement>, isUWL: bool)
    requires forall a :: InScope(a, env, isUWL) ==> (a in xs <==> a in ys)
    ensures MissingAgent(xs, env, ps, isUWL) == MissingAgent(ys, env, ps, isUWL)
  {
    var global := FindPlacementNamespace(ps, GLOBAL);
    DecisionMonotone(xs, ys, env, global, isUWL);
    DecisionMonotone(ys, xs, env, global, isUWL);
  }

  lemma DecisionMonotone(xs: seq<Agent>, ys: seq<Agent>, env: Env, global: Option<string>, isUWL: bool)
    requires forall a :: InScope(a, env, isUWL) && a in xs ==> a in ys
    ensures HasAnchor(xs, env, global, isUWL) ==> HasAnchor(ys, env, global, isUWL)
    ensures GlobalReferenced(xs, env, global, isUWL) ==> GlobalReferenced(ys, env, global, isUWL)
  {
    hide InScope, IsAnchor, TargetsGlobal;
    if i :| 0 <= i < |xs| && InScope(xs[i], env, isUWL) && IsAnchor(xs[i], global, isUWL) {
      assert xs[i] in ys;
      var j :| 0 <= j < |ys| && ys[j] == xs[i];
    }
    if i :| 0 <= i < |xs| && InScope(xs[i], env, isUWL) && TargetsGlobal(xs[i], global) {
      assert xs[i] in ys;
      var j :| 0 <= j < |ys| && ys[j] == xs[i];
    }
  }

  // ---------------------------------------------------------------- orphans

  lemma {:induction false} SurvivingHas(agents: seq<Agent>, ps: seq<Placement>, a: Agent)
    ensures a in Surviving(agents, ps) <==> a in agents && !IsOrphan(a, ps)
  {
    hide IsOrphan;
    if agents != [] {
      SurvivingHas(agents[..|agents| - 1], ps, a);
      assert agents == agents[..|agents| - 1] + [agents[|agents| - 1]];
    }
  }

  lemma {:induction false} SurvivingAll(agents: seq<Agent>, ps: seq<Placement>)
    requires forall a :: a in agents ==> !IsOrphan(a, ps)
    ensures Surviving(agents, ps) == agents
  {
    hide IsOrphan;
    if agents != [] {
      var init, a := agents[..|agents| - 1], agents[|agents| - 1];
      assert agents == init + [a];
      SurvivingAll(init, ps);
    }
  }

  /** Orphan deletion never removes an anchor. */
  lemma AnchorIsNoOrphan(a: Agent, ps: seq<Placement>, isUWL: bool)
    requires IsAnchor(a, FindPlacementNamespace(ps, GLOBAL), isUWL)
    ensures !IsOrphan(a, ps)
  {
    var annotation := AnnotationOf(a);
    if Targets(annotation, HUB_NS, DUMMY) {
      var entry := HUB_NS + "/" + DUMMY;
      CutUnique(HUB_NS, DUMMY, '/');
      assert entry == HUB_NS + ['/'] + DUMMY;
      assert IsDummyRef(entry);
    } else {
      GlobalFound(ps);
      var i :| 0 <= i < |ps| && ps[i].ref == PlacementRef(FindPlacementNamespace(ps, GLOBAL).value, GLOBAL);
      assert RefText(ps[i].ref) in PlacementTexts(ps);
      assert RefText(ps[i].ref) in Entries(annotation);
    }
  }

  lemma SurvivingAnchor(agents: seq<Agent>, env: Env, ps: seq<Placement>, isUWL: bool)
    ensures HasAnchor(agents, env, FindPlacementNamespace(ps, GLOBAL), isUWL) ==>
            HasAnchor(Surviving(agents, ps), env, FindPlacementNamespace(ps, GLOBAL), isUWL)
  {
    hide InScope, IsAnchor, IsOrphan;
    var global := FindPlacementNamespace(ps, GLOBAL);
    if i :| 0 <= i < |agents| && InScope(agents[i], env, isUWL) && IsAnchor(agents[i], global, isUWL) {
      AnchorIsNoOrphan(agents[i], ps, isUWL);
      SurvivingHas(agents, ps, agents[i]);
      var left := Surviving(agents, ps);
      var j :| 0 <= j < |left| && left[j] == agents[i];
    }
  }

  /** Placement lists with the same references. */
  ghost predicate SameRefs(ps: seq<Placement>, ps': seq<Placement>) {
    |ps| == |ps'| && forall i :: 0 <= i < |ps| ==> ps[i].ref == ps'[i].ref
  }

  lemma {:induction false} SameGlobal(ps: seq<Placement>, ps': seq<Placement>, name: string)
    requires SameRefs(ps, ps')
    ensures FindPlacementNamespace(ps, name) == FindPlacementNamespace(ps', name)
  {
    if ps != [] {
      SameGlobal(ps[1..], ps'[1..], name);
    }
  }

  lemma SameRefsFacts(ps: seq<Placement>, ps': seq<Placement>)
    requires SameRefs(ps, ps')
    ensures RefsIn(ps) == RefsIn(ps') && PlacementTexts(ps) == PlacementTexts(ps')
    ensures FindPlacementNamespace(ps, GLOBAL) == FindPlacementNamespace(ps', GLOBAL)
    ensures CleanPlacements(ps) ==> CleanPlacements(ps')
  {
    SameGlobal(ps, ps', GLOBAL);
    assert PlacementTexts(ps) == PlacementTexts(ps') by {
      forall text ensures text in PlacementTexts(ps) <==> text in PlacementTexts(ps') {
        if text in PlacementTexts(ps) {
          var i :| 0 <= i < |ps| && RefText(ps[i].ref) == text;
          assert RefText(ps'[i].ref) == text;
        }
        if text in PlacementTexts(ps') {
          var i :| 0 <= i < |ps'| && RefText(ps'[i].ref) == text;
          assert RefText(ps[i].ref) == text;
        }
      }
    }
  }

  // ---------------------------------------------------------------- one component, seen by the other

  /** Agents in the other component's scope are the same before and after. */
  ghost predicate Untouched(agents: seq<Agent>, agents': seq<Agent>, env: Env, other: bool) {
    && |agents| <= |agents'|
    && (forall i :: 0 <= i < |agents| ==>
          agents'[i] == agents[i] || (!InScope(agents[i], env, other) && !InScope(agents'[i], env, other)))
    && (forall i :: |agents| <= i < |agents'| ==> !InScope(agents'[i], env, other))
  }

  lemma OutOfScopeStable(a: Agent, env: Env, isUWL: bool)
    requires !InScope(a, env, isUWL)
    ensures Stable(a, env, isUWL)
  {
  }

  lemma UntouchedFacts(agents: seq<Agent>, agents': seq<Agent>, env: Env, global: Option<string>, other: bool)
    requires Untouched(agents, agents', env, other)
    ensures AllStable(agents, env, other) ==> AllStable(agents', env, other)
    ensures HasAnchor(agents, env, global, other) ==> HasAnchor(agents', env, global, other)
    ensures forall d :: SomeWishes(agents', env, other, d) <==> SomeWishes(agents, env, other, d)
  {
    hide Stable, IsAnchor, InScope, PlacementRefs;
    if AllStable(agents, env, other) {
      forall i | 0 <= i < |agents'| ensures Stable(agents'[i], env, other) {
        if i >= |agents| || agents'[i] != agents[i] {
          OutOfScopeStable(agents'[i], env, other);
        }
      }
    }
    if i :| 0 <= i < |agents| && InScope(agents[i], env, other) && IsAnchor(agents[i], global, other) {
      assert agents'[i] == agents[i];
    }
    forall d ensures SomeWishes(agents', env, other, d) <==> SomeWishes(agents, env, other, d) {
      if i :| 0 <= i < |agents| && Wishes(agents[i], env, other, d) {
        assert Wishes(agents'[i], env, other, d);
      }
      if i :| 0 <= i < |agents'| && Wishes(agents'[i], env, other, d) {
        assert Wishes(agents[i], env, other, d);
      }
    }
  }

  lemma SteppedUntouched(a: Agent, b: Agent, env: Env, isUWL: bool)
    requires Stepped(a, b, env, isUWL)
    ensures b == a || (!InScope(a, env, !isUWL) && !InScope(b, env, !isUWL))
  {
    hide SameIdentity;
    if b != a {
      OneScope(a, env, isUWL);
      OneScope(b, env, isUWL);
    }
  }

  lemma CreatedUntouched(agents: seq<Agent>, created: seq<Agent>, agents': seq<Agent>, env: Env, isUWL: bool)
    requires created == agents || (|created| == |agents| + 1 && created[..|agents|] == agents && InScope(created[|agents|], env, isUWL))
    requires AllStepped(created, agents', env, isUWL)
    ensures Untouched(agents, agents', env, !isUWL)
  {
    hide InScope, Stepped;
    forall i | 0 <= i < |agents'|
      ensures i < |agents| ==> agents'[i] == agents[i] || (!InScope(agents[i], env, !isUWL) && !InScope(agents'[i], env, !isUWL))
      ensures i >= |agents| ==> !InScope(agents'[i], env, !isUWL)
    {
      SteppedUntouched(created[i], agents'[i], env, isUWL);
      if i < |agents| {
        assert created[i] == agents[i];
      } else {
        OneScope(created[i], env, isUWL);
      }
    }
  }

  /** What a collector's reconciliation establishes: its next run will find nothing to do. */
  ghost predicate Ready(agents: seq<Agent>, env: Env, ps: seq<Placement>, isUWL: bool) {
    && HasAnchor(agents, env, FindPlacementNamespace(ps, GLOBAL), isUWL)
    && AllStable(agents, env, isUWL)
    && env.host != ""
    && ScrapeDefaults(env, RefsIn(ps), isUWL).Ok?
  }

  lemma CreatedShape(agents: seq<Agent>, env: Env, ps: seq<Placement>, isUWL: bool)
    requires CleanPlacements(ps) && Created(agents, env, ps, isUWL).Ok?
    ensures var created := Created(agents, env, ps, isUWL).value;
      created == agents || (|created| == |agents| + 1 && created[..|agents|] == agents && InScope(created[|agents|], env, isUWL))
  {
    hide InScope, IsAnchor, Settled, HasAnchor, GlobalReferenced, NameTaken;
    if MissingAgent(agents, env, ps, isUWL).Some? {
      MissingIsAnchor(agents, env, ps, isUWL);
    }
  }

  lemma AgentsFacts(agents: seq<Agent>, env: Env, ps: seq<Placement>, isUWL: bool)
    requires CleanPlacements(ps) && !ReconciledAgents(agents, env, ps, isUWL).failed
    ensures var q := ReconciledAgents(agents, env, ps, isUWL);
      && HasAnchor(q.agents, env, FindPlacementNamespace(ps, GLOBAL), isUWL)
      && AllStable(q.agents, env, isUWL) && env.host != ""
      && (AllSettled(agents) ==> AllSettled(q.agents))
      && Untouched(agents, q.agents, env, !isUWL)
      && (forall d :: d in q.configs <==> SomeWishes(q.agents, env, isUWL, d))
  {
    hide Created, Processed, HasAnchor, AllStable, AllSettled, SomeWishes, Untouched, AllStepped;
    var created := Created(agents, env, ps, isUWL).value;
    var global := FindPlacementNamespace(ps, GLOBAL);
    CreatedHasAnchor(agents, env, ps, isUWL);
    CreatedShape(agents, env, ps, isUWL);
    ProcessedFacts(created, env, isUWL);
    var agents' := Processed(created, env, isUWL).agents;
    SteppedAnchor(created, agents', env, global, isUWL);
    CreatedUntouched(agents, created, agents', env, isUWL);
  }

  /** What the pass wants for one component, in terms of the agents it leaves. */
  ghost predicate ComponentWants(agents: seq<Agent>, env: Env, ps: seq<Placement>, isUWL: bool, d: DefaultConfig) {
    SomeWishes(agents, env, isUWL, d)
    || (ScrapeDefaults(env, RefsIn(ps), isUWL).Ok? && d in ScrapeDefaults(env, RefsIn(ps), isUWL).value)
  }

  lemma ComponentFacts(p: Progress, env: Env, ps: seq<Placement>, isUWL: bool)
    requires CleanPlacements(ps) && !p.failed && !Component(p, env, ps, isUWL).failed
    ensures var r, other := Component(p, env, ps, isUWL), !isUWL;
      && Ready(r.agents, env, ps, isUWL)
      && (AllSettled(p.agents) ==> AllSettled(r.agents))
      && (Ready(p.agents, env, ps, other) ==> Ready(r.agents, env, ps, other))
      && (forall d :: ComponentWants(r.agents, env, ps, other, d) <==> ComponentWants(p.agents, env, ps, other, d))
      && (forall d :: d in r.configs <==> d in p.configs || ComponentWants(r.agents, env, ps, isUWL, d))
  {
    hide ReconciledAgents, HasAnchor, AllStable, AllSettled, SomeWishes, Untouched, ScrapeDefaults;
    AgentsFacts(p.agents, env, ps, isUWL);
    UntouchedFacts(p.agents, ReconciledAgents(p.agents, env, ps, isUWL).agents, env, FindPlacementNamespace(ps, GLOBAL), !isUWL);
  }

  /** A ready component is left alone. */
  lemma ReadyComponent(p: Progress, env: Env, ps: seq<Placement>, isUWL: bool)
    requires !p.failed
    ensures Ready(p.agents, env, ps, isUWL) ==>
            var r := Component(p, env, ps, isUWL); !r.failed && r.agents == p.agents
  {
    hide HasAnchor, Processed, ScrapeDefaults;
    if Ready(p.agents, env, ps, isUWL) {
      StableProcessed(p.agents, env, isUWL);
      assert MissingAgent(p.agents, env, ps, isUWL) == None;
    }
  }

  // ---------------------------------------------------------------- the metrics step

  ghost predicate AllReady(agents: seq<Agent>, env: Env, ps: seq<Placement>) {
    && AllSettled(agents)
    && (env.platform ==> Ready(agents, env, ps, false))
    && (env.userWorkloads ==> Ready(agents, env, ps, true))
    && (env.platform || env.userWorkloads ==> RuleDefaults(env, RefsIn(ps)).Ok?)
  }

  /** What a pass wants attached. */
  ghost predicate Wanted(agents: seq<Agent>, env: Env, ps: seq<Placement>, d: DefaultConfig) {
    || (env.platform && ComponentWants(agents, env, ps, false, d))
    || (env.userWorkloads && ComponentWants(agents, env, ps, true, d))
    || ((env.platform || env.userWorkloads) && RuleDefaults(env, RefsIn(ps)).Ok? && d in RuleDefaults(env, RefsIn(ps)).value)
  }

  lemma MigratedSettled(agents: seq<Agent>)
    ensures AllSettled(Migrated(agents))
  {
    hide MigratedIfManaged;
    forall i | 0 <= i < |agents| ensures Settled(Migrated(agents)[i]) {
      MigrationSettles(agents[i]);
    }
  }

  lemma MetricsFacts(h: Hub, env: Env)
    requires CleanPlacements(h.placements) && !Metrics(h, env).failed
    ensures var m := Metrics(h, env);
      && AllReady(m.agents, env, h.placements)
      && (forall d :: d in m.configs <==> Wanted(m.agents, env, h.placements, d))
  {
    hide Component, Ready, AllSettled, ComponentWants, RuleDefaults;
    var ps := h.placements;
    var p0 := Progress(Migrated(h.agents), [], false);
    MigratedSettled(h.agents);
    var p1 := if env.platform then Component(p0, env, ps, false) else p0;
    FailedStays(p1, env, ps, true);
    if env.platform {
      ComponentFacts(p0, env, ps, false);
    }
    if env.userWorkloads {
      ComponentFacts(p1, env, ps, true);
    }
  }

  lemma FailedStays(p: Progress, env: Env, ps: seq<Placement>, isUWL: bool)
    ensures p.failed ==> Component(p, env, ps, isUWL).failed
  {
  }

  lemma ReadyMetrics(h: Hub, env: Env)
    requires AllReady(h.agents, env, h.placements)
    ensures var m := Metrics(h, env); !m.failed && m.agents == h.agents
  {
    hide Component, Ready, AllSettled, RuleDefaults;
    SettledMigration(h.agents);
    var p0 := Progress(h.agents, [], false);
    if env.platform {
      ReadyComponent(p0, env, h.placements, false);
    }
    var p1 := if env.platform then Component(p0, env, h.placements, false) else p0;
    if env.userWorkloads {
      ReadyComponent(p1, env, h.placements, true);
    }
  }

  // ---------------------------------------------------------------- deleting orphans keeps readiness

  ghost predicate Subset(agents: seq<Agent>, agents': seq<Agent>) {
    forall a :: a in agents ==> a in agents'
  }

  lemma SubsetStable(agents: seq<Agent>, agents': seq<Agent>, env: Env, isUWL: bool)
    requires Subset(agents, agents') && AllStable(agents', env, isUWL)
    ensures AllStable(agents, env, isUWL)
  {
    hide Stable;
    forall i | 0 <= i < |agents| ensures Stable(agents[i], env, isUWL) {
      assert agents[i] in agents';
      var j :| 0 <= j < |agents'| && agents'[j] == agents[i];
    }
  }

  lemma SubsetSettled(agents: seq<Agent>, agents': seq<Agent>)
    requires Subset(agents, agents') && AllSettled(agents')
    ensures AllSettled(agents)
  {
    hide Settled;
    forall i | 0 <= i < |agents| ensures Settled(agents[i]) {
      assert agents[i] in agents';
      var j :| 0 <= j < |agents'| && agents'[j] == agents[i];
    }
  }

  lemma SubsetWants(agents: seq<Agent>, agents': seq<Agent>, env: Env, ps: seq<Placement>, d: DefaultConfig)
    requires Subset(agents, agents') && Wanted(agents, env, ps, d)
    ensures Wanted(agents', env, ps, d)
  {
    hide Wishes, ScrapeDefaults, RuleDefaults;
    forall isUWL | SomeWishes(agents, env, isUWL, d) ensures SomeWishes(agents', env, isUWL, d) {
      var i :| 0 <= i < |agents| && Wishes(agents[i], env, isUWL, d);
      assert agents[i] in agents';
      var j :| 0 <= j < |agents'| && agents'[j] == agents[i];
    }
  }

  lemma SurvivingSubset(agents: seq<Agent>, ps: seq<Placement>)
    ensures Subset(Surviving(agents, ps), agents)
  {
    hide IsOrphan, Surviving;
    forall a | a in Surviving(agents, ps) ensures a in agents {
      SurvivingHas(agents, ps, a);
    }
  }

  lemma SurvivingReady(agents: seq<Agent>, env: Env, ps: seq<Placement>, ps': seq<Placement>)
    requires AllReady(agents, env, ps) && SameRefs(ps, ps')
    ensures AllReady(Surviving(agents, ps'), env, ps')
  {
    hide HasAnchor, AllStable, AllSettled, ScrapeDefaults, RuleDefaults, Surviving, FindPlacementNamespace;
    var left := Surviving(agents, ps');
    SameRefsFacts(ps, ps');
    SurvivingSubset(agents, ps');
    SubsetSettled(left, agents);
    forall isUWL | Ready(agents, env, ps, isUWL) ensures Ready(left, env, ps', isUWL) {
      SubsetStable(left, agents, env, isUWL);
      SurvivingAnchor(agents, env, ps', isUWL);
    }
  }

  lemma SurvivingTwice(agents: seq<Agent>, ps: seq<Placement>, ps': seq<Placement>)
    requires SameRefs(ps, ps')
    ensures Surviving(Surviving(agents, ps), ps') == Surviving(agents, ps)
  {
    hide HasExistingRef, Surviving;
    SameRefsFacts(ps, ps');
    forall a | a in Surviving(agents, ps) ensures !IsOrphan(a, ps') {
      SurvivingHas(agents, ps, a);
    }
    SurvivingAll(Surviving(agents, ps), ps');
  }

  // ---------------------------------------------------------------- whole passes

  /** The agents are final: a pass finds all of them in place and deletes none. */
  ghost predicate AgentsFinal(h: Hub, env: Env) {
    CleanPlacements(h.placements) && AllReady(h.agents, env, h.placements) && Surviving(h.agents, h.placements) == h.agents
  }

  lemma ReconciledSameRefs(ps: seq<Placement>, defaults: seq<DefaultConfig>, store: set<Object>)
    ensures SameRefs(ps, Reconciled(ps, defaults, store))
  {
  }

  /** After one successful pass the agents are final. */
  lemma FirstPass(h: Hub, env: Env)
    requires CleanPlacements(h.placements) && Pass(h, env).1
    ensures AgentsFinal(Pass(h, env).0, env)
  {
    hide Metrics, AllReady, Surviving, Reconciled, CleanPlacements;
    var m := Metrics(h, env);
    var ps := Reconciled(h.placements, m.configs, Stored(m.agents, env));
    MetricsFacts(h, env);
    ReconciledSameRefs(h.placements, m.configs, Stored(m.agents, env));
    SameRefsFacts(h.placements, ps);
    SurvivingReady(m.agents, env, h.placements, ps);
    SurvivingTwice(m.agents, ps, ps);
  }

  /** Anchor safety: after a successful pass every enabled collector has an anchor agent on the hub,
      so the deletion of orphans in that pass removed none that it needed. */
  lemma AnchorSafety(h: Hub, env: Env, isUWL: bool)
    requires CleanPlacements(h.placements) && Pass(h, env).1
    ensures (if isUWL then env.userWorkloads else env.platform) ==>
            HasAnchor(Pass(h, env).0.agents, env, FindPlacementNamespace(h.placements, GLOBAL), isUWL)
  {
    hide HasAnchor, Surviving, Metrics, AllSettled, AllStable, ScrapeDefaults, RuleDefaults;
    FirstPass(h, env);
    var m := Metrics(h, env);
    ReconciledSameRefs(h.placements, m.configs, Stored(m.agents, env));
    SameRefsFacts(h.placements, Pass(h, env).0.placements);
  }

  /** A pass over a hub whose agents are final succeeds, creates, changes and deletes no agent, and
      wants exactly what the agents and objects on the hub ask for. */
  lemma FinalPass(h: Hub, env: Env)
    requires AgentsFinal(h, env)
    ensures var m := Metrics(h, env);
      && Pass(h, env) == (Hub(h.agents, Reconciled(h.placements, m.configs, Stored(h.agents, env))), true)
      && AgentsFinal(Pass(h, env).0, env)
      && (forall d :: d in m.configs <==> Wanted(h.agents, env, h.placements, d))
  {
    hide Metrics, AllReady, Surviving, Reconciled, CleanPlacements, Wanted;
    var m := Metrics(h, env);
    ReadyMetrics(h, env);
    MetricsFacts(h, env);
    var ps := Reconciled(h.placements, m.configs, Stored(h.agents, env));
    ReconciledSameRefs(h.placements, m.configs, Stored(h.agents, env));
    SameRefsFacts(h.placements, ps);
    SurvivingTwice(h.agents, h.placements, ps);
    SurvivingReady(h.agents, env, h.placements, ps);
  }

  lemma StoredMonotone(agents: seq<Agent>, agents': seq<Agent>, env: Env)
    requires Subset(agents, agents')
    ensures Stored(agents, env) <= Stored(agents', env)
  {
  }

  /** The second pass: no agent is created, changed or deleted, and the placements only lose the
      entries of the agents that the first pass deleted. */
  lemma SecondPass(h: Hub, env: Env)
    requires CleanPlacements(h.placements) && Pass(h, env).1
    ensures var h1 := Pass(h, env).0;
      Pass(h1, env) == (Hub(h1.agents, Pruned(h1.placements, Stored(h1.agents, env))), true)
  {
    hide Metrics, AllReady, Surviving, Reconciled, Pruned, CleanPlacements, Wanted, Stored;
    var m := Metrics(h, env);
    var h1 := Pass(h, env).0;
    FirstPass(h, env);
    FinalPass(h1, env);
    MetricsFacts(h, env);
    var m1 := Metrics(h1, env);
    var store, store1 := Stored(m.agents, env), Stored(h1.agents, env);
    SurvivingSubset(m.agents, h1.placements);
    StoredMonotone(h1.agents, m.agents, env);
    ReconciledSameRefs(h.placements, m.configs, store);
    forall d | d in m1.configs ensures d in m.configs {
      WantedSameRefs(h1.agents, env, h.placements, h1.placements, d);
      SubsetWants(h1.agents, m.agents, env, h.placements, d);
    }
    ReconcileAgain(h.placements, m.configs, store, m1.configs, store1);
  }

  lemma WantedSameRefs(agents: seq<Agent>, env: Env, ps: seq<Placement>, ps': seq<Placement>, d: DefaultConfig)
    requires SameRefs(ps, ps')
    ensures Wanted(agents, env, ps, d) <==> Wanted(agents, env, ps', d)
  {
    hide ScrapeDefaults, RuleDefaults, SomeWishes;
    SameRefsFacts(ps, ps');
  }

  lemma PrunedTwice(ps: seq<Placement>, store: set<Object>)
    ensures Pruned(Pruned(ps, store), store) == Pruned(ps, store)
  {
    forall i | 0 <= i < |ps| ensures Pruned(Pruned(ps, store), store)[i] == Pruned(ps, store)[i] {
      LiveTwice(store, store, ps[i].configs);
    }
  }

  /** Convergence: if one pass succeeds, so do all later ones, and from the second on the hub does
      not change any more. */
  lemma Convergence(h: Hub, env: Env)
    requires CleanPlacements(h.placements) && Pass(h, env).1
    ensures var h2 := Pass(Pass(h, env).0, env).0; Pass(h2, env) == (h2, true)
  {
    hide Metrics, AllReady, Surviving, Reconciled, Pruned, CleanPlacements, Wanted, Stored;
    var h1 := Pass(h, env).0;
    FirstPass(h, env);
    SecondPass(h, env);
    FinalPass(h1, env);
    var h2 := Pass(h1, env).0;
    FinalPass(h2, env);
    var m1, m2, store := Metrics(h1, env), Metrics(h2, env), Stored(h1.agents, env);
    assert h2.placements == Reconciled(h1.placements, m1.configs, store);
    ReconciledSameRefs(h1.placements, m1.configs, store);
    forall d | d in m2.configs ensures d in m1.configs {
      WantedSameRefs(h1.agents, env, h1.placements, h2.placements, d);
    }
    ReconcileAgain(h1.placements, m1.configs, store, m2.configs, store);
    PrunedTwice(h1.placements, store);
  }

  /** The hub after `n` passes. */
  function After(h: Hub, env: Env, n: nat): Hub {
    if n == 0 then h else Pass(After(h, env, n - 1), env).0
  }

  /** From the second pass on, every run of passes stays where it is. */
  lemma {:induction false} StaysConverged(h: Hub, env: Env, n: nat)
    requires CleanPlacements(h.placements) && Pass(h, env).1 && n >= 2
    ensures After(h, env, n) == After(h, env, 2) && Pass(After(h, env, n), env).1
  {
    hide Pass, CleanPlacements;
    Convergence(h, env);
    assert After(h, env, 2) == Pass(Pass(h, env).0, env).0 by {
      assert After(h, env, 1) == Pass(After(h, env, 0), env).0;
    }
    if n > 2 {
      StaysConverged(h, env, n - 1);
    }
  }

  /** The second pass changes something exactly if some placement lists an object that is gone after
      the first. */
  lemma SecondPassStaleIff(h: Hub, env: Env)
    requires CleanPlacements(h.placements) && Pass(h, env).1
    ensures var h1 := Pass(h, env).0;
      Pass(h1, env).0 == h1 <==>
      forall i, cfg :: 0 <= i < |h1.placements| && cfg in h1.placements[i].configs ==> Exists(Stored(h1.agents, env), cfg)
  {
    hide Pass, CleanPlacements, Stored, Exists;
    var h1 := Pass(h, env).0;
    var store := Stored(h1.agents, env);
    SecondPass(h, env);
    if forall i, cfg :: 0 <= i < |h1.placements| && cfg in h1.placements[i].configs ==> Exists(store, cfg) {
      forall i | 0 <= i < |h1.placements| ensures Pruned(h1.placements, store)[i] == h1.placements[i] {
        LiveAll(store, h1.placements[i].configs);
      }
      assert Pruned(h1.placements, store) == h1.placements;
    }
    if i, cfg :| 0 <= i < |h1.placements| && cfg in h1.placements[i].configs && !Exists(store, cfg) {
      LiveHas(store, h1.placements[i].configs, cfg);
      assert Pruned(h1.placements, store)[i] != h1.placements[i];
    }
  }

  /** A pass deletes exactly the agents of the addon, and those that opted in, that neither name the
      sentinel nor an existing placement; when their annotation parses this is decided by the
      parsed references. */
  lemma OrphanIffParsed(a: Agent, ps: seq<Placement>)
    requires CleanPlacements(ps) && PlacementRefs(AnnotationOf(a)).Ok?
    ensures IsOrphan(a, ps) <==>
      && (IsOwnedByAddon(a) || Lookup(a.labels, PART_OF_LABEL) == ADDON_NAME)
      && forall r :: r in PlacementRefs(AnnotationOf(a)).value ==> r.name != DUMMY && r !in RefsIn(ps)
  {
    hide PlacementRefs, HasExistingRef;
    var refs: set<PlacementRef> := set i | 0 <= i < |ps| :: ps[i].ref;
    ExistingIffParsed(AnnotationOf(a), refs);
    forall text ensures text in PlacementTexts(ps) <==> text in Texts(refs) {
      if text in PlacementTexts(ps) {
        var i :| 0 <= i < |ps| && RefText(ps[i].ref) == text;
        assert ps[i].ref in refs;
      }
    }
    assert PlacementTexts(ps) == Texts(refs);
    forall r ensures r in refs <==> r in RefsIn(ps) {
      if r in refs {
        var i :| 0 <= i < |ps| && ps[i].ref == r;
        assert RefsIn(ps)[i] == r;
      }
    }
  }
}
