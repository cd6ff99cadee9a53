/** Passes that fail: when they do, told from the hub before the pass, and that they keep failing
    without changing anything more. With it convergence needs no assumption on the first pass. */
module PassFailures {
  import opened Config
  import opened Wrappers
  import opened Placements
  import opened AddonConfigs
  import opened AgentSpec
  import opened PlacementDefaults
  import opened HubReconcile
  import opened Convergence
  import opened PassConditions

  // ---------------------------------------------------------------- doing it again

  /** Processing an agent again changes nothing and fails if it failed. */
  lemma ProcessedOneAgain(a: Agent, env: Env, isUWL: bool)
    ensures var step := ProcessedOne(a, env, isUWL);
      var again := ProcessedOne(step.agent, env, isUWL);
      && again.agent == step.agent && again.failed == step.failed
      && Stepped(a, step.agent, env, isUWL) && (Settled(a) ==> Settled(step.agent))
  {
    hide Applied, PlacementRefs, SameIdentity, Settled, InScope;
    if InScope(a, env, isUWL) && Applied(a, env, isUWL).Ok? {
      AppliedFacts(a, env, isUWL);
      SameScope(a, Applied(a, env, isUWL).value, env, isUWL);
      AppliedSettled(a, env, isUWL);
    }
  }

  lemma {:induction false} ProcessedAgain(agents: seq<Agent>, env: Env, isUWL: bool)
    ensures var p := Processed(agents, env, isUWL);
      var again := Processed(p.agents, env, isUWL);
      && again.agents == p.agents && again.failed == p.failed
      && AllStepped(agents, p.agents, env, isUWL) && (AllSettled(agents) ==> AllSettled(p.agents))
  {
    hide Processed, ProcessedOne, Settled, Stepped, AllStepped, AllSettled;
    if agents == [] {
      NothingProcessed(env, isUWL);
      AllSteppedItself([], env, isUWL);
    } else {
      var init, a := agents[..|agents| - 1], agents[|agents| - 1];
      var before, step := Processed(init, env, isUWL), ProcessedOne(a, env, isUWL);
      var last := if before.failed then a else step.agent;
      ProcessedAgain(init, env, isUWL);
      ProcessedOneAgain(a, env, isUWL);
      SteppedItself(a, env, isUWL);
      assert agents == init + [a];
      ProcessedSnoc(init, a, env, isUWL);
      ProcessedSnoc(before.agents, last, env, isUWL);
      AllSteppedSnoc(init, before.agents, a, last, env, isUWL);
      AllSettledSnoc(init, a);
      AllSettledSnoc(before.agents, last);
    }
  }

  lemma NothingProcessed(env: Env, isUWL: bool)
    ensures Processed([], env, isUWL) == Progress([], [], false)
  {
  }

  lemma AllSteppedSnoc(xs: seq<Agent>, ys: seq<Agent>, x: Agent, y: Agent, env: Env, isUWL: bool)
    requires AllStepped(xs, ys, env, isUWL) && Stepped(x, y, env, isUWL)
    ensures AllStepped(xs + [x], ys + [y], env, isUWL)
  {
    hide Stepped;
  }

  lemma AllSettledSnoc(agents: seq<Agent>, a: Agent)
    ensures AllSettled(agents + [a]) <==> AllSettled(agents) && Settled(a)
  {
    hide Settled;
    assert (agents + [a])[|agents|] == a;
    assert forall i :: 0 <= i < |agents| ==> (agents + [a])[i] == agents[i];
  }

  lemma ProcessedSnoc(agents: seq<Agent>, a: Agent, env: Env, isUWL: bool)
    ensures var p, step := Processed(agents, env, isUWL), ProcessedOne(a, env, isUWL);
      && Processed(agents + [a], env, isUWL).agents == p.agents + [if p.failed then a else step.agent]
      && Processed(agents + [a], env, isUWL).failed == (p.failed || step.failed)
  {
    hide ProcessedOne;
    assert (agents + [a])[..|agents + [a]| - 1] == agents;
  }

  lemma SteppedItself(a: Agent, env: Env, isUWL: bool)
    ensures Stepped(a, a, env, isUWL)
  {
  }

  lemma AnchoredCreates(agents: seq<Agent>, env: Env, ps: seq<Placement>, isUWL: bool)
    requires HasAnchor(agents, env, FindPlacementNamespace(ps, GLOBAL), isUWL)
    ensures Created(agents, env, ps, isUWL) == Ok(agents)
  {
  }

  lemma ReconciledAgain(agents: seq<Agent>, env: Env, ps: seq<Placement>, isUWL: bool)
    requires CleanPlacements(ps)
    ensures var q := ReconciledAgents(agents, env, ps, isUWL);
      var again := ReconciledAgents(q.agents, env, ps, isUWL);
      && again.agents == q.agents && again.failed == q.failed
      && (AllSettled(agents) ==> AllSettled(q.agents)) && Untouched(agents, q.agents, env, !isUWL)
  {
    hide Created, Processed, HasAnchor, AllSettled, AllStepped, Untouched, CleanPlacements;
    if Created(agents, env, ps, isUWL).Err? {
      UntouchedItself(agents, env, !isUWL);
    } else {
      var created := Created(agents, env, ps, isUWL).value;
      var global := FindPlacementNamespace(ps, GLOBAL);
      CreatedHasAnchor(agents, env, ps, isUWL);
      CreatedShape(agents, env, ps, isUWL);
      AnchoredCreates(created, env, ps, isUWL);
      ProcessedAgain(created, env, isUWL);
      var agents' := Processed(created, env, isUWL).agents;
      SteppedAnchor(created, agents', env, global, isUWL);
      AnchoredCreates(agents', env, ps, isUWL);
      CreatedUntouched(agents, created, agents', env, isUWL);
      AllSteppedItself(created, env, isUWL);
      CreatedUntouched(agents, created, created, env, isUWL);
    }
  }

  lemma UntouchedItself(agents: seq<Agent>, env: Env, other: bool)
    ensures Untouched(agents, agents, env, other)
  {
  }

  lemma AllSteppedItself(agents: seq<Agent>, env: Env, isUWL: bool)
    ensures AllStepped(agents, agents, env, isUWL)
  {
  }

  lemma ComponentAgain(p: Progress, again: Progress, env: Env, ps: seq<Placement>, isUWL: bool)
    requires CleanPlacements(ps) && !p.failed && !again.failed && again.agents == Component(p, env, ps, isUWL).agents
    ensures Component(again, env, ps, isUWL).agents == again.agents
    ensures Component(again, env, ps, isUWL).failed == Component(p, env, ps, isUWL).failed
    ensures AllSettled(p.agents) ==> AllSettled(again.agents)
    ensures Untouched(p.agents, again.agents, env, !isUWL)
  {
    hide ReconciledAgents, ScrapeDefaults, AllSettled, Untouched, CleanPlacements;
    ReconciledAgain(p.agents, env, ps, isUWL);
  }

  lemma UntouchedReady(agents: seq<Agent>, agents': seq<Agent>, env: Env, ps: seq<Placement>, other: bool)
    requires Untouched(agents, agents', env, other)
    ensures Ready(agents, env, ps, other) ==> Ready(agents', env, ps, other)
  {
    hide Untouched, HasAnchor, AllStable, SomeWishes, ScrapeDefaults;
    UntouchedFacts(agents, agents', env, FindPlacementNamespace(ps, GLOBAL), other);
  }

  /** The metrics step leaves agents that it leaves alone the next time, and fails again if it failed. */
  lemma MetricsAgain(h: Hub, env: Env)
    requires CleanPlacements(h.placements)
    ensures var m := Metrics(h, env);
      var again := Metrics(Hub(m.agents, h.placements), env);
      again.agents == m.agents && again.failed == m.failed
  {
    hide Component, Ready, AllSettled, Untouched, RuleDefaults, CleanPlacements, ComponentWants;
    var ps := h.placements;
    var p0 := Progress(Migrated(h.agents), [], false);
    MigratedSettled(h.agents);
    var p1 := if env.platform then Component(p0, env, ps, false) else p0;
    var p2 := if env.userWorkloads then Component(p1, env, ps, true) else p1;
    if env.platform {
      ComponentAgain(p0, Progress(p1.agents, [], false), env, ps, false);
    }
    FailedSame(p1, env, ps, true);
    var q0 := Progress(p2.agents, [], false);
    var q1 := if env.platform then Component(q0, env, ps, false) else q0;
    FailedSame(q1, env, ps, true);
    if !p1.failed && env.userWorkloads {
      if env.platform {
        ComponentFacts(p0, env, ps, false);
        ComponentAgain(p1, q0, env, ps, true);
        UntouchedReady(p1.agents, p2.agents, env, ps, false);
        ReadyComponent(q0, env, ps, false);
      }
      ComponentAgain(p1, q1, env, ps, true);
    }
    assert Metrics(h, env).agents == p2.agents;
    SettledMigration(p2.agents);
  }

  lemma FailedSame(p: Progress, env: Env, ps: seq<Placement>, isUWL: bool)
    ensures p.failed ==> Component(p, env, ps, isUWL) == p
  {
  }

  /** A failed pass never recovers: the next one fails, too, and changes nothing. */
  lemma FailedPassStays(h: Hub, env: Env)
    requires CleanPlacements(h.placements)
    ensures !Pass(h, env).1 ==> Pass(Pass(h, env).0, env) == (Pass(h, env).0, false)
  {
    hide Metrics, CleanPlacements;
    MetricsAgain(h, env);
  }

  /** Convergence of every hub: after two passes nothing changes any more, and all passes end like the
      first one did. */
  lemma ConvergesAlways(h: Hub, env: Env)
    requires CleanPlacements(h.placements)
    ensures var h2 := Pass(Pass(h, env).0, env).0; Pass(h2, env) == (h2, Pass(h, env).1)
  {
    hide Pass, CleanPlacements;
    if Pass(h, env).1 {
      Convergence.Convergence(h, env);
    } else {
      FailedPassStays(h, env);
    }
  }

  lemma {:induction false} StaysAlways(h: Hub, env: Env, n: nat)
    requires CleanPlacements(h.placements) && n >= 2
    ensures After(h, env, n) == After(h, env, 2) && Pass(After(h, env, n), env).1 == Pass(h, env).1
  {
    hide Pass, CleanPlacements;
    ConvergesAlways(h, env);
    assert After(h, env, 2) == Pass(Pass(h, env).0, env).0 by {
      assert After(h, env, 1) == Pass(After(h, env, 0), env).0;
    }
    if n > 2 {
      StaysAlways(h, env, n - 1);
    }
  }

  // ---------------------------------------------------------------- when a pass fails

  /** Some agent's spec cannot be applied, or its annotation does not parse. */
  predicate AnyFails(agents: seq<Agent>, env: Env, isUWL: bool) {
    exists i :: 0 <= i < |agents| && ProcessedOne(agents[i], env, isUWL).failed
  }

  /** The default agent is missing, but another agent has its name. */
  predicate NameBlocked(agents: seq<Agent>, env: Env, ps: seq<Placement>, isUWL: bool) {
    var missing := MissingAgent(agents, env, ps, isUWL);
    missing.Some? && NameTaken(agents, missing.value.name)
  }

  /** What makes one collector's part of a pass fail. */
  predicate CollectorFails(agents: seq<Agent>, env: Env, ps: seq<Placement>, isUWL: bool) {
    || env.host == ""
    || ScrapeDefaults(env, RefsIn(ps), isUWL).Err?
    || NameBlocked(agents, env, ps, isUWL)
    || AnyFails(agents, env, isUWL)
  }

  lemma {:induction false} ProcessedFailsIff(agents: seq<Agent>, env: Env, isUWL: bool)
    ensures Processed(agents, env, isUWL).failed <==> AnyFails(agents, env, isUWL)
  {
    hide ProcessedOne;
    if agents != [] {
      var init := agents[..|agents| - 1];
      ProcessedFailsIff(init, env, isUWL);
      if i :| 0 <= i < |init| && ProcessedOne(init[i], env, isUWL).failed {
        assert ProcessedOne(agents[i], env, isUWL).failed;
      }
      if i :| 0 <= i < |agents| && ProcessedOne(agents[i], env, isUWL).failed {
        if i < |init| { assert ProcessedOne(init[i], env, isUWL).failed; }
      }
    }
  }

  lemma NewNeverFails(env: Env, isUWL: bool, name: string, ref: PlacementRef)
    requires Clean(ref)
    ensures !ProcessedOne(NewAgent(env, isUWL, name, ref), env, isUWL).failed
  {
    hide Built, Derivative, PlacementRefs, InScope;
    SingleRefRoundTrip(ref);
  }

  lemma MissingNeverFails(agents: seq<Agent>, env: Env, ps: seq<Placement>, isUWL: bool)
    requires CleanPlacements(ps) && MissingAgent(agents, env, ps, isUWL).Some?
    ensures !ProcessedOne(MissingAgent(agents, env, ps, isUWL).value, env, isUWL).failed
  {
    hide ProcessedOne, NewAgent, HasAnchor, GlobalReferenced;
    var global := FindPlacementNamespace(ps, GLOBAL);
    if global.None? || GlobalReferenced(agents, env, global, isUWL) {
      DummyClean();
      NewNeverFails(env, isUWL, DummyName(isUWL), PlacementRef(HUB_NS, DUMMY));
    } else {
      GlobalFound(ps);
      NewNeverFails(env, isUWL, DefaultGlobalName(isUWL), PlacementRef(global.value, GLOBAL));
    }
  }

  lemma AnyFailsSnoc(agents: seq<Agent>, a: Agent, env: Env, isUWL: bool)
    requires !ProcessedOne(a, env, isUWL).failed
    ensures AnyFails(agents + [a], env, isUWL) <==> AnyFails(agents, env, isUWL)
  {
    hide ProcessedOne;
    var all := agents + [a];
    if i :| 0 <= i < |agents| && ProcessedOne(agents[i], env, isUWL).failed {
      assert all[i] == agents[i];
    }
    if i :| 0 <= i < |all| && ProcessedOne(all[i], env, isUWL).failed {
      assert i < |agents| && all[i] == agents[i];
    }
  }

  lemma ComponentFailsIff(p: Progress, env: Env, ps: seq<Placement>, isUWL: bool)
    requires CleanPlacements(ps) && !p.failed
    ensures Component(p, env, ps, isUWL).failed <==> CollectorFails(p.agents, env, ps, isUWL)
  {
    hide MissingAgent, Processed, AnyFails, ScrapeDefaults, CleanPlacements, NameTaken, ProcessedOne;
    if MissingAgent(p.agents, env, ps, isUWL).Some? {
      MissingNeverFails(p.agents, env, ps, isUWL);
      AnyFailsSnoc(p.agents, MissingAgent(p.agents, env, ps, isUWL).value, env, isUWL);
    }
    if Created(p.agents, env, ps, isUWL).Ok? {
      ProcessedFailsIff(Created(p.agents, env, ps, isUWL).value, env, isUWL);
    }
  }

  // the other collector does not change whether this one fails

  /** Earlier agents keep their names; new ones have names of their own collector. */
  predicate NamesKept(agents: seq<Agent>, agents': seq<Agent>, isUWL: bool) {
    && |agents| <= |agents'|
    && (forall i :: 0 <= i < |agents| ==> agents'[i].name == agents[i].name)
    && (forall i :: |agents| <= i < |agents'| ==> agents'[i].name in {DummyName(isUWL), DefaultGlobalName(isUWL)})
  }

  lemma StartsApart(x: string, y: string)
    ensures AgentName(PLATFORM_APP, x) != AgentName(UWL_APP, y) && AgentName(PLATFORM_APP, x) + "-default" != AgentName(UWL_APP, y)
    ensures AgentName(PLATFORM_APP, x) != AgentName(UWL_APP, y) + "-default"
    ensures AgentName(PLATFORM_APP, x) + "-default" != AgentName(UWL_APP, y) + "-default"
  {
    var n := |"mcoa-default-"|;
    assert PLATFORM_APP[0] == 'p' && UWL_APP[0] == 'u';
    assert AgentName(PLATFORM_APP, x)[n] == 'p' && AgentName(UWL_APP, y)[n] == 'u';
    assert (AgentName(PLATFORM_APP, x) + "-default")[n] == 'p' && (AgentName(UWL_APP, y) + "-default")[n] == 'u';
  }

  lemma NamesApart(isUWL: bool)
    ensures {DummyName(isUWL), DefaultGlobalName(isUWL)} !! {DummyName(!isUWL), DefaultGlobalName(!isUWL)}
  {
    hide AgentName;
    StartsApart(DUMMY, DUMMY);
    StartsApart(DUMMY, GLOBAL);
    StartsApart(GLOBAL, DUMMY);
    StartsApart(GLOBAL, GLOBAL);
  }

  lemma MissingName(agents: seq<Agent>, env: Env, ps: seq<Placement>, isUWL: bool)
    requires MissingAgent(agents, env, ps, isUWL).Some?
    ensures MissingAgent(agents, env, ps, isUWL).value.name in {DummyName(isUWL), DefaultGlobalName(isUWL)}
  {
    hide AgentName;
  }

  lemma SteppedName(a: Agent, b: Agent, env: Env, isUWL: bool)
    requires Stepped(a, b, env, isUWL)
    ensures b.name == a.name
  {
    hide InScope;
  }

  lemma ReconciledNames(agents: seq<Agent>, env: Env, ps: seq<Placement>, isUWL: bool)
    ensures NamesKept(agents, ReconciledAgents(agents, env, ps, isUWL).agents, isUWL)
  {
    hide Processed, Stepped, DummyName, DefaultGlobalName, NameTaken, AllSettled, MissingAgent;
    if Created(agents, env, ps, isUWL).Ok? {
      var created := Created(agents, env, ps, isUWL).value;
      if MissingAgent(agents, env, ps, isUWL).Some? {
        MissingName(agents, env, ps, isUWL);
      }
      ProcessedAgain(created, env, isUWL);
      var agents' := Processed(created, env, isUWL).agents;
      forall i | 0 <= i < |created| ensures agents'[i].name == created[i].name {
        SteppedName(created[i], agents'[i], env, isUWL);
      }
    }
  }

  lemma OtherNameTaken(agents: seq<Agent>, agents': seq<Agent>, isUWL: bool, name: string)
    requires NamesKept(agents, agents', isUWL) && name in {DummyName(!isUWL), DefaultGlobalName(!isUWL)}
    ensures NameTaken(agents', name) <==> NameTaken(agents, name)
  {
    hide DummyName, DefaultGlobalName;
    NamesApart(isUWL);
    if i :| 0 <= i < |agents| && agents[i].name == name {
      assert agents'[i].name == name;
    }
    if i :| 0 <= i < |agents'| && agents'[i].name == name {
      assert i < |agents|;
    }
  }

  lemma OtherDecides(agents: seq<Agent>, agents': seq<Agent>, env: Env, ps: seq<Placement>, other: bool)
    requires Untouched(agents, agents', env, other)
    ensures MissingAgent(agents', env, ps, other) == MissingAgent(agents, env, ps, other)
    ensures AnyFails(agents', env, other) <==> AnyFails(agents, env, other)
  {
    hide InScope, TargetsGlobal, Targets, NewAgent, Applied, PlacementRefs;
    var global := FindPlacementNamespace(ps, GLOBAL);
    UntouchedTargets(agents, agents', env, global, other);
    UntouchedAnchor(agents, agents', env, global, other);
    if i :| 0 <= i < |agents| && ProcessedOne(agents[i], env, other).failed {
      assert agents'[i] == agents[i];
    }
    if i :| 0 <= i < |agents'| && ProcessedOne(agents'[i], env, other).failed {
      assert agents'[i] == agents[i];
    }
  }

  lemma UntouchedAnchor(agents: seq<Agent>, agents': seq<Agent>, env: Env, global: Option<string>, other: bool)
    requires Untouched(agents, agents', env, other)
    ensures HasAnchor(agents', env, global, other) <==> HasAnchor(agents, env, global, other)
  {
    hide InScope, IsAnchor;
    if i :| 0 <= i < |agents| && InScope(agents[i], env, other) && IsAnchor(agents[i], global, other) {
      assert agents'[i] == agents[i];
    }
    if i :| 0 <= i < |agents'| && InScope(agents'[i], env, other) && IsAnchor(agents'[i], global, other) {
      assert agents'[i] == agents[i];
    }
  }

  lemma OtherFails(agents: seq<Agent>, env: Env, ps: seq<Placement>, isUWL: bool)
    requires CleanPlacements(ps)
    ensures var agents' := ReconciledAgents(agents, env, ps, isUWL).agents;
      CollectorFails(agents', env, ps, !isUWL) <==> CollectorFails(agents, env, ps, !isUWL)
  {
    hide ReconciledAgents, MissingAgent, AnyFails, ScrapeDefaults, CleanPlacements, NameTaken, Untouched, NamesKept, AllSettled,
         DummyName, DefaultGlobalName;
    var agents' := ReconciledAgents(agents, env, ps, isUWL).agents;
    ReconciledAgain(agents, env, ps, isUWL);
    ReconciledNames(agents, env, ps, isUWL);
    OtherDecides(agents, agents', env, ps, !isUWL);
    if MissingAgent(agents, env, ps, !isUWL).Some? {
      MissingName(agents, env, ps, !isUWL);
      OtherNameTaken(agents, agents', isUWL, MissingAgent(agents, env, ps, !isUWL).value.name);
    }
  }

  /** When a pass fails, told from the hub before it: some enabled collector fails on the migrated
      agents, or a rule cannot be turned into a config. */
  lemma PassFailsIff(h: Hub, env: Env)
    requires CleanPlacements(h.placements)
    ensures !Pass(h, env).1 <==>
            || (env.platform && CollectorFails(Migrated(h.agents), env, h.placements, false))
            || (env.userWorkloads && CollectorFails(Migrated(h.agents), env, h.placements, true))
            || ((env.platform || env.userWorkloads) && RuleDefaults(env, RefsIn(h.placements)).Err?)
  {
    hide CollectorFails, CleanPlacements, RuleDefaults, ScrapeDefaults, ReconciledAgents, Surviving, Stored;
    var ps := h.placements;
    var p0 := Progress(Migrated(h.agents), [], false);
    var p1 := if env.platform then Component(p0, env, ps, false) else p0;
    if env.platform {
      ComponentFailsIff(p0, env, ps, false);
      OtherFails(p0.agents, env, ps, false);
    }
    if !p1.failed && env.userWorkloads {
      ComponentFailsIff(p1, env, ps, true);
    }
  }

  // ---------------------------------------------------------------- a hub that is stuck

  /** The default agent of the global placement, which has since moved to another namespace. */
  function MovedGlobalHub(env: Env): Hub {
    Hub([NewAgent(env, false, DefaultGlobalName(false), PlacementRef("old", GLOBAL))], [Placement(PlacementRef("set", GLOBAL), [])])
  }

  lemma OldGlobalClean()
    ensures Clean(PlacementRef("old", GLOBAL))
  {
    assert "old"[0] == 'o' && GLOBAL[|GLOBAL| - 1] == 'l';
  }

  lemma OldMisses(env: Env)
    ensures var a := MovedGlobalHub(env).agents[0];
      !Targets(AnnotationOf(a), "set", GLOBAL) && !Targets(AnnotationOf(a), HUB_NS, DUMMY)
      && PlacementRefs(AnnotationOf(a)) == Ok([PlacementRef("old", GLOBAL)])
  {
    hide Targets, PlacementRefs, Clean;
    var a, old_ := MovedGlobalHub(env).agents[0], PlacementRef("old", GLOBAL);
    OldGlobalClean();
    LateGlobalClean();
    DummyClean();
    SingleRefRoundTrip(old_);
    assert AnnotationOf(a) == RefText(old_);
    CleanProper(PlacementRef("set", GLOBAL));
    CleanProper(PlacementRef(HUB_NS, DUMMY));
    TargetsIffParsed(AnnotationOf(a), PlacementRef("set", GLOBAL));
    TargetsIffParsed(AnnotationOf(a), PlacementRef(HUB_NS, DUMMY));
    assert GLOBAL[0] != DUMMY[0];
  }

  lemma CleanProper(r: PlacementRef)
    requires Clean(r)
    ensures Proper(r)
  {
  }

  lemma MovedOrphan(env: Env)
    ensures IsOrphan(MovedGlobalHub(env).agents[0], MovedGlobalHub(env).placements)
  {
    hide IsOrphan, Targets, PlacementRefs, AnnotationOf, Clean;
    var a, ps := MovedGlobalHub(env).agents[0], MovedGlobalHub(env).placements;
    OldMisses(env);
    LateGlobalClean();
    assert a.owners[0] == AddonOwner(env);
    assert IsOwnedByAddon(a);
    assert RefsIn(ps) == [PlacementRef("set", GLOBAL)];
    assert "old"[0] != "set"[0] && GLOBAL[0] != DUMMY[0];
    OrphanIffParsed(a, ps);
  }

  lemma MovedBlocked(env: Env)
    ensures NameBlocked(MovedGlobalHub(env).agents, env, MovedGlobalHub(env).placements, false)
  {
    hide Targets, AnnotationOf, InScope, AgentName;
    var h := MovedGlobalHub(env);
    OldMisses(env);
    assert FindPlacementNamespace(h.placements, GLOBAL) == Some("set");
    assert !HasAnchor(h.agents, env, Some("set"), false);
    assert !GlobalReferenced(h.agents, env, Some("set"), false);
    assert h.agents[0].name == DefaultGlobalName(false);
  }

  /** Every pass over it fails because the name of the missing default agent is taken, although the
      agent that has the name is an orphan: orphans are deleted only after that. */
  lemma MovedGlobalStuck(env: Env, n: nat)
    requires env.platform
    ensures var h := MovedGlobalHub(env);
      IsOrphan(h.agents[0], h.placements) && !Pass(h, env).1 && !Pass(After(h, env, n), env).1
  {
    hide Pass, After, NameBlocked, IsOrphan, Clean, Settled, NewAgent, ScrapeDefaults, RuleDefaults, AnyFails;
    var h := MovedGlobalHub(env);
    MovedOrphan(env);
    MovedBlocked(env);
    LateGlobalClean();
    OldGlobalClean();
    assert CleanPlacements(h.placements);
    NewAgentFacts(env, false, DefaultGlobalName(false), PlacementRef("old", GLOBAL));
    SettledMigration(h.agents);
    PassFailsIff(h, env);
    StuckAfter(h, env, n);
  }

  lemma {:induction false} StuckAfter(h: Hub, env: Env, n: nat)
    requires CleanPlacements(h.placements)
    ensures !Pass(h, env).1 ==> !Pass(After(h, env, n), env).1
  {
    hide Pass, CleanPlacements;
    if n == 1 {
      assert After(h, env, 1) == Pass(After(h, env, 0), env).0;
      FailedPassStays(h, env);
    } else if n >= 2 {
      StaysAlways(h, env, n);
    }
  }
}
