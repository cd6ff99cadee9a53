/** Attaching configurations to the placements of the ClusterManagementAddOn and removing entries
    whose object is gone (internal/addon/common/clustermanagementaddon.go). */
module AddonConfigs {
  import opened Wrappers
  import opened Placements

  datatype AddonConfig = AddonConfig(group: string, resource: string, namespace: string, name: string)

  datatype Placement = Placement(ref: PlacementRef, configs: seq<AddonConfig>)

  datatype DefaultConfig = DefaultConfig(ref: PlacementRef, config: AddonConfig)

  /** A stored Kubernetes object. */
  datatype Object = Object(group: string, kind: string, namespace: string, name: string)

  const RHOBS := "monitoring.rhobs"
  const COREOS := "monitoring.coreos.com"
  const SCRAPE_CONFIG := "ScrapeConfig"
  const PROMETHEUS_RULE := "PrometheusRule"
  const PROMETHEUS_AGENT := "PrometheusAgent"

  function ResourceOf(kind: string): Option<string> {
    if kind == SCRAPE_CONFIG then Some("scrapeconfigs")
    else if kind == PROMETHEUS_RULE then Some("prometheusrules")
    else if kind == PROMETHEUS_AGENT then Some("prometheusagents")
    else None
  }

  function ObjectToAddonConfig(o: Object): Result<AddonConfig, string> {
    var resource := ResourceOf(o.kind);
    if resource.None? then Err("unsupported resource kind") else Ok(AddonConfig(o.group, resource.value, o.namespace, o.name))
  }

  /** The kind of object that the existence check looks up for a config; None when it does not
      recognize the config's group and resource. */
  function KindChecked(cfg: AddonConfig): Option<string> {
    if cfg.group == RHOBS && cfg.resource == "scrapeconfigs" then Some(SCRAPE_CONFIG)
    else if cfg.group == COREOS && cfg.resource == "scrapeconfigs" then Some(SCRAPE_CONFIG)
    else if cfg.group == RHOBS && cfg.resource == "prometheusrules" then Some(PROMETHEUS_RULE)
    else if cfg.group == COREOS && cfg.resource == "prometheusrules" then Some(PROMETHEUS_RULE)
    else if cfg.group == RHOBS && cfg.resource == "prometheusagents" then Some(PROMETHEUS_AGENT)
    else None
  }

  /** Unrecognized configs count as existing. */
  predicate Exists(store: set<Object>, cfg: AddonConfig) {
    var kind := KindChecked(cfg);
    kind.Some? ==> Object(cfg.group, kind.value, cfg.namespace, cfg.name) in store
  }

  /** The existence check looks up the very object a config was made from, for every object of a
      kind and group it recognizes. */
  lemma ConfigLiveIff(store: set<Object>, o: Object)
    requires ObjectToAddonConfig(o).Ok?
    ensures Exists(store, ObjectToAddonConfig(o).value) <==>
            o in store || (o.group != RHOBS && (o.group != COREOS || o.kind == PROMETHEUS_AGENT))
  {
  }

  // ---------------------------------------------------------------- what the operations compute

  /** The configs wanted for one placement, without duplicates, in first-occurrence order. */
  function Desired(defaults: seq<DefaultConfig>, ref: PlacementRef): seq<AddonConfig> {
    if defaults == [] then []
    else
      var before := Desired(defaults[..|defaults| - 1], ref);
      var last := defaults[|defaults| - 1];
      if last.ref == ref && last.config !in before then before + [last.config] else before
  }

  /** The elements of `xs` that are not in `ys`. */
  function Missing(xs: seq<AddonConfig>, ys: seq<AddonConfig>): seq<AddonConfig> {
    if xs == [] then []
    else Missing(xs[..|xs| - 1], ys) + if xs[|xs| - 1] in ys then [] else [xs[|xs| - 1]]
  }

  /** The configs whose object exists. */
  function Live(store: set<Object>, cfgs: seq<AddonConfig>): seq<AddonConfig> {
    if cfgs == [] then []
    else Live(store, cfgs[..|cfgs| - 1]) + if Exists(store, cfgs[|cfgs| - 1]) then [cfgs[|cfgs| - 1]] else []
  }

  function EnsuredOne(p: Placement, defaults: seq<DefaultConfig>): Placement {
    p.(configs := p.configs + Missing(Desired(defaults, p.ref), p.configs))
  }

  function Ensured(ps: seq<Placement>, defaults: seq<DefaultConfig>): (r: seq<Placement>)
    ensures |r| == |ps|
    ensures forall i :: 0 <= i < |ps| ==> r[i] == EnsuredOne(ps[i], defaults)
  {
    seq(|ps|, i requires 0 <= i < |ps| => EnsuredOne(ps[i], defaults))
  }

  function Pruned(ps: seq<Placement>, store: set<Object>): (r: seq<Placement>)
    ensures |r| == |ps|
    ensures forall i :: 0 <= i < |ps| ==> r[i] == ps[i].(configs := Live(store, ps[i].configs))
  {
    seq(|ps|, i requires 0 <= i < |ps| => ps[i].(configs := Live(store, ps[i].configs)))
  }

  /** The placements after EnsureAddonConfig. */
  function Reconciled(ps: seq<Placement>, defaults: seq<DefaultConfig>, store: set<Object>): seq<Placement> {
    Pruned(Ensured(ps, defaults), store)
  }

  // ---------------------------------------------------------------- the operations

  class ClusterManagementAddOn {
    var placements: seq<Placement>

    constructor (placements: seq<Placement>)
      ensures this.placements == placements
    {
      this.placements := placements;
    }

    method EnsureConfigs(defaults: seq<DefaultConfig>)
      modifies this
      ensures placements == Ensured(old(placements), defaults)
    {
      hide Desired, Missing;
      var grouped := GroupByPlacement(defaults);
      for i := 0 to |placements|
        invariant |placements| == |old(placements)|
        invariant forall k :: 0 <= k < i ==> placements[k] == EnsuredOne(old(placements)[k], defaults)
        invariant forall k :: i <= k < |placements| ==> placements[k] == old(placements)[k]
      {
        var placement := placements[i];
        var desired := if placement.ref in grouped then grouped[placement.ref] else [];
        var dedup := Deduplicated(desired, placement.configs);
        placements := placements[i := placement.(configs := placement.configs + dedup)];
      }
    }

    method RemoveStale(store: set<Object>)
      modifies this
      ensures placements == Pruned(old(placements), store)
    {
      hide Live;
      for i := 0 to |placements|
        invariant |placements| == |old(placements)|
        invariant forall k :: 0 <= k < i ==> placements[k] == old(placements)[k].(configs := Live(store, old(placements)[k].configs))
        invariant forall k :: i <= k < |placements| ==> placements[k] == old(placements)[k]
      {
        var filtered := Filtered(store, placements[i].configs);
        placements := placements[i := placements[i].(configs := filtered)];
      }
    }

    /** EnsureAddonConfig: add what is wanted, then drop what is gone. */
    method EnsureAddonConfig(defaults: seq<DefaultConfig>, store: set<Object>)
      modifies this
      ensures placements == Reconciled(old(placements), defaults, store)
    {
      EnsureConfigs(defaults);
      RemoveStale(store);
    }
  }

  /** The inner loop of EnsureConfigs: the wanted configs that are not there yet. */
  method Deduplicated(desired: seq<AddonConfig>, present: seq<AddonConfig>) returns (dedup: seq<AddonConfig>)
    ensures dedup == Missing(desired, present)
  {
    dedup := [];
    for k := 0 to |desired|
      invariant dedup == Missing(desired[..k], present)
    {
      assert desired[..k + 1][..k] == desired[..k];
      if desired[k] !in present {
        dedup := dedup + [desired[k]];
      }
    }
    assert desired[..|desired|] == desired;
  }

  /** The inner loop of RemoveStale. */
  method Filtered(store: set<Object>, configs: seq<AddonConfig>) returns (filtered: seq<AddonConfig>)
    ensures filtered == Live(store, configs)
  {
    hide Exists;
    filtered := [];
    for k := 0 to |configs|
      invariant filtered == Live(store, configs[..k])
    {
      assert configs[..k + 1][..k] == configs[..k];
      if Exists(store, configs[k]) {
        filtered := filtered + [configs[k]];
      }
    }
    assert configs[..|configs|] == configs;
  }

  function GroupOf(grouped: map<PlacementRef, seq<AddonConfig>>, ref: PlacementRef): seq<AddonConfig> {
    if ref in grouped then grouped[ref] else []
  }

  ghost predicate Groups(grouped: map<PlacementRef, seq<AddonConfig>>, defaults: seq<DefaultConfig>) {
    forall ref :: GroupOf(grouped, ref) == Desired(defaults, ref)
  }

  /** One more default config goes to the group of its placement, unless it is there. */
  lemma GroupsSnoc(grouped: map<PlacementRef, seq<AddonConfig>>, defaults: seq<DefaultConfig>, d: DefaultConfig)
    requires Groups(grouped, defaults)
    ensures var sofar := GroupOf(grouped, d.ref);
      Groups(if d.config in sofar then grouped else grouped[d.ref := sofar + [d.config]], defaults + [d])
  {
    var sofar := GroupOf(grouped, d.ref);
    var grouped' := if d.config in sofar then grouped else grouped[d.ref := sofar + [d.config]];
    assert (defaults + [d])[..|defaults + [d]| - 1] == defaults;
    forall ref ensures GroupOf(grouped', ref) == Desired(defaults + [d], ref) {
      assert GroupOf(grouped, ref) == Desired(defaults, ref);
    }
  }

  method GroupByPlacement(defaults: seq<DefaultConfig>) returns (grouped: map<PlacementRef, seq<AddonConfig>>)
    ensures forall ref :: (if ref in grouped then grouped[ref] else []) == Desired(defaults, ref)
  {
    grouped := map[];
    assert Groups(grouped, []);
    for i := 0 to |defaults|
      invariant Groups(grouped, defaults[..i])
    {
      hide Groups, Desired;
      var cfg := defaults[i];
      assert defaults[..i + 1] == defaults[..i] + [cfg];
      GroupsSnoc(grouped, defaults[..i], cfg);
      var sofar := GroupOf(grouped, cfg.ref);
      if cfg.config !in sofar {
        grouped := grouped[cfg.ref := sofar + [cfg.config]];
      }
    }
    assert defaults[..|defaults|] == defaults;
    forall ref ensures (if ref in grouped then grouped[ref] else []) == Desired(defaults, ref) {
      assert GroupOf(grouped, ref) == Desired(defaults, ref);
    }
  }

  // ---------------------------------------------------------------- small facts

  lemma {:induction false} DesiredHas(defaults: seq<DefaultConfig>, ref: PlacementRef, cfg: AddonConfig)
    ensures cfg in Desired(defaults, ref) <==> DefaultConfig(ref, cfg) in defaults
  {
    if defaults != [] {
      var init, last := defaults[..|defaults| - 1], defaults[|defaults| - 1];
      DesiredHas(init, ref, cfg);
      assert defaults == init + [last];
    }
  }

  lemma {:induction false} DesiredDistinct(defaults: seq<DefaultConfig>, ref: PlacementRef)
    ensures NoDuplicates(Desired(defaults, ref))
  {
    if defaults != [] {
      DesiredDistinct(defaults[..|defaults| - 1], ref);
    }
  }

  lemma {:induction false} MissingHas(xs: seq<AddonConfig>, ys: seq<AddonConfig>, cfg: AddonConfig)
    ensures cfg in Missing(xs, ys) <==> cfg in xs && cfg !in ys
  {
    if xs != [] {
      MissingHas(xs[..|xs| - 1], ys, cfg);
      assert xs == xs[..|xs| - 1] + [xs[|xs| - 1]];
    }
  }

  lemma {:induction false} MissingDistinct(xs: seq<AddonConfig>, ys: seq<AddonConfig>)
    requires NoDuplicates(xs)
    ensures NoDuplicates(Missing(xs, ys))
  {
    if xs != [] {
      var init, last := xs[..|xs| - 1], xs[|xs| - 1];
      MissingDistinct(init, ys);
      MissingHas(init, ys, last);
      assert last !in init;
    }
  }

  lemma {:induction false} LiveHas(store: set<Object>, cfgs: seq<AddonConfig>, cfg: AddonConfig)
    ensures cfg in Live(store, cfgs) <==> cfg in cfgs && Exists(store, cfg)
  {
    if cfgs != [] {
      LiveHas(store, cfgs[..|cfgs| - 1], cfg);
      assert cfgs == cfgs[..|cfgs| - 1] + [cfgs[|cfgs| - 1]];
    }
  }

  lemma {:induction false} LiveConcat(store: set<Object>, xs: seq<AddonConfig>, ys: seq<AddonConfig>)
    ensures Live(store, xs + ys) == Live(store, xs) + Live(store, ys)
  {
    if ys == [] {
      assert xs + ys == xs;
    } else {
      var init := ys[..|ys| - 1];
      assert (xs + ys)[..|xs + ys| - 1] == xs + init;
      LiveConcat(store, xs, init);
    }
  }

  lemma {:induction false} LiveDistinct(store: set<Object>, cfgs: seq<AddonConfig>)
    requires NoDuplicates(cfgs)
    ensures NoDuplicates(Live(store, cfgs))
  {
    if cfgs != [] {
      var init, last := cfgs[..|cfgs| - 1], cfgs[|cfgs| - 1];
      LiveDistinct(store, init);
      LiveHas(store, init, last);
      assert last !in init;
    }
  }

  lemma {:induction false} LiveAll(store: set<Object>, cfgs: seq<AddonConfig>)
    requires forall cfg :: cfg in cfgs ==> Exists(store, cfg)
    ensures Live(store, cfgs) == cfgs
  {
    if cfgs != [] {
      var init, last := cfgs[..|cfgs| - 1], cfgs[|cfgs| - 1];
      assert cfgs == init + [last];
      LiveAll(store, init);
    }
  }

  lemma {:induction false} LiveNone(store: set<Object>, cfgs: seq<AddonConfig>)
    requires forall cfg :: cfg in cfgs ==> !Exists(store, cfg)
    ensures Live(store, cfgs) == []
  {
    if cfgs != [] {
      var init, last := cfgs[..|cfgs| - 1], cfgs[|cfgs| - 1];
      assert cfgs == init + [last];
      LiveNone(store, init);
    }
  }

  /** Filtering twice is filtering once with the smaller store. */
  lemma {:induction false} LiveTwice(store: set<Object>, smaller: set<Object>, cfgs: seq<AddonConfig>)
    requires smaller <= store
    ensures Live(smaller, Live(store, cfgs)) == Live(smaller, cfgs)
  {
    if cfgs != [] {
      var init, last := cfgs[..|cfgs| - 1], cfgs[|cfgs| - 1];
      LiveTwice(store, smaller, init);
      var head := Live(store, init);
      if Exists(store, last) {
        LiveConcat(smaller, head, [last]);
        assert [last][..0] == [];
        assert Live(smaller, [last][..0]) == [];
      } else {
        assert Live(store, cfgs) == head;
        assert Live(smaller, cfgs) == Live(smaller, init);
      }
    }
  }

  // ---------------------------------------------------------------- attachment

  /** What happens to one placement: surviving old entries stay in front, in their order; every
      live wanted config is attached; nothing else is; no entry is added twice; a placement for
      which nothing is wanted gains nothing. */
  lemma Attachment(p: Placement, defaults: seq<DefaultConfig>, store: set<Object>)
    ensures var r := Live(store, EnsuredOne(p, defaults).configs);
      && Live(store, p.configs) <= r
      && (forall cfg :: cfg in r <==> Exists(store, cfg) && (cfg in p.configs || DefaultConfig(p.ref, cfg) in defaults))
      && (forall k :: |Live(store, p.configs)| <= k < |r| ==> r[k] !in p.configs)
      && NoDuplicates(r[|Live(store, p.configs)|..])
      && (NoDuplicates(p.configs) ==> NoDuplicates(r))
      && ((forall cfg :: DefaultConfig(p.ref, cfg) !in defaults) ==> r == Live(store, p.configs))
  {
    var desired := Desired(defaults, p.ref);
    var added := Missing(desired, p.configs);
    var kept, gained := Live(store, p.configs), Live(store, added);
    var r := Live(store, EnsuredOne(p, defaults).configs);
    LiveConcat(store, p.configs, added);
    assert r == kept + gained;
    forall cfg
      ensures cfg in kept <==> cfg in p.configs && Exists(store, cfg)
      ensures cfg in gained <==> DefaultConfig(p.ref, cfg) in defaults && cfg !in p.configs && Exists(store, cfg)
    {
      LiveHas(store, p.configs, cfg);
      LiveHas(store, added, cfg);
      MissingHas(desired, p.configs, cfg);
      DesiredHas(defaults, p.ref, cfg);
    }
    DesiredDistinct(defaults, p.ref);
    MissingDistinct(desired, p.configs);
    LiveDistinct(store, added);
    assert r[|kept|..] == gained;
    forall k | |kept| <= k < |r| ensures r[k] !in p.configs {
      assert r[k] == gained[k - |kept|] && r[k] in gained;
    }
    if NoDuplicates(p.configs) {
      LiveDistinct(store, p.configs);
      forall i, j | 0 <= i < j < |r| ensures r[i] != r[j] {
        if j >= |kept| && i < |kept| {
          assert r[i] in kept && r[j] in gained;
        }
      }
    }
    if forall cfg :: DefaultConfig(p.ref, cfg) !in defaults {
      if gained != [] { assert gained[0] in gained; }
    }
  }

  lemma {:induction false} DesiredFirst(defaults: seq<DefaultConfig>, n: nat, ref: PlacementRef)
    requires n <= |defaults|
    ensures Desired(defaults[..n], ref) <= Desired(defaults, ref)
    decreases |defaults|
  {
    if n == |defaults| {
      assert defaults[..n] == defaults;
    } else {
      var init := defaults[..|defaults| - 1];
      assert init[..n] == defaults[..n];
      DesiredFirst(init, n, ref);
    }
  }

  lemma {:induction false} MissingConcat(xs: seq<AddonConfig>, ys: seq<AddonConfig>, zs: seq<AddonConfig>)
    ensures Missing(xs + ys, zs) == Missing(xs, zs) + Missing(ys, zs)
  {
    if ys == [] {
      assert xs + ys == xs;
    } else {
      var init := ys[..|ys| - 1];
      assert (xs + ys)[..|xs + ys| - 1] == xs + init;
      MissingConcat(xs, init, zs);
    }
  }

  /** What is wanted first is attached first: with further wishes a placement gets further entries
      behind the others. */
  lemma AddedInOrder(p: Placement, defaults: seq<DefaultConfig>, n: nat)
    requires n <= |defaults|
    ensures p.configs <= EnsuredOne(p, defaults[..n]).configs <= EnsuredOne(p, defaults).configs
  {
    var some, all := Desired(defaults[..n], p.ref), Desired(defaults, p.ref);
    DesiredFirst(defaults, n, p.ref);
    assert all == some + all[|some|..];
    MissingConcat(some, all[|some|..], p.configs);
  }

  /** Reconciling again, with the same wishes or fewer and with objects deleted or not since then,
      only removes the entries of deleted objects. */
  lemma ReconcileAgain(ps: seq<Placement>, defaults: seq<DefaultConfig>, store: set<Object>,
                       defaults': seq<DefaultConfig>, store': set<Object>)
    requires store' <= store
    requires forall i, cfg :: 0 <= i < |ps| && DefaultConfig(ps[i].ref, cfg) in defaults' ==> DefaultConfig(ps[i].ref, cfg) in defaults
    ensures Reconciled(Reconciled(ps, defaults, store), defaults', store') == Pruned(Reconciled(ps, defaults, store), store')
  {
    var once := Reconciled(ps, defaults, store);
    var twice := Reconciled(once, defaults', store');
    forall i | 0 <= i < |ps| ensures twice[i] == Pruned(once, store')[i] {
      var p := once[i];
      var added := Missing(Desired(defaults', p.ref), p.configs);
      LiveConcat(store', p.configs, added);
      Attachment(ps[i], defaults, store);
      forall cfg | cfg in added ensures !Exists(store', cfg) {
        MissingHas(Desired(defaults', p.ref), p.configs, cfg);
        DesiredHas(defaults', p.ref, cfg);
      }
      LiveNone(store', added);
    }
  }

  /** Idempotence: with the same wishes and the same objects the second time changes nothing. */
  lemma ReconcileIdempotent(ps: seq<Placement>, defaults: seq<DefaultConfig>, store: set<Object>)
    ensures Reconciled(Reconciled(ps, defaults, store), defaults, store) == Reconciled(ps, defaults, store)
  {
    var once := Reconciled(ps, defaults, store);
    ReconcileAgain(ps, defaults, store, defaults, store);
    forall i | 0 <= i < |once| ensures Pruned(once, store)[i] == once[i] {
      LiveTwice(store, store, Ensured(ps, defaults)[i].configs);
    }
  }
}
