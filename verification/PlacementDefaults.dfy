/** Which scrape configs and rules go to which placements (internal/metrics/resource/resource.go):
    those of the controller of the ClusterManagementAddOn go to all placements, those of users to the
    placements in their annotation. */
module PlacementDefaults {
  import opened Config
  import opened Wrappers
  import opened Placements
  import opened AddonConfigs

  const PLACEMENTS_KEY := "observability.open-cluster-management.io/placements"
  const PART_OF_LABEL := "app.kubernetes.io/part-of"

  datatype OwnerRef = OwnerRef(group: string, kind: string, name: string, uid: string, controller: bool)

  /** A ScrapeConfig or a PrometheusRule in the addon's namespace on the hub. */
  datatype ConfigObject = ConfigObject(
    obj: Object, labels: map<string, string>, annotations: map<string, string>, owners: seq<OwnerRef>)

  function Lookup(m: map<string, string>, key: string): string {
    if key in m then m[key] else ""
  }

  predicate HasControllerUID(owners: seq<OwnerRef>, uid: string) {
    exists i :: 0 <= i < |owners| && owners[i].controller && owners[i].uid == uid
  }

  /** The uid of the first controller of the ClusterManagementAddOn. */
  function McoUID(owners: seq<OwnerRef>): string {
    if owners == [] then "" else if owners[0].controller then owners[0].uid else McoUID(owners[1..])
  }

  // ---------------------------------------------------------------- what the operations compute

  predicate IsSelected(o: ConfigObject, components: set<string>, uid: string) {
    Lookup(o.labels, COMPONENT_LABEL) in components
    && (HasControllerUID(o.owners, uid) || Lookup(o.labels, PART_OF_LABEL) == ADDON_NAME)
  }

  /** The selected objects that the controller owns, or those that it does not. */
  function Selected(objects: seq<ConfigObject>, components: set<string>, uid: string, managed: bool): seq<ConfigObject> {
    if objects == [] then []
    else
      var last := objects[|objects| - 1];
      Selected(objects[..|objects| - 1], components, uid, managed) +
        if IsSelected(last, components, uid) && HasControllerUID(last.owners, uid) == managed then [last] else []
  }

  function ConfigsOf(objects: seq<ConfigObject>): Result<seq<AddonConfig>, string> {
    if objects == [] then Ok([])
    else
      var before :- ConfigsOf(objects[..|objects| - 1]);
      var cfg :- ObjectToAddonConfig(objects[|objects| - 1].obj);
      Ok(before + [cfg])
  }

  function ForRefs(refs: seq<PlacementRef>, cfg: AddonConfig): (r: seq<DefaultConfig>)
    ensures |r| == |refs|
    ensures forall i :: 0 <= i < |refs| ==> r[i] == DefaultConfig(refs[i], cfg)
  {
    seq(|refs|, i requires 0 <= i < |refs| => DefaultConfig(refs[i], cfg))
  }

  function ForConfigs(ref: PlacementRef, cfgs: seq<AddonConfig>): (r: seq<DefaultConfig>)
    ensures |r| == |cfgs|
    ensures forall i :: 0 <= i < |cfgs| ==> r[i] == DefaultConfig(ref, cfgs[i])
  {
    seq(|cfgs|, i requires 0 <= i < |cfgs| => DefaultConfig(ref, cfgs[i]))
  }

  function AllPlacements(refs: seq<PlacementRef>, cfgs: seq<AddonConfig>): seq<DefaultConfig> {
    if refs == [] then []
    else AllPlacements(refs[..|refs| - 1], cfgs) + ForConfigs(refs[|refs| - 1], cfgs)
  }

  function UserDefault(o: ConfigObject): Result<seq<DefaultConfig>, string> {
    var refs :- PlacementRefs(Lookup(o.annotations, PLACEMENTS_KEY));
    var cfg :- ObjectToAddonConfig(o.obj);
    Ok(ForRefs(refs, cfg))
  }

  function UserDefaults(objects: seq<ConfigObject>): Result<seq<DefaultConfig>, string> {
    if objects == [] then Ok([])
    else
      var before :- UserDefaults(objects[..|objects| - 1]);
      var more :- UserDefault(objects[|objects| - 1]);
      Ok(before + more)
  }

  function ObjectDefaults(objects: seq<ConfigObject>, components: set<string>, uid: string, refs: seq<PlacementRef>)
    : Result<seq<DefaultConfig>, string>
  {
    var managed :- ConfigsOf(Selected(objects, components, uid, true));
    var user :- UserDefaults(Selected(objects, components, uid, false));
    Ok(AllPlacements(refs, managed) + user)
  }

  // ---------------------------------------------------------------- the operations

  method FindMcoUID(owners: seq<OwnerRef>) returns (uid: string)
    ensures uid == McoUID(owners)
  {
    for i := 0 to |owners|
      invariant McoUID(owners) == McoUID(owners[i..])
    {
      if owners[i].controller {
        return owners[i].uid;
      }
      assert owners[i..][1..] == owners[i + 1..];
    }
    return "";
  }

  /** The loop over the listed objects: skips those that are nobody's business and separates the
      controller's from the users'. */
  method Separate(objects: seq<ConfigObject>, components: set<string>, uid: string)
    returns (managed: seq<ConfigObject>, user: seq<ConfigObject>)
    ensures managed == Selected(objects, components, uid, true) && user == Selected(objects, components, uid, false)
  {
    managed, user := [], [];
    for i := 0 to |objects|
      invariant managed == Selected(objects[..i], components, uid, true)
      invariant user == Selected(objects[..i], components, uid, false)
    {
      assert objects[..i + 1][..i] == objects[..i];
      var o := objects[i];
      if IsSelected(o, components, uid) {
        if HasControllerUID(o.owners, uid) {
          managed := managed + [o];
        } else {
          user := user + [o];
        }
      }
    }
    assert objects[..|objects|] == objects;
  }

  method GenerateConfigsForAllPlacements(objects: seq<ConfigObject>, refs: seq<PlacementRef>)
    returns (res: Result<seq<DefaultConfig>, string>)
    ensures res.Ok? <==> ConfigsOf(objects).Ok?
    ensures res == if ConfigsOf(objects).Ok? then Ok(AllPlacements(refs, ConfigsOf(objects).value)) else Err(ConfigsOf(objects).error)
  {
    var addonConfigs: seq<AddonConfig> := [];
    for i := 0 to |objects|
      invariant ConfigsOf(objects[..i]) == Ok(addonConfigs)
    {
      assert objects[..i + 1][..i] == objects[..i];
      var cfg := ObjectToAddonConfig(objects[i].obj);
      if cfg.Err? {
        ConfigsStopAtError(objects, i);
        return Err(cfg.error);
      }
      addonConfigs := addonConfigs + [cfg.value];
    }
    assert objects[..|objects|] == objects;
    var defaultConfigs: seq<DefaultConfig> := [];
    for i := 0 to |refs|
      invariant defaultConfigs == AllPlacements(refs[..i], addonConfigs)
    {
      assert refs[..i + 1][..i] == refs[..i];
      var sofar := defaultConfigs;
      for k := 0 to |addonConfigs|
        invariant defaultConfigs == sofar + ForConfigs(refs[i], addonConfigs)[..k]
      {
        defaultConfigs := defaultConfigs + [DefaultConfig(refs[i], addonConfigs[k])];
      }
    }
    assert refs[..|refs|] == refs;
    return Ok(defaultConfigs);
  }

  lemma {:induction false} ConfigsStopAtError(objects: seq<ConfigObject>, i: nat)
    requires i < |objects| && ConfigsOf(objects[..i]).Ok? && ObjectToAddonConfig(objects[i].obj).Err?
    ensures ConfigsOf(objects) == Err(ObjectToAddonConfig(objects[i].obj).error)
    decreases |objects|
  {
    if i < |objects| - 1 {
      var init := objects[..|objects| - 1];
      assert init[..i] == objects[..i];
      ConfigsStopAtError(init, i);
    }
  }

  lemma {:induction false} UserStopsAtError(objects: seq<ConfigObject>, i: nat)
    requires i < |objects| && UserDefaults(objects[..i]).Ok? && UserDefault(objects[i]).Err?
    ensures UserDefaults(objects) == Err(UserDefault(objects[i]).error)
    decreases |objects|
  {
    if i < |objects| - 1 {
      var init := objects[..|objects| - 1];
      assert init[..i] == objects[..i];
      UserStopsAtError(init, i);
    }
  }

  /** The defaults for the listed objects: the controller's first, for all placements, then the users'. */
  method CollectDefaults(objects: seq<ConfigObject>, components: set<string>, uid: string, refs: seq<PlacementRef>)
    returns (res: Result<seq<DefaultConfig>, string>)
    ensures res == ObjectDefaults(objects, components, uid, refs)
  {
    hide Selected, ConfigsOf, AllPlacements, PlacementRefs, ObjectToAddonConfig;
    var managed, user := Separate(objects, components, uid);
    res := GenerateConfigsForAllPlacements(managed, refs);
    if res.Err? {
      return;
    }
    var configs := res.value;
    for i := 0 to |user|
      invariant UserDefaults(user[..i]).Ok? && configs == res.value + UserDefaults(user[..i]).value
    {
      assert user[..i + 1][..i] == user[..i];
      var placementRefs := PlacementRefs(Lookup(user[i].annotations, PLACEMENTS_KEY));
      if placementRefs.Err? {
        UserStopsAtError(user, i);
        return Err(placementRefs.error);
      }
      var cfg := ObjectToAddonConfig(user[i].obj);
      if cfg.Err? {
        UserStopsAtError(user, i);
        return Err(cfg.error);
      }
      for k := 0 to |placementRefs.value|
        invariant configs == res.value + UserDefaults(user[..i]).value + ForRefs(placementRefs.value, cfg.value)[..k]
      {
        configs := configs + [DefaultConfig(placementRefs.value[k], cfg.value)];
      }
    }
    assert user[..|user|] == user;
    return Ok(configs);
  }

  // ---------------------------------------------------------------- who is wanted where

  /** The uid is that of the first owner that is a controller. */
  ghost predicate Controls(owners: seq<OwnerRef>, uid: string) {
    exists j :: 0 <= j < |owners| && owners[j].controller && owners[j].uid == uid && forall i :: 0 <= i < j ==> !owners[i].controller
  }

  lemma {:induction false} McoUIDControls(owners: seq<OwnerRef>, uid: string)
    requires uid != ""
    ensures McoUID(owners) == uid <==> Controls(owners, uid)
  {
    if owners != [] && !owners[0].controller {
      McoUIDControls(owners[1..], uid);
      if j :| 0 <= j < |owners| && owners[j].controller && owners[j].uid == uid && forall i :: 0 <= i < j ==> !owners[i].controller {
        assert owners[1..][j - 1] == owners[j];
      }
      var rest := owners[1..];
      if j :| 0 <= j < |rest| && rest[j].controller && rest[j].uid == uid && forall i :: 0 <= i < j ==> !rest[i].controller {
        assert owners[j + 1] == owners[1..][j];
        forall i | 0 <= i < j + 1 ensures !owners[i].controller {
          if i > 0 { assert owners[i] == owners[1..][i - 1]; }
        }
      }
    } else if owners != [] {
      assert owners[0].controller;
    }
  }

  /** The config names the object by its group, the resource of its kind, namespace and name. */
  predicate NamesObject(cfg: AddonConfig, o: Object) {
    && cfg.group == o.group && cfg.namespace == o.namespace && cfg.name == o.name
    && (|| (o.kind == "ScrapeConfig" && cfg.resource == "scrapeconfigs")
        || (o.kind == "PrometheusRule" && cfg.resource == "prometheusrules")
        || (o.kind == "PrometheusAgent" && cfg.resource == "prometheusagents"))
  }

  lemma ConfigNamesObject(o: Object, cfg: AddonConfig)
    ensures ObjectToAddonConfig(o) == Ok(cfg) <==> NamesObject(cfg, o)
    ensures ObjectToAddonConfig(o).Err? <==> o.kind !in {"ScrapeConfig", "PrometheusRule", "PrometheusAgent"}
  {
  }

  /** The object wants its config at the placement: the controller's object at every placement, a
      user's, which has the part-of label, at those its annotation names. */
  ghost predicate ObjectWants(o: ConfigObject, components: set<string>, uid: string, refs: seq<PlacementRef>, d: DefaultConfig) {
    && Lookup(o.labels, COMPONENT_LABEL) in components
    && NamesObject(d.config, o.obj)
    && if HasControllerUID(o.owners, uid) then d.ref in refs
       else Lookup(o.labels, PART_OF_LABEL) == ADDON_NAME
            && PlacementRefs(Lookup(o.annotations, PLACEMENTS_KEY)).Ok?
            && d.ref in PlacementRefs(Lookup(o.annotations, PLACEMENTS_KEY)).value
  }

  /** The object is of no kind that can be attached, or it is a user's and its annotation is malformed. */
  ghost predicate ObjectFails(o: ConfigObject, components: set<string>, uid: string) {
    && Lookup(o.labels, COMPONENT_LABEL) in components
    && (HasControllerUID(o.owners, uid) || Lookup(o.labels, PART_OF_LABEL) == ADDON_NAME)
    && (|| o.obj.kind !in {"ScrapeConfig", "PrometheusRule", "PrometheusAgent"}
        || (!HasControllerUID(o.owners, uid) && PlacementRefs(Lookup(o.annotations, PLACEMENTS_KEY)).Err?))
  }

  lemma {:induction false} SelectedHas(objects: seq<ConfigObject>, components: set<string>, uid: string, managed: bool, o: ConfigObject)
    ensures o in Selected(objects, components, uid, managed) <==>
            o in objects && IsSelected(o, components, uid) && HasControllerUID(o.owners, uid) == managed
  {
    hide IsSelected, HasControllerUID;
    if objects != [] {
      SelectedHas(objects[..|objects| - 1], components, uid, managed, o);
      assert objects == objects[..|objects| - 1] + [objects[|objects| - 1]];
    }
  }

  lemma {:induction false} ConfigsHas(objects: seq<ConfigObject>, cfg: AddonConfig)
    ensures ConfigsOf(objects).Ok? <==> forall o :: o in objects ==> ObjectToAddonConfig(o.obj).Ok?
    ensures ConfigsOf(objects).Ok? ==>
              (cfg in ConfigsOf(objects).value <==> exists o :: o in objects && ObjectToAddonConfig(o.obj) == Ok(cfg))
  {
    hide ObjectToAddonConfig;
    if objects != [] {
      ConfigsHas(objects[..|objects| - 1], cfg);
      assert objects == objects[..|objects| - 1] + [objects[|objects| - 1]];
    }
  }

  lemma {:induction false} AllPlacementsHas(refs: seq<PlacementRef>, cfgs: seq<AddonConfig>, d: DefaultConfig)
    ensures d in AllPlacements(refs, cfgs) <==> d.ref in refs && d.config in cfgs
  {
    if refs != [] {
      AllPlacementsHas(refs[..|refs| - 1], cfgs, d);
      assert refs == refs[..|refs| - 1] + [refs[|refs| - 1]];
      var ref := refs[|refs| - 1];
      if d.ref == ref && d.config in cfgs {
        var i :| 0 <= i < |cfgs| && cfgs[i] == d.config;
        assert ForConfigs(ref, cfgs)[i] == d;
      }
    }
  }

  lemma ForRefsHas(refs: seq<PlacementRef>, cfg: AddonConfig, d: DefaultConfig)
    ensures d in ForRefs(refs, cfg) <==> d.ref in refs && d.config == cfg
  {
    if d.ref in refs && d.config == cfg {
      var i :| 0 <= i < |refs| && refs[i] == d.ref;
      assert ForRefs(refs, cfg)[i] == d;
    }
  }

  lemma {:induction false} UserDefaultsHas(objects: seq<ConfigObject>, d: DefaultConfig)
    ensures UserDefaults(objects).Ok? <==> forall o :: o in objects ==> UserDefault(o).Ok?
    ensures UserDefaults(objects).Ok? ==>
              (d in UserDefaults(objects).value <==> exists o :: o in objects && UserDefault(o).Ok? && d in UserDefault(o).value)
  {
    hide UserDefault;
    if objects != [] {
      UserDefaultsHas(objects[..|objects| - 1], d);
      assert objects == objects[..|objects| - 1] + [objects[|objects| - 1]];
    }
  }

  lemma UserDefaultIs(o: ConfigObject, d: DefaultConfig)
    ensures UserDefault(o).Err? <==>
            PlacementRefs(Lookup(o.annotations, PLACEMENTS_KEY)).Err? || o.obj.kind !in {"ScrapeConfig", "PrometheusRule", "PrometheusAgent"}
    ensures UserDefault(o).Ok? ==> (d in UserDefault(o).value <==>
            d.ref in PlacementRefs(Lookup(o.annotations, PLACEMENTS_KEY)).value && NamesObject(d.config, o.obj))
  {
    hide PlacementRefs, NamesObject, ObjectToAddonConfig;
    ConfigNamesObject(o.obj, d.config);
    if UserDefault(o).Ok? {
      ForRefsHas(PlacementRefs(Lookup(o.annotations, PLACEMENTS_KEY)).value, ObjectToAddonConfig(o.obj).value, d);
    }
  }

  /** Collecting the defaults fails exactly if some object does. */
  lemma DefaultsFailIff(objects: seq<ConfigObject>, components: set<string>, uid: string, refs: seq<PlacementRef>)
    ensures ObjectDefaults(objects, components, uid, refs).Err? <==> exists o :: o in objects && ObjectFails(o, components, uid)
  {
    hide Selected, ConfigsOf, UserDefaults, UserDefault, PlacementRefs, HasControllerUID, ObjectToAddonConfig, AllPlacements;
    var managed, user := Selected(objects, components, uid, true), Selected(objects, components, uid, false);
    var cfg: AddonConfig := AddonConfig("", "", "", "");
    var d := DefaultConfig(PlacementRef("", ""), cfg);
    ConfigsHas(managed, cfg);
    UserDefaultsHas(user, d);
    forall o
      ensures o in managed <==> o in objects && IsSelected(o, components, uid) && HasControllerUID(o.owners, uid)
      ensures o in user <==> o in objects && IsSelected(o, components, uid) && !HasControllerUID(o.owners, uid)
      ensures ObjectToAddonConfig(o.obj).Err? <==> o.obj.kind !in {"ScrapeConfig", "PrometheusRule", "PrometheusAgent"}
      ensures UserDefault(o).Err? <==>
              PlacementRefs(Lookup(o.annotations, PLACEMENTS_KEY)).Err? || o.obj.kind !in {"ScrapeConfig", "PrometheusRule", "PrometheusAgent"}
    {
      SelectedHas(objects, components, uid, true, o);
      SelectedHas(objects, components, uid, false, o);
      ConfigNamesObject(o.obj, cfg);
      UserDefaultIs(o, d);
    }
  }

  /** A config is wanted at a placement exactly if some listed object wants it there. */
  lemma DefaultsHasIff(objects: seq<ConfigObject>, components: set<string>, uid: string, refs: seq<PlacementRef>, d: DefaultConfig)
    requires ObjectDefaults(objects, components, uid, refs).Ok?
    ensures d in ObjectDefaults(objects, components, uid, refs).value <==>
            exists o :: o in objects && ObjectWants(o, components, uid, refs, d)
  {
    hide Selected, ConfigsOf, UserDefaults, UserDefault, PlacementRefs, HasControllerUID, ObjectToAddonConfig, AllPlacements, NamesObject;
    var managed, user := Selected(objects, components, uid, true), Selected(objects, components, uid, false);
    ConfigsHas(managed, d.config);
    UserDefaultsHas(user, d);
    AllPlacementsHas(refs, ConfigsOf(managed).value, d);
    forall o
      ensures o in managed <==> o in objects && IsSelected(o, components, uid) && HasControllerUID(o.owners, uid)
      ensures o in user <==> o in objects && IsSelected(o, components, uid) && !HasControllerUID(o.owners, uid)
      ensures ObjectToAddonConfig(o.obj) == Ok(d.config) <==> NamesObject(d.config, o.obj)
      ensures UserDefault(o).Ok? ==> PlacementRefs(Lookup(o.annotations, PLACEMENTS_KEY)).Ok?
      ensures UserDefault(o).Ok? ==> (d in UserDefault(o).value <==>
              d.ref in PlacementRefs(Lookup(o.annotations, PLACEMENTS_KEY)).value && NamesObject(d.config, o.obj))
    {
      SelectedHas(objects, components, uid, true, o);
      SelectedHas(objects, components, uid, false, o);
      ConfigNamesObject(o.obj, d.config);
      UserDefaultIs(o, d);
    }
    if o :| o in objects && ObjectWants(o, components, uid, refs, d) {
      if HasControllerUID(o.owners, uid) {
        assert o in managed;
      } else {
        assert o in user;
      }
    }
  }
}
