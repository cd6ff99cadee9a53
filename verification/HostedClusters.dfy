/** Identity labels of hosted control planes: a series scraped for a hosted cluster must reach the
    hub under the hosted cluster's name and id, with the hosting cluster as its management cluster
    (internal/metrics/handlers/hypershift.go, internal/metrics/handlers/handler.go). */
module HostedClusters {
  import opened Wrappers
  import opened Text
  import opened Regex
  import opened Relabel

  const NAME := "__name__"
  const CLUSTER := "cluster"
  const CLUSTER_ID := "clusterID"
  const MGMT := "managementcluster"
  const MGMT_ID := "managementclusterID"
  const NOT_HCP := "__tmp_is_not_hcp"

  datatype Identity = Identity(id: string, name: string)

  // ---------------------------------------------------------------- label values as expressions

  /** What a cluster id denotes when it is used as a regular expression. Cluster ids are label
      values, made of letters, digits, `-`, `_` and `.`; of these only `.`, any character, is special. */
  function LabelRe(s: string): Re {
    if s == "" then Eps else Cat(if s[0] == '.' then ANY else One({s[0]}, false), LabelRe(s[1..]))
  }

  function LabelField(s: string): Option<Re> {
    RegexField(s, LabelRe(s))
  }

  lemma {:induction false} LabelReMatchesAt(s: string, t: string, i: nat)
    requires i <= |t| && t[i..] == s
    ensures MatchAt(LabelRe(s), t, i, |t|)
    decreases |s|
  {
    if s != "" {
      assert t[i] == t[i..][0] == s[0];
      assert t[i + 1..] == t[i..][1..] == s[1..];
      LabelReMatchesAt(s[1..], t, i + 1);
      assert MatchAt(if s[0] == '.' then ANY else One({s[0]}, false), t, i, i + 1);
    }
  }

  /** A label value matches itself. */
  lemma LabelMatchesItself(s: string)
    ensures RegexMatches(LabelField(s), s)
  {
    assert s[0..] == s;
    LabelReMatchesAt(s, s, 0);
  }

  lemma {:induction false} PlainLabelRe(s: string)
    requires '.' !in s
    ensures LabelRe(s) == Lit(s)
  {
    if s != "" {
      assert s == [s[0]] + s[1..];
      PlainLabelRe(s[1..]);
    }
  }

  /** A non-empty label value without dots matches nothing else. */
  lemma PlainLabelMatches(s: string, t: string)
    requires s != "" && '.' !in s
    ensures RegexMatches(LabelField(s), t) <==> t == s
  {
    PlainLabelRe(s);
    LitMatches(s, t);
  }

  // ---------------------------------------------------------------- the rules

  /** The names in parentheses with `|` in between; without names only the empty text matches. */
  function AnyOf(names: seq<string>): Re {
    if names == [] then Eps else if |names| == 1 then Lit(names[0]) else Alt(Lit(names[0]), AnyOf(names[1..]))
  }

  function SetRule(target: string, value: string): Rule {
    Rule(Replace, [], None, target, Const(value))
  }

  function SetIfRule(source: string, regex: Option<Re>, target: string, value: string): Rule {
    Rule(Replace, [source], regex, target, Const(value))
  }

  function KeepIfRule(source: string, regex: Option<Re>): Rule {
    Rule(Keep, [source], regex, "", FirstGroup)
  }

  /** generateMetricsRelabelConfigs */
  function ServiceMonitorRules(hosted: Identity, hub: Identity, metrics: seq<string>): seq<Rule> {
    [KeepIfRule(NAME, Some(AnyOf(metrics))),
     SetRule(CLUSTER_ID, hosted.id),
     SetRule(CLUSTER, hosted.name),
     SetRule(MGMT_ID, hub.id),
     SetRule(MGMT, hub.name)]
  }

  const NON_EMPTY := Cat(ANY, ANYTHING)
  const EMPTY := Cat(Begin, End)

  /** The filter that GenerateResources appends to a scrape config. */
  function FilterRules(hubID: string): seq<Rule> {
    [KeepIfRule(CLUSTER_ID, Some(NON_EMPTY)), KeepIfRule(MGMT_ID, LabelField(hubID))]
  }

  const COPY_JOB := Rule(Replace, ["exported_job"], None, "job", FirstGroup)
  const COPY_INSTANCE := Rule(Replace, ["exported_instance"], None, "instance", FirstGroup)
  const DROP_EXPORTED := Rule(LabelDrop, [], Some(Alt(Lit("exported_job"), Lit("exported_instance"))), "", FirstGroup)

  function JobRules(): seq<Rule> {
    [COPY_JOB, COPY_INSTANCE, DROP_EXPORTED]
  }

  /** createWriteRelabelConfigs, without the job rules, on a cluster that hosts others. */
  function HostingRules(cluster: Identity): seq<Rule> {
    [SetIfRule(CLUSTER_ID, Some(EMPTY), CLUSTER, cluster.name),
     SetIfRule(CLUSTER_ID, Some(EMPTY), CLUSTER_ID, cluster.id),
     SetIfRule(CLUSTER_ID, LabelField(cluster.id), NOT_HCP, "true"),
     SetIfRule(NOT_HCP, Some(EMPTY), MGMT_ID, cluster.id),
     SetIfRule(NOT_HCP, Some(EMPTY), MGMT, cluster.name)]
  }

  /** The same on any other cluster. */
  function PlainRules(cluster: Identity): seq<Rule> {
    [SetRule(CLUSTER, cluster.name), SetRule(CLUSTER_ID, cluster.id)]
  }

  function WriteRules(cluster: Identity, isHosting: bool): seq<Rule> {
    (if isHosting then HostingRules(cluster) else PlainRules(cluster)) + JobRules()
  }

  datatype ScrapeConfig = ScrapeConfig(metricRelabelings: seq<Rule>)

  /** Appends the filter to every scrape config, in place. */
  method AppendFilter(scrapeConfigs: array<ScrapeConfig>, hubID: string)
    modifies scrapeConfigs
    ensures forall i :: 0 <= i < scrapeConfigs.Length ==>
              scrapeConfigs[i].metricRelabelings == old(scrapeConfigs[i].metricRelabelings) + FilterRules(hubID)
  {
    for i := 0 to scrapeConfigs.Length
      invariant forall k :: 0 <= k < i ==>
                  scrapeConfigs[k].metricRelabelings == old(scrapeConfigs[k].metricRelabelings) + FilterRules(hubID)
      invariant forall k :: i <= k < scrapeConfigs.Length ==> scrapeConfigs[k] == old(scrapeConfigs[k])
    {
      scrapeConfigs[i] := ScrapeConfig(scrapeConfigs[i].metricRelabelings + FilterRules(hubID));
    }
  }

  // ---------------------------------------------------------------- single rules

  lemma {:induction false} AnyOfMatches(names: seq<string>, s: string)
    ensures Matches(AnyOf(names), s) <==> s in names || (names == [] && s == "")
  {
    if names != [] {
      LitMatches(names[0], s);
    }
    if |names| > 1 {
      AnyOfMatches(names[1..], s);
      assert names == [names[0]] + names[1..];
    }
  }

  lemma SingleValue(m: Labels, source: string)
    ensures Join(Values(m, [source]), ';') == Get(m, source)
  {
    assert Values(m, [source]) == [Get(m, source)];
  }

  lemma EmptyMatches(v: string)
    ensures Matches(EMPTY, v) <==> v == ""
  {
    if Matches(EMPTY, v) {
      var k := CatCut(Begin, End, v, 0, |v|);
    }
    if v == "" {
      assert MatchAt(Begin, v, 0, 0) && MatchAt(End, v, 0, 0);
    }
  }

  lemma NonEmptyMatches(v: string)
    ensures Matches(NON_EMPTY, v) <==> v != ""
  {
    if v != "" {
      AnythingMatchesAt(v, 1, |v|);
      assert MatchAt(ANY, v, 0, 1);
    }
  }

  lemma ApplySet(m: Labels, target: string, value: string)
    requires target != ""
    ensures Apply(SetRule(target, value), m) == Some(SetLabel(m, target, value))
  {
  }

  lemma ApplySetIf(m: Labels, source: string, regex: Option<Re>, target: string, value: string)
    requires target != ""
    ensures Apply(SetIfRule(source, regex, target, value), m) ==
            Some(if RegexMatches(regex, Get(m, source)) then SetLabel(m, target, value) else m)
  {
    SingleValue(m, source);
  }

  lemma ApplyKeepIf(m: Labels, source: string, regex: Option<Re>)
    ensures Apply(KeepIfRule(source, regex), m) == if RegexMatches(regex, Get(m, source)) then Some(m) else None
  {
    SingleValue(m, source);
  }

  lemma RunStep(r: Rule, rules: seq<Rule>, m: Labels, m': Labels)
    requires Apply(r, m) == Some(m')
    ensures Run([r] + rules, m) == Run(rules, m')
  {
    RunConcat([r], rules, m);
    RunOne(r, m);
  }

  lemma RunThree(a: Rule, b: Rule, c: Rule, m: Labels, m1: Labels, m2: Labels, m3: Labels)
    requires Apply(a, m) == Some(m1) && Apply(b, m1) == Some(m2) && Apply(c, m2) == Some(m3)
    ensures Run([a, b, c], m) == Some(m3)
  {
    hide Apply;
    assert [a, b, c] == [a] + ([b] + [c]);
    RunStep(a, [b] + [c], m, m1);
    RunStep(b, [c], m1, m2);
    RunOne(c, m2);
  }

  // ---------------------------------------------------------------- the federation filter

  /** The filter keeps a series exactly if it has a cluster id and its management cluster id matches
      the hub's; a hub without an id label accepts any. */
  lemma FilterKeepsIff(m: Labels, hubID: string)
    ensures Run(FilterRules(hubID), m) ==
            if Get(m, CLUSTER_ID) != "" && RegexMatches(LabelField(hubID), Get(m, MGMT_ID)) then Some(m) else None
  {
    var a, b := KeepIfRule(CLUSTER_ID, Some(NON_EMPTY)), KeepIfRule(MGMT_ID, LabelField(hubID));
    NonEmptyMatches(Get(m, CLUSTER_ID));
    ApplyKeepIf(m, CLUSTER_ID, Some(NON_EMPTY));
    ApplyKeepIf(m, MGMT_ID, LabelField(hubID));
    assert FilterRules(hubID) == [a] + [b];
    RunConcat([a], [b], m);
    RunOne(a, m);
    RunOne(b, m);
  }

  /** The labels the ServiceMonitor gives a hosted cluster's series. */
  function Labelled(m: Labels, hosted: Identity, hub: Identity): Labels {
    SetLabel(SetLabel(SetLabel(SetLabel(m, CLUSTER_ID, hosted.id), CLUSTER, hosted.name), MGMT_ID, hub.id), MGMT, hub.name)
  }

  /** The ServiceMonitor keeps the series of the wanted metrics and labels them. Without metrics it
      keeps the series without a name. */
  lemma ServiceMonitorLabels(m: Labels, hosted: Identity, hub: Identity, metrics: seq<string>)
    ensures Run(ServiceMonitorRules(hosted, hub, metrics), m) ==
            if Get(m, NAME) in metrics || (metrics == [] && Get(m, NAME) == "") then Some(Labelled(m, hosted, hub)) else None
  {
    var rules := ServiceMonitorRules(hosted, hub, metrics);
    AnyOfMatches(metrics, Get(m, NAME));
    ApplyKeepIf(m, NAME, Some(AnyOf(metrics)));
    if Get(m, NAME) in metrics || (metrics == [] && Get(m, NAME) == "") {
      var m1 := SetLabel(m, CLUSTER_ID, hosted.id);
      var m2 := SetLabel(m1, CLUSTER, hosted.name);
      var m3 := SetLabel(m2, MGMT_ID, hub.id);
      ApplySet(m, CLUSTER_ID, hosted.id);
      ApplySet(m1, CLUSTER, hosted.name);
      ApplySet(m2, MGMT_ID, hub.id);
      ApplySet(m3, MGMT, hub.name);
      RunStep(rules[0], rules[1..], m, m);
      RunStep(rules[1], rules[2..], m, m1);
      RunStep(rules[2], rules[3..], m1, m2);
      RunStep(rules[3], rules[4..], m2, m3);
      RunOne(rules[4], m3);
      assert rules == [rules[0]] + rules[1..] && rules[1..] == [rules[1]] + rules[2..];
      assert rules[2..] == [rules[2]] + rules[3..] && rules[3..] == [rules[3]] + rules[4..];
      assert rules[4..] == [rules[4]];
    }
  }

  /** A series labelled for a hosted cluster passes the federation filter. */
  lemma HostedPassesFilter(m: Labels, hosted: Identity, hub: Identity)
    requires hosted.id != ""
    ensures Run(FilterRules(hub.id), Labelled(m, hosted, hub)) == Some(Labelled(m, hosted, hub))
  {
    FilterKeepsIff(Labelled(m, hosted, hub), hub.id);
    LabelMatchesItself(hub.id);
  }

  // ---------------------------------------------------------------- the write relabel rules

  /** The series carries no cluster id, or the cluster's own. */
  ghost predicate IsOwn(m: Labels, cluster: Identity) {
    Get(m, CLUSTER_ID) == "" || RegexMatches(LabelField(cluster.id), Get(m, CLUSTER_ID))
  }

  /** What the hosting rules make of a series: one without a cluster id becomes the cluster's; an
      own series keeps its other labels but carries the helper label on; any other series gets the
      cluster as its management cluster. */
  ghost function Attributed(m: Labels, cluster: Identity): Labels {
    if Get(m, CLUSTER_ID) == "" then
      SetLabel(SetLabel(m, CLUSTER, cluster.name), CLUSTER_ID, cluster.id)[NOT_HCP := "true"]
    else if IsOwn(m, cluster) then m[NOT_HCP := "true"]
    else SetLabel(SetLabel(m, MGMT_ID, cluster.id), MGMT, cluster.name)
  }

  lemma HostingFirstTwo(m: Labels, cluster: Identity) returns (m1: Labels, m2: Labels)
    ensures Apply(HostingRules(cluster)[0], m) == Some(m1) && Apply(HostingRules(cluster)[1], m1) == Some(m2)
    ensures m2 == if Get(m, CLUSTER_ID) == "" then SetLabel(SetLabel(m, CLUSTER, cluster.name), CLUSTER_ID, cluster.id) else m
  {
    EmptyMatches(Get(m, CLUSTER_ID));
    ApplySetIf(m, CLUSTER_ID, Some(EMPTY), CLUSTER, cluster.name);
    m1 := if Get(m, CLUSTER_ID) == "" then SetLabel(m, CLUSTER, cluster.name) else m;
    assert Get(m1, CLUSTER_ID) == Get(m, CLUSTER_ID);
    ApplySetIf(m1, CLUSTER_ID, Some(EMPTY), CLUSTER_ID, cluster.id);
    m2 := if Get(m, CLUSTER_ID) == "" then SetLabel(m1, CLUSTER_ID, cluster.id) else m1;
  }

  lemma HostingLastThree(m2: Labels, cluster: Identity)
    requires NOT_HCP !in m2
    ensures var rules := HostingRules(cluster);
      Run(rules[2..], m2) == Some(if RegexMatches(LabelField(cluster.id), Get(m2, CLUSTER_ID)) then m2[NOT_HCP := "true"]
                                  else SetLabel(SetLabel(m2, MGMT_ID, cluster.id), MGMT, cluster.name))
  {
    var rules := HostingRules(cluster);
    var own := RegexMatches(LabelField(cluster.id), Get(m2, CLUSTER_ID));
    var m3 := if own then m2[NOT_HCP := "true"] else m2;
    var m4 := if own then m3 else SetLabel(m3, MGMT_ID, cluster.id);
    var m5 := if own then m4 else SetLabel(m4, MGMT, cluster.name);
    ApplySetIf(m2, CLUSTER_ID, LabelField(cluster.id), NOT_HCP, "true");
    EmptyMatches(Get(m3, NOT_HCP));
    assert (Get(m3, NOT_HCP) == "") == !own;
    ApplySetIf(m3, NOT_HCP, Some(EMPTY), MGMT_ID, cluster.id);
    assert Get(m4, NOT_HCP) == Get(m3, NOT_HCP);
    ApplySetIf(m4, NOT_HCP, Some(EMPTY), MGMT, cluster.name);
    assert rules[2..] == [rules[2]] + ([rules[3]] + [rules[4]]);
    RunStep(rules[2], [rules[3]] + [rules[4]], m2, m3);
    RunStep(rules[3], [rules[4]], m3, m4);
    RunOne(rules[4], m4);
  }

  lemma HostingAttributes(m: Labels, cluster: Identity)
    requires NOT_HCP !in m
    ensures Run(HostingRules(cluster), m) == Some(Attributed(m, cluster))
  {
    var rules := HostingRules(cluster);
    var m1, m2 := HostingFirstTwo(m, cluster);
    HostingLastThree(m2, cluster);
    assert rules == [rules[0]] + ([rules[1]] + rules[2..]);
    RunStep(rules[0], [rules[1]] + rules[2..], m, m1);
    RunStep(rules[1], rules[2..], m1, m2);
    if Get(m, CLUSTER_ID) == "" {
      LabelMatchesItself(cluster.id);
      assert Get(m2, CLUSTER_ID) == cluster.id;
    }
  }

  /** The job rules: `job` and `instance` become what the scraped series exported, or disappear. */
  function JobsRestored(m: Labels): Labels {
    SetLabel(SetLabel(m, "job", Get(m, "exported_job")), "instance", Get(m, "exported_instance"))
      - {"exported_job", "exported_instance"}
  }

  lemma ApplyCopy(m: Labels, source: string, target: string)
    requires target != ""
    ensures Apply(Rule(Replace, [source], None, target, FirstGroup), m) == Some(SetLabel(m, target, Get(m, source)))
  {
    SingleValue(m, source);
  }

  lemma EitherLiteral(a: string, b: string, s: string)
    ensures Matches(Alt(Lit(a), Lit(b)), s) <==> s == a || s == b
  {
    LitMatches(a, s);
    LitMatches(b, s);
  }

  lemma ExportedNames(name: string)
    ensures RegexMatches(DROP_EXPORTED.regex, name) <==> name == "exported_job" || name == "exported_instance"
  {
    hide Lit, Matches, MatchAt;
    EitherLiteral("exported_job", "exported_instance", name);
  }

  lemma ApplyDrop(m: Labels, regex: Option<Re>)
    ensures Apply(Rule(LabelDrop, [], regex, "", FirstGroup), m) == Some(map name | name in m && !RegexMatches(regex, name) :: m[name])
  {
  }

  lemma ApplyDropExported(m: Labels)
    ensures Apply(DROP_EXPORTED, m) == Some(m - {"exported_job", "exported_instance"})
  {
    hide Lit, RegexMatches, Apply;
    ApplyDrop(m, DROP_EXPORTED.regex);
    var kept: Labels := map name | name in m && !RegexMatches(DROP_EXPORTED.regex, name) :: m[name];
    forall name ensures RegexMatches(DROP_EXPORTED.regex, name) <==> name == "exported_job" || name == "exported_instance" {
      ExportedNames(name);
    }
    assert kept == m - {"exported_job", "exported_instance"};
  }

  lemma JobsInTwoSteps(m: Labels, m1: Labels)
    requires m1 == SetLabel(m, "job", Get(m, "exported_job"))
    ensures SetLabel(m1, "instance", Get(m1, "exported_instance")) - {"exported_job", "exported_instance"} == JobsRestored(m)
  {
  }

  lemma JobRulesRestore(m: Labels)
    ensures Run(JobRules(), m) == Some(JobsRestored(m))
  {
    hide Apply, Run, SetLabel, JobsRestored, Get;
    var m1 := SetLabel(m, "job", Get(m, "exported_job"));
    var m2 := SetLabel(m1, "instance", Get(m1, "exported_instance"));
    JobsInTwoSteps(m, m1);
    ApplyCopy(m, "exported_job", "job");
    ApplyCopy(m1, "exported_instance", "instance");
    ApplyDropExported(m2);
    RunThree(COPY_JOB, COPY_INSTANCE, DROP_EXPORTED, m, m1, m2, JobsRestored(m));
  }

  lemma PlainRulesResult(m: Labels, cluster: Identity)
    ensures Run(PlainRules(cluster), m) == Some(SetLabel(SetLabel(m, CLUSTER, cluster.name), CLUSTER_ID, cluster.id))
  {
    var m1 := SetLabel(m, CLUSTER, cluster.name);
    ApplySet(m, CLUSTER, cluster.name);
    ApplySet(m1, CLUSTER_ID, cluster.id);
    hide Apply, SetLabel;
    assert PlainRules(cluster) == [SetRule(CLUSTER, cluster.name)] + [SetRule(CLUSTER_ID, cluster.id)];
    RunStep(SetRule(CLUSTER, cluster.name), [SetRule(CLUSTER_ID, cluster.id)], m, m1);
    RunOne(SetRule(CLUSTER_ID, cluster.id), m1);
  }

  /** Nothing is ever dropped by the write rules; this is what comes out. */
  lemma WriteRulesResult(m: Labels, cluster: Identity, isHosting: bool)
    requires NOT_HCP !in m
    ensures Run(WriteRules(cluster, isHosting), m) ==
            Some(JobsRestored(if isHosting then Attributed(m, cluster)
                              else SetLabel(SetLabel(m, CLUSTER, cluster.name), CLUSTER_ID, cluster.id)))
  {
    hide Apply, Run, SetLabel, Attributed, JobsRestored, JobRules, HostingRules, PlainRules;
    if isHosting {
      HostingAttributes(m, cluster);
      RunConcat(HostingRules(cluster), JobRules(), m);
      JobRulesRestore(Attributed(m, cluster));
    } else {
      PlainRulesResult(m, cluster);
      RunConcat(PlainRules(cluster), JobRules(), m);
      JobRulesRestore(SetLabel(SetLabel(m, CLUSTER, cluster.name), CLUSTER_ID, cluster.id));
    }
  }

  // ---------------------------------------------------------------- identity

  /** The whole path of a hosted cluster's series: ServiceMonitor, federation filter, write rules.
      `idLabel` is the id label of the hosting cluster, `cluster` the identity the write rules use. */
  ghost function Pipeline(hosted: Identity, idLabel: string, cluster: Identity, metrics: seq<string>, m: Labels): Option<Labels> {
    Run(ServiceMonitorRules(hosted, Identity(idLabel, cluster.name), metrics) + FilterRules(idLabel) + WriteRules(cluster, true), m)
  }

  lemma PipelineResult(hosted: Identity, idLabel: string, cluster: Identity, metrics: seq<string>, m: Labels)
    requires hosted.id != "" && NOT_HCP !in m && Get(m, NAME) in metrics
    ensures Pipeline(hosted, idLabel, cluster, metrics, m) ==
            Some(JobsRestored(Attributed(Labelled(m, hosted, Identity(idLabel, cluster.name)), cluster)))
  {
    var hub := Identity(idLabel, cluster.name);
    var a, b, c := ServiceMonitorRules(hosted, hub, metrics), FilterRules(idLabel), WriteRules(cluster, true);
    ServiceMonitorLabels(m, hosted, hub, metrics);
    HostedPassesFilter(m, hosted, hub);
    WriteRulesResult(Labelled(m, hosted, hub), cluster, true);
    RunConcat(a + b, c, m);
    RunConcat(a, b, m);
  }

  lemma LabelledIdentity(m: Labels, hosted: Identity, hub: Identity)
    ensures var s := Labelled(m, hosted, hub);
      && Get(s, CLUSTER_ID) == hosted.id && Get(s, CLUSTER) == hosted.name
      && Get(s, MGMT_ID) == hub.id && Get(s, MGMT) == hub.name
      && Get(s, NOT_HCP) == Get(m, NOT_HCP)
  {
  }

  lemma AttributedIdentity(s: Labels, cluster: Identity)
    requires NOT_HCP !in s
    ensures var r := Attributed(s, cluster);
      && (Get(s, CLUSTER_ID) == "" ==> Get(r, CLUSTER_ID) == cluster.id && Get(r, CLUSTER) == cluster.name)
      && (Get(s, CLUSTER_ID) != "" ==> Get(r, CLUSTER_ID) == Get(s, CLUSTER_ID) && Get(r, CLUSTER) == Get(s, CLUSTER))
      && Get(r, MGMT_ID) == (if IsOwn(s, cluster) then Get(s, MGMT_ID) else cluster.id)
      && Get(r, MGMT) == (if IsOwn(s, cluster) then Get(s, MGMT) else cluster.name)
      && (Get(r, NOT_HCP) != "" <==> IsOwn(s, cluster))
  {
    hide RegexMatches;
  }

  /** The identity labels are final once the series is attributed. */
  lemma IdentityAfterJobs(m: Labels)
    ensures var r := JobsRestored(m);
      && Get(r, CLUSTER_ID) == Get(m, CLUSTER_ID) && Get(r, CLUSTER) == Get(m, CLUSTER)
      && Get(r, MGMT_ID) == Get(m, MGMT_ID) && Get(r, MGMT) == Get(m, MGMT)
      && Get(r, NOT_HCP) == Get(m, NOT_HCP)
  {
  }

  /** Hosted identity: the series survives and leaves with the hosted cluster's name and id and the
      hosting cluster's name as management cluster. Its management id is the hosting cluster's id
      exactly if the hosting cluster carries that id as its label or the hosted id does not match
      it; the helper label leaks exactly if it matches. */
  lemma HostedIdentity(hosted: Identity, idLabel: string, cluster: Identity, metrics: seq<string>, m: Labels)
    requires hosted.id != "" && NOT_HCP !in m && Get(m, NAME) in metrics
    ensures var out := Pipeline(hosted, idLabel, cluster, metrics, m);
      && out.Some?
      && Get(out.value, CLUSTER_ID) == hosted.id
      && Get(out.value, CLUSTER) == hosted.name
      && Get(out.value, MGMT) == cluster.name
      && (Get(out.value, MGMT_ID) == cluster.id <==> idLabel == cluster.id || !RegexMatches(LabelField(cluster.id), hosted.id))
      && (Get(out.value, NOT_HCP) != "" <==> RegexMatches(LabelField(cluster.id), hosted.id))
  {
    hide RegexMatches, Labelled, Attributed, JobsRestored, Pipeline;
    var s := Labelled(m, hosted, Identity(idLabel, cluster.name));
    PipelineResult(hosted, idLabel, cluster, metrics, m);
    LabelledIdentity(m, hosted, Identity(idLabel, cluster.name));
    LabelledNoHelper(m, hosted, Identity(idLabel, cluster.name));
    AttributedIdentity(s, cluster);
    IdentityAfterJobs(Attributed(s, cluster));
  }

  /** With an id free of dots, the same as its label and not the hosted one, all four identity labels
      are right and the helper label is gone. */
  lemma PlainHostedIdentity(hosted: Identity, cluster: Identity, metrics: seq<string>, m: Labels)
    requires hosted.id != "" && NOT_HCP !in m && Get(m, NAME) in metrics
    requires cluster.id != "" && '.' !in cluster.id && hosted.id != cluster.id
    ensures var out := Pipeline(hosted, cluster.id, cluster, metrics, m);
      && out.Some?
      && Get(out.value, CLUSTER_ID) == hosted.id && Get(out.value, CLUSTER) == hosted.name
      && Get(out.value, MGMT_ID) == cluster.id && Get(out.value, MGMT) == cluster.name
      && Get(out.value, NOT_HCP) == ""
  {
    hide RegexMatches, Pipeline;
    HostedIdentity(hosted, cluster.id, cluster, metrics, m);
    PlainLabelMatches(cluster.id, hosted.id);
  }

  lemma LabelledNoHelper(m: Labels, hosted: Identity, hub: Identity)
    requires NOT_HCP !in m
    ensures NOT_HCP !in Labelled(m, hosted, hub)
  {
  }

  /** A series that no ServiceMonitor of the addon labelled, and that therefore has no cluster id,
      never passes the federation filter. */
  lemma UnlabelledDropped(m: Labels, hubID: string)
    requires Get(m, CLUSTER_ID) == ""
    ensures Run(FilterRules(hubID), m) == None
  {
    FilterKeepsIff(m, hubID);
  }

  /** The hosting cluster's own series: one without a cluster id gets the cluster's identity, one
      with the cluster's id keeps it; both keep their management labels as they are. */
  lemma OwnSeriesIdentity(m: Labels, cluster: Identity)
    requires NOT_HCP !in m && IsOwn(m, cluster)
    ensures var out := Run(WriteRules(cluster, true), m);
      && out.Some?
      && Get(out.value, MGMT) == Get(m, MGMT) && Get(out.value, MGMT_ID) == Get(m, MGMT_ID)
      && (Get(m, CLUSTER_ID) == "" ==> Get(out.value, CLUSTER_ID) == cluster.id && Get(out.value, CLUSTER) == cluster.name)
      && (Get(m, CLUSTER_ID) != "" ==> Get(out.value, CLUSTER_ID) == Get(m, CLUSTER_ID) && Get(out.value, CLUSTER) == Get(m, CLUSTER))
      && Get(out.value, NOT_HCP) != ""
  {
    hide RegexMatches, Attributed, JobsRestored, Run, WriteRules;
    WriteRulesResult(m, cluster, true);
    AttributedIdentity(m, cluster);
    IdentityAfterJobs(Attributed(m, cluster));
  }

  /** The helper label leaks into the output for exactly the hosting cluster's own series. */
  lemma HelperLeaksIff(m: Labels, cluster: Identity)
    requires NOT_HCP !in m
    ensures var out := Run(WriteRules(cluster, true), m);
      out.Some? && (Get(out.value, NOT_HCP) != "" <==> IsOwn(m, cluster))
  {
    hide RegexMatches, JobsRestored, Attributed;
    WriteRulesResult(m, cluster, true);
    AttributedIdentity(m, cluster);
    IdentityAfterJobs(Attributed(m, cluster));
  }

  /** A dotted cluster id is taken for more than itself: with `a.c` as its id, a cluster takes the
      series of the hosted cluster `abc` for its own. If its id label is another text, the series
      keeps that text as its management id. */
  lemma DottedHostedIdentity(name: string, idLabel: string, hub: string, metrics: seq<string>, m: Labels)
    requires NOT_HCP !in m && Get(m, NAME) in metrics
    ensures var hosted, cluster := Identity("abc", name), Identity("a.c", hub);
      var out := Pipeline(hosted, idLabel, cluster, metrics, m);
      && out.Some? && Get(out.value, NOT_HCP) != ""
      && (idLabel != "a.c" ==> Get(out.value, MGMT_ID) != "a.c")
  {
    hide RegexMatches, Pipeline;
    DotMatches();
    HostedIdentity(Identity("abc", name), idLabel, Identity("a.c", hub), metrics, m);
  }

  lemma DotMatches()
    ensures RegexMatches(LabelField("a.c"), "abc")
  {
    var a, b, c := One({'a'}, false), ANY, One({'c'}, false);
    assert "a.c"[1..] == ".c" && ".c"[1..] == "c" && "c"[1..] == "";
    assert LabelRe("c") == Cat(c, Eps);
    assert LabelRe(".c") == Cat(b, Cat(c, Eps));
    assert LabelRe("a.c") == Cat(a, Cat(b, Cat(c, Eps)));
    CatJoin(c, Eps, "abc", 2, 3, 3);
    CatJoin(b, Cat(c, Eps), "abc", 1, 2, 3);
    CatJoin(a, Cat(b, Cat(c, Eps)), "abc", 0, 1, 3);
  }
}
