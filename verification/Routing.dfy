/** Routing of raw scrape configs (internal/metrics/handlers/handler.go): scrape configs with the
    raw resolution strategy are transpiled into remote writes of the monitoring stacks they name,
    or of the addon's own server outside OpenShift; all others are kept. */
module Routing {
  import opened Config
  import opened Wrappers
  import opened Text
  import opened Relabel
  import opened RemoteWrites
  import opened Transpiler
  import opened AgentBuild

  const RAW_ANNOTATION := "observability.open-cluster-management.io/resolution-strategy"
  const RAW := "raw"
  const RAW_SUFFIX := "-raw"
  const STACKS_ANNOTATION := "observability.open-cluster-management.io/coo-monitoring-stacks"

  datatype ScrapeConfig = ScrapeConfig(
    name: string, annotations: map<string, string>, labels: map<string, string>, source: ScrapeSource)

  /** What stays the same for all scrape configs of one call. */
  datatype Env = Env(
    agent: Option<seq<RemoteWrite<Rule>>>, store: Store, caTarget: string, certTarget: string, isOCP: bool, defaultNamespace: string)

  predicate IsRaw(sc: ScrapeConfig) {
    RAW_ANNOTATION in sc.annotations && sc.annotations[RAW_ANNOTATION] == RAW
  }

  predicate HasSuffix(s: string, suffix: string) {
    |suffix| <= |s| && s[|s| - |suffix|..] == suffix
  }

  /** A raw scrape config is marked in its component label. */
  function Marked(sc: ScrapeConfig): ScrapeConfig {
    if COMPONENT_LABEL in sc.labels && !HasSuffix(sc.labels[COMPONENT_LABEL], RAW_SUFFIX) then
      sc.(labels := sc.labels[COMPONENT_LABEL := sc.labels[COMPONENT_LABEL] + RAW_SUFFIX])
    else sc
  }

  /** The `namespace/name` pairs among some annotation parts. */
  function StackList(parts: seq<string>): seq<Address> {
    if parts == [] then []
    else
      var pieces := Split(TrimSpace(parts[|parts| - 1]), '/');
      StackList(parts[..|parts| - 1]) + if |pieces| == 2 then [Address(pieces[0], pieces[1])] else []
  }

  function Stacks(sc: ScrapeConfig): seq<Address> {
    if STACKS_ANNOTATION !in sc.annotations || sc.annotations[STACKS_ANNOTATION] == "" then []
    else StackList(Split(sc.annotations[STACKS_ANNOTATION], ','))
  }

  lemma MarkedStacks(sc: ScrapeConfig)
    ensures Stacks(Marked(sc)) == Stacks(sc)
  {
    hide StackList;
  }

  method ParseCOOMonitoringStacks(sc: ScrapeConfig) returns (parsed: seq<Address>)
    ensures parsed == Stacks(sc)
  {
    hide Split, TrimSpace;
    if STACKS_ANNOTATION !in sc.annotations || sc.annotations[STACKS_ANNOTATION] == "" {
      return [];
    }
    var stacks := Split(sc.annotations[STACKS_ANNOTATION], ',');
    parsed := [];
    for i := 0 to |stacks|
      invariant parsed == StackList(stacks[..i])
    {
      assert stacks[..i + 1][..i] == stacks[..i];
      var parts := Split(TrimSpace(stacks[i]), '/');
      if |parts| == 2 {
        parsed := parsed + [Address(parts[0], parts[1])];
      }
    }
    assert stacks[..|stacks|] == stacks;
  }

  // ---------------------------------------------------------------- the produced remote writes

  function RemoteWriteName(specName: Option<string>, scrapeConfigName: string): string {
    if specName.Some? then
      var base := if "acm-" <= specName.value then specName.value else "acm-" + specName.value;
      if scrapeConfigName != "" then base + "-" + scrapeConfigName else base
    else if scrapeConfigName != "" then "acm-" + scrapeConfigName
    else REMOTE_WRITE_NAME
  }

  function SafeTLSConfig(env: Env): TLSConfig {
    TLSConfig("", "", "", Some(SafeTLS(env.caTarget, CA_KEY, env.certTarget, CERT_KEY, env.certTarget, KEY_KEY)))
  }

  /** A transpiled spec authenticates with the copied secrets and carries the scrape config's name. */
  function Retargeted(rw: RemoteWrite<Rule>, sc: ScrapeConfig, env: Env): RemoteWrite<Rule> {
    rw.(tls := Some(SafeTLSConfig(env)), name := Some(RemoteWriteName(rw.name, sc.name)))
  }

  function RetargetedAll(rws: seq<RemoteWrite<Rule>>, sc: ScrapeConfig, env: Env): (r: seq<RemoteWrite<Rule>>)
    ensures |r| == |rws|
    ensures forall i :: 0 <= i < |rws| ==> r[i] == Retargeted(rws[i], sc, env)
  {
    seq(|rws|, i requires 0 <= i < |rws| => Retargeted(rws[i], sc, env))
  }

  /** The remote writes made from one scrape config. */
  function SpecsOf(sc: ScrapeConfig, env: Env): Result<seq<RemoteWrite<Rule>>, string> {
    var rws :- TranspileSpec(Some(sc.source), env.agent);
    Ok(RetargetedAll(rws, sc, env))
  }

  // ---------------------------------------------------------------- what the routing computes

  /** The remote writes that one scrape config adds to one stack. */
  datatype Contribution = Contribution(stack: Address, specs: seq<RemoteWrite<Rule>>)

  datatype Outcome = Outcome(
    kept: seq<ScrapeConfig>, contributions: seq<Contribution>, server: seq<RemoteWrite<Rule>>, secrets: seq<Copy>)

  function WithSecrets(secrets: seq<Copy>, env: Env, namespace: string): (r: Result<seq<Copy>, string>)
    ensures r.Ok? ==> secrets <= r.value && Has(r.value, env.caTarget, namespace) && Has(r.value, env.certTarget, namespace)
  {
    var ca :- Added(secrets, env.store, Address(HUB_NS, HUB_CA_SECRET), env.caTarget, namespace);
    var both :- Added(ca, env.store, Address(HUB_NS, CLIENT_CERT_SECRET), env.certTarget, namespace);
    HasLonger(ca, both, env.caTarget, namespace);
    Ok(both)
  }

  function ToStacks(before: Outcome, sc: ScrapeConfig, stacks: seq<Address>, env: Env): Result<Outcome, string> {
    if stacks == [] then Ok(before)
    else
      var o :- ToStacks(before, sc, stacks[..|stacks| - 1], env);
      var stack := stacks[|stacks| - 1];
      var secrets :- WithSecrets(o.secrets, env, stack.namespace);
      var specs :- SpecsOf(sc, env);
      Ok(o.(secrets := secrets, contributions := if specs == [] then o.contributions else o.contributions + [Contribution(stack, specs)]))
  }

  function Routed1(o: Outcome, sc: ScrapeConfig, env: Env): Result<Outcome, string> {
    if !IsRaw(sc) then Ok(o.(kept := o.kept + [sc]))
    else
      var marked := Marked(sc);
      if env.isOCP then
        if Stacks(sc) == [] then
          var secrets :- WithSecrets(o.secrets, env, env.defaultNamespace);
          Ok(o.(secrets := secrets, kept := o.kept + [marked]))
        else ToStacks(o, marked, Stacks(sc), env)
      else
        var specs :- SpecsOf(marked, env);
        Ok(o.(server := o.server + specs))
  }

  function Routed(scs: seq<ScrapeConfig>, env: Env, secrets: seq<Copy>): Result<Outcome, string> {
    if scs == [] then Ok(Outcome([], [], [], secrets))
    else
      var before :- Routed(scs[..|scs| - 1], env, secrets);
      Routed1(before, scs[|scs| - 1], env)
  }

  /** The stacks that receive something, in first-seen order. */
  function Keys(cs: seq<Contribution>): seq<Address> {
    if cs == [] then []
    else
      var before, last := Keys(cs[..|cs| - 1]), cs[|cs| - 1].stack;
      if last in before then before else before + [last]
  }

  /** What one stack receives: the concatenation, in order, of what is contributed to it. */
  function SpecsFor(cs: seq<Contribution>, stack: Address): seq<RemoteWrite<Rule>> {
    if cs == [] then []
    else SpecsFor(cs[..|cs| - 1], stack) + if cs[|cs| - 1].stack == stack then cs[|cs| - 1].specs else []
  }

  ghost predicate Receives(cs: seq<Contribution>, stack: Address) {
    exists i :: 0 <= i < |cs| && cs[i].stack == stack
  }

  lemma ReceivesSnoc(cs: seq<Contribution>, stack: Address)
    requires cs != []
    ensures Receives(cs, stack) <==> Receives(cs[..|cs| - 1], stack) || cs[|cs| - 1].stack == stack
  {
    var init := cs[..|cs| - 1];
    if i :| 0 <= i < |init| && init[i].stack == stack {
      assert cs[i].stack == stack;
    }
    if i :| 0 <= i < |cs| && cs[i].stack == stack {
      if i < |init| { assert init[i] == cs[i]; }
    }
  }

  lemma {:induction false} KeysAre(cs: seq<Contribution>, stack: Address)
    ensures stack in Keys(cs) <==> Receives(cs, stack)
  {
    if cs != [] {
      KeysAre(cs[..|cs| - 1], stack);
      ReceivesSnoc(cs, stack);
    }
  }

  lemma {:induction false} NoKeyNoSpecs(cs: seq<Contribution>, stack: Address)
    requires stack !in Keys(cs)
    ensures SpecsFor(cs, stack) == []
  {
    if cs != [] {
      NoKeyNoSpecs(cs[..|cs| - 1], stack);
    }
  }

  lemma {:induction false} KeysDistinct(cs: seq<Contribution>)
    ensures forall i, j :: 0 <= i < j < |Keys(cs)| ==> Keys(cs)[i] != Keys(cs)[j]
  {
    if cs != [] {
      KeysDistinct(cs[..|cs| - 1]);
    }
  }

  lemma {:induction false} KeysFirstSeen(cs: seq<Contribution>, n: nat)
    requires n <= |cs|
    ensures Keys(cs[..n]) <= Keys(cs)
    decreases |cs|
  {
    if n == |cs| {
      assert cs[..n] == cs;
    } else {
      var init := cs[..|cs| - 1];
      assert init[..n] == cs[..n];
      KeysFirstSeen(init, n);
    }
  }

  // ---------------------------------------------------------------- the routing itself

  /** A remote write on the heap: later code changes it through its reference. */
  class SpecRef {
    var spec: RemoteWrite<Rule>

    constructor (spec: RemoteWrite<Rule>)
      ensures this.spec == spec
    {
      this.spec := spec;
    }
  }

  ghost predicate Holds(refs: seq<SpecRef>, specs: seq<RemoteWrite<Rule>>)
    reads refs
  {
    |refs| == |specs| && forall i :: 0 <= i < |refs| ==> refs[i].spec == specs[i]
  }

  predicate DistinctRefs(refs: seq<SpecRef>) {
    forall i, j :: 0 <= i < j < |refs| ==> refs[i] != refs[j]
  }

  /** No remote write is shared between stacks or occurs twice in one. */
  ghost predicate Unshared(table: map<Address, seq<SpecRef>>) {
    && (forall stack :: stack in table ==> DistinctRefs(table[stack]))
    && (forall a, b, ref :: a in table && b in table && ref in table[a] && ref in table[b] ==> a == b)
  }

  /** The table and its key list hold what was contributed so far, in remote writes of `owned`. */
  ghost predicate Tabulates(table: map<Address, seq<SpecRef>>, keys: seq<Address>, cs: seq<Contribution>, owned: set<SpecRef>)
    reads owned
  {
    && keys == Keys(cs)
    && (forall stack :: stack in table <==> stack in keys)
    && (forall stack, ref :: stack in table && ref in table[stack] ==> ref in owned)
    && (forall stack :: stack in table ==> Holds(table[stack], SpecsFor(cs, stack)))
    && Unshared(table)
  }

  datatype Patch = Patch(stack: Address, refs: seq<SpecRef>)

  datatype Routing = Routing(kept: seq<ScrapeConfig>, patches: seq<Patch>, server: seq<RemoteWrite<Rule>>)

  /** Transpiles into newly allocated remote writes and retargets each in place. */
  method TranspileRefs(sc: ScrapeConfig, env: Env) returns (ok: bool, refs: seq<SpecRef>)
    ensures ok <==> SpecsOf(sc, env).Ok?
    ensures ok ==> Holds(refs, SpecsOf(sc, env).value)
    ensures DistinctRefs(refs) && forall ref :: ref in refs ==> fresh(ref)
  {
    refs := [];
    var rws := Transpile(Some(sc.source), env.agent);
    ok := rws.Ok?;
    if ok {
      refs := Allocate(rws.value);
      RetargetInPlace(refs, sc, env, rws.value);
    }
  }

  method Allocate(rws: seq<RemoteWrite<Rule>>) returns (refs: seq<SpecRef>)
    ensures Holds(refs, rws) && DistinctRefs(refs)
    ensures fresh(refs) && forall ref :: ref in refs ==> fresh(ref)
  {
    refs := [];
    for i := 0 to |rws|
      invariant |refs| == i
      invariant forall k :: 0 <= k < i ==> refs[k].spec == rws[k]
      invariant DistinctRefs(refs)
      invariant fresh(refs) && forall ref :: ref in refs ==> fresh(ref)
    {
      var ref := new SpecRef(rws[i]);
      refs := refs + [ref];
    }
  }

  method RetargetInPlace(refs: seq<SpecRef>, sc: ScrapeConfig, env: Env, ghost rws: seq<RemoteWrite<Rule>>)
    requires DistinctRefs(refs) && Holds(refs, rws)
    modifies refs
    ensures Holds(refs, RetargetedAll(rws, sc, env))
  {
    for i := 0 to |refs|
      invariant forall k :: 0 <= k < i ==> refs[k].spec == Retargeted(rws[k], sc, env)
      invariant forall k :: i <= k < |refs| ==> refs[k].spec == rws[k]
    {
      var name := RemoteWriteName(refs[i].spec.name, sc.name);
      refs[i].spec := refs[i].spec.(tls := Some(SafeTLSConfig(env)));
      refs[i].spec := refs[i].spec.(name := Some(name));
    }
  }

  /** Appends the remote writes to those of the stack. */
  method Record(table: map<Address, seq<SpecRef>>, keys: seq<Address>, stack: Address, refs: seq<SpecRef>,
                ghost cs: seq<Contribution>, ghost specs: seq<RemoteWrite<Rule>>, ghost owned: set<SpecRef>)
    returns (table': map<Address, seq<SpecRef>>, keys': seq<Address>)
    requires Tabulates(table, keys, cs, owned) && Holds(refs, specs) && DistinctRefs(refs)
    requires forall ref :: ref in refs ==> ref !in owned
    ensures Tabulates(table', keys', cs + [Contribution(stack, specs)], owned + set ref | ref in refs)
  {
    ghost var cs' := cs + [Contribution(stack, specs)];
    assert cs'[..|cs'| - 1] == cs;
    keys' := keys;
    if stack !in table {
      keys' := keys' + [stack];
      NoKeyNoSpecs(cs, stack);
    }
    var sofar := if stack in table then table[stack] else [];
    table' := table[stack := sofar + refs];
    assert keys' == Keys(cs');
    forall other | other in table' ensures Holds(table'[other], SpecsFor(cs', other)) {
    }
    UnsharedGrows(table, stack, sofar, refs, owned);
  }

  lemma UnsharedGrows(table: map<Address, seq<SpecRef>>, stack: Address, sofar: seq<SpecRef>, refs: seq<SpecRef>, owned: set<SpecRef>)
    requires Unshared(table) && DistinctRefs(refs)
    requires sofar == if stack in table then table[stack] else []
    requires forall other, ref :: other in table && ref in table[other] ==> ref in owned
    requires forall ref :: ref in refs ==> ref !in owned
    ensures Unshared(table[stack := sofar + refs])
  {
    var all := sofar + refs;
    forall i, j | 0 <= i < j < |all| ensures all[i] != all[j] {
      if i < |sofar| <= j {
        assert sofar[i] in owned && all[j] in refs;
      }
    }
  }

  class Router {
    const env: Env
    var secrets: seq<Copy>

    constructor (env: Env, secrets: seq<Copy>)
      ensures this.env == env && this.secrets == secrets
    {
      this.env, this.secrets := env, secrets;
    }

    /** Copies both mTLS secrets into a namespace unless they are there. */
    method CopySecrets(namespace: string) returns (ok: bool)
      modifies this
      ensures ok <==> WithSecrets(old(secrets), env, namespace).Ok?
      ensures ok ==> secrets == WithSecrets(old(secrets), env, namespace).value
    {
      if !Has(secrets, env.caTarget, namespace) {
        var source := Address(HUB_NS, HUB_CA_SECRET);
        if source !in env.store {
          return false;
        }
        secrets := secrets + [Copy(env.caTarget, namespace, env.store[source], Original(source))];
      }
      if !Has(secrets, env.certTarget, namespace) {
        var source := Address(HUB_NS, CLIENT_CERT_SECRET);
        if source !in env.store {
          return false;
        }
        secrets := secrets + [Copy(env.certTarget, namespace, env.store[source], Original(source))];
      }
      return true;
    }

    /** The inner loop: one scrape config, all the stacks it names. */
    method RouteToStacks(sc: ScrapeConfig, stacks: seq<Address>, table0: map<Address, seq<SpecRef>>, keys0: seq<Address>,
                         ghost o: Outcome, ghost owned0: set<SpecRef>)
      returns (ok: bool, table: map<Address, seq<SpecRef>>, keys: seq<Address>, ghost owned: set<SpecRef>)
      requires Tabulates(table0, keys0, o.contributions, owned0) && secrets == o.secrets
      modifies this
      ensures ok <==> ToStacks(o, sc, stacks, env).Ok?
      ensures owned0 <= owned && fresh(owned - owned0)
      ensures ok ==> var o' := ToStacks(o, sc, stacks, env).value;
        secrets == o'.secrets && o'.kept == o.kept && o'.server == o.server && Tabulates(table, keys, o'.contributions, owned)
    {
      hide SpecsOf, WithSecrets, Keys, SpecsFor, Unshared;
      table, keys, owned := table0, keys0, owned0;
      ghost var now := o;
      for i := 0 to |stacks|
        invariant ToStacks(o, sc, stacks[..i], env) == Ok(now)
        invariant secrets == now.secrets && now.kept == o.kept && now.server == o.server
        invariant owned0 <= owned && fresh(owned - owned0)
        invariant Tabulates(table, keys, now.contributions, owned)
      {
        assert stacks[..i + 1][..i] == stacks[..i];
        var copied := CopySecrets(stacks[i].namespace);
        if !copied {
          StacksStopAtError(o, sc, stacks, env, i + 1);
          return false, table, keys, owned;
        }
        var transpiled, refs := TranspileRefs(sc, env);
        if !transpiled {
          StacksStopAtError(o, sc, stacks, env, i + 1);
          return false, table, keys, owned;
        }
        if |refs| > 0 {
          table, keys := Record(table, keys, stacks[i], refs, now.contributions, SpecsOf(sc, env).value, owned);
          owned := owned + set ref | ref in refs;
        }
        now := ToStacks(o, sc, stacks[..i + 1], env).value;
      }
      assert stacks[..|stacks|] == stacks;
      ok := true;
    }

    /** Routes all scrape configs of one kind; on success every stack's remote writes are objects
        of their own. */
    method ProcessScrapeConfigs(scrapeConfigs: seq<ScrapeConfig>) returns (res: Result<Routing, string>)
      modifies this
      ensures res.Ok? <==> Routed(scrapeConfigs, env, old(secrets)).Ok?
      ensures res.Ok? ==> var o := Routed(scrapeConfigs, env, old(secrets)).value;
        && secrets == o.secrets && res.value.kept == o.kept && res.value.server == o.server
        && PatchesHold(res.value.patches, o.contributions)
      ensures res.Ok? ==> PatchesUnshared(res.value.patches)
    {
      var kept: seq<ScrapeConfig> := [];
      var server: seq<RemoteWrite<Rule>> := [];
      var table: map<Address, seq<SpecRef>> := map[];
      var keys: seq<Address> := [];
      ghost var owned: set<SpecRef> := {};
      ghost var now := Outcome([], [], [], secrets);
      for i := 0 to |scrapeConfigs|
        invariant Routed(scrapeConfigs[..i], env, old(secrets)) == Ok(now)
        invariant secrets == now.secrets && kept == now.kept && server == now.server
        invariant fresh(owned) && Tabulates(table, keys, now.contributions, owned)
      {
        assert scrapeConfigs[..i + 1][..i] == scrapeConfigs[..i];
        var ok, kept', server';
        ok, kept', server', table, keys, owned := RouteOne(scrapeConfigs[i], kept, server, table, keys, now, owned);
        if !ok {
          RoutingStopsAtError(scrapeConfigs, env, old(secrets), i + 1);
          return Err("failed to route scrape config");
        }
        kept, server := kept', server';
        now := Routed(scrapeConfigs[..i + 1], env, old(secrets)).value;
      }
      assert scrapeConfigs[..|scrapeConfigs|] == scrapeConfigs;
      var patches := MakePatches(table, keys, now.contributions, owned);
      return Ok(Routing(kept, patches, server));
    }

    /** The body of the outer loop. */
    method RouteOne(sc0: ScrapeConfig, kept: seq<ScrapeConfig>, server: seq<RemoteWrite<Rule>>,
                    table0: map<Address, seq<SpecRef>>, keys0: seq<Address>, ghost o: Outcome, ghost owned0: set<SpecRef>)
      returns (ok: bool, kept': seq<ScrapeConfig>, server': seq<RemoteWrite<Rule>>,
               table: map<Address, seq<SpecRef>>, keys: seq<Address>, ghost owned: set<SpecRef>)
      requires Tabulates(table0, keys0, o.contributions, owned0)
      requires secrets == o.secrets && kept == o.kept && server == o.server
      modifies this
      ensures ok <==> Routed1(o, sc0, env).Ok?
      ensures owned0 <= owned && fresh(owned - owned0)
      ensures ok ==> var o' := Routed1(o, sc0, env).value;
        && secrets == o'.secrets && kept' == o'.kept && server' == o'.server
        && Tabulates(table, keys, o'.contributions, owned)
    {
      hide SpecsOf, WithSecrets, ToStacks, Stacks, Marked, IsRaw, Tabulates, Holds;
      ok, kept', server', table, keys, owned := true, kept, server, table0, keys0, owned0;
      if !IsRaw(sc0) {
        kept' := kept + [sc0];
        return;
      }
      var sc := Marked(sc0);
      if env.isOCP {
        var targetStacks := ParseCOOMonitoringStacks(sc);
        MarkedStacks(sc0);
        if |targetStacks| == 0 {
          ok := CopySecrets(env.defaultNamespace);
          kept' := kept + [sc];
        } else {
          ok, table, keys, owned := RouteToStacks(sc, targetStacks, table0, keys0, o, owned0);
        }
      } else {
        var transpiled, refs := TranspileRefs(sc, env);
        ok := transpiled;
        if ok {
          server' := AppendSpecs(server, refs, SpecsOf(sc, env).value);
        }
      }
    }
  }

  /** Copies the remote writes by value. */
  method AppendSpecs(server: seq<RemoteWrite<Rule>>, refs: seq<SpecRef>, ghost specs: seq<RemoteWrite<Rule>>)
    returns (server': seq<RemoteWrite<Rule>>)
    requires Holds(refs, specs)
    ensures server' == server + specs
  {
    server' := server;
    for i := 0 to |refs|
      invariant server' == server + specs[..i]
    {
      server' := server' + [refs[i].spec];
    }
  }

  method MakePatches(table: map<Address, seq<SpecRef>>, keys: seq<Address>, ghost cs: seq<Contribution>, ghost owned: set<SpecRef>)
    returns (patches: seq<Patch>)
    requires Tabulates(table, keys, cs, owned)
    ensures PatchesHold(patches, cs) && PatchesUnshared(patches)
  {
    patches := [];
    for i := 0 to |keys|
      invariant |patches| == i
      invariant forall k :: 0 <= k < i ==> patches[k] == Patch(keys[k], table[keys[k]])
    {
      patches := patches + [Patch(keys[i], table[keys[i]])];
    }
    KeysDistinct(cs);
  }

  /** One patch per stack that receives something, in first-seen order, holding the concatenation
      of what is contributed to the stack. */
  ghost predicate PatchesHold(patches: seq<Patch>, cs: seq<Contribution>)
    reads set i, k | 0 <= i < |patches| && 0 <= k < |patches[i].refs| :: patches[i].refs[k]
  {
    && |patches| == |Keys(cs)|
    && (forall i :: 0 <= i < |patches| ==>
          patches[i].stack == Keys(cs)[i] && |patches[i].refs| == |SpecsFor(cs, Keys(cs)[i])|)
    && (forall i, k :: 0 <= i < |patches| && 0 <= k < |patches[i].refs| ==>
          patches[i].refs[k].spec == SpecsFor(cs, Keys(cs)[i])[k])
  }

  /** Changing a remote write of one patch changes no other remote write. */
  ghost predicate PatchesUnshared(patches: seq<Patch>) {
    && (forall i :: 0 <= i < |patches| ==> DistinctRefs(patches[i].refs))
    && (forall i, j, ref :: 0 <= i < j < |patches| && ref in patches[i].refs ==> ref !in patches[j].refs)
  }

  lemma {:induction false} StacksStopAtError(o: Outcome, sc: ScrapeConfig, stacks: seq<Address>, env: Env, i: nat)
    requires i <= |stacks| && ToStacks(o, sc, stacks[..i], env).Err?
    ensures ToStacks(o, sc, stacks, env).Err?
    decreases |stacks|
  {
    if i == |stacks| {
      assert stacks[..i] == stacks;
    } else {
      var init := stacks[..|stacks| - 1];
      assert init[..i] == stacks[..i];
      StacksStopAtError(o, sc, init, env, i);
    }
  }

  lemma {:induction false} RoutingStopsAtError(scs: seq<ScrapeConfig>, env: Env, secrets: seq<Copy>, i: nat)
    requires i <= |scs| && Routed(scs[..i], env, secrets).Err?
    ensures Routed(scs, env, secrets).Err?
    decreases |scs|
  {
    if i == |scs| {
      assert scs[..i] == scs;
    } else {
      var init := scs[..|scs| - 1];
      assert init[..i] == scs[..i];
      RoutingStopsAtError(init, env, secrets, i);
    }
  }
}
