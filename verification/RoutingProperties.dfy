/** What the routing of raw scrape configs guarantees, against a plain group-by. */
module RoutingProperties {
  import opened Config
  import opened Wrappers
  import opened Text
  import opened Relabel
  import opened RemoteWrites
  import opened Transpiler
  import opened TranspilerDecision
  import opened TranspilerCorrectness
  import opened AgentBuild
  import opened Routing

  // ---------------------------------------------------------------- conservation

  /** Raw scrape configs that name a stack, or any raw one outside OpenShift, are transpiled. */
  predicate IsTranspiled(sc: ScrapeConfig, isOCP: bool) {
    AsksForRaw(sc) && (!isOCP || Stacks(sc) != [])
  }

  /** The resolution strategy in the annotation is `raw`. */
  predicate AsksForRaw(sc: ScrapeConfig) {
    var key := "observability.open-cluster-management.io/resolution-strategy";
    key in sc.annotations && sc.annotations[key] == "raw"
  }

  /** The others, in order; a raw one among them is marked. */
  function KeptOf(scs: seq<ScrapeConfig>, isOCP: bool): seq<ScrapeConfig> {
    if scs == [] then []
    else
      var last := scs[|scs| - 1];
      KeptOf(scs[..|scs| - 1], isOCP) +
        if IsTranspiled(last, isOCP) then [] else [if AsksForRaw(last) then Marked(last) else last]
  }

  function CountTranspiled(scs: seq<ScrapeConfig>, isOCP: bool): nat {
    if scs == [] then 0 else CountTranspiled(scs[..|scs| - 1], isOCP) + if IsTranspiled(scs[|scs| - 1], isOCP) then 1 else 0
  }

  lemma {:induction false} StacksKeepRest(o: Outcome, sc: ScrapeConfig, stacks: seq<Address>, env: Env)
    ensures var r := ToStacks(o, sc, stacks, env); r.Ok? ==> r.value.kept == o.kept && r.value.server == o.server
  {
    if stacks != [] {
      StacksKeepRest(o, sc, stacks[..|stacks| - 1], env);
    }
  }

  /** Every scrape config is kept once, in order, or transpiled; nothing is both. */
  lemma {:induction false} Conservation(scs: seq<ScrapeConfig>, env: Env, secrets: seq<Copy>)
    requires Routed(scs, env, secrets).Ok?
    ensures Routed(scs, env, secrets).value.kept == KeptOf(scs, env.isOCP)
    ensures |KeptOf(scs, env.isOCP)| + CountTranspiled(scs, env.isOCP) == |scs|
  {
    if scs != [] {
      var init, last := scs[..|scs| - 1], scs[|scs| - 1];
      Conservation(init, env, secrets);
      if IsRaw(last) && env.isOCP {
        StacksKeepRest(Routed(init, env, secrets).value, Marked(last), Stacks(last), env);
      }
    }
  }

  // ---------------------------------------------------------------- the stacks of a scrape config

  /** The stacks are the entries that, trimmed, are two texts with one slash between them. */
  lemma {:induction false} StackListHas(parts: seq<string>, stack: Address)
    ensures stack in StackList(parts) <==>
            '/' !in stack.namespace && '/' !in stack.name && exists i :: 0 <= i < |parts| && EntryOf(parts[i], stack)
  {
    hide Split, TrimSpace;
    if parts != [] {
      var init, last := parts[..|parts| - 1], parts[|parts| - 1];
      StackListHas(init, stack);
      EntryIs(last, stack);
      if i :| 0 <= i < |init| && EntryOf(init[i], stack) {
        assert EntryOf(parts[i], stack);
      }
      if i :| 0 <= i < |parts| && EntryOf(parts[i], stack) {
        if i < |init| { assert EntryOf(init[i], stack); }
      }
    }
  }

  predicate EntryOf(entry: string, stack: Address) {
    TrimSpace(entry) == stack.namespace + "/" + stack.name
  }

  lemma EntryIs(entry: string, stack: Address)
    ensures Split(TrimSpace(entry), '/') == [stack.namespace, stack.name] <==>
            '/' !in stack.namespace && '/' !in stack.name && EntryOf(entry, stack)
    ensures |Split(TrimSpace(entry), '/')| == 2 ==>
              Split(TrimSpace(entry), '/') == [Split(TrimSpace(entry), '/')[0], Split(TrimSpace(entry), '/')[1]]
  {
    hide Split, TrimSpace;
    var pair := [stack.namespace, stack.name];
    assert pair[1..] == [stack.name];
    assert Join(pair, '/') == stack.namespace + "/" + stack.name;
    if '/' !in stack.namespace && '/' !in stack.name && EntryOf(entry, stack) {
      SplitJoin(pair, '/');
    }
    JoinSplit(TrimSpace(entry), '/');
    if Split(TrimSpace(entry), '/') == pair {
      assert Free(pair[0], '/') && Free(pair[1], '/');
    }
  }

  /** An address that can be written into the annotation. */
  predicate Writable(stack: Address) {
    && '/' !in stack.namespace && '/' !in stack.name && ',' !in stack.namespace && ',' !in stack.name
    && stack.namespace != "" && stack.name != "" && !IsSpace(stack.namespace[0]) && !IsSpace(stack.name[|stack.name| - 1])
  }

  function Written(stacks: seq<Address>): (r: seq<string>)
    ensures |r| == |stacks|
  {
    seq(|stacks|, i requires 0 <= i < |stacks| => stacks[i].namespace + "/" + stacks[i].name)
  }

  lemma {:induction false} WrittenListed(stacks: seq<Address>)
    requires forall i :: 0 <= i < |stacks| ==> Writable(stacks[i])
    ensures StackList(Written(stacks)) == stacks
  {
    hide Split, TrimSpace;
    if stacks != [] {
      var init, last := stacks[..|stacks| - 1], stacks[|stacks| - 1];
      WrittenListed(init);
      assert Written(stacks)[..|stacks| - 1] == Written(init);
      var text := last.namespace + "/" + last.name;
      assert text[0] == last.namespace[0] && text[|text| - 1] == last.name[|last.name| - 1];
      TrimSpaceKeepsClean(text);
      EntryIs(text, last);
    }
  }

  /** Stacks written into the annotation, with commas in between, are read back in order. */
  lemma StacksRoundTrip(sc: ScrapeConfig, stacks: seq<Address>)
    requires stacks != [] && forall i :: 0 <= i < |stacks| ==> Writable(stacks[i])
    ensures Stacks(sc.(annotations := sc.annotations[STACKS_ANNOTATION := Join(Written(stacks), ',')])) == stacks
  {
    hide Split, StackList;
    var parts := Written(stacks);
    forall i | 0 <= i < |parts| ensures Free(parts[i], ',') {
      assert Writable(stacks[i]);
    }
    SplitJoin(parts, ',');
    WrittenListed(stacks);
    CountJoin(parts, ',');
    assert parts[0] != "";
    assert |Join(parts, ',')| >= |parts[0]|;
  }

  // ---------------------------------------------------------------- the group-by

  function Times(xs: seq<Address>, x: Address): nat {
    if xs == [] then 0 else Times(xs[..|xs| - 1], x) + if xs[|xs| - 1] == x then 1 else 0
  }

  function Repeat(specs: seq<RemoteWrite<Rule>>, n: nat): seq<RemoteWrite<Rule>> {
    if n == 0 then [] else Repeat(specs, n - 1) + specs
  }

  /** What a transpiled scrape config is turned into. */
  function SpecsFrom(sc: ScrapeConfig, env: Env): seq<RemoteWrite<Rule>> {
    var r := SpecsOf(Marked(sc), env);
    if r.Ok? then r.value else []
  }

  /** The group-by: for one stack, the specs of every scrape config that names it, in order, as
      often as it names it. */
  function Wanted(scs: seq<ScrapeConfig>, env: Env, stack: Address): seq<RemoteWrite<Rule>> {
    if scs == [] then []
    else
      var last := scs[|scs| - 1];
      Wanted(scs[..|scs| - 1], env, stack) +
        if env.isOCP && AsksForRaw(last) then Repeat(SpecsFrom(last, env), Times(Stacks(last), stack)) else []
  }

  function ServerWanted(scs: seq<ScrapeConfig>, env: Env): seq<RemoteWrite<Rule>> {
    if scs == [] then []
    else
      var last := scs[|scs| - 1];
      ServerWanted(scs[..|scs| - 1], env) + if !env.isOCP && AsksForRaw(last) then SpecsFrom(last, env) else []
  }

  lemma SpecsForSnoc(cs: seq<Contribution>, c: Contribution, stack: Address)
    ensures SpecsFor(cs + [c], stack) == SpecsFor(cs, stack) + if c.stack == stack then c.specs else []
  {
    assert (cs + [c])[..|cs + [c]| - 1] == cs;
  }

  lemma {:induction false} StacksContribute(o: Outcome, sc: ScrapeConfig, stacks: seq<Address>, env: Env, stack: Address)
    requires ToStacks(o, sc, stacks, env).Ok?
    ensures stacks != [] ==> SpecsOf(sc, env).Ok?
    ensures var specs := if SpecsOf(sc, env).Ok? then SpecsOf(sc, env).value else [];
      SpecsFor(ToStacks(o, sc, stacks, env).value.contributions, stack) ==
      SpecsFor(o.contributions, stack) + Repeat(specs, Times(stacks, stack))
  {
    hide SpecsOf, WithSecrets, SpecsFor;
    if stacks != [] {
      var init, last := stacks[..|stacks| - 1], stacks[|stacks| - 1];
      StacksContribute(o, sc, init, env, stack);
      var specs := SpecsOf(sc, env).value;
      SpecsForSnoc(ToStacks(o, sc, init, env).value.contributions, Contribution(last, specs), stack);
    }
  }

  /** Routing refines the group-by: each stack receives exactly the concatenation it should, and so
      does the addon's own server. */
  lemma {:induction false} GroupBy(scs: seq<ScrapeConfig>, env: Env, secrets: seq<Copy>, stack: Address)
    requires Routed(scs, env, secrets).Ok?
    ensures SpecsFor(Routed(scs, env, secrets).value.contributions, stack) == Wanted(scs, env, stack)
    ensures Routed(scs, env, secrets).value.server == ServerWanted(scs, env)
  {
    if scs != [] {
      var init, last := scs[..|scs| - 1], scs[|scs| - 1];
      GroupBy(init, env, secrets, stack);
      if IsRaw(last) && env.isOCP {
        var before := Routed(init, env, secrets).value;
        StacksContribute(before, Marked(last), Stacks(last), env, stack);
        StacksKeepRest(before, Marked(last), Stacks(last), env);
      }
    }
  }

  ghost predicate NoEmptyContribution(cs: seq<Contribution>) {
    forall i :: 0 <= i < |cs| ==> cs[i].specs != []
  }

  lemma {:induction false} StacksNoEmpty(o: Outcome, sc: ScrapeConfig, stacks: seq<Address>, env: Env)
    requires NoEmptyContribution(o.contributions)
    ensures var r := ToStacks(o, sc, stacks, env); r.Ok? ==> NoEmptyContribution(r.value.contributions)
  {
    if stacks != [] {
      StacksNoEmpty(o, sc, stacks[..|stacks| - 1], env);
    }
  }

  lemma {:induction false} RoutedNoEmpty(scs: seq<ScrapeConfig>, env: Env, secrets: seq<Copy>)
    ensures var r := Routed(scs, env, secrets); r.Ok? ==> NoEmptyContribution(r.value.contributions)
  {
    if scs != [] {
      var init, last := scs[..|scs| - 1], scs[|scs| - 1];
      RoutedNoEmpty(init, env, secrets);
      var before := Routed(init, env, secrets);
      if before.Ok? && IsRaw(last) && env.isOCP {
        StacksNoEmpty(before.value, Marked(last), Stacks(last), env);
      }
    }
  }

  lemma {:induction false} ReceivedSomething(cs: seq<Contribution>, stack: Address)
    requires NoEmptyContribution(cs)
    ensures stack in Keys(cs) <==> SpecsFor(cs, stack) != []
  {
    if cs != [] {
      ReceivedSomething(cs[..|cs| - 1], stack);
    }
  }

  /** A stack is patched exactly if some transpiled scrape config has something for it. */
  lemma PatchedIff(scs: seq<ScrapeConfig>, env: Env, secrets: seq<Copy>, stack: Address)
    requires Routed(scs, env, secrets).Ok?
    ensures stack in Keys(Routed(scs, env, secrets).value.contributions) <==> Wanted(scs, env, stack) != []
  {
    GroupBy(scs, env, secrets, stack);
    RoutedNoEmpty(scs, env, secrets);
    ReceivedSomething(Routed(scs, env, secrets).value.contributions, stack);
  }

  /** Patches come in first-seen order: those of the first scrape configs come first. */
  lemma {:induction false} PatchOrder(scs: seq<ScrapeConfig>, env: Env, secrets: seq<Copy>, n: nat)
    requires n <= |scs| && Routed(scs, env, secrets).Ok?
    ensures Routed(scs[..n], env, secrets).Ok?
    ensures Routed(scs[..n], env, secrets).value.contributions <= Routed(scs, env, secrets).value.contributions
    ensures Keys(Routed(scs[..n], env, secrets).value.contributions) <= Keys(Routed(scs, env, secrets).value.contributions)
    decreases |scs|
  {
    if n == |scs| {
      assert scs[..n] == scs;
    } else {
      var init, last := scs[..|scs| - 1], scs[|scs| - 1];
      assert init[..n] == scs[..n];
      PatchOrder(init, env, secrets, n);
      if IsRaw(last) && env.isOCP {
        StacksAppend(Routed(init, env, secrets).value, Marked(last), Stacks(last), env);
      }
      var all := Routed(scs, env, secrets).value.contributions;
      var some := Routed(scs[..n], env, secrets).value.contributions;
      assert all[..|some|] == some;
      KeysFirstSeen(all, |some|);
    }
  }

  lemma {:induction false} StacksAppend(o: Outcome, sc: ScrapeConfig, stacks: seq<Address>, env: Env)
    ensures var r := ToStacks(o, sc, stacks, env); r.Ok? ==> o.contributions <= r.value.contributions
  {
    if stacks != [] {
      StacksAppend(o, sc, stacks[..|stacks| - 1], env);
    }
  }

  // ---------------------------------------------------------------- secrets

  /** Both mTLS secrets are in the namespace. */
  predicate Provided(secrets: seq<Copy>, env: Env, namespace: string) {
    Has(secrets, env.caTarget, namespace) && Has(secrets, env.certTarget, namespace)
  }

  ghost predicate StacksProvided(o: Outcome, env: Env) {
    forall i :: 0 <= i < |o.contributions| ==> Provided(o.secrets, env, o.contributions[i].stack.namespace)
  }

  /** Under the names of the hub's mTLS secrets there are copies of these. */
  predicate TargetRight(c: Copy, env: Env) {
    && (c.name == env.caTarget ==> IsCopyOf(c, env.store, HUB_NS, HUB_CA_SECRET))
    && (c.name == env.certTarget ==> IsCopyOf(c, env.store, HUB_NS, CLIENT_CERT_SECRET))
  }

  ghost predicate TargetsRight(secrets: seq<Copy>, env: Env) {
    forall i :: 0 <= i < |secrets| ==> TargetRight(secrets[i], env)
  }

  /** The secrets behind the first `n` are mTLS secrets for one of the namespaces. */
  ghost predicate OnlyFor(secrets: seq<Copy>, n: nat, env: Env, namespaces: set<string>) {
    forall i :: n <= i < |secrets| ==> secrets[i].name in {env.caTarget, env.certTarget} && secrets[i].namespace in namespaces
  }

  lemma ProvidedLonger(secrets: seq<Copy>, longer: seq<Copy>, env: Env, namespace: string)
    requires secrets <= longer && Provided(secrets, env, namespace)
    ensures Provided(longer, env, namespace)
  {
    HasLonger(secrets, longer, env.caTarget, namespace);
    HasLonger(secrets, longer, env.certTarget, namespace);
  }

  lemma WithSecretsFacts(secrets: seq<Copy>, env: Env, namespace: string)
    requires Unique(secrets)
    ensures var r := WithSecrets(secrets, env, namespace);
      r.Ok? ==> Unique(r.value) && OnlyFor(r.value, |secrets|, env, {namespace})
    ensures var r := WithSecrets(secrets, env, namespace);
      r.Ok? && env.caTarget != env.certTarget && TargetsRight(secrets, env) ==> TargetsRight(r.value, env)
  {
    var source := Address(HUB_NS, HUB_CA_SECRET);
    AddedKeepsUnique(secrets, env.store, source, env.caTarget, namespace);
    var ca := Added(secrets, env.store, source, env.caTarget, namespace);
    if ca.Ok? {
      AddedKeepsUnique(ca.value, env.store, Address(HUB_NS, CLIENT_CERT_SECRET), env.certTarget, namespace);
    }
  }

  lemma ProvidedAll(o: Outcome, secrets: seq<Copy>, env: Env)
    requires StacksProvided(o, env) && o.secrets <= secrets
    ensures StacksProvided(o.(secrets := secrets), env)
  {
    forall i | 0 <= i < |o.contributions| ensures Provided(secrets, env, o.contributions[i].stack.namespace) {
      ProvidedLonger(o.secrets, secrets, env, o.contributions[i].stack.namespace);
    }
  }

  function NamespacesOf(stacks: seq<Address>): set<string> {
    set i | 0 <= i < |stacks| :: stacks[i].namespace
  }

  lemma NamespacesSnoc(stacks: seq<Address>)
    requires stacks != []
    ensures NamespacesOf(stacks) == NamespacesOf(stacks[..|stacks| - 1]) + {stacks[|stacks| - 1].namespace}
  {
    var init := stacks[..|stacks| - 1];
    forall ns ensures ns in NamespacesOf(stacks) <==> ns in NamespacesOf(init) + {stacks[|stacks| - 1].namespace} {
      if ns in NamespacesOf(init) {
        var i :| 0 <= i < |init| && init[i].namespace == ns;
        assert stacks[i].namespace == ns;
      }
      if ns in NamespacesOf(stacks) {
        var i :| 0 <= i < |stacks| && stacks[i].namespace == ns;
        if i < |init| { assert init[i].namespace == ns; }
      }
    }
  }

  /** What one step does to the secrets: earlier ones stay in front, target addresses stay unique, what
      is added is for the namespaces, each of these has its secrets then, and right ones stay right. */
  ghost predicate SecretsGrow(before: seq<Copy>, after: seq<Copy>, env: Env, namespaces: set<string>) {
    && Unique(after) && before <= after
    && OnlyFor(after, |before|, env, namespaces)
    && (forall ns :: ns in namespaces ==> Provided(after, env, ns))
    && (env.caTarget != env.certTarget && TargetsRight(before, env) ==> TargetsRight(after, env))
  }

  lemma GrowNothing(secrets: seq<Copy>, env: Env)
    requires Unique(secrets)
    ensures SecretsGrow(secrets, secrets, env, {})
  {
  }

  lemma GrowOne(secrets: seq<Copy>, env: Env, namespace: string)
    requires Unique(secrets) && WithSecrets(secrets, env, namespace).Ok?
    ensures SecretsGrow(secrets, WithSecrets(secrets, env, namespace).value, env, {namespace})
  {
    WithSecretsFacts(secrets, env, namespace);
  }

  lemma GrowTwice(a: seq<Copy>, b: seq<Copy>, c: seq<Copy>, env: Env, xs: set<string>, ys: set<string>)
    requires SecretsGrow(a, b, env, xs) && SecretsGrow(b, c, env, ys)
    ensures SecretsGrow(a, c, env, xs + ys)
  {
    hide Provided, TargetsRight, Unique;
    forall i | |a| <= i < |c| ensures c[i].name in {env.caTarget, env.certTarget} && c[i].namespace in xs + ys {
      if i < |b| { assert c[i] == b[i]; }
    }
    forall ns | ns in xs ensures Provided(c, env, ns) {
      ProvidedLonger(b, c, env, ns);
    }
  }

  lemma {:induction false} StacksSecrets(o: Outcome, sc: ScrapeConfig, stacks: seq<Address>, env: Env)
    requires Unique(o.secrets) && StacksProvided(o, env)
    ensures var r := ToStacks(o, sc, stacks, env);
      r.Ok? ==> SecretsGrow(o.secrets, r.value.secrets, env, NamespacesOf(stacks)) && StacksProvided(r.value, env)
  {
    hide SecretsGrow, WithSecrets, SpecsOf, Unique, NamespacesOf;
    if stacks == [] {
      GrowNothing(o.secrets, env);
      assert NamespacesOf([]) == {} by { NoNamespaces(); }
    } else if ToStacks(o, sc, stacks, env).Ok? {
      var init, last := stacks[..|stacks| - 1], stacks[|stacks| - 1];
      StacksSecrets(o, sc, init, env);
      var before := ToStacks(o, sc, init, env).value;
      var secrets := WithSecrets(before.secrets, env, last.namespace).value;
      GrowUnique(o.secrets, before.secrets, env, NamespacesOf(init));
      GrowOne(before.secrets, env, last.namespace);
      GrowTwice(o.secrets, before.secrets, secrets, env, NamespacesOf(init), {last.namespace});
      NamespacesSnoc(stacks);
      ProvidedAll(before, secrets, env);
    }
  }

  lemma NoNamespaces()
    ensures NamespacesOf([]) == {}
  {
  }

  lemma GrowUnique(a: seq<Copy>, b: seq<Copy>, env: Env, namespaces: set<string>)
    requires SecretsGrow(a, b, env, namespaces)
    ensures Unique(b) && a <= b
  {
  }

  /** The namespaces one scrape config needs the mTLS secrets in. */
  function NamespacesFor(sc: ScrapeConfig, env: Env): set<string> {
    if !AsksForRaw(sc) || !env.isOCP then {}
    else if Stacks(sc) == [] then {env.defaultNamespace}
    else NamespacesOf(Stacks(sc))
  }

  function AllNamespaces(scs: seq<ScrapeConfig>, env: Env): set<string> {
    if scs == [] then {} else AllNamespaces(scs[..|scs| - 1], env) + NamespacesFor(scs[|scs| - 1], env)
  }

  lemma {:induction false} RoutedSecrets(scs: seq<ScrapeConfig>, env: Env, secrets: seq<Copy>)
    requires Unique(secrets)
    ensures var r := Routed(scs, env, secrets);
      r.Ok? ==> SecretsGrow(secrets, r.value.secrets, env, AllNamespaces(scs, env)) && StacksProvided(r.value, env)
  {
    hide SecretsGrow, WithSecrets, SpecsOf, Unique, ToStacks, Stacks, NamespacesOf, Marked;
    if scs == [] {
      GrowNothing(secrets, env);
    } else if Routed(scs, env, secrets).Ok? {
      var init, last := scs[..|scs| - 1], scs[|scs| - 1];
      RoutedSecrets(init, env, secrets);
      var before, after := Routed(init, env, secrets).value, Routed(scs, env, secrets).value;
      GrowUnique(secrets, before.secrets, env, AllNamespaces(init, env));
      if IsRaw(last) && env.isOCP {
        if Stacks(last) == [] {
          GrowOne(before.secrets, env, env.defaultNamespace);
          ProvidedAll(before, WithSecrets(before.secrets, env, env.defaultNamespace).value, env);
        } else {
          StacksSecrets(before, Marked(last), Stacks(last), env);
        }
      } else {
        GrowNothing(before.secrets, env);
      }
      GrowTwice(secrets, before.secrets, after.secrets, env, AllNamespaces(init, env), NamespacesFor(last, env));
    }
  }

  /** The name is that of exactly one secret in the namespace, a copy of the hub's secret. */
  ghost predicate Resolves(secrets: seq<Copy>, name: string, namespace: string, store: Store, source: string) {
    exists i :: 0 <= i < |secrets| && secrets[i].name == name && secrets[i].namespace == namespace
      && IsCopyOf(secrets[i], store, HUB_NS, source)
      && forall j :: 0 <= j < |secrets| && secrets[j].name == name && secrets[j].namespace == namespace ==> j == i
  }

  /** The spec reads no files; its CA is `ca.crt` of the copy of the hub's CA in the namespace, its
      certificate and key are `tls.crt` and `tls.key` of the copy of the client certificate. */
  ghost predicate Authenticates(spec: RemoteWrite<Rule>, secrets: seq<Copy>, store: Store, namespace: string) {
    && spec.tls.Some? && spec.tls.value.safe.Some?
    && spec.tls.value.caFile == "" && spec.tls.value.certFile == "" && spec.tls.value.keyFile == ""
    && var safe := spec.tls.value.safe.value;
    && safe.caKey == "ca.crt" && Resolves(secrets, safe.caSecret, namespace, store, HUB_CA_SECRET)
    && safe.certKey == "tls.crt" && Resolves(secrets, safe.certSecret, namespace, store, CLIENT_CERT_SECRET)
    && safe.keyKey == "tls.key" && Resolves(secrets, safe.keySecret, namespace, store, CLIENT_CERT_SECRET)
  }

  lemma ProvidedResolves(secrets: seq<Copy>, env: Env, namespace: string)
    requires Unique(secrets) && Provided(secrets, env, namespace) && TargetsRight(secrets, env)
    ensures Resolves(secrets, env.caTarget, namespace, env.store, HUB_CA_SECRET)
    ensures Resolves(secrets, env.certTarget, namespace, env.store, CLIENT_CERT_SECRET)
  {
    var i :| 0 <= i < |secrets| && secrets[i].name == env.caTarget && secrets[i].namespace == namespace;
    var j :| 0 <= j < |secrets| && secrets[j].name == env.certTarget && secrets[j].namespace == namespace;
    assert TargetRight(secrets[i], env) && TargetRight(secrets[j], env);
  }

  lemma SafeAuthenticates(spec: RemoteWrite<Rule>, secrets: seq<Copy>, env: Env, namespace: string)
    requires spec.tls == Some(SafeTLSConfig(env))
    requires Unique(secrets) && Provided(secrets, env, namespace) && TargetsRight(secrets, env)
    ensures Authenticates(spec, secrets, env.store, namespace)
  {
    hide Resolves;
    ProvidedResolves(secrets, env, namespace);
  }

  ghost predicate AllSafe(specs: seq<RemoteWrite<Rule>>, env: Env) {
    forall k :: 0 <= k < |specs| ==> specs[k].tls == Some(SafeTLSConfig(env)) && specs[k].name.Some? && "acm-" <= specs[k].name.value
  }

  lemma NamePrefixed(specName: Option<string>, scrapeConfigName: string)
    ensures "acm-" <= RemoteWriteName(specName, scrapeConfigName)
  {
    if specName.Some? {
      var base := if "acm-" <= specName.value then specName.value else "acm-" + specName.value;
      assert "acm-" <= base;
    }
  }

  lemma SpecsSafe(sc: ScrapeConfig, env: Env)
    requires SpecsOf(sc, env).Ok?
    ensures AllSafe(SpecsOf(sc, env).value, env)
  {
    var rws := TranspileSpec(Some(sc.source), env.agent).value;
    forall k | 0 <= k < |rws| ensures "acm-" <= Retargeted(rws[k], sc, env).name.value {
      NamePrefixed(rws[k].name, sc.name);
    }
  }

  lemma {:induction false} RepeatSafe(specs: seq<RemoteWrite<Rule>>, n: nat, env: Env)
    requires AllSafe(specs, env)
    ensures AllSafe(Repeat(specs, n), env)
  {
    if n > 0 {
      RepeatSafe(specs, n - 1, env);
    }
  }

  lemma {:induction false} WantedSafe(scs: seq<ScrapeConfig>, env: Env, stack: Address)
    ensures AllSafe(Wanted(scs, env, stack), env)
  {
    hide SpecsOf, Stacks;
    if scs != [] {
      var last := scs[|scs| - 1];
      WantedSafe(scs[..|scs| - 1], env, stack);
      if SpecsOf(Marked(last), env).Ok? {
        SpecsSafe(Marked(last), env);
      }
      RepeatSafe(SpecsFrom(last, env), Times(Stacks(last), stack), env);
    }
  }

  lemma {:induction false} ServerSafe(scs: seq<ScrapeConfig>, env: Env)
    ensures AllSafe(ServerWanted(scs, env), env)
  {
    hide SpecsOf;
    if scs != [] {
      var last := scs[|scs| - 1];
      ServerSafe(scs[..|scs| - 1], env);
      if SpecsOf(Marked(last), env).Ok? {
        SpecsSafe(Marked(last), env);
      }
    }
  }

  /** Where the secrets go: the earlier ones stay in front and target addresses stay unique; what is
      added are the two mTLS secrets in the namespaces of the stacks that raw scrape configs name, and
      in the default namespace for one that names none, and each of these namespaces has both. */
  lemma SecretsRouted(scs: seq<ScrapeConfig>, env: Env, secrets: seq<Copy>)
    requires Unique(secrets) && Routed(scs, env, secrets).Ok?
    ensures var after := Routed(scs, env, secrets).value.secrets;
      && Unique(after) && secrets <= after
      && (forall i :: |secrets| <= i < |after| ==>
            after[i].name in {env.caTarget, env.certTarget} && after[i].namespace in AllNamespaces(scs, env))
      && (forall ns :: ns in AllNamespaces(scs, env) ==> Has(after, env.caTarget, ns) && Has(after, env.certTarget, ns))
  {
    hide Routed, AllNamespaces, Unique, TargetsRight, Has;
    RoutedSecrets(scs, env, secrets);
  }

  /** The scrape config names a stack in the namespace, or it names none and this is the default one. */
  ghost predicate Names(sc: ScrapeConfig, env: Env, ns: string) {
    if Stacks(sc) == [] then ns == env.defaultNamespace else exists name :: Address(ns, name) in Stacks(sc)
  }

  /** Which namespaces these are. */
  lemma {:induction false} NamespacesAre(scs: seq<ScrapeConfig>, env: Env, ns: string)
    ensures ns in AllNamespaces(scs, env) <==> env.isOCP && exists sc :: sc in scs && AsksForRaw(sc) && Names(sc, env, ns)
  {
    hide AsksForRaw, Stacks;
    if scs != [] {
      var init, last := scs[..|scs| - 1], scs[|scs| - 1];
      NamespacesAre(init, env, ns);
      assert scs == init + [last];
      if ns in NamespacesOf(Stacks(last)) {
        var k :| 0 <= k < |Stacks(last)| && Stacks(last)[k].namespace == ns;
        assert Address(ns, Stacks(last)[k].name) in Stacks(last);
      }
      if name :| Address(ns, name) in Stacks(last) {
        var k :| 0 <= k < |Stacks(last)| && Stacks(last)[k] == Address(ns, name);
      }
    }
  }

  /** Secret closure: if what is already copied under the names of the mTLS secrets are copies of
      these, then every remote write of every patched stack authenticates with copies in the namespace
      of its stack: the CA with that of the hub's CA, certificate and key with that of the client
      certificate. */
  lemma SecretClosure(scs: seq<ScrapeConfig>, env: Env, secrets: seq<Copy>, stack: Address)
    requires Unique(secrets) && TargetsRight(secrets, env) && env.caTarget != env.certTarget
    requires Routed(scs, env, secrets).Ok?
    ensures var o := Routed(scs, env, secrets).value;
      && TargetsRight(o.secrets, env)
      && (stack in Keys(o.contributions) ==>
            forall k :: 0 <= k < |SpecsFor(o.contributions, stack)| ==>
              Authenticates(SpecsFor(o.contributions, stack)[k], o.secrets, env.store, stack.namespace))
  {
    hide Routed, Keys, SpecsFor, Authenticates, AllNamespaces, TargetsRight, Unique;
    var o := Routed(scs, env, secrets).value;
    RoutedSecrets(scs, env, secrets);
    if stack in Keys(o.contributions) {
      KeysAre(o.contributions, stack);
      var i :| 0 <= i < |o.contributions| && o.contributions[i].stack == stack;
      assert Provided(o.secrets, env, stack.namespace);
      GroupBy(scs, env, secrets, stack);
      WantedSafe(scs, env, stack);
      forall k | 0 <= k < |SpecsFor(o.contributions, stack)|
        ensures Authenticates(SpecsFor(o.contributions, stack)[k], o.secrets, env.store, stack.namespace)
      {
        SafeAuthenticates(SpecsFor(o.contributions, stack)[k], o.secrets, env, stack.namespace);
      }
    }
  }

  /** The remote writes of the addon's own server authenticate with copies in the install namespace,
      if that has them. */
  lemma ServerClosure(scs: seq<ScrapeConfig>, env: Env, secrets: seq<Copy>)
    requires Unique(secrets) && TargetsRight(secrets, env) && env.caTarget != env.certTarget
    requires Has(secrets, env.caTarget, "") && Has(secrets, env.certTarget, "")
    requires Routed(scs, env, secrets).Ok?
    ensures var o := Routed(scs, env, secrets).value;
      forall k :: 0 <= k < |o.server| ==> Authenticates(o.server[k], o.secrets, env.store, "")
  {
    hide Routed, Authenticates, AllNamespaces, TargetsRight, Unique, Has, ServerWanted;
    var o := Routed(scs, env, secrets).value;
    RoutedSecrets(scs, env, secrets);
    ProvidedLonger(secrets, o.secrets, env, "");
    GroupBy(scs, env, secrets, Address("", ""));
    ServerSafe(scs, env);
    forall k | 0 <= k < |o.server| ensures Authenticates(o.server[k], o.secrets, env.store, "") {
      SafeAuthenticates(o.server[k], o.secrets, env, "");
    }
  }

  // ---------------------------------------------------------------- marks

  /** Marking changes the component label alone, gives it the suffix, and happens once. */
  lemma MarkedOnce(sc: ScrapeConfig)
    ensures Marked(sc).(labels := sc.labels) == sc
    ensures Marked(sc).labels - {COMPONENT_LABEL} == sc.labels - {COMPONENT_LABEL}
    ensures COMPONENT_LABEL in Marked(sc).labels <==> COMPONENT_LABEL in sc.labels
    ensures COMPONENT_LABEL in sc.labels ==>
              Marked(sc).labels[COMPONENT_LABEL] ==
                sc.labels[COMPONENT_LABEL] + if EndsRaw(sc.labels[COMPONENT_LABEL]) then "" else "-raw"
    ensures Marked(Marked(sc)) == Marked(sc)
  {
    if COMPONENT_LABEL in sc.labels {
      var value := sc.labels[COMPONENT_LABEL];
      assert (value + RAW_SUFFIX)[|value|..] == RAW_SUFFIX;
      assert value + "" == value;
      if HasSuffix(value, RAW_SUFFIX) {
        assert value == value[..|value| - |RAW_SUFFIX|] + "-raw";
      }
      if start :| value == start + "-raw" {
        assert value[|value| - |RAW_SUFFIX|..] == RAW_SUFFIX;
      }
    }
  }

  ghost predicate EndsRaw(value: string) {
    exists start :: value == start + "-raw"
  }

  // ---------------------------------------------------------------- what a routed spec collects

  /** The spec has the other's settings apart from its name, its TLS configuration and its rules. */
  ghost predicate SameSettings(spec: RemoteWrite<Rule>, rw: RemoteWrite<Rule>) {
    spec.(name := None, tls := None, rules := []) == rw.(name := None, tls := None, rules := [], other := None)
  }

  /** Routing does not change what a spec collects: it filters by the `match[]` entries of its scrape
      config and then applies that config's own rules. */
  lemma RoutedSpecFilters(sc: ScrapeConfig, env: Env, m: Labels)
    requires sc.source.matches.Some? && AllParse(sc.source.matches.value) && !AllEmpty(sc.source.matches.value)
    requires NoTemp(m) && EntriesExact(sc.source.matches.value, m)
    ensures SpecsOf(sc, env).Ok?
    ensures forall k :: 0 <= k < |SpecsOf(sc, env).value| ==>
              FiltersThenRuns(SpecsOf(sc, env).value[k], sc.source.matches.value, sc.source.custom, m)
    ensures |SpecsOf(sc, env).value| == |Targets(env.agent)|
    ensures forall k :: 0 <= k < |Targets(env.agent)| ==> SameSettings(SpecsOf(sc, env).value[k], Targets(env.agent)[k])
  {
    hide EntriesExact, SomeEntryMatches, TranspileSpec;
    TranspileFilters(sc.source, env.agent, m);
    var rws := TranspileSpec(Some(sc.source), env.agent).value;
    forall k | 0 <= k < |rws| ensures FiltersThenRuns(Retargeted(rws[k], sc, env), sc.source.matches.value, sc.source.custom, m) {
      assert FiltersThenRuns(rws[k], sc.source.matches.value, sc.source.custom, m);
    }
    forall k | 0 <= k < |rws| ensures SameSettings(Retargeted(rws[k], sc, env), Targets(env.agent)[k]) {
      assert rws[k].(rules := []) == Targets(env.agent)[k].(rules := [], other := None);
    }
  }
}
