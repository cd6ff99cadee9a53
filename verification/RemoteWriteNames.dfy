/** Names of the remote writes that routing makes: Prometheus wants them unique, and whether they are
    depends on the names the agent's own remote writes carry
    (internal/metrics/handlers/handler.go). */
module RemoteWriteNames {
  import opened Wrappers
  import opened Relabel
  import opened RemoteWrites
  import opened Transpiler
  import opened TranspilerCorrectness
  import opened AgentBuild
  import opened Routing
  import opened RoutingProperties

  /** What comes before the name of the scrape config; `acm` for a remote write without a name. */
  function Stem(specName: Option<string>): string {
    (match specName
     case None => "acm"
     case Some(name) => if "acm-" <= name then name else "acm-" + name) + "-"
  }

  /** The name made without the name of a scrape config. */
  function Bare(specName: Option<string>): string {
    match specName
    case None => REMOTE_WRITE_NAME
    case Some(name) => if "acm-" <= name then name else "acm-" + name
  }

  predicate Comparable(x: string, y: string) {
    x <= y || y <= x
  }

  lemma NameIs(specName: Option<string>, c: string)
    ensures RemoteWriteName(specName, c) == if c != "" then Stem(specName) + c else Bare(specName)
  {
    assert specName.None? ==> Stem(specName) == "acm-";
  }

  lemma SameTail(prefix: string, a: string, b: string)
    ensures prefix + a == prefix + b <==> a == b
  {
    if prefix + a == prefix + b {
      assert a == (prefix + a)[|prefix|..];
      assert b == (prefix + b)[|prefix|..];
    }
  }

  /** Two prefixes of one text are comparable. */
  lemma PrefixesCompare(x: string, a: string, y: string, b: string)
    requires x + a == y + b
    ensures Comparable(x, y)
  {
    if |x| <= |y| {
      assert x == (x + a)[..|x|] == (y + b)[..|x|] == y[..|x|];
    } else {
      assert y == (y + b)[..|y|] == (x + a)[..|y|] == x[..|y|];
    }
  }

  /** Names of scrape configs that make two comparable stems meet; equal ones only for equal stems. */
  lemma Meeting(x: string, y: string) returns (a: string, b: string)
    requires Comparable(x, y)
    ensures a != "" && b != "" && x + a == y + b
    ensures a == b <==> x == y
  {
    if x <= y {
      a, b := y[|x|..] + "x", "x";
      assert y == x + y[|x|..];
    } else {
      a, b := "x", x[|y|..] + "x";
      assert x == y + x[|y|..];
    }
    SameTail(x, a, b);
    if a == b {
      assert |x| == |y|;
    }
  }

  /** Two remote writes of the agent can get the same name for some scrape configs exactly if one
      stem is a prefix of the other. The condition reads the agent's own names only. */
  lemma NamesMeetIff(s: Option<string>, t: Option<string>)
    ensures (exists a, b :: a != "" && b != "" && RemoteWriteName(s, a) == RemoteWriteName(t, b))
       <==> Comparable(Stem(s), Stem(t))
  {
    hide RemoteWriteName, Stem, Comparable;
    if a, b :| a != "" && b != "" && RemoteWriteName(s, a) == RemoteWriteName(t, b) {
      NameIs(s, a);
      NameIs(t, b);
      PrefixesCompare(Stem(s), a, Stem(t), b);
    }
    if Comparable(Stem(s), Stem(t)) {
      var a, b := Meeting(Stem(s), Stem(t));
      NameIs(s, a);
      NameIs(t, b);
      assert RemoteWriteName(s, a) == RemoteWriteName(t, b);
    }
  }

  /** For one scrape config they get the same name exactly if the stems, or without a name of the
      scrape config the bare names, are equal. */
  lemma SameConfigMeetIff(s: Option<string>, t: Option<string>, c: string)
    ensures RemoteWriteName(s, c) == RemoteWriteName(t, c) <==> if c != "" then Stem(s) == Stem(t) else Bare(s) == Bare(t)
  {
    hide RemoteWriteName, Stem, Bare;
    NameIs(s, c);
    NameIs(t, c);
    if c != "" && Stem(s) + c == Stem(t) + c {
      assert |Stem(s)| == |Stem(t)|;
      assert Stem(s) == (Stem(s) + c)[..|Stem(s)|] == (Stem(t) + c)[..|Stem(t)|] == Stem(t);
    }
  }

  /** A scrape config without a name meets a named one exactly if the bare name continues the stem. */
  lemma BareMeetsIff(s: Option<string>, t: Option<string>)
    ensures (exists b :: b != "" && RemoteWriteName(s, "") == RemoteWriteName(t, b)) <==> Stem(t) < Bare(s)
  {
    hide RemoteWriteName, Stem, Bare;
    NameIs(s, "");
    if b :| b != "" && RemoteWriteName(s, "") == RemoteWriteName(t, b) {
      NameIs(t, b);
    }
    if Stem(t) < Bare(s) {
      var b := Bare(s)[|Stem(t)|..];
      NameIs(t, b);
      assert Bare(s) == Stem(t) + b;
      assert RemoteWriteName(s, "") == RemoteWriteName(t, b);
    }
  }

  /** The remote writes made from one remote write of the agent have the same name exactly if their
      scrape configs do. */
  lemma NamesDistinctIff(specName: Option<string>, a: string, b: string)
    ensures RemoteWriteName(specName, a) == RemoteWriteName(specName, b) <==>
            a == b || (specName.None? && ((a == "observability" && b == "") || (a == "" && b == "observability")))
  {
    var stem := Stem(specName);
    NameIs(specName, a);
    NameIs(specName, b);
    SameTail(stem, a, b);
    if specName.None? {
      assert REMOTE_WRITE_NAME == stem + "observability";
      SameTail(stem, a, "observability");
      SameTail(stem, b, "observability");
    } else if a == "" || b == "" {
      assert |stem + a| != |Bare(specName)| && |stem + b| != |Bare(specName)|;
    }
  }

  /** Instances: one name with the prefix left off, and one name that continues the other. */
  lemma NamesCollide()
    ensures RemoteWriteName(Some("a"), "c") == RemoteWriteName(Some("acm-a"), "c")
    ensures RemoteWriteName(Some("acm-a"), "b-c") == RemoteWriteName(Some("acm-a-b"), "c")
  {
    assert !("acm-" <= "a");
    assert "acm-" <= "acm-a" && "acm-" <= "acm-a-b";
  }

  // ---------------------------------------------------------------- a given list of scrape configs

  predicate DistinctSpecNames(specs: seq<RemoteWrite<Rule>>) {
    forall i, j :: 0 <= i < j < |specs| ==> specs[i].name != specs[j].name
  }

  lemma SpecNames(sc: ScrapeConfig, env: Env)
    ensures var specs := SpecsFrom(sc, env);
      specs == [] || (|specs| == |Targets(env.agent)|
        && forall k :: 0 <= k < |specs| ==> specs[k].name == Some(RemoteWriteName(Targets(env.agent)[k].name, sc.name)))
  {
    hide Compile, RemoteWriteName, ParsedSelectors;
    var source := sc.source;
    assert Marked(sc).source == source && Marked(sc).name == sc.name;
    if SpecsFrom(sc, env) != [] {
      TranspileProduces(source, env.agent, ParsedSelectors(source.matches.value).value);
    }
  }

  lemma RepeatOnce(specs: seq<RemoteWrite<Rule>>, n: nat)
    requires n <= 1
    ensures Repeat(specs, n) == if n == 0 then [] else specs
  {
    if n == 1 {
      assert Repeat(specs, 0) + specs == specs;
    }
  }

  lemma DistinctConcat(xs: seq<RemoteWrite<Rule>>, ys: seq<RemoteWrite<Rule>>)
    requires DistinctSpecNames(xs) && DistinctSpecNames(ys)
    requires forall i, j :: 0 <= i < |xs| && 0 <= j < |ys| ==> xs[i].name != ys[j].name
    ensures DistinctSpecNames(xs + ys)
  {
  }

  /** The scrape config adds remote writes to the stack. */
  predicate Contributes(sc: ScrapeConfig, env: Env, stack: Address) {
    env.isOCP && AsksForRaw(sc) && Times(Stacks(sc), stack) >= 1 && SpecsFrom(sc, env) != []
  }

  /** The name that the agent's remote write `k` gets for a scrape config of this name. */
  function NameFor(env: Env, k: nat, name: string): string
    requires k < |Targets(env.agent)|
  {
    RemoteWriteName(Targets(env.agent)[k].name, name)
  }

  /** No contributing scrape config names the stack more than once. */
  predicate OnceEach(scs: seq<ScrapeConfig>, env: Env, stack: Address) {
    forall i :: 0 <= i < |scs| && Contributes(scs[i], env, stack) ==> Times(Stacks(scs[i]), stack) == 1
  }

  /** Different remote writes of the agent make different names for this scrape config. */
  predicate ApartItself(sc: ScrapeConfig, env: Env) {
    forall k, l :: 0 <= k < l < |Targets(env.agent)| ==> NameFor(env, k, sc.name) != NameFor(env, l, sc.name)
  }

  /** No remote write of the agent makes for one of the scrape configs what one makes for the other. */
  predicate Apart(sc: ScrapeConfig, sc': ScrapeConfig, env: Env) {
    forall k, l :: 0 <= k < |Targets(env.agent)| && 0 <= l < |Targets(env.agent)| ==> NameFor(env, k, sc.name) != NameFor(env, l, sc'.name)
  }

  predicate AllApart(scs: seq<ScrapeConfig>, env: Env, stack: Address) {
    && (forall i :: 0 <= i < |scs| && Contributes(scs[i], env, stack) ==> ApartItself(scs[i], env))
    && (forall i, j :: 0 <= i < j < |scs| && Contributes(scs[i], env, stack) && Contributes(scs[j], env, stack) ==> Apart(scs[i], scs[j], env))
  }

  /** What one scrape config adds. */
  function Added1(sc: ScrapeConfig, env: Env, stack: Address): seq<RemoteWrite<Rule>> {
    if env.isOCP && AsksForRaw(sc) then Repeat(SpecsFrom(sc, env), Times(Stacks(sc), stack)) else []
  }

  lemma {:induction false} RepeatNothing(n: nat)
    ensures Repeat([], n) == []
  {
    if n > 0 {
      RepeatNothing(n - 1);
    }
  }

  lemma {:induction false} RepeatHas(specs: seq<RemoteWrite<Rule>>, n: nat, spec: RemoteWrite<Rule>)
    ensures spec in Repeat(specs, n) <==> n >= 1 && spec in specs
    ensures n >= 2 && specs != [] ==> !DistinctSpecNames(Repeat(specs, n))
  {
    if n >= 1 {
      RepeatHas(specs, n - 1, spec);
      if n >= 2 && specs != [] {
        RepeatHas(specs, n - 1, specs[0]);
        var before, all := Repeat(specs, n - 1), Repeat(specs, n);
        var i :| 0 <= i < |before| && before[i] == specs[0];
        assert all[i].name == all[|before|].name;
      }
    }
  }

  predicate Named(specs: seq<RemoteWrite<Rule>>, name: Option<string>) {
    exists i :: 0 <= i < |specs| && specs[i].name == name
  }

  /** Some remote write of the agent makes the name for this scrape config. */
  predicate Made(sc: ScrapeConfig, env: Env, name: Option<string>) {
    exists k :: 0 <= k < |Targets(env.agent)| && name == Some(NameFor(env, k, sc.name))
  }

  lemma RepeatNamed(specs: seq<RemoteWrite<Rule>>, n: nat, name: Option<string>)
    ensures Named(Repeat(specs, n), name) <==> n >= 1 && Named(specs, name)
  {
    hide Repeat, DistinctSpecNames;
    var all := Repeat(specs, n);
    if i :| 0 <= i < |all| && all[i].name == name {
      RepeatHas(specs, n, all[i]);
      var j :| 0 <= j < |specs| && specs[j] == all[i];
    }
    if i :| 0 <= i < |specs| && specs[i].name == name {
      RepeatHas(specs, n, specs[i]);
      if n >= 1 {
        var j :| 0 <= j < |all| && all[j] == specs[i];
      }
    }
  }

  lemma SpecsNamed(sc: ScrapeConfig, env: Env, name: Option<string>)
    ensures SpecsFrom(sc, env) != [] ==> (Named(SpecsFrom(sc, env), name) <==> Made(sc, env, name))
  {
    hide SpecsFrom, RemoteWriteName, Targets;
    SpecNames(sc, env);
    var specs := SpecsFrom(sc, env);
    if k :| 0 <= k < |Targets(env.agent)| && name == Some(NameFor(env, k, sc.name)) {
      assert specs != [] ==> specs[k].name == name;
    }
    if i :| 0 <= i < |specs| && specs[i].name == name {
      assert name == Some(NameFor(env, i, sc.name));
    }
  }

  /** The names a scrape config adds. */
  lemma AddedNamed(sc: ScrapeConfig, env: Env, stack: Address, name: Option<string>)
    ensures Named(Added1(sc, env, stack), name) <==> Contributes(sc, env, stack) && Made(sc, env, name)
  {
    hide SpecsFrom, Stacks, AsksForRaw, Times, Repeat, Made, Named;
    var specs, n := SpecsFrom(sc, env), Times(Stacks(sc), stack);
    NoneNamed(name);
    if specs == [] {
      RepeatNothing(n);
    } else {
      SpecsNamed(sc, env, name);
      RepeatNamed(specs, n, name);
    }
  }

  lemma NoneNamed(name: Option<string>)
    ensures !Named([], name)
  {
  }

  /** They are distinct exactly if the scrape config names the stack once and the agent's remote writes
      make different names for it. */
  lemma AddedDistinct(sc: ScrapeConfig, env: Env, stack: Address)
    ensures DistinctSpecNames(Added1(sc, env, stack)) <==>
            (Contributes(sc, env, stack) ==> Times(Stacks(sc), stack) == 1 && ApartItself(sc, env))
  {
    hide SpecsFrom, Stacks, AsksForRaw, Times, Repeat, Targets, DistinctSpecNames, ApartItself;
    var specs, n := SpecsFrom(sc, env), Times(Stacks(sc), stack);
    NothingDistinct();
    if specs == [] {
      RepeatNothing(n);
    } else {
      RepeatHas(specs, n, specs[0]);
      if n <= 1 {
        RepeatOnce(specs, n);
      }
      SpecNames(sc, env);
      DistinctIsApart(specs, sc, env);
    }
  }

  lemma DistinctIsApart(specs: seq<RemoteWrite<Rule>>, sc: ScrapeConfig, env: Env)
    requires |specs| == |Targets(env.agent)|
    requires forall k :: 0 <= k < |specs| ==> specs[k].name == Some(RemoteWriteName(Targets(env.agent)[k].name, sc.name))
    ensures DistinctSpecNames(specs) <==> ApartItself(sc, env)
  {
    hide RemoteWriteName, Targets;
    if ApartItself(sc, env) {
      forall i, j | 0 <= i < j < |specs| ensures specs[i].name != specs[j].name {
        assert NameFor(env, i, sc.name) != NameFor(env, j, sc.name);
      }
    }
    if DistinctSpecNames(specs) {
      forall k, l | 0 <= k < l < |Targets(env.agent)| ensures NameFor(env, k, sc.name) != NameFor(env, l, sc.name) {
        assert specs[k].name != specs[l].name;
      }
    }
  }

  predicate Crossing(xs: seq<RemoteWrite<Rule>>, ys: seq<RemoteWrite<Rule>>) {
    exists i, j :: 0 <= i < |xs| && 0 <= j < |ys| && xs[i].name == ys[j].name
  }

  lemma DistinctConcatIff(xs: seq<RemoteWrite<Rule>>, ys: seq<RemoteWrite<Rule>>)
    ensures DistinctSpecNames(xs + ys) <==> DistinctSpecNames(xs) && DistinctSpecNames(ys) && !Crossing(xs, ys)
  {
    var all := xs + ys;
    if DistinctSpecNames(all) {
      forall i, j | 0 <= i < j < |xs| ensures xs[i].name != xs[j].name {
        assert all[i].name != all[j].name;
      }
      forall i, j | 0 <= i < j < |ys| ensures ys[i].name != ys[j].name {
        assert all[|xs| + i].name != all[|xs| + j].name;
      }
      forall i, j | 0 <= i < |xs| && 0 <= j < |ys| ensures xs[i].name != ys[j].name {
        assert all[i].name != all[|xs| + j].name;
      }
    }
    if DistinctSpecNames(xs) && DistinctSpecNames(ys) && !Crossing(xs, ys) {
      DistinctConcat(xs, ys);
    }
  }

  lemma CrossingConcat(xs: seq<RemoteWrite<Rule>>, ys: seq<RemoteWrite<Rule>>, zs: seq<RemoteWrite<Rule>>)
    ensures Crossing(xs + ys, zs) <==> Crossing(xs, zs) || Crossing(ys, zs)
  {
    var all := xs + ys;
    if i, j :| 0 <= i < |xs| && 0 <= j < |zs| && xs[i].name == zs[j].name {
      assert all[i].name == zs[j].name;
    }
    if i, j :| 0 <= i < |ys| && 0 <= j < |zs| && ys[i].name == zs[j].name {
      assert all[|xs| + i].name == zs[j].name;
    }
    if i, j :| 0 <= i < |all| && 0 <= j < |zs| && all[i].name == zs[j].name {
      if i < |xs| { assert xs[i].name == zs[j].name; } else { assert ys[i - |xs|].name == zs[j].name; }
    }
  }

  lemma CrossingIsNamed(xs: seq<RemoteWrite<Rule>>, ys: seq<RemoteWrite<Rule>>)
    ensures Crossing(xs, ys) <==> exists name :: Named(xs, name) && Named(ys, name)
  {
    if i, j :| 0 <= i < |xs| && 0 <= j < |ys| && xs[i].name == ys[j].name {
      assert Named(xs, xs[i].name) && Named(ys, xs[i].name);
    }
    if name :| Named(xs, name) && Named(ys, name) {
      var i :| 0 <= i < |xs| && xs[i].name == name;
      var j :| 0 <= j < |ys| && ys[j].name == name;
    }
  }

  lemma ApartIsMade(sc: ScrapeConfig, sc': ScrapeConfig, env: Env)
    ensures !Apart(sc, sc', env) <==> exists name :: Made(sc, env, name) && Made(sc', env, name)
  {
    hide NameFor, Targets;
    if k, l :| 0 <= k < |Targets(env.agent)| && 0 <= l < |Targets(env.agent)| && NameFor(env, k, sc.name) == NameFor(env, l, sc'.name) {
      assert Made(sc, env, Some(NameFor(env, k, sc.name))) && Made(sc', env, Some(NameFor(env, k, sc.name)));
    }
    if name :| Made(sc, env, name) && Made(sc', env, name) {
      var k :| 0 <= k < |Targets(env.agent)| && name == Some(NameFor(env, k, sc.name));
      var l :| 0 <= l < |Targets(env.agent)| && name == Some(NameFor(env, l, sc'.name));
    }
  }

  lemma AddedCrossing(sc: ScrapeConfig, sc': ScrapeConfig, env: Env, stack: Address)
    ensures Crossing(Added1(sc, env, stack), Added1(sc', env, stack)) <==>
            Contributes(sc, env, stack) && Contributes(sc', env, stack) && !Apart(sc, sc', env)
  {
    hide Added1, Contributes, Named, Made, Crossing, Apart;
    forall name: Option<string>
      ensures Named(Added1(sc, env, stack), name) <==> Contributes(sc, env, stack) && Made(sc, env, name)
      ensures Named(Added1(sc', env, stack), name) <==> Contributes(sc', env, stack) && Made(sc', env, name)
    {
      AddedNamed(sc, env, stack, name);
      AddedNamed(sc', env, stack, name);
    }
    CrossingIsNamed(Added1(sc, env, stack), Added1(sc', env, stack));
    ApartIsMade(sc, sc', env);
  }

  /** The last scrape config meets an earlier one. */
  predicate MeetsEarlier(scs: seq<ScrapeConfig>, last: ScrapeConfig, env: Env, stack: Address) {
    exists i :: 0 <= i < |scs| && Contributes(scs[i], env, stack) && Contributes(last, env, stack) && !Apart(scs[i], last, env)
  }

  lemma {:induction false} WantedCrossing(scs: seq<ScrapeConfig>, last: ScrapeConfig, env: Env, stack: Address)
    ensures Crossing(Wanted(scs, env, stack), Added1(last, env, stack)) <==> MeetsEarlier(scs, last, env, stack)
  {
    hide Added1, Contributes, Apart;
    if scs == [] {
      NothingWanted(env, stack);
    } else {
      var init, sc := scs[..|scs| - 1], scs[|scs| - 1];
      WantedSnoc(init, sc, env, stack);
      assert scs == init + [sc];
      WantedCrossing(init, last, env, stack);
      CrossingConcat(Wanted(init, env, stack), Added1(sc, env, stack), Added1(last, env, stack));
      AddedCrossing(sc, last, env, stack);
      if i :| 0 <= i < |init| && Contributes(init[i], env, stack) && Contributes(last, env, stack) && !Apart(init[i], last, env) {
        assert scs[i] == init[i];
      }
      if i :| 0 <= i < |scs| && Contributes(scs[i], env, stack) && Contributes(last, env, stack) && !Apart(scs[i], last, env) {
        if i < |init| { assert init[i] == scs[i]; }
      }
    }
  }

  lemma NothingWanted(env: Env, stack: Address)
    ensures Wanted([], env, stack) == []
  {
  }

  lemma WantedSnoc(scs: seq<ScrapeConfig>, sc: ScrapeConfig, env: Env, stack: Address)
    ensures Wanted(scs + [sc], env, stack) == Wanted(scs, env, stack) + Added1(sc, env, stack)
  {
    hide SpecsFrom, Stacks, AsksForRaw, Repeat, Times;
    assert (scs + [sc])[..|scs + [sc]| - 1] == scs;
  }

  lemma AllApartSnoc(scs: seq<ScrapeConfig>, sc: ScrapeConfig, env: Env, stack: Address)
    ensures AllApart(scs + [sc], env, stack) <==>
            AllApart(scs, env, stack) && (Contributes(sc, env, stack) ==> ApartItself(sc, env)) && !MeetsEarlier(scs, sc, env, stack)
    ensures OnceEach(scs + [sc], env, stack) <==>
            OnceEach(scs, env, stack) && (Contributes(sc, env, stack) ==> Times(Stacks(sc), stack) == 1)
  {
    hide Contributes, Apart, ApartItself, Times, Stacks;
    var all := scs + [sc];
    assert all[|scs|] == sc;
    assert forall i :: 0 <= i < |scs| ==> all[i] == scs[i];
  }

  /** For a given list of scrape configs, the remote writes of a stack have distinct names exactly if no
      contributing scrape config names the stack twice and no two names that the agent's remote writes
      make for contributing scrape configs are equal. */
  lemma {:induction false} ListedNamesIff(scs: seq<ScrapeConfig>, env: Env, stack: Address)
    ensures DistinctSpecNames(Wanted(scs, env, stack)) <==> OnceEach(scs, env, stack) && AllApart(scs, env, stack)
  {
    hide Added1, Contributes, ApartItself, Apart, DistinctSpecNames, OnceEach, AllApart, Crossing, MeetsEarlier, Wanted, Times, Stacks;
    if scs == [] {
      NothingWanted(env, stack);
      NothingListed(env, stack);
    } else {
      var init, sc := scs[..|scs| - 1], scs[|scs| - 1];
      assert scs == init + [sc];
      ListedNamesIff(init, env, stack);
      WantedSnoc(init, sc, env, stack);
      DistinctConcatIff(Wanted(init, env, stack), Added1(sc, env, stack));
      AddedDistinct(sc, env, stack);
      WantedCrossing(init, sc, env, stack);
      AllApartSnoc(init, sc, env, stack);
    }
  }

  lemma NothingDistinct()
    ensures DistinctSpecNames([])
  {
  }

  lemma NothingListed(env: Env, stack: Address)
    ensures OnceEach([], env, stack) && AllApart([], env, stack) && DistinctSpecNames([])
  {
  }

  // ---------------------------------------------------------------- all scrape configs of one stack

  /** No stem of the agent's remote writes is a prefix of another's. */
  predicate PrefixFree(env: Env) {
    var rws := Targets(env.agent);
    forall i, j :: 0 <= i < j < |rws| ==> !Comparable(Stem(rws[i].name), Stem(rws[j].name))
  }

  /** Two remote writes without a name are enough to break that. */
  lemma UnnamedNotPrefixFree(env: Env, i: nat, j: nat)
    requires i < j < |Targets(env.agent)| && Targets(env.agent)[i].name.None? && Targets(env.agent)[j].name.None?
    ensures !PrefixFree(env)
  {
    assert Comparable(Stem(Targets(env.agent)[i].name), Stem(Targets(env.agent)[j].name));
  }

  /** Scrape configs with distinct non-empty names, each naming the stack at most once. */
  predicate Proper(scs: seq<ScrapeConfig>, stack: Address) {
    && (forall k :: 0 <= k < |scs| ==> scs[k].name != "" && Times(Stacks(scs[k]), stack) <= 1)
    && forall k, l :: 0 <= k < l < |scs| ==> scs[k].name != scs[l].name
  }

  /** Whatever scrape configs are routed to the stack, its remote writes have distinct names. */
  ghost predicate AlwaysDistinct(env: Env, stack: Address) {
    forall scs :: Proper(scs, stack) ==> DistinctSpecNames(Wanted(scs, env, stack))
  }

  /** With prefix-free stems, different remote writes of the agent or different scrape configs make
      different names. */
  lemma PairsDiffer(env: Env, k: nat, a: string, l: nat, b: string)
    requires PrefixFree(env) && k < |Targets(env.agent)| && l < |Targets(env.agent)|
    requires a != "" && b != "" && (k != l || a != b)
    ensures RemoteWriteName(Targets(env.agent)[k].name, a) != RemoteWriteName(Targets(env.agent)[l].name, b)
  {
    hide RemoteWriteName, Stem, Targets;
    var s, t := Targets(env.agent)[k].name, Targets(env.agent)[l].name;
    NameIs(s, a);
    NameIs(t, b);
    if RemoteWriteName(s, a) == RemoteWriteName(t, b) {
      if k == l {
        SameTail(Stem(s), a, b);
      } else {
        PrefixesCompare(Stem(s), a, Stem(t), b);
      }
    }
  }

  lemma PrefixFreeApart(sc: ScrapeConfig, sc': ScrapeConfig, env: Env)
    requires PrefixFree(env) && sc.name != "" && sc'.name != ""
    ensures ApartItself(sc, env)
    ensures sc.name != sc'.name ==> Apart(sc, sc', env)
  {
    hide PrefixFree, Targets, RemoteWriteName;
    forall k, l | 0 <= k < l < |Targets(env.agent)| ensures NameFor(env, k, sc.name) != NameFor(env, l, sc.name) {
      PairsDiffer(env, k, sc.name, l, sc.name);
    }
    if sc.name != sc'.name {
      forall k, l | 0 <= k < |Targets(env.agent)| && 0 <= l < |Targets(env.agent)|
        ensures NameFor(env, k, sc.name) != NameFor(env, l, sc'.name)
      {
        PairsDiffer(env, k, sc.name, l, sc'.name);
      }
    }
  }

  lemma PrefixFreeDistinct(scs: seq<ScrapeConfig>, env: Env, stack: Address)
    requires PrefixFree(env) && Proper(scs, stack)
    ensures DistinctSpecNames(Wanted(scs, env, stack))
  {
    hide PrefixFree, Apart, ApartItself, Stacks, SpecsFrom, AsksForRaw, Times, Wanted, DistinctSpecNames;
    forall i, j | 0 <= i < |scs| && 0 <= j < |scs|
      ensures ApartItself(scs[i], env) && (i < j ==> Apart(scs[i], scs[j], env))
    {
      PrefixFreeApart(scs[i], scs[j], env);
    }
    ListedNamesIff(scs, env, stack);
  }

  /** A scrape config that names the stack and makes remote writes for it. */
  predicate Routes(proto: ScrapeConfig, env: Env, stack: Address) {
    Contributes(proto, env, stack) && Times(Stacks(proto), stack) == 1
  }

  /** So does the same scrape config with another name. */
  lemma RoutesRenamed(proto: ScrapeConfig, env: Env, stack: Address, c: string)
    ensures Routes(proto, env, stack) ==> Routes(proto.(name := c), env, stack)
  {
    hide TranspileSpec, RemoteWriteName, Times;
    assert Marked(proto.(name := c)) == Marked(proto).(name := c);
  }

  lemma NotAlways(env: Env, stack: Address, scs: seq<ScrapeConfig>)
    ensures Proper(scs, stack) && !AllApart(scs, env, stack) ==> !AlwaysDistinct(env, stack)
  {
    hide Wanted, Proper, DistinctSpecNames, AllApart, OnceEach;
    if Proper(scs, stack) && !AllApart(scs, env, stack) {
      ListedNamesIff(scs, env, stack);
    }
  }

  lemma CollideOne(x: ScrapeConfig, env: Env, stack: Address)
    requires x.name != "" && !ApartItself(x, env)
    ensures Routes(x, env, stack) ==> !AlwaysDistinct(env, stack)
  {
    hide ApartItself, Contributes, Times, Stacks, AlwaysDistinct;
    if Routes(x, env, stack) {
      assert [x][0] == x;
      NotAlways(env, stack, [x]);
    }
  }

  lemma CollideTwo(x: ScrapeConfig, y: ScrapeConfig, env: Env, stack: Address)
    requires x.name != "" && y.name != "" && x.name != y.name && !Apart(x, y, env)
    ensures Routes(x, env, stack) && Routes(y, env, stack) ==> !AlwaysDistinct(env, stack)
  {
    hide Apart, ApartItself, Contributes, Times, Stacks, AlwaysDistinct;
    if Routes(x, env, stack) && Routes(y, env, stack) {
      var scs := [x, y];
      assert scs[0] == x && scs[1] == y;
      NotAlways(env, stack, scs);
    }
  }

  /** Comparable stems make two specs of one stack share a name, for one or two scrape configs. */
  lemma ComparableCollide(proto: ScrapeConfig, env: Env, stack: Address)
    requires !PrefixFree(env)
    ensures Routes(proto, env, stack) ==> !AlwaysDistinct(env, stack)
  {
    hide Routes, AlwaysDistinct, RemoteWriteName, Targets, Stem, Comparable;
    var rws := Targets(env.agent);
    var i, j :| 0 <= i < j < |rws| && Comparable(Stem(rws[i].name), Stem(rws[j].name));
    var a, b := Meeting(Stem(rws[i].name), Stem(rws[j].name));
    NameIs(rws[i].name, a);
    NameIs(rws[j].name, b);
    var x, y := proto.(name := a), proto.(name := b);
    assert NameFor(env, i, x.name) == NameFor(env, j, y.name);
    RoutesRenamed(proto, env, stack, a);
    RoutesRenamed(proto, env, stack, b);
    if a == b {
      CollideOne(x, env, stack);
    } else {
      CollideTwo(x, y, env, stack);
    }
  }

  /** The remote writes of a stack have distinct names for all scrape configs with distinct names that
      name the stack once exactly if no stem of the agent's remote writes is a prefix of another's.
      `proto` is some scrape config that is routed to the stack. */
  lemma StackNamesIff(proto: ScrapeConfig, env: Env, stack: Address)
    ensures Routes(proto, env, stack) ==> (AlwaysDistinct(env, stack) <==> PrefixFree(env))
  {
    hide Routes, PrefixFree, Proper, DistinctSpecNames, Wanted;
    if PrefixFree(env) {
      forall scs | Proper(scs, stack) ensures DistinctSpecNames(Wanted(scs, env, stack)) {
        PrefixFreeDistinct(scs, env, stack);
      }
    } else {
      ComparableCollide(proto, env, stack);
    }
  }
}
