/** The compiler from Prometheus federation selectors to a relabel program
    (internal/metrics/remotewrite/transpiler.go). A selector is a conjunction of label matchers
    and a list of selectors is their disjunction; the program computes that disjunction with
    temporary labels. */
module Transpiler {
  import opened Wrappers
  import opened Text
  import opened Regex
  import opened Relabel
  import opened RemoteWrites
  import opened Sorting

  datatype MatchType = MatchEqual | MatchNotEqual | MatchRegexp | MatchNotRegexp

  /** A parsed label matcher. `value` is the text the user wrote; `re` is what that text denotes
      when the matcher is a regular-expression matcher. */
  datatype Matcher = Matcher(kind: MatchType, name: string, value: string, re: Re)

  type Selector = seq<Matcher>

  /** A regular expression as the compiler writes it: its text, used for ordering, and its meaning. */
  datatype Pattern = Pattern(text: string, re: Re)

  datatype PosMatcher = PosMatcher(name: string, pattern: Pattern)

  const KEEP := "keep"
  const TMP_KEEP := "__tmp_keep"

  function TmpLabel(i: nat): string {
    TMP_KEEP + "_" + Dec(i)
  }

  predicate IsPositive(lm: Matcher) {
    lm.kind.MatchEqual? || lm.kind.MatchRegexp?
  }

  predicate IsMetaChar(c: char) {
    c in "\\.+*?()|[]{}^$"
  }

  /** Go's regexp.QuoteMeta. */
  function QuoteMeta(s: string): string {
    if s == "" then "" else (if IsMetaChar(s[0]) then ['\\', s[0]] else [s[0]]) + QuoteMeta(s[1..])
  }

  /** A literal is quoted, a user expression is wrapped in a non-capturing group. */
  function PatternOf(lm: Matcher): Pattern {
    if lm.kind.MatchEqual? || lm.kind.MatchNotEqual? then Pattern(QuoteMeta(lm.value), Lit(lm.value))
    else Pattern("(?:" + lm.value + ")", lm.re)
  }

  /** The positive matchers in the order they are written. */
  function Positives(sel: Selector): seq<PosMatcher> {
    if sel == [] then []
    else
      var init, last := sel[..|sel| - 1], sel[|sel| - 1];
      Positives(init) + if IsPositive(last) then [PosMatcher(last.name, PatternOf(last))] else []
  }

  predicate Before(a: PosMatcher, b: PosMatcher) {
    var c := Compare(a.name, b.name);
    if c != 0 then c < 0 else Compare(a.pattern.text, b.pattern.text) <= 0
  }

  /** Sorting by label name, then by expression text. */
  function Sorted(pms: seq<PosMatcher>): seq<PosMatcher> {
    SortBy(Before, pms)
  }

  function Names(pms: seq<PosMatcher>): (r: seq<string>)
    ensures |r| == |pms|
  {
    seq(|pms|, i requires 0 <= i < |pms| => pms[i].name)
  }

  function Expressions(pms: seq<PosMatcher>): (r: seq<Re>)
    ensures |r| == |pms|
  {
    seq(|pms|, i requires 0 <= i < |pms| => pms[i].pattern.re)
  }

  function Texts(pms: seq<PosMatcher>): (r: seq<string>)
    ensures |r| == |pms|
  {
    seq(|pms|, i requires 0 <= i < |pms| => pms[i].pattern.text)
  }

  /** The regex field of the marking rule. For a single matcher `n=""` the field is left empty. */
  function MarkField(pms: seq<PosMatcher>): Option<Re> {
    if pms == [] then None else RegexField(Join(Texts(pms), ';'), JoinRe(Expressions(pms)))
  }

  function MarkRule(i: nat, pms: seq<PosMatcher>): Rule {
    Rule(Replace, Names(pms), MarkField(pms), TmpLabel(i), Const(KEEP))
  }

  function ClearRule(i: nat, lm: Matcher): Rule {
    Rule(Replace, [TmpLabel(i), lm.name], Some(Cat(Lit("keep;"), PatternOf(lm).re)), TmpLabel(i), Const(""))
  }

  function ClearRules(i: nat, sel: Selector): seq<Rule> {
    if sel == [] then []
    else
      var init, last := sel[..|sel| - 1], sel[|sel| - 1];
      ClearRules(i, init) + if IsPositive(last) then [] else [ClearRule(i, last)]
  }

  function SelectorRules(i: nat, sel: Selector): seq<Rule> {
    [MarkRule(i, Sorted(Positives(sel)))] + ClearRules(i, sel)
  }

  function AllSelectorRules(sels: seq<Selector>): seq<Rule> {
    if sels == [] then []
    else AllSelectorRules(sels[..|sels| - 1]) + SelectorRules(|sels| - 1, sels[|sels| - 1])
  }

  function TmpLabels(n: nat): seq<string> {
    seq(n, i requires 0 <= i < n => TmpLabel(i))
  }

  const CONTAINS_KEEP := Cat(ANYTHING, Cat(Lit(KEEP), ANYTHING))
  const DROP_RULE := Rule(Replace, [], None, TMP_KEEP, Const("drop"))
  const KEEP_RULE := Rule(Keep, [TMP_KEEP], Some(Lit(KEEP)), "", FirstGroup)
  const CLEANUP_RULE := Rule(LabelDrop, [], Some(Cat(Lit(TMP_KEEP), ANYTHING)), "", FirstGroup)

  function CombineRule(n: nat): Rule {
    Rule(Replace, TmpLabels(n), Some(CONTAINS_KEEP), TMP_KEEP, Const(KEEP))
  }

  function Combination(n: nat): seq<Rule> {
    [DROP_RULE, CombineRule(n), KEEP_RULE, CLEANUP_RULE]
  }

  /** The whole filter program for a list of selectors. */
  function Compile(sels: seq<Selector>): seq<Rule> {
    AllSelectorRules(sels) + Combination(|sels|)
  }

  // ---------------------------------------------------------------- remote write specs

  /** The `match[]` entries of a scrape config, each with the outcome of parsing it, and the
      relabel rules its author added. */
  datatype ScrapeSource = ScrapeSource(matches: Option<seq<Result<Selector, string>>>, custom: seq<Rule>)

  /** The first parse error, or the non-empty selectors in order. */
  function ParsedSelectors(entries: seq<Result<Selector, string>>): Result<seq<Selector>, string> {
    if entries == [] then Ok([])
    else
      var init, last := entries[..|entries| - 1], entries[|entries| - 1];
      var before :- ParsedSelectors(init);
      match last
      case Err(e) => Err(e)
      case Ok(sel) => Ok(if sel == [] then before else before + [sel])
  }

  function ProgramSpec(rw: RemoteWrite<Rule>, rules: seq<Rule>): RemoteWrite<Rule> {
    rw.(rules := rules, other := None)
  }

  function ProgramSpecs(rws: seq<RemoteWrite<Rule>>, rules: seq<Rule>): (r: seq<RemoteWrite<Rule>>)
    ensures |r| == |rws|
    ensures forall i :: 0 <= i < |rws| ==> r[i] == ProgramSpec(rws[i], rules)
  {
    seq(|rws|, i requires 0 <= i < |rws| => ProgramSpec(rws[i], rules))
  }

  /** What Transpile computes. */
  function TranspileSpec(source: Option<ScrapeSource>, agent: Option<seq<RemoteWrite<Rule>>>): Result<seq<RemoteWrite<Rule>>, string> {
    if source.None? || source.value.matches.None? then Ok([])
    else
      var sels :- ParsedSelectors(source.value.matches.value);
      if sels == [] then Ok([])
      else
        var rules := Compile(sels) + source.value.custom;
        if agent.None? || agent.value == [] then Ok([RulesOnly(rules)])
        else Ok(ProgramSpecs(agent.value, rules))
  }

  method Transpile(source: Option<ScrapeSource>, agent: Option<seq<RemoteWrite<Rule>>>)
    returns (res: Result<seq<RemoteWrite<Rule>>, string>)
    ensures res == TranspileSpec(source, agent)
  {
    if source.None? {
      return Ok([]);
    }
    if source.value.matches.None? || |source.value.matches.value| == 0 {
      return Ok([]);
    }
    var parsed := ParseSelectors(source.value.matches.value);
    if parsed.Err? {
      return Err(parsed.error);
    }
    if |parsed.value| == 0 {
      return Ok([]);
    }
    var rules := EmitProgram(parsed.value);
    rules := AppendCustom(rules, source.value.custom);
    if agent.None? || |agent.value| == 0 {
      return Ok([RulesOnly(rules)]);
    }
    var specs := FanOut(agent.value, rules);
    return Ok(specs);
  }

  method ParseSelectors(entries: seq<Result<Selector, string>>) returns (res: Result<seq<Selector>, string>)
    ensures res == ParsedSelectors(entries)
  {
    var parsed: seq<Selector> := [];
    for e := 0 to |entries|
      invariant ParsedSelectors(entries[..e]) == Ok(parsed)
    {
      assert entries[..e + 1][..e] == entries[..e];
      if entries[e].Err? {
        ParseStopsAtError(entries, e);
        return Err(entries[e].error);
      }
      if |entries[e].value| > 0 {
        parsed := parsed + [entries[e].value];
      }
    }
    assert entries[..|entries|] == entries;
    return Ok(parsed);
  }

  /** Steps 1 to 5 of the compilation. */
  method EmitProgram(parsed: seq<Selector>) returns (rules: seq<Rule>)
    ensures rules == Compile(parsed)
  {
    rules := [];
    for i := 0 to |parsed|
      invariant rules == AllSelectorRules(parsed[..i])
    {
      var block := EmitSelector(i, parsed[i]);
      assert parsed[..i + 1][..i] == parsed[..i];
      rules := rules + block;
    }
    assert parsed[..|parsed|] == parsed;
    var combination := EmitCombination(|parsed|);
    rules := rules + combination;
  }

  method EmitCombination(n: nat) returns (rules: seq<Rule>)
    ensures rules == Combination(n)
  {
    hide Lit, TmpLabel;
    rules := [DROP_RULE];
    var combineSources: seq<string> := [];
    for i := 0 to n
      invariant combineSources == TmpLabels(i)
    {
      combineSources := combineSources + [TmpLabel(i)];
    }
    rules := rules + [Rule(Replace, combineSources, Some(CONTAINS_KEEP), TMP_KEEP, Const(KEEP))];
    rules := rules + [KEEP_RULE];
    rules := rules + [CLEANUP_RULE];
  }

  method EmitSelector(i: nat, sel: Selector) returns (rules: seq<Rule>)
    ensures rules == SelectorRules(i, sel)
  {
    var posMatchers := CollectPositives(sel);
    posMatchers := Sorted(posMatchers);
    var mark := EmitMark(i, posMatchers);
    var clears := EmitClears(i, sel);
    rules := [mark] + clears;
  }

  method CollectPositives(sel: Selector) returns (posMatchers: seq<PosMatcher>)
    ensures posMatchers == Positives(sel)
  {
    posMatchers := [];
    for k := 0 to |sel|
      invariant posMatchers == Positives(sel[..k])
    {
      var lm := sel[k];
      assert sel[..k + 1][..k] == sel[..k];
      if lm.kind.MatchEqual? || lm.kind.MatchRegexp? {
        posMatchers := posMatchers + [PosMatcher(lm.name, PatternOf(lm))];
      }
    }
    assert sel[..|sel|] == sel;
  }

  method EmitMark(i: nat, posMatchers: seq<PosMatcher>) returns (rule: Rule)
    ensures rule == MarkRule(i, posMatchers)
  {
    var sourceLabels: seq<string> := [];
    var posValues: seq<string> := [];
    var expressions: seq<Re> := [];
    for k := 0 to |posMatchers|
      invariant sourceLabels == Names(posMatchers[..k])
      invariant posValues == Texts(posMatchers[..k])
      invariant expressions == Expressions(posMatchers[..k])
    {
      sourceLabels := sourceLabels + [posMatchers[k].name];
      posValues := posValues + [posMatchers[k].pattern.text];
      expressions := expressions + [posMatchers[k].pattern.re];
    }
    assert posMatchers[..|posMatchers|] == posMatchers;
    if |sourceLabels| > 0 {
      rule := Rule(Replace, sourceLabels, RegexField(Join(posValues, ';'), JoinRe(expressions)), TmpLabel(i), Const(KEEP));
    } else {
      rule := Rule(Replace, [], None, TmpLabel(i), Const(KEEP));
    }
  }

  method EmitClears(i: nat, sel: Selector) returns (rules: seq<Rule>)
    ensures rules == ClearRules(i, sel)
  {
    rules := [];
    for k := 0 to |sel|
      invariant rules == ClearRules(i, sel[..k])
    {
      var lm := sel[k];
      assert sel[..k + 1][..k] == sel[..k];
      if lm.kind.MatchNotEqual? || lm.kind.MatchNotRegexp? {
        rules := rules + [ClearRule(i, lm)];
      }
    }
    assert sel[..|sel|] == sel;
  }

  method AppendCustom(base: seq<Rule>, custom: seq<Rule>) returns (rules: seq<Rule>)
    ensures rules == base + custom
  {
    rules := base;
    for i := 0 to |custom|
      invariant rules == base + custom[..i]
    {
      rules := rules + [custom[i]];
    }
  }

  /** One spec per remote write of the agent. */
  method FanOut(remoteWrites: seq<RemoteWrite<Rule>>, rules: seq<Rule>) returns (specs: seq<RemoteWrite<Rule>>)
    ensures specs == ProgramSpecs(remoteWrites, rules)
  {
    specs := [];
    for i := 0 to |remoteWrites|
      invariant |specs| == i
      invariant forall k :: 0 <= k < i ==> specs[k] == ProgramSpec(remoteWrites[k], rules)
    {
      var spec := CopySettings(remoteWrites[i], rules);
      specs := specs + [spec];
    }
  }

  /** The spec of one remote write, filled in field by field. */
  method CopySettings(rw: RemoteWrite<Rule>, rules: seq<Rule>) returns (spec: RemoteWrite<Rule>)
    ensures spec == ProgramSpec(rw, rules)
  {
    var remoteTimeout := CopyOf(rw.remoteTimeout);
    var basicAuth := CopyOf(rw.basicAuth);
    var authorization := CopyOf(rw.authorization);
    var oauth2 := CopyOf(rw.oauth2);
    var queueConfig := CopyOf(rw.queueConfig);
    var tls := CopyOf(rw.tls);
    var proxyURL := CopyOf(rw.proxyURL);
    var noProxy := CopyOf(rw.noProxy);
    var headers := CopyOf(rw.headers);
    var name := CopyOf(rw.name);
    spec := RemoteWrite(rw.url, name, remoteTimeout, basicAuth, authorization, oauth2, queueConfig, tls,
                        proxyURL, noProxy, headers, rules, None);
  }

  /** A setting that is present is copied, an absent one stays absent. */
  method CopyOf<T>(setting: Option<T>) returns (copy: Option<T>)
    ensures copy == setting
  {
    copy := None;
    if setting.Some? {
      copy := Some(setting.value);
    }
  }

  lemma {:induction false} ParseStopsAtError(entries: seq<Result<Selector, string>>, e: nat)
    requires e < |entries| && ParsedSelectors(entries[..e]).Ok? && entries[e].Err?
    ensures ParsedSelectors(entries) == Err(entries[e].error)
    decreases |entries|
  {
    if e == |entries| - 1 {
    } else {
      var init := entries[..|entries| - 1];
      assert init[..e] == entries[..e];
      ParseStopsAtError(init, e);
    }
  }
}
