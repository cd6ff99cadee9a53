/** Prometheus metric relabelling, as its configuration documentation (`<relabel_config>`)
    describes it: source values joined with `;`, a missing label reads as the empty string, the
    expression must match the whole value, and an empty replacement deletes the target label. */
module Relabel {
  import opened Wrappers
  import opened Text
  import opened Regex

  type Labels = map<string, string>

  datatype Action = Replace | Keep | LabelDrop

  /** A literal replacement, or the default `$1`. */
  datatype Replacement = Const(text: string) | FirstGroup

  /** `regex == None` is an absent regex field, which defaults to `(.*)`. A rule written by a user
      may have any effect on a sample, including dropping it. */
  datatype Rule =
    | Rule(action: Action, sources: seq<string>, regex: Option<Re>, target: string, replacement: Replacement)
    | UserRule(effect: Labels -> Option<Labels>)

  function Get(m: Labels, name: string): string {
    if name in m then m[name] else ""
  }

  function SetLabel(m: Labels, name: string, value: string): Labels {
    if value == "" then m - {name} else m[name := value]
  }

  function Values(m: Labels, sources: seq<string>): (vs: seq<string>)
    ensures |vs| == |sources|
  {
    seq(|sources|, i requires 0 <= i < |sources| => Get(m, sources[i]))
  }

  /** The regex field of a rule whose expression is written as `text`: an empty field is an absent
      one. */
  function RegexField(text: string, re: Re): Option<Re> {
    if text == "" then None else Some(re)
  }

  ghost predicate RegexMatches(regex: Option<Re>, value: string) {
    regex.Some? ==> Matches(regex.value, value)
  }

  ghost function Expand(replacement: Replacement, regex: Option<Re>, value: string): string {
    match replacement
    case Const(text) => text
    case FirstGroup => if regex.None? then value else ""
  }

  /** The effect of one rule; None means that the sample is dropped. */
  ghost function Apply(r: Rule, m: Labels): Option<Labels> {
    match r
    case UserRule(effect) => effect(m)
    case Rule(action, sources, regex, target, replacement) =>
      var value := Join(Values(m, sources), ';');
      match action
      case Replace =>
        if RegexMatches(regex, value) && target != "" then
          Some(SetLabel(m, target, Expand(replacement, regex, value)))
        else
          Some(m)
      case Keep => if RegexMatches(regex, value) then Some(m) else None
      case LabelDrop => Some(map name | name in m && !RegexMatches(regex, name) :: m[name])
  }

  ghost function Run(rules: seq<Rule>, m: Labels): Option<Labels> {
    if rules == [] then Some(m)
    else
      var next := Apply(rules[0], m);
      if next.None? then None else Run(rules[1..], next.value)
  }

  lemma {:induction false} RunConcat(a: seq<Rule>, b: seq<Rule>, m: Labels)
    ensures Run(a + b, m) == var mid := Run(a, m); if mid.None? then None else Run(b, mid.value)
  {
    if a == [] {
      assert a + b == b;
    } else {
      assert (a + b)[1..] == a[1..] + b;
      var next := Apply(a[0], m);
      if next.Some? {
        RunConcat(a[1..], b, next.value);
      }
    }
  }

  lemma RunOne(r: Rule, m: Labels)
    ensures Run([r], m) == Apply(r, m)
  {
    assert [r][1..] == [];
  }

  lemma RunSnoc(a: seq<Rule>, r: Rule, m: Labels)
    ensures Run(a + [r], m) == var mid := Run(a, m); if mid.None? then None else Apply(r, mid.value)
  {
    RunConcat(a, [r], m);
    var mid := Run(a, m);
    if mid.Some? {
      RunOne(r, mid.value);
    }
  }
}
