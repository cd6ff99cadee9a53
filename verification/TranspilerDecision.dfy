/** What the generated relabel program does to a sample: a simulation of the interpreter, with no
    assumption on the regular expressions or the label values. */
module TranspilerDecision {
  import opened Wrappers
  import opened Text
  import opened Regex
  import opened Relabel
  import opened Sorting
  import opened Transpiler

  /** Names the program keeps for itself. */
  predicate IsTemp(name: string) {
    TMP_KEEP <= name
  }

  ghost predicate NoTemp(m: Labels) {
    forall name :: name in m ==> !IsTemp(name)
  }

  /** No matcher of the selector reads a temporary label. */
  ghost predicate ReadsNoTemp(sel: Selector) {
    forall k :: 0 <= k < |sel| ==> !IsTemp(sel[k].name)
  }

  ghost predicate AllReadNoTemp(sels: seq<Selector>) {
    forall i :: 0 <= i < |sels| ==> ReadsNoTemp(sels[i])
  }

  /** The marking rule hits: the joined positive matchers accept the joined label values, or the
      rule's regex field is empty. */
  ghost predicate Marks(sel: Selector, m: Labels) {
    var pms := Sorted(Positives(sel));
    RegexMatches(MarkField(pms), Join(Values(m, Names(pms)), ';'))
  }

  /** The clearing rule of a negative matcher hits a marked sample. */
  ghost predicate Clears(lm: Matcher, m: Labels) {
    !IsPositive(lm) && Matches(Cat(Lit("keep;"), PatternOf(lm).re), "keep;" + Get(m, lm.name))
  }

  ghost predicate SomeClears(sel: Selector, m: Labels) {
    exists k :: 0 <= k < |sel| && Clears(sel[k], m)
  }

  /** The decision the program takes for one selector. */
  ghost predicate Fires(sel: Selector, m: Labels) {
    Marks(sel, m) && !SomeClears(sel, m)
  }

  ghost predicate SomeFires(sels: seq<Selector>, m: Labels) {
    exists i :: 0 <= i < |sels| && Fires(sels[i], m)
  }

  // ---------------------------------------------------------------- temporary labels

  lemma TmpLabelTemp(i: nat)
    ensures IsTemp(TmpLabel(i)) && TmpLabel(i) != TMP_KEEP
  {
  }

  lemma TmpLabelInjective(i: nat, j: nat)
    requires TmpLabel(i) == TmpLabel(j)
    ensures i == j
  {
    var head := TMP_KEEP + "_";
    assert Dec(i) == TmpLabel(i)[|head|..];
    assert Dec(j) == TmpLabel(j)[|head|..];
    DecInjective(i, j);
  }

  /** `s` holds the labels of `m` plus temporary labels. */
  ghost predicate Extends(s: Labels, m: Labels) {
    && (forall name :: name in m ==> name in s && s[name] == m[name])
    && (forall name :: name in s && name !in m ==> IsTemp(name))
  }

  lemma ExtendsGet(s: Labels, m: Labels, name: string)
    requires Extends(s, m) && !IsTemp(name)
    ensures Get(s, name) == Get(m, name)
  {
  }

  lemma ExtendsValues(s: Labels, m: Labels, names: seq<string>)
    requires Extends(s, m)
    requires forall k :: 0 <= k < |names| ==> !IsTemp(names[k])
    ensures Values(s, names) == Values(m, names)
  {
    forall k | 0 <= k < |names| ensures Values(s, names)[k] == Values(m, names)[k] {
      ExtendsGet(s, m, names[k]);
    }
  }

  // ---------------------------------------------------------------- sorting loses nothing

  /** The positive matchers of a selector, whatever their order. */
  lemma {:induction false} PositivesAre(sel: Selector, pm: PosMatcher)
    ensures pm in Positives(sel)
       <==> exists k :: 0 <= k < |sel| && IsPositive(sel[k]) && pm == PosMatcher(sel[k].name, PatternOf(sel[k]))
  {
    if sel != [] {
      var init, last := sel[..|sel| - 1], sel[|sel| - 1];
      PositivesAre(init, pm);
      if pm in Positives(sel) {
        if pm in Positives(init) {
          var k :| 0 <= k < |init| && IsPositive(init[k]) && pm == PosMatcher(init[k].name, PatternOf(init[k]));
          assert sel[k] == init[k];
        } else {
          assert sel[|sel| - 1] == last;
        }
      }
      if k :| 0 <= k < |sel| && IsPositive(sel[k]) && pm == PosMatcher(sel[k].name, PatternOf(sel[k])) {
        if k < |init| {
          assert init[k] == sel[k];
        }
      }
    }
  }

  lemma SortedPositivesAre(sel: Selector, pm: PosMatcher)
    ensures pm in Sorted(Positives(sel))
       <==> exists k :: 0 <= k < |sel| && IsPositive(sel[k]) && pm == PosMatcher(sel[k].name, PatternOf(sel[k]))
  {
    SortPermutes(Before, Positives(sel));
    assert pm in Sorted(Positives(sel)) <==> pm in multiset(Positives(sel));
    PositivesAre(sel, pm);
  }

  lemma PositiveNamesNotTemp(sel: Selector)
    requires ReadsNoTemp(sel)
    ensures forall k :: 0 <= k < |Sorted(Positives(sel))| ==> !IsTemp(Names(Sorted(Positives(sel)))[k])
  {
    var pms := Sorted(Positives(sel));
    forall k | 0 <= k < |pms| ensures !IsTemp(Names(pms)[k]) {
      SortedPositivesAre(sel, pms[k]);
    }
  }

  // ---------------------------------------------------------------- one selector

  lemma JoinPair(a: string, b: string)
    ensures Join([a, b], ';') == a + ";" + b
  {
    assert [a, b][1..] == [b];
  }

  lemma UnmarkedNeverCleared(re: Re, v: string)
    ensures !Matches(Cat(Lit("keep;"), re), ";" + v)
  {
    var s := ";" + v;
    if Matches(Cat(Lit("keep;"), re), s) {
      var k := CatCut(Lit("keep;"), re, s, 0, |s|);
      LitMatch("keep;", s, 0, k);
      assert false;
    }
  }

  lemma ApplyClear(i: nat, lm: Matcher, s: Labels, m: Labels, marked: bool)
    requires Extends(s, m) && !IsPositive(lm) && !IsTemp(lm.name)
    requires if marked then Get(s, TmpLabel(i)) == KEEP else TmpLabel(i) !in s
    ensures Apply(ClearRule(i, lm), s) == Some(if marked && Clears(lm, m) then s - {TmpLabel(i)} else s)
  {
    var rule := ClearRule(i, lm);
    ExtendsGet(s, m, lm.name);
    assert Values(s, rule.sources) == [Get(s, TmpLabel(i)), Get(m, lm.name)];
    JoinPair(Get(s, TmpLabel(i)), Get(m, lm.name));
    assert TmpLabel(i) != "";
    if marked {
      assert KEEP + ";" == "keep;";
    } else {
      UnmarkedNeverCleared(PatternOf(lm).re, Get(m, lm.name));
      assert "" + ";" + Get(m, lm.name) == ";" + Get(m, lm.name);
    }
  }

  lemma {:induction false} RunClears(i: nat, sel: Selector, s: Labels, m: Labels, marked: bool)
    requires Extends(s, m) && ReadsNoTemp(sel) && NoTemp(m)
    requires if marked then Get(s, TmpLabel(i)) == KEEP else TmpLabel(i) !in s
    ensures Run(ClearRules(i, sel), s) == Some(if marked && SomeClears(sel, m) then s - {TmpLabel(i)} else s)
  {
    if sel != [] {
      var init, last := sel[..|sel| - 1], sel[|sel| - 1];
      TmpLabelTemp(i);
      assert ReadsNoTemp(init) by {
        forall k | 0 <= k < |init| ensures !IsTemp(init[k].name) { assert sel[k] == init[k]; }
      }
      RunClears(i, init, s, m, marked);
      SomeClearsSnoc(sel, m);
      var still := marked && !SomeClears(init, m);
      var s' := if marked && SomeClears(init, m) then s - {TmpLabel(i)} else s;
      if IsPositive(last) {
        assert ClearRules(i, sel) == ClearRules(i, init);
      } else {
        RunSnoc(ClearRules(i, init), ClearRule(i, last), s);
        assert Extends(s', m);
        ApplyClear(i, last, s', m, still);
        assert !still ==> s' - {TmpLabel(i)} == s';
      }
    }
  }

  lemma SomeClearsSnoc(sel: Selector, m: Labels)
    requires sel != []
    ensures SomeClears(sel, m) <==> SomeClears(sel[..|sel| - 1], m) || Clears(sel[|sel| - 1], m)
  {
    var init := sel[..|sel| - 1];
    if SomeClears(init, m) {
      var k :| 0 <= k < |init| && Clears(init[k], m);
      assert sel[k] == init[k];
    }
    if k :| 0 <= k < |sel| && Clears(sel[k], m) {
      if k < |init| { assert init[k] == sel[k]; }
    }
  }

  lemma ApplyMark(i: nat, sel: Selector, s: Labels, m: Labels)
    requires Extends(s, m) && ReadsNoTemp(sel)
    ensures Apply(MarkRule(i, Sorted(Positives(sel))), s) == Some(if Marks(sel, m) then s[TmpLabel(i) := KEEP] else s)
  {
    var pms := Sorted(Positives(sel));
    PositiveNamesNotTemp(sel);
    ExtendsValues(s, m, Names(pms));
    assert TmpLabel(i) != "" && KEEP != "";
  }

  /** The rules of selector `i` set its temporary label exactly if the selector fires. */
  lemma RunSelector(i: nat, sel: Selector, s: Labels, m: Labels)
    requires Extends(s, m) && ReadsNoTemp(sel) && NoTemp(m)
    requires TmpLabel(i) !in s
    ensures Run(SelectorRules(i, sel), s) == Some(if Fires(sel, m) then s[TmpLabel(i) := KEEP] else s)
  {
    hide Run, Apply, Marks, SomeClears, Positives, SortBy;
    var pms := Sorted(Positives(sel));
    var mark := MarkRule(i, pms);
    TmpLabelTemp(i);
    var s' := if Marks(sel, m) then s[TmpLabel(i) := KEEP] else s;
    ApplyMark(i, sel, s, m);
    RunConcat([mark], ClearRules(i, sel), s);
    RunOne(mark, s);
    RunClears(i, sel, s', m, Marks(sel, m));
    assert s[TmpLabel(i) := KEEP] - {TmpLabel(i)} == s;
  }

  // ---------------------------------------------------------------- all selectors

  /** The labels after the blocks of all selectors. */
  ghost function Flagged(sels: seq<Selector>, m: Labels): Labels {
    if sels == [] then m
    else
      var before := Flagged(sels[..|sels| - 1], m);
      if Fires(sels[|sels| - 1], m) then before[TmpLabel(|sels| - 1) := KEEP] else before
  }

  lemma {:induction false} FlaggedIs(sels: seq<Selector>, m: Labels)
    requires NoTemp(m)
    ensures Extends(Flagged(sels, m), m)
    ensures TMP_KEEP !in Flagged(sels, m)
    ensures forall i :: 0 <= i < |sels| ==> Get(Flagged(sels, m), TmpLabel(i)) == if Fires(sels[i], m) then KEEP else ""
    ensures forall i {:trigger TmpLabel(i)} :: i >= |sels| ==> TmpLabel(i) !in Flagged(sels, m)
  {
    forall i: nat ensures IsTemp(TmpLabel(i)) && TmpLabel(i) != TMP_KEEP { TmpLabelTemp(i); }
    if sels != [] {
      var n := |sels| - 1;
      FlaggedIs(sels[..n], m);
      forall i: nat | TmpLabel(i) == TmpLabel(n) ensures i == n { TmpLabelInjective(i, n); }
      forall i | 0 <= i < |sels|
        ensures Get(Flagged(sels, m), TmpLabel(i)) == if Fires(sels[i], m) then KEEP else ""
      {
        if i < n { assert sels[..n][i] == sels[i]; }
      }
    }
  }

  lemma {:induction false} RunAllSelectors(sels: seq<Selector>, m: Labels)
    requires NoTemp(m) && AllReadNoTemp(sels)
    ensures Run(AllSelectorRules(sels), m) == Some(Flagged(sels, m))
  {
    if sels != [] {
      var n := |sels| - 1;
      var init := sels[..n];
      assert AllReadNoTemp(init) by {
        forall i | 0 <= i < n ensures ReadsNoTemp(init[i]) { assert init[i] == sels[i]; }
      }
      RunAllSelectors(init, m);
      FlaggedIs(init, m);
      RunConcat(AllSelectorRules(init), SelectorRules(n, sels[n]), m);
      RunSelector(n, sels[n], Flagged(init, m), m);
    }
  }

  // ---------------------------------------------------------------- the disjunction

  lemma {:induction false} JoinBlank(vs: seq<string>)
    requires forall i :: 0 <= i < |vs| ==> vs[i] == ""
    ensures forall k :: 0 <= k < |Join(vs, ';')| ==> Join(vs, ';')[k] == ';'
  {
    if |vs| > 1 {
      JoinBlank(vs[1..]);
    }
  }

  lemma {:induction false} JoinHasPart(vs: seq<string>, i: nat)
    requires i < |vs|
    ensures exists k :: OccursAt(vs[i], Join(vs, ';'), k)
  {
    var all := Join(vs, ';');
    if |vs| == 1 {
      assert OccursAt(vs[i], all, 0);
    } else if i == 0 {
      assert OccursAt(vs[0], all, 0);
    } else {
      JoinHasPart(vs[1..], i - 1);
      var rest := Join(vs[1..], ';');
      var k :| OccursAt(vs[i], rest, k);
      var at := |vs[0]| + 1 + k;
      assert all == vs[0] + ";" + rest;
      assert all[at..at + |vs[i]|] == rest[k..k + |vs[i]|];
      assert OccursAt(vs[i], all, at);
    }
  }

  /** `.*keep.*` on the joined flags is their disjunction. */
  lemma CombineIsOr(vs: seq<string>)
    requires forall i :: 0 <= i < |vs| ==> vs[i] == "" || vs[i] == KEEP
    ensures Matches(CONTAINS_KEEP, Join(vs, ';')) <==> exists i :: 0 <= i < |vs| && vs[i] == KEEP
  {
    ContainsMatches(KEEP, Join(vs, ';'));
    if i :| 0 <= i < |vs| && vs[i] == KEEP {
      JoinHasPart(vs, i);
    } else {
      JoinBlank(vs);
      var all := Join(vs, ';');
      if k :| OccursAt(KEEP, all, k) {
        assert false;
      }
    }
  }

  /** The combine rule raises the global flag exactly if some selector fires. */
  lemma ApplyCombine(sels: seq<Selector>, m: Labels, s: Labels)
    requires NoTemp(m) && s == Flagged(sels, m)[TMP_KEEP := "drop"]
    ensures Apply(CombineRule(|sels|), s) == Some(if SomeFires(sels, m) then s[TMP_KEEP := KEEP] else s)
  {
    var n := |sels|;
    FlaggedIs(sels, m);
    var vs := Values(s, TmpLabels(n));
    forall i | 0 <= i < n ensures vs[i] == if Fires(sels[i], m) then KEEP else "" {
      TmpLabelTemp(i);
      assert Get(s, TmpLabel(i)) == Get(Flagged(sels, m), TmpLabel(i));
    }
    CombineIsOr(vs);
    if SomeFires(sels, m) {
      var i :| 0 <= i < n && Fires(sels[i], m);
      assert vs[i] == KEEP;
    }
    assert TMP_KEEP != "" && KEEP != "";
  }

  lemma ApplyDrop(s: Labels)
    ensures Apply(DROP_RULE, s) == Some(s[TMP_KEEP := "drop"])
  {
    assert TMP_KEEP != "";
  }

  lemma ApplyKeep(s: Labels)
    ensures Apply(KEEP_RULE, s) == if Get(s, TMP_KEEP) == KEEP then Some(s) else None
  {
    assert Values(s, [TMP_KEEP]) == [Get(s, TMP_KEEP)];
    LitMatches(KEEP, Get(s, TMP_KEEP));
  }

  lemma CleanupFlagged(sels: seq<Selector>, m: Labels, s: Labels)
    requires NoTemp(m)
    requires s == Flagged(sels, m)[TMP_KEEP := KEEP]
    ensures Apply(CLEANUP_RULE, s) == Some(m)
  {
    hide Apply, Flagged, Fires, Lit, TmpLabel;
    FlaggedIs(sels, m);
    CleanupRestores(s, m);
  }

  lemma RunCombination(sels: seq<Selector>, m: Labels)
    requires NoTemp(m)
    ensures Run(Combination(|sels|), Flagged(sels, m)) == if SomeFires(sels, m) then Some(m) else None
  {
    hide Run, Apply, Flagged, SomeFires;
    var s := Flagged(sels, m);
    var s1 := s[TMP_KEEP := "drop"];
    var s2 := if SomeFires(sels, m) then s[TMP_KEEP := KEEP] else s1;
    var s3 := if SomeFires(sels, m) then Some(s2) else None;
    var s4 := if SomeFires(sels, m) then Some(m) else None;
    ApplyDrop(s);
    ApplyCombine(sels, m, s1);
    assert s1[TMP_KEEP := KEEP] == s[TMP_KEEP := KEEP];
    ApplyKeep(s2);
    if SomeFires(sels, m) {
      CleanupFlagged(sels, m, s2);
    }
    RunFour(DROP_RULE, CombineRule(|sels|), KEEP_RULE, CLEANUP_RULE, s, s1, s2, s3, s4);
  }

  lemma RunFour(a: Rule, b: Rule, c: Rule, d: Rule, s: Labels, s1: Labels, s2: Labels, s3: Option<Labels>, s4: Option<Labels>)
    requires Apply(a, s) == Some(s1) && Apply(b, s1) == Some(s2) && Apply(c, s2) == s3
    requires if s3.None? then s4.None? else Apply(d, s3.value) == s4
    ensures Run([a, b, c, d], s) == s4
  {
    RunOne(a, s);
    RunSnoc([a], b, s);
    RunSnoc([a] + [b], c, s);
    RunSnoc([a] + [b] + [c], d, s);
    assert [a, b, c, d] == [a] + [b] + [c] + [d];
  }

  lemma ApplyLabelDrop(regex: Re, s: Labels)
    ensures Apply(Rule(LabelDrop, [], Some(regex), "", FirstGroup), s) == Some(map name | name in s && !Matches(regex, name) :: s[name])
  {
    hide Matches;
    var kept: Labels := map name | name in s && !RegexMatches(Some(regex), name) :: s[name];
    assert Apply(Rule(LabelDrop, [], Some(regex), "", FirstGroup), s) == Some(kept);
    assert kept == map name | name in s && !Matches(regex, name) :: s[name];
  }

  /** `labeldrop __tmp_keep.*` removes the temporary labels and nothing else. */
  lemma CleanupDrops(s: Labels)
    ensures Apply(CLEANUP_RULE, s) == Some(map name | name in s && !IsTemp(name) :: s[name])
  {
    hide Apply, Matches, IsTemp, Lit;
    var regex := Cat(Lit(TMP_KEEP), ANYTHING);
    ApplyLabelDrop(regex, s);
    forall name ensures Matches(regex, name) <==> IsTemp(name) {
      TempMatches(name);
    }
    assert (map name | name in s && !Matches(regex, name) :: s[name]) == map name | name in s && !IsTemp(name) :: s[name];
  }

  lemma TempMatches(name: string)
    ensures Matches(Cat(Lit(TMP_KEEP), ANYTHING), name) <==> IsTemp(name)
  {
    hide Matches, Lit;
    PrefixMatches(TMP_KEEP, name);
  }

  lemma CleanupRestores(s: Labels, m: Labels)
    requires Extends(s, m) && NoTemp(m)
    ensures Apply(CLEANUP_RULE, s) == Some(m)
  {
    CleanupDrops(s);
    assert (map name | name in s && !IsTemp(name) :: s[name]) == m;
  }

  /** Simulation theorem: the program keeps a sample, unchanged, exactly if some selector fires. */
  lemma ProgramDecision(sels: seq<Selector>, m: Labels)
    requires NoTemp(m) && AllReadNoTemp(sels)
    ensures Run(Compile(sels), m) == if SomeFires(sels, m) then Some(m) else None
  {
    RunAllSelectors(sels, m);
    RunConcat(AllSelectorRules(sels), Combination(|sels|), m);
    RunCombination(sels, m);
  }

  /** Whatever the sample carries, nothing kept comes out with a temporary label. */
  lemma OutputHasNoTemp(sels: seq<Selector>, m: Labels)
    ensures var out := Run(Compile(sels), m); out.Some? ==> NoTemp(out.value)
  {
    hide Apply, Run, AllSelectorRules, TmpLabels, Lit, IsTemp;
    var front := AllSelectorRules(sels) + [DROP_RULE, CombineRule(|sels|), KEEP_RULE];
    assert Compile(sels) == front + [CLEANUP_RULE];
    RunSnoc(front, CLEANUP_RULE, m);
    var mid := Run(front, m);
    if mid.Some? {
      CleanupDrops(mid.value);
    }
  }
}
