/** Compiler correctness: the relabel program decides like the federation selectors it came from. */
module TranspilerCorrectness {
  import opened Wrappers
  import opened Text
  import opened Regex
  import opened Relabel
  import opened RemoteWrites
  import opened Sorting
  import opened Transpiler
  import opened TranspilerDecision

  // ---------------------------------------------------------------- selector semantics

  ghost predicate Accepts(lm: Matcher, v: string) {
    match lm.kind
    case MatchEqual => v == lm.value
    case MatchNotEqual => v != lm.value
    case MatchRegexp => Matches(lm.re, v)
    case MatchNotRegexp => !Matches(lm.re, v)
  }

  ghost predicate SelectorMatches(sel: Selector, m: Labels) {
    forall k :: 0 <= k < |sel| ==> Accepts(sel[k], Get(m, sel[k].name))
  }

  ghost predicate SomeMatches(sels: seq<Selector>, m: Labels) {
    exists i :: 0 <= i < |sels| && SelectorMatches(sels[i], m)
  }

  /** Filtering a sample with the selectors themselves. */
  ghost function Filter(sels: seq<Selector>, m: Labels): Option<Labels> {
    if SomeMatches(sels, m) then Some(m) else None
  }

  // ---------------------------------------------------------------- conditions on a selector

  predicate FewPositives(sel: Selector) {
    |Positives(sel)| <= 1
  }

  /** A single positive matcher, and it is `n=""`. Its quoted value is empty, and so is the regex
      field of the marking rule, which then accepts every value. */
  predicate LoneEmpty(sel: Selector) {
    |Positives(sel)| == 1 && exists k :: 0 <= k < |sel| && sel[k].kind.MatchEqual? && sel[k].value == ""
  }

  /** The expressions the compiler joins, in their sorted order. */
  function Joined(sel: Selector): (r: seq<Re>)
    ensures |r| == |Sorted(Positives(sel))|
  {
    Expressions(Sorted(Positives(sel)))
  }

  /** In the sorted order of the positive matchers, only the first uses `^` and only the last `$`. */
  predicate PositivesInPlace(sel: Selector) {
    AnchorsInPlace(Joined(sel))
  }

  /** No negative matcher uses `^`; its expression comes to stand behind `keep;`. */
  predicate NegativesInPlace(sel: Selector) {
    forall k :: 0 <= k < |sel| && !IsPositive(sel[k]) ==> Lacks(PatternOf(sel[k]).re, true, false)
  }

  /** Either the label values the positive matchers read contain no `;`, or none of those matchers
      accepts a value with a `;`. */
  predicate SeparatorSafe(sel: Selector, m: Labels) {
    || (forall k :: 0 <= k < |sel| && IsPositive(sel[k]) ==> ';' !in Get(m, sel[k].name))
    || (forall k :: 0 <= k < |sel| && IsPositive(sel[k]) ==> Avoids(PatternOf(sel[k]).re, ';'))
  }

  // ---------------------------------------------------------------- one matcher

  lemma PatternMeans(lm: Matcher, v: string)
    ensures Accepts(lm, v) <==> (Matches(PatternOf(lm).re, v) <==> IsPositive(lm))
  {
    LitMatches(lm.value, v);
  }

  /** What a clearing rule hits, for any expression: `^` cannot hold behind `keep;`. */
  lemma ClearsIff(lm: Matcher, m: Labels)
    ensures Clears(lm, m) <==> !IsPositive(lm) && Matches(Erased(PatternOf(lm).re, true, false), Get(m, lm.name))
  {
    hide Matches, MatchAt, Erased, Lit, PatternOf;
    var v, re := Get(m, lm.name), PatternOf(lm).re;
    var s := "keep;" + v;
    assert s[..5] == s[0..5] == "keep;" && s[5..|s|] == v;
    OnItsOwn(re, s, 5, |s|);
    LitMatch("keep;", s, 0, 5);
    assert Matches(Cat(Lit("keep;"), re), s) <==> MatchAt(Cat(Lit("keep;"), re), s, 0, |s|) by { WholeMatch(Cat(Lit("keep;"), re), s); }
    if MatchAt(re, s, 5, |s|) {
      CatJoin(Lit("keep;"), re, s, 0, 5, |s|);
    }
    if MatchAt(Cat(Lit("keep;"), re), s, 0, |s|) {
      var k := CatCut(Lit("keep;"), re, s, 0, |s|);
      LitMatch("keep;", s, 0, k);
      assert |s[0..k]| == 5;
    }
  }

  lemma WholeMatch(re: Re, s: string)
    ensures Matches(re, s) <==> MatchAt(re, s, 0, |s|)
  {
  }

  /** A clearing rule only hits samples its negative matcher rejects. */
  lemma ClearsSound(lm: Matcher, m: Labels)
    requires Clears(lm, m)
    ensures !Accepts(lm, Get(m, lm.name))
  {
    var v := Get(m, lm.name);
    ClearsIff(lm, m);
    ErasedSound(PatternOf(lm).re, true, false, v, 0, |v|);
    PatternMeans(lm, v);
  }

  lemma ClearsComplete(lm: Matcher, m: Labels)
    requires !IsPositive(lm) && Lacks(PatternOf(lm).re, true, false)
    requires !Accepts(lm, Get(m, lm.name))
    ensures Clears(lm, m)
  {
    ClearsIff(lm, m);
    LackedIsErased(PatternOf(lm).re, true, false);
    PatternMeans(lm, Get(m, lm.name));
  }

  /** A negative matcher that needs `^` never clears anything. */
  lemma NeededNeverClears(lm: Matcher, m: Labels)
    requires Needs(PatternOf(lm).re, true, false)
    ensures !Clears(lm, m)
  {
    var v := Get(m, lm.name);
    ClearsIff(lm, m);
    NeededNeverMatches(PatternOf(lm).re, true, false, v, 0, |v|);
  }

  // ---------------------------------------------------------------- the positive matchers

  /** Every positive matcher accepts its label. */
  ghost predicate PositivesAccept(sel: Selector, m: Labels) {
    forall k :: 0 <= k < |sel| && IsPositive(sel[k]) ==> Accepts(sel[k], Get(m, sel[k].name))
  }

  ghost predicate ListAccepts(pms: seq<PosMatcher>, m: Labels) {
    forall p :: 0 <= p < |pms| ==> Matches(pms[p].pattern.re, Get(m, pms[p].name))
  }

  /** The same, seen through the sorted list the compiler works on. */
  lemma PositivesAcceptSorted(sel: Selector, m: Labels)
    ensures PositivesAccept(sel, m) <==> ListAccepts(Sorted(Positives(sel)), m)
  {
    var pms := Sorted(Positives(sel));
    if PositivesAccept(sel, m) {
      forall p | 0 <= p < |pms| ensures Matches(pms[p].pattern.re, Get(m, pms[p].name)) {
        SortedPositivesAre(sel, pms[p]);
        var k :| 0 <= k < |sel| && IsPositive(sel[k]) && pms[p] == PosMatcher(sel[k].name, PatternOf(sel[k]));
        PatternMeans(sel[k], Get(m, sel[k].name));
      }
    }
    if ListAccepts(pms, m) {
      forall k | 0 <= k < |sel| && IsPositive(sel[k]) ensures Accepts(sel[k], Get(m, sel[k].name)) {
        var pm := PosMatcher(sel[k].name, PatternOf(sel[k]));
        SortedPositivesAre(sel, pm);
        var p :| 0 <= p < |pms| && pms[p] == pm;
        PatternMeans(sel[k], Get(m, sel[k].name));
      }
    }
  }

  /** Every positive expression, in its place among the joined ones, accepts its label. */
  ghost predicate PlacedAccept(sel: Selector, m: Labels) {
    MatchesAll(Placed(Joined(sel), false), Values(m, Names(Sorted(Positives(sel)))))
  }

  lemma PlacedSound(sel: Selector, m: Labels)
    requires PlacedAccept(sel, m)
    ensures PositivesAccept(sel, m)
  {
    var pms := Sorted(Positives(sel));
    var res, vs := Joined(sel), Values(m, Names(pms));
    forall p | 0 <= p < |pms| ensures Matches(pms[p].pattern.re, Get(m, pms[p].name)) {
      assert Matches(Placed(res, false)[p], vs[p]);
      ErasedSound(res[p], p > 0, p < |res| - 1, vs[p], 0, |vs[p]|);
    }
    PositivesAcceptSorted(sel, m);
  }

  lemma PlacedComplete(sel: Selector, m: Labels)
    requires PositivesInPlace(sel) && PositivesAccept(sel, m)
    ensures PlacedAccept(sel, m)
  {
    PositivesAcceptSorted(sel, m);
    InPlaceUnchanged(Joined(sel));
  }

  /** The joined values can be cut into pieces that the expressions accept in their places. */
  ghost predicate JoinedAccept(res: seq<Re>, vs: seq<string>) {
    exists ws :: MatchesAll(Placed(res, false), ws) && Join(ws, ';') == Join(vs, ';')
  }

  lemma JoinedAcceptIs(res: seq<Re>, vs: seq<string>)
    ensures JoinedAccept(res, vs) <==> exists ws :: MatchesAll(Placed(res, false), ws) && Join(ws, ';') == Join(vs, ';')
  {
  }

  lemma QuoteMetaEmpty(lm: Matcher)
    ensures PatternOf(lm).text == "" <==> (lm.kind.MatchEqual? || lm.kind.MatchNotEqual?) && lm.value == ""
  {
  }

  /** The marking rule has an empty regex field, beside having no sources, exactly for `n=""` alone. */
  lemma EmptyFieldIff(sel: Selector)
    ensures MarkField(Sorted(Positives(sel))).None? <==> Positives(sel) == [] || LoneEmpty(sel)
  {
    hide PatternOf, SortBy, JoinRe;
    var pms := Sorted(Positives(sel));
    SortedLength(sel);
    if |pms| == 1 {
      assert Texts(pms) == [pms[0].pattern.text] && Join(Texts(pms), ';') == pms[0].pattern.text;
      SortedPositivesAre(sel, pms[0]);
      var k :| 0 <= k < |sel| && IsPositive(sel[k]) && pms[0] == PosMatcher(sel[k].name, PatternOf(sel[k]));
      QuoteMetaEmpty(sel[k]);
      if LoneEmpty(sel) {
        var j :| 0 <= j < |sel| && sel[j].kind.MatchEqual? && sel[j].value == "";
        var pm := PosMatcher(sel[j].name, PatternOf(sel[j]));
        SortedPositivesAre(sel, pm);
        QuoteMetaEmpty(sel[j]);
        assert pm == pms[0];
      }
    } else if |pms| > 1 {
      CountJoin(Texts(pms), ';');
    }
  }

  /** Which samples are marked, for any selector and any values: all if the only positive matcher is
      `n=""`, and otherwise those whose joined values can be cut into pieces that the expressions
      accept in their places. */
  lemma MarksExactly(sel: Selector, m: Labels)
    ensures Marks(sel, m) <==>
            Joined(sel) == [] || LoneEmpty(sel) || JoinedAccept(Joined(sel), Values(m, Names(Sorted(Positives(sel)))))
  {
    hide LoneEmpty, Join, Matches, JoinedAccept;
    EmptyFieldIff(sel);
    SortedLength(sel);
    assert JoinedAccept(Joined(sel), Values(m, Names(Sorted(Positives(sel))))) <==>
           exists ws :: MatchesAll(Placed(Joined(sel), false), ws) && Join(ws, ';') == Join(Values(m, Names(Sorted(Positives(sel)))), ';')
      by { JoinedAcceptIs(Joined(sel), Values(m, Names(Sorted(Positives(sel))))); }
    if Joined(sel) != [] {
      JoinMatchIff(Joined(sel), Join(Values(m, Names(Sorted(Positives(sel)))), ';'));
    }
  }

  /** Where no `;` confuses the cut, the marked samples are those whose values are accepted in place. */
  lemma MarksIff(sel: Selector, m: Labels)
    requires FewPositives(sel) || SeparatorSafe(sel, m)
    ensures Marks(sel, m) <==> LoneEmpty(sel) || PlacedAccept(sel, m)
  {
    hide Placed, Sorted, SeparatorSafe, Matches, LoneEmpty, Marks;
    var res, vs := Joined(sel), Values(m, Names(Sorted(Positives(sel))));
    MarksExactly(sel, m);
    SortPermutes(Before, Positives(sel));
    SortedLength(sel);
    if ws :| MatchesAll(Placed(res, false), ws) && Join(ws, ';') == Join(vs, ';') {
      if |res| > 1 {
        PiecesSound(res, ws);
        SeparatorsAgree(sel, m, vs, ws);
      }
      if |res| == 1 {
        assert ws == [ws[0]] && vs == [vs[0]];
      }
      assert ws == vs;
    }
  }

  lemma SortedLength(sel: Selector)
    ensures |Sorted(Positives(sel))| == |Positives(sel)|
  {
    SortPermutes(Before, Positives(sel));
  }

  lemma PiecesSound(res: seq<Re>, ws: seq<string>)
    requires MatchesAll(Placed(res, false), ws)
    ensures MatchesAll(res, ws)
  {
    forall p | 0 <= p < |res| ensures Matches(res[p], ws[p]) {
      assert Matches(Placed(res, false)[p], ws[p]);
      ErasedSound(res[p], p > 0, p < |res| - 1, ws[p], 0, |ws[p]|);
    }
  }

  /** A marked sample satisfies every positive matcher, unless that is a lone `n=""` or a `;` lets the joined expression
      cut the joined values in the wrong place. Anchors can do no harm in this direction. */
  lemma MarksSound(sel: Selector, m: Labels)
    requires !LoneEmpty(sel) && (FewPositives(sel) || SeparatorSafe(sel, m))
    requires Marks(sel, m)
    ensures PositivesAccept(sel, m)
  {
    MarksIff(sel, m);
    PlacedSound(sel, m);
  }

  lemma SeparatorsAgree(sel: Selector, m: Labels, vs: seq<string>, ws: seq<string>)
    requires SeparatorSafe(sel, m)
    requires |ws| >= 1 && MatchesAll(Joined(sel), ws)
    requires vs == Values(m, Names(Sorted(Positives(sel)))) && Join(ws, ';') == Join(vs, ';')
    ensures vs == ws
  {
    var pms := Sorted(Positives(sel));
    forall p | 0 <= p < |pms|
      ensures exists k :: 0 <= k < |sel| && IsPositive(sel[k]) && pms[p] == PosMatcher(sel[k].name, PatternOf(sel[k]))
    {
      SortedPositivesAre(sel, pms[p]);
    }
    if forall k :: 0 <= k < |sel| && IsPositive(sel[k]) ==> ';' !in Get(m, sel[k].name) {
      assert AllFree(vs, ';');
      UniqueSplit(vs, ws, ';');
    } else {
      forall p | 0 <= p < |ws| ensures Free(ws[p], ';') {
        assert Avoids(pms[p].pattern.re, ';');
        assert Matches(Joined(sel)[p], ws[p]);
        AvoidsSound(pms[p].pattern.re, ws[p], 0, |ws[p]|, ';');
        assert ws[p][0..|ws[p]|] == ws[p];
      }
      UniqueSplit(ws, vs, ';');
    }
  }

  /** A sample that satisfies every positive matcher is marked, whatever its values contain. */
  lemma MarksComplete(sel: Selector, m: Labels)
    requires PositivesInPlace(sel)
    requires PositivesAccept(sel, m)
    ensures Marks(sel, m)
  {
    PlacedComplete(sel, m);
    MarksExactly(sel, m);
  }

  // ---------------------------------------------------------------- one selector

  lemma SplitMatch(sel: Selector, m: Labels)
    ensures SelectorMatches(sel, m) <==>
            PositivesAccept(sel, m) && forall k :: 0 <= k < |sel| && !IsPositive(sel[k]) ==> Accepts(sel[k], Get(m, sel[k].name))
  {
  }

  lemma MatchedNeverCleared(sel: Selector, m: Labels)
    requires SelectorMatches(sel, m)
    ensures !SomeClears(sel, m)
  {
    forall k | 0 <= k < |sel| ensures !Clears(sel[k], m) {
      if Clears(sel[k], m) { ClearsSound(sel[k], m); }
    }
  }

  /** No loss: a matched sample fires, whatever its label values contain. */
  lemma MatchFires(sel: Selector, m: Labels)
    requires PositivesInPlace(sel)
    requires SelectorMatches(sel, m)
    ensures Fires(sel, m)
  {
    MarksComplete(sel, m);
    MatchedNeverCleared(sel, m);
  }

  /** No false keep: a firing selector matches. */
  lemma FireMatches(sel: Selector, m: Labels)
    requires !LoneEmpty(sel) && (FewPositives(sel) || SeparatorSafe(sel, m))
    requires NegativesInPlace(sel)
    requires Fires(sel, m)
    ensures SelectorMatches(sel, m)
  {
    MarksSound(sel, m);
    forall k | 0 <= k < |sel| && !IsPositive(sel[k]) ensures Accepts(sel[k], Get(m, sel[k].name)) {
      if !Accepts(sel[k], Get(m, sel[k].name)) { ClearsComplete(sel[k], m); }
    }
    SplitMatch(sel, m);
  }

  /** The selector with every expression read in its place in the program: positive ones among the
      joined expressions, a lone `n=""` as nothing, negative ones behind `keep;`. */
  ghost predicate InPlaceMatches(sel: Selector, m: Labels) {
    (LoneEmpty(sel) || PlacedAccept(sel, m))
    && forall k :: 0 <= k < |sel| && !IsPositive(sel[k]) ==> !Matches(Erased(PatternOf(sel[k]).re, true, false), Get(m, sel[k].name))
  }

  lemma FiresInPlace(sel: Selector, m: Labels)
    requires FewPositives(sel) || SeparatorSafe(sel, m)
    ensures Fires(sel, m) <==> InPlaceMatches(sel, m)
  {
    hide Marks, Clears, PlacedAccept, LoneEmpty, SeparatorSafe, Erased, Matches, PatternOf;
    MarksIff(sel, m);
    forall k | 0 <= k < |sel|
      ensures Clears(sel[k], m) <==> !IsPositive(sel[k]) && Matches(Erased(PatternOf(sel[k]).re, true, false), Get(m, sel[k].name))
    {
      ClearsIff(sel[k], m);
    }
  }

  // ---------------------------------------------------------------- the compiler theorems

  ghost predicate LossFree(sels: seq<Selector>) {
    forall i :: 0 <= i < |sels| ==> PositivesInPlace(sels[i])
  }

  ghost predicate CutSafe(sels: seq<Selector>, m: Labels) {
    forall i :: 0 <= i < |sels| ==> FewPositives(sels[i]) || SeparatorSafe(sels[i], m)
  }

  ghost predicate Exact(sels: seq<Selector>, m: Labels) {
    LossFree(sels) && CutSafe(sels, m) && forall i :: 0 <= i < |sels| ==> NegativesInPlace(sels[i]) && !LoneEmpty(sels[i])
  }

  /** What the program decides for any expressions, anchors included: the selectors read in place. */
  lemma CompilerInPlace(sels: seq<Selector>, m: Labels)
    requires NoTemp(m) && AllReadNoTemp(sels) && CutSafe(sels, m)
    ensures Run(Compile(sels), m) ==
            if exists i :: 0 <= i < |sels| && InPlaceMatches(sels[i], m) then Some(m) else None
  {
    hide Fires, InPlaceMatches, Compile, FewPositives, SeparatorSafe;
    ProgramDecision(sels, m);
    forall i | 0 <= i < |sels| ensures Fires(sels[i], m) <==> InPlaceMatches(sels[i], m) {
      FiresInPlace(sels[i], m);
    }
  }

  /** Every sample some selector matches survives, with exactly its original labels. */
  lemma NoLoss(sels: seq<Selector>, m: Labels)
    requires NoTemp(m) && AllReadNoTemp(sels) && LossFree(sels)
    requires SomeMatches(sels, m)
    ensures Run(Compile(sels), m) == Some(m)
  {
    var i :| 0 <= i < |sels| && SelectorMatches(sels[i], m);
    MatchFires(sels[i], m);
    ProgramDecision(sels, m);
  }

  /** The compiled program and the selectors take the same decision. */
  lemma CompilerCorrect(sels: seq<Selector>, m: Labels)
    requires NoTemp(m) && AllReadNoTemp(sels) && Exact(sels, m)
    ensures Run(Compile(sels), m) == Filter(sels, m)
  {
    if SomeMatches(sels, m) {
      NoLoss(sels, m);
    } else {
      ProgramDecision(sels, m);
      if i :| 0 <= i < |sels| && Fires(sels[i], m) {
        FireMatches(sels[i], m);
      }
    }
  }

  /** The remote writes a scrape config is fanned out over; one without settings stands in for none. */
  function Targets(agent: Option<seq<RemoteWrite<Rule>>>): seq<RemoteWrite<Rule>> {
    if agent.None? || agent.value == [] then [RulesOnly([])] else agent.value
  }

  lemma TranspileProduces(source: ScrapeSource, agent: Option<seq<RemoteWrite<Rule>>>, sels: seq<Selector>)
    requires source.matches.Some? && ParsedSelectors(source.matches.value) == Ok(sels) && sels != []
    ensures TranspileSpec(Some(source), agent) == Ok(ProgramSpecs(Targets(agent), Compile(sels) + source.custom))
  {
    var rules := Compile(sels) + source.custom;
    assert ProgramSpecs([RulesOnly([])], rules) == [RulesOnly(rules)];
  }

  lemma ProgramBeforeCustom(sels: seq<Selector>, custom: seq<Rule>, m: Labels)
    requires NoTemp(m) && AllReadNoTemp(sels) && Exact(sels, m)
    ensures Run(Compile(sels) + custom, m) == if SomeMatches(sels, m) then Run(custom, m) else None
  {
    CompilerCorrect(sels, m);
    RunConcat(Compile(sels), custom, m);
  }

  // ---------------------------------------------------------------- what is parsed

  type Entries = seq<Result<Selector, string>>

  /** Some entry is a selector with matchers, and it matches. */
  ghost predicate SomeEntryMatches(entries: Entries, m: Labels) {
    exists k :: 0 <= k < |entries| && entries[k].Ok? && entries[k].value != [] && SelectorMatches(entries[k].value, m)
  }

  predicate AllParse(entries: Entries) {
    forall k :: 0 <= k < |entries| ==> entries[k].Ok?
  }

  /** The first entry that does not parse fails with `e`. */
  ghost predicate FirstError(entries: Entries, e: string) {
    exists k :: 0 <= k < |entries| && entries[k] == Err(e) && forall j :: 0 <= j < k ==> entries[j].Ok?
  }

  /** If all entries parse, the selectors are those with matchers. */
  lemma {:induction false} ParsedAre(entries: Entries)
    requires AllParse(entries)
    ensures ParsedSelectors(entries).Ok?
    ensures forall sel :: sel in ParsedSelectors(entries).value <==> sel != [] && Ok(sel) in entries
  {
    if entries != [] {
      var init, last := entries[..|entries| - 1], entries[|entries| - 1];
      assert entries == init + [last];
      ParsedAre(init);
    }
  }

  /** They keep their order, and none is left out because of another. */
  lemma {:induction false} ParsedInOrder(before: Entries, after: Entries)
    requires AllParse(before) && AllParse(after)
    ensures ParsedSelectors(before).Ok? && ParsedSelectors(after).Ok?
    ensures ParsedSelectors(before + after) == Ok(ParsedSelectors(before).value + ParsedSelectors(after).value)
  {
    ParsedAre(before);
    ParsedAre(after);
    if after == [] {
      assert before + after == before;
      assert ParsedSelectors(before).value + [] == ParsedSelectors(before).value;
    } else {
      var init := after[..|after| - 1];
      assert (before + after)[..|before + after| - 1] == before + init;
      ParsedInOrder(before, init);
      var xs, ys, last := ParsedSelectors(before).value, ParsedSelectors(init).value, after[|after| - 1].value;
      assert (before + after)[|before + after| - 1] == Ok(last);
      assert (xs + ys) + [last] == xs + (ys + [last]);
    }
  }

  /** Parsing fails exactly if some entry does, and then like the first of these. */
  lemma ParseFailsIff(entries: Entries, e: string)
    ensures ParsedSelectors(entries) == Err(e) <==> FirstError(entries, e)
  {
    if AllParse(entries) {
      ParsedAre(entries);
    } else {
      var k := FirstFailing(entries);
      ParsedAre(entries[..k]);
      ParseStopsAtError(entries, k);
    }
  }

  lemma {:induction false} FirstFailing(entries: Entries) returns (k: nat)
    requires !AllParse(entries)
    ensures k < |entries| && entries[k].Err? && forall j :: 0 <= j < k ==> entries[j].Ok?
  {
    var init := entries[..|entries| - 1];
    if AllParse(init) {
      k := |init|;
      assert forall j :: 0 <= j < k ==> entries[j] == init[j];
    } else {
      k := FirstFailing(init);
      assert forall j :: 0 <= j <= k ==> entries[j] == init[j];
    }
  }

  /** The selectors match what the entries match. */
  lemma ParsedMatch(entries: Entries, m: Labels)
    requires AllParse(entries)
    ensures ParsedSelectors(entries).Ok?
    ensures SomeMatches(ParsedSelectors(entries).value, m) <==> SomeEntryMatches(entries, m)
  {
    hide SelectorMatches, ParsedSelectors;
    ParsedAre(entries);
    var sels := ParsedSelectors(entries).value;
    if i :| 0 <= i < |sels| && SelectorMatches(sels[i], m) {
      assert sels[i] in sels;
      var k :| 0 <= k < |entries| && entries[k] == Ok(sels[i]);
    }
    if k :| 0 <= k < |entries| && entries[k].Ok? && entries[k].value != [] && SelectorMatches(entries[k].value, m) {
      assert Ok(entries[k].value) in entries;
      var i :| 0 <= i < |sels| && sels[i] == entries[k].value;
    }
  }

  /** No positive anchor of an entry is misplaced, and none reads a temporary label. */
  ghost predicate EntriesLossFree(entries: Entries) {
    forall k :: 0 <= k < |entries| && entries[k].Ok? ==> ReadsNoTemp(entries[k].value) && PositivesInPlace(entries[k].value)
  }

  /** The conditions of CompilerCorrect, for every entry. */
  ghost predicate EntriesExact(entries: Entries, m: Labels) {
    forall k :: 0 <= k < |entries| && entries[k].Ok? ==>
      && ReadsNoTemp(entries[k].value) && PositivesInPlace(entries[k].value)
      && (FewPositives(entries[k].value) || SeparatorSafe(entries[k].value, m))
      && NegativesInPlace(entries[k].value) && !LoneEmpty(entries[k].value)
  }

  lemma ParsedLossFree(entries: Entries)
    requires AllParse(entries) && EntriesLossFree(entries)
    ensures ParsedSelectors(entries).Ok?
    ensures AllReadNoTemp(ParsedSelectors(entries).value) && LossFree(ParsedSelectors(entries).value)
  {
    hide ReadsNoTemp, PositivesInPlace, ParsedSelectors;
    ParsedAre(entries);
    var sels := ParsedSelectors(entries).value;
    forall i | 0 <= i < |sels| ensures ReadsNoTemp(sels[i]) && PositivesInPlace(sels[i]) {
      assert sels[i] in sels;
      var k :| 0 <= k < |entries| && entries[k] == Ok(sels[i]);
    }
  }

  lemma ParsedExact(entries: Entries, m: Labels)
    requires AllParse(entries) && EntriesExact(entries, m)
    ensures ParsedSelectors(entries).Ok?
    ensures AllReadNoTemp(ParsedSelectors(entries).value) && Exact(ParsedSelectors(entries).value, m)
  {
    hide ReadsNoTemp, PositivesInPlace, ParsedSelectors, NegativesInPlace, FewPositives, SeparatorSafe, LoneEmpty;
    ParsedAre(entries);
    var sels := ParsedSelectors(entries).value;
    forall i | 0 <= i < |sels|
      ensures ReadsNoTemp(sels[i]) && PositivesInPlace(sels[i]) && (FewPositives(sels[i]) || SeparatorSafe(sels[i], m))
      ensures NegativesInPlace(sels[i]) && !LoneEmpty(sels[i])
    {
      assert sels[i] in sels;
      var k :| 0 <= k < |entries| && entries[k] == Ok(sels[i]);
    }
  }

  predicate AllEmpty(entries: Entries) {
    forall k :: 0 <= k < |entries| ==> entries[k] == Ok([])
  }

  lemma ParsedEmptyIff(entries: Entries)
    ensures ParsedSelectors(entries) == Ok([]) <==> AllEmpty(entries)
  {
    if AllParse(entries) {
      ParsedAre(entries);
      if ParsedSelectors(entries) == Ok([]) {
        forall k | 0 <= k < |entries| ensures entries[k] == Ok([]) {
          assert Ok(entries[k].value) in entries;
        }
      } else {
        assert ParsedSelectors(entries).value[0] in ParsedSelectors(entries).value;
      }
    } else {
      var k := FirstFailing(entries);
      ParsedAre(entries[..k]);
      ParseStopsAtError(entries, k);
    }
  }

  // ---------------------------------------------------------------- what is produced

  /** A spec filters samples by the entries and passes the survivors to the custom rules. */
  ghost predicate FiltersThenRuns(spec: RemoteWrite<Rule>, entries: Entries, custom: seq<Rule>, m: Labels) {
    Run(spec.rules, m) == if SomeEntryMatches(entries, m) then Run(custom, m) else None
  }

  /** If all entries parse and some has matchers, then every remote-write spec that Transpile
      produces keeps a sample exactly if some entry with matchers matches it, and then applies the
      scrape config's own relabel rules; there is one spec per remote write of the agent, and its
      other fields are those of that remote write. */
  lemma TranspileFilters(source: ScrapeSource, agent: Option<seq<RemoteWrite<Rule>>>, m: Labels)
    requires source.matches.Some? && AllParse(source.matches.value) && !AllEmpty(source.matches.value)
    requires NoTemp(m) && EntriesExact(source.matches.value, m)
    ensures var res := TranspileSpec(Some(source), agent); var targets := Targets(agent);
      && res.Ok? && |res.value| == |targets|
      && (forall k :: 0 <= k < |targets| ==> FiltersThenRuns(res.value[k], source.matches.value, source.custom, m))
      && (forall k :: 0 <= k < |targets| ==> res.value[k].(rules := []) == targets[k].(rules := [], other := None))
  {
    hide ParsedSelectors, Exact, EntriesExact, Compile, AllEmpty, AllReadNoTemp, SomeEntryMatches, SomeMatches, TranspileSpec;
    var entries := source.matches.value;
    ParsedExact(entries, m);
    ParsedEmptyIff(entries);
    ParsedMatch(entries, m);
    var sels := ParsedSelectors(entries).value;
    TranspileProduces(source, agent, sels);
    ProgramBeforeCustom(sels, source.custom, m);
    var specs := ProgramSpecs(Targets(agent), Compile(sels) + source.custom);
    forall k | 0 <= k < |specs| ensures FiltersThenRuns(specs[k], entries, source.custom, m) {
      assert specs[k].rules == Compile(sels) + source.custom;
    }
  }

  /** No produced spec loses a matched sample before the scrape config's own rules see it, whatever
      the label values contain. */
  lemma TranspileNoLoss(source: ScrapeSource, agent: Option<seq<RemoteWrite<Rule>>>, m: Labels)
    requires source.matches.Some? && AllParse(source.matches.value) && SomeEntryMatches(source.matches.value, m)
    requires NoTemp(m) && EntriesLossFree(source.matches.value)
    ensures var res := TranspileSpec(Some(source), agent);
      && res.Ok? && |res.value| == |Targets(agent)|
      && forall k :: 0 <= k < |res.value| ==> Run(res.value[k].rules, m) == Run(source.custom, m)
  {
    hide ParsedSelectors, LossFree, EntriesLossFree, Compile, AllReadNoTemp, SelectorMatches, TranspileSpec;
    var entries := source.matches.value;
    ParsedLossFree(entries);
    ParsedMatch(entries, m);
    var sels := ParsedSelectors(entries).value;
    TranspileProduces(source, agent, sels);
    NoLoss(sels, m);
    RunConcat(Compile(sels), source.custom, m);
  }

  /** The scrape config is routed nowhere exactly if all its entries are selectors without matchers. */
  lemma TranspileEmptyIff(source: Option<ScrapeSource>, agent: Option<seq<RemoteWrite<Rule>>>)
    ensures TranspileSpec(source, agent) == Ok([]) <==>
            source.None? || source.value.matches.None? || AllEmpty(source.value.matches.value)
  {
    if source.Some? && source.value.matches.Some? {
      ParsedEmptyIff(source.value.matches.value);
    }
  }

  /** Transpiling fails exactly if some entry does not parse, and then like the first of these. */
  lemma TranspileFailsIff(source: Option<ScrapeSource>, agent: Option<seq<RemoteWrite<Rule>>>, e: string)
    ensures TranspileSpec(source, agent) == Err(e) <==>
            source.Some? && source.value.matches.Some? && FirstError(source.value.matches.value, e)
  {
    if source.Some? && source.value.matches.Some? {
      ParseFailsIff(source.value.matches.value, e);
    }
  }
}
