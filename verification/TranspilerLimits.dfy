/** Where the relabel program and its selectors part: exact conditions on samples and on anchors, with
    examples. */
module TranspilerLimits {
  import opened Wrappers
  import opened Text
  import opened Regex
  import opened Relabel
  import opened Sorting
  import opened Transpiler
  import opened TranspilerDecision
  import opened TranspilerCorrectness

  lemma SingleProgram(sel: Selector, m: Labels)
    requires NoTemp(m) && ReadsNoTemp(sel)
    ensures Run(Compile([sel]), m) == if Fires(sel, m) then Some(m) else None
  {
    var sels := [sel];
    assert sels[0] == sel;
    ProgramDecision(sels, m);
    if Fires(sel, m) { assert Fires(sels[0], m); }
  }

  ghost predicate Handled(sels: seq<Selector>) {
    forall i :: 0 <= i < |sels| ==>
      ReadsNoTemp(sels[i]) && PositivesInPlace(sels[i]) && NegativesInPlace(sels[i]) && !LoneEmpty(sels[i])
  }

  /** Every program decides this sample like its selectors do. */
  ghost predicate AlwaysDecidedRight(m: Labels) {
    forall sels :: Handled(sels) ==> Run(Compile(sels), m) == Filter(sels, m)
  }

  predicate SeparatorFreeValues(m: Labels) {
    forall name :: name in m ==> ';' !in m[name]
  }

  const SOME_TEXT := Cat(ANY, ANYTHING)
  const NO_SEPARATOR := Star(One({';'}, true))

  /** `name=~".+"` */
  function NonEmptyMatcher(name: string): Matcher {
    Matcher(MatchRegexp, name, ".+", SOME_TEXT)
  }

  /** `name=~"[^;]*"` */
  function NoSeparatorMatcher(name: string): Matcher {
    Matcher(MatchRegexp, name, "[^;]*", NO_SEPARATOR)
  }

  lemma NonEmptyMatches(v: string)
    ensures Matches(SOME_TEXT, v) <==> v != ""
  {
    if v != "" {
      AnythingMatchesAt(v, 1, |v|);
      assert MatchAt(ANY, v, 0, 1);
    }
  }

  lemma {:induction false} NoSeparatorMatches(v: string, i: nat)
    requires i <= |v| && ';' !in v
    ensures MatchAt(NO_SEPARATOR, v, i, |v|)
    decreases |v| - i
  {
    if i < |v| {
      NoSeparatorMatches(v, i + 1);
      assert v[i] in v;
      assert MatchAt(One({';'}, true), v, i, i + 1);
    }
  }

  lemma NoSeparatorRejects(v: string)
    requires ';' in v
    ensures !Matches(NO_SEPARATOR, v)
  {
    assert v[0..|v|] == v;
    if Matches(NO_SEPARATOR, v) {
      AvoidsSound(NO_SEPARATOR, v, 0, |v|, ';');
    }
  }

  lemma {:induction false} LastSeparator(v: string) returns (at: nat)
    requires ';' in v
    ensures at < |v| && v[at] == ';' && ';' !in v[at + 1..]
  {
    var n := |v| - 1;
    if v[n] == ';' {
      at := n;
    } else {
      assert v == v[..n] + [v[n]];
      at := LastSeparator(v[..n]);
      assert v[at + 1..] == v[..n][at + 1..] + [v[n]];
    }
  }

  /** The selector `{name=~".+", name=~"[^;]*"}`. */
  function Confusing(name: string): Selector {
    [NonEmptyMatcher(name), NoSeparatorMatcher(name)]
  }

  lemma ConfusingSorted(name: string)
    ensures Sorted(Positives(Confusing(name))) ==
            [PosMatcher(name, PatternOf(NonEmptyMatcher(name))), PosMatcher(name, PatternOf(NoSeparatorMatcher(name)))]
  {
    hide Compare;
    var a, b := NonEmptyMatcher(name), NoSeparatorMatcher(name);
    var pa, pb := PosMatcher(name, PatternOf(a)), PosMatcher(name, PatternOf(b));
    var sel := Confusing(name);
    assert sel[..1] == [a] && [a][..0] == [];
    assert Positives([a]) == [] + [pa];
    assert Positives(sel) == [pa, pb];
    CompareAntisymmetric(name, name);
    TextOrder();
    assert pa.pattern.text == "(?:.+)" && pb.pattern.text == "(?:[^;]*)";
    assert Before(pa, pb);
    assert [pa, pb][1..] == [pb] && [pb][1..] == [];
    assert SortBy(Before, [pb][1..]) == [];
    assert Sorted([pb]) == [pb];
  }

  lemma TextOrder()
    ensures Compare("(?:.+)", "(?:[^;]*)") == -1
  {
    assert "(?:.+)"[1..] == "?:.+)" && "(?:[^;]*)"[1..] == "?:[^;]*)";
    assert "?:.+)"[1..] == ":.+)" && "?:[^;]*)"[1..] == ":[^;]*)";
    assert ":.+)"[1..] == ".+)" && ":[^;]*)"[1..] == "[^;]*)";
    assert Compare(".+)", "[^;]*)") == -1;
    assert Compare(":.+)", ":[^;]*)") == -1;
    assert Compare("?:.+)", "?:[^;]*)") == -1;
  }

  /** The two values joined by a `;` can be cut at the last `;` of the second one. */
  lemma ConfusingCut(v: string)
    requires ';' in v
    ensures Matches(JoinRe([SOME_TEXT, NO_SEPARATOR]), v + ";" + v)
  {
    hide Matches, Placed, AnchorsInPlace;
    var at := LastSeparator(v);
    var s, w1, w2 := v + ";" + v, v + ";" + v[..at], v[at + 1..];
    NonEmptyMatches(w1);
    NoSeparatorMatches(w2, 0);
    WholeMatch(NO_SEPARATOR, w2);
    JoinPair(w1, w2);
    assert v == v[..at] + ";" + v[at + 1..];
    assert s == w1 + ";" + w2;
    var res := [SOME_TEXT, NO_SEPARATOR];
    PlainInPlace(res);
    InPlaceUnchanged(res);
    assert MatchesAll(res, [w1, w2]);
    JoinMatchIff(res, s);
  }

  lemma ConfusingMarks(m: Labels, name: string)
    requires name in m && ';' in m[name]
    ensures Marks(Confusing(name), m)
  {
    hide Matches, Sorted, Positives, JoinRe;
    var v := m[name];
    ConfusingCut(v);
    JoinPair(v, v);
    ConfusingSorted(name);
    var pms := Sorted(Positives(Confusing(name)));
    assert Values(m, Names(pms)) == [v, v];
    assert Expressions(pms) == [SOME_TEXT, NO_SEPARATOR];
  }

  lemma ConfusingRejects(m: Labels, name: string)
    requires name in m && ';' in m[name]
    ensures !SomeMatches([Confusing(name)], m)
  {
    var sel := Confusing(name);
    NoSeparatorRejects(m[name]);
    assert !Accepts(sel[1], Get(m, name));
  }

  lemma ConfusingHandled(name: string)
    requires !IsTemp(name)
    ensures Handled([Confusing(name)])
  {
    var sel := Confusing(name);
    ConfusingSorted(name);
    assert Joined(sel) == [SOME_TEXT, NO_SEPARATOR];
    SortedLength(sel);
    PlainInPlace(Joined(sel));
  }

  lemma ConfusingNeverClears(name: string, m: Labels)
    ensures !SomeClears(Confusing(name), m)
  {
  }

  /** A `;` in any label value confuses some program: the selector above rejects the sample, yet
      its rule fires, because the joined value can be cut at the last separator. */
  lemma SeparatorConfuses(m: Labels, name: string)
    requires NoTemp(m) && name in m && ';' in m[name]
    ensures Handled([Confusing(name)]) && !SomeMatches([Confusing(name)], m)
    ensures Run(Compile([Confusing(name)]), m) == Some(m)
  {
    ConfusingHandled(name);
    ConfusingRejects(m, name);
    ConfusingMarks(m, name);
    ConfusingNeverClears(name, m);
    assert ReadsNoTemp([Confusing(name)][0]);
    SingleProgram(Confusing(name), m);
  }

  lemma CleanIsDecidedRight(m: Labels)
    requires NoTemp(m) && SeparatorFreeValues(m)
    ensures AlwaysDecidedRight(m)
  {
    forall sels | Handled(sels) ensures Run(Compile(sels), m) == Filter(sels, m) {
      forall i | 0 <= i < |sels| ensures SeparatorSafe(sels[i], m) && ReadsNoTemp(sels[i]) {
      }
      CompilerCorrect(sels, m);
    }
  }

  /** A kept sample loses its temporary labels, so it needs to have none. */
  lemma DecidedRightHasNoTemp(m: Labels)
    requires AlwaysDecidedRight(m) && Get(m, "__name__") != ""
    ensures NoTemp(m)
  {
    hide Run, Compile, Matches;
    var sel := [NonEmptyMatcher("__name__")];
    NonEmptyMatches(Get(m, "__name__"));
    SortPermutes(Before, Positives(sel));
    PlainInPlace(Joined(sel));
    assert Handled([sel]);
    assert SelectorMatches([sel][0], m);
    OutputHasNoTemp([sel], m);
  }

  /** A sample is decided right by every program exactly if it carries no temporary label and no
      label value with a `;`. */
  lemma DecidedRightIff(m: Labels)
    requires Get(m, "__name__") != ""
    ensures AlwaysDecidedRight(m) <==> NoTemp(m) && SeparatorFreeValues(m)
  {
    if NoTemp(m) && SeparatorFreeValues(m) {
      CleanIsDecidedRight(m);
    }
    if AlwaysDecidedRight(m) {
      DecidedRightHasNoTemp(m);
      if name :| name in m && ';' in m[name] {
        SeparatorConfuses(m, name);
        assert false;
      }
    }
  }

  // ---------------------------------------------------------------- anchors

  /** A sample that the selector matches survives its program exactly if the positive expressions
      still accept its values in their places. Holds for any expressions. */
  lemma SurvivesIff(sel: Selector, m: Labels)
    requires NoTemp(m) && ReadsNoTemp(sel) && (FewPositives(sel) || SeparatorSafe(sel, m))
    requires SelectorMatches(sel, m)
    ensures Run(Compile([sel]), m) == Some(m) <==> PlacedAccept(sel, m)
  {
    hide Marks, SomeClears, Compile, PlacedAccept, SelectorMatches, LoneEmpty, SeparatorSafe;
    SingleProgram(sel, m);
    MarksIff(sel, m);
    MatchedNeverCleared(sel, m);
    if LoneEmpty(sel) {
      LonePlaced(sel, m);
    }
  }

  lemma LonePlaced(sel: Selector, m: Labels)
    requires LoneEmpty(sel) && SelectorMatches(sel, m)
    ensures PlacedAccept(sel, m)
  {
    hide SelectorMatches, PositivesAccept, PlacedAccept, Sorted, Positives;
    SortedLength(sel);
    PlainInPlace(Joined(sel));
    SplitMatch(sel, m);
    PlacedComplete(sel, m);
  }

  /** A positive expression that needs an anchor where it cannot hold keeps every sample unmarked. */
  lemma MisplacedNeverMarks(sel: Selector, p: nat, m: Labels)
    requires p < |Joined(sel)| && Needs(Joined(sel)[p], p > 0, p < |Joined(sel)| - 1)
    ensures !Marks(sel, m)
  {
    hide Matches, Needs, Join, Sorted, Positives, MarkField;
    var vs := Values(m, Names(Sorted(Positives(sel))));
    MisplacedNeverJoins(Joined(sel), p, Join(vs, ';'));
    JoinMatchIff(Joined(sel), Join(vs, ';'));
    JoinedAcceptIs(Joined(sel), vs);
    if LoneEmpty(sel) {
      SortedLength(sel);
      LacksNone(Joined(sel)[0]);
      NeedsNone(Joined(sel)[0]);
    }
    MarksExactly(sel, m);
  }

  /** The positive expressions are plain, start with `^`, end with `$`, or the like. */
  predicate PositivesClearCut(sel: Selector) {
    forall p :: 0 <= p < |Joined(sel)| ==> ClearCut(Joined(sel)[p])
  }

  predicate NegativesClearCut(sel: Selector) {
    forall k :: 0 <= k < |sel| && !IsPositive(sel[k]) ==> ClearCut(PatternOf(sel[k]).re)
  }

  lemma {:induction false} LacksCat(a: Re, b: Re, begin: bool, end: bool)
    ensures Lacks(Cat(a, b), begin, end) <==> Lacks(a, begin, end) && Lacks(b, begin, end)
    ensures Needs(Cat(a, b), begin, end) <==> Needs(a, begin, end) || Needs(b, begin, end)
  {
  }

  lemma OnlyAnchors(begin: bool, end: bool)
    ensures Lacks(Begin, begin, end) == !begin && Needs(Begin, begin, end) == begin
    ensures Lacks(End, begin, end) == !end && Needs(End, begin, end) == end
  {
  }

  lemma ShapesNeed(body: Re)
    ensures Needs(Cat(Begin, body), true, false) && Needs(Cat(body, End), false, true)
    ensures Needs(Cat(Begin, Cat(body, End)), true, false) && Needs(Cat(Begin, Cat(body, End)), false, true)
  {
    hide Needs, Lacks;
    OnlyAnchors(true, false);
    OnlyAnchors(false, true);
    LacksCat(Begin, body, true, false);
    LacksCat(body, End, false, true);
    LacksCat(Begin, Cat(body, End), true, false);
    LacksCat(Begin, Cat(body, End), false, true);
  }

  lemma {:induction false} NeedsNone(re: Re)
    ensures !Needs(re, false, false)
  {
    match re {
      case Cat(a, b) => NeedsNone(a); NeedsNone(b);
      case Alt(a, b) => NeedsNone(a);
      case _ =>
    }
  }

  /** The usual shapes are clear-cut. */
  lemma ShapesClearCut(body: Re)
    requires AnchorFree(body)
    ensures ClearCut(body) && ClearCut(Cat(Begin, body)) && ClearCut(Cat(body, End)) && ClearCut(Cat(Begin, Cat(body, End)))
  {
    hide Needs, Lacks;
    assert Lacks(body, true, true);
    LacksLess(body, true, true, true, false);
    LacksLess(body, true, true, false, true);
    ShapesNeed(body);
    OnlyAnchors(true, false);
    OnlyAnchors(false, true);
    LacksCat(Begin, body, false, true);
    LacksCat(body, End, true, false);
  }

  /** A sample that the selector matches survives its program exactly if, in the sorted order of the
      positive matchers, only the first uses `^` and only the last uses `$`. Whatever the label
      values contain. */
  lemma AnchoredSurvivesIff(sel: Selector, m: Labels)
    requires NoTemp(m) && ReadsNoTemp(sel) && PositivesClearCut(sel)
    requires SelectorMatches(sel, m)
    ensures Run(Compile([sel]), m) == Some(m) <==> PositivesInPlace(sel)
  {
    hide Marks, SomeClears, Compile, SelectorMatches, Joined, Lacks, Needs;
    SingleProgram(sel, m);
    if PositivesInPlace(sel) {
      MatchFires(sel, m);
    } else {
      var res := Joined(sel);
      var p :| 0 <= p < |res| && !Lacks(res[p], p > 0, p < |res| - 1);
      ClearCutErased(res[p], p > 0, p < |res| - 1);
      MisplacedNeverMarks(sel, p, m);
    }
  }

  /** A sample that only negative matchers of the selector reject is dropped by its program exactly
      if one of the rejecting matchers does not use `^`. */
  lemma AnchoredRejectsIff(sel: Selector, m: Labels)
    requires NoTemp(m) && ReadsNoTemp(sel) && NegativesClearCut(sel)
    requires PositivesInPlace(sel) && PositivesAccept(sel, m)
    ensures Run(Compile([sel]), m) == None <==>
            exists k :: 0 <= k < |sel| && !IsPositive(sel[k]) && Lacks(PatternOf(sel[k]).re, true, false) && !Accepts(sel[k], Get(m, sel[k].name))
  {
    hide Accepts, Clears, Lacks, Needs, PatternOf, Compile, Marks;
    SingleProgram(sel, m);
    MarksComplete(sel, m);
    if k :| 0 <= k < |sel| && !IsPositive(sel[k]) && Lacks(PatternOf(sel[k]).re, true, false) && !Accepts(sel[k], Get(m, sel[k].name)) {
      ClearsComplete(sel[k], m);
    }
    if k :| 0 <= k < |sel| && Clears(sel[k], m) {
      ClearsSound(sel[k], m);
      ClearsIff(sel[k], m);
      if Needs(PatternOf(sel[k]).re, true, false) { NeededNeverClears(sel[k], m); }
    }
  }

  // ---------------------------------------------------------------- an empty regex field

  lemma LoneExpression(sel: Selector)
    requires LoneEmpty(sel)
    ensures Joined(sel) == [Eps] && Sorted(Positives(sel)) == Positives(sel)
    ensures exists k :: 0 <= k < |sel| && sel[k].kind.MatchEqual? && sel[k].value == "" && sel[k].name == Positives(sel)[0].name
  {
    hide Sorted, Positives, PatternOf;
    var k :| 0 <= k < |sel| && sel[k].kind.MatchEqual? && sel[k].value == "";
    var pm := PosMatcher(sel[k].name, PatternOf(sel[k]));
    SortedLength(sel);
    PositivesAre(sel, pm);
    SortedPositivesAre(sel, pm);
    var pms, sorted := Positives(sel), Sorted(Positives(sel));
    assert pms == [pms[0]] && sorted == [sorted[0]];
    assert pm in pms && pm in sorted;
    EmptyPattern(sel[k]);
  }

  lemma EmptyPattern(lm: Matcher)
    requires lm.kind.MatchEqual? && lm.value == ""
    ensures PatternOf(lm).re == Eps
  {
  }

  /** If `n=""` is the only positive matcher of a selector, its program decides a sample right exactly
      if the sample lacks the label or some negative matcher rejects it. */
  lemma LoneEmptyRightIff(sel: Selector, m: Labels)
    requires LoneEmpty(sel) && NegativesInPlace(sel) && NoTemp(m) && ReadsNoTemp(sel)
    ensures Run(Compile([sel]), m) == Filter([sel], m) <==>
            Get(m, Positives(sel)[0].name) == "" || exists k :: 0 <= k < |sel| && !IsPositive(sel[k]) && !Accepts(sel[k], Get(m, sel[k].name))
  {
    hide Accepts, Clears, Compile, Sorted, Positives, Matches, PatternOf, MarkField, Lacks, Run;
    SingleProgram(sel, m);
    MarksExactly(sel, m);
    LoneExpression(sel);
    LoneAccepts(sel, m);
    SplitMatch(sel, m);
    assert SomeMatches([sel], m) <==> SelectorMatches(sel, m) by {
      assert [sel][0] == sel;
    }
    forall k | 0 <= k < |sel|
      ensures Clears(sel[k], m) <==> !IsPositive(sel[k]) && !Accepts(sel[k], Get(m, sel[k].name))
    {
      ClearsIff(sel[k], m);
      if Clears(sel[k], m) {
        ClearsSound(sel[k], m);
      } else if !IsPositive(sel[k]) && !Accepts(sel[k], Get(m, sel[k].name)) {
        ClearsComplete(sel[k], m);
      }
    }
  }

  lemma LoneAccepts(sel: Selector, m: Labels)
    requires LoneEmpty(sel)
    ensures PositivesAccept(sel, m) <==> Get(m, Positives(sel)[0].name) == ""
  {
    hide Sorted, Positives, PatternOf;
    LoneExpression(sel);
    PositivesAcceptSorted(sel, m);
    var pms := Sorted(Positives(sel));
    assert Expressions(pms)[0] == pms[0].pattern.re == Eps;
  }

  /** The selector `{env="", job!=""}` rejects `up{env="prod", job="x"}`; its program keeps it. */
  lemma LoneEmptyKeeps()
    ensures var sel := [Matcher(MatchEqual, "env", "", Eps), Matcher(MatchNotEqual, "job", "", Eps)];
      var m := map["__name__" := "up", "env" := "prod", "job" := "x"];
      !SelectorMatches(sel, m) && Run(Compile([sel]), m) == Some(m)
  {
    hide Run, Compile, Sorted, Matches, Lit, Lacks, MarkField;
    var sel := [Matcher(MatchEqual, "env", "", Eps), Matcher(MatchNotEqual, "job", "", Eps)];
    var m: Labels := map["__name__" := "up", "env" := "prod", "job" := "x"];
    assert sel[..1] == [sel[0]] && [sel[0]][..0] == [];
    assert Positives([sel[0]]) == [] + [PosMatcher("env", PatternOf(sel[0]))];
    assert LoneEmpty(sel);
    LoneNegatives(sel);
    assert !Accepts(sel[0], Get(m, "env"));
    assert Accepts(sel[1], Get(m, "job"));
    SingleProgram(sel, m);
    LoneEmptyRightIff(sel, m);
  }

  lemma LoneNegatives(sel: Selector)
    requires forall k :: 0 <= k < |sel| ==> !sel[k].kind.MatchNotRegexp?
    ensures NegativesInPlace(sel)
  {
    forall k | 0 <= k < |sel| && !IsPositive(sel[k]) ensures Lacks(PatternOf(sel[k]).re, true, false) {
      LitAnchorFree(sel[k].value);
      LacksLess(Lit(sel[k].value), true, true, true, false);
    }
  }

  // ---------------------------------------------------------------- anchored examples

  /** The series `up{job="x"}` */
  function AnchoredSample(): Labels {
    map["__name__" := "up", "job" := "x"]
  }

  /** A selector over `__name__` and `job` with one positive matcher each. */
  predicate IsPair(sel: Selector) {
    && |sel| == 2 && sel[0].name == "__name__" && sel[1].name == "job"
    && IsPositive(sel[0]) && IsPositive(sel[1])
  }

  lemma PairJoined(sel: Selector)
    requires IsPair(sel)
    ensures Joined(sel) == [PatternOf(sel[0]).re, PatternOf(sel[1]).re]
  {
    hide PatternOf;
    var a, b := PosMatcher("__name__", PatternOf(sel[0])), PosMatcher("job", PatternOf(sel[1]));
    assert sel[..1] == [sel[0]] && [sel[0]][..0] == [];
    assert Positives([sel[0]]) == [] + [a];
    assert Positives(sel) == [a, b];
    assert Compare("__name__", "job") == -1;
    assert Before(a, b);
    assert [a, b][1..] == [b] && [b][1..] == [];
    assert SortBy(Before, [b][1..]) == [];
    assert Sorted([b]) == [b];
  }

  lemma PairReads(sel: Selector)
    requires IsPair(sel)
    ensures ReadsNoTemp(sel) && NoTemp(AnchoredSample())
  {
  }

  lemma PairMatches(sel: Selector)
    requires IsPair(sel) && Accepts(sel[0], "up") && Accepts(sel[1], "x")
    ensures SelectorMatches(sel, AnchoredSample())
  {
  }

  /** A pair whose first expression ends with `$` or whose second starts with `^` loses the sample. */
  lemma PairLost(sel: Selector)
    requires IsPair(sel) && SelectorMatches(sel, AnchoredSample())
    requires Needs(PatternOf(sel[0]).re, false, true) || Needs(PatternOf(sel[1]).re, true, false)
    ensures Run(Compile([sel]), AnchoredSample()) == None
  {
    hide Compile, Run, PatternOf, Sorted;
    var m, res := AnchoredSample(), Joined(sel);
    PairJoined(sel);
    PairReads(sel);
    SingleProgram(sel, m);
    var p := if Needs(PatternOf(sel[0]).re, false, true) then 0 else 1;
    MisplacedNeverMarks(sel, p, m);
  }

  function UpMatcher(): Matcher {
    Matcher(MatchEqual, "__name__", "up", Eps)
  }

  function JobMatcher(): Matcher {
    Matcher(MatchEqual, "job", "x", Eps)
  }

  lemma LedMatches(t: string)
    ensures Matches(Cat(Begin, Lit(t)), t)
  {
    LitMatch(t, t, 0, |t|);
    assert t[0..|t|] == t;
    CatJoin(Begin, Lit(t), t, 0, 0, |t|);
  }

  lemma WrappedMatches(t: string)
    ensures Matches(Cat(Begin, Cat(Lit(t), End)), t)
  {
    LitMatch(t, t, 0, |t|);
    assert t[0..|t|] == t;
    CatJoin(Lit(t), End, t, 0, |t|, |t|);
    CatJoin(Begin, Cat(Lit(t), End), t, 0, 0, |t|);
  }

  /** The series `up{job="x"}` is matched by `{__name__=~"^up$", job="x"}` and lost by its program. */
  lemma AnchoredSampleLost()
    ensures var sel := [Matcher(MatchRegexp, "__name__", "^up$", Cat(Begin, Cat(Lit("up"), End))), JobMatcher()];
      SelectorMatches(sel, AnchoredSample()) && Run(Compile([sel]), AnchoredSample()) == None
  {
    hide Lit, Run, Compile, Needs, Matches;
    var sel := [Matcher(MatchRegexp, "__name__", "^up$", Cat(Begin, Cat(Lit("up"), End))), JobMatcher()];
    WrappedMatches("up");
    ShapesNeed(Lit("up"));
    PairMatches(sel);
    PairLost(sel);
  }

  /** So it is by `{__name__="up", job=~"^x"}`. */
  lemma LateBeginLost()
    ensures var sel := [UpMatcher(), Matcher(MatchRegexp, "job", "^x", Cat(Begin, Lit("x")))];
      SelectorMatches(sel, AnchoredSample()) && Run(Compile([sel]), AnchoredSample()) == None
  {
    hide Lit, Run, Compile, Needs, Matches;
    var sel := [UpMatcher(), Matcher(MatchRegexp, "job", "^x", Cat(Begin, Lit("x")))];
    LedMatches("x");
    ShapesNeed(Lit("x"));
    PairMatches(sel);
    PairLost(sel);
  }

  lemma {:induction false} LedInPlace(first: Re, last: Re)
    requires AnchorFree(first) && AnchorFree(last)
    ensures AnchorsInPlace([Cat(Begin, first), last])
  {
    LacksLess(first, true, true, false, true);
    LacksLess(last, true, true, true, false);
    LacksCat(Begin, first, false, true);
  }

  /** The selector `{__name__=~"^up", job="x"}` is harmless: its program decides every sample whose
      values hold no `;` like the selector. */
  lemma EarlyBeginExact(m: Labels)
    requires NoTemp(m) && SeparatorFreeValues(m)
    ensures var sel := [Matcher(MatchRegexp, "__name__", "^up", Cat(Begin, Lit("up"))), JobMatcher()];
      Run(Compile([sel]), m) == Filter([sel], m)
  {
    hide Lit, Run, Compile, Sorted, Lacks, Matches;
    var sel := [Matcher(MatchRegexp, "__name__", "^up", Cat(Begin, Lit("up"))), JobMatcher()];
    PairJoined(sel);
    PairReads(sel);
    LitAnchorFree("up");
    LitAnchorFree("x");
    assert AnchorFree(Lit("up")) && AnchorFree(Lit("x"));
    LedInPlace(Lit("up"), Lit("x"));
    assert PositivesInPlace(sel);
    assert SeparatorSafe(sel, m);
    assert Exact([sel], m);
    assert AllReadNoTemp([sel]);
    CompilerCorrect([sel], m);
  }

  /** The selector `{__name__="up", job!~"^x$"}` rejects `up{job="x"}`; its program keeps it. */
  lemma AnchoredNegativeKeeps()
    ensures var sel := [UpMatcher(), Matcher(MatchNotRegexp, "job", "^x$", Cat(Begin, Cat(Lit("x"), End)))];
      !SelectorMatches(sel, AnchoredSample()) && Run(Compile([sel]), AnchoredSample()) == Some(AnchoredSample())
  {
    hide Lit, Run, Compile, Sorted, Matches, Lacks;
    var m := AnchoredSample();
    var sel := [UpMatcher(), Matcher(MatchNotRegexp, "job", "^x$", Cat(Begin, Cat(Lit("x"), End)))];
    WrappedMatches("x");
    assert !Accepts(sel[1], Get(m, "job"));
    assert Accepts(sel[0], Get(m, "__name__"));
    assert |Positives(sel)| <= 1 by { assert sel[..1] == [sel[0]] && [sel[0]][..0] == []; }
    SortPermutes(Before, Positives(sel));
    SortedLength(sel);
    PlainInPlace(Joined(sel));
    MarksComplete(sel, m);
    NeededNeverClears(sel[1], m);
    assert !SomeClears(sel, m);
    SingleProgram(sel, m);
  }
}
