/** Which selectors are compiled to a program that decides every sample like the selector does. */
module TranspilerSelectors {
  import opened Wrappers
  import opened Text
  import opened Regex
  import opened Relabel
  import opened Sorting
  import opened Transpiler
  import opened TranspilerDecision
  import opened TranspilerCorrectness
  import opened TranspilerLimits

  /** Every sample free of temporary labels is decided like the selector decides it. */
  ghost predicate DecidesAllRight(sel: Selector) {
    forall m :: NoTemp(m) ==> Run(Compile([sel]), m) == Filter([sel], m)
  }

  /** However the joined values are cut, acceptance in place and acceptance are the same. */
  ghost predicate CutsAgree(res: seq<Re>) {
    forall vs: seq<string> :: |vs| == |res| ==> (JoinedAccept(res, vs) <==> MatchesAll(res, vs))
  }

  function SampleOf(names: seq<string>, vs: seq<string>): Labels
    requires |names| == |vs|
  {
    if names == [] then map[]
    else
      var n := |names| - 1;
      SampleOf(names[..n], vs[..n])[names[n] := vs[n]]
  }

  lemma SetValues(m: Labels, name: string, value: string, names: seq<string>)
    requires name !in names
    ensures Values(m[name := value], names) == Values(m, names)
  {
  }

  lemma ValuesConcat(m: Labels, xs: seq<string>, ys: seq<string>)
    ensures Values(m, xs + ys) == Values(m, xs) + Values(m, ys)
  {
  }

  /** A sample of several distinct labels, each with its value. */
  lemma {:induction false} SampleValues(names: seq<string>, vs: seq<string>)
    requires |names| == |vs|
    requires forall i, j :: 0 <= i < j < |names| ==> names[i] != names[j]
    ensures forall name :: name in SampleOf(names, vs) <==> name in names
    ensures Values(SampleOf(names, vs), names) == vs
  {
    hide Values, Get;
    if names == [] {
      assert Values(map[], names) == vs;
    } else {
      var n := |names| - 1;
      var before, name := SampleOf(names[..n], vs[..n]), names[n];
      SampleValues(names[..n], vs[..n]);
      assert names == names[..n] + [name] && vs == vs[..n] + [vs[n]];
      SetValues(before, name, vs[n], names[..n]);
      ValuesConcat(before[name := vs[n]], names[..n], [name]);
      OneValue(before, name, vs[n]);
    }
  }

  lemma OneValue(m: Labels, name: string, value: string)
    ensures Values(m[name := value], [name]) == [value]
  {
  }

  predicate OnlyPositive(sel: Selector) {
    forall k :: 0 <= k < |sel| ==> IsPositive(sel[k])
  }

  /** No two positive matchers read the same label. */
  predicate ReadsEachOnce(sel: Selector) {
    var names := Names(Sorted(Positives(sel)));
    forall i, j :: 0 <= i < j < |names| ==> names[i] != names[j]
  }

  lemma OnlyPositiveDecision(sel: Selector, m: Labels)
    requires OnlyPositive(sel) && sel != [] && NoTemp(m) && ReadsNoTemp(sel)
    ensures var vs := Values(m, Names(Sorted(Positives(sel))));
      && Run(Compile([sel]), m) == (if LoneEmpty(sel) || JoinedAccept(Joined(sel), vs) then Some(m) else None)
      && Filter([sel], m) == (if MatchesAll(Joined(sel), vs) then Some(m) else None)
  {
    hide Accepts, Clears, Compile, JoinedAccept, Sorted, Positives, Matches, PatternOf, LoneEmpty, MarkField;
    SingleProgram(sel, m);
    MarksExactly(sel, m);
    SortedPositivesAre(sel, PosMatcher(sel[0].name, PatternOf(sel[0])));
    forall k | 0 <= k < |sel| ensures !Clears(sel[k], m) {
      ClearsIff(sel[k], m);
    }
    PositivesAcceptSorted(sel, m);
    ListAcceptsAll(Sorted(Positives(sel)), m);
    assert SomeMatches([sel], m) <==> SelectorMatches(sel, m) by {
      assert [sel][0] == sel;
    }
  }

  lemma ListAcceptsAll(pms: seq<PosMatcher>, m: Labels)
    ensures ListAccepts(pms, m) <==> MatchesAll(Expressions(pms), Values(m, Names(pms)))
  {
    hide Matches;
    forall p | 0 <= p < |pms|
      ensures Matches(pms[p].pattern.re, Get(m, pms[p].name)) <==> Matches(Expressions(pms)[p], Values(m, Names(pms))[p])
    {
    }
  }

  /** `{n=""}` keeps the samples that have the label, too. */
  lemma LoneDecidedWrong(sel: Selector)
    requires LoneEmpty(sel) && OnlyPositive(sel) && sel != [] && ReadsNoTemp(sel) && ReadsEachOnce(sel)
    ensures !DecidesAllRight(sel)
  {
    hide Compile, Run, Filter, LoneEmpty, Sorted, Positives, JoinedAccept;
    LoneExpression(sel);
    var names := Names(Sorted(Positives(sel)));
    var m := SampleOf(names, ["x"]);
    SampleValues(names, ["x"]);
    PositiveNamesNotTemp(sel);
    assert NoTemp(m);
    OnlyPositiveDecision(sel, m);
    assert !Matches(Eps, "x");
    assert !MatchesAll([Eps], ["x"]) by { assert !Matches([Eps][0], ["x"][0]); }
  }

  /** A selector of positive matchers over distinct labels decides every sample right exactly if it is
      no lone `n=""` and its expressions leave no choice in cutting joined values. */
  lemma SelectorDecidedRightIff(sel: Selector)
    requires OnlyPositive(sel) && sel != [] && ReadsNoTemp(sel) && ReadsEachOnce(sel)
    ensures DecidesAllRight(sel) <==> !LoneEmpty(sel) && CutsAgree(Joined(sel))
  {
    hide Compile, Run, Filter, JoinedAccept, MatchesAll, Sorted, LoneEmpty;
    var res, names := Joined(sel), Names(Sorted(Positives(sel)));
    if LoneEmpty(sel) {
      LoneDecidedWrong(sel);
    } else if CutsAgree(res) {
      forall m | NoTemp(m) ensures Run(Compile([sel]), m) == Filter([sel], m) {
        OnlyPositiveDecision(sel, m);
        assert |Values(m, names)| == |res|;
      }
    }
    if DecidesAllRight(sel) && !LoneEmpty(sel) {
      forall vs: seq<string> | |vs| == |res| ensures JoinedAccept(res, vs) <==> MatchesAll(res, vs) {
        var m := SampleOf(names, vs);
        SampleValues(names, vs);
        PositiveNamesNotTemp(sel);
        assert NoTemp(m);
        OnlyPositiveDecision(sel, m);
      }
    }
  }

  // ---------------------------------------------------------------- equality matchers

  lemma {:induction false} JoinConcat(xs: seq<string>, ys: seq<string>)
    requires xs != [] && ys != []
    ensures Join(xs + ys, ';') == Join(xs, ';') + ";" + Join(ys, ';')
  {
    if |xs| == 1 {
      assert (xs + ys)[1..] == ys;
    } else {
      JoinConcat(xs[1..], ys);
      assert (xs + ys)[1..] == xs[1..] + ys;
    }
  }

  /** Replacing two neighbours by others with the same join keeps the join of the list. */
  lemma JoinSwap(ws: seq<string>, p: nat, a: string, b: string)
    requires p + 1 < |ws| && a + ";" + b == ws[p] + ";" + ws[p + 1]
    ensures Join(ws[p := a][p + 1 := b], ';') == Join(ws, ';')
  {
    var before, pair, rest := ws[..p], [ws[p], ws[p + 1]], ws[p + 2..];
    var tail := pair + rest;
    assert ws == before + tail && ws[p := a][p + 1 := b] == before + ([a, b] + rest);
    JoinPair(a, b);
    JoinPair(ws[p], ws[p + 1]);
    if rest != [] {
      JoinConcat(pair, rest);
      JoinConcat([a, b], rest);
    } else {
      assert pair + rest == pair && [a, b] + rest == [a, b];
    }
    if before != [] {
      JoinConcat(before, tail);
      JoinConcat(before, [a, b] + rest);
    } else {
      assert before + tail == tail && before + ([a, b] + rest) == [a, b] + rest;
    }
  }

  /** A `;` in one of several values leaves another way to cut their join. */
  lemma Recut(ws: seq<string>, p: nat) returns (vs: seq<string>)
    requires |ws| >= 2 && p < |ws| && ';' in ws[p]
    ensures |vs| == |ws| && vs != ws && Join(vs, ';') == Join(ws, ';')
  {
    var at := LastSeparator(ws[p]);
    var x, y := ws[p][..at], ws[p][at + 1..];
    assert ws[p] == x + ";" + y;
    if p + 1 < |ws| {
      JoinSwap(ws, p, x, y + ";" + ws[p + 1]);
      vs := ws[p := x][p + 1 := y + ";" + ws[p + 1]];
    } else {
      JoinSwap(ws, p - 1, ws[p - 1] + ";" + x, y);
      vs := ws[p - 1 := ws[p - 1] + ";" + x][p := y];
    }
    assert |vs[p]| < |ws[p]|;
  }

  function Literals(ws: seq<string>): (r: seq<Re>)
    ensures |r| == |ws|
    ensures forall p :: 0 <= p < |ws| ==> r[p] == Lit(ws[p])
  {
    seq(|ws|, p requires 0 <= p < |ws| => Lit(ws[p]))
  }

  lemma LiteralsMatch(ws: seq<string>, vs: seq<string>)
    requires |vs| == |ws|
    ensures MatchesAll(Literals(ws), vs) <==> vs == ws
    ensures JoinedAccept(Literals(ws), vs) <==> Join(ws, ';') == Join(vs, ';')
  {
    hide Matches, Lit, Placed, AnchorsInPlace;
    var res := Literals(ws);
    LiteralsAre(ws, vs);
    LiteralsAre(ws, ws);
    forall p | 0 <= p < |res| ensures AnchorFree(res[p]) {
      LitAnchorFree(ws[p]);
    }
    PlainInPlace(res);
    InPlaceUnchanged(res);
    if us :| MatchesAll(Placed(res, false), us) && Join(us, ';') == Join(vs, ';') {
      LiteralsAre(ws, us);
    }
  }

  lemma LiteralsAre(ws: seq<string>, vs: seq<string>)
    requires |vs| == |ws|
    ensures MatchesAll(Literals(ws), vs) <==> vs == ws
  {
    hide Matches, Lit;
    forall p | 0 <= p < |ws| ensures Matches(Literals(ws)[p], vs[p]) <==> vs[p] == ws[p] {
      LitMatches(ws[p], vs[p]);
    }
  }

  lemma LiteralCutsIff(ws: seq<string>)
    requires |ws| >= 2
    ensures CutsAgree(Literals(ws)) <==> AllFree(ws, ';')
  {
    hide JoinedAccept, MatchesAll, Literals;
    forall vs: seq<string> | |vs| == |ws|
      ensures MatchesAll(Literals(ws), vs) <==> vs == ws
      ensures JoinedAccept(Literals(ws), vs) <==> Join(ws, ';') == Join(vs, ';')
    {
      LiteralsMatch(ws, vs);
    }
    assert |Literals(ws)| == |ws|;
    if AllFree(ws, ';') {
      forall vs: seq<string> | |vs| == |ws| ensures JoinedAccept(Literals(ws), vs) <==> MatchesAll(Literals(ws), vs) {
        if Join(ws, ';') == Join(vs, ';') {
          UniqueSplit(ws, vs, ';');
        }
      }
    } else {
      var p :| 0 <= p < |ws| && !Free(ws[p], ';');
      var vs := Recut(ws, p);
      assert JoinedAccept(Literals(ws), vs) && !MatchesAll(Literals(ws), vs);
    }
  }

  predicate OnlyEqualities(sel: Selector) {
    forall k :: 0 <= k < |sel| ==> sel[k].kind.MatchEqual?
  }

  lemma {:induction false} AllPositives(sel: Selector)
    requires OnlyEqualities(sel)
    ensures |Positives(sel)| == |sel|
  {
    hide PatternOf;
    if sel != [] {
      AllPositives(sel[..|sel| - 1]);
    }
  }

  /** The compared values in the sorted order. */
  lemma SortedLiterals(sel: Selector) returns (ws: seq<string>)
    requires OnlyEqualities(sel)
    ensures |ws| == |sel| && Joined(sel) == Literals(ws)
    ensures AllFree(ws, ';') <==> forall k :: 0 <= k < |sel| ==> ';' !in sel[k].value
  {
    hide Lit, Sorted, Positives, QuoteMeta;
    AllPositives(sel);
    SortedLength(sel);
    var pms := Sorted(Positives(sel));
    ws := [];
    for p := 0 to |pms|
      invariant |ws| == p
      invariant forall q :: 0 <= q < p ==> pms[q].pattern.re == Lit(ws[q]) && pms[q].pattern.text == QuoteMeta(ws[q])
      invariant forall q :: 0 <= q < p ==> exists k :: 0 <= k < |sel| && sel[k].value == ws[q]
    {
      SortedPositivesAre(sel, pms[p]);
      var k :| 0 <= k < |sel| && IsPositive(sel[k]) && pms[p] == PosMatcher(sel[k].name, PatternOf(sel[k]));
      ws := ws + [sel[k].value];
    }
    assert Joined(sel) == Literals(ws);
    forall k | 0 <= k < |sel| ensures exists q :: 0 <= q < |ws| && ws[q] == sel[k].value {
      var pm := PosMatcher(sel[k].name, PatternOf(sel[k]));
      SortedPositivesAre(sel, pm);
      var q :| 0 <= q < |pms| && pms[q] == pm;
      QuotedOnce(ws[q], sel[k].value);
    }
  }

  lemma QuotedOnce(s: string, t: string)
    requires Lit(s) == Lit(t)
    ensures s == t
  {
    LitMatches(s, s);
    LitMatches(t, s);
  }

  /** For two or more equality matchers over distinct labels the condition is plain: every sample is
      decided right exactly if no compared value holds a `;`. */
  lemma EqualitiesDecidedRightIff(sel: Selector)
    requires OnlyEqualities(sel) && |sel| >= 2 && ReadsNoTemp(sel) && ReadsEachOnce(sel)
    ensures DecidesAllRight(sel) <==> forall k :: 0 <= k < |sel| ==> ';' !in sel[k].value
  {
    hide DecidesAllRight, CutsAgree, Positives, Sorted, Literals;
    AllPositives(sel);
    var ws := SortedLiterals(sel);
    LiteralCutsIff(ws);
    SelectorDecidedRightIff(sel);
  }
}
