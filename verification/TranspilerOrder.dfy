/** The generated program does not depend on the order in which a selector lists its positive
    matchers: the compiler sorts them, so an unchanged scrape config yields unchanged rules. */
module TranspilerOrder {
  import opened Text
  import opened Regex
  import opened Sorting
  import opened Relabel
  import opened Transpiler
  import opened TranspilerDecision

  lemma QuoteMetaStart(s: string)
    requires s != ""
    ensures QuoteMeta(s) != "" && QuoteMeta(s)[0] != '('
    ensures QuoteMeta(s)[0] == '\\' <==> IsMetaChar(s[0])
  {
    assert IsMetaChar('\\') && IsMetaChar('(');
  }

  /** Distinct literals are quoted differently. */
  lemma {:induction false} QuoteMetaInjective(s: string, t: string)
    requires QuoteMeta(s) == QuoteMeta(t)
    ensures s == t
  {
    hide IsMetaChar;
    if s != "" && t != "" {
      QuoteMetaStart(s);
      QuoteMetaStart(t);
      var n := if IsMetaChar(s[0]) then 2 else 1;
      assert s[0] == QuoteMeta(s)[n - 1] == QuoteMeta(t)[n - 1] == t[0];
      assert QuoteMeta(s[1..]) == QuoteMeta(s)[n..] == QuoteMeta(t)[n..] == QuoteMeta(t[1..]);
      QuoteMetaInjective(s[1..], t[1..]);
      assert s == [s[0]] + s[1..] && t == [t[0]] + t[1..];
    } else if s != "" {
      QuoteMetaStart(s);
    } else if t != "" {
      QuoteMetaStart(t);
    }
  }

  lemma BeforeTransitive(a: PosMatcher, b: PosMatcher, c: PosMatcher)
    requires Before(a, b) && Before(b, c)
    ensures Before(a, c)
  {
    CompareAntisymmetric(a.name, b.name);
    CompareAntisymmetric(b.name, c.name);
    CompareAntisymmetric(a.name, c.name);
    CompareTransitive(a.name, b.name, c.name);
    if a.name == c.name {
      CompareTransitive(c.name, a.name, b.name);
      CompareTransitive(a.pattern.text, b.pattern.text, c.pattern.text);
    }
  }

  lemma BeforeIsPreorder()
    ensures TotalPreorder(Before)
  {
    forall a, b ensures Before(a, b) || Before(b, a) {
      CompareAntisymmetric(a.name, b.name);
      CompareAntisymmetric(a.pattern.text, b.pattern.text);
    }
    forall a, b, c | Before(a, b) && Before(b, c) ensures Before(a, c) {
      BeforeTransitive(a, b, c);
    }
  }

  /** Equal texts are parsed to equal expressions. */
  ghost predicate ParsedConsistently(sel: Selector) {
    forall i, j :: 0 <= i < |sel| && 0 <= j < |sel| && sel[i].kind == sel[j].kind == MatchRegexp && sel[i].value == sel[j].value
      ==> sel[i].re == sel[j].re
  }

  /** A text determines its pattern: quoted literals and wrapped expressions cannot be confused. */
  lemma PatternDetermined(a: Matcher, b: Matcher)
    requires IsPositive(a) && IsPositive(b) && PatternOf(a).text == PatternOf(b).text
    requires a.kind == b.kind == MatchRegexp && a.value == b.value ==> a.re == b.re
    ensures PatternOf(a) == PatternOf(b)
  {
    hide QuoteMeta, Lit;
    if a.kind == b.kind {
      if a.kind == MatchEqual {
        QuoteMetaInjective(a.value, b.value);
      } else {
        assert a.value == PatternOf(a).text[3..|PatternOf(a).text| - 1];
        assert b.value == PatternOf(b).text[3..|PatternOf(b).text| - 1];
      }
    } else {
      var lit, exp := if a.kind == MatchEqual then a else b, if a.kind == MatchEqual then b else a;
      assert PatternOf(exp).text[0] == '(';
      if lit.value != "" {
        QuoteMetaStart(lit.value);
      } else {
        EmptyQuote();
      }
      assert false;
    }
  }

  lemma EmptyQuote()
    ensures QuoteMeta("") == ""
  {
  }

  lemma {:induction false} PositiveComesFrom(sel: Selector, p: nat) returns (k: nat)
    requires p < |Positives(sel)|
    ensures k < |sel| && IsPositive(sel[k]) && Positives(sel)[p] == PosMatcher(sel[k].name, PatternOf(sel[k]))
  {
    hide PatternOf;
    var init := sel[..|sel| - 1];
    if p < |Positives(init)| {
      k := PositiveComesFrom(init, p);
    } else {
      k := |sel| - 1;
    }
  }

  lemma PositivesStrict(sel: Selector)
    requires ParsedConsistently(sel)
    ensures Strict(Before, Positives(sel))
  {
    var pms := Positives(sel);
    forall i, j | 0 <= i < |pms| && 0 <= j < |pms| && Before(pms[i], pms[j]) && Before(pms[j], pms[i])
      ensures pms[i] == pms[j]
    {
      CompareAntisymmetric(pms[i].name, pms[j].name);
      CompareAntisymmetric(pms[i].pattern.text, pms[j].pattern.text);
      var k := PositiveComesFrom(sel, i);
      var l := PositiveComesFrom(sel, j);
      PatternDetermined(sel[k], sel[l]);
    }
  }

  lemma {:induction false} PositivesConcat(xs: Selector, ys: Selector)
    ensures Positives(xs + ys) == Positives(xs) + Positives(ys)
  {
    hide PatternOf;
    if ys == [] {
      assert xs + ys == xs;
    } else {
      assert (xs + ys)[..|xs + ys| - 1] == xs + ys[..|ys| - 1];
      PositivesConcat(xs, ys[..|ys| - 1]);
    }
  }

  /** Taking one matcher out of a selector takes out just what it contributes. */
  lemma PositivesWithout(sel: Selector, i: nat)
    requires i < |sel|
    ensures multiset(Positives(sel)) == multiset(Positives([sel[i]])) + multiset(Positives(sel[..i] + sel[i + 1..]))
  {
    hide Positives;
    var front, x, back := sel[..i], [sel[i]], sel[i + 1..];
    assert sel == (front + x) + back;
    PositivesConcat(front + x, back);
    PositivesConcat(front, x);
    PositivesConcat(front, back);
  }

  /** The same matcher taken out of two orderings leaves two orderings of the rest. */
  lemma WithoutSame(xs: Selector, ys: Selector) returns (i: nat)
    requires multiset(xs) == multiset(ys) && xs != []
    ensures i < |ys| && ys[i] == xs[0]
    ensures multiset(xs[1..]) == multiset(ys[..i] + ys[i + 1..])
  {
    assert xs[0] in multiset(ys);
    i :| 0 <= i < |ys| && ys[i] == xs[0];
    TailMultiset(xs);
    WithoutMultiset(ys, i);
  }

  /** Reordering the matchers of a selector reorders its positive matchers. */
  lemma {:induction false} PositivesPermute(xs: Selector, ys: Selector)
    requires multiset(xs) == multiset(ys)
    ensures multiset(Positives(xs)) == multiset(Positives(ys))
  {
    hide Positives;
    if xs == [] {
      assert |multiset(ys)| == |ys| && |multiset(xs)| == 0;
      assert xs == ys;
    } else {
      var i := WithoutSame(xs, ys);
      PositivesPermute(xs[1..], ys[..i] + ys[i + 1..]);
      PositivesWithout(xs, 0);
      assert xs[..0] + xs[1..] == xs[1..];
      PositivesWithout(ys, i);
    }
  }

  /** The marking rule is the same for every order of the matchers. */
  lemma MarkRuleCanonical(i: nat, xs: Selector, ys: Selector)
    requires ParsedConsistently(xs) && multiset(xs) == multiset(ys)
    ensures MarkRule(i, Sorted(Positives(xs))) == MarkRule(i, Sorted(Positives(ys)))
  {
    BeforeIsPreorder();
    PositivesStrict(xs);
    PositivesPermute(xs, ys);
    SortCanonical(Before, Positives(xs), Positives(ys));
  }

  lemma ClearsIgnoreOrder(xs: Selector, ys: Selector, m: Labels)
    requires multiset(xs) == multiset(ys) && SomeClears(xs, m)
    ensures SomeClears(ys, m)
  {
    hide Clears;
    var i :| 0 <= i < |xs| && Clears(xs[i], m);
    assert xs[i] in multiset(ys);
    var j :| 0 <= j < |ys| && ys[j] == xs[i];
  }

  /** Pairwise the same matchers, each selector in its own order. */
  ghost predicate Reordered(sels: seq<Selector>, sels': seq<Selector>) {
    |sels| == |sels'| && forall i :: 0 <= i < |sels| ==> multiset(sels[i]) == multiset(sels'[i]) && ParsedConsistently(sels[i])
  }

  lemma FiresIgnoresOrder(xs: Selector, ys: Selector, m: Labels)
    requires multiset(xs) == multiset(ys) && ParsedConsistently(xs)
    ensures Fires(xs, m) <==> Fires(ys, m)
  {
    MarkRuleCanonical(0, xs, ys);
    if SomeClears(xs, m) {
      ClearsIgnoreOrder(xs, ys, m);
    }
    if SomeClears(ys, m) {
      ClearsIgnoreOrder(ys, xs, m);
    }
  }

  /** Reordering the matchers inside the selectors changes no decision of the program. */
  lemma ProgramIgnoresOrder(sels: seq<Selector>, sels': seq<Selector>, m: Labels)
    requires NoTemp(m) && AllReadNoTemp(sels) && AllReadNoTemp(sels') && Reordered(sels, sels')
    ensures Run(Compile(sels), m) == Run(Compile(sels'), m)
  {
    hide Compile, Fires;
    forall i | 0 <= i < |sels| ensures Fires(sels[i], m) <==> Fires(sels'[i], m) {
      FiresIgnoresOrder(sels[i], sels'[i], m);
    }
    ProgramDecision(sels, m);
    ProgramDecision(sels', m);
  }
}
