/** Regular expressions as Prometheus applies them: the whole text must match. Matching is
    positional, because `^` and `$` look at the borders of the whole text and not at the borders
    of the group they are written in. */
module Regex {
  import opened Text

  datatype Re =
    | Eps
    | One(chars: set<char>, negated: bool)
    | Cat(first: Re, second: Re)
    | Alt(left: Re, right: Re)
    | Star(body: Re)
    | Begin
    | End

  const ANY: Re := One({}, true)
  const ANYTHING: Re := Star(ANY)

  predicate InClass(chars: set<char>, negated: bool, c: char) {
    (c in chars) != negated
  }

  /** `re` matches the stretch `s[i..j]` of the text `s`. */
  ghost predicate MatchAt(re: Re, s: string, i: nat, j: nat)
    requires i <= j <= |s|
    decreases re, j - i
  {
    match re
    case Eps => i == j
    case One(chars, negated) => j == i + 1 && InClass(chars, negated, s[i])
    case Cat(a, b) => exists k :: i <= k <= j && MatchAt(a, s, i, k) && MatchAt(b, s, k, j)
    case Alt(a, b) => MatchAt(a, s, i, j) || MatchAt(b, s, i, j)
    case Star(a) => i == j || exists k :: i < k <= j && MatchAt(a, s, i, k) && MatchAt(re, s, k, j)
    case Begin => i == j == 0
    case End => i == j == |s|
  }

  /** The fully anchored match used by label matchers and relabel rules. */
  ghost predicate Matches(re: Re, s: string) {
    MatchAt(re, s, 0, |s|)
  }

  /** The expression for exactly the text `t`; what regexp.QuoteMeta(t) denotes. */
  function Lit(t: string): Re {
    if t == "" then Eps else Cat(One({t[0]}, false), Lit(t[1..]))
  }

  /** Matches nothing. */
  const NEVER: Re := One({}, false)

  /** `re` does not contain the anchors in question. */
  predicate Lacks(re: Re, begin: bool, end: bool) {
    match re
    case Eps => true
    case One(_, _) => true
    case Cat(a, b) => Lacks(a, begin, end) && Lacks(b, begin, end)
    case Alt(a, b) => Lacks(a, begin, end) && Lacks(b, begin, end)
    case Star(a) => Lacks(a, begin, end)
    case Begin => !begin
    case End => !end
  }

  predicate AnchorFree(re: Re) {
    Lacks(re, true, true)
  }

  /** `re` with the anchors in question made impossible. */
  function Erased(re: Re, begin: bool, end: bool): Re {
    match re
    case Eps => re
    case One(_, _) => re
    case Cat(a, b) => Cat(Erased(a, begin, end), Erased(b, begin, end))
    case Alt(a, b) => Alt(Erased(a, begin, end), Erased(b, begin, end))
    case Star(a) => Star(Erased(a, begin, end))
    case Begin => if begin then NEVER else re
    case End => if end then NEVER else re
  }

  /** Every match of `re` goes through one of the anchors in question, as in `^a`, `a$` or `^a|^b`. */
  predicate Needs(re: Re, begin: bool, end: bool) {
    match re
    case Eps => false
    case One(_, _) => false
    case Cat(a, b) => Needs(a, begin, end) || Needs(b, begin, end)
    case Alt(a, b) => Needs(a, begin, end) && Needs(b, begin, end)
    case Star(_) => false
    case Begin => begin
    case End => end
  }

  /** No string accepted by `re` contains `c`. */
  predicate Avoids(re: Re, c: char) {
    match re
    case Eps => true
    case One(chars, negated) => !InClass(chars, negated, c)
    case Cat(a, b) => Avoids(a, c) && Avoids(b, c)
    case Alt(a, b) => Avoids(a, c) && Avoids(b, c)
    case Star(a) => Avoids(a, c)
    case Begin => true
    case End => true
  }

  lemma CatCut(a: Re, b: Re, s: string, i: nat, j: nat) returns (k: nat)
    requires i <= j <= |s| && MatchAt(Cat(a, b), s, i, j)
    ensures i <= k <= j && MatchAt(a, s, i, k) && MatchAt(b, s, k, j)
  {
    k :| i <= k <= j && MatchAt(a, s, i, k) && MatchAt(b, s, k, j);
  }

  lemma StarEmpty(a: Re, s: string, i: nat)
    requires i <= |s|
    ensures MatchAt(Star(a), s, i, i)
  {
  }

  lemma StarCut(a: Re, s: string, i: nat, j: nat) returns (k: nat)
    requires i < j <= |s| && MatchAt(Star(a), s, i, j)
    ensures i < k <= j && MatchAt(a, s, i, k) && MatchAt(Star(a), s, k, j)
  {
    k :| i < k <= j && MatchAt(a, s, i, k) && MatchAt(Star(a), s, k, j);
  }

  lemma StarJoin(a: Re, s: string, i: nat, k: nat, j: nat)
    requires i < k <= j <= |s| && MatchAt(a, s, i, k) && MatchAt(Star(a), s, k, j)
    ensures MatchAt(Star(a), s, i, j)
  {
  }

  lemma CatJoin(a: Re, b: Re, s: string, i: nat, k: nat, j: nat)
    requires i <= k <= j <= |s| && MatchAt(a, s, i, k) && MatchAt(b, s, k, j)
    ensures MatchAt(Cat(a, b), s, i, j)
  {
  }

  lemma {:induction false} LitMatch(t: string, s: string, i: nat, j: nat)
    requires i <= j <= |s|
    ensures MatchAt(Lit(t), s, i, j) <==> s[i..j] == t
  {
    if t != "" {
      if i < j {
        LitMatch(t[1..], s, i + 1, j);
        assert s[i..j] == [s[i]] + s[i + 1..j];
        assert t == [t[0]] + t[1..];
        assert s[i] == t[0] ==> MatchAt(One({t[0]}, false), s, i, i + 1);
      }
    }
  }

  lemma LitMatches(t: string, s: string)
    ensures Matches(Lit(t), s) <==> s == t
  {
    LitMatch(t, s, 0, |s|);
    assert s[0..|s|] == s;
  }

  lemma {:induction false} LitAnchorFree(t: string)
    ensures AnchorFree(Lit(t))
  {
    if t != "" {
      LitAnchorFree(t[1..]);
    }
  }

  lemma {:induction false} LitAvoids(t: string, c: char)
    ensures Avoids(Lit(t), c) <==> Free(t, c)
  {
    if t != "" {
      LitAvoids(t[1..], c);
      assert t == [t[0]] + t[1..];
    }
  }

  // ---------------------------------------------------------------- anchors and context

  lemma {:induction false} LackedIsErased(re: Re, begin: bool, end: bool)
    requires Lacks(re, begin, end)
    ensures Erased(re, begin, end) == re
  {
    match re {
      case Cat(a, b) => LackedIsErased(a, begin, end); LackedIsErased(b, begin, end);
      case Alt(a, b) => LackedIsErased(a, begin, end); LackedIsErased(b, begin, end);
      case Star(a) => LackedIsErased(a, begin, end);
      case _ =>
    }
  }

  lemma {:induction false} LacksLess(re: Re, begin: bool, end: bool, begin': bool, end': bool)
    requires Lacks(re, begin, end) && (begin' ==> begin) && (end' ==> end)
    ensures Lacks(re, begin', end')
  {
    match re {
      case Cat(a, b) => LacksLess(a, begin, end, begin', end'); LacksLess(b, begin, end, begin', end');
      case Alt(a, b) => LacksLess(a, begin, end, begin', end'); LacksLess(b, begin, end, begin', end');
      case Star(a) => LacksLess(a, begin, end, begin', end');
      case _ =>
    }
  }

  lemma {:induction false} LacksNone(re: Re)
    ensures Lacks(re, false, false)
  {
    match re {
      case Cat(a, b) => LacksNone(a); LacksNone(b);
      case Alt(a, b) => LacksNone(a); LacksNone(b);
      case Star(a) => LacksNone(a);
      case _ =>
    }
  }

  /** Erasing anchors only takes matches away. */
  lemma {:induction false} ErasedSound(re: Re, begin: bool, end: bool, s: string, i: nat, j: nat)
    requires i <= j <= |s| && MatchAt(Erased(re, begin, end), s, i, j)
    ensures MatchAt(re, s, i, j)
    decreases re, j - i
  {
    match re {
      case Cat(a, b) =>
        var k := CatCut(Erased(a, begin, end), Erased(b, begin, end), s, i, j);
        ErasedSound(a, begin, end, s, i, k);
        ErasedSound(b, begin, end, s, k, j);
      case Alt(a, b) =>
        if MatchAt(Erased(a, begin, end), s, i, j) {
          ErasedSound(a, begin, end, s, i, j);
        } else {
          ErasedSound(b, begin, end, s, i, j);
        }
      case Star(a) =>
        if i < j {
          var k :| i < k <= j && MatchAt(Erased(a, begin, end), s, i, k) && MatchAt(Erased(re, begin, end), s, k, j);
          ErasedSound(a, begin, end, s, i, k);
          ErasedSound(re, begin, end, s, k, j);
        }
      case _ =>
    }
  }

  /** An expression that needs an erased anchor is left with no match. */
  lemma {:induction false} NeededNeverMatches(re: Re, begin: bool, end: bool, s: string, i: nat, j: nat)
    requires i <= j <= |s| && Needs(re, begin, end)
    ensures !MatchAt(Erased(re, begin, end), s, i, j)
  {
    match re {
      case Cat(a, b) =>
        if MatchAt(Erased(re, begin, end), s, i, j) {
          var k := CatCut(Erased(a, begin, end), Erased(b, begin, end), s, i, j);
          if Needs(a, begin, end) {
            NeededNeverMatches(a, begin, end, s, i, k);
          } else {
            NeededNeverMatches(b, begin, end, s, k, j);
          }
        }
      case Alt(a, b) =>
        NeededNeverMatches(a, begin, end, s, i, j);
        NeededNeverMatches(b, begin, end, s, i, j);
      case _ =>
    }
  }

  /** What an expression matches inside a text is what it matches in the cut-out stretch `s[lo..hi]`
      once the anchors that cannot hold there are erased: `^` behind other text, `$` before it. */
  lemma {:induction false} InContext(re: Re, s: string, lo: nat, i: nat, j: nat, hi: nat)
    requires lo <= i <= j <= hi <= |s|
    ensures MatchAt(re, s, i, j) <==> MatchAt(Erased(re, lo > 0, hi < |s|), s[lo..hi], i - lo, j - lo)
    decreases re, j - i
  {
    var w := s[lo..hi];
    match re {
      case Eps =>
      case One(_, _) =>
      case Cat(a, b) =>
        CatInContext(a, b, s, lo, i, j, hi);
      case Alt(a, b) =>
        InContext(a, s, lo, i, j, hi);
        InContext(b, s, lo, i, j, hi);
      case Star(a) =>
        StarInContext(a, s, lo, i, j, hi);
      case Begin =>
      case End =>
    }
  }

  lemma {:induction false} CatInContext(a: Re, b: Re, s: string, lo: nat, i: nat, j: nat, hi: nat)
    requires lo <= i <= j <= hi <= |s|
    ensures MatchAt(Cat(a, b), s, i, j) <==>
            MatchAt(Cat(Erased(a, lo > 0, hi < |s|), Erased(b, lo > 0, hi < |s|)), s[lo..hi], i - lo, j - lo)
    decreases Cat(a, b), j - i, 0
  {
    hide MatchAt, Erased;
    var w, a', b' := s[lo..hi], Erased(a, lo > 0, hi < |s|), Erased(b, lo > 0, hi < |s|);
    if MatchAt(Cat(a, b), s, i, j) {
      var k := CatCut(a, b, s, i, j);
      InContext(a, s, lo, i, k, hi);
      InContext(b, s, lo, k, j, hi);
      CatJoin(a', b', w, i - lo, k - lo, j - lo);
    }
    if MatchAt(Cat(a', b'), w, i - lo, j - lo) {
      var k := CatCut(a', b', w, i - lo, j - lo);
      InContext(a, s, lo, i, k + lo, hi);
      InContext(b, s, lo, k + lo, j, hi);
      CatJoin(a, b, s, i, k + lo, j);
    }
  }

  lemma {:induction false} StarInContext(a: Re, s: string, lo: nat, i: nat, j: nat, hi: nat)
    requires lo <= i <= j <= hi <= |s|
    ensures MatchAt(Star(a), s, i, j) <==> MatchAt(Star(Erased(a, lo > 0, hi < |s|)), s[lo..hi], i - lo, j - lo)
    decreases Star(a), j - i, 0
  {
    hide MatchAt, Erased;
    var w, a' := s[lo..hi], Erased(a, lo > 0, hi < |s|);
    StarEmpty(a, s, i);
    StarEmpty(a', w, i - lo);
    if i < j {
      assert Erased(Star(a), lo > 0, hi < |s|) == Star(a') by { ErasedStar(a, lo > 0, hi < |s|); }
      if MatchAt(Star(a), s, i, j) {
        var k := StarCut(a, s, i, j);
        InContext(a, s, lo, i, k, hi);
        InContext(Star(a), s, lo, k, j, hi);
        StarJoin(a', w, i - lo, k - lo, j - lo);
      }
      if MatchAt(Star(a'), w, i - lo, j - lo) {
        var k := StarCut(a', w, i - lo, j - lo);
        InContext(a, s, lo, i, k + lo, hi);
        InContext(Star(a), s, lo, k + lo, j, hi);
        StarJoin(a, s, i, k + lo, j);
      }
    }
  }

  lemma ErasedStar(a: Re, begin: bool, end: bool)
    ensures Erased(Star(a), begin, end) == Star(Erased(a, begin, end))
  {
  }

  /** A match in a text is a match of the cut-out stretch on its own, up to the anchors that cannot
      hold there. */
  lemma OnItsOwn(re: Re, s: string, i: nat, j: nat)
    requires i <= j <= |s|
    ensures MatchAt(re, s, i, j) <==> Matches(Erased(re, i > 0, j < |s|), s[i..j])
  {
    InContext(re, s, i, i, j, j);
  }

  lemma {:induction false} AvoidsSound(re: Re, s: string, i: nat, j: nat, c: char)
    requires i <= j <= |s|
    requires Avoids(re, c) && MatchAt(re, s, i, j)
    ensures Free(s[i..j], c)
    decreases re, j - i
  {
    match re {
      case Eps =>
      case One(_, _) =>
      case Cat(a, b) =>
        var k :| i <= k <= j && MatchAt(a, s, i, k) && MatchAt(b, s, k, j);
        AvoidsSound(a, s, i, k, c);
        AvoidsSound(b, s, k, j, c);
        assert s[i..j] == s[i..k] + s[k..j];
      case Alt(a, b) =>
        if MatchAt(a, s, i, j) {
          AvoidsSound(a, s, i, j, c);
        } else {
          AvoidsSound(b, s, i, j, c);
        }
      case Star(a) =>
        if i < j {
          var k :| i < k <= j && MatchAt(a, s, i, k) && MatchAt(re, s, k, j);
          AvoidsSound(a, s, i, k, c);
          AvoidsSound(re, s, k, j, c);
          assert s[i..j] == s[i..k] + s[k..j];
        }
      case Begin =>
      case End =>
    }
  }

  lemma {:induction false} AnythingMatchesAt(s: string, i: nat, j: nat)
    requires i <= j <= |s|
    ensures MatchAt(ANYTHING, s, i, j)
    decreases j - i
  {
    if i < j {
      AnythingMatchesAt(s, i + 1, j);
      assert MatchAt(ANY, s, i, i + 1);
    }
  }

  ghost predicate OccursAt(word: string, s: string, k: int) {
    0 <= k <= |s| - |word| && s[k..k + |word|] == word
  }

  /** `.*word.*` is "contains word". */
  lemma ContainsMatches(word: string, s: string)
    ensures Matches(Cat(ANYTHING, Cat(Lit(word), ANYTHING)), s)
       <==> exists k :: OccursAt(word, s, k)
  {
    var tail := Cat(Lit(word), ANYTHING);
    if Matches(Cat(ANYTHING, tail), s) {
      var k := CatCut(ANYTHING, tail, s, 0, |s|);
      var e := CatCut(Lit(word), ANYTHING, s, k, |s|);
      LitMatch(word, s, k, e);
      assert OccursAt(word, s, k);
    }
    if k :| OccursAt(word, s, k) {
      LitMatch(word, s, k, k + |word|);
      AnythingMatchesAt(s, k + |word|, |s|);
      AnythingMatchesAt(s, 0, k);
      assert MatchAt(tail, s, k, |s|);
    }
  }

  /** `word.*` is "starts with word". */
  lemma PrefixMatches(word: string, s: string)
    ensures Matches(Cat(Lit(word), ANYTHING), s) <==> word <= s
  {
    if Matches(Cat(Lit(word), ANYTHING), s) {
      var e := CatCut(Lit(word), ANYTHING, s, 0, |s|);
      LitMatch(word, s, 0, e);
    }
    if word <= s {
      LitMatch(word, s, 0, |word|);
      AnythingMatchesAt(s, |word|, |s|);
    }
  }

  // ---------------------------------------------------------------- joined expressions

  /** The expressions written one after the other with `;` in between. */
  function JoinRe(res: seq<Re>): Re
    requires |res| >= 1
  {
    if |res| == 1 then res[0] else Cat(res[0], Cat(Lit(";"), JoinRe(res[1..])))
  }

  /** The joined expressions as they act in their places: behind other text `^` cannot hold, and
      before other text `$` cannot. `behind` tells whether text precedes the first one. */
  function Placed(res: seq<Re>, behind: bool): (r: seq<Re>)
    ensures |r| == |res|
    ensures forall p :: 0 <= p < |res| ==> r[p] == Erased(res[p], behind || p > 0, p < |res| - 1)
  {
    seq(|res|, p requires 0 <= p < |res| => Erased(res[p], behind || p > 0, p < |res| - 1))
  }

  /** One piece of text for each expression. */
  ghost predicate MatchesAll(res: seq<Re>, ws: seq<string>) {
    |ws| == |res| && forall p :: 0 <= p < |res| ==> Matches(res[p], ws[p])
  }

  /** A match of joined expressions cuts the text into pieces, each matched by its expression in
      its place. */
  lemma {:induction false} JoinReSplits(res: seq<Re>, s: string, i: nat) returns (ws: seq<string>)
    requires |res| >= 1 && i <= |s|
    requires MatchAt(JoinRe(res), s, i, |s|)
    ensures MatchesAll(Placed(res, i > 0), ws) && Join(ws, ';') == s[i..]
  {
    hide MatchAt, Matches, Erased, Lit;
    if |res| == 1 {
      OnItsOwn(res[0], s, i, |s|);
      assert s[i..|s|] == s[i..];
      ws := [s[i..]];
    } else {
      var rest := JoinRe(res[1..]);
      var k := CatCut(res[0], Cat(Lit(";"), rest), s, i, |s|);
      var e := CatCut(Lit(";"), rest, s, k, |s|);
      LitMatch(";", s, k, e);
      assert |s[k..e]| == 1;
      OnItsOwn(res[0], s, i, k);
      var tail := JoinReSplits(res[1..], s, e);
      ws := [s[i..k]] + tail;
      assert ws[1..] == tail;
      assert s[i..] == s[i..k] + s[k..e] + s[e..];
      forall p | 0 <= p < |res| ensures Matches(Placed(res, i > 0)[p], ws[p]) {
        if p > 0 { assert Placed(res, i > 0)[p] == Placed(res[1..], true)[p - 1] && ws[p] == tail[p - 1]; }
      }
    }
  }

  lemma {:induction false} JoinReBuilds(res: seq<Re>, ws: seq<string>, s: string, i: nat)
    requires |res| >= 1 && i <= |s|
    requires MatchesAll(Placed(res, i > 0), ws) && s[i..] == Join(ws, ';')
    ensures MatchAt(JoinRe(res), s, i, |s|)
    decreases |res|
  {
    hide MatchAt, Matches, Erased, Lit;
    if |res| == 1 {
      assert Matches(Placed(res, i > 0)[0], ws[0]);
      OnItsOwn(res[0], s, i, |s|);
      assert s[i..|s|] == s[i..] == ws[0];
    } else {
      var tail := Join(ws[1..], ';');
      var k := i + |ws[0]|;
      assert s[i..] == ws[0] + ";" + tail;
      assert s[i..k] == s[i..][..|ws[0]|] == ws[0];
      assert s[k..k + 1] == s[i..][|ws[0]|..|ws[0]| + 1] == ";";
      assert s[k + 1..] == s[i..][|ws[0]| + 1..] == tail;
      assert Matches(Placed(res, i > 0)[0], ws[0]);
      OnItsOwn(res[0], s, i, k);
      LitMatch(";", s, k, k + 1);
      forall p | 0 <= p < |res| - 1 ensures Matches(Placed(res[1..], true)[p], ws[1..][p]) {
        assert Placed(res[1..], true)[p] == Placed(res, i > 0)[p + 1] && ws[1..][p] == ws[p + 1];
      }
      JoinReBuilds(res[1..], ws[1..], s, k + 1);
      CatJoin(Lit(";"), JoinRe(res[1..]), s, k, k + 1, |s|);
      CatJoin(res[0], Cat(Lit(";"), JoinRe(res[1..])), s, i, k, |s|);
    }
  }

  /** What joined expressions match, for any expressions: the joins of pieces each of which is
      matched by its expression in its place. */
  lemma JoinMatchIff(res: seq<Re>, s: string)
    requires |res| >= 1
    ensures Matches(JoinRe(res), s) <==> exists ws :: MatchesAll(Placed(res, false), ws) && Join(ws, ';') == s
  {
    assert s[0..] == s;
    if Matches(JoinRe(res), s) {
      var ws := JoinReSplits(res, s, 0);
    }
    if ws :| MatchesAll(Placed(res, false), ws) && Join(ws, ';') == s {
      JoinReBuilds(res, ws, s, 0);
    }
  }

  /** No joined expression has an anchor where it cannot hold. */
  predicate AnchorsInPlace(res: seq<Re>) {
    forall p :: 0 <= p < |res| ==> Lacks(res[p], p > 0, p < |res| - 1)
  }

  lemma InPlaceUnchanged(res: seq<Re>)
    requires AnchorsInPlace(res)
    ensures Placed(res, false) == res
  {
    forall p | 0 <= p < |res| ensures Placed(res, false)[p] == res[p] {
      LackedIsErased(res[p], p > 0, p < |res| - 1);
    }
  }

  lemma PlainInPlace(res: seq<Re>)
    requires |res| <= 1 || forall p :: 0 <= p < |res| ==> AnchorFree(res[p])
    ensures AnchorsInPlace(res)
  {
    forall p | 0 <= p < |res| ensures Lacks(res[p], p > 0, p < |res| - 1) {
      if |res| == 1 {
        LacksNone(res[p]);
      } else {
        LacksLess(res[p], true, true, p > 0, p < |res| - 1);
      }
    }
  }

  /** Each anchor is absent or needed, as in expressions that are plain, start with `^`, end with
      `$`, or both. */
  predicate ClearCut(re: Re) {
    && (Lacks(re, true, false) || Needs(re, true, false))
    && (Lacks(re, false, true) || Needs(re, false, true))
  }

  lemma {:induction false} NeedsMore(re: Re, begin: bool, end: bool, begin': bool, end': bool)
    requires Needs(re, begin, end) && (begin ==> begin') && (end ==> end')
    ensures Needs(re, begin', end')
  {
    match re {
      case Cat(a, b) =>
        if Needs(a, begin, end) {
          NeedsMore(a, begin, end, begin', end');
        } else {
          NeedsMore(b, begin, end, begin', end');
        }
      case Alt(a, b) => NeedsMore(a, begin, end, begin', end'); NeedsMore(b, begin, end, begin', end');
      case _ =>
    }
  }

  lemma {:induction false} LacksBoth(re: Re)
    requires Lacks(re, true, false) && Lacks(re, false, true)
    ensures Lacks(re, true, true)
  {
    match re {
      case Cat(a, b) => LacksBoth(a); LacksBoth(b);
      case Alt(a, b) => LacksBoth(a); LacksBoth(b);
      case Star(a) => LacksBoth(a);
      case _ =>
    }
  }

  /** A clear-cut expression is unchanged by its place or never matches there. */
  lemma ClearCutErased(re: Re, begin: bool, end: bool)
    requires ClearCut(re)
    ensures Lacks(re, begin, end) || Needs(re, begin, end)
  {
    if begin && Needs(re, true, false) {
      NeedsMore(re, true, false, begin, end);
    } else if end && Needs(re, false, true) {
      NeedsMore(re, false, true, begin, end);
    } else if begin && end {
      LacksBoth(re);
    } else if !begin && !end {
      LacksNone(re);
    }
  }

  /** One expression that needs an anchor where it cannot hold keeps the join from ever matching. */
  lemma MisplacedNeverJoins(res: seq<Re>, p: nat, s: string)
    requires p < |res| && Needs(res[p], p > 0, p < |res| - 1)
    ensures !Matches(JoinRe(res), s)
  {
    if Matches(JoinRe(res), s) {
      var ws := JoinReSplits(res, s, 0);
      assert Matches(Placed(res, false)[p], ws[p]);
      NeededNeverMatches(res[p], p > 0, p < |res| - 1, ws[p], 0, |ws[p]|);
    }
  }
}
