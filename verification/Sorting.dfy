/** Stable sorting by a comparison, and what makes its result canonical. */
module Sorting {

  function Insert<T>(le: (T, T) -> bool, x: T, xs: seq<T>): seq<T> {
    if xs == [] || le(x, xs[0]) then [x] + xs else [xs[0]] + Insert(le, x, xs[1..])
  }

  function SortBy<T>(le: (T, T) -> bool, xs: seq<T>): seq<T> {
    if xs == [] then [] else Insert(le, xs[0], SortBy(le, xs[1..]))
  }

  ghost predicate Total<T(!new)>(le: (T, T) -> bool) {
    forall x, y :: le(x, y) || le(y, x)
  }

  ghost predicate Transitive<T(!new)>(le: (T, T) -> bool) {
    forall x, y, z :: le(x, y) && le(y, z) ==> le(x, z)
  }

  ghost predicate TotalPreorder<T(!new)>(le: (T, T) -> bool) {
    Total(le) && Transitive(le)
  }

  ghost predicate SortedBy<T>(le: (T, T) -> bool, xs: seq<T>) {
    forall i, j :: 0 <= i < j < |xs| ==> le(xs[i], xs[j])
  }

  /** The elements that are as large as `pivot`, in order. */
  ghost function ClassOf<T>(le: (T, T) -> bool, pivot: T, xs: seq<T>): seq<T> {
    if xs == [] then []
    else (if le(xs[0], pivot) && le(pivot, xs[0]) then [xs[0]] else []) + ClassOf(le, pivot, xs[1..])
  }

  lemma {:induction false} InsertPermutes<T>(le: (T, T) -> bool, x: T, xs: seq<T>)
    ensures multiset(Insert(le, x, xs)) == multiset(xs) + multiset{x}
  {
    if xs == [] || le(x, xs[0]) {
    } else {
      InsertPermutes(le, x, xs[1..]);
      assert xs == [xs[0]] + xs[1..];
    }
  }

  /** Sorting loses and invents nothing. */
  lemma {:induction false} SortPermutes<T>(le: (T, T) -> bool, xs: seq<T>)
    ensures multiset(SortBy(le, xs)) == multiset(xs)
    ensures |SortBy(le, xs)| == |xs|
  {
    if xs != [] {
      SortPermutes(le, xs[1..]);
      InsertPermutes(le, xs[0], SortBy(le, xs[1..]));
      assert xs == [xs[0]] + xs[1..];
    }
    assert |multiset(SortBy(le, xs))| == |SortBy(le, xs)|;
  }

  lemma {:induction false} InsertSorts<T(!new)>(le: (T, T) -> bool, x: T, xs: seq<T>)
    requires TotalPreorder(le) && SortedBy(le, xs)
    ensures SortedBy(le, Insert(le, x, xs))
  {
    if xs == [] {
    } else if le(x, xs[0]) {
      var r := [x] + xs;
      forall i, j | 0 <= i < j < |r| ensures le(r[i], r[j]) {
        if i == 0 {
          assert le(xs[0], xs[0]);
          assert le(xs[0], r[j]) && le(x, xs[0]);
        } else {
          assert le(xs[i - 1], xs[j - 1]);
        }
      }
    } else {
      var tail := Insert(le, x, xs[1..]);
      InsertSorts(le, x, xs[1..]);
      InsertPermutes(le, x, xs[1..]);
      forall j | 0 <= j < |tail| ensures le(xs[0], tail[j]) {
        assert tail[j] in multiset(tail);
        if tail[j] != x {
          assert tail[j] in xs[1..];
        } else {
          assert le(x, xs[0]) || le(xs[0], x);
        }
      }
    }
  }

  lemma {:induction false} SortSorts<T(!new)>(le: (T, T) -> bool, xs: seq<T>)
    requires TotalPreorder(le)
    ensures SortedBy(le, SortBy(le, xs))
  {
    if xs != [] {
      SortSorts(le, xs[1..]);
      InsertSorts(le, xs[0], SortBy(le, xs[1..]));
    }
  }

  lemma {:induction false} InsertStable<T(!new)>(le: (T, T) -> bool, x: T, xs: seq<T>, pivot: T)
    requires TotalPreorder(le)
    ensures ClassOf(le, pivot, Insert(le, x, xs)) == ClassOf(le, pivot, [x] + xs)
  {
    assert ([x] + xs)[1..] == xs;
    if xs != [] && !le(x, xs[0]) {
      InsertStable(le, x, xs[1..], pivot);
      assert ([x] + xs[1..])[1..] == xs[1..];
      assert Insert(le, x, xs)[1..] == Insert(le, x, xs[1..]);
      if le(x, pivot) && le(pivot, x) && le(xs[0], pivot) && le(pivot, xs[0]) {
        assert false;
      }
    }
  }

  /** Equally large elements keep their order. */
  lemma {:induction false} SortStable<T(!new)>(le: (T, T) -> bool, xs: seq<T>, pivot: T)
    requires TotalPreorder(le)
    ensures ClassOf(le, pivot, SortBy(le, xs)) == ClassOf(le, pivot, xs)
  {
    if xs != [] {
      SortStable(le, xs[1..], pivot);
      var tail := SortBy(le, xs[1..]);
      InsertStable(le, xs[0], tail, pivot);
      assert ([xs[0]] + tail)[1..] == tail;
    }
  }

  /** No two elements are equally large. */
  ghost predicate Strict<T>(le: (T, T) -> bool, xs: seq<T>) {
    forall i, j :: 0 <= i < |xs| && 0 <= j < |xs| && le(xs[i], xs[j]) && le(xs[j], xs[i]) ==> xs[i] == xs[j]
  }

  lemma HeadsEqual<T(!new)>(le: (T, T) -> bool, xs: seq<T>, ys: seq<T>)
    requires Total(le) && SortedBy(le, xs) && SortedBy(le, ys) && Strict(le, xs)
    requires multiset(xs) == multiset(ys) && xs != [] && ys != []
    ensures xs[0] == ys[0]
  {
    assert xs[0] in multiset(ys) && ys[0] in multiset(xs);
    var i :| 0 <= i < |ys| && ys[i] == xs[0];
    var j :| 0 <= j < |xs| && xs[j] == ys[0];
    assert le(ys[0], ys[0]) && le(xs[0], xs[0]);
    assert le(ys[0], ys[i]) && le(xs[0], xs[j]);
  }

  lemma TailMultiset<T>(xs: seq<T>)
    requires xs != []
    ensures multiset(xs[1..]) == multiset(xs) - multiset{xs[0]}
  {
    assert xs == [xs[0]] + xs[1..];
  }

  function Without<T>(xs: seq<T>, i: nat): seq<T>
    requires i < |xs|
  {
    xs[..i] + xs[i + 1..]
  }

  lemma WithoutMultiset<T>(xs: seq<T>, i: nat)
    requires i < |xs|
    ensures multiset(xs) == multiset(Without(xs, i)) + multiset{xs[i]}
  {
    assert xs == xs[..i] + [xs[i]] + xs[i + 1..];
  }

  /** Two sorted arrangements of the same elements are the same list. */
  lemma {:induction false} SortedUnique<T(!new)>(le: (T, T) -> bool, xs: seq<T>, ys: seq<T>)
    requires Total(le) && SortedBy(le, xs) && SortedBy(le, ys) && Strict(le, xs)
    requires multiset(xs) == multiset(ys)
    ensures xs == ys
  {
    assert |multiset(xs)| == |xs| && |multiset(ys)| == |ys|;
    if xs != [] {
      HeadsEqual(le, xs, ys);
      TailMultiset(xs);
      TailMultiset(ys);
      SortedUnique(le, xs[1..], ys[1..]);
      assert xs == [xs[0]] + xs[1..] && ys == [ys[0]] + ys[1..];
    }
  }

  /** The result of sorting does not depend on the order of the input. */
  lemma SortCanonical<T(!new)>(le: (T, T) -> bool, xs: seq<T>, ys: seq<T>)
    requires TotalPreorder(le) && Strict(le, xs)
    requires multiset(xs) == multiset(ys)
    ensures SortBy(le, xs) == SortBy(le, ys)
  {
    SortPermutes(le, xs);
    SortPermutes(le, ys);
    SortSorts(le, xs);
    SortSorts(le, ys);
    var sorted := SortBy(le, xs);
    forall i, j | 0 <= i < |sorted| && 0 <= j < |sorted| && le(sorted[i], sorted[j]) && le(sorted[j], sorted[i])
      ensures sorted[i] == sorted[j]
    {
      assert sorted[i] in multiset(xs) && sorted[j] in multiset(xs);
      var k :| 0 <= k < |xs| && xs[k] == sorted[i];
      var l :| 0 <= l < |xs| && xs[l] == sorted[j];
    }
    SortedUnique(le, sorted, SortBy(le, ys));
  }
}
