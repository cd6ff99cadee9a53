/** The order in which the addon returns its manifests
    (internal/controllers/addon/controller.go): a stable order keeps the hub from updating a
    ManifestWork whose content did not change. */
module ManifestOrder {
  import opened Wrappers
  import opened Text
  import opened Sorting

  datatype Meta = Meta(namespace: string, name: string)

  /** A manifest: `meta` is None when its metadata cannot be accessed; `stack` marks a typed
      MonitoringStack and `converted` the outcome of making it unstructured. */
  datatype Object = Object(group: string, version: string, kind: string, meta: Option<Meta>, stack: bool, payload: string, converted: Option<string>)

  /** MonitoringStacks become unstructured objects unless the conversion fails. */
  function ToUnstructured(o: Object): Object {
    if o.stack && o.converted.Some? then o.(stack := false, payload := o.converted.value) else o
  }

  /** The comparator passed to the sort. */
  function Cmp(a: Object, b: Object): int {
    if Compare(a.group, b.group) != 0 then Compare(a.group, b.group)
    else if Compare(a.version, b.version) != 0 then Compare(a.version, b.version)
    else if Compare(a.kind, b.kind) != 0 then Compare(a.kind, b.kind)
    else if a.meta.None? && b.meta.None? then 0
    else if a.meta.None? then 1
    else if b.meta.None? then -1
    else if Compare(a.meta.value.namespace, b.meta.value.namespace) != 0 then
      Compare(a.meta.value.namespace, b.meta.value.namespace)
    else Compare(a.meta.value.name, b.meta.value.name)
  }

  predicate NotAfter(a: Object, b: Object) {
    Cmp(a, b) <= 0
  }

  /** What identifies an object for the comparator. */
  datatype Key = Key(group: string, version: string, kind: string, meta: Option<Meta>)

  function KeyOf(o: Object): Key {
    Key(o.group, o.version, o.kind, o.meta)
  }

  function Converted(objects: seq<Object>): (r: seq<Object>)
    ensures |r| == |objects|
    ensures forall i :: 0 <= i < |objects| ==> r[i] == ToUnstructured(objects[i])
  {
    seq(|objects|, i requires 0 <= i < |objects| => ToUnstructured(objects[i]))
  }

  /** The manifests, converted and then sorted in place. */
  method Manifests(objects: array<Object>)
    modifies objects
    ensures objects[..] == SortBy(NotAfter, Converted(old(objects[..])))
  {
    for i := 0 to objects.Length
      invariant forall k :: 0 <= k < i ==> objects[k] == ToUnstructured(old(objects[k]))
      invariant forall k :: i <= k < objects.Length ==> objects[k] == old(objects[k])
    {
      if objects[i].stack {
        objects[i] := ToUnstructured(objects[i]);
      }
    }
    assert objects[..] == Converted(old(objects[..]));
    SortInPlace(objects);
  }

  /** The library's stable sort of the slice. */
  method SortInPlace(objects: array<Object>)
    modifies objects
    ensures objects[..] == SortBy(NotAfter, old(objects[..]))
  {
    var sorted := SortBy(NotAfter, objects[..]);
    SortPermutes(NotAfter, objects[..]);
    for i := 0 to objects.Length
      invariant objects[..i] == sorted[..i]
    {
      objects[i] := sorted[i];
    }
  }

  // ---------------------------------------------------------------- the comparator

  /** Swapping the arguments flips the sign, and only equal keys compare as equal. */
  lemma CmpAntisymmetric(a: Object, b: Object)
    ensures Cmp(a, b) == -Cmp(b, a)
    ensures Cmp(a, b) == 0 <==> KeyOf(a) == KeyOf(b)
  {
    CompareAntisymmetric(a.group, b.group);
    CompareAntisymmetric(a.version, b.version);
    CompareAntisymmetric(a.kind, b.kind);
    if a.meta.Some? && b.meta.Some? {
      CompareAntisymmetric(a.meta.value.namespace, b.meta.value.namespace);
      CompareAntisymmetric(a.meta.value.name, b.meta.value.name);
    }
  }

  /** Comparing a first component and then the rest is transitive if both comparisons are. */
  lemma StringStep(a: string, b: string, c: string)
    requires Compare(a, b) <= 0 && Compare(b, c) <= 0
    ensures Compare(a, c) <= 0
    ensures Compare(a, c) == 0 ==> a == b == c
  {
    CompareTransitive(a, b, c);
    CompareAntisymmetric(a, c);
    if a == c {
      CompareAntisymmetric(a, b);
      CompareAntisymmetric(a, a);
    }
  }

  /** Objects are compared by group, then version, then kind; of the same kind those with metadata come
      first, ordered by namespace and then name. */
  lemma CmpLexicographic(a: Object, b: Object)
    ensures Cmp(a, b) < 0 <==>
      || Compare(a.group, b.group) < 0
      || (a.group == b.group && Compare(a.version, b.version) < 0)
      || (a.group == b.group && a.version == b.version && Compare(a.kind, b.kind) < 0)
      || (a.group == b.group && a.version == b.version && a.kind == b.kind && MetaBefore(a.meta, b.meta))
  {
    CompareAntisymmetric(a.group, b.group);
    CompareAntisymmetric(a.version, b.version);
    CompareAntisymmetric(a.kind, b.kind);
    if a.meta.Some? && b.meta.Some? {
      CompareAntisymmetric(a.meta.value.namespace, b.meta.value.namespace);
    }
  }

  predicate MetaBefore(a: Option<Meta>, b: Option<Meta>) {
    && a.Some?
    && (b.Some? ==> || Compare(a.value.namespace, b.value.namespace) < 0
                    || (a.value.namespace == b.value.namespace && Compare(a.value.name, b.value.name) < 0))
  }

  lemma CmpTransitive(a: Object, b: Object, c: Object)
    requires Cmp(a, b) <= 0 && Cmp(b, c) <= 0
    ensures Cmp(a, c) <= 0
  {
    CompareAntisymmetric(a.group, b.group);
    CompareAntisymmetric(b.group, c.group);
    StringStep(a.group, b.group, c.group);
    if a.group == b.group == c.group {
      CompareAntisymmetric(a.version, b.version);
      CompareAntisymmetric(b.version, c.version);
      StringStep(a.version, b.version, c.version);
      if a.version == b.version == c.version {
        CompareAntisymmetric(a.kind, b.kind);
        CompareAntisymmetric(b.kind, c.kind);
        StringStep(a.kind, b.kind, c.kind);
        if a.kind == b.kind == c.kind {
          MetaTransitive(a, b, c);
        }
      }
    }
  }

  lemma MetaTransitive(a: Object, b: Object, c: Object)
    requires a.group == b.group == c.group && a.version == b.version == c.version && a.kind == b.kind == c.kind
    requires Cmp(a, b) <= 0 && Cmp(b, c) <= 0
    ensures Cmp(a, c) <= 0
  {
    CompareAntisymmetric(a.group, a.group);
    CompareAntisymmetric(a.version, a.version);
    CompareAntisymmetric(a.kind, a.kind);
    if a.meta.Some? && b.meta.Some? && c.meta.Some? {
      CompareAntisymmetric(a.meta.value.namespace, b.meta.value.namespace);
      CompareAntisymmetric(b.meta.value.namespace, c.meta.value.namespace);
      StringStep(a.meta.value.namespace, b.meta.value.namespace, c.meta.value.namespace);
      if a.meta.value.namespace == b.meta.value.namespace == c.meta.value.namespace {
        StringStep(a.meta.value.name, b.meta.value.name, c.meta.value.name);
      }
    }
  }

  /** The comparator is a total preorder, objects without accessible metadata included. */
  lemma ComparatorIsPreorder()
    ensures TotalPreorder(NotAfter)
  {
    forall a, b ensures NotAfter(a, b) || NotAfter(b, a) {
      CmpAntisymmetric(a, b);
    }
    forall a, b, c | NotAfter(a, b) && NotAfter(b, c) ensures NotAfter(a, c) {
      CmpTransitive(a, b, c);
    }
  }

  // ---------------------------------------------------------------- the result

  /** Converting keeps the keys and changes exactly the typed stacks that can be converted. */
  lemma ConvertedAre(objects: seq<Object>, i: nat)
    requires i < |objects|
    ensures var o, r := objects[i], Converted(objects)[i];
      && KeyOf(r) == KeyOf(o)
      && (r.stack ==> o.stack && o.converted.None?)
      && (if o.stack && o.converted.Some? then !r.stack && r.payload == o.converted.value else r == o)
  {
  }

  /** The returned manifests are the converted ones, sorted, and equal keys keep their order. */
  lemma ManifestsSorted(objects: seq<Object>, pivot: Object)
    ensures var sorted := SortBy(NotAfter, objects);
      && multiset(sorted) == multiset(objects)
      && SortedBy(NotAfter, sorted)
      && ClassOf(NotAfter, pivot, sorted) == ClassOf(NotAfter, pivot, objects)
  {
    ComparatorIsPreorder();
    SortPermutes(NotAfter, objects);
    SortSorts(NotAfter, objects);
    SortStable(NotAfter, objects, pivot);
  }

  ghost predicate DistinctKeys(objects: seq<Object>) {
    forall i, j :: 0 <= i < j < |objects| ==> KeyOf(objects[i]) != KeyOf(objects[j])
  }

  lemma {:induction false} ConvertedPermutes(xs: seq<Object>, ys: seq<Object>)
    requires multiset(xs) == multiset(ys)
    ensures multiset(Converted(xs)) == multiset(Converted(ys))
  {
    hide Converted, ToUnstructured;
    assert |multiset(xs)| == |xs| && |multiset(ys)| == |ys|;
    if xs != [] {
      assert xs[0] in multiset(ys);
      var i :| 0 <= i < |ys| && ys[i] == xs[0];
      var rest := Without(ys, i);
      TailMultiset(xs);
      WithoutMultiset(ys, i);
      ConvertedPermutes(xs[1..], rest);
      assert Converted(rest) == Without(Converted(ys), i);
      WithoutMultiset(Converted(ys), i);
      assert Converted(xs)[1..] == Converted(xs[1..]);
      TailMultiset(Converted(xs));
      assert Converted(xs)[0] in multiset(Converted(xs));
    }
  }

  /** Any two orderings of the same objects with distinct keys are returned as the same list. */
  lemma ManifestsCanonical(xs: seq<Object>, ys: seq<Object>)
    requires DistinctKeys(xs) && multiset(xs) == multiset(ys)
    ensures SortBy(NotAfter, Converted(xs)) == SortBy(NotAfter, Converted(ys))
  {
    ComparatorIsPreorder();
    ConvertedPermutes(xs, ys);
    var cs := Converted(xs);
    forall i, j | 0 <= i < |cs| && 0 <= j < |cs| && NotAfter(cs[i], cs[j]) && NotAfter(cs[j], cs[i])
      ensures cs[i] == cs[j]
    {
      CmpAntisymmetric(cs[i], cs[j]);
      assert KeyOf(xs[i]) == KeyOf(xs[j]);
    }
    SortCanonical(NotAfter, cs, Converted(ys));
  }
}
