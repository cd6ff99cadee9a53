/** The placement annotation of an agent, a scrape config or a rule: comma-separated
    `namespace/name` entries. Three places of the addon read it with code of their own
    (internal/metrics/resource/resource.go, internal/addon/common/cleanup_resources.go). */
module Placements {
  import opened Wrappers
  import opened Text

  datatype PlacementRef = PlacementRef(namespace: string, name: string)

  const DUMMY := "dummy"

  /** Go's strings.Cut on a one-character separator: the text before and after its first occurrence. */
  function Cut(s: string, sep: char): (r: Option<(string, string)>)
    ensures r.Some? <==> sep in s
    ensures r.Some? ==> s == r.value.0 + [sep] + r.value.1 && sep !in r.value.0
  {
    if s == "" then None
    else if s[0] == sep then Some(("", s[1..]))
    else
      assert s == [s[0]] + s[1..];
      var rest := Cut(s[1..], sep);
      if rest.None? then None else Some(([s[0]] + rest.value.0, rest.value.1))
  }

  lemma {:induction false} CutUnique(before: string, after: string, sep: char)
    requires sep !in before
    ensures Cut(before + [sep] + after, sep) == Some((before, after))
  {
    var s := before + [sep] + after;
    if before == "" {
      assert s[1..] == after;
    } else {
      assert s[1..] == before[1..] + [sep] + after;
      CutUnique(before[1..], after, sep);
      assert before == [before[0]] + before[1..];
    }
  }

  /** The entries of an annotation, trimmed. */
  function Entries(annotation: string): seq<string> {
    var parts := Split(annotation, ',');
    seq(|parts|, i requires 0 <= i < |parts| => TrimSpace(parts[i]))
  }

  function RefText(r: PlacementRef): string {
    r.namespace + "/" + r.name
  }

  /** `namespace/name`, both non-empty; only the first slash separates. */
  function ParseRef(entry: string): Option<PlacementRef> {
    var cut := Cut(entry, '/');
    if cut.None? || cut.value.0 == "" || cut.value.1 == "" then None
    else Some(PlacementRef(cut.value.0, cut.value.1))
  }

  /** The references of some entries in first-occurrence order, or the first malformed entry. */
  function RefsOf(entries: seq<string>): Result<seq<PlacementRef>, string> {
    if entries == [] then Ok([])
    else
      var init, entry := entries[..|entries| - 1], entries[|entries| - 1];
      var before :- RefsOf(init);
      if entry == "" then Ok(before)
      else
        var ref := ParseRef(entry);
        if ref.None? then Err(entry)
        else Ok(if ref.value in before then before else before + [ref.value])
  }

  function PlacementRefs(annotation: string): Result<seq<PlacementRef>, string> {
    if annotation == "" then Ok([]) else RefsOf(Entries(annotation))
  }

  method GeneratePlacementRefs(annotation: string) returns (res: Result<seq<PlacementRef>, string>)
    ensures res == PlacementRefs(annotation)
  {
    hide Split, TrimSpace, ParseRef;
    if annotation == "" {
      return Ok([]);
    }
    var placements := Split(annotation, ',');
    ghost var entries := Entries(annotation);
    var refs: seq<PlacementRef> := [];
    for i := 0 to |placements|
      invariant RefsOf(entries[..i]) == Ok(refs)
    {
      assert entries[..i + 1][..i] == entries[..i];
      var placement := TrimSpace(placements[i]);
      if placement != "" {
        var ref := ParseRef(placement);
        if ref.None? {
          ParseStopsAtMalformed(entries, i);
          return Err(placement);
        }
        if ref.value !in refs {
          refs := refs + [ref.value];
        }
      }
    }
    assert entries[..|entries|] == entries;
    return Ok(refs);
  }

  lemma {:induction false} ParseStopsAtMalformed(entries: seq<string>, i: nat)
    requires i < |entries| && RefsOf(entries[..i]).Ok? && entries[i] != "" && ParseRef(entries[i]).None?
    ensures RefsOf(entries) == Err(entries[i])
    decreases |entries|
  {
    if i < |entries| - 1 {
      var init := entries[..|entries| - 1];
      assert init[..i] == entries[..i];
      ParseStopsAtMalformed(init, i);
    }
  }

  /** Does an annotation name this placement? (agentTargetsPlacement) */
  predicate Targets(annotation: string, namespace: string, name: string) {
    annotation != "" && namespace + "/" + name in Entries(annotation)
  }

  /** A reference to the sentinel placement, whatever its namespace. (isDummyPlacementRef) */
  predicate IsDummyRef(entry: string) {
    var cut := Cut(entry, '/');
    cut.Some? && cut.value.1 == DUMMY
  }

  /** Does an annotation keep its object alive? (hasExistingPlacementRef) */
  predicate HasExistingRef(annotation: string, placements: set<string>) {
    annotation != "" && exists entry :: entry in Entries(annotation) && (IsDummyRef(entry) || entry in placements)
  }

  method HasExistingPlacementRef(annotation: string, placements: set<string>) returns (found: bool)
    ensures found <==> HasExistingRef(annotation, placements)
  {
    hide Split, TrimSpace, IsDummyRef;
    if annotation == "" {
      return false;
    }
    var refs := Split(annotation, ',');
    ghost var entries := Entries(annotation);
    for i := 0 to |refs|
      invariant forall k :: 0 <= k < i ==> !IsDummyRef(entries[k]) && entries[k] !in placements
    {
      var ref := TrimSpace(refs[i]);
      assert ref == entries[i];
      if IsDummyRef(ref) {
        return true;
      }
      if ref in placements {
        return true;
      }
    }
    return false;
  }

  // ---------------------------------------------------------------- what the parser returns

  /** A reference a placement can really have. */
  predicate Proper(r: PlacementRef) {
    r.namespace != "" && '/' !in r.namespace && r.name != ""
  }

  /** The references named by some entries. */
  ghost predicate Names(entries: seq<string>, r: PlacementRef) {
    exists k :: 0 <= k < |entries| && entries[k] != "" && ParseRef(entries[k]) == Some(r)
  }

  lemma NamesSnoc(entries: seq<string>, r: PlacementRef)
    requires entries != []
    ensures Names(entries, r) <==>
            Names(entries[..|entries| - 1], r) || (entries[|entries| - 1] != "" && ParseRef(entries[|entries| - 1]) == Some(r))
  {
    var init := entries[..|entries| - 1];
    if Names(init, r) {
      var k :| 0 <= k < |init| && init[k] != "" && ParseRef(init[k]) == Some(r);
      assert entries[k] == init[k];
    }
    if k :| 0 <= k < |entries| && entries[k] != "" && ParseRef(entries[k]) == Some(r) {
      if k < |init| { assert init[k] == entries[k]; }
    }
  }

  ghost predicate NoDuplicates<T>(xs: seq<T>) {
    forall i, j :: 0 <= i < j < |xs| ==> xs[i] != xs[j]
  }

  /** The parsed list holds exactly the named references, each once. */
  lemma {:induction false} RefsAre(entries: seq<string>)
    ensures var res := RefsOf(entries); res.Ok? ==>
      && (forall r :: r in res.value <==> Names(entries, r))
      && (forall r :: r in res.value ==> Proper(r))
      && NoDuplicates(res.value)
  {
    if entries != [] {
      RefsAre(entries[..|entries| - 1]);
      forall r {
        NamesSnoc(entries, r);
      }
    }
  }

  /** Parsing succeeds exactly if every non-blank entry is a well-formed reference. */
  lemma {:induction false} RefsOkIff(entries: seq<string>)
    ensures RefsOf(entries).Ok? <==> forall k :: 0 <= k < |entries| && entries[k] != "" ==> ParseRef(entries[k]).Some?
  {
    if entries != [] {
      var init := entries[..|entries| - 1];
      RefsOkIff(init);
      assert forall k :: 0 <= k < |init| ==> init[k] == entries[k];
    }
  }

  /** First-occurrence order: the references of the first entries come first. */
  lemma {:induction false} RefsOrder(entries: seq<string>, k: nat)
    requires k <= |entries| && RefsOf(entries).Ok?
    ensures RefsOf(entries[..k]).Ok? && RefsOf(entries[..k]).value <= RefsOf(entries).value
    decreases |entries|
  {
    if k == |entries| {
      assert entries[..k] == entries;
    } else {
      var init := entries[..|entries| - 1];
      assert init[..k] == entries[..k];
      RefsOrder(init, k);
    }
  }

  // ---------------------------------------------------------------- the readers agree

  lemma RefTextParses(r: PlacementRef)
    requires Proper(r)
    ensures ParseRef(RefText(r)) == Some(r)
  {
    CutUnique(r.namespace, r.name, '/');
    assert RefText(r) == r.namespace + ['/'] + r.name;
  }

  /** An entry is a reference exactly if it is the text of a proper one. */
  lemma ParseRefIff(entry: string, r: PlacementRef)
    ensures ParseRef(entry) == Some(r) <==>
            r.namespace != "" && '/' !in r.namespace && r.name != "" && entry == r.namespace + "/" + r.name
  {
    if Proper(r) {
      RefTextParses(r);
    }
  }

  lemma ParsedText(entry: string, r: PlacementRef)
    requires ParseRef(entry) == Some(r)
    ensures entry == RefText(r) && Proper(r)
  {
  }

  /** An annotation targets a placement exactly if some part of it between commas is the text of the
      reference with any spaces around it. */
  lemma TargetsWritten(annotation: string, r: PlacementRef)
    requires Clean(r)
    ensures Targets(annotation, r.namespace, r.name) <==>
            exists k, i :: 0 <= k < |Split(annotation, ',')| && Trimmed(Split(annotation, ',')[k], r.namespace + "/" + r.name, i)
  {
    hide TrimSpace, IsSpace, Trimmed;
    var text, parts := r.namespace + "/" + r.name, Split(annotation, ',');
    assert text == r.namespace + "/" + r.name;
    CleanText(r);
    forall k | 0 <= k < |parts| ensures TrimSpace(parts[k]) == text <==> exists i :: Trimmed(parts[k], text, i) {
      TrimSpaceIs(parts[k]);
      if i :| Trimmed(parts[k], text, i) {
        TrimmedUnique(parts[k], text, i);
      }
    }
    if annotation == "" {
      NothingTrimmed(text);
    } else {
      assert forall k :: 0 <= k < |parts| ==> Entries(annotation)[k] == TrimSpace(parts[k]);
      if Targets(annotation, r.namespace, r.name) {
        var k :| 0 <= k < |parts| && Entries(annotation)[k] == text;
        assert TrimSpace(parts[k]) == text;
        var i :| Trimmed(parts[k], text, i);
        assert Trimmed(Split(annotation, ',')[k], r.namespace + "/" + r.name, i);
      }
      if k, i :| 0 <= k < |parts| && Trimmed(parts[k], text, i) {
        assert TrimSpace(parts[k]) == text;
        assert Entries(annotation)[k] in Entries(annotation);
        assert Targets(annotation, r.namespace, r.name);
      }
    }
  }

  lemma CleanText(r: PlacementRef)
    requires Clean(r)
    ensures var text := r.namespace + "/" + r.name; text != "" && !IsSpace(text[0]) && !IsSpace(text[|text| - 1])
  {
    var text := r.namespace + "/" + r.name;
    assert text[0] == r.namespace[0] && text[|text| - 1] == r.name[|r.name| - 1];
  }

  lemma NothingTrimmed(text: string)
    requires text != ""
    ensures forall k :: 0 <= k < |Split("", ',')| ==> TrimSpace(Split("", ',')[k]) != text
    ensures forall k, i :: 0 <= k < |Split("", ',')| ==> !Trimmed(Split("", ',')[k], text, i)
  {
  }

  /** Whenever the annotation parses, an agent targets a placement exactly if the placement is in
      the parsed list. */
  lemma TargetsIffParsed(annotation: string, r: PlacementRef)
    requires PlacementRefs(annotation).Ok? && Proper(r)
    ensures Targets(annotation, r.namespace, r.name) <==> r in PlacementRefs(annotation).value
  {
    if annotation != "" {
      var entries := Entries(annotation);
      RefsAre(entries);
      RefTextParses(r);
      if RefText(r) in entries {
        var k :| 0 <= k < |entries| && entries[k] == RefText(r);
        assert Names(entries, r);
      }
      if Names(entries, r) {
        var k :| 0 <= k < |entries| && entries[k] != "" && ParseRef(entries[k]) == Some(r);
        ParsedText(entries[k], r);
      }
    }
  }

  ghost function Texts(placements: set<PlacementRef>): set<string> {
    set r | r in placements :: RefText(r)
  }

  /** Whenever the annotation parses, it keeps its object alive exactly if some parsed reference is
      the sentinel or an existing placement. */
  lemma ExistingIffParsed(annotation: string, placements: set<PlacementRef>)
    requires PlacementRefs(annotation).Ok?
    requires forall r :: r in placements ==> Proper(r)
    ensures HasExistingRef(annotation, Texts(placements)) <==>
            exists r :: r in PlacementRefs(annotation).value && (r.name == DUMMY || r in placements)
  {
    if annotation != "" {
      var entries := Entries(annotation);
      RefsAre(entries);
      RefsOkIff(entries);
      if entry :| entry in entries && (IsDummyRef(entry) || entry in Texts(placements)) {
        var k :| 0 <= k < |entries| && entries[k] == entry;
        if entry in Texts(placements) {
          var r :| r in placements && RefText(r) == entry;
          RefTextParses(r);
          assert Names(entries, r);
        } else {
          var r := ParseRef(entry).value;
          assert Names(entries, r);
        }
      }
      if r :| r in PlacementRefs(annotation).value && (r.name == DUMMY || r in placements) {
        var k :| 0 <= k < |entries| && entries[k] != "" && ParseRef(entries[k]) == Some(r);
        ParsedText(entries[k], r);
        assert entries[k] in entries;
        CutUnique(r.namespace, r.name, '/');
      }
    }
  }

  lemma SingleEntry(text: string)
    requires ',' !in text && text != "" && !IsSpace(text[0]) && !IsSpace(text[|text| - 1])
    ensures Entries(text) == [text]
  {
    SplitFree(text, ',');
    TrimSpaceKeepsClean(text);
  }

  lemma SingleRef(text: string, r: PlacementRef)
    requires text != "" && ParseRef(text) == Some(r)
    ensures RefsOf([text]) == Ok([r])
  {
    assert [text][..0] == [];
    assert RefsOf([text][..0]) == Ok([]);
    assert [] + [r] == [r];
  }

  /** A placement whose text survives trimming and splitting. */
  predicate Clean(r: PlacementRef) {
    Proper(r) && ',' !in r.namespace && ',' !in r.name && !IsSpace(r.namespace[0]) && !IsSpace(r.name[|r.name| - 1])
  }

  /** The annotation written for one placement reads back as that placement alone. */
  lemma SingleRefRoundTrip(r: PlacementRef)
    requires Clean(r)
    ensures PlacementRefs(RefText(r)) == Ok([r])
    ensures Targets(RefText(r), r.namespace, r.name)
  {
    var text := RefText(r);
    assert text[|text| - 1] == r.name[|r.name| - 1];
    SingleEntry(text);
    RefTextParses(r);
    SingleRef(text, r);
  }
}
