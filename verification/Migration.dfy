/** The migration of placement labels to the placement annotation
    (internal/metrics/resource/resource.go): what an agent targets afterwards. */
module Migration {
  import opened Config
  import opened Wrappers
  import opened Text
  import opened Placements
  import opened PlacementDefaults
  import opened HubReconcile

  /** The text is a part of the other. */
  lemma {:induction false} ContainsIff(s: string, sub: string)
    ensures Contains(s, sub) <==> exists i :: 0 <= i <= |s| && sub <= s[i..]
  {
    if sub <= s {
      assert s[0..] == s;
    } else if s == "" {
    } else {
      ContainsIff(s[1..], sub);
      if i :| 0 <= i <= |s| && sub <= s[i..] {
        assert i > 0 by { assert s[0..] == s; }
        assert s[1..][i - 1..] == s[i..];
      }
      if i :| 0 <= i <= |s[1..]| && sub <= s[1..][i..] {
        assert s[1..][i..] == s[i + 1..];
      }
    }
  }

  /** Appending an entry appends to the list of entries. */
  lemma EntriesAppend(annotation: string, ref: PlacementRef)
    requires Clean(ref)
    ensures Entries(annotation + "," + RefText(ref)) == Entries(annotation) + [RefText(ref)]
  {
    hide Split, TrimSpace, IsSpace;
    var text := RefText(ref);
    CleanText(ref);
    SplitConcat(annotation, text, ',');
    SplitFree(text, ',');
    TrimSpaceKeepsClean(text);
    var parts := Split(annotation, ',');
    assert annotation + [','] + text == annotation + "," + text;
    assert Split(annotation + "," + text, ',') == parts + [text];
  }

  /** The placement the labels name. */
  function Labelled(a: Agent): PlacementRef {
    PlacementRef(Lookup(a.labels, "placement-ref-namespace"), Lookup(a.labels, "placement-ref-name"))
  }

  /** Only managed agents with both labels are migrated. */
  predicate HasLabels(a: Agent) {
    Lookup(a.labels, "app.kubernetes.io/managed-by") == ADDON_NAME && Labelled(a).namespace != "" && Labelled(a).name != ""
  }

  lemma TargetsAppended(annotation: string, ref: PlacementRef, r: PlacementRef)
    requires Clean(ref) && annotation != ""
    ensures Targets(annotation + "," + RefText(ref), r.namespace, r.name) <==>
            Targets(annotation, r.namespace, r.name) || RefText(r) == RefText(ref)
  {
    hide Entries, Clean;
    EntriesAppend(annotation, ref);
  }

  lemma TargetsAlone(ref: PlacementRef, r: PlacementRef)
    requires Clean(ref)
    ensures Targets(RefText(ref), r.namespace, r.name) <==> RefText(r) == RefText(ref)
  {
    var text := RefText(ref);
    assert text[|text| - 1] == ref.name[|ref.name| - 1];
    SingleEntry(text);
  }

  lemma TextsDiffer(r: PlacementRef, ref: PlacementRef)
    requires Proper(r) && Proper(ref)
    ensures RefText(r) == RefText(ref) <==> r == ref
  {
    RefTextParses(r);
    RefTextParses(ref);
  }

  /** A migrated agent loses both labels and keeps everything else but its annotation; it targets what
      it targeted before and the labelled placement, unless the text of that is part of the annotation
      already: then it targets no more than before. Agents that have nothing to migrate stay. */
  lemma MigratedTargets(a: Agent, r: PlacementRef)
    requires (HasLabels(a) ==> Clean(Labelled(a))) && Proper(r)
    ensures !HasLabels(a) ==> MigratedIfManaged(a) == a
    ensures HasLabels(a) ==> var b := MigratedIfManaged(a);
      && b.labels == a.labels - {"placement-ref-name", "placement-ref-namespace"}
      && b.(labels := a.labels, annotations := a.annotations) == a
      && b.annotations - {PLACEMENTS_KEY} == a.annotations - {PLACEMENTS_KEY}
      && (Targets(AnnotationOf(b), r.namespace, r.name) <==>
            || Targets(AnnotationOf(a), r.namespace, r.name)
            || (r == Labelled(a) && !Contains(AnnotationOf(a), RefText(Labelled(a)))))
  {
    hide Targets, Contains, Clean, Proper;
    if HasLabels(a) {
      var ref, existing := Labelled(a), AnnotationOf(a);
      TextsDiffer(r, ref) by { CleanIsProper(ref); }
      assert existing == "" ==> !Contains(existing, RefText(ref)) by { NothingContained(ref); }
      if existing == "" {
        TargetsAlone(ref, r);
        assert AnnotationOf(MigratedIfManaged(a)) == RefText(ref);
        NoTargets(r);
      } else if !Contains(existing, RefText(ref)) {
        TargetsAppended(existing, ref, r);
        assert AnnotationOf(MigratedIfManaged(a)) == existing + "," + RefText(ref);
      }
    }
  }

  lemma CleanIsProper(r: PlacementRef)
    requires Clean(r)
    ensures Proper(r)
  {
  }

  lemma NothingContained(r: PlacementRef)
    ensures !Contains("", RefText(r))
  {
  }

  lemma NoTargets(r: PlacementRef)
    ensures !Targets("", r.namespace, r.name)
  {
  }

  /** The labelled placement is targeted after the migration exactly if it was before or its text is no
      part of the annotation. */
  lemma LabelledTargetedIff(a: Agent)
    requires HasLabels(a) && Clean(Labelled(a))
    ensures Targets(AnnotationOf(MigratedIfManaged(a)), Labelled(a).namespace, Labelled(a).name) <==>
            Targets(AnnotationOf(a), Labelled(a).namespace, Labelled(a).name) || !Contains(AnnotationOf(a), RefText(Labelled(a)))
  {
    hide Targets, Contains, Clean, MigratedIfManaged, HasLabels;
    CleanIsProper(Labelled(a));
    MigratedTargets(a, Labelled(a));
  }

  /** An agent that targets a placement whose name starts like that of the labelled one. */
  function LongerName(a: Agent): Agent {
    a.(labels := map["app.kubernetes.io/managed-by" := ADDON_NAME, "placement-ref-name" := "eu", "placement-ref-namespace" := "set"],
       annotations := map[PLACEMENTS_KEY := "set/eu-west"])
  }

  /** Its migration removes the labels and loses the placement. */
  lemma LabelLost(a: Agent)
    ensures var x := LongerName(a);
      && Labelled(x) == PlacementRef("set", "eu") && Lookup(MigratedIfManaged(x).labels, "placement-ref-name") == ""
      && !Targets(AnnotationOf(MigratedIfManaged(x)), "set", "eu")
  {
    hide Targets, Contains, Clean;
    var x, west := LongerName(a), PlacementRef("set", "eu-west");
    assert "placement-ref-name" != "placement-ref-namespace" by { assert |"placement-ref-name"| != |"placement-ref-namespace"|; }
    assert "app.kubernetes.io/managed-by"[0] != "placement-ref-name"[0];
    assert AnnotationOf(x) == RefText(west);
    WestClean();
    LabelledTargetedIff(x);
    TargetsAlone(west, Labelled(x));
    ContainsPrefix("set/eu-west", "set/eu");
    assert RefText(Labelled(x)) == "set/eu";
  }

  lemma WestClean()
    ensures Clean(PlacementRef("set", "eu-west")) && Clean(PlacementRef("set", "eu"))
  {
    assert "set"[0] == 's' && "eu-west"[6] == 't' && "eu"[1] == 'u';
  }

  lemma ContainsPrefix(s: string, sub: string)
    requires sub <= s
    ensures Contains(s, sub)
  {
  }
}
