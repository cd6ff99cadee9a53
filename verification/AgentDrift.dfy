/** What a user can change on a stored agent without the hub enforcing its spec again: the apply is
    skipped when the built spec is "derivative" of the stored one
    (internal/metrics/resource/resource.go). */
module AgentDrift {
  import opened Wrappers
  import opened RemoteWrites
  import opened AgentSpec

  // ---------------------------------------------------------------- configmaps

  /** Some other entry follows an occurrence of `x`. */
  predicate Followed(x: string, xs: seq<string>) {
    exists i, j :: 0 <= i < j < |xs| && xs[i] == x && xs[j] != x
  }

  lemma {:induction false} RemovingLength(x: string, xs: seq<string>)
    ensures |Removing(x, xs)| <= |xs|
    ensures x in xs ==> |Removing(x, xs)| < |xs|
  {
    if xs != [] {
      RemovingLength(x, xs[..|xs| - 1]);
      assert xs == xs[..|xs| - 1] + [xs[|xs| - 1]];
    }
  }

  /** Taking the occurrences of `x` out leaves a prefix exactly if they are all at the end. */
  lemma {:induction false} RemovingPrefixIff(x: string, xs: seq<string>)
    ensures Removing(x, xs) <= xs <==> !Followed(x, xs)
  {
    if xs != [] {
      var n := |xs| - 1;
      var init := xs[..n];
      RemovingPrefixIff(x, init);
      RemovingLength(x, init);
      assert xs == init + [xs[n]];
      if i, j :| 0 <= i < j < |init| && init[i] == x && init[j] != x {
        assert xs[i] == x && xs[j] != x;
      }
      if xs[n] == x {
        assert Removing(x, xs) == Removing(x, init);
        if i, j :| 0 <= i < j < |xs| && xs[i] == x && xs[j] != x {
          assert init[i] == x && init[j] != x;
        }
      } else if x in init {
        var i :| 0 <= i < n && init[i] == x;
        assert xs[i] == x && xs[n] != x;
        assert Removing(x, xs)[|Removing(x, init)|] == xs[n];
        LastKept(x, xs);
      } else {
        RemovingNothing(x, xs);
      }
    }
  }

  /** If an entry after an occurrence of `x` is kept, what is left is no prefix. */
  lemma LastKept(x: string, xs: seq<string>)
    requires xs != [] && xs[|xs| - 1] != x && x in xs[..|xs| - 1]
    ensures !(Removing(x, xs) <= xs)
  {
    var r := Removing(x, xs);
    var i := FirstOccurrence(x, xs);
    RemovingConcat(x, xs[..i], xs[i..]);
    RemovingNothing(x, xs[..i]);
    assert xs == xs[..i] + xs[i..];
    RemovingHas(x, xs[i..], xs[|xs| - 1]);
    assert xs[i..][|xs| - 1 - i] == xs[|xs| - 1];
    RemovingHas(x, xs, x);
    assert |r| > i;
    assert r[i] in r;
  }

  lemma {:induction false} FirstOccurrence(x: string, xs: seq<string>) returns (i: nat)
    requires x in xs
    ensures i < |xs| && xs[i] == x && x !in xs[..i]
  {
    var n := |xs| - 1;
    assert xs == xs[..n] + [xs[n]];
    if x in xs[..n] {
      i := FirstOccurrence(x, xs[..n]);
      assert xs[..n][..i] == xs[..i];
    } else {
      i := n;
    }
  }

  /** Everything but the configmaps is as the hub wants it. */
  predicate OtherwiseEnforced(existing: Spec, s: Settings) {
    Derivative(Built(existing, s).(configMaps := []), existing)
  }

  /** When a user's copies of the CA configmap are taken off the stored agent: exactly if something
      else needs enforcing too, or another configmap follows one of the copies. */
  lemma CaConfigMapRemovedIff(existing: Spec, s: Settings)
    requires CA_CONFIGMAP in existing.configMaps
    ensures CA_CONFIGMAP !in Enforced(existing, s).configMaps <==>
            !OtherwiseEnforced(existing, s) || Followed(CA_CONFIGMAP, existing.configMaps)
  {
    hide DerivativeRemoteWrite, DerivativeClass, Followed, BuiltSecrets, BuiltRemoteWrite;
    RemovingHas(CA_CONFIGMAP, existing.configMaps, CA_CONFIGMAP);
    RemovingPrefixIff(CA_CONFIGMAP, existing.configMaps);
    assert Derivative(Built(existing, s), existing) <==>
           OtherwiseEnforced(existing, s) && Removing(CA_CONFIGMAP, existing.configMaps) <= existing.configMaps;
  }

  /** In particular a copy appended to an enforced agent stays. */
  lemma TrailingCaConfigMapStays(existing: Spec, s: Settings, users: seq<string>)
    requires CA_CONFIGMAP !in users
    requires Overwritten(existing, Built(existing, s)) == existing && existing.configMaps == users
    ensures var copied := existing.(configMaps := users + [CA_CONFIGMAP]); Enforced(copied, s) == copied
  {
    var copied := existing.(configMaps := users + [CA_CONFIGMAP]);
    RemovingLast(CA_CONFIGMAP, users);
    RemovingNothing(CA_CONFIGMAP, users);
    assert Built(copied, s) == Built(existing, s);
    DerivativeReflexive(existing);
  }

  // ---------------------------------------------------------------- scrape classes

  /** Everything but the scrape classes is as the hub wants it. */
  predicate EnforcedButClasses(existing: Spec, s: Settings) {
    Derivative(Built(existing, s).(scrapeClasses := []), existing)
  }

  /** Scrubbing only unsets fields, so it never makes the apply happen by itself. */
  lemma ScrubUnnoticed(cs: seq<ScrapeClass>)
    ensures forall i :: 0 <= i < |cs| ==> DerivativeClass(BuiltClasses(cs)[i], cs[i])
  {
    hide DerivativeClass, Scrubbed;
    forall i | 0 <= i < |cs| ensures DerivativeClass(BuiltClasses(cs)[i], cs[i]) {
      ScrubbedIsDerivative(cs[i]);
    }
  }

  lemma ScrubbedIsDerivative(c: ScrapeClass)
    ensures DerivativeClass(Scrubbed(c), c)
  {
  }

  /** The user's settings on the addon's scrape classes are taken off the stored agent exactly if there
      are none or something else needs enforcing. */
  lemma ClassesScrubbedIff(existing: Spec, s: Settings)
    ensures Enforced(existing, s).scrapeClasses == BuiltClasses(existing.scrapeClasses) <==>
            existing.scrapeClasses == BuiltClasses(existing.scrapeClasses) || !EnforcedButClasses(existing, s)
  {
    hide DerivativeRemoteWrite, DerivativeClass, BuiltSecrets, BuiltRemoteWrite, Removing;
    ScrubUnnoticed(existing.scrapeClasses);
    assert Derivative(Built(existing, s), existing) <==> EnforcedButClasses(existing, s);
  }

  /** An instance: credentials set on an `ocp-monitoring` class of an enforced agent stay. */
  lemma ClassCredentialsStay(existing: Spec, s: Settings, file: string)
    requires Overwritten(existing, Built(existing, s)) == existing
    ensures var class_ := ScrapeClass(OCP_CLASS, [], Some(file), None, None, None);
      var edited := existing.(scrapeClasses := existing.scrapeClasses + [class_]);
      Enforced(edited, s) == edited
  {
    hide DerivativeRemoteWrite, DerivativeClass;
    var class_ := ScrapeClass(OCP_CLASS, [], Some(file), None, None, None);
    var edited := existing.(scrapeClasses := existing.scrapeClasses + [class_]);
    var built := Built(existing, s);
    assert Built(edited, s) == built.(scrapeClasses := BuiltClasses(edited.scrapeClasses));
    ScrubUnnoticed(edited.scrapeClasses);
    DerivativeReflexive(existing);
    assert built == existing.(free := "");
  }

  // ---------------------------------------------------------------- remote writes

  predicate DerivativeList(xs: seq<RemoteWrite<string>>, ys: seq<RemoteWrite<string>>) {
    |xs| <= |ys| && forall i :: 0 <= i < |xs| ==> DerivativeRemoteWrite(xs[i], ys[i])
  }

  lemma SameIsDerivative(rw: RemoteWrite<string>)
    ensures DerivativeRemoteWrite(rw, rw)
  {
  }

  /** A remote write of a user follows one of the addon's. */
  predicate MainFollowed(rws: seq<RemoteWrite<string>>) {
    exists i, j :: 0 <= i < j < |rws| && IsMain(rws[i]) && !IsMain(rws[j])
  }

  lemma MainFollowedSnoc(rws: seq<RemoteWrite<string>>, x: RemoteWrite<string>)
    ensures MainFollowed(rws + [x]) <==> MainFollowed(rws) || (!IsMain(x) && MainIndex(rws) < |rws|)
  {
    var all := rws + [x];
    if i, j :| 0 <= i < j < |rws| && IsMain(rws[i]) && !IsMain(rws[j]) {
      assert IsMain(all[i]) && !IsMain(all[j]);
    }
    if !IsMain(x) && MainIndex(rws) < |rws| {
      assert IsMain(all[MainIndex(rws)]) && !IsMain(all[|rws|]);
    }
    if i, j :| 0 <= i < j < |all| && IsMain(all[i]) && !IsMain(all[j]) {
      assert IsMain(rws[i]);
      if j < |rws| { assert !IsMain(rws[j]); }
    }
  }

  /** Without a user's remote write behind one of the addon's, the users' are a prefix. */
  lemma {:induction false} OthersPrefix(rws: seq<RemoteWrite<string>>)
    requires !MainFollowed(rws)
    ensures Others(rws) <= rws && |Others(rws)| == MainIndex(rws)
  {
    if rws != [] {
      var init, x := rws[..|rws| - 1], rws[|rws| - 1];
      assert rws == init + [x];
      MainFollowedSnoc(init, x);
      OthersPrefix(init);
      MainIndexSnoc(init, x);
    }
  }

  /** A named remote write of a user is not derivative of the addon's. */
  lemma NamedDiffer(a: RemoteWrite<string>, b: RemoteWrite<string>)
    requires !IsMain(a) && a.name.Some? && IsMain(b)
    ensures !DerivativeRemoteWrite(a, b)
  {
  }

  /** The remote writes that are not the addon's have names. */
  predicate UsersNamed(rws: seq<RemoteWrite<string>>) {
    forall i :: 0 <= i < |rws| && !IsMain(rws[i]) ==> rws[i].name.Some?
  }

  lemma {:induction false} OthersNamed(rws: seq<RemoteWrite<string>>)
    requires UsersNamed(rws)
    ensures forall i :: 0 <= i < |Others(rws)| ==> !IsMain(Others(rws)[i]) && Others(rws)[i].name.Some?
  {
    if rws != [] {
      OthersNamed(rws[..|rws| - 1]);
    }
  }

  lemma {:induction false} OthersCount(rws: seq<RemoteWrite<string>>)
    requires MainFollowed(rws)
    ensures |Others(rws)| > MainIndex(rws)
  {
    var init, x := rws[..|rws| - 1], rws[|rws| - 1];
    assert rws == init + [x];
    MainFollowedSnoc(init, x);
    MainIndexSnoc(init, x);
    if MainFollowed(init) {
      OthersCount(init);
    } else {
      OthersPrefix(init);
    }
  }

  /** The users' remote writes alone pass for the list exactly if the addon's are all behind them. */
  lemma OthersDerivativeIff(rws: seq<RemoteWrite<string>>)
    requires UsersNamed(rws)
    ensures DerivativeList(Others(rws), rws) <==> !MainFollowed(rws)
  {
    hide DerivativeRemoteWrite, Others, MainFollowed;
    if MainFollowed(rws) {
      var k := MainIndex(rws);
      OthersCount(rws);
      OthersNamed(rws);
      if DerivativeList(Others(rws), rws) {
        NamedDiffer(Others(rws)[k], rws[k]);
      }
    } else {
      OthersPrefix(rws);
      forall i | 0 <= i < |Others(rws)| ensures DerivativeRemoteWrite(Others(rws)[i], rws[i]) {
        SameIsDerivative(rws[i]);
      }
    }
  }

  /** Everything but the duplicates of the addon's remote write is as the hub wants it. */
  predicate EnforcedButDuplicates(existing: Spec, s: Settings) {
    var k := MainIndex(existing.remoteWrite);
    && Derivative(Built(existing, s).(remoteWrite := []), existing)
    && k < |existing.remoteWrite|
    && DerivativeRemoteWrite(MainRemoteWrite(s.endpoint, Some(existing.remoteWrite[k])), existing.remoteWrite[k])
  }

  lemma DerivativeConcat(xs: seq<RemoteWrite<string>>, xs': seq<RemoteWrite<string>>,
                         ys: seq<RemoteWrite<string>>, ys': seq<RemoteWrite<string>>)
    requires |xs| == |xs'|
    ensures DerivativeList(xs + ys, xs' + ys') <==> DerivativeList(xs, xs') && DerivativeList(ys, ys')
  {
    hide DerivativeRemoteWrite;
    var n, l, r := |xs|, xs + ys, xs' + ys';
    if DerivativeList(l, r) {
      forall i | 0 <= i < n ensures DerivativeRemoteWrite(xs[i], xs'[i]) {
        assert DerivativeRemoteWrite(l[i], r[i]);
      }
      forall i | 0 <= i < |ys| ensures DerivativeRemoteWrite(ys[i], ys'[i]) {
        assert DerivativeRemoteWrite(l[n + i], r[n + i]);
      }
    }
  }

  lemma SameListIsDerivative(rws: seq<RemoteWrite<string>>)
    ensures DerivativeList(rws, rws)
  {
    hide DerivativeRemoteWrite;
    forall i | 0 <= i < |rws| ensures DerivativeRemoteWrite(rws[i], rws[i]) {
      SameIsDerivative(rws[i]);
    }
  }

  lemma OneDerivative(a: RemoteWrite<string>, b: RemoteWrite<string>)
    ensures DerivativeList([a], [b]) <==> DerivativeRemoteWrite(a, b)
  {
    hide DerivativeRemoteWrite;
    assert [a][0] == a && [b][0] == b;
    assert DerivativeList([a], [b]) <==> DerivativeRemoteWrite([a][0], [b][0]);
  }

  lemma DerivativeAround(before: seq<RemoteWrite<string>>, x: RemoteWrite<string>, y: RemoteWrite<string>,
                         xs: seq<RemoteWrite<string>>, ys: seq<RemoteWrite<string>>)
    ensures DerivativeList(before + [x] + xs, before + [y] + ys) <==> DerivativeRemoteWrite(x, y) && DerivativeList(xs, ys)
  {
    hide DerivativeRemoteWrite, DerivativeList;
    SameListIsDerivative(before);
    OneDerivative(x, y);
    DerivativeConcat(before, before, [x], [y]);
    DerivativeConcat(before + [x], before + [y], xs, ys);
  }

  lemma SplitAt(rws: seq<RemoteWrite<string>>, k: nat)
    requires k < |rws|
    ensures rws == rws[..k] + [rws[k]] + rws[k + 1..]
  {
  }

  lemma BuiltDerivativeIff(rws: seq<RemoteWrite<string>>, endpoint: string)
    requires MainIndex(rws) < |rws|
    ensures var k := MainIndex(rws);
      DerivativeList(BuiltRemoteWrite(rws, endpoint), rws) <==>
      DerivativeRemoteWrite(MainRemoteWrite(endpoint, Some(rws[k])), rws[k]) && DerivativeList(Others(rws[k + 1..]), rws[k + 1..])
  {
    hide DerivativeRemoteWrite, MainRemoteWrite, DerivativeList, Others, MainIndex;
    var k := MainIndex(rws);
    DerivativeAround(rws[..k], MainRemoteWrite(endpoint, Some(rws[k])), rws[k], Others(rws[k + 1..]), rws[k + 1..]);
    SplitAt(rws, k);
  }

  /** The addon's remote write has duplicates. */
  predicate HasDuplicate(rws: seq<RemoteWrite<string>>) {
    exists i, j :: 0 <= i < j < |rws| && IsMain(rws[i]) && IsMain(rws[j])
  }

  lemma BuiltNoDuplicate(rws: seq<RemoteWrite<string>>, endpoint: string)
    ensures !HasDuplicate(BuiltRemoteWrite(rws, endpoint))
  {
    hide BuiltRemoteWrite, MainRemoteWrite;
    BuiltHasSingle(rws, endpoint);
  }

  /** Duplicates of the addon's remote write stay on the stored agent exactly if nothing else needs
      enforcing and every remote write of the user passes for the one in whose place it would move.
      If the user's have names, that is: none of them follows a duplicate. */
  lemma DuplicatesStayIff(existing: Spec, s: Settings)
    requires HasDuplicate(existing.remoteWrite)
    ensures var behind := existing.remoteWrite[MainIndex(existing.remoteWrite) + 1..];
      && (HasDuplicate(Enforced(existing, s).remoteWrite) <==>
          EnforcedButDuplicates(existing, s) && DerivativeList(Others(behind), behind))
      && (UsersNamed(behind) ==> (DerivativeList(Others(behind), behind) <==> !MainFollowed(behind)))
  {
    hide DerivativeRemoteWrite, DerivativeClass, BuiltSecrets, BuiltRemoteWrite, Removing, HasDuplicate, MainFollowed, MainRemoteWrite, UsersNamed;
    var rws := existing.remoteWrite;
    var k := MainIndex(rws);
    DuplicateIndex(rws);
    BuiltNoDuplicate(rws, s.endpoint);
    BuiltDerivativeIff(rws, s.endpoint);
    if UsersNamed(rws[k + 1..]) { OthersDerivativeIff(rws[k + 1..]); }
    assert Derivative(Built(existing, s), existing) <==>
           Derivative(Built(existing, s).(remoteWrite := []), existing) && DerivativeList(BuiltRemoteWrite(rws, s.endpoint), rws);
  }

  lemma DuplicateIndex(rws: seq<RemoteWrite<string>>)
    requires HasDuplicate(rws)
    ensures MainIndex(rws) < |rws|
  {
    var i, j :| 0 <= i < j < |rws| && IsMain(rws[i]) && IsMain(rws[j]);
  }

  lemma BuiltIgnoresDuplicate(rws: seq<RemoteWrite<string>>, endpoint: string, copy: RemoteWrite<string>)
    requires MainIndex(rws) < |rws| && IsMain(copy)
    ensures BuiltRemoteWrite(rws + [copy], endpoint) == BuiltRemoteWrite(rws, endpoint)
  {
    hide MainRemoteWrite, Others, MainIndex;
    var k := MainIndex(rws);
    MainIndexSnoc(rws, copy);
    SnocParts(rws, k, copy);
    OthersConcat(rws[k + 1..], [copy]);
    OthersOne(copy);
    assert Others(rws[k + 1..]) + [] == Others(rws[k + 1..]);
  }

  lemma SnocParts(rws: seq<RemoteWrite<string>>, k: nat, copy: RemoteWrite<string>)
    requires k < |rws|
    ensures (rws + [copy])[..k] == rws[..k] && (rws + [copy])[k] == rws[k] && (rws + [copy])[k + 1..] == rws[k + 1..] + [copy]
  {
  }

  /** An instance: a second remote write with the addon's name, appended to an enforced agent, stays. */
  lemma AppendedDuplicateStays(existing: Spec, s: Settings, copy: RemoteWrite<string>)
    requires Overwritten(existing, Built(existing, s)) == existing && IsMain(copy)
    ensures var edited := existing.(remoteWrite := existing.remoteWrite + [copy]); Enforced(edited, s) == edited
  {
    hide DerivativeRemoteWrite, DerivativeClass, MainRemoteWrite, Removing, BuiltSecrets, BuiltRemoteWrite, BuiltClasses, MainIndex;
    var rws := existing.remoteWrite;
    var edited := existing.(remoteWrite := rws + [copy]);
    assert BuiltRemoteWrite(rws, s.endpoint) == rws;
    BuiltHasSingle(rws, s.endpoint);
    BuiltIgnoresDuplicate(rws, s.endpoint, copy);
    assert Built(edited, s) == existing.(free := "");
    DerivativeReflexive(existing);
    SameListIsDerivative(rws);
    forall i | 0 <= i < |rws| ensures DerivativeRemoteWrite(rws[i], (rws + [copy])[i]) {
      assert DerivativeRemoteWrite(rws[i], rws[i]);
    }
  }
}
