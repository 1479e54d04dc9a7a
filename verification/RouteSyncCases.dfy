/** A first sync with no later fragment: which fragments, and which patches, are safe whatever the other is. */
module RouteSyncCases {
  import opened Json
  import opened KeyLists
  import opened ConfigMerge
  import opened MergeLaws
  import opened ParsedConfigs
  import opened PatchTwice
  import opened PatchTwiceExact
  import opened RouteSync
  import opened RouteSyncLast
  import opened TwoPaths

  /** On a first sync, when there is no route-sync fragment yet, the targets agree. */
  ghost predicate Agree(before: seq<Json>, after: seq<Json>, patch: Json)
    requires patch.Obj?
  {
    FragmentTarget(before, EMPTY, after, patch) == MergedTarget(before, EMPTY, after, patch)
  }

  ghost predicate PatchOk(patch: Json) {
    patch.Obj? && Parsed(patch) && Keyed(patch)
  }

  // ----- with no later fragment -----

  lemma FirstSync(before: seq<Json>, patch: Json)
    requires AllParsed(before) && PatchOk(patch)
    ensures Inputs(before, EMPTY, patch)
    ensures var s := LastParts(before, EMPTY, patch);
            s.x == Fold(before) && s.y == s.x && s.p == Normalize(patch) && s.c == Merge(EMPTY, s.p)
    ensures var s := LastParts(before, EMPTY, patch);
            Agree(before, [], patch) <==> !HasProviders(Merge(s.x, s.p)) || LastEntriesMeet(s)
  {
    MergeNothing(Fold(before));
    LastFragmentExactly(before, EMPTY, patch);
  }

  /** The blockrun entry of a patch put into an empty fragment. */
  lemma FirstEntry(x: Json, p: Json)
    requires x.Obj? && p.Obj? && HasProviders(Merge(x, p))
    ensures Entry(Merge(EMPTY, p)) == JoinedEntry(None, Entry(p))
  {
    PatchKeepsProviders(x, p);
    AtMerge(EMPTY, p, "models");
    if IsObj(At(p, "models")) {
      AtMerge(EMPTY, p.fields["models"], "providers");
      if HasProviders(p) { AtMerge(EMPTY, Providers(p), "blockrun"); }
    }
  }

  /** A repaired entry is what putting it into nothing and repairing it again gives back. */
  lemma RepairedOnce(q: Option<Json>)
    ensures var fixed := RepairedEntry(JoinedEntry(None, q));
            RepairedEntry(fixed) == fixed && JoinedEntry(None, fixed) == fixed
  {
    var w := JoinedEntry(None, q);
    if IsObj(w) {
      MergeNothing(EMPTY);
      CleanMerge(EMPTY, q.value);
      if !NonEmptyList(At(w.value, "models")) && NonBlank(At(w.value, "baseUrl")) {
        CompleteAt(w.value, "models");
        CleanCompleteBlockrun(w.value);
        RebuildClean(CompleteBlockrun(w.value));
      } else {
        RebuildClean(w.value);
      }
    }
  }

  /** With no blockrun entry composed so far, every patch is safe. */
  lemma SafeFragments(before: seq<Json>, patch: Json)
    requires AllParsed(before) && PatchOk(patch) && Entry(Fold(before)).None?
    ensures Agree(before, [], patch)
  {
    FirstSync(before, patch);
    var s := LastParts(before, EMPTY, patch);
    if HasProviders(Merge(s.x, s.p)) {
      FirstEntry(s.x, s.p);
      RepairedOnce(Entry(s.p));
    }
  }

  /** A patch without a blockrun entry is safe for all fragments. */
  lemma SafePatch(before: seq<Json>, patch: Json)
    requires AllParsed(before) && PatchOk(patch) && Entry(Normalize(patch)).None?
    ensures Agree(before, [], patch)
  {
    FirstSync(before, patch);
    var s := LastParts(before, EMPTY, patch);
    if HasProviders(Merge(s.x, s.p)) {
      FirstEntry(s.x, s.p);
      RepairedOnce(None);
      RepairedTwice(Entry(s.x));
    }
  }

  lemma RepairedTwice(e: Option<Json>)
    ensures RepairedEntry(RepairedEntry(e)) == RepairedEntry(e)
  {
    if IsObj(e) { CompleteAt(e.value, "models"); }
  }

  // ----- patches that tell the targets apart -----

  lemma OneKeyed(k: string, v: Json)
    requires Keyed(v) && !v.Arr?
    ensures Keyed(One(k, v))
  {
  }

  /** A patch of providers is a patch, hoists nothing, and has its entry. */
  lemma ProvidersPatchOk(providers: Json)
    requires providers.Obj? && Parsed(providers) && Keyed(providers)
    ensures PatchOk(ProvidersPatch(providers)) && Normalize(ProvidersPatch(providers)) == ProvidersPatch(providers)
    ensures HasProviders(ProvidersPatch(providers)) && Providers(ProvidersPatch(providers)) == providers
  {
    OneParsed("providers", providers);
    OneKeyed("providers", providers);
    OneParsed("models", One("providers", providers));
    OneKeyed("models", One("providers", providers));
  }

  /** What the targets need of a patch with a blockrun entry. */
  lemma EntryMeets(before: seq<Json>, patch: Json)
    requires AllParsed(before) && PatchOk(patch) && Entry(Normalize(patch)).Some?
    ensures var e, q := Entry(Fold(before)), Entry(Normalize(patch));
            var merged := RepairedEntry(JoinedEntry(RepairedEntry(e), q));
            Agree(before, [], patch) <==>
              merged == RepairedEntry(JoinedEntry(e, RepairedEntry(JoinedEntry(None, q)))) &&
              (merged.Some? && e.Some? && RepairedEntry(e).None? ==>
                KeepsPlace(ProvidersOf(Fold(before)).keys, ProvidersOf(Normalize(patch)).keys))
  {
    FirstSync(before, patch);
    var x, p := Fold(before), Normalize(patch);
    AtMerge(x, p, "models");
    AtMerge(ObjOrEmpty(At(x, "models")), p.fields["models"], "providers");
    FirstEntry(x, p);
  }

  /** When the entries do not meet, the targets differ. */
  lemma Differ(before: seq<Json>, providers: Json)
    requires AllParsed(before) && providers.Obj? && Parsed(providers) && Keyed(providers) && "blockrun" in providers.fields
    requires var e := Entry(Fold(before));
             var q := At(providers, "blockrun");
             var merged := RepairedEntry(JoinedEntry(RepairedEntry(e), q));
             merged != RepairedEntry(JoinedEntry(e, RepairedEntry(JoinedEntry(None, q)))) ||
             (merged.Some? && e.Some? && RepairedEntry(e).None? && !KeepsPlace(ProvidersOf(Fold(before)).keys, providers.keys))
    ensures PatchOk(ProvidersPatch(providers)) && !Agree(before, [], ProvidersPatch(providers))
  {
    ProvidersPatchOk(providers);
    EntryMeets(before, ProvidersPatch(providers));
  }

  /** An entry that is no object is kept in its fragment, but repaired away once an empty one is merged over it. */
  lemma LeafEntryDiffers(before: seq<Json>)
    requires AllParsed(before) && Entry(Fold(before)).Some? && !IsObj(Entry(Fold(before)))
    ensures var patch := ProvidersPatch(One("blockrun", EMPTY)); PatchOk(patch) && !Agree(before, [], patch)
  {
    OneParsed("blockrun", EMPTY);
    OneKeyed("blockrun", EMPTY);
    MergeNothing(EMPTY);
    Differ(before, One("blockrun", EMPTY));
  }

  /** A key that only the patch has is lost with the fragment's entry, which has no base URL. */
  lemma NewKeyDiffers(before: seq<Json>, z: string)
    requires AllParsed(before) && IsObj(Entry(Fold(before))) && RepairedEntry(Entry(Fold(before))).Some?
    requires z !in Entry(Fold(before)).value.fields && |z| >= 9
    ensures var patch := ProvidersPatch(One("blockrun", One(z, Null))); PatchOk(patch) && !Agree(before, [], patch)
  {
    var e := Entry(Fold(before)).value;
    var q := One(z, Null);
    OneParsed(z, Null);
    OneKeyed(z, Null);
    OneParsed("blockrun", q);
    OneKeyed("blockrun", q);
    DroppedEntry(q);
    if NonEmptyList(At(e, "models")) {
      StillValid(e, z);
    } else {
      CompleteAt(e, z);
      CompleteAt(e, "models");
      StillValid(CompleteBlockrun(e), z);
    }
    Differ(before, One("blockrun", q));
  }

  /** An entry with neither models nor a base URL does not survive in the fragment. */
  lemma DroppedEntry(q: Json)
    requires q.Obj? && q.keys == [] + q.keys && "models" !in q.fields && "baseUrl" !in q.fields
    ensures RepairedEntry(JoinedEntry(None, Some(q))).None?
  {
    AtMerge(EMPTY, q, "models");
    AtMerge(EMPTY, q, "baseUrl");
  }

  lemma StillValid(e: Json, z: string)
    requires e.Obj? && NonEmptyList(At(e, "models")) && z != "models" && At(e, z) != Some(Null)
    ensures var m := Merge(e, One(z, Null)); RepairedEntry(Some(m)) == Some(m) && m != e
  {
    AtMerge(e, One(z, Null), "models");
    AtMerge(e, One(z, Null), z);
  }

  /** Without a base URL the composed entry is dropped, and a patch that brings it back moves it behind the others. */
  lemma MovedEntryDiffers(before: seq<Json>, z: string)
    requires AllParsed(before) && Entry(Fold(before)).Some? && RepairedEntry(Entry(Fold(before))).None?
    requires z !in ProvidersOf(Fold(before)).keys && z != "blockrun"
    ensures var patch := ProvidersPatch(Obj([z, "blockrun"], map[z := Null, "blockrun" := Null]));
            PatchOk(patch) && !Agree(before, [], patch)
  {
    var keys := ProvidersOf(Fold(before)).keys;
    var providers := Obj([z, "blockrun"], map[z := Null, "blockrun" := Null]);
    ParsedFold(before);
    ListedProviders(Fold(before));
    assert Parsed(providers) && Keyed(providers);
    WithoutMembers(keys, "blockrun");
    FreshPair(keys, z, "blockrun");
    FreshPair(Without(keys, "blockrun"), z, "blockrun");
    assert !KeepsPlace(keys, providers.keys) by {
      var l, r := AppendNew(Without(keys, "blockrun"), providers.keys), AppendNew(keys, providers.keys);
      assert l[|l| - 1] == "blockrun" && r[|r| - 1] == z;
    }
    Differ(before, providers);
  }

  /** A patch that tells the targets apart, for fragments with a blockrun entry. */
  lemma UnsafeFragments(before: seq<Json>) returns (patch: Json)
    requires AllParsed(before) && Entry(Fold(before)).Some?
    ensures PatchOk(patch) && !Agree(before, [], patch)
  {
    var e := Entry(Fold(before));
    if !IsObj(e) {
      patch := ProvidersPatch(One("blockrun", EMPTY));
      LeafEntryDiffers(before);
    } else if RepairedEntry(e).Some? {
      ParsedEntry(before);
      var z := LongerKey(e.value.keys);
      patch := ProvidersPatch(One("blockrun", One(z, Null)));
      NewKeyDiffers(before, z);
    } else {
      var z := LongerKey(ProvidersOf(Fold(before)).keys);
      patch := ProvidersPatch(Obj([z, "blockrun"], map[z := Null, "blockrun" := Null]));
      MovedEntryDiffers(before, z);
    }
  }

  lemma ParsedEntry(before: seq<Json>)
    requires AllParsed(before) && IsObj(Entry(Fold(before)))
    ensures Listed(Entry(Fold(before)).value)
  {
    ParsedFold(before);
    var x := Fold(before);
    ParsedChild(x, "models");
    ParsedChild(x.fields["models"], "providers");
    ParsedChild(Providers(x), "blockrun");
  }

  /** A config of providers is what composing it alone gives. */
  lemma FoldOne(providers: Json)
    requires providers.Obj? && Clean(providers)
    ensures Fold([ProvidersPatch(providers)]) == ProvidersPatch(providers)
  {
    var f := ProvidersPatch(providers);
    CleanOne("providers", providers);
    CleanOne("models", One("providers", providers));
    RebuildClean(f);
    assert [f][..0] == [];
  }

  lemma CleanOne(k: string, v: Json)
    requires CleanAt(k, v)
    ensures Clean(One(k, v))
  {
  }

  /** A single fragment of providers. */
  lemma OnlyFragment(providers: Json)
    requires providers.Obj? && Parsed(providers) && Keyed(providers) && Clean(providers)
    ensures AllParsed([ProvidersPatch(providers)])
    ensures ProvidersOf(Fold([ProvidersPatch(providers)])) == providers
  {
    ProvidersPatchOk(providers);
    FoldOne(providers);
  }

  /** A fragment that tells the targets apart, for a patch with a blockrun entry. */
  lemma UnsafePatch(patch: Json) returns (fragment: Json)
    requires PatchOk(patch) && Entry(Normalize(patch)).Some?
    ensures AllParsed([fragment]) && !Agree([fragment], [], patch)
  {
    if RepairedEntry(JoinedEntry(None, Entry(Normalize(patch)))).None? {
      fragment := ProvidersPatch(One("blockrun", Null));
      OneParsed("blockrun", Null);
      OneKeyed("blockrun", Null);
      CleanOne("blockrun", Null);
      OnlyFragment(One("blockrun", Null));
      LeafBefore([fragment], patch);
    } else {
      fragment := EmptyEntryFirst("w");
      MovesBack("w", ProvidersOf(Normalize(patch)).keys);
      EmptyBefore([fragment], patch);
    }
  }

  lemma EmptyEntryFirst(w: string) returns (fragment: Json)
    requires w != "blockrun"
    ensures AllParsed([fragment]) && ProvidersOf(Fold([fragment])) == Obj(["blockrun", w], map["blockrun" := EMPTY, w := Null])
  {
    var providers := Obj(["blockrun", w], map["blockrun" := EMPTY, w := Null]);
    assert Parsed(providers) && Keyed(providers) && Clean(providers);
    fragment := ProvidersPatch(providers);
    OnlyFragment(providers);
  }

  /** An entry the fragment drops leaves what is there alone, and merged into the config it does not. */
  lemma LeafBefore(before: seq<Json>, patch: Json)
    requires AllParsed(before) && PatchOk(patch) && Entry(Fold(before)) == Some(Null)
    requires Entry(Normalize(patch)).Some? && RepairedEntry(JoinedEntry(None, Entry(Normalize(patch)))).None?
    ensures !Agree(before, [], patch)
  {
    EntryMeets(before, patch);
  }

  /** Without models and a base URL the composed entry is dropped, and comes back behind the others. */
  lemma EmptyBefore(before: seq<Json>, patch: Json)
    requires AllParsed(before) && PatchOk(patch) && Entry(Fold(before)) == Some(EMPTY)
    requires Entry(Normalize(patch)).Some? && RepairedEntry(JoinedEntry(None, Entry(Normalize(patch)))).Some?
    requires !KeepsPlace(ProvidersOf(Fold(before)).keys, ProvidersOf(Normalize(patch)).keys)
    ensures !Agree(before, [], patch)
  {
    EntryMeets(before, patch);
  }

  lemma MovesBack(w: string, more: seq<string>)
    requires w != "blockrun"
    ensures !KeepsPlace(["blockrun", w], more)
  {
    assert ["blockrun", w][1..] == [w] && [w][1..] == [];
    assert Without([w], "blockrun") == [w];
    assert AppendNew([w], more)[0] != AppendNew(["blockrun", w], more)[0];
  }

  /** With no later fragment the targets agree whatever is composed so far exactly when the patch has no blockrun entry. */
  lemma SafeAsLastExactly(patch: Json)
    requires PatchOk(patch)
    ensures (forall before: seq<Json> | AllParsed(before) :: Agree(before, [], patch)) <==> Entry(Normalize(patch)).None?
  {
    if Entry(Normalize(patch)).None? {
      forall before: seq<Json> | AllParsed(before) ensures Agree(before, [], patch) {
        SafePatch(before, patch);
      }
    } else {
      var fragment := UnsafePatch(patch);
      assert AllParsed([fragment]) && !Agree([fragment], [], patch);
    }
  }
}
