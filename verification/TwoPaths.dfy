/**
 A law of the two merge functions: patching a composed config, or composing the
 patch as one more fragment. They give the same config for every patch exactly when
 composing the fragments leaves nothing for the blockrun repair to do. Route sync
 itself merges the patch into its own fragment first; that is module RouteSync.
 */
module TwoPaths {
  import opened Json
  import opened KeyLists
  import opened ConfigMerge
  import opened MergeLaws
  import opened ParsedConfigs

  ghost predicate PathsAgree(fragments: seq<Json>, patch: Json)
    requires patch.Obj?
  {
    MergePatch(MergeOrdered(fragments), patch) == MergeOrdered(fragments + [patch])
  }

  lemma AgreeWhenValid(fragments: seq<Json>, patch: Json)
    requires patch.Obj?
    requires !InvalidBlockrun(Fold(fragments))
    ensures PathsAgree(fragments, patch)
  {
    FoldIsFlat(fragments);
    NormalizedIsFlat(Fold(fragments));
    assert (fragments + [patch])[..|fragments|] == fragments;
  }

  function One(k: string, v: Json): Json {
    Obj([k], map[k := v])
  }

  lemma OneParsed(k: string, v: Json)
    requires Parsed(v)
    ensures Parsed(One(k, v))
  {
  }

  function ProvidersPatch(providers: Json): Json {
    One("models", One("providers", providers))
  }

  predicate HasProviders(j: Json) {
    IsObj(At(j, "models")) && IsObj(At(j.fields["models"], "providers"))
  }

  function Providers(j: Json): Json
    requires HasProviders(j)
  {
    j.fields["models"].fields["providers"]
  }

  /** Both paths as one merge and one repair; only what is merged into differs. */
  lemma PathsUnfold(fragments: seq<Json>, patch: Json)
    requires patch.Obj? && !Hoistable(patch)
    ensures MergePatch(MergeOrdered(fragments), patch) == RepairBlockrun(Merge(RepairBlockrun(Fold(fragments)), patch))
    ensures MergeOrdered(fragments + [patch]) == RepairBlockrun(Merge(Fold(fragments), patch))
  {
    var x := Fold(fragments);
    FoldIsFlat(fragments);
    NormalizedIsFlat(x);
    RepairKeepsFlat(x);
    NormalizedIsFlat(RepairBlockrun(x));
    NormalizedIsFlat(patch);
    MergeStaysFlat(x, patch);
    MergeStaysFlat(RepairBlockrun(x), patch);
    NormalizedIsFlat(Merge(x, patch));
    NormalizedIsFlat(Merge(RepairBlockrun(x), patch));
    assert (fragments + [patch])[..|fragments|] == fragments;
  }

  lemma MergeOne(j: Json, k: string, v: Json)
    requires IsObj(At(j, k)) && v.Obj?
    ensures At(Merge(j, One(k, v)), k) == Some(Merge(j.fields[k], v))
  {
    AtMerge(j, One(k, v), k);
  }

  lemma MergeProviders(j: Json, providers: Json)
    requires HasProviders(j) && providers.Obj?
    ensures HasProviders(Merge(j, ProvidersPatch(providers)))
    ensures Providers(Merge(j, ProvidersPatch(providers))) == Merge(Providers(j), providers)
  {
    MergeOne(j, "models", One("providers", providers));
    MergeOne(j.fields["models"], "providers", providers);
  }

  lemma RepairProviders(x: Json)
    requires InvalidBlockrun(x)
    ensures HasProviders(RepairBlockrun(x))
    ensures var b := Providers(x).fields["blockrun"];
            Providers(RepairBlockrun(x)) ==
            if NonBlank(At(b, "baseUrl")) then Assign(Providers(x), "blockrun", CompleteBlockrun(b))
            else Delete(Providers(x), "blockrun")
  {
  }

  /** Blanking `api` when the overlay is valid is kept as it is. */
  lemma BlankApiKept(x: Json)
    requires HasBlockrun(x) && !InvalidBlockrun(x)
    ensures var r := RepairBlockrun(Merge(x, ProvidersPatch(One("blockrun", One("api", Null)))));
            HasBlockrun(r) && At(Providers(r).fields["blockrun"], "api") == Some(Null)
  {
    var b, q := Providers(x).fields["blockrun"], One("api", Null);
    MergeProviders(x, One("blockrun", q));
    MergeOne(Providers(x), "blockrun", q);
    AtMerge(b, q, "models");
    AtMerge(b, q, "api");
  }

  /** Merging a blank `api` into an entry changes nothing else. */
  lemma BlankEntry(b: Json)
    requires b.Obj?
    ensures forall k | k != "api" :: At(Merge(b, One("api", Null)), k) == At(b, k)
    ensures At(Merge(b, One("api", Null)), "api") == Some(Null)
  {
    forall k ensures At(Merge(b, One("api", Null)), k) == if k == "api" then Some(Null) else At(b, k) {
      AtMerge(b, One("api", Null), k);
    }
  }

  lemma CompletedApi(b: Json)
    requires b.Obj? && !NonBlank(At(b, "api"))
    ensures At(CompleteBlockrun(b), "api") == Some(Str("openai-completions"))
  {
  }

  /** Blanking `api` when the overlay is invalid and has a base URL is repaired. */
  lemma BlankApiRepaired(x: Json)
    requires InvalidBlockrun(x) && NonBlank(At(Providers(x).fields["blockrun"], "baseUrl"))
    ensures var r := RepairBlockrun(Merge(x, ProvidersPatch(One("blockrun", One("api", Null)))));
            HasBlockrun(r) && At(Providers(r).fields["blockrun"], "api") == Some(Str("openai-completions"))
  {
    var b, q := Providers(x).fields["blockrun"], One("api", Null);
    MergeProviders(x, One("blockrun", q));
    MergeOne(Providers(x), "blockrun", q);
    BlankEntry(b);
    CompletedApi(Merge(b, q));
    RepairProviders(Merge(x, ProvidersPatch(One("blockrun", q))));
  }

  /** With a base URL the repair fills in `api`, and a patch that blanks it is then kept or repaired. */
  lemma DifferWithBaseUrl(x: Json)
    requires InvalidBlockrun(x) && NonBlank(At(Providers(x).fields["blockrun"], "baseUrl"))
    ensures var patch := ProvidersPatch(One("blockrun", One("api", Null)));
            RepairBlockrun(Merge(RepairBlockrun(x), patch)) != RepairBlockrun(Merge(x, patch))
  {
    RepairProviders(x);
    RepairedIsValid(x);
    BlankApiKept(RepairBlockrun(x));
    BlankApiRepaired(x);
  }

  lemma {:induction false} LongerKey(keys: seq<string>) returns (k: string)
    ensures forall x | x in keys :: |x| < |k|
    ensures k != "blockrun" && |k| >= 9
  {
    k := "zzzzzzzzz";
    for i := 0 to |keys|
      invariant forall x | x in keys[..i] :: |x| < |k|
      invariant |k| >= 9
    {
      k := k + keys[i] + "z";
    }
  }

  lemma FreshPair(keys: seq<string>, a: string, b: string)
    requires a !in keys
    ensures Fresh(keys, [a, b]) == if b in keys then [a] else [a, b]
  {
    assert [a, b][1..] == [b] && [b][1..] == [];
    assert Fresh(keys, [b]) == if b in keys then [] else [b];
  }

  /** Without a base URL the repair drops `blockrun`, which then comes back after the other keys. */
  lemma DifferWithoutBaseUrl(x: Json, z: string)
    requires InvalidBlockrun(x) && !NonBlank(At(Providers(x).fields["blockrun"], "baseUrl"))
    requires "blockrun" in Providers(x).keys && z !in Providers(x).keys && z != "blockrun"
    ensures var patch := ProvidersPatch(Obj([z, "blockrun"], map[z := Null, "blockrun" := Null]));
            RepairBlockrun(Merge(RepairBlockrun(x), patch)) != RepairBlockrun(Merge(x, patch))
  {
    var p := Obj([z, "blockrun"], map[z := Null, "blockrun" := Null]);
    var keys := Providers(x).keys;
    RepairProviders(x);
    MergeProviders(x, p);
    MergeProviders(RepairBlockrun(x), p);
    AtMerge(Providers(x), p, "blockrun");
    AtMerge(Providers(RepairBlockrun(x)), p, "blockrun");
    WithoutMembers(keys, "blockrun");
    FreshPair(keys, z, "blockrun");
    FreshPair(Without(keys, "blockrun"), z, "blockrun");
    var merged := Providers(Merge(x, ProvidersPatch(p)));
    var patched := Providers(Merge(RepairBlockrun(x), ProvidersPatch(p)));
    assert merged.keys == keys + [z];
    assert patched.keys == Without(keys, "blockrun") + [z, "blockrun"];
    assert merged.keys[|merged.keys| - 1] != patched.keys[|patched.keys| - 1];
  }

  /** Exactly when the two paths agree whatever the patch is. */
  lemma TwoPathsAgreeExactly(fragments: seq<Json>)
    requires AllParsed(fragments)
    ensures (forall patch: Json | patch.Obj? :: PathsAgree(fragments, patch)) <==> !InvalidBlockrun(Fold(fragments))
  {
    var x := Fold(fragments);
    if InvalidBlockrun(x) {
      var patch: Json;
      if NonBlank(At(Providers(x).fields["blockrun"], "baseUrl")) {
        patch := ProvidersPatch(One("blockrun", One("api", Null)));
        DifferWithBaseUrl(x);
      } else {
        ParsedFold(fragments);
        ParsedChild(x, "models");
        ParsedChild(x.fields["models"], "providers");
        var z := LongerKey(Providers(x).keys);
        patch := ProvidersPatch(Obj([z, "blockrun"], map[z := Null, "blockrun" := Null]));
        DifferWithoutBaseUrl(x, z);
      }
      PathsUnfold(fragments, patch);
      assert !PathsAgree(fragments, patch);
    } else {
      forall patch: Json | patch.Obj? ensures PathsAgree(fragments, patch) {
        AgreeWhenValid(fragments, patch);
      }
    }
  }
}
