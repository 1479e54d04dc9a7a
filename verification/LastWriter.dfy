/** Later fragments override earlier ones, key path by key path. */
module LastWriter {
  import opened Json
  import opened ConfigMerge
  import opened MergeLaws

  /** What sits at a key path: nothing, a value that is not an object, or an object. */
  datatype Shape = Nothing | Leaf(value: Json) | Branch

  function ShapeAt(j: Json, path: seq<string>): Shape {
    if path == [] then (if j.Obj? then Branch else Leaf(j))
    else if j.Obj? && path[0] in j.fields then ShapeAt(j.fields[path[0]], path[1..])
    else Nothing
  }

  /**
   What a config decides about a path, if anything: it has a leaf or an object
   right there, or a leaf higher up, which removes whatever was below it.
   */
  function WriteOf(j: Json, path: seq<string>): Option<Shape> {
    if path == [] then Some(if j.Obj? then Branch else Leaf(j))
    else if !j.Obj? then Some(Nothing)
    else if path[0] in j.fields then WriteOf(j.fields[path[0]], path[1..])
    else None
  }

  /** What a config decides together with one merged over it. */
  function WriteBoth(own: Json, over: Json, path: seq<string>): Option<Shape>
    requires own.Obj? && over.Obj? && path != []
  {
    var k := path[0];
    if k !in over.fields then WriteOf(own, path)
    else if |path| == 1 || !over.fields[k].Obj? || !IsObj(At(own, k)) then WriteOf(over, path)
    else WriteBoth(own.fields[k], over.fields[k], path[1..])
  }

  const PROVIDERS_PATH := ["models", "providers"]
  const NESTED_PATH := ["models", "models"]

  /** The providers a fragment lists one level too deep. */
  function NestedProviders(j: Json): (nested: Option<Json>)
    ensures nested.Some? ==> nested.value.Obj? && IsObj(At(j, "models"))
  {
    if IsObj(At(j, "models")) && IsObj(At(j.fields["models"], "models")) &&
       IsObj(At(j.fields["models"].fields["models"], "providers"))
    then Some(j.fields["models"].fields["models"].fields["providers"]) else None
  }

  /**
   What a fragment decides: nothing when it is no object. Providers listed too deep count as
   merged over those in their place, and nothing else in the nested `models` counts.
   */
  function FragmentWrite(fragment: Json, path: seq<string>): Option<Shape> {
    var nested := NestedProviders(fragment);
    if !fragment.Obj? then None
    else if nested.None? then WriteOf(fragment, path)
    else if NESTED_PATH <= path then None
    else if path == PROVIDERS_PATH then Some(Branch)
    else if PROVIDERS_PATH <= path then WriteBoth(ObjOrEmpty(At(fragment.fields["models"], "providers")), nested.value, path[2..])
    else WriteOf(fragment, path)
  }

  /** Paths whose last key cannot name a plugins list. */
  predicate OutsidePlugins(path: seq<string>) {
    path != [] && path[|path| - 1] != "plugins"
  }

  lemma {:induction false} MergeWrites(t: Json, s: Json, path: seq<string>)
    requires t.Obj? && s.Obj? && OutsidePlugins(path)
    ensures ShapeAt(Merge(t, s), path) == if WriteOf(s, path).Some? then WriteOf(s, path).value else ShapeAt(t, path)
    decreases path
  {
    var k := path[0];
    AtMerge(t, s, k);
    if k in s.fields && |path| > 1 && s.fields[k].Obj? {
      MergeWrites(ObjOrEmpty(At(t, k)), s.fields[k], path[1..]);
    }
  }

  // ----- hoisting -----

  lemma WriteAt(j: Json, path: seq<string>)
    requires j.Obj? && path != []
    ensures WriteOf(j, path) == if At(j, path[0]).Some? then WriteOf(j.fields[path[0]], path[1..]) else None
  {
  }

  lemma {:induction false} MergedWriteBoth(own: Json, over: Json, path: seq<string>)
    requires own.Obj? && over.Obj? && OutsidePlugins(path)
    ensures WriteOf(Merge(own, over), path) == WriteBoth(own, over, path)
    decreases path
  {
    var k := path[0];
    AtMerge(own, over, k);
    WriteAt(Merge(own, over), path);
    WriteAt(own, path);
    WriteAt(over, path);
    if k in over.fields && |path| > 1 && over.fields[k].Obj? {
      if IsObj(At(own, k)) {
        MergedWriteBoth(own.fields[k], over.fields[k], path[1..]);
      } else {
        MergedAlone(over.fields[k], path[1..]);
      }
    }
  }

  lemma {:induction false} MergedAlone(over: Json, path: seq<string>)
    requires over.Obj? && OutsidePlugins(path)
    ensures WriteOf(Merge(EMPTY, over), path) == WriteOf(over, path)
    decreases path
  {
    var k := path[0];
    AtMerge(EMPTY, over, k);
    if k in over.fields && |path| > 1 && over.fields[k].Obj? {
      MergedAlone(over.fields[k], path[1..]);
    }
  }

  lemma AloneWrites(over: Json, path: seq<string>)
    requires over.Obj? && path != []
    ensures WriteBoth(EMPTY, over, path) == WriteOf(over, path)
  {
  }

  /** The hoisted `models`, key by key. */
  lemma HoistedModels(j: Json)
    requires NestedProviders(j).Some?
    ensures var own, nested := At(j.fields["models"], "providers"), NestedProviders(j).value;
            IsObj(At(Normalize(j), "models")) &&
            (forall k | k != "models" :: At(Normalize(j), k) == At(j, k)) &&
            var models := Normalize(j).fields["models"];
            At(models, "models") == None &&
            At(models, "providers") == Some(if IsObj(own) then Merge(own.value, nested) else nested) &&
            forall k | k != "models" && k != "providers" :: At(models, k) == At(j.fields["models"], k)
  {
  }

  /** The value two keys down, as writes see it. */
  function SecondOf(j: Json, path: seq<string>): Option<Json>
    requires |path| >= 2
  {
    if At(j, path[0]).Some? then At(j.fields[path[0]], path[1]) else None
  }

  /** A write two levels down, where the first is an object. */
  lemma WriteDeeper(j: Json, path: seq<string>)
    requires |path| >= 2 && IsObj(At(j, path[0]))
    ensures WriteOf(j, path) == if SecondOf(j, path).Some? then WriteOf(SecondOf(j, path).value, path[2..]) else None
  {
    assert path[1..][1..] == path[2..];
    WriteAt(j, path);
    WriteAt(j.fields[path[0]], path[1..]);
  }

  lemma PathStarts(path: seq<string>)
    ensures PROVIDERS_PATH <= path <==> |path| >= 2 && path[0] == "models" && path[1] == "providers"
    ensures NESTED_PATH <= path <==> |path| >= 2 && path[0] == "models" && path[1] == "models"
  {
  }

  lemma HoistedProviderWrites(own: Option<Json>, nested: Json, path: seq<string>)
    requires nested.Obj? && OutsidePlugins(path)
    ensures WriteOf(if IsObj(own) then Merge(own.value, nested) else nested, path) == WriteBoth(ObjOrEmpty(own), nested, path)
  {
    if IsObj(own) { MergedWriteBoth(own.value, nested, path); } else { AloneWrites(nested, path); }
  }

  /** Hoisting gives a fragment exactly the writes read off it above. */
  lemma HoistedWrites(fragment: Json, path: seq<string>)
    requires fragment.Obj? && OutsidePlugins(path)
    ensures WriteOf(Normalize(fragment), path) == FragmentWrite(fragment, path)
  {
    if NestedProviders(fragment).None? {
      assert Normalize(fragment) == fragment;
    } else {
      HoistedModels(fragment);
      PathStarts(path);
      WriteAt(fragment, path);
      WriteAt(Normalize(fragment), path);
      if |path| >= 2 && path[0] == "models" {
        WriteDeeper(fragment, path);
        WriteDeeper(Normalize(fragment), path);
        if path[1] == "providers" && |path| > 2 {
          HoistedProviderWrites(At(fragment.fields["models"], "providers"), NestedProviders(fragment).value, path[2..]);
        } else if path[1] == "providers" {
          assert path == PROVIDERS_PATH && path[2..] == [];
        }
      }
    }
  }

  lemma ShapeDeeper(j: Json, path: seq<string>)
    requires |path| >= 2 && j.Obj?
    ensures ShapeAt(j, path) ==
            if IsObj(At(j, path[0])) && path[1] in j.fields[path[0]].fields
            then ShapeAt(j.fields[path[0]].fields[path[1]], path[2..]) else Nothing
  {
    assert path[1..][1..] == path[2..];
  }

  lemma {:induction false} ShapeOfWrite(j: Json, path: seq<string>)
    ensures ShapeAt(j, path) == if WriteOf(j, path).Some? then WriteOf(j, path).value else Nothing
  {
    if path != [] && j.Obj? && path[0] in j.fields { ShapeOfWrite(j.fields[path[0]], path[1..]); }
  }

  /**
   What hoisting does to a config with providers nested too deep: at a path below the providers the
   nested ones decide, and where they do not, those already there; nothing is left at the nested
   `models`; everything else is as it was.
   */
  lemma HoistExactly(j: Json, path: seq<string>)
    requires j.Obj? && NestedProviders(j).Some? && OutsidePlugins(path)
    ensures NESTED_PATH <= path ==> ShapeAt(Normalize(j), path) == Nothing
    ensures path == PROVIDERS_PATH ==> ShapeAt(Normalize(j), path) == Branch
    ensures PROVIDERS_PATH <= path && |path| > 2 ==>
              ShapeAt(Normalize(j), path) ==
              var w := WriteOf(NestedProviders(j).value, path[2..]); if w.Some? then w.value else ShapeAt(j, path)
    ensures !(NESTED_PATH <= path) && !(PROVIDERS_PATH <= path) ==> ShapeAt(Normalize(j), path) == ShapeAt(j, path)
  {
    HoistedModels(j);
    PathStarts(path);
    if |path| >= 2 {
      ShapeDeeper(j, path);
      ShapeDeeper(Normalize(j), path);
      if |path| > 2 && PROVIDERS_PATH <= path {
        var own, nested := At(j.fields["models"], "providers"), NestedProviders(j).value;
        if IsObj(own) { MergeWrites(own.value, nested, path[2..]); } else { ShapeOfWrite(nested, path[2..]); }
      }
    }
  }

  /** Without nested providers hoisting changes nothing. */
  lemma NothingToHoist(j: Json)
    requires NestedProviders(j).None?
    ensures Normalize(j) == j
  {
  }

  lemma {:induction false} NobodyWrites(fragments: seq<Json>, path: seq<string>)
    requires OutsidePlugins(path)
    requires forall f | f in fragments :: FragmentWrite(f, path).None?
    ensures ShapeAt(Fold(fragments), path) == Nothing
  {
    if fragments != [] {
      var n := |fragments| - 1;
      NobodyWrites(fragments[..n], path);
      assert fragments[n] in fragments;
      if fragments[n].Obj? {
        HoistedWrites(fragments[n], path);
        MergeWrites(Fold(fragments[..n]), Normalize(fragments[n]), path);
      }
    }
  }

  lemma {:induction false} LastWriteInFold(fragments: seq<Json>, path: seq<string>, last: nat)
    requires OutsidePlugins(path)
    requires last < |fragments| && FragmentWrite(fragments[last], path).Some?
    requires forall j | last < j < |fragments| :: FragmentWrite(fragments[j], path).None?
    ensures ShapeAt(Fold(fragments), path) == FragmentWrite(fragments[last], path).value
    decreases |fragments|
  {
    var n := |fragments| - 1;
    if fragments[n].Obj? {
      HoistedWrites(fragments[n], path);
      MergeWrites(Fold(fragments[..n]), Normalize(fragments[n]), path);
    }
    if last < n {
      LastWriteInFold(fragments[..n], path, last);
    }
  }

  const BLOCKRUN_PATH := ["models", "providers", "blockrun"]

  lemma ShapeOfEdit(j: Json, k: string, v: Json, path: seq<string>)
    requires j.Obj? && path != []
    ensures ShapeAt(Assign(j, k, v), path) == if path[0] == k then ShapeAt(v, path[1..]) else ShapeAt(j, path)
    ensures path[0] != k ==> ShapeAt(Delete(j, k), path) == ShapeAt(j, path)
  {
  }

  lemma RepairOnlyTouchesBlockrun(j: Json, path: seq<string>)
    requires !(BLOCKRUN_PATH <= path)
    ensures ShapeAt(RepairBlockrun(j), path) == ShapeAt(j, path)
  {
    if InvalidBlockrun(j) && path != [] {
      var models := j.fields["models"];
      var providers := models.fields["providers"];
      var fixed := RepairBlockrun(j).fields["models"].fields["providers"];
      ShapeOfEdit(j, "models", Assign(models, "providers", fixed), path);
      if path[0] == "models" && |path| > 1 {
        assert ShapeAt(j, path) == ShapeAt(models, path[1..]);
        ShapeOfEdit(models, "providers", fixed, path[1..]);
        var deepest := path[1..][1..];
        if path[1] == "providers" {
          assert ShapeAt(models, path[1..]) == ShapeAt(providers, deepest);
        }
        if path[1] == "providers" && |path| > 2 {
          assert deepest[0] == path[2] != "blockrun";
          ShapeOfEdit(providers, "blockrun", CompleteBlockrun(providers.fields["blockrun"]), deepest);
        }
      }
    }
  }

  /** In a composed config every path outside plugins lists and blockrun is as the last fragment that decides it says. */
  lemma LastWriterWins(fragments: seq<Json>, path: seq<string>)
    requires OutsidePlugins(path) && !(BLOCKRUN_PATH <= path)
    ensures (forall f | f in fragments :: FragmentWrite(f, path).None?) ==>
              ShapeAt(MergeOrdered(fragments), path) == Nothing
    ensures forall last: nat ::
              last < |fragments| && FragmentWrite(fragments[last], path).Some? &&
              (forall j | last < j < |fragments| :: FragmentWrite(fragments[j], path).None?) ==>
                ShapeAt(MergeOrdered(fragments), path) == FragmentWrite(fragments[last], path).value
  {
    FoldIsFlat(fragments);
    NormalizedIsFlat(Fold(fragments));
    RepairOnlyTouchesBlockrun(Fold(fragments), path);
    if forall f | f in fragments :: FragmentWrite(f, path).None? {
      NobodyWrites(fragments, path);
    }
    forall last: nat |
      last < |fragments| && FragmentWrite(fragments[last], path).Some? &&
      (forall j | last < j < |fragments| :: FragmentWrite(fragments[j], path).None?)
      ensures ShapeAt(MergeOrdered(fragments), path) == FragmentWrite(fragments[last], path).value
    {
      LastWriteInFold(fragments, path, last);
    }
  }

  /** A patched config has what the patch decides, and otherwise what the base decides. */
  lemma PatchWins(base: Json, patch: Json, path: seq<string>)
    requires base.Obj? && patch.Obj? && OutsidePlugins(path) && !(BLOCKRUN_PATH <= path)
    ensures ShapeAt(MergePatch(base, patch), path) ==
            if FragmentWrite(patch, path).Some? then FragmentWrite(patch, path).value
            else if FragmentWrite(base, path).Some? then FragmentWrite(base, path).value
            else Nothing
  {
    var b, p := Normalize(base), Normalize(patch);
    NormalizedIsFlat(base);
    NormalizedIsFlat(patch);
    MergeStaysFlat(b, p);
    NormalizedIsFlat(Merge(b, p));
    RepairOnlyTouchesBlockrun(Merge(b, p), path);
    MergeWrites(b, p, path);
    HoistedWrites(base, path);
    HoistedWrites(patch, path);
    ShapeOfWrite(b, path);
  }
}
