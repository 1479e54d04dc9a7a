/** Route sync with fragments that are composed after its own. */
module RouteSyncLater {
  import opened Json
  import opened ConfigMerge
  import opened HealLaws
  import opened LastWriter
  import opened MergeAssoc
  import opened MergeLaws
  import opened ParsedConfigs
  import opened RepairRoute
  import opened RouteSync
  import opened RouteSyncCases
  import opened TwoPaths

  // ----- later fragments that say nothing -----

  predicate Silent(later: seq<Json>) {
    forall f | f in later && f.Obj? :: f == EMPTY
  }

  lemma {:induction false} SilentFold(base: Json, later: seq<Json>)
    requires base.Obj? && Silent(later)
    ensures FoldOn(base, later) == base
  {
    if later != [] {
      var n := |later| - 1;
      assert later[n] in later && forall f | f in later[..n] :: f in later;
      SilentFold(base, later[..n]);
      MergeNothing(base);
    }
  }

  /** Silent fragments can be left out. */
  lemma SilentLater(before: seq<Json>, fragment: Json, after: seq<Json>, patch: Json)
    requires fragment.Obj? && patch.Obj? && Silent(after)
    ensures FragmentTarget(before, fragment, after, patch) == FragmentTarget(before, fragment, [], patch)
    ensures MergedTarget(before, fragment, after, patch) == MergedTarget(before, fragment, [], patch)
  {
    SilentCompose(before + [MergePatch(fragment, patch)], after);
    SilentCompose(before + [fragment], after);
  }

  lemma SilentCompose(fragments: seq<Json>, after: seq<Json>)
    requires Silent(after)
    ensures MergeOrdered(fragments + after) == MergeOrdered(fragments + [])
  {
    FoldEnds(fragments, after);
    SilentFold(Fold(fragments), after);
    assert fragments + [] == fragments;
  }

  // ----- later fragments that say something -----

  /** The last fragment that says something. */
  lemma {:induction false} LastSpeaker(later: seq<Json>) returns (i: nat)
    requires !Silent(later)
    ensures i < |later| && later[i].Obj? && later[i] != EMPTY && Silent(later[i + 1..])
  {
    var n := |later| - 1;
    if later[n].Obj? && later[n] != EMPTY {
      i := n;
    } else {
      assert later == later[..n] + [later[n]];
      i := LastSpeaker(later[..n]);
      assert later[i + 1..] == later[..n][i + 1..] + [later[n]];
    }
  }

  /** A key that a parsed object has. */
  lemma SomeKey(j: Json) returns (k: string)
    requires j.Obj? && Parsed(j) && j != EMPTY
    ensures k in j.fields
  {
    k := j.keys[0];
    assert k in j.keys;
  }

  /** A plain value that is not `v`. */
  function Unlike(v: Json): Json {
    if v == Null then Bool(true) else Null
  }

  lemma MergedUnlike(k: string, cur: Option<Json>, v: Json)
    ensures MergeValue(k, cur, v) != Unlike(v)
  {
  }

  /** Hoisting and repairing neither make nor remove a value that is no object. */
  lemma PlainStays(j: Json, k: string, v: Json)
    requires j.Obj? && !v.Obj?
    ensures At(RepairBlockrun(Normalize(j)), k) == Some(v) <==> At(j, k) == Some(v)
  {
    if k != "models" {
      NormalizeElsewhere(j, k);
      RepairElsewhere(Normalize(j), k);
    }
  }

  /** What a later fragment says at a key stays when the others after it are silent. */
  lemma SpeakerDecides(fragments: seq<Json>, after: seq<Json>, i: nat, k: string)
    requires i < |after| && after[i].Obj? && k in Normalize(after[i]).fields && Silent(after[i + 1..])
    ensures At(MergeOrdered(fragments + after), k) != Some(Unlike(Normalize(after[i]).fields[k]))
  {
    var v := Normalize(after[i]).fields[k];
    var head := fragments + after[..i];
    assert fragments + after == head + [after[i]] + after[i + 1..];
    FoldEnds(head + [after[i]], after[i + 1..]);
    FoldSnoc(head, after[i]);
    SilentFold(Fold(head + [after[i]]), after[i + 1..]);
    AtMerge(Fold(head), Normalize(after[i]), k);
    MergedUnlike(k, At(Fold(head), k), v);
    PlainStays(Fold(fragments + after), k, Unlike(v));
  }

  /** A patch of one plain value is what the merged target has at its key. */
  lemma PlainPatch(config: Json, k: string, v: Json)
    requires config.Obj? && !v.Obj? && !v.Arr?
    ensures At(MergePatch(config, One(k, v)), k) == Some(v)
  {
    NormalizedIsFlat(One(k, v));
    AtMerge(Normalize(config), One(k, v), k);
    PlainStays(Merge(Normalize(config), One(k, v)), k, v);
  }

  /** Whatever came before: a patch of one plain value, at a key that a later fragment writes, tells the targets apart. */
  lemma LaterSpeaks(before: seq<Json>, fragment: Json, after: seq<Json>) returns (patch: Json)
    requires fragment.Obj? && AllParsed(after) && !Silent(after)
    ensures PatchOk(patch)
    ensures FragmentTarget(before, fragment, after, patch) != MergedTarget(before, fragment, after, patch)
  {
    var i := LastSpeaker(after);
    assert after[i] in after;
    ParsedNormalize(after[i]);
    var k := SomeKey(Normalize(after[i]));
    var v := Unlike(Normalize(after[i]).fields[k]);
    patch := One(k, v);
    OneParsed(k, v);
    OneKeyed(k, v);
    SpeakerDecides(before + [MergePatch(fragment, patch)], after, i, k);
    PlainPatch(MergeOrdered(before + [fragment] + after), k, v);
  }

  /**
   On a first sync the targets agree for every patch exactly when no earlier fragment has a
   blockrun entry and every later one is empty.
   */
  lemma SafeFragmentsExactly(before: seq<Json>, after: seq<Json>)
    requires AllParsed(before) && AllParsed(after)
    ensures (forall patch: Json | PatchOk(patch) :: Agree(before, after, patch)) <==>
              Entry(Fold(before)).None? && forall f | f in after && f.Obj? :: f == EMPTY
  {
    if !Silent(after) {
      var patch := LaterSpeaks(before, EMPTY, after);
      assert PatchOk(patch) && !Agree(before, after, patch);
    } else if Entry(Fold(before)).Some? {
      var patch := UnsafeFragments(before);
      SilentLater(before, EMPTY, after, patch);
      assert PatchOk(patch) && !Agree(before, after, patch);
    } else {
      forall patch: Json | PatchOk(patch) ensures Agree(before, after, patch) {
        SilentLater(before, EMPTY, after, patch);
        SafeFragments(before, patch);
      }
    }
  }

  // ----- patches, whatever the fragments -----

  lemma EmptyPatchAgrees(before: seq<Json>, after: seq<Json>, patch: Json)
    requires patch.Obj? && patch == EMPTY
    ensures Agree(before, after, patch)
  {
    NormalizedIsFlat(EMPTY);
    MergeNothing(EMPTY);
    assert MergePatch(EMPTY, patch) == EMPTY;
    var fragments := before + [EMPTY] + after;
    FoldIsFlat(fragments);
    NormalizedIsFlat(Fold(fragments));
    FlatRepaired(Fold(fragments));
    RepairedIsValid(Fold(fragments));
    MergeNothing(MergeOrdered(fragments));
  }

  /** A later fragment with a plain value where the patch has another one. */
  lemma LaterContradicts(patch: Json) returns (later: Json)
    requires patch.Obj? && Parsed(patch) && patch != EMPTY
    ensures Parsed(later) && !Agree([], [later], patch)
  {
    ParsedNormalize(patch);
    var k := SomeKey(Normalize(patch));
    var v := Unlike(Normalize(patch).fields[k]);
    later := One(k, v);
    OneParsed(k, v);
    NormalizedIsFlat(later);
    assert [later][1..] == [];
    var head := [] + [MergePatch(EMPTY, patch)];
    FoldSnoc(head, later);
    AtMerge(Fold(head), later, k);
    PlainStays(Fold(head + [later]), k, v);
    var config := MergeOrdered([] + [EMPTY] + [later]);
    AtMerge(Normalize(config), Normalize(patch), k);
    MergedUnlike(k, At(Normalize(config), k), Normalize(patch).fields[k]);
    PlainStays(Merge(Normalize(config), Normalize(patch)), k, v);
  }

  /** On a first sync the targets agree whatever the fragments before and after are exactly when the patch is empty. */
  lemma SafePatchExactly(patch: Json)
    requires patch.Obj? && Parsed(patch)
    ensures (forall before: seq<Json>, after: seq<Json> | AllParsed(before) && AllParsed(after) :: Agree(before, after, patch)) <==>
              patch == EMPTY
  {
    if patch == EMPTY {
      forall before: seq<Json>, after: seq<Json> | AllParsed(before) && AllParsed(after) ensures Agree(before, after, patch) {
        EmptyPatchAgrees(before, after, patch);
      }
    } else {
      var later := LaterContradicts(patch);
      assert AllParsed([]) && AllParsed([later]) && !Agree([], [later], patch);
    }
  }

  // ----- path by path -----

  lemma WriteOfEdit(j: Json, k: string, v: Json, path: seq<string>)
    requires j.Obj? && path != []
    ensures WriteOf(Assign(j, k, v), path) == if path[0] == k then WriteOf(v, path[1..]) else WriteOf(j, path)
    ensures path[0] != k ==> WriteOf(Delete(j, k), path) == WriteOf(j, path)
  {
  }

  /** The repair changes no write outside the blockrun entry. */
  lemma RepairKeepsWrites(j: Json, path: seq<string>)
    requires !(BLOCKRUN_PATH <= path)
    ensures WriteOf(RepairBlockrun(j), path) == WriteOf(j, path)
  {
    if InvalidBlockrun(j) && path != [] {
      var models := j.fields["models"];
      var providers := models.fields["providers"];
      var fixed := RepairBlockrun(j).fields["models"].fields["providers"];
      WriteOfEdit(j, "models", Assign(models, "providers", fixed), path);
      if path[0] == "models" && |path| > 1 {
        assert WriteOf(j, path) == WriteOf(models, path[1..]);
        WriteOfEdit(models, "providers", fixed, path[1..]);
        var deepest := path[1..][1..];
        if path[1] == "providers" {
          assert WriteOf(models, path[1..]) == WriteOf(providers, deepest);
        }
        if path[1] == "providers" && |path| > 2 {
          assert deepest[0] == path[2] != "blockrun";
          WriteOfEdit(providers, "blockrun", CompleteBlockrun(providers.fields["blockrun"]), deepest);
        }
      }
    }
  }

  /** What a patch tight on a fragment decides in it, and what it leaves to the fragment. */
  lemma {:induction false} MergedWrites(g: Json, p: Json, path: seq<string>)
    requires g.Obj? && p.Obj? && Tight(g, p) && OutsidePlugins(path)
    ensures WriteOf(Merge(g, p), path) == if WriteOf(p, path).Some? then WriteOf(p, path) else WriteOf(g, path)
    decreases path
  {
    var k := path[0];
    AtMerge(g, p, k);
    if k in p.fields && |path| > 1 && p.fields[k].Obj? {
      if k in g.fields {
        assert TightAt(k, g.fields[k], p.fields[k]);
        MergedWrites(g.fields[k], p.fields[k], path[1..]);
      } else {
        MergedWrites(EMPTY, p.fields[k], path[1..]);
      }
    }
  }

  lemma {:induction false} FoldOnDecides(base: Json, later: seq<Json>, path: seq<string>)
    requires base.Obj? && OutsidePlugins(path)
    ensures ShapeAt(FoldOn(base, later), path) == DecidedBy(later, path, ShapeAt(base, path))
  {
    if later != [] {
      var n := |later| - 1;
      FoldOnDecides(base, later[..n], path);
      if later[n].Obj? {
        HoistedWrites(later[n], path);
        MergeWrites(FoldOn(base, later[..n]), Normalize(later[n]), path);
      }
    }
  }

  lemma FragmentShape(before: seq<Json>, fragment: Json, after: seq<Json>, patch: Json, path: seq<string>)
    requires fragment.Obj? && patch.Obj? && OutsidePlugins(path) && !(BLOCKRUN_PATH <= path)
    requires Tight(Normalize(fragment), Normalize(patch))
    ensures var w, start := FragmentWrite(patch, path), ShapeAt(Merge(Fold(before), Normalize(fragment)), path);
            ShapeAt(FragmentTarget(before, fragment, after, patch), path) ==
            DecidedBy(after, path, if w.Some? then w.value else start)
  {
    var s := PartsOf(before, fragment, after, patch);
    FragmentUnfolds(before, fragment, after, patch);
    RepairOnlyTouchesBlockrun(FoldOn(Merge(s.x, RepairBlockrun(s.c)), after), path);
    FoldOnDecides(Merge(s.x, RepairBlockrun(s.c)), after, path);
    MergeWrites(s.x, RepairBlockrun(s.c), path);
    RepairKeepsWrites(s.c, path);
    MergedWrites(Normalize(fragment), s.p, path);
    MergeWrites(s.x, Normalize(fragment), path);
    HoistedWrites(patch, path);
  }

  lemma MergedShape(before: seq<Json>, fragment: Json, after: seq<Json>, patch: Json, path: seq<string>)
    requires fragment.Obj? && patch.Obj? && OutsidePlugins(path) && !(BLOCKRUN_PATH <= path)
    ensures var w, start := FragmentWrite(patch, path), ShapeAt(Merge(Fold(before), Normalize(fragment)), path);
            ShapeAt(MergedTarget(before, fragment, after, patch), path) ==
            if w.Some? then w.value else DecidedBy(after, path, start)
  {
    var s := PartsOf(before, fragment, after, patch);
    MergedUnfolds(before, fragment, after, patch);
    RepairOnlyTouchesBlockrun(Merge(RepairBlockrun(s.y), s.p), path);
    MergeWrites(RepairBlockrun(s.y), s.p, path);
    RepairOnlyTouchesBlockrun(s.y, path);
    FoldOnDecides(Merge(s.x, Normalize(fragment)), after, path);
    HoistedWrites(patch, path);
  }

  /**
   Outside plugins lists and the blockrun entry the targets have the same at a path exactly when the
   patch leaves it alone, or the later fragments do, or the last of them to decide it says the same.
   */
  lemma PathsAgreeExactly(before: seq<Json>, fragment: Json, after: seq<Json>, patch: Json, path: seq<string>)
    requires fragment.Obj? && patch.Obj? && OutsidePlugins(path) && !(BLOCKRUN_PATH <= path)
    requires Tight(Normalize(fragment), Normalize(patch))
    ensures var w := FragmentWrite(patch, path);
            ShapeAt(FragmentTarget(before, fragment, after, patch), path) ==
            ShapeAt(MergedTarget(before, fragment, after, patch), path) <==>
            w.None? || DecidedBy(after, path, w.value) == w.value
  {
    FragmentShape(before, fragment, after, patch, path);
    MergedShape(before, fragment, after, patch, path);
  }
}
