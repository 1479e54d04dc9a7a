/** Algebra of the config merge: what composing, re-applying and re-composing preserve. */
module MergeLaws {
  import opened Json
  import opened KeyLists
  import opened ConfigMerge

  // ----- one key at a time -----

  lemma AtMerge(t: Json, s: Json, k: string)
    requires t.Obj? && s.Obj?
    ensures At(Merge(t, s), k) == if k in s.fields then Some(MergeValue(k, At(t, k), s.fields[k])) else At(t, k)
  {
  }

  lemma MergeNothing(j: Json)
    requires j.Obj?
    ensures Merge(j, EMPTY) == j
  {
    assert Merge(j, EMPTY).fields == j.fields;
  }

  // ----- hoisting -----

  lemma NormalizedIsFlat(j: Json)
    ensures !Hoistable(Normalize(j))
    ensures !Hoistable(j) ==> Normalize(j) == j
  {
  }

  /** Merging two configs with nothing to hoist creates nothing to hoist. */
  lemma MergeStaysFlat(t: Json, s: Json)
    requires t.Obj? && s.Obj?
    requires !Hoistable(t) && !Hoistable(s)
    ensures !Hoistable(Merge(t, s))
  {
    AtMerge(t, s, "models");
    if Hoistable(Merge(t, s)) && "models" in s.fields {
      var tm, sm := ObjOrEmpty(At(t, "models")), s.fields["models"];
      AtMerge(tm, sm, "models");
      if "models" in sm.fields {
        AtMerge(ObjOrEmpty(At(tm, "models")), sm.fields["models"], "providers");
      }
    }
  }

  lemma {:induction false} FoldIsFlat(fragments: seq<Json>)
    ensures !Hoistable(Fold(fragments))
  {
    if fragments != [] {
      var n := |fragments| - 1;
      FoldIsFlat(fragments[..n]);
      NormalizedIsFlat(fragments[n]);
      if fragments[n].Obj? {
        MergeStaysFlat(Fold(fragments[..n]), Normalize(fragments[n]));
      }
    }
  }

  lemma RepairKeepsFlat(j: Json)
    ensures Hoistable(RepairBlockrun(j)) == Hoistable(j)
  {
  }

  lemma RepairedIsValid(j: Json)
    ensures !InvalidBlockrun(RepairBlockrun(j))
  {
  }

  // ----- composing a composed config -----

  /** Every plugins list reached through objects is what merging into `[]` gives back. */
  ghost predicate Clean(j: Json)
    decreases j, 0
  {
    j.Obj? ==> forall k | k in j.fields :: CleanAt(k, j.fields[k])
  }

  ghost predicate CleanAt(k: string, v: Json)
    decreases v, 1
  {
    if k == "plugins" && v.Arr? then CleanList(v.items) else Clean(v)
  }

  ghost predicate CleanList(items: seq<Json>) {
    (forall p | p in items :: Admissible(p)) &&
    (forall i, j :: 0 <= i < j < |items| ==> !SameId(items[i], items[j]))
  }

  lemma OverlayKeepsId(e: Json, pp: Json)
    requires Admissible(pp) && SameId(e, pp)
    ensures At(Overlay(e, pp), "id") == At(e, "id") && Admissible(Overlay(e, pp))
  {
  }

  lemma {:induction false} CleanPlugins(cur: seq<Json>, patch: seq<Json>)
    requires CleanList(cur)
    ensures CleanList(MergePlugins(cur, patch))
    decreases patch
  {
    if patch != [] {
      var pp := patch[0];
      if Admissible(pp) && FindId(cur, pp) < |cur| {
        OverlayKeepsId(cur[FindId(cur, pp)], pp);
      }
      CleanPlugins(MergePlugin(cur, pp), patch[1..]);
    }
  }

  lemma {:induction false} CleanMerge(t: Json, s: Json)
    requires t.Obj? && s.Obj? && Clean(t)
    ensures Clean(Merge(t, s))
    decreases s, 0
  {
    var r := Merge(t, s);
    forall k | k in r.fields ensures CleanAt(k, r.fields[k]) {
      if k in s.fields {
        CleanMergeValue(k, At(t, k), s.fields[k]);
      }
    }
  }

  lemma {:induction false} CleanMergeValue(k: string, cur: Option<Json>, v: Json)
    requires cur.Some? ==> CleanAt(k, cur.value)
    ensures CleanAt(k, MergeValue(k, cur, v))
    decreases v, 1
  {
    if k == "plugins" && v.Arr? {
      CleanPlugins(ItemsOf(cur), v.items);
    } else if v.Obj? {
      CleanMerge(ObjOrEmpty(cur), v);
    }
  }

  lemma {:induction false} FoldIsClean(fragments: seq<Json>)
    ensures Clean(Fold(fragments))
  {
    if fragments != [] {
      var n := |fragments| - 1;
      FoldIsClean(fragments[..n]);
      if fragments[n].Obj? {
        CleanMerge(Fold(fragments[..n]), Normalize(fragments[n]));
      }
    }
  }

  lemma CleanChild(j: Json, k: string)
    requires Clean(j) && j.Obj? && k in j.fields
    ensures CleanAt(k, j.fields[k])
  {
  }

  lemma CleanEdit(j: Json, k: string, v: Json)
    requires j.Obj? && Clean(j)
    ensures CleanAt(k, v) ==> Clean(Assign(j, k, v))
    ensures Clean(Delete(j, k))
  {
    forall x | x in j.fields ensures CleanAt(x, j.fields[x]) {
      CleanChild(j, x);
    }
  }

  lemma CleanCompleteBlockrun(blockrun: Json)
    requires blockrun.Obj? && Clean(blockrun)
    ensures Clean(CompleteBlockrun(blockrun))
  {
    CleanEdit(blockrun, "api", Str("openai-completions"));
    var b := DefaultStr(blockrun, "api", "openai-completions");
    CleanEdit(b, "apiKey", Str("x402-proxy-handles-auth"));
    CleanEdit(DefaultStr(b, "apiKey", "x402-proxy-handles-auth"), "models", Arr([AUTO_MODEL]));
  }

  lemma RepairKeepsClean(j: Json)
    requires Clean(j)
    ensures Clean(RepairBlockrun(j))
  {
    if InvalidBlockrun(j) {
      var models := j.fields["models"];
      var providers := models.fields["providers"];
      var blockrun := providers.fields["blockrun"];
      CleanChild(j, "models");
      CleanChild(models, "providers");
      CleanChild(providers, "blockrun");
      CleanCompleteBlockrun(blockrun);
      CleanEdit(providers, "blockrun", CompleteBlockrun(blockrun));
      var fixed := RepairBlockrun(j).fields["models"].fields["providers"];
      CleanEdit(models, "providers", fixed);
      CleanEdit(j, "models", Assign(models, "providers", fixed));
    }
  }

  /** The plugins already merged are untouched, the rest are pushed one by one. */
  lemma {:induction false} RebuildPlugins(done: seq<Json>, rest: seq<Json>)
    requires CleanList(done + rest)
    ensures MergePlugins(done, rest) == done + rest
    decreases rest
  {
    if rest == [] {
      assert done + rest == done;
    } else {
      var all := done + rest;
      assert forall i | 0 <= i < |done| :: all[i] == done[i] && all[|done|] == rest[0];
      assert rest[0] in all;
      assert FindId(done, rest[0]) == |done|;
      assert (done + [rest[0]]) + rest[1..] == all;
      RebuildPlugins(done + [rest[0]], rest[1..]);
    }
  }

  lemma {:induction false} RebuildClean(c: Json)
    requires c.Obj? && Clean(c)
    ensures Merge(EMPTY, c) == c
    decreases c
  {
    AllFresh(c.keys);
    forall k | k in c.fields ensures MergeValue(k, None, c.fields[k]) == c.fields[k] {
      var v := c.fields[k];
      assert CleanAt(k, v);
      if k == "plugins" && v.Arr? {
        RebuildPlugins([], v.items);
        assert [] + v.items == v.items;
      } else if v.Obj? {
        RebuildClean(v);
      }
    }
    assert Merge(EMPTY, c).fields == c.fields;
  }

  lemma {:induction false} ComposeIsAFixedPoint(fragments: seq<Json>)
    ensures MergeOrdered([MergeOrdered(fragments)]) == MergeOrdered(fragments)
  {
    var folded := Fold(fragments);
    FoldIsFlat(fragments);
    FoldIsClean(fragments);
    NormalizedIsFlat(folded);
    RepairKeepsFlat(folded);
    RepairKeepsClean(folded);
    RepairedIsValid(folded);
    var c := MergeOrdered(fragments);
    NormalizedIsFlat(c);
    RebuildClean(c);
    assert [c][..0] == [];
    assert Fold([c]) == Merge(Fold([]), Normalize(c));
  }
}
