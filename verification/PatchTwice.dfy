/** Re-applying a patch: merging it a second time changes nothing. */
module PatchTwice {
  import opened Json
  import opened KeyLists
  import opened ConfigMerge
  import opened MergeLaws

  /** In every plugins list, also inside plugin configs, the entries that count have distinct plain ids. */
  ghost predicate Keyed(j: Json)
    decreases j, 0
  {
    j.Obj? ==> forall k | k in j.fields :: KeyedAt(k, j.fields[k])
  }

  ghost predicate KeyedAt(k: string, v: Json)
    decreases v, 1
  {
    if k == "plugins" && v.Arr? then KeyedList(v.items) else Keyed(v)
  }

  ghost predicate KeyedList(items: seq<Json>)
    decreases items
  {
    (forall p | p in items && Admissible(p) :: SameId(p, p) && KeyedConfig(p)) &&
    (forall i, j :: 0 <= i < j < |items| && Admissible(items[i]) && Admissible(items[j]) ==>
      !SameId(items[i], items[j]))
  }

  ghost predicate KeyedConfig(p: Json)
    decreases p, 1
  {
    IsObj(At(p, "config")) ==> Keyed(p.fields["config"])
  }

  /** Merging `pp` into `cur` finds its entry and changes nothing. */
  ghost predicate Settled(cur: seq<Json>, pp: Json) {
    Admissible(pp) ==> FindId(cur, pp) < |cur| && Overlay(cur[FindId(cur, pp)], pp) == cur[FindId(cur, pp)]
  }

  lemma {:induction false} SettledPlugins(cur: seq<Json>, patch: seq<Json>)
    requires forall pp | pp in patch :: Settled(cur, pp)
    ensures MergePlugins(cur, patch) == cur
  {
    if patch != [] {
      assert patch[0] in patch;
      assert MergePlugin(cur, patch[0]) == cur;
      SettledPlugins(cur, patch[1..]);
    }
  }

  /** Merging a config into itself gives it back. */
  lemma {:induction false} SelfMerge(c: Json)
    requires c.Obj? && Keyed(c)
    ensures Merge(c, c) == c
    decreases c, 1
  {
    NothingFresh(c.keys, c.keys);
    forall k | k in c.fields ensures MergeValue(k, At(c, k), c.fields[k]) == c.fields[k] {
      var v := c.fields[k];
      assert KeyedAt(k, v);
      if k == "plugins" && v.Arr? {
        assert KeyedList(v.items);
        forall i | 0 <= i < |v.items| ensures Settled(v.items, v.items[i]) {
          if Admissible(v.items[i]) {
            assert v.items[i] in v.items;
            SelfOverlay(v.items[i]);
            assert FindId(v.items, v.items[i]) == i;
          }
        }
        SettledPlugins(v.items, v.items);
      } else if v.Obj? {
        SelfMerge(v);
      }
    }
    assert Merge(c, c).fields == c.fields;
  }

  lemma {:induction false} SelfOverlay(pp: Json)
    requires pp.Obj? && KeyedConfig(pp)
    ensures Overlay(pp, pp) == pp
    decreases pp, 0
  {
    WithoutMembers(pp.keys, "config");
    NothingFresh(pp.keys, Without(pp.keys, "config"));
    if IsObj(At(pp, "config")) {
      SelfMerge(pp.fields["config"]);
    }
  }

  // ----- the same patch twice -----

  lemma {:induction false} MergeTwice(t: Json, s: Json)
    requires t.Obj? && s.Obj? && Keyed(s)
    ensures Merge(Merge(t, s), s) == Merge(t, s)
    decreases s, 3
  {
    var once := Merge(t, s);
    AppendTwice(t.keys, s.keys);
    forall k | k in s.fields ensures MergeValue(k, At(once, k), s.fields[k]) == once.fields[k] {
      assert KeyedAt(k, s.fields[k]);
      MergeValueTwice(k, At(t, k), s.fields[k]);
    }
    assert Merge(once, s).fields == once.fields;
  }

  lemma {:induction false} MergeValueTwice(k: string, cur: Option<Json>, v: Json)
    requires KeyedAt(k, v)
    ensures MergeValue(k, Some(MergeValue(k, cur, v)), v) == MergeValue(k, cur, v)
    decreases v, 4
  {
    if k == "plugins" && v.Arr? {
      PluginsTwice(ItemsOf(cur), v.items);
    } else if v.Obj? {
      MergeTwice(ObjOrEmpty(cur), v);
    }
  }

  lemma {:induction false} OverlayTwice(e: Json, pp: Json)
    requires e.Obj? && pp.Obj? && KeyedConfig(pp)
    ensures Overlay(Overlay(e, pp), pp) == Overlay(e, pp)
    decreases pp, 0
  {
    var once := Overlay(e, pp);
    var rest := Without(pp.keys, "config");
    var base := if IsObj(At(pp, "config")) && !IsArr(At(e, "config"))
                then Assign(e, "config", Merge(ObjOrEmpty(At(e, "config")), pp.fields["config"])) else e;
    AppendTwice(base.keys, rest);
    assert At(once, "config") == At(base, "config");
    if IsObj(At(pp, "config")) && !IsArr(At(e, "config")) {
      MergeTwice(ObjOrEmpty(At(e, "config")), pp.fields["config"]);
    }
  }

  lemma {:induction false} PluginsTwice(cur: seq<Json>, patch: seq<Json>)
    requires KeyedList(patch)
    ensures MergePlugins(MergePlugins(cur, patch), patch) == MergePlugins(cur, patch)
    decreases patch, 2
  {
    AllSettled(cur, patch);
    SettledPlugins(MergePlugins(cur, patch), patch);
  }

  lemma {:induction false} AllSettled(cur: seq<Json>, patch: seq<Json>)
    requires KeyedList(patch)
    ensures forall pp | pp in patch :: Settled(MergePlugins(cur, patch), pp)
    decreases patch, 1
  {
    if patch != [] {
      var next := MergePlugin(cur, patch[0]);
      SettledNow(cur, patch[0]);
      StaysSettled(next, patch[0], patch[1..]);
      AllSettled(next, patch[1..]);
    }
  }

  lemma {:induction false} SettledNow(cur: seq<Json>, pp: Json)
    requires Admissible(pp) ==> SameId(pp, pp) && KeyedConfig(pp)
    ensures Settled(MergePlugin(cur, pp), pp)
    decreases pp, 1
  {
    if Admissible(pp) {
      var i := FindId(cur, pp);
      var next := MergePlugin(cur, pp);
      if i < |cur| {
        OverlayKeepsId(cur[i], pp);
        OverlayTwice(cur[i], pp);
      } else {
        SelfOverlay(pp);
      }
      assert forall j | 0 <= j < i :: next[j] == cur[j];
      assert SameId(next[i], pp);
    }
  }

  /** Entries with other ids leave the place and content of a settled entry alone. */
  lemma {:induction false} StaysSettled(cur: seq<Json>, pp: Json, others: seq<Json>)
    requires Settled(cur, pp)
    requires Admissible(pp) ==> forall q | q in others && Admissible(q) :: !SameId(pp, q)
    ensures Settled(MergePlugins(cur, others), pp)
    decreases others, 0
  {
    if others != [] && Admissible(pp) {
      var q := others[0];
      assert q in others;
      var next := MergePlugin(cur, q);
      var i := FindId(cur, pp);
      if Admissible(q) {
        var m := FindId(cur, q);
        if m < |cur| {
          OverlayKeepsId(cur[m], q);
        }
        assert m != i;
        assert next[i] == cur[i];
        assert forall j | 0 <= j < i :: !SameId(next[j], pp);
      }
      assert FindId(next, pp) == i;
      StaysSettled(next, pp, others[1..]);
    }
  }

  // ----- merging keyed configs -----

  lemma {:induction false} KeyedMerge(t: Json, s: Json)
    requires t.Obj? && s.Obj? && Keyed(t) && Keyed(s)
    ensures Keyed(Merge(t, s))
    decreases s, 3
  {
    var r := Merge(t, s);
    forall k | k in r.fields ensures KeyedAt(k, r.fields[k]) {
      if k in t.fields { assert KeyedAt(k, t.fields[k]); }
      if k in s.fields {
        assert KeyedAt(k, s.fields[k]);
        KeyedMergeValue(k, At(t, k), s.fields[k]);
      }
    }
  }

  lemma {:induction false} KeyedMergeValue(k: string, cur: Option<Json>, v: Json)
    requires KeyedAt(k, v) && (cur.Some? ==> KeyedAt(k, cur.value))
    ensures KeyedAt(k, MergeValue(k, cur, v))
    decreases v, 4
  {
    if k == "plugins" && v.Arr? {
      KeyedPlugins(ItemsOf(cur), v.items);
    } else if v.Obj? {
      KeyedMerge(ObjOrEmpty(cur), v);
    }
  }

  lemma {:induction false} KeyedPlugins(cur: seq<Json>, patch: seq<Json>)
    requires KeyedList(cur) && KeyedList(patch)
    ensures KeyedList(MergePlugins(cur, patch))
    decreases patch, 2
  {
    if patch != [] {
      var pp := patch[0];
      assert pp in patch;
      if Admissible(pp) && FindId(cur, pp) < |cur| {
        var e := cur[FindId(cur, pp)];
        OverlayKeepsId(e, pp);
        KeyedOverlay(e, pp);
      }
      KeyedPlugins(MergePlugin(cur, pp), patch[1..]);
    }
  }

  lemma {:induction false} KeyedOverlay(e: Json, pp: Json)
    requires e.Obj? && pp.Obj? && KeyedConfig(e) && KeyedConfig(pp)
    ensures KeyedConfig(Overlay(e, pp))
    decreases pp, 1
  {
    if IsObj(At(pp, "config")) && !IsArr(At(e, "config")) {
      KeyedMerge(ObjOrEmpty(At(e, "config")), pp.fields["config"]);
    }
  }

  lemma KeyedChild(j: Json, k: string)
    requires j.Obj? && Keyed(j) && IsObj(At(j, k))
    ensures Keyed(j.fields[k])
  {
    assert KeyedAt(k, j.fields[k]);
  }

  lemma KeyedEdit(j: Json, k: string, v: Json)
    requires j.Obj? && Keyed(j)
    ensures v.Obj? && Keyed(v) ==> Keyed(Assign(j, k, v))
    ensures Keyed(Delete(j, k))
  {
    forall x | x in j.fields ensures KeyedAt(x, j.fields[x]) {
    }
  }

  lemma KeyedNormalize(j: Json)
    requires Keyed(j)
    ensures Keyed(Normalize(j))
  {
    if Hoistable(j) {
      var models := j.fields["models"];
      KeyedChild(j, "models");
      KeyedChild(models, "models");
      KeyedChild(models.fields["models"], "providers");
      var nested := models.fields["models"].fields["providers"];
      if IsObj(At(models, "providers")) {
        KeyedChild(models, "providers");
        KeyedMerge(models.fields["providers"], nested);
      }
      var providers := if IsObj(At(models, "providers")) then Merge(models.fields["providers"], nested) else nested;
      KeyedEdit(models, "providers", providers);
      var withProviders := Assign(models, "providers", providers);
      KeyedEdit(withProviders, "models", Null);
      KeyedEdit(j, "models", Delete(withProviders, "models"));
    }
  }

  /** Re-applying a patch is a no-op, for `deepMerge` and for `mergeOpenclawPatch` when no repair fires. */
  lemma PatchTwiceIsOnce(base: Json, patch: Json)
    requires base.Obj? && patch.Obj? && Keyed(patch)
    requires !InvalidBlockrun(Merge(Normalize(base), Normalize(patch)))
    ensures MergePatch(MergePatch(base, patch), patch) == MergePatch(base, patch)
  {
    var b, p := Normalize(base), Normalize(patch);
    NormalizedIsFlat(base);
    NormalizedIsFlat(patch);
    KeyedNormalize(patch);
    MergeStaysFlat(b, p);
    NormalizedIsFlat(Merge(b, p));
    MergeTwice(b, p);
  }
}
