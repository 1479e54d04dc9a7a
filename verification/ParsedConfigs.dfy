/** Merging, hoisting and repairing keep what `JSON.parse` guarantees: each key listed exactly once. */
module ParsedConfigs {
  import opened Json
  import opened KeyLists
  import opened ConfigMerge

  ghost predicate Listed(j: Json) {
    j.Obj? ==> Distinct(j.keys) && forall k :: k in j.keys <==> k in j.fields
  }

  lemma {:induction false} FreshDistinct(keys: seq<string>, more: seq<string>)
    requires Distinct(more)
    ensures Distinct(Fresh(keys, more))
  {
    if more != [] {
      FreshDistinct(keys, more[1..]);
      FreshMembers(keys, more[1..]);
      assert forall k | k in more[1..] :: k != more[0];
    }
  }

  lemma AppendDistinct(keys: seq<string>, more: seq<string>)
    requires Distinct(keys) && Distinct(more)
    ensures Distinct(AppendNew(keys, more))
    ensures forall k :: k in AppendNew(keys, more) <==> k in keys || k in more
  {
    FreshDistinct(keys, more);
    FreshMembers(keys, more);
    var f := Fresh(keys, more);
    forall i, j | 0 <= i < j < |keys + f| ensures (keys + f)[i] != (keys + f)[j] {
      if i < |keys| <= j {
        assert f[j - |keys|] in f;
      }
    }
  }

  lemma ConsDistinct(k: string, keys: seq<string>)
    requires Distinct(keys) && k !in keys
    ensures Distinct([k] + keys)
  {
  }

  lemma RestDistinct(keys: seq<string>)
    requires Distinct(keys) && keys != []
    ensures Distinct(keys[1..]) && keys[0] !in keys[1..]
  {
  }

  lemma {:induction false} WithoutDistinct(keys: seq<string>, k: string)
    requires Distinct(keys)
    ensures Distinct(Without(keys, k))
    ensures forall x :: x in Without(keys, k) <==> x in keys && x != k
  {
    WithoutMembers(keys, k);
    if keys != [] {
      RestDistinct(keys);
      WithoutMembers(keys[1..], k);
      WithoutDistinct(keys[1..], k);
      ConsDistinct(keys[0], Without(keys[1..], k));
    }
  }

  lemma ParsedChild(j: Json, k: string)
    requires Parsed(j) && j.Obj? && k in j.fields
    ensures Parsed(j.fields[k])
  {
  }

  lemma ParsedEdit(j: Json, k: string, v: Json)
    requires j.Obj? && Parsed(j)
    ensures Parsed(v) ==> Parsed(Assign(j, k, v))
    ensures Parsed(Delete(j, k))
  {
    WithoutDistinct(j.keys, k);
  }

  lemma {:induction false} ParsedMerge(t: Json, s: Json)
    requires t.Obj? && s.Obj? && Parsed(t) && Parsed(s)
    ensures Parsed(Merge(t, s))
    decreases s, 1
  {
    AppendDistinct(t.keys, s.keys);
    var r := Merge(t, s);
    forall k | k in r.fields ensures Parsed(r.fields[k]) {
      if k in t.fields { ParsedChild(t, k); }
      if k in s.fields {
        ParsedChild(s, k);
        ParsedMergeValue(k, At(t, k), s.fields[k]);
      }
    }
  }

  lemma {:induction false} ParsedMergeValue(k: string, cur: Option<Json>, v: Json)
    requires Parsed(v) && (cur.Some? ==> Parsed(cur.value))
    ensures Parsed(MergeValue(k, cur, v))
    decreases v, 2
  {
    if k == "plugins" && v.Arr? {
      assert forall p | p in v.items :: Parsed(p);
      ParsedPlugins(ItemsOf(cur), v.items);
    } else if v.Obj? {
      ParsedMerge(ObjOrEmpty(cur), v);
    }
  }

  lemma {:induction false} ParsedPlugins(cur: seq<Json>, patch: seq<Json>)
    requires forall p | p in cur :: Parsed(p)
    requires forall p | p in patch :: Parsed(p)
    ensures forall p | p in MergePlugins(cur, patch) :: Parsed(p)
    decreases patch, 0
  {
    if patch != [] {
      var pp := patch[0];
      assert pp in patch;
      if Admissible(pp) && FindId(cur, pp) < |cur| {
        ParsedOverlay(cur[FindId(cur, pp)], pp);
      }
      ParsedPlugins(MergePlugin(cur, pp), patch[1..]);
    }
  }

  /** Copying every key of one object over another. */
  lemma ParsedCopy(base: Json, over: Json)
    requires base.Obj? && over.Obj? && Parsed(base) && Parsed(over)
    ensures Parsed(Obj(AppendNew(base.keys, over.keys), base.fields + over.fields))
  {
    AppendDistinct(base.keys, over.keys);
    var fields := base.fields + over.fields;
    forall k | k in fields ensures Parsed(fields[k]) {
      if k in over.fields { ParsedChild(over, k); } else { ParsedChild(base, k); }
    }
  }

  lemma {:induction false} ParsedOverlay(e: Json, pp: Json)
    requires e.Obj? && pp.Obj? && Parsed(e) && Parsed(pp)
    ensures Parsed(Overlay(e, pp))
    decreases pp, 1
  {
    ParsedEdit(pp, "config", Null);
    if IsObj(At(pp, "config")) && !IsArr(At(e, "config")) {
      ParsedChild(pp, "config");
      if "config" in e.fields { ParsedChild(e, "config"); }
      var config := Merge(ObjOrEmpty(At(e, "config")), pp.fields["config"]);
      ParsedMerge(ObjOrEmpty(At(e, "config")), pp.fields["config"]);
      ParsedEdit(e, "config", config);
      ParsedCopy(Assign(e, "config", config), Delete(pp, "config"));
    } else {
      ParsedCopy(e, Delete(pp, "config"));
    }
  }

  lemma ParsedNormalize(j: Json)
    requires Parsed(j)
    ensures Parsed(Normalize(j))
  {
    if Hoistable(j) {
      var models := j.fields["models"];
      ParsedChild(j, "models");
      ParsedChild(models, "models");
      ParsedChild(models.fields["models"], "providers");
      var nested := models.fields["models"].fields["providers"];
      if IsObj(At(models, "providers")) {
        ParsedChild(models, "providers");
        ParsedMerge(models.fields["providers"], nested);
      }
      var providers := if IsObj(At(models, "providers")) then Merge(models.fields["providers"], nested) else nested;
      ParsedEdit(models, "providers", providers);
      var withProviders := Assign(models, "providers", providers);
      ParsedEdit(withProviders, "models", Null);
      ParsedEdit(j, "models", Delete(withProviders, "models"));
    }
  }

  lemma {:induction false} ParsedFold(fragments: seq<Json>)
    requires AllParsed(fragments)
    ensures Parsed(Fold(fragments))
  {
    if fragments != [] {
      var n := |fragments| - 1;
      ParsedFold(fragments[..n]);
      ParsedNormalize(fragments[n]);
      if fragments[n].Obj? {
        ParsedMerge(Fold(fragments[..n]), Normalize(fragments[n]));
      }
    }
  }
}
