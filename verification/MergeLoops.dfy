/** The loops of the merge, each proved to compute its function in `ConfigMerge`. */
module MergeLoops {
  import opened Json
  import opened ConfigMerge
  import opened ParsedConfigs

  /** `base` after assigning the values at `keys`, one after the other. */
  ghost function AssignAll(base: Json, values: map<string, Json>, keys: seq<string>): (r: Json)
    requires base.Obj? && forall k | k in keys :: k in values
    ensures r.Obj?
  {
    if keys == [] then base
    else
      var n := |keys| - 1;
      Assign(AssignAll(base, values, keys[..n]), keys[n], values[keys[n]])
  }

  lemma {:induction false} FreshSnoc(keys: seq<string>, done: seq<string>, k: string)
    requires k !in done
    ensures Fresh(keys, done + [k]) == Fresh(keys, done) + if k in keys then [] else [k]
  {
    if done == [] {
      assert [] + [k] == [k];
      assert [k][1..] == [];
    } else {
      assert (done + [k])[1..] == done[1..] + [k];
      FreshSnoc(keys, done[1..], k);
    }
  }

  lemma {:induction false} AssignAllAt(base: Json, values: map<string, Json>, keys: seq<string>)
    requires base.Obj? && forall k | k in keys :: k in values
    ensures forall k :: At(AssignAll(base, values, keys), k) == if k in keys then Some(values[k]) else At(base, k)
  {
    if keys != [] {
      var n := |keys| - 1;
      AssignAllAt(base, values, keys[..n]);
      assert keys == keys[..n] + [keys[n]];
    }
  }

  lemma AssignKey(base: Json, before: Json, keys: seq<string>, k: string, v: Json)
    requires base.Obj? && before.Obj? && before.keys == AppendNew(base.keys, keys) && k !in keys
    requires k in before.fields <==> k in base.keys
    ensures Assign(before, k, v).keys == AppendNew(base.keys, keys + [k])
  {
    FreshSnoc(base.keys, keys, k);
  }

  lemma {:induction false} AssignAllKeys(base: Json, values: map<string, Json>, keys: seq<string>)
    requires base.Obj? && Distinct(keys) && forall k | k in keys :: k in values && (k in base.keys <==> k in base.fields)
    ensures AssignAll(base, values, keys).keys == AppendNew(base.keys, keys)
  {
    if keys != [] {
      var n := |keys| - 1;
      var before := AssignAll(base, values, keys[..n]);
      AssignAllKeys(base, values, keys[..n]);
      AssignAllAt(base, values, keys[..n]);
      assert keys == keys[..n] + [keys[n]];
      assert At(before, keys[n]) == At(base, keys[n]);
      AssignKey(base, before, keys[..n], keys[n], values[keys[n]]);
    }
  }

  lemma AssignAllIs(base: Json, values: map<string, Json>, keys: seq<string>)
    requires base.Obj? && Listed(base) && Distinct(keys) && forall k | k in keys :: k in values
    ensures AssignAll(base, values, keys).keys == AppendNew(base.keys, keys)
    ensures forall k :: At(AssignAll(base, values, keys), k) == if k in keys then Some(values[k]) else At(base, k)
  {
    AssignAllKeys(base, values, keys);
    AssignAllAt(base, values, keys);
  }

  lemma AssignAllEnds(base: Json, values: map<string, Json>, keys: seq<string>)
    requires base.Obj? && Listed(base) && Distinct(keys) && forall k :: k in keys <==> k in values
    ensures AssignAll(base, values, keys) == Obj(AppendNew(base.keys, keys), base.fields + values)
  {
    AssignAllIs(base, values, keys);
    var r := AssignAll(base, values, keys);
    forall k ensures k in r.fields <==> k in base.fields + values {
      assert k in r.fields <==> At(r, k).Some?;
    }
    forall k | k in r.fields ensures r.fields[k] == (base.fields + values)[k] {
      assert At(r, k) == Some(r.fields[k]);
    }
    assert r.fields == base.fields + values;
  }

  /** What each key of `source` becomes when it is merged into `target`. */
  ghost function MergedValues(target: Json, source: Json): map<string, Json>
    requires source.Obj?
  {
    map k | k in source.fields :: MergeValue(k, At(target, k), source.fields[k])
  }

  lemma MergeAssignsAll(target: Json, source: Json)
    requires target.Obj? && source.Obj? && Listed(target) && Listed(source)
    ensures AssignAll(target, MergedValues(target, source), source.keys) == Merge(target, source)
  {
    AssignAllEnds(target, MergedValues(target, source), source.keys);
    assert target.fields + MergedValues(target, source) == Merge(target, source).fields;
  }

  /** Replacing a value that was just put there is the same as putting the last one. */
  lemma AssignTwice(j: Json, k: string, v: Json, w: Json)
    requires j.Obj?
    ensures Assign(Assign(j, k, v), k, w) == Assign(j, k, w)
  {
  }

  /** `target` after the first `i` keys of `source`. */
  ghost function MergedUpTo(target: Json, source: Json, i: nat): (r: Json)
    requires target.Obj? && source.Obj? && Listed(source) && i <= |source.keys|
    ensures r.Obj?
  {
    AssignAll(target, MergedValues(target, source), source.keys[..i])
  }

  lemma MergedEnds(target: Json, source: Json)
    requires target.Obj? && source.Obj? && Listed(target) && Listed(source)
    ensures MergedUpTo(target, source, 0) == target
    ensures MergedUpTo(target, source, |source.keys|) == Merge(target, source)
  {
    assert source.keys[..|source.keys|] == source.keys;
    MergeAssignsAll(target, source);
  }

  lemma MergedStep(target: Json, source: Json, i: nat)
    requires target.Obj? && source.Obj? && Listed(target) && Listed(source) && i < |source.keys|
    ensures var k := source.keys[i]; var before := MergedUpTo(target, source, i);
            At(before, k) == At(target, k) &&
            MergedUpTo(target, source, i + 1) == Assign(before, k, MergeValue(k, At(target, k), source.fields[k]))
  {
    var values := MergedValues(target, source);
    assert source.keys[..i + 1] == source.keys[..i] + [source.keys[i]];
    AssignAllIs(target, values, source.keys[..i]);
    AssignAllSnoc(target, values, source.keys[..i], source.keys[i]);
  }

  method DeepMerge(target: Json, source: Json) returns (out: Json)
    requires target.Obj? && source.Obj? && Parsed(target) && Parsed(source)
    ensures out == Merge(target, source)
    decreases source, 1
  {
    out := target;
    MergedEnds(target, source);
    for i := 0 to |source.keys|
      invariant out == MergedUpTo(target, source, i)
    {
      var k := source.keys[i];
      MergedStep(target, source, i);
      if k in target.fields { ParsedChild(target, k); }
      ParsedChild(source, k);
      out := MergeKey(out, k, source.fields[k]);
    }
  }

  /** The body of the loop: what one key of the source does to the target. */
  method MergeKey(target: Json, k: string, v: Json) returns (out: Json)
    requires target.Obj? && Parsed(v) && (At(target, k).Some? ==> Parsed(target.fields[k]))
    ensures out == Assign(target, k, MergeValue(k, At(target, k), v))
    decreases v, 2
  {
    out := target;
    if k == "plugins" && v.Arr? {
      var plugins := MergePluginLists(At(out, "plugins"), v.items);
      out := Assign(out, "plugins", Arr(plugins));
    } else if v.Obj? {
      if !IsObj(At(out, k)) {
        out := Assign(out, k, EMPTY);
        AssignTwice(target, k, EMPTY, Merge(EMPTY, v));
      }
      var merged := DeepMerge(out.fields[k], v);
      out := Assign(out, k, merged);
    } else {
      out := Assign(out, k, v);
    }
  }

  lemma PluginStep(cur: seq<Json>, patch: seq<Json>, i: nat)
    requires i < |patch|
    ensures MergePlugins(cur, patch[i..]) == MergePlugins(MergePlugin(cur, patch[i]), patch[i + 1..])
  {
    assert patch[i..][0] == patch[i] && patch[i..][1..] == patch[i + 1..];
  }

  method MergePluginLists(curList: Option<Json>, patchList: seq<Json>) returns (curArr: seq<Json>)
    requires (curList.Some? ==> Parsed(curList.value)) && AllParsed(patchList)
    ensures curArr == MergePlugins(ItemsOf(curList), patchList)
    decreases patchList, 0
  {
    curArr := ItemsOf(curList);
    ghost var all := MergePlugins(curArr, patchList);
    assert patchList[0..] == patchList;
    for i := 0 to |patchList|
      invariant MergePlugins(curArr, patchList[i..]) == all && AllParsed(curArr)
    {
      PluginStep(curArr, patchList, i);
      curArr := MergeEntry(curArr, patchList[i]);
    }
  }

  /** The body of the loop: what one patch entry does to the list. */
  method MergeEntry(curArr: seq<Json>, pp: Json) returns (next: seq<Json>)
    requires AllParsed(curArr) && Parsed(pp)
    ensures next == MergePlugin(curArr, pp) && AllParsed(next)
    decreases pp, 3
  {
    if !Admissible(pp) { return curArr; }
    var idx := FindId(curArr, pp);
    if idx == |curArr| { return curArr + [pp]; }
    assert curArr[idx] in curArr;
    var existing := OverlayEntry(curArr[idx], pp);
    ParsedOverlay(curArr[idx], pp);
    next := curArr[idx := existing];
  }

  lemma {:induction false} WithoutSnoc(keys: seq<string>, last: string, k: string)
    ensures Without(keys + [last], k) == Without(keys, k) + if last == k then [] else [last]
  {
    if keys == [] {
      assert [] + [last] == [last];
    } else {
      assert (keys + [last])[1..] == keys[1..] + [last];
      WithoutSnoc(keys[1..], last, k);
    }
  }

  lemma AssignAllSnoc(base: Json, values: map<string, Json>, keys: seq<string>, k: string)
    requires base.Obj? && k in values && forall x | x in keys :: x in values
    ensures AssignAll(base, values, keys + [k]) == Assign(AssignAll(base, values, keys), k, values[k])
  {
    assert (keys + [k])[..|keys|] == keys;
  }

  /** Copies every key of `pp` but `config` onto the entry. */
  method CopyKeys(base: Json, pp: Json) returns (existing: Json)
    requires base.Obj? && pp.Obj? && Listed(base) && Listed(pp)
    ensures existing == Obj(AppendNew(base.keys, Without(pp.keys, "config")), base.fields + (pp.fields - {"config"}))
  {
    existing := base;
    ghost var values := pp.fields - {"config"};
    ghost var copied: seq<string> := [];
    for i := 0 to |pp.keys|
      invariant copied == Without(pp.keys[..i], "config")
      invariant forall k | k in copied :: k in values
      invariant existing == AssignAll(base, values, copied)
    {
      var kk := pp.keys[i];
      assert pp.keys[..i + 1] == pp.keys[..i] + [kk];
      WithoutSnoc(pp.keys[..i], kk, "config");
      if kk == "config" { continue; }
      AssignAllSnoc(base, values, copied, kk);
      existing := Assign(existing, kk, pp.fields[kk]);
      copied := copied + [kk];
    }
    assert pp.keys[..|pp.keys|] == pp.keys;
    WithoutDistinct(pp.keys, "config");
    AssignAllEnds(base, values, copied);
  }

  method OverlayEntry(entry: Json, pp: Json) returns (existing: Json)
    requires entry.Obj? && pp.Obj? && Parsed(entry) && Parsed(pp)
    ensures existing == Overlay(entry, pp)
    decreases pp, 2
  {
    existing := MergeConfigs(entry, pp);
    existing := CopyKeys(existing, pp);
  }

  method MergeConfigs(entry: Json, pp: Json) returns (existing: Json)
    requires entry.Obj? && pp.Obj? && Parsed(entry) && Parsed(pp)
    ensures existing == if IsObj(At(pp, "config")) && !IsArr(At(entry, "config"))
                        then Assign(entry, "config", Merge(ObjOrEmpty(At(entry, "config")), pp.fields["config"]))
                        else entry
    ensures Listed(existing)
    decreases pp, 0
  {
    existing := entry;
    if IsObj(At(pp, "config")) && !IsArr(At(existing, "config")) {
      ParsedChild(pp, "config");
      if "config" in entry.fields { ParsedChild(entry, "config"); }
      if !IsObj(At(existing, "config")) {
        existing := Assign(existing, "config", EMPTY);
        AssignTwice(entry, "config", EMPTY, Merge(EMPTY, pp.fields["config"]));
      }
      var config := DeepMerge(existing.fields["config"], pp.fields["config"]);
      existing := Assign(existing, "config", config);
    }
  }

  method NormalizeNestedModelsKey(obj: Json) returns (out: Json)
    requires Parsed(obj)
    ensures out == Normalize(obj)
  {
    if !Hoistable(obj) { return obj; }
    var models := obj.fields["models"];
    ParsedChild(obj, "models");
    ParsedChild(models, "models");
    ParsedChild(models.fields["models"], "providers");
    var nested := models.fields["models"].fields["providers"];
    if !IsObj(At(models, "providers")) {
      models := Assign(models, "providers", nested);
    } else {
      ParsedChild(models, "providers");
      var providers := DeepMerge(models.fields["providers"], nested);
      models := Assign(models, "providers", providers);
    }
    out := Assign(obj, "models", Delete(models, "models"));
  }

  method MergeOpenclawPatch(base: Json, patch: Json) returns (cur: Json)
    requires base.Obj? && patch.Obj? && Parsed(base) && Parsed(patch)
    ensures cur == MergePatch(base, patch)
  {
    cur := NormalizeNestedModelsKey(base);
    var patchClone := NormalizeNestedModelsKey(patch);
    ParsedNormalize(base);
    ParsedNormalize(patch);
    ParsedMerge(cur, patchClone);
    cur := DeepMerge(cur, patchClone);
    cur := NormalizeNestedModelsKey(cur);
    cur := RepairBlockrun(cur);
  }

  method MergeOrderedFragments(fragments: seq<Json>) returns (out: Json)
    requires AllParsed(fragments)
    ensures out == MergeOrdered(fragments)
  {
    out := EMPTY;
    for i := 0 to |fragments|
      invariant out == Fold(fragments[..i]) && Parsed(out)
    {
      assert fragments[..i + 1][..i] == fragments[..i];
      var frag := fragments[i];
      if frag.Obj? {
        var normalized := NormalizeNestedModelsKey(frag);
        ParsedNormalize(frag);
        ParsedMerge(out, normalized);
        out := DeepMerge(out, normalized);
      }
    }
    assert fragments[..|fragments|] == fragments;
    out := NormalizeNestedModelsKey(out);
    out := RepairBlockrun(out);
  }
}
