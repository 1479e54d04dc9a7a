/** When the blockrun repair fires, a patch that is applied twice may undo it. This says exactly when. */
module PatchTwiceExact {
  import opened Json
  import opened KeyLists
  import opened ConfigMerge
  import opened MergeLaws
  import opened ParsedConfigs
  import opened MergeAssoc
  import opened PatchTwice

  /** The patch sets `k` to something the repair would replace. */
  predicate Blanks(q: Json, k: string) {
    At(q, k).Some? && !NonBlank(At(q, k))
  }

  /**
   The repair completes `blockrun` and the patch blanks a field it fills in
   without touching `models`: the second time the list is there, nothing is
   repaired, and the blank stays.
   */
  predicate UndoesRepair(base: Json, patch: Json)
    requires base.Obj? && patch.Obj?
  {
    var p := Normalize(patch);
    var m := Merge(Normalize(base), p);
    InvalidBlockrun(m) && NonBlank(At(m.fields["models"].fields["providers"].fields["blockrun"], "baseUrl")) &&
    HasBlockrun(p) && BlanksDefault(p.fields["models"].fields["providers"].fields["blockrun"])
  }

  predicate BlanksDefault(q: Json) {
    At(q, "models").None? && (Blanks(q, "api") || Blanks(q, "apiKey"))
  }

  // ----- a settled merge, edited at one key -----

  /** Merging `s` changes nothing. */
  ghost predicate Settles(x: Json, s: Json) {
    x.Obj? && s.Obj? && Merge(x, s) == x
  }

  lemma SettledKeys(x: Json, s: Json)
    requires Settles(x, s)
    ensures forall k | k in s.keys :: k in x.keys
  {
    FreshMembers(x.keys, s.keys);
    assert |AppendNew(x.keys, s.keys)| == |x.keys|;
    assert Fresh(x.keys, s.keys) == [];
  }

  lemma SettledChild(x: Json, s: Json, k: string)
    requires Settles(x, s) && IsObj(At(x, k)) && k in s.fields
    ensures Settles(x.fields[k], s.fields[k])
  {
    AtMerge(x, s, k);
    assert At(x, k) == Some(MergeValue(k, At(x, k), s.fields[k]));
  }

  /** `v` merged with what `s` has at `k`. */
  function Remerged(k: string, v: Json, s: Json): Json {
    if At(s, k).Some? then MergeValue(k, Some(v), s.fields[k]) else v
  }

  /** Editing the target at a key it has, then merging: the edit shows at that key alone. */
  lemma EditThenMerge(x: Json, s: Json, k: string, v: Json)
    requires x.Obj? && s.Obj? && k in x.fields
    ensures Merge(Assign(x, k, v), s) == Assign(Merge(x, s), k, Remerged(k, v, s))
  {
    var edited := Assign(x, k, v);
    var l, r := Merge(edited, s), Assign(Merge(x, s), k, Remerged(k, v, s));
    forall i ensures At(l, i) == At(r, i) {
      AtMerge(edited, s, i);
      AtMerge(x, s, i);
    }
    SameFields(l, r);
  }

  // ----- the blockrun entry -----

  /** What the repair makes of a blockrun overlay that has a base URL. */
  function FixEntry(b: Json): Json
    requires b.Obj?
  {
    if NonEmptyList(At(b, "models")) then b else CompleteBlockrun(b)
  }

  function Filled(o: Option<Json>, text: string): Option<Json> {
    if NonBlank(o) then o else Some(Str(text))
  }

  lemma CompleteAt(b: Json, k: string)
    requires b.Obj?
    ensures At(CompleteBlockrun(b), k) ==
            if k == "models" then Some(Arr([AUTO_MODEL]))
            else if k == "api" then Filled(At(b, k), "openai-completions")
            else if k == "apiKey" then Filled(At(b, k), "x402-proxy-handles-auth")
            else At(b, k)
  {
  }

  lemma CompleteKeys(b: Json)
    requires b.Obj?
    ensures forall k | k in b.keys :: k in CompleteBlockrun(b).keys
    ensures "api" in b.fields && "apiKey" in b.fields && "models" in b.fields ==> CompleteBlockrun(b).keys == b.keys
  {
  }

  lemma FilledIsInk(o: Option<Json>, text: string)
    requires text == "openai-completions" || text == "x402-proxy-handles-auth"
    ensures NonBlank(Filled(o, text))
  {
    assert TrimStart("openai-completions") == "openai-completions" && TrimEnd("openai-completions") == "openai-completions";
    assert TrimStart("x402-proxy-handles-auth") == "x402-proxy-handles-auth";
    assert TrimEnd("x402-proxy-handles-auth") == "x402-proxy-handles-auth";
  }

  /** A default field: merging the patch again keeps it exactly when the patch does not blank it. */
  lemma FieldAgain(b: Json, q: Json, k: string, text: string)
    requires Settles(b, q) && k in q.fields && k != "plugins" && NonBlank(Filled(At(b, k), text))
    ensures var filled := Filled(At(b, k), text);
            var again := MergeValue(k, filled, q.fields[k]);
            (Some(again) == filled <==> !Blanks(q, k)) && Filled(Some(again), text) == filled
  {
    AtMerge(b, q, k);
  }

  lemma EntryAgainAt(b: Json, q: Json, k: string)
    requires Settles(b, q)
    ensures var c := CompleteBlockrun(b); var d := Merge(c, q);
            (k != "api" && k != "apiKey" && k != "models" ==> At(d, k) == At(c, k)) &&
            (k == "models" && k !in q.fields ==> At(d, k) == At(c, k)) &&
            (k == "api" || k == "apiKey" ==> (At(d, k) == At(c, k) <==> !Blanks(q, k))) &&
            (k == "api" ==> Filled(At(d, k), "openai-completions") == At(c, k)) &&
            (k == "apiKey" ==> Filled(At(d, k), "x402-proxy-handles-auth") == At(c, k))
  {
    var c := CompleteBlockrun(b);
    CompleteAt(b, k);
    AtMerge(b, q, k);
    AtMerge(c, q, k);
    FilledIsInk(At(b, "api"), "openai-completions");
    FilledIsInk(At(b, "apiKey"), "x402-proxy-handles-auth");
    if k in q.fields && k == "api" {
      FieldAgain(b, q, k, "openai-completions");
    } else if k in q.fields && k == "apiKey" {
      FieldAgain(b, q, k, "x402-proxy-handles-auth");
    }
  }

  lemma EntryKeys(b: Json, q: Json)
    requires Settles(b, q)
    ensures Merge(CompleteBlockrun(b), q).keys == CompleteBlockrun(b).keys
  {
    SettledKeys(b, q);
    CompleteKeys(b);
    NothingFresh(CompleteBlockrun(b).keys, q.keys);
  }

  /** A completed entry, patched and repaired again, is the same exactly when the patch does not blank a default. */
  lemma EntryAgain(b: Json, q: Json)
    requires Settles(b, q) && !NonEmptyList(At(b, "models"))
    ensures FixEntry(Merge(CompleteBlockrun(b), q)) == CompleteBlockrun(b) <==> !BlanksDefault(q)
  {
    var c := CompleteBlockrun(b);
    var d := Merge(c, q);
    EntryKeys(b, q);
    EntryAgainAt(b, q, "api");
    EntryAgainAt(b, q, "apiKey");
    EntryAgainAt(b, q, "models");
    AtMerge(b, q, "models");
    AtMerge(c, q, "models");
    if "models" in q.fields {
      forall k ensures At(CompleteBlockrun(d), k) == At(c, k) {
        EntryAgainAt(b, q, k);
        CompleteAt(b, k);
        CompleteAt(d, k);
      }
      CompleteAt(b, "api");
      CompleteAt(b, "apiKey");
      CompleteKeys(d);
      SameFields(CompleteBlockrun(d), c);
    } else if !BlanksDefault(q) {
      forall k ensures At(d, k) == At(c, k) {
        EntryAgainAt(b, q, k);
      }
      SameFields(d, c);
    }
  }

  // ----- the providers around it -----

  /** What the repair makes of `models.providers`. */
  function FixProviders(x: Json): (r: Json)
    requires x.Obj?
    ensures r.Obj?
  {
    if !IsObj(At(x, "blockrun")) || NonEmptyList(At(x.fields["blockrun"], "models")) then x
    else if NonBlank(At(x.fields["blockrun"], "baseUrl")) then Assign(x, "blockrun", CompleteBlockrun(x.fields["blockrun"]))
    else Delete(x, "blockrun")
  }

  function RemergedAll(x: Json, s: Option<Json>): Json
    requires x.Obj? && (s.Some? ==> s.value.Obj?)
  {
    if s.Some? then Merge(x, s.value) else x
  }

  lemma {:induction false} WithoutAll(keys: seq<string>, k: string)
    requires forall x | x in keys :: x == k
    ensures Without(keys, k) == []
  {
    if keys != [] {
      assert keys[0] in keys;
      assert forall x | x in keys[1..] :: x in keys;
      WithoutAll(keys[1..], k);
    }
  }

  /** Adding one key back and dropping it again. */
  lemma KeyComesAndGoes(keys: seq<string>, more: seq<string>, k: string)
    requires k !in keys && forall x | x in more :: x in keys || x == k
    ensures Without(AppendNew(keys, more), k) == keys
  {
    FreshMembers(keys, more);
    WithoutEnds(keys, Fresh(keys, more), k);
    WithoutNone(keys, k);
    WithoutAll(Fresh(keys, more), k);
  }

  /** A dropped entry that the patch brings back is dropped again. */
  lemma DroppedAgain(x: Json, s: Json)
    requires Settles(x, s) && Listed(s) && IsObj(At(x, "blockrun"))
    requires !NonEmptyList(At(x.fields["blockrun"], "models")) && !NonBlank(At(x.fields["blockrun"], "baseUrl"))
    ensures FixProviders(Merge(Delete(x, "blockrun"), s)) == Delete(x, "blockrun")
  {
    var dropped := Delete(x, "blockrun");
    var r := Merge(dropped, s);
    WithoutMembers(x.keys, "blockrun");
    SettledKeys(x, s);
    KeyComesAndGoes(dropped.keys, s.keys, "blockrun");
    forall k | k != "blockrun" ensures At(r, k) == At(dropped, k) {
      AtMerge(dropped, s, k);
      AtMerge(x, s, k);
    }
    AtMerge(dropped, s, "blockrun");
    if "blockrun" in s.fields {
      SettledChild(x, s, "blockrun");
      FreshEntryIsInvalid(x.fields["blockrun"], s.fields["blockrun"]);
      assert Delete(r, "blockrun").fields == dropped.fields by {
        forall k ensures At(Delete(r, "blockrun"), k) == At(dropped, k) {
        }
        SameMap(Delete(r, "blockrun"), dropped);
      }
    } else {
      NothingFresh(dropped.keys, s.keys);
      SameFields(r, dropped);
    }
  }

  lemma SameMap(x: Json, y: Json)
    requires x.Obj? && y.Obj? && forall k :: At(x, k) == At(y, k)
    ensures x.fields == y.fields
  {
    SameFields(Obj([], x.fields), Obj([], y.fields)) by {
      forall k ensures At(Obj([], x.fields), k) == At(Obj([], y.fields), k) {
        assert At(x, k) == At(y, k);
      }
    }
  }

  lemma FreshEntryIsInvalid(b: Json, q: Json)
    requires Settles(b, q) && !NonEmptyList(At(b, "models")) && !NonBlank(At(b, "baseUrl"))
    ensures !NonEmptyList(At(Merge(EMPTY, q), "models")) && !NonBlank(At(Merge(EMPTY, q), "baseUrl"))
  {
    AtMerge(b, q, "models");
    AtMerge(b, q, "baseUrl");
    AtMerge(EMPTY, q, "models");
    AtMerge(EMPTY, q, "baseUrl");
  }

  lemma CompletedAgain(x: Json, s: Json)
    requires Settles(x, s) && IsObj(At(x, "blockrun"))
    requires !NonEmptyList(At(x.fields["blockrun"], "models")) && NonBlank(At(x.fields["blockrun"], "baseUrl"))
    ensures FixProviders(Merge(FixProviders(x), s)) == FixProviders(x) <==>
            !(IsObj(At(s, "blockrun")) && BlanksDefault(s.fields["blockrun"]))
  {
    var b := x.fields["blockrun"];
    var c := CompleteBlockrun(b);
    var d := Remerged("blockrun", c, s);
    EditThenMerge(x, s, "blockrun", c);
    CompleteAt(b, "baseUrl");
    if "blockrun" in s.fields {
      SettledChild(x, s, "blockrun");
      EntryAgain(b, s.fields["blockrun"]);
      EntryAgainAt(b, s.fields["blockrun"], "baseUrl");
    } else {
      CompleteIsFixed(b);
    }
    FixedEntry(x, d);
    SameEntry(x, FixEntry(d), c);
  }

  lemma CompleteIsFixed(b: Json)
    requires b.Obj?
    ensures FixEntry(CompleteBlockrun(b)) == CompleteBlockrun(b)
  {
    CompleteAt(b, "models");
  }

  lemma SameEntry(x: Json, d: Json, c: Json)
    requires x.Obj?
    ensures Assign(x, "blockrun", d) == Assign(x, "blockrun", c) <==> d == c
  {
    assert At(Assign(x, "blockrun", d), "blockrun") == Some(d);
    assert At(Assign(x, "blockrun", c), "blockrun") == Some(c);
  }

  lemma FixedEntry(x: Json, d: Json)
    requires x.Obj? && d.Obj? && NonBlank(At(d, "baseUrl"))
    ensures FixProviders(Assign(x, "blockrun", d)) == Assign(x, "blockrun", FixEntry(d))
  {
    var y := Assign(x, "blockrun", d);
    assert y.fields["blockrun"] == d;
    assert y.fields["blockrun" := CompleteBlockrun(d)] == x.fields["blockrun" := CompleteBlockrun(d)];
  }

  lemma ProvidersAgain(x: Json, s: Option<Json>)
    requires x.Obj? && IsObj(At(x, "blockrun")) && !NonEmptyList(At(x.fields["blockrun"], "models"))
    requires s.Some? ==> Settles(x, s.value) && Listed(s.value)
    ensures FixProviders(RemergedAll(FixProviders(x), s)) == FixProviders(x) <==>
            !(NonBlank(At(x.fields["blockrun"], "baseUrl")) && s.Some? && IsObj(At(s.value, "blockrun")) &&
              BlanksDefault(s.value.fields["blockrun"]))
  {
    var b := x.fields["blockrun"];
    if s.Some? {
      if NonBlank(At(b, "baseUrl")) { CompletedAgain(x, s.value); } else { DroppedAgain(x, s.value); }
    } else {
      CompleteAt(b, "models");
      assert At(Assign(x, "blockrun", CompleteBlockrun(b)), "blockrun") == Some(CompleteBlockrun(b));
      assert At(Delete(x, "blockrun"), "blockrun") == None;
    }
  }

  // ----- the whole config -----

  /** The config with other providers. */
  function Put(m: Json, providers: Json): Json
    requires IsObj(At(m, "models"))
  {
    Assign(m, "models", Assign(m.fields["models"], "providers", providers))
  }

  lemma PutTwice(m: Json, x: Json, y: Json)
    requires IsObj(At(m, "models")) && IsObj(At(m.fields["models"], "providers")) && x.Obj?
    ensures Put(m, x) == Put(m, y) <==> x == y
    ensures RepairBlockrun(Put(m, x)) == Put(m, FixProviders(x))
  {
    var models := m.fields["models"];
    assert Put(m, x).fields["models"].fields["providers"] == x;
    assert Put(m, y).fields["models"].fields["providers"] == y;
    var put := Put(m, x);
    var fixed := FixProviders(x);
    assert put.fields["models"] == Assign(models, "providers", x);
    assert Assign(put.fields["models"], "providers", fixed) == Assign(models, "providers", fixed) by {
      assert models.fields["providers" := x]["providers" := fixed] == models.fields["providers" := fixed];
    }
    var edited := Assign(models, "providers", fixed);
    assert m.fields["models" := put.fields["models"]]["models" := edited] == m.fields["models" := edited];
  }

  function PatchedProviders(p: Json): Option<Json> {
    if IsObj(At(p, "models")) then At(p.fields["models"], "providers") else None
  }

  /** The providers of a patch that settles merge with the providers of the config. */
  lemma MergePut(m: Json, p: Json, providers: Json)
    requires Settles(m, p) && IsObj(At(m, "models")) && IsObj(At(m.fields["models"], "providers")) && providers.Obj?
    ensures PatchedProviders(p).Some? ==> Settles(m.fields["models"].fields["providers"], PatchedProviders(p).value)
    ensures Merge(Put(m, providers), p) == Put(m, RemergedAll(providers, PatchedProviders(p)))
  {
    var models := m.fields["models"];
    EditThenMerge(m, p, "models", Assign(models, "providers", providers));
    if "models" in p.fields {
      SettledChild(m, p, "models");
      EditThenMerge(models, p.fields["models"], "providers", providers);
      if "providers" in p.fields["models"].fields {
        SettledChild(models, p.fields["models"], "providers");
      }
    }
  }

  lemma RepairedAgain(m: Json, p: Json)
    requires Settles(m, p) && Parsed(p) && InvalidBlockrun(m)
    ensures RepairBlockrun(Merge(RepairBlockrun(m), p)) == RepairBlockrun(m) <==>
            !(NonBlank(At(m.fields["models"].fields["providers"].fields["blockrun"], "baseUrl")) && HasBlockrun(p) &&
              BlanksDefault(p.fields["models"].fields["providers"].fields["blockrun"]))
  {
    var providers := m.fields["models"].fields["providers"];
    var fixed := FixProviders(providers);
    var s := PatchedProviders(p);
    MergePut(m, p, fixed);
    if s.Some? {
      ParsedChild(p, "models");
      ParsedChild(p.fields["models"], "providers");
    }
    ProvidersAgain(providers, s);
    assert RepairBlockrun(m) == Put(m, fixed);
    PutTwice(m, RemergedAll(fixed, s), fixed);
    PutTwice(m, FixProviders(RemergedAll(fixed, s)), fixed);
  }

  /** A keyed patch is idempotent exactly when it does not undo the repair. */
  lemma PatchTwiceExactly(base: Json, patch: Json)
    requires base.Obj? && patch.Obj? && Keyed(patch) && Parsed(patch)
    ensures MergePatch(MergePatch(base, patch), patch) == MergePatch(base, patch) <==> !UndoesRepair(base, patch)
  {
    var b, p := Normalize(base), Normalize(patch);
    var m := Merge(b, p);
    if InvalidBlockrun(m) {
      NormalizedIsFlat(base);
      NormalizedIsFlat(patch);
      KeyedNormalize(patch);
      ParsedNormalize(patch);
      MergeStaysFlat(b, p);
      NormalizedIsFlat(m);
      RepairKeepsFlat(m);
      NormalizedIsFlat(RepairBlockrun(m));
      MergeStaysFlat(RepairBlockrun(m), p);
      NormalizedIsFlat(Merge(RepairBlockrun(m), p));
      MergeTwice(b, p);
      RepairedAgain(m, p);
    } else {
      PatchTwiceIsOnce(base, patch);
    }
  }
}
