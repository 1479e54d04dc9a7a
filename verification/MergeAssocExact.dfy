/** Merging is associative over every target exactly when the last config is tight on the one before it. */
module MergeAssocExact {
  import opened Json
  import opened KeyLists
  import opened ConfigMerge
  import opened MergeLaws
  import opened MergeAssoc
  import opened ParsedConfigs
  import opened PatchTwice
  import opened TwoPaths

  /** A target on which the two ways of merging differ. */
  ghost predicate Splits(a: Json, b: Json, c: Json)
    requires b.Obj? && c.Obj?
  {
    a.Obj? && Parsed(a) && Merge(Merge(a, b), c) != Merge(a, Merge(b, c))
  }

  // ----- following one entry through a list -----

  lemma {:induction false} EntryStays(cur: seq<Json>, list: seq<Json>, i: nat)
    requires i < |cur| && forall q | q in list && Admissible(q) :: !SameId(cur[i], q)
    ensures i < |MergePlugins(cur, list)| && MergePlugins(cur, list)[i] == cur[i]
    decreases list
  {
    if list != [] {
      assert list[0] in list && forall q | q in list[1..] :: q in list;
      EntryStays(MergePlugin(cur, list[0]), list[1..], i);
    }
  }

  lemma {:induction false} FindAfterOthers(cur: seq<Json>, others: seq<Json>, c: Json)
    requires Admissible(c) && FindId(cur, c) < |cur| && forall q | q in others && Admissible(q) :: !SameId(q, c)
    ensures var r := MergePlugins(cur, others);
            FindId(r, c) == FindId(cur, c) && FindId(r, c) < |r| && r[FindId(r, c)] == cur[FindId(cur, c)]
    decreases others
  {
    if others != [] {
      assert others[0] in others && forall q | q in others[1..] :: q in others;
      if Admissible(others[0]) { FindAfterOther(cur, others[0], c); }
      FindAfterOthers(MergePlugin(cur, others[0]), others[1..], c);
    }
  }

  lemma OthersBefore(list: seq<Json>, j: nat)
    requires KeyedList(list) && j < |list| && Admissible(list[j])
    ensures forall q | q in list[..j] && Admissible(q) :: !SameId(q, list[j])
  {
  }

  /** The entry that an element of a keyed list finds gets that element, and no other. */
  lemma EntryGets(cur: seq<Json>, list: seq<Json>, j: nat)
    requires KeyedList(list) && j < |list| && Admissible(list[j]) && FindId(cur, list[j]) < |cur|
    ensures var i, r := FindId(cur, list[j]), MergePlugins(cur, list);
            i < |r| && r[i] == Overlay(cur[i], list[j]) && SameId(r[i], list[j])
  {
    var i := FindId(cur, list[j]);
    var first := MergePlugins(cur, list[..j]);
    OthersBefore(list, j);
    FindAfterOthers(cur, list[..j], list[j]);
    assert list[j] in list;
    OthersDiffer(list, j, list[j]);
    OverlayKeepsId(cur[i], list[j]);
    assert list == list[..j] + [list[j]] + list[j + 1..];
    PluginsAround(cur, list[..j], list[j], list[j + 1..]);
    EntryStays(MergePlugin(first, list[j]), list[j + 1..], i);
  }

  // ----- plugins lists -----

  /** An entry with the id of `d` alone: what the two ways make of it is what they make of the list that holds it. */
  lemma ListSplits(e: Json, v: seq<Json>, w: seq<Json>, j: nat)
    requires KeyedList(v) && KeyedList(w) && j < |w| && Admissible(w[j]) && FindId(v, w[j]) < |v|
    requires e.Obj? && At(e, "id") == At(v[FindId(v, w[j])], "id")
    requires var d := v[FindId(v, w[j])]; Overlay(Overlay(e, d), w[j]) != Overlay(e, Overlay(d, w[j]))
    ensures MergePlugins(MergePlugins([e], v), w) != MergePlugins([e], MergePlugins(v, w))
  {
    var i := FindId(v, w[j]);
    var d, q := v[i], w[j];
    assert Admissible(d) && FindId([e], d) == 0;
    EntryGets([e], v, i);
    var first := MergePlugins([e], v);
    assert FindId(first, q) == 0;
    EntryGets(first, w, j);
    EntryGets(v, w, j);
    var both := MergePlugins(v, w);
    KeyedPlugins(v, w);
    OverlayKeepsId(d, q);
    assert FindId([e], both[i]) == 0;
    EntryGets([e], both, i);
  }

  /** What the two ways of overlaying make of an entry's `config`. */
  lemma ConfigSplits(e: Json, d: Json, q: Json)
    requires e.Obj? && d.Obj? && q.Obj?
    requires ConfigOver(ConfigOver(At(e, "config"), At(d, "config")), At(q, "config")) !=
             ConfigOver(At(e, "config"), ConfigOver(At(d, "config"), At(q, "config")))
    ensures Overlay(Overlay(e, d), q) != Overlay(e, Overlay(d, q))
  {
    OverlayAt(e, d, "config");
    OverlayAt(Overlay(e, d), q, "config");
    OverlayAt(d, q, "config");
    OverlayAt(e, Overlay(d, q), "config");
  }

  function WithConfig(id: Json, config: Json): Json {
    Obj(["id", "config"], map["id" := id, "config" := config])
  }

  lemma IdEntryParsed(id: Json, config: Json)
    requires Parsed(id) && Parsed(config)
    ensures Parsed(One("id", id)) && Parsed(WithConfig(id, config))
  {
  }

  lemma LooseConfigSplits(id: Json, d: Json, q: Json, inner: Json)
    requires d.Obj? && q.Obj? && IsObj(At(q, "config")) && IsObj(At(d, "config"))
    requires Splits(inner, d.fields["config"], q.fields["config"])
    ensures var e := WithConfig(id, inner); Overlay(Overlay(e, d), q) != Overlay(e, Overlay(d, q))
  {
    ConfigSplits(WithConfig(id, inner), d, q);
  }

  lemma ListConfigSplits(id: Json, d: Json, q: Json)
    requires d.Obj? && q.Obj? && IsObj(At(q, "config")) && IsArr(At(d, "config"))
    ensures var e := One("id", id); Overlay(Overlay(e, d), q) != Overlay(e, Overlay(d, q))
  {
    ConfigSplits(One("id", id), d, q);
  }

  /** An entry on which the two ways of overlaying differ. */
  lemma EntrySplits(d: Json, q: Json, inner: Json) returns (e: Json)
    requires Admissible(d) && Admissible(q) && Parsed(d) && Parsed(inner) && IsObj(At(q, "config"))
    requires !IsObj(At(d, "config")) && !IsArr(At(d, "config")) ==> !OnlyId(d)
    requires IsObj(At(d, "config")) ==> Splits(inner, d.fields["config"], q.fields["config"])
    ensures e.Obj? && Parsed(e) && At(e, "id") == At(d, "id") && Overlay(Overlay(e, d), q) != Overlay(e, Overlay(d, q))
  {
    var id := d.fields["id"];
    ParsedChild(d, "id");
    IdEntryParsed(id, inner);
    if IsObj(At(d, "config")) {
      e := WithConfig(id, inner);
      LooseConfigSplits(id, d, q, inner);
    } else if IsArr(At(d, "config")) {
      e := One("id", id);
      ListConfigSplits(id, d, q);
    } else {
      e := One("id", id);
      LaterConfig(e, d, q);
    }
  }

  /** Without a config in between, the new one comes after the other keys of `d`, or before them. */
  lemma LaterConfig(e: Json, d: Json, q: Json)
    requires e.Obj? && e.keys == ["id"] && "config" !in e.fields && d.Obj? && q.Obj? && !OnlyId(d)
    requires IsObj(At(q, "config")) && !IsObj(At(d, "config")) && !IsArr(At(d, "config"))
    ensures Overlay(Overlay(e, d), q).keys != Overlay(e, Overlay(d, q)).keys
  {
    var first, both := Overlay(e, d), Overlay(d, q);
    var d' := Without(d.keys, "config");
    OverlayKeys(e, d);
    OverlayKeys(first, q);
    OverlayKeys(e, both);
    OverlayAt(e, d, "config");
    OverlayAt(d, q, "config");
    var x :| x in d.keys && x != "id" && x != "config";
    WithoutMembers(d.keys, "config");
    FreshMembers(["id"], d');
    assert x in Fresh(["id"], d');
    assert first.keys[1] == Fresh(["id"], d')[0] && Fresh(["id"], d')[0] in Fresh(["id"], d');
    assert Overlay(first, q).keys[1] == first.keys[1];
    assert Overlay(e, both).keys[1] == "config";
  }

  lemma {:induction false} NullStays(list: seq<Json>)
    ensures MergePlugins([Null], list) != [] && MergePlugins([Null], list)[0] == Null
  {
    EntryStays([Null], list, 0);
  }

  // ----- whole configs -----

  /** Where the values at one key of a target split, so does the target. */
  lemma KeySplits(k: string, x: Json, b: Json, c: Json)
    requires b.Obj? && c.Obj? && Parsed(x) && k in b.fields && k in c.fields
    requires MergeValue(k, Some(MergeValue(k, Some(x), b.fields[k])), c.fields[k]) !=
             MergeValue(k, Some(x), MergeValue(k, Some(b.fields[k]), c.fields[k]))
    ensures Splits(One(k, x), b, c)
  {
    OneParsed(k, x);
    ValuesAt(One(k, x), b, c, k);
  }

  lemma ValuesAt(a: Json, b: Json, c: Json, k: string)
    requires a.Obj? && b.Obj? && c.Obj? && k in b.fields && k in c.fields
    ensures At(Merge(Merge(a, b), c), k) == Some(MergeValue(k, Some(MergeValue(k, At(a, k), b.fields[k])), c.fields[k]))
    ensures At(Merge(a, Merge(b, c)), k) == Some(MergeValue(k, At(a, k), MergeValue(k, Some(b.fields[k]), c.fields[k])))
  {
    AtMerge(a, b, k);
    AtMerge(Merge(a, b), c, k);
    AtMerge(b, c, k);
    AtMerge(a, Merge(b, c), k);
  }

  /** A plugins list over something else forgets the target's list, or keeps it. */
  lemma NoListSplits(v: Json, w: seq<Json>)
    requires !v.Arr?
    ensures var x := Some(Arr([Null]));
            MergeValue("plugins", Some(MergeValue("plugins", x, v)), Arr(w)) !=
            MergeValue("plugins", x, MergeValue("plugins", Some(v), Arr(w)))
  {
    NullStays(MergePlugins([], w));
    CleanPlugins([], w);
    var l := MergePlugins([], w);
    if l != [] {
      assert l[0] in l && Admissible(l[0]);
    }
  }

  /** An object over a plain value forgets the target's object, or keeps it. */
  lemma NoObjectSplits(k: string, v: Json, w: Json) returns (x: Json)
    requires w.Obj? && !v.Obj? && Parsed(w)
    ensures Parsed(x)
    ensures MergeValue(k, Some(MergeValue(k, Some(x), v)), w) != MergeValue(k, Some(x), MergeValue(k, Some(v), w))
  {
    var z := LongerKey(w.keys);
    x := One(z, Null);
    AtMerge(EMPTY, w, z);
    AtMerge(x, Merge(EMPTY, w), z);
  }

  /** The element of a plugins list that is not tight. */
  lemma LooseElement(v: seq<Json>, w: seq<Json>) returns (j: nat)
    requires !(forall q | q in w :: TightEntry(v, q))
    ensures j < |w| && !TightEntry(v, w[j])
  {
    var q :| q in w && !TightEntry(v, q);
    j :| j < |w| && w[j] == q;
  }

  /** Where `c` is not tight on `b`, some target splits. */
  lemma {:induction false} LooseSplits(b: Json, c: Json) returns (a: Json)
    requires b.Obj? && c.Obj? && Keyed(b) && Keyed(c) && Parsed(b) && Parsed(c) && !Tight(b, c)
    ensures Splits(a, b, c)
    decreases c, 0
  {
    var k :| k in b.fields && k in c.fields && !TightAt(k, b.fields[k], c.fields[k]);
    ParsedChild(b, k);
    ParsedChild(c, k);
    assert KeyedAt(k, b.fields[k]) && KeyedAt(k, c.fields[k]);
    var x := LooseValueSplits(k, b.fields[k], c.fields[k]);
    KeySplits(k, x, b, c);
    a := One(k, x);
  }

  lemma {:induction false} LooseValueSplits(k: string, v: Json, w: Json) returns (x: Json)
    requires KeyedAt(k, v) && KeyedAt(k, w) && Parsed(v) && Parsed(w) && !TightAt(k, v, w)
    ensures Parsed(x)
    ensures MergeValue(k, Some(MergeValue(k, Some(x), v)), w) != MergeValue(k, Some(x), MergeValue(k, Some(v), w))
    decreases w, 1
  {
    if k == "plugins" && w.Arr? {
      if v.Arr? {
        var e := LooseListSplits(v.items, w.items);
        x := Arr([e]);
      } else {
        x := Arr([Null]);
        NoListSplits(v, w.items);
      }
    } else if v.Obj? {
      x := LooseSplits(v, w);
    } else {
      x := NoObjectSplits(k, v, w);
    }
  }

  lemma {:induction false} LooseListSplits(v: seq<Json>, w: seq<Json>) returns (e: Json)
    requires KeyedList(v) && KeyedList(w) && AllParsed(v) && AllParsed(w) && !(forall q | q in w :: TightEntry(v, q))
    ensures Parsed(e) && MergePlugins(MergePlugins([e], v), w) != MergePlugins([e], MergePlugins(v, w))
    decreases w
  {
    var j := LooseElement(v, w);
    var d, q := v[FindId(v, w[j])], w[j];
    assert d in v && q in w;
    var inner := EMPTY;
    if IsObj(At(d, "config")) {
      ParsedChild(d, "config");
      ParsedChild(q, "config");
      inner := LooseSplits(d.fields["config"], q.fields["config"]);
    }
    e := EntrySplits(d, q, inner);
    ListSplits(e, v, w, j);
  }

  /** Merging is associative over every parsed target exactly when `c` is tight on `b`. */
  lemma AssociativeExactly(b: Json, c: Json)
    requires b.Obj? && c.Obj? && Keyed(b) && Keyed(c) && Parsed(b) && Parsed(c)
    ensures (forall a: Json | a.Obj? && Parsed(a) :: Merge(Merge(a, b), c) == Merge(a, Merge(b, c))) <==> Tight(b, c)
  {
    if Tight(b, c) {
      forall a: Json | a.Obj? && Parsed(a) ensures Merge(Merge(a, b), c) == Merge(a, Merge(b, c)) {
        MergeIsAssociative(a, b, c);
      }
    } else {
      var a := LooseSplits(b, c);
      assert Splits(a, b, c);
    }
  }
}
