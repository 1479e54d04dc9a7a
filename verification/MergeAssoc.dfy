/** When merging is associative: a patch can be put into a fragment first, or on top of the result. */
module MergeAssoc {
  import opened Json
  import opened KeyLists
  import opened ConfigMerge
  import opened MergeLaws
  import opened ParsedConfigs
  import opened PatchTwice

  /** `c` puts an object only where `b` has an object or nothing, and a plugins list likewise; so do plugin configs. */
  ghost predicate Tight(b: Json, c: Json)
    requires b.Obj? && c.Obj?
    decreases c, 0
  {
    forall k | k in b.fields && k in c.fields :: TightAt(k, b.fields[k], c.fields[k])
  }

  ghost predicate TightAt(k: string, v: Json, w: Json)
    decreases w, 1
  {
    if k == "plugins" && w.Arr? then v.Arr? && forall q | q in w.items :: TightEntry(v.items, q)
    else w.Obj? ==> v.Obj? && Tight(v, w)
  }

  ghost predicate TightEntry(cur: seq<Json>, q: Json)
    decreases q, 2
  {
    Admissible(q) && FindId(cur, q) < |cur| ==> TightConfig(cur[FindId(cur, q)], q)
  }

  /** A `config` goes over another one it is tight on, or into an entry with nothing else to its id. */
  ghost predicate TightConfig(p: Json, q: Json)
    decreases q, 1
  {
    IsObj(At(q, "config")) ==>
      !IsArr(At(p, "config")) && if IsObj(At(p, "config")) then Tight(p.fields["config"], q.fields["config"]) else OnlyId(p)
  }

  predicate OnlyId(p: Json) {
    p.Obj? && forall k | k in p.keys :: k == "id" || k == "config"
  }

  // ----- key lists -----

  lemma {:induction false} FreshEnds(keys: seq<string>, a: seq<string>, b: seq<string>)
    ensures Fresh(keys, a + b) == Fresh(keys, a) + Fresh(keys, b)
  {
    if a == [] {
      assert a + b == b;
    } else {
      assert (a + b)[1..] == a[1..] + b;
      FreshEnds(keys, a[1..], b);
    }
  }

  lemma {:induction false} FreshFresh(a: seq<string>, b: seq<string>, c: seq<string>)
    ensures Fresh(AppendNew(a, b), c) == Fresh(a, Fresh(b, c))
  {
    FreshMembers(a, b);
    if c != [] {
      FreshFresh(a, b, c[1..]);
      assert c[0] in AppendNew(a, b) <==> c[0] in a || c[0] in b;
      if c[0] !in b {
        assert ([c[0]] + Fresh(b, c[1..]))[1..] == Fresh(b, c[1..]);
      }
    }
  }

  lemma AppendAssoc(a: seq<string>, b: seq<string>, c: seq<string>)
    ensures AppendNew(AppendNew(a, b), c) == AppendNew(a, AppendNew(b, c))
  {
    FreshFresh(a, b, c);
    FreshEnds(a, b, Fresh(b, c));
    assert (a + Fresh(a, b)) + Fresh(a, Fresh(b, c)) == a + (Fresh(a, b) + Fresh(a, Fresh(b, c)));
  }

  lemma {:induction false} FreshWithout(keys: seq<string>, more: seq<string>, k: string)
    requires k !in more
    ensures Fresh(Without(keys, k), more) == Fresh(keys, more)
  {
    WithoutMembers(keys, k);
    if more != [] {
      FreshWithout(keys, more[1..], k);
    }
  }

  lemma {:induction false} WithoutEnds(a: seq<string>, b: seq<string>, k: string)
    ensures Without(a + b, k) == Without(a, k) + Without(b, k)
  {
    if a == [] {
      assert a + b == b;
    } else {
      assert (a + b)[1..] == a[1..] + b;
      WithoutEnds(a[1..], b, k);
    }
  }

  lemma {:induction false} WithoutNone(keys: seq<string>, k: string)
    requires k !in keys
    ensures Without(keys, k) == keys
  {
    if keys != [] {
      WithoutNone(keys[1..], k);
      assert keys == [keys[0]] + keys[1..];
    }
  }

  /** Dropping a key that only the first list can have. */
  lemma WithoutAppend(keys: seq<string>, more: seq<string>, k: string)
    requires k !in more
    ensures Without(AppendNew(keys, more), k) == AppendNew(Without(keys, k), more)
  {
    FreshMembers(keys, more);
    WithoutEnds(keys, Fresh(keys, more), k);
    WithoutNone(Fresh(keys, more), k);
    FreshWithout(keys, more, k);
  }

  // ----- one plugin entry over another -----

  /** The keys an entry has after a patch's `config` went in. */
  function ConfigKeys(e: Json, q: Json): seq<string>
    requires e.Obj?
  {
    if IsObj(At(q, "config")) && !IsArr(At(e, "config")) && "config" !in e.fields then e.keys + ["config"] else e.keys
  }

  lemma OverlayKeys(e: Json, q: Json)
    requires e.Obj? && q.Obj?
    ensures Overlay(e, q).keys == AppendNew(ConfigKeys(e, q), Without(q.keys, "config"))
  {
  }

  /** What an entry's `config` becomes. */
  function ConfigOver(e: Option<Json>, q: Option<Json>): Option<Json> {
    if IsObj(q) && !IsArr(e) then Some(Merge(ObjOrEmpty(e), q.value)) else e
  }

  lemma OverlayAt(e: Json, q: Json, k: string)
    requires e.Obj? && q.Obj?
    ensures At(Overlay(e, q), k) ==
            if k == "config" then ConfigOver(At(e, k), At(q, k)) else if k in q.fields then At(q, k) else At(e, k)
  {
  }

  lemma OverlayKeysAssoc(e: Json, d: Json, c: Json)
    requires e.Obj? && d.Obj? && c.Obj? && (IsObj(At(c, "config")) ==> IsObj(At(d, "config")))
    ensures Overlay(Overlay(e, d), c).keys == Overlay(e, Overlay(d, c)).keys
  {
    var first, both := Overlay(e, d), Overlay(d, c);
    var d', c' := Without(d.keys, "config"), Without(c.keys, "config");
    OverlayKeys(e, d);
    OverlayKeys(d, c);
    OverlayKeys(first, c);
    OverlayKeys(e, both);
    OverlayAt(e, d, "config");
    OverlayAt(d, c, "config");
    WithoutMembers(c.keys, "config");
    WithoutAppend(d.keys, c', "config");
    AppendAssoc(ConfigKeys(e, d), d', c');
    assert ConfigKeys(d, c) == d.keys;
    assert ConfigKeys(first, c) == first.keys;
    assert ConfigKeys(e, both) == ConfigKeys(e, d);
  }

  /** The same when the first patch has nothing but the id. */
  lemma OnlyIdKeysAssoc(e: Json, d: Json, c: Json)
    requires e.Obj? && d.Obj? && c.Obj? && "id" in e.keys && OnlyId(d)
    requires IsObj(At(c, "config")) && !IsObj(At(d, "config")) && !IsArr(At(d, "config"))
    ensures Overlay(Overlay(e, d), c).keys == Overlay(e, Overlay(d, c)).keys
  {
    var first, both := Overlay(e, d), Overlay(d, c);
    var d', c' := Without(d.keys, "config"), Without(c.keys, "config");
    OverlayKeys(e, d);
    OverlayKeys(d, c);
    OverlayKeys(first, c);
    OverlayKeys(e, both);
    OverlayAt(e, d, "config");
    OverlayAt(d, c, "config");
    WithoutMembers(d.keys, "config");
    WithoutMembers(c.keys, "config");
    NothingFresh(e.keys, d');
    assert first.keys == e.keys;
    WithoutAppend(ConfigKeys(d, c), c', "config");
    WithoutConfig(d, c);
    NothingFresh(ConfigKeys(e, c), d');
    AppendAssoc(ConfigKeys(e, c), d', c');
    assert ConfigKeys(first, c) == ConfigKeys(e, c);
    assert ConfigKeys(e, both) == ConfigKeys(e, c);
  }

  lemma WithoutConfig(d: Json, c: Json)
    requires d.Obj?
    ensures Without(ConfigKeys(d, c), "config") == Without(d.keys, "config")
  {
    WithoutEnds(d.keys, ["config"], "config");
    assert Without(["config"], "config") == Without([], "config") == [];
  }

  lemma {:induction false} ConfigAssoc(e: Option<Json>, d: Option<Json>, c: Json)
    requires c.Obj? && !IsArr(d) && Keyed(ObjOrEmpty(d)) && Keyed(c) && Tight(ObjOrEmpty(d), c)
    requires Parsed(ObjOrEmpty(e)) && Parsed(ObjOrEmpty(d)) && Parsed(c)
    ensures ConfigOver(ConfigOver(e, d), Some(c)) == ConfigOver(e, ConfigOver(d, Some(c)))
    decreases c, 1
  {
    var x, y := ObjOrEmpty(e), ObjOrEmpty(d);
    MergeIsAssociative(x, y, c);
    if IsObj(d) {
      BothConfigs(e, y, c);
    } else {
      MergeNothing(x);
      NewConfig(e, d, c, y);
    }
  }

  lemma BothConfigs(e: Option<Json>, d: Json, c: Json)
    requires d.Obj? && c.Obj? && Merge(Merge(ObjOrEmpty(e), d), c) == Merge(ObjOrEmpty(e), Merge(d, c))
    ensures ConfigOver(ConfigOver(e, Some(d)), Some(c)) == ConfigOver(e, ConfigOver(Some(d), Some(c)))
  {
  }

  lemma NewConfig(e: Option<Json>, d: Option<Json>, c: Json, y: Json)
    requires c.Obj? && !IsObj(d) && !IsArr(d) && y == ObjOrEmpty(d) && Merge(ObjOrEmpty(e), c) == Merge(ObjOrEmpty(e), Merge(y, c))
    ensures ConfigOver(ConfigOver(e, d), Some(c)) == ConfigOver(e, ConfigOver(d, Some(c)))
  {
    assert ConfigOver(e, d) == e && ConfigOver(d, Some(c)) == Some(Merge(y, c));
  }

  lemma ParsedConfig(e: Json)
    requires Parsed(e) && e.Obj?
    ensures Parsed(ObjOrEmpty(At(e, "config")))
  {
    if IsObj(At(e, "config")) { ParsedChild(e, "config"); }
  }

  /** The configs of two entries, the second over the first, are as the laws of merging need them. */
  lemma ConfigsFit(d: Json, c: Json)
    requires d.Obj? && c.Obj? && KeyedConfig(d) && KeyedConfig(c) && TightConfig(d, c) && IsObj(At(c, "config"))
    ensures var dc, cc := ObjOrEmpty(At(d, "config")), c.fields["config"];
            !IsArr(At(d, "config")) && Keyed(dc) && Keyed(cc) && Tight(dc, cc)
  {
  }

  lemma {:induction false} ConfigAt(e: Json, d: Json, c: Json)
    requires e.Obj? && d.Obj? && c.Obj? && KeyedConfig(d) && KeyedConfig(c) && TightConfig(d, c)
    requires Parsed(e) && Parsed(d) && Parsed(c)
    ensures ConfigOver(ConfigOver(At(e, "config"), At(d, "config")), At(c, "config")) ==
            ConfigOver(At(e, "config"), ConfigOver(At(d, "config"), At(c, "config")))
    decreases c, 1
  {
    if IsObj(At(c, "config")) {
      ParsedConfig(e);
      ParsedConfig(d);
      ParsedConfig(c);
      ConfigsFit(d, c);
      ConfigAssoc(At(e, "config"), At(d, "config"), c.fields["config"]);
    }
  }

  lemma {:induction false} OverlayAssoc(e: Json, d: Json, c: Json)
    requires e.Obj? && d.Obj? && c.Obj? && KeyedConfig(d) && KeyedConfig(c) && TightConfig(d, c)
    requires At(e, "id").Some? && Parsed(e) && Parsed(d) && Parsed(c)
    ensures Overlay(Overlay(e, d), c) == Overlay(e, Overlay(d, c))
    decreases c, 2
  {
    if IsObj(At(c, "config")) && !IsObj(At(d, "config")) {
      OnlyIdKeysAssoc(e, d, c);
    } else {
      OverlayKeysAssoc(e, d, c);
    }
    var l, r := Overlay(Overlay(e, d), c), Overlay(e, Overlay(d, c));
    ConfigAt(e, d, c);
    forall k ensures At(l, k) == At(r, k) {
      OverlayAt(e, d, k);
      OverlayAt(Overlay(e, d), c, k);
      OverlayAt(d, c, k);
      OverlayAt(e, Overlay(d, c), k);
    }
    SameFields(l, r);
  }

  lemma SameFields(x: Json, y: Json)
    requires x.Obj? && y.Obj? && x.keys == y.keys && forall k :: At(x, k) == At(y, k)
    ensures x == y
  {
    forall k ensures k in x.fields <==> k in y.fields {
      assert At(x, k) == At(y, k);
    }
    forall k | k in x.fields ensures x.fields[k] == y.fields[k] {
      assert At(x, k) == At(y, k);
    }
    assert x.fields == y.fields;
  }

  // ----- one entry after a list -----

  lemma {:induction false} PluginsSnoc(cur: seq<Json>, patch: seq<Json>, q: Json)
    ensures MergePlugins(cur, patch + [q]) == MergePlugin(MergePlugins(cur, patch), q)
    decreases patch
  {
    if patch == [] {
      assert patch + [q] == [q] && [q][1..] == [];
      assert MergePlugins(cur, [q]) == MergePlugins(MergePlugin(cur, q), []);
    } else {
      assert (patch + [q])[1..] == patch[1..] + [q];
      PluginsSnoc(MergePlugin(cur, patch[0]), patch[1..], q);
    }
  }

  lemma {:induction false} PluginsEnds(cur: seq<Json>, a: seq<Json>, b: seq<Json>)
    ensures MergePlugins(cur, a + b) == MergePlugins(MergePlugins(cur, a), b)
    decreases a
  {
    if a == [] {
      assert a + b == b;
    } else {
      assert (a + b)[1..] == a[1..] + b;
      PluginsEnds(MergePlugin(cur, a[0]), a[1..], b);
    }
  }

  /** Where an entry with the id of `c` sits after `q`, of another id, was merged. */
  lemma FindAfterOther(cur: seq<Json>, q: Json, c: Json)
    requires Admissible(q) && Admissible(c) && !SameId(q, c)
    ensures var next := MergePlugin(cur, q);
            if FindId(cur, c) < |cur|
            then FindId(next, c) == FindId(cur, c) && next[FindId(cur, c)] == cur[FindId(cur, c)]
            else FindId(next, c) == |next|
  {
    var next, i, m := MergePlugin(cur, q), FindId(cur, c), FindId(cur, q);
    if m < |cur| { OverlayKeepsId(cur[m], q); }
    forall j | 0 <= j < |next| ensures SameId(next[j], c) <==> j < |cur| && SameId(cur[j], c) {
    }
  }

  /** Entries of different ids can be merged in either order when the second finds its place already. */
  lemma SwapEntries(cur: seq<Json>, q: Json, c: Json)
    requires Admissible(c) && FindId(cur, c) < |cur| && (Admissible(q) ==> !SameId(q, c) && !SameId(c, q))
    ensures MergePlugin(MergePlugin(cur, c), q) == MergePlugin(MergePlugin(cur, q), c)
    ensures FindId(MergePlugin(cur, q), c) < |MergePlugin(cur, q)|
  {
    if Admissible(q) {
      FindAfterOther(cur, q, c);
      FindAfterOther(cur, c, q);
    }
  }

  lemma {:induction false} SwapList(cur: seq<Json>, rest: seq<Json>, c: Json)
    requires Admissible(c) && FindId(cur, c) < |cur|
    requires forall q | q in rest && Admissible(q) :: !SameId(q, c) && !SameId(c, q)
    ensures MergePlugins(MergePlugin(cur, c), rest) == MergePlugin(MergePlugins(cur, rest), c)
    decreases rest
  {
    if rest != [] {
      assert rest[0] in rest;
      assert forall q | q in rest[1..] :: q in rest;
      SwapEntries(cur, rest[0], c);
      SwapList(MergePlugin(cur, rest[0]), rest[1..], c);
    }
  }

  /** An entry and its patch entries all find the same place. */
  lemma SamePlace(cur: seq<Json>, d: Json, c: Json)
    requires Admissible(d) && Admissible(c) && SameId(d, c)
    ensures var i, next := FindId(cur, d), MergePlugin(cur, d);
            FindId(next, c) == i < |next| && FindId(cur, Overlay(d, c)) == i
  {
    OverlayKeepsId(d, c);
    var i := FindId(cur, d);
    var next := MergePlugin(cur, d);
    if i < |cur| { OverlayKeepsId(cur[i], d); }
    forall j | 0 <= j < |cur| ensures SameId(cur[j], d) <==> SameId(cur[j], c) {
    }
    assert forall j | 0 <= j < i :: !SameId(next[j], c);
    assert SameId(next[i], c);
  }

  /** Merging an entry into its own patch entry first, or after it. */
  lemma {:induction false} EntryAssoc(cur: seq<Json>, d: Json, c: Json)
    requires Admissible(d) && Admissible(c) && SameId(d, c) && KeyedConfig(d) && KeyedConfig(c) && TightConfig(d, c)
    requires (FindId(cur, d) < |cur| ==> Parsed(cur[FindId(cur, d)])) && Parsed(d) && Parsed(c)
    ensures MergePlugin(cur, Overlay(d, c)) == MergePlugin(MergePlugin(cur, d), c)
    ensures FindId(MergePlugin(cur, d), c) < |MergePlugin(cur, d)|
    decreases c, 3
  {
    OverlayKeepsId(d, c);
    SamePlace(cur, d, c);
    var i := FindId(cur, d);
    if i < |cur| { OverlayAssoc(cur[i], d, c); }
  }

  /** A list merged around one of its entries. */
  lemma PluginsAround(cur: seq<Json>, before: seq<Json>, d: Json, rest: seq<Json>)
    ensures MergePlugins(cur, before + [d] + rest) == MergePlugins(MergePlugin(MergePlugins(cur, before), d), rest)
  {
    PluginsEnds(cur, before + [d], rest);
    PluginsSnoc(cur, before, d);
  }

  lemma OthersDiffer(list: seq<Json>, i: nat, c: Json)
    requires KeyedList(list) && i < |list| && Admissible(list[i]) && Admissible(c) && SameId(list[i], c)
    ensures forall q | q in list[i + 1..] && Admissible(q) :: !SameId(q, c) && !SameId(c, q)
  {
    var rest := list[i + 1..];
    forall j | 0 <= j < |rest| && Admissible(rest[j]) ensures !SameId(rest[j], c) && !SameId(c, rest[j]) {
      assert rest[j] == list[i + 1 + j];
    }
  }

  /** What the place of `c` in a keyed list is like. */
  lemma PlaceInList(list: seq<Json>, c: Json)
    requires KeyedList(list) && AllParsed(list) && Admissible(c) && FindId(list, c) < |list|
    ensures var i := FindId(list, c);
            Admissible(list[i]) && KeyedConfig(list[i]) && Parsed(list[i]) && AllParsed(list[..i])
  {
    assert list[FindId(list, c)] in list;
  }

  lemma SplitAt<T>(list: seq<T>, i: nat, x: T)
    requires i < |list|
    ensures list == list[..i] + [list[i]] + list[i + 1..] && list[i := x] == list[..i] + [x] + list[i + 1..]
  {
  }

  /** Merging into a list and then an entry, or the list with the entry already merged into it. */
  lemma {:induction false} EntryAfterList(cur: seq<Json>, list: seq<Json>, c: Json)
    requires KeyedList(list) && TightEntry(list, c) && (Admissible(c) ==> KeyedConfig(c) && SameId(c, c))
    requires AllParsed(cur) && AllParsed(list) && Parsed(c)
    ensures MergePlugins(cur, MergePlugin(list, c)) == MergePlugin(MergePlugins(cur, list), c)
    decreases c, 5
  {
    var i := FindId(list, c);
    if Admissible(c) && i == |list| {
      PluginsSnoc(cur, list, c);
    } else if Admissible(c) {
      PlaceInList(list, c);
      OthersDiffer(list, i, c);
      InnerEntry(cur, list[..i], list[i], list[i + 1..], c);
      SplitAt(list, i, Overlay(list[i], c));
    }
  }

  lemma {:induction false} InnerEntry(cur: seq<Json>, before: seq<Json>, d: Json, rest: seq<Json>, c: Json)
    requires Admissible(d) && Admissible(c) && SameId(d, c) && KeyedConfig(d) && KeyedConfig(c) && TightConfig(d, c)
    requires forall q | q in rest && Admissible(q) :: !SameId(q, c) && !SameId(c, q)
    requires AllParsed(cur) && AllParsed(before) && Parsed(d) && Parsed(c)
    ensures MergePlugins(cur, before + [Overlay(d, c)] + rest) == MergePlugin(MergePlugins(cur, before + [d] + rest), c)
    decreases c, 4
  {
    var cur' := MergePlugins(cur, before);
    PluginsAround(cur, before, d, rest);
    PluginsAround(cur, before, Overlay(d, c), rest);
    ParsedPlugins(cur, before);
    EntryAssoc(cur', d, c);
    SwapList(MergePlugin(cur', d), rest, c);
  }

  lemma {:induction false} TightStays(list: seq<Json>, others: seq<Json>, c: Json)
    requires TightEntry(list, c) && (Admissible(c) ==> forall q | q in others && Admissible(q) :: !SameId(q, c))
    ensures TightEntry(MergePlugins(list, others), c)
    decreases others
  {
    if others != [] && Admissible(c) {
      var q := others[0];
      assert q in others;
      assert forall x | x in others[1..] :: x in others;
      if Admissible(q) { FindAfterOther(list, q, c); }
      TightStays(MergePlugin(list, q), others[1..], c);
    }
  }

  lemma {:induction false} PluginsAssoc(a: seq<Json>, b: seq<Json>, c: seq<Json>)
    requires KeyedList(b) && KeyedList(c) && forall q | q in c :: TightEntry(b, q)
    requires AllParsed(a) && AllParsed(b) && AllParsed(c)
    ensures MergePlugins(MergePlugins(a, b), c) == MergePlugins(a, MergePlugins(b, c))
    decreases c, 6
  {
    if c != [] {
      var n := |c| - 1;
      var init, last := c[..n], c[n];
      assert c == init + [last] && last in c;
      assert forall q | q in init :: q in c;
      KeyedInit(c);
      PluginsAssoc(a, b, init);
      PluginsSnoc(MergePlugins(a, b), init, last);
      PluginsSnoc(b, init, last);
      KeyedPlugins(b, init);
      TightStays(b, init, last);
      ParsedPlugins(b, init);
      EntryAfterList(a, MergePlugins(b, init), last);
    }
  }

  lemma KeyedInit(c: seq<Json>)
    requires KeyedList(c) && c != []
    ensures var n := |c| - 1;
            KeyedList(c[..n]) && (Admissible(c[n]) ==> SameId(c[n], c[n]) && KeyedConfig(c[n])) &&
            (Admissible(c[n]) ==> forall q | q in c[..n] && Admissible(q) :: !SameId(q, c[n]))
  {
    var n := |c| - 1;
    assert c[n] in c;
    assert forall q | q in c[..n] :: q in c;
  }

  // ----- whole configs -----

  lemma {:induction false} ValueAssoc(k: string, cur: Option<Json>, v: Json, w: Json)
    requires KeyedAt(k, v) && KeyedAt(k, w) && TightAt(k, v, w)
    requires (cur.Some? ==> Parsed(cur.value)) && Parsed(v) && Parsed(w)
    ensures MergeValue(k, Some(MergeValue(k, cur, v)), w) == MergeValue(k, cur, MergeValue(k, Some(v), w))
    decreases w, 7
  {
    if k == "plugins" && w.Arr? {
      PluginsAssoc(ItemsOf(cur), v.items, w.items);
    } else if w.Obj? {
      MergeIsAssociative(ObjOrEmpty(cur), v, w);
    }
  }

  /** The same when the fragment has nothing at the key. */
  lemma {:induction false} ValueAlone(k: string, cur: Option<Json>, w: Json)
    requires KeyedAt(k, w) && (cur.Some? ==> Parsed(cur.value)) && Parsed(w)
    ensures MergeValue(k, cur, w) == MergeValue(k, cur, MergeValue(k, None, w))
    decreases w, 7
  {
    if k == "plugins" && w.Arr? {
      PluginsAssoc(ItemsOf(cur), [], w.items);
    } else if w.Obj? {
      MergeIsAssociative(ObjOrEmpty(cur), EMPTY, w);
      MergeNothing(ObjOrEmpty(cur));
    }
  }

  /** Merging is associative when the last config is tight on the one before it. */
  lemma {:induction false} MergeIsAssociative(a: Json, b: Json, c: Json)
    requires a.Obj? && b.Obj? && c.Obj? && Keyed(b) && Keyed(c) && Tight(b, c)
    requires Parsed(a) && Parsed(b) && Parsed(c)
    ensures Merge(Merge(a, b), c) == Merge(a, Merge(b, c))
    decreases c, 0
  {
    AppendAssoc(a.keys, b.keys, c.keys);
    var l, r := Merge(Merge(a, b), c), Merge(a, Merge(b, c));
    forall k ensures At(l, k) == At(r, k) {
      AtMerge(a, b, k);
      AtMerge(Merge(a, b), c, k);
      AtMerge(b, c, k);
      AtMerge(a, Merge(b, c), k);
      if k in a.fields { ParsedChild(a, k); }
      if k in c.fields {
        ParsedChild(c, k);
        assert KeyedAt(k, c.fields[k]);
        if k in b.fields {
          ParsedChild(b, k);
          assert KeyedAt(k, b.fields[k]) && TightAt(k, b.fields[k], c.fields[k]);
          ValueAssoc(k, At(a, k), b.fields[k], c.fields[k]);
        } else {
          ValueAlone(k, At(a, k), c.fields[k]);
        }
      }
    }
    SameFields(l, r);
  }
}
