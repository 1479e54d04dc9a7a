/** What merging does to plugins lists: entry by entry, and where lists meet. */
module PluginLaws {
  import opened Json
  import opened ConfigMerge
  import opened MergeLaws
  import opened LastWriter

  /** Entries with one and the same id, which is a text, a number or a boolean. */
  ghost predicate Matches(c: Json, pp: Json) {
    c.Obj? && pp.Obj? && At(c, "id") == At(pp, "id") && At(c, "id").Some? &&
    (At(c, "id").value.Str? || At(c, "id").value.Num? || At(c, "id").value.Bool? || At(c, "id").value.Null?)
  }

  ghost predicate FirstMatch(cur: seq<Json>, pp: Json, i: nat) {
    i < |cur| && Matches(cur[i], pp) && forall j | 0 <= j < i :: !Matches(cur[j], pp)
  }

  lemma SameIdExactly(c: Json, pp: Json)
    ensures SameId(c, pp) <==> Matches(c, pp)
  {
  }

  /** An object entry with an id that is not falsy. */
  ghost predicate Named(pp: Json) {
    pp.Obj? && At(pp, "id") !in {None, Some(Null), Some(Bool(false)), Some(Num(Int(0))), Some(Str(""))}
  }

  /**
   `r` is `pp` laid over `e`: the patch's own keys win, but for `config`, which merges into a config that
   is an object, replaces one that is none or is missing, and leaves a list alone; new keys go last.
   */
  ghost predicate Overlaid(e: Json, pp: Json, r: Json)
    requires e.Obj? && pp.Obj?
  {
    var own, over := At(e, "config"), At(pp, "config");
    r.Obj? &&
    (forall k | k != "config" :: At(r, k) == if At(pp, k).Some? then At(pp, k) else At(e, k)) &&
    At(r, "config") ==
      (if !(over.Some? && over.value.Obj?) || (own.Some? && own.value.Arr?) then own
       else if own.Some? && own.value.Obj? then Some(Merge(own.value, over.value))
       else Some(Merge(Obj([], map[]), over.value))) &&
    |e.keys| <= |r.keys| && r.keys[..|e.keys|] == e.keys
  }

  lemma OverlayExactly(e: Json, pp: Json)
    requires e.Obj? && pp.Obj?
    ensures Overlaid(e, pp, Overlay(e, pp))
  {
    var e' := if IsObj(At(pp, "config")) && !IsArr(At(e, "config"))
              then Assign(e, "config", Merge(ObjOrEmpty(At(e, "config")), pp.fields["config"]))
              else e;
    assert Overlay(e, pp) == Obj(AppendNew(e'.keys, Without(pp.keys, "config")), e'.fields + (pp.fields - {"config"}));
    assert e'.keys[..|e.keys|] == e.keys;
  }

  /** One patch entry: skipped without an id, laid over the first entry with its id in place, else put at the end. */
  lemma StepExactly(cur: seq<Json>, pp: Json)
    ensures !Named(pp) ==> MergePlugins(cur, [pp]) == cur
    ensures Named(pp) && (forall c | c in cur :: !Matches(c, pp)) ==> MergePlugins(cur, [pp]) == cur + [pp]
    ensures forall i: nat | Named(pp) && FirstMatch(cur, pp, i) ::
              var r := MergePlugins(cur, [pp]);
              |r| == |cur| && Overlaid(cur[i], pp, r[i]) && forall j | 0 <= j < |cur| && j != i :: r[j] == cur[j]
  {
    var i := FindId(cur, pp);
    assert MergePlugins(cur, [pp]) == MergePlugin(cur, pp) by { assert [pp][1..] == []; }
    assert Named(pp) <==> Admissible(pp);
    forall j | 0 <= j < |cur| ensures SameId(cur[j], pp) <==> Matches(cur[j], pp) {
      SameIdExactly(cur[j], pp);
    }
    if i < |cur| {
      assert cur[i] in cur;
      if Named(pp) { OverlayExactly(cur[i], pp); }
      assert forall n: nat | FirstMatch(cur, pp, n) :: n == i;
    }
  }

  /** The entries of a patch are merged one after the other. */
  lemma {:induction false} EntriesInOrder(cur: seq<Json>, a: seq<Json>, b: seq<Json>)
    ensures MergePlugins(cur, []) == cur
    ensures MergePlugins(cur, a + b) == MergePlugins(MergePlugins(cur, a), b)
    decreases |a|
  {
    if a == [] {
      assert a + b == b;
    } else {
      assert (a + b)[1..] == a[1..] + b && (a + b)[0] == a[0];
      EntriesInOrder(MergePlugin(cur, a[0]), a[1..], b);
    }
  }

  function ListOf(s: Shape): seq<Json> {
    if s.Leaf? && s.value.Arr? then s.value.items else []
  }

  /** What merging makes of a path: lists named "plugins" merge, everything else the source has replaces what was there. */
  lemma {:induction false} MergeEverywhere(t: Json, s: Json, path: seq<string>)
    requires t.Obj? && s.Obj? && path != []
    ensures var before, w := ShapeAt(t, path), WriteOf(s, path);
            ShapeAt(Merge(t, s), path) ==
            if w.None? then before
            else if path[|path| - 1] == "plugins" && w.value.Leaf? && w.value.value.Arr?
              then Leaf(Arr(MergePlugins(ListOf(before), w.value.value.items)))
            else w.value
    decreases path
  {
    var k := path[0];
    AtMerge(t, s, k);
    if k in s.fields {
      if |path| == 1 {
        assert path[1..] == [];
      } else if s.fields[k].Obj? {
        MergeEverywhere(ObjOrEmpty(At(t, k)), s.fields[k], path[1..]);
      }
    }
  }
}
