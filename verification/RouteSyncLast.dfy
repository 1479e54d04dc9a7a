/** Route sync when no fragment comes after its own, and the patch is tight on that. */
module RouteSyncLast {
  import opened Json
  import opened KeyLists
  import opened ConfigMerge
  import opened MergeAssoc
  import opened ParsedConfigs
  import opened PatchTwice
  import opened PatchTwiceExact
  import opened RouteSync
  import opened TwoPaths

  /** Parsed JSON with keyed plugins lists, where the patch is tight on the fragment. */
  ghost predicate Inputs(before: seq<Json>, fragment: Json, patch: Json) {
    AllParsed(before) && fragment.Obj? && Parsed(fragment) && Keyed(fragment) &&
    patch.Obj? && Parsed(patch) && Keyed(patch) && Tight(Normalize(fragment), Normalize(patch))
  }

  function LastParts(before: seq<Json>, fragment: Json, patch: Json): (s: Parts)
    requires fragment.Obj? && patch.Obj?
    ensures PartsOk(s)
  {
    PartsOf(before, fragment, [], patch)
  }

  /** Without repairs it does not matter whether the patch goes into the fragment or on top. */
  lemma OneConfig(before: seq<Json>, fragment: Json, patch: Json)
    requires Inputs(before, fragment, patch)
    ensures var s := LastParts(before, fragment, patch); PatchedFirst(s) == PatchedLast(s)
  {
    KeyedNormalize(fragment);
    KeyedNormalize(patch);
    LastAreParsed(before, fragment, patch);
    ParsedNormalize(fragment);
    MergeIsAssociative(Fold(before), Normalize(fragment), Normalize(patch));
  }

  lemma LastAreParsed(before: seq<Json>, fragment: Json, patch: Json)
    requires Inputs(before, fragment, patch)
    ensures var s := LastParts(before, fragment, patch); Parsed(s.x) && Parsed(s.y) && Parsed(s.c) && Parsed(s.p)
  {
    ParsedFold(before);
    ParsedNormalize(fragment);
    ParsedNormalize(patch);
    ParsedMerge(Fold(before), Normalize(fragment));
    ParsedMerge(Normalize(fragment), Normalize(patch));
  }

  /** When neither the composed config nor the patched fragment needs the repair, the targets agree. */
  lemma AgreeWhenBothValid(before: seq<Json>, fragment: Json, patch: Json)
    requires Inputs(before, fragment, patch)
    requires var s := LastParts(before, fragment, patch); !InvalidBlockrun(s.y) && !InvalidBlockrun(s.c)
    ensures FragmentTarget(before, fragment, [], patch) == MergedTarget(before, fragment, [], patch)
  {
    OneConfig(before, fragment, patch);
    AgreeWhenValidAndSame(before, fragment, [], patch);
  }

  // ----- the order of the providers -----

  /** Taking a key out and merging a list keeps its place in the order. */
  predicate KeepsPlace(keys: seq<string>, more: seq<string>) {
    AppendNew(Without(keys, "blockrun"), more) == AppendNew(keys, more)
  }

  function KeysIn(s: Option<Json>): seq<string> {
    if IsObj(s) then s.value.keys else []
  }

  lemma RemergedKeys(x: Json, s: Option<Json>)
    requires x.Obj? && (s.Some? ==> s.value.Obj?)
    ensures RemergedAll(x, s).keys == AppendNew(x.keys, KeysIn(s))
  {
  }

  lemma {:induction false} FreshSkips(keys: seq<string>, more: seq<string>, k: string)
    requires k in keys
    ensures Fresh(keys, Without(more, k)) == Fresh(keys, more)
  {
    if more != [] {
      FreshSkips(keys, more[1..], k);
      if more[0] != k {
        assert ([more[0]] + Without(more[1..], k))[1..] == Without(more[1..], k);
      }
    }
  }

  lemma {:induction false} FreshWithoutBoth(keys: seq<string>, more: seq<string>, k: string)
    ensures Without(Fresh(keys, more), k) == Without(Fresh(Without(keys, k), more), k)
  {
    WithoutMembers(keys, k);
    if more != [] {
      FreshWithoutBoth(keys, more[1..], k);
      var rest, rest' := Fresh(keys, more[1..]), Fresh(Without(keys, k), more[1..]);
      assert ([more[0]] + rest)[1..] == rest && ([more[0]] + rest')[1..] == rest';
    }
  }

  lemma WithoutTwice(keys: seq<string>, more: seq<string>, k: string)
    ensures Without(AppendNew(Without(keys, k), more), k) == Without(AppendNew(keys, more), k)
  {
    WithoutMembers(keys, k);
    WithoutNone(Without(keys, k), k);
    WithoutEnds(Without(keys, k), Fresh(Without(keys, k), more), k);
    WithoutEnds(keys, Fresh(keys, more), k);
    FreshWithoutBoth(keys, more, k);
  }

  /** The providers of the merged target, key by key. */
  lemma MergedKeys(y: Json, s: Option<Json>)
    requires y.Obj? && (s.Some? ==> s.value.Obj?) && Listed(y) && (s.Some? ==> Listed(s.value))
    ensures var z := FixProviders(RemergedAll(FixProviders(y), s));
            z.keys == if At(z, "blockrun").None? then Without(AppendNew(y.keys, KeysIn(s)), "blockrun")
                      else AppendNew(FixProviders(y).keys, KeysIn(s))
  {
    var inner := RemergedAll(FixProviders(y), s);
    FixKeys(y);
    RemergedKeys(FixProviders(y), s);
    FixKeys(inner);
    FixAt(inner, "blockrun");
    WithoutTwice(y.keys, KeysIn(s), "blockrun");
    if At(inner, "blockrun").None? {
      RemergedAt(FixProviders(y), s, "blockrun");
      FixAt(y, "blockrun");
      FreshMembers(FixProviders(y).keys, KeysIn(s));
      WithoutMembers(y.keys, "blockrun");
      WithoutNone(inner.keys, "blockrun");
    }
  }

  /** The providers of the fragment target, key by key. */
  lemma FragmentKeys(x: Json, c: Option<Json>)
    requires x.Obj? && (c.Some? ==> c.value.Obj?) && Listed(x) && (c.Some? ==> Listed(c.value))
    ensures var z := FixProviders(RemergedAll(x, if c.Some? then Some(FixProviders(c.value)) else None));
            z.keys == if At(z, "blockrun").None? then Without(AppendNew(x.keys, KeysIn(c)), "blockrun")
                      else AppendNew(x.keys, KeysIn(c))
  {
    var fixed := if c.Some? then Some(FixProviders(c.value)) else None;
    var inner := RemergedAll(x, fixed);
    RemergedKeys(x, fixed);
    RemergedAt(x, fixed, "blockrun");
    FixKeys(inner);
    FixAt(inner, "blockrun");
    FreshMembers(x.keys, KeysIn(c));
    if c.Some? {
      FixKeys(c.value);
      FixAt(c.value, "blockrun");
      if KeysIn(fixed) != KeysIn(c) { DroppedKeys(x.keys, KeysIn(c)); }
    }
    if At(inner, "blockrun").None? {
      FreshMembers(x.keys, KeysIn(fixed));
      if c.Some? { WithoutMembers(c.value.keys, "blockrun"); }
      WithoutNone(inner.keys, "blockrun");
    }
  }

  lemma DroppedKeys(keys: seq<string>, more: seq<string>)
    ensures "blockrun" in keys ==> AppendNew(keys, Without(more, "blockrun")) == AppendNew(keys, more)
    ensures Without(AppendNew(keys, Without(more, "blockrun")), "blockrun") == Without(AppendNew(keys, more), "blockrun")
  {
    if "blockrun" in keys {
      FreshSkips(keys, more, "blockrun");
    } else {
      WithoutFresh(keys, more, "blockrun");
      WithoutEnds(keys, Fresh(keys, more), "blockrun");
      WithoutEnds(keys, Fresh(keys, Without(more, "blockrun")), "blockrun");
    }
  }

  lemma {:induction false} WithoutFresh(keys: seq<string>, more: seq<string>, k: string)
    ensures Without(Fresh(keys, Without(more, k)), k) == Without(Fresh(keys, more), k)
  {
    if more != [] {
      WithoutFresh(keys, more[1..], k);
      var rest, rest' := Fresh(keys, more[1..]), Fresh(keys, Without(more[1..], k));
      assert ([more[0]] + rest)[1..] == rest && ([more[0]] + rest')[1..] == rest';
      assert ([more[0]] + Without(more[1..], k))[1..] == Without(more[1..], k);
    }
  }

  lemma ListedProviders(j: Json)
    requires Parsed(j)
    ensures Listed(ProvidersOf(j)) && (ProvidersIn(j).Some? ==> Listed(ProvidersIn(j).value))
  {
    if HasProviders(j) {
      ParsedChild(j, "models");
      ParsedChild(j.fields["models"], "providers");
    }
  }

  // ----- the condition on the entry -----

  /**
   The condition on the blockrun entry: repaired before and after the patch, or in the
   fragment and after composing, it ends the same; and if the first repair drops it and
   the patch brings it back, it comes back in its old place.
   */
  predicate LastEntriesMeet(s: Parts) {
    var merged := RepairedEntry(JoinedEntry(RepairedEntry(Entry(s.y)), Entry(s.p)));
    merged == RepairedEntry(JoinedEntry(Entry(s.x), RepairedEntry(Entry(s.c)))) &&
    (merged.Some? && Entry(s.y).Some? && RepairedEntry(Entry(s.y)).None? ==>
      KeepsPlace(ProvidersOf(s.y).keys, ProvidersOf(s.p).keys))
  }

  ghost predicate LastOk(s: Parts) {
    PartsOk(s) && s.later == [] && PatchedFirst(s) == PatchedLast(s) && HasProviders(PatchedLast(s)) &&
    Parsed(s.x) && Parsed(s.y) && Parsed(s.c) && Parsed(s.p)
  }

  /** The two orders, when both targets end with the same entry. */
  lemma OrdersMeet(s: Parts)
    requires LastOk(s) && RepairedEntry(MergedEntry(s)) == RepairedEntry(FragmentEntry(s))
    ensures MergedOrder(s) == FragmentOrder(s) <==>
              (RepairedEntry(MergedEntry(s)).Some? && Entry(s.y).Some? && RepairedEntry(Entry(s.y)).None? ==>
                KeepsPlace(ProvidersOf(s.y).keys, ProvidersOf(s.p).keys))
  {
    PatchKeepsProviders(s.y, s.p);
    PatchKeepsProviders(s.x, s.c);
    ListedProviders(s.x);
    ListedProviders(s.y);
    ListedProviders(s.c);
    ListedProviders(s.p);
    MergedProviders(s);
    FragmentProvidersAre(s);
    MergedKeys(ProvidersOf(s.y), ProvidersIn(s.p));
    FragmentKeys(ProvidersOf(s.x), ProvidersIn(s.c));
    RemergedKeys(ProvidersOf(s.y), ProvidersIn(s.p));
    RemergedKeys(ProvidersOf(s.x), ProvidersIn(s.c));
    FixKeys(ProvidersOf(s.y));
  }

  /**
   With no fragment after it, the two targets give the same config exactly when the merged
   config has no providers at all or the blockrun entries meet.
   */
  lemma LastFragmentExactly(before: seq<Json>, fragment: Json, patch: Json)
    requires Inputs(before, fragment, patch)
    ensures var s := LastParts(before, fragment, patch);
            FragmentTarget(before, fragment, [], patch) == MergedTarget(before, fragment, [], patch) <==>
            !HasProviders(PatchedLast(s)) || LastEntriesMeet(s)
  {
    OneConfig(before, fragment, patch);
    LastAreParsed(before, fragment, patch);
    RouteSyncExactly(before, fragment, [], patch);
    LastMeet(LastParts(before, fragment, patch));
  }

  lemma LastMeet(s: Parts)
    requires PartsOk(s) && s.later == [] && PatchedFirst(s) == PatchedLast(s)
    requires Parsed(s.x) && Parsed(s.y) && Parsed(s.c) && Parsed(s.p)
    ensures SameAround(PatchedFirst(s), PatchedLast(s))
    ensures HasProviders(PatchedLast(s)) ==> (EntriesMeet(s) <==> LastEntriesMeet(s))
  {
    if HasProviders(PatchedLast(s)) && RepairedEntry(MergedEntry(s)) == RepairedEntry(FragmentEntry(s)) {
      OrdersMeet(s);
    }
  }
}
