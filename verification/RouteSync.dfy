/**
 Route sync puts a patch into its own fragment and composes, or into the composed
 config. The two targets give the same config exactly when, without repairs, the
 merges agree around the blockrun entry, and three repairs of that entry commute.
 */
module RouteSync {
  import opened Json
  import opened ConfigMerge
  import opened MergeLaws
  import opened MergeAssoc
  import opened PatchTwiceExact
  import opened RepairRoute
  import opened TwoPaths

  /** Target `fragment`: the patch goes into the route-sync fragment, which is composed in its place. */
  function FragmentTarget(before: seq<Json>, fragment: Json, after: seq<Json>, patch: Json): Json
    requires fragment.Obj? && patch.Obj?
  {
    MergeOrdered(before + [MergePatch(fragment, patch)] + after)
  }

  /** Target `merged`: the patch goes into the config composed so far. */
  function MergedTarget(before: seq<Json>, fragment: Json, after: seq<Json>, patch: Json): Json
    requires fragment.Obj? && patch.Obj?
  {
    MergePatch(MergeOrdered(before + [fragment] + after), patch)
  }

  /** A fragment the validator refuses after the merge is one whose `models.models` is stuck. */
  lemma RefusedExactly(fragment: Json, patch: Json)
    requires fragment.Obj? && patch.Obj?
    ensures InvalidModels(MergePatch(fragment, patch)) <==> Stuck(Merge(Normalize(fragment), Normalize(patch)))
  {
    var c := Merge(Normalize(fragment), Normalize(patch));
    NormalizeNested(c);
    RepairedIsValid(Normalize(c));
    RepairKeepsNested(Normalize(c));
  }

  // ----- both targets without their repairs -----

  /** The fold over fragments, started from a config. */
  function FoldOn(base: Json, later: seq<Json>): (out: Json)
    requires base.Obj?
    ensures out.Obj?
  {
    if later == [] then base
    else
      var out := FoldOn(base, later[..|later| - 1]);
      var last := later[|later| - 1];
      if last.Obj? then Merge(out, Normalize(last)) else out
  }

  lemma {:induction false} FoldEnds(before: seq<Json>, after: seq<Json>)
    ensures Fold(before + after) == FoldOn(Fold(before), after)
  {
    if after == [] {
      assert before + after == before;
    } else {
      var n := |after| - 1;
      assert (before + after)[..|before| + n] == before + after[..n];
      FoldEnds(before, after[..n]);
    }
  }

  lemma {:induction false} FoldOnFlat(base: Json, later: seq<Json>)
    requires base.Obj? && !Hoistable(base)
    ensures !Hoistable(FoldOn(base, later))
  {
    if later != [] {
      var n := |later| - 1;
      FoldOnFlat(base, later[..n]);
      NormalizedIsFlat(later[n]);
      if later[n].Obj? { MergeStaysFlat(FoldOn(base, later[..n]), Normalize(later[n])); }
    }
  }

  /**
   What both targets start from: the fragments composed before the route-sync fragment, the
   patched fragment, the later fragments, the whole config composed, and the patch.
   */
  datatype Parts = Parts(x: Json, c: Json, later: seq<Json>, y: Json, p: Json)

  predicate PartsOk(s: Parts) {
    s.x.Obj? && s.c.Obj? && s.y.Obj? && s.p.Obj?
  }

  function PartsOf(before: seq<Json>, fragment: Json, after: seq<Json>, patch: Json): (s: Parts)
    requires fragment.Obj? && patch.Obj?
    ensures PartsOk(s)
  {
    var x, g, p := Fold(before), Normalize(fragment), Normalize(patch);
    Parts(x, Merge(g, p), after, FoldOn(Merge(x, g), after), p)
  }

  /** The fragment target as it would be without repairs. */
  function PatchedFirst(s: Parts): (r: Json)
    requires PartsOk(s)
    ensures r.Obj?
  {
    FoldOn(Merge(s.x, s.c), s.later)
  }

  /** The merged target as it would be without repairs. */
  function PatchedLast(s: Parts): (r: Json)
    requires PartsOk(s)
    ensures r.Obj?
  {
    Merge(s.y, s.p)
  }

  lemma MergedUnfolds(before: seq<Json>, fragment: Json, after: seq<Json>, patch: Json)
    requires fragment.Obj? && patch.Obj?
    ensures var s := PartsOf(before, fragment, after, patch);
            MergedTarget(before, fragment, after, patch) == RepairBlockrun(Merge(RepairBlockrun(s.y), s.p))
  {
    var s := PartsOf(before, fragment, after, patch);
    FoldSnoc(before, fragment);
    FoldEnds(before + [fragment], after);
    FoldIsFlat(before + [fragment] + after);
    NormalizedIsFlat(s.y);
    NormalizedIsFlat(patch);
    FlatRepaired(s.y);
    MergeStaysFlat(RepairBlockrun(s.y), s.p);
    NormalizedIsFlat(Merge(RepairBlockrun(s.y), s.p));
  }

  lemma FragmentUnfolds(before: seq<Json>, fragment: Json, after: seq<Json>, patch: Json)
    requires fragment.Obj? && patch.Obj?
    ensures var s := PartsOf(before, fragment, after, patch);
            FragmentTarget(before, fragment, after, patch) == RepairBlockrun(FoldOn(Merge(s.x, RepairBlockrun(s.c)), after))
  {
    var s := PartsOf(before, fragment, after, patch);
    NormalizedIsFlat(fragment);
    NormalizedIsFlat(patch);
    MergeStaysFlat(Normalize(fragment), s.p);
    NormalizedIsFlat(s.c);
    FlatRepaired(s.c);
    FoldSnoc(before, RepairBlockrun(s.c));
    FoldEnds(before + [RepairBlockrun(s.c)], after);
    FoldIsFlat(before + [RepairBlockrun(s.c)] + after);
    NormalizedIsFlat(Fold(before + [RepairBlockrun(s.c)] + after));
  }

  lemma FlatRepaired(j: Json)
    requires !Hoistable(j)
    ensures !Hoistable(RepairBlockrun(j)) && Normalize(RepairBlockrun(j)) == RepairBlockrun(j)
  {
    RepairKeepsFlat(j);
    NormalizedIsFlat(RepairBlockrun(j));
  }

  lemma FoldSnoc(fragments: seq<Json>, last: Json)
    requires last.Obj?
    ensures Fold(fragments + [last]) == Merge(Fold(fragments), Normalize(last))
  {
    assert (fragments + [last])[..|fragments|] == fragments;
  }

  /** A fragment file that is missing counts as an empty one. */
  lemma MissingFragment(before: seq<Json>)
    ensures MergeOrdered(before + [EMPTY]) == MergeOrdered(before)
  {
    FoldSnoc(before, EMPTY);
    MergeNothing(Fold(before));
  }

  // ----- down to `models.providers` -----

  function ProvidersOf(j: Json): (r: Json)
    ensures r.Obj?
  {
    if HasProviders(j) then Providers(j) else EMPTY
  }

  function ProvidersIn(j: Json): Option<Json> {
    if HasProviders(j) then Some(Providers(j)) else None
  }

  /** Repairing is fixing the providers. */
  lemma RepairIsFix(j: Json)
    requires j.Obj?
    ensures HasProviders(j) ==> RepairBlockrun(j) == Put(j, FixProviders(Providers(j))) && Put(j, Providers(j)) == j
    ensures !HasProviders(j) ==> RepairBlockrun(j) == j
  {
    if HasProviders(j) {
      var models := j.fields["models"];
      assert models.fields["providers" := Providers(j)] == models.fields;
      assert j.fields["models" := models] == j.fields;
      PutTwice(j, Providers(j), Providers(j));
    }
  }

  /** When the merged config has providers, neither side replaced them or `models` by something else. */
  lemma PatchKeepsProviders(y: Json, p: Json)
    requires y.Obj? && p.Obj? && HasProviders(Merge(y, p))
    ensures "models" in p.fields ==> IsObj(At(p, "models"))
    ensures PatchedProviders(p).Some? ==> HasProviders(p) && PatchedProviders(p) == Some(Providers(p))
    ensures Providers(Merge(y, p)) == RemergedAll(ProvidersOf(y), ProvidersIn(p))
  {
    AtMerge(y, p, "models");
    if "models" in p.fields {
      var ym := ObjOrEmpty(At(y, "models"));
      AtMerge(ym, p.fields["models"], "providers");
    }
  }

  /** Merging a patch into a config with other providers. */
  lemma PatchOther(y: Json, p: Json, providers: Json)
    requires y.Obj? && p.Obj? && HasProviders(y) && providers.Obj?
    ensures Merge(Put(y, providers), p) ==
            if HasProviders(Merge(y, p)) then Put(Merge(y, p), RemergedAll(providers, ProvidersIn(p))) else Merge(y, p)
  {
    var models, m := y.fields["models"], Merge(y, p);
    var edited := Assign(models, "providers", providers);
    EditThenMerge(y, p, "models", edited);
    AtMerge(y, p, "models");
    if IsObj(At(p, "models")) {
      EditThenMerge(models, p.fields["models"], "providers", providers);
      AtMerge(models, p.fields["models"], "providers");
      if !HasProviders(m) {
        SameAssign(Merge(models, p.fields["models"]), "providers");
        SameAssign(m, "models");
      }
    } else if "models" in p.fields {
      SameAssign(m, "models");
    }
  }

  lemma SameAssign(j: Json, k: string)
    requires j.Obj? && k in j.fields
    ensures Assign(j, k, j.fields[k]) == j
  {
    assert j.fields[k := j.fields[k]] == j.fields;
  }

  lemma MergedSide(y: Json, p: Json)
    requires y.Obj? && p.Obj?
    ensures var m := Merge(y, p);
            RepairBlockrun(Merge(RepairBlockrun(y), p)) ==
            if HasProviders(m) then Put(m, FixProviders(RemergedAll(FixProviders(ProvidersOf(y)), ProvidersIn(p)))) else m
  {
    var m := Merge(y, p);
    RepairIsFix(y);
    if HasProviders(m) { PatchKeepsProviders(y, p); }
    if HasProviders(y) {
      PatchOther(y, p, FixProviders(Providers(y)));
      if HasProviders(m) {
        var z := RemergedAll(FixProviders(Providers(y)), ProvidersIn(p));
        PutTwice(m, z, z);
      }
    }
    RepairIsFix(m);
  }

  /** Merging a fragment with other providers onto a config. */
  lemma FragmentOther(x: Json, c: Json, providers: Json)
    requires x.Obj? && c.Obj? && HasProviders(c) && providers.Obj?
    ensures HasProviders(Merge(x, c))
    ensures Merge(x, Put(c, providers)) == Put(Merge(x, c), Merge(ProvidersOf(x), providers))
  {
    var xm, cm := ObjOrEmpty(At(x, "models")), c.fields["models"];
    AtMerge(x, c, "models");
    AtMerge(xm, cm, "providers");
    MergeEdited(x, c, "models", Assign(cm, "providers", providers));
    MergeEdited(xm, cm, "providers", providers);
  }

  lemma MergeEdited(x: Json, c: Json, k: string, v: Json)
    requires x.Obj? && c.Obj? && k in c.fields
    ensures Merge(x, Assign(c, k, v)) == Assign(Merge(x, c), k, MergeValue(k, At(x, k), v))
  {
    var l, r := Merge(x, Assign(c, k, v)), Assign(Merge(x, c), k, MergeValue(k, At(x, k), v));
    forall i ensures At(l, i) == At(r, i) {
      AtMerge(x, Assign(c, k, v), i);
      AtMerge(x, c, i);
    }
    SameFields(l, r);
  }

  /** The providers after later fragments, had `base` had the providers `z` instead. */
  function LaterProviders(base: Json, z: Json, later: seq<Json>): (r: Json)
    requires base.Obj? && z.Obj?
    ensures r.Obj?
  {
    if later == [] then z
    else
      var out := FoldOn(base, later[..|later| - 1]);
      var now := LaterProviders(base, z, later[..|later| - 1]);
      var last := later[|later| - 1];
      if !last.Obj? then now
      else if HasProviders(out) then RemergedAll(now, ProvidersIn(Normalize(last)))
      else ProvidersOf(Merge(out, Normalize(last)))
  }

  lemma {:induction false} LaterPut(base: Json, z: Json, later: seq<Json>)
    requires base.Obj? && HasProviders(base) && z.Obj?
    ensures var r := FoldOn(base, later);
            FoldOn(Put(base, z), later) == if HasProviders(r) then Put(r, LaterProviders(base, z, later)) else r
  {
    if later != [] {
      var n := |later| - 1;
      LaterPut(base, z, later[..n]);
      var out, last := FoldOn(base, later[..n]), later[n];
      if last.Obj? {
        if HasProviders(out) {
          PatchOther(out, Normalize(last), LaterProviders(base, z, later[..n]));
        } else {
          RepairIsFix(Merge(out, Normalize(last)));
        }
      }
    }
  }

  /** Later fragments on a config without providers. */
  lemma {:induction false} LaterFresh(base: Json, later: seq<Json>)
    requires base.Obj? && !HasProviders(base)
    ensures HasProviders(FoldOn(base, later)) ==> LaterProviders(base, EMPTY, later) == Providers(FoldOn(base, later))
  {
    if later != [] {
      var n := |later| - 1;
      LaterFresh(base, later[..n]);
      var out, last := FoldOn(base, later[..n]), later[n];
      if last.Obj? && HasProviders(out) && HasProviders(Merge(out, Normalize(last))) {
        PatchKeepsProviders(out, Normalize(last));
      }
    }
  }

  /** The providers of the patched fragment, repaired and put on those composed before it. */
  function FragmentProviders(s: Parts): (r: Json)
    requires PartsOk(s)
    ensures r.Obj?
  {
    RemergedAll(ProvidersOf(s.x), FixedIn(s.c))
  }

  function FixedIn(j: Json): (r: Option<Json>)
    ensures r.Some? ==> r.value.Obj?
  {
    if HasProviders(j) then Some(FixProviders(Providers(j))) else None
  }

  lemma FragmentBase(s: Parts)
    requires PartsOk(s)
    ensures var m := Merge(s.x, s.c);
            Merge(s.x, RepairBlockrun(s.c)) == if HasProviders(m) then Put(m, FragmentProviders(s)) else m
  {
    var m := Merge(s.x, s.c);
    RepairIsFix(s.c);
    RepairIsFix(m);
    if HasProviders(s.c) {
      FragmentOther(s.x, s.c, FixProviders(Providers(s.c)));
    } else if HasProviders(m) {
      PatchKeepsProviders(s.x, s.c);
    }
  }

  /** The providers of the fragment target before its last repair. */
  function ComposedProviders(s: Parts): (r: Json)
    requires PartsOk(s)
    ensures r.Obj?
  {
    var m := Merge(s.x, s.c);
    LaterProviders(m, if HasProviders(m) then FragmentProviders(s) else EMPTY, s.later)
  }

  lemma FragmentSide(s: Parts)
    requires PartsOk(s)
    ensures var u := PatchedFirst(s);
            RepairBlockrun(FoldOn(Merge(s.x, RepairBlockrun(s.c)), s.later)) ==
            if HasProviders(u) then Put(u, FixProviders(ComposedProviders(s))) else u
  {
    var m, u := Merge(s.x, s.c), PatchedFirst(s);
    FragmentBase(s);
    RepairIsFix(u);
    if HasProviders(m) {
      LaterPut(m, FragmentProviders(s), s.later);
      if HasProviders(u) { PutTwice(u, ComposedProviders(s), EMPTY); }
    } else {
      LaterFresh(m, s.later);
    }
  }

  // ----- down to the blockrun entry -----

  /** What the repair makes of the blockrun entry. */
  function RepairedEntry(e: Option<Json>): Option<Json> {
    if !IsObj(e) || NonEmptyList(At(e.value, "models")) then e
    else if NonBlank(At(e.value, "baseUrl")) then Some(CompleteBlockrun(e.value))
    else None
  }

  /** An entry with what a patch has for it. */
  function JoinedEntry(e: Option<Json>, q: Option<Json>): Option<Json> {
    if q.Some? then Some(MergeValue("blockrun", e, q.value)) else e
  }

  function Entry(j: Json): Option<Json> {
    At(ProvidersOf(j), "blockrun")
  }

  lemma FixAt(x: Json, k: string)
    requires x.Obj?
    ensures At(FixProviders(x), k) == if k == "blockrun" then RepairedEntry(At(x, k)) else At(x, k)
  {
  }

  lemma FixKeys(x: Json)
    requires x.Obj?
    ensures FixProviders(x).keys ==
            if At(x, "blockrun").Some? && RepairedEntry(At(x, "blockrun")).None? then Without(x.keys, "blockrun") else x.keys
  {
  }

  lemma RemergedAt(x: Json, s: Option<Json>, k: string)
    requires x.Obj? && (s.Some? ==> s.value.Obj?)
    ensures At(RemergedAll(x, s), k) == if s.Some? && k in s.value.fields then Some(MergeValue(k, At(x, k), s.value.fields[k])) else At(x, k)
  {
    if s.Some? { AtMerge(x, s.value, k); }
  }

  /** The order of providers after a repair that looks at the entry `e`. */
  function Dropped(keys: seq<string>, e: Option<Json>): seq<string> {
    if e.Some? && RepairedEntry(e).None? then Without(keys, "blockrun") else keys
  }

  /** The blockrun entry after later fragments, had `base` had the entry `e` instead. */
  function LaterEntry(base: Json, e: Option<Json>, later: seq<Json>): Option<Json>
    requires base.Obj?
  {
    if later == [] then e
    else
      var out := FoldOn(base, later[..|later| - 1]);
      var now := LaterEntry(base, e, later[..|later| - 1]);
      var last := later[|later| - 1];
      if !last.Obj? then now
      else if HasProviders(out) then JoinedEntry(now, Entry(Normalize(last)))
      else Entry(Merge(out, Normalize(last)))
  }

  /** The order of the providers after later fragments, had `base` had the order `keys` instead. */
  function LaterOrder(base: Json, keys: seq<string>, later: seq<Json>): seq<string>
    requires base.Obj?
  {
    if later == [] then keys
    else
      var out := FoldOn(base, later[..|later| - 1]);
      var now := LaterOrder(base, keys, later[..|later| - 1]);
      var last := later[|later| - 1];
      if !last.Obj? then now
      else if HasProviders(out) then AppendNew(now, ProvidersOf(Normalize(last)).keys)
      else ProvidersOf(Merge(out, Normalize(last))).keys
  }

  lemma {:induction false} LaterAt(base: Json, z: Json, later: seq<Json>)
    requires base.Obj? && z.Obj?
    ensures At(LaterProviders(base, z, later), "blockrun") == LaterEntry(base, At(z, "blockrun"), later)
    ensures LaterProviders(base, z, later).keys == LaterOrder(base, z.keys, later)
  {
    if later != [] {
      var n := |later| - 1;
      LaterAt(base, z, later[..n]);
      if later[n].Obj? {
        RemergedAt(LaterProviders(base, z, later[..n]), ProvidersIn(Normalize(later[n])), "blockrun");
      }
    }
  }

  lemma {:induction false} LaterElsewhere(base: Json, z: Json, later: seq<Json>, k: string)
    requires base.Obj? && z.Obj? && At(z, k) == At(ProvidersOf(base), k) && HasProviders(FoldOn(base, later))
    ensures At(LaterProviders(base, z, later), k) == At(Providers(FoldOn(base, later)), k)
  {
    if later != [] {
      var n := |later| - 1;
      var out, last := FoldOn(base, later[..n]), later[n];
      if !last.Obj? {
        LaterElsewhere(base, z, later[..n], k);
      } else if HasProviders(out) {
        LaterElsewhere(base, z, later[..n], k);
        PatchKeepsProviders(out, Normalize(last));
        RemergedAt(Providers(out), ProvidersIn(Normalize(last)), k);
        RemergedAt(LaterProviders(base, z, later[..n]), ProvidersIn(Normalize(last)), k);
      }
    }
  }

  // ----- when the targets agree -----

  /** The blockrun entry of the merged target: repaired, patched, repaired. */
  function MergedEntry(s: Parts): Option<Json> {
    JoinedEntry(RepairedEntry(Entry(s.y)), Entry(s.p))
  }

  /** The blockrun entry of the fragment target before its last repair: repaired in its fragment, then composed. */
  function FragmentEntry(s: Parts): Option<Json>
    requires PartsOk(s)
  {
    var m := Merge(s.x, s.c);
    LaterEntry(m, if HasProviders(m) then JoinedEntry(Entry(s.x), RepairedEntry(Entry(s.c))) else None, s.later)
  }

  /** The order of the providers in either target. */
  function MergedOrder(s: Parts): seq<string> {
    Dropped(AppendNew(Dropped(ProvidersOf(s.y).keys, Entry(s.y)), ProvidersOf(s.p).keys), MergedEntry(s))
  }

  function FragmentOrder(s: Parts): seq<string>
    requires PartsOk(s)
  {
    var m := Merge(s.x, s.c);
    var keys := AppendNew(ProvidersOf(s.x).keys, Dropped(ProvidersOf(s.c).keys, Entry(s.c)));
    Dropped(LaterOrder(m, if HasProviders(m) then keys else [], s.later), FragmentEntry(s))
  }

  /** The two configs are the same but for the blockrun entry and the order of the providers. */
  predicate SameAround(u: Json, v: Json) {
    if HasProviders(u) && HasProviders(v)
    then Put(u, EMPTY) == Put(v, EMPTY) && Providers(u).fields - {"blockrun"} == Providers(v).fields - {"blockrun"}
    else u == v
  }

  /** The repaired entries are the same, at the same place. */
  predicate EntriesMeet(s: Parts)
    requires PartsOk(s)
  {
    RepairedEntry(MergedEntry(s)) == RepairedEntry(FragmentEntry(s)) && MergedOrder(s) == FragmentOrder(s)
  }

  lemma MergedProviders(s: Parts)
    requires PartsOk(s) && HasProviders(PatchedLast(s))
    ensures var za := FixProviders(RemergedAll(FixProviders(ProvidersOf(s.y)), ProvidersIn(s.p)));
            At(za, "blockrun") == RepairedEntry(MergedEntry(s)) && za.keys == MergedOrder(s) &&
            forall k | k != "blockrun" :: At(za, k) == At(Providers(PatchedLast(s)), k)
  {
    var inner := RemergedAll(FixProviders(ProvidersOf(s.y)), ProvidersIn(s.p));
    PatchKeepsProviders(s.y, s.p);
    FixKeys(ProvidersOf(s.y));
    FixKeys(inner);
    forall k ensures At(FixProviders(inner), k) ==
                       if k == "blockrun" then RepairedEntry(MergedEntry(s)) else At(Providers(PatchedLast(s)), k)
      ensures k == "blockrun" ==> At(inner, k) == MergedEntry(s)
    {
      FixAt(ProvidersOf(s.y), k);
      FixAt(inner, k);
      RemergedAt(FixProviders(ProvidersOf(s.y)), ProvidersIn(s.p), k);
      RemergedAt(ProvidersOf(s.y), ProvidersIn(s.p), k);
    }
  }

  lemma FragmentProvidersAt(s: Parts, k: string)
    requires PartsOk(s) && HasProviders(Merge(s.x, s.c))
    ensures At(FragmentProviders(s), k) ==
            if k == "blockrun" then JoinedEntry(Entry(s.x), RepairedEntry(Entry(s.c))) else At(Providers(Merge(s.x, s.c)), k)
    ensures FragmentProviders(s).keys == AppendNew(ProvidersOf(s.x).keys, Dropped(ProvidersOf(s.c).keys, Entry(s.c)))
  {
    PatchKeepsProviders(s.x, s.c);
    FixAt(ProvidersOf(s.c), k);
    FixKeys(ProvidersOf(s.c));
    RemergedAt(ProvidersOf(s.x), FixedIn(s.c), k);
    RemergedAt(ProvidersOf(s.x), ProvidersIn(s.c), k);
  }

  lemma ComposedElsewhere(s: Parts, k: string)
    requires PartsOk(s) && HasProviders(PatchedFirst(s)) && k != "blockrun"
    ensures At(ComposedProviders(s), k) == At(Providers(PatchedFirst(s)), k)
  {
    var m := Merge(s.x, s.c);
    if HasProviders(m) {
      FragmentProvidersAt(s, k);
      LaterElsewhere(m, FragmentProviders(s), s.later, k);
    } else {
      LaterElsewhere(m, EMPTY, s.later, k);
    }
  }

  lemma ComposedEntry(s: Parts)
    requires PartsOk(s)
    ensures At(ComposedProviders(s), "blockrun") == FragmentEntry(s)
    ensures Dropped(ComposedProviders(s).keys, FragmentEntry(s)) == FragmentOrder(s)
  {
    var m := Merge(s.x, s.c);
    if HasProviders(m) { FragmentProvidersAt(s, "blockrun"); }
    LaterAt(m, if HasProviders(m) then FragmentProviders(s) else EMPTY, s.later);
  }

  lemma FragmentProvidersAre(s: Parts)
    requires PartsOk(s) && HasProviders(PatchedFirst(s))
    ensures var zb := FixProviders(ComposedProviders(s));
            At(zb, "blockrun") == RepairedEntry(FragmentEntry(s)) && zb.keys == FragmentOrder(s) &&
            forall k | k != "blockrun" :: At(zb, k) == At(Providers(PatchedFirst(s)), k)
  {
    ComposedEntry(s);
    FixKeys(ComposedProviders(s));
    forall k ensures At(FixProviders(ComposedProviders(s)), k) ==
                       if k == "blockrun" then RepairedEntry(FragmentEntry(s)) else At(Providers(PatchedFirst(s)), k)
    {
      FixAt(ComposedProviders(s), k);
      if k != "blockrun" { ComposedElsewhere(s, k); }
    }
  }

  lemma SameProviders(za: Json, zb: Json, pa: Json, pb: Json)
    requires za.Obj? && zb.Obj? && pa.Obj? && pb.Obj?
    requires forall k | k != "blockrun" :: At(za, k) == At(pa, k)
    requires forall k | k != "blockrun" :: At(zb, k) == At(pb, k)
    ensures za == zb <==> pa.fields - {"blockrun"} == pb.fields - {"blockrun"} &&
                          At(za, "blockrun") == At(zb, "blockrun") && za.keys == zb.keys
  {
    if pa.fields - {"blockrun"} == pb.fields - {"blockrun"} && At(za, "blockrun") == At(zb, "blockrun") && za.keys == zb.keys {
      forall k ensures At(za, k) == At(zb, k) {
        if k != "blockrun" {
          assert At(pa, k) == At(Obj([], pa.fields - {"blockrun"}), k);
          assert At(pb, k) == At(Obj([], pb.fields - {"blockrun"}), k);
        }
      }
      SameFields(za, zb);
    } else if za == zb {
      forall k | k != "blockrun" ensures At(pa, k) == At(pb, k) {
      }
      SameMap(Obj([], pa.fields - {"blockrun"}), Obj([], pb.fields - {"blockrun"})) by {
        forall k ensures At(Obj([], pa.fields - {"blockrun"}), k) == At(Obj([], pb.fields - {"blockrun"}), k) {
          assert k != "blockrun" ==> At(pa, k) == At(pb, k);
        }
      }
    }
  }

  /** Putting providers into either config. */
  lemma PutsMeet(u: Json, v: Json, zu: Json, zv: Json)
    requires HasProviders(u) && HasProviders(v) && zu.Obj? && zv.Obj?
    ensures Put(u, zu) == Put(v, zv) <==> Put(u, EMPTY) == Put(v, EMPTY) && zu == zv
    ensures HasProviders(Put(u, zu)) && Providers(Put(u, zu)) == zu
  {
    PutOver(u, zu);
    PutOver(v, zv);
  }

  lemma PutOver(u: Json, z: Json)
    requires HasProviders(u) && z.Obj?
    ensures HasProviders(Put(u, z)) && Providers(Put(u, z)) == z
    ensures Put(Put(u, z), EMPTY) == Put(u, EMPTY) && Put(Put(u, EMPTY), z) == Put(u, z)
  {
    var models := u.fields["models"];
    assert models.fields["providers" := z]["providers" := EMPTY] == models.fields["providers" := EMPTY];
    assert models.fields["providers" := EMPTY]["providers" := z] == models.fields["providers" := z];
    var a, b := Assign(models, "providers", z), Assign(models, "providers", EMPTY);
    assert u.fields["models" := a]["models" := b] == u.fields["models" := b];
    assert u.fields["models" := b]["models" := a] == u.fields["models" := a];
  }

  /**
   The two targets give the same config exactly when, without repairs, they are the same
   around the blockrun entry, and the repaired entries are the same at the same place.
   */
  lemma RouteSyncExactly(before: seq<Json>, fragment: Json, after: seq<Json>, patch: Json)
    requires fragment.Obj? && patch.Obj?
    ensures var s := PartsOf(before, fragment, after, patch);
            FragmentTarget(before, fragment, after, patch) == MergedTarget(before, fragment, after, patch) <==>
            SameAround(PatchedFirst(s), PatchedLast(s)) && (HasProviders(PatchedLast(s)) ==> EntriesMeet(s))
  {
    var s := PartsOf(before, fragment, after, patch);
    MergedUnfolds(before, fragment, after, patch);
    FragmentUnfolds(before, fragment, after, patch);
    MergedSide(s.y, s.p);
    FragmentSide(s);
    SidesMeet(s);
  }

  lemma SidesMeet(s: Parts)
    requires PartsOk(s)
    ensures var u, v := PatchedFirst(s), PatchedLast(s);
            var za := FixProviders(RemergedAll(FixProviders(ProvidersOf(s.y)), ProvidersIn(s.p)));
            var zb := FixProviders(ComposedProviders(s));
            (if HasProviders(u) then Put(u, zb) else u) == (if HasProviders(v) then Put(v, za) else v) <==>
            SameAround(u, v) && (HasProviders(v) ==> EntriesMeet(s))
  {
    var u, v := PatchedFirst(s), PatchedLast(s);
    var za := FixProviders(RemergedAll(FixProviders(ProvidersOf(s.y)), ProvidersIn(s.p)));
    var zb := FixProviders(ComposedProviders(s));
    if HasProviders(u) && HasProviders(v) {
      MergedProviders(s);
      FragmentProvidersAre(s);
      SameProviders(za, zb, Providers(v), Providers(u));
      PutsMeet(u, v, zb, za);
    } else if HasProviders(u) {
      PutOver(u, zb);
    } else if HasProviders(v) {
      PutOver(v, za);
    }
  }

  /** When neither the composed config nor the patched fragment needs the repair, and the merges agree, so do the targets. */
  lemma AgreeWhenValidAndSame(before: seq<Json>, fragment: Json, after: seq<Json>, patch: Json)
    requires fragment.Obj? && patch.Obj?
    requires var s := PartsOf(before, fragment, after, patch);
             !InvalidBlockrun(s.y) && !InvalidBlockrun(s.c) && PatchedFirst(s) == PatchedLast(s)
    ensures FragmentTarget(before, fragment, after, patch) == MergedTarget(before, fragment, after, patch)
  {
    MergedUnfolds(before, fragment, after, patch);
    FragmentUnfolds(before, fragment, after, patch);
  }

  /** The repair that route sync runs on its result finds nothing to do, whichever target it was. */
  lemma RepairAfterwards(before: seq<Json>, fragment: Json, after: seq<Json>, patch: Json)
    requires fragment.Obj? && patch.Obj?
    ensures var f := FragmentTarget(before, fragment, after, patch); RepairConfig(f) == f
    ensures var m := MergedTarget(before, fragment, after, patch); RepairConfig(m) == m
  {
    var fragments := before + [MergePatch(fragment, patch)] + after;
    FoldIsFlat(fragments);
    NothingLeft(Fold(fragments));
    var base := Normalize(MergeOrdered(before + [fragment] + after));
    NormalizedIsFlat(MergeOrdered(before + [fragment] + after));
    NormalizedIsFlat(patch);
    MergeStaysFlat(base, Normalize(patch));
    NothingLeft(Merge(base, Normalize(patch)));
  }

  lemma NothingLeft(j: Json)
    requires j.Obj? && !Hoistable(j)
    ensures RepairConfig(RepairBlockrun(Normalize(j))) == RepairBlockrun(Normalize(j))
  {
    NormalizedIsFlat(j);
    FlatRepaired(j);
    RepairedIsValid(j);
  }
}
