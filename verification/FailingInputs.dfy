/** Inputs at which a config law fails, one for each condition the laws carry. */
module FailingInputs {
  import opened Json
  import opened ConfigMerge
  import opened MergeLaws
  import opened LastWriter
  import opened PatchTwiceExact
  import opened RepairRoute
  import opened SelfHeal
  import opened HealLaws
  import opened TwoPaths
  import opened RouteSync
  import opened RouteSyncCases

  // ----- applying a patch twice -----

  lemma CompletedByPatch(q: Json)
    requires q.Obj? && Clean(q) && At(q, "models").None? && NonBlank(At(q, "baseUrl")) && Blanks(q, "api")
    ensures UndoesRepair(EMPTY, ProvidersPatch(One("blockrun", q)))
  {
    CleanOne("blockrun", q);
    FoldOne(One("blockrun", q));
    NormalizedIsFlat(ProvidersPatch(One("blockrun", q)));
    NormalizedIsFlat(EMPTY);
    CleanOne("providers", One("blockrun", q));
    CleanOne("models", One("providers", One("blockrun", q)));
    RebuildClean(ProvidersPatch(One("blockrun", q)));
  }

  /** A base URL and a blank `api` in a new entry: the second run brings the blank back. */
  lemma UndoesRepairSomewhere()
    ensures UndoesRepair(EMPTY, ProvidersPatch(One("blockrun", Obj(["baseUrl", "api"], map["baseUrl" := Str("u"), "api" := Str("")]))))
  {
    CompletedByPatch(Obj(["baseUrl", "api"], map["baseUrl" := Str("u"), "api" := Str("")]));
  }

  // ----- repairing a config -----

  /** An empty `models.models` cannot be hoisted: the repair leaves it, calls it a change, and it stays invalid. */
  lemma StuckSomewhere()
    ensures var cfg := One("models", One("models", EMPTY));
            Stuck(cfg) && Repairs(cfg) && RepairConfig(cfg) == cfg && InvalidModels(cfg)
  {
    NormalizeNested(One("models", One("models", EMPTY)));
  }

  // ----- healing -----

  function ModeFragment(mode: string): Json {
    One("gateway", One("mode", Str(mode)))
  }

  lemma ModeFragmentWrites(mode: string)
    ensures FragmentWrite(ModeFragment(mode), MODE_PATH) == Some(Leaf(Str(mode)))
  {
    var f := ModeFragment(mode);
    NormalizedIsFlat(f);
    assert MODE_PATH[1..] == ["mode"] && ["mode"][1..] == [];
    assert WriteOf(f, MODE_PATH) == WriteOf(f.fields["gateway"], ["mode"]);
    assert WriteOf(f.fields["gateway"], ["mode"]) == WriteOf(Str(mode), []);
  }

  lemma ParsedPair(dir: map<string, Text>, a: string, b: string)
    requires a in dir && b in dir && ParseText(dir[a]).Some? && ParseText(dir[b]).Some?
    ensures ParseAll(dir, [a, b]) == Some([ParseText(dir[a]).value, ParseText(dir[b]).value])
  {
    assert [a, b][..1] == [a] && [a][..0] == [];
    var x, y := ParseText(dir[a]).value, ParseText(dir[b]).value;
    assert ParseAll(dir, [a]) == Some([] + [x]);
    assert ([] + [x]) + [y] == [x, y];
  }

  /** The disk with a transport fragment and one after it that wants another mode. */
  function ModeDisk(later: string, mode: string): Disk {
    Disk(map[TRANSPORT := Pretty(EMPTY), later := Pretty(ModeFragment(mode))], None, None)
  }

  lemma ModeDiskNames(sort: Sorter, s: Settings, later: string, mode: string)
    requires Lists(sort) && later != TRANSPORT && IsFragmentName(later)
    ensures FragmentNames(sort, ModeDisk(later, mode).dir) == sort({TRANSPORT, later})
    ensures FragmentNames(sort, Prepared(s, ModeDisk(later, mode)).dir) == sort({TRANSPORT, later})
  {
    var d := ModeDisk(later, mode);
    TransportIsFragment();
    assert (set n | n in d.dir && IsFragmentName(n)) == {TRANSPORT, later};
    PreparedNames(sort, s, d);
  }

  lemma ModeDiskPrepared(s: Settings, later: string, mode: string)
    requires s.transportWritable && later != TRANSPORT && IsFragmentName(later)
    ensures var dir := Prepared(s, ModeDisk(later, mode)).dir;
            TRANSPORT in dir && dir[TRANSPORT] == LocalMode(Pretty(EMPTY)) &&
            later in dir && dir[later] == Pretty(ModeFragment(mode))
  {
    PreparedFiles(s, ModeDisk(later, mode));
    RepairStaysInModels(ModeFragment(mode));
    RepairStaysInModels(EMPTY);
  }

  lemma ModeDiskLater(sort: Sorter, s: Settings, later: string, mode: string)
    requires Lists(sort) && later != TRANSPORT && IsFragmentName(later)
    requires sort({TRANSPORT, later}) == [TRANSPORT, later]
    ensures LaterFragments(sort, ModeDisk(later, mode)) == [ModeFragment(mode)]
  {
    ModeDiskNames(sort, s, later, mode);
    ParsedPair(ModeDisk(later, mode).dir, TRANSPORT, later);
  }

  lemma PairComposes(sort: Sorter, d: Disk, a: string, b: string)
    requires Lists(sort) && FragmentNames(sort, d.dir) == [a, b] && a in d.dir && b in d.dir
    requires ParseText(d.dir[a]).Some? && ParseText(d.dir[a]).value.Obj?
    requires ParseText(d.dir[b]).Some? && ParseText(d.dir[b]).value.Obj?
    ensures Composed(sort, d).Some?
  {
    ParsedPair(d.dir, a, b);
  }

  lemma ModeDiskComposes(sort: Sorter, s: Settings, later: string, mode: string)
    requires Lists(sort) && s.transportWritable && later != TRANSPORT && IsFragmentName(later)
    requires sort({TRANSPORT, later}) == [TRANSPORT, later]
    ensures Composed(sort, Prepared(s, ModeDisk(later, mode))).Some?
  {
    ModeDiskNames(sort, s, later, mode);
    ModeDiskPrepared(s, later, mode);
    PairComposes(sort, Prepared(s, ModeDisk(later, mode)), TRANSPORT, later);
  }

  lemma ModeDiskHeals(sort: Sorter, s: Settings, later: string, mode: string)
    requires Lists(sort) && s.transportWritable && later != TRANSPORT && IsFragmentName(later)
    requires sort({TRANSPORT, later}) == [TRANSPORT, later]
    ensures HealDisk(sort, s, ModeDisk(later, mode), false).0 == Recomposed
    ensures LaterFragments(sort, ModeDisk(later, mode)) == [ModeFragment(mode)]
  {
    ModeDiskNames(sort, s, later, mode);
    ModeDiskLater(sort, s, later, mode);
    ModeDiskComposes(sort, s, later, mode);
  }

  /** A later fragment that sets another mode wins over the healer: it composes, and the config is still not local. */
  lemma HealStaysRemote(sort: Sorter, s: Settings, later: string, mode: string)
    requires Lists(sort) && s.transportWritable && later != TRANSPORT && IsFragmentName(later)
    requires sort({TRANSPORT, later}) == [TRANSPORT, later]
    requires Trim(mode) != "local"
    ensures var healed := HealDisk(sort, s, ModeDisk(later, mode), false);
            healed.0 == Recomposed && Assess(sort, healed.1) == ModeNotLocal
  {
    ModeDiskHeals(sort, s, later, mode);
    StaysRemote(sort, s, ModeDisk(later, mode), mode);
  }

  lemma StaysRemote(sort: Sorter, s: Settings, d: Disk, mode: string)
    requires Lists(sort) && TRANSPORT in d.dir && s.transportWritable && Trim(mode) != "local"
    requires HealDisk(sort, s, d, false).0 == Recomposed && LaterFragments(sort, d) == [ModeFragment(mode)]
    ensures Assess(sort, HealDisk(sort, s, d, false).1) == ModeNotLocal
  {
    HealConvergesExactly(sort, s, d);
    ModeFragmentWrites(mode);
  }

  // ----- route sync -----

  /** A patch that only sets `api` to null: lost in an empty fragment, kept in the composed config. */
  lemma NullApiDiffers(before: seq<Json>)
    requires AllParsed(before) && IsObj(Entry(Fold(before)))
    requires var e := Entry(Fold(before)).value; NonEmptyList(At(e, "models")) && At(e, "api") != Some(Null)
    ensures !Agree(before, [], ProvidersPatch(One("blockrun", One("api", Null))))
  {
    OneParsed("api", Null);
    OneKeyed("api", Null);
    OneParsed("blockrun", One("api", Null));
    OneKeyed("blockrun", One("api", Null));
    DroppedEntry(One("api", Null));
    StillValid(Entry(Fold(before)).value, "api");
    Differ(before, One("blockrun", One("api", Null)));
  }

  /** A patch that only sets the base URL: completed in an empty fragment, and the defaults then override what was composed. */
  lemma NewBaseUrlDiffers(before: seq<Json>, url: string)
    requires AllParsed(before) && IsObj(Entry(Fold(before))) && Trim(url) != ""
    requires var e := Entry(Fold(before)).value;
             NonEmptyList(At(e, "models")) && At(e, "api") != Some(Str("openai-completions"))
    ensures !Agree(before, [], ProvidersPatch(One("blockrun", One("baseUrl", Str(url)))))
  {
    var e, q := Entry(Fold(before)).value, One("baseUrl", Str(url));
    OneParsed("baseUrl", Str(url));
    OneKeyed("baseUrl", Str(url));
    OneParsed("blockrun", q);
    OneKeyed("blockrun", q);
    DefaultsOverride(e, q);
    Differ(before, One("blockrun", q));
  }

  lemma DefaultsOverride(e: Json, q: Json)
    requires e.Obj? && q.Obj? && Clean(q) && NonEmptyList(At(e, "models")) && NonBlank(At(q, "baseUrl"))
    requires At(q, "models").None? && At(q, "api").None? && At(e, "api") != Some(Str("openai-completions"))
    ensures RepairedEntry(JoinedEntry(RepairedEntry(Some(e)), Some(q))) !=
            RepairedEntry(JoinedEntry(Some(e), RepairedEntry(JoinedEntry(None, Some(q)))))
  {
    RebuildClean(q);
    var c := CompleteBlockrun(q);
    CompleteAt(q, "api");
    CompleteAt(q, "models");
    AtMerge(e, q, "api");
    AtMerge(e, q, "models");
    AtMerge(e, c, "api");
    AtMerge(e, c, "models");
  }

  /** A fragment sorted after the route-sync fragment overrides the patch, but not once the patch is in the composed config. */
  lemma LaterFragmentWins(before: seq<Json>, fragment: Json, a: Json, b: Json)
    requires fragment.Obj? && !a.Obj? && !b.Obj? && a != b
    ensures At(FragmentTarget(before, fragment, [One("k", a)], One("k", b)), "k") == Some(a)
    ensures At(MergedTarget(before, fragment, [One("k", a)], One("k", b)), "k") == Some(b)
  {
    LastKey(before + [MergePatch(fragment, One("k", b))], a);
    NormalizedIsFlat(One("k", b));
    var composed := MergeOrdered(before + [fragment] + [One("k", a)]);
    AtMerge(Normalize(composed), One("k", b), "k");
    SameElsewhere(Merge(Normalize(composed), One("k", b)));
  }

  lemma SameElsewhere(j: Json)
    ensures At(RepairBlockrun(Normalize(j)), "k") == At(j, "k")
  {
    NormalizeElsewhere(j, "k");
    RepairElsewhere(Normalize(j), "k");
  }

  lemma LastKey(fragments: seq<Json>, v: Json)
    requires !v.Obj?
    ensures At(MergeOrdered(fragments + [One("k", v)]), "k") == Some(v)
  {
    FoldSnoc(fragments, One("k", v));
    NormalizedIsFlat(One("k", v));
    AtMerge(Fold(fragments), One("k", v), "k");
    SameElsewhere(Fold(fragments + [One("k", v)]));
  }

  /** A patch that is not tight on the fragment: it uncovers what the fragment had replaced. */
  lemma LooseFragmentDiffers()
    ensures var before, fragment, patch := [One("k", One("x", Null))], One("k", Null), One("k", One("y", Null));
            FragmentTarget(before, fragment, [], patch) != MergedTarget(before, fragment, [], patch)
  {
    var before, fragment, patch := [One("k", One("x", Null))], One("k", Null), One("k", One("y", Null));
    FragmentUncovers(before, fragment, patch);
    MergedCovers(before, fragment, patch);
  }

  function InnerX(j: Json): Option<Json> {
    if IsObj(At(j, "k")) then At(j.fields["k"], "x") else None
  }

  lemma FragmentUncovers(before: seq<Json>, fragment: Json, patch: Json)
    requires before == [One("k", One("x", Null))] && fragment == One("k", Null) && patch == One("k", One("y", Null))
    ensures InnerX(FragmentTarget(before, fragment, [], patch)) == Some(Null)
  {
    var patched := MergePatch(fragment, patch);
    PatchedHasNoX(fragment, patch);
    FoldedX(before);
    assert before + [patched] + [] == before + [patched];
    UnderX(before, patched);
  }

  lemma PatchedHasNoX(fragment: Json, patch: Json)
    requires fragment == One("k", Null) && patch == One("k", One("y", Null))
    ensures var patched := MergePatch(fragment, patch); IsObj(At(patched, "k")) && InnerX(patched) == None
  {
    NormalizedIsFlat(fragment);
    NormalizedIsFlat(patch);
    AtMerge(fragment, patch, "k");
    SameElsewhere(Merge(fragment, patch));
    AtMerge(EMPTY, One("y", Null), "x");
  }

  /** A fragment with another object at `k` leaves the `x` there. */
  lemma UnderX(before: seq<Json>, patched: Json)
    requires InnerX(Fold(before)) == Some(Null) && IsObj(At(patched, "k")) && InnerX(patched) == None
    ensures InnerX(MergeOrdered(before + [patched])) == Some(Null)
  {
    NormalizeElsewhere(patched, "k");
    FoldSnoc(before, patched);
    AtMerge(Fold(before), Normalize(patched), "k");
    SameElsewhere(Fold(before + [patched]));
    AtMerge(Fold(before).fields["k"], patched.fields["k"], "x");
  }

  lemma FoldedX(before: seq<Json>)
    requires before == [One("k", One("x", Null))]
    ensures InnerX(Fold(before)) == Some(Null)
  {
    NormalizedIsFlat(before[0]);
    assert before[..0] == [];
    AtMerge(EMPTY, before[0], "k");
    AtMerge(EMPTY, One("x", Null), "x");
  }

  lemma MergedCovers(before: seq<Json>, fragment: Json, patch: Json)
    requires fragment == One("k", Null) && patch == One("k", One("y", Null))
    ensures InnerX(MergedTarget(before, fragment, [], patch)) == None
  {
    NormalizedIsFlat(patch);
    assert before + [fragment] + [] == before + [fragment];
    LastKey(before, Null);
    var composed := MergeOrdered(before + [fragment]);
    NormalizeElsewhere(composed, "k");
    AtMerge(Normalize(composed), patch, "k");
    SameElsewhere(Merge(Normalize(composed), patch));
    AtMerge(EMPTY, One("y", Null), "x");
  }
}
