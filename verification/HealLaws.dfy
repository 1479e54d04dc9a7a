/** One heal is enough, exactly when no later fragment takes `gateway.mode` away from `local`. */
module HealLaws {
  import opened Json
  import opened JsText
  import opened ConfigMerge
  import opened MergeLaws
  import opened ParsedConfigs
  import opened LastWriter
  import opened RepairRoute
  import opened SelfHeal

  const MODE_PATH := ["gateway", "mode"]

  /** What fragments make of a path that starts as `start`, applied in order. */
  function DecidedBy(fragments: seq<Json>, path: seq<string>, start: Shape): Shape {
    if fragments == [] then start
    else
      var w := FragmentWrite(fragments[|fragments| - 1], path);
      if w.Some? then w.value else DecidedBy(fragments[..|fragments| - 1], path, start)
  }

  lemma {:induction false} FoldDecides(fragments: seq<Json>, path: seq<string>)
    requires OutsidePlugins(path)
    ensures ShapeAt(Fold(fragments), path) == DecidedBy(fragments, path, Nothing)
  {
    if fragments != [] {
      var n := |fragments| - 1;
      FoldDecides(fragments[..n], path);
      if fragments[n].Obj? {
        HoistedWrites(fragments[n], path);
        MergeWrites(Fold(fragments[..n]), Normalize(fragments[n]), path);
      }
    }
  }

  /** A fragment that writes the path makes everything before it irrelevant. */
  lemma {:induction false} DecidedAfter(fragments: seq<Json>, path: seq<string>, start: Shape, i: nat)
    requires i < |fragments| && FragmentWrite(fragments[i], path).Some?
    ensures DecidedBy(fragments, path, start) == DecidedBy(fragments[i + 1..], path, FragmentWrite(fragments[i], path).value)
    decreases |fragments|
  {
    var n := |fragments| - 1;
    if i < n {
      assert fragments[..n][i + 1..] == fragments[i + 1..][..n - i - 1];
      assert fragments[i + 1..][n - i - 1] == fragments[n];
      DecidedAfter(fragments[..n], path, start, i);
    } else {
      assert fragments[i + 1..] == [];
    }
  }

  lemma {:induction false} DecidedSame(a: seq<Json>, b: seq<Json>, path: seq<string>, start: Shape)
    requires |a| == |b| && forall i | 0 <= i < |a| :: FragmentWrite(a[i], path) == FragmentWrite(b[i], path)
    ensures DecidedBy(a, path, start) == DecidedBy(b, path, start)
  {
    if a != [] {
      var n := |a| - 1;
      DecidedSame(a[..n], b[..n], path, start);
    }
  }

  // ----- the mode of a config -----

  function ModeOf(s: Shape): string {
    match s
    case Nothing => ""
    case Leaf(v) => if Truthy(Some(v)) then Trim(ToText(v)) else ""
    case Branch => Trim("[object Object]")
  }

  lemma ModeIsShape(j: Json)
    requires j.Obj?
    ensures GatewayMode(j) == ModeOf(ShapeAt(j, MODE_PATH))
  {
    assert MODE_PATH[1..] == ["mode"] && ["mode"][1..] == [];
    if "gateway" in j.fields {
      var g := j.fields["gateway"];
      assert ShapeAt(j, MODE_PATH) == ShapeAt(g, ["mode"]);
      if At(g, "mode").Some? {
        assert ShapeAt(g, ["mode"]) == ShapeAt(g.fields["mode"], []);
      }
    }
  }

  lemma ComposedMode(fragments: seq<Json>)
    ensures GatewayMode(MergeOrdered(fragments)) == ModeOf(DecidedBy(fragments, MODE_PATH, Nothing))
  {
    FoldIsFlat(fragments);
    NormalizedIsFlat(Fold(fragments));
    RepairOnlyTouchesBlockrun(Fold(fragments), MODE_PATH);
    FoldDecides(fragments, MODE_PATH);
    ModeIsShape(MergeOrdered(fragments));
  }

  /** Whether and how a fragment writes the mode depends on its `gateway` alone. */
  lemma ModeWriteSame(a: Json, b: Json)
    requires a.Obj? && b.Obj? && At(a, "gateway") == At(b, "gateway")
    ensures FragmentWrite(a, MODE_PATH) == FragmentWrite(b, MODE_PATH)
  {
    PathStarts(MODE_PATH);
    WriteAt(a, MODE_PATH);
    WriteAt(b, MODE_PATH);
  }

  lemma LocalWrite(j: Json)
    requires j.Obj? && IsObj(At(j, "gateway")) && At(j.fields["gateway"], "mode") == Some(Str("local"))
    ensures FragmentWrite(j, MODE_PATH) == Some(Leaf(Str("local")))
  {
    PathStarts(MODE_PATH);
    assert MODE_PATH[1..] == ["mode"] && ["mode"][1..] == [];
    assert WriteOf(j, MODE_PATH) == WriteOf(j.fields["gateway"], ["mode"]);
    assert WriteOf(j.fields["gateway"], ["mode"]) == WriteOf(Str("local"), []);
  }

  // ----- the fragments before and after preparing -----

  lemma {:induction false} ParseAllIs(dir: map<string, Text>, names: seq<string>)
    requires forall n | n in names :: n in dir
    ensures ParseAll(dir, names).Some? <==> forall n | n in names :: ParseText(dir[n]).Some?
    ensures ParseAll(dir, names).Some? ==>
              |ParseAll(dir, names).value| == |names| &&
              forall i | 0 <= i < |names| :: ParseText(dir[names[i]]) == Some(ParseAll(dir, names).value[i])
  {
    if names != [] {
      var n := |names| - 1;
      ParseAllIs(dir, names[..n]);
      assert names[n] in names;
      assert forall x | x in names :: x in names[..n] || x == names[n];
    }
  }

  lemma RepairKeepsGateway(t: Text)
    requires ParseText(t).Some? && ParseText(t).value.Obj?
    ensures ParseText(RepairText(t)).Some? && ParseText(RepairText(t)).value.Obj?
    ensures At(ParseText(RepairText(t)).value, "gateway") == At(ParseText(t).value, "gateway")
  {
    RepairStaysInModels(ParseText(t).value);
  }

  lemma LocalModeIsLocal(t: Text)
    requires ParseText(t).Some? && ParseText(t).value.Obj?
    ensures ParseText(LocalMode(t)).Some? && ParseText(LocalMode(t)).value.Obj?
    ensures FragmentWrite(ParseText(LocalMode(t)).value, MODE_PATH) == Some(Leaf(Str("local")))
  {
    LocalWrite(ParseText(LocalMode(t)).value);
  }

  lemma TransportIsFragment()
    ensures IsFragmentName(TRANSPORT)
  {
    assert TRANSPORT[|TRANSPORT| - 5..] == ".json";
    assert TRANSPORT[|TRANSPORT| - 4..] == "json";
    assert "json"[0] != ".bak"[0];
    assert TRANSPORT[0] != '.';
  }

  lemma PreparedNames(sort: Sorter, s: Settings, d: Disk)
    ensures Prepared(s, d).dir.Keys == d.dir.Keys
    ensures FragmentNames(sort, Prepared(s, d).dir) == FragmentNames(sort, d.dir)
  {
    assert (set n | n in Prepared(s, d).dir && IsFragmentName(n)) == set n | n in d.dir && IsFragmentName(n);
  }

  function IndexOf(names: seq<string>, n: string): (i: nat)
    requires n in names
    ensures i < |names| && names[i] == n
  {
    if names[0] == n then 0 else 1 + IndexOf(names[1..], n)
  }

  /** The values that stand after name `t`. */
  function LaterOf(names: seq<string>, t: string, values: seq<Json>): seq<Json> {
    if t in names && IndexOf(names, t) < |values| then values[IndexOf(names, t) + 1..] else []
  }

  /** The fragments listed after the transport fragment, as they are before the heal. */
  function LaterFragments(sort: Sorter, d: Disk): seq<Json>
    requires Lists(sort)
  {
    var names := FragmentNames(sort, d.dir);
    var all := ParseAll(d.dir, names);
    if all.Some? then LaterOf(names, TRANSPORT, all.value) else []
  }

  /** Preparing keeps every fragment's say on the mode, but for the transport fragment, which then says `local`. */
  lemma PreparedWrites(sort: Sorter, s: Settings, d: Disk)
    requires Lists(sort) && TRANSPORT in d.dir && s.transportWritable
    requires Composed(sort, Prepared(s, d)).Some?
    ensures var names := FragmentNames(sort, d.dir);
            var before := ParseAll(d.dir, names);
            var after := ParseAll(Prepared(s, d).dir, FragmentNames(sort, Prepared(s, d).dir));
            before.Some? && after.Some? && |before.value| == |after.value| == |names| && TRANSPORT in names &&
            forall j | 0 <= j < |names| ::
              FragmentWrite(after.value[j], MODE_PATH) ==
              if names[j] == TRANSPORT then Some(Leaf(Str("local"))) else FragmentWrite(before.value[j], MODE_PATH)
  {
    var ready := Prepared(s, d);
    var names := FragmentNames(sort, d.dir);
    PreparedNames(sort, s, d);
    FragmentNamesAre(sort, d.dir);
    TransportIsFragment();
    ParseAllIs(ready.dir, names);
    var after := ParseAll(ready.dir, names).value;
    forall j | 0 <= j < |names| ensures OneFragment(d.dir[names[j]], ready.dir[names[j]], names[j] == TRANSPORT) {
      assert names[j] in names && after[j] in after;
      var text := d.dir[names[j]];
      assert ready.dir[names[j]] == if names[j] == TRANSPORT then LocalMode(RepairText(text)) else RepairText(text);
      PreparedFragment(text);
    }
    forall n | n in names ensures ParseText(d.dir[n]).Some? {
      var j := IndexOf(names, n);
      assert OneFragment(d.dir[names[j]], ready.dir[names[j]], names[j] == TRANSPORT);
    }
    ParseAllIs(d.dir, names);
  }

  /** How one fragment's text and its prepared text relate. */
  predicate OneFragment(before: Text, after: Text, transport: bool) {
    ParseText(before).Some? && ParseText(after).Some? &&
    FragmentWrite(ParseText(after).value, MODE_PATH) ==
    if transport then Some(Leaf(Str("local"))) else FragmentWrite(ParseText(before).value, MODE_PATH)
  }

  lemma PreparedFragment(text: Text)
    ensures ParseText(RepairText(text)).Some? && ParseText(RepairText(text)).value.Obj? ==>
              OneFragment(text, RepairText(text), false)
    ensures ParseText(LocalMode(RepairText(text))).Some? && ParseText(LocalMode(RepairText(text))).value.Obj? ==>
              OneFragment(text, LocalMode(RepairText(text)), true)
  {
    if ParseText(text).Some? && ParseText(text).value.Obj? {
      RepairKeepsGateway(text);
      ModeWriteSame(ParseText(text).value, ParseText(RepairText(text)).value);
      LocalModeIsLocal(RepairText(text));
    }
  }

  /** Two lists that agree after position `i`, where the first says `local`. */
  lemma DecidedByLater(a: seq<Json>, b: seq<Json>, i: nat)
    requires i < |a| == |b|
    requires FragmentWrite(a[i], MODE_PATH) == Some(Leaf(Str("local")))
    requires forall j | i < j < |a| :: FragmentWrite(a[j], MODE_PATH) == FragmentWrite(b[j], MODE_PATH)
    ensures DecidedBy(a, MODE_PATH, Nothing) == DecidedBy(b[i + 1..], MODE_PATH, Leaf(Str("local")))
  {
    DecidedAfter(a, MODE_PATH, Nothing, i);
    DecidedSame(a[i + 1..], b[i + 1..], MODE_PATH, Leaf(Str("local")));
  }

  lemma DecidedByLaterNames(names: seq<string>, t: string, after: seq<Json>, before: seq<Json>)
    requires t in names && |names| == |after| == |before|
    requires forall i, j :: 0 <= i < j < |names| ==> names[i] != names[j]
    requires forall j | 0 <= j < |names| ::
               FragmentWrite(after[j], MODE_PATH) ==
               if names[j] == t then Some(Leaf(Str("local"))) else FragmentWrite(before[j], MODE_PATH)
    ensures DecidedBy(after, MODE_PATH, Nothing) ==
            DecidedBy(before[IndexOf(names, t) + 1..], MODE_PATH, Leaf(Str("local")))
  {
    var i := IndexOf(names, t);
    forall j | i < j < |names| ensures FragmentWrite(after[j], MODE_PATH) == FragmentWrite(before[j], MODE_PATH) {
      assert names[i] != names[j];
    }
    DecidedByLater(after, before, i);
  }

  /** The mode composed from prepared fragments, by what the original ones said. */
  lemma ModeAfter(names: seq<string>, t: string, after: seq<Json>, before: seq<Json>)
    requires t in names && |names| == |after| == |before|
    requires forall i, j :: 0 <= i < j < |names| ==> names[i] != names[j]
    requires forall j | 0 <= j < |names| ::
               FragmentWrite(after[j], MODE_PATH) ==
               if names[j] == t then Some(Leaf(Str("local"))) else FragmentWrite(before[j], MODE_PATH)
    ensures GatewayMode(MergeOrdered(after)) == ModeOf(DecidedBy(LaterOf(names, t, before), MODE_PATH, Leaf(Str("local"))))
  {
    DecidedByLaterNames(names, t, after, before);
    ComposedMode(after);
  }

  lemma PreparedMode(sort: Sorter, s: Settings, d: Disk)
    requires Lists(sort) && TRANSPORT in d.dir && s.transportWritable
    requires Composed(sort, Prepared(s, d)).Some?
    ensures var fragments := ParseAll(Prepared(s, d).dir, FragmentNames(sort, Prepared(s, d).dir)).value;
            GatewayMode(MergeOrdered(fragments)) ==
            ModeOf(DecidedBy(LaterFragments(sort, d), MODE_PATH, Leaf(Str("local"))))
  {
    PreparedNames(sort, s, d);
    PreparedWrites(sort, s, d);
    FragmentNamesAre(sort, d.dir);
    var names := FragmentNames(sort, d.dir);
    ModeAfter(names, TRANSPORT, ParseAll(Prepared(s, d).dir, names).value, ParseAll(d.dir, names).value);
  }

  lemma AssessComposed(sort: Sorter, d: Disk)
    requires Lists(sort) && Composed(sort, d).Some? && d.runtime == Composed(sort, d)
    ensures var fragments := ParseAll(d.dir, FragmentNames(sort, d.dir)).value;
            Assess(sort, d) == if GatewayMode(MergeOrdered(fragments)) == "local" then Healthy else ModeNotLocal
  {
  }

  /**
   After a heal that composed, the config is healthy exactly when the fragments
   listed after the transport fragment leave the mode `local`.
   */
  lemma HealConvergesExactly(sort: Sorter, s: Settings, d: Disk)
    requires Lists(sort) && TRANSPORT in d.dir && s.transportWritable
    requires HealDisk(sort, s, d, false).0 == Recomposed
    ensures var after := HealDisk(sort, s, d, false).1;
            var settled := ModeOf(DecidedBy(LaterFragments(sort, d), MODE_PATH, Leaf(Str("local")))) == "local";
            Assess(sort, after) == if settled then Healthy else ModeNotLocal
  {
    PreparedMode(sort, s, d);
    AssessComposed(sort, HealDisk(sort, s, d, false).1);
  }

  lemma {:induction false} NobodyDecides(fragments: seq<Json>, path: seq<string>, start: Shape)
    requires forall f | f in fragments :: FragmentWrite(f, path) in {None, Some(start)}
    ensures DecidedBy(fragments, path, start) == start
  {
    if fragments != [] {
      var n := |fragments| - 1;
      assert fragments[n] in fragments;
      NobodyDecides(fragments[..n], path, start);
    }
  }

  /** If no later fragment replaces `gateway` or sets another mode, one heal settles it and the next touches nothing. */
  lemma HealConverges(sort: Sorter, s: Settings, d: Disk, fault: bool)
    requires Lists(sort) && TRANSPORT in d.dir && s.transportWritable
    requires HealDisk(sort, s, d, false).0 == Recomposed
    requires forall f | f in LaterFragments(sort, d) :: FragmentWrite(f, MODE_PATH) in {None, Some(Leaf(Str("local")))}
    ensures var after := HealDisk(sort, s, d, false).1;
            Assess(sort, after) == Healthy && HealDisk(sort, s, after, fault) == (ConfigOk, after)
  {
    HealConvergesExactly(sort, s, d);
    NobodyDecides(LaterFragments(sort, d), MODE_PATH, Leaf(Str("local")));
    assert TrimEnd("local") == "local" && TrimStart("local") == "local";
  }

  // ----- healing again -----

  ghost predicate ParsedText(t: Text) {
    ParseText(t).Some? ==> Parsed(ParseText(t).value)
  }

  ghost predicate ParsedDisk(d: Disk) {
    (forall n | n in d.dir :: ParsedText(d.dir[n])) &&
    (d.runtime.Some? ==> ParsedText(d.runtime.value)) && (d.etc.Some? ==> ParsedText(d.etc.value))
  }

  lemma NothingToRepair(j: Json)
    requires j.Obj? && !Hoistable(j) && !InvalidBlockrun(j)
    ensures RepairConfig(j) == j
  {
    NormalizedIsFlat(j);
  }

  lemma RepairedConfig(cfg: Json)
    requires cfg.Obj? && Parsed(cfg)
    ensures !Hoistable(RepairConfig(cfg)) && !InvalidBlockrun(RepairConfig(cfg))
  {
    NormalizedIsFlat(cfg);
    ParsedNormalize(cfg);
    StripResult(Normalize(cfg));
    RepairKeepsFlat(StripOrphan(Normalize(cfg)));
    RepairedIsValid(StripOrphan(Normalize(cfg)));
  }

  /** Forcing the mode on a text that holds an object with nothing to repair. */
  lemma LocalModeTwice(t: Text)
    requires ParseText(t).Some? && ParseText(t).value.Obj?
    requires !Hoistable(ParseText(t).value) && !InvalidModels(ParseText(t).value)
    ensures RepairText(LocalMode(t)) == LocalMode(t)
    ensures LocalMode(LocalMode(t)) == LocalMode(t)
  {
    var l := ParseText(LocalMode(t)).value;
    assert At(l, "models") == At(ParseText(t).value, "models");
    RepairStaysInModels(l);
    assert !Repairs(l);
  }

  /** A text whose models are stuck is rewritten again, to the same text. */
  lemma LocalModeTwiceStuck(t: Text)
    requires ParseText(t).Some? && ParseText(t).value.Obj? && t.Pretty?
    requires !Hoistable(ParseText(t).value) && !InvalidBlockrun(ParseText(t).value)
    ensures RepairText(LocalMode(t)) == LocalMode(t)
    ensures LocalMode(LocalMode(t)) == LocalMode(t)
  {
    var l := ParseText(LocalMode(t)).value;
    assert At(l, "models") == At(ParseText(t).value, "models");
    NothingToRepair(l);
  }

  lemma RepairedText(t: Text)
    requires ParsedText(t) && ParseText(t).Some? && ParseText(t).value.Obj?
    ensures var r := RepairText(t);
            ParseText(r).Some? && ParseText(r).value.Obj? && !Hoistable(ParseText(r).value) &&
            !InvalidBlockrun(ParseText(r).value) && (InvalidModels(ParseText(r).value) ==> r.Pretty?)
  {
    var cfg := ParseText(t).value;
    RepairedConfig(cfg);
    NormalizeNested(cfg);
  }

  /** A prepared text is prepared: repairing and forcing it again changes nothing. */
  lemma PreparedTextTwice(t: Text)
    requires ParsedText(t)
    ensures RepairText(RepairText(t)) == RepairText(t)
    ensures RepairText(LocalMode(RepairText(t))) == LocalMode(RepairText(t))
    ensures LocalMode(LocalMode(RepairText(t))) == LocalMode(RepairText(t))
  {
    RepairFileTwice(t);
    if ParseText(t).Some? && ParseText(t).value.Obj? {
      RepairedText(t);
      if InvalidModels(ParseText(RepairText(t)).value) {
        LocalModeTwiceStuck(RepairText(t));
      } else {
        LocalModeTwice(RepairText(t));
      }
    }
  }

  /** What preparing makes of one file of the fragment directory. */
  function PreparedFile(s: Settings, n: string, t: Text): Text {
    var repaired := if IsFragmentName(n) then RepairText(t) else t;
    if n == TRANSPORT && s.transportWritable then LocalMode(repaired) else repaired
  }

  lemma PreparedFiles(s: Settings, d: Disk)
    ensures Prepared(s, d).dir == map n | n in d.dir :: PreparedFile(s, n, d.dir[n])
  {
  }

  lemma PreparedFileTwice(s: Settings, n: string, t: Text)
    requires ParsedText(t)
    ensures PreparedFile(s, n, PreparedFile(s, n, t)) == PreparedFile(s, n, t)
  {
    TransportIsFragment();
    PreparedTextTwice(t);
  }

  lemma PreparedTwice(sort: Sorter, s: Settings, d: Disk)
    requires ParsedDisk(d)
    ensures Prepared(s, Prepared(s, d)).dir == Prepared(s, d).dir
    ensures Prepared(s, Prepared(s, d)).etc == Prepared(s, d).etc
  {
    var once := Prepared(s, d);
    PreparedFiles(s, d);
    PreparedFiles(s, once);
    forall n | n in d.dir ensures PreparedFile(s, n, once.dir[n]) == once.dir[n] {
      PreparedFileTwice(s, n, d.dir[n]);
    }
    if d.etc.Some? {
      PreparedTextTwice(d.etc.value);
    }
  }

  lemma PreparedIgnoresRuntime(s: Settings, a: Disk, b: Disk)
    requires a.dir == b.dir && a.etc == b.etc
    ensures Prepared(s, a).dir == Prepared(s, b).dir && Prepared(s, a).etc == Prepared(s, b).etc
  {
  }

  lemma ComposedIsRepaired(fragments: seq<Json>)
    ensures RepairText(Pretty(MergeOrdered(fragments))) == Pretty(MergeOrdered(fragments))
  {
    var folded := Fold(fragments);
    FoldIsFlat(fragments);
    NormalizedIsFlat(folded);
    RepairKeepsFlat(folded);
    RepairedIsValid(folded);
    NothingToRepair(MergeOrdered(fragments));
  }

  /** After one heal that composed, another leaves every file as it is, settled or not. */
  lemma HealTwice(sort: Sorter, s: Settings, d: Disk)
    requires Lists(sort) && ParsedDisk(d)
    requires HealDisk(sort, s, d, false).0 == Recomposed
    ensures var after := HealDisk(sort, s, d, false).1;
            HealDisk(sort, s, after, false).1 == after
  {
    var ready := Prepared(s, d);
    var after := HealDisk(sort, s, d, false).1;
    PreparedNames(sort, s, d);
    PreparedTwice(sort, s, d);
    ComposedIsRepaired(ParseAll(ready.dir, FragmentNames(sort, ready.dir)).value);
    if Assess(sort, after).NeedsCompose() {
      PreparedIgnoresRuntime(s, after.(etc := ready.etc), ready);
      PreparedIgnoresRuntime(s, after.(etc := None), ready.(etc := None));
      var again := Prepared(s, after);
      assert again.dir == after.dir;
      assert Composed(sort, again) == Composed(sort, ready) == after.runtime;
    }
  }
}
