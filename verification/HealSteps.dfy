/** What one heal does to each file, and when it does nothing. */
module HealSteps {
  import opened Json
  import opened ConfigMerge
  import opened RepairRoute
  import opened SelfHeal
  import opened HealLaws

  /** Fragment files end in ".json" and do not start with a dot. */
  lemma FragmentNameExactly(n: string)
    ensures IsFragmentName(n) <==> exists stem :: n == stem + ".json" && stem != "" && stem[0] != '.'
  {
    if IsFragmentName(n) {
      var stem := n[..|n| - 5];
      assert n == stem + ".json";
      assert n[0] != '.' by { assert n[..1] == [n[0]]; }
      assert stem != "" && stem[0] == n[0];
    }
    if exists stem :: n == stem + ".json" && stem != "" && stem[0] != '.' {
      var stem :| n == stem + ".json" && stem != "" && stem[0] != '.';
      assert n[|n| - 5..] == ".json" && n[0] == stem[0];
      assert n[|n| - 4..] == "json" && "json"[0] != ".bak"[0];
    }
  }

  // ----- the transport fragment -----

  /** `j` with its mode set: every other key as it was, and a `gateway` that is no object replaced by one. */
  ghost predicate WithLocalMode(j: Json, k: Json)
    requires j.Obj?
  {
    var own := At(j, "gateway");
    k.Obj? && (forall x | x != "gateway" :: At(k, x) == At(j, x)) &&
    k.keys == (if own.Some? then j.keys else j.keys + ["gateway"]) &&
    At(k, "gateway").Some? &&
    var g := At(k, "gateway").value;
    g.Obj? && At(g, "mode") == Some(Str("local")) &&
    if own.Some? && own.value.Obj?
    then (forall x | x != "mode" :: At(g, x) == At(own.value, x)) &&
         g.keys == if "mode" in own.value.fields then own.value.keys else own.value.keys + ["mode"]
    else g == Obj(["mode"], map["mode" := Str("local")])
  }

  /** A file whose mode is local, or whose value is no object, keeps its value; any other gets the mode and nothing else. */
  lemma LocalModeExactly(t: Text)
    ensures t.NotJson? ==> LocalMode(t) == t
    ensures !t.NotJson? && !t.j.Obj? ==> LocalMode(t) == if t.j.Arr? then Pretty(t.j) else t
    ensures !t.NotJson? && t.j.Obj? ==>
              if At(t.j, "gateway").Some? && At(At(t.j, "gateway").value, "mode") == Some(Str("local")) then LocalMode(t) == t
              else LocalMode(t).Pretty? && WithLocalMode(t.j, LocalMode(t).j)
  {
    if !t.NotJson? && t.j.Obj? {
      var j, g := t.j, ObjOrEmpty(At(t.j, "gateway"));
      assert j == Obj(j.keys, j.fields);
      if At(g, "mode") != Some(Str("local")) {
        assert LocalMode(t) == Pretty(Assign(j, "gateway", Assign(g, "mode", Str("local"))));
        if g == EMPTY { assert Assign(g, "mode", Str("local")) == Obj(["mode"], map["mode" := Str("local")]); }
      }
    }
  }

  /** Before composing, each fragment is repaired, the transport fragment set to local, and the runtime config and its copy repaired. */
  lemma PreparedExactly(s: Settings, d: Disk)
    ensures Prepared(s, d).dir.Keys == d.dir.Keys
    ensures forall n | n in d.dir ::
              Prepared(s, d).dir[n] ==
              if !IsFragmentName(n) then d.dir[n]
              else if n == "10-gateway-transport.json" && s.transportWritable then LocalMode(RepairText(d.dir[n]))
              else RepairText(d.dir[n])
    ensures d.runtime.None? ==> Prepared(s, d).runtime.None?
    ensures d.runtime.Some? ==> Prepared(s, d).runtime == Some(RepairText(d.runtime.value))
    ensures d.etc.None? ==> Prepared(s, d).etc.None?
    ensures d.etc.Some? ==> Prepared(s, d).etc == Some(RepairText(d.etc.value))
  {
    TransportIsFragment();
  }

  // ----- one heal -----

  /** The values of the listed files. */
  ghost predicate Reads(dir: map<string, Text>, names: seq<string>, values: seq<Json>) {
    |values| == |names| && forall i | 0 <= i < |names| :: names[i] in dir && ParseText(dir[names[i]]) == Some(values[i])
  }

  lemma ReadsExactly(dir: map<string, Text>, names: seq<string>)
    requires forall n | n in names :: n in dir
    ensures ParseAll(dir, names).Some? ==> Reads(dir, names, ParseAll(dir, names).value)
    ensures forall values | Reads(dir, names, values) :: ParseAll(dir, names) == Some(values)
  {
    ParseAllIs(dir, names);
    forall values | Reads(dir, names, values) ensures ParseAll(dir, names) == Some(values) {
      forall n | n in names ensures ParseText(dir[n]).Some? {
        var i :| 0 <= i < |names| && names[i] == n;
        assert ParseText(dir[names[i]]) == Some(values[i]);
      }
      assert ParseAll(dir, names).value == values;
    }
  }

  /** The runtime config is the composition of the fragments, and its mode is local. */
  ghost predicate Settled(sort: Sorter, d: Disk) {
    exists values :: Reads(d.dir, FragmentNames(sort, d.dir), values) && d.runtime == Some(Pretty(MergeOrdered(values))) &&
                     GatewayMode(MergeOrdered(values)) == "local"
  }

  /** A heal leaves everything alone exactly when there are no fragments or the runtime config is settled. */
  lemma ConfigOkExactly(sort: Sorter, s: Settings, d: Disk, fault: bool)
    requires Lists(sort)
    ensures HealDisk(sort, s, d, fault).0 == ConfigOk <==> FragmentNames(sort, d.dir) == [] || Settled(sort, d)
    ensures HealDisk(sort, s, d, fault).0 == ConfigOk ==> HealDisk(sort, s, d, fault).1 == d
  {
    FragmentNamesAre(sort, d.dir);
    ReadsExactly(d.dir, FragmentNames(sort, d.dir));
  }

  /** What the fragments of `d` compose to, when there are some, all of them objects. */
  ghost predicate Composes(sort: Sorter, d: Disk, values: seq<Json>) {
    FragmentNames(sort, d.dir) != [] && Reads(d.dir, FragmentNames(sort, d.dir), values) && forall v | v in values :: v.Obj?
  }

  lemma ComposedExactly(sort: Sorter, d: Disk)
    requires Lists(sort)
    ensures Composed(sort, d).Some? <==> exists values :: Composes(sort, d, values)
    ensures forall values | Composes(sort, d, values) :: Composed(sort, d) == Some(Pretty(MergeOrdered(values)))
  {
    FragmentNamesAre(sort, d.dir);
    var names := FragmentNames(sort, d.dir);
    ReadsExactly(d.dir, names);
    if Composed(sort, d).Some? {
      assert Composes(sort, d, ParseAll(d.dir, names).value);
    }
  }

  /**
   A heal that does something prepares the files and composes them into the runtime config, and into its
   copy when that can be written; it fails, with the files prepared, exactly when the prepared fragments are
   not all objects or something else goes wrong.
   */
  lemma RecomposedExactly(sort: Sorter, s: Settings, d: Disk, fault: bool)
    requires Lists(sort) && HealDisk(sort, s, d, fault).0 != ConfigOk
    ensures var ready, after := Prepared(s, d), HealDisk(sort, s, d, fault).1;
            after.dir == ready.dir &&
            (HealDisk(sort, s, d, fault).0 == Recomposed <==> !fault && exists values :: Composes(sort, ready, values)) &&
            (HealDisk(sort, s, d, fault).0 == ComposeFailed ==> after == ready) &&
            (HealDisk(sort, s, d, fault).0 == Recomposed ==>
              forall values | Composes(sort, ready, values) ::
                after.runtime == Some(Pretty(MergeOrdered(values))) &&
                after.etc == if s.etcWritable then after.runtime else ready.etc)
    ensures HealDisk(sort, s, d, fault).0 in {Recomposed, ComposeFailed}
  {
    ComposedExactly(sort, Prepared(s, d));
  }
}
