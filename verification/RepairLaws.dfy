/** What the blockrun repair and the route repair do to a config, key by key. */
module RepairLaws {
  import opened Json
  import opened KeyLists
  import opened ConfigMerge
  import opened ParsedConfigs
  import opened RepairRoute

  function Models(j: Json): Option<Json> {
    At(j, "models")
  }

  function Providers(j: Json): Option<Json> {
    Child(Models(j), "providers")
  }

  function Blockrun(j: Json): Option<Json> {
    Child(Providers(j), "blockrun")
  }

  /** A provider object without a list of models that has an entry. */
  ghost predicate Unlisted(b: Option<Json>) {
    b.Some? && b.value.Obj? && !exists m, more :: At(b.value, "models") == Some(Arr([m] + more))
  }

  ghost predicate HasInk(o: Option<Json>) {
    o.Some? && o.value.Str? && Trim(o.value.s) != ""
  }

  lemma UnlistedExactly(j: Json)
    ensures InvalidBlockrun(j) <==> Unlisted(Blockrun(j))
  {
    if HasBlockrun(j) {
      var ms := At(Blockrun(j).value, "models");
      if NonEmptyList(ms) {
        assert ms.value.items == [ms.value.items[0]] + ms.value.items[1..];
      }
    }
  }

  /** `a` and `b` hold the same but for key `k`. */
  ghost predicate SameElsewhere(a: Option<Json>, b: Option<Json>, k: string) {
    forall x | x != k :: Child(a, x) == Child(b, x)
  }

  /** The completed entry: its defaults where there was no text, one model, and every other key as it was. */
  ghost predicate Completed(b: Json, c: Option<Json>) {
    c.Some? && c.value.Obj? &&
    At(c.value, "models") == Some(Arr([Obj(["id"], map["id" := Str("blockrun/auto")])])) &&
    At(c.value, "api") == (if HasInk(At(b, "api")) then At(b, "api") else Some(Str("openai-completions"))) &&
    At(c.value, "apiKey") == (if HasInk(At(b, "apiKey")) then At(b, "apiKey") else Some(Str("x402-proxy-handles-auth"))) &&
    forall k | k != "models" && k != "api" && k != "apiKey" :: At(c.value, k) == At(b, k)
  }

  lemma CompleteExactly(b: Json)
    requires b.Obj?
    ensures Completed(b, Some(CompleteBlockrun(b)))
    ensures forall k | k in b.keys :: k in CompleteBlockrun(b).keys
    ensures CompleteBlockrun(b).keys[..|b.keys|] == b.keys
  {
  }

  /**
   A blockrun entry without models is completed when it has a base URL and dropped when it has none;
   every other key, at every level, stays as it was. Any other config is left alone.
   */
  lemma BlockrunExactly(j: Json)
    requires j.Obj?
    ensures !Unlisted(Blockrun(j)) ==> RepairBlockrun(j) == j
    ensures Unlisted(Blockrun(j)) ==>
              var r := RepairBlockrun(j);
              r.keys == j.keys && SameElsewhere(Some(r), Some(j), "models") &&
              Models(r).Some? && Models(r).value.Obj? && Models(r).value.keys == Models(j).value.keys &&
              SameElsewhere(Models(r), Models(j), "providers") &&
              Providers(r).Some? && Providers(r).value.Obj? && SameElsewhere(Providers(r), Providers(j), "blockrun")
    ensures Unlisted(Blockrun(j)) && HasInk(At(Blockrun(j).value, "baseUrl")) ==>
              Completed(Blockrun(j).value, Blockrun(RepairBlockrun(j))) &&
              Providers(RepairBlockrun(j)).value.keys == Providers(j).value.keys
    ensures Unlisted(Blockrun(j)) && !HasInk(At(Blockrun(j).value, "baseUrl")) ==>
              Blockrun(RepairBlockrun(j)).None? &&
              Providers(RepairBlockrun(j)).value.keys == Without(Providers(j).value.keys, "blockrun")
  {
    UnlistedExactly(j);
    if Unlisted(Blockrun(j)) {
      CompleteExactly(Blockrun(j).value);
    }
  }

  // ----- the route repair -----

  ghost predicate HasRouter(j: Json) {
    exists ps, p :: At(j, "plugins") == Some(Arr(ps)) && p in ps && At(p, "id") == Some(Str("ombrouter"))
  }

  lemma RouterExactly(j: Json)
    ensures HasOmbRouter(j) <==> HasRouter(j)
  {
    if HasRouter(j) {
      var ps, p :| At(j, "plugins") == Some(Arr(ps)) && p in ps && At(p, "id") == Some(Str("ombrouter"));
      assert p in j.fields["plugins"].items;
    }
    if HasOmbRouter(j) {
      var p :| p in j.fields["plugins"].items && At(p, "id") == Some(Str("ombrouter"));
      assert At(j, "plugins") == Some(Arr(j.fields["plugins"].items));
    }
  }

  /** What is left of an object without key `k`: nothing when that was its only key. */
  ghost predicate Dropped(before: Json, k: string, after: Option<Json>)
    requires before.Obj?
  {
    if forall x | x in before.keys :: x == k then after.None?
    else after.Some? && after.value.Obj? && after.value.keys == Without(before.keys, k) && At(after.value, k).None? &&
         SameElsewhere(after, Some(before), k)
  }

  lemma DeleteDrops(o: Json, k: string)
    requires o.Obj?
    ensures Dropped(o, k, if Delete(o, k).keys == [] then None else Some(Delete(o, k)))
  {
    WithoutMembers(o.keys, k);
    if Delete(o, k).keys != [] {
      assert Delete(o, k).keys[0] in Delete(o, k).keys;
    }
  }

  /** An object whose member `k` became `after`, or went and was the last one. */
  ghost predicate Replaced(before: Json, k: string, after: Option<Json>, result: Option<Json>)
    requires before.Obj?
  {
    if after.None? then Dropped(before, k, result)
    else result.Some? && result.value.Obj? && result.value.keys == before.keys && At(result.value, k) == after &&
         SameElsewhere(result, Some(before), k)
  }

  /**
   Without the ombrouter plugin a blockrun entry without models goes, and with it `providers` and then
   `models` when nothing else is in them; every other key stays as it was.
   */
  lemma OrphanExactly(j: Json) returns (providers: Option<Json>, models: Option<Json>)
    requires j.Obj? && Parsed(j) && Unlisted(Blockrun(j)) && !HasRouter(j)
    ensures Dropped(Providers(j).value, "blockrun", providers)
    ensures Replaced(Models(j).value, "providers", providers, models)
    ensures Models(StripOrphan(j)) == models && SameElsewhere(Some(StripOrphan(j)), Some(j), "models")
    ensures StripOrphan(j).keys == if models.Some? then j.keys else Without(j.keys, "models")
  {
    UnlistedExactly(j);
    RouterExactly(j);
    assert Parsed(Models(j).value);
    providers, models := StrippedParts(Models(j).value, Providers(j).value);
    StrippedIs(j, models);
    WithoutMembers(j.keys, "models");
  }

  lemma StrippedParts(m: Json, p: Json) returns (providers: Option<Json>, models: Option<Json>)
    requires m.Obj? && p.Obj? && "providers" in m.keys && At(m, "providers") == Some(p)
    ensures Dropped(p, "blockrun", providers) && Replaced(m, "providers", providers, models)
    ensures var p' := Delete(p, "blockrun");
            var m' := if p'.keys == [] then Delete(m, "providers") else Assign(m, "providers", p');
            providers == (if p'.keys == [] then None else Some(p')) && models == if m'.keys == [] then None else Some(m')
  {
    var p' := Delete(p, "blockrun");
    DeleteDrops(p, "blockrun");
    DeleteDrops(m, "providers");
    providers := if p'.keys == [] then None else Some(p');
    var m' := if p'.keys == [] then Delete(m, "providers") else Assign(m, "providers", p');
    models := if m'.keys == [] then None else Some(m');
  }

  lemma StrippedIs(j: Json, models: Option<Json>)
    requires j.Obj? && Orphan(j)
    requires var p' := Delete(Providers(j).value, "blockrun");
             var m' := if p'.keys == [] then Delete(Models(j).value, "providers") else Assign(Models(j).value, "providers", p');
             models == if m'.keys == [] then None else Some(m')
    ensures StripOrphan(j) == if models.Some? then Assign(j, "models", models.value) else Delete(j, "models")
  {
  }

  /**
   The route repair, on the config with its nested providers hoisted: nothing to do unless the blockrun entry
   has no models; then it is stripped without the ombrouter plugin and repaired as by the merge with it.
   */
  lemma RouteRepairExactly(cfg: Json)
    requires cfg.Obj? && Parsed(cfg)
    ensures var j := Normalize(cfg);
            RepairConfig(cfg) ==
            if !Unlisted(Blockrun(j)) then j else if HasRouter(j) then RepairBlockrun(j) else StripOrphan(j)
  {
    var j := Normalize(cfg);
    UnlistedExactly(j);
    RouterExactly(j);
    ParsedNormalize(cfg);
    StripResult(j);
  }

  /** What a run reports, and when it writes: also when nested models are there that it cannot hoist. */
  lemma ActionsExactly(t: Text)
    requires ParseText(t).Some? && ParseText(t).value.Obj? && Parsed(ParseText(t).value)
    ensures var cfg := ParseText(t).value;
            var nested := Child(Models(cfg), "models");
            var hoists := Models(cfg).Some? && nested.Some? && nested.value.Obj?;
            var b := Unlisted(Blockrun(Normalize(cfg)));
            var stuck := hoists && !(Child(nested, "providers").Some? && Child(nested, "providers").value.Obj?);
            RepairActions(t) == Listed(hoists, b && !HasRouter(cfg), b && HasRouter(cfg), stuck) &&
            RepairText(t) == if hoists || b then Pretty(RepairConfig(cfg)) else t
  {
    var cfg := ParseText(t).value;
    UnlistedExactly(Normalize(cfg));
    RouterExactly(Normalize(cfg));
    RouterExactly(cfg);
    assert At(Normalize(cfg), "plugins") == At(cfg, "plugins");
    ParsedNormalize(cfg);
    StripResult(Normalize(cfg));
    StillInvalidExactly(cfg);
  }

  function Listed(hoists: bool, strips: bool, repairs: bool, stuck: bool): seq<Action> {
    if !hoists && !strips && !repairs && !stuck then [Fine]
    else
      (if hoists then [Hoisted] else []) + (if strips then [Stripped] else []) +
      (if repairs then [RepairedBlockrun] else []) + if stuck then [StillInvalid] else []
  }
}
