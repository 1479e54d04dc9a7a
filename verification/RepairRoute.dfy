/**
 `tools/openclaw-repair-route.mjs`: repairing one config file in place.

 A file's text is known up to what the code can tell apart: whether it parses,
 to which value, and whether it is the text this code itself would write.
 */
module RepairRoute {
  import opened Json
  import opened KeyLists
  import opened ConfigMerge
  import opened MergeLaws
  import opened ParsedConfigs

  /** File contents: not JSON, the two-space print of `j` plus newline, or another text that parses to `j`. */
  datatype Text = NotJson(raw: string) | Pretty(j: Json) | Other(raw: string, j: Json)

  function ParseText(t: Text): Option<Json> {
    match t
    case NotJson(_) => None
    case Pretty(j) => Some(j)
    case Other(_, j) => Some(j)
  }

  predicate HasOmbRouter(cfg: Json) {
    IsArr(At(cfg, "plugins")) && exists p | p in cfg.fields["plugins"].items :: At(p, "id") == Some(Str("ombrouter"))
  }

  predicate Orphan(cfg: Json) {
    InvalidBlockrun(cfg) && !HasOmbRouter(cfg)
  }

  /** Drop `blockrun`, then `providers` and `models` when that leaves them empty. */
  function StripOrphan(cfg: Json): (r: Json)
    requires cfg.Obj?
    ensures r.Obj?
  {
    if !Orphan(cfg) then cfg
    else
      var models := cfg.fields["models"];
      var providers := Delete(models.fields["providers"], "blockrun");
      var models' := if providers.keys == [] then Delete(models, "providers") else Assign(models, "providers", providers);
      if models'.keys == [] then Delete(cfg, "models") else Assign(cfg, "models", models')
  }

  function RepairConfig(cfg: Json): (r: Json)
    requires cfg.Obj?
    ensures r.Obj?
  {
    RepairBlockrun(StripOrphan(Normalize(cfg)))
  }

  /** The `changed` flag: set when a step ran, also when hoisting found nothing it could hoist. */
  predicate Repairs(cfg: Json) {
    InvalidNestedModels(cfg) || InvalidBlockrun(Normalize(cfg))
  }

  function RepairText(t: Text): Text {
    match ParseText(t)
    case Some(cfg) => if cfg.Obj? && Repairs(cfg) then Pretty(RepairConfig(cfg)) else t
    case None => t
  }

  datatype Action = NotAnObject | InvalidJson | Hoisted | Stripped | RepairedBlockrun | StillInvalid | Fine

  /** The repair steps that run on an object, in order. */
  function Steps(cfg: Json): seq<Action>
    requires cfg.Obj?
  {
    (if InvalidNestedModels(cfg) then [Hoisted] else []) +
    (if Orphan(Normalize(cfg)) then [Stripped] else []) +
    (if InvalidBlockrun(StripOrphan(Normalize(cfg))) then [RepairedBlockrun] else [])
  }

  function RepairActions(t: Text): seq<Action> {
    match ParseText(t)
    case None => [InvalidJson]
    case Some(cfg) =>
      if !cfg.Obj? then [NotAnObject]
      else if InvalidModels(RepairConfig(cfg)) then Steps(cfg) + [StillInvalid]
      else if Steps(cfg) == [] then [Fine]
      else Steps(cfg)
  }

  method RepairObject(original: Json) returns (cfg: Json, changed: bool, actions: seq<Action>)
    requires original.Obj?
    ensures cfg == RepairConfig(original)
    ensures changed == Repairs(original)
    ensures actions == Steps(original)
  {
    cfg, changed, actions := original, false, [];
    NormalizeNested(original);
    if InvalidNestedModels(cfg) {
      cfg := Normalize(cfg);
      changed := true;
      actions := actions + [Hoisted];
    }
    assert cfg == Normalize(original);
    if Orphan(cfg) {
      cfg := StripOrphan(cfg);
      changed := true;
      actions := actions + [Stripped];
    }
    assert cfg == StripOrphan(Normalize(original));
    if InvalidBlockrun(cfg) {
      cfg := RepairBlockrun(cfg);
      changed := true;
      actions := actions + [RepairedBlockrun];
    }
  }

  /** `repairOpenClawJsonFile` on a file that exists: returns its new contents. */
  method RepairFile(text: Text) returns (out: Text, changed: bool, actions: seq<Action>)
    ensures out == RepairText(text)
    ensures actions == RepairActions(text)
    ensures changed <==> ParseText(text).Some? && ParseText(text).value.Obj? && Repairs(ParseText(text).value)
  {
    out := text;
    if text.NotJson? { return text, false, [InvalidJson]; }
    if !text.j.Obj? { return text, false, [NotAnObject]; }
    var cfg;
    cfg, changed, actions := RepairObject(text.j);
    if changed {
      out := Pretty(cfg);
    }
    if InvalidModels(cfg) {
      actions := actions + [StillInvalid];
    } else if actions == [] {
      actions := [Fine];
    }
  }

  // ----- what a repair achieves -----

  /** `models.models` is an object whose `providers` is not: nothing can be hoisted out of it. */
  predicate Stuck(cfg: Json) {
    InvalidNestedModels(cfg) && !IsObj(At(cfg.fields["models"].fields["models"], "providers"))
  }

  lemma NormalizeNested(cfg: Json)
    ensures InvalidNestedModels(Normalize(cfg)) <==> Stuck(cfg)
    ensures !InvalidNestedModels(cfg) ==> Normalize(cfg) == cfg
    ensures Stuck(cfg) ==> Normalize(cfg) == cfg
  {
  }

  /** What stripping does to `models`: its own nested `models` stays, `blockrun` goes. */
  lemma StrippedModels(cfg: Json)
    requires cfg.Obj? && Parsed(cfg) && Orphan(cfg)
    ensures var before := cfg.fields["models"];
            var after := At(StripOrphan(cfg), "models");
            && (after.None? ==> !IsObj(At(before, "models")))
            && (after.Some? ==> after.value.Obj? && At(after.value, "models") == At(before, "models"))
            && (after.Some? && IsObj(At(after.value, "providers")) ==>
                  At(after.value.fields["providers"], "blockrun") == None)
  {
    var models := cfg.fields["models"];
    assert Parsed(models);
    WithoutMembers(models.keys, "providers");
    var providers := Delete(models.fields["providers"], "blockrun");
    assert At(providers, "blockrun") == None;
    if IsObj(At(models, "models")) {
      assert "models" in models.keys;
    }
  }

  lemma StripResult(cfg: Json)
    requires cfg.Obj? && Parsed(cfg)
    ensures InvalidNestedModels(StripOrphan(cfg)) == InvalidNestedModels(cfg)
    ensures Orphan(cfg) ==> !InvalidBlockrun(StripOrphan(cfg))
    ensures !Hoistable(cfg) ==> !Hoistable(StripOrphan(cfg))
  {
    if Orphan(cfg) {
      StrippedModels(cfg);
    }
  }

  lemma RepairKeepsNested(j: Json)
    ensures InvalidNestedModels(RepairBlockrun(j)) == InvalidNestedModels(j)
  {
  }

  /** A repaired config is still invalid exactly when it was stuck; otherwise nothing is left to repair. */
  lemma StillInvalidExactly(cfg: Json)
    requires cfg.Obj? && Parsed(cfg)
    ensures InvalidModels(RepairConfig(cfg)) <==> Stuck(cfg)
    ensures !InvalidBlockrun(RepairConfig(cfg))
  {
    NormalizeNested(cfg);
    ParsedNormalize(cfg);
    StripResult(Normalize(cfg));
    RepairedIsValid(StripOrphan(Normalize(cfg)));
    RepairKeepsNested(StripOrphan(Normalize(cfg)));
  }

  /** Repairing again gives the same config. */
  lemma RepairTwice(cfg: Json)
    requires cfg.Obj? && Parsed(cfg)
    ensures RepairConfig(RepairConfig(cfg)) == RepairConfig(cfg)
  {
    StillInvalidExactly(cfg);
    NormalizedIsFlat(cfg);
    ParsedNormalize(cfg);
    StripResult(Normalize(cfg));
    RepairKeepsFlat(StripOrphan(Normalize(cfg)));
    NormalizedIsFlat(RepairConfig(cfg));
  }

  /** A second run reports a change again exactly when the config is stuck, although nothing changes. */
  lemma ReportsChangeAgain(cfg: Json)
    requires cfg.Obj? && Parsed(cfg)
    ensures Repairs(RepairConfig(cfg)) <==> Stuck(cfg)
  {
    StillInvalidExactly(cfg);
    NormalizeNested(RepairConfig(cfg));
  }

  /** A second run leaves the file's text as the first run left it. */
  lemma RepairFileTwice(text: Text)
    requires ParseText(text).Some? ==> Parsed(ParseText(text).value)
    ensures RepairText(RepairText(text)) == RepairText(text)
  {
    if ParseText(text).Some? && ParseText(text).value.Obj? {
      RepairTwice(ParseText(text).value);
    }
  }

  lemma NormalizeElsewhere(cfg: Json, k: string)
    requires k != "models"
    ensures At(Normalize(cfg), k) == At(cfg, k)
  {
  }

  lemma StripElsewhere(cfg: Json, k: string)
    requires cfg.Obj? && k != "models"
    ensures At(StripOrphan(cfg), k) == At(cfg, k)
  {
  }

  lemma RepairElsewhere(cfg: Json, k: string)
    requires k != "models"
    ensures At(RepairBlockrun(cfg), k) == At(cfg, k)
  {
  }

  /** Nothing outside `models` changes, and a config with nothing to repair does not change at all. */
  lemma RepairStaysInModels(cfg: Json)
    requires cfg.Obj?
    ensures forall k | k != "models" :: At(RepairConfig(cfg), k) == At(cfg, k)
    ensures !InvalidModels(cfg) ==> RepairConfig(cfg) == cfg && !Repairs(cfg)
  {
    NormalizeNested(cfg);
    forall k | k != "models" ensures At(RepairConfig(cfg), k) == At(cfg, k) {
      NormalizeElsewhere(cfg, k);
      StripElsewhere(Normalize(cfg), k);
      RepairElsewhere(StripOrphan(Normalize(cfg)), k);
    }
  }
}
