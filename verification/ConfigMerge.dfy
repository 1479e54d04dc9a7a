/**
 The config merge of `tools/openclaw-json-merge.mjs` as functions on values.

 The source clones every input before it merges, and never keeps a node in two
 places of one tree, so updating in place and building a new value agree.
 */
module ConfigMerge {
  import opened Json

  // ----- deepMerge and mergePlugins -----

  function Merge(target: Json, source: Json): (r: Json)
    requires target.Obj? && source.Obj?
    ensures r.Obj?
    decreases source, 1
  {
    Obj(AppendNew(target.keys, source.keys),
        map k | k in target.fields.Keys + source.fields.Keys ::
          if k in source.fields then MergeValue(k, At(target, k), source.fields[k]) else target.fields[k])
  }

  /** What `target[k]` becomes when the source has `v` at `k`. */
  function MergeValue(k: string, cur: Option<Json>, v: Json): Json
    decreases v, 2
  {
    if k == "plugins" && v.Arr? then Arr(MergePlugins(ItemsOf(cur), v.items))
    else if v.Obj? then Merge(ObjOrEmpty(cur), v)
    else v
  }

  function MergePlugins(cur: seq<Json>, patch: seq<Json>): seq<Json>
    decreases patch, 0
  {
    if patch == [] then cur else MergePlugins(MergePlugin(cur, patch[0]), patch[1..])
  }

  function MergePlugin(cur: seq<Json>, pp: Json): seq<Json>
    decreases pp, 2
  {
    if !Admissible(pp) then cur
    else
      var i := FindId(cur, pp);
      if i == |cur| then cur + [pp] else cur[i := Overlay(cur[i], pp)]
  }

  /** One plugin entry over another: `config` merges, every other key is replaced. */
  function Overlay(existing: Json, pp: Json): (r: Json)
    requires existing.Obj? && pp.Obj?
    ensures r.Obj?
    decreases pp, 1
  {
    var e := if IsObj(At(pp, "config")) && !IsArr(At(existing, "config"))
             then Assign(existing, "config", Merge(ObjOrEmpty(At(existing, "config")), pp.fields["config"]))
             else existing;
    Obj(AppendNew(e.keys, Without(pp.keys, "config")), e.fields + (pp.fields - {"config"}))
  }

  function ItemsOf(o: Option<Json>): seq<Json> {
    if IsArr(o) then o.value.items else []
  }

  predicate IsArr(o: Option<Json>) {
    o.Some? && o.value.Arr?
  }

  /** The patch entries that are not skipped: objects with a truthy `id`. */
  predicate Admissible(pp: Json) {
    pp.Obj? && Truthy(At(pp, "id"))
  }

  /** `p.id === q.id` for nodes of two different trees: equal and not compared by reference. */
  predicate SameId(p: Json, q: Json) {
    At(p, "id").Some? && At(p, "id") == At(q, "id") && !IsArr(At(p, "id")) && !IsObj(At(p, "id"))
  }

  function FindId(cur: seq<Json>, pp: Json): (i: nat)
    ensures i <= |cur|
    ensures i < |cur| ==> SameId(cur[i], pp)
    ensures forall j | 0 <= j < i :: !SameId(cur[j], pp)
  {
    if cur == [] || SameId(cur[0], pp) then 0 else 1 + FindId(cur[1..], pp)
  }

  // ----- models.models -----

  /** `models.models.providers` is an object, with objects all the way down. */
  predicate Hoistable(j: Json) {
    IsObj(At(j, "models")) &&
    IsObj(At(j.fields["models"], "models")) &&
    IsObj(At(j.fields["models"].fields["models"], "providers"))
  }

  function Normalize(j: Json): (r: Json)
    ensures j.Obj? ==> r.Obj?
  {
    if !Hoistable(j) then j
    else
      var models := j.fields["models"];
      var nested := models.fields["models"].fields["providers"];
      var providers := if IsObj(At(models, "providers")) then Merge(models.fields["providers"], nested) else nested;
      Assign(j, "models", Delete(Assign(models, "providers", providers), "models"))
  }

  predicate InvalidNestedModels(j: Json) {
    IsObj(At(j, "models")) && IsObj(At(j.fields["models"], "models"))
  }

  // ----- the blockrun provider -----

  predicate HasBlockrun(j: Json) {
    IsObj(At(j, "models")) &&
    IsObj(At(j.fields["models"], "providers")) &&
    IsObj(At(j.fields["models"].fields["providers"], "blockrun"))
  }

  predicate NonEmptyList(o: Option<Json>) {
    IsArr(o) && o.value.items != []
  }

  predicate InvalidBlockrun(j: Json) {
    HasBlockrun(j) &&
    !NonEmptyList(At(j.fields["models"].fields["providers"].fields["blockrun"], "models"))
  }

  const AUTO_MODEL := Obj(["id"], map["id" := Str("blockrun/auto")])

  function DefaultStr(j: Json, k: string, text: string): (r: Json)
    requires j.Obj?
    ensures r.Obj?
  {
    if NonBlank(At(j, k)) then j else Assign(j, k, Str(text))
  }

  function CompleteBlockrun(blockrun: Json): (r: Json)
    requires blockrun.Obj?
    ensures r.Obj?
  {
    Assign(DefaultStr(DefaultStr(blockrun, "api", "openai-completions"), "apiKey", "x402-proxy-handles-auth"),
           "models", Arr([AUTO_MODEL]))
  }

  function RepairBlockrun(j: Json): (r: Json)
    ensures j.Obj? ==> r.Obj?
  {
    if !InvalidBlockrun(j) then j
    else
      var models := j.fields["models"];
      var providers := models.fields["providers"];
      var blockrun := providers.fields["blockrun"];
      var fixed := if NonBlank(At(blockrun, "baseUrl"))
                   then Assign(providers, "blockrun", CompleteBlockrun(blockrun))
                   else Delete(providers, "blockrun");
      Assign(j, "models", Assign(models, "providers", fixed))
  }

  predicate InvalidModels(j: Json) {
    InvalidNestedModels(j) || InvalidBlockrun(j)
  }

  // ----- the two entry points -----

  function MergePatch(base: Json, patch: Json): (r: Json)
    requires base.Obj? && patch.Obj?
    ensures r.Obj?
  {
    RepairBlockrun(Normalize(Merge(Normalize(base), Normalize(patch))))
  }

  /** The loop of `mergeOrderedFragments`: everything that is not an object is skipped. */
  function Fold(fragments: seq<Json>): (out: Json)
    ensures out.Obj?
  {
    if fragments == [] then EMPTY
    else
      var out := Fold(fragments[..|fragments| - 1]);
      var last := fragments[|fragments| - 1];
      if last.Obj? then Merge(out, Normalize(last)) else out
  }

  function MergeOrdered(fragments: seq<Json>): (r: Json)
    ensures r.Obj?
  {
    RepairBlockrun(Normalize(Fold(fragments)))
  }
}
