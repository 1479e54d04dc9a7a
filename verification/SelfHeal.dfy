/**
 The config healer of `openclawConfigSelfHeal.js`: assess, repair, force the
 transport fragment to local mode, compose.
 */
module SelfHeal {
  import opened Json
  import opened JsText
  import opened ConfigMerge
  import opened RepairRoute

  /** The fragment directory by file name, the runtime config, and a config copy at another path. */
  datatype Disk = Disk(dir: map<string, Text>, runtime: Option<Text>, etc: Option<Text>)

  const TRANSPORT := "10-gateway-transport.json"

  predicate EndsWith(s: string, suffix: string) {
    |suffix| <= |s| && s[|s| - |suffix|..] == suffix
  }

  predicate IsFragmentName(n: string) {
    EndsWith(n, ".json") && !("." <= n) && !EndsWith(n, ".bak")
  }

  /** The sorted listing of a set of names; the locale's order is a parameter. */
  type Sorter = set<string> -> seq<string>

  ghost predicate Lists(sort: Sorter) {
    forall names: set<string> ::
      (forall n :: n in sort(names) <==> n in names) &&
      forall i, j :: 0 <= i < j < |sort(names)| ==> sort(names)[i] != sort(names)[j]
  }

  function FragmentNames(sort: Sorter, dir: map<string, Text>): seq<string> {
    sort(set n | n in dir && IsFragmentName(n))
  }

  lemma FragmentNamesAre(sort: Sorter, dir: map<string, Text>)
    requires Lists(sort)
    ensures forall n :: n in FragmentNames(sort, dir) <==> n in dir && IsFragmentName(n)
    ensures forall i, j :: 0 <= i < j < |FragmentNames(sort, dir)| ==>
              FragmentNames(sort, dir)[i] != FragmentNames(sort, dir)[j]
  {
    var names := set n | n in dir && IsFragmentName(n);
    assert forall n :: n in sort(names) <==> n in names;
  }

  /** The parsed fragments, or nothing when one of them is not JSON. */
  function ParseAll(dir: map<string, Text>, names: seq<string>): Option<seq<Json>>
    requires forall n | n in names :: n in dir
  {
    if names == [] then Some([])
    else
      var last := |names| - 1;
      var rest := ParseAll(dir, names[..last]);
      var text := ParseText(dir[names[last]]);
      if rest.Some? && text.Some? then Some(rest.value + [text.value]) else None
  }

  // ----- assessment -----

  datatype Health =
    | NoFragments | FragmentError | RuntimeMissing | RuntimeInvalid | Mismatch | ModeNotLocal | Healthy
  {
    predicate NeedsCompose() { !NoFragments? && !Healthy? }
  }

  /** `String(j?.gateway?.mode || '').trim()`. */
  function GatewayMode(j: Json): string {
    var mode := if At(j, "gateway").Some? then At(j.fields["gateway"], "mode") else None;
    if Truthy(mode) then Trim(ToText(mode.value)) else ""
  }

  function Assess(sort: Sorter, d: Disk): Health
    requires Lists(sort)
  {
    var names := FragmentNames(sort, d.dir);
    if names == [] then NoFragments
    else
      var fragments := ParseAll(d.dir, names);
      if fragments.None? then FragmentError
      else if d.runtime.None? then RuntimeMissing
      else if ParseText(d.runtime.value).None? then RuntimeInvalid
      else if d.runtime.value != Pretty(MergeOrdered(fragments.value)) then Mismatch
      else if GatewayMode(ParseText(d.runtime.value).value) != "local" then ModeNotLocal
      else Healthy
  }

  // ----- the steps of a heal -----

  function RepairDir(dir: map<string, Text>, names: set<string>): map<string, Text> {
    map n | n in dir :: if n in names then RepairText(dir[n]) else dir[n]
  }

  function RepairOptional(t: Option<Text>): Option<Text> {
    if t.Some? then Some(RepairText(t.value)) else None
  }

  function RepairDisk(d: Disk): Disk {
    Disk(RepairDir(d.dir, set n | n in d.dir && IsFragmentName(n)), RepairOptional(d.runtime), RepairOptional(d.etc))
  }

  /** The transport fragment with `gateway.mode` set to `local`; a value that is no object is left or loses nothing. */
  function LocalMode(t: Text): Text {
    match ParseText(t)
    case Some(Obj(keys, fields)) =>
      var j := Obj(keys, fields);
      var gateway := ObjOrEmpty(At(j, "gateway"));
      if At(gateway, "mode") == Some(Str("local")) then t
      else Pretty(Assign(j, "gateway", Assign(gateway, "mode", Str("local"))))
    case Some(Arr(items)) => Pretty(Arr(items))
    case _ => t
  }

  function ForceLocal(d: Disk, writable: bool): Disk {
    if TRANSPORT in d.dir && writable then d.(dir := d.dir[TRANSPORT := LocalMode(d.dir[TRANSPORT])]) else d
  }

  /** What the compose tool writes; nothing when a fragment is not a JSON object or there is none. */
  function Composed(sort: Sorter, d: Disk): Option<Text>
    requires Lists(sort)
  {
    var names := FragmentNames(sort, d.dir);
    var fragments := ParseAll(d.dir, names);
    if names == [] || fragments.None? || exists f | f in fragments.value :: !f.Obj? then None
    else Some(Pretty(MergeOrdered(fragments.value)))
  }

  datatype Outcome = Disabled | Cooldown | ConfigOk | Recomposed | ComposeFailed

  /** Settings of the healer and of the files it can write. */
  datatype Settings = Settings(enabled: bool, cooldownMs: int, transportWritable: bool, etcWritable: bool)

  /** The disk just before compose runs. */
  function Prepared(s: Settings, d: Disk): Disk {
    ForceLocal(RepairDisk(d), s.transportWritable)
  }

  /** One heal that is neither disabled nor cooling down; `fault` is any failure of compose outside the fragments. */
  function HealDisk(sort: Sorter, s: Settings, d: Disk, fault: bool): (Outcome, Disk)
    requires Lists(sort)
  {
    if !Assess(sort, d).NeedsCompose() then (ConfigOk, d)
    else
      var ready := Prepared(s, d);
      var out := Composed(sort, ready);
      if fault || out.None? then (ComposeFailed, ready)
      else (Recomposed, ready.(runtime := out, etc := if s.etcWritable then out else ready.etc))
  }

  class Healer {
    const sort: Sorter
    const settings: Settings
    var disk: Disk
    var lastHealAt: int

    constructor (sort: Sorter, settings: Settings, disk: Disk)
      requires Lists(sort)
      ensures this.sort == sort && this.settings == settings && this.disk == disk && lastHealAt == 0
    {
      this.sort, this.settings, this.disk, lastHealAt := sort, settings, disk, 0;
    }

    /** Repairs every fragment, then the runtime config and its copy. */
    method RepairBeforeCompose()
      requires Lists(sort)
      modifies this`disk
      ensures disk == RepairDisk(old(disk))
    {
      var dir := disk.dir;
      var names := FragmentNames(sort, dir);
      FragmentNamesAre(sort, dir);
      for i := 0 to |names|
        invariant disk == old(disk)
        invariant dir == RepairDir(disk.dir, set n | n in names[..i])
      {
        assert names[i] in names;
        assert names[..i + 1] == names[..i] + [names[i]];
        var text, _, _ := RepairFile(dir[names[i]]);
        dir := dir[names[i] := text];
      }
      assert names[..|names|] == names;
      assert (set n | n in names) == set n | n in disk.dir && IsFragmentName(n);
      var runtime, etc := disk.runtime, disk.etc;
      if runtime.Some? {
        var text, _, _ := RepairFile(runtime.value);
        runtime := Some(text);
      }
      if etc.Some? {
        var text, _, _ := RepairFile(etc.value);
        etc := Some(text);
      }
      disk := Disk(dir, runtime, etc);
    }

    method EnsureGatewayModeLocal() returns (patched: bool)
      modifies this`disk
      ensures disk == ForceLocal(old(disk), settings.transportWritable)
      ensures patched <==>
                settings.transportWritable && TRANSPORT in old(disk).dir &&
                var t := old(disk).dir[TRANSPORT];
                !t.NotJson? && (t.j.Arr? || (t.j.Obj? && At(ObjOrEmpty(At(t.j, "gateway")), "mode") != Some(Str("local"))))
    {
      if TRANSPORT !in disk.dir || !settings.transportWritable { return false; }
      var text := disk.dir[TRANSPORT];
      if text.NotJson? || !(text.j.Obj? || text.j.Arr?) {
        assert disk.dir[TRANSPORT := text] == disk.dir;
        return false;
      }
      var j := text.j;
      if j.Obj? {
        var gateway := ObjOrEmpty(At(j, "gateway"));
        if At(gateway, "mode") == Some(Str("local")) {
          assert disk.dir[TRANSPORT := text] == disk.dir;
          return false;
        }
        gateway := Assign(gateway, "mode", Str("local"));
        j := Assign(j, "gateway", gateway);
      }
      disk := disk.(dir := disk.dir[TRANSPORT := Pretty(j)]);
      return true;
    }

    method Heal(force: bool, now: int, fault: bool) returns (outcome: Outcome)
      requires Lists(sort)
      modifies this
      ensures !settings.enabled ==> outcome == Disabled && disk == old(disk) && lastHealAt == old(lastHealAt)
      ensures settings.enabled && !force && now - old(lastHealAt) < settings.cooldownMs ==>
                outcome == Cooldown && disk == old(disk) && lastHealAt == old(lastHealAt)
      ensures settings.enabled && (force || now - old(lastHealAt) >= settings.cooldownMs) ==>
                (outcome, disk) == HealDisk(sort, settings, old(disk), fault) && lastHealAt == now
    {
      if !settings.enabled { return Disabled; }
      if !force && now - lastHealAt < settings.cooldownMs { return Cooldown; }
      if !Assess(sort, disk).NeedsCompose() {
        lastHealAt := now;
        return ConfigOk;
      }
      RepairBeforeCompose();
      var patched := EnsureGatewayModeLocal();
      lastHealAt := now;
      var out := Composed(sort, disk);
      if fault || out.None? { return ComposeFailed; }
      disk := disk.(runtime := out);
      if settings.etcWritable {
        disk := disk.(etc := out);
      }
      return Recomposed;
    }
  }
}
