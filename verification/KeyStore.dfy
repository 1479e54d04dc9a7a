/**
 Chatroom keys on disk, `chatroomStorage.js`: saving, loading and re-encrypting
 every record under the first key of the list.

 Encryption is symbolic: a sealed file opens under the key that sealed it and
 under no other. A version-2 file that no key could have sealed is `Clear`.
 */
module KeyStore {
  import opened Json

  type Bytes = seq<int>

  /** Base64 as Node's `Buffer` does it. */
  datatype Codec = Codec(decode: string -> Bytes, encode: Bytes -> string)

  /** Decoding undoes encoding, and only no bytes encode to no text. */
  ghost predicate Lawful(c: Codec) {
    forall b: Bytes :: c.decode(c.encode(b)) == b && (c.encode(b) == "" <==> b == [])
  }

  datatype File = Unreadable | Clear(data: Json) | Sealed(key: string, plain: Json)

  /** What `readJsonFile` returns; `participants` is an object from participant id to peer key. */
  datatype Keys = Keys(publicKey: Bytes, secretKey: Bytes, peer: Option<Json>, participants: Json)

  /** What a load returns: the stored keys and the peer key of the participant asked for. */
  datatype Loading = Loading(keys: Keys, peer: Option<Json>)

  // ----- names -----

  predicate SafeChar(c: char) {
    'a' <= c <= 'z' || 'A' <= c <= 'Z' || '0' <= c <= '9' || c == '_' || c == '-'
  }

  /** Every UTF-16 code unit outside the safe set becomes one underscore. */
  function Underscored(id: string): string {
    if id == "" then ""
    else (if SafeChar(id[0]) then [id[0]] else if id[0] as int >= 0x10000 then "__" else "_") + Underscored(id[1..])
  }

  function SafeFilename(id: string): string {
    if id == "" then "default"
    else
      var u := Underscored(id);
      if |u| <= 128 then u else u[..128]
  }

  function OrDefault(id: string): string {
    if id == "" then "default" else id
  }

  // ----- encryption -----

  function Encrypt(keys: seq<string>, data: Json): File
    requires data.Obj?
  {
    if keys == [] then Clear(Assign(data, "version", Num(Int(1)))) else Sealed(keys[0], data)
  }

  function Decrypt(keys: seq<string>, f: File): Option<Json> {
    match f
    case Unreadable => None
    case Clear(data) =>
      if !Truthy(At(data, "version")) || At(data, "version") == Some(Num(Int(1))) then Some(data) else None
    case Sealed(key, plain) => if key in keys then Some(plain) else None
  }

  // ----- reading -----

  function Present(o: Option<Json>): Option<Json> {
    if o.Some? && o.value != Null then o else None
  }

  /** `a ?? b`, where the reader takes `null` for nothing. */
  function Else(a: Option<Json>, b: Option<Json>): Option<Json> {
    Present(Coalesce(a, b))
  }

  predicate NonEmptyStr(j: Json) {
    j.Str? && j.s != ""
  }

  function KeepListed(keys: seq<string>, fields: map<string, Json>): seq<string> {
    if keys == [] then []
    else (if keys[0] in fields then [keys[0]] else []) + KeepListed(keys[1..], fields)
  }

  /** The entries with a non-empty name and a non-empty string. */
  function Entries(o: Json): (r: Json)
    requires o.Obj?
    ensures r.Obj?
  {
    var fields := map k | k in o.fields && k != "" && NonEmptyStr(o.fields[k]) :: o.fields[k];
    Obj(KeepListed(o.keys, fields), fields)
  }

  function Participants(data: Json): (r: Json)
    ensures r.Obj?
  {
    if IsObj(At(data, "participants")) then Entries(data.fields["participants"])
    else if Truthy(At(data, "peerPublicKeyBase64")) then
      Obj(["default"], map["default" := data.fields["peerPublicKeyBase64"]])
    else EMPTY
  }

  predicate FullStr(o: Option<Json>) {
    o.Some? && NonEmptyStr(o.value)
  }

  function Read(keys: seq<string>, c: Codec, f: File): (r: Option<Keys>)
    ensures r.Some? ==> r.value.participants.Obj?
  {
    var data := Decrypt(keys, f);
    if data.None? || !FullStr(At(data.value, "publicKeyBase64")) || !FullStr(At(data.value, "secretKeyBase64")) then None
    else
      var d := data.value;
      var participants := Participants(d);
      Some(Keys(c.decode(d.fields["publicKeyBase64"].s), c.decode(d.fields["secretKeyBase64"].s),
                Else(At(d, "peerPublicKeyBase64"), At(participants, "default")), participants))
  }

  /** The peer key handed out for a participant. */
  function PeerFor(k: Keys, pid: string): Option<Json> {
    Else(At(k.participants, OrDefault(pid)), Else(At(k.participants, "default"), k.peer))
  }

  // ----- writing -----

  /** The record that is saved for a key pair, a peer key of one participant and the keys of the others. */
  function Record(publicKey: string, secretKey: string, peer: Option<Json>, pid: string, others: Json): (d: Json)
    requires others.Obj?
    ensures d.Obj?
  {
    var merged := if Present(peer).Some? then Assign(others, OrDefault(pid), peer.value) else others;
    var legacy := Else(At(merged, "default"), peer);
    var base := Obj(["publicKeyBase64", "secretKeyBase64"],
                    map["publicKeyBase64" := Str(publicKey), "secretKeyBase64" := Str(secretKey)]);
    var withPeer := if legacy.Some? then Assign(base, "peerPublicKeyBase64", legacy.value) else base;
    Assign(withPeer, "participants", merged)
  }

  /** Agent directory and file name without `.json`. */
  type Path = (string, string)

  type Store = map<Path, File>

  function PathOf(agentId: string, conversationId: string): Path {
    (SafeFilename(OrDefault(agentId)), SafeFilename(OrDefault(conversationId)))
  }

  /** The peer keys that go into a record beside the one given: those given, or those already stored. */
  function OtherPeers(keys: seq<string>, c: Codec, s: Store, p: Path, peerKeys: Option<Json>): (r: Json)
    requires IsObj(peerKeys) || peerKeys.None?
    ensures r.Obj?
  {
    var stored := if p in s then Read(keys, c, s[p]) else None;
    if peerKeys.Some? then peerKeys.value else if stored.Some? then stored.value.participants else EMPTY
  }

  /** The store after a save. */
  function Saved(keys: seq<string>, c: Codec, s: Store, agentId: string, conversationId: string,
                 publicKey: string, secretKey: string, peer: Option<Json>, pid: string, peerKeys: Option<Json>): Store
    requires IsObj(peerKeys) || peerKeys.None?
  {
    var p := PathOf(agentId, conversationId);
    s[p := Encrypt(keys, Record(publicKey, secretKey, peer, pid, OtherPeers(keys, c, s, p, peerKeys)))]
  }

  function RotateOne(keys: seq<string>, c: Codec, s: Store, p: Path): Store
    requires p in s
  {
    var loaded := Read(keys, c, s[p]);
    if loaded.None? then s
    else
      var k := loaded.value;
      s[PathOf(p.0, p.1) := Encrypt(keys, Record(c.encode(k.publicKey), c.encode(k.secretKey), k.peer, "default", k.participants))]
  }

  function RotateAll(keys: seq<string>, c: Codec, s: Store, listing: seq<Path>): (r: Store)
    requires forall p | p in listing :: p in s
    ensures s.Keys <= r.Keys
  {
    if listing == [] then s
    else RotateOne(keys, c, RotateAll(keys, c, s, listing[..|listing| - 1]), listing[|listing| - 1])
  }

  /** How many of the listed records are rewritten. */
  function Rotations(keys: seq<string>, c: Codec, s: Store, listing: seq<Path>): nat
    requires forall p | p in listing :: p in s
  {
    if listing == [] then 0
    else
      var n := |listing| - 1;
      Rotations(keys, c, s, listing[..n]) + if Read(keys, c, RotateAll(keys, c, s, listing[..n])[listing[n]]).Some? then 1 else 0
  }

  class ChatroomStore {
    const codec: Codec
    var keys: seq<string>
    var files: Store
    var legacy: map<string, File>

    constructor (codec: Codec, keys: seq<string>, files: Store, legacy: map<string, File>)
      ensures this.codec == codec && this.keys == keys && this.files == files && this.legacy == legacy
    {
      this.codec, this.keys, this.files, this.legacy := codec, keys, files, legacy;
    }

    /** `saveChatroomKeysSync`: without explicit peer keys, those already stored are kept. */
    method Save(agentId: string, conversationId: string, publicKey: string, secretKey: string,
                peer: Option<Json>, pid: string, peerKeys: Option<Json>)
      requires IsObj(peerKeys) || peerKeys.None?
      modifies this`files
      ensures files == Saved(keys, codec, old(files), agentId, conversationId, publicKey, secretKey, peer, pid, peerKeys)
    {
      var p := PathOf(agentId, conversationId);
      var others := EMPTY;
      if peerKeys.Some? {
        others := peerKeys.value;
      } else if p in files {
        var stored := Read(keys, codec, files[p]);
        if stored.Some? {
          others := stored.value.participants;
        }
      }
      files := files[p := Encrypt(keys, Record(publicKey, secretKey, peer, pid, others))];
    }

    /** `loadChatroomKeysSync`: the key pair and the participant's peer key, from the new path or the old one. */
    method Load(agentId: string, conversationId: string, pid: string) returns (r: Option<Loading>)
      ensures r == Loaded(keys, codec, files, legacy, agentId, conversationId, pid)
    {
      var data := Find(agentId, PathOf(agentId, conversationId));
      if data.None? { return None; }
      return Some(Loading(data.value, PeerFor(data.value, pid)));
    }

    method Find(agentId: string, p: Path) returns (data: Option<Keys>)
      ensures data == Found(keys, codec, files, legacy, agentId, p)
    {
      data := if p in files then Read(keys, codec, files[p]) else None;
      if data.None? && OrDefault(agentId) == "default" && p.1 in legacy {
        data := Read(keys, codec, legacy[p.1]);
      }
    }

    /** `rotateChatroomKeysEncryptionSync` over a directory listing. */
    method Rotate(listing: seq<Path>) returns (rotated: nat, skipped: nat)
      requires forall p | p in listing :: p in files
      modifies this`files
      ensures files == if keys == [] then old(files) else RotateAll(keys, codec, old(files), listing)
      ensures keys != [] ==> rotated == Rotations(keys, codec, old(files), listing) && skipped == |listing| - rotated
      ensures keys == [] ==> rotated == skipped == 0
    {
      rotated, skipped := 0, 0;
      if keys == [] { return; }
      for i := 0 to |listing|
        invariant forall p | p in listing :: p in files
        invariant files == RotateAll(keys, codec, old(files), listing[..i])
        invariant rotated + skipped == i && rotated == Rotations(keys, codec, old(files), listing[..i])
      {
        assert listing[..i + 1][..i] == listing[..i];
        var p := listing[i];
        var loaded := Read(keys, codec, files[p]);
        if loaded.None? {
          skipped := skipped + 1;
          continue;
        }
        var k := loaded.value;
        Save(p.0, p.1, codec.encode(k.publicKey), codec.encode(k.secretKey), k.peer, "default", Some(k.participants));
        rotated := rotated + 1;
      }
      assert listing[..|listing|] == listing;
    }
  }

  /** The record at the new path, or for the default agent the one at the old path. */
  function Found(keys: seq<string>, c: Codec, files: Store, legacy: map<string, File>, agentId: string, p: Path): Option<Keys> {
    var data := if p in files then Read(keys, c, files[p]) else None;
    if data.None? && OrDefault(agentId) == "default" && p.1 in legacy then Read(keys, c, legacy[p.1]) else data
  }

  function Loaded(keys: seq<string>, c: Codec, files: Store, legacy: map<string, File>,
                  agentId: string, conversationId: string, pid: string): Option<Loading>
  {
    var found := Found(keys, c, files, legacy, agentId, PathOf(agentId, conversationId));
    if found.None? then None else Some(Loading(found.value, PeerFor(found.value, pid)))
  }
}
