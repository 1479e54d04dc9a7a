/** Rotating the encryption keys loses no record. */
module KeyRotation {
  import opened Json
  import opened KeyStore

  // ----- names -----

  lemma {:induction false} UnderscoredIsSafe(id: string)
    ensures forall c | c in Underscored(id) :: SafeChar(c)
    ensures id != "" ==> Underscored(id) != ""
  {
    if id != "" {
      UnderscoredIsSafe(id[1..]);
    }
  }

  lemma {:induction false} SafeStays(id: string)
    requires forall c | c in id :: SafeChar(c)
    ensures Underscored(id) == id
  {
    if id != "" {
      assert id[0] in id;
      assert forall c | c in id[1..] :: c in id;
      SafeStays(id[1..]);
      assert id == [id[0]] + id[1..];
    }
  }

  /** A file name made once is its own file name. */
  lemma SafeFilenameTwice(id: string)
    ensures SafeFilename(SafeFilename(id)) == SafeFilename(id) && SafeFilename(id) != ""
  {
    var name := SafeFilename(id);
    UnderscoredIsSafe(id);
    forall c | c in name ensures SafeChar(c) {
      if id != "" {
        assert c in Underscored(id);
      }
    }
    SafeStays(name);
  }

  /** Paths of records written by this code lead back to themselves. */
  lemma OwnPath(agentId: string, conversationId: string)
    ensures var p := PathOf(agentId, conversationId); PathOf(p.0, p.1) == p
  {
    SafeFilenameTwice(OrDefault(agentId));
    SafeFilenameTwice(OrDefault(conversationId));
  }

  // ----- one record -----

  /** Where a default participant is stored, it is the record's own peer key. */
  predicate Consistent(k: Keys) {
    At(k.participants, "default").Some? ==> k.peer == At(k.participants, "default")
  }

  function Rewritten(c: Codec, k: Keys): Json
    requires k.participants.Obj?
  {
    Record(c.encode(k.publicKey), c.encode(k.secretKey), k.peer, "default", k.participants)
  }

  lemma RecordFields(publicKey: string, secretKey: string, peer: Option<Json>, pid: string, others: Json)
    requires others.Obj?
    ensures var d := Record(publicKey, secretKey, peer, pid, others);
            var merged := if Present(peer).Some? then Assign(others, OrDefault(pid), peer.value) else others;
            At(d, "publicKeyBase64") == Some(Str(publicKey)) && At(d, "secretKeyBase64") == Some(Str(secretKey)) &&
            At(d, "peerPublicKeyBase64") == Else(At(merged, "default"), peer) &&
            At(d, "participants") == Some(merged) && At(d, "version") == None
  {
  }

  lemma EntriesAt(o: Json, k: string)
    requires o.Obj?
    ensures At(Entries(o), k) == if k != "" && FullStr(At(o, k)) then At(o, k) else None
  {
  }

  /** A saved record as its file holds it: plain and versioned when it was written without keys. */
  lemma SavedFields(written: seq<string>, publicKey: string, secretKey: string, peer: Option<Json>, pid: string, others: Json)
    requires others.Obj?
    ensures var d := Record(publicKey, secretKey, peer, pid, others);
            var f := Encrypt(written, d);
            var stored := if written == [] then Assign(d, "version", Num(Int(1))) else d;
            f == (if written == [] then Clear(stored) else Sealed(written[0], stored)) &&
            forall k | k != "version" :: At(stored, k) == At(d, k)
  {
  }

  /** Reading back a saved record under any list of keys that opens it. */
  lemma ReadRecord(written: seq<string>, keys: seq<string>, c: Codec, publicKey: string, secretKey: string,
                   peer: Option<Json>, pid: string, others: Json)
    requires others.Obj? && Opens(written, keys)
    ensures var r := Read(keys, c, Encrypt(written, Record(publicKey, secretKey, peer, pid, others)));
            var merged := if Present(peer).Some? then Assign(others, OrDefault(pid), peer.value) else others;
            r == if publicKey == "" || secretKey == "" then None
                 else Some(Keys(c.decode(publicKey), c.decode(secretKey),
                                Else(Else(At(merged, "default"), peer), At(Entries(merged), "default")), Entries(merged)))
  {
    RecordFields(publicKey, secretKey, peer, pid, others);
    SavedFields(written, publicKey, secretKey, peer, pid, others);
  }

  /** A record written under `written` opens under `keys`: it was written without keys, or its key is still listed. */
  predicate Opens(written: seq<string>, keys: seq<string>) {
    written == [] || written[0] in keys
  }

  /** Records written by this code are consistent, whatever keys there were then and are now. */
  lemma WrittenIsConsistent(written: seq<string>, keys: seq<string>, c: Codec, publicKey: string, secretKey: string,
                            peer: Option<Json>, pid: string, others: Json)
    requires others.Obj?
    ensures var r := Read(keys, c, Encrypt(written, Record(publicKey, secretKey, peer, pid, others)));
            r.Some? ==> Consistent(r.value)
  {
    if Opens(written, keys) {
      ReadRecord(written, keys, c, publicKey, secretKey, peer, pid, others);
      var merged := if Present(peer).Some? then Assign(others, OrDefault(pid), peer.value) else others;
      EntriesAt(merged, "default");
    }
  }

  /** Everything a caller can get from a record: the key pair and the peer key of every participant. */
  ghost predicate SameKeys(a: Keys, b: Keys) {
    a.publicKey == b.publicKey && a.secretKey == b.secretKey && forall pid :: PeerFor(a, pid) == PeerFor(b, pid)
  }

  /** Participant entries as `Participants` leaves them: named, and text unless there is only a default. */
  predicate CleanEntries(o: Json) {
    o.Obj? &&
    ((forall k | k in o.fields :: k != "" && NonEmptyStr(o.fields[k])) ||
     (o.fields.Keys == {"default"} && Truthy(At(o, "default"))))
  }

  lemma ReadIsClean(keys: seq<string>, c: Codec, f: File)
    ensures var r := Read(keys, c, f);
            r.Some? ==> CleanEntries(r.value.participants) && (r.value.peer.Some? ==> r.value.peer.value != Null) &&
                        (r.value.peer.None? ==> At(r.value.participants, "default").None?)
  {
  }

  /** The peer keys of a record after it was rewritten. */
  lemma RewrittenPeer(k: Keys, pid: string)
    requires CleanEntries(k.participants) && (k.peer.Some? ==> k.peer.value != Null)
    requires k.peer.None? ==> At(k.participants, "default").None?
    ensures var merged := if k.peer.Some? then Assign(k.participants, "default", k.peer.value) else k.participants;
            var after := Keys(k.publicKey, k.secretKey,
                              Else(Else(At(merged, "default"), k.peer), At(Entries(merged), "default")), Entries(merged));
            PeerFor(after, pid) == if OrDefault(pid) == "default" then k.peer else Else(At(k.participants, OrDefault(pid)), k.peer)
  {
    var merged := if k.peer.Some? then Assign(k.participants, "default", k.peer.value) else k.participants;
    EntriesAt(merged, OrDefault(pid));
    EntriesAt(merged, "default");
    if OrDefault(pid) != "default" {
      assert At(merged, OrDefault(pid)) == At(k.participants, OrDefault(pid));
    }
  }

  /** A rewritten record loads under the first key alone, and hands out the same keys exactly when it was consistent. */
  lemma RewriteKeepsExactly(keys: seq<string>, c: Codec, f: File)
    requires keys != [] && Lawful(c) && Read(keys, c, f).Some?
    ensures var k := Read(keys, c, f).value;
            var again := Read([keys[0]], c, Encrypt(keys, Rewritten(c, k)));
            && (again.Some? <==> k.publicKey != [] && k.secretKey != [])
            && (again.Some? ==> again.value.publicKey == k.publicKey && again.value.secretKey == k.secretKey)
            && (again.Some? ==> (SameKeys(again.value, k) <==> Consistent(k)))
  {
    var k := Read(keys, c, f).value;
    ReadIsClean(keys, c, f);
    ReadRecord(keys, [keys[0]], c, c.encode(k.publicKey), c.encode(k.secretKey), k.peer, "default", k.participants);
    assert c.decode(c.encode(k.publicKey)) == k.publicKey && c.decode(c.encode(k.secretKey)) == k.secretKey;
    var again := Read([keys[0]], c, Encrypt(keys, Rewritten(c, k)));
    if again.Some? {
      forall pid
        ensures PeerFor(again.value, pid) ==
                if OrDefault(pid) == "default" then k.peer else Else(At(k.participants, OrDefault(pid)), k.peer)
      {
        RewrittenPeer(k, pid);
      }
      if !Consistent(k) {
        assert PeerFor(k, "default") == At(k.participants, "default");
        assert PeerFor(again.value, "default") == k.peer;
      }
    }
  }

  // ----- the whole store -----

  ghost predicate OwnPaths(listing: seq<Path>) {
    forall p | p in listing :: PathOf(p.0, p.1) == p
  }

  /** What rotation makes of one file. */
  function RotatedFile(keys: seq<string>, c: Codec, f: File): File {
    var k := Read(keys, c, f);
    if k.None? then f else Encrypt(keys, Rewritten(c, k.value))
  }

  /** One rotation step rewrites its own record and nothing else. */
  lemma RotateOneLocal(keys: seq<string>, c: Codec, s: Store, p: Path)
    requires p in s && PathOf(p.0, p.1) == p
    ensures RotateOne(keys, c, s, p) == s[p := RotatedFile(keys, c, s[p])]
  {
  }

  /** Every listed file is rewritten once, every other file stays. */
  lemma {:induction false} RotateAllLocal(keys: seq<string>, c: Codec, s: Store, listing: seq<Path>)
    requires (forall p | p in listing :: p in s) && OwnPaths(listing) && Distinct(listing)
    ensures RotateAll(keys, c, s, listing).Keys == s.Keys
    ensures forall q | q in s ::
              RotateAll(keys, c, s, listing)[q] == if q in listing then RotatedFile(keys, c, s[q]) else s[q]
  {
    if listing != [] {
      var n := |listing| - 1;
      var last, rest := listing[n], listing[..n];
      LastIsNew(listing);
      RotateAllLocal(keys, c, s, rest);
      RotateOneLocal(keys, c, RotateAll(keys, c, s, rest), last);
    }
  }

  /** How many of the listed records some key opens. */
  function Readable(keys: seq<string>, c: Codec, s: Store, listing: seq<Path>): nat
    requires forall p | p in listing :: p in s
  {
    if listing == [] then 0
    else
      var n := |listing| - 1;
      Readable(keys, c, s, listing[..n]) + if Read(keys, c, s[listing[n]]).Some? then 1 else 0
  }

  /** The count of rotated records is the count of those that could be read before. */
  lemma {:induction false} RotatesReadable(keys: seq<string>, c: Codec, s: Store, listing: seq<Path>)
    requires (forall p | p in listing :: p in s) && OwnPaths(listing) && Distinct(listing)
    ensures Rotations(keys, c, s, listing) == Readable(keys, c, s, listing)
  {
    if listing != [] {
      var n := |listing| - 1;
      LastIsNew(listing);
      RotatesReadable(keys, c, s, listing[..n]);
      RotateAllLocal(keys, c, s, listing[..n]);
    }
  }

  lemma LastIsNew(listing: seq<Path>)
    requires listing != [] && Distinct(listing) && OwnPaths(listing)
    ensures var n := |listing| - 1;
            listing[n] in listing && listing[n] !in listing[..n] && Distinct(listing[..n]) && OwnPaths(listing[..n]) &&
            forall p :: p in listing <==> p in listing[..n] || p == listing[n]
  {
    var n := |listing| - 1;
    assert listing == listing[..n] + [listing[n]];
  }

  /** Every readable record with real keys loads under the first key alone and hands out what it did before. */
  lemma RotationLosesNothing(keys: seq<string>, c: Codec, s: Store, legacy: map<string, File>, listing: seq<Path>,
                             agentId: string, conversationId: string)
    requires keys != [] && Lawful(c)
    requires (forall p | p in listing :: p in s) && OwnPaths(listing) && Distinct(listing)
    requires var p := PathOf(agentId, conversationId);
             p in listing && Read(keys, c, s[p]).Some? && Consistent(Read(keys, c, s[p]).value) &&
             Read(keys, c, s[p]).value.publicKey != [] && Read(keys, c, s[p]).value.secretKey != []
    ensures forall pid ::
              var before := Loaded(keys, c, s, legacy, agentId, conversationId, pid);
              var after := Loaded([keys[0]], c, RotateAll(keys, c, s, listing), legacy, agentId, conversationId, pid);
              before.Some? && after.Some? && after.value.keys.publicKey == before.value.keys.publicKey &&
              after.value.keys.secretKey == before.value.keys.secretKey && after.value.peer == before.value.peer
  {
    var p := PathOf(agentId, conversationId);
    RotateAllLocal(keys, c, s, listing);
    RewriteKeepsExactly(keys, c, s[p]);
  }

  /** What `saveChatroomKeysSync` was called with, and the encryption keys at that time. */
  datatype WrittenRecord = WrittenRecord(written: seq<string>, agentId: string, conversationId: string, publicKey: string,
                         secretKey: string, peer: Option<Json>, pid: string, others: Json)

  /** The file at `p` is what a save with a real key pair left there, and its encryption key is still listed. */
  ghost predicate SavedAt(keys: seq<string>, c: Codec, s: Store, p: Path, w: WrittenRecord) {
    w.others.Obj? && Opens(w.written, keys) && c.decode(w.publicKey) != [] && c.decode(w.secretKey) != [] &&
    p == PathOf(w.agentId, w.conversationId) && p in s &&
    s[p] == Encrypt(w.written, Record(w.publicKey, w.secretKey, w.peer, w.pid, w.others))
  }

  ghost predicate AllSaved(keys: seq<string>, c: Codec, s: Store, listing: seq<Path>) {
    forall p | p in listing :: exists w :: SavedAt(keys, c, s, p, w)
  }

  /** What a save leaves is at its own path, readable, consistent, and has a real key pair. */
  lemma SavedIsRotatable(keys: seq<string>, c: Codec, s: Store, p: Path, w: WrittenRecord)
    requires Lawful(c) && SavedAt(keys, c, s, p, w)
    ensures PathOf(p.0, p.1) == p && Read(keys, c, s[p]).Some?
    ensures var k := Read(keys, c, s[p]).value; Consistent(k) && k.publicKey != [] && k.secretKey != []
  {
    OwnPath(w.agentId, w.conversationId);
    EmptyText(c);
    ReadRecord(w.written, keys, c, w.publicKey, w.secretKey, w.peer, w.pid, w.others);
    WrittenIsConsistent(w.written, keys, c, w.publicKey, w.secretKey, w.peer, w.pid, w.others);
  }

  lemma EmptyText(c: Codec)
    requires Lawful(c)
    ensures c.decode("") == []
  {
    assert c.decode(c.encode([])) == [] && c.encode([]) == "";
  }

  /**
   If this code wrote every listed file, with no keys or with a key that is still listed, then after a
   rotation every one of them loads under the first key alone and hands out what it did before.
   */
  lemma WrittenRecordsSurvive(keys: seq<string>, c: Codec, s: Store, legacy: map<string, File>, listing: seq<Path>,
                              agentId: string, conversationId: string)
    requires keys != [] && Lawful(c) && AllSaved(keys, c, s, listing) && Distinct(listing)
    requires PathOf(agentId, conversationId) in listing
    ensures forall p | p in listing :: p in s
    ensures forall pid ::
              var before := Loaded(keys, c, s, legacy, agentId, conversationId, pid);
              var after := Loaded([keys[0]], c, RotateAll(keys, c, s, listing), legacy, agentId, conversationId, pid);
              before.Some? && after.Some? && after.value.keys.publicKey == before.value.keys.publicKey &&
              after.value.keys.secretKey == before.value.keys.secretKey && after.value.peer == before.value.peer
  {
    forall p | p in listing ensures p in s && PathOf(p.0, p.1) == p {
      var w :| SavedAt(keys, c, s, p, w);
      SavedIsRotatable(keys, c, s, p, w);
    }
    var p := PathOf(agentId, conversationId);
    var w :| SavedAt(keys, c, s, p, w);
    SavedIsRotatable(keys, c, s, p, w);
    RotationLosesNothing(keys, c, s, legacy, listing, agentId, conversationId);
  }

  /** A file that no key opens is skipped and stays as it was. */
  lemma UnreadableStays(keys: seq<string>, c: Codec, s: Store, listing: seq<Path>, p: Path)
    requires (forall q | q in listing :: q in s) && OwnPaths(listing) && Distinct(listing)
    requires p in s && (p in listing ==> Read(keys, c, s[p]).None?)
    ensures p in RotateAll(keys, c, s, listing) && RotateAll(keys, c, s, listing)[p] == s[p]
  {
    RotateAllLocal(keys, c, s, listing);
  }
}
