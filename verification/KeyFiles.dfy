/** Which file a chatroom's keys are in, and what saving one record does to it and to the others. */
module KeyFiles {
  import opened Json
  import opened KeyStore
  import opened KeyRotation

  // ----- file names -----

  /** What a file name can hold of an id: `[a-zA-Z0-9_-]`. */
  predicate Plain(c: char) {
    'a' <= c <= 'z' || 'A' <= c <= 'Z' || '0' <= c <= '9' || c in {'_', '-'}
  }

  /** How many places a character takes: one for each of its UTF-16 code units. */
  function Width(c: char): nat {
    if c as int > 0xFFFF then 2 else 1
  }

  /** The place in the name at which character `i` of the id starts. */
  function Place(id: string, i: nat): nat
    requires i <= |id|
  {
    if i == 0 then 0 else Place(id, i - 1) + Width(id[i - 1])
  }

  lemma {:induction false} PlaceTail(id: string, i: nat)
    requires i < |id|
    ensures Place(id, i + 1) == Width(id[0]) + Place(id[1..], i)
  {
    if i > 0 { PlaceTail(id, i - 1); }
  }

  lemma {:induction false} UnderscoredLength(id: string)
    ensures |Underscored(id)| == Place(id, |id|)
  {
    if id != "" {
      UnderscoredLength(id[1..]);
      PlaceTail(id, |id| - 1);
    }
  }

  lemma {:induction false} PlacesGrow(id: string, i: nat)
    requires i <= |id|
    ensures Place(id, i) <= Place(id, |id|)
    decreases |id| - i
  {
    if i < |id| { PlacesGrow(id, i + 1); }
  }

  /** Underscores stand for every code unit of what is not plain; the rest is in its place. */
  lemma {:induction false} UnderscoredAt(id: string, i: nat)
    requires i < |id|
    ensures |Underscored(id)| == Place(id, |id|)
    ensures Place(id, i) < Place(id, i + 1) <= |Underscored(id)|
    ensures forall p | Place(id, i) <= p < Place(id, i + 1) :: Underscored(id)[p] == if Plain(id[i]) then id[i] else '_'
  {
    UnderscoredLength(id);
    PlacesGrow(id, i + 1);
    var piece := if Plain(id[0]) then [id[0]] else if Width(id[0]) == 2 then "__" else "_";
    assert Underscored(id) == piece + Underscored(id[1..]);
    if i > 0 {
      UnderscoredAt(id[1..], i - 1);
      PlaceTail(id, i - 1);
      PlaceTail(id, i);
    }
  }

  /** The name of a file, character by character: 128 places at most, and `default` for no id. */
  lemma NameExactly(id: string, i: nat)
    requires i < |id|
    ensures var name := SafeFilename(id);
            |name| == (if Place(id, |id|) <= 128 then Place(id, |id|) else 128) &&
            forall p | Place(id, i) <= p < Place(id, i + 1) && p < |name| :: name[p] == if Plain(id[i]) then id[i] else '_'
    ensures SafeFilename("") == "default"
  {
    UnderscoredAt(id, i);
  }

  /** An id that a file can be named after as it is. */
  predicate PlainId(id: string) {
    1 <= |id| <= 128 && forall i | 0 <= i < |id| :: Plain(id[i])
  }

  lemma {:induction false} PlainPlaces(id: string, i: nat)
    requires i <= |id| && forall c | c in id :: Plain(c)
    ensures Place(id, i) == i
  {
    if i > 0 {
      assert id[i - 1] in id;
      PlainPlaces(id, i - 1);
    }
  }

  /** A plain id is its own file name. */
  lemma PlainName(id: string)
    requires PlainId(id)
    ensures SafeFilename(id) == id
  {
    var name := SafeFilename(id);
    PlainPlaces(id, |id|);
    NameExactly(id, 0);
    forall i | 0 <= i < |id| ensures name[i] == id[i] {
      PlainPlaces(id, i);
      PlainPlaces(id, i + 1);
      NameExactly(id, i);
    }
    assert name == id;
  }

  /** Plain ids name their file; no id at all is the id `default`. */
  lemma PlainPath(agentId: string, conversationId: string)
    requires PlainId(agentId) && PlainId(conversationId)
    ensures PathOf(agentId, conversationId) == (agentId, conversationId)
    ensures PathOf("", conversationId) == ("default", conversationId) && PathOf(agentId, "") == (agentId, "default")
  {
    PlainName(agentId);
    PlainName(conversationId);
    PlainName("default");
  }

  // ----- saving and loading -----

  /** Saving one conversation's keys leaves what any other conversation of plain ids loads as it was. */
  lemma SaveElsewhere(keys: seq<string>, c: Codec, s: Store, legacy: map<string, File>,
                      a: string, b: string, publicKey: string, secretKey: string, peer: Option<Json>, pid: string,
                      peerKeys: Option<Json>, a': string, b': string, reader: string)
    requires IsObj(peerKeys) || peerKeys.None?
    requires PlainId(a) && PlainId(b) && PlainId(a') && PlainId(b') && (a != a' || b != b')
    ensures Loaded(keys, c, Saved(keys, c, s, a, b, publicKey, secretKey, peer, pid, peerKeys), legacy, a', b', reader) ==
            Loaded(keys, c, s, legacy, a', b', reader)
  {
    PlainPath(a, b);
    PlainPath(a', b');
  }

  /** The stored peer keys of one record, read off its fields. */
  function StoredPeer(others: Json, pid: string): Option<Json> {
    if others.Obj? && pid in others.fields && others.fields[pid].Str? && others.fields[pid].s != "" then Some(others.fields[pid]) else None
  }

  /**
   What loading a conversation's keys gives right after they were saved: the key pair; for the participant
   saved with a peer key, that; for another, its own stored key, or else that of `default`, or else the one saved.
   */
  lemma SaveThenLoad(keys: seq<string>, c: Codec, s: Store, legacy: map<string, File>, a: string, b: string,
                     publicKey: string, secretKey: string, peer: string, pid: string, peerKeys: Option<Json>, reader: string)
    requires (IsObj(peerKeys) || peerKeys.None?) && publicKey != "" && secretKey != "" && peer != "" && pid != "" && reader != ""
    ensures var others := OtherPeers(keys, c, s, PathOf(a, b), peerKeys);
            var own := if reader == pid then Some(Str(peer)) else StoredPeer(others, reader);
            var default := if pid == "default" then Some(Str(peer)) else StoredPeer(others, "default");
            var r := Loaded(keys, c, Saved(keys, c, s, a, b, publicKey, secretKey, Some(Str(peer)), pid, peerKeys), legacy, a, b, reader);
            r.Some? && r.value.keys.publicKey == c.decode(publicKey) && r.value.keys.secretKey == c.decode(secretKey) &&
            (own.Some? ==> r.value.peer == own) && (own.None? && default.Some? ==> r.value.peer == default) &&
            (own.None? && default.None? && At(others, "default").None? ==> r.value.peer == Some(Str(peer)))
  {
    var others := OtherPeers(keys, c, s, PathOf(a, b), peerKeys);
    var merged := Assign(others, pid, Str(peer));
    ReadRecord(keys, keys, c, publicKey, secretKey, Some(Str(peer)), pid, others);
    var k := Keys(c.decode(publicKey), c.decode(secretKey),
                  Else(Else(At(merged, "default"), Some(Str(peer))), At(Entries(merged), "default")), Entries(merged));
    LoadsWhatIsRead(keys, c, Saved(keys, c, s, a, b, publicKey, secretKey, Some(Str(peer)), pid, peerKeys), legacy, a, b, reader, k);
    PeerOfSaved(k, others, peer, pid, reader);
  }

  lemma LoadsWhatIsRead(keys: seq<string>, c: Codec, s: Store, legacy: map<string, File>, a: string, b: string,
                        reader: string, k: Keys)
    requires PathOf(a, b) in s && Read(keys, c, s[PathOf(a, b)]) == Some(k)
    ensures Loaded(keys, c, s, legacy, a, b, reader) == Some(Loading(k, PeerFor(k, reader)))
  {
  }

  lemma PeerOfSaved(k: Keys, others: Json, peer: string, pid: string, reader: string)
    requires others.Obj? && peer != "" && pid != "" && reader != ""
    requires var merged := Assign(others, pid, Str(peer));
             k.participants == Entries(merged) &&
             k.peer == Else(Else(At(merged, "default"), Some(Str(peer))), At(Entries(merged), "default"))
    ensures var own := if reader == pid then Some(Str(peer)) else StoredPeer(others, reader);
            var default := if pid == "default" then Some(Str(peer)) else StoredPeer(others, "default");
            (own.Some? ==> PeerFor(k, reader) == own) && (own.None? && default.Some? ==> PeerFor(k, reader) == default) &&
            (own.None? && default.None? && At(others, "default").None? ==> PeerFor(k, reader) == Some(Str(peer)))
  {
    var merged := Assign(others, pid, Str(peer));
    EntriesAt(merged, reader);
    EntriesAt(merged, "default");
  }

  /** Saving one participant's peer key again keeps the peer keys of the others. */
  lemma SaveKeepsOthers(keys: seq<string>, c: Codec, s: Store, legacy: map<string, File>, a: string, b: string,
                        publicKey: string, secretKey: string, peer: string, pid: string, other: string)
    requires publicKey != "" && secretKey != "" && peer != "" && pid != "" && other != "" && other != pid
    requires PathOf(a, b) in s && Read(keys, c, s[PathOf(a, b)]).Some?
    ensures var own := StoredPeer(Read(keys, c, s[PathOf(a, b)]).value.participants, other);
            var r := Loaded(keys, c, Saved(keys, c, s, a, b, publicKey, secretKey, Some(Str(peer)), pid, None), legacy, a, b, other);
            own.Some? ==> r.Some? && r.value.peer == own
  {
    SaveThenLoad(keys, c, s, legacy, a, b, publicKey, secretKey, peer, pid, None, other);
  }

  /** A conversation without a readable file of its own has keys only for the default agent, from the old directory. */
  lemma OldPathExactly(keys: seq<string>, c: Codec, s: Store, legacy: map<string, File>, a: string, b: string, reader: string)
    requires PathOf(a, b) in s ==> Read(keys, c, s[PathOf(a, b)]).None?
    ensures Loaded(keys, c, s, legacy, a, b, reader).Some? <==>
              (a == "" || a == "default") && PathOf(a, b).1 in legacy && Read(keys, c, legacy[PathOf(a, b).1]).Some?
    ensures Loaded(keys, c, s, legacy, a, b, reader).Some? ==>
              Loaded(keys, c, s, legacy, a, b, reader).value.keys == Read(keys, c, legacy[PathOf(a, b).1]).value
  {
  }

  /** A sealed file opens under exactly the listed keys, and saving seals under the first. */
  lemma SealedExactly(keys: seq<string>, readers: seq<string>, d: Json)
    requires d.Obj? && keys != []
    ensures Decrypt(readers, Encrypt(keys, d)) == if keys[0] in readers then Some(d) else None
  {
  }
}
