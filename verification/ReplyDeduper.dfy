/** One assistant bubble per turn: the bounded duplicate filter of `gatewayAssistantDispatch.js`. */
module ReplyDeduper {
  import opened Json
  import opened ReplyText

  /** What a reply is known by: its run id, or else its text. */
  function KeyOf(runId: Option<string>, text: string): string {
    if runId.Some? && Trim(runId.value) != "" then "run:" + runId.value else "text:" + Trim(text)
  }

  /** The last `n` entries. */
  function LastOf<K>(keys: seq<K>, n: nat): seq<K> {
    if |keys| <= n then keys else keys[|keys| - n..]
  }

  lemma LastOfTail<K>(keys: seq<K>, n: nat)
    requires |keys| > n
    ensures LastOf(keys[1..], n) == LastOf(keys, n)
  {
  }

  function Elements<K(==)>(keys: seq<K>): set<K> {
    set k | k in keys
  }

  lemma DropOldest<K>(keys: seq<K>)
    requires keys != [] && Distinct(keys)
    ensures Elements(keys[1..]) == Elements(keys) - {keys[0]} && Distinct(keys[1..])
  {
    assert forall k | k in keys && k != keys[0] :: k in keys[1..];
  }

  lemma LastOfSnoc<K>(keys: seq<K>, k: K, n: nat)
    ensures LastOf(LastOf(keys, n) + [k], n) == LastOf(keys + [k], n)
  {
  }

  class GatewayReplyDeduper {
    const maxEntries: nat
    var seen: set<string>
    var order: seq<string>
    /** Every key accepted since the last reset. */
    ghost var accepted: seq<string>

    ghost predicate Valid()
      reads this
    {
      seen == Elements(order) && Distinct(order) && order == LastOf(accepted, maxEntries)
    }

    constructor (maxEntries: nat := 256)
      ensures Valid() && this.maxEntries == maxEntries && accepted == []
    {
      this.maxEntries := maxEntries;
      seen, order, accepted := {}, [], [];
    }

    method Reset()
      modifies this
      ensures Valid() && accepted == []
    {
      seen, order, accepted := {}, [], [];
    }

    /** False exactly for blank text and for keys among the last `maxEntries` accepted ones. */
    method ShouldDeliver(runId: Option<string>, text: string) returns (deliver: bool)
      requires Valid()
      modifies this
      ensures Valid() && |order| <= maxEntries
      ensures deliver <==> Trim(text) != "" && KeyOf(runId, text) !in LastOf(old(accepted), maxEntries)
      ensures accepted == if deliver then old(accepted) + [KeyOf(runId, text)] else old(accepted)
    {
      if Trim(text) == "" { return false; }
      var key := KeyOf(runId, text);
      if key in seen { return false; }
      LastOfSnoc(accepted, key, maxEntries);
      accepted := accepted + [key];
      seen := seen + {key};
      order := order + [key];
      Evict();
      return true;
    }

    /** Forgets the oldest keys until no more than `maxEntries` are left. */
    method Evict()
      requires seen == Elements(order) && Distinct(order)
      modifies this`seen, this`order
      ensures seen == Elements(order) && Distinct(order) && order == LastOf(old(order), maxEntries)
    {
      while |order| > maxEntries
        invariant LastOf(order, maxEntries) == LastOf(old(order), maxEntries)
        invariant Distinct(order) && seen == Elements(order)
      {
        DropOldest(order);
        LastOfTail(order, maxEntries);
        var oldest := order[0];
        order := order[1..];
        seen := seen - {oldest};
      }
    }

    /** The text to hand over for one frame, if any. */
    method AssistantTextForConsumer(msg: Json) returns (t: Option<string>)
      requires Valid()
      modifies this
      ensures Valid()
      ensures t == Delivered(msg, LastOf(old(accepted), maxEntries))
      ensures accepted == if t.Some? then old(accepted) + [KeyOf(Evaluate(msg).runId, t.value)] else old(accepted)
    {
      var d := Evaluate(msg);
      if d.text.None? { return None; }
      TrimInk(d.text.value);
      var ok := ShouldDeliver(d.runId, d.text.value);
      return if ok then d.text else None;
    }
  }

  /** The key a frame would be delivered under, if it has text to deliver at all. */
  function Offer(msg: Json): Option<string> {
    var d := Evaluate(msg);
    if d.text.Some? then Some(KeyOf(d.runId, d.text.value)) else None
  }

  /** The text a frame delivers when `recent` are the keys still remembered. */
  function Delivered(msg: Json, recent: seq<string>): (t: Option<string>)
    ensures t.Some? ==> HasInk(t.value)
    ensures t.Some? <==> Offer(msg).Some? && Offer(msg).value !in recent
  {
    if Offer(msg).Some? && Offer(msg).value !in recent then Evaluate(msg).text else None
  }

  /** Only non-blank text is delivered, and never for an acknowledgement or a streaming event. */
  lemma DeliveredIsFinal(msg: Json, recent: seq<string>)
    ensures var t := Delivered(msg, recent);
            t.Some? ==> Trim(t.value) != "" && !(At(msg, "type") == Some(Str("res")) && AcceptedAck(msg)) &&
                        (At(msg, "type") == Some(Str("event")) ==> ChatFinal(msg) || AgentEnd(msg))
  {
    var t := Delivered(msg, recent);
    if t.Some? {
      TrimInk(t.value);
    }
  }

  // ----- runs between two resets -----

  /** The keys accepted out of the offers of a run of frames. */
  function AcceptedOver<K(==)>(max: nat, offers: seq<Option<K>>): seq<K> {
    if offers == [] then []
    else
      var before := AcceptedOver(max, offers[..|offers| - 1]);
      var last := offers[|offers| - 1];
      if last.Some? && last.value !in LastOf(before, max) then before + [last.value] else before
  }

  function Offers(frames: seq<Json>): seq<Option<string>> {
    seq(|frames|, i requires 0 <= i < |frames| => Offer(frames[i]))
  }

  lemma LastOfHas<K>(keys: seq<K>, i: nat, n: nat)
    requires i < |keys| && |keys| - i <= n
    ensures keys[i] in LastOf(keys, n)
  {
    var recent := LastOf(keys, n);
    assert recent[i - (|keys| - |recent|)] == keys[i];
  }

  lemma AcceptedSnoc<K>(max: nat, offers: seq<Option<K>>, last: Option<K>)
    ensures AcceptedOver(max, offers + [last]) ==
            var before := AcceptedOver(max, offers);
            if last.Some? && last.value !in LastOf(before, max) then before + [last.value] else before
  {
    assert (offers + [last])[..|offers|] == offers;
  }

  /** Equal keys lie more than `max` places apart. */
  ghost predicate Spaced<K>(keys: seq<K>, max: nat) {
    forall i, j :: 0 <= i < j < |keys| && keys[i] == keys[j] ==> j - i > max
  }

  lemma SpacedSnoc<K>(keys: seq<K>, k: K, max: nat)
    requires Spaced(keys, max) && k !in LastOf(keys, max)
    ensures Spaced(keys + [k], max)
  {
    forall i | 0 <= i < |keys| && keys[i] == k ensures |keys| - i > max {
      if |keys| - i <= max {
        LastOfHas(keys, i, max);
      }
    }
  }

  /** A key comes back only after `max` other keys have been accepted since. */
  lemma {:induction false} NoEarlyRepeat<K>(max: nat, offers: seq<Option<K>>)
    ensures Spaced(AcceptedOver(max, offers), max)
  {
    if offers != [] {
      var n := |offers| - 1;
      NoEarlyRepeat(max, offers[..n]);
      if offers[n].Some? && offers[n].value !in LastOf(AcceptedOver(max, offers[..n]), max) {
        SpacedSnoc(AcceptedOver(max, offers[..n]), offers[n].value, max);
      }
    }
  }

  lemma {:induction false} AcceptedGrows<K>(max: nat, offers: seq<Option<K>>, more: seq<Option<K>>)
    ensures AcceptedOver(max, offers) <= AcceptedOver(max, offers + more)
  {
    if more == [] {
      assert offers + more == offers;
    } else {
      var n := |more| - 1;
      assert offers + more == (offers + more[..n]) + [more[n]];
      AcceptedSnoc(max, offers + more[..n], more[n]);
      AcceptedGrows(max, offers, more[..n]);
    }
  }

  /** Once a frame was delivered, a frame with the same key stays silent until `max` later keys were accepted. */
  lemma SameKeyOnce<K>(max: nat, offers: seq<Option<K>>, key: K, between: seq<Option<K>>)
    requires key !in LastOf(AcceptedOver(max, offers), max)
    requires |AcceptedOver(max, offers + [Some(key)] + between)| <= |AcceptedOver(max, offers)| + max
    ensures key in LastOf(AcceptedOver(max, offers + [Some(key)] + between), max)
  {
    var before := AcceptedOver(max, offers);
    AcceptedSnoc(max, offers, Some(key));
    AcceptedGrows(max, offers + [Some(key)], between);
    var keys := AcceptedOver(max, offers + [Some(key)] + between);
    assert keys[|before|] == key;
    LastOfHas(keys, |before|, max);
  }

  lemma RunKey(msg: Json)
    requires Offer(msg).Some? && Evaluate(msg).runId.Some?
    ensures Offer(msg) == Some("run:" + Evaluate(msg).runId.value)
  {
    TrimInk(Evaluate(msg).runId.value);
  }

  /** Of two frames of one run, the later is silent until `max` other keys were accepted in between. */
  lemma SameRunOnce(max: nat, frames: seq<Json>, first: Json, between: seq<Json>, second: Json)
    requires Delivered(first, LastOf(AcceptedOver(max, Offers(frames)), max)).Some?
    requires Evaluate(first).runId.Some? && Evaluate(second).runId == Evaluate(first).runId
    requires |AcceptedOver(max, Offers(frames + [first] + between))| <= |AcceptedOver(max, Offers(frames))| + max
    ensures Delivered(second, LastOf(AcceptedOver(max, Offers(frames + [first] + between)), max)).None?
  {
    RunKey(first);
    OffersConcat(frames, first, between);
    SameKeyOnce(max, Offers(frames), Offer(first).value, Offers(between));
    if Offer(second).Some? {
      RunKey(second);
    }
  }

  lemma OffersConcat(frames: seq<Json>, first: Json, between: seq<Json>)
    ensures Offers(frames + [first] + between) == Offers(frames) + [Offer(first)] + Offers(between)
  {
  }
}
