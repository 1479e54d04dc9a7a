/** What a signature over one of the payload texts pins down. */
module SigningLaws {
  import opened Json
  import opened JsText
  import opened KeyOrder
  import opened PrintLaws
  import opened SigningPayload

  // ----- the stable form -----

  /** A character that a JSON string holds as it is. */
  predicate PlainChar(c: char) {
    c >= ' ' && c != '"' && c != '\\'
  }

  lemma {:induction false} PlainQuote(s: string)
    requires forall c | c in s :: PlainChar(c)
    ensures QuoteTail(s) == s + "\""
  {
    if s != "" {
      assert forall c | c in s[1..] :: c in s;
      PlainQuote(s[1..]);
      assert s[0] in s;
      assert s == [s[0]] + s[1..];
    }
  }

  lemma PlainPair(o: Json, k: string)
    requires o.Obj? && Parsed(o) && k in o.fields && forall c | c in k :: PlainChar(c)
    ensures Pair(o, k) == Member(k, Print(o.fields[k]))
  {
    PlainQuote(k);
    var v := Print(o.fields[k]);
    assert ("\"" + (k + "\"")) + ":" + v == "\"" + k + "\":" + v;
  }

  ghost predicate PlainKeys(o: Json) {
    o.Obj? && forall k | k in o.keys :: forall c | c in k :: PlainChar(c)
  }

  /** The text of member `i`. */
  ghost function MemberText(o: Json, i: nat): string
    requires o.Obj? && Parsed(o) && i < |o.keys|
  {
    assert o.keys[i] in o.keys;
    Member(o.keys[i], Print(o.fields[o.keys[i]]))
  }

  lemma NextMember(o: Json, i: nat)
    requires o.Obj? && Parsed(o) && PlainKeys(o) && i < |o.keys|
    ensures PairsTail(o, o.keys[i..]) == "," + MemberText(o, i) + PairsTail(o, o.keys[i + 1..])
  {
    assert o.keys[i] in o.keys;
    assert o.keys[i..][1..] == o.keys[i + 1..];
    PlainPair(o, o.keys[i]);
  }

  lemma ChainSix(m: seq<string>, t: seq<string>)
    requires |m| == 6 && |t| == 7 && t[6] == "}"
    requires forall i | 1 <= i < 6 :: t[i] == "," + m[i] + t[i + 1]
    ensures "{" + m[0] + t[1] == SixMembers(m[0], m[1], m[2], m[3], m[4], m[5])
  {
    assert t[5] == "," + m[5] + "}";
    assert t[4] == "," + m[4] + t[5];
    assert t[3] == "," + m[3] + t[4];
    assert t[2] == "," + m[2] + t[3];
    assert t[1] == "," + m[1] + t[2];
  }

  lemma PrintSix(o: Json)
    requires o.Obj? && Parsed(o) && PlainKeys(o) && |o.keys| == 6
    ensures Print(o) == SixMembers(MemberText(o, 0), MemberText(o, 1), MemberText(o, 2),
                                   MemberText(o, 3), MemberText(o, 4), MemberText(o, 5))
  {
    var m := seq(6, i requires 0 <= i < 6 => MemberText(o, i));
    var t := seq(7, i requires 0 <= i < 7 => PairsTail(o, o.keys[i..]));
    forall i | 1 <= i < 6 ensures t[i] == "," + m[i] + t[i + 1] {
      NextMember(o, i);
    }
    assert o.keys[6..] == [];
    ChainSix(m, t);
    assert o.keys[0] in o.keys;
    PlainPair(o, o.keys[0]);
  }

  lemma StableKeysPlain()
    ensures forall k | k in STABLE_KEYS :: forall c | c in k :: PlainChar(c)
  {
  }

  /** A body of texts, one number and the params, printed. */
  lemma PrintStableBody(i: string, m: string, n: string, p: Json, t: int, y: string)
    requires Parsed(p)
    ensures var b := Body(STABLE_KEYS, Str(i), Str(m), Str(n), p, Num(Int(t)), Str(y));
            Parsed(b) &&
            Print(b) == SixMembers(Member("id", Quote(i)), Member("method", Quote(m)), Member("nonce", Quote(n)),
                                   Member("params", Print(p)), Member("timestamp", IntText(t)), Member("type", Quote(y)))
  {
    var b := Body(STABLE_KEYS, Str(i), Str(m), Str(n), p, Num(Int(t)), Str(y));
    BodyKeys();
    BodyParsed(STABLE_KEYS, Str(i), Str(m), Str(n), p, Num(Int(t)), Str(y));
    BodyAt(STABLE_KEYS, Str(i), Str(m), Str(n), p, Num(Int(t)), Str(y));
    StableKeysPlain();
    PrintSix(b);
    assert MemberText(b, 0) == Member("id", Quote(i)) && MemberText(b, 1) == Member("method", Quote(m));
    assert MemberText(b, 2) == Member("nonce", Quote(n)) && MemberText(b, 3) == Member("params", Print(p));
    assert MemberText(b, 4) == Member("timestamp", IntText(t)) && MemberText(b, 5) == Member("type", Quote(y));
  }

  lemma StableIsPrint(r: Req)
    requires ParsedReq(r)
    ensures Parsed(StableBody(r)) && StablePayload(r) == Print(StableBody(r))
  {
    SortedParamsParsed(r);
    PrintStableBody(TextOrEmpty(r.id), TextOrEmpty(r.verb), TextOrEmpty(r.nonce), SortedParams(r), Truncated(r.timestamp),
                    KindText(r));
  }

  /** The stable text is the same exactly for requests with the same signed body. */
  lemma StableExactly(a: Req, b: Req)
    requires ParsedReq(a) && ParsedReq(b)
    ensures StablePayload(a) == StablePayload(b) <==> StableBody(a) == StableBody(b)
  {
    StableIsPrint(a);
    StableIsPrint(b);
    if StablePayload(a) == StablePayload(b) {
      PrintInjective(StableBody(a), StableBody(b));
    }
  }

  /** Equal stable texts: equal normalised id, method, nonce, type, whole timestamp, and equal params. */
  lemma StableIsInjective(a: Req, b: Req)
    requires ParsedReq(a) && ParsedReq(b)
    requires StablePayload(a) == StablePayload(b)
    ensures TextOrEmpty(a.id) == TextOrEmpty(b.id) && TextOrEmpty(a.verb) == TextOrEmpty(b.verb)
    ensures TextOrEmpty(a.nonce) == TextOrEmpty(b.nonce) && KindText(a) == KindText(b)
    ensures Truncated(a.timestamp) == Truncated(b.timestamp)
    ensures forall k :: At(ParamsObject(a), k) == At(ParamsObject(b), k)
  {
    StableExactly(a, b);
    var x, y := StableBody(a), StableBody(b);
    assert x.fields["id"] == y.fields["id"] && x.fields["method"] == y.fields["method"];
    assert x.fields["nonce"] == y.fields["nonce"] && x.fields["type"] == y.fields["type"];
    assert x.fields["timestamp"] == y.fields["timestamp"] && x.fields["params"] == y.fields["params"];
  }

  // ----- the canonical form -----

  /** The same value, but for the order of keys in objects at any depth. */
  ghost predicate SameUpToOrder(a: Json, b: Json) {
    match a
    case Arr(items) =>
      b.Arr? && |items| == |b.items| && forall i | 0 <= i < |items| :: SameUpToOrder(items[i], b.items[i])
    case Obj(_, fields) =>
      b.Obj? && (forall k :: k in fields <==> k in b.fields) &&
      forall k | k in fields :: SameUpToOrder(fields[k], b.fields[k])
    case _ => a == b
  }

  lemma {:induction false} SortingForgetsExactlyOrder(a: Json, b: Json)
    requires Parsed(a) && Parsed(b)
    ensures SortKeysDeep(a) == SortKeysDeep(b) <==> SameUpToOrder(a, b)
  {
    match a
    case Arr(items) =>
      if b.Arr? && |items| == |b.items| {
        forall i | 0 <= i < |items|
          ensures SortKeysDeep(items[i]) == SortKeysDeep(b.items[i]) <==> SameUpToOrder(items[i], b.items[i])
        {
          assert items[i] in items && b.items[i] in b.items;
          SortingForgetsExactlyOrder(items[i], b.items[i]);
        }
        SortedItems(a, b);
      } else if b.Arr? {
        assert |SortKeysDeep(a).items| == |items| && |SortKeysDeep(b).items| == |b.items|;
      }
    case Obj(keys, fields) =>
      if b.Obj? {
        forall k | k in fields && k in b.fields
          ensures SortKeysDeep(fields[k]) == SortKeysDeep(b.fields[k]) <==> SameUpToOrder(fields[k], b.fields[k])
        {
          SortingForgetsExactlyOrder(fields[k], b.fields[k]);
        }
        SortedFields(a, b);
      }
    case _ =>
  }

  lemma SortedItems(a: Json, b: Json)
    requires a.Arr? && b.Arr? && |a.items| == |b.items|
    ensures SortKeysDeep(a) == SortKeysDeep(b) <==>
            forall i | 0 <= i < |a.items| :: SortKeysDeep(a.items[i]) == SortKeysDeep(b.items[i])
  {
    var x, y := SortKeysDeep(a).items, SortKeysDeep(b).items;
    assert |x| == |y| == |a.items|;
    assert forall i | 0 <= i < |x| :: x[i] == SortKeysDeep(a.items[i]) && y[i] == SortKeysDeep(b.items[i]);
    assert x == y <==> forall i | 0 <= i < |x| :: x[i] == y[i];
  }

  lemma SortedFields(a: Json, b: Json)
    requires a.Obj? && b.Obj? && Parsed(a) && Parsed(b)
    ensures SortKeysDeep(a) == SortKeysDeep(b) <==>
            (forall k :: k in a.fields <==> k in b.fields) &&
            (forall k | k in a.fields && k in b.fields :: SortKeysDeep(a.fields[k]) == SortKeysDeep(b.fields[k]))
  {
    var x, y := SortKeysDeep(a), SortKeysDeep(b);
    assert x.fields.Keys == a.fields.Keys && y.fields.Keys == b.fields.Keys;
    if forall k :: k in a.fields <==> k in b.fields {
      SortForgetsOrder(a.keys, b.keys);
      assert x.keys == y.keys;
      if forall k | k in a.fields && k in b.fields :: SortKeysDeep(a.fields[k]) == SortKeysDeep(b.fields[k]) {
        assert x.fields == y.fields;
      }
    }
    if x == y {
      forall k ensures k in a.fields <==> k in b.fields {
        assert k in x.fields.Keys <==> k in y.fields.Keys;
      }
      forall k | k in a.fields && k in b.fields ensures SortKeysDeep(a.fields[k]) == SortKeysDeep(b.fields[k]) {
        assert x.fields[k] == y.fields[k];
      }
    }
  }

  /** The canonical text is the same exactly for bodies that differ in key order alone. */
  lemma CanonicalExactly(a: Req, b: Req)
    requires ParsedReq(a) && ParsedReq(b)
    ensures CanonicalPayload(a) == CanonicalPayload(b) <==> SameUpToOrder(CanonicalBody(a), CanonicalBody(b))
  {
    CanonicalBodyParsed(a);
    CanonicalBodyParsed(b);
    SortedDeepParsed(CanonicalBody(a));
    SortedDeepParsed(CanonicalBody(b));
    SortingForgetsExactlyOrder(CanonicalBody(a), CanonicalBody(b));
    if CanonicalPayload(a) == CanonicalPayload(b) {
      PrintInjective(SortKeysDeep(CanonicalBody(a)), SortKeysDeep(CanonicalBody(b)));
    }
  }

  lemma {:induction false} SameAsItself(j: Json)
    ensures SameUpToOrder(j, j)
  {
    match j
    case Arr(items) =>
      forall i | 0 <= i < |items| ensures SameUpToOrder(items[i], items[i]) {
        SameAsItself(items[i]);
      }
    case Obj(_, fields) =>
      forall k | k in fields ensures SameUpToOrder(fields[k], fields[k]) {
        SameAsItself(fields[k]);
      }
    case _ =>
  }

  lemma SameBodies(r: Req, params: Json)
    requires SameUpToOrder(r.params, params)
    ensures SameUpToOrder(CanonicalBody(r), CanonicalBody(r.(params := params)))
  {
    var a, b := CanonicalBody(r), CanonicalBody(r.(params := params));
    forall k | k in a.fields ensures k in b.fields && SameUpToOrder(a.fields[k], b.fields[k]) {
      if k == "params" {
        assert Truthy(Some(r.params)) == Truthy(Some(params));
        SameAsItself(EMPTY);
      } else {
        assert a.fields[k] == b.fields[k];
        SameAsItself(a.fields[k]);
      }
    }
  }

  /** Reordering keys anywhere inside `params` leaves the canonical text alone. */
  lemma CanonicalIgnoresKeyOrder(r: Req, params: Json)
    requires ParsedReq(r) && Parsed(params) && SameUpToOrder(r.params, params)
    ensures CanonicalPayload(r.(params := params)) == CanonicalPayload(r)
  {
    SameBodies(r, params);
    CanonicalExactly(r, r.(params := params));
  }

  // ----- the two forms agree -----

  /** At every depth the keys ascend and none is an index. */
  ghost predicate KeySorted(j: Json) {
    match j
    case Arr(items) => forall v | v in items :: KeySorted(v)
    case Obj(keys, fields) =>
      Ascending(keys) && (forall k | k in keys :: !IsIndex(k)) && forall k | k in fields :: KeySorted(fields[k])
    case _ => true
  }

  lemma {:induction false} KeySortedStays(j: Json)
    requires Parsed(j) && KeySorted(j)
    ensures SortKeysDeep(j) == j
  {
    match j
    case Arr(items) =>
      forall i | 0 <= i < |items| ensures SortKeysDeep(items[i]) == items[i] {
        assert items[i] in items;
        KeySortedStays(items[i]);
      }
      assert SortKeysDeep(j).items == items;
    case Obj(keys, fields) =>
      AscendingIsSorted(keys);
      NoIndexKeys(keys);
      forall k | k in fields ensures SortKeysDeep(fields[k]) == fields[k] {
        KeySortedStays(fields[k]);
      }
      assert SortKeysDeep(j).fields == fields;
    case _ =>
  }

  /** String fields, a whole timestamp, and params whose nested objects are sorted, with no index keys. */
  ghost predicate PlainReq(r: Req) {
    r.id.Str? && r.verb.Str? && r.nonce.Str? && r.kind.Str? && r.timestamp.Whole? &&
    (r.params.Obj? || !Truthy(Some(r.params))) &&
    (forall k | k in ParamsObject(r).fields :: !IsIndex(k) && KeySorted(ParamsObject(r).fields[k]))
  }

  lemma StableKeysAscend()
    ensures Ascending(STABLE_KEYS) && Distinct(STABLE_KEYS)
    ensures forall k | k in STABLE_KEYS :: !IsIndex(k)
  {
    var ks := STABLE_KEYS;
    assert TextLess("imestamp", "ype") && TextLess("timestamp", "type") by {
      assert "timestamp"[1..] == "imestamp" && "type"[1..] == "ype";
    }
    forall i, j | 0 <= i < j < |ks| ensures TextLess(ks[i], ks[j]) && ks[i] != ks[j] {
      assert i == 4 ==> j == 5;
    }
    forall k | k in ks ensures !IsIndex(k) {
      assert k[0] in k && !IsDigit(k[0]);
    }
  }

  lemma SortsTo(keys: seq<string>, target: seq<string>)
    requires Distinct(keys) && Ascending(target) && (forall k | k in target :: !IsIndex(k))
    requires forall k :: k in keys <==> k in target
    ensures ListingOrder(Sorted(keys)) == target
  {
    AscendingIsSorted(target);
    SortForgetsOrder(keys, target);
    NoIndexKeys(target);
  }

  lemma SortedKeysOf(j: Json, target: seq<string>)
    requires j.Obj? && Distinct(j.keys) && Ascending(target) && (forall k | k in target :: !IsIndex(k))
    requires (set k | k in j.keys) == (set k | k in target)
    ensures SortKeysDeep(j).keys == target
  {
    SameMembers(j.keys, target);
    SortsTo(j.keys, target);
  }

  lemma CanonicalKeys(r: Req)
    ensures SortKeysDeep(CanonicalBody(r)).keys == STABLE_KEYS
  {
    StableKeysAscend();
    BodyKeys();
    SortedKeysOf(CanonicalBody(r), STABLE_KEYS);
  }

  lemma SameMembers(a: seq<string>, b: seq<string>)
    requires (set k | k in a) == (set k | k in b)
    ensures forall k :: k in a <==> k in b
  {
    var x := set k | k in a;
    var y := set k | k in b;
    forall k ensures k in a <==> k in b {
      assert k in x <==> k in y;
    }
  }

  lemma SortedAtTop(p: Json)
    requires p.Obj? && Parsed(p) && forall k | k in p.fields :: !IsIndex(k) && KeySorted(p.fields[k])
    ensures SortKeysDeep(p) == Obj(Sorted(p.keys), p.fields)
  {
    SortMembers((a, b) => TextLess(a, b), p.keys);
    NoIndexKeys(Sorted(p.keys));
    forall k | k in p.fields ensures SortKeysDeep(p.fields[k]) == p.fields[k] {
      KeySortedStays(p.fields[k]);
    }
    assert SortKeysDeep(p).fields == p.fields;
  }

  lemma ParamsAgree(r: Req)
    requires ParsedReq(r) && PlainReq(r)
    ensures SortKeysDeep(OrElse(r.params, EMPTY)) == SortedParams(r)
  {
    SortedAtTop(ParamsObject(r));
  }

  /** Both bodies have the fields as they are; only the keys and `params` may differ. */
  lemma PlainBodies(r: Req)
    requires r.id.Str? && r.verb.Str? && r.nonce.Str? && r.kind.Str? && r.timestamp.Whole?
    ensures CanonicalBody(r) == Body(CANONICAL_KEYS, r.id, r.verb, r.nonce, OrElse(r.params, EMPTY),
                                     Num(Int(r.timestamp.whole)), OrElse(r.kind, Str("req")))
    ensures StableBody(r) == Body(STABLE_KEYS, r.id, r.verb, r.nonce, SortedParams(r),
                                  Num(Int(r.timestamp.whole)), OrElse(r.kind, Str("req")))
  {
  }

  /** Sorting a body whose other members are leaves changes its params alone. */
  lemma SortedBody(keys: seq<string>, i: Json, m: Json, n: Json, p: Json, t: Json, y: Json)
    requires SortKeysDeep(i) == i && SortKeysDeep(m) == m && SortKeysDeep(n) == n && SortKeysDeep(t) == t && SortKeysDeep(y) == y
    ensures SortKeysDeep(Body(keys, i, m, n, p, t, y)).fields == Body(keys, i, m, n, SortKeysDeep(p), t, y).fields
  {
    var b := Body(keys, i, m, n, p, t, y);
    var c := Body(keys, i, m, n, SortKeysDeep(p), t, y);
    assert c.fields == b.fields["params" := SortKeysDeep(p)];
    BodyAt(keys, i, m, n, p, t, y);
    forall k | k in b.fields ensures SortKeysDeep(b.fields[k]) == b.fields["params" := SortKeysDeep(p)][k] {
      assert k == "id" || k == "method" || k == "nonce" || k == "params" || k == "timestamp" || k == "type";
    }
    assert SortKeysDeep(b).fields == b.fields["params" := SortKeysDeep(p)];
  }

  lemma SortedCanonicalBody(r: Req)
    requires r.id.Str? && r.verb.Str? && r.nonce.Str? && r.kind.Str? && r.timestamp.Whole?
    requires SortKeysDeep(OrElse(r.params, EMPTY)) == SortedParams(r)
    ensures SortKeysDeep(CanonicalBody(r)) == StableBody(r)
  {
    PlainBodies(r);
    CanonicalKeys(r);
    var t, y := Num(Int(r.timestamp.whole)), OrElse(r.kind, Str("req"));
    assert SortKeysDeep(t) == t && SortKeysDeep(y) == y;
    SortedBody(CANONICAL_KEYS, r.id, r.verb, r.nonce, OrElse(r.params, EMPTY), t, y);
  }

  /** On plain requests the canonical and the stable text are the same. */
  lemma FormsAgree(r: Req)
    requires ParsedReq(r) && PlainReq(r)
    ensures CanonicalPayload(r) == StablePayload(r)
  {
    ParamsAgree(r);
    SortedCanonicalBody(r);
    StableIsPrint(r);
  }
}
