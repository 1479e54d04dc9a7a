/** What the signed texts say: read back as JSON, they hold the fields of the request. */
module SignedFields {
  import opened Json
  import opened JsText
  import opened KeyOrder
  import opened PrintLaws
  import opened SigningPayload
  import opened SigningLaws
  import I = IndexKeys

  // ----- String(...) -----

  /** `String(v)` of a value that is neither text, array nor object is its JSON; an object says only that it is one. */
  lemma TextExactly(j: Json)
    requires Parsed(j) && !j.Arr?
    ensures ToText(j) == if j.Str? then j.s else if j.Obj? then "[object Object]" else Print(j)
  {
  }

  /** `String([...])`: the entries' texts between commas, where null prints as nothing. */
  lemma {:induction false} JoinExactly(a: seq<Json>, b: seq<Json>)
    ensures ToText(Arr([])) == "" && ToText(Arr([Null])) == ""
    ensures |a| == 1 && a[0] != Null ==> ToText(Arr(a)) == ToText(a[0])
    ensures a != [] && b != [] ==> ToText(Arr(a + b)) == ToText(Arr(a)) + "," + ToText(Arr(b))
  {
    if a != [] && b != [] {
      assert (a + b)[1..] == a[1..] + b && (a + b)[0] == a[0];
      if |a| == 1 {
        assert a[1..] + b == b;
      } else {
        JoinExactly(a[1..], b);
        var first := if a[0] == Null then "" else ToText(a[0]);
        assert first + "," + (ToText(Arr(a[1..])) + "," + ToText(Arr(b))) == (first + "," + ToText(Arr(a[1..]))) + "," + ToText(Arr(b));
      }
    }
  }

  // ----- the stable text -----

  /** `t` is `n` without its fraction, and zero when `n` has no value. */
  ghost predicate WholePart(n: JsNumber, t: int) {
    var v, w := RealOf(n), t as real;
    if n.NotFinite? then t == 0 else if v >= 0.0 then w <= v < w + 1.0 else w - 1.0 < v <= w
  }

  lemma Truncates(n: JsNumber)
    ensures WholePart(n, Truncated(n))
  {
  }

  lemma SortedParamsAt(r: Req)
    requires ParsedReq(r)
    ensures Ascending(SortedParams(r).keys) && forall k :: At(SortedParams(r), k) == At(r.params, k)
  {
    SortedAscends(ParamsObject(r).keys);
  }

  /**
   The stable text is a JSON object with its six members in this order: id, method and nonce as texts, empty for
   null; the params' own keys sorted, with their values; the whole part of the time; and the type, "req" when it
   is falsy.
   */
  lemma StableReadsBack(r: Req) returns (o: Json, p: Json, t: int)
    requires ParsedReq(r)
    ensures ReadValue(StablePayload(r)) == Got(o, "") && Parsed(o) && o.Obj?
    ensures o.keys == ["id", "method", "nonce", "params", "timestamp", "type"]
    ensures At(o, "id") == Some(Str(if r.id == Null then "" else ToText(r.id)))
    ensures At(o, "method") == Some(Str(if r.verb == Null then "" else ToText(r.verb)))
    ensures At(o, "nonce") == Some(Str(if r.nonce == Null then "" else ToText(r.nonce)))
    ensures At(o, "params") == Some(p) && p.Obj? && Ascending(p.keys) && forall k :: At(p, k) == At(r.params, k)
    ensures At(o, "timestamp") == Some(Num(Int(t))) && WholePart(r.timestamp, t)
    ensures At(o, "type") == Some(Str(if Truthy(Some(r.kind)) then ToText(r.kind) else "req"))
  {
    o, p, t := StableBody(r), SortedParams(r), Truncated(r.timestamp);
    StableIsPrint(r);
    ParseBack(o);
    SortedParamsAt(r);
    Truncates(r.timestamp);
    BodyAt(STABLE_KEYS, Str(TextOrEmpty(r.id)), Str(TextOrEmpty(r.verb)), Str(TextOrEmpty(r.nonce)), p, Num(Int(t)),
           Str(KindText(r)));
    assert o.fields.Keys == {"id", "method", "nonce", "params", "timestamp", "type"};
  }

  // ----- the legacy and the canonical text -----

  /** `a || b` for values, written out. */
  function FirstTruthy(a: Json, b: Json): Json {
    if Truthy(Some(a)) then a else b
  }

  /**
   The legacy text is a JSON object with its six members in this order, each as the request holds it, or its
   default when that is falsy; the nonce is a text, and the time is null when it is no number.
   */
  lemma LegacyReadsBack(r: Req) returns (o: Json)
    requires ParsedReq(r)
    ensures ReadValue(LegacyPayload(r)) == Got(o, "") && Parsed(o) && o.Obj?
    ensures o.keys == ["type", "id", "method", "params", "timestamp", "nonce"]
    ensures At(o, "type") == Some(FirstTruthy(r.kind, Str("req")))
    ensures At(o, "id") == Some(FirstTruthy(r.id, Str(""))) && At(o, "method") == Some(FirstTruthy(r.verb, Str("")))
    ensures At(o, "params") == Some(FirstTruthy(r.params, Obj([], map[])))
    ensures At(o, "timestamp") == Some(if r.timestamp.Whole? then Num(Int(r.timestamp.whole))
                                       else if r.timestamp.Fraction? then Num(Dec(r.timestamp.text)) else Null)
    ensures At(o, "nonce") == Some(Str(if Truthy(Some(r.nonce)) then ToText(r.nonce) else ""))
  {
    o := CanonicalBody(r);
    CanonicalBodyParsed(r);
    ParseBack(o);
    BodyAt(CANONICAL_KEYS, OrElse(r.id, Str("")), OrElse(r.verb, Str("")),
           Str(if Truthy(Some(r.nonce)) then ToText(r.nonce) else ""), OrElse(r.params, EMPTY),
           NumberJson(r.timestamp), OrElse(r.kind, Str("req")));
    assert o.fields.Keys == {"id", "method", "nonce", "params", "timestamp", "type"};
  }

  /** Array indices first, by number; the other keys in UTF-16 order. */
  ghost predicate ListedInOrder(keys: seq<string>) {
    exists n :: 0 <= n <= |keys| && SplitsInOrder(keys, n)
  }

  ghost predicate SplitsInOrder(keys: seq<string>, n: nat)
    requires n <= |keys|
  {
    I.AllIndices(keys[..n]) && I.ByNumber(keys[..n]) && Ascending(keys[n..]) && forall k | k in keys[n..] :: !IsIndex(k)
  }

  /** The keys are listed so at every depth. */
  ghost predicate OrderedDeep(j: Json) {
    match j
    case Arr(items) => forall v | v in items :: OrderedDeep(v)
    case Obj(keys, fields) => ListedInOrder(keys) && forall k | k in fields :: OrderedDeep(fields[k])
    case _ => true
  }

  lemma {:induction false} OthersAscend(keys: seq<string>)
    requires Ascending(keys)
    ensures Ascending(I.Others(keys)) && forall k :: k in I.Others(keys) <==> k in keys && !IsIndex(k)
  {
    if keys != [] {
      OthersAscend(keys[1..]);
      var rest := I.Others(keys[1..]);
      forall k | k in rest ensures TextLess(keys[0], k) {
        FirstIsLeast(keys, k);
        RestMembers(keys, k);
      }
      assert forall i | 0 <= i < |rest| :: rest[i] in rest;
    }
  }

  lemma ListingIsOrdered(keys: seq<string>)
    requires Distinct(keys)
    ensures ListedInOrder(ListingOrder(Sorted(keys)))
  {
    SortedAscends(keys);
    var n := I.ListingExactly(Sorted(keys));
    OthersAscend(Sorted(keys));
    assert SplitsInOrder(ListingOrder(Sorted(keys)), n);
  }

  /** Sorting keys deep changes nothing but the order of keys, and orders them at every depth. */
  lemma {:induction false} SortedDeepExactly(j: Json)
    requires Parsed(j)
    ensures SameUpToOrder(SortKeysDeep(j), j) && OrderedDeep(SortKeysDeep(j))
  {
    match j
    case Arr(items) =>
      forall i | 0 <= i < |items|
        ensures SameUpToOrder(SortKeysDeep(j).items[i], items[i]) && OrderedDeep(SortKeysDeep(j).items[i])
      {
        assert items[i] in items;
        SortedDeepExactly(items[i]);
      }
    case Obj(keys, fields) =>
      ListingIsOrdered(keys);
      forall k | k in fields ensures SameUpToOrder(SortKeysDeep(fields[k]), fields[k]) && OrderedDeep(SortKeysDeep(fields[k])) {
        SortedDeepExactly(fields[k]);
      }
    case _ =>
  }

  /** The canonical text is the legacy object with its keys ordered at every depth. */
  lemma CanonicalReadsBack(r: Req) returns (o: Json, legacy: Json)
    requires ParsedReq(r)
    ensures ReadValue(CanonicalPayload(r)) == Got(o, "") && ReadValue(LegacyPayload(r)) == Got(legacy, "")
    ensures SameUpToOrder(o, legacy) && OrderedDeep(o) && o.Obj?
    ensures o.keys == ["id", "method", "nonce", "params", "timestamp", "type"]
  {
    o, legacy := SortKeysDeep(CanonicalBody(r)), CanonicalBody(r);
    CanonicalBodyParsed(r);
    SortedDeepParsed(legacy);
    ParseBack(o);
    ParseBack(legacy);
    SortedDeepExactly(legacy);
    CanonicalKeys(r);
  }
}
