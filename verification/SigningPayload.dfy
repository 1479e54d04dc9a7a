/**
 The texts a client signs, `securityGuards.js`: the stable form keeps nested key
 order, the canonical form sorts keys at every depth.
 */
module SigningPayload {
  import opened Json
  import opened JsText
  import opened KeyOrder

  /** The request fields that are signed; `timestamp` is `Number(timestamp || 0)`, a missing field and `null` are alike. */
  datatype Req = Req(id: Json, verb: Json, nonce: Json, kind: Json, params: Json, timestamp: JsNumber)

  ghost predicate ParsedReq(r: Req) {
    Parsed(r.id) && Parsed(r.verb) && Parsed(r.nonce) && Parsed(r.kind) && Parsed(r.params)
  }

  // ----- the stable form -----

  function TextOrEmpty(j: Json): string {
    if j == Null then "" else ToText(j)
  }

  function KindText(r: Req): string {
    if Truthy(Some(r.kind)) then ToText(r.kind) else "req"
  }

  function ParamsObject(r: Req): (o: Json)
    ensures o.Obj?
  {
    if r.params.Obj? then r.params else EMPTY
  }

  /** `params` with its own keys sorted, its values as they are. */
  function SortedParams(r: Req): Json {
    Obj(Sorted(ParamsObject(r).keys), ParamsObject(r).fields)
  }

  lemma SortedParamsParsed(r: Req)
    requires ParsedReq(r)
    ensures Parsed(SortedParams(r))
  {
    SortMembers((a, b) => TextLess(a, b), ParamsObject(r).keys);
  }

  /** `"name":text` inside the template. */
  function Member(name: string, text: string): string {
    "\"" + name + "\":" + text
  }

  function SixMembers(a: string, b: string, c: string, d: string, e: string, f: string): string {
    "{" + a + ("," + b + ("," + c + ("," + d + ("," + e + ("," + f + "}")))))
  }

  function StablePayload(r: Req): string
    requires ParsedReq(r)
  {
    SortedParamsParsed(r);
    SixMembers(Member("id", Quote(TextOrEmpty(r.id))), Member("method", Quote(TextOrEmpty(r.verb))),
               Member("nonce", Quote(TextOrEmpty(r.nonce))), Member("params", Print(SortedParams(r))),
               Member("timestamp", IntText(Truncated(r.timestamp))), Member("type", Quote(KindText(r))))
  }

  const STABLE_KEYS := ["id", "method", "nonce", "params", "timestamp", "type"]

  /** A request body from its six members, listed in the order of `keys`. */
  function Body(keys: seq<string>, id: Json, verb: Json, nonce: Json, params: Json, timestamp: Json, kind: Json): (b: Json)
    ensures b.Obj?
  {
    Obj(keys, map["id" := id, "method" := verb, "nonce" := nonce, "params" := params,
                  "timestamp" := timestamp, "type" := kind])
  }

  /** The value the stable text is the print of. */
  function StableBody(r: Req): (b: Json)
    ensures b.Obj?
  {
    Body(STABLE_KEYS, Str(TextOrEmpty(r.id)), Str(TextOrEmpty(r.verb)), Str(TextOrEmpty(r.nonce)),
         SortedParams(r), Num(Int(Truncated(r.timestamp))), Str(KindText(r)))
  }

  // ----- the canonical form -----

  function SortKeysDeep(j: Json): (r: Json)
    ensures j.Obj? <==> r.Obj?
  {
    match j
    case Arr(items) => Arr(seq(|items|, i requires 0 <= i < |items| => SortKeysDeep(items[i])))
    case Obj(keys, fields) =>
      Obj(ListingOrder(Sorted(keys)), map k | k in fields :: SortKeysDeep(fields[k]))
    case _ => j
  }

  lemma SortedLeaf(j: Json, k: string)
    requires j.Obj? && At(j, k).Some? && !At(j, k).value.Obj? && !At(j, k).value.Arr?
    ensures At(SortKeysDeep(j), k) == At(j, k)
  {
  }

  function OrElse(j: Json, otherwise: Json): Json {
    if Truthy(Some(j)) then j else otherwise
  }

  const CANONICAL_KEYS := ["type", "id", "method", "params", "timestamp", "nonce"]

  function CanonicalBody(r: Req): (b: Json)
    ensures b.Obj?
  {
    Body(CANONICAL_KEYS, OrElse(r.id, Str("")), OrElse(r.verb, Str("")),
         Str(if Truthy(Some(r.nonce)) then ToText(r.nonce) else ""), OrElse(r.params, EMPTY),
         NumberJson(r.timestamp), OrElse(r.kind, Str("req")))
  }

  // ----- the printed payloads -----

  lemma {:induction false} SortedDeepParsed(j: Json)
    requires Parsed(j)
    ensures Parsed(SortKeysDeep(j))
  {
    match j
    case Arr(items) =>
      forall i | 0 <= i < |items| ensures Parsed(SortKeysDeep(j).items[i]) {
        assert items[i] in items;
        SortedDeepParsed(items[i]);
      }
    case Obj(keys, fields) =>
      SortMembers((a, b) => TextLess(a, b), keys);
      ListingMembers(Sorted(keys));
      forall k | k in fields ensures Parsed(SortKeysDeep(fields[k])) {
        SortedDeepParsed(fields[k]);
      }
    case _ =>
  }

  lemma BodyAt(keys: seq<string>, i: Json, m: Json, n: Json, p: Json, t: Json, y: Json)
    ensures var b := Body(keys, i, m, n, p, t, y);
            b.fields.Keys == {"id", "method", "nonce", "params", "timestamp", "type"} &&
            b.fields["id"] == i && b.fields["method"] == m && b.fields["nonce"] == n &&
            b.fields["params"] == p && b.fields["timestamp"] == t && b.fields["type"] == y
  {
  }

  lemma BodyParsed(keys: seq<string>, i: Json, m: Json, n: Json, p: Json, t: Json, y: Json)
    requires Distinct(keys) && (set k | k in keys) == {"id", "method", "nonce", "params", "timestamp", "type"}
    requires Parsed(i) && Parsed(m) && Parsed(n) && Parsed(p) && Parsed(t) && Parsed(y)
    ensures Parsed(Body(keys, i, m, n, p, t, y))
  {
    BodyAt(keys, i, m, n, p, t, y);
    var b := Body(keys, i, m, n, p, t, y);
    forall k ensures k in b.keys <==> k in b.fields {
      assert k in (set x | x in keys) <==> k in b.fields.Keys;
    }
    forall k | k in b.fields ensures Parsed(b.fields[k]) {
      assert k in b.fields.Keys;
    }
  }

  lemma BodyKeys()
    ensures Distinct(STABLE_KEYS) && Distinct(CANONICAL_KEYS)
    ensures (set k | k in STABLE_KEYS) == {"id", "method", "nonce", "params", "timestamp", "type"}
    ensures (set k | k in CANONICAL_KEYS) == {"id", "method", "nonce", "params", "timestamp", "type"}
  {
  }

  lemma CanonicalBodyParsed(r: Req)
    requires ParsedReq(r)
    ensures Parsed(CanonicalBody(r))
  {
    BodyKeys();
    BodyParsed(CANONICAL_KEYS, OrElse(r.id, Str("")), OrElse(r.verb, Str("")),
               Str(if Truthy(Some(r.nonce)) then ToText(r.nonce) else ""), OrElse(r.params, EMPTY),
               NumberJson(r.timestamp), OrElse(r.kind, Str("req")));
  }

  function CanonicalPayload(r: Req): string
    requires ParsedReq(r)
  {
    CanonicalBodyParsed(r);
    SortedDeepParsed(CanonicalBody(r));
    Print(SortKeysDeep(CanonicalBody(r)))
  }

  function LegacyPayload(r: Req): string
    requires ParsedReq(r)
  {
    CanonicalBodyParsed(r);
    Print(CanonicalBody(r))
  }
}
