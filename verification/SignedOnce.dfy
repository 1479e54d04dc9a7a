/** No signed text is accepted twice, whichever of the three forms it is read as. */
module SignedOnce {
  import opened Json
  import opened JsText
  import opened PrintLaws
  import opened SigningPayload
  import opened SigningLaws
  import opened ReqGuard

  /** The texts whose signature makes a call pass. */
  function Texts(call: Call): set<string> {
    {call.stable, call.canonical, call.legacy}
  }

  /** What every signed body shows of its request: the nonce text, and the timestamp, whole or as it is. */
  predicate Shows(body: Json, r: Req) {
    At(body, "nonce") == Some(Str(ToText(r.nonce))) &&
    (At(body, "timestamp") == Some(Num(Int(Truncated(r.timestamp)))) || At(body, "timestamp") == Some(NumberJson(r.timestamp)))
  }

  lemma StableShows(r: Req)
    requires ParsedReq(r) && Truthy(Some(r.nonce))
    ensures Parsed(StableBody(r)) && Shows(StableBody(r), r) && StablePayload(r) == Print(StableBody(r))
  {
    StableIsPrint(r);
    BodyAt(STABLE_KEYS, Str(TextOrEmpty(r.id)), Str(TextOrEmpty(r.verb)), Str(TextOrEmpty(r.nonce)),
           SortedParams(r), Num(Int(Truncated(r.timestamp))), Str(KindText(r)));
  }

  lemma LegacyShows(r: Req)
    requires ParsedReq(r) && Truthy(Some(r.nonce))
    ensures Parsed(CanonicalBody(r)) && Shows(CanonicalBody(r), r) && LegacyPayload(r) == Print(CanonicalBody(r))
  {
    CanonicalBodyParsed(r);
    BodyAt(CANONICAL_KEYS, OrElse(r.id, Str("")), OrElse(r.verb, Str("")), Str(ToText(r.nonce)), OrElse(r.params, EMPTY),
           NumberJson(r.timestamp), OrElse(r.kind, Str("req")));
  }

  lemma CanonicalShows(r: Req)
    requires ParsedReq(r) && Truthy(Some(r.nonce))
    ensures var b := SortKeysDeep(CanonicalBody(r)); Parsed(b) && Shows(b, r) && CanonicalPayload(r) == Print(b)
  {
    LegacyShows(r);
    SortedDeepParsed(CanonicalBody(r));
    SortedLeaf(CanonicalBody(r), "nonce");
    SortedLeaf(CanonicalBody(r), "timestamp");
  }

  /** The text is the print of a body that shows the request. */
  ghost predicate PrintOf(text: string, body: Json, r: Req) {
    Parsed(body) && Shows(body, r) && text == Print(body)
  }

  lemma ReadCall(call: Call, r: Req, signature: Json)
    requires MadeFor(call, r, signature) && call.nonce != ""
    ensures r.timestamp == call.timestamp && call.nonce == Trim(ToText(r.nonce)) && Truthy(Some(r.nonce))
  {
    NonceIsThere(r.nonce);
  }

  lemma ReadStable(call: Call, r: Req, signature: Json)
    requires MadeFor(call, r, signature) && Truthy(Some(r.nonce))
    ensures PrintOf(call.stable, StableBody(r), r)
  {
    StableShows(r);
  }

  lemma ReadLegacy(call: Call, r: Req, signature: Json)
    requires MadeFor(call, r, signature) && Truthy(Some(r.nonce))
    ensures PrintOf(call.legacy, CanonicalBody(r), r)
  {
    LegacyShows(r);
  }

  lemma ReadCanonical(call: Call, r: Req, signature: Json)
    requires MadeFor(call, r, signature) && Truthy(Some(r.nonce))
    ensures PrintOf(call.canonical, SortKeysDeep(CanonicalBody(r)), r)
  {
    CanonicalShows(r);
  }

  /** Each of the three texts of a call is the print of a body that shows its request. */
  lemma TextShows(call: Call, r: Req, signature: Json, text: string) returns (body: Json)
    requires MadeFor(call, r, signature) && call.nonce != "" && text in Texts(call)
    ensures PrintOf(text, body, r)
  {
    ReadCall(call, r, signature);
    ReadStable(call, r, signature);
    ReadCanonical(call, r, signature);
    ReadLegacy(call, r, signature);
    body := Pick(call, r, text, StableBody(r), SortKeysDeep(CanonicalBody(r)), CanonicalBody(r));
  }

  lemma Pick(call: Call, r: Req, text: string, stable: Json, canonical: Json, legacy: Json) returns (body: Json)
    requires PrintOf(call.stable, stable, r) && PrintOf(call.canonical, canonical, r) && PrintOf(call.legacy, legacy, r)
    requires text in Texts(call)
    ensures PrintOf(text, body, r)
  {
    body := if text == call.stable then stable else if text == call.legacy then legacy else canonical;
  }

  /** Two requests shown by one body: the same nonce, and timestamps less than a millisecond apart. */
  lemma SameBody(body: Json, a: Req, b: Req)
    requires Shows(body, a) && Shows(body, b) && !a.timestamp.NotFinite? && !b.timestamp.NotFinite?
    requires RealOf(a.timestamp) > 0.0 && RealOf(b.timestamp) > 0.0
    ensures ToText(a.nonce) == ToText(b.nonce)
    ensures -1.0 < RealOf(a.timestamp) - RealOf(b.timestamp) < 1.0
  {
    TruncatedIsNear(a.timestamp);
    TruncatedIsNear(b.timestamp);
  }

  lemma TruncatedIsNear(n: JsNumber)
    requires RealOf(n) > 0.0
    ensures Truncated(n) as real <= RealOf(n) < Truncated(n) as real + 1.0
  {
  }

  /** What an accepted call has passed. */
  lemma AcceptedCall(c: Config, calls: seq<Call>, i: nat)
    requires c.requireSignature && i < |calls| && Accepted(c, calls, i)
    ensures calls[i].nonce != "" && !calls[i].timestamp.NotFinite? && RealOf(calls[i].timestamp) > 0.0
  {
  }

  lemma NonceIsThere(nonce: Json)
    requires TrimmedText(nonce) != ""
    ensures Truthy(Some(nonce)) && TrimmedText(nonce) == Trim(ToText(nonce))
  {
    assert Trim("") == "";
  }

  /** A text of two accepted calls: they have one nonce, and their timestamps are less than a millisecond apart. */
  lemma SharedText(a: Call, b: Call, text: string)
    requires Genuine(a) && Genuine(b) && text in Texts(a) && text in Texts(b) && a.nonce != "" && b.nonce != ""
    requires !a.timestamp.NotFinite? && !b.timestamp.NotFinite? && RealOf(a.timestamp) > 0.0 && RealOf(b.timestamp) > 0.0
    ensures a.nonce == b.nonce && -1.0 < RealOf(a.timestamp) - RealOf(b.timestamp) < 1.0
  {
    var p: Req, u := Origin(a, text);
    var q: Req, v := Origin(b, text);
    PrintInjective(u, v);
    SameBody(u, p, q);
  }

  /** The request behind a call, and the body a text of the call is the print of. */
  lemma Origin(call: Call, text: string) returns (r: Req, body: Json)
    requires Genuine(call) && text in Texts(call) && call.nonce != ""
    ensures PrintOf(text, body, r) && r.timestamp == call.timestamp && call.nonce == Trim(ToText(r.nonce))
  {
    var x: Json;
    r, x :| MadeFor(call, r, x);
    ReadCall(call, r, x);
    body := TextShows(call, r, x, text);
  }

  predicate IsWhole(x: real) {
    x == x.Floor as real
  }

  /** Calls at whole milliseconds, as `Date.now()` gives them. */
  ghost predicate Ticking(calls: seq<Call>) {
    Run(calls) && forall i | 0 <= i < |calls| :: IsWhole(calls[i].nowMs)
  }

  /** A whole maximum age that the time to live covers twice. */
  predicate Covers(c: Config) {
    c.requireSignature && (c.maxAgeMs < 0.0 || c.nonceTtlMs >= 2.0 * c.maxAgeMs)
  }

  /** The time to live covers twice the maximum age: to the millisecond on whole clocks, with one to spare on others. */
  ghost predicate Outlives(c: Config, calls: seq<Call>) {
    Run(calls) && c.requireSignature &&
    if Ticking(calls) && IsWhole(c.maxAgeMs) then Covers(c) else c.nonceTtlMs >= 2.0 * c.maxAgeMs + 1.0
  }

  /** In no such run are two accepted calls signed by one text, not even as different forms. */
  lemma NoTextAcceptedTwice(c: Config, calls: seq<Call>, i: nat, j: nat)
    requires Outlives(c, calls)
    requires i < j < |calls| && Accepted(c, calls, i) && Accepted(c, calls, j) && Genuine(calls[i]) && Genuine(calls[j])
    ensures Texts(calls[i]) !! Texts(calls[j])
  {
    AcceptedCall(c, calls, i);
    AcceptedCall(c, calls, j);
    forall text | text in Texts(calls[i]) ensures text !in Texts(calls[j]) {
      if text in Texts(calls[j]) {
        SharedText(calls[i], calls[j], text);
        TooClose(c, calls, i, j);
      }
    }
  }

  lemma TooClose(c: Config, calls: seq<Call>, i: nat, j: nat)
    requires Outlives(c, calls)
    requires i < j < |calls| && Accepted(c, calls, i) && Accepted(c, calls, j)
    ensures calls[i].nonce == calls[j].nonce ==>
              !(-1.0 < RealOf(calls[i].timestamp) - RealOf(calls[j].timestamp) < 1.0)
  {
    if calls[i].nonce == calls[j].nonce && -1.0 < RealOf(calls[i].timestamp) - RealOf(calls[j].timestamp) < 1.0 {
      SameNonceApart(c, calls, i, j);
      if Ticking(calls) && IsWhole(c.maxAgeMs) { WholeGap(calls[j].nowMs, calls[i].nowMs, c.maxAgeMs); }
    }
  }

  lemma WholeGap(later: real, earlier: real, age: real)
    requires IsWhole(later) && IsWhole(earlier) && IsWhole(age) && later - earlier < 2.0 * age + 1.0
    ensures later - earlier <= 2.0 * age
  {
    assert later.Floor - earlier.Floor < 2 * age.Floor + 1;
  }

  /** The call as early and as late as `age` allows. */
  function AtBothEnds(call: Call, age: real): seq<Call> {
    [call.(nowMs := RealOf(call.timestamp) - age), call.(nowMs := RealOf(call.timestamp) + age)]
  }

  /**
   With a shorter time to live, or without required signatures, a well-signed call passes twice
   with the same texts, once as early and once as late as its age allows.
   */
  lemma ShortTtlAcceptsText(c: Config, call: Call)
    requires WellSigned(c, call) && !Covers(c)
    ensures var calls := AtBothEnds(call, if c.requireSignature then c.maxAgeMs else 0.0);
            Run(calls) && Accepted(c, calls, 0) && Accepted(c, calls, 1) && Texts(calls[0]) == Texts(calls[1])
  {
    var calls := AtBothEnds(call, if c.requireSignature then c.maxAgeMs else 0.0);
    var early := calls[0];
    assert calls[..0] == [] && calls[..1] == [early] && [early][..0] == [];
    assert After(c, [early]) == Next(c, After(c, []), early);
  }

  /** Making the same request at another time is a call for a request as well. */
  lemma AtAnotherTime(call: Call, again: Call)
    requires Genuine(call) && again == call.(nowMs := again.nowMs)
    ensures Genuine(again)
  {
    var p: Req, x :| MadeFor(call, p, x);
    assert MadeFor(again, p, x);
  }

  /** Two accepted calls for requests share a signed text. */
  ghost predicate TextTwice(c: Config, calls: seq<Call>, i: nat, j: nat)
    requires i < j < |calls|
  {
    Accepted(c, calls, i) && Accepted(c, calls, j) && Genuine(calls[i]) && Genuine(calls[j]) &&
    !(Texts(calls[i]) !! Texts(calls[j]))
  }

  ghost predicate AcceptsTextTwice(c: Config, calls: seq<Call>) {
    exists i: nat, j: nat :: i < j < |calls| && TextTwice(c, calls, i, j)
  }

  lemma WholeInt(n: int)
    ensures IsWhole(n as real)
  {
  }

  lemma TickingPair(call: Call, age: real)
    requires IsWhole(RealOf(call.timestamp)) && IsWhole(age) && age >= 0.0
    ensures Ticking(AtBothEnds(call, age))
  {
    var t := RealOf(call.timestamp);
    WholeInt(t.Floor + age.Floor);
    WholeInt(t.Floor - age.Floor);
  }

  /** Exactly when no signed text is accepted twice, for a whole maximum age and whole timestamps. */
  lemma TextOnceExactly(c: Config, call: Call)
    requires WellSigned(c, call) && Genuine(call) && IsWhole(RealOf(call.timestamp)) && IsWhole(c.maxAgeMs)
    ensures (forall calls: seq<Call> | Ticking(calls) :: !AcceptsTextTwice(c, calls)) <==> Covers(c)
  {
    if Covers(c) {
      forall calls: seq<Call>, i: nat, j: nat | Ticking(calls) && i < j < |calls| && TextTwice(c, calls, i, j) ensures false {
        NoTextAcceptedTwice(c, calls, i, j);
      }
    } else {
      var age := if c.requireSignature then c.maxAgeMs else 0.0;
      ShortTtlAcceptsText(c, call);
      TickingPair(call, age);
      var calls := AtBothEnds(call, age);
      AtAnotherTime(call, calls[0]);
      AtAnotherTime(call, calls[1]);
      assert calls[0].stable in Texts(calls[0]);
      assert TextTwice(c, calls, 0, 1);
      assert AcceptsTextTwice(c, calls);
    }
  }
}
