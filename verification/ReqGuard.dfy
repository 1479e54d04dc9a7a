/**
 The signed-request guard of `securityGuards.js`: a timestamp window and a nonce
 cache with a time to live.
 */
module ReqGuard {
  import opened Json
  import opened JsText
  import opened SigningPayload

  datatype Reason =
    | KeyMissing | TimestampInvalid | Expired | NonceMissing | Replay | SignatureMissing | SignatureInvalid

  datatype Verdict = Ok | Rejected(reason: Reason)

  /** The settings of a session; `verify(key, text, signature)` is false also where the program's verifier throws. */
  datatype Config = Config(
    requireSignature: bool, maxAgeMs: real, nonceTtlMs: real, verify: (string, string, string) -> bool)

  /** One call as the guard sees it: the texts that may have been signed, the verify key held then, and the clock. */
  datatype Call = Call(
    timestamp: JsNumber, nonce: string, stable: string, canonical: string, legacy: string,
    signature: string, key: string, nowMs: real)

  /** The call made for a request and its `signature` field. */
  function CallOf(r: Req, signature: Json, key: string, nowMs: real): Call
    requires ParsedReq(r)
  {
    Call(r.timestamp, TrimmedText(r.nonce), StablePayload(r), CanonicalPayload(r), LegacyPayload(r),
         TrimmedText(signature), key, nowMs)
  }

  /** The call was made for `r`. */
  ghost predicate MadeFor(call: Call, r: Req, signature: Json) {
    ParsedReq(r) && CallOf(r, signature, call.key, call.nowMs) == call
  }

  /** A call that was made for some request. */
  ghost predicate Genuine(call: Call) {
    exists r, signature :: MadeFor(call, r, signature)
  }

  /** `String(v || '').trim()`. */
  function TrimmedText(v: Json): string {
    Trim(if Truthy(Some(v)) then ToText(v) else "")
  }

  type Cache = map<string, real>

  function Abs(x: real): real {
    if x < 0.0 then -x else x
  }

  /** The checks before the nonce cache is touched. */
  function EarlyReject(c: Config, call: Call): Option<Reason> {
    var t := call.timestamp;
    if call.key == "" then Some(KeyMissing)
    else if t.NotFinite? || RealOf(t) <= 0.0 then Some(TimestampInvalid)
    else if Abs(call.nowMs - RealOf(t)) > c.maxAgeMs then Some(Expired)
    else if call.nonce == "" then Some(NonceMissing)
    else None
  }

  function Pruned(seen: Cache, nowMs: real, ttlMs: real): Cache {
    map k | k in seen && nowMs - seen[k] <= ttlMs :: seen[k]
  }

  predicate Verified(c: Config, call: Call) {
    c.verify(call.key, call.stable, call.signature) ||
    c.verify(call.key, call.canonical, call.signature) ||
    c.verify(call.key, call.legacy, call.signature)
  }

  /** The verdict on one call and the cache it leaves. */
  datatype Judged = Judged(verdict: Verdict, cache: Cache)

  function Validate(c: Config, seen: Cache, call: Call): Judged {
    if !c.requireSignature then Judged(Ok, seen)
    else if EarlyReject(c, call).Some? then Judged(Rejected(EarlyReject(c, call).value), seen)
    else
      var live := Pruned(seen, call.nowMs, c.nonceTtlMs);
      if call.nonce in live then Judged(Rejected(Replay), live)
      else if call.signature == "" then Judged(Rejected(SignatureMissing), live)
      else if !Verified(c, call) then Judged(Rejected(SignatureInvalid), live)
      else Judged(Ok, live[call.nonce := call.nowMs])
  }

  // ----- the methods -----

  class NonceGuard {
    const config: Config
    var seenNonces: Cache

    constructor (config: Config)
      ensures this.config == config && seenNonces == map[]
    {
      this.config := config;
      seenNonces := map[];
    }

    /** Deletes, entry by entry, what is older than the time to live. */
    method PruneSeenNonces(nowMs: real)
      modifies this
      ensures seenNonces == Pruned(old(seenNonces), nowMs, config.nonceTtlMs)
    {
      ghost var before := seenNonces;
      var rest := seenNonces.Keys;
      while rest != {}
        invariant rest <= before.Keys
        invariant seenNonces == map k | k in before && (k in rest || nowMs - before[k] <= config.nonceTtlMs) :: before[k]
        decreases rest
      {
        var k :| k in rest;
        if nowMs - seenNonces[k] > config.nonceTtlMs {
          seenNonces := seenNonces - {k};
        }
        rest := rest - {k};
      }
    }

    method ValidateReqSignature(req: Req, signature: Json, key: string, nowMs: real) returns (v: Verdict)
      requires ParsedReq(req)
      modifies this
      ensures Judged(v, seenNonces) == Validate(config, old(seenNonces), CallOf(req, signature, key, nowMs))
    {
      if !config.requireSignature { return Ok; }
      var call := CallOf(req, signature, key, nowMs);
      var early := EarlyReject(config, call);
      if early.Some? { return Rejected(early.value); }
      var nonce := call.nonce;
      PruneSeenNonces(call.nowMs);
      if nonce in seenNonces { return Rejected(Replay); }
      if call.signature == "" { return Rejected(SignatureMissing); }
      if !Verified(config, call) { return Rejected(SignatureInvalid); }
      seenNonces := seenNonces[nonce := call.nowMs];
      return Ok;
    }
  }

  // ----- runs of one session -----

  datatype Accept = Accept(nonce: string, stampMs: real, atMs: real)

  /** A session's cache beside everything it has accepted so far. */
  datatype Session = Session(cache: Cache, accepts: seq<Accept>)

  /** The clock never goes back. */
  ghost predicate Run(calls: seq<Call>) {
    forall i, j :: 0 <= i < j < |calls| ==> calls[i].nowMs <= calls[j].nowMs
  }

  function Next(c: Config, s: Session, call: Call): Session {
    var judged := Validate(c, s.cache, call);
    Session(judged.cache, if judged.verdict == Ok then s.accepts + [Accept(call.nonce, RealOf(call.timestamp), call.nowMs)] else s.accepts)
  }

  function After(c: Config, calls: seq<Call>): Session {
    if calls == [] then Session(map[], [])
    else Next(c, After(c, calls[..|calls| - 1]), calls[|calls| - 1])
  }

  /**
   The cache holds acceptance times only, and misses none still within its time
   to live; every acceptance was within the timestamp window.
   */
  ghost predicate Faithful(c: Config, s: Session, nowMs: real) {
    (forall k | k in s.cache :: AcceptedAt(s.accepts, k, s.cache[k])) &&
    (forall a | a in s.accepts :: Remembered(c, s.cache, a, nowMs))
  }

  ghost predicate AcceptedAt(accepts: seq<Accept>, nonce: string, atMs: real) {
    exists a :: a in accepts && a.nonce == nonce && a.atMs == atMs
  }

  predicate Remembered(c: Config, cache: Cache, a: Accept, nowMs: real) {
    a.atMs <= nowMs && Abs(a.atMs - a.stampMs) <= c.maxAgeMs &&
    (nowMs - a.atMs <= c.nonceTtlMs ==> a.nonce in cache && cache[a.nonce] >= a.atMs)
  }

  lemma Later(c: Config, s: Session, before: real, nowMs: real)
    requires Faithful(c, s, before) && before <= nowMs
    ensures Faithful(c, s, nowMs)
  {
  }

  lemma AcceptedStays(accepts: seq<Accept>, more: seq<Accept>, nonce: string, atMs: real)
    requires AcceptedAt(accepts, nonce, atMs)
    ensures AcceptedAt(accepts + more, nonce, atMs)
  {
    var a :| a in accepts && a.nonce == nonce && a.atMs == atMs;
    assert a in accepts + more;
  }

  lemma NextIsFaithful(c: Config, s: Session, call: Call)
    requires Faithful(c, s, call.nowMs) && c.requireSignature
    ensures Faithful(c, Next(c, s, call), call.nowMs)
  {
    var next := Next(c, s, call);
    var a := Accept(call.nonce, RealOf(call.timestamp), call.nowMs);
    if next.accepts != s.accepts {
      assert a in s.accepts + [a];
      assert AcceptedAt(s.accepts + [a], call.nonce, call.nowMs);
      forall k | k in next.cache && k != call.nonce ensures AcceptedAt(s.accepts + [a], k, next.cache[k]) {
        AcceptedStays(s.accepts, [a], k, s.cache[k]);
      }
      forall b | b in s.accepts + [a] ensures Remembered(c, next.cache, b, call.nowMs) {
        assert b != a ==> b in s.accepts && Remembered(c, s.cache, b, call.nowMs);
      }
    } else {
      forall b | b in s.accepts ensures Remembered(c, next.cache, b, call.nowMs) {
        assert Remembered(c, s.cache, b, call.nowMs);
      }
    }
  }

  lemma {:induction false} AfterIsFaithful(c: Config, calls: seq<Call>, nowMs: real)
    requires Run(calls) && c.requireSignature && (calls != [] ==> calls[|calls| - 1].nowMs <= nowMs)
    ensures Faithful(c, After(c, calls), nowMs)
  {
    if calls != [] {
      var n := |calls| - 1;
      AfterIsFaithful(c, calls[..n], calls[n].nowMs);
      NextIsFaithful(c, After(c, calls[..n]), calls[n]);
      Later(c, After(c, calls), calls[n].nowMs, nowMs);
    }
  }

  /** Past the earlier checks, `replay` means exactly: this nonce was accepted within the last time to live. */
  lemma ReplayExactly(c: Config, calls: seq<Call>, call: Call)
    requires Run(calls) && c.requireSignature && EarlyReject(c, call).None?
    requires calls != [] ==> calls[|calls| - 1].nowMs <= call.nowMs
    ensures Validate(c, After(c, calls).cache, call).verdict == Rejected(Replay) <==>
            exists a :: a in After(c, calls).accepts && a.nonce == call.nonce && call.nowMs - a.atMs <= c.nonceTtlMs
  {
    AfterIsFaithful(c, calls, call.nowMs);
    var s := After(c, calls);
    if call.nonce in s.cache && call.nowMs - s.cache[call.nonce] <= c.nonceTtlMs {
      assert AcceptedAt(s.accepts, call.nonce, s.cache[call.nonce]);
      var a :| a in s.accepts && a.nonce == call.nonce && a.atMs == s.cache[call.nonce];
      assert call.nowMs - a.atMs <= c.nonceTtlMs;
    }
  }

  /** Call `i` of a run is accepted. */
  predicate Accepted(c: Config, calls: seq<Call>, i: nat)
    requires i < |calls|
  {
    Validate(c, After(c, calls[..i]).cache, calls[i]).verdict == Ok
  }

  lemma {:induction false} AcceptIsKept(c: Config, calls: seq<Call>, i: nat, j: nat)
    requires i < j <= |calls| && Accepted(c, calls, i)
    ensures Accept(calls[i].nonce, RealOf(calls[i].timestamp), calls[i].nowMs) in After(c, calls[..j]).accepts
    decreases j
  {
    assert calls[..j][..j - 1] == calls[..j - 1];
    if i < j - 1 {
      AcceptIsKept(c, calls, i, j - 1);
    }
  }

  /** Two accepted calls with one nonce lie more than the time to live apart, each near its own timestamp. */
  lemma SameNonceApart(c: Config, calls: seq<Call>, i: nat, j: nat)
    requires Run(calls) && c.requireSignature && i < j < |calls| && Accepted(c, calls, i) && Accepted(c, calls, j)
    requires calls[i].nonce == calls[j].nonce
    ensures calls[j].nowMs - calls[i].nowMs > c.nonceTtlMs
    ensures Abs(calls[i].nowMs - RealOf(calls[i].timestamp)) <= c.maxAgeMs
    ensures Abs(calls[j].nowMs - RealOf(calls[j].timestamp)) <= c.maxAgeMs
  {
    AcceptIsKept(c, calls, i, j);
    ReplayExactly(c, calls[..j], calls[j]);
  }

  lemma PairsDiffer(c: Config, calls: seq<Call>, i: nat, j: nat)
    requires Run(calls) && c.requireSignature && (c.maxAgeMs < 0.0 || c.nonceTtlMs >= 2.0 * c.maxAgeMs)
    requires i < j < |calls| && Accepted(c, calls, i) && Accepted(c, calls, j)
    ensures calls[i].nonce != calls[j].nonce || RealOf(calls[i].timestamp) != RealOf(calls[j].timestamp)
  {
    if calls[i].nonce == calls[j].nonce { SameNonceApart(c, calls, i, j); }
  }

  /** Two acceptances of the same nonce with the same timestamp. */
  ghost predicate AcceptsTwice(accepts: seq<Accept>) {
    exists i, j :: 0 <= i < j < |accepts| &&
      accepts[i].nonce == accepts[j].nonce && accepts[i].stampMs == accepts[j].stampMs
  }

  lemma {:induction false} NoPairAcceptedTwice(c: Config, calls: seq<Call>)
    requires Run(calls) && c.requireSignature && (c.maxAgeMs < 0.0 || c.nonceTtlMs >= 2.0 * c.maxAgeMs)
    ensures !AcceptsTwice(After(c, calls).accepts)
  {
    if calls != [] {
      var n := |calls| - 1;
      var call := calls[n];
      var before := After(c, calls[..n]);
      NoPairAcceptedTwice(c, calls[..n]);
      AfterIsFaithful(c, calls[..n], call.nowMs);
      if Validate(c, before.cache, call).verdict == Ok {
        ReplayExactly(c, calls[..n], call);
        forall i | 0 <= i < |before.accepts| && before.accepts[i].nonce == call.nonce
          ensures before.accepts[i].stampMs != RealOf(call.timestamp)
        {
          assert before.accepts[i] in before.accepts;
        }
      }
    }
  }

  /** A request that passes every check when the clock shows its own timestamp. */
  predicate WellSigned(c: Config, call: Call) {
    call.key != "" && !call.timestamp.NotFinite? && RealOf(call.timestamp) > 0.0 &&
    call.nonce != "" && call.signature != "" && Verified(c, call)
  }

  lemma ShortTtlAcceptsTwice(c: Config, call: Call)
    requires WellSigned(c, call)
    requires !c.requireSignature || (c.maxAgeMs >= 0.0 && c.nonceTtlMs < 2.0 * c.maxAgeMs)
    ensures exists calls: seq<Call> :: Run(calls) && AcceptsTwice(After(c, calls).accepts)
  {
    var age := if c.requireSignature then c.maxAgeMs else 0.0;
    var early := call.(nowMs := RealOf(call.timestamp) - age);
    var late := call.(nowMs := RealOf(call.timestamp) + age);
    assert [early][..0] == [];
    assert [early, late][..1] == [early];
    var first := After(c, [early]);
    assert first == Next(c, After(c, []), early);
    assert first.accepts == [Accept(call.nonce, RealOf(call.timestamp), early.nowMs)];
    var second := After(c, [early, late]);
    assert second == Next(c, first, late);
    assert second.accepts[0].nonce == second.accepts[1].nonce;
    assert Run([early, late]) && AcceptsTwice(second.accepts);
  }

  /** No run accepts a pair twice exactly when signatures are required and the cache outlives the whole window. */
  lemma ReplayWindowExactly(c: Config, call: Call)
    requires WellSigned(c, call)
    ensures (forall calls: seq<Call> | Run(calls) :: !AcceptsTwice(After(c, calls).accepts)) <==>
            c.requireSignature && (c.maxAgeMs < 0.0 || c.nonceTtlMs >= 2.0 * c.maxAgeMs)
  {
    if c.requireSignature && (c.maxAgeMs < 0.0 || c.nonceTtlMs >= 2.0 * c.maxAgeMs) {
      forall calls: seq<Call> | Run(calls) ensures !AcceptsTwice(After(c, calls).accepts) {
        NoPairAcceptedTwice(c, calls);
      }
    } else {
      ShortTtlAcceptsTwice(c, call);
    }
  }

  const DEFAULT_MAX_AGE_MS := 5.0 * 60.0 * 1000.0
  const DEFAULT_NONCE_TTL_MS := 10.0 * 60.0 * 1000.0

  /** The default settings meet the bound with equality. */
  lemma DefaultsAreSafe(verify: (string, string, string) -> bool, calls: seq<Call>)
    requires Run(calls)
    ensures !AcceptsTwice(After(Config(true, DEFAULT_MAX_AGE_MS, DEFAULT_NONCE_TTL_MS, verify), calls).accepts)
  {
    NoPairAcceptedTwice(Config(true, DEFAULT_MAX_AGE_MS, DEFAULT_NONCE_TTL_MS, verify), calls);
  }

  // ----- exactly what is accepted, with every check written out -----

  /** Every acceptance of a session is an accepted call of its run. */
  lemma {:induction false} AcceptsAreCalls(c: Config, calls: seq<Call>, a: Accept) returns (i: nat)
    requires a in After(c, calls).accepts
    ensures i < |calls| && Accepted(c, calls, i) && calls[i].nonce == a.nonce && calls[i].nowMs == a.atMs
  {
    var n := |calls| - 1;
    if a in After(c, calls[..n]).accepts {
      i := AcceptsAreCalls(c, calls[..n], a);
      assert calls[..n][..i] == calls[..i];
    } else {
      i := n;
    }
  }

  /** An earlier call of the run was accepted with this nonce, and not longer ago than the time to live. */
  ghost predicate UsedRecently(c: Config, calls: seq<Call>, i: nat)
    requires i < |calls|
  {
    exists j: nat :: j < i && Accepted(c, calls, j) && calls[j].nonce == calls[i].nonce &&
                     calls[i].nowMs - calls[j].nowMs <= c.nonceTtlMs
  }

  /** The first check that a call fails, each read off the call, the settings and the calls accepted before. */
  ghost function FirstFailing(c: Config, calls: seq<Call>, i: nat): Option<Reason>
    requires i < |calls|
  {
    var call := calls[i];
    if call.key == "" then Some(KeyMissing)
    else if call.timestamp.NotFinite? || RealOf(call.timestamp) <= 0.0 then Some(TimestampInvalid)
    else if call.nowMs - RealOf(call.timestamp) > c.maxAgeMs || RealOf(call.timestamp) - call.nowMs > c.maxAgeMs then Some(Expired)
    else if call.nonce == "" then Some(NonceMissing)
    else if UsedRecently(c, calls, i) then Some(Replay)
    else if call.signature == "" then Some(SignatureMissing)
    else if !c.verify(call.key, call.stable, call.signature) && !c.verify(call.key, call.canonical, call.signature) &&
            !c.verify(call.key, call.legacy, call.signature) then Some(SignatureInvalid)
    else None
  }

  lemma UsedIsReplay(c: Config, calls: seq<Call>, i: nat)
    requires Run(calls) && c.requireSignature && i < |calls| && EarlyReject(c, calls[i]).None?
    ensures Validate(c, After(c, calls[..i]).cache, calls[i]).verdict == Rejected(Replay) <==> UsedRecently(c, calls, i)
  {
    ReplayExactly(c, calls[..i], calls[i]);
    if UsedRecently(c, calls, i) {
      var j: nat :| j < i && Accepted(c, calls, j) && calls[j].nonce == calls[i].nonce &&
                    calls[i].nowMs - calls[j].nowMs <= c.nonceTtlMs;
      AcceptIsKept(c, calls, j, i);
      assert Accept(calls[j].nonce, RealOf(calls[j].timestamp), calls[j].nowMs) in After(c, calls[..i]).accepts;
    }
    if Validate(c, After(c, calls[..i]).cache, calls[i]).verdict == Rejected(Replay) {
      var a :| a in After(c, calls[..i]).accepts && a.nonce == calls[i].nonce && calls[i].nowMs - a.atMs <= c.nonceTtlMs;
      var j := AcceptsAreCalls(c, calls[..i], a);
      assert calls[..i][..j] == calls[..j];
      assert Accepted(c, calls, j);
    }
  }

  /** The verdict on every call of every run: the first check it fails, or none. */
  lemma VerdictExactly(c: Config, calls: seq<Call>, i: nat)
    requires Run(calls) && c.requireSignature && i < |calls|
    ensures var failing := FirstFailing(c, calls, i);
            Validate(c, After(c, calls[..i]).cache, calls[i]).verdict == if failing.Some? then Rejected(failing.value) else Ok
  {
    if EarlyReject(c, calls[i]).None? { UsedIsReplay(c, calls, i); }
  }

  /** With signatures required, an accepted call has a signature that verifies over one of its three texts. */
  lemma AcceptedWasVerified(c: Config, calls: seq<Call>, i: nat)
    requires Run(calls) && c.requireSignature && i < |calls| && Accepted(c, calls, i)
    ensures var call := calls[i];
            call.key != "" && call.signature != "" && call.nonce != "" &&
            exists t :: t in {call.stable, call.canonical, call.legacy} && c.verify(call.key, t, call.signature)
  {
    VerdictExactly(c, calls, i);
    var call := calls[i];
    assert call.stable in {call.stable, call.canonical, call.legacy} && call.canonical in {call.stable, call.canonical, call.legacy};
  }

  /** A timely call with an unused nonce whose signature verifies over one of its texts is accepted. */
  lemma VerifiedIsAccepted(c: Config, calls: seq<Call>, i: nat, t: string)
    requires Run(calls) && c.requireSignature && i < |calls|
    requires var call := calls[i];
             call.key != "" && !call.timestamp.NotFinite? && RealOf(call.timestamp) > 0.0 &&
             -c.maxAgeMs <= call.nowMs - RealOf(call.timestamp) <= c.maxAgeMs && call.nonce != "" && call.signature != ""
    requires !UsedRecently(c, calls, i)
    requires t in {calls[i].stable, calls[i].canonical, calls[i].legacy} && c.verify(calls[i].key, t, calls[i].signature)
    ensures Accepted(c, calls, i)
  {
    VerdictExactly(c, calls, i);
  }

  /** Without required signatures everything is accepted, and nothing is remembered. */
  lemma OptionalAcceptsAll(c: Config, calls: seq<Call>, i: nat)
    requires !c.requireSignature && i < |calls|
    ensures Accepted(c, calls, i)
  {
  }

  /** What a call takes from its request. */
  lemma CallFields(r: Req, signature: Json, key: string, nowMs: real)
    requires ParsedReq(r)
    ensures var call := CallOf(r, signature, key, nowMs);
            call.timestamp == r.timestamp && call.key == key && call.nowMs == nowMs &&
            call.nonce == (if Truthy(Some(r.nonce)) then Trim(ToText(r.nonce)) else "") &&
            call.signature == (if Truthy(Some(signature)) then Trim(ToText(signature)) else "") &&
            call.stable == StablePayload(r) && call.canonical == CanonicalPayload(r) && call.legacy == LegacyPayload(r)
  {
    assert Trim("") == "";
  }
}
