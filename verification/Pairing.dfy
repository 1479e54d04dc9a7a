/**
 The pairing handshake of `machineRelaySession.js`: register, challenge,
 response, and the signed requests that may follow.
 */
module Pairing {
  import opened Json
  import opened JsText
  import opened ParsedConfigs
  import opened PrintLaws
  import opened SigningPayload
  import G = ReqGuard
  import O = SignedOnce

  datatype Handshake = Unregistered | ChallengeIssued | Paired | ReadyForAgentReq | Refused

  /** A register message after its fields were read; `publicKey` is the loaded key, when it has 32 bytes. */
  datatype Register = Register(
    hasProtocolFields: bool, protocolVersion: JsNumber, capabilities: seq<string>,
    publicKey: Option<string>, publicKeyText: string, conversationId: string, participantId: string, traceId: string,
    attestation: bool)

  datatype Challenge = Challenge(
    nonce: string, issuedAt: int, expiresAt: int, traceId: string, participantId: string, conversationId: string,
    publicKey: string, protocolVersion: JsNumber, requireAttestation: bool)

  datatype Attestation = Attestation(provider: string, keyId: string, assertion: string, clientDataHash: string, verdict: string)

  datatype Response = Response(
    nonce: string, timestamp: JsNumber, signature: string, attestation: Option<Attestation>)

  datatype Config = Config(
    minVersion: real, serverVersion: real, allowLegacy: bool, required: seq<string>, challengeTtlMs: int,
    allowUnverifiedAttestation: bool, hash: string -> string, guard: G.Config)

  // ----- the challenge -----

  datatype Member = Member(name: string, value: Json)

  /** An object literal: its members, one after the other. */
  function ObjectOf(members: seq<Member>): (b: Json)
    ensures b.Obj?
  {
    if members == [] then EMPTY
    else
      var n := |members| - 1;
      Assign(ObjectOf(members[..n]), members[n].name, members[n].value)
  }

  lemma {:induction false} ObjectOfParsed(members: seq<Member>)
    requires forall m | m in members :: Parsed(m.value)
    ensures Parsed(ObjectOf(members))
  {
    if members != [] {
      var n := |members| - 1;
      assert members[n] in members;
      ObjectOfParsed(members[..n]);
      ParsedEdit(ObjectOf(members[..n]), members[n].name, members[n].value);
    }
  }

  ghost predicate NamesDiffer(members: seq<Member>) {
    forall i, j :: 0 <= i < j < |members| ==> members[i].name != members[j].name
  }

  lemma {:induction false} ObjectOfAt(members: seq<Member>, i: nat)
    requires i < |members| && NamesDiffer(members)
    ensures At(ObjectOf(members), members[i].name) == Some(members[i].value)
  {
    var n := |members| - 1;
    if i < n {
      ObjectOfAt(members[..n], i);
    }
  }

  function ChallengeMembers(c: Challenge): seq<Member> {
    [Member("challengeType", Str("register")), Member("nonce", Str(c.nonce)), Member("issuedAt", Num(Int(c.issuedAt))),
     Member("expiresAt", Num(Int(c.expiresAt))), Member("traceId", Str(c.traceId)),
     Member("participantId", Str(c.participantId)), Member("conversationId", Str(c.conversationId)),
     Member("publicKey", Str(c.publicKey)), Member("protocolVersion", NumberJson(c.protocolVersion))]
  }

  /** The object whose text is signed. */
  function ChallengeBody(c: Challenge): (b: Json)
    ensures b.Obj?
  {
    ObjectOf(ChallengeMembers(c))
  }

  /** A text, or a number as it prints. */
  predicate Leaf(j: Json) {
    j.Str? || j.Null? || (j.Num? && (j.n.Dec? ==> DecimalText(j.n.text)))
  }

  lemma LeavesParsed(members: seq<Member>)
    requires forall i | 0 <= i < |members| :: Leaf(members[i].value)
    ensures Parsed(ObjectOf(members))
  {
    ObjectOfParsed(members);
  }

  lemma ChallengeBodyParsed(c: Challenge)
    ensures Parsed(ChallengeBody(c))
  {
    LeavesParsed(ChallengeMembers(c));
  }

  lemma ChallengeNamesDiffer(c: Challenge)
    ensures NamesDiffer(ChallengeMembers(c))
  {
    var ms := ChallengeMembers(c);
    assert ms[0].name[0] != ms[5].name[0] && ms[3].name[0] != ms[7].name[0];
    forall i, j | 0 <= i < j < |ms| ensures ms[i].name != ms[j].name {
      assert |ms[i].name| == |ms[j].name| ==> (i == 0 && j == 5) || (i == 3 && j == 7);
    }
  }

  /** `registerChallengeSigningPayload`. */
  function ChallengePayload(c: Challenge): string
  {
    ChallengeBodyParsed(c);
    SortedDeepParsed(ChallengeBody(c));
    Print(SortKeysDeep(ChallengeBody(c)))
  }

  datatype Reason =
    | NonceMismatch | TimestampInvalid | TimestampFromFuture | ChallengeExpired | KeyMissing | SignatureMissing
    | SignatureInvalid | AttestationMissing | AttestationFieldsMissing | HashMismatch | VerdictNotOk

  /** `validateRegisterChallengeResponse`: the first check that fails, if any. */
  function Refusal(cfg: Config, c: Challenge, r: Response, key: string, nowMs: real): Option<Reason> {
    RefusalOver(cfg, ChallengePayload(c), c, r, key, nowMs)
  }

  /** The checks, when `payload` is the signing text of the challenge. */
  function RefusalOver(cfg: Config, payload: string, c: Challenge, r: Response, key: string, nowMs: real): Option<Reason> {
    if r.nonce == "" || r.nonce != c.nonce then Some(NonceMismatch)
    else if r.timestamp.NotFinite? || RealOf(r.timestamp) <= 0.0 then Some(TimestampInvalid)
    else if RealOf(r.timestamp) > nowMs + 60000.0 then Some(TimestampFromFuture)
    else if c.expiresAt <= 0 || nowMs > c.expiresAt as real then Some(ChallengeExpired)
    else if key == "" then Some(KeyMissing)
    else if r.signature == "" then Some(SignatureMissing)
    else if !cfg.guard.verify(key, ResponseText(payload, r), r.signature) then Some(SignatureInvalid)
    else if !c.requireAttestation then None
    else AttestationRefusal(cfg, payload, r)
  }

  /** The text a response signs: the challenge's payload and the response's own timestamp. */
  function ResponseText(payload: string, r: Response): string {
    payload + "|" + TemplateText(r.timestamp)
  }

  function AttestationRefusal(cfg: Config, payload: string, r: Response): Option<Reason> {
    match r.attestation
    case None => Some(AttestationMissing)
    case Some(a) =>
      if a.provider == "" || a.keyId == "" || a.assertion == "" || a.clientDataHash == "" then Some(AttestationFieldsMissing)
      else if a.clientDataHash != cfg.hash(payload) then Some(HashMismatch)
      else if !cfg.allowUnverifiedAttestation && a.verdict != "ok" then Some(VerdictNotOk)
      else None
  }

  datatype Compat = Compatible | TooOld | LegacyDisallowed | CapabilityMissing(name: string)

  function Missing(required: seq<string>, have: seq<string>): Compat {
    if required == [] then Compatible
    else if required[0] !in have then CapabilityMissing(required[0])
    else Missing(required[1..], have)
  }

  function Compatibility(cfg: Config, r: Register): Compat {
    if r.protocolVersion.NotFinite? || RealOf(r.protocolVersion) < cfg.minVersion then TooOld
    else if !cfg.allowLegacy && RealOf(r.protocolVersion) < cfg.serverVersion then LegacyDisallowed
    else Missing(cfg.required, r.capabilities)
  }

  function Max(a: int, b: int): int {
    if a >= b then a else b
  }

  /** The challenge for a register message; it lives for at least a second. */
  function NewChallenge(r: Register, nonce: string, now: int, ttlMs: int): (c: Challenge)
    ensures c.nonce == nonce && c.issuedAt == now && c.expiresAt >= now + 1000 && c.expiresAt >= now + ttlMs
    ensures c.expiresAt == now + 1000 || c.expiresAt == now + ttlMs
    ensures c.traceId == r.traceId && c.participantId == r.participantId && c.conversationId == r.conversationId
    ensures c.publicKey == r.publicKeyText && c.protocolVersion == r.protocolVersion && c.requireAttestation == r.attestation
  {
    Challenge(nonce, now, now + Max(1000, ttlMs), r.traceId, r.participantId, r.conversationId, r.publicKeyText,
              r.protocolVersion, r.attestation)
  }

  // ----- the session's history -----

  /**
   What happened in a session; `issue` is the place of the challenge's own event, and
   `Guarded` a request the guard saw, passed on exactly when it was ok.
   */
  datatype Event =
    | Issued(challenge: Challenge)
    | Evaluated(issue: nat, response: Response, key: string, nowMs: real, ok: bool)
    | Ready
    | Guarded(call: G.Call, ok: bool)

  /** The handshake state that a history leads to. */
  function StateOf(log: seq<Event>): Handshake {
    if log == [] then Unregistered
    else
      match log[|log| - 1]
      case Issued(_) => ChallengeIssued
      case Evaluated(_, _, _, _, ok) => if ok then Paired else Refused
      case Ready => ReadyForAgentReq
      case Guarded(_, _) => StateOf(log[..|log| - 1])
  }

  /** The place of the latest challenge. */
  function LatestIssue(log: seq<Event>): (i: int)
    ensures i < |log| && (i >= 0 ==> log[i].Issued?)
    ensures forall j | 0 <= j < |log| && log[j].Issued? :: j <= i
  {
    if log == [] then -1
    else if log[|log| - 1].Issued? then |log| - 1
    else LatestIssue(log[..|log| - 1])
  }

  /** The calls of the guard, in order. */
  function Calls(log: seq<Event>): seq<G.Call> {
    if log == [] then []
    else
      var last := log[|log| - 1];
      Calls(log[..|log| - 1]) + if last.Guarded? then [last.call] else []
  }

  /** The state each kind of event happens in, and which challenge an evaluation is about. */
  ghost predicate InOrder(before: seq<Event>, e: Event) {
    match e
    case Issued(_) => true
    case Evaluated(issue, _, _, _, _) => StateOf(before) == ChallengeIssued && issue == LatestIssue(before)
    case Ready => StateOf(before) == Paired
    case Guarded(_, _) => StateOf(before) == ReadyForAgentReq
  }

  /** What every event must have found when it happened. */
  ghost predicate EventOk(cfg: Config, before: seq<Event>, e: Event) {
    InOrder(before, e) &&
    match e
    case Issued(_) => true
    case Evaluated(issue, response, key, nowMs, ok) =>
      ok == Refusal(cfg, before[issue].challenge, response, key, nowMs).None?
    case Ready => true
    case Guarded(call, ok) =>
      ok == (G.Validate(cfg.guard, G.After(cfg.guard, Calls(before)).cache, call).verdict == G.Ok)
  }

  ghost predicate InOrderAt(log: seq<Event>, i: nat)
    requires i < |log|
  {
    InOrder(log[..i], log[i])
  }

  ghost predicate AllInOrder(log: seq<Event>) {
    forall i: nat | i < |log| :: InOrderAt(log, i)
  }

  ghost predicate OkAt(cfg: Config, log: seq<Event>, i: nat)
    requires i < |log|
  {
    EventOk(cfg, log[..i], log[i])
  }

  ghost predicate LogOk(cfg: Config, log: seq<Event>) {
    forall i: nat | i < |log| :: OkAt(cfg, log, i)
  }

  // ----- the session -----

  datatype RegisterReply = ProtocolFieldsMissing | PublicKeyInvalid | Incompatible(why: Compat) | Challenged(challenge: Challenge)

  datatype ResponseReply = NotIssued | RefusedBy(reason: Reason) | Accepted

  /** The session's fields are those its history leads to. */
  ghost predicate Fits(cfg: Config, log: seq<Event>, handshake: Handshake, pending: bool, held: Option<Challenge>, seen: G.Cache) {
    LogOk(cfg, log) && handshake == StateOf(log) && seen == CacheAfter(cfg, log) &&
    (handshake == ChallengeIssued ==>
      LatestIssue(log) >= 0 && pending && held == Some(log[LatestIssue(log)].challenge))
  }

  class MachineRelaySession {
    const config: Config
    var handshake: Handshake
    var pendingRegister: Option<Register>
    var registerChallenge: Option<Challenge>
    var verifyKey: string
    var seenNonces: G.Cache
    ghost var log: seq<Event>

    ghost predicate Valid()
      reads this
    {
      Fits(config, log, handshake, pendingRegister.Some?, registerChallenge, seenNonces)
    }

    constructor (config: Config)
      ensures Valid() && log == [] && this.config == config && seenNonces == map[]
    {
      this.config := config;
      handshake, pendingRegister, registerChallenge := Unregistered, None, None;
      verifyKey, seenNonces, log := "", map[], [];
    }

    /** `validateAndPrepareRegister`: the key is taken over before the compatibility check. */
    method ValidateAndPrepareRegister(r: Register, nonce: string, now: int)
      returns (reply: RegisterReply)
      requires Valid()
      modifies this
      ensures Valid() && seenNonces == old(seenNonces)
      ensures reply.Challenged? <==>
                r.hasProtocolFields && r.publicKey.Some? && r.publicKey.value != "" && Compatibility(config, r) == Compatible
      ensures reply.Challenged? ==>
                log == old(log) + [Issued(reply.challenge)] && handshake == ChallengeIssued &&
                reply.challenge == NewChallenge(r, nonce, now, config.challengeTtlMs)
      ensures reply.ProtocolFieldsMissing? <==> !r.hasProtocolFields
      ensures reply.PublicKeyInvalid? <==> r.hasProtocolFields && (r.publicKey.None? || r.publicKey.value == "")
      ensures reply.Incompatible? ==> reply.why == Compatibility(config, r) != Compatible
      ensures !reply.Challenged? ==> log == old(log) && handshake == old(handshake)
      ensures verifyKey == if !r.hasProtocolFields then old(verifyKey)
                           else if r.publicKey.Some? then r.publicKey.value else ""
    {
      if !r.hasProtocolFields { return ProtocolFieldsMissing; }
      verifyKey := if r.publicKey.Some? then r.publicKey.value else "";
      if verifyKey == "" { return PublicKeyInvalid; }
      var compat := Compatibility(config, r);
      if compat != Compatible { return Incompatible(compat); }
      reply := Challenged(NewChallenge(r, nonce, now, config.challengeTtlMs));
      Issue(r, reply.challenge);
    }

    /** Holds the register message and its challenge until the response comes. */
    method Issue(r: Register, challenge: Challenge)
      requires Valid()
      modifies this`pendingRegister, this`registerChallenge, this`handshake, this`log
      ensures Valid() && handshake == ChallengeIssued && log == old(log) + [Issued(challenge)]
    {
      IssueStep(config, log, handshake, pendingRegister.Some?, registerChallenge, seenNonces, challenge);
      pendingRegister := Some(r);
      registerChallenge := Some(challenge);
      handshake := ChallengeIssued;
      log := log + [Issued(challenge)];
    }

    /** `handleRegisterChallengeResponse` with `completeRegisterAndConnectMiddleware`. */
    method HandleRegisterChallengeResponse(response: Response, nowMs: real) returns (reply: ResponseReply)
      requires Valid()
      modifies this
      ensures Valid() && seenNonces == old(seenNonces) && verifyKey == old(verifyKey)
      ensures reply.NotIssued? <==> old(handshake) != ChallengeIssued
      ensures reply.NotIssued? ==> log == old(log) && handshake == old(handshake)
      ensures reply.RefusedBy? ==>
                handshake == Refused &&
                log == old(log) + [Evaluated(LatestIssue(old(log)), response, verifyKey, nowMs, false)]
      ensures reply.Accepted? ==>
                handshake == ReadyForAgentReq &&
                log == old(log) + [Evaluated(LatestIssue(old(log)), response, verifyKey, nowMs, true), Ready]
    {
      if handshake != ChallengeIssued || pendingRegister.None? || registerChallenge.None? { return NotIssued; }
      var refusal := EvaluateResponse(response, nowMs);
      if refusal.Some? { return RefusedBy(refusal.value); }
      CompleteRegister();
      return Accepted;
    }

    /** The challenge is spent and the session is ready for requests. */
    method CompleteRegister()
      requires Valid() && handshake == Paired
      modifies this`pendingRegister, this`registerChallenge, this`handshake, this`log
      ensures Valid() && handshake == ReadyForAgentReq && log == old(log) + [Ready]
    {
      ReadyStep(config, log, pendingRegister.Some?, registerChallenge, seenNonces);
      pendingRegister := None;
      registerChallenge := None;
      log := log + [Ready];
      handshake := ReadyForAgentReq;
    }

    /** Checks a response against the challenge held and moves to `paired` or `rejected`. */
    method EvaluateResponse(response: Response, nowMs: real) returns (refusal: Option<Reason>)
      requires Valid() && handshake == ChallengeIssued
      modifies this`handshake, this`log
      ensures Valid() && handshake == if refusal.None? then Paired else Refused
      ensures registerChallenge.Some? && refusal == Refusal(config, registerChallenge.value, response, verifyKey, nowMs)
      ensures log == old(log) + [Evaluated(LatestIssue(old(log)), response, verifyKey, nowMs, refusal.None?)]
    {
      refusal := Refusal(config, registerChallenge.value, response, verifyKey, nowMs);
      EvaluateStep(config, log, pendingRegister.Some?, registerChallenge, seenNonces, response, verifyKey, nowMs, refusal);
      log := log + [Evaluated(LatestIssue(log), response, verifyKey, nowMs, refusal.None?)];
      handshake := if refusal.None? then Paired else Refused;
    }

    /**
     `relaySignedReqToMiddleware` for a `req`, as the guard sees it under the key held now
     (`CallOf`); `peerReady` stands for the box key and, outside single-client mode, the open
     middleware socket.
     */
    method RelaySignedReq(call: G.Call, peerReady: bool) returns (handled: bool, forwarded: bool)
      requires Valid() && call.key == verifyKey
      modifies this
      ensures Valid() && handshake == old(handshake) && verifyKey == old(verifyKey)
      ensures !(handshake == ReadyForAgentReq && peerReady) ==>
                !forwarded && seenNonces == old(seenNonces) && log == old(log)
      ensures handshake == ReadyForAgentReq && peerReady ==>
                var judged := G.Validate(config.guard, old(seenNonces), call);
                forwarded == (judged.verdict == G.Ok) && seenNonces == judged.cache &&
                log == old(log) + [Guarded(call, forwarded)]
      ensures !handled <==> old(handshake) == ReadyForAgentReq && !peerReady
    {
      if handshake != ReadyForAgentReq { return true, false; }
      if !peerReady { return false, false; }
      forwarded := RelayCall(call);
      handled := true;
    }

    /** The guard; a request it lets pass is sent on. */
    method RelayCall(call: G.Call) returns (forwarded: bool)
      requires Valid() && handshake == ReadyForAgentReq
      modifies this`seenNonces, this`log
      ensures Valid()
      ensures forwarded == (G.Validate(config.guard, old(seenNonces), call).verdict == G.Ok)
      ensures seenNonces == G.Validate(config.guard, old(seenNonces), call).cache
      ensures log == old(log) + [Guarded(call, forwarded)]
    {
      var judged := G.Validate(config.guard, seenNonces, call);
      GuardStep(config, log, pendingRegister.Some?, registerChallenge, seenNonces, call, judged);
      forwarded := judged.verdict == G.Ok;
      log := log + [Guarded(call, forwarded)];
      seenNonces := judged.cache;
    }
  }

  // ----- one event more -----

  function CacheAfter(cfg: Config, log: seq<Event>): G.Cache {
    G.After(cfg.guard, Calls(log)).cache
  }

  lemma IssueStep(cfg: Config, log: seq<Event>, handshake: Handshake, pending: bool, held: Option<Challenge>, seen: G.Cache,
                  challenge: Challenge)
    requires Fits(cfg, log, handshake, pending, held, seen)
    ensures Fits(cfg, log + [Issued(challenge)], ChallengeIssued, true, Some(challenge), seen)
  {
    LogExtends(cfg, log, Issued(challenge));
    CallsSnoc(log, Issued(challenge));
  }

  lemma ReadyStep(cfg: Config, log: seq<Event>, pending: bool, held: Option<Challenge>, seen: G.Cache)
    requires Fits(cfg, log, Paired, pending, held, seen)
    ensures Fits(cfg, log + [Ready], ReadyForAgentReq, false, None, seen)
  {
    LogExtends(cfg, log, Ready);
    CallsSnoc(log, Ready);
  }

  lemma EvaluateStep(cfg: Config, log: seq<Event>, pending: bool, held: Option<Challenge>, seen: G.Cache,
                     r: Response, key: string, nowMs: real, refusal: Option<Reason>)
    requires Fits(cfg, log, ChallengeIssued, pending, held, seen) && refusal == Refusal(cfg, held.value, r, key, nowMs)
    ensures Fits(cfg, log + [Evaluated(LatestIssue(log), r, key, nowMs, refusal.None?)],
                 if refusal.None? then Paired else Refused, pending, held, seen)
  {
    var e := Evaluated(LatestIssue(log), r, key, nowMs, refusal.None?);
    LogExtends(cfg, log, e);
    CallsSnoc(log, e);
  }

  lemma GuardStep(cfg: Config, log: seq<Event>, pending: bool, held: Option<Challenge>, seen: G.Cache,
                  call: G.Call, judged: G.Judged)
    requires Fits(cfg, log, ReadyForAgentReq, pending, held, seen) && judged == G.Validate(cfg.guard, seen, call)
    ensures Fits(cfg, log + [Guarded(call, judged.verdict == G.Ok)], ReadyForAgentReq, pending, held, judged.cache)
  {
    var e := Guarded(call, judged.verdict == G.Ok);
    GuardOk(cfg, log, call, judged);
    LogExtends(cfg, log, e);
    GuardCache(cfg, log, e);
    StateStays(log, e);
  }

  lemma GuardOk(cfg: Config, log: seq<Event>, call: G.Call, judged: G.Judged)
    requires StateOf(log) == ReadyForAgentReq && judged == G.Validate(cfg.guard, CacheAfter(cfg, log), call)
    ensures EventOk(cfg, log, Guarded(call, judged.verdict == G.Ok))
  {
  }

  lemma StateStays(log: seq<Event>, e: Event)
    requires e.Guarded?
    ensures StateOf(log + [e]) == StateOf(log)
  {
    assert (log + [e])[..|log|] == log;
  }

  lemma GuardCache(cfg: Config, log: seq<Event>, e: Event)
    requires e.Guarded?
    ensures CacheAfter(cfg, log + [e]) == G.Validate(cfg.guard, CacheAfter(cfg, log), e.call).cache
  {
    CallsSnoc(log, e);
    NextCache(cfg.guard, Calls(log), e.call);
  }

  lemma NextCache(guard: G.Config, calls: seq<G.Call>, call: G.Call)
    ensures G.After(guard, calls + [call]).cache == G.Validate(guard, G.After(guard, calls).cache, call).cache
  {
    assert (calls + [call])[..|calls|] == calls;
  }

  lemma CallsSnoc(log: seq<Event>, e: Event)
    ensures Calls(log + [e]) == if e.Guarded? then Calls(log) + [e.call] else Calls(log)
  {
    assert (log + [e])[..|log|] == log;
  }

  lemma LogExtends(cfg: Config, log: seq<Event>, e: Event)
    requires LogOk(cfg, log) && EventOk(cfg, log, e)
    ensures LogOk(cfg, log + [e])
  {
    var longer := log + [e];
    assert longer[..|log|] == log;
    forall i: nat | i < |longer| ensures OkAt(cfg, longer, i) {
      if i < |log| {
        assert OkAt(cfg, log, i) && longer[..i] == log[..i];
      }
    }
  }

  // ----- every run -----

  lemma LogIsInOrder(cfg: Config, log: seq<Event>)
    requires LogOk(cfg, log)
    ensures AllInOrder(log)
  {
    forall i: nat | i < |log| ensures InOrderAt(log, i) {
      assert OkAt(cfg, log, i);
    }
  }

  lemma Unsnoc(log: seq<Event>, i: nat)
    requires 0 < i <= |log|
    ensures log[..i][i - 1] == log[i - 1] && log[..i][..i - 1] == log[..i - 1]
  {
  }

  lemma ReadyFollowsEvaluation(log: seq<Event>, i: nat)
    requires AllInOrder(log) && i < |log| && log[i].Ready?
    ensures i > 0 && log[i - 1].Evaluated? && log[i - 1].ok
    ensures log[i - 1].issue == LatestIssue(log[..i]) && log[i - 1].issue < i - 1
  {
    assert InOrderAt(log, i);
    Unsnoc(log, i);
    assert InOrderAt(log, i - 1);
  }

  lemma AcceptedMeans(cfg: Config, payload: string, c: Challenge, r: Response, key: string, nowMs: real)
    requires RefusalOver(cfg, payload, c, r, key, nowMs).None?
    ensures r.nonce == c.nonce && nowMs <= c.expiresAt as real
    ensures cfg.guard.verify(key, ResponseText(payload, r), r.signature)
    ensures c.requireAttestation ==> AttestationRefusal(cfg, payload, r).None?
  {
  }

  /** Entering the ready state: the step before accepted a response to the latest challenge, which was unexpired. */
  lemma ReadyMeansJustVerified(cfg: Config, log: seq<Event>, i: nat)
    requires LogOk(cfg, log) && i < |log| && log[i].Ready?
    ensures i > 0 && log[i - 1].Evaluated? && log[i - 1].ok
    ensures var e := log[i - 1];
            e.issue == LatestIssue(log[..i]) && e.issue < i && log[e.issue].Issued? &&
            var c := log[e.issue].challenge;
            e.response.nonce == c.nonce && e.nowMs <= c.expiresAt as real &&
            cfg.guard.verify(e.key, ResponseText(ChallengePayload(c), e.response), e.response.signature) &&
            (c.requireAttestation ==> AttestationRefusal(cfg, ChallengePayload(c), e.response).None?)
  {
    LogIsInOrder(cfg, log);
    ReadyFollowsEvaluation(log, i);
    var e := log[i - 1];
    assert OkAt(cfg, log, i - 1);
    assert log[..i][e.issue] == log[e.issue];
    assert log[..i - 1][e.issue] == log[e.issue];
    AcceptedMeans(cfg, ChallengePayload(log[e.issue].challenge), log[e.issue].challenge, e.response, e.key, e.nowMs);
  }

  /** After an evaluation, only a new challenge brings the state back to `challenge_issued`. */
  lemma EvaluatedNeedsNewIssue(log: seq<Event>, i: nat, j: nat)
    requires AllInOrder(log) && i < j <= |log| && log[i].Evaluated? && StateOf(log[..j]) == ChallengeIssued
    ensures LatestIssue(log[..j]) > i
  {
    Unsnoc(log, j);
    assert InOrderAt(log, j - 1);
  }

  /** Each issued challenge is evaluated at most once. */
  lemma EvaluatedOnce(cfg: Config, log: seq<Event>, i: nat, j: nat)
    requires LogOk(cfg, log) && i < j < |log| && log[i].Evaluated? && log[j].Evaluated?
    ensures log[i].issue < i < log[j].issue < j
  {
    LogIsInOrder(cfg, log);
    assert InOrderAt(log, i);
    assert InOrderAt(log, j);
    EvaluatedNeedsNewIssue(log, i, j);
  }

  lemma {:induction false} ReadyBefore(log: seq<Event>, i: nat) returns (r: nat)
    requires AllInOrder(log) && i < |log| && log[i].Guarded?
    ensures r < i && log[r].Ready? && forall j | r < j < i :: log[j].Guarded?
  {
    assert InOrderAt(log, i);
    Unsnoc(log, i);
    r := i - 1;
    if log[i - 1].Guarded? {
      r := ReadyBefore(log, i - 1);
    }
  }

  /** The place of event `i` among the calls of the guard. */
  function CallPlace(log: seq<Event>, i: nat): nat
    requires i <= |log|
  {
    |Calls(log[..i])|
  }

  lemma {:induction false} CallsPrefix(log: seq<Event>, i: nat)
    requires i <= |log|
    ensures CallPlace(log, i) <= |Calls(log)| && Calls(log[..i]) == Calls(log)[..CallPlace(log, i)]
    ensures i < |log| && log[i].Guarded? ==>
              CallPlace(log, i) < |Calls(log)| && Calls(log)[CallPlace(log, i)] == log[i].call
    decreases |log|
  {
    var n := |log| - 1;
    if i == |log| {
      assert log[..i] == log;
    } else {
      assert log[..n][..i] == log[..i];
      CallsPrefix(log[..n], i);
      if i == n { assert log[..n][..n] == log[..n]; }
    }
  }

  lemma CallOrder(log: seq<Event>, i: nat, j: nat)
    requires i < j <= |log| && log[i].Guarded?
    ensures CallPlace(log, i) < CallPlace(log, j)
  {
    assert log[..j][..i] == log[..i];
    CallsPrefix(log[..j], i);
  }

  /** The verdict on a request is the guard's after all earlier requests of the session. */
  lemma GuardSawEverything(cfg: Config, log: seq<Event>, i: nat)
    requires LogOk(cfg, log) && i < |log| && log[i].Guarded?
    ensures CallPlace(log, i) < |Calls(log)| && Calls(log)[CallPlace(log, i)] == log[i].call
    ensures log[i].ok == G.Accepted(cfg.guard, Calls(log), CallPlace(log, i))
  {
    assert OkAt(cfg, log, i);
    CallsPrefix(log, i);
  }

  /** A request is passed on exactly when it fails none of the guard's checks after all earlier requests of the session. */
  lemma PassedOnExactly(cfg: Config, log: seq<Event>, i: nat)
    requires LogOk(cfg, log) && G.Run(Calls(log)) && cfg.guard.requireSignature && i < |log| && log[i].Guarded?
    ensures CallPlace(log, i) < |Calls(log)| && Calls(log)[CallPlace(log, i)] == log[i].call
    ensures log[i].ok <==> G.FirstFailing(cfg.guard, Calls(log), CallPlace(log, i)).None?
  {
    GuardSawEverything(cfg, log, i);
    G.VerdictExactly(cfg.guard, Calls(log), CallPlace(log, i));
  }

  /** With signatures required, a request that is passed on was signed: its signature verifies over one of its texts. */
  lemma PassedOnWasVerified(cfg: Config, log: seq<Event>, i: nat)
    requires LogOk(cfg, log) && G.Run(Calls(log)) && cfg.guard.requireSignature
    requires i < |log| && log[i].Guarded? && log[i].ok
    ensures var call := log[i].call;
            call.signature != "" &&
            exists t :: t in {call.stable, call.canonical, call.legacy} && cfg.guard.verify(call.key, t, call.signature)
  {
    GuardSawEverything(cfg, log, i);
    G.AcceptedWasVerified(cfg.guard, Calls(log), CallPlace(log, i));
  }

  /**
   A request reaches the guard only after a `ready` with nothing but such requests in between,
   and is passed on exactly when the guard accepts it after all earlier requests of the session.
   */
  lemma ForwardedOnlyWhenReady(cfg: Config, log: seq<Event>, i: nat)
    requires LogOk(cfg, log) && i < |log| && log[i].Guarded?
    ensures exists r: nat :: r < i && log[r].Ready? && forall j | r < j < i :: log[j].Guarded?
    ensures log[i].ok == (G.Validate(cfg.guard, G.After(cfg.guard, Calls(log[..i])).cache, log[i].call).verdict == G.Ok)
  {
    LogIsInOrder(cfg, log);
    var r := ReadyBefore(log, i);
    assert OkAt(cfg, log, i);
  }

  /** No session passes on the same nonce and timestamp twice. */
  lemma NoPairForwardedTwice(cfg: Config, log: seq<Event>, i: nat, j: nat)
    requires LogOk(cfg, log) && G.Run(Calls(log)) && cfg.guard.requireSignature
    requires cfg.guard.maxAgeMs < 0.0 || cfg.guard.nonceTtlMs >= 2.0 * cfg.guard.maxAgeMs
    requires i < j < |log| && log[i].Guarded? && log[j].Guarded? && log[i].ok && log[j].ok
    ensures log[i].call.nonce != log[j].call.nonce || RealOf(log[i].call.timestamp) != RealOf(log[j].call.timestamp)
  {
    GuardSawEverything(cfg, log, i);
    GuardSawEverything(cfg, log, j);
    CallOrder(log, i, j);
    G.PairsDiffer(cfg.guard, Calls(log), CallPlace(log, i), CallPlace(log, j));
  }

  /** No session passes on two requests signed by one text, when the cache outlives twice the maximum age. */
  lemma NoTextForwardedTwice(cfg: Config, log: seq<Event>, i: nat, j: nat)
    requires LogOk(cfg, log) && O.Outlives(cfg.guard, Calls(log))
    requires i < j < |log| && log[i].Guarded? && log[j].Guarded? && log[i].ok && log[j].ok
    requires G.Genuine(log[i].call) && G.Genuine(log[j].call)
    ensures O.Texts(log[i].call) !! O.Texts(log[j].call)
  {
    GuardSawEverything(cfg, log, i);
    GuardSawEverything(cfg, log, j);
    CallOrder(log, i, j);
    O.NoTextAcceptedTwice(cfg.guard, Calls(log), CallPlace(log, i), CallPlace(log, j));
  }

  // ----- what a challenge text pins down -----

  lemma ChallengeAt(c: Challenge, i: nat)
    requires i < 9
    ensures var m := ChallengeMembers(c)[i]; At(ChallengeBody(c), m.name) == Some(m.value)
    ensures var m := ChallengeMembers(c)[i]; At(SortKeysDeep(ChallengeBody(c)), m.name) == Some(m.value)
  {
    ChallengeNamesDiffer(c);
    ObjectOfAt(ChallengeMembers(c), i);
    SortedLeaf(ChallengeBody(c), ChallengeMembers(c)[i].name);
  }

  /** Two challenges with one signing text are the same but for whether they ask for an attestation. */
  lemma ChallengeTextIsInjective(a: Challenge, b: Challenge)
    requires ChallengePayload(a) == ChallengePayload(b)
    ensures a == b.(requireAttestation := a.requireAttestation)
  {
    SameResponseTexts(a, "", b, "");
  }

  /** The same when something follows the signing text. */
  lemma SameResponseTexts(a: Challenge, x: string, b: Challenge, y: string)
    requires ChallengePayload(a) + x == ChallengePayload(b) + y && Ends(x) && Ends(y)
    ensures a == b.(requireAttestation := a.requireAttestation) && x == y
  {
    SameSortedBodies(a, x, b, y);
    SortedChallengeHolds(a);
    SortedChallengeHolds(b);
    SameChallenge(SortKeysDeep(ChallengeBody(a)), a, b);
  }

  /** An object with the members of a challenge. */
  predicate HoldsChallenge(s: Json, c: Challenge) {
    At(s, "nonce") == Some(Str(c.nonce)) && At(s, "traceId") == Some(Str(c.traceId)) &&
    At(s, "issuedAt") == Some(Num(Int(c.issuedAt))) && At(s, "expiresAt") == Some(Num(Int(c.expiresAt))) &&
    At(s, "participantId") == Some(Str(c.participantId)) && At(s, "conversationId") == Some(Str(c.conversationId)) &&
    At(s, "publicKey") == Some(Str(c.publicKey)) && At(s, "protocolVersion") == Some(NumberJson(c.protocolVersion))
  }

  lemma SameChallenge(s: Json, a: Challenge, b: Challenge)
    requires HoldsChallenge(s, a) && HoldsChallenge(s, b)
    ensures a == b.(requireAttestation := a.requireAttestation)
  {
  }

  lemma SortedChallengeHolds(c: Challenge)
    ensures HoldsChallenge(SortKeysDeep(ChallengeBody(c)), c)
  {
    var ms := ChallengeMembers(c);
    forall i: nat | i < 9 ensures At(SortKeysDeep(ChallengeBody(c)), ms[i].name) == Some(ms[i].value) {
      ChallengeAt(c, i);
    }
    assert ms[1].name == "nonce" && ms[2].name == "issuedAt" && ms[3].name == "expiresAt" && ms[4].name == "traceId";
    assert ms[5].name == "participantId" && ms[6].name == "conversationId" && ms[7].name == "publicKey";
    assert ms[8].name == "protocolVersion";
  }

  lemma SameSortedBodies(a: Challenge, x: string, b: Challenge, y: string)
    requires ChallengePayload(a) + x == ChallengePayload(b) + y && Ends(x) && Ends(y)
    ensures SortKeysDeep(ChallengeBody(a)) == SortKeysDeep(ChallengeBody(b)) && x == y
  {
    ChallengeBodyParsed(a);
    ChallengeBodyParsed(b);
    SortedDeepParsed(ChallengeBody(a));
    SortedDeepParsed(ChallengeBody(b));
    PrintUnique(SortKeysDeep(ChallengeBody(a)), SortKeysDeep(ChallengeBody(b)), x, y);
  }

  /** No two challenges of the session have the same nonce. */
  ghost predicate FreshNonces(log: seq<Event>) {
    forall i, j :: 0 <= i < j < |log| && log[i].Issued? && log[j].Issued? ==> log[i].challenge.nonce != log[j].challenge.nonce
  }

  lemma SameSignedTexts(a: Challenge, r: Response, b: Challenge, q: Response)
    requires ResponseText(ChallengePayload(a), r) == ResponseText(ChallengePayload(b), q)
    ensures a == b.(requireAttestation := a.requireAttestation) && TemplateText(r.timestamp) == TemplateText(q.timestamp)
  {
    var x, y := "|" + TemplateText(r.timestamp), "|" + TemplateText(q.timestamp);
    SplitResponse(ChallengePayload(a), r);
    SplitResponse(ChallengePayload(b), q);
    SameResponseTexts(a, x, b, y);
    assert TemplateText(r.timestamp) == x[1..] && TemplateText(q.timestamp) == y[1..];
  }

  lemma SplitResponse(payload: string, r: Response)
    ensures ResponseText(payload, r) == payload + ("|" + TemplateText(r.timestamp))
    ensures Ends("|" + TemplateText(r.timestamp))
  {
  }

  /**
   The text whose signature opened the ready state signs no response to any other challenge of the
   session: another issued challenge with that text, under whatever response, is equal up to its
   attestation flag, and with fresh nonces it is the very one that was evaluated.
   */
  lemma ReadyTextIsUnique(cfg: Config, log: seq<Event>, i: nat, j: nat, r: Response)
    requires LogOk(cfg, log) && i < |log| && log[i].Ready? && j < |log| && log[j].Issued?
    ensures i > 0 && log[i - 1].Evaluated? && log[i - 1].issue < i && log[log[i - 1].issue].Issued?
    ensures var e := log[i - 1];
            var c, text := log[e.issue].challenge, ResponseText(ChallengePayload(log[e.issue].challenge), e.response);
            cfg.guard.verify(e.key, text, e.response.signature) &&
            (ResponseText(ChallengePayload(log[j].challenge), r) == text ==>
              log[j].challenge == c.(requireAttestation := log[j].challenge.requireAttestation) &&
              TemplateText(r.timestamp) == TemplateText(e.response.timestamp) && (FreshNonces(log) ==> j == e.issue))
  {
    ReadyMeansJustVerified(cfg, log, i);
    var e := log[i - 1];
    var c, d := log[e.issue].challenge, log[j].challenge;
    if ResponseText(ChallengePayload(d), r) == ResponseText(ChallengePayload(c), e.response) {
      SameSignedTexts(d, r, c, e.response);
    }
  }
}
