/** When a session pairs: the register message, the challenge text and the response, field by field. */
module ChallengeLaws {
  import opened Json
  import opened JsText
  import opened KeyOrder
  import opened PrintLaws
  import opened SigningLaws
  import opened SigningPayload
  import opened Pairing

  // ----- the register message -----

  lemma {:induction false} MissingExactly(required: seq<string>, have: seq<string>)
    ensures Missing(required, have) == Compatible <==> forall n | n in required :: n in have
    ensures Missing(required, have) != Compatible ==>
              exists i :: 0 <= i < |required| && Missing(required, have) == CapabilityMissing(required[i]) &&
                          required[i] !in have && forall n | n in required[..i] :: n in have
  {
    if required != [] && required[0] in have {
      MissingExactly(required[1..], have);
      if Missing(required[1..], have) != Compatible {
        var i :| 0 <= i < |required[1..]| && Missing(required[1..], have) == CapabilityMissing(required[1..][i]) &&
                 required[1..][i] !in have && forall n | n in required[1..][..i] :: n in have;
        assert required[..i + 1] == [required[0]] + required[1..][..i];
        assert required[i + 1] == required[1..][i];
      }
    }
  }

  /**
   A client is compatible exactly when its version is a number no lower than the minimum, and than the
   server's unless older ones are allowed, and it has every required capability; otherwise the first of
   these that fails is the reason.
   */
  lemma CompatibilityExactly(cfg: Config, r: Register)
    ensures Compatibility(cfg, r) == Compatible <==>
            !r.protocolVersion.NotFinite? && RealOf(r.protocolVersion) >= cfg.minVersion &&
            (cfg.allowLegacy || RealOf(r.protocolVersion) >= cfg.serverVersion) &&
            forall n | n in cfg.required :: n in r.capabilities
    ensures Compatibility(cfg, r) == TooOld <==>
            r.protocolVersion.NotFinite? || RealOf(r.protocolVersion) < cfg.minVersion
    ensures Compatibility(cfg, r) == LegacyDisallowed <==>
            !r.protocolVersion.NotFinite? && !cfg.allowLegacy && cfg.minVersion <= RealOf(r.protocolVersion) < cfg.serverVersion
    ensures Compatibility(cfg, r).CapabilityMissing? ==>
              exists i :: 0 <= i < |cfg.required| && Compatibility(cfg, r) == CapabilityMissing(cfg.required[i]) &&
                          cfg.required[i] !in r.capabilities && forall n | n in cfg.required[..i] :: n in r.capabilities
  {
    MissingExactly(cfg.required, r.capabilities);
  }

  // ----- the challenge text -----

  const CHALLENGE_KEYS := ["challengeType", "conversationId", "expiresAt", "issuedAt", "nonce", "participantId",
                           "protocolVersion", "publicKey", "traceId"]

  /** An object with these nine members, in this order, and no other. */
  ghost predicate SaysChallenge(o: Json, c: Challenge) {
    o.Obj? && o.keys == CHALLENGE_KEYS && Parsed(o) &&
    At(o, "challengeType") == Some(Str("register")) && At(o, "nonce") == Some(Str(c.nonce)) &&
    At(o, "issuedAt") == Some(Num(Int(c.issuedAt))) && At(o, "expiresAt") == Some(Num(Int(c.expiresAt))) &&
    At(o, "traceId") == Some(Str(c.traceId)) && At(o, "participantId") == Some(Str(c.participantId)) &&
    At(o, "conversationId") == Some(Str(c.conversationId)) && At(o, "publicKey") == Some(Str(c.publicKey)) &&
    At(o, "protocolVersion") == Some(if c.protocolVersion.Whole? then Num(Int(c.protocolVersion.whole))
                                     else if c.protocolVersion.Fraction? then Num(Dec(c.protocolVersion.text)) else Null)
  }

  lemma {:induction false} ObjectKeys(members: seq<Member>)
    requires NamesDiffer(members)
    ensures |ObjectOf(members).keys| == |members| && forall i | 0 <= i < |members| :: ObjectOf(members).keys[i] == members[i].name
    ensures forall k :: k in ObjectOf(members).fields <==> k in ObjectOf(members).keys
  {
    if members != [] {
      var n := |members| - 1;
      var before := ObjectOf(members[..n]);
      ObjectKeys(members[..n]);
      assert members[n].name !in before.keys;
      assert ObjectOf(members).keys == before.keys + [members[n].name];
    }
  }

  lemma Differs(a: string, b: string)
    requires a != "" && b != "" && CodeUnitRank(a[0]) < CodeUnitRank(b[0])
    ensures TextLess(a, b)
  {
  }

  lemma SameFirst(c: char, a: string, b: string)
    requires TextLess(a, b)
    ensures TextLess([c] + a, [c] + b)
  {
    assert ([c] + a)[1..] == a && ([c] + b)[1..] == b;
  }

  lemma Neighbours(keys: seq<string>)
    requires forall i | 0 <= i < |keys| - 1 :: TextLess(keys[i], keys[i + 1])
    ensures Ascending(keys)
  {
    if keys != [] {
      Neighbours(keys[1..]);
      forall j | 0 < j < |keys| ensures TextLess(keys[0], keys[j]) {
        if j > 1 { LessTransitive(keys[0], keys[1], keys[j]); }
      }
      forall i, j | 0 <= i < j < |keys| ensures TextLess(keys[i], keys[j]) {
        if i > 0 { assert keys[i] == keys[1..][i - 1] && keys[j] == keys[1..][j - 1]; }
      }
    }
  }

  lemma ChallengeKeysAscend()
    ensures Ascending(CHALLENGE_KEYS)
  {
    var ks := CHALLENGE_KEYS;
    Differs("hallengeType", "onversationId");
    SameFirst('c', "hallengeType", "onversationId");
    Differs("articipantId", "rotocolVersion");
    SameFirst('p', "articipantId", "rotocolVersion");
    Differs("rotocolVersion", "ublicKey");
    SameFirst('p', "rotocolVersion", "ublicKey");
    assert ['c'] + "hallengeType" == ks[0] && ['c'] + "onversationId" == ks[1] && ['p'] + "articipantId" == ks[5];
    assert ['p'] + "rotocolVersion" == ks[6] && ['p'] + "ublicKey" == ks[7];
    forall i | 0 <= i < |ks| - 1 ensures TextLess(ks[i], ks[i + 1]) {
      if i != 0 && i != 5 && i != 6 { Differs(ks[i], ks[i + 1]); }
    }
    Neighbours(ks);
  }

  lemma ChallengeKeysPlain()
    ensures forall k | k in CHALLENGE_KEYS :: !IsIndex(k)
  {
    forall k | k in CHALLENGE_KEYS ensures !IsIndex(k) {
      assert k[0] in k && !IsDigit(k[0]);
    }
  }

  lemma ChallengeKeysSorted(c: Challenge)
    ensures SortKeysDeep(ChallengeBody(c)).keys == CHALLENGE_KEYS
  {
    ChallengeNamesDiffer(c);
    ObjectKeys(ChallengeMembers(c));
    var keys, ms := ChallengeBody(c).keys, ChallengeMembers(c);
    assert keys == [ms[0].name, ms[1].name, ms[2].name, ms[3].name, ms[4].name, ms[5].name, ms[6].name, ms[7].name, ms[8].name];
    ChallengeKeysAscend();
    ChallengeKeysPlain();
    ChallengeBodyParsed(c);
    forall k ensures k in keys <==> k in CHALLENGE_KEYS {
    }
    SortsTo(keys, CHALLENGE_KEYS);
  }

  lemma Says(o: Json, c: Challenge)
    requires o.Obj? && Parsed(o) && o.keys == CHALLENGE_KEYS && HoldsChallenge(o, c) && At(o, "challengeType") == Some(Str("register"))
    ensures SaysChallenge(o, c)
  {
  }

  /** The text signed for a challenge is a JSON object with the challenge's fields, and no other. */
  lemma ChallengeReadsBack(c: Challenge) returns (o: Json)
    ensures ReadValue(ChallengePayload(c)) == Got(o, "") && SaysChallenge(o, c)
  {
    o := SortKeysDeep(ChallengeBody(c));
    ChallengeBodyParsed(c);
    SortedDeepParsed(ChallengeBody(c));
    ParseBack(o);
    ChallengeKeysSorted(c);
    SortedChallengeHolds(c);
    ChallengeAt(c, 0);
    Says(o, c);
  }

  // ----- the response -----

  /** What the check behind each reason asks of a response to challenge `c` with signing text `payload`, at time `nowMs`. */
  ghost predicate Passes(reason: Reason, cfg: Config, payload: string, c: Challenge, r: Response, key: string, nowMs: real) {
    match reason
    case NonceMismatch => c.nonce == r.nonce != ""
    case TimestampInvalid => !r.timestamp.NotFinite? && RealOf(r.timestamp) > 0.0
    case TimestampFromFuture => RealOf(r.timestamp) <= nowMs + 60000.0
    case ChallengeExpired => c.expiresAt > 0 && nowMs <= c.expiresAt as real
    case KeyMissing => key != ""
    case SignatureMissing => r.signature != ""
    case SignatureInvalid => cfg.guard.verify(key, payload + "|" + TemplateText(r.timestamp), r.signature)
    case AttestationMissing => c.requireAttestation ==> r.attestation.Some?
    case AttestationFieldsMissing =>
      c.requireAttestation && r.attestation.Some? ==>
        var a := r.attestation.value; a.provider != "" && a.keyId != "" && a.assertion != "" && a.clientDataHash != ""
    case HashMismatch =>
      c.requireAttestation && r.attestation.Some? ==> r.attestation.value.clientDataHash == cfg.hash(payload)
    case VerdictNotOk =>
      c.requireAttestation && r.attestation.Some? ==> cfg.allowUnverifiedAttestation || r.attestation.value.verdict == "ok"
  }

  /** The order of the checks. */
  function Place(reason: Reason): nat {
    match reason
    case NonceMismatch => 0
    case TimestampInvalid => 1
    case TimestampFromFuture => 2
    case ChallengeExpired => 3
    case KeyMissing => 4
    case SignatureMissing => 5
    case SignatureInvalid => 6
    case AttestationMissing => 7
    case AttestationFieldsMissing => 8
    case HashMismatch => 9
    case VerdictNotOk => 10
  }

  ghost predicate PassesAll(cfg: Config, payload: string, c: Challenge, r: Response, key: string, nowMs: real) {
    forall reason :: Passes(reason, cfg, payload, c, r, key, nowMs)
  }

  ghost predicate PassesBefore(place: nat, cfg: Config, payload: string, c: Challenge, r: Response, key: string, nowMs: real) {
    forall reason | Place(reason) < place :: Passes(reason, cfg, payload, c, r, key, nowMs)
  }

  ghost predicate Later(got: Option<Reason>, reason: Reason) {
    got.Some? ==> Place(got.value) > Place(reason)
  }

  lemma EarlyCheck(reason: Reason, cfg: Config, payload: string, c: Challenge, r: Response, key: string, nowMs: real)
    requires Place(reason) < 7
    ensures var got := RefusalOver(cfg, payload, c, r, key, nowMs);
            (got == Some(reason) ==> !Passes(reason, cfg, payload, c, r, key, nowMs)) &&
            (Later(got, reason) ==> Passes(reason, cfg, payload, c, r, key, nowMs))
  {
    LateReasons(cfg, payload, r);
  }

  lemma LateReasons(cfg: Config, payload: string, r: Response)
    ensures AttestationRefusal(cfg, payload, r).Some? ==> Place(AttestationRefusal(cfg, payload, r).value) >= 7
  {
  }

  lemma LateCheck(reason: Reason, cfg: Config, payload: string, c: Challenge, r: Response, key: string, nowMs: real)
    requires Place(reason) >= 7 && c.requireAttestation
    ensures var got := AttestationRefusal(cfg, payload, r);
            (got == Some(reason) ==> !Passes(reason, cfg, payload, c, r, key, nowMs)) &&
            (Later(got, reason) ==> Passes(reason, cfg, payload, c, r, key, nowMs))
  {
  }

  lemma LateIsAttestation(cfg: Config, payload: string, c: Challenge, r: Response, key: string, nowMs: real)
    ensures var got := RefusalOver(cfg, payload, c, r, key, nowMs);
            got.None? || Place(got.value) >= 7 ==>
              got == if c.requireAttestation then AttestationRefusal(cfg, payload, r) else None
  {
  }

  lemma OneCheck(reason: Reason, cfg: Config, payload: string, c: Challenge, r: Response, key: string, nowMs: real)
    ensures var got := RefusalOver(cfg, payload, c, r, key, nowMs);
            (got == Some(reason) ==> !Passes(reason, cfg, payload, c, r, key, nowMs)) &&
            (Later(got, reason) ==> Passes(reason, cfg, payload, c, r, key, nowMs))
  {
    if Place(reason) < 7 {
      EarlyCheck(reason, cfg, payload, c, r, key, nowMs);
    } else {
      LateIsAttestation(cfg, payload, c, r, key, nowMs);
      if c.requireAttestation { LateCheck(reason, cfg, payload, c, r, key, nowMs); }
    }
  }

  /** A response is refused for the first check that fails, and accepted when none does. */
  lemma RefusalExactly(cfg: Config, payload: string, c: Challenge, r: Response, key: string, nowMs: real)
    ensures match RefusalOver(cfg, payload, c, r, key, nowMs)
            case None => PassesAll(cfg, payload, c, r, key, nowMs)
            case Some(reason) =>
              !Passes(reason, cfg, payload, c, r, key, nowMs) && PassesBefore(Place(reason), cfg, payload, c, r, key, nowMs)
  {
    var got := RefusalOver(cfg, payload, c, r, key, nowMs);
    forall reason | Later(got, reason) ensures Passes(reason, cfg, payload, c, r, key, nowMs) {
      OneCheck(reason, cfg, payload, c, r, key, nowMs);
    }
    if got.Some? { OneCheck(got.value, cfg, payload, c, r, key, nowMs); }
  }

  lemma EvaluatedLatest(cfg: Config, log: seq<Event>, i: nat)
    requires LogOk(cfg, log) && i < |log| && log[i].Evaluated?
    ensures log[i].issue < i && log[log[i].issue].Issued? && forall j | log[i].issue < j < i :: !log[j].Issued?
    ensures var e := log[i]; e.ok == Refusal(cfg, log[e.issue].challenge, e.response, e.key, e.nowMs).None?
  {
    assert OkAt(cfg, log, i);
    assert log[..i][log[i].issue] == log[log[i].issue];
    forall j | log[i].issue < j < i ensures !log[j].Issued? {
      assert log[..i][j] == log[j];
    }
  }

  /** In every session, a response makes the session ready exactly when it passes all checks against the latest challenge. */
  lemma EvaluatedExactly(cfg: Config, log: seq<Event>, i: nat)
    requires LogOk(cfg, log) && i < |log| && log[i].Evaluated?
    ensures log[i].issue < i && log[log[i].issue].Issued? && forall j | log[i].issue < j < i :: !log[j].Issued?
    ensures var e, c := log[i], log[log[i].issue].challenge;
            e.ok <==> PassesAll(cfg, ChallengePayload(c), c, e.response, e.key, e.nowMs)
  {
    EvaluatedLatest(cfg, log, i);
    var e, c := log[i], log[log[i].issue].challenge;
    RefusalIsOver(cfg, c, e.response, e.key, e.nowMs);
    AcceptedOver(cfg, ChallengePayload(c), c, e.response, e.key, e.nowMs);
  }

  lemma RefusalIsOver(cfg: Config, c: Challenge, r: Response, key: string, nowMs: real)
    ensures Refusal(cfg, c, r, key, nowMs) == RefusalOver(cfg, ChallengePayload(c), c, r, key, nowMs)
  {
  }

  lemma AcceptedOver(cfg: Config, payload: string, c: Challenge, r: Response, key: string, nowMs: real)
    ensures RefusalOver(cfg, payload, c, r, key, nowMs).None? <==> PassesAll(cfg, payload, c, r, key, nowMs)
  {
    RefusalExactly(cfg, payload, c, r, key, nowMs);
  }
}
