/**
 The client keeps its pending requests when a socket closes, so the gateway can answer
 a connect of an older socket on a newer one. What that does to the handshake bound
 and to being connected.
 */
module GatewayStale {
  import opened Json
  import opened GatewayMachine
  import opened GatewayLaws
  import opened GatewayRuns

  // ----- without blind connects the bound does not need answers on their own socket -----

  predicate NoBlind(pending: map<string, Pending>) {
    forall id | id in pending :: pending[id].ConnectReply? ==> !pending[id].omitDevice
  }

  /** One frame, with a device block built from a nonce that came in on this socket. */
  ghost predicate OneFrame(s: nat, frames: seq<ConnectFrame>, nonces: set<Received>) {
    |frames| == 1 && frames[0].device.Some? && Received(s, frames[0].device.value) in nonces
  }

  ghost predicate Single(st: State) {
    NoBlind(st.pending) && (forall s: nat :: s in st.log.connects ==> OneFrame(s, st.log.connects[s], st.log.nonces)) &&
    (SocketIs(st.link, Open) && !st.shake.connectSent ==> st.link.gatewayWs.value !in st.log.connects)
  }

  lemma SendKeepsSingle(st: State, s: nat, nonce: string, id: string, sent: bool)
    requires Single(st) && !st.shake.connectSent && nonce != ""
    requires SocketIs(st.link, Open) ==> st.link.gatewayWs == Some(s) && Received(s, nonce) in st.log.nonces
    ensures Single(SendConnect(st, false, nonce, id, sent))
  {
  }

  lemma DrainKeepsSingle(c: Config, st: State, id: string, sent: bool)
    requires Single(st)
    ensures Single(Drain(c, st, id, sent))
  {
  }

  lemma AnswerKeepsSingle(c: Config, st: State, e: Event)
    requires Single(st) && e.ConnectAnswered? && Possible(st, e)
    ensures Single(Step(c, st, e))
  {
    var taken := st.(pending := st.pending - {e.answered});
    if IsOk(e.msg) && Authorized(e.msg) {
      DrainKeepsSingle(c, Greeted(taken, e.s, e.msg), e.id, e.sent);
    }
  }

  lemma ChallengeKeepsSingle(c: Config, st: State, e: Event)
    requires Inv(c, st) && Single(st) && e.ChallengeArrives? && Possible(st, e) && !c.insecureSkip
    ensures Single(Step(c, st, e))
  {
    if e.nonce != "" && !st.shake.connectSent {
      SendKeepsSingle(Noted(st, e.s, e.nonce), e.s, e.nonce, e.id, e.sent);
    }
  }

  lemma TurnKeepsSingle(c: Config, st: State, e: Event)
    requires Single(st) && (e.Enqueue? || e.TurnContinues?) && Possible(st, e)
    ensures Single(Step(c, st, e))
  {
    if e.Enqueue? {
      DrainKeepsSingle(c, Queued(st, e.item), e.id, e.sent);
    } else {
      DrainKeepsSingle(c, st.(turns := st.turns.(inFlight := false, turn := NoTurn)), e.id, e.sent);
    }
  }

  lemma StepKeepsSingle(c: Config, st: State, e: Event)
    requires Inv(c, st) && Single(st) && Possible(st, e) && !c.insecureSkip && !c.legacyBlind
    ensures Single(Step(c, st, e))
  {
    if e.ConnectAnswered? {
      AnswerKeepsSingle(c, st, e);
    } else if e.Enqueue? || e.TurnContinues? {
      TurnKeepsSingle(c, st, e);
    } else if e.ChallengeArrives? {
      ChallengeKeepsSingle(c, st, e);
    }
  }

  lemma {:induction false} RunKeepsSingle(c: Config, events: seq<Event>, st: State)
    requires Reaches(c, events, st) && !c.insecureSkip && !c.legacyBlind
    ensures Single(st)
    decreases |events|
  {
    if events != [] {
      var n := |events| - 1;
      var before :| Reaches(c, events[..n], before) && Possible(before, events[n]) && st == Step(c, before, events[n]);
      EveryRunKeeps(c, events[..n], before);
      RunKeepsSingle(c, events[..n], before);
      StepKeepsSingle(c, before, events[n]);
    }
  }

  /**
   Without blind connects a socket carries at most one connect frame, built with a nonce
   that came in on it, whatever older requests are answered on it.
   */
  lemma OneFrameEach(c: Config, events: seq<Event>, st: State, s: nat)
    requires Reaches(c, events, st) && !c.insecureSkip && !c.legacyBlind
    ensures var frames := FramesOn(st.log.connects, s);
            |frames| <= 1 && (|frames| == 1 ==> frames[0].device.Some? && Delivered(events, s, frames[0].device.value))
  {
    RunKeepsSingle(c, events, st);
    HistoryIsReal(c, events, st);
  }

  // ----- with blind connects it does -----

  /** The blind connect of socket `i` is out and unanswered. */
  predicate Unanswered(st: State, i: nat) {
    Id(i) in st.pending && st.pending[Id(i)] == ConnectReply(true, i) && SentOn(st.log.connects, i, Id(i))
  }

  /** Socket `n` is held and open, and it is the newest. */
  ghost predicate Newest(link: Link, n: nat) {
    link.gatewayWs == Some(n) && n in link.sockets && link.sockets[n] == Open &&
    !link.destroyed && !link.connecting && forall s | s in link.sockets :: s <= n
  }

  /** Sockets 0 to `n` have opened, `n` is held, and of their blind connects the first `k` have been answered on it. */
  ghost predicate Reopened(st: State, n: nat, k: nat) {
    Newest(st.link, n) &&
    (forall i: nat | k <= i <= n :: Unanswered(st, i)) &&
    (forall id | id in st.usedIds :: |id| <= n + k) && |FramesOn(st.log.connects, n)| == k + 1
  }

  lemma FirstIsNewest(c: Config) returns (events: seq<Event>, st: State)
    ensures Reaches(c, events, st) && Newest(st.link, 0) && st.usedIds <= {Id(0)}
    ensures c.legacyBlind ==> Reopened(st, 0, 0)
    ensures c.insecureSkip || c.legacyBlind ==> Unanswered(st, 0)
    ensures !c.insecureSkip && !c.legacyBlind ==> !st.shake.connectSent && st.log.connects == map[]
  {
    var opening;
    events, opening := FirstOpens(c);
    st := OnOpen(c, opening, 0, Id(0), true);
    OwnRunKeeps(c, events, st);
  }

  lemma ExtendAny(c: Config, events: seq<Event>, st: State, e: Event)
    requires Reaches(c, events, st) && Possible(st, e)
    ensures Reaches(c, events + [e], Step(c, st, e))
  {
    var all := events + [e];
    assert all[..|all| - 1] == events;
  }

  /** The socket closes, the timer fires, and the next socket is about to open. */
  function Reopening(st: State, n: nat): State {
    OnWaitEnds(OnReconnectTimer(OnClose(st, n)), true, true, n + 1)
  }

  /** What closing and reconnecting leave as it was. */
  lemma ReopeningKeeps(st: State, n: nat)
    requires Newest(st.link, n)
    ensures var r := Reopening(st, n);
            r.pending == st.pending && r.usedIds == st.usedIds && r.log == st.log && !r.shake.gatewayConnected &&
            r.link.gatewayWs == Some(n + 1) && !r.link.destroyed &&
            r.link.sockets == st.link.sockets[n := Closed][n + 1 := Opening]
  {
  }

  lemma CloseAndWait(c: Config, events: seq<Event>, st: State, n: nat) returns (more: seq<Event>)
    requires Reaches(c, events, st) && Newest(st.link, n)
    ensures Reaches(c, more, Reopening(st, n))
  {
    ExtendAny(c, events, st, SocketCloses(n));
    var closed := OnClose(st, n);
    more := events + [SocketCloses(n)];
    ExtendAny(c, more, closed, ReconnectTimerFires);
    more := more + [ReconnectTimerFires];
    ExtendAny(c, more, OnReconnectTimer(closed), WaitEnds(true, true, n + 1));
    more := more + [WaitEnds(true, true, n + 1)];
  }

  lemma OpensNext(c: Config, st: State, n: nat)
    requires c.legacyBlind && Inv(c, st) && Reopened(st, n, 0)
    ensures Possible(Reopening(st, n), SocketOpens(n + 1, Id(n + 1), true))
    ensures Reopened(OnOpen(c, Reopening(st, n), n + 1, Id(n + 1), true), n + 1, 0)
  {
    ReopeningKeeps(st, n);
    var r := OnOpen(c, Reopening(st, n), n + 1, Id(n + 1), true);
    assert n + 1 !in st.log.connects;
    forall i: nat | 0 <= i <= n + 1 ensures Unanswered(r, i) {
      assert i <= n ==> Unanswered(st, i);
    }
  }

  /** The gateway is lost before it answers, and the next socket sends its own blind connect. */
  lemma NextOpens(c: Config, events: seq<Event>, st: State, n: nat) returns (more: seq<Event>, r: State)
    requires c.legacyBlind && Reaches(c, events, st) && Reopened(st, n, 0)
    ensures Reaches(c, more, r) && Reopened(r, n + 1, 0)
  {
    more := CloseAndWait(c, events, st, n);
    EveryRunKeeps(c, events, st);
    OpensNext(c, st, n);
    ExtendAny(c, more, Reopening(st, n), SocketOpens(n + 1, Id(n + 1), true));
    more := more + [SocketOpens(n + 1, Id(n + 1), true)];
    r := OnOpen(c, Reopening(st, n), n + 1, Id(n + 1), true);
  }

  lemma RefusesOlder(c: Config, st: State, n: nat, k: nat)
    requires !c.insecureSkip && Reopened(st, n, k) && k <= n
    ensures Possible(st, ConnectAnswered(n, Id(k), REFUSAL, Id(n + k + 1), true))
    ensures Reopened(OnConnectAnswer(c, st, n, Id(k), REFUSAL, Id(n + k + 1), true), n, k + 1)
  {
    RefusalChallenges();
    assert Unanswered(st, k) && Id(n + k + 1) !in st.usedIds;
    var r := OnConnectAnswer(c, st, n, Id(k), REFUSAL, Id(n + k + 1), true);
    forall i: nat | k + 1 <= i <= n ensures Unanswered(r, i) {
      assert Unanswered(st, i);
    }
  }

  /** The next of the older connects is refused with a challenge, and one more frame goes out on the newest socket. */
  lemma OlderRefused(c: Config, events: seq<Event>, st: State, n: nat, k: nat) returns (more: seq<Event>, r: State)
    requires !c.insecureSkip && Reaches(c, events, st) && Reopened(st, n, k) && k <= n
    ensures Reaches(c, more, r) && Reopened(r, n, k + 1)
  {
    var e := ConnectAnswered(n, Id(k), REFUSAL, Id(n + k + 1), true);
    RefusesOlder(c, st, n, k);
    ExtendAny(c, events, st, e);
    more, r := events + [e], Step(c, st, e);
  }

  lemma {:induction false} AllOpen(c: Config, n: nat) returns (events: seq<Event>, st: State)
    requires c.legacyBlind
    ensures Reaches(c, events, st) && Reopened(st, n, 0)
  {
    if n == 0 {
      events, st := FirstIsNewest(c);
    } else {
      var earlier, before := AllOpen(c, n - 1);
      events, st := NextOpens(c, earlier, before, n - 1);
    }
  }

  /** With `n` unanswered blind connects behind it, a socket can be made to carry `n + 2` connect frames. */
  lemma {:induction false} StaleFrames(c: Config, n: nat, k: nat) returns (events: seq<Event>, st: State)
    requires c.legacyBlind && !c.insecureSkip && k <= n + 1
    ensures Reaches(c, events, st) && Reopened(st, n, k) && |FramesOn(st.log.connects, n)| == k + 1
    decreases k
  {
    if k == 0 {
      events, st := AllOpen(c, n);
    } else {
      var earlier, before := StaleFrames(c, n, k - 1);
      events, st := OlderRefused(c, earlier, before, n, k - 1);
    }
  }

  /** Wherever answers come in, the two-frame bound holds for every run exactly when no connect is sent blind. */
  lemma AnyHandshakeBoundExactly(c: Config)
    ensures !c.insecureSkip && !c.legacyBlind <==>
              forall events, st, s: nat :: Reaches(c, events, st) ==> |FramesOn(st.log.connects, s)| <= 2
  {
    if c.insecureSkip {
      var events, st := BlindForever(c, 2);
      OwnRunKeeps(c, events, st);
      assert Reaches(c, events, st) && |FramesOn(st.log.connects, 0)| == 3;
    } else if c.legacyBlind {
      var events, st := StaleFrames(c, 1, 2);
      assert Reaches(c, events, st) && |FramesOn(st.log.connects, 1)| == 3;
    } else {
      forall events, st, s: nat | Reaches(c, events, st) ensures |FramesOn(st.log.connects, s)| <= 2 {
        OneFrameEach(c, events, st, s);
      }
    }
  }

  // ----- connected by an answer to an older socket's request -----

  /** Connected, and no connect frame ever went out on the socket held. */
  predicate ConnectedUnasked(st: State) {
    st.shake.gatewayConnected && st.link.gatewayWs.Some? && st.link.gatewayWs.value !in st.log.connects
  }

  /** The event leaves a client that is not connected so, and a connected one with the socket it holds. */
  ghost predicate SettlesNoConnection(st: State, r: State) {
    (r.shake.gatewayConnected ==> st.shake.gatewayConnected && r.link.gatewayWs == st.link.gatewayWs) &&
    forall s | s in st.log.connects :: s in r.log.connects
  }

  lemma DrainConnection(c: Config, st: State, id: string, sent: bool)
    ensures SameConnection(Drain(c, st, id, sent), st)
  {
  }

  lemma TurnConnection(c: Config, st: State, e: Event)
    requires (e.Enqueue? || e.TurnContinues?) && Possible(st, e)
    ensures SettlesNoConnection(st, Step(c, st, e))
  {
    if e.Enqueue? {
      DrainConnection(c, Queued(st, e.item), e.id, e.sent);
    } else {
      DrainConnection(c, st.(turns := st.turns.(inFlight := false, turn := NoTurn)), e.id, e.sent);
    }
  }

  lemma HandshakeConnection(c: Config, st: State, e: Event)
    requires (e.SocketOpens? || e.ChallengeTimerFires? || e.ChallengeArrives?) && Possible(st, e)
    ensures SettlesNoConnection(st, Step(c, st, e))
  {
  }

  lemma OtherConnection(c: Config, st: State, e: Event)
    requires Inv(c, st) && !e.ConnectAnswered? && Possible(st, e)
    ensures SettlesNoConnection(st, Step(c, st, e))
  {
    if e.Enqueue? || e.TurnContinues? {
      TurnConnection(c, st, e);
    } else if e.SocketOpens? || e.ChallengeTimerFires? || e.ChallengeArrives? {
      HandshakeConnection(c, st, e);
    }
  }

  lemma HelloConnection(c: Config, st: State, e: Event)
    requires e.ConnectAnswered? && Possible(st, e) && IsOk(e.msg) && Authorized(e.msg)
    ensures var r := Step(c, st, e);
            r.shake.gatewayConnected && r.link == st.link && r.log.connects == st.log.connects
  {
    var taken := st.(pending := st.pending - {e.answered});
    DrainConnection(c, Greeted(taken, e.s, e.msg), e.id, e.sent);
  }

  lemma RefusedConnection(c: Config, st: State, e: Event)
    requires e.ConnectAnswered? && Possible(st, e) && !(IsOk(e.msg) && Authorized(e.msg))
    ensures SettlesNoConnection(st, Step(c, st, e))
  {
  }

  /** The client becomes connected unasked exactly by an ok answer, on a socket without frames, to an older socket's request. */
  lemma ConnectedUnaskedExactly(c: Config, events: seq<Event>, st: State, e: Event)
    requires Reaches(c, events, st) && Possible(st, e) && !ConnectedUnasked(st)
    ensures ConnectedUnasked(Step(c, st, e)) <==>
              e.ConnectAnswered? && IsOk(e.msg) && Authorized(e.msg) && e.s !in st.log.connects
    ensures ConnectedUnasked(Step(c, st, e)) ==> !OnItsSocket(st, e)
  {
    EveryRunKeeps(c, events, st);
    UnaskedExactly(c, st, e);
  }

  lemma UnaskedExactly(c: Config, st: State, e: Event)
    requires Inv(c, st) && Possible(st, e) && !ConnectedUnasked(st)
    ensures ConnectedUnasked(Step(c, st, e)) <==>
              e.ConnectAnswered? && IsOk(e.msg) && Authorized(e.msg) && e.s !in st.log.connects
    ensures ConnectedUnasked(Step(c, st, e)) ==> !OnItsSocket(st, e)
  {
    if !e.ConnectAnswered? {
      OtherConnection(c, st, e);
    } else if IsOk(e.msg) && Authorized(e.msg) {
      HelloConnection(c, st, e);
    } else {
      RefusedConnection(c, st, e);
    }
  }

  const HELLO := Obj(["ok"], map["ok" := Bool(true)])

  lemma HelloIsGranted()
    ensures IsOk(HELLO) && Authorized(HELLO)
  {
  }

  /** A connect has gone out, on the newest socket, under id `id`; no longer id is in use. */
  ghost predicate Asked(st: State, id: string) {
    Newest(st.link, 0) && id in st.pending && st.pending[id].ConnectReply? && st.pending[id].socket == 0 &&
    SentOn(st.log.connects, 0, id) && forall i | i in st.usedIds :: |i| <= 1
  }

  lemma FirstAsks(c: Config) returns (events: seq<Event>, st: State, id: string)
    ensures Reaches(c, events, st) && Asked(st, id)
  {
    events, st := FirstIsNewest(c);
    id := Id(0);
    if !c.insecureSkip && !c.legacyBlind {
      id := Id(1);
      ExtendAny(c, events, st, ChallengeArrives(0, "n", id, true));
      events := events + [ChallengeArrives(0, "n", id, true)];
      st := OnChallenge(c, st, 0, "n", id, true);
    }
  }

  /** The connect is answered on the next socket, whose own connect did not go out. */
  lemma AnsweredOnNext(c: Config, events: seq<Event>, st: State, id: string) returns (more: seq<Event>, open: State)
    requires Reaches(c, events, st) && Asked(st, id)
    ensures Reaches(c, more, open) && Newest(open.link, 1) && 1 !in open.log.connects && !ConnectedUnasked(open)
    ensures Possible(open, ConnectAnswered(1, id, HELLO, Id(3), true))
  {
    more := CloseAndWait(c, events, st, 0);
    var opening := Reopening(st, 0);
    ReopeningKeeps(st, 0);
    ExtendAny(c, more, opening, SocketOpens(1, Id(2), false));
    more := more + [SocketOpens(1, Id(2), false)];
    open := OnOpen(c, opening, 1, Id(2), false);
    EveryRunKeeps(c, events, st);
    NothingSent(c, st, id);
  }

  lemma NothingSent(c: Config, st: State, id: string)
    requires Asked(st, id) && Inv(c, st)
    ensures var open := OnOpen(c, Reopening(st, 0), 1, Id(2), false);
            Newest(open.link, 1) && 1 !in open.log.connects && !ConnectedUnasked(open) &&
            Possible(open, ConnectAnswered(1, id, HELLO, Id(3), true))
  {
    ReopeningKeeps(st, 0);
    assert 1 !in st.log.connects;
  }

  /** It can happen under every setting: a connect that was lost with its socket is answered on the next one. */
  lemma ConnectedUnaskedSomewhere(c: Config) returns (events: seq<Event>, st: State)
    ensures Reaches(c, events, st) && ConnectedUnasked(st)
  {
    var id;
    events, st, id := FirstAsks(c);
    events, st := AnsweredOnNext(c, events, st, id);
    var e := ConnectAnswered(1, id, HELLO, Id(3), true);
    HelloIsGranted();
    ConnectedUnaskedExactly(c, events, st, e);
    ExtendAny(c, events, st, e);
    events, st := events + [e], Step(c, st, e);
  }
}
