/** What every reachable state of the gateway client keeps. */
module GatewayLaws {
  import opened Json
  import opened GatewayMachine

  // ----- the invariant -----

  /** At most one socket has not closed: the one held, or one that is closing after `destroy`. */
  ghost predicate OneSocket(link: Link) {
    (link.gatewayWs.Some? ==> !link.destroyed && Live(link.sockets, link.gatewayWs.value)) &&
    (forall s: nat :: s in link.sockets && link.sockets[s] != Closed ==>
      !link.waiting && if link.destroyed then link.sockets[s] == Closing else link.gatewayWs == Some(s)) &&
    (forall s: nat, t: nat :: s in link.sockets && t in link.sockets && link.sockets[s] != Closed && link.sockets[t] != Closed ==>
      s == t)
  }

  predicate Settled(link: Link) {
    (link.waiting ==> link.connecting) &&
    (link.connecting && !link.waiting && !link.destroyed ==> link.gatewayWs.Some?) &&
    (link.destroyed ==> !link.reconnectTimer)
  }

  /** A started client is connecting, holds a socket, or has the reconnect timer armed. */
  predicate NotStranded(link: Link, started: bool) {
    Settled(link) && (started && !link.destroyed ==> link.connecting || link.gatewayWs.Some? || link.reconnectTimer)
  }

  /** Only sockets that have opened carry frames and hellos. */
  ghost predicate OnOpened(log: Log, sockets: Sockets) {
    (forall s: nat :: s in log.connects ==> s in sockets && sockets[s] != Opening) &&
    (forall s: nat :: s in log.hellos ==> s in sockets && sockets[s] != Opening)
  }

  /** A hello is an ok, authorized reply. */
  ghost predicate HellosOk(log: Log) {
    forall s: nat :: s in log.hellos ==> IsOk(log.hellos[s]) && Authorized(log.hellos[s])
  }

  /** Only a socket that carried a connect frame has a hello. */
  ghost predicate HellosSent(log: Log) {
    forall s: nat :: s in log.hellos ==> s in log.connects
  }

  predicate ConnectedOk(connected: bool, link: Link, log: Log) {
    connected ==> link.gatewayWs.Some? && link.gatewayWs.value in log.hellos
  }

  /** Every id in use is recorded as used. */
  ghost predicate PendingOk(pending: map<string, Pending>, usedIds: set<string>, connects: Frames) {
    (forall id :: id in pending ==> id in usedIds) &&
    forall s: nat, f :: s in connects && f in connects[s] ==> f.id in usedIds
  }

  /** At most two connect frames, a device block only in the last, built with a nonce received on that socket. */
  ghost predicate Bounded(s: nat, frames: seq<ConnectFrame>, nonces: set<Received>) {
    |frames| <= 2 && (|frames| == 2 ==> frames[0].device.None?) &&
    forall f | f in frames && f.device.Some? :: Received(s, f.device.value) in nonces
  }

  ghost predicate AllBounded(connects: Frames, nonces: set<Received>) {
    forall s: nat :: s in connects ==> Bounded(s, connects[s], nonces)
  }

  /** The reply to a blind connect that went out on this socket has not come yet. */
  predicate AwaitsBlind(pending: map<string, Pending>, connects: Frames, id: string, s: nat) {
    id in pending && pending[id] == ConnectReply(true, s) && SentOn(connects, s, id)
  }

  /** While the reply to a blind connect is out, that frame is the only one on its socket. */
  ghost predicate BlindAlone(pending: map<string, Pending>, connects: Frames) {
    forall id, s: nat :: AwaitsBlind(pending, connects, id, s) ==> FramesOn(connects, s) == [ConnectFrame(id, None)]
  }

  ghost predicate BoundsOk(log: Log, pending: map<string, Pending>) {
    AllBounded(log.connects, log.nonces) && BlindAlone(pending, log.connects)
  }

  /** At most one frame, a blind one whose reply has come. */
  ghost predicate RoomFor(pending: map<string, Pending>, connects: Frames, s: nat) {
    |FramesOn(connects, s)| <= 1 && (forall f | f in FramesOn(connects, s) :: f.device.None?) &&
    forall id :: !AwaitsBlind(pending, connects, id, s)
  }

  /** Without `connectSent`, an open socket has room for a frame with a nonce; the timer waits for the first one. */
  ghost predicate ShakeOk(c: Config, st: State) {
    (SocketIs(st.link, Open) && !st.shake.connectSent ==> RoomFor(st.pending, st.log.connects, st.link.gatewayWs.value)) &&
    (st.shake.challengeTimer ==> !c.legacyBlind)
  }

  ghost predicate TurnOk(turns: Turns, destroyed: bool, pending: map<string, Pending>) {
    (turns.inFlight <==> turns.turn != NoTurn) &&
    (!destroyed && turns.turn.AwaitReply? ==> turns.turn.id in pending && pending[turns.turn.id].AgentReply?) &&
    forall id :: id in pending && pending[id].AgentReply? ==> turns.turn == AwaitReply(id)
  }

  ghost predicate InOrder(frames: seq<AgentFrame>, items: seq<Item>) {
    (forall i :: 0 <= i < |frames| ==> frames[i].position < |items| && frames[i].item == items[frames[i].position]) &&
    (forall i, j :: 0 <= i < j < |frames| ==> frames[i].position < frames[j].position)
  }

  /** Agent frames carry dequeued items, each at most once and in order; the queue holds the rest. */
  ghost predicate QueueOk(queue: seq<Item>, destroyed: bool, log: Log) {
    (!destroyed ==> log.enqueued == log.dequeued + queue) && InOrder(log.agentFrames, log.dequeued)
  }

  /** Nothing waits in the queue while it could be sent. */
  predicate NotStuck(c: Config, st: State) {
    !st.turns.inFlight && st.turns.queue != [] ==> !CanSend(st) && !c.autoFallback
  }

  /** All but what it says about the queue being stuck. */
  ghost predicate Core(st: State) {
    OneSocket(st.link) && NotStranded(st.link, st.log.started) && OnOpened(st.log, st.link.sockets) &&
    HellosOk(st.log) && ConnectedOk(st.shake.gatewayConnected, st.link, st.log) &&
    PendingOk(st.pending, st.usedIds, st.log.connects) && (st.link.destroyed ==> st.pending == map[]) &&
    TurnOk(st.turns, st.link.destroyed, st.pending) && QueueOk(st.turns.queue, st.link.destroyed, st.log)
  }

  /** What every run keeps. */
  ghost predicate Inv(c: Config, st: State) {
    Core(st) && NotStuck(c, st)
  }

  /** What a run keeps besides while every answer comes in on the socket of its request. */
  ghost predicate Own(c: Config, st: State) {
    HellosSent(st.log) && (!c.insecureSkip ==> BoundsOk(st.log, st.pending) && ShakeOk(c, st))
  }

  ghost predicate Keeps(c: Config, st: State, r: State) {
    Inv(c, r) && (Own(c, st) ==> Own(c, r))
  }

  // ----- sending and draining -----

  /** What keeps the bound: a blind frame only as the first, a device frame with a received nonce as the last. */
  ghost predicate MayConnect(st: State, omitDevice: bool, nonce: string) {
    SocketIs(st.link, Open) ==>
      var s := st.link.gatewayWs.value;
      if omitDevice then s !in st.log.connects
      else nonce != "" && Received(s, nonce) in st.log.nonces && RoomFor(st.pending, st.log.connects, s)
  }

  lemma SendKeepsBounds(c: Config, st: State, omitDevice: bool, nonce: string, id: string, sent: bool)
    requires PendingOk(st.pending, st.usedIds, st.log.connects) && BoundsOk(st.log, st.pending)
    requires MayConnect(st, omitDevice, nonce) && id !in st.usedIds && (st.shake.challengeTimer ==> !c.legacyBlind)
    ensures var r := SendConnect(st, omitDevice, nonce, id, sent);
            BoundsOk(r.log, r.pending) && ShakeOk(c, r)
  {
    var r := SendConnect(st, omitDevice, nonce, id, sent);
    if SocketIs(st.link, Open) {
      var s := st.link.gatewayWs.value;
      forall i, t: nat | AwaitsBlind(r.pending, r.log.connects, i, t)
        ensures FramesOn(r.log.connects, t) == [ConnectFrame(i, None)] && (t == s ==> sent)
      {
        if i != id { AwaitedBefore(st, omitDevice, nonce, id, sent, i, t); }
      }
    }
  }

  /** Sending leaves older blind connects as they were; with room for a frame there is none on this socket. */
  lemma AwaitedBefore(st: State, omitDevice: bool, nonce: string, id: string, sent: bool, i: string, t: nat)
    requires PendingOk(st.pending, st.usedIds, st.log.connects) && MayConnect(st, omitDevice, nonce) && id !in st.usedIds
    requires var r := SendConnect(st, omitDevice, nonce, id, sent); AwaitsBlind(r.pending, r.log.connects, i, t)
    requires SocketIs(st.link, Open) && i != id
    ensures t != st.link.gatewayWs.value && AwaitsBlind(st.pending, st.log.connects, i, t)
  {
    assert SentOn(st.log.connects, t, i);
    assert AwaitsBlind(st.pending, st.log.connects, i, t);
  }

  lemma SendKeeps(c: Config, st: State, omitDevice: bool, nonce: string, id: string, sent: bool)
    requires Inv(c, st) && id !in st.usedIds
    ensures Inv(c, SendConnect(st, omitDevice, nonce, id, sent))
  {
  }

  lemma SendKeepsOwn(c: Config, st: State, omitDevice: bool, nonce: string, id: string, sent: bool)
    requires PendingOk(st.pending, st.usedIds, st.log.connects) && HellosSent(st.log) && id !in st.usedIds
    requires !c.insecureSkip ==>
               BoundsOk(st.log, st.pending) && MayConnect(st, omitDevice, nonce) && (st.shake.challengeTimer ==> !c.legacyBlind)
    ensures Own(c, SendConnect(st, omitDevice, nonce, id, sent))
  {
    if !c.insecureSkip { SendKeepsBounds(c, st, omitDevice, nonce, id, sent); }
  }

  lemma MoveFirst<T>(taken: seq<T>, queue: seq<T>)
    requires queue != []
    ensures (taken + [queue[0]]) + queue[1..] == taken + queue
  {
  }

  lemma DrainKeepsQueue(c: Config, st: State, id: string, sent: bool)
    requires QueueOk(st.turns.queue, st.link.destroyed, st.log)
    ensures var r := Drain(c, st, id, sent); QueueOk(r.turns.queue, r.link.destroyed, r.log)
  {
    if st.turns.queue != [] { MoveFirst(st.log.dequeued, st.turns.queue); }
  }

  lemma DrainKeepsPending(c: Config, st: State, id: string, sent: bool)
    requires PendingOk(st.pending, st.usedIds, st.log.connects) && id !in st.usedIds
    requires TurnOk(st.turns, st.link.destroyed, st.pending)
    ensures var r := Drain(c, st, id, sent);
            PendingOk(r.pending, r.usedIds, r.log.connects) && TurnOk(r.turns, r.link.destroyed, r.pending) &&
            (BlindAlone(st.pending, st.log.connects) ==> BlindAlone(r.pending, r.log.connects)) &&
            (ShakeOk(c, st) ==> ShakeOk(c, r))
  {
    var r := Drain(c, st, id, sent);
    forall i, s: nat ensures AwaitsBlind(r.pending, r.log.connects, i, s) <==> AwaitsBlind(st.pending, st.log.connects, i, s) {
    }
  }

  /** What draining leaves alone. */
  predicate SameConnection(r: State, st: State) {
    r.link == st.link && r.shake == st.shake && r.log.connects == st.log.connects && r.log.nonces == st.log.nonces &&
    r.log.hellos == st.log.hellos && r.log.started == st.log.started
  }

  lemma DrainFrame(c: Config, st: State, id: string, sent: bool)
    requires st.link.destroyed ==> st.link.gatewayWs.None?
    ensures var r := Drain(c, st, id, sent);
            SameConnection(r, st) && NotStuck(c, r) && (st.link.destroyed ==> r.pending == st.pending)
  {
  }

  lemma DrainKeeps(c: Config, st: State, id: string, sent: bool)
    requires Core(st) && id !in st.usedIds
    ensures Keeps(c, st, Drain(c, st, id, sent))
  {
    DrainFrame(c, st, id, sent);
    DrainKeepsQueue(c, st, id, sent);
    DrainKeepsPending(c, st, id, sent);
  }

  // ----- every event -----

  /** The bounds do not depend on more than this. */
  lemma QuietKeepsOwn(c: Config, st: State, r: State)
    requires r.log.connects == st.log.connects && r.log.nonces == st.log.nonces && r.log.hellos == st.log.hellos
    requires r.pending == st.pending && r.shake == st.shake
    requires SocketIs(r.link, Open) ==> SocketIs(st.link, Open) && r.link.gatewayWs == st.link.gatewayWs
    ensures Own(c, st) ==> Own(c, r)
  {
  }

  lemma CloseGatewayKeeps(c: Config, st: State)
    requires Inv(c, st)
    ensures Keeps(c, st, st.(link := CloseGateway(st.link)))
  {
    QuietKeepsOwn(c, st, st.(link := CloseGateway(st.link)));
  }

  lemma EnsureConnectedKeeps(c: Config, st: State)
    requires Inv(c, st)
    ensures Keeps(c, st, OnEnsureConnected(st))
  {
    QuietKeepsOwn(c, st, OnEnsureConnected(st));
  }

  lemma ReconnectTimerKeeps(c: Config, st: State)
    requires Inv(c, st) && st.link.reconnectTimer
    ensures Keeps(c, st, OnReconnectTimer(st))
  {
    QuietKeepsOwn(c, st, OnReconnectTimer(st));
  }

  lemma WaitEndsKeeps(c: Config, st: State, reachable: bool, created: bool, s: nat)
    requires Inv(c, st) && st.link.waiting && s !in st.link.sockets
    ensures Keeps(c, st, OnWaitEnds(st, reachable, created, s))
  {
    QuietKeepsOwn(c, st, OnWaitEnds(st, reachable, created, s));
  }

  /** The state in which a blind connect is sent right after the socket opened. */
  function Opened(st: State, s: nat): State {
    st.(link := st.link.(sockets := st.link.sockets[s := Open], connecting := false),
        shake := st.shake.(connectNonce := "", connectSent := false, challengeTimer := false))
  }

  lemma OpenKeeps(c: Config, st: State, s: nat, id: string, sent: bool)
    requires Inv(c, st) && Possible(st, SocketOpens(s, id, sent))
    ensures Inv(c, OnOpen(c, st, s, id, sent))
  {
    if c.insecureSkip || c.legacyBlind { SendKeeps(c, Opened(st, s), true, "", id, sent); }
  }

  lemma OpenKeepsOwn(c: Config, st: State, s: nat, id: string, sent: bool)
    requires Inv(c, st) && Own(c, st) && Possible(st, SocketOpens(s, id, sent))
    ensures Own(c, OnOpen(c, st, s, id, sent))
  {
    if c.insecureSkip || c.legacyBlind { SendKeepsOwn(c, Opened(st, s), true, "", id, sent); }
  }

  lemma SocketFailsKeeps(c: Config, st: State, s: nat)
    requires Inv(c, st) && Live(st.link.sockets, s)
    ensures Keeps(c, st, OnSocketFails(st, s))
  {
    QuietKeepsOwn(c, st, OnSocketFails(st, s));
  }

  lemma CloseKeeps(c: Config, st: State, s: nat)
    requires Inv(c, st) && Live(st.link.sockets, s)
    ensures Keeps(c, st, OnClose(st, s))
  {
  }

  lemma ChallengeTimerKeeps(c: Config, st: State, id: string, sent: bool)
    requires Inv(c, st) && st.shake.challengeTimer && id !in st.usedIds
    ensures Keeps(c, st, OnChallengeTimer(c, st, id, sent))
  {
    var fired := st.(shake := st.shake.(challengeTimer := false));
    if !(st.link.destroyed || st.shake.connectSent || st.link.gatewayWs.None?) {
      if c.legacyBlind {
        SendKeeps(c, fired, true, "", id, sent);
        if Own(c, st) { SendKeepsOwn(c, fired, true, "", id, sent); }
      } else {
        CloseGatewayKeeps(c, fired);
      }
    }
  }

  /** The state after a nonce has come in. */
  function Noted(st: State, s: nat, nonce: string): State {
    Note(st, s, nonce, st.shake.(challengeTimer := false, connectNonce := nonce))
  }

  lemma NotedKeeps(c: Config, st: State, s: nat, nonce: string)
    requires Inv(c, st)
    ensures Keeps(c, st, Noted(st, s, nonce))
  {
  }

  lemma ChallengeSends(c: Config, st: State, s: nat, nonce: string, id: string, sent: bool)
    requires Inv(c, st) && Possible(st, ChallengeArrives(s, nonce, id, sent)) && nonce != "" && !st.shake.connectSent
    ensures Keeps(c, st, SendConnect(Noted(st, s, nonce), c.insecureSkip, nonce, id, sent))
  {
    NotedKeeps(c, st, s, nonce);
    SendKeeps(c, Noted(st, s, nonce), c.insecureSkip, nonce, id, sent);
    if Own(c, st) { SendKeepsOwn(c, Noted(st, s, nonce), c.insecureSkip, nonce, id, sent); }
  }

  lemma ChallengeKeeps(c: Config, st: State, s: nat, nonce: string, id: string, sent: bool)
    requires Inv(c, st) && Possible(st, ChallengeArrives(s, nonce, id, sent))
    ensures Keeps(c, st, OnChallenge(c, st, s, nonce, id, sent))
  {
    if nonce == "" {
      CloseGatewayKeeps(c, st);
    } else if st.shake.connectSent {
      NotedKeeps(c, st, s, nonce);
    } else {
      ChallengeSends(c, st, s, nonce, id, sent);
    }
  }

  /** The state after an item was put on the queue. */
  function Queued(st: State, item: Item): State {
    st.(turns := st.turns.(queue := st.turns.queue + [item]), log := st.log.(enqueued := st.log.enqueued + [item]))
  }

  lemma QueuedKeeps(c: Config, st: State, item: Item)
    requires Core(st)
    ensures Core(Queued(st, item)) && (Own(c, st) ==> Own(c, Queued(st, item)))
  {
  }

  lemma EnqueueKeeps(c: Config, st: State, item: Item, id: string, sent: bool)
    requires Inv(c, st) && id !in st.usedIds
    ensures Keeps(c, st, OnEnqueue(c, st, item, id, sent))
  {
    QueuedKeeps(c, st, item);
    DrainKeeps(c, Queued(st, item), id, sent);
  }

  lemma AwaitedWithout(pending: map<string, Pending>, connects: Frames, answered: string)
    ensures forall id, s: nat :: AwaitsBlind(pending - {answered}, connects, id, s) ==> AwaitsBlind(pending, connects, id, s)
  {
  }

  lemma AgentAnswerKeeps(c: Config, st: State, s: nat, answered: string, ok: bool)
    requires Inv(c, st) && Possible(st, AgentAnswered(s, answered, ok))
    ensures Keeps(c, st, OnAgentAnswer(st, answered, ok))
  {
    AwaitedWithout(st.pending, st.log.connects, answered);
  }

  lemma TurnTimeoutKeeps(c: Config, st: State)
    requires Inv(c, st) && st.turns.turn.AwaitReply?
    ensures Keeps(c, st, OnTurnTimeout(st))
  {
    AwaitedWithout(st.pending, st.log.connects, st.turns.turn.id);
  }

  lemma TurnContinuesKeeps(c: Config, st: State, id: string, sent: bool)
    requires Inv(c, st) && Possible(st, TurnContinues(id, sent))
    ensures Keeps(c, st, OnTurnContinues(c, st, id, sent))
  {
    DrainKeeps(c, st.(turns := st.turns.(inFlight := false, turn := NoTurn)), id, sent);
  }

  lemma DestroyKeeps(c: Config, st: State)
    requires Inv(c, st)
    ensures Keeps(c, st, OnDestroy(st))
  {
  }

  // ----- the reply to a connect -----

  lemma AnsweredKeeps(c: Config, st: State, answered: string)
    requires Inv(c, st) && answered in st.pending && st.pending[answered].ConnectReply?
    ensures Keeps(c, st, st.(pending := st.pending - {answered}))
  {
    AwaitedWithout(st.pending, st.log.connects, answered);
  }

  predicate SocketHeld(link: Link, s: nat) {
    link.gatewayWs == Some(s) && s in link.sockets && link.sockets[s] in {Open, Closing}
  }

  /** The state after an ok reply that grants enough. */
  function Greeted(st: State, s: nat, msg: Json): State {
    st.(shake := st.shake.(gatewayConnected := true), log := st.log.(hellos := st.log.hellos[s := msg]))
  }

  lemma GreetedKeeps(c: Config, st: State, s: nat, msg: Json)
    requires Inv(c, st) && SocketHeld(st.link, s) && IsOk(msg) && Authorized(msg)
    ensures Core(Greeted(st, s, msg)) && (Own(c, st) && s in st.log.connects ==> Own(c, Greeted(st, s, msg)))
  {
  }

  lemma HelloKeeps(c: Config, st: State, s: nat, msg: Json, id: string, sent: bool)
    requires Inv(c, st) && SocketHeld(st.link, s) && id !in st.usedIds && IsOk(msg)
    ensures var r := OnHello(c, st, s, msg, id, sent); Inv(c, r) && (Own(c, st) && s in st.log.connects ==> Own(c, r))
  {
    if Authorized(msg) {
      GreetedKeeps(c, st, s, msg);
      DrainKeeps(c, Greeted(st, s, msg), id, sent);
    } else {
      CloseGatewayKeeps(c, st);
    }
  }

  /** A refused blind connect leaves room for one frame with the nonce just received. */
  lemma RefusalKeeps(c: Config, st: State, s: nat, omitDevice: bool, nonce: string, id: string, sent: bool)
    requires Inv(c, st) && st.link.gatewayWs == Some(s) && id !in st.usedIds
    ensures var r := OnRefusal(c, st, s, omitDevice, nonce, id, sent);
            Inv(c, r) &&
            (Own(c, st) && (!c.insecureSkip && omitDevice ==> RoomFor(st.pending, st.log.connects, s)) ==> Own(c, r))
  {
    if nonce != "" && omitDevice {
      var noted := Note(st, s, nonce, st.shake.(connectNonce := nonce, connectSent := false));
      SendKeeps(c, noted, c.insecureSkip, nonce, id, sent);
      if Own(c, st) && (!c.insecureSkip ==> RoomFor(st.pending, st.log.connects, s)) {
        SendKeepsOwn(c, noted, c.insecureSkip, nonce, id, sent);
      }
    } else {
      CloseGatewayKeeps(c, st);
    }
  }

  /** A connect answered on its own socket: it is the one held, and a blind frame on it has no other reply coming. */
  lemma HeldSocket(c: Config, st: State, s: nat, answered: string)
    requires Inv(c, st) && Own(c, st) && Live(st.link.sockets, s) && answered in st.pending && st.pending[answered].ConnectReply?
    requires st.pending[answered].socket == s && SentOn(st.log.connects, s, answered)
    ensures s in st.log.connects
    ensures !c.insecureSkip && st.pending[answered].omitDevice ==>
              RoomFor(st.pending - {answered}, st.log.connects, s)
  {
    if !c.insecureSkip && st.pending[answered].omitDevice {
      assert AwaitsBlind(st.pending, st.log.connects, answered, s);
      AwaitedWithout(st.pending, st.log.connects, answered);
    }
  }

  lemma ConnectAnswerKeeps(c: Config, st: State, s: nat, answered: string, msg: Json, id: string, sent: bool)
    requires Inv(c, st) && Possible(st, ConnectAnswered(s, answered, msg, id, sent))
    ensures var r := OnConnectAnswer(c, st, s, answered, msg, id, sent);
            Inv(c, r) && (Own(c, st) && st.pending[answered].socket == s ==> Own(c, r))
  {
    AnsweredKeeps(c, st, answered);
    if Own(c, st) && st.pending[answered].socket == s { HeldSocket(c, st, s, answered); }
    var taken := st.(pending := st.pending - {answered});
    if IsOk(msg) {
      HelloKeeps(c, taken, s, msg, id, sent);
    } else {
      RefusalKeeps(c, taken, s, st.pending[answered].omitDevice, ChallengeIn(msg), id, sent);
    }
  }
}
