/** The gateway client in the program's own form: fields that the event handlers update. */
module GatewayClient {
  import opened Json
  import opened GatewayMachine
  import opened GatewayLaws
  import opened GatewayRuns

  class GatewayAgentClient {
    const config: Config

    var gatewayWs: Option<nat>
    var connecting: bool
    var destroyed: bool
    var reconnectTimer: bool
    var gatewayConnected: bool
    var connectNonce: string
    var connectSent: bool
    var challengeTimer: bool
    var pending: map<string, Pending>
    var queue: seq<Item>
    var inFlight: bool

    // Held by the runtime: socket states, the wait for the port, the promise of the turn in flight.
    var sockets: Sockets
    var waiting: bool
    var turn: Turn

    ghost var usedIds: set<string>
    ghost var log: Log

    ghost function Snapshot(): State
      reads this
    {
      State(Link(gatewayWs, connecting, waiting, destroyed, reconnectTimer, sockets),
            Handshake(gatewayConnected, connectNonce, connectSent, challengeTimer),
            Turns(queue, inFlight, turn), pending, usedIds, log)
    }

    ghost predicate Valid()
      reads this
    {
      Inv(config, Snapshot())
    }

    constructor (config: Config)
      ensures Valid() && Snapshot() == INITIAL && this.config == config
    {
      this.config := config;
      gatewayWs, connecting, destroyed, reconnectTimer := None, false, false, false;
      gatewayConnected, connectNonce, connectSent, challengeTimer := false, "", false, false;
      pending, queue, inFlight := map[], [], false;
      sockets, waiting, turn := map[], false, NoTurn;
      usedIds, log := {}, INITIAL.log;
    }

    // ----- helpers -----

    method ScheduleReconnect()
      modifies this`reconnectTimer
      ensures reconnectTimer == (old(reconnectTimer) || !destroyed)
    {
      if !destroyed { reconnectTimer := true; }
    }

    method Connect()
      modifies this`connecting, this`waiting
      ensures Snapshot() == old(Snapshot()).(link := GatewayMachine.Connect(old(Snapshot()).link))
    {
      if destroyed || connecting || gatewayWs.Some? { return; }
      connecting, waiting := true, true;
    }

    method CloseGateway()
      modifies this`sockets
      ensures Snapshot() == old(Snapshot()).(link := GatewayMachine.CloseGateway(old(Snapshot()).link))
    {
      if gatewayWs.Some? && gatewayWs.value in sockets && sockets[gatewayWs.value] != Closed {
        sockets := sockets[gatewayWs.value := Closing];
      }
    }

    method SendConnectHandshake(omitDevice: bool, nonce: string, id: string, sent: bool)
      modifies this`connectSent, this`pending, this`usedIds, this`log
      ensures Snapshot() == SendConnect(old(Snapshot()), omitDevice, nonce, id, sent)
    {
      if gatewayWs.None? || gatewayWs.value !in sockets || sockets[gatewayWs.value] != Open { return; }
      var s := gatewayWs.value;
      var device := if !omitDevice && nonce != "" then Some(nonce) else None;
      connectSent := true;
      pending := pending[id := ConnectReply(omitDevice, s)];
      usedIds := usedIds + {id};
      if sent {
        log := log.(connects := log.connects[s := FramesOn(log.connects, s) + [ConnectFrame(id, device)]]);
      } else {
        connectSent := false;
      }
    }

    method BeginHandshakeAfterOpen(id: string, sent: bool)
      modifies this`connectNonce, this`connectSent, this`challengeTimer, this`pending, this`usedIds, this`log
      ensures Snapshot() == BeginHandshake(config, old(Snapshot()), id, sent)
    {
      connectNonce, connectSent := "", false;
      if config.insecureSkip || config.legacyBlind {
        challengeTimer := false;
        SendConnectHandshake(true, "", id, sent);
      } else {
        challengeTimer := true;
      }
    }

    method DrainQueue(id: string, sent: bool)
      requires id !in pending
      modifies this`queue, this`inFlight, this`turn, this`pending, this`usedIds, this`log
      ensures Snapshot() == Drain(config, old(Snapshot()), id, sent)
    {
      if inFlight { return; }
      var canSendGateway := gatewayConnected && gatewayWs.Some? && gatewayWs.value in sockets && sockets[gatewayWs.value] == Open;
      if !canSendGateway && !config.autoFallback { return; }
      if queue == [] { return; }
      StartTurn(canSendGateway, id, sent);
    }

    method StartTurn(canSendGateway: bool, id: string, sent: bool)
      requires queue != [] && !inFlight && id !in pending
      requires canSendGateway == CanSend(Snapshot()) && (canSendGateway || config.autoFallback)
      modifies this`queue, this`inFlight, this`turn, this`pending, this`usedIds, this`log
      ensures Snapshot() == Drain(config, old(Snapshot()), id, sent)
    {
      ghost var position := |log.dequeued|;
      var item := TakeFirst();
      if canSendGateway { SendAgentTurn(item, id, sent, position); } else { turn := AwaitFallback; }
    }

    method TakeFirst() returns (item: Item)
      requires queue != []
      modifies this`queue, this`inFlight, this`log
      ensures item == old(queue)[0]
      ensures queue == old(queue)[1..] && inFlight
      ensures log == old(log).(dequeued := old(log).dequeued + [old(queue)[0]])
    {
      log := log.(dequeued := log.dequeued + [queue[0]]);
      item, queue := queue[0], queue[1..];
      inFlight := true;
    }

    method SendAgentTurn(item: Item, id: string, sent: bool, ghost position: nat)
      requires id !in pending && gatewayWs.Some?
      modifies this`turn, this`pending, this`usedIds, this`log
      ensures usedIds == old(usedIds) + {id} && turn == if sent then AwaitReply(id) else Resolved
      ensures pending == if sent then old(pending)[id := AgentReply(gatewayWs.value)] else old(pending)
      ensures log == if sent then old(log).(agentFrames := old(log).agentFrames + [AgentFrame(id, item, position)]) else old(log)
    {
      pending := pending[id := AgentReply(gatewayWs.value)];
      usedIds := usedIds + {id};
      if sent {
        turn := AwaitReply(id);
        log := log.(agentFrames := log.agentFrames + [AgentFrame(id, item, position)]);
      } else {
        pending := pending - {id};
        turn := Resolved;
      }
    }

    /** The `close` handler. */
    method ForgetSocket(s: nat)
      modifies this
      ensures Snapshot() == OnClose(old(Snapshot()), s)
    {
      ResetHandshake();
      sockets := sockets[s := Closed];
      connecting := false;
      gatewayWs := None;
      if !destroyed { ScheduleReconnect(); }
    }

    method ResetHandshake()
      modifies this`gatewayConnected, this`challengeTimer, this`connectNonce, this`connectSent
      ensures Snapshot() == old(Snapshot()).(shake := Handshake(false, "", false, false))
    {
      gatewayConnected := false;
      challengeTimer := false;
      connectNonce, connectSent := "", false;
    }

    method TearDown()
      modifies this
      ensures Snapshot() == OnDestroy(old(Snapshot()))
    {
      CloseGateway();
      DropConnection();
      pending := map[];
      queue := [];
    }

    method DropConnection()
      modifies this`challengeTimer, this`reconnectTimer, this`destroyed, this`gatewayWs, this`gatewayConnected
      ensures Snapshot() == old(Snapshot()).(
                link := old(Snapshot()).link.(destroyed := true, reconnectTimer := false, gatewayWs := None),
                shake := old(Snapshot()).shake.(challengeTimer := false, gatewayConnected := false))
    {
      destroyed := true;
      challengeTimer := false;
      reconnectTimer := false;
      gatewayWs := None;
      gatewayConnected := false;
    }

    /** Notes a nonce and connects with it unless a connect is out. */
    method AnswerChallenge(s: nat, nonce: string, id: string, sent: bool)
      requires nonce != ""
      modifies this
      ensures Snapshot() == OnChallenge(config, old(Snapshot()), s, nonce, id, sent)
    {
      challengeTimer := false;
      connectNonce := nonce;
      log := log.(nonces := log.nonces + {Received(s, nonce)});
      if !connectSent { SendConnectHandshake(config.insecureSkip, nonce, id, sent); }
    }

    // ----- events -----

    method EnsureConnected()
      requires Valid()
      modifies this
      ensures Valid() && Snapshot() == OnEnsureConnected(old(Snapshot()))
    {
      EnsureConnectedKeeps(config, Snapshot());
      log := log.(started := true);
      if destroyed { return; }
      if gatewayWs.None? || (gatewayWs.value in sockets && sockets[gatewayWs.value] == Closed) { Connect(); }
    }

    method ReconnectTimerFires()
      requires Valid() && Possible(Snapshot(), Event.ReconnectTimerFires)
      modifies this
      ensures Valid() && Snapshot() == OnReconnectTimer(old(Snapshot()))
    {
      ReconnectTimerKeeps(config, Snapshot());
      reconnectTimer := false;
      if !destroyed && gatewayWs.None? { Connect(); }
    }

    /** `_connectWithWait` after its wait; `s` is the new socket. */
    method PortWaitEnds(reachable: bool, created: bool, s: nat)
      requires Valid() && Possible(Snapshot(), WaitEnds(reachable, created, s))
      modifies this
      ensures Valid() && Snapshot() == OnWaitEnds(old(Snapshot()), reachable, created, s)
    {
      WaitEndsKeeps(config, Snapshot(), reachable, created, s);
      FinishWait(reachable, created, s);
    }

    method FinishWait(reachable: bool, created: bool, s: nat)
      modifies this
      ensures Snapshot() == OnWaitEnds(old(Snapshot()), reachable, created, s)
    {
      waiting := false;
      if !reachable {
        connecting := false;
        if !destroyed { ScheduleReconnect(); }
        return;
      }
      if destroyed {
        connecting := false;
        return;
      }
      OpenGatewayWebSocket(created, s);
    }

    method OpenGatewayWebSocket(created: bool, s: nat)
      modifies this`connecting, this`reconnectTimer, this`gatewayWs, this`sockets
      ensures created ==> gatewayWs == Some(s) && sockets == old(sockets)[s := Opening] &&
                          connecting == old(connecting) && reconnectTimer == old(reconnectTimer)
      ensures !created ==> !connecting && reconnectTimer == (old(reconnectTimer) || !destroyed) &&
                           gatewayWs == old(gatewayWs) && sockets == old(sockets)
    {
      if !created {
        connecting := false;
        ScheduleReconnect();
        return;
      }
      gatewayWs := Some(s);
      sockets := sockets[s := Opening];
    }

    method SocketOpen(s: nat, id: string, sent: bool)
      requires Valid() && Possible(Snapshot(), SocketOpens(s, id, sent))
      modifies this
      ensures Valid() && Snapshot() == OnOpen(config, old(Snapshot()), s, id, sent)
    {
      EventKeeps(config, Snapshot(), SocketOpens(s, id, sent));
      MarkOpen(s);
      BeginHandshakeAfterOpen(id, sent);
    }

    method MarkOpen(s: nat)
      modifies this`sockets, this`connecting
      ensures var was := old(Snapshot());
              Snapshot() == was.(link := was.link.(sockets := was.link.sockets[s := Open], connecting := false))
    {
      sockets := sockets[s := Open];
      connecting := false;
    }

    method SocketError(s: nat)
      requires Valid() && Possible(Snapshot(), SocketFails(s))
      modifies this
      ensures Valid() && Snapshot() == OnSocketFails(old(Snapshot()), s)
    {
      SocketFailsKeeps(config, Snapshot(), s);
      sockets := sockets[s := Closing];
    }

    method SocketClose(s: nat)
      requires Valid() && Possible(Snapshot(), SocketCloses(s))
      modifies this
      ensures Valid() && Snapshot() == OnClose(old(Snapshot()), s)
    {
      CloseKeeps(config, Snapshot(), s);
      ForgetSocket(s);
    }

    method ChallengeTimerFires(id: string, sent: bool)
      requires Valid() && Possible(Snapshot(), Event.ChallengeTimerFires(id, sent))
      modifies this
      ensures Valid() && Snapshot() == OnChallengeTimer(config, old(Snapshot()), id, sent)
    {
      EventKeeps(config, Snapshot(), Event.ChallengeTimerFires(id, sent));
      DisarmChallengeTimer();
      if destroyed || connectSent || gatewayWs.None? { return; }
      if config.legacyBlind { SendConnectHandshake(true, "", id, sent); } else { CloseGateway(); }
    }

    method DisarmChallengeTimer()
      modifies this`challengeTimer
      ensures var was := old(Snapshot()); Snapshot() == was.(shake := was.shake.(challengeTimer := false))
    {
      challengeTimer := false;
    }

    method HandleConnectChallengeEvent(s: nat, nonce: string, id: string, sent: bool)
      requires Valid() && Possible(Snapshot(), ChallengeArrives(s, nonce, id, sent))
      modifies this
      ensures Valid() && Snapshot() == OnChallenge(config, old(Snapshot()), s, nonce, id, sent)
    {
      ChallengeKeeps(config, Snapshot(), s, nonce, id, sent);
      if nonce == "" {
        CloseGateway();
        return;
      }
      AnswerChallenge(s, nonce, id, sent);
    }

    /** The continuation of a connect request: `msg` answers the request `answered`. */
    method ConnectReplied(s: nat, answered: string, msg: Json, id: string, sent: bool)
      requires Valid() && Possible(Snapshot(), ConnectAnswered(s, answered, msg, id, sent))
      modifies this
      ensures Valid() && Snapshot() == OnConnectAnswer(config, old(Snapshot()), s, answered, msg, id, sent)
    {
      ConnectAnswerKeeps(config, Snapshot(), s, answered, msg, id, sent);
      var omitDevice := pending[answered].omitDevice;
      pending := pending - {answered};
      if IsOk(msg) { FinishConnectSuccess(s, msg, id, sent); } else { ConnectRefused(s, omitDevice, ChallengeIn(msg), id, sent); }
    }

    method ConnectRefused(s: nat, omitDevice: bool, nonce: string, id: string, sent: bool)
      modifies this
      ensures Snapshot() == OnRefusal(config, old(Snapshot()), s, omitDevice, nonce, id, sent)
    {
      if nonce != "" && omitDevice {
        connectNonce, connectSent := nonce, false;
        log := log.(nonces := log.nonces + {Received(s, nonce)});
        SendConnectHandshake(config.insecureSkip, nonce, id, sent);
        return;
      }
      CloseGateway();
    }

    method FinishConnectSuccess(s: nat, msg: Json, id: string, sent: bool)
      requires id !in pending
      modifies this
      ensures Snapshot() == OnHello(config, old(Snapshot()), s, msg, id, sent)
    {
      if !Authorized(msg) {
        CloseGateway();
        return;
      }
      gatewayConnected := true;
      log := log.(hellos := log.hellos[s := msg]);
      DrainQueue(id, sent);
    }

    method EnqueueAgentTurn(item: Item, id: string, sent: bool)
      requires Valid() && Possible(Snapshot(), Enqueue(item, id, sent))
      modifies this
      ensures Valid() && Snapshot() == OnEnqueue(config, old(Snapshot()), item, id, sent)
    {
      EventKeeps(config, Snapshot(), Enqueue(item, id, sent));
      Push(item);
      DrainQueue(id, sent);
    }

    method Push(item: Item)
      modifies this`queue, this`log
      ensures Snapshot() == Queued(old(Snapshot()), item)
    {
      queue := queue + [item];
      log := log.(enqueued := log.enqueued + [item]);
    }

    method AgentReplied(s: nat, answered: string, ok: bool)
      requires Valid() && Possible(Snapshot(), AgentAnswered(s, answered, ok))
      modifies this
      ensures Valid() && Snapshot() == OnAgentAnswer(old(Snapshot()), answered, ok)
    {
      AgentAnswerKeeps(config, Snapshot(), s, answered, ok);
      pending := pending - {answered};
      turn := if ok then Resolved else AwaitFallback;
    }

    method TurnTimeout()
      requires Valid() && Possible(Snapshot(), TurnTimesOut)
      modifies this
      ensures Valid() && Snapshot() == OnTurnTimeout(old(Snapshot()))
    {
      TurnTimeoutKeeps(config, Snapshot());
      if turn.id in pending { pending := pending - {turn.id}; }
      assert pending == old(pending) - {turn.id};
      turn := Resolved;
    }

    method FallbackSettled()
      requires Valid() && Possible(Snapshot(), FallbackSettles)
      modifies this
      ensures Valid() && Snapshot() == OnFallbackSettles(old(Snapshot()))
    {
      StepKeeps(config, Snapshot(), FallbackSettles);
      turn := Resolved;
    }

    /** The `finally` of `_drainQueue`, once the turn's promise has resolved. */
    method TurnEnds(id: string, sent: bool)
      requires Valid() && Possible(Snapshot(), TurnContinues(id, sent))
      modifies this
      ensures Valid() && Snapshot() == OnTurnContinues(config, old(Snapshot()), id, sent)
    {
      TurnContinuesKeeps(config, Snapshot(), id, sent);
      inFlight, turn := false, NoTurn;
      if |queue| > 0 { DrainQueue(id, sent); }
    }

    method Destroy()
      requires Valid()
      modifies this
      ensures Valid() && Snapshot() == OnDestroy(old(Snapshot()))
    {
      DestroyKeeps(config, Snapshot());
      TearDown();
    }
  }
}
