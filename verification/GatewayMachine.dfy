/**
 The gateway client of `gatewayAgentClient.js` as a state machine: one outbound
 socket that is reopened for ever, a challenge handshake, and a queue of agent
 turns. Every event is one task of the program's event loop.

 The state holds the client's fields, grouped by what they serve, what the
 runtime holds for the client (socket states, a wait that has not ended, armed
 timers, the promise of the turn in flight), and a log that nothing reads.
 */
module GatewayMachine {
  import opened Json
  import opened JsText
  import opened ReplyText

  /** `readyState` 0 to 3. */
  datatype SocketState = Opening | Open | Closing | Closed

  /** What a response to a request id will run; `socket` is the one the request went out on. */
  datatype Pending = ConnectReply(omitDevice: bool, socket: nat) | AgentReply(socket: nat)

  /** The promise of the turn in flight: waiting for a reply, for the fallback provider, or resolved. */
  datatype Turn = NoTurn | AwaitReply(id: string) | AwaitFallback | Resolved

  datatype Item = Item(text: string, agentId: string, clientMessageId: Option<string>)

  /** A `connect` frame; `device` is the nonce its device block was built with. */
  datatype ConnectFrame = ConnectFrame(id: string, device: Option<string>)

  /** A challenge nonce and the socket it came in on. */
  datatype Received = Received(socket: nat, nonce: string)

  /** An agent frame: the item it carries, and the place of that among all items taken off the queue. */
  datatype AgentFrame = AgentFrame(id: string, item: Item, position: nat)

  // ----- reading gateway replies -----

  /** The trimmed nonce of a challenge object, blank when it has none. */
  function NonceText(challenge: Option<Json>): string {
    if IsObject(challenge) && Truthy(Child(challenge, "nonce")) then Trim(ToText(challenge.value.fields["nonce"])) else ""
  }

  /** The challenge nonce inside a refused connect: from the payload, or from the error details. */
  function ChallengeIn(msg: Json): string {
    var fromPayload := NonceText(Child(At(msg, "payload"), "challenge"));
    if fromPayload != "" then fromPayload
    else NonceText(Child(Child(At(msg, "error"), "details"), "challenge"))
  }

  /** The granted scopes of a hello: the list in the payload, or else the one in its `auth`. */
  function Granted(msg: Json): Option<seq<Json>> {
    var direct := Child(At(msg, "payload"), "grantedScopes");
    var viaAuth := Child(Child(At(msg, "payload"), "auth"), "scopes");
    if direct.Some? && direct.value.Arr? then Some(direct.value.items)
    else if viaAuth.Some? && viaAuth.value.Arr? then Some(viaAuth.value.items)
    else None
  }

  /** No grant list, an empty one, or one that contains `operator.write`. */
  predicate Authorized(msg: Json) {
    Granted(msg).None? || Granted(msg).value == [] ||
    exists s :: s in Granted(msg).value && s.Str? && Lower(Trim(s.s)) == "operator.write"
  }

  predicate IsOk(msg: Json) {
    At(msg, "ok") == Some(Bool(true))
  }

  // ----- the state -----

  type Sockets = map<nat, SocketState>
  type Frames = map<nat, seq<ConnectFrame>>

  /** Environment settings read on every use. */
  datatype Config = Config(insecureSkip: bool, legacyBlind: bool, autoFallback: bool)

  /** The socket held, the wait for the gateway's port, and the reconnect timer. */
  datatype Link = Link(gatewayWs: Option<nat>, connecting: bool, waiting: bool, destroyed: bool, reconnectTimer: bool,
                       sockets: Sockets)

  datatype Handshake = Handshake(gatewayConnected: bool, connectNonce: string, connectSent: bool, challengeTimer: bool)

  datatype Turns = Turns(queue: seq<Item>, inFlight: bool, turn: Turn)

  /** What has happened: frames sent, nonces and hellos received, items put on and taken off the queue. */
  datatype Log = Log(started: bool, connects: Frames, nonces: set<Received>, hellos: map<nat, Json>,
                     enqueued: seq<Item>, dequeued: seq<Item>, agentFrames: seq<AgentFrame>)

  datatype State = State(link: Link, shake: Handshake, turns: Turns, pending: map<string, Pending>, usedIds: set<string>,
                         log: Log)

  const INITIAL := State(Link(None, false, false, false, false, map[]), Handshake(false, "", false, false),
                         Turns([], false, NoTurn), map[], {}, Log(false, map[], {}, map[], [], [], []))

  predicate Live(sockets: Sockets, s: nat) {
    s in sockets && sockets[s] != Closed
  }

  predicate SocketIs(link: Link, state: SocketState) {
    link.gatewayWs.Some? && link.gatewayWs.value in link.sockets && link.sockets[link.gatewayWs.value] == state
  }

  predicate CanSend(st: State) {
    st.shake.gatewayConnected && SocketIs(st.link, Open)
  }

  // ----- the client's own steps -----

  function ScheduleReconnect(link: Link): Link {
    if link.destroyed then link else link.(reconnectTimer := true)
  }

  /** `_connect`, up to the wait for the gateway's port. */
  function Connect(link: Link): Link {
    if link.destroyed || link.connecting || link.gatewayWs.Some? then link else link.(connecting := true, waiting := true)
  }

  /** `this.gatewayWs?.close()`. */
  function CloseGateway(link: Link): Link {
    if link.gatewayWs.Some? && Live(link.sockets, link.gatewayWs.value)
    then link.(sockets := link.sockets[link.gatewayWs.value := Closing]) else link
  }

  function FramesOn(connects: Frames, s: nat): seq<ConnectFrame> {
    if s in connects then connects[s] else []
  }

  /** A connect frame with this id went out on socket `s`. */
  predicate SentOn(connects: Frames, s: nat, id: string) {
    exists f :: f in FramesOn(connects, s) && f.id == id
  }

  /** `_sendConnectHandshake`; `sent` says whether the send succeeds. */
  function SendConnect(st: State, omitDevice: bool, nonce: string, id: string, sent: bool): State {
    if !SocketIs(st.link, Open) then st
    else
      var s := st.link.gatewayWs.value;
      var frame := ConnectFrame(id, if !omitDevice && nonce != "" then Some(nonce) else None);
      var log := if sent then st.log.(connects := st.log.connects[s := FramesOn(st.log.connects, s) + [frame]]) else st.log;
      st.(shake := st.shake.(connectSent := sent), pending := st.pending[id := ConnectReply(omitDevice, s)],
          usedIds := st.usedIds + {id}, log := log)
  }

  /** `_beginHandshakeAfterOpen`. */
  function BeginHandshake(c: Config, st: State, id: string, sent: bool): State {
    var reset := st.shake.(connectNonce := "", connectSent := false);
    if c.insecureSkip || c.legacyBlind then SendConnect(st.(shake := reset.(challengeTimer := false)), true, "", id, sent)
    else st.(shake := reset.(challengeTimer := true))
  }

  /** `_drainQueue` up to its first wait; `sent` says whether sending the agent frame succeeds. */
  function Drain(c: Config, st: State, id: string, sent: bool): State {
    if st.turns.inFlight || (!CanSend(st) && !c.autoFallback) || st.turns.queue == [] then st
    else
      var rest := st.turns.queue[1..];
      var log := st.log.(dequeued := st.log.dequeued + [st.turns.queue[0]]);
      if !CanSend(st) then st.(turns := Turns(rest, true, AwaitFallback), log := log)
      else if !sent then st.(turns := Turns(rest, true, Resolved), log := log, usedIds := st.usedIds + {id})
      else st.(turns := Turns(rest, true, AwaitReply(id)), usedIds := st.usedIds + {id},
               pending := st.pending[id := AgentReply(st.link.gatewayWs.value)],
               log := log.(agentFrames := st.log.agentFrames + [AgentFrame(id, st.turns.queue[0], |st.log.dequeued|)]))
  }

  // ----- events -----

  datatype Event =
    | EnsureConnected
    | ReconnectTimerFires
    | WaitEnds(reachable: bool, created: bool, s: nat)
    | SocketOpens(s: nat, id: string, sent: bool)
    | SocketFails(s: nat)
    | SocketCloses(s: nat)
    | ChallengeTimerFires(id: string, sent: bool)
    | ChallengeArrives(s: nat, nonce: string, id: string, sent: bool)
    | ConnectAnswered(s: nat, answered: string, msg: Json, id: string, sent: bool)
    | Enqueue(item: Item, id: string, sent: bool)
    | AgentAnswered(s: nat, answered: string, ok: bool)
    | TurnTimesOut
    | FallbackSettles
    | TurnContinues(id: string, sent: bool)
    | Destroy

  /** What the runtime can deliver: ids and sockets are fresh, and a gateway answers only ids that were sent to it. */
  predicate Possible(st: State, e: Event) {
    match e
    case EnsureConnected => true
    case ReconnectTimerFires => st.link.reconnectTimer
    case WaitEnds(_, _, s) => st.link.waiting && s !in st.link.sockets
    case SocketOpens(s, id, _) => s in st.link.sockets && st.link.sockets[s] == Opening && id !in st.usedIds
    case SocketFails(s) => Live(st.link.sockets, s)
    case SocketCloses(s) => Live(st.link.sockets, s)
    case ChallengeTimerFires(id, _) => st.shake.challengeTimer && id !in st.usedIds
    case ChallengeArrives(s, _, id, _) => s in st.link.sockets && st.link.sockets[s] in {Open, Closing} && id !in st.usedIds
    case ConnectAnswered(s, answered, _, id, _) =>
      s in st.link.sockets && st.link.sockets[s] in {Open, Closing} && id !in st.usedIds &&
      answered in st.pending && st.pending[answered].ConnectReply? &&
      SentOn(st.log.connects, st.pending[answered].socket, answered)
    case Enqueue(_, id, _) => id !in st.usedIds
    case AgentAnswered(s, answered, _) =>
      s in st.link.sockets && st.link.sockets[s] in {Open, Closing} &&
      answered in st.pending && st.pending[answered].AgentReply?
    case TurnTimesOut => st.turns.turn.AwaitReply?
    case FallbackSettles => st.turns.turn.AwaitFallback?
    case TurnContinues(id, _) => st.turns.turn.Resolved? && id !in st.usedIds
    case Destroy => true
  }

  /** An answer comes in on the socket its request went out on, and not on one opened later. */
  predicate OnItsSocket(st: State, e: Event) {
    (e.ConnectAnswered? || e.AgentAnswered?) && e.answered in st.pending ==> st.pending[e.answered].socket == e.s
  }

  function OnEnsureConnected(st: State): State {
    st.(link := if st.link.gatewayWs.None? || SocketIs(st.link, Closed) then Connect(st.link) else st.link,
        log := st.log.(started := true))
  }

  function OnReconnectTimer(st: State): State {
    var fired := st.link.(reconnectTimer := false);
    st.(link := if !fired.destroyed && fired.gatewayWs.None? then Connect(fired) else fired)
  }

  function OnWaitEnds(st: State, reachable: bool, created: bool, s: nat): State {
    var done := st.link.(waiting := false);
    st.(link := if !reachable || done.destroyed || !created then ScheduleReconnect(done.(connecting := false))
                else done.(gatewayWs := Some(s), sockets := done.sockets[s := Opening]))
  }

  function OnOpen(c: Config, st: State, s: nat, id: string, sent: bool): State {
    BeginHandshake(c, st.(link := st.link.(sockets := st.link.sockets[s := Open], connecting := false)), id, sent)
  }

  /** The socket fails and starts to close; its `close` event follows. */
  function OnSocketFails(st: State, s: nat): State {
    st.(link := st.link.(sockets := st.link.sockets[s := Closing]))
  }

  function OnClose(st: State, s: nat): State {
    st.(link := ScheduleReconnect(st.link.(sockets := st.link.sockets[s := Closed], connecting := false, gatewayWs := None)),
        shake := Handshake(false, "", false, false))
  }

  function OnChallengeTimer(c: Config, st: State, id: string, sent: bool): State {
    var fired := st.(shake := st.shake.(challengeTimer := false));
    if st.link.destroyed || st.shake.connectSent || st.link.gatewayWs.None? then fired
    else if c.legacyBlind then SendConnect(fired, true, "", id, sent)
    else fired.(link := CloseGateway(st.link))
  }

  /** A nonce comes in on socket `s`. */
  function Note(st: State, s: nat, nonce: string, shake: Handshake): State {
    st.(shake := shake, log := st.log.(nonces := st.log.nonces + {Received(s, nonce)}))
  }

  /** `_handleConnectChallengeEvent` with the trimmed nonce, blank when there is none. */
  function OnChallenge(c: Config, st: State, s: nat, nonce: string, id: string, sent: bool): State {
    if nonce == "" then st.(link := CloseGateway(st.link))
    else
      var noted := Note(st, s, nonce, st.shake.(challengeTimer := false, connectNonce := nonce));
      if st.shake.connectSent then noted else SendConnect(noted, c.insecureSkip, nonce, id, sent)
  }

  /** `_finishConnectSuccess`. */
  function OnHello(c: Config, st: State, s: nat, msg: Json, id: string, sent: bool): State {
    if !Authorized(msg) then st.(link := CloseGateway(st.link))
    else
      var log := st.log.(hellos := st.log.hellos[s := msg]);
      Drain(c, st.(shake := st.shake.(gatewayConnected := true), log := log), id, sent)
  }

  /** The rest of the continuation of a connect request, when the reply is not ok. */
  function OnRefusal(c: Config, st: State, s: nat, omitDevice: bool, nonce: string, id: string, sent: bool): State {
    if nonce != "" && omitDevice
    then SendConnect(Note(st, s, nonce, st.shake.(connectNonce := nonce, connectSent := false)), c.insecureSkip, nonce, id, sent)
    else st.(link := CloseGateway(st.link))
  }

  function OnConnectAnswer(c: Config, st: State, s: nat, answered: string, msg: Json, id: string, sent: bool): State
    requires answered in st.pending && st.pending[answered].ConnectReply?
  {
    var taken := st.(pending := st.pending - {answered});
    if IsOk(msg) then OnHello(c, taken, s, msg, id, sent)
    else OnRefusal(c, taken, s, st.pending[answered].omitDevice, ChallengeIn(msg), id, sent)
  }

  function OnEnqueue(c: Config, st: State, item: Item, id: string, sent: bool): State {
    Drain(c, st.(turns := st.turns.(queue := st.turns.queue + [item]), log := st.log.(enqueued := st.log.enqueued + [item])),
          id, sent)
  }

  /** The continuation of an agent request: a refusal first asks the fallback provider. */
  function OnAgentAnswer(st: State, answered: string, ok: bool): State {
    st.(pending := st.pending - {answered}, turns := st.turns.(turn := if ok then Resolved else AwaitFallback))
  }

  function OnTurnTimeout(st: State): State
    requires st.turns.turn.AwaitReply?
  {
    st.(pending := st.pending - {st.turns.turn.id}, turns := st.turns.(turn := Resolved))
  }

  function OnFallbackSettles(st: State): State {
    st.(turns := st.turns.(turn := Resolved))
  }

  /** The `finally` of `_drainQueue`. */
  function OnTurnContinues(c: Config, st: State, id: string, sent: bool): State {
    Drain(c, st.(turns := st.turns.(inFlight := false, turn := NoTurn)), id, sent)
  }

  function OnDestroy(st: State): State {
    st.(link := CloseGateway(st.link).(destroyed := true, reconnectTimer := false, gatewayWs := None),
        shake := st.shake.(challengeTimer := false, gatewayConnected := false), pending := map[],
        turns := st.turns.(queue := []))
  }

  function Step(c: Config, st: State, e: Event): State
    requires Possible(st, e)
  {
    match e
    case EnsureConnected => OnEnsureConnected(st)
    case ReconnectTimerFires => OnReconnectTimer(st)
    case WaitEnds(reachable, created, s) => OnWaitEnds(st, reachable, created, s)
    case SocketOpens(s, id, sent) => OnOpen(c, st, s, id, sent)
    case SocketFails(s) => OnSocketFails(st, s)
    case SocketCloses(s) => OnClose(st, s)
    case ChallengeTimerFires(id, sent) => OnChallengeTimer(c, st, id, sent)
    case ChallengeArrives(s, nonce, id, sent) => OnChallenge(c, st, s, nonce, id, sent)
    case ConnectAnswered(s, answered, msg, id, sent) => OnConnectAnswer(c, st, s, answered, msg, id, sent)
    case Enqueue(item, id, sent) => OnEnqueue(c, st, item, id, sent)
    case AgentAnswered(_, answered, ok) => OnAgentAnswer(st, answered, ok)
    case TurnTimesOut => OnTurnTimeout(st)
    case FallbackSettles => OnFallbackSettles(st)
    case TurnContinues(id, sent) => OnTurnContinues(c, st, id, sent)
    case Destroy => OnDestroy(st)
  }

  /** A state that some sequence of events leads to; requests of a closed socket may still be answered on the next one. */
  ghost predicate Reaches(c: Config, events: seq<Event>, st: State) {
    if events == [] then st == INITIAL
    else
      var n := |events| - 1;
      exists before :: Reaches(c, events[..n], before) && Possible(before, events[n]) && st == Step(c, before, events[n])
  }

  /** The same, when every answer comes in on the socket of its request. */
  ghost predicate ReachesOwn(c: Config, events: seq<Event>, st: State) {
    if events == [] then st == INITIAL
    else
      var n := |events| - 1;
      exists before :: ReachesOwn(c, events[..n], before) && Possible(before, events[n]) && OnItsSocket(before, events[n]) &&
                       st == Step(c, before, events[n])
  }
}
