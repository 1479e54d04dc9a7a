/** What holds after every run of the gateway client. */
module GatewayRuns {
  import opened Json
  import opened GatewayMachine
  import opened GatewayLaws

  lemma StepKeeps(c: Config, st: State, e: Event)
    requires Inv(c, st) && Possible(st, e)
    ensures Inv(c, Step(c, st, e)) && (Own(c, st) && OnItsSocket(st, e) ==> Own(c, Step(c, st, e)))
  {
    match e
    case EnsureConnected => EnsureConnectedKeeps(c, st);
    case ReconnectTimerFires => ReconnectTimerKeeps(c, st);
    case WaitEnds(reachable, created, s) => WaitEndsKeeps(c, st, reachable, created, s);
    case SocketOpens(s, id, sent) =>
      OpenKeeps(c, st, s, id, sent);
      if Own(c, st) { OpenKeepsOwn(c, st, s, id, sent); }
    case SocketFails(s) => SocketFailsKeeps(c, st, s);
    case SocketCloses(s) => CloseKeeps(c, st, s);
    case ChallengeTimerFires(id, sent) => ChallengeTimerKeeps(c, st, id, sent);
    case ChallengeArrives(s, nonce, id, sent) => ChallengeKeeps(c, st, s, nonce, id, sent);
    case ConnectAnswered(s, answered, msg, id, sent) => ConnectAnswerKeeps(c, st, s, answered, msg, id, sent);
    case Enqueue(item, id, sent) => EnqueueKeeps(c, st, item, id, sent);
    case AgentAnswered(s, answered, ok) => AgentAnswerKeeps(c, st, s, answered, ok);
    case TurnTimesOut => TurnTimeoutKeeps(c, st);
    case FallbackSettles =>
    case TurnContinues(id, sent) => TurnContinuesKeeps(c, st, id, sent);
    case Destroy => DestroyKeeps(c, st);
  }

  /** The same without the frame bound. */
  lemma EventKeeps(c: Config, st: State, e: Event)
    requires Inv(c, st) && Possible(st, e)
    ensures Inv(c, Step(c, st, e))
  {
    StepKeeps(c, st, e);
  }

  lemma {:induction false} EveryRunKeeps(c: Config, events: seq<Event>, st: State)
    requires Reaches(c, events, st)
    ensures Inv(c, st)
    decreases |events|
  {
    if events != [] {
      var n := |events| - 1;
      var before :| Reaches(c, events[..n], before) && Possible(before, events[n]) && st == Step(c, before, events[n]);
      EveryRunKeeps(c, events[..n], before);
      StepKeeps(c, before, events[n]);
    }
  }

  lemma {:induction false} OwnRunKeeps(c: Config, events: seq<Event>, st: State)
    requires ReachesOwn(c, events, st)
    ensures Reaches(c, events, st) && Inv(c, st) && Own(c, st)
    decreases |events|
  {
    if events != [] {
      var n := |events| - 1;
      var before :| ReachesOwn(c, events[..n], before) && Possible(before, events[n]) && OnItsSocket(before, events[n]) &&
                    st == Step(c, before, events[n]);
      OwnRunKeeps(c, events[..n], before);
      StepKeeps(c, before, events[n]);
    }
  }

  // ----- the history fields record the events -----

  /** The event brings a challenge nonce on socket `s`: a challenge event, or a refusal that carries one. */
  predicate Delivers(e: Event, s: nat, nonce: string) {
    nonce != "" &&
    ((e.ChallengeArrives? && e.s == s && e.nonce == nonce) ||
     (e.ConnectAnswered? && e.s == s && !IsOk(e.msg) && ChallengeIn(e.msg) == nonce))
  }

  /** The event is an ok reply to a connect request on `s` that grants what the client needs. */
  predicate Grants(e: Event, s: nat) {
    e.ConnectAnswered? && e.s == s && IsOk(e.msg) && Authorized(e.msg)
  }

  function EnqueuedBy(events: seq<Event>): seq<Item> {
    if events == [] then []
    else
      var last := events[|events| - 1];
      EnqueuedBy(events[..|events| - 1]) + if last.Enqueue? then [last.item] else []
  }

  /** One event on the log: what it may add to nonces and hellos, and what it adds to the rest. */
  ghost predicate Adds(e: Event, log: Log, after: Log) {
    (forall p :: p in after.nonces ==> p in log.nonces || Delivers(e, p.socket, p.nonce)) &&
    (forall s: nat :: s in after.hellos ==> s in log.hellos || Grants(e, s)) &&
    after.enqueued == log.enqueued + (if e.Enqueue? then [e.item] else []) &&
    after.started == (log.started || e.EnsureConnected?)
  }

  lemma HelloHistory(c: Config, st: State, s: nat, msg: Json, id: string, sent: bool)
    ensures var r := OnHello(c, st, s, msg, id, sent);
            r.log.nonces == st.log.nonces && r.log.enqueued == st.log.enqueued && r.log.started == st.log.started &&
            r.link.destroyed == st.link.destroyed &&
            (r.log.hellos == st.log.hellos || (Authorized(msg) && r.log.hellos == st.log.hellos[s := msg]))
  {
  }

  lemma RefusalHistory(c: Config, st: State, s: nat, omitDevice: bool, n: string, id: string, sent: bool)
    ensures var r := OnRefusal(c, st, s, omitDevice, n, id, sent);
            r.log.hellos == st.log.hellos && r.log.enqueued == st.log.enqueued && r.log.started == st.log.started &&
            r.link.destroyed == st.link.destroyed &&
            (r.log.nonces == st.log.nonces || (n != "" && r.log.nonces == st.log.nonces + {Received(s, n)}))
  {
  }

  lemma AnswerAdds(c: Config, st: State, e: Event)
    requires e.ConnectAnswered? && Possible(st, e)
    ensures var r := Step(c, st, e); Adds(e, st.log, r.log) && r.link.destroyed == st.link.destroyed
  {
    var taken := st.(pending := st.pending - {e.answered});
    HelloHistory(c, taken, e.s, e.msg, e.id, e.sent);
    RefusalHistory(c, taken, e.s, st.pending[e.answered].omitDevice, ChallengeIn(e.msg), e.id, e.sent);
  }

  lemma TurnAdds(c: Config, st: State, e: Event)
    requires (e.Enqueue? || e.TurnContinues?) && Possible(st, e)
    ensures var r := Step(c, st, e); Adds(e, st.log, r.log) && r.link.destroyed == st.link.destroyed
  {
  }

  lemma SendAdds(st: State, omitDevice: bool, nonce: string, id: string, sent: bool)
    ensures var r := SendConnect(st, omitDevice, nonce, id, sent);
            r.link == st.link && r.log == st.log.(connects := r.log.connects)
  {
  }

  lemma OpenAdds(c: Config, st: State, e: Event)
    requires e.SocketOpens? && Possible(st, e)
    ensures var r := Step(c, st, e); Adds(e, st.log, r.log) && r.link.destroyed == st.link.destroyed
  {
    if c.insecureSkip || c.legacyBlind { SendAdds(Opened(st, e.s), true, "", e.id, e.sent); }
  }

  lemma ChallengeAdds(c: Config, st: State, e: Event)
    requires (e.ChallengeTimerFires? || e.ChallengeArrives?) && Possible(st, e)
    ensures var r := Step(c, st, e); Adds(e, st.log, r.log) && r.link.destroyed == st.link.destroyed
  {
    if e.ChallengeArrives? {
      SendAdds(Noted(st, e.s, e.nonce), c.insecureSkip, e.nonce, e.id, e.sent);
    } else {
      SendAdds(st.(shake := st.shake.(challengeTimer := false)), true, "", e.id, e.sent);
    }
  }

  lemma StepHistory(c: Config, st: State, e: Event)
    requires Possible(st, e)
    ensures Adds(e, st.log, Step(c, st, e).log)
    ensures Step(c, st, e).link.destroyed == (st.link.destroyed || e.Destroy?)
  {
    if e.ConnectAnswered? {
      AnswerAdds(c, st, e);
    } else if e.Enqueue? || e.TurnContinues? {
      TurnAdds(c, st, e);
    } else if e.SocketOpens? {
      OpenAdds(c, st, e);
    } else if e.ChallengeTimerFires? || e.ChallengeArrives? {
      ChallengeAdds(c, st, e);
    }
  }

  /** Some event of the run satisfies `Delivers`, or `Grants`. */
  ghost predicate Delivered(events: seq<Event>, s: nat, nonce: string) {
    exists e :: e in events && Delivers(e, s, nonce)
  }

  ghost predicate Granted(events: seq<Event>, s: nat) {
    exists e :: e in events && Grants(e, s)
  }

  lemma {:induction false} HistoryIsReal(c: Config, events: seq<Event>, st: State)
    requires Reaches(c, events, st)
    ensures forall p :: p in st.log.nonces ==> Delivered(events, p.socket, p.nonce)
    ensures forall s: nat :: s in st.log.hellos ==> Granted(events, s)
    ensures st.log.enqueued == EnqueuedBy(events)
    ensures (st.log.started <==> EnsureConnected in events) && (st.link.destroyed <==> Destroy in events)
    decreases |events|
  {
    if events != [] {
      var n := |events| - 1;
      var before :| Reaches(c, events[..n], before) && Possible(before, events[n]) && st == Step(c, before, events[n]);
      HistoryIsReal(c, events[..n], before);
      StepHistory(c, before, events[n]);
      HistoryGrows(events[..n], events[n], before, st);
      assert events == events[..n] + [events[n]];
    }
  }

  lemma HistoryGrows(events: seq<Event>, e: Event, before: State, st: State)
    requires Adds(e, before.log, st.log) && st.link.destroyed == (before.link.destroyed || e.Destroy?)
    requires forall p :: p in before.log.nonces ==> Delivered(events, p.socket, p.nonce)
    requires forall s: nat :: s in before.log.hellos ==> Granted(events, s)
    requires before.log.enqueued == EnqueuedBy(events)
    requires (before.log.started <==> EnsureConnected in events) && (before.link.destroyed <==> Destroy in events)
    ensures forall p :: p in st.log.nonces ==> Delivered(events + [e], p.socket, p.nonce)
    ensures forall s: nat :: s in st.log.hellos ==> Granted(events + [e], s)
    ensures st.log.enqueued == EnqueuedBy(events + [e])
    ensures (st.log.started <==> EnsureConnected in events + [e]) && (st.link.destroyed <==> Destroy in events + [e])
  {
    var all := events + [e];
    assert all[..|all| - 1] == events;
    forall p | p in st.log.nonces ensures Delivered(all, p.socket, p.nonce) {
      if p in before.log.nonces {
        var d :| d in events && Delivers(d, p.socket, p.nonce);
        assert d in all;
      } else {
        assert e in all && Delivers(e, p.socket, p.nonce);
      }
    }
    forall s: nat | s in st.log.hellos ensures Granted(all, s) {
      if s in before.log.hellos {
        var d :| d in events && Grants(d, s);
        assert d in all;
      } else {
        assert e in all && Grants(e, s);
      }
    }
  }

  // ----- the theorems -----

  /** Whatever the interleaving of waits, opens, closes and timers, two sockets are never open at once. */
  lemma NeverDoubled(c: Config, events: seq<Event>, st: State, s: nat, t: nat)
    requires Reaches(c, events, st) && Live(st.link.sockets, s)
    ensures Live(st.link.sockets, t) ==> s == t
    ensures if Destroy in events then st.link.sockets[s] == Closing else st.link.gatewayWs == Some(s)
  {
    EveryRunKeeps(c, events, st);
    HistoryIsReal(c, events, st);
  }

  /** A started client waits for the port, holds a socket that has not closed, or has its timer armed. */
  lemma NeverStranded(c: Config, events: seq<Event>, st: State)
    requires Reaches(c, events, st) && EnsureConnected in events && Destroy !in events
    ensures st.link.waiting || st.link.reconnectTimer || (st.link.gatewayWs.Some? && Live(st.link.sockets, st.link.gatewayWs.value))
  {
    EveryRunKeeps(c, events, st);
    HistoryIsReal(c, events, st);
  }

  /**
   When answers come in on the socket of their request, a socket carries at most two
   connect frames; only the last can have a device block, built with a nonce that came
   in on that same socket.
   */
  lemma HandshakeBound(c: Config, events: seq<Event>, st: State, s: nat, k: nat)
    requires ReachesOwn(c, events, st) && !c.insecureSkip
    ensures var frames := FramesOn(st.log.connects, s);
            |frames| <= 2 &&
            (k < |frames| && frames[k].device.Some? ==> k == |frames| - 1 && Delivered(events, s, frames[k].device.value))
  {
    OwnRunKeeps(c, events, st);
    HistoryIsReal(c, events, st);
    if s in st.log.connects { BoundOn(s, st.log.connects[s], st.log.nonces, k); }
  }

  lemma BoundOn(s: nat, frames: seq<ConnectFrame>, nonces: set<Received>, k: nat)
    requires Bounded(s, frames, nonces)
    ensures k < |frames| && frames[k].device.Some? ==> k == |frames| - 1 && Received(s, frames[k].device.value) in nonces
  {
  }

  /**
   The client counts as connected only after an ok reply came in on the socket it holds, with enough
   granted; and on a socket that never carried a connect frame only by an answer to an older one.
   */
  lemma ConnectedOnlyWhenGranted(c: Config, events: seq<Event>, st: State)
    requires Reaches(c, events, st) && st.shake.gatewayConnected
    ensures st.link.gatewayWs.Some? && Granted(events, st.link.gatewayWs.value)
    ensures ReachesOwn(c, events, st) ==> st.link.gatewayWs.value in st.log.connects
  {
    EveryRunKeeps(c, events, st);
    HistoryIsReal(c, events, st);
    if ReachesOwn(c, events, st) { OwnRunKeeps(c, events, st); }
  }

  /**
   Until `destroy`, every enqueued item is either taken or still queued, in the order it came;
   items go to the gateway in that order, each at most once and one at a time; and nothing
   waits while the gateway or the fallback could take it.
   */
  lemma TurnsInOrder(c: Config, events: seq<Event>, st: State)
    requires Reaches(c, events, st) && Destroy !in events
    ensures EnqueuedBy(events) == st.log.dequeued + st.turns.queue
    ensures forall i :: 0 <= i < |st.log.agentFrames| ==>
              var f := st.log.agentFrames[i]; f.position < |st.log.dequeued| && f.item == EnqueuedBy(events)[f.position]
    ensures forall i, j :: 0 <= i < j < |st.log.agentFrames| ==> st.log.agentFrames[i].position < st.log.agentFrames[j].position
    ensures forall a, b :: a in st.pending && b in st.pending && st.pending[a].AgentReply? && st.pending[b].AgentReply? ==>
              a == b && st.turns.inFlight
    ensures st.turns.queue != [] && !st.turns.inFlight ==> !CanSend(st) && !c.autoFallback
  {
    EveryRunKeeps(c, events, st);
    HistoryIsReal(c, events, st);
  }

  // ----- with insecure-skip on, the bound fails -----

  /** A refusal that carries a challenge. */
  const REFUSAL := Obj(["payload"], map["payload" :=
    Obj(["challenge"], map["challenge" := Obj(["nonce"], map["nonce" := Str("n")])])])

  function Id(n: nat): (id: string)
    ensures |id| == n
  {
    seq(n, _ => 'a')
  }

  /** Socket 0 is open, its last connect is unanswered, and no id of length `n` or more is used. */
  ghost predicate Waiting(st: State, n: nat) {
    st.link.gatewayWs == Some(0) && 0 in st.link.sockets && st.link.sockets[0] == Open && Id(n) in st.pending &&
    st.pending[Id(n)] == ConnectReply(true, 0) && SentOn(st.log.connects, 0, Id(n)) && forall id :: id in st.usedIds ==> |id| <= n
  }

  lemma RefusalChallenges()
    ensures !IsOk(REFUSAL) && ChallengeIn(REFUSAL) == "n"
  {
    var nonce := Obj(["nonce"], map["nonce" := Str("n")]);
    assert Trim("n") == "n";
    assert Child(At(REFUSAL, "payload"), "challenge") == Some(nonce);
    assert NonceText(Some(nonce)) == "n";
  }

  lemma Extend(c: Config, events: seq<Event>, st: State, e: Event)
    requires ReachesOwn(c, events, st) && Possible(st, e) && OnItsSocket(st, e)
    ensures ReachesOwn(c, events + [e], Step(c, st, e))
  {
    var all := events + [e];
    assert all[..|all| - 1] == events;
  }

  lemma NextBlindFrame(c: Config, st: State, n: nat)
    requires c.insecureSkip && Waiting(st, n)
    ensures var e := ConnectAnswered(0, Id(n), REFUSAL, Id(n + 1), true); Possible(st, e) && OnItsSocket(st, e)
    ensures var r := OnConnectAnswer(c, st, 0, Id(n), REFUSAL, Id(n + 1), true);
            Waiting(r, n + 1) && |FramesOn(r.log.connects, 0)| == |FramesOn(st.log.connects, 0)| + 1
  {
    RefusalChallenges();
    assert Id(n + 1) !in st.usedIds;
  }

  /** The client has started, waited for the port, and made its first socket. */
  predicate FirstOpening(st: State) {
    st.link == Link(Some(0), true, false, false, false, map[0 := Opening]) && st.shake == Handshake(false, "", false, false) &&
    st.turns == Turns([], false, NoTurn) && st.pending == map[] && st.usedIds == {} &&
    st.log == Log(true, map[], {}, map[], [], [], [])
  }

  lemma Starts(c: Config) returns (events: seq<Event>, st: State)
    ensures ReachesOwn(c, events, st) && FirstOpening(st)
  {
    assert ReachesOwn(c, [], INITIAL);
    Extend(c, [], INITIAL, EnsureConnected);
    events, st := [] + [EnsureConnected], OnEnsureConnected(INITIAL);
    Extend(c, events, st, WaitEnds(true, true, 0));
    events, st := events + [WaitEnds(true, true, 0)], OnWaitEnds(st, true, true, 0);
  }

  /** A run in which the first socket has just opened. */
  lemma FirstOpens(c: Config) returns (events: seq<Event>, opening: State)
    ensures FirstOpening(opening) && ReachesOwn(c, events, OnOpen(c, opening, 0, Id(0), true))
  {
    events, opening := Starts(c);
    Extend(c, events, opening, SocketOpens(0, Id(0), true));
    events := events + [SocketOpens(0, Id(0), true)];
  }

  lemma FirstWaits(c: Config, opening: State)
    requires c.insecureSkip && FirstOpening(opening)
    ensures var st := OnOpen(c, opening, 0, Id(0), true); Waiting(st, 0) && |FramesOn(st.log.connects, 0)| == 1
  {
  }

  /** A gateway that answers every connect with a challenge is sent one blind frame after another. */
  lemma {:induction false} BlindForever(c: Config, n: nat) returns (events: seq<Event>, st: State)
    requires c.insecureSkip
    ensures ReachesOwn(c, events, st) && Waiting(st, n) && |FramesOn(st.log.connects, 0)| == n + 1
  {
    if n == 0 {
      var opening;
      events, opening := FirstOpens(c);
      FirstWaits(c, opening);
      st := OnOpen(c, opening, 0, Id(0), true);
    } else {
      var earlier, before := BlindForever(c, n - 1);
      NextBlindFrame(c, before, n - 1);
      var e := ConnectAnswered(0, Id(n - 1), REFUSAL, Id(n), true);
      Extend(c, earlier, before, e);
      events := earlier + [e];
      st := OnConnectAnswer(c, before, 0, Id(n - 1), REFUSAL, Id(n), true);
    }
  }

  /** When answers come in on the socket of their request, the bound holds for every run exactly when insecure-skip is off. */
  lemma HandshakeBoundExactly(c: Config)
    ensures !c.insecureSkip <==>
              forall events, st, s: nat :: ReachesOwn(c, events, st) ==> |FramesOn(st.log.connects, s)| <= 2
  {
    if c.insecureSkip {
      var events, st := BlindForever(c, 2);
      assert ReachesOwn(c, events, st) && |FramesOn(st.log.connects, 0)| == 3;
    } else {
      forall events, st, s: nat | ReachesOwn(c, events, st) ensures |FramesOn(st.log.connects, s)| <= 2 {
        HandshakeBound(c, events, st, s, 0);
      }
    }
  }
}
