/**
 What keeps the gateway client going: an open socket that is not connected yet waits for
 something that will come, the client closes its socket exactly when it should, and a turn
 in flight always has a way to end.
 */
module GatewayProgress {
  import opened Json
  import opened JsText
  import opened ReplyText
  import opened GatewayMachine
  import opened GatewayLaws
  import opened GatewayRuns
  import opened GatewayStale

  // ----- an open socket waits for something -----

  /** A connect that went out on the socket held is unanswered. */
  ghost predicate ConnectOut(st: State) {
    st.link.gatewayWs.Some? &&
    exists id :: id in st.pending && st.pending[id].ConnectReply? && st.pending[id].socket == st.link.gatewayWs.value &&
                 SentOn(st.log.connects, st.link.gatewayWs.value, id)
  }

  /** While the socket held is open and the client not connected: a connect is out, or the challenge timer is armed. */
  ghost predicate Expecting(st: State) {
    SocketIs(st.link, Open) && !st.shake.gatewayConnected ==>
      if st.shake.connectSent then ConnectOut(st) else st.shake.challengeTimer
  }

  /** If the event sends a connect, it goes out. */
  predicate Sends(e: Event) {
    e.SocketOpens? || e.ChallengeTimerFires? || e.ChallengeArrives? || e.ConnectAnswered? ==> e.sent
  }

  lemma SentIsOut(st: State, omitDevice: bool, nonce: string, id: string)
    requires SocketIs(st.link, Open)
    ensures var r := SendConnect(st, omitDevice, nonce, id, true); r.shake.connectSent && ConnectOut(r)
  {
    var r := SendConnect(st, omitDevice, nonce, id, true);
    var s := st.link.gatewayWs.value;
    var frames := FramesOn(r.log.connects, s);
    assert frames[|frames| - 1].id == id;
    assert SentOn(r.log.connects, s, id);
    assert id in r.pending && r.pending[id].ConnectReply? && r.pending[id].socket == s;
  }

  /** A connect stays out while its pending entry, its frame and its socket stay. */
  lemma StaysOut(st: State, r: State)
    requires ConnectOut(st) && r.link.gatewayWs == st.link.gatewayWs && r.log.connects == st.log.connects
    requires forall id | id in st.pending && st.pending[id].ConnectReply? :: id in r.pending && r.pending[id] == st.pending[id]
    ensures ConnectOut(r)
  {
    var id :| id in st.pending && st.pending[id].ConnectReply? && st.pending[id].socket == st.link.gatewayWs.value &&
              SentOn(st.log.connects, st.link.gatewayWs.value, id);
    assert id in r.pending && r.pending[id].ConnectReply?;
  }

  lemma DrainExpects(c: Config, st: State, id: string, sent: bool)
    requires Expecting(st) && PendingOk(st.pending, st.usedIds, st.log.connects) && id !in st.usedIds
    ensures Expecting(Drain(c, st, id, sent))
  {
    if ConnectOut(st) { StaysOut(st, Drain(c, st, id, sent)); }
  }

  lemma OpenExpects(c: Config, st: State, e: Event)
    requires Inv(c, st) && e.SocketOpens? && Possible(st, e) && e.sent
    ensures Expecting(Step(c, st, e))
  {
    if c.insecureSkip || c.legacyBlind { SentIsOut(Opened(st, e.s), true, "", e.id); }
  }

  lemma TimerExpects(c: Config, st: State, e: Event)
    requires Inv(c, st) && Expecting(st) && e.ChallengeTimerFires? && Possible(st, e) && e.sent
    ensures Expecting(Step(c, st, e))
  {
    var fired := st.(shake := st.shake.(challengeTimer := false));
    if st.shake.connectSent {
      if ConnectOut(st) { StaysOut(st, fired); }
    } else if SocketIs(st.link, Open) && c.legacyBlind {
      SentIsOut(fired, true, "", e.id);
    }
  }

  lemma ChallengeExpects(c: Config, st: State, e: Event)
    requires Inv(c, st) && Expecting(st) && e.ChallengeArrives? && Possible(st, e) && e.sent
    ensures Expecting(Step(c, st, e))
  {
    if e.nonce != "" {
      if st.shake.connectSent {
        if ConnectOut(st) { StaysOut(st, Noted(st, e.s, e.nonce)); }
      } else if SocketIs(st.link, Open) {
        SentIsOut(Noted(st, e.s, e.nonce), c.insecureSkip, e.nonce, e.id);
      }
    }
  }

  lemma AnswerExpects(c: Config, st: State, e: Event)
    requires Inv(c, st) && Expecting(st) && e.ConnectAnswered? && Possible(st, e) && e.sent
    ensures Expecting(Step(c, st, e))
  {
    var taken := st.(pending := st.pending - {e.answered});
    if IsOk(e.msg) && Authorized(e.msg) {
      DrainConnection(c, Greeted(taken, e.s, e.msg), e.id, e.sent);
    } else if !IsOk(e.msg) && ChallengeIn(e.msg) != "" && st.pending[e.answered].omitDevice && SocketIs(st.link, Open) {
      SentIsOut(Note(taken, e.s, ChallengeIn(e.msg), st.shake.(connectNonce := ChallengeIn(e.msg), connectSent := false)),
                c.insecureSkip, ChallengeIn(e.msg), e.id);
    }
  }

  lemma TurnExpects(c: Config, st: State, e: Event)
    requires Inv(c, st) && Expecting(st) && Possible(st, e)
    requires e.Enqueue? || e.TurnContinues? || e.AgentAnswered? || e.TurnTimesOut? || e.FallbackSettles?
    ensures Expecting(Step(c, st, e))
  {
    if e.Enqueue? {
      if ConnectOut(st) { StaysOut(st, Queued(st, e.item)); }
      DrainExpects(c, Queued(st, e.item), e.id, e.sent);
    } else if e.TurnContinues? {
      var freed := st.(turns := st.turns.(inFlight := false, turn := NoTurn));
      if ConnectOut(st) { StaysOut(st, freed); }
      DrainExpects(c, freed, e.id, e.sent);
    } else if ConnectOut(st) {
      StaysOut(st, Step(c, st, e));
    }
  }

  lemma LinkExpects(c: Config, st: State, e: Event)
    requires Inv(c, st) && Expecting(st) && Possible(st, e)
    requires e.EnsureConnected? || e.ReconnectTimerFires? || e.WaitEnds? || e.SocketFails? || e.SocketCloses? || e.Destroy?
    ensures Expecting(Step(c, st, e))
  {
    var r := Step(c, st, e);
    if SocketIs(r.link, Open) && ConnectOut(st) && !e.Destroy? && !e.SocketCloses? { StaysOut(st, r); }
  }

  lemma StepExpects(c: Config, st: State, e: Event)
    requires Inv(c, st) && Expecting(st) && Possible(st, e) && Sends(e)
    ensures Expecting(Step(c, st, e))
  {
    if e.SocketOpens? { OpenExpects(c, st, e); }
    else if e.ChallengeTimerFires? { TimerExpects(c, st, e); }
    else if e.ChallengeArrives? { ChallengeExpects(c, st, e); }
    else if e.ConnectAnswered? { AnswerExpects(c, st, e); }
    else if e.Enqueue? || e.TurnContinues? || e.AgentAnswered? || e.TurnTimesOut? || e.FallbackSettles? { TurnExpects(c, st, e); }
    else { LinkExpects(c, st, e); }
  }

  lemma {:induction false} RunExpects(c: Config, events: seq<Event>, st: State)
    requires Reaches(c, events, st) && forall e | e in events :: Sends(e)
    ensures Expecting(st)
    decreases |events|
  {
    if events != [] {
      var n := |events| - 1;
      var before :| Reaches(c, events[..n], before) && Possible(before, events[n]) && st == Step(c, before, events[n]);
      assert events[n] in events && forall e | e in events[..n] :: e in events;
      EveryRunKeeps(c, events[..n], before);
      RunExpects(c, events[..n], before);
      StepExpects(c, before, events[n]);
    }
  }

  /**
   While every send succeeds, a held socket that is open before the client is connected has its
   challenge timer armed, or a connect of its own out and unanswered.
   */
  lemma NeverWaitsForNothing(c: Config, events: seq<Event>, st: State)
    requires Reaches(c, events, st) && (forall e | e in events :: Sends(e))
    requires SocketIs(st.link, Open) && !st.shake.gatewayConnected
    ensures st.shake.challengeTimer || ConnectOut(st)
  {
    RunExpects(c, events, st);
  }

  /** The state after the first socket opened and its connect, or the answer to its challenge, could not be sent. */
  ghost predicate Stranded(st: State) {
    SocketIs(st.link, Open) && !st.shake.gatewayConnected && !st.shake.challengeTimer && !st.link.reconnectTimer &&
    !st.link.waiting && st.log.connects == map[]
  }

  /** A client that has just opened its first socket and not been heard. */
  ghost predicate Unheard(st: State) {
    SocketIs(st.link, Open) && st.link.gatewayWs == Some(0) && !st.link.reconnectTimer && !st.link.waiting &&
    !st.shake.gatewayConnected && !st.shake.connectSent && st.log.connects == map[]
  }

  lemma StrandedAtChallenge(c: Config, st: State, nonce: string, id: string)
    requires Unheard(st) && nonce != ""
    ensures Stranded(OnChallenge(c, st, 0, nonce, id, false))
  {
  }

  lemma NothingOut(st: State)
    requires st.log.connects == map[]
    ensures !ConnectOut(st)
  {
  }

  /** One failed send is enough to leave the client with an open socket and nothing to wait for. */
  lemma FailedSendStrands(c: Config) returns (events: seq<Event>, st: State)
    ensures Reaches(c, events, st) && Stranded(st) && !ConnectOut(st)
  {
    var opening;
    events, opening := Starts(c);
    OwnRunKeeps(c, events, opening);
    ExtendAny(c, events, opening, SocketOpens(0, Id(0), false));
    events, st := events + [SocketOpens(0, Id(0), false)], OnOpen(c, opening, 0, Id(0), false);
    assert Unheard(st);
    if !c.insecureSkip && !c.legacyBlind {
      ExtendAny(c, events, st, ChallengeArrives(0, "n", Id(1), false));
      StrandedAtChallenge(c, st, "n", Id(1));
      events, st := events + [ChallengeArrives(0, "n", Id(1), false)], OnChallenge(c, st, 0, "n", Id(1), false);
    }
    NothingOut(st);
  }

  // ----- when the client closes its socket, and when it sends a connect -----

  /** The client gives up on its socket. */
  predicate GivesUp(c: Config, st: State, e: Event) {
    (e.ChallengeTimerFires? && !st.shake.connectSent && !c.legacyBlind) ||
    (e.ChallengeArrives? && e.nonce == "") ||
    (e.ConnectAnswered? && IsOk(e.msg) && !Authorized(e.msg)) ||
    (e.ConnectAnswered? && !IsOk(e.msg) && e.answered in st.pending && st.pending[e.answered].ConnectReply? &&
     (ChallengeIn(e.msg) == "" || !st.pending[e.answered].omitDevice))
  }

  lemma DrainLink(c: Config, st: State, e: Event)
    requires (e.Enqueue? || e.TurnContinues? || (e.ConnectAnswered? && IsOk(e.msg) && Authorized(e.msg))) && Possible(st, e)
    ensures Step(c, st, e).link == st.link && Step(c, st, e).log.connects == st.log.connects
  {
    if e.ConnectAnswered? {
      DrainConnection(c, Greeted(st.(pending := st.pending - {e.answered}), e.s, e.msg), e.id, e.sent);
    } else if e.Enqueue? {
      DrainConnection(c, Queued(st, e.item), e.id, e.sent);
    } else {
      DrainConnection(c, st.(turns := st.turns.(inFlight := false, turn := NoTurn)), e.id, e.sent);
    }
  }

  /** An open socket is closed by the client exactly when it gives up on it, and not otherwise. */
  lemma ClosesExactly(c: Config, events: seq<Event>, st: State, e: Event)
    requires Reaches(c, events, st) && SocketIs(st.link, Open) && Possible(st, e)
    requires !e.SocketFails? && !e.SocketCloses? && !e.Destroy?
    ensures var r := Step(c, st, e);
            r.link.gatewayWs == st.link.gatewayWs && SocketIs(r.link, if GivesUp(c, st, e) then Closing else Open)
  {
    EveryRunKeeps(c, events, st);
    if e.Enqueue? || e.TurnContinues? || (e.ConnectAnswered? && IsOk(e.msg) && Authorized(e.msg)) { DrainLink(c, st, e); }
  }

  /** The client sends a connect: right after opening or at the timer when it connects blind, or on a challenge. */
  predicate Connects(c: Config, st: State, e: Event) {
    (e.SocketOpens? && (c.insecureSkip || c.legacyBlind)) ||
    (SocketIs(st.link, Open) &&
     ((e.ChallengeTimerFires? && !st.shake.connectSent && c.legacyBlind) ||
      (e.ChallengeArrives? && e.nonce != "" && !st.shake.connectSent) ||
      (e.ConnectAnswered? && !IsOk(e.msg) && ChallengeIn(e.msg) != "" && e.answered in st.pending &&
       st.pending[e.answered].ConnectReply? && st.pending[e.answered].omitDevice)))
  }

  /** The nonce a connect answers, unless it is sent blind. */
  function Answers(c: Config, e: Event): Option<string> {
    if c.insecureSkip then None
    else if e.ChallengeArrives? then Some(e.nonce)
    else if e.ConnectAnswered? then Some(ChallengeIn(e.msg))
    else None
  }

  lemma SendFrame(st: State, omitDevice: bool, nonce: string, id: string, sent: bool)
    requires SocketIs(st.link, Open)
    ensures var s := st.link.gatewayWs.value;
            var r := SendConnect(st, omitDevice, nonce, id, sent);
            FramesOn(r.log.connects, s) == FramesOn(st.log.connects, s) +
              (if sent then [ConnectFrame(id, if omitDevice || nonce == "" then None else Some(nonce))] else []) &&
            forall t | t != s :: FramesOn(r.log.connects, t) == FramesOn(st.log.connects, t)
  {
  }

  ghost predicate OneMore(c: Config, st: State, e: Event, r: State) {
    var s := if r.link.gatewayWs.Some? then r.link.gatewayWs.value else 0;
    FramesOn(r.log.connects, s) == FramesOn(st.log.connects, s) +
      (if Connects(c, st, e) && Sends(e) then [ConnectFrame(IdOf(e), Answers(c, e))] else [])
  }

  function IdOf(e: Event): string {
    if e.SocketOpens? || e.ChallengeTimerFires? || e.ChallengeArrives? || e.ConnectAnswered? then e.id else ""
  }

  /** The frames on the socket held grow by one exactly when the client connects and the send succeeds. */
  lemma ConnectsExactly(c: Config, events: seq<Event>, st: State, e: Event)
    requires Reaches(c, events, st) && Possible(st, e)
    ensures OneMore(c, st, e, Step(c, st, e))
  {
    EveryRunKeeps(c, events, st);
    if e.SocketOpens? {
      OpenFrames(c, st, e);
    } else if e.ChallengeTimerFires? {
      TimerFrames(c, st, e);
    } else if e.ChallengeArrives? {
      ChallengeFrames(c, st, e);
    } else if e.ConnectAnswered? {
      RefusalFrames(c, st, e);
    } else {
      QuietFrames(c, st, e);
    }
  }

  lemma OpenFrames(c: Config, st: State, e: Event)
    requires Inv(c, st) && e.SocketOpens? && Possible(st, e)
    ensures OneMore(c, st, e, Step(c, st, e))
  {
    if Connects(c, st, e) { SendFrame(Opened(st, e.s), true, "", e.id, e.sent); }
  }

  lemma TimerFrames(c: Config, st: State, e: Event)
    requires Inv(c, st) && e.ChallengeTimerFires? && Possible(st, e)
    ensures OneMore(c, st, e, Step(c, st, e))
  {
    if Connects(c, st, e) { SendFrame(st.(shake := st.shake.(challengeTimer := false)), true, "", e.id, e.sent); }
  }

  lemma ChallengeFrames(c: Config, st: State, e: Event)
    requires Inv(c, st) && e.ChallengeArrives? && Possible(st, e)
    ensures OneMore(c, st, e, Step(c, st, e))
  {
    if Connects(c, st, e) { SendFrame(Noted(st, e.s, e.nonce), c.insecureSkip, e.nonce, e.id, e.sent); }
  }

  lemma QuietFrames(c: Config, st: State, e: Event)
    requires Possible(st, e) && !e.SocketOpens? && !e.ChallengeTimerFires? && !e.ChallengeArrives? && !e.ConnectAnswered?
    ensures OneMore(c, st, e, Step(c, st, e))
  {
    if e.Enqueue? || e.TurnContinues? { DrainLink(c, st, e); } else { assert Step(c, st, e).log.connects == st.log.connects; }
  }

  lemma RefusalFrames(c: Config, st: State, e: Event)
    requires e.ConnectAnswered? && Possible(st, e)
    ensures OneMore(c, st, e, Step(c, st, e))
  {
    var taken := st.(pending := st.pending - {e.answered});
    if IsOk(e.msg) && Authorized(e.msg) {
      DrainLink(c, st, e);
    } else if Connects(c, st, e) {
      var n := ChallengeIn(e.msg);
      SendFrame(Note(taken, e.s, n, st.shake.(connectNonce := n, connectSent := false)), c.insecureSkip, n, e.id, e.sent);
    }
  }

  // ----- turns -----

  /** The event makes the client look at its queue. */
  predicate Looks(e: Event) {
    e.Enqueue? || e.TurnContinues? || (e.ConnectAnswered? && IsOk(e.msg) && Authorized(e.msg))
  }

  /** The queue as the client then finds it. */
  function Waits(st: State, e: Event): seq<Item> {
    st.turns.queue + if e.Enqueue? then [e.item] else []
  }

  predicate CanGo(st: State, e: Event) {
    SocketIs(st.link, Open) && (st.shake.gatewayConnected || e.ConnectAnswered?)
  }

  /** An item is taken off the queue. */
  predicate Takes(c: Config, st: State, e: Event) {
    Looks(e) && (st.turns.inFlight ==> e.TurnContinues?) && Waits(st, e) != [] && (CanGo(st, e) || c.autoFallback)
  }

  /** What becomes of the turn in flight. */
  function TurnAfter(c: Config, st: State, e: Event): Turn {
    if Takes(c, st, e) then (if !CanGo(st, e) then AwaitFallback else if SentBy(e) then AwaitReply(LookId(e)) else Resolved)
    else if e.TurnContinues? then NoTurn
    else if e.AgentAnswered? && !e.ok then AwaitFallback
    else if e.AgentAnswered? || e.TurnTimesOut? || e.FallbackSettles? then Resolved
    else st.turns.turn
  }

  predicate SentBy(e: Event) {
    (e.Enqueue? || e.TurnContinues? || e.ConnectAnswered?) && e.sent
  }

  function LookId(e: Event): string {
    if e.Enqueue? || e.TurnContinues? || e.ConnectAnswered? then e.id else ""
  }

  /** What the event does to queue, turn and agent frames. */
  ghost predicate TurnsGo(c: Config, st: State, e: Event, r: State) {
    var waits := if e.Destroy? then [] else Waits(st, e);
    r.turns.turn == TurnAfter(c, st, e) &&
    if Takes(c, st, e)
    then r.turns.queue == waits[1..] && r.log.dequeued == st.log.dequeued + [waits[0]] &&
         r.log.agentFrames == st.log.agentFrames +
           (if CanGo(st, e) && SentBy(e) then [AgentFrame(LookId(e), waits[0], |st.log.dequeued|)] else [])
    else r.turns.queue == waits && r.log.dequeued == st.log.dequeued && r.log.agentFrames == st.log.agentFrames
  }

  /** What `Drain` does to queue, turn and agent frames. */
  lemma DrainGoes(c: Config, st: State, id: string, sent: bool)
    ensures var r := Drain(c, st, id, sent);
            if !st.turns.inFlight && st.turns.queue != [] && (CanSend(st) || c.autoFallback)
            then r.turns.turn == (if !CanSend(st) then AwaitFallback else if sent then AwaitReply(id) else Resolved) &&
                 r.turns.queue == st.turns.queue[1..] && r.log.dequeued == st.log.dequeued + [st.turns.queue[0]] &&
                 r.log.agentFrames == st.log.agentFrames +
                   (if CanSend(st) && sent then [AgentFrame(id, st.turns.queue[0], |st.log.dequeued|)] else [])
            else r.turns == st.turns && r.log.dequeued == st.log.dequeued && r.log.agentFrames == st.log.agentFrames
  {
  }

  lemma EnqueueGoes(c: Config, st: State, e: Event)
    requires Inv(c, st) && e.Enqueue? && Possible(st, e)
    ensures TurnsGo(c, st, e, Step(c, st, e))
  {
    DrainGoes(c, Queued(st, e.item), e.id, e.sent);
  }

  lemma ContinueGoes(c: Config, st: State, e: Event)
    requires Inv(c, st) && e.TurnContinues? && Possible(st, e)
    ensures TurnsGo(c, st, e, Step(c, st, e))
  {
    DrainGoes(c, st.(turns := st.turns.(inFlight := false, turn := NoTurn)), e.id, e.sent);
  }

  lemma HelloGoes(c: Config, st: State, e: Event)
    requires Inv(c, st) && e.ConnectAnswered? && IsOk(e.msg) && Authorized(e.msg) && Possible(st, e)
    ensures TurnsGo(c, st, e, Step(c, st, e))
  {
    DrainGoes(c, Greeted(st.(pending := st.pending - {e.answered}), e.s, e.msg), e.id, e.sent);
  }

  ghost predicate TurnsStay(st: State, r: State) {
    r.turns == st.turns && r.log.dequeued == st.log.dequeued && r.log.agentFrames == st.log.agentFrames
  }

  lemma RefusalTurns(c: Config, st: State, e: Event)
    requires e.ConnectAnswered? && Possible(st, e) && !Looks(e)
    ensures TurnsStay(st, Step(c, st, e))
  {
  }

  lemma HandshakeTurns(c: Config, st: State, e: Event)
    requires (e.SocketOpens? || e.ChallengeTimerFires? || e.ChallengeArrives?) && Possible(st, e)
    ensures TurnsStay(st, Step(c, st, e))
  {
  }

  lemma LinkTurns(c: Config, st: State, e: Event)
    requires (e.EnsureConnected? || e.ReconnectTimerFires? || e.WaitEnds? || e.SocketFails? || e.SocketCloses?) && Possible(st, e)
    ensures TurnsStay(st, Step(c, st, e))
  {
  }

  lemma StayGoes(c: Config, st: State, e: Event, r: State)
    requires TurnsStay(st, r) && !Looks(e) && !e.AgentAnswered? && !e.TurnTimesOut? && !e.FallbackSettles? && !e.Destroy?
    ensures TurnsGo(c, st, e, r)
  {
  }

  lemma SettleGoes(c: Config, st: State, e: Event)
    requires (e.AgentAnswered? || e.TurnTimesOut? || e.FallbackSettles? || e.Destroy?) && Possible(st, e)
    ensures TurnsGo(c, st, e, Step(c, st, e))
  {
  }

  /**
   The first item waiting is taken exactly when the client looks, no other turn is in flight, and the gateway
   or the fallback can take it; it goes to the gateway if that can take it, and a refused turn to the fallback.
   */
  lemma TurnsExactly(c: Config, events: seq<Event>, st: State, e: Event)
    requires Reaches(c, events, st) && Possible(st, e)
    ensures TurnsGo(c, st, e, Step(c, st, e))
  {
    EveryRunKeeps(c, events, st);
    TurnsStep(c, st, e);
  }

  lemma TurnsStep(c: Config, st: State, e: Event)
    requires Inv(c, st) && Possible(st, e)
    ensures TurnsGo(c, st, e, Step(c, st, e))
  {
    if e.Enqueue? {
      EnqueueGoes(c, st, e);
    } else if e.TurnContinues? {
      ContinueGoes(c, st, e);
    } else if Looks(e) {
      HelloGoes(c, st, e);
    } else if e.AgentAnswered? || e.TurnTimesOut? || e.FallbackSettles? || e.Destroy? {
      SettleGoes(c, st, e);
    } else {
      if e.ConnectAnswered? { RefusalTurns(c, st, e); }
      else if e.SocketOpens? || e.ChallengeTimerFires? || e.ChallengeArrives? { HandshakeTurns(c, st, e); }
      else { LinkTurns(c, st, e); }
      StayGoes(c, st, e, Step(c, st, e));
    }
  }

  /** The event that brings a turn in flight forward whatever the gateway does. */
  function Forward(turn: Turn, id: string): Event {
    match turn
    case AwaitReply(_) => TurnTimesOut
    case AwaitFallback => FallbackSettles
    case _ => TurnContinues(id, true)
  }

  lemma FreshId(used: set<string>) returns (id: string)
    ensures id !in used
  {
    var k: nat := 0;
    var left := used;
    while exists i | i in left :: |i| >= k
      invariant left <= used && forall i | i in used && i !in left :: |i| < k
      decreases left
    {
      var i :| i in left && |i| >= k;
      k := |i| + 1;
      left := left - {i};
    }
    id := Id(k);
  }

  /** A turn in flight is over after at most one event of its own. */
  lemma TurnResolves(c: Config, events: seq<Event>, st: State) returns (more: seq<Event>, r: State)
    requires Reaches(c, events, st) && st.turns.inFlight
    ensures Reaches(c, events + more, r) && |more| <= 1 && forall e | e in more :: e.TurnTimesOut? || e.FallbackSettles?
    ensures r.turns.turn.Resolved? && r.log.dequeued == st.log.dequeued
  {
    EveryRunKeeps(c, events, st);
    more, r := [], st;
    assert events + [] == events;
    if !st.turns.turn.Resolved? {
      var e := Forward(st.turns.turn, "");
      ExtendAny(c, events, st, e);
      more, r := [e], Step(c, st, e);
    }
  }

  /** Once the promise of a turn is settled, the client looks at its queue again. */
  lemma LooksAgain(c: Config, events: seq<Event>, st: State) returns (e: Event, r: State)
    requires Reaches(c, events, st) && st.turns.turn.Resolved?
    ensures e.TurnContinues? && Reaches(c, events + [e], r)
    ensures !r.turns.inFlight || |r.log.dequeued| > |st.log.dequeued|
  {
    var id := FreshId(st.usedIds);
    e := TurnContinues(id, true);
    r := Step(c, st, e);
    EveryRunKeeps(c, events, st);
    ExtendAny(c, events, st, e);
    DrainTakesOrStops(c, st.(turns := st.turns.(inFlight := false, turn := NoTurn)), e.id, true);
  }

  lemma DrainTakesOrStops(c: Config, st: State, id: string, sent: bool)
    requires !st.turns.inFlight
    ensures var r := Drain(c, st, id, sent); !r.turns.inFlight || |r.log.dequeued| > |st.log.dequeued|
  {
  }

  /** A turn in flight can always end by itself: within two events of its own it is over or the next one has begun. */
  lemma TurnCanEnd(c: Config, events: seq<Event>, st: State) returns (more: seq<Event>, r: State)
    requires Reaches(c, events, st) && st.turns.inFlight
    ensures Reaches(c, events + more, r) && |more| <= 2
    ensures forall e | e in more :: e.TurnTimesOut? || e.FallbackSettles? || e.TurnContinues?
    ensures !r.turns.inFlight || |r.log.dequeued| > |st.log.dequeued|
  {
    var settled, last;
    more, settled := TurnResolves(c, events, st);
    last, r := LooksAgain(c, events + more, settled);
    assert events + (more + [last]) == events + more + [last];
    more := more + [last];
  }

  // ----- after `destroy` -----

  /** A destroyed client opens no socket and sends nothing more. */
  lemma NothingAfterDestroy(c: Config, events: seq<Event>, st: State, e: Event)
    requires Reaches(c, events, st) && Destroy in events && Possible(st, e)
    ensures var r := Step(c, st, e);
            r.link.sockets.Keys == st.link.sockets.Keys && r.link.gatewayWs == None && !r.link.reconnectTimer &&
            !r.shake.gatewayConnected && r.pending == map[] &&
            r.log.connects == st.log.connects && r.log.agentFrames == st.log.agentFrames
  {
    HistoryIsReal(c, events, st);
    EveryRunKeeps(c, events, st);
    StepKeeps(c, st, e);
    StepHistory(c, st, e);
    TurnsExactly(c, events, st, e);
    DestroyedQuiet(c, st, e);
  }

  lemma DestroyedQuiet(c: Config, st: State, e: Event)
    requires Inv(c, st) && st.link.destroyed && Possible(st, e)
    ensures var r := Step(c, st, e);
            r.link.sockets.Keys == st.link.sockets.Keys && !r.link.reconnectTimer && r.log.connects == st.log.connects
  {
    if e.Enqueue? || e.TurnContinues? {
      DrainLink(c, st, e);
    } else if e.SocketOpens? || e.ChallengeTimerFires? || e.ChallengeArrives? {
      DestroyedHandshake(c, st, e);
    }
  }

  lemma DestroyedHandshake(c: Config, st: State, e: Event)
    requires Inv(c, st) && st.link.destroyed && Possible(st, e)
    requires e.SocketOpens? || e.ChallengeTimerFires? || e.ChallengeArrives?
    ensures var r := Step(c, st, e);
            r.link.sockets.Keys == st.link.sockets.Keys && !r.link.reconnectTimer && r.log.connects == st.log.connects
  {
  }

  // ----- what the client reads in a reply -----

  /** Some granted scope is `operator.write`, whatever its case and the blanks around it. */
  predicate GrantsWrite(scopes: seq<Json>) {
    exists i :: 0 <= i < |scopes| && scopes[i].Str? && Lower(Trim(scopes[i].s)) == "operator.write"
  }

  /** A list of granted scopes must be empty or grant writing; the list in the payload goes before that in its `auth`. */
  lemma AuthorizedExactly(msg: Json)
    ensures var direct := Child(Child(Some(msg), "payload"), "grantedScopes");
            var viaAuth := Child(Child(Child(Some(msg), "payload"), "auth"), "scopes");
            Authorized(msg) <==>
              if direct.Some? && direct.value.Arr? then direct.value.items == [] || GrantsWrite(direct.value.items)
              else if viaAuth.Some? && viaAuth.value.Arr? then viaAuth.value.items == [] || GrantsWrite(viaAuth.value.items)
              else true
  {
  }

  /** The nonce of a challenge object, trimmed; none when it is falsy. */
  function NonceUnder(challenge: Option<Json>): string {
    var nonce := Child(challenge, "nonce");
    if nonce.Some? && Truthy(nonce) then Trim(ToText(nonce.value)) else ""
  }

  /** The challenge in the payload counts, or if it has no nonce that in the error's details. */
  lemma ChallengeInExactly(msg: Json)
    ensures var first := NonceUnder(Child(Child(Some(msg), "payload"), "challenge"));
            ChallengeIn(msg) ==
            if first != "" then first else NonceUnder(Child(Child(Child(Some(msg), "error"), "details"), "challenge"))
  {
  }
}
