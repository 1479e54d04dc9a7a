/**
 The per-client message limit of `index.js`: at most `max` accepted messages in any
 minute of one connection. Closing a connection forgets its client's window.
 */
module RateWindow {

  const MINUTE_MS := 60000

  /** `current.filter((t) => now - t < 60_000)`. */
  function Recent(times: seq<int>, now: int): seq<int> {
    if times == [] then []
    else (if now - times[0] < MINUTE_MS then [times[0]] else []) + Recent(times[1..], now)
  }

  type Windows = map<string, seq<int>>

  function TimesOf(w: Windows, id: string): seq<int> {
    if id in w then w[id] else []
  }

  /** The verdict on one message and the windows it leaves; a refused message leaves them alone. */
  function Allow(max: int, w: Windows, id: string, now: int): (bool, Windows) {
    var recent := Recent(TimesOf(w, id), now);
    if |recent| >= max then (false, w) else (true, w[id := recent + [now]])
  }

  /** The windows after the connection of `id` has closed. */
  function Closed(w: Windows, id: string): Windows {
    w - {id}
  }

  class RateLimiter {
    const max: int
    var rateWindow: Windows

    constructor (max: int)
      ensures this.max == max && rateWindow == map[]
    {
      this.max := max;
      rateWindow := map[];
    }

    method AllowMessage(clientId: string, now: int) returns (ok: bool)
      modifies this
      ensures (ok, rateWindow) == Allow(max, old(rateWindow), clientId, now)
    {
      var live := FilterRecent(if clientId in rateWindow then rateWindow[clientId] else [], now);
      if |live| >= max { return false; }
      live := live + [now];
      rateWindow := rateWindow[clientId := live];
      return true;
    }

    /** The `close` handler of a connection. */
    method Forget(clientId: string)
      modifies this
      ensures TimesOf(rateWindow, clientId) == []
      ensures forall other | other != clientId :: TimesOf(rateWindow, other) == TimesOf(old(rateWindow), other)
      ensures rateWindow == Closed(old(rateWindow), clientId)
    {
      rateWindow := rateWindow - {clientId};
    }
  }

  method FilterRecent(current: seq<int>, now: int) returns (live: seq<int>)
    ensures live == Recent(current, now)
  {
    live := [];
    for i := 0 to |current|
      invariant live == Recent(current[..i], now)
    {
      assert current[..i + 1] == current[..i] + [current[i]];
      RecentAppend(current[..i], current[i], now);
      if now - current[i] < MINUTE_MS {
        live := live + [current[i]];
      }
    }
    assert current[..|current|] == current;
  }

  // ----- runs -----

  datatype Event = Message(id: string, now: int) | Close(id: string, now: int)

  /** The clock never goes back. */
  ghost predicate Run(events: seq<Event>) {
    forall i, j :: 0 <= i < j < |events| ==> events[i].now <= events[j].now
  }

  function After(max: int, events: seq<Event>): Windows {
    if events == [] then map[]
    else
      var before := After(max, events[..|events| - 1]);
      match events[|events| - 1]
      case Message(id, now) => Allow(max, before, id, now).1
      case Close(id, _) => Closed(before, id)
  }

  /** The last event is a message of `id` that was accepted. */
  predicate JustAccepted(max: int, events: seq<Event>, id: string)
    requires events != []
  {
    var last := events[|events| - 1];
    last.Message? && last.id == id && Allow(max, After(max, events[..|events| - 1]), id, last.now).0
  }

  /** The times at which messages of `id` were accepted since its connection last closed, never forgotten. */
  function Accepts(max: int, events: seq<Event>, id: string): seq<int> {
    if events == [] then []
    else
      var n := |events| - 1;
      if events[n] == Close(id, events[n].now) then []
      else Accepts(max, events[..n], id) + if JustAccepted(max, events, id) then [events[n].now] else []
  }

  /** The same over all connections of `id`. */
  function AllAccepts(max: int, events: seq<Event>, id: string): seq<int> {
    if events == [] then []
    else
      var n := |events| - 1;
      AllAccepts(max, events[..n], id) + if JustAccepted(max, events, id) then [events[n].now] else []
  }

  lemma {:induction false} RecentAppend(a: seq<int>, t: int, now: int)
    ensures Recent(a + [t], now) == Recent(a, now) + if now - t < MINUTE_MS then [t] else []
  {
    if a == [] {
      assert [] + [t] == [t] && [t][1..] == [];
    } else {
      assert (a + [t])[1..] == a[1..] + [t];
      RecentAppend(a[1..], t, now);
    }
  }

  /** Dropping what is old now changes no later view. */
  lemma {:induction false} RecentOfRecent(a: seq<int>, now: int, later: int)
    requires now <= later
    ensures Recent(Recent(a, now), later) == Recent(a, later)
  {
    if a != [] {
      RecentOfRecent(a[1..], now, later);
      var rest := Recent(a[1..], now);
      assert ([a[0]] + rest)[1..] == rest;
      assert [] + rest == rest;
    }
  }

  /** The stored window shows, from now on, the same recent accepts as the history of the connection. */
  lemma {:induction false} WindowShowsHistory(max: int, events: seq<Event>, id: string, now: int)
    requires Run(events) && (events != [] ==> events[|events| - 1].now <= now)
    ensures Recent(TimesOf(After(max, events), id), now) == Recent(Accepts(max, events, id), now)
  {
    if events != [] {
      var n := |events| - 1;
      WindowShowsHistory(max, events[..n], id, now);
      if JustAccepted(max, events, id) {
        var stored := TimesOf(After(max, events[..n]), id);
        var at := events[n].now;
        RecentAppend(Recent(stored, at), at, now);
        RecentOfRecent(stored, at, now);
        RecentAppend(Accepts(max, events[..n], id), at, now);
      } else if !events[n].Close? || events[n].id != id {
        assert TimesOf(After(max, events), id) == TimesOf(After(max, events[..n]), id);
        assert Accepts(max, events, id) == Accepts(max, events[..n], id);
      }
    }
  }

  /** A message is accepted exactly when fewer than `max` were accepted in the last minute of its connection. */
  lemma AcceptExactly(max: int, events: seq<Event>, id: string, now: int)
    requires Run(events) && (events != [] ==> events[|events| - 1].now <= now)
    ensures Allow(max, After(max, events), id, now).0 <==> |Recent(Accepts(max, events, id), now)| < max
  {
    WindowShowsHistory(max, events, id, now);
  }

  // ----- the verdicts of a run, by earlier verdicts alone -----

  /** The verdict on message `i` of a run. */
  predicate Passed(max: int, events: seq<Event>, i: nat)
    requires i < |events|
  {
    events[i].Message? && Allow(max, After(max, events[..i]), events[i].id, events[i].now).0
  }

  /** Message `j` of `id` passed, its connection has not closed before place `n`, and it is less than a minute old. */
  ghost predicate Counts(max: int, events: seq<Event>, n: nat, id: string, now: int, j: nat)
    requires n <= |events|
  {
    j < n && Passed(max, events, j) && events[j].id == id && now - events[j].now < 60000 &&
    forall m | j < m < n :: !(events[m].Close? && events[m].id == id)
  }

  ghost function Counted(max: int, events: seq<Event>, n: nat, id: string, now: int): set<nat>
    requires n <= |events|
  {
    set j: nat | j < n && Counts(max, events, n, id, now, j)
  }

  lemma CountedStep(max: int, events: seq<Event>, n: nat, id: string, now: int)
    requires n < |events|
    ensures events[n].Close? && events[n].id == id ==> Counted(max, events, n + 1, id, now) == {}
    ensures !(events[n].Close? && events[n].id == id) ==>
              Counted(max, events, n + 1, id, now) ==
              Counted(max, events, n, id, now) +
              if Passed(max, events, n) && events[n].id == id && now - events[n].now < 60000 then {n} else {}
  {
    if !(events[n].Close? && events[n].id == id) {
      forall j: nat | j < n ensures Counts(max, events, n + 1, id, now, j) <==> Counts(max, events, n, id, now, j) {
      }
    }
  }

  lemma {:induction false} CountedIsRecent(max: int, events: seq<Event>, n: nat, id: string, now: int)
    requires n <= |events|
    ensures |Counted(max, events, n, id, now)| == |Recent(Accepts(max, events[..n], id), now)|
  {
    if n > 0 {
      var m := n - 1;
      var before := Accepts(max, events[..m], id);
      assert events[..n][..m] == events[..m] && events[..n][m] == events[m];
      CountedIsRecent(max, events, m, id, now);
      CountedStep(max, events, m, id, now);
      RecentAppend(before, events[m].now, now);
      assert before + [] == before;
      assert m !in Counted(max, events, m, id, now);
    }
  }

  /** A message passes exactly when fewer than `max` messages of its connection passed less than a minute before. */
  lemma PassedExactly(max: int, events: seq<Event>, i: nat)
    requires Run(events) && i < |events| && events[i].Message?
    ensures Passed(max, events, i) <==> |Counted(max, events, i, events[i].id, events[i].now)| < max
  {
    CountedIsRecent(max, events, i, events[i].id, events[i].now);
    AcceptExactly(max, events[..i], events[i].id, events[i].now);
  }

  /** The accepts inside the minute that starts at `start`. */
  function InMinute(times: seq<int>, start: int): seq<int> {
    if times == [] then []
    else (if start <= times[0] < start + MINUTE_MS then [times[0]] else []) + InMinute(times[1..], start)
  }

  lemma {:induction false} InMinuteAppend(a: seq<int>, t: int, start: int)
    ensures InMinute(a + [t], start) == InMinute(a, start) + if start <= t < start + MINUTE_MS then [t] else []
  {
    if a == [] {
      assert [] + [t] == [t] && [t][1..] == [];
    } else {
      assert (a + [t])[1..] == a[1..] + [t];
      InMinuteAppend(a[1..], t, start);
    }
  }

  lemma {:induction false} MinuteIsRecent(a: seq<int>, start: int, now: int)
    requires now < start + MINUTE_MS
    ensures |InMinute(a, start)| <= |Recent(a, now)|
  {
    if a != [] {
      MinuteIsRecent(a[1..], start, now);
    }
  }

  /** No minute of one connection holds more than `max` accepts. */
  lemma {:induction false} NoMinuteOverflows(max: int, events: seq<Event>, id: string, start: int)
    requires Run(events) && max >= 0
    ensures |InMinute(Accepts(max, events, id), start)| <= max
  {
    if events != [] {
      var n := |events| - 1;
      NoMinuteOverflows(max, events[..n], id, start);
      var earlier := Accepts(max, events[..n], id);
      if JustAccepted(max, events, id) {
        var at := events[n].now;
        InMinuteAppend(earlier, at, start);
        AcceptExactly(max, events[..n], id, at);
        if at < start + MINUTE_MS {
          MinuteIsRecent(earlier, start, at);
        }
      } else if !events[n].Close? || events[n].id != id {
        assert Accepts(max, events, id) == earlier;
      }
    }
  }

  // ----- a client that comes back from the same address and port -----

  /** How often the connection of `id` closed inside the minute that starts at `start`. */
  function Closes(events: seq<Event>, id: string, start: int): nat {
    if events == [] then 0
    else
      var last := events[|events| - 1];
      Closes(events[..|events| - 1], id, start) + if last == Close(id, last.now) && start <= last.now < start + MINUTE_MS then 1 else 0
  }

  lemma {:induction false} NothingYet(max: int, events: seq<Event>, id: string, start: int)
    requires Run(events) && (events != [] ==> events[|events| - 1].now < start)
    ensures InMinute(AllAccepts(max, events, id), start) == []
  {
    if events != [] {
      var n := |events| - 1;
      NothingYet(max, events[..n], id, start);
      InMinuteAppend(AllAccepts(max, events[..n], id), events[n].now, start);
      assert AllAccepts(max, events[..n], id) + [] == AllAccepts(max, events[..n], id);
    }
  }

  /** What is in the minute, and how much of it was accepted on this connection. */
  function UsedInMinute(max: int, events: seq<Event>, id: string, start: int): nat {
    |InMinute(AllAccepts(max, events, id), start)|
  }

  function UsedNow(max: int, events: seq<Event>, id: string, start: int): nat {
    |InMinute(Accepts(max, events, id), start)|
  }

  /** How one event changes both. */
  lemma OneEvent(max: int, events: seq<Event>, id: string, start: int)
    requires events != []
    ensures var n, e := |events| - 1, events[|events| - 1];
            var one := if JustAccepted(max, events, id) && start <= e.now < start + MINUTE_MS then 1 else 0;
            UsedInMinute(max, events, id, start) == UsedInMinute(max, events[..n], id, start) + one &&
            UsedNow(max, events, id, start) ==
            if e == Close(id, e.now) then 0 else UsedNow(max, events[..n], id, start) + one
  {
    var n := |events| - 1;
    var all, now := AllAccepts(max, events[..n], id), Accepts(max, events[..n], id);
    InMinuteAppend(all, events[n].now, start);
    InMinuteAppend(now, events[n].now, start);
    assert all + [] == all && now + [] == now;
  }

  /** `max` times `n`. */
  function Allowances(max: int, n: nat): (r: int)
    ensures max >= 0 ==> r >= 0
  {
    if n == 0 then 0 else Allowances(max, n - 1) + max
  }

  lemma {:induction false} AllowancesAre(max: int, n: nat)
    ensures Allowances(max, n) == max * n
  {
    if n > 0 {
      AllowancesAre(max, n - 1);
      assert max * n == max * (n - 1) + max;
    }
  }

  /** Until the minute is over, what earlier connections used is within their allowances. */
  lemma {:induction false} AllowancesUsed(max: int, events: seq<Event>, id: string, start: int)
    requires Run(events) && max >= 0
    ensures UsedInMinute(max, events, id, start) <= Allowances(max, Closes(events, id, start)) + max
    ensures (events != [] ==> events[|events| - 1].now < start + MINUTE_MS) ==>
              UsedInMinute(max, events, id, start) <= Allowances(max, Closes(events, id, start)) + UsedNow(max, events, id, start)
  {
    NoMinuteOverflows(max, events, id, start);
    if events != [] {
      var n, at := |events| - 1, events[|events| - 1].now;
      AllowancesUsed(max, events[..n], id, start);
      NoMinuteOverflows(max, events[..n], id, start);
      OneEvent(max, events, id, start);
      if events[n] == Close(id, at) && at < start { NothingYet(max, events, id, start); }
    }
  }

  /** No minute holds more than `max` accepts and another `max` for each time the connection closed in it. */
  lemma AllowancePerConnection(max: int, events: seq<Event>, id: string, start: int)
    requires Run(events) && max >= 0
    ensures |InMinute(AllAccepts(max, events, id), start)| <= max * (1 + Closes(events, id, start))
  {
    AllowancesUsed(max, events, id, start);
    AllowancesAre(max, 1 + Closes(events, id, start));
  }

  function Repeated<T>(x: T, n: nat): (r: seq<T>)
    ensures |r| == n
  {
    if n == 0 then [] else Repeated(x, n - 1) + [x]
  }

  lemma {:induction false} RecentIsShorter(times: seq<int>, now: int)
    ensures |Recent(times, now)| <= |times|
  {
    if times != [] { RecentIsShorter(times[1..], now); }
  }

  ghost predicate AtZero(events: seq<Event>) {
    forall e | e in events :: e.now == 0
  }

  /** A message within the allowance is the next accept. */
  lemma NextAccept(max: int, events: seq<Event>, id: string, now: int)
    requires Allow(max, After(max, events), id, now).0
    ensures var more := events + [Message(id, now)];
            Accepts(max, more, id) == Accepts(max, events, id) + [now] &&
            AllAccepts(max, more, id) == AllAccepts(max, events, id) + [now]
  {
    assert (events + [Message(id, now)])[..|events|] == events;
  }

  lemma OneMore(max: int, events: seq<Event>, id: string)
    requires AtZero(events) && |Accepts(max, events, id)| < max
    ensures var more := events + [Message(id, 0)];
            AtZero(more) && Accepts(max, more, id) == Accepts(max, events, id) + [0] &&
            AllAccepts(max, more, id) == AllAccepts(max, events, id) + [0]
  {
    AtZeroIsRun(events);
    RecentIsShorter(Accepts(max, events, id), 0);
    if events != [] { assert events[|events| - 1] in events; }
    AcceptExactly(max, events, id, 0);
    NextAccept(max, events, id, 0);
  }

  lemma Extend<T>(a: seq<T>, b: seq<T>, x: T)
    ensures a + (b + [x]) == (a + b) + [x]
  {
  }

  /** On a connection that has accepted nothing, `n <= max` messages at time 0 are all accepted. */
  lemma {:induction false} Burst(max: int, before: seq<Event>, id: string, n: nat)
    requires n <= max && AtZero(before) && Accepts(max, before, id) == []
    ensures var events := before + Repeated(Message(id, 0), n);
            AtZero(events) && |Accepts(max, events, id)| == n &&
            AllAccepts(max, events, id) == AllAccepts(max, before, id) + Repeated(0, n)
  {
    if n == 0 {
      NoBurst(max, before, id);
    } else {
      Burst(max, before, id, n - 1);
      var messages, zeros := Repeated(Message(id, 0), n - 1), Repeated(0, n - 1);
      BurstGrows(max, before, id, messages, AllAccepts(max, before, id), zeros);
    }
  }

  lemma BurstGrows(max: int, before: seq<Event>, id: string, messages: seq<Event>, all: seq<int>, zeros: seq<int>)
    requires var events := before + messages;
             AtZero(events) && |Accepts(max, events, id)| < max && AllAccepts(max, events, id) == all + zeros
    ensures var events := before + (messages + [Message(id, 0)]);
            AtZero(events) && |Accepts(max, events, id)| == |Accepts(max, before + messages, id)| + 1 &&
            AllAccepts(max, events, id) == all + (zeros + [0])
  {
    OneMore(max, before + messages, id);
    Extend(before, messages, Message(id, 0));
    Extend(all, zeros, 0);
  }

  lemma NoBurst(max: int, before: seq<Event>, id: string)
    ensures before + Repeated(Message(id, 0), 0) == before
    ensures AllAccepts(max, before, id) + Repeated(0, 0) == AllAccepts(max, before, id)
  {
  }

  lemma CloseForgets(max: int, events: seq<Event>, id: string)
    requires AtZero(events)
    ensures var closed := events + [Close(id, 0)];
            AtZero(closed) && Accepts(max, closed, id) == [] && AllAccepts(max, closed, id) == AllAccepts(max, events, id)
  {
    assert (events + [Close(id, 0)])[..|events|] == events;
    assert AllAccepts(max, events, id) + [] == AllAccepts(max, events, id);
  }

  lemma {:induction false} AllInMinute(n: nat)
    ensures |InMinute(Repeated(0, n), 0)| == n
  {
    if n > 0 {
      AllInMinute(n - 1);
      InMinuteAppend(Repeated(0, n - 1), 0, 0);
    }
  }

  lemma {:induction false} RepeatedTwice<T>(x: T, n: nat, m: nat)
    ensures Repeated(x, n) + Repeated(x, m) == Repeated(x, n + m)
  {
    if m > 0 {
      RepeatedTwice(x, n, m - 1);
      Extend(Repeated(x, n), Repeated(x, m - 1), x);
    }
  }

  lemma {:induction false} MessagesClose(events: seq<Event>, id: string, m: nat)
    ensures Closes(events + Repeated(Message(id, 0), m), id, 0) == Closes(events, id, 0)
  {
    if m == 0 {
      assert events + [] == events;
    } else {
      MessagesClose(events, id, m - 1);
      Extend(events, Repeated(Message(id, 0), m - 1), Message(id, 0));
      assert (events + Repeated(Message(id, 0), m))[..|events| + m - 1] == events + Repeated(Message(id, 0), m - 1);
    }
  }

  /** `n` connections one after the other, all at time 0, each using up its allowance. */
  lemma {:induction false} Bursts(max: nat, id: string, n: nat) returns (events: seq<Event>)
    requires n > 0
    ensures AtZero(events) && Closes(events, id, 0) == n - 1 && AllAccepts(max, events, id) == Repeated(0, Allowances(max, n))
  {
    var before: seq<Event> := [];
    if n > 1 {
      var earlier := Bursts(max, id, n - 1);
      CloseForgets(max, earlier, id);
      before := earlier + [Close(id, 0)];
      assert before[..|before| - 1] == earlier;
      AllowancesAre(max, n - 1);
      RepeatedTwice(0, Allowances(max, n - 1), max);
    }
    Burst(max, before, id, max);
    MessagesClose(before, id, max);
    assert [] + Repeated(0, max) == Repeated(0, max);
    events := before + Repeated(Message(id, 0), max);
  }

  lemma AtZeroIsRun(events: seq<Event>)
    requires AtZero(events)
    ensures Run(events)
  {
    forall i | 0 <= i < |events| ensures events[i].now == 0 {
      assert events[i] in events;
    }
  }

  /**
   That bound is reached: a client that comes back from the same address and port `n` times
   within the minute gets another `max` messages each time.
   */
  lemma OverflowAcrossCloses(max: nat, id: string, n: nat)
    ensures exists events: seq<Event> :: Run(events) && Closes(events, id, 0) == n &&
              |InMinute(AllAccepts(max, events, id), 0)| == max * (1 + n)
  {
    var events := Bursts(max, id, n + 1);
    AtZeroIsRun(events);
    AllowancesAre(max, 1 + n);
    AllInMinute(max * (1 + n));
  }

  /** Without a close in the run, the limit is one over the whole run. */
  lemma {:induction false} SameWithoutClose(max: int, events: seq<Event>, id: string)
    requires forall e | e in events :: e.Message? || e.id != id
    ensures AllAccepts(max, events, id) == Accepts(max, events, id)
  {
    if events != [] {
      var n := |events| - 1;
      assert events[n] in events;
      SameWithoutClose(max, events[..n], id);
    }
  }

  /** Messages and closes of other clients neither use up nor free anything. */
  lemma OthersDoNotCount(max: int, w: Windows, id: string, other: string, now: int)
    requires other != id
    ensures TimesOf(Allow(max, w, other, now).1, id) == TimesOf(w, id)
    ensures TimesOf(Closed(w, other), id) == TimesOf(w, id)
  {
  }
}
