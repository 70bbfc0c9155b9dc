/** The matchmaker object: closure state updated in place by each operation
    (packages/matchmaking/src/matchmaker.ts), proved against the operations of `MatchModel`. */
module Matchmaker {
  import opened Js
  import opened MatchModel
  import opened MatchInvariant
  import opened MatchRematch
  import opened MatchRuns

  // Session tables -----------------------------------------------------------

  /** The seats of `seats` that are not in `rest`. */
  function Processed(seats: map<nat, Seat>, rest: set<nat>): map<nat, Seat> {
    seats - rest
  }

  lemma ReleasedStep(ss: map<JsString, Session>, id: JsString, seats: map<nat, Seat>, rest: set<nat>, i: nat)
    requires i in rest && i in seats
    ensures var sid := seats[i].session;
            var before := Released(ss, id, Processed(seats, rest));
            Released(ss, id, Processed(seats, rest - {i})) ==
              if sid in before && before[sid].binding.Some? && before[sid].binding.value.matchId == id
              then before - {sid} else before
  {
    var done, done' := Processed(seats, rest), Processed(seats, rest - {i});
    assert done' == done[i := seats[i]];
    forall sid | sid in ss
      ensures HeldBy(ss[sid], sid, id, done') <==>
                HeldBy(ss[sid], sid, id, done)
                || (sid == seats[i].session && ss[sid].binding.Some? && ss[sid].binding.value.matchId == id)
    {
      if ss[sid].binding.Some? && ss[sid].binding.value.matchId == id && sid == seats[i].session {
        assert i in done' && done'[i].session == sid;
      }
      if k :| k in done && done[k].session == sid {
        assert k in done' && done'[k].session == sid;
      }
    }
  }

  method ReleaseMatchSessions(sessions: map<JsString, Session>, id: JsString, seats: map<nat, Seat>)
    returns (r: map<JsString, Session>)
    ensures r == Released(sessions, id, seats)
  {
    r := sessions;
    var rest := seats.Keys;
    assert Processed(seats, rest) == map[];
    assert Released(sessions, id, map[]) == sessions;
    while rest != {}
      invariant rest <= seats.Keys
      invariant r == Released(sessions, id, Processed(seats, rest))
      decreases |rest|
    {
      var i :| i in rest;
      ReleasedStep(sessions, id, seats, rest, i);
      var sid := seats[i].session;
      if sid in r && r[sid].binding.Some? && r[sid].binding.value.matchId == id {
        r := r - {sid};
      }
      rest := rest - {i};
    }
    assert Processed(seats, {}) == seats;
  }

  /** `findSeatByToken`, in whatever order the seats come. */
  method FindSeatByToken(seats: map<nat, Seat>, token: JsString) returns (r: Option<nat>)
    requires DistinctTokens(seats)
    ensures r == SeatByToken(seats, token)
  {
    var rest := seats.Keys;
    while rest != {}
      invariant rest <= seats.Keys
      invariant forall i :: i in seats && i !in rest ==> seats[i].token != token
      decreases |rest|
    {
      var i :| i in rest;
      if seats[i].token == token {
        return Some(i);
      }
      rest := rest - {i};
    }
    return None;
  }

  /** The seat scan of the start-up; `None` is the "seat missing" throw it catches itself. */
  method OrderedSeats(m: Match) returns (r: Option<seq<Seat>>)
    ensures r.Some? <==> Full(m)
    ensures r.Some? ==> |r.value| == m.playerCount && forall i :: 0 <= i < m.playerCount ==> r.value[i] == m.seats[i]
  {
    var ordered: seq<Seat> := [];
    for index := 0 to m.playerCount
      invariant |ordered| == index
      invariant forall i :: 0 <= i < index ==> i in m.seats && ordered[i] == m.seats[i]
    {
      if index !in m.seats {
        return None;
      }
      ordered := ordered + [m.seats[index]];
    }
    return Some(ordered);
  }

  /** The registry's refusal of a repeated player id. */
  method PlayersDiffer(ordered: seq<Seat>) returns (r: bool)
    ensures r <==> forall i, j :: 0 <= i < j < |ordered| ==> ordered[i].playerId != ordered[j].playerId
  {
    var seen: set<JsString> := {};
    for i := 0 to |ordered|
      invariant forall p :: p in seen <==> exists k :: 0 <= k < i && ordered[k].playerId == p
      invariant forall k, j :: 0 <= k < j < i ==> ordered[k].playerId != ordered[j].playerId
    {
      if ordered[i].playerId in seen {
        return false;
      }
      seen := seen + {ordered[i].playerId};
    }
    return true;
  }

  /** A table of sessions that follows the seats of `newId` and is otherwise unchanged. */
  ghost predicate Follows(bound: map<JsString, Session>, sessions: map<JsString, Session>, seats: map<nat, Seat>, newId: JsString) {
    && bound.Keys == sessions.Keys
    && (forall k :: k in seats ==> SeatBound(bound, newId, k, seats[k]))
    && (forall sid :: sid in sessions && !SeatHas(seats, sid) ==> bound[sid] == sessions[sid])
  }

  ghost predicate SeatHas(seats: map<nat, Seat>, sid: JsString) {
    exists k :: k in seats && seats[k].session == sid
  }

  lemma FollowsIsRebound(bound: map<JsString, Session>, sessions: map<JsString, Session>, seats: map<nat, Seat>, newId: JsString)
    requires Follows(bound, sessions, seats, newId)
    requires forall k :: k in seats && seats[k].session in sessions ==> sessions[seats[k].session].playerId == seats[k].playerId
    ensures bound == Rebound(sessions, seats, newId)
  {
    var expected := Rebound(sessions, seats, newId);
    forall sid | sid in sessions ensures bound[sid] == expected[sid] {
      if SeatHas(seats, sid) {
        var i :| i in seats && seats[i].session == sid;
        assert SeatBound(bound, newId, i, seats[i]);
        forall k | k in seats && seats[k].session == sid ensures k == i {
          assert SeatBound(bound, newId, k, seats[k]);
        }
      }
    }
  }

  lemma HasMore(seats: map<nat, Seat>, i: nat, seat: Seat, sid: JsString)
    requires i !in seats
    ensures SeatHas(seats[i := seat], sid) <==> SeatHas(seats, sid) || seat.session == sid
  {
    if k :| k in seats && seats[k].session == sid {
      assert k in seats[i := seat] && seats[i := seat][k].session == sid;
    }
    if seat.session == sid {
      assert i in seats[i := seat] && seats[i := seat][i].session == sid;
    }
  }

  lemma FollowsStep(bound: map<JsString, Session>, sessions: map<JsString, Session>, seats: map<nat, Seat>, newId: JsString,
                    i: nat, seat: Seat)
    requires Follows(bound, sessions, seats, newId) && i !in seats && seat.session in sessions
    requires forall k :: k in seats ==> seats[k].session != seat.session
    ensures Follows(bound[seat.session := Session(seat.playerId, Some(Binding(newId, i, seat.token)))], sessions,
                    seats[i := seat], newId)
  {
    var bound' := bound[seat.session := Session(seat.playerId, Some(Binding(newId, i, seat.token)))];
    var seats' := seats[i := seat];
    forall k | k in seats' ensures SeatBound(bound', newId, k, seats'[k]) {
      if k != i {
        assert SeatBound(bound, newId, k, seats[k]);
      }
    }
    forall sid | sid in sessions && !SeatHas(seats', sid) ensures bound'[sid] == sessions[sid] {
      HasMore(seats, i, seat, sid);
    }
  }

  /** The rematch seats of the first `n` places. */
  ghost predicate FirstSeats(seats: map<nat, Seat>, from: map<nat, Seat>, n: nat, tokens: seq<JsString>, atMs: int) {
    && (forall k :: k in seats <==> k in from && k < n)
    && (forall k :: k in seats ==> seats[k] == Seat(from[k].session, TokenAt(tokens, k), from[k].playerId, atMs, None))
  }

  lemma NextSession(seats: map<nat, Seat>, from: map<nat, Seat>, i: nat, tokens: seq<JsString>, atMs: int)
    requires FirstSeats(seats, from, i, tokens, atMs) && SessionsDiffer(from) && i in from
    ensures forall k :: k in seats ==> seats[k].session != from[i].session
    ensures i !in seats
    ensures FirstSeats(seats[i := Seat(from[i].session, TokenAt(tokens, i), from[i].playerId, atMs, None)], from, i + 1,
                       tokens, atMs)
  {
  }

  lemma AllSeats(seats: map<nat, Seat>, from: map<nat, Seat>, n: nat, tokens: seq<JsString>, atMs: int)
    requires FirstSeats(seats, from, n, tokens, atMs) && forall k :: k in from ==> k < n
    ensures seats == RematchSeats(from, tokens, atMs)
  {
  }

  /** The rebinding loop after `n` places. */
  ghost predicate Placed(bound: map<JsString, Session>, sessions: map<JsString, Session>, seats: map<nat, Seat>,
                         from: map<nat, Seat>, newId: JsString, n: nat, tokens: seq<JsString>, atMs: int)
  {
    FirstSeats(seats, from, n, tokens, atMs) && Follows(bound, sessions, seats, newId)
  }

  lemma NextParticipant(bound: map<JsString, Session>, sessions: map<JsString, Session>, seats: map<nat, Seat>,
                        from: map<nat, Seat>, newId: JsString, i: nat, tokens: seq<JsString>, atMs: int)
    requires Placed(bound, sessions, seats, from, newId, i, tokens, atMs)
    requires SessionsDiffer(from) && i in from && from[i].session in sessions
    ensures var seat := Seat(from[i].session, TokenAt(tokens, i), from[i].playerId, atMs, None);
            Placed(bound[seat.session := Session(seat.playerId, Some(Binding(newId, i, seat.token)))], sessions,
                   seats[i := seat], from, newId, i + 1, tokens, atMs)
  {
    NextSession(seats, from, i, tokens, atMs);
    FollowsStep(bound, sessions, seats, newId, i, Seat(from[i].session, TokenAt(tokens, i), from[i].playerId, atMs, None));
  }

  lemma NobodyThere(bound: map<JsString, Session>, sessions: map<JsString, Session>, seats: map<nat, Seat>,
                    from: map<nat, Seat>, newId: JsString, i: nat, tokens: seq<JsString>, atMs: int)
    requires Placed(bound, sessions, seats, from, newId, i, tokens, atMs) && i !in from
    ensures Placed(bound, sessions, seats, from, newId, i + 1, tokens, atMs)
  {
  }

  lemma AllParticipants(bound: map<JsString, Session>, sessions: map<JsString, Session>, seats: map<nat, Seat>,
                        from: map<nat, Seat>, newId: JsString, n: nat, tokens: seq<JsString>, atMs: int)
    requires Placed(bound, sessions, seats, from, newId, n, tokens, atMs) && Participants(sessions, from, n)
    ensures seats == RematchSeats(from, tokens, atMs) && bound == Rebound(sessions, seats, newId)
  {
    AllSeats(seats, from, n, tokens, atMs);
    FollowsIsRebound(bound, sessions, seats, newId);
  }

  /** Every seat is one of `n` places and its session is alive under the seat's player. */
  predicate Participants(sessions: map<JsString, Session>, seats: map<nat, Seat>, n: nat) {
    forall i :: i in seats ==>
      i < n && seats[i].session in sessions && sessions[seats[i].session].playerId == seats[i].playerId
  }

  /** The rebinding loop of `createRematchMatchRecord`. */
  method SeatParticipants(sessions: map<JsString, Session>, m: Match, newId: JsString, tokens: seq<JsString>, atMs: int)
    returns (seats: map<nat, Seat>, bound: map<JsString, Session>)
    requires Participants(sessions, m.seats, m.playerCount) && SessionsDiffer(m.seats)
    ensures seats == RematchSeats(m.seats, tokens, atMs)
    ensures bound == Rebound(sessions, seats, newId)
  {
    seats := map[];
    bound := sessions;
    for i := 0 to m.playerCount
      invariant Placed(bound, sessions, seats, m.seats, newId, i, tokens, atMs)
    {
      if i in m.seats {
        NextParticipant(bound, sessions, seats, m.seats, newId, i, tokens, atMs);
        var session := sessions[m.seats[i].session];
        var seat := Seat(m.seats[i].session, TokenAt(tokens, i), session.playerId, atMs, None);
        seats := seats[i := seat];
        bound := bound[m.seats[i].session := Session(session.playerId, Some(Binding(newId, i, seat.token)))];
      } else {
        NobodyThere(bound, sessions, seats, m.seats, newId, i, tokens, atMs);
      }
    }
    AllParticipants(bound, sessions, seats, m.seats, newId, m.playerCount, tokens, atMs);
  }

  /** A completing vote from seat `i` finds every seat's session alive and its own. */
  ghost predicate Movable(sessions: map<JsString, Session>, m: Match, i: nat)
    requires m.rematch.Some? && i in m.seats
  {
    |m.rematch.value.accepted + {m.seats[i].session}| == |m.rematch.value.originals| ==>
      SessionsDiffer(m.seats) && Participants(sessions, m.seats, m.playerCount)
  }

  // Statistics ---------------------------------------------------------------

  datatype Statistics = Statistics(
    activeMatches: nat,
    fillingMatches: nat,
    runningMatches: nat,
    finishedMatches: nat,
    collectedMatches: nat,
    publicJoinableMatches: nat,
    activePlayerSessions: nat,
    totalCreated: nat,
    totalFinished: nat,
    totalCollected: nat,
    totalForfeits: nat,
    totalRematchAccepted: nat,
    totalRematchDeclined: nat)

  datatype Tally = Tally(filling: nat, running: nat, finished: nat, collected: nat, joinable: nat)

  function Having(ids: set<JsString>, matches: map<JsString, Match>, status: Status): set<JsString> {
    set id | id in ids && id in matches && matches[id].status == status
  }

  function Joinable(ids: set<JsString>, matches: map<JsString, Match>): set<JsString> {
    set id | id in ids && id in matches && matches[id].status.Filling? && matches[id].isPublic
  }

  function BoundSessions(sessions: map<JsString, Session>): set<JsString> {
    set sid | sid in sessions && sessions[sid].binding.Some?
  }

  function TallyOf(ids: set<JsString>, matches: map<JsString, Match>): Tally {
    Tally(|Having(ids, matches, Filling)|, |Having(ids, matches, Running)|, |Having(ids, matches, Finished)|,
          |Having(ids, matches, Collected)|, |Joinable(ids, matches)|)
  }

  /** What `stats` reports: the matches of each status, the sessions seated somewhere, and the counters. */
  function StatisticsOf(s: State): Statistics {
    var t := TallyOf(s.matches.Keys, s.matches);
    Statistics(|Active(s.matches)|, t.filling, t.running, t.finished, t.collected, t.joinable,
               |BoundSessions(s.sessions)|, s.totalCreated, s.totalFinished, s.totalCollected, s.totalForfeits,
               s.totalRematchAccepted, s.totalRematchDeclined)
  }

  function Live(ids: set<JsString>, matches: map<JsString, Match>): set<JsString> {
    set id | id in ids && id in matches && !matches[id].status.Collected?
  }

  lemma LiveNext(ids: set<JsString>, id: JsString, matches: map<JsString, Match>)
    requires id !in ids && id in matches
    ensures |Live(ids + {id}, matches)| == |Live(ids, matches)| + if matches[id].status.Collected? then 0 else 1
  {
    if matches[id].status.Collected? {
      assert Live(ids + {id}, matches) == Live(ids, matches);
    } else {
      assert Live(ids + {id}, matches) == Live(ids, matches) + {id};
    }
  }

  lemma HavingNext(ids: set<JsString>, id: JsString, matches: map<JsString, Match>, status: Status)
    requires id !in ids && id in matches
    ensures |Having(ids + {id}, matches, status)|
         == |Having(ids, matches, status)| + if matches[id].status == status then 1 else 0
  {
    if matches[id].status == status {
      assert Having(ids + {id}, matches, status) == Having(ids, matches, status) + {id};
    } else {
      assert Having(ids + {id}, matches, status) == Having(ids, matches, status);
    }
  }

  lemma JoinableNext(ids: set<JsString>, id: JsString, matches: map<JsString, Match>)
    requires id !in ids && id in matches
    ensures |Joinable(ids + {id}, matches)|
         == |Joinable(ids, matches)| + if matches[id].status.Filling? && matches[id].isPublic then 1 else 0
  {
    if matches[id].status.Filling? && matches[id].isPublic {
      assert Joinable(ids + {id}, matches) == Joinable(ids, matches) + {id};
    } else {
      assert Joinable(ids + {id}, matches) == Joinable(ids, matches);
    }
  }

  lemma TallyNext(ids: set<JsString>, id: JsString, matches: map<JsString, Match>)
    requires id !in ids && id in matches
    ensures var m, t, t' := matches[id], TallyOf(ids, matches), TallyOf(ids + {id}, matches);
            && t'.filling == t.filling + (if m.status.Filling? then 1 else 0)
            && t'.running == t.running + (if m.status.Running? then 1 else 0)
            && t'.finished == t.finished + (if m.status.Finished? then 1 else 0)
            && t'.collected == t.collected + (if m.status.Collected? then 1 else 0)
            && t'.joinable == t.joinable + (if m.status.Filling? && m.isPublic then 1 else 0)
  {
    HavingNext(ids, id, matches, Filling);
    HavingNext(ids, id, matches, Running);
    HavingNext(ids, id, matches, Finished);
    HavingNext(ids, id, matches, Collected);
    JoinableNext(ids, id, matches);
  }

  lemma ActiveParts(matches: map<JsString, Match>)
    ensures var t := TallyOf(matches.Keys, matches); |Active(matches)| == t.filling + t.running + t.finished
  {
    var f, r, e := Having(matches.Keys, matches, Filling), Having(matches.Keys, matches, Running),
                   Having(matches.Keys, matches, Finished);
    assert Active(matches) == f + r + e;
    assert f !! r && f + r !! e;
  }

  lemma CollectedParts(matches: map<JsString, Match>)
    ensures TallyOf(matches.Keys, matches).collected == |CollectedIds(matches)|
    ensures |Active(matches)| + |CollectedIds(matches)| == |matches.Keys|
  {
    assert Having(matches.Keys, matches, Collected) == CollectedIds(matches);
    assert matches.Keys == Active(matches) + CollectedIds(matches);
    assert Active(matches) !! CollectedIds(matches);
  }

  /** The counts of the statistics agree with each other and with the counters. */
  lemma StatisticsAgree(s: State, cfg: Config)
    requires Inv(s, cfg)
    ensures var r := StatisticsOf(s);
            && r.activeMatches == r.fillingMatches + r.runningMatches + r.finishedMatches <= cfg.maxConcurrentMatches
            && r.collectedMatches == r.totalCollected && r.activeMatches + r.collectedMatches == r.totalCreated
  {
    ActiveParts(s.matches);
    CollectedParts(s.matches);
  }

  // The object ---------------------------------------------------------------

  class Service {
    const cfg: Config
    var matches: map<JsString, Match>
    var order: seq<JsString>
    var sessions: map<JsString, Session>
    var totalCreated: nat
    var totalFinished: nat
    var totalCollected: nat
    var totalForfeits: nat
    var totalRematchAccepted: nat
    var totalRematchDeclined: nat
    var crashed: bool
    ghost var events: seq<StatusEvent>

    ghost function View(): State
      reads this
    {
      State(matches, order, sessions, totalCreated, totalFinished, totalCollected, totalForfeits,
            totalRematchAccepted, totalRematchDeclined, events, crashed)
    }

    ghost predicate Valid()
      reads this
    {
      Inv(View(), cfg)
    }

    constructor (cfg: Config)
      ensures this.cfg == cfg && View() == EMPTY && Valid()
    {
      this.cfg := cfg;
      matches, order, sessions := map[], [], map[];
      totalCreated, totalFinished, totalCollected, totalForfeits := 0, 0, 0, 0;
      totalRematchAccepted, totalRematchDeclined, crashed, events := 0, 0, false, [];
      new;
      EmptyInv(cfg);
    }

    method TransitionToCollected(id: JsString, atMs: int, results: Option<Results>)
      requires id in matches
      modifies this
      ensures View() == TearDown(old(View()), id, atMs, results)
    {
      var m := matches[id];
      if m.status.Collected? {
        crashed := true;
        return;
      }
      sessions := ReleaseMatchSessions(sessions, id, m.seats);
      if results.Some? {
        m := m.(results := results);
      }
      events := events + [StatusEvent(id, Some(m.status), Collected, atMs)];
      matches := matches[id := m.(status := Collected, lastActivity := atMs)];
    }

    method CollectMatch(id: JsString, atMs: int)
      requires id in matches
      modifies this
      ensures View() == Collect(old(View()), id, atMs)
    {
      TransitionToCollected(id, atMs, None);
      totalCollected := totalCollected + 1;
    }

    /** One of the three sweeps over a snapshot of the store. */
    method SweepMatches(kind: SweepKind, atMs: int)
      modifies this
      ensures View() == Sweep(old(View()), old(order), kind, atMs, cfg)
    {
      var snapshot := order;
      for k := 0 to |snapshot|
        invariant Sweep(View(), snapshot[k..], kind, atMs, cfg) == Sweep(old(View()), snapshot, kind, atMs, cfg)
      {
        assert snapshot[k..][1..] == snapshot[k + 1..];
        var id := snapshot[k];
        if id in matches && Due(matches[id], kind, atMs, cfg) {
          CollectMatch(id, atMs);
        }
      }
      assert snapshot[|snapshot|..] == [];
    }

    method RunLazySweeps(atMs: int)
      modifies this
      ensures View() == RunSweeps(old(View()), atMs, cfg)
    {
      SweepMatches(ExpiredRematches, atMs);
      SweepMatches(ResultsTtl, atMs);
      SweepMatches(StaleEmpty, atMs);
    }

    method CountActive() returns (n: nat)
      requires NoDuplicates(order) && (set id | id in order) == matches.Keys
      ensures n == |Active(matches)|
    {
      n := 0;
      ghost var seen: set<JsString> := {};
      for k := 0 to |order|
        invariant seen == (set id | id in order[..k]) && n == |Live(seen, matches)|
      {
        assert order[..k + 1] == order[..k] + [order[k]];
        assert order[k] in (set id | id in order);
        LiveNext(seen, order[k], matches);
        seen := seen + {order[k]};
        if !matches[order[k]].status.Collected? {
          n := n + 1;
        }
      }
      assert order[..|order|] == order;
      assert Live(matches.Keys, matches) == Active(matches);
    }

    /** `enforceCapacity`. */
    method EnforceCapacity(atMs: int) returns (ok: bool)
      requires Valid()
      modifies this
      ensures View() == RunSweeps(old(View()), atMs, cfg)
      ensures Valid()
      ensures ok <==> !AtCapacity(View(), cfg)
    {
      RunLazySweeps(atMs);
      KeepSwept(old(View()), atMs, cfg);
      var active := CountActive();
      ok := active < cfg.maxConcurrentMatches;
    }

    method PutMatch(id: JsString, m: Match, atMs: int)
      modifies this
      ensures View() == AddMatch(old(View()), id, m, atMs)
    {
      matches := matches[id := m];
      order := order + [id];
      totalCreated := totalCreated + 1;
      events := events + [StatusEvent(id, None, Filling, atMs)];
    }

    method AddSeatToFillingMatch(id: JsString, i: nat, session: JsString, playerId: JsString, token: JsString, atMs: int)
      requires id in matches
      modifies this
      ensures View() == SeatPlayer(old(View()), id, i, session, playerId, token, atMs)
    {
      var m := matches[id];
      var seat := Seat(session, token, playerId, atMs, None);
      matches := matches[id := m.(seats := m.seats[i := seat], lastActivity := atMs)];
      sessions := sessions[session := Session(playerId, Some(Binding(id, i, token)))];
    }

    method CreateMatch(isPublic: bool, playerCount: nat, id: JsString, session: JsString, playerId: JsString, token: JsString,
                       sweepAt: int, atMs: int) returns (r: Reply)
      requires Valid() && Admissible(View(), Create(isPublic, playerCount, id, session, playerId, token, sweepAt, atMs))
      modifies this
      ensures (View(), r) == Step(old(View()), Create(isPublic, playerCount, id, session, playerId, token, sweepAt, atMs), cfg)
      ensures Valid()
    {
      ghost var op := Create(isPublic, playerCount, id, session, playerId, token, sweepAt, atMs);
      StepKeepsInv(View(), op, cfg);
      var ok := EnforceCapacity(sweepAt);
      if !ok {
        return Refused(RateLimited);
      }
      PutMatch(id, NewMatch(isPublic, playerCount, atMs, None), atMs);
      AddSeatToFillingMatch(id, 0, session, playerId, token, atMs);
      return Seated(id, 0, playerId, session, token);
    }

    /** The start-up critical section; on success the match is running. */
    method AutoStart(id: JsString, boot: Boot) returns (ok: bool)
      requires id in matches && forall i :: i in matches[id].seats ==> i < matches[id].playerCount
      modifies this
      ensures ok <==> Starts(old(matches[id]), boot) && old(matches[id]).status.Filling?
      ensures var s := WithMatch(old(View()), id, WithSeed(old(matches[id]), boot));
              View() == if Starts(old(matches[id]), boot) then Start(s, id, boot.atMs) else s
    {
      var m := matches[id];
      if m.initialSeed.None? {
        m := m.(initialSeed := Some(boot.seed));
      }
      matches := matches[id := m];
      var ordered := OrderedSeats(m);
      if ordered.None? {
        return false;
      }
      var differ := PlayersDiffer(ordered.value);
      assert differ <==> DistinctPlayers(m) by {
        OrderedPlayers(m, ordered.value);
      }
      if !differ || !boot.ok {
        return false;
      }
      if !m.status.Filling? {
        crashed := true;
        return false;
      }
      matches := matches[id := m.(status := Running, hasEngine := true, startedAt := Some(boot.atMs), lastActivity := boot.atMs)];
      events := events + [StatusEvent(id, Some(Filling), Running, boot.atMs)];
      return true;
    }

    method JoinMatch(id: JsString, session: JsString, playerId: JsString, token: JsString, atMs: int, boot: Boot)
      returns (r: Reply)
      requires Valid() && Admissible(View(), Join(id, session, playerId, token, atMs, boot))
      modifies this
      ensures (View(), r) == Step(old(View()), Join(id, session, playerId, token, atMs, boot), cfg)
      ensures Valid()
    {
      StepKeepsInv(View(), Join(id, session, playerId, token, atMs, boot), cfg);
      if id !in matches {
        return Refused(MatchNotFound);
      }
      SeatsInRange(View(), id, cfg);
      var free := LowestFreeSeat(matches[id]);
      if free.None? {
        return Refused(MatchFull);
      }
      if !matches[id].status.Filling? {
        return Refused(MatchNotJoinable);
      }
      r := SeatJoiner(id, free.value, session, playerId, token, atMs, boot);
    }

    method SeatJoiner(id: JsString, i: nat, session: JsString, playerId: JsString, token: JsString, atMs: int, boot: Boot)
      returns (r: Reply)
      requires id in matches && i < matches[id].playerCount
      requires forall k :: k in matches[id].seats ==> k < matches[id].playerCount
      modifies this
      ensures (View(), r) == TakeSeat(old(View()), id, i, session, playerId, token, atMs, boot)
    {
      AddSeatToFillingMatch(id, i, session, playerId, token, atMs);
      if |matches[id].seats| >= matches[id].playerCount {
        var started := AutoStart(id, boot);
        if !started {
          var m := matches[id];
          matches := matches[id := m.(seats := m.seats - {i}, lastActivity := boot.atMs)];
          sessions := sessions - {session};
          return Refused(InternalError);
        }
      }
      return Seated(id, i, playerId, session, token);
    }

    /** The reconnect branch of `joinMatch`. */
    method ReconnectSeat(id: JsString, token: JsString) returns (r: Reply)
      requires Valid()
      ensures r == Reconnect(View(), id, token)
    {
      if id !in matches {
        return Refused(MatchNotFound);
      }
      TokensDiffer(View(), id, cfg);
      var m := matches[id];
      var i := FindSeatByToken(m.seats, token);
      if i.None? {
        return Refused(MatchNotFound);
      }
      var seat := m.seats[i.value];
      if seat.forfeitedAt.Some? || m.status.Finished? || m.status.Collected? {
        return Refused(SessionExpired);
      }
      return Seated(id, i.value, seat.playerId, seat.session, seat.token);
    }

    /** `handleSeatExpired`; `None` is its no-op. */
    method HandleSeatExpired(id: JsString, token: JsString, atMs: int, alive: nat) returns (r: Option<ForfeitOutcome>)
      requires id in matches ==> DistinctTokens(matches[id].seats)
      modifies this
      ensures var e := ExpireSeat(old(View()), id, token, atMs, alive);
              if e.None? then r.None? && View() == old(View()) else r == Some(e.value.1) && View() == e.value.0
    {
      if id !in matches {
        return None;
      }
      var m := matches[id];
      var found := FindSeatByToken(m.seats, token);
      if found.None? || m.seats[found.value].forfeitedAt.Some? {
        return None;
      }
      var i := found.value;
      if m.status.Filling? {
        var sid := m.seats[i].session;
        matches := matches[id := m.(seats := m.seats - {i})];
        if sid in sessions {
          sessions := sessions[sid := sessions[sid].(binding := None)];
        }
        return Some(SeatReleased);
      }
      if !m.status.Running? || !m.hasEngine {
        return None;
      }
      matches := matches[id := m.(seats := m.seats[i := m.seats[i].(forfeitedAt := Some(atMs))])];
      if alive == 0 {
        TransitionToCollected(id, atMs, Some(CancelledAllForfeited));
        return Some(TornDown);
      }
      return Some(Surrendered);
    }

    method OnSeatExpired(id: JsString, token: JsString, atMs: int, alive: nat)
      requires Valid()
      modifies this
      ensures View() == Step(old(View()), SeatExpiry(id, token, atMs, alive), cfg).0
      ensures Valid()
    {
      ghost var before := View();
      TokensDiffer(before, id, cfg);
      ExpireAndCount(id, token, atMs, alive);
      KeepStep(before, SeatExpiry(id, token, atMs, alive), View(), cfg);
    }

    method ExpireAndCount(id: JsString, token: JsString, atMs: int, alive: nat)
      requires id in matches ==> DistinctTokens(matches[id].seats)
      modifies this
      ensures View() == MatchModel.OnSeatExpired(old(View()), id, token, atMs, alive)
    {
      var outcome := HandleSeatExpired(id, token, atMs, alive);
      if outcome.None? || outcome.value.SeatReleased? {
        return;
      }
      totalForfeits := totalForfeits + 1;
      if outcome.value.TornDown? {
        totalCollected := totalCollected + 1;
      }
    }

    method LeaveMatch(id: JsString, token: JsString, atMs: int, alive: nat) returns (r: Reply)
      requires Valid()
      modifies this
      ensures (View(), r) == Step(old(View()), Leave(id, token, atMs, alive), cfg)
      ensures Valid()
    {
      ghost var before := View();
      TokensDiffer(before, id, cfg);
      r := LeaveSeat(id, token, atMs, alive);
      KeepStep(before, Leave(id, token, atMs, alive), View(), cfg);
    }

    method LeaveSeat(id: JsString, token: JsString, atMs: int, alive: nat) returns (r: Reply)
      requires id in matches ==> DistinctTokens(matches[id].seats)
      modifies this
      ensures (View(), r) == MatchModel.LeaveMatch(old(View()), id, token, atMs, alive)
    {
      if id !in matches {
        return Refused(MatchNotFound);
      }
      var m := matches[id];
      var i := FindSeatByToken(m.seats, token);
      if i.None? {
        return Refused(SessionInvalid);
      }
      if m.seats[i.value].forfeitedAt.Some? {
        return Done;
      }
      if m.status.Filling? {
        LeaveFillingMatch(id, i.value, token, atMs, alive);
      } else if m.status.Running? {
        LeaveRunningMatch(id, token, atMs, alive);
      }
      return Done;
    }

    method LeaveRunningMatch(id: JsString, token: JsString, atMs: int, alive: nat)
      requires id in matches ==> DistinctTokens(matches[id].seats)
      modifies this
      ensures View() == MatchModel.LeaveRunning(old(View()), id, token, atMs, alive)
    {
      var outcome := HandleSeatExpired(id, token, atMs, alive);
      if outcome.None? {
        crashed := true;
      } else if outcome.value.TornDown? {
        totalCollected := totalCollected + 1;
      }
    }

    method LeaveFillingMatch(id: JsString, i: nat, token: JsString, atMs: int, alive: nat)
      requires id in matches && i in matches[id].seats && DistinctTokens(matches[id].seats)
      modifies this
      ensures View() == LeaveFilling(old(View()), id, i, token, atMs, alive)
    {
      var sid := matches[id].seats[i].session;
      var outcome := HandleSeatExpired(id, token, atMs, alive);
      if outcome.None? || !outcome.value.SeatReleased? || id !in matches {
        crashed := true;
      } else if matches[id].seats == map[] {
        sessions := sessions - {sid};
        CollectMatch(id, atMs);
      } else {
        matches := matches[id := matches[id].(lastActivity := atMs)];
      }
    }

    method OnMatchTerminal(id: JsString, payload: int, atMs: int)
      requires Valid()
      modifies this
      ensures View() == Step(old(View()), Terminal(id, payload, atMs), cfg).0
      ensures Valid()
    {
      ghost var before := View();
      HandleMatchTerminal(id, payload, atMs);
      KeepStep(before, Terminal(id, payload, atMs), View(), cfg);
    }

    method HandleMatchTerminal(id: JsString, payload: int, atMs: int)
      modifies this
      ensures View() == MatchModel.OnMatchTerminal(old(View()), id, payload, atMs)
    {
      if id !in matches || !matches[id].status.Running? || !matches[id].hasEngine {
        return;
      }
      TransitionRunningToFinished(id, payload, atMs);
      totalFinished := totalFinished + 1;
    }

    method TransitionRunningToFinished(id: JsString, payload: int, atMs: int)
      requires id in matches
      modifies this
      ensures View() == Finish(old(View()), id, payload, atMs)
    {
      var m := matches[id];
      if !m.status.Running? {
        crashed := true;
        return;
      }
      m := m.(results := Some(Outcome(payload)), finishedAt := Some(atMs), rematch := None);
      matches := matches[id := m.(status := Finished, lastActivity := atMs)];
      events := events + [StatusEvent(id, Some(Running), Finished, atMs)];
    }

    /** `stats` sweeps before it counts. */
    method Stats(atMs: int) returns (r: Statistics)
      requires Valid()
      modifies this
      ensures View() == Step(old(View()), Read(atMs), cfg).0 && Valid()
      ensures r == StatisticsOf(View())
      ensures r.activeMatches <= cfg.maxConcurrentMatches
      ensures r.collectedMatches == r.totalCollected && r.activeMatches + r.collectedMatches == r.totalCreated
    {
      RunLazySweeps(atMs);
      KeepSwept(old(View()), atMs, cfg);
      var c := CountByStatus();
      r := Statistics(c.filling + c.running + c.finished, c.filling, c.running, c.finished, c.collected, c.joinable,
                      |BoundSessions(sessions)|, totalCreated, totalFinished, totalCollected, totalForfeits,
                      totalRematchAccepted, totalRematchDeclined);
      StatisticsAgree(View(), cfg);
    }

    method CountByStatus() returns (c: Tally)
      requires NoDuplicates(order) && (set id | id in order) == matches.Keys
      ensures c == TallyOf(matches.Keys, matches)
    {
      c := Tally(0, 0, 0, 0, 0);
      ghost var seen: set<JsString> := {};
      for k := 0 to |order|
        invariant seen == (set id | id in order[..k]) && c == TallyOf(seen, matches)
      {
        assert order[..k + 1] == order[..k] + [order[k]];
        assert order[k] in (set id | id in order);
        TallyNext(seen, order[k], matches);
        seen := seen + {order[k]};
        var m := matches[order[k]];
        match m.status {
          case Filling =>
            c := c.(filling := c.filling + 1);
            if m.isPublic {
              c := c.(joinable := c.joinable + 1);
            }
          case Running => c := c.(running := c.running + 1);
          case Finished => c := c.(finished := c.finished + 1);
          case Collected => c := c.(collected := c.collected + 1);
        }
      }
      assert order[..|order|] == order;
    }

    method RequestRematch(id: JsString, token: JsString, offerId: JsString, atMs: int) returns (r: Reply)
      requires Valid()
      modifies this
      ensures (View(), r) == Step(old(View()), Request(id, token, offerId, atMs), cfg)
      ensures Valid()
    {
      ghost var before := View();
      TokensDiffer(before, id, cfg);
      r := OpenRematchWindow(id, token, offerId, atMs);
      KeepStep(before, Request(id, token, offerId, atMs), View(), cfg);
    }

    method OpenRematchWindow(id: JsString, token: JsString, offerId: JsString, atMs: int) returns (r: Reply)
      requires id in matches ==> DistinctTokens(matches[id].seats)
      modifies this
      ensures (View(), r) == MatchModel.RequestRematch(old(View()), id, token, offerId, atMs, cfg)
    {
      if id !in matches {
        return Refused(MatchNotFound);
      }
      var m := matches[id];
      if !m.status.Finished? {
        return Refused(RematchNotOffered);
      }
      var i := FindSeatByToken(m.seats, token);
      if i.None? {
        return Refused(SessionInvalid);
      }
      if m.rematch.Some? {
        if ClassifyVoter(m.rematch.value, m.seats[i.value].session).AlreadyVoted? {
          return Refused(RematchAlreadyVoted);
        }
        if IsWindowClosed(m.rematch.value, atMs) {
          return Refused(RematchWindowClosed);
        }
        return Offered(m.rematch.value.offerId);
      }
      var offer := OpenWindow(m, offerId, atMs, cfg);
      if IsWindowClosed(offer, atMs) {
        return Refused(RematchWindowClosed);
      }
      matches := matches[id := m.(rematch := Some(offer))];
      return Offered(offerId);
    }

    /** The checks both votes make before anything changes. */
    method CheckVote(id: JsString, token: JsString, offerId: JsString, atMs: int) returns (r: Result<nat, MatchError>)
      requires id in matches ==> DistinctTokens(matches[id].seats)
      ensures r == VoteGate(View(), id, token, offerId, atMs)
    {
      if id !in matches {
        return Err(MatchNotFound);
      }
      var m := matches[id];
      if !m.status.Finished? || m.rematch.None? || m.rematch.value.offerId != offerId {
        return Err(RematchNotOffered);
      }
      var found := FindSeatByToken(m.seats, token);
      if found.None? {
        return Err(SessionInvalid);
      }
      var seat := m.seats[found.value];
      if seat.forfeitedAt.Some? || seat.session !in sessions {
        return Err(SessionInvalid);
      }
      match ClassifyVoter(m.rematch.value, seat.session) {
        case NotInMatch => return Err(PlayerNotInMatch);
        case AlreadyVoted => return Err(RematchAlreadyVoted);
        case Eligible =>
      }
      if IsWindowClosed(m.rematch.value, atMs) {
        return Err(RematchWindowClosed);
      }
      return Ok(found.value);
    }

    method AcceptRematch(id: JsString, token: JsString, offerId: JsString, newId: JsString, seed: u32, tokens: seq<JsString>,
                         atMs: int) returns (r: Reply)
      requires Valid() && Admissible(View(), Accept(id, token, offerId, newId, seed, tokens, atMs))
      modifies this
      ensures (View(), r) == Step(old(View()), Accept(id, token, offerId, newId, seed, tokens, atMs), cfg)
      ensures Valid()
    {
      ghost var before := View();
      StepKeepsInv(before, Accept(id, token, offerId, newId, seed, tokens, atMs), cfg);
      TokensDiffer(before, id, cfg);
      var gate := CheckVote(id, token, offerId, atMs);
      if gate.Err? {
        return Refused(gate.error);
      }
      var i := gate.value;
      VoteFacts(before, id, token, offerId, newId, seed, tokens, atMs, cfg);
      var ok := EnforceCapacity(atMs);
      if !ok {
        return Refused(RateLimited);
      }
      ReadyToVote(View(), id, i, cfg);
      r := VoteAndResolve(id, i, newId, seed, tokens, atMs);
    }

    /** The vote itself and, if it is the last, the resolution. */
    method VoteAndResolve(id: JsString, i: nat, newId: JsString, seed: u32, tokens: seq<JsString>, atMs: int) returns (r: Reply)
      requires id in matches && matches[id].rematch.Some? && i in matches[id].seats && newId !in matches
      requires Movable(sessions, matches[id], i)
      modifies this
      ensures (View(), r) == VoteOutcome(old(View()), id, i, old(matches[id].seats[i]), newId, seed, tokens, atMs)
    {
      var seat := matches[id].seats[i];
      CastAcceptVote(id, seat.session);
      var o := matches[id].rematch.value;
      if |o.accepted| != |o.originals| {
        return Voted;
      }
      ResolveRematch(id, newId, seed, tokens, atMs);
      if newId !in matches || i !in matches[newId].seats {
        crashed := true;
        return Done;
      }
      var callerSeat := matches[newId].seats[i];
      return Seated(newId, i, callerSeat.playerId, callerSeat.session, callerSeat.token);
    }

    method CastAcceptVote(id: JsString, voter: JsString)
      requires id in matches && matches[id].rematch.Some?
      modifies this
      ensures View() == CastAccept(old(View()), id, voter)
    {
      var m := matches[id];
      var o := m.rematch.value;
      matches := matches[id := m.(rematch := Some(o.(accepted := o.accepted + {voter})))];
      totalRematchAccepted := totalRematchAccepted + 1;
    }

    /** The resolution: the successor is created, the original collected. */
    method ResolveRematch(id: JsString, newId: JsString, seed: u32, tokens: seq<JsString>, atMs: int)
      requires id in matches && matches[id].rematch.Some? && newId !in matches
      requires SessionsDiffer(matches[id].seats) && Participants(sessions, matches[id].seats, matches[id].playerCount)
      modifies this
      ensures View() == Resolve(old(View()), id, newId, seed, tokens, atMs)
    {
      var m := matches[id];
      var seats, bound := SeatParticipants(sessions, m, newId, tokens, atMs);
      PutMatch(newId, NewMatch(m.isPublic, m.playerCount, atMs, Some(seed)).(seats := seats), atMs);
      sessions := bound;
      matches := matches[id := m.(rematch := Some(m.rematch.value.(successor := Some(newId))))];
      CollectMatch(id, atMs);
    }

    method DeclineRematch(id: JsString, token: JsString, offerId: JsString, checkAt: int, atMs: int) returns (r: Reply)
      requires Valid()
      modifies this
      ensures (View(), r) == Step(old(View()), Decline(id, token, offerId, checkAt, atMs), cfg)
      ensures Valid()
    {
      ghost var before := View();
      TokensDiffer(before, id, cfg);
      r := CastDeclineVote(id, token, offerId, checkAt, atMs);
      KeepStep(before, Decline(id, token, offerId, checkAt, atMs), View(), cfg);
    }

    method CastDeclineVote(id: JsString, token: JsString, offerId: JsString, checkAt: int, atMs: int) returns (r: Reply)
      requires id in matches ==> DistinctTokens(matches[id].seats)
      modifies this
      ensures (View(), r) == MatchModel.DeclineRematch(old(View()), id, token, offerId, checkAt, atMs)
    {
      var gate := CheckVote(id, token, offerId, checkAt);
      if gate.Err? {
        return Refused(gate.error);
      }
      var m := matches[id];
      var o := m.rematch.value;
      matches := matches[id := m.(rematch := Some(o.(declined := o.declined + {m.seats[gate.value].session})))];
      totalRematchDeclined := totalRematchDeclined + 1;
      CollectMatch(id, atMs);
      return Done;
    }
  }

  // What the object draws from its invariant ---------------------------------

  method LowestFreeSeat(m: Match) returns (r: Option<nat>)
    ensures r == FreeSeat(m.seats, 0, m.playerCount)
  {
    for index := 0 to m.playerCount
      invariant FreeSeat(m.seats, 0, m.playerCount) == FreeSeat(m.seats, index, m.playerCount)
    {
      if index !in m.seats {
        return Some(index);
      }
    }
    return None;
  }

  lemma OrderedPlayers(m: Match, ordered: seq<Seat>)
    requires Full(m) && (forall i :: i in m.seats ==> i < m.playerCount)
    requires |ordered| == m.playerCount && forall i :: 0 <= i < m.playerCount ==> ordered[i] == m.seats[i]
    ensures (forall i, j :: 0 <= i < j < |ordered| ==> ordered[i].playerId != ordered[j].playerId) <==> DistinctPlayers(m)
  {
    if forall i, j :: 0 <= i < j < |ordered| ==> ordered[i].playerId != ordered[j].playerId {
      forall i, j | i in m.seats && j in m.seats && i != j ensures m.seats[i].playerId != m.seats[j].playerId {
        assert ordered[i] == m.seats[i] && ordered[j] == m.seats[j];
      }
    }
  }

  lemma TokensDiffer(s: State, id: JsString, cfg: Config)
    requires Inv(s, cfg)
    ensures id in s.matches ==> DistinctTokens(s.matches[id].seats)
  {
    if id in s.matches {
      assert RecordOk(s.matches[id], cfg);
    }
  }

  lemma SeatsInRange(s: State, id: JsString, cfg: Config)
    requires Inv(s, cfg) && id in s.matches
    ensures forall i :: i in s.matches[id].seats ==> i < s.matches[id].playerCount
  {
    assert RecordOk(s.matches[id], cfg);
  }

  lemma KeepStep(s: State, op: Op, s': State, cfg: Config)
    requires Inv(s, cfg) && Admissible(s, op) && s' == Step(s, op, cfg).0
    ensures Inv(s', cfg)
  {
    StepKeepsInv(s, op, cfg);
  }

  lemma KeepSwept(s: State, atMs: int, cfg: Config)
    requires Inv(s, cfg)
    ensures Inv(RunSweeps(s, atMs, cfg), cfg)
  {
    StepKeepsInv(s, Read(atMs), cfg);
  }

  /** What a vote past the gate knows after the sweep. */
  lemma VoteFacts(s: State, id: JsString, token: JsString, offerId: JsString, newId: JsString, seed: u32,
                  tokens: seq<JsString>, atMs: int, cfg: Config)
    requires Inv(s, cfg) && VoteGate(s, id, token, offerId, atMs).Ok?
    ensures var m := s.matches[id];
            var i := VoteGate(s, id, token, offerId, atMs).value;
            && m.status.Finished? && m.seats[i].forfeitedAt.None?
            && m.seats[i].session in m.rematch.value.originals && m.seats[i].session !in m.rematch.value.accepted
            && RunSweeps(s, atMs, cfg).matches[id] == m
            && (forall k :: k in m.seats ==> k < m.playerCount)
  {
    GatePassed(s, id, token, offerId, atMs, cfg);
    GateOpen(s, id, token, offerId, atMs, cfg);
    SweepsSpareOpenWindow(s, atMs, cfg, id);
    SeatsInRange(s, id, cfg);
  }

  lemma ReadyToVote(s: State, id: JsString, i: nat, cfg: Config)
    requires Inv(s, cfg) && id in s.matches && s.matches[id].status.Finished? && s.matches[id].rematch.Some?
    requires i in s.matches[id].seats && s.matches[id].seats[i].forfeitedAt.None?
    requires s.matches[id].seats[i].session in s.matches[id].rematch.value.originals
    requires s.matches[id].seats[i].session !in s.matches[id].rematch.value.accepted
    ensures Movable(s.sessions, s.matches[id], i)
  {
    var voter := s.matches[id].seats[i].session;
    if |s.matches[id].rematch.value.accepted + {voter}| == |s.matches[id].rematch.value.originals| {
      LastVoteCompletes(s, id, i, cfg);
      PlayersOfSeats(CastAccept(s, id, voter), id);
      SeatsInRange(s, id, cfg);
    }
  }

  lemma PlayersOfSeats(s: State, id: JsString)
    requires AllAccepted(s, id)
    ensures forall i :: i in s.matches[id].seats ==>
              && s.matches[id].seats[i].session in s.sessions
              && s.sessions[s.matches[id].seats[i].session].playerId == s.matches[id].seats[i].playerId
    ensures SessionsDiffer(s.matches[id].seats)
  {
    forall i | i in s.matches[id].seats ensures SeatBound(s.sessions, id, i, s.matches[id].seats[i]) {
    }
  }
}
