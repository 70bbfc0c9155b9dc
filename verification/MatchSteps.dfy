/** Every operation of the matchmaker keeps its invariant. */
module MatchSteps {
  import opened Js
  import opened MatchModel
  import opened MatchInvariant

  // Collecting and sweeping --------------------------------------------------

  /** One record replaced, its books and bindings settled. */
  lemma InvAfter(s: State, s': State, id: JsString, m: Match, cfg: Config)
    requires RecordsOk(s.matches, cfg) && Lineage(s.matches) && id in s.matches
    requires s'.matches == s.matches[id := m] && RecordOk(m, cfg) && Successor(m) == Successor(s.matches[id])
    requires BooksOk(s', cfg) && Bound(s'.matches, s'.sessions)
    ensures Inv(s', cfg)
  {
    LineageKept(s.matches, id, m);
    RecordsAdded(s.matches, id, m, cfg);
  }

  predicate SameSeating(m: Match, m': Match) {
    SameHolders(m.seats, m'.seats) && m'.status.Collected? == m.status.Collected? && Successor(m') == Successor(m)
  }

  /** A record changes in place: same status, same seating, nothing emitted or counted. */
  lemma UpdatedKeeps(s: State, s': State, id: JsString, m: Match, cfg: Config)
    requires Inv(s, cfg) && id in s.matches && s'.matches == s.matches[id := m] && s'.sessions == s.sessions
    requires m.status == s.matches[id].status && m.finishedAt.Some? == s.matches[id].finishedAt.Some?
    requires SameSeating(s.matches[id], m) && RecordOk(m, cfg)
    requires s'.order == s.order && s'.events == s.events && s'.crashed == s.crashed
    requires s'.totalCreated == s.totalCreated && s'.totalFinished == s.totalFinished
    requires s'.totalCollected == s.totalCollected
    ensures Inv(s', cfg)
  {
    assert BooksOk(s', cfg) by {
      BooksUnmoved(s, s', id, m, cfg);
    }
    assert Bound(s'.matches, s'.sessions) by {
      BoundSameHolders(s.matches, s.sessions, id, m);
    }
    InvAfter(s, s', id, m, cfg);
  }

  /** A live record moves on to another live status, with its event. */
  lemma AdvancedKeeps(s: State, s': State, id: JsString, m: Match, atMs: int, cfg: Config)
    requires Inv(s, cfg) && id in s.matches && s'.matches == s.matches[id := m] && s'.sessions == s.sessions
    requires LegalEdge(Some(s.matches[id].status), m.status) && !m.status.Collected?
    requires SameSeating(s.matches[id], m) && RecordOk(m, cfg)
    requires s'.order == s.order && s'.crashed == s.crashed
    requires s'.events == s.events + [StatusEvent(id, Some(s.matches[id].status), m.status, atMs)]
    requires s.matches[id].finishedAt.Some? ==> m.finishedAt.Some?
    requires s'.totalCreated == s.totalCreated && s'.totalCollected == s.totalCollected
    requires s'.totalFinished == s.totalFinished + if m.finishedAt.Some? && s.matches[id].finishedAt.None? then 1 else 0
    ensures Inv(s', cfg)
  {
    assert BooksOk(s', cfg) by {
      BooksMoved(s, s', id, m, atMs, cfg);
    }
    assert Bound(s'.matches, s'.sessions) by {
      BoundSameHolders(s.matches, s.sessions, id, m);
    }
    InvAfter(s, s', id, m, cfg);
  }

  function CollectedRecord(m: Match, atMs: int, results: Option<Results>): Match {
    m.(status := Collected, lastActivity := atMs, results := if results.Some? then results else m.results)
  }

  lemma CollectedRecordOk(m: Match, atMs: int, results: Option<Results>, cfg: Config)
    requires RecordOk(m, cfg) && !m.status.Collected?
    ensures RecordOk(CollectedRecord(m, atMs, results), cfg)
  {
  }

  /** The books, the bindings and the rest, for a match that leaves the live ones. */
  lemma CollectBooks(s: State, s': State, id: JsString, m: Match, atMs: int, cfg: Config)
    requires BooksOk(s, cfg) && id in s.matches && !s.matches[id].status.Collected?
    requires m.status.Collected? && m.finishedAt == s.matches[id].finishedAt
    requires s'.matches == s.matches[id := m] && s'.order == s.order && s'.crashed == s.crashed
    requires s'.events == s.events + [StatusEvent(id, Some(s.matches[id].status), Collected, atMs)]
    requires s'.totalCreated == s.totalCreated && s'.totalFinished == s.totalFinished
    requires s'.totalCollected == s.totalCollected + 1
    ensures BooksOk(s', cfg)
    ensures |Active(s'.matches)| == |Active(s.matches)| - 1
  {
    BooksMoved(s, s', id, m, atMs, cfg);
  }

  lemma CollectedKeeps(s: State, s': State, id: JsString, m: Match, atMs: int, cfg: Config)
    requires Inv(s, cfg) && id in s.matches && !s.matches[id].status.Collected?
    requires m.status.Collected? && RecordOk(m, cfg)
    requires m.finishedAt == s.matches[id].finishedAt && Successor(m) == Successor(s.matches[id])
    requires s'.matches == s.matches[id := m] && s'.order == s.order && s'.crashed == s.crashed
    requires s'.events == s.events + [StatusEvent(id, Some(s.matches[id].status), Collected, atMs)]
    requires s'.totalCreated == s.totalCreated && s'.totalFinished == s.totalFinished
    requires s'.totalCollected == s.totalCollected + 1
    requires s'.sessions == Released(s.sessions, id, s.matches[id].seats)
    ensures Inv(s', cfg)
    ensures |Active(s'.matches)| == |Active(s.matches)| - 1
  {
    CollectBooks(s, s', id, m, atMs, cfg);
    assert Bound(s'.matches, s'.sessions) by {
      BoundCollected(s.matches, s.sessions, id, m);
    }
    InvAfter(s, s', id, m, cfg);
  }

  /** A live match is torn down and counted. */
  lemma CollectKeeps(s: State, id: JsString, atMs: int, results: Option<Results>, cfg: Config)
    requires Inv(s, cfg) && id in s.matches && !s.matches[id].status.Collected?
    ensures Inv(CountCollected(TearDown(s, id, atMs, results)), cfg)
    ensures |Active(TearDown(s, id, atMs, results).matches)| == |Active(s.matches)| - 1
  {
    CollectedRecordOk(s.matches[id], atMs, results, cfg);
    CollectedKeeps(s, CountCollected(TearDown(s, id, atMs, results)), id,
                   CollectedRecord(s.matches[id], atMs, results), atMs, cfg);
  }

  lemma {:induction false} SweepKeeps(s: State, ids: seq<JsString>, kind: SweepKind, atMs: int, cfg: Config)
    requires Inv(s, cfg)
    ensures Inv(Sweep(s, ids, kind, atMs, cfg), cfg)
    ensures |Active(Sweep(s, ids, kind, atMs, cfg).matches)| <= |Active(s.matches)|
    decreases |ids|
  {
    if ids != [] {
      if ids[0] in s.matches && Due(s.matches[ids[0]], kind, atMs, cfg) {
        CollectKeeps(s, ids[0], atMs, None, cfg);
        SweepKeeps(Collect(s, ids[0], atMs), ids[1..], kind, atMs, cfg);
      } else {
        SweepKeeps(s, ids[1..], kind, atMs, cfg);
      }
    }
  }

  lemma RunSweepsKeeps(s: State, atMs: int, cfg: Config)
    requires Inv(s, cfg)
    ensures Inv(RunSweeps(s, atMs, cfg), cfg)
  {
    var s1 := Sweep(s, s.order, ExpiredRematches, atMs, cfg);
    var s2 := Sweep(s1, s1.order, ResultsTtl, atMs, cfg);
    SweepKeeps(s, s.order, ExpiredRematches, atMs, cfg);
    SweepKeeps(s1, s1.order, ResultsTtl, atMs, cfg);
    SweepKeeps(s2, s2.order, StaleEmpty, atMs, cfg);
  }

  /** A sweep only ever takes sessions away. */
  lemma {:induction false} SweepAddsNoSession(s: State, ids: seq<JsString>, kind: SweepKind, atMs: int, cfg: Config)
    ensures Sweep(s, ids, kind, atMs, cfg).sessions.Keys <= s.sessions.Keys
    decreases |ids|
  {
    if ids != [] {
      if ids[0] in s.matches && Due(s.matches[ids[0]], kind, atMs, cfg) {
        SweepAddsNoSession(Collect(s, ids[0], atMs), ids[1..], kind, atMs, cfg);
      } else {
        SweepAddsNoSession(s, ids[1..], kind, atMs, cfg);
      }
    }
  }

  lemma RunSweepsAddsNoSession(s: State, atMs: int, cfg: Config)
    ensures RunSweeps(s, atMs, cfg).sessions.Keys <= s.sessions.Keys
  {
    var s1 := Sweep(s, s.order, ExpiredRematches, atMs, cfg);
    var s2 := Sweep(s1, s1.order, ResultsTtl, atMs, cfg);
    SweepAddsNoSession(s, s.order, ExpiredRematches, atMs, cfg);
    SweepAddsNoSession(s1, s1.order, ResultsTtl, atMs, cfg);
    SweepAddsNoSession(s2, s2.order, StaleEmpty, atMs, cfg);
  }

  // Creating and joining -----------------------------------------------------

  lemma RecordsAdded(ms: map<JsString, Match>, id: JsString, m: Match, cfg: Config)
    requires RecordsOk(ms, cfg) && RecordOk(m, cfg)
    ensures RecordsOk(ms[id := m], cfg)
  {
  }

  lemma AddMatchKeeps(s: State, id: JsString, isPublic: bool, playerCount: nat, atMs: int, cfg: Config)
    requires Inv(s, cfg) && id !in s.matches && 2 <= playerCount <= MAX_SEATS
    requires |Active(s.matches)| < cfg.maxConcurrentMatches
    ensures Inv(AddMatch(s, id, NewMatch(isPublic, playerCount, atMs, None), atMs), cfg)
  {
    var m := NewMatch(isPublic, playerCount, atMs, None);
    var s' := AddMatch(s, id, m, atMs);
    assert BooksOk(s', cfg) by {
      BooksAdded(s, id, m, atMs, cfg);
    }
    assert Bound(s'.matches, s'.sessions) by {
      BoundEmptyMatch(s.matches, s.sessions, id, m);
    }
    assert Lineage(s'.matches) by {
      LineageKept(s.matches, id, m);
    }
    RecordsAdded(s.matches, id, m, cfg);
  }

  lemma SeatedRecordOk(m: Match, i: nat, seat: Seat, atMs: int, cfg: Config)
    requires RecordOk(m, cfg) && m.status.Filling? && i !in m.seats && i < m.playerCount
    requires !HasToken(m.seats, seat.token) && seat.forfeitedAt.None?
    ensures RecordOk(m.(seats := m.seats[i := seat], lastActivity := atMs), cfg)
  {
  }

  lemma SeatPlayerKeeps(s: State, id: JsString, i: nat, session: JsString, playerId: JsString, token: JsString, atMs: int,
                        cfg: Config)
    requires Inv(s, cfg) && id in s.matches && s.matches[id].status.Filling?
    requires i !in s.matches[id].seats && i < s.matches[id].playerCount
    requires session !in s.sessions && !HasToken(s.matches[id].seats, token)
    ensures Inv(SeatPlayer(s, id, i, session, playerId, token, atMs), cfg)
  {
    var s' := SeatPlayer(s, id, i, session, playerId, token, atMs);
    var m' := s'.matches[id];
    SeatedRecordOk(s.matches[id], i, m'.seats[i], atMs, cfg);
    assert BooksOk(s', cfg) by {
      BooksUnmoved(s, s', id, m', cfg);
    }
    assert Bound(s'.matches, s'.sessions) by {
      BoundSeated(s.matches, s.sessions, id, m', i, m'.seats[i]);
    }
    InvAfter(s, s', id, m', cfg);
  }

  lemma CreateKeeps(s: State, isPublic: bool, playerCount: nat, id: JsString, session: JsString, playerId: JsString,
                    token: JsString, sweepAt: int, atMs: int, cfg: Config)
    requires Inv(s, cfg) && 2 <= playerCount <= MAX_SEATS && id !in s.matches && session !in s.sessions
    ensures Inv(CreateMatch(s, isPublic, playerCount, id, session, playerId, token, sweepAt, atMs, cfg).0, cfg)
  {
    var s1 := RunSweeps(s, sweepAt, cfg);
    RunSweepsKeeps(s, sweepAt, cfg);
    RunSweepsAddsNoSession(s, sweepAt, cfg);
    if !AtCapacity(s1, cfg) {
      AddMatchKeeps(s1, id, isPublic, playerCount, atMs, cfg);
      SeatPlayerKeeps(AddMatch(s1, id, NewMatch(isPublic, playerCount, atMs, None), atMs), id, 0, session, playerId, token,
                      atMs, cfg);
    }
  }

  /** As many seats as places, all of them in range, is a full match. */
  lemma {:induction false} FullByCount(keys: set<nat>, n: nat)
    requires (forall i :: i in keys ==> i < n) && |keys| >= n
    ensures forall i: nat :: i < n ==> i in keys
    ensures |keys| == n
  {
    if n == 0 {
      assert keys == {};
    } else {
      var rest := keys - {n - 1};
      FullByCount(rest, n - 1);
    }
  }

  function StartedRecord(m: Match, boot: Boot): Match {
    WithSeed(m, boot).(status := Running, hasEngine := true, startedAt := Some(boot.atMs), lastActivity := boot.atMs)
  }

  lemma StartedRecordOk(m: Match, boot: Boot, cfg: Config)
    requires RecordOk(m, cfg) && m.status.Filling? && Starts(m, boot)
    ensures RecordOk(StartedRecord(m, boot), cfg)
    ensures StartedRecord(m, boot).finishedAt.None? && m.finishedAt.None?
    ensures SameSeating(m, StartedRecord(m, boot))
  {
  }

  /** The state a start-up leaves, field by field. */
  lemma StartIs(s: State, id: JsString, boot: Boot)
    requires id in s.matches && s.matches[id].status.Filling?
    ensures var s' := Start(WithMatch(s, id, WithSeed(s.matches[id], boot)), id, boot.atMs);
            && s'.matches == s.matches[id := StartedRecord(s.matches[id], boot)]
            && s'.sessions == s.sessions && s'.order == s.order && s'.crashed == s.crashed
            && s'.events == s.events + [StatusEvent(id, Some(Filling), Running, boot.atMs)]
            && s'.totalCreated == s.totalCreated && s'.totalCollected == s.totalCollected
            && s'.totalFinished == s.totalFinished
  {
  }

  lemma StartKeeps(s: State, id: JsString, boot: Boot, cfg: Config)
    requires Inv(s, cfg) && id in s.matches && s.matches[id].status.Filling? && Starts(s.matches[id], boot)
    ensures Inv(Start(WithMatch(s, id, WithSeed(s.matches[id], boot)), id, boot.atMs), cfg)
  {
    var m := s.matches[id];
    var m' := StartedRecord(m, boot);
    StartedRecordOk(m, boot, cfg);
    StartIs(s, id, boot);
    AdvancedKeeps(s, Start(WithMatch(s, id, WithSeed(m, boot)), id, boot.atMs), id, m', boot.atMs, cfg);
  }

  lemma SeatUndone(seats: map<nat, Seat>, i: nat, seat: Seat)
    requires i !in seats
    ensures seats[i := seat] - {i} == seats
  {
  }

  lemma SessionUndone(sessions: map<JsString, Session>, sid: JsString, session: Session)
    requires sid !in sessions
    ensures sessions[sid := session] - {sid} == sessions
  {
  }

  /** What a rolled-back join leaves: the match it found, with a seed and a new activity time. */
  lemma RollBackUndoes(s: State, id: JsString, i: nat, session: JsString, playerId: JsString, token: JsString, atMs: int,
                       boot: Boot)
    requires id in s.matches && i !in s.matches[id].seats && session !in s.sessions
    ensures var s1 := SeatPlayer(s, id, i, session, playerId, token, atMs);
            var s2 := WithMatch(s1, id, WithSeed(s1.matches[id], boot));
            RollBack(s2, id, i, session, boot.atMs)
            == WithMatch(s, id, WithSeed(s.matches[id], boot).(lastActivity := boot.atMs))
  {
    SeatUndone(s.matches[id].seats, i, Seat(session, token, playerId, atMs, None));
    SessionUndone(s.sessions, session, Session(playerId, Some(Binding(id, i, token))));
  }

  lemma RolledBackRecordOk(m: Match, boot: Boot, cfg: Config)
    requires RecordOk(m, cfg) && m.status.Filling?
    ensures RecordOk(WithSeed(m, boot).(lastActivity := boot.atMs), cfg)
  {
  }

  lemma RolledBackKeeps(s: State, id: JsString, boot: Boot, cfg: Config)
    requires Inv(s, cfg) && id in s.matches && s.matches[id].status.Filling?
    ensures Inv(WithMatch(s, id, WithSeed(s.matches[id], boot).(lastActivity := boot.atMs)), cfg)
  {
    var m' := WithSeed(s.matches[id], boot).(lastActivity := boot.atMs);
    RolledBackRecordOk(s.matches[id], boot, cfg);
    UpdatedKeeps(s, WithMatch(s, id, m'), id, m', cfg);
  }

  lemma TakeSeatKeeps(s: State, id: JsString, i: nat, session: JsString, playerId: JsString, token: JsString, atMs: int,
                      boot: Boot, cfg: Config)
    requires Inv(s, cfg) && id in s.matches && s.matches[id].status.Filling?
    requires i !in s.matches[id].seats && i < s.matches[id].playerCount
    requires session !in s.sessions && !HasToken(s.matches[id].seats, token)
    ensures Inv(TakeSeat(s, id, i, session, playerId, token, atMs, boot).0, cfg)
  {
    var s1 := SeatPlayer(s, id, i, session, playerId, token, atMs);
    SeatPlayerKeeps(s, id, i, session, playerId, token, atMs, cfg);
    if Starts(s1.matches[id], boot) {
      StartKeeps(s1, id, boot, cfg);
    } else {
      RollBackUndoes(s, id, i, session, playerId, token, atMs, boot);
      RolledBackKeeps(s, id, boot, cfg);
    }
  }

  lemma JoinCases(s: State, id: JsString, session: JsString, playerId: JsString, token: JsString, atMs: int, boot: Boot)
    ensures var s' := JoinMatch(s, id, session, playerId, token, atMs, boot).0;
            || s' == s
            || (id in s.matches && s.matches[id].status.Filling?
                && FreeSeat(s.matches[id].seats, 0, s.matches[id].playerCount).Some?
                && s' == TakeSeat(s, id, FreeSeat(s.matches[id].seats, 0, s.matches[id].playerCount).value,
                                  session, playerId, token, atMs, boot).0)
  {
  }

  lemma JoinKeeps(s: State, id: JsString, session: JsString, playerId: JsString, token: JsString, atMs: int, boot: Boot,
                  cfg: Config)
    requires Inv(s, cfg) && session !in s.sessions && (id in s.matches ==> !HasToken(s.matches[id].seats, token))
    requires JoinMatch(s, id, session, playerId, token, atMs, boot).0 != s
    ensures Inv(JoinMatch(s, id, session, playerId, token, atMs, boot).0, cfg)
  {
    JoinCases(s, id, session, playerId, token, atMs, boot);
    var free := FreeSeat(s.matches[id].seats, 0, s.matches[id].playerCount);
    TakeSeatKeeps(s, id, free.value, session, playerId, token, atMs, boot, cfg);
  }

  // Leaving and forfeiting ---------------------------------------------------

  lemma ReleasedRecordOk(m: Match, i: nat, cfg: Config)
    requires RecordOk(m, cfg) && m.status.Filling?
    ensures RecordOk(m.(seats := m.seats - {i}), cfg)
  {
  }

  /** The state a released seat leaves, field by field. */
  lemma ReleaseIs(s: State, id: JsString, i: nat)
    requires id in s.matches && i in s.matches[id].seats
    ensures var m, s' := s.matches[id], ReleaseSeat(s, id, i);
            var sid := m.seats[i].session;
            && s'.matches == s.matches[id := m.(seats := m.seats - {i})]
            && s'.sessions.Keys == s.sessions.Keys
            && (forall k :: k in s.sessions && k != sid ==> s'.sessions[k] == s.sessions[k])
            && (sid in s'.sessions ==> s'.sessions[sid].binding.None?)
            && s'.order == s.order && s'.events == s.events && s'.crashed == s.crashed
            && s'.totalCreated == s.totalCreated && s'.totalFinished == s.totalFinished
            && s'.totalCollected == s.totalCollected
  {
  }

  lemma ReleaseSeatKeeps(s: State, id: JsString, i: nat, cfg: Config)
    requires Inv(s, cfg) && id in s.matches && s.matches[id].status.Filling? && i in s.matches[id].seats
    ensures Inv(ReleaseSeat(s, id, i), cfg)
    ensures var sid := s.matches[id].seats[i].session;
            sid in ReleaseSeat(s, id, i).sessions && ReleaseSeat(s, id, i).sessions[sid].binding.None?
  {
    var s' := ReleaseSeat(s, id, i);
    var m' := s.matches[id].(seats := s.matches[id].seats - {i});
    ReleaseIs(s, id, i);
    ReleasedRecordOk(s.matches[id], i, cfg);
    assert SeatBound(s.sessions, id, i, s.matches[id].seats[i]);
    assert BooksOk(s', cfg) by {
      BooksUnmoved(s, s', id, m', cfg);
    }
    assert Bound(s'.matches, s'.sessions) by {
      BoundUnseated(s.matches, s.sessions, s'.sessions, id, m', i);
    }
    InvAfter(s, s', id, m', cfg);
  }

  lemma ForfeitedRecordOk(m: Match, i: nat, atMs: int, cfg: Config)
    requires RecordOk(m, cfg) && m.status.Running? && i in m.seats
    ensures RecordOk(m.(seats := m.seats[i := m.seats[i].(forfeitedAt := Some(atMs))]), cfg)
  {
    var m' := m.(seats := m.seats[i := m.seats[i].(forfeitedAt := Some(atMs))]);
    assert m'.seats.Keys == m.seats.Keys;
    assert forall k :: k in m'.seats ==> m'.seats[k].token == m.seats[k].token && m'.seats[k].playerId == m.seats[k].playerId;
  }

  lemma ForfeitedSameSeating(m: Match, i: nat, atMs: int)
    requires i in m.seats
    ensures SameSeating(m, m.(seats := m.seats[i := m.seats[i].(forfeitedAt := Some(atMs))]))
  {
  }

  lemma ForfeitKeeps(s: State, id: JsString, i: nat, atMs: int, cfg: Config)
    requires Inv(s, cfg) && id in s.matches && s.matches[id].status.Running? && i in s.matches[id].seats
    ensures Inv(Forfeit(s, id, i, atMs), cfg)
  {
    var s' := Forfeit(s, id, i, atMs);
    ForfeitedRecordOk(s.matches[id], i, atMs, cfg);
    ForfeitedSameSeating(s.matches[id], i, atMs);
    UpdatedKeeps(s, s', id, s'.matches[id], cfg);
  }

  /** What the policy does to an unforfeited seat of a filling or running match, and to no other. */
  lemma ExpireCases(s: State, id: JsString, token: JsString, atMs: int, alive: nat, cfg: Config)
    requires RecordsOk(s.matches, cfg)
    ensures ExpireSeat(s, id, token, atMs, alive).Some? <==>
              && id in s.matches && (s.matches[id].status.Filling? || s.matches[id].status.Running?)
              && SeatByToken(s.matches[id].seats, token).Some?
              && s.matches[id].seats[SeatByToken(s.matches[id].seats, token).value].forfeitedAt.None?
    ensures ExpireSeat(s, id, token, atMs, alive).Some? ==>
              var i := SeatByToken(s.matches[id].seats, token).value;
              ExpireSeat(s, id, token, atMs, alive).value ==
                if s.matches[id].status.Filling? then (ReleaseSeat(s, id, i), SeatReleased)
                else if alive == 0 then (TearDown(Forfeit(s, id, i, atMs), id, atMs, Some(CancelledAllForfeited)), TornDown)
                else (Forfeit(s, id, i, atMs), Surrendered)
  {
    if id in s.matches {
      assert RecordOk(s.matches[id], cfg);
    }
  }

  /** The policy on an expired seat, with a teardown counted by its caller. */
  ghost function Settled(r: (State, ForfeitOutcome)): State {
    if r.1.TornDown? then CountCollected(r.0) else r.0
  }

  lemma ForfeitAllKeeps(s: State, id: JsString, i: nat, atMs: int, cfg: Config)
    requires Inv(s, cfg) && id in s.matches && s.matches[id].status.Running? && i in s.matches[id].seats
    ensures Inv(CountCollected(TearDown(Forfeit(s, id, i, atMs), id, atMs, Some(CancelledAllForfeited))), cfg)
  {
    ForfeitKeeps(s, id, i, atMs, cfg);
    CollectKeeps(Forfeit(s, id, i, atMs), id, atMs, Some(CancelledAllForfeited), cfg);
  }

  lemma ExpireKeeps(s: State, id: JsString, token: JsString, atMs: int, alive: nat, cfg: Config)
    requires Inv(s, cfg) && ExpireSeat(s, id, token, atMs, alive).Some?
    ensures Inv(Settled(ExpireSeat(s, id, token, atMs, alive).value), cfg)
  {
    ExpireCases(s, id, token, atMs, alive, cfg);
    var r := ExpireSeat(s, id, token, atMs, alive).value;
    var i := SeatByToken(s.matches[id].seats, token).value;
    if s.matches[id].status.Filling? {
      assert Settled(r) == ReleaseSeat(s, id, i);
      ReleaseSeatKeeps(s, id, i, cfg);
    } else if alive == 0 {
      assert Settled(r) == CountCollected(TearDown(Forfeit(s, id, i, atMs), id, atMs, Some(CancelledAllForfeited)));
      ForfeitAllKeeps(s, id, i, atMs, cfg);
    } else {
      assert Settled(r) == Forfeit(s, id, i, atMs);
      ForfeitKeeps(s, id, i, atMs, cfg);
    }
  }

  /** Counters outside the books do not matter to the invariant. */
  lemma OtherCountersKeep(s: State, s': State, cfg: Config)
    requires Inv(s, cfg)
    requires s' == s.(totalForfeits := s'.totalForfeits, totalRematchAccepted := s'.totalRematchAccepted,
                      totalRematchDeclined := s'.totalRematchDeclined)
    ensures Inv(s', cfg)
  {
  }

  lemma ExpirySettles(s: State, id: JsString, token: JsString, atMs: int, alive: nat)
    ensures var r := ExpireSeat(s, id, token, atMs, alive);
            var s' := OnSeatExpired(s, id, token, atMs, alive);
            if r.Some? then s' == Settled(r.value).(totalForfeits := s'.totalForfeits) else s' == s
  {
  }

  lemma ExpiryKeeps(s: State, id: JsString, token: JsString, atMs: int, alive: nat, cfg: Config)
    requires Inv(s, cfg) && OnSeatExpired(s, id, token, atMs, alive) != s
    ensures Inv(OnSeatExpired(s, id, token, atMs, alive), cfg)
  {
    var r := ExpireSeat(s, id, token, atMs, alive);
    ExpirySettles(s, id, token, atMs, alive);
    assert Inv(Settled(r.value), cfg) by {
      ExpireKeeps(s, id, token, atMs, alive, cfg);
    }
    OtherCountersKeep(Settled(r.value), OnSeatExpired(s, id, token, atMs, alive), cfg);
  }

  lemma TouchKeeps(s: State, id: JsString, atMs: int, cfg: Config)
    requires Inv(s, cfg) && id in s.matches && s.matches[id].status.Filling?
    ensures Inv(WithMatch(s, id, s.matches[id].(lastActivity := atMs)), cfg)
  {
    var m' := s.matches[id].(lastActivity := atMs);
    assert RecordOk(s.matches[id], cfg) && RecordOk(m', cfg);
    UpdatedKeeps(s, WithMatch(s, id, m'), id, m', cfg);
  }

  lemma ForgetKeeps(s: State, sid: JsString, cfg: Config)
    requires Inv(s, cfg) && (sid in s.sessions ==> s.sessions[sid].binding.None?)
    ensures Inv(s.(sessions := s.sessions - {sid}), cfg)
  {
    BoundForgotten(s.matches, s.sessions, sid);
  }

  lemma LeaveFillingIs(s: State, id: JsString, i: nat, token: JsString, atMs: int, alive: nat)
    requires id in s.matches && s.matches[id].status.Filling?
    requires SeatByToken(s.matches[id].seats, token) == Some(i) && s.matches[id].seats[i].forfeitedAt.None?
    ensures var sid := s.matches[id].seats[i].session;
            var s1 := ReleaseSeat(s, id, i);
            LeaveFilling(s, id, i, token, atMs, alive) ==
              if s1.matches[id].seats == map[] then Collect(s1.(sessions := s1.sessions - {sid}), id, atMs)
              else WithMatch(s1, id, s1.matches[id].(lastActivity := atMs))
  {
  }

  lemma LeaveLastKeeps(s: State, id: JsString, i: nat, atMs: int, cfg: Config)
    requires Inv(s, cfg) && id in s.matches && s.matches[id].status.Filling? && i in s.matches[id].seats
    ensures var s1 := ReleaseSeat(s, id, i);
            Inv(Collect(s1.(sessions := s1.sessions - {s.matches[id].seats[i].session}), id, atMs), cfg)
  {
    var s1 := ReleaseSeat(s, id, i);
    var s2 := s1.(sessions := s1.sessions - {s.matches[id].seats[i].session});
    assert Inv(s2, cfg) by {
      ReleaseSeatKeeps(s, id, i, cfg);
      ForgetKeeps(s1, s.matches[id].seats[i].session, cfg);
    }
    CollectKeeps(s2, id, atMs, None, cfg);
  }

  lemma LeaveFillingKeeps(s: State, id: JsString, i: nat, token: JsString, atMs: int, alive: nat, cfg: Config)
    requires Inv(s, cfg) && id in s.matches && s.matches[id].status.Filling?
    requires SeatByToken(s.matches[id].seats, token) == Some(i) && s.matches[id].seats[i].forfeitedAt.None?
    ensures Inv(LeaveFilling(s, id, i, token, atMs, alive), cfg)
  {
    LeaveFillingIs(s, id, i, token, atMs, alive);
    var s1 := ReleaseSeat(s, id, i);
    if s1.matches[id].seats == map[] {
      LeaveLastKeeps(s, id, i, atMs, cfg);
    } else {
      ReleaseSeatKeeps(s, id, i, cfg);
      TouchKeeps(s1, id, atMs, cfg);
    }
  }

  lemma LeaveCases(s: State, id: JsString, token: JsString, atMs: int, alive: nat, cfg: Config)
    requires RecordsOk(s.matches, cfg)
    ensures var s' := LeaveMatch(s, id, token, atMs, alive).0;
            || s' == s
            || (ExpireSeat(s, id, token, atMs, alive).Some?
                && s' == if s.matches[id].status.Filling?
                         then LeaveFilling(s, id, SeatByToken(s.matches[id].seats, token).value, token, atMs, alive)
                         else Settled(ExpireSeat(s, id, token, atMs, alive).value))
  {
    ExpireCases(s, id, token, atMs, alive, cfg);
  }

  lemma LeaveKeeps(s: State, id: JsString, token: JsString, atMs: int, alive: nat, cfg: Config)
    requires Inv(s, cfg) && LeaveMatch(s, id, token, atMs, alive).0 != s
    ensures Inv(LeaveMatch(s, id, token, atMs, alive).0, cfg)
  {
    LeaveCases(s, id, token, atMs, alive, cfg);
    ExpireCases(s, id, token, atMs, alive, cfg);
    if s.matches[id].status.Filling? {
      LeaveFillingKeeps(s, id, SeatByToken(s.matches[id].seats, token).value, token, atMs, alive, cfg);
    } else {
      ExpireKeeps(s, id, token, atMs, alive, cfg);
    }
  }

  // Finishing ----------------------------------------------------------------

  lemma FinishedRecordOk(m: Match, payload: int, atMs: int, cfg: Config)
    requires RecordOk(m, cfg) && m.status.Running?
    ensures RecordOk(m.(status := Finished, results := Some(Outcome(payload)), finishedAt := Some(atMs), rematch := None,
                        lastActivity := atMs), cfg)
    ensures m.finishedAt.None? && m.rematch.None?
  {
  }

  lemma TerminalKeeps(s: State, id: JsString, payload: int, atMs: int, cfg: Config)
    requires Inv(s, cfg) && id in s.matches && s.matches[id].status.Running? && s.matches[id].hasEngine
    ensures Inv(OnMatchTerminal(s, id, payload, atMs), cfg)
  {
    var s' := OnMatchTerminal(s, id, payload, atMs);
    FinishedRecordOk(s.matches[id], payload, atMs, cfg);
    AdvancedKeeps(s, s', id, s'.matches[id], atMs, cfg);
  }
}
