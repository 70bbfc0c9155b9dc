/** What holds of the matchmaker over every run of its operations. */
module MatchRuns {
  import opened Js
  import opened MatchModel
  import opened MatchInvariant
  import opened MatchSteps
  import opened MatchRematch

  // Reachable states ---------------------------------------------------------

  lemma SameInv(a: State, b: State, cfg: Config)
    requires a == b && Inv(b, cfg)
    ensures Inv(a, cfg)
  {
  }

  lemma EmptyInv(cfg: Config)
    ensures Inv(EMPTY, cfg)
  {
    assert EMPTY.matches.Keys == {};
    assert (set id | id in EMPTY.order) == {};
    assert CollectedIds(EMPTY.matches) == {} && EndedIds(EMPTY.matches) == {} && Active(EMPTY.matches) == {};
    assert Statuses(EMPTY.matches) == map[];
  }

  lemma LifecycleStepKeeps(s: State, op: Op, cfg: Config)
    requires Inv(s, cfg) && Admissible(s, op) && Step(s, op, cfg).0 != s
    requires op.Create? || op.Join? || op.Leave? || op.SeatExpiry? || op.Terminal?
    ensures Inv(Step(s, op, cfg).0, cfg)
  {
    match op
    case Create(isPublic, n, id, session, playerId, token, sweepAt, atMs) =>
      CreateKeeps(s, isPublic, n, id, session, playerId, token, sweepAt, atMs, cfg);
    case Join(id, session, playerId, token, atMs, boot) => JoinKeeps(s, id, session, playerId, token, atMs, boot, cfg);
    case Leave(id, token, atMs, alive) => LeaveKeeps(s, id, token, atMs, alive, cfg);
    case SeatExpiry(id, token, atMs, alive) => ExpiryKeeps(s, id, token, atMs, alive, cfg);
    case Terminal(id, payload, atMs) => TerminalKeeps(s, id, payload, atMs, cfg);
  }

  lemma RematchStepKeeps(s: State, op: Op, cfg: Config)
    requires Inv(s, cfg) && Admissible(s, op) && Step(s, op, cfg).0 != s
    requires op.Request? || op.Accept? || op.Decline?
    ensures Inv(Step(s, op, cfg).0, cfg)
  {
    match op
    case Request(id, token, offerId, atMs) => RequestKeeps(s, id, token, offerId, atMs, cfg);
    case Accept(id, token, offerId, newId, seed, tokens, atMs) =>
      AcceptKeeps(s, id, token, offerId, newId, seed, tokens, atMs, cfg);
    case Decline(id, token, offerId, sweepAt, atMs) => DeclineKeeps(s, id, token, offerId, sweepAt, atMs, cfg);
  }

  /** One admissible operation keeps the invariant. */
  lemma StepKeepsInv(s: State, op: Op, cfg: Config)
    requires Inv(s, cfg) && Admissible(s, op)
    ensures Inv(Step(s, op, cfg).0, cfg)
  {
    if Step(s, op, cfg).0 == s {
      SameInv(Step(s, op, cfg).0, s, cfg);
    } else if op.Read? {
      RunSweepsKeeps(s, op.atMs, cfg);
    } else if op.Request? || op.Accept? || op.Decline? {
      RematchStepKeeps(s, op, cfg);
    } else {
      LifecycleStepKeeps(s, op, cfg);
    }
  }

  /** The invariant holds after every admissible run. */
  lemma {:induction false} RunKeepsInv(s: State, ops: seq<Op>, cfg: Config)
    requires Inv(s, cfg) && AdmissibleRun(s, ops, cfg)
    ensures Inv(Run(s, ops, cfg), cfg)
    decreases |ops|
  {
    if ops != [] {
      StepKeepsInv(s, ops[0], cfg);
      RunKeepsInv(Step(s, ops[0], cfg).0, ops[1..], cfg);
    }
  }

  /** No "illegal transition" or "unreachable" throw is ever hit. */
  lemma NeverCrashes(ops: seq<Op>, cfg: Config)
    requires AdmissibleRun(EMPTY, ops, cfg)
    ensures Inv(Run(EMPTY, ops, cfg), cfg) && !Run(EMPTY, ops, cfg).crashed
  {
    EmptyInv(cfg);
    RunKeepsInv(EMPTY, ops, cfg);
  }

  // Sessions and seats -------------------------------------------------------

  lemma BindingHasSeat(s: State, sid: JsString)
    requires Bound(s.matches, s.sessions) && sid in s.sessions && s.sessions[sid].binding.Some?
    ensures var b := s.sessions[sid].binding.value;
            && Sits(s.matches, sid, b)
            && s.matches[b.matchId].seats[b.seat].token == b.token
            && s.matches[b.matchId].seats[b.seat].playerId == s.sessions[sid].playerId
  {
    var b := s.sessions[sid].binding.value;
    assert SeatBound(s.sessions, b.matchId, b.seat, s.matches[b.matchId].seats[b.seat]);
  }

  /** Over every run, seats of live matches and bound sessions correspond one to one. */
  lemma SeatsAndSessionsCorrespond(ops: seq<Op>, cfg: Config)
    requires AdmissibleRun(EMPTY, ops, cfg)
    ensures var s := Run(EMPTY, ops, cfg);
            && (forall id, i :: id in s.matches && !s.matches[id].status.Collected? && i in s.matches[id].seats ==>
                  SeatBound(s.sessions, id, i, s.matches[id].seats[i]))
            && (forall sid :: sid in s.sessions && s.sessions[sid].binding.Some? ==>
                  var b := s.sessions[sid].binding.value;
                  && Sits(s.matches, sid, b)
                  && s.matches[b.matchId].seats[b.seat].token == b.token
                  && s.matches[b.matchId].seats[b.seat].playerId == s.sessions[sid].playerId)
  {
    NeverCrashes(ops, cfg);
    var s := Run(EMPTY, ops, cfg);
    forall sid | sid in s.sessions && s.sessions[sid].binding.Some?
      ensures var b := s.sessions[sid].binding.value;
              && Sits(s.matches, sid, b)
              && s.matches[b.matchId].seats[b.seat].token == b.token
              && s.matches[b.matchId].seats[b.seat].playerId == s.sessions[sid].playerId
    {
      BindingHasSeat(s, sid);
    }
  }

  /** Over every run, no session sits in two places, across all live matches. */
  lemma OneSeatPerSession(ops: seq<Op>, cfg: Config, id: JsString, i: nat, other: JsString, j: nat)
    requires AdmissibleRun(EMPTY, ops, cfg)
    requires var s := Run(EMPTY, ops, cfg);
             && id in s.matches && !s.matches[id].status.Collected? && i in s.matches[id].seats
             && other in s.matches && !s.matches[other].status.Collected? && j in s.matches[other].seats
             && s.matches[id].seats[i].session == s.matches[other].seats[j].session
    ensures id == other && i == j
  {
    NeverCrashes(ops, cfg);
    var s := Run(EMPTY, ops, cfg);
    assert SeatBound(s.sessions, id, i, s.matches[id].seats[i]);
    assert SeatBound(s.sessions, other, j, s.matches[other].seats[j]);
  }

  /** Over every run, a running match has an engine and exactly the seats 0..n-1, with distinct players. */
  lemma RunningIsComplete(ops: seq<Op>, cfg: Config, id: JsString)
    requires AdmissibleRun(EMPTY, ops, cfg)
    requires id in Run(EMPTY, ops, cfg).matches && Run(EMPTY, ops, cfg).matches[id].status.Running?
    ensures var m := Run(EMPTY, ops, cfg).matches[id];
            && m.hasEngine && DistinctPlayers(m)
            && forall i: nat :: i in m.seats <==> i < m.playerCount
  {
    NeverCrashes(ops, cfg);
    assert RecordOk(Run(EMPTY, ops, cfg).matches[id], cfg);
  }

  // The event log ------------------------------------------------------------

  function LastStatus(events: seq<StatusEvent>, id: JsString): Option<Status> {
    if events == [] then None
    else if events[|events| - 1].matchId == id then Some(events[|events| - 1].after)
    else LastStatus(events[..|events| - 1], id)
  }

  /** A log that replays is a chain: each event starts where the previous one of its match ended. */
  lemma {:induction false} ReplayIsChain(events: seq<StatusEvent>)
    requires Replay(events).Some?
    ensures forall id :: LastStatus(events, id) ==
              if id in Replay(events).value then Some(Replay(events).value[id]) else None
    ensures forall k :: 0 <= k < |events| ==>
              events[k].before == LastStatus(events[..k], events[k].matchId) && LegalEdge(events[k].before, events[k].after)
  {
    if events != [] {
      var n := |events| - 1;
      ReplayIsChain(events[..n]);
      forall k | 0 <= k < |events|
        ensures events[k].before == LastStatus(events[..k], events[k].matchId) && LegalEdge(events[k].before, events[k].after)
      {
        if k < n {
          assert events[..n][..k] == events[..k] && events[..n][k] == events[k];
        }
      }
    }
  }

  /** The log alone tells every match's current status; the counters match the records; the cap is kept. */
  lemma LogAndCountersFaithful(ops: seq<Op>, cfg: Config)
    requires AdmissibleRun(EMPTY, ops, cfg)
    ensures var s := Run(EMPTY, ops, cfg);
            && (forall id :: id in s.matches ==> LastStatus(s.events, id) == Some(s.matches[id].status))
            && (forall k :: 0 <= k < |s.events| ==>
                  && s.events[k].before == LastStatus(s.events[..k], s.events[k].matchId)
                  && LegalEdge(s.events[k].before, s.events[k].after))
            && s.totalCreated == |s.matches.Keys|
            && s.totalCollected == |CollectedIds(s.matches)|
            && s.totalFinished == |EndedIds(s.matches)|
            && |Active(s.matches)| <= cfg.maxConcurrentMatches
  {
    NeverCrashes(ops, cfg);
    ReplayIsChain(Run(EMPTY, ops, cfg).events);
  }

  // Collected records --------------------------------------------------------

  ghost predicate CollectedKept(s: State, s': State) {
    forall id :: id in s.matches ==> id in s'.matches && (s.matches[id].status.Collected? ==> s'.matches[id] == s.matches[id])
  }

  lemma {:induction false} SweepLeavesCollected(s: State, ids: seq<JsString>, kind: SweepKind, atMs: int, cfg: Config)
    ensures CollectedKept(s, Sweep(s, ids, kind, atMs, cfg))
    decreases |ids|
  {
    if ids != [] {
      if ids[0] in s.matches && Due(s.matches[ids[0]], kind, atMs, cfg) {
        SweepLeavesCollected(Collect(s, ids[0], atMs), ids[1..], kind, atMs, cfg);
      } else {
        SweepLeavesCollected(s, ids[1..], kind, atMs, cfg);
      }
    }
  }

  lemma RunSweepsLeavesCollected(s: State, atMs: int, cfg: Config)
    ensures CollectedKept(s, RunSweeps(s, atMs, cfg))
  {
    var s1 := Sweep(s, s.order, ExpiredRematches, atMs, cfg);
    var s2 := Sweep(s1, s1.order, ResultsTtl, atMs, cfg);
    SweepLeavesCollected(s, s.order, ExpiredRematches, atMs, cfg);
    SweepLeavesCollected(s1, s1.order, ResultsTtl, atMs, cfg);
    SweepLeavesCollected(s2, s2.order, StaleEmpty, atMs, cfg);
  }

  /** Only the live match `id` differs, and nothing disappears. */
  ghost predicate OnlyTouches(s: State, s': State, id: JsString) {
    && id in s.matches && !s.matches[id].status.Collected?
    && forall k :: k in s.matches ==> k in s'.matches && (k != id ==> s'.matches[k] == s.matches[k])
  }

  lemma TouchingLeavesCollected(s: State, s': State, id: JsString)
    requires OnlyTouches(s, s', id)
    ensures CollectedKept(s, s')
  {
  }

  lemma LeaveTouches(s: State, id: JsString, token: JsString, atMs: int, alive: nat, cfg: Config)
    requires RecordsOk(s.matches, cfg) && LeaveMatch(s, id, token, atMs, alive).0 != s
    ensures OnlyTouches(s, LeaveMatch(s, id, token, atMs, alive).0, id)
  {
    LeaveCases(s, id, token, atMs, alive, cfg);
    ExpireCases(s, id, token, atMs, alive, cfg);
    if s.matches[id].status.Filling? {
      LeaveFillingIs(s, id, SeatByToken(s.matches[id].seats, token).value, token, atMs, alive);
    }
  }

  lemma ExpiryTouches(s: State, id: JsString, token: JsString, atMs: int, alive: nat, cfg: Config)
    requires RecordsOk(s.matches, cfg) && OnSeatExpired(s, id, token, atMs, alive) != s
    ensures OnlyTouches(s, OnSeatExpired(s, id, token, atMs, alive), id)
  {
    ExpirySettles(s, id, token, atMs, alive);
    ExpireCases(s, id, token, atMs, alive, cfg);
  }

  lemma TakeSeatTouches(s: State, id: JsString, i: nat, session: JsString, playerId: JsString, token: JsString, atMs: int,
                        boot: Boot)
    requires id in s.matches && s.matches[id].status.Filling?
    ensures OnlyTouches(s, TakeSeat(s, id, i, session, playerId, token, atMs, boot).0, id)
  {
  }

  lemma JoinTouches(s: State, id: JsString, session: JsString, playerId: JsString, token: JsString, atMs: int, boot: Boot)
    requires JoinMatch(s, id, session, playerId, token, atMs, boot).0 != s
    ensures OnlyTouches(s, JoinMatch(s, id, session, playerId, token, atMs, boot).0, id)
  {
    JoinCases(s, id, session, playerId, token, atMs, boot);
    var free := FreeSeat(s.matches[id].seats, 0, s.matches[id].playerCount);
    TakeSeatTouches(s, id, free.value, session, playerId, token, atMs, boot);
  }

  lemma DeclineTouches(s: State, id: JsString, token: JsString, offerId: JsString, checkAt: int, atMs: int, cfg: Config)
    requires RecordsOk(s.matches, cfg) && VoteGate(s, id, token, offerId, checkAt).Ok?
    ensures OnlyTouches(s, DeclineRematch(s, id, token, offerId, checkAt, atMs).0, id)
  {
    DeclineIs(s, id, token, offerId, checkAt, atMs);
    GateFinished(s, id, token, offerId, checkAt, cfg);
  }

  lemma ResolveTouches(s: State, id: JsString, newId: JsString, seed: u32, tokens: seq<JsString>, atMs: int)
    requires id in s.matches && s.matches[id].status.Finished? && s.matches[id].rematch.Some? && newId !in s.matches
    ensures OnlyTouches(s, Resolve(s, id, newId, seed, tokens, atMs), id)
  {
  }

  lemma KeptThenTouched(s: State, s1: State, s': State, id: JsString)
    requires CollectedKept(s, s1) && (s' == s1 || OnlyTouches(s1, s', id))
    ensures CollectedKept(s, s')
  {
  }

  lemma CastTouches(s: State, id: JsString, voter: JsString, newId: JsString, seed: u32, tokens: seq<JsString>, atMs: int)
    requires id in s.matches && s.matches[id].status.Finished? && s.matches[id].rematch.Some? && newId !in s.matches
    ensures OnlyTouches(s, CastAccept(s, id, voter), id)
    ensures forall i :: OnlyTouches(s, Complete(CastAccept(s, id, voter), id, i, newId, seed, tokens, atMs).0, id)
  {
    ResolveTouches(CastAccept(s, id, voter), id, newId, seed, tokens, atMs);
  }

  lemma AcceptTouches(s: State, id: JsString, token: JsString, offerId: JsString, newId: JsString, seed: u32,
                      tokens: seq<JsString>, atMs: int, cfg: Config)
    requires RecordsOk(s.matches, cfg) && newId !in s.matches && VoteGate(s, id, token, offerId, atMs).Ok?
    ensures var s1 := RunSweeps(s, atMs, cfg);
            var s' := AcceptRematch(s, id, token, offerId, newId, seed, tokens, atMs, cfg).0;
            s' == s1 || OnlyTouches(s1, s', id)
  {
    GateFinished(s, id, token, offerId, atMs, cfg);
    AcceptCases(s, id, token, offerId, newId, seed, tokens, atMs, cfg);
    var voter := s.matches[id].seats[VoteGate(s, id, token, offerId, atMs).value].session;
    CastTouches(RunSweeps(s, atMs, cfg), id, voter, newId, seed, tokens, atMs);
  }

  lemma AcceptLeavesCollected(s: State, id: JsString, token: JsString, offerId: JsString, newId: JsString, seed: u32,
                              tokens: seq<JsString>, atMs: int, cfg: Config)
    requires RecordsOk(s.matches, cfg) && newId !in s.matches && VoteGate(s, id, token, offerId, atMs).Ok?
    ensures CollectedKept(s, AcceptRematch(s, id, token, offerId, newId, seed, tokens, atMs, cfg).0)
  {
    RunSweepsLeavesCollected(s, atMs, cfg);
    AcceptTouches(s, id, token, offerId, newId, seed, tokens, atMs, cfg);
    KeptThenTouched(s, RunSweeps(s, atMs, cfg), AcceptRematch(s, id, token, offerId, newId, seed, tokens, atMs, cfg).0, id);
  }

  lemma CreateLeavesCollected(s: State, isPublic: bool, playerCount: nat, id: JsString, session: JsString, playerId: JsString,
                              token: JsString, sweepAt: int, atMs: int, cfg: Config)
    requires id !in s.matches
    ensures CollectedKept(s, CreateMatch(s, isPublic, playerCount, id, session, playerId, token, sweepAt, atMs, cfg).0)
  {
    RunSweepsLeavesCollected(s, sweepAt, cfg);
  }

  /** A collected record is never touched again by any operation. */
  lemma CollectedIsFinal(s: State, op: Op, cfg: Config)
    requires RecordsOk(s.matches, cfg) && Admissible(s, op)
    ensures CollectedKept(s, Step(s, op, cfg).0)
  {
    var s' := Step(s, op, cfg).0;
    if s' == s {
      return;
    }
    match op
    case Create(isPublic, n, id, session, playerId, token, sweepAt, atMs) =>
      CreateLeavesCollected(s, isPublic, n, id, session, playerId, token, sweepAt, atMs, cfg);
    case Join(id, session, playerId, token, atMs, boot) =>
      JoinTouches(s, id, session, playerId, token, atMs, boot);
      TouchingLeavesCollected(s, s', id);
    case Leave(id, token, atMs, alive) =>
      LeaveTouches(s, id, token, atMs, alive, cfg);
      TouchingLeavesCollected(s, s', id);
    case SeatExpiry(id, token, atMs, alive) =>
      ExpiryTouches(s, id, token, atMs, alive, cfg);
      TouchingLeavesCollected(s, s', id);
    case Terminal(id, payload, atMs) => TouchingLeavesCollected(s, s', id);
    case Read(atMs) => RunSweepsLeavesCollected(s, atMs, cfg);
    case Request(id, token, offerId, atMs) =>
      RequestCases(s, id, token, offerId, atMs, cfg);
      TouchingLeavesCollected(s, s', id);
    case Accept(id, token, offerId, newId, seed, tokens, atMs) =>
      AcceptLeavesCollected(s, id, token, offerId, newId, seed, tokens, atMs, cfg);
    case Decline(id, token, offerId, sweepAt, atMs) =>
      DeclineTouches(s, id, token, offerId, sweepAt, atMs, cfg);
      TouchingLeavesCollected(s, s', id);
  }

  lemma {:induction false} CollectedIsFinalForever(s: State, ops: seq<Op>, cfg: Config)
    requires Inv(s, cfg) && AdmissibleRun(s, ops, cfg)
    ensures CollectedKept(s, Run(s, ops, cfg))
    decreases |ops|
  {
    if ops != [] {
      StepKeepsInv(s, ops[0], cfg);
      CollectedIsFinal(s, ops[0], cfg);
      CollectedIsFinalForever(Step(s, ops[0], cfg).0, ops[1..], cfg);
    }
  }
}
