/** The rematch operations keep the matchmaker's invariant: votes, resolution and decline. */
module MatchRematch {
  import opened Js
  import opened MatchModel
  import opened MatchInvariant
  import opened MatchSteps

  // Opening a window ---------------------------------------------------------

  lemma {:induction false} SeatIdsOfFull(seats: map<nat, Seat>, n: nat)
    requires forall i: nat :: i < n ==> i in seats
    ensures |SeatIds(seats, n)| == n
    ensures forall i: nat :: i < n ==> SeatIds(seats, n)[i] == seats[i].session
  {
    if n > 0 {
      SeatIdsOfFull(seats, n - 1);
    }
  }

  lemma OpenedRecordOk(m: Match, offerId: JsString, atMs: int, cfg: Config)
    requires RecordOk(m, cfg) && m.status.Finished? && m.rematch.None?
    ensures RecordOk(m.(rematch := Some(OpenWindow(m, offerId, atMs, cfg))), cfg)
  {
    SeatIdsOfFull(m.seats, m.playerCount);
  }

  lemma OpenKeeps(s: State, id: JsString, offerId: JsString, atMs: int, cfg: Config)
    requires Inv(s, cfg) && id in s.matches && s.matches[id].status.Finished? && s.matches[id].rematch.None?
    ensures Inv(WithMatch(s, id, s.matches[id].(rematch := Some(OpenWindow(s.matches[id], offerId, atMs, cfg)))), cfg)
  {
    var m' := s.matches[id].(rematch := Some(OpenWindow(s.matches[id], offerId, atMs, cfg)));
    OpenedRecordOk(s.matches[id], offerId, atMs, cfg);
    UpdatedKeeps(s, WithMatch(s, id, m'), id, m', cfg);
  }

  lemma RequestCases(s: State, id: JsString, token: JsString, offerId: JsString, atMs: int, cfg: Config)
    ensures var s' := RequestRematch(s, id, token, offerId, atMs, cfg).0;
            || s' == s
            || (id in s.matches && s.matches[id].status.Finished? && s.matches[id].rematch.None?
                && s' == WithMatch(s, id, s.matches[id].(rematch := Some(OpenWindow(s.matches[id], offerId, atMs, cfg)))))
  {
  }

  lemma RequestKeeps(s: State, id: JsString, token: JsString, offerId: JsString, atMs: int, cfg: Config)
    requires Inv(s, cfg) && RequestRematch(s, id, token, offerId, atMs, cfg).0 != s
    ensures Inv(RequestRematch(s, id, token, offerId, atMs, cfg).0, cfg)
  {
    RequestCases(s, id, token, offerId, atMs, cfg);
    OpenKeeps(s, id, offerId, atMs, cfg);
  }

  // Declining ----------------------------------------------------------------

  function DeclinedRecord(m: Match, o: Offer, atMs: int): Match {
    CollectedRecord(m.(rematch := Some(o)), atMs, None)
  }

  lemma DeclinedRecordOk(m: Match, o: Offer, atMs: int, cfg: Config)
    requires RecordOk(m, cfg) && m.status.Finished? && m.rematch.Some? && o.successor.None?
    ensures RecordOk(DeclinedRecord(m, o, atMs), cfg)
    ensures DeclinedRecord(m, o, atMs).status.Collected? && DeclinedRecord(m, o, atMs).finishedAt == m.finishedAt
    ensures Successor(DeclinedRecord(m, o, atMs)).None? && Successor(m).None?
  {
  }

  /** The state a decline leaves, field by field. */
  lemma DeclinedIs(s: State, id: JsString, o: Offer, declines: nat, atMs: int)
    requires id in s.matches && s.matches[id].status.Finished?
    ensures var m := s.matches[id];
            var s' := Collect(WithMatch(s, id, m.(rematch := Some(o))).(totalRematchDeclined := declines), id, atMs);
            && s'.matches == s.matches[id := DeclinedRecord(m, o, atMs)]
            && s'.sessions == Released(s.sessions, id, m.seats)
            && s'.order == s.order && s'.crashed == s.crashed
            && s'.events == s.events + [StatusEvent(id, Some(Finished), Collected, atMs)]
            && s'.totalCreated == s.totalCreated && s'.totalFinished == s.totalFinished
            && s'.totalCollected == s.totalCollected + 1
  {
  }

  lemma DeclinedKeeps(s: State, id: JsString, o: Offer, declines: nat, atMs: int, cfg: Config)
    requires Inv(s, cfg) && id in s.matches && s.matches[id].status.Finished? && s.matches[id].rematch.Some?
    requires o.successor.None?
    ensures Inv(Collect(WithMatch(s, id, s.matches[id].(rematch := Some(o))).(totalRematchDeclined := declines), id, atMs), cfg)
  {
    var s' := Collect(WithMatch(s, id, s.matches[id].(rematch := Some(o))).(totalRematchDeclined := declines), id, atMs);
    assert RecordOk(s.matches[id], cfg);
    DeclinedRecordOk(s.matches[id], o, atMs, cfg);
    DeclinedIs(s, id, o, declines, atMs);
    CollectedKeeps(s, s', id, DeclinedRecord(s.matches[id], o, atMs), atMs, cfg);
  }

  /** What a vote that passes the gate can rely on. */
  lemma GatePassed(s: State, id: JsString, token: JsString, offerId: JsString, atMs: int, cfg: Config)
    requires RecordsOk(s.matches, cfg) && VoteGate(s, id, token, offerId, atMs).Ok?
    ensures var m := s.matches[id];
            var i := VoteGate(s, id, token, offerId, atMs).value;
            && m.status.Finished? && OfferOk(m, m.rematch.value, cfg) && m.rematch.value.offerId == offerId
            && SeatByToken(m.seats, token) == Some(i) && m.seats[i].forfeitedAt.None?
            && m.seats[i].session in m.rematch.value.originals && m.seats[i].session !in m.rematch.value.accepted
            && !IsWindowClosed(m.rematch.value, atMs)
  {
    assert RecordOk(s.matches[id], cfg);
  }

  lemma DeclineIs(s: State, id: JsString, token: JsString, offerId: JsString, checkAt: int, atMs: int)
    ensures var gate := VoteGate(s, id, token, offerId, checkAt);
            var s' := DeclineRematch(s, id, token, offerId, checkAt, atMs).0;
            if gate.Err? then s' == s
            else var m := s.matches[id];
                 var o := m.rematch.value.(declined := m.rematch.value.declined + {m.seats[gate.value].session});
                 s' == Collect(WithMatch(s, id, m.(rematch := Some(o))).(totalRematchDeclined := s'.totalRematchDeclined),
                               id, atMs)
  {
  }

  lemma GateFinished(s: State, id: JsString, token: JsString, offerId: JsString, atMs: int, cfg: Config)
    requires RecordsOk(s.matches, cfg) && VoteGate(s, id, token, offerId, atMs).Ok?
    ensures s.matches[id].status.Finished? && s.matches[id].rematch.value.successor.None?
  {
    GatePassed(s, id, token, offerId, atMs, cfg);
  }

  lemma DeclineKeeps(s: State, id: JsString, token: JsString, offerId: JsString, checkAt: int, atMs: int, cfg: Config)
    requires Inv(s, cfg) && VoteGate(s, id, token, offerId, checkAt).Ok?
    ensures Inv(DeclineRematch(s, id, token, offerId, checkAt, atMs).0, cfg)
  {
    var gate := VoteGate(s, id, token, offerId, checkAt);
    var s' := DeclineRematch(s, id, token, offerId, checkAt, atMs).0;
    DeclineIs(s, id, token, offerId, checkAt, atMs);
    GateFinished(s, id, token, offerId, checkAt, cfg);
    var m := s.matches[id];
    DeclinedKeeps(s, id, m.rematch.value.(declined := m.rematch.value.declined + {m.seats[gate.value].session}),
                  s'.totalRematchDeclined, atMs, cfg);
  }

  // The sweep inside a vote --------------------------------------------------

  /** An open window at clock reading `atMs`. */
  predicate WindowOpen(m: Match, atMs: int) {
    m.status.Finished? && m.rematch.Some? && !IsWindowClosed(m.rematch.value, atMs)
  }

  lemma {:induction false} SweepSpares(s: State, ids: seq<JsString>, kind: SweepKind, atMs: int, cfg: Config, id: JsString)
    requires id in s.matches && WindowOpen(s.matches[id], atMs)
    ensures Sweep(s, ids, kind, atMs, cfg).matches[id] == s.matches[id]
    decreases |ids|
  {
    if ids != [] {
      if ids[0] in s.matches && Due(s.matches[ids[0]], kind, atMs, cfg) {
        SweepSpares(Collect(s, ids[0], atMs), ids[1..], kind, atMs, cfg, id);
      } else {
        SweepSpares(s, ids[1..], kind, atMs, cfg, id);
      }
    }
  }

  /** Sweeps at the clock reading of a vote never collect, or touch, the match being voted on. */
  lemma SweepsSpareOpenWindow(s: State, atMs: int, cfg: Config, id: JsString)
    requires id in s.matches && WindowOpen(s.matches[id], atMs)
    ensures RunSweeps(s, atMs, cfg).matches[id] == s.matches[id]
  {
    var s1 := Sweep(s, s.order, ExpiredRematches, atMs, cfg);
    var s2 := Sweep(s1, s1.order, ResultsTtl, atMs, cfg);
    SweepSpares(s, s.order, ExpiredRematches, atMs, cfg, id);
    SweepSpares(s1, s1.order, ResultsTtl, atMs, cfg, id);
    SweepSpares(s2, s2.order, StaleEmpty, atMs, cfg, id);
  }

  // Accepting ----------------------------------------------------------------

  /** Seats of one live match hold distinct sessions. */
  lemma DistinctSessions(ms: map<JsString, Match>, ss: map<JsString, Session>, id: JsString, i: nat, j: nat)
    requires Bound(ms, ss) && id in ms && !ms[id].status.Collected?
    requires i in ms[id].seats && j in ms[id].seats && ms[id].seats[i].session == ms[id].seats[j].session
    ensures i == j
  {
    assert SeatBound(ss, id, i, ms[id].seats[i]) && SeatBound(ss, id, j, ms[id].seats[j]);
  }

  function WithVote(m: Match, voter: JsString): Match
    requires m.rematch.Some?
  {
    m.(rematch := Some(m.rematch.value.(accepted := m.rematch.value.accepted + {voter})))
  }

  lemma VotedRecordOk(m: Match, i: nat, cfg: Config)
    requires RecordOk(m, cfg) && m.status.Finished? && m.rematch.Some? && i in m.seats && m.seats[i].forfeitedAt.None?
    requires m.seats[i].session in m.rematch.value.originals && m.seats[i].session !in m.rematch.value.accepted
    requires SessionsDiffer(m.seats)
    ensures var o := WithVote(m, m.seats[i].session).rematch.value;
            |o.accepted| <= |o.originals| && forall v :: v in o.accepted ==> v in o.originals
    ensures var o := WithVote(m, m.seats[i].session).rematch.value;
            |o.accepted| < |o.originals| ==> RecordOk(WithVote(m, m.seats[i].session), cfg)
    ensures forall k :: k in m.seats && m.seats[k].session in WithVote(m, m.seats[i].session).rematch.value.accepted ==>
              m.seats[k].forfeitedAt.None?
  {
  }

  /** The state a counted vote leaves, field by field. */
  lemma CastAcceptIs(s: State, id: JsString, voter: JsString)
    requires id in s.matches && s.matches[id].rematch.Some?
    ensures var s' := CastAccept(s, id, voter);
            && s'.matches == s.matches[id := WithVote(s.matches[id], voter)]
            && s'.sessions == s.sessions && s'.order == s.order && s'.events == s.events && s'.crashed == s.crashed
            && s'.totalCreated == s.totalCreated && s'.totalFinished == s.totalFinished
            && s'.totalCollected == s.totalCollected
    ensures SameSeating(s.matches[id], WithVote(s.matches[id], voter))
  {
  }

  predicate SessionsDiffer(seats: map<nat, Seat>) {
    forall i, j :: i in seats && j in seats && i != j ==> seats[i].session != seats[j].session
  }

  lemma LiveSeatsDiffer(ms: map<JsString, Match>, ss: map<JsString, Session>, id: JsString)
    requires Bound(ms, ss) && id in ms && !ms[id].status.Collected?
    ensures SessionsDiffer(ms[id].seats)
  {
    forall i, j | i in ms[id].seats && j in ms[id].seats && ms[id].seats[i].session == ms[id].seats[j].session
      ensures i == j
    {
      DistinctSessions(ms, ss, id, i, j);
    }
  }

  lemma CastAcceptKeeps(s: State, id: JsString, i: nat, cfg: Config)
    requires Inv(s, cfg) && id in s.matches && s.matches[id].status.Finished? && s.matches[id].rematch.Some?
    requires i in s.matches[id].seats && s.matches[id].seats[i].forfeitedAt.None?
    requires var o := s.matches[id].rematch.value;
             && s.matches[id].seats[i].session in o.originals && s.matches[id].seats[i].session !in o.accepted
             && |o.accepted + {s.matches[id].seats[i].session}| != |o.originals|
    ensures Inv(CastAccept(s, id, s.matches[id].seats[i].session), cfg)
  {
    var m := s.matches[id];
    var voter := m.seats[i].session;
    LiveSeatsDiffer(s.matches, s.sessions, id);
    assert RecordOk(WithVote(m, voter), cfg) by {
      VotedRecordOk(m, i, cfg);
    }
    CastAcceptIs(s, id, voter);
    UpdatedKeeps(s, CastAccept(s, id, voter), id, WithVote(m, voter), cfg);
  }

  function SetOf(s: seq<JsString>): set<JsString> {
    set v | v in s
  }

  lemma SetOfAppend(s: seq<JsString>, x: JsString)
    requires forall i :: 0 <= i < |s| ==> s[i] != x
    ensures |SetOf(s + [x])| == |SetOf(s)| + 1
  {
    assert SetOf(s + [x]) == SetOf(s) + {x};
  }

  lemma {:induction false} SeatIdsDistinct(seats: map<nat, Seat>, n: nat)
    requires forall i: nat :: i < n ==> i in seats
    requires forall i: nat, j: nat :: i < j < n ==> seats[i].session != seats[j].session
    ensures |SetOf(SeatIds(seats, n))| == n
  {
    if n > 0 {
      SeatIdsOfFull(seats, n - 1);
      SeatIdsDistinct(seats, n - 1);
      SetOfAppend(SeatIds(seats, n - 1), seats[n - 1].session);
    }
  }

  /** As many votes as seats means a vote from every seat. */
  lemma EverySeatVoted(seats: map<nat, Seat>, n: nat, accepted: set<JsString>)
    requires forall i: nat :: i < n ==> i in seats
    requires forall i: nat, j: nat :: i < j < n ==> seats[i].session != seats[j].session
    requires (forall v :: v in accepted ==> v in SeatIds(seats, n)) && |accepted| == n
    ensures forall i: nat :: i < n ==> seats[i].session in accepted
  {
    SeatIdsOfFull(seats, n);
    SeatIdsDistinct(seats, n);
    SubsetOfSameSize(accepted, SetOf(SeatIds(seats, n)));
    forall i: nat | i < n ensures seats[i].session in accepted {
      assert SeatIds(seats, n)[i] in SeatIds(seats, n);
    }
  }

  /** A match whose every seat has accepted, unforfeited, with all their sessions alive. */
  ghost predicate AllAccepted(s: State, id: JsString) {
    && id in s.matches && s.matches[id].status.Finished? && s.matches[id].rematch.Some?
    && Full(s.matches[id])
    && forall i :: i in s.matches[id].seats ==>
         && s.matches[id].seats[i].session in s.matches[id].rematch.value.accepted
         && s.matches[id].seats[i].forfeitedAt.None?
         && SeatBound(s.sessions, id, i, s.matches[id].seats[i])
  }

  /** The vote that brings the count to the number of seats comes last: every seat has voted. */
  lemma LastVoteFills(m: Match, i: nat, cfg: Config)
    requires RecordOk(m, cfg) && m.status.Finished? && m.rematch.Some? && i in m.seats && m.seats[i].forfeitedAt.None?
    requires m.seats[i].session in m.rematch.value.originals && m.seats[i].session !in m.rematch.value.accepted
    requires SessionsDiffer(m.seats)
    requires |m.rematch.value.accepted + {m.seats[i].session}| == |m.rematch.value.originals|
    ensures Full(m)
    ensures forall k :: k in m.seats ==>
              m.seats[k].session in m.rematch.value.accepted + {m.seats[i].session} && m.seats[k].forfeitedAt.None?
  {
    SeatIdsOfFull(m.seats, m.playerCount);
    EverySeatVoted(m.seats, m.playerCount, m.rematch.value.accepted + {m.seats[i].session});
    VotedRecordOk(m, i, cfg);
  }

  lemma LastVoteCompletes(s: State, id: JsString, i: nat, cfg: Config)
    requires Inv(s, cfg) && id in s.matches && s.matches[id].status.Finished? && s.matches[id].rematch.Some?
    requires i in s.matches[id].seats && s.matches[id].seats[i].forfeitedAt.None?
    requires var o := s.matches[id].rematch.value;
             && s.matches[id].seats[i].session in o.originals && s.matches[id].seats[i].session !in o.accepted
             && |o.accepted + {s.matches[id].seats[i].session}| == |o.originals|
    ensures AllAccepted(CastAccept(s, id, s.matches[id].seats[i].session), id)
  {
    var m := s.matches[id];
    LiveSeatsDiffer(s.matches, s.sessions, id);
    LastVoteFills(m, i, cfg);
    forall k | k in m.seats ensures SeatBound(s.sessions, id, k, m.seats[k]) {
    }
  }

  // Resolution ---------------------------------------------------------------

  /** Seats move to the successor with their sessions; the original is closed. */
  lemma BoundRematch(ms: map<JsString, Match>, ss: map<JsString, Session>, id: JsString, m: Match, newId: JsString, n: Match)
    requires Bound(ms, ss) && id in ms && !ms[id].status.Collected? && m.status.Collected? && newId !in ms
    requires !n.status.Collected? && n.seats.Keys == ms[id].seats.Keys
    requires forall i :: i in n.seats ==>
               n.seats[i].session == ms[id].seats[i].session && n.seats[i].playerId == ms[id].seats[i].playerId
    ensures Bound(ms[newId := n][id := m], Rebound(ss, n.seats, newId))
  {
    var ms', ss' := ms[newId := n][id := m], Rebound(ss, n.seats, newId);
    forall k, j | k in ms' && !ms'[k].status.Collected? && j in ms'[k].seats
      ensures SeatBound(ss', k, j, ms'[k].seats[j])
    {
      if k == newId {
        ReboundSeat(ms, ss, id, newId, n, j);
      } else {
        assert SeatBound(ss, k, j, ms[k].seats[j]);
        NotMoved(ms, ss, id, n, k, j);
      }
    }
    forall sid | sid in ss' && ss'[sid].binding.Some? ensures Sits(ms', sid, ss'[sid].binding.value) {
      if i :| i in n.seats && n.seats[i].session == sid {
        ReboundSeat(ms, ss, id, newId, n, i);
      } else {
        assert Sits(ms, sid, ss[sid].binding.value);
      }
    }
  }

  lemma ReboundSeat(ms: map<JsString, Match>, ss: map<JsString, Session>, id: JsString, newId: JsString, n: Match, i: nat)
    requires Bound(ms, ss) && id in ms && !ms[id].status.Collected? && n.seats.Keys == ms[id].seats.Keys && i in n.seats
    requires forall k :: k in n.seats ==>
               n.seats[k].session == ms[id].seats[k].session && n.seats[k].playerId == ms[id].seats[k].playerId
    ensures SeatBound(Rebound(ss, n.seats, newId), newId, i, n.seats[i])
  {
    assert SeatBound(ss, id, i, ms[id].seats[i]);
    forall k | k in n.seats && n.seats[k].session == n.seats[i].session ensures k == i {
      DistinctSessions(ms, ss, id, k, i);
    }
  }

  /** A seat of another live match shares no session with the original. */
  lemma NotMoved(ms: map<JsString, Match>, ss: map<JsString, Session>, id: JsString, n: Match, k: JsString, j: nat)
    requires Bound(ms, ss) && id in ms && !ms[id].status.Collected? && n.seats.Keys == ms[id].seats.Keys
    requires forall i :: i in n.seats ==> n.seats[i].session == ms[id].seats[i].session
    requires k in ms && k != id && !ms[k].status.Collected? && j in ms[k].seats
    ensures !exists i :: i in n.seats && n.seats[i].session == ms[k].seats[j].session
  {
    assert SeatBound(ss, k, j, ms[k].seats[j]);
    forall i | i in n.seats ensures n.seats[i].session != ms[k].seats[j].session {
      assert SeatBound(ss, id, i, ms[id].seats[i]);
    }
  }

  /** No rebound session is released with the original. */
  lemma NothingReleased(ss: map<JsString, Session>, id: JsString, newId: JsString, seats: map<nat, Seat>, formerSeats: map<nat, Seat>)
    requires id != newId && seats.Keys == formerSeats.Keys
    requires forall i :: i in seats ==> seats[i].session == formerSeats[i].session
    ensures Released(Rebound(ss, seats, newId), id, formerSeats) == Rebound(ss, seats, newId)
  {
    var ss' := Rebound(ss, seats, newId);
    forall sid | sid in ss' ensures !HeldBy(ss'[sid], sid, id, formerSeats) {
      if i :| i in formerSeats && formerSeats[i].session == sid {
        assert i in seats && seats[i].session == sid;
        assert ss'[sid].binding.value.matchId == newId;
      }
    }
  }

  function SuccessorRecord(m: Match, seed: u32, tokens: seq<JsString>, atMs: int): Match {
    NewMatch(m.isPublic, m.playerCount, atMs, Some(seed)).(seats := RematchSeats(m.seats, tokens, atMs))
  }

  function ResolvedRecord(m: Match, newId: JsString, atMs: int): Match
    requires m.rematch.Some?
  {
    CollectedRecord(m.(rematch := Some(m.rematch.value.(successor := Some(newId)))), atMs, None)
  }

  /** The state a resolution leaves, field by field. */
  lemma ResolveIs(s: State, id: JsString, newId: JsString, seed: u32, tokens: seq<JsString>, atMs: int)
    requires AllAccepted(s, id) && newId !in s.matches
    ensures var m := s.matches[id];
            var n := SuccessorRecord(m, seed, tokens, atMs);
            var s' := Resolve(s, id, newId, seed, tokens, atMs);
            && s'.matches == s.matches[newId := n][id := ResolvedRecord(m, newId, atMs)]
            && s'.sessions == Rebound(s.sessions, n.seats, newId)
            && s'.order == s.order + [newId] && s'.crashed == s.crashed
            && s'.totalCreated == s.totalCreated + 1 && s'.totalCollected == s.totalCollected + 1
            && s'.totalFinished == s.totalFinished
            && s'.events == s.events + [StatusEvent(newId, None, Filling, atMs)]
                                     + [StatusEvent(id, Some(Finished), Collected, atMs)]
  {
    var m := s.matches[id];
    var n := SuccessorRecord(m, seed, tokens, atMs);
    forall i | i in m.seats ensures m.seats[i].session in s.sessions {
      assert SeatBound(s.sessions, id, i, m.seats[i]);
    }
    NothingReleased(s.sessions, id, newId, n.seats, m.seats);
  }

  /** The caller's seat is in the successor, at the index it had. */
  lemma CompleteIs(s: State, id: JsString, i: nat, newId: JsString, seed: u32, tokens: seq<JsString>, atMs: int)
    requires AllAccepted(s, id) && newId !in s.matches && i in s.matches[id].seats
    ensures Complete(s, id, i, newId, seed, tokens, atMs) ==
              (Resolve(s, id, newId, seed, tokens, atMs),
               Seated(newId, i, s.matches[id].seats[i].playerId, s.matches[id].seats[i].session, TokenAt(tokens, i)))
  {
    ResolveIs(s, id, newId, seed, tokens, atMs);
  }

  lemma SuccessorRecordOk(m: Match, seed: u32, tokens: seq<JsString>, atMs: int, cfg: Config)
    requires 2 <= m.playerCount <= MAX_SEATS && (forall i :: i in m.seats ==> i < m.playerCount)
    requires |tokens| == MAX_SEATS && NoDuplicates(tokens)
    ensures RecordOk(SuccessorRecord(m, seed, tokens, atMs), cfg)
  {
    var n := SuccessorRecord(m, seed, tokens, atMs);
    forall i, j | i in n.seats && j in n.seats && i != j ensures n.seats[i].token != n.seats[j].token {
      if i < j {
        assert tokens[i] != tokens[j];
      } else {
        assert tokens[j] != tokens[i];
      }
    }
  }

  lemma ResolvedBooks(s: State, id: JsString, newId: JsString, seed: u32, tokens: seq<JsString>, atMs: int, cfg: Config)
    requires BooksOk(s, cfg) && AllAccepted(s, id) && newId !in s.matches
    requires |Active(s.matches)| < cfg.maxConcurrentMatches
    ensures BooksOk(Resolve(s, id, newId, seed, tokens, atMs), cfg)
  {
    var m := s.matches[id];
    var n := SuccessorRecord(m, seed, tokens, atMs);
    var s' := Resolve(s, id, newId, seed, tokens, atMs);
    ResolveIs(s, id, newId, seed, tokens, atMs);
    var s1 := AddMatch(s, newId, n, atMs);
    BooksAdded(s, newId, n, atMs, cfg);
    BooksMoved(s1, s', id, ResolvedRecord(m, newId, atMs), atMs, cfg);
  }

  /** Everything but the record of `id` is in order, and there is room for one more match. */
  ghost predicate Voting(s: State, id: JsString, cfg: Config) {
    && BooksOk(s, cfg) && Bound(s.matches, s.sessions) && Lineage(s.matches)
    && RecordsOk(s.matches - {id}, cfg)
    && |Active(s.matches)| < cfg.maxConcurrentMatches
  }

  ghost predicate Ready(s: State, id: JsString, cfg: Config) {
    Voting(s, id, cfg) && AllAccepted(s, id) && Closable(s.matches[id])
  }

  predicate Closable(m: Match) {
    && 2 <= m.playerCount <= MAX_SEATS && (forall i :: i in m.seats ==> i < m.playerCount)
    && DistinctTokens(m.seats) && m.finishedAt.Some? && m.rematch.Some? && m.rematch.value.declined == {}
    && m.rematch.value.successor.None?
  }

  lemma ResolvedRecords(s: State, id: JsString, newId: JsString, seed: u32, tokens: seq<JsString>, atMs: int, cfg: Config)
    requires RecordsOk(s.matches - {id}, cfg) && AllAccepted(s, id) && Closable(s.matches[id])
    requires newId !in s.matches && |tokens| == MAX_SEATS && NoDuplicates(tokens)
    ensures RecordsOk(Resolve(s, id, newId, seed, tokens, atMs).matches, cfg)
  {
    var m := s.matches[id];
    ResolveIs(s, id, newId, seed, tokens, atMs);
    SuccessorRecordOk(m, seed, tokens, atMs, cfg);
    assert RecordOk(ResolvedRecord(m, newId, atMs), cfg);
    var ms' := Resolve(s, id, newId, seed, tokens, atMs).matches;
    forall k | k in ms' ensures RecordOk(ms'[k], cfg) {
      if k != id && k != newId {
        assert k in s.matches - {id};
      }
    }
  }

  lemma ReadyResolves(s: State, id: JsString, newId: JsString, seed: u32, tokens: seq<JsString>, atMs: int, cfg: Config)
    requires Ready(s, id, cfg) && newId !in s.matches && |tokens| == MAX_SEATS && NoDuplicates(tokens)
    ensures Inv(Resolve(s, id, newId, seed, tokens, atMs), cfg)
  {
    var m := s.matches[id];
    var n := SuccessorRecord(m, seed, tokens, atMs);
    var m' := ResolvedRecord(m, newId, atMs);
    var s' := Resolve(s, id, newId, seed, tokens, atMs);
    ResolvedBooks(s, id, newId, seed, tokens, atMs, cfg);
    ResolvedRecords(s, id, newId, seed, tokens, atMs, cfg);
    ResolveIs(s, id, newId, seed, tokens, atMs);
    assert Bound(s'.matches, s'.sessions) by {
      BoundRematch(s.matches, s.sessions, id, m', newId, n);
    }
    assert Lineage(s'.matches) by {
      LineageExtended(s.matches, id, m', newId, n);
    }
  }

  lemma ClosableVoted(m: Match, voter: JsString, cfg: Config)
    requires RecordOk(m, cfg) && m.status.Finished? && m.rematch.Some?
    ensures Closable(WithVote(m, voter))
  {
  }

  lemma OthersOk(ms: map<JsString, Match>, id: JsString, m: Match, cfg: Config)
    requires RecordsOk(ms, cfg)
    ensures RecordsOk(ms[id := m] - {id}, cfg)
  {
  }

  lemma CastAcceptBooks(s: State, id: JsString, voter: JsString, cfg: Config)
    requires BooksOk(s, cfg) && id in s.matches && s.matches[id].rematch.Some?
    ensures BooksOk(CastAccept(s, id, voter), cfg) && Active(CastAccept(s, id, voter).matches) == Active(s.matches)
  {
    BooksUnmoved(s, CastAccept(s, id, voter), id, WithVote(s.matches[id], voter), cfg);
  }

  lemma CastAcceptVoting(s: State, id: JsString, voter: JsString, cfg: Config)
    requires Inv(s, cfg) && id in s.matches && s.matches[id].rematch.Some?
    requires |Active(s.matches)| < cfg.maxConcurrentMatches
    ensures Voting(CastAccept(s, id, voter), id, cfg)
  {
    var m2 := WithVote(s.matches[id], voter);
    OthersOk(s.matches, id, m2, cfg);
    CastAcceptBooks(s, id, voter, cfg);
    BoundSameHolders(s.matches, s.sessions, id, m2);
    LineageKept(s.matches, id, m2);
  }

  lemma LastVoteReadies(s: State, id: JsString, i: nat, cfg: Config)
    requires Inv(s, cfg) && id in s.matches && s.matches[id].status.Finished? && s.matches[id].rematch.Some?
    requires i in s.matches[id].seats && s.matches[id].seats[i].forfeitedAt.None?
    requires var o := s.matches[id].rematch.value;
             && s.matches[id].seats[i].session in o.originals && s.matches[id].seats[i].session !in o.accepted
             && |o.accepted + {s.matches[id].seats[i].session}| == |o.originals|
    requires |Active(s.matches)| < cfg.maxConcurrentMatches
    ensures Ready(CastAccept(s, id, s.matches[id].seats[i].session), id, cfg)
  {
    CastAcceptVoting(s, id, s.matches[id].seats[i].session, cfg);
    LastVoteCompletes(s, id, i, cfg);
    ClosableVoted(s.matches[id], s.matches[id].seats[i].session, cfg);
  }

  lemma GateOpen(s: State, id: JsString, token: JsString, offerId: JsString, atMs: int, cfg: Config)
    requires RecordsOk(s.matches, cfg) && VoteGate(s, id, token, offerId, atMs).Ok?
    ensures WindowOpen(s.matches[id], atMs)
  {
    GatePassed(s, id, token, offerId, atMs, cfg);
  }

  /** A vote past the gate: refused at the cap, counted, or the last one. */
  lemma AcceptCases(s: State, id: JsString, token: JsString, offerId: JsString, newId: JsString, seed: u32,
                    tokens: seq<JsString>, atMs: int, cfg: Config)
    requires RecordsOk(s.matches, cfg) && VoteGate(s, id, token, offerId, atMs).Ok?
    ensures RunSweeps(s, atMs, cfg).matches[id] == s.matches[id]
    ensures var m := s.matches[id];
            var i := VoteGate(s, id, token, offerId, atMs).value;
            var s1 := RunSweeps(s, atMs, cfg);
            var s2 := CastAccept(s1, id, m.seats[i].session);
            AcceptRematch(s, id, token, offerId, newId, seed, tokens, atMs, cfg) ==
              if AtCapacity(s1, cfg) then (s1, Refused(RateLimited))
              else if |m.rematch.value.accepted + {m.seats[i].session}| != |m.rematch.value.originals| then (s2, Voted)
              else Complete(s2, id, i, newId, seed, tokens, atMs)
  {
    GateOpen(s, id, token, offerId, atMs, cfg);
    SweepsSpareOpenWindow(s, atMs, cfg, id);
  }

  lemma VoteKeeps(s: State, id: JsString, i: nat, newId: JsString, seed: u32, tokens: seq<JsString>, atMs: int, cfg: Config)
    requires Inv(s, cfg) && id in s.matches && s.matches[id].status.Finished? && s.matches[id].rematch.Some?
    requires i in s.matches[id].seats && s.matches[id].seats[i].forfeitedAt.None?
    requires s.matches[id].seats[i].session in s.matches[id].rematch.value.originals
    requires s.matches[id].seats[i].session !in s.matches[id].rematch.value.accepted
    requires newId !in s.matches && |tokens| == MAX_SEATS && NoDuplicates(tokens)
    requires |Active(s.matches)| < cfg.maxConcurrentMatches
    ensures Inv(VoteOutcome(s, id, i, s.matches[id].seats[i], newId, seed, tokens, atMs).0, cfg)
  {
    var m := s.matches[id];
    var s2 := CastAccept(s, id, m.seats[i].session);
    if |m.rematch.value.accepted + {m.seats[i].session}| == |m.rematch.value.originals| {
      LastVoteReadies(s, id, i, cfg);
      ReadyResolves(s2, id, newId, seed, tokens, atMs, cfg);
      CompleteIs(s2, id, i, newId, seed, tokens, atMs);
    } else {
      CastAcceptKeeps(s, id, i, cfg);
    }
  }

  lemma AcceptKeeps(s: State, id: JsString, token: JsString, offerId: JsString, newId: JsString, seed: u32,
                    tokens: seq<JsString>, atMs: int, cfg: Config)
    requires Inv(s, cfg) && newId !in s.matches && |tokens| == MAX_SEATS && NoDuplicates(tokens)
    requires VoteGate(s, id, token, offerId, atMs).Ok?
    ensures Inv(AcceptRematch(s, id, token, offerId, newId, seed, tokens, atMs, cfg).0, cfg)
  {
    var s1 := RunSweeps(s, atMs, cfg);
    GatePassed(s, id, token, offerId, atMs, cfg);
    assert Inv(s1, cfg) by {
      RunSweepsKeeps(s, atMs, cfg);
    }
    SweepsSpareOpenWindow(s, atMs, cfg, id);
    if !AtCapacity(s1, cfg) {
      VoteKeeps(s1, id, VoteGate(s, id, token, offerId, atMs).value, newId, seed, tokens, atMs, cfg);
    }
  }
}
