/** What joining and rematching promise the players. */
module MatchTheorems {
  import opened Js
  import opened MatchModel
  import opened MatchInvariant
  import opened MatchSteps
  import opened MatchRematch
  import opened MatchRuns

  // Rematches ----------------------------------------------------------------

  /** Every seat holder but the voter has already accepted. */
  predicate OthersAccepted(m: Match, i: nat)
    requires m.rematch.Some?
  {
    forall k :: k in m.seats && k != i ==> m.seats[k].session in m.rematch.value.accepted
  }

  lemma VoteCount(m: Match, i: nat, cfg: Config)
    requires RecordOk(m, cfg) && m.status.Finished? && m.rematch.Some? && i in m.seats
    requires m.seats[i].session in m.rematch.value.originals && m.seats[i].session !in m.rematch.value.accepted
    requires SessionsDiffer(m.seats)
    ensures |m.rematch.value.accepted + {m.seats[i].session}| == |m.rematch.value.originals| <==> OthersAccepted(m, i)
  {
    OfferFacts(m, cfg);
    SeatIdsOfFull(m.seats, m.playerCount);
    VotesFill(m.seats, m.playerCount, i, m.rematch.value.accepted);
  }

  lemma OfferFacts(m: Match, cfg: Config)
    requires RecordOk(m, cfg) && m.status.Finished? && m.rematch.Some?
    ensures (forall k: nat :: k < m.playerCount ==> k in m.seats) && (forall k :: k in m.seats ==> k < m.playerCount)
    ensures m.rematch.value.originals == SeatIds(m.seats, m.playerCount)
    ensures forall v :: v in m.rematch.value.accepted ==> v in m.rematch.value.originals
  {
  }

  lemma VotesFill(seats: map<nat, Seat>, n: nat, i: nat, accepted: set<JsString>)
    requires (forall k: nat :: k < n ==> k in seats) && (forall k :: k in seats ==> k < n) && SessionsDiffer(seats)
    requires i in seats && seats[i].session in SeatIds(seats, n) && forall v :: v in accepted ==> v in SeatIds(seats, n)
    ensures |accepted + {seats[i].session}| == n <==>
              forall k :: k in seats && k != i ==> seats[k].session in accepted
  {
    var votes := accepted + {seats[i].session};
    if |votes| == n {
      EverySeatVoted(seats, n, votes);
    }
    if forall k :: k in seats && k != i ==> seats[k].session in accepted {
      EveryoneIsEnough(seats, n, votes);
    }
  }

  lemma LastVoteIff(s: State, id: JsString, i: nat, cfg: Config)
    requires RecordsOk(s.matches, cfg) && Bound(s.matches, s.sessions)
    requires id in s.matches && s.matches[id].status.Finished? && s.matches[id].rematch.Some?
    requires i in s.matches[id].seats
    requires var o := s.matches[id].rematch.value;
             s.matches[id].seats[i].session in o.originals && s.matches[id].seats[i].session !in o.accepted
    ensures var m := s.matches[id];
            |m.rematch.value.accepted + {m.seats[i].session}| == |m.rematch.value.originals| <==> OthersAccepted(m, i)
  {
    var m := s.matches[id];
    LiveSeatsDiffer(s.matches, s.sessions, id);
    VoteCount(m, i, cfg);
  }

  lemma EveryoneIsEnough(seats: map<nat, Seat>, n: nat, votes: set<JsString>)
    requires forall i: nat :: i < n ==> i in seats && seats[i].session in votes
    requires forall i: nat, j: nat :: i < j < n ==> seats[i].session != seats[j].session
    requires forall v :: v in votes ==> v in SeatIds(seats, n)
    ensures |votes| == n
  {
    SeatIdsOfFull(seats, n);
    SeatIdsDistinct(seats, n);
    assert votes == SetOf(SeatIds(seats, n));
  }

  /** What the completing vote leaves behind. */
  ghost predicate RematchCreated(s: State, s': State, id: JsString, newId: JsString) {
    && id in s.matches && id in s'.matches && newId in s'.matches && newId !in s.matches
    && s'.matches[id].status.Collected? && Successor(s'.matches[id]) == Some(newId)
    && s'.matches[id].seats == s.matches[id].seats && Unforfeited(s.matches[id].seats)
    && SameTable(s.matches[id], s'.matches[newId])
    && forall i :: i in s'.matches[newId].seats ==>
         && i in s.matches[id].seats
         && s'.matches[newId].seats[i].session == s.matches[id].seats[i].session
         && s'.matches[newId].seats[i].playerId == s.matches[id].seats[i].playerId
         && s'.matches[newId].seats[i].forfeitedAt.None?
         && SeatBound(s'.sessions, newId, i, s'.matches[newId].seats[i])
  }

  ghost predicate SameTable(m: Match, n: Match) {
    && n.status.Filling? && n.initialSeed.Some? && n.rematch.None?
    && n.isPublic == m.isPublic && n.playerCount == m.playerCount
    && forall i: nat :: i in n.seats <==> i < m.playerCount
  }

  lemma ResolvedTables(s: State, id: JsString, newId: JsString, seed: u32, tokens: seq<JsString>, atMs: int)
    requires AllAccepted(s, id) && newId !in s.matches
    requires forall i :: i in s.matches[id].seats ==> i < s.matches[id].playerCount
    ensures var s' := Resolve(s, id, newId, seed, tokens, atMs);
            && s'.matches.Keys == s.matches.Keys + {newId}
            && s'.matches[id].status.Collected? && Successor(s'.matches[id]) == Some(newId)
            && s'.matches[id].seats == s.matches[id].seats && Unforfeited(s.matches[id].seats)
            && s'.matches[newId].status.Filling?
            && SameTable(s.matches[id], s'.matches[newId])
            && forall i :: i in s'.matches[newId].seats ==>
                 && i in s.matches[id].seats
                 && s'.matches[newId].seats[i].session == s.matches[id].seats[i].session
                 && s'.matches[newId].seats[i].playerId == s.matches[id].seats[i].playerId
                 && s'.matches[newId].seats[i].forfeitedAt.None?
  {
    ResolveIs(s, id, newId, seed, tokens, atMs);
  }

  lemma SeatsOfLiveAreBound(s: State, id: JsString, cfg: Config)
    requires Inv(s, cfg) && id in s.matches && !s.matches[id].status.Collected?
    ensures forall i :: i in s.matches[id].seats ==> SeatBound(s.sessions, id, i, s.matches[id].seats[i])
  {
  }

  /** A vote past the gate, below the cap, yields a rematch exactly when every other seat holder has
      accepted; the rematch then seats everyone at the same index, with the same player and session. */
  lemma AcceptOutcome(s: State, id: JsString, token: JsString, offerId: JsString, newId: JsString, seed: u32,
                      tokens: seq<JsString>, atMs: int, cfg: Config)
    requires Inv(s, cfg) && newId !in s.matches && |tokens| == MAX_SEATS && NoDuplicates(tokens)
    requires VoteGate(s, id, token, offerId, atMs).Ok? && !AtCapacity(RunSweeps(s, atMs, cfg), cfg)
    ensures var i := VoteGate(s, id, token, offerId, atMs).value;
            var (s', reply) := AcceptRematch(s, id, token, offerId, newId, seed, tokens, atMs, cfg);
            var seat := s.matches[id].seats[i];
            if OthersAccepted(s.matches[id], i)
            then reply == Seated(newId, i, seat.playerId, seat.session, TokenAt(tokens, i)) && RematchCreated(s, s', id, newId)
            else reply == Voted && newId !in s'.matches && id in s'.matches
                 && s'.matches[id] == WithVote(s.matches[id], s.matches[id].seats[i].session)
  {
    var i := VoteGate(s, id, token, offerId, atMs).value;
    var s1 := RunSweeps(s, atMs, cfg);
    assert Inv(s1, cfg) by {
      RunSweepsKeeps(s, atMs, cfg);
    }
    GatePassed(s, id, token, offerId, atMs, cfg);
    AcceptCases(s, id, token, offerId, newId, seed, tokens, atMs, cfg);
    LastVoteIff(s1, id, i, cfg);
    if OthersAccepted(s.matches[id], i) {
      LastVoteCreates(s1, id, i, newId, seed, tokens, atMs, cfg);
    }
  }

  lemma LastVoteCreates(s: State, id: JsString, i: nat, newId: JsString, seed: u32, tokens: seq<JsString>, atMs: int, cfg: Config)
    requires Inv(s, cfg) && id in s.matches && s.matches[id].status.Finished? && s.matches[id].rematch.Some?
    requires i in s.matches[id].seats && s.matches[id].seats[i].forfeitedAt.None?
    requires var o := s.matches[id].rematch.value;
             && s.matches[id].seats[i].session in o.originals && s.matches[id].seats[i].session !in o.accepted
             && |o.accepted + {s.matches[id].seats[i].session}| == |o.originals|
    requires newId !in s.matches && |tokens| == MAX_SEATS && NoDuplicates(tokens)
    requires |Active(s.matches)| < cfg.maxConcurrentMatches
    ensures var seat := s.matches[id].seats[i];
            var (s', reply) := Complete(CastAccept(s, id, seat.session), id, i, newId, seed, tokens, atMs);
            RematchCreated(s, s', id, newId) && reply == Seated(newId, i, seat.playerId, seat.session, TokenAt(tokens, i))
  {
    var s2 := CastAccept(s, id, s.matches[id].seats[i].session);
    LastVoteReadies(s, id, i, cfg);
    CompleteIs(s2, id, i, newId, seed, tokens, atMs);
    ReadyResolves(s2, id, newId, seed, tokens, atMs, cfg);
    ResolvedTables(s2, id, newId, seed, tokens, atMs);
    SeatsOfLiveAreBound(Resolve(s2, id, newId, seed, tokens, atMs), newId, cfg);
  }

  /** Over every run a match has at most one rematch, and then it is collected with every seat holder's
      acceptance, no forfeited seat and no decline; no two matches share a rematch. */
  lemma RematchesAreUnanimousAndUnique(ops: seq<Op>, cfg: Config, id: JsString, other: JsString)
    requires AdmissibleRun(EMPTY, ops, cfg)
    requires var s := Run(EMPTY, ops, cfg);
             id in s.matches && other in s.matches && Successor(s.matches[id]).Some?
    ensures var s := Run(EMPTY, ops, cfg);
            var m := s.matches[id];
            && m.status.Collected? && m.finishedAt.Some? && Full(m) && Unforfeited(m.seats) && m.rematch.value.declined == {}
            && (forall i :: i in m.seats ==> m.seats[i].session in m.rematch.value.accepted)
            && Successor(m).value in s.matches
            && (other != id ==> Successor(s.matches[other]) != Successor(m))
  {
    NeverCrashes(ops, cfg);
    var s := Run(EMPTY, ops, cfg);
    assert RecordOk(s.matches[id], cfg);
  }

  // Joining ------------------------------------------------------------------

  /** The replies to a join without a reconnect token, each with the exact state that draws it. */
  lemma JoinReplies(s: State, id: JsString, session: JsString, playerId: JsString, token: JsString, atMs: int, boot: Boot,
                    cfg: Config)
    requires RecordsOk(s.matches, cfg)
    ensures var r := JoinMatch(s, id, session, playerId, token, atMs, boot).1;
            && (r == Refused(MatchNotFound) <==> id !in s.matches)
            && (r == Refused(MatchFull) <==> id in s.matches && Full(s.matches[id]))
            && (r == Refused(MatchNotJoinable) <==>
                  id in s.matches && s.matches[id].status.Collected? && !Full(s.matches[id]))
            && (r.Seated? ==> id in s.matches && s.matches[id].status.Filling? && r.seat !in s.matches[id].seats
                              && r.seat < s.matches[id].playerCount && forall k: nat :: k < r.seat ==> k in s.matches[id].seats)
  {
    if id in s.matches {
      assert RecordOk(s.matches[id], cfg);
      var free := FreeSeat(s.matches[id].seats, 0, s.matches[id].playerCount);
      assert free.Some? <==> !Full(s.matches[id]);
    }
  }

  lemma CountAfterSeating(seats: map<nat, Seat>, i: nat, seat: Seat, n: nat)
    requires (forall k :: k in seats ==> k < n) && i < n && i !in seats
    ensures |seats[i := seat]| >= n <==> forall k: nat :: k < n && k != i ==> k in seats
  {
    var keys := seats[i := seat].Keys;
    assert |keys| == |seats[i := seat]| && keys == seats.Keys + {i};
    if |keys| >= n {
      FullByCount(keys, n);
    }
    if forall k: nat :: k < n && k != i ==> k in seats {
      AllBelow(keys, n);
    }
  }

  lemma {:induction false} AllBelow(keys: set<nat>, n: nat)
    requires forall k: nat :: k < n ==> k in keys
    ensures |keys| >= n
  {
    if n > 0 {
      AllBelow(keys - {n - 1}, n - 1);
    }
  }

  /** The player would complete the table of `m` from seat `i`. */
  predicate Completes(m: Match, i: nat) {
    forall k: nat :: k < m.playerCount && k != i ==> k in m.seats
  }

  /** Nobody seated already plays as `playerId`, nor do two seated players share an identity. */
  predicate NewFace(m: Match, playerId: JsString) {
    DistinctPlayers(m) && forall k :: k in m.seats ==> m.seats[k].playerId != playerId
  }

  /** Taking a seat starts the match exactly when it was the last seat, the start-up works and all players
      are distinct; a failed start leaves everything as it was but the seed and the activity time. */
  lemma TakeSeatOutcome(s: State, id: JsString, i: nat, session: JsString, playerId: JsString, token: JsString, atMs: int,
                        boot: Boot, cfg: Config)
    requires RecordsOk(s.matches, cfg) && id in s.matches && s.matches[id].status.Filling?
    requires i !in s.matches[id].seats && i < s.matches[id].playerCount && session !in s.sessions
    ensures var m := s.matches[id];
            var (s', r) := TakeSeat(s, id, i, session, playerId, token, atMs, boot);
            && id in s'.matches
            && (s'.matches[id].status.Running? <==> Completes(m, i) && boot.ok && NewFace(m, playerId))
            && (r == Refused(InternalError) <==> Completes(m, i) && !(boot.ok && NewFace(m, playerId)))
            && (r == Refused(InternalError) ==>
                  s' == WithMatch(s, id, WithSeed(m, boot).(lastActivity := boot.atMs)))
            && (r != Refused(InternalError) ==>
                  && r == Seated(id, i, playerId, session, token)
                  && s'.matches[id].seats == m.seats[i := Seat(session, token, playerId, atMs, None)]
                  && s'.sessions == s.sessions[session := Session(playerId, Some(Binding(id, i, token)))])
  {
    var m := s.matches[id];
    var seat := Seat(session, token, playerId, atMs, None);
    assert RecordOk(m, cfg);
    StartsAfterSeating(m, i, seat, atMs, boot, cfg);
    if Completes(m, i) && !(boot.ok && NewFace(m, playerId)) {
      RollBackUndoes(s, id, i, session, playerId, token, atMs, boot);
    }
  }

  lemma StartsAfterSeating(m: Match, i: nat, seat: Seat, atMs: int, boot: Boot, cfg: Config)
    requires RecordOk(m, cfg) && i !in m.seats && i < m.playerCount
    ensures var m1 := m.(seats := m.seats[i := seat], lastActivity := atMs);
            && (|m1.seats| >= m1.playerCount <==> Completes(m, i))
            && (Completes(m, i) ==> (Starts(m1, boot) <==> boot.ok && NewFace(m, seat.playerId)))
  {
    CountAfterSeating(m.seats, i, seat, m.playerCount);
    DistinctAfterSeating(m, i, seat, atMs);
  }

  lemma DistinctAfterSeating(m: Match, i: nat, seat: Seat, atMs: int)
    requires i !in m.seats
    ensures DistinctPlayers(m.(seats := m.seats[i := seat], lastActivity := atMs)) <==> NewFace(m, seat.playerId)
  {
    var m' := m.(seats := m.seats[i := seat], lastActivity := atMs);
    if DistinctPlayers(m') {
      forall k, j | k in m.seats && j in m.seats && k != j ensures m.seats[k].playerId != m.seats[j].playerId {
        assert m'.seats[k] == m.seats[k] && m'.seats[j] == m.seats[j];
      }
      forall k | k in m.seats ensures m.seats[k].playerId != seat.playerId {
        assert k in m'.seats && i in m'.seats && m'.seats[k] == m.seats[k];
      }
    }
  }

  /** The refusal the code calls unreachable is reachable: a match collected before it filled keeps a free seat. */
  lemma CollectedMatchWithFreeSeat(id: JsString, session: JsString, playerId: JsString, token: JsString, cfg: Config,
                                   late: JsString, boot: Boot)
    requires cfg.maxConcurrentMatches > 0 && cfg.emptyMatchTtlMs >= 0
    ensures var ops := [Create(true, 2, id, session, playerId, token, 0, 0), Read(cfg.emptyMatchTtlMs)];
            && AdmissibleRun(EMPTY, ops, cfg)
            && JoinMatch(Run(EMPTY, ops, cfg), id, late, late, late, 0, boot).1 == Refused(MatchNotJoinable)
  {
    var created := Create(true, 2, id, session, playerId, token, 0, 0);
    var swept := Read(cfg.emptyMatchTtlMs);
    var s1 := Step(EMPTY, created, cfg).0;
    var s2 := Step(s1, swept, cfg).0;
    FirstCreated(id, session, playerId, token, cfg);
    LoneMatchSwept(s1, id, cfg.emptyMatchTtlMs, cfg);
    var ops := [created, swept];
    assert ops[1..] == [swept] && ops[1..][1..] == [];
    assert Run(EMPTY, ops, cfg) == Run(s1, [swept], cfg) == Run(s2, [], cfg) == s2;
    assert FreeSeat(s2.matches[id].seats, 0, 2) == Some(1);
  }

  lemma FirstCreated(id: JsString, session: JsString, playerId: JsString, token: JsString, cfg: Config)
    requires cfg.maxConcurrentMatches > 0
    ensures var s1 := Step(EMPTY, Create(true, 2, id, session, playerId, token, 0, 0), cfg).0;
            && s1.order == [id] && id in s1.matches && s1.matches[id].status.Filling? && s1.matches[id].lastActivity == 0
            && s1.matches[id].playerCount == 2 && s1.matches[id].seats.Keys == {0}
  {
    assert Active(EMPTY.matches) == {};
    assert RunSweeps(EMPTY, 0, cfg) == EMPTY;
  }

  /** A sweep after the time-to-live collects a lone filling match. */
  lemma LoneMatchSwept(s: State, id: JsString, atMs: int, cfg: Config)
    requires s.order == [id] && id in s.matches && s.matches[id].status.Filling?
    requires atMs - s.matches[id].lastActivity >= cfg.emptyMatchTtlMs
    ensures RunSweeps(s, atMs, cfg) == Collect(s, id, atMs)
  {
    assert s.order[1..] == [];
    assert Sweep(s, s.order, ExpiredRematches, atMs, cfg) == s;
    assert Sweep(s, s.order, ResultsTtl, atMs, cfg) == s;
    assert Sweep(s, s.order, StaleEmpty, atMs, cfg) == Sweep(Collect(s, id, atMs), [], StaleEmpty, atMs, cfg);
  }

  // Leaving ------------------------------------------------------------------

  /** The record and sessions a leaver of a filling match leaves behind. */
  ghost predicate SeatGivenUp(s: State, s': State, id: JsString, i: nat)
    requires id in s.matches && i in s.matches[id].seats
  {
    && id in s'.matches && s'.matches[id].seats == s.matches[id].seats - {i}
    && s'.matches[id].status == (if s.matches[id].seats.Keys == {i} then Collected else Filling)
    && (s.matches[id].seats[i].session in s'.sessions ==> s'.sessions[s.matches[id].seats[i].session].binding.None?)
    && (forall k :: k in s.matches && k != id ==> k in s'.matches && s'.matches[k] == s.matches[k])
  }

  /** The record a leaver of a running match leaves behind; `alive` players remain in the engine. */
  ghost predicate SeatForfeited(s: State, s': State, id: JsString, i: nat, atMs: int, alive: nat)
    requires id in s.matches && i in s.matches[id].seats
  {
    && id in s'.matches
    && s'.matches[id].seats == s.matches[id].seats[i := s.matches[id].seats[i].(forfeitedAt := Some(atMs))]
    && s'.matches[id].status == (if alive == 0 then Collected else Running)
    && (alive == 0 ==> s'.matches[id].results == Some(CancelledAllForfeited))
    && (forall k :: k in s.matches && k != id ==> k in s'.matches && s'.matches[k] == s.matches[k])
  }

  lemma GivingUpASeat(s: State, id: JsString, i: nat, token: JsString, atMs: int, alive: nat)
    requires id in s.matches && s.matches[id].status.Filling?
    requires SeatByToken(s.matches[id].seats, token) == Some(i) && s.matches[id].seats[i].forfeitedAt.None?
    ensures SeatGivenUp(s, LeaveFilling(s, id, i, token, atMs, alive), id, i)
  {
    LeaveFillingIs(s, id, i, token, atMs, alive);
    OnlySeat(s.matches[id].seats, i);
  }

  lemma OnlySeat(seats: map<nat, Seat>, i: nat)
    requires i in seats
    ensures seats - {i} == map[] <==> seats.Keys == {i}
  {
    var rest := seats - {i};
    assert rest.Keys == seats.Keys - {i};
    assert rest == map[] <==> rest.Keys == {};
  }

  /** Leaving frees the leaver's seat and no other, forfeits it once the match runs, and does nothing after. */
  lemma LeaveOutcome(s: State, id: JsString, token: JsString, atMs: int, alive: nat, cfg: Config)
    requires RecordsOk(s.matches, cfg) && id in s.matches && SeatByToken(s.matches[id].seats, token).Some?
    ensures var i := SeatByToken(s.matches[id].seats, token).value;
            var (s', reply) := LeaveMatch(s, id, token, atMs, alive);
            && reply == Done
            && (if s.matches[id].seats[i].forfeitedAt.Some? then s' == s
                else if s.matches[id].status.Filling? then SeatGivenUp(s, s', id, i)
                else if s.matches[id].status.Running? then SeatForfeited(s, s', id, i, atMs, alive)
                else s' == s)
  {
    var i := SeatByToken(s.matches[id].seats, token).value;
    if s.matches[id].seats[i].forfeitedAt.None? {
      ExpireCases(s, id, token, atMs, alive, cfg);
      if s.matches[id].status.Filling? {
        GivingUpASeat(s, id, i, token, atMs, alive);
      }
    }
  }

  // Rematch windows ----------------------------------------------------------

  /** The first request opens a window over exactly the seat holders, in seat order, whose deadline counts
      from the finish, not from the request; after the deadline no window opens. */
  lemma WindowAnchoredAtFinish(s: State, id: JsString, token: JsString, offerId: JsString, atMs: int, cfg: Config)
    requires RecordsOk(s.matches, cfg) && id in s.matches && s.matches[id].status.Finished? && s.matches[id].rematch.None?
    requires HasToken(s.matches[id].seats, token)
    ensures var m := s.matches[id];
            var (s', reply) := RequestRematch(s, id, token, offerId, atMs, cfg);
            if atMs > m.finishedAt.value + cfg.rematchWindowMs then s' == s && reply == Refused(RematchWindowClosed)
            else
              && reply == Offered(offerId) && s'.matches[id].rematch.Some?
              && var o := s'.matches[id].rematch.value;
              && o.expiresAt == m.finishedAt.value + cfg.rematchWindowMs && o.accepted == {} && o.declined == {}
              && |o.originals| == m.playerCount
              && forall i: nat :: i < m.playerCount ==> i in m.seats && o.originals[i] == m.seats[i].session
  {
    assert RecordOk(s.matches[id], cfg);
    SeatIdsOfFull(s.matches[id].seats, s.matches[id].playerCount);
  }
}
