/** The invariant of the matchmaker, in three groups: the books (counters, order, event log), the
    shape of each record, and the correspondence between sessions and seats. */
module MatchInvariant {
  import opened Js
  import opened MatchModel

  // Books --------------------------------------------------------------------

  function Statuses(matches: map<JsString, Match>): map<JsString, Status> {
    map id | id in matches :: matches[id].status
  }

  function CollectedIds(matches: map<JsString, Match>): set<JsString> {
    set id | id in matches && matches[id].status.Collected?
  }

  function EndedIds(matches: map<JsString, Match>): set<JsString> {
    set id | id in matches && matches[id].finishedAt.Some?
  }

  /** The edges of the lifecycle. */
  predicate LegalEdge(before: Option<Status>, after: Status) {
    match after
    case Filling => before.None?
    case Running => before == Some(Filling)
    case Finished => before == Some(Running)
    case Collected => before.Some? && !before.value.Collected?
  }

  /** Current statuses rebuilt from the event log alone; `None` when the log is not a chain of legal edges. */
  function Replay(events: seq<StatusEvent>): Option<map<JsString, Status>> {
    if events == [] then Some(map[]) else
    var e := events[|events| - 1];
    match Replay(events[..|events| - 1])
    case None => None
    case Some(m) =>
      if LegalEdge(e.before, e.after) && (if e.matchId in m then e.before == Some(m[e.matchId]) else e.before.None?)
      then Some(m[e.matchId := e.after])
      else None
  }

  ghost predicate BooksOk(s: State, cfg: Config) {
    && NoDuplicates(s.order) && (set id | id in s.order) == s.matches.Keys
    && s.totalCreated == |s.matches.Keys|
    && s.totalCollected == |CollectedIds(s.matches)|
    && s.totalFinished == |EndedIds(s.matches)|
    && |Active(s.matches)| <= cfg.maxConcurrentMatches
    && Replay(s.events) == Some(Statuses(s.matches))
    && !s.crashed
  }

  // Records ------------------------------------------------------------------

  predicate DistinctTokens(seats: map<nat, Seat>) {
    forall i, j :: i in seats && j in seats && i != j ==> seats[i].token != seats[j].token
  }

  predicate Unforfeited(seats: map<nat, Seat>) {
    forall i :: i in seats ==> seats[i].forfeitedAt.None?
  }

  predicate OfferOk(m: Match, o: Offer, cfg: Config) {
    && m.finishedAt.Some? && o.expiresAt == m.finishedAt.value + cfg.rematchWindowMs
    && o.originals == SeatIds(m.seats, m.playerCount)
    && (forall v :: v in o.accepted ==> v in o.originals)
    && |o.accepted| < |o.originals|
    && o.declined == {} && o.successor.None?
    && (forall i :: i in m.seats && m.seats[i].session in o.accepted ==> m.seats[i].forfeitedAt.None?)
  }

  predicate FillingOk(m: Match) {
    && !m.hasEngine && m.startedAt.None? && m.finishedAt.None? && m.results.None? && m.rematch.None?
    && Unforfeited(m.seats)
  }

  predicate RunningOk(m: Match) {
    && m.hasEngine && m.startedAt.Some? && m.finishedAt.None? && m.results.None? && m.rematch.None?
    && m.initialSeed.Some? && Full(m) && DistinctPlayers(m)
  }

  predicate FinishedOk(m: Match, cfg: Config) {
    && m.hasEngine && m.startedAt.Some? && m.finishedAt.Some? && m.results.Some?
    && m.initialSeed.Some? && Full(m) && DistinctPlayers(m)
    && (m.rematch.Some? ==> OfferOk(m, m.rematch.value, cfg))
  }

  /** A collected match has a successor only if every seat accepted, none declined and none was forfeited. */
  predicate CollectedOk(m: Match) {
    m.rematch.Some? && m.rematch.value.successor.Some? ==>
      && m.finishedAt.Some? && m.rematch.value.declined == {} && Full(m) && Unforfeited(m.seats)
      && (forall i :: i in m.seats ==> m.seats[i].session in m.rematch.value.accepted)
  }

  predicate RecordOk(m: Match, cfg: Config) {
    && 2 <= m.playerCount <= MAX_SEATS
    && (forall i :: i in m.seats ==> i < m.playerCount)
    && DistinctTokens(m.seats)
    && match m.status
       case Filling => FillingOk(m)
       case Running => RunningOk(m)
       case Finished => FinishedOk(m, cfg)
       case Collected => CollectedOk(m)
  }

  predicate RecordsOk(matches: map<JsString, Match>, cfg: Config) {
    forall id :: id in matches ==> RecordOk(matches[id], cfg)
  }

  // Sessions and seats -------------------------------------------------------

  /** A seat of a live match is the one its session is bound to: same match, index, token and player. */
  ghost predicate SeatsBound(matches: map<JsString, Match>, sessions: map<JsString, Session>) {
    forall id, i :: id in matches && !matches[id].status.Collected? && i in matches[id].seats ==>
      SeatBound(sessions, id, i, matches[id].seats[i])
  }

  predicate SeatBound(sessions: map<JsString, Session>, id: JsString, i: nat, seat: Seat) {
    seat.session in sessions && sessions[seat.session] == Session(seat.playerId, Some(Binding(id, i, seat.token)))
  }

  /** A bound session sits in the live match it names. */
  predicate BindingsSeated(matches: map<JsString, Match>, sessions: map<JsString, Session>) {
    forall sid :: sid in sessions && sessions[sid].binding.Some? ==> Sits(matches, sid, sessions[sid].binding.value)
  }

  predicate Sits(matches: map<JsString, Match>, sid: JsString, b: Binding) {
    && b.matchId in matches && !matches[b.matchId].status.Collected?
    && b.seat in matches[b.matchId].seats && matches[b.matchId].seats[b.seat].session == sid
  }

  ghost predicate Bound(matches: map<JsString, Match>, sessions: map<JsString, Session>) {
    SeatsBound(matches, sessions) && BindingsSeated(matches, sessions)
  }

  /** Successors exist, and no two matches share one. */
  predicate Lineage(matches: map<JsString, Match>) {
    && (forall id :: id in matches && Successor(matches[id]).Some? ==> Successor(matches[id]).value in matches)
    && (forall a, b :: a in matches && b in matches && a != b && Successor(matches[a]).Some? ==>
          Successor(matches[a]) != Successor(matches[b]))
  }

  function Successor(m: Match): Option<JsString> {
    if m.rematch.Some? then m.rematch.value.successor else None
  }

  ghost predicate Inv(s: State, cfg: Config) {
    BooksOk(s, cfg) && RecordsOk(s.matches, cfg) && Bound(s.matches, s.sessions) && Lineage(s.matches)
  }

  // Book-keeping steps -------------------------------------------------------

  lemma ReplayOne(events: seq<StatusEvent>, e: StatusEvent)
    requires Replay(events).Some? && LegalEdge(e.before, e.after)
    requires var m := Replay(events).value; if e.matchId in m then e.before == Some(m[e.matchId]) else e.before.None?
    ensures Replay(events + [e]) == Some(Replay(events).value[e.matchId := e.after])
  {
    assert (events + [e])[..|events|] == events;
  }

  lemma SetsUnmoved(ms: map<JsString, Match>, id: JsString, m: Match)
    requires id in ms && m.status == ms[id].status && m.finishedAt.Some? == ms[id].finishedAt.Some?
    ensures CollectedIds(ms[id := m]) == CollectedIds(ms) && EndedIds(ms[id := m]) == EndedIds(ms)
    ensures Active(ms[id := m]) == Active(ms)
  {
  }

  lemma StatusesUnmoved(ms: map<JsString, Match>, id: JsString, m: Match)
    requires id in ms && m.status == ms[id].status
    ensures Statuses(ms[id := m]) == Statuses(ms) && ms[id := m].Keys == ms.Keys
  {
  }

  /** The record changes, its status and finish mark do not. */
  lemma BooksUnmoved(s: State, s': State, id: JsString, m: Match, cfg: Config)
    requires BooksOk(s, cfg) && id in s.matches
    requires s'.matches == s.matches[id := m] && m.status == s.matches[id].status
    requires m.finishedAt.Some? == s.matches[id].finishedAt.Some?
    requires s'.order == s.order && s'.events == s.events && s'.crashed == s.crashed
    requires s'.totalCreated == s.totalCreated && s'.totalFinished == s.totalFinished
    requires s'.totalCollected == s.totalCollected
    ensures BooksOk(s', cfg)
  {
    SetsUnmoved(s.matches, id, m);
    StatusesUnmoved(s.matches, id, m);
  }

  lemma CollectedMoved(ms: map<JsString, Match>, id: JsString, m: Match)
    requires id in ms && !ms[id].status.Collected?
    ensures |CollectedIds(ms[id := m])| == |CollectedIds(ms)| + if m.status.Collected? then 1 else 0
    ensures |Active(ms[id := m])| == |Active(ms)| - if m.status.Collected? then 1 else 0
  {
    assert id in Active(ms);
    if m.status.Collected? {
      assert CollectedIds(ms[id := m]) == CollectedIds(ms) + {id};
      assert Active(ms[id := m]) == Active(ms) - {id};
    } else {
      assert CollectedIds(ms[id := m]) == CollectedIds(ms);
      assert Active(ms[id := m]) == Active(ms);
    }
  }

  lemma EndedMoved(ms: map<JsString, Match>, id: JsString, m: Match)
    requires id in ms && (ms[id].finishedAt.Some? ==> m.finishedAt.Some?)
    ensures |EndedIds(ms[id := m])| == |EndedIds(ms)| + if m.finishedAt.Some? && ms[id].finishedAt.None? then 1 else 0
  {
    if m.finishedAt.Some? && ms[id].finishedAt.None? {
      assert EndedIds(ms[id := m]) == EndedIds(ms) + {id};
    } else {
      assert EndedIds(ms[id := m]) == EndedIds(ms);
    }
  }

  lemma LogMoved(ms: map<JsString, Match>, events: seq<StatusEvent>, id: JsString, m: Match, e: StatusEvent)
    requires Replay(events) == Some(Statuses(ms))
    requires e.matchId == id && e.after == m.status && LegalEdge(e.before, e.after)
    requires if id in ms then e.before == Some(ms[id].status) else e.before.None?
    ensures Replay(events + [e]) == Some(Statuses(ms[id := m]))
  {
    ReplayOne(events, e);
    assert Statuses(ms[id := m]) == Statuses(ms)[id := m.status];
  }

  /** A record moves along a legal edge, the event is emitted and the counters follow. */
  lemma BooksMoved(s: State, s': State, id: JsString, m: Match, atMs: int, cfg: Config)
    requires BooksOk(s, cfg) && id in s.matches
    requires LegalEdge(Some(s.matches[id].status), m.status)
    requires s'.matches == s.matches[id := m] && s'.order == s.order && s'.crashed == s.crashed
    requires s'.events == s.events + [StatusEvent(id, Some(s.matches[id].status), m.status, atMs)]
    requires s.matches[id].finishedAt.Some? ==> m.finishedAt.Some?
    requires s'.totalCreated == s.totalCreated
    requires s'.totalFinished == s.totalFinished + if m.finishedAt.Some? && s.matches[id].finishedAt.None? then 1 else 0
    requires s'.totalCollected == s.totalCollected + if m.status.Collected? then 1 else 0
    ensures BooksOk(s', cfg)
    ensures m.status.Collected? ==> |Active(s'.matches)| == |Active(s.matches)| - 1
  {
    assert Replay(s'.events) == Some(Statuses(s'.matches)) by {
      LogMoved(s.matches, s.events, id, m, StatusEvent(id, Some(s.matches[id].status), m.status, atMs));
    }
    CollectedMoved(s.matches, id, m);
    EndedMoved(s.matches, id, m);
    assert s'.matches.Keys == s.matches.Keys;
  }

  lemma OrderGrows(order: seq<JsString>, keys: set<JsString>, id: JsString)
    requires NoDuplicates(order) && (set k | k in order) == keys && id !in keys
    ensures NoDuplicates(order + [id]) && (set k | k in order + [id]) == keys + {id}
  {
    assert id in order <==> id in (set k | k in order);
  }

  lemma EndsOfAdded(ms: map<JsString, Match>, id: JsString, m: Match)
    requires id !in ms && m.status.Filling? && m.finishedAt.None?
    ensures CollectedIds(ms[id := m]) == CollectedIds(ms) && EndedIds(ms[id := m]) == EndedIds(ms)
  {
  }

  lemma KeysOfAdded(ms: map<JsString, Match>, id: JsString, m: Match)
    requires id !in ms && m.status.Filling?
    ensures |Active(ms[id := m])| == |Active(ms)| + 1
    ensures ms[id := m].Keys == ms.Keys + {id} && |ms[id := m].Keys| == |ms.Keys| + 1
  {
    assert Active(ms[id := m]) == Active(ms) + {id};
    assert ms[id := m].Keys == ms.Keys + {id};
  }

  lemma BooksGrown(s: State, s': State, id: JsString, m: Match, atMs: int, cfg: Config)
    requires BooksOk(s, cfg) && id !in s.matches
    requires m.status.Filling? && m.finishedAt.None?
    requires |Active(s.matches)| < cfg.maxConcurrentMatches
    requires s'.matches == s.matches[id := m] && s'.order == s.order + [id] && s'.crashed == s.crashed
    requires s'.events == s.events + [StatusEvent(id, None, Filling, atMs)]
    requires s'.totalCreated == s.totalCreated + 1 && s'.totalFinished == s.totalFinished
    requires s'.totalCollected == s.totalCollected
    ensures BooksOk(s', cfg)
    ensures |Active(s'.matches)| == |Active(s.matches)| + 1
  {
    assert Replay(s'.events) == Some(Statuses(s'.matches)) by {
      LogMoved(s.matches, s.events, id, m, StatusEvent(id, None, Filling, atMs));
    }
    EndsOfAdded(s.matches, id, m);
    KeysOfAdded(s.matches, id, m);
    assert NoDuplicates(s'.order) && (set k | k in s'.order) == s'.matches.Keys by {
      OrderGrows(s.order, s.matches.Keys, id);
    }
  }

  /** A fresh filling record is added below the cap. */
  lemma BooksAdded(s: State, id: JsString, m: Match, atMs: int, cfg: Config)
    requires BooksOk(s, cfg) && id !in s.matches
    requires m.status.Filling? && m.finishedAt.None?
    requires |Active(s.matches)| < cfg.maxConcurrentMatches
    ensures BooksOk(AddMatch(s, id, m, atMs), cfg)
    ensures |Active(AddMatch(s, id, m, atMs).matches)| == |Active(s.matches)| + 1
  {
    BooksGrown(s, AddMatch(s, id, m, atMs), id, m, atMs, cfg);
  }

  // Session and seat steps ---------------------------------------------------

  predicate SameHolders(a: map<nat, Seat>, b: map<nat, Seat>) {
    && a.Keys == b.Keys
    && forall i :: i in a ==> a[i].session == b[i].session && a[i].token == b[i].token && a[i].playerId == b[i].playerId
  }

  lemma BoundSameHolders(ms: map<JsString, Match>, ss: map<JsString, Session>, id: JsString, m: Match)
    requires Bound(ms, ss) && id in ms && SameHolders(ms[id].seats, m.seats)
    requires m.status.Collected? == ms[id].status.Collected?
    ensures Bound(ms[id := m], ss)
  {
  }

  lemma BoundEmptyMatch(ms: map<JsString, Match>, ss: map<JsString, Session>, id: JsString, m: Match)
    requires Bound(ms, ss) && id !in ms && m.seats == map[]
    ensures Bound(ms[id := m], ss)
  {
  }

  lemma BoundSeated(ms: map<JsString, Match>, ss: map<JsString, Session>, id: JsString, m: Match, i: nat, seat: Seat)
    requires Bound(ms, ss) && id in ms && !ms[id].status.Collected? && !m.status.Collected?
    requires i !in ms[id].seats && m.seats == ms[id].seats[i := seat] && seat.session !in ss
    ensures Bound(ms[id := m], ss[seat.session := Session(seat.playerId, Some(Binding(id, i, seat.token)))])
  {
  }

  /** A seat is given up; its session loses its binding, or goes. */
  lemma BoundUnseated(ms: map<JsString, Match>, ss: map<JsString, Session>, ss': map<JsString, Session>,
                      id: JsString, m: Match, i: nat)
    requires Bound(ms, ss) && id in ms && !ms[id].status.Collected? && !m.status.Collected?
    requires i in ms[id].seats && m.seats == ms[id].seats - {i}
    requires var sid := ms[id].seats[i].session;
             && (forall k :: k in ss' ==> k in ss)
             && (forall k :: k in ss && k != sid ==> k in ss' && ss'[k] == ss[k])
             && (sid in ss' ==> ss'[sid].binding.None?)
    ensures Bound(ms[id := m], ss')
  {
    var sid := ms[id].seats[i].session;
    assert SeatBound(ss, id, i, ms[id].seats[i]);
    var ms' := ms[id := m];
    forall k, j | k in ms' && !ms'[k].status.Collected? && j in ms'[k].seats
      ensures SeatBound(ss', k, j, ms'[k].seats[j])
    {
      assert SeatBound(ss, k, j, ms[k].seats[j]);
    }
  }

  lemma BoundForgotten(ms: map<JsString, Match>, ss: map<JsString, Session>, sid: JsString)
    requires Bound(ms, ss) && (sid in ss ==> ss[sid].binding.None?)
    ensures Bound(ms, ss - {sid})
  {
    forall k, j | k in ms && !ms[k].status.Collected? && j in ms[k].seats
      ensures SeatBound(ss - {sid}, k, j, ms[k].seats[j])
    {
      assert SeatBound(ss, k, j, ms[k].seats[j]);
    }
  }

  lemma BoundCollected(ms: map<JsString, Match>, ss: map<JsString, Session>, id: JsString, m: Match)
    requires Bound(ms, ss) && id in ms && !ms[id].status.Collected? && m.status.Collected?
    ensures Bound(ms[id := m], Released(ss, id, ms[id].seats))
  {
    var ms', ss' := ms[id := m], Released(ss, id, ms[id].seats);
    forall k, j | k in ms' && !ms'[k].status.Collected? && j in ms'[k].seats
      ensures SeatBound(ss', k, j, ms'[k].seats[j])
    {
      assert SeatBound(ss, k, j, ms[k].seats[j]);
    }
    forall sid | sid in ss' && ss'[sid].binding.Some?
      ensures Sits(ms', sid, ss'[sid].binding.value)
    {
      assert Sits(ms, sid, ss[sid].binding.value);
    }
  }

  lemma LineageKept(ms: map<JsString, Match>, id: JsString, m: Match)
    requires Lineage(ms) && (id in ms ==> Successor(m) == Successor(ms[id])) && (id !in ms ==> Successor(m).None?)
    ensures Lineage(ms[id := m])
  {
  }

  lemma LineageExtended(ms: map<JsString, Match>, id: JsString, m: Match, newId: JsString, n: Match)
    requires Lineage(ms) && id in ms && newId !in ms
    requires Successor(m) == Some(newId) && Successor(n).None?
    ensures Lineage(ms[newId := n][id := m])
  {
  }
}
