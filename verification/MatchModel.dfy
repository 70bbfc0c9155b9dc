/** The matchmaker as a state and its operations (packages/matchmaking/src/matchmaker.ts,
    matchLifecycle.ts, forfeit.ts, rematch.ts, store.ts). Clock readings, freshly minted ids and
    tokens, the outcome of the engine start-up and the engine's count of living players are
    parameters. */
module MatchModel {
  import opened Js

  // Records ------------------------------------------------------------------

  datatype Status = Filling | Running | Finished | Collected

  datatype Seat = Seat(session: JsString, token: JsString, playerId: JsString, connectedAt: int, forfeitedAt: Option<int>)

  datatype Binding = Binding(matchId: JsString, seat: nat, token: JsString)

  datatype Session = Session(playerId: JsString, binding: Option<Binding>)

  datatype Results = Outcome(payload: int) | CancelledAllForfeited

  datatype Offer = Offer(
    offerId: JsString,
    expiresAt: int,
    accepted: set<JsString>,
    declined: set<JsString>,
    originals: seq<JsString>,
    successor: Option<JsString>)

  datatype Match = Match(
    status: Status,
    isPublic: bool,
    playerCount: nat,
    seats: map<nat, Seat>,
    createdAt: int,
    startedAt: Option<int>,
    finishedAt: Option<int>,
    results: Option<Results>,
    rematch: Option<Offer>,
    hasEngine: bool,
    initialSeed: Option<u32>,
    lastActivity: int)

  datatype StatusEvent = StatusEvent(matchId: JsString, before: Option<Status>, after: Status, atMs: int)

  /** The store, the counters, every status event emitted so far, and whether one of the
      "illegal transition" or "unreachable" throws has been hit. */
  datatype State = State(
    matches: map<JsString, Match>,
    order: seq<JsString>,
    sessions: map<JsString, Session>,
    totalCreated: nat,
    totalFinished: nat,
    totalCollected: nat,
    totalForfeits: nat,
    totalRematchAccepted: nat,
    totalRematchDeclined: nat,
    events: seq<StatusEvent>,
    crashed: bool)

  const EMPTY := State(map[], [], map[], 0, 0, 0, 0, 0, 0, [], false)

  datatype Config = Config(maxConcurrentMatches: nat, rematchWindowMs: int, resultsTtlMs: int, emptyMatchTtlMs: int)

  datatype MatchError =
    | MatchNotFound | MatchFull | MatchNotJoinable | SessionInvalid | SessionExpired | RateLimited | InternalError
    | RematchNotOffered | RematchWindowClosed | RematchAlreadyVoted | PlayerNotInMatch

  datatype Reply =
    | Seated(matchId: JsString, seat: nat, playerId: JsString, session: JsString, token: JsString)
    | Offered(offerId: JsString)
    | Voted
    | Done
    | Refused(error: MatchError)

  const MAX_SEATS := 4

  // Lookups ------------------------------------------------------------------

  ghost predicate HasToken(seats: map<nat, Seat>, token: JsString) {
    exists i :: i in seats && seats[i].token == token
  }

  /** The seat a token opens; which one is irrelevant once tokens are distinct. */
  ghost function SeatByToken(seats: map<nat, Seat>, token: JsString): (r: Option<nat>)
    ensures r.Some? <==> HasToken(seats, token)
    ensures r.Some? ==> r.value in seats && seats[r.value].token == token
  {
    if HasToken(seats, token) then
      var i :| i in seats && seats[i].token == token;
      Some(i)
    else None
  }

  /** The lowest free seat at or above `i`. */
  function FreeSeat(seats: map<nat, Seat>, i: nat, n: nat): (r: Option<nat>)
    ensures r.None? ==> forall k :: i <= k < n ==> k in seats
    ensures r.Some? ==> i <= r.value < n && r.value !in seats
    ensures r.Some? ==> forall k :: i <= k < r.value ==> k in seats
    decreases n - i
  {
    if i >= n then None else if i !in seats then Some(i) else FreeSeat(seats, i + 1, n)
  }

  /** Session ids in seat order. */
  function SeatIds(seats: map<nat, Seat>, n: nat): seq<JsString> {
    if n == 0 then [] else
    SeatIds(seats, n - 1) + (if n - 1 in seats then [seats[n - 1].session] else [])
  }

  function IsWindowClosed(o: Offer, atMs: int): bool {
    atMs > o.expiresAt
  }

  datatype Eligibility = Eligible | AlreadyVoted | NotInMatch

  function ClassifyVoter(o: Offer, voter: JsString): Eligibility {
    if voter in o.accepted || voter in o.declined then AlreadyVoted
    else if voter !in o.originals then NotInMatch
    else Eligible
  }

  // Transitions --------------------------------------------------------------

  function WithMatch(s: State, id: JsString, m: Match): State {
    s.(matches := s.matches[id := m])
  }

  function Emit(s: State, id: JsString, before: Option<Status>, after: Status, atMs: int): State {
    s.(events := s.events + [StatusEvent(id, before, after, atMs)])
  }

  function NewMatch(isPublic: bool, playerCount: nat, atMs: int, seed: Option<u32>): Match {
    Match(Filling, isPublic, playerCount, map[], atMs, None, None, None, None, false, seed, atMs)
  }

  /** Stores a record under a fresh id and announces it. */
  function AddMatch(s: State, id: JsString, m: Match, atMs: int): State {
    Emit(s.(matches := s.matches[id := m], order := s.order + [id], totalCreated := s.totalCreated + 1),
         id, None, Filling, atMs)
  }

  /** `addSeatToFillingMatch` for a session just created. */
  function SeatPlayer(s: State, id: JsString, i: nat, session: JsString, playerId: JsString, token: JsString, atMs: int): State
    requires id in s.matches
  {
    var m := s.matches[id];
    s.(matches := s.matches[id := m.(seats := m.seats[i := Seat(session, token, playerId, atMs, None)], lastActivity := atMs)],
       sessions := s.sessions[session := Session(playerId, Some(Binding(id, i, token)))])
  }

  /** `releaseMatchSessions`: sessions still bound to the match go, rebound ones stay. */
  ghost function Released(sessions: map<JsString, Session>, id: JsString, seats: map<nat, Seat>): map<JsString, Session> {
    map sid | sid in sessions && !HeldBy(sessions[sid], sid, id, seats) :: sessions[sid]
  }

  ghost predicate HeldBy(session: Session, sid: JsString, id: JsString, seats: map<nat, Seat>) {
    && session.binding.Some? && session.binding.value.matchId == id
    && exists i :: i in seats && seats[i].session == sid
  }

  /** Release the sessions and `transitionToCollected`. */
  ghost function TearDown(s: State, id: JsString, atMs: int, results: Option<Results>): State
    requires id in s.matches
  {
    var m := s.matches[id];
    if m.status.Collected? then s.(crashed := true) else
    var done := m.(status := Collected, lastActivity := atMs, results := if results.Some? then results else m.results);
    Emit(WithMatch(s, id, done).(sessions := Released(s.sessions, id, m.seats)), id, Some(m.status), Collected, atMs)
  }

  function CountCollected(s: State): State {
    s.(totalCollected := s.totalCollected + 1)
  }

  /** `collectMatch`. */
  ghost function Collect(s: State, id: JsString, atMs: int): State
    requires id in s.matches
  {
    CountCollected(TearDown(s, id, atMs, None))
  }

  // Sweeps -------------------------------------------------------------------

  datatype SweepKind = ExpiredRematches | ResultsTtl | StaleEmpty

  predicate Due(m: Match, kind: SweepKind, atMs: int, cfg: Config) {
    match kind
    case ExpiredRematches => m.status.Finished? && m.rematch.Some? && IsWindowClosed(m.rematch.value, atMs)
    case ResultsTtl =>
      && m.status.Finished? && m.finishedAt.Some?
      && (m.rematch.Some? ==> IsWindowClosed(m.rematch.value, atMs))
      && atMs - m.finishedAt.value >= cfg.resultsTtlMs
    case StaleEmpty => m.status.Filling? && atMs - m.lastActivity >= cfg.emptyMatchTtlMs
  }

  ghost function Sweep(s: State, ids: seq<JsString>, kind: SweepKind, atMs: int, cfg: Config): (r: State)
    ensures r.matches.Keys == s.matches.Keys
    decreases |ids|
  {
    if ids == [] then s
    else if ids[0] in s.matches && Due(s.matches[ids[0]], kind, atMs, cfg) then
      Sweep(Collect(s, ids[0], atMs), ids[1..], kind, atMs, cfg)
    else Sweep(s, ids[1..], kind, atMs, cfg)
  }

  /** `runLazySweeps`. */
  ghost function RunSweeps(s: State, atMs: int, cfg: Config): (r: State)
    ensures r.matches.Keys == s.matches.Keys
  {
    var s1 := Sweep(s, s.order, ExpiredRematches, atMs, cfg);
    var s2 := Sweep(s1, s1.order, ResultsTtl, atMs, cfg);
    Sweep(s2, s2.order, StaleEmpty, atMs, cfg)
  }

  function Active(matches: map<JsString, Match>): set<JsString> {
    set id | id in matches && !matches[id].status.Collected?
  }

  predicate AtCapacity(s: State, cfg: Config) {
    |Active(s.matches)| >= cfg.maxConcurrentMatches
  }

  // Operations ---------------------------------------------------------------

  /** `createMatch` after its request has been validated. */
  ghost function CreateMatch(s: State, isPublic: bool, playerCount: nat, id: JsString, session: JsString, playerId: JsString,
                             token: JsString, sweepAt: int, atMs: int, cfg: Config): (State, Reply)
  {
    var s1 := RunSweeps(s, sweepAt, cfg);
    if AtCapacity(s1, cfg) then (s1, Refused(RateLimited)) else
    var s2 := AddMatch(s1, id, NewMatch(isPublic, playerCount, atMs, None), atMs);
    (SeatPlayer(s2, id, 0, session, playerId, token, atMs), Seated(id, 0, playerId, session, token))
  }

  /** What the start-up critical section meets: whether map generation, engine construction and
      registration go through, the seed it would mint, and the clock after it. */
  datatype Boot = Boot(ok: bool, seed: u32, atMs: int)

  predicate Full(m: Match) {
    forall i | 0 <= i < m.playerCount :: i in m.seats
  }

  predicate DistinctPlayers(m: Match) {
    forall i, j :: i in m.seats && j in m.seats && i != j ==> m.seats[i].playerId != m.seats[j].playerId
  }

  /** Start-up needs every seat taken and, since the engine's registry refuses duplicates, distinct players. */
  predicate Starts(m: Match, boot: Boot) {
    boot.ok && Full(m) && DistinctPlayers(m)
  }

  function WithSeed(m: Match, boot: Boot): Match {
    if m.initialSeed.Some? then m else m.(initialSeed := Some(boot.seed))
  }

  /** `transitionFillingToRunning`. */
  function Start(s: State, id: JsString, atMs: int): State
    requires id in s.matches
  {
    var m := s.matches[id];
    if !m.status.Filling? then s.(crashed := true) else
    Emit(WithMatch(s, id, m.(status := Running, hasEngine := true, startedAt := Some(atMs), lastActivity := atMs)),
         id, Some(Filling), Running, atMs)
  }

  /** Undo of a join whose start-up failed. */
  function RollBack(s: State, id: JsString, i: nat, session: JsString, atMs: int): State
    requires id in s.matches
  {
    var m := s.matches[id];
    WithMatch(s, id, m.(seats := m.seats - {i}, lastActivity := atMs)).(sessions := s.sessions - {session})
  }

  /** The joiner takes seat `i`; the last seat triggers the start-up, whose failure is rolled back. */
  ghost function TakeSeat(s: State, id: JsString, i: nat, session: JsString, playerId: JsString, token: JsString, atMs: int,
                          boot: Boot): (State, Reply)
    requires id in s.matches
  {
    var s1 := SeatPlayer(s, id, i, session, playerId, token, atMs);
    var m1 := s1.matches[id];
    if |m1.seats| < m1.playerCount then (s1, Seated(id, i, playerId, session, token)) else
    var s2 := WithMatch(s1, id, WithSeed(m1, boot));
    var s3 := if Starts(m1, boot) then Start(s2, id, boot.atMs) else s2;
    if Starts(m1, boot) && m1.status.Filling? then (s3, Seated(id, i, playerId, session, token))
    else (RollBack(s3, id, i, session, boot.atMs), Refused(InternalError))
  }

  /** `joinMatch` without a reconnect token. */
  ghost function JoinMatch(s: State, id: JsString, session: JsString, playerId: JsString, token: JsString, atMs: int, boot: Boot):
    (State, Reply)
  {
    if id !in s.matches then (s, Refused(MatchNotFound)) else
    var m := s.matches[id];
    match FreeSeat(m.seats, 0, m.playerCount)
    case None => (s, Refused(MatchFull))
    case Some(i) =>
      if !m.status.Filling? then (s, Refused(MatchNotJoinable))
      else TakeSeat(s, id, i, session, playerId, token, atMs, boot)
  }

  /** `joinMatch` with a reconnect token: a read. */
  ghost function Reconnect(s: State, id: JsString, token: JsString): Reply {
    if id !in s.matches then Refused(MatchNotFound) else
    var m := s.matches[id];
    match SeatByToken(m.seats, token)
    case None => Refused(MatchNotFound)
    case Some(i) =>
      var seat := m.seats[i];
      if seat.forfeitedAt.Some? || m.status.Finished? || m.status.Collected? then Refused(SessionExpired)
      else Seated(id, i, seat.playerId, seat.session, seat.token)
  }

  function ReleaseSeat(s: State, id: JsString, i: nat): State
    requires id in s.matches && i in s.matches[id].seats
  {
    var m := s.matches[id];
    var sid := m.seats[i].session;
    WithMatch(s, id, m.(seats := m.seats - {i})).(
      sessions := if sid in s.sessions then s.sessions[sid := s.sessions[sid].(binding := None)] else s.sessions)
  }

  datatype ForfeitOutcome = Surrendered | SeatReleased | TornDown

  function Forfeit(s: State, id: JsString, i: nat, atMs: int): State
    requires id in s.matches && i in s.matches[id].seats
  {
    var m := s.matches[id];
    WithMatch(s, id, m.(seats := m.seats[i := m.seats[i].(forfeitedAt := Some(atMs))]))
  }

  /** `handleSeatExpired`; `alive` is the engine's count after the surrender. */
  ghost function ExpireSeat(s: State, id: JsString, token: JsString, atMs: int, alive: nat): Option<(State, ForfeitOutcome)> {
    if id !in s.matches then None else
    var m := s.matches[id];
    match SeatByToken(m.seats, token)
    case None => None
    case Some(i) =>
      if m.seats[i].forfeitedAt.Some? then None
      else if m.status.Filling? then Some((ReleaseSeat(s, id, i), SeatReleased))
      else if !m.status.Running? || !m.hasEngine then None
      else
        var s1 := Forfeit(s, id, i, atMs);
        if alive == 0 then Some((TearDown(s1, id, atMs, Some(CancelledAllForfeited)), TornDown))
        else Some((s1, Surrendered))
  }

  /** The `onSeatExpired` bridge handler. */
  ghost function OnSeatExpired(s: State, id: JsString, token: JsString, atMs: int, alive: nat): State {
    match ExpireSeat(s, id, token, atMs, alive)
    case None => s
    case Some((s1, SeatReleased)) => s1
    case Some((s1, Surrendered)) => s1.(totalForfeits := s1.totalForfeits + 1)
    case Some((s1, TornDown)) => CountCollected(s1.(totalForfeits := s1.totalForfeits + 1))
  }

  /** The filling branch of `leaveMatch`. */
  ghost function LeaveFilling(s: State, id: JsString, i: nat, token: JsString, atMs: int, alive: nat): State
    requires id in s.matches && i in s.matches[id].seats
  {
    var sid := s.matches[id].seats[i].session;
    match ExpireSeat(s, id, token, atMs, alive)
    case None => s.(crashed := true)
    case Some((s1, outcome)) =>
      if !outcome.SeatReleased? || id !in s1.matches then s1.(crashed := true)
      else if s1.matches[id].seats == map[] then Collect(s1.(sessions := s1.sessions - {sid}), id, atMs)
      else WithMatch(s1, id, s1.matches[id].(lastActivity := atMs))
  }

  /** The running branch: the forfeit policy, with no grace. */
  ghost function LeaveRunning(s: State, id: JsString, token: JsString, atMs: int, alive: nat): State {
    match ExpireSeat(s, id, token, atMs, alive)
    case None => s.(crashed := true)
    case Some((s1, TornDown)) => CountCollected(s1)
    case Some((s1, _)) => s1
  }

  ghost function LeaveMatch(s: State, id: JsString, token: JsString, atMs: int, alive: nat): (State, Reply) {
    if id !in s.matches then (s, Refused(MatchNotFound)) else
    var m := s.matches[id];
    match SeatByToken(m.seats, token)
    case None => (s, Refused(SessionInvalid))
    case Some(i) =>
      if m.seats[i].forfeitedAt.Some? then (s, Done)
      else if m.status.Filling? then (LeaveFilling(s, id, i, token, atMs, alive), Done)
      else if m.status.Running? then (LeaveRunning(s, id, token, atMs, alive), Done)
      else (s, Done)
  }

  /** `transitionRunningToFinished`. */
  function Finish(s: State, id: JsString, payload: int, atMs: int): State
    requires id in s.matches
  {
    var m := s.matches[id];
    if !m.status.Running? then s.(crashed := true) else
    var done := m.(status := Finished, results := Some(Outcome(payload)), finishedAt := Some(atMs), rematch := None,
                   lastActivity := atMs);
    Emit(WithMatch(s, id, done), id, Some(Running), Finished, atMs)
  }

  function CountFinished(s: State): State {
    s.(totalFinished := s.totalFinished + 1)
  }

  /** `handleMatchTerminal`. */
  function OnMatchTerminal(s: State, id: JsString, payload: int, atMs: int): State {
    if id !in s.matches || !s.matches[id].status.Running? || !s.matches[id].hasEngine then s
    else CountFinished(Finish(s, id, payload, atMs))
  }

  /** `openRematchWindow`. */
  function OpenWindow(m: Match, offerId: JsString, atMs: int, cfg: Config): Offer {
    var finishedAt := if m.finishedAt.Some? then m.finishedAt.value else atMs;
    Offer(offerId, finishedAt + cfg.rematchWindowMs, {}, {}, SeatIds(m.seats, m.playerCount), None)
  }

  ghost function RequestRematch(s: State, id: JsString, token: JsString, offerId: JsString, atMs: int, cfg: Config):
    (State, Reply)
  {
    if id !in s.matches then (s, Refused(MatchNotFound)) else
    var m := s.matches[id];
    if !m.status.Finished? then (s, Refused(RematchNotOffered)) else
    match SeatByToken(m.seats, token)
    case None => (s, Refused(SessionInvalid))
    case Some(i) =>
      if m.rematch.Some? then
        if ClassifyVoter(m.rematch.value, m.seats[i].session).AlreadyVoted? then (s, Refused(RematchAlreadyVoted))
        else if IsWindowClosed(m.rematch.value, atMs) then (s, Refused(RematchWindowClosed))
        else (s, Offered(m.rematch.value.offerId))
      else
        var offer := OpenWindow(m, offerId, atMs, cfg);
        if IsWindowClosed(offer, atMs) then (s, Refused(RematchWindowClosed))
        else (WithMatch(s, id, m.(rematch := Some(offer))), Offered(offerId))
  }

  /** The gates both votes pass, in order; `Some(i)` names the voter's seat. */
  ghost function VoteGate(s: State, id: JsString, token: JsString, offerId: JsString, atMs: int): (r: Result<nat, MatchError>)
    ensures r.Ok? ==> id in s.matches && s.matches[id].rematch.Some? && r.value in s.matches[id].seats
  {
    if id !in s.matches then Err(MatchNotFound) else
    var m := s.matches[id];
    if !m.status.Finished? then Err(RematchNotOffered)
    else if m.rematch.None? || m.rematch.value.offerId != offerId then Err(RematchNotOffered)
    else match SeatByToken(m.seats, token)
         case None => Err(SessionInvalid)
         case Some(i) =>
           if m.seats[i].forfeitedAt.Some? || m.seats[i].session !in s.sessions then Err(SessionInvalid) else
           match ClassifyVoter(m.rematch.value, m.seats[i].session)
           case NotInMatch => Err(PlayerNotInMatch)
           case AlreadyVoted => Err(RematchAlreadyVoted)
           case Eligible => if IsWindowClosed(m.rematch.value, atMs) then Err(RematchWindowClosed) else Ok(i)
  }

  function TokenAt(tokens: seq<JsString>, i: nat): JsString {
    if i < |tokens| then tokens[i] else []
  }

  /** The seats of a rematch: same index, session and player, a new token. */
  function RematchSeats(seats: map<nat, Seat>, tokens: seq<JsString>, atMs: int): map<nat, Seat> {
    map i | i in seats :: Seat(seats[i].session, TokenAt(tokens, i), seats[i].playerId, atMs, None)
  }

  ghost function Rebound(sessions: map<JsString, Session>, seats: map<nat, Seat>, id: JsString): map<JsString, Session> {
    map sid | sid in sessions ::
      if exists i :: i in seats && seats[i].session == sid then
        var i :| i in seats && seats[i].session == sid;
        Session(sessions[sid].playerId, Some(Binding(id, i, seats[i].token)))
      else sessions[sid]
  }

  /** Every original accepted: the successor match is created and the original collected. */
  ghost function Resolve(s: State, id: JsString, newId: JsString, seed: u32, tokens: seq<JsString>, atMs: int): State
    requires id in s.matches && s.matches[id].rematch.Some?
  {
    var m := s.matches[id];
    if exists i :: i in m.seats && m.seats[i].session !in s.sessions then s.(crashed := true) else
    var seats := RematchSeats(m.seats, tokens, atMs);
    var s1 := AddMatch(s, newId, NewMatch(m.isPublic, m.playerCount, atMs, Some(seed)).(seats := seats), atMs);
    var s2 := s1.(sessions := Rebound(s1.sessions, seats, newId));
    var s3 := WithMatch(s2, id, m.(rematch := Some(m.rematch.value.(successor := Some(newId)))));
    Collect(s3, id, atMs)
  }

  ghost function CastAccept(s: State, id: JsString, voter: JsString): State
    requires id in s.matches && s.matches[id].rematch.Some?
  {
    var m := s.matches[id];
    var o := m.rematch.value;
    WithMatch(s, id, m.(rematch := Some(o.(accepted := o.accepted + {voter}))))
      .(totalRematchAccepted := s.totalRematchAccepted + 1)
  }

  /** The resolution, and the caller's seat looked up in the successor. */
  ghost function Complete(s: State, id: JsString, i: nat, newId: JsString, seed: u32, tokens: seq<JsString>, atMs: int):
    (State, Reply)
    requires id in s.matches && s.matches[id].rematch.Some?
  {
    var s' := Resolve(s, id, newId, seed, tokens, atMs);
    if newId !in s'.matches || i !in s'.matches[newId].seats then (s'.(crashed := true), Done) else
    var seat := s'.matches[newId].seats[i];
    (s', Seated(newId, i, seat.playerId, seat.session, seat.token))
  }

  /** The vote of the holder of seat `i`, and the resolution when it is the last. */
  ghost function VoteOutcome(s: State, id: JsString, i: nat, seat: Seat, newId: JsString, seed: u32, tokens: seq<JsString>,
                             atMs: int): (State, Reply)
    requires id in s.matches && s.matches[id].rematch.Some?
  {
    var s2 := CastAccept(s, id, seat.session);
    var o := s2.matches[id].rematch.value;
    if |o.accepted| != |o.originals| then (s2, Voted)
    else Complete(s2, id, i, newId, seed, tokens, atMs)
  }

  ghost function AcceptRematch(s: State, id: JsString, token: JsString, offerId: JsString, newId: JsString, seed: u32,
                               tokens: seq<JsString>, atMs: int, cfg: Config): (State, Reply)
  {
    match VoteGate(s, id, token, offerId, atMs)
    case Err(e) => (s, Refused(e))
    case Ok(i) =>
      var s1 := RunSweeps(s, atMs, cfg);
      if AtCapacity(s1, cfg) then (s1, Refused(RateLimited)) else
      if s1.matches[id].rematch.None? then (s1.(crashed := true), Done) else
      VoteOutcome(s1, id, i, s.matches[id].seats[i], newId, seed, tokens, atMs)
  }

  ghost function DeclineRematch(s: State, id: JsString, token: JsString, offerId: JsString, checkAt: int, atMs: int):
    (State, Reply)
  {
    match VoteGate(s, id, token, offerId, checkAt)
    case Err(e) => (s, Refused(e))
    case Ok(i) =>
      var m := s.matches[id];
      var o := m.rematch.value;
      var s1 := WithMatch(s, id, m.(rematch := Some(o.(declined := o.declined + {m.seats[i].session}))))
                  .(totalRematchDeclined := s.totalRematchDeclined + 1);
      (Collect(s1, id, atMs), Done)
  }

  // Runs ---------------------------------------------------------------------

  datatype Op =
    | Create(isPublic: bool, playerCount: nat, id: JsString, session: JsString, playerId: JsString, token: JsString,
             sweepAt: int, atMs: int)
    | Join(id: JsString, session: JsString, playerId: JsString, token: JsString, atMs: int, boot: Boot)
    | Rejoin(id: JsString, token: JsString)
    | Leave(id: JsString, token: JsString, atMs: int, alive: nat)
    | SeatExpiry(id: JsString, token: JsString, atMs: int, alive: nat)
    | Terminal(id: JsString, payload: int, atMs: int)
    | Read(atMs: int)
    | Request(id: JsString, token: JsString, offerId: JsString, atMs: int)
    | Accept(id: JsString, token: JsString, offerId: JsString, newId: JsString, seed: u32, tokens: seq<JsString>, atMs: int)
    | Decline(id: JsString, token: JsString, offerId: JsString, sweepAt: int, atMs: int)

  /** What the id, token and settings sources promise: ids and tokens are new, a match seats 2 to 4. */
  ghost predicate Admissible(s: State, op: Op) {
    match op
    case Create(_, n, id, session, _, _, _, _) => 2 <= n <= MAX_SEATS && id !in s.matches && session !in s.sessions
    case Join(id, session, _, token, _, _) =>
      session !in s.sessions && (id in s.matches ==> !HasToken(s.matches[id].seats, token))
    case Accept(_, _, _, newId, _, tokens, _) => newId !in s.matches && |tokens| == MAX_SEATS && NoDuplicates(tokens)
    case _ => true
  }

  ghost function Step(s: State, op: Op, cfg: Config): (State, Reply) {
    match op
    case Create(isPublic, n, id, session, playerId, token, sweepAt, atMs) =>
      CreateMatch(s, isPublic, n, id, session, playerId, token, sweepAt, atMs, cfg)
    case Join(id, session, playerId, token, atMs, boot) => JoinMatch(s, id, session, playerId, token, atMs, boot)
    case Rejoin(id, token) => (s, Reconnect(s, id, token))
    case Leave(id, token, atMs, alive) => LeaveMatch(s, id, token, atMs, alive)
    case SeatExpiry(id, token, atMs, alive) => (OnSeatExpired(s, id, token, atMs, alive), Done)
    case Terminal(id, payload, atMs) => (OnMatchTerminal(s, id, payload, atMs), Done)
    case Read(atMs) => (RunSweeps(s, atMs, cfg), Done)
    case Request(id, token, offerId, atMs) => RequestRematch(s, id, token, offerId, atMs, cfg)
    case Accept(id, token, offerId, newId, seed, tokens, atMs) =>
      AcceptRematch(s, id, token, offerId, newId, seed, tokens, atMs, cfg)
    case Decline(id, token, offerId, sweepAt, atMs) => DeclineRematch(s, id, token, offerId, sweepAt, atMs)
  }

  /** Every operation of the run was admissible when it was made. */
  ghost predicate AdmissibleRun(s: State, ops: seq<Op>, cfg: Config)
    decreases |ops|
  {
    ops == [] || (Admissible(s, ops[0]) && AdmissibleRun(Step(s, ops[0], cfg).0, ops[1..], cfg))
  }

  ghost function Run(s: State, ops: seq<Op>, cfg: Config): State
    decreases |ops|
  {
    if ops == [] then s else Run(Step(s, ops[0], cfg).0, ops[1..], cfg)
  }
}
