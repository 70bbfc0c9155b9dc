/** Orders, their validation and staging, and the two sorts between the wire and the engine
    (packages/engine/src/validate.ts, applyCommand.ts, tick.ts; packages/networking/src/match-channel.ts,
    orders.ts). */
module Orders {
  import opened Js
  import opened EngineTypes
  import Utf16Order
  import StableSort

  datatype Order =
    | SetPipe(player: JsString, cell: Coord, direction: Direction)
    | ClearPipe(player: JsString, cell: Coord, direction: Direction)
    | SetPipesExclusive(player: JsString, cell: Coord, direction: Direction)
    | ClearAllPipes(player: JsString, cell: Coord)
    | SetReserves(player: JsString, cell: Coord, percent: int)
    | Paratroop(player: JsString, source: Coord, target: Coord)
    | Gun(player: JsString, source: Coord, target: Coord)
    | Surrender(player: JsString)

  // Kind names ---------------------------------------------------------------

  function Text(s: string): JsString
    requires forall i :: 0 <= i < |s| ==> s[i] <= '~'
  {
    seq(|s|, i requires 0 <= i < |s| => s[i] as int)
  }

  /** The discriminant string of an order. */
  function Kind(o: Order): JsString {
    match o
    case SetPipe(_, _, _) => Text("setPipe")
    case ClearPipe(_, _, _) => Text("clearPipe")
    case SetPipesExclusive(_, _, _) => Text("setPipesExclusive")
    case ClearAllPipes(_, _) => Text("clearAllPipes")
    case SetReserves(_, _, _) => Text("setReserves")
    case Paratroop(_, _, _) => Text("paratroop")
    case Gun(_, _, _) => Text("gun")
    case Surrender(_) => Text("surrender")
  }

  /** Alphabetical position of the kind. */
  function KindRank(o: Order): int {
    match o
    case ClearAllPipes(_, _) => 0
    case ClearPipe(_, _, _) => 1
    case Gun(_, _, _) => 2
    case Paratroop(_, _, _) => 3
    case SetPipe(_, _, _) => 4
    case SetPipesExclusive(_, _, _) => 5
    case SetReserves(_, _, _) => 6
    case Surrender(_) => 7
  }

  lemma {:induction false} SharedPrefix(p: JsString, a: JsString, b: JsString)
    ensures Utf16Order.Compare(p + a, p + b) == Utf16Order.Compare(a, b)
  {
    if p == [] {
      assert p + a == a && p + b == b;
    } else {
      assert (p + a)[1..] == p[1..] + a && (p + b)[1..] == p[1..] + b;
      SharedPrefix(p[1..], a, b);
    }
  }

  lemma DecidedAfter(p: string, a: string, b: string, pa: string, pb: string)
    requires pa == p + a && pb == p + b && b != [] && (a == [] || a[0] < b[0])
    requires forall i :: 0 <= i < |pa| ==> pa[i] <= '~'
    requires forall i :: 0 <= i < |pb| ==> pb[i] <= '~'
    ensures Utf16Order.Compare(Text(pa), Text(pb)) < 0
  {
    forall i | 0 <= i < |a| ensures a[i] <= '~' {
      assert pa[|p| + i] == a[i];
    }
    forall i | 0 <= i < |b| ensures b[i] <= '~' {
      assert pb[|p| + i] == b[i];
    }
    forall i | 0 <= i < |p| ensures p[i] <= '~' {
      assert pa[i] == p[i];
    }
    assert Text(pa) == Text(p) + Text(a) && Text(pb) == Text(p) + Text(b);
    SharedPrefix(Text(p), Text(a), Text(b));
  }

  /** The eight kind names in alphabetical order. */
  function KindNames(): (names: seq<JsString>)
    ensures |names| == 8
  {
    [Text("clearAllPipes"), Text("clearPipe"), Text("gun"), Text("paratroop"), Text("setPipe"),
     Text("setPipesExclusive"), Text("setReserves"), Text("surrender")]
  }

  lemma ClearNames()
    ensures Utf16Order.Compare(Text("clearAllPipes"), Text("clearPipe")) < 0
    ensures Utf16Order.Compare(Text("clearPipe"), Text("gun")) < 0
  {
    DecidedAfter("clear", "AllPipes", "Pipe", "clearAllPipes", "clearPipe");
    DecidedAfter("", "clearPipe", "gun", "clearPipe", "gun");
  }

  lemma ShotNames()
    ensures Utf16Order.Compare(Text("gun"), Text("paratroop")) < 0
    ensures Utf16Order.Compare(Text("paratroop"), Text("setPipe")) < 0
  {
    DecidedAfter("", "gun", "paratroop", "gun", "paratroop");
    DecidedAfter("", "paratroop", "setPipe", "paratroop", "setPipe");
  }

  lemma PipeNames()
    ensures Utf16Order.Compare(Text("setPipe"), Text("setPipesExclusive")) < 0
  {
    DecidedAfter("setPipe", "", "sExclusive", "setPipe", "setPipesExclusive");
  }

  lemma ReserveNames()
    ensures Utf16Order.Compare(Text("setPipesExclusive"), Text("setReserves")) < 0
  {
    DecidedAfter("set", "PipesExclusive", "Reserves", "setPipesExclusive", "setReserves");
  }

  lemma LastNames()
    ensures Utf16Order.Compare(Text("setReserves"), Text("surrender")) < 0
  {
    DecidedAfter("s", "etReserves", "urrender", "setReserves", "surrender");
  }

  lemma NextKindName(i: nat)
    requires 0 < i < 8
    ensures Utf16Order.Compare(KindNames()[i - 1], KindNames()[i]) < 0
  {
    if i <= 2 {
      ClearNames();
    } else if i <= 4 {
      ShotNames();
    } else if i == 5 {
      PipeNames();
    } else if i == 6 {
      ReserveNames();
    } else {
      LastNames();
    }
  }

  lemma KindNamesAscend()
    ensures Utf16Order.StrictlyAscending(KindNames())
  {
    forall i | 0 < i < 8 ensures Utf16Order.Compare(KindNames()[i - 1], KindNames()[i]) < 0 {
      NextKindName(i);
    }
  }

  /** Comparing kinds by code units is comparing their alphabetical positions. */
  lemma KindOrder(a: Order, b: Order)
    ensures Utf16Order.Compare(Kind(a), Kind(b)) < 0 <==> KindRank(a) < KindRank(b)
    ensures Utf16Order.Compare(Kind(a), Kind(b)) == 0 <==> KindRank(a) == KindRank(b)
    ensures Kind(a) == Kind(b) <==> KindRank(a) == KindRank(b)
  {
    var i, j := KindRank(a), KindRank(b);
    KindNamesAscend();
    assert KindNames()[i] == Kind(a) && KindNames()[j] == Kind(b);
    Utf16Order.Antisymmetric(Kind(a), Kind(b));
    Utf16Order.ZeroOnlyOnEqual(Kind(a), Kind(b));
    if i < j {
      Utf16Order.AscendingFar(KindNames(), i, j);
    } else if j < i {
      Utf16Order.AscendingFar(KindNames(), j, i);
    }
  }

  // The engine's comparator --------------------------------------------------

  function PickCoord(o: Order): Option<Coord> {
    match o
    case SetPipe(_, c, _) => Some(c)
    case ClearPipe(_, c, _) => Some(c)
    case SetPipesExclusive(_, c, _) => Some(c)
    case ClearAllPipes(_, c) => Some(c)
    case SetReserves(_, c, _) => Some(c)
    case Paratroop(_, s, _) => Some(s)
    case Gun(_, s, _) => Some(s)
    case Surrender(_) => None
  }

  function PickDirection(o: Order): Option<Direction> {
    match o
    case SetPipe(_, _, d) => Some(d)
    case ClearPipe(_, _, d) => Some(d)
    case SetPipesExclusive(_, _, d) => Some(d)
    case _ => None
  }

  /** Alphabetical position of the one-letter direction name. */
  function DirectionRank(d: Direction): int {
    match d
    case E => 0
    case N => 1
    case S => 2
    case W => 3
  }

  function TieBreak(a: Order, b: Order): int {
    var ac, bc := PickCoord(a), PickCoord(b);
    if ac.Some? && bc.Some? && ac.value.x != bc.value.x then ac.value.x - bc.value.x
    else if ac.Some? && bc.Some? && ac.value.y != bc.value.y then ac.value.y - bc.value.y
    else
      var ad, bd := PickDirection(a), PickDirection(b);
      if ad.Some? && bd.Some? && DirectionRank(ad.value) < DirectionRank(bd.value) then -1
      else if ad.Some? && bd.Some? && DirectionRank(ad.value) > DirectionRank(bd.value) then 1
      else 0
  }

  /** The comparator of `sortOrdersDeterministic`. */
  function EngineCompare(a: Order, b: Order): int {
    if a.player != b.player then Utf16Order.Compare(a.player, b.player)
    else if Kind(a) != Kind(b) then (if Utf16Order.Compare(Kind(a), Kind(b)) < 0 then -1 else 1)
    else TieBreak(a, b)
  }

  /** The comparator of `drainOrdersForTick`, on the queued orders. */
  function DrainCompare(a: Order, b: Order): int {
    var byPlayer := Utf16Order.Compare(a.player, b.player);
    if byPlayer != 0 then byPlayer else Utf16Order.Compare(Kind(a), Kind(b))
  }

  function CoordX(o: Order): int {
    if PickCoord(o).Some? then PickCoord(o).value.x else 0
  }

  function CoordY(o: Order): int {
    if PickCoord(o).Some? then PickCoord(o).value.y else 0
  }

  function DirectionKey(o: Order): int {
    if PickDirection(o).Some? then DirectionRank(PickDirection(o).value) else 0
  }

  /** Position of `a` before or level with `b` in the order of kind, column, row, direction. */
  predicate KeyLeq(a: Order, b: Order) {
    if KindRank(a) != KindRank(b) then KindRank(a) < KindRank(b)
    else if CoordX(a) != CoordX(b) then CoordX(a) < CoordX(b)
    else if CoordY(a) != CoordY(b) then CoordY(a) < CoordY(b)
    else DirectionKey(a) <= DirectionKey(b)
  }

  predicate SameKey(a: Order, b: Order) {
    KindRank(a) == KindRank(b) && CoordX(a) == CoordX(b) && CoordY(a) == CoordY(b) && DirectionKey(a) == DirectionKey(b)
  }

  /** The engine comparator is the lexicographic order of player, kind, column, row, direction. */
  lemma EngineOrder(a: Order, b: Order)
    ensures EngineCompare(a, b) <= 0 <==>
              Utf16Order.Compare(a.player, b.player) < 0 || (a.player == b.player && KeyLeq(a, b))
    ensures EngineCompare(a, b) == 0 <==> a.player == b.player && SameKey(a, b)
  {
    KindOrder(a, b);
    Utf16Order.ZeroOnlyOnEqual(a.player, b.player);
  }

  lemma EngineIsConsistent()
    ensures StableSort.Consistent(EngineCompare)
  {
    var cmp := EngineCompare;
    forall a: Order, b: Order
      ensures (cmp(a, b) <= 0 || cmp(b, a) <= 0) && (cmp(a, b) == 0 <==> cmp(a, b) <= 0 && cmp(b, a) <= 0)
    {
      EngineOrder(a, b);
      EngineOrder(b, a);
      Utf16Order.Antisymmetric(a.player, b.player);
      Utf16Order.ZeroOnlyOnEqual(a.player, b.player);
    }
    forall a: Order, b: Order, c: Order | cmp(a, b) <= 0 && cmp(b, c) <= 0
      ensures cmp(a, c) <= 0
    {
      EngineTransitive(a, b, c);
    }
  }

  lemma EngineTransitive(a: Order, b: Order, c: Order)
    requires EngineCompare(a, b) <= 0 && EngineCompare(b, c) <= 0
    ensures EngineCompare(a, c) <= 0
  {
    EngineOrder(a, b);
    EngineOrder(b, c);
    EngineOrder(a, c);
    Utf16Order.ZeroOnlyOnEqual(a.player, b.player);
    Utf16Order.ZeroOnlyOnEqual(b.player, c.player);
    Utf16Order.ZeroOnlyOnEqual(a.player, c.player);
    Utf16Order.Transitive(a.player, b.player, c.player);
  }

  lemma DrainIsConsistent()
    ensures StableSort.Consistent(DrainCompare)
  {
    var cmp := DrainCompare;
    forall a: Order, b: Order
      ensures (cmp(a, b) <= 0 || cmp(b, a) <= 0) && (cmp(a, b) == 0 <==> cmp(a, b) <= 0 && cmp(b, a) <= 0)
    {
      Utf16Order.Antisymmetric(a.player, b.player);
      Utf16Order.Antisymmetric(Kind(a), Kind(b));
    }
    forall a: Order, b: Order, c: Order | cmp(a, b) <= 0 && cmp(b, c) <= 0
      ensures cmp(a, c) <= 0
    {
      Utf16Order.Transitive(a.player, b.player, c.player);
      if Utf16Order.Compare(a.player, c.player) == 0 {
        Utf16Order.Transitive(Kind(a), Kind(b), Kind(c));
      }
    }
  }

  /** Whatever the engine treats as tied, the drain treated as tied. */
  lemma EngineRefinesDrain(a: Order, b: Order)
    requires EngineCompare(a, b) == 0
    ensures DrainCompare(a, b) == 0
  {
    EngineOrder(a, b);
    Utf16Order.ZeroOnlyOnEqual(a.player, b.player);
    KindOrder(a, b);
  }

  // Validation ---------------------------------------------------------------

  const PARATROOP_MAX_RANGE := 2
  const PARATROOP_COST := 10
  const GUN_COST := 5

  datatype ValidationError =
    | OutOfBounds(coord: Coord)
    | WaterTarget(coord: Coord)
    | NotOwner(coord: Coord)
    | ParatroopRange(source: Coord, target: Coord, distance: int)
    | NoSourceTroops(coord: Coord)
    | AlreadySurrendered(player: JsString)
    | InvalidPercent(percent: int)
    | UnknownPlayer(player: JsString)
    | UnknownOrder
    | InvalidDirection(direction: JsString)
    | MatchTerminal

  /** `{ ok: true }`, or the reason of a rejection. */
  datatype CommandResult = Accepted | Rejected(reason: ValidationError)

  function At<T>(s: seq<T>, i: int, default: T): T {
    if 0 <= i < |s| then s[i] else default
  }

  predicate InBounds(b: Board, c: Coord) {
    0 <= c.x < b.width && 0 <= c.y < b.height
  }

  function FlatIndex(b: Board, c: Coord): int {
    CellIndex(c, b.width)
  }

  function TerrainAt(b: Board, c: Coord): Option<Terrain> {
    var i := FlatIndex(b, c);
    if 0 <= i < |b.cells| then Some(b.cells[i].terrain) else None
  }

  function ValidateSourceOwnership(w: World, cell: Coord, player: JsString): CommandResult {
    if !InBounds(w.board, cell) then Rejected(OutOfBounds(cell)) else
    var i := FlatIndex(w.board, cell);
    match w.registry.IndexOfId(player)
    case None => Rejected(UnknownPlayer(player))
    case Some(index) =>
      if (At(w.state.troopOwners, i, 0) as int) != index + 1 && (At(w.state.cityOwners, i, 0) as int) != index + 1
      then Rejected(NotOwner(cell)) else Accepted
  }

  function Neighbour(c: Coord, d: Direction): Coord {
    match d
    case N => Coord(c.x, c.y - 1)
    case E => Coord(c.x + 1, c.y)
    case S => Coord(c.x, c.y + 1)
    case W => Coord(c.x - 1, c.y)
  }

  function ComputeReservesFloor(count: int, reserves: int): int {
    if count <= 0 || reserves <= 0 then 0
    else if reserves >= 10 then count
    else count - count * (10 - reserves) / 10
  }

  /** Troops of a cell that an attack may spend. */
  function UsableAboveFloor(w: World, cell: Coord): int {
    var i := FlatIndex(w.board, cell);
    var count := At(w.state.troopCounts, i, 0);
    ToUint32(count - ComputeReservesFloor(count, At(w.state.reservesPct, i, 0)))
  }

  function Abs(x: int): int {
    if x < 0 then -x else x
  }

  function Distance(a: Coord, b: Coord): int {
    var dx, dy := Abs(b.x - a.x), Abs(b.y - a.y);
    if dx > dy then dx else dy
  }

  function ValidateCommand(w: World, cmd: Order): CommandResult {
    match cmd
    case SetPipe(player, cell, direction) =>
      var source := ValidateSourceOwnership(w, cell, player);
      if source.Rejected? then source else
      var dst := Neighbour(cell, direction);
      if !InBounds(w.board, dst) || TerrainAt(w.board, dst).None? then Rejected(OutOfBounds(dst))
      else if TerrainAt(w.board, dst).value != Land then Rejected(WaterTarget(dst))
      else Accepted
    case ClearPipe(player, cell, _) => ValidateSourceOwnership(w, cell, player)
    case SetPipesExclusive(player, cell, _) => ValidateSourceOwnership(w, cell, player)
    case ClearAllPipes(player, cell) => ValidateSourceOwnership(w, cell, player)
    case SetReserves(player, cell, percent) =>
      if percent < 0 || percent > 9 then Rejected(InvalidPercent(percent)) else ValidateSourceOwnership(w, cell, player)
    case Paratroop(player, source, target) =>
      var owned := ValidateSourceOwnership(w, source, player);
      if owned.Rejected? then owned
      else if !InBounds(w.board, target) then Rejected(OutOfBounds(target))
      else if TerrainAt(w.board, target) != Some(Land) then Rejected(WaterTarget(target))
      else if Distance(source, target) > PARATROOP_MAX_RANGE
      then Rejected(ParatroopRange(source, target, Distance(source, target)))
      else if UsableAboveFloor(w, source) < 2 * PARATROOP_COST then Rejected(NoSourceTroops(source))
      else Accepted
    case Gun(player, source, target) =>
      var owned := ValidateSourceOwnership(w, source, player);
      if owned.Rejected? then owned
      else if !InBounds(w.board, target) then Rejected(OutOfBounds(target))
      else if UsableAboveFloor(w, source) < GUN_COST then Rejected(NoSourceTroops(source))
      else Accepted
    case Surrender(player) =>
      match FindPlayer(w.players, player)
      case None => Rejected(UnknownPlayer(player))
      case Some(p) => if p.status != Alive then Rejected(AlreadySurrendered(player)) else Accepted
  }

  function FindPlayer(players: seq<Player>, id: JsString): Option<Player> {
    if players == [] then None
    else if players[0].id == id then Some(players[0])
    else FindPlayer(players[1..], id)
  }

  // Staging ------------------------------------------------------------------

  function MarkSurrendered(w: World, player: JsString): World {
    w.(players := seq(|w.players|, i requires 0 <= i < |w.players| =>
         if w.players[i].id == player then w.players[i].(status := Eliminated) else w.players[i]))
  }

  /** The effect of `applyCommand` on a world and its staging queue. */
  function StageCommand(w: World, pending: seq<Order>, cmd: Order): (World, seq<Order>, CommandResult) {
    var result := ValidateCommand(w, cmd);
    if result.Rejected? then (w, pending, result)
    else if cmd.Surrender? then (MarkSurrendered(w, cmd.player), pending, Accepted)
    else (w, pending + [cmd], Accepted)
  }

  /** The effect of submitting a batch one order at a time. */
  function StageAll(w: World, pending: seq<Order>, batch: seq<Order>): (World, seq<Order>)
    decreases |batch|
  {
    if batch == [] then (w, pending)
    else
      var (next, queue, _) := StageCommand(w, pending, batch[0]);
      StageAll(next, queue, batch[1..])
  }

  /** A world whose rules for non-surrender orders are those of `w`: only player statuses moved. */
  predicate SameRules(v: World, w: World) {
    v == w.(players := v.players)
  }

  predicate Stageable(w: World, o: Order) {
    !o.Surrender? && ValidateCommand(w, o).Accepted?
  }

  lemma StageableIsStatic(v: World, w: World, o: Order)
    requires SameRules(v, w) && !o.Surrender?
    ensures ValidateCommand(v, o) == ValidateCommand(w, o)
  {
  }

  /** Staging a batch appends exactly its valid non-surrender orders, each judged by the initial world. */
  lemma {:induction false} StagingFilters(w: World, v: World, pending: seq<Order>, batch: seq<Order>)
    requires SameRules(v, w)
    ensures SameRules(StageAll(v, pending, batch).0, w)
    ensures StageAll(v, pending, batch).1 == pending + StableSort.Filter(o => Stageable(w, o), batch)
    decreases |batch|
  {
    if batch == [] {
      assert pending + [] == pending;
    } else {
      var (next, queue, _) := StageCommand(v, pending, batch[0]);
      OneStaged(w, v, pending, batch[0]);
      StagingFilters(w, next, queue, batch[1..]);
      StableSort.FilterFirst(o => Stageable(w, o), pending, batch);
    }
  }

  lemma OneStaged(w: World, v: World, pending: seq<Order>, o: Order)
    requires SameRules(v, w)
    ensures SameRules(StageCommand(v, pending, o).0, w)
    ensures StageCommand(v, pending, o).1 == pending + (if Stageable(w, o) then [o] else [])
  {
    if !o.Surrender? {
      StageableIsStatic(v, w, o);
    }
  }

  /** Every staged order targets a cell of the board and belongs to a registered player. */
  lemma StageableIsInBounds(w: World, o: Order)
    requires Stageable(w, o)
    ensures PickCoord(o).Some? && InBounds(w.board, PickCoord(o).value) && w.registry.IndexOfId(o.player).Some?
  {
  }

  /** The queue the engine sorts at the next tick does not depend on whether the network drained
      the batch in its own sorted order or submitted it as it arrived. */
  lemma DrainOrderIsInvisible(w: World, pending: seq<Order>, arrived: seq<Order>)
    ensures StableSort.Sort(EngineCompare, StageAll(w, pending, StableSort.Sort(DrainCompare, arrived)).1)
            == StableSort.Sort(EngineCompare, StageAll(w, pending, arrived).1)
  {
    var keep := o => Stageable(w, o);
    StagingFilters(w, w, pending, StableSort.Sort(DrainCompare, arrived));
    StagingFilters(w, w, pending, arrived);
    DrainIsConsistent();
    EngineIsConsistent();
    StableSort.SortFilterCommute(DrainCompare, keep, arrived);
    forall a, b | EngineCompare(a, b) == 0 ensures DrainCompare(a, b) == 0 {
      EngineRefinesDrain(a, b);
    }
    StableSort.FinerSortAbsorbs(DrainCompare, EngineCompare, pending, StableSort.Filter(keep, arrived));
  }

  /** The reserves floor of the order checks is the rounded-up share the tick keeps back before decay. */
  lemma FloorIsRoundedUpShare(count: nat, reserves: int)
    requires 0 < reserves <= 9 && count > 0
    ensures var floor := ComputeReservesFloor(count, reserves);
            0 < floor <= count && 10 * floor >= count * reserves && 10 * (floor - 1) < count * reserves
  {
    var flowable := count * (10 - reserves) / 10;
    assert count * (10 - reserves) == 10 * count - count * reserves;
    assert 10 * flowable <= count * (10 - reserves) < 10 * flowable + 10;
    assert count * reserves > 0;
  }
}
