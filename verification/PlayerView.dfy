/** The fog-filtered view of one player and its redaction guarantees
    (packages/fog/src/playerView.ts, eventsFilter.ts; packages/engine/src/read.ts). */
module PlayerView {
  import opened Js
  import opened EngineTypes
  import opened Orders
  import opened Horizon
  import StableSort
  import WorldFormat

  // Events -------------------------------------------------------------------

  datatype CombatEvent = CombatEvent(
    tick: int,
    cell: Coord,
    attacker: JsString,
    defender: JsString,
    attackerLoss: int,
    defenderLoss: int,
    winner: Option<JsString>,
    attackerTotal: int,
    defenderTotal: int)

  datatype CaptureEvent = CaptureEvent(tick: int, cell: Coord, fromOwner: Option<JsString>, toOwner: JsString, isCity: bool)

  datatype EliminationReason = NoTroopsNoCities | SurrenderedOut | Forfeit

  datatype EliminationEvent = EliminationEvent(tick: int, player: JsString, reason: EliminationReason)

  datatype AppliedOrderRecord = AppliedOrderRecord(tick: int, order: Order)

  datatype OrderError = OrderError(order: Order, reason: ValidationError)

  datatype TickEvents = TickEvents(
    combat: seq<CombatEvent>,
    captures: seq<CaptureEvent>,
    eliminations: seq<EliminationEvent>,
    appliedOrders: seq<AppliedOrderRecord>,
    errors: seq<OrderError>)

  const NO_EVENTS := TickEvents([], [], [], [], [])

  function OrderCoords(o: Order): seq<Coord> {
    match o
    case SetPipe(_, c, _) => [c]
    case ClearPipe(_, c, _) => [c]
    case SetPipesExclusive(_, c, _) => [c]
    case ClearAllPipes(_, c) => [c]
    case SetReserves(_, c, _) => [c]
    case Paratroop(_, s, t) => [s, t]
    case Gun(_, s, t) => [s, t]
    case Surrender(_) => []
  }

  function ValidationErrorCoords(e: ValidationError): seq<Coord> {
    match e
    case OutOfBounds(c) => [c]
    case WaterTarget(c) => [c]
    case NotOwner(c) => [c]
    case NoSourceTroops(c) => [c]
    case ParatroopRange(s, t, _) => [s, t]
    case _ => []
  }

  /** `visible.has(...)` on the flat keys of the visible cells. */
  predicate KeyVisible(keys: set<int>, width: int, c: Coord) {
    CellIndex(c, width) in keys
  }

  predicate AllVisible(keys: set<int>, width: int, coords: seq<Coord>) {
    forall i :: 0 <= i < |coords| ==> KeyVisible(keys, width, coords[i])
  }

  predicate KeepsCombat(keys: set<int>, width: int, e: CombatEvent) {
    KeyVisible(keys, width, e.cell)
  }

  predicate KeepsCapture(keys: set<int>, width: int, e: CaptureEvent) {
    KeyVisible(keys, width, e.cell)
  }

  predicate KeepsApplied(keys: set<int>, width: int, player: Option<JsString>, r: AppliedOrderRecord) {
    Some(r.order.player) == player && AllVisible(keys, width, OrderCoords(r.order))
  }

  predicate KeepsError(keys: set<int>, width: int, e: OrderError) {
    AllVisible(keys, width, OrderCoords(e.order) + ValidationErrorCoords(e.reason))
  }

  function KeysOf(cells: seq<Coord>, width: int): set<int> {
    set c | c in cells :: CellIndex(c, width)
  }

  /** The events a player is shown. */
  function Filtered(width: int, cells: seq<Coord>, events: TickEvents, player: Option<JsString>): TickEvents {
    var keys := KeysOf(cells, width);
    TickEvents(
      StableSort.Filter(e => KeepsCombat(keys, width, e), events.combat),
      StableSort.Filter(e => KeepsCapture(keys, width, e), events.captures),
      events.eliminations,
      StableSort.Filter(r => KeepsApplied(keys, width, player, r), events.appliedOrders),
      StableSort.Filter(e => KeepsError(keys, width, e), events.errors))
  }

  lemma {:induction false} NothingDropped<T>(keep: T -> bool, s: seq<T>)
    ensures |StableSort.Filter(keep, s)| <= |s|
    ensures |StableSort.Filter(keep, s)| == |s| ==> StableSort.Filter(keep, s) == s
  {
    if s != [] {
      NothingDropped(keep, s[1..]);
    }
  }

  method BuildVisibleIndex(cells: seq<Coord>, width: int) returns (keys: set<int>)
    ensures keys == KeysOf(cells, width)
  {
    keys := {};
    for i := 0 to |cells|
      invariant keys == KeysOf(cells[..i], width)
    {
      keys := keys + {CellIndex(cells[i], width)};
      assert cells[..i + 1] == cells[..i] + [cells[i]];
    }
    assert cells[..|cells|] == cells;
  }

  /** `filterTickEvents`; both shortcuts that hand the input back agree with the filter. */
  method FilterTickEvents(width: int, cells: seq<Coord>, events: TickEvents, spectator: bool, player: Option<JsString>)
    returns (r: TickEvents)
    ensures r == if spectator then events else Filtered(width, cells, events, player)
  {
    if spectator {
      return events;
    }
    if |events.combat| == 0 && |events.captures| == 0 && |events.appliedOrders| == 0 && |events.errors| == 0 {
      return events;
    }
    var keys := BuildVisibleIndex(cells, width);
    var combat := StableSort.Filter(e => KeepsCombat(keys, width, e), events.combat);
    var captures := StableSort.Filter(e => KeepsCapture(keys, width, e), events.captures);
    var appliedOrders := StableSort.Filter(r => KeepsApplied(keys, width, player, r), events.appliedOrders);
    var errors := StableSort.Filter(e => KeepsError(keys, width, e), events.errors);
    if |combat| == |events.combat| && |captures| == |events.captures|
       && |appliedOrders| == |events.appliedOrders| && |errors| == |events.errors| {
      NothingDropped(e => KeepsCombat(keys, width, e), events.combat);
      NothingDropped(e => KeepsCapture(keys, width, e), events.captures);
      NothingDropped(r => KeepsApplied(keys, width, player, r), events.appliedOrders);
      NothingDropped(e => KeepsError(keys, width, e), events.errors);
      return events;
    }
    return TickEvents(combat, captures, events.eliminations, appliedOrders, errors);
  }

  // Cells --------------------------------------------------------------------

  datatype CellView = CellView(
    coord: Coord,
    cell: Cell,
    troopCount: u32,
    troopOwner: Option<JsString>,
    pipes: set<Direction>,
    reservesPercent: u8,
    cityOwner: Option<JsString>)

  datatype ViewError = CellNotFound | OwnerOutOfRange | MaskFailed

  function PipesOf(mask: u8): set<Direction> {
    (if HasPipe(mask, N) then {N} else {}) + (if HasPipe(mask, E) then {E} else {})
    + (if HasPipe(mask, S) then {S} else {}) + (if HasPipe(mask, W) then {W} else {})
  }

  /** An owner byte as an identity; a byte beyond the table is the `RangeError` of `requireIdAt`. */
  function OwnerOf(w: World, byte: u8): Result<Option<JsString>, ViewError> {
    if byte == 0 then Ok(None)
    else match w.registry.IdAt(byte - 1)
         case None => Err(OwnerOutOfRange)
         case Some(id) => Ok(Some(id))
  }

  function GetCell(w: World, c: Coord): Result<CellView, ViewError> {
    var i := FlatIndex(w.board, c);
    if i < 0 || i >= |w.board.cells| then Err(CellNotFound) else
    var owner :- OwnerOf(w, Orders.At(w.state.troopOwners, i, 0));
    var city :- OwnerOf(w, Orders.At(w.state.cityOwners, i, 0));
    Ok(CellView(c, w.board.cells[i], Orders.At(w.state.troopCounts, i, 0), owner,
                PipesOf(Orders.At(w.state.pipeMasks, i, 0)), Orders.At(w.state.reservesPct, i, 0), city))
  }

  function GetCells(w: World, cells: seq<Coord>): Result<seq<CellView>, ViewError> {
    if cells == [] then Ok([]) else
    var first :- GetCell(w, cells[0]);
    var rest :- GetCells(w, cells[1..]);
    Ok([first] + rest)
  }

  function Prepend(views: seq<CellView>, rest: Result<seq<CellView>, ViewError>): Result<seq<CellView>, ViewError> {
    match rest
    case Ok(more) => Ok(views + more)
    case Err(e) => Err(e)
  }

  lemma PrependMore(views: seq<CellView>, view: CellView, rest: Result<seq<CellView>, ViewError>)
    ensures Prepend(views, Prepend([view], rest)) == Prepend(views + [view], rest)
  {
    if rest.Ok? {
      assert views + ([view] + rest.value) == (views + [view]) + rest.value;
    }
  }

  method DecodeCells(w: World, cells: seq<Coord>) returns (r: Result<seq<CellView>, ViewError>)
    ensures r == GetCells(w, cells)
  {
    var views: seq<CellView> := [];
    assert cells[0..] == cells;
    assert Prepend([], GetCells(w, cells)) == GetCells(w, cells) by {
      if GetCells(w, cells).Ok? {
        assert [] + GetCells(w, cells).value == GetCells(w, cells).value;
      }
    }
    for i := 0 to |cells|
      invariant GetCells(w, cells) == Prepend(views, GetCells(w, cells[i..]))
    {
      var view := GetCell(w, cells[i]);
      assert cells[i..][1..] == cells[i + 1..];
      if view.Err? {
        return Err(view.error);
      }
      PrependMore(views, view.value, GetCells(w, cells[i + 1..]));
      views := views + [view.value];
    }
    assert cells[|cells|..] == [] && views + [] == views;
    return Ok(views);
  }

  // Views --------------------------------------------------------------------

  datatype View = View(player: JsString, tick: int, visibleCells: seq<CellView>, events: TickEvents, config: MatchConfig)

  function ViewOf(w: World, player: JsString, visible: seq<Coord>, events: TickEvents): Result<View, ViewError> {
    var cells :- GetCells(w, visible);
    Ok(View(player, w.tick, cells, events, w.config))
  }

  /** `computePlayerView`. */
  ghost function PlayerViewOf(w: World, player: JsString, spectator: bool, events: TickEvents): Result<View, ViewError> {
    if spectator then ViewOf(w, player, BoardCells(w), events)
    else if ResolvePlayerOwnerByte(w, player).None? then ViewOf(w, player, [], NO_EVENTS)
    else match VisibleSet(w, player, None)
         case Err(_) => Err(MaskFailed)
         case Ok(visible) => ViewOf(w, player, visible, Filtered(w.board.width, visible, events, Some(player)))
  }

  method ComputePlayerView(w: World, player: JsString, spectator: bool, events: TickEvents)
    returns (r: Result<View, ViewError>)
    ensures r == PlayerViewOf(w, player, spectator, events)
  {
    if spectator {
      var board := CollectRect(0, w.board.width - 1, 0, w.board.height - 1);
      var all := DecodeCells(w, board);
      if all.Err? {
        return Err(all.error);
      }
      var unfiltered := FilterTickEvents(w.board.width, [], events, true, None);
      return Ok(View(player, w.tick, all.value, unfiltered, w.config));
    }
    var owner := ResolvePlayerOwnerByte(w, player);
    if owner.None? {
      return Ok(View(player, w.tick, [], NO_EVENTS, w.config));
    }
    var visible := ComputeVisibleSet(w, player, None);
    if visible.Err? {
      return Err(MaskFailed);
    }
    var cells := DecodeCells(w, visible.value);
    if cells.Err? {
      return Err(cells.error);
    }
    var shown := FilterTickEvents(w.board.width, visible.value, events, false, Some(player));
    return Ok(View(player, w.tick, cells.value, shown, w.config));
  }

  // Noninterference ----------------------------------------------------------

  /** The horizon radius a view is computed with. */
  function ViewRadius(w: World): nat {
    ResolveRadius(None, w.config.visibilityRadius)
  }

  /** Everything the two worlds share outside their boards. */
  predicate SameFrame(v: World, w: World) {
    && v.board.width == w.board.width && v.board.height == w.board.height
    && v.config == w.config && v.tick == w.tick && v.registry == w.registry
  }

  predicate SameCell(v: World, w: World, c: Coord) {
    var i, j := FlatIndex(v.board, c), FlatIndex(w.board, c);
    && (0 <= i < |v.board.cells| <==> 0 <= j < |w.board.cells|)
    && (0 <= i < |v.board.cells| && 0 <= j < |w.board.cells| ==> v.board.cells[i] == w.board.cells[j])
    && Orders.At(v.state.troopCounts, i, 0) == Orders.At(w.state.troopCounts, j, 0)
    && Orders.At(v.state.troopOwners, i, 0) == Orders.At(w.state.troopOwners, j, 0)
    && Orders.At(v.state.pipeMasks, i, 0) == Orders.At(w.state.pipeMasks, j, 0)
    && Orders.At(v.state.reservesPct, i, 0) == Orders.At(w.state.reservesPct, j, 0)
    && Orders.At(v.state.cityOwners, i, 0) == Orders.At(w.state.cityOwners, j, 0)
  }

  /** A cell of the board beyond the sensors of the player with owner byte `b`. */
  ghost predicate Hidden(w: World, b: int, c: Coord) {
    InBounds(w.board, c) && !Sees(w, b, ViewRadius(w), c)
  }

  ghost function OpenCombat(w: World, b: int, events: TickEvents): seq<CombatEvent> {
    StableSort.Filter((e: CombatEvent) => !Hidden(w, b, e.cell), events.combat)
  }

  ghost function OpenCaptures(w: World, b: int, events: TickEvents): seq<CaptureEvent> {
    StableSort.Filter((e: CaptureEvent) => !Hidden(w, b, e.cell), events.captures)
  }

  /** No coordinate of the list is hidden. */
  ghost predicate Open(w: World, b: int, coords: seq<Coord>) {
    forall i :: 0 <= i < |coords| ==> !Hidden(w, b, coords[i])
  }

  /** The player's own applied orders that name no hidden cell. */
  ghost function OpenApplied(w: World, b: int, player: JsString, events: TickEvents): seq<AppliedOrderRecord> {
    StableSort.Filter((r: AppliedOrderRecord) => r.order.player == player && Open(w, b, OrderCoords(r.order)),
                      events.appliedOrders)
  }

  /** The errors that name no hidden cell, in the order or in its rejection. */
  ghost function OpenErrors(w: World, b: int, events: TickEvents): seq<OrderError> {
    StableSort.Filter((e: OrderError) => Open(w, b, OrderCoords(e.order) + ValidationErrorCoords(e.reason)), events.errors)
  }

  /** The worlds and their events differ for the player with owner byte `b` only beyond the horizon. */
  ghost predicate DifferOnlyOutside(v: World, ve: TickEvents, w: World, we: TickEvents, player: JsString, b: int) {
    && SameFrame(v, w)
    && (forall c :: OwnStack(v, b, c) <==> OwnStack(w, b, c))
    && (forall c :: Sees(w, b, ViewRadius(w), c) ==> SameCell(v, w, c))
    && OpenCombat(v, b, ve) == OpenCombat(w, b, we)
    && OpenCaptures(v, b, ve) == OpenCaptures(w, b, we)
    && OpenApplied(v, b, player, ve) == OpenApplied(w, b, player, we)
    && OpenErrors(v, b, ve) == OpenErrors(w, b, we)
    && ve.eliminations == we.eliminations
  }

  lemma SameHorizon(v: World, w: World, b: int, r: int)
    requires SameFrame(v, w) && forall c :: OwnStack(v, b, c) <==> OwnStack(w, b, c)
    ensures forall c :: Sees(v, b, r, c) <==> Sees(w, b, r, c)
    ensures VisibleCells(v, b, r) == VisibleCells(w, b, r)
  {
    forall c ensures Sees(v, b, r, c) <==> Sees(w, b, r, c) {
      if Sees(v, b, r, c) {
        var s :| OwnStack(v, b, s) && Distance(s, c) <= r;
        assert OwnStack(w, b, s);
      }
      if Sees(w, b, r, c) {
        var s :| OwnStack(w, b, s) && Distance(s, c) <= r;
        assert OwnStack(v, b, s);
      }
    }
    StableSort.FilterSame(c => Sees(v, b, r, c), c => Sees(w, b, r, c), BoardCells(v));
  }

  lemma {:induction false} SameCellViews(v: World, w: World, cells: seq<Coord>)
    requires SameFrame(v, w) && forall c :: c in cells ==> SameCell(v, w, c)
    ensures GetCells(v, cells) == GetCells(w, cells)
  {
    if cells != [] {
      assert cells[0] in cells;
      assert GetCell(v, cells[0]) == GetCell(w, cells[0]);
      SameCellViews(v, w, cells[1..]);
    }
  }

  /** Keys of visible cells never admit a hidden cell of the board. */
  lemma HiddenHasNoKey(w: World, b: int, c: Coord)
    requires Hidden(w, b, c)
    ensures !KeyVisible(KeysOf(VisibleCells(w, b, ViewRadius(w)), w.board.width), w.board.width, c)
  {
    var cells := VisibleCells(w, b, ViewRadius(w));
    forall d | d in cells ensures CellIndex(d, w.board.width) != CellIndex(c, w.board.width) {
      VisibleCellsExact(w, b, ViewRadius(w), d);
      if CellIndex(d, w.board.width) == CellIndex(c, w.board.width) {
        CellIndexUnique(d, c, w.board.width);
      }
    }
  }

  lemma FilterThroughOpen<T>(keep: T -> bool, open: T -> bool, s: seq<T>)
    requires forall x :: x in s && keep(x) ==> open(x)
    ensures StableSort.Filter(keep, s) == StableSort.Filter(keep, StableSort.Filter(open, s))
  {
    StableSort.FilterTwice(keep, open, s);
    StableSort.FilterSame(keep, x => open(x) && keep(x), s);
  }

  /** A list of coordinates all in view names no hidden cell. */
  lemma VisibleIsOpen(w: World, b: int, coords: seq<Coord>)
    requires AllVisible(KeysOf(VisibleCells(w, b, ViewRadius(w)), w.board.width), w.board.width, coords)
    ensures Open(w, b, coords)
  {
    forall i | 0 <= i < |coords| ensures !Hidden(w, b, coords[i]) {
      if Hidden(w, b, coords[i]) {
        HiddenHasNoKey(w, b, coords[i]);
      }
    }
  }

  /** The filter sees of a world's events only what names no hidden cell. */
  lemma FilteredThroughOpen(w: World, events: TickEvents, player: JsString, b: int)
    ensures var cells := VisibleCells(w, b, ViewRadius(w));
            Filtered(w.board.width, cells, events, Some(player))
            == Filtered(w.board.width, cells,
                        TickEvents(OpenCombat(w, b, events), OpenCaptures(w, b, events), events.eliminations,
                                   OpenApplied(w, b, player, events), OpenErrors(w, b, events)), Some(player))
  {
    var width := w.board.width;
    var keys := KeysOf(VisibleCells(w, b, ViewRadius(w)), width);
    forall c | KeyVisible(keys, width, c) ensures !Hidden(w, b, c) {
      if Hidden(w, b, c) {
        HiddenHasNoKey(w, b, c);
      }
    }
    forall coords | AllVisible(keys, width, coords) ensures Open(w, b, coords) {
      VisibleIsOpen(w, b, coords);
    }
    FilterThroughOpen(e => KeepsCombat(keys, width, e), (e: CombatEvent) => !Hidden(w, b, e.cell), events.combat);
    FilterThroughOpen(e => KeepsCapture(keys, width, e), (e: CaptureEvent) => !Hidden(w, b, e.cell), events.captures);
    FilterThroughOpen(r => KeepsApplied(keys, width, Some(player), r),
                      (r: AppliedOrderRecord) => r.order.player == player && Open(w, b, OrderCoords(r.order)),
                      events.appliedOrders);
    FilterThroughOpen(e => KeepsError(keys, width, e),
                      (e: OrderError) => Open(w, b, OrderCoords(e.order) + ValidationErrorCoords(e.reason)), events.errors);
  }

  lemma SameShownEvents(v: World, ve: TickEvents, w: World, we: TickEvents, player: JsString, b: int)
    requires DifferOnlyOutside(v, ve, w, we, player, b)
    ensures var cells := VisibleCells(w, b, ViewRadius(w));
            Filtered(w.board.width, cells, ve, Some(player)) == Filtered(w.board.width, cells, we, Some(player))
  {
    SameHorizon(v, w, b, ViewRadius(w));
    FilteredThroughOpen(v, ve, player, b);
    FilteredThroughOpen(w, we, player, b);
  }

  lemma SameShownCells(v: World, ve: TickEvents, w: World, we: TickEvents, player: JsString, b: int)
    requires DifferOnlyOutside(v, ve, w, we, player, b)
    ensures VisibleCells(v, b, ViewRadius(v)) == VisibleCells(w, b, ViewRadius(w))
    ensures GetCells(v, VisibleCells(w, b, ViewRadius(w))) == GetCells(w, VisibleCells(w, b, ViewRadius(w)))
  {
    var r := ViewRadius(w);
    SameHorizon(v, w, b, r);
    forall c | c in VisibleCells(w, b, r) ensures SameCell(v, w, c) {
      VisibleCellsExact(w, b, r, c);
    }
    SameCellViews(v, w, VisibleCells(w, b, r));
  }

  lemma SameShownView(v: World, ve: TickEvents, w: World, we: TickEvents, player: JsString, b: int)
    requires SameFrame(v, w) && ResolvePlayerOwnerByte(w, player) == Some(b)
    requires VisibleCells(v, b, ViewRadius(v)) == VisibleCells(w, b, ViewRadius(w))
    requires GetCells(v, VisibleCells(w, b, ViewRadius(w))) == GetCells(w, VisibleCells(w, b, ViewRadius(w)))
    requires Filtered(w.board.width, VisibleCells(w, b, ViewRadius(w)), ve, Some(player))
          == Filtered(w.board.width, VisibleCells(w, b, ViewRadius(w)), we, Some(player))
    ensures PlayerViewOf(v, player, false, ve) == PlayerViewOf(w, player, false, we)
  {
    assert ResolvePlayerOwnerByte(v, player) == Some(b);
    assert VisibleSet(v, player, None) == VisibleSet(w, player, None);
  }

  /** Noninterference: nothing beyond the horizon can be told from a player's view. */
  lemma ViewIgnoresHiddenState(v: World, ve: TickEvents, w: World, we: TickEvents, player: JsString)
    requires SameFrame(v, w)
    requires ResolvePlayerOwnerByte(w, player).Some? ==>
               DifferOnlyOutside(v, ve, w, we, player, ResolvePlayerOwnerByte(w, player).value)
    ensures PlayerViewOf(v, player, false, ve) == PlayerViewOf(w, player, false, we)
  {
    match ResolvePlayerOwnerByte(w, player)
    case None =>
      assert ResolvePlayerOwnerByte(v, player).None?;
    case Some(b) =>
      SameShownCells(v, ve, w, we, player, b);
      SameShownEvents(v, ve, w, we, player, b);
      SameShownView(v, ve, w, we, player, b);
  }

  // When a view exists ------------------------------------------------------

  predicate InTable(w: World, byte: u8) {
    byte == 0 || (byte <= w.registry.count && byte <= |w.registry.ids|)
  }

  /** The cell is stored and its owner bytes name entries of the identity table. */
  predicate Readable(w: World, c: Coord) {
    var i := FlatIndex(w.board, c);
    && 0 <= i < |w.board.cells|
    && InTable(w, Orders.At(w.state.troopOwners, i, 0)) && InTable(w, Orders.At(w.state.cityOwners, i, 0))
  }

  /** The board has an extent and everything in sensor range can be read. */
  ghost predicate Viewable(w: World, b: int) {
    && w.board.width > 0 && w.board.height > 0
    && forall c :: Sees(w, b, ViewRadius(w), c) ==> Readable(w, c)
  }

  lemma {:induction false} CellsReadable(w: World, cells: seq<Coord>)
    ensures GetCells(w, cells).Ok? <==> forall c :: c in cells ==> Readable(w, c)
  {
    if cells != [] {
      assert cells == [cells[0]] + cells[1..];
      assert GetCell(w, cells[0]).Ok? <==> Readable(w, cells[0]);
      CellsReadable(w, cells[1..]);
    }
  }

  predicate BoardReadable(w: World) {
    forall c :: c in BoardCells(w) ==> Readable(w, c)
  }

  /** A spectator gets a view exactly when every cell of the board can be read, a seated player when the
      board has an extent and every cell in range can be read, anyone else always. */
  lemma ViewExistsIff(w: World, player: JsString, spectator: bool, events: TickEvents)
    ensures PlayerViewOf(w, player, spectator, events).Ok? <==>
              && (spectator ==> BoardReadable(w))
              && (!spectator && ResolvePlayerOwnerByte(w, player).Some? ==>
                    Viewable(w, ResolvePlayerOwnerByte(w, player).value))
  {
    if spectator {
      CellsReadable(w, BoardCells(w));
    } else if ResolvePlayerOwnerByte(w, player).Some? {
      var b := ResolvePlayerOwnerByte(w, player).value;
      CellsReadable(w, VisibleCells(w, b, ViewRadius(w)));
      forall c ensures c in VisibleCells(w, b, ViewRadius(w)) <==> Sees(w, b, ViewRadius(w), c) {
        VisibleCellsExact(w, b, ViewRadius(w), c);
      }
    }
  }

  lemma OwnersInTable(st: WorldState, n: nat, count: nat, i: nat)
    requires WorldFormat.StateEncodable(st, n, count)
    ensures Orders.At(st.troopOwners, i, 0) <= count && Orders.At(st.cityOwners, i, 0) <= count
  {
    assert i < n ==> WorldFormat.FieldsEncodable(st, i, count);
  }

  /** What the encoder checks that a view needs. */
  lemma EncodableFacts(w: World)
    requires WorldFormat.Encodable(w)
    ensures w.board.width > 0 && |w.registry.ids| == w.registry.count
    ensures WorldFormat.StateEncodable(w.state, w.board.width * w.board.width, w.registry.count)
  {
  }

  lemma StoredIsReadable(w: World, n: nat, c: Coord)
    requires WorldFormat.StateEncodable(w.state, n, w.registry.count) && |w.registry.ids| == w.registry.count
    requires InBounds(w.board, c) && w.board.width * w.board.height <= |w.board.cells|
    ensures Readable(w, c)
  {
    CellIndexInRange(c, w.board.width, w.board.height);
    OwnersInTable(w.state, n, w.registry.count, FlatIndex(w.board, c));
  }

  /** Every world the encoder accepts can be viewed by everyone: the seated, the unknown and the spectators. */
  lemma EncodableIsViewable(w: World, player: JsString, spectator: bool, events: TickEvents)
    requires WorldFormat.Encodable(w)
    requires 0 < w.board.height && w.board.width * w.board.height <= |w.board.cells|
    ensures PlayerViewOf(w, player, spectator, events).Ok?
  {
    EncodableFacts(w);
    forall c | InBounds(w.board, c) ensures Readable(w, c) {
      StoredIsReadable(w, w.board.width * w.board.width, c);
    }
    forall c | c in BoardCells(w) ensures Readable(w, c) {
      RectMembers(0, w.board.width - 1, 0, w.board.height - 1, c);
    }
    ViewExistsIff(w, player, spectator, events);
  }

  // Completeness -------------------------------------------------------------

  lemma {:induction false} DecodedCells(w: World, cells: seq<Coord>)
    requires GetCells(w, cells).Ok?
    ensures |GetCells(w, cells).value| == |cells|
    ensures forall i :: 0 <= i < |cells| ==> GetCell(w, cells[i]) == Ok(GetCells(w, cells).value[i])
    ensures forall i :: 0 <= i < |cells| ==> GetCells(w, cells).value[i].coord == cells[i]
  {
    if cells != [] {
      DecodedCells(w, cells[1..]);
    }
  }

  /** The view of a seated player shows every cell in sensor range, decoded, and nothing else. */
  lemma ViewShowsExactlyTheHorizon(w: World, player: JsString, events: TickEvents, b: int)
    requires ResolvePlayerOwnerByte(w, player) == Some(b) && Viewable(w, b)
    ensures PlayerViewOf(w, player, false, events).Ok?
    ensures var cells := PlayerViewOf(w, player, false, events).value.visibleCells;
            && (forall i :: 0 <= i < |cells| ==> Sees(w, b, ViewRadius(w), cells[i].coord))
            && (forall i :: 0 <= i < |cells| ==> GetCell(w, cells[i].coord) == Ok(cells[i]))
            && (forall c :: Sees(w, b, ViewRadius(w), c) ==> exists i :: 0 <= i < |cells| && cells[i].coord == c)
  {
    var visible := VisibleCells(w, b, ViewRadius(w));
    ViewExistsIff(w, player, false, events);
    DecodedCells(w, visible);
    forall c ensures c in visible <==> Sees(w, b, ViewRadius(w), c) {
      VisibleCellsExact(w, b, ViewRadius(w), c);
    }
  }

  /** On the board a cell has a visible key exactly when it is in sensor range. */
  lemma KeyVisibleIffSeen(w: World, b: int, c: Coord)
    requires InBounds(w.board, c)
    ensures KeyVisible(KeysOf(VisibleCells(w, b, ViewRadius(w)), w.board.width), w.board.width, c)
       <==> Sees(w, b, ViewRadius(w), c)
  {
    VisibleCellsExact(w, b, ViewRadius(w), c);
    if Hidden(w, b, c) {
      HiddenHasNoKey(w, b, c);
    }
  }

  predicate AllOnBoard(w: World, coords: seq<Coord>) {
    forall i :: 0 <= i < |coords| ==> InBounds(w.board, coords[i])
  }

  ghost predicate AllSeen(w: World, b: int, coords: seq<Coord>) {
    forall i :: 0 <= i < |coords| ==> Sees(w, b, ViewRadius(w), coords[i])
  }

  lemma AllVisibleIffSeen(w: World, b: int, coords: seq<Coord>)
    requires AllOnBoard(w, coords)
    ensures AllVisible(KeysOf(VisibleCells(w, b, ViewRadius(w)), w.board.width), w.board.width, coords)
       <==> AllSeen(w, b, coords)
  {
    forall i | 0 <= i < |coords|
      ensures KeyVisible(KeysOf(VisibleCells(w, b, ViewRadius(w)), w.board.width), w.board.width, coords[i])
         <==> Sees(w, b, ViewRadius(w), coords[i])
    {
      KeyVisibleIffSeen(w, b, coords[i]);
    }
  }

  /** The events a seated player is shown. */
  ghost function ShownEvents(w: World, player: JsString, events: TickEvents, b: int): TickEvents
    requires ResolvePlayerOwnerByte(w, player) == Some(b) && Viewable(w, b)
  {
    ViewExistsIff(w, player, false, events);
    PlayerViewOf(w, player, false, events).value.events
  }

  lemma ShownIsFiltered(w: World, player: JsString, events: TickEvents, b: int)
    requires ResolvePlayerOwnerByte(w, player) == Some(b) && Viewable(w, b)
    ensures ShownEvents(w, player, events, b)
         == Filtered(w.board.width, VisibleCells(w, b, ViewRadius(w)), events, Some(player))
  {
    ViewExistsIff(w, player, false, events);
  }

  /** A fight on the board is reported to a player exactly when its cell is in sensor range. */
  lemma CombatShownIffVisible(w: World, player: JsString, events: TickEvents, b: int, e: CombatEvent)
    requires ResolvePlayerOwnerByte(w, player) == Some(b) && Viewable(w, b) && InBounds(w.board, e.cell)
    ensures e in ShownEvents(w, player, events, b).combat <==> e in events.combat && Sees(w, b, ViewRadius(w), e.cell)
  {
    ShownIsFiltered(w, player, events, b);
    var keys := KeysOf(VisibleCells(w, b, ViewRadius(w)), w.board.width);
    StableSort.FilterKeeps(e => KeepsCombat(keys, w.board.width, e), events.combat, e);
    KeyVisibleIffSeen(w, b, e.cell);
  }

  /** So is a capture. */
  lemma CaptureShownIffVisible(w: World, player: JsString, events: TickEvents, b: int, e: CaptureEvent)
    requires ResolvePlayerOwnerByte(w, player) == Some(b) && Viewable(w, b) && InBounds(w.board, e.cell)
    ensures e in ShownEvents(w, player, events, b).captures <==> e in events.captures && Sees(w, b, ViewRadius(w), e.cell)
  {
    ShownIsFiltered(w, player, events, b);
    var keys := KeysOf(VisibleCells(w, b, ViewRadius(w)), w.board.width);
    StableSort.FilterKeeps(e => KeepsCapture(keys, w.board.width, e), events.captures, e);
    KeyVisibleIffSeen(w, b, e.cell);
  }

  /** An applied order is reported to its own player only, and only when every cell it names is in range. */
  lemma AppliedOrderShownIffOwnAndVisible(w: World, player: JsString, events: TickEvents, b: int, r: AppliedOrderRecord)
    requires ResolvePlayerOwnerByte(w, player) == Some(b) && Viewable(w, b) && AllOnBoard(w, OrderCoords(r.order))
    ensures r in ShownEvents(w, player, events, b).appliedOrders
       <==> r in events.appliedOrders && r.order.player == player && AllSeen(w, b, OrderCoords(r.order))
  {
    ShownIsFiltered(w, player, events, b);
    var keys := KeysOf(VisibleCells(w, b, ViewRadius(w)), w.board.width);
    StableSort.FilterKeeps(r => KeepsApplied(keys, w.board.width, Some(player), r), events.appliedOrders, r);
    AllVisibleIffSeen(w, b, OrderCoords(r.order));
  }

  /** An error is reported exactly when every cell its order and its reason name is in range, whoever ordered. */
  lemma ErrorShownIffVisible(w: World, player: JsString, events: TickEvents, b: int, e: OrderError)
    requires ResolvePlayerOwnerByte(w, player) == Some(b) && Viewable(w, b)
    requires AllOnBoard(w, OrderCoords(e.order) + ValidationErrorCoords(e.reason))
    ensures e in ShownEvents(w, player, events, b).errors
       <==> e in events.errors && AllSeen(w, b, OrderCoords(e.order) + ValidationErrorCoords(e.reason))
  {
    ShownIsFiltered(w, player, events, b);
    var keys := KeysOf(VisibleCells(w, b, ViewRadius(w)), w.board.width);
    StableSort.FilterKeeps(e => KeepsError(keys, w.board.width, e), events.errors, e);
    AllVisibleIffSeen(w, b, OrderCoords(e.order) + ValidationErrorCoords(e.reason));
  }
}
