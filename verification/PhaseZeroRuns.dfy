/** Phase 0 as a whole pipeline meets it: from the orders that arrived at a world to the masks and
    reserves it leaves (packages/networking/src/orders.ts; packages/engine/src/tick.ts). */
module PhaseZeroRuns {
  import opened Js
  import opened EngineTypes
  import opened Orders
  import opened PipePhase
  import opened WorldFormat
  import opened WorldCodecTheorems
  import PR = PlayerRegistry
  import StableSort
  import Utf16Order

  // Pipes --------------------------------------------------------------------

  /** The queue the engine sorts after a batch was staged in the drain's order. */
  function StagedQueue(w: World, pending: seq<Order>, arrived: seq<Order>): seq<Order> {
    StageAll(w, pending, StableSort.Sort(DrainCompare, arrived)).1
  }

  predicate AllStageable(w: World, pending: seq<Order>) {
    forall o :: o in pending ==> Stageable(w, o)
  }

  lemma SameFilterMultiset(keep: Order -> bool, a: seq<Order>, b: seq<Order>)
    requires multiset(a) == multiset(b)
    ensures multiset(StableSort.Filter(keep, a)) == multiset(StableSort.Filter(keep, b))
  {
    var m, n := multiset(StableSort.Filter(keep, a)), multiset(StableSort.Filter(keep, b));
    forall o: Order ensures m[o] == n[o] {
      StableSort.FilterMultiset(keep, a, o);
      StableSort.FilterMultiset(keep, b, o);
    }
    assert m == n;
  }

  lemma StagedMultiset(w: World, pending: seq<Order>, a: seq<Order>, b: seq<Order>)
    requires multiset(a) == multiset(b)
    ensures multiset(StageAll(w, pending, a).1) == multiset(StageAll(w, pending, b).1)
  {
    var keep := o => Stageable(w, o);
    StagingFilters(w, w, pending, a);
    StagingFilters(w, w, pending, b);
    SameFilterMultiset(keep, a, b);
  }

  lemma StagedIsStageable(w: World, pending: seq<Order>, batch: seq<Order>)
    requires AllStageable(w, pending)
    ensures AllStageable(w, StageAll(w, pending, batch).1)
  {
    StagingFilters(w, w, pending, batch);
    forall o | o in StageAll(w, pending, batch).1 ensures Stageable(w, o) {
      StableSort.FilterKeeps(o => Stageable(w, o), batch, o);
    }
  }

  /** What is staged can be played: on the board, by a player of the registry. */
  lemma StageableIsPlayable(w: World, queue: seq<Order>)
    requires AllStageable(w, queue) && PR.Create(w.registry.ids) == Ok(w.registry)
    ensures Playable(queue, w.board, w.registry.ids)
  {
    PR.LookupsInvert(w.registry.ids, w.registry);
    forall o | o in queue ensures OnBoard(o, w.board) && o.player in w.registry.ids {
      StageableIsInBounds(w, o);
    }
  }

  /** Two arrival orders of the same orders leave the same pipe masks on every cell after phase 0. */
  lemma ArrivalOrderLeavesPipes(w: World, pending: seq<Order>, a: seq<Order>, b: seq<Order>)
    requires PR.Create(w.registry.ids) == Ok(w.registry) && AllStageable(w, pending)
    requires w.board.width > 0 && |w.state.pipeMasks| == w.board.width * w.board.height
    requires multiset(a) == multiset(b)
    ensures PhaseZero(StagedQueue(w, pending, a), w.state, w.board).pipeMasks
         == PhaseZero(StagedQueue(w, pending, b), w.state, w.board).pipeMasks
  {
    var s, t := StableSort.Sort(DrainCompare, a), StableSort.Sort(DrainCompare, b);
    assert multiset(s) == multiset(t) by {
      StableSort.SortMultiset(DrainCompare, a);
      StableSort.SortMultiset(DrainCompare, b);
    }
    StagedMultiset(w, pending, s, t);
    StagedIsStageable(w, pending, s);
    StageableIsPlayable(w, StageAll(w, pending, s).1);
    PR.LookupsInvert(w.registry.ids, w.registry);
    PipesIgnoreStagingOrder(StageAll(w, pending, s).1, StageAll(w, pending, t).1, w.state, w.board, w.registry.ids);
  }

  // Reserves -----------------------------------------------------------------

  const HOME := Coord(0, 0)

  /** A stack of the first player at home on an otherwise empty board. */
  function Garrisoned(w: World): World
    requires 0 < |w.state.troopCounts| && 0 < |w.state.troopOwners|
  {
    w.(state := w.state.(troopCounts := w.state.troopCounts[0 := 5], troopOwners := w.state.troopOwners[0 := 1]))
  }

  function Garrison(): World {
    Garrisoned(Sample(0, []))
  }

  function Reserve(player: JsString, percent: int): Order {
    SetReserves(player, HOME, percent)
  }

  /** `player` is registered and holds the stack at home. */
  predicate HoldsHome(w: World, player: JsString) {
    && w.board.width > 0 && w.board.height > 0
    && |w.state.troopOwners| > 0
    && w.registry.IndexOfId(player) == Some(w.state.troopOwners[0] as int - 1)
  }

  /** Other values in the cell arrays leave an accepted world accepted. */
  lemma StateReplaced(w: World, st: WorldState)
    requires Encodable(w) && Canonical(w)
    requires StateEncodable(st, w.board.width * w.board.width, w.registry.count)
    ensures Encodable(w.(state := st)) && Canonical(w.(state := st))
  {
    var v := w.(state := st);
    assert SlotOrder(v) == SlotOrder(w) by {
      forall k | 0 <= k < |SlotOrder(v)| ensures SlotIndex(v, k) == SlotIndex(w, k) {
      }
    }
  }

  lemma OneStackEncodable(st: WorldState)
    requires StateEncodable(st, 64, 2)
    ensures StateEncodable(st.(troopCounts := st.troopCounts[0 := 5], troopOwners := st.troopOwners[0 := 1]), 64, 2)
  {
    var next := st.(troopCounts := st.troopCounts[0 := 5], troopOwners := st.troopOwners[0 := 1]);
    forall i | 0 <= i < 64 ensures FieldsEncodable(next, i, 2) {
      assert FieldsEncodable(st, i, 2);
    }
  }

  lemma GarrisonIsAccepted()
    ensures Encodable(Garrison()) && Canonical(Garrison())
  {
    var w := Sample(0, []);
    SampleIsAccepted(0, []);
    SampleCells(0, []);
    OneStackEncodable(w.state);
    StateReplaced(w, Garrison().state);
  }

  lemma GarrisonHoldsHome()
    ensures HoldsHome(Garrison(), SAMPLE_IDS[0])
  {
    SampleRegistry();
  }

  lemma ReserveIsStageable(w: World, player: JsString, percent: int)
    requires HoldsHome(w, player) && 0 <= percent <= 9
    ensures Stageable(w, Reserve(player, percent)) && OnBoard(Reserve(player, percent), w.board)
  {
    CellIndexInRange(HOME, w.board.width, w.board.height);
  }

  lemma BothStaged(w: World, player: JsString, x: int, y: int)
    requires HoldsHome(w, player) && 0 <= x <= 9 && 0 <= y <= 9
    ensures StageAll(w, [], [Reserve(player, x), Reserve(player, y)]).1 == [Reserve(player, x), Reserve(player, y)]
  {
    var batch := [Reserve(player, x), Reserve(player, y)];
    ReserveIsStageable(w, player, x);
    ReserveIsStageable(w, player, y);
    StagingFilters(w, w, [], batch);
    StableSort.FilterAll(o => Stageable(w, o), batch);
  }

  lemma LastReserveWins(player: JsString, x: int, y: int, before: u8)
    ensures ReserveAfter([Reserve(player, x), Reserve(player, y)], HOME, before) == LowByte(y)
  {
    var batch := [Reserve(player, x), Reserve(player, y)];
    Utf16Order.ZeroOnlyOnEqual(player, player);
    StableSort.FilterAll(o => SetsReserves(o, HOME), batch);
    assert batch[1..] == [batch[1]];
  }

  /** The percentage a batch staged in a world leaves at home after phase 0. */
  function ReserveAtHome(w: World, batch: seq<Order>): Option<int> {
    var percents := PhaseZero(StageAll(w, [], batch).1, w.state, w.board).reservesPct;
    if percents == [] then None else Some(percents[0] as int)
  }

  lemma ReserveStagedLast(w: World, player: JsString, x: int, y: int)
    requires HoldsHome(w, player) && 0 <= x <= 9 && 0 <= y <= 9
    requires |w.state.reservesPct| == w.board.width * w.board.height
    ensures ReserveAtHome(w, [Reserve(player, x), Reserve(player, y)]) == Some(y)
  {
    BothStaged(w, player, x, y);
    ReservePlayed(w.state, w.board, player, x, y);
  }

  lemma ReservePlayed(st: WorldState, b: Board, player: JsString, x: int, y: int)
    requires b.width > 0 && b.height > 0 && 0 <= y <= 9
    requires |st.reservesPct| == b.width * b.height
    ensures |PhaseZero([Reserve(player, x), Reserve(player, y)], st, b).reservesPct| > 0
    ensures PhaseZero([Reserve(player, x), Reserve(player, y)], st, b).reservesPct[0] == y
  {
    CellIndexInRange(HOME, b.width, b.height);
    ReservesAfterPhaseZero([Reserve(player, x), Reserve(player, y)], st, b, HOME);
    LastReserveWins(player, x, y, st.reservesPct[0]);
  }

  /** In a world the encoder accepts, two orders the validator accepts leave at home the reserve staged last:
      reserves depend on staging order. */
  lemma ReservesDependOnStagingOrder(x: int, y: int)
    requires 0 <= x <= 9 && 0 <= y <= 9
    ensures Encodable(Garrison()) && Canonical(Garrison())
    ensures Stageable(Garrison(), Reserve(SAMPLE_IDS[0], x)) && Stageable(Garrison(), Reserve(SAMPLE_IDS[0], y))
    ensures ReserveAtHome(Garrison(), [Reserve(SAMPLE_IDS[0], x), Reserve(SAMPLE_IDS[0], y)]) == Some(y)
  {
    GarrisonIsAccepted();
    GarrisonHoldsHome();
    ReserveIsStageable(Garrison(), SAMPLE_IDS[0], x);
    ReserveIsStageable(Garrison(), SAMPLE_IDS[0], y);
    ReserveStagedLast(Garrison(), SAMPLE_IDS[0], x, y);
  }
}
