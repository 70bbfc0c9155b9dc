/** Phase 0 of a tick: the sorted staged orders are folded over the pipe masks and reserve settings
    (packages/engine/src/tick.ts). */
module PipePhase {
  import opened Js
  import opened EngineTypes
  import opened Orders
  import Utf16Order
  import StableSort

  // The fold -----------------------------------------------------------------

  /** A typed-array store: out-of-range positions are ignored. */
  function Store(s: seq<u8>, i: int, value: u8): seq<u8> {
    if 0 <= i < |s| then s[i := value] else s
  }

  /** `dispatchOrderEffect`. */
  function DispatchOrderEffect(o: Order, st: WorldState, b: Board): WorldState {
    match o
    case SetPipe(_, c, d) =>
      var i := FlatIndex(b, c);
      st.(pipeMasks := Store(st.pipeMasks, i, WithPipe(Orders.At(st.pipeMasks, i, 0), d)))
    case ClearPipe(_, c, d) =>
      var i := FlatIndex(b, c);
      st.(pipeMasks := Store(st.pipeMasks, i, WithoutPipe(Orders.At(st.pipeMasks, i, 0), d)))
    case SetPipesExclusive(_, c, d) => st.(pipeMasks := Store(st.pipeMasks, FlatIndex(b, c), DirectionBit(d)))
    case ClearAllPipes(_, c) => st.(pipeMasks := Store(st.pipeMasks, FlatIndex(b, c), 0))
    case SetReserves(_, c, percent) => st.(reservesPct := Store(st.reservesPct, FlatIndex(b, c), LowByte(percent)))
    case Paratroop(_, _, _) => st
    case Gun(_, _, _) => st
    case Surrender(_) => st
  }

  function Fold(orders: seq<Order>, st: WorldState, b: Board): WorldState {
    if orders == [] then st
    else DispatchOrderEffect(orders[|orders| - 1], Fold(orders[..|orders| - 1], st, b), b)
  }

  /** The state after phase 0. */
  function PhaseZero(pending: seq<Order>, st: WorldState, b: Board): WorldState {
    Fold(StableSort.Sort(EngineCompare, pending), st, b)
  }

  /** The loop of `tick` over the sorted orders. */
  method ApplyStagedOrders(pending: seq<Order>, st: WorldState, b: Board) returns (state: WorldState)
    ensures state == PhaseZero(pending, st, b)
  {
    var sorted := StableSort.Sort(EngineCompare, pending);
    state := st;
    for i := 0 to |sorted|
      invariant state == Fold(sorted[..i], st, b)
    {
      assert sorted[..i + 1][..i] == sorted[..i];
      state := DispatchOrderEffect(sorted[i], state, b);
    }
    assert sorted[..|sorted|] == sorted;
  }

  // One cell at a time -------------------------------------------------------

  /** What an order does to the mask of cell `c`. */
  function CellEffect(o: Order, c: Coord, mask: u8): u8 {
    match o
    case SetPipe(_, cell, d) => if cell == c then WithPipe(mask, d) else mask
    case ClearPipe(_, cell, d) => if cell == c then WithoutPipe(mask, d) else mask
    case SetPipesExclusive(_, cell, d) => if cell == c then DirectionBit(d) else mask
    case ClearAllPipes(_, cell) => if cell == c then 0 else mask
    case _ => mask
  }

  function CellFold(orders: seq<Order>, c: Coord, mask: u8): u8 {
    if orders == [] then mask
    else CellEffect(orders[|orders| - 1], c, CellFold(orders[..|orders| - 1], c, mask))
  }

  predicate OnBoard(o: Order, b: Board) {
    PickCoord(o).Some? ==> InBounds(b, PickCoord(o).value)
  }

  lemma {:induction false} FoldCellwise(orders: seq<Order>, st: WorldState, b: Board, c: Coord)
    requires InBounds(b, c) && FlatIndex(b, c) < |st.pipeMasks| && FlatIndex(b, c) >= 0
    requires forall o :: o in orders ==> OnBoard(o, b)
    ensures |Fold(orders, st, b).pipeMasks| == |st.pipeMasks|
    ensures Fold(orders, st, b).pipeMasks[FlatIndex(b, c)] == CellFold(orders, c, st.pipeMasks[FlatIndex(b, c)])
  {
    if orders != [] {
      var n := |orders| - 1;
      var o := orders[n];
      FoldCellwise(orders[..n], st, b, c);
      assert o in orders;
      if PickCoord(o).Some? && FlatIndex(b, PickCoord(o).value) == FlatIndex(b, c) {
        CellIndexUnique(PickCoord(o).value, c, b.width);
      }
    }
  }

  lemma {:induction false} CellFoldAppend(a: seq<Order>, s: seq<Order>, c: Coord, mask: u8)
    ensures CellFold(a + s, c, mask) == CellFold(s, c, CellFold(a, c, mask))
  {
    if s == [] {
      assert a + s == a;
    } else {
      var n := |s| - 1;
      assert (a + s)[..|a| + n] == a + s[..n];
      CellFoldAppend(a, s[..n], c, mask);
    }
  }

  // The closed form ----------------------------------------------------------

  predicate AnyExclusive(s: seq<Order>, p: JsString, c: Coord) {
    exists d :: SetPipesExclusive(p, c, d) in s
  }

  /** Alphabetically last direction among the player's exclusive orders on the cell. */
  function LastExclusive(s: seq<Order>, p: JsString, c: Coord): Direction {
    if SetPipesExclusive(p, c, W) in s then W
    else if SetPipesExclusive(p, c, S) in s then S
    else if SetPipesExclusive(p, c, N) in s then N
    else E
  }

  function MinusCleared(s: seq<Order>, p: JsString, c: Coord, mask: u8, d: Direction): u8 {
    if ClearPipe(p, c, d) in s then WithoutPipe(mask, d) else mask
  }

  function PlusSet(s: seq<Order>, p: JsString, c: Coord, mask: u8, d: Direction): u8 {
    if SetPipe(p, c, d) in s then WithPipe(mask, d) else mask
  }

  function AfterClears(s: seq<Order>, p: JsString, c: Coord, mask: u8): u8 {
    var base := if ClearAllPipes(p, c) in s then 0 else mask;
    MinusCleared(s, p, c, MinusCleared(s, p, c, MinusCleared(s, p, c, MinusCleared(s, p, c, base, N), E), S), W)
  }

  /** What one player's staged orders leave of a mask: the last exclusive direction if there is one,
      otherwise (nothing if they cleared all, else the old mask) minus the cleared plus the set bits. */
  function PlayerMask(s: seq<Order>, p: JsString, c: Coord, mask: u8): u8 {
    if AnyExclusive(s, p, c) then DirectionBit(LastExclusive(s, p, c))
    else PlusSet(s, p, c, PlusSet(s, p, c, PlusSet(s, p, c, PlusSet(s, p, c, AfterClears(s, p, c, mask), N), E), S), W)
  }

  /** Player by player, in table order. */
  function ClosedMask(s: seq<Order>, ids: seq<JsString>, c: Coord, mask: u8): u8 {
    if ids == [] then mask
    else PlayerMask(s, ids[|ids| - 1], c, ClosedMask(s, ids[..|ids| - 1], c, mask))
  }

  predicate KeepsOldBit(s: seq<Order>, p: JsString, c: Coord, d: Direction) {
    ClearPipe(p, c, d) !in s && ClearAllPipes(p, c) !in s
  }

  lemma MinusBits(s: seq<Order>, p: JsString, c: Coord, mask: u8, d: Direction)
    ensures var m := MinusCleared(s, p, c, mask, d);
            && HighBits(m) == HighBits(mask)
            && forall e :: HasPipe(m, e) <==> HasPipe(mask, e) && !(e == d && ClearPipe(p, c, d) in s)
  {
    PipeBits(mask, d);
  }

  lemma PlusBits(s: seq<Order>, p: JsString, c: Coord, mask: u8, d: Direction)
    ensures var m := PlusSet(s, p, c, mask, d);
            && HighBits(m) == HighBits(mask)
            && forall e :: HasPipe(m, e) <==> HasPipe(mask, e) || (e == d && SetPipe(p, c, d) in s)
  {
    PipeBits(mask, d);
  }

  lemma ZeroMask(d: Direction)
    ensures !HasPipe(0, d) && HighBits(0) == 0
  {
  }

  lemma ClearsBits(s: seq<Order>, p: JsString, c: Coord, mask: u8, d: Direction)
    ensures HasPipe(AfterClears(s, p, c, mask), d) <==> KeepsOldBit(s, p, c, d) && HasPipe(mask, d)
    ensures HighBits(AfterClears(s, p, c, mask)) == if ClearAllPipes(p, c) in s then 0 else HighBits(mask)
  {
    var m0 := if ClearAllPipes(p, c) in s then 0 else mask;
    var m1 := MinusCleared(s, p, c, m0, N);
    var m2 := MinusCleared(s, p, c, m1, E);
    var m3 := MinusCleared(s, p, c, m2, S);
    ZeroMask(d);
    MinusBits(s, p, c, m0, N);
    MinusBits(s, p, c, m1, E);
    MinusBits(s, p, c, m2, S);
    MinusBits(s, p, c, m3, W);
  }

  lemma SetsBits(s: seq<Order>, p: JsString, c: Coord, m0: u8, d: Direction)
    ensures var m := PlusSet(s, p, c, PlusSet(s, p, c, PlusSet(s, p, c, PlusSet(s, p, c, m0, N), E), S), W);
            HighBits(m) == HighBits(m0) && (HasPipe(m, d) <==> HasPipe(m0, d) || SetPipe(p, c, d) in s)
  {
    var m1 := PlusSet(s, p, c, m0, N);
    var m2 := PlusSet(s, p, c, m1, E);
    var m3 := PlusSet(s, p, c, m2, S);
    PlusBits(s, p, c, m0, N);
    PlusBits(s, p, c, m1, E);
    PlusBits(s, p, c, m2, S);
    PlusBits(s, p, c, m3, W);
  }

  lemma ExclusiveBits(d: Direction)
    ensures HighBits(DirectionBit(d)) == 0 && forall e :: HasPipe(DirectionBit(d), e) <==> d == e
  {
    PipeBits(0, d);
  }

  /** The closed form read bit by bit. */
  lemma PlayerMaskBits(s: seq<Order>, p: JsString, c: Coord, mask: u8, d: Direction)
    ensures HasPipe(PlayerMask(s, p, c, mask), d) <==>
              if AnyExclusive(s, p, c) then d == LastExclusive(s, p, c)
              else SetPipe(p, c, d) in s || (KeepsOldBit(s, p, c, d) && HasPipe(mask, d))
    ensures HighBits(PlayerMask(s, p, c, mask))
            == if AnyExclusive(s, p, c) || ClearAllPipes(p, c) in s then 0 else HighBits(mask)
  {
    if AnyExclusive(s, p, c) {
      ExclusiveBits(LastExclusive(s, p, c));
    } else {
      ClearsBits(s, p, c, mask, d);
      SetsBits(s, p, c, AfterClears(s, p, c, mask), d);
    }
  }

  /** Two queues hold the same pipe orders of player `p` on cell `c`. */
  ghost predicate SamePipeOrders(s: seq<Order>, t: seq<Order>, p: JsString, c: Coord) {
    && (ClearAllPipes(p, c) in s <==> ClearAllPipes(p, c) in t)
    && forall d ::
         && (SetPipesExclusive(p, c, d) in s <==> SetPipesExclusive(p, c, d) in t)
         && (SetPipe(p, c, d) in s <==> SetPipe(p, c, d) in t)
         && (ClearPipe(p, c, d) in s <==> ClearPipe(p, c, d) in t)
  }

  ghost predicate SameMembers(s: seq<Order>, t: seq<Order>, p: JsString) {
    forall o: Order :: o.player == p ==> (o in s <==> o in t)
  }

  lemma MembersGivePipeOrders(s: seq<Order>, t: seq<Order>, p: JsString, c: Coord)
    requires SameMembers(s, t, p)
    ensures SamePipeOrders(s, t, p, c)
  {
    forall d
      ensures SetPipesExclusive(p, c, d) in s <==> SetPipesExclusive(p, c, d) in t
      ensures SetPipe(p, c, d) in s <==> SetPipe(p, c, d) in t
      ensures ClearPipe(p, c, d) in s <==> ClearPipe(p, c, d) in t
    {
      assert SetPipesExclusive(p, c, d).player == p && SetPipe(p, c, d).player == p && ClearPipe(p, c, d).player == p;
    }
    assert ClearAllPipes(p, c).player == p;
  }

  /** The closed form only asks which orders were staged. */
  lemma PlayerMaskMembers(s: seq<Order>, t: seq<Order>, p: JsString, c: Coord, mask: u8)
    requires SamePipeOrders(s, t, p, c)
    ensures PlayerMask(s, p, c, mask) == PlayerMask(t, p, c, mask)
  {
    assert LastExclusive(s, p, c) == LastExclusive(t, p, c);
    assert AnyExclusive(s, p, c) <==> AnyExclusive(t, p, c);
    assert AfterClears(s, p, c, mask) == AfterClears(t, p, c, mask);
  }

  lemma {:induction false} ClosedMaskMembers(s: seq<Order>, t: seq<Order>, ids: seq<JsString>, c: Coord, mask: u8)
    requires forall p :: p in ids ==> SameMembers(s, t, p)
    ensures ClosedMask(s, ids, c, mask) == ClosedMask(t, ids, c, mask)
  {
    if ids != [] {
      var n := |ids| - 1;
      ClosedMaskMembers(s, t, ids[..n], c, mask);
      assert ids[n] in ids;
      MembersGivePipeOrders(s, t, ids[n], c);
      PlayerMaskMembers(s, t, ids[n], c, ClosedMask(s, ids[..n], c, mask));
    }
  }

  // One player's block -------------------------------------------------------

  lemma LastInBlock(s: seq<Order>, i: nat)
    requires StableSort.Sorted(EngineCompare, s) && i < |s| - 1 && s[i].player == s[|s| - 1].player
    ensures KeyLeq(s[i], s[|s| - 1])
  {
    EngineOrder(s[i], s[|s| - 1]);
    Utf16Order.ZeroOnlyOnEqual(s[i].player, s[|s| - 1].player);
  }

  predicate IsPipeOrder(o: Order) {
    o.SetPipe? || o.ClearPipe? || o.SetPipesExclusive? || o.ClearAllPipes?
  }

  lemma OtherOrder(s: seq<Order>, before: seq<Order>, o: Order, p: JsString, c: Coord, mask: u8)
    requires forall e :: e in s <==> e in before || e == o
    requires !IsPipeOrder(o) || PickCoord(o) != Some(c)
    ensures PlayerMask(s, p, c, mask) == CellEffect(o, c, PlayerMask(before, p, c, mask))
  {
    forall d
      ensures SetPipesExclusive(p, c, d) in s <==> SetPipesExclusive(p, c, d) in before
      ensures SetPipe(p, c, d) in s <==> SetPipe(p, c, d) in before
      ensures ClearPipe(p, c, d) in s <==> ClearPipe(p, c, d) in before
    {
      assert SetPipesExclusive(p, c, d) != o && SetPipe(p, c, d) != o && ClearPipe(p, c, d) != o;
    }
    assert ClearAllPipes(p, c) != o;
    PlayerMaskMembers(s, before, p, c, mask);
  }

  /** Appending the greatest order of a player's block updates the closed form as the fold does. */
  lemma BlockStep(s: seq<Order>, p: JsString, c: Coord, mask: u8)
    requires StableSort.Sorted(EngineCompare, s) && s != [] && forall o :: o in s ==> o.player == p
    ensures var n := |s| - 1; PlayerMask(s, p, c, mask) == CellEffect(s[n], c, PlayerMask(s[..n], p, c, mask))
  {
    var n := |s| - 1;
    var o, before := s[n], s[..n];
    assert s == before + [o];
    forall e | e in before ensures KeyLeq(e, o) {
      var i :| 0 <= i < n && before[i] == e;
      assert s[i] in s && s[n] in s;
      LastInBlock(s, i);
    }
    if IsPipeOrder(o) && PickCoord(o) == Some(c) {
      BlockBits(s, before, o, p, c, mask);
    } else {
      OtherOrder(s, before, o, p, c, mask);
    }
  }

  lemma BlockBits(s: seq<Order>, before: seq<Order>, o: Order, p: JsString, c: Coord, mask: u8)
    requires forall e :: e in s <==> e in before || e == o
    requires forall e :: e in before ==> KeyLeq(e, o)
    requires o.player == p && PickCoord(o) == Some(c)
    requires IsPipeOrder(o)
    ensures PlayerMask(s, p, c, mask) == CellEffect(o, c, PlayerMask(before, p, c, mask))
  {
    var old', new' := PlayerMask(before, p, c, mask), CellEffect(o, c, PlayerMask(before, p, c, mask));
    NothingLater(before, o, p, c);
    if o.SetPipesExclusive? {
      ExclusiveWins(s, before, o, p, c);
    } else {
      assert !AnyExclusive(s, p, c) && !AnyExclusive(before, p, c);
      forall d ensures HasPipe(PlayerMask(s, p, c, mask), d) <==> HasPipe(new', d) {
        PlayerMaskBits(s, p, c, mask, d);
        PlayerMaskBits(before, p, c, mask, d);
        if o.SetPipe? || o.ClearPipe? {
          PipeBits(old', o.direction);
        }
      }
      PlayerMaskBits(s, p, c, mask, N);
      PlayerMaskBits(before, p, c, mask, N);
      if o.SetPipe? || o.ClearPipe? {
        PipeBits(old', o.direction);
      }
      MaskDeterminedByBits(PlayerMask(s, p, c, mask), new');
    }
  }

  /** Orders of a kind that sorts after the last one are absent. */
  lemma NothingLater(before: seq<Order>, o: Order, p: JsString, c: Coord)
    requires forall e :: e in before ==> KeyLeq(e, o)
    ensures !o.SetPipesExclusive? && KindRank(o) < 5 ==> !AnyExclusive(before, p, c)
    ensures KindRank(o) < 4 ==> forall d :: SetPipe(p, c, d) !in before
    ensures KindRank(o) < 1 ==> forall d :: ClearPipe(p, c, d) !in before
  {
    forall d
      ensures KindRank(o) < 5 ==> SetPipesExclusive(p, c, d) !in before
      ensures KindRank(o) < 4 ==> SetPipe(p, c, d) !in before
      ensures KindRank(o) < 1 ==> ClearPipe(p, c, d) !in before
    {
      assert KindRank(SetPipesExclusive(p, c, d)) == 5 && KindRank(SetPipe(p, c, d)) == 4 && KindRank(ClearPipe(p, c, d)) == 1;
    }
  }

  lemma ExclusiveWins(s: seq<Order>, before: seq<Order>, o: Order, p: JsString, c: Coord)
    requires forall e :: e in s <==> e in before || e == o
    requires forall e :: e in before ==> KeyLeq(e, o)
    requires o.SetPipesExclusive? && o.player == p && o.cell == c
    ensures AnyExclusive(s, p, c) && LastExclusive(s, p, c) == o.direction
  {
    assert o in s;
    forall d | SetPipesExclusive(p, c, d) in before ensures DirectionRank(d) <= DirectionRank(o.direction) {
      assert KeyLeq(SetPipesExclusive(p, c, d), o);
    }
  }

  lemma {:induction false} BlockFold(s: seq<Order>, p: JsString, c: Coord, mask: u8)
    requires StableSort.Sorted(EngineCompare, s) && forall o :: o in s ==> o.player == p
    ensures CellFold(s, c, mask) == PlayerMask(s, p, c, mask)
  {
    if s == [] {
      assert !AnyExclusive(s, p, c);
    } else {
      BlockFold(s[..|s| - 1], p, c, mask);
      BlockStep(s, p, c, mask);
    }
  }

  // All players --------------------------------------------------------------

  /** In a sorted queue the orders of the last player form the tail. */
  lemma NobodyIs(s: seq<Order>, p: JsString)
    requires StableSort.Sorted(EngineCompare, s) && s != []
    requires s[|s| - 1].player != p && Utf16Order.Compare(s[|s| - 1].player, p) <= 0
    ensures forall o :: o in s ==> o.player != p
  {
    forall i | 0 <= i < |s| ensures s[i].player != p {
      BeforeNonLast(s, i, p);
    }
  }

  lemma SplitMoves(s: seq<Order>, k: nat, p: JsString)
    requires s != [] && s[|s| - 1].player == p && SplitsAt(s[..|s| - 1], k, p)
    ensures SplitsAt(s, k, p)
  {
    var n := |s| - 1;
    assert s[k..] == s[..n][k..] + [s[n]];
    assert s[..k] == s[..n][..k];
  }

  lemma {:induction false} SplitLastPlayer(s: seq<Order>, p: JsString) returns (k: nat)
    requires StableSort.Sorted(EngineCompare, s)
    requires forall o :: o in s ==> Utf16Order.Compare(o.player, p) <= 0
    ensures SplitsAt(s, k, p)
  {
    var n := |s| - 1;
    if s == [] {
      k := 0;
    } else if s[n].player == p {
      k := SplitLastPlayer(s[..n], p);
      SplitMoves(s, k, p);
    } else {
      k := |s|;
      NobodyIs(s, p);
    }
  }

  lemma BeforeNonLast(s: seq<Order>, i: nat, p: JsString)
    requires StableSort.Sorted(EngineCompare, s) && i < |s|
    requires s[|s| - 1].player != p && Utf16Order.Compare(s[|s| - 1].player, p) <= 0
    ensures s[i].player != p
  {
    var q := s[|s| - 1].player;
    if i < |s| - 1 {
      EngineOrder(s[i], s[|s| - 1]);
      Utf16Order.ZeroOnlyOnEqual(q, p);
      Utf16Order.Antisymmetric(p, q);
    }
  }

  lemma AtMostLast(ids: seq<JsString>, p: JsString)
    requires Utf16Order.StrictlyAscending(ids) && p in ids
    ensures Utf16Order.Compare(p, ids[|ids| - 1]) <= 0
  {
    var j :| 0 <= j < |ids| && ids[j] == p;
    Utf16Order.ZeroOnlyOnEqual(p, p);
    if j < |ids| - 1 {
      Utf16Order.AscendingFar(ids, j, |ids| - 1);
    }
  }

  lemma NobodyLeft(s: seq<Order>, ids: seq<JsString>)
    requires forall o :: o in s ==> o.player in ids
    ensures s != [] ==> ids != []
  {
    if s != [] {
      assert s[0].player in ids by {
        assert s[0] in s;
      }
    }
  }

  /** The last player's orders, played as a block, leave what the closed form makes of the whole queue. */
  lemma LastPlayersBlock(block: seq<Order>, s: seq<Order>, p: JsString, c: Coord, mask: u8)
    requires StableSort.Sorted(EngineCompare, block) && forall o :: o in block ==> o.player == p
    requires SameMembers(block, s, p)
    ensures CellFold(block, c, mask) == PlayerMask(s, p, c, mask)
  {
    BlockFold(block, p, c, mask);
    MembersGivePipeOrders(block, s, p, c);
    PlayerMaskMembers(block, s, p, c, mask);
  }

  /** The orders before place `k` are not of player `p`, the rest are. */
  predicate SplitsAt(s: seq<Order>, k: nat, p: JsString) {
    k <= |s| && (forall o :: o in s[..k] ==> o.player != p) && (forall o :: o in s[k..] ==> o.player == p)
  }

  lemma EarlierPlayers(s: seq<Order>, k: nat, rest: seq<JsString>, p: JsString, c: Coord, mask: u8)
    requires Utf16Order.StrictlyAscending(rest + [p]) && SplitsAt(s, k, p)
    ensures ClosedMask(s[..k], rest, c, mask) == ClosedMask(s, rest, c, mask)
  {
    SplitMembers(s, k, rest, p);
    ClosedMaskMembers(s[..k], s, rest, c, mask);
  }

  lemma LastPlayer(s: seq<Order>, k: nat, rest: seq<JsString>, p: JsString, c: Coord, mask: u8)
    requires StableSort.Sorted(EngineCompare, s) && Utf16Order.StrictlyAscending(rest + [p]) && SplitsAt(s, k, p)
    ensures CellFold(s[k..], c, mask) == PlayerMask(s, p, c, mask)
  {
    SplitMembers(s, k, rest, p);
    LastPlayersBlock(s[k..], s, p, c, mask);
  }

  /** The closed form of the earlier players, then the last player's block. */
  lemma PlayersJoin(s: seq<Order>, k: nat, ids: seq<JsString>, c: Coord, mask: u8)
    requires StableSort.Sorted(EngineCompare, s) && Utf16Order.StrictlyAscending(ids) && ids != []
    requires SplitsAt(s, k, ids[|ids| - 1])
    requires CellFold(s[..k], c, mask) == ClosedMask(s[..k], ids[..|ids| - 1], c, mask)
    ensures CellFold(s, c, mask) == ClosedMask(s, ids, c, mask)
  {
    var p, rest := ids[|ids| - 1], ids[..|ids| - 1];
    assert rest + [p] == ids;
    EarlierPlayers(s, k, rest, p, c, mask);
    LastPlayer(s, k, rest, p, c, CellFold(s[..k], c, mask));
    FoldSplit(s, k, c, mask);
  }

  lemma FoldSplit(s: seq<Order>, k: nat, c: Coord, mask: u8)
    requires k <= |s|
    ensures CellFold(s, c, mask) == CellFold(s[k..], c, CellFold(s[..k], c, mask))
  {
    CellFoldAppend(s[..k], s[k..], c, mask);
    assert s == s[..k] + s[k..];
  }

  predicate PlayedBy(s: seq<Order>, ids: seq<JsString>) {
    forall o :: o in s ==> o.player in ids
  }

  /** Where the block of the last player of the table begins. */
  lemma LastBlock(s: seq<Order>, ids: seq<JsString>) returns (k: nat)
    requires StableSort.Sorted(EngineCompare, s) && Utf16Order.StrictlyAscending(ids) && ids != [] && PlayedBy(s, ids)
    ensures k <= |s| && StableSort.Sorted(EngineCompare, s[..k])
    ensures Utf16Order.StrictlyAscending(ids[..|ids| - 1]) && PlayedBy(s[..k], ids[..|ids| - 1])
    ensures SplitsAt(s, k, ids[|ids| - 1])
  {
    forall o | o in s ensures Utf16Order.Compare(o.player, ids[|ids| - 1]) <= 0 {
      AtMostLast(ids, o.player);
    }
    k := SplitLastPlayer(s, ids[|ids| - 1]);
    FrontPlayers(ids, s[..k], s);
  }

  lemma {:induction false} PlayersFold(s: seq<Order>, ids: seq<JsString>, c: Coord, mask: u8)
    requires StableSort.Sorted(EngineCompare, s) && Utf16Order.StrictlyAscending(ids) && PlayedBy(s, ids)
    ensures CellFold(s, c, mask) == ClosedMask(s, ids, c, mask)
    decreases |ids|
  {
    if ids == [] {
      NobodyLeft(s, ids);
    } else {
      var k := LastBlock(s, ids);
      PlayersFold(s[..k], ids[..|ids| - 1], c, mask);
      PlayersJoin(s, k, ids, c, mask);
    }
  }

  lemma FrontPlayers(ids: seq<JsString>, front: seq<Order>, s: seq<Order>)
    requires ids != [] && front <= s && forall o :: o in s ==> o.player in ids
    requires forall o :: o in front ==> o.player != ids[|ids| - 1]
    ensures forall o :: o in front ==> o.player in ids[..|ids| - 1]
  {
    forall o | o in front ensures o.player in ids[..|ids| - 1] {
      assert o in s;
      assert ids == ids[..|ids| - 1] + [ids[|ids| - 1]];
    }
  }

  lemma SplitMembers(s: seq<Order>, k: nat, rest: seq<JsString>, p: JsString)
    requires SplitsAt(s, k, p) && Utf16Order.StrictlyAscending(rest + [p])
    ensures SameMembers(s[k..], s, p) && forall q :: q in rest ==> SameMembers(s[..k], s, q)
  {
    forall o: Order ensures o in s <==> o in s[..k] || o in s[k..] {
      assert s == s[..k] + s[k..];
    }
    forall q | q in rest ensures q != p {
      var j :| 0 <= j < |rest| && rest[j] == q;
      Utf16Order.AscendingFar(rest + [p], j, |rest|);
      Utf16Order.ZeroOnlyOnEqual(q, p);
    }
  }

  predicate Playable(pending: seq<Order>, b: Board, ids: seq<JsString>) {
    forall o :: o in pending ==> OnBoard(o, b) && o.player in ids
  }

  /** Phase 0 leaves on every cell the closed form, folded over the players in table order. */
  lemma PipesAfterPhaseZero(pending: seq<Order>, st: WorldState, b: Board, ids: seq<JsString>, c: Coord)
    requires InBounds(b, c) && |st.pipeMasks| == b.width * b.height
    requires Utf16Order.StrictlyAscending(ids) && Playable(pending, b, ids)
    ensures 0 <= FlatIndex(b, c) < |st.pipeMasks| == |PhaseZero(pending, st, b).pipeMasks|
    ensures PhaseZero(pending, st, b).pipeMasks[FlatIndex(b, c)]
            == ClosedMask(pending, ids, c, st.pipeMasks[FlatIndex(b, c)])
  {
    var sorted := StableSort.Sort(EngineCompare, pending);
    CellIndexInRange(c, b.width, b.height);
    forall o ensures o in sorted <==> o in pending {
      StableSort.SortMembers(EngineCompare, pending, o);
    }
    EngineIsConsistent();
    StableSort.SortSorted(EngineCompare, pending);
    FoldCellwise(sorted, st, b, c);
    PlayersFold(sorted, ids, c, st.pipeMasks[FlatIndex(b, c)]);
    ClosedMaskMembers(sorted, pending, ids, c, st.pipeMasks[FlatIndex(b, c)]);
  }

  lemma CellOfIndex(i: nat, width: int, height: int) returns (c: Coord)
    requires width > 0 && i < width * height
    ensures 0 <= c.x < width && 0 <= c.y < height && CellIndex(c, width) == i
  {
    c := Coord(i % width, i / width);
    assert i == (i / width) * width + i % width;
    MultipleOfWidth(i / width - height, width);
  }

  /** The pipe masks depend only on which orders were staged, never on the staging order. */
  lemma PipesIgnoreStagingOrder(p: seq<Order>, q: seq<Order>, st: WorldState, b: Board, ids: seq<JsString>)
    requires b.width > 0 && |st.pipeMasks| == b.width * b.height
    requires Utf16Order.StrictlyAscending(ids) && Playable(p, b, ids)
    requires multiset(p) == multiset(q)
    ensures PhaseZero(p, st, b).pipeMasks == PhaseZero(q, st, b).pipeMasks
  {
    forall o ensures o in p <==> o in q {
      assert o in p <==> o in multiset(p);
      assert o in q <==> o in multiset(q);
    }
    var a, z := PhaseZero(p, st, b).pipeMasks, PhaseZero(q, st, b).pipeMasks;
    if |st.pipeMasks| > 0 {
      forall i | 0 <= i < |st.pipeMasks| ensures |a| == |z| == |st.pipeMasks| && a[i] == z[i] {
        var c := CellOfIndex(i, b.width, b.height);
        PipesAfterPhaseZero(p, st, b, ids, c);
        PipesAfterPhaseZero(q, st, b, ids, c);
        ClosedMaskMembers(p, q, ids, c, st.pipeMasks[i]);
      }
    }
    FoldKeepsLength(StableSort.Sort(EngineCompare, p), st, b);
    FoldKeepsLength(StableSort.Sort(EngineCompare, q), st, b);
  }

  lemma {:induction false} FoldKeepsLength(orders: seq<Order>, st: WorldState, b: Board)
    ensures |Fold(orders, st, b).pipeMasks| == |st.pipeMasks| && |Fold(orders, st, b).reservesPct| == |st.reservesPct|
  {
    if orders != [] {
      FoldKeepsLength(orders[..|orders| - 1], st, b);
    }
  }

  // Reserve settings: the one place where staging order shows -----------------

  predicate SetsReserves(o: Order, c: Coord) {
    o.SetReserves? && o.cell == c
  }

  function ReserveOrders(s: seq<Order>, c: Coord): seq<Order> {
    StableSort.Filter(o => SetsReserves(o, c), s)
  }

  /** The order that wins: of the greatest player, the one staged last. */
  function Winner(s: seq<Order>): (w: Order)
    requires s != []
    ensures w in s
  {
    if |s| == 1 then s[0]
    else var w := Winner(s[1..]); if Utf16Order.Compare(s[0].player, w.player) <= 0 then w else s[0]
  }

  predicate AllSetReserves(s: seq<Order>, c: Coord) {
    forall i :: 0 <= i < |s| ==> SetsReserves(s[i], c)
  }

  /** The order left last by inserting `x` into `s`. */
  function LastAfter(x: Order, s: seq<Order>): Order
    requires s != []
  {
    if Utf16Order.Compare(x.player, s[|s| - 1].player) <= 0 then s[|s| - 1] else x
  }

  lemma EndsInCons(y: Order, r: seq<Order>, w: Order, c: Coord)
    requires SetsReserves(y, c) && EndsIn(r, w, c)
    ensures EndsIn([y] + r, w, c)
  {
  }

  lemma {:induction false} InsertLast(x: Order, s: seq<Order>, c: Coord)
    requires s != [] && SetsReserves(x, c) && AllSetReserves(s, c) && StableSort.Sorted(EngineCompare, s)
    ensures EndsIn(StableSort.Insert(EngineCompare, x, s), LastAfter(x, s), c)
  {
    var y, z := s[0], s[|s| - 1];
    SameCellOrder(x, y, c);
    if EngineCompare(x, y) <= 0 {
      assert LastAfter(x, s) == z by {
        SameCellOrder(y, z, c);
        Utf16Order.ZeroOnlyOnEqual(y.player, y.player);
        Utf16Order.Transitive(x.player, y.player, z.player);
      }
      EndsInCons(x, s, z, c);
    } else if |s| > 1 {
      InsertLast(x, s[1..], c);
      EndsInCons(y, StableSort.Insert(EngineCompare, x, s[1..]), LastAfter(x, s), c);
    }
  }

  /** Between two reserve orders for one cell the engine looks at the players only. */
  lemma SameCellOrder(a: Order, b: Order, c: Coord)
    requires SetsReserves(a, c) && SetsReserves(b, c)
    ensures EngineCompare(a, b) <= 0 <==> Utf16Order.Compare(a.player, b.player) <= 0
  {
    EngineOrder(a, b);
    Utf16Order.ZeroOnlyOnEqual(a.player, b.player);
  }

  predicate EndsIn(r: seq<Order>, w: Order, c: Coord) {
    r != [] && AllSetReserves(r, c) && r[|r| - 1] == w
  }

  lemma WinnerStep(s: seq<Order>, t: seq<Order>, c: Coord)
    requires |s| > 1 && SetsReserves(s[0], c) && EndsIn(t, Winner(s[1..]), c) && StableSort.Sorted(EngineCompare, t)
    ensures EndsIn(StableSort.Insert(EngineCompare, s[0], t), Winner(s), c)
  {
    InsertLast(s[0], t, c);
  }

  lemma {:induction false} SortedEndsInWinner(s: seq<Order>, c: Coord)
    requires s != [] && AllSetReserves(s, c)
    ensures EndsIn(StableSort.Sort(EngineCompare, s), Winner(s), c)
  {
    if |s| == 1 {
      assert StableSort.Sort(EngineCompare, s) == s by {
        assert StableSort.Sort(EngineCompare, s[1..]) == [];
      }
    } else {
      var t := StableSort.Sort(EngineCompare, s[1..]);
      SortedEndsInWinner(s[1..], c);
      assert StableSort.Sorted(EngineCompare, t) by {
        EngineIsConsistent();
        StableSort.SortSorted(EngineCompare, s[1..]);
      }
      WinnerStep(s, t, c);
    }
  }

  lemma {:induction false} FoldReserves(s: seq<Order>, st: WorldState, b: Board, c: Coord)
    requires InBounds(b, c) && 0 <= FlatIndex(b, c) < |st.reservesPct|
    requires forall i :: 0 <= i < |s| ==> OnBoard(s[i], b)
    ensures |Fold(s, st, b).reservesPct| == |st.reservesPct|
    ensures var r := ReserveOrders(s, c);
            && (forall i :: 0 <= i < |r| ==> r[i].SetReserves?)
            && Fold(s, st, b).reservesPct[FlatIndex(b, c)]
               == if r == [] then st.reservesPct[FlatIndex(b, c)] else LowByte(r[|r| - 1].percent)
  {
    if s != [] {
      var n := |s| - 1;
      FoldReserves(s[..n], st, b, c);
      ReserveOrdersGrow(s[..n], s[n], c);
      assert s == s[..n] + [s[n]];
      OneReserve(s[n], Fold(s[..n], st, b), b, c);
    }
  }

  lemma ReserveOrdersGrow(s: seq<Order>, o: Order, c: Coord)
    ensures ReserveOrders(s + [o], c) == ReserveOrders(s, c) + if SetsReserves(o, c) then [o] else []
  {
    StableSort.FilterAppend(o => SetsReserves(o, c), s, [o]);
    assert StableSort.Filter(o => SetsReserves(o, c), [o]) == if SetsReserves(o, c) then [o] else [];
  }

  lemma OneReserve(o: Order, st: WorldState, b: Board, c: Coord)
    requires InBounds(b, c) && 0 <= FlatIndex(b, c) < |st.reservesPct| && OnBoard(o, b)
    ensures var st' := DispatchOrderEffect(o, st, b);
            && |st'.reservesPct| == |st.reservesPct|
            && st'.reservesPct[FlatIndex(b, c)]
               == if SetsReserves(o, c) then LowByte(o.percent) else st.reservesPct[FlatIndex(b, c)]
  {
    if o.SetReserves? && FlatIndex(b, o.cell) == FlatIndex(b, c) {
      CellIndexUnique(o.cell, c, b.width);
    }
  }

  lemma FilteredSetReserves(s: seq<Order>, c: Coord)
    ensures AllSetReserves(ReserveOrders(s, c), c)
  {
    var r := ReserveOrders(s, c);
    forall i | 0 <= i < |r| ensures SetsReserves(r[i], c) {
      assert r[i] in r;
    }
  }

  /** The reserve setting a cell has after phase 0, given its setting before. */
  function ReserveAfter(pending: seq<Order>, c: Coord, before: u8): u8 {
    FilteredSetReserves(pending, c);
    var r := ReserveOrders(pending, c);
    if r == [] then before else assert AllSetReserves(r, c); LowByte(Winner(r).percent)
  }

  /** Phase 0 leaves on a cell the percentage staged last by the greatest player who staged one. */
  lemma ReservesAfterPhaseZero(pending: seq<Order>, st: WorldState, b: Board, c: Coord)
    requires InBounds(b, c) && |st.reservesPct| == b.width * b.height
    requires forall o :: o in pending ==> OnBoard(o, b)
    ensures 0 <= FlatIndex(b, c) < |st.reservesPct| == |PhaseZero(pending, st, b).reservesPct|
    ensures PhaseZero(pending, st, b).reservesPct[FlatIndex(b, c)]
            == ReserveAfter(pending, c, st.reservesPct[FlatIndex(b, c)])
  {
    var sorted := StableSort.Sort(EngineCompare, pending);
    CellIndexInRange(c, b.width, b.height);
    forall i | 0 <= i < |sorted| ensures OnBoard(sorted[i], b) {
      assert sorted[i] in sorted;
      StableSort.SortMembers(EngineCompare, pending, sorted[i]);
    }
    FoldReserves(sorted, st, b, c);
    EngineIsConsistent();
    StableSort.SortFilterCommute(EngineCompare, o => SetsReserves(o, c), pending);
    FilteredSetReserves(pending, c);
    if ReserveOrders(pending, c) != [] {
      SortedEndsInWinner(ReserveOrders(pending, c), c);
    }
  }

  lemma {:induction false} WinnerIsGreatest(s: seq<Order>, o: Order)
    requires o in s
    ensures Utf16Order.Compare(o.player, Winner(s).player) <= 0
  {
    Utf16Order.ZeroOnlyOnEqual(o.player, o.player);
    if |s| > 1 {
      var w := Winner(s[1..]);
      Utf16Order.Antisymmetric(s[0].player, w.player);
      if o in s[1..] {
        WinnerIsGreatest(s[1..], o);
        if Utf16Order.Compare(s[0].player, w.player) > 0 {
          Utf16Order.Transitive(o.player, w.player, s[0].player);
        }
      }
    }
  }

  lemma {:induction false} GreatestLastWins(s: seq<Order>)
    requires s != [] && forall o :: o in s ==> Utf16Order.Compare(o.player, s[|s| - 1].player) <= 0
    ensures Winner(s) == s[|s| - 1]
  {
    if |s| > 1 {
      assert s[0] in s;
      GreatestLastWins(s[1..]);
    }
  }

  /** Two reserve orders of the cell's deciding player disagree. */
  ghost predicate ReserveConflict(pending: seq<Order>, c: Coord) {
    exists p, x, y ::
      && SetReserves(p, c, x) in pending && SetReserves(p, c, y) in pending && LowByte(x) != LowByte(y)
      && forall o :: o in pending && SetsReserves(o, c) ==> Utf16Order.Compare(o.player, p) <= 0
  }

  lemma StagedLast(pending: seq<Order>, o: Order, c: Coord) returns (q: seq<Order>)
    requires o in pending && SetsReserves(o, c)
    requires forall e :: e in pending && SetsReserves(e, c) ==> Utf16Order.Compare(e.player, o.player) <= 0
    ensures multiset(q) == multiset(pending)
    ensures forall before :: ReserveAfter(q, c, before) == LowByte(o.percent)
  {
    var k :| 0 <= k < |pending| && pending[k] == o;
    var rest := pending[..k] + pending[k + 1..];
    assert pending == pending[..k] + [o] + pending[k + 1..];
    q := rest + [o];
    var keep := e => SetsReserves(e, c);
    StableSort.FilterAppend(keep, rest, [o]);
    assert StableSort.Filter(keep, [o]) == [o];
    var r := ReserveOrders(q, c);
    assert r[|r| - 1] == o;
    forall e | e in r ensures Utf16Order.Compare(e.player, o.player) <= 0 {
      assert e in q;
      assert e in multiset(q);
      assert e in pending;
    }
    GreatestLastWins(r);
  }

  lemma AgreeingReserves(p: seq<Order>, q: seq<Order>, c: Coord, before: u8)
    requires multiset(p) == multiset(q) && !ReserveConflict(p, c)
    ensures ReserveAfter(p, c, before) == ReserveAfter(q, c, before)
  {
    var keep := o => SetsReserves(o, c);
    var r, t := ReserveOrders(p, c), ReserveOrders(q, c);
    forall o ensures o in r <==> o in t {
      StableSort.FilterKeeps(keep, p, o);
      StableSort.FilterKeeps(keep, q, o);
      assert o in p <==> o in multiset(p);
      assert o in q <==> o in multiset(q);
    }
    if r != [] && t != [] {
      var v, w := Winner(r), Winner(t);
      WinnerIsGreatest(r, w);
      WinnerIsGreatest(t, v);
      Utf16Order.Antisymmetric(v.player, w.player);
      Utf16Order.ZeroOnlyOnEqual(v.player, w.player);
      forall o | o in p && SetsReserves(o, c) ensures Utf16Order.Compare(o.player, v.player) <= 0 {
        StableSort.FilterKeeps(keep, p, o);
        WinnerIsGreatest(r, o);
      }
      assert v == SetReserves(v.player, c, v.percent) && w == SetReserves(v.player, c, w.percent);
      assert v in p && w in p;
    } else {
      SameEmptiness(r, t);
    }
  }

  lemma SameEmptiness(r: seq<Order>, t: seq<Order>)
    requires forall o :: o in r <==> o in t
    ensures r == [] <==> t == []
  {
    if r != [] {
      assert r[0] in t by {
        assert r[0] in r;
      }
    }
    if t != [] {
      assert t[0] in r by {
        assert t[0] in t;
      }
    }
  }

  /** The reserve setting of a cell is the same for every staging order exactly when the deciding
      player's staged percentages for it agree. */
  lemma ReservesIgnoreStagingOrderIff(pending: seq<Order>, c: Coord, before: u8)
    ensures (forall q :: multiset(q) == multiset(pending) ==> ReserveAfter(q, c, before) == ReserveAfter(pending, c, before))
            <==> !ReserveConflict(pending, c)
  {
    if !ReserveConflict(pending, c) {
      forall q | multiset(q) == multiset(pending)
        ensures ReserveAfter(q, c, before) == ReserveAfter(pending, c, before)
      {
        AgreeingReserves(pending, q, c, before);
      }
    } else {
      var p, x, y :|
        && SetReserves(p, c, x) in pending && SetReserves(p, c, y) in pending && LowByte(x) != LowByte(y)
        && forall o :: o in pending && SetsReserves(o, c) ==> Utf16Order.Compare(o.player, p) <= 0;
      var q := StagedLast(pending, SetReserves(p, c, x), c);
      var t := StagedLast(pending, SetReserves(p, c, y), c);
      assert ReserveAfter(q, c, before) != ReserveAfter(t, c, before);
    }
  }
}
