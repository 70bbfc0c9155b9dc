/** The path of an order from a connection to the engine's staging queue: the channel's pending
    queue, its sorted drain, and the engine's side table of queues keyed by world object
    (packages/networking/src/match-channel.ts, orders.ts; packages/engine/src/applyCommand.ts). */
module OrderPipeline {
  import opened Js
  import opened EngineTypes
  import opened Orders
  import PR = PlayerRegistry
  import StableSort
  import Utf16Order

  // The channel's queue ------------------------------------------------------

  datatype PendingOrder = PendingOrder(playerId: JsString, order: Order, submittedAtSeq: nat)

  datatype ConnectionRole = PlayerRole | SpectatorRole

  datatype ConnectionState = Pending | Greeted | Joined | Rejoined | Disconnected | Expired | Terminal | Closed

  datatype Rejection = SpectatorReadonly | ProtocolSequence | MalformedOrder | NoSeat | PlayerMismatch

  function PendingCompare(a: PendingOrder, b: PendingOrder): int {
    var byPlayer := Utf16Order.Compare(a.playerId, b.playerId);
    if byPlayer != 0 then byPlayer else Utf16Order.Compare(Kind(a.order), Kind(b.order))
  }

  function OrderOf(p: PendingOrder): Order {
    p.order
  }

  class MatchChannel {
    var pendingOrders: seq<PendingOrder>

    /** Every queued order was submitted by the seat it names, a canonical identity. */
    ghost predicate Valid()
      reads this
    {
      forall p :: p in pendingOrders ==> p.playerId == p.order.player && PR.IsPlayerId(p.playerId)
    }

    function Arrived(): seq<Order>
      reads this
    {
      StableSort.Map(OrderOf, pendingOrders)
    }

    constructor ()
      ensures Valid() && pendingOrders == []
    {
      pendingOrders := [];
    }

    method EnqueueOrder(playerId: JsString, order: Order, submittedAtSeq: nat)
      modifies this
      ensures pendingOrders == old(pendingOrders) + [PendingOrder(playerId, order, submittedAtSeq)]
    {
      pendingOrders := pendingOrders + [PendingOrder(playerId, order, submittedAtSeq)];
    }

    method DrainOrdersForTick() returns (sorted: seq<PendingOrder>)
      requires Valid()
      modifies this
      ensures Valid() && pendingOrders == []
      ensures sorted == StableSort.Sort(PendingCompare, old(pendingOrders))
      ensures StableSort.Map(OrderOf, sorted) == StableSort.Sort(DrainCompare, old(Arrived()))
      ensures multiset(sorted) == multiset(old(pendingOrders))
    {
      sorted := StableSort.Sort(PendingCompare, pendingOrders);
      StableSort.SortMultiset(PendingCompare, pendingOrders);
      StableSort.SortMap(PendingCompare, DrainCompare, OrderOf, pendingOrders);
      pendingOrders := [];
    }
  }

  /** `validateOrderShape` on a value that has the fields of its kind: its player is a canonical identity. */
  predicate WellShaped(order: Order) {
    PR.IsPlayerId(order.player)
  }

  /** `acceptOrder`: the gate that keeps the queue's seat identities honest. */
  method AcceptOrder(channel: MatchChannel, role: ConnectionRole, state: ConnectionState, playerId: Option<JsString>,
                     order: Order, lastClientSeq: nat) returns (r: Option<Rejection>)
    requires channel.Valid()
    modifies channel
    ensures channel.Valid()
    ensures r.None? <==> && role == PlayerRole && (state == Joined || state == Rejoined)
                         && PR.IsPlayerId(order.player) && playerId == Some(order.player)
    ensures r == Some(SpectatorReadonly) <==> role == SpectatorRole
    ensures r == Some(ProtocolSequence) <==> role == PlayerRole && state != Joined && state != Rejoined
    ensures r == Some(MalformedOrder) <==> role == PlayerRole && (state == Joined || state == Rejoined)
                                           && !PR.IsPlayerId(order.player)
    ensures r == Some(NoSeat) ==> playerId.None?
    ensures r.None? ==> channel.Arrived() == old(channel.Arrived()) + [order]
    ensures r.Some? ==> channel.pendingOrders == old(channel.pendingOrders)
  {
    if role == SpectatorRole {
      return Some(SpectatorReadonly);
    }
    if state != Joined && state != Rejoined {
      return Some(ProtocolSequence);
    }
    if !WellShaped(order) {
      return Some(MalformedOrder);
    }
    if playerId.None? {
      return Some(NoSeat);
    }
    if order.player != playerId.value {
      return Some(PlayerMismatch);
    }
    channel.EnqueueOrder(playerId.value, order, lastClientSeq);
    return None;
  }

  // The engine's staging side table ------------------------------------------

  /** A world object; its queue is found by object identity. */
  class WorldRef {
    const value: World

    constructor (value: World)
      ensures this.value == value
    {
      this.value := value;
    }
  }

  class StagingTable {
    var entries: map<WorldRef, seq<Order>>

    constructor ()
      ensures entries == map[]
    {
      entries := map[];
    }

    function ReadPendingOrders(w: WorldRef): seq<Order>
      reads this
    {
      if w in entries then entries[w] else []
    }

    method WithPendingOrders(w: WorldRef, pendingOrders: seq<Order>) returns (r: WorldRef)
      modifies this
      ensures r == w && entries == old(entries)[w := pendingOrders]
    {
      entries := entries[w := pendingOrders];
      r := w;
    }

    /** A staged order lands in the queue of the very world object that was passed in; a surrender
        builds a new world object that inherits the queue. */
    method ApplyCommand(w: WorldRef, cmd: Order) returns (next: WorldRef, result: CommandResult)
      modifies this
      ensures (next.value, ReadPendingOrders(next), result) == StageCommand(w.value, old(ReadPendingOrders(w)), cmd)
      ensures if cmd.Surrender? && result.Accepted? then fresh(next) else next == w
      ensures forall other: WorldRef :: allocated(other) && old(allocated(other)) && other != next ==>
                ReadPendingOrders(other) == old(ReadPendingOrders(other))
    {
      result := ValidateCommand(w.value, cmd);
      if result.Rejected? {
        return w, result;
      }
      if cmd.Surrender? {
        next := new WorldRef(MarkSurrendered(w.value, cmd.player));
        var pending := ReadPendingOrders(w);
        if |pending| > 0 {
          next := WithPendingOrders(next, pending);
        }
        return next, Accepted;
      }
      var pending := ReadPendingOrders(w);
      next := WithPendingOrders(w, pending + [cmd]);
      return next, Accepted;
    }
  }

  class EngineSession {
    var current: WorldRef
    const staging: StagingTable

    constructor (world: World)
      ensures current.value == world && Staged() == [] && fresh(staging)
    {
      current := new WorldRef(world);
      staging := new StagingTable();
    }

    function Staged(): seq<Order>
      reads this, staging
    {
      staging.ReadPendingOrders(current)
    }

    method Submit(order: Order) returns (result: CommandResult)
      modifies this, staging
      ensures (current.value, Staged(), result) == StageCommand(old(current.value), old(Staged()), order)
    {
      var next;
      next, result := staging.ApplyCommand(current, order);
      current := next;
    }
  }

  /** What each order of a batch draws, submitted one at a time, with the sequence number it is acknowledged by. */
  function Outcomes(w: World, pending: seq<Order>, batch: seq<PendingOrder>): seq<(JsString, CommandResult, nat)>
    decreases |batch|
  {
    if batch == [] then [] else
    var (next, queue, result) := StageCommand(w, pending, batch[0].order);
    [(batch[0].playerId, result, batch[0].submittedAtSeq)] + Outcomes(next, queue, batch[1..])
  }

  /** `applyOrdersAtTickBoundary`: drain in sorted order, submit one by one. The engine will sort
      the same queue as if the orders had been submitted in arrival order. */
  method ApplyOrdersAtTickBoundary(channel: MatchChannel, session: EngineSession)
    returns (outcomes: seq<(JsString, CommandResult, nat)>)
    requires channel.Valid()
    modifies channel, session, session.staging
    ensures channel.Valid() && channel.pendingOrders == []
    ensures outcomes == Outcomes(old(session.current.value), old(session.Staged()),
                                 StableSort.Sort(PendingCompare, old(channel.pendingOrders)))
    ensures (session.current.value, session.Staged())
            == StageAll(old(session.current.value), old(session.Staged()), StableSort.Sort(DrainCompare, old(channel.Arrived())))
    ensures StableSort.Sort(EngineCompare, session.Staged())
            == StableSort.Sort(EngineCompare,
                 StageAll(old(session.current.value), old(session.Staged()), old(channel.Arrived())).1)
  {
    ghost var w, pending := session.current.value, session.Staged();
    DrainOrderIsInvisible(w, pending, channel.Arrived());
    var drained := channel.DrainOrdersForTick();
    ghost var orders := StableSort.Map(OrderOf, drained);
    outcomes := [];
    for i := 0 to |drained|
      invariant channel.Valid() && channel.pendingOrders == []
      invariant outcomes + Outcomes(session.current.value, session.Staged(), drained[i..]) == Outcomes(w, pending, drained)
      invariant StageAll(session.current.value, session.Staged(), orders[i..]) == StageAll(w, pending, orders)
    {
      var result := session.Submit(drained[i].order);
      assert orders[i..][0] == drained[i].order && orders[i..][1..] == orders[i + 1..];
      assert drained[i..][0] == drained[i] && drained[i..][1..] == drained[i + 1..];
      StableSort.Associative(outcomes, [(drained[i].playerId, result, drained[i].submittedAtSeq)],
                             Outcomes(session.current.value, session.Staged(), drained[i + 1..]));
      outcomes := outcomes + [(drained[i].playerId, result, drained[i].submittedAtSeq)];
    }
  }
}
