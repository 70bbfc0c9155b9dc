/** Skip-send tick broadcasts (packages/networking/src/broadcast.ts): views are compared field by field and
    sent only when they differ from the last one sent. */
module Broadcast {
  import opened Js
  import opened EngineTypes
  import opened Orders
  import opened PlayerView

  // Comparing views ----------------------------------------------------------

  predicate SameCounts(a: TickEvents, b: TickEvents) {
    && |a.combat| == |b.combat| && |a.captures| == |b.captures| && |a.eliminations| == |b.eliminations|
    && |a.appliedOrders| == |b.appliedOrders| && |a.errors| == |b.errors|
  }

  /** What `viewsEqual` tells apart: everything but the view's own tick and the contents of its events. */
  predicate Equivalent(a: View, b: View) {
    a == b.(tick := a.tick, events := a.events) && SameCounts(a.events, b.events)
  }

  method SetsEqual(a: set<Direction>, b: set<Direction>) returns (r: bool)
    ensures r <==> a == b
  {
    if |a| != |b| {
      return false;
    }
    var rest := a;
    while rest != {}
      invariant rest <= a && a - rest <= b
      decreases |rest|
    {
      var value :| value in rest;
      if value !in b {
        return false;
      }
      rest := rest - {value};
    }
    SubsetOfSameSize(a, b);
    return true;
  }

  method CellViewsEqual(a: CellView, b: CellView) returns (r: bool)
    ensures r <==> a == b
  {
    if a.coord.x != b.coord.x || a.coord.y != b.coord.y || a.cell.x != b.cell.x || a.cell.y != b.cell.y
       || a.cell.elevation != b.cell.elevation || a.cell.terrain != b.cell.terrain
       || a.troopCount != b.troopCount || a.troopOwner != b.troopOwner {
      return false;
    }
    var pipes := SetsEqual(a.pipes, b.pipes);
    return pipes && a.reservesPercent == b.reservesPercent && a.cityOwner == b.cityOwner;
  }

  method StringArraysEqual(a: seq<JsString>, b: seq<JsString>) returns (r: bool)
    ensures r <==> a == b
  {
    if |a| != |b| {
      return false;
    }
    for i := 0 to |a|
      invariant a[..i] == b[..i]
    {
      if a[i] != b[i] {
        return false;
      }
    }
    return true;
  }

  method ViewsEqual(a: View, b: View) returns (r: bool)
    ensures r <==> Equivalent(a, b)
  {
    if a.player != b.player {
      return false;
    }
    var ids := StringArraysEqual(a.config.playerIds, b.config.playerIds);
    if a.config.boardSize != b.config.boardSize || a.config.tickIntervalMs != b.config.tickIntervalMs
       || a.config.seed != b.config.seed || a.config.visibilityRadius != b.config.visibilityRadius || !ids {
      return false;
    }
    if |a.events.combat| != |b.events.combat| || |a.events.captures| != |b.events.captures|
       || |a.events.eliminations| != |b.events.eliminations|
       || |a.events.appliedOrders| != |b.events.appliedOrders| || |a.events.errors| != |b.events.errors| {
      return false;
    }
    if |a.visibleCells| != |b.visibleCells| {
      return false;
    }
    for i := 0 to |a.visibleCells|
      invariant a.visibleCells[..i] == b.visibleCells[..i]
    {
      var same := CellViewsEqual(a.visibleCells[i], b.visibleCells[i]);
      if !same {
        return false;
      }
    }
    return true;
  }

  /** The comparison is an equivalence relation. */
  lemma EquivalentIsEquivalence(a: View, b: View, c: View)
    ensures Equivalent(a, a)
    ensures Equivalent(a, b) <==> Equivalent(b, a)
    ensures Equivalent(a, b) && Equivalent(b, c) ==> Equivalent(a, c)
  {
    if Equivalent(a, b) {
      assert b == a.(tick := b.tick, events := b.events);
      if Equivalent(b, c) {
        assert a == c.(tick := a.tick, events := a.events);
      }
    }
    if Equivalent(b, a) {
      assert a == b.(tick := a.tick, events := a.events);
    }
  }

  // The channel --------------------------------------------------------------

  datatype Connection = Connection(id: JsString, isSpectator: bool, playerId: Option<JsString>)

  datatype Entry = Skip | Payload(tick: nat, view: View)

  /** One connection object per id among the live ones. */
  predicate OnePerId(live: seq<Connection>) {
    forall c, d :: c in live && d in live && c.id == d.id ==> c == d
  }

  /** A connection is skipped exactly when the last view sent to it is equivalent to the fresh one. */
  predicate Skipped(lastSent: map<JsString, View>, c: Connection, shown: View) {
    c.id in lastSent && Equivalent(lastSent[c.id], shown)
  }

  predicate Due(lastSent: map<JsString, View>, tick: nat, c: Connection, shown: View, e: Entry) {
    e == if Skipped(lastSent, c, shown) then Skip else Payload(tick, shown)
  }

  function CountSent(live: seq<Connection>, broadcast: map<JsString, Entry>): nat {
    if live == [] then 0 else
    (if live[0].id in broadcast && broadcast[live[0].id].Payload? then 1 else 0) + CountSent(live[1..], broadcast)
  }

  /** A table of last views after a broadcast went out. */
  function SentTo(table: map<JsString, View>, live: seq<Connection>, broadcast: map<JsString, Entry>): map<JsString, View>
    decreases |live|
  {
    if live == [] then table else
    var id := live[0].id;
    SentTo(if id in broadcast && broadcast[id].Payload? then table[id := broadcast[id].view] else table, live[1..], broadcast)
  }

  predicate Reaches(live: seq<Connection>, broadcast: map<JsString, Entry>, id: JsString) {
    (exists c :: c in live && c.id == id) && id in broadcast && broadcast[id].Payload?
  }

  /** A connection with a payload ends with that view; every other keeps what it had. */
  lemma {:induction false} SentToExactly(table: map<JsString, View>, live: seq<Connection>, broadcast: map<JsString, Entry>,
                                         id: JsString)
    ensures var after := SentTo(table, live, broadcast);
            if Reaches(live, broadcast, id) then id in after && after[id] == broadcast[id].view
            else (id in after <==> id in table) && (id in table ==> after[id] == table[id])
    decreases |live|
  {
    if live != [] {
      var first := live[0].id;
      var table' := if first in broadcast && broadcast[first].Payload? then table[first := broadcast[first].view] else table;
      SentToExactly(table', live[1..], broadcast, id);
      assert live == [live[0]] + live[1..];
      assert (exists c :: c in live && c.id == id) <==> first == id || (exists c :: c in live[1..] && c.id == id) by {
        if first == id {
          assert live[0] in live;
        }
        if c :| c in live[1..] && c.id == id {
          assert c in live;
        }
      }
    }
  }

  class MatchChannel {
    var lastSentView: map<JsString, View>
    var tickCounter: nat
    /** The last view each connection was sent, as its client holds it. */
    ghost var held: map<JsString, View>

    constructor ()
      ensures lastSentView == map[] && held == map[]
    {
      lastSentView, tickCounter, held := map[], 0, map[];
    }

    method BuildTickBroadcast(live: seq<Connection>, fog: Connection -> View) returns (broadcast: map<JsString, Entry>)
      requires OnePerId(live)
      ensures forall id :: id in broadcast <==> exists c :: c in live && c.id == id
      ensures forall c :: c in live ==> Due(lastSentView, tickCounter, c, fog(c), broadcast[c.id])
    {
      broadcast := map[];
      for i := 0 to |live|
        invariant forall id :: id in broadcast <==> exists c :: c in live[..i] && c.id == id
        invariant forall c :: c in live[..i] ==> c.id in broadcast && Due(lastSentView, tickCounter, c, fog(c), broadcast[c.id])
      {
        var connection := live[i];
        var view := fog(connection);
        var entry := Payload(tickCounter, view);
        if connection.id in lastSentView {
          var same := ViewsEqual(lastSentView[connection.id], view);
          if same {
            entry := Skip;
          }
        }
        forall c | c in live[..i] && c.id == connection.id ensures c == connection {
          assert c in live && connection in live;
        }
        broadcast := broadcast[connection.id := entry];
        assert live[..i + 1] == live[..i] + [connection];
      }
      assert live[..|live|] == live;
    }

    method SendTickBroadcast(live: seq<Connection>, broadcast: map<JsString, Entry>) returns (sent: nat)
      modifies this
      ensures tickCounter == old(tickCounter)
      ensures sent == CountSent(live, broadcast)
      ensures lastSentView == SentTo(old(lastSentView), live, broadcast)
      ensures held == SentTo(old(held), live, broadcast)
    {
      sent := 0;
      for i := 0 to |live|
        invariant tickCounter == old(tickCounter)
        invariant sent + CountSent(live[i..], broadcast) == CountSent(live, broadcast)
        invariant SentTo(lastSentView, live[i..], broadcast) == SentTo(old(lastSentView), live, broadcast)
        invariant SentTo(held, live[i..], broadcast) == SentTo(old(held), live, broadcast)
      {
        var connection := live[i];
        assert live[i..][0] == connection && live[i..][1..] == live[i + 1..];
        if connection.id in broadcast && broadcast[connection.id].Payload? {
          var payload := broadcast[connection.id];
          held := held[connection.id := payload.view];
          lastSentView := lastSentView[connection.id := payload.view];
          sent := sent + 1;
        }
      }
      assert live[|live|..] == [];
    }

    /** One tick: however many ticks were skipped before, each live connection then holds a view with the fresh
        view's player, config, cells and event counts: the fresh view itself unless it was skipped, else the view
        it had. Its events are the fresh ones exactly when it was not skipped or already held them. */
    method Tick(live: seq<Connection>, fog: Connection -> View) returns (sent: nat)
      requires OnePerId(live) && held == lastSentView
      modifies this
      ensures held == lastSentView && tickCounter == old(tickCounter)
      ensures forall c :: c in live ==> c.id in held && Equivalent(held[c.id], fog(c))
      ensures forall c :: c in live ==>
                held[c.id] == if Skipped(old(held), c, fog(c)) then old(held)[c.id] else fog(c)
      ensures forall c :: c in live ==>
                (held[c.id].events == fog(c).events <==>
                 !Skipped(old(held), c, fog(c)) || old(held)[c.id].events == fog(c).events)
      ensures forall id :: id in old(held) && (forall c :: c in live ==> c.id != id) ==>
                id in held && held[id] == old(held)[id]
    {
      ghost var before := lastSentView;
      var broadcast := BuildTickBroadcast(live, fog);
      sent := SendTickBroadcast(live, broadcast);
      forall c | c in live
        ensures c.id in held && Equivalent(held[c.id], fog(c))
        ensures held[c.id] == if Skipped(before, c, fog(c)) then before[c.id] else fog(c)
      {
        SentToExactly(before, live, broadcast, c.id);
        assert Due(before, tickCounter, c, fog(c), broadcast[c.id]);
      }
      forall id | id in before && (forall c :: c in live ==> c.id != id) ensures id in held && held[id] == before[id] {
        SentToExactly(before, live, broadcast, id);
      }
    }
  }

  // What the comparison cannot see -------------------------------------------

  /** Another event list of the same counts, different in its first entry, if there is one. */
  function Disturbed(e: TickEvents): TickEvents {
    if e.combat != [] then e.(combat := e.combat[0 := e.combat[0].(tick := e.combat[0].tick + 1)])
    else if e.captures != [] then e.(captures := e.captures[0 := e.captures[0].(tick := e.captures[0].tick + 1)])
    else if e.eliminations != [] then
      e.(eliminations := e.eliminations[0 := e.eliminations[0].(tick := e.eliminations[0].tick + 1)])
    else if e.appliedOrders != [] then
      e.(appliedOrders := e.appliedOrders[0 := e.appliedOrders[0].(tick := e.appliedOrders[0].tick + 1)])
    else if e.errors != [] then
      e.(errors := e.errors[0 := e.errors[0].(order := Surrender(e.errors[0].order.player + [0]))])
    else e
  }

  lemma DisturbedDiffers(e: TickEvents)
    ensures SameCounts(e, Disturbed(e))
    ensures Disturbed(e) == e <==> e == NO_EVENTS
  {
    var d := Disturbed(e);
    if e.combat != [] {
      assert d.combat[0] != e.combat[0];
    } else if e.captures != [] {
      assert d.captures[0] != e.captures[0];
    } else if e.eliminations != [] {
      assert d.eliminations[0] != e.eliminations[0];
    } else if e.appliedOrders != [] {
      assert d.appliedOrders[0] != e.appliedOrders[0];
    } else if e.errors != [] {
      LongerPlayer(e.errors[0].order.player);
      assert d.errors[0].order.player != e.errors[0].order.player;
    }
  }

  lemma LongerPlayer(p: JsString)
    ensures p + [0] != p
  {
    assert |p + [0]| != |p|;
  }

  /** Equality by the comparison means equality of everything but the tick exactly for views without events. */
  lemma EquivalentIsExactIff(a: View)
    ensures (forall b :: Equivalent(a, b) ==> a == b.(tick := a.tick)) <==> a.events == NO_EVENTS
  {
    var b := a.(events := Disturbed(a.events));
    DisturbedDiffers(a.events);
    assert Equivalent(a, b);
    if a.events == NO_EVENTS {
      forall b | Equivalent(a, b) ensures a == b.(tick := a.tick) {
        assert b.events == NO_EVENTS;
      }
    }
  }

  /** A view is withheld although a new fight replaced an old one: events are compared by number only. */
  lemma SameCountHidesNewEvent(view: View, first: CombatEvent, second: CombatEvent)
    requires first != second
    ensures var a := view.(events := NO_EVENTS.(combat := [first]));
            var b := view.(events := NO_EVENTS.(combat := [second]));
            Equivalent(a, b) && a.events != b.events
  {
    assert [first][0] != [second][0];
  }
}
