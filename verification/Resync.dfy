/** The per-seat replay buffer (packages/networking/src/resync.ts): a map with an eviction cursor that
    refines the plain history of ticks. */
module Resync {
  import opened Js
  import PlayerView
  import StableSort

  type View = PlayerView.View

  const DEPTH := 16

  datatype Entry = Entry(tick: int, view: View)

  /** The buffer's three fields. */
  datatype Ring = Ring(entries: map<int, View>, firstTick: int, lastTick: int)

  function Empty(): Ring {
    Ring(map[], 0, -1)
  }

  /** The eviction cursor advanced over ticks that are not retained, up to `limit`. */
  function SkipGap(entries: map<int, View>, first: int, limit: int): int
    decreases limit - first
  {
    if first !in entries && first < limit then SkipGap(entries, first + 1, limit) else first
  }

  /** `push`, whatever the tick. */
  function Pushed(r: Ring, tick: int, view: View): Ring {
    var last := if r.lastTick > tick then r.lastTick else tick;
    if tick in r.entries then Ring(r.entries[tick := view], r.firstTick, last) else
    var first := if r.entries == map[] then tick else r.firstTick;
    if |r.entries| >= DEPTH then
      var kept := r.entries - {first};
      Ring(kept[tick := view], SkipGap(kept, first + 1, tick), last)
    else Ring(r.entries[tick := view], first, last)
  }

  // History ------------------------------------------------------------------

  /** Strictly increasing ticks. */
  predicate Ascending(log: seq<Entry>) {
    forall i, j :: 0 <= i < j < |log| ==> log[i].tick < log[j].tick
  }

  /** The last 16 entries. */
  function Retained(log: seq<Entry>): seq<Entry> {
    if |log| <= DEPTH then log else log[|log| - DEPTH..]
  }

  function AsMap(s: seq<Entry>): map<int, View> {
    if s == [] then map[] else AsMap(s[..|s| - 1])[s[|s| - 1].tick := s[|s| - 1].view]
  }

  /** The buffer a history stands for. */
  function RingOf(log: seq<Entry>): Ring {
    if log == [] then Empty() else Ring(AsMap(Retained(log)), Retained(log)[0].tick, log[|log| - 1].tick)
  }

  predicate TickIn(s: seq<Entry>, t: int) {
    exists i :: 0 <= i < |s| && s[i].tick == t
  }

  /** The map holds exactly the entries of the list. */
  ghost predicate Holds(m: map<int, View>, s: seq<Entry>) {
    && (forall i :: 0 <= i < |s| ==> s[i].tick in m && m[s[i].tick] == s[i].view)
    && (forall t :: t in m ==> TickIn(s, t))
  }

  lemma HoldsUnique(a: map<int, View>, b: map<int, View>, s: seq<Entry>)
    requires Holds(a, s) && Holds(b, s)
    ensures a == b
  {
    assert forall t :: t in a <==> t in b;
    forall t | t in a ensures a[t] == b[t] {
      var i :| 0 <= i < |s| && s[i].tick == t;
    }
  }

  lemma HoldsAppend(m: map<int, View>, s: seq<Entry>, e: Entry)
    requires Holds(m, s) && !TickIn(s, e.tick)
    ensures Holds(m[e.tick := e.view], s + [e])
    ensures e.tick !in m
  {
    var s', m' := s + [e], m[e.tick := e.view];
    forall t | t in m' ensures TickIn(s', t) {
      if t == e.tick {
        assert s'[|s|].tick == t;
      } else {
        var i :| 0 <= i < |s| && s[i].tick == t;
        assert s'[i].tick == t;
      }
    }
  }

  lemma HoldsDropFirst(m: map<int, View>, s: seq<Entry>)
    requires Holds(m, s) && Ascending(s) && s != []
    ensures Holds(m - {s[0].tick}, s[1..])
  {
    forall t | t in m - {s[0].tick} ensures TickIn(s[1..], t) {
      var i :| 0 <= i < |s| && s[i].tick == t;
      assert s[1..][i - 1].tick == t;
    }
    forall i | 0 <= i < |s[1..]| ensures s[1..][i].tick in m - {s[0].tick} && m[s[1..][i].tick] == s[1..][i].view {
      assert s[1..][i] == s[i + 1];
    }
  }

  lemma HoldsUpdate(m: map<int, View>, s: seq<Entry>, k: nat, view: View)
    requires Holds(m, s) && Ascending(s) && k < |s|
    ensures Holds(m[s[k].tick := view], s[k := Entry(s[k].tick, view)])
  {
    var s' := s[k := Entry(s[k].tick, view)];
    forall t | t in m ensures TickIn(s', t) {
      var i :| 0 <= i < |s| && s[i].tick == t;
      assert s'[i].tick == t;
    }
  }

  lemma {:induction false} AsMapHolds(s: seq<Entry>)
    requires Ascending(s)
    ensures Holds(AsMap(s), s) && |AsMap(s)| == |s|
  {
    if s != [] {
      var n := |s| - 1;
      AsMapHolds(s[..n]);
      assert !TickIn(s[..n], s[n].tick);
      HoldsAppend(AsMap(s[..n]), s[..n], s[n]);
      assert s[..n] + [s[n]] == s;
      assert AsMap(s).Keys == AsMap(s[..n]).Keys + {s[n].tick};
    }
  }

  lemma SameMap(s: seq<Entry>, m: map<int, View>)
    requires Ascending(s) && Holds(m, s)
    ensures AsMap(s) == m
  {
    AsMapHolds(s);
    HoldsUnique(AsMap(s), m, s);
  }

  /** The cursor stops at the least retained tick when there is one before the limit. */
  lemma {:induction false} SkipGapFinds(entries: map<int, View>, first: int, limit: int, least: int)
    requires first <= least <= limit && least in entries
    requires forall t :: t in entries && t >= first ==> t >= least
    ensures SkipGap(entries, first, limit) == least
    decreases limit - first
  {
    if first !in entries && first < limit {
      SkipGapFinds(entries, first + 1, limit, least);
    }
  }

  /** The eviction loop ends on the true minimum of what it keeps. */
  lemma EvictionFindsMinimum(s: seq<Entry>, tick: int)
    requires Ascending(s) && |s| > 1 && s[|s| - 1].tick < tick
    ensures AsMap(s) - {s[0].tick} == AsMap(s[1..])
    ensures SkipGap(AsMap(s[1..]), s[0].tick + 1, tick) == s[1].tick
  {
    FirstDropped(s);
    FirstIsLeast(s[1..]);
    SkipGapFinds(AsMap(s[1..]), s[0].tick + 1, tick, s[1].tick);
  }

  lemma FirstDropped(s: seq<Entry>)
    requires Ascending(s) && s != []
    ensures AsMap(s) - {s[0].tick} == AsMap(s[1..])
  {
    AsMapHolds(s);
    HoldsDropFirst(AsMap(s), s);
    SameMap(s[1..], AsMap(s) - {s[0].tick});
  }

  lemma FirstIsLeast(s: seq<Entry>)
    requires Ascending(s) && s != []
    ensures s[0].tick in AsMap(s) && forall t :: t in AsMap(s) ==> t >= s[0].tick
  {
    AsMapHolds(s);
    forall t | t in AsMap(s) ensures t >= s[0].tick {
      var i :| 0 <= i < |s| && s[i].tick == t;
    }
  }

  lemma AsMapGrows(s: seq<Entry>, e: Entry)
    ensures AsMap(s + [e]) == AsMap(s)[e.tick := e.view]
  {
    assert (s + [e])[..|s|] == s;
  }

  lemma {:induction false} RetainedAscending(log: seq<Entry>)
    requires Ascending(log)
    ensures Ascending(Retained(log))
  {
    if |log| > DEPTH {
      forall i, j | 0 <= i < j < DEPTH ensures Retained(log)[i].tick < Retained(log)[j].tick {
        assert Retained(log)[i] == log[|log| - DEPTH + i] && Retained(log)[j] == log[|log| - DEPTH + j];
      }
    }
  }

  lemma NewTickAbsent(s: seq<Entry>, tick: int)
    requires Ascending(s) && (s != [] ==> s[|s| - 1].tick < tick)
    ensures tick !in AsMap(s) && |AsMap(s)| == |s|
    ensures s != [] ==> AsMap(s) != map[]
  {
    AsMapHolds(s);
    if s != [] {
      assert s[0].tick in AsMap(s);
    }
    assert !TickIn(s, tick);
  }

  lemma EvictedRing(log: seq<Entry>, e: Entry)
    requires |log| >= DEPTH && e.tick > log[|log| - 1].tick
    requires var kept := Retained(log);
             && |AsMap(kept)| == DEPTH && e.tick !in AsMap(kept)
             && AsMap(kept) - {kept[0].tick} == AsMap(kept[1..])
             && SkipGap(AsMap(kept[1..]), kept[0].tick + 1, e.tick) == kept[1].tick
    ensures Pushed(RingOf(log), e.tick, e.view) == RingOf(log + [e])
  {
    var kept := Retained(log);
    AsMapGrows(kept[1..], e);
    RetainedSlides(log, e);
    PushedFull(AsMap(kept), kept[0].tick, log[|log| - 1].tick, kept[1].tick, e);
  }

  lemma RetainedSlides(log: seq<Entry>, e: Entry)
    requires |log| >= DEPTH
    ensures Retained(log + [e]) == Retained(log)[1..] + [e]
  {
  }

  lemma PushedFull(m: map<int, View>, first: int, last: int, least: int, e: Entry)
    requires |m| >= DEPTH && e.tick !in m && last < e.tick && SkipGap(m - {first}, first + 1, e.tick) == least
    ensures Pushed(Ring(m, first, last), e.tick, e.view) == Ring((m - {first})[e.tick := e.view], least, e.tick)
  {
  }

  /** An append to a full buffer. */
  lemma PushEvicts(log: seq<Entry>, e: Entry)
    requires Ascending(Retained(log)) && |log| >= DEPTH && e.tick > log[|log| - 1].tick
    ensures Pushed(RingOf(log), e.tick, e.view) == RingOf(log + [e])
  {
    NewTickAbsent(Retained(log), e.tick);
    EvictionFindsMinimum(Retained(log), e.tick);
    EvictedRing(log, e);
  }

  lemma AppendAscending(log: seq<Entry>, e: Entry)
    requires Ascending(log) && (log != [] ==> log[|log| - 1].tick < e.tick)
    ensures Ascending(log + [e])
  {
  }

  lemma FittedRing(log: seq<Entry>, e: Entry)
    requires |log| < DEPTH && |AsMap(log)| == |log| && e.tick !in AsMap(log)
    requires log != [] ==> AsMap(log) != map[] && log[|log| - 1].tick < e.tick
    requires log == [] ==> e.tick > -1
    ensures Pushed(RingOf(log), e.tick, e.view) == RingOf(log + [e])
  {
    AsMapGrows(log, e);
    assert log == [] ==> log + [e] == [e];
  }

  /** An append to a buffer with room. */
  lemma PushFits(log: seq<Entry>, e: Entry)
    requires Ascending(log) && |log| < DEPTH && e.tick > RingOf(log).lastTick
    ensures Pushed(RingOf(log), e.tick, e.view) == RingOf(log + [e])
  {
    NewTickAbsent(log, e.tick);
    FittedRing(log, e);
  }

  /** A new tick above all others is appended to the history. */
  lemma PushAppends(log: seq<Entry>, e: Entry)
    requires Ascending(log) && e.tick > RingOf(log).lastTick
    ensures Ascending(log + [e]) && Pushed(RingOf(log), e.tick, e.view) == RingOf(log + [e])
  {
    AppendAscending(log, e);
    if |log| >= DEPTH {
      RetainedAscending(log);
      PushEvicts(log, e);
    } else {
      PushFits(log, e);
    }
  }

  lemma AsMapPlace(s: seq<Entry>, t: int) returns (k: nat)
    requires Ascending(s) && t in AsMap(s)
    ensures k < |s| && s[k].tick == t
  {
    AsMapHolds(s);
    k :| 0 <= k < |s| && s[k].tick == t;
  }

  lemma SamePlace(log: seq<Entry>, i: nat, j: nat)
    requires Ascending(log) && i < |log| && j < |log| && log[i].tick == log[j].tick
    ensures i == j
  {
  }

  /** The place of a retained tick, counted from the start of the history. */
  lemma RetainedPlace(log: seq<Entry>, t: int) returns (k: nat)
    requires Ascending(log) && t in AsMap(Retained(log))
    ensures k < |Retained(log)| && Retained(log)[k].tick == t
    ensures Retained(log)[k] == log[|log| - |Retained(log)| + k]
  {
    RetainedAscending(log);
    k := AsMapPlace(Retained(log), t);
  }

  lemma AsMapOverwrite(s: seq<Entry>, k: nat, view: View)
    requires Ascending(s) && k < |s|
    ensures AsMap(s[k := Entry(s[k].tick, view)]) == AsMap(s)[s[k].tick := view]
    ensures Ascending(s[k := Entry(s[k].tick, view)])
  {
    AsMapHolds(s);
    HoldsUpdate(AsMap(s), s, k, view);
    SameMap(s[k := Entry(s[k].tick, view)], AsMap(s)[s[k].tick := view]);
  }

  /** A tick still retained is overwritten in place, wherever it stands. */
  lemma PushOverwrites(log: seq<Entry>, i: nat, view: View)
    requires Ascending(log) && i < |log| && log[i].tick in RingOf(log).entries
    ensures Ascending(log[i := Entry(log[i].tick, view)])
    ensures Pushed(RingOf(log), log[i].tick, view) == RingOf(log[i := Entry(log[i].tick, view)])
  {
    var kept := Retained(log);
    var k := RetainedPlace(log, log[i].tick);
    SamePlace(log, |log| - |kept| + k, i);
    AsMapOverwrite(log, i, view);
    RetainedAscending(log);
    AsMapOverwrite(kept, k, view);
    OverwriteInRing(log, i, k, view);
  }

  lemma OverwriteInRing(log: seq<Entry>, i: nat, k: nat, view: View)
    requires i < |log| && k < |Retained(log)| && i == |log| - |Retained(log)| + k
    requires log[i].tick in AsMap(Retained(log)) && log[i].tick <= log[|log| - 1].tick
    requires AsMap(Retained(log)[k := Entry(log[i].tick, view)]) == AsMap(Retained(log))[log[i].tick := view]
    ensures Pushed(RingOf(log), log[i].tick, view) == RingOf(log[i := Entry(log[i].tick, view)])
  {
    var log' := log[i := Entry(log[i].tick, view)];
    assert Retained(log') == Retained(log)[k := Entry(log[i].tick, view)];
  }

  // Runs ---------------------------------------------------------------------

  /** The history after a push: the entry is appended, or replaces the one with its tick. */
  function Logged(log: seq<Entry>, e: Entry): seq<Entry> {
    match IndexOf(log, e.tick)
    case Some(i) => log[i := e]
    case None => log + [e]
  }

  function IndexOf(log: seq<Entry>, tick: int): (r: Option<nat>)
    ensures r.Some? ==> r.value < |log| && log[r.value].tick == tick
    ensures r.None? ==> forall i :: 0 <= i < |log| ==> log[i].tick != tick
  {
    if log == [] then None
    else if log[|log| - 1].tick == tick then Some(|log| - 1)
    else IndexOf(log[..|log| - 1], tick)
  }

  /** What callers keep to: a tick above every earlier one, or one still retained. */
  predicate Disciplined(log: seq<Entry>, e: Entry) {
    e.tick > RingOf(log).lastTick || e.tick in RingOf(log).entries
  }

  function History(pushes: seq<Entry>): seq<Entry> {
    if pushes == [] then [] else Logged(History(pushes[..|pushes| - 1]), pushes[|pushes| - 1])
  }

  predicate DisciplinedRun(pushes: seq<Entry>) {
    pushes != [] ==>
      DisciplinedRun(pushes[..|pushes| - 1]) && Disciplined(History(pushes[..|pushes| - 1]), pushes[|pushes| - 1])
  }

  function PushAll(pushes: seq<Entry>): Ring {
    if pushes == [] then Empty()
    else Pushed(PushAll(pushes[..|pushes| - 1]), pushes[|pushes| - 1].tick, pushes[|pushes| - 1].view)
  }

  lemma RetainedIsLogged(log: seq<Entry>, tick: int)
    requires Ascending(log) && tick in RingOf(log).entries
    ensures IndexOf(log, tick).Some?
  {
    var k := RetainedPlace(log, tick);
  }

  lemma LoggedIsNotNew(log: seq<Entry>, i: nat)
    requires Ascending(log) && i < |log|
    ensures log[i].tick <= RingOf(log).lastTick
  {
  }

  lemma PushRefinesHistory(log: seq<Entry>, e: Entry)
    requires Ascending(log) && Disciplined(log, e)
    ensures Ascending(Logged(log, e)) && Pushed(RingOf(log), e.tick, e.view) == RingOf(Logged(log, e))
  {
    match IndexOf(log, e.tick)
    case Some(i) =>
      LoggedIsNotNew(log, i);
      PushOverwrites(log, i, e.view);
    case None =>
      assert e.tick !in RingOf(log).entries by {
        if e.tick in RingOf(log).entries {
          RetainedIsLogged(log, e.tick);
        }
      }
      PushAppends(log, e);
  }

  /** Over every disciplined run the buffer is exactly the last min(n, 16) entries of the history. */
  lemma {:induction false} BufferRefinesHistory(pushes: seq<Entry>)
    requires DisciplinedRun(pushes)
    ensures Ascending(History(pushes)) && PushAll(pushes) == RingOf(History(pushes))
  {
    if pushes != [] {
      var n := |pushes| - 1;
      BufferRefinesHistory(pushes[..n]);
      PushRefinesHistory(History(pushes[..n]), pushes[n]);
    }
  }

  // Reading ------------------------------------------------------------------

  /** What `getSince` returns: the retained entries above `tick`, ascending. */
  ghost predicate IsSince(entries: map<int, View>, tick: int, r: seq<Entry>) {
    && Ascending(r)
    && (forall i :: 0 <= i < |r| ==> r[i].tick > tick && r[i].tick in entries && entries[r[i].tick] == r[i].view)
    && (forall t :: t in entries && t > tick ==> TickIn(r, t))
  }

  lemma NothingSince(entries: map<int, View>, tick: int, a: seq<Entry>)
    requires IsSince(entries, tick, a)
    ensures a == [] <==> forall t :: t in entries ==> t <= tick
  {
    if a != [] {
      assert a[0].tick in entries && a[0].tick > tick;
    }
  }

  /** The first entry of a read has the least tick above the bound. */
  lemma LeastFirst(entries: map<int, View>, tick: int, a: seq<Entry>, t: int)
    requires IsSince(entries, tick, a) && a != [] && t in entries && t > tick
    ensures a[0].tick <= t
  {
    var i :| 0 <= i < |a| && a[i].tick == t;
  }

  lemma DropFirst(entries: map<int, View>, tick: int, a: seq<Entry>)
    requires IsSince(entries, tick, a) && a != []
    ensures IsSince(entries, a[0].tick, a[1..])
  {
    forall t | t in entries && t > a[0].tick ensures TickIn(a[1..], t) {
      assert t > tick;
      var i :| 0 <= i < |a| && a[i].tick == t;
      assert a[1..][i - 1].tick == t;
    }
  }

  lemma {:induction false} IsSinceUnique(entries: map<int, View>, tick: int, a: seq<Entry>, b: seq<Entry>)
    requires IsSince(entries, tick, a) && IsSince(entries, tick, b)
    ensures a == b
    decreases |a|
  {
    NothingSince(entries, tick, a);
    NothingSince(entries, tick, b);
    if a != [] {
      LeastFirst(entries, tick, a, b[0].tick);
      LeastFirst(entries, tick, b, a[0].tick);
      DropFirst(entries, tick, a);
      DropFirst(entries, tick, b);
      IsSinceUnique(entries, a[0].tick, a[1..], b[1..]);
      assert a == [a[0]] + a[1..] && b == [b[0]] + b[1..];
    }
  }

  /** The number of leading entries at or below `tick`. */
  function Behind(log: seq<Entry>, tick: int): (n: nat)
    ensures n <= |log|
  {
    if log == [] || log[0].tick > tick then 0 else 1 + Behind(log[1..], tick)
  }

  lemma {:induction false} BehindSplits(log: seq<Entry>, tick: int)
    requires Ascending(log)
    ensures forall i :: 0 <= i < |log| ==> (log[i].tick > tick <==> i >= Behind(log, tick))
  {
    if log != [] && log[0].tick <= tick {
      BehindSplits(log[1..], tick);
      forall i | 0 <= i < |log| ensures log[i].tick > tick <==> i >= Behind(log, tick) {
        if i > 0 {
          assert log[1..][i - 1] == log[i];
        }
      }
    }
  }

  lemma SuffixAscending(kept: seq<Entry>, n: nat)
    requires Ascending(kept) && n <= |kept|
    ensures Ascending(kept[n..])
  {
  }

  lemma SuffixCovers(kept: seq<Entry>, tick: int, t: int)
    requires Ascending(kept) && t in AsMap(kept) && t > tick
    ensures TickIn(kept[Behind(kept, tick)..], t)
  {
    BehindSplits(kept, tick);
    var i := AsMapPlace(kept, t);
    assert kept[Behind(kept, tick)..][i - Behind(kept, tick)].tick == t;
  }

  lemma EntryHeld(kept: seq<Entry>, i: nat)
    requires Ascending(kept) && i < |kept|
    ensures kept[i].tick in AsMap(kept) && AsMap(kept)[kept[i].tick] == kept[i].view
  {
    AsMapHolds(kept);
  }

  lemma SuffixHeld(kept: seq<Entry>, tick: int, i: nat)
    requires Ascending(kept) && i < |kept| - Behind(kept, tick)
    ensures var e := kept[Behind(kept, tick)..][i];
            e.tick > tick && e.tick in AsMap(kept) && AsMap(kept)[e.tick] == e.view
  {
    BehindSplits(kept, tick);
    EntryHeld(kept, Behind(kept, tick) + i);
  }

  lemma SuffixIsSince(kept: seq<Entry>, tick: int)
    requires Ascending(kept)
    ensures IsSince(AsMap(kept), tick, kept[Behind(kept, tick)..])
  {
    var tail := kept[Behind(kept, tick)..];
    SuffixAscending(kept, Behind(kept, tick));
    forall t | t in AsMap(kept) && t > tick ensures TickIn(tail, t) {
      SuffixCovers(kept, tick, t);
    }
    forall i | 0 <= i < |tail|
      ensures tail[i].tick > tick && tail[i].tick in AsMap(kept) && AsMap(kept)[tail[i].tick] == tail[i].view
    {
      SuffixHeld(kept, tick, i);
    }
  }

  /** On a buffer that stands for a history, a read is a suffix of what that history retains. */
  lemma SinceIsSuffix(log: seq<Entry>, tick: int, r: seq<Entry>)
    requires Ascending(log) && IsSince(RingOf(log).entries, tick, r)
    ensures r == Retained(log)[Behind(Retained(log), tick)..]
  {
    SuffixIsSince(Retained(log), tick);
    IsSinceUnique(RingOf(log).entries, tick, r, Retained(log)[Behind(Retained(log), tick)..]);
  }

  // The object ---------------------------------------------------------------

  function ByTick(a: Entry, b: Entry): int {
    a.tick - b.tick
  }

  lemma {:induction false} InsertAscending(x: Entry, s: seq<Entry>)
    requires Ascending(s) && !TickIn(s, x.tick)
    ensures Ascending(StableSort.Insert(ByTick, x, s))
    ensures forall e :: e in StableSort.Insert(ByTick, x, s) <==> e == x || e in s
  {
    if s != [] && ByTick(x, s[0]) > 0 {
      var rest := StableSort.Insert(ByTick, x, s[1..]);
      assert !TickIn(s[1..], x.tick) by {
        forall i | 0 <= i < |s[1..]| ensures s[1..][i].tick != x.tick {
          assert s[i + 1].tick != x.tick;
        }
      }
      InsertAscending(x, s[1..]);
      forall j | 0 <= j < |rest| ensures s[0].tick < rest[j].tick {
        assert rest[j] in rest;
        if rest[j] != x {
          var k :| 0 <= k < |s[1..]| && s[1..][k] == rest[j];
          assert s[k + 1] == rest[j];
        }
      }
      assert s == [s[0]] + s[1..];
    }
  }

  predicate DistinctTicks(s: seq<Entry>) {
    forall i, j :: 0 <= i < j < |s| ==> s[i].tick != s[j].tick
  }

  /** Sorting entries with distinct ticks yields strictly increasing ticks. */
  lemma {:induction false} SortAscending(s: seq<Entry>)
    requires DistinctTicks(s)
    ensures Ascending(StableSort.Sort(ByTick, s))
    ensures forall e :: e in StableSort.Sort(ByTick, s) <==> e in s
  {
    if s != [] {
      var rest := StableSort.Sort(ByTick, s[1..]);
      SortAscending(s[1..]);
      forall i | 0 <= i < |rest| ensures rest[i].tick != s[0].tick {
        assert rest[i] in rest;
        assert rest[i] in s[1..];
      }
      InsertAscending(s[0], rest);
      assert s == [s[0]] + s[1..];
    }
  }

  /** What `getSince` has gathered once the ticks in `rest` are left. */
  ghost predicate Gathered(entries: map<int, View>, tick: int, rest: set<int>, found: seq<Entry>) {
    && DistinctTicks(found)
    && (forall e :: e in found ==> e.tick > tick && e.tick in entries && e.tick !in rest && entries[e.tick] == e.view)
    && (forall t :: t in entries && t !in rest && t > tick ==> Entry(t, entries[t]) in found)
  }

  lemma GatherOne(entries: map<int, View>, tick: int, rest: set<int>, found: seq<Entry>, t: int)
    requires Gathered(entries, tick, rest, found) && t in rest && t in entries
    ensures Gathered(entries, tick, rest - {t}, if t > tick then found + [Entry(t, entries[t])] else found)
  {
    var found' := if t > tick then found + [Entry(t, entries[t])] else found;
    forall i | 0 <= i < |found| ensures found[i].tick != t {
      assert found[i] in found;
    }
    forall k | k in entries && k !in rest - {t} && k > tick ensures Entry(k, entries[k]) in found' {
      if k != t {
        assert Entry(k, entries[k]) in found;
      }
    }
  }

  lemma GatheredIsSince(entries: map<int, View>, tick: int, found: seq<Entry>)
    requires Gathered(entries, tick, {}, found)
    ensures IsSince(entries, tick, StableSort.Sort(ByTick, found))
  {
    var r := StableSort.Sort(ByTick, found);
    SortAscending(found);
    forall i | 0 <= i < |r| ensures r[i].tick > tick && r[i].tick in entries && entries[r[i].tick] == r[i].view {
      assert r[i] in r;
      assert r[i] in found;
    }
    forall t | t in entries && t > tick ensures TickIn(r, t) {
      assert Entry(t, entries[t]) in r;
      var i :| 0 <= i < |r| && r[i] == Entry(t, entries[t]);
      assert r[i].tick == t;
    }
  }

  lemma SomeMember(s: set<int>)
    requires s != {}
    ensures exists t: int :: t in s
  {
    assert (forall t: int :: t !in s) ==> s == {};
  }

  method Pick(s: set<int>) returns (t: int)
    requires s != {}
    ensures t in s
  {
    SomeMember(s);
    t :| t in s;
  }

  class ResyncBuffer {
    var entries: map<int, View>
    var firstTickValue: int
    var lastTickValue: int

    ghost function State(): Ring
      reads this
    {
      Ring(entries, firstTickValue, lastTickValue)
    }

    constructor ()
      ensures State() == Empty()
    {
      entries, firstTickValue, lastTickValue := map[], 0, -1;
    }

    method Push(tick: int, view: View)
      modifies this
      ensures State() == Pushed(old(State()), tick, view)
    {
      if tick !in entries {
        if |entries| == 0 {
          firstTickValue := tick;
        }
        if |entries| >= DEPTH {
          entries := entries - {firstTickValue};
          firstTickValue := firstTickValue + 1;
          ghost var start := firstTickValue;
          while firstTickValue !in entries && firstTickValue < tick
            invariant SkipGap(entries, firstTickValue, tick) == SkipGap(entries, start, tick)
            invariant entries == old(entries) - {start - 1} && lastTickValue == old(lastTickValue)
            decreases tick - firstTickValue
          {
            firstTickValue := firstTickValue + 1;
          }
        }
      }
      lastTickValue := if lastTickValue > tick then lastTickValue else tick;
      entries := entries[tick := view];
    }

    method GetSince(tick: int) returns (r: seq<Entry>)
      ensures IsSince(entries, tick, r)
    {
      var found: seq<Entry> := [];
      var rest: set<int> := entries.Keys;
      while rest != {}
        invariant rest <= entries.Keys
        invariant Gathered(entries, tick, rest, found)
        decreases |rest|
      {
        var t := Pick(rest);
        GatherOne(entries, tick, rest, found, t);
        if t > tick {
          found := found + [Entry(t, entries[t])];
        }
        rest := rest - {t};
      }
      r := StableSort.Sort(ByTick, found);
      GatheredIsSince(entries, tick, found);
    }

    method LatestTick() returns (r: int)
      ensures r == State().lastTick
    {
      return lastTickValue;
    }

    method Clear()
      modifies this
      ensures State() == Empty()
    {
      entries, firstTickValue, lastTickValue := map[], 0, -1;
    }
  }
}
