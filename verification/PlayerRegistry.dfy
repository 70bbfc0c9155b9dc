/** Canonical player identities and the registry that maps them to dense indexes
    (packages/core/src/player-id.ts, packages/engine/src/playerRegistry.ts). */
module PlayerRegistry {
  import opened Js
  import Utf16Order
  import StableSort

  const PLAYER_ID_LENGTH := 12
  const MIN_PLAYERS := 2
  const MAX_PLAYERS := 4

  /** A to Z, a to z, 0 to 9, underscore, hyphen. */
  predicate InAlphabet(c: CodeUnit) {
    0x41 <= c <= 0x5a || 0x61 <= c <= 0x7a || 0x30 <= c <= 0x39 || c == 0x5f || c == 0x2d
  }

  predicate IsPlayerId(id: JsString) {
    |id| == PLAYER_ID_LENGTH && forall c :: c in id ==> InAlphabet(c)
  }

  /** The registry object: its public fields and the map its lookups close over. */
  datatype Registry = Registry(ids: seq<JsString>, count: nat, idToIndex: map<JsString, nat>) {
    function IndexOfId(id: JsString): Option<nat> {
      if IsPlayerId(id) && id in idToIndex then Some(idToIndex[id]) else None
    }

    function IdAt(index: int): Option<JsString> {
      if 0 <= index < count && index < |ids| then Some(ids[index]) else None
    }
  }

  datatype RegistryError = WrongCount | NotCanonical(position: nat) | Duplicate(position: nat)

  /** The first entry, scanning from `i`, that is malformed or repeats an earlier one. */
  function FirstProblem(ids: seq<JsString>, i: nat): Option<RegistryError>
    requires i <= |ids|
    decreases |ids| - i
  {
    if i == |ids| then None
    else if !IsPlayerId(ids[i]) then Some(NotCanonical(i))
    else if ids[i] in ids[..i] then Some(Duplicate(i))
    else FirstProblem(ids, i + 1)
  }

  function IndexMap(ids: seq<JsString>): map<JsString, nat> {
    if ids == [] then map[]
    else IndexMap(ids[..|ids| - 1])[ids[|ids| - 1] := |ids| - 1]
  }

  function Canonicalized(ids: seq<JsString>): seq<JsString> {
    StableSort.Sort(Utf16Order.Compare, ids)
  }

  function RegistryOf(ids: seq<JsString>): Registry {
    Registry(ids, |ids|, IndexMap(ids))
  }

  function Create(ids: seq<JsString>): Result<Registry, RegistryError> {
    if |ids| < MIN_PLAYERS || |ids| > MAX_PLAYERS then Err(WrongCount)
    else if FirstProblem(ids, 0).Some? then Err(FirstProblem(ids, 0).value)
    else Ok(RegistryOf(Canonicalized(ids)))
  }

  /** `createPlayerRegistry` with its two filling loops. */
  method CreatePlayerRegistry(ids: seq<JsString>) returns (r: Result<Registry, RegistryError>)
    ensures r == Create(ids)
  {
    if |ids| < MIN_PLAYERS || |ids| > MAX_PLAYERS {
      return Err(WrongCount);
    }
    var seen: set<JsString> := {};
    for i := 0 to |ids|
      invariant seen == set id | id in ids[..i]
      invariant FirstProblem(ids, 0) == FirstProblem(ids, i)
    {
      if !IsPlayerId(ids[i]) {
        return Err(NotCanonical(i));
      }
      if ids[i] in seen {
        return Err(Duplicate(i));
      }
      seen := seen + {ids[i]};
      assert ids[..i + 1] == ids[..i] + [ids[i]];
    }
    var sortedIds := StableSort.Sort(Utf16Order.Compare, ids);
    var idToIndex: map<JsString, nat> := map[];
    for i := 0 to |sortedIds|
      invariant idToIndex == IndexMap(sortedIds[..i])
    {
      idToIndex := idToIndex[sortedIds[i] := i];
      assert sortedIds[..i + 1][..i] == sortedIds[..i];
    }
    assert sortedIds[..|sortedIds|] == sortedIds;
    return Ok(Registry(sortedIds, |sortedIds|, idToIndex));
  }

  lemma CompareIsConsistent()
    ensures StableSort.Consistent(Utf16Order.Compare)
  {
    var cmp := Utf16Order.Compare;
    forall a: JsString, b: JsString
      ensures (cmp(a, b) <= 0 || cmp(b, a) <= 0) && (cmp(a, b) == 0 <==> cmp(a, b) <= 0 && cmp(b, a) <= 0)
    {
      Utf16Order.Antisymmetric(a, b);
    }
    forall a: JsString, b: JsString, c: JsString | cmp(a, b) <= 0 && cmp(b, c) <= 0
      ensures cmp(a, c) <= 0
    {
      Utf16Order.Transitive(a, b, c);
    }
  }

  lemma {:induction false} NoProblemMeans(ids: seq<JsString>, i: nat)
    requires i <= |ids|
    ensures FirstProblem(ids, i).None? <==>
              (forall k :: i <= k < |ids| ==> IsPlayerId(ids[k]) && ids[k] !in ids[..k])
    decreases |ids| - i
  {
    if i < |ids| {
      NoProblemMeans(ids, i + 1);
    }
  }

  /** Exactly the lists of two to four pairwise different canonical identities are accepted. */
  lemma AcceptsExactly(ids: seq<JsString>)
    ensures Create(ids).Ok? <==>
              2 <= |ids| <= 4 && (forall id :: id in ids ==> IsPlayerId(id)) && NoDuplicates(ids)
  {
    NoProblemMeans(ids, 0);
    if NoDuplicates(ids) && forall id :: id in ids ==> IsPlayerId(id) {
      forall k | 0 <= k < |ids| ensures ids[k] !in ids[..k] {
      }
    }
    if forall k :: 0 <= k < |ids| ==> IsPlayerId(ids[k]) && ids[k] !in ids[..k] {
      forall i, j | 0 <= i < j < |ids| ensures ids[i] != ids[j] {
        assert ids[i] == ids[..j][i];
      }
    }
  }

  lemma {:induction false} IndexMapInverts(ids: seq<JsString>)
    requires NoDuplicates(ids)
    ensures forall id :: id in IndexMap(ids) <==> id in ids
    ensures forall i :: 0 <= i < |ids| ==> ids[i] in IndexMap(ids) && IndexMap(ids)[ids[i]] == i
    ensures forall id :: id in IndexMap(ids) ==> IndexMap(ids)[id] < |ids| && ids[IndexMap(ids)[id]] == id
  {
    if ids != [] {
      var n := |ids| - 1;
      IndexMapInverts(ids[..n]);
      assert ids == ids[..n] + [ids[n]];
    }
  }

  lemma SortedStrictly(ids: seq<JsString>)
    requires NoDuplicates(ids)
    ensures Utf16Order.StrictlyAscending(Canonicalized(ids))
    ensures multiset(Canonicalized(ids)) == multiset(ids) && |Canonicalized(ids)| == |ids|
    ensures NoDuplicates(Canonicalized(ids))
  {
    var s := Canonicalized(ids);
    CompareIsConsistent();
    StableSort.SortSorted(Utf16Order.Compare, ids);
    StableSort.SortMultiset(Utf16Order.Compare, ids);
    assert |s| == |multiset(s)|;
    forall i, j | 0 <= i < j < |s| ensures s[i] != s[j] {
      if s[i] == s[j] {
        TwoOccurrences(s, i, j);
        OneOccurrence(ids, s[i]);
      }
    }
    forall i | 0 < i < |s| ensures Utf16Order.Compare(s[i - 1], s[i]) < 0 {
      Utf16Order.ZeroOnlyOnEqual(s[i - 1], s[i]);
      assert s[i - 1] != s[i];
    }
  }

  lemma TwoOccurrences<T>(s: seq<T>, i: nat, j: nat)
    requires i < j < |s| && s[i] == s[j]
    ensures multiset(s)[s[i]] >= 2
  {
    assert s == s[..i] + [s[i]] + s[i + 1..j] + [s[j]] + s[j + 1..];
  }

  lemma {:induction false} OneOccurrence<T>(s: seq<T>, x: T)
    requires NoDuplicates(s)
    ensures multiset(s)[x] <= 1
  {
    if s != [] {
      OneOccurrence(s[1..], x);
      assert s == [s[0]] + s[1..];
      assert s[0] !in s[1..];
      assert s[0] !in multiset(s[1..]);
    }
  }

  /** The registry is a bijection between its canonical table and the dense indexes. */
  lemma LookupsInvert(ids: seq<JsString>, reg: Registry)
    requires Create(ids) == Ok(reg)
    ensures Utf16Order.StrictlyAscending(reg.ids) && reg.count == |reg.ids| == |ids|
    ensures forall i :: 0 <= i < reg.count ==> reg.IdAt(i) == Some(reg.ids[i]) && reg.IndexOfId(reg.ids[i]) == Some(i)
    ensures forall id :: reg.IndexOfId(id).Some? <==> id in ids
    ensures forall id :: id in ids ==> reg.IdAt(reg.IndexOfId(id).value) == Some(id)
  {
    AcceptsExactly(ids);
    SortedStrictly(ids);
    IndexMapInverts(reg.ids);
    forall id ensures id in reg.ids <==> id in ids {
      StableSort.SortMembers(Utf16Order.Compare, ids, id);
    }
  }

  /** Caller order never shows: permuted inputs build the same registry. */
  lemma OrderIndependent(a: seq<JsString>, b: seq<JsString>)
    requires multiset(a) == multiset(b) && Create(a).Ok?
    ensures Create(b) == Create(a)
  {
    AcceptsExactly(a);
    assert |a| == |multiset(a)| && |b| == |multiset(b)|;
    forall id | id in b ensures IsPlayerId(id) {
      assert id in multiset(b);
      assert id in multiset(a);
      assert id in a;
    }
    forall i, j | 0 <= i < j < |b| ensures b[i] != b[j] {
      if b[i] == b[j] {
        TwoOccurrences(b, i, j);
        OneOccurrence(a, b[i]);
      }
    }
    AcceptsExactly(b);
    SortedStrictly(a);
    SortedStrictly(b);
    AscendingIsUnique(Canonicalized(a), Canonicalized(b));
  }

  lemma LeastComesFirst(a: seq<JsString>, x: JsString)
    requires Utf16Order.StrictlyAscending(a) && x in a
    ensures a[0] == x || Utf16Order.Compare(a[0], x) < 0
  {
    var i :| 0 <= i < |a| && a[i] == x;
    if i > 0 {
      Utf16Order.AscendingFar(a, 0, i);
    }
  }

  lemma TailAscends(a: seq<JsString>)
    requires Utf16Order.StrictlyAscending(a) && a != []
    ensures Utf16Order.StrictlyAscending(a[1..]) && multiset(a[1..]) == multiset(a) - multiset{a[0]}
  {
    assert a == [a[0]] + a[1..];
    forall k | 0 < k < |a[1..]| ensures Utf16Order.Compare(a[1..][k - 1], a[1..][k]) < 0 {
      assert Utf16Order.Compare(a[k + 1 - 1], a[k + 1]) < 0;
    }
  }

  lemma SameLeast(a: seq<JsString>, b: seq<JsString>)
    requires Utf16Order.StrictlyAscending(a) && Utf16Order.StrictlyAscending(b) && multiset(a) == multiset(b)
    requires a != []
    ensures b != [] && a[0] == b[0]
  {
    assert a[0] in multiset(a);
    assert a[0] in b;
    assert b[0] in multiset(b);
    assert b[0] in a;
    LeastComesFirst(a, b[0]);
    LeastComesFirst(b, a[0]);
    Utf16Order.Antisymmetric(a[0], b[0]);
  }

  lemma {:induction false} AscendingIsUnique(a: seq<JsString>, b: seq<JsString>)
    requires Utf16Order.StrictlyAscending(a) && Utf16Order.StrictlyAscending(b) && multiset(a) == multiset(b)
    ensures a == b
  {
    if a == [] {
      assert |b| == |multiset(b)| == |multiset(a)|;
    } else {
      SameLeast(a, b);
      TailAscends(a);
      TailAscends(b);
      AscendingIsUnique(a[1..], b[1..]);
      assert a == [a[0]] + a[1..] && b == [b[0]] + b[1..];
    }
  }

  /** A table already in canonical order is kept verbatim. */
  lemma AscendingIsKept(ids: seq<JsString>)
    requires Utf16Order.StrictlyAscending(ids) && 2 <= |ids| <= 4 && forall id :: id in ids ==> IsPlayerId(id)
    ensures Create(ids) == Ok(RegistryOf(ids))
  {
    Utf16Order.AscendingHasNoDuplicates(ids);
    AcceptsExactly(ids);
    SortedStrictly(ids);
    AscendingIsUnique(Canonicalized(ids), ids);
  }
}
