/** Spawn bands and the half-turn symmetry of cities (packages/terrain/src/city-band.ts, city-symmetry.ts). */
module CityLayout {
  import opened Js
  import opened EngineTypes

  // Half-turns ---------------------------------------------------------------

  predicate PlayerCount(n: int) {
    n == 2 || n == 3 || n == 4
  }

  function PartnerPlayer(p: int, n: int): int {
    if n == 2 then (if p == 1 then 2 else 1)
    else if n == 3 then (if p == 1 then 3 else if p == 3 then 1 else 2)
    else if p == 1 then 4 else if p == 2 then 3 else if p == 3 then 2 else 1
  }

  /** The opposite cell of a board. */
  function Rotated(c: Coord, width: int, height: int): Coord {
    Coord(width - 1 - c.x, height - 1 - c.y)
  }

  function Partner(c: City, width: int, height: int, n: int): City {
    City(Rotated(c.cell, width, height), PartnerPlayer(c.owner, n))
  }

  /** On valid slots the partner of the partner is the city itself; on others it need not be. */
  lemma PartnerIsInvolution(c: City, width: int, height: int, n: int)
    requires PlayerCount(n)
    ensures Partner(Partner(c, width, height, n), width, height, n) == c <==> 1 <= c.owner <= n
    ensures 1 <= Partner(c, width, height, n).owner <= n
  {
  }

  // Bands --------------------------------------------------------------------

  datatype Band = Band(xMin: int, xMax: int, yMin: int, yMax: int)

  function GetPlayerBand(slot: int, n: int, width: nat, height: nat): Band {
    if n == 2 then
      if slot == 1 then Band(0, width - 1, 0, height / 2 - 1) else Band(0, width - 1, height / 2, height - 1)
    else if n == 4 then
      if slot == 1 then Band(0, width / 2 - 1, 0, height / 2 - 1)
      else if slot == 2 then Band(width / 2, width - 1, 0, height / 2 - 1)
      else if slot == 3 then Band(0, width / 2 - 1, height / 2, height - 1)
      else if slot == 4 then Band(width / 2, width - 1, height / 2, height - 1)
      else Band(0, width - 1, 0, height - 1)
    else if slot == 1 then Band(0, width - 1, 0, height / 3 - 1)
    else if slot == 3 then Band(0, width - 1, height - height / 3, height - 1)
    else Band(0, width - 1, height / 3, height - height / 3 - 1)
  }

  predicate InBand(b: Band, c: Coord) {
    b.xMin <= c.x <= b.xMax && b.yMin <= c.y <= b.yMax
  }

  predicate OnBoard(c: Coord, width: int, height: int) {
    0 <= c.x < width && 0 <= c.y < height
  }

  predicate Owns(slot: int, n: int, width: nat, height: nat, c: Coord) {
    InBand(GetPlayerBand(slot, n, width, height), c)
  }

  /** The band a cell falls in. */
  function BandOf(c: Coord, n: int, width: nat, height: nat): (slot: int)
    requires PlayerCount(n)
    ensures 1 <= slot <= n
  {
    if n == 2 then (if c.y < height / 2 then 1 else 2)
    else if n == 3 then (if c.y < height / 3 then 1 else if c.y >= height - height / 3 then 3 else 2)
    else (if c.x < width / 2 then 1 else 2) + (if c.y < height / 2 then 0 else 2)
  }

  /** The bands cut every board, of any size, into disjoint pieces: each cell has exactly one slot. */
  lemma BandsPartition(n: int, width: nat, height: nat, c: Coord, slot: int)
    requires PlayerCount(n) && 1 <= slot <= n
    ensures Owns(slot, n, width, height, c) <==> OnBoard(c, width, height) && slot == BandOf(c, n, width, height)
  {
  }

  /** A half-turn carries every band onto its partner's. */
  ghost predicate BandsRotate(n: int, width: nat, height: nat) {
    forall slot, c :: 1 <= slot <= n ==>
      (Owns(slot, n, width, height, c) <==> Owns(PartnerPlayer(slot, n), n, width, height, Rotated(c, width, height)))
  }

  /** With three players always; with two or four exactly on boards whose split sides are even. */
  lemma BandsRotateIff(n: int, width: nat, height: nat)
    requires PlayerCount(n) && width > 0 && height > 0
    ensures BandsRotate(n, width, height) <==> n == 3 || (height % 2 == 0 && (n == 4 ==> width % 2 == 0))
  {
    if n == 2 && height % 2 != 0 {
      var c := Coord(0, height / 2);
      assert Rotated(c, width, height).y == height / 2;
      assert Owns(2, n, width, height, c) && !Owns(PartnerPlayer(2, n), n, width, height, Rotated(c, width, height));
    }
    if n == 4 && height % 2 != 0 {
      var c := Coord(width - 1, height / 2);
      assert Owns(4, n, width, height, c) && !Owns(PartnerPlayer(4, n), n, width, height, Rotated(c, width, height));
    }
    if n == 4 && width % 2 != 0 {
      var c := Coord(width / 2, height - 1);
      assert Owns(4, n, width, height, c) && !Owns(PartnerPlayer(4, n), n, width, height, Rotated(c, width, height));
    }
    if n == 3 || (height % 2 == 0 && (n == 4 ==> width % 2 == 0)) {
      forall slot, c | 1 <= slot <= n
        ensures Owns(slot, n, width, height, c) <==>
                Owns(PartnerPlayer(slot, n), n, width, height, Rotated(c, width, height))
      {
        EvenBandsRotate(n, width, height, slot, c);
      }
    }
  }

  lemma EvenBandsRotate(n: int, width: nat, height: nat, slot: int, c: Coord)
    requires PlayerCount(n) && 1 <= slot <= n
    requires n == 3 || (height % 2 == 0 && (n == 4 ==> width % 2 == 0))
    ensures Owns(slot, n, width, height, c) <==> Owns(PartnerPlayer(slot, n), n, width, height, Rotated(c, width, height))
  {
  }

  // Symmetric placements -----------------------------------------------------

  /** A city's partner must be added: it is another city, and not among those placed. */
  predicate Missing(placed: seq<City>, c: City, width: int, height: int, n: int) {
    Partner(c, width, height, n) != c && Partner(c, width, height, n) !in placed
  }

  /** The partners added for the cities of `rest`. */
  function Added(placed: seq<City>, rest: seq<City>, width: int, height: int, n: int): seq<City>
    decreases |rest|
  {
    if rest == [] then []
    else (if Missing(placed, rest[0], width, height, n) then [Partner(rest[0], width, height, n)] else [])
         + Added(placed, rest[1..], width, height, n)
  }

  function Symmetric(placed: seq<City>, width: int, height: int, n: int): seq<City> {
    placed + Added(placed, placed, width, height, n)
  }

  method EnforceCitySymmetry(placed: seq<City>, width: int, height: int, n: int) returns (out: seq<City>)
    ensures out == Symmetric(placed, width, height, n)
  {
    var existing: set<City> := {};
    for i := 0 to |placed|
      invariant forall c :: c in existing <==> c in placed[..i]
    {
      existing := existing + {placed[i]};
      assert placed[..i + 1] == placed[..i] + [placed[i]];
    }
    assert placed[..|placed|] == placed;
    out := placed;
    for i := 0 to |placed|
      invariant out + Added(placed, placed[i..], width, height, n) == Symmetric(placed, width, height, n)
    {
      var city := placed[i];
      assert placed[i..][0] == city && placed[i..][1..] == placed[i + 1..];
      ghost var rest := Added(placed, placed[i + 1..], width, height, n);
      var partner := Partner(city, width, height, n);
      if partner != city && partner !in existing {
        assert out + ([partner] + rest) == (out + [partner]) + rest;
        out := out + [partner];
      }
    }
    assert placed[|placed|..] == [];
  }

  predicate ValidSlots(cities: seq<City>, n: int) {
    forall c :: c in cities ==> 1 <= c.owner <= n
  }

  lemma {:induction false} AddedMembers(placed: seq<City>, rest: seq<City>, width: int, height: int, n: int, c: City)
    requires PlayerCount(n) && ValidSlots(rest, n)
    ensures c in Added(placed, rest, width, height, n) <==>
              1 <= c.owner <= n && c !in placed && Partner(c, width, height, n) != c && Partner(c, width, height, n) in rest
    decreases |rest|
  {
    PartnerIsInvolution(c, width, height, n);
    if rest != [] {
      var first := rest[0];
      assert first in rest;
      AddedMembers(placed, rest[1..], width, height, n, c);
      PartnerIsInvolution(first, width, height, n);
      assert Partner(c, width, height, n) in rest <==>
               Partner(c, width, height, n) == first || Partner(c, width, height, n) in rest[1..] by {
        assert rest == [first] + rest[1..];
      }
    }
  }

  lemma {:induction false} AddedHasNoDuplicates(placed: seq<City>, rest: seq<City>, width: int, height: int, n: int)
    requires PlayerCount(n) && ValidSlots(rest, n) && NoDuplicates(rest)
    ensures NoDuplicates(Added(placed, rest, width, height, n))
    decreases |rest|
  {
    if rest != [] {
      var tail := Added(placed, rest[1..], width, height, n);
      AddedHasNoDuplicates(placed, rest[1..], width, height, n);
      assert rest[0] in rest;
      PartnerIsInvolution(rest[0], width, height, n);
      AddedMembers(placed, rest[1..], width, height, n, Partner(rest[0], width, height, n));
      assert rest[0] !in rest[1..];
    }
  }

  /** On distinct cities with valid slots: the placement is kept as given, followed by new cities only; the
      result is free of duplicates, made of cities and partners of cities, and closed under the half-turn. */
  lemma SymmetryEnforced(placed: seq<City>, width: int, height: int, n: int)
    requires PlayerCount(n) && ValidSlots(placed, n) && NoDuplicates(placed)
    ensures var out := Symmetric(placed, width, height, n);
            && placed <= out && NoDuplicates(out) && ValidSlots(out, n)
            && (forall c :: c in out <==> c in placed || (1 <= c.owner <= n && Partner(c, width, height, n) in placed))
            && (forall c :: c in out ==> Partner(c, width, height, n) in out)
  {
    var added := Added(placed, placed, width, height, n);
    var out := Symmetric(placed, width, height, n);
    AddedHasNoDuplicates(placed, placed, width, height, n);
    forall c ensures c in added <==> 1 <= c.owner <= n && c !in placed && Partner(c, width, height, n) != c
                                     && Partner(c, width, height, n) in placed
    {
      AddedMembers(placed, placed, width, height, n, c);
    }
    forall c | c in placed ensures Partner(c, width, height, n) in out {
      PartnerIsInvolution(c, width, height, n);
    }
    forall c | c in added ensures Partner(c, width, height, n) in out {
    }
    NoOverlap(placed, added);
  }

  lemma NoOverlap(a: seq<City>, b: seq<City>)
    requires NoDuplicates(a) && NoDuplicates(b) && forall c :: c in b ==> c !in a
    ensures NoDuplicates(a + b)
  {
    forall i, j | 0 <= i < j < |a + b| ensures (a + b)[i] != (a + b)[j] {
      if i < |a| <= j {
        assert (a + b)[j] in b;
      }
    }
  }

  lemma {:induction false} NothingAdded(placed: seq<City>, rest: seq<City>, width: int, height: int, n: int)
    requires forall c :: c in rest ==> Partner(c, width, height, n) in placed
    ensures Added(placed, rest, width, height, n) == []
    decreases |rest|
  {
    if rest != [] {
      assert rest[0] in rest;
      NothingAdded(placed, rest[1..], width, height, n);
    }
  }

  /** A second pass changes nothing. */
  lemma SymmetryIsIdempotent(placed: seq<City>, width: int, height: int, n: int)
    requires PlayerCount(n) && ValidSlots(placed, n) && NoDuplicates(placed)
    ensures var out := Symmetric(placed, width, height, n); Symmetric(out, width, height, n) == out
  {
    var out := Symmetric(placed, width, height, n);
    SymmetryEnforced(placed, width, height, n);
    NothingAdded(out, out, width, height, n);
  }
}
