/** Decode after encode, encode after decode, and exactly when the first one is lossless. */
module WorldCodecTheorems {
  import opened Js
  import opened EngineTypes
  import opened WorldFormat
  import opened WorldCodecProofs
  import PR = PlayerRegistry
  import Utf16Order

  // Images and buffers -------------------------------------------------------

  predicate RosterOk(r: Roster, count: nat) {
    && PR.Create(r.registry.ids) == Ok(r.registry)
    && count == r.registry.count == |r.slots| == |r.players|
    && PermutationProblem(r.slots, count).None?
    && (forall k :: 0 <= k < |r.players| ==>
          PlayerEncodable(r.players[k]) && r.registry.IdAt(k) == Some(r.players[k].id))
  }

  predicate TerrainOk(b: Terrains, size: nat, count: nat) {
    && |b.cities| <= MAX_U16 && |b.records| == size * size
    && DistinctCells(b.cities) && (forall c :: c in b.cities ==> CityEncodable(c, size, count))
    && (forall r :: r in b.records ==> CellEncodable(r, count))
  }

  predicate ImageOk(im: Image) {
    && FixedInRange(im.fixed)
    && RosterOk(im.roster, im.fixed.playerCount)
    && TerrainOk(im.terrains, im.fixed.boardSize, im.fixed.playerCount)
  }

  lemma TableFacts(registry: PR.Registry)
    requires PR.Create(registry.ids) == Ok(registry)
    ensures Utf16Order.StrictlyAscending(registry.ids) && registry.count == |registry.ids|
    ensures forall id :: id in registry.ids ==> PR.IsPlayerId(id) && IsAscii(id)
  {
    PR.LookupsInvert(registry.ids, registry);
    PR.AcceptsExactly(registry.ids);
    forall id | id in registry.ids ensures IsAscii(id) {
      PlayerIdIsAscii(id);
    }
  }

  lemma RosterRead(r: Roster, count: nat, t: seq<u8>)
    requires RosterOk(r, count) && count <= 4
    ensures ReadRoster(RosterBytes(r, t), count) == Ok((r, t))
  {
    var s0 := r.slots + PlayersBytes(r.players, 0, t);
    var s1 := PlayersBytes(r.players, 0, t);
    assert ReadIds(RosterBytes(r, t), count, []) == Ok((r.registry.ids, s0)) by {
      TableFacts(r.registry);
      assert [] + r.registry.ids == r.registry.ids;
      IdsRead(r.registry.ids, s0, []);
    }
    assert ReadView(s0, count) == Ok((r.slots, s1)) by {
      ViewRead(r.slots, s1);
    }
    assert SlotsResolve(r.slots, r.registry.ids) by {
      TableFacts(r.registry);
      PermutationMeans(r.slots, count);
    }
    assert ReadPlayers(s1, 0, count, r.registry, []) == Ok((r.players, t)) by {
      assert r.players[..0] == [];
      PlayersRead(r.players, 0, r.registry, t);
    }
  }

  lemma RosterCanonical(s: seq<u8>, count: nat)
    requires ReadRoster(s, count).Ok?
    ensures var (r, t) := ReadRoster(s, count).value; RosterOk(r, count) && s == RosterBytes(r, t)
  {
    var (r, t) := ReadRoster(s, count).value;
    var (ids, s0) := ReadIds(s, count, []).value;
    var (slots, s1) := ReadView(s0, count).value;
    assert r.registry.ids == ids && s == IdBytes(ids, s0) by {
      IdsCanonical(s, count, []);
      assert ids[0..] == ids;
      PR.AcceptsExactly(ids);
      PR.AscendingIsKept(ids);
    }
    assert s0 == slots + s1 by {
      ViewCanonical(s0, count);
    }
    assert s1 == PlayersBytes(r.players, 0, t) && |r.players| == count by {
      PlayersCanonical(s1, 0, count, r.registry, []);
    }
    PlayersValid(s1, 0, count, r.registry, []);
  }

  lemma TerrainRead(b: Terrains, size: nat, count: nat, t: seq<u8>)
    requires TerrainOk(b, size, count) && size <= MAX_U8 && count <= 4
    ensures ReadTerrain(TerrainBytes(b, t), size, count) == Ok((b, t))
  {
    var s1 := CellsBytes(b.records, t);
    var s0 := CitiesBytes(b.cities, s1);
    assert ReadWord16(TerrainBytes(b, t)) == Ok((|b.cities|, s0)) by {
      Word16Read(|b.cities|, s0);
    }
    assert ReadCities(s0, |b.cities|, size, count, []) == Ok((b.cities, s1)) by {
      assert [] + b.cities == b.cities;
      CitiesRead(b.cities, size, count, s1, []);
    }
    assert ReadCells(s1, |b.records|, count, []) == Ok((b.records, t)) by {
      assert [] + b.records == b.records;
      CellsRead(b.records, count, t, []);
    }
  }

  lemma TerrainCanonical(s: seq<u8>, size: nat, count: nat)
    requires ReadTerrain(s, size, count).Ok?
    ensures var (b, t) := ReadTerrain(s, size, count).value; TerrainOk(b, size, count) && s == TerrainBytes(b, t)
  {
    var (b, t) := ReadTerrain(s, size, count).value;
    var (cityCount, s0) := ReadWord16(s).value;
    var (cities, s1) := ReadCities(s0, cityCount, size, count, []).value;
    Word16Canonical(s);
    CitiesCanonical(s0, cityCount, size, count, []);
    assert cities[0..] == cities;
    CellsCanonical(s1, size * size, count, []);
    assert b.records[0..] == b.records;
  }

  lemma PayloadRead(im: Image)
    requires ImageOk(im)
    ensures DecodePayload(PayloadBytes(im)) == Ok(im)
  {
    var s1 := TerrainBytes(im.terrains, []);
    var s0 := RosterBytes(im.roster, s1);
    assert ReadFixed(PayloadBytes(im)) == Ok((im.fixed, s0)) by {
      FixedRead(im.fixed, s0);
    }
    assert ReadRoster(s0, im.fixed.playerCount) == Ok((im.roster, s1)) by {
      RosterRead(im.roster, im.fixed.playerCount, s1);
    }
    assert ReadTerrain(s1, im.fixed.boardSize, im.fixed.playerCount) == Ok((im.terrains, [])) by {
      TerrainRead(im.terrains, im.fixed.boardSize, im.fixed.playerCount, []);
    }
  }

  lemma PayloadCanonical(s: seq<u8>)
    requires DecodePayload(s).Ok?
    ensures ImageOk(DecodePayload(s).value) && s == PayloadBytes(DecodePayload(s).value)
  {
    var im := DecodePayload(s).value;
    var (f, s0) := ReadFixed(s).value;
    var (roster, s1) := ReadRoster(s0, f.playerCount).value;
    assert FixedInRange(f) && s == FixedBytes(f, s0) by {
      FixedCanonical(s);
    }
    assert RosterOk(roster, f.playerCount) && s0 == RosterBytes(roster, s1) by {
      RosterCanonical(s0, f.playerCount);
    }
    assert TerrainOk(im.terrains, f.boardSize, f.playerCount) && s1 == TerrainBytes(im.terrains, []) by {
      TerrainCanonical(s1, f.boardSize, f.playerCount);
    }
  }

  // Worlds and images --------------------------------------------------------

  lemma SlotOfWorld(w: World, k: nat)
    requires PR.Create(w.registry.ids) == Ok(w.registry)
    requires k < |w.config.playerIds| && w.registry.IndexOfId(w.config.playerIds[k]).Some?
    ensures 0 <= SlotIndex(w, k) < 4
    ensures At(w.registry.ids, SlotIndex(w, k), []) == w.config.playerIds[k]
  {
    PR.LookupsInvert(w.registry.ids, w.registry);
    PR.AcceptsExactly(w.registry.ids);
    assert w.config.playerIds[k] in w.registry.ids;
  }

  lemma LowBytesKeep(s: seq<int>)
    requires forall k :: 0 <= k < |s| ==> 0 <= s[k] < 256
    ensures LowBytes(s) == s
  {
    var wide: seq<int> := LowBytes(s);
    assert wide == s;
  }

  lemma SlotsOfWorld(w: World)
    requires IdentitiesEncodable(w) && PR.Create(w.registry.ids) == Ok(w.registry)
    ensures PermutationProblem(RosterOf(w).slots, w.registry.count).None?
    ensures PlayerIdsFrom(RosterOf(w)) == w.config.playerIds
  {
    var order := SlotOrder(w);
    forall k | 0 <= k < |order|
      ensures 0 <= order[k] < 256 && At(w.registry.ids, order[k], []) == w.config.playerIds[k]
    {
      SlotOfWorld(w, k);
    }
    LowBytesKeep(order);
    assert PlayerIdsFrom(RosterOf(w)) == w.config.playerIds;
  }

  lemma RosterOfWorld(w: World)
    requires IdentitiesEncodable(w) && PR.Create(w.registry.ids) == Ok(w.registry)
    requires forall p :: p in w.players ==> PlayerEncodable(p)
    ensures RosterOk(RosterOf(w), w.registry.count) && 2 <= w.registry.count <= 4
  {
    SlotsOfWorld(w);
    PR.LookupsInvert(w.registry.ids, w.registry);
    PR.AcceptsExactly(w.registry.ids);
    forall k | 0 <= k < |w.players|
      ensures PlayerEncodable(w.players[k]) && w.registry.IdAt(k) == Some(w.players[k].id)
    {
      assert w.players[k] in w.players;
      assert w.registry.IndexOfId(w.players[k].id) == Some(k);
      assert w.players[k].id in w.registry.ids;
    }
  }

  lemma CellsOfWorld(w: World, n: nat)
    requires StateEncodable(w.state, n, w.registry.count) && ElevationsEncodable(w.board.cells, n) && |w.board.cells| == n && RowMajor(w.board.cells, w.board.width) && w.board.width > 0
    ensures forall r :: r in RecordsOf(w, n) ==> CellEncodable(r, w.registry.count)
    ensures CellsFrom(RecordsOf(w, n), w.board.width) == w.board.cells && StateFrom(RecordsOf(w, n)) == w.state
  {
    var r := RecordsOf(w, n);
    forall i | 0 <= i < n
      ensures CellEncodable(r[i], w.registry.count)
      ensures w.board.cells[i] == Cell(i % w.board.width, i / w.board.width, r[i].elevation, r[i].terrain)
    {
      assert FieldsEncodable(w.state, i, w.registry.count);
    }
    var st := StateFrom(r);
    assert st.troopCounts == w.state.troopCounts && st.troopOwners == w.state.troopOwners;
    assert st.pipeMasks == w.state.pipeMasks && st.reservesPct == w.state.reservesPct;
    assert st.cityOwners == w.state.cityOwners;
  }

  lemma FixedOfWorld(w: World)
    requires NumbersEncodable(w) && 2 <= w.registry.count <= 4
    requires w.tick <= MAX_U32 && 0 <= w.config.seed <= MAX_U32 && 0 <= w.rngSeed <= MAX_U32 && |w.rngState| == 4
    ensures var f := FixedOf(w);
            && FixedInRange(f) && f.playerCount == w.registry.count && f.boardSize == w.board.width
            && f.tick == w.tick && f.seed == w.config.seed == w.rngSeed && f.tickIntervalMs == w.config.tickIntervalMs
            && f.visibilityRadius == w.config.visibilityRadius
            && w.rngState == [f.rng0, f.rng1, f.rng2, f.rng3]
  {
  }

  lemma ImageOfWorld(w: World)
    requires Encodable(w) && Canonical(w)
    ensures ImageOk(ImageOf(w)) && WorldFrom(ImageOf(w)) == w
  {
    var n := w.board.width * w.board.width;
    var im := ImageOf(w);
    assert RosterOk(im.roster, w.registry.count) && 2 <= w.registry.count <= 4 by {
      RosterOfWorld(w);
    }
    FixedOfWorld(w);
    assert PlayerIdsFrom(im.roster) == w.config.playerIds by {
      SlotsOfWorld(w);
    }
    CellsOfWorld(w, n);
    assert TerrainOk(im.terrains, w.board.width, w.registry.count);
    assert WorldFrom(im).config == w.config;
    assert WorldFrom(im).board == w.board;
  }

  lemma SlotOfImage(r: Roster, k: nat)
    requires RosterOk(r, |r.players|) && k < |r.slots|
    ensures r.registry.IndexOfId(PlayerIdsFrom(r)[k]) == Some(r.slots[k])
  {
    PR.LookupsInvert(r.registry.ids, r.registry);
    PermutationMeans(r.slots, r.registry.count);
    assert PlayerIdsFrom(r)[k] == r.registry.ids[r.slots[k]];
  }

  lemma SlotsOfImage(r: Roster, w: World)
    requires RosterOk(r, |r.players|) && w.registry == r.registry && w.config.playerIds == PlayerIdsFrom(r)
    ensures forall k :: 0 <= k < |w.config.playerIds| ==> w.registry.IndexOfId(w.config.playerIds[k]).Some?
    ensures SlotOrder(w) == r.slots && LowBytes(SlotOrder(w)) == r.slots
  {
    forall k | 0 <= k < |r.slots| ensures w.registry.IndexOfId(w.config.playerIds[k]) == Some(r.slots[k]) {
      SlotOfImage(r, k);
    }
    var wide: seq<int> := r.slots;
    assert SlotOrder(w) == wide;
    LowBytesKeep(SlotOrder(w));
  }

  lemma IdentitiesOfImage(im: Image)
    requires ImageOk(im)
    ensures IdentitiesEncodable(WorldFrom(im)) && RosterOf(WorldFrom(im)) == im.roster
  {
    var w, r := WorldFrom(im), im.roster;
    SlotsOfImage(r, w);
    TableFacts(r.registry);
    forall i | 0 <= i < |w.players| ensures w.registry.IndexOfId(w.players[i].id) == Some(i) {
      PR.LookupsInvert(r.registry.ids, r.registry);
      assert r.registry.IdAt(i) == Some(r.players[i].id);
    }
  }

  lemma CellsOfImage(im: Image)
    requires ImageOk(im)
    ensures var w := WorldFrom(im);
            && StateEncodable(w.state, |im.terrains.records|, w.registry.count)
            && ElevationsEncodable(w.board.cells, |im.terrains.records|) && RecordsOf(w, |im.terrains.records|) == im.terrains.records
            && RowMajor(w.board.cells, w.board.width)
  {
    var w, r := WorldFrom(im), im.terrains.records;
    forall i | 0 <= i < |r| ensures RecordAt(w, i) == r[i] && FieldsEncodable(w.state, i, w.registry.count) {
      assert r[i] in r;
    }
    assert RecordsOf(w, |r|) == r;
  }

  lemma PlayersOfImage(im: Image)
    requires RosterOk(im.roster, im.fixed.playerCount)
    ensures forall p :: p in im.roster.players ==> PlayerEncodable(p)
  {
    forall p | p in im.roster.players ensures PlayerEncodable(p) {
      var k :| 0 <= k < |im.roster.players| && im.roster.players[k] == p;
      assert PlayerEncodable(im.roster.players[k]);
    }
  }

  lemma FixedOfImage(im: Image)
    requires FixedInRange(im.fixed) && im.roster.registry.count == im.fixed.playerCount
    ensures FixedOf(WorldFrom(im)) == im.fixed
  {
  }

  lemma WorldOfImage(im: Image)
    requires ImageOk(im)
    ensures Encodable(WorldFrom(im)) && Canonical(WorldFrom(im)) && ImageOf(WorldFrom(im)) == im
  {
    var w := WorldFrom(im);
    IdentitiesOfImage(im);
    CellsOfImage(im);
    PlayersOfImage(im);
    FixedOfImage(im);
    assert NumbersEncodable(w);
  }

  // Main results -------------------------------------------------------------

  /** Decode undoes encode on every canonical world. */
  lemma DecodeUndoesEncode(w: World)
    requires Encodable(w) && Canonical(w)
    ensures Decode(Bytes(w)) == Ok(w)
  {
    ImageOfWorld(w);
    HeaderRead(PayloadBytes(ImageOf(w)));
    PayloadRead(ImageOf(w));
  }

  /** Encode undoes decode: what the reader accepts is exactly what the writer emits for the result. */
  lemma EncodeUndoesDecode(s: seq<u8>)
    requires Decode(s).Ok?
    ensures Encodable(Decode(s).value) && Canonical(Decode(s).value) && Bytes(Decode(s).value) == s
  {
    HeaderCanonical(s);
    var payload := ReadHeader(s).value.1;
    PayloadCanonical(payload);
    WorldOfImage(DecodePayload(payload).value);
  }

  /** For a world the writer accepts, the round trip is lossless exactly when it is canonical. */
  lemma LosslessIffCanonical(w: World)
    requires Encodable(w)
    ensures Decode(Bytes(w)) == Ok(w) <==> Canonical(w)
  {
    if Canonical(w) {
      DecodeUndoesEncode(w);
    }
    if Decode(Bytes(w)) == Ok(w) {
      EncodeUndoesDecode(Bytes(w));
    }
  }

  /** No two accepted buffers decode to one world, and no two canonical worlds share a buffer. */
  lemma CodecIsInjective(s: seq<u8>, t: seq<u8>, v: World, w: World)
    ensures Decode(s).Ok? && Decode(s) == Decode(t) ==> s == t
    ensures Encodable(v) && Canonical(v) && Encodable(w) && Canonical(w) && Bytes(v) == Bytes(w) ==> v == w
  {
    if Decode(s).Ok? && Decode(s) == Decode(t) {
      EncodeUndoesDecode(s);
      EncodeUndoesDecode(t);
    }
    if Encodable(v) && Canonical(v) && Encodable(w) && Canonical(w) && Bytes(v) == Bytes(w) {
      DecodeUndoesEncode(v);
      DecodeUndoesEncode(w);
    }
  }

  // What a non-canonical world loses -----------------------------------------

  const SAMPLE_IDS: seq<JsString> := [seq(12, _ => 0x41), seq(12, _ => 0x42)]

  /** An empty two-player 8 by 8 board at a given tick, with given cities. */
  function Sample(tick: int, cities: seq<City>): World {
    var players := seq(2, i requires 0 <= i < 2 => Player(SAMPLE_IDS[i], [], Alive, 0, 0));
    World(MatchConfig(8, SAMPLE_IDS, 250, 7, 4), tick,
          Board(8, 8, seq(64, i => Cell(i % 8, i / 8, 0, Land)), cities),
          players,
          WorldState(seq(64, _ => 0), seq(64, _ => 0), seq(64, _ => 0), seq(64, _ => 0), seq(64, _ => 0)),
          7, [1, 2, 3, 4], PR.RegistryOf(SAMPLE_IDS))
  }

  lemma SampleRegistry()
    ensures PR.Create(SAMPLE_IDS) == Ok(PR.RegistryOf(SAMPLE_IDS))
    ensures PR.RegistryOf(SAMPLE_IDS).IndexOfId(SAMPLE_IDS[0]) == Some(0)
    ensures PR.RegistryOf(SAMPLE_IDS).IndexOfId(SAMPLE_IDS[1]) == Some(1)
  {
    assert SAMPLE_IDS[0][0] == 0x41 && SAMPLE_IDS[1][0] == 0x42;
    assert Utf16Order.StrictlyAscending(SAMPLE_IDS);
    assert PR.IsPlayerId(SAMPLE_IDS[0]) && PR.IsPlayerId(SAMPLE_IDS[1]);
    PR.AscendingIsKept(SAMPLE_IDS);
    PR.LookupsInvert(SAMPLE_IDS, PR.RegistryOf(SAMPLE_IDS));
  }

  lemma SampleIdentities(tick: int, cities: seq<City>)
    ensures IdentitiesEncodable(Sample(tick, cities))
  {
    var w := Sample(tick, cities);
    SampleRegistry();
    TableFacts(w.registry);
    assert SlotOrder(w) == [0, 1];
    PermutationMeans([0, 1], 2);
  }

  lemma SampleCells(tick: int, cities: seq<City>)
    ensures StateEncodable(Sample(tick, cities).state, 64, 2) && ElevationsEncodable(Sample(tick, cities).board.cells, 64)
    ensures RowMajor(Sample(tick, cities).board.cells, 8)
  {
  }

  lemma SampleIsAccepted(tick: int, cities: seq<City>)
    requires tick >= 0 && |cities| <= MAX_U16 && forall c :: c in cities ==> CityEncodable(c, 8, 2)
    ensures Encodable(Sample(tick, cities))
    ensures Canonical(Sample(tick, cities)) <==> tick <= MAX_U32 && DistinctCells(cities)
  {
    var w := Sample(tick, cities);
    SampleIdentities(tick, cities);
    SampleCells(tick, cities);
    SampleRegistry();
    assert NumbersEncodable(w);
    forall p | p in w.players ensures PlayerEncodable(p) {
    }
  }

  /** The image holds the tick counter modulo 2^32 only. */
  lemma ImageSeesTickModulo32Bits(w: World, v: World)
    requires HasCells(w) && v == w.(tick := v.tick) && ToUint32(v.tick) == ToUint32(w.tick)
    ensures ImageOf(v) == ImageOf(w)
  {
    var n := w.board.width * w.board.width;
    assert SlotOrder(v) == SlotOrder(w) by {
      forall k | 0 <= k < |SlotOrder(v)| ensures SlotIndex(v, k) == SlotIndex(w, k) {
      }
    }
    assert RecordsOf(v, n) == RecordsOf(w, n) by {
      forall i | 0 <= i < n ensures RecordAt(v, i) == RecordAt(w, i) {
      }
    }
  }

  /** A tick counter of 2^32 passes every check of the writer and comes back as 0. */
  lemma LongTickIsTruncated()
    ensures Encodable(Sample(0x1_0000_0000, [])) && Decode(Bytes(Sample(0x1_0000_0000, []))) == Ok(Sample(0, []))
  {
    SampleIsAccepted(0x1_0000_0000, []);
    SampleIsAccepted(0, []);
    ImageSeesTickModulo32Bits(Sample(0, []), Sample(0x1_0000_0000, []));
    DecodeUndoesEncode(Sample(0, []));
  }

  /** Two cities on one cell pass every check of the writer and never come back. */
  lemma DuplicateCityIsLost()
    ensures var w := Sample(0, [City(Coord(1, 1), 1), City(Coord(1, 1), 2)]);
            Encodable(w) && Decode(Bytes(w)) != Ok(w)
  {
    var cities := [City(Coord(1, 1), 1), City(Coord(1, 1), 2)];
    SampleIsAccepted(0, cities);
    assert cities[0].cell == cities[1].cell;
    LosslessIffCanonical(Sample(0, cities));
  }
}
