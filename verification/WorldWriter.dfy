/** `serializeWorld` as the source runs it: validation loops, an exactly sized buffer, and a write
    cursor. `SerializeWorld` is proved to succeed exactly on encodable worlds and to produce the
    layout `Bytes`. */
module WorldWriter {
  import opened Js
  import opened EngineTypes
  import opened WorldFormat
  import PR = PlayerRegistry
  import Utf16Order
  import WorldReader

  datatype SerializationError = NotSerializable

  // The layout as a concatenation --------------------------------------------

  lemma {:induction false} IdsConcat(a: seq<JsString>, b: seq<JsString>, t: seq<u8>)
    ensures IdBytes(a + b, t) == IdBytes(a, []) + IdBytes(b, t)
  {
    if a == [] {
      assert a + b == b;
    } else {
      assert (a + b)[1..] == a[1..] + b;
      IdsConcat(a[1..], b, t);
    }
  }

  lemma {:induction false} PlayersConcat(ps: seq<Player>, i: nat, k: nat, t: seq<u8>)
    requires i <= k <= |ps|
    ensures PlayersBytes(ps, i, t) == PlayersBytes(ps[..k], i, []) + PlayersBytes(ps, k, t)
    decreases k - i
  {
    if i < k {
      PlayersConcat(ps, i + 1, k, t);
      PlayerTail(ps[i], i, PlayersBytes(ps[..k], i + 1, []), PlayersBytes(ps, k, t));
    }
  }

  lemma PlayerTail(p: Player, i: nat, s: seq<u8>, t: seq<u8>)
    ensures PlayerBytes(p, i, s + t) == PlayerBytes(p, i, s) + t
  {
    var name := AsciiBytes(p.displayName);
    assert name + (s + t) == (name + s) + t;
  }

  lemma {:induction false} CitiesConcat(a: seq<City>, b: seq<City>, t: seq<u8>)
    ensures CitiesBytes(a + b, t) == CitiesBytes(a, []) + CitiesBytes(b, t)
    ensures |CitiesBytes(a, [])| == 3 * |a|
  {
    if a == [] {
      assert a + b == b;
    } else {
      assert (a + b)[1..] == a[1..] + b;
      CitiesConcat(a[1..], b, t);
    }
  }

  lemma {:induction false} CellsConcat(a: seq<CellRecord>, b: seq<CellRecord>, t: seq<u8>)
    ensures CellsBytes(a + b, t) == CellsBytes(a, []) + CellsBytes(b, t)
    ensures |CellsBytes(a, [])| == 10 * |a|
  {
    if a == [] {
      assert a + b == b;
    } else {
      assert (a + b)[1..] == a[1..] + b;
      CellsConcat(a[1..], b, t);
      assert CellBytes(a[0], CellsBytes(a[1..], []) + CellsBytes(b, t))
          == CellBytes(a[0], CellsBytes(a[1..], [])) + CellsBytes(b, t);
    }
  }

  // Checks -------------------------------------------------------------------

  method EncodeAscii(value: JsString) returns (r: Result<seq<u8>, SerializationError>)
    ensures r == if IsAscii(value) then Ok(AsciiBytes(value)) else Err(NotSerializable)
  {
    var out := new u8[|value|](_ => 0);
    for i := 0 to |value|
      invariant forall k :: 0 <= k < i ==> value[k] <= 0x7f && out[k] == LowByte(value[k])
    {
      var code := value[i];
      if code > 0x7f {
        return Err(NotSerializable);
      }
      out[i] := code;
    }
    assert out[..] == AsciiBytes(value);
    return Ok(out[..]);
  }

  method ResolveIdentityLayout(w: World) returns (r: Result<seq<int>, SerializationError>)
    ensures r.Ok? <==> LayoutConsistent(w)
    ensures r.Ok? ==> r.value == SlotOrder(w)
  {
    var registry, count := w.registry, w.registry.count;
    if |registry.ids| != count || |w.config.playerIds| != count || |w.players| != count {
      return Err(NotSerializable);
    }
    var slotOrder: seq<int> := [];
    for k := 0 to |w.config.playerIds|
      invariant slotOrder == SlotOrder(w)[..k]
      invariant forall j :: 0 <= j < k ==> registry.IndexOfId(w.config.playerIds[j]).Some?
    {
      var index := registry.IndexOfId(w.config.playerIds[k]);
      if index.None? {
        return Err(NotSerializable);
      }
      slotOrder := slotOrder + [index.value];
      assert SlotOrder(w)[..k + 1] == SlotOrder(w)[..k] + [SlotIndex(w, k)];
    }
    assert slotOrder == SlotOrder(w);
    var slotProblem := WorldReader.FindPermutationProblem(slotOrder, count);
    if slotProblem.Some? {
      return Err(NotSerializable);
    }
    for i := 0 to |w.players|
      invariant forall j :: 0 <= j < i ==> registry.IndexOfId(w.players[j].id) == Some(j)
    {
      var index := registry.IndexOfId(w.players[i].id);
      if index.None? || index.value != i {
        return Err(NotSerializable);
      }
    }
    return Ok(slotOrder);
  }

  method CheckTable(ids: seq<JsString>) returns (r: Result<(seq<seq<u8>>, nat), SerializationError>)
    ensures r.Ok? <==> TableEncodable(ids)
    ensures r.Ok? ==> r.value.0 == seq(|ids|, i requires 0 <= i < |ids| => AsciiBytes(ids[i]))
    ensures r.Ok? ==> r.value.1 == |IdBytes(ids, [])|
  {
    var next := 1;
    while next < |ids|
      invariant 1 <= next
      invariant forall k :: 0 < k < next && k < |ids| ==> Utf16Order.Compare(ids[k - 1], ids[k]) < 0
    {
      var order := Utf16Order.CompareUtf16(ids[next - 1], ids[next]);
      if order >= 0 {
        return Err(NotSerializable);
      }
      next := next + 1;
    }
    var idBytes: seq<seq<u8>> := [];
    var idTableLen := 0;
    for i := 0 to |ids|
      invariant forall k :: 0 <= k < i ==> IsAscii(ids[k]) && |ids[k]| == PR.PLAYER_ID_LENGTH
      invariant idBytes == seq(i, k requires 0 <= k < i => AsciiBytes(ids[k]))
      invariant idTableLen == |IdBytes(ids[..i], [])|
    {
      var bytes := EncodeAscii(ids[i]);
      if bytes.Err? || |bytes.value| != PR.PLAYER_ID_LENGTH {
        return Err(NotSerializable);
      }
      idBytes := idBytes + [bytes.value];
      idTableLen := idTableLen + 1 + |bytes.value|;
      assert ids[..i + 1] == ids[..i] + [ids[i]];
      IdsConcat(ids[..i], [ids[i]], []);
    }
    assert ids[..|ids|] == ids;
    return Ok((idBytes, idTableLen));
  }

  method CheckPlayers(players: seq<Player>) returns (r: Result<(seq<seq<u8>>, nat), SerializationError>)
    ensures r.Ok? <==> forall i :: 0 <= i < |players| ==> PlayerEncodable(players[i])
    ensures r.Ok? ==> r.value.0 == seq(|players|, i requires 0 <= i < |players| => AsciiBytes(players[i].displayName))
    ensures r.Ok? ==> r.value.1 == |PlayersBytes(players, 0, [])|
  {
    var nameBytesList: seq<seq<u8>> := [];
    var playersLen := 0;
    for i := 0 to |players|
      invariant forall k :: 0 <= k < i ==> PlayerEncodable(players[k])
      invariant nameBytesList == seq(i, k requires 0 <= k < i => AsciiBytes(players[k].displayName))
      invariant playersLen == |PlayersBytes(players[..i], 0, [])|
    {
      var p := players[i];
      if p.citiesOwned < 0 || p.citiesOwned > MAX_U8 {
        return Err(NotSerializable);
      }
      if p.troopsHeld < 0 || p.troopsHeld > MAX_U32 {
        return Err(NotSerializable);
      }
      var nameBytes := EncodeAscii(p.displayName);
      if nameBytes.Err? || |nameBytes.value| > MAX_U8 {
        return Err(NotSerializable);
      }
      nameBytesList := nameBytesList + [nameBytes.value];
      playersLen := playersLen + 1 + 1 + 1 + 4 + 1 + |nameBytes.value|;
      NextPlayer(players, i);
    }
    assert players[..|players|] == players;
    return Ok((nameBytesList, playersLen));
  }

  lemma NextPlayer(ps: seq<Player>, i: nat)
    requires i < |ps|
    ensures PlayersBytes(ps[..i + 1], 0, []) == PlayersBytes(ps[..i], 0, []) + PlayerBytes(ps[i], i, [])
    ensures |PlayerBytes(ps[i], i, [])| == 8 + |ps[i].displayName|
  {
    PlayersConcat(ps[..i + 1], 0, i, []);
    assert ps[..i + 1][..i] == ps[..i];
  }

  method CheckCities(cities: seq<City>, w: int, playerCount: nat) returns (ok: bool)
    ensures ok <==> forall i :: 0 <= i < |cities| ==> CityEncodable(cities[i], w, playerCount)
  {
    for i := 0 to |cities|
      invariant forall k :: 0 <= k < i ==> CityEncodable(cities[k], w, playerCount)
    {
      var city := cities[i];
      if city.cell.x < 0 || city.cell.x >= w {
        return false;
      }
      if city.cell.y < 0 || city.cell.y >= w {
        return false;
      }
      if city.owner < 1 || city.owner > playerCount {
        return false;
      }
    }
    return true;
  }

  method ValidateCellFields(st: WorldState, n: nat, playerCount: nat) returns (ok: bool)
    requires |st.troopCounts| == |st.troopOwners| == n
    ensures ok <==> StateEncodable(st, n, playerCount)
  {
    if |st.cityOwners| != n || |st.pipeMasks| != n || |st.reservesPct| != n {
      return false;
    }
    for i := 0 to n
      invariant forall k :: 0 <= k < i ==> FieldsEncodable(st, k, playerCount)
    {
      if st.troopOwners[i] > playerCount || st.cityOwners[i] > playerCount
         || st.pipeMasks[i] > MAX_PIPE_MASK || st.reservesPct[i] > MAX_RESERVES_PCT {
        assert !FieldsEncodable(st, i, playerCount);
        return false;
      }
    }
    return true;
  }

  // Writing ------------------------------------------------------------------

  /** `out.set(bytes, p)`, and single-byte stores. */
  method Put(out: array<u8>, p: nat, bytes: seq<u8>) returns (q: nat)
    requires p + |bytes| <= out.Length
    modifies out
    ensures q == p + |bytes| && out[..q] == old(out[..p]) + bytes
  {
    for i := 0 to |bytes|
      invariant out[..p] == old(out[..p])
      invariant forall k :: 0 <= k < i ==> out[p + k] == bytes[k]
    {
      out[p + i] := bytes[i];
    }
    q := p + |bytes|;
    assert out[p..q] == bytes;
    assert out[..q] == out[..p] + out[p..q];
  }

  /** `dv.setUint32(p, value, true)`. */
  method PutUint32(out: array<u8>, p: nat, value: u32) returns (q: nat)
    requires p + 4 <= out.Length
    modifies out
    ensures q == p + 4 && out[..q] == old(out[..p]) + Word32(value, [])
  {
    q := Put(out, p, [value % 0x100, value / 0x100 % 0x100, value / 0x1_0000 % 0x100, value / 0x100_0000]);
  }

  method PutRng(out: array<u8>, p: nat, f: Fixed) returns (q: nat)
    requires p + 17 <= out.Length
    modifies out
    ensures q == p + 17 && out[..q] == old(out[..p]) + RngBytes(f, [])
  {
    q := PutUint32(out, p, f.rng0);
    q := PutUint32(out, q, f.rng1);
    q := PutUint32(out, q, f.rng2);
    q := PutUint32(out, q, f.rng3);
    q := Put(out, q, [f.playerCount]);
  }

  method PutFixed(out: array<u8>, f: Fixed) returns (q: nat)
    requires 33 <= out.Length
    modifies out
    ensures q == 33 && out[..q] == FixedBytes(f, [])
  {
    q := Put(out, 0, [FORMAT_VERSION, f.boardSize, f.playerCount]);
    q := PutUint32(out, q, f.tick);
    q := PutUint32(out, q, f.seed);
    q := PutUint32(out, q, f.tickIntervalMs);
    q := Put(out, q, [f.visibilityRadius]);
    ghost var head := out[..q];
    q := PutRng(out, q, f);
    FixedHead(f, head);
  }

  lemma FixedHead(f: Fixed, head: seq<u8>)
    requires head == [FORMAT_VERSION, f.boardSize, f.playerCount] + Word32(f.tick, []) + Word32(f.seed, [])
                     + Word32(f.tickIntervalMs, []) + [f.visibilityRadius]
    ensures head + RngBytes(f, []) == FixedBytes(f, [])
  {
    var t3 := [f.visibilityRadius] + RngBytes(f, []);
    var t2 := Word32(f.tickIntervalMs, []) + t3;
    var t1 := Word32(f.seed, []) + t2;
    FixedNested(f);
    WordThen(f.tickIntervalMs, t3);
    WordThen(f.seed, t2);
    WordThen(f.tick, t1);
    Nested([FORMAT_VERSION, f.boardSize, f.playerCount], Word32(f.tick, []), Word32(f.seed, []),
           Word32(f.tickIntervalMs, []), [f.visibilityRadius], RngBytes(f, []));
  }

  lemma FixedNested(f: Fixed)
    ensures FixedBytes(f, []) == [FORMAT_VERSION, f.boardSize, f.playerCount]
            + Word32(f.tick, Word32(f.seed, Word32(f.tickIntervalMs, [f.visibilityRadius] + RngBytes(f, []))))
  {
    ThreeBytes(FORMAT_VERSION, f.boardSize, f.playerCount,
               Word32(f.tick, Word32(f.seed, Word32(f.tickIntervalMs, [f.visibilityRadius] + RngBytes(f, [])))));
  }

  lemma ThreeBytes(a: u8, b: u8, c: u8, t: seq<u8>)
    ensures Byte(a, Byte(b, Byte(c, t))) == [a, b, c] + t
  {
  }

  lemma WordThen(x: u32, t: seq<u8>)
    ensures Word32(x, t) == Word32(x, []) + t
  {
  }

  lemma Nested(a: seq<u8>, b: seq<u8>, c: seq<u8>, d: seq<u8>, e: seq<u8>, z: seq<u8>)
    ensures a + b + c + d + e + z == a + (b + (c + (d + (e + z))))
  {
  }

  method PutIds(out: array<u8>, p: nat, idBytes: seq<seq<u8>>, ghost ids: seq<JsString>) returns (q: nat)
    requires idBytes == seq(|ids|, i requires 0 <= i < |ids| => AsciiBytes(ids[i]))
    requires p + |IdBytes(ids, [])| <= out.Length
    modifies out
    ensures q == p + |IdBytes(ids, [])| && out[..q] == old(out[..p]) + IdBytes(ids, [])
  {
    q := p;
    for i := 0 to |idBytes|
      invariant q == p + |IdBytes(ids[..i], [])|
      invariant q <= out.Length && out[..q] == old(out[..p]) + IdBytes(ids[..i], [])
    {
      ghost var done := out[..q];
      NextId(ids, i);
      q := Put(out, q, [LowByte(|idBytes[i]|)]);
      q := Put(out, q, idBytes[i]);
      assert out[..q] == done + ([LowByte(|idBytes[i]|)] + idBytes[i]);
    }
    assert ids[..|ids|] == ids;
  }

  lemma NextId(ids: seq<JsString>, i: nat)
    requires i < |ids|
    ensures IdBytes(ids[..i + 1], []) == IdBytes(ids[..i], []) + ([LowByte(|ids[i]|)] + AsciiBytes(ids[i]))
    ensures |IdBytes(ids[..i + 1], [])| <= |IdBytes(ids, [])|
  {
    assert ids[..i + 1] == ids[..i] + [ids[i]];
    IdsConcat(ids[..i], [ids[i]], []);
    assert IdBytes([ids[i]], []) == [LowByte(|ids[i]|)] + AsciiBytes(ids[i]);
    assert ids == ids[..i + 1] + ids[i + 1..];
    IdsConcat(ids[..i + 1], ids[i + 1..], []);
  }

  method PutPlayers(out: array<u8>, p: nat, players: seq<Player>, names: seq<seq<u8>>) returns (q: nat)
    requires names == seq(|players|, i requires 0 <= i < |players| => AsciiBytes(players[i].displayName))
    requires p + |PlayersBytes(players, 0, [])| <= out.Length
    modifies out
    ensures q == p + |PlayersBytes(players, 0, [])| && out[..q] == old(out[..p]) + PlayersBytes(players, 0, [])
  {
    q := p;
    for i := 0 to |players|
      invariant q == p + |PlayersBytes(players[..i], 0, [])|
      invariant q <= out.Length && out[..q] == old(out[..p]) + PlayersBytes(players[..i], 0, [])
    {
      NextPlayer(players, i);
      PlayersConcat(players, 0, i + 1, []);
      q := PutPlayer(out, q, i, players[i], names[i]);
    }
    assert players[..|players|] == players;
  }

  method PutPlayer(out: array<u8>, p: nat, i: nat, player: Player, name: seq<u8>) returns (q: nat)
    requires name == AsciiBytes(player.displayName) && p + 8 + |name| <= out.Length
    modifies out
    ensures q == p + 8 + |name| && out[..q] == old(out[..p]) + PlayerBytes(player, i, [])
  {
    q := Put(out, p, [LowByte(i), StatusByte(player.status), LowByte(player.citiesOwned)]);
    q := PutUint32(out, q, ToUint32(player.troopsHeld));
    q := Put(out, q, [LowByte(|name|)]);
    q := Put(out, q, name);
  }

  method PutCities(out: array<u8>, p: nat, cities: seq<City>) returns (q: nat)
    requires p + 3 * |cities| <= out.Length
    modifies out
    ensures q == p + 3 * |cities| && out[..q] == old(out[..p]) + CitiesBytes(cities, [])
  {
    q := p;
    for i := 0 to |cities|
      invariant q == p + 3 * i
      invariant out[..q] == old(out[..p]) + CitiesBytes(cities[..i], [])
    {
      ghost var done := out[..q];
      var city := cities[i];
      q := Put(out, q, [LowByte(city.cell.x), LowByte(city.cell.y), LowByte(city.owner)]);
      assert cities[..i + 1] == cities[..i] + [city];
      CitiesConcat(cities[..i], [city], []);
      assert out[..q] == done + CitiesBytes([city], []);
    }
    assert cities[..|cities|] == cities;
  }

  method PutCells(out: array<u8>, p: nat, w: World, n: nat) returns (r: Result<nat, SerializationError>)
    requires p + 10 * n <= out.Length
    requires |w.state.troopCounts| == |w.state.troopOwners| == |w.state.pipeMasks| == n
    requires |w.state.reservesPct| == |w.state.cityOwners| == n
    modifies out
    ensures r.Ok? <==> ElevationsEncodable(w.board.cells, n)
    ensures r.Ok? ==> r.value == p + 10 * n && out[..r.value] == old(out[..p]) + CellsBytes(RecordsOf(w, n), [])
  {
    var q := p;
    for i := 0 to n
      invariant q == p + 10 * i && i <= |w.board.cells|
      invariant forall k :: 0 <= k < i ==> 0 <= w.board.cells[k].elevation <= MAX_U8
      invariant out[..q] == old(out[..p]) + CellsBytes(RecordsOf(w, i), [])
    {
      if i >= |w.board.cells| {
        return Err(NotSerializable);
      }
      var cell := w.board.cells[i];
      if cell.elevation < 0 || cell.elevation > MAX_U8 {
        return Err(NotSerializable);
      }
      NextCell(w, i, old(out[..p]), out[..q]);
      q := PutCell(out, q, RecordAt(w, i));
    }
    return Ok(q);
  }

  /** A buffer that ends in the first `i` records ends, one record later, in the first `i + 1`. */
  lemma NextCell(w: World, i: nat, before: seq<u8>, done: seq<u8>)
    requires i < |w.board.cells| && done == before + CellsBytes(RecordsOf(w, i), [])
    ensures done + CellBytes(RecordAt(w, i), []) == before + CellsBytes(RecordsOf(w, i + 1), [])
  {
    CellAppended(w, i);
    Joined(before, CellsBytes(RecordsOf(w, i), []), CellBytes(RecordAt(w, i), []));
  }

  lemma CellAppended(w: World, i: nat)
    requires i < |w.board.cells|
    ensures CellsBytes(RecordsOf(w, i + 1), []) == CellsBytes(RecordsOf(w, i), []) + CellBytes(RecordAt(w, i), [])
  {
    var c := RecordAt(w, i);
    assert RecordsOf(w, i + 1) == RecordsOf(w, i) + [c];
    CellsConcat(RecordsOf(w, i), [c], []);
    assert CellsBytes([c], []) == CellBytes(c, []);
  }

  lemma Joined(a: seq<u8>, b: seq<u8>, c: seq<u8>)
    ensures a + b + c == a + (b + c)
  {
  }

  method PutCell(out: array<u8>, p: nat, c: CellRecord) returns (q: nat)
    requires p + 10 <= out.Length
    modifies out
    ensures q == p + 10 && out[..q] == old(out[..p]) + CellBytes(c, [])
  {
    q := PutUint32(out, p, c.troopCount);
    q := Put(out, q, [c.troopOwner, c.pipeMask, c.reservesPct, c.cityOwner, c.elevation,
                      if c.terrain == Water then 1 else 0]);
  }

  // The whole buffer ---------------------------------------------------------

  lemma TerrainConcat(b: Terrains)
    ensures TerrainBytes(b, []) == Word16(|b.cities|, []) + CitiesBytes(b.cities, []) + CellsBytes(b.records, [])
  {
    var cells := CellsBytes(b.records, []);
    assert b.cities + [] == b.cities;
    CitiesConcat(b.cities, [], cells);
    assert TerrainBytes(b, []) == Word16(|b.cities|, []) + CitiesBytes(b.cities, cells);
  }

  lemma RosterConcat(r: Roster, t: seq<u8>)
    ensures RosterBytes(r, t) == IdBytes(r.registry.ids, []) + r.slots + PlayersBytes(r.players, 0, []) + t
  {
    var ids := r.registry.ids;
    assert ids + [] == ids && r.players[..|r.players|] == r.players;
    PlayersConcat(r.players, 0, |r.players|, t);
    IdsConcat(ids, [], r.slots + PlayersBytes(r.players, 0, t));
  }

  lemma PayloadConcat(f: Fixed, r: Roster, b: Terrains)
    ensures PayloadBytes(Image(f, r, b))
            == FixedBytes(f, []) + IdBytes(r.registry.ids, []) + r.slots + PlayersBytes(r.players, 0, [])
               + Word16(|b.cities|, []) + CitiesBytes(b.cities, []) + CellsBytes(b.records, [])
  {
    TerrainConcat(b);
    RosterConcat(r, TerrainBytes(b, []));
    FixedTail(f, RosterBytes(r, TerrainBytes(b, [])));
    Flat(FixedBytes(f, []), IdBytes(r.registry.ids, []), r.slots, PlayersBytes(r.players, 0, []),
         Word16(|b.cities|, []), CitiesBytes(b.cities, []), CellsBytes(b.records, []));
  }

  lemma Flat(a: seq<u8>, b: seq<u8>, c: seq<u8>, d: seq<u8>, e: seq<u8>, g: seq<u8>, h: seq<u8>)
    ensures a + (b + c + d + (e + g + h)) == a + b + c + d + e + g + h
  {
  }

  lemma FixedTail(f: Fixed, t: seq<u8>)
    ensures FixedBytes(f, t) == FixedBytes(f, []) + t && |FixedBytes(f, [])| == 33
  {
  }

  method PutCityBlock(out: array<u8>, p: nat, cities: seq<City>) returns (q: nat)
    requires |cities| <= MAX_U16 && p + 2 + 3 * |cities| <= out.Length
    modifies out
    ensures q == p + 2 + 3 * |cities|
    ensures out[..q] == old(out[..p]) + Word16(|cities|, []) + CitiesBytes(cities, [])
  {
    q := Put(out, p, [|cities| % 0x100, |cities| / 0x100 % 0x100]);
    q := PutCities(out, q, cities);
  }

  /** Every block in front of the cells. */
  function HeadBytes(f: Fixed, ids: seq<JsString>, slots: seq<u8>, players: seq<Player>, cities: seq<City>): seq<u8> {
    FixedBytes(f, []) + IdBytes(ids, []) + slots + PlayersBytes(players, 0, []) + Word16(|cities|, []) + CitiesBytes(cities, [])
  }

  method PutHead(out: array<u8>, f: Fixed, ghost ids: seq<JsString>, idBytes: seq<seq<u8>>, slots: seq<u8>,
                 players: seq<Player>, names: seq<seq<u8>>, cities: seq<City>) returns (p: nat)
    requires |cities| <= MAX_U16
    requires idBytes == seq(|ids|, i requires 0 <= i < |ids| => AsciiBytes(ids[i]))
    requires names == seq(|players|, i requires 0 <= i < |players| => AsciiBytes(players[i].displayName))
    requires 33 + |IdBytes(ids, [])| + |slots| + |PlayersBytes(players, 0, [])| + 2 + 3 * |cities| <= out.Length
    modifies out
    ensures p == 33 + |IdBytes(ids, [])| + |slots| + |PlayersBytes(players, 0, [])| + 2 + 3 * |cities| <= out.Length
    ensures out[..p] == HeadBytes(f, ids, slots, players, cities)
  {
    p := PutFixed(out, f);
    p := PutIds(out, p, idBytes, ids);
    p := Put(out, p, slots);
    p := PutPlayers(out, p, players, names);
    p := PutCityBlock(out, p, cities);
  }

  method EncodePayload(w: World) returns (r: Result<seq<u8>, SerializationError>)
    ensures r.Ok? <==> Encodable(w)
    ensures r.Ok? ==> r.value == PayloadBytes(ImageOf(w))
  {
    if !NumbersEncodable(w) {
      return Err(NotSerializable);
    }
    var n := w.board.width * w.board.width;
    if |w.state.troopCounts| != n || |w.state.troopOwners| != n {
      return Err(NotSerializable);
    }
    var slotOrder := ResolveIdentityLayout(w);
    if slotOrder.Err? {
      return Err(NotSerializable);
    }
    var playerCount := |w.registry.ids|;
    var table := CheckTable(w.registry.ids);
    if table.Err? {
      return Err(NotSerializable);
    }
    var names := CheckPlayers(w.players);
    if names.Err? {
      return Err(NotSerializable);
    }
    var citiesOk := CheckCities(w.board.cities, w.board.width, playerCount);
    if !citiesOk {
      return Err(NotSerializable);
    }
    var cellsOk := ValidateCellFields(w.state, n, playerCount);
    if !cellsOk {
      return Err(NotSerializable);
    }
    r := WriteBuffer(w, n, slotOrder.value, table.value, names.value);
  }

  method WriteBuffer(w: World, n: nat, slotOrder: seq<int>, table: (seq<seq<u8>>, nat), names: (seq<seq<u8>>, nat))
    returns (r: Result<seq<u8>, SerializationError>)
    requires w.board.width >= 0 && n == w.board.width * w.board.width
    requires slotOrder == SlotOrder(w) && |w.board.cities| <= MAX_U16
    requires table.0 == seq(|w.registry.ids|, i requires 0 <= i < |w.registry.ids| => AsciiBytes(w.registry.ids[i]))
    requires names.0 == seq(|w.players|, i requires 0 <= i < |w.players| => AsciiBytes(w.players[i].displayName))
    requires table.1 == |IdBytes(w.registry.ids, [])| && names.1 == |PlayersBytes(w.players, 0, [])|
    requires |w.state.troopCounts| == |w.state.troopOwners| == |w.state.pipeMasks| == n
    requires |w.state.reservesPct| == |w.state.cityOwners| == n
    ensures r.Ok? <==> ElevationsEncodable(w.board.cells, n)
    ensures r.Ok? ==> r.value == PayloadBytes(ImageOf(w))
  {
    var fixedLen := 1 + 1 + 1 + 4 + 4 + 4 + 1 + 16 + 1;
    var citiesBlockLen := 2 + |w.board.cities| * (2 + 1);
    var total := fixedLen + table.1 + |slotOrder| + names.1 + citiesBlockLen + n * 10;
    var out := new u8[total](_ => 0);
    var ok := FillBuffer(out, w, n, table.0, LowBytes(slotOrder), names.0);
    if !ok {
      return Err(NotSerializable);
    }
    HeadThenCells(w, n);
    return Ok(out[..]);
  }

  /** The head and the cells fill a buffer of exactly their length. */
  method FillBuffer(out: array<u8>, w: World, n: nat, idBytes: seq<seq<u8>>, slots: seq<u8>, names: seq<seq<u8>>)
    returns (ok: bool)
    requires |w.board.cities| <= MAX_U16
    requires idBytes == seq(|w.registry.ids|, i requires 0 <= i < |w.registry.ids| => AsciiBytes(w.registry.ids[i]))
    requires names == seq(|w.players|, i requires 0 <= i < |w.players| => AsciiBytes(w.players[i].displayName))
    requires |w.state.troopCounts| == |w.state.troopOwners| == |w.state.pipeMasks| == n
    requires |w.state.reservesPct| == |w.state.cityOwners| == n
    requires out.Length == 33 + |IdBytes(w.registry.ids, [])| + |slots| + |PlayersBytes(w.players, 0, [])|
                           + 2 + 3 * |w.board.cities| + 10 * n
    modifies out
    ensures ok <==> ElevationsEncodable(w.board.cells, n)
    ensures ok ==> out[..] == HeadBytes(FixedOf(w), w.registry.ids, slots, w.players, w.board.cities)
                              + CellsBytes(RecordsOf(w, n), [])
  {
    var p := PutHead(out, FixedOf(w), w.registry.ids, idBytes, slots, w.players, names, w.board.cities);
    var cells := PutCells(out, p, w, n);
    ok := cells.Ok?;
    assert ok ==> out[..cells.value] == out[..];
  }

  lemma HeadThenCells(w: World, n: nat)
    requires w.board.width >= 0 && n == w.board.width * w.board.width <= |w.board.cells|
    ensures HeadBytes(FixedOf(w), w.registry.ids, LowBytes(SlotOrder(w)), w.players, w.board.cities)
            + CellsBytes(RecordsOf(w, n), []) == PayloadBytes(ImageOf(w))
  {
    PayloadConcat(FixedOf(w), RosterOf(w), Terrains(w.board.cities, RecordsOf(w, n)));
  }

  method SerializeWorld(w: World) returns (r: Result<seq<u8>, SerializationError>)
    ensures r.Ok? <==> Encodable(w)
    ensures r.Ok? ==> r.value == Bytes(w)
  {
    var payload := EncodePayload(w);
    if payload.Err? {
      return Err(NotSerializable);
    }
    return Ok([0, 0, |API_VERSION|] + (API_VERSION + payload.value));
  }
}
