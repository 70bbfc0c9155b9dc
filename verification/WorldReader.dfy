/** `deserializeWorld` as the source runs it: a cursor over the buffer, fields read one at a time,
    tables filled in loops. Every method is proved against the reader function of its block. */
module WorldReader {
  import opened Js
  import opened EngineTypes
  import opened WorldFormat
  import PR = PlayerRegistry
  import Utf16Order

  /** A method's outcome is the reader function's: same value, same bytes left, same exception. */
  ghost predicate Agrees<T(!new)>(r: Result<T, DecodeError>, reading: Reading<T>, rest: seq<u8>) {
    match r
    case Ok(v) => reading == Ok((v, rest))
    case Err(e) => reading == Err(e)
  }

  class PayloadReader {
    const bytes: seq<u8>
    var offset: nat

    ghost predicate Valid()
      reads this
    {
      offset <= |bytes|
    }

    ghost function Rest(): seq<u8>
      requires Valid()
      reads this
    {
      bytes[offset..]
    }

    constructor (bytes: seq<u8>, start: nat)
      requires start <= |bytes|
      ensures Valid() && Rest() == bytes[start..] && this.bytes == bytes
    {
      this.bytes := bytes;
      offset := start;
    }

    function Remaining(): int
      reads this
    {
      |bytes| - offset
    }

    method U8() returns (r: Result<u8, DecodeError>)
      requires Valid()
      modifies `offset
      ensures Valid() && Agrees(r, ReadByte(old(Rest())), Rest())
    {
      if offset + 1 > |bytes| {
        return Err(Malformed);
      }
      var value := bytes[offset];
      offset := offset + 1;
      return Ok(value);
    }

    method U16() returns (r: Result<int, DecodeError>)
      requires Valid()
      modifies `offset
      ensures Valid() && Agrees(r, ReadWord16(old(Rest())), Rest())
      ensures r.Ok? ==> 0 <= r.value <= MAX_U16
    {
      if offset + 2 > |bytes| {
        return Err(Malformed);
      }
      var lo, hi: int := bytes[offset], bytes[offset + 1];
      offset := offset + 2;
      return Ok(lo + 0x100 * hi);
    }

    method U32() returns (r: Result<u32, DecodeError>)
      requires Valid()
      modifies `offset
      ensures Valid() && Agrees(r, ReadWord32(old(Rest())), Rest())
    {
      if offset + 4 > |bytes| {
        return Err(Malformed);
      }
      var value: int := 0;
      var i := 4;
      ghost var s := Rest();
      while i > 0
        invariant 0 <= i <= 4
        invariant value == match i
                           case 4 => 0
                           case 3 => s[3] as int
                           case 2 => (s[2] as int) + 0x100 * (s[3] as int)
                           case 1 => (s[1] as int) + 0x100 * (s[2] as int) + 0x1_0000 * (s[3] as int)
                           case _ => Value32(s)
      {
        i := i - 1;
        var b: int := bytes[offset + i];
        value := value * 0x100 + b;
      }
      offset := offset + 4;
      return Ok(value);
    }

    method View(length: nat) returns (r: Result<seq<u8>, DecodeError>)
      requires Valid()
      modifies `offset
      ensures Valid() && Agrees(r, ReadView(old(Rest()), length), Rest())
    {
      if offset + length > |bytes| {
        return Err(Malformed);
      }
      var slice := bytes[offset..offset + length];
      assert Rest()[..length] == slice && Rest()[length..] == bytes[offset + length..];
      offset := offset + length;
      return Ok(slice);
    }
  }

  method DecodeAsciiStrict(bytes: seq<u8>) returns (r: Result<JsString, DecodeError>)
    ensures r == if IsAscii(DecodeAscii(bytes)) then Ok(DecodeAscii(bytes)) else Err(Malformed)
  {
    var out: JsString := [];
    for i := 0 to |bytes|
      invariant out == DecodeAscii(bytes[..i]) && IsAscii(out)
    {
      if bytes[i] > 0x7f {
        assert DecodeAscii(bytes)[i] > 0x7f;
        return Err(Malformed);
      }
      out := out + [bytes[i]];
    }
    assert bytes[..|bytes|] == bytes;
    return Ok(out);
  }

  method FixedBlock(reader: PayloadReader) returns (r: Result<Fixed, DecodeError>)
    requires reader.Valid()
    modifies reader`offset
    ensures reader.Valid() && Agrees(r, ReadFixed(old(reader.Rest())), reader.Rest())
    ensures r.Ok? ==> r.value.boardSize >= MIN_BOARD_SIZE && PR.MIN_PLAYERS <= r.value.playerCount <= PR.MAX_PLAYERS
  {
    var version :- reader.U8();
    if version != FORMAT_VERSION {
      return Err(FormatVersionMismatch(version));
    }
    var boardSize :- reader.U8();
    if boardSize < MIN_BOARD_SIZE {
      return Err(Malformed);
    }
    var playerCount :- reader.U8();
    if playerCount < PR.MIN_PLAYERS || playerCount > PR.MAX_PLAYERS {
      return Err(Malformed);
    }
    r := ScalarBlock(reader, boardSize, playerCount);
  }

  method ScalarBlock(reader: PayloadReader, boardSize: u8, playerCount: u8) returns (r: Result<Fixed, DecodeError>)
    requires reader.Valid()
    modifies reader`offset
    ensures reader.Valid() && Agrees(r, ReadScalars(old(reader.Rest()), boardSize, playerCount), reader.Rest())
  {
    var tick :- reader.U32();
    var seed :- reader.U32();
    var tickIntervalMs :- reader.U32();
    var visibilityRadius :- reader.U8();
    r := RngBlock(reader, Fixed(boardSize, playerCount, tick, seed, tickIntervalMs, visibilityRadius, 0, 0, 0, 0));
  }

  method RngBlock(reader: PayloadReader, f: Fixed) returns (r: Result<Fixed, DecodeError>)
    requires reader.Valid()
    modifies reader`offset
    ensures reader.Valid() && Agrees(r, ReadRng(old(reader.Rest()), f), reader.Rest())
  {
    var rng0 :- reader.U32();
    var rng1 :- reader.U32();
    var rng2 :- reader.U32();
    var rng3 :- reader.U32();
    var tableCount :- reader.U8();
    if tableCount != f.playerCount {
      return Err(Malformed);
    }
    return Ok(f.(rng0 := rng0, rng1 := rng1, rng2 := rng2, rng3 := rng3));
  }

  method IdTable(reader: PayloadReader, tableCount: nat) returns (r: Result<seq<JsString>, DecodeError>)
    requires reader.Valid()
    modifies reader`offset
    ensures reader.Valid() && Agrees(r, ReadIds(old(reader.Rest()), tableCount, []), reader.Rest())
  {
    var tableIds: seq<JsString> := [];
    ghost var whole := ReadIds(reader.Rest(), tableCount, []);
    for i := 0 to tableCount
      invariant reader.Valid() && |tableIds| == i
      invariant ReadIds(reader.Rest(), tableCount - i, tableIds) == whole
    {
      var idLen :- reader.U8();
      if idLen != PR.PLAYER_ID_LENGTH {
        return Err(Malformed);
      }
      var raw :- reader.View(idLen);
      var id := DecodeAscii(raw);
      if !PR.IsPlayerId(id) {
        return Err(Malformed);
      }
      if i > 0 {
        var order := Utf16Order.CompareUtf16(tableIds[i - 1], id);
        if order >= 0 {
          return Err(Malformed);
        }
      }
      tableIds := tableIds + [id];
    }
    return Ok(tableIds);
  }

  method FindPermutationProblem(values: seq<int>, count: nat) returns (r: Option<PermutationDefect>)
    ensures r == PermutationProblem(values, count)
  {
    if |values| != count {
      return Some(WrongLength);
    }
    var seen := new bool[count](_ => false);
    for i := 0 to |values|
      invariant forall v :: 0 <= v < count ==> (seen[v] <==> v in values[..i])
      invariant PermutationScan(values, count, 0) == PermutationScan(values, count, i)
    {
      var value := values[i];
      if !(0 <= value < count) {
        return Some(NotAnIndex(i));
      }
      if seen[value] {
        return Some(RepeatedIndex(value));
      }
      seen[value] := true;
      assert values[..i + 1] == values[..i] + [value];
    }
    return None;
  }

  method SlotMap(reader: PayloadReader, tableIds: seq<JsString>, playerCount: nat)
    returns (r: Result<seq<u8>, DecodeError>)
    requires reader.Valid()
    modifies reader`offset
    ensures reader.Valid()
    ensures var view := ReadView(old(reader.Rest()), playerCount);
            if view.Err? || !SlotsResolve(view.value.0, tableIds) || PermutationProblem(view.value.0, playerCount).Some?
            then r == Err(Malformed)
            else r == Ok(view.value.0) && view.value.1 == reader.Rest()
  {
    var slotOrder: seq<u8> := [];
    ghost var s := reader.Rest();
    for k := 0 to playerCount
      invariant reader.Valid() && k <= |s| && slotOrder == s[..k] && reader.Rest() == s[k..]
    {
      var slot :- reader.U8();
      slotOrder := slotOrder + [slot];
    }
    for k := 0 to |slotOrder|
      invariant forall j :: 0 <= j < k ==> slotOrder[j] < |tableIds|
    {
      if slotOrder[k] >= |tableIds| {
        return Err(Malformed);
      }
    }
    var problem := FindPermutationProblem(slotOrder, playerCount);
    if problem.Some? {
      return Err(Malformed);
    }
    return Ok(slotOrder);
  }

  method PlayerRecord(reader: PayloadReader, i: nat, registry: PR.Registry) returns (r: Result<Player, DecodeError>)
    requires reader.Valid()
    modifies reader`offset
    ensures reader.Valid() && Agrees(r, ReadPlayer(old(reader.Rest()), i, registry), reader.Rest())
  {
    ghost var s := reader.Rest();
    var tableIndex :- reader.U8();
    var id := registry.IdAt(tableIndex);
    if id.None? || tableIndex != i {
      return Err(Malformed);
    }
    var statusByte :- reader.U8();
    var status := StatusOf(statusByte);
    if status.None? {
      return Err(Malformed);
    }
    var citiesOwned :- reader.U8();
    assert reader.Rest() == s[3..];
    var troopsHeld :- reader.U32();
    var nameLen :- reader.U8();
    assert reader.Rest() == s[8..] && nameLen == s[7];
    var nameBytes :- reader.View(nameLen);
    var displayName :- DecodeAsciiStrict(nameBytes);
    return Ok(Player(id.value, displayName, status.value, citiesOwned, troopsHeld));
  }

  method PlayerRecords(reader: PayloadReader, playerCount: nat, registry: PR.Registry)
    returns (r: Result<seq<Player>, DecodeError>)
    requires reader.Valid()
    modifies reader`offset
    ensures reader.Valid() && Agrees(r, ReadPlayers(old(reader.Rest()), 0, playerCount, registry, []), reader.Rest())
  {
    var players: seq<Player> := [];
    ghost var whole := ReadPlayers(reader.Rest(), 0, playerCount, registry, []);
    for i := 0 to playerCount
      invariant reader.Valid()
      invariant ReadPlayers(reader.Rest(), i, playerCount, registry, players) == whole
    {
      var player :- PlayerRecord(reader, i, registry);
      players := players + [player];
    }
    return Ok(players);
  }

  method RosterBlock(reader: PayloadReader, playerCount: nat) returns (r: Result<Roster, DecodeError>)
    requires reader.Valid()
    modifies reader`offset
    ensures reader.Valid() && Agrees(r, ReadRoster(old(reader.Rest()), playerCount), reader.Rest())
  {
    var tableIds :- IdTable(reader, playerCount);
    var created := PR.CreatePlayerRegistry(tableIds);
    if created.Err? || created.value.count != playerCount {
      return Err(Malformed);
    }
    var slots :- SlotMap(reader, tableIds, playerCount);
    var players :- PlayerRecords(reader, playerCount, created.value);
    return Ok(Roster(created.value, slots, players));
  }

  method CityRecords(reader: PayloadReader, cityCount: nat, boardSize: nat, playerCount: nat)
    returns (r: Result<seq<City>, DecodeError>)
    requires reader.Valid()
    modifies reader`offset
    ensures reader.Valid()
    ensures Agrees(r, ReadCities(old(reader.Rest()), cityCount, boardSize, playerCount, []), reader.Rest())
  {
    var cities: seq<City> := [];
    var seenCityCells: set<int> := {};
    ghost var whole := ReadCities(reader.Rest(), cityCount, boardSize, playerCount, []);
    for i := 0 to cityCount
      invariant reader.Valid()
      invariant ReadCities(reader.Rest(), cityCount - i, boardSize, playerCount, cities) == whole
      invariant forall c :: c in cities ==> CityEncodable(c, boardSize, playerCount)
      invariant seenCityCells == set c | c in cities :: CellIndex(c.cell, boardSize)
    {
      ghost var s := reader.Rest();
      var x :- reader.U8();
      var y :- reader.U8();
      var owner :- reader.U8();
      assert reader.Rest() == s[3..];
      if x >= boardSize || y >= boardSize {
        return Err(Malformed);
      }
      if owner < 1 || owner > playerCount {
        return Err(Malformed);
      }
      var key := CellIndex(Coord(x, y), boardSize);
      KeyOfTakenCell(cities, Coord(x, y), boardSize, playerCount);
      if key in seenCityCells {
        return Err(Malformed);
      }
      seenCityCells := seenCityCells + {key};
      cities := cities + [City(Coord(x, y), owner)];
    }
    return Ok(cities);
  }

  /** In-bounds cells have distinct flat keys, so the key set detects exactly the repeated cells. */
  lemma KeyOfTakenCell(cities: seq<City>, cell: Coord, boardSize: nat, playerCount: nat)
    requires forall c :: c in cities ==> CityEncodable(c, boardSize, playerCount)
    requires 0 <= cell.x < boardSize && 0 <= cell.y < boardSize
    ensures (exists c :: c in cities && CellIndex(c.cell, boardSize) == CellIndex(cell, boardSize)) <==> CellTaken(cities, cell)
  {
    forall c | c in cities && CellIndex(c.cell, boardSize) == CellIndex(cell, boardSize)
      ensures c.cell == cell
    {
      CellIndexUnique(c.cell, cell, boardSize);
    }
  }

  method CellRecordAt(reader: PayloadReader, playerCount: nat) returns (r: Result<CellRecord, DecodeError>)
    requires reader.Valid()
    modifies reader`offset
    ensures reader.Valid() && Agrees(r, ReadCell(old(reader.Rest()), playerCount), reader.Rest())
  {
    ghost var s := reader.Rest();
    var troopCount :- reader.U32();
    var troopOwner :- reader.U8();
    if troopOwner > playerCount {
      return Err(Malformed);
    }
    var pipeMask :- reader.U8();
    if pipeMask > MAX_PIPE_MASK {
      return Err(Malformed);
    }
    var reserves :- reader.U8();
    if reserves > MAX_RESERVES_PCT {
      return Err(Malformed);
    }
    var cityOwner :- reader.U8();
    if cityOwner > playerCount {
      return Err(Malformed);
    }
    var elevation :- reader.U8();
    var terrainFlag :- reader.U8();
    if terrainFlag > 1 {
      return Err(Malformed);
    }
    assert reader.Rest() == s[10..];
    return Ok(CellRecord(troopCount, troopOwner, pipeMask, reserves, cityOwner, elevation,
                         if terrainFlag == 1 then Water else Land));
  }

  method CellRecords(reader: PayloadReader, n: nat, playerCount: nat) returns (r: Result<seq<CellRecord>, DecodeError>)
    requires reader.Valid()
    modifies reader`offset
    ensures reader.Valid() && Agrees(r, ReadCells(old(reader.Rest()), n, playerCount, []), reader.Rest())
  {
    var records: seq<CellRecord> := [];
    ghost var whole := ReadCells(reader.Rest(), n, playerCount, []);
    for i := 0 to n
      invariant reader.Valid()
      invariant ReadCells(reader.Rest(), n - i, playerCount, records) == whole
    {
      var c :- CellRecordAt(reader, playerCount);
      records := records + [c];
    }
    return Ok(records);
  }

  method TerrainBlock(reader: PayloadReader, boardSize: nat, playerCount: nat) returns (r: Result<Terrains, DecodeError>)
    requires reader.Valid()
    modifies reader`offset
    ensures reader.Valid() && Agrees(r, ReadTerrain(old(reader.Rest()), boardSize, playerCount), reader.Rest())
  {
    var cityCount :- reader.U16();
    var cities :- CityRecords(reader, cityCount, boardSize, playerCount);
    var records :- CellRecords(reader, boardSize * boardSize, playerCount);
    return Ok(Terrains(cities, records));
  }

  method DecodePayloadBytes(bytes: seq<u8>, versionLen: nat) returns (r: Result<Image, DecodeError>)
    requires versionLen <= |bytes|
    ensures r == DecodePayload(bytes[versionLen..])
  {
    var reader := new PayloadReader(bytes, versionLen);
    var f :- FixedBlock(reader);
    var roster :- RosterBlock(reader, f.playerCount);
    var terrains :- TerrainBlock(reader, f.boardSize, f.playerCount);
    assert reader.Remaining() == |reader.Rest()|;
    if reader.Remaining() != 0 {
      return Err(Malformed);
    }
    return Ok(Image(f, roster, terrains));
  }

  method DecodeVersionHeader(bytes: seq<u8>) returns (r: Result<(JsString, nat), DecodeError>)
    ensures match r
            case Ok((version, end)) => end <= |bytes| && ReadHeader(bytes) == Ok((version, bytes[end..]))
            case Err(e) => ReadHeader(bytes) == Err(e)
  {
    if |bytes| < 3 {
      return Err(Malformed);
    }
    if bytes[0] != 0 || bytes[1] != 0 {
      return Err(Malformed);
    }
    var versionLen: int := bytes[2];
    if versionLen == 0 {
      return Err(Malformed);
    }
    var end := 3 + versionLen;
    if |bytes| < end {
      return Err(Malformed);
    }
    return Ok((DecodeAscii(bytes[3..end]), end));
  }

  method DeserializeWorld(bytes: seq<u8>) returns (r: Result<World, DecodeError>)
    ensures r == Decode(bytes)
  {
    var header :- DecodeVersionHeader(bytes);
    if header.0 != API_VERSION {
      return Err(ApiVersionMismatch(header.0));
    }
    var im :- DecodePayloadBytes(bytes, header.1);
    return Ok(WorldFrom(im));
  }
}
