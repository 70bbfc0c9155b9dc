/** The binary layout of a serialized world (packages/engine/src/serialize.ts), as two functions:
    `Bytes` lays a world out and `Decode` reads a buffer back. Layouts take the bytes that follow
    as an argument, readers hand back the bytes they leave, so the two compose field by field. */
module WorldFormat {
  import opened Js
  import opened EngineTypes
  import PR = PlayerRegistry
  import Utf16Order

  const FORMAT_VERSION: u8 := 2
  const MIN_BOARD_SIZE := 8
  const MAX_U8 := 0xff
  const MAX_U16 := 0xffff
  const MAX_U32 := 0xffff_ffff
  const MAX_RESERVES_PCT := 9
  const MAX_PIPE_MASK := 0x0f

  /** "0.2.0" */
  const API_VERSION: JsString := [0x30, 0x2e, 0x32, 0x2e, 0x30]

  /** The three exception classes a reader can tell apart. */
  datatype DecodeError =
    | ApiVersionMismatch(apiVersion: JsString)
    | FormatVersionMismatch(formatVersion: u8)
    | Malformed

  type Reading<+T> = Result<(T, seq<u8>), DecodeError>

  // Scalars ------------------------------------------------------------------

  function Byte(x: u8, tail: seq<u8>): seq<u8> {
    [x] + tail
  }

  function Word16(x: int, tail: seq<u8>): seq<u8> {
    [x % 0x100, x / 0x100 % 0x100] + tail
  }

  function Word32(x: u32, tail: seq<u8>): seq<u8> {
    [x % 0x100, x / 0x100 % 0x100, x / 0x1_0000 % 0x100, x / 0x100_0000] + tail
  }

  function ReadByte(s: seq<u8>): Reading<u8> {
    if |s| < 1 then Err(Malformed) else Ok((s[0], s[1..]))
  }

  function ReadWord16(s: seq<u8>): Reading<int> {
    if |s| < 2 then Err(Malformed) else Ok(((s[0] as int) + 0x100 * (s[1] as int), s[2..]))
  }

  /** The little-endian word at the front of `s`. */
  function Value32(s: seq<u8>): u32
    requires |s| >= 4
  {
    (s[0] as int) + 0x100 * (s[1] as int) + 0x1_0000 * (s[2] as int) + 0x100_0000 * (s[3] as int)
  }

  function ReadWord32(s: seq<u8>): Reading<u32> {
    if |s| < 4 then Err(Malformed) else Ok((Value32(s), s[4..]))
  }

  function ReadView(s: seq<u8>, length: nat): Reading<seq<u8>> {
    if |s| < length then Err(Malformed) else Ok((s[..length], s[length..]))
  }

  // Strings ------------------------------------------------------------------

  predicate IsAscii(s: JsString) {
    forall i :: 0 <= i < |s| ==> s[i] <= 0x7f
  }

  /** The bytes `encodeAscii` stores; the value itself when the string passes its check. */
  function AsciiBytes(s: JsString): seq<u8> {
    seq(|s|, i requires 0 <= i < |s| => LowByte(s[i]))
  }

  /** `decodeAscii`: every byte is taken as a code unit. */
  function DecodeAscii(bytes: seq<u8>): JsString {
    seq(|bytes|, i requires 0 <= i < |bytes| => bytes[i])
  }

  // Version header -----------------------------------------------------------

  function HeaderBytes(tail: seq<u8>): seq<u8> {
    [0, 0, |API_VERSION|] + (API_VERSION + tail)
  }

  /** `decodeVersionHeader`: the version string and the bytes after it. */
  function ReadHeader(s: seq<u8>): Reading<JsString> {
    if |s| < 3 || s[0] != 0 || s[1] != 0 || s[2] == 0 then Err(Malformed) else
    var end := 3 + (s[2] as int);
    if |s| < end then Err(Malformed) else Ok((DecodeAscii(s[3..end]), s[end..]))
  }

  // Fixed block --------------------------------------------------------------

  datatype Fixed = Fixed(
    boardSize: u8,
    playerCount: u8,
    tick: u32,
    seed: u32,
    tickIntervalMs: u32,
    visibilityRadius: u8,
    rng0: u32,
    rng1: u32,
    rng2: u32,
    rng3: u32)

  function RngBytes(f: Fixed, tail: seq<u8>): seq<u8> {
    Word32(f.rng0, Word32(f.rng1, Word32(f.rng2, Word32(f.rng3, Byte(f.playerCount, tail)))))
  }

  function FixedBytes(f: Fixed, tail: seq<u8>): seq<u8> {
    Byte(FORMAT_VERSION, Byte(f.boardSize, Byte(f.playerCount,
         Word32(f.tick, Word32(f.seed, Word32(f.tickIntervalMs, Byte(f.visibilityRadius, RngBytes(f, tail))))))))
  }

  function ReadRng(s: seq<u8>, f: Fixed): (r: Reading<Fixed>)
    ensures r.Ok? ==> r.value.0.boardSize == f.boardSize && r.value.0.playerCount == f.playerCount
  {
    var (r0, s0) :- ReadWord32(s);
    var (r1, s1) :- ReadWord32(s0);
    var (r2, s2) :- ReadWord32(s1);
    var (r3, s3) :- ReadWord32(s2);
    var (tableCount, s4) :- ReadByte(s3);
    if tableCount != f.playerCount then Err(Malformed)
    else Ok((f.(rng0 := r0, rng1 := r1, rng2 := r2, rng3 := r3), s4))
  }

  function ReadScalars(s: seq<u8>, boardSize: u8, playerCount: u8): (r: Reading<Fixed>)
    ensures r.Ok? ==> r.value.0.boardSize == boardSize && r.value.0.playerCount == playerCount
  {
    var (tick, s0) :- ReadWord32(s);
    var (seed, s1) :- ReadWord32(s0);
    var (interval, s2) :- ReadWord32(s1);
    var (radius, s3) :- ReadByte(s2);
    ReadRng(s3, Fixed(boardSize, playerCount, tick, seed, interval, radius, 0, 0, 0, 0))
  }

  function ReadFixed(s: seq<u8>): (r: Reading<Fixed>)
    ensures r.Ok? ==> r.value.0.boardSize >= MIN_BOARD_SIZE && PR.MIN_PLAYERS <= r.value.0.playerCount <= PR.MAX_PLAYERS
  {
    var (version, s0) :- ReadByte(s);
    if version != FORMAT_VERSION then Err(FormatVersionMismatch(version)) else
    var (boardSize, s1) :- ReadByte(s0);
    if boardSize < MIN_BOARD_SIZE then Err(Malformed) else
    var (playerCount, s2) :- ReadByte(s1);
    if playerCount < PR.MIN_PLAYERS || playerCount > PR.MAX_PLAYERS then Err(Malformed) else
    ReadScalars(s2, boardSize, playerCount)
  }

  // Identity table and placement slots ---------------------------------------

  function IdBytes(ids: seq<JsString>, tail: seq<u8>): seq<u8> {
    if ids == [] then tail
    else Byte(LowByte(|ids[0]|), AsciiBytes(ids[0]) + IdBytes(ids[1..], tail))
  }

  /** Reads `n` more table entries after `acc`, each strictly above the one before. */
  function ReadIds(s: seq<u8>, n: nat, acc: seq<JsString>): Reading<seq<JsString>> {
    if n == 0 then Ok((acc, s)) else
    var (idLen, s0) :- ReadByte(s);
    if idLen != PR.PLAYER_ID_LENGTH then Err(Malformed) else
    var (raw, s1) :- ReadView(s0, idLen);
    var id := DecodeAscii(raw);
    if !PR.IsPlayerId(id) then Err(Malformed)
    else if acc != [] && Utf16Order.Compare(acc[|acc| - 1], id) >= 0 then Err(Malformed)
    else ReadIds(s1, n - 1, acc + [id])
  }

  datatype PermutationDefect = WrongLength | NotAnIndex(position: nat) | RepeatedIndex(value: int)

  /** The scan of `permutationProblem` from position `i` on. */
  function PermutationScan(values: seq<int>, count: nat, i: nat): Option<PermutationDefect>
    requires i <= |values|
    decreases |values| - i
  {
    if i == |values| then None
    else if !(0 <= values[i] < count) then Some(NotAnIndex(i))
    else if values[i] in values[..i] then Some(RepeatedIndex(values[i]))
    else PermutationScan(values, count, i + 1)
  }

  function PermutationProblem(values: seq<int>, count: nat): Option<PermutationDefect> {
    if |values| != count then Some(WrongLength) else PermutationScan(values, count, 0)
  }

  // Player records -----------------------------------------------------------

  function StatusByte(status: PlayerStatus): u8 {
    match status
    case Alive => 1
    case Surrendered => 2
    case Eliminated => 3
  }

  function StatusOf(byte: u8): Option<PlayerStatus> {
    match byte
    case 1 => Some(Alive)
    case 2 => Some(Surrendered)
    case 3 => Some(Eliminated)
    case _ => None
  }

  predicate PlayerEncodable(p: Player) {
    0 <= p.citiesOwned <= MAX_U8 && 0 <= p.troopsHeld <= MAX_U32 && IsAscii(p.displayName) && |p.displayName| <= MAX_U8
  }

  function PlayerBytes(p: Player, i: nat, tail: seq<u8>): seq<u8> {
    [LowByte(i), StatusByte(p.status), LowByte(p.citiesOwned)]
    + Word32(ToUint32(p.troopsHeld), Byte(LowByte(|p.displayName|), AsciiBytes(p.displayName) + tail))
  }

  /** Records of `ps[i..]`. */
  function PlayersBytes(ps: seq<Player>, i: nat, tail: seq<u8>): seq<u8>
    requires i <= |ps|
    decreases |ps| - i
  {
    if i == |ps| then tail else PlayerBytes(ps[i], i, PlayersBytes(ps, i + 1, tail))
  }

  function ReadPlayer(s: seq<u8>, i: nat, registry: PR.Registry): Reading<Player> {
    if |s| < 8 || registry.IdAt(s[0]).None? || s[0] != i || StatusOf(s[1]).None? then Err(Malformed) else
    var (name, rest) :- ReadView(s[8..], s[7]);
    if !IsAscii(DecodeAscii(name)) then Err(Malformed)
    else Ok((Player(registry.IdAt(i).value, DecodeAscii(name), StatusOf(s[1]).value, s[2], Value32(s[3..])), rest))
  }

  function ReadPlayers(s: seq<u8>, i: nat, n: nat, registry: PR.Registry, acc: seq<Player>): Reading<seq<Player>>
    requires i <= n
    decreases n - i
  {
    if i == n then Ok((acc, s)) else
    var (p, s0) :- ReadPlayer(s, i, registry);
    ReadPlayers(s0, i + 1, n, registry, acc + [p])
  }

  // Cities -------------------------------------------------------------------

  predicate CityEncodable(c: City, size: int, playerCount: int) {
    0 <= c.cell.x < size && 0 <= c.cell.y < size && 1 <= c.owner <= playerCount
  }

  function CitiesBytes(cities: seq<City>, tail: seq<u8>): seq<u8> {
    if cities == [] then tail
    else [LowByte(cities[0].cell.x), LowByte(cities[0].cell.y), LowByte(cities[0].owner)] + CitiesBytes(cities[1..], tail)
  }

  function ReadCity(s: seq<u8>, size: int, playerCount: int): Reading<City> {
    if |s| < 3 then Err(Malformed) else
    var city := City(Coord(s[0], s[1]), s[2]);
    if !CityEncodable(city, size, playerCount) then Err(Malformed) else Ok((city, s[3..]))
  }

  predicate CellTaken(cities: seq<City>, cell: Coord) {
    exists c :: c in cities && c.cell == cell
  }

  function ReadCities(s: seq<u8>, n: nat, size: int, playerCount: int, acc: seq<City>): Reading<seq<City>> {
    if n == 0 then Ok((acc, s)) else
    var (city, s0) :- ReadCity(s, size, playerCount);
    if CellTaken(acc, city.cell) then Err(Malformed)
    else ReadCities(s0, n - 1, size, playerCount, acc + [city])
  }

  // Cells --------------------------------------------------------------------

  datatype CellRecord = CellRecord(
    troopCount: u32,
    troopOwner: u8,
    pipeMask: u8,
    reservesPct: u8,
    cityOwner: u8,
    elevation: u8,
    terrain: Terrain)

  function CellBytes(c: CellRecord, tail: seq<u8>): seq<u8> {
    Word32(c.troopCount, [c.troopOwner, c.pipeMask, c.reservesPct, c.cityOwner, c.elevation,
                          if c.terrain == Water then 1 else 0] + tail)
  }

  predicate CellEncodable(c: CellRecord, playerCount: int) {
    c.troopOwner <= playerCount && c.cityOwner <= playerCount && c.pipeMask <= MAX_PIPE_MASK
    && c.reservesPct <= MAX_RESERVES_PCT
  }

  function CellsBytes(records: seq<CellRecord>, tail: seq<u8>): seq<u8> {
    if records == [] then tail else CellBytes(records[0], CellsBytes(records[1..], tail))
  }

  /** One 10-byte record; a short buffer and an out-of-range field are the same exception. */
  function ReadCell(s: seq<u8>, playerCount: int): Reading<CellRecord> {
    if |s| < 10 then Err(Malformed) else
    var c := CellRecord(Value32(s), s[4], s[5], s[6], s[7], s[8], if s[9] == 1 then Water else Land);
    if !CellEncodable(c, playerCount) || s[9] > 1 then Err(Malformed) else Ok((c, s[10..]))
  }

  function ReadCells(s: seq<u8>, n: nat, playerCount: int, acc: seq<CellRecord>): Reading<seq<CellRecord>> {
    if n == 0 then Ok((acc, s)) else
    var (c, s0) :- ReadCell(s, playerCount);
    ReadCells(s0, n - 1, playerCount, acc + [c])
  }

  // Images: what a buffer holds ----------------------------------------------

  datatype Roster = Roster(registry: PR.Registry, slots: seq<u8>, players: seq<Player>)

  datatype Terrains = Terrains(cities: seq<City>, records: seq<CellRecord>)

  datatype Image = Image(fixed: Fixed, roster: Roster, terrains: Terrains)

  function RosterBytes(r: Roster, tail: seq<u8>): seq<u8> {
    IdBytes(r.registry.ids, r.slots + PlayersBytes(r.players, 0, tail))
  }

  function TerrainBytes(b: Terrains, tail: seq<u8>): seq<u8> {
    Word16(|b.cities|, CitiesBytes(b.cities, CellsBytes(b.records, tail)))
  }

  function PayloadBytes(im: Image): seq<u8> {
    FixedBytes(im.fixed, RosterBytes(im.roster, TerrainBytes(im.terrains, [])))
  }

  predicate SlotsResolve(slots: seq<u8>, ids: seq<JsString>) {
    forall k :: 0 <= k < |slots| ==> slots[k] < |ids|
  }

  function ReadRoster(s: seq<u8>, count: nat): Reading<Roster> {
    var (ids, s0) :- ReadIds(s, count, []);
    if PR.Create(ids).Err? || PR.Create(ids).value.count != count then Err(Malformed) else
    var registry := PR.Create(ids).value;
    var (slots, s1) :- ReadView(s0, count);
    if !SlotsResolve(slots, ids) || PermutationProblem(slots, count).Some? then Err(Malformed) else
    var (players, s2) :- ReadPlayers(s1, 0, count, registry, []);
    Ok((Roster(registry, slots, players), s2))
  }

  function ReadTerrain(s: seq<u8>, size: nat, count: nat): Reading<Terrains> {
    var (cityCount, s0) :- ReadWord16(s);
    var (cities, s1) :- ReadCities(s0, cityCount, size, count, []);
    var (records, s2) :- ReadCells(s1, size * size, count, []);
    Ok((Terrains(cities, records), s2))
  }

  function DecodePayload(s: seq<u8>): (r: Result<Image, DecodeError>)
    ensures r.Ok? ==> r.value.fixed.boardSize >= MIN_BOARD_SIZE
  {
    var (f, s0) :- ReadFixed(s);
    var (roster, s1) :- ReadRoster(s0, f.playerCount);
    var (terrains, rest) :- ReadTerrain(s1, f.boardSize, f.playerCount);
    if rest != [] then Err(Malformed) else Ok(Image(f, roster, terrains))
  }

  // Worlds -------------------------------------------------------------------

  /** Table index of each placement slot. */
  function SlotIndex(w: World, k: nat): int
    requires k < |w.config.playerIds|
  {
    match w.registry.IndexOfId(w.config.playerIds[k])
    case Some(index) => index
    case None => -1
  }

  function SlotOrder(w: World): seq<int> {
    seq(|w.config.playerIds|, k requires 0 <= k < |w.config.playerIds| => SlotIndex(w, k))
  }

  function At<T>(s: seq<T>, i: nat, default: T): T {
    if i < |s| then s[i] else default
  }

  function RecordAt(w: World, i: nat): CellRecord
    requires i < |w.board.cells|
  {
    CellRecord(At(w.state.troopCounts, i, 0), At(w.state.troopOwners, i, 0), At(w.state.pipeMasks, i, 0),
               At(w.state.reservesPct, i, 0), At(w.state.cityOwners, i, 0), LowByte(w.board.cells[i].elevation),
               w.board.cells[i].terrain)
  }

  /** The records of the first `n` cells. */
  function RecordsOf(w: World, n: nat): seq<CellRecord>
    requires n <= |w.board.cells|
  {
    seq(n, i requires 0 <= i < n => RecordAt(w, i))
  }

  function FixedOf(w: World): Fixed {
    Fixed(LowByte(w.board.width), LowByte(w.registry.count), ToUint32(w.tick), ToUint32(w.rngSeed),
          ToUint32(w.config.tickIntervalMs), LowByte(w.config.visibilityRadius),
          At(w.rngState, 0, 0), At(w.rngState, 1, 0), At(w.rngState, 2, 0), At(w.rngState, 3, 0))
  }

  function LowBytes(s: seq<int>): seq<u8> {
    seq(|s|, k requires 0 <= k < |s| => LowByte(s[k]))
  }

  function RosterOf(w: World): Roster {
    Roster(w.registry, LowBytes(SlotOrder(w)), w.players)
  }

  predicate HasCells(w: World) {
    w.board.width >= 0 && w.board.width * w.board.width <= |w.board.cells|
  }

  function ImageOf(w: World): Image
    requires HasCells(w)
  {
    Image(FixedOf(w), RosterOf(w), Terrains(w.board.cities, RecordsOf(w, w.board.width * w.board.width)))
  }

  /** The checks of `resolveIdentityLayout`. */
  predicate LayoutConsistent(w: World) {
    var registry := w.registry;
    && |registry.ids| == registry.count == |w.config.playerIds| == |w.players|
    && (forall k :: 0 <= k < |w.config.playerIds| ==> registry.IndexOfId(w.config.playerIds[k]).Some?)
    && PermutationProblem(SlotOrder(w), registry.count).None?
    && (forall i :: 0 <= i < |w.players| ==> registry.IndexOfId(w.players[i].id) == Some(i))
  }

  /** The checks of the loops over the identity table. */
  predicate TableEncodable(ids: seq<JsString>) {
    && Utf16Order.StrictlyAscending(ids)
    && (forall i :: 0 <= i < |ids| ==> IsAscii(ids[i]) && |ids[i]| == PR.PLAYER_ID_LENGTH)
  }

  predicate IdentitiesEncodable(w: World) {
    LayoutConsistent(w) && TableEncodable(w.registry.ids)
  }

  predicate NumbersEncodable(w: World) {
    && MIN_BOARD_SIZE <= w.board.width <= MAX_U8
    && w.tick >= 0
    && 0 <= w.config.tickIntervalMs <= MAX_U32
    && ToUint32(w.config.seed) == ToUint32(w.rngSeed)
    && 0 <= w.config.visibilityRadius <= MAX_U8
    && |w.board.cities| <= MAX_U16
  }

  predicate FieldsEncodable(st: WorldState, i: nat, playerCount: int) {
    && At(st.troopOwners, i, 0) <= playerCount && At(st.cityOwners, i, 0) <= playerCount
    && At(st.pipeMasks, i, 0) <= MAX_PIPE_MASK && At(st.reservesPct, i, 0) <= MAX_RESERVES_PCT
  }

  /** The array-length checks and `validateCellFields`. */
  predicate StateEncodable(st: WorldState, n: nat, playerCount: int) {
    && |st.troopCounts| == |st.troopOwners| == |st.pipeMasks| == |st.reservesPct| == |st.cityOwners| == n
    && (forall i :: 0 <= i < n ==> FieldsEncodable(st, i, playerCount))
  }

  predicate ElevationsEncodable(cells: seq<Cell>, n: nat) {
    n <= |cells| && forall i :: 0 <= i < n ==> 0 <= cells[i].elevation <= MAX_U8
  }

  /** Everything `serializeWorld` checks, and nothing more. */
  predicate Encodable(w: World) {
    && NumbersEncodable(w)
    && IdentitiesEncodable(w)
    && (forall i :: 0 <= i < |w.players| ==> PlayerEncodable(w.players[i]))
    && (forall i :: 0 <= i < |w.board.cities| ==> CityEncodable(w.board.cities[i], w.board.width, w.registry.count))
    && StateEncodable(w.state, w.board.width * w.board.width, w.registry.count)
    && ElevationsEncodable(w.board.cells, w.board.width * w.board.width)
  }

  /** The buffer `serializeWorld` returns for an encodable world. */
  function Bytes(w: World): seq<u8>
    requires HasCells(w)
  {
    HeaderBytes(PayloadBytes(ImageOf(w)))
  }

  function CellsFrom(records: seq<CellRecord>, size: int): seq<Cell>
    requires size > 0
  {
    seq(|records|, i requires 0 <= i < |records| => Cell(i % size, i / size, records[i].elevation, records[i].terrain))
  }

  function StateFrom(r: seq<CellRecord>): WorldState {
    WorldState(seq(|r|, i requires 0 <= i < |r| => r[i].troopCount),
               seq(|r|, i requires 0 <= i < |r| => r[i].troopOwner),
               seq(|r|, i requires 0 <= i < |r| => r[i].pipeMask),
               seq(|r|, i requires 0 <= i < |r| => r[i].reservesPct),
               seq(|r|, i requires 0 <= i < |r| => r[i].cityOwner))
  }

  function PlayerIdsFrom(r: Roster): seq<JsString> {
    seq(|r.slots|, k requires 0 <= k < |r.slots| => At(r.registry.ids, r.slots[k], []))
  }

  function WorldFrom(im: Image): World
    requires im.fixed.boardSize > 0
  {
    var f := im.fixed;
    World(
      MatchConfig(f.boardSize, PlayerIdsFrom(im.roster), f.tickIntervalMs, f.seed, f.visibilityRadius),
      f.tick,
      Board(f.boardSize, f.boardSize, CellsFrom(im.terrains.records, f.boardSize), im.terrains.cities),
      im.roster.players,
      StateFrom(im.terrains.records),
      f.seed,
      [f.rng0, f.rng1, f.rng2, f.rng3],
      im.roster.registry)
  }

  /** `deserializeWorld`. */
  function Decode(s: seq<u8>): Result<World, DecodeError> {
    var (version, payload) :- ReadHeader(s);
    if version != API_VERSION then Err(ApiVersionMismatch(version)) else
    var im :- DecodePayload(payload);
    Ok(WorldFrom(im))
  }

  predicate DistinctCells(cities: seq<City>) {
    forall i, j :: 0 <= i < j < |cities| ==> cities[i].cell != cities[j].cell
  }

  predicate RowMajor(cells: seq<Cell>, size: int) {
    forall i :: 0 <= i < |cells| ==> size > 0 && cells[i].x == i % size && cells[i].y == i / size
  }

  /** The worlds the layout can represent: what the buffer leaves out is what a reader rebuilds. */
  predicate Canonical(w: World) {
    && w.board.height == w.board.width == w.config.boardSize
    && |w.board.cells| == w.board.width * w.board.width
    && RowMajor(w.board.cells, w.board.width)
    && w.tick <= MAX_U32
    && 0 <= w.config.seed <= MAX_U32 && 0 <= w.rngSeed <= MAX_U32
    && |w.rngState| == 4
    && DistinctCells(w.board.cities)
    && PR.Create(w.registry.ids) == Ok(w.registry)
  }
}
