/** The engine's world value (packages/core/src/types.ts, packages/engine/src/contracts/engine-types.ts).
    Plain `number` fields are integers here. */
module EngineTypes {
  import opened Js
  import PlayerRegistry

  datatype Coord = Coord(x: int, y: int)

  /** Row-major position of a cell on a board of the given width. */
  function CellIndex(c: Coord, width: int): int {
    c.y * width + c.x
  }

  lemma MultipleOfWidth(d: int, width: nat)
    ensures d >= 1 ==> d * width >= width
    ensures d <= -1 ==> d * width + width <= 0
  {
    if d >= 1 {
      assert (d - 1) * width >= 0;
    } else if d <= -1 {
      assert (-d - 1) * width >= 0;
    }
  }

  /** Two cells whose columns are on the board share a position only if they are one cell. */
  lemma CellIndexUnique(a: Coord, b: Coord, width: int)
    requires 0 <= a.x < width && 0 <= b.x < width && CellIndex(a, width) == CellIndex(b, width)
    ensures a == b
  {
    MultipleOfWidth(a.y - b.y, width);
  }

  lemma CellIndexInRange(c: Coord, width: int, height: int)
    requires 0 <= c.x < width && 0 <= c.y < height
    ensures 0 <= CellIndex(c, width) < width * height
  {
    assert c.y * width >= 0;
    RowsAbove(c.y, width, height);
  }

  lemma RowsAbove(y: int, width: nat, height: int)
    requires y < height
    ensures y * width + width <= width * height
  {
    assert (height - 1 - y) * width >= 0;
    assert (height - 1 - y) * width == height * width - width - y * width;
  }

  datatype Terrain = Land | Water

  datatype Cell = Cell(x: int, y: int, elevation: int, terrain: Terrain)

  /** `owner` is a 1-based placement slot, not an identity. */
  datatype City = City(cell: Coord, owner: int)

  datatype Board = Board(width: int, height: int, cells: seq<Cell>, cities: seq<City>)

  datatype MatchConfig = MatchConfig(
    boardSize: int,
    playerIds: seq<JsString>,
    tickIntervalMs: int,
    seed: int,
    visibilityRadius: int)

  datatype PlayerStatus = Alive | Surrendered | Eliminated

  datatype Player = Player(
    id: JsString,
    displayName: JsString,
    status: PlayerStatus,
    citiesOwned: int,
    troopsHeld: int)

  datatype WorldState = WorldState(
    troopCounts: seq<u32>,
    troopOwners: seq<u8>,
    pipeMasks: seq<u8>,
    reservesPct: seq<u8>,
    cityOwners: seq<u8>)

  datatype World = World(
    config: MatchConfig,
    tick: int,
    board: Board,
    players: seq<Player>,
    state: WorldState,
    rngSeed: int,
    rngState: seq<u32>,
    registry: PlayerRegistry.Registry)

  datatype Direction = N | E | S | W

  function DirectionBit(d: Direction): u8 {
    match d
    case N => 0x01
    case E => 0x02
    case S => 0x04
    case W => 0x08
  }

  /** `(mask & bit) !== 0` for a direction bit. */
  predicate HasPipe(mask: u8, d: Direction) {
    match d
    case N => mask % 2 == 1
    case E => mask / 2 % 2 == 1
    case S => mask / 4 % 2 == 1
    case W => mask / 8 % 2 == 1
  }

  /** `mask | bit`. */
  function WithPipe(mask: u8, d: Direction): u8 {
    if HasPipe(mask, d) then mask else mask + DirectionBit(d)
  }

  /** `mask & ~bit`. */
  function WithoutPipe(mask: u8, d: Direction): u8 {
    if HasPipe(mask, d) then mask - DirectionBit(d) else mask
  }

  /** The bits above the four directions. */
  function HighBits(mask: u8): int {
    mask / 16
  }

  function PipeDigit(mask: u8, d: Direction): int {
    if HasPipe(mask, d) then 1 else 0
  }

  lemma MaskFromDigits(mask: u8)
    ensures mask == PipeDigit(mask, N) + 2 * PipeDigit(mask, E) + 4 * PipeDigit(mask, S) + 8 * PipeDigit(mask, W)
                    + 16 * HighBits(mask)
  {
    var half, quarter, eighth := mask / 2, mask / 4, mask / 8;
    assert quarter == half / 2 && eighth == quarter / 2 && HighBits(mask) == eighth / 2;
  }

  lemma DigitsFromMask(mask: u8, n: int, e: int, s: int, w: int, h: int)
    requires 0 <= n <= 1 && 0 <= e <= 1 && 0 <= s <= 1 && 0 <= w <= 1
    requires mask == n + 2 * e + 4 * s + 8 * w + 16 * h
    ensures PipeDigit(mask, N) == n && PipeDigit(mask, E) == e && PipeDigit(mask, S) == s && PipeDigit(mask, W) == w
    ensures HighBits(mask) == h
  {
    assert mask / 2 == e + 2 * s + 4 * w + 8 * h;
    assert mask / 4 == s + 2 * w + 4 * h;
    assert mask / 8 == w + 2 * h;
    assert mask / 16 == h;
  }

  /** Setting and clearing touch one bit and nothing else. */
  lemma PipeBits(mask: u8, d: Direction)
    ensures forall e :: HasPipe(WithPipe(mask, d), e) <==> d == e || HasPipe(mask, e)
    ensures forall e :: HasPipe(WithoutPipe(mask, d), e) <==> d != e && HasPipe(mask, e)
    ensures forall e :: HasPipe(DirectionBit(d), e) <==> d == e
    ensures HighBits(WithPipe(mask, d)) == HighBits(mask) == HighBits(WithoutPipe(mask, d))
  {
    MaskFromDigits(mask);
    var n, e, s, w := PipeDigit(mask, N), PipeDigit(mask, E), PipeDigit(mask, S), PipeDigit(mask, W);
    var h := HighBits(mask);
    DigitsFromMask(WithPipe(mask, d), if d == N then 1 else n, if d == E then 1 else e,
                   if d == S then 1 else s, if d == W then 1 else w, h);
    DigitsFromMask(WithoutPipe(mask, d), if d == N then 0 else n, if d == E then 0 else e,
                   if d == S then 0 else s, if d == W then 0 else w, h);
  }

  /** A mask is its four direction bits and its high bits. */
  lemma MaskDeterminedByBits(a: u8, b: u8)
    requires HighBits(a) == HighBits(b) && forall d :: HasPipe(a, d) <==> HasPipe(b, d)
    ensures a == b
  {
    MaskFromDigits(a);
    MaskFromDigits(b);
  }
}
