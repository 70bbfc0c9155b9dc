/** Sensor range: radius normalisation, Chebyshev discs, masks and the visible set
    (packages/fog/src/range.ts, mask.ts, visibleSet.ts; packages/engine/src/read.ts). */
module Horizon {
  import opened Js
  import opened EngineTypes
  import opened Orders
  import StableSort

  // Radius normalisation -----------------------------------------------------

  /** A `number` that may be fractional or not finite. */
  datatype JsNumber = Finite(value: real) | NotFinite

  function Trunc(x: real): int {
    if x >= 0.0 then x.Floor else -((-x).Floor)
  }

  /** The remainder operator of the host language: the sign follows the dividend. */
  function Remainder(a: int, m: int): int
    requires m > 0
  {
    if a >= 0 then a % m else -((-a) % m)
  }

  /** `toSigned32` after truncation. */
  function ToSigned32(x: int): int {
    var m := 0x1_0000_0000;
    var unsigned := Remainder(Remainder(x, m) + m, m);
    if unsigned >= 0x8000_0000 then unsigned - m else unsigned
  }

  /** ToInt32 on integers: the representative modulo 2^32 in the signed range. */
  predicate IsInt32Of(r: int, x: int) {
    -0x8000_0000 <= r < 0x8000_0000 && (x - r) % 0x1_0000_0000 == 0
  }

  /** The hand-written conversion is the standard one, and the standard one is unique. */
  lemma ToSigned32IsToInt32(x: int, r: int)
    ensures IsInt32Of(r, x) <==> r == ToSigned32(x)
  {
    RemainderTwice(x);
    assert x == x / 0x1_0000_0000 * 0x1_0000_0000 + x % 0x1_0000_0000;
    if IsInt32Of(r, x) {
      assert x == r + (x - r) / 0x1_0000_0000 * 0x1_0000_0000;
    }
  }

  lemma RemainderTwice(x: int)
    ensures Remainder(Remainder(x, 0x1_0000_0000) + 0x1_0000_0000, 0x1_0000_0000) == x % 0x1_0000_0000
  {
    if x < 0 {
      var q, e := (-x) / 0x1_0000_0000, (-x) % 0x1_0000_0000;
      assert -x == q * 0x1_0000_0000 + e;
      assert x == (-q) * 0x1_0000_0000 - e == (-q - 1) * 0x1_0000_0000 + (0x1_0000_0000 - e);
    }
  }

  function ResolveRadius(explicit: Option<JsNumber>, config: int): (r: nat)
    ensures r < 0x8000_0000
  {
    var raw := match explicit
               case None => ToSigned32(config)
               case Some(NotFinite) => 0
               case Some(Finite(v)) => ToSigned32(Trunc(v));
    ToSigned32IsToInt32(raw, ToSigned32(raw));
    ToSigned32IsToInt32(config, ToSigned32(config));
    if explicit.Some? && explicit.value.Finite? then
      ToSigned32IsToInt32(Trunc(explicit.value.value), raw);
      if raw < 0 then 0 else raw
    else if raw < 0 then 0 else raw
  }

  // Rectangles in row-major order --------------------------------------------

  function Row(y: int, x0: int, x1: int): seq<Coord>
    decreases x1 - x0
  {
    if x0 > x1 then [] else [Coord(x0, y)] + Row(y, x0 + 1, x1)
  }

  function Rect(x0: int, x1: int, y0: int, y1: int): seq<Coord>
    decreases y1 - y0
  {
    if y0 > y1 then [] else Row(y0, x0, x1) + Rect(x0, x1, y0 + 1, y1)
  }

  lemma {:induction false} RowMembers(y: int, x0: int, x1: int, c: Coord)
    ensures c in Row(y, x0, x1) <==> c.y == y && x0 <= c.x <= x1
    decreases x1 - x0
  {
    if x0 <= x1 {
      RowMembers(y, x0 + 1, x1, c);
    }
  }

  lemma {:induction false} RectMembers(x0: int, x1: int, y0: int, y1: int, c: Coord)
    ensures c in Rect(x0, x1, y0, y1) <==> x0 <= c.x <= x1 && y0 <= c.y <= y1
    decreases y1 - y0
  {
    if y0 <= y1 {
      RowMembers(y0, x0, x1, c);
      RectMembers(x0, x1, y0 + 1, y1, c);
    }
  }

  /** Strictly increasing in row-major order, hence free of duplicates. */
  predicate RowMajorOrder(s: seq<Coord>) {
    forall i, j :: 0 <= i < j < |s| ==> s[i].y < s[j].y || (s[i].y == s[j].y && s[i].x < s[j].x)
  }

  lemma {:induction false} RowOrdered(y: int, x0: int, x1: int)
    ensures RowMajorOrder(Row(y, x0, x1))
    decreases x1 - x0
  {
    if x0 <= x1 {
      RowOrdered(y, x0 + 1, x1);
      var r := Row(y, x0 + 1, x1);
      forall j | 0 <= j < |r| ensures r[j].y == y && x0 < r[j].x {
        RowMembers(y, x0 + 1, x1, r[j]);
      }
    }
  }

  lemma {:induction false} RectOrdered(x0: int, x1: int, y0: int, y1: int)
    ensures RowMajorOrder(Rect(x0, x1, y0, y1))
    decreases y1 - y0
  {
    if y0 <= y1 {
      var a, b := Row(y0, x0, x1), Rect(x0, x1, y0 + 1, y1);
      RowOrdered(y0, x0, x1);
      RectOrdered(x0, x1, y0 + 1, y1);
      forall i, j | 0 <= i < |a| && 0 <= j < |b| ensures a[i].y < b[j].y {
        RowMembers(y0, x0, x1, a[i]);
        RectMembers(x0, x1, y0 + 1, y1, b[j]);
      }
    }
  }

  lemma {:induction false} FilterOrdered(keep: Coord -> bool, s: seq<Coord>)
    requires RowMajorOrder(s)
    ensures RowMajorOrder(StableSort.Filter(keep, s))
  {
    if s != [] {
      var r := StableSort.Filter(keep, s[1..]);
      FilterOrdered(keep, s[1..]);
      forall j | 0 <= j < |r| ensures s[0].y < r[j].y || (s[0].y == r[j].y && s[0].x < r[j].x) {
        assert r[j] in s[1..];
      }
    }
  }

  // Chebyshev discs ----------------------------------------------------------

  function Max(a: int, b: int): int {
    if a > b then a else b
  }

  function Min(a: int, b: int): int {
    if a < b then a else b
  }

  function Disk(width: int, height: int, center: Coord, r: int): seq<Coord> {
    Rect(Max(0, center.x - r), Min(width - 1, center.x + r), Max(0, center.y - r), Min(height - 1, center.y + r))
  }

  predicate Inside(width: int, height: int, c: Coord) {
    0 <= c.x < width && 0 <= c.y < height
  }

  /** A disc is the cells of the board within Chebyshev distance. */
  lemma DiskMembers(width: int, height: int, center: Coord, r: nat, c: Coord)
    ensures c in Disk(width, height, center, r) <==> Inside(width, height, c) && Distance(center, c) <= r
  {
    RectMembers(Max(0, center.x - r), Min(width - 1, center.x + r), Max(0, center.y - r), Min(height - 1, center.y + r), c);
  }

  method CollectRect(x0: int, x1: int, y0: int, y1: int) returns (out: seq<Coord>)
    ensures out == Rect(x0, x1, y0, y1)
  {
    out := [];
    var y := y0;
    while y <= y1
      invariant out + Rect(x0, x1, y, y1) == Rect(x0, x1, y0, y1)
      decreases y1 - y
    {
      var x := x0;
      ghost var rest := Rect(x0, x1, y + 1, y1);
      while x <= x1
        invariant out + Row(y, x, x1) + rest == Rect(x0, x1, y0, y1)
        decreases x1 - x
      {
        assert out + Row(y, x, x1) == (out + [Coord(x, y)]) + Row(y, x + 1, x1);
        out := out + [Coord(x, y)];
        x := x + 1;
      }
      y := y + 1;
    }
  }

  /** The engine's `cellsInRange`; `r | 0` and the clamp at zero included. */
  method CellsInRange(w: Board, center: Coord, r: int) returns (out: seq<Coord>)
    ensures out == Disk(w.width, w.height, center, Max(0, ToSigned32(r)))
  {
    var radius := Max(0, ToSigned32(r));
    var minX := Max(0, center.x - radius);
    var maxX := Min(w.width - 1, center.x + radius);
    var minY := Max(0, center.y - radius);
    var maxY := Min(w.height - 1, center.y + radius);
    out := CollectRect(minX, maxX, minY, maxY);
  }

  datatype RangeError = BadArgument

  /** The fog package's `chebyshevDisk`. */
  method ChebyshevDisk(center: Coord, r: int, width: int, height: int) returns (res: Result<seq<Coord>, RangeError>)
    ensures res == if r < 0 || width <= 0 || height <= 0 then Err(BadArgument) else Ok(Disk(width, height, center, r))
  {
    if r < 0 || width <= 0 || height <= 0 {
      return Err(BadArgument);
    }
    var xMin := if center.x - r < 0 then 0 else center.x - r;
    var yMin := if center.y - r < 0 then 0 else center.y - r;
    var xMax := if center.x + r >= width then width - 1 else center.x + r;
    var yMax := if center.y + r >= height then height - 1 else center.y + r;
    var out := CollectRect(xMin, xMax, yMin, yMax);
    return Ok(out);
  }

  // Masks --------------------------------------------------------------------

  const MASK_VISIBLE: u8 := 1

  class FogMask {
    const width: int
    const height: int
    const data: array<u8>

    ghost predicate Valid() {
      width > 0 && height > 0 && data.Length == width * height
    }

    constructor (width: int, height: int)
      requires width > 0 && height > 0 && width * height >= 0
      ensures Valid() && fresh(data) && this.width == width && this.height == height
      ensures forall i :: 0 <= i < data.Length ==> data[i] == 0
    {
      this.width := width;
      this.height := height;
      data := new u8[width * height](_ => 0);
    }

    ghost predicate Marked(c: Coord)
      requires Valid()
      reads data
    {
      Inside(width, height, c) && (CellIndexInRange(c, width, height); data[CellIndex(c, width)] == MASK_VISIBLE)
    }

    /** `markVisible`: sets the cell, leaves every other one, ignores cells off the board. */
    method MarkVisible(x: int, y: int)
      requires Valid()
      modifies data
      ensures forall c :: Marked(c) <==> old(Marked(c)) || (c == Coord(x, y) && Inside(width, height, c))
    {
      if x < 0 || x >= width || y < 0 || y >= height {
        return;
      }
      CellIndexInRange(Coord(x, y), width, height);
      forall c | Inside(width, height, c) && c != Coord(x, y)
        ensures CellIndex(c, width) != CellIndex(Coord(x, y), width)
      {
        if CellIndex(c, width) == CellIndex(Coord(x, y), width) {
          CellIndexUnique(c, Coord(x, y), width);
        }
      }
      data[y * width + x] := MASK_VISIBLE;
    }

    method IsVisible(x: int, y: int) returns (r: bool)
      requires Valid()
      ensures r <==> Marked(Coord(x, y))
    {
      if x < 0 || x >= width || y < 0 || y >= height {
        return false;
      }
      CellIndexInRange(Coord(x, y), width, height);
      return data[y * width + x] == MASK_VISIBLE;
    }
  }

  /** `unionMasks`: in place, visible where either mask holds a mark. */
  method UnionMasks(target: FogMask, source: FogMask) returns (ok: bool)
    requires target.Valid() && source.Valid()
    modifies target.data
    ensures ok <==> target.width == source.width && target.height == source.height
    ensures ok ==> forall i :: 0 <= i < target.data.Length ==>
                     target.data[i] == if old(target.data[i]) > 0 || old(source.data[i]) > 0 then MASK_VISIBLE else 0
    ensures !ok ==> target.data[..] == old(target.data[..])
  {
    if target.width != source.width || target.height != source.height {
      return false;
    }
    var t, s := target.data, source.data;
    for i := 0 to t.Length
      invariant forall k :: 0 <= k < i ==> t[k] == if old(t[k]) > 0 || old(s[k]) > 0 then MASK_VISIBLE else 0
      invariant forall k :: i <= k < t.Length ==> t[k] == old(t[k]) && s[k] == old(s[k])
    {
      t[i] := if (t[i] as int) + (s[i] as int) > 0 then MASK_VISIBLE else 0;
    }
    return true;
  }

  // The visible set ----------------------------------------------------------

  /** A living stack of the player with owner byte `b` stands on `v`. */
  predicate OwnStack(w: World, b: int, v: Coord) {
    && InBounds(w.board, v)
    && (Orders.At(w.state.troopOwners, FlatIndex(w.board, v), 0) as int) == b
    && Orders.At(w.state.troopCounts, FlatIndex(w.board, v), 0) > 0
  }

  /** Some own stack is within sensor range. */
  ghost predicate Sees(w: World, b: int, r: int, c: Coord) {
    InBounds(w.board, c) && exists v :: OwnStack(w, b, v) && Distance(v, c) <= r
  }

  function BoardCells(w: World): seq<Coord> {
    Rect(0, w.board.width - 1, 0, w.board.height - 1)
  }

  ghost function VisibleCells(w: World, b: int, r: int): seq<Coord> {
    StableSort.Filter(c => Sees(w, b, r, c), BoardCells(w))
  }

  /** Exactly the cells in sensor range, strictly increasing in row-major order. */
  lemma VisibleCellsExact(w: World, b: int, r: int, c: Coord)
    ensures c in VisibleCells(w, b, r) <==> Sees(w, b, r, c)
    ensures RowMajorOrder(VisibleCells(w, b, r))
  {
    var keep := c => Sees(w, b, r, c);
    StableSort.FilterKeeps(keep, BoardCells(w), c);
    RectMembers(0, w.board.width - 1, 0, w.board.height - 1, c);
    RectOrdered(0, w.board.width - 1, 0, w.board.height - 1);
    FilterOrdered(keep, BoardCells(w));
  }

  function ResolvePlayerOwnerByte(w: World, player: JsString): Option<int> {
    match w.registry.IndexOfId(player)
    case None => None
    case Some(index) => Some(index + 1)
  }

  datatype MaskError = BadDimensions

  ghost function VisibleSet(w: World, player: JsString, radius: Option<JsNumber>): Result<seq<Coord>, MaskError> {
    match ResolvePlayerOwnerByte(w, player)
    case None => Ok([])
    case Some(b) =>
      if w.board.width <= 0 || w.board.height <= 0 then Err(BadDimensions)
      else Ok(VisibleCells(w, b, ResolveRadius(radius, w.config.visibilityRadius)))
  }

  /** The cells lit by the own stacks among the first `n` cells of the scan. */
  ghost predicate LitBy(w: World, b: int, r: int, n: nat, c: Coord) {
    InBounds(w.board, c)
    && exists v :: OwnStack(w, b, v) && FlatIndex(w.board, v) < n && Distance(v, c) <= r
  }

  method MarkDisk(mask: FogMask, cells: seq<Coord>)
    requires mask.Valid() && forall c :: c in cells ==> Inside(mask.width, mask.height, c)
    modifies mask.data
    ensures forall c :: mask.Marked(c) <==> old(mask.Marked(c)) || c in cells
  {
    for i := 0 to |cells|
      invariant forall c :: mask.Marked(c) <==> old(mask.Marked(c)) || c in cells[..i]
    {
      assert cells[i] in cells;
      mask.MarkVisible(cells[i].x, cells[i].y);
      assert cells[..i + 1] == cells[..i] + [cells[i]];
    }
    assert cells[..|cells|] == cells;
  }

  /** Stamps one stack's disc. */
  method MarkStack(w: World, here: Coord, radius: nat, mask: FogMask)
    requires mask.Valid() && mask.width == w.board.width && mask.height == w.board.height
    requires radius < 0x8000_0000
    modifies mask.data
    ensures forall c :: mask.Marked(c) <==> old(mask.Marked(c)) || (InBounds(w.board, c) && Distance(here, c) <= radius)
  {
    ToSigned32IsToInt32(radius, radius);
    var cells := CellsInRange(w.board, here, radius);
    forall c ensures c in cells <==> InBounds(w.board, c) && Distance(here, c) <= radius {
      DiskMembers(w.board.width, w.board.height, here, radius, c);
    }
    MarkDisk(mask, cells);
  }

  /** Pass 1: every own stack stamps its disc into a fresh mask. */
  method MarkHorizons(w: World, b: int, radius: nat, mask: FogMask)
    requires mask.Valid() && mask.width == w.board.width && mask.height == w.board.height
    requires radius < 0x8000_0000
    requires forall c :: !mask.Marked(c)
    modifies mask.data
    ensures forall c :: mask.Marked(c) <==> Sees(w, b, radius, c)
  {
    var width, height := w.board.width, w.board.height;
    var idx := 0;
    for y := 0 to height
      invariant idx == y * width
      invariant forall c :: mask.Marked(c) <==> LitBy(w, b, radius, idx, c)
    {
      for x := 0 to width
        invariant idx == y * width + x
        invariant forall c :: mask.Marked(c) <==> LitBy(w, b, radius, idx, c)
      {
        var here := Coord(x, y);
        assert FlatIndex(w.board, here) == idx;
        NextStack(w, b, radius, idx, here);
        if (Orders.At(w.state.troopOwners, idx, 0) as int) == b && Orders.At(w.state.troopCounts, idx, 0) > 0 {
          MarkStack(w, here, radius, mask);
        }
        idx := idx + 1;
      }
      assert (y + 1) * width == y * width + width;
    }
    forall c ensures LitBy(w, b, radius, idx, c) <==> Sees(w, b, radius, c) {
      forall v | OwnStack(w, b, v) ensures FlatIndex(w.board, v) < idx {
        CellIndexInRange(v, width, height);
      }
    }
  }

  lemma NextStack(w: World, b: int, r: nat, idx: nat, here: Coord)
    requires InBounds(w.board, here) && FlatIndex(w.board, here) == idx
    ensures forall c :: LitBy(w, b, r, idx + 1, c) <==>
              LitBy(w, b, r, idx, c) || (InBounds(w.board, c) && OwnStack(w, b, here) && Distance(here, c) <= r)
  {
    forall v | OwnStack(w, b, v) && FlatIndex(w.board, v) == idx ensures v == here {
      CellIndexUnique(v, here, w.board.width);
    }
  }

  lemma FilteredRow(keep: Coord -> bool, y: int, x: int, x1: int)
    requires x <= x1
    ensures StableSort.Filter(keep, Row(y, x, x1))
         == if keep(Coord(x, y)) then [Coord(x, y)] + StableSort.Filter(keep, Row(y, x + 1, x1))
            else StableSort.Filter(keep, Row(y, x + 1, x1))
  {
    assert Row(y, x, x1)[1..] == Row(y, x + 1, x1);
  }

  lemma RectStep(keep: Coord -> bool, out: seq<Coord>, x1: int, y: int, y1: int)
    requires y <= y1
    ensures out + StableSort.Filter(keep, Rect(0, x1, y, y1))
         == out + StableSort.Filter(keep, Row(y, 0, x1)) + StableSort.Filter(keep, Rect(0, x1, y + 1, y1))
  {
    StableSort.FilterAppend(keep, Row(y, 0, x1), Rect(0, x1, y + 1, y1));
  }

  method CollectRow(ghost keep: Coord -> bool, mask: FogMask, y: int, above: seq<Coord>) returns (out: seq<Coord>)
    requires mask.Valid()
    requires forall c {:trigger mask.Marked(c)} :: mask.Marked(c) <==> keep(c)
    ensures out == above + StableSort.Filter(keep, Row(y, 0, mask.width - 1))
  {
    out := above;
    ghost var x1 := mask.width - 1;
    ghost var row := out + StableSort.Filter(keep, Row(y, 0, x1));
    for x := 0 to mask.width
      invariant out + StableSort.Filter(keep, Row(y, x, x1)) == row
    {
      FilteredRow(keep, y, x, x1);
      StableSort.Associative(out, [Coord(x, y)], StableSort.Filter(keep, Row(y, x + 1, x1)));
      var marked := mask.IsVisible(x, y);
      if marked {
        out := out + [Coord(x, y)];
      }
    }
    assert Row(y, mask.width, x1) == [];
    assert out + [] == out;
  }

  /** Pass 2: read the mask back row by row. */
  method CollectMarks(ghost keep: Coord -> bool, mask: FogMask) returns (visibleCells: seq<Coord>)
    requires mask.Valid()
    requires forall c {:trigger mask.Marked(c)} :: mask.Marked(c) <==> keep(c)
    ensures visibleCells == StableSort.Filter(keep, Rect(0, mask.width - 1, 0, mask.height - 1))
  {
    ghost var x1, y1 := mask.width - 1, mask.height - 1;
    ghost var all := StableSort.Filter(keep, Rect(0, x1, 0, y1));
    visibleCells := [];
    for y := 0 to mask.height
      invariant visibleCells + StableSort.Filter(keep, Rect(0, x1, y, y1)) == all
    {
      RectStep(keep, visibleCells, x1, y, y1);
      visibleCells := CollectRow(keep, mask, y, visibleCells);
    }
  }

  method ComputeVisibleSet(w: World, player: JsString, visibilityRadius: Option<JsNumber>)
    returns (r: Result<seq<Coord>, MaskError>)
    ensures r == VisibleSet(w, player, visibilityRadius)
  {
    var ownerByte := ResolvePlayerOwnerByte(w, player);
    if ownerByte.None? {
      return Ok([]);
    }
    var radius := ResolveRadius(visibilityRadius, w.config.visibilityRadius);
    if w.board.width <= 0 || w.board.height <= 0 {
      return Err(BadDimensions);
    }
    assert w.board.width * w.board.height >= 0;
    var mask := new FogMask(w.board.width, w.board.height);
    forall c ensures !mask.Marked(c) {
      if Inside(mask.width, mask.height, c) {
        CellIndexInRange(c, mask.width, mask.height);
      }
    }
    MarkHorizons(w, ownerByte.value, radius, mask);
    ghost var keep := c => Sees(w, ownerByte.value, radius, c);
    var visibleCells := CollectMarks(keep, mask);
    return Ok(visibleCells);
  }
}
