/** The world hash: 32-bit FNV-1a over the serialized bytes, printed as eight hexadecimal digits
    (packages/engine/src/serialize.ts). */
module WorldHash {
  import opened Js
  import opened EngineTypes
  import opened WorldFormat
  import opened WorldCodecTheorems
  import WorldWriter

  const OFFSET_BASIS: u32 := 0x811c9dc5
  const PRIME := 0x01000193

  /** The inverse of the prime modulo 2^32. */
  const PRIME_INVERSE := 0x359c449b

  function Pow2(k: nat): (r: nat)
    ensures r >= 1
  {
    if k == 0 then 1 else 2 * Pow2(k - 1)
  }

  /** Exclusive or of the low `width` bits. */
  function Xor(a: nat, b: nat, width: nat): (r: nat)
    ensures r < Pow2(width)
    decreases width
  {
    if width == 0 then 0 else (a + b) % 2 + 2 * Xor(a / 2, b / 2, width - 1)
  }

  /** `hash ^ byte` on 32-bit words. */
  function XorWord(h: u32, b: u8): u32 {
    Pow32();
    Xor(h, b, 32)
  }

  lemma Pow32()
    ensures Pow2(32) == 0x1_0000_0000 && Pow2(8) == 0x100
  {
    assert Pow2(8) == 0x100;
    assert Pow2(16) == 0x1_0000;
    assert Pow2(24) == 0x100_0000;
  }

  /** `Math.imul(h, PRIME) >>> 0`. */
  function TimesPrime(h: u32): u32 {
    h * PRIME % 0x1_0000_0000
  }

  function Round(h: u32, b: u8): u32 {
    TimesPrime(XorWord(h, b))
  }

  function HashFrom(h: u32, bytes: seq<u8>): u32
    decreases |bytes|
  {
    if bytes == [] then h else HashFrom(Round(h, bytes[0]), bytes[1..])
  }

  /** The lower-case hexadecimal digit of value `d`. */
  function HexDigit(d: int): CodeUnit
    requires 0 <= d < 16
  {
    if d < 10 then 0x30 + d else 0x61 + (d - 10)
  }

  /** `h.toString(16)`. */
  function ToHex(h: nat): JsString {
    if h < 16 then [HexDigit(h)] else ToHex(h / 16) + [HexDigit(h % 16)]
  }

  /** `s.padStart(n, '0')`. */
  function PadStart(s: JsString, n: nat): JsString
    decreases n
  {
    if |s| >= n then s else [0x30] + PadStart(s, n - 1)
  }

  function HashBytes(bytes: seq<u8>): JsString {
    PadStart(ToHex(HashFrom(OFFSET_BASIS, bytes)), 8)
  }

  /** `fnv1a32Hex`. */
  method Fnv1a32Hex(bytes: seq<u8>) returns (hex: JsString)
    ensures hex == HashBytes(bytes) && |hex| == 8
  {
    var hash := OFFSET_BASIS;
    for i := 0 to |bytes|
      invariant HashFrom(hash, bytes[i..]) == HashFrom(OFFSET_BASIS, bytes)
    {
      assert bytes[i..][1..] == bytes[i + 1..];
      hash := Round(hash, bytes[i]);
    }
    Pow32();
    PaddedIsDigits(hash, 8);
    hex := PadStart(ToHex(hash), 8);
  }

  // What the digits tell -----------------------------------------------------

  /** The low `count` hexadecimal digits, the most significant first. */
  function Digits(h: nat, count: nat): (r: JsString)
    ensures |r| == count
  {
    if count == 0 then [] else Digits(h / 16, count - 1) + [HexDigit(h % 16)]
  }

  lemma {:induction false} PadStartAppend(s: JsString, x: CodeUnit, n: nat)
    requires n > 0
    ensures PadStart(s + [x], n) == PadStart(s, n - 1) + [x]
    decreases n
  {
    if |s| + 1 < n {
      PadStartAppend(s, x, n - 1);
    }
  }

  lemma {:induction false} ZeroDigits(n: nat)
    ensures PadStart([], n) == Digits(0, n)
  {
    if n > 0 {
      ZeroDigits(n - 1);
      ZerosCommute(n - 1);
    }
  }

  lemma {:induction false} ZerosCommute(n: nat)
    ensures [0x30] + PadStart([], n) == PadStart([], n) + [0x30]
  {
    if n > 0 {
      ZerosCommute(n - 1);
    }
  }

  /** A word of at most `n` digits is padded to exactly its low `n` digits. */
  lemma {:induction false} PaddedIsDigits(h: nat, n: nat)
    requires n > 0 && h < Pow2(4 * n)
    ensures PadStart(ToHex(h), n) == Digits(h, n)
    decreases n
  {
    if h < 16 {
      assert [] + [HexDigit(h)] == ToHex(h);
      PadStartAppend([], HexDigit(h), n);
      ZeroDigits(n - 1);
    } else {
      Pow2Of4(n - 1);
      PadStartAppend(ToHex(h / 16), HexDigit(h % 16), n);
      PaddedIsDigits(h / 16, n - 1);
    }
  }

  lemma Pow2Of4(n: nat)
    ensures Pow2(4 * n + 4) == 16 * Pow2(4 * n) && Pow2(0) == 1
  {
    assert Pow2(4 * n + 2) == 4 * Pow2(4 * n) && Pow2(4 * n + 4) == 4 * Pow2(4 * n + 2);
  }

  // Injectivity --------------------------------------------------------------

  lemma ParityFirst(p: nat, q: nat, x: nat, y: nat)
    requires p < 2 && q < 2 && p + 2 * x == q + 2 * y
    ensures p == q && x == y
  {
  }

  lemma HalvesDetermine(a: nat, b: nat, c: nat)
    requires (a + c) % 2 == (b + c) % 2 && a / 2 == b / 2
    ensures a == b
  {
    assert a % 2 == b % 2;
    assert a == a / 2 * 2 + a % 2 && b == b / 2 * 2 + b % 2;
  }

  lemma XorCommutes(a: nat, b: nat, width: nat)
    ensures Xor(a, b, width) == Xor(b, a, width)
    decreases width
  {
    if width > 0 {
      XorCommutes(a / 2, b / 2, width - 1);
    }
  }

  lemma {:induction false} XorCancels(a: nat, b: nat, c: nat, width: nat)
    requires a < Pow2(width) && b < Pow2(width) && Xor(a, c, width) == Xor(b, c, width)
    ensures a == b
    decreases width
  {
    if width > 0 {
      ParityFirst((a + c) % 2, (b + c) % 2, Xor(a / 2, c / 2, width - 1), Xor(b / 2, c / 2, width - 1));
      XorCancels(a / 2, b / 2, c / 2, width - 1);
      HalvesDetermine(a, b, c);
    }
  }

  lemma TimesPrimeIsInjective(g: u32, h: u32)
    requires TimesPrime(g) == TimesPrime(h)
    ensures g == h
  {
    var k := g * PRIME / 0x1_0000_0000 - h * PRIME / 0x1_0000_0000;
    assert (g - h) * PRIME == k * 0x1_0000_0000;
    assert (g - h) * (PRIME * PRIME_INVERSE) == k * PRIME_INVERSE * 0x1_0000_0000;
    var q := (PRIME * PRIME_INVERSE - 1) / 0x1_0000_0000;
    assert PRIME * PRIME_INVERSE == q * 0x1_0000_0000 + 1;
    assert g - h == (k * PRIME_INVERSE - (g - h) * q) * 0x1_0000_0000;
  }

  /** A round loses nothing: it is injective in the running hash and in the byte. */
  lemma RoundIsInjective(g: u32, h: u32, a: u8, b: u8)
    ensures Round(g, a) == Round(h, a) ==> g == h
    ensures Round(g, a) == Round(g, b) ==> a == b
  {
    Pow32();
    if Round(g, a) == Round(h, a) {
      TimesPrimeIsInjective(XorWord(g, a), XorWord(h, a));
      XorCancels(g, h, a, 32);
    }
    if Round(g, a) == Round(g, b) {
      TimesPrimeIsInjective(XorWord(g, a), XorWord(g, b));
      XorCommutes(g, a, 32);
      XorCommutes(g, b, 32);
      XorCancels(a, b, g, 32);
    }
  }

  lemma {:induction false} TailKeepsApart(g: u32, h: u32, bytes: seq<u8>)
    requires g != h
    ensures HashFrom(g, bytes) != HashFrom(h, bytes)
    decreases |bytes|
  {
    if bytes != [] {
      RoundIsInjective(g, h, bytes[0], bytes[0]);
      TailKeepsApart(Round(g, bytes[0]), Round(h, bytes[0]), bytes[1..]);
    }
  }

  lemma {:induction false} StatesSeparate(h: u32, s: seq<u8>, t: seq<u8>, at: nat)
    requires |s| == |t| && at < |s| && s[at] != t[at] && forall k :: 0 <= k < |s| && k != at ==> s[k] == t[k]
    ensures HashFrom(h, s) != HashFrom(h, t)
    decreases |s|
  {
    if at == 0 {
      assert s[1..] == t[1..];
      RoundIsInjective(h, h, s[0], t[0]);
      TailKeepsApart(Round(h, s[0]), Round(h, t[0]), s[1..]);
    } else {
      StatesSeparate(Round(h, s[0]), s[1..], t[1..], at - 1);
    }
  }

  lemma LastDigit(s: JsString, t: JsString, c: int, d: int)
    requires 0 <= c < 16 && 0 <= d < 16 && s + [HexDigit(c)] == t + [HexDigit(d)]
    ensures s == t && c == d
  {
    assert |s| == |t|;
    assert (s + [HexDigit(c)])[..|s|] == s && (t + [HexDigit(d)])[..|t|] == t;
    assert (s + [HexDigit(c)])[|s|] == HexDigit(c) && (t + [HexDigit(d)])[|t|] == HexDigit(d);
  }

  lemma {:induction false} DigitsDetermine(g: nat, h: nat, count: nat)
    requires g < Pow2(4 * count) && h < Pow2(4 * count) && Digits(g, count) == Digits(h, count)
    ensures g == h
    decreases count
  {
    if count > 0 {
      Pow2Of4(count - 1);
      LastDigit(Digits(g / 16, count - 1), Digits(h / 16, count - 1), g % 16, h % 16);
      DigitsDetermine(g / 16, h / 16, count - 1);
    }
  }

  /** Two buffers of one length that differ in exactly one byte never hash alike. */
  lemma OneByteChangesHash(s: seq<u8>, t: seq<u8>, at: nat)
    requires |s| == |t| && at < |s| && s[at] != t[at] && forall k :: 0 <= k < |s| && k != at ==> s[k] == t[k]
    ensures HashBytes(s) != HashBytes(t)
  {
    StatesSeparate(OFFSET_BASIS, s, t, at);
    Pow32();
    if HashBytes(s) == HashBytes(t) {
      PaddedIsDigits(HashFrom(OFFSET_BASIS, s), 8);
      PaddedIsDigits(HashFrom(OFFSET_BASIS, t), 8);
      DigitsDetermine(HashFrom(OFFSET_BASIS, s), HashFrom(OFFSET_BASIS, t), 8);
    }
  }

  /** What `hashWorld` returns for a world the writer accepts. */
  function HashWorld(w: World): JsString
    requires HasCells(w)
  {
    HashBytes(Bytes(w))
  }

  lemma MiddleByte(a: seq<u8>, x: seq<u8>, y: seq<u8>, b: seq<u8>, at: nat)
    requires |x| == |y| && at < |x| && x[at] != y[at] && forall k :: 0 <= k < |x| && k != at ==> x[k] == y[k]
    ensures HashBytes(a + x + b) != HashBytes(a + y + b)
  {
    OneByteChangesHash(a + x + b, a + y + b, |a| + at);
  }

  lemma CellsSplit(records: seq<CellRecord>, i: nat)
    requires i < |records|
    ensures CellsBytes(records, [])
            == CellsBytes(records[..i], []) + (CellBytes(records[i], []) + CellsBytes(records[i + 1..], []))
  {
    assert records == records[..i] + records[i..];
    WorldWriter.CellsConcat(records[..i], records[i..], []);
    FirstCell(records[i..]);
    assert records[i..][1..] == records[i + 1..];
  }

  lemma FirstCell(records: seq<CellRecord>)
    requires records != []
    ensures CellsBytes(records, []) == CellBytes(records[0], []) + CellsBytes(records[1..], [])
  {
    CellThen(records[0], CellsBytes(records[1..], []));
  }

  lemma CellThen(c: CellRecord, t: seq<u8>)
    ensures CellBytes(c, t) == CellBytes(c, []) + t
  {
  }

  lemma HeaderAround(head: seq<u8>, a: seq<u8>, b: seq<u8>, c: seq<u8>)
    ensures HeaderBytes(head + (a + (b + c))) == HeaderBytes(head + a) + b + c
  {
    assert API_VERSION + (head + (a + (b + c))) == (API_VERSION + (head + a)) + b + c;
  }

  lemma RecordChangesHash(head: seq<u8>, r: seq<CellRecord>, s: seq<CellRecord>, i: nat)
    requires i < |r| == |s| && r[..i] == s[..i] && r[i + 1..] == s[i + 1..]
    requires s[i] == r[i].(pipeMask := s[i].pipeMask) && s[i].pipeMask != r[i].pipeMask
    ensures HashBytes(HeaderBytes(head + CellsBytes(r, []))) != HashBytes(HeaderBytes(head + CellsBytes(s, [])))
  {
    var front, back := CellsBytes(r[..i], []), CellsBytes(r[i + 1..], []);
    var x, y := CellBytes(r[i], []), CellBytes(s[i], []);
    CellsSplit(r, i);
    CellsSplit(s, i);
    HeaderAround(head, front, x, back);
    HeaderAround(head, front, y, back);
    MiddleByte(HeaderBytes(head + front), x, y, back, 5);
  }

  lemma StateRecords(w: World, v: World, i: nat, n: nat, mask: u8)
    requires i < n <= |w.board.cells| && n <= |w.state.pipeMasks|
    requires v == w.(state := w.state.(pipeMasks := w.state.pipeMasks[i := mask]))
    ensures RecordsOf(v, n)[..i] == RecordsOf(w, n)[..i] && RecordsOf(v, n)[i + 1..] == RecordsOf(w, n)[i + 1..]
    ensures RecordsOf(v, n)[i] == RecordsOf(w, n)[i].(pipeMask := mask)
  {
    forall k | 0 <= k < n && k != i ensures RecordAt(v, k) == RecordAt(w, k) {
    }
  }

  /** Every byte of a payload in front of its cell records. */
  function Front(w: World): seq<u8> {
    WorldWriter.HeadBytes(FixedOf(w), w.registry.ids, RosterOf(w).slots, w.players, w.board.cities)
  }

  lemma SameFront(w: World, v: World)
    requires v == w.(state := v.state)
    ensures Front(v) == Front(w)
  {
    assert SlotOrder(v) == SlotOrder(w) by {
      forall k | 0 <= k < |SlotOrder(v)| ensures SlotIndex(v, k) == SlotIndex(w, k) {
      }
    }
  }

  lemma BytesSplit(w: World, n: nat)
    requires HasCells(w) && n == w.board.width * w.board.width
    ensures Bytes(w) == HeaderBytes(Front(w) + CellsBytes(RecordsOf(w, n), []))
  {
    WorldWriter.PayloadConcat(FixedOf(w), RosterOf(w), Terrains(w.board.cities, RecordsOf(w, n)));
  }

  /** Re-plumbing a single cell always changes the hash of the world. */
  lemma PipeChangeChangesHash(w: World, v: World, i: nat, n: nat, mask: u8)
    requires HasCells(w) && n == w.board.width * w.board.width && i < n <= |w.state.pipeMasks|
    requires mask != w.state.pipeMasks[i]
    requires v == w.(state := w.state.(pipeMasks := w.state.pipeMasks[i := mask]))
    ensures HashWorld(v) != HashWorld(w)
  {
    BytesSplit(w, n);
    BytesSplit(v, n);
    SameFront(w, v);
    StateRecords(w, v, i, n, mask);
    RecordChangesHash(Front(w), RecordsOf(w, n), RecordsOf(v, n), i);
  }
}
