/** Nine random bytes packed into a twelve-symbol identity (packages/core/src/player-id.ts): the bit
    reservoir computes the big-endian base-64 regrouping of section 4 of RFC 4648, with its own alphabet. */
module PlayerIdPacking {
  import opened Js
  import opened PlayerRegistry

  const BITS_PER_BYTE := 8
  const BITS_PER_SYMBOL := 6
  const BYTES_PER_PLAYER_ID := 9

  // Positional numbers -------------------------------------------------------

  /** The two radices at hand; a digit has 6 or 8 bits. */
  datatype Radix = Sextet | Octet {
    function Size(): nat {
      if Sextet? then 64 else 256
    }

    function Times(x: nat): nat {
      if Sextet? then 64 * x else 256 * x
    }

    function Over(x: nat): nat {
      if Sextet? then x / 64 else x / 256
    }

    function LowDigit(x: nat): (d: nat)
      ensures d < Size()
      ensures x == Times(Over(x)) + d
    {
      if Sextet? then x % 64 else x % 256
    }
  }

  predicate Digits(r: Radix, s: seq<nat>) {
    forall i :: 0 <= i < |s| ==> s[i] < r.Size()
  }

  /** The number a big-endian digit string denotes. */
  function Number(r: Radix, s: seq<nat>): nat {
    if s == [] then 0 else r.Times(Number(r, s[..|s| - 1])) + s[|s| - 1]
  }

  /** The `n` low digits of a number, big-endian. */
  function Spell(r: Radix, x: nat, n: nat): (s: seq<nat>)
    ensures |s| == n && Digits(r, s)
  {
    if n == 0 then [] else Spell(r, r.Over(x), n - 1) + [r.LowDigit(x)]
  }

  function Power(r: Radix, n: nat): nat {
    if n == 0 then 1 else r.Times(Power(r, n - 1))
  }

  lemma {:induction false} NumberBelowPower(r: Radix, s: seq<nat>)
    requires Digits(r, s)
    ensures Number(r, s) < Power(r, |s|)
  {
    if s != [] {
      NumberBelowPower(r, s[..|s| - 1]);
    }
  }

  lemma {:induction false} SpellOfNumber(r: Radix, s: seq<nat>)
    requires Digits(r, s)
    ensures Spell(r, Number(r, s), |s|) == s
  {
    if s != [] {
      var front := s[..|s| - 1];
      SpellOfNumber(r, front);
      DigitSplits(r, Number(r, front), s[|s| - 1]);
      assert s == front + [s[|s| - 1]];
    }
  }

  lemma DigitSplits(r: Radix, x: nat, d: nat)
    requires d < r.Size()
    ensures r.Over(r.Times(x) + d) == x && r.LowDigit(r.Times(x) + d) == d
  {
  }

  lemma {:induction false} NumberOfSpell(r: Radix, x: nat, n: nat)
    requires x < Power(r, n)
    ensures Number(r, Spell(r, x, n)) == x
  {
    if n > 0 {
      NumberOfSpell(r, r.Over(x), n - 1);
      var s := Spell(r, x, n);
      assert s[..|s| - 1] == Spell(r, r.Over(x), n - 1);
    }
  }

  /** Twelve sextets and nine octets have the same number of bits. */
  lemma SameWidth()
    ensures Power(Sextet, 12) == Power(Octet, 9)
  {
    assert Power(Sextet, 4) == 0x100_0000 && Power(Octet, 3) == 0x100_0000;
    assert Power(Sextet, 8) == 0x1_0000_0000_0000 && Power(Octet, 6) == 0x1_0000_0000_0000;
  }

  // The alphabet -------------------------------------------------------------

  /** `PLAYER_ID_ALPHABET.charAt(i)`. */
  function Symbol(i: nat): (c: CodeUnit)
    requires i < 64
    ensures InAlphabet(c)
  {
    if i < 26 then 0x41 + i else if i < 52 then 0x61 + (i - 26) else if i < 62 then 0x30 + (i - 52)
    else if i == 62 then 0x5f else 0x2d
  }

  function SymbolIndex(c: CodeUnit): (i: nat)
    requires InAlphabet(c)
    ensures i < 64 && Symbol(i) == c
    ensures forall k: nat :: k < 64 && Symbol(k) == c ==> k == i
  {
    if 0x41 <= c <= 0x5a then c - 0x41 else if 0x61 <= c <= 0x7a then c - 0x61 + 26
    else if 0x30 <= c <= 0x39 then c - 0x30 + 52 else if c == 0x5f then 62 else 63
  }

  function Symbols(indices: seq<nat>): (id: JsString)
    requires Digits(Sextet, indices)
    ensures |id| == |indices| && forall i :: 0 <= i < |id| ==> id[i] == Symbol(indices[i])
  {
    seq(|indices|, i requires 0 <= i < |indices| => Symbol(indices[i]))
  }

  function Indices(id: JsString): (s: seq<nat>)
    requires forall i :: 0 <= i < |id| ==> InAlphabet(id[i])
    ensures |s| == |id| && Digits(Sextet, s) && forall i :: 0 <= i < |id| ==> s[i] == SymbolIndex(id[i])
  {
    seq(|id|, i requires 0 <= i < |id| => SymbolIndex(id[i]))
  }

  // Packing ------------------------------------------------------------------

  predicate IsBytes(bytes: seq<nat>) {
    |bytes| == BYTES_PER_PLAYER_ID && Digits(Octet, bytes)
  }

  /** The same number written in base 64: four symbols for every three bytes. */
  function Pack(bytes: seq<nat>): JsString {
    Symbols(Spell(Sextet, Number(Octet, bytes), |bytes| + |bytes| / 3))
  }

  function Unpack(id: JsString): seq<nat>
    requires IsPlayerId(id)
  {
    Spell(Octet, Number(Sextet, Indices(id)), |id| - |id| / 4)
  }

  lemma PackedIsPlayerId(bytes: seq<nat>)
    requires |bytes| == BYTES_PER_PLAYER_ID
    ensures IsPlayerId(Pack(bytes))
  {
    forall c | c in Pack(bytes) ensures InAlphabet(c) {
      var i :| 0 <= i < |Pack(bytes)| && Pack(bytes)[i] == c;
    }
  }

  lemma IndicesOfSymbols(s: seq<nat>)
    requires Digits(Sextet, s)
    ensures forall i :: 0 <= i < |Symbols(s)| ==> InAlphabet(Symbols(s)[i])
    ensures Indices(Symbols(s)) == s
  {
  }

  lemma SymbolsOfIndices(id: JsString)
    requires forall i :: 0 <= i < |id| ==> InAlphabet(id[i])
    ensures Symbols(Indices(id)) == id
  {
  }

  /** No two byte strings share an identity. */
  lemma UnpackUndoesPack(bytes: seq<nat>)
    requires IsBytes(bytes)
    ensures IsPlayerId(Pack(bytes)) && Unpack(Pack(bytes)) == bytes
  {
    var x := Number(Octet, bytes);
    PackedIsPlayerId(bytes);
    NumberBelowPower(Octet, bytes);
    SameWidth();
    NumberOfSpell(Sextet, x, |bytes| + |bytes| / 3);
    IndicesOfSymbols(Spell(Sextet, x, |bytes| + |bytes| / 3));
    SpellOfNumber(Octet, bytes);
  }

  /** Every canonical identity encodes some nine bytes. */
  lemma PackUndoesUnpack(id: JsString)
    requires IsPlayerId(id)
    ensures IsBytes(Unpack(id)) && Pack(Unpack(id)) == id
  {
    var s := Indices(id);
    var x := Number(Sextet, s);
    NumberBelowPower(Sextet, s);
    SameWidth();
    NumberOfSpell(Octet, x, |id| - |id| / 4);
    SpellOfNumber(Sextet, s);
    SymbolsOfIndices(id);
  }

  // The reservoir loop -------------------------------------------------------

  /** The number of bits pending: even, since bytes bring 8 and symbols take 6, and never above 12. */
  type BitCount = c: nat | c == 0 || c == 2 || c == 4 || c == 6 || c == 8 || c == 10 || c == 12

  /** `x >>> k` of an unsigned number. */
  function ShiftRight(x: nat, k: BitCount): nat {
    if k == 0 then x else if k == 2 then x / 4 else if k == 4 then x / 16 else if k == 6 then x / 64
    else if k == 8 then x / 256 else if k == 10 then x / 1024 else x / 4096
  }

  /** `x & ((1 << k) - 1)`. */
  function LowBits(x: nat, k: BitCount): nat {
    if k == 0 then 0 else if k == 2 then x % 4 else if k == 4 then x % 16 else if k == 6 then x % 64
    else if k == 8 then x % 256 else if k == 10 then x % 1024 else x % 4096
  }

  /** `x << k`, unbounded. */
  function Scaled(x: nat, k: BitCount): nat {
    if k == 0 then x else if k == 2 then 4 * x else if k == 4 then 16 * x else if k == 6 then 64 * x
    else if k == 8 then 256 * x else if k == 10 then 1024 * x else 4096 * x
  }

  /** `value` over the pending bits of the reservoir. */
  predicate Balance(value: nat, bitBuffer: nat, bitCount: BitCount, total: nat) {
    Scaled(value, bitCount) + LowBits(bitBuffer, bitCount) == total
  }

  /** Taking in a byte, with at most four bits pending and the rest of the reservoir clear. */
  lemma TakeByte(v: nat, bitBuffer: nat, bitCount: BitCount, total: nat, byte: nat)
    requires Balance(v, bitBuffer, bitCount, total) && bitCount < 6 && byte < 256
    ensures Balance(v, bitBuffer * 256 + byte, bitCount + 8, total * 256 + byte)
  {
    if bitCount == 0 {
      TakeAt0(bitBuffer, byte);
    } else if bitCount == 2 {
      TakeAt2(bitBuffer, byte);
    } else {
      TakeAt4(bitBuffer, byte);
    }
  }

  lemma TakeAt0(b: nat, y: nat)
    requires y < 256
    ensures (b * 256 + y) % 256 == y
  {
  }

  lemma TakeAt2(b: nat, y: nat)
    requires y < 256
    ensures (b * 256 + y) % 1024 == b % 4 * 256 + y
  {
    assert b == 4 * (b / 4) + b % 4;
  }

  lemma TakeAt4(b: nat, y: nat)
    requires y < 256
    ensures (b * 256 + y) % 4096 == b % 16 * 256 + y
  {
    assert b == 16 * (b / 16) + b % 16;
  }

  lemma EmitFrom8(b: nat)
    ensures b % 256 == 4 * (b / 4 % 64) + b % 4
  {
    var q := b / 4;
    assert b == 4 * q + b % 4 && q == 64 * (q / 64) + q % 64;
    assert b == 256 * (q / 64) + (4 * (q % 64) + b % 4);
  }

  lemma EmitFrom10(b: nat)
    ensures b % 1024 == 16 * (b / 16 % 64) + b % 16
  {
    var q := b / 16;
    assert b == 16 * q + b % 16 && q == 64 * (q / 64) + q % 64;
    assert b == 1024 * (q / 64) + (16 * (q % 64) + b % 16);
  }

  lemma EmitFrom12(b: nat)
    ensures b % 4096 == 64 * (b / 64 % 64) + b % 64
  {
    var q := b / 64;
    assert b == 64 * q + b % 64 && q == 64 * (q / 64) + q % 64;
    assert b == 4096 * (q / 64) + (64 * (q % 64) + b % 64);
  }

  /** Emitting the top six of the pending bits. */
  lemma EmitBits(v: nat, bitBuffer: nat, bitCount: BitCount, total: nat)
    requires bitCount >= 6 && Balance(v, bitBuffer, bitCount, total)
    ensures Balance(64 * v + ShiftRight(bitBuffer, bitCount - 6) % 64, bitBuffer, bitCount - 6, total)
  {
    if bitCount == 8 {
      EmitFrom8(bitBuffer);
    } else if bitCount == 10 {
      EmitFrom10(bitBuffer);
    } else if bitCount == 12 {
      EmitFrom12(bitBuffer);
    }
  }

  lemma NumberGrows(r: Radix, s: seq<nat>, d: nat)
    ensures Number(r, s + [d]) == r.Times(Number(r, s)) + d
  {
    assert (s + [d])[..|s|] == s;
  }

  lemma SymbolsGrow(indices: seq<nat>, index: nat)
    requires Digits(Sextet, indices) && index < 64
    ensures Digits(Sextet, indices + [index]) && Symbols(indices + [index]) == Symbols(indices) + [Symbol(index)]
  {
    assert (indices + [index])[..|indices|] == indices;
  }

  /** The bits read so far: symbols already out, then the pending bits of the reservoir. */
  predicate Balanced(symbols: JsString, indices: seq<nat>, bitBuffer: nat, bitCount: BitCount, total: nat) {
    && Digits(Sextet, indices) && symbols == Symbols(indices)
    && Balance(Number(Sextet, indices), bitBuffer, bitCount, total)
  }

  lemma EmitSymbol(symbols: JsString, indices: seq<nat>, bitBuffer: nat, bitCount: BitCount, total: nat)
    requires bitCount >= 6 && Balanced(symbols, indices, bitBuffer, bitCount, total)
    ensures var index := ShiftRight(bitBuffer, bitCount - 6) % 64;
            Balanced(symbols + [Symbol(index)], indices + [index], bitBuffer, bitCount - 6, total)
  {
    var index := ShiftRight(bitBuffer, bitCount - 6) % 64;
    EmitBits(Number(Sextet, indices), bitBuffer, bitCount, total);
    NumberGrows(Sextet, indices, index);
    SymbolsGrow(indices, index);
  }

  /** Emits every complete six-bit group of the reservoir. */
  method EmitComplete(already: JsString, ghost before: seq<nat>, bitBuffer: nat, pending: BitCount, ghost total: nat)
    returns (symbols: JsString, bitCount: BitCount, ghost indices: seq<nat>)
    requires Balanced(already, before, bitBuffer, pending, total)
    ensures bitCount < 6 && 6 * |indices| + bitCount == 6 * |before| + pending
    ensures Balanced(symbols, indices, bitBuffer, bitCount, total)
  {
    symbols, bitCount, indices := already, pending, before;
    while bitCount >= BITS_PER_SYMBOL
      invariant 6 * |indices| + bitCount == 6 * |before| + pending
      invariant Balanced(symbols, indices, bitBuffer, bitCount, total)
      decreases bitCount
    {
      EmitSymbol(symbols, indices, bitBuffer, bitCount, total);
      bitCount := bitCount - BITS_PER_SYMBOL;
      var index := ShiftRight(bitBuffer, bitCount) % 64;
      symbols := symbols + [Symbol(index)];
      indices := indices + [index];
    }
  }

  /** The reservoir after `i` bytes: fewer than six bits pending, and nothing above them. */
  predicate Packed(bytes: seq<nat>, i: nat, symbols: JsString, indices: seq<nat>, bitBuffer: nat, bitCount: BitCount) {
    && i <= |bytes| && bitCount < 6 && 6 * |indices| + bitCount == 8 * i
    && bitBuffer < Scaled(1, bitCount)
    && Digits(Sextet, indices) && symbols == Symbols(indices)
    && Scaled(Number(Sextet, indices), bitCount) + bitBuffer == Number(Octet, bytes[..i])
  }

  /** One byte into the reservoir. */
  lemma ByteTaken(bytes: seq<nat>, i: nat, symbols: JsString, indices: seq<nat>, bitBuffer: nat, bitCount: BitCount)
    requires IsBytes(bytes) && i < |bytes| && Packed(bytes, i, symbols, indices, bitBuffer, bitCount)
    ensures Balanced(symbols, indices, bitBuffer * 256 + bytes[i], bitCount + 8, Number(Octet, bytes[..i + 1]))
    ensures bitBuffer <= 15
  {
    NumberGrows(Octet, bytes[..i], bytes[i]);
    assert bytes[..i + 1] == bytes[..i] + [bytes[i]];
    PendingIsLow(Number(Sextet, indices), bitBuffer, bitCount, Number(Octet, bytes[..i]));
    TakeByte(Number(Sextet, indices), bitBuffer, bitCount, Number(Octet, bytes[..i]), bytes[i]);
  }

  lemma PendingIsLow(v: nat, bitBuffer: nat, bitCount: BitCount, total: nat)
    requires bitCount < 6 && bitBuffer < Scaled(1, bitCount)
    ensures Scaled(v, bitCount) + bitBuffer == total ==> Balance(v, bitBuffer, bitCount, total)
    ensures bitBuffer <= 15
  {
  }

  lemma LowIsPending(v: nat, bitBuffer: nat, bitCount: BitCount, total: nat)
    requires bitCount < 6 && Balance(v, bitBuffer, bitCount, total)
    ensures LowBits(bitBuffer, bitCount) < Scaled(1, bitCount)
    ensures Scaled(v, bitCount) + LowBits(bitBuffer, bitCount) == total
  {
  }

  /** One turn of the outer loop. */
  method PackByte(bytes: seq<nat>, i: nat, already: JsString, ghost before: seq<nat>, buffer: nat, pending: BitCount)
    returns (symbols: JsString, ghost indices: seq<nat>, bitBuffer: nat, bitCount: BitCount)
    requires IsBytes(bytes) && i < |bytes| && Packed(bytes, i, already, before, buffer, pending)
    ensures Packed(bytes, i + 1, symbols, indices, bitBuffer, bitCount)
  {
    ByteTaken(bytes, i, already, before, buffer, pending);
    bitBuffer := buffer * 256 + bytes[i];
    // The reservoir never outgrows its 32 bits.
    assert bitBuffer < 0x1_0000_0000;
    symbols, bitCount, indices := EmitComplete(already, before, bitBuffer, pending + BITS_PER_BYTE, Number(Octet, bytes[..i + 1]));
    LowIsPending(Number(Sextet, indices), bitBuffer, bitCount, Number(Octet, bytes[..i + 1]));
    bitBuffer := LowBits(bitBuffer, bitCount);
  }

  lemma NothingPacked(bytes: seq<nat>)
    ensures Packed(bytes, 0, [], [], 0, 0)
  {
    assert bytes[..0] == [];
  }

  lemma AllPacked(bytes: seq<nat>, symbols: JsString, indices: seq<nat>, bitBuffer: nat, bitCount: BitCount)
    requires IsBytes(bytes) && Packed(bytes, |bytes|, symbols, indices, bitBuffer, bitCount)
    ensures symbols == Pack(bytes)
  {
    assert bytes[..|bytes|] == bytes;
    assert bitCount == 0 && |indices| == 12;
    SpellOfNumber(Sextet, indices);
  }

  /** `encodePlayerId`. */
  method EncodePlayerId(bytes: seq<nat>) returns (id: JsString)
    requires IsBytes(bytes)
    ensures id == Pack(bytes)
  {
    id := [];
    ghost var indices: seq<nat> := [];
    var bitBuffer: nat, bitCount: BitCount := 0, 0;
    NothingPacked(bytes);
    for i := 0 to |bytes|
      invariant Packed(bytes, i, id, indices, bitBuffer, bitCount)
    {
      id, indices, bitBuffer, bitCount := PackByte(bytes, i, id, indices, bitBuffer, bitCount);
    }
    AllPacked(bytes, id, indices, bitBuffer, bitCount);
  }

  // Drawing ------------------------------------------------------------------

  datatype IdError = BadAttempts | EntropyFailure | Collision

  /** `generatePlayerId`: `draws` is what the byte source would give, `None` its failure. */
  method GeneratePlayerId(draws: seq<Option<seq<nat>>>, active: set<JsString>, maxAttempts: int)
    returns (r: Result<JsString, IdError>)
    requires |draws| >= maxAttempts
    requires forall i :: 0 <= i < |draws| && draws[i].Some? ==> Digits(Octet, draws[i].value)
    ensures r == Err(BadAttempts) <==> maxAttempts < 1
    ensures r.Ok? ==> IsPlayerId(r.value) && r.value !in active
    ensures r.Ok? ==> exists k :: 0 <= k < maxAttempts && AllTaken(draws, k, active) && Drawn(draws[k]) && r.value == Pack(draws[k].value)
    ensures r == Err(EntropyFailure) ==> exists k :: 0 <= k < maxAttempts && AllTaken(draws, k, active) && !Drawn(draws[k])
    ensures r == Err(Collision) <==> maxAttempts >= 1 && AllTaken(draws, maxAttempts, active)
  {
    if maxAttempts < 1 {
      return Err(BadAttempts);
    }
    for attempt := 0 to maxAttempts
      invariant AllTaken(draws, attempt, active)
    {
      if draws[attempt].None? || |draws[attempt].value| != BYTES_PER_PLAYER_ID {
        assert !Drawn(draws[attempt]);
        return Err(EntropyFailure);
      }
      var candidate := EncodePlayerId(draws[attempt].value);
      PackedIsPlayerId(draws[attempt].value);
      if candidate !in active {
        assert !Taken(draws[attempt], active);
        return Ok(candidate);
      }
    }
    return Err(Collision);
  }

  predicate Drawn(draw: Option<seq<nat>>) {
    draw.Some? && |draw.value| == BYTES_PER_PLAYER_ID
  }

  predicate Taken(draw: Option<seq<nat>>, active: set<JsString>) {
    Drawn(draw) && Pack(draw.value) in active
  }

  /** The first `n` draws all collided. */
  predicate AllTaken(draws: seq<Option<seq<nat>>>, n: int, active: set<JsString>)
    requires n <= |draws|
  {
    forall i :: 0 <= i < n ==> Taken(draws[i], active)
  }
}
