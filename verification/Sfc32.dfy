/** The sfc32 generator (packages/core/src/rng.ts): its step permutes the states, and its last word counts. */
module Sfc32 {
  import opened Js

  const WORD := 0x1_0000_0000

  // Bits ---------------------------------------------------------------------

  function ShiftRight(x: nat, k: nat): nat
    decreases x, k
  {
    if k == 0 then x else ShiftRight(x / 2, k - 1)
  }

  predicate Bit(x: nat, i: nat) {
    ShiftRight(x, i) % 2 == 1
  }

  /** Bitwise exclusive or. */
  function XorBits(x: nat, y: nat): nat
    decreases x + y
  {
    if x == 0 && y == 0 then 0 else (x + y) % 2 + 2 * XorBits(x / 2, y / 2)
  }

  function Pow2(n: nat): nat {
    if n == 0 then 1 else 2 * Pow2(n - 1)
  }

  lemma Pow2Of32(n: nat)
    requires n == 32
    ensures Pow2(n) == WORD
  {
    Pow2Of8(n - 24);
    EightMore(n - 24);
    EightMore(n - 16);
    EightMore(n - 8);
  }

  lemma Pow2Of8(n: nat)
    requires n == 8
    ensures Pow2(n) == 0x100
  {
    FourMore(n - 8);
    FourMore(n - 4);
  }

  lemma FourMore(n: nat)
    ensures Pow2(n + 4) == 16 * Pow2(n)
  {
    assert Pow2(n + 4) == 4 * Pow2(n + 2) && Pow2(n + 2) == 4 * Pow2(n);
  }

  lemma EightMore(n: nat)
    ensures Pow2(n + 8) == 0x100 * Pow2(n)
  {
    FourMore(n);
    FourMore(n + 4);
  }

  lemma {:induction false} ShiftBelow(x: nat, n: nat)
    requires x < Pow2(n)
    ensures ShiftRight(x, n) == 0
    decreases n
  {
    if n > 0 {
      ShiftBelow(x / 2, n - 1);
    }
  }

  lemma {:induction false} ShiftAdds(x: nat, i: nat, j: nat)
    ensures ShiftRight(ShiftRight(x, i), j) == ShiftRight(x, i + j)
    decreases i
  {
    if i > 0 {
      ShiftAdds(x / 2, i - 1, j);
    }
  }

  lemma {:induction false} ShiftZero(n: nat)
    ensures ShiftRight(0, n) == 0
  {
    if n > 0 {
      ShiftZero(n - 1);
    }
  }

  lemma {:induction false} ShiftIsSmaller(x: nat, n: nat)
    ensures ShiftRight(x, n) <= x
    decreases n
  {
    if n > 0 {
      ShiftIsSmaller(x / 2, n - 1);
    }
  }

  /** A word has no bit above the 31st. */
  lemma HighBitsClear(x: nat, i: nat, n: nat)
    requires x < WORD && n == 32 && i >= n
    ensures !Bit(x, i)
  {
    Pow2Of32(n);
    ShiftBelow(x, n);
    ShiftAdds(x, n, i - n);
    ShiftZero(i - n);
  }

  lemma {:induction false} XorBelow(x: nat, y: nat, n: nat)
    requires x < Pow2(n) && y < Pow2(n)
    ensures XorBits(x, y) < Pow2(n)
    decreases n
  {
    if n > 0 {
      XorBelow(x / 2, y / 2, n - 1);
    }
  }

  lemma LowBitOff(b: nat, h: nat)
    requires b < 2
    ensures (b + 2 * h) / 2 == h && (b + 2 * h) % 2 == b
  {
  }

  lemma SumParity(x: nat, y: nat)
    ensures ((x + y) % 2 == 1) == ((x % 2 == 1) != (y % 2 == 1))
  {
  }

  lemma {:induction false} XorBit(x: nat, y: nat, i: nat)
    ensures Bit(XorBits(x, y), i) == (Bit(x, i) != Bit(y, i))
    decreases i
  {
    if x == 0 && y == 0 {
      ShiftZero(i);
    } else {
      LowBitOff((x + y) % 2, XorBits(x / 2, y / 2));
      if i > 0 {
        XorBit(x / 2, y / 2, i - 1);
      } else {
        SumParity(x, y);
      }
    }
  }

  /** Numbers below 2^n with the same bits are the same. */
  lemma {:induction false} SameBits(x: nat, y: nat, n: nat)
    requires x < Pow2(n) && y < Pow2(n)
    requires forall i: nat :: i < n ==> Bit(x, i) == Bit(y, i)
    ensures x == y
    decreases n
  {
    if n > 0 {
      assert Bit(x, 0) == (x % 2 == 1) && Bit(y, 0) == (y % 2 == 1);
      forall i: nat | i < n - 1 ensures Bit(x / 2, i) == Bit(y / 2, i) {
        assert Bit(x, i + 1) == Bit(x / 2, i) && Bit(y, i + 1) == Bit(y / 2, i);
      }
      SameBits(x / 2, y / 2, n - 1);
    }
  }

  // Words --------------------------------------------------------------------

  function Xor(x: u32, y: u32): (r: u32) {
    XorIsWord(x, y, 32);
    XorBits(x, y)
  }

  lemma XorIsWord(x: u32, y: u32, n: nat)
    requires n == 32
    ensures XorBits(x, y) < WORD
  {
    Pow2Of32(n);
    XorBelow(x, y, n);
  }

  /** `x >>> k`. */
  function Shr(x: u32, k: nat): (r: u32) {
    ShiftIsSmaller(x, k);
    ShiftRight(x, k)
  }

  function Rotl21(x: u32): (r: u32) {
    (x % 2048) * 0x20_0000 + x / 2048
  }

  lemma BitOfXor(x: u32, y: u32, i: nat)
    ensures Bit(Xor(x, y), i) == (Bit(x, i) != Bit(y, i))
  {
    XorBit(x, y, i);
  }

  lemma BitOfShr(x: u32, k: nat, i: nat)
    ensures Bit(Shr(x, k), i) == Bit(x, i + k)
  {
    ShiftAdds(x, k, i);
  }

  lemma SameWord(x: u32, y: u32, n: nat)
    requires n == 32 && forall i: nat :: i < n ==> Bit(x, i) == Bit(y, i)
    ensures x == y
  {
    Pow2Of32(n);
    SameBits(x, y, n);
  }

  function XorShift(x: u32, k: nat): u32 {
    Xor(x, Shr(x, k))
  }

  /** Undoes `x ^ (x >>> k)` when four shifts clear the word. */
  function UnXorShift(y: u32, k: nat): u32 {
    Xor(Xor(y, Shr(y, k)), Xor(Shr(y, 2 * k), Shr(y, 3 * k)))
  }

  lemma BitOfXorShift(x: u32, k: nat, i: nat)
    ensures Bit(XorShift(x, k), i) == (Bit(x, i) != Bit(x, i + k))
  {
    BitOfXor(x, Shr(x, k), i);
    BitOfShr(x, k, i);
  }

  /** The parity of the bits at one place, and one, two and three shifts above it. */
  predicate FourBits(y: u32, k: nat, i: nat) {
    (Bit(y, i) != Bit(y, i + k)) != (Bit(y, i + 2 * k) != Bit(y, i + 3 * k))
  }

  lemma BitOfUnXorShift(y: u32, k: nat, i: nat)
    ensures Bit(UnXorShift(y, k), i) == FourBits(y, k, i)
  {
    var low, high := Xor(y, Shr(y, k)), Xor(Shr(y, 2 * k), Shr(y, 3 * k));
    BitOfXor(low, high, i);
    assert Bit(low, i) == (Bit(y, i) != Bit(y, i + k)) by {
      BitOfXorShift(y, k, i);
    }
    assert Bit(high, i) == (Bit(y, i + 2 * k) != Bit(y, i + 3 * k)) by {
      BitOfXor(Shr(y, 2 * k), Shr(y, 3 * k), i);
      BitOfShr(y, 2 * k, i);
      BitOfShr(y, 3 * k, i);
    }
  }

  lemma ShiftedBit(x: u32, k: nat, i: nat, j: nat)
    requires j == i + k
    ensures Bit(XorShift(x, k), i) == (Bit(x, i) != Bit(x, j))
  {
    BitOfXorShift(x, k, i);
  }

  lemma UndoneBit(x: u32, k: nat, i: nat, n: nat)
    requires n == 32 && 4 * k >= n
    ensures Bit(UnXorShift(XorShift(x, k), k), i) == Bit(x, i)
  {
    BitOfUnXorShift(XorShift(x, k), k, i);
    ShiftedBit(x, k, i, i + k);
    ShiftedBit(x, k, i + k, i + 2 * k);
    ShiftedBit(x, k, i + 2 * k, i + 3 * k);
    ShiftedBit(x, k, i + 3 * k, i + 4 * k);
    HighBitsClear(x, i + 4 * k, n);
  }

  lemma UnXorShiftUndoes(x: u32, k: nat, n: nat)
    requires n == 32 && 4 * k >= n
    ensures UnXorShift(XorShift(x, k), k) == x
  {
    forall i: nat | i < n ensures Bit(UnXorShift(XorShift(x, k), k), i) == Bit(x, i) {
      UndoneBit(x, k, i, n);
    }
    SameWord(UnXorShift(XorShift(x, k), k), x, n);
  }

  lemma FourBitsAbove(y: u32, k: nat, i: nat, j: nat)
    requires j == i + k
    ensures FourBits(y, k, j) == ((Bit(y, j) != Bit(y, i + 2 * k)) != (Bit(y, i + 3 * k) != Bit(y, i + 4 * k)))
  {
    assert j + k == i + 2 * k && j + 2 * k == i + 3 * k && j + 3 * k == i + 4 * k;
  }

  lemma RedoneBit(y: u32, k: nat, i: nat, n: nat)
    requires n == 32 && 4 * k >= n
    ensures Bit(XorShift(UnXorShift(y, k), k), i) == Bit(y, i)
  {
    ShiftedBit(UnXorShift(y, k), k, i, i + k);
    BitOfUnXorShift(y, k, i);
    BitOfUnXorShift(y, k, i + k);
    FourBitsAbove(y, k, i, i + k);
    HighBitsClear(y, i + 4 * k, n);
  }

  lemma XorShiftUndoes(y: u32, k: nat, n: nat)
    requires n == 32 && 4 * k >= n
    ensures XorShift(UnXorShift(y, k), k) == y
  {
    forall i: nat | i < n ensures Bit(XorShift(UnXorShift(y, k), k), i) == Bit(y, i) {
      RedoneBit(y, k, i, n);
    }
    SameWord(XorShift(UnXorShift(y, k), k), y, n);
  }

  // The step -----------------------------------------------------------------

  datatype State = State(a: u32, b: u32, c: u32, d: u32)

  const XOR_SHIFT := 9

  /** Addition as `| 0` and the typed array leave it. */
  function Add(x: u32, y: u32): u32 {
    if x + y < WORD then x + y else x + y - WORD
  }

  function Sub(x: u32, y: u32): u32 {
    if x >= y then x - y else x - y + WORD
  }

  /** The word every call returns, before it is read as a number. */
  function OutputWord(s: State): u32 {
    Add(Add(s.a, s.b), Add(s.d, 1))
  }

  /** `c + (c << 3)`. */
  function Times9(c: u32): u32 {
    (9 * c) % WORD
  }

  /** The state after one call. */
  function Step(s: State): State {
    State(XorShift(s.b, XOR_SHIFT), Times9(s.c), Add(Rotl21(s.c), OutputWord(s)), Add(s.d, 1))
  }

  function ToSigned(w: u32): int {
    if w < 0x8000_0000 then w else w - WORD
  }

  /** The number a call returns: the word read as a signed 32-bit integer. */
  function Output(s: State): int {
    ToSigned(OutputWord(s))
  }

  class Rng {
    const state: array<u32>

    ghost predicate Valid() {
      state.Length == 4
    }

    ghost function Words(): State
      requires Valid()
      reads state
    {
      State(state[0], state[1], state[2], state[3])
    }

    constructor (state: array<u32>)
      requires state.Length == 4
      ensures this.state == state && Valid()
    {
      this.state := state;
    }

    method Next() returns (r: int)
      requires Valid()
      modifies state
      ensures Words() == Step(old(Words()))
      ensures r == Output(old(Words()))
    {
      var a, b, c, d := state[0], state[1], state[2], state[3];
      var t := Add(a, b);
      a := XorShift(b, XOR_SHIFT);
      b := Times9(c);
      c := Rotl21(c);
      d := Add(d, 1);
      t := Add(t, d);
      c := Add(c, t);
      state[0], state[1], state[2], state[3] := a, b, c, d;
      r := ToSigned(t);
    }
  }

  // The inverse --------------------------------------------------------------

  /** Nine times this is one, modulo 2^32. */
  const NINTH := 954437177

  lemma Residue(x: int, k: int)
    requires 0 <= x < WORD
    ensures (x + WORD * k) % WORD == x
  {
  }

  /** Undoes `c + (c << 3)`. */
  function UnTimes9(y: u32): u32 {
    (y * NINTH) % WORD
  }

  lemma Times9Inverts(x: u32)
    ensures UnTimes9(Times9(x)) == x
    ensures Times9(UnTimes9(x)) == x
  {
    var q := (9 * x) / WORD;
    assert (9 * x) % WORD * NINTH == x + WORD * (2 * x - q * NINTH);
    Residue(x, 2 * x - q * NINTH);
    var p := (x * NINTH) / WORD;
    assert 9 * ((x * NINTH) % WORD) == x + WORD * (2 * x - 9 * p);
    Residue(x, 2 * x - 9 * p);
  }

  /** Subtracting in turn what was added. */
  lemma SumInverts(a: u32, b: u32, r: u32, d: u32)
    ensures Sub(Sub(Sub(Add(r, Add(Add(a, b), d)), r), d), b) == a
    ensures Add(r, Add(Add(Sub(Sub(Sub(a, r), d), b), b), d)) == a
    ensures Sub(Add(d, 1), 1) == d && Add(Sub(d, 1), 1) == d
  {
  }

  function Unstep(s: State): State {
    var c := UnTimes9(s.b);
    var b := UnXorShift(s.a, XOR_SHIFT);
    State(Sub(Sub(Sub(s.c, Rotl21(c)), s.d), b), b, c, Sub(s.d, 1))
  }

  /** Every state is recovered from its successor. */
  lemma UnstepUndoesStep(s: State)
    ensures Unstep(Step(s)) == s
  {
    assert UnXorShift(Step(s).a, XOR_SHIFT) == s.b by {
      UnXorShiftUndoes(s.b, XOR_SHIFT, 32);
    }
    assert UnTimes9(Step(s).b) == s.c by {
      Times9Inverts(s.c);
    }
    SumInverts(s.a, s.b, Rotl21(s.c), Add(s.d, 1));
    SumInverts(0, 0, 0, s.d);
  }

  /** Every state is the successor of some state. */
  lemma StepUndoesUnstep(s: State)
    ensures Step(Unstep(s)) == s
  {
    var p := Unstep(s);
    assert Step(p).a == s.a by {
      XorShiftUndoes(s.a, XOR_SHIFT, 32);
    }
    assert Step(p).b == s.b by {
      Times9Inverts(s.b);
    }
    SumInverts(s.c, p.b, Rotl21(p.c), s.d);
    SumInverts(0, 0, 0, s.d);
  }

  // Runs ---------------------------------------------------------------------

  function Iterate(s: State, n: nat): State {
    if n == 0 then s else Step(Iterate(s, n - 1))
  }

  /** Distinct states never merge, however many calls later. */
  lemma {:induction false} StatesNeverMerge(s: State, t: State, n: nat)
    requires s != t
    ensures Iterate(s, n) != Iterate(t, n)
  {
    if n > 0 {
      StatesNeverMerge(s, t, n - 1);
      UnstepUndoesStep(Iterate(s, n - 1));
      UnstepUndoesStep(Iterate(t, n - 1));
    }
  }

  lemma StepCounts(s: State)
    ensures Step(s).d == Add(s.d, 1)
  {
  }

  lemma CountOn(d: u32, n: nat)
    requires n > 0
    ensures Add((d + (n - 1)) % WORD, 1) == (d + n) % WORD
  {
  }

  lemma {:induction false} CounterAdvances(s: State, n: nat)
    ensures Iterate(s, n).d == (s.d + n) % WORD
  {
    if n > 0 {
      CounterAdvances(s, n - 1);
      StepCounts(Iterate(s, n - 1));
      CountOn(s.d, n);
    }
  }

  lemma CountsDiffer(d: u32, i: nat, j: nat)
    requires i < j < i + WORD
    ensures (d + i) % WORD != (d + j) % WORD
  {
  }

  /** No state comes back within fewer than 2^32 calls, anywhere in a run. */
  lemma NoEarlyRepeat(s: State, i: nat, j: nat)
    requires i < j < i + WORD
    ensures Iterate(s, i) != Iterate(s, j)
  {
    assert Iterate(s, i).d == (s.d + i) % WORD by {
      CounterAdvances(s, i);
    }
    assert Iterate(s, j).d == (s.d + j) % WORD by {
      CounterAdvances(s, j);
    }
    CountsDiffer(s.d, i, j);
  }

  /** The documented range does not hold: an output can be negative. It is the word itself exactly when the
      word's top bit is clear. */
  lemma OutputIsSigned(s: State)
    ensures -0x8000_0000 <= Output(s) < 0x8000_0000
    ensures Output(s) == OutputWord(s) <==> OutputWord(s) < 0x8000_0000
    ensures Output(State(0x8000_0000, 0, 0, 0)) < 0
  {
    assert OutputWord(State(0x8000_0000, 0, 0, 0)) == 0x8000_0001;
  }
}
