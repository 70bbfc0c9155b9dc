/** The codec is a bijection between canonical encodable worlds and accepted buffers.
    Each block has two lemmas: reading undoes laying out (`...Read`), and whatever a reader accepts
    is exactly what the layout would have produced (`...Canonical`). */
module WorldCodecProofs {
  import opened Js
  import opened EngineTypes
  import opened WorldFormat
  import PR = PlayerRegistry
  import Utf16Order

  // Scalars and strings ------------------------------------------------------

  lemma ByteRead(x: u8, t: seq<u8>)
    ensures ReadByte(Byte(x, t)) == Ok((x, t))
  {
    assert Byte(x, t)[1..] == t;
  }

  lemma ByteCanonical(s: seq<u8>)
    requires ReadByte(s).Ok?
    ensures s == Byte(ReadByte(s).value.0, ReadByte(s).value.1)
  {
  }

  lemma Word16Read(x: int, t: seq<u8>)
    requires 0 <= x <= MAX_U16
    ensures ReadWord16(Word16(x, t)) == Ok((x, t))
  {
    assert Word16(x, t)[2..] == t;
  }

  lemma Word16Canonical(s: seq<u8>)
    requires ReadWord16(s).Ok?
    ensures s == Word16(ReadWord16(s).value.0, ReadWord16(s).value.1)
    ensures 0 <= ReadWord16(s).value.0 <= MAX_U16
  {
    var x := ReadWord16(s).value.0;
    assert x % 0x100 == s[0] && x / 0x100 == s[1];
  }

  lemma Word32Digits(x: u32, a: u8, b: u8, c: u8, d: u8)
    ensures x == a + 0x100 * b + 0x1_0000 * c + 0x100_0000 * d <==>
              a == x % 0x100 && b == x / 0x100 % 0x100 && c == x / 0x1_0000 % 0x100 && d == x / 0x100_0000
  {
    var q := x / 0x100;
    var h := x / 0x1_0000;
    assert h == q / 0x100 && x / 0x100_0000 == h / 0x100;
    if x == a + 0x100 * b + 0x1_0000 * c + 0x100_0000 * d {
      assert q == b + 0x100 * c + 0x1_0000 * d;
      assert h == c + 0x100 * d;
    }
  }

  lemma Word32Read(x: u32, t: seq<u8>)
    ensures ReadWord32(Word32(x, t)) == Ok((x, t))
  {
    Word32Digits(x, x % 0x100, x / 0x100 % 0x100, x / 0x1_0000 % 0x100, x / 0x100_0000);
    assert Word32(x, t)[4..] == t;
  }

  lemma Word32Canonical(s: seq<u8>)
    requires ReadWord32(s).Ok?
    ensures s == Word32(ReadWord32(s).value.0, ReadWord32(s).value.1)
  {
    Word32Digits(ReadWord32(s).value.0, s[0], s[1], s[2], s[3]);
    assert s == [s[0], s[1], s[2], s[3]] + s[4..];
  }

  lemma ViewRead(b: seq<u8>, t: seq<u8>)
    ensures ReadView(b + t, |b|) == Ok((b, t))
  {
  }

  lemma ViewCanonical(s: seq<u8>, n: nat)
    requires ReadView(s, n).Ok?
    ensures s == ReadView(s, n).value.0 + ReadView(s, n).value.1 && |ReadView(s, n).value.0| == n
  {
  }

  lemma AsciiRead(s: JsString)
    requires IsAscii(s)
    ensures DecodeAscii(AsciiBytes(s)) == s && |AsciiBytes(s)| == |s|
  {
  }

  lemma AsciiCanonical(b: seq<u8>)
    requires IsAscii(DecodeAscii(b))
    ensures AsciiBytes(DecodeAscii(b)) == b && |DecodeAscii(b)| == |b|
  {
  }

  lemma HeaderRead(t: seq<u8>)
    ensures ReadHeader(HeaderBytes(t)) == Ok((API_VERSION, t))
  {
    var s := HeaderBytes(t);
    assert |API_VERSION| == 5;
    assert s[3..8] == API_VERSION && s[8..] == t;
    assert DecodeAscii(s[3..8]) == API_VERSION;
  }

  lemma HeaderCanonical(s: seq<u8>)
    requires ReadHeader(s).Ok? && ReadHeader(s).value.0 == API_VERSION
    ensures s == HeaderBytes(ReadHeader(s).value.1)
  {
    var end := 3 + (s[2] as int);
    assert |DecodeAscii(s[3..end])| == s[2];
    assert |API_VERSION| == 5;
    assert s[3..end] == API_VERSION by {
      forall i | 0 <= i < 5 ensures s[3..end][i] == API_VERSION[i] {
        assert DecodeAscii(s[3..end])[i] == s[3..end][i];
      }
    }
    assert s == [s[0], s[1], s[2]] + (s[3..end] + s[end..]);
  }

  // Fixed block --------------------------------------------------------------

  lemma RngRead(f: Fixed, g: Fixed, t: seq<u8>)
    requires f == g.(rng0 := f.rng0, rng1 := f.rng1, rng2 := f.rng2, rng3 := f.rng3)
    ensures ReadRng(RngBytes(f, t), g) == Ok((f, t))
  {
    var t3 := Byte(f.playerCount, t);
    var t2 := Word32(f.rng3, t3);
    var t1 := Word32(f.rng2, t2);
    var t0 := Word32(f.rng1, t1);
    Word32Read(f.rng0, t0);
    Word32Read(f.rng1, t1);
    Word32Read(f.rng2, t2);
    Word32Read(f.rng3, t3);
    ByteRead(f.playerCount, t);
  }

  lemma RngCanonical(s: seq<u8>, g: Fixed)
    requires ReadRng(s, g).Ok?
    ensures var (f, t) := ReadRng(s, g).value;
            s == RngBytes(f, t) && f == g.(rng0 := f.rng0, rng1 := f.rng1, rng2 := f.rng2, rng3 := f.rng3)
  {
    var s0 := ReadWord32(s).value.1;
    var s1 := ReadWord32(s0).value.1;
    var s2 := ReadWord32(s1).value.1;
    var s3 := ReadWord32(s2).value.1;
    Word32Canonical(s);
    Word32Canonical(s0);
    Word32Canonical(s1);
    Word32Canonical(s2);
    ByteCanonical(s3);
  }

  predicate FixedInRange(f: Fixed) {
    f.boardSize >= MIN_BOARD_SIZE && PR.MIN_PLAYERS <= f.playerCount <= PR.MAX_PLAYERS
  }

  lemma FixedRead(f: Fixed, t: seq<u8>)
    requires FixedInRange(f)
    ensures ReadFixed(FixedBytes(f, t)) == Ok((f, t))
  {
    var t6 := RngBytes(f, t);
    var t5 := Byte(f.visibilityRadius, t6);
    var t4 := Word32(f.tickIntervalMs, t5);
    var t3 := Word32(f.seed, t4);
    var t2 := Word32(f.tick, t3);
    var t1 := Byte(f.playerCount, t2);
    var t0 := Byte(f.boardSize, t1);
    ByteRead(FORMAT_VERSION, t0);
    ByteRead(f.boardSize, t1);
    ByteRead(f.playerCount, t2);
    Word32Read(f.tick, t3);
    Word32Read(f.seed, t4);
    Word32Read(f.tickIntervalMs, t5);
    ByteRead(f.visibilityRadius, t6);
    RngRead(f, f.(rng0 := 0, rng1 := 0, rng2 := 0, rng3 := 0), t);
  }

  lemma FixedCanonical(s: seq<u8>)
    requires ReadFixed(s).Ok?
    ensures var (f, t) := ReadFixed(s).value; FixedInRange(f) && s == FixedBytes(f, t)
  {
    var s0 := ReadByte(s).value.1;
    var s1 := ReadByte(s0).value.1;
    var s2 := ReadByte(s1).value.1;
    var s3 := ReadWord32(s2).value.1;
    var s4 := ReadWord32(s3).value.1;
    var s5 := ReadWord32(s4).value.1;
    var s6 := ReadByte(s5).value.1;
    ByteCanonical(s);
    ByteCanonical(s0);
    ByteCanonical(s1);
    Word32Canonical(s2);
    Word32Canonical(s3);
    Word32Canonical(s4);
    ByteCanonical(s5);
    RngCanonical(s6, Fixed(ReadByte(s0).value.0, ReadByte(s1).value.0, ReadWord32(s2).value.0, ReadWord32(s3).value.0,
                           ReadWord32(s4).value.0, ReadByte(s5).value.0, 0, 0, 0, 0));
  }

  // Identity table -----------------------------------------------------------

  lemma PlayerIdIsAscii(id: JsString)
    requires PR.IsPlayerId(id)
    ensures IsAscii(id)
  {
    forall i | 0 <= i < |id| ensures id[i] <= 0x7f {
      assert id[i] in id;
    }
  }

  lemma {:induction false} IdsRead(ids: seq<JsString>, t: seq<u8>, acc: seq<JsString>)
    requires forall id :: id in ids ==> PR.IsPlayerId(id) && IsAscii(id)
    requires Utf16Order.StrictlyAscending(acc + ids)
    ensures ReadIds(IdBytes(ids, t), |ids|, acc) == Ok((acc + ids, t))
  {
    if ids == [] {
      assert acc + ids == acc;
    } else {
      var id := ids[0];
      var t1 := IdBytes(ids[1..], t);
      assert PR.IsPlayerId(id);
      ByteRead(12, AsciiBytes(id) + t1);
      AsciiRead(id);
      ViewRead(AsciiBytes(id), t1);
      assert (acc + ids)[|acc|] == id;
      assert acc != [] ==> (acc + ids)[|acc| - 1] == acc[|acc| - 1];
      assert acc + ids == (acc + [id]) + ids[1..];
      IdsRead(ids[1..], t, acc + [id]);
    }
  }

  lemma IdsStep(s: seq<u8>, n: nat, acc: seq<JsString>) returns (id: JsString, t: seq<u8>)
    requires n > 0 && ReadIds(s, n, acc).Ok?
    ensures PR.IsPlayerId(id) && IsAscii(id) && (acc != [] ==> Utf16Order.Compare(acc[|acc| - 1], id) < 0)
    ensures s == Byte(LowByte(|id|), AsciiBytes(id) + t)
    ensures ReadIds(s, n, acc) == ReadIds(t, n - 1, acc + [id])
  {
    var s0 := ReadByte(s).value.1;
    var raw := ReadView(s0, 12).value.0;
    id, t := DecodeAscii(raw), ReadView(s0, 12).value.1;
    ByteCanonical(s);
    ViewCanonical(s0, 12);
    PlayerIdIsAscii(id);
    AsciiCanonical(raw);
  }

  lemma AscendingGrows(acc: seq<JsString>, id: JsString)
    requires Utf16Order.StrictlyAscending(acc) && (acc != [] ==> Utf16Order.Compare(acc[|acc| - 1], id) < 0)
    ensures Utf16Order.StrictlyAscending(acc + [id])
  {
  }

  lemma IdBytesCons(id: JsString, rest: seq<JsString>, t: seq<u8>)
    ensures IdBytes([id] + rest, t) == Byte(LowByte(|id|), AsciiBytes(id) + IdBytes(rest, t))
  {
    assert ([id] + rest)[1..] == rest;
  }

  lemma TakeThrough<T>(s: seq<T>, acc: seq<T>, x: T)
    requires |acc| < |s| && s[..|acc| + 1] == acc + [x]
    ensures s[..|acc|] == acc && s[|acc|] == x && s[|acc|..] == [x] + s[|acc| + 1..]
  {
    assert s[..|acc|] == s[..|acc| + 1][..|acc|];
    assert s[|acc|] == s[..|acc| + 1][|acc|];
  }

  predicate AllCanonical(ids: seq<JsString>) {
    forall id :: id in ids ==> PR.IsPlayerId(id) && IsAscii(id)
  }

  lemma IdBefore(s: seq<u8>, s1: seq<u8>, acc: seq<JsString>, id: JsString, ids: seq<JsString>, t: seq<u8>)
    requires |acc| < |ids| && ids[..|acc| + 1] == acc + [id] && PR.IsPlayerId(id) && IsAscii(id)
    requires s == Byte(LowByte(|id|), AsciiBytes(id) + s1)
    requires AllCanonical(ids[|acc| + 1..]) && s1 == IdBytes(ids[|acc| + 1..], t)
    ensures ids[..|acc|] == acc && AllCanonical(ids[|acc|..]) && s == IdBytes(ids[|acc|..], t)
  {
    TakeThrough(ids, acc, id);
    IdBytesCons(id, ids[|acc| + 1..], t);
  }

  lemma {:induction false} IdsCanonical(s: seq<u8>, n: nat, acc: seq<JsString>)
    requires ReadIds(s, n, acc).Ok? && Utf16Order.StrictlyAscending(acc)
    ensures var (ids, t) := ReadIds(s, n, acc).value;
            && |ids| == |acc| + n && ids[..|acc|] == acc && Utf16Order.StrictlyAscending(ids)
            && AllCanonical(ids[|acc|..]) && s == IdBytes(ids[|acc|..], t)
    decreases n
  {
    if n > 0 {
      var id, s1 := IdsStep(s, n, acc);
      AscendingGrows(acc, id);
      IdsCanonical(s1, n - 1, acc + [id]);
      var r := ReadIds(s1, n - 1, acc + [id]).value;
      IdBefore(s, s1, acc, id, r.0, r.1);
    }
  }

  // Permutations -------------------------------------------------------------

  lemma {:induction false} ScanMeans(values: seq<int>, count: nat, i: nat)
    requires i <= |values|
    ensures PermutationScan(values, count, i).None? <==>
              forall k :: i <= k < |values| ==> 0 <= values[k] < count && values[k] !in values[..k]
    decreases |values| - i
  {
    if i < |values| {
      ScanMeans(values, count, i + 1);
    }
  }

  /** `permutationProblem` finds nothing exactly for the duplicate-free index lists of full length. */
  lemma PermutationMeans(values: seq<int>, count: nat)
    ensures PermutationProblem(values, count).None? <==>
              |values| == count && (forall k :: 0 <= k < count ==> 0 <= values[k] < count) && NoDuplicates(values)
  {
    ScanMeans(values, count, 0);
    if forall k :: 0 <= k < |values| ==> 0 <= values[k] < count && values[k] !in values[..k] {
      forall i, j | 0 <= i < j < |values| ensures values[i] != values[j] {
        assert values[i] == values[..j][i];
      }
    }
  }

  /** No duplicate can only mean that every index is used: a slot map names every table entry. */
  lemma PermutationCovers(values: seq<int>, count: nat, index: nat)
    requires PermutationProblem(values, count).None? && index < count
    ensures index in values
  {
    PermutationMeans(values, count);
    var used := set v | v in values;
    DistinctCount(values);
    if index !in values {
      assert used <= Range(count) - {index};
      SubsetCount(used, Range(count) - {index});
    }
  }

  lemma {:induction false} DistinctCount(values: seq<int>)
    requires NoDuplicates(values)
    ensures |set v | v in values| == |values|
  {
    if values != [] {
      var n := |values| - 1;
      DistinctCount(values[..n]);
      assert values == values[..n] + [values[n]];
      assert (set v | v in values) == (set v | v in values[..n]) + {values[n]};
      assert values[n] !in values[..n];
    }
  }

  function Range(n: nat): (r: set<int>)
    ensures |r| == n && forall k :: k in r <==> 0 <= k < n
  {
    if n == 0 then {} else Range(n - 1) + {n - 1}
  }

  lemma {:induction false} SubsetCount<T>(a: set<T>, b: set<T>)
    requires a <= b
    ensures |a| <= |b|
  {
    if a != {} {
      var x :| x in a;
      SubsetCount(a - {x}, b - {x});
    }
  }

  // Player records -----------------------------------------------------------

  lemma RecordHeadRead(a: u8, b: u8, c: u8, x: u32, n: u8, t: seq<u8>)
    ensures var s := [a, b, c] + Word32(x, Byte(n, t));
            |s| >= 8 && s[0] == a && s[1] == b && s[2] == c && Value32(s[3..]) == x && s[7] == n && s[8..] == t
  {
    var s := [a, b, c] + Word32(x, Byte(n, t));
    assert s[3..] == Word32(x, Byte(n, t));
    Word32Read(x, Byte(n, t));
  }

  lemma RecordHeadCanonical(s: seq<u8>)
    requires |s| >= 8
    ensures s == [s[0], s[1], s[2]] + Word32(Value32(s[3..]), Byte(s[7], s[8..]))
  {
    Word32Canonical(s[3..]);
    assert s == [s[0], s[1], s[2]] + s[3..];
    assert s[3..][4..] == Byte(s[7], s[8..]);
  }

  lemma NameRead(name: JsString, t: seq<u8>)
    requires IsAscii(name)
    ensures ReadView(AsciiBytes(name) + t, |name|) == Ok((AsciiBytes(name), t)) && DecodeAscii(AsciiBytes(name)) == name
  {
    AsciiRead(name);
    ViewRead(AsciiBytes(name), t);
  }

  lemma NameCanonical(s: seq<u8>, n: u8)
    requires ReadView(s, n).Ok? && IsAscii(DecodeAscii(ReadView(s, n).value.0))
    ensures var (raw, t) := ReadView(s, n).value;
            |DecodeAscii(raw)| == n && s == AsciiBytes(DecodeAscii(raw)) + t
  {
    ViewCanonical(s, n);
    AsciiCanonical(ReadView(s, n).value.0);
  }

  lemma PlayerRead(p: Player, i: nat, registry: PR.Registry, t: seq<u8>)
    requires PlayerEncodable(p) && i < 256 && registry.IdAt(i) == Some(p.id)
    ensures ReadPlayer(PlayerBytes(p, i, t), i, registry) == Ok((p, t))
  {
    PlayerLayout(p, i, t);
    RecordHeadRead(i, StatusByte(p.status), p.citiesOwned, p.troopsHeld, |p.displayName|, AsciiBytes(p.displayName) + t);
    NameRead(p.displayName, t);
    RecordFields(PlayerBytes(p, i, t), i, registry, p, t);
  }

  lemma PlayerLayout(p: Player, i: nat, t: seq<u8>)
    requires PlayerEncodable(p) && i < 256
    ensures PlayerBytes(p, i, t) == [i, StatusByte(p.status), p.citiesOwned]
                                    + Word32(p.troopsHeld, Byte(|p.displayName|, AsciiBytes(p.displayName) + t))
    ensures StatusOf(StatusByte(p.status)) == Some(p.status)
  {
    assert LowByte(i) == i && LowByte(p.citiesOwned) == p.citiesOwned && LowByte(|p.displayName|) == |p.displayName|;
    assert ToUint32(p.troopsHeld) == p.troopsHeld;
  }

  lemma RecordFields(s: seq<u8>, i: nat, registry: PR.Registry, p: Player, t: seq<u8>)
    requires |s| >= 8 && s[0] == i && registry.IdAt(i) == Some(p.id) && StatusOf(s[1]) == Some(p.status)
    requires s[2] == p.citiesOwned && Value32(s[3..]) == p.troopsHeld && IsAscii(p.displayName)
    requires ReadView(s[8..], s[7]).Ok? && ReadView(s[8..], s[7]).value.1 == t
    requires DecodeAscii(ReadView(s[8..], s[7]).value.0) == p.displayName
    ensures ReadPlayer(s, i, registry) == Ok((p, t))
  {
  }

  lemma PlayerCanonical(s: seq<u8>, i: nat, registry: PR.Registry)
    requires ReadPlayer(s, i, registry).Ok?
    ensures var (p, t) := ReadPlayer(s, i, registry).value;
            i < 256 && PlayerEncodable(p) && registry.IdAt(i) == Some(p.id) && s == PlayerBytes(p, i, t)
  {
    var p, t := ReadPlayer(s, i, registry).value.0, ReadPlayer(s, i, registry).value.1;
    RecordHeadCanonical(s);
    NameCanonical(s[8..], s[7]);
    PlayerLayout(p, i, t);
  }

  lemma {:induction false} PlayersRead(ps: seq<Player>, i: nat, registry: PR.Registry, t: seq<u8>)
    requires i <= |ps| < 256 && forall p :: p in ps ==> PlayerEncodable(p)
    requires forall k :: 0 <= k < |ps| ==> registry.IdAt(k) == Some(ps[k].id)
    ensures ReadPlayers(PlayersBytes(ps, i, t), i, |ps|, registry, ps[..i]) == Ok((ps, t))
    decreases |ps| - i
  {
    if i == |ps| {
      assert ps[..i] == ps;
    } else {
      PlayerRead(ps[i], i, registry, PlayersBytes(ps, i + 1, t));
      assert ps[..i] + [ps[i]] == ps[..i + 1];
      PlayersRead(ps, i + 1, registry, t);
    }
  }

  lemma {:induction false} PlayersCanonical(s: seq<u8>, i: nat, n: nat, registry: PR.Registry, acc: seq<Player>)
    requires i <= n && |acc| == i && ReadPlayers(s, i, n, registry, acc).Ok?
    ensures var (ps, t) := ReadPlayers(s, i, n, registry, acc).value;
            |ps| == n && ps[..i] == acc && s == PlayersBytes(ps, i, t)
    decreases n - i
  {
    if i < n {
      var p, s0 := PlayersStep(s, i, n, registry, acc);
      PlayersCanonical(s0, i + 1, n, registry, acc + [p]);
      TakeThrough(ReadPlayers(s, i, n, registry, acc).value.0, acc, p);
    }
  }

  predicate PlayerListed(p: Player, registry: PR.Registry, k: int) {
    PlayerEncodable(p) && registry.IdAt(k) == Some(p.id)
  }

  predicate ListedFrom(ps: seq<Player>, registry: PR.Registry, i: nat) {
    forall k :: i <= k < |ps| ==> PlayerListed(ps[k], registry, k)
  }

  lemma {:induction false} PlayersValid(s: seq<u8>, i: nat, n: nat, registry: PR.Registry, acc: seq<Player>)
    requires i <= n && |acc| == i && ReadPlayers(s, i, n, registry, acc).Ok?
    ensures var ps := ReadPlayers(s, i, n, registry, acc).value.0;
            |ps| == n && ps[..i] == acc && ListedFrom(ps, registry, i)
    decreases n - i
  {
    if i < n {
      var p, s0 := PlayersStep(s, i, n, registry, acc);
      PlayersValid(s0, i + 1, n, registry, acc + [p]);
      ListedEarlier(ReadPlayers(s0, i + 1, n, registry, acc + [p]).value.0, registry, acc, p);
    }
  }

  lemma ListedEarlier(ps: seq<Player>, registry: PR.Registry, acc: seq<Player>, p: Player)
    requires |acc| < |ps| && ps[..|acc| + 1] == acc + [p] && PlayerListed(p, registry, |acc|)
    requires ListedFrom(ps, registry, |acc| + 1)
    ensures ps[..|acc|] == acc && ListedFrom(ps, registry, |acc|)
  {
    TakeThrough(ps, acc, p);
  }

  lemma PlayersStep(s: seq<u8>, i: nat, n: nat, registry: PR.Registry, acc: seq<Player>) returns (p: Player, t: seq<u8>)
    requires i < n && ReadPlayers(s, i, n, registry, acc).Ok?
    ensures PlayerEncodable(p) && registry.IdAt(i) == Some(p.id) && s == PlayerBytes(p, i, t)
    ensures ReadPlayers(s, i, n, registry, acc) == ReadPlayers(t, i + 1, n, registry, acc + [p])
  {
    PlayerCanonical(s, i, registry);
    p, t := ReadPlayer(s, i, registry).value.0, ReadPlayer(s, i, registry).value.1;
  }

  // Cities -------------------------------------------------------------------

  lemma CityRead(c: City, size: int, count: int, t: seq<u8>)
    requires CityEncodable(c, size, count) && size <= MAX_U8 && count <= MAX_U8
    ensures ReadCity([LowByte(c.cell.x), LowByte(c.cell.y), LowByte(c.owner)] + t, size, count) == Ok((c, t))
  {
  }

  lemma CityCanonical(s: seq<u8>, size: int, count: int)
    requires ReadCity(s, size, count).Ok?
    ensures var (c, t) := ReadCity(s, size, count).value;
            CityEncodable(c, size, count) && s == [LowByte(c.cell.x), LowByte(c.cell.y), LowByte(c.owner)] + t
  {
  }

  lemma {:induction false} CitiesRead(cities: seq<City>, size: int, count: int, t: seq<u8>, acc: seq<City>)
    requires size <= MAX_U8 && count <= MAX_U8
    requires (forall c :: c in cities ==> CityEncodable(c, size, count)) && DistinctCells(acc + cities)
    ensures ReadCities(CitiesBytes(cities, t), |cities|, size, count, acc) == Ok((acc + cities, t))
  {
    if cities == [] {
      assert acc + cities == acc;
    } else {
      var c := cities[0];
      CityRead(c, size, count, CitiesBytes(cities[1..], t));
      assert (acc + cities)[|acc|] == c;
      assert acc + cities == (acc + [c]) + cities[1..];
      forall d | d in acc ensures d.cell != c.cell {
        var k :| 0 <= k < |acc| && acc[k] == d;
        assert (acc + cities)[k] == d;
      }
      CitiesRead(cities[1..], size, count, t, acc + [c]);
    }
  }

  lemma {:induction false} CitiesCanonical(s: seq<u8>, n: nat, size: int, count: int, acc: seq<City>)
    requires ReadCities(s, n, size, count, acc).Ok? && DistinctCells(acc)
    ensures var (cities, t) := ReadCities(s, n, size, count, acc).value;
            && |cities| == |acc| + n && cities[..|acc|] == acc && DistinctCells(cities)
            && (forall c :: c in cities[|acc|..] ==> CityEncodable(c, size, count))
            && s == CitiesBytes(cities[|acc|..], t)
  {
    if n > 0 {
      CityCanonical(s, size, count);
      var (c, s0) := ReadCity(s, size, count).value;
      CitiesCanonical(s0, n - 1, size, count, acc + [c]);
      var cities := ReadCities(s, n, size, count, acc).value.0;
      assert cities[..|acc|] == cities[..|acc| + 1][..|acc|] == acc;
      assert cities[|acc|..] == [c] + cities[|acc| + 1..];
      assert cities[|acc|..][1..] == cities[|acc| + 1..];
    }
  }

  // Cells --------------------------------------------------------------------

  lemma CellRead(c: CellRecord, count: int, t: seq<u8>)
    requires CellEncodable(c, count)
    ensures ReadCell(CellBytes(c, t), count) == Ok((c, t))
  {
    var s := CellBytes(c, t);
    Word32Read(c.troopCount, s[4..]);
    assert s[10..] == t;
  }

  lemma CellCanonical(s: seq<u8>, count: int)
    requires ReadCell(s, count).Ok?
    ensures var (c, t) := ReadCell(s, count).value; CellEncodable(c, count) && s == CellBytes(c, t)
  {
    Word32Canonical(s);
    assert s[4..] == [s[4], s[5], s[6], s[7], s[8], s[9]] + s[10..];
  }

  lemma {:induction false} CellsRead(records: seq<CellRecord>, count: int, t: seq<u8>, acc: seq<CellRecord>)
    requires forall c :: c in records ==> CellEncodable(c, count)
    ensures ReadCells(CellsBytes(records, t), |records|, count, acc) == Ok((acc + records, t))
  {
    if records == [] {
      assert acc + records == acc;
    } else {
      CellRead(records[0], count, CellsBytes(records[1..], t));
      assert acc + records == (acc + [records[0]]) + records[1..];
      CellsRead(records[1..], count, t, acc + [records[0]]);
    }
  }

  lemma {:induction false} CellsCanonical(s: seq<u8>, n: nat, count: int, acc: seq<CellRecord>)
    requires ReadCells(s, n, count, acc).Ok?
    ensures var (records, t) := ReadCells(s, n, count, acc).value;
            && |records| == |acc| + n && records[..|acc|] == acc
            && (forall c :: c in records[|acc|..] ==> CellEncodable(c, count))
            && s == CellsBytes(records[|acc|..], t)
  {
    if n > 0 {
      CellCanonical(s, count);
      var (c, s0) := ReadCell(s, count).value;
      CellsCanonical(s0, n - 1, count, acc + [c]);
      var records := ReadCells(s, n, count, acc).value.0;
      assert records[..|acc|] == records[..|acc| + 1][..|acc|] == acc;
      assert records[|acc|..] == [c] + records[|acc| + 1..];
      assert records[|acc|..][1..] == records[|acc| + 1..];
    }
  }
}
