/**
 The packet checksum of `Packet.cpp`, and the gate it forms in `RUDPSocket::RecvFromComplete`. The
 SSE4.2 instructions compute CRC-32C, the checksum of section 12.1 of RFC 3720. A 32-bit register
 is written out as its bits, bit 0 first, and a register step as its effect on them.
 */
module Crc {

  import opened Words

  /** 0x82F63B78, the polynomial 0x1EDC6F41 reflected, bit 0 first. */
  const POLYNOMIAL: seq<bool> := [
    false, false, false, true,  true, true, true, false,   // 8 7
    true, true, false, true,    true, true, false, false,  // B 3
    false, true, true, false,   true, true, true, true,    // 6 F
    false, true, false, false,  false, false, false, true] // 2 8

  const ONES: seq<bool> := [
    true, true, true, true, true, true, true, true, true, true, true, true, true, true, true, true,
    true, true, true, true, true, true, true, true, true, true, true, true, true, true, true, true]

  function Xor(x: seq<bool>, y: seq<bool>): (r: seq<bool>)
    requires |x| == 32 && |y| == 32
    ensures |r| == 32
    ensures forall i :: 0 <= i < 32 ==> r[i] == (x[i] != y[i])
  {
    seq(32, i requires 0 <= i < 32 => x[i] != y[i])
  }

  /** One step of the shift register: to the right, and the polynomial added if a bit falls out. */
  function Shift(x: seq<bool>): (r: seq<bool>)
    requires |x| == 32
    ensures |r| == 32
  {
    if x[0] then Xor(x[1..] + [false], POLYNOMIAL) else x[1..] + [false]
  }

  function ShiftN(x: seq<bool>, n: nat): (r: seq<bool>)
    requires |x| == 32
    ensures |r| == 32
    decreases n
  {
    if n == 0 then x else ShiftN(Shift(x), n - 1)
  }

  /** The low bits of a register that is otherwise zero. */
  function Pad(bits: seq<bool>): (r: seq<bool>)
    ensures |r| == 32
    requires |bits| <= 32
  {
    bits + seq(32 - |bits|, _ => false)
  }

  function BitsOf(b: bv8): (r: seq<bool>)
    ensures |r| == 8
  {
    [b & 0x01 != 0, b & 0x02 != 0, b & 0x04 != 0, b & 0x08 != 0,
     b & 0x10 != 0, b & 0x20 != 0, b & 0x40 != 0, b & 0x80 != 0]
  }

  /** The bits of bytes in memory, as a little-endian load sees them. */
  function Load(data: Bytes): (r: seq<bool>)
    ensures |r| == 8 * |data|
  {
    if data == [] then [] else BitsOf(data[0]) + Load(data[1..])
  }

  /** `_mm_crc32_u8`. */
  function Crc32U8(crc: seq<bool>, b: bv8): (r: seq<bool>)
    requires |crc| == 32
    ensures |r| == 32
  {
    ShiftN(Xor(crc, Pad(BitsOf(b))), 8)
  }

  /** `_mm_crc32_u32`. */
  function Crc32U32(crc: seq<bool>, word: seq<bool>): (r: seq<bool>)
    requires |crc| == 32 && |word| == 32
    ensures |r| == 32
  {
    ShiftN(Xor(crc, word), 32)
  }

  /** The register after the given bytes, one byte at a time. */
  function Register(crc: seq<bool>, data: Bytes): (r: seq<bool>)
    requires |crc| == 32
    ensures |r| == 32
    decreases |data|
  {
    if data == [] then crc else Register(Crc32U8(crc, data[0]), data[1..])
  }

  /** CRC-32C. */
  function Checksum(data: Bytes): (r: seq<bool>)
    ensures |r| == 32
  {
    Xor(Register(ONES, data), ONES)
  }

  // ---------------------------------------------------------------------------------------------
  // Bit by bit
  // ---------------------------------------------------------------------------------------------

  /** The textbook register: each message bit meets the bit that falls out. */
  function FeedBit(x: seq<bool>, m: bool): (r: seq<bool>)
    requires |x| == 32
    ensures |r| == 32
  {
    if x[0] != m then Xor(x[1..] + [false], POLYNOMIAL) else x[1..] + [false]
  }

  function Feed(x: seq<bool>, bits: seq<bool>): (r: seq<bool>)
    requires |x| == 32
    ensures |r| == 32
    decreases |bits|
  {
    if bits == [] then x else Feed(FeedBit(x, bits[0]), bits[1..])
  }

  lemma {:induction false} FeedConcat(x: seq<bool>, a: seq<bool>, b: seq<bool>)
    requires |x| == 32
    ensures Feed(x, a + b) == Feed(Feed(x, a), b)
    decreases |a|
  {
    if a == [] {
      assert a + b == b;
    } else {
      assert (a + b)[1..] == a[1..] + b;
      FeedConcat(FeedBit(x, a[0]), a[1..], b);
    }
  }

  /** Adding the message first and shifting afterwards moves the message along untouched. */
  lemma ShiftIsFeed(x: seq<bool>, bits: seq<bool>)
    requires |x| == 32
    requires 0 < |bits| <= 32
    ensures Shift(Xor(x, Pad(bits))) == Xor(FeedBit(x, bits[0]), Pad(bits[1..]))
  {
  }

  lemma {:induction false} ShiftNIsFeed(x: seq<bool>, bits: seq<bool>)
    requires |x| == 32
    requires |bits| <= 32
    ensures ShiftN(Xor(x, Pad(bits)), |bits|) == Feed(x, bits)
    decreases |bits|
  {
    if bits == [] {
      assert Xor(x, Pad(bits)) == x;
    } else {
      ShiftIsFeed(x, bits);
      ShiftNIsFeed(FeedBit(x, bits[0]), bits[1..]);
    }
  }

  /** One byte at a time is one bit at a time. */
  lemma {:induction false} RegisterIsFeed(crc: seq<bool>, data: Bytes)
    requires |crc| == 32
    ensures Register(crc, data) == Feed(crc, Load(data))
    decreases |data|
  {
    if data != [] {
      ShiftNIsFeed(crc, BitsOf(data[0]));
      FeedConcat(crc, BitsOf(data[0]), Load(data[1..]));
      RegisterIsFeed(Crc32U8(crc, data[0]), data[1..]);
    }
  }

  lemma {:induction false} LoadConcat(a: Bytes, b: Bytes)
    ensures Load(a + b) == Load(a) + Load(b)
  {
    if a == [] {
      assert a + b == b;
    } else {
      assert (a + b)[1..] == a[1..] + b;
      LoadConcat(a[1..], b);
    }
  }

  lemma RegisterConcat(crc: seq<bool>, a: Bytes, b: Bytes)
    requires |crc| == 32
    ensures Register(crc, a + b) == Register(Register(crc, a), b)
  {
    RegisterIsFeed(crc, a + b);
    RegisterIsFeed(crc, a);
    RegisterIsFeed(Register(crc, a), b);
    LoadConcat(a, b);
    FeedConcat(crc, Load(a), Load(b));
  }

  /** One word at a time is one byte at a time. */
  lemma FourMore(data: Bytes, i: nat)
    requires i + 4 <= |data|
    ensures Register(ONES, data[..i + 4]) == Crc32U32(Register(ONES, data[..i]), Load(data[i..i + 4]))
  {
    var crc, w := Register(ONES, data[..i]), data[i..i + 4];
    RegisterConcat(ONES, data[..i], w);
    assert data[..i + 4] == data[..i] + w;
    RegisterIsFeed(crc, w);
    ShiftNIsFeed(crc, Load(w));
    assert Pad(Load(w)) == Load(w);
  }

  lemma OneMore(data: Bytes, i: nat)
    requires i < |data|
    ensures Register(ONES, data[..i + 1]) == Crc32U8(Register(ONES, data[..i]), data[i])
  {
    RegisterConcat(ONES, data[..i], [data[i]]);
    assert data[..i + 1] == data[..i] + [data[i]];
    RegisterOne(Register(ONES, data[..i]), data[i]);
  }

  lemma RegisterOne(crc: seq<bool>, b: bv8)
    requires |crc| == 32
    ensures Register(crc, [b]) == Crc32U8(crc, b)
  {
    assert [b][1..] == [];
  }

  /** `Packet::CRC32`: four bytes at a time, then the rest one by one, computes CRC-32C. */
  method CRC32(data: Bytes) returns (crc: seq<bool>)
    ensures |crc| == 32
    ensures crc == Checksum(data)
  {
    crc := ONES;
    var i := 0;
    while i + 4 <= |data|
      invariant 0 <= i <= |data| && crc == Register(ONES, data[..i])
    {
      FourMore(data, i);
      crc := Crc32U32(crc, Load(data[i..i + 4]));
      i := i + 4;
    }
    while i < |data|
      invariant 0 <= i <= |data| && crc == Register(ONES, data[..i])
    {
      OneMore(data, i);
      crc := Crc32U8(crc, data[i]);
      i := i + 1;
    }
    assert data[..i] == data;
    crc := Xor(crc, ONES);
  }

  // ---------------------------------------------------------------------------------------------
  // Polynomial division
  // ---------------------------------------------------------------------------------------------

  /** The terms below x^32 of the polynomial in section 12.1 of RFC 3720; bit `i` is that of x^(31 - i). */
  lemma PolynomialTerms(e: nat)
    requires e < 32
    ensures POLYNOMIAL[31 - e] <==> e in {28, 27, 26, 25, 23, 22, 20, 19, 18, 14, 13, 11, 10, 9, 8, 6, 0}
  {
  }

  /** `m` with `x` added to its 32 highest coefficients. */
  function AddFront(m: seq<bool>, x: seq<bool>): (r: seq<bool>)
    requires |m| >= 32 && |x| == 32
    ensures |r| == |m|
  {
    Xor(m[..32], x) + m[32..]
  }

  /** The remainder of long division by x^32 plus the polynomial, highest coefficient first. */
  function Remainder(m: seq<bool>): (r: seq<bool>)
    requires |m| >= 32
    ensures |r| == 32
    decreases |m|
  {
    if |m| == 32 then m
    else if m[0] then Remainder(AddFront(m[1..], POLYNOMIAL))
    else Remainder(m[1..])
  }

  function Zeros(n: nat): (r: seq<bool>)
    ensures |r| == n && forall i :: 0 <= i < n ==> !r[i]
  {
    if n == 0 then [] else Zeros(n - 1) + [false]
  }

  /** One step of the division is one step of the register. */
  lemma DivisionStep(x: seq<bool>, bits: seq<bool>)
    requires |x| == 32 && bits != []
    ensures var m := AddFront(bits + Zeros(32), x);
            && m[0] == (bits[0] != x[0])
            && AddFront(bits[1..] + Zeros(32), FeedBit(x, bits[0])) ==
                 if m[0] then AddFront(m[1..], POLYNOMIAL) else m[1..]
  {
    var m, tail := AddFront(bits + Zeros(32), x), bits[1..] + Zeros(32);
    var l := AddFront(tail, FeedBit(x, bits[0]));
    var r := if m[0] then AddFront(m[1..], POLYNOMIAL) else m[1..];
    assert (bits + Zeros(32))[1..] == tail;
    forall i | 0 <= i < |tail|
      ensures l[i] == r[i]
    {
      StepAt(x, bits, i);
    }
  }

  lemma StepAt(x: seq<bool>, bits: seq<bool>, i: nat)
    requires |x| == 32 && bits != [] && i < |bits| + 31
    ensures var m, tail := AddFront(bits + Zeros(32), x), bits[1..] + Zeros(32);
            && m[1..][i] == (tail[i] != (i < 31 && x[i + 1]))
            && AddFront(tail, FeedBit(x, bits[0]))[i] == (tail[i] != (i < 32 && FeedBit(x, bits[0])[i]))
  {
  }

  /** The register holds the remainder of the message times x^32, its start value added in front. */
  lemma {:induction false} FeedIsRemainder(x: seq<bool>, bits: seq<bool>)
    requires |x| == 32
    ensures Feed(x, bits) == Remainder(AddFront(bits + Zeros(32), x))
    decreases |bits|
  {
    if bits == [] {
      assert AddFront(bits + Zeros(32), x) == x;
    } else {
      DivisionStep(x, bits);
      FeedIsRemainder(FeedBit(x, bits[0]), bits[1..]);
    }
  }

  /** CRC-32C as the standard defines it: a remainder, with the first 32 bits and the result complemented. */
  lemma ChecksumIsRemainder(data: Bytes)
    ensures Checksum(data) == Xor(Remainder(AddFront(Load(data) + Zeros(32), ONES)), ONES)
  {
    RegisterIsFeed(ONES, data);
    FeedIsRemainder(ONES, Load(data));
  }

  // ---------------------------------------------------------------------------------------------
  // Detecting errors
  // ---------------------------------------------------------------------------------------------

  /** The polynomial's top bit is set, so the new top bit tells which bit fell out. */
  lemma FeedBitInjective(x: seq<bool>, y: seq<bool>, m: bool)
    requires |x| == 32 && |y| == 32
    requires FeedBit(x, m) == FeedBit(y, m)
    ensures x == y
  {
    assert FeedBit(x, m)[31] == (x[0] != m) && FeedBit(y, m)[31] == (y[0] != m);
    forall i | 0 < i < 32
      ensures x[i] == y[i]
    {
      assert FeedBit(x, m)[i - 1] == FeedBit(y, m)[i - 1];
    }
  }

  lemma {:induction false} FeedInjective(x: seq<bool>, y: seq<bool>, bits: seq<bool>)
    requires |x| == 32 && |y| == 32
    requires Feed(x, bits) == Feed(y, bits)
    ensures x == y
    decreases |bits|
  {
    if bits != [] {
      FeedInjective(FeedBit(x, bits[0]), FeedBit(y, bits[0]), bits[1..]);
      FeedBitInjective(x, y, bits[0]);
    }
  }

  /** Which bits were fed, too, shows in the register, up to its width. */
  lemma FeedTellsBits(x: seq<bool>, a: seq<bool>, b: seq<bool>)
    requires |x| == 32
    requires |a| == |b| <= 32 && Feed(x, a) == Feed(x, b)
    ensures a == b
  {
    ShiftNIsFeed(x, a);
    ShiftNIsFeed(x, b);
    ShiftNInjective(Xor(x, Pad(a)), Xor(x, Pad(b)), |a|);
    forall i | 0 <= i < |a|
      ensures a[i] == b[i]
    {
      assert Xor(x, Pad(a))[i] == Xor(x, Pad(b))[i];
      assert Pad(a)[i] == a[i] && Pad(b)[i] == b[i];
    }
  }

  lemma {:induction false} ShiftNInjective(x: seq<bool>, y: seq<bool>, n: nat)
    requires |x| == 32 && |y| == 32
    requires ShiftN(x, n) == ShiftN(y, n)
    ensures x == y
    decreases n
  {
    if n > 0 {
      ShiftNInjective(Shift(x), Shift(y), n - 1);
      FeedBitInjective(x, y, false);
    }
  }

  lemma BitsTellByte(a: bv8, b: bv8)
    requires BitsOf(a) == BitsOf(b)
    ensures a == b
  {
  }

  lemma {:induction false} LoadInjective(a: Bytes, b: Bytes)
    requires |a| == |b| && Load(a) == Load(b)
    ensures a == b
  {
    if a != [] {
      assert BitsOf(a[0]) == Load(a)[..8] && BitsOf(b[0]) == Load(b)[..8];
      assert Load(a[1..]) == Load(a)[8..] && Load(b[1..]) == Load(b)[8..];
      BitsTellByte(a[0], b[0]);
      LoadInjective(a[1..], b[1..]);
    }
  }

  /** Strings of equal length that differ only within one run of four bytes or less have different checksums. */
  lemma BurstChangesChecksum(pre: Bytes, a: Bytes, b: Bytes, post: Bytes)
    requires |a| == |b| <= 4 && a != b
    ensures Checksum(pre + (a + post)) != Checksum(pre + (b + post))
  {
    var crc := Register(ONES, pre);
    RegisterConcat(ONES, pre, a + post);
    RegisterConcat(ONES, pre, b + post);
    if Checksum(pre + (a + post)) == Checksum(pre + (b + post)) {
      OnesInjective(Register(crc, a + post), Register(crc, b + post));
      BurstTells(crc, a, b, post);
    }
  }

  lemma OnesInjective(x: seq<bool>, y: seq<bool>)
    requires |x| == 32 && |y| == 32
    requires Xor(x, ONES) == Xor(y, ONES)
    ensures x == y
  {
  }

  lemma BurstTells(crc: seq<bool>, a: Bytes, b: Bytes, post: Bytes)
    requires |crc| == 32
    requires |a| == |b| <= 4 && Register(crc, a + post) == Register(crc, b + post)
    ensures a == b
  {
    RegisterConcat(crc, a, post);
    RegisterConcat(crc, b, post);
    RegisterIsFeed(Register(crc, a), post);
    RegisterIsFeed(Register(crc, b), post);
    FeedInjective(Register(crc, a), Register(crc, b), Load(post));
    RegisterIsFeed(crc, a);
    RegisterIsFeed(crc, b);
    FeedTellsBits(crc, Load(a), Load(b));
    LoadInjective(a, b);
  }

  // ---------------------------------------------------------------------------------------------
  // The checksum field
  // ---------------------------------------------------------------------------------------------

  const HEADER_SIZE: nat := 24
  const FIELD: nat := 16   // offset of checksum_ in the header

  function Bit(b: bool, value: bv8): bv8 {
    if b then value else 0
  }

  /** The byte with the given bits. */
  function ByteOf(x: seq<bool>): bv8
    requires |x| == 8
  {
    Bit(x[0], 0x01) | Bit(x[1], 0x02) | Bit(x[2], 0x04) | Bit(x[3], 0x08) |
    Bit(x[4], 0x10) | Bit(x[5], 0x20) | Bit(x[6], 0x40) | Bit(x[7], 0x80)
  }

  /** The four bytes that a little-endian store of a register writes. */
  function Store(x: seq<bool>): (b: Bytes)
    requires |x| == 32
    ensures |b| == 4
  {
    [ByteOf(x[..8]), ByteOf(x[8..16]), ByteOf(x[16..24]), ByteOf(x[24..])]
  }

  lemma BitsOfByteOf(x: seq<bool>)
    requires |x| == 8
    ensures BitsOf(ByteOf(x)) == x
  {
  }

  lemma LoadOfStore(x: seq<bool>)
    requires |x| == 32
    ensures Load(Store(x)) == x
  {
    var b := Store(x);
    BitsOfByteOf(x[..8]);
    BitsOfByteOf(x[8..16]);
    BitsOfByteOf(x[16..24]);
    BitsOfByteOf(x[24..]);
    assert b[1..][1..] == b[2..] && b[2..][1..] == b[3..] && b[3..][1..] == [];
    assert Load(b[3..]) == x[24..];
    assert Load(b[2..]) == x[16..24] + x[24..];
    assert Load(b[1..]) == x[8..16] + (x[16..24] + x[24..]);
  }

  /** The packet with its checksum field overwritten. */
  function WithField(p: Bytes, field: Bytes): (r: Bytes)
    requires |p| >= HEADER_SIZE && |field| == 4
    ensures |r| == |p|
  {
    p[..FIELD] + field + p[FIELD + 4..]
  }

  function Zeroed(p: Bytes): (r: Bytes)
    requires |p| >= HEADER_SIZE
    ensures |r| == |p|
  {
    WithField(p, [0, 0, 0, 0])
  }

  /** The end of `SendPacket`: the checksum is computed with the field zeroed, then stored in it. */
  function Seal(p: Bytes): (r: Bytes)
    requires |p| >= HEADER_SIZE
    ensures |r| == |p|
  {
    WithField(p, Store(Checksum(Zeroed(p))))
  }

  /** The gate of `RecvFromComplete`. */
  predicate Accepts(p: Bytes) {
    |p| >= HEADER_SIZE && Load(p[FIELD..FIELD + 4]) == Checksum(Zeroed(p))
  }

  lemma FieldOf(p: Bytes, field: Bytes)
    requires |p| >= HEADER_SIZE && |field| == 4
    ensures WithField(p, field)[FIELD..FIELD + 4] == field
    ensures Zeroed(WithField(p, field)) == Zeroed(p)
  {
  }

  /** A packet sealed by the sender passes the receiver's gate. */
  lemma SealedIsAccepted(p: Bytes)
    requires |p| >= HEADER_SIZE
    ensures Accepts(Seal(p))
  {
    var c := Checksum(Zeroed(p));
    FieldOf(p, Store(c));
    LoadOfStore(c);
  }

  /** Sealing writes the field, the four bytes from 16 on, and nothing else. */
  lemma SealKeeps(p: Bytes, i: nat)
    requires |p| >= 24 && i < |p| && !(16 <= i < 20)
    ensures |Seal(p)| == |p| && Seal(p)[i] == p[i]
  {
  }

  /** The packet with its four bytes from 16 on cleared, as the standard's remainder is taken of it. */
  ghost function Cleared(p: Bytes): (r: Bytes)
    ensures |r| == |p| && forall i :: 0 <= i < |p| ==> r[i] == if 16 <= i < 20 then 0 else p[i]
  {
    seq(|p|, i requires 0 <= i < |p| => if 16 <= i < 20 then 0 else p[i])
  }

  lemma ZeroedIsCleared(p: Bytes)
    requires |p| >= 24
    ensures Zeroed(p) == Cleared(p)
  {
  }

  /** What it writes there, read little-endian, is the complemented remainder of the packet with the field cleared. */
  lemma SealWritesRemainder(p: Bytes)
    requires |p| >= 24
    ensures Load(Seal(p)[16..20]) == Xor(Remainder(AddFront(Load(Cleared(p)) + Zeros(32), ONES)), ONES)
  {
    var c := Checksum(Zeroed(p));
    FieldOf(p, Store(c));
    LoadOfStore(c);
    ZeroedIsCleared(p);
    ChecksumIsRemainder(Zeroed(p));
  }

  /** Packets that agree outside the field are sealed alike. */
  lemma SealIgnoresField(p: Bytes, q: Bytes)
    requires |p| >= 24 && |q| == |p| && forall i :: 0 <= i < |p| && !(16 <= i < 20) ==> q[i] == p[i]
    ensures Seal(q) == Seal(p)
  {
    assert Zeroed(q) == Zeroed(p);
    assert q[..16] == p[..16] && q[20..] == p[20..];
  }

  lemma SplitAtField(q: Bytes, field: Bytes)
    requires |q| >= 24 && field == q[16..20]
    ensures WithField(q, field) == q
  {
  }

  /** The field of a packet that the gate lets through. */
  lemma AcceptedField(q: Bytes)
    requires Accepts(q)
    ensures q[16..20] == Store(Checksum(Zeroed(q)))
  {
    var c := Checksum(Zeroed(q));
    LoadOfStore(c);
    LoadInjective(q[16..20], Store(c));
  }

  /** What the gate lets through are exactly the sealed packets. */
  lemma AcceptsIff(q: Bytes)
    requires |q| >= 24
    ensures Accepts(q) <==> q == Seal(q)
  {
    if Accepts(q) {
      AcceptedField(q);
      SplitAtField(q, Store(Checksum(Zeroed(q))));
    }
    SealedIsAccepted(q);
  }

  /** `q` differs from `p` at most in the four bytes from `lo` on. */
  ghost predicate DiffersWithin(p: Bytes, q: Bytes, lo: nat) {
    |q| == |p| && forall i :: 0 <= i < |p| && !(lo <= i < lo + 4) ==> q[i] == p[i]
  }

  /** Four bytes from `lo` on lie partly inside and partly outside the checksum field. No aligned group does. */
  predicate Straddles(lo: nat) {
    lo != FIELD && FIELD < lo + 4 && lo < FIELD + 4
  }

  /** The packet damaged in its checksum field only. */
  lemma FieldDamage(p: Bytes, q: Bytes)
    requires |p| >= HEADER_SIZE && DiffersWithin(p, q, FIELD)
    ensures Zeroed(q) == Zeroed(p)
    ensures q[FIELD..FIELD + 4] == p[FIELD..FIELD + 4] ==> q == p
  {
  }

  /** The packet damaged outside its checksum field only. */
  lemma BodyDamage(p: Bytes, q: Bytes, lo: nat) returns (i: nat)
    requires |p| >= HEADER_SIZE && DiffersWithin(p, q, lo) && q != p && lo != FIELD && !Straddles(lo)
    ensures q[FIELD..FIELD + 4] == p[FIELD..FIELD + 4]
    ensures DiffersWithin(Zeroed(p), Zeroed(q), lo)
    ensures i < |p| && Zeroed(q)[i] != Zeroed(p)[i]
  {
    assert q[FIELD..FIELD + 4] == p[FIELD..FIELD + 4];
    i :| 0 <= i < |p| && q[i] != p[i];
    assert Zeroed(p)[i] == p[i] && Zeroed(q)[i] == q[i];
  }

  lemma WindowChangesChecksum(x: Bytes, y: Bytes, lo: nat, i: nat)
    requires DiffersWithin(x, y, lo) && i < |x| && y[i] != x[i]
    ensures Checksum(y) != Checksum(x)
  {
    var hi := if lo + 4 <= |x| then lo + 4 else |x|;
    var a, b := x[lo..hi], y[lo..hi];
    assert a[i - lo] == x[i] && b[i - lo] == y[i];
    assert y[..lo] == x[..lo] && y[hi..] == x[hi..];
    assert x == x[..lo] + (a + x[hi..]);
    assert y == x[..lo] + (b + x[hi..]);
    BurstChangesChecksum(x[..lo], a, b, x[hi..]);
  }

  /** Damage confined to four bytes, either the field itself or none of it, is always noticed. */
  lemma DamageIsRejected(p: Bytes, q: Bytes, lo: nat)
    requires Accepts(p) && DiffersWithin(p, q, lo) && q != p && !Straddles(lo)
    ensures !Accepts(q)
  {
    if lo == FIELD {
      FieldDamage(p, q);
      if Load(q[FIELD..FIELD + 4]) == Load(p[FIELD..FIELD + 4]) {
        LoadInjective(q[FIELD..FIELD + 4], p[FIELD..FIELD + 4]);
      }
    } else {
      var i := BodyDamage(p, q, lo);
      WindowChangesChecksum(Zeroed(p), Zeroed(q), lo, i);
    }
  }
}
