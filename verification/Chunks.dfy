/**
 Packets too large for one datagram: `SendPacketChunk` splits them, `RecvChunckPacket` gathers the
 pieces in a `ChunkPacketInj` and hands the whole to `PacketParse`. A 16-bit flag word is the set of
 its set bits. Cache buffers are counted here, not named.
 */
module Chunks {

  import opened Words

  const PACKET_MAX: nat := 1024
  const HEADER: nat := 24        // sizeof(PacketHeader)
  const MAX_PIECES: nat := 16    // DEFAULT_CHUNCK_MAX_SIZE
  const BIG_MAX: nat := 8192     // what PopBig asserts

  const ALL: set<nat> := set b: nat | b < 16

  /** `1 << i`, cut to 16 bits. */
  function OneBit(i: nat): set<nat> {
    if i < 16 then {i} else {}
  }

  /** `0xFFFF << i`, cut to 16 bits. */
  function FromBit(i: nat): set<nat> {
    set b | b in ALL && i <= b
  }

  // ---------------------------------------------------------------------------------------------
  // Sending
  // ---------------------------------------------------------------------------------------------

  function ChunkSize(sub: nat): (c: nat)
    requires sub <= 255
    ensures 745 <= c <= 1000
  {
    PACKET_MAX - HEADER - sub
  }

  function PieceCount(size: nat, c: nat): nat
    requires c > 0
  {
    size / c + if size % c > 0 then 1 else 0
  }

  /** The pieces are the fewest of the given size that hold everything. */
  lemma CountCovers(size: nat, c: nat)
    requires c > 0
    ensures size <= PieceCount(size, c) * c
    ensures size > 0 ==> (PieceCount(size, c) - 1) * c < size
  {
  }

  function PieceFlag(count: nat, i: nat): set<nat> {
    if i + 1 == count then FromBit(i) else OneBit(i)
  }

  function Cut(payload: Bytes, c: nat, i: nat): nat {
    if i * c <= |payload| then i * c else |payload|
  }

  lemma CutGrows(payload: Bytes, c: nat, i: nat)
    ensures Cut(payload, c, i) <= Cut(payload, c, i + 1) <= Cut(payload, c, i) + c
  {
  }

  function Part(payload: Bytes, c: nat, i: nat): Bytes {
    CutGrows(payload, c, i);
    payload[Cut(payload, c, i)..Cut(payload, c, i + 1)]
  }

  /** The flag and the part of the payload that each piece is sent with. */
  method SendPacketChunk(payload: Bytes, sub: nat) returns (pieces: seq<(set<nat>, Bytes)>)
    requires |payload| <= 0xFFFF && sub <= 255
    ensures |pieces| == PieceCount(|payload|, ChunkSize(sub))
    ensures forall i :: 0 <= i < |pieces| ==>
              pieces[i] == (PieceFlag(|pieces|, i), Part(payload, ChunkSize(sub), i))
  {
    var c := ChunkSize(sub);
    var count := |payload| / c;
    if |payload| % c > 0 {
      count := count + 1;
    }
    CountCovers(|payload|, c);
    pieces := [];
    var offset := 0;
    var lastBit: set<nat> := ALL;
    var i := 0;
    while i < count
      invariant 0 <= i <= count && |pieces| == i
      invariant offset == i * c
      invariant i < count ==> lastBit == FromBit(i)
      invariant forall k :: 0 <= k < i ==> pieces[k] == (PieceFlag(count, k), Part(payload, c, k))
    {
      var sendSize, flag := c, {};
      if i == count - 1 {
        IsLast(|payload|, c, i);
        var last := |payload| % c;
        if last > 0 {
          sendSize := last;
        }
        flag := lastBit;
      } else {
        NotLast(|payload|, c, i);
        flag := OneBit(i);
        lastBit := ShiftUp(lastBit);
      }
      assert Part(payload, c, i) == payload[offset..offset + sendSize];
      pieces := pieces + [(flag, payload[offset..offset + sendSize])];
      assert (i + 1) * c == i * c + c;
      offset := offset + c;
      i := i + 1;
    }
  }

  /** `lastBit <<= 1`, cut to 16 bits. */
  function ShiftUp(f: set<nat>): set<nat> {
    set b | b in ALL && b > 0 && b - 1 in f
  }

  lemma DivisionIdentity(size: nat, c: nat)
    requires c > 0
    ensures size == size / c * c + size % c
  {
  }

  lemma NotLast(size: nat, c: nat, i: nat)
    requires c > 0 && i + 1 < PieceCount(size, c)
    ensures (i + 1) * c <= size
  {
    CountCovers(size, c);
    MoreIsMore(i + 1, PieceCount(size, c) - 1, c);
  }

  lemma IsLast(size: nat, c: nat, i: nat)
    requires c > 0 && i + 1 == PieceCount(size, c)
    ensures size == i * c + if size % c > 0 then size % c else c
  {
    DivisionIdentity(size, c);
    assert (i + 1) * c == i * c + c;
  }

  lemma MoreIsMore(a: nat, b: nat, c: nat)
    requires a <= b
    ensures a * c <= b * c
  {
  }

  /** The piece that sets a given bit. */
  function PieceOfBit(count: nat, bit: nat): nat
    requires count > 0
  {
    if bit + 1 < count then bit else count - 1
  }

  /**
   The flags of one message partition the 16 bits: every bit belongs to exactly one piece, so they
   are disjoint and their union is 0xFFFF. The lowest bit is the piece's place, and the top bit
   marks the last piece.
   */
  lemma FlagsPartition(count: nat, i: nat)
    requires i < count <= MAX_PIECES
    ensures forall bit: nat :: bit in PieceFlag(count, i) <==> bit < 16 && PieceOfBit(count, bit) == i
    ensures Lowest(PieceFlag(count, i)) == i
    ensures 15 in PieceFlag(count, i) <==> i + 1 == count
  {
    assert i in PieceFlag(count, i);
  }

  /**
   With more than sixteen pieces the flags no longer mark the last one: the first sixteen have one bit
   each, the top bit with the sixteenth, and the rest have none.
   */
  lemma FlagsRunOut(count: nat, i: nat)
    requires MAX_PIECES < count && i < count
    ensures PieceFlag(count, i) == if i < 16 then {i} else {}
  {
  }

  // ---------------------------------------------------------------------------------------------
  // Gathering
  // ---------------------------------------------------------------------------------------------

  /** What `RecvChunckPacket` reads from a packet: header fields, subheader size, and all its bytes. */
  datatype Packet = Packet(seqNo: u32, flag: set<nat>, total: nat, subSize: nat, bytes: Bytes)

  /** `ChunkPacket`. */
  datatype Gather = Gather(buffers: seq<Option<Bytes>>, flag: set<nat>, size: nat, count: nat, isEnd: bool) {

    predicate Valid() {
      |buffers| == 16
    }

    /** A piece already present is turned away. */
    function SetBuffer(f: set<nat>, buffer: Bytes): Gather
      requires Valid() && f <= ALL
    {
      if flag * f != {} then this
      else Gather(if f == {} then buffers else buffers[Lowest(f) := Some(buffer)],
                  flag + f, size, count + 1, isEnd || 15 in f)
    }

    predicate IsPull() {
      isEnd && flag == ALL
    }
  }

  function Empty(): Gather {
    Gather(seq(16, _ => None), {}, 0, 0, false)
  }

  function LowestFrom(f: set<nat>, i: nat): (r: nat)
    requires f <= ALL && i <= 16 && forall b :: b in f ==> b >= i
    ensures if f == {} then r == 0 else r in f && forall b :: b in f ==> r <= b
    decreases 16 - i
  {
    if i == 16 then 0 else if i in f then i else LowestFrom(f, i + 1)
  }

  /** The number of clear bits below the first set one; 0 for an empty word. */
  function Lowest(f: set<nat>): (r: nat)
    requires f <= ALL
    ensures if f == {} then r == 0 else r in f && forall b :: b in f ==> r <= b
  {
    LowestFrom(f, 0)
  }

  /** `flag >> n`. */
  function ShiftDown(f: set<nat>, n: nat): (r: set<nat>)
    ensures r <= ALL
  {
    set b | b in ALL && b + n in f
  }

  lemma ShiftDownMore(f: set<nat>, n: nat)
    requires f <= ALL && 0 !in ShiftDown(f, n) && forall b :: b in f ==> n <= b
    ensures ShiftDown(ShiftDown(f, n), 1) == ShiftDown(f, n + 1)
    ensures forall b :: b in f ==> n + 1 <= b
  {
  }

  /** The loop that both `SetBuffer` and `StartSequnceNum` run over a flag word. */
  method CountDown(flag: set<nat>) returns (count: nat)
    requires flag <= ALL
    ensures count == Lowest(flag)
  {
    var f := flag;
    count := 0;
    assert f == ShiftDown(flag, 0);
    while f != {} && 0 !in f
      invariant f == ShiftDown(flag, count)
      invariant forall b :: b in flag ==> count <= b
      invariant f == {} ==> count == 0
      decreases 16 - count
    {
      var b :| b in f;
      assert b + count in flag;
      ShiftDownMore(flag, count);
      f, count := ShiftDown(f, 1), count + 1;
      assert b - 1 in f;
    }
    assert f != {} ==> 0 + count in flag;
    assert f == {} ==> flag == {};
  }

  /** `StartSequnceNum`. */
  function Base(seqNo: u32, flag: set<nat>): u32
    requires flag <= ALL
  {
    W(seqNo - Lowest(flag))
  }

  /** What one call does: wait for more, parse a whole, or break a memory or assertion rule. */
  datatype Result = Waiting | Parsed(data: Bytes) | Fault

  /** `chunckPackets_`, and how many cache buffers are out on its behalf. */
  datatype Table = Table(gathers: map<u32, Gather>, taken: int) {
    ghost predicate Valid() {
      forall k :: k in gathers ==> gathers[k].Valid()
    }
  }

  /** The copying loop from piece `i` on: the first piece whole, of the others what follows the headers. */
  function Assemble(g: Gather, i: nat, header: nat, room: nat, done: Bytes): (r: Option<Bytes>)
    requires g.Valid()
    ensures r.Some? ==> |r.value| <= room || r.value == done
    decreases g.count - i
  {
    if i >= g.count then Some(done)
    else if i >= 16 || g.buffers[i].None? then None
    else
      var data := g.buffers[i].value;
      if i > 0 && |data| < header then None
      else
        var more := if i > 0 then data[header..] else data;
        if |done| + |more| > room then None else Assemble(g, i + 1, header, room, done + more)
  }

  function Collect(g: Gather, header: nat): Option<Bytes>
    requires g.Valid()
  {
    var room := (g.size + header) % 0x1_0000;
    if room > BIG_MAX then None else Assemble(g, 0, header, room, [])
  }

  /** The entry after a piece was added to it. */
  function Added(t: Table, p: Packet): (g: Gather)
    requires t.Valid() && p.flag <= ALL
    ensures g.Valid()
  {
    var key := Base(p.seqNo, p.flag);
    var g := if key in t.gathers then t.gathers[key] else Empty();
    g.SetBuffer(p.flag, p.bytes).(size := p.total)
  }

  /** `RecvChunckPacket`. After a fault nothing more is said of the table. */
  function Receive(t: Table, p: Packet): (o: (Table, Result))
    requires t.Valid() && p.flag <= ALL
    ensures o.0.Valid()
  {
    var key, g := Base(p.seqNo, p.flag), Added(t, p);
    if !g.IsPull() then
      (Table(t.gathers[key := g], t.taken + 1), Waiting)
    else
      match Collect(g, HEADER + p.subSize)
      case None => (t, Fault)
      case Some(data) => (Table(t.gathers - {key}, t.taken + 1 - g.count), Parsed(data))
  }

  class ChunkPacketInj {
    var chunckPackets: map<u32, Gather>
    var taken: int

    constructor ()
      ensures View() == Table(map[], 0) && View().Valid()
    {
      chunckPackets, taken := map[], 0;
    }

    function View(): Table
      reads this
    {
      Table(chunckPackets, taken)
    }

    /** Finds or makes the entry of a piece, and puts the piece into it. */
    method Update(p: Packet) returns (key: u32, g: Gather)
      requires View().Valid() && p.flag <= ALL
      modifies this
      ensures key == Base(p.seqNo, p.flag) && g == Added(old(View()), p)
      ensures chunckPackets == old(chunckPackets)[key := g] && taken == old(taken) + 1
    {
      var start := CountDown(p.flag);
      key := W(p.seqNo - start);
      g := if key in chunckPackets then chunckPackets[key] else Empty();
      taken := taken + 1;
      if g.flag * p.flag == {} {
        g := g.(count := g.count + 1, flag := g.flag + p.flag, isEnd := g.isEnd || 15 in p.flag);
        if p.flag != {} {
          g := g.(buffers := g.buffers[start := Some(p.bytes)]);
        }
      }
      g := g.(size := p.total);
      chunckPackets := chunckPackets[key := g];
    }

    /** The copying loop, which also gives the cache buffers back. */
    method Copy(g: Gather, header: nat) returns (r: Option<Bytes>)
      requires g.Valid()
      modifies this`taken
      ensures r == Collect(g, header)
      ensures r.Some? ==> taken == old(taken) - g.count
    {
      var room := (g.size + header) % 0x1_0000;
      if room > BIG_MAX {
        return None;
      }
      var data: Bytes := [];
      var i := 0;
      while i < g.count
        invariant 0 <= i <= g.count
        invariant Assemble(g, i, header, room, data) == Collect(g, header)
        invariant taken == old(taken) - i
      {
        if i >= 16 || g.buffers[i].None? || (i > 0 && |g.buffers[i].value| < header) {
          return None;
        }
        var more := if i > 0 then g.buffers[i].value[header..] else g.buffers[i].value;
        if |data| + |more| > room {
          return None;
        }
        data := data + more;
        taken := taken - 1;
        i := i + 1;
      }
      return Some(data);
    }

    method RecvChunckPacket(p: Packet) returns (r: Result)
      requires View().Valid() && p.flag <= ALL
      modifies this
      ensures r == Receive(old(View()), p).1
      ensures !r.Fault? ==> View() == Receive(old(View()), p).0
    {
      var key, g := Update(p);
      if !(g.isEnd && g.flag == ALL) {
        return Waiting;
      }
      var whole := Copy(g, HEADER + p.subSize);
      if whole.None? {
        return Fault;
      }
      chunckPackets := chunckPackets - {key};
      assert chunckPackets == old(chunckPackets) - {key};
      return Parsed(whole.value);
    }
  }
}
