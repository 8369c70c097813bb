/**
 Messages of more than sixteen pieces. `SendPacketChunk` sends them, although the flags cannot number them;
 the receiver fails when it has the first sixteen pieces.
 */
module LongMessages {

  import opened Words
  import opened Chunks
  import opened Reassembly
  import opened ChunkRuns

  predicate IsBetween(n: nat, base: nat, k: nat) {
    base <= n < base + k
  }

  /** `k` numbers from `base` on. */
  ghost function Interval(base: nat, k: nat): set<nat> {
    set n: nat | n < base + k && IsBetween(n, base, k)
  }

  lemma {:induction false} IntervalSize(base: nat, k: nat)
    ensures |Interval(base, k)| == k
  {
    if k > 0 {
      IntervalSize(base, k - 1);
      assert Interval(base, k) == Interval(base, k - 1) + {base + k - 1};
    }
  }

  /** Number `base + i` is piece `i` of a message of `count` pieces, and fills its packet. */
  ghost predicate IsPiece(ps: map<nat, Packet>, base: nat, i: nat, count: nat, size: nat, sub: nat) {
    && base + i in ps
    && var p := ps[base + i];
       p.flag == PieceFlag(count, i) && p.total == size && p.subSize == sub && |p.bytes| == PACKET_MAX
  }

  /** The first sixteen pieces of a message of more, numbered from `base` on. */
  ghost predicate AreFirst(ps: map<nat, Packet>, base: nat, count: nat, size: nat, sub: nat) {
    && WellFormed(ps) && MAX_PIECES < count
    && forall i :: 0 <= i < 16 ==> IsPiece(ps, base, i, count, size, sub)
  }

  lemma SixteenFlags(ps: map<nat, Packet>, base: nat, count: nat, size: nat, sub: nat, i: nat)
    requires AreFirst(ps, base, count, size, sub) && i < 16
    ensures base + i in ps && ps[base + i].flag == {i} && Key(ps, base + i) == W(base)
  {
    assert IsPiece(ps, base, i, count, size, sub);
    FlagsRunOut(count, i);
    LowestOfOne(i);
    MinusPlace(base + i, i);
  }

  lemma LowestOfOne(i: nat)
    requires i < 16
    ensures {i} <= ALL && Lowest({i}) == i
  {
    assert i in ALL;
  }

  /** They cover every bit between them. */
  lemma SixteenCover(ps: map<nat, Packet>, base: nat, count: nat, size: nat, sub: nat)
    requires AreFirst(ps, base, count, size, sub)
    ensures Covers(ps, Interval(base, 16))
  {
    forall bit | bit in ALL
      ensures HasBit(ps, Interval(base, 16), bit)
    {
      SixteenFlags(ps, base, count, size, sub, bit);
      assert base + bit in Interval(base, 16);
    }
  }

  lemma DoNotMeet(ps: map<nat, Packet>, base: nat, count: nat, size: nat, sub: nat, s: set<nat>, i: nat)
    requires AreFirst(ps, base, count, size, sub) && i < 16 && s <= Interval(base, 16) - {base + i}
    ensures base + i in ps && !Meets(ps, s, ps[base + i].flag)
  {
    SixteenFlags(ps, base, count, size, sub, i);
    forall q | q in s && q in ps
      ensures ps[q].flag * ps[base + i].flag == {}
    {
      assert q in Interval(base, 16);
      SixteenFlags(ps, base, count, size, sub, q - base);
      assert base + (q - base) == q;
      Apart(q - base, i);
    }
  }

  lemma Apart(i: nat, k: nat)
    requires i != k
    ensures {i} * {k} == {}
  {
  }

  lemma TooLarge(size: nat, sub: nat)
    requires sub <= 255 && MAX_PIECES < PieceCount(size, ChunkSize(sub))
    ensures size > 16 * 745
  {
    var c := ChunkSize(sub);
    CountCovers(size, c);
    MoreIsMore(16, PieceCount(size, c) - 1, c);
  }

  lemma FirstPlace(ps: map<nat, Packet>, base: nat, count: nat, size: nat, sub: nat)
    requires AreFirst(ps, base, count, size, sub)
    ensures var p := PlaceOf(ps, Interval(base, 16), 0); p.Some? && |p.value| == PACKET_MAX
  {
    var s := Interval(base, 16);
    SixteenFlags(ps, base, count, size, sub, 0);
    LowestOfOne(0);
    assert IsAt(ps, s, base, 0);
    forall n | n in s
      ensures n in ps && |ps[n].bytes| == PACKET_MAX
    {
      FillsPacket(ps, base, count, size, sub, n);
    }
  }

  lemma FillsPacket(ps: map<nat, Packet>, base: nat, count: nat, size: nat, sub: nat, n: nat)
    requires AreFirst(ps, base, count, size, sub) && base <= n < base + 16
    ensures n in ps && |ps[n].bytes| == PACKET_MAX
  {
    assert IsPiece(ps, base, n - base, count, size, sub);
    assert base + (n - base) == n;
  }

  /** Together they overrun: the size is above what `PopBig` allows, or wraps to less than the first piece. */
  lemma SixteenOverrun(ps: map<nat, Packet>, base: nat, count: nat, size: nat, sub: nat, i: nat)
    requires AreFirst(ps, base, count, size, sub) && i < 16 && 16 * 745 < size <= 0xFFFF && sub <= 255
    ensures base + i in ps && Overrun(ps, Interval(base, 16), base + i)
  {
    assert IsPiece(ps, base, i, count, size, sub);
    FirstPlace(ps, base, count, size, sub);
    IntervalSize(base, 16);
    PlacesOverrun(Places(ps, Interval(base, 16)), size, sub);
  }

  lemma PlacesOverrun(places: seq<Option<Bytes>>, size: nat, sub: nat)
    requires |places| == 16 && places[0].Some? && |places[0].value| == PACKET_MAX
    requires 16 * 745 < size <= 0xFFFF && sub <= 255
    ensures Overruns(places, 16, HEADER + sub, (size + (HEADER + sub)) % 0x1_0000)
  {
    FirstIsCopied(places, HEADER + sub);
  }

  lemma FirstIsCopied(places: seq<Option<Bytes>>, header: nat)
    requires |places| == 16 && places[0].Some?
    ensures |places[0].value| <= |Joined(places, 16, header)|
  {
    assert Joined(places, 1, header) == Joined(places, 0, header) + CopyOf(places, 0, header);
    JoinedGrows(places, 1, 16, header);
  }

  /** A piece that meets none in its entry joins them. */
  lemma Joins(ps: map<nat, Packet>, t: Table, s: set<nat>, n: nat)
    requires WellFormed(ps) && t.Valid() && n in ps && !Meets(ps, s, ps[n].flag)
    requires EntryAgrees(Entry(t.gathers, Key(ps, n)), ps, s)
    ensures var g := Added(t, ps[n]);
            EntryAgrees(g, ps, s + {n}) && g.size == ps[n].total && (g.IsPull() <==> Covers(ps, s + {n}))
  {
    var g := Entry(t.gathers, Key(ps, n));
    SetBufferAgrees(g, ps, s, n);
    SizeIsFree(g.SetBuffer(ps[n].flag, ps[n].bytes), ps, s + {n}, ps[n].total);
    FullIsCovered(Added(t, ps[n]), ps, s + {n});
  }

  lemma KeptUnder(ps: map<nat, Packet>, t: Table, key: u32, s: set<nat>, n: nat)
    requires WellFormed(ps) && t.Valid() && n in ps && key == Key(ps, n)
    requires !Meets(ps, s, ps[n].flag) && !Covers(ps, s + {n}) && EntryAgrees(Entry(t.gathers, key), ps, s)
    ensures var o := Receive(t, ps[n]);
            o.1 == Waiting && EntryAgrees(Entry(o.0.gathers, key), ps, s + {n})
  {
    Joins(ps, t, s, n);
    ReceiveFrom(t, ps[n], key, Added(t, ps[n]));
  }

  lemma NotYetCovered(ps: map<nat, Packet>, base: nat, count: nat, size: nat, sub: nat, s: set<nat>, k: nat)
    requires AreFirst(ps, base, count, size, sub) && k < 16 && s <= Interval(base, 16) - {base + k}
    ensures !Covers(ps, s)
  {
    DoNotMeet(ps, base, count, size, sub, s, k);
    SixteenFlags(ps, base, count, size, sub, k);
    assert !HasBit(ps, s, k);
    assert k in ALL;
  }

  /**
   The first sixteen pieces of a message of more than sixteen gather under one word, whatever else is in
   the table: one that arrives with another of them, `base + k`, still missing is kept there.
   */
  lemma FirstAreKept(ps: map<nat, Packet>, t: Table, base: nat, count: nat, size: nat, sub: nat, s: set<nat>, i: nat, k: nat)
    requires AreFirst(ps, base, count, size, sub) && t.Valid() && i < 16 && k < 16 && i != k
    requires s <= Interval(base, 16) - {base + i, base + k} && EntryAgrees(Entry(t.gathers, W(base)), ps, s)
    ensures base + i in ps
    ensures var o := Receive(t, ps[base + i]);
            o.1 == Waiting && EntryAgrees(Entry(o.0.gathers, W(base)), ps, s + {base + i})
  {
    SixteenFlags(ps, base, count, size, sub, i);
    DoNotMeet(ps, base, count, size, sub, s, i);
    NotYetCovered(ps, base, count, size, sub, s + {base + i}, k);
    KeptUnder(ps, t, W(base), s, base + i);
  }

  /**
   A message of more than sixteen pieces fails at the sixteenth of its first sixteen to arrive, in
   whatever order, and whatever else is in the table.
   */
  lemma SixteenthFaults(ps: map<nat, Packet>, t: Table, base: nat, size: nat, sub: nat, i: nat)
    requires sub <= 255 && size <= 0xFFFF && MAX_PIECES < PieceCount(size, ChunkSize(sub)) && t.Valid() && i < 16
    requires AreFirst(ps, base, PieceCount(size, ChunkSize(sub)), size, sub)
    requires EntryAgrees(Entry(t.gathers, W(base)), ps, Interval(base, 16) - {base + i})
    ensures base + i in ps && Receive(t, ps[base + i]).1 == Fault
  {
    TooLarge(size, sub);
    LastFaults(ps, t, base, PieceCount(size, ChunkSize(sub)), size, sub, i);
  }

  lemma LastFaults(ps: map<nat, Packet>, t: Table, base: nat, count: nat, size: nat, sub: nat, i: nat)
    requires AreFirst(ps, base, count, size, sub) && t.Valid() && i < 16 && 16 * 745 < size <= 0xFFFF && sub <= 255
    requires EntryAgrees(Entry(t.gathers, W(base)), ps, Interval(base, 16) - {base + i})
    ensures base + i in ps && Receive(t, ps[base + i]).1 == Fault
  {
    var n, all := base + i, Interval(base, 16);
    SixteenFlags(ps, base, count, size, sub, i);
    SixteenCover(ps, base, count, size, sub);
    DoNotMeet(ps, base, count, size, sub, all - {n}, i);
    SixteenOverrun(ps, base, count, size, sub, i);
    CompletedFaults(ps, t, W(base), all, n);
  }

  /** What completes an entry that overruns is a fault. */
  lemma CompletedFaults(ps: map<nat, Packet>, t: Table, key: u32, all: set<nat>, n: nat)
    requires WellFormed(ps) && t.Valid() && n in ps && key == Key(ps, n) && n in all
    requires !Meets(ps, all - {n}, ps[n].flag) && Covers(ps, all) && EntryAgrees(Entry(t.gathers, key), ps, all - {n})
    requires Overrun(ps, all, n)
    ensures Receive(t, ps[n]).1 == Fault
  {
    assert all - {n} + {n} == all;
    Joins(ps, t, all - {n}, n);
    ReceiveYields(ps, t, all, n, Added(t, ps[n]));
    YieldIs(ps, all, n, Receive(t, ps[n]).1);
  }
}
