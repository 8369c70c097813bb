/**
 One entry of the table of split packets: which pieces it holds, when it is full, and what the copying
 loop makes of the pieces of one message.
 */
module Reassembly {

  import opened Words
  import opened Chunks

  /** A packet to be split: the header each piece is sent with, the subheader they share, the payload. */
  datatype Message = Message(heads: seq<Bytes>, sub: Bytes, payload: Bytes) {

    /** As many headers as there are pieces, and no more pieces than the flags can number. */
    ghost predicate Shape() {
      && |sub| <= 255
      && 2 <= |heads| <= MAX_PIECES
      && forall i :: 0 <= i < |heads| ==> |heads[i]| == HEADER
    }

    /** Large enough to be split, and split as `SendPacketChunk` does. */
    ghost predicate Valid() {
      && Shape()
      && PACKET_MAX < |payload| + |sub| + HEADER
      && |payload| <= 0xFFFF
      && |heads| == Count()
    }

    function Count(): nat
      requires |sub| <= 255
    {
      PieceCount(|payload|, ChunkSize(|sub|))
    }

    ghost function Bytes(i: nat): Bytes
      requires Shape() && i < |heads|
    {
      heads[i] + sub + Part(payload, ChunkSize(|sub|), i)
    }

    /** Piece `i`, sent under number `n`. */
    ghost function Piece(i: nat, n: int): Packet
      requires Shape() && i < |heads|
    {
      Packet(W(n), PieceFlag(|heads|, i), |payload|, |sub|, Bytes(i))
    }

    /** The unsplit packet, under the header of the first piece. */
    ghost function Whole(): Bytes
      requires Shape()
    {
      heads[0] + sub + payload
    }

    /** Within what `PopBig` allows. */
    predicate Fits() {
      |payload| + HEADER + |sub| <= BIG_MAX
    }
  }

  lemma CountAtLeastTwo(m: Message)
    requires |m.sub| <= 255 && PACKET_MAX < |m.payload| + |m.sub| + HEADER
    ensures m.Count() >= 2
  {
    CountCovers(|m.payload|, ChunkSize(|m.sub|));
  }

  /** Every payload `PopBig` can hold needs at most eleven of the sixteen pieces. */
  lemma FittingIsNumbered(m: Message)
    requires |m.sub| <= 255 && m.Fits()
    ensures m.Count() <= 11
  {
    var c, k := ChunkSize(|m.sub|), m.Count();
    CountCovers(|m.payload|, c);
    if k >= 12 {
      MoreIsMore(11, k - 1, c);
    }
  }

  /** Everything `PopBig` can hold that is too large for one packet can be split. */
  lemma SplittingIsValid(m: Message)
    requires |m.sub| <= 255 && PACKET_MAX < |m.payload| + |m.sub| + HEADER && m.Fits()
    requires |m.heads| == m.Count() && forall i :: 0 <= i < |m.heads| ==> |m.heads[i]| == HEADER
    ensures m.Valid()
  {
    CountAtLeastTwo(m);
    FittingIsNumbered(m);
  }

  /** Every piece but the last fills its datagram of 1024 bytes; the last carries the rest, which is not nothing. */
  lemma PiecesFill(m: Message, i: nat)
    requires m.Valid() && i < |m.heads|
    ensures i + 1 < |m.heads| ==> |m.Bytes(i)| == 1024
    ensures i + 1 == |m.heads| ==> 24 + |m.sub| < |m.Bytes(i)| <= 1024
  {
    var c := ChunkSize(|m.sub|);
    assert (i + 1) * c == i * c + c;
    if i + 1 < |m.heads| {
      NotLast(|m.payload|, c, i);
    } else {
      IsLast(|m.payload|, c, i);
    }
  }

  // ---------------------------------------------------------------------------------------------
  // One entry
  // ---------------------------------------------------------------------------------------------

  /** Packets by their numbers, each with a flag that the sender could have given it. */
  ghost predicate WellFormed(ps: map<nat, Packet>) {
    forall n :: n in ps ==> ps[n].seqNo == W(n) && ps[n].flag <= ALL && ps[n].flag != {}
  }

  /** Some piece in `s` has the given bit. */
  ghost predicate HasBit(ps: map<nat, Packet>, s: set<nat>, bit: nat) {
    exists n :: n in s && n in ps && bit in ps[n].flag
  }

  /** Some piece in `s` shares a bit with the given flag. */
  ghost predicate Meets(ps: map<nat, Packet>, s: set<nat>, f: set<nat>) {
    exists n :: n in s && n in ps && ps[n].flag * f != {}
  }

  /** The flags of the pieces in `s` together are 0xFFFF. */
  ghost predicate Covers(ps: map<nat, Packet>, s: set<nat>) {
    forall bit {:trigger HasBit(ps, s, bit)} :: bit in ALL ==> HasBit(ps, s, bit)
  }

  ghost predicate IsAt(ps: map<nat, Packet>, s: set<nat>, n: nat, i: nat) {
    n in s && n in ps && ps[n].flag <= ALL && Lowest(ps[n].flag) == i
  }

  /** The buffer in place `i` is that of the piece of `s` whose lowest bit is `i`, if there is one. */
  ghost predicate PlaceAgrees(g: Gather, ps: map<nat, Packet>, s: set<nat>, i: nat)
    requires g.Valid() && i < 16
  {
    && (forall n :: IsAt(ps, s, n, i) ==> g.buffers[i] == Some(ps[n].bytes))
    && ((forall n :: !IsAt(ps, s, n, i)) ==> g.buffers[i] == None)
  }

  /** An entry holds exactly the pieces in `s`. */
  ghost predicate EntryAgrees(g: Gather, ps: map<nat, Packet>, s: set<nat>) {
    && g.Valid()
    && (forall i :: 0 <= i < 16 ==> PlaceAgrees(g, ps, s, i))
    && (forall bit: nat :: bit in g.flag <==> HasBit(ps, s, bit))
    && g.count == |s|
    && (g.isEnd <==> HasBit(ps, s, 15))
  }

  lemma EmptyAgrees(ps: map<nat, Packet>)
    ensures EntryAgrees(Empty(), ps, {})
  {
  }

  /** The bytes in place `i` of an entry that holds the pieces in `s`. */
  ghost function PlaceOf(ps: map<nat, Packet>, s: set<nat>, i: nat): Option<Bytes> {
    if exists n :: IsAt(ps, s, n, i) then
      var n :| IsAt(ps, s, n, i);
      Some(ps[n].bytes)
    else None
  }

  ghost function Places(ps: map<nat, Packet>, s: set<nat>): (r: seq<Option<Bytes>>)
    ensures |r| == 16
  {
    seq(16, i requires 0 <= i < 16 => PlaceOf(ps, s, i))
  }

  lemma PlacesOf(g: Gather, ps: map<nat, Packet>, s: set<nat>)
    requires EntryAgrees(g, ps, s)
    ensures g.buffers == Places(ps, s)
  {
    forall i | 0 <= i < 16
      ensures g.buffers[i] == PlaceOf(ps, s, i)
    {
      assert PlaceAgrees(g, ps, s, i);
    }
  }

  lemma SizeIsFree(g: Gather, ps: map<nat, Packet>, s: set<nat>, size: nat)
    requires EntryAgrees(g, ps, s)
    ensures EntryAgrees(g.(size := size), ps, s)
  {
    forall i | 0 <= i < 16
      ensures PlaceAgrees(g.(size := size), ps, s, i)
    {
      assert PlaceAgrees(g, ps, s, i);
    }
  }

  lemma FlagMeets(g: Gather, ps: map<nat, Packet>, s: set<nat>, f: set<nat>)
    requires EntryAgrees(g, ps, s)
    ensures g.flag * f != {} <==> Meets(ps, s, f)
  {
    if g.flag * f != {} {
      var bit :| bit in g.flag * f;
      assert HasBit(ps, s, bit);
      var n :| n in s && n in ps && bit in ps[n].flag;
      assert bit in ps[n].flag * f;
    }
    if Meets(ps, s, f) {
      var n :| n in s && n in ps && ps[n].flag * f != {};
      var bit :| bit in ps[n].flag * f;
      assert HasBit(ps, s, bit);
    }
  }

  /** A piece that shares a bit with one already there is turned away; any other is added. */
  lemma SetBufferAgrees(g: Gather, ps: map<nat, Packet>, s: set<nat>, n: nat)
    requires WellFormed(ps) && n in ps && EntryAgrees(g, ps, s)
    ensures Meets(ps, s, ps[n].flag) ==> g.SetBuffer(ps[n].flag, ps[n].bytes) == g
    ensures !Meets(ps, s, ps[n].flag) ==>
              n !in s && EntryAgrees(g.SetBuffer(ps[n].flag, ps[n].bytes), ps, s + {n})
  {
    var f := ps[n].flag;
    FlagMeets(g, ps, s, f);
    if !Meets(ps, s, f) {
      assert f * f == f;
      NewPiece(g, g.SetBuffer(f, ps[n].bytes), ps, s, s + {n}, n);
    }
  }

  lemma NewPiece(g: Gather, g': Gather, ps: map<nat, Packet>, s: set<nat>, s': set<nat>, n: nat)
    requires WellFormed(ps) && n in ps && EntryAgrees(g, ps, s) && !Meets(ps, s, ps[n].flag) && n !in s && s' == s + {n}
    requires g' == Gather(g.buffers[Lowest(ps[n].flag) := Some(ps[n].bytes)], g.flag + ps[n].flag, g.size, g.count + 1,
                          g.isEnd || 15 in ps[n].flag)
    ensures EntryAgrees(g', ps, s')
  {
    forall i | 0 <= i < 16
      ensures PlaceAgrees(g', ps, s', i)
    {
      assert PlaceAgrees(g, ps, s, i);
      NewPlace(g, g', ps, s, s', n, i);
    }
    forall bit: nat
      ensures bit in g'.flag <==> HasBit(ps, s', bit)
    {
      NewBit(ps, s, s', n, bit);
      assert bit in g.flag <==> HasBit(ps, s, bit);
    }
  }

  lemma NewBit(ps: map<nat, Packet>, s: set<nat>, s': set<nat>, n: nat, bit: nat)
    requires n in ps && s' == s + {n}
    ensures HasBit(ps, s', bit) <==> HasBit(ps, s, bit) || bit in ps[n].flag
  {
    if HasBit(ps, s, bit) {
      var q :| q in s && q in ps && bit in ps[q].flag;
      assert q in s';
    }
    if bit in ps[n].flag {
      assert n in s';
    }
  }

  lemma NewPlace(g: Gather, g': Gather, ps: map<nat, Packet>, s: set<nat>, s': set<nat>, n: nat, i: nat)
    requires WellFormed(ps) && n in ps && g.Valid() && i < 16 && PlaceAgrees(g, ps, s, i)
    requires !Meets(ps, s, ps[n].flag) && n !in s && s' == s + {n}
    requires g'.buffers == g.buffers[Lowest(ps[n].flag) := Some(ps[n].bytes)]
    ensures PlaceAgrees(g', ps, s', i)
  {
    var low := Lowest(ps[n].flag);
    assert IsAt(ps, s', n, low);
    forall q | IsAt(ps, s', q, i)
      ensures g'.buffers[i] == Some(ps[q].bytes)
    {
      if q != n {
        assert IsAt(ps, s, q, i);
        assert i !in ps[q].flag * ps[n].flag && i in ps[q].flag && low in ps[n].flag;
      }
    }
    if forall q :: !IsAt(ps, s', q, i) {
      forall q
        ensures !IsAt(ps, s, q, i)
      {
        assert !IsAt(ps, s', q, i);
      }
    }
  }

  /** An entry is full exactly when its pieces cover every bit. */
  lemma FullIsCovered(g: Gather, ps: map<nat, Packet>, s: set<nat>)
    requires WellFormed(ps) && EntryAgrees(g, ps, s)
    ensures g.IsPull() <==> Covers(ps, s)
  {
    if Covers(ps, s) {
      assert HasBit(ps, s, 15);
      forall bit: nat
        ensures bit in g.flag <==> bit in ALL
      {
        assert bit in g.flag <==> HasBit(ps, s, bit);
      }
    }
    if g.IsPull() {
      forall bit | bit in ALL
        ensures HasBit(ps, s, bit)
      {
        assert bit in g.flag;
      }
    }
  }

  // ---------------------------------------------------------------------------------------------
  // Base numbers
  // ---------------------------------------------------------------------------------------------

  lemma MinusPlace(n: int, i: nat)
    requires i < 0x1_0000_0000
    ensures W(W(n) - i) == W(n - i)
  {
  }

  /** A piece is filed under its number minus its place: under the number of the first, if there is no gap. */
  lemma PieceBase(n: int, count: nat, i: nat)
    requires i < count <= MAX_PIECES
    ensures PieceFlag(count, i) <= ALL && PieceFlag(count, i) != {}
    ensures Base(W(n), PieceFlag(count, i)) == W(n - i)
  {
    FlagsPartition(count, i);
    MinusPlace(n, i);
  }

  // ---------------------------------------------------------------------------------------------
  // The copying loop
  // ---------------------------------------------------------------------------------------------

  /** What the loop copies of place `i`: the first piece whole, of the others what follows the headers. */
  function CopyOf(places: seq<Option<Bytes>>, i: nat, header: nat): Bytes
    requires |places| == 16
  {
    if i >= 16 || places[i].None? then []
    else if i == 0 then places[0].value
    else if |places[i].value| < header then [] else places[i].value[header..]
  }

  /** The first `k` places joined. */
  function Joined(places: seq<Option<Bytes>>, k: nat, header: nat): Bytes
    requires |places| == 16
  {
    if k == 0 then [] else Joined(places, k - 1, header) + CopyOf(places, k - 1, header)
  }

  /** The loop cannot copy place `i`: there is none, it is empty, or what is there is shorter than the headers. */
  predicate IsBad(places: seq<Option<Bytes>>, i: nat, header: nat)
    requires |places| == 16
  {
    i >= 16 || places[i].None? || (i > 0 && |places[i].value| < header)
  }

  ghost predicate SomeBad(places: seq<Option<Bytes>>, i: nat, count: nat, header: nat)
    requires |places| == 16
  {
    exists k :: i <= k < count && IsBad(places, k, header)
  }

  /** More room is asked for than `PopBig` allows, or a place is bad, or the pieces together do not fit the room. */
  ghost predicate Overruns(places: seq<Option<Bytes>>, count: nat, header: nat, room: nat)
    requires |places| == 16
  {
    room > BIG_MAX || SomeBad(places, 0, count, header) || |Joined(places, count, header)| > room
  }

  lemma {:induction false} JoinedGrows(places: seq<Option<Bytes>>, k: nat, l: nat, header: nat)
    requires |places| == 16 && k <= l
    ensures |Joined(places, k, header)| <= |Joined(places, l, header)|
    decreases l - k
  {
    if k < l {
      JoinedGrows(places, k, l - 1, header);
    }
  }

  lemma {:induction false} AssembleIs(g: Gather, i: nat, header: nat, room: nat)
    requires g.Valid() && i <= g.count && |Joined(g.buffers, i, header)| <= room
    ensures Assemble(g, i, header, room, Joined(g.buffers, i, header)) ==
            if SomeBad(g.buffers, i, g.count, header) || |Joined(g.buffers, g.count, header)| > room
            then None else Some(Joined(g.buffers, g.count, header))
    decreases g.count - i
  {
    if i < g.count {
      JoinedGrows(g.buffers, i + 1, g.count, header);
      if IsBad(g.buffers, i, header) {
        assert SomeBad(g.buffers, i, g.count, header);
      } else {
        assert SomeBad(g.buffers, i, g.count, header) <==> SomeBad(g.buffers, i + 1, g.count, header);
        if |Joined(g.buffers, i + 1, header)| <= room {
          AssembleIs(g, i + 1, header, room);
        }
      }
    }
  }

  /** What the copying loop comes to, for any pieces: their join, or a fault exactly if they overrun. */
  lemma CollectIs(g: Gather, header: nat)
    requires g.Valid()
    ensures Collect(g, header) ==
            if Overruns(g.buffers, g.count, header, (g.size + header) % 0x1_0000)
            then None else Some(Joined(g.buffers, g.count, header))
  {
    if (g.size + header) % 0x1_0000 <= BIG_MAX {
      AssembleIs(g, 0, header, (g.size + header) % 0x1_0000);
    }
  }

  // ---------------------------------------------------------------------------------------------
  // The pieces of one message
  // ---------------------------------------------------------------------------------------------

  /** What has been copied once the first `i` pieces are done. */
  ghost function Copied(m: Message, i: nat): (r: Bytes)
    requires m.Valid() && i <= |m.heads|
    ensures |r| <= |m.payload| + HEADER + |m.sub|
  {
    if i == 0 then [] else m.heads[0] + m.sub + m.payload[..Cut(m.payload, ChunkSize(|m.sub|), i)]
  }

  /** Copying one more piece appends its part of the payload. */
  lemma CopyOne(m: Message, i: nat)
    requires m.Valid() && i < |m.heads|
    ensures |m.Bytes(i)| >= HEADER + |m.sub|
    ensures Copied(m, i + 1) == Copied(m, i) + if i > 0 then m.Bytes(i)[HEADER + |m.sub|..] else m.Bytes(0)
  {
  }

  lemma {:induction false} AssembleFrom(g: Gather, m: Message, i: nat, room: nat)
    requires m.Valid() && g.Valid() && g.count == |m.heads| && i <= |m.heads|
    requires room == |m.payload| + HEADER + |m.sub|
    requires forall k :: 0 <= k < |m.heads| ==> g.buffers[k] == Some(m.Bytes(k))
    ensures Assemble(g, i, HEADER + |m.sub|, room, Copied(m, i)) == Some(Copied(m, |m.heads|))
    decreases |m.heads| - i
  {
    if i < |m.heads| {
      CopyOne(m, i);
      AssembleFrom(g, m, i + 1, room);
    }
  }

  /** The room is not cut off at 16 bits. */
  lemma RoomIsExact(m: Message)
    requires m.Valid()
    ensures HEADER + |m.sub| + |m.payload| < 0x1_0000
  {
    var c := ChunkSize(|m.sub|);
    CountCovers(|m.payload|, c);
    MoreIsMore(|m.heads|, 16, c);
  }

  lemma CopiedIsWhole(m: Message)
    requires m.Valid()
    ensures Copied(m, |m.heads|) == m.Whole()
  {
    CountCovers(|m.payload|, ChunkSize(|m.sub|));
    assert m.payload[..|m.payload|] == m.payload;
  }

  /** With every piece in its place, the loop restores the packet if it fits, and never writes past its buffer. */
  lemma CollectIsWhole(g: Gather, m: Message)
    requires m.Valid() && g.Valid() && g.count == |m.heads| && g.size == |m.payload|
    requires forall k :: 0 <= k < |m.heads| ==> g.buffers[k] == Some(m.Bytes(k))
    ensures Collect(g, HEADER + |m.sub|) == if m.Fits() then Some(m.Whole()) else None
  {
    RoomIsExact(m);
    if m.Fits() {
      AssembleFrom(g, m, 0, |m.payload| + HEADER + |m.sub|);
      CopiedIsWhole(m);
    }
  }
}
