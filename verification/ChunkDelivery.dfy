/**
 Split messages in one table. All the packets with the CHUNK flag belong to some message, numbered in
 any way. A message is restored, from exactly its own pieces, if and only if it was numbered without a
 gap and no piece of another one filed in the same place comes before its last.
 */
module ChunkDelivery {

  import opened Words
  import opened Chunks
  import opened Reassembly
  import opened ChunkRuns
  import Ux = UnorderedReceive

  /** Number `n` carries piece `at[n].1` of message `at[n].0`. */
  datatype Plan = Plan(msgs: seq<Message>, at: map<nat, (nat, nat)>) {

    ghost predicate Valid() {
      && (forall j :: 0 <= j < |msgs| ==> msgs[j].Shape())
      && (forall n :: n in at ==> 0 < n && at[n].0 < |msgs| && at[n].1 < |msgs[at[n].0].heads|)
      && (forall m, n :: m in at && n in at && m != n ==> at[m] != at[n])
    }

    ghost function Packets(): (ps: map<nat, Packet>)
      requires Valid()
      ensures ps.Keys == at.Keys && WellFormed(ps)
    {
      AllWellFormed(this);
      map n | n in at :: msgs[at[n].0].Piece(at[n].1, n)
    }

    /** The numbers of message `j`. */
    ghost function Numbers(j: nat): set<nat> {
      set n | n in at && at[n].0 == j
    }

    /** The word that number `n` is filed under: its number minus its place. */
    ghost function Word(n: nat): u32
      requires n in at
    {
      W(n - at[n].1)
    }

    /** Every piece of message `j` has a number. */
    ghost predicate HasAll(j: nat)
      requires Valid() && j < |msgs|
    {
      forall i :: 0 <= i < |msgs[j].heads| ==> IsNumbered(j, i)
    }

    ghost predicate IsNumbered(j: nat, i: nat) {
      exists n :: n in at && at[n] == (j, i)
    }

    /** The pieces of message `j` are numbered from `base` on, without a gap. */
    ghost predicate IsGapless(j: nat, base: nat) {
      forall n :: n in Numbers(j) ==> n == base + at[n].1
    }
  }

  lemma AllWellFormed(plan: Plan)
    requires plan.Valid()
    ensures WellFormed(map n | n in plan.at :: plan.msgs[plan.at[n].0].Piece(plan.at[n].1, n))
  {
    var ps := map n | n in plan.at :: plan.msgs[plan.at[n].0].Piece(plan.at[n].1, n);
    forall n | n in ps
      ensures ps[n].seqNo == W(n) && ps[n].flag <= ALL && ps[n].flag != {}
    {
      PieceBase(n, |plan.msgs[plan.at[n].0].heads|, plan.at[n].1);
    }
  }

  /** A piece is filed under its number minus its place. */
  lemma KeyOf(plan: Plan, n: nat)
    requires plan.Valid() && n in plan.at
    ensures Key(plan.Packets(), n) == plan.Word(n)
  {
    PieceBase(n, |plan.msgs[plan.at[n].0].heads|, plan.at[n].1);
  }

  // ---------------------------------------------------------------------------------------------
  // The pieces of one message
  // ---------------------------------------------------------------------------------------------

  /** The bits of a piece. */
  lemma BitsOf(plan: Plan, n: nat, bit: nat)
    requires plan.Valid() && n in plan.at
    ensures var count := |plan.msgs[plan.at[n].0].heads|;
            bit in plan.Packets()[n].flag <==> bit < 16 && PieceOfBit(count, bit) == plan.at[n].1
    ensures Lowest(plan.Packets()[n].flag) == plan.at[n].1
  {
    FlagsPartition(|plan.msgs[plan.at[n].0].heads|, plan.at[n].1);
  }

  /** Pieces of one message share no bit. */
  lemma OwnDoNotMeet(plan: Plan, j: nat, s: set<nat>, n: nat)
    requires plan.Valid() && n in plan.Numbers(j) && s <= plan.Numbers(j) && n !in s
    ensures !Meets(plan.Packets(), s, plan.Packets()[n].flag)
  {
    var ps := plan.Packets();
    forall q | q in s
      ensures ps[q].flag * ps[n].flag == {}
    {
      forall bit | bit in ps[q].flag
        ensures bit !in ps[n].flag
      {
        BitsOf(plan, q, bit);
        BitsOf(plan, n, bit);
      }
    }
  }

  lemma {:induction false} Image(plan: Plan, j: nat, k: nat)
    requires plan.Valid() && j < |plan.msgs| && plan.HasAll(j) && k <= |plan.msgs[j].heads|
    ensures |(set n | n in plan.Numbers(j) && plan.at[n].1 < k)| == k
  {
    var s := set n | n in plan.Numbers(j) && plan.at[n].1 < k;
    if k == 0 {
      assert s == {};
    } else {
      Image(plan, j, k - 1);
      assert plan.IsNumbered(j, k - 1);
      var x :| x in plan.at && plan.at[x] == (j, k - 1);
      assert s == (set n | n in plan.Numbers(j) && plan.at[n].1 < k - 1) + {x};
    }
  }

  /** Its pieces cover every bit, and no part of them does. */
  lemma OwnCover(plan: Plan, j: nat, s: set<nat>)
    requires plan.Valid() && j < |plan.msgs| && plan.HasAll(j) && s <= plan.Numbers(j)
    ensures Covers(plan.Packets(), s) <==> s == plan.Numbers(j)
  {
    if s == plan.Numbers(j) {
      forall bit | bit in ALL
        ensures HasBit(plan.Packets(), s, bit)
      {
        AllHaveBit(plan, j, bit);
      }
    }
    if Covers(plan.Packets(), s) {
      forall n | n in plan.Numbers(j)
        ensures n in s
      {
        BitNeedsPiece(plan, j, s, n);
      }
    }
  }

  lemma AllHaveBit(plan: Plan, j: nat, bit: nat)
    requires plan.Valid() && j < |plan.msgs| && plan.HasAll(j) && bit in ALL
    ensures HasBit(plan.Packets(), plan.Numbers(j), bit)
  {
    var i := PieceOfBit(|plan.msgs[j].heads|, bit);
    assert plan.IsNumbered(j, i);
    var n :| n in plan.at && plan.at[n] == (j, i);
    BitsOf(plan, n, bit);
    assert n in plan.Numbers(j);
  }

  lemma BitNeedsPiece(plan: Plan, j: nat, s: set<nat>, n: nat)
    requires plan.Valid() && n in plan.Numbers(j) && s <= plan.Numbers(j) && Covers(plan.Packets(), s)
    ensures n in s
  {
    var ps, bit := plan.Packets(), plan.at[n].1;
    assert bit in ALL;
    assert HasBit(ps, s, bit);
    var q :| q in s && q in ps && bit in ps[q].flag;
    BitsOf(plan, q, bit);
  }

  /** What is collected of exactly its pieces is the message, unless it is too long. */
  lemma OwnYield(plan: Plan, j: nat, last: nat, r: Result)
    requires plan.Valid() && j < |plan.msgs| && plan.HasAll(j) && plan.msgs[j].Valid() && last in plan.Numbers(j)
    requires Yields(plan.Packets(), plan.Numbers(j), last, r)
    ensures r == if plan.msgs[j].Fits() then Parsed(plan.msgs[j].Whole()) else Fault
  {
    var g: Gather :| IsYield(g, plan.Packets(), plan.Numbers(j), last, r);
    OwnPlaces(plan, j, g);
    CollectIsWhole(g, plan.msgs[j]);
  }

  /** An entry with exactly the pieces of a message has them in their places. */
  lemma OwnPlaces(plan: Plan, j: nat, g: Gather)
    requires plan.Valid() && j < |plan.msgs| && plan.HasAll(j) && EntryAgrees(g, plan.Packets(), plan.Numbers(j))
    ensures forall k :: 0 <= k < |plan.msgs[j].heads| ==> g.buffers[k] == Some(plan.msgs[j].Bytes(k))
    ensures g.count == |plan.msgs[j].heads|
  {
    var m := plan.msgs[j];
    forall k | 0 <= k < |m.heads|
      ensures g.buffers[k] == Some(m.Bytes(k))
    {
      OwnPlace(plan, j, g, k);
    }
    Image(plan, j, |m.heads|);
    assert plan.Numbers(j) == set n | n in plan.Numbers(j) && plan.at[n].1 < |m.heads|;
  }

  lemma OwnPlace(plan: Plan, j: nat, g: Gather, k: nat)
    requires plan.Valid() && j < |plan.msgs| && plan.HasAll(j) && EntryAgrees(g, plan.Packets(), plan.Numbers(j))
    requires k < |plan.msgs[j].heads|
    ensures g.buffers[k] == Some(plan.msgs[j].Bytes(k))
  {
    var ps := plan.Packets();
    assert plan.IsNumbered(j, k);
    var n :| n in plan.at && plan.at[n] == (j, k);
    BitsOf(plan, n, k);
    assert PlaceAgrees(g, ps, plan.Numbers(j), k) && IsAt(ps, plan.Numbers(j), n, k);
  }

  // ---------------------------------------------------------------------------------------------
  // Collected
  // ---------------------------------------------------------------------------------------------

  /** Message `j` was collected from exactly its own pieces. */
  ghost predicate IsCollected(plan: Plan, order: seq<nat>, j: nat)
    requires plan.Valid() && AllKnown(plan.Packets(), order)
  {
    exists k :: 0 <= k < |SimpleFeed(plan.Packets(), order).done| && SimpleFeed(plan.Packets(), order).done[k].pieces == plan.Numbers(j)
  }

  /** Two pieces share an entry exactly if the words of their numbers minus their places are the same. */
  lemma ShareEntryIff(plan: Plan, m: nat, n: nat)
    requires plan.Valid() && m in plan.at && n in plan.at
    ensures Key(plan.Packets(), m) == Key(plan.Packets(), n) <==> plan.Word(m) == plan.Word(n)
  {
    KeyOf(plan, m);
    KeyOf(plan, n);
  }

  /**
   A message with a gap in its numbers is never collected from its own pieces, whatever arrives, however
   often. They may end up in other messages.
   */
  lemma GappedIsNeverCollected(plan: Plan, order: seq<nat>, j: nat, m: nat, n: nat)
    requires plan.Valid() && AllKnown(plan.Packets(), order)
    requires m in plan.Numbers(j) && n in plan.Numbers(j) && plan.Word(m) != plan.Word(n)
    ensures !IsCollected(plan, order, j)
  {
    CollectionsAreSound(plan.Packets(), order);
    ShareEntryIff(plan, m, n);
    var done := SimpleFeed(plan.Packets(), order).done;
    forall k | 0 <= k < |done|
      ensures done[k].pieces != plan.Numbers(j)
    {
      assert DoneIsSound(plan.Packets(), done[k]);
    }
  }

  // ---------------------------------------------------------------------------------------------
  // Messages without gaps among others
  // ---------------------------------------------------------------------------------------------

  ghost predicate Complete(plan: Plan, j: nat, order: seq<nat>) {
    forall n :: n in plan.Numbers(j) ==> n in order
  }

  /** Message `j` has all its pieces, numbered from `base` on. */
  ghost predicate IsBlock(plan: Plan, j: nat, base: nat) {
    plan.Valid() && j < |plan.msgs| && plan.HasAll(j) && plan.IsGapless(j, base)
  }

  ghost function Tail(plan: Plan, j: nat, base: nat): nat
    requires IsBlock(plan, j, base)
  {
    base + |plan.msgs[j].heads| - 1
  }

  lemma BlockNumbers(plan: Plan, j: nat, base: nat, i: nat)
    requires IsBlock(plan, j, base) && i < |plan.msgs[j].heads|
    ensures base + i in plan.at && plan.at[base + i] == (j, i) && base + i in plan.Numbers(j)
  {
    assert plan.IsNumbered(j, i);
    var n :| n in plan.at && plan.at[n] == (j, i);
    assert n in plan.Numbers(j);
  }

  /** A piece of another message that is filed where message `j` is. */
  ghost predicate IsStranger(plan: Plan, j: nat, base: nat, q: nat) {
    q in plan.at && plan.at[q].0 != j && q == base + plan.at[q].1
  }

  /** No number a full turn of 2^32 away is filed under the word of this message. */
  ghost predicate NoTurn(plan: Plan, base: nat, order: seq<nat>)
    requires plan.Valid()
  {
    forall n :: n in order && n in plan.at && plan.Word(n) == W(base) ==> n == base + plan.at[n].1
  }

  /** A stranger's place, and so its bits, lie past the message's own. */
  lemma StrangerIsBeyond(plan: Plan, j: nat, base: nat, q: nat, bit: nat)
    requires IsBlock(plan, j, base) && IsStranger(plan, j, base, q)
    ensures |plan.msgs[j].heads| <= plan.at[q].1
    ensures bit in plan.Packets()[q].flag ==> |plan.msgs[j].heads| <= bit
  {
    if plan.at[q].1 < |plan.msgs[j].heads| {
      BlockNumbers(plan, j, base, plan.at[q].1);
    }
    BitsOf(plan, q, bit);
  }

  /** A stranger meets the last piece of the message, and none of the others. */
  lemma StrangerMeetsTail(plan: Plan, j: nat, base: nat, q: nat, n: nat)
    requires IsBlock(plan, j, base) && IsStranger(plan, j, base, q) && n in plan.Numbers(j)
    ensures plan.Packets()[q].flag * plan.Packets()[n].flag != {} <==> n == Tail(plan, j, base)
  {
    var ps, count := plan.Packets(), |plan.msgs[j].heads|;
    var low := plan.at[q].1;
    StrangerIsBeyond(plan, j, base, q, low);
    BitsOf(plan, q, low);
    BitsOf(plan, n, low);
    if n == Tail(plan, j, base) {
      assert low in ps[q].flag * ps[n].flag;
    } else {
      forall bit | bit in ps[q].flag
        ensures bit !in ps[n].flag
      {
        StrangerIsBeyond(plan, j, base, q, bit);
        BitsOf(plan, n, bit);
      }
    }
  }

  /** What is filed under the message's word is its own, or a stranger. */
  lemma OwnOrStranger(plan: Plan, j: nat, base: nat, order: seq<nat>, n: nat)
    requires IsBlock(plan, j, base) && NoTurn(plan, base, order) && n in plan.at
    ensures n in plan.Numbers(j) ==> Key(plan.Packets(), n) == W(base)
    ensures n in order && Key(plan.Packets(), n) == W(base) ==> n in plan.Numbers(j) || IsStranger(plan, j, base, n)
  {
    KeyOf(plan, n);
  }

  // ---------------------------------------------------------------------------------------------
  // A stranger that comes before the last piece
  // ---------------------------------------------------------------------------------------------

  ghost function Strangers(plan: Plan, j: nat, base: nat, order: seq<nat>): set<nat> {
    set q | q in order && IsStranger(plan, j, base, q)
  }

  ghost function Elements(order: seq<nat>): set<nat> {
    set q | q in order
  }

  lemma StrangerAtTail(plan: Plan, j: nat, base: nat, q: nat)
    requires IsBlock(plan, j, base) && IsStranger(plan, j, base, q)
    ensures Tail(plan, j, base) in plan.at && q != Tail(plan, j, base)
    ensures Key(plan.Packets(), q) == W(base)
    ensures plan.Packets()[q].flag * plan.Packets()[Tail(plan, j, base)].flag != {}
  {
    BlockNumbers(plan, j, base, |plan.msgs[j].heads| - 1);
    KeyOf(plan, q);
    StrangerMeetsTail(plan, j, base, q, Tail(plan, j, base));
  }

  lemma StrangersMeetTail(plan: Plan, j: nat, base: nat, strangers: set<nat>)
    requires IsBlock(plan, j, base) && Tail(plan, j, base) in plan.at && strangers <= plan.at.Keys
    requires forall q :: q in strangers ==> IsStranger(plan, j, base, q)
    ensures MeetTail(plan.Packets(), W(base), Tail(plan, j, base), strangers)
  {
    var ps, tail := plan.Packets(), Tail(plan, j, base);
    forall q | q in strangers
      ensures Key(ps, q) == W(base) && q != tail && ps[q].flag * ps[tail].flag != {}
    {
      StrangerAtTail(plan, j, base, q);
    }
  }

  lemma OthersLackBit(plan: Plan, j: nat, base: nat, order: seq<nat>)
    requires IsBlock(plan, j, base) && NoTurn(plan, base, order) && Elements(order) <= plan.at.Keys
    ensures OnlyTailHas(plan.Packets(), Elements(order), W(base), Tail(plan, j, base), |plan.msgs[j].heads| - 1)
  {
    forall x | x in Elements(order) && Key(plan.Packets(), x) == W(base) && x != Tail(plan, j, base)
      ensures |plan.msgs[j].heads| - 1 !in plan.Packets()[x].flag
    {
      OwnOrStranger(plan, j, base, order, x);
      OnlyTailHasBit(plan, j, base, x);
    }
  }

  /** Two pieces that meet, one of them a stranger: so is the other, unless it is the last piece. */
  lemma MeetsStranger(plan: Plan, j: nat, base: nat, order: seq<nat>, q: nat, x: nat)
    requires IsBlock(plan, j, base) && NoTurn(plan, base, order) && IsStranger(plan, j, base, q)
    requires x in order && x in plan.at && Key(plan.Packets(), x) == W(base) && x != Tail(plan, j, base)
    requires plan.Packets()[x].flag * plan.Packets()[q].flag != {}
    ensures IsStranger(plan, j, base, x)
  {
    var ps := plan.Packets();
    OwnOrStranger(plan, j, base, order, x);
    if x in plan.Numbers(j) {
      assert ps[q].flag * ps[x].flag == ps[x].flag * ps[q].flag;
      StrangerMeetsTail(plan, j, base, q, x);
    }
  }

  lemma StrangersMeetStrangers(plan: Plan, j: nat, base: nat, order: seq<nat>)
    requires IsBlock(plan, j, base) && NoTurn(plan, base, order) && Elements(order) <= plan.at.Keys
    ensures Strangers(plan, j, base, order) <= Elements(order)
    ensures AmongThemselves(plan.Packets(), Elements(order), W(base), Tail(plan, j, base), Strangers(plan, j, base, order))
  {
    var ps, strangers := plan.Packets(), Strangers(plan, j, base, order);
    forall q, x | q in strangers && x in Elements(order) && Key(ps, x) == W(base) && x != Tail(plan, j, base)
                  && ps[x].flag * ps[q].flag != {}
      ensures x in strangers
    {
      MeetsStranger(plan, j, base, order, q, x);
    }
  }

  lemma StrangersArePoison(plan: Plan, j: nat, base: nat, order: seq<nat>)
    requires IsBlock(plan, j, base) && AllKnown(plan.Packets(), order) && NoTurn(plan, base, order)
    ensures Poisonous(plan.Packets(), Elements(order), W(base), Tail(plan, j, base), |plan.msgs[j].heads| - 1,
                      Strangers(plan, j, base, order))
  {
    BlockNumbers(plan, j, base, |plan.msgs[j].heads| - 1);
    KeyOf(plan, Tail(plan, j, base));
    StrangersMeetTail(plan, j, base, Strangers(plan, j, base, order));
    OthersLackBit(plan, j, base, order);
    StrangersMeetStrangers(plan, j, base, order);
  }

  lemma OnlyTailHasBit(plan: Plan, j: nat, base: nat, x: nat)
    requires IsBlock(plan, j, base) && x != Tail(plan, j, base)
    requires x in plan.Numbers(j) || IsStranger(plan, j, base, x)
    ensures |plan.msgs[j].heads| - 1 !in plan.Packets()[x].flag
  {
    var bit := |plan.msgs[j].heads| - 1;
    if x in plan.Numbers(j) {
      BitsOf(plan, x, bit);
    } else {
      StrangerIsBeyond(plan, j, base, x, bit);
    }
  }

  /** If a stranger comes before the last piece, the message is never collected. */
  lemma StrangerPoisons(plan: Plan, j: nat, base: nat, order: seq<nat>, k: nat)
    requires IsBlock(plan, j, base) && AllKnown(plan.Packets(), order) && NoTurn(plan, base, order)
    requires k < |order| && IsStranger(plan, j, base, order[k]) && Tail(plan, j, base) !in order[..k]
    ensures !IsCollected(plan, order, j)
  {
    var ps, tail, bit := plan.Packets(), Tail(plan, j, base), |plan.msgs[j].heads| - 1;
    StrangersArePoison(plan, j, base, order);
    BlockNumbers(plan, j, base, bit);
    StrangerKeepsOut(ps, Elements(order), W(base), tail, bit, Strangers(plan, j, base, order), order, k);
    OutIsNotCollected(plan, order, j, tail);
  }

  lemma OutIsNotCollected(plan: Plan, order: seq<nat>, j: nat, tail: nat)
    requires plan.Valid() && AllKnown(plan.Packets(), order) && tail in plan.Numbers(j)
    requires IsOut(SimpleFeed(plan.Packets(), order), tail)
    ensures !IsCollected(plan, order, j)
  {
  }

  // ---------------------------------------------------------------------------------------------
  // No stranger before the last piece
  // ---------------------------------------------------------------------------------------------

  /** Under the message's word are exactly its own pieces that arrived, until they are all there. */
  ghost predicate IsClean(plan: Plan, j: nat, base: nat, s: Simple, o: seq<nat>)
    requires plan.Valid()
  {
    if Complete(plan, j, o) then exists k :: 0 <= k < |s.done| && s.done[k].pieces == plan.Numbers(j)
    else s.held <= plan.at.Keys && forall n :: n in plan.at ==>
      (n in s.held && plan.Word(n) == W(base) <==> n in plan.Numbers(j) && n in o)
  }

  lemma UnderIsOwn(plan: Plan, j: nat, base: nat, s: Simple, o: seq<nat>)
    requires IsBlock(plan, j, base) && s.held <= plan.at.Keys && IsClean(plan, j, base, s, o) && !Complete(plan, j, o)
    ensures Under(plan.Packets(), s.held, W(base)) == set n | n in plan.Numbers(j) && n in o
  {
    var own := Under(plan.Packets(), s.held, W(base));
    forall n | n in plan.at
      ensures n in own <==> n in s.held && plan.Word(n) == W(base)
    {
      KeyOf(plan, n);
    }
  }

  /** One of the message's own pieces arrives: it is kept, and if it is the last one missing they are collected. */
  lemma OwnArrives(plan: Plan, j: nat, base: nat, s: Simple, o: seq<nat>, n: nat)
    requires IsBlock(plan, j, base) && s.held <= plan.at.Keys && IsClean(plan, j, base, s, o) && !Complete(plan, j, o)
    requires n in plan.Numbers(j) && n !in o
    ensures var s' := SimpleOne(plan.Packets(), s, n);
            && s'.turned == s.turned
            && if Complete(plan, j, o + [n])
               then s'.done == s.done + [Done(plan.Numbers(j), n)] && s'.held == s.held - plan.Numbers(j)
               else s'.done == s.done && s'.held == s.held + {n}
  {
    var ps, own := plan.Packets(), Under(plan.Packets(), s.held, W(base));
    KeyOf(plan, n);
    UnderIsOwn(plan, j, base, s, o);
    OwnDoNotMeet(plan, j, own, n);
    OwnCover(plan, j, own + {n});
    assert forall x :: x in o + [n] <==> x in o || x == n;
    assert Complete(plan, j, o + [n]) <==> own + {n} == plan.Numbers(j);
    if own + {n} == plan.Numbers(j) {
      assert s.held - own == s.held - plan.Numbers(j);
    }
  }

  /** A stranger arrives after the last piece: it is turned away. */
  lemma StrangerArrives(plan: Plan, j: nat, base: nat, s: Simple, o: seq<nat>, n: nat)
    requires IsBlock(plan, j, base) && s.held <= plan.at.Keys && IsClean(plan, j, base, s, o) && !Complete(plan, j, o)
    requires IsStranger(plan, j, base, n) && Tail(plan, j, base) in o
    ensures SimpleOne(plan.Packets(), s, n).held == s.held
  {
    var ps, tail := plan.Packets(), Tail(plan, j, base);
    BlockNumbers(plan, j, base, |plan.msgs[j].heads| - 1);
    ShareEntryIff(plan, tail, n);
    UnderIsOwn(plan, j, base, s, o);
    KeyOf(plan, n);
    StrangerMeetsTail(plan, j, base, n, tail);
    assert ps[n].flag * ps[tail].flag == ps[tail].flag * ps[n].flag;
    assert tail in Under(ps, s.held, Key(ps, n));
  }

  lemma ElsewhereArrives(plan: Plan, j: nat, base: nat, s: Simple, n: nat, m: nat)
    requires plan.Valid() && s.held <= plan.at.Keys && n in plan.at && m in plan.at
    requires plan.Word(n) != W(base) && plan.Word(m) == W(base)
    ensures m in SimpleOne(plan.Packets(), s, n).held <==> m in s.held
  {
    ShareEntryIff(plan, m, n);
    Untouched(plan.Packets(), s, n, m);
  }

  lemma CompleteNext(plan: Plan, j: nat, o: seq<nat>, n: nat)
    ensures Complete(plan, j, o) ==> Complete(plan, j, o + [n])
    ensures n !in plan.Numbers(j) ==> (Complete(plan, j, o + [n]) <==> Complete(plan, j, o))
    ensures forall x :: x in o + [n] <==> x in o || x == n
  {
    var more := o + [n];
    assert forall x :: x in more <==> x in o || x == n;
  }

  /** Every arrival leaves it so, as long as no stranger comes before the last piece. */
  lemma CleanStep(plan: Plan, j: nat, base: nat, order: seq<nat>, s: Simple, o: seq<nat>, n: nat)
    requires IsBlock(plan, j, base) && NoTurn(plan, base, order) && s.held <= plan.at.Keys && IsClean(plan, j, base, s, o)
    requires n in order && n in plan.at && n !in o && (IsStranger(plan, j, base, n) ==> Tail(plan, j, base) in o)
    ensures IsClean(plan, j, base, SimpleOne(plan.Packets(), s, n), o + [n])
  {
    var s' := SimpleOne(plan.Packets(), s, n);
    CompleteNext(plan, j, o, n);
    if Complete(plan, j, o) {
      var k :| 0 <= k < |s.done| && s.done[k].pieces == plan.Numbers(j);
      assert s'.done[k] == s.done[k];
    } else if n in plan.Numbers(j) {
      OwnArrives(plan, j, base, s, o, n);
      if Complete(plan, j, o + [n]) {
        assert s'.done[|s.done|].pieces == plan.Numbers(j);
      }
    } else if plan.Word(n) == W(base) {
      StrangerArrives(plan, j, base, s, o, n);
    } else {
      forall m | m in plan.at && plan.Word(m) == W(base)
        ensures m in s'.held <==> m in s.held
      {
        ElsewhereArrives(plan, j, base, s, n, m);
      }
      OwnWord(plan, j, base);
    }
  }

  lemma OwnWord(plan: Plan, j: nat, base: nat)
    requires IsBlock(plan, j, base)
    ensures forall n :: n in plan.Numbers(j) ==> plan.Word(n) == W(base)
  {
  }

  /** Until the last piece has come, no stranger does. */
  ghost predicate TailFirst(plan: Plan, j: nat, base: nat, order: seq<nat>)
    requires IsBlock(plan, j, base)
  {
    forall k :: 0 <= k < |order| && IsStranger(plan, j, base, order[k]) ==> Tail(plan, j, base) in order[..k]
  }

  ghost predicate CleanAfter(plan: Plan, j: nat, base: nat, o: seq<nat>)
    requires plan.Valid()
  {
    AllKnown(plan.Packets(), o) && IsClean(plan, j, base, SimpleFeed(plan.Packets(), o), o)
  }

  lemma CleanNext(plan: Plan, j: nat, base: nat, order: seq<nat>, o: seq<nat>, n: nat)
    requires IsBlock(plan, j, base) && NoTurn(plan, base, order) && CleanAfter(plan, j, base, o)
    requires n in order && n in plan.at && n !in o && (IsStranger(plan, j, base, n) ==> Tail(plan, j, base) in o)
    ensures CleanAfter(plan, j, base, o + [n])
  {
    FeedLast(plan.Packets(), o, n);
    CleanStep(plan, j, base, order, SimpleFeed(plan.Packets(), o), o, n);
  }

  lemma CleanOneMore(plan: Plan, j: nat, base: nat, order: seq<nat>, k: nat)
    requires IsBlock(plan, j, base) && NoTurn(plan, base, order) && Ux.Once(order) && TailFirst(plan, j, base, order)
    requires k < |order| && order[k] in plan.at && CleanAfter(plan, j, base, order[..k])
    ensures CleanAfter(plan, j, base, order[..k + 1])
  {
    NewLast(order, k);
    CleanNext(plan, j, base, order, order[..k], order[k]);
  }

  lemma {:induction false} TailFirstIsClean(plan: Plan, j: nat, base: nat, order: seq<nat>, m: nat)
    requires IsBlock(plan, j, base) && AllKnown(plan.Packets(), order) && NoTurn(plan, base, order) && Ux.Once(order)
    requires TailFirst(plan, j, base, order) && m <= |order|
    ensures CleanAfter(plan, j, base, order[..m])
  {
    if m == 0 {
      CleanNothing(plan, j, base);
    } else {
      TailFirstIsClean(plan, j, base, order, m - 1);
      CleanOneMore(plan, j, base, order, m - 1);
    }
  }

  lemma CleanNothing(plan: Plan, j: nat, base: nat)
    requires IsBlock(plan, j, base)
    ensures CleanAfter(plan, j, base, [])
  {
    BlockNumbers(plan, j, base, 0);
  }

  lemma NewLast(order: seq<nat>, m: nat)
    requires Ux.Once(order) && m < |order|
    ensures order[m] in order && order[m] !in order[..m] && order[..m + 1] == order[..m] + [order[m]]
  {
  }

  /**
   A message without a gap, all of whose pieces arrive, each once, is collected from exactly its own
   pieces if and only if no piece of another message that is filed in the same place comes before its
   last piece. The others may be numbered in any way.
   */
  lemma CollectedIff(plan: Plan, j: nat, base: nat, order: seq<nat>)
    requires IsBlock(plan, j, base) && AllKnown(plan.Packets(), order) && NoTurn(plan, base, order) && Ux.Once(order)
    requires Complete(plan, j, order)
    ensures IsCollected(plan, order, j) <==> TailFirst(plan, j, base, order)
  {
    if TailFirst(plan, j, base, order) {
      TailFirstIsClean(plan, j, base, order, |order|);
      assert order[..|order|] == order;
    } else {
      var k :| 0 <= k < |order| && IsStranger(plan, j, base, order[k]) && Tail(plan, j, base) !in order[..k];
      StrangerPoisons(plan, j, base, order, k);
    }
  }

  // ---------------------------------------------------------------------------------------------
  // Parsed
  // ---------------------------------------------------------------------------------------------

  /** The table parsed message `j`, whole, from exactly its own pieces. */
  ghost predicate IsParsed(plan: Plan, j: nat, r: Run, s: Simple)
    requires plan.Valid() && j < |plan.msgs|
  {
    exists k :: 0 <= k < |s.done| && k < |r.parses| &&
      s.done[k].pieces == plan.Numbers(j) && r.parses[k] == plan.msgs[j].Whole()
  }

  /** No collection before that of message `j` overruns. */
  ghost predicate NoneOverrunsBefore(plan: Plan, j: nat, s: Simple)
    requires plan.Valid()
  {
    forall i, k :: 0 <= i < k < |s.done| && s.done[k].pieces == plan.Numbers(j) ==> !DoneOverruns(plan.Packets(), s.done[i])
  }

  /** The message's own collection, if there is one. */
  lemma OwnCollection(plan: Plan, j: nat, r: Run, s: Simple, k: nat)
    requires plan.Valid() && j < |plan.msgs| && plan.HasAll(j) && plan.msgs[j].Valid()
    requires RunAgrees(plan.Packets(), r, s) && k < |s.done| && s.done[k].pieces == plan.Numbers(j) && s.done[k].last in plan.Numbers(j)
    ensures k < |r.parses| ==> plan.msgs[j].Fits() && r.parses[k] == plan.msgs[j].Whole()
    ensures k == |r.parses| && r.fault ==> !plan.msgs[j].Fits()
  {
    if k < |r.parses| {
      OwnYield(plan, j, s.done[k].last, Parsed(r.parses[k]));
    }
    if k == |r.parses| && r.fault {
      OwnYield(plan, j, s.done[k].last, Fault);
    }
  }

  lemma CollectedAt(plan: Plan, j: nat, order: seq<nat>, s: Simple, k: nat, l: nat)
    requires plan.Valid() && EachOnce(s, order) && plan.Numbers(j) != {}
    requires k < |s.done| && l < |s.done| && s.done[k].pieces == s.done[l].pieces == plan.Numbers(j)
    ensures k == l
  {
  }

  /** Of a message that was collected: it is parsed exactly if it fits and nothing before it overruns. */
  lemma CollectedIsParsedIff(plan: Plan, j: nat, order: seq<nat>, r: Run, s: Simple, k: nat)
    requires plan.Valid() && j < |plan.msgs| && plan.HasAll(j) && plan.msgs[j].Valid() && RunAgrees(plan.Packets(), r, s)
    requires EachOnce(s, order) && k < |s.done| && s.done[k].pieces == plan.Numbers(j) && s.done[k].last in plan.Numbers(j)
    ensures IsParsed(plan, j, r, s) <==> plan.msgs[j].Fits() && NoneOverrunsBefore(plan, j, s)
  {
    var ps := plan.Packets();
    OwnCollection(plan, j, r, s, k);
    ParsedIffNoOverrun(ps, r, s, k);
    if IsParsed(plan, j, r, s) {
      var l :| 0 <= l < |s.done| && l < |r.parses| && s.done[l].pieces == plan.Numbers(j) && r.parses[l] == plan.msgs[j].Whole();
      CollectedAt(plan, j, order, s, k, l);
      forall i, m | 0 <= i < m < |s.done| && s.done[m].pieces == plan.Numbers(j)
        ensures !DoneOverruns(ps, s.done[i])
      {
        CollectedAt(plan, j, order, s, k, m);
      }
    } else if plan.msgs[j].Fits() && NoneOverrunsBefore(plan, j, s) {
      FirstFaultIsLater(plan, j, r, s, k);
    }
  }

  lemma FirstFaultIsLater(plan: Plan, j: nat, r: Run, s: Simple, k: nat)
    requires plan.Valid() && j < |plan.msgs| && plan.HasAll(j) && plan.msgs[j].Valid() && RunAgrees(plan.Packets(), r, s)
    requires k < |s.done| && s.done[k].pieces == plan.Numbers(j) && s.done[k].last in plan.Numbers(j)
    requires plan.msgs[j].Fits() && NoneOverrunsBefore(plan, j, s)
    ensures IsParsed(plan, j, r, s)
  {
    OwnCollection(plan, j, r, s, k);
    if r.fault && |r.parses| < k {
      var f := s.done[|r.parses|];
      YieldIs(plan.Packets(), f.pieces, f.last, Fault);
      assert DoneOverruns(plan.Packets(), f);
    }
    assert k < |r.parses|;
  }

  /**
   A message without a gap, all of whose pieces arrive, each once, is parsed, whole and from its own
   pieces, if and only if no stranger comes before its last piece, it is no longer than `PopBig`
   allows, and nothing collected before it overruns.
   */
  lemma ParsedIff(plan: Plan, j: nat, base: nat, order: seq<nat>)
    requires IsBlock(plan, j, base) && AllKnown(plan.Packets(), order) && NoTurn(plan, base, order) && Ux.Once(order)
    requires Complete(plan, j, order) && plan.msgs[j].Valid()
    ensures var r, s := Feed(plan.Packets(), order), SimpleFeed(plan.Packets(), order);
            IsParsed(plan, j, r, s) <==>
              TailFirst(plan, j, base, order) && plan.msgs[j].Fits() && NoneOverrunsBefore(plan, j, s)
  {
    var r, s := Feed(plan.Packets(), order), SimpleFeed(plan.Packets(), order);
    CollectedIff(plan, j, base, order);
    if IsCollected(plan, order, j) {
      RunRefines(plan.Packets(), order);
      CollectedOnce(plan.Packets(), order);
      CollectionsAreSound(plan.Packets(), order);
      var k :| 0 <= k < |s.done| && s.done[k].pieces == plan.Numbers(j);
      assert DoneIsSound(plan.Packets(), s.done[k]);
      CollectedIsParsedIff(plan, j, order, r, s, k);
    }
  }
}
