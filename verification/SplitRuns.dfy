/**
 Split messages over a whole connection. The unordered stream hands the pieces on once each and within a
 window: if every message was numbered without a gap, each is restored exactly once. What may go wrong
 if not is shown on an example.
 */
module SplitRuns {

  import opened Words
  import opened Chunks
  import opened Reassembly
  import opened ChunkRuns
  import opened ChunkDelivery
  import opened Links
  import opened Connection
  import Runs
  import Ux = UnorderedReceive

  /** Message `j` is numbered from `bases[j]` on, every one of them. */
  ghost predicate IsGaplessPlan(plan: Plan, bases: seq<nat>) {
    |bases| == |plan.msgs| && plan.Valid() && forall j :: 0 <= j < |bases| ==> IsBlock(plan, j, bases[j])
  }

  /** A number is gathered as long as its message is not complete. */
  ghost predicate Gathered(plan: Plan, order: seq<nat>, n: nat)
    requires n in plan.at
  {
    n in order && !Complete(plan, plan.at[n].0, order)
  }

  /** What was collected are messages, and each that is complete was. */
  ghost predicate DoneMatches(plan: Plan, done: seq<Done>, order: seq<nat>) {
    && (forall k :: 0 <= k < |done| ==> done[k].last in plan.at && done[k].pieces == plan.Numbers(plan.at[done[k].last].0))
    && (forall j :: 0 <= j < |plan.msgs| ==> (Complete(plan, j, order) <==> IsAmong(plan, j, done)))
  }

  ghost predicate IsAmong(plan: Plan, j: nat, done: seq<Done>) {
    exists k :: 0 <= k < |done| && done[k].pieces == plan.Numbers(j)
  }

  ghost predicate Tracks(plan: Plan, s: Simple, order: seq<nat>) {
    && s.held <= plan.at.Keys
    && (forall n :: n in plan.at ==> (n in s.held <==> Gathered(plan, order, n)))
    && s.turned == 0
    && DoneMatches(plan, s.done, order)
  }

  // ---------------------------------------------------------------------------------------------
  // Near numbers
  // ---------------------------------------------------------------------------------------------

  /** Number `n` comes after all that is a window or more below it, and before all that is a window above. */
  ghost predicate Timely(plan: Plan, before: seq<nat>, n: nat) {
    && (forall q :: q in before ==> q < n + 64)
    && (forall x :: x in plan.at && x + 64 <= n ==> x in before)
  }

  lemma WindowIsTimely(plan: Plan, order: seq<nat>, k: nat)
    requires Ux.Once(order) && Ux.InWindowOf(plan.at.Keys, order) && k < |order| && order[k] in plan.at
    ensures Timely(plan, order[..k], order[k])
  {
    forall q | q in order[..k]
      ensures q < order[k] + 64
    {
      var i :| 0 <= i < k && order[i] == q;
      assert order[k] !in order[..i];
    }
  }

  /** A piece gathered of another message is filed under another word. */
  lemma OthersElsewhere(plan: Plan, bases: seq<nat>, before: seq<nat>, n: nat, q: nat)
    requires IsGaplessPlan(plan, bases) && Timely(plan, before, n) && n in plan.at && q in plan.at
    requires Gathered(plan, before, q) && plan.Word(q) == plan.Word(n)
    ensures plan.at[q].0 == plan.at[n].0
  {
    var i, j := plan.at[q].0, plan.at[n].0;
    assert IsBlock(plan, i, bases[i]) && IsBlock(plan, j, bases[j]);
    assert q in plan.Numbers(i) && n in plan.Numbers(j);
    var x :| x in plan.Numbers(i) && x !in before;
    WInjective(bases[i], bases[j]);
    BlockNumbers(plan, i, bases[i], 0);
    BlockNumbers(plan, j, bases[j], 0);
  }

  /** So under the word of an arriving piece there are only those of its own message. */
  lemma NearIsClean(plan: Plan, bases: seq<nat>, s: Simple, o: seq<nat>, n: nat)
    requires IsGaplessPlan(plan, bases) && Tracks(plan, s, o) && Timely(plan, o, n) && n in plan.at && n !in o
    ensures var j := plan.at[n].0;
            IsBlock(plan, j, bases[j]) && !Complete(plan, j, o) && IsClean(plan, j, bases[j], s, o)
  {
    var j := plan.at[n].0;
    assert IsBlock(plan, j, bases[j]) && n in plan.Numbers(j);
    OwnWord(plan, j, bases[j]);
    forall m | m in plan.at
      ensures m in s.held && plan.Word(m) == W(bases[j]) <==> m in plan.Numbers(j) && m in o
    {
      if m in s.held && plan.Word(m) == W(bases[j]) {
        OthersElsewhere(plan, bases, o, n, m);
      }
    }
  }

  // ---------------------------------------------------------------------------------------------
  // Every message once
  // ---------------------------------------------------------------------------------------------

  lemma TracksHeld(plan: Plan, s: Simple, s': Simple, o: seq<nat>, n: nat, m: nat)
    requires plan.Valid() && Tracks(plan, s, o) && n in plan.at && n !in o && m in plan.at
    requires var j := plan.at[n].0;
             s'.held == if Complete(plan, j, o + [n]) then s.held - plan.Numbers(j) else s.held + {n}
    ensures m in s'.held <==> Gathered(plan, o + [n], m)
  {
    CompleteNext(plan, plan.at[m].0, o, n);
    assert n in plan.Numbers(plan.at[n].0) && n !in s.held;
  }

  lemma TracksDone(plan: Plan, done: seq<Done>, done': seq<Done>, o: seq<nat>, n: nat)
    requires plan.Valid() && n in plan.at && n !in o && DoneMatches(plan, done, o)
    requires var j := plan.at[n].0;
             done' == if Complete(plan, j, o + [n]) then done + [Done(plan.Numbers(j), n)] else done
    ensures DoneMatches(plan, done', o + [n])
  {
    var j := plan.at[n].0;
    assert n in plan.Numbers(j);
    forall i | 0 <= i < |plan.msgs|
      ensures Complete(plan, i, o + [n]) <==> IsAmong(plan, i, done')
    {
      CompleteNext(plan, i, o, n);
      AmongNext(plan, i, done, done', j, n);
    }
  }

  lemma AmongNext(plan: Plan, i: nat, done: seq<Done>, done': seq<Done>, j: nat, n: nat)
    requires n in plan.Numbers(j) && (done' == done || done' == done + [Done(plan.Numbers(j), n)])
    ensures IsAmong(plan, i, done') <==> IsAmong(plan, i, done) || (done' != done && i == j)
  {
    if IsAmong(plan, i, done) {
      var k :| 0 <= k < |done| && done[k].pieces == plan.Numbers(i);
      assert done'[k] == done[k];
    }
    if done' != done && i == j {
      assert done'[|done|].pieces == plan.Numbers(i);
    }
  }

  lemma TracksStep(plan: Plan, bases: seq<nat>, s: Simple, o: seq<nat>, n: nat)
    requires IsGaplessPlan(plan, bases) && Tracks(plan, s, o) && Timely(plan, o, n) && n in plan.at && n !in o
    ensures Tracks(plan, SimpleOne(plan.Packets(), s, n), o + [n])
  {
    var j, s' := plan.at[n].0, SimpleOne(plan.Packets(), s, n);
    NearIsClean(plan, bases, s, o, n);
    OwnArrives(plan, j, bases[j], s, o, n);
    forall m | m in plan.at
      ensures m in s'.held <==> Gathered(plan, o + [n], m)
    {
      TracksHeld(plan, s, s', o, n, m);
    }
    TracksDone(plan, s.done, s'.done, o, n);
  }

  ghost predicate IsTracked(plan: Plan, o: seq<nat>)
    requires plan.Valid()
  {
    AllKnown(plan.Packets(), o) && Tracks(plan, SimpleFeed(plan.Packets(), o), o)
  }

  lemma TracksNothing(plan: Plan, bases: seq<nat>)
    requires IsGaplessPlan(plan, bases)
    ensures IsTracked(plan, [])
  {
    forall j | 0 <= j < |plan.msgs|
      ensures !Complete(plan, j, [])
    {
      assert IsBlock(plan, j, bases[j]);
      BlockNumbers(plan, j, bases[j], 0);
    }
  }

  lemma TracksNext(plan: Plan, bases: seq<nat>, o: seq<nat>, n: nat)
    requires IsGaplessPlan(plan, bases) && n in plan.at && n !in o && Timely(plan, o, n) && IsTracked(plan, o)
    ensures IsTracked(plan, o + [n])
  {
    FeedLast(plan.Packets(), o, n);
    TracksStep(plan, bases, SimpleFeed(plan.Packets(), o), o, n);
  }

  lemma TracksOneMore(plan: Plan, bases: seq<nat>, order: seq<nat>, k: nat)
    requires IsGaplessPlan(plan, bases) && k < |order| && order[k] in plan.at
    requires Ux.Once(order) && Ux.InWindowOf(plan.at.Keys, order) && IsTracked(plan, order[..k])
    ensures IsTracked(plan, order[..k + 1])
  {
    WindowIsTimely(plan, order, k);
    NewLast(order, k);
    TracksNext(plan, bases, order[..k], order[k]);
  }

  lemma {:induction false} OnceTracks(plan: Plan, bases: seq<nat>, order: seq<nat>, m: nat)
    requires IsGaplessPlan(plan, bases) && AllKnown(plan.Packets(), order) && m <= |order|
    requires Ux.Once(order) && Ux.InWindowOf(plan.at.Keys, order)
    ensures IsTracked(plan, order[..m])
  {
    if m == 0 {
      TracksNothing(plan, bases);
    } else {
      OnceTracks(plan, bases, order, m - 1);
      TracksOneMore(plan, bases, order, m - 1);
    }
  }

  /** The message a collection restores. */
  ghost function MessageOf(plan: Plan, d: Done): nat
    requires d.last in plan.at
  {
    plan.at[d.last].0
  }

  /** What a collection yields is its message, unless that is too long. */
  lemma DoneResult(plan: Plan, bases: seq<nat>, d: Done, r: Result)
    requires IsGaplessPlan(plan, bases) && d.last in plan.at && d.pieces == plan.Numbers(MessageOf(plan, d))
    requires plan.msgs[MessageOf(plan, d)].Valid() && DoneYields(plan.Packets(), d, r)
    ensures r == if plan.msgs[MessageOf(plan, d)].Fits() then Parsed(plan.msgs[MessageOf(plan, d)].Whole()) else Fault
  {
    var j := MessageOf(plan, d);
    assert IsBlock(plan, j, bases[j]);
    OwnYield(plan, j, d.last, r);
  }

  ghost predicate TooLong(plan: Plan, order: seq<nat>, j: nat)
    requires j < |plan.msgs|
  {
    Complete(plan, j, order) && !plan.msgs[j].Fits()
  }

  lemma OneMessage(plan: Plan, bases: seq<nat>, d: Done, j: nat)
    requires IsGaplessPlan(plan, bases) && j < |plan.msgs| && d.last in plan.at
    requires d.pieces == plan.Numbers(MessageOf(plan, d)) == plan.Numbers(j)
    ensures MessageOf(plan, d) == j
  {
    assert d.last in plan.Numbers(MessageOf(plan, d));
  }

  /** A fault is a message too long, and the other way round. */
  lemma FaultIsTooLong(plan: Plan, bases: seq<nat>, order: seq<nat>, r: Run, s: Simple)
    requires IsGaplessPlan(plan, bases) && AllValid(plan)
    requires RunAgrees(plan.Packets(), r, s) && DoneMatches(plan, s.done, order)
    ensures r.fault <==> exists j :: 0 <= j < |plan.msgs| && TooLong(plan, order, j)
  {
    if r.fault {
      var d := s.done[|r.parses|];
      DoneResult(plan, bases, d, Fault);
      assert IsAmong(plan, MessageOf(plan, d), s.done);
      assert TooLong(plan, order, MessageOf(plan, d));
    } else if j :| 0 <= j < |plan.msgs| && TooLong(plan, order, j) {
      assert IsAmong(plan, j, s.done);
      var k :| 0 <= k < |s.done| && s.done[k].pieces == plan.Numbers(j);
      OneMessage(plan, bases, s.done[k], j);
      assert DoneYields(plan.Packets(), s.done[k], Parsed(r.parses[k]));
      DoneResult(plan, bases, s.done[k], Parsed(r.parses[k]));
    }
  }

  /** Every message that is complete was parsed once and whole, and nothing else was. */
  ghost predicate OnceEach(plan: Plan, order: seq<nat>, done: seq<Done>, parses: seq<Bytes>)
    requires plan.Valid()
  {
    && DoneMatches(plan, done, order)
    && (forall k, l :: 0 <= k < l < |done| ==> MessageOf(plan, done[k]) != MessageOf(plan, done[l]))
    && |parses| == |done|
    && (forall k :: 0 <= k < |done| ==> parses[k] == plan.msgs[MessageOf(plan, done[k])].Whole())
  }

  /** What the table has done: every complete message once and whole, or a fault because one is too long. */
  ghost predicate Arrived(plan: Plan, order: seq<nat>, r: Run, s: Simple)
    requires plan.Valid()
  {
    && (r.fault <==> exists j :: 0 <= j < |plan.msgs| && TooLong(plan, order, j))
    && (!r.fault ==> OnceEach(plan, order, s.done, r.parses) && r.t.taken == |s.held|)
  }

  ghost predicate AllValid(plan: Plan) {
    forall j :: 0 <= j < |plan.msgs| ==> plan.msgs[j].Valid()
  }

  /**
   Every split message numbered without a gap; the pieces handed on once each and within a window, in
   any order: every complete message is parsed exactly once and restored, nothing else is parsed, no
   cache buffer is lost, and a fault means that a complete message is longer than `PopBig` allows.
   */
  lemma EveryMessageOnce(plan: Plan, bases: seq<nat>, order: seq<nat>)
    requires IsGaplessPlan(plan, bases) && AllValid(plan)
    requires AllKnown(plan.Packets(), order) && Ux.Once(order) && Ux.InWindowOf(plan.at.Keys, order)
    ensures Arrived(plan, order, Feed(plan.Packets(), order), SimpleFeed(plan.Packets(), order))
  {
    OnceTracks(plan, bases, order, |order|);
    assert order[..|order|] == order;
    RunRefines(plan.Packets(), order);
    CollectedOnce(plan.Packets(), order);
    TrackedArrives(plan, bases, order, Feed(plan.Packets(), order), SimpleFeed(plan.Packets(), order));
  }

  lemma TrackedArrives(plan: Plan, bases: seq<nat>, order: seq<nat>, r: Run, s: Simple)
    requires IsGaplessPlan(plan, bases) && AllValid(plan)
    requires Tracks(plan, s, order) && RunAgrees(plan.Packets(), r, s) && EachOnce(s, order)
    ensures Arrived(plan, order, r, s)
  {
    FaultIsTooLong(plan, bases, order, r, s);
    if !r.fault {
      ParsedOnceEach(plan, bases, order, r, s);
    }
  }

  lemma ParsedOnceEach(plan: Plan, bases: seq<nat>, order: seq<nat>, r: Run, s: Simple)
    requires IsGaplessPlan(plan, bases) && AllValid(plan)
    requires DoneMatches(plan, s.done, order) && EachOnce(s, order)
    requires ParsedInTurn(plan.Packets(), s.done, r.parses) && |r.parses| == |s.done|
    ensures OnceEach(plan, order, s.done, r.parses)
  {
    forall k | 0 <= k < |s.done|
      ensures r.parses[k] == plan.msgs[MessageOf(plan, s.done[k])].Whole()
    {
      assert DoneYields(plan.Packets(), s.done[k], Parsed(r.parses[k]));
      DoneResult(plan, bases, s.done[k], Parsed(r.parses[k]));
    }
    forall k, l | 0 <= k < l < |s.done|
      ensures MessageOf(plan, s.done[k]) != MessageOf(plan, s.done[l])
    {
      assert s.done[k].pieces !! s.done[l].pieces;
      assert s.done[k].last in s.done[k].pieces;
    }
  }

  // ---------------------------------------------------------------------------------------------
  // Over a connection
  // ---------------------------------------------------------------------------------------------

  /** The numbers sent with the CHUNK flag are exactly those of the plan, with the bytes of its pieces. */
  ghost predicate Carries(l: UnorderedLink, plan: Plan)
    requires plan.Valid()
  {
    && (forall n :: n in l.chunks <==> n in plan.at && n <= |l.s.sent|)
    && (forall n :: n in l.chunks ==> 0 < n <= |l.s.sent| && l.s.sent[n - 1] == plan.Packets()[n].bytes)
  }

  /** What the stream hands to the table. */
  lemma HandedToTable(run: seq<World>, i: nat, plan: Plan)
    requires IsRun(run) && i < |run| && plan.Valid() && Carries(run[i].unordered, plan)
    ensures var l := run[i].unordered;
            AllKnown(plan.Packets(), l.pieces) && Ux.Once(l.pieces) && Ux.InWindowOf(plan.at.Keys, l.pieces)
  {
    Runs.UnorderedIsExactlyOnce(run, i);
    PiecesAreKnown(run[i].unordered, plan);
  }

  lemma PiecesAreKnown(l: UnorderedLink, plan: Plan)
    requires plan.Valid() && Carries(l, plan) && Ux.InWindowOf(l.chunks, l.pieces) && forall n :: n in l.pieces ==> n in l.chunks
    ensures AllKnown(plan.Packets(), l.pieces) && Ux.InWindowOf(plan.at.Keys, l.pieces)
  {
    forall k | 0 <= k < |l.pieces|
      ensures l.pieces[k] in plan.at && l.pieces[k] <= |l.s.sent|
    {
      assert l.pieces[k] in l.pieces;
    }
  }

  /**
   In every state of every run of a connection on which all split messages were numbered without a
   gap, those whose pieces have all been handed on are those that were parsed, each once and whole.
   */
  lemma SplitPacketsArrive(run: seq<World>, i: nat, plan: Plan, bases: seq<nat>)
    requires IsRun(run) && i < |run| && IsGaplessPlan(plan, bases) && AllValid(plan) && Carries(run[i].unordered, plan)
    ensures AllKnown(plan.Packets(), run[i].unordered.pieces)
    ensures var order := run[i].unordered.pieces;
            Arrived(plan, order, Feed(plan.Packets(), order), SimpleFeed(plan.Packets(), order))
  {
    HandedToTable(run, i, plan);
    EveryMessageOnce(plan, bases, run[i].unordered.pieces);
  }

  /**
   And on any connection, whatever gaps there are: a message without a gap whose pieces have all been
   handed on was parsed whole exactly if no stranger was handed on before its last piece, it is no longer
   than `PopBig` allows, and nothing collected before it overran.
   */
  lemma SplitPacketParsedIff(run: seq<World>, i: nat, plan: Plan, j: nat, base: nat)
    requires IsRun(run) && i < |run| && IsBlock(plan, j, base) && plan.msgs[j].Valid() && Carries(run[i].unordered, plan)
    requires NoTurn(plan, base, run[i].unordered.pieces) && Complete(plan, j, run[i].unordered.pieces)
    ensures AllKnown(plan.Packets(), run[i].unordered.pieces)
    ensures var order := run[i].unordered.pieces;
            var r, s := Feed(plan.Packets(), order), SimpleFeed(plan.Packets(), order);
            IsParsed(plan, j, r, s) <==>
              TailFirst(plan, j, base, order) && plan.msgs[j].Fits() && NoneOverrunsBefore(plan, j, s)
  {
    HandedToTable(run, i, plan);
    ParsedIff(plan, j, base, run[i].unordered.pieces);
  }

  // ---------------------------------------------------------------------------------------------
  // A mixture
  // ---------------------------------------------------------------------------------------------

  /** A message in two pieces. */
  ghost predicate InTwo(m: Message) {
    m.Valid() && |m.heads| == 2
  }

  /** The first piece of `b` followed by the second part of `a`. */
  ghost function Mixed(a: Message, b: Message): Bytes
    requires InTwo(a) && InTwo(b) && |a.sub| == |b.sub|
  {
    TwoParts(a);
    TwoParts(b);
    b.heads[0] + b.sub + b.payload[..ChunkSize(|b.sub|)] + a.payload[ChunkSize(|a.sub|)..]
  }

  lemma TwoParts(m: Message)
    requires InTwo(m)
    ensures var c := ChunkSize(|m.sub|);
            && c < |m.payload| <= 2 * c
            && Part(m.payload, c, 0) == m.payload[..c] && Part(m.payload, c, 1) == m.payload[c..]
  {
    CountCovers(|m.payload|, ChunkSize(|m.sub|));
  }

  /** An entry with one piece of a message in two. */
  function OnePiece(i: nat, bytes: Bytes, size: nat): Gather
    requires i < 2
  {
    Gather(Empty().buffers[i := Some(bytes)], PieceFlag(2, i), size, 1, i == 1)
  }

  lemma FlagsInTwo()
    ensures PieceFlag(2, 0) == {0} && 0 !in PieceFlag(2, 1) && 15 in PieceFlag(2, 1)
    ensures PieceFlag(2, 0) * PieceFlag(2, 1) == {} == PieceFlag(2, 1) * PieceFlag(2, 0)
    ensures PieceFlag(2, 0) + PieceFlag(2, 1) == ALL == PieceFlag(2, 1) + PieceFlag(2, 0)
  {
  }

  /** A piece filed under a word that was free waits there. */
  lemma OneWaits(t: Table, p: Packet, i: nat, key: u32)
    requires t.Valid() && i < 2 && p.flag == PieceFlag(2, i) <= ALL && Base(p.seqNo, p.flag) == key && key !in t.gathers
    ensures Receive(t, p) == (Table(t.gathers[key := OnePiece(i, p.bytes, p.total)], t.taken + 1), Waiting)
  {
    FlagsInTwo();
    FlagsPartition(2, i);
    assert {} + p.flag == p.flag && {} * p.flag == {};
    assert Added(t, p) == OnePiece(i, p.bytes, p.total);
    ReceiveFrom(t, p, key, Added(t, p));
  }

  /** The other piece completes the entry, whatever message it is of. */
  lemma OtherCompletes(t: Table, p: Packet, i: nat, key: u32, first: Bytes, size: nat)
    requires t.Valid() && i < 2 && p.flag == PieceFlag(2, i) <= ALL && Base(p.seqNo, p.flag) == key
    requires key in t.gathers && t.gathers[key] == OnePiece(1 - i, first, size)
    ensures var g := Added(t, p);
            && g.IsPull() && g.count == 2 && g.size == p.total
            && g.buffers[i] == Some(p.bytes) && g.buffers[1 - i] == Some(first)
  {
    FlagsInTwo();
    FlagsPartition(2, i);
  }

  /** What the copying loop makes of the first piece of one message and the second of another. */
  lemma MixIsJoined(a: Message, b: Message, g: Gather)
    requires InTwo(a) && InTwo(b) && |a.sub| == |b.sub|
    requires g.Valid() && g.count == 2 && g.buffers[0] == Some(b.Bytes(0)) && g.buffers[1] == Some(a.Bytes(1))
    ensures Joined(g.buffers, 2, HEADER + |a.sub|) == Mixed(a, b)
    ensures |Mixed(a, b)| == HEADER + |a.sub| + |a.payload| <= BIG_MAX
    ensures !SomeBad(g.buffers, 0, 2, HEADER + |a.sub|)
  {
    TwoParts(a);
    TwoParts(b);
    var h := HEADER + |a.sub|;
    assert a.Bytes(1)[h..] == a.payload[ChunkSize(|a.sub|)..];
    assert Joined(g.buffers, 1, h) == b.Bytes(0);
    assert Joined(g.buffers, 2, h) == Joined(g.buffers, 1, h) + CopyOf(g.buffers, 1, h);
  }

  lemma MixCollects(a: Message, b: Message, g: Gather)
    requires InTwo(a) && InTwo(b) && |a.sub| == |b.sub| && (g.size == |a.payload| || g.size == |b.payload|)
    requires g.Valid() && g.count == 2 && g.buffers[0] == Some(b.Bytes(0)) && g.buffers[1] == Some(a.Bytes(1))
    ensures Collect(g, HEADER + |a.sub|) == if |a.payload| <= g.size then Some(Mixed(a, b)) else None
  {
    TwoParts(a);
    TwoParts(b);
    MixIsJoined(a, b, g);
    CollectIs(g, HEADER + |a.sub|);
  }

  lemma MixResult(t: Table, p: Packet, a: Message, b: Message, g: Gather, key: u32)
    requires InTwo(a) && InTwo(b) && |a.sub| == |b.sub|
    requires t.Valid() && p.flag <= ALL && Base(p.seqNo, p.flag) == key && g == Added(t, p) && g.IsPull()
    requires g.count == 2 && g.buffers[0] == Some(b.Bytes(0)) && g.buffers[1] == Some(a.Bytes(1))
    requires g.size == p.total && p.subSize == |a.sub| && (p.total == |a.payload| || p.total == |b.payload|)
    ensures Receive(t, p).1 == if |a.payload| <= p.total then Parsed(Mixed(a, b)) else Fault
  {
    MixCollects(a, b, g);
    ReceiveFrom(t, p, key, g);
  }

  /**
   Two messages of two pieces each, sent by two threads that take turns, so that the second piece of `a`
   has the number after the first piece of `b`. Whatever else is in the table: if the first piece of `b`
   arrives first, it is parsed together with the second piece of `a`. If it arrives second, the room is
   that of `b`; if `a` is longer, the copying loop writes past it.
   */
  lemma MessagesMix(t: Table, a: Message, b: Message, n: nat)
    requires t.Valid() && InTwo(a) && InTwo(b) && |a.sub| == |b.sub| && W(n) !in t.gathers
    ensures b.Piece(0, n).flag <= ALL && a.Piece(1, n + 1).flag <= ALL
    ensures Receive(Receive(t, b.Piece(0, n)).0, a.Piece(1, n + 1)).1 == Parsed(Mixed(a, b))
    ensures Receive(Receive(t, a.Piece(1, n + 1)).0, b.Piece(0, n)).1 ==
            if |a.payload| <= |b.payload| then Parsed(Mixed(a, b)) else Fault
  {
    var p, q := b.Piece(0, n), a.Piece(1, n + 1);
    PieceBase(n, 2, 0);
    PieceBase(n + 1, 2, 1);
    OneWaits(t, p, 0, W(n));
    OneWaits(t, q, 1, W(n));
    var t1, t2 := Receive(t, p).0, Receive(t, q).0;
    OtherCompletes(t1, q, 1, W(n), p.bytes, p.total);
    MixResult(t1, q, a, b, Added(t1, q), W(n));
    OtherCompletes(t2, p, 0, W(n), q.bytes, q.total);
    MixResult(t2, p, a, b, Added(t2, p), W(n));
  }

  /** Message `a` in three pieces, the last numbered 5, and `b` in two numbered 3 and 4. */
  ghost function Interleaved(a: Message, b: Message): Plan {
    Plan([a, b], map[5 := (0, 2), 3 := (1, 0), 4 := (1, 1)])
  }

  lemma InterleavedIsValid(a: Message, b: Message)
    requires a.Shape() && b.Shape() && |a.heads| == 3 && |b.heads| == 2
    ensures Interleaved(a, b).Valid()
  {
  }

  lemma SecondIsBlock(a: Message, b: Message)
    requires Interleaved(a, b).Valid() && |b.heads| == 2
    ensures IsBlock(Interleaved(a, b), 1, 3) && Tail(Interleaved(a, b), 1, 3) == 4
  {
    var plan := Interleaved(a, b);
    assert 3 in plan.at && plan.at[3] == (1, 0) && 4 in plan.at && plan.at[4] == (1, 1);
    assert plan.IsNumbered(1, 0) && plan.IsNumbered(1, 1);
  }

  lemma NoTurnAmongThree(a: Message, b: Message)
    requires Interleaved(a, b).Valid()
    ensures NoTurn(Interleaved(a, b), 3, [3, 5, 4])
  {
  }

  lemma AmongThree(a: Message, b: Message)
    requires Interleaved(a, b).Valid()
    ensures var plan, order := Interleaved(a, b), [3, 5, 4];
            && AllKnown(plan.Packets(), order) && Complete(plan, 1, order)
            && IsStranger(plan, 1, 3, order[1]) && order[..1] == [3]
  {
  }

  /**
   A message without a gap that is not restored: the last piece of `a`, filed under 5 - 2, where `b` is,
   comes before the last piece of `b`.
   */
  lemma StrangerComesFirst(a: Message, b: Message)
    requires a.Shape() && b.Shape() && |a.heads| == 3 && |b.heads| == 2
    ensures Interleaved(a, b).Valid() && IsBlock(Interleaved(a, b), 1, 3)
    ensures AllKnown(Interleaved(a, b).Packets(), [3, 5, 4]) && Complete(Interleaved(a, b), 1, [3, 5, 4])
    ensures !IsCollected(Interleaved(a, b), [3, 5, 4], 1)
  {
    InterleavedIsValid(a, b);
    SecondIsBlock(a, b);
    NoTurnAmongThree(a, b);
    AmongThree(a, b);
    StrangerPoisons(Interleaved(a, b), 1, 3, [3, 5, 4], 1);
  }

  /** The second piece of `a` numbered 3, the first of `b` numbered 2, and `c` numbered 5 and 6. */
  ghost function Shadowed(a: Message, b: Message, c: Message): Plan {
    Plan([a, b, c], map[3 := (0, 1), 2 := (1, 0), 5 := (2, 0), 6 := (2, 1)])
  }

  lemma FourPlaces(at: map<nat, (nat, nat)>)
    requires at == map[3 := (0, 1), 2 := (1, 0), 5 := (2, 0), 6 := (2, 1)]
    ensures forall n :: n in at ==> 0 < n && at[n].0 < 3 && at[n].1 < 2
    ensures forall m, n :: m in at && n in at && m != n ==> at[m] != at[n]
  {
  }

  lemma ShadowedIsValid(a: Message, b: Message, c: Message)
    requires InTwo(a) && InTwo(b) && InTwo(c)
    ensures Shadowed(a, b, c).Valid()
  {
    var plan := Shadowed(a, b, c);
    FourPlaces(plan.at);
    PlanOfTwos(plan.msgs, plan.at);
  }

  lemma PlanOfTwos(msgs: seq<Message>, at: map<nat, (nat, nat)>)
    requires |msgs| == 3 && InTwo(msgs[0]) && InTwo(msgs[1]) && InTwo(msgs[2])
    requires forall n :: n in at ==> 0 < n && at[n].0 < 3 && at[n].1 < 2
    requires forall m, n :: m in at && n in at && m != n ==> at[m] != at[n]
    ensures Plan(msgs, at).Valid()
  {
  }

  lemma ThirdIsBlock(a: Message, b: Message, c: Message)
    requires Shadowed(a, b, c).Valid() && |c.heads| == 2
    ensures IsBlock(Shadowed(a, b, c), 2, 5)
  {
    var plan := Shadowed(a, b, c);
    assert 5 in plan.at && plan.at[5] == (2, 0) && 6 in plan.at && plan.at[6] == (2, 1);
    assert plan.IsNumbered(2, 0) && plan.IsNumbered(2, 1);
  }

  lemma AmongFour(a: Message, b: Message, c: Message)
    requires IsBlock(Shadowed(a, b, c), 2, 5)
    ensures var plan, order := Shadowed(a, b, c), [3, 2, 5, 6];
            && NoTurn(plan, 5, order) && AllKnown(plan.Packets(), order) && Complete(plan, 2, order)
            && TailFirst(plan, 2, 5, order)
  {
    NoTurnAmongFour(a, b, c);
  }

  lemma NoTurnAmongFour(a: Message, b: Message, c: Message)
    requires Shadowed(a, b, c).Valid()
    ensures NoTurn(Shadowed(a, b, c), 5, [3, 2, 5, 6])
  {
  }

  /** The first two arrivals are a fault, whatever other packets there are. */
  lemma MixFaults(ps: map<nat, Packet>, a: Message, b: Message)
    requires WellFormed(ps) && InTwo(a) && InTwo(b) && |a.sub| == |b.sub| && |b.payload| < |a.payload|
    requires 3 in ps && ps[3] == a.Piece(1, 3) && 2 in ps && ps[2] == b.Piece(0, 2)
    ensures AllKnown(ps, [3, 2]) && Feed(ps, [3, 2]).fault && Feed(ps, [3, 2]).parses == []
  {
    var t := Table(map[], 0);
    MessagesMix(t, a, b, 2);
    PieceBase(3, 2, 1);
    OneWaits(t, ps[3], 1, W(2));
    FeedNext(ps, [], 3);
    FeedNext(ps, [3], 2);
    assert [] + [3] == [3] && [3] + [2] == [3, 2];
  }

  lemma ThirdIsCollected(a: Message, b: Message, c: Message)
    requires Shadowed(a, b, c).Valid() && |c.heads| == 2
    ensures AllKnown(Shadowed(a, b, c).Packets(), [3, 2, 5, 6])
    ensures IsCollected(Shadowed(a, b, c), [3, 2, 5, 6], 2)
  {
    ThirdIsBlock(a, b, c);
    AmongFour(a, b, c);
    FourAreDistinct();
    Collects(Shadowed(a, b, c), 2, 5, [3, 2, 5, 6]);
  }

  lemma FourAreDistinct()
    ensures Ux.Once([3, 2, 5, 6])
  {
  }

  lemma Collects(plan: Plan, j: nat, base: nat, order: seq<nat>)
    requires IsBlock(plan, j, base) && AllKnown(plan.Packets(), order) && NoTurn(plan, base, order) && Ux.Once(order)
    requires Complete(plan, j, order) && TailFirst(plan, j, base, order)
    ensures IsCollected(plan, order, j)
  {
    CollectedIff(plan, j, base, order);
  }

  lemma ShadowedPackets(a: Message, b: Message, c: Message)
    requires Shadowed(a, b, c).Valid()
    ensures var ps := Shadowed(a, b, c).Packets();
            ps.Keys == {2, 3, 5, 6} && ps[3] == a.Piece(1, 3) && ps[2] == b.Piece(0, 2)
  {
  }

  /**
   The overrun of a mixture is the end of everything: a third message, numbered without a gap and with
   no stranger, is collected by the machine, but the table has parsed nothing.
   */
  lemma FaultShadows(a: Message, b: Message, c: Message)
    requires InTwo(a) && InTwo(b) && InTwo(c) && |a.sub| == |b.sub| && |b.payload| < |a.payload|
    ensures Shadowed(a, b, c).Valid() && AllKnown(Shadowed(a, b, c).Packets(), [3, 2, 5, 6])
    ensures IsCollected(Shadowed(a, b, c), [3, 2, 5, 6], 2)
    ensures Feed(Shadowed(a, b, c).Packets(), [3, 2, 5, 6]).fault && Feed(Shadowed(a, b, c).Packets(), [3, 2, 5, 6]).parses == []
  {
    ShadowedIsValid(a, b, c);
    ThirdIsCollected(a, b, c);
    ShadowedPackets(a, b, c);
    ShadowIsLong(Shadowed(a, b, c).Packets(), a, b);
  }

  lemma ShadowIsLong(ps: map<nat, Packet>, a: Message, b: Message)
    requires WellFormed(ps) && InTwo(a) && InTwo(b) && |a.sub| == |b.sub| && |b.payload| < |a.payload|
    requires 3 in ps && ps[3] == a.Piece(1, 3) && 2 in ps && ps[2] == b.Piece(0, 2) && AllKnown(ps, [5, 6])
    ensures AllKnown(ps, [3, 2, 5, 6]) && Feed(ps, [3, 2, 5, 6]).fault && Feed(ps, [3, 2, 5, 6]).parses == []
  {
    MixFaults(ps, a, b);
    FaultIsTheEnd(ps, [3, 2], [5, 6]);
    assert [3, 2] + [5, 6] == [3, 2, 5, 6];
  }
}
