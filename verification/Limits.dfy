/**
 Runs that reach the limits: a refused send, the edge of the window, and the loss at the wrap.
 */
module Limits {

  import opened Words
  import opened PacketFlags
  import opened Links
  import opened Connection
  import opened Runs
  import opened Progress
  import Tx = SendWindow

  /** The buffers in the slots of a window. */
  ghost function InSlots(w: Tx.Window): set<nat>
    requires w.Valid()
  {
    set i | 0 <= i < 64 && w.pending[i].buffer.Some? :: w.pending[i].buffer.value
  }

  lemma {:induction false} NotAmong(taken: set<nat>) returns (b: nat)
    ensures forall x :: x in taken ==> x < b
    decreases |taken|
  {
    b := 0;
    if taken != {} {
      var x :| x in taken;
      var b' := NotAmong(taken - {x});
      b := if x < b' then b' else x + 1;
      forall y | y in taken
        ensures y < b
      {
        assert y == x || y in taken - {x};
      }
    }
  }

  lemma FreeBuffer(w: World) returns (b: nat)
    requires Shape(w)
    ensures Unused(w, b)
  {
    var taken := InSlots(w.unordered.s.w) + InSlots(w.ordered[0].s.w) + InSlots(w.ordered[1].s.w)
                 + InSlots(w.ordered[2].s.w) + InSlots(w.ordered[3].s.w);
    b := NotAmong(taken);
    SlotsBelow(w.unordered.s, taken, b);
    forall c | 0 <= c < 4
      ensures w.ordered[c].s.Unused(b)
    {
      SlotsBelow(w.ordered[c].s, taken, b);
    }
  }

  lemma SlotsBelow(s: Sender, taken: set<nat>, b: nat)
    requires s.w.Valid() && InSlots(s.w) <= taken && forall x :: x in taken ==> x < b
    ensures s.Unused(b)
  {
    forall i | 0 <= i < 64
      ensures s.w.pending[i].buffer != Some(b)
    {
      if s.w.pending[i].buffer.Some? {
        assert s.w.pending[i].buffer.value in InSlots(s.w);
      }
    }
  }

  /** Does the window check tell right for the next send on the stream? */
  ghost predicate MaySend(w: World, stream: Route)
    requires Shape(w) && (stream.Ordered? ==> stream.channel < 4)
  {
    match stream
    case Ordered(c) => CanTell(w.ordered[c].s)
    case Unordered(_) => CanTell(w.unordered.s)
    case _ => true
  }

  /** In every state of every run anything can be sent on any stream, out of some buffer that is free. */
  lemma AnythingCanBeSent(run: seq<World>, i: nat, opt: Options, data: Bytes, now: u32) returns (buffer: nat)
    requires IsRun(run) && i < |run| && Shape(run[i]) && ValidOptions(opt) && MaySend(run[i], Meant(opt))
    ensures Enabled(run[i], Send(opt, data, buffer, now))
  {
    buffer := FreeBuffer(run[i]);
  }

  /** What is sent newest-only, not too far after the last one parsed, can arrive, and is parsed. */
  lemma NewestCanArrive(run: seq<World>, i: nat, data: Bytes) returns (w': World)
    requires IsRun(run) && i < |run| && |run[i].newest.sent| + 1 - run[i].newest.Latest() < 8191
    ensures Reaches(run[i], w') && w'.newest.sent == run[i].newest.sent + [data]
    ensures w'.newest.parsed == run[i].newest.parsed + [|run[i].newest.sent| + 1]
  {
    OnRunIsReachable(run, i);
    LatestIsSent(run[i]);
    var w1, d := NewestSends(run[i], data);
    w' := NewestArrives(w1, d);
    ReachesOn(run[i], w1, w');
  }

  lemma LatestIsSent(w: World)
    requires Reachable(w)
    ensures w.newest.Latest() <= |w.newest.sent|
  {
    ReachableNewest(w);
  }

  lemma NewestSends(w: World, data: Bytes) returns (w': World, d: Datagram)
    requires Reachable(w)
    ensures Reaches(w, w') && Reachable(w') && d in w'.net && RouteOf(d.flags) == Newest && d.seqNo == W(d.n)
    ensures d.n == |w.newest.sent| + 1 && w'.newest.sent == w.newest.sent + [data] && w'.newest.parsed == w.newest.parsed
  {
    var opt := Options(false, false, 0, false);
    var buffer := FreeBuffer(w);
    OneStep(w, Send(opt, data, buffer, 0));
    NewestGoesOut(w, opt, data, buffer, 0);
    NewestKeepsParsed(w, opt, data, buffer);
    w' := Apply(w, Send(opt, data, buffer, 0));
    d := w'.mem[buffer];
  }

  lemma NewestKeepsParsed(w: World, opt: Options, data: Bytes, buffer: nat)
    requires Shape(w) && ValidOptions(opt) && Meant(opt) == Newest
    ensures SendStep(w, opt, data, buffer, 0).newest.parsed == w.newest.parsed
  {
  }

  lemma NewestArrives(w: World, d: Datagram) returns (w': World)
    requires Reachable(w) && d in w.net && RouteOf(d.flags) == Newest && d.seqNo == W(d.n)
    requires d.n == |w.newest.sent| && 0 < d.n - w.newest.Latest() < 8191
    ensures Reaches(w, w') && w'.newest.sent == w.newest.sent && w'.newest.parsed == w.newest.parsed + [d.n]
  {
    ReachableNewest(w);
    OneStep(w, Arrive(d));
    NewestDeliverIs(w.newest, d.n);
    w' := Apply(w, Arrive(d));
  }

  /** `s'` has one number more than `s`, refused exactly if the window is full. */
  ghost predicate OneMore(s: Sender, s': Sender) {
    var n := |s.sent| + 1;
    && |s'.sent| == n && s'.t.start == s.t.start
    && if n < s.t.start + 64 then
         s'.refused == s.refused && n in s'.t.pending
       else
         s'.refused == s.refused + {n} && s'.t.next == s.t.next && s'.t.pending == s.t.pending
  }

  lemma SendOne(w: World, c: nat) returns (w': World)
    requires Reachable(w) && c < 4 && |w.ordered[c].s.sent| + 1 <= w.ordered[c].s.t.start + 64
    ensures Reaches(w, w') && Reachable(w')
    ensures w'.ordered[c].r == w.ordered[c].r && OneMore(w.ordered[c].s, w'.ordered[c].s)
  {
    var b := FreeBuffer(w);
    var opt := Options(true, true, if c == 0 then 0 else if c == 1 then 1 else if c == 2 then 2 else 3, false);
    assert Meant(opt) == Ordered(c);
    OneStep(w, Send(opt, [], b, 0));
    w' := Apply(w, Send(opt, [], b, 0));
    ChannelSends(w, c, b);
  }

  lemma OneMoreSent(s: Sender, b: nat)
    requires s.Inv() && Tx.Told(s.t.start, |s.sent| + 1)
    ensures OneMore(s, s.Send([], b, 0))
  {
    Tx.SendRefines(s.w, s.t, b, 0);
  }

  lemma ChannelSends(w: World, c: nat, b: nat)
    requires Reachable(w) && c < 4 && CanTell(w.ordered[c].s)
    ensures OneMore(w.ordered[c].s, w.ordered[c].s.Send([], b, 0))
  {
    ReachableChannel(w, c);
    OneMoreSent(w.ordered[c].s, b);
  }

  /** As many sends as the window has room for: none is refused. */
  lemma {:induction false} SendMany(w: World, c: nat, k: nat) returns (w': World)
    requires Reachable(w) && c < 4 && |w.ordered[c].s.sent| + k < w.ordered[c].s.t.start + 64
    ensures Reaches(w, w') && Reachable(w') && w'.ordered[c].r == w.ordered[c].r
    ensures var s, s' := w.ordered[c].s, w'.ordered[c].s;
            && |s'.sent| == |s.sent| + k && s'.t.start == s.t.start && s'.refused == s.refused
            && (k > 0 ==> |s'.sent| in s'.t.pending)
    decreases k
  {
    if k == 0 {
      w' := w;
      ReachesItself(w);
    } else {
      var w1 := SendMany(w, c, k - 1);
      w' := SendOne(w1, c);
      ReachesOn(w, w1, w');
    }
  }

  /** The first `k` packets of the channel are parsed and released, and there are no others. */
  ghost predicate Idle(l: OrderedLink, k: nat) {
    && |l.s.sent| == k && l.s.refused == {} && l.r.recv == k
    && l.s.t.start == l.s.t.next == if k == 0 then 0 else k + 1
  }

  lemma FinishedIsIdle(w: World, c: nat)
    requires Reachable(w) && c < 4 && Finished(w, c) && w.ordered[c].s.refused == {} && w.ordered[c].s.t.pending.Keys == {}
    ensures Idle(w.ordered[c], |w.ordered[c].s.sent|)
  {
    ReachableChannel(w, c);
  }

  lemma NextIdle(w: World, c: nat, k: nat) returns (w': World)
    requires Reachable(w) && c < 4 && Idle(w.ordered[c], k)
    ensures Reaches(w, w') && Reachable(w') && Idle(w'.ordered[c], k + 1)
  {
    var w1 := SendOne(w, c);
    w' := Finish(w1, c);
    FinishedIsIdle(w', c);
    ReachesOn(w, w1, w');
  }

  /** One packet after another is sent, parsed and released. */
  lemma {:induction false} ReachIdle(c: nat, k: nat) returns (w: World)
    requires c < 4
    ensures Reachable(w) && Idle(w.ordered[c], k)
    decreases k
  {
    if k == 0 {
      w := Start();
      StartInv();
      ReachesItself(w);
    } else {
      var w1 := ReachIdle(c, k - 1);
      w := NextIdle(w1, c, k - 1);
    }
  }

  lemma ReachableIsRun(w: World) returns (run: seq<World>)
    requires Reachable(w)
    ensures IsRun(run) && run[|run| - 1] == w
  {
    run :| IsPath(run) && run[0] == Start() && run[|run| - 1] == w;
  }

  lemma ReachRefusal(c: nat) returns (w: World)
    requires c < 4
    ensures Reachable(w) && w.ordered[c].s.refused == {64}
  {
    var w0 := ReachIdle(c, 0);
    var w1 := SendMany(w0, c, 63);
    w := SendOne(w1, c);
  }

  /** A run in which a send is refused: 64 packets on a channel, and no acknowledgement. */
  lemma SomeSendIsRefused(c: nat) returns (run: seq<World>)
    requires c < 4
    ensures IsRun(run) && Shape(run[|run| - 1]) && run[|run| - 1].ordered[c].s.refused == {64}
  {
    var w := ReachRefusal(c);
    run := ReachableIsRun(w);
  }

  lemma ReachEdge(c: nat) returns (w: World)
    requires c < 4
    ensures Reachable(w)
    ensures var l := w.ordered[c];
            l.s.refused == {} && l.s.t.start + 63 in l.s.t.pending && l.r.recv + 1 == l.s.t.start
  {
    var w0 := ReachIdle(c, 1);
    w := SendMany(w0, c, 64);
  }

  /** The state that `Runs.OrderedNeverStalls` makes an exception for is reached, too. */
  lemma WindowEdgeIsReached(c: nat) returns (run: seq<World>)
    requires c < 4
    ensures IsRun(run) && Shape(run[|run| - 1])
    ensures var l := run[|run| - 1].ordered[c];
            l.s.refused == {} && l.s.t.start + 63 in l.s.t.pending && l.r.recv + 1 == l.s.t.start
  {
    var w := ReachEdge(c);
    run := ReachableIsRun(w);
  }

  /** A whole window from an idle channel on, and one send more, which is refused. */
  lemma FillWindow(w: World, c: nat, k: nat) returns (w': World)
    requires Reachable(w) && c < 4 && Idle(w.ordered[c], k) && k > 0
    ensures Reachable(w')
    ensures var s := w'.ordered[c].s;
            |s.sent| == k + 65 && s.refused == {k + 65} && s.t.start == k + 1 && s.t.next == k + 65
  {
    var w1 := SendMany(w, c, 64);
    FullWindow(w1, c);
    w' := SendOne(w1, c);
  }

  lemma FullWindow(w: World, c: nat)
    requires Reachable(w) && c < 4 && w.ordered[c].s.refused == {} && w.ordered[c].s.sent != []
    ensures w.ordered[c].s.t.next == |w.ordered[c].s.sent| + 1
  {
    ReachableChannel(w, c);
  }

  /** Everything before the refused number is acknowledged. */
  lemma EmptyWindow(w: World, c: nat, n: nat) returns (w': World)
    requires Reachable(w) && c < 4
    requires var s := w.ordered[c].s; |s.sent| == n && s.refused == {n} && s.t.next == n
    ensures Reachable(w') && w'.ordered[c].s.t == Tx.Simple(n, n, n, map[]) && w'.ordered[c].s.refused == {n}
  {
    w' := Settle(w, c);
    AllReleased(w', c, n, w.ordered[c].s.t.pending.Keys);
  }

  lemma AllReleased(w: World, c: nat, n: nat, ns: set<nat>)
    requires Reachable(w) && c < 4 && !CanGoOn(w.ordered[c])
    requires var s := w.ordered[c].s; |s.sent| == n && s.refused == {n} && s.t.next == n
    requires w.ordered[c].s.t.pending.Keys == After(ns, w.ordered[c].r.recv)
    ensures w.ordered[c].s.t == Tx.Simple(n, n, n, map[])
  {
    ReachableChannel(w, c);
    ParsedIsSent(w, c);
    var l := w.ordered[c];
    assert n in l.s.refused && |l.parsed| + 1 == n;
    assert l.s.t.pending.Keys == {};
  }

  lemma ReachWrap(c: nat) returns (w: World)
    requires c < 4
    ensures Reachable(w) && w.ordered[c].s.t == Tx.AtTheWrap() && w.ordered[c].s.refused == {0xFFFF_FFFF}
  {
    var k := 0x1_0000_0000 - 66;
    var w0 := ReachIdle(c, k);
    var w1 := FillWindow(w0, c, k);
    w := EmptyWindow(w1, c, k + 65);
  }

  /**
   A run reaches the loss at the wrap of `SendWindow.LostAtTheWrap`: 2^32 - 66 packets, each
   acknowledged, then a full window of 64, one refused send, and the acknowledgements of the 64.
   */
  lemma WrapLossIsReached(c: nat, buffer: nat, now: u32, delay: u32) returns (run: seq<World>)
    requires c < 4
    ensures IsRun(run) && Shape(run[|run| - 1])
    ensures var s := run[|run| - 1].ordered[c].s;
            var o := Tx.Send(s.w, buffer, now);
            && s.refused == {0xFFFF_FFFF} && Tx.Agrees(s.w, Tx.AtTheWrap())
            && o.accepted && Tx.Repeat(o.w, o.w.start, now, delay, {}, []).resent == []
            && Tx.Ack(o.w, 0).w.start == s.w.start
  {
    var w := ReachWrap(c);
    ReachableChannel(w, c);
    Tx.LostAtTheWrap(w.ordered[c].s.w, buffer, now, delay);
    run := ReachableIsRun(w);
  }
}
