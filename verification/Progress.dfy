/**
 What a run can still achieve: from any state, with nothing left on the network even, resending and
 delivering what was sent again brings a reliable stream up to its first refused number.
 */
module Progress {

  import opened Words
  import opened PacketFlags
  import opened Links
  import opened Connection
  import opened Runs
  import Tx = SendWindow
  import Rx = OrderedReceive
  import Ux = UnorderedReceive

  // ---------------------------------------------------------------------------------------------
  // Progress of an ordered channel
  // ---------------------------------------------------------------------------------------------

  lemma FlagsOfChannel(c: nat)
    requires c < 4
    ensures RouteOf(ChannelFlags(c)) == Ordered(c)
  {
  }

  /** The same packets sent and refused, and the end of the window where it was. */
  ghost predicate SameSends(s: Sender, s': Sender) {
    s'.sent == s.sent && s'.refused == s.refused && s'.t.next == s.t.next
  }

  /** Everything on the network can get lost, and nothing else happens then. */
  lemma {:induction false} AllIsLost(w: World) returns (w': World)
    requires Reachable(w)
    ensures Reaches(w, w') && Reachable(w') && w' == w.(net := {}, acks := {})
    decreases |w.net| + |w.acks|
  {
    if d :| d in w.net {
      OneStep(w, Lose(d));
      var w1 := Apply(w, Lose(d));
      w' := AllIsLost(w1);
      ReachesOn(w, w1, w');
    } else if k :| k in w.acks {
      OneStep(w, LoseAck(k));
      var w1 := Apply(w, LoseAck(k));
      w' := AllIsLost(w1);
      ReachesOn(w, w1, w');
    } else {
      w' := w;
      ReachesItself(w);
    }
  }

  /** Resending puts every pending packet below the first refusal back on the network, whatever was lost. */
  lemma Resend(w: World, c: nat) returns (w': World)
    requires Reachable(w) && c < 4
    ensures Reaches(w, w') && Reachable(w')
    ensures var l, l' := w.ordered[c], w'.ordered[c];
            && SameSends(l.s, l'.s) && l'.parsed == l.parsed && l'.r == l.r
            && l'.s.t.pending.Keys == l.s.t.pending.Keys
            && forall n :: n in l.s.t.pending && l.s.Unbroken(n) ==> PacketAs(l.s, ChannelFlags(c), n) in w'.net
  {
    OneStep(w, RepeatAll(0, 0, {}));
    w' := Apply(w, RepeatAll(0, 0, {}));
    ReachableChannel(w, c);
    var l := w.ordered[c];
    SenderRepeats(l.s, 0, 0, {});
    forall n | n in l.s.t.pending && l.s.Unbroken(n)
      ensures PacketAs(l.s, ChannelFlags(c), n) in w'.net
    {
      UnbrokenIsResent(l.s, n);
      assert Stores(w.mem, l.s, ChannelFlags(c), n);
      ResentByAll(w, c, l.s.t.pending[n].buffer);
    }
  }

  lemma ResentByAll(w: World, c: nat, b: nat)
    requires Shape(w) && c < 4 && b in w.ordered[c].s.Resent(0, 0, {}) && b in w.mem
    ensures w.mem[b] in RepeatStep(w, 0, 0, {}).net
  {
    assert b in AllResent(w, 0, 0, {});
  }

  /** The number a channel waits for was not refused, and has been given out. */
  ghost predicate CanGoOn(l: OrderedLink) {
    |l.parsed| < |l.s.sent| && |l.parsed| + 1 !in l.s.refused
  }

  lemma NextIsPending(l: OrderedLink)
    requires l.Inv() && CanGoOn(l)
    ensures var n := l.r.recv + 1;
            l.s.Accepted(n) && n in l.s.t.pending && l.s.Unbroken(n)
  {
    assert l.s.Accepted(l.r.recv + 1);
  }

  /** The packet a channel waits for can be sent again and delivered, and is parsed. */
  lemma DeliverNext(w: World, c: nat) returns (w': World)
    requires Reachable(w) && c < 4 && CanGoOn(w.ordered[c])
    ensures Reaches(w, w') && Reachable(w')
    ensures var l, l' := w.ordered[c], w'.ordered[c];
            SameSends(l.s, l'.s) && |l'.parsed| > |l.parsed| && l'.s.t.pending.Keys == l.s.t.pending.Keys
  {
    ReachableChannel(w, c);
    NextIsPending(w.ordered[c]);
    var w1 := Resend(w, c);
    w' := ParseNext(w1, c, PacketAs(w.ordered[c].s, ChannelFlags(c), w.ordered[c].r.recv + 1));
    ReachesOn(w, w1, w');
  }

  /** Any packet of a channel within reach can be delivered. */
  lemma CanArrive(w: World, c: nat, d: Datagram)
    requires Reachable(w) && c < 4 && d in w.net && d.flags == ChannelFlags(c) && Unambiguous(w.ordered[c].r.recv, d.n)
    ensures Enabled(w, Arrive(d)) && IsPacket(w.ordered[c].s, d)
  {
    ReachableNet(w);
    assert Genuine(w, d);
    FlagsOfChannel(c);
  }

  lemma ParseNext(w: World, c: nat, d: Datagram) returns (w': World)
    requires Reachable(w) && c < 4 && d in w.net && d.flags == ChannelFlags(c) && d.n == w.ordered[c].r.recv + 1
    ensures Reaches(w, w') && Reachable(w')
    ensures w'.ordered[c].s == w.ordered[c].s && |w'.ordered[c].parsed| > |w.ordered[c].parsed|
  {
    NearIsUnambiguous(w.ordered[c].r.recv, d.n);
    CanArrive(w, c, d);
    OneStep(w, Arrive(d));
    w' := Apply(w, Arrive(d));
    FlagsOfChannel(c);
    ArrivalDelivers(w, d, c);
    NextIsParsed(w, c, d);
  }

  lemma NextIsParsed(w: World, c: nat, d: Datagram)
    requires Reachable(w) && c < 4 && IsPacket(w.ordered[c].s, d) && d.n == w.ordered[c].r.recv + 1
    ensures |w.ordered[c].Deliver(w.mgr, d.seqNo, d.data, d.n).parsed| > |w.ordered[c].parsed|
  {
    ReachableChannel(w, c);
    NearIsUnambiguous(w.ordered[c].r.recv, d.n);
    DeliverProgress(w.ordered[c], w.mgr, d.n);
  }

  lemma ParsedIsSent(w: World, c: nat)
    requires Reachable(w) && c < 4
    ensures var l := w.ordered[c];
            l.parsed <= l.s.sent && l.r.recv == |l.parsed| && forall n :: n in l.s.refused ==> |l.parsed| < n <= |l.s.sent|
  {
    ReachableChannel(w, c);
  }

  /** Delivering a pending packet that was parsed again brings its acknowledgement back. */
  lemma DeliverAgain(w: World, c: nat, n: nat) returns (w': World, k: AckGram)
    requires Reachable(w) && c < 4 && n in w.ordered[c].s.t.pending && n <= w.ordered[c].r.recv
    ensures Reaches(w, w') && Reachable(w')
    ensures k in w'.acks && AckRouteOf(k.flags) == Ordered(c) && k.n == n
    ensures var l, l' := w.ordered[c], w'.ordered[c];
            SameSends(l.s, l'.s) && l'.parsed == l.parsed && l'.r == l.r && l'.s.t.pending.Keys == l.s.t.pending.Keys
  {
    ParsedIsUnbroken(w, c, n);
    var w1 := Resend(w, c);
    w', k := AnswerAgain(w1, c, PacketAs(w.ordered[c].s, ChannelFlags(c), n));
    ReachesOn(w, w1, w');
  }

  lemma ParsedIsUnbroken(w: World, c: nat, n: nat)
    requires Reachable(w) && c < 4 && n in w.ordered[c].s.t.pending && n <= w.ordered[c].r.recv
    ensures w.ordered[c].s.Unbroken(n)
  {
    ReachableChannel(w, c);
  }

  lemma AnswerAgain(w: World, c: nat, d: Datagram) returns (w': World, k: AckGram)
    requires Reachable(w) && c < 4 && d in w.net && d.flags == ChannelFlags(c)
    requires d.n in w.ordered[c].s.t.pending && d.n <= w.ordered[c].r.recv
    ensures Reaches(w, w') && Reachable(w') && w'.ordered[c] == w.ordered[c]
    ensures k in w'.acks && AckRouteOf(k.flags) == Ordered(c) && k.n == d.n
  {
    HeldIsAnswered(w, c, d.n);
    CanArrive(w, c, d);
    OneStep(w, Arrive(d));
    w' := Apply(w, Arrive(d));
    k := Answered(w, c, d);
  }

  /** What the arrival of a packet does that is acknowledged and changes nothing. */
  lemma Answered(w: World, c: nat, d: Datagram) returns (k: AckGram)
    requires Shape(w) && c < 4 && d.flags == ChannelFlags(c)
    requires Rx.Receive(w.ordered[c].rx, w.mgr, d.seqNo, d.data).ack
    requires w.ordered[c].Deliver(w.mgr, d.seqNo, d.data, d.n) == w.ordered[c]
    ensures ArriveStep(w, d).ordered[c] == w.ordered[c]
    ensures k in ArriveStep(w, d).acks && AckRouteOf(k.flags) == Ordered(c) && k.n == d.n
  {
    FlagsOfChannel(c);
    ArrivalDelivers(w, d, c);
    AnswerReturns(d.flags);
    k := AckGram(AnswerFlags(d.flags), d.seqNo, d.n);
  }

  lemma HeldIsAnswered(w: World, c: nat, n: nat)
    requires Reachable(w) && c < 4 && n in w.ordered[c].s.t.pending && n <= w.ordered[c].r.recv
    ensures Unambiguous(w.ordered[c].r.recv, n) && 0 < n <= |w.ordered[c].s.sent|
    ensures var l := w.ordered[c];
            && Rx.Receive(l.rx, w.mgr, W(n), l.s.sent[n - 1]).ack
            && l.Deliver(w.mgr, W(n), l.s.sent[n - 1], n) == l
  {
    ReachableChannel(w, c);
    WindowsAgree(w.ordered[c]);
    NearIsUnambiguous(w.ordered[c].r.recv, n);
    DeliverProgress(w.ordered[c], w.mgr, n);
  }

  /** An acknowledgement removes the packet from what is pending. */
  lemma SenderReleases(s: Sender, n: nat)
    requires s.Inv() && n in s.t.pending
    ensures s.Accepted(n) && s.IsRecent(n)
    ensures var s' := s.TakeAck(W(n), n);
            SameSends(s, s') && s'.t.pending == s.t.pending - {n}
  {
    Tx.RecentNamesOnly(s.t, n);
    Tx.AckRefines(s.w, s.t, n);
  }

  /** The acknowledgement releases the packet. */
  lemma ReleaseOne(w: World, c: nat, k: AckGram) returns (w': World)
    requires Reachable(w) && c < 4 && k in w.acks && AckRouteOf(k.flags) == Ordered(c) && k.n in w.ordered[c].s.t.pending
    ensures Reaches(w, w') && Reachable(w')
    ensures var l, l' := w.ordered[c], w'.ordered[c];
            && SameSends(l.s, l'.s) && l'.parsed == l.parsed && l'.r == l.r
            && l'.s.t.pending == l.s.t.pending - {k.n}
  {
    ReachableChannel(w, c);
    ReachableNet(w);
    assert Earned(w, k);
    SenderReleases(w.ordered[c].s, k.n);
    OneStep(w, AckArrives(k));
    w' := Apply(w, AckArrives(k));
  }

  /** A pending packet that was parsed is released. */
  lemma Release(w: World, c: nat, n: nat) returns (w': World)
    requires Reachable(w) && c < 4 && n in w.ordered[c].s.t.pending && n <= w.ordered[c].r.recv
    ensures Reaches(w, w') && Reachable(w')
    ensures var l, l' := w.ordered[c], w'.ordered[c];
            && SameSends(l.s, l'.s) && l'.parsed == l.parsed && l'.r == l.r
            && l'.s.t.pending.Keys == l.s.t.pending.Keys - {n}
  {
    var w1, k := DeliverAgain(w, c, n);
    w' := ReleaseOne(w1, c, k);
    ReachesOn(w, w1, w');
  }

  /** The numbers after `recv`. */
  ghost function After(ns: set<nat>, recv: nat): set<nat> {
    set n | n in ns && n > recv
  }

  lemma OneLess(ns: set<nat>, n: nat, recv: nat)
    requires n in ns && n <= recv
    ensures After(ns - {n}, recv) == After(ns, recv) && |ns - {n}| < |ns|
  {
  }

  /** Some number up to `recv` is among `ns`, or `ns` are all after it. */
  lemma SomeUpTo(ns: set<nat>, recv: nat) returns (n: nat)
    ensures if After(ns, recv) == ns then true else n in ns && n <= recv
  {
    n := 0;
    if After(ns, recv) != ns {
      n :| n in ns && n !in After(ns, recv);
    }
  }

  /** One after another, every pending packet that was parsed is released, and no other. */
  lemma {:induction false} ReleaseAll(w: World, c: nat) returns (w': World)
    requires Reachable(w) && c < 4
    ensures Reaches(w, w') && Reachable(w')
    ensures var l, l' := w.ordered[c], w'.ordered[c];
            && SameSends(l.s, l'.s) && l'.parsed == l.parsed && l'.r == l.r
            && l'.s.t.pending.Keys == After(l.s.t.pending.Keys, l.r.recv)
    decreases |w.ordered[c].s.t.pending.Keys|
  {
    var ns, recv := w.ordered[c].s.t.pending.Keys, w.ordered[c].r.recv;
    var n := SomeUpTo(ns, recv);
    if After(ns, recv) == ns {
      w' := w;
      ReachesItself(w);
    } else {
      var w1 := Release(w, c, n);
      OneLess(ns, n, recv);
      w' := ReleaseAll(w1, c);
      ReachesOn(w, w1, w');
    }
  }

  /** One after another, everything below the first refused number is parsed, and then released. */
  lemma {:induction false} Settle(w: World, c: nat) returns (w': World)
    requires Reachable(w) && c < 4
    ensures Reaches(w, w') && Reachable(w')
    ensures var l, l' := w.ordered[c], w'.ordered[c];
            && SameSends(l.s, l'.s) && !CanGoOn(l')
            && l'.s.t.pending.Keys == After(l.s.t.pending.Keys, l'.r.recv)
    decreases |w.ordered[c].s.sent| - |w.ordered[c].parsed|
  {
    ParsedIsSent(w, c);
    if CanGoOn(w.ordered[c]) {
      var w1 := DeliverNext(w, c);
      ParsedIsSent(w1, c);
      w' := Settle(w1, c);
      ReachesOn(w, w1, w');
    } else {
      w' := ReleaseAll(w, c);
    }
  }

  lemma NothingPending(w: Tx.Window, t: Tx.Simple)
    requires Tx.Agrees(w, t) && t.pending.Keys == {}
    ensures forall i :: 0 <= i < 64 ==> w.pending[i].buffer.None?
  {
    forall i | 0 <= i < 64
      ensures w.pending[i].buffer.None?
    {
      assert Tx.SlotAgrees(w, t, AtSlot(t.start, i));
    }
  }

  /** Everything sent on the channel has been parsed, and no send buffer is held for it. */
  ghost predicate Finished(w: World, c: nat)
    requires c < 4
  {
    && Shape(w)
    && w.ordered[c].parsed == w.ordered[c].s.sent
    && forall i :: 0 <= i < 64 ==> w.ordered[c].s.w.pending[i].buffer.None?
  }

  /** Resending, and delivering what was sent again, one packet after another, finishes the channel. */
  lemma Finish(w: World, c: nat) returns (w': World)
    requires Reachable(w) && c < 4 && w.ordered[c].s.refused == {}
    ensures Reaches(w, w') && Reachable(w') && Finished(w', c) && SameSends(w.ordered[c].s, w'.ordered[c].s)
    ensures w'.ordered[c].s.t.pending.Keys == {}
  {
    w' := Settle(w, c);
    AllIsParsed(w', c, w.ordered[c].s.t.pending.Keys);
  }

  lemma AllIsParsed(w: World, c: nat, ns: set<nat>)
    requires Reachable(w) && c < 4 && w.ordered[c].s.refused == {} && !CanGoOn(w.ordered[c])
    requires w.ordered[c].s.t.pending.Keys == After(ns, w.ordered[c].r.recv)
    ensures w.ordered[c].s.t.pending.Keys == {} && Finished(w, c)
  {
    ReachableChannel(w, c);
    NothingPending(w.ordered[c].s.w, w.ordered[c].s.t);
  }

  /** Some way on from `w` the channel is finished. */
  ghost predicate CanFinish(w: World, c: nat)
    requires c < 4
  {
    exists w' :: Reaches(w, w') && Finished(w', c)
  }

  /**
   From any state of any run, with nothing left on the network even, a channel can still deliver
   everything exactly if none of its sends was refused: one refusal leaves a gap that nothing fills.
   */
  lemma FinishesIffNothingRefused(run: seq<World>, i: nat, c: nat)
    requires IsRun(run) && i < |run| && c < 4
    ensures Shape(run[i])
    ensures CanFinish(run[i], c) <==> run[i].ordered[c].s.refused == {}
  {
    OnRunIsReachable(run, i);
    var w := run[i];
    if w.ordered[c].s.refused == {} {
      var w' := Finish(w, c);
    } else {
      forall w' | Reaches(w, w')
        ensures !Finished(w', c)
      {
        RefusalStalls(w, w', c);
      }
    }
  }

  lemma RefusalStalls(w: World, w': World, c: nat)
    requires Reachable(w) && c < 4 && w.ordered[c].s.refused != {} && Reaches(w, w')
    ensures !Finished(w', c)
  {
    ReachedKeepsRefused(w, w');
    var n :| n in w.ordered[c].s.refused;
    assert n in w'.ordered[c].s.refused;
    ParsedIsSent(w', c);
  }

  /**
   After a refusal the channel can still parse everything before the first refused number and release
   its buffers, and by `Runs.OrderedIsPrefix` parse nothing else.
   */
  lemma ParsesUpToRefusal(run: seq<World>, i: nat, c: nat) returns (w': World)
    requires IsRun(run) && i < |run| && c < 4
    ensures Reachable(run[i]) && Reaches(run[i], w') && Reachable(w')
    ensures var l, l' := run[i].ordered[c], w'.ordered[c];
            && SameSends(l.s, l'.s)
            && (|l'.parsed| == |l.s.sent| || |l'.parsed| + 1 in l.s.refused)
            && l'.s.t.pending.Keys == After(l.s.t.pending.Keys, |l'.parsed|)
  {
    OnRunIsReachable(run, i);
    w' := Settle(run[i], c);
    ParsedIsSent(w', c);
  }

  // ---------------------------------------------------------------------------------------------
  // Progress of the unordered stream
  // ---------------------------------------------------------------------------------------------

  ghost predicate StreamCanGoOn(l: UnorderedLink) {
    l.r.recv < |l.s.sent| && l.r.recv + 1 !in l.s.refused
  }

  lemma StreamNextIsPending(l: UnorderedLink)
    requires l.Inv() && StreamCanGoOn(l)
    ensures var n := l.r.recv + 1;
            l.s.Accepted(n) && n in l.s.t.pending && l.s.Unbroken(n)
  {
    var n := l.r.recv + 1;
    assert l.s.Accepted(n);
    forall m | m in l.s.refused
      ensures n < m
    {
      assert !l.r.Holds(m);
    }
  }

  lemma StreamResend(w: World, n: nat) returns (w': World, d: Datagram)
    requires Reachable(w) && n in w.unordered.s.t.pending && w.unordered.s.Unbroken(n)
    ensures Reaches(w, w') && Reachable(w')
    ensures d in w'.net && RouteOf(d.flags).Unordered? && d.n == n
    ensures SameStream(w.unordered, w'.unordered) && w'.unordered.s.t.pending.Keys == w.unordered.s.t.pending.Keys
  {
    OneStep(w, RepeatAll(0, 0, {}));
    w' := Apply(w, RepeatAll(0, 0, {}));
    ReachableStream(w);
    SenderRepeats(w.unordered.s, 0, 0, {});
    d := StreamResent(w, n);
  }

  lemma StreamResent(w: World, n: nat) returns (d: Datagram)
    requires Reachable(w) && n in w.unordered.s.t.pending && w.unordered.s.Unbroken(n)
    ensures d in RepeatStep(w, 0, 0, {}).net && RouteOf(d.flags).Unordered? && d.n == n
  {
    ReachableStream(w);
    var s, chunk := w.unordered.s, n in w.unordered.chunks;
    UnbrokenIsResent(s, n);
    assert Stores(w.mem, s, StreamFlags(chunk), n);
    assert s.t.pending[n].buffer in AllResent(w, 0, 0, {});
    d := w.mem[s.t.pending[n].buffer];
    FlagsMeant(Options(true, false, 0, chunk));
  }

  /** What was sent and what was received is as before. */
  ghost predicate SameStream(l: UnorderedLink, l': UnorderedLink) {
    SameSends(l.s, l'.s) && l'.parsed == l.parsed && l'.r == l.r
  }

  /** Any packet of the stream within reach can be delivered. */
  lemma StreamCanArrive(w: World, d: Datagram)
    requires Reachable(w) && d in w.net && RouteOf(d.flags).Unordered? && Unambiguous(w.unordered.r.recv, d.n)
    ensures Enabled(w, Arrive(d)) && IsPacket(w.unordered.s, d)
    ensures RouteOf(d.flags) == Unordered(d.n in w.unordered.chunks)
  {
    ReachableNet(w);
    assert Genuine(w, d);
  }

  lemma StreamDeliver(w: World, d: Datagram) returns (w': World)
    requires Reachable(w) && d in w.net && RouteOf(d.flags).Unordered? && d.n == w.unordered.r.recv + 1
    ensures Reaches(w, w') && Reachable(w')
    ensures w'.unordered.s == w.unordered.s && w'.unordered.r.recv > w.unordered.r.recv
  {
    NearIsUnambiguous(w.unordered.r.recv, d.n);
    StreamCanArrive(w, d);
    OneStep(w, Arrive(d));
    ReachableStream(w);
    UnorderedDeliverKeeps(w.unordered, d.n);
    w' := Apply(w, Arrive(d));
  }

  lemma StreamDeliverNext(w: World) returns (w': World)
    requires Reachable(w) && StreamCanGoOn(w.unordered)
    ensures Reaches(w, w') && Reachable(w')
    ensures SameSends(w.unordered.s, w'.unordered.s) && w'.unordered.r.recv > w.unordered.r.recv
    ensures w'.unordered.s.t.pending.Keys == w.unordered.s.t.pending.Keys
  {
    ReachableStream(w);
    StreamNextIsPending(w.unordered);
    var w1, d := StreamResend(w, w.unordered.r.recv + 1);
    w' := StreamDeliver(w1, d);
    ReachesOn(w, w1, w');
  }

  lemma NotPastSent(w: World)
    requires Reachable(w)
    ensures w.unordered.r.recv <= |w.unordered.s.sent|
  {
    ReachableStream(w);
    assert w.unordered.r.Holds(w.unordered.r.recv);
  }

  lemma HandedOnIsSent(w: World)
    requires Reachable(w)
    ensures var l := w.unordered;
            && l.r.recv <= |l.s.sent|
            && (forall n :: 0 < n <= l.r.recv ==> n in l.parsed)
            && (forall n :: n in l.s.refused ==> l.r.recv < n <= |l.s.sent| && n !in l.parsed)
  {
    ReachableStream(w);
    var l := w.unordered;
    assert l.r.Holds(l.r.recv);
    forall n | 0 < n <= l.r.recv
      ensures n in l.parsed
    {
      assert l.r.Holds(n);
    }
    forall n | n in l.s.refused
      ensures l.r.recv < n
    {
      assert !l.r.Holds(n);
    }
  }

  lemma StreamHeldIsAnswered(w: World, n: nat)
    requires Reachable(w) && n in w.unordered.s.t.pending && n <= w.unordered.r.recv
    ensures Unambiguous(w.unordered.r.recv, n) && w.unordered.s.Unbroken(n)
    ensures var l := w.unordered;
            Ux.Receive(l.rx, W(n)).ack && l.Deliver(W(n), n, n in l.chunks) == l
  {
    HandedOnIsSent(w);
    ReachableStream(w);
    UnorderedWindowsAgree(w.unordered);
    NearIsUnambiguous(w.unordered.r.recv, n);
    UnorderedDeliverKeeps(w.unordered, n);
  }

  lemma StreamAnswerAgain(w: World, d: Datagram) returns (w': World, k: AckGram)
    requires Reachable(w) && d in w.net && RouteOf(d.flags).Unordered?
    requires d.n in w.unordered.s.t.pending && d.n <= w.unordered.r.recv
    ensures Reaches(w, w') && Reachable(w') && w'.unordered == w.unordered
    ensures k in w'.acks && AckRouteOf(k.flags).Unordered? && k.n == d.n
  {
    StreamHeldIsAnswered(w, d.n);
    StreamCanArrive(w, d);
    OneStep(w, Arrive(d));
    AnswerReturns(d.flags);
    w', k := Apply(w, Arrive(d)), AckGram(AnswerFlags(d.flags), d.seqNo, d.n);
  }

  lemma StreamReleaseOne(w: World, k: AckGram) returns (w': World)
    requires Reachable(w) && k in w.acks && AckRouteOf(k.flags).Unordered? && k.n in w.unordered.s.t.pending
    ensures Reaches(w, w') && Reachable(w') && SameStream(w.unordered, w'.unordered)
    ensures w'.unordered.s.t.pending == w.unordered.s.t.pending - {k.n}
  {
    ReachableStream(w);
    ReachableNet(w);
    assert Earned(w, k);
    SenderReleases(w.unordered.s, k.n);
    OneStep(w, AckArrives(k));
    w' := Apply(w, AckArrives(k));
  }

  /** A pending packet that was handed on is sent again, acknowledged again and released. */
  lemma StreamRelease(w: World, n: nat) returns (w': World)
    requires Reachable(w) && n in w.unordered.s.t.pending && n <= w.unordered.r.recv
    ensures Reaches(w, w') && Reachable(w') && SameStream(w.unordered, w'.unordered)
    ensures w'.unordered.s.t.pending.Keys == w.unordered.s.t.pending.Keys - {n}
  {
    StreamHeldIsAnswered(w, n);
    var w1, d := StreamResend(w, n);
    var w2, k := StreamAnswerAgain(w1, d);
    w' := StreamReleaseOne(w2, k);
    ReachesOn(w, w1, w2);
    ReachesOn(w, w2, w');
  }

  /** One after another, every pending packet up to `recv` is released, and no other. */
  lemma {:induction false} StreamReleaseAll(w: World) returns (w': World)
    requires Reachable(w)
    ensures Reaches(w, w') && Reachable(w') && SameStream(w.unordered, w'.unordered)
    ensures w'.unordered.s.t.pending.Keys == After(w.unordered.s.t.pending.Keys, w.unordered.r.recv)
    decreases |w.unordered.s.t.pending.Keys|
  {
    var ns, recv := w.unordered.s.t.pending.Keys, w.unordered.r.recv;
    var n := SomeUpTo(ns, recv);
    if After(ns, recv) == ns {
      w' := w;
      ReachesItself(w);
    } else {
      var w1 := StreamRelease(w, n);
      OneLess(ns, n, recv);
      w' := StreamReleaseAll(w1);
      ReachesOn(w, w1, w');
    }
  }

  /** One after another, everything below the first refused number is handed on, and then released. */
  lemma {:induction false} StreamSettle(w: World) returns (w': World)
    requires Reachable(w)
    ensures Reaches(w, w') && Reachable(w') && SameSends(w.unordered.s, w'.unordered.s) && !StreamCanGoOn(w'.unordered)
    ensures w'.unordered.s.t.pending.Keys == After(w.unordered.s.t.pending.Keys, w'.unordered.r.recv)
    decreases |w.unordered.s.sent| - w.unordered.r.recv
  {
    NotPastSent(w);
    if StreamCanGoOn(w.unordered) {
      var w1 := StreamDeliverNext(w);
      NotPastSent(w1);
      w' := StreamSettle(w1);
      ReachesOn(w, w1, w');
    } else {
      w' := StreamReleaseAll(w);
    }
  }

  /** Every number given out has been handed on, and no send buffer is held for the stream. */
  ghost predicate StreamFinished(w: World) {
    && Shape(w)
    && (forall n :: 0 < n <= |w.unordered.s.sent| ==> n in w.unordered.parsed)
    && forall i :: 0 <= i < 64 ==> w.unordered.s.w.pending[i].buffer.None?
  }

  lemma AllIsHandedOn(w: World, ns: set<nat>)
    requires Reachable(w) && w.unordered.s.refused == {} && !StreamCanGoOn(w.unordered)
    requires w.unordered.s.t.pending.Keys == After(ns, w.unordered.r.recv)
    ensures StreamFinished(w)
  {
    HandedOnIsSent(w);
    ReachableStream(w);
    assert w.unordered.s.t.pending.Keys == {};
    NothingPending(w.unordered.s.w, w.unordered.s.t);
  }

  ghost predicate StreamCanFinish(w: World) {
    exists w' :: Reaches(w, w') && StreamFinished(w')
  }

  /**
   From any state of any run the unordered stream can hand everything on and release every send buffer
   exactly if no send was refused.
   */
  lemma StreamFinishesIffNothingRefused(run: seq<World>, i: nat)
    requires IsRun(run) && i < |run|
    ensures StreamCanFinish(run[i]) <==> run[i].unordered.s.refused == {}
  {
    OnRunIsReachable(run, i);
    var w := run[i];
    if w.unordered.s.refused == {} {
      var w' := StreamSettle(w);
      AllIsHandedOn(w', w.unordered.s.t.pending.Keys);
    } else {
      forall w' | Reaches(w, w')
        ensures !StreamFinished(w')
      {
        StreamRefusalStalls(w, w');
      }
    }
  }

  lemma StreamRefusalStalls(w: World, w': World)
    requires Reachable(w) && w.unordered.s.refused != {} && Reaches(w, w')
    ensures !StreamFinished(w')
  {
    ReachedKeepsRefused(w, w');
    var n :| n in w.unordered.s.refused;
    assert n in w'.unordered.s.refused;
    HandedOnIsSent(w');
  }

  /**
   After a refusal the stream can still hand on everything before the first refused number, and
   release its buffers.
   */
  lemma StreamHandsOnUpToRefusal(run: seq<World>, i: nat) returns (w': World)
    requires IsRun(run) && i < |run|
    ensures Reachable(run[i]) && Reaches(run[i], w') && Reachable(w')
    ensures var l, l' := run[i].unordered, w'.unordered;
            && SameSends(l.s, l'.s)
            && (forall n: nat :: l.s.Unbroken(n) ==> n in l'.parsed && n !in l'.s.t.pending)
  {
    OnRunIsReachable(run, i);
    w' := StreamSettle(run[i]);
    UnbrokenIsHandedOn(w', run[i].unordered.s.t.pending.Keys);
  }

  lemma UnbrokenIsHandedOn(w: World, ns: set<nat>)
    requires Reachable(w) && !StreamCanGoOn(w.unordered) && w.unordered.s.t.pending.Keys == After(ns, w.unordered.r.recv)
    ensures forall n: nat :: w.unordered.s.Unbroken(n) ==> n in w.unordered.parsed && n !in w.unordered.s.t.pending
  {
    HandedOnIsSent(w);
  }
}
