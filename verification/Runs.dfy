/**
 What holds in every state of every run of a connection.
 */
module Runs {

  import opened Words
  import opened PacketFlags
  import opened Links
  import opened Connection
  import Tx = SendWindow
  import Rx = OrderedReceive
  import Ux = UnorderedReceive

  lemma {:induction false} PathKeepsInv(path: seq<World>, i: nat)
    requires IsPath(path) && Inv(path[0]) && i < |path|
    ensures Inv(path[i])
  {
    if i > 0 {
      PathKeepsInv(path, i - 1);
      assert Step(path[i - 1], path[i - 1 + 1]);
      NextKeepsInv(path[i - 1], path[i]);
    }
  }

  lemma NextKeepsInv(w: World, w': World)
    requires Inv(w) && Step(w, w')
    ensures Inv(w') && AllExtend(w, w')
  {
    var e :| Enabled(w, e) && w' == Apply(w, e);
    StepKeepsInv(w, e);
  }

  lemma RunKeepsInv(run: seq<World>, i: nat)
    requires IsRun(run) && i < |run|
    ensures Inv(run[i])
  {
    StartInv();
    PathKeepsInv(run, i);
  }

  // ---------------------------------------------------------------------------------------------
  // Safety
  // ---------------------------------------------------------------------------------------------

  /**
   What an ordered channel hands to `PacketParse` is always a prefix of what was sent on it,
   whatever the network and the other streams do. A number the window check refused is never
   parsed, and neither is anything after it.
   */
  lemma OrderedIsPrefix(run: seq<World>, i: nat, c: nat)
    requires IsRun(run) && i < |run| && c < 4
    ensures Shape(run[i])
    ensures var l := run[i].ordered[c];
            && l.parsed <= l.s.sent
            && forall n :: n in l.s.refused ==> |l.parsed| < n
  {
    RunKeepsInv(run, i);
    assert ChannelInv(run[i], c);
  }

  /**
   Every number accepted on a channel is pending with the sender or held by the receiver, also after
   refusals; the ring of pending packets holds exactly these, each buffer its own packet; and the
   receiver is at most a window away from the sender's start, unless it waits for a refused number.
   */
  lemma OrderedLosesNothing(run: seq<World>, i: nat, c: nat)
    requires IsRun(run) && i < |run| && c < 4
    ensures Shape(run[i])
    ensures var l := run[i].ordered[c];
            && Tx.Agrees(l.s.w, l.s.t) && Rx.Agrees(l.rx, l.r)
            && (forall n: nat :: l.s.Accepted(n) ==> n in l.s.t.pending || l.r.Holds(n))
            && (forall n :: n in l.s.t.pending ==> l.s.Accepted(n) && Stores(run[i].mem, l.s, ChannelFlags(c), n))
            && l.r.recv <= l.s.t.start + 63
            && (l.r.recv + 1 !in l.s.refused ==> l.s.t.start - 1 <= l.r.recv)
  {
    RunKeepsInv(run, i);
    assert ChannelInv(run[i], c);
    WindowsAgree(run[i].ordered[c]);
  }

  /** Every acknowledgement under way names a packet the receiver holds. */
  lemma AcknowledgedIsHeld(run: seq<World>, i: nat, k: AckGram)
    requires IsRun(run) && i < |run| && k in run[i].acks
    ensures Shape(run[i])
    ensures match AckRouteOf(k.flags)
            case Ordered(c) => k.seqNo == W(k.n) && run[i].ordered[c].r.Holds(k.n)
            case Unordered(_) => k.seqNo == W(k.n) && k.n in run[i].unordered.parsed
            case _ => false
  {
    RunKeepsInv(run, i);
    assert Earned(run[i], k);
  }

  /**
   As long as no send was refused, whichever packet a channel still has pending, its arrival is
   unambiguous and is acknowledged, except for number `start + 63` while the receiver waits for
   number `start`.
   */
  lemma OrderedNeverStalls(run: seq<World>, i: nat, c: nat, n: nat)
    requires IsRun(run) && i < |run| && c < 4
    ensures Shape(run[i])
    ensures var l := run[i].ordered[c];
            l.s.refused == {} && n in l.s.t.pending ==>
              && 0 < n <= |l.s.sent| && Unambiguous(l.r.recv, n)
              && (Rx.Receive(l.rx, run[i].mgr, W(n), l.s.sent[n - 1]).ack <==>
                    !(n == l.s.t.start + 63 && l.r.recv + 1 == l.s.t.start))
  {
    RunKeepsInv(run, i);
    assert ChannelInv(run[i], c);
    var l := run[i].ordered[c];
    if l.s.refused == {} && n in l.s.t.pending {
      NoStall(l, run[i].mgr, n);
    }
  }

  /**
   The unordered stream hands every packet on at most once, and to `RecvChunckPacket` exactly those
   sent with the CHUNK flag. An accepted packet not yet handed on is still pending. From 63 past a
   refused number on, nothing is handed on.
   */
  lemma UnorderedIsExactlyOnce(run: seq<World>, i: nat)
    requires IsRun(run) && i < |run|
    ensures Shape(run[i])
    ensures var l := run[i].unordered;
            && Ux.Once(l.parsed) && Ux.InWindow(l.parsed)
            && Ux.Once(l.pieces) && Ux.InWindowOf(l.chunks, l.pieces)
            && (forall n: nat :: n in l.pieces <==> n in l.parsed && n in l.chunks)
            && (forall n :: n in l.parsed ==> l.s.Accepted(n))
            && (forall n: nat :: l.s.Accepted(n) ==> n in l.s.t.pending || n in l.parsed)
            && (forall m, n :: m in l.s.refused && n in l.parsed ==> n < m + 63)
  {
    RunKeepsInv(run, i);
    var l := run[i].unordered;
    forall m, n | m in l.s.refused && n in l.parsed
      ensures n < m + 63
    {
      assert l.r.Holds(n) && !l.r.Holds(m);
    }
  }

  /** As for ordered channels. */
  lemma UnorderedNeverStalls(run: seq<World>, i: nat, n: nat)
    requires IsRun(run) && i < |run|
    ensures Shape(run[i])
    ensures var l := run[i].unordered;
            l.s.refused == {} && n in l.s.t.pending ==>
              && Unambiguous(l.r.recv, n)
              && (Ux.Receive(l.rx, W(n)).ack <==> !(n == l.s.t.start + 63 && l.r.recv + 1 == l.s.t.start))
  {
    RunKeepsInv(run, i);
    var l := run[i].unordered;
    if l.s.refused == {} && n in l.s.t.pending {
      UnorderedNoStall(l, n);
    }
  }

  /** The newest-only stream parses numbers that only grow, each by less than 8191. */
  lemma NewestOnlyGrows(run: seq<World>, i: nat)
    requires IsRun(run) && i < |run|
    ensures var l := run[i].newest;
            && (forall j :: 0 <= j < |l.parsed| ==> 0 < l.parsed[j] <= |l.sent|)
            && (forall j :: 0 < j < |l.parsed| ==> 0 < l.parsed[j] - l.parsed[j - 1] < 8191)
  {
    RunKeepsInv(run, i);
    var l := run[i].newest;
    forall j | 0 <= j < |l.parsed|
      ensures 0 < l.parsed[j] <= |l.sent| && (0 < j ==> 0 < l.parsed[j] - l.parsed[j - 1] < 8191)
    {
      assert IsStep(l.parsed, j);
    }
  }

  /** An arrival on the newest-only stream is parsed exactly if it is newer than the last one parsed, by less than 8191. */
  lemma NewestParsesIff(run: seq<World>, i: nat, d: Datagram)
    requires IsRun(run) && i < |run| && Shape(run[i]) && Enabled(run[i], Arrive(d)) && RouteOf(d.flags) == Newest
    ensures var l, l' := run[i].newest, Apply(run[i], Arrive(d)).newest;
            l'.sent == l.sent && l'.parsed == if 0 < d.n - l.Latest() < 8191 then l.parsed + [d.n] else l.parsed
  {
    RunKeepsInv(run, i);
    assert Genuine(run[i], d);
    NewestDeliverIs(run[i].newest, d.n);
  }

  /** What was sent on a stream. */
  ghost function SentOn(w: World, stream: Route): seq<Bytes>
    requires Shape(w) && (stream.Ordered? ==> stream.channel < 4)
  {
    match stream
    case Ordered(c) => w.ordered[c].s.sent
    case Unordered(_) => w.unordered.s.sent
    case _ => w.newest.sent
  }

  predicate IsOther(r: Route, s: Route) {
    r != s && !r.NoSuchChannel? && !(r.Unordered? && s.Unordered?)
  }

  /** Does the window check let the next number through? The newest-only stream has none. */
  ghost predicate HasRoom(w: World, stream: Route)
    requires Shape(w) && (stream.Ordered? ==> stream.channel < 4)
  {
    match stream
    case Ordered(c) => |w.ordered[c].s.sent| + 1 < w.ordered[c].s.t.start + 64
    case Unordered(_) => |w.unordered.s.sent| + 1 < w.unordered.s.t.start + 64
    case _ => true
  }

  /** A datagram with the next number of a stream and the given data. */
  ghost predicate Carries(w: World, stream: Route, data: Bytes, d: Datagram)
    requires Shape(w) && (stream.Ordered? ==> stream.channel < 4)
  {
    RouteOf(d.flags) == stream && d.n == |SentOn(w, stream)| + 1 && d.seqNo == W(d.n) && d.data == data
  }

  /** `w'` is `w` after a packet was sent on the stream. */
  ghost predicate HasSent(w: World, w': World, stream: Route, data: Bytes, buffer: nat)
    requires Shape(w) && (stream.Ordered? ==> stream.channel < 4)
  {
    && Shape(w') && SentOn(w', stream) == SentOn(w, stream) + [data]
    && buffer in w'.mem && Carries(w, stream, data, w'.mem[buffer])
    && w'.net == (if HasRoom(w, stream) then w.net + {w'.mem[buffer]} else w.net)
    && forall r: Route :: IsOther(r, stream) && (r.Ordered? ==> r.channel < 4) ==> SentOn(w', r) == SentOn(w, r)
  }

  /**
   A send gives the packet the next number of the stream meant, writes it to the buffer, and puts it on
   the network exactly if the window has room. No other stream has sent anything.
   */
  lemma SendGoesOut(run: seq<World>, i: nat, opt: Options, data: Bytes, buffer: nat, now: u32)
    requires IsRun(run) && i < |run| && Shape(run[i]) && Enabled(run[i], Send(opt, data, buffer, now))
    ensures HasSent(run[i], Apply(run[i], Send(opt, data, buffer, now)), Meant(opt), data, buffer)
  {
    OnRunIsReachable(run, i);
    match Meant(opt) {
      case Ordered(c) => OrderedGoesOut(run[i], opt, c, data, buffer, now);
      case Unordered(chunk) => UnorderedGoesOut(run[i], opt, chunk, data, buffer, now);
      case Newest => NewestGoesOut(run[i], opt, data, buffer, now);
    }
  }

  lemma OrderedGoesOut(w: World, opt: Options, c: nat, data: Bytes, buffer: nat, now: u32)
    requires Reachable(w) && Enabled(w, Send(opt, data, buffer, now)) && Meant(opt) == Ordered(c)
    ensures HasSent(w, SendStep(w, opt, data, buffer, now), Ordered(c), data, buffer)
  {
    ReachableChannel(w, c);
    NumberIs(w.ordered[c].s, data, buffer, now);
    FlagsMeant(opt);
    OrderedHasSent(w, opt, c, data, buffer, now);
  }

  lemma UnorderedGoesOut(w: World, opt: Options, chunk: bool, data: Bytes, buffer: nat, now: u32)
    requires Reachable(w) && Enabled(w, Send(opt, data, buffer, now)) && Meant(opt) == Unordered(chunk)
    ensures HasSent(w, SendStep(w, opt, data, buffer, now), Unordered(chunk), data, buffer)
  {
    ReachableStream(w);
    NumberIs(w.unordered.s, data, buffer, now);
    FlagsMeant(opt);
    UnorderedHasSent(w, opt, chunk, data, buffer, now);
  }

  lemma NewestGoesOut(w: World, opt: Options, data: Bytes, buffer: nat, now: u32)
    requires Reachable(w) && Enabled(w, Send(opt, data, buffer, now)) && Meant(opt) == Newest
    ensures HasSent(w, SendStep(w, opt, data, buffer, now), Newest, data, buffer)
  {
    ReachableNewest(w);
    SuccOfW(|w.newest.sent|);
    FlagsMeant(opt);
    NewestHasSent(w, opt, data, buffer, now);
  }

  /** The number a sender gives, and whether it is refused. */
  lemma NumberIs(s: Sender, data: Bytes, buffer: nat, now: u32)
    requires s.Inv() && CanTell(s)
    ensures var s', n := s.Send(data, buffer, now), |s.sent| + 1;
            s'.w.Valid() && s'.w.send == W(n) && (n in s'.refused <==> n >= s.t.start + 64)
  {
    SenderSends(s, data, buffer, now);
  }

  lemma OrderedHasSent(w: World, opt: Options, c: nat, data: Bytes, buffer: nat, now: u32)
    requires Shape(w) && ValidOptions(opt) && Meant(opt) == Ordered(c) && RouteOf(DataFlags(opt)) == Ordered(c)
    requires var s', n := w.ordered[c].s.Send(data, buffer, now), |w.ordered[c].s.sent| + 1;
             s'.w.Valid() && s'.w.send == W(n) && (n in s'.refused <==> n >= w.ordered[c].s.t.start + 64)
    ensures HasSent(w, SendStep(w, opt, data, buffer, now), Ordered(c), data, buffer)
  {
  }

  lemma UnorderedHasSent(w: World, opt: Options, chunk: bool, data: Bytes, buffer: nat, now: u32)
    requires Shape(w) && ValidOptions(opt) && Meant(opt) == Unordered(chunk) && RouteOf(DataFlags(opt)) == Unordered(chunk)
    requires var s', n := w.unordered.s.Send(data, buffer, now), |w.unordered.s.sent| + 1;
             s'.w.Valid() && s'.w.send == W(n) && (n in s'.refused <==> n >= w.unordered.s.t.start + 64)
    ensures HasSent(w, SendStep(w, opt, data, buffer, now), Unordered(chunk), data, buffer)
  {
  }

  lemma NewestHasSent(w: World, opt: Options, data: Bytes, buffer: nat, now: u32)
    requires Shape(w) && ValidOptions(opt) && Meant(opt) == Newest && RouteOf(DataFlags(opt)) == Newest
    requires w.newest.Send(data).send == W(|w.newest.sent| + 1)
    ensures HasSent(w, SendStep(w, opt, data, buffer, now), Newest, data, buffer)
  {
  }

  /** In every run the pending buffers of a stream are different ones, as `SendWindow.ResetReturns` asks. */
  lemma PendingBuffersDiffer(run: seq<World>, i: nat)
    requires IsRun(run) && i < |run|
    ensures Shape(run[i])
    ensures forall c: nat :: c < 4 ==> Tx.BuffersDiffer(run[i].ordered[c].s.t)
    ensures Tx.BuffersDiffer(run[i].unordered.s.t)
  {
    RunKeepsInv(run, i);
    var w := run[i];
    forall c: nat | c < 4
      ensures Tx.BuffersDiffer(w.ordered[c].s.t)
    {
      assert ChannelInv(w, c);
      StoredApart(w.mem, w.ordered[c].s);
    }
    StoredApart(w.mem, w.unordered.s);
  }

  lemma StoredApart(mem: map<nat, Datagram>, s: Sender)
    requires forall n :: n in s.t.pending ==> exists flags: bv8 :: Stores(mem, s, flags, n)
    ensures Tx.BuffersDiffer(s.t)
  {
  }

  // ---------------------------------------------------------------------------------------------
  // Paths
  // ---------------------------------------------------------------------------------------------

  /** Some path leads from `w` to `w'`. */
  ghost predicate Reaches(w: World, w': World) {
    exists path: seq<World> :: IsPath(path) && path[0] == w && path[|path| - 1] == w'
  }

  lemma ReachesItself(w: World)
    ensures Reaches(w, w)
  {
    assert IsPath([w]);
  }

  lemma Concat(a: seq<World>, b: seq<World>)
    requires IsPath(a) && IsPath(b) && a[|a| - 1] == b[0]
    ensures IsPath(a + b[1..]) && (a + b[1..])[0] == a[0] && (a + b[1..])[|a + b[1..]| - 1] == b[|b| - 1]
  {
    var path := a + b[1..];
    forall i | 0 <= i < |path| - 1
      ensures Step(path[i], path[i + 1])
    {
      if i < |a| - 1 {
        assert Step(a[i], a[i + 1]);
      } else {
        var j := i - (|a| - 1);
        assert Step(b[j], b[j + 1]);
        assert path[i] == b[j] && path[i + 1] == b[j + 1];
      }
    }
  }

  lemma ReachesOn(w: World, w1: World, w2: World)
    requires Reaches(w, w1) && Reaches(w1, w2)
    ensures Reaches(w, w2)
  {
    var a: seq<World> :| IsPath(a) && a[0] == w && a[|a| - 1] == w1;
    var b: seq<World> :| IsPath(b) && b[0] == w1 && b[|b| - 1] == w2;
    Concat(a, b);
  }

  lemma StepReaches(w: World, w': World, e: Event)
    requires Shape(w) && Enabled(w, e) && w' == Apply(w, e)
    ensures Reaches(w, w')
  {
    assert Step(w, w');
    assert IsPath([w, w']);
  }

  /** Some run leads to `w`. */
  ghost predicate Reachable(w: World) {
    Shape(w) && Reaches(Start(), w)
  }

  lemma ReachableInv(w: World)
    requires Reachable(w)
    ensures Inv(w)
  {
    var run: seq<World> :| IsPath(run) && run[0] == Start() && run[|run| - 1] == w;
    RunKeepsInv(run, |run| - 1);
  }

  lemma ReachableChannel(w: World, c: nat)
    requires Reachable(w) && c < 4
    ensures ChannelInv(w, c)
  {
    ReachableInv(w);
  }

  lemma ReachableStream(w: World)
    requires Reachable(w)
    ensures StreamInv(w)
  {
    ReachableInv(w);
  }

  lemma ReachableNewest(w: World)
    requires Reachable(w)
    ensures w.newest.Inv()
  {
    ReachableInv(w);
  }

  lemma ReachableNet(w: World)
    requires Reachable(w)
    ensures AllGenuine(w)
  {
    ReachableInv(w);
  }

  lemma Prefix(path: seq<World>, i: nat)
    requires IsPath(path) && i < |path|
    ensures Reaches(path[0], path[i])
  {
    var part := path[..i + 1];
    forall j | 0 <= j < |part| - 1
      ensures Step(part[j], part[j + 1])
    {
      assert Step(path[j], path[j + 1]);
    }
    assert IsPath(part);
  }

  lemma OnRunIsReachable(run: seq<World>, i: nat)
    requires IsRun(run) && i < |run|
    ensures Reachable(run[i])
  {
    RunKeepsInv(run, i);
    Prefix(run, i);
  }

  lemma OneStep(w: World, e: Event)
    requires Reachable(w) && Enabled(w, e)
    ensures Reaches(w, Apply(w, e)) && Reachable(Apply(w, e))
  {
    ReachableInv(w);
    StepKeepsInv(w, e);
    StepReaches(w, Apply(w, e), e);
    ReachesOn(Start(), w, Apply(w, e));
  }

  /** Along any path every stream keeps what it refused. */
  lemma {:induction false} PathKeepsRefused(path: seq<World>, i: nat)
    requires IsPath(path) && Inv(path[0]) && i < |path|
    ensures Inv(path[i]) && RefusedStays(path[0], path[i])
  {
    if i > 0 {
      PathKeepsRefused(path, i - 1);
      assert Step(path[i - 1], path[i - 1 + 1]);
      StepKeepsRefused(path[i - 1], path[i]);
    }
  }

  ghost predicate RefusedStays(w: World, w': World) {
    && |w.ordered| == |w'.ordered| == 4
    && (forall c :: 0 <= c < 4 ==> w.ordered[c].s.refused <= w'.ordered[c].s.refused)
    && w.unordered.s.refused <= w'.unordered.s.refused
  }

  lemma StepKeepsRefused(w: World, w': World)
    requires Inv(w) && Step(w, w')
    ensures Inv(w') && RefusedStays(w, w')
  {
    NextKeepsInv(w, w');
    ExtendKeepsRefused(w, w');
  }

  lemma ExtendKeepsRefused(w: World, w': World)
    requires Inv(w) && AllExtend(w, w')
    ensures RefusedStays(w, w')
  {
    forall c | 0 <= c < 4
      ensures w.ordered[c].s.refused <= w'.ordered[c].s.refused
    {
      assert ChannelInv(w, c) && w'.ordered[c].Extends(w.ordered[c]);
    }
  }

  lemma ReachedKeepsRefused(w: World, w': World)
    requires Reachable(w) && Reaches(w, w')
    ensures Reachable(w') && RefusedStays(w, w')
  {
    ReachableInv(w);
    var path: seq<World> :| IsPath(path) && path[0] == w && path[|path| - 1] == w';
    PathKeepsRefused(path, |path| - 1);
    ReachesOn(Start(), w, w');
  }
}
