/**
 A connection in one direction: four ordered channels, the unordered reliable stream and the
 newest-only stream, all sharing one network that loses, duplicates and reorders data and
 acknowledgements. A datagram on the network may be delivered any number of times, in any order, and
 may be lost at any time; what is sent again comes out of the send buffer it was written to. The other
 direction is the same machine with the endpoints exchanged; the two share no state.
 */
module Connection {

  import opened Words
  import opened CacheBuffers
  import opened PacketFlags
  import opened Links
  import Tx = SendWindow
  import Rx = OrderedReceive
  import Ux = UnorderedReceive

  /** `n` is the true number behind the word `seqNo`; no step of either endpoint reads it. */
  datatype Datagram = Datagram(flags: bv8, seqNo: u32, data: Bytes, n: nat)

  datatype AckGram = AckGram(flags: bv8, seqNo: u32, n: nat)

  /** `mem` is what the send buffers hold, `others` the cache buffers that other users have taken. */
  datatype World = World(
    ordered: seq<OrderedLink>, unordered: UnorderedLink, newest: NewestLink,
    mgr: Manager, others: set<nat>, mem: map<nat, Datagram>, net: set<Datagram>, acks: set<AckGram>)

  datatype Event =
    | Send(opt: Options, data: Bytes, buffer: nat, now: u32)
    | Arrive(d: Datagram)
    | AckArrives(k: AckGram)
    | RepeatAll(now: u32, delay: u32, sending: set<nat>)
    | Lose(d: Datagram)
    | LoseAck(k: AckGram)
    | OtherTakes
    | OtherReturns(id: nat)

  ghost predicate Shape(w: World) {
    && |w.ordered| == 4   // g_channelMask + 1
    && (forall c :: 0 <= c < 4 ==> w.ordered[c].s.w.Valid() && w.ordered[c].rx.Valid())
    && w.unordered.s.w.Valid() && w.unordered.rx.Valid()
  }

  // ---------------------------------------------------------------------------------------------
  // Steps
  // ---------------------------------------------------------------------------------------------

  /** The buffer is in no pending slot: `PopPacketBuffer` hands out no other. */
  ghost predicate Unused(w: World, buffer: nat)
    requires Shape(w)
  {
    (forall c :: 0 <= c < 4 ==> w.ordered[c].s.Unused(buffer)) && w.unordered.s.Unused(buffer)
  }

  /** The window check can tell how far the next number is from the start, as it can below 2^32. */
  ghost predicate CanTell(s: Sender) {
    Tx.Told(s.t.start, |s.sent| + 1)
  }

  /**
   What can happen next. Numbers wrap at 2^32, so a datagram or acknowledgement that stayed in the
   network until the stream had gone almost all the way round would be mistaken for a new one; such
   arrivals are excluded, and so are sends a full turn past the start of the window.
   */
  ghost predicate Enabled(w: World, e: Event)
    requires Shape(w)
  {
    match e
    case Send(opt, _, buffer, _) =>
      && ValidOptions(opt) && Unused(w, buffer)
      && (match Meant(opt)
          case Ordered(c) => CanTell(w.ordered[c].s)
          case Unordered(_) => CanTell(w.unordered.s)
          case _ => true)
    case Arrive(d) =>
      && d in w.net
      && (match RouteOf(d.flags)
          case Ordered(c) => Unambiguous(w.ordered[c].r.recv, d.n)
          case Unordered(_) => Unambiguous(w.unordered.r.recv, d.n)
          case Newest => w.newest.InReach(d.n)
          case NoSuchChannel => true)
    case AckArrives(k) =>
      && k in w.acks
      && (match AckRouteOf(k.flags)
          case Ordered(c) => w.ordered[c].s.IsRecent(k.n)
          case _ => w.unordered.s.IsRecent(k.n))
    case RepeatAll(_, _, _) => true
    case Lose(_) => true
    case LoseAck(_) => true
    case OtherTakes => true
    case OtherReturns(id) => id in w.others
  }

  /** What goes out: the packet just written, unless the window check refused its number. */
  function Out(d: Datagram, refused: set<nat>): set<Datagram> {
    if d.n in refused then {} else {d}
  }

  /** `SendPacket`: the packet is written to a buffer and goes out unless the window check refuses it. */
  function SendStep(w: World, opt: Options, data: Bytes, buffer: nat, now: u32): World
    requires Shape(w) && ValidOptions(opt)
  {
    match Meant(opt)
    case Ordered(c) =>
      var s := w.ordered[c].s.Send(data, buffer, now);
      var d := Datagram(DataFlags(opt), s.w.send, data, |s.sent|);
      w.(ordered := w.ordered[c := w.ordered[c].(s := s)], mem := w.mem[buffer := d], net := w.net + Out(d, s.refused))
    case Unordered(chunk) =>
      var l := w.unordered.Send(data, chunk, buffer, now);
      var d := Datagram(DataFlags(opt), l.s.w.send, data, |l.s.sent|);
      w.(unordered := l, mem := w.mem[buffer := d], net := w.net + Out(d, l.s.refused))
    case _ =>
      var l := w.newest.Send(data);
      var d := Datagram(DataFlags(opt), l.send, data, |l.sent|);
      w.(newest := l, mem := w.mem[buffer := d], net := w.net + {d})
  }

  /** What an arrival adds to the acknowledgements. */
  function Answer(d: Datagram, ack: bool): set<AckGram> {
    if ack then {AckGram(AnswerFlags(d.flags), d.seqNo, d.n)} else {}
  }

  /** `RecvDispatch`, followed by `SendAck` if it answers true. */
  function ArriveStep(w: World, d: Datagram): World
    requires Shape(w)
  {
    match RouteOf(d.flags)
    case Ordered(c) =>
      var o := Rx.Receive(w.ordered[c].rx, w.mgr, d.seqNo, d.data);
      w.(ordered := w.ordered[c := w.ordered[c].Deliver(w.mgr, d.seqNo, d.data, d.n)], mgr := o.mgr,
         acks := w.acks + Answer(d, o.ack))
    case Unordered(chunk) =>
      var o := Ux.Receive(w.unordered.rx, d.seqNo);
      w.(unordered := w.unordered.Deliver(d.seqNo, d.n, chunk), acks := w.acks + Answer(d, o.ack))
    case Newest => w.(newest := w.newest.Deliver(d.seqNo, d.n))
    case NoSuchChannel => w
  }

  /** `RecvDispatchACK` while connected. */
  function AckStep(w: World, k: AckGram): World
    requires Shape(w)
  {
    match AckRouteOf(k.flags)
    case Ordered(c) => w.(ordered := w.ordered[c := w.ordered[c].(s := w.ordered[c].s.TakeAck(k.seqNo, k.n))])
    case Unordered(_) => w.(unordered := w.unordered.(s := w.unordered.s.TakeAck(k.seqNo, k.n)))
    case _ => w
  }

  /** The buffers `RepeatMessageAll` gives to the socket. */
  function AllResent(w: World, now: u32, delay: u32, sending: set<nat>): seq<nat>
    requires Shape(w)
  {
    w.unordered.s.Resent(now, delay, sending) +
    w.ordered[0].s.Resent(now, delay, sending) + w.ordered[1].s.Resent(now, delay, sending) +
    w.ordered[2].s.Resent(now, delay, sending) + w.ordered[3].s.Resent(now, delay, sending)
  }

  /** What the given buffers hold. */
  function Copies(mem: map<nat, Datagram>, buffers: seq<nat>): set<Datagram> {
    set b | b in buffers && b in mem :: mem[b]
  }

  /** `RepeatMessageAll`: the contents of the buffers it sends again go out. */
  function RepeatStep(w: World, now: u32, delay: u32, sending: set<nat>): World
    requires Shape(w)
  {
    w.(ordered := seq(4, c requires 0 <= c < 4 => w.ordered[c].(s := w.ordered[c].s.Repeat(now, delay, sending))),
       unordered := w.unordered.(s := w.unordered.s.Repeat(now, delay, sending)),
       net := w.net + Copies(w.mem, AllResent(w, now, delay, sending)))
  }

  function Apply(w: World, e: Event): World
    requires Shape(w) && (e.Send? ==> ValidOptions(e.opt))
  {
    match e
    case Send(opt, data, buffer, now) => SendStep(w, opt, data, buffer, now)
    case Arrive(d) => ArriveStep(w, d)
    case AckArrives(k) => AckStep(w, k)
    case RepeatAll(now, delay, sending) => RepeatStep(w, now, delay, sending)
    case Lose(d) => w.(net := w.net - {d})
    case LoseAck(k) => w.(acks := w.acks - {k})
    case OtherTakes => w.(mgr := w.mgr.Pop(), others := w.others + {w.mgr.Next()})
    case OtherReturns(id) => w.(mgr := w.mgr.Push(id), others := w.others - {id})
  }

  function Start(): World {
    World(seq(4, _ => NewOrderedLink()), NewUnorderedLink(), NewestLink(0, 0, [], []),
          Manager([], {}, 0), {}, map[], {}, {})
  }

  ghost predicate Step(w: World, w': World) {
    Shape(w) && exists e :: Enabled(w, e) && w' == Apply(w, e)
  }

  ghost predicate IsPath(path: seq<World>) {
    |path| > 0 && forall i :: 0 <= i < |path| - 1 ==> Step(path[i], path[i + 1])
  }

  ghost predicate IsRun(run: seq<World>) {
    IsPath(run) && run[0] == Start()
  }

  // ---------------------------------------------------------------------------------------------
  // Invariant
  // ---------------------------------------------------------------------------------------------

  /** The packet a sender gave number `n`, as it goes out under the given flags. */
  function PacketAs(s: Sender, flags: bv8, n: nat): Datagram
    requires 0 < n <= |s.sent|
  {
    Datagram(flags, W(n), s.sent[n - 1], n)
  }

  /** The flags of channel `c`. */
  function ChannelFlags(c: nat): bv8
    requires c < 4
  {
    DataFlags(Options(true, true, if c == 0 then 0 else if c == 1 then 1 else if c == 2 then 2 else 3, false))
  }

  /** The flags of the unordered stream. */
  function StreamFlags(chunk: bool): bv8 {
    DataFlags(Options(true, false, 0, chunk))
  }

  /** A datagram carries the packet its sender gave that number. */
  ghost predicate IsPacket(s: Sender, d: Datagram) {
    s.Accepted(d.n) && d == PacketAs(s, d.flags, d.n)
  }

  ghost predicate NewestGenuine(l: NewestLink, d: Datagram) {
    d.seqNo == W(d.n) && 0 < d.n <= |l.sent| && d.data == l.sent[d.n - 1]
  }

  ghost predicate Genuine(w: World, d: Datagram)
    requires Shape(w)
  {
    match RouteOf(d.flags)
    case Ordered(c) => IsPacket(w.ordered[c].s, d)
    case Unordered(chunk) => IsPacket(w.unordered.s, d) && chunk == (d.n in w.unordered.chunks)
    case Newest => NewestGenuine(w.newest, d)
    case NoSuchChannel => false
  }

  /** An acknowledgement names a packet that the receiver holds. */
  ghost predicate Earned(w: World, k: AckGram)
    requires Shape(w)
  {
    match AckRouteOf(k.flags)
    case Ordered(c) => k.seqNo == W(k.n) && w.ordered[c].s.Accepted(k.n) && w.ordered[c].r.Holds(k.n)
    case Unordered(_) => k.seqNo == W(k.n) && w.unordered.s.Accepted(k.n) && w.unordered.r.Holds(k.n)
    case _ => false
  }

  /** The buffer of pending number `n` holds its own packet. */
  ghost predicate Stores(mem: map<nat, Datagram>, s: Sender, flags: bv8, n: nat)
    requires n in s.t.pending
  {
    var b := s.t.pending[n].buffer;
    0 < n <= |s.sent| && b in mem && mem[b] == PacketAs(s, flags, n)
  }

  ghost predicate ChannelMem(mem: map<nat, Datagram>, s: Sender, flags: bv8) {
    forall n :: n in s.t.pending ==> Stores(mem, s, flags, n)
  }

  ghost predicate StreamMem(mem: map<nat, Datagram>, s: Sender, chunks: set<nat>) {
    forall n :: n in s.t.pending ==> Stores(mem, s, StreamFlags(n in chunks), n)
  }

  ghost predicate ChannelInv(w: World, c: nat)
    requires Shape(w) && c < 4
  {
    w.ordered[c].Inv() && ChannelMem(w.mem, w.ordered[c].s, ChannelFlags(c))
  }

  ghost predicate StreamInv(w: World) {
    w.unordered.Inv() && StreamMem(w.mem, w.unordered.s, w.unordered.chunks)
  }

  ghost predicate AllGenuine(w: World)
    requires Shape(w)
  {
    && (forall d :: d in w.net ==> Genuine(w, d))
    && (forall k :: k in w.acks ==> Earned(w, k))
  }

  ghost predicate Inv(w: World) {
    && Shape(w)
    && (forall c: nat :: c < 4 ==> ChannelInv(w, c))
    && StreamInv(w)
    && w.newest.Inv()
    && AllGenuine(w)
  }

  lemma StartInv()
    ensures Inv(Start())
  {
    NewOrderedLinkInv();
    NewUnorderedLinkInv();
  }

  /** What each stream keeps of the state before. */
  ghost predicate AllExtend(w: World, w': World) {
    && |w.ordered| == |w'.ordered| == 4
    && (forall c :: 0 <= c < 4 ==> w'.ordered[c].Extends(w.ordered[c]))
    && w'.unordered.Extends(w.unordered)
    && w.newest.sent <= w'.newest.sent
  }

  /** A datagram stays genuine, and an acknowledgement earned, as the streams go on. */
  lemma GenuineStays(w: World, w': World, d: Datagram)
    requires Shape(w) && Shape(w') && AllExtend(w, w') && Genuine(w, d)
    ensures Genuine(w', d)
  {
  }

  lemma EarnedStays(w: World, w': World, k: AckGram)
    requires Shape(w) && Shape(w') && AllExtend(w, w') && Earned(w, k)
    ensures Earned(w', k)
  {
  }

  /** A step that keeps the streams and adds only genuine messages keeps the invariant. */
  lemma StepFrom(w: World, w': World)
    requires Inv(w) && Shape(w') && AllExtend(w, w')
    requires forall c: nat :: c < 4 ==> ChannelInv(w', c)
    requires StreamInv(w') && w'.newest.Inv()
    requires forall d :: d in w'.net ==> d in w.net || Genuine(w', d)
    requires forall k :: k in w'.acks ==> k in w.acks || Earned(w', k)
    ensures Inv(w')
  {
    forall d | d in w'.net
      ensures Genuine(w', d)
    {
      if d in w.net {
        GenuineStays(w, w', d);
      }
    }
    forall k | k in w'.acks
      ensures Earned(w', k)
    {
      if k in w.acks {
        EarnedStays(w, w', k);
      }
    }
  }

  // ---------------------------------------------------------------------------------------------
  // Sending
  // ---------------------------------------------------------------------------------------------

  /** Writing to an unused buffer leaves what is pending in place. */
  lemma OthersStored(mem: map<nat, Datagram>, s: Sender, buffer: nat, d: Datagram, n: nat, flags: bv8)
    requires s.Inv() && s.Unused(buffer) && n in s.t.pending && Stores(mem, s, flags, n)
    ensures Stores(mem[buffer := d], s, flags, n)
  {
    UnusedIsNotPending(s, buffer);
  }

  /** A packet just sent is stored in its buffer, and those before it still are. */
  lemma SentStored(mem: map<nat, Datagram>, s: Sender, data: Bytes, buffer: nat, now: u32, d: Datagram, n: nat, flags: bv8)
    requires s.Inv() && s.Unused(buffer) && CanTell(s)
    requires var s' := s.Send(data, buffer, now);
             && d.seqNo == s'.w.send && d.data == data && d.n == |s'.sent|
             && n in s'.t.pending && (n == |s'.sent| ==> flags == d.flags)
    requires n in s.t.pending ==> Stores(mem, s, flags, n)
    ensures Stores(mem[buffer := d], s.Send(data, buffer, now), flags, n)
  {
    SenderSends(s, data, buffer, now);
    UnusedIsNotPending(s, buffer);
  }

  /** What goes out is a packet of its sender. */
  lemma OutIsPacket(s: Sender, data: Bytes, buffer: nat, now: u32, d: Datagram)
    requires s.Inv() && CanTell(s)
    requires var s' := s.Send(data, buffer, now);
             d.seqNo == s'.w.send && d.data == data && d.n == |s'.sent|
    ensures forall x :: x in Out(d, s.Send(data, buffer, now).refused) ==> x == d && IsPacket(s.Send(data, buffer, now), d)
  {
    SenderSends(s, data, buffer, now);
  }

  lemma ChannelsAfterSend(w: World, w': World, buffer: nat, d: Datagram, c: nat)
    requires Inv(w) && Shape(w') && Unused(w, buffer) && w'.mem == w.mem[buffer := d]
    requires forall x :: 0 <= x < 4 && x != c ==> w'.ordered[x] == w.ordered[x]
    ensures forall x: nat :: x < 4 && x != c ==> ChannelInv(w', x)
  {
    forall x: nat | x < 4 && x != c
      ensures ChannelInv(w', x)
    {
      assert ChannelInv(w, x);
      forall n | n in w.ordered[x].s.t.pending
        ensures Stores(w'.mem, w'.ordered[x].s, ChannelFlags(x), n)
      {
        OthersStored(w.mem, w.ordered[x].s, buffer, d, n, ChannelFlags(x));
      }
    }
  }

  lemma StreamAfterSend(w: World, w': World, buffer: nat, d: Datagram)
    requires Inv(w) && Shape(w') && Unused(w, buffer) && w'.mem == w.mem[buffer := d] && w'.unordered == w.unordered
    ensures StreamInv(w')
  {
    forall n | n in w.unordered.s.t.pending
      ensures Stores(w'.mem, w'.unordered.s, StreamFlags(n in w.unordered.chunks), n)
    {
      OthersStored(w.mem, w.unordered.s, buffer, d, n, StreamFlags(n in w.unordered.chunks));
    }
  }

  lemma FlagsMeant(opt: Options)
    requires ValidOptions(opt)
    ensures RouteOf(DataFlags(opt)) == Meant(opt)
    ensures Meant(opt).Ordered? ==> DataFlags(opt) == ChannelFlags(Meant(opt).channel)
    ensures Meant(opt).Unordered? ==> DataFlags(opt) == StreamFlags(Meant(opt).chunk)
  {
    DataArrives(opt);
  }

  /** The channel a packet is sent on. */
  lemma OwnChannelAfterSend(w: World, c: nat, data: Bytes, buffer: nat, now: u32, d: Datagram)
    requires Inv(w) && c < 4 && w.ordered[c].s.Unused(buffer) && CanTell(w.ordered[c].s) && d.flags == ChannelFlags(c)
    requires var s' := w.ordered[c].s.Send(data, buffer, now);
             d.seqNo == s'.w.send && d.data == data && d.n == |s'.sent|
    ensures var l := w.ordered[c].(s := w.ordered[c].s.Send(data, buffer, now));
            && l.Inv() && l.Extends(w.ordered[c]) && ChannelMem(w.mem[buffer := d], l.s, ChannelFlags(c))
            && forall x :: x in Out(d, l.s.refused) ==> x == d && IsPacket(l.s, d)
  {
    assert ChannelInv(w, c);
    SendKeeps(w.ordered[c], data, buffer, now);
    OutIsPacket(w.ordered[c].s, data, buffer, now, d);
    forall n | n in w.ordered[c].s.Send(data, buffer, now).t.pending
      ensures Stores(w.mem[buffer := d], w.ordered[c].s.Send(data, buffer, now), ChannelFlags(c), n)
    {
      SentStored(w.mem, w.ordered[c].s, data, buffer, now, d, n, ChannelFlags(c));
    }
  }

  /** The packet is sent on channel `c`. */
  lemma SentOnChannel(w: World, w': World, c: nat, buffer: nat, d: Datagram, out: set<Datagram>)
    requires Inv(w) && Shape(w') && c < 4 && Unused(w, buffer) && RouteOf(d.flags) == Ordered(c)
    requires w' == w.(ordered := w.ordered[c := w'.ordered[c]], mem := w.mem[buffer := d], net := w.net + out)
    requires ChannelInv(w', c) && w'.ordered[c].Extends(w.ordered[c])
    requires forall x :: x in out ==> x == d && IsPacket(w'.ordered[c].s, d)
    ensures Inv(w') && AllExtend(w, w')
  {
    ChannelsAfterSend(w, w', buffer, d, c);
    StreamAfterSend(w, w', buffer, d);
    StepFrom(w, w');
  }

  lemma SendStepOn(w: World, opt: Options, c: nat, data: Bytes, buffer: nat, now: u32, s': Sender, d: Datagram)
    requires Shape(w) && ValidOptions(opt) && Meant(opt) == Ordered(c)
    requires s' == w.ordered[c].s.Send(data, buffer, now) && d == Datagram(DataFlags(opt), s'.w.send, data, |s'.sent|)
    ensures SendStep(w, opt, data, buffer, now) ==
            w.(ordered := w.ordered[c := w.ordered[c].(s := s')], mem := w.mem[buffer := d], net := w.net + Out(d, s'.refused))
  {
  }

  lemma SendOrderedKeepsInv(w: World, opt: Options, c: nat, data: Bytes, buffer: nat, now: u32)
    requires Inv(w) && Enabled(w, Send(opt, data, buffer, now)) && Meant(opt) == Ordered(c)
    ensures Inv(SendStep(w, opt, data, buffer, now)) && AllExtend(w, SendStep(w, opt, data, buffer, now))
  {
    FlagsMeant(opt);
    var s' := w.ordered[c].s.Send(data, buffer, now);
    var d := Datagram(DataFlags(opt), s'.w.send, data, |s'.sent|);
    OwnChannelAfterSend(w, c, data, buffer, now, d);
    SendStepOn(w, opt, c, data, buffer, now, s', d);
    SentOnChannel(w, SendStep(w, opt, data, buffer, now), c, buffer, d, Out(d, s'.refused));
  }

  /** The unordered stream, if the packet is sent on it. */
  lemma OwnStreamAfterSend(w: World, data: Bytes, chunk: bool, buffer: nat, now: u32, d: Datagram)
    requires Inv(w) && w.unordered.s.Unused(buffer) && CanTell(w.unordered.s) && d.flags == StreamFlags(chunk)
    requires var s' := w.unordered.s.Send(data, buffer, now);
             d.seqNo == s'.w.send && d.data == data && d.n == |s'.sent|
    ensures var l := w.unordered.Send(data, chunk, buffer, now);
            && l.Inv() && l.Extends(w.unordered) && StreamMem(w.mem[buffer := d], l.s, l.chunks)
            && (d.n in l.chunks <==> chunk)
            && forall x :: x in Out(d, l.s.refused) ==> x == d && IsPacket(l.s, d)
  {
    var l, l' := w.unordered, w.unordered.Send(data, chunk, buffer, now);
    UnorderedSendKeeps(l, data, chunk, buffer, now);
    OutIsPacket(l.s, data, buffer, now, d);
    assert |l'.s.sent| !in l.chunks;
    forall n | n in l'.s.t.pending
      ensures Stores(w.mem[buffer := d], l'.s, StreamFlags(n in l'.chunks), n)
    {
      SentStored(w.mem, l.s, data, buffer, now, d, n, StreamFlags(n in l'.chunks));
    }
  }

  /** The packet is sent on the unordered stream. */
  lemma SentOnStream(w: World, w': World, buffer: nat, d: Datagram, out: set<Datagram>)
    requires Inv(w) && Shape(w') && Unused(w, buffer) && RouteOf(d.flags) == Unordered(d.n in w'.unordered.chunks)
    requires w' == w.(unordered := w'.unordered, mem := w.mem[buffer := d], net := w.net + out)
    requires StreamInv(w') && w'.unordered.Extends(w.unordered)
    requires forall x :: x in out ==> x == d && IsPacket(w'.unordered.s, d)
    ensures Inv(w') && AllExtend(w, w')
  {
    ChannelsAfterSend(w, w', buffer, d, 4);
    StepFrom(w, w');
  }

  lemma SendUnorderedKeepsInv(w: World, opt: Options, chunk: bool, data: Bytes, buffer: nat, now: u32)
    requires Inv(w) && Enabled(w, Send(opt, data, buffer, now)) && Meant(opt) == Unordered(chunk)
    ensures Inv(SendStep(w, opt, data, buffer, now)) && AllExtend(w, SendStep(w, opt, data, buffer, now))
  {
    FlagsMeant(opt);
    var s' := w.unordered.s.Send(data, buffer, now);
    var d := Datagram(DataFlags(opt), s'.w.send, data, |s'.sent|);
    OwnStreamAfterSend(w, data, chunk, buffer, now, d);
    SentOnStream(w, SendStep(w, opt, data, buffer, now), buffer, d, Out(d, s'.refused));
  }

  lemma SendKeepsInv(w: World, opt: Options, data: Bytes, buffer: nat, now: u32)
    requires Inv(w) && Enabled(w, Send(opt, data, buffer, now))
    ensures Inv(SendStep(w, opt, data, buffer, now)) && AllExtend(w, SendStep(w, opt, data, buffer, now))
  {
    match Meant(opt) {
      case Ordered(c) => SendOrderedKeepsInv(w, opt, c, data, buffer, now);
      case Unordered(chunk) => SendUnorderedKeepsInv(w, opt, chunk, data, buffer, now);
      case Newest =>
        FlagsMeant(opt);
        NewestSendKeeps(w.newest, data);
        var w', l := SendStep(w, opt, data, buffer, now), w.newest.Send(data);
        var d := Datagram(DataFlags(opt), l.send, data, |l.sent|);
        ChannelsAfterSend(w, w', buffer, d, 4);
        StreamAfterSend(w, w', buffer, d);
        StepFrom(w, w');
    }
  }

  // ---------------------------------------------------------------------------------------------
  // Arrivals
  // ---------------------------------------------------------------------------------------------

  /** What an arrival on channel `c` changes. */
  lemma ArrivalDelivers(w: World, d: Datagram, c: nat)
    requires Shape(w) && RouteOf(d.flags) == Ordered(c)
    ensures c < 4
    ensures var l, o := w.ordered[c], Rx.Receive(w.ordered[c].rx, w.mgr, d.seqNo, d.data);
            ArriveStep(w, d) == w.(ordered := w.ordered[c := l.Deliver(w.mgr, d.seqNo, d.data, d.n)], mgr := o.mgr,
                                   acks := w.acks + Answer(d, o.ack))
  {
  }

  lemma ChannelDelivers(w: World, d: Datagram, c: nat)
    requires Inv(w) && c < 4 && IsPacket(w.ordered[c].s, d) && Unambiguous(w.ordered[c].r.recv, d.n)
    ensures var l := w.ordered[c].Deliver(w.mgr, d.seqNo, d.data, d.n);
            && l.Inv() && l.Extends(w.ordered[c]) && l.s == w.ordered[c].s
            && ChannelMem(w.mem, l.s, ChannelFlags(c))
            && (Rx.Receive(w.ordered[c].rx, w.mgr, d.seqNo, d.data).ack ==> l.r.Holds(d.n))
  {
    assert ChannelInv(w, c);
    DeliverKeeps(w.ordered[c], w.mgr, d.n);
  }

  lemma ArriveOrderedKeepsInv(w: World, d: Datagram, c: nat)
    requires Inv(w) && Enabled(w, Arrive(d)) && RouteOf(d.flags) == Ordered(c)
    ensures Inv(ArriveStep(w, d)) && AllExtend(w, ArriveStep(w, d))
  {
    assert Genuine(w, d);
    ArrivalDelivers(w, d, c);
    ChannelDelivers(w, d, c);
    AnswerReturns(d.flags);
    OtherChannels(w, ArriveStep(w, d), c);
    StepFrom(w, ArriveStep(w, d));
  }

  lemma ArriveUnorderedKeepsInv(w: World, d: Datagram)
    requires Inv(w) && Enabled(w, Arrive(d)) && RouteOf(d.flags).Unordered?
    ensures Inv(ArriveStep(w, d)) && AllExtend(w, ArriveStep(w, d))
  {
    assert Genuine(w, d);
    AnswerReturns(d.flags);
    UnorderedDeliverKeeps(w.unordered, d.n);
    var w' := ArriveStep(w, d);
    assert w'.unordered.s == w.unordered.s && w'.unordered.chunks == w.unordered.chunks;
    SameChannels(w, w');
    StepFrom(w, w');
  }

  lemma OtherChannels(w: World, w': World, c: nat)
    requires Inv(w) && Shape(w') && w'.mem == w.mem && c < 4 && w'.ordered == w.ordered[c := w'.ordered[c]]
    requires ChannelInv(w', c) && w'.ordered[c].Extends(w.ordered[c])
    ensures forall x: nat :: x < 4 ==> ChannelInv(w', x) && w'.ordered[x].Extends(w.ordered[x])
  {
    forall x: nat | x < 4
      ensures ChannelInv(w', x)
    {
      assert ChannelInv(w, x);
    }
  }

  lemma SameChannels(w: World, w': World)
    requires Inv(w) && Shape(w') && w'.ordered == w.ordered && w'.mem == w.mem
    ensures forall c: nat :: c < 4 ==> ChannelInv(w', c)
  {
    forall c: nat | c < 4
      ensures ChannelInv(w', c)
    {
      assert ChannelInv(w, c);
    }
  }

  lemma ArriveKeepsInv(w: World, d: Datagram)
    requires Inv(w) && Enabled(w, Arrive(d))
    ensures Inv(ArriveStep(w, d)) && AllExtend(w, ArriveStep(w, d))
  {
    assert Genuine(w, d);
    match RouteOf(d.flags) {
      case Ordered(c) => ArriveOrderedKeepsInv(w, d, c);
      case Unordered(_) => ArriveUnorderedKeepsInv(w, d);
      case Newest =>
        NewestDeliverKeeps(w.newest, d.n);
        SameChannels(w, ArriveStep(w, d));
        StepFrom(w, ArriveStep(w, d));
    }
  }

  /** With fewer packets pending, what is pending is still stored. */
  lemma StoresFewer(mem: map<nat, Datagram>, s: Sender, s': Sender, flags: bv8, n: nat)
    requires s'.sent == s.sent && n in s.t.pending && n in s'.t.pending
    requires s'.t.pending[n].buffer == s.t.pending[n].buffer && Stores(mem, s, flags, n)
    ensures Stores(mem, s', flags, n)
  {
  }

  lemma ChannelTakesAck(w: World, k: AckGram, c: nat)
    requires Inv(w) && c < 4 && w.ordered[c].s.Accepted(k.n) && w.ordered[c].r.Holds(k.n) && w.ordered[c].s.IsRecent(k.n)
    ensures var l := w.ordered[c].(s := w.ordered[c].s.TakeAck(W(k.n), k.n));
            l.Inv() && l.Extends(w.ordered[c]) && ChannelMem(w.mem, l.s, ChannelFlags(c))
  {
    assert ChannelInv(w, c);
    AckKeeps(w.ordered[c], k.n);
    var s, s' := w.ordered[c].s, w.ordered[c].s.TakeAck(W(k.n), k.n);
    forall n | n in s'.t.pending
      ensures Stores(w.mem, s', ChannelFlags(c), n)
    {
      StoresFewer(w.mem, s, s', ChannelFlags(c), n);
    }
  }

  lemma AckOrderedKeepsInv(w: World, k: AckGram, c: nat)
    requires Inv(w) && Enabled(w, AckArrives(k)) && AckRouteOf(k.flags) == Ordered(c)
    ensures Inv(AckStep(w, k)) && AllExtend(w, AckStep(w, k))
  {
    assert Earned(w, k);
    ChannelTakesAck(w, k, c);
    OtherChannels(w, AckStep(w, k), c);
    StepFrom(w, AckStep(w, k));
  }

  lemma AckUnorderedKeepsInv(w: World, k: AckGram)
    requires Inv(w) && Enabled(w, AckArrives(k)) && AckRouteOf(k.flags).Unordered?
    ensures Inv(AckStep(w, k)) && AllExtend(w, AckStep(w, k))
  {
    assert Earned(w, k);
    UnorderedAckKeeps(w.unordered, k.n);
    var w' := AckStep(w, k);
    var s, s' := w.unordered.s, w'.unordered.s;
    forall n | n in s'.t.pending
      ensures Stores(w.mem, s', StreamFlags(n in w.unordered.chunks), n)
    {
      StoresFewer(w.mem, s, s', StreamFlags(n in w.unordered.chunks), n);
    }
    SameChannels(w, w');
    StepFrom(w, w');
  }

  lemma AckKeepsInv(w: World, k: AckGram)
    requires Inv(w) && Enabled(w, AckArrives(k))
    ensures Inv(AckStep(w, k)) && AllExtend(w, AckStep(w, k))
  {
    assert Earned(w, k);
    match AckRouteOf(k.flags) {
      case Ordered(c) => AckOrderedKeepsInv(w, k, c);
      case Unordered(_) => AckUnorderedKeepsInv(w, k);
    }
  }

  // ---------------------------------------------------------------------------------------------
  // Resending
  // ---------------------------------------------------------------------------------------------

  /** What channel `c` sends again is what it sent. */
  lemma ChannelResends(w: World, c: nat, now: u32, delay: u32, sending: set<nat>, b: nat)
    requires Inv(w) && c < 4 && b in w.ordered[c].s.Resent(now, delay, sending) && b in w.mem
    ensures RouteOf(w.mem[b].flags) == Ordered(c) && IsPacket(w.ordered[c].s, w.mem[b])
  {
    assert ChannelInv(w, c);
    ResentIsPending(w.ordered[c].s, now, delay, sending, b);
    var n :| n in w.ordered[c].s.t.pending && w.ordered[c].s.t.pending[n].buffer == b;
    assert Stores(w.mem, w.ordered[c].s, ChannelFlags(c), n);
    FlagsMeant(Options(true, true, if c == 0 then 0 else if c == 1 then 1 else if c == 2 then 2 else 3, false));
  }

  lemma StreamResends(w: World, now: u32, delay: u32, sending: set<nat>, b: nat)
    requires Inv(w) && b in w.unordered.s.Resent(now, delay, sending) && b in w.mem
    ensures var d := w.mem[b];
            RouteOf(d.flags) == Unordered(d.n in w.unordered.chunks) && IsPacket(w.unordered.s, d)
  {
    ResentIsPending(w.unordered.s, now, delay, sending, b);
    var n :| n in w.unordered.s.t.pending && w.unordered.s.t.pending[n].buffer == b;
    assert Stores(w.mem, w.unordered.s, StreamFlags(n in w.unordered.chunks), n);
    FlagsMeant(Options(true, false, 0, n in w.unordered.chunks));
  }

  /** Everything that is sent again is a packet that was sent before. */
  lemma ResentIsGenuine(w: World, now: u32, delay: u32, sending: set<nat>, b: nat)
    requires Inv(w) && b in AllResent(w, now, delay, sending) && b in w.mem
    ensures Genuine(w, w.mem[b])
  {
    if b in w.unordered.s.Resent(now, delay, sending) {
      StreamResends(w, now, delay, sending, b);
    } else {
      var c :| 0 <= c < 4 && b in w.ordered[c].s.Resent(now, delay, sending);
      ChannelResends(w, c, now, delay, sending, b);
    }
  }

  lemma RepeatChannel(w: World, c: nat, now: u32, delay: u32, sending: set<nat>)
    requires Inv(w) && c < 4
    ensures var l := w.ordered[c].(s := w.ordered[c].s.Repeat(now, delay, sending));
            l.Inv() && l.Extends(w.ordered[c]) && ChannelMem(w.mem, l.s, ChannelFlags(c))
  {
    assert ChannelInv(w, c);
    RepeatKeeps(w.ordered[c], now, delay, sending);
    SenderRepeats(w.ordered[c].s, now, delay, sending);
    var s, s' := w.ordered[c].s, w.ordered[c].s.Repeat(now, delay, sending);
    forall n | n in s'.t.pending
      ensures Stores(w.mem, s', ChannelFlags(c), n)
    {
      StoresFewer(w.mem, s, s', ChannelFlags(c), n);
    }
  }

  lemma RepeatStream(w: World, now: u32, delay: u32, sending: set<nat>)
    requires Inv(w)
    ensures var l := w.unordered.(s := w.unordered.s.Repeat(now, delay, sending));
            l.Inv() && l.Extends(w.unordered) && StreamMem(w.mem, l.s, l.chunks)
  {
    UnorderedRepeatKeeps(w.unordered, now, delay, sending);
    SenderRepeats(w.unordered.s, now, delay, sending);
    var s, s' := w.unordered.s, w.unordered.s.Repeat(now, delay, sending);
    forall n | n in s'.t.pending
      ensures Stores(w.mem, s', StreamFlags(n in w.unordered.chunks), n)
    {
      StoresFewer(w.mem, s, s', StreamFlags(n in w.unordered.chunks), n);
    }
  }

  lemma RepeatExtends(w: World, now: u32, delay: u32, sending: set<nat>)
    requires Inv(w)
    ensures var w' := RepeatStep(w, now, delay, sending);
            Shape(w') && AllExtend(w, w') && StreamInv(w') && forall c: nat :: c < 4 ==> ChannelInv(w', c)
  {
    var w' := RepeatStep(w, now, delay, sending);
    RepeatStream(w, now, delay, sending);
    forall c: nat | c < 4
      ensures w'.ordered[c].Inv() && w'.ordered[c].Extends(w.ordered[c]) && ChannelMem(w.mem, w'.ordered[c].s, ChannelFlags(c))
    {
      RepeatChannel(w, c, now, delay, sending);
    }
  }

  /** What goes out again is genuine afterwards, too. */
  lemma CopyIsGenuine(w: World, w': World, now: u32, delay: u32, sending: set<nat>, d: Datagram)
    requires Inv(w) && Shape(w') && AllExtend(w, w') && d in Copies(w.mem, AllResent(w, now, delay, sending))
    ensures Genuine(w', d)
  {
    var b :| b in AllResent(w, now, delay, sending) && b in w.mem && w.mem[b] == d;
    ResentIsGenuine(w, now, delay, sending, b);
    GenuineStays(w, w', d);
  }

  lemma RepeatKeepsInv(w: World, now: u32, delay: u32, sending: set<nat>)
    requires Inv(w)
    ensures Inv(RepeatStep(w, now, delay, sending)) && AllExtend(w, RepeatStep(w, now, delay, sending))
  {
    var w' := RepeatStep(w, now, delay, sending);
    RepeatExtends(w, now, delay, sending);
    forall d | d in w'.net && d !in w.net
      ensures Genuine(w', d)
    {
      CopyIsGenuine(w, w', now, delay, sending, d);
    }
    StepFrom(w, w');
  }

  // ---------------------------------------------------------------------------------------------
  // Every step
  // ---------------------------------------------------------------------------------------------

  /** What touches neither streams nor send buffers, and adds nothing to the network. */
  lemma QuietKeepsInv(w: World, w': World)
    requires Inv(w) && w'.ordered == w.ordered && w'.unordered == w.unordered && w'.newest == w.newest && w'.mem == w.mem
    requires w'.net <= w.net && w'.acks <= w.acks
    ensures Inv(w') && AllExtend(w, w')
  {
    SameChannels(w, w');
    StepFrom(w, w');
  }

  /** Every step keeps the invariant, and takes nothing back that any stream sent, refused or held. */
  lemma StepKeepsInv(w: World, e: Event)
    requires Inv(w) && Enabled(w, e)
    ensures Inv(Apply(w, e)) && AllExtend(w, Apply(w, e))
  {
    match e {
      case Send(opt, data, buffer, now) => SendKeepsInv(w, opt, data, buffer, now);
      case Arrive(d) => ArriveKeepsInv(w, d);
      case AckArrives(k) => AckKeepsInv(w, k);
      case RepeatAll(now, delay, sending) => RepeatKeepsInv(w, now, delay, sending);
      case _ => QuietKeepsInv(w, Apply(w, e));
    }
  }
}
