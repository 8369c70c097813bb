/**
 One stream in one direction: the sender's window and the receiver's state, driven by the steps of
 `SendWindow`, `OrderedReceive` and `UnorderedReceive`, together with what they did so far. The history
 fields (`sent`, `refused`, `parsed`, and the unbounded machines `t` and `r`) are never read by the
 32-bit steps.
 */
module Links {

  import opened Words
  import opened CacheBuffers
  import Tx = SendWindow
  import Rx = OrderedReceive
  import Ux = UnorderedReceive

  // ---------------------------------------------------------------------------------------------
  // The sender of a reliable stream
  // ---------------------------------------------------------------------------------------------

  /** `sent[n - 1]` is the packet numbered `n`, `refused` the numbers the window check turned away. */
  datatype Sender = Sender(w: Tx.Window, sent: seq<Bytes>, refused: set<nat>, t: Tx.Simple) {

    /** Number `n` was given out and its packet went to the network. */
    predicate Accepted(n: nat) {
      0 < n <= |sent| && n !in refused
    }

    /** ... and so did all before it. */
    ghost predicate Unbroken(n: nat) {
      0 < n <= |sent| && forall m :: m in refused ==> n < m
    }

    /** The window agrees with the map of pending packets, whatever was refused. */
    ghost predicate Inv() {
      && Tx.Agrees(w, t) && t.sent == |sent|
      && (forall n :: n in refused ==> 0 < n <= |sent|)
      && (forall n :: n in t.pending ==> n !in refused)
      && (forall n: nat :: Accepted(n) ==> n < t.start + 64)
      && (forall n: nat :: Unbroken(n) ==> n < t.next)
      && (refused == {} ==> t.next == if sent == [] then 0 else |sent| + 1)
      && (t.pending.Keys == {} ==> t.start == t.next)
    }

    /** What was sent and refused is never taken back. */
    ghost predicate Extends(s: Sender) {
      && s.sent <= sent
      && (forall n :: 0 < n <= |s.sent| ==> (n in refused <==> n in s.refused))
    }

    function Send(data: Bytes, buffer: nat, now: u32): Sender
      requires w.Valid()
    {
      var o := Tx.Send(w, buffer, now);
      Sender(o.w, sent + [data], if o.accepted then refused else refused + {|sent| + 1},
             Tx.SimpleSend(t, buffer, now).0)
    }

    function TakeAck(seqNo: u32, n: nat): Sender
      requires w.Valid()
    {
      this.(w := Tx.Ack(w, seqNo).w, t := Tx.SimpleAck(t, n))
    }

    function Repeat(now: u32, delay: u32, sending: set<nat>): Sender
      requires w.Valid()
    {
      this.(w := Tx.Repeat(w, w.start, now, delay, sending, []).w,
            t := Tx.SimpleRepeat(t, t.start, now, delay, sending))
    }

    /** The buffers that `Repeat` gives to the socket. */
    function Resent(now: u32, delay: u32, sending: set<nat>): seq<nat>
      requires w.Valid()
    {
      Tx.Repeat(w, w.start, now, delay, sending, []).resent
    }

    /** The buffer is in no slot. */
    predicate Unused(buffer: nat)
      requires w.Valid()
    {
      forall i :: 0 <= i < 64 ==> w.pending[i].buffer != Some(buffer)
    }

    /** No acknowledgement of a number this old is under way any more. */
    predicate IsRecent(n: nat) {
      t.start + 64 <= n + 0x1_0000_0000
    }
  }

  function NewSender(): Sender {
    Sender(Tx.Initial(), [], {}, Tx.Simple(0, 0, 0, map[]))
  }

  lemma NewSenderInv()
    ensures NewSender().Inv()
  {
    Tx.InitialAgrees();
  }

  /** The next number is accepted. */
  lemma AcceptedKeeps(s: Sender, s': Sender, data: Bytes, buffer: nat, now: u32)
    requires s.Inv() && |s.sent| + 1 < s.t.start + 64 && s'.sent == s.sent + [data] && s'.refused == s.refused
    requires s'.t == Tx.SimpleSend(s.t, buffer, now).0 && Tx.Agrees(s'.w, s'.t)
    ensures s'.Inv()
  {
    var n := |s.sent| + 1;
    assert n in s'.t.pending;
    forall k: nat | s'.Unbroken(k)
      ensures k < s'.t.next
    {
      assert k < n ==> s.Unbroken(k);
    }
  }

  /** The next number is refused. */
  lemma RefusedKeeps(s: Sender, s': Sender, data: Bytes)
    requires s.Inv() && s'.sent == s.sent + [data] && s'.refused == s.refused + {|s.sent| + 1}
    requires s'.t == s.t.(sent := |s.sent| + 1) && Tx.Agrees(s'.w, s'.t)
    ensures s'.Inv()
  {
    var n := |s.sent| + 1;
    assert n in s'.refused;
    forall k: nat | s'.Unbroken(k)
      ensures k < s'.t.next
    {
      assert forall m :: m in s.refused ==> m in s'.refused;
      assert s.Unbroken(k);
    }
    forall k: nat | s'.Accepted(k)
      ensures k < s'.t.start + 64
    {
      assert s.Accepted(k);
    }
  }

  /** Every send keeps the window in order: one number more, pending or refused. */
  lemma SenderSends(s: Sender, data: Bytes, buffer: nat, now: u32)
    requires s.Inv() && Tx.Told(s.t.start, |s.sent| + 1)
    ensures var s', n := s.Send(data, buffer, now), |s.sent| + 1;
            && s'.Inv() && s'.Extends(s) && s'.w.send == W(n)
            && (s'.Accepted(n) <==> n < s.t.start + 64)
            && s'.t.start == s.t.start
            && s'.t.pending == if s'.Accepted(n) then s.t.pending[n := Tx.Entry(buffer, now)] else s.t.pending
  {
    Tx.SendRefines(s.w, s.t, buffer, now);
    var s' := s.Send(data, buffer, now);
    assert s'.sent[..|s.sent|] == s.sent;
    if |s.sent| + 1 < s.t.start + 64 {
      AcceptedKeeps(s, s', data, buffer, now);
    } else {
      RefusedKeeps(s, s', data);
    }
  }

  /** A step that gives out no number, and only takes pending packets away. */
  lemma SenderGoesOn(s: Sender, s': Sender)
    requires s.Inv() && Tx.Agrees(s'.w, s'.t) && s'.sent == s.sent && s'.refused == s.refused
    requires s'.t.sent == s.t.sent && s'.t.next == s.t.next && s.t.start <= s'.t.start
    requires forall n :: n in s'.t.pending ==> n in s.t.pending
    requires s'.t.pending.Keys == {} ==> s'.t.start == s'.t.next
    ensures s'.Inv() && s'.Extends(s)
  {
    forall n: nat | s'.Accepted(n)
      ensures n < s'.t.start + 64
    {
      assert s.Accepted(n);
    }
    forall n: nat | s'.Unbroken(n)
      ensures n < s'.t.next
    {
      assert s.Unbroken(n);
    }
  }

  /** An acknowledgement removes the packet it names and no other, whatever was refused. */
  lemma SenderTakesAck(s: Sender, n: nat)
    requires s.Inv() && s.Accepted(n) && s.IsRecent(n)
    ensures var s' := s.TakeAck(W(n), n);
            s'.Inv() && s'.Extends(s) && s'.t.pending == s.t.pending - {n}
  {
    Tx.RecentNamesOnly(s.t, n);
    Tx.AckRefines(s.w, s.t, n);
    SenderGoesOn(s, s.TakeAck(W(n), n));
  }

  lemma SenderRepeats(s: Sender, now: u32, delay: u32, sending: set<nat>)
    requires s.Inv()
    ensures var s' := s.Repeat(now, delay, sending);
            && s'.Inv() && s'.Extends(s)
            && s'.t.pending.Keys == s.t.pending.Keys && s'.t.start == s.t.start
            && (forall n :: n in s.t.pending ==> s'.t.pending[n].buffer == s.t.pending[n].buffer)
  {
    Tx.RepeatRefines(s.w, s.t, now, delay, sending);
    SenderGoesOn(s, s.Repeat(now, delay, sending));
  }

  /** What is resent are buffers of pending packets. */
  lemma ResentIsPending(s: Sender, now: u32, delay: u32, sending: set<nat>, b: nat)
    requires s.Inv() && b in s.Resent(now, delay, sending)
    ensures exists n :: n in s.t.pending && s.t.pending[n].buffer == b
  {
    Tx.RepeatRefines(s.w, s.t, now, delay, sending);
    var due := Tx.DueFrom(s.t, s.t.start, now, delay, sending);
    var i :| 0 <= i < |due| && Tx.BuffersOf(s.t, due)[i] == b;
    assert due[i] in s.t.pending;
  }

  /** With no delay and nothing in the kernel, every pending packet below the first refusal is resent. */
  lemma UnbrokenIsResent(s: Sender, n: nat)
    requires s.Inv() && n in s.t.pending && s.Unbroken(n)
    ensures s.t.pending[n].buffer in s.Resent(0, 0, {})
  {
    Tx.ResentIffBelowNext(s.w, s.t, n);
  }

  lemma UnusedIsNotPending(s: Sender, buffer: nat)
    requires s.Inv() && s.Unused(buffer)
    ensures forall n :: n in s.t.pending ==> s.t.pending[n].buffer != buffer
  {
    forall n | n in s.t.pending
      ensures s.t.pending[n].buffer != buffer
    {
      assert Tx.SlotAgrees(s.w, s.t, n);
    }
  }

  // ---------------------------------------------------------------------------------------------
  // An ordered channel
  // ---------------------------------------------------------------------------------------------

  /** `parsed` is what reached `PacketParse`. */
  datatype OrderedLink = OrderedLink(s: Sender, rx: Rx.Channel, parsed: seq<Bytes>, r: Rx.Simple) {

    ghost predicate Receives() {
      && Rx.Agrees(rx, r)
      && r.recv == |parsed| && parsed <= s.sent
      && Rx.CacheFrom(r, s.sent)
      && (forall n :: n in s.refused ==> !r.Holds(n))
    }

    /** Nothing accepted is lost. */
    ghost predicate Inv() {
      && s.Inv() && Receives()
      && forall n: nat :: s.Accepted(n) ==> n in s.t.pending || r.Holds(n)
    }

    /** What was sent, refused and held is never taken back. */
    ghost predicate Extends(l: OrderedLink) {
      s.Extends(l.s) && forall n: nat :: l.r.Holds(n) ==> r.Holds(n)
    }

    function Deliver(m: Manager, seqNo: u32, data: Bytes, n: nat): OrderedLink
      requires rx.Valid()
    {
      var o := Rx.Receive(rx, m, seqNo, data);
      this.(rx := o.ch, parsed := parsed + o.parsed, r := Rx.SimpleReceive(r, m, n, data).a)
    }
  }

  function NewOrderedLink(): OrderedLink {
    OrderedLink(NewSender(), Rx.Initial(), [], Rx.Simple(0, map[], 0))
  }

  lemma NewOrderedLinkInv()
    ensures NewOrderedLink().Inv()
  {
    NewSenderInv();
  }

  /** What the sender does by itself leaves the receiver in order. */
  lemma SenderStep(l: OrderedLink, s: Sender)
    requires l.Inv() && s.Inv() && s.Extends(l.s)
    requires forall n :: |l.s.sent| < n <= |s.sent| ==> n in s.t.pending || n in s.refused
    requires forall n :: n in l.s.t.pending ==> n in s.t.pending || l.r.Holds(n)
    ensures l.(s := s).Inv() && l.(s := s).Extends(l)
  {
    var l' := l.(s := s);
    forall n | n in s.refused
      ensures !l.r.Holds(n)
    {
      assert n <= |l.s.sent| ==> n in l.s.refused;
    }
    forall n: nat | s.Accepted(n)
      ensures n in s.t.pending || l'.r.Holds(n)
    {
      if n <= |l.s.sent| {
        assert l.s.Accepted(n);
      }
    }
  }

  lemma SendKeeps(l: OrderedLink, data: Bytes, buffer: nat, now: u32)
    requires l.Inv() && Tx.Told(l.s.t.start, |l.s.sent| + 1)
    ensures var l' := l.(s := l.s.Send(data, buffer, now));
            l'.Inv() && l'.Extends(l)
  {
    SenderSends(l.s, data, buffer, now);
    SenderStep(l, l.s.Send(data, buffer, now));
  }

  /** An acknowledgement arrives: the receiver holds the packet whose buffer it frees. */
  lemma AckKeeps(l: OrderedLink, n: nat)
    requires l.Inv() && l.s.Accepted(n) && l.r.Holds(n) && l.s.IsRecent(n)
    ensures var l' := l.(s := l.s.TakeAck(W(n), n));
            l'.Inv() && l'.Extends(l) && l'.s.t.pending == l.s.t.pending - {n}
  {
    SenderTakesAck(l.s, n);
    SenderStep(l, l.s.TakeAck(W(n), n));
  }

  lemma RepeatKeeps(l: OrderedLink, now: u32, delay: u32, sending: set<nat>)
    requires l.Inv()
    ensures var l' := l.(s := l.s.Repeat(now, delay, sending));
            l'.Inv() && l'.Extends(l)
  {
    SenderRepeats(l.s, now, delay, sending);
    SenderStep(l, l.s.Repeat(now, delay, sending));
  }

  /** Parsing the next few packets, and holding one more at most, keeps the invariant. */
  lemma HoldingKeeps(l: OrderedLink, rx: Rx.Channel, r: Rx.Simple, n: nat, ack: bool)
    requires l.Inv() && l.s.Accepted(n)
    requires Rx.Agrees(rx, r) && Rx.CacheFrom(r, l.s.sent) && l.r.recv <= r.recv <= |l.s.sent|
    requires forall k: nat :: r.Holds(k) <==> l.r.Holds(k) || (k == n && ack)
    ensures var l' := l.(rx := rx, parsed := l.parsed + l.s.sent[l.r.recv..r.recv], r := r);
            l'.Inv() && l'.Extends(l)
  {
    var l' := l.(rx := rx, parsed := l.parsed + l.s.sent[l.r.recv..r.recv], r := r);
    assert l'.parsed == l.s.sent[..r.recv];
  }

  /** A datagram of this channel arrives: what is parsed stays a prefix of what was sent. */
  lemma DeliverKeeps(l: OrderedLink, m: Manager, n: nat)
    requires l.Inv() && l.s.Accepted(n) && Unambiguous(l.r.recv, n)
    ensures var l' := l.Deliver(m, W(n), l.s.sent[n - 1], n);
            var o := Rx.Receive(l.rx, m, W(n), l.s.sent[n - 1]);
            && l'.Inv() && l'.Extends(l)
            && (o.ack ==> l'.r.Holds(n))
  {
    var data := l.s.sent[n - 1];
    Rx.ReceiveRefines(l.rx, l.r, m, n, data);
    Rx.ReceiveParses(l.r, m, n, l.s.sent);
    var o := Rx.SimpleReceive(l.r, m, n, data);
    HoldingKeeps(l, Rx.Receive(l.rx, m, W(n), data).ch, o.a, n, o.ack);
  }

  /** The next packet is parsed at once; one parsed less than a window ago is acknowledged again. */
  lemma DeliverProgress(l: OrderedLink, m: Manager, n: nat)
    requires l.Inv() && l.s.Accepted(n) && Unambiguous(l.r.recv, n)
    ensures var l' := l.Deliver(m, W(n), l.s.sent[n - 1], n);
            var o := Rx.Receive(l.rx, m, W(n), l.s.sent[n - 1]);
            && (n == l.r.recv + 1 ==> |l'.parsed| > |l.parsed|)
            && (l.r.recv - 64 < n <= l.r.recv ==> o.ack && l' == l)
  {
    Rx.ReceiveRefines(l.rx, l.r, m, n, l.s.sent[n - 1]);
    Distances(l.r.recv, n);
    if n == l.r.recv + 1 {
      Rx.NextParses(l.r, m, l.s.sent);
    }
  }

  /**
   The receiver stands at most 63 past the sender's start, and no further back than one before it,
   unless the number it waits for was refused.
   */
  lemma WindowsAgree(l: OrderedLink)
    requires l.Inv()
    ensures l.r.recv <= l.s.t.start + 63
    ensures l.r.recv + 1 !in l.s.refused ==> l.s.t.start - 1 <= l.r.recv
  {
    SenderWindow(l.s, l.r.recv);
  }

  /** The same for any receiver that holds everything up to `recv` and not the next number. */
  lemma SenderWindow(s: Sender, recv: nat)
    requires s.Inv() && recv <= |s.sent| && recv !in s.refused
    requires s.Accepted(recv + 1) ==> recv + 1 in s.t.pending
    ensures recv <= s.t.start + 63
    ensures recv + 1 !in s.refused ==> s.t.start - 1 <= recv
  {
    if recv > 0 {
      assert s.Accepted(recv);
    }
    if recv < |s.sent| && recv + 1 !in s.refused {
      assert s.Accepted(recv + 1);
    }
  }

  /**
   A pending packet that arrives is acknowledged, unless it is the very last the window admits and
   the receiver still waits for the very first.
   */
  lemma NoStall(l: OrderedLink, m: Manager, n: nat)
    requires l.Inv() && l.s.refused == {} && n in l.s.t.pending
    ensures Unambiguous(l.r.recv, n)
    ensures Rx.Receive(l.rx, m, W(n), l.s.sent[n - 1]).ack <==>
              !(n == l.s.t.start + 63 && l.r.recv + 1 == l.s.t.start)
  {
    WindowsAgree(l);
    NearIsUnambiguous(l.r.recv, n);
    Rx.ReceiveRefines(l.rx, l.r, m, n, l.s.sent[n - 1]);
    if n == l.r.recv + 1 {
      Rx.NextParses(l.r, m, l.s.sent);
    }
  }

  // ---------------------------------------------------------------------------------------------
  // The unordered reliable stream
  // ---------------------------------------------------------------------------------------------

  /**
   `chunks` are the numbers sent with the CHUNK flag. `parsed` lists the numbers handed on, in the
   order in which it happened, `pieces` those handed to `RecvChunckPacket`.
   */
  datatype UnorderedLink = UnorderedLink(
    s: Sender, chunks: set<nat>, rx: Ux.Stream, parsed: seq<nat>, pieces: seq<nat>, r: Ux.Simple)
  {
    ghost predicate Receives() {
      && Ux.Agrees(rx, r)
      && Ux.Once(parsed) && Ux.InWindow(parsed)
      && (forall n: nat :: n in parsed <==> 0 < n && r.Holds(n))
      && (forall n: nat :: r.Holds(n) ==> n <= |s.sent|)
      && (forall n :: n in s.refused ==> !r.Holds(n))
    }

    /** The pieces are the numbers handed on that were sent with the flag. */
    ghost predicate Sorts() {
      && (forall n :: n in chunks ==> 0 < n <= |s.sent|)
      && Ux.Once(pieces) && Ux.InWindowOf(chunks, pieces)
      && forall n: nat :: n in pieces <==> n in parsed && n in chunks
    }

    ghost predicate Inv() {
      && s.Inv() && Receives() && Sorts()
      && forall n: nat :: s.Accepted(n) ==> n in s.t.pending || r.Holds(n)
    }

    /** What was sent, refused and held is never taken back. */
    ghost predicate Extends(l: UnorderedLink) {
      && s.Extends(l.s)
      && (forall n :: 0 < n <= |l.s.sent| ==> (n in chunks <==> n in l.chunks))
      && (forall n: nat :: l.r.Holds(n) ==> r.Holds(n))
    }

    function Send(data: Bytes, chunk: bool, buffer: nat, now: u32): UnorderedLink
      requires s.w.Valid()
    {
      this.(s := s.Send(data, buffer, now), chunks := if chunk then chunks + {|s.sent| + 1} else chunks)
    }

    function Deliver(seqNo: u32, n: nat, chunk: bool): UnorderedLink
      requires rx.Valid()
    {
      var o := Ux.Receive(rx, seqNo);
      this.(rx := o.st, parsed := if o.parsed then parsed + [n] else parsed,
            pieces := if o.parsed && chunk then pieces + [n] else pieces, r := Ux.SimpleReceive(r, n).a)
    }
  }

  function NewUnorderedLink(): UnorderedLink {
    UnorderedLink(NewSender(), {}, Ux.Initial(), [], [], Ux.Simple(0, {}, 0))
  }

  lemma NewUnorderedLinkInv()
    ensures NewUnorderedLink().Inv()
  {
    NewSenderInv();
    Ux.InitialAgrees();
  }

  lemma UnorderedSenderStep(l: UnorderedLink, s: Sender, chunks: set<nat>)
    requires l.Inv() && s.Inv() && s.Extends(l.s)
    requires forall n :: |l.s.sent| < n <= |s.sent| ==> n in s.t.pending || n in s.refused
    requires forall n :: n in l.s.t.pending ==> n in s.t.pending || l.r.Holds(n)
    requires l.chunks <= chunks && forall n :: n in chunks && n !in l.chunks ==> |l.s.sent| < n <= |s.sent|
    ensures l.(s := s, chunks := chunks).Inv() && l.(s := s, chunks := chunks).Extends(l)
  {
    var l' := l.(s := s, chunks := chunks);
    forall n | n in s.refused
      ensures !l.r.Holds(n)
    {
      assert n <= |l.s.sent| ==> n in l.s.refused;
    }
    forall n: nat | s.Accepted(n)
      ensures n in s.t.pending || l'.r.Holds(n)
    {
      if n <= |l.s.sent| {
        assert l.s.Accepted(n);
      }
    }
    forall i, n | 0 <= i < |l.pieces| && n in chunks && n + 64 <= l.pieces[i]
      ensures n in l.pieces[..i]
    {
      assert l.pieces[i] in l.pieces;
      assert l.pieces[i] <= |l.s.sent|;
    }
  }

  lemma UnorderedSendKeeps(l: UnorderedLink, data: Bytes, chunk: bool, buffer: nat, now: u32)
    requires l.Inv() && Tx.Told(l.s.t.start, |l.s.sent| + 1)
    ensures l.Send(data, chunk, buffer, now).Inv() && l.Send(data, chunk, buffer, now).Extends(l)
  {
    SenderSends(l.s, data, buffer, now);
    UnorderedSenderStep(l, l.s.Send(data, buffer, now), l.Send(data, chunk, buffer, now).chunks);
  }

  lemma UnorderedAckKeeps(l: UnorderedLink, n: nat)
    requires l.Inv() && l.s.Accepted(n) && l.r.Holds(n) && l.s.IsRecent(n)
    ensures var l' := l.(s := l.s.TakeAck(W(n), n));
            l'.Inv() && l'.Extends(l) && l'.s.t.pending == l.s.t.pending - {n}
  {
    SenderTakesAck(l.s, n);
    UnorderedSenderStep(l, l.s.TakeAck(W(n), n), l.chunks);
  }

  lemma UnorderedRepeatKeeps(l: UnorderedLink, now: u32, delay: u32, sending: set<nat>)
    requires l.Inv()
    ensures var l' := l.(s := l.s.Repeat(now, delay, sending));
            l'.Inv() && l'.Extends(l)
  {
    SenderRepeats(l.s, now, delay, sending);
    UnorderedSenderStep(l, l.s.Repeat(now, delay, sending), l.chunks);
  }

  /** A datagram of this stream arrives: no number is handed on twice. */
  lemma UnorderedDeliverKeeps(l: UnorderedLink, n: nat)
    requires l.Inv() && l.s.Accepted(n) && Unambiguous(l.r.recv, n)
    ensures var l' := l.Deliver(W(n), n, n in l.chunks);
            && l'.Inv() && l'.Extends(l)
            && (Ux.Receive(l.rx, W(n)).ack ==> l'.r.Holds(n))
            && (n == l.r.recv + 1 ==> l'.r.recv > l.r.recv)
            && (l.r.recv - 64 < n <= l.r.recv ==> Ux.Receive(l.rx, W(n)).ack && l' == l)
  {
    Ux.ReceiveRefines(l.rx, l.r, n);
    Distances(l.r.recv, n);
    if n == l.r.recv + 1 {
      Ux.NextCounts(l.rx, l.r);
    }
    var l' := l.Deliver(W(n), n, n in l.chunks);
    if Ux.Receive(l.rx, W(n)).parsed {
      HandsOn(l, n);
    }
  }

  /** A new number is handed on: the logs stay as they should. */
  lemma HandsOn(l: UnorderedLink, n: nat)
    requires l.Receives() && l.Sorts() && n !in l.parsed && n < l.r.recv + 64
    ensures Ux.Once(l.parsed + [n]) && Ux.InWindow(l.parsed + [n])
    ensures var pieces := if n in l.chunks then l.pieces + [n] else l.pieces;
            && Ux.Once(pieces) && Ux.InWindowOf(l.chunks, pieces)
            && forall k: nat :: k in pieces <==> k in l.parsed + [n] && k in l.chunks
  {
    Ux.HandedOnNext(l.parsed, n);
    if n in l.chunks {
      forall k | k in l.chunks && k + 64 <= n
        ensures k in l.pieces
      {
        assert l.r.Holds(k);
      }
      Ux.HandedOnNextOf(l.chunks, l.pieces, n);
    }
  }

  lemma UnorderedWindowsAgree(l: UnorderedLink)
    requires l.Inv()
    ensures l.r.recv <= l.s.t.start + 63
    ensures l.r.recv + 1 !in l.s.refused ==> l.s.t.start - 1 <= l.r.recv
  {
    assert l.r.Holds(l.r.recv);
    SenderWindow(l.s, l.r.recv);
  }

  /** As for ordered channels. */
  lemma UnorderedNoStall(l: UnorderedLink, n: nat)
    requires l.Inv() && l.s.refused == {} && n in l.s.t.pending
    ensures Unambiguous(l.r.recv, n)
    ensures Ux.Receive(l.rx, W(n)).ack <==> !(n == l.s.t.start + 63 && l.r.recv + 1 == l.s.t.start)
  {
    UnorderedWindowsAgree(l);
    NearIsUnambiguous(l.r.recv, n);
    Ux.ReceiveRefines(l.rx, l.r, n);
  }

  // ---------------------------------------------------------------------------------------------
  // The newest-only stream
  // ---------------------------------------------------------------------------------------------

  /** Each number parsed is newer than the one before, by less than 8191. */
  predicate IsStep(parsed: seq<nat>, i: nat)
    requires i < |parsed|
  {
    var before := if i == 0 then 0 else parsed[i - 1];
    before < parsed[i] < before + Ux.ACCEPT_RANGE
  }

  /** Every number parsed is, and none is above `most`. */
  ghost predicate AreSteps(parsed: seq<nat>, most: nat) {
    forall i: nat :: i < |parsed| ==> parsed[i] <= most && IsStep(parsed, i)
  }

  datatype NewestLink = NewestLink(send: u32, recv: u32, sent: seq<Bytes>, parsed: seq<nat>) {

    /** The number parsed last, 0 before the first. */
    function Latest(): nat {
      if parsed == [] then 0 else parsed[|parsed| - 1]
    }

    ghost predicate Inv() {
      && send == W(|sent|) && recv == W(Latest())
      && AreSteps(parsed, |sent|)
    }

    function Send(data: Bytes): NewestLink {
      this.(send := W(send + 1), sent := sent + [data])
    }

    function Deliver(seqNo: u32, n: nat): NewestLink {
      if Ux.IsNewer(recv, seqNo) then this.(recv := seqNo, parsed := parsed + [n]) else this
    }

    /** Packets 2^32 - 8191 numbers late or more have left the network, and none is 2^32 ahead. */
    predicate InReach(n: nat) {
      -(0x1_0000_0000 - Ux.ACCEPT_RANGE) <= n - Latest() <= 0x1_0000_0000
    }
  }

  lemma NewestSendKeeps(l: NewestLink, data: Bytes)
    requires l.Inv()
    ensures l.Send(data).Inv()
  {
    SuccOfW(|l.sent|);
  }

  /** A datagram of this stream arrives: what is parsed only ever gets newer. */
  lemma NewestDeliverKeeps(l: NewestLink, n: nat)
    requires l.Inv() && 0 < n <= |l.sent| && l.InReach(n)
    ensures l.Deliver(W(n), n).Inv()
  {
    Ux.NewestTolerance(l.Latest(), n);
    if Ux.IsNewer(l.recv, W(n)) {
      NewestGrows(l, n);
    }
  }

  /** It is parsed exactly if it is newer than the last one parsed, by less than 8191. */
  lemma NewestDeliverIs(l: NewestLink, n: nat)
    requires l.Inv() && l.InReach(n)
    ensures l.Deliver(W(n), n).sent == l.sent
    ensures l.Deliver(W(n), n).parsed == if 0 < n - l.Latest() < 8191 then l.parsed + [n] else l.parsed
  {
    Ux.NewestTolerance(l.Latest(), n);
  }

  lemma NewestGrows(l: NewestLink, n: nat)
    requires l.Inv() && n <= |l.sent| && l.Latest() < n < l.Latest() + Ux.ACCEPT_RANGE
    ensures l.(recv := W(n), parsed := l.parsed + [n]).Inv()
  {
    OneMoreStep(l.parsed, n, |l.sent|);
  }

  lemma OneMoreStep(parsed: seq<nat>, n: nat, most: nat)
    requires AreSteps(parsed, most) && n <= most
    requires var before := if parsed == [] then 0 else parsed[|parsed| - 1]; before < n < before + Ux.ACCEPT_RANGE
    ensures AreSteps(parsed + [n], most)
  {
    LastStep(parsed, n);
    forall i: nat | i < |parsed + [n]|
      ensures (parsed + [n])[i] <= most && IsStep(parsed + [n], i)
    {
      if i < |parsed| {
        SameStep(parsed, n, i);
      }
    }
  }

  lemma LastStep(parsed: seq<nat>, n: nat)
    requires var before := if parsed == [] then 0 else parsed[|parsed| - 1]; before < n < before + Ux.ACCEPT_RANGE
    ensures (parsed + [n])[|parsed|] == n && IsStep(parsed + [n], |parsed|)
  {
  }

  lemma SameStep(parsed: seq<nat>, n: nat, i: nat)
    requires i < |parsed| && IsStep(parsed, i)
    ensures (parsed + [n])[i] == parsed[i] && IsStep(parsed + [n], i)
  {
  }
}
