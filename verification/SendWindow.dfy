/**
 The sending half of a reliable stream: `ReliablePacketState` and `Session::RepeatMessage`.

 `Send`, `Ack` and `Repeat` are the program's steps on 32-bit words and a 64-slot array.
 `SimpleSend`, `SimpleAck` and `SimpleRepeat` are the same steps on unbounded numbers and a map of
 the packets not yet acknowledged.
 */
module SendWindow {

  import opened Words

  /** `PendingPacket`; a buffer is named by a number. */
  datatype Pending = Pending(buffer: Option<nat>, timeStamp: u32, seqNo: u32)

  datatype Window = Window(send: u32, start: u32, next: u32, pending: seq<Pending>) {
    predicate Valid() {
      |pending| == 64
    }
  }

  function Initial(): Window {
    Window(0, 0, 0, seq(64, _ => Pending(None, 0, 0)))
  }

  datatype SendOutcome = SendOutcome(w: Window, accepted: bool)

  /** `UpdateSendSequenceNo` then `AddPendingPacket`: the number is used up even when refused. */
  function Send(w: Window, buffer: nat, timeStamp: u32): (o: SendOutcome)
    requires w.Valid()
    ensures o.w.Valid()
  {
    var seqNo := W(w.send + 1);
    if Sub(seqNo, w.start) >= 64 then
      SendOutcome(w.(send := seqNo), false)
    else
      SendOutcome(Window(seqNo, w.start, if seqNo >= w.next then W(seqNo + 1) else w.next,
                         w.pending[seqNo % 64 := Pending(Some(buffer), timeStamp, seqNo)]), true)
  }

  /** Move `start` over slots that hold nothing, at most to `next`. */
  function Advance(w: Window): (r: Window)
    requires w.Valid()
    ensures r.Valid() && r.send == w.send
    decreases Sub(w.next, w.start)
  {
    if w.start != w.next && w.pending[w.start % 64].buffer.None? then
      StepsToward(w.next, w.start);
      Advance(w.(start := W(w.start + 1)))
    else w
  }

  datatype AckOutcome = AckOutcome(w: Window, freed: Option<nat>)

  /** `AckProcess`, without its round-trip average. */
  function Ack(w: Window, ackSeq: u32): (o: AckOutcome)
    requires w.Valid()
    ensures o.w.Valid() && o.w.send == w.send
  {
    var p := w.pending[ackSeq % 64];
    if p.seqNo == ackSeq && p.buffer.Some? then
      AckOutcome(Advance(w.(pending := w.pending[ackSeq % 64 := p.(buffer := None)])), p.buffer)
    else
      AckOutcome(w, None)
  }

  /** Is this slot's packet due at time `now`, its buffer not being with the kernel? */
  predicate IsDue(p: Pending, now: u32, delay: u32, sending: set<nat>) {
    p.buffer.Some? && p.buffer.value !in sending && Sub(now, p.timeStamp) >= delay
  }

  datatype RepeatOutcome = RepeatOutcome(w: Window, resent: seq<nat>)

  /** `RepeatMessage` from `current` on: which buffers it gives to the socket, in order. */
  function Repeat(w: Window, current: u32, now: u32, delay: u32, sending: set<nat>, resent: seq<nat>): (o: RepeatOutcome)
    requires w.Valid()
    ensures o.w.Valid() && o.w.send == w.send
    decreases Sub(w.next, current)
  {
    if current == w.next then
      RepeatOutcome(w, resent)
    else
      var p := w.pending[current % 64];
      StepsToward(w.next, current);
      if IsDue(p, now, delay, sending) then
        Repeat(w.(pending := w.pending[current % 64 := p.(timeStamp := now)]), W(current + 1), now, delay, sending,
               resent + [p.buffer.value])
      else
        Repeat(w, W(current + 1), now, delay, sending, resent)
  }

  /** `ReturnBuffers`: the buffers taken out of slots `i` and above, in slot order. */
  function BuffersFrom(pending: seq<Pending>, i: nat): seq<nat>
    requires i <= |pending|
    decreases |pending| - i
  {
    if i == |pending| then []
    else if pending[i].buffer.Some? then [pending[i].buffer.value] + BuffersFrom(pending, i + 1)
    else BuffersFrom(pending, i + 1)
  }

  /** Of these, the ones the kernel has released; the others are left to their completion. */
  function Released(buffers: seq<nat>, sending: set<nat>): seq<nat> {
    if buffers == [] then []
    else (if buffers[0] in sending then [] else [buffers[0]]) + Released(buffers[1..], sending)
  }

  lemma {:induction false} ReleasedConcat(a: seq<nat>, b: seq<nat>, sending: set<nat>)
    ensures Released(a + b, sending) == Released(a, sending) + Released(b, sending)
  {
    if a == [] {
      assert a + b == b;
    } else {
      assert (a + b)[1..] == a[1..] + b;
      ReleasedConcat(a[1..], b, sending);
    }
  }

  /** The slots that hold buffer `b`. */
  ghost function SlotsWith(pending: seq<Pending>, b: nat): set<nat> {
    set k: nat | k < |pending| && pending[k].buffer == Some(b)
  }

  ghost function SlotsFrom(pending: seq<Pending>, i: nat, b: nat): set<nat> {
    set k: nat | i <= k < |pending| && pending[k].buffer == Some(b)
  }

  /** A buffer is taken out as often as it is in a slot. */
  lemma {:induction false} TakenAsOften(pending: seq<Pending>, i: nat, b: nat)
    requires i <= |pending|
    ensures multiset(BuffersFrom(pending, i))[b] == |SlotsFrom(pending, i, b)|
    decreases |pending| - i
  {
    if i < |pending| {
      TakenAsOften(pending, i + 1, b);
      var rest := SlotsFrom(pending, i + 1, b);
      if pending[i].buffer == Some(b) {
        assert SlotsFrom(pending, i, b) == rest + {i} && i !in rest;
      } else {
        assert SlotsFrom(pending, i, b) == rest;
      }
    }
  }

  /** It is pushed back as often as it was taken out, unless the kernel has it. */
  lemma {:induction false} PushedAsOften(buffers: seq<nat>, sending: set<nat>, b: nat)
    ensures multiset(Released(buffers, sending))[b] == if b in sending then 0 else multiset(buffers)[b]
  {
    if buffers != [] {
      PushedAsOften(buffers[1..], sending, b);
      assert buffers == [buffers[0]] + buffers[1..];
    }
  }

  class ReliablePacketState {
    var sendRepeatSeq: u32
    var localWindowStart: u32
    var localSequence: u32
    const pendingPackets: array<Pending>

    constructor ()
      ensures fresh(pendingPackets) && View() == Initial()
    {
      sendRepeatSeq, localWindowStart, localSequence := 0, 0, 0;
      pendingPackets := new Pending[64](_ => Pending(None, 0, 0));
      new;
      assert pendingPackets[..] == Initial().pending;
    }

    function View(): Window
      reads this, pendingPackets
    {
      Window(sendRepeatSeq, localWindowStart, localSequence, pendingPackets[..])
    }

    method UpdateSendSequenceNo() returns (seqNo: u32)
      modifies this`sendRepeatSeq
      ensures seqNo == sendRepeatSeq == W(old(sendRepeatSeq) + 1)
    {
      sendRepeatSeq := W(sendRepeatSeq + 1);
      seqNo := sendRepeatSeq;
    }

    method AddPendingPacket(buffer: nat, timeStamp: u32, seqNo: u32) returns (accepted: bool)
      requires View().Valid()
      modifies this, pendingPackets
      ensures accepted == (Sub(seqNo, old(localWindowStart)) < 64)
      ensures sendRepeatSeq == old(sendRepeatSeq) && localWindowStart == old(localWindowStart)
      ensures !accepted ==> View() == old(View())
      ensures accepted ==> pendingPackets[..] == old(pendingPackets[..])[seqNo % 64 := Pending(Some(buffer), timeStamp, seqNo)]
      ensures accepted ==> localSequence == if seqNo >= old(localSequence) then W(seqNo + 1) else old(localSequence)
    {
      if Sub(seqNo, localWindowStart) >= 64 {
        return false;
      }
      pendingPackets[seqNo % 64] := Pending(Some(buffer), timeStamp, seqNo);
      if seqNo >= localSequence {
        localSequence := W(seqNo + 1);
      }
      accepted := true;
    }

    /** The numbering and the window check of `SendPacket`. */
    method SendPacket(buffer: nat, timeStamp: u32) returns (accepted: bool)
      requires View().Valid()
      modifies this, pendingPackets
      ensures SendOutcome(View(), accepted) == Send(old(View()), buffer, timeStamp)
    {
      var seqNo := UpdateSendSequenceNo();
      accepted := AddPendingPacket(buffer, timeStamp, seqNo);
    }

    method AckProcess(ackSeq: u32) returns (freed: Option<nat>)
      requires View().Valid()
      modifies this, pendingPackets
      ensures AckOutcome(View(), freed) == Ack(old(View()), ackSeq)
    {
      var p := pendingPackets[ackSeq % 64];
      if p.seqNo != ackSeq || p.buffer.None? {
        return None;
      }
      freed := p.buffer;
      pendingPackets[ackSeq % 64] := p.(buffer := None);
      ghost var all := Advance(View());
      while localWindowStart != localSequence && pendingPackets[localWindowStart % 64].buffer.None?
        invariant View().Valid() && Advance(View()) == all
        decreases Sub(localSequence, localWindowStart)
      {
        StepsToward(localSequence, localWindowStart);
        localWindowStart := W(localWindowStart + 1);
      }
    }

    /**
     `RepeatMessage`; `sending` names the buffers whose SENDING bit is set when the loop comes to
     them. It comes to each slot once.
     */
    method RepeatMessage(now: u32, delay: u32, sending: set<nat>) returns (resent: seq<nat>)
      requires View().Valid()
      modifies pendingPackets
      ensures RepeatOutcome(View(), resent) == Repeat(old(View()), localWindowStart, now, delay, sending, [])
    {
      ghost var all := Repeat(View(), localWindowStart, now, delay, sending, []);
      resent := [];
      var current: u32 := localWindowStart;
      while current != localSequence
        invariant View().Valid() && Repeat(View(), current, now, delay, sending, resent) == all
        decreases Sub(localSequence, current)
      {
        StepsToward(localSequence, current);
        var p := pendingPackets[current % 64];
        if IsDue(p, now, delay, sending) {
          resent := resent + [p.buffer.value];
          pendingPackets[current % 64] := p.(timeStamp := now);
        }
        current := W(current + 1);
      }
    }

    /**
     `Reset`: every slot is emptied and numbering starts over. The buffers whose SENDING bit is clear
     go back to the pool at once.
     */
    method Reset(sending: set<nat>) returns (taken: seq<nat>, pushed: seq<nat>)
      requires View().Valid()
      modifies this, pendingPackets
      ensures View() == Initial()
      ensures taken == BuffersFrom(old(pendingPackets[..]), 0)
      ensures pushed == Released(taken, sending)
      ensures forall b :: multiset(taken)[b] == |SlotsWith(old(pendingPackets[..]), b)|
      ensures forall b :: multiset(pushed)[b] == if b in sending then 0 else multiset(taken)[b]
    {
      sendRepeatSeq, localWindowStart, localSequence := 0, 0, 0;
      taken, pushed := [], [];
      for i := 0 to 64
        invariant sendRepeatSeq == localWindowStart == localSequence == 0
        invariant forall k :: 0 <= k < i ==> pendingPackets[k] == Pending(None, 0, 0)
        invariant forall k :: i <= k < 64 ==> pendingPackets[k] == old(pendingPackets[k])
        invariant taken + BuffersFrom(old(pendingPackets[..]), i) == BuffersFrom(old(pendingPackets[..]), 0)
        invariant pushed == Released(taken, sending)
      {
        if pendingPackets[i].buffer.Some? {
          var b := pendingPackets[i].buffer.value;
          ReleasedConcat(taken, [b], sending);
          taken := taken + [b];
          if b !in sending {
            pushed := pushed + [b];
          }
        }
        pendingPackets[i] := Pending(None, 0, 0);
      }
      assert pendingPackets[..] == Initial().pending;
      ReturnedAsOften(old(pendingPackets[..]), taken, pushed, sending);
    }
  }

  lemma ReturnedAsOften(pending: seq<Pending>, taken: seq<nat>, pushed: seq<nat>, sending: set<nat>)
    requires taken == BuffersFrom(pending, 0) && pushed == Released(taken, sending)
    ensures forall b :: multiset(taken)[b] == |SlotsWith(pending, b)|
    ensures forall b :: multiset(pushed)[b] == if b in sending then 0 else multiset(taken)[b]
  {
    forall b: nat
      ensures multiset(taken)[b] == |SlotsWith(pending, b)|
      ensures multiset(pushed)[b] == if b in sending then 0 else multiset(taken)[b]
    {
      TakenAsOften(pending, 0, b);
      assert SlotsWith(pending, b) == SlotsFrom(pending, 0, b);
      PushedAsOften(taken, sending, b);
    }
  }

  // ---------------------------------------------------------------------------------------------
  // The simple machine
  // ---------------------------------------------------------------------------------------------

  datatype Entry = Entry(buffer: nat, timeStamp: u32)

  /**
   `sent` numbers were given out; `start` and `next` bound what the loops over the window look at.
   A refused number is given out and never pending.
   */
  datatype Simple = Simple(sent: nat, start: nat, next: nat, pending: map<nat, Entry>) {

    ghost predicate Valid() {
      && start <= next <= start + 64
      && next <= sent + 1
      && (forall n :: n in pending ==> start <= n < start + 64 && 0 < n <= sent)
    }
  }

  /** Is the distance of `n` from `start` less than a window exactly if its word says so? */
  predicate Told(start: nat, n: nat) {
    n < start + 64 || W(n - start) >= 64
  }

  /** Does the plain comparison of words let `next` follow to past `n`? Not across a multiple of 2^32. */
  predicate Follows(next: nat, n: nat) {
    next / 0x1_0000_0000 == n / 0x1_0000_0000
  }

  function SimpleSend(a: Simple, buffer: nat, timeStamp: u32): (Simple, bool) {
    var n := a.sent + 1;
    if n - a.start >= 64 then (a.(sent := n), false)
    else (Simple(n, a.start, if Follows(a.next, n) then n + 1 else a.next, a.pending[n := Entry(buffer, timeStamp)]), true)
  }

  function SimpleAdvance(a: Simple): (r: Simple)
    ensures r.sent == a.sent && r.next == a.next && r.pending == a.pending
    decreases a.next - a.start
  {
    if a.start < a.next && a.start !in a.pending then SimpleAdvance(a.(start := a.start + 1)) else a
  }

  function SimpleAck(a: Simple, n: nat): Simple {
    if n in a.pending then SimpleAdvance(a.(pending := a.pending - {n})) else a
  }

  /** Is number `n` pending, its buffer released by the kernel and its time up? */
  predicate Due(a: Simple, n: nat, now: u32, delay: u32, sending: set<nat>) {
    n in a.pending && a.pending[n].buffer !in sending && Sub(now, a.pending[n].timeStamp) >= delay
  }

  /** The numbers from `i` on and below `next` that are due, in increasing order. */
  function DueFrom(a: Simple, i: nat, now: u32, delay: u32, sending: set<nat>): (r: seq<nat>)
    ensures forall k :: 0 <= k < |r| ==> r[k] in a.pending
    decreases a.next - i
  {
    if i >= a.next then []
    else if Due(a, i, now, delay, sending) then [i] + DueFrom(a, i + 1, now, delay, sending)
    else DueFrom(a, i + 1, now, delay, sending)
  }

  /** The due packets from number `i` on and below `next` get the new time stamp. */
  function SimpleRepeat(a: Simple, i: nat, now: u32, delay: u32, sending: set<nat>): Simple {
    a.(pending := map n | n in a.pending ::
      if i <= n < a.next && Due(a, n, now, delay, sending) then a.pending[n].(timeStamp := now) else a.pending[n])
  }

  function BuffersOf(a: Simple, ns: seq<nat>): seq<nat>
    requires forall k :: 0 <= k < |ns| ==> ns[k] in a.pending
  {
    seq(|ns|, k requires 0 <= k < |ns| => a.pending[ns[k]].buffer)
  }

  // ---------------------------------------------------------------------------------------------
  // Refinement
  // ---------------------------------------------------------------------------------------------

  /** The slot of number `n` holds exactly what is pending for it. */
  ghost predicate SlotAgrees(w: Window, a: Simple, n: nat)
    requires w.Valid()
  {
    var p := w.pending[n % 64];
    && (p.buffer.Some? <==> n in a.pending)
    && (p.buffer.Some? ==> p == Pending(Some(a.pending[n].buffer), a.pending[n].timeStamp, W(n)))
  }

  ghost predicate RingAgrees(w: Window, a: Simple) {
    && w.Valid()
    && w.send == W(a.sent) && w.start == W(a.start) && w.next == W(a.next)
    && forall n :: a.start <= n < a.start + 64 ==> SlotAgrees(w, a, n)
  }

  ghost predicate Agrees(w: Window, a: Simple) {
    a.Valid() && RingAgrees(w, a)
  }

  lemma InitialAgrees()
    ensures Agrees(Initial(), Simple(0, 0, 0, map[]))
  {
  }

  /** Whether the slots agree does not depend on where the counters stand. */
  lemma PutAgrees(w: Window, a: Simple, n: nat, e: Entry, w': Window, a': Simple)
    requires w.Valid() && w'.Valid()
    requires forall k :: a.start <= k < a.start + 64 ==> SlotAgrees(w, a, k)
    requires a.start <= n < a.start + 64
    requires w'.pending == w.pending[n % 64 := Pending(Some(e.buffer), e.timeStamp, W(n))]
    requires a'.pending == a.pending[n := e] && a'.start == a.start
    ensures forall k :: a'.start <= k < a'.start + 64 ==> SlotAgrees(w', a', k)
  {
    forall k | a'.start <= k < a'.start + 64
      ensures SlotAgrees(w', a', k)
    {
      assert SlotAgrees(w, a, k);
      if k % 64 == n % 64 {
        SlotInjective(k, n);
      }
    }
  }

  /**
   A send is refused exactly when the true number lies a whole window past `start`, whatever was
   refused before. One that is accepted lands in a slot that holds nothing, and leaves every other
   pending packet alone.
   */
  lemma SendRefines(w: Window, a: Simple, buffer: nat, timeStamp: u32)
    requires Agrees(w, a) && Told(a.start, a.sent + 1)
    ensures Send(w, buffer, timeStamp).accepted <==> a.sent + 1 < a.start + 64
    ensures Send(w, buffer, timeStamp).accepted == SimpleSend(a, buffer, timeStamp).1
    ensures Send(w, buffer, timeStamp).accepted ==> w.pending[(a.sent + 1) % 64].buffer.None?
    ensures Agrees(Send(w, buffer, timeStamp).w, SimpleSend(a, buffer, timeStamp).0)
  {
    SendOnWire(w, a, buffer, timeStamp);
    var n := a.sent + 1;
    var o, a' := Send(w, buffer, timeStamp), SimpleSend(a, buffer, timeStamp).0;
    if n < a.start + 64 {
      assert SlotAgrees(w, a, n);
      PutAgrees(w, a, n, Entry(buffer, timeStamp), o.w, a');
    } else {
      SentIsFree(w, a, W(n), n);
    }
  }

  lemma SentIsFree(w: Window, a: Simple, send: u32, sent: nat)
    requires RingAgrees(w, a) && send == W(sent)
    ensures RingAgrees(w.(send := send), a.(sent := sent))
  {
    forall k | a.start <= k < a.start + 64
      ensures SlotAgrees(w.(send := send), a.(sent := sent), k)
    {
      assert SlotAgrees(w, a, k);
    }
  }

  /** The condition is exact: after 2^32 refusals the window check takes a number a full turn on for a near one. */
  lemma SendIsExact(w: Window, a: Simple, buffer: nat, timeStamp: u32)
    requires Agrees(w, a)
    ensures Told(a.start, a.sent + 1) <==> Send(w, buffer, timeStamp).accepted == SimpleSend(a, buffer, timeStamp).1
  {
    WindowTest(w, a);
    TestIsTold(a.start, a.sent + 1);
  }

  ghost predicate PastTurn(k: nat, start: nat, n: nat) {
    k * 0x1_0000_0000 <= n - start < k * 0x1_0000_0000 + 64
  }

  /** Misjudged are exactly the distances less than 64 past one or more full turns; so none below 2^32. */
  lemma ToldIff(start: nat, n: nat)
    requires start <= n
    ensures Told(start, n) <==> !exists k: nat :: k > 0 && PastTurn(k, start, n)
    ensures n - start < 0x1_0000_0000 ==> Told(start, n)
  {
    var d := n - start;
    var q := d / 0x1_0000_0000;
    assert d == q * 0x1_0000_0000 + W(d);
    if !Told(start, n) {
      assert PastTurn(q, start, n);
    }
    forall k: nat | k > 0 && PastTurn(k, start, n)
      ensures !Told(start, n)
    {
      assert k == q;
    }
  }

  lemma TestIsTold(start: nat, n: nat)
    requires start <= n
    ensures Told(start, n) <==> (W(n - start) < 64 <==> n - start < 64)
  {
  }

  lemma WindowTest(w: Window, a: Simple)
    requires Agrees(w, a)
    ensures W(w.send + 1) == W(a.sent + 1) && Sub(W(w.send + 1), w.start) == W(a.sent + 1 - a.start)
  {
    SuccOfW(a.sent);
    SubOfW(a.sent + 1, a.start);
  }

  /** What `Send` does, in terms of the number it gives out. */
  lemma SendOnWire(w: Window, a: Simple, buffer: nat, timeStamp: u32)
    requires Agrees(w, a) && Told(a.start, a.sent + 1)
    ensures var n := a.sent + 1;
            Send(w, buffer, timeStamp) ==
            if n < a.start + 64
            then SendOutcome(Window(W(n), w.start, if Follows(a.next, n) then W(n + 1) else w.next,
                                    w.pending[n % 64 := Pending(Some(buffer), timeStamp, W(n))]), true)
            else SendOutcome(w.(send := W(n)), false)
  {
    var n := a.sent + 1;
    WindowTest(w, a);
    SuccOfW(n);
    SlotOfW(n);
    if n < a.start + 64 {
      NextWord(a.next, n);
    }
  }

  /** The comparison that moves `next` on, in terms of the numbers behind the words. */
  lemma NextWord(next: nat, n: nat)
    requires next <= n < next + 0x1_0000_0000
    ensures W(n) >= W(next) <==> Follows(next, n)
  {
  }

  ghost predicate IsTurn(k: nat, next: nat, n: nat) {
    next < k * 0x1_0000_0000 <= n
  }

  /**
   `localSeqence_` follows an accepted number exactly if no multiple of 2^32 lies after it and up
   to that number. Without refusals before, it always does.
   */
  lemma NextFollowsIff(w: Window, a: Simple, buffer: nat, timeStamp: u32)
    requires Agrees(w, a) && a.sent + 1 < a.start + 64
    ensures var o, n := Send(w, buffer, timeStamp), a.sent + 1;
            && o.accepted
            && (o.w.next == W(n + 1) <==> !exists k: nat :: IsTurn(k, a.next, n))
            && (o.w.next != W(n + 1) ==> o.w.next == w.next)
    ensures a.next == a.sent + 1 || a.next == a.sent == 0 ==> Follows(a.next, a.sent + 1)
  {
    var n := a.sent + 1;
    SendOnWire(w, a, buffer, timeStamp);
    NoTurnIffFollows(a.next, n);
    if W(a.next) == W(n + 1) {
      WInjective(a.next, n + 1);
    }
  }

  lemma NoTurnIffFollows(next: nat, n: nat)
    requires next <= n
    ensures Follows(next, n) <==> !exists k: nat :: IsTurn(k, next, n)
  {
    if Follows(next, n) {
      forall k: nat
        ensures !IsTurn(k, next, n)
      {
      }
    } else {
      assert IsTurn(n / 0x1_0000_0000, next, n);
    }
  }

  /** Number 2^32 - 1 was refused, everything before it is acknowledged. */
  function AtTheWrap(): Simple {
    Simple(0xFFFF_FFFF, 0xFFFF_FFFF, 0xFFFF_FFFF, map[])
  }

  /**
   Where it does not follow: the next packet is accepted into slot 0, the resend loop does not look at
   it, and its acknowledgement leaves `start` where it is.
   */
  lemma LostAtTheWrap(w: Window, buffer: nat, now: u32, delay: u32)
    requires Agrees(w, AtTheWrap())
    ensures var o := Send(w, buffer, now);
            && o.accepted && o.w.pending[0].buffer == Some(buffer) && o.w.next == w.next
            && Repeat(o.w, o.w.start, now, delay, {}, []).resent == []
            && Ack(o.w, 0).w.start == w.start
  {
  }

  /** From then on `next` stays, and with it the last number that can be accepted. */
  lemma StuckOnceLost(a: Simple, buffer: nat, timeStamp: u32, n: nat)
    requires a.Valid() && a.next / 0x1_0000_0000 < (a.sent + 1) / 0x1_0000_0000
    ensures var a' := SimpleSend(a, buffer, timeStamp).0;
            a'.next == a.next && a'.next / 0x1_0000_0000 < (a'.sent + 1) / 0x1_0000_0000
    ensures SimpleSend(a, buffer, timeStamp).1 ==> a.sent + 1 < a.next + 64
    ensures SimpleAck(a, n).next == a.next && SimpleAck(a, n).sent == a.sent
  {
  }

  /** A pending number at or past `next` is out of reach of the resend loop; one below it is not. */
  lemma ResentIffBelowNext(w: Window, a: Simple, n: nat)
    requires Agrees(w, a) && n in a.pending
    ensures a.pending[n].buffer in Repeat(w, w.start, 0, 0, {}, []).resent <==>
              exists k :: k in a.pending && k < a.next && a.pending[k].buffer == a.pending[n].buffer
  {
    RepeatRefines(w, a, 0, 0, {});
    var due := DueFrom(a, a.start, 0, 0, {});
    var bs := BuffersOf(a, due);
    if a.pending[n].buffer in bs {
      var i :| 0 <= i < |bs| && bs[i] == a.pending[n].buffer;
      assert due[i] in due;
    }
    if k :| k in a.pending && k < a.next && a.pending[k].buffer == a.pending[n].buffer {
      assert Due(a, k, 0, 0, {}) && k in due;
      var i :| 0 <= i < |due| && due[i] == k;
      assert bs[i] == a.pending[n].buffer;
    }
  }

  /** Some pending number has buffer `b`. */
  ghost predicate HasBuffer(a: Simple, b: nat) {
    exists n :: n in a.pending && a.pending[n].buffer == b
  }

  ghost predicate BuffersDiffer(a: Simple) {
    forall m, n :: m in a.pending && n in a.pending && m != n ==> a.pending[m].buffer != a.pending[n].buffer
  }

  lemma OneSlot(w: Window, a: Simple, b: nat)
    requires Agrees(w, a) && BuffersDiffer(a)
    ensures |SlotsWith(w.pending, b)| == if HasBuffer(a, b) then 1 else 0
  {
    forall k | k in SlotsWith(w.pending, b)
      ensures AtSlot(a.start, k) in a.pending && a.pending[AtSlot(a.start, k)].buffer == b
    {
      assert SlotAgrees(w, a, AtSlot(a.start, k));
    }
    if HasBuffer(a, b) {
      var n :| n in a.pending && a.pending[n].buffer == b;
      assert SlotAgrees(w, a, n);
      assert SlotsWith(w.pending, b) == {n % 64};
    } else {
      assert SlotsWith(w.pending, b) == {};
    }
  }

  /**
   What a reset does to the pending buffers, none of which is pending twice: it takes out exactly these,
   each once, and pushes back exactly those that the kernel has released, each once.
   */
  lemma ResetReturns(w: Window, a: Simple, sending: set<nat>, taken: seq<nat>, pushed: seq<nat>)
    requires Agrees(w, a) && BuffersDiffer(a)
    requires forall b :: multiset(taken)[b] == |SlotsWith(w.pending, b)|
    requires forall b :: multiset(pushed)[b] == if b in sending then 0 else multiset(taken)[b]
    ensures forall b :: multiset(taken)[b] == if HasBuffer(a, b) then 1 else 0
    ensures forall b :: multiset(pushed)[b] == if HasBuffer(a, b) && b !in sending then 1 else 0
    ensures multiset(pushed) <= multiset(taken)
  {
    forall b: nat
      ensures multiset(taken)[b] == if HasBuffer(a, b) then 1 else 0
    {
      OneSlot(w, a, b);
    }
  }

  /** Moving `start` over a number that is not pending. */
  lemma StartMoves(w: Window, a: Simple)
    requires RingAgrees(w, a) && a.start !in a.pending && a.start + 64 !in a.pending
    ensures RingAgrees(w.(start := W(w.start + 1)), a.(start := a.start + 1))
  {
    SuccOfW(a.start);
    var w', a' := w.(start := W(w.start + 1)), a.(start := a.start + 1);
    forall n | a'.start <= n < a'.start + 64
      ensures SlotAgrees(w', a', n)
    {
      if n == a.start + 64 {
        assert n % 64 == a.start % 64;
        assert SlotAgrees(w, a, a.start);
      } else {
        assert SlotAgrees(w, a, n);
      }
    }
  }

  lemma {:induction false} AdvanceRefines(w: Window, a: Simple)
    requires RingAgrees(w, a) && a.start <= a.next <= a.start + 64
    requires a.next <= a.sent + 1
    requires forall n :: n in a.pending ==> a.start <= n < a.start + 64 && 0 < n <= a.sent
    ensures Agrees(Advance(w), SimpleAdvance(a))
    ensures SimpleAdvance(a).start == a.next || SimpleAdvance(a).start in a.pending
    ensures a.start <= SimpleAdvance(a).start
    decreases a.next - a.start
  {
    SlotOfW(a.start);
    assert SlotAgrees(w, a, a.start);
    if a.start < a.next && a.start !in a.pending {
      if w.start == w.next {
        WInjective(a.start, a.next);
      }
      StartMoves(w, a);
      AdvanceRefines(w.(start := W(w.start + 1)), a.(start := a.start + 1));
    }
  }

  /** Does the word of `n` name no pending number but `n`? */
  ghost predicate NamesOnly(a: Simple, n: nat) {
    forall k :: k in a.pending && W(k) == W(n) ==> k == n
  }

  /** So it is for every number less than 2^32 - 64 before the window, and for all within it. */
  lemma RecentNamesOnly(a: Simple, n: nat)
    requires a.Valid() && a.start + 64 - 0x1_0000_0000 <= n < a.start + 64
    ensures NamesOnly(a, n)
  {
    forall k | k in a.pending && W(k) == W(n)
      ensures k == n
    {
      WInjective(k, n);
    }
  }

  /**
   An acknowledgement clears exactly the packet it names, and leaves `start` on the first
   unacknowledged number or, if there is none below it, on `next`.
   */
  lemma AckRefines(w: Window, a: Simple, n: nat)
    requires Agrees(w, a) && NamesOnly(a, n)
    ensures Agrees(Ack(w, W(n)).w, SimpleAck(a, n))
    ensures Ack(w, W(n)).freed == if n in a.pending then Some(a.pending[n].buffer) else None
    ensures SimpleAck(a, n).sent == a.sent && SimpleAck(a, n).next == a.next
    ensures SimpleAck(a, n).pending == a.pending - {n}
    ensures a.start <= SimpleAck(a, n).start
    ensures n in a.pending ==>
              SimpleAck(a, n).start == a.next || SimpleAck(a, n).start in SimpleAck(a, n).pending
  {
    SlotOfW(n);
    var k := AtSlot(a.start, n % 64);
    assert SlotAgrees(w, a, k);
    if n in a.pending {
      SlotInjective(k, n);
      var w', a' := w.(pending := w.pending[n % 64 := w.pending[n % 64].(buffer := None)]),
                    a.(pending := a.pending - {n});
      forall j | a'.start <= j < a'.start + 64
        ensures SlotAgrees(w', a', j)
      {
        assert SlotAgrees(w, a, j);
        if j % 64 == n % 64 {
          SlotInjective(j, n);
        }
      }
      AdvanceRefines(w', a');
    } else {
      assert a.pending - {n} == a.pending;
    }
  }

  /** The condition is exact: the word of an older number that names another one frees that one. */
  lemma AckIsExact(w: Window, a: Simple, n: nat)
    requires Agrees(w, a)
    ensures NamesOnly(a, n) <==>
              Ack(w, W(n)).freed == if n in a.pending then Some(a.pending[n].buffer) else None
  {
    if NamesOnly(a, n) {
      AckRefines(w, a, n);
    } else {
      var k :| k in a.pending && W(k) == W(n) && k != n;
      if n in a.pending {
        WInjective(k, n);
      }
      SlotOfW(n);
      SlotOfW(k);
      assert SlotAgrees(w, a, k);
    }
  }

  /** The resend loop makes one turn per number in the window, so at most 64. */
  lemma RepeatSteps(w: Window, a: Simple)
    requires Agrees(w, a)
    ensures Sub(w.next, w.start) == a.next - a.start <= 64
  {
    ShortDistance(a.start, a.next);
  }

  lemma {:induction false} RepeatRefinesFrom(w: Window, a: Simple, i: nat, now: u32, delay: u32, sending: set<nat>,
                                             resent: seq<nat>)
    requires Agrees(w, a) && a.start <= i <= a.next
    ensures var o := Repeat(w, W(i), now, delay, sending, resent);
            && Agrees(o.w, SimpleRepeat(a, i, now, delay, sending))
            && o.resent == resent + BuffersOf(a, DueFrom(a, i, now, delay, sending))
    decreases a.next - i
  {
    if i == a.next {
      assert SimpleRepeat(a, i, now, delay, sending) == a;
    } else {
      if W(i) == w.next {
        WInjective(i, a.next);
      }
      SuccOfW(i);
      SlotOfW(i);
      assert SlotAgrees(w, a, i);
      if Due(a, i, now, delay, sending) {
        RepeatOneRefines(w, a, i, now, delay, sending, resent);
      } else {
        RepeatRefinesFrom(w, a, i + 1, now, delay, sending, resent);
        assert SimpleRepeat(a, i, now, delay, sending) == SimpleRepeat(a, i + 1, now, delay, sending);
      }
    }
  }

  lemma {:induction false} RepeatOneRefines(w: Window, a: Simple, i: nat, now: u32, delay: u32, sending: set<nat>,
                                            resent: seq<nat>)
    requires Agrees(w, a) && a.start <= i < a.next && Due(a, i, now, delay, sending)
    ensures var o := Repeat(w, W(i), now, delay, sending, resent);
            && Agrees(o.w, SimpleRepeat(a, i, now, delay, sending))
            && o.resent == resent + BuffersOf(a, DueFrom(a, i, now, delay, sending))
    decreases a.next - i, 0
  {
    SuccOfW(i);
    SlotOfW(i);
    assert SlotAgrees(w, a, i);
    assert W(i) != w.next by {
      if W(i) == w.next {
        WInjective(i, a.next);
      }
    }
    var b := a.pending[i].buffer;
    var w' := w.(pending := w.pending[i % 64 := Pending(Some(b), now, W(i))]);
    var a' := a.(pending := a.pending[i := Entry(b, now)]);
    PutAgrees(w, a, i, Entry(b, now), w', a');
    assert a'.Valid();
    RepeatRefinesFrom(w', a', i + 1, now, delay, sending, resent + [b]);
    StampOne(a, a', i, now, delay, sending);
    assert w.pending[i % 64].(timeStamp := now) == Pending(Some(b), now, W(i));
    assert resent + [b] + BuffersOf(a', DueFrom(a', i + 1, now, delay, sending))
        == resent + BuffersOf(a, DueFrom(a, i, now, delay, sending));
  }

  lemma StampOne(a: Simple, a': Simple, i: nat, now: u32, delay: u32, sending: set<nat>)
    requires i < a.next && Due(a, i, now, delay, sending)
    requires a' == a.(pending := a.pending[i := Entry(a.pending[i].buffer, now)])
    ensures SimpleRepeat(a, i, now, delay, sending) == SimpleRepeat(a', i + 1, now, delay, sending)
    ensures BuffersOf(a, DueFrom(a, i, now, delay, sending))
         == [a.pending[i].buffer] + BuffersOf(a', DueFrom(a', i + 1, now, delay, sending))
  {
    DueUnaffected(a, a', i, i + 1, now, delay, sending);
    var l, r := SimpleRepeat(a, i, now, delay, sending).pending, SimpleRepeat(a', i + 1, now, delay, sending).pending;
    assert l.Keys == r.Keys;
    forall n | n in l
      ensures l[n] == r[n]
    {
      assert n != i ==> a'.pending[n] == a.pending[n];
    }
  }

  /** Stamping number `i` does not change which later numbers are due. */
  lemma {:induction false} DueUnaffected(a: Simple, a': Simple, i: nat, j: nat, now: u32, delay: u32, sending: set<nat>)
    requires i < j && i in a.pending && a' == a.(pending := a.pending[i := Entry(a.pending[i].buffer, now)])
    ensures DueFrom(a', j, now, delay, sending) == DueFrom(a, j, now, delay, sending)
    ensures BuffersOf(a', DueFrom(a', j, now, delay, sending)) == BuffersOf(a, DueFrom(a, j, now, delay, sending))
    decreases a.next - j
  {
    if j < a.next {
      DueUnaffected(a, a', i, j + 1, now, delay, sending);
    }
  }

  /** Every due number is listed once, in increasing order, and nothing else is. */
  lemma {:induction false} DueFromIsExact(a: Simple, i: nat, now: u32, delay: u32, sending: set<nat>)
    requires a.Valid() && a.start <= i
    ensures var r := DueFrom(a, i, now, delay, sending);
            && (forall n :: n in r <==> i <= n < a.next && Due(a, n, now, delay, sending))
            && (forall j, k :: 0 <= j < k < |r| ==> r[j] < r[k])
    decreases a.next - i
  {
    if i < a.next {
      DueFromIsExact(a, i + 1, now, delay, sending);
      var rest := DueFrom(a, i + 1, now, delay, sending);
      forall k | 0 <= k < |rest|
        ensures i < rest[k]
      {
        assert rest[k] in rest;
      }
    }
  }

  /**
   `RepeatMessage` resends exactly the pending packets below `next` that are due and that the kernel
   has released, oldest first, and stamps them with the present time.
   */
  lemma RepeatRefines(w: Window, a: Simple, now: u32, delay: u32, sending: set<nat>)
    requires Agrees(w, a)
    ensures var o := Repeat(w, w.start, now, delay, sending, []);
            && Agrees(o.w, SimpleRepeat(a, a.start, now, delay, sending))
            && o.resent == BuffersOf(a, DueFrom(a, a.start, now, delay, sending))
    ensures var due := DueFrom(a, a.start, now, delay, sending);
            && (forall n: nat :: n in due <==> n < a.next && Due(a, n, now, delay, sending))
            && (forall j, k :: 0 <= j < k < |due| ==> due[j] < due[k])
  {
    RepeatRefinesFrom(w, a, a.start, now, delay, sending, []);
    DueFromIsExact(a, a.start, now, delay, sending);
  }

  /** On a clock that wraps after 2^32 milliseconds, due means that the delay has passed since the last time. */
  lemma DueIsElapsed(a: Simple, n: nat, stamped: nat, now: nat, delay: u32, sending: set<nat>)
    requires n in a.pending && a.pending[n].timeStamp == W(stamped) && stamped <= now < stamped + 0x1_0000_0000
    ensures Due(a, n, W(now), delay, sending) <==> a.pending[n].buffer !in sending && now - stamped >= delay
  {
    ShortDistance(stamped, now);
  }

  /** A resend changes nothing of a pending packet but its time, and that exactly if it is sent again. */
  lemma ResendStamps(w: Window, a: Simple, now: u32, delay: u32, sending: set<nat>, n: nat)
    requires Agrees(w, a) && n in a.pending
    ensures var o, e := Repeat(w, w.start, now, delay, sending, []), a.pending[n];
            var again := n < a.next && e.buffer !in sending && Sub(now, e.timeStamp) >= delay;
            o.w.pending[n % 64] == Pending(Some(e.buffer), if again then now else e.timeStamp, W(n))
  {
    RepeatRefines(w, a, now, delay, sending);
    var o := Repeat(w, w.start, now, delay, sending, []);
    assert SlotAgrees(o.w, SimpleRepeat(a, a.start, now, delay, sending), n);
  }

  /** The pending number behind a buffer that is sent again. */
  lemma ResentNumber(w: Window, a: Simple, now: u32, delay: u32, sending: set<nat>, b: nat) returns (n: nat)
    requires Agrees(w, a) && b in Repeat(w, w.start, now, delay, sending, []).resent
    ensures n in a.pending && a.pending[n].buffer == b && n < a.next && Due(a, n, now, delay, sending)
  {
    RepeatRefines(w, a, now, delay, sending);
    var due := DueFrom(a, a.start, now, delay, sending);
    var i :| 0 <= i < |due| && BuffersOf(a, due)[i] == b;
    n := due[i];
    assert n in due;
  }

  /** What was sent again is not sent once more before the delay has passed. */
  lemma ResendWaits(w: Window, a: Simple, now: u32, later: u32, delay: u32, sending: set<nat>, sending': set<nat>, b: nat)
    requires Agrees(w, a) && BuffersDiffer(a) && Sub(later, now) < delay
    requires b in Repeat(w, w.start, now, delay, sending, []).resent
    ensures var o := Repeat(w, w.start, now, delay, sending, []);
            b !in Repeat(o.w, o.w.start, later, delay, sending', []).resent
  {
    var n := ResentNumber(w, a, now, delay, sending, b);
    RepeatRefines(w, a, now, delay, sending);
    var o, a' := Repeat(w, w.start, now, delay, sending, []), SimpleRepeat(a, a.start, now, delay, sending);
    if b in Repeat(o.w, o.w.start, later, delay, sending', []).resent {
      var m := ResentNumber(o.w, a', later, delay, sending', b);
      assert false;
    }
  }
}
