/**
 The receiving half of an ordered channel: `Session::RecvDispatch`, branch REPEAT | CHANNEL
 (`Client::RecvDispatch` is the same code).

 `Receive` is the program's step on 32-bit words, a 64-slot ring and a 64-bit mask.
 `SimpleReceive` is the same step on unbounded numbers and a map of cached packets.
 `ReceiveRefines` relates the two.
 */
module OrderedReceive {

  import opened Words
  import opened CacheBuffers

  /** `CachePacket` without its unused time stamp. */
  datatype Slot = Slot(keep: bool, seqNo: u32, buffer: Option<CacheBuffer>)

  /** `mask[i]` is bit `i` of the 64-bit `cacheRepeatCount_`. */
  datatype Channel = Channel(recv: u32, last: u32, mask: seq<bool>, slots: seq<Slot>) {
    predicate Valid() {
      && |mask| == 64
      && |slots| == 64
      && forall i :: 0 <= i < 64 ==> (slots[i].keep <==> slots[i].buffer.Some?)
    }
  }

  datatype Outcome = Outcome(ch: Channel, mgr: Manager, ack: bool, parsed: seq<Bytes>)

  /** The channel after the packet cached for `next` is taken out of its slot. */
  function Taken(c: Channel, next: u32): (r: Channel)
    requires c.Valid()
    ensures r.Valid()
  {
    Channel(next, c.last, ShiftRight(c.mask),
            c.slots[next % 64 := c.slots[next % 64].(keep := false, buffer := None)])
  }

  /** Parse the cached successors of `recv`, returning their buffers, up to a gap or to `last`. */
  function Drain(c: Channel, m: Manager, parsed: seq<Bytes>): (o: Outcome)
    requires c.Valid()
    ensures o.ch.Valid() && o.ack && o.ch.last == c.last
    decreases Sub(c.last, c.recv)
  {
    var next := W(c.recv + 1);
    var s := c.slots[next % 64];
    if c.recv == c.last || !s.keep || s.seqNo != next then
      Outcome(c, m, true, parsed)
    else
      Drain(Taken(c, next), m.Push(s.buffer.value.id), parsed + [s.buffer.value.data])
  }

  /** A packet that is not the next one, `del` ahead of `recv`: keep a copy unless it is kept already. */
  function ReceiveAhead(c: Channel, m: Manager, seqNo: u32, del: nat, data: Bytes): (o: Outcome)
    requires c.Valid() && 0 < del < 64
    ensures o.ch.Valid()
  {
    var last := if Sub(seqNo, c.last) < 64 then seqNo else c.last;
    var s := c.slots[seqNo % 64];
    if s.keep && s.seqNo == seqNo then
      Outcome(c.(last := last), m, true, [])
    else
      var kept := Slot(true, seqNo, Some(CacheBuffer(m.Next(), data)));
      Outcome(Channel(c.recv, last, c.mask[del - 1 := true], c.slots[seqNo % 64 := kept]), m.Pop(), true, [])
  }

  /** The packet that `recv` waits for: parse it and whatever it was holding up. */
  function ReceiveNext(c: Channel, m: Manager, seqNo: u32, data: Bytes): (o: Outcome)
    requires c.Valid()
    ensures o.ch.Valid()
  {
    var o := Drain(c.(recv := seqNo, mask := ShiftRight(c.mask)), m, [data]);
    if c.recv == c.last then o.(ch := o.ch.(last := o.ch.recv)) else o
  }

  function Receive(c: Channel, m: Manager, seqNo: u32, data: Bytes): (o: Outcome)
    requires c.Valid()
    ensures o.ch.Valid()
  {
    if Sub(c.recv, seqNo) < 64 then
      Outcome(c, m, true, [])
    else if seqNo != W(c.recv + 1) then
      var del := Sub(seqNo, c.recv);
      if del >= 64 then Outcome(c, m, false, []) else ReceiveAhead(c, m, seqNo, del, data)
    else
      ReceiveNext(c, m, seqNo, data)
  }

  /** `Reset`: forget the numbers and give back every buffer still held, slot by slot. */
  function ReturnFrom(slots: seq<Slot>, m: Manager, i: nat): Manager
    requires i <= |slots|
    decreases |slots| - i
  {
    if i == |slots| then m
    else ReturnFrom(slots, if slots[i].buffer.Some? then m.Push(slots[i].buffer.value.id) else m, i + 1)
  }

  function Initial(): Channel {
    Channel(0, 0, seq(64, _ => false), seq(64, _ => Slot(false, 0, None)))
  }

  /** The channel state as the program keeps it: words, a mask and an array updated in place. */
  class OrderedChannel {
    var recvRepeatSeq: u32
    var lastRepeatSeq: u32
    var cacheRepeatCount: seq<bool>
    const cachePackets: array<Slot>

    constructor ()
      ensures fresh(cachePackets) && View() == Initial()
    {
      recvRepeatSeq, lastRepeatSeq := 0, 0;
      cacheRepeatCount := seq(64, _ => false);
      cachePackets := new Slot[64](_ => Slot(false, 0, None));
      new;
      assert cachePackets[..] == Initial().slots;
    }

    function View(): Channel
      reads this, cachePackets
    {
      Channel(recvRepeatSeq, lastRepeatSeq, cacheRepeatCount, cachePackets[..])
    }

    /** `RecvDispatch` for a packet of this channel: whether to acknowledge, and what was parsed. */
    method RecvDispatch(seqNo: u32, data: Bytes, mgr: CachePacketManager) returns (ack: bool, parsed: seq<Bytes>)
      requires View().Valid()
      modifies this, cachePackets, mgr
      ensures Outcome(View(), mgr.View(), ack, parsed) == Receive(old(View()), old(mgr.View()), seqNo, data)
    {
      if Sub(recvRepeatSeq, seqNo) < 64 {
        return true, [];
      }
      if seqNo != W(recvRepeatSeq + 1) {
        var del := Sub(seqNo, recvRepeatSeq);
        if del >= 64 {
          return false, [];
        }
        Keep(seqNo, del, data, mgr);
        return true, [];
      }
      var isLastUpdate := recvRepeatSeq == lastRepeatSeq;
      cacheRepeatCount := ShiftRight(cacheRepeatCount);
      recvRepeatSeq := seqNo;
      parsed := DrainCached([data], mgr);
      if isLastUpdate {
        lastRepeatSeq := recvRepeatSeq;
      }
      ack := true;
    }

    method Keep(seqNo: u32, del: nat, data: Bytes, mgr: CachePacketManager)
      requires View().Valid() && 0 < del < 64
      modifies this, cachePackets, mgr
      ensures Outcome(View(), mgr.View(), true, []) == ReceiveAhead(old(View()), old(mgr.View()), seqNo, del, data)
    {
      if Sub(seqNo, lastRepeatSeq) < 64 {
        lastRepeatSeq := seqNo;
      }
      var s := cachePackets[seqNo % 64];
      if s.keep && s.seqNo == seqNo {
        return;
      }
      var id := mgr.PopPacketBuffer();
      cachePackets[seqNo % 64] := Slot(true, seqNo, Some(CacheBuffer(id, data)));
      cacheRepeatCount := cacheRepeatCount[del - 1 := true];
    }

    /** The catch-up loop after the packet that `recv` was waiting for. */
    method DrainCached(first: seq<Bytes>, mgr: CachePacketManager) returns (parsed: seq<Bytes>)
      requires View().Valid()
      modifies this, cachePackets, mgr
      ensures Outcome(View(), mgr.View(), true, parsed) == Drain(old(View()), old(mgr.View()), first)
    {
      ghost var all := Drain(View(), mgr.View(), first);
      parsed := first;
      var idx: u32 := recvRepeatSeq;
      while idx != lastRepeatSeq
        invariant idx == recvRepeatSeq && View().Valid()
        invariant Drain(View(), mgr.View(), parsed) == all
        decreases Sub(lastRepeatSeq, idx)
      {
        StepsToward(lastRepeatSeq, idx);
        idx := W(idx + 1);
        var s := cachePackets[idx % 64];
        if !s.keep || s.seqNo != idx {
          break;
        }
        parsed := parsed + [s.buffer.value.data];
        Take(idx);
        mgr.PushPacketBuffer(s.buffer.value.id);
      }
    }

    method Take(idx: u32)
      requires View().Valid() && idx == W(recvRepeatSeq + 1)
      modifies this, cachePackets
      ensures View() == Taken(old(View()), idx)
    {
      var s := cachePackets[idx % 64];
      cachePackets[idx % 64] := s.(keep := false, buffer := None);
      recvRepeatSeq := W(recvRepeatSeq + 1);
      cacheRepeatCount := ShiftRight(cacheRepeatCount);
    }

    /** `Reset`: every buffer goes back and every slot that held one is cleared. */
    method Reset(mgr: CachePacketManager)
      requires View().Valid()
      modifies this, cachePackets, mgr
      ensures mgr.View() == ReturnFrom(old(cachePackets[..]), old(mgr.View()), 0)
      ensures recvRepeatSeq == lastRepeatSeq == 0 && cacheRepeatCount == seq(64, _ => false)
      ensures forall i :: 0 <= i < 64 ==> !cachePackets[i].keep && cachePackets[i].buffer.None?
      ensures Agrees(View(), Simple(0, map[], 0))
    {
      recvRepeatSeq, lastRepeatSeq, cacheRepeatCount := 0, 0, seq(64, _ => false);
      for i := 0 to 64
        invariant recvRepeatSeq == lastRepeatSeq == 0 && cacheRepeatCount == seq(64, _ => false)
        invariant forall k :: 0 <= k < i ==> !cachePackets[k].keep && cachePackets[k].buffer.None?
        invariant forall k :: i <= k < 64 ==> cachePackets[k] == old(cachePackets[k])
        invariant ReturnFrom(old(cachePackets[..]), mgr.View(), i) == ReturnFrom(old(cachePackets[..]), old(mgr.View()), 0)
      {
        var s := cachePackets[i];
        if s.buffer.Some? {
          mgr.PushPacketBuffer(s.buffer.value.id);
          cachePackets[i] := Slot(false, 0, None);
        }
      }
    }
  }

  // ---------------------------------------------------------------------------------------------
  // The simple machine
  // ---------------------------------------------------------------------------------------------

  /**
   Everything up to `recv` is parsed, `cache` holds packets received ahead of their turn, and
   `last` is the highest number held.
   */
  datatype Simple = Simple(recv: nat, cache: map<nat, CacheBuffer>, last: nat) {
    predicate Holds(n: nat) {
      n <= recv || n in cache
    }

    /** Count the number after `recv` as parsed. */
    function Advance(): Simple {
      Simple(recv + 1, cache - {recv + 1}, last)
    }

    ghost predicate Valid() {
      && recv <= last
      && Holds(last)
      && (forall n :: n in cache ==> recv < n <= last)
      && recv + 1 !in cache
    }
  }

  datatype SimpleOutcome = SimpleOutcome(a: Simple, mgr: Manager, ack: bool, parsed: seq<Bytes>)

  function SimpleDrain(a: Simple, m: Manager, parsed: seq<Bytes>): (o: SimpleOutcome)
    decreases |a.cache|
  {
    if a.recv + 1 !in a.cache then
      SimpleOutcome(a, m, true, parsed)
    else
      var b := a.cache[a.recv + 1];
      assert |a.cache - {a.recv + 1}| < |a.cache| by {
        SmallerCache(a.cache, a.recv + 1);
      }
      SimpleDrain(a.Advance(), m.Push(b.id), parsed + [b.data])
  }

  lemma SmallerCache(cache: map<nat, CacheBuffer>, k: nat)
    requires k in cache
    ensures |cache - {k}| < |cache|
  {
  }

  function SimpleReceive(a: Simple, m: Manager, n: nat, data: Bytes): SimpleOutcome {
    if n <= a.recv then
      SimpleOutcome(a, m, a.recv - n < 64, [])
    else if n == a.recv + 1 then
      SimpleDrain(Simple(n, a.cache, if a.last < n then n else a.last), m, [data])
    else if n - a.recv >= 64 then
      SimpleOutcome(a, m, false, [])
    else if n in a.cache then
      SimpleOutcome(a, m, true, [])
    else
      SimpleOutcome(Simple(a.recv, a.cache[n := CacheBuffer(m.Next(), data)], if a.last < n then n else a.last),
                    m.Pop(), true, [])
  }

  // ---------------------------------------------------------------------------------------------
  // Refinement
  // ---------------------------------------------------------------------------------------------

  /** The slot and the mask bit of number `n` say whether, and with which buffer, `n` is cached. */
  ghost predicate SlotAgrees(c: Channel, a: Simple, n: nat)
    requires c.Valid()
    requires a.recv < n <= a.recv + 64
  {
    var s := c.slots[n % 64];
    && c.mask[n - a.recv - 1] == s.keep
    && (s.keep <==> n in a.cache)
    && (s.keep ==> s.seqNo == W(n) && s.buffer == Some(a.cache[n]))
  }

  ghost predicate RingAgrees(c: Channel, a: Simple) {
    && c.Valid()
    && c.recv == W(a.recv)
    && (forall n :: a.recv < n <= a.recv + 64 ==> SlotAgrees(c, a, n))
    && (forall n :: n in a.cache ==> a.recv < n < a.recv + 64)
  }

  /** What holds between calls. */
  ghost predicate Agrees(c: Channel, a: Simple) {
    && a.Valid()
    && RingAgrees(c, a)
    && c.last == W(a.last)
  }

  /** What holds inside the drain loop: with an empty cache the word `last` may lag one behind. */
  ghost predicate DrainAgrees(c: Channel, a: Simple) {
    && RingAgrees(c, a)
    && a.Holds(a.last)
    && a.recv <= a.last < a.recv + 64
    && (forall n :: n in a.cache ==> n <= a.last)
    && (c.last == W(a.last) || (a.last == a.recv && c.last == W(a.recv - 1)))
  }

  lemma InitialAgrees()
    ensures Agrees(Initial(), Simple(0, map[], 0))
  {
  }

  /** Moving `recv` over a number whose slot is emptied shifts the mask by one. */
  lemma RingAdvances(c: Channel, a: Simple, c': Channel)
    requires RingAgrees(c, a)
    requires c'.Valid() && c'.recv == W(a.recv + 1) && c'.mask == ShiftRight(c.mask)
    requires !c'.slots[(a.recv + 1) % 64].keep
    requires forall i :: 0 <= i < 64 && i != (a.recv + 1) % 64 ==> c'.slots[i] == c.slots[i]
    ensures RingAgrees(c', a.Advance())
  {
    var a' := a.Advance();
    forall n | a'.recv < n <= a'.recv + 64
      ensures SlotAgrees(c', a', n)
    {
      if n == a.recv + 65 {
        assert n % 64 == (a.recv + 1) % 64;
      } else {
        assert SlotAgrees(c, a, n);
        if n % 64 == (a.recv + 1) % 64 {
          SlotInjective(n, a.recv + 1);
        }
      }
    }
  }

  /** One turn of the drain loop, when the next number is cached. */
  lemma TakeOne(c: Channel, a: Simple)
    requires DrainAgrees(c, a) && a.recv + 1 in a.cache
    ensures var next := W(c.recv + 1);
            var s := c.slots[next % 64];
            && c.recv != c.last && s.keep && s.seqNo == next && s.buffer == Some(a.cache[a.recv + 1])
            && DrainAgrees(Taken(c, next), a.Advance())
  {
    SuccOfW(a.recv);
    SlotOfW(a.recv + 1);
    assert SlotAgrees(c, a, a.recv + 1);
    assert c.recv != c.last by {
      if c.recv == c.last {
        WInjective(a.recv, a.last);
      }
    }
    RingAdvances(c, a, Taken(c, W(c.recv + 1)));
  }

  /** And when it is not, the loop stops. */
  lemma StopHere(c: Channel, a: Simple, m: Manager, parsed: seq<Bytes>)
    requires DrainAgrees(c, a) && a.recv + 1 !in a.cache
    ensures Drain(c, m, parsed) == Outcome(c, m, true, parsed)
  {
    SuccOfW(a.recv);
    SlotOfW(a.recv + 1);
    assert SlotAgrees(c, a, a.recv + 1);
  }

  lemma {:induction false} DrainRefines(c: Channel, a: Simple, m: Manager, parsed: seq<Bytes>)
    requires DrainAgrees(c, a)
    ensures var o, so := Drain(c, m, parsed), SimpleDrain(a, m, parsed);
            && o.mgr == so.mgr && o.parsed == so.parsed && so.ack
            && DrainAgrees(o.ch, so.a) && so.a.recv + 1 !in so.a.cache && so.a.last == a.last
            && (a.last != a.recv ==> o.ch.last == W(a.last))
    decreases |a.cache|
  {
    if a.recv + 1 in a.cache {
      TakeOne(c, a);
      SmallerCache(a.cache, a.recv + 1);
      var b := a.cache[a.recv + 1];
      DrainRefines(Taken(c, W(c.recv + 1)), a.Advance(), m.Push(b.id), parsed + [b.data]);
    } else {
      StopHere(c, a, m, parsed);
    }
  }

  lemma DeliverRefines(c: Channel, a: Simple, m: Manager, data: Bytes)
    requires Agrees(c, a)
    ensures var o, so := ReceiveNext(c, m, W(a.recv + 1), data), SimpleReceive(a, m, a.recv + 1, data);
            && Agrees(o.ch, so.a)
            && o.mgr == so.mgr && o.ack && so.ack && o.parsed == so.parsed
  {
    assert SlotAgrees(c, a, a.recv + 1);
    var c1 := c.(recv := W(a.recv + 1), mask := ShiftRight(c.mask));
    var a1 := Simple(a.recv + 1, a.cache, if a.last == a.recv then a.recv + 1 else a.last);
    assert a.cache - {a.recv + 1} == a.cache;
    RingAdvances(c, a, c1);
    RingIgnoresLast(c1, a.Advance(), c1.last, a1.last);
    DrainRefines(c1, a1, m, [data]);
    var o, so := Drain(c1, m, [data]), SimpleDrain(a1, m, [data]);
    if c.recv == c.last {
      WInjective(a.recv, a.last);
      RingIgnoresLast(o.ch, so.a, o.ch.recv, so.a.last);
    }
  }

  lemma RingIgnoresLast(c: Channel, a: Simple, last: u32, l: nat)
    requires RingAgrees(c, a)
    ensures RingAgrees(c.(last := last), a.(last := l))
  {
    forall n | a.recv < n <= a.recv + 64
      ensures SlotAgrees(c.(last := last), a.(last := l), n)
    {
      assert SlotAgrees(c, a, n);
    }
  }

  /** Caching `n` touches no slot that another cached number needs. */
  lemma RingCaches(c: Channel, a: Simple, n: nat, b: CacheBuffer)
    requires RingAgrees(c, a) && a.recv + 1 < n < a.recv + 64 && n !in a.cache
    ensures RingAgrees(c.(mask := c.mask[n - a.recv - 1 := true],
                          slots := c.slots[n % 64 := Slot(true, W(n), Some(b))]),
                       a.(cache := a.cache[n := b]))
  {
    var c' := c.(mask := c.mask[n - a.recv - 1 := true], slots := c.slots[n % 64 := Slot(true, W(n), Some(b))]);
    var a' := a.(cache := a.cache[n := b]);
    forall k | a'.recv < k <= a'.recv + 64
      ensures SlotAgrees(c', a', k)
    {
      assert SlotAgrees(c, a, k);
      if k % 64 == n % 64 {
        SlotInjective(k, n);
      }
    }
  }

  lemma CacheRefines(c: Channel, a: Simple, m: Manager, n: nat, data: Bytes)
    requires Agrees(c, a) && a.recv + 1 < n < a.recv + 64
    ensures var o, so := ReceiveAhead(c, m, W(n), n - a.recv, data), SimpleReceive(a, m, n, data);
            && Agrees(o.ch, so.a)
            && o.mgr == so.mgr && o.ack && so.ack && o.parsed == so.parsed
  {
    Distances(a.last, n);
    SlotOfW(n);
    assert SlotAgrees(c, a, n);
    var l := if a.last < n then n else a.last;
    var b := CacheBuffer(m.Next(), data);
    if n in a.cache {
      RingIgnoresLast(c, a, W(l), l);
    } else {
      RingCaches(c, a, n, b);
      RingIgnoresLast(c.(mask := c.mask[n - a.recv - 1 := true], slots := c.slots[n % 64 := Slot(true, W(n), Some(b))]),
                      a.(cache := a.cache[n := b]), W(l), l);
    }
  }

  /**
   The 32-bit step equals the unbounded step, and keeps the ring, the mask and `last` in agreement
   with the map, for every packet whose number is unambiguous.
   */
  lemma ReceiveRefines(c: Channel, a: Simple, m: Manager, n: nat, data: Bytes)
    requires Agrees(c, a)
    requires Unambiguous(a.recv, n)
    ensures var o, so := Receive(c, m, W(n), data), SimpleReceive(a, m, n, data);
            && Agrees(o.ch, so.a)
            && o.mgr == so.mgr && o.ack == so.ack && o.parsed == so.parsed
  {
    Distances(a.recv, n);
    if n == a.recv + 1 {
      DeliverRefines(c, a, m, data);
      assert Receive(c, m, W(n), data) == ReceiveNext(c, m, W(n), data);
    } else if a.recv < n < a.recv + 64 {
      CacheRefines(c, a, m, n, data);
      assert Receive(c, m, W(n), data) == ReceiveAhead(c, m, W(n), n - a.recv, data);
    } else {
      assert Receive(c, m, W(n), data) == Outcome(c, m, a.recv - 64 < n <= a.recv, []);
    }
  }

  /**
   What a packet does, by how far ahead of `recv` it is: within a window either way it is answered, and else
   nothing happens. The next one is parsed first of all; one further ahead is kept, in one new buffer, if it
   is not kept already; one behind changes nothing.
   */
  lemma ReceiveIs(c: Channel, a: Simple, m: Manager, n: nat, data: Bytes)
    requires Agrees(c, a) && Unambiguous(a.recv, n)
    ensures var o, ahead := Receive(c, m, W(n), data), n - a.recv;
            && (o.ack <==> -64 < ahead < 64)
            && (o.parsed == [] <==> ahead != 1) && (ahead == 1 ==> o.parsed[0] == data)
            && (ahead <= 0 || ahead >= 64 ==> o.ch == c && o.mgr == m)
            && (1 < ahead < 64 ==> o.ch.slots[n % 64].seqNo == W(n) && o.ch.slots[n % 64].buffer.Some? && o.ch.recv == c.recv)
            && (1 < ahead < 64 && n in a.cache ==> o.ch.slots == c.slots && o.mgr == m)
            && (1 < ahead < 64 && n !in a.cache ==>
                  o.ch.slots[n % 64].buffer == Some(CacheBuffer(m.Next(), data)) && o.mgr == m.Pop())
  {
    Distances(a.recv, n);
    ReceiveRefines(c, a, m, n, data);
    if n == a.recv + 1 {
      DrainStarts(Simple(n, a.cache, if a.last < n then n else a.last), m, [data]);
    } else if a.recv < n < a.recv + 64 {
      SlotOfW(n);
      assert SlotAgrees(c, a, n);
      assert SlotAgrees(Receive(c, m, W(n), data).ch, SimpleReceive(a, m, n, data).a, n);
    }
  }

  /** Draining only appends to what was parsed. */
  lemma {:induction false} DrainStarts(a: Simple, m: Manager, parsed: seq<Bytes>)
    ensures parsed <= SimpleDrain(a, m, parsed).parsed
    decreases |a.cache|
  {
    if a.recv + 1 in a.cache {
      SmallerCache(a.cache, a.recv + 1);
      var b := a.cache[a.recv + 1];
      DrainStarts(a.Advance(), m.Push(b.id), parsed + [b.data]);
      assert parsed <= parsed + [b.data];
    }
  }

  /** The condition is exact: the two steps answer differently for every ambiguous number. */
  lemma RefinementIsExact(c: Channel, a: Simple, m: Manager, n: nat, data: Bytes)
    requires Agrees(c, a)
    ensures Unambiguous(a.recv, n) <==> Receive(c, m, W(n), data).ack == SimpleReceive(a, m, n, data).ack
  {
    if Unambiguous(a.recv, n) {
      ReceiveRefines(c, a, m, n, data);
    } else {
      AmbiguousLooksNear(a.recv, n);
      assert Receive(c, m, W(n), data).ack;
    }
  }

  // ---------------------------------------------------------------------------------------------
  // What a step parses
  // ---------------------------------------------------------------------------------------------

  /** Every cached packet is the one the sender gave that number. */
  ghost predicate CacheFrom(a: Simple, sent: seq<Bytes>) {
    forall n :: n in a.cache ==> 0 < n <= |sent| && a.cache[n].data == sent[n - 1]
  }

  /** Draining parses the packets numbered from `recv + 1` up to the new `recv`, in order. */
  lemma {:induction false} DrainParses(a: Simple, m: Manager, parsed: seq<Bytes>, sent: seq<Bytes>)
    requires CacheFrom(a, sent) && a.recv <= |sent|
    ensures var o := SimpleDrain(a, m, parsed);
            && CacheFrom(o.a, sent) && a.recv <= o.a.recv <= |sent| && o.ack
            && o.parsed == parsed + sent[a.recv..o.a.recv]
            && o.a.recv + 1 !in o.a.cache
            && (forall n: nat :: a.Holds(n) <==> o.a.Holds(n))
    decreases |a.cache|
  {
    if a.recv + 1 in a.cache {
      var b := a.cache[a.recv + 1];
      SmallerCache(a.cache, a.recv + 1);
      DrainParses(a.Advance(), m.Push(b.id), parsed + [b.data], sent);
      var o := SimpleDrain(a, m, parsed);
      assert sent[a.recv..o.a.recv] == [b.data] + sent[a.recv + 1..o.a.recv];
    }
  }

  /**
   One arrival parses exactly the sent packets between the old and the new `recv`; it makes the
   receiver hold the arriving number exactly when it is acknowledged, and no other number.
   */
  lemma ReceiveParses(a: Simple, m: Manager, n: nat, sent: seq<Bytes>)
    requires CacheFrom(a, sent) && a.recv <= |sent| && 0 < n <= |sent|
    ensures var o := SimpleReceive(a, m, n, sent[n - 1]);
            && CacheFrom(o.a, sent) && a.recv <= o.a.recv <= |sent|
            && o.parsed == sent[a.recv..o.a.recv]
            && (o.ack ==> o.a.Holds(n))
            && (forall k: nat :: o.a.Holds(k) <==> a.Holds(k) || (k == n && o.ack))
  {
    if n == a.recv + 1 {
      NextParses(a, m, sent);
    }
  }

  lemma NextParses(a: Simple, m: Manager, sent: seq<Bytes>)
    requires CacheFrom(a, sent) && a.recv < |sent|
    ensures var o := SimpleReceive(a, m, a.recv + 1, sent[a.recv]);
            && CacheFrom(o.a, sent) && a.recv < o.a.recv <= |sent| && o.ack
            && o.parsed == sent[a.recv..o.a.recv]
            && (forall k: nat :: o.a.Holds(k) <==> a.Holds(k) || k == a.recv + 1)
  {
    var n := a.recv + 1;
    var a1 := Simple(n, a.cache, if a.last < n then n else a.last);
    DrainParses(a1, m, [sent[a.recv]], sent);
    var o := SimpleDrain(a1, m, [sent[a.recv]]);
    assert sent[a.recv..o.a.recv] == [sent[a.recv]] + sent[n..o.a.recv];
    forall k: nat
      ensures o.a.Holds(k) <==> a.Holds(k) || k == n
    {
      assert a1.Holds(k) <==> o.a.Holds(k);
    }
  }

  // ---------------------------------------------------------------------------------------------
  // Cache buffers are conserved
  // ---------------------------------------------------------------------------------------------

  ghost function HeldIds(a: Simple): set<nat> {
    set n | n in a.cache :: a.cache[n].id
  }

  /** What the manager counts as in use is what others hold plus one buffer per cached packet. */
  ghost predicate Conserved(a: Simple, m: Manager, others: set<nat>) {
    && m.Valid()
    && m.used == others + HeldIds(a)
    && others !! HeldIds(a)
    && forall n, k :: n in a.cache && k in a.cache && n != k ==> a.cache[n].id != a.cache[k].id
  }

  lemma HeldAfterRemoval(a: Simple)
    requires a.recv + 1 in a.cache
    requires forall n, k :: n in a.cache && k in a.cache && n != k ==> a.cache[n].id != a.cache[k].id
    ensures HeldIds(a.Advance()) == HeldIds(a) - {a.cache[a.recv + 1].id}
  {
    forall id | id in HeldIds(a) && id != a.cache[a.recv + 1].id
      ensures id in HeldIds(a.Advance())
    {
      var n :| n in a.cache && a.cache[n].id == id;
      assert n in a.Advance().cache;
    }
  }

  lemma {:induction false} DrainConserves(a: Simple, m: Manager, parsed: seq<Bytes>, others: set<nat>)
    requires Conserved(a, m, others)
    ensures var o := SimpleDrain(a, m, parsed); Conserved(o.a, o.mgr, others)
    decreases |a.cache|
  {
    if a.recv + 1 in a.cache {
      var b := a.cache[a.recv + 1];
      var a' := a.Advance();
      SmallerCache(a.cache, a.recv + 1);
      assert b.id in HeldIds(a);
      PushReturns(m, b.id);
      HeldAfterRemoval(a);
      DrainConserves(a', m.Push(b.id), parsed + [b.data], others);
    }
  }

  lemma ReceiveConserves(a: Simple, m: Manager, n: nat, data: Bytes, others: set<nat>)
    requires Conserved(a, m, others)
    ensures var o := SimpleReceive(a, m, n, data); Conserved(o.a, o.mgr, others)
  {
    if n == a.recv + 1 {
      var a1 := Simple(n, a.cache, if a.last < n then n else a.last);
      assert HeldIds(a1) == HeldIds(a);
      DrainConserves(a1, m, [data], others);
    } else {
      PopIsFresh(m);
      var o := SimpleReceive(a, m, n, data);
      if o.mgr != m || o.a != a {
        forall id | id in HeldIds(a)
          ensures id in HeldIds(o.a)
        {
          var k :| k in a.cache && a.cache[k].id == id;
          assert k in o.a.cache;
        }
        assert n in o.a.cache;
        assert HeldIds(o.a) == HeldIds(a) + {m.Next()};
      }
    }
  }

  ghost function Bits(mask: seq<bool>): set<nat> {
    set i: nat | i < |mask| && mask[i]
  }

  /** The numbers whose bits are set, `d` being the number of bit 0. */
  ghost function Numbered(bits: set<nat>, d: nat): set<nat> {
    set i | i in bits :: i + d
  }

  lemma {:induction false} NumberedSize(bits: set<nat>, d: nat)
    ensures |Numbered(bits, d)| == |bits|
  {
    if bits == {} {
      assert Numbered(bits, d) == {};
    } else {
      var i :| i in bits;
      NumberedSize(bits - {i}, d);
      forall x | x in Numbered(bits, d) && x != i + d
        ensures x in Numbered(bits - {i}, d)
      {
        var k :| k in bits && k + d == x;
        assert k in bits - {i};
      }
      assert Numbered(bits, d) == Numbered(bits - {i}, d) + {i + d};
    }
  }

  lemma {:induction false} ImageSize(keys: set<nat>, cache: map<nat, CacheBuffer>)
    requires forall n :: n in keys ==> n in cache
    requires forall n, k :: n in keys && k in keys && n != k ==> cache[n].id != cache[k].id
    ensures |set n | n in keys :: cache[n].id| == |keys|
  {
    var ids := set n | n in keys :: cache[n].id;
    if keys != {} {
      var n :| n in keys;
      var rest := set k | k in keys - {n} :: cache[k].id;
      ImageSize(keys - {n}, cache);
      assert ids == rest + {cache[n].id};
    } else {
      assert ids == {};
    }
  }

  lemma BitsAreCached(c: Channel, a: Simple)
    requires Agrees(c, a)
    ensures Numbered(Bits(c.mask), a.recv + 1) == a.cache.Keys
  {
    forall n: nat
      ensures n in Numbered(Bits(c.mask), a.recv + 1) <==> n in a.cache.Keys
    {
      if a.recv < n <= a.recv + 64 {
        assert SlotAgrees(c, a, n);
        var i := n - a.recv - 1;
        assert n in Numbered(Bits(c.mask), a.recv + 1) <==> i in Bits(c.mask);
      }
    }
  }

  /** The channel holds as many buffers as its mask has bits set. */
  lemma MaskCountsBuffers(c: Channel, a: Simple, m: Manager, others: set<nat>)
    requires Agrees(c, a) && Conserved(a, m, others)
    ensures |m.used - others| == |Bits(c.mask)|
  {
    BitsAreCached(c, a);
    NumberedSize(Bits(c.mask), a.recv + 1);
    ImageSize(a.cache.Keys, a.cache);
    assert m.used - others == HeldIds(a);
    assert HeldIds(a) == set n | n in a.cache.Keys :: a.cache[n].id;
  }

  /** The ids held in slots `i` and above. */
  ghost function IdsFrom(slots: seq<Slot>, i: nat): set<nat>
    requires i <= |slots|
  {
    set k: nat | i <= k < |slots| && slots[k].buffer.Some? :: slots[k].buffer.value.id
  }

  lemma {:induction false} ReturnsAll(slots: seq<Slot>, m: Manager, i: nat, others: set<nat>)
    requires i <= |slots| && m.Valid()
    requires m.used == others + IdsFrom(slots, i) && others !! IdsFrom(slots, i)
    requires forall j, k :: i <= j < k < |slots| && slots[j].buffer.Some? && slots[k].buffer.Some? ==>
                              slots[j].buffer.value.id != slots[k].buffer.value.id
    ensures ReturnFrom(slots, m, i).Valid() && ReturnFrom(slots, m, i).used == others
    decreases |slots| - i
  {
    if i == |slots| {
      assert IdsFrom(slots, i) == {};
    } else if slots[i].buffer.Some? {
      var id := slots[i].buffer.value.id;
      assert id in IdsFrom(slots, i);
      PushReturns(m, id);
      assert IdsFrom(slots, i) == IdsFrom(slots, i + 1) + {id};
      ReturnsAll(slots, m.Push(id), i + 1, others);
    } else {
      assert IdsFrom(slots, i) == IdsFrom(slots, i + 1);
      ReturnsAll(slots, m, i + 1, others);
    }
  }

  /** `Reset` gives back every buffer the channel holds, each once, and touches no other. */
  lemma ResetReturnsAll(c: Channel, a: Simple, m: Manager, others: set<nat>)
    requires Agrees(c, a) && Conserved(a, m, others)
    ensures ReturnFrom(c.slots, m, 0).Valid()
    ensures ReturnFrom(c.slots, m, 0).used == others
  {
    forall k: nat | k < 64 && c.slots[k].buffer.Some?
      ensures AtSlot(a.recv + 1, k) in a.cache && Some(a.cache[AtSlot(a.recv + 1, k)]) == c.slots[k].buffer
    {
      assert SlotAgrees(c, a, AtSlot(a.recv + 1, k));
    }
    forall n | n in a.cache
      ensures c.slots[n % 64].buffer == Some(a.cache[n])
    {
      assert SlotAgrees(c, a, n);
    }
    assert IdsFrom(c.slots, 0) == HeldIds(a);
    ReturnsAll(c.slots, m, 0, others);
  }
}
