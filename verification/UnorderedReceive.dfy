/**
 The receiving half of the two streams that keep no packets: reliable without order (`rpsNo_`), and
 newest-only (`rNopsNo_`). Both are branches of `Session::RecvDispatch`, and of `Client::RecvDispatch`.
 */
module UnorderedReceive {

  import opened Words

  /** `mask[i]` is bit `i` of the 64-bit `cacheRepeatCount_`. */
  datatype Stream = Stream(recv: u32, last: u32, mask: seq<bool>) {
    predicate Valid() {
      |mask| == 64
    }
  }

  /** `parsed` tells whether the packet was handed on, to `PacketParse` or `RecvChunckPacket`. */
  datatype Outcome = Outcome(st: Stream, ack: bool, parsed: bool)

  function Initial(): Stream {
    Stream(0, 0, seq(64, _ => false))
  }

  /** How many low bits of the mask are set before the first clear one. */
  ghost function LowOnes(mask: seq<bool>): nat {
    if mask == [] || !mask[0] then 0 else 1 + LowOnes(mask[1..])
  }

  lemma {:induction false} LowOnesPadded(mask: seq<bool>)
    ensures LowOnes(mask + [false]) == LowOnes(mask)
  {
    if mask != [] && mask[0] {
      assert (mask + [false])[1..] == mask[1..] + [false];
      LowOnesPadded(mask[1..]);
    }
  }

  /** Numbers already handed on are counted into `recv`. */
  function CatchUp(s: Stream): (r: Stream)
    requires s.Valid()
    ensures r.Valid() && !r.mask[0] && r.last == s.last
    decreases LowOnes(s.mask)
  {
    if s.mask[0] then
      LowOnesPadded(s.mask[1..]);
      CatchUp(s.(recv := W(s.recv + 1), mask := ShiftRight(s.mask)))
    else s
  }

  function Receive(s: Stream, seqNo: u32): (o: Outcome)
    requires s.Valid()
    ensures o.st.Valid()
  {
    if Sub(s.recv, seqNo) < 64 then
      Outcome(s, true, false)
    else if seqNo != W(s.recv + 1) then
      var del := Sub(seqNo, s.recv);
      if del >= 64 then
        Outcome(s, false, false)
      else
        var last := if Sub(seqNo, s.last) < 64 then seqNo else s.last;
        Outcome(Stream(s.recv, last, s.mask[del - 1 := true]), true, !s.mask[del - 1])
    else
      var s1 := CatchUp(s.(recv := seqNo, mask := ShiftRight(s.mask)));
      Outcome(if s.recv == s.last then s1.(last := s1.recv) else s1, true, true)
  }

  class UnorderedStream {
    var recvRepeatSeq: u32
    var lastRepeatSeq: u32
    var cacheRepeatCount: seq<bool>

    constructor ()
      ensures View() == Initial()
    {
      recvRepeatSeq, lastRepeatSeq, cacheRepeatCount := 0, 0, seq(64, _ => false);
    }

    function View(): Stream
      reads this
    {
      Stream(recvRepeatSeq, lastRepeatSeq, cacheRepeatCount)
    }

    method RecvDispatch(seqNo: u32) returns (ack: bool, parsed: bool)
      requires View().Valid()
      modifies this
      ensures Outcome(View(), ack, parsed) == Receive(old(View()), seqNo)
    {
      if Sub(recvRepeatSeq, seqNo) < 64 {
        return true, false;
      }
      if seqNo != W(recvRepeatSeq + 1) {
        var del := Sub(seqNo, recvRepeatSeq);
        if del >= 64 {
          return false, false;
        }
        if Sub(seqNo, lastRepeatSeq) < 64 {
          lastRepeatSeq := seqNo;
        }
        parsed := false;
        if !cacheRepeatCount[del - 1] {
          cacheRepeatCount := cacheRepeatCount[del - 1 := true];
          parsed := true;
        }
        return true, parsed;
      }
      var isLastUpdate := recvRepeatSeq == lastRepeatSeq;
      recvRepeatSeq := seqNo;
      cacheRepeatCount := ShiftRight(cacheRepeatCount);
      parsed := true;
      ghost var all := CatchUp(View());
      while cacheRepeatCount[0]
        invariant View().Valid() && CatchUp(View()) == all
        decreases LowOnes(cacheRepeatCount)
      {
        LowOnesPadded(cacheRepeatCount[1..]);
        cacheRepeatCount := ShiftRight(cacheRepeatCount);
        recvRepeatSeq := W(recvRepeatSeq + 1);
      }
      if isLastUpdate {
        lastRepeatSeq := recvRepeatSeq;
      }
      ack := true;
    }
  }

  // ---------------------------------------------------------------------------------------------
  // The simple machine
  // ---------------------------------------------------------------------------------------------

  /** Everything up to `recv`, and every number in `ahead`, has been handed on. */
  datatype Simple = Simple(recv: nat, ahead: set<nat>, last: nat) {
    predicate Holds(n: nat) {
      n <= recv || n in ahead
    }

    ghost predicate Valid() {
      && recv <= last
      && Holds(last)
      && (forall n :: n in ahead ==> recv + 1 < n <= last)
    }
  }

  datatype SimpleOutcome = SimpleOutcome(a: Simple, ack: bool, parsed: bool)

  function SimpleCatchUp(a: Simple): (r: Simple)
    decreases |a.ahead|
  {
    if a.recv + 1 in a.ahead then SimpleCatchUp(Simple(a.recv + 1, a.ahead - {a.recv + 1}, a.last)) else a
  }

  function SimpleReceive(a: Simple, n: nat): SimpleOutcome {
    if n <= a.recv then
      SimpleOutcome(a, a.recv - n < 64, false)
    else if n == a.recv + 1 then
      SimpleOutcome(SimpleCatchUp(Simple(n, a.ahead, if a.last < n then n else a.last)), true, true)
    else if n - a.recv >= 64 then
      SimpleOutcome(a, false, false)
    else
      SimpleOutcome(Simple(a.recv, a.ahead + {n}, if a.last < n then n else a.last), true, n !in a.ahead)
  }

  // ---------------------------------------------------------------------------------------------
  // Refinement
  // ---------------------------------------------------------------------------------------------

  ghost predicate BitAgrees(s: Stream, a: Simple, n: nat)
    requires s.Valid() && a.recv < n <= a.recv + 64
  {
    s.mask[n - a.recv - 1] <==> n in a.ahead
  }

  /** Bit `i` is set exactly if `recv + 1 + i` has been handed on. */
  ghost predicate MaskAgrees(s: Stream, a: Simple) {
    && s.Valid()
    && s.recv == W(a.recv)
    && (forall n :: a.recv < n <= a.recv + 64 ==> BitAgrees(s, a, n))
    && (forall n :: n in a.ahead ==> a.recv < n < a.recv + 64)
  }

  ghost predicate Agrees(s: Stream, a: Simple) {
    && a.Valid()
    && MaskAgrees(s, a)
    && s.last == W(a.last)
  }

  lemma InitialAgrees()
    ensures Agrees(Initial(), Simple(0, {}, 0))
  {
  }

  lemma MaskAdvances(s: Stream, a: Simple)
    requires MaskAgrees(s, a)
    ensures MaskAgrees(s.(recv := W(a.recv + 1), mask := ShiftRight(s.mask)),
                       Simple(a.recv + 1, a.ahead - {a.recv + 1}, a.last))
  {
    var s' := s.(recv := W(a.recv + 1), mask := ShiftRight(s.mask));
    var a' := Simple(a.recv + 1, a.ahead - {a.recv + 1}, a.last);
    forall n | a'.recv < n <= a'.recv + 64
      ensures BitAgrees(s', a', n)
    {
      if n <= a.recv + 64 {
        assert BitAgrees(s, a, n);
      }
    }
  }

  /** The catch-up loop leaves the set of numbers handed on as it is, and bit 0 clear. */
  lemma {:induction false} CatchUpRefines(s: Stream, a: Simple)
    requires MaskAgrees(s, a)
    requires a.recv <= a.last && a.Holds(a.last) && forall n :: n in a.ahead ==> n <= a.last
    ensures MaskAgrees(CatchUp(s), SimpleCatchUp(a))
    ensures SimpleCatchUp(a).last == a.last && SimpleCatchUp(a).Valid()
    ensures forall n: nat :: a.Holds(n) <==> SimpleCatchUp(a).Holds(n)
    decreases |a.ahead|
  {
    assert BitAgrees(s, a, a.recv + 1);
    if a.recv + 1 in a.ahead {
      SuccOfW(a.recv);
      var a' := Simple(a.recv + 1, a.ahead - {a.recv + 1}, a.last);
      MaskAdvances(s, a);
      CatchUpRefines(s.(recv := W(a.recv + 1), mask := ShiftRight(s.mask)), a');
      forall n: nat
        ensures a.Holds(n) <==> SimpleCatchUp(a).Holds(n)
      {
        assert a'.Holds(n) <==> SimpleCatchUp(a').Holds(n);
      }
    }
  }

  lemma NextRefines(s: Stream, a: Simple)
    requires Agrees(s, a)
    ensures var o, so := Receive(s, W(a.recv + 1)), SimpleReceive(a, a.recv + 1);
            Agrees(o.st, so.a) && o.ack && o.parsed
    ensures forall n: nat :: SimpleReceive(a, a.recv + 1).a.Holds(n) <==> a.Holds(n) || n == a.recv + 1
  {
    Distances(a.recv, a.recv + 1);
    var s1 := s.(recv := W(a.recv + 1), mask := ShiftRight(s.mask));
    var a1 := Simple(a.recv + 1, a.ahead, if a.last == a.recv then a.recv + 1 else a.last);
    assert a.ahead - {a.recv + 1} == a.ahead;
    MaskAdvances(s, a);
    forall n | a1.recv < n <= a1.recv + 64
      ensures BitAgrees(s1, a1, n)
    {
      assert BitAgrees(s1, Simple(a.recv + 1, a.ahead - {a.recv + 1}, a.last), n);
    }
    CatchUpRefines(s1, a1);
    forall n: nat
      ensures SimpleReceive(a, a.recv + 1).a.Holds(n) <==> a.Holds(n) || n == a.recv + 1
    {
      assert a1.Holds(n) <==> SimpleCatchUp(a1).Holds(n);
    }
    if s.recv == s.last {
      WInjective(a.recv, a.last);
      assert SimpleCatchUp(a1) == a1;
      MaskIgnoresLast(CatchUp(s1), a1, CatchUp(s1).recv);
    }
  }

  /** The number waited for is counted at once. */
  lemma NextCounts(s: Stream, a: Simple)
    requires Agrees(s, a)
    ensures SimpleReceive(a, a.recv + 1).a.recv > a.recv
  {
    CatchUpGrows(Simple(a.recv + 1, a.ahead, if a.last < a.recv + 1 then a.recv + 1 else a.last));
  }

  lemma {:induction false} CatchUpGrows(a: Simple)
    ensures SimpleCatchUp(a).recv >= a.recv
    decreases |a.ahead|
  {
    if a.recv + 1 in a.ahead {
      CatchUpGrows(Simple(a.recv + 1, a.ahead - {a.recv + 1}, a.last));
    }
  }

  lemma MaskIgnoresLast(s: Stream, a: Simple, last: u32)
    requires MaskAgrees(s, a)
    ensures MaskAgrees(s.(last := last), a)
  {
    forall n | a.recv < n <= a.recv + 64
      ensures BitAgrees(s.(last := last), a, n)
    {
      assert BitAgrees(s, a, n);
    }
  }

  /** Setting the bit of a number ahead agrees with adding it. */
  lemma BitSet(s: Stream, a: Simple, n: nat, last: u32, l: nat)
    requires MaskAgrees(s, a) && a.recv < n < a.recv + 64
    ensures MaskAgrees(Stream(s.recv, last, s.mask[n - a.recv - 1 := true]), Simple(a.recv, a.ahead + {n}, l))
  {
    var s', a' := Stream(s.recv, last, s.mask[n - a.recv - 1 := true]), Simple(a.recv, a.ahead + {n}, l);
    forall k | a.recv < k <= a.recv + 64
      ensures BitAgrees(s', a', k)
    {
      assert BitAgrees(s, a, k);
    }
  }

  lemma AheadRefines(s: Stream, a: Simple, n: nat)
    requires Agrees(s, a) && a.recv + 1 < n < a.recv + 64
    ensures var o, so := Receive(s, W(n)), SimpleReceive(a, n);
            && Agrees(o.st, so.a) && o.ack && o.parsed == so.parsed
            && (o.parsed <==> !a.Holds(n)) && so.a.Holds(n)
            && forall k: nat :: so.a.Holds(k) <==> a.Holds(k) || k == n
  {
    Distances(a.recv, n);
    Distances(a.last, n);
    assert BitAgrees(s, a, n);
    var l := if a.last < n then n else a.last;
    BitSet(s, a, n, W(l), l);
  }

  /**
   The 32-bit step equals the unbounded step for every packet whose number is unambiguous. A packet
   is handed on exactly when its number was not held before and is held afterwards, and no other
   number changes: with `Holds` growing along a run, no number is handed on twice.
   */
  lemma ReceiveRefines(s: Stream, a: Simple, n: nat)
    requires Agrees(s, a)
    requires Unambiguous(a.recv, n)
    ensures var o, so := Receive(s, W(n)), SimpleReceive(a, n);
            && Agrees(o.st, so.a) && o.ack == so.ack && o.parsed == so.parsed
            && !o.st.mask[0]
            && (o.parsed <==> !a.Holds(n) && so.a.Holds(n))
            && (o.ack ==> so.a.Holds(n))
            && (forall k: nat :: so.a.Holds(k) <==> a.Holds(k) || (k == n && o.ack))
  {
    Distances(a.recv, n);
    if n == a.recv + 1 {
      NextRefines(s, a);
    } else if a.recv < n < a.recv + 64 {
      AheadRefines(s, a, n);
    } else {
      assert Receive(s, W(n)) == Outcome(s, a.recv - 64 < n <= a.recv, false);
    }
    var o, so := Receive(s, W(n)), SimpleReceive(a, n);
    assert BitAgrees(o.st, so.a, so.a.recv + 1);
  }

  /**
   What a packet does, by how far ahead of `recv` it is: within a window either way it is answered, and
   else nothing happens. It is handed on if it is ahead and not held; one behind changes nothing.
   */
  lemma ReceiveIs(s: Stream, a: Simple, n: nat)
    requires Agrees(s, a) && Unambiguous(a.recv, n)
    ensures var o, ahead := Receive(s, W(n)), n - a.recv;
            && (o.ack <==> -64 < ahead < 64)
            && (o.parsed <==> 0 < ahead < 64 && n !in a.ahead)
            && (ahead <= 0 || ahead >= 64 ==> o.st == s)
  {
    Distances(a.recv, n);
    ReceiveRefines(s, a, n);
  }

  /** The condition is exact: the two steps answer differently for every ambiguous number. */
  lemma RefinementIsExact(s: Stream, a: Simple, n: nat)
    requires Agrees(s, a)
    ensures Unambiguous(a.recv, n) <==> Receive(s, W(n)).ack == SimpleReceive(a, n).ack
  {
    if Unambiguous(a.recv, n) {
      ReceiveRefines(s, a, n);
    } else {
      AmbiguousLooksNear(a.recv, n);
      assert Receive(s, W(n)).ack;
    }
  }

  /** A series of numbers handed on, none twice. */
  ghost predicate Once(order: seq<nat>) {
    forall i, j :: 0 <= i < j < |order| ==> order[i] != order[j]
  }

  /** Whenever a number is handed on, everything a window or more below it already has been. */
  ghost predicate InWindow(order: seq<nat>) {
    forall i, n :: 0 <= i < |order| && 0 < n && n + 64 <= order[i] ==> n in order[..i]
  }

  /** The same, for the numbers of one kind only. */
  ghost predicate InWindowOf(kind: set<nat>, order: seq<nat>) {
    forall i, n :: 0 <= i < |order| && n in kind && n + 64 <= order[i] ==> n in order[..i]
  }

  lemma HandedOnNextOf(kind: set<nat>, order: seq<nat>, n: nat)
    requires Once(order) && InWindowOf(kind, order) && n !in order
    requires forall k :: k in kind && k + 64 <= n ==> k in order
    ensures Once(order + [n]) && InWindowOf(kind, order + [n])
  {
    var more := order + [n];
    forall i, k | 0 <= i < |more| && k in kind && k + 64 <= more[i]
      ensures k in more[..i]
    {
      assert more[..i] == order[..i];
      if i < |order| {
        assert more[i] == order[i];
      } else {
        assert more[..i] == order;
      }
    }
  }

  lemma HandedOnNext(order: seq<nat>, n: nat)
    requires Once(order) && InWindow(order) && n !in order
    requires forall k :: 0 < k && k + 64 <= n ==> k in order
    ensures Once(order + [n]) && InWindow(order + [n])
  {
    var more := order + [n];
    forall i, k | 0 <= i < |more| && 0 < k && k + 64 <= more[i]
      ensures k in more[..i]
    {
      assert more[..i] == order[..i];
      if i < |order| {
        assert more[i] == order[i];
      } else {
        assert more[..i] == order;
      }
    }
  }

  // ---------------------------------------------------------------------------------------------
  // Newest-only
  // ---------------------------------------------------------------------------------------------

  const ACCEPT_RANGE: nat := 0x1fff   // NO_REPEAT_ACCEPT_RANGE

  /** Is a packet numbered `seqNo` newer, and near enough, to be parsed? */
  predicate IsNewer(recv: u32, seqNo: u32) {
    0 < Sub(seqNo, recv) < ACCEPT_RANGE
  }

  class NewestStream {
    var recvRepeatSeq: u32

    constructor ()
      ensures recvRepeatSeq == 0
    {
      recvRepeatSeq := 0;
    }

    method RecvDispatch(seqNo: u32) returns (parsed: bool)
      modifies this
      ensures parsed == IsNewer(old(recvRepeatSeq), seqNo)
      ensures recvRepeatSeq == if parsed then seqNo else old(recvRepeatSeq)
    {
      var del := Sub(seqNo, recvRepeatSeq);
      if del == 0 || del >= ACCEPT_RANGE {
        return false;
      }
      recvRepeatSeq := seqNo;
      parsed := true;
    }
  }

  /** `n` is less than 8191 past the number `k` turns of 2^32 from `r`. */
  predicate PastTurn(k: int, r: nat, n: nat) {
    k * 0x1_0000_0000 < n - r < k * 0x1_0000_0000 + ACCEPT_RANGE
  }

  /**
   The 32-bit test means "newer by less than 8191" for every number except those less than 8191 past
   one or more full turns of the counter, in either direction.
   */
  lemma NewestIsExact(r: nat, n: nat)
    ensures (IsNewer(W(r), W(n)) <==> r < n < r + ACCEPT_RANGE) <==> !exists k :: k != 0 && PastTurn(k, r, n)
  {
    SubOfW(n, r);
    var d := n - r;
    var q := d / 0x1_0000_0000;
    assert d == q * 0x1_0000_0000 + W(d);
    if 0 < W(d) < ACCEPT_RANGE {
      assert PastTurn(q, r, n);
    }
    forall k | PastTurn(k, r, n)
      ensures k == q && 0 < W(d) < ACCEPT_RANGE
    {
      OneTurn(k, r, n);
    }
  }

  lemma OneTurn(k: int, r: nat, n: nat)
    requires PastTurn(k, r, n)
    ensures k == (n - r) / 0x1_0000_0000 && W(n - r) == n - r - k * 0x1_0000_0000
  {
  }

  /**
   So it does for everything up to 2^32 ahead and 2^32 - 8191 behind, and for nothing one step further
   back: this stream tolerates older packets less than the reliable ones do.
   */
  lemma NewestTolerance(r: nat, n: nat)
    ensures -(0x1_0000_0000 - ACCEPT_RANGE) <= n - r <= 0x1_0000_0000 ==>
              (IsNewer(W(r), W(n)) <==> r < n < r + ACCEPT_RANGE)
    ensures n - r == -(0x1_0000_0000 - ACCEPT_RANGE) - 1 ==> IsNewer(W(r), W(n))
  {
    SubOfW(n, r);
  }
}
