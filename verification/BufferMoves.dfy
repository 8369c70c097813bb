/**
 Where a send buffer goes: what each operation on it has done when it ends, from any state in which it
 can begin.
 */
module BufferMoves {

  import opened SendBuffers

  /** Up to `n` steps of session `k`, until it is done. */
  ghost function SessionSteps(s: State, k: nat, n: nat): State
    decreases n
  {
    if n == 0 || !Enabled(s, SessionStep(k)) then s else SessionSteps(Next(s, SessionStep(k)), k, n - 1)
  }

  /** Up to `n` steps of thread `w`, until it is done. */
  ghost function WorkerSteps(s: State, w: nat, n: nat): State
    decreases n
  {
    if n == 0 || !Enabled(s, WorkerStep(w)) then s else WorkerSteps(Next(s, WorkerStep(w)), w, n - 1)
  }

  /** The kernel is done with `b`, and so is its completion. */
  ghost predicate IsReleased(s: State, b: nat) {
    b !in s.kernel && !IsCompleting(s, b)
  }

  /** Some session has just taken `b` out of its slot. */
  ghost predicate IsCleared(s: State, b: nat) {
    exists k :: k in s.ops && s.ops[k] == AckCleared(b)
  }

  /** All but the history is as given. */
  predicate Is(e: State, pool: multiset<nat>, bits: map<nat, Bits>, slots: map<nat, nat>, kernel: set<nat>,
               ops: map<nat, Op>, work: map<nat, Work>) {
    e.pool == pool && e.bits == bits && e.slots == slots && e.kernel == kernel && e.ops == ops && e.work == work
  }

  lemma OpIsOver(ops: map<nat, Op>, k: nat, op: Op)
    requires k in ops && ops[k] == NoOp
    ensures ops[k := op][k := NoOp] == ops
  {
  }

  /** The bits of a pending buffer. */
  lemma PendingBits(s: State, k: nat, b: nat)
    requires Inv(s) && k in s.ops && s.ops[k] == NoOp && b in s.slots && s.slots[b] == k
    ensures b in s.bits && s.bits[b] == Bits(!IsReleased(s, b), true)
  {
    assert BufferOk(s, b);
    if s.stage[b].kern.Worker? {
      assert s.work[s.stage[b].kern.w] == Completing(b);
    } else {
      NotCompleting(s, b);
    }
  }

  /**
   A resend: the session gives the buffer to the kernel, marked as sent and reliable, and keeps it in
   its slot. Nothing else changes.
   */
  lemma RepeatGives(s: State, k: nat, b: nat)
    requires Inv(s) && Enabled(s, StartRepeat(k, b))
    ensures IsReleased(s, b)
    ensures Is(SessionSteps(Next(s, StartRepeat(k, b)), k, 3),
               s.pool, s.bits[b := Bits(true, true)], s.slots, s.kernel + {b}, s.ops, s.work)
  {
    PendingBits(s, k, b);
    RepeatRuns(s, k, b);
  }

  lemma RepeatRuns(s: State, k: nat, b: nat)
    requires Enabled(s, StartRepeat(k, b)) && s.bits[b] == Bits(false, true)
    ensures SessionSteps(Next(s, StartRepeat(k, b)), k, 3).stage.Keys == s.stage.Keys
    ensures Is(SessionSteps(Next(s, StartRepeat(k, b)), k, 3),
               s.pool, s.bits[b := Bits(true, true)], s.slots, s.kernel + {b}, s.ops, s.work)
  {
    var s1 := Next(s, StartRepeat(k, b));
    var s2 := Next(s1, SessionStep(k));
    var s3 := Next(s2, SessionStep(k));
    var s4 := Next(s3, SessionStep(k));
    assert SessionSteps(s3, k, 1) == s4;
    assert SessionSteps(s2, k, 2) == s4;
    OpIsOver(s.ops, k, RepeatStored(b));
  }

  /** A send that is accepted: out of the pool, into a slot, and to the kernel. */
  lemma SendGives(s: State, k: nat, b: nat)
    requires Enabled(s, StartSend(k, b))
    ensures SessionSteps(Next(s, StartSend(k, b)), k, 3).stage.Keys == s.stage.Keys
    ensures Is(SessionSteps(Next(s, StartSend(k, b)), k, 3),
               s.pool - multiset{b}, s.bits[b := Bits(true, true)], s.slots[b := k], s.kernel + {b}, s.ops, s.work)
  {
    var s1 := Next(s, StartSend(k, b));
    var s2 := Next(s1, SessionStep(k));
    var s3 := Next(s2, SessionStep(k));
    var s4 := Next(s3, SessionStep(k));
    assert SessionSteps(s3, k, 1) == s4;
    assert SessionSteps(s2, k, 2) == s4;
    OpIsOver(s.ops, k, SendTyped(b));
  }

  /** A send that the window check refuses leaves everything as it was. */
  lemma RefusalUndoes(s: State, k: nat, b: nat)
    requires Enabled(s, StartSend(k, b))
    ensures var s1 := Next(s, StartSend(k, b));
            Enabled(s1, RefuseSend(k)) && Is(Next(s1, RefuseSend(k)), s.pool, s.bits, s.slots, s.kernel, s.ops, s.work)
  {
    assert s.pool - multiset{b} + multiset{b} == s.pool;
    OpIsOver(s.ops, k, SendPopped(b));
  }

  /**
   An acknowledgement takes the buffer out of its slot, and returns it to the pool exactly if the
   kernel has released it; else it is left to the completion.
   */
  lemma AckReturns(s: State, k: nat, b: nat)
    requires Inv(s) && Enabled(s, StartAck(k, b))
    ensures Is(SessionSteps(Next(s, StartAck(k, b)), k, 2),
               if IsReleased(s, b) then s.pool + multiset{b} else s.pool,
               s.bits[b := Bits(!IsReleased(s, b), false)], s.slots - {b}, s.kernel, s.ops, s.work)
  {
    PendingBits(s, k, b);
    AckRuns(s, k, b, s.bits[b].sending);
  }

  lemma AckRuns(s: State, k: nat, b: nat, sending: bool)
    requires Enabled(s, StartAck(k, b)) && s.bits[b] == Bits(sending, true)
    ensures SessionSteps(Next(s, StartAck(k, b)), k, 2).stage.Keys == s.stage.Keys
    ensures Is(SessionSteps(Next(s, StartAck(k, b)), k, 2), if sending then s.pool else s.pool + multiset{b},
               s.bits[b := Bits(sending, false)], s.slots - {b}, s.kernel, s.ops, s.work)
  {
    var s1 := Next(s, StartAck(k, b));
    var s2 := Next(s1, SessionStep(k));
    var s3 := Next(s2, SessionStep(k));
    assert SessionSteps(s2, k, 1) == s3;
    OpIsOver(s.ops, k, AckMasked(b, s.bits[b].sending));
  }

  lemma WorkIsOver(work: map<nat, Work>, w: nat, x: Work)
    requires w in work && work[w] == NoWork
    ensures work[w := x][w := NoWork] == work
  {
  }

  /** An unreliable send: out of the pool and to the kernel, marked as neither. */
  lemma PlainGives(s: State, w: nat, b: nat)
    requires Enabled(s, StartPlain(w, b))
    ensures Is(WorkerSteps(Next(s, StartPlain(w, b)), w, 2),
               s.pool - multiset{b}, s.bits[b := Bits(false, false)], s.slots, s.kernel + {b}, s.ops, s.work)
  {
    var s1 := Next(s, StartPlain(w, b));
    var s2 := Next(s1, WorkerStep(w));
    var s3 := Next(s2, WorkerStep(w));
    assert WorkerSteps(s2, w, 1) == s3;
    WorkIsOver(s.work, w, PlainTyped(b));
  }

  /** A buffer with the kernel is reliable exactly if it is in a slot or has just left it. */
  lemma KernelBits(s: State, b: nat)
    requires Inv(s) && b in s.kernel
    ensures b in s.bits && (s.bits[b].reliable <==> b in s.slots || IsCleared(s, b))
  {
    assert BufferOk(s, b);
    if s.stage[b].Clearing? {
      assert s.ops[s.stage[b].k] == AckCleared(b);
    }
    forall k | k in s.ops && s.ops[k] == AckCleared(b)
      ensures s.stage[b].Clearing?
    {
      assert OpOk(s, k);
    }
  }

  /**
   A completion takes the buffer back from the kernel, and returns it to the pool exactly if no
   session has it any more; else it is left in its slot, or to the acknowledgement.
   */
  lemma CompletionReturns(s: State, w: nat, b: nat)
    requires Inv(s) && Enabled(s, Complete(w, b))
    ensures var had := b in s.slots || IsCleared(s, b);
            Is(WorkerSteps(Next(s, Complete(w, b)), w, 2),
               if had then s.pool else s.pool + multiset{b},
               s.bits[b := Bits(false, had)], s.slots, s.kernel - {b}, s.ops, s.work)
  {
    KernelBits(s, b);
    CompletionRuns(s, w, b, s.bits[b].reliable);
  }

  lemma CompletionRuns(s: State, w: nat, b: nat, reliable: bool)
    requires Enabled(s, Complete(w, b)) && s.bits[b].reliable == reliable
    ensures WorkerSteps(Next(s, Complete(w, b)), w, 2).stage.Keys == s.stage.Keys
    ensures Is(WorkerSteps(Next(s, Complete(w, b)), w, 2), if reliable then s.pool else s.pool + multiset{b},
               s.bits[b := Bits(false, reliable)], s.slots, s.kernel - {b}, s.ops, s.work)
  {
    var s1 := Next(s, Complete(w, b));
    var s2 := Next(s1, WorkerStep(w));
    var s3 := Next(s2, WorkerStep(w));
    assert WorkerSteps(s2, w, 1) == s3;
    WorkIsOver(s.work, w, Masked(b, s.bits[b].reliable));
  }

  // ---------------------------------------------------------------------------------------------
  // Both orders
  // ---------------------------------------------------------------------------------------------

  /** An acknowledgement from beginning to end, and a completion. */
  ghost function Acknowledged(s: State, k: nat, b: nat): State
    requires Enabled(s, StartAck(k, b))
  {
    SessionSteps(Next(s, StartAck(k, b)), k, 2)
  }

  ghost function Completed(s: State, w: nat, b: nat): State
    requires Enabled(s, Complete(w, b))
  {
    WorkerSteps(Next(s, Complete(w, b)), w, 2)
  }

  lemma AckFirst(s: State, k: nat, w: nat, b: nat)
    requires Enabled(s, StartAck(k, b)) && Enabled(s, Complete(w, b)) && s.bits[b] == Bits(true, true)
    ensures var a := Acknowledged(s, k, b);
            && a.pool == s.pool && Enabled(a, Complete(w, b))
            && Is(Completed(a, w, b), s.pool + multiset{b}, s.bits[b := Bits(false, false)], s.slots - {b},
                  s.kernel - {b}, s.ops, s.work)
  {
    AckRuns(s, k, b, true);
    CompletesAfter(s, Acknowledged(s, k, b), w, b);
  }

  lemma CompletesAfter(s: State, a: State, w: nat, b: nat)
    requires Enabled(s, Complete(w, b)) && b in a.stage
    requires Is(a, s.pool, s.bits[b := Bits(true, false)], s.slots - {b}, s.kernel, s.ops, s.work)
    ensures Enabled(a, Complete(w, b))
    ensures Is(Completed(a, w, b), s.pool + multiset{b}, s.bits[b := Bits(false, false)], s.slots - {b},
               s.kernel - {b}, s.ops, s.work)
  {
    CompletionRuns(a, w, b, false);
    assert s.bits[b := Bits(true, false)][b := Bits(false, false)] == s.bits[b := Bits(false, false)];
  }

  lemma CompletionFirst(s: State, k: nat, w: nat, b: nat)
    requires Enabled(s, StartAck(k, b)) && Enabled(s, Complete(w, b)) && s.bits[b] == Bits(true, true)
    ensures var c := Completed(s, w, b);
            && c.pool == s.pool && Enabled(c, StartAck(k, b))
            && Is(Acknowledged(c, k, b), s.pool + multiset{b}, s.bits[b := Bits(false, false)], s.slots - {b},
                  s.kernel - {b}, s.ops, s.work)
  {
    CompletionRuns(s, w, b, true);
    AcknowledgedAfter(s, Completed(s, w, b), k, b);
  }

  lemma AcknowledgedAfter(s: State, c: State, k: nat, b: nat)
    requires Enabled(s, StartAck(k, b)) && b in c.stage
    requires Is(c, s.pool, s.bits[b := Bits(false, true)], s.slots, s.kernel - {b}, s.ops, s.work)
    ensures Enabled(c, StartAck(k, b))
    ensures Is(Acknowledged(c, k, b), s.pool + multiset{b}, s.bits[b := Bits(false, false)], s.slots - {b},
               s.kernel - {b}, s.ops, s.work)
  {
    AckRuns(c, k, b, false);
    assert s.bits[b := Bits(false, true)][b := Bits(false, false)] == s.bits[b := Bits(false, false)];
  }

  /**
   A pending buffer that the kernel has goes back to the pool with the second of its acknowledgement
   and its completion, in whichever order they come, and the state is then the same.
   */
  lemma SecondReturns(s: State, k: nat, w: nat, b: nat)
    requires Inv(s) && Enabled(s, StartAck(k, b)) && Enabled(s, Complete(w, b))
    ensures var a, c := Acknowledged(s, k, b), Completed(s, w, b);
            && b !in a.pool && b !in c.pool && Enabled(a, Complete(w, b)) && Enabled(c, StartAck(k, b))
            && var x, y := Completed(a, w, b), Acknowledged(c, k, b);
               x.pool[b] == 1 && b !in x.kernel && b !in x.slots && Is(x, y.pool, y.bits, y.slots, y.kernel, y.ops, y.work)
  {
    PendingBits(s, k, b);
    assert BufferOk(s, b);
    AckFirst(s, k, w, b);
    CompletionFirst(s, k, w, b);
  }

  /**
   The whole life of a buffer: taken from the pool and sent, completed, sent again, acknowledged, completed.
   Every step is possible, and in the end all is as it was, but for the type the buffer was left with.
   */
  lemma WholeLife(s: State, k: nat, w: nat, b: nat)
    requires Inv(s) && b in s.pool && k in s.ops && s.ops[k] == NoOp && w in s.work && s.work[w] == NoWork
    ensures Enabled(s, StartSend(k, b))
    ensures var s1 := SessionSteps(Next(s, StartSend(k, b)), k, 3);
            && Enabled(s1, Complete(w, b))
            && var s2 := Completed(s1, w, b);
               && Enabled(s2, StartRepeat(k, b))
               && var s3 := SessionSteps(Next(s2, StartRepeat(k, b)), k, 3);
                  && IsGiven(s3, k, b) && Enabled(s3, StartAck(k, b))
                  && var s4 := Acknowledged(s3, k, b);
                     && Enabled(s4, Complete(w, b))
                     && Is(Completed(s4, w, b), s.pool, s.bits[b := Bits(false, false)], s.slots, s.kernel, s.ops, s.work)
  {
    assert BufferOk(s, b);
    SendGives(s, k, b);
    var s1 := SessionSteps(Next(s, StartSend(k, b)), k, 3);
    var s2 := CompletedOnce(s, s1, k, w, b);
    var s3 := RepeatedOnce(s, s2, k, b);
    ReturnedAtLast(s, s3, k, w, b);
  }

  lemma CompletedOnce(s: State, s1: State, k: nat, w: nat, b: nat) returns (s2: State)
    requires w in s.work && s.work[w] == NoWork && b in s1.stage && b in s.bits
    requires Is(s1, s.pool - multiset{b}, s.bits[b := Bits(true, true)], s.slots[b := k], s.kernel + {b}, s.ops, s.work)
    ensures Enabled(s1, Complete(w, b)) && s2 == Completed(s1, w, b) && b in s2.stage
    ensures Is(s2, s.pool - multiset{b}, s.bits[b := Bits(false, true)], s.slots[b := k], s.kernel - {b}, s.ops, s.work)
  {
    CompletionRuns(s1, w, b, true);
    s2 := Completed(s1, w, b);
    assert s.kernel + {b} - {b} == s.kernel - {b};
    assert s.bits[b := Bits(true, true)][b := Bits(false, true)] == s.bits[b := Bits(false, true)];
  }

  lemma RepeatedOnce(s: State, s2: State, k: nat, b: nat) returns (s3: State)
    requires k in s.ops && s.ops[k] == NoOp && b in s2.stage && b in s.bits
    requires Is(s2, s.pool - multiset{b}, s.bits[b := Bits(false, true)], s.slots[b := k], s.kernel - {b}, s.ops, s.work)
    ensures Enabled(s2, StartRepeat(k, b)) && s3 == SessionSteps(Next(s2, StartRepeat(k, b)), k, 3) && b in s3.stage
    ensures Is(s3, s.pool - multiset{b}, s.bits[b := Bits(true, true)], s.slots[b := k], s.kernel + {b}, s.ops, s.work)
  {
    RepeatRuns(s2, k, b);
    s3 := SessionSteps(Next(s2, StartRepeat(k, b)), k, 3);
    assert s.kernel - {b} + {b} == s.kernel + {b};
    assert s.bits[b := Bits(false, true)][b := Bits(true, true)] == s.bits[b := Bits(true, true)];
  }

  lemma ReturnedAtLast(s: State, s3: State, k: nat, w: nat, b: nat)
    requires k in s.ops && s.ops[k] == NoOp && w in s.work && s.work[w] == NoWork
    requires b in s3.stage && b in s.bits && b in s.pool && b !in s.slots && b !in s.kernel
    requires Is(s3, s.pool - multiset{b}, s.bits[b := Bits(true, true)], s.slots[b := k], s.kernel + {b}, s.ops, s.work)
    ensures Enabled(s3, StartAck(k, b)) && Enabled(Acknowledged(s3, k, b), Complete(w, b))
    ensures Is(Completed(Acknowledged(s3, k, b), w, b), s.pool, s.bits[b := Bits(false, false)], s.slots, s.kernel, s.ops, s.work)
  {
    AckFirst(s3, k, w, b);
    Undone(s.pool, s.bits, s.slots, s.kernel, k, b);
  }

  lemma Undone(pool: multiset<nat>, bits: map<nat, Bits>, slots: map<nat, nat>, kernel: set<nat>, k: nat, b: nat)
    requires b in pool && b !in slots && b !in kernel
    ensures pool - multiset{b} + multiset{b} == pool && slots[b := k] - {b} == slots && kernel + {b} - {b} == kernel
    ensures bits[b := Bits(true, true)][b := Bits(false, false)] == bits[b := Bits(false, false)]
  {
  }

  // ---------------------------------------------------------------------------------------------
  // Among the steps of others
  // ---------------------------------------------------------------------------------------------

  ghost predicate StepAt(run: seq<State>, l: nat, e: Event) {
    l + 1 < |run| && Enabled(run[l], e) && run[l + 1] == Next(run[l], e)
  }

  ghost predicate BusyAt(run: seq<State>, l: nat, k: nat) {
    l < |run| && k in run[l].ops && run[l].ops[k] != NoOp
  }

  /** Session `k` is at something between `m` and `n`, and at nothing at `n`. */
  ghost predicate EndsAt(run: seq<State>, m: nat, n: nat, k: nat) {
    && m < n < |run| && (forall l: nat :: m < l < n ==> BusyAt(run, l, k))
    && k in run[n].ops && run[n].ops[k] == NoOp
  }

  predicate IsRepeating(op: Op, b: nat) {
    op == RepeatChecked(b) || op == RepeatStored(b) || (op.RepeatLoaded? && op.b == b)
  }

  predicate IsSending(op: Op, b: nat) {
    op == SendPopped(b) || op == SendPending(b) || op == SendTyped(b)
  }

  /** `b` is with the kernel, marked as sent and reliable, and in a slot of session `k`. */
  ghost predicate IsGiven(s: State, k: nat, b: nat) {
    b in s.kernel && b in s.bits && s.bits[b] == Bits(true, true) && b in s.slots && s.slots[b] == k
  }

  /** `b` is in the pool, and nowhere else. */
  ghost predicate IsBack(s: State, b: nat) {
    s.pool[b] == 1 && b !in s.slots && b !in s.kernel
  }

  /** Session `k` had taken `b` and no more, and has returned it. */
  ghost predicate IsRefused(s: State, s': State, k: nat, b: nat) {
    k in s.ops && s.ops[k] == SendPopped(b) && IsBack(s', b)
  }

  /** The events of session `k`. */
  predicate IsOf(e: Event, k: nat) {
    (e.SessionStep? || e.StartSend? || e.RefuseSend? || e.StartAck? || e.StartRepeat?) && e.k == k
  }

  lemma OthersKeepOp(s: State, e: Event, k: nat)
    requires Enabled(s, e) && k in s.ops && !IsOf(e, k)
    ensures k in Next(s, e).ops && Next(s, e).ops[k] == s.ops[k]
  {
    if e.SessionStep? {
      SessionKeepsOthers(s, e.k, s.ops[e.k], k);
    } else if e.WorkerStep? {
      WorkerKeepsOps(s, e.w, s.work[e.w]);
    }
  }

  lemma SessionKeepsOthers(s: State, j: nat, op: Op, k: nat)
    requires (op != NoOp ==> Exists(s, op.b)) && k in s.ops && k != j
    ensures k in SessionNext(s, j, op).ops && SessionNext(s, j, op).ops[k] == s.ops[k]
  {
  }

  lemma WorkerKeepsOps(s: State, w: nat, work: Work)
    requires work != NoWork ==> Exists(s, work.b)
    ensures WorkerNext(s, w, work).ops == s.ops
  {
  }

  /** A step while session `k` is resending `b`: it goes on, or it has just given it. */
  ghost predicate RepeatView(s: State, s': State, k: nat, b: nat) {
    && k in s.ops && k in s'.ops
    && (IsRepeating(s.ops[k], b) ==> IsRepeating(s'.ops[k], b) || (s'.ops[k] == NoOp && b !in s.kernel && IsGiven(s', k, b)))
  }

  /** A step while it is sending `b`: it goes on, or has just given it, or has been refused. */
  ghost predicate SendView(s: State, s': State, k: nat, b: nat) {
    && k in s.ops && k in s'.ops
    && (IsSending(s.ops[k], b) ==>
          || IsSending(s'.ops[k], b)
          || (s'.ops[k] == NoOp && b !in s.kernel && IsGiven(s', k, b))
          || (s'.ops[k] == NoOp && IsRefused(s, s', k, b)))
  }

  lemma RepeatIsViewed(s: State, e: Event, k: nat, b: nat)
    requires Inv(s) && Enabled(s, e) && k in s.ops
    ensures RepeatView(s, Next(s, e), k, b)
  {
    if !IsOf(e, k) {
      OthersKeepOp(s, e, k);
    } else {
      assert OpOk(s, k);
      if IsRepeating(s.ops[k], b) {
        assert BufferOk(s, b);
        OwnRepeat(s, k, b);
      }
    }
  }

  lemma OwnRepeat(s: State, k: nat, b: nat)
    requires Enabled(s, SessionStep(k)) && IsRepeating(s.ops[k], b) && OpOk(s, k) && BufferOk(s, b)
    ensures RepeatView(s, Next(s, SessionStep(k)), k, b)
  {
  }

  lemma SendIsViewed(s: State, e: Event, k: nat, b: nat)
    requires Inv(s) && Enabled(s, e) && k in s.ops
    ensures SendView(s, Next(s, e), k, b)
  {
    if !IsOf(e, k) {
      OthersKeepOp(s, e, k);
    } else {
      assert OpOk(s, k);
      if IsSending(s.ops[k], b) {
        assert BufferOk(s, b);
        OwnSend(s, e, k, b);
      }
    }
  }

  lemma OwnSend(s: State, e: Event, k: nat, b: nat)
    requires Enabled(s, e) && (e == SessionStep(k) || e == RefuseSend(k))
    requires IsSending(s.ops[k], b) && OpOk(s, k) && Exists(s, b) && BufferOk(s, b)
    ensures SendView(s, Next(s, e), k, b)
  {
  }

  ghost predicate RepeatViewAt(run: seq<State>, l: nat, k: nat, b: nat) {
    l + 1 < |run| && RepeatView(run[l], run[l + 1], k, b)
  }

  ghost predicate SendViewAt(run: seq<State>, l: nat, k: nat, b: nat) {
    l + 1 < |run| && SendView(run[l], run[l + 1], k, b)
  }

  lemma ViewedAt(run: seq<State>, l: nat, k: nat, b: nat)
    requires IsRun(run) && l + 1 < |run| && k in run[l].ops
    ensures RepeatViewAt(run, l, k, b) && SendViewAt(run, l, k, b)
  {
    RunKeepsInv(run, l);
    assert IsStep(run[l], run[l + 1]);
    var e :| Enabled(run[l], e) && run[l + 1] == Next(run[l], e);
    RepeatIsViewed(run[l], e, k, b);
    SendIsViewed(run[l], e, k, b);
  }

  lemma SessionKeepsSessions(s: State, j: nat, op: Op)
    requires (op != NoOp ==> Exists(s, op.b)) && j in s.ops
    ensures SessionNext(s, j, op).ops.Keys == s.ops.Keys
  {
  }

  lemma NextKeepsSessions(s: State, e: Event)
    requires Enabled(s, e)
    ensures Next(s, e).ops.Keys == s.ops.Keys
  {
    if e.SessionStep? {
      SessionKeepsSessions(s, e.k, s.ops[e.k]);
    } else if e.WorkerStep? {
      WorkerKeepsOps(s, e.w, s.work[e.w]);
    }
  }

  lemma {:induction false} SameSessions(run: seq<State>, n: nat)
    requires IsRun(run) && n < |run|
    ensures run[n].ops.Keys == run[0].ops.Keys
  {
    if n > 0 {
      SameSessions(run, n - 1);
      assert IsStep(run[n - 1], run[n - 1 + 1]);
      var e :| Enabled(run[n - 1], e) && run[n] == Next(run[n - 1], e);
      NextKeepsSessions(run[n - 1], e);
    }
  }

  lemma AllViewed(run: seq<State>, m: nat, k: nat, b: nat)
    requires IsRun(run) && m < |run| && k in run[m].ops
    ensures forall l: nat :: l + 1 < |run| ==> RepeatViewAt(run, l, k, b) && SendViewAt(run, l, k, b)
  {
    SameSessions(run, m);
    forall l: nat | l + 1 < |run|
      ensures RepeatViewAt(run, l, k, b) && SendViewAt(run, l, k, b)
    {
      SameSessions(run, l);
      ViewedAt(run, l, k, b);
    }
  }

  lemma {:induction false} RepeatGoesOn(run: seq<State>, m: nat, n: nat, k: nat, b: nat)
    requires m < n < |run| && k in run[m + 1].ops && IsRepeating(run[m + 1].ops[k], b)
    requires forall l: nat :: m <= l < n ==> RepeatViewAt(run, l, k, b)
    requires forall l: nat :: m < l <= n ==> BusyAt(run, l, k)
    ensures k in run[n].ops && IsRepeating(run[n].ops[k], b)
    decreases n
  {
    if n > m + 1 {
      RepeatGoesOn(run, m, n - 1, k, b);
      assert RepeatViewAt(run, n - 1, k, b) && BusyAt(run, n, k);
    }
  }

  lemma {:induction false} SendGoesOn(run: seq<State>, m: nat, n: nat, k: nat, b: nat)
    requires m < n < |run| && k in run[m + 1].ops && IsSending(run[m + 1].ops[k], b)
    requires forall l: nat :: m <= l < n ==> SendViewAt(run, l, k, b)
    requires forall l: nat :: m < l <= n ==> BusyAt(run, l, k)
    ensures k in run[n].ops && IsSending(run[n].ops[k], b)
    decreases n
  {
    if n > m + 1 {
      SendGoesOn(run, m, n - 1, k, b);
      assert SendViewAt(run, n - 1, k, b) && BusyAt(run, n, k);
    }
  }

  /** In every run, whatever happens meanwhile, a resend ends by giving the buffer to the kernel. */
  lemma RepeatEnds(run: seq<State>, m: nat, n: nat, k: nat, b: nat)
    requires IsRun(run) && StepAt(run, m, StartRepeat(k, b)) && EndsAt(run, m, n, k)
    ensures b !in run[n - 1].kernel && IsGiven(run[n], k, b)
  {
    AllViewed(run, m, k, b);
    RepeatHasEnded(run, m, n, k, b);
  }

  lemma RepeatHasEnded(run: seq<State>, m: nat, n: nat, k: nat, b: nat)
    requires StepAt(run, m, StartRepeat(k, b)) && EndsAt(run, m, n, k)
    requires forall l: nat :: m <= l < n ==> RepeatViewAt(run, l, k, b)
    ensures b !in run[n - 1].kernel && IsGiven(run[n], k, b)
  {
    assert run[m + 1].ops[k] == RepeatChecked(b);
    RepeatGoesOn(run, m, n - 1, k, b);
    assert RepeatViewAt(run, n - 1, k, b);
  }

  /** A send ends by giving the buffer to the kernel, or, refused, by returning it to the pool. */
  lemma SendEnds(run: seq<State>, m: nat, n: nat, k: nat, b: nat)
    requires IsRun(run) && StepAt(run, m, StartSend(k, b)) && EndsAt(run, m, n, k)
    ensures (b !in run[n - 1].kernel && IsGiven(run[n], k, b)) || IsRefused(run[n - 1], run[n], k, b)
  {
    AllViewed(run, m, k, b);
    SendHasEnded(run, m, n, k, b);
  }

  lemma SendHasEnded(run: seq<State>, m: nat, n: nat, k: nat, b: nat)
    requires StepAt(run, m, StartSend(k, b)) && EndsAt(run, m, n, k)
    requires forall l: nat :: m <= l < n ==> SendViewAt(run, l, k, b)
    ensures (b !in run[n - 1].kernel && IsGiven(run[n], k, b)) || IsRefused(run[n - 1], run[n], k, b)
  {
    assert run[m + 1].ops[k] == SendPopped(b);
    SendGoesOn(run, m, n - 1, k, b);
    assert SendViewAt(run, n - 1, k, b);
  }
}
