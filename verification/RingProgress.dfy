/**
 How one push or one pop of the lock-free queue ends: in any run, whatever the other threads do, and
 when one thread goes on alone from a state that any run has reached.
 */
module RingProgress {

  import opened Words
  import opened RingBuffer

  /** The queue holds 64 items, or the node of the tail is still being emptied. */
  ghost predicate IsFull<T>(s: State<T>)
    requires s.q.Shape()
  {
    |s.q.Content()| == 64 || (s.q.tail >= 64 && HasPopper(s, s.q.tail - 64))
  }

  /** The queue holds nothing, or its front item is still being written. */
  ghost predicate IsEmpty<T>(s: State<T>)
    requires s.q.Shape()
  {
    s.q.Content() == [] || HasPusher(s, s.q.head)
  }

  /** The node of a position that is being popped is not free yet. */
  lemma PopperLags<T>(s: State<T>, p: nat)
    requires s.q.Shape() && (forall i :: i in s.threads ==> ThreadOk(s.q, s.threads[i])) && HasPopper(s, p)
    ensures s.q.At(p).seqNo == p + 1
  {
    var i :| i in s.threads && s.threads[i].PopPos() == p;
    assert ThreadOk(s.q, s.threads[i]);
  }

  /** The queue is full exactly while the node of the tail lags behind. */
  lemma FullIsLagging<T>(s: State<T>)
    requires Inv(s) && Attended(s)
    ensures s.q.At(s.q.tail).seqNo <= s.q.tail
    ensures IsFull(s) <==> s.q.At(s.q.tail).seqNo < s.q.tail
  {
    NoNodeIsAhead(s.q);
    if s.q.tail < s.q.head + 64 {
      assert PopAttended(s, s.q.tail);
      if s.q.tail >= 64 && HasPopper(s, s.q.tail - 64) {
        PopperLags(s, s.q.tail - 64);
        SameNode(s.q, s.q.tail - 64);
      }
    }
  }

  /** It is empty exactly while the node of the head is not filled. */
  lemma EmptyIsLagging<T>(s: State<T>)
    requires Inv(s) && Attended(s)
    ensures s.q.At(s.q.head).seqNo <= s.q.head + 1
    ensures IsEmpty(s) <==> s.q.At(s.q.head).seqNo < s.q.head + 1
  {
    var q := s.q;
    assert NodeOk(q, q.head);
    if q.head < q.tail {
      assert PushAttended(s, q.head);
      if HasPusher(s, q.head) {
        var i :| i in s.threads && s.threads[i].PushPos() == q.head;
        assert ThreadOk(q, s.threads[i]);
      }
    }
  }

  // ---------------------------------------------------------------------------------------------
  // One operation among others
  // ---------------------------------------------------------------------------------------------

  /** Thread `i` takes no step, or one that leaves the content alone. */
  ghost predicate Still<T>(s: State<T>, s': State<T>, i: nat) {
    && i in s.threads && i in s'.threads && s.q.Shape() && s'.q.Shape()
    && (s.threads[i] != s'.threads[i] ==> s'.q.Content() == s.q.Content())
  }

  /** Thread `i` takes a step that appends the item. */
  ghost predicate Appends<T>(s: State<T>, s': State<T>, i: nat, item: T) {
    && i in s.threads && i in s'.threads && s.q.Shape() && s'.q.Shape()
    && s.threads[i] != s'.threads[i] && s'.q.Content() == s.q.Content() + [item]
  }

  /** Thread `i` takes a step that removes the front item, at position `p`. */
  ghost predicate Removes<T>(s: State<T>, s': State<T>, i: nat, p: nat) {
    && i in s.threads && i in s'.threads && s.q.Shape() && s'.q.Shape()
    && s.threads[i] != s'.threads[i] && p == s.q.head < s.q.tail && s'.q.Content() == s.q.Content()[1..]
  }

  ghost predicate StillAt<T>(run: seq<State<T>>, l: nat, i: nat) {
    l + 1 < |run| && Still(run[l], run[l + 1], i)
  }

  /** None of the steps from `m` to `n` is one of thread `i` that changes the content. */
  ghost predicate StillFrom<T>(run: seq<State<T>>, m: nat, n: nat, i: nat) {
    forall l: nat :: m <= l < n ==> StillAt(run, l, i)
  }

  /** Of the steps from `m` to `n`, thread `i` appends its item with number `k`, and with no other. */
  ghost predicate AppendsOnce<T>(run: seq<State<T>>, m: nat, n: nat, i: nat, item: T, k: nat) {
    && m <= k < n < |run| && Appends(run[k], run[k + 1], i, item)
    && StillFrom(run, m, k, i) && StillFrom(run, k + 1, n, i)
  }

  ghost predicate RemovesOnce<T>(run: seq<State<T>>, m: nat, n: nat, i: nat, p: nat, k: nat) {
    && m <= k < n < |run| && Removes(run[k], run[k + 1], i, p)
    && StillFrom(run, m, k, i) && StillFrom(run, k + 1, n, i)
  }

  /** Thread `i` is not idle between `m` and `n`. */
  ghost predicate Busy<T>(run: seq<State<T>>, m: nat, n: nat, i: nat) {
    forall l: nat :: m < l < n ==> IsBusy(run, l, i)
  }

  ghost predicate IsBusy<T>(run: seq<State<T>>, l: nat, i: nat) {
    l < |run| && i in run[l].threads && run[l].threads[i] != Idle
  }

  ghost predicate FullAt<T>(run: seq<State<T>>, k: nat) {
    k < |run| && run[k].q.Shape() && IsFull(run[k])
  }

  ghost predicate EmptyAt<T>(run: seq<State<T>>, k: nat) {
    k < |run| && run[k].q.Shape() && IsEmpty(run[k])
  }

  /** At some moment between `m` and `n` the queue was full. */
  ghost predicate WasFull<T>(run: seq<State<T>>, m: nat, n: nat) {
    exists k: nat :: m <= k < n && FullAt(run, k)
  }

  ghost predicate WasEmpty<T>(run: seq<State<T>>, m: nat, n: nat) {
    exists k: nat :: m <= k < n && EmptyAt(run, k)
  }

  /** How far a push that began at `m` has come at `n`. */
  ghost predicate PushPhase<T(!new)>(run: seq<State<T>>, m: nat, n: nat, i: nat, item: T) {
    && n < |run| && i in run[n].threads
    && match run[n].threads[i]
       case PushAt(x, _) => x == item && StillFrom(run, m, n, i)
       case PushSeen(x, tail, seqNo) =>
         x == item && StillFrom(run, m, n, i) && (seqNo < tail ==> WasFull(run, m, n))
       case PushClaimed(x, _) => exists k :: AppendsOnce(run, m, n, i, item, k)
       case PushWritten(x, _) => exists k :: AppendsOnce(run, m, n, i, item, k)
       case _ => false
  }

  ghost predicate Removed<T>(run: seq<State<T>>, m: nat, n: nat, i: nat, p: nat, k: nat) {
    && RemovesOnce(run, m, n, i, p, k) && run[n].q.Shape() && p < run[n].q.tail
    && run[k].q.Content()[0] == run[n].q.pushed[p]
  }

  /** How far a pop that began at `m` has come at `n`. */
  ghost predicate PopPhase<T(!new)>(run: seq<State<T>>, m: nat, n: nat, i: nat) {
    && n < |run| && i in run[n].threads
    && match run[n].threads[i]
       case PopAt(_) => StillFrom(run, m, n, i)
       case PopSeen(head, seqNo) =>
         StillFrom(run, m, n, i) && (seqNo < head + 1 ==> WasEmpty(run, m, n))
       case PopClaimed(p) => exists k :: Removed(run, m, n, i, p, k)
       case PopRead(p, _) => exists k :: Removed(run, m, n, i, p, k)
       case _ => false
  }

  /** A step of thread `i`. */
  ghost predicate IsOwn<T>(s: State<T>, s': State<T>, i: nat, a: Action<T>) {
    && s.q.Shape() && s'.q.Shape() && i in s.threads && s' == Step(s, i, a)
    && FifoStep(s.q, s.threads[i], s'.q, s'.threads[i])
  }

  /** What thread `i` may find in the node it looks at. */
  ghost predicate IsTold<T>(s: State<T>, t: Thread<T>)
    requires s.q.Shape()
  {
    && ThreadOk(s.q, t)
    && (t.PushAt? && s.q.At(t.tail).seqNo < t.tail ==> IsFull(s))
    && (t.PopAt? && s.q.At(t.head).seqNo < t.head + 1 ==> IsEmpty(s))
  }

  /** A step as thread `i` sees it: its own, or one that leaves it where it is. */
  ghost predicate IsSeen<T(!new)>(s: State<T>, s': State<T>, i: nat) {
    && s.q.Shape() && s'.q.Shape() && i in s.threads && i in s'.threads && s.q.pushed <= s'.q.pushed
    && IsTold(s, s.threads[i])
    && (s'.threads[i] == s.threads[i] || exists a :: IsOwn(s, s', i, a))
  }

  lemma StepIsSeen<T(!new)>(s: State<T>, i: nat, j: nat, a: Action<T>)
    requires Inv(s) && i in s.threads && j in s.threads && IsTold(s, s.threads[i])
    ensures IsSeen(s, Step(s, j, a), i)
  {
    assert ThreadOk(s.q, s.threads[j]);
    ContentAfter(s.q, s.threads[j], a);
    if j == i {
      assert IsOwn(s, Step(s, j, a), i, a);
    }
  }

  lemma ThreadIsTold<T(!new)>(run: seq<State<T>>, n: nat, i: nat)
    requires IsRun(run) && n < |run| && i in run[n].threads
    ensures run[n].q.Shape() && IsTold(run[n], run[n].threads[i])
  {
    RunKeepsInv(run, n);
    var s, t := run[n], run[n].threads[i];
    if t.PushAt? && s.q.At(t.tail).seqNo < t.tail {
      FullIsTrue(run, n, i);
    }
    if t.PopAt? && s.q.At(t.head).seqNo < t.head + 1 {
      EmptyIsTrue(run, n, i);
    }
  }

  ghost predicate SeenAt<T(!new)>(run: seq<State<T>>, n: nat, i: nat) {
    n + 1 < |run| && IsSeen(run[n], run[n + 1], i)
  }

  ghost predicate AllSeen<T(!new)>(run: seq<State<T>>, i: nat) {
    forall n: nat :: n + 1 < |run| ==> SeenAt(run, n, i)
  }

  lemma RunIsSeen<T(!new)>(run: seq<State<T>>, n: nat, i: nat)
    requires IsRun(run) && n + 1 < |run| && i in run[n].threads
    ensures SeenAt(run, n, i)
  {
    RunKeepsInv(run, n);
    ThreadIsTold(run, n, i);
    assert IsStep(run[n], run[n + 1]);
    var j, a :| j in run[n].threads && run[n + 1] == Step(run[n], j, a);
    StepIsSeen(run[n], i, j, a);
  }

  lemma {:induction false} SameThreads<T(!new)>(run: seq<State<T>>, n: nat)
    requires IsRun(run) && n < |run|
    ensures run[n].threads.Keys == run[0].threads.Keys
  {
    if n > 0 {
      SameThreads(run, n - 1);
      assert IsStep(run[n - 1], run[n - 1 + 1]);
    }
  }

  lemma RunsAreSeen<T(!new)>(run: seq<State<T>>, m: nat, i: nat)
    requires IsRun(run) && m < |run| && i in run[m].threads
    ensures AllSeen(run, i)
  {
    SameThreads(run, m);
    forall n: nat | n + 1 < |run|
      ensures SeenAt(run, n, i)
    {
      SameThreads(run, n);
      RunIsSeen(run, n, i);
    }
  }

  lemma StillLonger<T>(run: seq<State<T>>, m: nat, n: nat, i: nat)
    requires StillFrom(run, m, n, i) && n + 1 < |run| && Still(run[n], run[n + 1], i)
    ensures StillFrom(run, m, n + 1, i)
  {
  }

  lemma AppendedLonger<T>(run: seq<State<T>>, m: nat, n: nat, i: nat, item: T, k: nat)
    requires AppendsOnce(run, m, n, i, item, k) && n + 1 < |run| && Still(run[n], run[n + 1], i)
    ensures AppendsOnce(run, m, n + 1, i, item, k)
  {
    StillLonger(run, k + 1, n, i);
  }

  lemma RemovedLonger<T>(run: seq<State<T>>, m: nat, n: nat, i: nat, p: nat, k: nat)
    requires Removed(run, m, n, i, p, k) && n + 1 < |run| && Still(run[n], run[n + 1], i)
    requires run[n].q.pushed <= run[n + 1].q.pushed
    ensures Removed(run, m, n + 1, i, p, k)
  {
    StillLonger(run, k + 1, n, i);
  }

  /** Another thread's step. */
  lemma PushWaits<T(!new)>(run: seq<State<T>>, m: nat, n: nat, i: nat, item: T)
    requires PushPhase(run, m, n, i, item) && n + 1 < |run| && Still(run[n], run[n + 1], i)
    requires run[n + 1].threads[i] == run[n].threads[i]
    ensures PushPhase(run, m, n + 1, i, item)
  {
    if run[n].threads[i].PushAt? || run[n].threads[i].PushSeen? {
      StillLonger(run, m, n, i);
    } else {
      var k :| AppendsOnce(run, m, n, i, item, k);
      AppendedLonger(run, m, n, i, item, k);
    }
  }

  lemma PopWaits<T(!new)>(run: seq<State<T>>, m: nat, n: nat, i: nat)
    requires PopPhase(run, m, n, i) && n + 1 < |run| && Still(run[n], run[n + 1], i)
    requires run[n + 1].threads[i] == run[n].threads[i] && run[n].q.pushed <= run[n + 1].q.pushed
    ensures PopPhase(run, m, n + 1, i)
  {
    if run[n].threads[i].PopAt? || run[n].threads[i].PopSeen? {
      StillLonger(run, m, n, i);
    } else {
      var k :| Removed(run, m, n, i, run[n].threads[i].head, k);
      RemovedLonger(run, m, n, i, run[n].threads[i].head, k);
    }
  }

  /** A step of the pushing thread itself that does not end the push. */
  lemma PushGoesOn<T(!new)>(run: seq<State<T>>, m: nat, n: nat, i: nat, item: T, a: Action<T>)
    requires m <= n && n + 1 < |run| && PushPhase(run, m, n, i, item) && IsOwn(run[n], run[n + 1], i, a)
    requires run[n + 1].threads[i] != Idle && IsTold(run[n], run[n].threads[i])
    ensures PushPhase(run, m, n + 1, i, item)
  {
    var t := run[n].threads[i];
    if t.PushAt? {
      StillLonger(run, m, n, i);
      assert IsFull(run[n]) ==> FullAt(run, n);
    } else if t.PushClaimed? || t.PushWritten? {
      var k :| AppendsOnce(run, m, n, i, item, k);
      AppendedLonger(run, m, n, i, item, k);
    } else if run[n + 1].threads[i].PushClaimed? {
      assert AppendsOnce(run, m, n + 1, i, item, n);
    } else {
      StillLonger(run, m, n, i);
    }
  }

  lemma PopGoesOn<T(!new)>(run: seq<State<T>>, m: nat, n: nat, i: nat, a: Action<T>)
    requires m <= n && n + 1 < |run| && PopPhase(run, m, n, i) && IsOwn(run[n], run[n + 1], i, a)
    requires run[n + 1].threads[i] != Idle && run[n].q.pushed <= run[n + 1].q.pushed && IsTold(run[n], run[n].threads[i])
    ensures PopPhase(run, m, n + 1, i)
  {
    var t := run[n].threads[i];
    if t.PopAt? {
      StillLonger(run, m, n, i);
      assert IsEmpty(run[n]) ==> EmptyAt(run, n);
    } else if t.PopClaimed? || t.PopRead? {
      var k :| Removed(run, m, n, i, t.head, k);
      RemovedLonger(run, m, n, i, t.head, k);
    } else if run[n + 1].threads[i].PopClaimed? {
      assert Removed(run, m, n + 1, i, t.head, n);
    } else {
      StillLonger(run, m, n, i);
    }
  }

  lemma PushNext<T(!new)>(run: seq<State<T>>, m: nat, n: nat, i: nat, item: T)
    requires m <= n && n + 1 < |run| && PushPhase(run, m, n, i, item) && SeenAt(run, n, i)
    requires run[n + 1].threads[i] != Idle
    ensures PushPhase(run, m, n + 1, i, item)
  {
    if run[n + 1].threads[i] == run[n].threads[i] {
      PushWaits(run, m, n, i, item);
    } else {
      var a :| IsOwn(run[n], run[n + 1], i, a);
      PushGoesOn(run, m, n, i, item, a);
    }
  }

  lemma PopNext<T(!new)>(run: seq<State<T>>, m: nat, n: nat, i: nat)
    requires m <= n && n + 1 < |run| && PopPhase(run, m, n, i) && SeenAt(run, n, i)
    requires run[n + 1].threads[i] != Idle
    ensures PopPhase(run, m, n + 1, i)
  {
    if run[n + 1].threads[i] == run[n].threads[i] {
      PopWaits(run, m, n, i);
    } else {
      var a :| IsOwn(run[n], run[n + 1], i, a);
      PopGoesOn(run, m, n, i, a);
    }
  }

  /** Thread `i`, idle, begins to push `item` with step `m`. */
  ghost predicate BeginsPush<T>(run: seq<State<T>>, m: nat, i: nat, item: T) {
    && m + 1 < |run| && |run[m].q.nodes| == 64 && i in run[m].threads && run[m].threads[i] == Idle
    && run[m + 1] == Step(run[m], i, StartPush(item))
  }

  ghost predicate BeginsPop<T>(run: seq<State<T>>, m: nat, i: nat) {
    && m + 1 < |run| && |run[m].q.nodes| == 64 && i in run[m].threads && run[m].threads[i] == Idle
    && run[m + 1] == Step(run[m], i, StartPop)
  }

  lemma PushBegins<T(!new)>(run: seq<State<T>>, m: nat, i: nat, item: T)
    requires BeginsPush(run, m, i, item) && SeenAt(run, m, i)
    ensures PushPhase(run, m, m + 1, i, item)
  {
    assert Still(run[m], run[m + 1], i);
  }

  lemma PopBegins<T(!new)>(run: seq<State<T>>, m: nat, i: nat)
    requires BeginsPop(run, m, i) && SeenAt(run, m, i)
    ensures PopPhase(run, m, m + 1, i)
  {
    assert Still(run[m], run[m + 1], i);
  }

  lemma {:induction false} PushIsInPhase<T(!new)>(run: seq<State<T>>, m: nat, n: nat, i: nat, item: T)
    requires AllSeen(run, i) && BeginsPush(run, m, i, item) && m < n < |run| && Busy(run, m, n + 1, i)
    ensures PushPhase(run, m, n, i, item)
    decreases n
  {
    if n == m + 1 {
      assert SeenAt(run, m, i);
      PushBegins(run, m, i, item);
    } else {
      PushIsInPhase(run, m, n - 1, i, item);
      assert SeenAt(run, n - 1, i) && IsBusy(run, n, i);
      PushNext(run, m, n - 1, i, item);
    }
  }

  lemma {:induction false} PopIsInPhase<T(!new)>(run: seq<State<T>>, m: nat, n: nat, i: nat)
    requires AllSeen(run, i) && BeginsPop(run, m, i) && m < n < |run| && Busy(run, m, n + 1, i)
    ensures PopPhase(run, m, n, i)
    decreases n
  {
    if n == m + 1 {
      assert SeenAt(run, m, i);
      PopBegins(run, m, i);
    } else {
      PopIsInPhase(run, m, n - 1, i);
      assert SeenAt(run, n - 1, i) && IsBusy(run, n, i);
      PopNext(run, m, n - 1, i);
    }
  }

  ghost predicate Pushed<T(!new)>(run: seq<State<T>>, m: nat, n: nat, i: nat, item: T) {
    exists k :: AppendsOnce(run, m, n, i, item, k)
  }

  /** The front item was removed, once, and is what the pop returned. */
  ghost predicate Popped<T(!new)>(run: seq<State<T>>, m: nat, n: nat, i: nat) {
    exists p: nat, k: nat :: RemovesOnce(run, m, n, i, p, k) && p in run[n].popped && run[n].popped[p] == run[k].q.Content()[0]
  }

  /** The last step of a push. */
  lemma PushStops<T(!new)>(run: seq<State<T>>, m: nat, n: nat, i: nat, item: T, a: Action<T>)
    requires m <= n && n + 1 < |run| && PushPhase(run, m, n, i, item) && IsOwn(run[n], run[n + 1], i, a)
    requires run[n + 1].threads[i] == Idle
    ensures Pushed(run, m, n + 1, i, item) || (StillFrom(run, m, n + 1, i) && WasFull(run, m, n + 1))
  {
    var t := run[n].threads[i];
    if t.PushSeen? {
      StillLonger(run, m, n, i);
    } else {
      var k :| AppendsOnce(run, m, n, i, item, k);
      AppendedLonger(run, m, n, i, item, k);
    }
  }

  lemma PopStops<T(!new)>(run: seq<State<T>>, m: nat, n: nat, i: nat, a: Action<T>)
    requires m <= n && n + 1 < |run| && PopPhase(run, m, n, i) && IsOwn(run[n], run[n + 1], i, a)
    requires run[n + 1].threads[i] == Idle && ThreadOk(run[n].q, run[n].threads[i]) && run[n].q.pushed <= run[n + 1].q.pushed
    ensures Popped(run, m, n + 1, i) || (StillFrom(run, m, n + 1, i) && WasEmpty(run, m, n + 1))
  {
    var t := run[n].threads[i];
    if t.PopSeen? {
      StillLonger(run, m, n, i);
    } else {
      assert t.PopRead?;
      var k: nat :| Removed(run, m, n, i, t.head, k);
      RemovedLonger(run, m, n, i, t.head, k);
      assert RemovesOnce(run, m, n + 1, i, t.head, k) && run[n + 1].popped[t.head] == run[k].q.Content()[0];
    }
  }

  /**
   Whatever the other threads do, a push that has ended has appended its item, with exactly one of
   its steps; or it has left the content alone, and there was a moment during it at which the queue
   was full.
   */
  lemma PushEnds<T(!new)>(run: seq<State<T>>, m: nat, n: nat, i: nat, item: T)
    requires IsRun(run) && BeginsPush(run, m, i, item) && m < n < |run| && Busy(run, m, n, i)
    requires i in run[n].threads && run[n].threads[i] == Idle
    ensures Pushed(run, m, n, i, item) || (StillFrom(run, m, n, i) && WasFull(run, m, n))
  {
    RunsAreSeen(run, m, i);
    PushHasEnded(run, m, n, i, item);
  }

  lemma PushHasEnded<T(!new)>(run: seq<State<T>>, m: nat, n: nat, i: nat, item: T)
    requires AllSeen(run, i) && BeginsPush(run, m, i, item) && m < n < |run| && Busy(run, m, n, i)
    requires i in run[n].threads && run[n].threads[i] == Idle
    ensures Pushed(run, m, n, i, item) || (StillFrom(run, m, n, i) && WasFull(run, m, n))
  {
    PushIsInPhase(run, m, n - 1, i, item);
    assert SeenAt(run, n - 1, i);
    var a :| IsOwn(run[n - 1], run[n - 1 + 1], i, a);
    PushStops(run, m, n - 1, i, item, a);
  }

  /**
   A pop that has ended has removed the front item, with exactly one of its steps, and returned it; or
   it has left the content alone, and there was a moment during it at which the queue was empty.
   */
  lemma PopEnds<T(!new)>(run: seq<State<T>>, m: nat, n: nat, i: nat)
    requires IsRun(run) && BeginsPop(run, m, i) && m < n < |run| && Busy(run, m, n, i)
    requires i in run[n].threads && run[n].threads[i] == Idle
    ensures Popped(run, m, n, i) || (StillFrom(run, m, n, i) && WasEmpty(run, m, n))
  {
    RunsAreSeen(run, m, i);
    PopHasEnded(run, m, n, i);
  }

  lemma PopHasEnded<T(!new)>(run: seq<State<T>>, m: nat, n: nat, i: nat)
    requires AllSeen(run, i) && BeginsPop(run, m, i) && m < n < |run| && Busy(run, m, n, i)
    requires i in run[n].threads && run[n].threads[i] == Idle
    ensures Popped(run, m, n, i) || (StillFrom(run, m, n, i) && WasEmpty(run, m, n))
  {
    PopIsInPhase(run, m, n - 1, i);
    assert SeenAt(run, n - 1, i);
    var a :| IsOwn(run[n - 1], run[n - 1 + 1], i, a);
    PopStops(run, m, n - 1, i, a);
  }

  // ---------------------------------------------------------------------------------------------
  // One thread alone
  // ---------------------------------------------------------------------------------------------

  /** `k` steps of one thread, and of no other: the shared memory and the thread afterwards. */
  ghost function Alone<T>(q: Queue<T>, t: Thread<T>, k: nat): (r: (Queue<T>, Thread<T>))
    requires |q.nodes| == 64
    ensures |r.0.nodes| == 64
    decreases k
  {
    if k == 0 then (q, t) else Alone(ThreadStep(q, t, Go).0, ThreadStep(q, t, Go).1, k - 1)
  }

  lemma {:induction false} IdleStays<T>(q: Queue<T>, k: nat)
    requires |q.nodes| == 64
    ensures Alone(q, Idle, k) == (q, Idle)
    decreases k
  {
    if k > 0 {
      IdleStays(q, k - 1);
    }
  }

  lemma {:induction false} EndsBy<T>(q: Queue<T>, t: Thread<T>, k: nat, l: nat)
    requires |q.nodes| == 64 && k <= l && Alone(q, t, k).1 == Idle
    ensures Alone(q, t, l) == Alone(q, t, k)
    decreases k
  {
    if k == 0 {
      IdleStays(q, l);
    } else {
      EndsBy(ThreadStep(q, t, Go).0, ThreadStep(q, t, Go).1, k - 1, l - 1);
    }
  }

  /** The node of the tail is free for it, or lags behind; the node of the head is filled, or lags behind. */
  lemma NoNodeIsAhead<T>(q: Queue<T>)
    requires QueueOk(q)
    ensures q.At(q.tail).seqNo <= q.tail && q.At(q.head).seqNo <= q.head + 1
    ensures q.At(q.tail).seqNo == q.tail ==> q.tail < q.head + 64
    ensures q.At(q.head).seqNo == q.head + 1 ==> q.head < q.tail && q.At(q.head).data == Some(q.pushed[q.head])
  {
    assert NodeOk(q, q.head);
    if q.tail == q.head + 64 {
      SameNode(q, q.head);
    } else {
      assert NodeOk(q, q.tail);
    }
  }

  /** A push that has the present tail ends within four steps, having appended its item if the node is free. */
  lemma PushAlone<T>(q: Queue<T>, item: T)
    requires QueueOk(q)
    ensures var r := Alone(q, PushAt(item, q.tail), 4);
            && r.1 == Idle && r.0.Shape()
            && r.0.Content() == if q.At(q.tail).seqNo < q.tail then q.Content() else q.Content() + [item]
  {
    NoNodeIsAhead(q);
    var n := q.At(q.tail).seqNo;
    if n < q.tail {
      assert Alone(q, PushSeen(item, q.tail, n), 1) == (q, Idle);
      assert Alone(q, PushAt(item, q.tail), 2) == (q, Idle);
      EndsBy(q, PushAt(item, q.tail), 2, 4);
    } else {
      var q3 := ClaimedPush(q.ClaimPush(item), item, q.tail);
      assert Alone(q, PushSeen(item, q.tail, n), 3) == (q3, Idle);
    }
  }

  /** A push that has claimed its position ends in two steps; only its node changes. */
  lemma ClaimedPush<T>(q: Queue<T>, item: T, p: nat) returns (q': Queue<T>)
    requires |q.nodes| == 64
    ensures Alone(q, PushClaimed(item, p), 2) == (q', Idle) && |q'.nodes| == 64
    ensures q'.head == q.head && q'.tail == q.tail && q'.pushed == q.pushed
  {
    var q1 := q.Set(p, q.At(p).(data := Some(item)));
    q' := q1.Set(p, q1.At(p).(seqNo := p + 1));
    assert Alone(q1, PushWritten(item, p), 1) == (q', Idle);
  }

  /** A pop that has the present head ends within four steps; `got` is what it read, if it claimed the item. */
  lemma PopAlone<T>(q: Queue<T>)
    requires QueueOk(q)
    ensures var r := Alone(q, PopAt(q.head), 4);
            && r.1 == Idle && r.0.Shape()
            && if q.At(q.head).seqNo < q.head + 1 then
                 Alone(q, PopAt(q.head), 2).1 == Idle && r.0 == q
               else
                 && q.head < q.tail && Alone(q, PopAt(q.head), 3).1 == PopRead(q.head, Some(q.Content()[0]))
                 && r.0.Content() == q.Content()[1..]
  {
    NoNodeIsAhead(q);
    var n := q.At(q.head).seqNo;
    if n < q.head + 1 {
      assert Alone(q, PopSeen(q.head, n), 1) == (q, Idle);
      assert Alone(q, PopAt(q.head), 2) == (q, Idle);
      EndsBy(q, PopAt(q.head), 2, 4);
    } else {
      var q2 := ClaimedPop(q.ClaimPop(), q.head);
      assert Alone(q, PopSeen(q.head, n), 2).1 == PopRead(q.head, q.At(q.head).data);
      assert Alone(q, PopSeen(q.head, n), 3) == (q2, Idle);
    }
  }

  /** A pop that has claimed its position reads the item with its next step, and ends with the one after. */
  lemma ClaimedPop<T>(q: Queue<T>, p: nat) returns (q': Queue<T>)
    requires |q.nodes| == 64
    ensures Alone(q, PopClaimed(p), 1).1 == PopRead(p, q.At(p).data)
    ensures Alone(q, PopClaimed(p), 2) == (q', Idle) && |q'.nodes| == 64
    ensures q'.head == q.head && q'.tail == q.tail && q'.pushed == q.pushed
  {
    q' := q.Set(p, q.At(p).(seqNo := p + 64));
    assert Alone(q, PopRead(p, q.At(p).data), 1) == (q', Idle);
    assert Alone(q, PopRead(p, q.At(p).data), 0) == (q, PopRead(p, q.At(p).data));
  }

  /** Any thread of any state ends what it is doing within six steps of its own if it is left alone. */
  lemma EndsAlone<T(!new)>(run: seq<State<T>>, n: nat, i: nat)
    requires IsRun(run) && n < |run| && i in run[n].threads
    ensures run[n].q.Shape() && Alone(run[n].q, run[n].threads[i], 6).1 == Idle
  {
    RunKeepsInv(run, n);
    ThreadEnds(run[n].q, run[n].threads[i]);
  }

  lemma ThreadEnds<T>(q: Queue<T>, t: Thread<T>)
    requires QueueOk(q) && ThreadOk(q, t)
    ensures Alone(q, t, 6).1 == Idle
  {
    match t {
      case Idle => EndsBy(q, t, 0, 6);
      case PushAt(item, tail) =>
        PushSeenEnds(q, item, tail, q.At(tail).seqNo);
        assert Alone(q, t, 6) == Alone(q, PushSeen(item, tail, q.At(tail).seqNo), 5);
      case PushSeen(item, tail, seqNo) =>
        PushSeenEnds(q, item, tail, seqNo);
        EndsBy(q, t, 5, 6);
      case PushClaimed(_, _) => ClaimedAlone(q, t, 6);
      case PushWritten(_, _) => ClaimedAlone(q, t, 6);
      case PopAt(head) =>
        PopSeenEnds(q, head, q.At(head).seqNo);
        assert Alone(q, t, 6) == Alone(q, PopSeen(head, q.At(head).seqNo), 5);
      case PopSeen(head, seqNo) =>
        PopSeenEnds(q, head, seqNo);
        EndsBy(q, t, 5, 6);
      case _ => ClaimedAlone(q, t, 6);
    }
  }

  lemma PushSeenEnds<T>(q: Queue<T>, item: T, tail: nat, seqNo: nat)
    requires QueueOk(q)
    ensures Alone(q, PushSeen(item, tail, seqNo), 5).1 == Idle
  {
    var t := PushSeen(item, tail, seqNo);
    var (q1, t1) := ThreadStep(q, t, Go);
    if t1.PushClaimed? {
      ClaimedAlone(q1, t1, 4);
    } else if t1 == Idle {
      IdleStays(q1, 4);
    } else {
      PushAlone(q, item);
    }
  }

  lemma PopSeenEnds<T>(q: Queue<T>, head: nat, seqNo: nat)
    requires QueueOk(q)
    ensures Alone(q, PopSeen(head, seqNo), 5).1 == Idle
  {
    var t := PopSeen(head, seqNo);
    var (q1, t1) := ThreadStep(q, t, Go);
    if t1.PopClaimed? {
      ClaimedAlone(q1, t1, 4);
    } else if t1 == Idle {
      IdleStays(q1, 4);
    } else {
      PopAlone(q);
    }
  }

  lemma ClaimedAlone<T>(q: Queue<T>, t: Thread<T>, k: nat)
    requires |q.nodes| == 64 && (t.PushPos() != -1 || t.PopPos() != -1) && k >= 2
    ensures Alone(q, t, k).1 == Idle
  {
    var (q1, t1) := ThreadStep(q, t, Go);
    assert Alone(q1, t1, 1) == Alone(ThreadStep(q1, t1, Go).0, ThreadStep(q1, t1, Go).1, 0);
    EndsBy(q, t, 2, k);
  }

  /** The same steps among the other threads, which stay where they are. */
  ghost function Solo<T>(s: State<T>, i: nat, k: nat): (r: State<T>)
    requires |s.q.nodes| == 64 && i in s.threads
    ensures |r.q.nodes| == 64 && i in r.threads
  {
    if k == 0 then s else Step(Solo(s, i, k - 1), i, Go)
  }

  lemma {:induction false} AloneAtEnd<T>(q: Queue<T>, t: Thread<T>, k: nat)
    requires |q.nodes| == 64
    ensures var r := Alone(q, t, k); Alone(q, t, k + 1) == ThreadStep(r.0, r.1, Go)
    decreases k
  {
    if k > 0 {
      AloneAtEnd(ThreadStep(q, t, Go).0, ThreadStep(q, t, Go).1, k - 1);
    }
  }

  lemma {:induction false} SoloIsAlone<T>(s: State<T>, i: nat, k: nat)
    requires |s.q.nodes| == 64 && i in s.threads
    ensures var r := Alone(s.q, s.threads[i], k); Solo(s, i, k).q == r.0 && Solo(s, i, k).threads == s.threads[i := r.1]
  {
    if k > 0 {
      SoloIsAlone(s, i, k - 1);
      AloneAtEnd(s.q, s.threads[i], k - 1);
    }
  }

  /** After `l` steps the thread has read nothing. */
  ghost predicate ReadsNot<T>(q: Queue<T>, t: Thread<T>, l: nat)
    requires |q.nodes| == 64
  {
    !Alone(q, t, l).1.PopRead?
  }

  lemma SoloLast<T>(s: State<T>, i: nat, k: nat)
    requires |s.q.nodes| == 64 && i in s.threads && k > 0 && ReadsNot(s.q, s.threads[i], k - 1)
    ensures Solo(s, i, k).popped == Solo(s, i, k - 1).popped
  {
    SoloIsAlone(s, i, k - 1);
  }

  /** As long as it has read nothing, nothing is returned. */
  lemma {:induction false} SoloReturns<T>(s: State<T>, i: nat, k: nat)
    requires |s.q.nodes| == 64 && i in s.threads
    requires forall l: nat :: l < k ==> ReadsNot(s.q, s.threads[i], l)
    ensures Solo(s, i, k).popped == s.popped
  {
    if k > 0 {
      SoloReturns(s, i, k - 1);
      SoloLast(s, i, k);
    }
  }

  predicate IsPushing<T>(t: Thread<T>) {
    t.Idle? || t.PushAt? || t.PushSeen? || t.PushClaimed? || t.PushWritten?
  }

  lemma {:induction false} StaysPushing<T>(q: Queue<T>, t: Thread<T>, k: nat)
    requires |q.nodes| == 64 && IsPushing(t)
    ensures IsPushing(Alone(q, t, k).1)
    decreases k
  {
    if k > 0 {
      StaysPushing(ThreadStep(q, t, Go).0, ThreadStep(q, t, Go).1, k - 1);
    }
  }

  /**
   From any state of any run, a thread that pushes and is left alone is idle again after four more
   steps. It has appended its item, unless the queue was full, and changed nothing else.
   */
  lemma SoloPush<T(!new)>(run: seq<State<T>>, n: nat, i: nat, item: T)
    requires IsRun(run) && n < |run| && i in run[n].threads && run[n].threads[i] == Idle
    ensures run[n].q.Shape()
    ensures var s := run[n];
            var e := Solo(Step(s, i, StartPush(item)), i, 4);
            && e.q.Shape() && e.threads == s.threads && e.popped == s.popped
            && e.q.Content() == if IsFull(s) then s.q.Content() else s.q.Content() + [item]
  {
    RunKeepsAttended(run, n);
    var s := run[n];
    FullIsLagging(s);
    PushAlone(s.q, item);
    var b := Step(s, i, StartPush(item));
    SoloIsAlone(b, i, 4);
    forall l: nat | l < 4
      ensures ReadsNot(b.q, b.threads[i], l)
    {
      StaysPushing(b.q, b.threads[i], l);
    }
    SoloReturns(b, i, 4);
    assert s.threads[i := Idle] == s.threads;
  }

  lemma NotReadBefore<T>(q: Queue<T>, l: nat)
    requires QueueOk(q) && l < 3
    ensures ReadsNot(q, PopAt(q.head), l)
  {
    var n := q.At(q.head).seqNo;
    assert Alone(q, PopSeen(q.head, n), 1) == ThreadStep(q, PopSeen(q.head, n), Go);
    assert Alone(q, PopAt(q.head), 1) == (q, PopSeen(q.head, n));
    assert Alone(q, PopAt(q.head), 2) == ThreadStep(q, PopSeen(q.head, n), Go);
  }

  /** Likewise a pop: it has removed the front item and returned it, unless the queue was empty. */
  lemma SoloPop<T(!new)>(run: seq<State<T>>, n: nat, i: nat)
    requires IsRun(run) && n < |run| && i in run[n].threads && run[n].threads[i] == Idle
    ensures run[n].q.Shape()
    ensures var s := run[n];
            var e := Solo(Step(s, i, StartPop), i, 4);
            && e.q.Shape() && e.threads == s.threads
            && if IsEmpty(s) then
                 e.q.Content() == s.q.Content() && e.popped == s.popped
               else
                 e.q.Content() == s.q.Content()[1..] && e.popped == s.popped[s.q.head := s.q.Content()[0]]
  {
    RunKeepsAttended(run, n);
    var s := run[n];
    EmptyIsLagging(s);
    var b := Step(s, i, StartPop);
    PopReturns(s.q, b, i);
    assert s.threads[i := Idle] == s.threads;
    assert b.threads[i := Idle] == s.threads[i := Idle];
  }

  lemma PopReturns<T>(q: Queue<T>, b: State<T>, i: nat)
    requires QueueOk(q) && b.q == q && i in b.threads && b.threads[i] == PopAt(q.head)
    ensures var e := Solo(b, i, 4);
            && e.q.Shape() && e.threads == b.threads[i := Idle]
            && if q.At(q.head).seqNo < q.head + 1 then
                 e.q.Content() == q.Content() && e.popped == b.popped
               else
                 && q.Content() != [] && e.q.Content() == q.Content()[1..]
                 && e.popped == b.popped[q.head := q.Content()[0]]
  {
    PopAlone(q);
    SoloIsAlone(b, i, 4);
    SoloIsAlone(b, i, 3);
    forall l: nat | l < 3
      ensures ReadsNot(b.q, b.threads[i], l)
    {
      NotReadBefore(q, l);
    }
    SoloReturns(b, i, 3);
    if q.At(q.head).seqNo < q.head + 1 {
      EndsBy(q, PopAt(q.head), 2, 3);
    }
  }

  ghost predicate AllIdle<T>(s: State<T>) {
    forall i :: i in s.threads ==> s.threads[i] == Idle
  }

  /** With every thread idle a push fails exactly on 64 items, and a pop exactly on none. */
  lemma AtRest<T(!new)>(run: seq<State<T>>, n: nat)
    requires IsRun(run) && n < |run| && AllIdle(run[n])
    ensures run[n].q.Shape()
    ensures IsFull(run[n]) <==> |run[n].q.Content()| == 64
    ensures IsEmpty(run[n]) <==> run[n].q.Content() == []
  {
    RunKeepsInv(run, n);
  }
}
