/**
 The lock-free queue of `RingBuffer.h`: 64 nodes, each with its own sequence number, shared by any
 number of pushing and popping threads. Every atomic load, compare-exchange and store is one step,
 and so are the plain write and read of a node's data. Counters are unbounded here; `NoWrap` shows
 that 64 bits hold them until 2^64 - 64 items have been pushed.
 */
module RingBuffer {

  import opened Words

  datatype Node<T> = Node(seqNo: nat, data: Option<T>)

  /** What the threads share. `pushed[p]` is the item whose thread claimed position `p`. */
  datatype Queue<T> = Queue(nodes: seq<Node<T>>, head: nat, tail: nat, pushed: seq<T>) {

    predicate Shape() {
      |nodes| == 64 && |pushed| == tail && head <= tail <= head + 64
    }

    function At(p: nat): Node<T>
      requires |nodes| == 64
    {
      nodes[p % 64]
    }

    function Set(p: nat, node: Node<T>): Queue<T>
      requires |nodes| == 64
    {
      this.(nodes := nodes[p % 64 := node])
    }

    function ClaimPush(item: T): Queue<T> {
      this.(tail := tail + 1, pushed := pushed + [item])
    }

    function ClaimPop(): Queue<T> {
      this.(head := head + 1)
    }

    /** The items pushed and not yet popped. */
    function Content(): seq<T>
      requires Shape()
    {
      pushed[head..]
    }
  }

  /** Where a thread stands in `Push` or `Pop`. */
  datatype Thread<T> =
    | Idle
    | PushAt(item: T, tail: nat)                 // tail loaded
    | PushSeen(item: T, tail: nat, seqNo: nat)   // the node's sequence number loaded
    | PushClaimed(item: T, tail: nat)            // tail moved on, data not yet written
    | PushWritten(item: T, tail: nat)            // data written, not yet published
    | PopAt(head: nat)
    | PopSeen(head: nat, seqNo: nat)
    | PopClaimed(head: nat)                      // head moved on, data not yet read
    | PopRead(head: nat, got: Option<T>)         // data read, node not yet released
  {
    /** The position this thread has claimed for pushing, or -1. */
    function PushPos(): int {
      if PushClaimed? || PushWritten? then tail else -1
    }

    function PopPos(): int {
      if PopClaimed? || PopRead? then head else -1
    }
  }

  /** `popped` maps positions to the results of the pops that returned. */
  datatype State<T> = State(q: Queue<T>, threads: map<nat, Thread<T>>, popped: map<nat, T>)

  datatype Action<T> = StartPush(item: T) | StartPop | Go

  /** One atomic step of a thread: the shared memory and the thread afterwards. */
  function ThreadStep<T>(q: Queue<T>, t: Thread<T>, a: Action<T>): (Queue<T>, Thread<T>)
    requires |q.nodes| == 64
  {
    match t
    case Idle =>
      (match a
       case StartPush(item) => (q, PushAt(item, q.tail))
       case StartPop => (q, PopAt(q.head))
       case Go => (q, Idle))
    case PushAt(item, tail) => (q, PushSeen(item, tail, q.At(tail).seqNo))
    case PushSeen(item, tail, seqNo) =>
      if seqNo == tail then
        if q.tail == tail then (q.ClaimPush(item), PushClaimed(item, tail)) else (q, PushAt(item, q.tail))
      else if seqNo < tail then (q, Idle)
      else (q, PushAt(item, q.tail))
    case PushClaimed(item, tail) => (q.Set(tail, q.At(tail).(data := Some(item))), PushWritten(item, tail))
    case PushWritten(item, tail) => (q.Set(tail, q.At(tail).(seqNo := tail + 1)), Idle)
    case PopAt(head) => (q, PopSeen(head, q.At(head).seqNo))
    case PopSeen(head, seqNo) =>
      if seqNo == head + 1 then
        if q.head == head then (q.ClaimPop(), PopClaimed(head)) else (q, PopAt(q.head))
      else if seqNo < head + 1 then (q, Idle)
      else (q, PopAt(q.head))
    case PopClaimed(head) => (q, PopRead(head, q.At(head).data))
    case PopRead(head, _) => (q.Set(head, q.At(head).(seqNo := head + 64)), Idle)
  }

  function Step<T>(s: State<T>, i: nat, a: Action<T>): State<T>
    requires |s.q.nodes| == 64 && i in s.threads
  {
    var t := s.threads[i];
    var (q, t') := ThreadStep(s.q, t, a);
    State(q, s.threads[i := t'],
          if t.PopRead? && t.got.Some? then s.popped[t.head := t.got.value] else s.popped)
  }

  /** Any number of threads, all idle, and node `i` waiting for position `i`. */
  ghost predicate IsStart<T>(s: State<T>) {
    && |s.q.nodes| == 64 && (forall i :: 0 <= i < 64 ==> s.q.nodes[i].seqNo == i)
    && s.q.head == 0 && s.q.tail == 0 && s.q.pushed == [] && s.popped == map[]
    && forall i :: i in s.threads ==> s.threads[i] == Idle
  }

  ghost predicate IsStep<T(!new)>(s: State<T>, s': State<T>) {
    |s.q.nodes| == 64 && exists i, a :: i in s.threads && s' == Step(s, i, a)
  }

  ghost predicate IsRun<T(!new)>(run: seq<State<T>>) {
    && |run| > 0 && IsStart(run[0])
    && forall i :: 0 <= i < |run| - 1 ==> IsStep(run[i], run[i + 1])
  }

  // ---------------------------------------------------------------------------------------------
  // Invariant
  // ---------------------------------------------------------------------------------------------

  /**
   The node of position `p`, for the 64 positions from `head` on: claimed positions are waiting for
   their item or hold it; the others are free, or still being popped from one round earlier.
   */
  ghost predicate NodeOk<T>(q: Queue<T>, p: nat)
    requires q.Shape()
  {
    var n := q.At(p);
    if p < q.tail
    then n.seqNo == p || (n.seqNo == p + 1 && n.data == Some(q.pushed[p]))
    else n.seqNo == p || (p >= 64 && n.seqNo == p - 63)
  }

  ghost predicate QueueOk<T>(q: Queue<T>) {
    q.Shape() && forall p :: q.head <= p < q.head + 64 ==> NodeOk(q, p)
  }

  ghost predicate ThreadOk<T>(q: Queue<T>, t: Thread<T>)
    requires q.Shape()
  {
    match t
    case Idle => true
    case PushAt(_, l) => l <= q.tail
    case PushSeen(_, l, n) => l <= q.tail && n <= q.At(l).seqNo
    case PushClaimed(x, p) => q.head <= p < q.tail && q.At(p).seqNo == p && q.pushed[p] == x
    case PushWritten(x, p) => q.head <= p < q.tail && q.At(p) == Node(p, Some(x)) && q.pushed[p] == x
    case PopAt(l) => l <= q.head
    case PopSeen(l, n) => l <= q.head && n <= q.At(l).seqNo
    case PopClaimed(p) => p < q.head && q.tail <= p + 64 && q.At(p) == Node(p + 1, Some(q.pushed[p]))
    case PopRead(p, v) => p < q.head && q.tail <= p + 64 && q.At(p).seqNo == p + 1 && v == Some(q.pushed[p])
  }

  /** No two threads claim the same position for the same purpose. */
  predicate Apart<T>(t: Thread<T>, u: Thread<T>) {
    && (t.PushPos() == -1 || t.PushPos() != u.PushPos())
    && (t.PopPos() == -1 || t.PopPos() != u.PopPos())
  }

  ghost predicate Exclusive<T>(threads: map<nat, Thread<T>>) {
    forall i, j :: i in threads && j in threads && i != j ==> Apart(threads[i], threads[j])
  }

  ghost predicate Inv<T>(s: State<T>) {
    && QueueOk(s.q)
    && (forall i :: i in s.threads ==> ThreadOk(s.q, s.threads[i]))
    && Exclusive(s.threads)
    && (forall p :: p in s.popped ==> p < s.q.head && s.popped[p] == s.q.pushed[p])
  }

  lemma StartInv<T>(s: State<T>)
    requires IsStart(s)
    ensures Inv(s)
  {
  }

  /** The node of the tail is free once its sequence number has reached the tail: the queue is not full. */
  lemma TailIsFree<T>(q: Queue<T>)
    requires QueueOk(q) && q.At(q.tail).seqNo >= q.tail
    ensures q.tail < q.head + 64 && q.At(q.tail).seqNo == q.tail
  {
    SameNode(q, q.head);
    assert NodeOk(q, q.head);
    if q.tail != q.head + 64 {
      assert NodeOk(q, q.tail);
    }
  }

  lemma SameNode<T>(q: Queue<T>, p: nat)
    requires q.Shape()
    ensures q.At(p + 64) == q.At(p)
  {
    assert (p + 64) % 64 == p % 64;
  }

  lemma ClaimPushOk<T>(q: Queue<T>, item: T)
    requires QueueOk(q) && q.At(q.tail).seqNo >= q.tail
    ensures q.tail < q.head + 64 && q.At(q.tail).seqNo == q.tail
    ensures QueueOk(q.ClaimPush(item)) && ThreadOk(q.ClaimPush(item), PushClaimed(item, q.tail))
  {
    TailIsFree(q);
    var q' := q.ClaimPush(item);
    forall p | q'.head <= p < q'.head + 64
      ensures NodeOk(q', p)
    {
      assert NodeOk(q, p);
    }
  }

  lemma ClaimPushKeeps<T>(q: Queue<T>, item: T, u: Thread<T>)
    requires q.Shape() && q.tail < q.head + 64 && q.At(q.tail).seqNo == q.tail && ThreadOk(q, u)
    ensures ThreadOk(q.ClaimPush(item), u)
    ensures u.PushPos() != q.tail
  {
  }

  /** The node of the head holds its item once its sequence number has passed the head. */
  lemma ClaimPopOk<T>(q: Queue<T>)
    requires QueueOk(q) && q.At(q.head).seqNo >= q.head + 1
    ensures q.head < q.tail
    ensures QueueOk(q.ClaimPop()) && ThreadOk(q.ClaimPop(), PopClaimed(q.head))
  {
    assert NodeOk(q, q.head);
    var q' := q.ClaimPop();
    forall p | q'.head <= p < q'.head + 64
      ensures NodeOk(q', p)
    {
      if p == q.head + 64 {
        assert q.At(p) == q.At(q.head);
      } else {
        assert NodeOk(q, p);
      }
    }
  }

  lemma ClaimPopKeeps<T>(q: Queue<T>, u: Thread<T>)
    requires q.Shape() && q.head < q.tail && q.At(q.head).seqNo == q.head + 1 && ThreadOk(q, u)
    ensures ThreadOk(q.ClaimPop(), u)
    ensures u.PopPos() != q.head
  {
  }

  /** A thread that claims position `p` changes the node of `p` only, and no other thread's node. */
  lemma SetKeeps<T>(q: Queue<T>, p: nat, node: Node<T>, u: Thread<T>)
    requires q.Shape() && ThreadOk(q, u) && q.At(p).seqNo <= node.seqNo
    requires u.PushPos() != -1 ==> u.tail % 64 != p % 64
    requires u.PopPos() != -1 ==> u.head % 64 != p % 64
    ensures q.Set(p, node).Shape() && ThreadOk(q.Set(p, node), u)
  {
  }

  /** Two threads that both claim something claim different nodes. */
  lemma NodesApart<T>(q: Queue<T>, t: Thread<T>, u: Thread<T>)
    requires q.Shape() && ThreadOk(q, t) && ThreadOk(q, u) && Apart(t, u)
    ensures t.PushPos() != -1 && u.PushPos() != -1 ==> t.tail % 64 != u.tail % 64
    ensures t.PushPos() != -1 && u.PopPos() != -1 ==> t.tail % 64 != u.head % 64
    ensures t.PopPos() != -1 && u.PushPos() != -1 ==> t.head % 64 != u.tail % 64
    ensures t.PopPos() != -1 && u.PopPos() != -1 ==> t.head % 64 != u.head % 64
  {
  }

  lemma PublishOk<T>(q: Queue<T>, t: Thread<T>)
    requires QueueOk(q) && ThreadOk(q, t) && (t.PushClaimed? || t.PushWritten?)
    ensures var r := ThreadStep(q, t, Go); QueueOk(r.0) && ThreadOk(r.0, r.1)
  {
    var q' := ThreadStep(q, t, Go).0;
    forall p | q'.head <= p < q'.head + 64
      ensures NodeOk(q', p)
    {
      assert NodeOk(q, p);
      if p % 64 == t.tail % 64 {
        SlotInjective(p, t.tail);
      }
    }
  }

  lemma ReleaseOk<T>(q: Queue<T>, t: Thread<T>)
    requires QueueOk(q) && ThreadOk(q, t) && t.PopRead?
    ensures QueueOk(ThreadStep(q, t, Go).0)
  {
    var q' := ThreadStep(q, t, Go).0;
    forall p | q'.head <= p < q'.head + 64
      ensures NodeOk(q', p)
    {
      assert NodeOk(q, p);
      if p % 64 == t.head % 64 {
        SlotInjective(p, t.head + 64);
      }
    }
  }

  /** The thread that takes the step, and the shared memory. */
  lemma MoverOk<T>(q: Queue<T>, t: Thread<T>, a: Action<T>)
    requires QueueOk(q) && ThreadOk(q, t)
    ensures var r := ThreadStep(q, t, a); QueueOk(r.0) && ThreadOk(r.0, r.1)
  {
    match t {
      case PushSeen(item, tail, seqNo) =>
        if seqNo == tail == q.tail {
          ClaimPushOk(q, item);
        }
      case PopSeen(head, seqNo) =>
        if seqNo == head + 1 && head == q.head {
          ClaimPopOk(q);
        }
      case PushClaimed(_, _) => PublishOk(q, t);
      case PushWritten(_, _) => PublishOk(q, t);
      case PopRead(_, _) => ReleaseOk(q, t);
      case _ =>
    }
  }

  lemma OtherAfterPushClaim<T>(q: Queue<T>, t: Thread<T>, a: Action<T>, u: Thread<T>)
    requires QueueOk(q) && ThreadOk(q, t) && ThreadOk(q, u) && Apart(t, u) && t.PushSeen?
    ensures var r := ThreadStep(q, t, a); r.0.Shape() && ThreadOk(r.0, u) && Apart(r.1, u)
  {
    if t.seqNo == t.tail == q.tail {
      ClaimPushOk(q, t.item);
      ClaimPushKeeps(q, t.item, u);
    }
  }

  lemma OtherAfterPopClaim<T>(q: Queue<T>, t: Thread<T>, a: Action<T>, u: Thread<T>)
    requires QueueOk(q) && ThreadOk(q, t) && ThreadOk(q, u) && Apart(t, u) && t.PopSeen?
    ensures var r := ThreadStep(q, t, a); r.0.Shape() && ThreadOk(r.0, u) && Apart(r.1, u)
  {
    if t.seqNo == t.head + 1 && t.head == q.head {
      assert NodeOk(q, q.head);
      ClaimPopOk(q);
      ClaimPopKeeps(q, u);
    }
  }

  lemma OtherAfterSet<T>(q: Queue<T>, t: Thread<T>, a: Action<T>, u: Thread<T>)
    requires q.Shape() && ThreadOk(q, t) && ThreadOk(q, u) && Apart(t, u)
    requires t.PushClaimed? || t.PushWritten? || t.PopRead?
    ensures var r := ThreadStep(q, t, a); r.0.Shape() && ThreadOk(r.0, u) && Apart(r.1, u)
  {
    NodesApart(q, t, u);
    var p, node := SetsAt(q, t);
    SetKeeps(q, p, node, u);
  }

  /** The node a thread writes to, and what it becomes. */
  lemma SetsAt<T>(q: Queue<T>, t: Thread<T>) returns (p: nat, node: Node<T>)
    requires q.Shape() && ThreadOk(q, t) && (t.PushClaimed? || t.PushWritten? || t.PopRead?)
    ensures p == (if t.PopRead? then t.head else t.tail) && q.At(p).seqNo <= node.seqNo
    ensures forall a: Action<T> :: ThreadStep(q, t, a).0 == q.Set(p, node)
    ensures forall a: Action<T> :: ThreadStep(q, t, a).1 == if t.PushClaimed? then PushWritten(t.item, t.tail) else Idle
  {
    match t {
      case PushClaimed(item, l) => p, node := l, q.At(l).(data := Some(item));
      case PushWritten(_, l) => p, node := l, q.At(l).(seqNo := l + 1);
      case PopRead(l, _) => p, node := l, q.At(l).(seqNo := l + 64);
    }
  }

  /** Every other thread. */
  lemma OtherOk<T>(q: Queue<T>, t: Thread<T>, a: Action<T>, u: Thread<T>)
    requires QueueOk(q) && ThreadOk(q, t) && ThreadOk(q, u) && Apart(t, u)
    ensures var r := ThreadStep(q, t, a); r.0.Shape() && ThreadOk(r.0, u) && Apart(r.1, u)
  {
    if t.PushSeen? {
      OtherAfterPushClaim(q, t, a, u);
    } else if t.PopSeen? {
      OtherAfterPopClaim(q, t, a, u);
    } else if t.PushClaimed? || t.PushWritten? || t.PopRead? {
      OtherAfterSet(q, t, a, u);
    }
  }

  lemma ThreadsKept<T>(s: State<T>, i: nat, a: Action<T>)
    requires Inv(s) && i in s.threads
    ensures var s' := Step(s, i, a);
            QueueOk(s'.q) && (forall j :: j in s'.threads ==> ThreadOk(s'.q, s'.threads[j])) && Exclusive(s'.threads)
  {
    var t := s.threads[i];
    var s' := Step(s, i, a);
    MoverOk(s.q, t, a);
    forall j | j in s'.threads && j != i
      ensures ThreadOk(s'.q, s'.threads[j]) && Apart(s'.threads[i], s'.threads[j])
    {
      OtherOk(s.q, t, a, s.threads[j]);
    }
  }

  lemma StepKeepsInv<T>(s: State<T>, i: nat, a: Action<T>)
    requires Inv(s) && i in s.threads
    ensures Inv(Step(s, i, a))
  {
    ThreadsKept(s, i, a);
    assert ThreadOk(s.q, s.threads[i]);
    assert s.q.head <= Step(s, i, a).q.head && s.q.pushed <= Step(s, i, a).q.pushed;
  }

  lemma {:induction false} RunKeepsInv<T(!new)>(run: seq<State<T>>, n: nat)
    requires IsRun(run) && n < |run|
    ensures Inv(run[n])
  {
    if n == 0 {
      StartInv(run[0]);
    } else {
      RunKeepsInv(run, n - 1);
      assert IsStep(run[n - 1], run[n - 1 + 1]);
      var i, a :| i in run[n - 1].threads && run[n] == Step(run[n - 1], i, a);
      StepKeepsInv(run[n - 1], i, a);
    }
  }

  // ---------------------------------------------------------------------------------------------
  // What the queue promises
  // ---------------------------------------------------------------------------------------------

  /**
   The queue is a FIFO queue. A push takes effect when its compare-exchange succeeds, appending its
   item; a pop when its own does, removing the front item; no other step changes the content.
   */
  lemma IsFifo<T(!new)>(run: seq<State<T>>, n: nat, i: nat, a: Action<T>)
    requires IsRun(run) && n < |run| && i in run[n].threads
    ensures QueueOk(run[n].q) && QueueOk(Step(run[n], i, a).q)
    ensures FifoStep(run[n].q, run[n].threads[i], Step(run[n], i, a).q, Step(run[n], i, a).threads[i])
  {
    RunKeepsInv(run, n);
    assert ThreadOk(run[n].q, run[n].threads[i]);
    ContentAfter(run[n].q, run[n].threads[i], a);
  }

  ghost predicate FifoStep<T>(q: Queue<T>, t: Thread<T>, q': Queue<T>, t': Thread<T>)
    requires q.Shape() && q'.Shape()
  {
    if t.PushPos() == -1 && t'.PushPos() != -1 then
      && q'.Content() == q.Content() + [t'.item] && |q.Content()| < 64 && t'.tail == q.tail
    else if t.PopPos() == -1 && t'.PopPos() != -1 then
      && t'.head == q.head < q.tail && q.Content() == [q.pushed[t'.head]] + q'.Content()
    else
      q'.Content() == q.Content()
  }

  lemma ContentAfter<T>(q: Queue<T>, t: Thread<T>, a: Action<T>)
    requires QueueOk(q) && ThreadOk(q, t)
    ensures var r := ThreadStep(q, t, a);
            QueueOk(r.0) && FifoStep(q, t, r.0, r.1)
  {
    MoverOk(q, t, a);
    if t.PushSeen? && t.seqNo == t.tail == q.tail {
      ClaimPushOk(q, t.item);
    } else if t.PopSeen? && t.seqNo == t.head + 1 && t.head == q.head {
      ClaimPopOk(q);
    } else {
      NoClaim(q, t, a);
    }
  }

  /** Every other step leaves the content, and who has claimed what for the first time, alone. */
  lemma NoClaim<T>(q: Queue<T>, t: Thread<T>, a: Action<T>)
    requires q.Shape()
    requires !(t.PushSeen? && t.seqNo == t.tail == q.tail) && !(t.PopSeen? && t.seqNo == t.head + 1 && t.head == q.head)
    ensures var r := ThreadStep(q, t, a);
            && r.0.pushed == q.pushed && r.0.head == q.head
            && (t.PushPos() == -1 ==> r.1.PushPos() == -1) && (t.PopPos() == -1 ==> r.1.PopPos() == -1)
  {
  }

  /**
   In every state of every run: a thread that has read a node got the item pushed at the position
   it claimed; every pop that returned did return that item; and no position is claimed twice for
   pushing, or twice for popping, at the same time.
   */
  lemma PopsReturnWhatWasPushed<T(!new)>(run: seq<State<T>>, n: nat)
    requires IsRun(run) && n < |run|
    ensures var s := run[n];
            && s.q.Shape()
            && (forall p :: p in s.popped ==> p < s.q.tail && s.popped[p] == s.q.pushed[p])
            && (forall i :: i in s.threads && s.threads[i].PopRead? ==>
                  s.threads[i].head < s.q.tail && s.threads[i].got == Some(s.q.pushed[s.threads[i].head]))
            && Exclusive(s.threads)
  {
    RunKeepsInv(run, n);
    var s := run[n];
    forall i | i in s.threads && s.threads[i].PopRead?
      ensures s.threads[i].head < s.q.tail && s.threads[i].got == Some(s.q.pushed[s.threads[i].head])
    {
      assert ThreadOk(s.q, s.threads[i]);
    }
  }

  /** About to touch the data of a node without synchronisation. */
  predicate Touches<T>(t: Thread<T>, node: nat) {
    (t.PushClaimed? && t.tail % 64 == node) || (t.PopClaimed? && t.head % 64 == node)
  }

  /** The plain write and read of a node's data never race. */
  lemma NoDataRace<T(!new)>(run: seq<State<T>>, n: nat, i: nat, j: nat, node: nat)
    requires IsRun(run) && n < |run| && i in run[n].threads && j in run[n].threads && i != j
    ensures !(Touches(run[n].threads[i], node) && Touches(run[n].threads[j], node))
  {
    RunKeepsInv(run, n);
    var s := run[n];
    assert ThreadOk(s.q, s.threads[i]) && ThreadOk(s.q, s.threads[j]);
    NodesApart(s.q, s.threads[i], s.threads[j]);
  }

  /** The tail is at most 64 ahead of the head, and no sequence number exceeds the number of pushes by 64. */
  lemma NoWrap<T(!new)>(run: seq<State<T>>, n: nat)
    requires IsRun(run) && n < |run|
    ensures var q := run[n].q;
            && q.head <= q.tail <= q.head + 64 && q.tail == |q.pushed|
            && |q.nodes| == 64
            && forall k :: 0 <= k < 64 ==> q.nodes[k].seqNo < |q.pushed| + 64
  {
    RunKeepsInv(run, n);
    var q := run[n].q;
    forall k | 0 <= k < 64
      ensures q.nodes[k].seqNo < |q.pushed| + 64
    {
      assert NodeOk(q, AtSlot(q.head, k));
    }
  }

  // ---------------------------------------------------------------------------------------------
  // Full and empty
  // ---------------------------------------------------------------------------------------------

  ghost predicate HasPusher<T>(s: State<T>, p: nat) {
    exists i :: i in s.threads && s.threads[i].PushPos() == p
  }

  ghost predicate HasPopper<T>(s: State<T>, p: nat) {
    exists i :: i in s.threads && s.threads[i].PopPos() == p
  }

  /** A claimed node that is not filled yet has a thread filling it. */
  ghost predicate PushAttended<T>(s: State<T>, p: nat)
    requires s.q.Shape()
  {
    s.q.At(p).seqNo == p ==> HasPusher(s, p)
  }

  /** An unclaimed node that is not free yet has a thread emptying it. */
  ghost predicate PopAttended<T>(s: State<T>, p: nat)
    requires s.q.Shape()
  {
    s.q.At(p).seqNo != p ==> p >= 64 && HasPopper(s, p - 64)
  }

  ghost predicate Attended<T>(s: State<T>)
    requires s.q.Shape()
  {
    && (forall p :: s.q.head <= p < s.q.tail ==> PushAttended(s, p))
    && (forall p :: s.q.tail <= p < s.q.head + 64 ==> PopAttended(s, p))
    && (forall p :: 0 <= p < s.q.head ==> p in s.popped || HasPopper(s, p))
  }

  lemma ClaimsStay<T>(s: State<T>, i: nat, a: Action<T>, p: nat)
    requires |s.q.nodes| == 64 && i in s.threads
    ensures HasPusher(s, p) && !(s.threads[i].PushWritten? && s.threads[i].tail == p) ==> HasPusher(Step(s, i, a), p)
    ensures HasPopper(s, p) && !(s.threads[i].PopRead? && s.threads[i].head == p) ==> HasPopper(Step(s, i, a), p)
  {
    var s' := Step(s, i, a);
    if HasPusher(s, p) && !(s.threads[i].PushWritten? && s.threads[i].tail == p) {
      var k :| k in s.threads && s.threads[k].PushPos() == p;
      assert k in s'.threads && s'.threads[k].PushPos() == p;
    }
    if HasPopper(s, p) && !(s.threads[i].PopRead? && s.threads[i].head == p) {
      var k :| k in s.threads && s.threads[k].PopPos() == p;
      assert k in s'.threads && s'.threads[k].PopPos() == p;
    }
  }

  lemma PushersStay<T>(s: State<T>, i: nat, a: Action<T>, p: nat)
    requires Inv(s) && Attended(s) && i in s.threads
    requires var q := Step(s, i, a).q; q.Shape() && q.head <= p < q.tail
    ensures PushAttended(Step(s, i, a), p)
  {
    var t, s' := s.threads[i], Step(s, i, a);
    assert ThreadOk(s.q, t);
    ClaimsStay(s, i, a, p);
    if p == s.q.tail {
      assert s'.threads[i].PushPos() == p;
    } else {
      assert PushAttended(s, p) && NodeOk(s.q, p);
      if t.PushWritten? && t.tail % 64 == p % 64 {
        SlotInjective(t.tail, p);
      }
    }
  }

  /** No step of a thread that claims something else changes the node of a free position. */
  lemma FreeNodeStays<T>(q: Queue<T>, t: Thread<T>, a: Action<T>, p: nat)
    requires QueueOk(q) && ThreadOk(q, t) && q.tail <= p < q.head + 64
    requires t.PopPos() != p - 64
    ensures ThreadStep(q, t, a).0.At(p) == q.At(p)
  {
    if t.PushPos() != -1 && t.tail % 64 == p % 64 {
      SlotInjective(t.tail, p);
    }
    if t.PopRead? && t.head % 64 == p % 64 {
      SlotInjective(t.head + 64, p);
    }
  }

  /** Of one step and one free position: the mover is popping there, or has just released it, or left it alone. */
  lemma FreeNodeCases<T>(q: Queue<T>, t: Thread<T>, a: Action<T>, p: nat)
    requires QueueOk(q) && ThreadOk(q, t) && QueueOk(ThreadStep(q, t, a).0)
    requires var q' := ThreadStep(q, t, a).0; q'.tail <= p < q'.head + 64 && q'.At(p).seqNo != p
    ensures p >= 64
    ensures ThreadStep(q, t, a).1.PopPos() == p - 64 ||
            (t.PopPos() != p - 64 && q.tail <= p < q.head + 64 && q.At(p).seqNo != p)
  {
    var (q', t') := ThreadStep(q, t, a);
    assert NodeOk(q', p);
    if t'.PopPos() != p - 64 {
      assert t.PopPos() != p - 64;
      FreeNodeStays(q, t, a, p);
    }
  }

  lemma PoppersStay<T>(s: State<T>, i: nat, a: Action<T>, p: nat)
    requires QueueOk(s.q) && Attended(s) && i in s.threads && ThreadOk(s.q, s.threads[i])
    requires var q := Step(s, i, a).q; QueueOk(q) && q.tail <= p < q.head + 64
    ensures PopAttended(Step(s, i, a), p)
  {
    var s' := Step(s, i, a);
    if s'.q.At(p).seqNo != p {
      FreeNodeCases(s.q, s.threads[i], a, p);
      if s'.threads[i].PopPos() == p - 64 {
        assert i in s'.threads;
      } else {
        assert PopAttended(s, p);
        ClaimsStay(s, i, a, p - 64);
      }
    }
  }

  lemma StepKeepsAttended<T>(s: State<T>, i: nat, a: Action<T>)
    requires Inv(s) && Attended(s) && i in s.threads
    ensures Inv(Step(s, i, a)) && Attended(Step(s, i, a))
  {
    StepKeepsInv(s, i, a);
    assert ThreadOk(s.q, s.threads[i]);
    var s' := Step(s, i, a);
    forall p | s'.q.head <= p < s'.q.tail
      ensures PushAttended(s', p)
    {
      PushersStay(s, i, a, p);
    }
    forall p | s'.q.tail <= p < s'.q.head + 64
      ensures PopAttended(s', p)
    {
      PoppersStay(s, i, a, p);
    }
    forall p | 0 <= p < s'.q.head
      ensures p in s'.popped || HasPopper(s', p)
    {
      assert ThreadOk(s.q, s.threads[i]);
      ClaimsStay(s, i, a, p);
      if p == s.q.head {
        assert s'.threads[i].PopPos() == p;
      }
    }
  }

  lemma {:induction false} RunKeepsAttended<T(!new)>(run: seq<State<T>>, n: nat)
    requires IsRun(run) && n < |run|
    ensures Inv(run[n]) && Attended(run[n])
  {
    if n == 0 {
      StartInv(run[0]);
      forall p | 0 <= p < 64
        ensures PopAttended(run[0], p)
      {
        assert run[0].q.At(p) == run[0].q.nodes[p];
      }
    } else {
      RunKeepsAttended(run, n - 1);
      assert IsStep(run[n - 1], run[n - 1 + 1]);
      var i, a :| i in run[n - 1].threads && run[n] == Step(run[n - 1], i, a);
      StepKeepsAttended(run[n - 1], i, a);
    }
  }

  lemma LaggingTail<T>(q: Queue<T>, l: nat)
    requires QueueOk(q) && l <= q.tail && q.At(l).seqNo < l
    ensures l == q.tail && l >= 64 && q.head <= l <= q.head + 64
  {
    assert NodeOk(q, AtSlot(q.head, l % 64));
    if q.head <= l < q.head + 64 {
      SlotInjective(l, AtSlot(q.head, l % 64));
    }
  }

  /**
   A push that is about to find the queue full is right: the item 64 places before the tail has not
   left its node.
   */
  lemma FullIsTrue<T(!new)>(run: seq<State<T>>, n: nat, i: nat)
    requires IsRun(run) && n < |run| && |run[n].q.nodes| == 64
    requires i in run[n].threads && run[n].threads[i].PushAt?
    requires run[n].q.At(run[n].threads[i].tail).seqNo < run[n].threads[i].tail
    ensures var q := run[n].q;
            q.tail >= 64 && (q.head == q.tail - 64 || HasPopper(run[n], q.tail - 64))
  {
    RunKeepsAttended(run, n);
    var s := run[n];
    assert ThreadOk(s.q, s.threads[i]);
    LaggingTail(s.q, s.threads[i].tail);
    if s.q.tail < s.q.head + 64 {
      assert PopAttended(s, s.q.tail);
    }
  }

  lemma LaggingHead<T>(q: Queue<T>, l: nat)
    requires QueueOk(q) && l <= q.head && q.At(l).seqNo <= l
    ensures l == q.head && (q.head == q.tail || q.At(q.head).seqNo == q.head)
  {
    assert NodeOk(q, AtSlot(q.head, l % 64));
    if q.head <= l {
      SlotInjective(l, AtSlot(q.head, l % 64));
    }
  }

  /** A pop that is about to find the queue empty is right, unless the front item is still being written. */
  lemma EmptyIsTrue<T(!new)>(run: seq<State<T>>, n: nat, i: nat)
    requires IsRun(run) && n < |run| && |run[n].q.nodes| == 64
    requires i in run[n].threads && run[n].threads[i].PopAt?
    requires run[n].q.At(run[n].threads[i].head).seqNo < run[n].threads[i].head + 1
    ensures var q := run[n].q;
            q.Shape() && (q.Content() == [] || HasPusher(run[n], q.head))
  {
    RunKeepsAttended(run, n);
    var s := run[n];
    assert ThreadOk(s.q, s.threads[i]);
    LaggingHead(s.q, s.threads[i].head);
    if s.q.head < s.q.tail {
      assert PushAttended(s, s.q.head);
    }
  }

  /** With every thread idle, what was pushed is exactly what was popped, in order, and what is left. */
  lemma NothingLost<T(!new)>(run: seq<State<T>>, n: nat)
    requires IsRun(run) && n < |run|
    requires forall i :: i in run[n].threads ==> run[n].threads[i] == Idle
    ensures var s := run[n];
            && s.q.Shape()
            && (forall p :: p in s.popped <==> 0 <= p < s.q.head)
            && (forall p :: 0 <= p < s.q.head ==> s.popped[p] == s.q.pushed[p])
            && s.q.pushed == s.q.pushed[..s.q.head] + s.q.Content()
  {
    RunKeepsAttended(run, n);
    var s := run[n];
    forall p | 0 <= p < s.q.head
      ensures p in s.popped
    {
      assert p in s.popped || HasPopper(s, p);
    }
  }
}
