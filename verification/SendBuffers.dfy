/**
 Who owns a send buffer. A reliable send puts the buffer in a pending slot and gives it to the kernel;
 the acknowledgement clears RELIABLE, the completion clears SENDING, and whichever comes last returns
 the buffer to `PacketManager`. Sessions act one at a time, sending, resending and acknowledging under
 their own send lock; a reset takes no send lock, but excludes the others through the session lock of the
 server. Completions and unreliable sends run on any thread without a lock. Each load, store, `fetch_and`
 and kernel call is a step of its own.
 */
module SendBuffers {

  /** The bits of `type_` that matter here. */
  datatype Bits = Bits(sending: bool, reliable: bool)

  /** What a session is doing under its send lock. */
  datatype Op =
    | NoOp
    | SendPopped(b: nat)                    // SendPacket took a buffer
    | SendPending(b: nat)                   // AddPendingPacket accepted it
    | SendTyped(b: nat)                     // SendToReliable set the type
    | AckCleared(b: nat)                    // AckProcess or ReturnBuffers emptied the slot
    | AckMasked(b: nat, wasSending: bool)   // ... and cleared RELIABLE
    | RepeatChecked(b: nat)                 // RepeatMessage saw SENDING clear
    | RepeatLoaded(b: nat, bits: Bits)      // SendToRepeat read the type
    | RepeatStored(b: nat)                  // ... and stored it with SENDING set

  /** What a thread without a lock is doing. */
  datatype Work =
    | NoWork
    | PlainPopped(b: nat)                   // about to SendTo
    | PlainTyped(b: nat)
    | Completing(b: nat)                    // SendToComplete was called
    | Masked(b: nat, wasReliable: bool)     // ... and cleared SENDING

  /** Where the send operation of a buffer is. */
  datatype Kern = Out | Kernel | Worker(w: nat)

  /** The life of a buffer; history only, no step reads it. */
  datatype Stage =
    | Free
    | Prepared(k: nat)
    | Typed(k: nat)
    | Live(k: nat, kern: Kern)
    | Clearing(k: nat, kern: Kern)
    | Draining(kern: Kern)
    | ReturnedBySession(k: nat)
    | ReturnedByWorker(w: nat)
    | Plain(w: nat)

  datatype State = State(
    pool: multiset<nat>, bits: map<nat, Bits>, slots: map<nat, nat>, kernel: set<nat>,
    ops: map<nat, Op>, work: map<nat, Work>, stage: map<nat, Stage>)

  datatype Event =
    | SessionStep(k: nat)                   // go on with what the session is doing
    | StartSend(k: nat, b: nat)
    | RefuseSend(k: nat)
    | StartAck(k: nat, b: nat)
    | StartRepeat(k: nat, b: nat)
    | WorkerStep(w: nat)
    | StartPlain(w: nat, b: nat)
    | Complete(w: nat, b: nat)

  predicate Known(s: State) {
    s.bits.Keys == s.stage.Keys
  }

  /** `b` is a buffer of this system. */
  predicate Exists(s: State, b: nat) {
    b in s.bits && b in s.stage
  }

  predicate Enabled(s: State, e: Event) {
    match e
    case SessionStep(k) => k in s.ops && s.ops[k] != NoOp && Exists(s, s.ops[k].b)
    case StartSend(k, b) => k in s.ops && s.ops[k] == NoOp && b in s.pool && Exists(s, b)
    case RefuseSend(k) => k in s.ops && s.ops[k].SendPopped? && Exists(s, s.ops[k].b)
    case StartAck(k, b) => k in s.ops && s.ops[k] == NoOp && b in s.slots && s.slots[b] == k && Exists(s, b)
    case StartRepeat(k, b) =>
      k in s.ops && s.ops[k] == NoOp && b in s.slots && s.slots[b] == k && Exists(s, b) && !s.bits[b].sending
    case WorkerStep(w) => w in s.work && s.work[w] != NoWork && Exists(s, s.work[w].b)
    case StartPlain(w, b) => w in s.work && s.work[w] == NoWork && b in s.pool && Exists(s, b)
    case Complete(w, b) => w in s.work && s.work[w] == NoWork && b in s.kernel && Exists(s, b)
  }

  /** The next step of what session `k` is doing. */
  function SessionNext(s: State, k: nat, op: Op): State
    requires op != NoOp ==> Exists(s, op.b)
  {
    match op
    case NoOp => s
    case SendPopped(b) => s.(slots := s.slots[b := k], ops := s.ops[k := SendPending(b)])
    case SendPending(b) => s.(bits := s.bits[b := Bits(true, true)], ops := s.ops[k := SendTyped(b)],
                              stage := s.stage[b := Typed(k)])
    case SendTyped(b) => s.(kernel := s.kernel + {b}, ops := s.ops[k := NoOp], stage := s.stage[b := Live(k, Kernel)])
    case AckCleared(b) =>
      var prev := s.bits[b];
      s.(bits := s.bits[b := prev.(reliable := false)], ops := s.ops[k := AckMasked(b, prev.sending)],
         stage := s.stage[b := if prev.sending && s.stage[b].Clearing?
                               then Draining(s.stage[b].kern) else ReturnedBySession(k)])
    case AckMasked(b, wasSending) =>
      if wasSending then s.(ops := s.ops[k := NoOp])
      else s.(pool := s.pool + multiset{b}, ops := s.ops[k := NoOp], stage := s.stage[b := Free])
    case RepeatChecked(b) => s.(ops := s.ops[k := RepeatLoaded(b, s.bits[b])])
    case RepeatLoaded(b, bits) => s.(bits := s.bits[b := bits.(sending := true)], ops := s.ops[k := RepeatStored(b)])
    case RepeatStored(b) => s.(kernel := s.kernel + {b}, ops := s.ops[k := NoOp], stage := s.stage[b := Live(k, Kernel)])
  }

  /** The stage of a buffer whose completion has just cleared SENDING. */
  function AfterCompletion(stage: Stage, w: nat): Stage {
    match stage
    case Live(k, _) => Live(k, Out)
    case Clearing(k, _) => Clearing(k, Out)
    case _ => ReturnedByWorker(w)
  }

  function WithKern(stage: Stage, kern: Kern): Stage {
    match stage
    case Live(k, _) => Live(k, kern)
    case Clearing(k, _) => Clearing(k, kern)
    case Draining(_) => Draining(kern)
    case _ => stage
  }

  /** The next step of what thread `w` is doing. */
  function WorkerNext(s: State, w: nat, work: Work): State
    requires work != NoWork ==> Exists(s, work.b)
  {
    match work
    case NoWork => s
    case PlainPopped(b) => s.(bits := s.bits[b := Bits(false, false)], work := s.work[w := PlainTyped(b)])
    case PlainTyped(b) => s.(kernel := s.kernel + {b}, work := s.work[w := NoWork], stage := s.stage[b := Draining(Kernel)])
    case Completing(b) =>
      var prev := s.bits[b];
      s.(bits := s.bits[b := prev.(sending := false)], work := s.work[w := Masked(b, prev.reliable)],
         stage := s.stage[b := AfterCompletion(s.stage[b], w)])
    case Masked(b, wasReliable) =>
      if wasReliable then s.(work := s.work[w := NoWork])
      else s.(pool := s.pool + multiset{b}, work := s.work[w := NoWork], stage := s.stage[b := Free])
  }

  function KernOf(stage: Stage): Kern {
    match stage
    case Live(_, kern) => kern
    case Clearing(_, kern) => kern
    case Draining(kern) => kern
    case _ => Out
  }

  function Next(s: State, e: Event): State
    requires Enabled(s, e)
  {
    match e
    case SessionStep(k) => SessionNext(s, k, s.ops[k])
    case StartSend(k, b) =>
      s.(pool := s.pool - multiset{b}, ops := s.ops[k := SendPopped(b)], stage := s.stage[b := Prepared(k)])
    case RefuseSend(k) =>
      s.(pool := s.pool + multiset{s.ops[k].b}, ops := s.ops[k := NoOp], stage := s.stage[s.ops[k].b := Free])
    case StartAck(k, b) =>
      s.(slots := s.slots - {b}, ops := s.ops[k := AckCleared(b)],
         stage := s.stage[b := Clearing(k, KernOf(s.stage[b]))])
    case StartRepeat(k, b) => s.(ops := s.ops[k := RepeatChecked(b)])
    case WorkerStep(w) => WorkerNext(s, w, s.work[w])
    case StartPlain(w, b) =>
      s.(pool := s.pool - multiset{b}, work := s.work[w := PlainPopped(b)], stage := s.stage[b := Plain(w)])
    case Complete(w, b) =>
      s.(kernel := s.kernel - {b}, work := s.work[w := Completing(b)], stage := s.stage[b := WithKern(s.stage[b], Worker(w))])
  }

  // ---------------------------------------------------------------------------------------------
  // Invariant
  // ---------------------------------------------------------------------------------------------

  /** The operation of `b` is with the kernel, with one completing thread, or nowhere. */
  ghost predicate KernOk(s: State, b: nat, kern: Kern) {
    && (b in s.kernel <==> kern == Kernel)
    && (kern.Worker? ==> kern.w in s.work && s.work[kern.w] == Completing(b))
  }

  ghost predicate Doing(s: State, k: nat, op: Op) {
    k in s.ops && s.ops[k] == op
  }

  ghost predicate Working(s: State, w: nat, work: Work) {
    w in s.work && s.work[w] == work
  }

  ghost predicate BufferOk(s: State, b: nat)
    requires b in s.stage && b in s.bits
  {
    var stage, bits := s.stage[b], s.bits[b];
    && s.pool[b] == (if stage.Free? then 1 else 0)
    && KernOk(s, b, KernOf(stage))
    && match stage
       case Free => b !in s.slots
       case Prepared(k) =>
         || (Doing(s, k, SendPopped(b)) && b !in s.slots)
         || (Doing(s, k, SendPending(b)) && b in s.slots && s.slots[b] == k)
       case Typed(k) => Doing(s, k, SendTyped(b)) && b in s.slots && s.slots[b] == k && bits == Bits(true, true)
       case Live(k, kern) =>
         && b in s.slots && s.slots[b] == k && bits.reliable
         && bits.sending == (kern != Out || Doing(s, k, RepeatStored(b)))
         && (Doing(s, k, RepeatStored(b)) ==> kern == Out)
       case Clearing(k, kern) => b !in s.slots && Doing(s, k, AckCleared(b)) && bits == Bits(kern != Out, true)
       case Draining(kern) => b !in s.slots && !bits.reliable && kern != Out
       case ReturnedBySession(k) => b !in s.slots && Doing(s, k, AckMasked(b, false))
       case ReturnedByWorker(w) => b !in s.slots && Working(s, w, Masked(b, false))
       case Plain(w) =>
         b !in s.slots && (Working(s, w, PlainPopped(b)) || (Working(s, w, PlainTyped(b)) && bits == Bits(false, false)))
  }

  ghost predicate OpOk(s: State, k: nat)
    requires k in s.ops
  {
    match s.ops[k]
    case NoOp => true
    case SendPopped(b) => b in s.stage && s.stage[b] == Prepared(k)
    case SendPending(b) => b in s.stage && s.stage[b] == Prepared(k)
    case SendTyped(b) => b in s.stage && s.stage[b] == Typed(k)
    case AckCleared(b) => b in s.stage && s.stage[b].Clearing? && s.stage[b].k == k
    case AckMasked(b, wasSending) => b in s.stage && (!wasSending ==> s.stage[b] == ReturnedBySession(k))
    case RepeatChecked(b) => b in s.stage && s.stage[b] == Live(k, Out)
    case RepeatLoaded(b, bits) => b in s.stage && s.stage[b] == Live(k, Out) && b in s.bits && s.bits[b] == bits
    case RepeatStored(b) => b in s.stage && s.stage[b] == Live(k, Out)
  }

  ghost predicate WorkOk(s: State, w: nat)
    requires w in s.work
  {
    match s.work[w]
    case NoWork => true
    case PlainPopped(b) => b in s.stage && s.stage[b] == Plain(w)
    case PlainTyped(b) => b in s.stage && s.stage[b] == Plain(w)
    case Completing(b) => b in s.stage && KernOf(s.stage[b]) == Worker(w)
    case Masked(b, wasReliable) => b in s.stage && (!wasReliable ==> s.stage[b] == ReturnedByWorker(w))
  }

  ghost predicate Inv(s: State) {
    && Known(s)
    && (forall b :: b in s.pool || b in s.slots || b in s.kernel ==> b in s.stage)
    && (forall b :: b in s.stage ==> BufferOk(s, b))
    && (forall k :: k in s.ops ==> OpOk(s, k))
    && (forall w :: w in s.work ==> WorkOk(s, w))
  }

  /** A step that concerns buffer `b` only. */
  ghost predicate Frame(s: State, s': State, b: nat) {
    && Known(s) && Known(s') && s'.stage.Keys == s.stage.Keys && b in s.stage
    && s'.pool[b := 0] == s.pool[b := 0] && s'.kernel - {b} == s.kernel - {b} && s'.slots - {b} == s.slots - {b}
    && (forall c :: c in s.stage && c != b ==> s'.bits[c] == s.bits[c] && s'.stage[c] == s.stage[c])
  }

  ghost predicate SessionFrame(s: State, s': State, k: nat, b: nat) {
    && Frame(s, s', b)
    && s'.work == s.work && s'.ops.Keys == s.ops.Keys && k in s.ops
    && (s.ops[k] == NoOp || s.ops[k].b == b) && (s'.ops[k] == NoOp || s'.ops[k].b == b)
    && forall j :: j in s.ops && j != k ==> s'.ops[j] == s.ops[j]
  }

  ghost predicate WorkerFrame(s: State, s': State, w: nat, b: nat) {
    && Frame(s, s', b)
    && s'.ops == s.ops && s'.work.Keys == s.work.Keys && w in s.work
    && (s.work[w] == NoWork || s.work[w].b == b) && (s'.work[w] == NoWork || s'.work[w].b == b)
    && forall j :: j in s.work && j != w ==> s'.work[j] == s.work[j]
  }

  lemma FrameFacts(s: State, s': State, b: nat, c: nat)
    requires Frame(s, s', b) && c != b
    ensures s'.pool[c] == s.pool[c]
    ensures (c in s'.kernel <==> c in s.kernel) && (c in s'.slots <==> c in s.slots)
    ensures c in s.slots ==> s'.slots[c] == s.slots[c]
  {
    assert s'.pool[b := 0][c] == s.pool[b := 0][c];
    assert c in s'.kernel - {b} <==> c in s.kernel - {b};
    assert c in s'.slots - {b} <==> c in s.slots - {b};
    if c in s.slots {
      assert (s'.slots - {b})[c] == (s.slots - {b})[c];
    }
  }

  lemma OtherBuffer(s: State, s': State, k: nat, b: nat, c: nat)
    requires SessionFrame(s, s', k, b) || WorkerFrame(s, s', k, b)
    requires c in s.stage && c != b && BufferOk(s, c)
    ensures BufferOk(s', c)
  {
    FrameFacts(s, s', b, c);
  }

  lemma OtherBuffers(s: State, s': State, k: nat, b: nat)
    requires Known(s) && (forall c :: c in s.stage ==> BufferOk(s, c))
    requires SessionFrame(s, s', k, b) || WorkerFrame(s, s', k, b)
    ensures forall c :: c in s'.stage && c != b ==> BufferOk(s', c)
  {
    forall c | c in s'.stage && c != b
      ensures BufferOk(s', c)
    {
      assert BufferOk(s, c);
      OtherBuffer(s, s', k, b, c);
    }
  }

  /** The stages in which a buffer is in the hands of session `k`, or of nobody. */
  predicate SessionHas(stage: Stage, k: nat) {
    match stage
    case Free => true
    case Prepared(j) => j == k
    case Typed(j) => j == k
    case Live(j, _) => j == k
    case Clearing(j, _) => j == k
    case ReturnedBySession(j) => j == k
    case _ => false
  }

  predicate WorkerHas(stage: Stage, w: nat) {
    match stage
    case Free => true
    case ReturnedByWorker(j) => j == w
    case Plain(j) => j == w
    case _ => false
  }

  lemma Members(s: State, s': State, b: nat)
    requires Frame(s, s', b) && forall c :: c in s.pool || c in s.slots || c in s.kernel ==> c in s.stage
    ensures forall c :: c in s'.pool || c in s'.slots || c in s'.kernel ==> c in s'.stage
  {
    forall c | c in s'.pool || c in s'.slots || c in s'.kernel
      ensures c in s'.stage
    {
      if c != b {
        FrameFacts(s, s', b, c);
      }
    }
  }

  /** A session's step keeps the invariant if it keeps it for its buffer and for itself. */
  lemma SessionKeeps(s: State, s': State, k: nat, b: nat)
    requires Inv(s) && SessionFrame(s, s', k, b) && SessionHas(s.stage[b], k)
    requires KernOf(s.stage[b]) == Out || KernOf(s'.stage[b]) == KernOf(s.stage[b])
    requires BufferOk(s', b) && OpOk(s', k)
    ensures Inv(s')
  {
    Members(s, s', b);
    OtherBuffers(s, s', k, b);
    forall j | j in s'.ops
      ensures OpOk(s', j)
    {
      assert OpOk(s, j);
    }
    forall w | w in s'.work
      ensures WorkOk(s', w)
    {
      assert WorkOk(s, w);
    }
  }

  /** Likewise for a thread without a lock; a completion may find the buffer in a session's hands. */
  lemma WorkerKeeps(s: State, s': State, w: nat, b: nat)
    requires Inv(s) && WorkerFrame(s, s', w, b)
    requires WorkerHas(s.stage[b], w) || KernOf(s.stage[b]) == Worker(w) || KernOf(s.stage[b]) == Kernel
    requires BufferOk(s', b) && WorkOk(s', w)
    requires forall k :: k in s.ops && OpOk(s, k) ==> OpOk(s', k)
    ensures Inv(s')
  {
    Members(s, s', b);
    OtherBuffers(s, s', w, b);
    forall j | j in s'.work
      ensures WorkOk(s', j)
    {
      assert WorkOk(s, j);
    }
  }

  /** What one step of a session does to its own buffer. */
  ghost predicate SessionLocal(s: State, s': State, k: nat, b: nat) {
    && SessionFrame(s, s', k, b) && SessionHas(s.stage[b], k)
    && (KernOf(s.stage[b]) == Out || KernOf(s'.stage[b]) == KernOf(s.stage[b]))
    && BufferOk(s', b) && OpOk(s', k)
  }

  lemma SendSteps(s: State, k: nat, b: nat)
    requires Known(s) && k in s.ops && OpOk(s, k) && b in s.stage && BufferOk(s, b)
    requires s.ops[k] != NoOp && s.ops[k].b == b
    requires s.ops[k].SendPopped? || s.ops[k].SendPending? || s.ops[k].SendTyped?
    ensures SessionLocal(s, SessionNext(s, k, s.ops[k]), k, b)
  {
  }

  lemma AckSteps(s: State, k: nat, b: nat)
    requires Known(s) && k in s.ops && OpOk(s, k) && b in s.stage && BufferOk(s, b)
    requires s.ops[k] == AckCleared(b) || s.ops[k] == AckMasked(b, false)
    ensures SessionLocal(s, SessionNext(s, k, s.ops[k]), k, b)
  {
  }

  lemma RepeatSteps(s: State, k: nat, b: nat)
    requires Known(s) && k in s.ops && OpOk(s, k) && b in s.stage && BufferOk(s, b)
    requires s.ops[k] != NoOp && s.ops[k].b == b
    requires s.ops[k].RepeatChecked? || s.ops[k].RepeatLoaded? || s.ops[k].RepeatStored?
    ensures SessionLocal(s, SessionNext(s, k, s.ops[k]), k, b)
  {
  }

  lemma SessionStepKeepsInv(s: State, k: nat)
    requires Inv(s) && Enabled(s, SessionStep(k))
    ensures Inv(Next(s, SessionStep(k)))
  {
    assert OpOk(s, k);
    var b := s.ops[k].b;
    assert BufferOk(s, b);
    match s.ops[k] {
      case SendPopped(_) => SendSteps(s, k, b);
      case SendPending(_) => SendSteps(s, k, b);
      case SendTyped(_) => SendSteps(s, k, b);
      case AckCleared(_) => AckSteps(s, k, b);
      case AckMasked(_, wasSending) =>
        if wasSending {
          ForgetsOp(s, k);
          return;
        }
        AckSteps(s, k, b);
      case _ => RepeatSteps(s, k, b);
    }
    SessionKeeps(s, Next(s, SessionStep(k)), k, b);
  }

  /** The acknowledgement leaves the buffer to the completion. */
  lemma ForgetsOp(s: State, k: nat)
    requires Inv(s) && k in s.ops && s.ops[k].AckMasked? && s.ops[k].wasSending
    ensures Inv(s.(ops := s.ops[k := NoOp]))
  {
    var s' := s.(ops := s.ops[k := NoOp]);
    forall c | c in s'.stage
      ensures BufferOk(s', c)
    {
      assert BufferOk(s, c);
    }
    forall j | j in s'.ops
      ensures OpOk(s', j)
    {
      assert OpOk(s, j);
    }
    forall w | w in s'.work
      ensures WorkOk(s', w)
    {
      assert WorkOk(s, w);
    }
  }

  lemma SendStarts(s: State, s': State, k: nat, b: nat)
    requires Known(s) && k in s.ops && b in s.stage && BufferOk(s, b) && OpOk(s, k)
    requires || (s.ops[k] == NoOp && b in s.pool &&
                 s' == s.(pool := s.pool - multiset{b}, ops := s.ops[k := SendPopped(b)], stage := s.stage[b := Prepared(k)]))
             || (s.ops[k] == SendPopped(b) &&
                 s' == s.(pool := s.pool + multiset{b}, ops := s.ops[k := NoOp], stage := s.stage[b := Free]))
    ensures SessionLocal(s, s', k, b)
  {
  }

  lemma SlotStarts(s: State, s': State, k: nat, b: nat)
    requires Known(s) && k in s.ops && s.ops[k] == NoOp && b in s.stage && BufferOk(s, b)
    requires b in s.slots && s.slots[b] == k
    requires || s' == s.(slots := s.slots - {b}, ops := s.ops[k := AckCleared(b)],
                         stage := s.stage[b := Clearing(k, KernOf(s.stage[b]))])
             || (!s.bits[b].sending && s' == s.(ops := s.ops[k := RepeatChecked(b)]))
    ensures SessionLocal(s, s', k, b)
  {
  }

  lemma StartsKeepInv(s: State, e: Event)
    requires Inv(s) && Enabled(s, e) && (e.StartSend? || e.RefuseSend? || e.StartAck? || e.StartRepeat?)
    ensures Inv(Next(s, e))
  {
    assert OpOk(s, e.k);
    var b := if e.RefuseSend? then s.ops[e.k].b else e.b;
    assert BufferOk(s, b);
    if e.StartSend? || e.RefuseSend? {
      SendStarts(s, Next(s, e), e.k, b);
    } else {
      SlotStarts(s, Next(s, e), e.k, b);
    }
    SessionKeeps(s, Next(s, e), e.k, b);
  }

  /** What one step of a thread without a lock does to its own buffer. */
  ghost predicate WorkerLocal(s: State, s': State, w: nat, b: nat) {
    && WorkerFrame(s, s', w, b)
    && (WorkerHas(s.stage[b], w) || KernOf(s.stage[b]) == Worker(w) || KernOf(s.stage[b]) == Kernel)
    && BufferOk(s', b) && WorkOk(s', w)
    && (s'.stage[b] == s.stage[b] || WorkerHas(s.stage[b], w) || s'.stage[b] == WithKern(s.stage[b], KernOf(s'.stage[b]))
        || s.stage[b].Draining?)
  }

  lemma PlainSteps(s: State, w: nat, b: nat)
    requires Known(s) && w in s.work && WorkOk(s, w) && b in s.stage && BufferOk(s, b)
    requires s.work[w] == PlainPopped(b) || s.work[w] == PlainTyped(b) || s.work[w] == Masked(b, false)
    ensures WorkerLocal(s, WorkerNext(s, w, s.work[w]), w, b)
  {
  }

  lemma CompletionSteps(s: State, w: nat, b: nat)
    requires Known(s) && w in s.work && WorkOk(s, w) && b in s.stage && BufferOk(s, b)
    requires s.work[w] == Completing(b)
    ensures WorkerLocal(s, WorkerNext(s, w, s.work[w]), w, b)
  {
  }

  /** A thread without a lock never pulls a buffer from under a session that is at work on it. */
  lemma SessionsUndisturbed(s: State, s': State, w: nat, b: nat, k: nat)
    requires WorkerLocal(s, s', w, b) && k in s.ops && OpOk(s, k) && BufferOk(s, b)
    ensures OpOk(s', k)
  {
  }

  lemma WorkerStepKeepsInv(s: State, w: nat)
    requires Inv(s) && Enabled(s, WorkerStep(w))
    ensures Inv(Next(s, WorkerStep(w)))
  {
    assert WorkOk(s, w);
    var b := s.work[w].b;
    assert BufferOk(s, b);
    var s' := Next(s, WorkerStep(w));
    if s.work[w].Masked? && s.work[w].wasReliable {
      ForgetsWork(s, w);
    } else {
      if s.work[w].Completing? {
        CompletionSteps(s, w, b);
      } else {
        PlainSteps(s, w, b);
      }
      forall k | k in s.ops && OpOk(s, k)
        ensures OpOk(s', k)
      {
        SessionsUndisturbed(s, s', w, b, k);
      }
      WorkerKeeps(s, s', w, b);
    }
  }

  lemma ForgetsWork(s: State, w: nat)
    requires Inv(s) && w in s.work && s.work[w].Masked? && s.work[w].wasReliable
    ensures Inv(s.(work := s.work[w := NoWork]))
  {
    var s' := s.(work := s.work[w := NoWork]);
    forall c | c in s'.stage
      ensures BufferOk(s', c)
    {
      assert BufferOk(s, c);
    }
    forall j | j in s'.ops
      ensures OpOk(s', j)
    {
      assert OpOk(s, j);
    }
    forall j | j in s'.work
      ensures WorkOk(s', j)
    {
      assert WorkOk(s, j);
    }
  }

  lemma WorkStarts(s: State, s': State, w: nat, b: nat)
    requires Known(s) && w in s.work && s.work[w] == NoWork && b in s.stage && BufferOk(s, b)
    requires || (b in s.pool &&
                 s' == s.(pool := s.pool - multiset{b}, work := s.work[w := PlainPopped(b)], stage := s.stage[b := Plain(w)]))
             || (b in s.kernel &&
                 s' == s.(kernel := s.kernel - {b}, work := s.work[w := Completing(b)],
                          stage := s.stage[b := WithKern(s.stage[b], Worker(w))]))
    ensures WorkerLocal(s, s', w, b)
  {
  }

  lemma WorkStartsKeepInv(s: State, e: Event)
    requires Inv(s) && Enabled(s, e) && (e.StartPlain? || e.Complete?)
    ensures Inv(Next(s, e))
  {
    assert BufferOk(s, e.b);
    var s' := Next(s, e);
    WorkStarts(s, s', e.w, e.b);
    forall k | k in s.ops && OpOk(s, k)
      ensures OpOk(s', k)
    {
      SessionsUndisturbed(s, s', e.w, e.b, k);
    }
    WorkerKeeps(s, s', e.w, e.b);
  }

  lemma StepKeepsInv(s: State, e: Event)
    requires Inv(s) && Enabled(s, e)
    ensures Inv(Next(s, e))
  {
    match e {
      case SessionStep(k) => SessionStepKeepsInv(s, k);
      case WorkerStep(w) => WorkerStepKeepsInv(s, w);
      case StartPlain(_, _) => WorkStartsKeepInv(s, e);
      case Complete(_, _) => WorkStartsKeepInv(s, e);
      case _ => StartsKeepInv(s, e);
    }
  }

  // ---------------------------------------------------------------------------------------------
  // Runs
  // ---------------------------------------------------------------------------------------------

  /** Every buffer in the pool, once, and nothing going on. */
  ghost predicate IsStart(s: State) {
    && Known(s)
    && (forall b :: b in s.stage ==> s.stage[b] == Free && s.pool[b] == 1)
    && (forall b :: b in s.pool ==> b in s.stage)
    && s.slots == map[] && s.kernel == {}
    && (forall k :: k in s.ops ==> s.ops[k] == NoOp)
    && (forall w :: w in s.work ==> s.work[w] == NoWork)
  }

  ghost predicate IsStep(s: State, s': State) {
    exists e :: Enabled(s, e) && s' == Next(s, e)
  }

  ghost predicate IsRun(run: seq<State>) {
    |run| > 0 && IsStart(run[0]) && forall i :: 0 <= i < |run| - 1 ==> IsStep(run[i], run[i + 1])
  }

  lemma StartInv(s: State)
    requires IsStart(s)
    ensures Inv(s)
  {
  }

  lemma {:induction false} RunKeepsInv(run: seq<State>, n: nat)
    requires IsRun(run) && n < |run|
    ensures Inv(run[n]) && run[n].stage.Keys == run[0].stage.Keys
  {
    if n == 0 {
      StartInv(run[0]);
    } else {
      RunKeepsInv(run, n - 1);
      assert IsStep(run[n - 1], run[n - 1 + 1]);
      var e :| Enabled(run[n - 1], e) && run[n] == Next(run[n - 1], e);
      StepKeepsInv(run[n - 1], e);
      NextKeepsBuffers(run[n - 1], e);
    }
  }

  lemma NextKeepsBuffers(s: State, e: Event)
    requires Enabled(s, e)
    ensures Next(s, e).stage.Keys == s.stage.Keys
  {
    if e.SessionStep? {
      SessionKeepsBuffers(s, e.k, s.ops[e.k]);
    } else if e.WorkerStep? {
      WorkerKeepsBuffers(s, e.w, s.work[e.w]);
    }
  }

  lemma SessionKeepsBuffers(s: State, k: nat, op: Op)
    requires op != NoOp ==> Exists(s, op.b)
    ensures SessionNext(s, k, op).stage.Keys == s.stage.Keys
  {
  }

  lemma WorkerKeepsBuffers(s: State, w: nat, work: Work)
    requires work != NoWork ==> Exists(s, work.b)
    ensures WorkerNext(s, w, work).stage.Keys == s.stage.Keys
  {
  }

  /** Some thread is about to clear SENDING on `b`, the kernel having finished with it. */
  ghost predicate IsCompleting(s: State, b: nat) {
    exists w :: w in s.work && s.work[w] == Completing(b)
  }

  /**
   In every run: a buffer is in the pool at most once, and a pooled buffer is neither with the
   kernel, nor being completed, nor in a pending slot.
   */
  lemma PooledIsFree(run: seq<State>, n: nat, b: nat)
    requires IsRun(run) && n < |run| && b in run[n].pool
    ensures run[n].pool[b] == 1
    ensures b !in run[n].kernel && !IsCompleting(run[n], b) && b !in run[n].slots
  {
    RunKeepsInv(run, n);
    assert BufferOk(run[n], b);
    NotCompleting(run[n], b);
  }

  /**
   A step that returns a buffer returns one that was out of the pool, that the kernel has released
   and whose completion, if any, has been dealt with: exactly one return per allocation.
   */
  lemma ReturnsOnce(run: seq<State>, n: nat, e: Event, b: nat)
    requires IsRun(run) && n < |run| && Enabled(run[n], e)
    requires Next(run[n], e).pool[b] > run[n].pool[b]
    ensures run[n].pool[b] == 0 && Next(run[n], e).pool[b] == 1
    ensures b !in run[n].kernel && !IsCompleting(run[n], b) && b !in run[n].slots
  {
    RunKeepsInv(run, n);
    ReturnsHeld(run[n], e, b);
    NotCompleting(run[n], b);
  }

  /** The stages from which a buffer is returned. */
  predicate IsReturning(stage: Stage) {
    stage.Prepared? || stage.ReturnedBySession? || stage.ReturnedByWorker?
  }

  /** The three steps that return a buffer. */
  lemma WhoReturns(s: State, e: Event, b: nat)
    requires Enabled(s, e) && Next(s, e).pool[b] > s.pool[b]
    ensures Next(s, e).pool[b] == s.pool[b] + 1
    ensures || (e.SessionStep? && s.ops[e.k] == AckMasked(b, false))
            || (e.RefuseSend? && s.ops[e.k] == SendPopped(b))
            || (e.WorkerStep? && s.work[e.w] == Masked(b, false))
  {
  }

  lemma ReturnsHeld(s: State, e: Event, b: nat)
    requires Inv(s) && Enabled(s, e) && Next(s, e).pool[b] > s.pool[b]
    ensures b in s.stage && IsReturning(s.stage[b])
    ensures s.pool[b] == 0 && Next(s, e).pool[b] == 1 && b !in s.kernel && b !in s.slots
  {
    WhoReturns(s, e, b);
    if e.WorkerStep? {
      assert WorkOk(s, e.w);
    } else {
      assert OpOk(s, e.k);
    }
    assert BufferOk(s, b);
  }

  lemma NotCompleting(s: State, b: nat)
    requires Inv(s) && b in s.stage && !KernOf(s.stage[b]).Worker?
    ensures !IsCompleting(s, b)
  {
  }

  /** A buffer given to the kernel is not with the kernel already, nor awaiting its completion. */
  lemma NeverGivenTwice(run: seq<State>, n: nat, e: Event, b: nat)
    requires IsRun(run) && n < |run| && Enabled(run[n], e)
    requires Gives(run[n], e, b)
    ensures b !in run[n].kernel && !IsCompleting(run[n], b) && b in Next(run[n], e).kernel
  {
    RunKeepsInv(run, n);
    var s := run[n];
    match e {
      case SessionStep(k) => assert OpOk(s, k);
      case WorkerStep(w) => assert WorkOk(s, w);
    }
    assert BufferOk(s, b);
    NotCompleting(s, b);
  }

  /** The steps that call WSASendTo on `b`. */
  ghost predicate Gives(s: State, e: Event, b: nat) {
    || (e.SessionStep? && e.k in s.ops && (s.ops[e.k] == SendTyped(b) || s.ops[e.k] == RepeatStored(b)))
    || (e.WorkerStep? && e.w in s.work && s.work[e.w] == PlainTyped(b))
  }

  /** `SendToRepeat` reads and writes the type in two steps, and yet loses no update in between. */
  lemma RepeatLosesNoUpdate(run: seq<State>, n: nat, k: nat, b: nat, bits: Bits)
    requires IsRun(run) && n < |run| && k in run[n].ops && run[n].ops[k] == RepeatLoaded(b, bits)
    ensures b in run[n].bits && run[n].bits[b] == bits && bits == Bits(false, true)
  {
    RunKeepsInv(run, n);
    assert OpOk(run[n], k);
    assert BufferOk(run[n], b);
  }

  /** No leak: once nothing is pending, under way or with the kernel, every buffer is back. */
  lemma NothingLeaks(run: seq<State>, n: nat)
    requires IsRun(run) && n < |run|
    requires run[n].slots == map[] && run[n].kernel == {}
    requires forall k :: k in run[n].ops ==> run[n].ops[k] == NoOp
    requires forall w :: w in run[n].work ==> run[n].work[w] == NoWork
    ensures run[n].pool == run[0].pool
  {
    RunKeepsInv(run, n);
    forall b
      ensures run[n].pool[b] == run[0].pool[b]
    {
      if b in run[n].stage {
        assert BufferOk(run[n], b);
      } else {
        assert b !in run[n].pool && b !in run[0].pool;
      }
    }
  }
}
