/**
 The reader-writer spin lock of `RWLock.cpp`: any number of threads, each atomic access to `count_`
 a step of its own. A compare-and-exchange may also fail for no reason, as the weak form may.
 */
module RWLock {

  import opened Words

  const WRITE: u32 := 0x0FFF_0000
  const MOST: nat := 0x1_0000

  /** `ReadCas` has loaded `expected` and found no writer in it. */
  datatype Pc = Idle | ReadTry | ReadCas(expected: u32) | ReadIn | WriteTry | WriteIn

  datatype State = State(count: u32, pc: map<nat, Pc>)

  /** `x & WRITE` is not zero. */
  predicate HasWrite(x: u32) {
    x / 0x1_0000 % 0x1000 != 0
  }

  /** `x & READ` is greater than zero: what `ReadUnLock` asserts of the count it takes one from. */
  predicate HasRead(x: u32) {
    x % 0x1_0000 > 0
  }

  /** What thread `t` may do next. Only a thread inside leaves: the guards are the lock's only users. */
  ghost predicate ThreadStep(s: State, s': State, t: nat)
    requires t in s.pc
  {
    match s.pc[t]
    case Idle =>
      s' == s.(pc := s.pc[t := ReadTry]) || s' == s.(pc := s.pc[t := WriteTry])
    case ReadTry =>
      s' == if HasWrite(s.count) then s else s.(pc := s.pc[t := ReadCas(s.count)])
    case ReadCas(expected) =>
      || s' == s.(pc := s.pc[t := ReadTry])
      || (s.count == expected && s' == State(W(expected + 1), s.pc[t := ReadIn]))
    case ReadIn =>
      s' == State(W(s.count - 1), s.pc[t := Idle])
    case WriteTry =>
      || s' == s
      || (s.count == 0 && s' == State(WRITE, s.pc[t := WriteIn]))
    case WriteIn =>
      s' == State(0, s.pc[t := Idle])
  }

  ghost predicate Step(s: State, s': State) {
    exists t :: t in s.pc && ThreadStep(s, s', t)
  }

  ghost predicate IsRun(run: seq<State>) {
    && |run| > 0
    && run[0].count == 0 && (forall t :: t in run[0].pc ==> run[0].pc[t] == Idle)
    && (forall i :: 0 <= i < |run| - 1 ==> Step(run[i], run[i + 1]))
  }

  ghost function Readers(pc: map<nat, Pc>): set<nat> {
    set t | t in pc && pc[t] == ReadIn
  }

  ghost function Writers(pc: map<nat, Pc>): set<nat> {
    set t | t in pc && pc[t] == WriteIn
  }

  ghost predicate Inv(s: State) {
    Loaded(s.pc) && Counts(s.count, Readers(s.pc), Writers(s.pc))
  }

  /** How one thread's move changes who is inside. */
  lemma Moves(pc: map<nat, Pc>, t: nat, p: Pc)
    requires t in pc
    ensures Readers(pc[t := p]) == if p == ReadIn then Readers(pc) + {t} else Readers(pc) - {t}
    ensures Writers(pc[t := p]) == if p == WriteIn then Writers(pc) + {t} else Writers(pc) - {t}
  {
  }

  lemma Alone(pc: map<nat, Pc>, t: nat)
    requires t in Writers(pc) && |Writers(pc)| == 1
    ensures Writers(pc) - {t} == {}
  {
    assert |Writers(pc) - {t}| == 0;
  }

  /** Every loaded count was free of writers when it was loaded. */
  ghost predicate Loaded(pc: map<nat, Pc>) {
    forall t :: t in pc && pc[t].ReadCas? ==> !HasWrite(pc[t].expected)
  }

  /** The count tells who is inside. */
  ghost predicate Counts(count: u32, readers: set<nat>, writers: set<nat>) {
    && |readers| <= MOST
    && (if writers == {} then count == |readers| else count == WRITE && |writers| == 1 && readers == {})
  }

  lemma ReaderEnters(count: u32, readers: set<nat>, writers: set<nat>, t: nat)
    requires Counts(count, readers, writers) && !HasWrite(count) && t !in readers
    ensures Counts(W(count + 1), readers + {t}, writers)
  {
  }

  lemma ReaderLeaves(count: u32, readers: set<nat>, writers: set<nat>, t: nat)
    requires Counts(count, readers, writers) && t in readers
    ensures Counts(W(count - 1), readers - {t}, writers)
  {
  }

  lemma WriterEnters(readers: set<nat>, writers: set<nat>, t: nat)
    requires Counts(0, readers, writers)
    ensures Counts(WRITE, readers, writers + {t})
  {
  }

  lemma WriterLeaves(count: u32, readers: set<nat>, writers: set<nat>, t: nat)
    requires Counts(count, readers, writers) && t in writers
    ensures Counts(0, readers, writers - {t})
  {
    assert |writers - {t}| == 0;
  }

  /** A thread that is outside before and after changes nothing; its own load it has just made. */
  lemma StaysOutside(s: State, s': State, t: nat, p: Pc)
    requires Inv(s) && t in s.pc && s.pc[t] != ReadIn && s.pc[t] != WriteIn && p != ReadIn && p != WriteIn
    requires s' == s.(pc := s.pc[t := p]) && (p.ReadCas? ==> !HasWrite(p.expected))
    ensures Inv(s')
  {
    Moves(s.pc, t, p);
    Outside(s.pc, t);
  }

  lemma EntersKeepInv(s: State, s': State, t: nat)
    requires Inv(s) && t in s.pc
    requires || (s.pc[t] == ReadCas(s.count) && s' == State(W(s.count + 1), s.pc[t := ReadIn]))
             || (s.pc[t] == WriteTry && s.count == 0 && s' == State(WRITE, s.pc[t := WriteIn]))
    ensures Inv(s')
  {
    Moves(s.pc, t, s'.pc[t]);
    Outside(s.pc, t);
    if s'.pc[t] == ReadIn {
      ReaderEnters(s.count, Readers(s.pc), Writers(s.pc), t);
    } else {
      WriterEnters(Readers(s.pc), Writers(s.pc), t);
    }
  }

  lemma LeavesKeepInv(s: State, s': State, t: nat)
    requires Inv(s) && t in s.pc && s'.pc == s.pc[t := Idle]
    requires || (s.pc[t] == ReadIn && s'.count == W(s.count - 1))
             || (s.pc[t] == WriteIn && s'.count == 0)
    ensures Inv(s')
  {
    Moves(s.pc, t, Idle);
    if s.pc[t] == ReadIn {
      ReaderLeaves(s.count, Readers(s.pc), Writers(s.pc), t);
      assert Writers(s.pc) - {t} == Writers(s.pc);
    } else {
      WriterLeaves(s.count, Readers(s.pc), Writers(s.pc), t);
      assert Readers(s.pc) - {t} == Readers(s.pc);
    }
  }

  lemma StepKeepsInv(s: State, s': State, t: nat)
    requires Inv(s) && t in s.pc && ThreadStep(s, s', t)
    ensures Inv(s')
  {
    if s' != s {
      if s.pc[t] == ReadIn || s.pc[t] == WriteIn {
        LeavesKeepInv(s, s', t);
      } else if s'.pc[t] == ReadIn || s'.pc[t] == WriteIn {
        EntersKeepInv(s, s', t);
      } else {
        StaysOutside(s, s', t, s'.pc[t]);
      }
    }
  }

  lemma Outside(pc: map<nat, Pc>, t: nat)
    requires t in pc && pc[t] != ReadIn && pc[t] != WriteIn
    ensures t !in Readers(pc) && Readers(pc) - {t} == Readers(pc)
    ensures t !in Writers(pc) && Writers(pc) - {t} == Writers(pc)
  {
  }

  lemma {:induction false} RunKeepsInv(run: seq<State>, i: nat)
    requires IsRun(run) && i < |run|
    ensures Inv(run[i])
  {
    if i > 0 {
      RunKeepsInv(run, i - 1);
      assert Step(run[i - 1], run[i - 1 + 1]);
      var t :| t in run[i - 1].pc && ThreadStep(run[i - 1], run[i], t);
      StepKeepsInv(run[i - 1], run[i], t);
    }
  }

  /** In every state of every run a writer is alone, and the count tells who is inside. */
  lemma WriterExcludesEveryone(run: seq<State>, i: nat)
    requires IsRun(run) && i < |run|
    ensures var s := run[i];
            && (forall t, u :: t in s.pc && u in s.pc && s.pc[t] == WriteIn && u != t ==> s.pc[u] != WriteIn && s.pc[u] != ReadIn)
            && (s.count == WRITE <==> exists t :: t in s.pc && s.pc[t] == WriteIn)
            && (s.count != WRITE ==> s.count == |Readers(s.pc)|)
            && |Readers(s.pc)| <= MOST
  {
    RunKeepsInv(run, i);
    var s := run[i];
    forall t, u | t in s.pc && u in s.pc && s.pc[t] == WriteIn && u != t
      ensures s.pc[u] != WriteIn && s.pc[u] != ReadIn
    {
      assert t in Writers(s.pc);
      Alone(s.pc, t);
      assert u !in Readers(s.pc) && u !in Writers(s.pc) - {t};
    }
    if Writers(s.pc) != {} {
      var t :| t in Writers(s.pc);
    } else {
      forall t | t in s.pc
        ensures s.pc[t] != WriteIn
      {
        assert t !in Writers(s.pc);
      }
    }
  }

  /** The assertion in `ReadUnLock` holds for a leaving reader exactly if fewer than 65536 are inside. */
  lemma AssertionHoldsIff(run: seq<State>, i: nat, t: nat)
    requires IsRun(run) && i < |run| && t in run[i].pc && run[i].pc[t] == ReadIn
    ensures HasRead(run[i].count) <==> |Readers(run[i].pc)| < MOST
  {
    RunKeepsInv(run, i);
    assert t in Readers(run[i].pc);
    if Writers(run[i].pc) == {} {
      assert |Readers(run[i].pc)| > 0;
    }
  }

  // ---------------------------------------------------------------------------------------------
  // The limit is reached
  // ---------------------------------------------------------------------------------------------

  /** Some threads inside, reading; everyone else idle. */
  ghost function Crowd(threads: set<nat>, inside: set<nat>): map<nat, Pc> {
    map t | t in threads :: if t in inside then ReadIn else Idle
  }

  /**
   Any 65536 threads can be inside together, and then the first of them to leave fails the
   assertion. No larger number ever is, by `WriterExcludesEveryone`.
   */
  lemma {:induction false} CrowdGathers(threads: set<nat>, inside: set<nat>) returns (run: seq<State>)
    requires inside <= threads && |inside| <= MOST
    ensures IsRun(run) && run[|run| - 1] == State(|inside|, Crowd(threads, inside))
    ensures Readers(Crowd(threads, inside)) == inside
    ensures HasRead(|inside|) <==> 0 < |inside| < MOST
    decreases |inside|
  {
    if inside == {} {
      run := [State(0, Crowd(threads, {}))];
    } else {
      var t :| t in inside;
      var before := CrowdGathers(threads, inside - {t});
      run := EnterOne(before, t, threads, inside);
    }
  }

  lemma EnterOne(before: seq<State>, t: nat, threads: set<nat>, inside: set<nat>) returns (run: seq<State>)
    requires IsRun(before) && t in inside && inside <= threads && |inside| <= MOST
    requires before[|before| - 1] == State(|inside - {t}|, Crowd(threads, inside - {t}))
    ensures IsRun(run) && run[|run| - 1] == State(|inside|, Crowd(threads, inside))
  {
    var s := before[|before| - 1];
    var s1 := s.(pc := s.pc[t := ReadTry]);
    var s2 := s.(pc := s.pc[t := ReadCas(s.count)]);
    var s3 := State(|inside|, Crowd(threads, inside));
    assert ThreadStep(s, s1, t);
    assert s2.pc == s1.pc[t := ReadCas(s.count)];
    assert ThreadStep(s1, s2, t);
    assert s3.pc == s2.pc[t := ReadIn];
    assert ThreadStep(s2, s3, t);
    run := before + [s1, s2, s3];
    Extended(before, s1, s2, s3);
  }

  lemma Extended(run: seq<State>, s1: State, s2: State, s3: State)
    requires IsRun(run) && Step(run[|run| - 1], s1) && Step(s1, s2) && Step(s2, s3)
    ensures IsRun(run + [s1, s2, s3])
  {
  }

  // ---------------------------------------------------------------------------------------------
  // Everyone can get in, and out
  // ---------------------------------------------------------------------------------------------

  predicate IsInside(p: Pc) {
    p == ReadIn || p == WriteIn
  }

  /** A thread inside has exactly one step, which takes it out; the count is then that of the readers left. */
  lemma InsideLeaves(run: seq<State>, i: nat, t: nat) returns (s': State)
    requires IsRun(run) && i < |run| && t in run[i].pc && IsInside(run[i].pc[t])
    ensures ThreadStep(run[i], s', t) && s'.pc == run[i].pc[t := Idle] && s'.count == |Readers(s'.pc)| && Writers(s'.pc) == {}
    ensures forall s :: ThreadStep(run[i], s, t) ==> s == s'
  {
    RunKeepsInv(run, i);
    s' := Leave(run[i], t);
  }

  lemma Leave(s: State, t: nat) returns (s': State)
    requires Inv(s) && t in s.pc && IsInside(s.pc[t])
    ensures ThreadStep(s, s', t) && Inv(s') && s'.pc == s.pc[t := Idle]
    ensures s'.count == |Readers(s'.pc)| && Writers(s'.pc) == {}
    ensures forall x :: ThreadStep(s, x, t) ==> x == s'
  {
    s' := State(if s.pc[t] == ReadIn then W(s.count - 1) else 0, s.pc[t := Idle]);
    LeavesKeepInv(s, s', t);
    Moves(s.pc, t, Idle);
    if s.pc[t] == ReadIn {
      assert t in Readers(s.pc);
    } else {
      assert t in Writers(s.pc);
      Alone(s.pc, t);
    }
  }

  lemma Append(run: seq<State>, s: State)
    requires IsRun(run) && Step(run[|run| - 1], s)
    ensures IsRun(run + [s])
  {
  }

  ghost function Insiders(pc: map<nat, Pc>): set<nat> {
    set t | t in pc && IsInside(pc[t])
  }

  lemma OneLeaves(pc: map<nat, Pc>, t: nat)
    requires t in pc && IsInside(pc[t])
    ensures Insiders(pc[t := Idle]) == Insiders(pc) - {t} && t in Insiders(pc)
  {
  }

  /** Every run can go on until nobody is inside; nobody else has moved. */
  lemma {:induction false} AllLeave(run: seq<State>) returns (more: seq<State>)
    requires IsRun(run)
    ensures IsRun(more) && run <= more
    ensures var s, s' := run[|run| - 1], more[|more| - 1];
            && s'.count == 0 && s'.pc.Keys == s.pc.Keys
            && forall t :: t in s.pc ==> s'.pc[t] == if IsInside(s.pc[t]) then Idle else s.pc[t]
    decreases |Insiders(run[|run| - 1].pc)|
  {
    var s := run[|run| - 1];
    RunKeepsInv(run, |run| - 1);
    if t :| t in s.pc && IsInside(s.pc[t]) {
      var s' := Leave(s, t);
      OneLeaves(s.pc, t);
      Append(run, s');
      more := AllLeave(run + [s']);
    } else {
      NobodyInside(s);
      more := run;
    }
  }

  lemma NobodyInside(s: State)
    requires Inv(s) && forall t :: t in s.pc ==> !IsInside(s.pc[t])
    ensures s.count == 0
  {
    assert Readers(s.pc) == {} && Writers(s.pc) == {};
  }

  /** With the count at zero a waiting writer can enter at once. */
  lemma WriterCanEnter(s: State, t: nat)
    requires t in s.pc && s.pc[t] == WriteTry && s.count == 0
    ensures Step(s, State(WRITE, s.pc[t := WriteIn]))
  {
    assert ThreadStep(s, State(WRITE, s.pc[t := WriteIn]), t);
  }

  /** From any state of any run a thread that waits to write, or is about to ask, can still get in. */
  lemma WriterGetsIn(run: seq<State>, t: nat) returns (more: seq<State>)
    requires IsRun(run) && t in run[|run| - 1].pc && (run[|run| - 1].pc[t] == WriteTry || run[|run| - 1].pc[t] == Idle)
    ensures IsRun(more) && run <= more
    ensures var s := more[|more| - 1]; s.count == WRITE && t in s.pc && s.pc[t] == WriteIn
  {
    var empty := AllLeave(run);
    if empty[|empty| - 1].pc[t] == Idle {
      empty := Asks(empty, t, WriteTry);
    }
    var s := empty[|empty| - 1];
    WriterCanEnter(s, t);
    more := empty + [State(WRITE, s.pc[t := WriteIn])];
    Append(empty, State(WRITE, s.pc[t := WriteIn]));
  }

  lemma Asks(run: seq<State>, t: nat, p: Pc) returns (more: seq<State>)
    requires IsRun(run) && t in run[|run| - 1].pc
    requires (run[|run| - 1].pc[t] == Idle && (p == ReadTry || p == WriteTry)) || (run[|run| - 1].pc[t].ReadCas? && p == ReadTry)
    ensures IsRun(more) && run <= more && more[|more| - 1] == run[|run| - 1].(pc := run[|run| - 1].pc[t := p])
  {
    var s := run[|run| - 1];
    var s' := s.(pc := s.pc[t := p]);
    assert ThreadStep(s, s', t);
    Append(run, s');
    more := run + [s'];
  }

  /** Without a writer inside, a reader that waits gets in with two steps of its own. */
  lemma ReaderEntersFrom(run: seq<State>, t: nat) returns (more: seq<State>)
    requires IsRun(run) && t in run[|run| - 1].pc && run[|run| - 1].pc[t] == ReadTry && run[|run| - 1].count == 0
    ensures IsRun(more) && run <= more
    ensures var s := more[|more| - 1]; s.count == 1 && t in s.pc && s.pc[t] == ReadIn
  {
    var s := run[|run| - 1];
    var s1 := State(0, s.pc[t := ReadCas(0)]);
    var s2 := State(1, s1.pc[t := ReadIn]);
    assert ThreadStep(s, s1, t);
    Append(run, s1);
    assert ThreadStep(s1, s2, t);
    Append(run + [s1], s2);
    more := run + [s1] + [s2];
  }

  /** From any state of any run a thread that waits to read, or is about to ask, can still get in. */
  lemma ReaderGetsIn(run: seq<State>, t: nat) returns (more: seq<State>)
    requires IsRun(run) && t in run[|run| - 1].pc
    requires var p := run[|run| - 1].pc[t]; p == ReadTry || p.ReadCas? || p == Idle
    ensures IsRun(more) && run <= more
    ensures var s := more[|more| - 1]; s.count == 1 && t in s.pc && s.pc[t] == ReadIn
  {
    var empty := AllLeave(run);
    if empty[|empty| - 1].pc[t] != ReadTry {
      empty := Asks(empty, t, ReadTry);
    }
    more := ReaderEntersFrom(empty, t);
  }
}
