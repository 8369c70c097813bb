/**
 What the allocator keeps over every series of `Pop` and `Push`. `live` remembers, for every chunk
 handed out and not yet taken back, the size class it was taken from.
 */
module PoolRuns {

  import opened Words
  import opened Pool

  ghost predicate Apart(a: Block, b: Block) {
    a.base + BLOCK <= b.base || b.base + BLOCK <= a.base
  }

  ghost predicate IsChunk(blocks: seq<Block>, k: nat, a: nat)
    requires k < CLASSES
  {
    exists b :: 0 <= b < |blocks| && a in Chunks(blocks[b].base, k)
  }

  ghost predicate Distinct(l: seq<nat>) {
    forall i, j :: 0 <= i < j < |l| ==> l[i] != l[j]
  }

  /** The free list of a class holds, once each, the chunks of that class that are not live. */
  ghost predicate ListAgrees(p: State, live: map<nat, nat>, k: nat)
    requires k < CLASSES
  {
    && Distinct(List(p.free, Len(k)))
    && forall a: nat :: a in List(p.free, Len(k)) <==> IsChunk(p.blocks, k, a) && a !in live
  }

  ghost predicate IsLive(blocks: seq<Block>, live: map<nat, nat>, a: nat)
    requires a in live
  {
    live[a] < CLASSES && IsChunk(blocks, live[a], a)
  }

  /** The live chunks in the block at `base`. */
  ghost function LiveIn(base: nat, live: map<nat, nat>): set<nat> {
    set a | a in live && base <= a < base + BLOCK
  }

  ghost predicate BlocksApart(blocks: seq<Block>) {
    forall i, j :: 0 <= i < j < |blocks| ==> Apart(blocks[i], blocks[j])
  }

  /** There are lists for the classes only. */
  ghost predicate NoOtherLists(free: map<nat, seq<nat>>) {
    forall len :: len in free && free[len] != [] ==> exists k :: 0 <= k < CLASSES && len == Len(k)
  }

  ghost predicate Uses(blocks: seq<Block>, live: map<nat, nat>) {
    forall b :: 0 <= b < |blocks| ==> blocks[b].use == |LiveIn(blocks[b].base, live)|
  }

  ghost predicate Inv(p: State, live: map<nat, nat>) {
    && BlocksApart(p.blocks)
    && (forall k :: 0 <= k < CLASSES ==> ListAgrees(p, live, k))
    && (forall a :: a in live ==> IsLive(p.blocks, live, a))
    && NoOtherLists(p.free)
    && Uses(p.blocks, live)
  }

  // ---------------------------------------------------------------------------------------------
  // Chunks and blocks
  // ---------------------------------------------------------------------------------------------

  /** Two chunks anywhere in the pool are the same one, or do not overlap. */
  lemma NoOverlap(blocks: seq<Block>, k: nat, l: nat, a: nat, b: nat)
    requires BlocksApart(blocks) && k < CLASSES && l < CLASSES && IsChunk(blocks, k, a) && IsChunk(blocks, l, b)
    ensures (a == b && k == l) || a + Len(k) <= b || b + Len(l) <= a
  {
    var i :| 0 <= i < |blocks| && a in Chunks(blocks[i].base, k);
    var j :| 0 <= j < |blocks| && b in Chunks(blocks[j].base, l);
    ChunksDisjoint(blocks[i].base, k, k, a, a);
    ChunksDisjoint(blocks[j].base, l, l, b, b);
    if i == j {
      ChunksDisjoint(blocks[i].base, k, l, a, b);
    } else {
      ApartBothWays(blocks, i, j);
    }
  }

  lemma ApartBothWays(blocks: seq<Block>, i: nat, j: nat)
    requires BlocksApart(blocks) && i < |blocks| && j < |blocks| && i != j
    ensures Apart(blocks[i], blocks[j])
  {
  }

  /** `FindBlock` finds the one block that owns a chunk, and the chunk lies inside it. */
  lemma FindsOwner(blocks: seq<Block>, k: nat, a: nat)
    requires BlocksApart(blocks) && k < CLASSES && IsChunk(blocks, k, a)
    ensures var r := FindFrom(blocks, a, 0);
            && r.Some? && r.value < |blocks|
            && a in Chunks(blocks[r.value].base, k) && a + Len(k) <= blocks[r.value].base + BLOCK
            && forall j :: 0 <= j < |blocks| ==> (Contains(blocks[j], a) <==> j == r.value)
  {
  }

  /** Only bases matter to chunks. */
  lemma SameBases(blocks: seq<Block>, blocks': seq<Block>, k: nat, a: nat)
    requires k < CLASSES && |blocks'| == |blocks| && forall i :: 0 <= i < |blocks| ==> blocks'[i].base == blocks[i].base
    ensures IsChunk(blocks', k, a) <==> IsChunk(blocks, k, a)
  {
  }

  // ---------------------------------------------------------------------------------------------
  // A new block
  // ---------------------------------------------------------------------------------------------

  /** Carving appends to each class its chunks. */
  lemma {:induction false} CarveLists(free: map<nat, seq<nat>>, base: nat, k: nat, l: nat)
    requires k <= CLASSES && l < CLASSES
    ensures List(CarveFrom(free, base, k), Len(l)) == List(free, Len(l)) + if l < k then [] else Chunks(base, l)
    decreases CLASSES - k
  {
    if k < CLASSES {
      CarveLists(free[Len(k) := List(free, Len(k)) + Chunks(base, k)], base, k + 1, l);
      if l < k {
        ClassesApart(l, k);
      } else if k < l {
        ClassesApart(k, l);
      }
    }
  }

  lemma {:induction false} CarveNoOther(free: map<nat, seq<nat>>, base: nat, k: nat)
    requires k <= CLASSES && NoOtherLists(free)
    ensures NoOtherLists(CarveFrom(free, base, k))
    decreases CLASSES - k
  {
  }

  /** What `malloc` returns overlaps no block. */
  ghost predicate FreshBase(blocks: seq<Block>, base: nat) {
    forall i :: 0 <= i < |blocks| ==> Apart(blocks[i], Block(base, 0))
  }

  lemma GrownChunks(blocks: seq<Block>, base: nat, k: nat, a: nat)
    requires k < CLASSES
    ensures IsChunk(blocks + [Block(base, 0)], k, a) <==> IsChunk(blocks, k, a) || a in Chunks(base, k)
  {
    var more := blocks + [Block(base, 0)];
    if IsChunk(blocks, k, a) {
      var i :| 0 <= i < |blocks| && a in Chunks(blocks[i].base, k);
      assert more[i] == blocks[i];
    }
    if a in Chunks(base, k) {
      assert more[|blocks|].base == base;
    }
    if IsChunk(more, k, a) {
      var i :| 0 <= i < |more| && a in Chunks(more[i].base, k);
      assert i < |blocks| ==> blocks[i] == more[i];
    }
  }

  /** No chunk of the blocks there are lies in the new block. */
  lemma OldIsElsewhere(blocks: seq<Block>, base: nat, k: nat, l: nat, a: nat)
    requires FreshBase(blocks, base) && k < CLASSES && IsChunk(blocks, k, a)
    ensures !Contains(Block(base, 0), a)
    ensures l < CLASSES ==> a !in Chunks(base, l)
  {
  }

  lemma ChunksDistinct(base: nat, k: nat)
    requires k < CLASSES
    ensures Distinct(Chunks(base, k))
  {
  }

  lemma GrowList(p: State, live: map<nat, nat>, base: nat, k: nat)
    requires FreshBase(p.blocks, base) && k < CLASSES && ListAgrees(p, live, k)
    requires forall a :: a in live ==> IsLive(p.blocks, live, a)
    ensures ListAgrees(Grow(p, base), live, k)
  {
    var q := Grow(p, base);
    var l := List(p.free, Len(k));
    CarveLists(p.free, base, 0, k);
    ChunksDistinct(base, k);
    forall a: nat
      ensures a in List(q.free, Len(k)) <==> IsChunk(q.blocks, k, a) && a !in live
      ensures a in l ==> a !in Chunks(base, k)
    {
      GrownChunks(p.blocks, base, k, a);
      if a in live {
        assert IsLive(p.blocks, live, a);
        OldIsElsewhere(p.blocks, base, live[a], k, a);
      } else if IsChunk(p.blocks, k, a) {
        OldIsElsewhere(p.blocks, base, k, k, a);
      }
    }
    forall i, j | 0 <= i < |l| && 0 <= j < Count(k)
      ensures l[i] != Chunks(base, k)[j]
    {
      assert l[i] in l && Chunks(base, k)[j] in Chunks(base, k);
    }
  }

  lemma GrowKeeps(p: State, live: map<nat, nat>, base: nat)
    requires Inv(p, live) && FreshBase(p.blocks, base)
    ensures Inv(Grow(p, base), live)
  {
    var q := Grow(p, base);
    forall k | 0 <= k < CLASSES
      ensures ListAgrees(q, live, k)
    {
      GrowList(p, live, base, k);
    }
    forall a | a in live
      ensures IsLive(q.blocks, live, a) && !Contains(Block(base, 0), a)
    {
      assert IsLive(p.blocks, live, a);
      GrownChunks(p.blocks, base, live[a], a);
      OldIsElsewhere(p.blocks, base, live[a], 0, a);
    }
    assert LiveIn(base, live) == {};
    CarveNoOther(p.free, base, 0);
  }

  // ---------------------------------------------------------------------------------------------
  // Taking and giving back
  // ---------------------------------------------------------------------------------------------

  /** `live'` is `live` with one chunk more, or one less. */
  ghost predicate Differs(live: map<nat, nat>, live': map<nat, nat>, k: nat, a: nat, d: int) {
    || (d == 1 && a !in live && live' == live[a := k])
    || (d == -1 && a in live && live' == live - {a})
  }

  lemma LiveInChange(base: nat, live: map<nat, nat>, k: nat, a: nat)
    requires base <= a < base + BLOCK
    ensures LiveIn(base, live[a := k]) == LiveIn(base, live) + {a}
    ensures LiveIn(base, live - {a}) == LiveIn(base, live) - {a}
  {
  }

  lemma LiveInSame(base: nat, live: map<nat, nat>, k: nat, a: nat)
    requires !(base <= a < base + BLOCK)
    ensures LiveIn(base, live[a := k]) == LiveIn(base, live)
    ensures LiveIn(base, live - {a}) == LiveIn(base, live)
  {
  }

  lemma OneUse(b: Block, b': Block, live: map<nat, nat>, live': map<nat, nat>, k: nat, a: nat, d: int)
    requires b'.base == b.base && Differs(live, live', k, a, d) && b.use == |LiveIn(b.base, live)|
    requires b'.use == b.use + if Contains(b, a) then d else 0
    ensures b'.use == |LiveIn(b'.base, live')|
  {
    if Contains(b, a) {
      LiveInChange(b.base, live, k, a);
    } else {
      LiveInSame(b.base, live, k, a);
    }
  }

  /** Counting a chunk in or out changes no base, and the one use count that it should. */
  lemma CountKeeps(blocks: seq<Block>, live: map<nat, nat>, live': map<nat, nat>, k: nat, a: nat, d: int)
    requires BlocksApart(blocks) && Uses(blocks, live) && k < CLASSES && IsChunk(blocks, k, a) && Differs(live, live', k, a, d)
    ensures var r := Counted(blocks, a, d);
            && r.Some? && |r.value| == |blocks| && Uses(r.value, live') && BlocksApart(r.value)
            && forall i :: 0 <= i < |blocks| ==> r.value[i].base == blocks[i].base
  {
    FindsOwner(blocks, k, a);
    var r := Counted(blocks, a, d).value;
    forall i | 0 <= i < |blocks|
      ensures r[i].use == |LiveIn(r[i].base, live')|
    {
      OneUse(blocks[i], r[i], live, live', k, a, d);
    }
    forall i, j | 0 <= i < j < |r|
      ensures Apart(r[i], r[j])
    {
      assert Apart(blocks[i], blocks[j]);
    }
  }

  /** One list loses or gains the chunk that becomes live or stops being it. */
  lemma ListsKeep(p: State, q: State, live: map<nat, nat>, live': map<nat, nat>, k: nat, a: nat, d: int, l: nat)
    requires BlocksApart(p.blocks) && k < CLASSES && l < CLASSES && IsChunk(p.blocks, k, a) && Differs(live, live', k, a, d)
    requires ListAgrees(p, live, l)
    requires |q.blocks| == |p.blocks| && forall i :: 0 <= i < |p.blocks| ==> q.blocks[i].base == p.blocks[i].base
    requires l != k ==> List(q.free, Len(l)) == List(p.free, Len(l))
    requires l == k && d == 1 ==> List(p.free, Len(k)) == List(q.free, Len(k)) + [a]
    requires l == k && d == -1 ==> List(q.free, Len(k)) == List(p.free, Len(k)) + [a]
    ensures ListAgrees(q, live', l)
  {
    var was, now := List(p.free, Len(l)), List(q.free, Len(l));
    if l == k && d == 1 {
      Shorter(was, now, a);
    } else if l == k {
      assert a !in was;
      Longer(was, now, a);
    }
    forall x: nat
      ensures x in now <==> IsChunk(q.blocks, l, x) && x !in live'
    {
      SameBases(p.blocks, q.blocks, l, x);
      if x == a && l != k && IsChunk(p.blocks, l, x) {
        NoOverlap(p.blocks, k, l, a, x);
      }
      assert x in was <==> IsChunk(p.blocks, l, x) && x !in live;
    }
  }

  lemma Shorter(was: seq<nat>, now: seq<nat>, a: nat)
    requires Distinct(was) && was == now + [a]
    ensures Distinct(now) && forall x :: x in now <==> x in was && x != a
  {
    assert was[|now|] == a;
    assert forall i :: 0 <= i < |now| ==> was[i] == now[i];
  }

  lemma Longer(was: seq<nat>, now: seq<nat>, a: nat)
    requires Distinct(was) && now == was + [a] && a !in was
    ensures Distinct(now) && forall x :: x in now <==> x in was || x == a
  {
  }

  lemma MoveKeeps(p: State, q: State, live: map<nat, nat>, live': map<nat, nat>, k: nat, a: nat, d: int)
    requires Inv(p, live) && k < CLASSES && IsChunk(p.blocks, k, a) && Differs(live, live', k, a, d)
    requires Counted(p.blocks, a, d) == Some(q.blocks)
    requires forall l :: 0 <= l < CLASSES && l != k ==> List(q.free, Len(l)) == List(p.free, Len(l))
    requires d == 1 ==> List(p.free, Len(k)) == List(q.free, Len(k)) + [a]
    requires d == -1 ==> List(q.free, Len(k)) == List(p.free, Len(k)) + [a]
    requires NoOtherLists(q.free)
    ensures Inv(q, live')
  {
    CountKeeps(p.blocks, live, live', k, a, d);
    forall l | 0 <= l < CLASSES
      ensures ListAgrees(q, live', l)
    {
      assert ListAgrees(p, live, l);
      ListsKeep(p, q, live, live', k, a, d, l);
    }
    forall x | x in live'
      ensures IsLive(q.blocks, live', x)
    {
      if x in live {
        assert IsLive(p.blocks, live, x);
      }
      SameBases(p.blocks, q.blocks, live'[x], x);
    }
  }

  lemma ListChange(free: map<nat, seq<nat>>, k: nat, list: seq<nat>)
    requires k < CLASSES && NoOtherLists(free)
    ensures var free' := free[Len(k) := list];
            NoOtherLists(free') && forall l :: 0 <= l < CLASSES && l != k ==> List(free', Len(l)) == List(free, Len(l))
  {
  }

  /** The pool that `Pop` takes from: itself, or grown by a block if its list is empty. */
  ghost function Stocked(p: State, len: nat, base: nat): State {
    if List(p.free, len) == [] then Grow(p, base) else p
  }

  /** `Pop` of any size from 3 on yields a chunk of its class that was not live, and it is now. */
  lemma PopKeeps(p: State, live: map<nat, nat>, size: nat, base: nat)
    requires Inv(p, live) && FreshBase(p.blocks, base) && 3 <= size <= MAX_CHUNK
    ensures var r := Pop(p, size, base);
            && r.Some? && r.value.1 !in live
            && Inv(r.value.0, live[r.value.1 := ClassOf(size)])
  {
    CeilIsClass(size);
    StockedKeeps(p, live, ClassOf(size), base);
    TakeKeeps(Stocked(p, BitCeil(size), base), live, ClassOf(size));
  }

  lemma StockedKeeps(p: State, live: map<nat, nat>, k: nat, base: nat)
    requires Inv(p, live) && FreshBase(p.blocks, base) && k < CLASSES
    ensures var q := Stocked(p, Len(k), base); Inv(q, live) && List(q.free, Len(k)) != []
  {
    if List(p.free, Len(k)) == [] {
      GrowKeeps(p, live, base);
      CarveLists(p.free, base, 0, k);
    }
  }

  /** Every chunk of class `k` is live. */
  ghost predicate AllLive(p: State, live: map<nat, nat>, k: nat)
    requires k < CLASSES
  {
    forall a: nat :: IsChunk(p.blocks, k, a) ==> a in live
  }

  /** `Pop` asks for a block more exactly if every chunk of the class is live; else it hands out one there is. */
  lemma PopGrowsIff(p: State, live: map<nat, nat>, size: nat, base: nat)
    requires Inv(p, live) && FreshBase(p.blocks, base) && 3 <= size <= MAX_CHUNK
    ensures Pop(p, size, base).Some?
    ensures var (q, a) := Pop(p, size, base).value;
            if AllLive(p, live, ClassOf(size)) then
              |q.blocks| == |p.blocks| + 1 && q.blocks[|p.blocks|].base == base
            else
              |q.blocks| == |p.blocks| && IsChunk(p.blocks, ClassOf(size), a)
  {
    PopKeeps(p, live, size, base);
    CeilIsClass(size);
    var l := List(p.free, Len(ClassOf(size)));
    assert ListAgrees(p, live, ClassOf(size));
    if l != [] {
      assert l[|l| - 1] in l;
    }
  }

  lemma TakeKeeps(q: State, live: map<nat, nat>, k: nat)
    requires Inv(q, live) && k < CLASSES && List(q.free, Len(k)) != []
    ensures var l := List(q.free, Len(k));
            var a := l[|l| - 1];
            var blocks := Counted(q.blocks, a, 1);
            && a !in live && blocks.Some?
            && Inv(State(blocks.value, q.free[Len(k) := l[..|l| - 1]]), live[a := k])
  {
    var l := List(q.free, Len(k));
    var a, rest := l[|l| - 1], l[..|l| - 1];
    assert ListAgrees(q, live, k) && a in l && l == rest + [a];
    CountKeeps(q.blocks, live, live[a := k], k, a, 1);
    ListChange(q.free, k, rest);
    var blocks := Counted(q.blocks, a, 1).value;
    MoveKeeps(q, State(blocks, q.free[Len(k) := rest]), live, live[a := k], k, a, 1);
  }

  /** `Push` of a live chunk, as the type it was popped as, makes it free again. */
  lemma PushKeeps(p: State, live: map<nat, nat>, a: nat, size: nat)
    requires Inv(p, live) && 3 <= size <= MAX_CHUNK && a in live && live[a] == ClassOf(size)
    ensures Push(p, a, size).Some? && Inv(Push(p, a, size).value, live - {a})
  {
    CeilIsClass(size);
    var k := ClassOf(size);
    assert IsLive(p.blocks, live, a);
    CountKeeps(p.blocks, live, live - {a}, k, a, -1);
    ListChange(p.free, k, List(p.free, Len(k)) + [a]);
    MoveKeeps(p, Push(p, a, size).value, live, live - {a}, k, a, -1);
  }

  /** `Pop` of a type of one or two bytes always fails: there is no list for it, however many blocks. */
  lemma PopFailsIff(p: State, live: map<nat, nat>, size: nat, base: nat)
    requires Inv(p, live) && FreshBase(p.blocks, base) && 1 <= size <= MAX_CHUNK
    ensures Pop(p, size, base).None? <==> size < 3
  {
    CeilIsClass(size);
    if size < 3 {
      GrowKeeps(p, live, base);
      assert List(p.free, BitCeil(size)) == [] && List(Grow(p, base).free, BitCeil(size)) == [];
    } else {
      PopKeeps(p, live, size, base);
    }
  }

  // ---------------------------------------------------------------------------------------------
  // Runs
  // ---------------------------------------------------------------------------------------------

  datatype World = World(p: State, live: map<nat, nat>)

  ghost predicate Step(w: World, w': World) {
    || (exists size: nat, base: nat :: PopStep(w, w', size, base))
    || (exists size: nat, a: nat :: PushStep(w, w', size, a))
  }

  ghost predicate PopStep(w: World, w': World, size: nat, base: nat) {
    && 3 <= size <= MAX_CHUNK && FreshBase(w.p.blocks, base)
    && Pop(w.p, size, base).Some?
    && var r := Pop(w.p, size, base).value; w' == World(r.0, w.live[r.1 := ClassOf(size)])
  }

  ghost predicate PushStep(w: World, w': World, size: nat, a: nat) {
    && 3 <= size <= MAX_CHUNK && a in w.live && w.live[a] == ClassOf(size)
    && Push(w.p, a, size).Some?
    && w' == World(Push(w.p, a, size).value, w.live - {a})
  }

  ghost predicate IsRun(run: seq<World>) {
    && |run| > 0
    && (exists base: nat :: run[0] == World(Grow(State([], map[]), base), map[]))
    && (forall i :: 0 <= i < |run| - 1 ==> Step(run[i], run[i + 1]))
  }

  lemma EmptyInv()
    ensures Inv(State([], map[]), map[])
  {
  }

  lemma {:induction false} RunKeepsInv(run: seq<World>, i: nat)
    requires IsRun(run) && i < |run|
    ensures Inv(run[i].p, run[i].live)
  {
    if i == 0 {
      var base: nat :| run[0] == World(Grow(State([], map[]), base), map[]);
      EmptyInv();
      GrowKeeps(State([], map[]), map[], base);
    } else {
      RunKeepsInv(run, i - 1);
      var w, w' := run[i - 1], run[i];
      assert Step(run[i - 1], run[i - 1 + 1]);
      if size: nat, base: nat :| PopStep(w, w', size, base) {
        PopKeeps(w.p, w.live, size, base);
      } else {
        var size: nat, a: nat :| PushStep(w, w', size, a);
        PushKeeps(w.p, w.live, a, size);
      }
    }
  }

  lemma Append(run: seq<World>, w': World)
    requires IsRun(run) && Step(run[|run| - 1], w')
    ensures IsRun(run + [w'])
  {
  }

  lemma PopSteps(w: World, size: nat, base: nat) returns (w': World, a: nat)
    requires Inv(w.p, w.live) && 3 <= size <= MAX_CHUNK && FreshBase(w.p.blocks, base)
    ensures Step(w, w') && a !in w.live && w'.live == w.live[a := ClassOf(size)]
  {
    PopKeeps(w.p, w.live, size, base);
    var r := Pop(w.p, size, base).value;
    w', a := World(r.0, w.live[r.1 := ClassOf(size)]), r.1;
    assert PopStep(w, w', size, base);
  }

  lemma PushSteps(w: World, size: nat, a: nat) returns (w': World)
    requires Inv(w.p, w.live) && 3 <= size <= MAX_CHUNK && a in w.live && w.live[a] == ClassOf(size)
    ensures Step(w, w') && w'.live == w.live - {a} && a in List(w'.p.free, Len(ClassOf(size)))
  {
    PushKeeps(w.p, w.live, a, size);
    w' := World(Push(w.p, a, size).value, w.live - {a});
    assert PushStep(w, w', size, a);
    CeilIsClass(size);
  }

  /** Every run can go on with a pop of any size from 3 to 1024, which makes a chunk live that was not. */
  lemma CanPop(run: seq<World>, size: nat, base: nat) returns (w': World, a: nat)
    requires IsRun(run) && 3 <= size <= MAX_CHUNK && FreshBase(run[|run| - 1].p.blocks, base)
    ensures IsRun(run + [w']) && a !in run[|run| - 1].live && w'.live == run[|run| - 1].live[a := ClassOf(size)]
  {
    RunKeepsInv(run, |run| - 1);
    w', a := PopSteps(run[|run| - 1], size, base);
    Append(run, w');
  }

  /** Every run can go on with a push of any live chunk, which is then in the free list of its class. */
  lemma CanPush(run: seq<World>, size: nat, a: nat) returns (w': World)
    requires IsRun(run) && 3 <= size <= MAX_CHUNK && a in run[|run| - 1].live && run[|run| - 1].live[a] == ClassOf(size)
    ensures IsRun(run + [w']) && w'.live == run[|run| - 1].live - {a} && a in List(w'.p.free, Len(ClassOf(size)))
  {
    RunKeepsInv(run, |run| - 1);
    w' := PushSteps(run[|run| - 1], size, a);
    Append(run, w');
  }

  /**
   In every state of every run: live chunks do not overlap one another, each lies in the one block
   that `FindBlock` finds for it, and a chunk that was carved is live or in its free list, not both.
   */
  lemma ChunksAreSafe(run: seq<World>, i: nat, a: nat, b: nat)
    requires IsRun(run) && i < |run| && a in run[i].live && b in run[i].live && a != b
    ensures var w := run[i];
            var r := FindFrom(w.p.blocks, a, 0);
            && (a + Len(w.live[a]) <= b || b + Len(w.live[b]) <= a)
            && r.Some? && w.p.blocks[r.value].base <= a && a + Len(w.live[a]) <= w.p.blocks[r.value].base + BLOCK
            && (forall j :: 0 <= j < |w.p.blocks| ==> (Contains(w.p.blocks[j], a) <==> j == r.value))
  {
    RunKeepsInv(run, i);
    var w := run[i];
    assert IsLive(w.p.blocks, w.live, a) && IsLive(w.p.blocks, w.live, b);
    NoOverlap(w.p.blocks, w.live[a], w.live[b], a, b);
    FindsOwner(w.p.blocks, w.live[a], a);
  }

  lemma FreePlusLiveIsCarved(run: seq<World>, i: nat, k: nat, a: nat)
    requires IsRun(run) && i < |run| && k < CLASSES
    ensures var w := run[i];
            && Distinct(List(w.p.free, Len(k)))
            && (a in List(w.p.free, Len(k)) ==> a !in w.live)
            && (IsChunk(w.p.blocks, k, a) <==> a in List(w.p.free, Len(k)) || (a in w.live && w.live[a] == k))
            && (forall b :: 0 <= b < |w.p.blocks| ==> w.p.blocks[b].use == |LiveIn(w.p.blocks[b].base, w.live)|)
  {
    RunKeepsInv(run, i);
    var w := run[i];
    assert ListAgrees(w.p, w.live, k);
    if a in w.live {
      assert IsLive(w.p.blocks, w.live, a);
      if IsChunk(w.p.blocks, k, a) {
        NoOverlap(w.p.blocks, k, w.live[a], a, a);
      }
    }
  }
}
