/**
 The size-class allocator of `Pool.h` and `Pool.cpp`: blocks of memory carved into chunks of 4 to
 1024 bytes, handed out and taken back through one free list per size. An address is a number.
 */
module Pool {

  import opened Words

  const BLOCK: nat := 3_582_410    // DubuByteData::size_
  const MAX_CHUNK: nat := 1024     // MaxChunkSize

  // ---------------------------------------------------------------------------------------------
  // Size classes
  // ---------------------------------------------------------------------------------------------

  const CLASSES: nat := 9

  function Len(k: nat): (r: nat)
    ensures r > 0
  {
    if k == 0 then 4 else if k == 1 then 8 else if k == 2 then 16 else if k == 3 then 32 else if k == 4 then 64
    else if k == 5 then 128 else if k == 6 then 256 else if k == 7 then 512 else 1024
  }

  function Count(k: nat): (r: nat)
    ensures r > 0
  {
    if k < 5 then 10000 else if k < 8 then 2500 else 100
  }

  /** Where in a block the chunks of class `k` begin. */
  function Start(k: nat): nat {
    if k == 0 then 0 else if k == 1 then 40_000 else if k == 2 then 120_000 else if k == 3 then 280_000
    else if k == 4 then 600_000 else if k == 5 then 1_240_000 else if k == 6 then 1_560_000
    else if k == 7 then 2_200_000 else if k == 8 then 3_480_000 else 3_582_400
  }

  /** The classes follow one another, and end ten bytes before the block does. */
  lemma StartStep(k: nat)
    requires k < CLASSES
    ensures Start(k + 1) == Start(k) + Count(k) * Len(k)
    ensures Start(k + 1) <= BLOCK
    ensures k + 1 < CLASSES ==> Len(k + 1) == 2 * Len(k)
  {
  }

  lemma ClassesApart(k: nat, l: nat)
    requires k < l < CLASSES
    ensures Start(k + 1) <= Start(l) && Len(k) != Len(l)
  {
  }

  /** `std::bit_ceil` from a power of two on. */
  function CeilFrom(size: nat, len: nat): (r: nat)
    requires len > 0
    ensures size <= r && len <= r
    decreases size - len
  {
    if size <= len then len else CeilFrom(size, 2 * len)
  }

  /** `std::bit_ceil`. */
  function BitCeil(size: nat): (r: nat)
    ensures size <= r
  {
    CeilFrom(size, 1)
  }

  function ClassOf(size: nat): (k: nat)
    ensures k < CLASSES
  {
    if size <= 4 then 0 else if size <= 8 then 1 else if size <= 16 then 2 else if size <= 32 then 3
    else if size <= 64 then 4 else if size <= 128 then 5 else if size <= 256 then 6 else if size <= 512 then 7 else 8
  }

  /** The sizes from 3 to 1024 are rounded up to a class, the tightest; 1 and 2 are not. */
  lemma CeilIsClass(size: nat)
    requires 1 <= size <= MAX_CHUNK
    ensures size >= 3 ==> BitCeil(size) == Len(ClassOf(size))
    ensures size < 3 ==> forall k :: 0 <= k < CLASSES ==> BitCeil(size) != Len(k)
  {
    assert CeilFrom(size, 1024) == 1024;
    assert CeilFrom(size, 256) == if size <= 256 then 256 else if size <= 512 then 512 else 1024;
    assert CeilFrom(size, 64) == if size <= 64 then 64 else if size <= 128 then 128 else CeilFrom(size, 256);
    assert CeilFrom(size, 16) == if size <= 16 then 16 else if size <= 32 then 32 else CeilFrom(size, 64);
    assert CeilFrom(size, 4) == if size <= 4 then 4 else if size <= 8 then 8 else CeilFrom(size, 16);
    assert CeilFrom(size, 1) == if size <= 1 then 1 else if size <= 2 then 2 else CeilFrom(size, 4);
  }

  function ChunkAt(base: nat, k: nat, j: nat): nat {
    base + Start(k) + j * Len(k)
  }

  /** The addresses of class `k` in the block at `base`. */
  function Chunks(base: nat, k: nat): (r: seq<nat>)
    requires k < CLASSES
    ensures |r| == Count(k)
  {
    seq(Count(k), j requires 0 <= j < Count(k) => ChunkAt(base, k, j))
  }

  /** Every chunk lies within its class, and chunks of one class do not overlap. */
  lemma ChunkBounds(base: nat, k: nat, i: nat)
    requires k < CLASSES && i < Count(k)
    ensures base + Start(k) <= Chunks(base, k)[i] && Chunks(base, k)[i] + Len(k) <= base + Start(k + 1)
    ensures forall j :: i < j < Count(k) ==> Chunks(base, k)[i] + Len(k) <= Chunks(base, k)[j]
  {
  }

  /** Two chunks of one block are the same chunk, or do not overlap. */
  lemma ChunksDisjoint(base: nat, k: nat, l: nat, a: nat, b: nat)
    requires k < CLASSES && l < CLASSES && a in Chunks(base, k) && b in Chunks(base, l)
    ensures (a == b && k == l) || a + Len(k) <= b || b + Len(l) <= a
    ensures base <= a && a + Len(k) <= base + BLOCK
  {
    var i :| 0 <= i < Count(k) && Chunks(base, k)[i] == a;
    var j :| 0 <= j < Count(l) && Chunks(base, l)[j] == b;
    ChunkBounds(base, k, i);
    ChunkBounds(base, l, j);
    StartStep(k);
    if k < l {
      ClassesApart(k, l);
    } else if l < k {
      ClassesApart(l, k);
    }
  }

  // ---------------------------------------------------------------------------------------------
  // The pool
  // ---------------------------------------------------------------------------------------------

  datatype Block = Block(base: nat, use: int)

  /** `PoolList` and `PoolChunkList`. */
  datatype State = State(blocks: seq<Block>, free: map<nat, seq<nat>>)

  /** A free list; the map makes an empty one when it is first asked. */
  function List(free: map<nat, seq<nat>>, len: nat): seq<nat> {
    if len in free then free[len] else []
  }

  /** Carving the classes from `k` on. */
  function CarveFrom(free: map<nat, seq<nat>>, base: nat, k: nat): map<nat, seq<nat>>
    requires k <= CLASSES
    decreases CLASSES - k
  {
    if k == CLASSES then free
    else CarveFrom(free[Len(k) := List(free, Len(k)) + Chunks(base, k)], base, k + 1)
  }

  /** A new block. */
  function Grow(p: State, base: nat): State {
    State(p.blocks + [Block(base, 0)], CarveFrom(p.free, base, 0))
  }

  predicate Contains(b: Block, a: nat) {
    b.base <= a < b.base + BLOCK
  }

  /** The first block from `i` on that contains an address. */
  function FindFrom(blocks: seq<Block>, a: nat, i: nat): (r: Option<nat>)
    requires i <= |blocks|
    ensures r.Some? ==> i <= r.value < |blocks| && Contains(blocks[r.value], a)
    ensures r.None? ==> forall j :: i <= j < |blocks| ==> !Contains(blocks[j], a)
    decreases |blocks| - i
  {
    if i == |blocks| then None else if Contains(blocks[i], a) then Some(i) else FindFrom(blocks, a, i + 1)
  }

  /** The block that owns an address gets `d` added to its use count; without one the program exits. */
  function Counted(blocks: seq<Block>, a: nat, d: int): Option<seq<Block>> {
    match FindFrom(blocks, a, 0)
    case None => None
    case Some(b) => Some(blocks[b := blocks[b].(use := blocks[b].use + d)])
  }

  /** `Pop`, where `base` is what `malloc` would return. `None` is the end of the program. */
  function Pop(p: State, size: nat, base: nat): Option<(State, nat)>
    requires size <= MAX_CHUNK
  {
    var len := BitCeil(size);
    var q := if List(p.free, len) == [] then Grow(p, base) else p;
    var l := List(q.free, len);
    if l == [] then None
    else
      var a := l[|l| - 1];
      match Counted(q.blocks, a, 1)
      case None => None
      case Some(blocks) => Some((State(blocks, q.free[len := l[..|l| - 1]]), a))
  }

  /** `Push`. */
  function Push(p: State, a: nat, size: nat): Option<State>
    requires size <= MAX_CHUNK
  {
    var len := BitCeil(size);
    match Counted(p.blocks, a, -1)
    case None => None
    case Some(blocks) => Some(State(blocks, p.free[len := List(p.free, len) + [a]]))
  }

  /** `cnt` addresses, `len` apart. */
  function RunOf(at: nat, len: nat, cnt: nat): (r: seq<nat>)
    ensures |r| == cnt && forall j: nat :: j < cnt ==> r[j] == at + j * len
  {
    if cnt == 0 then [] else RunOf(at, len, cnt - 1) + [at + (cnt - 1) * len]
  }

  // ---------------------------------------------------------------------------------------------
  // In place
  // ---------------------------------------------------------------------------------------------

  class Allocator {
    var poolList: seq<Block>
    var chunkList: map<nat, seq<nat>>

    /** `Initialize`: one block. */
    constructor (base: nat)
      ensures View() == Grow(State([], map[]), base)
    {
      poolList, chunkList := [], map[];
      new;
      AddBlock(base);
    }

    function View(): State
      reads this
    {
      State(poolList, chunkList)
    }

    /** The outer loop of `DubuByteData`'s constructor. */
    method AddBlock(base: nat)
      modifies this
      ensures View() == Grow(old(View()), base)
    {
      var pos, len, i := 0, 4, 0;
      while i < 9
        invariant 0 <= i <= 9 && pos == Start(i) && (i < 9 ==> len == Len(i))
        invariant poolList == old(poolList)
        invariant CarveFrom(chunkList, base, i) == CarveFrom(old(chunkList), base, 0)
      {
        var cnt := 10000;
        if len > 64 {
          cnt := 2500;
        }
        if len > 512 {
          cnt := 100;
        }
        StartStep(i);
        CarveClass(base + pos, len, cnt);
        assert RunOf(base + pos, len, cnt) == Chunks(base, i);
        pos := pos + cnt * len;
        len := len * 2;
        i := i + 1;
      }
      poolList := poolList + [Block(base, 0)];
    }

    /** The inner loop. */
    method CarveClass(at: nat, len: nat, cnt: nat)
      modifies this`chunkList
      ensures chunkList == old(chunkList)[len := List(old(chunkList), len) + RunOf(at, len, cnt)]
    {
      var pos, list, j := at, List(chunkList, len), 0;
      while j < cnt
        invariant 0 <= j <= cnt && pos == at + j * len
        invariant list == List(chunkList, len) + RunOf(at, len, j)
      {
        list := list + [pos];
        pos := pos + len;
        j := j + 1;
      }
      chunkList := chunkList[len := list];
    }

    method FindBlock(a: nat) returns (r: Option<nat>)
      ensures r == FindFrom(poolList, a, 0)
    {
      var i := 0;
      while i < |poolList|
        invariant 0 <= i <= |poolList|
        invariant FindFrom(poolList, a, i) == FindFrom(poolList, a, 0)
      {
        if poolList[i].base <= a && a < poolList[i].base + BLOCK {
          return Some(i);
        }
        i := i + 1;
      }
      return None;
    }

    method PopChunk(size: nat, base: nat) returns (r: Option<nat>)
      requires size <= MAX_CHUNK
      modifies this
      ensures match Pop(old(View()), size, base)
              case None => r == None
              case Some(o) => r == Some(o.1) && View() == o.0
    {
      var len := BitCeil(size);
      if List(chunkList, len) == [] {
        AddBlock(base);
      }
      var l := List(chunkList, len);
      if l == [] {
        return None;
      }
      var a := l[|l| - 1];
      chunkList := chunkList[len := l[..|l| - 1]];
      var b := FindBlock(a);
      if b == None {
        return None;
      }
      poolList := poolList[b.value := poolList[b.value].(use := poolList[b.value].use + 1)];
      return Some(a);
    }

    method PushChunk(a: nat, size: nat) returns (ok: bool)
      requires size <= MAX_CHUNK
      modifies this
      ensures match Push(old(View()), a, size)
              case None => !ok
              case Some(p) => ok && View() == p
    {
      var len := BitCeil(size);
      chunkList := chunkList[len := List(chunkList, len) + [a]];
      var b := FindBlock(a);
      if b == None {
        return false;
      }
      poolList := poolList[b.value := poolList[b.value].(use := poolList[b.value].use - 1)];
      return true;
    }
  }
}
