/**
 `CachePacketManager`: the shared store of buffers that hold packets received ahead of their turn.
 Buffers are named by the order in which they were first taken from the memory pool.
 */
module CacheBuffers {

  import opened Words

  /** A buffer taken out of the manager, with the packet copied into it. */
  datatype CacheBuffer = CacheBuffer(id: nat, data: Bytes)

  datatype Manager = Manager(list: seq<nat>, used: set<nat>, carved: nat) {

    /** Every buffer ever carved is either in the list, once, or in use. */
    ghost predicate Valid() {
      && (forall i, j :: 0 <= i < j < |list| ==> list[i] != list[j])
      && (forall id :: id in list ==> id < carved && id !in used)
      && (forall id :: id in used ==> id < carved)
      && (forall id :: 0 <= id < carved ==> id in list || id in used)
    }

    /** The buffer that the next `Pop` hands out. */
    function Next(): nat {
      if list != [] then list[|list| - 1] else carved
    }

    function Pop(): Manager {
      if list != []
      then Manager(list[..|list| - 1], used + {list[|list| - 1]}, carved)
      else Manager(list, used + {carved}, carved + 1)
    }

    function Push(id: nat): Manager {
      Manager(list + [id], used - {id}, carved)
    }
  }

  /** Taking a buffer hands out one that nobody holds. */
  lemma PopIsFresh(m: Manager)
    requires m.Valid()
    ensures m.Pop().Valid()
    ensures m.Next() !in m.used && m.Pop().used == m.used + {m.Next()}
  {
  }

  /** Giving a buffer back undoes taking it. */
  lemma PushReturns(m: Manager, id: nat)
    requires m.Valid() && id in m.used
    ensures m.Push(id).Valid()
    ensures id !in m.Push(id).used && m.Push(id).used + {id} == m.used
  {
  }

  /** A new buffer is carved exactly if every buffer there is is in use; else one of the listed is handed out. */
  lemma CarvesIff(m: Manager)
    requires m.Valid()
    ensures m.Pop().carved == if forall id :: 0 <= id < m.carved ==> id in m.used then m.carved + 1 else m.carved
    ensures m.Pop().carved == m.carved ==> m.Next() in m.list && m.Pop().list + [m.Next()] == m.list
  {
    if m.list != [] {
      assert m.list[|m.list| - 1] in m.list;
    }
  }

  /** What is given back is handed out again next, and the manager is then as it was. */
  lemma TakenAgain(m: Manager, id: nat)
    requires m.Valid() && id in m.used
    ensures m.Push(id).Next() == id && m.Push(id).Pop() == m
  {
    assert m.used - {id} + {id} == m.used;
  }

  class CachePacketManager {
    var list: seq<nat>
    var useList: set<nat>
    var carved: nat

    constructor ()
      ensures View() == Manager([], {}, 0) && View().Valid()
    {
      list, useList, carved := [], {}, 0;
    }

    function View(): Manager
      reads this
    {
      Manager(list, useList, carved)
    }

    method PopPacketBuffer() returns (id: nat)
      modifies this
      ensures id == old(View().Next()) && View() == old(View().Pop())
    {
      if list != [] {
        id := list[|list| - 1];
        list := list[..|list| - 1];
      } else {
        id := carved;
        carved := carved + 1;
      }
      useList := useList + {id};
    }

    method PushPacketBuffer(id: nat)
      modifies this
      ensures View() == old(View()).Push(id)
    {
      list := list + [id];
      useList := useList - {id};
    }
  }
}
