/**
 The server's two tables: `sessionMap_` from session ids to sessions, and `peerMap_` from network
 addresses to peers. Connecting, moving to another address, and removal, from `SessionWorker.cpp`,
 `Server.cpp` and `SessionManager.cpp`. Of a session only its address is kept here.
 */
module Registry {

  import opened Words

  /** `SOCKADDR_IN`; the port is in network byte order. */
  datatype Addr = Addr(ip: u32, port: nat) {
    predicate Valid() {
      port < 0x1_0000
    }
  }

  datatype Peer = Peer(key: nat, addr: Addr, session: u32)

  datatype Tables = Tables(sessions: map<u32, Addr>, peers: map<nat, Peer>)

  /** `ntohs`: the two bytes exchanged. */
  function Ntohs(port: nat): (r: nat)
    requires port < 0x1_0000
    ensures r < 0x1_0000
  {
    port % 0x100 * 0x100 + port / 0x100
  }

  /** `PeerKey`: the address shifted by 16 bits, and the port. */
  function PeerKey(a: Addr): nat
    requires a.Valid()
  {
    a.ip * 0x1_0000 + Ntohs(a.port)
  }

  lemma KeyTellsAddr(a: Addr, b: Addr)
    requires a.Valid() && b.Valid() && PeerKey(a) == PeerKey(b)
    ensures a == b
  {
    assert PeerKey(a) / 0x1_0000 == a.ip && PeerKey(b) / 0x1_0000 == b.ip;
  }

  /** Every peer stands under the key of its session's address, and every session has its peer there. */
  ghost predicate PeerAgrees(t: Tables, key: nat)
    requires key in t.peers
  {
    var p := t.peers[key];
    p.key == key && p.addr.Valid() && PeerKey(p.addr) == key && p.session in t.sessions && t.sessions[p.session] == p.addr
  }

  ghost predicate SessionAgrees(t: Tables, id: u32)
    requires id in t.sessions
  {
    var a := t.sessions[id];
    a.Valid() && PeerKey(a) in t.peers && t.peers[PeerKey(a)].session == id
  }

  ghost predicate Inv(t: Tables) {
    && (forall key :: key in t.peers ==> PeerAgrees(t, key))
    && (forall id :: id in t.sessions ==> SessionAgrees(t, id))
  }

  /** Under the invariant the tables are in bijection. */
  lemma Bijection(t: Tables)
    requires Inv(t)
    ensures forall i, j :: i in t.sessions && j in t.sessions && t.sessions[i] == t.sessions[j] ==> i == j
    ensures forall k, l :: k in t.peers && l in t.peers && t.peers[k].session == t.peers[l].session ==> k == l
    ensures forall id :: id in t.sessions <==> exists k :: k in t.peers && t.peers[k].session == id
  {
  }

  // ---------------------------------------------------------------------------------------------
  // Steps
  // ---------------------------------------------------------------------------------------------

  datatype Outcome = Connected(id: u32) | ConnectedAlready(id: u32) | NotPresent | NotFound | Dispatched(id: u32) | Ignored

  /** The SESSION branch; `newId` is what `GenerateId` returns. */
  function Connect(t: Tables, addr: Addr, newId: u32): (Tables, Outcome)
    requires addr.Valid()
  {
    var key := PeerKey(addr);
    if key !in t.peers
    then (Tables(t.sessions[newId := addr], t.peers[key := Peer(key, addr, newId)]), Connected(newId))
    else (t, ConnectedAlready(t.peers[key].session))
  }

  /** `Server::RemoveSession`. */
  function Remove(t: Tables, id: u32): Tables
    requires id in t.sessions ==> t.sessions[id].Valid()
  {
    if id in t.sessions then Tables(t.sessions - {id}, t.peers - {PeerKey(t.sessions[id])}) else t
  }

  /**
   The part under the write lock: a known session speaks from another address. The new key is
   emplaced, which does nothing if it is taken, and the entry under the former key is erased.
   */
  function Migrate(t: Tables, id: u32, addr: Addr): (Tables, bool)
    requires addr.Valid() && (id in t.sessions ==> t.sessions[id].Valid())
  {
    if id !in t.sessions then (t, true)
    else
      var preKey, key := PeerKey(t.sessions[id]), PeerKey(addr);
      if preKey !in t.peers then (Remove(t, id), false)
      else
        var peer := t.peers[preKey].(addr := addr, key := key);
        var emplaced := if key in t.peers then t.peers else t.peers[key := peer];
        (Tables(t.sessions[id := addr], emplaced - {preKey}), true)
  }

  /** A packet that carries a session id. */
  function Packet(t: Tables, id: u32, addr: Addr): (Tables, Outcome)
    requires addr.Valid() && (id in t.sessions ==> t.sessions[id].Valid())
  {
    if id == 0 then (t, Ignored)
    else if id in t.sessions && PeerKey(addr) !in t.peers then
      var m := Migrate(t, id, addr);
      if m.1 then (m.0, Dispatched(id)) else (m.0, NotPresent)
    else (t, if id in t.sessions then Dispatched(id) else NotFound)
  }

  // ---------------------------------------------------------------------------------------------
  // What each step keeps
  // ---------------------------------------------------------------------------------------------

  lemma ConnectKeeps(t: Tables, addr: Addr, newId: u32)
    requires Inv(t) && addr.Valid() && newId !in t.sessions
    ensures Inv(Connect(t, addr, newId).0)
  {
  }

  /** Removal takes out one session, its own peer, and nothing else. */
  lemma RemoveKeeps(t: Tables, id: u32)
    requires Inv(t)
    ensures id in t.sessions ==> t.sessions[id].Valid()
    ensures Inv(Remove(t, id)) && Remove(t, id).sessions == t.sessions - {id}
    ensures forall k :: k in Remove(t, id).peers <==> k in t.peers && t.peers[k].session != id
    ensures forall k :: k in Remove(t, id).peers ==> Remove(t, id).peers[k] == t.peers[k]
  {
  }

  lemma MigrateToFree(t: Tables, id: u32, addr: Addr)
    requires Inv(t) && addr.Valid() && id in t.sessions && PeerKey(addr) !in t.peers
    ensures t.sessions[id].Valid()
    ensures Inv(Migrate(t, id, addr).0) && Migrate(t, id, addr).1
  {
  }

  /**
   The part under the write lock keeps the tables in agreement exactly if the new key is still
   free when it runs. The check for that is made under the read lock, and not repeated.
   */
  lemma MigrateKeepsIff(t: Tables, id: u32, addr: Addr)
    requires Inv(t) && addr.Valid() && id in t.sessions
    ensures t.sessions[id].Valid() && Migrate(t, id, addr).1
    ensures Inv(Migrate(t, id, addr).0) <==> PeerKey(addr) !in t.peers
  {
    assert SessionAgrees(t, id);
    if PeerKey(addr) !in t.peers {
      MigrateToFree(t, id, addr);
    } else {
      var t' := Migrate(t, id, addr).0;
      assert PeerAgrees(t, PeerKey(addr));
      if t.peers[PeerKey(addr)].session == id {
        assert PeerKey(addr) !in t'.peers;
      }
      assert !SessionAgrees(t', id);
    }
  }

  /**
   With each packet handled in one step: the tables stay in agreement, a session moves exactly
   when its address is not yet a peer's, and the "Not Present" branch is not taken.
   */
  lemma PacketKeeps(t: Tables, id: u32, addr: Addr)
    requires Inv(t) && addr.Valid()
    ensures id in t.sessions ==> t.sessions[id].Valid()
    ensures var o := Packet(t, id, addr);
            && Inv(o.0) && o.1 != NotPresent
            && (o.1.Dispatched? ==> id in o.0.sessions && PeerKey(addr) in o.0.peers)
            && (forall i :: i in t.sessions && i != id ==> i in o.0.sessions && o.0.sessions[i] == t.sessions[i])
  {
  }

  // ---------------------------------------------------------------------------------------------
  // What each step does
  // ---------------------------------------------------------------------------------------------

  /** No session has this address. */
  ghost predicate IsFree(t: Tables, addr: Addr) {
    forall id :: id in t.sessions ==> t.sessions[id] != addr
  }

  /** An address is free exactly if there is no peer under its key. */
  lemma FreeIff(t: Tables, addr: Addr)
    requires Inv(t) && addr.Valid()
    ensures IsFree(t, addr) <==> PeerKey(addr) !in t.peers
    ensures PeerKey(addr) in t.peers ==> t.peers[PeerKey(addr)].session in t.sessions && t.sessions[t.peers[PeerKey(addr)].session] == addr
  {
    if PeerKey(addr) in t.peers {
      assert PeerAgrees(t, PeerKey(addr));
      KeyTellsAddr(t.peers[PeerKey(addr)].addr, addr);
    } else {
      forall id | id in t.sessions
        ensures t.sessions[id] != addr
      {
        assert SessionAgrees(t, id);
      }
    }
  }

  /**
   A client that connects gets the new session, and it and its peer are all that is added, exactly if no
   session has its address. Else it is told the one session that has, and nothing changes.
   */
  lemma ConnectIs(t: Tables, addr: Addr, newId: u32)
    requires Inv(t) && addr.Valid() && newId !in t.sessions
    ensures var o := Connect(t, addr, newId);
            if IsFree(t, addr) then
              && o.1 == Connected(newId) && o.0.sessions == t.sessions[newId := addr]
              && o.0.peers == t.peers[PeerKey(addr) := Peer(PeerKey(addr), addr, newId)] && PeerKey(addr) !in t.peers
            else
              o.0 == t && exists id: u32 :: o.1 == ConnectedAlready(id) && id in t.sessions && t.sessions[id] == addr
  {
    FreeIff(t, addr);
  }

  /**
   A packet is dispatched exactly if it names a session there is. No session comes or goes; the one named
   moves to the packet's address, with its peer, if no session has that, and nothing else changes.
   */
  lemma PacketIs(t: Tables, id: u32, addr: Addr)
    requires Inv(t) && addr.Valid()
    ensures id in t.sessions ==> t.sessions[id].Valid()
    ensures var o := Packet(t, id, addr);
            && (o.1 == Ignored <==> id == 0)
            && (o.1 == Dispatched(id) <==> id != 0 && id in t.sessions)
            && (o.1 == NotFound <==> id != 0 && id !in t.sessions)
            && if id != 0 && id in t.sessions && IsFree(t, addr) then
                 && o.0.sessions == t.sessions[id := addr]
                 && o.0.peers == t.peers[PeerKey(addr) := Peer(PeerKey(addr), addr, id)] - {PeerKey(t.sessions[id])}
               else
                 o.0 == t
  {
    FreeIff(t, addr);
    if id in t.sessions {
      assert SessionAgrees(t, id);
    }
  }

  // ---------------------------------------------------------------------------------------------
  // Runs
  // ---------------------------------------------------------------------------------------------

  datatype Event = Join(addr: Addr, newId: u32) | Speak(id: u32, addr: Addr) | Leave(ids: seq<u32>)

  /** The removals of one call of `CheckSessions`. */
  function RemoveAll(t: Tables, ids: seq<u32>): Tables
    requires forall id :: id in t.sessions ==> t.sessions[id].Valid()
    decreases |ids|
  {
    if ids == [] then t else RemoveAll(Remove(t, ids[0]), ids[1..])
  }

  ghost predicate Valid(t: Tables) {
    forall id :: id in t.sessions ==> t.sessions[id].Valid()
  }

  ghost predicate Enabled(t: Tables, e: Event) {
    match e
    case Join(addr, newId) => addr.Valid() && newId != 0 && newId !in t.sessions
    case Speak(_, addr) => addr.Valid()
    case Leave(_) => true
  }

  ghost function Next(t: Tables, e: Event): Tables
    requires Valid(t) && Enabled(t, e)
  {
    match e
    case Join(addr, newId) => Connect(t, addr, newId).0
    case Speak(id, addr) => Packet(t, id, addr).0
    case Leave(ids) => RemoveAll(t, ids)
  }

  ghost predicate Step(t: Tables, t': Tables) {
    Valid(t) && exists e :: Enabled(t, e) && t' == Next(t, e)
  }

  ghost predicate IsRun(run: seq<Tables>) {
    && |run| > 0 && run[0] == Tables(map[], map[])
    && forall i :: 0 <= i < |run| - 1 ==> Step(run[i], run[i + 1])
  }

  lemma {:induction false} RemoveAllKeeps(t: Tables, ids: seq<u32>)
    requires Inv(t) && Valid(t)
    ensures Inv(RemoveAll(t, ids))
    ensures forall id :: id in RemoveAll(t, ids).sessions <==> id in t.sessions && id !in ids
    ensures forall id :: id in RemoveAll(t, ids).sessions ==> RemoveAll(t, ids).sessions[id] == t.sessions[id]
    decreases |ids|
  {
    if ids != [] {
      RemoveKeeps(t, ids[0]);
      RemoveAllKeeps(Remove(t, ids[0]), ids[1..]);
    }
  }

  lemma ValidFromInv(t: Tables)
    requires Inv(t)
    ensures Valid(t)
  {
  }

  lemma StepKeepsInv(t: Tables, e: Event)
    requires Inv(t) && Valid(t) && Enabled(t, e)
    ensures Inv(Next(t, e))
  {
    match e
    case Join(addr, newId) => ConnectKeeps(t, addr, newId);
    case Speak(id, addr) => PacketKeeps(t, id, addr);
    case Leave(ids) => RemoveAllKeeps(t, ids);
  }

  /** Along a run, sessions come with a connection from a free address, go when they are listed, and stay otherwise. */
  lemma NextIs(t: Tables, e: Event)
    requires Inv(t) && Valid(t) && Enabled(t, e)
    ensures match e
            case Join(addr, newId) =>
              Next(t, e).sessions == if IsFree(t, addr) then t.sessions[newId := addr] else t.sessions
            case Speak(id, addr) =>
              Next(t, e).sessions == if id != 0 && id in t.sessions && IsFree(t, addr) then t.sessions[id := addr] else t.sessions
            case Leave(ids) =>
              forall id :: id in Next(t, e).sessions <==> id in t.sessions && id !in ids
  {
    match e
    case Join(addr, newId) => ConnectIs(t, addr, newId);
    case Speak(id, addr) => PacketIs(t, id, addr);
    case Leave(ids) => RemoveAllKeeps(t, ids);
  }

  lemma {:induction false} RunKeepsInv(run: seq<Tables>, i: nat)
    requires IsRun(run) && i < |run|
    ensures Inv(run[i])
  {
    if i > 0 {
      RunKeepsInv(run, i - 1);
      assert Step(run[i - 1], run[i - 1 + 1]);
      var e :| Enabled(run[i - 1], e) && run[i] == Next(run[i - 1], e);
      StepKeepsInv(run[i - 1], e);
    }
  }

  /** In every reachable state the tables are in bijection, and no packet finds its session without a peer. */
  lemma AlwaysPresent(run: seq<Tables>, i: nat, id: u32, addr: Addr)
    requires IsRun(run) && i < |run| && addr.Valid()
    ensures Inv(run[i]) && Valid(run[i])
    ensures Packet(run[i], id, addr).1 != NotPresent
  {
    RunKeepsInv(run, i);
    ValidFromInv(run[i]);
    PacketKeeps(run[i], id, addr);
  }

  /**
   Between the two locks another client may connect from the very address the session moves to.
   The session that moves then loses its peer, and when it is removed it takes the newcomer's with
   it: from then on the newcomer is a session without a peer, which the next move finds not present.
   */
  lemma RaceOrphans(a: Addr, b: Addr, c: Addr, one: u32, two: u32)
    requires a.Valid() && b.Valid() && c.Valid() && a != b && c != b && one != two
    ensures var t := Connect(Tables(map[], map[]), a, one).0;
            var joined := Connect(t, b, two).0;
            var moved := Migrate(joined, one, b).0;
            var left := Remove(moved, one);
            && PeerKey(b) !in t.peers && Inv(joined)
            && two in left.sessions && left.peers == map[]
            && !Migrate(left, two, c).1
  {
    var t := Connect(Tables(map[], map[]), a, one).0;
    ConnectKeeps(Tables(map[], map[]), a, one);
    ConnectKeeps(t, b, two);
    if PeerKey(a) == PeerKey(b) {
      KeyTellsAddr(a, b);
    }
    var joined := Connect(t, b, two).0;
    var moved := Migrate(joined, one, b).0;
    assert moved.peers == map[PeerKey(b) := Peer(PeerKey(b), b, two)];
  }

  // ---------------------------------------------------------------------------------------------
  // In place
  // ---------------------------------------------------------------------------------------------

  class Server {
    var sessionMap: map<u32, Addr>
    var peerMap: map<nat, Peer>

    constructor ()
      ensures View() == Tables(map[], map[]) && Inv(View())
    {
      sessionMap, peerMap := map[], map[];
    }

    function View(): Tables
      reads this
    {
      Tables(sessionMap, peerMap)
    }

    /** `isSession` tells a SESSION packet from the others; `newId` is what `GenerateId` would return. */
    method ProcessPacket(isSession: bool, id: u32, addr: Addr, newId: u32) returns (o: Outcome)
      requires addr.Valid() && Valid(View()) && newId !in sessionMap
      modifies this
      ensures (View(), o) == if isSession then Connect(old(View()), addr, newId) else Packet(old(View()), id, addr)
      ensures old(Inv(View())) ==> Inv(View()) && o != NotPresent
      ensures old(Inv(View())) && !isSession ==>
                && (o == Dispatched(id) <==> id != 0 && id in old(sessionMap)) && (o == Ignored <==> id == 0)
                && sessionMap.Keys == old(sessionMap).Keys
      ensures old(Inv(View())) && isSession ==>
                if old(IsFree(View(), addr)) then o == Connected(newId) && sessionMap == old(sessionMap)[newId := addr]
                else o.ConnectedAlready? && o.id in sessionMap && sessionMap[o.id] == addr && View() == old(View())
    {
      ghost var was := View();
      if Inv(was) {
        ConnectKeeps(was, addr, newId);
        PacketKeeps(was, id, addr);
        ConnectIs(was, addr, newId);
        PacketIs(was, id, addr);
      }
      var key := PeerKey(addr);
      if isSession {
        if key !in peerMap {
          sessionMap := sessionMap[newId := addr];
          peerMap := peerMap[key := Peer(key, addr, newId)];
          return Connected(newId);
        }
        return ConnectedAlready(peerMap[key].session);
      }
      if id == 0 {
        return Ignored;
      }
      if id in sessionMap && key !in peerMap {
        var preKey := PeerKey(sessionMap[id]);
        if preKey !in peerMap {
          RemoveSession(id);
          return NotPresent;
        }
        sessionMap := sessionMap[id := addr];
        peerMap := peerMap[key := peerMap[preKey].(addr := addr, key := key)];
        peerMap := peerMap - {preKey};
      }
      o := if id in sessionMap then Dispatched(id) else NotFound;
    }

    method RemoveSession(id: u32)
      requires Valid(View())
      modifies this
      ensures View() == Remove(old(View()), id)
    {
      if id in sessionMap {
        peerMap := peerMap - {PeerKey(sessionMap[id])};
        sessionMap := sessionMap - {id};
      }
    }

    /** The removals at the end of `CheckSessions`. */
    method RemoveListed(ids: seq<u32>)
      requires Valid(View())
      modifies this
      ensures View() == RemoveAll(old(View()), ids)
      ensures old(Inv(View())) ==> Inv(View()) && forall id :: id in sessionMap <==> id in old(sessionMap) && id !in ids
      ensures old(Inv(View())) ==> forall id :: id in sessionMap ==> id in old(sessionMap) && sessionMap[id] == old(sessionMap)[id]
    {
      ghost var was := View();
      if Inv(was) {
        RemoveAllKeeps(was, ids);
      }
      var i := 0;
      assert ids[0..] == ids;
      while i < |ids|
        invariant 0 <= i <= |ids| && Valid(View())
        invariant RemoveAll(View(), ids[i..]) == RemoveAll(was, ids)
      {
        assert ids[i..][1..] == ids[i + 1..];
        RemoveSession(ids[i]);
        i := i + 1;
      }
    }
  }
}
