/**
 Gathering pieces of whatever messages, in whatever order, however they are numbered and however often
 they arrive. The table of `Chunks` is compared with a machine that keeps only the set of numbers
 gathered so far: `ps[n]` is the packet numbered `n`, and all the packets with the CHUNK flag are there.
 */
module ChunkRuns {

  import opened Words
  import opened Chunks
  import opened Reassembly

  /** The word a packet is filed under. */
  ghost function Key(ps: map<nat, Packet>, n: nat): u32
    requires WellFormed(ps) && n in ps
  {
    Base(ps[n].seqNo, ps[n].flag)
  }

  /** Of the gathered numbers, those filed under `key`. */
  ghost function Under(ps: map<nat, Packet>, held: set<nat>, key: u32): set<nat>
    requires WellFormed(ps) && held <= ps.Keys
  {
    set q | q in held && Key(ps, q) == key
  }

  /** An entry holds the gathered pieces filed there, and is not full. */
  ghost predicate KeyAgrees(ps: map<nat, Packet>, t: map<u32, Gather>, held: set<nat>, key: u32)
    requires WellFormed(ps) && held <= ps.Keys
  {
    if key in t then EntryAgrees(t[key], ps, Under(ps, held, key)) && !Covers(ps, Under(ps, held, key))
    else Under(ps, held, key) == {}
  }

  ghost predicate Agrees(ps: map<nat, Packet>, t: map<u32, Gather>, held: set<nat>) {
    && WellFormed(ps) && held <= ps.Keys
    && (forall key :: KeyAgrees(ps, t, held, key))
  }

  // ---------------------------------------------------------------------------------------------
  // One arrival
  // ---------------------------------------------------------------------------------------------

  /** What a full entry yields: the copying loop goes by the sizes in the packet that completed it. */
  ghost predicate Yields(ps: map<nat, Packet>, s: set<nat>, last: nat, r: Result)
    requires last in ps
  {
    exists g: Gather :: IsYield(g, ps, s, last, r)
  }

  ghost predicate IsYield(g: Gather, ps: map<nat, Packet>, s: set<nat>, last: nat, r: Result)
    requires last in ps
  {
    && EntryAgrees(g, ps, s) && g.size == ps[last].total
    && r == match Collect(g, HEADER + ps[last].subSize)
            case None => Fault
            case Some(data) => Parsed(data)
  }

  /**
   The collected pieces overrun: of the size that the completing packet names, with its headers and cut
   to 16 bits, there is more than `PopBig` allows, or a place is bad, or they do not fit it together.
   */
  ghost predicate Overrun(ps: map<nat, Packet>, s: set<nat>, last: nat)
    requires last in ps
  {
    var header := HEADER + ps[last].subSize;
    Overruns(Places(ps, s), |s|, header, (ps[last].total + header) % 0x1_0000)
  }

  /** What is collected is a fault exactly if it overruns, and else the join of the pieces. */
  lemma YieldIs(ps: map<nat, Packet>, s: set<nat>, last: nat, r: Result)
    requires last in ps && Yields(ps, s, last, r)
    ensures r == if Overrun(ps, s, last) then Fault
                 else Parsed(Joined(Places(ps, s), |s|, HEADER + ps[last].subSize))
  {
    var g: Gather :| IsYield(g, ps, s, last, r);
    PlacesOf(g, ps, s);
    CollectIs(g, HEADER + ps[last].subSize);
  }

  ghost function Entry(t: map<u32, Gather>, key: u32): Gather {
    if key in t then t[key] else Empty()
  }

  lemma EntryOf(ps: map<nat, Packet>, t: map<u32, Gather>, held: set<nat>, key: u32)
    requires Agrees(ps, t, held)
    ensures EntryAgrees(Entry(t, key), ps, Under(ps, held, key)) && !Covers(ps, Under(ps, held, key))
  {
    assert KeyAgrees(ps, t, held, key);
    if key !in t {
      EmptyAgrees(ps);
      assert 0 in ALL && !HasBit(ps, {}, 0);
    }
  }

  /** A change under one key leaves the others alone. */
  lemma OtherKeys(ps: map<nat, Packet>, t: map<u32, Gather>, held: set<nat>, t': map<u32, Gather>, held': set<nat>, key: u32)
    requires Agrees(ps, t, held) && held' <= ps.Keys && KeyAgrees(ps, t', held', key)
    requires forall k :: k != key ==> (k in t <==> k in t') && (k in t ==> t[k] == t'[k])
    requires forall q :: q in ps && Key(ps, q) != key ==> (q in held <==> q in held')
    ensures Agrees(ps, t', held')
  {
    forall k
      ensures KeyAgrees(ps, t', held', k)
    {
      if k != key {
        assert KeyAgrees(ps, t, held, k);
        assert Under(ps, held', k) == Under(ps, held, k);
      }
    }
  }

  /** The three cases of an arrival. */
  datatype Fate = TurnedAway | Kept | Completes

  ghost function FateOf(ps: map<nat, Packet>, held: set<nat>, n: nat): Fate
    requires WellFormed(ps) && held <= ps.Keys && n in ps
  {
    var own := Under(ps, held, Key(ps, n));
    if Meets(ps, own, ps[n].flag) then TurnedAway
    else if Covers(ps, own + {n}) then Completes
    else Kept
  }

  /** The entry after the arrival. */
  lemma AddedAgrees(ps: map<nat, Packet>, t: Table, held: set<nat>, n: nat)
    requires Agrees(ps, t.gathers, held) && n in ps
    ensures t.Valid()
    ensures var g, own := Added(t, ps[n]), Under(ps, held, Key(ps, n));
            && g.size == ps[n].total
            && (FateOf(ps, held, n) == TurnedAway ==> EntryAgrees(g, ps, own) && !g.IsPull())
            && (FateOf(ps, held, n) != TurnedAway ==> n !in held && EntryAgrees(g, ps, own + {n}))
            && (FateOf(ps, held, n) == Completes <==> g.IsPull())
  {
    TableIsValid(ps, t, held);
    var key, own := Key(ps, n), Under(ps, held, Key(ps, n));
    EntryOf(ps, t.gathers, held, key);
    var g := Entry(t.gathers, key);
    SetBufferAgrees(g, ps, own, n);
    var g' := g.SetBuffer(ps[n].flag, ps[n].bytes);
    var s := if FateOf(ps, held, n) == TurnedAway then own else own + {n};
    SizeIsFree(g', ps, s, ps[n].total);
    FullIsCovered(g'.(size := ps[n].total), ps, s);
  }

  lemma TableIsValid(ps: map<nat, Packet>, t: Table, held: set<nat>)
    requires Agrees(ps, t.gathers, held)
    ensures t.Valid()
  {
    forall k | k in t.gathers
      ensures t.gathers[k].Valid()
    {
      assert KeyAgrees(ps, t.gathers, held, k);
    }
  }

  /** What is gathered after the arrival. */
  ghost function HeldAfter(ps: map<nat, Packet>, held: set<nat>, n: nat): set<nat>
    requires WellFormed(ps) && held <= ps.Keys && n in ps
  {
    match FateOf(ps, held, n)
    case TurnedAway => held
    case Kept => held + {n}
    case Completes => held - Under(ps, held, Key(ps, n))
  }

  /**
   One arrival, whatever else is in the table. A packet is turned away exactly if a gathered one filed
   under the same word shares a bit of its flag; otherwise it joins them, and if their flags are then
   all 16 bits they are collected, all of them and only them.
   */
  lemma ReceiveRefines(ps: map<nat, Packet>, t: Table, held: set<nat>, n: nat)
    requires Agrees(ps, t.gathers, held) && n in ps
    ensures t.Valid()
    ensures var o, fate, own := Receive(t, ps[n]), FateOf(ps, held, n), Under(ps, held, Key(ps, n));
            && (fate != Completes ==> o.1 == Waiting && o.0.taken == t.taken + 1)
            && (fate == Completes ==> Yields(ps, own + {n}, n, o.1) && o.1 != Waiting)
            && (o.1.Parsed? ==> o.0.taken == t.taken - |own|)
            && (o.1 != Fault ==> Agrees(ps, o.0.gathers, HeldAfter(ps, held, n)))
  {
    TableIsValid(ps, t, held);
    match FateOf(ps, held, n) {
      case TurnedAway => ReceiveTurned(ps, t, held, n);
      case Kept => ReceiveKept(ps, t, held, n);
      case Completes => ReceiveCompletes(ps, t, held, n);
    }
  }

  lemma ReceiveTurned(ps: map<nat, Packet>, t: Table, held: set<nat>, n: nat)
    requires Agrees(ps, t.gathers, held) && n in ps && t.Valid() && FateOf(ps, held, n) == TurnedAway
    ensures var o := Receive(t, ps[n]);
            o.1 == Waiting && o.0.taken == t.taken + 1 && Agrees(ps, o.0.gathers, held)
  {
    AddedAgrees(ps, t, held, n);
    ReceiveFrom(t, ps[n], Key(ps, n), Added(t, ps[n]));
    TurnedAgrees(ps, t.gathers, held, n, Added(t, ps[n]));
  }

  lemma ReceiveKept(ps: map<nat, Packet>, t: Table, held: set<nat>, n: nat)
    requires Agrees(ps, t.gathers, held) && n in ps && t.Valid() && FateOf(ps, held, n) == Kept
    ensures var o := Receive(t, ps[n]);
            o.1 == Waiting && o.0.taken == t.taken + 1 && Agrees(ps, o.0.gathers, held + {n})
  {
    AddedAgrees(ps, t, held, n);
    ReceiveFrom(t, ps[n], Key(ps, n), Added(t, ps[n]));
    KeptAgrees(ps, t.gathers, held, n, Added(t, ps[n]));
  }

  /** What comes of an entry that is full. */
  lemma ReceiveYields(ps: map<nat, Packet>, t: Table, s: set<nat>, n: nat, g: Gather)
    requires WellFormed(ps) && n in ps && t.Valid() && g == Added(t, ps[n])
    requires EntryAgrees(g, ps, s) && g.IsPull() && g.size == ps[n].total
    ensures var o := Receive(t, ps[n]);
            && Yields(ps, s, n, o.1) && o.1 != Waiting
            && (o.1.Parsed? ==> o.0 == Table(t.gathers - {Key(ps, n)}, t.taken + 1 - g.count))
  {
    ReceiveFrom(t, ps[n], Key(ps, n), g);
    assert IsYield(g, ps, s, n, Receive(t, ps[n]).1);
  }

  lemma ReceiveCompletes(ps: map<nat, Packet>, t: Table, held: set<nat>, n: nat)
    requires Agrees(ps, t.gathers, held) && n in ps && t.Valid() && FateOf(ps, held, n) == Completes
    ensures var o, own := Receive(t, ps[n]), Under(ps, held, Key(ps, n));
            && Yields(ps, own + {n}, n, o.1) && o.1 != Waiting
            && (o.1.Parsed? ==> o.0.taken == t.taken - |own|)
            && (o.1 != Fault ==> Agrees(ps, o.0.gathers, held - own))
  {
    AddedAgrees(ps, t, held, n);
    var g, own := Added(t, ps[n]), Under(ps, held, Key(ps, n));
    assert n !in own && g.count == |own| + 1;
    ReceiveYields(ps, t, own + {n}, n, g);
    DoneAgrees(ps, t.gathers, held, n);
  }

  lemma ReceiveFrom(t: Table, p: Packet, key: u32, g: Gather)
    requires t.Valid() && p.flag <= ALL && Base(p.seqNo, p.flag) == key && g == Added(t, p)
    ensures Receive(t, p) ==
            if !g.IsPull() then (Table(t.gathers[key := g], t.taken + 1), Waiting)
            else if Collect(g, HEADER + p.subSize).None? then (t, Fault)
            else (Table(t.gathers - {key}, t.taken + 1 - g.count), Parsed(Collect(g, HEADER + p.subSize).value))
  {
  }

  lemma TurnedAgrees(ps: map<nat, Packet>, t: map<u32, Gather>, held: set<nat>, n: nat, g: Gather)
    requires Agrees(ps, t, held) && n in ps && EntryAgrees(g, ps, Under(ps, held, Key(ps, n)))
    ensures Agrees(ps, t[Key(ps, n) := g], held)
  {
    EntryOf(ps, t, held, Key(ps, n));
    OtherKeys(ps, t, held, t[Key(ps, n) := g], held, Key(ps, n));
  }

  lemma KeptAgrees(ps: map<nat, Packet>, t: map<u32, Gather>, held: set<nat>, n: nat, g: Gather)
    requires Agrees(ps, t, held) && n in ps && EntryAgrees(g, ps, Under(ps, held, Key(ps, n)) + {n})
    requires !Covers(ps, Under(ps, held, Key(ps, n)) + {n})
    ensures Agrees(ps, t[Key(ps, n) := g], held + {n})
  {
    var key := Key(ps, n);
    assert Under(ps, held + {n}, key) == Under(ps, held, key) + {n};
    OtherKeys(ps, t, held, t[key := g], held + {n}, key);
  }

  lemma DoneAgrees(ps: map<nat, Packet>, t: map<u32, Gather>, held: set<nat>, n: nat)
    requires Agrees(ps, t, held) && n in ps
    ensures Agrees(ps, t - {Key(ps, n)}, held - Under(ps, held, Key(ps, n)))
  {
    var key := Key(ps, n);
    var rest := held - Under(ps, held, key);
    assert Under(ps, rest, key) == {};
    OtherKeys(ps, t, held, t - {key}, rest, key);
  }

  // ---------------------------------------------------------------------------------------------
  // Many arrivals
  // ---------------------------------------------------------------------------------------------

  /** The pieces that were collected together, and the one that completed them. */
  datatype Done = Done(pieces: set<nat>, last: nat)

  /** What is gathered, how many arrivals were turned away, and what was collected so far. */
  datatype Simple = Simple(held: set<nat>, turned: nat, done: seq<Done>)

  ghost function SimpleOne(ps: map<nat, Packet>, s: Simple, n: nat): (r: Simple)
    requires WellFormed(ps) && s.held <= ps.Keys && n in ps
    ensures r.held <= ps.Keys
  {
    var fate := FateOf(ps, s.held, n);
    Simple(HeldAfter(ps, s.held, n), if fate == TurnedAway then s.turned + 1 else s.turned,
           if fate == Completes then s.done + [Done(Under(ps, s.held, Key(ps, n)) + {n}, n)] else s.done)
  }

  ghost predicate AllKnown(ps: map<nat, Packet>, order: seq<nat>) {
    forall k :: 0 <= k < |order| ==> order[k] in ps
  }

  ghost function SimpleFeed(ps: map<nat, Packet>, order: seq<nat>): (s: Simple)
    requires WellFormed(ps) && AllKnown(ps, order)
    ensures s.held <= ps.Keys
  {
    if order == [] then Simple({}, 0, [])
    else SimpleOne(ps, SimpleFeed(ps, order[..|order| - 1]), order[|order| - 1])
  }

  /** The table, what was parsed so far, and whether a fault has ended everything. */
  datatype Run = Run(t: Table, parses: seq<Bytes>, fault: bool)

  ghost function FeedOne(r: Run, p: Packet): (r': Run)
    requires r.t.Valid() && p.flag <= ALL
    ensures r'.t.Valid()
  {
    if r.fault then r
    else
      var o := Receive(r.t, p);
      Run(o.0, if o.1.Parsed? then r.parses + [o.1.data] else r.parses, o.1.Fault?)
  }

  ghost function Feed(ps: map<nat, Packet>, order: seq<nat>): (r: Run)
    requires WellFormed(ps) && AllKnown(ps, order)
    ensures r.t.Valid()
  {
    if order == [] then Run(Table(map[], 0), [], false)
    else FeedOne(Feed(ps, order[..|order| - 1]), ps[order[|order| - 1]])
  }

  ghost predicate DoneYields(ps: map<nat, Packet>, d: Done, r: Result) {
    d.last in ps && Yields(ps, d.pieces, d.last, r)
  }

  /** The first collections were parsed, in turn. */
  ghost predicate ParsedInTurn(ps: map<nat, Packet>, done: seq<Done>, parses: seq<Bytes>) {
    |parses| <= |done| && forall k :: 0 <= k < |parses| ==> DoneYields(ps, done[k], Parsed(parses[k]))
  }

  lemma ParsedNext(ps: map<nat, Packet>, done: seq<Done>, parses: seq<Bytes>, d: Done, data: Bytes)
    requires ParsedInTurn(ps, done, parses) && |parses| == |done| && DoneYields(ps, d, Parsed(data))
    ensures ParsedInTurn(ps, done + [d], parses + [data])
  {
  }

  lemma DoneNext(ps: map<nat, Packet>, done: seq<Done>, parses: seq<Bytes>, d: Done)
    requires ParsedInTurn(ps, done, parses)
    ensures ParsedInTurn(ps, done + [d], parses)
    ensures forall k :: 0 <= k < |done| ==> (done + [d])[k] == done[k]
  {
  }

  /** Collection `k` overruns. */
  ghost predicate DoneOverruns(ps: map<nat, Packet>, d: Done) {
    d.last in ps && Overrun(ps, d.pieces, d.last)
  }

  /**
   The two machines after the same arrivals: collections were parsed in turn, all of them, or up to
   the first that is a fault.
   */
  ghost predicate RunAgrees(ps: map<nat, Packet>, r: Run, s: Simple) {
    && ParsedInTurn(ps, s.done, r.parses)
    && (r.fault ==> |r.parses| < |s.done| && DoneYields(ps, s.done[|r.parses|], Fault))
    && (!r.fault ==>
          && |r.parses| == |s.done|
          && r.t.taken == |s.held| + s.turned
          && Agrees(ps, r.t.gathers, s.held))
  }

  lemma OneAgrees(ps: map<nat, Packet>, r: Run, s: Simple, n: nat)
    requires WellFormed(ps) && s.held <= ps.Keys && n in ps && r.t.Valid() && RunAgrees(ps, r, s)
    ensures RunAgrees(ps, FeedOne(r, ps[n]), SimpleOne(ps, s, n))
  {
    var d := Done(Under(ps, s.held, Key(ps, n)) + {n}, n);
    DoneNext(ps, s.done, r.parses, d);
    if !r.fault {
      ReceiveRefines(ps, r.t, s.held, n);
      AddedAgrees(ps, r.t, s.held, n);
      HeldSize(ps, s.held, n);
      var o := Receive(r.t, ps[n]);
      if FateOf(ps, s.held, n) == Completes {
        assert DoneYields(ps, d, o.1);
        if o.1 != Fault {
          ParsedNext(ps, s.done, r.parses, d, o.1.data);
        }
      }
    }
  }

  lemma HeldSize(ps: map<nat, Packet>, held: set<nat>, n: nat)
    requires WellFormed(ps) && held <= ps.Keys && n in ps
    ensures var own := Under(ps, held, Key(ps, n)); |held - own| == |held| - |own|
    ensures n !in held ==> |held + {n}| == |held| + 1
  {
    var own := Under(ps, held, Key(ps, n));
    assert own <= held;
    assert (held - own) + own == held;
  }

  /**
   Whatever packets arrive, in whatever order and however often: what the table parses are the
   collections of the machine, one after another, up to the first that overruns; and as many cache
   buffers are out as there are pieces gathered, plus one for every packet turned away.
   */
  lemma {:induction false} RunRefines(ps: map<nat, Packet>, order: seq<nat>)
    requires WellFormed(ps) && AllKnown(ps, order)
    ensures RunAgrees(ps, Feed(ps, order), SimpleFeed(ps, order))
  {
    if order == [] {
      EmptyTable(ps);
    } else {
      var before := order[..|order| - 1];
      RunRefines(ps, before);
      OneAgrees(ps, Feed(ps, before), SimpleFeed(ps, before), order[|order| - 1]);
    }
  }

  /** Collection `k` is parsed exactly if none up to it overruns; it is then the join of its pieces. */
  lemma ParsedIffNoOverrun(ps: map<nat, Packet>, r: Run, s: Simple, k: nat)
    requires RunAgrees(ps, r, s) && k < |s.done|
    ensures k < |r.parses| <==> forall i :: 0 <= i <= k ==> !DoneOverruns(ps, s.done[i])
    ensures k < |r.parses| ==>
              && s.done[k].last in ps
              && r.parses[k] == Joined(Places(ps, s.done[k].pieces), |s.done[k].pieces|, HEADER + ps[s.done[k].last].subSize)
  {
    forall i | 0 <= i < |r.parses|
      ensures !DoneOverruns(ps, s.done[i])
    {
      YieldIs(ps, s.done[i].pieces, s.done[i].last, Parsed(r.parses[i]));
    }
    if k < |r.parses| {
      YieldIs(ps, s.done[k].pieces, s.done[k].last, Parsed(r.parses[k]));
    }
    if r.fault {
      var f := s.done[|r.parses|];
      YieldIs(ps, f.pieces, f.last, Fault);
      assert DoneOverruns(ps, f);
    }
  }

  lemma FeedNext(ps: map<nat, Packet>, order: seq<nat>, n: nat)
    requires WellFormed(ps) && AllKnown(ps, order) && n in ps
    ensures AllKnown(ps, order + [n])
    ensures Feed(ps, order + [n]) == FeedOne(Feed(ps, order), ps[n])
  {
    var more := order + [n];
    assert more[..|more| - 1] == order && more[|more| - 1] == n;
  }

  /** After a fault nothing more is parsed. */
  lemma {:induction false} FaultIsTheEnd(ps: map<nat, Packet>, order: seq<nat>, more: seq<nat>)
    requires WellFormed(ps) && AllKnown(ps, order) && AllKnown(ps, more) && Feed(ps, order).fault
    ensures AllKnown(ps, order + more) && Feed(ps, order + more) == Feed(ps, order)
    decreases |more|
  {
    if more == [] {
      assert order + more == order;
    } else {
      var more', n := more[..|more| - 1], more[|more| - 1];
      FaultIsTheEnd(ps, order, more');
      assert order + more == (order + more') + [n];
      FeedNext(ps, order + more', n);
    }
  }

  /** There is a fault exactly if some collection overruns. */
  lemma FaultIffOverrun(ps: map<nat, Packet>, r: Run, s: Simple)
    requires RunAgrees(ps, r, s)
    ensures r.fault <==> exists i :: 0 <= i < |s.done| && DoneOverruns(ps, s.done[i])
  {
    if r.fault {
      ParsedIffNoOverrun(ps, r, s, |r.parses|);
    } else if s.done != [] {
      ParsedIffNoOverrun(ps, r, s, |s.done| - 1);
    }
  }

  lemma EmptyTable(ps: map<nat, Packet>)
    requires WellFormed(ps)
    ensures Agrees(ps, map[], {})
  {
    forall key
      ensures KeyAgrees(ps, map[], {}, key)
    {
      assert Under(ps, {}, key) == {};
    }
  }

  /** What is collected together was filed under one word, covers every bit, and is not gathered any more. */
  ghost predicate AllSound(ps: map<nat, Packet>, done: seq<Done>)
    requires WellFormed(ps)
  {
    forall k :: 0 <= k < |done| ==> DoneIsSound(ps, done[k])
  }

  ghost predicate DoneIsSound(ps: map<nat, Packet>, d: Done)
    requires WellFormed(ps)
  {
    && d.pieces <= ps.Keys && d.last in d.pieces && Covers(ps, d.pieces)
    && forall n :: n in d.pieces ==> Key(ps, n) == Key(ps, d.last)
  }

  lemma {:induction false} CollectionsAreSound(ps: map<nat, Packet>, order: seq<nat>)
    requires WellFormed(ps) && AllKnown(ps, order)
    ensures AllSound(ps, SimpleFeed(ps, order).done)
  {
    if order != [] {
      var before, n := order[..|order| - 1], order[|order| - 1];
      CollectionsAreSound(ps, before);
      NewIsSound(ps, SimpleFeed(ps, before), n);
    }
  }

  lemma NewIsSound(ps: map<nat, Packet>, s: Simple, n: nat)
    requires WellFormed(ps) && s.held <= ps.Keys && n in ps && AllSound(ps, s.done)
    ensures AllSound(ps, SimpleOne(ps, s, n).done)
  {
    var d := Done(Under(ps, s.held, Key(ps, n)) + {n}, n);
    if FateOf(ps, s.held, n) == Completes {
      assert DoneIsSound(ps, d);
      SoundNext(ps, s.done, d);
    }
  }

  lemma SoundNext(ps: map<nat, Packet>, done: seq<Done>, d: Done)
    requires WellFormed(ps) && AllSound(ps, done) && DoneIsSound(ps, d)
    ensures AllSound(ps, done + [d])
  {
  }

  /** Where everything that arrived is: gathered, collected, or turned away. */
  ghost predicate EachOnce(s: Simple, order: seq<nat>) {
    && (forall n :: n in s.held ==> n in order)
    && (forall k, n :: 0 <= k < |s.done| && n in s.done[k].pieces ==> n in order && n !in s.held)
    && (forall j, k :: 0 <= j < k < |s.done| ==> s.done[j].pieces !! s.done[k].pieces)
  }

  /** If every packet arrives at most once, none is collected twice. */
  lemma {:induction false} CollectedOnce(ps: map<nat, Packet>, order: seq<nat>)
    requires WellFormed(ps) && AllKnown(ps, order) && forall i, j :: 0 <= i < j < |order| ==> order[i] != order[j]
    ensures EachOnce(SimpleFeed(ps, order), order)
  {
    if order != [] {
      var before, n := order[..|order| - 1], order[|order| - 1];
      assert order == before + [n];
      assert n !in before;
      CollectedOnce(ps, before);
      CollectOne(ps, SimpleFeed(ps, before), before, n);
    }
  }

  lemma CollectOne(ps: map<nat, Packet>, s: Simple, before: seq<nat>, n: nat)
    requires WellFormed(ps) && s.held <= ps.Keys && n in ps && n !in before && EachOnce(s, before)
    ensures EachOnce(SimpleOne(ps, s, n), before + [n])
  {
    var s', order := SimpleOne(ps, s, n), before + [n];
    assert forall x :: x in before ==> x in order;
    assert order[|before|] == n;
    forall k, x | 0 <= k < |s'.done| && x in s'.done[k].pieces
      ensures x in order && x !in s'.held
    {
      if k < |s.done| {
        assert s'.done[k] == s.done[k];
      }
    }
    forall j, k | 0 <= j < k < |s'.done|
      ensures s'.done[j].pieces !! s'.done[k].pieces
    {
      assert s'.done[j] == s.done[j];
      if k < |s.done| {
        assert s'.done[k] == s.done[k];
      }
    }
  }

  /** An arrival adds itself at most, and does not touch what is filed elsewhere. */
  lemma Untouched(ps: map<nat, Packet>, s: Simple, n: nat, q: nat)
    requires WellFormed(ps) && s.held <= ps.Keys && n in ps && q in ps
    ensures var s' := SimpleOne(ps, s, n);
            && s'.held <= s.held + {n} && s.done <= s'.done
            && (Key(ps, q) != Key(ps, n) ==>
                  && (q in s'.held <==> q in s.held)
                  && forall i :: |s.done| <= i < |s'.done| ==> q !in s'.done[i].pieces)
  {
  }

  /** Only what arrived is gathered or collected. */
  ghost predicate IsFrom(s: Simple, order: seq<nat>) {
    && (forall n :: n in s.held ==> n in order)
    && (forall k, n :: 0 <= k < |s.done| && n in s.done[k].pieces ==> n in order)
  }

  lemma {:induction false} FeedIsFrom(ps: map<nat, Packet>, order: seq<nat>)
    requires WellFormed(ps) && AllKnown(ps, order)
    ensures IsFrom(SimpleFeed(ps, order), order)
  {
    if order != [] {
      var before, n := order[..|order| - 1], order[|order| - 1];
      FeedIsFrom(ps, before);
      assert order == before + [n];
      OneIsFrom(ps, SimpleFeed(ps, before), before, n);
    }
  }

  lemma OneIsFrom(ps: map<nat, Packet>, s: Simple, before: seq<nat>, n: nat)
    requires WellFormed(ps) && s.held <= ps.Keys && n in ps && IsFrom(s, before)
    ensures IsFrom(SimpleOne(ps, s, n), before + [n])
  {
    var s', order := SimpleOne(ps, s, n), before + [n];
    assert order[|before|] == n && forall x :: x in before ==> x in order;
    forall k, x | 0 <= k < |s'.done| && x in s'.done[k].pieces
      ensures x in order
    {
      if k < |s.done| {
        assert s'.done[k] == s.done[k];
      }
    }
  }

  // ---------------------------------------------------------------------------------------------
  // Pieces that keep another out
  // ---------------------------------------------------------------------------------------------

  /** Each of the strangers is filed under `key` and shares a bit with `tail`. */
  ghost predicate MeetTail(ps: map<nat, Packet>, key: u32, tail: nat, strangers: set<nat>)
    requires WellFormed(ps) && tail in ps && strangers <= ps.Keys
  {
    forall q :: q in strangers ==> Key(ps, q) == key && q != tail && ps[q].flag * ps[tail].flag != {}
  }

  /** Of all that is filed under `key`, only `tail` has the given bit. */
  ghost predicate OnlyTailHas(ps: map<nat, Packet>, all: set<nat>, key: u32, tail: nat, bit: nat)
    requires WellFormed(ps) && all <= ps.Keys
  {
    forall x :: x in all && Key(ps, x) == key && x != tail ==> bit !in ps[x].flag
  }

  /** Strangers share no bit with what is filed under `key`, except with each other and with `tail`. */
  ghost predicate AmongThemselves(ps: map<nat, Packet>, all: set<nat>, key: u32, tail: nat, strangers: set<nat>)
    requires WellFormed(ps) && strangers <= all <= ps.Keys
  {
    forall q, x :: q in strangers && x in all && Key(ps, x) == key && x != tail && ps[x].flag * ps[q].flag != {} ==>
      x in strangers
  }

  ghost predicate Poisonous(ps: map<nat, Packet>, all: set<nat>, key: u32, tail: nat, bit: nat, strangers: set<nat>) {
    && WellFormed(ps) && strangers <= all <= ps.Keys
    && tail in ps && Key(ps, tail) == key && bit in ALL
    && MeetTail(ps, key, tail, strangers)
    && OnlyTailHas(ps, all, key, tail, bit)
    && AmongThemselves(ps, all, key, tail, strangers)
  }

  /** The piece is not gathered, and was not collected. */
  ghost predicate IsOut(s: Simple, tail: nat) {
    tail !in s.held && forall i :: 0 <= i < |s.done| ==> tail !in s.done[i].pieces
  }

  ghost predicate Overlaps(a: set<nat>, b: set<nat>) {
    exists q :: q in a && q in b
  }

  lemma PoisonFate(ps: map<nat, Packet>, all: set<nat>, key: u32, tail: nat, bit: nat, strangers: set<nat>, held: set<nat>, n: nat)
    requires Poisonous(ps, all, key, tail, bit, strangers) && held <= all && n in all && tail !in held && Key(ps, n) == key
    ensures n == tail && Overlaps(held, strangers) ==> FateOf(ps, held, n) == TurnedAway
    ensures n != tail ==> FateOf(ps, held, n) != Completes
    ensures n in strangers && FateOf(ps, held, n) == TurnedAway ==> Overlaps(held, strangers)
  {
    var own := Under(ps, held, key);
    if n == tail && Overlaps(held, strangers) {
      var q :| q in held && q in strangers;
      assert q in own && ps[q].flag * ps[n].flag != {};
    }
    if n != tail {
      assert !HasBit(ps, own + {n}, bit);
    }
    if n in strangers && FateOf(ps, held, n) == TurnedAway {
      var x :| x in own && x in ps && ps[x].flag * ps[n].flag != {};
      assert x in held && x in strangers;
    }
  }

  /** The piece is out, and what is gathered comes from `all`. */
  ghost predicate KeptOut(s: Simple, all: set<nat>, tail: nat) {
    s.held <= all && IsOut(s, tail)
  }

  lemma PoisonStep(ps: map<nat, Packet>, all: set<nat>, key: u32, tail: nat, bit: nat, strangers: set<nat>, s: Simple, n: nat)
    requires Poisonous(ps, all, key, tail, bit, strangers) && KeptOut(s, all, tail) && n in all
    requires n == tail ==> Overlaps(s.held, strangers)
    ensures var s' := SimpleOne(ps, s, n);
            && KeptOut(s', all, tail)
            && (Overlaps(s.held, strangers) || n in strangers ==> Overlaps(s'.held, strangers))
  {
    var s' := SimpleOne(ps, s, n);
    Untouched(ps, s, n, tail);
    if Key(ps, n) == key {
      PoisonFate(ps, all, key, tail, bit, strangers, s.held, n);
      if FateOf(ps, s.held, n) == Kept && n in strangers {
        assert n in s'.held;
      }
    }
    if Overlaps(s.held, strangers) {
      var q :| q in s.held && q in strangers;
      Untouched(ps, s, n, q);
      assert q in s'.held;
    }
  }

  /** After the arrivals `o` the piece is out, and a stranger is in. */
  ghost predicate IsPoisoned(ps: map<nat, Packet>, all: set<nat>, tail: nat, strangers: set<nat>, o: seq<nat>)
    requires WellFormed(ps)
  {
    AllKnown(ps, o) && KeptOut(SimpleFeed(ps, o), all, tail) && Overlaps(SimpleFeed(ps, o).held, strangers)
  }

  lemma PoisonNext(ps: map<nat, Packet>, all: set<nat>, key: u32, tail: nat, bit: nat, strangers: set<nat>, o: seq<nat>, n: nat)
    requires Poisonous(ps, all, key, tail, bit, strangers) && IsPoisoned(ps, all, tail, strangers, o) && n in all
    ensures IsPoisoned(ps, all, tail, strangers, o + [n])
  {
    FeedLast(ps, o, n);
    PoisonStep(ps, all, key, tail, bit, strangers, SimpleFeed(ps, o), n);
  }

  lemma LastOf(order: seq<nat>, m: nat)
    requires 0 < m <= |order|
    ensures order[m - 1] in order && order[..m] == order[..m - 1] + [order[m - 1]]
  {
  }

  /** Once there, a stranger keeps the piece out for good. */
  lemma {:induction false} PoisonLasts(ps: map<nat, Packet>, all: set<nat>, key: u32, tail: nat, bit: nat, strangers: set<nat>,
                                       order: seq<nat>, k: nat, m: nat)
    requires Poisonous(ps, all, key, tail, bit, strangers) && k <= m <= |order|
    requires IsPoisoned(ps, all, tail, strangers, order[..k]) && forall x :: x in order ==> x in all
    ensures IsPoisoned(ps, all, tail, strangers, order[..m])
    decreases m
  {
    if k < m {
      PoisonLasts(ps, all, key, tail, bit, strangers, order, k, m - 1);
      LastOf(order, m);
      PoisonNext(ps, all, key, tail, bit, strangers, order[..m - 1], order[m - 1]);
    }
  }

  lemma PoisonBegins(ps: map<nat, Packet>, all: set<nat>, key: u32, tail: nat, bit: nat, strangers: set<nat>, o: seq<nat>, n: nat)
    requires Poisonous(ps, all, key, tail, bit, strangers) && (forall x :: x in o ==> x in all)
    requires n in strangers && tail !in o
    ensures IsPoisoned(ps, all, tail, strangers, o + [n])
  {
    assert AllKnown(ps, o);
    FeedIsFrom(ps, o);
    FeedLast(ps, o, n);
    PoisonStep(ps, all, key, tail, bit, strangers, SimpleFeed(ps, o), n);
  }

  /** A stranger that comes before the piece keeps it out. */
  lemma StrangerKeepsOut(ps: map<nat, Packet>, all: set<nat>, key: u32, tail: nat, bit: nat, strangers: set<nat>,
                         order: seq<nat>, k: nat)
    requires Poisonous(ps, all, key, tail, bit, strangers) && (forall x :: x in order ==> x in all)
    requires k < |order| && order[k] in strangers && tail !in order[..k]
    ensures AllKnown(ps, order) && IsOut(SimpleFeed(ps, order), tail)
  {
    PoisonBegins(ps, all, key, tail, bit, strangers, order[..k], order[k]);
    assert order[..k + 1] == order[..k] + [order[k]];
    PoisonLasts(ps, all, key, tail, bit, strangers, order, k + 1, |order|);
    assert order[..|order|] == order;
  }

  /**
   The table itself forgets what it has collected: whatever arrives after everything gathered was
   collected is treated as if it were the first. A second full set of pieces is collected again.
   */
  lemma {:induction false} TableForgets(ps: map<nat, Packet>, a: seq<nat>, b: seq<nat>)
    requires WellFormed(ps) && AllKnown(ps, a) && AllKnown(ps, b) && SimpleFeed(ps, a).held == {}
    ensures AllKnown(ps, a + b)
    ensures SimpleFeed(ps, a + b).held == SimpleFeed(ps, b).held
    ensures SimpleFeed(ps, a + b).done == SimpleFeed(ps, a).done + SimpleFeed(ps, b).done
    decreases |b|, 0
  {
    if b == [] {
      assert a + b == a;
    } else {
      var b', n := b[..|b| - 1], b[|b| - 1];
      assert b == b' + [n] && n in ps;
      ForgetsOne(ps, a, b', n);
    }
  }

  lemma {:induction false} ForgetsOne(ps: map<nat, Packet>, a: seq<nat>, b: seq<nat>, n: nat)
    requires WellFormed(ps) && AllKnown(ps, a) && AllKnown(ps, b) && n in ps && SimpleFeed(ps, a).held == {}
    ensures AllKnown(ps, a + (b + [n])) && AllKnown(ps, b + [n])
    ensures SimpleFeed(ps, a + (b + [n])).held == SimpleFeed(ps, b + [n]).held
    ensures SimpleFeed(ps, a + (b + [n])).done == SimpleFeed(ps, a).done + SimpleFeed(ps, b + [n]).done
    decreases |b|, 1
  {
    TableForgets(ps, a, b);
    FeedLast(ps, a + b, n);
    FeedLast(ps, b, n);
    assert a + (b + [n]) == (a + b) + [n];
    DoneIsHistory(ps, SimpleFeed(ps, a + b), SimpleFeed(ps, b), SimpleFeed(ps, a).done, n);
  }

  lemma FeedLast(ps: map<nat, Packet>, order: seq<nat>, n: nat)
    requires WellFormed(ps) && AllKnown(ps, order) && n in ps
    ensures AllKnown(ps, order + [n])
    ensures SimpleFeed(ps, order + [n]) == SimpleOne(ps, SimpleFeed(ps, order), n)
  {
    var more := order + [n];
    assert more[..|more| - 1] == order && more[|more| - 1] == n;
  }

  /** What was collected before does not matter to what comes. */
  lemma DoneIsHistory(ps: map<nat, Packet>, s: Simple, s': Simple, before: seq<Done>, n: nat)
    requires WellFormed(ps) && s.held <= ps.Keys && n in ps && s.held == s'.held && s.done == before + s'.done
    ensures SimpleOne(ps, s, n).held == SimpleOne(ps, s', n).held
    ensures SimpleOne(ps, s, n).done == before + SimpleOne(ps, s', n).done
  {
  }
}
