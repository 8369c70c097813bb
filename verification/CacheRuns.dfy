/**
 The cache buffers of a whole connection: its four ordered channels share one manager with each other,
 with gathering and with other sessions. In every state of every run the buffers in use are exactly
 those the channels keep and those others have taken, none of them twice.
 */
module CacheRuns {

  import opened Words
  import opened CacheBuffers
  import opened PacketFlags
  import opened Links
  import opened Connection
  import Runs
  import Rx = OrderedReceive

  ghost function Channels(w: World): (rs: seq<Rx.Simple>)
    requires |w.ordered| == 4
    ensures |rs| == 4
  {
    [w.ordered[0].r, w.ordered[1].r, w.ordered[2].r, w.ordered[3].r]
  }

  ghost predicate Kept(rs: seq<Rx.Simple>, id: nat) {
    exists c :: 0 <= c < |rs| && id in Rx.HeldIds(rs[c])
  }

  ghost predicate Accounted(r: Rx.Simple, m: Manager) {
    Rx.Conserved(r, m, m.used - Rx.HeldIds(r))
  }

  /** The buffers in use are those kept by the channels and those taken by others; nobody shares one. */
  ghost predicate Shared(rs: seq<Rx.Simple>, m: Manager, others: set<nat>) {
    && m.Valid()
    && (forall c :: 0 <= c < |rs| ==> Accounted(rs[c], m) && Rx.HeldIds(rs[c]) !! others)
    && (forall c, d :: 0 <= c < d < |rs| ==> Rx.HeldIds(rs[c]) !! Rx.HeldIds(rs[d]))
    && others <= m.used
    && (forall id :: id in m.used ==> Kept(rs, id) || id in others)
  }

  lemma Apart(rs: seq<Rx.Simple>, m: Manager, others: set<nat>, c: nat, d: nat)
    requires Shared(rs, m, others) && c < |rs| && d < |rs| && c != d
    ensures Rx.HeldIds(rs[c]) !! Rx.HeldIds(rs[d])
  {
  }

  /** A change of one channel that leaves what the others keep alone. */
  lemma OneChannel(rs: seq<Rx.Simple>, m: Manager, others: set<nat>, c: nat, r: Rx.Simple, m': Manager)
    requires Shared(rs, m, others) && c < |rs|
    requires Rx.Conserved(r, m', m.used - Rx.HeldIds(rs[c]))
    ensures Shared(rs[c := r], m', others)
  {
    var rs' := rs[c := r];
    forall d | 0 <= d < |rs'|
      ensures Accounted(rs'[d], m') && (d != c ==> Rx.HeldIds(rs'[d]) !! Rx.HeldIds(r))
    {
      assert Accounted(rs[d], m);
      if d != c {
        Apart(rs, m, others, c, d);
        StillAccounted(rs[d], rs[c], r, m, m');
      } else {
        assert m'.used - Rx.HeldIds(r) == m.used - Rx.HeldIds(rs[c]);
      }
    }
    forall id | id in m'.used && id !in others
      ensures Kept(rs', id)
    {
      StillKept(rs, m, others, c, r, m', id);
    }
  }

  /** Others take a buffer that nobody has, and give back only what they took. */
  lemma OthersChange(rs: seq<Rx.Simple>, m: Manager, others: set<nat>, id: nat)
    requires Shared(rs, m, others)
    ensures Shared(rs, m.Pop(), others + {m.Next()})
    ensures id in others ==> Shared(rs, m.Push(id), others - {id})
  {
    PopIsFresh(m);
    forall c | 0 <= c < |rs|
      ensures Accounted(rs[c], m.Pop())
    {
      assert Accounted(rs[c], m);
    }
    if id in others {
      PushReturns(m, id);
      forall c | 0 <= c < |rs|
        ensures Accounted(rs[c], m.Push(id))
      {
        assert Accounted(rs[c], m);
      }
    }
  }

  lemma StillAccounted(other: Rx.Simple, was: Rx.Simple, r: Rx.Simple, m: Manager, m': Manager)
    requires Accounted(other, m) && Rx.HeldIds(was) !! Rx.HeldIds(other)
    requires Rx.Conserved(r, m', m.used - Rx.HeldIds(was))
    ensures Accounted(other, m') && Rx.HeldIds(other) !! Rx.HeldIds(r)
  {
  }

  lemma StillKept(rs: seq<Rx.Simple>, m: Manager, others: set<nat>, c: nat, r: Rx.Simple, m': Manager, id: nat)
    requires Shared(rs, m, others) && c < |rs| && id in m'.used && id !in others
    requires Rx.Conserved(r, m', m.used - Rx.HeldIds(rs[c]))
    ensures Kept(rs[c := r], id)
  {
    var rs' := rs[c := r];
    if id in Rx.HeldIds(r) {
      assert id in Rx.HeldIds(rs'[c]);
    } else {
      assert Kept(rs, id);
      var d :| 0 <= d < |rs| && id in Rx.HeldIds(rs[d]);
      assert rs'[d] == rs[d];
    }
  }

  lemma ArrivalWrites(w: World, d: Datagram, c: nat)
    requires Shape(w) && RouteOf(d.flags) == Ordered(c)
    ensures c < 4
    ensures var l, w' := w.ordered[c], ArriveStep(w, d);
            && |w'.ordered| == 4 && Channels(w') == Channels(w)[c := Rx.SimpleReceive(l.r, w.mgr, d.n, d.data).a]
            && w'.mgr == Rx.Receive(l.rx, w.mgr, d.seqNo, d.data).mgr
  {
  }

  lemma ArrivalOutcome(w: World, d: Datagram, c: nat)
    requires Inv(w) && Enabled(w, Arrive(d)) && RouteOf(d.flags) == Ordered(c)
    ensures c < 4
    ensures var o, w' := Rx.SimpleReceive(w.ordered[c].r, w.mgr, d.n, d.data), ArriveStep(w, d);
            |w'.ordered| == 4 && Channels(w') == Channels(w)[c := o.a] && w'.mgr == o.mgr
  {
    ArrivalWrites(w, d, c);
    assert ChannelInv(w, c) && Genuine(w, d);
    Rx.ReceiveRefines(w.ordered[c].rx, w.ordered[c].r, w.mgr, d.n, d.data);
  }

  lemma ReceptionKeepsShared(rs: seq<Rx.Simple>, m: Manager, others: set<nat>, c: nat, n: nat, data: Bytes)
    requires Shared(rs, m, others) && c < |rs|
    ensures var o := Rx.SimpleReceive(rs[c], m, n, data); Shared(rs[c := o.a], o.mgr, others)
  {
    var o := Rx.SimpleReceive(rs[c], m, n, data);
    assert Accounted(rs[c], m);
    Rx.ReceiveConserves(rs[c], m, n, data, m.used - Rx.HeldIds(rs[c]));
    OneChannel(rs, m, others, c, o.a, o.mgr);
  }

  ghost predicate WorldShares(w: World) {
    |w.ordered| == 4 && Shared(Channels(w), w.mgr, w.others)
  }

  lemma ArrivalKeepsShared(w: World, d: Datagram)
    requires Inv(w) && WorldShares(w) && Enabled(w, Arrive(d)) && RouteOf(d.flags).Ordered?
    ensures WorldShares(ArriveStep(w, d))
  {
    var c := RouteOf(d.flags).channel;
    ArrivalOutcome(w, d, c);
    ReceptionKeepsShared(Channels(w), w.mgr, w.others, c, d.n, d.data);
  }

  lemma OtherStepsKeepShared(w: World, e: Event)
    requires Shape(w) && Enabled(w, e) && !(e.Arrive? && RouteOf(e.d.flags).Ordered?)
    ensures |Apply(w, e).ordered| == 4 && Channels(Apply(w, e)) == Channels(w)
    ensures !e.OtherTakes? && !e.OtherReturns? ==> Apply(w, e).mgr == w.mgr && Apply(w, e).others == w.others
  {
  }

  lemma StepKeepsShared(w: World, e: Event)
    requires Inv(w) && WorldShares(w) && Enabled(w, e)
    ensures WorldShares(Apply(w, e))
  {
    if e.Arrive? && RouteOf(e.d.flags).Ordered? {
      ArrivalKeepsShared(w, e.d);
    } else {
      OtherStepsKeepShared(w, e);
      OthersChange(Channels(w), w.mgr, w.others, if e.OtherReturns? then e.id else 0);
    }
  }

  lemma StartShared()
    ensures WorldShares(Start())
  {
    assert Rx.HeldIds(NewOrderedLink().r) == {};
  }

  lemma SharedNext(w: World, w': World)
    requires Inv(w) && WorldShares(w) && Step(w, w')
    ensures WorldShares(w')
  {
    var e :| Enabled(w, e) && w' == Apply(w, e);
    StepKeepsShared(w, e);
  }

  /**
   In every state of every run the manager has out exactly the buffers that the four channels keep
   and those that others have taken meanwhile, and no buffer is had twice.
   */
  lemma {:induction false} RunKeepsShared(run: seq<World>, i: nat)
    requires IsRun(run) && i < |run|
    ensures WorldShares(run[i])
  {
    if i == 0 {
      StartShared();
    } else {
      RunKeepsShared(run, i - 1);
      Runs.RunKeepsInv(run, i - 1);
      assert Step(run[i - 1], run[i - 1 + 1]);
      SharedNext(run[i - 1], run[i]);
    }
  }

  /** In every run other users get a buffer that nobody has, and no channel notices; and they can return any they have. */
  lemma OthersTakeFresh(run: seq<World>, i: nat)
    requires IsRun(run) && i < |run|
    ensures Shape(run[i])
    ensures var w, w' := run[i], Apply(run[i], OtherTakes);
            && w'.ordered == w.ordered
            && exists id: nat :: id !in w.mgr.used && w'.others == w.others + {id} && w'.mgr.used == w.mgr.used + {id}
    ensures forall id :: id in run[i].others ==>
              var w' := Apply(run[i], OtherReturns(id));
              w'.ordered == run[i].ordered && id !in w'.others && id !in w'.mgr.used
  {
    Runs.RunKeepsInv(run, i);
    RunKeepsShared(run, i);
    var m := run[i].mgr;
    PopIsFresh(m);
    assert m.Next() !in m.used;
  }

  /** A channel keeps as many buffers as its mask has bits set, in every state of every run. */
  lemma MaskCounts(run: seq<World>, i: nat, c: nat)
    requires IsRun(run) && i < |run| && c < 4
    ensures Shape(run[i])
    ensures |Rx.HeldIds(run[i].ordered[c].r)| == |Rx.Bits(run[i].ordered[c].rx.mask)|
  {
    Runs.RunKeepsInv(run, i);
    RunKeepsShared(run, i);
    assert ChannelInv(run[i], c);
    MaskCountsOne(run[i].ordered[c], Channels(run[i])[c], run[i].mgr);
  }

  lemma MaskCountsOne(l: OrderedLink, r: Rx.Simple, m: Manager)
    requires l.Inv() && l.r == r && Accounted(r, m)
    ensures |Rx.HeldIds(r)| == |Rx.Bits(l.rx.mask)|
  {
    Rx.MaskCountsBuffers(l.rx, r, m, m.used - Rx.HeldIds(r));
    assert m.used - (m.used - Rx.HeldIds(r)) == Rx.HeldIds(r);
  }
}
