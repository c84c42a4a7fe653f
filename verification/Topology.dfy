/**
 Link discovery (discovery.py) and the adjacency and route cache l2_multi.py derives from it. The two
 components run in one thread: every change of Discovery's link table is followed at once by
 l2_multi's handler for the LinkEvent it raises.
 */
module Topology {
  import opened Walks
  import opened Routes

  datatype Link = Link(dpid1: Switch, port1: Port, dpid2: Switch, port2: Port)

  function Flip(l: Link): Link { Link(l.dpid2, l.port2, l.dpid1, l.port1) }

  /** From Link to the time it was last heard of. */
  type LinkTable = map<Link, int>

  /** `l` joins d1 to d2 and has been heard of in both directions. */
  ghost predicate Live(links: LinkTable, d1: Switch, d2: Switch, l: Link) {
    l in links && Flip(l) in links && l.dpid1 == d1 && l.dpid2 == d2
  }

  /** For distinct switches the adjacency holds exactly the pairs joined in both directions, and its
      two ports are the two ends of one such link. */
  ghost predicate Mirrors(adj: Adjacency, links: LinkTable) {
    forall d1, d2 :: d1 != d2 ==> MirrorsPair(adj, links, d1, d2)
  }

  ghost predicate MirrorsPair(adj: Adjacency, links: LinkTable, d1: Switch, d2: Switch) {
    && ((d1, d2) in adj <==> exists l :: Live(links, d1, d2, l))
    && ((d1, d2) in adj ==>
          (d2, d1) in adj && exists l :: Live(links, d1, d2, l) && adj[(d1, d2)] == l.port1 && adj[(d2, d1)] == l.port2)
  }

  function Connect(adj: Adjacency, l: Link): Adjacency {
    adj[(l.dpid1, l.dpid2) := l.port1][(l.dpid2, l.dpid1) := l.port2]
  }

  function Disconnect(adj: Adjacency, l: Link): Adjacency {
    adj - {(l.dpid1, l.dpid2), (l.dpid2, l.dpid1)}
  }

  lemma LiveFlips(links: LinkTable, d1: Switch, d2: Switch, l: Link)
    requires Live(links, d1, d2, l)
    ensures Live(links, d2, d1, Flip(l)) && Flip(Flip(l)) == l
  {
  }

  /** What holds of (d1, d2) holds of (d2, d1). */
  lemma PairFlips(adj: Adjacency, links: LinkTable, d1: Switch, d2: Switch)
    requires MirrorsPair(adj, links, d1, d2)
    requires (d2, d1) in adj ==> (d1, d2) in adj
    ensures MirrorsPair(adj, links, d2, d1)
  {
    forall l | Live(links, d2, d1, l) ensures (d2, d1) in adj {
      LiveFlips(links, d2, d1, l);
    }
    if (d1, d2) in adj {
      var l :| Live(links, d1, d2, l) && adj[(d1, d2)] == l.port1 && adj[(d2, d1)] == l.port2;
      LiveFlips(links, d1, d2, l);
      assert Live(links, d2, d1, Flip(l)) && adj[(d2, d1)] == Flip(l).port1 && adj[(d1, d2)] == Flip(l).port2;
    }
  }

  // ---- a link is heard of for the first time

  /** The branch of `_handle_LinkEvent` for an added link. */
  function OnAdded(adj: Adjacency, links: LinkTable, l: Link): Adjacency {
    if (l.dpid1, l.dpid2) !in adj && Flip(l) in links then Connect(adj, l) else adj
  }

  /** A pair whose links and whose adjacency entries did not change still mirrors. */
  lemma PairUntouched(adj: Adjacency, links: LinkTable, adj': Adjacency, links': LinkTable, d1: Switch, d2: Switch)
    requires MirrorsPair(adj, links, d1, d2)
    requires forall k :: Live(links', d1, d2, k) <==> Live(links, d1, d2, k)
    requires PortTo(adj', d1, d2) == PortTo(adj, d1, d2) && PortTo(adj', d2, d1) == PortTo(adj, d2, d1)
    ensures MirrorsPair(adj', links', d1, d2)
  {
    if (d1, d2) in adj {
      var k :| Live(links, d1, d2, k) && adj[(d1, d2)] == k.port1 && adj[(d2, d1)] == k.port2;
      assert Live(links', d1, d2, k);
    }
  }

  lemma AddedOther(adj: Adjacency, links: LinkTable, l: Link, now: int, d1: Switch, d2: Switch)
    requires MirrorsPair(adj, links, d1, d2) && d1 != d2
    requires (d1, d2) != (l.dpid1, l.dpid2) && (d2, d1) != (l.dpid1, l.dpid2)
    ensures MirrorsPair(OnAdded(adj, links[l := now], l), links[l := now], d1, d2)
  {
    PairUntouched(adj, links, OnAdded(adj, links[l := now], l), links[l := now], d1, d2);
  }

  lemma LiveBefore(links: LinkTable, l: Link, now: int, k: Link)
    requires l.dpid1 != l.dpid2
    ensures Live(links[l := now], l.dpid1, l.dpid2, k) ==> k == l || Live(links, l.dpid1, l.dpid2, k)
  {
    assert Flip(k) == l ==> k.dpid1 == l.dpid2;
  }

  lemma AddedSame(adj: Adjacency, links: LinkTable, l: Link, now: int)
    requires MirrorsPair(adj, links, l.dpid1, l.dpid2) && l !in links && l.dpid1 != l.dpid2
    ensures MirrorsPair(OnAdded(adj, links[l := now], l), links[l := now], l.dpid1, l.dpid2)
  {
    var links' := links[l := now];
    var d1, d2 := l.dpid1, l.dpid2;
    var adj' := OnAdded(adj, links', l);
    forall k | Live(links, d1, d2, k) ensures Live(links', d1, d2, k) {
    }
    if (d1, d2) in adj {
      assert adj' == adj;
    } else if Flip(l) in links' {
      assert Live(links', d1, d2, l);
    } else {
      forall k ensures !Live(links', d1, d2, k) {
        LiveBefore(links, l, now, k);
      }
    }
  }

  lemma AddedMirrors(adj: Adjacency, links: LinkTable, l: Link, now: int)
    requires Mirrors(adj, links) && l !in links
    ensures Mirrors(OnAdded(adj, links[l := now], l), links[l := now])
  {
    var links' := links[l := now];
    var adj' := OnAdded(adj, links', l);
    forall d1, d2 | d1 != d2 ensures MirrorsPair(adj', links', d1, d2) {
      assert MirrorsPair(adj, links, d1, d2) && MirrorsPair(adj, links, d2, d1);
      if (d1, d2) == (l.dpid1, l.dpid2) {
        AddedSame(adj, links, l, now);
      } else if (d2, d1) == (l.dpid1, l.dpid2) {
        AddedSame(adj, links, l, now);
        PairFlips(adj', links', d2, d1);
      } else {
        AddedOther(adj, links, l, now, d1, d2);
      }
    }
  }

  // ---- a link has expired or its switch has gone

  /** The branch of `_handle_LinkEvent` for a removed link: forget the pair, then look for another
      link between the two switches that goes both ways. Which one is found depends on the order of the table. */
  ghost predicate OnRemoved(adj: Adjacency, links: LinkTable, l: Link, adj': Adjacency) {
    var cut := Disconnect(adj, l);
    || (exists ll :: Live(links, l.dpid1, l.dpid2, ll) && adj' == Connect(cut, ll))
    || ((forall ll :: !Live(links, l.dpid1, l.dpid2, ll)) && adj' == cut)
  }

  lemma RemovedMirrors(adj: Adjacency, links: LinkTable, l: Link, adj': Adjacency)
    requires Mirrors(adj, links) && l in links && OnRemoved(adj, links - {l}, l, adj')
    ensures Mirrors(adj', links - {l})
  {
    var links' := links - {l};
    forall d1, d2 | d1 != d2 ensures MirrorsPair(adj', links', d1, d2) {
      assert MirrorsPair(adj, links, d1, d2) && MirrorsPair(adj, links, d2, d1);
      if (d1, d2) == (l.dpid1, l.dpid2) {
      } else if (d2, d1) == (l.dpid1, l.dpid2) {
        PairFlips(adj', links', d2, d1);
      } else {
        forall k ensures Live(links', d1, d2, k) <==> Live(links, d1, d2, k) {
          assert Flip(k) == l ==> k.dpid1 == l.dpid2 && k.dpid2 == l.dpid1;
        }
        PairUntouched(adj, links, adj', links', d1, d2);
      }
    }
  }

  lemma RefreshedMirrors(adj: Adjacency, links: LinkTable, l: Link, now: int)
    requires Mirrors(adj, links) && l in links
    ensures Mirrors(adj, links[l := now])
  {
    var links' := links[l := now];
    forall d1, d2 | d1 != d2 ensures MirrorsPair(adj, links', d1, d2) {
      assert MirrorsPair(adj, links, d1, d2);
      PairUntouched(adj, links, adj, links', d1, d2);
    }
  }
}
