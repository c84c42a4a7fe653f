/** The two components together: what every event keeps, and what a route request returns in terms of the links
 discovered so far. */
module Network {
  import opened Walks
  import opened Wrappers
  import opened FloydWarshall
  import opened Routes
  import opened Topology

  const LINK_TIMEOUT := 10

  /** `dps` and `links` are Discovery's `_dps` and `adjacency`; the rest are l2_multi's globals. */
  datatype Net = Net(dps: set<Switch>, links: LinkTable, switches: set<Switch>, adjacency: Adjacency, pathMap: PathMap)

  const EMPTY := Net({}, map[], {}, map[], map[])

  ghost predicate Ends(links: LinkTable, sws: set<Switch>) {
    forall l :: l in links ==> l.dpid1 in sws && l.dpid2 in sws
  }

  /** The cache is empty, or exact for the adjacency as it is now over some of the switches, among them every one
      with a neighbour. */
  ghost predicate CacheOk(adj: Adjacency, m: PathMap, switches: set<Switch>) {
    m == map[] || exists sws :: sws <= switches && Table(adj, m, sws)
  }

  ghost predicate Inv(n: Net) {
    && n.dps <= n.switches && Ends(n.links, n.switches)
    && Closed(n.adjacency, n.switches)
    && Mirrors(n.adjacency, n.links)
    && CacheOk(n.adjacency, n.pathMap, n.switches)
  }

  // ---- events

  datatype Event =
    | SwitchUp(dpid: Switch)
    | SwitchDown(dpid: Switch)
    | Heard(link: Link, now: int)
    | Expire(now: int)
    | Route(src: Switch, dst: Switch)

  /** One pass of `_deleteLinks`: the link leaves Discovery's table and l2_multi handles the event. */
  ghost predicate RemovesOne(n: Net, l: Link, n': Net) {
    && l in n.links
    && n'.links == n.links - {l}
    && OnRemoved(n.adjacency, n'.links, l, n'.adjacency)
    && n'.pathMap == map[] && n'.dps == n.dps && n'.switches == n.switches
  }

  /** The links of `gone` are removed one after another, in some order. */
  ghost predicate RemovesAll(n: Net, gone: set<Link>, n': Net)
    decreases |gone|
  {
    if gone == {} then n' == n
    else exists l, mid :: l in gone && RemovesOne(n, l, mid) && RemovesAll(mid, gone - {l}, n')
  }

  function Touching(links: LinkTable, dpid: Switch): set<Link> {
    set l | l in links && (l.dpid1 == dpid || l.dpid2 == dpid)
  }

  function Stale(links: LinkTable, now: int): set<Link> {
    set l | l in links && now - links[l] > LINK_TIMEOUT
  }

  /** What one event does to the state. A port heard by itself, and a neighbour that is not connected, are ignored;
      the switch that heard need only have connected at some time. */
  ghost predicate Handles(n: Net, ev: Event, n': Net) {
    match ev
    case SwitchUp(d) =>
      d !in n.dps && n' == n.(dps := n.dps + {d}, switches := n.switches + {d})
    case SwitchDown(d) =>
      d in n.dps && RemovesAll(n.(dps := n.dps - {d}), Touching(n.links, d), n')
    case Heard(l, now) =>
      && l.dpid2 in n.switches
      && if l.dpid1 !in n.dps || (l.dpid1, l.port1) == (l.dpid2, l.port2) then n' == n
         else if l in n.links then n' == n.(links := n.links[l := now])
         else n' == n.(links := n.links[l := now], pathMap := map[],
                       adjacency := OnAdded(n.adjacency, n.links[l := now], l))
    case Expire(now) =>
      RemovesAll(n, Stale(n.links, now), n')
    case Route(src, dst) =>
      && src in n.switches && dst in n.switches
      && n' == n.(pathMap := n'.pathMap)
      && (n'.pathMap == n.pathMap || (n.pathMap == map[] && Table(n.adjacency, n'.pathMap, n.switches)))
  }

  // ---- every event keeps the invariant

  ghost predicate Core(n: Net) {
    && Ends(n.links, n.switches) && Closed(n.adjacency, n.switches) && Mirrors(n.adjacency, n.links)
  }

  lemma RemovesOneKeeps(n: Net, l: Link, n': Net)
    requires Core(n) && RemovesOne(n, l, n')
    ensures Core(n')
  {
    RemovedMirrors(n.adjacency, n.links, l, n'.adjacency);
  }

  lemma OneThenOthers(all: LinkTable, gone: set<Link>, l: Link)
    requires l in gone
    ensures all - {l} - (gone - {l}) == all - gone
  {
  }

  lemma {:induction false} RemovesAllKeeps(n: Net, gone: set<Link>, n': Net)
    requires Core(n) && RemovesAll(n, gone, n')
    ensures Core(n') && n'.links == n.links - gone
    ensures n'.dps == n.dps && n'.switches == n.switches
    ensures gone != {} ==> n'.pathMap == map[]
    ensures gone == {} ==> n' == n
    decreases |gone|
  {
    if gone != {} {
      var l, mid :| l in gone && RemovesOne(n, l, mid) && RemovesAll(mid, gone - {l}, n');
      RemovesOneKeeps(n, l, mid);
      RemovesAllKeeps(mid, gone - {l}, n');
      OneThenOthers(n.links, gone, l);
    }
  }

  lemma HandlesKeepsInv(n: Net, ev: Event, n': Net)
    requires Inv(n) && Handles(n, ev, n')
    ensures Inv(n')
  {
    match ev
    case SwitchUp(d) =>
    case SwitchDown(d) =>
      RemovesAllKeeps(n.(dps := n.dps - {d}), Touching(n.links, d), n');
      assert n'.links.Keys <= n.links.Keys;
    case Heard(l, now) =>
      if l in n.links {
        RefreshedMirrors(n.adjacency, n.links, l, now);
      } else {
        AddedMirrors(n.adjacency, n.links, l, now);
      }
    case Expire(now) =>
      RemovesAllKeeps(n, Stale(n.links, now), n');
      assert n'.links.Keys <= n.links.Keys;
    case Route(src, dst) =>
  }

  ghost predicate IsRun(run: seq<Net>) {
    && run != [] && run[0] == EMPTY
    && forall i, j :: 0 <= i && j == i + 1 && j < |run| ==> exists ev :: Handles(run[i], ev, run[j])
  }

  /** Over any run of switch arrivals and losses, links heard of and expired, and route requests, the
      adjacency mirrors the links known in both directions and the cache is empty or exact. */
  lemma {:induction false} RunKeepsInv(run: seq<Net>, k: nat)
    requires IsRun(run) && k < |run|
    ensures Inv(run[k])
  {
    if k > 0 {
      RunKeepsInv(run, k - 1);
      var ev :| Handles(run[k - 1], ev, run[k]);
      HandlesKeepsInv(run[k - 1], ev, run[k]);
    }
  }

  // ---- which links come and go

  /** A lost switch takes exactly its own links with it; the others keep the time they were last heard of. */
  lemma LostSwitchTakesItsLinks(n: Net, d: Switch, n': Net)
    requires Inv(n) && Handles(n, SwitchDown(d), n')
    ensures n'.links == map l | l in n.links && l.dpid1 != d && l.dpid2 != d :: n.links[l]
    ensures n'.dps == n.dps - {d} && n'.switches == n.switches
  {
    RemovesAllKeeps(n.(dps := n.dps - {d}), Touching(n.links, d), n');
  }

  /** Expiry leaves exactly the links heard of in the last ten seconds. */
  lemma ExpiryLeavesFresh(n: Net, now: int, n': Net)
    requires Inv(n) && Handles(n, Expire(now), n')
    ensures n'.links == map l | l in n.links && now - n.links[l] <= 10 :: n.links[l]
    ensures n'.dps == n.dps && n'.switches == n.switches
  {
    RemovesAllKeeps(n, Stale(n.links, now), n');
  }

  /** A link heard of again outlives the next expiry if that comes within ten seconds. */
  lemma HeardOutlivesExpiry(n: Net, l: Link, t: int, n1: Net, now: int, n2: Net)
    requires Inv(n) && Handles(n, Heard(l, t), n1) && Handles(n1, Expire(now), n2)
    requires l.dpid1 in n.dps && (l.dpid1, l.port1) != (l.dpid2, l.port2) && now - t <= 10
    ensures l in n2.links && n2.links[l] == t
  {
    HandlesKeepsInv(n, Heard(l, t), n1);
    ExpiryLeavesFresh(n1, now, n2);
  }

  // ---- what a route means for the links

  ghost predicate Linked(links: LinkTable, d1: Switch, d2: Switch) {
    d1 != d2 && exists l :: Live(links, d1, d2, l)
  }

  /** A walk over pairs of distinct switches joined in both directions. */
  ghost predicate IsLinkWalk(links: LinkTable, p: seq<Switch>, i: Switch, j: Switch) {
    && p != [] && p[0] == i && p[|p| - 1] == j
    && forall a, b :: 0 <= a && b == a + 1 && b < |p| ==> Linked(links, p[a], p[b])
  }

  lemma LinkWalkIsWalk(adj: Adjacency, links: LinkTable, p: seq<Switch>, i: Switch, j: Switch)
    requires Mirrors(adj, links) && IsLinkWalk(links, p, i, j)
    ensures IsWalk(adj, p, i, j)
  {
    forall a, b | 0 <= a && b == a + 1 && b < |p| ensures (p[a], p[b]) in adj {
      assert Linked(links, p[a], p[b]) && MirrorsPair(adj, links, p[a], p[b]);
    }
  }

  lemma WalkIsLinkWalk(adj: Adjacency, links: LinkTable, p: seq<Switch>, i: Switch, j: Switch)
    requires Mirrors(adj, links) && IsWalk(adj, p, i, j) && Distinct(p)
    ensures IsLinkWalk(links, p, i, j)
  {
    forall a, b | 0 <= a && b == a + 1 && b < |p| ensures Linked(links, p[a], p[b]) {
      assert (p[a], p[b]) in adj && MirrorsPair(adj, links, p[a], p[b]);
    }
  }

  /** A pair of switches is joined by a cable that has been heard from both ends. */
  lemma LinkedMeans(links: LinkTable, d1: Switch, d2: Switch)
    ensures Linked(links, d1, d2)
       <==> d1 != d2 && exists p1, p2 :: Link(d1, p1, d2, p2) in links && Link(d2, p2, d1, p1) in links
  {
    if d1 != d2 {
      forall p1, p2 | Link(d1, p1, d2, p2) in links && Link(d2, p2, d1, p1) in links ensures Linked(links, d1, d2) {
        assert Live(links, d1, d2, Link(d1, p1, d2, p2));
      }
      if Linked(links, d1, d2) {
        var l :| Live(links, d1, d2, l);
        assert Link(d1, l.port1, d2, l.port2) == l && Link(d2, l.port2, d1, l.port1) == Flip(l);
      }
    }
  }

  function SwitchesOf(r: seq<Hop>): seq<Switch> { seq(|r|, i requires 0 <= i < |r| => r[i].sw) }

  ghost predicate LeavesByLink(links: LinkTable, hop: Hop, next: Switch) {
    exists l :: Live(links, hop.sw, next, l) && hop.port == Some(l.port1)
  }

  /** The answer to a route request, judged by Discovery's table alone: None exactly when no chain of
      two-way links joins the switches; otherwise a shortest such chain without repeats, every hop
      leaving by the port of a two-way link to the next switch, the last by the port asked for. */
  ghost predicate RouteOk(links: LinkTable, src: Switch, dst: Switch, finalPort: Port, r: Option<seq<Hop>>) {
    match r
    case None => forall p :: !IsLinkWalk(links, p, src, dst)
    case Some(hops) =>
      var path := SwitchesOf(hops);
      && IsLinkWalk(links, path, src, dst)
      && (forall p :: IsLinkWalk(links, p, src, dst) ==> |path| <= |p|)
      && Distinct(path)
      && (forall a :: 0 <= a < |hops| - 1 ==> LeavesByLink(links, hops[a], hops[a + 1].sw))
      && hops[|hops| - 1].port == Some(finalPort)
  }

  lemma CookedRouteOk(adj: Adjacency, links: LinkTable, path: seq<Switch>,
                      src: Switch, dst: Switch, finalPort: Port, hops: seq<Hop>)
    requires Mirrors(adj, links) && IsWalk(adj, path, src, dst) && Shortest(adj, src, dst, |path| - 1) && Distinct(path)
    requires Cooked(adj, path, finalPort, hops)
    ensures RouteOk(links, src, dst, finalPort, Some(hops))
  {
    assert SwitchesOf(hops) == path;
    WalkIsLinkWalk(adj, links, path, src, dst);
    forall p | IsLinkWalk(links, p, src, dst) ensures |path| <= |p| {
      LinkWalkIsWalk(adj, links, p, src, dst);
    }
    forall a | 0 <= a < |hops| - 1 ensures LeavesByLink(links, hops[a], hops[a + 1].sw) {
      var b := a + 1;
      assert (path[a], path[b]) in adj && MirrorsPair(adj, links, path[a], path[b]);
      var l :| Live(links, path[a], path[b], l) && adj[(path[a], path[b])] == l.port1;
      assert hops[a].port == PortTo(adj, path[a], path[b]) == Some(l.port1);
    }
  }

  lemma NoRouteOk(adj: Adjacency, links: LinkTable, src: Switch, dst: Switch, finalPort: Port)
    requires Mirrors(adj, links) && forall p :: !IsWalk(adj, p, src, dst)
    ensures RouteOk(links, src, dst, finalPort, None)
  {
    forall p ensures !IsLinkWalk(links, p, src, dst) {
      if IsLinkWalk(links, p, src, dst) {
        LinkWalkIsWalk(adj, links, p, src, dst);
        assert false;
      }
    }
  }

  /** Once a switch is lost no request to or from it finds a route. */
  lemma LostSwitchHasNoRoute(n: Net, d: Switch, n': Net, src: Switch, dst: Switch, finalPort: Port, r: Option<seq<Hop>>)
    requires Inv(n) && Handles(n, SwitchDown(d), n') && (src == d || dst == d) && src != dst
    requires RouteOk(n'.links, src, dst, finalPort, r)
    ensures r.None?
  {
    LostSwitchTakesItsLinks(n, d, n');
    if r.Some? {
      LinkWalkEnds(n'.links, SwitchesOf(r.value), src, dst);
    }
  }

  /** A walk over links starts with a link from its first switch and ends with one to its last. */
  lemma LinkWalkEnds(links: LinkTable, p: seq<Switch>, i: Switch, j: Switch)
    requires IsLinkWalk(links, p, i, j) && i != j
    ensures (exists l :: l in links && l.dpid1 == i) && exists l :: l in links && l.dpid2 == j
  {
    var z := |p| - 1;
    assert Linked(links, p[0], p[1]) && Linked(links, p[z - 1], p[z]);
    var l :| Live(links, p[0], p[1], l);
    var m :| Live(links, p[z - 1], p[z], m);
  }

  /** As soon as a cable between two connected switches has been heard of from both ends, a request finds the way over
      it, or over another cable between the two. */
  lemma TwoWayCableIsUsed(n: Net, d1: Switch, p1: Port, d2: Switch, p2: Port, t1: int, t2: int, n1: Net, n2: Net,
                          finalPort: Port, r: Option<seq<Hop>>)
    requires Inv(n) && d1 in n.dps && d2 in n.dps && d1 != d2
    requires Handles(n, Heard(Link(d1, p1, d2, p2), t1), n1) && Handles(n1, Heard(Link(d2, p2, d1, p1), t2), n2)
    requires RouteOk(n2.links, d1, d2, finalPort, r)
    ensures r.Some? && SwitchesOf(r.value) == [d1, d2] && r.value[1].port == Some(finalPort)
    ensures exists q1, q2 :: Link(d1, q1, d2, q2) in n2.links && Link(d2, q2, d1, q1) in n2.links
                          && r.value[0].port == Some(q1)
  {
    assert Link(d1, p1, d2, p2) in n2.links && Link(d2, p2, d1, p1) in n2.links;
    LinkedMeans(n2.links, d1, d2);
    assert IsLinkWalk(n2.links, [d1, d2], d1, d2);
    var path := SwitchesOf(r.value);
    assert |path| == 2 && path == [d1, d2];
    assert LeavesByLink(n2.links, r.value[0], r.value[1].sw);
    var l :| Live(n2.links, d1, d2, l) && r.value[0].port == Some(l.port1);
    assert Link(d1, l.port1, d2, l.port2) == l && Link(d2, l.port2, d1, l.port1) == Flip(l);
  }

  /** A switch that joined after the table was computed has no neighbour yet, and the table rightly has no entry for
      it. */
  lemma NewcomerUnreachable(adj: Adjacency, m: PathMap, sws: set<Switch>, i: Switch, j: Switch)
    requires Table(adj, m, sws) && i != j && (i !in sws || j !in sws)
    ensures (i, j) !in m && forall p :: !IsWalk(adj, p, i, j)
  {
    forall p ensures !IsWalk(adj, p, i, j) {
      if IsWalk(adj, p, i, j) {
        WalkStaysInside(adj, p, i, j, sws);
        assert false;
      }
    }
  }

  /** Reading the cache, however old, answers as the adjacency of this moment would. */
  lemma CacheAnswers(adj: Adjacency, m: PathMap, sws: set<Switch>, i: Switch, j: Switch)
    requires Table(adj, m, sws) && Splits(m)
    ensures var r := FullPath(m, i, j);
            && (r.None? <==> forall p :: !IsWalk(adj, p, i, j))
            && (r.Some? ==>
                  IsWalk(adj, r.value, i, j) && Shortest(adj, i, j, |r.value| - 1) && Distinct(r.value))
  {
    if i in sws && j in sws {
      FullPathIsShortest(adj, m, sws, i, j);
    } else if i == j {
      assert IsWalk(adj, [i], i, i);
    } else {
      NewcomerUnreachable(adj, m, sws, i, j);
    }
  }

  // ---- the components

  class Controller {
    var dps: set<Switch>
    var links: LinkTable
    var switches: set<Switch>
    var adjacency: Adjacency
    var pathMap: PathMap

    ghost function View(): Net
      reads this
    {
      Net(dps, links, switches, adjacency, pathMap)
    }

    constructor ()
      ensures View() == EMPTY
    {
      dps, links, switches, adjacency, pathMap := {}, map[], {}, map[], map[];
    }

    /** Both components' `_handle_ConnectionUp`; Discovery asserts that the switch is not yet connected. */
    method ConnectionUp(dpid: Switch)
      requires Inv(View()) && dpid !in dps
      modifies this
      ensures Handles(old(View()), SwitchUp(dpid), View()) && Inv(View())
    {
      dps := dps + {dpid};
      if dpid !in switches {
        switches := switches + {dpid};
      }
      HandlesKeepsInv(old(View()), SwitchUp(dpid), View());
    }

    /** `_handle_LinkEvent`. The switches are looked up without a check, so they must be known. */
    method HandleLinkEvent(l: Link, removed: bool)
      requires l.dpid1 in switches && l.dpid2 in switches
      modifies this`adjacency, this`pathMap
      ensures pathMap == map[]
      ensures removed ==> OnRemoved(old(adjacency), links, l, adjacency)
      ensures !removed ==> adjacency == OnAdded(old(adjacency), links, l)
    {
      pathMap := map[];
      var sw1, sw2 := l.dpid1, l.dpid2;
      if removed {
        adjacency := adjacency - {(sw1, sw2), (sw2, sw1)};
        var todo := links.Keys;
        while todo != {}
          invariant todo <= links.Keys
          invariant adjacency == Disconnect(old(adjacency), l)
          invariant forall ll :: Live(links, sw1, sw2, ll) ==> ll in todo
        {
          var ll :| ll in todo;
          if ll.dpid1 == sw1 && ll.dpid2 == sw2 {
            if Flip(ll) in links {
              adjacency := adjacency[(sw1, sw2) := ll.port1][(sw2, sw1) := ll.port2];
              assert Live(links, sw1, sw2, ll);
              return;
            }
          }
          todo := todo - {ll};
        }
      } else {
        if (sw1, sw2) !in adjacency {
          if Flip(l) in links {
            adjacency := adjacency[(sw1, sw2) := l.port1][(sw2, sw1) := l.port2];
          }
        }
      }
    }

    /** `_deleteLinks`. */
    method DeleteLinks(gone: set<Link>)
      requires Core(View()) && gone <= links.Keys
      modifies this`links, this`adjacency, this`pathMap
      ensures RemovesAll(old(View()), gone, View())
      decreases |gone|
    {
      if gone != {} {
        var l :| l in gone;
        links := links - {l};
        HandleLinkEvent(l, true);
        ghost var mid := View();
        RemovesOneKeeps(old(View()), l, mid);
        DeleteLinks(gone - {l});
        assert l in gone && RemovesOne(old(View()), l, mid) && RemovesAll(mid, gone - {l}, View());
      }
    }

    method ConnectionDown(dpid: Switch)
      requires Inv(View()) && dpid in dps
      modifies this
      ensures Handles(old(View()), SwitchDown(dpid), View()) && Inv(View())
      ensures links == map l | l in old(links) && l.dpid1 != dpid && l.dpid2 != dpid :: old(links)[l]
    {
      dps := dps - {dpid};
      DeleteLinks(Touching(links, dpid));
      HandlesKeepsInv(old(View()), SwitchDown(dpid), View());
      LostSwitchTakesItsLinks(old(View()), dpid, View());
    }

    /** The end of Discovery's `_handle_PacketIn`; the receiving switch may have disconnected since. */
    method PacketIn(link: Link, now: int)
      requires Inv(View()) && link.dpid2 in switches
      modifies this
      ensures Handles(old(View()), Heard(link, now), View()) && Inv(View())
    {
      HandlesKeepsInvForall(View(), Heard(link, now));
      if link.dpid1 !in dps {
        return;
      }
      if (link.dpid1, link.port1) == (link.dpid2, link.port2) {
        return;
      }
      if link !in links {
        links := links[link := now];
        HandleLinkEvent(link, false);
      } else {
        links := links[link := now];
      }
    }

    method ExpireLinks(now: int)
      requires Inv(View())
      modifies this
      ensures Handles(old(View()), Expire(now), View()) && Inv(View())
      ensures links == map l | l in old(links) && now - old(links)[l] <= 10 :: old(links)[l]
    {
      var deleteme := Stale(links, now);
      DeleteLinks(deleteme);
      HandlesKeepsInv(old(View()), Expire(now), View());
      ExpiryLeavesFresh(old(View()), now, View());
    }

    /** The first line of `_get_raw_path`: fill the cache if it is empty. `sws` is `switches.values()`
        in whatever order the dictionary has. */
    method FillCache(sws: seq<Switch>) returns (ghost known: set<Switch>)
      requires Inv(View()) && sws != [] && Distinct(sws) && Elements(sws) == switches
      modifies this`pathMap
      ensures pathMap == old(pathMap) || (old(pathMap) == map[] && Table(adjacency, pathMap, switches))
      ensures known <= switches && Table(adjacency, pathMap, known)
    {
      if pathMap == map[] {
        pathMap := CalcPaths(sws, adjacency);
        known := switches;
      } else {
        known :| known <= switches && Table(adjacency, pathMap, known);
      }
    }

    /** `_get_path`. */
    method GetPath(src: Switch, dst: Switch, finalPort: Port, sws: seq<Switch>) returns (r: Option<seq<Hop>>)
      requires Inv(View()) && src in switches && dst in switches
      requires Distinct(sws) && Elements(sws) == switches
      modifies this`pathMap
      ensures Handles(old(View()), Route(src, dst), View()) && Inv(View())
      ensures RouteOk(links, src, dst, finalPort, r)
    {
      ghost var known := FillCache(sws);
      HandlesKeepsInv(old(View()), Route(src, dst), View());
      r := ReadPath(adjacency, pathMap, src, dst, finalPort, links, known);
    }
  }

  /** The rest of `_get_path`, on a filled table. */
  method ReadPath(adj: Adjacency, m: PathMap, src: Switch, dst: Switch, finalPort: Port,
                  ghost links: LinkTable, ghost sws: set<Switch>) returns (r: Option<seq<Hop>>)
    requires Mirrors(adj, links) && Table(adj, m, sws)
    ensures RouteOk(links, src, dst, finalPort, r)
  {
    TableSplits(adj, m, sws);
    ReadPathOk(adj, m, sws, links, src, dst, finalPort);
    var path := FullPath(m, src, dst);
    if path.None? {
      r := None;
    } else {
      var hops := CookPath(adj, path.value, finalPort);
      r := Some(hops);
    }
  }

  /** The loop of `_get_path` and its own `assert _check_path(r)`. */
  method CookPath(adj: Adjacency, path: seq<Switch>, finalPort: Port) returns (hops: seq<Hop>)
    requires path != []
    ensures Cooked(adj, path, finalPort, hops)
  {
    hops := Cook(adj, path, finalPort);
    var ok := CheckPath(adj, hops);
    assert ok;
  }

  /** Whatever the loop over the path makes of it is a right answer. */
  lemma ReadPathOk(adj: Adjacency, m: PathMap, sws: set<Switch>, links: LinkTable,
                   src: Switch, dst: Switch, finalPort: Port)
    requires Mirrors(adj, links) && Table(adj, m, sws) && Splits(m)
    ensures var r := FullPath(m, src, dst);
            && (r.None? ==> RouteOk(links, src, dst, finalPort, None))
            && (r.Some? ==> r.value != [] && forall hops :: Cooked(adj, r.value, finalPort, hops) ==>
                              RouteOk(links, src, dst, finalPort, Some(hops)))
  {
    CacheAnswers(adj, m, sws, src, dst);
    var r := FullPath(m, src, dst);
    if r.None? {
      NoRouteOk(adj, links, src, dst, finalPort);
    } else {
      forall hops | Cooked(adj, r.value, finalPort, hops) ensures RouteOk(links, src, dst, finalPort, Some(hops)) {
        CookedRouteOk(adj, links, r.value, src, dst, finalPort, hops);
      }
    }
  }

  lemma HandlesKeepsInvForall(n: Net, ev: Event)
    requires Inv(n)
    ensures forall n' :: Handles(n, ev, n') ==> Inv(n')
  {
    forall n' | Handles(n, ev, n') ensures Inv(n') {
      HandlesKeepsInv(n, ev, n');
    }
  }
}
