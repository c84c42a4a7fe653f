/** `_get_raw_path`, `_get_path` and `_check_path` of l2_multi.py, read off a finished path table. */
module Routes {
  import opened Walks
  import opened Wrappers
  import opened FloydWarshall

  /** What the recursion needs: an intermediate's two halves are in the table, at smaller distances. */
  ghost predicate Splits(m: PathMap) {
    forall e :: e in m ==>
      match m[e].via
      case None => true
      case Some(k) => (e.0, k) in m && (k, e.1) in m && m[(e.0, k)].dist < m[e].dist && m[(k, e.1)].dist < m[e].dist
  }

  /** The switches strictly between i and j. The two recursive results are never None, so the
      concatenation is always of lists. */
  function RawPath(m: PathMap, i: Switch, j: Switch): (r: Option<seq<Switch>>)
    requires Splits(m)
    ensures r.None? <==> i != j && (i, j) !in m
    decreases if (i, j) in m then m[(i, j)].dist else 0
  {
    if i == j then Some([])
    else
      match Lookup(m, i, j)
      case None => None
      case Some(cell) =>
        match cell.via
        case None => Some([])
        case Some(k) =>
          assert (i, j) in m;
          Some(RawPath(m, i, k).value + [k] + RawPath(m, k, j).value)
  }

  lemma TableSplits(adj: Adjacency, m: PathMap, sws: set<Switch>)
    requires Table(adj, m, sws)
    ensures Splits(m)
  {
    forall e | e in m && m[e].via.Some? ensures ViaExact(adj, m, e) {
    }
  }

  lemma JoinedLists(i: Switch, left: seq<Switch>, k: Switch, right: seq<Switch>, j: Switch)
    ensures ([i] + left + [k]) + ([k] + right + [j])[1..] == [i] + (left + [k] + right) + [j]
  {
    assert ([k] + right + [j])[1..] == right + [j];
  }

  lemma TwoHops(adj: Adjacency, left: seq<Switch>, right: seq<Switch>, i: Switch, k: Switch, j: Switch)
    requires IsWalk(adj, [i] + left + [k], i, k) && IsWalk(adj, [k] + right + [j], k, j)
    ensures IsWalk(adj, [i] + (left + [k] + right) + [j], i, j)
  {
    WalkJoin(adj, [i] + left + [k], [k] + right + [j], i, k, j);
    JoinedLists(i, left, k, right, j);
  }

  /** Reconstruction gives exactly distance minus one switches, and with the two ends a walk. */
  lemma {:induction false} RawPathIsWalk(adj: Adjacency, m: PathMap, sws: set<Switch>, i: Switch, j: Switch)
    requires Table(adj, m, sws) && Splits(m) && i != j && (i, j) in m
    ensures var raw := RawPath(m, i, j).value;
            IsWalk(adj, [i] + raw + [j], i, j) && |raw| == m[(i, j)].dist - 1
    decreases m[(i, j)].dist
  {
    assert ViaExact(adj, m, (i, j));
    match m[(i, j)].via
    case None =>
      assert RawPath(m, i, j) == Some([]);
      assert [i] + [] + [j] == [i, j];
    case Some(k) =>
      RawPathIsWalk(adj, m, sws, i, k);
      RawPathIsWalk(adj, m, sws, k, j);
      var left, right := RawPath(m, i, k).value, RawPath(m, k, j).value;
      TwoHops(adj, left, right, i, k, j);
      assert RawPath(m, i, j) == Some(left + [k] + right);
  }

  /** A shortest walk visits no switch twice. */
  lemma ShortestHasNoRepeats(adj: Adjacency, p: seq<Switch>, i: Switch, j: Switch)
    requires IsWalk(adj, p, i, j) && Shortest(adj, i, j, |p| - 1)
    ensures Distinct(p)
  {
    forall a, b | 0 <= a < b < |p| ensures p[a] != p[b] {
      if p[a] == p[b] {
        WalkCut(adj, p, i, j, a, b);
        assert false;
      }
    }
  }

  /** The whole path from i to j, ends included. */
  function FullPath(m: PathMap, i: Switch, j: Switch): Option<seq<Switch>>
    requires Splits(m)
  {
    if i == j then Some([i])
    else match RawPath(m, i, j) case None => None case Some(raw) => Some([i] + raw + [j])
  }

  lemma FoundPath(adj: Adjacency, m: PathMap, sws: set<Switch>, i: Switch, j: Switch)
    requires Table(adj, m, sws) && Splits(m) && i != j && (i, j) in m
    ensures var r := FullPath(m, i, j);
            r.Some? && IsWalk(adj, r.value, i, j) && Shortest(adj, i, j, |r.value| - 1) && Distinct(r.value)
  {
    RawPathIsWalk(adj, m, sws, i, j);
    assert Shortest(adj, (i, j).0, (i, j).1, m[(i, j)].dist);
    ShortestHasNoRepeats(adj, FullPath(m, i, j).value, i, j);
  }

  /** There is a path exactly when there is a walk, and then it is a shortest walk without repeats. */
  lemma FullPathIsShortest(adj: Adjacency, m: PathMap, sws: set<Switch>, i: Switch, j: Switch)
    requires Table(adj, m, sws) && Splits(m) && i in sws && j in sws
    ensures var r := FullPath(m, i, j);
            && (r.None? <==> forall p :: !IsWalk(adj, p, i, j))
            && (r.Some? ==>
                  IsWalk(adj, r.value, i, j) && Shortest(adj, i, j, |r.value| - 1) && Distinct(r.value))
  {
    if i == j {
      assert IsWalk(adj, [i], i, j);
    } else if (i, j) in m {
      FoundPath(adj, m, sws, i, j);
    } else {
      assert FullPath(m, i, j) == None;
    }
  }

  // ---- ports

  datatype Hop = Hop(sw: Switch, port: Option<Port>)

  function PortTo(adj: Adjacency, s1: Switch, s2: Switch): Option<Port> {
    if (s1, s2) in adj then Some(adj[(s1, s2)]) else None
  }

  ghost predicate Cooked(adj: Adjacency, path: seq<Switch>, finalPort: Port, r: seq<Hop>) {
    && |r| == |path|
    && (forall n :: 0 <= n < |path| ==> r[n].sw == path[n])
    && (forall n, n' :: 0 <= n && n' == n + 1 && n' < |path| ==> r[n].port == PortTo(adj, path[n], path[n']))
    && (path != [] ==> r[|r| - 1].port == Some(finalPort))
  }

  /** The loop of `_get_path` over consecutive switches. */
  method Cook(adj: Adjacency, path: seq<Switch>, finalPort: Port) returns (r: seq<Hop>)
    requires path != []
    ensures Cooked(adj, path, finalPort, r)
  {
    r := [];
    for n := 0 to |path| - 1
      invariant |r| == n
      invariant forall a :: 0 <= a < n ==> r[a].sw == path[a]
      invariant forall a, b :: 0 <= a < n && b == a + 1 ==> r[a].port == PortTo(adj, path[a], path[b])
    {
      r := r + [Hop(path[n], PortTo(adj, path[n], path[n + 1]))];
    }
    r := r + [Hop(path[|path| - 1], Some(finalPort))];
  }

  /** `_check_path`: every hop but the last names the port the adjacency gives. */
  method CheckPath(adj: Adjacency, p: seq<Hop>) returns (ok: bool)
    ensures ok <==> forall a, b :: 0 <= a && b == a + 1 && b < |p| ==> PortTo(adj, p[a].sw, p[b].sw) == p[a].port
  {
    var n := 0;
    while n < |p| - 1
      invariant 0 <= n && (p == [] ==> n == 0) && (p != [] ==> n <= |p| - 1)
      invariant forall a, b :: 0 <= a < n && b == a + 1 && b < |p| ==> PortTo(adj, p[a].sw, p[b].sw) == p[a].port
    {
      if PortTo(adj, p[n].sw, p[n + 1].sw) != p[n].port {
        return false;
      }
      n := n + 1;
    }
    return true;
  }
}
