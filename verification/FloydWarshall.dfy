/** `_calc_paths` of l2_multi.py: all-pairs shortest paths, updated in place, with the intermediate switch of each. */
module FloydWarshall {
  import opened Walks
  import opened Wrappers

  /** `path_map[sw1][sw2]` = (distance, intermediate); an absent pair stands for (None, None). */
  datatype Cell = Cell(dist: nat, via: Option<Switch>)
  type PathMap = map<(Switch, Switch), Cell>

  function Lookup(m: PathMap, i: Switch, j: Switch): Option<Cell> {
    if (i, j) in m then Some(m[(i, j)]) else None
  }

  /** What the comparison in the innermost loop makes of the entry for (i, j) in phase k. */
  function Relaxed(m: PathMap, k: Switch, i: Switch, j: Switch): Option<Cell> {
    match (Lookup(m, i, k), Lookup(m, k, j))
    case (Some(ik), Some(kj)) =>
      var d := ik.dist + kj.dist;
      (match Lookup(m, i, j)
       case None => Some(Cell(d, Some(k)))
       case Some(ij) => if d < ij.dist then Some(Cell(d, Some(k))) else Some(ij))
    case (_, _) => Lookup(m, i, j)
  }

  // ---- what a table says about the walks

  ghost predicate Diagonal(m: PathMap, sws: set<Switch>) {
    && (forall i :: i in sws ==> Lookup(m, i, i) == Some(Cell(0, None)))
    && (forall e :: e in m ==> e.0 in sws && e.1 in sws && (m[e].dist == 0 ==> e.0 == e.1))
  }

  /** Every distance in the table is the length of some walk. */
  ghost predicate Realised(adj: Adjacency, m: PathMap) {
    forall e :: e in m ==> exists p :: IsWalk(adj, p, e.0, e.1) && |p| == m[e].dist + 1
  }

  /** No walk through `through` is shorter than the table says. */
  ghost predicate Covers(adj: Adjacency, m: PathMap, sws: set<Switch>, through: set<Switch>) {
    forall p, i, j :: i in sws && j in sws && IsWalk(adj, p, i, j) && Interior(p, through) ==>
      (i, j) in m && m[(i, j)].dist <= |p| - 1
  }

  ghost predicate ViaOk(adj: Adjacency, m: PathMap, e: (Switch, Switch))
    requires e in m
  {
    match m[e].via
    case None => e.0 == e.1 || (e in adj && m[e].dist == 1)
    case Some(k) =>
      && k != e.0 && k != e.1
      && (e.0, k) in m && (k, e.1) in m
      && m[(e.0, k)].dist + m[(k, e.1)].dist <= m[e].dist
  }

  ghost predicate Vias(adj: Adjacency, m: PathMap) {
    forall e :: e in m ==> ViaOk(adj, m, e)
  }

  ghost predicate Phase(adj: Adjacency, m: PathMap, sws: set<Switch>, through: set<Switch>) {
    Diagonal(m, sws) && Realised(adj, m) && Covers(adj, m, sws, through) && Vias(adj, m)
  }

  // ---- one phase

  ghost predicate IsRelaxation(m: PathMap, m': PathMap, sws: set<Switch>, k: Switch) {
    && (forall i, j :: i in sws && j in sws ==> Lookup(m', i, j) == Relaxed(m, k, i, j))
    && (forall e :: e in m' ==> e.0 in sws && e.1 in sws)
  }

  /** Neither row k nor column k changes in phase k, which is why updating in place is safe. */
  lemma RowAndColumnFixed(m: PathMap, sws: set<Switch>, k: Switch, i: Switch)
    requires Diagonal(m, sws) && k in sws
    ensures Relaxed(m, k, i, k) == Lookup(m, i, k)
    ensures Relaxed(m, k, k, i) == Lookup(m, k, i)
  {
    assert Lookup(m, k, k) == Some(Cell(0, None));
  }

  lemma RelaxationShrinks(m: PathMap, m': PathMap, sws: set<Switch>, k: Switch, e: (Switch, Switch))
    requires Diagonal(m, sws) && IsRelaxation(m, m', sws, k) && e in m
    ensures e in m' && m'[e].dist <= m[e].dist
  {
    assert Lookup(m', e.0, e.1) == Relaxed(m, k, e.0, e.1);
    assert e == (e.0, e.1);
  }

  lemma PhaseDiagonal(m: PathMap, m': PathMap, sws: set<Switch>, k: Switch)
    requires Diagonal(m, sws) && IsRelaxation(m, m', sws, k) && k in sws
    ensures Diagonal(m', sws)
  {
    forall i | i in sws ensures Lookup(m', i, i) == Some(Cell(0, None)) {
      assert Lookup(m', i, i) == Relaxed(m, k, i, i);
      assert Lookup(m, i, i) == Some(Cell(0, None));
    }
    forall e | e in m' ensures m'[e].dist == 0 ==> e.0 == e.1 {
      assert e == (e.0, e.1) && Lookup(m', e.0, e.1) == Relaxed(m, k, e.0, e.1);
    }
  }

  lemma PhaseRealised(adj: Adjacency, m: PathMap, m': PathMap, sws: set<Switch>, k: Switch)
    requires Realised(adj, m) && IsRelaxation(m, m', sws, k)
    ensures Realised(adj, m')
  {
    forall e | e in m' ensures exists p :: IsWalk(adj, p, e.0, e.1) && |p| == m'[e].dist + 1 {
      assert e == (e.0, e.1) && Lookup(m', e.0, e.1) == Relaxed(m, k, e.0, e.1);
      if Lookup(m', e.0, e.1) != Lookup(m, e.0, e.1) {
        var p :| IsWalk(adj, p, e.0, k) && |p| == m[(e.0, k)].dist + 1;
        var q :| IsWalk(adj, q, k, e.1) && |q| == m[(k, e.1)].dist + 1;
        WalkJoin(adj, p, q, e.0, k, e.1);
        assert |p + q[1..]| == m'[e].dist + 1;
      }
    }
  }

  lemma PhaseCovers(adj: Adjacency, m: PathMap, m': PathMap, sws: set<Switch>, through: set<Switch>, k: Switch)
    requires Diagonal(m, sws) && Covers(adj, m, sws, through) && IsRelaxation(m, m', sws, k) && k in sws
    ensures Covers(adj, m', sws, through + {k})
  {
    forall p, i, j | i in sws && j in sws && IsWalk(adj, p, i, j) && Interior(p, through + {k})
      ensures (i, j) in m' && m'[(i, j)].dist <= |p| - 1
    {
      assert Lookup(m', i, j) == Relaxed(m, k, i, j);
      if !Interior(p, through) {
        var first, last := SplitAt(adj, p, i, j, through, k);
        assert (i, k) in m && m[(i, k)].dist <= |first| - 1;
        assert (k, j) in m && m[(k, j)].dist <= |last| - 1;
      }
    }
  }

  lemma PhaseVias(adj: Adjacency, m: PathMap, m': PathMap, sws: set<Switch>, k: Switch)
    requires Diagonal(m, sws) && Vias(adj, m) && IsRelaxation(m, m', sws, k) && k in sws
    ensures Vias(adj, m')
  {
    forall e | e in m' ensures ViaOk(adj, m', e) {
      assert e == (e.0, e.1) && Lookup(m', e.0, e.1) == Relaxed(m, k, e.0, e.1);
      if Lookup(m', e.0, e.1) == Lookup(m, e.0, e.1) {
        assert ViaOk(adj, m, e);
        if m[e].via.Some? {
          RelaxationShrinks(m, m', sws, k, (e.0, m[e].via.value));
          RelaxationShrinks(m, m', sws, k, (m[e].via.value, e.1));
        }
      } else {
        RowAndColumnFixed(m, sws, k, e.0);
        RowAndColumnFixed(m, sws, k, e.1);
        assert Lookup(m', e.0, k) == Relaxed(m, k, e.0, k) && Lookup(m', k, e.1) == Relaxed(m, k, k, e.1);
        assert m'[e] == Cell(m[(e.0, k)].dist + m[(k, e.1)].dist, Some(k));
        assert Lookup(m, k, k) == Some(Cell(0, None));
      }
    }
  }

  lemma PhaseStep(adj: Adjacency, m: PathMap, m': PathMap, sws: set<Switch>, through: set<Switch>, k: Switch)
    requires Phase(adj, m, sws, through) && IsRelaxation(m, m', sws, k) && k in sws
    ensures Phase(adj, m', sws, through + {k})
  {
    PhaseDiagonal(m, m', sws, k);
    PhaseRealised(adj, m, m', sws, k);
    PhaseCovers(adj, m, m', sws, through, k);
    PhaseVias(adj, m, m', sws, k);
  }

  // ---- the finished table

  /** `d` is the length of a shortest walk from i to j. */
  ghost predicate Shortest(adj: Adjacency, i: Switch, j: Switch, d: nat) {
    && (exists p :: IsWalk(adj, p, i, j) && |p| == d + 1)
    && (forall p :: IsWalk(adj, p, i, j) ==> d + 1 <= |p|)
  }

  /** For every pair the stored distance is that of a shortest walk, and there is no entry exactly when there is no
      walk. */
  ghost predicate Exact(adj: Adjacency, m: PathMap, sws: set<Switch>) {
    && (forall e :: e in m ==> e.0 in sws && e.1 in sws && Shortest(adj, e.0, e.1, m[e].dist))
    && (forall i, j, p :: i in sws && j in sws && IsWalk(adj, p, i, j) ==> (i, j) in m)
  }

  /** Intermediates split their pair exactly and strictly. */
  ghost predicate ViaExact(adj: Adjacency, m: PathMap, e: (Switch, Switch))
    requires e in m
  {
    match m[e].via
    case None => e.0 == e.1 || (e in adj && m[e].dist == 1)
    case Some(k) =>
      && k != e.0 && k != e.1
      && (e.0, k) in m && (k, e.1) in m
      && m[(e.0, k)].dist + m[(k, e.1)].dist == m[e].dist
      && m[(e.0, k)].dist < m[e].dist && m[(k, e.1)].dist < m[e].dist
  }

  /** What `_get_raw_path` relies on. */
  ghost predicate Table(adj: Adjacency, m: PathMap, sws: set<Switch>) {
    && Closed(adj, sws) && Diagonal(m, sws) && Exact(adj, m, sws)
    && forall e :: e in m ==> ViaExact(adj, m, e)
  }

  lemma FinishedIsExact(adj: Adjacency, m: PathMap, sws: set<Switch>)
    requires Closed(adj, sws) && Phase(adj, m, sws, sws)
    ensures Exact(adj, m, sws)
  {
    forall i, j, p | i in sws && j in sws && IsWalk(adj, p, i, j)
      ensures (i, j) in m && m[(i, j)].dist <= |p| - 1
    {
      WalkStaysInside(adj, p, i, j, sws);
    }
    forall e | e in m ensures Shortest(adj, e.0, e.1, m[e].dist) {
      assert e == (e.0, e.1);
    }
  }

  /** A shortest distance never exceeds the way round by another switch. */
  lemma Triangle(adj: Adjacency, m: PathMap, sws: set<Switch>, i: Switch, k: Switch, j: Switch)
    requires Exact(adj, m, sws) && (i, k) in m && (k, j) in m && (i, j) in m
    ensures m[(i, j)].dist <= m[(i, k)].dist + m[(k, j)].dist
  {
    assert Shortest(adj, i, k, m[(i, k)].dist) && Shortest(adj, k, j, m[(k, j)].dist);
    var p :| IsWalk(adj, p, i, k) && |p| == m[(i, k)].dist + 1;
    var q :| IsWalk(adj, q, k, j) && |q| == m[(k, j)].dist + 1;
    WalkJoin(adj, p, q, i, k, j);
    assert Shortest(adj, i, j, m[(i, j)].dist);
    assert m[(i, j)].dist + 1 <= |p + q[1..]|;
  }

  lemma FinishedSplits(adj: Adjacency, m: PathMap, sws: set<Switch>, e: (Switch, Switch))
    requires Phase(adj, m, sws, sws) && Exact(adj, m, sws) && e in m
    ensures ViaExact(adj, m, e)
  {
    assert ViaOk(adj, m, e) && e == (e.0, e.1);
    if m[e].via.Some? {
      Triangle(adj, m, sws, e.0, m[e].via.value, e.1);
    }
  }

  lemma FinishedIsTable(adj: Adjacency, m: PathMap, sws: set<Switch>)
    requires Closed(adj, sws) && Phase(adj, m, sws, sws)
    ensures Table(adj, m, sws)
  {
    FinishedIsExact(adj, m, sws);
    forall e | e in m ensures ViaExact(adj, m, e) {
      FinishedSplits(adj, m, sws, e);
    }
  }

  // ---- the loops

  /** The entry the first loop leaves for (i, j). */
  function Direct(adj: Adjacency, i: Switch, j: Switch): Option<Cell> {
    if i == j then Some(Cell(0, None))
    else if (i, j) in adj then Some(Cell(1, None))
    else None
  }

  function Elements(sws: seq<Switch>): set<Switch> { set s | s in sws }

  lemma DirectIsPhase(adj: Adjacency, m: PathMap, sws: set<Switch>)
    requires Closed(adj, sws)
    requires forall i, j :: i in sws && j in sws ==> Lookup(m, i, j) == Direct(adj, i, j)
    requires forall e :: e in m ==> e.0 in sws && e.1 in sws
    ensures Phase(adj, m, sws, {})
  {
    forall e | e in m ensures ViaOk(adj, m, e) && (m[e].dist == 0 ==> e.0 == e.1) {
      assert e == (e.0, e.1) && Lookup(m, e.0, e.1) == Direct(adj, e.0, e.1);
    }
    forall e | e in m ensures exists p :: IsWalk(adj, p, e.0, e.1) && |p| == m[e].dist + 1 {
      assert e == (e.0, e.1) && Lookup(m, e.0, e.1) == Direct(adj, e.0, e.1);
      var p := if e.0 == e.1 then [e.0] else [e.0, e.1];
      assert IsWalk(adj, p, e.0, e.1);
    }
    forall p, i, j | i in sws && j in sws && IsWalk(adj, p, i, j) && Interior(p, {})
      ensures (i, j) in m && m[(i, j)].dist <= |p| - 1
    {
      DirectCovers(adj, p, i, j);
      assert Lookup(m, i, j) == Direct(adj, i, j);
    }
  }

  lemma InteriorNonEmpty(p: seq<Switch>, through: set<Switch>)
    requires Interior(p, through)
    ensures |p| > 2 ==> through != {}
  {
    if |p| > 2 {
      assert p[1] in through;
    }
  }

  lemma DirectCovers(adj: Adjacency, p: seq<Switch>, i: Switch, j: Switch)
    requires IsWalk(adj, p, i, j) && Interior(p, {})
    ensures Direct(adj, i, j).Some? && Direct(adj, i, j).value.dist <= |p| - 1
  {
    InteriorNonEmpty(p, {});
    if |p| == 2 {
      assert (p[0], p[1]) in adj;
    }
  }

  /** The first loop so far: the rows in `seen` are filled in, the others empty. */
  ghost predicate RowsFilled(m: PathMap, adj: Adjacency, sws: set<Switch>, seen: set<Switch>) {
    && (forall i, j :: i in seen ==> Lookup(m, i, j) == Direct(adj, i, j))
    && (forall e :: e in m ==> e.0 in seen && e.1 in sws)
  }

  /** Row k with the ports in `row` still to be entered and its diagonal still open. */
  ghost predicate RowOpen(m: PathMap, before: PathMap, adj: Adjacency, k: Switch, row: set<Switch>) {
    && (forall i, j :: i != k ==> Lookup(m, i, j) == Lookup(before, i, j))
    && (forall j :: Lookup(m, k, j) == if (k, j) in adj && j !in row then Some(Cell(1, None)) else None)
  }

  lemma RowClosed(m: PathMap, before: PathMap, adj: Adjacency, sws: set<Switch>, seen: set<Switch>, k: Switch)
    requires Closed(adj, sws) && RowsFilled(before, adj, sws, seen) && k in sws
    requires RowOpen(m, before, adj, k, {})
    ensures RowsFilled(m[(k, k) := Cell(0, None)], adj, sws, seen + {k})
  {
    var m' := m[(k, k) := Cell(0, None)];
    forall i, j | i in seen + {k} ensures Lookup(m', i, j) == Direct(adj, i, j) {
      if i != k {
        assert Lookup(m, i, j) == Lookup(before, i, j);
      }
    }
    forall e | e in m' ensures e.0 in seen + {k} && e.1 in sws {
      assert e == (e.0, e.1);
      if e.0 != k {
        assert Lookup(m, e.0, e.1) == Lookup(before, e.0, e.1);
      } else if e.1 != k {
        assert Lookup(m, k, e.1).Some?;
      }
    }
  }

  /** The first loop: one row of the table for each switch. */
  method DirectPaths(sws: seq<Switch>, adj: Adjacency) returns (m: PathMap)
    requires Closed(adj, Elements(sws)) && Distinct(sws)
    ensures Phase(adj, m, Elements(sws), {})
  {
    m := map[];
    ghost var all, seen := Elements(sws), {};
    for n := 0 to |sws|
      invariant seen == Elements(sws[..n])
      invariant RowsFilled(m, adj, all, seen)
    {
      ElementsSnoc(sws, n);
      var k := sws[n];
      ghost var before := m;
      var row := set e | e in adj && e.0 == k :: e.1;
      assert forall j :: (k, j) in adj ==> j in row by {
        forall j | (k, j) in adj ensures j in row {
          assert (k, j).0 == k && (k, j).1 == j;
        }
      }
      while row != {}
        invariant forall j :: j in row ==> (k, j) in adj
        invariant RowOpen(m, before, adj, k, row)
      {
        var j :| j in row;
        m := m[(k, j) := Cell(1, None)];
        row := row - {j};
      }
      RowClosed(m, before, adj, all, seen, k);
      m := m[(k, k) := Cell(0, None)];
      seen := seen + {k};
    }
    assert sws[..|sws|] == sws;
    DirectIsPhase(adj, m, all);
  }

  /** The body of the innermost loop. */
  function Entry(m: PathMap, k: Switch, i: Switch, j: Switch): PathMap {
    if (i, k) in m && (k, j) in m && ((i, j) !in m || m[(i, k)].dist + m[(k, j)].dist < m[(i, j)].dist) then
      m[(i, j) := Cell(m[(i, k)].dist + m[(k, j)].dist, Some(k))]
    else m
  }

  /** Row i of phase k so far: the columns in `seen` are relaxed, the others and the other rows are as they were. */
  ghost predicate RowSoFar(m: PathMap, m0: PathMap, before: PathMap,
                           sws: set<Switch>, k: Switch, i: Switch, seen: set<Switch>) {
    && (forall j :: j in seen ==> Lookup(m, i, j) == Relaxed(m0, k, i, j))
    && (forall j :: j in sws && j !in seen ==> Lookup(m, i, j) == Lookup(m0, i, j))
    && (forall i', j :: i' != i ==> Lookup(m, i', j) == Lookup(before, i', j))
    && (forall e :: e in m ==> e.0 in sws && e.1 in sws)
  }

  /** Within phase k, row k and column k read as they stood when the phase began. */
  lemma RowStep(m: PathMap, m0: PathMap, before: PathMap,
                sws: set<Switch>, k: Switch, i: Switch, j: Switch, seen: set<Switch>)
    requires Diagonal(m0, sws) && k in sws && i in sws && j in sws && j !in seen && seen <= sws
    requires RowSoFar(m, m0, before, sws, k, i, seen)
    requires i != k ==> Lookup(before, k, j) == Lookup(m0, k, j)
    ensures RowSoFar(Entry(m, k, i, j), m0, before, sws, k, i, seen + {j})
  {
    var m' := Entry(m, k, i, j);
    RowAndColumnFixed(m0, sws, k, i);
    RowAndColumnFixed(m0, sws, k, j);
    assert Lookup(m, i, k) == Lookup(m0, i, k);
    assert Lookup(m, k, j) == Lookup(m0, k, j);
    assert Lookup(m, i, j) == Lookup(m0, i, j);
    assert Lookup(m', i, j) == Relaxed(m0, k, i, j);
    assert forall i', j' :: (i', j') != (i, j) ==> Lookup(m', i', j') == Lookup(m, i', j');
  }

  /** The innermost loop's body. */
  method RelaxEntry(m: PathMap, k: Switch, i: Switch, j: Switch) returns (m': PathMap)
    ensures m' == Entry(m, k, i, j)
  {
    m' := m;
    if (i, k) in m {
      if (k, j) in m {
        var ikjDist := m[(i, k)].dist + m[(k, j)].dist;
        if (i, j) !in m || ikjDist < m[(i, j)].dist {
          m' := m[(i, j) := Cell(ikjDist, Some(k))];
        }
      }
    }
  }

  /** Row i of phase k, in place. */
  method RelaxRow(sws: seq<Switch>, k: Switch, i: Switch, ghost m0: PathMap, before: PathMap) returns (m: PathMap)
    requires Diagonal(m0, Elements(sws)) && k in sws && i in sws && Distinct(sws)
    requires RowSoFar(before, m0, before, Elements(sws), k, i, {})
    requires i != k ==> forall j :: j in sws ==> Lookup(before, k, j) == Lookup(m0, k, j)
    ensures RowSoFar(m, m0, before, Elements(sws), k, i, Elements(sws))
  {
    m := before;
    ghost var all, seen := Elements(sws), {};
    for c := 0 to |sws|
      invariant seen == Elements(sws[..c])
      invariant RowSoFar(m, m0, before, all, k, i, seen)
    {
      ElementsSnoc(sws, c);
      RowStep(m, m0, before, all, k, i, sws[c], seen);
      m := RelaxEntry(m, k, i, sws[c]);
      seen := seen + {sws[c]};
    }
    assert sws[..|sws|] == sws;
  }

  lemma ElementsSnoc(sws: seq<Switch>, n: nat)
    requires n < |sws| && Distinct(sws)
    ensures Elements(sws[..n + 1]) == Elements(sws[..n]) + {sws[n]}
    ensures sws[n] in Elements(sws) && sws[n] !in Elements(sws[..n])
    ensures Elements(sws[..n]) <= Elements(sws)
  {
    assert sws[..n + 1] == sws[..n] + [sws[n]];
  }

  /** Phase k so far: the rows in `seen` are relaxed, the others are as they were. */
  ghost predicate RowsSoFar(m: PathMap, m0: PathMap, sws: set<Switch>, k: Switch, seen: set<Switch>) {
    && (forall i, j :: i in seen && j in sws ==> Lookup(m, i, j) == Relaxed(m0, k, i, j))
    && (forall i, j :: i !in seen ==> Lookup(m, i, j) == Lookup(m0, i, j))
    && (forall e :: e in m ==> e.0 in sws && e.1 in sws)
  }

  lemma RowsStart(m: PathMap, m0: PathMap, sws: set<Switch>, k: Switch, i: Switch, seen: set<Switch>)
    requires Diagonal(m0, sws) && k in sws && i in sws && i !in seen && RowsSoFar(m, m0, sws, k, seen)
    ensures RowSoFar(m, m0, m, sws, k, i, {})
    ensures forall j :: j in sws ==> Lookup(m, k, j) == Lookup(m0, k, j)
  {
    forall j | j in sws ensures Lookup(m, k, j) == Lookup(m0, k, j) {
      RowAndColumnFixed(m0, sws, k, j);
    }
  }

  lemma RowsNext(m: PathMap, before: PathMap, m0: PathMap, sws: set<Switch>, k: Switch, i: Switch, seen: set<Switch>)
    requires RowsSoFar(before, m0, sws, k, seen) && RowSoFar(m, m0, before, sws, k, i, sws) && i in sws && i !in seen
    ensures RowsSoFar(m, m0, sws, k, seen + {i})
  {
    forall i', j | i' in seen + {i} && j in sws ensures Lookup(m, i', j) == Relaxed(m0, k, i', j) {
      if i' != i {
        assert Lookup(m, i', j) == Lookup(before, i', j);
      }
    }
  }

  /** Phase k, in place. */
  method RelaxAll(sws: seq<Switch>, k: Switch, m0: PathMap) returns (m: PathMap)
    requires Diagonal(m0, Elements(sws)) && k in sws && Distinct(sws)
    ensures IsRelaxation(m0, m, Elements(sws), k)
  {
    m := m0;
    ghost var all, seen := Elements(sws), {};
    for n := 0 to |sws|
      invariant seen == Elements(sws[..n])
      invariant RowsSoFar(m, m0, all, k, seen)
    {
      ElementsSnoc(sws, n);
      RowsStart(m, m0, all, k, sws[n], seen);
      ghost var before := m;
      m := RelaxRow(sws, k, sws[n], m0, m);
      RowsNext(m, before, m0, all, k, sws[n], seen);
      seen := seen + {sws[n]};
    }
    assert sws[..|sws|] == sws;
  }

  /** `_calc_paths`: whatever the order of the switches, the table comes out exact. */
  method CalcPaths(sws: seq<Switch>, adj: Adjacency) returns (m: PathMap)
    requires Closed(adj, Elements(sws)) && Distinct(sws)
    ensures Table(adj, m, Elements(sws))
    ensures sws != [] ==> m != map[]
  {
    m := DirectPaths(sws, adj);
    ghost var all, done := Elements(sws), {};
    for n := 0 to |sws|
      invariant done == Elements(sws[..n])
      invariant Phase(adj, m, all, done)
    {
      ghost var before := m;
      m := RelaxAll(sws, sws[n], m);
      PhaseStep(adj, before, m, all, done, sws[n]);
      ElementsSnoc(sws, n);
      done := done + {sws[n]};
    }
    assert sws[..|sws|] == sws;
    FinishedIsTable(adj, m, all);
    DiagonalNonEmpty(m, sws);
  }

  lemma DiagonalNonEmpty(m: PathMap, sws: seq<Switch>)
    requires Diagonal(m, Elements(sws))
    ensures sws != [] ==> m != map[]
  {
    if sws != [] {
      assert Lookup(m, sws[0], sws[0]) == Some(Cell(0, None));
    }
  }
}
