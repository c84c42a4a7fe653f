/** Walks over an adjacency map, and the path tables l2_multi.py keeps about them. */
module Walks {
  /** Switches by datapath identifier, ports by number. */
  type Switch = int
  type Port = int

  /** `adjacency[sw1][sw2]`: the port of sw1 that leads to sw2; an absent pair stands for None. */
  type Adjacency = map<(Switch, Switch), Port>

  /** A walk is the sequence of switches it visits; it has one edge fewer than switches. */
  ghost predicate IsWalk(adj: Adjacency, p: seq<Switch>, i: Switch, j: Switch) {
    && p != [] && p[0] == i && p[|p| - 1] == j
    && forall n, n' :: 0 <= n && n' == n + 1 && n' < |p| ==> (p[n], p[n']) in adj
  }

  /** Every switch strictly between the two ends lies in `through`. */
  ghost predicate Interior(p: seq<Switch>, through: set<Switch>) {
    forall n :: 0 < n < |p| - 1 ==> p[n] in through
  }

  /** No switch occurs twice. */
  ghost predicate Distinct(sws: seq<Switch>) {
    forall a, b :: 0 <= a < b < |sws| ==> sws[a] != sws[b]
  }

  ghost predicate Closed(adj: Adjacency, sws: set<Switch>) {
    forall e :: e in adj ==> e.0 in sws && e.1 in sws
  }

  lemma WalkJoin(adj: Adjacency, p: seq<Switch>, q: seq<Switch>, i: Switch, k: Switch, j: Switch)
    requires IsWalk(adj, p, i, k) && IsWalk(adj, q, k, j)
    ensures IsWalk(adj, p + q[1..], i, j)
  {
    var r := p + q[1..];
    forall n, n' | 0 <= n && n' == n + 1 && n' < |r| ensures (r[n], r[n']) in adj {
      if n >= |p| - 1 {
        var m := n - (|p| - 1);
        assert q[m] == r[n] && q[m + 1] == r[n'];
      }
    }
  }

  /** The walk with the stretch between two visits to the same switch cut out. */
  lemma WalkCut(adj: Adjacency, p: seq<Switch>, i: Switch, j: Switch, a: nat, b: nat)
    requires IsWalk(adj, p, i, j) && a < b < |p| && p[a] == p[b]
    ensures IsWalk(adj, p[..a + 1] + p[b + 1..], i, j)
  {
    var left, right := p[0..a + 1], p[b..|p| - 1 + 1];
    WalkJoin(adj, left, right, i, p[a], j);
    assert left + right[1..] == p[..a + 1] + p[b + 1..];
  }

  lemma WalkStaysInside(adj: Adjacency, p: seq<Switch>, i: Switch, j: Switch, sws: set<Switch>)
    requires IsWalk(adj, p, i, j) && Closed(adj, sws)
    ensures Interior(p, sws)
    ensures |p| > 1 ==> i in sws && j in sws
  {
    forall n | 0 < n < |p| ensures p[n] in sws {
      assert (p[n - 1], p[n]) in adj;
    }
    if |p| > 1 {
      assert (p[0], p[1]) in adj;
    }
  }

  /** The first and last interior visits to `k`. */
  lemma {:induction false} FirstVisit(p: seq<Switch>, k: Switch, from: nat, at: nat) returns (a: nat)
    requires from <= at < |p| && p[at] == k
    ensures from <= a <= at && p[a] == k
    ensures forall n :: from <= n < a ==> p[n] != k
    decreases at - from
  {
    if p[from] == k {
      a := from;
    } else {
      a := FirstVisit(p, k, from + 1, at);
    }
  }

  lemma {:induction false} LastVisit(p: seq<Switch>, k: Switch, at: nat, stop: nat) returns (b: nat)
    requires at < stop <= |p| && p[at] == k
    ensures at <= b < stop && p[b] == k
    ensures forall n :: b < n < stop ==> p[n] != k
    decreases stop
  {
    if p[stop - 1] == k {
      b := stop - 1;
    } else {
      b := LastVisit(p, k, at, stop - 1);
    }
  }

  /** A walk whose interior passes through `k` begins with a walk to `k` and ends with a walk from
      `k`, both avoiding `k` inside, that together are no longer. */
  lemma SplitAt(adj: Adjacency, p: seq<Switch>, i: Switch, j: Switch, through: set<Switch>, k: Switch)
    returns (first: seq<Switch>, last: seq<Switch>)
    requires IsWalk(adj, p, i, j) && Interior(p, through + {k}) && !Interior(p, through)
    ensures IsWalk(adj, first, i, k) && Interior(first, through)
    ensures IsWalk(adj, last, k, j) && Interior(last, through)
    ensures (|first| - 1) + (|last| - 1) <= |p| - 1
  {
    var at :| 0 < at < |p| - 1 && p[at] !in through;
    var a := FirstVisit(p, k, 1, at);
    var b := LastVisit(p, k, at, |p| - 1);
    first, last := p[0..a + 1], p[b..|p| - 1 + 1];
    assert forall n :: 0 < n < |first| - 1 ==> first[n] == p[n];
    assert forall n :: 0 < n < |last| - 1 ==> last[n] == p[b + n];
  }
}
