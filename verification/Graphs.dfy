/**
 Finite directed graphs over the nodes 0..n, their topological orders, their
 cycles and reachability. An edge (a, b) says that a must come before b.

 The greedy order (always take the least node whose predecessors are all
 placed) is related here to three independent notions: it is complete exactly
 when no cycle exists, it is then a topological order, and among all
 topological orders it is the lexicographically least one.
 */
module Graphs {
  datatype Graph = Graph(n: nat, edges: set<(nat, nat)>) {
    predicate Valid() {
      forall e :: e in edges ==> e.0 < n && e.1 < n
    }
  }

  ghost predicate NoDup<T>(s: seq<T>) {
    forall i, j :: 0 <= i < j < |s| ==> s[i] != s[j]
  }

  /** A sequence of distinct nodes of g. */
  ghost predicate Nodes(g: Graph, s: seq<nat>) {
    NoDup(s) && forall i :: 0 <= i < |s| ==> s[i] < g.n
  }

  /** Every node once, and every edge pointing forward. */
  ghost predicate Topological(g: Graph, s: seq<nat>) {
    Nodes(g, s) && |s| == g.n && Forward(g, s)
  }

  ghost predicate Forward(g: Graph, s: seq<nat>) {
    forall p, q :: 0 <= p < |s| && 0 <= q < |s| && (s[p], s[q]) in g.edges ==> p < q
  }

  ghost predicate IsPath(g: Graph, p: seq<nat>) {
    |p| > 0 && p[0] < g.n && forall k :: 0 <= k < |p| - 1 ==> (p[k], p[k + 1]) in g.edges
  }

  /** A closed walk: every node steps to the next and the last steps to the first. */
  ghost predicate IsCycle(g: Graph, c: seq<nat>) {
    IsPath(g, c) && (c[|c| - 1], c[0]) in g.edges
  }

  ghost predicate Acyclic(g: Graph) {
    forall c :: !IsCycle(g, c)
  }

  ghost predicate PathFromTo(g: Graph, p: seq<nat>, a: nat, b: nat) {
    IsPath(g, p) && p[0] == a && p[|p| - 1] == b
  }

  ghost predicate Reaches(g: Graph, a: nat, b: nat) {
    exists p :: PathFromTo(g, p, a, b)
  }

  /** The lexicographic order on sequences of node indices. */
  ghost predicate LexLeq(a: seq<nat>, b: seq<nat>) {
    a == b || exists k :: LexLessAt(a, b, k)
  }

  ghost predicate LexLessAt(a: seq<nat>, b: seq<nat>, k: int) {
    0 <= k < |a| && k < |b| && a[..k] == b[..k] && a[k] < b[k]
  }

  // ---- The greedy order ------------------------------------------------------

  /** The unplaced nodes all of whose predecessors are placed. */
  ghost function Ready(g: Graph, placed: seq<nat>): set<nat> {
    set j | 0 <= j < g.n && j !in placed && forall e :: e in g.edges && e.1 == j ==> e.0 in placed
  }

  ghost predicate IsMin(m: nat, s: set<nat>) {
    m in s && forall x :: x in s ==> m <= x
  }

  ghost function Min(s: set<nat>): (m: nat)
    requires s != {}
    ensures IsMin(m, s)
  {
    MinExists(s);
    var m :| IsMin(m, s);
    m
  }

  lemma MinExists(s: set<nat>)
    requires s != {}
    ensures exists m :: IsMin(m, s)
  {
    var x :| x in s;
    if s == {x} {
      assert IsMin(x, s);
    } else {
      MinExists(s - {x});
      var m :| IsMin(m, s - {x});
      var least := if m <= x then m else x;
      assert forall y :: y in s ==> y == x || y in s - {x};
      assert IsMin(least, s);
    }
  }

  /** Extends `placed` greedily, least ready node first, until none is ready. */
  ghost function Greedy(g: Graph, placed: seq<nat>): (r: seq<nat>)
    requires Nodes(g, placed)
    ensures Nodes(g, r) && placed <= r && Ready(g, r) == {}
    decreases g.n - |placed|
  {
    NodesBound(g, placed);
    if Ready(g, placed) == {} then placed
    else
      var next := placed + [Min(Ready(g, placed))];
      NodesBound(g, next);
      Greedy(g, next)
  }

  ghost function ToSet<T>(s: seq<T>): set<T> {
    set x | x in s
  }

  lemma {:induction false} ToSetSize<T>(s: seq<T>)
    requires NoDup(s)
    ensures |ToSet(s)| == |s|
  {
    if s != [] {
      var front, last := s[..|s| - 1], s[|s| - 1];
      ToSetSize(front);
      assert ToSet(s) == ToSet(front) + {last};
      assert last !in front;
    }
  }

  lemma NodesBound(g: Graph, s: seq<nat>)
    requires Nodes(g, s)
    ensures |s| <= g.n
    ensures |s| == g.n ==> forall j :: 0 <= j < g.n ==> j in s
  {
    ToSetSize(s);
    SubsetOfRange(ToSet(s), g.n);
    assert forall j :: j in ToSet(s) ==> j in s;
  }

  lemma {:induction false} SubsetOfRange(s: set<nat>, n: nat)
    requires forall x :: x in s ==> x < n
    ensures |s| <= n
    ensures |s| == n ==> forall j :: 0 <= j < n ==> j in s
  {
    if n > 0 {
      SubsetOfRange(s - {n - 1}, n - 1);
    }
  }

  /** Each node of the greedy order was the least ready one when it was taken. */
  lemma {:induction false} GreedyPicks(g: Graph, placed: seq<nat>, k: nat)
    requires Nodes(g, placed)
    requires |placed| <= k < |Greedy(g, placed)|
    ensures IsMin(Greedy(g, placed)[k], Ready(g, Greedy(g, placed)[..k]))
    decreases g.n - |placed|
  {
    NodesBound(g, placed);
    var next := placed + [Min(Ready(g, placed))];
    NodesBound(g, next);
    if k > |placed| {
      GreedyPicks(g, next, k);
    } else {
      assert Greedy(g, placed)[..k] == placed;
    }
  }

  /** The greedy order never puts a node before one of its predecessors. */
  lemma GreedyForward(g: Graph)
    ensures Forward(g, Greedy(g, []))
  {
    var r := Greedy(g, []);
    forall p, q | 0 <= p < |r| && 0 <= q < |r| && (r[p], r[q]) in g.edges
      ensures p < q
    {
      GreedyPicks(g, [], q);
      assert r[p] in r[..q];
    }
  }

  // ---- Completeness is acyclicity ---------------------------------------------

  /** A node outside a stuck sequence has a predecessor outside it. */
  lemma StuckHasPredecessor(g: Graph, s: seq<nat>, j: nat) returns (i: nat)
    requires Ready(g, s) == {} && j < g.n && j !in s
    ensures (i, j) in g.edges && i !in s
  {
    assert j !in Ready(g, s);
    var e :| e in g.edges && e.1 == j && e.0 !in s;
    i := e.0;
  }

  /** Walking predecessors from `j` gives arbitrarily long paths outside `s`. */
  lemma {:induction false} BackwardWalk(g: Graph, s: seq<nat>, j: nat, len: nat) returns (p: seq<nat>)
    requires g.Valid() && Ready(g, s) == {} && j < g.n && j !in s
    ensures |p| == len + 1 && IsPath(g, p)
    ensures forall k :: 0 <= k < |p| ==> p[k] < g.n && p[k] !in s
  {
    if len == 0 {
      p := [j];
    } else {
      p := BackwardWalk(g, s, j, len - 1);
      var i := StuckHasPredecessor(g, s, p[0]);
      p := [i] + p;
    }
  }

  lemma StuckHasCycle(g: Graph, s: seq<nat>) returns (c: seq<nat>)
    requires g.Valid() && Nodes(g, s) && Ready(g, s) == {} && |s| < g.n
    ensures IsCycle(g, c)
  {
    ToSetSize(s);
    var j :| 0 <= j < g.n && j !in s by {
      if forall j :: 0 <= j < g.n ==> j in s {
        RangeSubset(g.n, ToSet(s));
      }
    }
    var p := BackwardWalk(g, s, j, g.n);
    if NoDup(p) {
      NodesBound(g, p);
      assert false;
    }
    var a, b :| 0 <= a < b < |p| && p[a] == p[b];
    c := p[a..b];
    assert (p[b - 1], p[b]) in g.edges;
  }

  lemma {:induction false} RangeSubset(n: nat, s: set<nat>)
    requires forall j :: 0 <= j < n ==> j in s
    ensures n <= |s|
  {
    if n > 0 {
      RangeSubset(n - 1, s - {n - 1});
    }
  }

  /** Along a path, positions in a forward sequence only grow. */
  lemma {:induction false} PathMovesForward(g: Graph, s: seq<nat>, p: seq<nat>, a: nat, b: nat)
    requires g.Valid() && Forward(g, s) && IsPath(g, p)
    requires a < |s| && b < |s| && s[a] == p[0] && s[b] == p[|p| - 1]
    requires forall k :: 0 <= k < |p| ==> p[k] in s
    ensures |p| > 1 ==> a < b
  {
    if |p| > 1 {
      var m :| 0 <= m < |s| && s[m] == p[1];
      if |p| == 2 {
        assert (s[a], s[b]) in g.edges;
      } else {
        assert (p[0], p[1]) in g.edges;
        PathMovesForward(g, s, p[1..], m, b);
      }
    }
  }

  lemma TopologicalHasNoCycle(g: Graph, s: seq<nat>, c: seq<nat>)
    requires g.Valid() && Topological(g, s)
    ensures !IsCycle(g, c)
  {
    if IsCycle(g, c) {
      NodesBound(g, s);
      var p := c + [c[0]];
      forall k | 0 <= k < |p| - 1
        ensures (p[k], p[k + 1]) in g.edges
      {
      }
      assert forall k :: 0 <= k < |p| - 1 ==> (p[k], p[k + 1]).0 < g.n;
      forall k | 0 <= k < |p|
        ensures p[k] in s
      {
        assert p[k] == if k < |c| then (p[k], p[k + 1]).0 else c[0];
        assert c[0] == (p[0], p[1]).0;
      }
      assert p[0] in s;
      var a :| 0 <= a < |s| && s[a] == p[0];
      PathMovesForward(g, s, p, a, a);
    }
  }

  /** The greedy order places every node exactly when the graph has no cycle. */
  lemma GreedyCompleteIffAcyclic(g: Graph)
    requires g.Valid()
    ensures |Greedy(g, [])| == g.n <==> Acyclic(g)
    ensures Acyclic(g) ==> Topological(g, Greedy(g, []))
  {
    var r := Greedy(g, []);
    NodesBound(g, r);
    GreedyForward(g);
    if |r| == g.n {
      forall c ensures !IsCycle(g, c) {
        TopologicalHasNoCycle(g, r, c);
      }
    } else {
      var c := StuckHasCycle(g, r);
    }
  }

  // ---- Lexicographic minimality -------------------------------------------------

  /** Where a topological order first leaves the greedy one, it takes a larger node. */
  lemma {:induction false} GreedyLeast(g: Graph, s: seq<nat>, k: nat)
    requires g.Valid() && Topological(g, s) && k <= g.n
    requires |Greedy(g, [])| == g.n
    requires Greedy(g, [])[..k] == s[..k]
    ensures LexLeq(Greedy(g, []), s)
    decreases g.n - k
  {
    var r := Greedy(g, []);
    if k == g.n {
      assert r == s;
    } else {
      GreedyPicks(g, [], k);
      assert s[k] in Ready(g, s[..k]) by {
        NodesBound(g, s);
        forall e | e in g.edges && e.1 == s[k] ensures e.0 in s[..k] {
          assert e.0 in s;
          var p :| 0 <= p < |s| && s[p] == e.0;
          assert (s[p], s[k]) in g.edges;
          assert s[..k][p] == e.0;
        }
      }
      if r[k] == s[k] {
        assert r[..k + 1] == r[..k] + [r[k]];
        assert s[..k + 1] == s[..k] + [s[k]];
        GreedyLeast(g, s, k + 1);
      } else {
        assert LexLessAt(r, s, k);
      }
    }
  }

  /** No topological order is lexicographically smaller than the greedy one. */
  lemma GreedyIsLexLeast(g: Graph, s: seq<nat>)
    requires g.Valid() && Topological(g, s)
    ensures Topological(g, Greedy(g, [])) && LexLeq(Greedy(g, []), s)
  {
    forall c ensures !IsCycle(g, c) {
      TopologicalHasNoCycle(g, s, c);
    }
    GreedyCompleteIffAcyclic(g);
    GreedyLeast(g, s, 0);
  }

  /** 0, 1, .., n - 1. */
  ghost function Identity(n: nat): seq<nat> {
    seq(n, i => i)
  }

  lemma IdentityLexLeast(g: Graph, s: seq<nat>)
    requires Nodes(g, s) && |s| == g.n && LexLeq(s, Identity(g.n))
    ensures s == Identity(g.n)
  {
    if s != Identity(g.n) {
      var k :| LexLessAt(s, Identity(g.n), k);
      assert s[k] !in s[..k];
      forall j | 0 <= j < k ensures j in Identity(g.n)[..k] {
        assert Identity(g.n)[..k][j] == j;
      }
    }
  }

  lemma LexLeqBothWays(a: seq<nat>, b: seq<nat>)
    requires LexLeq(a, b) && LexLeq(b, a)
    ensures a == b
  {
    if a != b {
      var i :| LexLessAt(a, b, i);
      forall k ensures !LexLessAt(b, a, k) {
        LexLessOneWay(a, b, i, k);
      }
    }
  }

  lemma LexLessOneWay(a: seq<nat>, b: seq<nat>, i: int, k: int)
    requires LexLessAt(a, b, i)
    ensures !LexLessAt(b, a, k)
  {
    assert 0 <= k < i ==> a[..i][k] == a[k] && b[..i][k] == b[k];
    assert i < k <= |a| && k <= |b| ==> a[..k][i] == a[i] && b[..k][i] == b[i];
  }

  /** Nodes already listed in a valid order stay where they are. */
  lemma GreedyKeepsValidOrder(g: Graph)
    requires g.Valid() && Forward(g, Identity(g.n))
    ensures Greedy(g, []) == Identity(g.n)
  {
    GreedyIsLexLeast(g, Identity(g.n));
    IdentityLexLeast(g, Greedy(g, []));
  }

  // ---- Reachability ---------------------------------------------------------------

  lemma ReachesSelf(g: Graph, a: nat)
    requires a < g.n
    ensures Reaches(g, a, a)
  {
    assert PathFromTo(g, [a], a, a);
  }

  lemma ReachesStep(g: Graph, a: nat, b: nat, c: nat)
    requires Reaches(g, a, b) && (b, c) in g.edges
    ensures Reaches(g, a, c)
  {
    var p :| PathFromTo(g, p, a, b);
    assert PathFromTo(g, p + [c], a, c);
  }

  lemma ReachesLastStep(g: Graph, a: nat, b: nat) returns (e: (nat, nat))
    requires Reaches(g, a, b) && a != b
    ensures e in g.edges && e.1 == b && Reaches(g, a, e.0)
  {
    var p :| PathFromTo(g, p, a, b);
    e := (p[|p| - 2], p[|p| - 1]);
    assert PathFromTo(g, p[..|p| - 1], a, e.0);
  }

  ghost predicate ClosedUnder(g: Graph, s: set<nat>) {
    forall e :: e in g.edges && e.0 in s ==> e.1 in s
  }

  /** A closed set holds everything reachable from its members. */
  lemma {:induction false} ReachesStaysInside(g: Graph, s: set<nat>, p: seq<nat>)
    requires ClosedUnder(g, s) && IsPath(g, p) && p[0] in s
    ensures p[|p| - 1] in s
    decreases |p|
  {
    if |p| > 1 {
      ReachesStaysInside(g, s, p[..|p| - 1]);
      assert (p[|p| - 2], p[|p| - 1]) in g.edges;
    }
  }

  /** The nodes reachable from `a`, as a set. */
  ghost function ReachSet(g: Graph, a: nat): set<nat> {
    set b | 0 <= b < g.n && Reaches(g, a, b)
  }

  lemma ReachSetLeastClosed(g: Graph, a: nat, s: set<nat>)
    requires g.Valid() && a < g.n
    ensures a in ReachSet(g, a) && ClosedUnder(g, ReachSet(g, a))
    ensures a in s && ClosedUnder(g, s) ==> ReachSet(g, a) <= s
  {
    ReachesSelf(g, a);
    forall e | e in g.edges && e.0 in ReachSet(g, a)
      ensures e.1 in ReachSet(g, a)
    {
      ReachesStep(g, a, e.0, e.1);
    }
    if a in s && ClosedUnder(g, s) {
      forall b | b in ReachSet(g, a) ensures b in s {
        var p :| PathFromTo(g, p, a, b);
        ReachesStaysInside(g, s, p);
      }
    }
  }

  // ---- Subsequences ---------------------------------------------------------------

  /** The members of `s` that are in `keep`, in the order of `s`. */
  ghost function Restrict(s: seq<nat>, keep: set<nat>): (r: seq<nat>)
    ensures forall x :: x in r <==> x in s && x in keep
    ensures forall k :: 0 <= k < |r| ==> r[k] in s
    ensures |r| <= |s|
  {
    if s == [] then []
    else
      var last := s[|s| - 1];
      assert s == s[..|s| - 1] + [last];
      Restrict(s[..|s| - 1], keep) + if last in keep then [last] else []
  }

  ghost predicate Before(s: seq<nat>, x: nat, y: nat) {
    exists i, j :: 0 <= i < j < |s| && s[i] == x && s[j] == y
  }

  /** Restricting neither repeats a node nor swaps two. */
  lemma {:induction false} RestrictKeepsOrder(s: seq<nat>, keep: set<nat>)
    requires NoDup(s)
    ensures NoDup(Restrict(s, keep))
    ensures forall a, b :: 0 <= a < b < |Restrict(s, keep)| ==>
      Before(s, Restrict(s, keep)[a], Restrict(s, keep)[b])
  {
    if s != [] {
      var front, last := s[..|s| - 1], s[|s| - 1];
      RestrictKeepsOrder(front, keep);
      var r := Restrict(front, keep);
      forall a, b | 0 <= a < b < |Restrict(s, keep)|
        ensures Before(s, Restrict(s, keep)[a], Restrict(s, keep)[b])
      {
        if b < |r| {
          assert Before(front, r[a], r[b]);
          var i, j :| 0 <= i < j < |front| && front[i] == r[a] && front[j] == r[b];
          assert s[i] == r[a] && s[j] == r[b];
        } else {
          assert r[a] in front;
          var i :| 0 <= i < |front| && front[i] == r[a];
          assert s[i] == r[a] && s[|s| - 1] == last;
        }
      }
    }
  }

  /** Two members that are kept come in the same order in both. */
  lemma SameSide(s: seq<nat>, keep: set<nat>, a: nat, b: nat, p: nat, q: nat)
    requires NoDup(s) && a < |Restrict(s, keep)| && b < |Restrict(s, keep)| && p < |s| && q < |s|
    requires Restrict(s, keep)[a] == s[p] && Restrict(s, keep)[b] == s[q]
    ensures a < b <==> p < q
  {
    var r := Restrict(s, keep);
    RestrictKeepsOrder(s, keep);
    if a < b {
      assert Before(s, r[a], r[b]);
    } else if b < a {
      assert Before(s, r[b], r[a]);
    }
  }

  lemma RestrictForward(g: Graph, s: seq<nat>, keep: set<nat>)
    requires NoDup(s) && Forward(g, s)
    ensures Forward(g, Restrict(s, keep))
  {
    var r := Restrict(s, keep);
    forall p, q | 0 <= p < |r| && 0 <= q < |r| && (r[p], r[q]) in g.edges
      ensures p < q
    {
      var i :| 0 <= i < |s| && s[i] == r[p];
      var j :| 0 <= j < |s| && s[j] == r[q];
      assert (s[i], s[j]) in g.edges;
      SameSide(s, keep, p, q, i, j);
    }
  }

  // ---- More edges -------------------------------------------------------------------

  /** Added edges leave the order as it is exactly when it runs them forward already. */
  lemma MoreEdges(more: Graph, less: Graph, added: set<(nat, nat)>)
    requires more.Valid() && less.Valid() && more.n == less.n && more.edges == less.edges + added && Acyclic(more)
    ensures Greedy(more, []) == Greedy(less, []) <==> forall e :: e in added ==> Before(Greedy(less, []), e.0, e.1)
  {
    var order := Greedy(less, []);
    GreedyCompleteIffAcyclic(more);
    GreedyIsLexLeast(less, Greedy(more, []));
    hide Greedy, Acyclic;
    AddedForward(more, less, added, order);
    if forall e :: e in added ==> Before(order, e.0, e.1) {
      GreedyIsLexLeast(more, order);
      LexLeqBothWays(Greedy(more, []), order);
    }
  }

  /** An order of the one graph is one of the other exactly when it runs the added edges forward. */
  lemma AddedForward(more: Graph, less: Graph, added: set<(nat, nat)>, order: seq<nat>)
    requires more.Valid() && more.n == less.n && more.edges == less.edges + added && Topological(less, order)
    ensures Topological(more, order) <==> forall e :: e in added ==> Before(order, e.0, e.1)
  {
    if Topological(more, order) {
      NodesBound(less, order);
      forall e | e in added ensures Before(order, e.0, e.1) {
        assert e in more.edges && e.0 in order && e.1 in order;
        var p :| 0 <= p < |order| && order[p] == e.0;
        var q :| 0 <= q < |order| && order[q] == e.1;
        assert (order[p], order[q]) == e;
      }
    }
    if forall e :: e in added ==> Before(order, e.0, e.1) {
      forall p, q | 0 <= p < |order| && 0 <= q < |order| && (order[p], order[q]) in more.edges ensures p < q {
        assert (order[p], order[q]) in added ==> Before(order, order[p], order[q]);
      }
    }
  }

  /** The same when the added edges may close a cycle. */
  lemma MoreEdgesIff(more: Graph, less: Graph, added: set<(nat, nat)>)
    requires more.Valid() && less.Valid() && more.n == less.n && more.edges == less.edges + added && Acyclic(less)
    ensures Acyclic(more) && Greedy(more, []) == Greedy(less, []) <==>
      forall e :: e in added ==> Before(Greedy(less, []), e.0, e.1)
  {
    var order := Greedy(less, []);
    GreedyCompleteIffAcyclic(less);
    AddedForward(more, less, added, order);
    if Topological(more, order) {
      forall c ensures !IsCycle(more, c) {
        TopologicalHasNoCycle(more, order, c);
      }
    }
    if Acyclic(more) {
      MoreEdges(more, less, added);
    }
  }
}
