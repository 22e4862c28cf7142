/**
 The notebook's dependency graph: which cell must run before which, in which
 order the whole notebook runs, and what to run again after an edit.

 The methods follow the loops of the Rust module over arrays, queues and hash
 maps; each is proved against the graph notions of module Graphs.
 */
module NotebookGraph {
  import opened Common
  import opened Graphs
  import Uuids

  type Uuid = Uuids.Uuid

  /** A cell reduced to the variables it binds and the variables it reads. */
  datatype CellSpec = CellSpec(id: Uuid, defines: seq<string>, uses: seq<string>)

  datatype OrderResult = Ordered(order: seq<Uuid>) | DependencyCycle

  // ---- Specification ---------------------------------------------------------

  /** `to` reads, in one of its first `k` uses, a variable that `from` defines. */
  ghost predicate EdgeVia(cells: seq<CellSpec>, from: int, to: int, k: int) {
    && 0 <= from < |cells| && 0 <= to < |cells| && from != to
    && exists u :: 0 <= u < k && u < |cells[to].uses| && cells[to].uses[u] in cells[from].defines
  }

  ghost predicate DependsOn(cells: seq<CellSpec>, from: int, to: int) {
    && 0 <= from < |cells| && 0 <= to < |cells| && from != to
    && exists v :: v in cells[from].defines && v in cells[to].uses
  }

  ghost function DepGraph(cells: seq<CellSpec>): (g: Graph)
    ensures g.Valid()
  {
    Graph(|cells|,
          set from: nat, to: nat | from < |cells| && to < |cells| && DependsOn(cells, from, to) :: (from, to))
  }

  ghost function Ids(cells: seq<CellSpec>, indices: seq<nat>): (r: seq<Uuid>)
    requires forall k :: 0 <= k < |indices| ==> indices[k] < |cells|
    ensures |r| == |indices|
    ensures forall k :: 0 <= k < |r| ==> r[k] == cells[indices[k]].id
  {
    seq(|indices|, k requires 0 <= k < |indices| => cells[indices[k]].id)
  }

  ghost predicate DistinctIds(cells: seq<CellSpec>) {
    forall i, j :: 0 <= i < j < |cells| ==> cells[i].id != cells[j].id
  }

  /** The position of the first cell with this id, or |cells| when there is none. */
  function Position(cells: seq<CellSpec>, id: Uuid): (p: nat)
    ensures p <= |cells|
    ensures p < |cells| ==> cells[p].id == id
    ensures forall k :: 0 <= k < p ==> cells[k].id != id
  {
    if cells == [] || cells[0].id == id then 0 else 1 + Position(cells[1..], id)
  }

  /** The members of `order` whose first cell is in `affected`, in order. */
  ghost function KeepAffected(cells: seq<CellSpec>, order: seq<Uuid>, affected: set<nat>): seq<Uuid> {
    if order == [] then []
    else
      var last := order[|order| - 1];
      KeepAffected(cells, order[..|order| - 1], affected)
      + if Position(cells, last) in affected then [last] else []
  }

  predicate Defines(cells: seq<CellSpec>, k: nat, v: string) {
    k < |cells| && v in cells[k].defines
  }

  // ---- Edges -----------------------------------------------------------------

  ghost predicate DefinersUpTo(cells: seq<CellSpec>, definers: map<string, seq<nat>>, i: int, d: int)
    requires 0 <= i <= |cells|
    requires i < |cells| ==> 0 <= d <= |cells[i].defines|
  {
    forall v, k: nat ::
      (v in definers && k in definers[v]) <==>
      (k < |cells| && ((k < i && v in cells[k].defines) || (k == i && v in cells[i].defines[..d])))
  }

  /** Variable name to the indices of the cells that define it. */
  method DefinerIndex(cells: seq<CellSpec>) returns (definers: map<string, seq<nat>>)
    ensures forall v, k: nat :: v in definers ==> (k in definers[v] <==> Defines(cells, k, v))
    ensures forall v, k: nat :: Defines(cells, k, v) ==> v in definers
  {
    definers := map[];
    for i := 0 to |cells|
      invariant DefinersUpTo(cells, definers, i, 0)
    {
      for d := 0 to |cells[i].defines|
        invariant DefinersUpTo(cells, definers, i, d)
      {
        var name := cells[i].defines[d];
        var known := if name in definers then definers[name] else [];
        assert cells[i].defines[..d + 1] == cells[i].defines[..d] + [name];
        definers := definers[name := known + [i]];
      }
      assert cells[i].defines[..|cells[i].defines|] == cells[i].defines;
    }
    AllDefinersIndexed(cells, definers);
  }

  lemma AllDefinersIndexed(cells: seq<CellSpec>, definers: map<string, seq<nat>>)
    requires DefinersUpTo(cells, definers, |cells|, 0)
    ensures forall v, k: nat :: v in definers ==> (k in definers[v] <==> Defines(cells, k, v))
    ensures forall v, k: nat :: Defines(cells, k, v) ==> v in definers
  {
    forall v, k: nat ensures (v in definers && k in definers[v]) <==> Defines(cells, k, v) {
      assert (v in definers && k in definers[v]) <==> (k < |cells| && v in cells[k].defines);
    }
  }

  ghost predicate EdgesInto(cells: seq<CellSpec>, out: seq<(nat, nat)>, to: int, u: int) {
    && NoDup(out)
    && forall e: (nat, nat) :: e in out <==>
        e.0 < |cells| && e.1 < |cells| &&
        ((e.1 < to && DependsOn(cells, e.0, e.1)) || (e.1 == to && EdgeVia(cells, e.0, to, u)))
  }

  method Edges(cells: seq<CellSpec>) returns (out: seq<(nat, nat)>)
    ensures NoDup(out)
    ensures ToSet(out) == DepGraph(cells).edges
  {
    var definers := DefinerIndex(cells);
    out := [];
    var seen: set<(nat, nat)> := {};
    for to := 0 to |cells|
      invariant EdgesInto(cells, out, to, 0)
      invariant seen == ToSet(out)
    {
      for u := 0 to |cells[to].uses|
        invariant EdgesInto(cells, out, to, u)
        invariant seen == ToSet(out)
      {
        var name := cells[to].uses[u];
        if name in definers {
          var defs := definers[name];
          for d := 0 to |defs|
            invariant NoDup(out) && seen == ToSet(out)
            invariant forall e: (nat, nat) :: e in out <==>
              e.0 < |cells| && e.1 < |cells| &&
              ((e.1 < to && DependsOn(cells, e.0, e.1)) ||
               (e.1 == to && (EdgeVia(cells, e.0, to, u) || (e.0 != to && e.0 in defs[..d]))))
          {
            var from := defs[d];
            assert defs[..d + 1] == defs[..d] + [from];
            assert Defines(cells, from, name);
            assert forall k: nat :: k in defs[..d + 1] <==> k in defs[..d] || k == from;
            ghost var before := out;
            if from != to && (from, to) !in seen {
              seen := seen + {(from, to)};
              out := out + [(from, to)];
              assert forall e :: e in out <==> e in before || e == (from, to);
            } else {
              assert from != to ==> (from, to) in before;
            }
          }
          assert defs[..|defs|] == defs;
        }
        EdgeViaStep(cells, to, u);
        assert forall k: nat :: Defines(cells, k, name) <==> k < |cells| && name in cells[k].defines;
      }
      EdgeViaAll(cells, to);
    }
    assert forall e: (nat, nat) :: e in DepGraph(cells).edges <==>
      e.0 < |cells| && e.1 < |cells| && DependsOn(cells, e.0, e.1);
  }

  lemma EdgeViaStep(cells: seq<CellSpec>, to: int, u: int)
    requires 0 <= to < |cells| && 0 <= u < |cells[to].uses|
    ensures forall from: nat :: EdgeVia(cells, from, to, u + 1) <==>
      EdgeVia(cells, from, to, u) || (from < |cells| && from != to && cells[to].uses[u] in cells[from].defines)
  {
  }

  lemma EdgeViaAll(cells: seq<CellSpec>, to: int)
    requires 0 <= to < |cells|
    ensures forall from: nat :: EdgeVia(cells, from, to, |cells[to].uses|) <==> DependsOn(cells, from, to)
  {
    forall from: nat | DependsOn(cells, from, to)
      ensures EdgeVia(cells, from, to, |cells[to].uses|)
    {
      var v :| v in cells[from].defines && v in cells[to].uses;
      var u :| 0 <= u < |cells[to].uses| && cells[to].uses[u] == v;
    }
  }

  // ---- Topological order -------------------------------------------------------

  /** Removes and returns the smallest index of the ready queue. */
  method PopMin(ready: seq<nat>) returns (min: Option<nat>, rest: seq<nat>)
    ensures ready == [] ==> min.None? && rest == []
    ensures ready != [] ==> min.Some? && min.value in ready && forall v :: v in ready ==> min.value <= v
    ensures ready != [] ==> exists k :: 0 <= k < |ready| && ready[k] == min.value && rest == ready[..k] + ready[k + 1..]
  {
    if ready == [] {
      return None, [];
    }
    var at := 0;
    for k := 1 to |ready|
      invariant 0 <= at < k
      invariant forall j :: 0 <= j < k ==> ready[at] <= ready[j]
    {
      if ready[k] < ready[at] {
        at := k;
      }
    }
    min, rest := Some(ready[at]), ready[..at] + ready[at + 1..];
  }

  /** The edges into `j` whose source is not placed yet; their number is j's indegree. */
  ghost function Waiting(g: Graph, placed: seq<nat>, j: nat): set<(nat, nat)> {
    set e | e in g.edges && e.1 == j && e.0 !in placed
  }

  /** Placed nodes have placed predecessors only. */
  ghost predicate PredecessorClosed(g: Graph, placed: seq<nat>) {
    forall e :: e in g.edges && e.1 in placed ==> e.0 in placed
  }

  /** Every edge is counted at its target and listed at its source. */
  ghost predicate Indexed(g: Graph, es: seq<(nat, nat)>, adj: seq<seq<nat>>, indegree: seq<int>) {
    && |adj| == g.n && |indegree| == g.n
    && (forall j :: 0 <= j < g.n ==> indegree[j] == |EdgesTo(es, j)|)
    && (forall i :: 0 <= i < g.n ==> NoDup(adj[i]) && forall j :: j in adj[i] <==> (i, j) in es)
  }

  ghost function EdgesTo(es: seq<(nat, nat)>, j: nat): set<(nat, nat)> {
    set e | e in es && e.1 == j
  }

  method BuildAdjacency(n: nat, es: seq<(nat, nat)>, ghost g: Graph)
    returns (adj: array<seq<nat>>, indegree: array<int>)
    requires g.n == n && g.Valid() && NoDup(es) && ToSet(es) == g.edges
    ensures fresh(adj) && fresh(indegree)
    ensures Indexed(g, es, adj[..], indegree[..])
  {
    adj := new seq<nat>[n](_ => []);
    indegree := new int[n](_ => 0);
    for k := 0 to |es|
      invariant Indexed(g, es[..k], adj[..], indegree[..])
    {
      var (from, to) := es[k];
      IndexedStep(g, es, k, adj[..], indegree[..]);
      adj[from] := adj[from] + [to];
      indegree[to] := indegree[to] + 1;
    }
    assert es[..|es|] == es;
  }

  lemma IndexedStep(g: Graph, es: seq<(nat, nat)>, k: nat, adj: seq<seq<nat>>, indegree: seq<int>)
    requires g.Valid() && NoDup(es) && ToSet(es) == g.edges && k < |es|
    requires Indexed(g, es[..k], adj, indegree)
    ensures es[k].0 < g.n && es[k].1 < g.n
    ensures var (from, to) := es[k];
            Indexed(g, es[..k + 1], adj[from := adj[from] + [to]], indegree[to := indegree[to] + 1])
  {
    assert es[k] in ToSet(es);
    assert es[..k + 1] == es[..k] + [es[k]];
    EdgesToStep(es, k);
    assert es[k] !in es[..k];
  }

  lemma EdgesToStep(es: seq<(nat, nat)>, k: nat)
    requires NoDup(es) && k < |es|
    ensures forall j :: j != es[k].1 ==> EdgesTo(es[..k + 1], j) == EdgesTo(es[..k], j)
    ensures |EdgesTo(es[..k + 1], es[k].1)| == |EdgesTo(es[..k], es[k].1)| + 1
  {
    assert es[..k + 1] == es[..k] + [es[k]];
    assert es[k] !in EdgesTo(es[..k], es[k].1);
    assert EdgesTo(es[..k + 1], es[k].1) == EdgesTo(es[..k], es[k].1) + {es[k]};
  }

  /** Placing `i` takes one waiting edge from each successor and none from the others. */
  lemma PlaceOne(g: Graph, placed: seq<nat>, i: nat, j: nat)
    requires i !in placed && i < g.n
    ensures (i, j) in g.edges ==> |Waiting(g, placed, j)| == |Waiting(g, placed + [i], j)| + 1
    ensures (i, j) !in g.edges ==> Waiting(g, placed, j) == Waiting(g, placed + [i], j)
  {
    assert forall x :: x in placed + [i] <==> x in placed || x == i;
    if (i, j) in g.edges {
      assert Waiting(g, placed, j) == Waiting(g, placed + [i], j) + {(i, j)};
      assert (i, j) !in Waiting(g, placed + [i], j);
    }
  }

  lemma ReadyMeansNoneWaiting(g: Graph, placed: seq<nat>, j: nat)
    requires j < g.n
    ensures j in Ready(g, placed) <==> j !in placed && |Waiting(g, placed, j)| == 0
  {
    if Waiting(g, placed, j) != {} {
      var e :| e in Waiting(g, placed, j);
    } else {
      forall e | e in g.edges && e.1 == j ensures e.0 in placed {
        assert e !in Waiting(g, placed, j);
      }
    }
  }

  ghost function Placing(adj: seq<nat>, a: int, placed: seq<nat>, i: nat, j: nat): seq<nat>
    requires 0 <= a <= |adj|
  {
    if j in adj[..a] then placed + [i] else placed
  }

  /** The queue and the counters while the successors of `i` are being released. */
  ghost predicate Releasing(g: Graph, adj: seq<nat>, a: int, placed: seq<nat>, i: nat,
                            indegree: seq<int>, ready: seq<nat>)
  {
    && 0 <= a <= |adj| && |indegree| == g.n && NoDup(ready)
    && (forall j :: 0 <= j < g.n ==> indegree[j] == |Waiting(g, Placing(adj, a, placed, i, j), j)|)
    && (forall j: nat :: j in ready <==> j < g.n && j != i && j in Ready(g, Placing(adj, a, placed, i, j)))
  }

  /** `adj` lists the successors of `i`, which is about to be placed. */
  ghost predicate Successors(g: Graph, adj: seq<nat>, placed: seq<nat>, i: nat) {
    && g.Valid() && i < g.n && i in Ready(g, placed) && PredecessorClosed(g, placed)
    && NoDup(adj) && (forall j :: j in adj <==> (i, j) in g.edges)
    && forall e :: e in g.edges ==> e.0 != e.1
  }

  lemma ReleaseDone(g: Graph, adj: seq<nat>, placed: seq<nat>, i: nat, indegree: seq<int>, ready: seq<nat>)
    requires Successors(g, adj, placed, i)
    requires Releasing(g, adj, |adj|, placed, i, indegree, ready)
    ensures forall j :: 0 <= j < g.n ==> indegree[j] == |Waiting(g, placed + [i], j)|
    ensures ToSet(ready) == Ready(g, placed + [i])
  {
    assert adj[..|adj|] == adj;
    forall j: nat | j < g.n
      ensures indegree[j] == |Waiting(g, placed + [i], j)|
      ensures j in ready <==> j in Ready(g, placed + [i])
    {
      PlaceOne(g, placed, i, j);
      ReadyMeansNoneWaiting(g, placed, j);
      ReadyMeansNoneWaiting(g, placed + [i], j);
      assert Placing(adj, |adj|, placed, i, j) == if j in adj then placed + [i] else placed;
    }
  }

  /** One successor of `i` loses a waiting edge and becomes ready when it was the last. */
  lemma ReleaseStep(g: Graph, adj: seq<nat>, a: nat, placed: seq<nat>, i: nat,
                    indegree: seq<int>, ready: seq<nat>)
    requires Successors(g, adj, placed, i) && a < |adj|
    requires Releasing(g, adj, a, placed, i, indegree, ready)
    ensures adj[a] < g.n && indegree[adj[a]] > 0
    ensures var left := indegree[adj[a]] - 1;
            Releasing(g, adj, a + 1, placed, i, indegree[adj[a] := left],
                      if left == 0 then ready + [adj[a]] else ready)
  {
    var j := adj[a];
    assert (i, j) in g.edges;
    assert j !in adj[..a];
    PlaceOne(g, placed, i, j);
    ReadyMeansNoneWaiting(g, placed, j);
    ReadyMeansNoneWaiting(g, placed + [i], j);
    assert adj[..a + 1] == adj[..a] + [j];
    forall k: nat | k < g.n && k != j
      ensures Placing(adj, a + 1, placed, i, k) == Placing(adj, a, placed, i, k)
    {
    }
    assert (i, j) in Waiting(g, placed, j);
    assert j !in placed;
  }

  lemma PlaceReady(g: Graph, placed: seq<nat>, i: nat)
    requires Nodes(g, placed) && PredecessorClosed(g, placed)
    requires IsMin(i, Ready(g, placed))
    ensures Nodes(g, placed + [i]) && PredecessorClosed(g, placed + [i])
    ensures Greedy(g, placed + [i]) == Greedy(g, placed)
    ensures |placed| < g.n
  {
    assert i == Min(Ready(g, placed));
    NodesBound(g, placed + [i]);
  }

  lemma InitiallyReady(g: Graph, es: seq<(nat, nat)>, indegree: seq<int>, ready: seq<nat>)
    requires ToSet(es) == g.edges && |indegree| == g.n
    requires forall j :: 0 <= j < g.n ==> indegree[j] == |EdgesTo(es, j)|
    requires forall j: nat :: j in ready <==> j < g.n && indegree[j] == 0
    ensures forall j :: 0 <= j < g.n ==> indegree[j] == |Waiting(g, [], j)|
    ensures ToSet(ready) == Ready(g, [])
  {
    forall j: nat | j < g.n
      ensures indegree[j] == |Waiting(g, [], j)|
      ensures j in ready <==> j in Ready(g, [])
    {
      assert EdgesTo(es, j) == Waiting(g, [], j);
      ReadyMeansNoneWaiting(g, [], j);
    }
  }

  /** The queue and the counters at the start of releasing the successors of `i`. */
  lemma ReleaseStart(g: Graph, adj: seq<nat>, placed: seq<nat>, i: nat, indegree: seq<int>,
                     ready: seq<nat>, rest: seq<nat>)
    requires NoDup(ready) && ToSet(ready) == Ready(g, placed) && |indegree| == g.n
    requires exists k :: 0 <= k < |ready| && ready[k] == i && rest == ready[..k] + ready[k + 1..]
    requires forall j :: 0 <= j < g.n ==> indegree[j] == |Waiting(g, placed, j)|
    ensures Releasing(g, adj, 0, placed, i, indegree, rest)
  {
    var k :| 0 <= k < |ready| && ready[k] == i && rest == ready[..k] + ready[k + 1..];
    forall j: nat ensures j in rest <==> j != i && j in Ready(g, placed) {
      if j in ready && j != i {
        var m :| 0 <= m < |ready| && ready[m] == j;
        assert rest[if m < k then m else m - 1] == j;
      }
      assert j in ready <==> j in ToSet(ready);
    }
  }

  predicate InRange(adj: seq<nat>, n: nat) {
    forall k :: 0 <= k < |adj| ==> adj[k] < n
  }

  /** One counter lowered, and its node queued when it reaches zero. */
  ghost function Lowered(state: (seq<int>, seq<nat>), j: nat): (r: (seq<int>, seq<nat>))
    requires j < |state.0|
    ensures |r.0| == |state.0|
  {
    var left := state.0[j] - 1;
    (state.0[j := left], if left == 0 then state.1 + [j] else state.1)
  }

  /** The counters and the queue after lowering the counter of each node of `adj` in turn. */
  ghost function Released(adj: seq<nat>, indegree: seq<int>, ready: seq<nat>): (r: (seq<int>, seq<nat>))
    requires InRange(adj, |indegree|)
    ensures |r.0| == |indegree|
  {
    if adj == [] then (indegree, ready)
    else Lowered(Released(adj[..|adj| - 1], indegree, ready), adj[|adj| - 1])
  }

  /** Lowers the indegree of each successor, queueing those that reach zero. */
  method ReleaseSuccessors(adj: seq<nat>, indegree: array<int>, rest: seq<nat>) returns (ready: seq<nat>)
    requires InRange(adj, indegree.Length)
    modifies indegree
    ensures (indegree[..], ready) == Released(adj, old(indegree[..]), rest)
  {
    ready := rest;
    for a := 0 to |adj|
      invariant (indegree[..], ready) == Released(adj[..a], old(indegree[..]), rest)
    {
      var j := adj[a];
      assert adj[..a + 1][..a] == adj[..a];
      indegree[j] := indegree[j] - 1;
      if indegree[j] == 0 {
        ready := ready + [j];
      }
    }
    assert adj[..|adj|] == adj;
  }

  lemma {:induction false} ReleasedSoFar(g: Graph, adj: seq<nat>, a: nat, placed: seq<nat>, i: nat,
                                         indegree: seq<int>, rest: seq<nat>)
    requires Successors(g, adj, placed, i) && a <= |adj|
    requires Releasing(g, adj, 0, placed, i, indegree, rest)
    requires InRange(adj, |indegree|)
    ensures Releasing(g, adj, a, placed, i, Released(adj[..a], indegree, rest).0, Released(adj[..a], indegree, rest).1)
  {
    if a > 0 {
      ReleasedSoFar(g, adj, a - 1, placed, i, indegree, rest);
      assert adj[..a][..a - 1] == adj[..a - 1];
      ReleaseNext(g, adj, a - 1, placed, i, Released(adj[..a - 1], indegree, rest));
    }
  }

  lemma ReleaseNext(g: Graph, adj: seq<nat>, a: nat, placed: seq<nat>, i: nat, state: (seq<int>, seq<nat>))
    requires Successors(g, adj, placed, i) && a < |adj|
    requires Releasing(g, adj, a, placed, i, state.0, state.1)
    ensures adj[a] < |state.0|
    ensures Releasing(g, adj, a + 1, placed, i, Lowered(state, adj[a]).0, Lowered(state, adj[a]).1)
  {
    ReleaseStep(g, adj, a, placed, i, state.0, state.1);
  }

  lemma SuccessorsInRange(g: Graph, adj: seq<nat>, placed: seq<nat>, i: nat)
    requires Successors(g, adj, placed, i)
    ensures InRange(adj, g.n)
  {
    forall k | 0 <= k < |adj| ensures adj[k] < g.n {
      assert (i, adj[k]) in g.edges;
    }
  }

  method InitialQueue(indegree: array<int>) returns (ready: seq<nat>)
    ensures NoDup(ready)
    ensures forall j: nat :: j in ready <==> j < indegree.Length && indegree[j] == 0
  {
    ready := [];
    for i := 0 to indegree.Length
      invariant NoDup(ready)
      invariant forall j: nat :: j in ready <==> j < i && indegree[j] == 0
    {
      if indegree[i] == 0 {
        ready := ready + [i];
      }
    }
  }

  /** Between two rounds: what is placed, what is ready, and how many edges each node waits for. */
  ghost predicate Sorting(g: Graph, placed: seq<nat>, ready: seq<nat>, indegree: seq<int>) {
    && Nodes(g, placed) && PredecessorClosed(g, placed)
    && Greedy(g, placed) == Greedy(g, [])
    && NoDup(ready) && ToSet(ready) == Ready(g, placed)
    && |indegree| == g.n && forall j :: 0 <= j < g.n ==> indegree[j] == |Waiting(g, placed, j)|
  }

  /** Popping the smallest ready node and releasing its successors places it. */
  lemma RoundKeepsSorting(g: Graph, adj: seq<nat>, placed: seq<nat>, i: nat,
                          indegree: seq<int>, ready: seq<nat>, rest: seq<nat>)
    requires Sorting(g, placed, ready, indegree) && Successors(g, adj, placed, i)
    requires i in ready && forall v :: v in ready ==> i <= v
    requires exists k :: 0 <= k < |ready| && ready[k] == i && rest == ready[..k] + ready[k + 1..]
    ensures |placed| < g.n && InRange(adj, |indegree|)
    ensures Sorting(g, placed + [i], Released(adj, indegree, rest).1, Released(adj, indegree, rest).0)
  {
    assert forall v :: v in Ready(g, placed) ==> v in ToSet(ready);
    SuccessorsInRange(g, adj, placed, i);
    ReleaseStart(g, adj, placed, i, indegree, ready, rest);
    ReleasedSoFar(g, adj, |adj|, placed, i, indegree, rest);
    assert adj[..|adj|] == adj;
    var after := Released(adj, indegree, rest);
    ReleaseDone(g, adj, placed, i, after.0, after.1);
    PlaceReady(g, placed, i);
  }

  lemma StartsSorting(cells: seq<CellSpec>, g: Graph, es: seq<(nat, nat)>, indegree: seq<int>, ready: seq<nat>)
    requires g == DepGraph(cells) && ToSet(es) == g.edges && |indegree| == g.n && NoDup(ready)
    requires forall j :: 0 <= j < g.n ==> indegree[j] == |EdgesTo(es, j)|
    requires forall j: nat :: j in ready <==> j < g.n && indegree[j] == 0
    ensures Sorting(g, [], ready, indegree)
    ensures forall e :: e in g.edges ==> e.0 != e.1
  {
    InitiallyReady(g, es, indegree, ready);
  }

  lemma SuccessorsOf(g: Graph, es: seq<(nat, nat)>, adj: seq<seq<nat>>, indegree: seq<int>,
                     placed: seq<nat>, ready: seq<nat>, i: nat, counters: seq<int>)
    requires g.Valid() && ToSet(es) == g.edges && Indexed(g, es, adj, indegree)
    requires forall e :: e in g.edges ==> e.0 != e.1
    requires Sorting(g, placed, ready, counters) && i in ready
    ensures i < g.n && Successors(g, adj[i], placed, i)
  {
    assert i in ToSet(ready);
    forall j ensures j in adj[i] <==> (i, j) in g.edges {
      assert (i, j) in es <==> (i, j) in ToSet(es);
    }
  }

  /**
   A run order over the cells by id, or DependencyCycle. The order is the greedy
   one: at each step the first cell, in notebook order, whose dependencies have
   all run.
   */
  method TopoOrder(cells: seq<CellSpec>) returns (r: OrderResult)
    ensures var g := DepGraph(cells);
            r == if |Greedy(g, [])| == g.n then Ordered(Ids(cells, Greedy(g, []))) else DependencyCycle
  {
    var es := Edges(cells);
    ghost var g := DepGraph(cells);
    var adj, indegree := BuildAdjacency(|cells|, es, g);
    var ready := InitialQueue(indegree);
    ghost var placed: seq<nat> := [];
    ghost var adjacent, degrees := adj[..], indegree[..];
    StartsSorting(cells, g, es, degrees, ready);
    var order := [];
    while ready != []
      invariant Sorting(g, placed, ready, indegree[..])
      invariant order == Ids(cells, placed)
      invariant adj[..] == adjacent
      decreases g.n - |placed|
    {
      var min, rest := PopMin(ready);
      var i := min.value;
      SuccessorsOf(g, es, adjacent, degrees, placed, ready, i, indegree[..]);
      RoundKeepsSorting(g, adj[i], placed, i, indegree[..], ready, rest);
      order := order + [cells[i].id];
      ready := ReleaseSuccessors(adj[i], indegree, rest);
      placed := placed + [i];
    }
    if |order| != |cells| {
      return DependencyCycle;
    }
    return Ordered(order);
  }

  // ---- What the order promises ---------------------------------------------------

  /** The notebook, as listed, already runs every definer before its readers. */
  ghost predicate AlreadyOrdered(cells: seq<CellSpec>) {
    forall i, j, v ::
      (0 <= i < |cells| && 0 <= j < |cells| && i != j && v in cells[i].defines && v in cells[j].uses) ==> i < j
  }

  /**
   An order exists exactly when there is no dependency cycle. It is then a
   permutation of the cells that runs each definer before each other reader, and
   no other such permutation is lexicographically smaller.
   */
  lemma OrderIsSafe(cells: seq<CellSpec>)
    ensures var g, order := DepGraph(cells), Greedy(DepGraph(cells), []);
            && (|order| == |cells| <==> Acyclic(g))
            && (|order| == |cells| ==>
                  && Nodes(g, order)
                  && (forall i, j, v ::
                        (0 <= i < |cells| && 0 <= j < |cells| && i != j && v in cells[i].defines && v in cells[j].uses)
                        ==> Before(order, i, j))
                  && (forall other :: Topological(g, other) ==> LexLeq(order, other)))
  {
    var g := DepGraph(cells);
    var order := Greedy(g, []);
    GreedyCompleteIffAcyclic(g);
    if |order| == |cells| {
      NodesBound(g, order);
      forall i, j, v | 0 <= i < |cells| && 0 <= j < |cells| && i != j &&
        v in cells[i].defines && v in cells[j].uses
        ensures Before(order, i, j)
      {
        assert DependsOn(cells, i, j);
        assert i in order && j in order;
        var p :| 0 <= p < |order| && order[p] == i;
        var q :| 0 <= q < |order| && order[q] == j;
        assert (order[p], order[q]) in g.edges;
      }
      forall other | Topological(g, other) ensures LexLeq(order, other) {
        GreedyIsLexLeast(g, other);
      }
    }
  }

  /** The order changes nothing exactly when nothing needs to change. */
  lemma OrderedNotebookUnchanged(cells: seq<CellSpec>)
    ensures AlreadyOrdered(cells) <==> Greedy(DepGraph(cells), []) == Identity(|cells|)
  {
    var g := DepGraph(cells);
    if AlreadyOrdered(cells) {
      forall p, q | 0 <= p < g.n && 0 <= q < g.n && (p, q) in g.edges
        ensures p < q
      {
        assert DependsOn(cells, p, q);
      }
      GreedyKeepsValidOrder(g);
    } else {
      var i, j, v :| 0 <= i < |cells| && 0 <= j < |cells| && i != j &&
        v in cells[i].defines && v in cells[j].uses && i >= j;
      assert DependsOn(cells, i, j);
      assert (Identity(|cells|)[i], Identity(|cells|)[j]) in g.edges;
      GreedyForward(g);
    }
  }

  // ---- Downstream ------------------------------------------------------------------

  /** Breadth-first search over forward edges. */
  method Affected(n: nat, adj: array<seq<nat>>, start: nat, ghost g: Graph) returns (affected: set<nat>)
    requires g.Valid() && g.n == n == adj.Length && start < n
    requires forall i, j :: 0 <= i < n ==> (j in adj[i] <==> (i, j) in g.edges)
    ensures affected == ReachSet(g, start)
  {
    ReachSetLeastClosed(g, start, {});
    affected := {start};
    var queue := [start];
    while queue != []
      invariant start in affected && affected <= ReachSet(g, start)
      invariant forall i :: i in queue ==> i in affected
      invariant forall e :: e in g.edges && e.0 in affected && e.0 !in queue ==> e.1 in affected
      decreases ReachSet(g, start) - affected, |queue|
    {
      var i := queue[0];
      assert i in queue && i in ReachSet(g, start);
      ghost var before := affected;
      ghost var pending := queue[1..];
      assert queue == [i] + pending;
      queue := queue[1..];
      for a := 0 to |adj[i]|
        invariant before <= affected <= ReachSet(g, start)
        invariant |queue| >= |pending| && queue[..|pending|] == pending
        invariant affected == before ==> queue == pending
        invariant forall j :: j in queue <==> j in pending || (j in affected && j !in before)
        invariant forall j :: j in adj[i][..a] ==> j in affected
      {
        var j := adj[i][a];
        assert (i, j) in g.edges;
        if j !in affected {
          affected := affected + {j};
          queue := queue + [j];
        }
      }
      assert adj[i][..|adj[i]|] == adj[i];
      forall e | e in g.edges && e.0 in affected && e.0 !in queue
        ensures e.1 in affected
      {
        if e.0 == i {
          assert e.1 in adj[i];
        }
      }
    }
    ReachSetLeastClosed(g, start, affected);
  }

  /**
   The changed cell and every cell that transitively depends on it, in run
   order; empty when the cell is unknown or the notebook has a cycle.
   */
  method Downstream(cells: seq<CellSpec>, changed: Uuid) returns (r: seq<Uuid>)
    ensures var g, start := DepGraph(cells), Position(cells, changed);
            r == if start == |cells| || |Greedy(g, [])| != g.n then []
                 else KeepAffected(cells, Ids(cells, Greedy(g, [])), ReachSet(g, start))
  {
    var start := Position(cells, changed);
    if start == |cells| {
      return [];
    }
    var es := Edges(cells);
    ghost var g := DepGraph(cells);
    var adj, indegree := BuildAdjacency(|cells|, es, g);
    assert forall i, j :: 0 <= i < |cells| ==> (j in adj[i] <==> (i, j) in ToSet(es));
    var affected := Affected(|cells|, adj, start, g);
    var sorted := TopoOrder(cells);
    match sorted
    case DependencyCycle => r := [];
    case Ordered(order) => r := FilterAffected(cells, order, affected);
  }

  method FilterAffected(cells: seq<CellSpec>, order: seq<Uuid>, affected: set<nat>) returns (r: seq<Uuid>)
    ensures r == KeepAffected(cells, order, affected)
  {
    r := [];
    for k := 0 to |order|
      invariant r == KeepAffected(cells, order[..k], affected)
    {
      assert order[..k + 1][..k] == order[..k];
      if Position(cells, order[k]) in affected {
        r := r + [order[k]];
      }
    }
    assert order[..|order|] == order;
  }

  /** `ids` are the ids of the cells at `indices`, one by one. */
  ghost predicate Names(cells: seq<CellSpec>, ids: seq<Uuid>, indices: seq<nat>) {
    |ids| == |indices| && forall k :: 0 <= k < |ids| ==> indices[k] < |cells| && ids[k] == cells[indices[k]].id
  }

  lemma PositionOfId(cells: seq<CellSpec>, i: nat)
    requires DistinctIds(cells) && i < |cells|
    ensures Position(cells, cells[i].id) == i
  {
    assert forall p :: 0 <= p < i ==> cells[p].id != cells[i].id;
  }

  lemma NamesSnoc(cells: seq<CellSpec>, ids: seq<Uuid>, indices: seq<nat>, i: nat)
    requires Names(cells, ids, indices) && i < |cells|
    ensures Names(cells, ids + [cells[i].id], indices + [i])
  {
  }

  lemma {:induction false} KeepAffectedIsRestrict(cells: seq<CellSpec>, ids: seq<Uuid>, order: seq<nat>,
                                                  affected: set<nat>)
    requires DistinctIds(cells) && Names(cells, ids, order)
    ensures Names(cells, KeepAffected(cells, ids, affected), Restrict(order, affected))
  {
    if order != [] {
      var front, last := order[..|order| - 1], order[|order| - 1];
      KeepAffectedIsRestrict(cells, ids[..|ids| - 1], front, affected);
      PositionOfId(cells, last);
      if last in affected {
        NamesSnoc(cells, KeepAffected(cells, ids[..|ids| - 1], affected), Restrict(front, affected), last);
      }
    }
  }

  lemma ReachedIsNode(g: Graph, start: nat)
    requires g.Valid() && start < g.n
    ensures forall i: nat :: Reaches(g, start, i) <==> i in ReachSet(g, start)
  {
    forall i: nat | Reaches(g, start, i) ensures i in ReachSet(g, start) {
      var p :| PathFromTo(g, p, start, i);
      if |p| > 1 {
        assert (p[|p| - 2], p[|p| - 1]) in g.edges;
      }
    }
  }

  /**
   With distinct ids and no cycle, the cells to run again are exactly those
   reachable from the changed one, each once, in the relative order of the whole
   run; they are closed under dependents and no smaller closed set holds the
   changed cell.
   */
  lemma DownstreamIsExact(cells: seq<CellSpec>, start: nat)
    requires DistinctIds(cells) && start < |cells| && Acyclic(DepGraph(cells))
    ensures var g := DepGraph(cells);
            var order, again := Greedy(g, []), Restrict(Greedy(g, []), ReachSet(g, start));
            && Position(cells, cells[start].id) == start
            && KeepAffected(cells, Ids(cells, order), ReachSet(g, start)) == Ids(cells, again)
            && NoDup(again) && Forward(g, again)
            && (forall i: nat :: i in again <==> Reaches(g, start, i))
            && (forall a, b :: 0 <= a < b < |again| ==> Before(order, again[a], again[b]))
            && (forall s :: start in s && ClosedUnder(g, s) ==> ToSet(again) <= s)
            && start in again && ClosedUnder(g, ToSet(again))
  {
    var g := DepGraph(cells);
    GreedyCompleteIffAcyclic(g);
    var order := Greedy(g, []);
    NodesBound(g, order);
    KeepAffectedIsRestrict(cells, Ids(cells, order), order, ReachSet(g, start));
    PositionOfId(cells, start);
    RestrictKeepsOrder(order, ReachSet(g, start));
    RestrictForward(g, order, ReachSet(g, start));
    forall s ensures start in s && ClosedUnder(g, s) ==> ReachSet(g, start) <= s {
      ReachSetLeastClosed(g, start, s);
    }
    ReachSetLeastClosed(g, start, {});
    ReachedIsNode(g, start);
    assert ToSet(Restrict(order, ReachSet(g, start))) == ReachSet(g, start);
  }
}
