/**
 Which of the cells to run again the values of the variables depend on.

 In a notebook where each variable has one definer, no cell needs a variable it
 binds, and every cell reads all it lists other than its own names, they depend on
 each that binds one: there is code, and an edit, for which leaving it out leaves a
 wrong value. The others run again for what they display, which module
 NotebookDisplay adds.
 */
module NotebookMinimal {
  import opened Graphs
  import opened NotebookGraph
  import opened NotebookRerun
  import opened NotebookEdit

  /** Every cell really reads all the variables it lists, other than those it binds, which are always listed. */
  ghost predicate ReadsAllListed(cells: seq<CellSpec>, needs: Needs) {
    forall i, v :: 0 <= i < |cells| && v in cells[i].uses && v !in cells[i].defines ==> v in needs(i)
  }

  /** After a full run and any edit of cell `start`, running just the cells of `keep` again equals a full run. */
  ghost predicate KeepSuffices(cells: seq<CellSpec>, needs: Needs, start: nat, keep: set<nat>) {
    forall code: Code, edited: Code, s: State :: SameExcept(code, edited, start) ==>
      Run(cells, needs, edited, Restrict(Order(cells), keep), Run(cells, needs, code, Order(cells), s))
      == Run(cells, needs, edited, Order(cells), s)
  }

  ghost predicate BindsSomething(cells: seq<CellSpec>, i: nat) {
    exists v :: Defines(cells, i, v)
  }

  // ---- No value depends on what binds nothing ----------------------------------------------------------

  /** Running the affected cells that bind something settles the whole notebook. */
  lemma BindersSettle(cells: seq<CellSpec>, needs: Needs, start: nat, keep: set<nat>, code: Code, before: State)
    requires Disciplined(cells, needs) && Acyclic(DepGraph(cells)) && start < |cells|
    requires keep <= ReachSet(DepGraph(cells), start)
    requires forall i :: i in ReachSet(DepGraph(cells), start) && BindsSomething(cells, i) ==> i in keep
    requires forall i: nat :: i < |cells| && i != start ==> Settled(cells, needs, code, i, before)
    ensures forall i: nat :: i < |cells| ==>
      Settled(cells, needs, code, i, Run(cells, needs, code, Restrict(Order(cells), keep), before))
  {
    var g, order := DepGraph(cells), Order(cells);
    var affected := ReachSet(g, start);
    GreedyCompleteIffAcyclic(g);
    ReachSetLeastClosed(g, start, {});
    RestrictKeepsOrder(order, keep);
    RestrictForward(g, order, keep);
    NodesBound(g, order);
    var settled := set i: nat | i < |cells| && i !in affected;
    assert Nodes(g, Restrict(order, keep));
    RunSettles(cells, needs, code, Restrict(order, keep), settled, before);
    var after := Run(cells, needs, code, Restrict(order, keep), before);
    forall i: nat | i < |cells| ensures Settled(cells, needs, code, i, after) {
      assert i in order;
      assert BindsSomething(cells, i) ==> i in settled || i in Restrict(order, keep);
    }
  }

  lemma BindersSuffice(cells: seq<CellSpec>, needs: Needs, start: nat, keep: set<nat>,
                       code: Code, edited: Code, s: State)
    requires Disciplined(cells, needs) && Acyclic(DepGraph(cells)) && start < |cells| && SameExcept(code, edited, start)
    requires keep <= ReachSet(DepGraph(cells), start)
    requires forall i :: i in ReachSet(DepGraph(cells), start) && BindsSomething(cells, i) ==> i in keep
    ensures Run(cells, needs, edited, Restrict(Order(cells), keep), Run(cells, needs, code, Order(cells), s))
         == Run(cells, needs, edited, Order(cells), s)
  {
    var before := Run(cells, needs, code, Order(cells), s);
    var partial := Run(cells, needs, edited, Restrict(Order(cells), keep), before);
    var full := Run(cells, needs, edited, Order(cells), s);
    FullRunSettles(cells, needs, code, s);
    forall i: nat | i < |cells| && i != start ensures Settled(cells, needs, edited, i, before) {
      SettledCarriesOver(cells, needs, cells, needs, start, code, edited, i, before);
    }
    BindersSettle(cells, needs, start, keep, edited, before);
    FullRunSettles(cells, needs, edited, s);
    forall v | Undefined(cells, v) ensures SameAt(partial, full, v) {
      RunKeepsUndefined(cells, needs, edited, Restrict(Order(cells), keep), before, v);
      RunKeepsUndefined(cells, needs, code, Order(cells), s, v);
      RunKeepsUndefined(cells, needs, edited, Order(cells), s, v);
    }
    SettledStatesEqual(cells, needs, edited, Order(cells), partial, full);
  }

  // ---- What binds something cannot -------------------------------------------------------------------

  ghost predicate SeesOne(view: State) {
    exists u :: u in view && view[u] == Number(1)
  }

  /** The edited cell gives `value`; any other gives 1 when it sees one, and 0 otherwise. */
  ghost function Spread(start: nat, value: int): Code {
    (i: nat, view: State, v: string) => Number(if i == start then value else if SeesOne(view) then 1 else 0)
  }

  ghost predicate AllZero(s: State) {
    forall v :: v in s ==> s[v] == Number(0)
  }

  /** Before the edit nothing is 1. */
  lemma {:induction false} NothingToSpread(cells: seq<CellSpec>, needs: Needs, start: nat, order: seq<nat>)
    ensures AllZero(Run(cells, needs, Spread(start, 0), order, map[]))
  {
    if order != [] {
      var s := Run(cells, needs, Spread(start, 0), order[..|order| - 1], map[]);
      NothingToSpread(cells, needs, start, order[..|order| - 1]);
      ZeroStaysZero(cells, needs, start, order[|order| - 1], s);
    }
  }

  lemma ZeroStaysZero(cells: seq<CellSpec>, needs: Needs, start: nat, i: nat, s: State)
    requires AllZero(s)
    ensures AllZero(Exec(cells, needs, Spread(start, 0), i, s))
  {
    assert !SeesOne(View(s, needs(i)));
  }

  /** After it, the 1 has spread along every path from the edited cell. */
  lemma {:induction false} OneSpreads(cells: seq<CellSpec>, needs: Needs, start: nat, p: seq<nat>, full: State)
    requires Disciplined(cells, needs) && ReadsAllListed(cells, needs)
    requires IsPath(DepGraph(cells), p) && p[0] == start
    requires forall i: nat :: i < |cells| ==> Settled(cells, needs, Spread(start, 1), i, full)
    ensures forall v :: Defines(cells, p[|p| - 1], v) ==> v in full && full[v] == Number(1)
    decreases |p|
  {
    var r := p[|p| - 1];
    if |p| > 1 {
      var front := p[..|p| - 1];
      OneSpreads(cells, needs, start, front, full);
      assert (p[|p| - 2], r) in DepGraph(cells).edges;
      var u :| u in cells[p[|p| - 2]].defines && u in cells[r].uses;
      assert Defines(cells, front[|front| - 1], u) && !Defines(cells, r, u);
      assert u in View(full, needs(r)) && View(full, needs(r))[u] == Number(1);
      assert SeesOne(View(full, needs(r)));
    }
    forall v | Defines(cells, r, v) ensures v in full && full[v] == Number(1) {
      assert Settled(cells, needs, Spread(start, 1), r, full);
      assert full[v] == Spread(start, 1)(r, View(full, needs(r)), v);
    }
  }

  lemma SkippedKeepsValue(cells: seq<CellSpec>, needs: Needs, code: Code, keep: set<nat>, r: nat, v: string, s: State)
    requires Disciplined(cells, needs) && Defines(cells, r, v) && r !in keep
    ensures SameAt(Run(cells, needs, code, Restrict(Order(cells), keep), s), s, v)
  {
    var order := Restrict(Order(cells), keep);
    forall k | 0 <= k < |order| ensures !Defines(cells, order[k], v) {
      assert order[k] in order;
    }
    assert order[0..] == order && order[..0] == [];
    UnwrittenKept(cells, needs, code, order, 0, s, v);
  }

  /** Skipping an affected cell that binds `v` leaves `v` as it was before the edit. */
  lemma SkippingShows(cells: seq<CellSpec>, needs: Needs, start: nat, keep: set<nat>, r: nat, v: string)
    requires Disciplined(cells, needs) && Acyclic(DepGraph(cells)) && ReadsAllListed(cells, needs)
    requires start < |cells| && r in ReachSet(DepGraph(cells), start) && r !in keep && Defines(cells, r, v)
    ensures !KeepSuffices(cells, needs, start, keep)
  {
    var unedited, edited := Spread(start, 0), Spread(start, 1);
    var before := Run(cells, needs, unedited, Order(cells), map[]);
    var full := Run(cells, needs, edited, Order(cells), map[]);
    FullRunBinds(cells, needs, unedited, r, v);
    NothingToSpread(cells, needs, start, Order(cells));
    FullRunSettles(cells, needs, edited, map[]);
    ReachedIsNode(DepGraph(cells), start);
    var p :| PathFromTo(DepGraph(cells), p, start, r);
    OneSpreads(cells, needs, start, p, full);
    SkippedKeepsValue(cells, needs, edited, keep, r, v, before);
    assert SameExcept(unedited, edited, start);
  }

  /**
   Of the affected cells, those of `keep` leave the variables right, for every code,
   edit and state, exactly when `keep` has all that bind something.
   */
  lemma KeepSufficesIff(cells: seq<CellSpec>, needs: Needs, start: nat, keep: set<nat>)
    requires Disciplined(cells, needs) && Acyclic(DepGraph(cells)) && ReadsAllListed(cells, needs)
    requires start < |cells| && keep <= ReachSet(DepGraph(cells), start)
    ensures KeepSuffices(cells, needs, start, keep) <==>
      forall i :: i in ReachSet(DepGraph(cells), start) && BindsSomething(cells, i) ==> i in keep
  {
    if forall i :: i in ReachSet(DepGraph(cells), start) && BindsSomething(cells, i) ==> i in keep {
      forall code: Code, edited: Code, s: State | SameExcept(code, edited, start)
        ensures Run(cells, needs, edited, Restrict(Order(cells), keep), Run(cells, needs, code, Order(cells), s))
             == Run(cells, needs, edited, Order(cells), s)
      {
        BindersSuffice(cells, needs, start, keep, code, edited, s);
      }
    } else {
      var r :| r in ReachSet(DepGraph(cells), start) && BindsSomething(cells, r) && r !in keep;
      var v :| Defines(cells, r, v);
      SkippingShows(cells, needs, start, keep, r, v);
    }
  }
}
