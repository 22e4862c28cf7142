/**
 What cells display, the output of a chart for one, takes part in what a re-run
 has to bring up to date. It is one more variable per cell, bound by that cell
 alone and, as far as the analysis knows, read by none.

 With displays, the condition under which the re-run cells are enough needs no
 recursion over what they bind. With one binder per variable, the cells that can be
 left out are exactly those that do not depend on the edited one by what they
 really read, so that where cells read all they list, other than their own names,
 the re-run set is minimal. And a re-run that restores the variables restores every
 display.
 */
module NotebookDisplay {
  import opened Graphs
  import opened NotebookGraph
  import opened NotebookRerun
  import opened NotebookEdit
  import opened NotebookMinimal

  /** The variable that stands for what cell `i` displays. */
  type Shown = nat -> string

  // ---- Whatever cells really bind and read ----------------------------------------------------

  /** Every cell binds its display, and no other cell does. */
  ghost predicate AllDisplay(now: Version, shown: Shown) {
    forall c, d :: c in now.order && d in now.order ==> (Defines(now.cells, d, shown(c)) <==> c == d)
  }

  /** A re-run cell reads fresh values if its display comes right. */
  lemma DisplayReadsFresh(now: Version, shown: Shown, keep: set<nat>, start: nat, k: nat, v: string)
    requires Versions(now, now, start) && AllDisplay(now, shown)
    requires k < |now.order| && now.order[k] in keep && v in now.needs(now.order[k])
    requires ComesRight(now, now, Restrict(now.order, keep), start, |Restrict(now.order, keep)|, |now.order|,
                        shown(now.order[k]))
    ensures ReadsFresh(now.cells, now.order, keep, k, v)
  {
    var order, again := now.order, Restrict(now.order, keep);
    assert order[k] in again;
    var j := Writer(now.cells, again, |again|, shown(order[k]));
    assert again[j] == order[k] && PositionOf(order, again[j]) == k;
    assert ComesRight(now, now, again, start, j, k, v);
    AlignedAt(order, keep, j);
    if Writer(now.cells, again, j, v) < 0 {
      forall q | 0 <= q < k && order[q] in keep ensures !Defines(now.cells, order[q], v) {
        assert order[q] in again[..j];
      }
    }
  }

  /** A cell that does not re-run is unaffected if its display comes right. */
  lemma DisplayIsUnaffected(now: Version, shown: Shown, keep: set<nat>, start: nat, k: nat)
    requires Versions(now, now, start) && AllDisplay(now, shown)
    requires k < |now.order| && now.order[k] !in keep
    requires ComesRight(now, now, Restrict(now.order, keep), start, |Restrict(now.order, keep)|, |now.order|,
                        shown(now.order[k]))
    ensures Unaffected(now, now, start, k)
  {
    var again := Restrict(now.order, keep);
    assert now.order[k] in now.order && Defines(now.cells, now.order[k], shown(now.order[k]));
    var w := Writer(now.cells, now.order, |now.order|, shown(now.order[k]));
    assert now.order[w] in now.order && w == k;
    forall r | 0 <= r < |again| ensures !Defines(now.cells, again[r], shown(now.order[k])) {
      assert again[r] in again && again[r] in now.order && again[r] != now.order[k];
    }
  }

  lemma DisplaysAreRight(now: Version, shown: Shown, keep: set<nat>, start: nat)
    requires Versions(now, now, start) && AllDisplay(now, shown)
    requires forall v ::
      ComesRight(now, now, Restrict(now.order, keep), start, |Restrict(now.order, keep)|, |now.order|, v)
    ensures RerunRight(now, keep, start)
  {
    var order, again := now.order, Restrict(now.order, keep);
    forall k, v | 0 <= k < |order| && order[k] in keep && Defines(now.cells, order[k], v)
      ensures LastWriterIn(now.cells, order, |order|, v, keep)
    {
      assert order[k] in again;
      assert ComesRight(now, now, again, start, |again|, |order|, v);
    }
    forall k, v | 0 <= k < |order| && order[k] in keep && v in now.needs(order[k])
      ensures ReadsFresh(now.cells, order, keep, k, v)
    {
      DisplayReadsFresh(now, shown, keep, start, k, v);
    }
    forall k | 0 <= k < |order| && order[k] !in keep ensures Unaffected(now, now, start, k) {
      DisplayIsUnaffected(now, shown, keep, start, k);
    }
  }

  /**
   Whatever the cells really bind and read: running just those of `keep` again
   leaves every variable and every display as a full run does, for every code and
   edit of cell `start`, exactly when they are not overwritten by others and read
   fresh values, and no other cell depends, step by step, on the edited one.
   */
  lemma RerunSufficesIffRight(now: Version, shown: Shown, keep: set<nat>, start: nat)
    requires Versions(now, now, start) && AllDisplay(now, shown)
    ensures PartialSuffices(now, now, Restrict(now.order, keep), start) <==> RerunRight(now, keep, start)
  {
    var order, again := now.order, Restrict(now.order, keep);
    PartialSufficesIff(now, now, again, start);
    if RerunRight(now, keep, start) {
      forall v ensures ComesRight(now, now, again, start, |again|, |order|, v) {
        RightComesRight(now, keep, start, v);
      }
    }
    if PartialSuffices(now, now, again, start) {
      DisplaysAreRight(now, shown, keep, start);
    }
  }

  // ---- Cells that bind what is listed, and their displays ----------------------------------------

  ghost function WithDisplays(cells: seq<CellSpec>, shown: Shown): (r: seq<CellSpec>)
    ensures |r| == |cells|
    ensures forall i :: 0 <= i < |r| ==> r[i] == cells[i].(defines := cells[i].defines + [shown(i)])
  {
    seq(|cells|, i requires 0 <= i < |cells| => cells[i].(defines := cells[i].defines + [shown(i)]))
  }

  /** Displays are no variables of the notebook, and no two cells share one. */
  ghost predicate Displays(cells: seq<CellSpec>, needs: Needs, shown: Shown) {
    && (forall i, j :: 0 <= i < |cells| && 0 <= j < |cells| && shown(i) == shown(j) ==> i == j)
    && (forall i, j :: 0 <= i < |cells| && 0 <= j < |cells| ==>
         shown(i) !in cells[j].defines && shown(i) !in cells[j].uses && shown(i) !in needs(j))
  }

  ghost predicate IsDisplay(cells: seq<CellSpec>, shown: Shown, v: string) {
    exists i :: 0 <= i < |cells| && shown(i) == v
  }

  lemma DisplayDefines(cells: seq<CellSpec>, needs: Needs, shown: Shown, i: nat, v: string)
    requires Displays(cells, needs, shown)
    ensures Defines(WithDisplays(cells, shown), i, v) <==> Defines(cells, i, v) || (i < |cells| && v == shown(i))
  {
  }

  lemma SameGraph(cells: seq<CellSpec>, needs: Needs, shown: Shown)
    requires Displays(cells, needs, shown)
    ensures DepGraph(WithDisplays(cells, shown)) == DepGraph(cells)
  {
    var all := WithDisplays(cells, shown);
    forall i, j ensures DependsOn(all, i, j) <==> DependsOn(cells, i, j) {
      if DependsOn(all, i, j) {
        var v :| v in all[i].defines && v in all[j].uses;
        assert v in cells[i].defines && v in cells[j].uses;
      }
      if DependsOn(cells, i, j) {
        var v :| v in cells[i].defines && v in cells[j].uses;
        assert v in all[i].defines && v in all[j].uses;
      }
    }
  }

  // ---- Which cells can be left out ------------------------------------------------------------------

  ghost predicate OneBinder(cells: seq<CellSpec>) {
    forall i, j, v :: Defines(cells, i, v) && Defines(cells, j, v) ==> i == j
  }

  ghost predicate ReallyDepends(cells: seq<CellSpec>, needs: Needs, from: nat, to: nat) {
    from != to && exists v :: Defines(cells, from, v) && v in needs(to)
  }

  /** The dependencies on what cells really read. */
  ghost function NeedGraph(cells: seq<CellSpec>, needs: Needs): (g: Graph)
    ensures g.Valid()
  {
    Graph(|cells|,
          set i: nat, j: nat | i < |cells| && j < |cells| && ReallyDepends(cells, needs, i, j) :: (i, j))
  }

  /** Another cell that binds what a cell reads runs before it, and is the last to do so. */
  lemma BinderRunsBefore(cells: seq<CellSpec>, needs: Needs, k: nat, i: nat, v: string)
    requires NeedsListed(cells, needs) && Acyclic(DepGraph(cells)) && OneBinder(cells)
    requires k < |Order(cells)| && v in needs(Order(cells)[k]) && Defines(cells, i, v) && i != Order(cells)[k]
    ensures var w := Writer(cells, Order(cells), k, v); w >= 0 && Order(cells)[w] == i
  {
    var order := Order(cells);
    OrderFacts(cells, needs, i);
    NodesBound(DepGraph(cells), order);
    assert i in order;
    var p :| 0 <= p < |order| && order[p] == i;
    assert DependsOn(cells, i, order[k]);
    assert (order[p], order[k]) in DepGraph(cells).edges;
  }

  /** With one binder per variable, the affected cells are those that depend on the edited one by what they read. */
  lemma {:induction false} UnaffectedIff(cells: seq<CellSpec>, needs: Needs, start: nat, k: nat)
    requires NeedsListed(cells, needs) && Acyclic(DepGraph(cells)) && OneBinder(cells) && start < |cells|
    requires Versions(Current(cells, needs), Current(cells, needs), start) && k < |Order(cells)|
    ensures Unaffected(Current(cells, needs), Current(cells, needs), start, k) <==>
      Order(cells)[k] !in ReachSet(NeedGraph(cells, needs), start)
  {
    var order, now, g := Order(cells), Current(cells, needs), NeedGraph(cells, needs);
    var c := order[k];
    ReachesSelf(g, start);
    assert PositionOf(order, c) == k;
    if c != start && c in ReachSet(g, start) {
      var e := ReachesLastStep(g, start, c);
      var v :| Defines(cells, e.0, v) && v in needs(c);
      BinderRunsBefore(cells, needs, k, e.0, v);
      UnaffectedIff(cells, needs, start, Writer(cells, order, k, v));
      assert !SameMaker(now, now, start, Writer(cells, order, k, v), Writer(cells, order, k, v));
    }
    if c != start && !Unaffected(now, now, start, k) {
      var v :| v in needs(c) && !SameMaker(now, now, start, Writer(cells, order, k, v), Writer(cells, order, k, v));
      var w := Writer(cells, order, k, v);
      UnaffectedIff(cells, needs, start, w);
      assert ReallyDepends(cells, needs, order[w], c);
      ReachesStep(g, start, order[w], c);
    }
  }

  /** With one binder per variable, a re-run cell reads fresh values unless it updates a variable in place. */
  lemma FreshUnlessUpdated(cells: seq<CellSpec>, needs: Needs, keep: set<nat>, k: nat, v: string)
    requires NeedsListed(cells, needs) && Acyclic(DepGraph(cells)) && OneBinder(cells)
    requires k < |Order(cells)| && v in needs(Order(cells)[k])
    ensures ReadsFresh(cells, Order(cells), keep, k, v) <==> !Defines(cells, Order(cells)[k], v)
  {
    var order := Order(cells);
    var w, last := Writer(cells, order, k, v), Writer(cells, order, |order|, v);
    if Defines(cells, order[k], v) {
      assert w < 0 && last >= k;
    } else if last >= 0 {
      BinderRunsBefore(cells, needs, k, order[last], v);
      assert order[w] == order[last];
    }
  }

  lemma DisplaysAlone(cells: seq<CellSpec>, needs: Needs, shown: Shown, start: nat)
    requires Acyclic(DepGraph(cells)) && Displays(cells, needs, shown) && start < |cells|
    ensures var now := Current(WithDisplays(cells, shown), needs); Versions(now, now, start) && AllDisplay(now, shown)
  {
    var now := Current(WithDisplays(cells, shown), needs);
    SameGraph(cells, needs, shown);
    OrderFacts(now.cells, needs, start);
    forall c, d | c in now.order && d in now.order ensures Defines(now.cells, d, shown(c)) <==> c == d {
      DisplayDefines(cells, needs, shown, d, shown(c));
    }
  }

  /** All cells that depend on `start` by what they really read, and none that updates a variable in place. */
  ghost predicate Complete(cells: seq<CellSpec>, needs: Needs, start: nat, keep: set<nat>) {
    ReachSet(NeedGraph(cells, needs), start) <= keep && forall i, v :: i in keep ==> !UpdatesInPlace(cells, needs, i, v)
  }

  /**
   With one binder per variable: running just the cells of `keep` again is enough,
   for every code and edit of cell `start`, exactly when `keep` has all that depend
   on it by what they really read, and none that updates a variable in place.
   */
  lemma LeaveOutIff(cells: seq<CellSpec>, needs: Needs, shown: Shown, start: nat, keep: set<nat>)
    requires NeedsListed(cells, needs) && Acyclic(DepGraph(cells)) && OneBinder(cells) && start < |cells|
    requires Displays(cells, needs, shown)
    ensures KeepSuffices(WithDisplays(cells, shown), needs, start, keep) <==> Complete(cells, needs, start, keep)
  {
    var all := WithDisplays(cells, shown);
    var now := Current(all, needs);
    SameGraph(cells, needs, shown);
    OneBinderToo(cells, needs, shown);
    DisplaysAlone(cells, needs, shown, start);
    assert NeedsListed(all, needs);
    hide WithDisplays, Complete, DepGraph, Acyclic, Run, OneBinder, Displays, NeedsListed, RerunRight, AllDisplay;
    RerunSufficesIffRight(now, shown, keep, start);
    CompleteToo(cells, needs, shown, start, keep);
    if Complete(all, needs, start, keep) {
      CompleteIsRight(all, needs, start, keep);
    }
    if RerunRight(now, keep, start) {
      RightIsComplete(all, needs, start, keep);
    }
  }

  lemma OneBinderToo(cells: seq<CellSpec>, needs: Needs, shown: Shown)
    requires OneBinder(cells) && Displays(cells, needs, shown)
    ensures OneBinder(WithDisplays(cells, shown))
    ensures NeedGraph(WithDisplays(cells, shown), needs) == NeedGraph(cells, needs)
  {
    var all := WithDisplays(cells, shown);
    forall i: nat, j: nat, v | Defines(all, i, v) && Defines(all, j, v) ensures i == j {
      DisplayDefines(cells, needs, shown, i, v);
      DisplayDefines(cells, needs, shown, j, v);
    }
    forall i: nat, j: nat | i < |cells| && j < |cells|
      ensures ReallyDepends(all, needs, i, j) <==> ReallyDepends(cells, needs, i, j)
    {
      forall v | v in needs(j) ensures Defines(all, i, v) <==> Defines(cells, i, v) {
        DisplayDefines(cells, needs, shown, i, v);
      }
    }
  }

  lemma CompleteToo(cells: seq<CellSpec>, needs: Needs, shown: Shown, start: nat, keep: set<nat>)
    requires OneBinder(cells) && Displays(cells, needs, shown)
    ensures Complete(WithDisplays(cells, shown), needs, start, keep) <==> Complete(cells, needs, start, keep)
  {
    var all := WithDisplays(cells, shown);
    OneBinderToo(cells, needs, shown);
    forall i: nat, v ensures UpdatesInPlace(all, needs, i, v) <==> UpdatesInPlace(cells, needs, i, v) {
      DisplayDefines(cells, needs, shown, i, v);
    }
  }

  lemma CompleteIsRight(cells: seq<CellSpec>, needs: Needs, start: nat, keep: set<nat>)
    requires NeedsListed(cells, needs) && Acyclic(DepGraph(cells)) && OneBinder(cells) && start < |cells|
    requires Versions(Current(cells, needs), Current(cells, needs), start) && Complete(cells, needs, start, keep)
    ensures RerunRight(Current(cells, needs), keep, start)
  {
    var order, now := Order(cells), Current(cells, needs);
    hide DepGraph, Acyclic, NeedGraph, Order, Versions, Unaffected, ReadsFresh, NeedsListed, OneBinder;
    OneBinderNotOverwritten(cells, order, keep);
    forall k, v | 0 <= k < |order| && order[k] in keep && v in needs(order[k])
      ensures ReadsFresh(cells, order, keep, k, v)
    {
      FreshUnlessUpdated(cells, needs, keep, k, v);
      assert !UpdatesInPlace(cells, needs, order[k], v);
    }
    forall k | 0 <= k < |order| && order[k] !in keep ensures Unaffected(now, now, start, k) {
      UnaffectedIff(cells, needs, start, k);
    }
  }

  lemma RightIsComplete(cells: seq<CellSpec>, needs: Needs, start: nat, keep: set<nat>)
    requires NeedsListed(cells, needs) && Acyclic(DepGraph(cells)) && OneBinder(cells) && start < |cells|
    requires Versions(Current(cells, needs), Current(cells, needs), start)
    requires RerunRight(Current(cells, needs), keep, start)
    ensures Complete(cells, needs, start, keep)
  {
    var order, now := Order(cells), Current(cells, needs);
    forall i | i in ReachSet(NeedGraph(cells, needs), start) ensures i in keep {
      ReachedIsCell(cells, needs, start, i);
      var k := PlaceOf(cells, needs, i);
      UnaffectedIff(cells, needs, start, k);
    }
    forall i, v | i in keep ensures !UpdatesInPlace(cells, needs, i, v) {
      if Defines(cells, i, v) && v in needs(i) {
        var k := PlaceOf(cells, needs, i);
        FreshUnlessUpdated(cells, needs, keep, k, v);
      }
    }
  }

  lemma PlaceOf(cells: seq<CellSpec>, needs: Needs, i: nat) returns (k: nat)
    requires Acyclic(DepGraph(cells)) && i < |cells|
    ensures k < |Order(cells)| && Order(cells)[k] == i
  {
    OrderFacts(cells, needs, i);
    NodesBound(DepGraph(cells), Order(cells));
    assert i in Order(cells);
    k := PositionOf(Order(cells), i);
  }

  lemma ReachedIsCell(cells: seq<CellSpec>, needs: Needs, start: nat, i: nat)
    requires i in ReachSet(NeedGraph(cells, needs), start)
    ensures i < |cells|
  {
  }

  lemma OneBinderNotOverwritten(cells: seq<CellSpec>, order: seq<nat>, keep: set<nat>)
    requires OneBinder(cells)
    ensures NotOverwritten(cells, order, keep)
  {
    forall k, v | 0 <= k < |order| && order[k] in keep && Defines(cells, order[k], v)
      ensures LastWriterIn(cells, order, |order|, v, keep)
    {
      assert order[Writer(cells, order, |order|, v)] == order[k];
    }
  }

  /**
   In a disciplined notebook whose cells read all they list other than their own
   names, the re-run set is minimal: leaving out any of its cells leaves a variable
   or a display behind.
   */
  lemma RerunSetIsMinimal(cells: seq<CellSpec>, needs: Needs, shown: Shown, start: nat, keep: set<nat>)
    requires Disciplined(cells, needs) && Acyclic(DepGraph(cells)) && ReadsAllListed(cells, needs)
    requires Displays(cells, needs, shown)
    requires start < |cells| && keep <= ReachSet(DepGraph(cells), start)
    ensures KeepSuffices(WithDisplays(cells, shown), needs, start, keep) <==> keep == ReachSet(DepGraph(cells), start)
  {
    var all := WithDisplays(cells, shown);
    SameGraph(cells, needs, shown);
    forall i: nat, j: nat, v | Defines(all, i, v) && Defines(all, j, v) ensures i == j {
      DisplayDefines(cells, needs, shown, i, v);
      DisplayDefines(cells, needs, shown, j, v);
    }
    KeepSufficesIff(all, needs, start, keep);
    forall i | i in ReachSet(DepGraph(cells), start) ensures BindsSomething(all, i) {
      assert Defines(all, i, shown(i));
    }
  }

  lemma {:induction false} SameWriter(cells: seq<CellSpec>, needs: Needs, shown: Shown, order: seq<nat>, k: nat,
                                      v: string)
    requires Displays(cells, needs, shown) && k <= |order| && !IsDisplay(cells, shown, v)
    ensures Writer(WithDisplays(cells, shown), order, k, v) == Writer(cells, order, k, v)
  {
    if k > 0 {
      DisplayDefines(cells, needs, shown, order[k - 1], v);
      SameWriter(cells, needs, shown, order, k - 1, v);
    }
  }

  /** The last binder of a display is the cell that shows it. */
  lemma OnlyDisplay(cells: seq<CellSpec>, needs: Needs, shown: Shown, order: seq<nat>, k: nat, v: string)
    requires Displays(cells, needs, shown) && NoDup(order) && (forall c :: c in order ==> c < |cells|)
    requires k < |order| && IsDisplay(cells, shown, v) && Defines(WithDisplays(cells, shown), order[k], v)
    ensures Writer(WithDisplays(cells, shown), order, |order|, v) == k && v !in needs(order[k])
  {
    var w := Writer(WithDisplays(cells, shown), order, |order|, v);
    DisplayDefines(cells, needs, shown, order[k], v);
    DisplayDefines(cells, needs, shown, order[w], v);
  }

  lemma SafeWithDisplays(cells: seq<CellSpec>, needs: Needs, shown: Shown, order: seq<nat>, keep: set<nat>)
    requires Displays(cells, needs, shown) && NoDup(order) && (forall c :: c in order ==> c < |cells|)
    requires NotOverwritten(cells, order, keep) && UpdatesRestored(cells, needs, order, keep)
    ensures NotOverwritten(WithDisplays(cells, shown), order, keep)
    ensures UpdatesRestored(WithDisplays(cells, shown), needs, order, keep)
  {
    var all := WithDisplays(cells, shown);
    forall k, v | 0 <= k < |order| && order[k] in keep && Defines(all, order[k], v)
      ensures LastWriterIn(all, order, |order|, v, keep)
      ensures v in needs(order[k]) ==> LastWriterIn(all, order, k, v, keep)
    {
      assert order[k] in order;
      DisplayDefines(cells, needs, shown, order[k], v);
      if IsDisplay(cells, shown, v) {
        OnlyDisplay(cells, needs, shown, order, k, v);
      } else {
        assert LastWriterIn(cells, order, |order|, v, keep);
        assert v in needs(order[k]) ==> UpdatesInPlace(cells, needs, order[k], v);
        SameWriter(cells, needs, shown, order, |order|, v);
        SameWriter(cells, needs, shown, order, k, v);
      }
    }
  }

  lemma SafeWithoutDisplays(cells: seq<CellSpec>, needs: Needs, shown: Shown, order: seq<nat>, keep: set<nat>)
    requires Displays(cells, needs, shown) && NoDup(order) && (forall c :: c in order ==> c < |cells|)
    requires NotOverwritten(WithDisplays(cells, shown), order, keep)
    requires UpdatesRestored(WithDisplays(cells, shown), needs, order, keep)
    ensures NotOverwritten(cells, order, keep) && UpdatesRestored(cells, needs, order, keep)
  {
    var all := WithDisplays(cells, shown);
    forall k, v | 0 <= k < |order| && order[k] in keep && Defines(cells, order[k], v)
      ensures LastWriterIn(cells, order, |order|, v, keep)
      ensures v in needs(order[k]) ==> LastWriterIn(cells, order, k, v, keep)
    {
      DisplayDefines(cells, needs, shown, order[k], v);
      assert !IsDisplay(cells, shown, v);
      SameWriter(cells, needs, shown, order, |order|, v);
      SameWriter(cells, needs, shown, order, k, v);
      assert LastWriterIn(all, order, |order|, v, keep);
      assert v in needs(order[k]) ==> UpdatesInPlace(all, needs, order[k], v);
    }
  }

  /** Where the re-run brings every variable up to date, it brings every display up to date. */
  lemma DisplaysComeRightToo(cells: seq<CellSpec>, needs: Needs, shown: Shown, start: nat)
    requires NeedsListed(cells, needs) && Displays(cells, needs, shown)
    requires start < |cells| && Acyclic(DepGraph(cells))
    ensures RerunSuffices(WithDisplays(cells, shown), needs, start) <==> RerunSuffices(cells, needs, start)
  {
    var all, order, keep := WithDisplays(cells, shown), Order(cells), ReachSet(DepGraph(cells), start);
    SameGraph(cells, needs, shown);
    RerunSufficesIffSafe(all, needs, start);
    RerunSufficesIffSafe(cells, needs, start);
    OrderFacts(cells, needs, start);
    if RerunSafe(cells, needs, start) {
      SafeWithDisplays(cells, needs, shown, order, keep);
    }
    if RerunSafe(all, needs, start) {
      SafeWithoutDisplays(cells, needs, shown, order, keep);
    }
  }
}
