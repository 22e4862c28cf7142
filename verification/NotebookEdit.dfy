/**
 Edits that may also change which variables the edited cell reads and binds: what
 module NotebookRerun says of two versions of a notebook, and, for most notebooks,
 something simpler.

 In a notebook where every variable has one definer and no cell reads a variable
 it binds, a kernel state after a run is determined by the cells alone: it is
 the only state in which every cell's variables agree with its code. That makes
 runs in different orders comparable, and answers when the partial run of the
 edited notebook is as good as a full one.
 */
module NotebookEdit {
  import opened Graphs
  import opened NotebookGraph
  import opened NotebookRerun

  /** One definer per variable, and no cell reads what it binds. */
  ghost predicate Disciplined(cells: seq<CellSpec>, needs: Needs) {
    && NeedsListed(cells, needs)
    && (forall i, j, v :: Defines(cells, i, v) && Defines(cells, j, v) ==> i == j)
    && (forall i, v :: Defines(cells, i, v) ==> v !in needs(i))
  }

  /** The two notebooks differ at most in cell `start`. */
  ghost predicate EditOf(cells: seq<CellSpec>, needs: Needs, edited: seq<CellSpec>, needs': Needs, start: nat) {
    && |cells| == |edited| && start < |cells|
    && (forall i :: 0 <= i < |cells| && i != start ==> cells[i] == edited[i] && needs(i) == needs'(i))
  }

  /** Whatever the kernel holds, the partial run of the edited notebook equals a full run of it. */
  ghost predicate EditSuffices(cells: seq<CellSpec>, needs: Needs, edited: seq<CellSpec>, needs': Needs, start: nat) {
    forall code: Code, code': Code, s: State :: SameExcept(code, code', start) ==>
      Run(edited, needs', code', Again(edited, start), Run(cells, needs, code, Order(cells), s))
      == Run(edited, needs', code', Order(edited), s)
  }

  lemma EditIsVersions(cells: seq<CellSpec>, needs: Needs, edited: seq<CellSpec>, needs': Needs, start: nat)
    requires EditOf(cells, needs, edited, needs', start)
    requires Acyclic(DepGraph(cells)) && Acyclic(DepGraph(edited))
    ensures Versions(Current(cells, needs), Current(edited, needs'), start)
  {
    GreedyCompleteIffAcyclic(DepGraph(cells));
    GreedyCompleteIffAcyclic(DepGraph(edited));
    NodesBound(DepGraph(cells), Order(cells));
    hide Greedy, Acyclic, Forward;
    forall c | c in Order(edited) ensures c in Order(cells) && c < |cells| {
      assert c < |edited|;
    }
  }

  /**
   In any notebook, whatever the edit does to the cell's variables, the partial run
   is enough exactly when every variable comes out of the same cells in both runs.
   */
  lemma EditSufficesIff(cells: seq<CellSpec>, needs: Needs, edited: seq<CellSpec>, needs': Needs, start: nat)
    requires EditOf(cells, needs, edited, needs', start)
    requires Acyclic(DepGraph(cells)) && Acyclic(DepGraph(edited))
    ensures Versions(Current(cells, needs), Current(edited, needs'), start)
    ensures forall c :: c in Again(edited, start) ==> c in Order(edited)
    ensures EditSuffices(cells, needs, edited, needs', start) <==>
      forall v :: ComesRight(Current(cells, needs), Current(edited, needs'), Again(edited, start), start,
                             |Again(edited, start)|, |Order(edited)|, v)
  {
    EditIsVersions(cells, needs, edited, needs', start);
    hide Versions, ComesRight, Run, DepGraph, Acyclic, Order, Restrict;
    PartialSufficesIff(Current(cells, needs), Current(edited, needs'), Again(edited, start), start);
  }

  /** Cell `i`'s variables hold what its code gives for the current values. */
  ghost predicate Settled(cells: seq<CellSpec>, needs: Needs, code: Code, i: nat, s: State) {
    forall v :: Defines(cells, i, v) ==> v in s && s[v] == code(i, View(s, needs(i)), v)
  }

  ghost predicate Undefined(cells: seq<CellSpec>, v: string) {
    forall i :: !Defines(cells, i, v)
  }

  lemma ExecSettles(cells: seq<CellSpec>, needs: Needs, code: Code, r: nat, s: State)
    requires Disciplined(cells, needs) && r < |cells|
    ensures Settled(cells, needs, code, r, Exec(cells, needs, code, r, s))
  {
    var next := Exec(cells, needs, code, r, s);
    forall u | u in needs(r) ensures SameAt(s, next, u) {
      assert !Defines(cells, r, u);
    }
    ViewSame(s, next, needs(r));
  }

  /** Running a cell leaves settled every cell that reads and binds nothing it binds. */
  lemma ExecKeepsSettled(cells: seq<CellSpec>, needs: Needs, code: Code, r: nat, i: nat, s: State)
    requires Disciplined(cells, needs) && r < |cells| && i < |cells| && i != r
    requires (r, i) !in DepGraph(cells).edges && Settled(cells, needs, code, i, s)
    ensures Settled(cells, needs, code, i, Exec(cells, needs, code, r, s))
  {
    var next := Exec(cells, needs, code, r, s);
    assert !DependsOn(cells, r, i);
    forall u | u in needs(i) ensures SameAt(s, next, u) {
      assert !Defines(cells, r, u);
    }
    ViewSame(s, next, needs(i));
    forall v | Defines(cells, i, v) ensures v in next && next[v] == code(i, View(next, needs(i)), v) {
      assert !Defines(cells, r, v);
    }
  }

  /** A run in dependency order settles its cells and keeps settled those that do not depend on it. */
  lemma {:induction false} RunSettles(cells: seq<CellSpec>, needs: Needs, code: Code, order: seq<nat>,
                                      settled: set<nat>, s: State)
    requires Disciplined(cells, needs) && Nodes(DepGraph(cells), order) && Forward(DepGraph(cells), order)
    requires forall i :: i in settled ==> i < |cells| && i !in order && Settled(cells, needs, code, i, s)
    requires forall e :: e in DepGraph(cells).edges && e.0 in order ==> e.1 !in settled
    ensures forall i :: i in settled || i in order ==> Settled(cells, needs, code, i, Run(cells, needs, code, order, s))
  {
    if order != [] {
      var front, r := order[..|order| - 1], order[|order| - 1];
      assert order == front + [r];
      RunSettles(cells, needs, code, front, settled, s);
      var t := Run(cells, needs, code, front, s);
      ExecSettles(cells, needs, code, r, t);
      forall i | i in settled || i in front
        ensures Settled(cells, needs, code, i, Exec(cells, needs, code, r, t))
      {
        if i in front {
          var k :| 0 <= k < |front| && front[k] == i;
          assert order[k] == i && order[|front|] == r;
        }
        assert (r, i).0 in order;
        ExecKeepsSettled(cells, needs, code, r, i, t);
      }
    }
  }

  lemma RunKeepsUndefined(cells: seq<CellSpec>, needs: Needs, code: Code, order: seq<nat>, s: State, v: string)
    requires Undefined(cells, v)
    ensures SameAt(Run(cells, needs, code, order, s), s, v)
  {
    assert Unwritten(cells, order[0..], v);
    assert order[..0] == [];
    UnwrittenKept(cells, needs, code, order, 0, s, v);
  }

  /** Settled states that agree on the variables no cell binds agree everywhere. */
  lemma {:induction false} SettledAgree(cells: seq<CellSpec>, needs: Needs, code: Code, order: seq<nat>, k: nat,
                                        a: State, b: State)
    requires Disciplined(cells, needs) && Topological(DepGraph(cells), order) && k <= |order|
    requires forall i: nat :: i < |cells| ==> Settled(cells, needs, code, i, a) && Settled(cells, needs, code, i, b)
    requires forall v :: Undefined(cells, v) ==> SameAt(a, b, v)
    ensures forall j, v :: 0 <= j < k && Defines(cells, order[j], v) ==> SameAt(a, b, v)
  {
    if k > 0 {
      SettledAgree(cells, needs, code, order, k - 1, a, b);
      var r := order[k - 1];
      forall u | u in needs(r) ensures SameAt(a, b, u) {
        if !Undefined(cells, u) {
          var j: nat :| Defines(cells, j, u);
          NodesBound(DepGraph(cells), order);
          assert j in order;
          var p :| 0 <= p < |order| && order[p] == j;
          assert DependsOn(cells, j, r);
          assert (order[p], order[k - 1]) in DepGraph(cells).edges;
        }
      }
      ViewSame(a, b, needs(r));
      forall v | Defines(cells, r, v) ensures SameAt(a, b, v) {
        assert Settled(cells, needs, code, r, a) && Settled(cells, needs, code, r, b);
      }
    }
  }

  lemma SettledStatesEqual(cells: seq<CellSpec>, needs: Needs, code: Code, order: seq<nat>, a: State, b: State)
    requires Disciplined(cells, needs) && Topological(DepGraph(cells), order)
    requires forall i: nat :: i < |cells| ==> Settled(cells, needs, code, i, a) && Settled(cells, needs, code, i, b)
    requires forall v :: Undefined(cells, v) ==> SameAt(a, b, v)
    ensures a == b
  {
    SettledAgree(cells, needs, code, order, |order|, a, b);
    NodesBound(DepGraph(cells), order);
    forall v ensures SameAt(a, b, v) {
      if !Undefined(cells, v) {
        var i: nat :| Defines(cells, i, v);
        assert i in order;
        var p :| 0 <= p < |order| && order[p] == i;
      }
    }
    SameEverywhere(a, b);
  }

  /** A full run settles every cell. */
  lemma FullRunSettles(cells: seq<CellSpec>, needs: Needs, code: Code, s: State)
    requires Disciplined(cells, needs) && Acyclic(DepGraph(cells))
    ensures Topological(DepGraph(cells), Order(cells))
    ensures forall i: nat :: i < |cells| ==> Settled(cells, needs, code, i, Run(cells, needs, code, Order(cells), s))
  {
    GreedyCompleteIffAcyclic(DepGraph(cells));
    NodesBound(DepGraph(cells), Order(cells));
    RunSettles(cells, needs, code, Order(cells), {}, s);
  }

  /** In a disciplined notebook every order of dependency gives the same final state. */
  lemma AnyValidOrderSameState(cells: seq<CellSpec>, needs: Needs, code: Code, order: seq<nat>, s: State)
    requires Disciplined(cells, needs) && Topological(DepGraph(cells), order)
    ensures Run(cells, needs, code, order, s) == Run(cells, needs, code, Order(cells), s)
  {
    GreedyIsLexLeast(DepGraph(cells), order);
    forall c ensures !IsCycle(DepGraph(cells), c) {
      TopologicalHasNoCycle(DepGraph(cells), order, c);
    }
    FullRunSettles(cells, needs, code, s);
    NodesBound(DepGraph(cells), order);
    RunSettles(cells, needs, code, order, {}, s);
    forall v | Undefined(cells, v)
      ensures SameAt(Run(cells, needs, code, order, s), Run(cells, needs, code, Order(cells), s), v)
    {
      RunKeepsUndefined(cells, needs, code, order, s, v);
      RunKeepsUndefined(cells, needs, code, Order(cells), s, v);
    }
    SettledStatesEqual(cells, needs, code, order, Run(cells, needs, code, order, s),
                       Run(cells, needs, code, Order(cells), s));
  }

  ghost predicate NothingDropped(cells: seq<CellSpec>, edited: seq<CellSpec>, start: nat) {
    forall v :: Defines(cells, start, v) ==> Defines(edited, start, v)
  }

  /** What an unedited cell settled before the edit is settled for the edited notebook. */
  lemma SettledCarriesOver(cells: seq<CellSpec>, needs: Needs, edited: seq<CellSpec>, needs': Needs, start: nat,
                           code: Code, code': Code, i: nat, s: State)
    requires EditOf(cells, needs, edited, needs', start) && SameExcept(code, code', start)
    requires i < |cells| && i != start && Settled(cells, needs, code, i, s)
    ensures Settled(edited, needs', code', i, s)
  {
    forall v | Defines(edited, i, v) ensures v in s && s[v] == code'(i, View(s, needs'(i)), v) {
      assert Defines(cells, i, v);
    }
  }

  /** Where all other cells are settled, the partial run settles the whole notebook. */
  lemma PartialRunSettles(cells: seq<CellSpec>, needs: Needs, start: nat, code: Code, before: State)
    requires Disciplined(cells, needs) && Acyclic(DepGraph(cells)) && start < |cells|
    requires forall i: nat :: i < |cells| && i != start ==> Settled(cells, needs, code, i, before)
    ensures forall i: nat :: i < |cells| ==>
      Settled(cells, needs, code, i, Run(cells, needs, code, Again(cells, start), before))
  {
    var g, order := DepGraph(cells), Order(cells);
    var keep := ReachSet(g, start);
    GreedyCompleteIffAcyclic(g);
    ReachSetLeastClosed(g, start, {});
    RestrictKeepsOrder(order, keep);
    RestrictForward(g, order, keep);
    NodesBound(g, order);
    var settled := set i: nat | i < |cells| && i !in keep;
    assert Nodes(g, Again(cells, start));
    RunSettles(cells, needs, code, Again(cells, start), settled, before);
    forall i: nat | i < |cells|
      ensures Settled(cells, needs, code, i, Run(cells, needs, code, Again(cells, start), before))
    {
      assert i in order;
      assert i in settled || i in Again(cells, start);
    }
  }

  /**
   In disciplined, acyclic notebooks the partial run after any edit of one cell
   is enough exactly when the edit drops none of the cell's variables.
   */
  lemma EditSufficesIffNothingDropped(cells: seq<CellSpec>, needs: Needs, edited: seq<CellSpec>, needs': Needs,
                                      start: nat)
    requires EditOf(cells, needs, edited, needs', start)
    requires Disciplined(cells, needs) && Acyclic(DepGraph(cells))
    requires Disciplined(edited, needs') && Acyclic(DepGraph(edited))
    ensures EditSuffices(cells, needs, edited, needs', start) <==> NothingDropped(cells, edited, start)
  {
    if NothingDropped(cells, edited, start) {
      forall code: Code, code': Code, s: State | SameExcept(code, code', start)
        ensures Run(edited, needs', code', Again(edited, start), Run(cells, needs, code, Order(cells), s))
             == Run(edited, needs', code', Order(edited), s)
      {
        KeepingEditSuffices(cells, needs, edited, needs', start, code, code', s);
      }
    } else {
      DroppedVariableLingers(cells, needs, edited, needs', start);
    }
  }

  /** A variable the edited notebook does not bind is the same after both runs, when none was dropped. */
  lemma UndefinedSame(cells: seq<CellSpec>, needs: Needs, edited: seq<CellSpec>, needs': Needs, start: nat,
                      code: Code, code': Code, s: State, v: string)
    requires EditOf(cells, needs, edited, needs', start) && NothingDropped(cells, edited, start)
    requires Undefined(edited, v)
    ensures SameAt(Run(edited, needs', code', Again(edited, start), Run(cells, needs, code, Order(cells), s)),
                   Run(edited, needs', code', Order(edited), s), v)
  {
    forall i: nat ensures !Defines(cells, i, v) {
      assert !Defines(edited, i, v);
    }
    RunKeepsUndefined(edited, needs', code', Again(edited, start), Run(cells, needs, code, Order(cells), s), v);
    RunKeepsUndefined(cells, needs, code, Order(cells), s, v);
    RunKeepsUndefined(edited, needs', code', Order(edited), s, v);
  }

  lemma KeepingEditSuffices(cells: seq<CellSpec>, needs: Needs, edited: seq<CellSpec>, needs': Needs, start: nat,
                            code: Code, code': Code, s: State)
    requires EditOf(cells, needs, edited, needs', start) && SameExcept(code, code', start)
    requires Disciplined(cells, needs) && Acyclic(DepGraph(cells))
    requires Disciplined(edited, needs') && Acyclic(DepGraph(edited))
    requires NothingDropped(cells, edited, start)
    ensures Run(edited, needs', code', Again(edited, start), Run(cells, needs, code, Order(cells), s))
         == Run(edited, needs', code', Order(edited), s)
  {
    var before := Run(cells, needs, code, Order(cells), s);
    var partial := Run(edited, needs', code', Again(edited, start), before);
    var full := Run(edited, needs', code', Order(edited), s);
    FullRunSettles(cells, needs, code, s);
    forall i: nat | i < |edited| && i != start ensures Settled(edited, needs', code', i, before) {
      SettledCarriesOver(cells, needs, edited, needs', start, code, code', i, before);
    }
    PartialRunSettles(edited, needs', start, code', before);
    FullRunSettles(edited, needs', code', s);
    forall v | Undefined(edited, v) ensures SameAt(partial, full, v) {
      UndefinedSame(cells, needs, edited, needs', start, code, code', s, v);
    }
    SettledStatesEqual(edited, needs', code', Order(edited), partial, full);
  }

  lemma DroppedIsUndefined(cells: seq<CellSpec>, needs: Needs, edited: seq<CellSpec>, needs': Needs, start: nat,
                           v: string)
    requires EditOf(cells, needs, edited, needs', start) && Disciplined(cells, needs)
    requires Defines(cells, start, v) && !Defines(edited, start, v)
    ensures Undefined(edited, v)
  {
    forall i: nat ensures !Defines(edited, i, v) {
      assert i != start && Defines(edited, i, v) ==> Defines(cells, i, v);
    }
  }

  lemma FullRunBinds(cells: seq<CellSpec>, needs: Needs, code: Code, i: nat, v: string)
    requires Disciplined(cells, needs) && Acyclic(DepGraph(cells)) && Defines(cells, i, v)
    ensures v in Run(cells, needs, code, Order(cells), map[])
  {
    FullRunSettles(cells, needs, code, map[]);
    assert Settled(cells, needs, code, i, Run(cells, needs, code, Order(cells), map[]));
  }

  lemma RunsDiffer(cells: seq<CellSpec>, needs: Needs, code: Code, start: nat, before: State, v: string)
    requires Undefined(cells, v) && v in before
    ensures Run(cells, needs, code, Again(cells, start), before) != Run(cells, needs, code, Order(cells), map[])
  {
    RunKeepsUndefined(cells, needs, code, Again(cells, start), before, v);
    RunKeepsUndefined(cells, needs, code, Order(cells), map[], v);
  }

  /** A variable no cell binds any more stays in the kernel, where a full run would not have it. */
  lemma DroppedVariableLingers(cells: seq<CellSpec>, needs: Needs, edited: seq<CellSpec>, needs': Needs, start: nat)
    requires EditOf(cells, needs, edited, needs', start)
    requires Disciplined(cells, needs) && Acyclic(DepGraph(cells))
    requires !NothingDropped(cells, edited, start)
    ensures !EditSuffices(cells, needs, edited, needs', start)
  {
    hide Run, Order, Again, DepGraph, Acyclic;
    var v :| Defines(cells, start, v) && !Defines(edited, start, v);
    var zero: Code := (i, view, x) => Number(0);
    var before := Run(cells, needs, zero, Order(cells), map[]);
    FullRunBinds(cells, needs, zero, start, v);
    DroppedIsUndefined(cells, needs, edited, needs', start, v);
    RunsDiffer(edited, needs', zero, start, before, v);
    assert SameExcept(zero, zero, start);
  }

  // ---- Two SQL cells with the default variable ----------------------------------

  /** Two queries that both bind `df`, and a chart of `df`. */
  ghost function TwoQueries(a: Uuid, b: Uuid, c: Uuid): seq<CellSpec> {
    [CellSpec(a, ["df"], []), CellSpec(b, ["df"], []), CellSpec(c, [], ["df"])]
  }

  /** Each cell really reads what it lists. */
  ghost function Listed(cells: seq<CellSpec>): Needs {
    (i: nat) => if i < |cells| then set v | v in cells[i].uses else {}
  }

  lemma TwoQueriesGraph(a: Uuid, b: Uuid, c: Uuid)
    ensures var g := DepGraph(TwoQueries(a, b, c));
            Acyclic(g) && Order(TwoQueries(a, b, c)) == [0, 1, 2] && 0 in ReachSet(g, 0) && 1 !in ReachSet(g, 0)
  {
    var cells := TwoQueries(a, b, c);
    var g := DepGraph(cells);
    assert Identity(3) == [0, 1, 2];
    assert AlreadyOrdered(cells);
    OrderedNotebookUnchanged(cells);
    OrderIsSafe(cells);
    ReachesSelf(g, 0);
    assert forall e :: e in g.edges ==> DependsOn(cells, e.0, e.1) && e.1 == 2;
    if Reaches(g, 0, 1) {
      var e := ReachesLastStep(g, 0, 1);
    }
  }

  /** Editing the first query and re-running what depends on it leaves `df` on the wrong query. */
  lemma TwoQueriesNeedFullRun(a: Uuid, b: Uuid, c: Uuid)
    ensures Acyclic(DepGraph(TwoQueries(a, b, c)))
      && !RerunSuffices(TwoQueries(a, b, c), Listed(TwoQueries(a, b, c)), 0)
  {
    var cells, order := TwoQueries(a, b, c), [0, 1, 2];
    TwoQueriesGraph(a, b, c);
    var keep := ReachSet(DepGraph(cells), 0);
    assert Defines(cells, order[1], "df") && !Defines(cells, order[2], "df");
    assert order[0] in keep && Defines(cells, order[0], "df") && !LastWriterIn(cells, order, 3, "df", keep);
    assert !NotOverwritten(cells, order, keep);
    RerunSufficesIffSafe(cells, Listed(cells), 0);
  }

  /** One cell that adds to its own variable: running it again adds twice. */
  lemma CounterNeedsFullRun(a: Uuid)
    ensures var cells := [CellSpec(a, ["x"], ["x"])];
            Acyclic(DepGraph(cells)) && !RerunSuffices(cells, Listed(cells), 0)
  {
    var cells := [CellSpec(a, ["x"], ["x"])];
    var g := DepGraph(cells);
    assert Identity(1) == [0];
    assert AlreadyOrdered(cells);
    OrderedNotebookUnchanged(cells);
    OrderIsSafe(cells);
    ReachesSelf(g, 0);
    assert UpdatesInPlace(cells, Listed(cells), 0, "x");
    assert Order(cells)[0] in ReachSet(g, 0) && !LastWriterIn(cells, Order(cells), 0, "x", ReachSet(g, 0));
    assert !UpdatesRestored(cells, Listed(cells), Order(cells), ReachSet(g, 0));
    RerunSufficesIffSafe(cells, Listed(cells), 0);
  }
}
