/**
 Names the analysis misses: a cell that assigns to a tuple binds variables no
 dependency is drawn from, and what reads them is not run again.
 */
module NotebookUnlisted {
  import opened Common
  import opened Graphs
  import opened NotebookGraph
  import opened NotebookRerun
  import opened PythonAnalysis
  import opened Whitespace
  import opened NotebookDisplay
  import opened NotebookPlan

  /** What the two cells below display. */
  ghost function Outputs(): Shown {
    (i: nat) => if i == 0 then "out 0" else "out 1"
  }

  /** What they really bind: the first a tuple's variables, the second none, and each its display. */
  ghost function ReallyBound(a: NotebookCell, b: NotebookCell): seq<CellSpec> {
    WithDisplays([CellSpec(a.id, ["a", "b"], []), CellSpec(b.id, [], ["a"])], Outputs())
  }

  ghost function ReallyRead(): Needs {
    (i: nat) => if i == 1 then {"a"} else {}
  }

  lemma TupleIsMissed(cell: NotebookCell)
    requires cell.kind == Format.Python && cell.source == "a,b=1,2"
    ensures SpecOf(cell).defines == []
  {
    var line := cell.source;
    OneLine(line);
    PlainLineDefinesNothing(line);
    hide *;
    OneLineOnly([line]);
    SpecOfPython(cell);
  }

  lemma PlainLineDefinesNothing(line: string)
    requires |line| > 2 && line[0] == 'a' && line[1] == ','
    ensures LineDefines(line) == []
  {
    TupleIsNoTarget(line);
    NoBinder(line, BINDERS);
  }

  lemma TupleIsNoTarget(line: string)
    requires |line| > 2 && StartsIdent(line[0]) && line[1] == ','
    ensures TrimStart(line) == line && AssignmentTarget(line) == None
  {
    assert IdentEnd(line, 0) == 1 && line[..1] == [line[0]];
    assert TrimStart(line[1..]) == line[1..];
  }

  /**
   `a,b=1,2` and a chart of `a`: the analysis lists no variable for the first cell,
   so the chart is not run again after an edit of it, and what it displays is not
   what a full run displays.
   */
  lemma TupleLeavesChartStale(a: NotebookCell, b: NotebookCell)
    requires a.kind == Format.Python && a.source == "a,b=1,2"
    requires b.kind == Format.Chart && b.inputVar == Some("a")
    ensures var specs, now := SpecsOf([a, b]), Version(ReallyBound(a, b), ReallyRead(), [0, 1]);
            && Acyclic(DepGraph(specs)) && Order(specs) == now.order && Again(specs, 0) == [0]
            && !PartialSuffices(now, now, Again(specs, 0), 0)
  {
    var specs, now := SpecsOf([a, b]), Version(ReallyBound(a, b), ReallyRead(), [0, 1]);
    TupleIsMissed(a);
    assert specs[0].defines == [] && specs[1].defines == [];
    hide SpecOf, SpecsOf;
    NoDependencies(specs);
    TwoDisplay(a, b);
    ChartIsAffected(a, b);
    hide *;
    RestrictToFirst();
    RerunSufficesIffRight(now, Outputs(), {0}, 0);
    OneLeftOut(now, {0}, 0, 1);
  }

  lemma OneLeftOut(now: Version, keep: set<nat>, start: nat, k: nat)
    requires Versions(now, now, start) && k < |now.order| && now.order[k] !in keep
    requires !Unaffected(now, now, start, k)
    ensures !RerunRight(now, keep, start)
  {
  }

  lemma RestrictToFirst()
    ensures Restrict([0, 1], {0}) == [0]
  {
    assert [0, 1][..1] == [0] && [0][..0] == [];
  }

  /** The chart reads a variable that the edited cell binds. */
  lemma ChartIsAffected(a: NotebookCell, b: NotebookCell)
    ensures var now := Version(ReallyBound(a, b), ReallyRead(), [0, 1]);
            Versions(now, now, 0) && !Unaffected(now, now, 0, 1)
  {
    var now := Version(ReallyBound(a, b), ReallyRead(), [0, 1]);
    TwoDisplay(a, b);
    assert !Unaffected(now, now, 0, 0);
    assert Defines(now.cells, 0, "a") && Writer(now.cells, [0, 1], 1, "a") == 0;
    assert PositionOf([0, 1], 1) == 1;
  }

  lemma TwoDisplay(a: NotebookCell, b: NotebookCell)
    ensures var now := Version(ReallyBound(a, b), ReallyRead(), [0, 1]);
            Versions(now, now, 0) && AllDisplay(now, Outputs())
  {
    var cells := ReallyBound(a, b);
    assert cells[0].defines == ["a", "b", "out 0"] && cells[1].defines == ["out 1"];
    assert |"out 0"| == 5 && |"a"| == 1 && |"b"| == 1 && "out 0"[4] == '0' && "out 1"[4] == '1';
  }

  /** Where no cell binds anything the notebook runs as listed, and an edit re-runs the edited cell only. */
  lemma NoDependencies(specs: seq<CellSpec>)
    requires |specs| == 2 && specs[0].defines == [] && specs[1].defines == []
    ensures Acyclic(DepGraph(specs)) && Order(specs) == [0, 1] && Again(specs, 0) == [0]
  {
    var g := DepGraph(specs);
    forall e ensures e !in g.edges {
      assert !DependsOn(specs, e.0, e.1);
    }
    TwoApart(g);
    GreedyCompleteIffAcyclic(g);
    ReachSetLeastClosed(g, 0, {0});
    assert [0, 1][..1] == [0] && [0][..0] == [];
    assert ReachSet(g, 0) == {0};
  }
}
