/**
 A query, a Python cell computed from it and a chart of the result: a notebook in
 which an edit of the query has to run all three again.
 */
module NotebookChain {
  import opened Common
  import opened Graphs
  import opened NotebookGraph
  import opened NotebookRerun
  import opened NotebookEdit
  import opened NotebookMinimal
  import opened NotebookDisplay
  import opened PythonAnalysis
  import opened Whitespace
  import opened NotebookPlan

  /** The Python cell reads `x`, the chart `y`. */
  ghost function ChainNeeds(): Needs {
    (i: nat) => if i == 1 then {"x"} else if i == 2 then {"y"} else {}
  }

  ghost function ChainOutputs(): Shown {
    (i: nat) => if i == 0 then "out 0" else if i == 1 then "out 1" else "out 2"
  }

  // ---- One assignment between names of one letter ------------------------------------------------

  lemma CopyIdentifiers(line: string)
    requires |line| == 3 && StartsIdent(line[0]) && line[1] == '=' && StartsIdent(line[2])
    ensures IdentifiersFrom(line, 0) == [[line[0]], [line[2]]]
  {
    assert IdentEnd(line, 0) == 1 && IdentEnd(line, 2) == 3;
    assert line[0..1] == [line[0]] && line[2..3] == [line[2]];
    assert IdentifiersFrom(line, 3) == [];
    assert IdentifiersFrom(line, 2) == [[line[2]]];
    assert IdentifiersFrom(line, 1) == [[line[2]]];
  }

  lemma CopyDefines(line: string)
    requires |line| == 3 && line[0] == 'y' && line[1] == '=' && line[2] == 'x'
    ensures LineDefines(line) == ["y"]
  {
    AssignsFirst(line);
    NoBinder(line, BINDERS);
  }

  lemma CopyLine(line: string)
    requires line == "y=x"
    ensures LinesOf(line) == [line] && CodePart(line) == line
    ensures LineDefines(line) == ["y"] && IdentifiersFrom(line, 0) == ["y", "x"]
  {
    OneLine(line);
    CopyIdentifiers(line);
    CopyDefines(line);
  }

  /** `y=x` binds `y` and lists both names as used. */
  lemma CopySpec(cell: NotebookCell)
    requires cell.kind == Format.Python && cell.source == "y=x"
    ensures forall v :: v in SpecOf(cell).defines <==> v == "y"
    ensures forall v :: v in SpecOf(cell).uses <==> v == "x" || v == "y"
  {
    var line := cell.source;
    CopyLine(line);
    LettersAreNoKeywords("x");
    LettersAreNoKeywords("y");
    hide *;
    OneLineOnly([line]);
    SpecOfPython(cell);
    forall v ensures v in SpecOf(cell).defines <==> v == "y" {
      DistinctHasAll(AllDefines([line]), v);
    }
    forall v ensures v in SpecOf(cell).uses <==> v == "x" || v == "y" {
      DistinctHasAll(AllUses([line], KEYWORDS), v);
      LineUsesAre(IdentifiersFrom(line, 0), KEYWORDS, v);
    }
  }

  // ---- The notebook -----------------------------------------------------------------------------------

  /** A query that binds `x`, `y=x`, and a chart of `y`. */
  predicate IsChain(a: NotebookCell, b: NotebookCell, c: NotebookCell) {
    && a.kind == Format.Sql && a.outputVar == Some("x")
    && b.kind == Format.Python && b.source == "y=x"
    && c.kind == Format.Chart && c.inputVar == Some("y")
  }

  lemma ChainSpecs(a: NotebookCell, b: NotebookCell, c: NotebookCell)
    requires IsChain(a, b, c)
    ensures var specs := SpecsOf([a, b, c]);
            && (forall v :: v in specs[0].defines <==> v == "x") && specs[0].uses == []
            && (forall v :: v in specs[1].defines <==> v == "y")
            && (forall v :: v in specs[1].uses <==> v == "x" || v == "y")
            && specs[2].defines == [] && specs[2].uses == ["y"]
  {
    CopySpec(b);
  }

  /** Each cell depends on the one before it, and on no other. */
  lemma ChainGraph(a: NotebookCell, b: NotebookCell, c: NotebookCell)
    requires IsChain(a, b, c)
    ensures var g := DepGraph(SpecsOf([a, b, c]));
            g.n == 3 && g.edges == {(0, 1), (1, 2)} && Acyclic(g) && ReachSet(g, 0) == {0, 1, 2}
  {
    var specs := SpecsOf([a, b, c]);
    var g := DepGraph(specs);
    ChainSpecs(a, b, c);
    hide SpecsOf, SpecOf;
    ChainEdges(specs);
    ThreeInARow(g);
  }

  lemma ChainEdges(specs: seq<CellSpec>)
    requires |specs| == 3 && specs[0].uses == [] && specs[2].defines == [] && specs[2].uses == ["y"]
    requires forall v :: v in specs[0].defines <==> v == "x"
    requires forall v :: v in specs[1].defines <==> v == "y"
    requires forall v :: v in specs[1].uses <==> v == "x" || v == "y"
    ensures DepGraph(specs).n == 3 && DepGraph(specs).edges == {(0, 1), (1, 2)}
  {
    assert "x" in specs[0].defines && "x" in specs[1].uses && "y" in specs[1].defines && "y" in specs[2].uses;
    assert "x" != "y";
    assert DependsOn(specs, 0, 1) && DependsOn(specs, 1, 2);
    assert !DependsOn(specs, 0, 2) && !DependsOn(specs, 1, 0) && !DependsOn(specs, 2, 0) && !DependsOn(specs, 2, 1);
    forall e: (nat, nat) ensures e in DepGraph(specs).edges <==> e == (0, 1) || e == (1, 2) {
      assert DependsOn(specs, e.0, e.1) ==> e.0 in {0, 1, 2} && e.1 in {0, 1, 2};
    }
  }

  lemma ThreeInARow(g: Graph)
    requires g.n == 3 && g.edges == {(0, 1), (1, 2)}
    ensures Acyclic(g) && ReachSet(g, 0) == {0, 1, 2}
  {
    assert Identity(3) == [0, 1, 2];
    GreedyKeepsValidOrder(g);
    GreedyCompleteIffAcyclic(g);
    ReachesSelf(g, 0);
    ReachesStep(g, 0, 0, 1);
    ReachesStep(g, 0, 1, 2);
  }

  /**
   The chain is a notebook as `RerunSetIsMinimal` asks for, with a Python cell that
   lists the name it binds, so an edit of the query has to run all three again.
   */
  lemma ChainRunsAgain(a: NotebookCell, b: NotebookCell, c: NotebookCell, keep: set<nat>)
    requires IsChain(a, b, c) && keep <= {0, 1, 2}
    ensures var specs := SpecsOf([a, b, c]);
            && Disciplined(specs, ChainNeeds()) && ReadsAllListed(specs, ChainNeeds()) && Acyclic(DepGraph(specs))
            && "y" in specs[1].defines && "y" in specs[1].uses
            && (KeepSuffices(WithDisplays(specs, ChainOutputs()), ChainNeeds(), 0, keep) <==> keep == {0, 1, 2})
  {
    var specs := SpecsOf([a, b, c]);
    ChainSpecs(a, b, c);
    ChainGraph(a, b, c);
    ChainDisplays(specs);
    ChainDisciplined(specs);
    hide *;
    RerunSetIsMinimal(specs, ChainNeeds(), ChainOutputs(), 0, keep);
  }

  lemma ChainDisciplined(specs: seq<CellSpec>)
    requires |specs| == 3 && specs[0].uses == [] && specs[2].defines == [] && specs[2].uses == ["y"]
    requires forall v :: v in specs[0].defines <==> v == "x"
    requires forall v :: v in specs[1].defines <==> v == "y"
    requires forall v :: v in specs[1].uses <==> v == "x" || v == "y"
    ensures Disciplined(specs, ChainNeeds()) && ReadsAllListed(specs, ChainNeeds())
  {
    assert "x" != "y";
  }

  lemma ChainDisplays(specs: seq<CellSpec>)
    requires |specs| == 3 && specs[0].uses == [] && specs[2].defines == [] && specs[2].uses == ["y"]
    requires forall v :: v in specs[0].defines <==> v == "x"
    requires forall v :: v in specs[1].defines <==> v == "y"
    requires forall v :: v in specs[1].uses <==> v == "x" || v == "y"
    ensures Displays(specs, ChainNeeds(), ChainOutputs())
  {
    var shown := ChainOutputs();
    assert "out 0"[4] == '0' && "out 1"[4] == '1' && "out 2"[4] == '2';
    assert forall i :: |shown(i)| == 5;
    assert |"x"| == 1 && |"y"| == 1;
  }
}
