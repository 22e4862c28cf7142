/**
 From notebook cells to a run order: each cell is reduced to the variables it binds
 and reads, and the graph of module NotebookGraph orders them.
 */
module NotebookPlan {
  import opened Common
  import opened Graphs
  import opened NotebookGraph
  import opened PythonAnalysis
  import opened Splitting
  import opened Whitespace
  import Format = NotebookFormat

  type NotebookCell = Format.NotebookCell

  // ---- Lines ------------------------------------------------------------------------------

  function WithoutReturn(line: string): string {
    if line != "" && line[|line| - 1] == '\r' then line[..|line| - 1] else line
  }

  function EndedLines(parts: seq<string>): seq<string> {
    if parts == [] then [] else EndedLines(parts[..|parts| - 1]) + [WithoutReturn(parts[|parts| - 1])]
  }

  /** The lines of a text; a newline at the end does not start another one. */
  function LinesOf(source: string): seq<string> {
    var parts := Split(source, '\n');
    var last := parts[|parts| - 1];
    EndedLines(parts[..|parts| - 1]) + if last == "" then [] else [last]
  }

  // ---- One cell -----------------------------------------------------------------------------

  /** The variable a query binds or a chart reads: `df` unless another one is named. */
  function VarOrDf(v: Option<string>): (name: string)
    ensures name != ""
  {
    if v.Some? && v.value != "" then v.value else "df"
  }

  function SpecOf(cell: NotebookCell): CellSpec {
    match cell.kind
    case Python =>
      CellSpec(cell.id, Distinct(AllDefines(LinesOf(cell.source))), Distinct(AllUses(LinesOf(cell.source), KEYWORDS)))
    case Sql | Nl2sql => CellSpec(cell.id, [VarOrDf(cell.outputVar)], [])
    case Input =>
      CellSpec(cell.id, if cell.inputVar.Some? && cell.inputVar.value != "" then [cell.inputVar.value] else [], [])
    case Chart | BigNumber => CellSpec(cell.id, [], [VarOrDf(cell.inputVar)])
    case Markdown => CellSpec(cell.id, [], [])
  }

  method SpecForCell(cell: NotebookCell) returns (spec: CellSpec)
    ensures spec == SpecOf(cell)
  {
    match cell.kind {
      case Python =>
        var defines, uses := AnalyzePython(LinesOf(cell.source));
        spec := CellSpec(cell.id, defines, uses);
      case Sql | Nl2sql =>
        var name := if cell.outputVar.Some? && cell.outputVar.value != "" then cell.outputVar.value else "df";
        spec := CellSpec(cell.id, [name], []);
      case Input =>
        var names := if cell.inputVar.Some? && cell.inputVar.value != "" then [cell.inputVar.value] else [];
        spec := CellSpec(cell.id, names, []);
      case Chart | BigNumber =>
        var name := if cell.inputVar.Some? && cell.inputVar.value != "" then cell.inputVar.value else "df";
        spec := CellSpec(cell.id, [], [name]);
      case Markdown =>
        spec := CellSpec(cell.id, [], []);
    }
  }

  ghost function SpecsOf(cells: seq<NotebookCell>): (specs: seq<CellSpec>)
    ensures |specs| == |cells| && forall i :: 0 <= i < |cells| ==> specs[i] == SpecOf(cells[i])
  {
    seq(|cells|, i requires 0 <= i < |cells| => SpecOf(cells[i]))
  }

  // ---- The order of a notebook -----------------------------------------------------------------

  /**
   The whole order, or what a change of one cell makes run again; a cycle is
   reported in both cases, while an unknown cell just runs nothing.
   */
  ghost function Planned(specs: seq<CellSpec>, changed: Option<Uuid>): OrderResult {
    var g := DepGraph(specs);
    if |Greedy(g, [])| != g.n then DependencyCycle
    else if changed.None? then Ordered(Ids(specs, Greedy(g, [])))
    else if Position(specs, changed.value) == |specs| then Ordered([])
    else Ordered(KeepAffected(specs, Ids(specs, Greedy(g, [])), ReachSet(g, Position(specs, changed.value))))
  }

  method RunOrder(cells: seq<NotebookCell>, changed: Option<Uuid>) returns (r: OrderResult)
    ensures r == Planned(SpecsOf(cells), changed)
  {
    var specs: seq<CellSpec> := [];
    for i := 0 to |cells|
      invariant |specs| == i && forall k :: 0 <= k < i ==> specs[k] == SpecOf(cells[k])
    {
      var spec := SpecForCell(cells[i]);
      specs := specs + [spec];
    }
    assert specs == SpecsOf(cells);
    r := TopoOrder(specs);
    if r.Ordered? && changed.Some? {
      var again := Downstream(specs, changed.value);
      r := Ordered(again);
    }
  }

  /** A cycle is reported exactly when there is one; nothing runs exactly when the changed cell is unknown. */
  lemma PlanIsEmptyIff(specs: seq<CellSpec>, id: Uuid, changed: Option<Uuid>)
    ensures Planned(specs, changed) == DependencyCycle <==> !Acyclic(DepGraph(specs))
    ensures Planned(specs, Some(id)) == Ordered([]) <==> Acyclic(DepGraph(specs)) && Position(specs, id) == |specs|
  {
    var g, start := DepGraph(specs), Position(specs, id);
    GreedyCompleteIffAcyclic(g);
    if Acyclic(g) && start < |specs| {
      NodesBound(g, Greedy(g, []));
      assert start in Greedy(g, []);
      var k :| 0 <= k < |Greedy(g, [])| && Greedy(g, [])[k] == start;
      ReachesSelf(g, start);
      KnownIsKept(specs, Ids(specs, Greedy(g, [])), ReachSet(g, start), k);
    }
  }

  lemma {:induction false} KnownIsKept(specs: seq<CellSpec>, ids: seq<Uuid>, affected: set<nat>, k: nat)
    requires k < |ids| && Position(specs, ids[k]) in affected
    ensures KeepAffected(specs, ids, affected) != []
  {
    if k < |ids| - 1 {
      KnownIsKept(specs, ids[..|ids| - 1], affected, k);
    }
  }

  // ---- Listing a cell's own names as used -----------------------------------------------------------

  predicate Binds(cell: NotebookCell, name: string) {
    cell.kind == Format.Python && name in Distinct(AllDefines(LinesOf(cell.source)))
  }

  /** No two Python cells bind the same variable. */
  ghost predicate OneBinderEach(cells: seq<NotebookCell>) {
    forall i, j, name :: 0 <= i < j < |cells| && Binds(cells[i], name) && Binds(cells[j], name) ==> name in KEYWORDS
  }

  /** The uses of a cell without the names it binds itself, but for those it really reads. */
  ghost function BareUses(uses: seq<string>, defines: seq<string>, needed: set<string>): (bare: seq<string>)
    ensures forall u :: u in bare <==> u in uses && (u !in defines || u in needed)
  {
    if uses == [] then []
    else
      var last := uses[|uses| - 1];
      assert forall u :: u in uses <==> u in uses[..|uses| - 1] || u == last;
      BareUses(uses[..|uses| - 1], defines, needed) + if last !in defines || last in needed then [last] else []
  }

  /** The notebook when cell `i` lists, of the names it binds, only those in `needed(i)` as used. */
  ghost function Bare(specs: seq<CellSpec>, needed: nat -> set<string>): (bare: seq<CellSpec>)
    ensures |bare| == |specs|
    ensures forall i :: 0 <= i < |specs| ==>
      bare[i] == specs[i].(uses := BareUses(specs[i].uses, specs[i].defines, needed(i)))
  {
    seq(|specs|, i requires 0 <= i < |specs| => specs[i].(uses := BareUses(specs[i].uses, specs[i].defines, needed(i))))
  }

  /** Two Python cells that bind the same variable depend on each other, because each lists it as used as well. */
  lemma SharedNameIsCycle(cells: seq<NotebookCell>, i: nat, j: nat, name: string)
    requires i < j < |cells| && Binds(cells[i], name) && Binds(cells[j], name) && name !in KEYWORDS
    ensures !Acyclic(DepGraph(SpecsOf(cells)))
  {
    var specs := SpecsOf(cells);
    var g := DepGraph(specs);
    DefinesAreUses(LinesOf(cells[i].source), name, KEYWORDS);
    DefinesAreUses(LinesOf(cells[j].source), name, KEYWORDS);
    MutualIsCycle(specs, i, j, name, name);
  }

  lemma MutualIsCycle(specs: seq<CellSpec>, i: nat, j: nat, v: string, u: string)
    requires i < |specs| && j < |specs| && i != j
    requires v in specs[i].defines && v in specs[j].uses && u in specs[j].defines && u in specs[i].uses
    ensures !Acyclic(DepGraph(specs))
  {
    var g := DepGraph(specs);
    assert DependsOn(specs, i, j) && DependsOn(specs, j, i);
    assert (i, j) in g.edges && (j, i) in g.edges;
    assert IsCycle(g, [i, j]);
  }

  /** A cell both binds and reads `v` only if it is a Python cell, and `v` is then no keyword. */
  lemma OwnUseIsPython(cell: NotebookCell, v: string)
    requires v in SpecOf(cell).defines && SpecOf(cell).uses != []
    ensures Binds(cell, v)
    ensures v in SpecOf(cell).uses ==> v !in KEYWORDS
  {
    if v in SpecOf(cell).uses {
      DistinctHasAll(AllUses(LinesOf(cell.source), KEYWORDS), v);
      UsesAreNoKeywords(LinesOf(cell.source), v, KEYWORDS);
    }
  }

  /** Between cells that read something, own names add no dependency when each variable has one binder. */
  lemma EdgeStaysBare(cells: seq<NotebookCell>, needed: nat -> set<string>, i: nat, j: nat)
    requires OneBinderEach(cells) && DependsOn(SpecsOf(cells), i, j) && SpecsOf(cells)[i].uses != []
    ensures DependsOn(Bare(SpecsOf(cells), needed), i, j)
  {
    var specs, bare := SpecsOf(cells), Bare(SpecsOf(cells), needed);
    var v :| v in specs[i].defines && v in specs[j].uses;
    if v in specs[j].defines {
      OwnUseIsPython(cells[i], v);
      OwnUseIsPython(cells[j], v);
    }
    assert v in bare[i].defines && v in bare[j].uses;
  }

  lemma BareEdgeIsEdge(specs: seq<CellSpec>, needed: nat -> set<string>, i: nat, j: nat)
    requires DependsOn(Bare(specs, needed), i, j)
    ensures DependsOn(specs, i, j)
  {
    var v :| v in Bare(specs, needed)[i].defines && v in Bare(specs, needed)[j].uses;
    assert v in specs[i].defines && v in specs[j].uses;
  }

  lemma BareCycle(cells: seq<NotebookCell>, needed: nat -> set<string>, c: seq<nat>)
    requires OneBinderEach(cells) && IsCycle(DepGraph(SpecsOf(cells)), c)
    ensures IsCycle(DepGraph(Bare(SpecsOf(cells), needed)), c)
  {
    var specs := SpecsOf(cells);
    var g, bare := DepGraph(specs), DepGraph(Bare(specs, needed));
    forall k | 0 <= k < |c|
      ensures (c[k], c[if k + 1 < |c| then k + 1 else 0]) in bare.edges
    {
      var before := c[if k > 0 then k - 1 else |c| - 1];
      assert (before, c[k]) in g.edges && (c[k], c[if k + 1 < |c| then k + 1 else 0]) in g.edges;
      assert DependsOn(specs, before, c[k]);
      EdgeStaysBare(cells, needed, c[k], c[if k + 1 < |c| then k + 1 else 0]);
    }
    assert forall k :: 0 <= k < |c| - 1 ==> (c[k], c[if k + 1 < |c| then k + 1 else 0]) == (c[k], c[k + 1]);
  }

  /**
   Listing the names a cell binds as used leaves an order, whichever of them the
   cell really reads, exactly when no two Python cells bind the same variable.
   */
  lemma OwnNamesHarmlessIff(cells: seq<NotebookCell>, needed: nat -> set<string>)
    ensures Acyclic(DepGraph(SpecsOf(cells))) <==>
      Acyclic(DepGraph(Bare(SpecsOf(cells), needed))) && OneBinderEach(cells)
  {
    var specs := SpecsOf(cells);
    var g, bare := DepGraph(specs), DepGraph(Bare(specs, needed));
    if Acyclic(g) {
      forall c | IsCycle(bare, c) ensures IsCycle(g, c) {
        forall i, j | (i, j) in bare.edges ensures (i, j) in g.edges {
          BareEdgeIsEdge(specs, needed, i, j);
        }
      }
      forall i, j, name | 0 <= i < j < |cells| && Binds(cells[i], name) && Binds(cells[j], name) && name !in KEYWORDS
        ensures false
      {
        SharedNameIsCycle(cells, i, j, name);
      }
    } else if OneBinderEach(cells) {
      var c :| IsCycle(g, c);
      BareCycle(cells, needed, c);
    }
  }

  /** Cell `i` binds a name that Python cell `j` binds as well and does not need. */
  ghost predicate Clash(cells: seq<NotebookCell>, needed: nat -> set<string>, i: nat, j: nat) {
    && i < |cells| && j < |cells| && i != j
    && exists name ::
         name in SpecOf(cells[i]).defines && Binds(cells[j], name) && name !in KEYWORDS && name !in needed(j)
  }

  /** Own names listed as used add a dependency on each cell of another kind that binds one of them, and no other. */
  lemma OwnNamesAddClashes(cells: seq<NotebookCell>, needed: nat -> set<string>, i: nat, j: nat)
    requires OneBinderEach(cells)
    ensures DependsOn(SpecsOf(cells), i, j) <==>
      DependsOn(Bare(SpecsOf(cells), needed), i, j) || Clash(cells, needed, i, j)
    ensures !(DependsOn(Bare(SpecsOf(cells), needed), i, j) && Clash(cells, needed, i, j))
  {
    var specs, bare := SpecsOf(cells), Bare(SpecsOf(cells), needed);
    if DependsOn(bare, i, j) {
      BareEdgeIsEdge(specs, needed, i, j);
    }
    if Clash(cells, needed, i, j) {
      ClashIsOneEdge(cells, needed, i, j);
    }
    if DependsOn(specs, i, j) {
      var v :| v in specs[i].defines && v in specs[j].uses;
      if v in specs[j].defines {
        OwnUseIsPython(cells[j], v);
      }
      assert v in bare[j].uses ==> v in bare[i].defines;
    }
  }

  /** The cell of another kind binds just that name, so nothing but the clash makes `j` depend on it. */
  lemma ClashIsOneEdge(cells: seq<NotebookCell>, needed: nat -> set<string>, i: nat, j: nat)
    requires OneBinderEach(cells) && Clash(cells, needed, i, j)
    ensures DependsOn(SpecsOf(cells), i, j) && !DependsOn(Bare(SpecsOf(cells), needed), i, j)
  {
    hide LinesOf, AllDefines, AllUses, Distinct;
    var name :|
      name in SpecOf(cells[i]).defines && Binds(cells[j], name) && name !in KEYWORDS && name !in needed(j);
    PythonBinds(cells[i], name);
    assert SpecOf(cells[i]).defines == [name];
    OwnNameIsUsed(cells[j], name);
  }

  lemma PythonBinds(cell: NotebookCell, name: string)
    requires name in SpecOf(cell).defines
    ensures cell.kind == Format.Python ==> Binds(cell, name)
  {
  }

  lemma OwnNameIsUsed(cell: NotebookCell, name: string)
    requires Binds(cell, name) && name !in KEYWORDS
    ensures name in SpecOf(cell).defines && name in SpecOf(cell).uses
  {
    DefinesAreUses(LinesOf(cell.source), name, KEYWORDS);
  }

  /**
   Where there is an order, listing own names leaves the dependencies as they are
   exactly when no cell binds a name that another, a Python cell, binds without
   needing it, and the order as it is exactly when it runs all such cells first.
   */
  lemma OwnNamesKeepOrderIff(cells: seq<NotebookCell>, needed: nat -> set<string>)
    requires Acyclic(DepGraph(SpecsOf(cells)))
    ensures var g, bare := DepGraph(SpecsOf(cells)), DepGraph(Bare(SpecsOf(cells), needed));
            && (g == bare <==> Clashes(cells, needed) == {})
            && (Greedy(g, []) == Greedy(bare, []) <==>
                 forall e :: e in Clashes(cells, needed) ==> Before(Greedy(bare, []), e.0, e.1))
  {
    var g, bare := DepGraph(SpecsOf(cells)), DepGraph(Bare(SpecsOf(cells), needed));
    OwnNamesHarmlessIff(cells, needed);
    EdgesAndClashes(cells, needed);
    hide SpecsOf, DepGraph, Bare, Clashes, OneBinderEach;
    MoreEdges(g, bare, Clashes(cells, needed));
  }

  ghost function Clashes(cells: seq<NotebookCell>, needed: nat -> set<string>): set<(nat, nat)> {
    set i: nat, j: nat | i < |cells| && j < |cells| && Clash(cells, needed, i, j) :: (i, j)
  }

  lemma EdgesAndClashes(cells: seq<NotebookCell>, needed: nat -> set<string>)
    requires OneBinderEach(cells)
    ensures var g, bare := DepGraph(SpecsOf(cells)), DepGraph(Bare(SpecsOf(cells), needed));
            && g.n == bare.n == |cells|
            && g.edges == bare.edges + Clashes(cells, needed) && bare.edges !! Clashes(cells, needed)
  {
    var g, bare, clashes := DepGraph(SpecsOf(cells)), DepGraph(Bare(SpecsOf(cells), needed)), Clashes(cells, needed);
    forall e: (nat, nat)
      ensures (e in g.edges <==> e in bare.edges || e in clashes) && !(e in bare.edges && e in clashes)
    {
      OwnNamesAddClashes(cells, needed, e.0, e.1);
    }
  }

  /**
   Whatever names are listed as used too much: there is an order, and the same one
   as without them, exactly when that runs every added dependency forward.
   */
  lemma OverlistingKeepsOrderIff(full: seq<CellSpec>, bare: seq<CellSpec>)
    requires |full| == |bare| && forall i :: 0 <= i < |full| ==> full[i].defines == bare[i].defines
    requires forall i, v :: 0 <= i < |full| && v in bare[i].uses ==> v in full[i].uses
    requires Acyclic(DepGraph(bare))
    ensures var g, b := DepGraph(full), DepGraph(bare);
            Acyclic(g) && Greedy(g, []) == Greedy(b, []) <==>
              forall e :: e in g.edges - b.edges ==> Before(Greedy(b, []), e.0, e.1)
  {
    var g, b := DepGraph(full), DepGraph(bare);
    forall i, j | DependsOn(bare, i, j) ensures DependsOn(full, i, j) {
      var v :| v in bare[i].defines && v in bare[j].uses;
      assert v in full[i].defines && v in full[j].uses;
    }
    assert g.edges == b.edges + (g.edges - b.edges);
    MoreEdgesIff(g, b, g.edges - b.edges);
  }

  // ---- Two notebooks without an order, and one with another ------------------------------------------

  lemma OneLine(source: string)
    requires source != "" && '\n' !in source && '#' !in source
    ensures LinesOf(source) == [source] && CodePart(source) == source
  {
    SplitWhole(source, '\n');
    CodePartWhole(source);
    assert EndedLines([]) + [source] == [source];
  }

  lemma {:induction false} CodePartWhole(line: string)
    requires '#' !in line
    ensures CodePart(line) == line
  {
    if line != "" {
      CodePartWhole(line[1..]);
      assert line == [line[0]] + line[1..];
    }
  }

  lemma AssignsFirst(line: string)
    requires |line| > 2 && StartsIdent(line[0]) && line[1] == '=' && line[2] != '='
    ensures TrimStart(line) == line && AssignmentTarget(line) == Some([line[0]])
  {
    assert IdentEnd(line, 0) == 1 && line[..1] == [line[0]];
    assert line[1..][0] == '=' && line[1..][1] == line[2] && TrimStart(line[1..]) == line[1..];
  }

  /** An assignment of one line to a name of one letter binds that name. */
  lemma AssignmentBinds(cell: NotebookCell)
    requires cell.kind == Format.Python && |cell.source| > 2 && '\n' !in cell.source && '#' !in cell.source
    requires StartsIdent(cell.source[0]) && cell.source[1] == '=' && cell.source[2] != '='
    ensures Binds(cell, [cell.source[0]])
  {
    var line := cell.source;
    OneLine(line);
    AssignsFirst(line);
    OneLineDefines([line], [line[0]]);
    DistinctHasAll(AllDefines([line]), [line[0]]);
  }

  lemma OneLineDefines(lines: seq<string>, name: string)
    requires |lines| == 1 && AssignmentTarget(TrimStart(CodePart(lines[0]))) == Some(name)
    ensures name in AllDefines(lines)
  {
    assert LineDefines(CodePart(lines[0]))[0] == name;
    assert AllDefines(lines) == AllDefines(lines[..0]) + LineDefines(CodePart(lines[0]));
  }

  /** An identifier in a line of its own is listed as used. */
  lemma IdentifierIsUsed(cell: NotebookCell, p: nat)
    requires cell.kind == Format.Python && '\n' !in cell.source && '#' !in cell.source && BeginsAt(cell.source, p)
    requires p + 1 < |cell.source| ==> !InIdent(cell.source[p + 1])
    requires [cell.source[p]] !in KEYWORDS
    ensures [cell.source[p]] in SpecOf(cell).uses
  {
    var line := cell.source;
    OneLine(line);
    LetterIsFound(line, p);
    hide *;
    OneLineUses([line], [line[p]]);
    DistinctHasAll(AllUses([line], KEYWORDS), [line[p]]);
    SpecOfPython(cell);
  }

  lemma SpecOfPython(cell: NotebookCell)
    requires cell.kind == Format.Python
    ensures SpecOf(cell).defines == Distinct(AllDefines(LinesOf(cell.source)))
    ensures SpecOf(cell).uses == Distinct(AllUses(LinesOf(cell.source), KEYWORDS))
  {
  }

  lemma {:induction false} NoBinder(line: string, binders: seq<string>)
    requires line != "" && forall k :: 0 <= k < |binders| ==> binders[k] != "" && binders[k][0] != line[0]
    ensures BoundAfterAny(line, binders) == []
  {
    if binders != [] {
      NoBinder(line, binders[..|binders| - 1]);
    }
  }

  lemma OneLineOnly(lines: seq<string>)
    requires |lines| == 1
    ensures AllDefines(lines) == LineDefines(CodePart(lines[0]))
    ensures AllUses(lines, KEYWORDS) == LineUses(IdentifiersFrom(CodePart(lines[0]), 0), KEYWORDS)
  {
    hide LineDefines, LineUses, IdentifiersFrom, CodePart;
    assert AllDefines(lines) == AllDefines(lines[..0]) + LineDefines(CodePart(lines[0]));
    assert AllUses(lines, KEYWORDS)
      == AllUses(lines[..0], KEYWORDS) + LineUses(IdentifiersFrom(CodePart(lines[0]), 0), KEYWORDS);
  }

  lemma LetterIsFound(line: string, p: nat)
    requires BeginsAt(line, p) && (p + 1 < |line| ==> !InIdent(line[p + 1]))
    ensures [line[p]] in IdentifiersFrom(line, 0)
  {
    IdentifierFound(line, 0, p);
    assert IdentEnd(line, p) == p + 1 && line[p..p + 1] == [line[p]];
  }

  lemma OneLineUses(lines: seq<string>, name: string)
    requires |lines| == 1 && name in IdentifiersFrom(CodePart(lines[0]), 0) && name !in KEYWORDS
    ensures name in AllUses(lines, KEYWORDS)
  {
    LineUsesAre(IdentifiersFrom(CodePart(lines[0]), 0), KEYWORDS, name);
    OneLineOnly(lines);
  }

  lemma LettersAreNoKeywords(name: string)
    requires |name| == 1
    ensures name !in KEYWORDS
  {
  }

  /** `a=1` and `a=2` in two Python cells: each binds `a`, so the notebook cannot be ordered. */
  lemma TwoAssignments(a: NotebookCell, b: NotebookCell)
    requires a.kind == b.kind == Format.Python && a.source == "a=1" && b.source == "a=2"
    ensures !Acyclic(DepGraph(SpecsOf([a, b])))
  {
    AssignmentBinds(a);
    AssignmentBinds(b);
    LettersAreNoKeywords("a");
    SharedNameIsCycle([a, b], 0, 1, "a");
  }

  /**
   `x=1` before a query that binds `x`: each runs for itself, and the listed order
   is valid, but the name listed as used makes the query run first, and `x` ends up
   as the number.
   */
  lemma QueryMovesUp(a: NotebookCell, b: NotebookCell)
    requires a.kind == Format.Python && a.source == "x=1" && b.kind == Format.Sql && b.outputVar == Some("x")
    ensures OneBinderEach([a, b])
    ensures Greedy(DepGraph(Bare(SpecsOf([a, b]), NeedsNothing())), []) == [0, 1]
    ensures Acyclic(DepGraph(SpecsOf([a, b]))) && Greedy(DepGraph(SpecsOf([a, b])), []) == [1, 0]
  {
    var cells := [a, b];
    var specs, bare := SpecsOf(cells), Bare(SpecsOf(cells), NeedsNothing());
    AssignmentBinds(a);
    LettersAreNoKeywords("x");
    OwnNameIsUsed(a, "x");
    assert specs[1].defines == ["x"] && specs[1].uses == [] && "x" in specs[0].uses && "x" !in bare[0].uses;
    hide SpecOf, SpecsOf, Bare;
    assert !DependsOn(bare, 0, 1) && !DependsOn(bare, 1, 0);
    assert DependsOn(specs, 1, 0) && !DependsOn(specs, 0, 1);
    TwoApart(DepGraph(bare));
    SecondFirst(DepGraph(specs));
  }

  lemma TwoApart(g: Graph)
    requires g.Valid() && g.n == 2 && (0, 1) !in g.edges && (1, 0) !in g.edges
    requires forall e :: e in g.edges ==> e.0 != e.1
    ensures Greedy(g, []) == [0, 1]
  {
    assert Identity(2) == [0, 1];
    GreedyKeepsValidOrder(g);
  }

  lemma SecondFirst(g: Graph)
    requires g.Valid() && g.n == 2 && (1, 0) in g.edges && (0, 1) !in g.edges
    requires forall e :: e in g.edges ==> e.0 != e.1
    ensures Acyclic(g) && Greedy(g, []) == [1, 0]
  {
    assert Topological(g, [1, 0]);
    forall c ensures !IsCycle(g, c) {
      TopologicalHasNoCycle(g, [1, 0], c);
    }
    GreedyCompleteIffAcyclic(g);
    var order := Greedy(g, []);
    NodesBound(g, order);
    assert (order[1], order[0]) !in g.edges;
  }

  /** No cell needs a name it binds. */
  ghost function NeedsNothing(): nat -> set<string> {
    (i: nat) => {}
  }

  /** `a='b'` and `b=a`: the letter in the string counts as a use, so these cannot be ordered either. */
  lemma TextCountsAsUse(a: NotebookCell, b: NotebookCell)
    requires a.kind == b.kind == Format.Python && a.source == "a='b'" && b.source == "b=a"
    ensures !Acyclic(DepGraph(SpecsOf([a, b])))
  {
    hide LinesOf, AllDefines, AllUses, Distinct, DepGraph, Acyclic;
    AssignmentBinds(a);
    AssignmentBinds(b);
    LettersAreNoKeywords("a");
    LettersAreNoKeywords("b");
    IdentifierIsUsed(a, 3);
    IdentifierIsUsed(b, 2);
    MutualIsCycle(SpecsOf([a, b]), 0, 1, "a", "b");
  }
}
