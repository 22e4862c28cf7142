/**
 Is re-running some cells after an edit as good as running the whole edited
 notebook again?

 A cell's code is any function from the variables it reads to the variables it
 binds, whatever the analysis lists for it. The core result is about any two
 versions of a notebook and any cells run again: they are enough, for every
 kernel state and every code, exactly when for each variable the cell that binds
 it last is the same in both runs and has in turn read what the same cells bound.
 That is a condition on who binds and reads which variable, in which order.

 When cells bind just what the analysis lists and the edit keeps the variables,
 the dependency graph makes it simple: no re-run cell's variable is overwritten
 by a cell that does not re-run, and no re-run cell updates a variable in place
 from a value that only a cell that does not re-run could restore.
 */
module NotebookRerun {
  import opened Graphs
  import opened NotebookGraph

  /** What a variable holds: a number, or anything known by the cell that made it and the values that cell read. */
  datatype Value = Number(n: int) | Made(maker: nat, edited: bool, inputs: map<string, Value>)

  type State = map<string, Value>

  /** The value cell `i` gives to a variable, from the variables it reads. */
  type Code = (nat, State, string) -> Value

  /** The variables a cell really reads. */
  type Needs = nat -> set<string>

  /** The analysis lists, among other names, all a cell reads. */
  ghost predicate NeedsListed(cells: seq<CellSpec>, needs: Needs) {
    forall i, v :: 0 <= i < |cells| && v in needs(i) ==> v in cells[i].uses
  }

  ghost function View(s: State, vars: set<string>): State {
    map v | v in s && v in vars :: s[v]
  }

  ghost function Exec(cells: seq<CellSpec>, needs: Needs, code: Code, i: nat, s: State): State {
    if i < |cells| then s + map v | v in cells[i].defines :: code(i, View(s, needs(i)), v)
    else s
  }

  ghost function Run(cells: seq<CellSpec>, needs: Needs, code: Code, order: seq<nat>, s: State): State {
    if order == [] then s
    else Exec(cells, needs, code, order[|order| - 1], Run(cells, needs, code, order[..|order| - 1], s))
  }

  /** The kernel executes cells by id. */
  ghost function RunIds(cells: seq<CellSpec>, needs: Needs, code: Code, ids: seq<Uuid>, s: State): State {
    if ids == [] then s
    else Exec(cells, needs, code, Position(cells, ids[|ids| - 1]), RunIds(cells, needs, code, ids[..|ids| - 1], s))
  }

  lemma {:induction false} RunIdsIsRun(cells: seq<CellSpec>, needs: Needs, code: Code, ids: seq<Uuid>,
                                       order: seq<nat>, s: State)
    requires DistinctIds(cells) && Names(cells, ids, order)
    ensures RunIds(cells, needs, code, ids, s) == Run(cells, needs, code, order, s)
  {
    if order != [] {
      RunIdsIsRun(cells, needs, code, ids[..|ids| - 1], order[..|order| - 1], s);
      PositionOfId(cells, order[|order| - 1]);
    }
  }

  ghost function Order(cells: seq<CellSpec>): seq<nat> {
    Greedy(DepGraph(cells), [])
  }

  /** The cells that run again after a change of cell `start`. */
  ghost function Again(cells: seq<CellSpec>, start: nat): seq<nat> {
    Restrict(Order(cells), ReachSet(DepGraph(cells), start))
  }

  ghost predicate SameExcept(code: Code, edited: Code, start: nat) {
    forall i, view, v :: i != start ==> code(i, view, v) == edited(i, view, v)
  }

  ghost predicate SameAt(a: State, b: State, v: string) {
    (v in a <==> v in b) && (v in a ==> a[v] == b[v])
  }

  ghost predicate Unwritten(cells: seq<CellSpec>, order: seq<nat>, v: string) {
    forall k :: 0 <= k < |order| ==> !Defines(cells, order[k], v)
  }

  lemma {:induction false} UnwrittenKept(cells: seq<CellSpec>, needs: Needs, code: Code, order: seq<nat>, k: nat,
                                         s: State, v: string)
    requires k <= |order| && Unwritten(cells, order[k..], v)
    ensures SameAt(Run(cells, needs, code, order, s), Run(cells, needs, code, order[..k], s), v)
    decreases |order|
  {
    if k == |order| {
      assert order[..k] == order;
    } else {
      var front := order[..|order| - 1];
      assert front[..k] == order[..k] && front[k..] == order[k..][..|order| - 1 - k];
      assert order[|order| - 1] == order[k..][|order| - 1 - k];
      UnwrittenKept(cells, needs, code, front, k, s, v);
    }
  }

  lemma ViewSame(a: State, b: State, vars: set<string>)
    requires forall v :: v in vars ==> SameAt(a, b, v)
    ensures View(a, vars) == View(b, vars)
  {
    assert forall v :: v in View(a, vars) <==> v in View(b, vars);
  }

  lemma SameEverywhere(a: State, b: State)
    requires forall v :: SameAt(a, b, v)
    ensures a == b
  {
    assert forall v :: SameAt(a, b, v) ==> (v in a <==> v in b);
  }

  // ---- Who binds what a cell reads -------------------------------------------------

  /** The position of the last cell before position `k` that binds `v`, or -1. */
  ghost function Writer(cells: seq<CellSpec>, order: seq<nat>, k: nat, v: string): (w: int)
    requires k <= |order|
    ensures -1 <= w < k
    ensures w >= 0 ==> Defines(cells, order[w], v)
    ensures forall j :: w < j < k ==> !Defines(cells, order[j], v)
  {
    if k == 0 then -1 else if Defines(cells, order[k - 1], v) then k - 1 else Writer(cells, order, k - 1, v)
  }

  /** What the cell at position `k` sees when the cells run in this order. */
  ghost function Sees(cells: seq<CellSpec>, needs: Needs, code: Code, order: seq<nat>, k: nat, s: State): State
    requires k < |order|
  {
    View(Run(cells, needs, code, order[..k], s), needs(order[k]))
  }

  /** A variable holds what its last binder made of what that cell saw. */
  lemma {:induction false} ValueBy(cells: seq<CellSpec>, needs: Needs, code: Code, order: seq<nat>, k: nat, v: string,
                                   s: State)
    requires k <= |order|
    ensures var w, r := Writer(cells, order, k, v), Run(cells, needs, code, order[..k], s);
            if w >= 0 then v in r && r[v] == code(order[w], Sees(cells, needs, code, order, w, s), v)
            else SameAt(r, s, v)
  {
    if k > 0 {
      ValueBy(cells, needs, code, order, k - 1, v, s);
      assert order[..k][..k - 1] == order[..k - 1];
    }
  }

  /** A version of a notebook: what its cells really bind and read, and the order they run in. */
  datatype Version = Version(cells: seq<CellSpec>, needs: Needs, order: seq<nat>)

  /** Two versions that differ at most in what cell `start` binds and reads, and in the order. */
  ghost predicate Versions(was: Version, now: Version, start: nat) {
    && NoDup(was.order) && NoDup(now.order)
    && (forall c :: c in now.order ==> c in was.order && c < |was.cells| && c < |now.cells|)
    && (forall c, v :: c in now.order && c != start ==> (Defines(was.cells, c, v) <==> Defines(now.cells, c, v)))
    && (forall c :: c in now.order && c != start ==> was.needs(c) == now.needs(c))
  }

  ghost function PositionOf(order: seq<nat>, c: nat): (p: nat)
    requires c in order
    ensures p < |order| && order[p] == c
  {
    var p :| 0 <= p < |order| && order[p] == c;
    p
  }

  /** In full runs of both versions, the same unaffected cell, or none, binds something last at these positions. */
  ghost predicate SameMaker(was: Version, now: Version, start: nat, u: int, w: int)
    requires Versions(was, now, start) && u < |was.order| && w < |now.order|
    decreases w, 1
  {
    if w < 0 then u < 0 else u >= 0 && was.order[u] == now.order[w] && Unaffected(was, now, start, w)
  }

  /** The cell at position `k` of the new order is not the edited one, and reads the same as before. */
  ghost predicate Unaffected(was: Version, now: Version, start: nat, k: nat)
    requires Versions(was, now, start) && k < |now.order|
    decreases k, 0
  {
    var c := now.order[k];
    c != start && forall v :: v in now.needs(c) ==>
      SameMaker(was, now, start, Writer(was.cells, was.order, PositionOf(was.order, c), v),
                Writer(now.cells, now.order, k, v))
  }

  /**
   When the cells of `again` run after a full run of the old version, `v` holds,
   before position `j` of them, what it holds before position `k` of a full run of
   the new version.
   */
  ghost predicate ComesRight(was: Version, now: Version, again: seq<nat>, start: nat, j: nat, k: nat, v: string)
    requires Versions(was, now, start) && j <= |again| && k <= |now.order|
    requires forall c :: c in again ==> c in now.order
    decreases j, 0
  {
    var rerun, full := Writer(now.cells, again, j, v), Writer(now.cells, now.order, k, v);
    if rerun >= 0 then full >= 0 && again[rerun] == now.order[full] && ReadsRight(was, now, again, start, rerun)
    else SameMaker(was, now, start, Writer(was.cells, was.order, |was.order|, v), full)
  }

  /** The cell at position `j` of `again` reads what it reads in a full run of the new version. */
  ghost predicate ReadsRight(was: Version, now: Version, again: seq<nat>, start: nat, j: nat)
    requires Versions(was, now, start) && j < |again|
    requires forall c :: c in again ==> c in now.order
    decreases j, 1
  {
    forall v :: v in now.needs(again[j]) ==>
      ComesRight(was, now, again, start, j, PositionOf(now.order, again[j]), v)
  }

  /** For every code, edit and kernel state, the cells of `again` leave what a full run of the new version leaves. */
  ghost predicate PartialSuffices(was: Version, now: Version, again: seq<nat>, start: nat) {
    forall code: Code, edited: Code, s: State :: SameExcept(code, edited, start) ==>
      Run(now.cells, now.needs, edited, again, Run(was.cells, was.needs, code, was.order, s))
      == Run(now.cells, now.needs, edited, now.order, s)
  }

  // ---- The condition is enough -------------------------------------------------------

  lemma {:induction false} SameMade(was: Version, now: Version, start: nat, code: Code, edited: Code, s: State,
                                    p: nat, k: nat, v: string)
    requires Versions(was, now, start) && SameExcept(code, edited, start) && p <= |was.order| && k <= |now.order|
    requires SameMaker(was, now, start, Writer(was.cells, was.order, p, v), Writer(now.cells, now.order, k, v))
    ensures SameAt(Run(was.cells, was.needs, code, was.order[..p], s),
                   Run(now.cells, now.needs, edited, now.order[..k], s), v)
    decreases k, 0
  {
    hide Run, Sees;
    var w := Writer(now.cells, now.order, k, v);
    ValueBy(was.cells, was.needs, code, was.order, p, v, s);
    ValueBy(now.cells, now.needs, edited, now.order, k, v, s);
    if w >= 0 {
      SameInputs(was, now, start, code, edited, s, w);
    }
  }

  /** An unaffected cell sees the same in both versions. */
  lemma {:induction false} SameInputs(was: Version, now: Version, start: nat, code: Code, edited: Code,
                                      s: State, k: nat)
    requires Versions(was, now, start) && SameExcept(code, edited, start)
    requires k < |now.order| && Unaffected(was, now, start, k)
    ensures Sees(was.cells, was.needs, code, was.order, PositionOf(was.order, now.order[k]), s)
         == Sees(now.cells, now.needs, edited, now.order, k, s)
    decreases k, 1
  {
    hide Run, View;
    var c := now.order[k];
    var p := PositionOf(was.order, c);
    var before := Run(was.cells, was.needs, code, was.order[..p], s);
    var after := Run(now.cells, now.needs, edited, now.order[..k], s);
    forall v | v in now.needs(c) ensures SameAt(before, after, v) {
      SameMade(was, now, start, code, edited, s, p, k, v);
    }
    ViewSame(before, after, now.needs(c));
  }

  lemma {:induction false} RightMade(was: Version, now: Version, again: seq<nat>, start: nat, code: Code, edited: Code,
                                     s: State, j: nat, k: nat, v: string)
    requires Versions(was, now, start) && SameExcept(code, edited, start) && j <= |again| && k <= |now.order|
    requires forall c :: c in again ==> c in now.order
    requires ComesRight(was, now, again, start, j, k, v)
    ensures SameAt(Run(now.cells, now.needs, edited, again[..j], Run(was.cells, was.needs, code, was.order, s)),
                   Run(now.cells, now.needs, edited, now.order[..k], s), v)
    decreases j, 0
  {
    hide Run, Sees;
    var before := Run(was.cells, was.needs, code, was.order, s);
    var rerun := Writer(now.cells, again, j, v);
    ValueBy(now.cells, now.needs, edited, again, j, v, before);
    if rerun >= 0 {
      ValueBy(now.cells, now.needs, edited, now.order, k, v, s);
      RightInputs(was, now, again, start, code, edited, s, rerun);
    } else {
      SameMade(was, now, start, code, edited, s, |was.order|, k, v);
      assert was.order[..|was.order|] == was.order;
    }
  }

  lemma {:induction false} RightInputs(was: Version, now: Version, again: seq<nat>, start: nat, code: Code,
                                       edited: Code, s: State, j: nat)
    requires Versions(was, now, start) && SameExcept(code, edited, start) && j < |again|
    requires forall c :: c in again ==> c in now.order
    requires ReadsRight(was, now, again, start, j)
    ensures Sees(now.cells, now.needs, edited, again, j, Run(was.cells, was.needs, code, was.order, s))
         == Sees(now.cells, now.needs, edited, now.order, PositionOf(now.order, again[j]), s)
    decreases j, 1
  {
    hide Run, View;
    var c := again[j];
    var k := PositionOf(now.order, c);
    var before := Run(was.cells, was.needs, code, was.order, s);
    var partial := Run(now.cells, now.needs, edited, again[..j], before);
    var full := Run(now.cells, now.needs, edited, now.order[..k], s);
    forall v | v in now.needs(c) ensures SameAt(partial, full, v) {
      RightMade(was, now, again, start, code, edited, s, j, k, v);
    }
    ViewSame(partial, full, now.needs(c));
  }

  // ---- And nothing less is ------------------------------------------------------------

  /** Code that keeps everything apart: what a cell makes tells which cell it was, which version, and what it saw. */
  ghost function Telltale(start: nat, edited: bool): Code {
    (i: nat, view: State, v: string) => Made(i, edited && i == start, view)
  }

  /** What a full run of that code leaves before the edit. */
  ghost function TelltaleState(was: Version, start: nat): State {
    Run(was.cells, was.needs, Telltale(start, false), was.order, map[])
  }

  lemma ViewsDiffer(a: State, b: State, vars: set<string>, v: string)
    requires v in vars && !SameAt(a, b, v)
    ensures View(a, vars) != View(b, vars)
  {
    assert v in View(a, vars) <==> v in a;
    assert v in View(b, vars) <==> v in b;
  }

  lemma {:induction false} OtherMade(was: Version, now: Version, start: nat, p: nat, k: nat, v: string)
    requires Versions(was, now, start) && p <= |was.order| && k <= |now.order|
    requires !SameMaker(was, now, start, Writer(was.cells, was.order, p, v), Writer(now.cells, now.order, k, v))
    ensures !SameAt(Run(was.cells, was.needs, Telltale(start, false), was.order[..p], map[]),
                    Run(now.cells, now.needs, Telltale(start, true), now.order[..k], map[]), v)
    decreases k, 0
  {
    hide Run, Sees;
    var u, w := Writer(was.cells, was.order, p, v), Writer(now.cells, now.order, k, v);
    ValueBy(was.cells, was.needs, Telltale(start, false), was.order, p, v, map[]);
    ValueBy(now.cells, now.needs, Telltale(start, true), now.order, k, v, map[]);
    if u >= 0 && w >= 0 && was.order[u] == now.order[w] != start {
      OtherInputs(was, now, start, w);
    }
  }

  lemma {:induction false} OtherInputs(was: Version, now: Version, start: nat, k: nat)
    requires Versions(was, now, start)
    requires k < |now.order| && now.order[k] != start && !Unaffected(was, now, start, k)
    ensures Sees(was.cells, was.needs, Telltale(start, false), was.order, PositionOf(was.order, now.order[k]), map[])
         != Sees(now.cells, now.needs, Telltale(start, true), now.order, k, map[])
    decreases k, 1
  {
    hide Run, View;
    var c := now.order[k];
    var p := PositionOf(was.order, c);
    var v :| v in now.needs(c) &&
      !SameMaker(was, now, start, Writer(was.cells, was.order, p, v), Writer(now.cells, now.order, k, v));
    OtherMade(was, now, start, p, k, v);
    ViewsDiffer(Run(was.cells, was.needs, Telltale(start, false), was.order[..p], map[]),
                Run(now.cells, now.needs, Telltale(start, true), now.order[..k], map[]), now.needs(c), v);
  }

  lemma {:induction false} WrongMade(was: Version, now: Version, again: seq<nat>, start: nat, j: nat, k: nat, v: string)
    requires Versions(was, now, start) && j <= |again| && k <= |now.order|
    requires forall c :: c in again ==> c in now.order
    requires !ComesRight(was, now, again, start, j, k, v)
    ensures !SameAt(Run(now.cells, now.needs, Telltale(start, true), again[..j], TelltaleState(was, start)),
                    Run(now.cells, now.needs, Telltale(start, true), now.order[..k], map[]), v)
    decreases j, 0
  {
    hide Run, Sees;
    var before := TelltaleState(was, start);
    var rerun, full := Writer(now.cells, again, j, v), Writer(now.cells, now.order, k, v);
    ValueBy(now.cells, now.needs, Telltale(start, true), again, j, v, before);
    if rerun >= 0 {
      ValueBy(now.cells, now.needs, Telltale(start, true), now.order, k, v, map[]);
      if full >= 0 && again[rerun] == now.order[full] {
        WrongInputs(was, now, again, start, rerun);
      }
    } else {
      OtherMade(was, now, start, |was.order|, k, v);
      assert was.order[..|was.order|] == was.order;
    }
  }

  lemma {:induction false} WrongInputs(was: Version, now: Version, again: seq<nat>, start: nat, j: nat)
    requires Versions(was, now, start) && j < |again|
    requires forall c :: c in again ==> c in now.order
    requires !ReadsRight(was, now, again, start, j)
    ensures Sees(now.cells, now.needs, Telltale(start, true), again, j, TelltaleState(was, start))
         != Sees(now.cells, now.needs, Telltale(start, true), now.order, PositionOf(now.order, again[j]), map[])
    decreases j, 1
  {
    hide Run, View;
    var c := again[j];
    var k := PositionOf(now.order, c);
    var before := TelltaleState(was, start);
    var v :| v in now.needs(c) && !ComesRight(was, now, again, start, j, k, v);
    WrongMade(was, now, again, start, j, k, v);
    ViewsDiffer(Run(now.cells, now.needs, Telltale(start, true), again[..j], before),
                Run(now.cells, now.needs, Telltale(start, true), now.order[..k], map[]), now.needs(c), v);
  }

  lemma AllRight(was: Version, now: Version, again: seq<nat>, start: nat, code: Code, edited: Code, s: State)
    requires Versions(was, now, start) && SameExcept(code, edited, start) && forall c :: c in again ==> c in now.order
    requires forall v :: ComesRight(was, now, again, start, |again|, |now.order|, v)
    ensures Run(now.cells, now.needs, edited, again, Run(was.cells, was.needs, code, was.order, s))
         == Run(now.cells, now.needs, edited, now.order, s)
  {
    hide Run, ComesRight, Versions;
    var partial := Run(now.cells, now.needs, edited, again, Run(was.cells, was.needs, code, was.order, s));
    var full := Run(now.cells, now.needs, edited, now.order, s);
    assert again[..|again|] == again && now.order[..|now.order|] == now.order;
    forall v ensures SameAt(partial, full, v) {
      RightMade(was, now, again, start, code, edited, s, |again|, |now.order|, v);
    }
    SameEverywhere(partial, full);
  }

  /**
   Whatever the cells really bind and read, whatever the edit does to the edited
   cell and to the order, and whichever cells run again: these are enough, for
   every code and kernel state, exactly when every variable comes out of the same
   cells.
   */
  lemma PartialSufficesIff(was: Version, now: Version, again: seq<nat>, start: nat)
    requires Versions(was, now, start) && forall c :: c in again ==> c in now.order
    ensures PartialSuffices(was, now, again, start) <==>
      forall v :: ComesRight(was, now, again, start, |again|, |now.order|, v)
  {
    hide Run, ComesRight, Versions;
    if forall v :: ComesRight(was, now, again, start, |again|, |now.order|, v) {
      forall code: Code, edited: Code, s: State | SameExcept(code, edited, start)
        ensures Run(now.cells, now.needs, edited, again, Run(was.cells, was.needs, code, was.order, s))
             == Run(now.cells, now.needs, edited, now.order, s)
      {
        AllRight(was, now, again, start, code, edited, s);
      }
    } else {
      var v :| !ComesRight(was, now, again, start, |again|, |now.order|, v);
      WrongMade(was, now, again, start, |again|, |now.order|, v);
      assert again[..|again|] == again && now.order[..|now.order|] == now.order;
      assert SameExcept(Telltale(start, false), Telltale(start, true), start);
      assert TelltaleState(was, start) == Run(was.cells, was.needs, Telltale(start, false), was.order, map[]);
    }
  }

  // ---- Cells that bind what is listed, and edits that keep the variables ----------------

  /** After a full run and any edit of cell `start`, the partial run equals a full run. */
  ghost predicate RerunSuffices(cells: seq<CellSpec>, needs: Needs, start: nat) {
    forall code: Code, edited: Code, s: State :: SameExcept(code, edited, start) ==>
      Run(cells, needs, edited, Again(cells, start), Run(cells, needs, code, Order(cells), s))
      == Run(cells, needs, edited, Order(cells), s)
  }

  ghost predicate LastWriterIn(cells: seq<CellSpec>, order: seq<nat>, k: nat, v: string, keep: set<nat>)
    requires k <= |order|
  {
    var w := Writer(cells, order, k, v);
    w >= 0 && order[w] in keep
  }

  /** Whatever a re-run cell binds is bound last by a re-run cell. */
  ghost predicate NotOverwritten(cells: seq<CellSpec>, order: seq<nat>, keep: set<nat>) {
    forall k, v :: 0 <= k < |order| && order[k] in keep && Defines(cells, order[k], v) ==>
      LastWriterIn(cells, order, |order|, v, keep)
  }

  ghost predicate UpdatesInPlace(cells: seq<CellSpec>, needs: Needs, i: nat, v: string) {
    Defines(cells, i, v) && v in needs(i)
  }

  /** A re-run cell that updates a variable in place finds it rebound by a re-run cell. */
  ghost predicate UpdatesRestored(cells: seq<CellSpec>, needs: Needs, order: seq<nat>, keep: set<nat>) {
    forall k, v :: 0 <= k < |order| && order[k] in keep && UpdatesInPlace(cells, needs, order[k], v) ==>
      LastWriterIn(cells, order, k, v, keep)
  }

  ghost predicate RerunSafe(cells: seq<CellSpec>, needs: Needs, start: nat) {
    var keep := ReachSet(DepGraph(cells), start);
    NotOverwritten(cells, Order(cells), keep) && UpdatesRestored(cells, needs, Order(cells), keep)
  }

  /** The notebook in the order the server gives. */
  ghost function Current(cells: seq<CellSpec>, needs: Needs): Version {
    Version(cells, needs, Order(cells))
  }

  /** The writer of a variable a cell only reads runs before that cell. */
  lemma NoLaterWriter(cells: seq<CellSpec>, order: seq<nat>, k: nat, v: string)
    requires NoDup(order) && Forward(DepGraph(cells), order)
    requires k < |order| && order[k] < |cells| && v in cells[order[k]].uses
    ensures forall j :: k < j < |order| ==> !Defines(cells, order[j], v)
  {
    forall j | k < j < |order|
      ensures !Defines(cells, order[j], v)
    {
      assert Defines(cells, order[j], v) ==> DependsOn(cells, order[j], order[k]);
    }
  }

  /** A cell that reads a re-run cell's variable is re-run. */
  lemma ReaderIsKept(cells: seq<CellSpec>, keep: set<nat>, writer: nat, reader: nat, v: string)
    requires ClosedUnder(DepGraph(cells), keep)
    requires writer in keep && Defines(cells, writer, v)
    requires reader < |cells| && v in cells[reader].uses
    ensures reader in keep
  {
    if reader != writer {
      assert DependsOn(cells, writer, reader);
      assert (writer, reader) in DepGraph(cells).edges;
    }
  }

  lemma OrderFacts(cells: seq<CellSpec>, needs: Needs, start: nat)
    requires start < |cells| && Acyclic(DepGraph(cells))
    ensures Topological(DepGraph(cells), Order(cells))
    ensures start in ReachSet(DepGraph(cells), start)
    ensures ClosedUnder(DepGraph(cells), ReachSet(DepGraph(cells), start))
    ensures Versions(Current(cells, needs), Current(cells, needs), start)
    ensures forall c :: c in Again(cells, start) ==> c in Order(cells)
  {
    GreedyCompleteIffAcyclic(DepGraph(cells));
    ReachSetLeastClosed(DepGraph(cells), start, {});
  }

  /** A cell that does not re-run reads nothing an affected cell binds. */
  lemma {:induction false} OutsideIsUnaffected(cells: seq<CellSpec>, needs: Needs, start: nat, k: nat)
    requires NeedsListed(cells, needs) && start < |cells| && Acyclic(DepGraph(cells))
    requires Versions(Current(cells, needs), Current(cells, needs), start)
    requires k < |Order(cells)| && Order(cells)[k] !in ReachSet(DepGraph(cells), start)
    ensures Unaffected(Current(cells, needs), Current(cells, needs), start, k)
  {
    OrderFacts(cells, needs, start);
    var order, keep, now := Order(cells), ReachSet(DepGraph(cells), start), Current(cells, needs);
    forall v | v in needs(order[k])
      ensures SameMaker(now, now, start, Writer(cells, order, PositionOf(order, order[k]), v),
                        Writer(cells, order, k, v))
    {
      var w := Writer(cells, order, k, v);
      assert PositionOf(order, order[k]) == k;
      if w >= 0 {
        if order[w] in keep {
          ReaderIsKept(cells, keep, order[w], order[k], v);
        }
        OutsideIsUnaffected(cells, needs, start, w);
      }
    }
  }

  /** Before position `j` of the re-run cells come those that come before position `k` of all and re-run. */
  ghost predicate Aligned(order: seq<nat>, again: seq<nat>, keep: set<nat>, j: nat, k: nat) {
    && j <= |again| && k <= |order|
    && (forall q :: 0 <= q < k && order[q] in keep ==> order[q] in again[..j])
    && (forall r :: 0 <= r < j ==> again[r] in keep && again[r] in order[..k])
  }

  lemma AlignedEnd(order: seq<nat>, keep: set<nat>)
    ensures Aligned(order, Restrict(order, keep), keep, |Restrict(order, keep)|, |order|)
  {
    var again := Restrict(order, keep);
    assert order[..|order|] == order && again[..|again|] == again;
  }

  lemma AlignedAt(order: seq<nat>, keep: set<nat>, j: nat)
    requires NoDup(order) && j < |Restrict(order, keep)|
    ensures Aligned(order, Restrict(order, keep), keep, j, PositionOf(order, Restrict(order, keep)[j]))
  {
    var again := Restrict(order, keep);
    var k := PositionOf(order, again[j]);
    forall q | 0 <= q < k && order[q] in keep ensures order[q] in again[..j] {
      var r :| 0 <= r < |again| && again[r] == order[q];
      SameSide(order, keep, r, j, q, k);
      assert again[..j][r] == order[q];
    }
    forall r | 0 <= r < j ensures again[r] in keep && again[r] in order[..k] {
      var q :| 0 <= q < |order| && order[q] == again[r];
      SameSide(order, keep, r, j, q, k);
      assert order[..k][q] == again[r];
    }
  }

  /** If the last binder before a position re-runs, it is the last binder among the re-run cells, too. */
  lemma SameLast(cells: seq<CellSpec>, order: seq<nat>, keep: set<nat>, j: nat, k: nat, v: string)
    requires NoDup(order) && Aligned(order, Restrict(order, keep), keep, j, k)
    ensures LastWriterIn(cells, order, k, v, keep) ==>
      var rerun := Writer(cells, Restrict(order, keep), j, v);
      rerun >= 0 && Restrict(order, keep)[rerun] == order[Writer(cells, order, k, v)]
  {
    hide Restrict, Writer, NoDup;
    var again := Restrict(order, keep);
    if LastWriterIn(cells, order, k, v, keep) {
      var rerun, w := Writer(cells, again, j, v), Writer(cells, order, k, v);
      var r :| 0 <= r < j && again[r] == order[w];
      assert again[rerun] in order[..k];
      var q :| 0 <= q < k && order[q] == again[rerun];
      SameSide(order, keep, r, rerun, w, q);
    }
  }

  /** What a re-run cell binds is bound last by one before this position. */
  ghost predicate Rebound(cells: seq<CellSpec>, order: seq<nat>, keep: set<nat>, k: nat, v: string)
    requires k <= |order|
  {
    forall q :: 0 <= q < k && order[q] in keep && Defines(cells, order[q], v) ==> LastWriterIn(cells, order, k, v, keep)
  }

  /** A re-run cell reads what a re-run cell bound last, or what no re-run cell bound before and nothing binds after. */
  ghost predicate ReadsFresh(cells: seq<CellSpec>, order: seq<nat>, keep: set<nat>, k: nat, v: string)
    requires k <= |order|
  {
    || LastWriterIn(cells, order, k, v, keep)
    || (Rebound(cells, order, keep, k, v) && Writer(cells, order, |order|, v) == Writer(cells, order, k, v))
  }

  /**
   Re-run cells are not overwritten by others and read fresh values, and no cell
   that does not re-run depends, step by step, on the edited one.
   */
  ghost predicate RerunRight(now: Version, keep: set<nat>, start: nat)
    requires Versions(now, now, start)
  {
    && NotOverwritten(now.cells, now.order, keep)
    && (forall k, v :: 0 <= k < |now.order| && now.order[k] in keep && v in now.needs(now.order[k]) ==>
         ReadsFresh(now.cells, now.order, keep, k, v))
    && (forall k :: 0 <= k < |now.order| && now.order[k] !in keep ==> Unaffected(now, now, start, k))
  }

  /** Under the condition, what is read fresh comes right. */
  lemma {:induction false} FreshComesRight(now: Version, keep: set<nat>, start: nat, j: nat, k: nat, v: string)
    requires Versions(now, now, start) && RerunRight(now, keep, start)
    requires Aligned(now.order, Restrict(now.order, keep), keep, j, k)
    requires ReadsFresh(now.cells, now.order, keep, k, v)
    ensures ComesRight(now, now, Restrict(now.order, keep), start, j, k, v)
    decreases j, 0
  {
    var order, again := now.order, Restrict(now.order, keep);
    var rerun := Writer(now.cells, again, j, v);
    SameLast(now.cells, order, keep, j, k, v);
    if rerun >= 0 {
      assert again[rerun] in order[..k];
      RightReadsRight(now, keep, start, rerun);
    }
  }

  lemma {:induction false} RightReadsRight(now: Version, keep: set<nat>, start: nat, j: nat)
    requires Versions(now, now, start) && RerunRight(now, keep, start) && j < |Restrict(now.order, keep)|
    ensures ReadsRight(now, now, Restrict(now.order, keep), start, j)
    decreases j, 1
  {
    var order, again := now.order, Restrict(now.order, keep);
    var k := PositionOf(order, again[j]);
    AlignedAt(order, keep, j);
    forall v | v in now.needs(again[j]) ensures ComesRight(now, now, again, start, j, k, v) {
      FreshComesRight(now, keep, start, j, k, v);
    }
  }

  lemma RightComesRight(now: Version, keep: set<nat>, start: nat, v: string)
    requires Versions(now, now, start) && RerunRight(now, keep, start)
    ensures ComesRight(now, now, Restrict(now.order, keep), start, |Restrict(now.order, keep)|, |now.order|, v)
  {
    AlignedEnd(now.order, keep);
    FreshComesRight(now, keep, start, |Restrict(now.order, keep)|, |now.order|, v);
  }

  /** In the dependency graph's order, reads are fresh under the simple condition. */
  lemma SafeReadsFresh(cells: seq<CellSpec>, needs: Needs, start: nat, k: nat, v: string)
    requires NeedsListed(cells, needs) && start < |cells| && Acyclic(DepGraph(cells)) && RerunSafe(cells, needs, start)
    requires k < |Order(cells)| && Order(cells)[k] in ReachSet(DepGraph(cells), start) && v in needs(Order(cells)[k])
    ensures ReadsFresh(cells, Order(cells), ReachSet(DepGraph(cells), start), k, v)
  {
    var order, keep := Order(cells), ReachSet(DepGraph(cells), start);
    OrderFacts(cells, needs, start);
    if Defines(cells, order[k], v) {
      assert UpdatesInPlace(cells, needs, order[k], v);
    } else {
      NoLaterWriter(cells, order, k, v);
      assert Writer(cells, order, |order|, v) == Writer(cells, order, k, v);
      assert forall q :: 0 <= q < k && order[q] in keep && Defines(cells, order[q], v) ==>
        LastWriterIn(cells, order, |order|, v, keep);
    }
  }

  lemma SafeIsRight(cells: seq<CellSpec>, needs: Needs, start: nat)
    requires NeedsListed(cells, needs) && start < |cells| && Acyclic(DepGraph(cells)) && RerunSafe(cells, needs, start)
    requires Versions(Current(cells, needs), Current(cells, needs), start)
    ensures RerunRight(Current(cells, needs), ReachSet(DepGraph(cells), start), start)
  {
    var order, keep := Order(cells), ReachSet(DepGraph(cells), start);
    forall k, v | 0 <= k < |order| && order[k] in keep && v in needs(order[k])
      ensures ReadsFresh(cells, order, keep, k, v)
    {
      SafeReadsFresh(cells, needs, start, k, v);
    }
    forall k | 0 <= k < |order| && order[k] !in keep
      ensures Unaffected(Current(cells, needs), Current(cells, needs), start, k)
    {
      OutsideIsUnaffected(cells, needs, start, k);
    }
  }

  /** Only the condition makes every variable come right. */
  lemma RightIsSafe(cells: seq<CellSpec>, needs: Needs, start: nat)
    requires NeedsListed(cells, needs) && start < |cells| && Acyclic(DepGraph(cells))
    requires Versions(Current(cells, needs), Current(cells, needs), start)
    requires forall c :: c in Again(cells, start) ==> c in Order(cells)
    requires forall v :: ComesRight(Current(cells, needs), Current(cells, needs), Again(cells, start), start,
                                    |Again(cells, start)|, |Order(cells)|, v)
    ensures RerunSafe(cells, needs, start)
  {
    var order, again, keep := Order(cells), Again(cells, start), ReachSet(DepGraph(cells), start);
    var now := Current(cells, needs);
    forall k, v | 0 <= k < |order| && order[k] in keep && Defines(cells, order[k], v)
      ensures LastWriterIn(cells, order, |order|, v, keep)
    {
      assert order[k] in again;
      assert ComesRight(now, now, again, start, |again|, |order|, v);
    }
    forall k, v | 0 <= k < |order| && order[k] in keep && UpdatesInPlace(cells, needs, order[k], v)
      ensures LastWriterIn(cells, order, k, v, keep)
    {
      UpdateIsRestored(cells, needs, start, k, v);
    }
  }

  lemma UpdateIsRestored(cells: seq<CellSpec>, needs: Needs, start: nat, k: nat, v: string)
    requires NeedsListed(cells, needs) && start < |cells| && Acyclic(DepGraph(cells))
    requires Versions(Current(cells, needs), Current(cells, needs), start)
    requires forall c :: c in Again(cells, start) ==> c in Order(cells)
    requires ComesRight(Current(cells, needs), Current(cells, needs), Again(cells, start), start,
                        |Again(cells, start)|, |Order(cells)|, v)
    requires k < |Order(cells)| && Order(cells)[k] in ReachSet(DepGraph(cells), start)
    requires UpdatesInPlace(cells, needs, Order(cells)[k], v)
    ensures LastWriterIn(cells, Order(cells), k, v, ReachSet(DepGraph(cells), start))
  {
    var order, again, keep := Order(cells), Again(cells, start), ReachSet(DepGraph(cells), start);
    var now := Current(cells, needs);
    OrderFacts(cells, needs, start);
    NoLaterWriter(cells, order, k, v);
    hide DepGraph, Acyclic, Forward;
    assert Writer(cells, order, |order|, v) == k;
    assert order[k] in again;
    var rerun := Writer(cells, again, |again|, v);
    assert PositionOf(order, again[rerun]) == k;
    assert ComesRight(now, now, again, start, rerun, k, v);
  }

  /**
   When cells bind just what the analysis lists, and the edit keeps the variables,
   the partial run is enough for every kernel state, code and edit exactly when no
   re-run cell's variable is overwritten by, or updated in place from, a cell that
   does not re-run.
   */
  lemma RerunSufficesIffSafe(cells: seq<CellSpec>, needs: Needs, start: nat)
    requires NeedsListed(cells, needs)
    requires start < |cells| && Acyclic(DepGraph(cells))
    ensures RerunSuffices(cells, needs, start) <==> RerunSafe(cells, needs, start)
  {
    var order, again, keep := Order(cells), Again(cells, start), ReachSet(DepGraph(cells), start);
    var now := Current(cells, needs);
    OrderFacts(cells, needs, start);
    PartialSufficesIff(now, now, again, start);
    if RerunSafe(cells, needs, start) {
      SafeIsRight(cells, needs, start);
      forall v ensures ComesRight(now, now, again, start, |again|, |order|, v) {
        RightComesRight(now, keep, start, v);
      }
    }
    if RerunSuffices(cells, needs, start) {
      RightIsSafe(cells, needs, start);
    }
  }

  /** Executing the ids the server returns is the partial run analysed above. */
  lemma RerunByIds(cells: seq<CellSpec>, needs: Needs, code: Code, start: nat, s: State)
    requires DistinctIds(cells) && start < |cells| && Acyclic(DepGraph(cells))
    ensures RunIds(cells, needs, code,
                   KeepAffected(cells, Ids(cells, Order(cells)), ReachSet(DepGraph(cells), start)), s)
         == Run(cells, needs, code, Again(cells, start), s)
  {
    DownstreamIsExact(cells, start);
    var ids := Ids(cells, Again(cells, start));
    RunIdsIsRun(cells, needs, code, ids, Again(cells, start), s);
  }
}
