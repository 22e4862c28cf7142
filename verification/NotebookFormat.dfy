/**
 Notebooks in Jupyter's format. Cells other than Markdown and Python travel as code
 cells whose first line is a marker comment; importing reads the marker back.

 A cell survives export and import, up to its fresh id, exactly when its fields fit
 its kind, its variable is a word, and no Python code begins like a marker.
 */
module NotebookFormat {
  import opened Common
  import opened Splitting
  import opened Whitespace
  import Uuids

  type Uuid = Uuids.Uuid

  datatype CellKind = Markdown | Python | Sql | Nl2sql | Input | Chart | BigNumber

  datatype NotebookCell = NotebookCell(
    id: Uuid,
    kind: CellKind,
    source: string,
    databaseId: Option<Uuid>,
    outputVar: Option<string>,
    inputVar: Option<string>)

  datatype Notebook = Notebook(name: string, cells: seq<NotebookCell>)

  datatype Json =
    | JNull
    | JBool(b: bool)
    | JNumber(n: int)
    | JString(s: string)
    | JArray(items: seq<Json>)
    | JObject(fields: map<string, Json>)

  datatype ImportError = MissingCells

  const MARKER := "#%gauss"

  // ---- Kinds ------------------------------------------------------------------------------

  function KindStr(kind: CellKind): string {
    match kind
    case Markdown => "markdown"
    case Python => "python"
    case Sql => "sql"
    case Nl2sql => "nl2sql"
    case Input => "input"
    case Chart => "chart"
    case BigNumber => "bignumber"
  }

  function KindFromStr(s: string): Option<CellKind> {
    if s == "markdown" then Some(Markdown)
    else if s == "python" then Some(Python)
    else if s == "sql" then Some(Sql)
    else if s == "nl2sql" then Some(Nl2sql)
    else if s == "input" then Some(Input)
    else if s == "chart" then Some(Chart)
    else if s == "bignumber" then Some(BigNumber)
    else None
  }

  lemma KindReadsBack(kind: CellKind)
    ensures KindFromStr(KindStr(kind)) == Some(kind)
    ensures IsWord(KindStr(kind)) && '=' !in KindStr(kind)
  {
  }

  // ---- Source lines --------------------------------------------------------------------------------

  /** Each part with its newline. */
  function Ended(parts: seq<string>): (lines: seq<string>)
    ensures |lines| == |parts|
  {
    if parts == [] then [] else Ended(parts[..|parts| - 1]) + [parts[|parts| - 1] + "\n"]
  }

  function SourceLines(s: string): seq<string> {
    if s == "" then []
    else
      var parts := Split(s, '\n');
      Ended(parts[..|parts| - 1]) + [parts[|parts| - 1]]
  }

  lemma {:induction false} SplitJoins(s: string)
    ensures var parts := Split(s, '\n'); Concat(Ended(parts[..|parts| - 1])) + parts[|parts| - 1] == s
  {
    if s != "" {
      var front, last := s[..|s| - 1], s[|s| - 1];
      SplitJoins(front);
      assert s == front + [last];
      JoinsStep(Split(front, '\n'), Split(s, '\n'), front, last);
    }
  }

  lemma JoinsStep(parts: seq<string>, more: seq<string>, front: string, last: char)
    requires parts != [] && Concat(Ended(parts[..|parts| - 1])) + parts[|parts| - 1] == front
    requires more == if last == '\n' then parts + [""] else parts[..|parts| - 1] + [parts[|parts| - 1] + [last]]
    ensures Concat(Ended(more[..|more| - 1])) + more[|more| - 1] == front + [last]
  {
    var before, line := parts[..|parts| - 1], parts[|parts| - 1];
    if last == '\n' {
      assert more[..|more| - 1] == before + [line];
      EndedSnoc(before, line);
      ConcatSnoc(Ended(before), line + "\n");
      ConcatAssoc(Concat(Ended(before)), line, "\n");
      ConcatEmpty(Concat(Ended(before + [line])));
    } else {
      assert more[..|more| - 1] == before;
      ConcatAssoc(Concat(Ended(before)), line, [last]);
    }
  }

  lemma EndedSnoc(parts: seq<string>, last: string)
    ensures Ended(parts + [last]) == Ended(parts) + [last + "\n"]
  {
    assert (parts + [last])[..|parts|] == parts;
  }

  /** Reading the lines back gives the source, whatever newlines it starts or ends with. */
  lemma SourceReadsBack(s: string)
    ensures Concat(SourceLines(s)) == s
  {
    if s != "" {
      SplitJoins(s);
      var parts := Split(s, '\n');
      ConcatSnoc(Ended(parts[..|parts| - 1]), parts[|parts| - 1]);
    }
  }

  /** The body as source lines, each with its newline except the last. */
  method ToSourceLines(s: string) returns (out: seq<string>)
    ensures out == SourceLines(s)
  {
    if s == "" {
      return [];
    }
    var parts := Split(s, '\n');
    out := [];
    for k := 0 to |parts|
      invariant out == Ended(parts[..k])
    {
      TakeSnoc(parts, k);
      out := out + [parts[k] + "\n"];
    }
    var last := out[|out| - 1];
    assert parts[..|parts|] == parts;
    assert last[..|last| - 1] == parts[|parts| - 1];
    out := out[..|out| - 1] + [last[..|last| - 1]];
  }

  function Strings(items: seq<Json>): seq<string> {
    if items == [] then []
    else
      var last := items[|items| - 1];
      Strings(items[..|items| - 1]) + if last.JString? then [last.s] else []
  }

  /** A source is a string or an array of strings. */
  function ReadSource(v: Json): string {
    match v
    case JString(s) => s
    case JArray(items) => Concat(Strings(items))
    case _ => ""
  }

  function JLines(lines: seq<string>): Json {
    JArray(seq(|lines|, i requires 0 <= i < |lines| => JString(lines[i])))
  }

  lemma {:induction false} StringsOfLines(lines: seq<string>, items: seq<Json>)
    requires |items| == |lines| && forall i :: 0 <= i < |lines| ==> items[i] == JString(lines[i])
    ensures Strings(items) == lines
  {
    if lines != [] {
      StringsOfLines(lines[..|lines| - 1], items[..|items| - 1]);
      assert lines == lines[..|lines| - 1] + [lines[|lines| - 1]];
    }
  }

  // ---- The marker ------------------------------------------------------------------------------------

  /** The variable the marker names: the output variable, or else the input variable. */
  function MarkerVar(cell: NotebookCell): string {
    if cell.outputVar.Some? then cell.outputVar.value else if cell.inputVar.Some? then cell.inputVar.value else ""
  }

  /** ` name=value`. */
  function Field(name: string, value: string): string {
    " " + (name + (['='] + value))
  }

  function MarkerFields(cell: NotebookCell): string {
    var v := MarkerVar(cell);
    Field("kind", KindStr(cell.kind))
    + (if cell.databaseId.Some? then Field("db", Uuids.Show(cell.databaseId.value)) else "")
    + (if v != "" then Field("var", v) else "")
  }

  lemma FieldText(name: string, value: string)
    ensures " " + name + "=" + value == Field(name, value)
  {
  }

  method MarkerLine(cell: NotebookCell) returns (s: string)
    ensures s == MARKER + MarkerFields(cell)
  {
    FieldText("kind", KindStr(cell.kind));
    var fields := " " + "kind" + "=" + KindStr(cell.kind);
    if cell.databaseId.Some? {
      FieldText("db", Uuids.Show(cell.databaseId.value));
      fields := fields + (" " + "db" + "=" + Uuids.Show(cell.databaseId.value));
    } else {
      ConcatEmpty(fields);
    }
    var v := if cell.outputVar.Some? then cell.outputVar else cell.inputVar;
    if v.Some? && v.value != "" {
      FieldText("var", v.value);
      fields := fields + (" " + "var" + "=" + v.value);
    } else {
      ConcatEmpty(fields);
    }
    s := MARKER + fields;
  }

  datatype Marker = Marker(kind: Option<CellKind>, db: Option<Uuid>, variable: Option<string>)

  const NO_MARKER := Marker(None, None, None)

  function ReadToken(m: Marker, token: string): Marker {
    match SplitOnce(token, '=')
    case None => m
    case Some((k, v)) =>
      if k == "kind" then m.(kind := KindFromStr(v))
      else if k == "db" then m.(db := Uuids.Parse(v))
      else if k == "var" then m.(variable := Some(v))
      else m
  }

  function ReadTokens(tokens: seq<string>): Marker {
    if tokens == [] then NO_MARKER else ReadToken(ReadTokens(tokens[..|tokens| - 1]), tokens[|tokens| - 1])
  }

  /** Kind, database and variable of a marker line; None when it is not one. */
  function MarkerOf(line: string): Option<(CellKind, Option<Uuid>, Option<string>)> {
    var trimmed := Trim(line);
    if !(MARKER <= trimmed) then None
    else
      var m := ReadTokens(Words(trimmed[|MARKER|..]));
      if m.kind.None? then None else Some((m.kind.value, m.db, m.variable))
  }

  method ParseMarker(line: string) returns (r: Option<(CellKind, Option<Uuid>, Option<string>)>)
    ensures r == MarkerOf(line)
  {
    var trimmed := Trim(line);
    if !(MARKER <= trimmed) {
      return None;
    }
    var kind, db, variable := None, None, None;
    var tokens := Words(trimmed[|MARKER|..]);
    for i := 0 to |tokens|
      invariant Marker(kind, db, variable) == ReadTokens(tokens[..i])
    {
      assert tokens[..i + 1][..i] == tokens[..i];
      match SplitOnce(tokens[i], '=') {
        case None =>
        case Some((k, v)) =>
          if k == "kind" {
            kind := KindFromStr(v);
          } else if k == "db" {
            db := Uuids.Parse(v);
          } else if k == "var" {
            variable := Some(v);
          }
      }
    }
    assert tokens[..|tokens|] == tokens;
    r := if kind.None? then None else Some((kind.value, db, variable));
  }

  // ---- A marker reads back ---------------------------------------------------------------------------

  function Token(name: string, value: string): string {
    name + (['='] + value)
  }

  predicate EndsSolid(s: string) {
    s != "" && !IsSpace(s[|s| - 1])
  }

  /** One more field is one more token, and adds no newline. */
  lemma FieldReads(s: string, name: string, value: string)
    requires IsWord(name) && '=' !in name && IsWord(value)
    ensures Words(s + Field(name, value)) == Words(s) + [Token(name, value)]
    ensures SplitOnce(Token(name, value), '=') == Some((name, value))
    ensures ReadTokens(Words(s + Field(name, value))) == ReadToken(ReadTokens(Words(s)), Token(name, value))
    ensures EndsSolid(s + Field(name, value)) && ('\n' !in s ==> '\n' !in s + Field(name, value))
  {
    var token := Token(name, value);
    TokenIsWord(name, value);
    ConcatAssoc(s, " ", token);
    WordsGap(s);
    WordsSnoc(s + " ", token);
    SplitOnceAt(name, '=', value);
    WordHasNoNewline(s + " ", token);
  }

  lemma TokenIsWord(name: string, value: string)
    requires IsWord(name) && IsWord(value)
    ensures IsWord(Token(name, value)) && EndsSolid(Token(name, value))
  {
  }

  lemma WordHasNoNewline(s: string, w: string)
    requires IsWord(w)
    ensures EndsSolid(s + w) && ('\n' !in s ==> '\n' !in s + w)
  {
  }

  lemma FieldNames()
    ensures IsWord("kind") && IsWord("db") && IsWord("var")
    ensures '=' !in "kind" && '=' !in "db" && '=' !in "var"
    ensures "kind" != "db" && "kind" != "var" && "db" != "var"
  {
    assert "kind" == ['k', 'i', 'n', 'd'] && "db" == ['d', 'b'] && "var" == ['v', 'a', 'r'];
  }

  lemma UuidIsWord(u: Uuid)
    ensures IsWord(Uuids.Show(u)) && Uuids.Parse(Uuids.Show(u)) == Some(u)
  {
    Uuids.ShowChars(u);
    Uuids.ParseShow(u);
  }

  lemma FieldsReadBack(cell: NotebookCell)
    requires NoSpace(MarkerVar(cell))
    ensures var v := MarkerVar(cell);
            ReadTokens(Words(MarkerFields(cell))) ==
              Marker(Some(cell.kind), cell.databaseId, if v == "" then None else Some(v))
    ensures EndsSolid(MarkerFields(cell)) && '\n' !in MarkerFields(cell)
  {
    FieldNames();
    KindReadsBack(cell.kind);
    var kind, v := Field("kind", KindStr(cell.kind)), MarkerVar(cell);
    FieldReads("", "kind", KindStr(cell.kind));
    ConcatEmpty(kind);
    var before := kind;
    if cell.databaseId.Some? {
      UuidIsWord(cell.databaseId.value);
      FieldReads(kind, "db", Uuids.Show(cell.databaseId.value));
      before := kind + Field("db", Uuids.Show(cell.databaseId.value));
    }
    assert before == kind + if cell.databaseId.Some? then Field("db", Uuids.Show(cell.databaseId.value)) else "";
    ConcatEmpty(before);
    if v != "" {
      FieldReads(before, "var", v);
    }
  }

  /** A marker with a variable that is a word reads back as written, from a line of its own. */
  lemma MarkerReadsBack(cell: NotebookCell)
    requires NoSpace(MarkerVar(cell))
    ensures var v := MarkerVar(cell);
            MarkerOf(MARKER + MarkerFields(cell)) ==
              Some((cell.kind, cell.databaseId, if v == "" then None else Some(v)))
    ensures '\n' !in MARKER + MarkerFields(cell)
  {
    FieldsReadBack(cell);
    StripMarker(MarkerFields(cell));
  }

  lemma StripMarker(fields: string)
    requires EndsSolid(fields)
    ensures Trim(MARKER + fields) == MARKER + fields && MARKER <= MARKER + fields
    ensures (MARKER + fields)[|MARKER|..] == fields
    ensures '\n' !in fields ==> '\n' !in MARKER + fields
  {
    var line := MARKER + fields;
    assert line[0] == '#' && line[|line| - 1] == fields[|fields| - 1];
  }

  /** Whatever a marker line says, its variable has no white space. */
  lemma {:induction false} VariableHasNoSpace(tokens: seq<string>)
    requires forall i :: 0 <= i < |tokens| ==> IsWord(tokens[i])
    ensures var m := ReadTokens(tokens); m.variable.Some? ==> NoSpace(m.variable.value)
  {
    if tokens != [] {
      var last := tokens[|tokens| - 1];
      VariableHasNoSpace(tokens[..|tokens| - 1]);
      var split := SplitOnce(last, '=');
      if split.Some? {
        var (k, v) := split.value;
        forall i | 0 <= i < |v| ensures !IsSpace(v[i]) {
          assert v[i] == last[|k| + 1 + i];
        }
      }
    }
  }

  lemma MarkerVariable(line: string)
    ensures var m := MarkerOf(line); m.Some? && m.value.2.Some? ==> NoSpace(m.value.2.value)
  {
    var trimmed := Trim(line);
    if MARKER <= trimmed {
      VariableHasNoSpace(Words(trimmed[|MARKER|..]));
    }
  }

  // ---- Export --------------------------------------------------------------------------------------------

  function CodeLines(cell: NotebookCell): seq<string> {
    if cell.kind == Python then SourceLines(cell.source)
    else [MARKER + MarkerFields(cell) + "\n"] + SourceLines(cell.source)
  }

  function CellJson(cell: NotebookCell): Json {
    if cell.kind == Markdown then
      JObject(map["cell_type" := JString("markdown"), "metadata" := JObject(map[]),
                  "source" := JLines(SourceLines(cell.source))])
    else
      JObject(map["cell_type" := JString("code"), "metadata" := JObject(map[]), "execution_count" := JNull,
                  "outputs" := JArray([]), "source" := JLines(CodeLines(cell))])
  }

  method CellToIpynb(cell: NotebookCell) returns (v: Json)
    ensures v == CellJson(cell)
  {
    var lines := ToSourceLines(cell.source);
    if cell.kind == Markdown {
      return JObject(map["cell_type" := JString("markdown"), "metadata" := JObject(map[]), "source" := JLines(lines)]);
    }
    var source: seq<string> := [];
    if cell.kind != Python {
      var marker := MarkerLine(cell);
      source := source + [marker + "\n"];
      ConcatEmpty([marker + "\n"]);
    }
    ConcatEmpty(lines);
    source := source + lines;
    v := JObject(map["cell_type" := JString("code"), "metadata" := JObject(map[]), "execution_count" := JNull,
                     "outputs" := JArray([]), "source" := JLines(source)]);
  }

  function ExportIpynb(notebook: Notebook): Json {
    JObject(map[
      "cells" := JArray(seq(|notebook.cells|, i requires 0 <= i < |notebook.cells| => CellJson(notebook.cells[i]))),
      "metadata" := JObject(map[
        "kernelspec" := JObject(map["display_name" := JString("Python 3"), "language" := JString("python"),
                                    "name" := JString("python3")]),
        "language_info" := JObject(map["name" := JString("python")]),
        "gauss" := JObject(map["name" := JString(notebook.name)])]),
      "nbformat" := JNumber(4),
      "nbformat_minor" := JNumber(5)])
  }

  // ---- Import --------------------------------------------------------------------------------------------

  function Get(v: Json, key: string): Json {
    if v.JObject? && key in v.fields then v.fields[key] else JNull
  }

  /** The output and the input variable of an imported cell. */
  function VarsFor(kind: CellKind, v: Option<string>): (Option<string>, Option<string>) {
    match kind
    case Sql | Nl2sql => (v, None)
    case Input | Chart | BigNumber => (None, v)
    case Markdown | Python => (None, None)
  }

  function FirstLine(source: string): string {
    var split := SplitOnce(source, '\n');
    if split.Some? then split.value.0 else source
  }

  function ImportCodeCell(source: string, id: Uuid): NotebookCell {
    var (first, body) := if SplitOnce(source, '\n').Some? then SplitOnce(source, '\n').value else (source, "");
    match MarkerOf(first)
    case Some((kind, db, v)) =>
      var (outputVar, inputVar) := VarsFor(kind, v);
      NotebookCell(id, kind, body, db, outputVar, inputVar)
    case None => NotebookCell(id, Python, source, None, None, None)
  }

  /** The cell a JSON value holds, unless its type is unknown. */
  function ImportCell(c: Json, id: Uuid): Option<NotebookCell> {
    var source := ReadSource(Get(c, "source"));
    if Get(c, "cell_type") == JString("markdown") then Some(NotebookCell(id, Markdown, source, None, None, None))
    else if Get(c, "cell_type") == JString("code") then Some(ImportCodeCell(source, id))
    else None
  }

  /** The results of the items that have one; `f` also takes an item's position. */
  function FilterMap<A, B>(items: seq<A>, f: (A, nat) -> Option<B>): seq<B> {
    if items == [] then []
    else
      var k := |items| - 1;
      FilterMap(items[..k], f) + match f(items[k], k) case None => [] case Some(b) => [b]
  }

  function Importer(freshId: nat -> Uuid): (Json, nat) -> Option<NotebookCell> {
    (c, k: nat) => ImportCell(c, freshId(k))
  }

  function Imported(items: seq<Json>, freshId: nat -> Uuid): seq<NotebookCell> {
    FilterMap(items, Importer(freshId))
  }

  function ImportDocument(doc: Json, freshId: nat -> Uuid): Result<seq<NotebookCell>, ImportError> {
    var cells := Get(doc, "cells");
    if cells.JArray? then Ok(Imported(cells.items, freshId)) else Err(MissingCells)
  }

  method ImportCells(doc: Json, freshId: nat -> Uuid) returns (r: Result<seq<NotebookCell>, ImportError>)
    ensures r == ImportDocument(doc, freshId)
  {
    var cells := Get(doc, "cells");
    if !cells.JArray? {
      return Err(MissingCells);
    }
    var out: seq<NotebookCell> := [];
    for k := 0 to |cells.items|
      invariant out == Imported(cells.items[..k], freshId)
    {
      assert cells.items[..k + 1][..k] == cells.items[..k];
      var cell := ImportCell(cells.items[k], freshId(k));
      if cell.Some? {
        out := out + [cell.value];
      }
    }
    assert cells.items[..|cells.items|] == cells.items;
    return Ok(out);
  }

  // ---- The round trip ------------------------------------------------------------------------------------

  predicate WordIfAny(v: Option<string>) {
    v.Some? ==> IsWord(v.value)
  }

  /** The fields a cell of its kind has, a variable that is a word, and no Python code that begins like a marker. */
  predicate Portable(cell: NotebookCell) {
    match cell.kind
    case Markdown => cell.databaseId.None? && cell.outputVar.None? && cell.inputVar.None?
    case Python =>
      cell.databaseId.None? && cell.outputVar.None? && cell.inputVar.None? && MarkerOf(FirstLine(cell.source)).None?
    case Sql | Nl2sql => cell.inputVar.None? && WordIfAny(cell.outputVar)
    case Input | Chart | BigNumber => cell.outputVar.None? && WordIfAny(cell.inputVar)
  }

  lemma LinesRead(lines: seq<string>)
    ensures ReadSource(JLines(lines)) == Concat(lines)
  {
    StringsOfLines(lines, JLines(lines).items);
  }

  /** The code an exported cell holds: a marker line first, unless it is Python. */
  lemma CodeText(cell: NotebookCell)
    ensures Concat(CodeLines(cell)) ==
      if cell.kind == Python then cell.source else MARKER + MarkerFields(cell) + (['\n'] + cell.source)
  {
    SourceReadsBack(cell.source);
    if cell.kind != Python {
      var marker := MARKER + MarkerFields(cell);
      ConcatCons(marker + "\n", SourceLines(cell.source));
      ConcatAssoc(marker, "\n", cell.source);
    }
  }

  lemma CellFields(cell: NotebookCell)
    ensures Get(CellJson(cell), "cell_type") == JString(if cell.kind == Markdown then "markdown" else "code")
    ensures Get(CellJson(cell), "source") ==
      JLines(if cell.kind == Markdown then SourceLines(cell.source) else CodeLines(cell))
    ensures JString("markdown") != JString("code")
  {
    assert |"cell_type"| == 9 && |"source"| == 6 && |"markdown"| == 8 && |"code"| == 4;
    assert |"metadata"| == 8 && |"execution_count"| == 15 && |"outputs"| == 7;
  }

  /** What import makes of an exported cell. */
  lemma ExportedCell(cell: NotebookCell, id: Uuid)
    ensures ImportCell(CellJson(cell), id) == Some(
      if cell.kind == Markdown then NotebookCell(id, Markdown, cell.source, None, None, None)
      else if cell.kind == Python then ImportCodeCell(cell.source, id)
      else ImportCodeCell(MARKER + MarkerFields(cell) + (['\n'] + cell.source), id))
  {
    CellFields(cell);
    LinesRead(SourceLines(cell.source));
    LinesRead(CodeLines(cell));
    SourceReadsBack(cell.source);
    CodeText(cell);
  }

  /** Python code with a marker comes back without its first line. */
  lemma PythonSurvivesIff(cell: NotebookCell, id: Uuid)
    requires cell.kind == Python
    ensures ImportCodeCell(cell.source, id) == cell.(id := id) <==> Portable(cell)
  {
  }

  lemma MarkedSurvivesIff(cell: NotebookCell, id: Uuid)
    requires cell.kind != Python && cell.kind != Markdown
    ensures ImportCodeCell(MARKER + MarkerFields(cell) + (['\n'] + cell.source), id) == cell.(id := id)
      <==> Portable(cell)
  {
    var marker := MARKER + MarkerFields(cell);
    var text := marker + (['\n'] + cell.source);
    if NoSpace(MarkerVar(cell)) {
      MarkerReadsBack(cell);
      SplitOnceAt(marker, '\n', cell.source);
    } else {
      MarkerVariable(FirstLine(text));
    }
  }

  /** A cell comes back from Jupyter's format, but for its id, exactly when it is portable. */
  lemma CellSurvivesIff(cell: NotebookCell, id: Uuid)
    ensures ImportCell(CellJson(cell), id) == Some(cell.(id := id)) <==> Portable(cell)
  {
    ExportedCell(cell, id);
    if cell.kind == Python {
      PythonSurvivesIff(cell, id);
    } else if cell.kind != Markdown {
      MarkedSurvivesIff(cell, id);
    }
  }

  lemma {:induction false} FilterMapAll<A, B>(items: seq<A>, f: (A, nat) -> Option<B>)
    requires forall i :: 0 <= i < |items| ==> f(items[i], i).Some?
    ensures |FilterMap(items, f)| == |items|
    ensures forall i :: 0 <= i < |items| ==> Some(FilterMap(items, f)[i]) == f(items[i], i)
  {
    if items != [] {
      var front := items[..|items| - 1];
      assert forall i :: 0 <= i < |front| ==> front[i] == items[i];
      FilterMapAll(front, f);
    }
  }

  /** Export and import keep every cell of a notebook, in order, exactly when all of them are portable. */
  lemma NotebookSurvivesIff(notebook: Notebook, freshId: nat -> Uuid)
    ensures var back := ImportDocument(ExportIpynb(notebook), freshId);
            && back.Ok? && |back.value| == |notebook.cells|
            && ((forall i :: 0 <= i < |notebook.cells| ==> back.value[i] == notebook.cells[i].(id := freshId(i)))
                <==> (forall i :: 0 <= i < |notebook.cells| ==> Portable(notebook.cells[i])))
  {
    var doc, cells := ExportIpynb(notebook), notebook.cells;
    assert |"cells"| == 5 && |"metadata"| == 8 && |"nbformat"| == 8 && |"nbformat_minor"| == 14;
    var items, f := Get(doc, "cells").items, Importer(freshId);
    forall i | 0 <= i < |cells|
      ensures items[i] == CellJson(cells[i]) && f(items[i], i).Some?
      ensures f(items[i], i) == Some(cells[i].(id := freshId(i))) <==> Portable(cells[i])
    {
      ExportedCell(cells[i], freshId(i));
      CellSurvivesIff(cells[i], freshId(i));
    }
    FilterMapAll(items, f);
  }
}
