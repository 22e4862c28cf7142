/**
 What a Jupyter file says, told by its text: the document an export writes, the
 marker line of each cell, and the cells that importing any document gives.
 */
module NotebookFile {
  import opened Common
  import opened Splitting
  import opened Whitespace
  import opened NotebookFormat
  import Hexadecimal
  import Uuids

  // ---- What export writes -----------------------------------------------------------------------

  function WordFor(kind: CellKind): string {
    match kind
    case Markdown => "markdown"
    case Python => "python"
    case Sql => "sql"
    case Nl2sql => "nl2sql"
    case Input => "input"
    case Chart => "chart"
    case BigNumber => "bignumber"
  }

  /** `s` is the identifier in lower-case hexadecimal, in groups of 8, 4, 4, 4 and 12 digits. */
  predicate IsHyphenated(s: string, u: Uuid) {
    && |s| == 36 && s[8] == s[13] == s[18] == s[23] == '-'
    && forall i :: 0 <= i < 32 ==>
         s[if i < 8 then i else if i < 12 then i + 1 else if i < 16 then i + 2 else if i < 20 then i + 3 else i + 4]
         == "0123456789abcdef"[u.nibbles[i]]
  }

  /** The marker line of a cell: its kind, its database, and its output variable or else its input variable. */
  ghost predicate IsMarkerLine(line: string, cell: NotebookCell) {
    exists db: string ::
      && (if cell.databaseId.Some? then
            |db| >= 4 && db[..4] == " db=" && IsHyphenated(db[4..], cell.databaseId.value)
          else db == "")
      && line == "#%gauss kind=" + WordFor(cell.kind) + db + VarPart(cell)
  }

  function VarPart(cell: NotebookCell): string {
    match (cell.outputVar, cell.inputVar)
    case (Some(v), _) => if v == "" then "" else " var=" + v
    case (None, Some(v)) => if v == "" then "" else " var=" + v
    case (None, None) => ""
  }

  /** The lines of a text: each but the last ends with its only newline, and the last has none. */
  ghost predicate AreLines(lines: seq<string>, text: string) {
    && Concat(lines) == text && (lines == [] <==> text == "")
    && (forall i :: 0 <= i < |lines| - 1 ==> lines[i] != "" && lines[i][|lines[i]| - 1] == '\n')
    && forall i, c :: 0 <= i < |lines| && 0 <= c < |lines[i]| && lines[i][c] == '\n' ==>
         i < |lines| - 1 && c == |lines[i]| - 1
  }

  predicate AreStrings(v: Json, lines: seq<string>) {
    v.JArray? && |v.items| == |lines| && forall i :: 0 <= i < |lines| ==> v.items[i] == JString(lines[i])
  }

  /** The code of a cell: for kinds other than Python, below a marker line. */
  ghost predicate IsCode(v: Json, cell: NotebookCell) {
    if cell.kind == Python then exists lines :: AreLines(lines, cell.source) && AreStrings(v, lines)
    else exists marker, lines ::
      IsMarkerLine(marker, cell) && AreLines(lines, cell.source) && AreStrings(v, [marker + "\n"] + lines)
  }

  ghost predicate WritesCell(v: Json, cell: NotebookCell) {
    if cell.kind == Markdown then
      exists source, lines ::
        && v == JObject(map["cell_type" := JString("markdown"), "metadata" := JObject(map[]), "source" := source])
        && AreLines(lines, cell.source) && AreStrings(source, lines)
    else
      exists source ::
        && v == JObject(map["cell_type" := JString("code"), "metadata" := JObject(map[]),
                            "execution_count" := JNull, "outputs" := JArray([]), "source" := source])
        && IsCode(source, cell)
  }

  /** Version 4.5 of the format, for Python, with the notebook's name and one item for each cell, in order. */
  ghost predicate WritesNotebook(doc: Json, notebook: Notebook) {
    exists items ::
      && doc == JObject(map[
           "cells" := JArray(items),
           "metadata" := JObject(map[
             "kernelspec" := JObject(map["display_name" := JString("Python 3"), "language" := JString("python"),
                                         "name" := JString("python3")]),
             "language_info" := JObject(map["name" := JString("python")]),
             "gauss" := JObject(map["name" := JString(notebook.name)])]),
           "nbformat" := JNumber(4),
           "nbformat_minor" := JNumber(5)])
      && |items| == |notebook.cells| && forall i :: 0 <= i < |items| ==> WritesCell(items[i], notebook.cells[i])
  }

  lemma ShowIsHyphenated(u: Uuid)
    ensures IsHyphenated(Uuids.Show(u), u)
  {
    var s, d := Uuids.Show(u), Uuids.Digits(u);
    assert s[..8] == d[..8] && s[9..13] == d[8..12] && s[14..18] == d[12..16]
      && s[19..23] == d[16..20] && s[24..] == d[20..];
    forall i | 0 <= i < 32 ensures d[i] == "0123456789abcdef"[u.nibbles[i]] {
      DigitIs(u.nibbles[i]);
    }
  }

  lemma DigitIs(n: nat)
    requires n < 16
    ensures Hexadecimal.HexDigit(n) == "0123456789abcdef"[n]
  {
  }

  lemma FieldIs(value: string)
    ensures Field("kind", value) == " kind=" + value
    ensures Field("db", value) == " db=" + value
    ensures Field("var", value) == " var=" + value
  {
    assert " " + ("kind" + (['='] + value)) == " kind=" + value;
    assert " " + ("db" + (['='] + value)) == " db=" + value;
    assert " " + ("var" + (['='] + value)) == " var=" + value;
  }

  lemma KindIs(kind: CellKind)
    ensures KindStr(kind) == WordFor(kind)
    ensures forall s :: KindFromStr(s) == Some(kind) <==> s == WordFor(kind)
  {
  }

  lemma DbPart(text: string)
    ensures |" db=" + text| >= 4 && (" db=" + text)[..4] == " db=" && (" db=" + text)[4..] == text
  {
  }

  function DbField(cell: NotebookCell): string {
    if cell.databaseId.Some? then " db=" + Uuids.Show(cell.databaseId.value) else ""
  }

  lemma FieldsAre(cell: NotebookCell)
    ensures MarkerFields(cell) == " kind=" + WordFor(cell.kind) + DbField(cell) + VarPart(cell)
  {
    hide Field, KindStr, WordFor, Uuids.Show;
    KindIs(cell.kind);
    FieldIs(KindStr(cell.kind));
    FieldIs(MarkerVar(cell));
    if cell.databaseId.Some? {
      FieldIs(Uuids.Show(cell.databaseId.value));
    }
  }

  lemma MarkerJoins(kind: string, db: string, rest: string)
    ensures MARKER + (" kind=" + kind + db + rest) == "#%gauss kind=" + kind + db + rest
  {
    assert MARKER + " kind=" == "#%gauss kind=";
    ConcatAssoc(MARKER, " kind=" + kind + db, rest);
    ConcatAssoc(MARKER, " kind=" + kind, db);
    ConcatAssoc(MARKER, " kind=", kind);
  }

  lemma MarkerSays(cell: NotebookCell)
    ensures IsMarkerLine(MARKER + MarkerFields(cell), cell)
  {
    hide MarkerFields, IsHyphenated, WordFor, VarPart, Uuids.Show;
    FieldsAre(cell);
    MarkerJoins(WordFor(cell.kind), DbField(cell), VarPart(cell));
    if cell.databaseId.Some? {
      DbPart(Uuids.Show(cell.databaseId.value));
      ShowIsHyphenated(cell.databaseId.value);
    }
  }

  lemma {:induction false} SplitHasNone(s: string, sep: char)
    ensures forall i :: 0 <= i < |Split(s, sep)| ==> sep !in Split(s, sep)[i]
  {
    if s != "" {
      SplitHasNone(s[..|s| - 1], sep);
    }
  }

  lemma {:induction false} EndedAt(parts: seq<string>, i: nat)
    requires i < |parts|
    ensures Ended(parts)[i] == parts[i] + "\n"
  {
    if i < |parts| - 1 {
      EndedAt(parts[..|parts| - 1], i);
    }
  }

  /** The lines of a text are its lines. */
  lemma LinesSay(text: string)
    ensures AreLines(SourceLines(text), text)
  {
    hide Ended;
    SourceReadsBack(text);
    if text != "" {
      var parts, lines := Split(text, '\n'), SourceLines(text);
      var n := |parts|;
      SplitHasNone(text, '\n');
      forall i | 0 <= i < n - 1 ensures lines[i] == parts[i] + "\n" {
        EndedAt(parts[..n - 1], i);
      }
      assert lines[n - 1] == parts[n - 1];
      assert forall i, c :: 0 <= i < n && 0 <= c < |parts[i]| ==> parts[i][c] != '\n';
    }
  }

  lemma CodeSays(cell: NotebookCell)
    ensures IsCode(JLines(CodeLines(cell)), cell)
  {
    hide IsMarkerLine, AreLines;
    var lines := SourceLines(cell.source);
    LinesSay(cell.source);
    MarkerSays(cell);
    if cell.kind == Python {
      assert AreStrings(JLines(lines), lines);
    } else {
      var marker := MARKER + MarkerFields(cell);
      assert AreStrings(JLines([marker + "\n"] + lines), [marker + "\n"] + lines);
    }
  }

  lemma CellSays(cell: NotebookCell)
    ensures WritesCell(CellJson(cell), cell)
  {
    hide IsCode, AreLines;
    LinesSay(cell.source);
    CodeSays(cell);
    if cell.kind == Markdown {
      assert AreStrings(JLines(SourceLines(cell.source)), SourceLines(cell.source));
    }
  }

  /** The exported document says what the notebook holds. */
  lemma ExportSays(notebook: Notebook)
    ensures WritesNotebook(ExportIpynb(notebook), notebook)
  {
    hide WritesCell, CellJson;
    var cells := notebook.cells;
    var items := seq(|cells|, i requires 0 <= i < |cells| => CellJson(cells[i]));
    forall i | 0 <= i < |items| ensures WritesCell(items[i], cells[i]) {
      CellSays(cells[i]);
    }
  }

  // ---- What import reads --------------------------------------------------------------------------

  /** The last of the words that gives a value to the name, and that value; None when no word does. */
  ghost predicate Gives(words: seq<string>, name: string, value: Option<string>) {
    match value
    case Some(v) =>
      exists i :: && 0 <= i < |words| && words[i] == name + "=" + v
                  && forall j :: i < j < |words| ==> !(name + "=" <= words[j])
    case None => forall j :: 0 <= j < |words| ==> !(name + "=" <= words[j])
  }

  /** A marker line: its kind, and its database and variable if it names them. */
  ghost predicate IsMarker(line: string, kind: CellKind, db: Option<Uuid>, variable: Option<string>) {
    && "#%gauss" <= Trim(line)
    && Gives(Words(Trim(line)[7..]), "kind", Some(WordFor(kind)))
    && Gives(Words(Trim(line)[7..]), "var", variable)
    && exists text :: Gives(Words(Trim(line)[7..]), "db", text)
         && db == match text case None => None case Some(t) => Uuids.Parse(t)
  }

  lemma GivesOnce(words: seq<string>, name: string, a: Option<string>, b: Option<string>)
    requires Gives(words, name, a) && Gives(words, name, b)
    ensures a == b
  {
    if a.Some? {
      var i :| 0 <= i < |words| && words[i] == name + "=" + a.value
        && forall j :: i < j < |words| ==> !(name + "=" <= words[j]);
      assert name + "=" <= words[i];
      if b.Some? {
        var k :| 0 <= k < |words| && words[k] == name + "=" + b.value
          && forall j :: k < j < |words| ==> !(name + "=" <= words[j]);
        assert name + "=" <= words[k];
        assert words[i][|name| + 1..] == a.value && words[k][|name| + 1..] == b.value;
      }
    }
  }

  lemma SplitGives(word: string, name: string)
    requires '=' !in name
    ensures name + "=" <= word <==> SplitOnce(word, '=').Some? && SplitOnce(word, '=').value.0 == name
    ensures name + "=" <= word ==> word == name + "=" + SplitOnce(word, '=').value.1
  {
    if name + "=" <= word {
      var v := word[|name| + 1..];
      assert word == name + (['='] + v);
      SplitOnceAt(name, '=', v);
    }
  }

  /** The value a name has after one more word. */
  function Given(before: Option<string>, word: string, name: string): Option<string> {
    match SplitOnce(word, '=')
    case Some((k, v)) => if k == name then Some(v) else before
    case None => before
  }

  lemma GivesMore(words: seq<string>, word: string, name: string, value: Option<string>)
    requires '=' !in name && Gives(words, name, value)
    ensures Gives(words + [word], name, Given(value, word, name))
  {
    var more := words + [word];
    SplitGives(word, name);
    if name + "=" <= word {
      assert more[|words|] == word;
    } else if value.Some? {
      var i :| 0 <= i < |words| && words[i] == name + "=" + value.value
        && forall j :: i < j < |words| ==> !(name + "=" <= words[j]);
      assert more[i] == words[i];
    }
  }

  /** Reading the words one by one leaves what the last of each name says. */
  lemma {:induction false} TokensSay(words: seq<string>)
    returns (kind: Option<string>, db: Option<string>, variable: Option<string>)
    ensures Gives(words, "kind", kind) && Gives(words, "db", db) && Gives(words, "var", variable)
    ensures ReadTokens(words).kind == match kind case None => None case Some(t) => KindFromStr(t)
    ensures ReadTokens(words).db == match db case None => None case Some(t) => Uuids.Parse(t)
    ensures ReadTokens(words).variable == variable
  {
    hide Gives, KindFromStr, Uuids.Parse, SplitOnce;
    if words == [] {
      kind, db, variable := None, None, None;
      NothingGiven("kind");
      NothingGiven("db");
      NothingGiven("var");
    } else {
      var front, word := words[..|words| - 1], words[|words| - 1];
      kind, db, variable := TokensSay(front);
      FieldNames();
      GivesMore(front, word, "kind", kind);
      GivesMore(front, word, "db", db);
      GivesMore(front, word, "var", variable);
      kind, db, variable := Given(kind, word, "kind"), Given(db, word, "db"), Given(variable, word, "var");
      assert words == front + [word];
    }
  }

  lemma NothingGiven(name: string)
    ensures Gives([], name, None)
  {
  }

  /** Exactly the marker lines are read as markers, and as what they say. */
  lemma MarkerOfSays(line: string)
    ensures forall kind, db, v :: MarkerOf(line) == Some((kind, db, v)) <==> IsMarker(line, kind, db, v)
  {
    hide Gives, KindFromStr, WordFor, ReadTokens, Uuids.Parse;
    assert MARKER == "#%gauss" && |MARKER| == 7;
    if "#%gauss" <= Trim(line) {
      var words := Words(Trim(line)[7..]);
      var kindText, dbText, v := TokensSay(words);
      forall kind, db, variable
        ensures MarkerOf(line) == Some((kind, db, variable)) <==> IsMarker(line, kind, db, variable)
      {
        KindIs(kind);
        if IsMarker(line, kind, db, variable) {
          GivesOnce(words, "kind", kindText, Some(WordFor(kind)));
          GivesOnce(words, "var", v, variable);
          var text :| Gives(words, "db", text) && db == match text case None => None case Some(t) => Uuids.Parse(t);
          GivesOnce(words, "db", dbText, text);
        }
      }
    }
  }

  /** The texts among the items, one after the other. */
  function Joined(items: seq<Json>): string {
    if items == [] then "" else (if items[0].JString? then items[0].s else "") + Joined(items[1..])
  }

  predicate Has(c: Json, key: string, v: Json) {
    c.JObject? && key in c.fields && c.fields[key] == v
  }

  /** The source of a cell: a text, or an array of texts; anything else counts as none. */
  ghost predicate HasSource(c: Json, text: string) {
    if c.JObject? && "source" in c.fields then
      match c.fields["source"]
      case JString(s) => text == s
      case JArray(items) => text == Joined(items)
      case _ => text == ""
    else text == ""
  }

  /** The first line of a text, and what follows it. */
  predicate BeginsWith(text: string, first: string, rest: string) {
    '\n' !in first && (text == first + "\n" + rest || (text == first && rest == ""))
  }

  /** The cell a marker line and the lines below it stand for. */
  function Marked(id: Uuid, kind: CellKind, body: string, db: Option<Uuid>, variable: Option<string>): NotebookCell {
    match kind
    case Sql => NotebookCell(id, kind, body, db, variable, None)
    case Nl2sql => NotebookCell(id, kind, body, db, variable, None)
    case Input => NotebookCell(id, kind, body, db, None, variable)
    case Chart => NotebookCell(id, kind, body, db, None, variable)
    case BigNumber => NotebookCell(id, kind, body, db, None, variable)
    case Markdown => NotebookCell(id, kind, body, db, None, None)
    case Python => NotebookCell(id, kind, body, db, None, None)
  }

  /** Code below a marker line is the cell the marker names; other code is a Python cell. */
  ghost predicate ReadsCode(text: string, cell: NotebookCell) {
    exists first, rest :: BeginsWith(text, first, rest) &&
      if exists kind, db, v :: IsMarker(first, kind, db, v) then
        exists kind, db, v :: IsMarker(first, kind, db, v) && cell == Marked(cell.id, kind, rest, db, v)
      else cell == NotebookCell(cell.id, Python, text, None, None, None)
  }

  /** What an item of a document is read as: a Markdown cell, a cell of code, or nothing. */
  ghost predicate ReadsCell(c: Json, id: Uuid, r: Option<NotebookCell>) {
    if Has(c, "cell_type", JString("markdown")) then
      exists text :: HasSource(c, text) && r == Some(NotebookCell(id, Markdown, text, None, None, None))
    else if Has(c, "cell_type", JString("code")) then
      exists text :: HasSource(c, text) && r.Some? && r.value.id == id && ReadsCode(text, r.value)
    else r == None
  }

  lemma {:induction false} JoinedIs(items: seq<Json>)
    ensures Joined(items) == Concat(Strings(items))
  {
    if items != [] {
      JoinedIs(items[1..]);
      StringsCons(items[0], items[1..]);
      assert items == [items[0]] + items[1..];
      if items[0].JString? {
        ConcatCons(items[0].s, Strings(items[1..]));
      } else {
        ConcatEmpty(Strings(items[1..]));
      }
    }
  }

  lemma {:induction false} StringsCons(item: Json, items: seq<Json>)
    ensures Strings([item] + items) == (if item.JString? then [item.s] else []) + Strings(items)
  {
    if items == [] {
      assert [item] + items == [item];
    } else {
      var front, last := items[..|items| - 1], items[|items| - 1];
      StringsCons(item, front);
      assert ([item] + items)[..|items|] == [item] + front;
      ConcatAssoc(if item.JString? then [item.s] else [], Strings(front), if last.JString? then [last.s] else []);
    }
  }

  lemma SourceSays(c: Json)
    ensures HasSource(c, ReadSource(Get(c, "source")))
  {
    if c.JObject? && "source" in c.fields && c.fields["source"].JArray? {
      JoinedIs(c.fields["source"].items);
    }
  }

  lemma CodeReads(source: string, id: Uuid)
    ensures ReadsCode(source, ImportCodeCell(source, id)) && ImportCodeCell(source, id).id == id
  {
    hide IsMarker, MarkerOf;
    var (first, body) := if SplitOnce(source, '\n').Some? then SplitOnce(source, '\n').value else (source, "");
    assert BeginsWith(source, first, body);
    MarkerOfSays(first);
    if MarkerOf(first).Some? {
      var (kind, db, v) := MarkerOf(first).value;
      assert IsMarker(first, kind, db, v);
    }
  }

  /** Each item is read as what its text says. */
  lemma ItemSays(c: Json, id: Uuid)
    ensures ReadsCell(c, id, ImportCell(c, id))
  {
    hide ReadsCode, ImportCodeCell, HasSource, ReadSource;
    SourceSays(c);
    CodeReads(ReadSource(Get(c, "source")), id);
    assert JString("markdown") != JString("code") by { assert |"markdown"| != |"code"|; }
  }

  /** The cells read from the items that hold one, in order; `at` are the positions of those items. */
  ghost predicate AreCells(cells: seq<NotebookCell>, items: seq<Json>, freshId: nat -> Uuid, at: seq<nat>) {
    && |at| == |cells|
    && (forall j :: 0 <= j < |at| ==> at[j] < |items| && ReadsCell(items[at[j]], freshId(at[j]), Some(cells[j])))
    && (forall i, j :: 0 <= i < j < |at| ==> at[i] < at[j])
    && forall k: nat :: k < |items| && k !in at ==> ReadsCell(items[k], freshId(k), None)
  }

  lemma OneMoreCell(cells: seq<NotebookCell>, front: seq<Json>, freshId: nat -> Uuid, at: seq<nat>, item: Json,
                    cell: NotebookCell)
    requires AreCells(cells, front, freshId, at) && ReadsCell(item, freshId(|front|), Some(cell))
    ensures AreCells(cells + [cell], front + [item], freshId, at + [|front|])
  {
    hide ReadsCell;
    var k, items, more := |front|, front + [item], at + [|front|];
    forall j | 0 <= j < |more|
      ensures more[j] < |items| && ReadsCell(items[more[j]], freshId(more[j]), Some((cells + [cell])[j]))
    {
      if j < |at| {
        assert items[more[j]] == front[at[j]];
      }
    }
    forall i: nat | i < |items| && i !in more ensures ReadsCell(items[i], freshId(i), None) {
      assert more[|at|] == k;
      assert i !in at && items[i] == front[i];
    }
  }

  lemma OneItemSkipped(cells: seq<NotebookCell>, front: seq<Json>, freshId: nat -> Uuid, at: seq<nat>, item: Json)
    requires AreCells(cells, front, freshId, at) && ReadsCell(item, freshId(|front|), None)
    ensures AreCells(cells, front + [item], freshId, at)
  {
    hide ReadsCell;
    var items := front + [item];
    assert forall i :: 0 <= i < |front| ==> items[i] == front[i];
  }

  lemma {:induction false} ImportedSays(items: seq<Json>, freshId: nat -> Uuid) returns (at: seq<nat>)
    ensures AreCells(Imported(items, freshId), items, freshId, at)
  {
    hide ReadsCell, ImportCell, AreCells;
    if items == [] {
      at := [];
      NothingImported(freshId);
    } else {
      var k := |items| - 1;
      var front, cell := items[..k], ImportCell(items[k], freshId(k));
      at := ImportedSays(front, freshId);
      ItemSays(items[k], freshId(k));
      assert items == front + [items[k]];
      if cell.Some? {
        OneMoreCell(Imported(front, freshId), front, freshId, at, items[k], cell.value);
        at := at + [k];
      } else {
        OneItemSkipped(Imported(front, freshId), front, freshId, at, items[k]);
        ConcatEmpty(Imported(front, freshId));
      }
    }
  }

  lemma NothingImported(freshId: nat -> Uuid)
    ensures AreCells(Imported([], freshId), [], freshId, [])
  {
  }

  /** Importing gives the cells a document holds, or fails without an array of them. */
  lemma ImportSays(doc: Json, freshId: nat -> Uuid)
    ensures ImportDocument(doc, freshId).Err? <==> !exists items :: Has(doc, "cells", JArray(items))
    ensures ImportDocument(doc, freshId).Ok? ==>
      exists items, at :: && Has(doc, "cells", JArray(items))
                          && AreCells(ImportDocument(doc, freshId).value, items, freshId, at)
  {
    hide AreCells;
    if Get(doc, "cells").JArray? {
      var items := Get(doc, "cells").items;
      var at := ImportedSays(items, freshId);
      assert Has(doc, "cells", JArray(items));
    }
  }
}
