/**
 Loading a CSV document into a table: column names made safe and unique, a type
 inferred per column, and every cell converted to its column's type.

 Names come out pairwise distinct and safe to quote, the search for a free name
 ends, and only for blank cells is NULL the value bound to the INSERT statement.
 */
module CsvIngest {
  import opened Common
  import opened Decimal
  import opened Gql
  import opened Whitespace

  /** The text functions of Rust's library this model takes as given. */
  datatype Library = Library(
    lower: string -> string,
    parseInt: string -> Option<i64>,
    parseFloat: string -> Option<F64>)

  datatype ColumnType = INTEGER | REAL | TEXT

  datatype SqlValue = NullValue | IntegerValue(i: i64) | RealValue(f: F64) | TextValue(s: string)

  datatype Column = Column(name: string, sqlType: ColumnType)

  datatype Table = Table(name: string, columns: seq<Column>, rows: seq<seq<SqlValue>>)

  datatype IngestError =
    | InMemoryDatabase
    | BadHeader(message: string)
    | NoHeaderRow
    | BadRow(message: string)
    | OpenDatabase(message: string)
    | BeginTransaction(message: string)
    | CreateTable(message: string)
    | PrepareInsert(message: string)
    | InsertRow(message: string)
    | Commit(message: string)

  /** The error the database would answer each step with, if any; rows are inserted one by one. */
  datatype Database = Database(
    open: Option<string>,
    begin: Option<string>,
    create: Option<string>,
    prepare: Option<string>,
    insert: nat -> Option<string>,
    commit: Option<string>)

  // ---- Safe identifiers ---------------------------------------------------------------------

  predicate IsIdentChar(c: char) {
    'a' <= c <= 'z' || IsDigit(c) || c == '_'
  }

  predicate IdentChars(s: string) {
    forall i :: 0 <= i < |s| ==> IsIdentChar(s[i])
  }

  /** `[a-z0-9_]`, never empty, never starting with a digit. */
  predicate SafeIdent(s: string) {
    s != "" && IdentChars(s) && !IsDigit(s[0])
  }

  /** Lower-casing leaves no ASCII capital. */
  ghost predicate Lowers(lower: string -> string) {
    forall s, i :: 0 <= i < |lower(s)| ==> !('A' <= lower(s)[i] <= 'Z')
  }

  predicate IsAlphanumeric(c: char) {
    'a' <= c <= 'z' || 'A' <= c <= 'Z' || IsDigit(c)
  }

  function Masked(s: string): string {
    seq(|s|, i requires 0 <= i < |s| => if IsAlphanumeric(s[i]) then s[i] else '_')
  }

  predicate DoubledAt(s: string, i: nat) {
    i + 1 < |s| && s[i] == '_' && s[i + 1] == '_'
  }

  predicate HasDoubled(s: string) {
    exists i: nat :: i < |s| && DoubledAt(s, i)
  }

  /** One left-to-right replacement of `__` by `_`. */
  function Halved(s: string): (r: string)
    ensures |r| <= |s|
    ensures IdentChars(s) ==> IdentChars(r)
  {
    if |s| < 2 then s
    else if s[0] == '_' && s[1] == '_' then "_" + Halved(s[2..])
    else [s[0]] + Halved(s[1..])
  }

  /** Every run of underscores made one. */
  function Collapsed(s: string): string {
    if |s| < 2 then s
    else if s[0] == '_' && s[1] == '_' then Collapsed(s[1..])
    else [s[0]] + Collapsed(s[1..])
  }

  lemma {:induction false} HalvedShrinks(s: string, i: nat)
    requires DoubledAt(s, i)
    ensures |Halved(s)| < |s|
    decreases |s|
  {
    if !(s[0] == '_' && s[1] == '_') {
      assert DoubledAt(s[1..], i - 1);
      HalvedShrinks(s[1..], i - 1);
    }
  }

  lemma CollapsedFront(c: char, s: string)
    ensures Collapsed([c] + s) == if c == '_' && s != "" && s[0] == '_' then Collapsed(s) else [c] + Collapsed(s)
  {
    assert ([c] + s)[1..] == s;
  }

  lemma {:induction false} HalvedThenCollapsed(c: char, s: string)
    ensures Collapsed([c] + Halved(s)) == Collapsed([c] + s)
    decreases |s|
  {
    if |s| >= 2 {
      CollapsedFront(c, Halved(s));
      CollapsedFront(c, s);
      if s[0] == '_' && s[1] == '_' {
        HalvedThenCollapsed('_', s[2..]);
        CollapsedFront('_', s[1..]);
        assert s == ['_'] + s[1..] && s[1..] == ['_'] + s[2..];
      } else {
        HalvedThenCollapsed(s[0], s[1..]);
        assert s == [s[0]] + s[1..];
      }
    }
  }

  lemma HalvedCollapsesAlike(s: string)
    ensures Collapsed(Halved(s)) == Collapsed(s)
  {
    if |s| >= 2 {
      if s[0] == '_' && s[1] == '_' {
        HalvedThenCollapsed('_', s[2..]);
        assert s == ['_'] + s[1..] && s[1..] == ['_'] + s[2..];
        CollapsedFront('_', s[1..]);
      } else {
        HalvedThenCollapsed(s[0], s[1..]);
        assert s == [s[0]] + s[1..];
      }
    }
  }

  lemma {:induction false} NothingToCollapse(s: string)
    requires !HasDoubled(s)
    ensures Collapsed(s) == s
  {
    if |s| >= 2 {
      assert !DoubledAt(s, 0);
      forall i: nat | i < |s[1..]| ensures !DoubledAt(s[1..], i) {
        assert !DoubledAt(s, i + 1);
      }
      NothingToCollapse(s[1..]);
      assert s == [s[0]] + s[1..];
    }
  }

  function TrimUnderscores(s: string): (r: string)
    ensures IdentChars(s) ==> IdentChars(r)
    ensures r != "" ==> r[0] != '_' && r[|r| - 1] != '_'
  {
    if s == "" then ""
    else if s[0] == '_' then TrimUnderscores(s[1..])
    else if s[|s| - 1] == '_' then TrimUnderscores(s[..|s| - 1])
    else s
  }

  function Sanitized(lib: Library, raw: string, fallback: string): string {
    var s := TrimUnderscores(Collapsed(Masked(lib.lower(Trim(raw)))));
    var t := if s == "" then fallback else s;
    if t != "" && IsDigit(t[0]) then "t_" + t else t
  }

  /** Lower-cases, masks, and shortens runs of underscores until none is left. */
  method SanitizeIdent(lib: Library, raw: string, fallback: string) returns (r: string)
    ensures r == Sanitized(lib, raw, fallback)
  {
    var s := Masked(lib.lower(Trim(raw)));
    ghost var masked := s;
    while HasDoubled(s)
      invariant Collapsed(s) == Collapsed(masked)
      decreases |s|
    {
      ghost var i: nat :| i < |s| && DoubledAt(s, i);
      HalvedShrinks(s, i);
      HalvedCollapsesAlike(s);
      s := Halved(s);
    }
    NothingToCollapse(s);
    s := TrimUnderscores(s);
    if s == "" {
      s := fallback;
    }
    r := if s != "" && IsDigit(s[0]) then "t_" + s else s;
  }

  lemma {:induction false} CollapsedChars(s: string)
    requires IdentChars(s)
    ensures IdentChars(Collapsed(s))
  {
    if |s| >= 2 {
      CollapsedChars(s[1..]);
    }
  }

  /** Whatever the header says, the name is a safe identifier. */
  lemma SanitizedIsSafe(lib: Library, raw: string, fallback: string)
    requires Lowers(lib.lower) && fallback != "" && IdentChars(fallback)
    ensures SafeIdent(Sanitized(lib, raw, fallback))
  {
    var masked := Masked(lib.lower(Trim(raw)));
    assert IdentChars(masked);
    CollapsedChars(masked);
    var s := TrimUnderscores(Collapsed(masked));
  }

  // ---- Unique names --------------------------------------------------------------------------

  /** The names tried for a column, in order: `base`, `base_2`, `base_3`, … */
  function Candidate(base: string, k: nat): string {
    if k <= 1 then base else base + ("_" + Show(k))
  }

  lemma CandidatesDiffer(base: string, j: nat, k: nat)
    requires 1 <= j < k
    ensures Candidate(base, j) != Candidate(base, k)
  {
    SuffixOf(base, k);
    if j > 1 {
      SuffixOf(base, j);
    }
  }

  lemma SuffixOf(base: string, k: nat)
    requires k > 1
    ensures |Candidate(base, k)| > |base| && Value(Show(k)) == k
    ensures Candidate(base, k)[|base| + 1..] == Show(k)
  {
  }

  ghost predicate Taken(names: seq<string>, base: string, m: nat) {
    forall j: nat :: 1 <= j <= m ==> Candidate(base, j) in names
  }

  ghost predicate IsCandidate(s: string, base: string, m: nat) {
    exists j: nat :: 1 <= j <= m && s == Candidate(base, j)
  }

  lemma {:induction false} Candidates(names: seq<string>, base: string, m: nat) returns (s: set<string>)
    requires Taken(names, base, m)
    ensures |s| == m && forall x :: x in s ==> x in names && IsCandidate(x, base, m)
  {
    s := {};
    if m > 0 {
      var rest := Candidates(names, base, m - 1);
      var last := Candidate(base, m);
      forall x | x in rest ensures x != last {
        var j: nat :| 1 <= j <= m - 1 && x == Candidate(base, j);
        CandidatesDiffer(base, j, m);
      }
      s := rest + {last};
      forall x | x in s ensures x in names && IsCandidate(x, base, m) {
        if x in rest {
          var j: nat :| 1 <= j <= m - 1 && x == Candidate(base, j);
        }
      }
    }
  }

  lemma {:induction false} SubsetIsShorter(s: set<string>, names: seq<string>)
    requires forall x :: x in s ==> x in names
    ensures |s| <= |names|
  {
    if names == [] {
      assert s == {};
    } else {
      SubsetIsShorter(s - {names[0]}, names[1..]);
    }
  }

  /** Only as many candidates as there are names can be taken. */
  lemma TakenAreFew(names: seq<string>, base: string, m: nat)
    requires Taken(names, base, m)
    ensures m <= |names|
  {
    var s := Candidates(names, base, m);
    SubsetIsShorter(s, names);
  }

  /** `name` is the first candidate not among `names`. */
  ghost predicate FirstFree(names: seq<string>, base: string, name: string) {
    name !in names && exists m: nat :: 1 <= m <= |names| + 1 && name == Candidate(base, m) && Taken(names, base, m - 1)
  }

  method FreeName(names: seq<string>, base: string) returns (name: string)
    ensures FirstFree(names, base, name)
  {
    name := base;
    var n := 2;
    while name in names
      invariant n >= 2 && name == Candidate(base, n - 1) && Taken(names, base, n - 2)
      decreases |names| + 2 - n
    {
      TakenAreFew(names, base, n - 1);
      name := base + ("_" + Show(n));
      n := n + 1;
    }
    TakenAreFew(names, base, n - 2);
  }

  function Base(lib: Library, header: string, i: nat): string {
    Sanitized(lib, header, "col_" + Show(i + 1))
  }

  /** Each name is the first free candidate for its header after the names before it. */
  ghost predicate NamesFor(lib: Library, headers: seq<string>, names: seq<string>) {
    |names| <= |headers| && forall i :: 0 <= i < |names| ==> FirstFree(names[..i], Base(lib, headers[i], i), names[i])
  }

  method UniqueNames(lib: Library, headers: seq<string>) returns (names: seq<string>)
    ensures |names| == |headers| && NamesFor(lib, headers, names)
  {
    names := [];
    for i := 0 to |headers|
      invariant |names| == i && NamesFor(lib, headers, names)
    {
      var base := SanitizeIdent(lib, headers[i], "col_" + Show(i + 1));
      var name := FreeName(names, base);
      ghost var before := names;
      names := names + [name];
      forall j | 0 <= j < |names| ensures FirstFree(names[..j], Base(lib, headers[j], j), names[j]) {
        assert j < i ==> names[..j] == before[..j] && names[j] == before[j];
        assert j == i ==> names[..j] == before;
      }
    }
  }

  /** No two columns share a name, and every name is safe. */
  lemma NamesAreDistinctAndSafe(lib: Library, headers: seq<string>, names: seq<string>)
    requires Lowers(lib.lower) && NamesFor(lib, headers, names)
    ensures forall i, j :: 0 <= i < j < |names| ==> names[i] != names[j]
    ensures forall i :: 0 <= i < |names| ==> SafeIdent(names[i])
  {
    forall i, j | 0 <= i < j < |names| ensures names[i] != names[j] {
      assert FirstFree(names[..j], Base(lib, headers[j], j), names[j]);
      assert names[..j][i] == names[i];
    }
    forall i | 0 <= i < |names| ensures SafeIdent(names[i]) {
      var base := Base(lib, headers[i], i);
      assert FirstFree(names[..i], base, names[i]);
      SanitizedIsSafe(lib, headers[i], "col_" + Show(i + 1));
      var m: nat :| 1 <= m <= i + 1 && names[i] == Candidate(base, m);
    }
  }

  /** A header whose own name is free keeps it. */
  lemma FreeBaseIsKept(lib: Library, headers: seq<string>, names: seq<string>, i: nat)
    requires NamesFor(lib, headers, names) && i < |names|
    requires Base(lib, headers[i], i) !in names[..i]
    ensures names[i] == Base(lib, headers[i], i)
  {
    var base := Base(lib, headers[i], i);
    assert FirstFree(names[..i], base, names[i]);
    var m: nat :| 1 <= m <= i + 1 && names[i] == Candidate(base, m) && Taken(names[..i], base, m - 1);
    assert Candidate(base, 1) == base;
  }

  // ---- Types ------------------------------------------------------------------------------------

  predicate Blank(cell: string) {
    Trim(cell) == ""
  }

  ghost predicate AllParse<T>(column: seq<string>, parse: string -> Option<T>) {
    forall r :: 0 <= r < |column| && !Blank(column[r]) ==> parse(Trim(column[r])).Some?
  }

  ghost predicate AllBlank(column: seq<string>) {
    forall r :: 0 <= r < |column| ==> Blank(column[r])
  }

  /** The strictest type that fits every cell that is not blank; TEXT when all are. */
  ghost function TypeOf(lib: Library, column: seq<string>): ColumnType {
    if AllBlank(column) then TEXT
    else if AllParse(column, lib.parseInt) then INTEGER
    else if AllParse(column, lib.parseFloat) then REAL
    else TEXT
  }

  function ColumnAt(records: seq<seq<string>>, c: nat): (column: seq<string>)
    requires forall r :: 0 <= r < |records| ==> c < |records[r]|
    ensures |column| == |records| && forall r :: 0 <= r < |records| ==> column[r] == records[r][c]
  {
    seq(|records|, r requires 0 <= r < |records| => records[r][c])
  }

  method InferType(lib: Library, records: seq<seq<string>>, c: nat) returns (ty: ColumnType)
    requires forall r :: 0 <= r < |records| ==> c < |records[r]|
    ensures ty == TypeOf(lib, ColumnAt(records, c))
  {
    ghost var column := ColumnAt(records, c);
    var seen, allInt, allReal := false, true, true;
    for r := 0 to |records|
      invariant seen <==> !AllBlank(column[..r])
      invariant allInt <==> AllParse(column[..r], lib.parseInt)
      invariant allReal <==> AllParse(column[..r], lib.parseFloat)
    {
      var v := Trim(records[r][c]);
      OneMoreCell(lib, column, r);
      if v == "" {
        continue;
      }
      seen := true;
      if lib.parseInt(v).None? {
        allInt := false;
      }
      if lib.parseFloat(v).None? {
        allReal := false;
      }
    }
    assert column[..|records|] == column;
    ty := if !seen then TEXT else if allInt then INTEGER else if allReal then REAL else TEXT;
  }

  lemma OneMoreCell(lib: Library, column: seq<string>, r: nat)
    requires r < |column|
    ensures AllBlank(column[..r + 1]) <==> AllBlank(column[..r]) && Blank(column[r])
    ensures AllParse(column[..r + 1], lib.parseInt) <==>
      AllParse(column[..r], lib.parseInt) && (Blank(column[r]) || lib.parseInt(Trim(column[r])).Some?)
    ensures AllParse(column[..r + 1], lib.parseFloat) <==>
      AllParse(column[..r], lib.parseFloat) && (Blank(column[r]) || lib.parseFloat(Trim(column[r])).Some?)
  {
    AllParseStep(column, r, lib.parseInt);
    AllParseStep(column, r, lib.parseFloat);
    var more := column[..r + 1];
    assert forall k :: 0 <= k < r ==> more[k] == column[..r][k];
    assert more[r] == column[r];
  }

  lemma AllParseStep<T>(column: seq<string>, r: nat, parse: string -> Option<T>)
    requires r < |column|
    ensures AllParse(column[..r + 1], parse) <==>
      AllParse(column[..r], parse) && (Blank(column[r]) || parse(Trim(column[r])).Some?)
  {
    var more := column[..r + 1];
    assert forall k :: 0 <= k < r ==> more[k] == column[..r][k];
    assert more[r] == column[r];
  }

  /** The value a cell is stored as; a number that does not parse would be NULL. */
  function Convert(lib: Library, ty: ColumnType, cell: string): SqlValue {
    var v := Trim(cell);
    if v == "" then NullValue
    else
      match ty
      case INTEGER => (match lib.parseInt(v) case None => NullValue case Some(i) => IntegerValue(i))
      case REAL => (match lib.parseFloat(v) case None => NullValue case Some(f) => RealValue(f))
      case TEXT => TextValue(cell)
  }

  /** Under its column's type, a cell is NULL exactly when it is blank, and has the type otherwise. */
  lemma ConversionIsSound(lib: Library, column: seq<string>, r: nat)
    requires r < |column|
    ensures var ty, v := TypeOf(lib, column), Convert(lib, TypeOf(lib, column), column[r]);
            && (v == NullValue <==> Blank(column[r]))
            && (v.IntegerValue? <==> ty == INTEGER && !Blank(column[r]))
            && (v.RealValue? <==> ty == REAL && !Blank(column[r]))
            && (v.TextValue? <==> ty == TEXT && !Blank(column[r]))
            && (v.IntegerValue? ==> lib.parseInt(Trim(column[r])) == Some(v.i))
            && (v.RealValue? ==> lib.parseFloat(Trim(column[r])) == Some(v.f))
            && (v.TextValue? ==> v.s == column[r])
  {
    assert !Blank(column[r]) ==> !AllBlank(column);
  }

  // ---- Loading a document --------------------------------------------------------------------------

  function CellAt(rec: seq<string>, c: nat): string {
    if c < |rec| then rec[c] else ""
  }

  /** A record made as wide as the header: padded with blanks or cut. */
  function Fitted(rec: seq<string>, width: nat): (row: seq<string>)
    ensures |row| == width && forall c :: 0 <= c < width ==> row[c] == CellAt(rec, c)
  {
    seq(width, c requires 0 <= c < width => CellAt(rec, c))
  }

  /** What the cells of column `c` say, blank where a record is short. */
  ghost function RawColumn(raw: seq<seq<string>>, c: nat): (column: seq<string>)
    ensures |column| == |raw| && forall r :: 0 <= r < |raw| ==> column[r] == CellAt(raw[r], c)
  {
    seq(|raw|, r requires 0 <= r < |raw| => CellAt(raw[r], c))
  }

  ghost predicate Loaded(lib: Library, headers: seq<string>, raw: seq<seq<string>>, t: Table) {
    && |t.columns| == |headers| && |t.rows| == |raw|
    && NamesFor(lib, headers, NamesOf(t))
    && (forall c :: 0 <= c < |headers| ==> t.columns[c].sqlType == TypeOf(lib, RawColumn(raw, c)))
    && (forall r, c :: 0 <= r < |raw| && 0 <= c < |headers| ==> CellIs(lib, headers, raw, t, r, c))
  }

  ghost predicate CellIs(lib: Library, headers: seq<string>, raw: seq<seq<string>>, t: Table, r: nat, c: nat) {
    && r < |raw| && c < |headers| && r < |t.rows| && c < |t.rows[r]| == |headers|
    && t.rows[r][c] == Convert(lib, TypeOf(lib, RawColumn(raw, c)), CellAt(raw[r], c))
  }

  ghost function NamesOf(t: Table): (names: seq<string>)
    ensures |names| == |t.columns| && forall c :: 0 <= c < |names| ==> names[c] == t.columns[c].name
  {
    seq(|t.columns|, c requires 0 <= c < |t.columns| => t.columns[c].name)
  }

  // The reader yields the header and the records one by one, each read or failed.

  ghost predicate AllRead(input: seq<Result<seq<string>, string>>) {
    forall k :: 0 <= k < |input| ==> input[k].Ok?
  }

  ghost function Contents(input: seq<Result<seq<string>, string>>): (raw: seq<seq<string>>)
    requires AllRead(input)
    ensures |raw| == |input| && forall k :: 0 <= k < |input| ==> raw[k] == input[k].value
  {
    seq(|input|, k requires 0 <= k < |input| => input[k].value)
  }

  /** `message` is that of the first record that cannot be read. */
  ghost predicate FirstFailure(input: seq<Result<seq<string>, string>>, message: string) {
    exists k :: 0 <= k < |input| && input[k] == Err(message) && AllRead(input[..k])
  }

  /** The error of the first row, from row `k` on, that the database refuses. */
  function Refused(db: Database, k: nat, n: nat): (r: Option<string>)
    ensures r.None? <==> forall i :: k <= i < n ==> db.insert(i).None?
    decreases n - k
  {
    if k >= n then None else if db.insert(k).Some? then db.insert(k) else Refused(db, k + 1, n)
  }

  /** The first error of storing `n` rows, in one transaction, if there is one. */
  function StoreError(db: Database, n: nat): Option<IngestError> {
    if db.open.Some? then Some(OpenDatabase(db.open.value))
    else if db.begin.Some? then Some(BeginTransaction(db.begin.value))
    else if db.create.Some? then Some(CreateTable(db.create.value))
    else if db.prepare.Some? then Some(PrepareInsert(db.prepare.value))
    else if Refused(db, 0, n).Some? then Some(InsertRow(Refused(db, 0, n).value))
    else if db.commit.Some? then Some(Commit(db.commit.value))
    else None
  }

  /** Whether `r` is what loading yields: the first error met, or the table of everything read. */
  ghost predicate Ingested(lib: Library, db: Database, dbPath: string, hint: string,
                           header: Result<seq<string>, string>, input: seq<Result<seq<string>, string>>,
                           r: Result<Table, IngestError>)
  {
    if dbPath == ":memory:" then r == Err(InMemoryDatabase)
    else if header.Err? then r == Err(BadHeader(header.error))
    else if header.value == [] then r == Err(NoHeaderRow)
    else if !AllRead(input) then r.Err? && r.error.BadRow? && FirstFailure(input, r.error.message)
    else if StoreError(db, |input|).Some? then r == Err(StoreError(db, |input|).value)
    else
      r.Ok? && r.value.name == Sanitized(lib, hint, "uploaded_table")
      && Loaded(lib, header.value, Contents(input), r.value)
  }

  /** The table made of what the CSV reader yields, stored in a database in a file. */
  method IngestCsv(lib: Library, db: Database, dbPath: string, hint: string, header: Result<seq<string>, string>,
                   input: seq<Result<seq<string>, string>>)
    returns (r: Result<Table, IngestError>)
    ensures Ingested(lib, db, dbPath, hint, header, input, r)
  {
    if dbPath == ":memory:" {
      return Err(InMemoryDatabase);
    }
    var table := SanitizeIdent(lib, hint, "uploaded_table");
    if header.Err? {
      return Err(BadHeader(header.error));
    }
    var headers := header.value;
    if headers == [] {
      return Err(NoHeaderRow);
    }
    var names := UniqueNames(lib, headers);
    var fitted := FitRecords(input, |headers|);
    if fitted.Err? {
      return Err(BadRow(fitted.error));
    }
    ghost var raw := Contents(input);
    var records := fitted.value;
    var columns := InferColumns(lib, names, records, raw);
    var rows := ConvertRows(lib, columns, records);
    var t := Table(table, columns, rows);
    assert NamesOf(t) == names;
    forall i, c | 0 <= i < |raw| && 0 <= c < |headers| ensures CellIs(lib, headers, raw, t, i, c) {
    }
    var error := Store(db, t);
    return if error.Some? then Err(error.value) else Ok(t);
  }

  /** Stores a table, up to the first error. */
  method Store(db: Database, t: Table) returns (error: Option<IngestError>)
    ensures error == StoreError(db, |t.rows|)
  {
    if db.open.Some? {
      return Some(OpenDatabase(db.open.value));
    }
    if db.begin.Some? {
      return Some(BeginTransaction(db.begin.value));
    }
    if db.create.Some? {
      return Some(CreateTable(db.create.value));
    }
    if db.prepare.Some? {
      return Some(PrepareInsert(db.prepare.value));
    }
    for k := 0 to |t.rows|
      invariant Refused(db, 0, |t.rows|) == Refused(db, k, |t.rows|)
    {
      if db.insert(k).Some? {
        return Some(InsertRow(db.insert(k).value));
      }
    }
    return if db.commit.Some? then Some(Commit(db.commit.value)) else None;
  }

  /** Reads the records, each made as wide as the header, up to the first that cannot be read. */
  method FitRecords(input: seq<Result<seq<string>, string>>, width: nat)
    returns (r: Result<seq<seq<string>>, string>)
    ensures r.Ok? <==> AllRead(input)
    ensures r.Ok? ==>
      |r.value| == |input| && forall k :: 0 <= k < |input| ==> r.value[k] == Fitted(input[k].value, width)
    ensures r.Err? ==> FirstFailure(input, r.error)
  {
    var records := [];
    for k := 0 to |input|
      invariant AllRead(input[..k])
      invariant |records| == k && forall j :: 0 <= j < k ==> input[j].Ok? && records[j] == Fitted(input[j].value, width)
    {
      if input[k].Err? {
        return Err(input[k].error);
      }
      records := records + [Fitted(input[k].value, width)];
    }
    return Ok(records);
  }

  method InferColumns(lib: Library, names: seq<string>, records: seq<seq<string>>, ghost raw: seq<seq<string>>)
    returns (columns: seq<Column>)
    requires |records| == |raw| && forall r :: 0 <= r < |raw| ==> records[r] == Fitted(raw[r], |names|)
    ensures |columns| == |names|
    ensures forall c :: 0 <= c < |names| ==> columns[c] == Column(names[c], TypeOf(lib, RawColumn(raw, c)))
  {
    columns := [];
    for c := 0 to |names|
      invariant |columns| == c
      invariant forall k :: 0 <= k < c ==> columns[k] == Column(names[k], TypeOf(lib, RawColumn(raw, k)))
    {
      var ty := InferType(lib, records, c);
      assert ColumnAt(records, c) == RawColumn(raw, c);
      columns := columns + [Column(names[c], ty)];
    }
  }

  method ConvertRows(lib: Library, columns: seq<Column>, records: seq<seq<string>>) returns (rows: seq<seq<SqlValue>>)
    requires forall r :: 0 <= r < |records| ==> |records[r]| == |columns|
    ensures |rows| == |records|
    ensures forall r :: 0 <= r < |records| ==> |rows[r]| == |columns|
    ensures forall r, c :: 0 <= r < |records| && 0 <= c < |columns| ==>
      rows[r][c] == Convert(lib, columns[c].sqlType, records[r][c])
  {
    rows := [];
    for k := 0 to |records|
      invariant |rows| == k
      invariant forall r :: 0 <= r < k ==> |rows[r]| == |columns|
      invariant forall r, c :: 0 <= r < k && 0 <= c < |columns| ==>
        rows[r][c] == Convert(lib, columns[c].sqlType, records[r][c])
    {
      var row := seq(|columns|, c requires 0 <= c < |columns| => Convert(lib, columns[c].sqlType, records[k][c]));
      rows := rows + [row];
    }
  }

  /** A loaded table loses no cell: NULL is bound for blank cells only, and names are distinct and safe. */
  lemma NothingIsLost(lib: Library, headers: seq<string>, raw: seq<seq<string>>, t: Table)
    requires Lowers(lib.lower) && Loaded(lib, headers, raw, t)
    ensures forall r, c :: 0 <= r < |raw| && 0 <= c < |headers| ==>
      CellIs(lib, headers, raw, t, r, c) && (t.rows[r][c] == NullValue <==> c >= |raw[r]| || Blank(raw[r][c]))
    ensures forall a, b :: 0 <= a < b < |t.columns| ==> t.columns[a].name != t.columns[b].name
    ensures forall c :: 0 <= c < |t.columns| ==> SafeIdent(t.columns[c].name)
  {
    NamesAreDistinctAndSafe(lib, headers, NamesOf(t));
    forall r, c | 0 <= r < |raw| && 0 <= c < |headers|
      ensures CellIs(lib, headers, raw, t, r, c) && (t.rows[r][c] == NullValue <==> c >= |raw[r]| || Blank(raw[r][c]))
    {
      ConversionIsSound(lib, RawColumn(raw, c), r);
    }
    forall a, b | 0 <= a < b < |t.columns| ensures t.columns[a].name != t.columns[b].name {
      assert NamesOf(t)[a] != NamesOf(t)[b];
    }
    forall c | 0 <= c < |t.columns| ensures SafeIdent(t.columns[c].name) {
      assert SafeIdent(NamesOf(t)[c]);
    }
  }
}
