/**
 What loading a CSV document gives, said of the document alone: how each column
 is named after its header, which type its cells have, which value is bound for
 each cell, and which error is reported when a step fails.
 */
module CsvReading {
  import opened Common
  import opened Decimal
  import opened Gql
  import opened Whitespace
  import opened CsvIngest

  // ---- The name a header gives ---------------------------------------------------------------

  predicate IsKept(c: char) {
    'a' <= c <= 'z' || 'A' <= c <= 'Z' || '0' <= c <= '9'
  }

  /** The ASCII letters and digits, with one underscore wherever something between two of them is left out. */
  function Kept(s: string): (r: string)
    ensures r == "" <==> forall i :: 0 <= i < |s| ==> !IsKept(s[i])
    ensures r != "" ==> IsKept(r[0])
  {
    if s == "" then ""
    else if !IsKept(s[0]) then Kept(s[1..])
    else if |s| > 1 && !IsKept(s[1]) && Kept(s[1..]) != "" then [s[0]] + "_" + Kept(s[1..])
    else [s[0]] + Kept(s[1..])
  }

  function TrimLast(s: string): string {
    if s != "" && s[|s| - 1] == '_' then TrimLast(s[..|s| - 1]) else s
  }

  function TrimFirst(s: string): string {
    if s != "" && s[0] == '_' then TrimFirst(s[1..]) else s
  }

  lemma {:induction false} TrimLastCons(c: char, s: string)
    ensures TrimLast([c] + s) == if TrimLast(s) == "" && c == '_' then "" else [c] + TrimLast(s)
  {
    if s == "" {
      assert [c] + s == [c];
    } else if s[|s| - 1] == '_' {
      TrimLastCons(c, s[..|s| - 1]);
      assert ([c] + s)[..|s|] == [c] + s[..|s| - 1];
    }
  }

  lemma {:induction false} TrimsBothEnds(s: string)
    ensures TrimUnderscores(s) == TrimFirst(TrimLast(s))
    decreases |s|
  {
    if s != "" {
      if s[0] == '_' {
        TrimsBothEnds(s[1..]);
        assert s == [s[0]] + s[1..];
        TrimLastCons(s[0], s[1..]);
      } else if s[|s| - 1] == '_' {
        TrimsBothEnds(s[..|s| - 1]);
      }
    }
  }

  lemma MaskedCons(s: string)
    requires s != ""
    ensures Masked(s) == [if IsKept(s[0]) then s[0] else '_'] + Masked(s[1..])
  {
  }

  lemma {:induction false} CollapsedIsKept(s: string)
    ensures TrimLast(Collapsed(Masked(s)))
         == if Kept(s) == "" then "" else if IsKept(s[0]) then Kept(s) else "_" + Kept(s)
  {
    if s != "" {
      var rest := s[1..];
      var c := if IsKept(s[0]) then s[0] else '_';
      CollapsedIsKept(rest);
      MaskedCons(s);
      CollapsedFront(c, Masked(rest));
      TrimLastCons(c, Collapsed(Masked(rest)));
    }
  }

  /** The name made of a header: what is kept of it, or else the fallback, never starting with a digit. */
  function NameFor(lib: Library, header: string, fallback: string): string {
    var kept := Kept(lib.lower(Trim(header)));
    var name := if kept == "" then fallback else kept;
    if name != "" && '0' <= name[0] <= '9' then "t_" + name else name
  }

  lemma SanitizedSays(lib: Library, header: string, fallback: string)
    ensures Sanitized(lib, header, fallback) == NameFor(lib, header, fallback)
  {
    var s := lib.lower(Trim(header));
    CollapsedIsKept(s);
    TrimsBothEnds(Collapsed(Masked(s)));
  }

  /**
   Columns are named in order: each after its header, with the first of `_2`,
   `_3`, … that makes the name new when it is taken.
   */
  ghost predicate NamedAfter(lib: Library, headers: seq<string>, columns: seq<Column>) {
    |columns| == |headers| && forall c: nat :: c < |headers| ==> NewName(lib, headers, columns, c)
  }

  ghost predicate NewName(lib: Library, headers: seq<string>, columns: seq<Column>, c: nat)
    requires c < |columns| == |headers|
  {
    var base := NameFor(lib, headers[c], "col_" + Show(c + 1));
    var name := columns[c].name;
    && (forall b :: 0 <= b < c ==> columns[b].name != name)
    && (name == base
        || (UsedBefore(columns, c, base)
            && exists k: nat :: k >= 2 && name == base + "_" + Show(k)
                 && forall j: nat :: 2 <= j < k ==> UsedBefore(columns, c, base + "_" + Show(j))))
  }

  ghost predicate UsedBefore(columns: seq<Column>, c: nat, name: string)
    requires c < |columns|
  {
    exists b :: 0 <= b < c && columns[b].name == name
  }

  lemma CandidateIs(base: string, k: nat)
    ensures Candidate(base, k) == if k <= 1 then base else base + "_" + Show(k)
  {
    ConcatAssoc(base, "_", Show(k));
  }

  lemma TakenIsUsed(t: Table, c: nat, name: string)
    requires c < |t.columns| && name in NamesOf(t)[..c]
    ensures UsedBefore(t.columns, c, name)
  {
  }

  lemma NameIsNew(lib: Library, headers: seq<string>, t: Table, c: nat)
    requires c < |headers| == |t.columns| && NamesFor(lib, headers, NamesOf(t))
    ensures NewName(lib, headers, t.columns, c)
  {
    hide Sanitized, NameFor, Candidate;
    var names, base := NamesOf(t), NameFor(lib, headers[c], "col_" + Show(c + 1));
    SanitizedSays(lib, headers[c], "col_" + Show(c + 1));
    assert FirstFree(names[..c], base, names[c]);
    forall b | 0 <= b < c ensures t.columns[b].name != names[c] {
      assert names[..c][b] == t.columns[b].name;
    }
    var m: nat :| 1 <= m <= c + 1 && names[c] == Candidate(base, m) && Taken(names[..c], base, m - 1);
    CandidateIs(base, m);
    CandidateIs(base, 1);
    if m > 1 {
      assert Candidate(base, 1) in names[..c];
      TakenIsUsed(t, c, base);
      forall j: nat | 2 <= j < m ensures UsedBefore(t.columns, c, base + "_" + Show(j)) {
        assert Candidate(base, j) in names[..c];
        CandidateIs(base, j);
        TakenIsUsed(t, c, base + "_" + Show(j));
      }
    }
  }

  // ---- The values ---------------------------------------------------------------------------------

  /** Record `r` has a cell in column `c`, with something other than white space in it. */
  predicate Filled(raw: seq<seq<string>>, r: nat, c: nat) {
    r < |raw| && c < |raw[r]| && exists i :: 0 <= i < |raw[r][c]| && !IsSpace(raw[r][c][i])
  }

  predicate ReadsAs<T>(raw: seq<seq<string>>, r: nat, c: nat, parse: string -> Option<T>) {
    r < |raw| && c < |raw[r]| && parse(Trim(raw[r][c])).Some?
  }

  /** The type of column `c`: the strictest that every filled cell reads as, and TEXT without filled cells. */
  ghost predicate HasType(lib: Library, raw: seq<seq<string>>, c: nat, ty: ColumnType) {
    match ty
    case INTEGER =>
      && (exists r: nat :: Filled(raw, r, c))
      && forall r: nat :: Filled(raw, r, c) ==> ReadsAs(raw, r, c, lib.parseInt)
    case REAL =>
      && (exists r: nat :: Filled(raw, r, c) && !ReadsAs(raw, r, c, lib.parseInt))
      && forall r: nat :: Filled(raw, r, c) ==> ReadsAs(raw, r, c, lib.parseFloat)
    case TEXT =>
      (exists r: nat :: Filled(raw, r, c)) ==>
        && (exists r: nat :: Filled(raw, r, c) && !ReadsAs(raw, r, c, lib.parseInt))
        && exists r: nat :: Filled(raw, r, c) && !ReadsAs(raw, r, c, lib.parseFloat)
  }

  /** The value bound for a cell: NULL where nothing is filled in, and else what it reads as. */
  predicate HasValue(lib: Library, raw: seq<seq<string>>, r: nat, c: nat, ty: ColumnType, v: SqlValue) {
    match v
    case NullValue => !Filled(raw, r, c)
    case IntegerValue(i) => Filled(raw, r, c) && ty == INTEGER && lib.parseInt(Trim(raw[r][c])) == Some(i)
    case RealValue(f) => Filled(raw, r, c) && ty == REAL && lib.parseFloat(Trim(raw[r][c])) == Some(f)
    case TextValue(s) => Filled(raw, r, c) && ty == TEXT && s == raw[r][c]
  }

  lemma {:induction false} TrimStartIsEmpty(s: string)
    ensures TrimStart(s) == "" <==> forall i :: 0 <= i < |s| ==> IsSpace(s[i])
  {
    if s != "" {
      TrimStartIsEmpty(s[1..]);
      if forall i :: 0 <= i < |s[1..]| ==> IsSpace(s[1..][i]) {
        assert forall i :: 1 <= i < |s| ==> s[i] == s[1..][i - 1];
      } else {
        var i :| 0 <= i < |s[1..]| && !IsSpace(s[1..][i]);
        assert !IsSpace(s[i + 1]);
      }
    }
  }

  lemma {:induction false} TrimEndIsEmpty(s: string)
    requires s != "" && !IsSpace(s[0])
    ensures TrimEnd(s) != ""
  {
    if IsSpace(s[|s| - 1]) {
      TrimEndIsEmpty(s[..|s| - 1]);
    }
  }

  lemma BlankSays(s: string)
    ensures Blank(s) <==> forall i :: 0 <= i < |s| ==> IsSpace(s[i])
  {
    TrimStartIsEmpty(s);
    if TrimStart(s) != "" {
      TrimEndIsEmpty(TrimStart(s));
    }
  }

  lemma FilledSays(raw: seq<seq<string>>, r: nat, c: nat)
    requires r < |raw|
    ensures Filled(raw, r, c) <==> !Blank(CellAt(raw[r], c))
  {
    BlankSays(CellAt(raw[r], c));
  }

  lemma ParseSays<T>(raw: seq<seq<string>>, c: nat, parse: string -> Option<T>)
    ensures AllParse(RawColumn(raw, c), parse) <==>
      forall r: nat :: Filled(raw, r, c) ==> ReadsAs(raw, r, c, parse)
  {
    hide Blank, IsSpace;
    forall r: nat | r < |raw| ensures Filled(raw, r, c) <==> !Blank(CellAt(raw[r], c)) {
      FilledSays(raw, r, c);
    }
    if AllParse(RawColumn(raw, c), parse) {
      forall r: nat | Filled(raw, r, c) ensures ReadsAs(raw, r, c, parse) {
        assert RawColumn(raw, c)[r] == CellAt(raw[r], c);
      }
    } else {
      var r :| 0 <= r < |raw| && !Blank(RawColumn(raw, c)[r]) && parse(Trim(RawColumn(raw, c)[r])).None?;
      assert Filled(raw, r, c) && !ReadsAs(raw, r, c, parse);
    }
  }

  lemma AllBlankSays(raw: seq<seq<string>>, c: nat)
    ensures AllBlank(RawColumn(raw, c)) <==> forall r: nat :: !Filled(raw, r, c)
  {
    hide Blank, IsSpace;
    forall r: nat | r < |raw| ensures Filled(raw, r, c) <==> !Blank(CellAt(raw[r], c)) {
      FilledSays(raw, r, c);
    }
    if !AllBlank(RawColumn(raw, c)) {
      var r :| 0 <= r < |raw| && !Blank(RawColumn(raw, c)[r]);
      assert Filled(raw, r, c);
    }
  }

  lemma TypeSays(lib: Library, raw: seq<seq<string>>, c: nat)
    ensures HasType(lib, raw, c, TypeOf(lib, RawColumn(raw, c)))
  {
    hide Filled, ReadsAs, AllParse, AllBlank;
    AllBlankSays(raw, c);
    ParseSays(raw, c, lib.parseInt);
    ParseSays(raw, c, lib.parseFloat);
  }

  lemma ValueSays(lib: Library, raw: seq<seq<string>>, r: nat, c: nat)
    requires r < |raw|
    ensures var ty := TypeOf(lib, RawColumn(raw, c));
            HasValue(lib, raw, r, c, ty, Convert(lib, ty, CellAt(raw[r], c)))
  {
    hide Convert, TypeOf, IsSpace;
    ConversionIsSound(lib, RawColumn(raw, c), r);
    FilledSays(raw, r, c);
  }

  // ---- The outcome --------------------------------------------------------------------------------

  /** The table a document gives. */
  ghost predicate IsTable(lib: Library, headers: seq<string>, raw: seq<seq<string>>, t: Table) {
    && NamedAfter(lib, headers, t.columns)
    && |t.rows| == |raw|
    && (forall c: nat :: c < |headers| ==> HasType(lib, raw, c, t.columns[c].sqlType))
    && forall r: nat, c: nat :: r < |raw| && c < |headers| ==> HoldsCell(lib, raw, t, r, c)
  }

  predicate HoldsCell(lib: Library, raw: seq<seq<string>>, t: Table, r: nat, c: nat) {
    && r < |t.rows| && c < |t.rows[r]| == |t.columns|
    && HasValue(lib, raw, r, c, t.columns[c].sqlType, t.rows[r][c])
  }

  lemma LoadedSays(lib: Library, headers: seq<string>, raw: seq<seq<string>>, t: Table)
    requires Loaded(lib, headers, raw, t)
    ensures IsTable(lib, headers, raw, t)
  {
    hide NewName, NamesFor, HasType, HasValue, TypeOf, Convert;
    forall c: nat | c < |headers|
      ensures NewName(lib, headers, t.columns, c) && HasType(lib, raw, c, t.columns[c].sqlType)
    {
      NameIsNew(lib, headers, t, c);
      TypeSays(lib, raw, c);
    }
    forall r: nat, c: nat | r < |raw| && c < |headers|
      ensures HoldsCell(lib, raw, t, r, c)
    {
      assert CellIs(lib, headers, raw, t, r, c);
      ValueSays(lib, raw, r, c);
    }
  }

  // How far storing the rows got.
  predicate Opened(db: Database) { db.open.None? }
  predicate Begun(db: Database) { Opened(db) && db.begin.None? }
  predicate Created(db: Database) { Begun(db) && db.create.None? }
  predicate Prepared(db: Database) { Created(db) && db.prepare.None? }
  predicate Inserted(db: Database, n: nat) { Prepared(db) && forall k :: 0 <= k < n ==> db.insert(k).None? }

  /** The step of storing `n` rows that failed, after the ones before it went well, and its message. */
  predicate StepFailed(db: Database, n: nat, e: IngestError) {
    match e
    case OpenDatabase(m) => db.open == Some(m)
    case BeginTransaction(m) => Opened(db) && db.begin == Some(m)
    case CreateTable(m) => Begun(db) && db.create == Some(m)
    case PrepareInsert(m) => Created(db) && db.prepare == Some(m)
    case InsertRow(m) => exists k: nat :: k < n && Inserted(db, k) && db.insert(k) == Some(m)
    case Commit(m) => Inserted(db, n) && db.commit == Some(m)
    case _ => false
  }

  /** What loading ends with: the table, or the first step that failed and its message. */
  ghost predicate EndsWith(lib: Library, db: Database, dbPath: string, hint: string,
                           header: Result<seq<string>, string>, input: seq<Result<seq<string>, string>>,
                           r: Result<Table, IngestError>)
  {
    var readable := dbPath != ":memory:" && header.Ok? && header.value != [];
    var allRead := readable && forall k :: 0 <= k < |input| ==> input[k].Ok?;
    match r
    case Ok(t) =>
      && allRead && Inserted(db, |input|) && db.commit.None?
      && t.name == NameFor(lib, hint, "uploaded_table")
      && IsTable(lib, header.value, seq(|input|, k requires 0 <= k < |input| => input[k].value), t)
    case Err(InMemoryDatabase) => dbPath == ":memory:"
    case Err(BadHeader(m)) => dbPath != ":memory:" && header == Err(m)
    case Err(NoHeaderRow) => dbPath != ":memory:" && header == Ok([])
    case Err(BadRow(m)) =>
      readable && exists k :: 0 <= k < |input| && input[k] == Err(m) && forall j :: 0 <= j < k ==> input[j].Ok?
    case Err(e) => allRead && StepFailed(db, |input|, e)
  }

  lemma {:induction false} RefusedSays(db: Database, k: nat, n: nat) returns (i: nat)
    requires Refused(db, k, n).Some?
    ensures k <= i < n && db.insert(i) == Refused(db, k, n) && forall j :: k <= j < i ==> db.insert(j).None?
    decreases n - k
  {
    if db.insert(k).Some? {
      i := k;
    } else {
      i := RefusedSays(db, k + 1, n);
    }
  }

  lemma StoreSays(db: Database, n: nat)
    ensures StoreError(db, n).Some? ==> StepFailed(db, n, StoreError(db, n).value)
    ensures StoreError(db, n).None? ==> Inserted(db, n) && db.commit.None?
  {
    hide Refused;
    if StoreError(db, n).Some? && StoreError(db, n).value.InsertRow? {
      var i := RefusedSays(db, 0, n);
      assert Inserted(db, i);
    }
  }

  /** Loading ends with the table the document gives, or with the first failure. */
  lemma IngestSays(lib: Library, db: Database, dbPath: string, hint: string, header: Result<seq<string>, string>,
                   input: seq<Result<seq<string>, string>>, r: Result<Table, IngestError>)
    requires Ingested(lib, db, dbPath, hint, header, input, r)
    ensures EndsWith(lib, db, dbPath, hint, header, input, r)
  {
    hide IsTable, Loaded, Sanitized, NameFor, StoreError, Inserted;
    SanitizedSays(lib, hint, "uploaded_table");
    StoreSays(db, |input|);
    if r.Ok? {
      LoadedSays(lib, header.value, Contents(input), r.value);
      assert Contents(input) == seq(|input|, k requires 0 <= k < |input| => input[k].value);
    } else if r.error.BadRow? {
      var k :| 0 <= k < |input| && input[k] == Err(r.error.message) && AllRead(input[..k]);
      assert forall j :: 0 <= j < k ==> input[..k][j].Ok?;
    }
  }
}
