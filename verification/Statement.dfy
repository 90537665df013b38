/** The upsert statement of `Worker.sync` (internal/batch/worker.go): how it is written, and what
    the database makes of its text and parameters. */
module Statement {
  import opened Jobs
  import opened Records
  import opened UpsertTable
  import opened ColumnList
  import opened InsertSyntax
  import T = StatementText

  /** The parameter numbers of row i when each row appends FIELDS values. */
  function ParamRow(i: nat, columns: nat): (ps: seq<nat>)
    ensures |ps| == columns
    ensures forall j :: 0 <= j < columns ==> ps[j] == FIELDS * i + j + 1
  {
    seq(columns, j requires 0 <= j < columns => FIELDS * i + j + 1)
  }

  function ParamRows(n: nat, columns: nat): (rows: seq<seq<nat>>)
    ensures |rows| == n
    ensures forall i :: 0 <= i < n ==> rows[i] == ParamRow(i, columns)
  {
    seq(n, i requires 0 <= i < n => ParamRow(i, columns))
  }

  function Values(rs: seq<Record>): (v: seq<Value>)
    ensures |v| == FIELDS * |rs|
  {
    if rs == [] then [] else Values(rs[..|rs| - 1]) + Fields(rs[|rs| - 1])
  }

  /** What stands after the opening parenthesis of the column list, and after the closing one, in a
      statement that ends in `tail`. */
  function Body(columns: seq<string>, n: nat, tail: string): string { Join(columns) + (")" + Rows(n, |columns|, tail)) }

  function Rows(n: nat, columns: nat, tail: string): string { VALUES + (T.RowsText(ParamRows(n, columns)) + tail) }

  function TextWith(columns: seq<string>, n: nat, tail: string): string { HEAD + Body(columns, n, tail) }

  function Text(columns: seq<string>, n: nat): string { TextWith(columns, n, TAIL) }

  // The database's side.

  /** Each row has a value for every column, and the parameters used run up to the number given. */
  predicate Fits(rows: seq<seq<nat>>, width: nat, values: nat) {
    && (forall i :: 0 <= i < |rows| ==> |rows[i]| == width)
    && (forall i, j :: 0 <= i < |rows| && 0 <= j < |rows[i]| ==> 1 <= rows[i][j] <= values)
    && (exists i, j :: 0 <= i < |rows| && 0 <= j < |rows[i]| && rows[i][j] == values)
  }

  function BindRow(ps: seq<nat>, v: seq<Value>): (w: seq<Value>)
    requires forall j :: 0 <= j < |ps| ==> 1 <= ps[j] <= |v|
    ensures |w| == |ps|
  {
    seq(|ps|, j requires 0 <= j < |ps| => v[ps[j] - 1])
  }

  function Bind(cols: seq<Column>, rows: seq<seq<nat>>, v: seq<Value>): (b: seq<Row>)
    requires EachOnce(cols) && Fits(rows, |cols|, |v|)
    ensures |b| == |rows|
  {
    seq(|rows|, i requires 0 <= i < |rows| => RowOf(cols, BindRow(rows[i], v)))
  }

  /** The part of the statement after the column list: it must be the rows and the conflict clause,
      the parameters must fit, and no global_uid may be written twice. A row whose global_uid is
      stored already is changed as the clause says. */
  function ExecuteRows(t: Table, cols: seq<Column>, text: string, v: seq<Value>): Option<Table>
    requires EachOnce(cols)
  {
    match ReadValues(text)
    case None => None
    case Some((rows, tail)) =>
      match ReadClause(tail)
      case None => None
      case Some(sets) => Perform(t, cols, rows, sets, v)
  }

  function ReadValues(text: string): Option<(seq<seq<nat>>, string)> {
    match ReadKeyword(text, "VALUES")
    case None => None
    case Some(rest) => T.ReadRows(SkipBlank(rest))
  }

  function Perform(t: Table, cols: seq<Column>, rows: seq<seq<nat>>, sets: Assignments, v: seq<Value>): Option<Table>
    requires EachOnce(cols)
  {
    if !Fits(rows, |cols|, |v|) || !DistinctKeys(Bind(cols, rows, v)) then None
    else Some(UpsertAllBy(sets, t, Bind(cols, rows, v)))
  }

  const TABLE := "krateo_resources"

  /** The table after the statement, or None where the server reports an error. The columns are
      those that the text names; an unknown name, a repeated one or a missing column is refused,
      and so is another table. */
  function Execute(t: Table, text: string, v: seq<Value>): Option<Table> {
    match ReadInto(text)
    case None => None
    case Some((table, list)) =>
      if table != TABLE then None else
      match ReadNames(list)
      case None => None
      case Some((names, rest)) =>
        match Resolve(names)
        case None => None
        case Some(cols) => if !EachOnce(cols) then None else ExecuteRows(t, cols, rest, v)
  }

  /** Record i's fields stand together in the value slice. */
  lemma {:induction false} ValuesOfRecord(rs: seq<Record>, i: nat)
    requires i < |rs|
    ensures Values(rs)[FIELDS * i..FIELDS * i + FIELDS] == Fields(rs[i])
  {
    var n := |rs| - 1;
    var before := Values(rs[..n]);
    if i == n {
      SliceOfSum(before, Fields(rs[n]), FIELDS * n);
    } else {
      ValuesOfRecord(rs[..n], i);
      assert rs[..n][i] == rs[i];
      SliceOfFirst(before, Fields(rs[n]), FIELDS * i, FIELDS * i + FIELDS);
    }
  }

  lemma SliceOfSum(a: seq<Value>, b: seq<Value>, k: nat)
    requires k == |a|
    ensures (a + b)[k..k + |b|] == b
  {
  }

  lemma SliceOfFirst(a: seq<Value>, b: seq<Value>, lo: nat, hi: nat)
    requires lo <= hi <= |a|
    ensures (a + b)[lo..hi] == a[lo..hi]
  {
  }

  lemma BindsSlice(ps: seq<nat>, v: seq<Value>, base: nat)
    requires base + |ps| <= |v| && (forall j :: 0 <= j < |ps| ==> ps[j] == base + j + 1)
    ensures BindRow(ps, v) == v[base..base + |ps|]
  {
  }

  lemma ParamsInRange(n: nat, i: nat)
    requires i < n
    ensures forall j :: 0 <= j < FIELDS ==> 1 <= ParamRow(i, FIELDS)[j] <= FIELDS * n
  {
    assert FIELDS * (i + 1) <= FIELDS * n;
  }

  lemma ParamRowsFit(n: nat)
    requires 0 < n
    ensures Fits(ParamRows(n, FIELDS), FIELDS, FIELDS * n)
  {
    var rows := ParamRows(n, FIELDS);
    assert rows[n - 1][FIELDS - 1] == FIELDS * n;
    forall i, j | 0 <= i < n && 0 <= j < |rows[i]| ensures 1 <= rows[i][j] <= FIELDS * n {
      ParamsInRange(n, i);
    }
  }

  /** The rows that a statement with these columns stores for the records. */
  function StoredRows(cols: seq<Column>, rs: seq<Record>): (b: seq<Row>)
    requires EachOnce(cols) && |cols| == FIELDS
    ensures |b| == |rs|
    ensures forall i :: 0 <= i < |rs| ==> b[i] == RowOf(cols, Fields(rs[i]))
  {
    seq(|rs|, i requires 0 <= i < |rs| => RowOf(cols, Fields(rs[i])))
  }

  lemma BindsRecord(rs: seq<Record>, i: nat)
    requires i < |rs|
    requires forall j :: 0 <= j < FIELDS ==> 1 <= ParamRow(i, FIELDS)[j] <= |Values(rs)|
    ensures BindRow(ParamRow(i, FIELDS), Values(rs)) == Fields(rs[i])
  {
    assert FIELDS * (i + 1) <= FIELDS * |rs|;
    BindsSlice(ParamRow(i, FIELDS), Values(rs), FIELDS * i);
    ValuesOfRecord(rs, i);
  }

  lemma BindAt(cols: seq<Column>, rows: seq<seq<nat>>, v: seq<Value>, i: nat)
    requires EachOnce(cols) && Fits(rows, |cols|, |v|) && i < |rows|
    ensures Bind(cols, rows, v)[i] == RowOf(cols, BindRow(rows[i], v))
  {
  }

  lemma BindsRecordAt(cols: seq<Column>, rs: seq<Record>, i: nat)
    requires EachOnce(cols) && |cols| == FIELDS
    requires i < |rs| && Fits(ParamRows(|rs|, FIELDS), FIELDS, |Values(rs)|)
    ensures Bind(cols, ParamRows(|rs|, FIELDS), Values(rs))[i] == RowOf(cols, Fields(rs[i]))
  {
    BindAt(cols, ParamRows(|rs|, FIELDS), Values(rs), i);
    ParamsInRange(|rs|, i);
    BindsRecord(rs, i);
  }

  lemma RowsAre(cols: seq<Column>, b: seq<Row>, rs: seq<Record>)
    requires EachOnce(cols) && |cols| == FIELDS
    requires |b| == |rs| && (forall i: nat :: i < |rs| ==> b[i] == RowOf(cols, Fields(rs[i])))
    ensures b == StoredRows(cols, rs)
  {
  }

  /** Parameter (i, j) carries field j of record i, which is stored in the j-th column named. */
  lemma BindsFieldByField(cols: seq<Column>, rs: seq<Record>)
    requires EachOnce(cols) && |cols| == FIELDS && rs != []
    ensures Fits(ParamRows(|rs|, FIELDS), FIELDS, |Values(rs)|)
    ensures Bind(cols, ParamRows(|rs|, FIELDS), Values(rs)) == StoredRows(cols, rs)
  {
    ParamRowsFit(|rs|);
    var b := Bind(cols, ParamRows(|rs|, FIELDS), Values(rs));
    forall i: nat | i < |rs| ensures b[i] == RowOf(cols, Fields(rs[i])) { BindsRecordAt(cols, rs, i); }
    RowsAre(cols, b, rs);
  }

  lemma StoredInOrder(rs: seq<Record>)
    ensures EachOnce(ORDER) && |ORDER| == FIELDS && StoredRows(ORDER, rs) == ToRows(rs)
  {
    OrderEachOnce();
    FieldsLandInTheirColumns(ORDER);
    forall i | 0 <= i < |rs| ensures StoredRows(ORDER, rs)[i] == ToRows(rs)[i] { InOrderIsRight(rs[i]); }
  }

  lemma TailStart()
    ensures TAIL != [] && TAIL[0] != ','
  {
  }

  lemma RowsStart(rows: seq<seq<nat>>, x: string)
    requires rows != []
    ensures T.RowsText(rows) != [] && T.RowsText(rows)[0] == '('
    ensures SkipBlank(" " + (T.RowsText(rows) + x)) == T.RowsText(rows) + x
  {
    RowsOpen(rows);
    var y := T.RowsText(rows) + x;
    assert y[0] == '(';
    assert y == ['('] + y[1..];
    Blanks();
    ReadsChar(" ", '(', y[1..]);
  }

  lemma {:induction false} RowsOpen(rows: seq<seq<nat>>)
    requires rows != []
    ensures T.RowsText(rows) != [] && T.RowsText(rows)[0] == '('
    decreases |rows|
  {
    if |rows| > 1 { RowsOpen(rows[..|rows| - 1]); }
  }

  lemma ValuesParts(x: string)
    ensures VALUES + x == " " + ("VALUES" + (" " + x))
  {
    assert VALUES == " " + ("VALUES" + " ");
  }

  lemma RowsRead(n: nat, columns: nat, tail: string)
    requires 0 < n && 0 < columns && tail != [] && tail[0] != ','
    ensures ReadValues(Rows(n, columns, tail)) == Some((ParamRows(n, columns), tail))
  {
    var x := T.RowsText(ParamRows(n, columns)) + tail;
    Words();
    BlankEnds(x);
    ReadsNext("VALUES", " " + x);
    ValuesParts(x);
    RowsStart(ParamRows(n, columns), tail);
    T.ReadsRows(ParamRows(n, columns), tail);
  }

  /** The rows with a clause that sets these columns. */
  lemma RowsMean(t: Table, cols: seq<Column>, rs: seq<Record>, tail: string, sets: Assignments)
    requires EachOnce(cols) && |cols| == FIELDS && rs != []
    requires tail != [] && tail[0] != ',' && ReadClause(tail) == Some(sets)
    ensures ExecuteRows(t, cols, Rows(|rs|, FIELDS, tail), Values(rs)) ==
      if DistinctKeys(StoredRows(cols, rs)) then Some(UpsertAllBy(sets, t, StoredRows(cols, rs))) else None
  {
    RowsRead(|rs|, FIELDS, tail);
    ExecutesWhatIsRead(t, cols, Rows(|rs|, FIELDS, tail), Values(rs), ParamRows(|rs|, FIELDS), tail, sets);
    Performs(t, cols, rs, sets);
  }

  lemma ExecutesWhatIsRead(t: Table, cols: seq<Column>, text: string, v: seq<Value>,
                           rows: seq<seq<nat>>, tail: string, sets: Assignments)
    requires EachOnce(cols) && ReadValues(text) == Some((rows, tail)) && ReadClause(tail) == Some(sets)
    ensures ExecuteRows(t, cols, text, v) == Perform(t, cols, rows, sets, v)
  {
  }

  lemma Performs(t: Table, cols: seq<Column>, rs: seq<Record>, sets: Assignments)
    requires EachOnce(cols) && |cols| == FIELDS && rs != []
    ensures Perform(t, cols, ParamRows(|rs|, FIELDS), sets, Values(rs)) ==
      if DistinctKeys(StoredRows(cols, rs)) then Some(UpsertAllBy(sets, t, StoredRows(cols, rs))) else None
  {
    BindsFieldByField(cols, rs);
  }

  lemma BodyReads(columns: seq<string>, n: nat, tail: string)
    requires Readable(columns)
    ensures ReadInto(TextWith(columns, n, tail)) == Some((TABLE, Body(columns, n, tail)))
    ensures ReadNames(Body(columns, n, tail))
         == if columns == [] then None else Some((NamesOf(columns), Rows(n, |columns|, tail)))
  {
    HeadReads(Body(columns, n, tail));
    if columns == [] {
      assert Body(columns, n, tail)[0] == ')';
    } else {
      ReadsNames(columns, Rows(n, |columns|, tail));
    }
  }

  /** The entries name every column of the table, each once. */
  predicate Complete(columns: seq<string>)
    requires Readable(columns)
  {
    Resolve(NamesOf(columns)).Some? && EachOnce(Resolve(NamesOf(columns)).value)
  }

  function ColumnsOf(columns: seq<string>): (cols: seq<Column>)
    requires Readable(columns) && Complete(columns)
    ensures EachOnce(cols) && |cols| == FIELDS == |columns|
    ensures Resolve(NamesOf(columns)) == Some(cols)
  {
    EachOnceSize(Resolve(NamesOf(columns)).value);
    Resolve(NamesOf(columns)).value
  }

  lemma Refused(t: Table, columns: seq<string>, n: nat, tail: string, v: seq<Value>)
    requires Readable(columns) && !Complete(columns)
    ensures Execute(t, TextWith(columns, n, tail), v) == None
  {
    BodyReads(columns, n, tail);
  }

  lemma ReadOn(t: Table, columns: seq<string>, n: nat, tail: string, v: seq<Value>)
    requires Readable(columns) && Complete(columns)
    ensures Execute(t, TextWith(columns, n, tail), v) == ExecuteRows(t, ColumnsOf(columns), Rows(n, FIELDS, tail), v)
  {
    var cols := ColumnsOf(columns);
    BodyReads(columns, n, tail);
  }

  /** What the statement means for any list of entries that read as names and any conflict clause:
      it is refused unless these name every column of the table, each once; then it upserts the
      records with the i-th field in the i-th column named and, where the key is stored, the
      columns that the clause sets; it is refused if two of the rows have the same key. */
  lemma StatementMeans(t: Table, columns: seq<string>, rs: seq<Record>, tail: string, sets: Assignments)
    requires Readable(columns) && rs != []
    requires tail != [] && tail[0] != ',' && ReadClause(tail) == Some(sets)
    ensures Execute(t, TextWith(columns, |rs|, tail), Values(rs)) ==
      if !Complete(columns) || !DistinctKeys(StoredRows(ColumnsOf(columns), rs)) then None
      else Some(UpsertAllBy(sets, t, StoredRows(ColumnsOf(columns), rs)))
  {
    if Complete(columns) {
      ReadOn(t, columns, |rs|, tail, Values(rs));
      RowsMean(t, ColumnsOf(columns), rs, tail, sets);
    } else {
      Refused(t, columns, |rs|, tail, Values(rs));
    }
  }

  lemma InOrderIs(columns: seq<string>)
    requires InOrder(columns)
    ensures Complete(columns) && ColumnsOf(columns) == ORDER
  {
    OrderEachOnce();
  }

  /** With the columns in the order of the fields, for any conflict clause. */
  lemma InOrderMeansWith(t: Table, columns: seq<string>, rs: seq<Record>, tail: string, sets: Assignments)
    requires InOrder(columns) && rs != []
    requires tail != [] && tail[0] != ',' && ReadClause(tail) == Some(sets)
    ensures Execute(t, TextWith(columns, |rs|, tail), Values(rs)) ==
      if DistinctKeys(ToRows(rs)) then Some(UpsertAllBy(sets, t, ToRows(rs))) else None
  {
    StoredInOrder(rs);
    InOrderIs(columns);
    StatementMeans(t, columns, rs, tail, sets);
  }

  /** With the columns in the order of the fields: upsert these records. It is refused exactly when
      two of them have the same key, which is why `sync` deduplicates first. */
  lemma InOrderMeans(t: Table, columns: seq<string>, rs: seq<Record>)
    requires InOrder(columns) && rs != []
    ensures Execute(t, Text(columns, |rs|), Values(rs))
         == if DistinctKeys(ToRows(rs)) then Some(UpsertAll(t, ToRows(rs))) else None
  {
    TailStart();
    ClauseReads(TAIL);
    InOrderMeansWith(t, columns, rs, TAIL, REFRESHED);
    RefreshedUpserts(t, ToRows(rs));
  }

  // Which clauses are right.

  /** The statement that ends in this clause upserts every list of records with different keys
      correctly, into every table. */
  ghost predicate RightClause(columns: seq<string>, tail: string) {
    forall t, rs :: rs != [] && DistinctKeys(ToRows(rs)) ==>
      Execute(t, TextWith(columns, |rs|, tail), Values(rs)) == Some(UpsertAll(t, ToRows(rs)))
  }

  /** A stored row none of whose cells is a cell of the telling record. */
  function Other(): Row { RowWith(c => Value.Time(Some(100 + Place(c)))) }

  lemma TellingCell(c: Column)
    ensures CellOf(ToRow(Telling()), c) == Fields(Telling())[Place(c)]
  {
    CellsOfRow(c => Cell(Telling(), c), c);
    FieldInPlace(Telling(), c);
  }

  lemma TellingNotOther(c: Column, d: Column)
    ensures CellOf(Other(), c) != CellOf(ToRow(Telling()), d)
  {
    CellsOfRow(c => Value.Time(Some(100 + Place(c))), c);
    CellsOfRow(c => Cell(Telling(), c), d);
  }

  lemma TellingApart()
    ensures Apart(Other(), ToRow(Telling()))
  {
    forall c: Column, d: Column ensures CellOf(Other(), c) != CellOf(ToRow(Telling()), d) { TellingNotOther(c, d); }
    forall c: Column, d: Column | c != d ensures CellOf(ToRow(Telling()), c) != CellOf(ToRow(Telling()), d) {
      TellingCell(c);
      TellingCell(d);
      if CellOf(ToRow(Telling()), c) == CellOf(ToRow(Telling()), d) {
        TellingFields(Place(c), Place(d));
      }
    }
  }

  lemma UpsertsOver(base: Row, r: Row, sets: Assignments)
    requires UpsertAllBy(sets, map[r.uid := base], [r]) == UpsertAll(map[r.uid := base], [r])
    ensures Assign(base, r, sets) == Refresh(base, r)
  {
    var t: Table := map[r.uid := base];
    assert [r][..0] + [] == [];
    assert UpsertAllBy(sets, t, [r]) == UpsertBy(sets, UpsertAllBy(sets, t, []), r);
    assert UpsertAll(t, [r]) == Upsert(UpsertAll(t, []), r);
    assert UpsertBy(sets, t, r)[r.uid] == Upsert(t, r)[r.uid];
  }

  lemma RightClauseSets(columns: seq<string>, tail: string, sets: Assignments)
    requires InOrder(columns) && RightClause(columns, tail)
    requires tail != [] && tail[0] != ',' && ReadClause(tail) == Some(sets)
    ensures sets == REFRESHED
  {
    var r := ToRow(Telling());
    RightForOneWith(map[r.uid := Other()], columns, Telling(), tail);
    MeansForOneWith(map[r.uid := Other()], columns, Telling(), tail, sets);
    UpsertsOver(Other(), r, sets);
    TellingApart();
    OnlyRefreshedAssigns(Other(), r, sets);
  }

  lemma RightForOneWith(t: Table, columns: seq<string>, r: Record, tail: string)
    requires RightClause(columns, tail)
    ensures Execute(t, TextWith(columns, 1, tail), Values([r])) == Some(UpsertAll(t, [ToRow(r)]))
  {
    var rs := [r];
    assert ToRows(rs) == [ToRow(r)];
    assert |rs| == 1 && DistinctKeys(ToRows(rs));
  }

  lemma MeansForOneWith(t: Table, columns: seq<string>, r: Record, tail: string, sets: Assignments)
    requires InOrder(columns) && tail != [] && tail[0] != ',' && ReadClause(tail) == Some(sets)
    ensures Execute(t, TextWith(columns, 1, tail), Values([r])) == Some(UpsertAllBy(sets, t, [ToRow(r)]))
  {
    var rs := [r];
    assert ToRows(rs) == [ToRow(r)];
    assert |rs| == 1 && DistinctKeys(ToRows(rs));
    InOrderMeansWith(t, columns, rs, tail, sets);
  }

  /** A statement with the columns in order is the upsert, for all tables and records, if and only if
      its clause sets deleted_at and raw, each from itself, and nothing else. */
  lemma ClauseRightExactly(columns: seq<string>, tail: string, sets: Assignments)
    requires InOrder(columns) && tail != [] && tail[0] != ',' && ReadClause(tail) == Some(sets)
    ensures RightClause(columns, tail) <==> sets == REFRESHED
  {
    if sets == REFRESHED {
      forall t, rs | rs != [] && DistinctKeys(ToRows(rs))
        ensures Execute(t, TextWith(columns, |rs|, tail), Values(rs)) == Some(UpsertAll(t, ToRows(rs)))
      {
        InOrderMeansWith(t, columns, rs, tail, sets);
        RefreshedUpserts(t, ToRows(rs));
      }
    } else if RightClause(columns, tail) {
      RightClauseSets(columns, tail, sets);
    }
  }

  /** The statement upserts every list of records with different keys correctly. */
  ghost predicate Right(columns: seq<string>) {
    forall t, rs :: rs != [] && DistinctKeys(ToRows(rs)) ==>
      Execute(t, Text(columns, |rs|), Values(rs)) == Some(UpsertAll(t, ToRows(rs)))
  }

  lemma UpsertOne(r: Row)
    ensures UpsertAll(map[], [r]) == map[r.uid := r]
  {
    assert [r][..0] + [] == [];
  }

  lemma StoresOne(cols: seq<Column>, r: Record)
    requires EachOnce(cols) && |cols| == FIELDS
    ensures StoredRows(cols, [r]) == [RowOf(cols, Fields(r))]
  {
  }

  lemma OneRecordMeans(columns: seq<string>, r: Record)
    requires Readable(columns) && Execute(map[], Text(columns, 1), Values([r])).Some?
    ensures Complete(columns)
    ensures
      var b := RowOf(ColumnsOf(columns), Fields(r));
      Execute(map[], Text(columns, 1), Values([r])) == Some(map[b.uid := b])
  {
    TailStart();
    ClauseReads(TAIL);
    StatementMeans(map[], columns, [r], TAIL, REFRESHED);
    StoresOne(ColumnsOf(columns), r);
    RefreshedUpserts(map[], [RowOf(ColumnsOf(columns), Fields(r))]);
    UpsertOne(RowOf(ColumnsOf(columns), Fields(r)));
  }

  lemma RightForOne(columns: seq<string>, r: Record)
    requires Right(columns)
    ensures Execute(map[], Text(columns, 1), Values([r])) == Some(map[ToRow(r).uid := ToRow(r)])
  {
    var rs := [r];
    assert ToRows(rs) == [ToRow(r)];
    assert |rs| == 1 && DistinctKeys(ToRows(rs));
    UpsertOne(ToRow(r));
  }

  lemma RightMeansInOrder(columns: seq<string>)
    requires Readable(columns) && Right(columns)
    ensures InOrder(columns)
  {
    RightForOne(columns, Telling());
    OneRecordMeans(columns, Telling());
    var cols := ColumnsOf(columns);
    OnlyRow(RowOf(cols, Fields(Telling())), ToRow(Telling()));
    InOrderWhenRight(cols);
  }

  lemma OnlyRow(a: Row, b: Row)
    requires map[a.uid := a] == map[b.uid := b]
    ensures a == b
  {
    assert a.uid in map[a.uid := a];
  }

  /** The statement does what it should for all records exactly when its list names the table's
      columns in the order in which the fields are appended. */
  lemma RightExactly(columns: seq<string>)
    requires Readable(columns)
    ensures Right(columns) <==> InOrder(columns)
  {
    if InOrder(columns) {
      forall t, rs | rs != [] && DistinctKeys(ToRows(rs))
        ensures Execute(t, Text(columns, |rs|), Values(rs)) == Some(UpsertAll(t, ToRows(rs)))
      {
        InOrderMeans(t, columns, rs);
      }
    } else if Right(columns) {
      RightMeansInOrder(columns);
    }
  }

  /** Deduplicated, the buffer's statement is always accepted and does the whole batch. */
  lemma BatchStatementMeans(t: Table, columns: seq<string>, b: seq<Record>, rs: seq<Record>)
    requires InOrder(columns) && rs != [] && Enumerates(ToRows(rs), ToRows(b))
    ensures Execute(t, Text(columns, |rs|), Values(rs)) == Some(BatchTable(t, ToRows(b)))
  {
    InOrderMeans(t, columns, rs);
    OrderDoesNotMatter(t, ToRows(b), ToRows(rs));
  }

  /** The numbering `len(vals)+j+1` fits the parameters given, however many records there are, iff
      there are as many columns as fields. */
  lemma NumberingFitsExactly(n: nat, columns: nat)
    requires 0 < n
    ensures Fits(ParamRows(n, columns), columns, FIELDS * n) <==> columns == FIELDS
  {
    var rows := ParamRows(n, columns);
    if columns == FIELDS {
      ParamRowsFit(n);
    } else if columns > FIELDS {
      assert rows[n - 1][FIELDS] > FIELDS * n;
    } else {
      forall i, j | 0 <= i < n && 0 <= j < |rows[i]| ensures rows[i][j] < FIELDS * n {
        assert FIELDS * (i + 1) <= FIELDS * n;
      }
    }
  }

  // Writing it, loop by loop.

  /** The dedup map: last write for a given global_uid wins. */
  method Collect(b: seq<Record>) returns (seen: map<string, Record>)
    ensures Tracks(seen, b)
  {
    seen := map[];
    for i := 0 to |b|
      invariant Tracks(seen, b[..i])
    {
      TracksStep(seen, b[..i], b[i]);
      assert b[..i + 1] == b[..i] + [b[i]];
      seen := seen[b[i].globalUid := b[i]];
    }
    assert b[..|b|] == b;
  }

  /** The values of the dedup map, in whatever order the iteration takes. */
  method ListValues(seen: map<string, Record>) returns (rs: seq<Record>)
    requires forall g :: g in seen ==> seen[g].globalUid == g
    ensures Lists(seen, rs)
  {
    rs := [];
    var left := seen.Keys;
    while left != {}
      invariant left <= seen.Keys
      invariant forall i :: 0 <= i < |rs| ==>
        rs[i].globalUid in seen && rs[i].globalUid !in left && seen[rs[i].globalUid] == rs[i]
      invariant forall i, j :: 0 <= i < j < |rs| ==> rs[i].globalUid != rs[j].globalUid
      invariant forall g :: g in seen && g !in left ==> seen[g] in rs
      decreases |left|
    {
      var g :| g in left;
      left := left - {g};
      rs := rs + [seen[g]];
    }
  }

  method Dedup(b: seq<Record>) returns (rs: seq<Record>)
    ensures Enumerates(ToRows(rs), ToRows(b))
    ensures b != [] <==> rs != []
  {
    var seen := Collect(b);
    rs := ListValues(seen);
    ListedEnumerates(seen, b, rs);
    EmptyTogether(b, rs);
  }

  lemma EmptyTogether(b: seq<Record>, rs: seq<Record>)
    requires Enumerates(ToRows(rs), ToRows(b))
    ensures b != [] <==> rs != []
  {
    EnumerationSize(ToRows(rs), ToRows(b));
    if b != [] { assert ToRows(b)[|b| - 1].uid in LastOf(ToRows(b)); }
  }

  ghost predicate Lists(seen: map<string, Record>, rs: seq<Record>) {
    && (forall i :: 0 <= i < |rs| ==> rs[i].globalUid in seen && seen[rs[i].globalUid] == rs[i])
    && (forall i, j :: 0 <= i < j < |rs| ==> rs[i].globalUid != rs[j].globalUid)
    && (forall g :: g in seen ==> seen[g] in rs)
  }

  /** The dedup map holds, for each key, the last record so far. */
  ghost predicate Tracks(seen: map<string, Record>, b: seq<Record>) {
    && (forall g :: g in seen ==> seen[g].globalUid == g)
    && (forall g :: g in seen <==> Value.Text(g) in LastOf(ToRows(b)))
    && (forall k :: k in LastOf(ToRows(b)) ==>
          k.Text? && k.s in seen && LastOf(ToRows(b))[k] == ToRow(seen[k.s]))
  }

  lemma TracksStep(seen: map<string, Record>, b: seq<Record>, r: Record)
    requires Tracks(seen, b)
    ensures Tracks(seen[r.globalUid := r], b + [r])
  {
    var rows := ToRows(b + [r]);
    assert rows[..|b|] == ToRows(b) && rows[|b|] == ToRow(r);
    assert LastOf(rows) == LastOf(ToRows(b))[Value.Text(r.globalUid) := ToRow(r)];
  }

  lemma ListedEnumerates(seen: map<string, Record>, b: seq<Record>, rs: seq<Record>)
    requires Tracks(seen, b) && Lists(seen, rs)
    ensures Enumerates(ToRows(rs), ToRows(b))
  {
    var rows := ToRows(rs);
    forall i | 0 <= i < |rs| ensures rows[i].uid == Value.Text(rs[i].globalUid) {
      assert rows[i] == ToRow(rs[i]);
    }
    forall k | k in LastOf(ToRows(b)) ensures LastOf(ToRows(b))[k] in rows {
      var i :| 0 <= i < |rs| && rs[i] == seen[k.s];
      assert rows[i] == ToRow(rs[i]);
    }
  }

  /** The string builder and the value slice of `sync`. */
  method Write(columns: seq<string>, rs: seq<Record>) returns (text: string, vals: seq<Value>)
    ensures text == Text(columns, |rs|) && vals == Values(rs)
  {
    text := HEAD + Join(columns) + ")" + VALUES;
    text, vals := WriteRows(text, |columns|, rs);
    text := text + TAIL;
    TextParts(columns, |rs|);
  }

  /** The loop over the records. */
  method WriteRows(start: string, columns: nat, rs: seq<Record>) returns (text: string, vals: seq<Value>)
    ensures text == start + T.RowsText(ParamRows(|rs|, columns)) && vals == Values(rs)
  {
    text, vals := start, [];
    var firstRow := true;
    ghost var rows := ParamRows(|rs|, columns);
    for i := 0 to |rs|
      invariant firstRow <==> i == 0
      invariant vals == Values(rs[..i])
      invariant text == start + T.RowsText(rows[..i])
    {
      if !firstRow { text := text + ", "; }
      firstRow := false;
      WrittenSoFar(rs, i);
      var row := WriteRow(|vals|, columns);
      TextGrows(start, rows, i, text, row);
      text := text + row;
      ValuesGrow(rs, i);
      vals := vals + Fields(rs[i]);
    }
    assert rs[..|rs|] == rs && rows[..|rs|] == rows;
  }

  lemma TextParts(columns: seq<string>, n: nat)
    ensures Text(columns, n) == HEAD + Join(columns) + ")" + VALUES + T.RowsText(ParamRows(n, |columns|)) + TAIL
  {
    RegroupParts(HEAD, Join(columns), ")", VALUES, T.RowsText(ParamRows(n, |columns|)), TAIL);
  }

  lemma RegroupParts(a: string, b: string, c: string, d: string, e: string, f: string)
    ensures a + b + c + d + e + f == a + (b + (c + (d + (e + f))))
  {
  }

  lemma WrittenSoFar(rs: seq<Record>, i: nat)
    requires i <= |rs|
    ensures |Values(rs[..i])| % FIELDS == 0 && |Values(rs[..i])| / FIELDS == i
  {
  }

  lemma ValuesGrow(rs: seq<Record>, i: nat)
    requires i < |rs|
    ensures Values(rs[..i + 1]) == Values(rs[..i]) + Fields(rs[i])
  {
    assert rs[..i + 1][..i] == rs[..i];
  }

  lemma TextGrows(p: string, rows: seq<seq<nat>>, i: nat, before: string, row: string)
    requires i < |rows| && row == T.RowText(rows[i])
    requires before == if i == 0 then p + T.RowsText(rows[..i]) else p + T.RowsText(rows[..i]) + ", "
    ensures before + row == p + T.RowsText(rows[..i + 1])
  {
    RowsTextSnoc(rows, i);
    var text := T.RowsText(rows[..i]);
    if i == 0 { RegroupNext(p, text, "", row); } else { RegroupNext(p, text, ", ", row); }
  }

  lemma RowsTextSnoc(rows: seq<seq<nat>>, i: nat)
    requires i < |rows|
    ensures i == 0 ==> T.RowsText(rows[..i]) == "" && T.RowsText(rows[..i + 1]) == T.RowText(rows[i])
    ensures i > 0 ==> T.RowsText(rows[..i + 1]) == T.RowsText(rows[..i]) + ", " + T.RowText(rows[i])
  {
    var next := rows[..i + 1];
    assert next[..i] == rows[..i] && next[i] == rows[i];
  }

  lemma RegroupNext(a: string, b: string, c: string, d: string)
    ensures a + b + c + d == a + (b + c + d)
    ensures c == "" ==> a + b + d == a + (b + d)
    ensures b == "" ==> b + d == d
  {
  }

  method WriteRow(written: nat, columns: nat) returns (row: string)
    requires written % FIELDS == 0
    ensures row == T.RowText(ParamRow(written / FIELDS, columns))
  {
    row := "(";
    ghost var ps := ParamRow(written / FIELDS, columns);
    for j := 0 to columns
      invariant row == "(" + T.Params(ps[..j])
    {
      if j > 0 { row := row + ", "; }
      row := row + "$" + T.Decimal(written + j + 1);
      assert ps[..j + 1][..j] == ps[..j];
      assert ps[..j + 1][j] == written + j + 1;
    }
    assert ps[..columns] == ps;
    row := row + ")";
  }

  /** `sync` up to the server's answer: deduplicate, write the statement, and send it unless there
      is nothing to send. `up` says whether the server is there to answer. */
  method Exchange(t: Table, columns: seq<string>, b: seq<Record>, up: bool) returns (sent: bool, answer: Option<Table>)
    requires InOrder(columns)
    ensures sent <==> b != []
    ensures answer == if sent && up then Some(BatchTable(t, ToRows(b))) else None
  {
    var records := Dedup(b);
    var text, vals := Write(columns, records);
    if |vals| == 0 { return false, None; }
    BatchStatementMeans(t, columns, b, records);
    answer := if up then Execute(t, text, vals) else None;
    return true, answer;
  }
}
