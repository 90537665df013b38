/** The table as a map from global_uid to row, and what
    INSERT ... ON CONFLICT (global_uid) DO UPDATE SET deleted_at, raw does to it. */
module UpsertTable {
  import opened Records

  type Table = map<Value, Row>

  /** `base` with the two columns that a conflict updates taken from `r`. */
  function Refresh(base: Row, r: Row): Row { base.(deletedAt := r.deletedAt, raw := r.raw) }

  function Upsert(t: Table, r: Row): Table {
    t[r.uid := if r.uid in t then Refresh(t[r.uid], r) else r]
  }

  function UpsertAll(t: Table, b: seq<Row>): Table {
    if b == [] then t else Upsert(UpsertAll(t, b[..|b| - 1]), b[|b| - 1])
  }

  /** The last, and the first, row for each global_uid. */
  function LastOf(b: seq<Row>): map<Value, Row> {
    if b == [] then map[] else LastOf(b[..|b| - 1])[b[|b| - 1].uid := b[|b| - 1]]
  }

  function FirstOf(b: seq<Row>): map<Value, Row> {
    if b == [] then map[] else map[b[|b| - 1].uid := b[|b| - 1]] + FirstOf(b[..|b| - 1])
  }

  predicate SameVolatile(x: Row, y: Row) { x.deletedAt == y.deletedAt && x.raw == y.raw }

  predicate SameFrozen(x: Row, y: Row) { x.uid == y.uid && x.rest == y.rest }

  // What a conflict clause does.

  /** For each column that the clause sets, the column of the new row it is set from. */
  type Assignments = map<Column, Column>

  /** SET deleted_at = EXCLUDED.deleted_at, raw = EXCLUDED.raw. */
  const REFRESHED: Assignments := map[DeletedAt := DeletedAt, Raw := Raw]

  /** The stored row after the clause: the columns set come from the new row, the others stay. */
  function Assign(base: Row, r: Row, sets: Assignments): Row {
    RowWith(c => if c in sets then CellOf(r, sets[c]) else CellOf(base, c))
  }

  function UpsertBy(sets: Assignments, t: Table, r: Row): Table {
    t[r.uid := if r.uid in t then Assign(t[r.uid], r, sets) else r]
  }

  function UpsertAllBy(sets: Assignments, t: Table, b: seq<Row>): Table {
    if b == [] then t else UpsertBy(sets, UpsertAllBy(sets, t, b[..|b| - 1]), b[|b| - 1])
  }

  lemma AssignCell(base: Row, r: Row, sets: Assignments, c: Column)
    ensures CellOf(Assign(base, r, sets), c) == if c in sets then CellOf(r, sets[c]) else CellOf(base, c)
  {
    CellsOfRow(c => if c in sets then CellOf(r, sets[c]) else CellOf(base, c), c);
  }

  lemma RefreshCell(base: Row, r: Row, c: Column)
    ensures CellOf(Refresh(base, r), c) == if c == DeletedAt || c == Raw then CellOf(r, c) else CellOf(base, c)
  {
  }

  lemma RefreshedAssigns(base: Row, r: Row)
    ensures Assign(base, r, REFRESHED) == Refresh(base, r)
  {
    forall c: Column ensures CellOf(Assign(base, r, REFRESHED), c) == CellOf(Refresh(base, r), c) {
      AssignCell(base, r, REFRESHED, c);
      RefreshCell(base, r, c);
    }
    SameCellsSameRow(Assign(base, r, REFRESHED), Refresh(base, r));
  }

  /** With the right clause the statement is the upsert. */
  lemma {:induction false} RefreshedUpserts(t: Table, b: seq<Row>)
    ensures UpsertAllBy(REFRESHED, t, b) == UpsertAll(t, b)
  {
    if b != [] {
      var n := |b| - 1;
      RefreshedUpserts(t, b[..n]);
      var u := UpsertAll(t, b[..n]);
      if b[n].uid in u { RefreshedAssigns(u[b[n].uid], b[n]); }
    }
  }

  /** No cell of the one row is a cell of the other, and no two cells of r are the same. */
  ghost predicate Apart(base: Row, r: Row) {
    && (forall c: Column, d: Column :: CellOf(base, c) != CellOf(r, d))
    && (forall c: Column, d: Column :: c != d ==> CellOf(r, c) != CellOf(r, d))
  }

  lemma AssignsAt(base: Row, r: Row, sets: Assignments, c: Column)
    requires Apart(base, r) && Assign(base, r, sets) == Refresh(base, r)
    ensures c in sets <==> c == DeletedAt || c == Raw
    ensures c in sets ==> sets[c] == c
  {
    AssignCell(base, r, sets, c);
    RefreshCell(base, r, c);
  }

  /** On rows that tell all cells apart, only the right clause gives the right row. */
  lemma OnlyRefreshedAssigns(base: Row, r: Row, sets: Assignments)
    requires Apart(base, r) && Assign(base, r, sets) == Refresh(base, r)
    ensures sets == REFRESHED
  {
    forall c: Column ensures c in sets <==> c in REFRESHED ensures c in sets ==> sets[c] == c {
      AssignsAt(base, r, sets, c);
    }
  }

  // One batch.

  /** The row for key k when `founder` inserts it if it is new, and `latest` was written last. */
  function Merged(t: Table, k: Value, founder: Row, latest: Row): Row {
    Refresh(if k in t then t[k] else founder, latest)
  }

  /** One statement with the last row for each key, described key by key. */
  function BatchTable(t: Table, b: seq<Row>): Table { Overlay(t, LastOf(b)) }

  function Overlay(t: Table, last: map<Value, Row>): Table {
    map k | k in t.Keys + last.Keys :: if k in last then Merged(t, k, last[k], last[k]) else t[k]
  }

  ghost predicate IsLast(b: seq<Row>, k: Value, r: Row) {
    exists i :: 0 <= i < |b| && b[i] == r && (forall j :: i < j < |b| ==> b[j].uid != k)
  }

  /** LastOf is what its name says: the key's row stands in b and no later row has that key. */
  lemma {:induction false} LastOfMeans(b: seq<Row>, k: Value)
    ensures k in LastOf(b) <==> exists i :: 0 <= i < |b| && b[i].uid == k
    ensures k in LastOf(b) ==> LastOf(b)[k].uid == k && IsLast(b, k, LastOf(b)[k])
  {
    if b != [] {
      var n := |b| - 1;
      LastOfMeans(b[..n], k);
      if b[n].uid != k && k in LastOf(b) {
        var i :| 0 <= i < n && b[..n][i] == LastOf(b[..n])[k] && forall j :: i < j < n ==> b[..n][j].uid != k;
        assert b[i] == LastOf(b)[k];
        forall j | i < j < |b| ensures b[j].uid != k { if j < n { assert b[..n][j] == b[j]; } }
      } else if b[n].uid != k {
        forall i | 0 <= i < |b| ensures b[i].uid != k { if i < n { assert b[..n][i] == b[i]; } }
      }
    }
  }

  lemma {:induction false} LastOfSize(b: seq<Row>)
    ensures |LastOf(b)| <= |b|
  {
    if b != [] { LastOfSize(b[..|b| - 1]); }
  }

  /** `u` is what upserting b row by row makes of t, in closed form: a new row is founded by the
      first row for its key, and every key that b names ends with the last row's deleted_at and
      raw. */
  ghost predicate OneByOne(t: Table, b: seq<Row>, u: Table) {
    && FirstOf(b).Keys == LastOf(b).Keys
    && u.Keys == t.Keys + LastOf(b).Keys
    && forall k :: k in u ==>
      u[k] == if k in LastOf(b) then Merged(t, k, FirstOf(b)[k], LastOf(b)[k]) else t[k]
  }

  lemma OneByOneStep(t: Table, a: seq<Row>, r: Row, u: Table)
    requires OneByOne(t, a, u)
    ensures OneByOne(t, a + [r], Upsert(u, r))
  {
    assert (a + [r])[..|a|] == a;
  }

  lemma {:induction false} SequentialForm(t: Table, b: seq<Row>)
    ensures OneByOne(t, b, UpsertAll(t, b))
  {
    if b != [] {
      var n := |b| - 1;
      SequentialForm(t, b[..n]);
      OneByOneStep(t, b[..n], b[n], UpsertAll(t, b[..n]));
      assert b == b[..n] + [b[n]];
    }
  }

  /** Batching agrees with the one-by-one form: same keys, same deleted_at and raw everywhere, the
      same whole row for rows that existed before; and for a new row the whole row agrees exactly
      when the first and the last row for its key agree on the columns that a conflict does
      not update. */
  lemma BatchAgreesWithSequential(t: Table, b: seq<Row>, k: Value)
    ensures BatchTable(t, b).Keys == UpsertAll(t, b).Keys == t.Keys + LastOf(b).Keys
    ensures FirstOf(b).Keys == LastOf(b).Keys
    ensures k in BatchTable(t, b) ==> SameVolatile(BatchTable(t, b)[k], UpsertAll(t, b)[k])
    ensures k in t ==> BatchTable(t, b)[k] == UpsertAll(t, b)[k]
    ensures k in LastOf(b) && k !in t ==>
      (BatchTable(t, b)[k] == UpsertAll(t, b)[k] <==> SameFrozen(FirstOf(b)[k], LastOf(b)[k]))
  {
    SequentialForm(t, b);
  }

  /** Two records of one new object that differ in updated_at: in one batch the row is founded by
      the second, one by one by the first. */
  lemma BatchingShows(x: Row, y: Row)
    requires x.uid == y.uid && x.rest.updatedAt != y.rest.updatedAt
    ensures BatchTable(map[], [x, y])[x.uid].rest.updatedAt == y.rest.updatedAt
    ensures UpsertAll(map[], [x, y])[x.uid].rest.updatedAt == x.rest.updatedAt
    ensures BatchTable(map[], [x, y]) != UpsertAll(map[], [x, y])
  {
    var b := [x, y];
    assert b[..1] == [x] && [x][..0] == [];
    assert LastOf(b) == LastOf([x])[x.uid := y];
    assert UpsertAll(map[], b) == Upsert(UpsertAll(map[], [x]), y);
  }

  // Order of rows within a statement.

  predicate DistinctKeys(rows: seq<Row>) {
    forall i, j :: 0 <= i < j < |rows| ==> rows[i].uid != rows[j].uid
  }

  /** `rows` lists the deduplicated batch: each key once, with its last row, in any order. */
  ghost predicate Enumerates(rows: seq<Row>, b: seq<Row>) {
    && DistinctKeys(rows)
    && (forall i :: 0 <= i < |rows| ==> rows[i].uid in LastOf(b) && LastOf(b)[rows[i].uid] == rows[i])
    && (forall k :: k in LastOf(b) ==> LastOf(b)[k] in rows)
  }

  lemma {:induction false} DistinctLast(rows: seq<Row>, i: nat)
    requires DistinctKeys(rows) && i < |rows|
    ensures rows[i].uid in LastOf(rows) && LastOf(rows)[rows[i].uid] == rows[i]
  {
    var n := |rows| - 1;
    if i < n {
      assert rows[..n][i] == rows[i];
      DistinctLast(rows[..n], i);
    }
  }

  lemma EnumerationHasSameLast(rows: seq<Row>, b: seq<Row>)
    requires Enumerates(rows, b)
    ensures LastOf(rows) == LastOf(b) && FirstOf(rows) == LastOf(rows)
  {
    forall k ensures k in LastOf(rows) <==> k in LastOf(b)
             ensures k in LastOf(rows) ==> LastOf(rows)[k] == LastOf(b)[k]
    {
      LastOfMeans(rows, k);
      LastOfMeans(b, k);
      if k in LastOf(b) {
        var i :| 0 <= i < |rows| && rows[i] == LastOf(b)[k];
        DistinctLast(rows, i);
      }
    }
    DistinctFirst(rows);
  }

  lemma {:induction false} DistinctFirst(rows: seq<Row>)
    requires DistinctKeys(rows)
    ensures FirstOf(rows) == LastOf(rows)
  {
    if rows != [] {
      var n := |rows| - 1;
      DistinctFirst(rows[..n]);
      LastOfMeans(rows[..n], rows[n].uid);
      assert rows[n].uid !in LastOf(rows[..n]);
    }
  }

  lemma {:induction false} DistinctSize(rows: seq<Row>)
    requires DistinctKeys(rows)
    ensures |LastOf(rows)| == |rows|
  {
    if rows != [] {
      var n := |rows| - 1;
      DistinctSize(rows[..n]);
      LastOfMeans(rows[..n], rows[n].uid);
      assert rows[n].uid !in LastOf(rows[..n]);
    }
  }

  /** Deduplication never adds rows. */
  lemma EnumerationSize(rows: seq<Row>, b: seq<Row>)
    requires Enumerates(rows, b)
    ensures |rows| == |LastOf(b)| <= |b|
  {
    EnumerationHasSameLast(rows, b);
    DistinctSize(rows);
    LastOfSize(b);
  }

  /** The table does not depend on the order in which Go iterates over the dedup map. */
  lemma OrderDoesNotMatter(t: Table, b: seq<Row>, rows: seq<Row>)
    requires Enumerates(rows, b)
    ensures UpsertAll(t, rows) == BatchTable(t, b)
  {
    SequentialForm(t, rows);
    EnumerationHasSameLast(rows, b);
  }

  // Many batches.

  function Concat(bs: seq<seq<Row>>): seq<Row> {
    if bs == [] then [] else Concat(bs[..|bs| - 1]) + bs[|bs| - 1]
  }

  function Committed(t: Table, bs: seq<seq<Row>>): Table {
    if bs == [] then t else BatchTable(Committed(t, bs[..|bs| - 1]), bs[|bs| - 1])
  }

  /** For each key, its last row in the first batch that contains it. */
  function Founders(bs: seq<seq<Row>>): map<Value, Row> {
    if bs == [] then map[] else LastOf(bs[|bs| - 1]) + Founders(bs[..|bs| - 1])
  }

  lemma {:induction false} LastOfConcat(a: seq<Row>, b: seq<Row>)
    ensures LastOf(a + b) == LastOf(a) + LastOf(b)
  {
    if b == [] {
      assert a + b == a;
    } else {
      var n := |b| - 1;
      LastOfConcat(a, b[..n]);
      assert (a + b)[..|a + b| - 1] == a + b[..n];
    }
  }

  /** `u` is t after batches with these founders and these last rows. */
  ghost predicate AccountOf(t: Table, founders: map<Value, Row>, last: map<Value, Row>, u: Table) {
    && founders.Keys == last.Keys
    && u.Keys == t.Keys + last.Keys
    && forall k :: k in u ==> u[k] == if k in last then Merged(t, k, founders[k], last[k]) else t[k]
  }

  ghost predicate Account(t: Table, bs: seq<seq<Row>>, u: Table) {
    AccountOf(t, Founders(bs), LastOf(Concat(bs)), u)
  }

  lemma AccountOfStep(t: Table, f: map<Value, Row>, l: map<Value, Row>, u: Table, n: map<Value, Row>)
    requires AccountOf(t, f, l, u)
    ensures AccountOf(t, n + f, l + n, Overlay(u, n))
  {
  }

  lemma AccountStep(t: Table, bs: seq<seq<Row>>, b: seq<Row>, u: Table)
    requires Account(t, bs, u)
    ensures Account(t, bs + [b], BatchTable(u, b))
  {
    AccountOfStep(t, Founders(bs), LastOf(Concat(bs)), u, LastOf(b));
    assert (bs + [b])[..|bs|] == bs;
    LastOfConcat(Concat(bs), b);
    assert LastOf(Concat(bs + [b])) == LastOf(Concat(bs)) + LastOf(b);
    assert Founders(bs + [b]) == LastOf(b) + Founders(bs);
  }

  /** Over all successful batches: deleted_at and raw come from the last row for the key, the
      other columns from the row that was there, or else from the key's last row in the first
      batch that contains it. */
  lemma {:induction false} CommittedForm(t: Table, bs: seq<seq<Row>>)
    ensures Account(t, bs, Committed(t, bs))
  {
    if bs != [] {
      var n := |bs| - 1;
      CommittedForm(t, bs[..n]);
      AccountStep(t, bs[..n], bs[n], Committed(t, bs[..n]));
      assert bs == bs[..n] + [bs[n]];
    }
  }

  /** However the stream is cut into batches, deleted_at and raw are those of the one-by-one form
      of the whole stream; rows that existed before agree on every column; and a new row agrees
      on every column exactly when the last row of the first batch that has its key agrees with
      the key's very first row on the columns that a conflict does not update. */
  lemma CutsDoNotMatter(t: Table, bs: seq<seq<Row>>, k: Value)
    ensures Committed(t, bs).Keys == UpsertAll(t, Concat(bs)).Keys
    ensures k in Committed(t, bs) ==> SameVolatile(Committed(t, bs)[k], UpsertAll(t, Concat(bs))[k])
    ensures k in t ==> k in Committed(t, bs) && Committed(t, bs)[k] == UpsertAll(t, Concat(bs))[k]
    ensures Founders(bs).Keys == FirstOf(Concat(bs)).Keys == LastOf(Concat(bs)).Keys
    ensures k in LastOf(Concat(bs)) && k !in t ==>
      k in Committed(t, bs) &&
      (Committed(t, bs)[k] == UpsertAll(t, Concat(bs))[k] <==> SameFrozen(Founders(bs)[k], FirstOf(Concat(bs))[k]))
  {
    CommittedForm(t, bs);
    SequentialForm(t, Concat(bs));
  }

  /** Once a row is there, no batch changes any column but deleted_at and raw. */
  lemma FrozenForEver(t: Table, bs: seq<seq<Row>>, k: Value)
    requires k in t
    ensures k in Committed(t, bs) && SameFrozen(Committed(t, bs)[k], t[k])
  {
    CommittedForm(t, bs);
  }
}
