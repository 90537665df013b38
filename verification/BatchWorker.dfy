/** The batch writer of internal/batch/worker.go: the receive/tick/stop loop, the buffer, and one
    upsert statement per flush. The database table is a field; whether the server answers a
    statement without error is an input. */
module BatchWorker {
  import opened Jobs
  import opened Records
  import opened UpsertTable
  import S = Statement
  import L = ColumnList

  /** What the select statement takes next, and whether a statement sent then would succeed. */
  datatype Event = Receive(rec: Record, up: bool) | Tick(up: bool) | Stop(up: bool)

  datatype Flushed = Flushed(batch: seq<Record>, ok: bool)

  /** `rowsAdded` is the total passed to AddDBInsertRows; `log` is the history of flushes. */
  datatype State = State(
    buffer: seq<Record>, table: Table, rowsAdded: nat, failures: nat, log: seq<Flushed>)

  function Start(t: Table): State { State([], t, 0, 0, []) }

  function Flush(s: State, up: bool): State {
    if s.buffer == [] then s else
    if up then State([], BatchTable(s.table, ToRows(s.buffer)), s.rowsAdded + |s.buffer|, s.failures,
                     s.log + [Flushed(s.buffer, true)])
    else State([], s.table, s.rowsAdded, s.failures + 1, s.log + [Flushed(s.buffer, false)])
  }

  function Step(maxBatch: nat, s: State, e: Event): State {
    match e
    case Receive(r, up) =>
      var t := s.(buffer := s.buffer + [r]);
      if |t.buffer| >= maxBatch then Flush(t, up) else t
    case Tick(up) => Flush(s, up)
    case Stop(up) => Flush(s, up)
  }

  function Run(maxBatch: nat, s: State, es: seq<Event>): State
    decreases |es|
  {
    if es == [] then s else
    var t := Step(maxBatch, s, es[0]);
    if es[0].Stop? then t else Run(maxBatch, t, es[1..])
  }

  class Worker {
    const maxBatch: nat
    const columns: seq<string>
    var buffer: seq<Record>
    var table: Table
    var rowsAdded: nat
    var failures: nat
    ghost var log: seq<Flushed>

    ghost predicate Valid() { L.InOrder(columns) }

    ghost function View(): State
      reads this
    {
      State(buffer, table, rowsAdded, failures, log)
    }

    constructor (maxBatch: nat, table: Table)
      ensures Valid() && this.maxBatch == maxBatch && View() == Start(table)
    {
      var columns := L.ParseColumns(L.Lines(L.COLUMNS));
      L.AssetInOrder();
      this.maxBatch := maxBatch;
      this.columns := columns;
      this.buffer := [];
      this.table := table;
      this.rowsAdded := 0;
      this.failures := 0;
      this.log := [];
    }

    /** Writes the statement and sends it; a failed one is only counted. */
    method SyncBuffer(up: bool)
      requires Valid()
      modifies this`table, this`rowsAdded, this`failures
      ensures buffer != [] && up ==>
        table == BatchTable(old(table), ToRows(buffer)) &&
        rowsAdded == old(rowsAdded) + |buffer| && failures == old(failures)
      ensures buffer != [] && !up ==>
        table == old(table) && rowsAdded == old(rowsAdded) && failures == old(failures) + 1
      ensures buffer == [] ==>
        table == old(table) && rowsAdded == old(rowsAdded) && failures == old(failures)
    {
      var sent, answer := S.Exchange(table, columns, buffer, up);
      if !sent { return; }
      match answer
      case None =>
        failures := failures + 1;
      case Some(t) =>
        table := t;
        rowsAdded := rowsAdded + |buffer|;
    }

    method FlushBuffer(up: bool)
      requires Valid()
      modifies this
      ensures View() == Flush(old(View()), up)
    {
      if |buffer| == 0 { return; }
      SyncBuffer(up);
      log := log + [Flushed(buffer, up)];
      buffer := [];
    }

    /** The batch loop, over what its select statement takes. */
    method RunLoop(es: seq<Event>)
      requires Valid()
      modifies this
      ensures View() == Run(maxBatch, old(View()), es)
    {
      var i := 0;
      while i < |es|
        invariant 0 <= i <= |es|
        invariant Run(maxBatch, View(), es[i..]) == Run(maxBatch, old(View()), es)
      {
        assert es[i..][0] == es[i] && es[i..][1..] == es[i + 1..];
        match es[i] {
          case Receive(rec, up) =>
            buffer := buffer + [rec];
            if |buffer| >= maxBatch {
              FlushBuffer(up);
            }
          case Tick(up) =>
            if |buffer| > 0 {
              FlushBuffer(up);
            }
          case Stop(up) =>
            if |buffer| > 0 {
              FlushBuffer(up);
            }
            return;
        }
        i := i + 1;
      }
    }
  }

  // Main results: what every run keeps.

  /** The records the loop takes before it returns. */
  function Taken(es: seq<Event>): seq<Record> {
    if es == [] then [] else
    match es[0]
    case Receive(r, _) => [r] + Taken(es[1..])
    case Tick(_) => Taken(es[1..])
    case Stop(_) => []
  }

  function FlushedRecords(log: seq<Flushed>): seq<Record> {
    if log == [] then [] else FlushedRecords(log[..|log| - 1]) + log[|log| - 1].batch
  }

  /** The batches whose statement succeeded. */
  function Written(log: seq<Flushed>): seq<seq<Row>> {
    if log == [] then [] else
    var f := log[|log| - 1];
    Written(log[..|log| - 1]) + if f.ok then [ToRows(f.batch)] else []
  }

  /** Records in successful, and in failed, batches; and rows the statements named. */
  function Sizes(log: seq<Flushed>, ok: bool): nat {
    if log == [] then 0 else
    var f := log[|log| - 1];
    Sizes(log[..|log| - 1], ok) + if f.ok == ok then |f.batch| else 0
  }

  function Failures(log: seq<Flushed>): nat {
    if log == [] then 0 else Failures(log[..|log| - 1]) + if log[|log| - 1].ok then 0 else 1
  }

  function RowsNamed(bs: seq<seq<Row>>): nat {
    if bs == [] then 0 else RowsNamed(bs[..|bs| - 1]) + |LastOf(bs[|bs| - 1])|
  }

  function Limit(maxBatch: nat): nat { if maxBatch == 0 then 1 else maxBatch }

  /** After receiving `got`, starting from table t: nothing received is lost or duplicated, the
      table is what the successful batches make of t, the counters count, and no batch is empty
      or larger than the limit. */
  ghost predicate Accounted(maxBatch: nat, t: Table, got: seq<Record>, s: State) {
    && FlushedRecords(s.log) + s.buffer == got
    && s.table == Committed(t, Written(s.log))
    && s.rowsAdded == Sizes(s.log, true) && s.failures == Failures(s.log)
    && |s.buffer| < Limit(maxBatch)
    && BatchesFit(maxBatch, s.log)
  }

  predicate BatchesFit(maxBatch: nat, log: seq<Flushed>) {
    forall i :: 0 <= i < |log| ==> 0 < |log[i].batch| <= Limit(maxBatch)
  }

  lemma BatchesStillFit(maxBatch: nat, log: seq<Flushed>, f: Flushed)
    requires BatchesFit(maxBatch, log) && 0 < |f.batch| <= Limit(maxBatch)
    ensures BatchesFit(maxBatch, log + [f])
  {
  }

  lemma LogGrows(log: seq<Flushed>, f: Flushed)
    ensures FlushedRecords(log + [f]) == FlushedRecords(log) + f.batch
    ensures Written(log + [f]) == Written(log) + if f.ok then [ToRows(f.batch)] else []
    ensures Sizes(log + [f], true) == Sizes(log, true) + if f.ok then |f.batch| else 0
    ensures Failures(log + [f]) == Failures(log) + if f.ok then 0 else 1
  {
    assert (log + [f])[..|log|] == log;
  }

  lemma CommittedSnoc(t: Table, bs: seq<seq<Row>>, b: seq<Row>)
    ensures Committed(t, bs + [b]) == BatchTable(Committed(t, bs), b)
  {
    assert (bs + [b])[..|bs|] == bs;
  }

  lemma FlushUp(maxBatch: nat, t: Table, got: seq<Record>, s: State)
    requires 0 < |s.buffer| <= Limit(maxBatch)
    requires Accounted(maxBatch, t, FlushedRecords(s.log), s.(buffer := []))
    requires FlushedRecords(s.log) + s.buffer == got
    ensures Accounted(maxBatch, t, got, Flush(s, true))
  {
    LogGrows(s.log, Flushed(s.buffer, true));
    BatchesStillFit(maxBatch, s.log, Flushed(s.buffer, true));
    CommittedSnoc(t, Written(s.log), ToRows(s.buffer));
    assert got + [] == got;
  }

  lemma FlushDown(maxBatch: nat, t: Table, got: seq<Record>, s: State)
    requires 0 < |s.buffer| <= Limit(maxBatch)
    requires Accounted(maxBatch, t, FlushedRecords(s.log), s.(buffer := []))
    requires FlushedRecords(s.log) + s.buffer == got
    ensures Accounted(maxBatch, t, got, Flush(s, false))
  {
    LogGrows(s.log, Flushed(s.buffer, false));
    BatchesStillFit(maxBatch, s.log, Flushed(s.buffer, false));
    assert Written(s.log) + [] == Written(s.log) && got + [] == got;
  }

  lemma FlushAccounts(maxBatch: nat, t: Table, got: seq<Record>, s: State, up: bool)
    requires |s.buffer| <= Limit(maxBatch)
    requires Accounted(maxBatch, t, FlushedRecords(s.log), s.(buffer := []))
    requires FlushedRecords(s.log) + s.buffer == got
    ensures Accounted(maxBatch, t, got, Flush(s, up))
  {
    if s.buffer != [] {
      if up { FlushUp(maxBatch, t, got, s); } else { FlushDown(maxBatch, t, got, s); }
    }
  }

  function Took(e: Event): seq<Record> { if e.Receive? then [e.rec] else [] }

  lemma StepAccounts(maxBatch: nat, t: Table, got: seq<Record>, s: State, e: Event)
    requires Accounted(maxBatch, t, got, s)
    ensures Accounted(maxBatch, t, got + Took(e), Step(maxBatch, s, e))
    ensures e.Tick? || e.Stop? ==> Step(maxBatch, s, e).buffer == []
  {
    assert FlushedRecords(s.log) + [] == FlushedRecords(s.log);
    if e.Receive? {
      var u := s.(buffer := s.buffer + [e.rec]);
      assert FlushedRecords(u.log) + u.buffer == got + [e.rec];
      if |u.buffer| >= maxBatch { FlushAccounts(maxBatch, t, got + [e.rec], u, e.up); }
    } else {
      assert got + [] == got;
      FlushAccounts(maxBatch, t, got, s, e.up);
    }
  }

  lemma TakenFirst(es: seq<Event>, got: seq<Record>)
    requires es != []
    ensures got + Taken(es) == got + Took(es[0]) + if es[0].Stop? then [] else Taken(es[1..])
  {
  }

  lemma {:induction false} RunAccounts(maxBatch: nat, t: Table, got: seq<Record>, s: State, es: seq<Event>)
    requires Accounted(maxBatch, t, got, s)
    ensures Accounted(maxBatch, t, got + Taken(es), Run(maxBatch, s, es))
    decreases |es|
  {
    if es == [] {
      assert got + Taken(es) == got;
    } else {
      StepAccounts(maxBatch, t, got, s, es[0]);
      TakenFirst(es, got);
      if es[0].Stop? {
        assert got + Taken(es) == got + Took(es[0]);
      } else {
        RunAccounts(maxBatch, t, got + Took(es[0]), Step(maxBatch, s, es[0]), es[1..]);
      }
    }
  }

  predicate HasStop(es: seq<Event>) { exists i :: 0 <= i < |es| && es[i].Stop? }

  lemma {:induction false} StopEmpties(maxBatch: nat, s: State, es: seq<Event>)
    requires HasStop(es)
    ensures Run(maxBatch, s, es).buffer == []
    decreases |es|
  {
    if !es[0].Stop? {
      var i :| 0 <= i < |es| && es[i].Stop?;
      assert es[1..][i - 1].Stop?;
      StopEmpties(maxBatch, Step(maxBatch, s, es[0]), es[1..]);
    }
  }

  /** Every run, whatever the interleaving of receives, ticks and stop and whichever statements
      fail, is accounted for; and a stop leaves nothing in the buffer. */
  lemma EveryRunAccounted(maxBatch: nat, t: Table, es: seq<Event>)
    ensures Accounted(maxBatch, t, Taken(es), Run(maxBatch, Start(t), es))
    ensures HasStop(es) ==> Run(maxBatch, Start(t), es).buffer == []
  {
    if HasStop(es) { StopEmpties(maxBatch, Start(t), es); }
    RunAccounts(maxBatch, t, [], Start(t), es);
    assert [] + Taken(es) == Taken(es);
  }

  /** When a statement is sent: a receive sends one exactly if it fills the buffer to maxBatch, a tick
      and a stop exactly if there is something in the buffer. */
  lemma FlushesExactly(maxBatch: nat, s: State, e: Event)
    ensures |Step(maxBatch, s, e).log| ==
      |s.log| + if (if e.Receive? then maxBatch <= |s.buffer| + 1 else 0 < |s.buffer|) then 1 else 0
    ensures Step(maxBatch, s, e).log[..|s.log|] == s.log
  {
  }

  predicate OnlyReceives(es: seq<Event>) { forall i :: 0 <= i < |es| ==> es[i].Receive? }

  lemma {:induction false} FullBatches(maxBatch: nat, s: State, es: seq<Event>)
    requires OnlyReceives(es) && |s.buffer| < Limit(maxBatch)
    requires forall i :: 0 <= i < |s.log| ==> |s.log[i].batch| == Limit(maxBatch)
    ensures
      var t := Run(maxBatch, s, es);
      && |t.buffer| < Limit(maxBatch)
      && (forall i :: 0 <= i < |t.log| ==> |t.log[i].batch| == Limit(maxBatch))
      && Limit(maxBatch) * |t.log| + |t.buffer| == Limit(maxBatch) * |s.log| + |s.buffer| + |es|
    decreases |es|
  {
    if es != [] {
      var t := Step(maxBatch, s, es[0]);
      FlushesExactly(maxBatch, s, es[0]);
      FullStep(maxBatch, s, es[0]);
      FullBatches(maxBatch, t, es[1..]);
    }
  }

  lemma FullStep(maxBatch: nat, s: State, e: Event)
    requires e.Receive? && |s.buffer| < Limit(maxBatch)
    requires forall i :: 0 <= i < |s.log| ==> |s.log[i].batch| == Limit(maxBatch)
    ensures
      var t := Step(maxBatch, s, e);
      && |t.buffer| < Limit(maxBatch)
      && (forall i :: 0 <= i < |t.log| ==> |t.log[i].batch| == Limit(maxBatch))
      && Limit(maxBatch) * |t.log| + |t.buffer| == Limit(maxBatch) * |s.log| + |s.buffer| + 1
  {
    var t, k := Step(maxBatch, s, e), Limit(maxBatch);
    if |t.log| == |s.log| + 1 { assert k * |t.log| == k * |s.log| + k; }
  }

  /** Without ticks, n records make exactly n / maxBatch statements of maxBatch records each, and the
      rest waits in the buffer. */
  lemma BatchesAreFull(maxBatch: nat, t: Table, es: seq<Event>)
    requires OnlyReceives(es)
    ensures
      var s := Run(maxBatch, Start(t), es);
      && |es| == Limit(maxBatch) * |s.log| + |s.buffer| && |s.buffer| < Limit(maxBatch)
      && forall i :: 0 <= i < |s.log| ==> |s.log[i].batch| == Limit(maxBatch)
  {
    FullBatches(maxBatch, Start(t), es);
  }

  lemma {:induction false} SizesAddUp(log: seq<Flushed>)
    ensures |FlushedRecords(log)| == Sizes(log, true) + Sizes(log, false)
    ensures RowsNamed(Written(log)) <= Sizes(log, true)
  {
    if log != [] {
      var n := |log| - 1;
      SizesAddUp(log[..n]);
      if log[n].ok {
        LastOfSize(ToRows(log[n].batch));
        var bs := Written(log[..n]) + [ToRows(log[n].batch)];
        assert bs[..|bs| - 1] == Written(log[..n]);
      } else {
        assert Written(log) == Written(log[..n]);
      }
    }
  }

  /** Conservation: received = records in successful batches (the AddDBInsertRows total) + records
      in failed batches + buffered; and the statements never named more rows than that total. */
  lemma RecordsConserved(maxBatch: nat, t: Table, es: seq<Event>)
    ensures
      var s := Run(maxBatch, Start(t), es);
      && |Taken(es)| == s.rowsAdded + Sizes(s.log, false) + |s.buffer|
      && RowsNamed(Written(s.log)) <= s.rowsAdded
      && |s.buffer| < Limit(maxBatch)
  {
    EveryRunAccounted(maxBatch, t, es);
    SizesAddUp(Run(maxBatch, Start(t), es).log);
  }

  lemma ToRowsSum(a: seq<Record>, b: seq<Record>)
    ensures ToRows(a + b) == ToRows(a) + ToRows(b)
  {
  }

  lemma ConcatSnoc(bs: seq<seq<Row>>, b: seq<Row>)
    ensures Concat(bs + [b]) == Concat(bs) + b
  {
    assert (bs + [b])[..|bs|] == bs;
  }

  lemma {:induction false} AllWritten(log: seq<Flushed>)
    requires forall i :: 0 <= i < |log| ==> log[i].ok
    ensures Concat(Written(log)) == ToRows(FlushedRecords(log))
  {
    if log != [] {
      var n := |log| - 1;
      AllWritten(log[..n]);
      ConcatSnoc(Written(log[..n]), ToRows(log[n].batch));
      ToRowsSum(FlushedRecords(log[..n]), log[n].batch);
    }
  }

  /** When no statement fails, deleted_at and raw of every row are those of upserting all flushed
      records one by one, so they do not depend on where the batches were cut; rows that were in
      the table before agree on every column, and a new row does exactly when its founder agrees
      with its first record on the columns that a conflict does not update. */
  lemma BatchingIsTransparent(maxBatch: nat, t: Table, es: seq<Event>, k: Value)
    requires Run(maxBatch, Start(t), es).failures == 0
    ensures
      var s := Run(maxBatch, Start(t), es);
      var one := UpsertAll(t, ToRows(FlushedRecords(s.log)));
      && s.table.Keys == one.Keys
      && (k in s.table ==> SameVolatile(s.table[k], one[k]))
      && (k in t ==> k in s.table && s.table[k] == one[k])
    ensures
      var s := Run(maxBatch, Start(t), es);
      var all := ToRows(FlushedRecords(s.log));
      var founders := Founders(Written(s.log));
      k in s.table && k !in t ==>
        k in founders && k in FirstOf(all) && k in UpsertAll(t, all) &&
        (s.table[k] == UpsertAll(t, all)[k] <==> SameFrozen(founders[k], FirstOf(all)[k]))
    ensures
      var s := Run(maxBatch, Start(t), es);
      FlushedRecords(s.log) + s.buffer == Taken(es)
  {
    EveryRunAccounted(maxBatch, t, es);
    var s := Run(maxBatch, Start(t), es);
    NoFailures(s.log);
    AllWritten(s.log);
    CutsDoNotMatter(t, Written(s.log), k);
    CommittedForm(t, Written(s.log));
  }

  lemma {:induction false} NoFailures(log: seq<Flushed>)
    requires Failures(log) == 0
    ensures forall i :: 0 <= i < |log| ==> log[i].ok
  {
    if log != [] {
      NoFailures(log[..|log| - 1]);
      forall i | 0 <= i < |log| ensures log[i].ok { if i < |log| - 1 { assert log[..|log| - 1][i].ok; } }
    }
  }

  /** With failures allowed: a row that was there keeps every column but deleted_at and raw; a new
      row has the other columns of its key's last record in the first successful batch that
      contains it; and deleted_at and raw are those of the key's last successfully written record. */
  lemma RowsExplained(maxBatch: nat, t: Table, es: seq<Event>)
    ensures
      var s := Run(maxBatch, Start(t), es);
      AccountOf(t, Founders(Written(s.log)), LastOf(Concat(Written(s.log))), s.table)
  {
    EveryRunAccounted(maxBatch, t, es);
    CommittedForm(t, Written(Run(maxBatch, Start(t), es).log));
  }

  /** From any point of a run on, a stored row never changes outside deleted_at and raw. */
  lemma {:induction false} StoredRowsFrozen(maxBatch: nat, s: State, es: seq<Event>, k: Value)
    requires k in s.table
    ensures k in Run(maxBatch, s, es).table
    ensures SameFrozen(Run(maxBatch, s, es).table[k], s.table[k])
    decreases |es|
  {
    if es != [] && !es[0].Stop? {
      StoredRowsFrozen(maxBatch, Step(maxBatch, s, es[0]), es[1..], k);
    }
  }

  /** No statement of a run carries more than 15 * maxBatch parameters (15 when maxBatch is 0). */
  lemma ParametersBounded(maxBatch: nat, t: Table, es: seq<Event>, i: nat, rs: seq<Record>)
    requires i < |Run(maxBatch, Start(t), es).log|
    requires Enumerates(ToRows(rs), ToRows(Run(maxBatch, Start(t), es).log[i].batch))
    ensures |S.Values(rs)| <= FIELDS * Limit(maxBatch)
  {
    EveryRunAccounted(maxBatch, t, es);
    EnumerationSize(ToRows(rs), ToRows(Run(maxBatch, Start(t), es).log[i].batch));
  }
}
