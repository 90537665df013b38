/** What the storage handlers make of objects that they share: the deletion timestamp in deleted_at
    and in raw, what the callbacks report, and runs in which these go wrong. */
module SharedRecords {
  import opened Jobs
  import opened Records
  import opened RouterKeys
  import opened WorkerPool
  import opened SharedObjects
  import S = Storage
  import M = Manager

  // Main results: the record of a storage handler.

  function RecordOf(w: Written, cluster: string,
                    encode: Object -> seq<byte>, encodeStatus: string -> seq<byte>): Option<Record>
  {
    S.BuildRecord(w.built, encode(w.encoded), w.e.resource, cluster, w.later, encodeStatus)
  }

  /** After change `mark`, made for `op`, and before change `end`, another handler changes the object
      to the opposite, and no handler changes it back. */
  ghost predicate Undone(ms: seq<Mark>, r: Ref, op: M.Operation, mark: nat, end: nat)
    requires end <= |ms|
  {
    exists j :: mark < j < end && ms[j].r == r && ms[j].op != op &&
      forall i :: j < i < end && ms[i].r == r ==> ms[i].op != op
  }

  lemma FlagOf(t: Option<int>, ms: seq<Mark>, r: Ref, mark: nat)
    requires Proper(ms) && mark < |ms| && ms[mark].r == r
    ensures (Now(t, ms, r).Some? <==> ms[mark].op == M.Delete) <==> !Undone(ms, r, ms[mark].op, mark, |ms|)
  {
    var j := LastChange(ms, r, mark);
    LastDecides(t, ms, r, j);
    if ms[j].op != ms[mark].op {
      assert forall i :: j < i < |ms| && ms[i].r == r ==> ms[i].op != ms[mark].op;
    }
  }

  lemma UndoneInPrefix(ms: seq<Mark>, r: Ref, op: M.Operation, mark: nat, end: nat)
    requires end <= |ms|
    ensures Undone(ms[..end], r, op, mark, end) <==> Undone(ms, r, op, mark, end)
  {
    assert forall i :: 0 <= i < end ==> ms[..end][i] == ms[i];
    if Undone(ms, r, op, mark, end) {
      var j :| mark < j < end && ms[j].r == r && ms[j].op != op &&
        forall i :: j < i < end && ms[i].r == r ==> ms[i].op != op;
      assert ms[..end][j] == ms[j];
    }
  }

  lemma FlagAt(s: State, w: Written, end: nat)
    requires Histories(s) && GoodWritten(s, w) && w.mark < end <= |s.marks|
    ensures (At(s.born, s.marks[..end], w.e.r).deletedAt.Some? <==> w.e.op == M.Delete)
       <==> !Undone(s.marks, w.e.r, w.e.op, w.mark, end)
  {
    ProperMarks(s);
    var ms := s.marks[..end];
    assert ms[w.mark] == s.marks[w.mark];
    FlagOf(s.born[w.e.r].deletedAt, ms, w.e.r, w.mark);
    UndoneInPrefix(s.marks, w.e.r, w.e.op, w.mark, end);
  }

  /** Over every run: the record of a handler has the right deleted_at flag exactly when no opposite
      in-place change of the same object, by another handler, is the last one to fall between its
      own change and its reading of deleted_at; and its raw has the right one exactly when none
      falls so before the encoding. */
  lemma FlagRightExactly(ls: seq<Label>, w: Written)
    requires Valid(Init(), ls) && w in Final(Init(), ls).written
    ensures
      var ms := Final(Init(), ls).marks;
      && w.mark < w.encodedAt <= w.builtAt <= |ms| && ms[w.mark] == Mark(w.e.r, w.e.op, w.now)
      && ((w.built.deletedAt.Some? <==> w.e.op == M.Delete) <==> !Undone(ms, w.e.r, w.e.op, w.mark, w.builtAt))
      && ((w.encoded.deletedAt.Some? <==> w.e.op == M.Delete) <==> !Undone(ms, w.e.r, w.e.op, w.mark, w.encodedAt))
  {
    InitInv();
    RunKeeps(Init(), ls);
    var s := Final(Init(), ls);
    assert GoodWritten(s, w);
    FlagAt(s, w, w.builtAt);
    FlagAt(s, w, w.encodedAt);
  }

  /** Nobody else changes the object between the handler's change and its record. */
  ghost predicate Alone(ms: seq<Mark>, w: Written) {
    forall j :: w.mark < j < w.builtAt && j < |ms| ==> ms[j].r != w.e.r
  }

  lemma AloneAt(s: State, w: Written, end: nat)
    requires GoodWritten(s, w) && Alone(s.marks, w) && w.mark < end <= w.builtAt
    ensures At(s.born, s.marks[..end], w.e.r) == S.Normalise(w.e.op, At(s.born, s.marks[..w.mark], w.e.r), w.now)
  {
    var r, k, t := w.e.r, w.mark + 1, s.born[w.e.r].deletedAt;
    var ms := s.marks[..end];
    assert Untouched(ms, r, k);
    UntouchedStays(t, ms, r, k);
    assert ms[..k] == s.marks[..w.mark] + [s.marks[w.mark]];
    NowSnoc(t, s.marks[..w.mark], s.marks[w.mark], r);
    NormaliseStamps(w.e.op, At(s.born, s.marks[..w.mark], r), w.now);
  }

  /** A handler that nobody disturbs does what it would do to a value: its record is that of the
      object as it found it. */
  lemma UndisturbedStores(s: State, w: Written, cluster: string,
                          encode: Object -> seq<byte>, encodeStatus: string -> seq<byte>)
    requires GoodWritten(s, w) && Alone(s.marks, w)
    ensures
      var found := At(s.born, s.marks[..w.mark], w.e.r);
      RecordOf(w, cluster, encode, encodeStatus)
      == S.Store(w.e.op, found, w.e.resource, cluster, w.now, w.later, encode, encodeStatus)
  {
    AloneAt(s, w, w.encodedAt);
    AloneAt(s, w, w.builtAt);
  }

  ghost predicate AllAlone(s: State) {
    && (forall h :: h in s.handlers ==> Untouched(s.marks, s.handlers[h].e.r, s.handlers[h].mark + 1))
    && (forall w :: w in s.written ==> w.builtAt <= |s.marks| && Alone(s.marks, w))
  }

  lemma ApartKeeps(s: State, l: Label)
    requires AllAlone(s) && Enabled(s, l) && ApartStep(s, l)
    ensures AllAlone(Apply(s, l))
  {
    var t := Apply(s, l);
    forall w | w in t.written ensures w.builtAt <= |t.marks| && Alone(t.marks, w) {
      if w in s.written { assert Alone(s.marks, w); }
    }
  }

  lemma {:induction false} ApartRun(s: State, ls: seq<Label>)
    requires AllAlone(s) && Valid(s, ls) && Apart(s, ls)
    ensures AllAlone(Final(s, ls))
    decreases |ls|
  {
    if ls != [] {
      ApartKeeps(s, ls[0]);
      ApartRun(Apply(s, ls[0]), ls[1..]);
    }
  }

  /** The changes up to and including the handler's own. */
  function UpTo(ms: seq<Mark>, w: Written): seq<Mark>
    requires w.mark < |ms|
  {
    ms[..w.mark + 1]
  }

  /** The clock of the first delete handled from change `from` on. */
  ghost predicate ClockSince(ms: seq<Mark>, r: Ref, from: nat, t: Option<int>) {
    exists j: nat :: FirstSet(ms, r, from, j) && t == Some(ms[j].now)
  }

  /** `t` is what a delete, whose change is the last of `ms`, leaves on r, delivered with `own`: its
      own timestamp if no update of the object was handled before; otherwise, and where it has none,
      the clock of the first delete handled since the last such update. */
  ghost predicate DeleteLeaves(own: Option<int>, ms: seq<Mark>, r: Ref, t: Option<int>) {
    && (own.Some? && NoClear(ms, r, 0) ==> t == own)
    && (own.None? && NoClear(ms, r, 0) ==> ClockSince(ms, r, 0, t))
    && (forall i: nat :: i < |ms| && Clears(ms[i], r) && NoClear(ms, r, i + 1) ==> ClockSince(ms, r, i + 1, t))
  }

  lemma LeavesSince(own: Option<int>, ms: seq<Mark>, r: Ref, from: nat)
    requires ms != [] && Proper(ms) && Sets(ms[|ms| - 1], r) && from < |ms| && NoClear(ms, r, from)
    ensures
      var p := Now(own, ms[..from], r);
      if p.Some? then Now(own, ms, r) == p else ClockSince(ms, r, from, Now(own, ms, r))
  {
    SinceClear(own, ms, r, from);
    var j := FirstSetExists(ms, r, from, |ms| - 1);
  }

  lemma ClearedAt(own: Option<int>, ms: seq<Mark>, r: Ref, i: nat)
    requires Proper(ms) && i < |ms| && Clears(ms[i], r)
    ensures Now(own, ms[..i + 1], r) == None
  {
    assert ms[..i + 1] == ms[..i] + [ms[i]];
    NowSnoc(own, ms[..i], ms[i], r);
  }

  lemma DeleteExplained(own: Option<int>, ms: seq<Mark>, r: Ref)
    requires ms != [] && Proper(ms) && Sets(ms[|ms| - 1], r)
    ensures DeleteLeaves(own, ms, r, Now(own, ms, r))
  {
    if NoClear(ms, r, 0) { LeavesSince(own, ms, r, 0); }
    forall i: nat | i < |ms| && Clears(ms[i], r) && NoClear(ms, r, i + 1)
      ensures ClockSince(ms, r, i + 1, Now(own, ms, r))
    {
      ClearedAt(own, ms, r, i);
      LeavesSince(own, ms, r, i + 1);
    }
  }

  lemma UndisturbedFlag(s: State, w: Written)
    requires Histories(s) && GoodWritten(s, w) && Alone(s.marks, w)
    ensures w.encoded == w.built
    ensures w.e.op == M.Update ==> w.built.deletedAt == None
    ensures w.e.op == M.Delete ==>
      w.built.deletedAt.Some? && DeleteLeaves(s.born[w.e.r].deletedAt, UpTo(s.marks, w), w.e.r, w.built.deletedAt)
  {
    AloneAt(s, w, w.encodedAt);
    AloneAt(s, w, w.builtAt);
    AloneAt(s, w, w.mark + 1);
    if w.e.op == M.Delete {
      ProperMarks(s);
      DeleteExplained(s.born[w.e.r].deletedAt, UpTo(s.marks, w), w.e.r);
    }
  }

  /** Over every run in which handlers of one object do not overlap: deleted_at is set exactly by the
      handlers of deletes, raw agrees with it, and its value is explained by the object's own
      timestamp and the handlers before. */
  lemma FlagRightApart(ls: seq<Label>, w: Written)
    requires Valid(Init(), ls) && Apart(Init(), ls) && w in Final(Init(), ls).written
    ensures
      var s := Final(Init(), ls);
      && w.e.r < |s.born| && w.mark < |s.marks| && w.encoded == w.built
      && (w.e.op == M.Update || w.e.op == M.Delete)
      && (w.built.deletedAt.Some? <==> w.e.op == M.Delete)
      && (w.e.op == M.Delete ==>
            DeleteLeaves(s.born[w.e.r].deletedAt, UpTo(s.marks, w), w.e.r, w.built.deletedAt))
  {
    InitInv();
    RunKeeps(Init(), ls);
    ApartRun(Init(), ls);
    UndisturbedFlag(Final(Init(), ls), w);
  }

  /** In such runs the record is the one of the object as the handler found it, which is what
      Storage says of the pipeline from the callback to the row. */
  lemma StoresApart(ls: seq<Label>, w: Written, cluster: string,
                    encode: Object -> seq<byte>, encodeStatus: string -> seq<byte>)
    requires Valid(Init(), ls) && Apart(Init(), ls) && w in Final(Init(), ls).written
    ensures
      var s := Final(Init(), ls);
      && w.e.r < |s.born| && w.mark < |s.marks|
      && var found := At(s.born, s.marks[..w.mark], w.e.r);
         RecordOf(w, cluster, encode, encodeStatus)
         == S.Store(w.e.op, found, w.e.resource, cluster, w.now, w.later, encode, encodeStatus)
  {
    InitInv();
    RunKeeps(Init(), ls);
    ApartRun(Init(), ls);
    UndisturbedStores(Final(Init(), ls), w, cluster, encode, encodeStatus);
  }

  // Main results: what the callbacks report.

  /** The last change of the object was made for an update. */
  ghost predicate LastClears(ms: seq<Mark>, r: Ref) {
    exists j: nat :: j < |ms| && Clears(ms[j], r) && Untouched(ms, r, j + 1)
  }

  /** The callback of an update to an object that the API server delivered with a deletion timestamp
      misses the deletion exactly when a handler of an update has been the last to change the
      object, which is in the cache before the callback runs. */
  lemma CallbackMissesExactly(s: State, n: Note)
    requires Inv(s) && n in s.notes && n.Changed? && n.before.Some? && NoteInRange(s, n)
    requires ItemOf(s, n).Some? && s.born[n.r].deletedAt.Some?
    ensures ItemOf(s, n).value.carried.None? <==> LastClears(s.marks, n.r)
  {
    ProperMarks(s);
    ItemCarriesDeletion(n.k.gvr, n.k.kind, CallbackOf(s, n));
    assert s.heap[n.r] == At(s.born, s.marks, n.r);
    var t := s.born[n.r].deletedAt;
    if j: nat :| j < |s.marks| && s.marks[j].r == n.r {
      var i := LastChange(s.marks, n.r, j);
      LastDecides(t, s.marks, n.r, i);
      if LastClears(s.marks, n.r) {
        var c: nat :| c < |s.marks| && Clears(s.marks[c], n.r) && Untouched(s.marks, n.r, c + 1);
        LastDecides(t, s.marks, n.r, c);
      }
    } else {
      assert Untouched(s.marks, n.r, 0);
      UntouchedStays(t, s.marks, n.r, 0);
    }
  }

  /** The value that the store holds under a key. */
  function StoredAt(s: State, k: Key): Stored
    requires HeapAged(s) && Flow(s)
  {
    if k in s.store then Found(s.heap[s.store[k]]) else Missing
  }

  /** The reconcile step is the pool's reconcile, with the values behind the pointers. */
  lemma ReconcileAgrees(s: State, item: Item, m: Registry, inf: Informer, store: (nat, string) -> Stored)
    requires HeapAged(s) && Flow(s) && GoodItem(s.keys, item)
    requires Free(item.k.gvr, item.k.kind, item.k.ns, item.k.name)
    requires Lookup(m, item.k.gvr, item.k.kind, item.k.ns) == Some(inf)
    requires store(inf.id, MetaKey(item.k.ns, item.k.name)) == StoredAt(s, item.k)
    ensures
      var key := BuildKey(item.k.gvr, item.k.kind, item.k.ns, item.k.name);
      var obj := if item.carried.Some? then Some(s.heap[item.carried.value]) else None;
      WorkerPool.Reconcile(m, store, QueueItem(key, obj)) ==
      match EventOf(s, item)
      case None => Skipped
      case Some(e) => Handled(s.heap[e.r], e.op, e.target, e.resource)
  {
    FreeRoundTrips(item.k.gvr, item.k.kind, item.k.ns, item.k.name);
  }

  // Runs that go wrong.

  /** An object o without, and its next version p with, a deletion timestamp; not a CRD. */
  predicate Versions(k: Key, o: Object, p: Object) {
    && k.gvr.group != CRD_GROUP && o.ns == p.ns == k.ns && o.name == p.name == k.name
    && o.resourceVersion != p.resourceVersion && o.deletedAt.None? && p.deletedAt.Some?
  }

  /** o was added and its item waits; p has arrived, its callback has not run. */
  function Waiting(k: Key, o: Object, p: Object): State {
    State([o, p], [k, k], [o, p], map[k := 1], [Changed(k, Some(0), 1)], [Item(k, None)], [], map[], [], [], [])
  }

  lemma WaitingReached(k: Key, o: Object, p: Object) returns (ls: seq<Label>)
    requires Versions(k, o, p)
    ensures Valid(Init(), ls) && Apart(Init(), ls) && Final(Init(), ls) == Waiting(k, o, p)
  {
    ls := AddQueued(k, o);
    Snoc(Init(), ls, Arrive(k, p)); ls := ls + [Arrive(k, p)];
    assert Final(Init(), ls) == Waiting(k, o, p);
  }

  /** Both items are reconciled while p is in the cache: an update and a delete of the same object
      are under way. */
  function BothUnderWay(k: Key, o: Object, p: Object): State {
    Waiting(k, o, p).(notes := [], queue := [],
      events := [
        Event(1, M.Update, M.StorageTarget, k.gvr.resource),
        Event(1, M.Delete, M.StorageTarget, k.gvr.resource)])
  }

  lemma ReconcileBoth(s: State, k: Key) returns (ls: seq<Label>)
    requires s.queue == [Item(k, None), Item(k, Some(1))] && k in s.store && s.store[k] == 1 && s.events == []
    requires k.gvr.group != CRD_GROUP
    ensures Valid(s, ls) && Apart(s, ls)
    ensures Final(s, ls) == s.(queue := [], events := [
      Event(1, M.Update, M.StorageTarget, k.gvr.resource), Event(1, M.Delete, M.StorageTarget, k.gvr.resource)])
  {
    ls := [];
    assert Final(s, ls) == s;
    Snoc(s, ls, Reconcile(0)); ls := ls + [Reconcile(0)];
    Snoc(s, ls, Reconcile(0)); ls := ls + [Reconcile(0)];
  }

  lemma BothReached(k: Key, o: Object, p: Object) returns (ls: seq<Label>)
    requires Versions(k, o, p)
    ensures Valid(Init(), ls) && Apart(Init(), ls) && Final(Init(), ls) == BothUnderWay(k, o, p)
  {
    ls := WaitingReached(k, o, p);
    Snoc(Init(), ls, Deliver(0)); ls := ls + [Deliver(0)];
    var s := Final(Init(), ls);
    assert s == Waiting(k, o, p).(notes := [], queue := [Item(k, None), Item(k, Some(1))]);
    var ms := ReconcileBoth(s, k);
    Append(Init(), ls, ms);
    ls := ls + ms;
  }

  /** A handler runs from start to end without interruption. */
  lemma HandleOne(s: State, now: int) returns (ls: seq<Label>)
    requires s.events != [] && s.events[0].target == M.StorageTarget && s.events[0].r < |s.heap| && s.handlers == map[]
    ensures Valid(s, ls) && Apart(s, ls)
    ensures
      var e, t := s.events[0], Final(s, ls);
      var o := S.Normalise(e.op, s.heap[e.r], now);
      t == s.(events := s.events[1..], heap := s.heap[e.r := o], marks := s.marks + [Mark(e.r, e.op, now)],
              written := s.written + [Written(e, |s.marks|, now, |s.marks| + 1, o, |s.marks| + 1, o, now)])
  {
    ls := [];
    assert Final(s, ls) == s;
    Snoc(s, ls, Change(0, 0, now)); ls := ls + [Change(0, 0, now)];
    Snoc(s, ls, Encode(0)); ls := ls + [Encode(0)];
    Snoc(s, ls, Build(0, now)); ls := ls + [Build(0, now)];
    assert Final(s, ls).handlers == map[];
    assert Final(s, ls).events == s.events[1..];
  }

  /** The object's own timestamp is lost although handlers do not overlap: a queued item finds p in
      the cache, its handler clears the timestamp, and the handler of the deletion of p then sets
      its clock. */
  lemma TimestampLost(k: Key, o: Object, p: Object, now: int, later: int) returns (ls: seq<Label>)
    requires Versions(k, o, p)
    ensures Valid(Init(), ls) && Apart(Init(), ls)
    ensures
      var s := Final(Init(), ls);
      && |s.written| == 2 && s.written[1].e.r == 1 && s.written[1].e.op == M.Delete
      && s.born == [o, p] && s.written[1].built == p.(deletedAt := Some(later))
  {
    ls := BothReached(k, o, p);
    var s := Final(Init(), ls);
    var first := HandleOne(s, now);
    Append(Init(), ls, first);
    ls := ls + first;
    var second := HandleOne(Final(Init(), ls), later);
    Append(Init(), ls, second);
    ls := ls + second;
  }

  /** The flag is lost: the handler of the update clears the timestamp between the change and the
      record of the handler of the deletion. */
  lemma FlagLost(k: Key, o: Object, p: Object, now: int) returns (ls: seq<Label>)
    requires Versions(k, o, p)
    ensures Valid(Init(), ls)
    ensures
      var s := Final(Init(), ls);
      && |s.written| == 1 && s.written[0].e.r == 1 && s.written[0].e.op == M.Delete
      && s.born == [o, p] && s.written[0].built.deletedAt == None
  {
    var q := Init();
    ls := BothReached(k, o, p);
    Snoc(q, ls, Change(1, 0, now)); ls := ls + [Change(1, 0, now)];
    Snoc(q, ls, Change(0, 1, now)); ls := ls + [Change(0, 1, now)];
    Snoc(q, ls, Encode(0)); ls := ls + [Encode(0)];
    Snoc(q, ls, Build(0, now)); ls := ls + [Build(0, now)];
  }

  /** One record contradicts itself: raw has the timestamp and deleted_at has not. */
  lemma RecordMixed(k: Key, o: Object, p: Object, now: int) returns (ls: seq<Label>)
    requires Versions(k, o, p)
    ensures Valid(Init(), ls)
    ensures
      var s := Final(Init(), ls);
      && |s.written| == 1 && s.written[0].e.r == 1 && s.written[0].e.op == M.Delete
      && s.written[0].encoded == p && s.written[0].built.deletedAt == None
  {
    var q := Init();
    ls := BothReached(k, o, p);
    Snoc(q, ls, Change(1, 0, now)); ls := ls + [Change(1, 0, now)];
    Snoc(q, ls, Encode(0)); ls := ls + [Encode(0)];
    Snoc(q, ls, Change(0, 1, now)); ls := ls + [Change(0, 1, now)];
    Snoc(q, ls, Build(0, now)); ls := ls + [Build(0, now)];
  }

  /** The deletion is not even reported: the queued item finds p in the cache and its handler clears
      the timestamp before the callback of p runs. */
  lemma CallbackMisses(k: Key, o: Object, p: Object, now: int) returns (ls: seq<Label>)
    requires Versions(k, o, p)
    ensures Valid(Init(), ls) && Apart(Init(), ls)
    ensures
      var s := Final(Init(), ls);
      && s.notes == [Changed(k, Some(0), 1)] && s.born == [o, p] && |s.heap| == 2
      && ItemOf(s, s.notes[0]) == Some(Item(k, None))
  {
    var q, w := Init(), Waiting(k, o, p);
    ls := WaitingReached(k, o, p);
    Snoc(q, ls, Reconcile(0)); ls := ls + [Reconcile(0)];
    var update := Event(1, M.Update, M.StorageTarget, k.gvr.resource);
    assert Final(q, ls) == w.(queue := [], events := [update]);
    Snoc(q, ls, Change(0, 0, now)); ls := ls + [Change(0, 0, now)];
    assert Final(q, ls).heap == [o, p.(deletedAt := None)];
  }
}
