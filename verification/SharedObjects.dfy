/** Objects are shared: an informer's cache, a queue item and an event hold pointers to the same
    unstructured object, and the storage handler (internal/storage/storage.go) sets or clears its
    deletion timestamp in place before it builds its record. This is the pipeline from the watch to
    the handlers as a labelled transition system over references. */
module SharedObjects {
  import opened Jobs
  import opened CrdExtract
  import opened WorkerPool
  import S = Storage
  import M = Manager

  type Ref = nat

  /** A router's type and the name under which its informer caches an object. */
  datatype Key = Key(gvr: Gvr, kind: string, ns: string, name: string)

  /** A callback that the informer has still to make. */
  datatype Note = Changed(k: Key, before: Option<Ref>, r: Ref) | Gone(k: Key, r: Ref, tombstone: bool)

  datatype Item = Item(k: Key, carried: Option<Ref>)

  datatype Event = Event(r: Ref, op: M.Operation, target: M.Target, resource: string)

  /** A storage handler has changed the object, and has then encoded it. `mark` and `encodedAt`
      count the in-place changes made by all handlers before its own, and before it encoded. */
  datatype Handler =
    | Marked(e: Event, mark: nat, now: int)
    | Encoded(e: Event, mark: nat, now: int, encodedAt: nat, encoded: Object)

  /** One in-place change. */
  datatype Mark = Mark(r: Ref, op: M.Operation, now: int)

  /** What a handler made its record of: the object as it was when it was encoded, and as it was
      when deleted_at was read. */
  datatype Written = Written(
    e: Event, mark: nat, now: int, encodedAt: nat, encoded: Object, builtAt: nat, built: Object, later: int)

  /** The manager handled the event of an object after so many in-place changes. */
  datatype Managed = Managed(r: Ref, at: nat)

  /** Reference r was delivered by the API server as `born[r]`, for `keys[r]`, and is now `heap[r]`.
      `marks`, `written` and `managed` are histories. */
  datatype State = State(
    born: seq<Object>,
    keys: seq<Key>,
    heap: seq<Object>,
    store: map<Key, Ref>,
    notes: seq<Note>,
    queue: seq<Item>,
    events: seq<Event>,
    handlers: map<nat, Handler>,
    marks: seq<Mark>,
    written: seq<Written>,
    managed: seq<Managed>)

  function Init(): State { State([], [], [], map[], [], [], [], map[], [], [], []) }

  datatype Label =
    | Arrive(k: Key, o: Object)       // the watch reports an object as added or modified
    | Remove(k: Key, o: Object)       // the watch reports an object as deleted, with its last state
    | Vanish(k: Key)                  // a new list no longer has an object that is in the cache
    | Deliver(i: nat)                 // a callback runs
    | Reconcile(i: nat)               // a queue item is reconciled
    | Change(i: nat, h: nat, now: int) // a storage handler takes an event and changes the object
    | Encode(h: nat)                  // it encodes the object
    | Build(h: nat, later: int)       // it reads deleted_at and pushes the record
    | Manage(i: nat)                  // the manager's handler takes an event

  predicate NoteInRange(s: State, n: Note) {
    n.r < |s.heap| && (n.Changed? && n.before.Some? ==> n.before.value < |s.heap|)
  }

  predicate Enabled(s: State, l: Label) {
    match l
    case Arrive(k, o) => o.ns == k.ns && o.name == k.name
    case Remove(k, o) => k in s.store && o.ns == k.ns && o.name == k.name
    case Vanish(k) => k in s.store
    case Deliver(i) => i < |s.notes| && NoteInRange(s, s.notes[i])
    case Reconcile(i) => i < |s.queue|
    case Change(i, h, _) =>
      i < |s.events| && s.events[i].target == M.StorageTarget && s.events[i].r < |s.heap| && h !in s.handlers
    case Encode(h) => h in s.handlers && s.handlers[h].Marked? && s.handlers[h].e.r < |s.heap|
    case Build(h, _) => h in s.handlers && s.handlers[h].Encoded? && s.handlers[h].e.r < |s.heap|
    case Manage(i) => i < |s.events| && s.events[i].target == M.ManagerTarget
  }

  function Without<T>(q: seq<T>, i: nat): seq<T>
    requires i < |q|
  {
    q[..i] + q[i + 1..]
  }

  /** The callback with the objects as they are when it runs. */
  function CallbackOf(s: State, n: Note): Callback
    requires NoteInRange(s, n)
  {
    match n
    case Changed(_, None, r) => OnAdd(Any.Plain(s.heap[r]))
    case Changed(_, Some(b), r) => OnUpdate(Any.Plain(s.heap[b]), Any.Plain(s.heap[r]))
    case Gone(_, r, tombstone) =>
      OnDelete(if tombstone then Tombstone(Any.Plain(s.heap[r])) else Any.Plain(s.heap[r]))
  }

  /** What the callback puts on the work queue: where the item carries an object, a pointer. */
  function ItemOf(s: State, n: Note): Option<Item>
    requires NoteInRange(s, n)
  {
    match Enqueued(n.k.gvr, n.k.kind, CallbackOf(s, n))
    case None => None
    case Some(item) => Some(Item(n.k, if item.obj.Some? then Some(n.r) else None))
  }

  /** What reconcile publishes: the pointer that the item carries, or the one in the cache. */
  function EventOf(s: State, item: Item): Option<Event> {
    match item.carried
    case Some(r) => Some(Event(r, M.Delete, M.StorageTarget, item.k.gvr.resource))
    case None =>
      if item.k !in s.store then None
      else Some(Event(s.store[item.k], M.Update, TargetOf(item.k.gvr), item.k.gvr.resource))
  }

  function Fresh(s: State, k: Key, o: Object): State {
    s.(born := s.born + [o], keys := s.keys + [k], heap := s.heap + [o])
  }

  function Apply(s: State, l: Label): State
    requires Enabled(s, l)
  {
    match l
    case Arrive(k, o) =>
      var r := |s.heap|;
      var before := if k in s.store then Some(s.store[k]) else None;
      Fresh(s, k, o).(store := s.store[k := r], notes := s.notes + [Changed(k, before, r)])
    case Remove(k, o) =>
      Fresh(s, k, o).(store := s.store - {k}, notes := s.notes + [Gone(k, |s.heap|, false)])
    case Vanish(k) =>
      s.(store := s.store - {k}, notes := s.notes + [Gone(k, s.store[k], true)])
    case Deliver(i) =>
      var item := ItemOf(s, s.notes[i]);
      s.(notes := Without(s.notes, i), queue := s.queue + if item.Some? then [item.value] else [])
    case Reconcile(i) =>
      var e := EventOf(s, s.queue[i]);
      s.(queue := Without(s.queue, i), events := s.events + if e.Some? then [e.value] else [])
    case Change(i, h, now) =>
      var e := s.events[i];
      s.(events := Without(s.events, i),
         heap := s.heap[e.r := S.Normalise(e.op, s.heap[e.r], now)],
         marks := s.marks + [Mark(e.r, e.op, now)],
         handlers := s.handlers[h := Marked(e, |s.marks|, now)])
    case Encode(h) =>
      var m := s.handlers[h];
      s.(handlers := s.handlers[h := Encoded(m.e, m.mark, m.now, |s.marks|, s.heap[m.e.r])])
    case Build(h, later) =>
      var m := s.handlers[h];
      s.(handlers := s.handlers - {h},
         written := s.written +
           [Written(m.e, m.mark, m.now, m.encodedAt, m.encoded, |s.marks|, s.heap[m.e.r], later)])
    case Manage(i) =>
      s.(events := Without(s.events, i), managed := s.managed + [Managed(s.events[i].r, |s.marks|)])
  }

  predicate Valid(s: State, ls: seq<Label>)
    decreases |ls|
  {
    ls == [] || (Enabled(s, ls[0]) && Valid(Apply(s, ls[0]), ls[1..]))
  }

  function Final(s: State, ls: seq<Label>): State
    requires Valid(s, ls)
    decreases |ls|
  {
    if ls == [] then s else Final(Apply(s, ls[0]), ls[1..])
  }

  // The deletion timestamp after the in-place changes.

  /** The timestamp that a handler leaves where it finds t. */
  function Stamp(op: M.Operation, t: Option<int>, now: int): Option<int> {
    match op
    case Create => None
    case Update => None
    case Delete => if t.None? then Some(now) else t
    case Unknown => t
  }

  lemma NormaliseStamps(op: M.Operation, o: Object, now: int)
    ensures S.Normalise(op, o, now) == o.(deletedAt := Stamp(op, o.deletedAt, now))
  {
  }

  /** The timestamp of r, delivered with t, after these changes. */
  function Now(t: Option<int>, ms: seq<Mark>, r: Ref): Option<int> {
    if ms == [] then t else
    var m := ms[|ms| - 1];
    var p := Now(t, ms[..|ms| - 1], r);
    if m.r != r then p else Stamp(m.op, p, m.now)
  }

  lemma NowSnoc(t: Option<int>, ms: seq<Mark>, m: Mark, r: Ref)
    ensures Now(t, ms + [m], r) == if m.r != r then Now(t, ms, r) else Stamp(m.op, Now(t, ms, r), m.now)
  {
    assert (ms + [m])[..|ms|] == ms;
  }

  predicate Clears(m: Mark, r: Ref) { m.r == r && m.op != M.Delete }

  predicate Sets(m: Mark, r: Ref) { m.r == r && m.op == M.Delete }

  /** All changes are made by handlers of updates and deletes. */
  predicate Proper(ms: seq<Mark>) { forall i :: 0 <= i < |ms| ==> ms[i].op == M.Update || ms[i].op == M.Delete }

  ghost predicate Untouched(ms: seq<Mark>, r: Ref, from: nat) { forall i :: from <= i < |ms| ==> ms[i].r != r }

  ghost predicate NoClear(ms: seq<Mark>, r: Ref, from: nat) { forall i :: from <= i < |ms| ==> !Clears(ms[i], r) }

  ghost predicate NoSet(ms: seq<Mark>, r: Ref, from: nat) { forall i :: from <= i < |ms| ==> !Sets(ms[i], r) }

  ghost predicate FirstSet(ms: seq<Mark>, r: Ref, from: nat, j: nat) {
    from <= j < |ms| && Sets(ms[j], r) && forall i :: from <= i < j ==> !Sets(ms[i], r)
  }

  lemma {:induction false} UntouchedStays(t: Option<int>, ms: seq<Mark>, r: Ref, from: nat)
    requires from <= |ms| && Untouched(ms, r, from)
    ensures Now(t, ms, r) == Now(t, ms[..from], r)
    decreases |ms|
  {
    if from == |ms| {
      assert ms[..from] == ms;
    } else {
      var n := |ms| - 1;
      UntouchedStays(t, ms[..n], r, from);
      assert ms[..n][..from] == ms[..from];
    }
  }

  lemma {:induction false} KeptSince(t: Option<int>, ms: seq<Mark>, r: Ref, from: nat)
    requires from <= |ms| && Proper(ms) && NoClear(ms, r, from) && Now(t, ms[..from], r).Some?
    ensures Now(t, ms, r) == Now(t, ms[..from], r)
    decreases |ms|
  {
    if from == |ms| {
      assert ms[..from] == ms;
    } else {
      var n := |ms| - 1;
      assert ms[..n][..from] == ms[..from];
      KeptSince(t, ms[..n], r, from);
    }
  }

  lemma SetSince(t: Option<int>, ms: seq<Mark>, r: Ref, from: nat, j: nat)
    requires from <= |ms| && Proper(ms) && NoClear(ms, r, from) && Now(t, ms[..from], r).None?
    requires FirstSet(ms, r, from, j)
    ensures Now(t, ms, r) == Some(ms[j].now)
  {
    var before, upTo := ms[..j], ms[..j + 1];
    assert before[..from] == ms[..from];
    forall i | from <= i < j ensures before[i].r != r { assert !Clears(ms[i], r) && !Sets(ms[i], r); }
    UntouchedStays(t, before, r, from);
    assert upTo == before + [ms[j]];
    NowSnoc(t, before, ms[j], r);
    KeptSince(t, ms, r, j + 1);
  }

  lemma NoneSince(t: Option<int>, ms: seq<Mark>, r: Ref, from: nat)
    requires from <= |ms| && NoClear(ms, r, from) && NoSet(ms, r, from)
    ensures Now(t, ms, r) == Now(t, ms[..from], r)
  {
    forall i | from <= i < |ms| ensures ms[i].r != r { assert !Clears(ms[i], r) && !Sets(ms[i], r); }
    UntouchedStays(t, ms, r, from);
  }

  /** From a point after which nobody clears it: the timestamp that was there stays; where there was
      none, the first handler of a delete sets its clock. */
  lemma SinceClear(t: Option<int>, ms: seq<Mark>, r: Ref, from: nat)
    requires from <= |ms| && Proper(ms) && NoClear(ms, r, from)
    ensures
      var p := Now(t, ms[..from], r);
      && (p.Some? ==> Now(t, ms, r) == p)
      && (p.None? && NoSet(ms, r, from) ==> Now(t, ms, r) == None)
      && (forall j: nat :: p.None? && FirstSet(ms, r, from, j) ==> Now(t, ms, r) == Some(ms[j].now))
  {
    if Now(t, ms[..from], r).Some? {
      KeptSince(t, ms, r, from);
    } else {
      if NoSet(ms, r, from) { NoneSince(t, ms, r, from); }
      forall j: nat | FirstSet(ms, r, from, j) ensures Now(t, ms, r) == Some(ms[j].now) {
        SetSince(t, ms, r, from, j);
      }
    }
  }

  /** The last change of the object, if it has been changed at all, decides whether it has a
      timestamp. */
  lemma LastDecides(t: Option<int>, ms: seq<Mark>, r: Ref, j: nat)
    requires Proper(ms) && j < |ms| && ms[j].r == r && Untouched(ms, r, j + 1)
    ensures Now(t, ms, r).Some? <==> ms[j].op == M.Delete
  {
    UntouchedStays(t, ms, r, j + 1);
    assert ms[..j + 1] == ms[..j] + [ms[j]];
    NowSnoc(t, ms[..j], ms[j], r);
  }

  lemma {:induction false} LastChange(ms: seq<Mark>, r: Ref, mark: nat) returns (j: nat)
    requires mark < |ms| && ms[mark].r == r
    ensures mark <= j < |ms| && ms[j].r == r && Untouched(ms, r, j + 1)
    decreases |ms|
  {
    var n := |ms| - 1;
    if ms[n].r == r { return n; }
    j := LastChange(ms[..n], r, mark);
    assert ms[..n][j] == ms[j];
    forall i | j + 1 <= i < |ms| ensures ms[i].r != r { if i < n { assert ms[..n][i] == ms[i]; } }
  }

  lemma {:induction false} FirstSetExists(ms: seq<Mark>, r: Ref, from: nat, k: nat) returns (j: nat)
    requires from <= k < |ms| && Sets(ms[k], r)
    ensures FirstSet(ms, r, from, j)
    decreases k
  {
    if i :| from <= i < k && Sets(ms[i], r) { j := FirstSetExists(ms, r, from, i); } else { j := k; }
  }

  // The invariant.

  /** Reference r as it is after these changes. */
  function At(born: seq<Object>, ms: seq<Mark>, r: Ref): Object
    requires r < |born|
  {
    born[r].(deletedAt := Now(born[r].deletedAt, ms, r))
  }

  ghost predicate HeapAged(s: State) {
    && |s.born| == |s.keys| == |s.heap|
    && forall r: nat :: r < |s.heap| ==> s.heap[r] == At(s.born, s.marks, r)
  }

  /** Only deletes change objects in the group of CRDs: their updates go to the manager. */
  predicate GoodMark(keys: seq<Key>, m: Mark) {
    m.r < |keys| && (m.op == M.Delete || (m.op == M.Update && keys[m.r].gvr.group != CRD_GROUP))
  }

  predicate GoodNote(keys: seq<Key>, n: Note) {
    && n.r < |keys| && keys[n.r] == n.k
    && (n.Changed? && n.before.Some? ==> n.before.value < |keys|)
  }

  predicate GoodItem(keys: seq<Key>, item: Item) {
    item.carried.Some? ==> item.carried.value < |keys| && keys[item.carried.value] == item.k
  }

  predicate GoodEvent(keys: seq<Key>, e: Event) {
    && e.r < |keys| && e.resource == keys[e.r].gvr.resource
    && (|| (e.op == M.Delete && e.target == M.StorageTarget)
        || (e.op == M.Update && e.target == TargetOf(keys[e.r].gvr)))
  }

  ghost predicate GoodHandler(s: State, h: Handler) {
    && GoodEvent(s.keys, h.e) && h.e.target == M.StorageTarget && h.e.r < |s.born|
    && h.mark < |s.marks| && s.marks[h.mark] == Mark(h.e.r, h.e.op, h.now)
    && (h.Encoded? ==> h.mark < h.encodedAt <= |s.marks| && h.encoded == At(s.born, s.marks[..h.encodedAt], h.e.r))
  }

  ghost predicate GoodWritten(s: State, w: Written) {
    && GoodEvent(s.keys, w.e) && w.e.target == M.StorageTarget && w.e.r < |s.born|
    && w.mark < w.encodedAt <= w.builtAt <= |s.marks| && s.marks[w.mark] == Mark(w.e.r, w.e.op, w.now)
    && w.encoded == At(s.born, s.marks[..w.encodedAt], w.e.r)
    && w.built == At(s.born, s.marks[..w.builtAt], w.e.r)
  }

  predicate GoodManaged(s: State, m: Managed) {
    m.r < |s.keys| && m.r < |s.born| && m.at <= |s.marks| && s.keys[m.r].gvr.group == CRD_GROUP
  }

  ghost predicate Flow(s: State) {
    && (forall k :: k in s.store ==> s.store[k] < |s.keys| && s.keys[s.store[k]] == k)
    && (forall n :: n in s.notes ==> GoodNote(s.keys, n))
    && (forall item :: item in s.queue ==> GoodItem(s.keys, item))
    && (forall e :: e in s.events ==> GoodEvent(s.keys, e))
  }

  ghost predicate Histories(s: State) {
    && (forall m :: m in s.marks ==> GoodMark(s.keys, m))
    && (forall h :: h in s.handlers ==> GoodHandler(s, s.handlers[h]))
    && (forall w :: w in s.written ==> GoodWritten(s, w))
    && (forall m :: m in s.managed ==> GoodManaged(s, m))
  }

  ghost predicate Inv(s: State) { HeapAged(s) && Flow(s) && Histories(s) }

  lemma InitInv()
    ensures Inv(Init())
  {
  }

  /** Objects are only ever added, and changes only ever made. */
  ghost predicate Grows(s: State, t: State) { s.born <= t.born && s.keys <= t.keys && s.marks <= t.marks }

  lemma PrefixOfPrefix(a: seq<Mark>, b: seq<Mark>, k: nat)
    requires a <= b && k <= |a|
    ensures b[..k] == a[..k]
  {
  }

  lemma AtStable(s: State, t: State, r: Ref, k: nat)
    requires Grows(s, t) && r < |s.born| && k <= |s.marks|
    ensures At(t.born, t.marks[..k], r) == At(s.born, s.marks[..k], r)
  {
    PrefixOfPrefix(s.marks, t.marks, k);
  }

  lemma GoodEventStays(s: State, t: State, e: Event)
    requires Grows(s, t) && GoodEvent(s.keys, e)
    ensures GoodEvent(t.keys, e)
  {
  }

  lemma GoodHandlerStays(s: State, t: State, h: Handler)
    requires Grows(s, t) && GoodHandler(s, h)
    ensures GoodHandler(t, h)
  {
    GoodEventStays(s, t, h.e);
    if h.Encoded? { AtStable(s, t, h.e.r, h.encodedAt); }
  }

  lemma GoodWrittenStays(s: State, t: State, w: Written)
    requires Grows(s, t) && GoodWritten(s, w)
    ensures GoodWritten(t, w)
  {
    GoodEventStays(s, t, w.e);
    AtStable(s, t, w.e.r, w.encodedAt);
    AtStable(s, t, w.e.r, w.builtAt);
  }

  /** Histories stay good when nothing but objects and one change is added. */
  lemma HistoriesStay(s: State, t: State)
    requires Grows(s, t) && Histories(s) && (forall m :: m in t.marks ==> GoodMark(t.keys, m))
    requires t.handlers == s.handlers && t.written == s.written && t.managed == s.managed
    ensures Histories(t)
  {
    forall h | h in t.handlers ensures GoodHandler(t, t.handlers[h]) { GoodHandlerStays(s, t, s.handlers[h]); }
    forall w | w in t.written ensures GoodWritten(t, w) { GoodWrittenStays(s, t, w); }
  }

  // The steps of the informer, of the callbacks and of reconcile.

  lemma FreshHeap(s: State, k: Key, o: Object)
    requires HeapAged(s) && (forall m :: m in s.marks ==> GoodMark(s.keys, m))
    ensures HeapAged(Fresh(s, k, o))
  {
    var r, t := |s.heap|, Fresh(s, k, o);
    assert Untouched(s.marks, r, 0) by {
      forall i | 0 <= i < |s.marks| ensures s.marks[i].r != r { assert s.marks[i] in s.marks; }
    }
    UntouchedStays(o.deletedAt, s.marks, r, 0);
    assert t.heap[r] == At(t.born, t.marks, r);
  }

  lemma FreshHistories(s: State, k: Key, o: Object, t: State)
    requires Histories(s) && t.born == s.born + [o] && t.keys == s.keys + [k] && t.marks == s.marks
    requires t.handlers == s.handlers && t.written == s.written && t.managed == s.managed
    ensures Histories(t)
  {
    forall m | m in t.marks ensures GoodMark(t.keys, m) { assert GoodMark(s.keys, m); }
    HistoriesStay(s, t);
  }

  lemma WatchFlow(s: State, l: Label)
    requires Flow(s) && HeapAged(s) && Enabled(s, l) && (l.Arrive? || l.Remove? || l.Vanish?)
    ensures Flow(Apply(s, l))
  {
    var t := Apply(s, l);
    assert s.keys <= t.keys;
    forall n | n in t.notes ensures GoodNote(t.keys, n) {
      if n in s.notes { assert GoodNote(s.keys, n); }
    }
    forall item | item in t.queue ensures GoodItem(t.keys, item) { assert GoodItem(s.keys, item); }
    forall e | e in t.events ensures GoodEvent(t.keys, e) { assert GoodEvent(s.keys, e); }
  }

  lemma WatchKeeps(s: State, l: Label)
    requires Inv(s) && Enabled(s, l) && (l.Arrive? || l.Remove? || l.Vanish?)
    ensures Inv(Apply(s, l))
  {
    WatchFlow(s, l);
    if l.Vanish? {
      HistoriesStay(s, Apply(s, l));
    } else {
      FreshHeap(s, l.k, l.o);
      FreshHistories(s, l.k, l.o, Apply(s, l));
    }
  }

  lemma DeliverFlow(s: State, i: nat)
    requires Flow(s) && Enabled(s, Deliver(i))
    ensures Flow(Apply(s, Deliver(i)))
  {
    var t := Apply(s, Deliver(i));
    forall n | n in t.notes ensures GoodNote(t.keys, n) { assert n in s.notes; }
    assert s.notes[i] in s.notes;
  }

  lemma ReconcileFlow(s: State, i: nat)
    requires Flow(s) && Enabled(s, Reconcile(i))
    ensures Flow(Apply(s, Reconcile(i)))
  {
    var t := Apply(s, Reconcile(i));
    forall item | item in t.queue ensures GoodItem(t.keys, item) { assert item in s.queue; }
    assert s.queue[i] in s.queue;
  }

  lemma QueueKeeps(s: State, l: Label)
    requires Inv(s) && Enabled(s, l) && (l.Deliver? || l.Reconcile?)
    ensures Inv(Apply(s, l))
  {
    HistoriesStay(s, Apply(s, l));
    if l.Deliver? { DeliverFlow(s, l.i); } else { ReconcileFlow(s, l.i); }
  }

  // The steps of the handlers.

  lemma ChangeHeap(s: State, i: nat, h: nat, now: int)
    requires HeapAged(s) && Enabled(s, Change(i, h, now))
    ensures HeapAged(Apply(s, Change(i, h, now)))
  {
    var t, e := Apply(s, Change(i, h, now)), s.events[i];
    NormaliseStamps(e.op, s.heap[e.r], now);
    forall r: nat | r < |t.heap| ensures t.heap[r] == At(t.born, t.marks, r) {
      NowSnoc(s.born[r].deletedAt, s.marks, Mark(e.r, e.op, now), r);
    }
  }

  lemma TakeFlow(s: State, t: State, i: nat)
    requires Flow(s) && i < |s.events| && t.events == Without(s.events, i)
    requires t.keys == s.keys && t.store == s.store && t.notes == s.notes && t.queue == s.queue
    ensures Flow(t) && GoodEvent(s.keys, s.events[i])
  {
    forall e | e in t.events ensures GoodEvent(t.keys, e) { assert e in s.events; }
    assert s.events[i] in s.events;
  }

  lemma ChangeMarks(s: State, i: nat, h: nat, now: int)
    requires Histories(s) && Enabled(s, Change(i, h, now)) && GoodEvent(s.keys, s.events[i])
    ensures
      var t := Apply(s, Change(i, h, now));
      Grows(s, t) && (forall m :: m in t.marks ==> GoodMark(t.keys, m))
  {
    var e := s.events[i];
    assert GoodMark(s.keys, Mark(e.r, e.op, now));
  }

  lemma ChangeHistories(s: State, i: nat, h: nat, now: int)
    requires Histories(s) && Enabled(s, Change(i, h, now)) && GoodEvent(s.keys, s.events[i])
    requires |s.born| == |s.keys|
    ensures Histories(Apply(s, Change(i, h, now)))
  {
    var t := Apply(s, Change(i, h, now));
    ChangeMarks(s, i, h, now);
    HistoriesStay(s, t.(handlers := s.handlers));
    assert GoodHandler(t, t.handlers[h]);
    forall g | g in t.handlers ensures GoodHandler(t, t.handlers[g]) {
      if g != h { GoodHandlerStays(s, t, s.handlers[g]); }
    }
    forall w | w in t.written ensures GoodWritten(t, w) { GoodWrittenStays(s, t, w); }
  }

  lemma ChangeKeeps(s: State, i: nat, h: nat, now: int)
    requires Inv(s) && Enabled(s, Change(i, h, now))
    ensures Inv(Apply(s, Change(i, h, now)))
  {
    TakeFlow(s, Apply(s, Change(i, h, now)), i);
    ChangeHeap(s, i, h, now);
    ChangeHistories(s, i, h, now);
  }

  lemma RecordHistories(s: State, l: Label)
    requires Histories(s) && HeapAged(s) && Enabled(s, l) && (l.Encode? || l.Build?)
    ensures Histories(Apply(s, l))
  {
    var t, m := Apply(s, l), s.handlers[l.h];
    assert s.marks[..|s.marks|] == s.marks;
    assert GoodHandler(s, m);
    forall g | g in t.handlers ensures GoodHandler(t, t.handlers[g]) {
      if g != l.h { GoodHandlerStays(s, t, s.handlers[g]); }
    }
    forall w | w in t.written ensures GoodWritten(t, w) {
      if w in s.written { GoodWrittenStays(s, t, w); }
    }
  }

  lemma ManageHistories(s: State, i: nat)
    requires Histories(s) && Enabled(s, Manage(i)) && GoodEvent(s.keys, s.events[i]) && |s.born| == |s.keys|
    ensures Histories(Apply(s, Manage(i)))
  {
    var t := Apply(s, Manage(i));
    HistoriesStay(s, t.(managed := s.managed));
    forall h | h in t.handlers ensures GoodHandler(t, t.handlers[h]) { GoodHandlerStays(s, t, s.handlers[h]); }
    forall w | w in t.written ensures GoodWritten(t, w) { GoodWrittenStays(s, t, w); }
  }

  lemma ManageKeeps(s: State, i: nat)
    requires Inv(s) && Enabled(s, Manage(i))
    ensures Inv(Apply(s, Manage(i)))
  {
    TakeFlow(s, Apply(s, Manage(i)), i);
    ManageHistories(s, i);
  }

  /** Every step keeps the invariant: in particular, each object is what the API server delivered,
      with the timestamp that the changes made of it. */
  lemma StepKeeps(s: State, l: Label)
    requires Inv(s) && Enabled(s, l)
    ensures Inv(Apply(s, l))
  {
    match l
    case Change(i, h, now) => ChangeKeeps(s, i, h, now);
    case Encode(_) => RecordHistories(s, l);
    case Build(_, _) => RecordHistories(s, l);
    case Manage(i) => ManageKeeps(s, i);
    case Deliver(_) => QueueKeeps(s, l);
    case Reconcile(_) => QueueKeeps(s, l);
    case _ => WatchKeeps(s, l);
  }

  lemma {:induction false} RunKeeps(s: State, ls: seq<Label>)
    requires Inv(s) && Valid(s, ls)
    ensures Inv(Final(s, ls))
    decreases |ls|
  {
    if ls != [] {
      StepKeeps(s, ls[0]);
      RunKeeps(Apply(s, ls[0]), ls[1..]);
    }
  }

  lemma ProperMarks(s: State)
    requires Histories(s)
    ensures Proper(s.marks)
  {
    forall i | 0 <= i < |s.marks| ensures s.marks[i].op == M.Update || s.marks[i].op == M.Delete {
      assert s.marks[i] in s.marks;
    }
  }

  /** Handlers of one object do not overlap. */
  predicate ApartStep(s: State, l: Label)
    requires Enabled(s, l)
  {
    l.Change? ==> forall h :: h in s.handlers ==> s.handlers[h].e.r != s.events[l.i].r
  }

  predicate Apart(s: State, ls: seq<Label>)
    requires Valid(s, ls)
    decreases |ls|
  {
    ls == [] || (ApartStep(s, ls[0]) && Apart(Apply(s, ls[0]), ls[1..]))
  }

  // Building runs.

  lemma {:induction false} Snoc(s: State, ls: seq<Label>, l: Label)
    requires Valid(s, ls) && Enabled(Final(s, ls), l)
    ensures Valid(s, ls + [l]) && Final(s, ls + [l]) == Apply(Final(s, ls), l)
    ensures Apart(s, ls) && ApartStep(Final(s, ls), l) ==> Apart(s, ls + [l])
    decreases |ls|
  {
    var ms := ls + [l];
    if ls == [] {
      assert ms == [l] && ms[1..] == [];
      assert Valid(Apply(s, l), ms[1..]);
    } else {
      assert ms[0] == ls[0] && ms[1..] == ls[1..] + [l];
      Snoc(Apply(s, ls[0]), ls[1..], l);
    }
  }

  lemma {:induction false} Append(s: State, ls: seq<Label>, ms: seq<Label>)
    requires Valid(s, ls) && Valid(Final(s, ls), ms)
    ensures Valid(s, ls + ms) && Final(s, ls + ms) == Final(Final(s, ls), ms)
    ensures Apart(s, ls) && Apart(Final(s, ls), ms) ==> Apart(s, ls + ms)
    decreases |ls|
  {
    if ls == [] {
      assert ls + ms == ms;
    } else {
      assert (ls + ms)[1..] == ls[1..] + ms;
      Append(Apply(s, ls[0]), ls[1..], ms);
    }
  }

  /** An object is added, and the item of its callback is on the queue. */
  lemma AddQueued(k: Key, o: Object) returns (ls: seq<Label>)
    requires o.ns == k.ns && o.name == k.name
    ensures Valid(Init(), ls) && Apart(Init(), ls)
    ensures Final(Init(), ls) == State([o], [k], [o], map[k := 0], [], [Item(k, None)], [], map[], [], [], [])
  {
    var q := Init();
    ls := [];
    Snoc(q, ls, Arrive(k, o)); ls := ls + [Arrive(k, o)];
    assert Final(q, ls) == State([o], [k], [o], map[k := 0], [Changed(k, None, 0)], [], [], map[], [], [], []);
    Snoc(q, ls, Deliver(0)); ls := ls + [Deliver(0)];
  }
}
