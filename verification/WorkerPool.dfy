/** From a router callback to the event it causes: what internal/router/router.go puts on the work
    queue, and what the worker pool's reconcile (internal/router/workpool.go) makes of it. */
module WorkerPool {
  import opened Jobs
  import opened CrdExtract
  import opened RouterKeys
  import M = Manager

  /** What the pipeline reads of an unstructured object. */
  datatype Object = Object(
    name: string, ns: string, uid: string, resourceVersion: string, apiVersion: string, kind: string,
    createdAt: int, deletedAt: Option<int>, compositionLabel: Option<string>,
    content: map<string, Json>, status: Option<string>)

  datatype Any = Plain(o: Object) | Tombstone(inner: Any) | Foreign

  datatype Callback = OnAdd(obj: Any) | OnUpdate(before: Any, after: Any) | OnDelete(obj: Any)

  datatype QueueItem = QueueItem(key: string, obj: Option<Object>)

  function Enqueue(gvr: Gvr, kind: string, o: Object, deleted: Option<Object>): QueueItem {
    QueueItem(BuildKey(gvr, kind, o.ns, o.name), deleted)
  }

  /** The item a callback of a router for this GVR and kind adds to the queue, if any. */
  function Enqueued(gvr: Gvr, kind: string, cb: Callback): Option<QueueItem> {
    match cb
    case OnAdd(Plain(o)) => Some(Enqueue(gvr, kind, o, None))
    case OnUpdate(Plain(o), Plain(n)) =>
      if o.resourceVersion == n.resourceVersion then None else
      Some(Enqueue(gvr, kind, n, if n.deletedAt.Some? then Some(n) else None))
    case OnDelete(Tombstone(Plain(o))) => Some(Enqueue(gvr, kind, o, Some(o)))
    case OnDelete(Plain(o)) => Some(Enqueue(gvr, kind, o, Some(o)))
    case _ => None
  }

  datatype Informer = Informer(gvr: Gvr, kind: string, ns: string, id: nat)

  type Registry = map<string, Informer>

  function Register(m: Registry, inf: Informer): Registry {
    m[InformerKey(inf.gvr, inf.kind, inf.ns) := inf]
  }

  function RegisterAll(m: Registry, infs: seq<Informer>): Registry {
    if infs == [] then m else Register(RegisterAll(m, infs[..|infs| - 1]), infs[|infs| - 1])
  }

  /** The informers NewRouter creates: one per namespace, or one for all of them. */
  function RouterInformers(gvr: Gvr, kind: string, namespaces: seq<string>, firstId: nat): seq<Informer> {
    var nss := if namespaces == [] then [""] else namespaces;
    seq(|nss|, i requires 0 <= i < |nss| => Informer(gvr, kind, nss[i], firstId + i))
  }

  lemma RegisterAllSnoc(m: Registry, infs: seq<Informer>, inf: Informer)
    ensures RegisterAll(m, infs + [inf]) == Register(RegisterAll(m, infs), inf)
  {
    assert (infs + [inf])[..|infs|] == infs;
  }

  /** Registering in two goes is registering the whole list. */
  lemma {:induction false} RegisterAllConcat(m: Registry, a: seq<Informer>, b: seq<Informer>)
    ensures RegisterAll(RegisterAll(m, a), b) == RegisterAll(m, a + b)
  {
    if b == [] {
      assert a + b == a;
    } else {
      var n := |b| - 1;
      RegisterAllConcat(m, a, b[..n]);
      RegisterOneMore(m, a, b[..n], b[n]);
      assert b == b[..n] + [b[n]];
    }
  }

  lemma RegisterOneMore(m: Registry, a: seq<Informer>, c: seq<Informer>, inf: Informer)
    requires RegisterAll(RegisterAll(m, a), c) == RegisterAll(m, a + c)
    ensures RegisterAll(RegisterAll(m, a), c + [inf]) == RegisterAll(m, a + (c + [inf]))
  {
    RegisterAllSnoc(RegisterAll(m, a), c, inf);
    RegisterAllSnoc(m, a + c, inf);
    Reassociate(a, c, [inf]);
  }

  lemma Reassociate(a: seq<Informer>, b: seq<Informer>, c: seq<Informer>)
    ensures a + b + c == a + (b + c)
  {
  }

  lemma PrefixGrows(before: seq<Informer>, infs: seq<Informer>, i: nat)
    requires i < |infs|
    ensures before + infs[..i] + [infs[i]] == before + infs[..i + 1]
  {
  }

  /** The informer is for the type and for the namespace, or for all namespaces. */
  predicate Covers(inf: Informer, gvr: Gvr, kind: string, ns: string) {
    inf.gvr == gvr && inf.kind == kind && (inf.ns == "" || inf.ns == ns)
  }

  /** A router has an informer that covers a namespace exactly if it watches all namespaces or lists
      that one; its informers are numbered in order, each with its own store. */
  lemma EveryNamespaceWatched(gvr: Gvr, kind: string, namespaces: seq<string>, firstId: nat, ns: string)
    ensures
      var infs := RouterInformers(gvr, kind, namespaces, firstId);
      && |infs| == (if namespaces == [] then 1 else |namespaces|)
      && (forall i :: 0 <= i < |infs| ==> infs[i].id == firstId + i && infs[i].gvr == gvr && infs[i].kind == kind)
      && ((exists i :: 0 <= i < |infs| && Covers(infs[i], gvr, kind, ns))
          <==> namespaces == [] || "" in namespaces || ns in namespaces)
  {
    var infs := RouterInformers(gvr, kind, namespaces, firstId);
    if namespaces == [] { assert Covers(infs[0], gvr, kind, ns); }
    if i :| 0 <= i < |namespaces| && (namespaces[i] == "" || namespaces[i] == ns) {
      assert Covers(infs[i], gvr, kind, ns);
    }
  }

  /** `registered` is the history of RegisterInformer calls. */
  class Pool {
    var informers: Registry
    var nextId: nat
    ghost var registered: seq<Informer>

    ghost predicate Valid()
      reads this
    {
      informers == RegisterAll(map[], registered)
    }

    constructor ()
      ensures Valid() && registered == [] && nextId == 0
    {
      informers, nextId, registered := map[], 0, [];
    }

    method RegisterInformer(gvr: Gvr, ns: string, kind: string, id: nat)
      requires Valid()
      modifies this`informers, this`registered
      ensures Valid() && registered == old(registered) + [Informer(gvr, kind, ns, id)]
    {
      informers := informers[InformerKey(gvr, kind, ns) := Informer(gvr, kind, ns, id)];
      registered := registered + [Informer(gvr, kind, ns, id)];
      assert registered[..|registered| - 1] == old(registered);
    }

    /** The registration loop of NewRouter. */
    method AddRouter(gvr: Gvr, kind: string, namespaces: seq<string>)
      requires Valid()
      modifies this
      ensures Valid() && registered == old(registered) + RouterInformers(gvr, kind, namespaces, old(nextId))
      ensures informers == RegisterAll(old(informers), RouterInformers(gvr, kind, namespaces, old(nextId)))
      ensures nextId == old(nextId) + if namespaces == [] then 1 else |namespaces|
    {
      var nss := namespaces;
      if |nss| == 0 { nss := [""]; }
      ghost var infs := RouterInformers(gvr, kind, namespaces, nextId);
      for i := 0 to |nss|
        invariant Valid() && nextId == old(nextId) + i
        invariant registered == old(registered) + infs[..i]
      {
        PrefixGrows(old(registered), infs, i);
        RegisterInformer(gvr, nss[i], kind, nextId);
        nextId := nextId + 1;
      }
      assert infs[..|nss|] == infs;
      RegisterAllConcat(map[], old(registered), infs);
    }

    /** The lookup of reconcile. Whatever routers were added, an object that one of them covers
        gets an informer of its type that covers its namespace. */
    method Find(gvr: Gvr, kind: string, ns: string) returns (r: Option<Informer>)
      requires Valid()
      ensures r == Lookup(informers, gvr, kind, ns)
      ensures AllPlain(registered) ==> forall i :: 0 <= i < |registered| && Covers(registered[i], gvr, kind, ns) ==>
        r.Some? && r.value in registered && Covers(r.value, gvr, kind, ns) &&
        (registered[i].ns == ns ==> r.value.ns == ns)
    {
      r := None;
      if InformerKey(gvr, kind, ns) in informers {
        r := Some(informers[InformerKey(gvr, kind, ns)]);
      } else if InformerKey(gvr, kind, "") in informers {
        r := Some(informers[InformerKey(gvr, kind, "")]);
      }
      if AllPlain(registered) {
        forall i | 0 <= i < |registered| && Covers(registered[i], gvr, kind, ns)
          ensures r.Some? && r.value in registered && Covers(r.value, gvr, kind, ns)
          ensures registered[i].ns == ns ==> r.value.ns == ns
        {
          LookupFindsCover(registered, i, ns);
        }
      }
    }
  }

  /** The exact namespace first, then the informer for all namespaces. */
  function Lookup(m: Registry, gvr: Gvr, kind: string, ns: string): Option<Informer> {
    if InformerKey(gvr, kind, ns) in m then Some(m[InformerKey(gvr, kind, ns)]) else
    if InformerKey(gvr, kind, "") in m then Some(m[InformerKey(gvr, kind, "")]) else None
  }

  datatype Outcome =
    | Handled(o: Object, op: M.Operation, target: M.Target, resource: string)
    | Skipped
    | Failed
    | Panicked

  const CRD_GROUP := "apiextensions.k8s.io"

  function TargetOf(gvr: Gvr): M.Target {
    if gvr.group == CRD_GROUP then M.ManagerTarget else M.StorageTarget
  }

  /** The object stored by informer `id` under a key, or an error of the store. */
  datatype Stored = Found(o: Object) | Missing | StoreError

  function Reconcile(m: Registry, store: (nat, string) -> Stored, item: QueueItem): Outcome {
    match SplitKey(item.key)
    case Invalid => Failed
    case Panics => Panicked
    case Parts(gvr, kind, ns, name) =>
      if item.obj.Some? then Handled(item.obj.value, M.Delete, M.StorageTarget, gvr.resource) else
      match Lookup(m, gvr, kind, ns)
      case None => Failed
      case Some(inf) =>
        match store(inf.id, ObjectKey(ns, name))
        case StoreError => Failed
        case Missing => Skipped
        case Found(o) =>
          Handled(o, M.Update, TargetOf(gvr), gvr.resource)
  }

  // Main results.

  ghost predicate AllPlain(infs: seq<Informer>) {
    forall i :: 0 <= i < |infs| ==> PlainType(infs[i].gvr, infs[i].kind)
  }

  predicate SameScope(a: Informer, b: Informer) { a.gvr == b.gvr && a.kind == b.kind && a.ns == b.ns }

  /** Later registrations replace an informer only by one for the same type and namespace. */
  lemma {:induction false} StaysRegistered(infs: seq<Informer>, i: nat)
    requires AllPlain(infs) && i < |infs|
    ensures
      var k := InformerKey(infs[i].gvr, infs[i].kind, infs[i].ns);
      var m := RegisterAll(map[], infs);
      k in m && SameScope(m[k], infs[i])
  {
    var n := |infs| - 1;
    if i < n {
      StaysRegistered(infs[..n], i);
      assert infs[..n][i] == infs[i];
      var a, b := infs[i], infs[n];
      if InformerKey(a.gvr, a.kind, a.ns) == InformerKey(b.gvr, b.kind, b.ns) {
        InformerKeysInjective(a.gvr, a.kind, a.ns, b.gvr, b.kind, b.ns);
      }
    }
  }

  lemma {:induction false} OnlyRegistered(infs: seq<Informer>, k: string)
    requires k in RegisterAll(map[], infs)
    ensures
      var inf := RegisterAll(map[], infs)[k];
      inf in infs && k == InformerKey(inf.gvr, inf.kind, inf.ns)
  {
    if infs != [] {
      var n := |infs| - 1;
      if k != InformerKey(infs[n].gvr, infs[n].kind, infs[n].ns) {
        OnlyRegistered(infs[..n], k);
      }
    }
  }

  /** Whatever routers were registered, in whatever order: for an object that a registered
      informer covers, the lookup finds an informer of the same GVR and kind that covers the
      object's namespace, and prefers one for exactly that namespace. */
  lemma LookupFindsCover(infs: seq<Informer>, i: nat, ns: string)
    requires AllPlain(infs) && i < |infs| && Covers(infs[i], infs[i].gvr, infs[i].kind, ns)
    ensures
      var r := Lookup(RegisterAll(map[], infs), infs[i].gvr, infs[i].kind, ns);
      r.Some? && r.value in infs && Covers(r.value, infs[i].gvr, infs[i].kind, ns) &&
      (infs[i].ns == ns ==> r.value.ns == ns)
  {
    var m, g, k := RegisterAll(map[], infs), infs[i].gvr, infs[i].kind;
    StaysRegistered(infs, i);
    var key := if InformerKey(g, k, ns) in m then InformerKey(g, k, ns) else InformerKey(g, k, "");
    OnlyRegistered(infs, key);
    var inf := m[key];
    InformerKeysInjective(inf.gvr, inf.kind, inf.ns, g, k, if InformerKey(g, k, ns) in m then ns else "");
  }

  /** The callbacks that report a deletion: a delete, and an update to an object that already has
      a deletion timestamp. */
  predicate ReportsDeletion(cb: Callback) {
    match cb
    case OnDelete(_) => true
    case OnUpdate(_, Plain(n)) => n.deletedAt.Some?
    case _ => false
  }

  /** The object a callback is about: the one added, the new one of an update, the one deleted. */
  function Subject(cb: Callback): Option<Object> {
    match cb
    case OnAdd(Plain(o)) => Some(o)
    case OnUpdate(_, Plain(n)) => Some(n)
    case OnDelete(Tombstone(Plain(o))) => Some(o)
    case OnDelete(Plain(o)) => Some(o)
    case _ => None
  }

  /** The callback is about an object, and not an update that changes nothing. */
  ghost predicate Queues(cb: Callback) {
    || (exists o :: cb == OnAdd(Any.Plain(o)))
    || (exists o :: cb == OnDelete(Any.Plain(o)) || cb == OnDelete(Tombstone(Any.Plain(o))))
    || (exists o, n :: cb == OnUpdate(Any.Plain(o), Any.Plain(n)) && o.resourceVersion != n.resourceVersion)
  }

  /** A callback puts an item on the queue if and only if it is an add of an object, a delete of one,
      plain or in a tombstone, or an update between two objects of different resource versions; the
      item then carries the object itself exactly if the callback reports a deletion. */
  lemma QueuesExactly(gvr: Gvr, kind: string, cb: Callback)
    ensures Enqueued(gvr, kind, cb).Some? <==> Queues(cb)
    ensures Queues(cb) ==>
      Subject(cb).Some? && Enqueued(gvr, kind, cb).value.obj == if ReportsDeletion(cb) then Subject(cb) else None
  {
    match cb
    case OnAdd(Plain(o)) => assert Queues(cb);
    case OnDelete(Plain(o)) => assert Queues(cb);
    case OnDelete(Tombstone(Plain(o))) => assert Queues(cb);
    case OnUpdate(Plain(o), Plain(n)) => assert Queues(cb) <==> o.resourceVersion != n.resourceVersion;
    case _ => assert !Queues(cb);
  }

  lemma ItemKey(gvr: Gvr, kind: string, cb: Callback)
    requires Enqueued(gvr, kind, cb).Some?
    ensures Subject(cb).Some?
    ensures Enqueued(gvr, kind, cb).value.key == BuildKey(gvr, kind, Subject(cb).value.ns, Subject(cb).value.name)
  {
  }

  /** An enqueued item's key names the router's type and the object, and splitKey recovers both. */
  lemma ItemNamesSubject(gvr: Gvr, kind: string, cb: Callback)
    requires Enqueued(gvr, kind, cb).Some?
    ensures Subject(cb).Some?
    ensures
      var o := Subject(cb).value;
      Free(gvr, kind, o.ns, o.name) ==>
        SplitKey(Enqueued(gvr, kind, cb).value.key) == Parts(gvr, kind, o.ns, o.name)
  {
    ItemKey(gvr, kind, cb);
    var o := Subject(cb).value;
    if Free(gvr, kind, o.ns, o.name) { FreeRoundTrips(gvr, kind, o.ns, o.name); }
  }

  /** So reconcile of an add or update item never fails on its key or its informer: unless the
      store itself errs, it handles the stored object as an update, or skips it when it is gone. */
  lemma ReconcileReachesStore(infs: seq<Informer>, i: nat, cb: Callback, store: (nat, string) -> Stored)
    requires AllPlain(infs) && i < |infs|
    requires Enqueued(infs[i].gvr, infs[i].kind, cb).Some? && !ReportsDeletion(cb)
    requires Subject(cb).Some? && '/' !in Subject(cb).value.ns && '/' !in Subject(cb).value.name
    requires infs[i].ns == "" || infs[i].ns == Subject(cb).value.ns
    ensures
      var item := Enqueued(infs[i].gvr, infs[i].kind, cb).value;
      var o := Subject(cb).value;
      var m := RegisterAll(map[], infs);
      var inf := Lookup(m, infs[i].gvr, infs[i].kind, o.ns);
      inf.Some? &&
      match store(inf.value.id, MetaKey(o.ns, o.name))
      case StoreError => Reconcile(m, store, item) == Failed
      case Missing => Reconcile(m, store, item) == Skipped
      case Found(x) => Reconcile(m, store, item) == Handled(x, M.Update, TargetOf(infs[i].gvr), infs[i].gvr.resource)
  {
    LookupFindsCover(infs, i, Subject(cb).value.ns);
    ItemNamesSubject(infs[i].gvr, infs[i].kind, cb);
    ItemCarriesDeletion(infs[i].gvr, infs[i].kind, cb);
  }

  lemma ItemCarriesDeletion(gvr: Gvr, kind: string, cb: Callback)
    requires Enqueued(gvr, kind, cb).Some?
    ensures Enqueued(gvr, kind, cb).value.obj.Some? <==> ReportsDeletion(cb)
  {
  }

  lemma OperationFollowsItem(m: Registry, store: (nat, string) -> Stored, item: QueueItem)
    requires Reconcile(m, store, item).Handled?
    ensures
      var out := Reconcile(m, store, item);
      if item.obj.Some? then out.op == M.Delete && out.target == M.StorageTarget && out.o == item.obj.value
      else out.op == M.Update
  {
  }

  /** The manager only ever sees updates: an item that carries an object goes to storage, even for
      a CRD, so no delete callback reaches the manager. */
  lemma ManagerSeesOnlyUpdates(gvr: Gvr, kind: string, cb: Callback, m: Registry, store: (nat, string) -> Stored)
    requires Enqueued(gvr, kind, cb).Some?
    ensures
      var out := Reconcile(m, store, Enqueued(gvr, kind, cb).value);
      out.Handled? && out.target.ManagerTarget? ==>
        out.op == M.Update && !ReportsDeletion(cb)
  {
    var item := Enqueued(gvr, kind, cb).value;
    ItemCarriesDeletion(gvr, kind, cb);
    if Reconcile(m, store, item).Handled? { OperationFollowsItem(m, store, item); }
  }
}
