/** The storage event handler of internal/storage/storage.go: it normalises the deletion timestamp
    and builds the record that the batch worker writes. */
module Storage {
  import opened Jobs
  import opened Records
  import opened CrdExtract
  import opened Strings
  import opened RouterKeys
  import opened WorkerPool
  import M = Manager

  /** Deletion timestamps are removed until the resource is deleted, and added when it is. */
  function Normalise(op: M.Operation, o: Object, now: int): Object {
    match op
    case Create => o.(deletedAt := None)
    case Update => o.(deletedAt := None)
    case Delete => if o.deletedAt.None? then o.(deletedAt := Some(now)) else o
    case Unknown => o
  }

  /** schema.ParseGroupVersion. */
  function ParseGroupVersion(api: string): Option<(string, string)> {
    if api == "" || api == "/" then Some(("", "")) else
    var p := Split(api, '/');
    if |p| == 1 then Some(("", api)) else if |p| == 2 then Some((p[0], p[1])) else None
  }

  function GlobalUid(cluster: string, uid: string): string { cluster + ":" + uid }

  /** The record built of an object that was encoded before as `raw`, or None where the handler
      returns an error. */
  function BuildRecord(o: Object, raw: seq<byte>, resource: string, cluster: string, later: int,
                       encodeStatus: string -> seq<byte>): Option<Record>
  {
    var gv := ParseGroupVersion(o.apiVersion);
    if gv.None? || o.uid == "" then None else
    Some(Record(
      o.createdAt, later, o.deletedAt, cluster, o.uid, GlobalUid(cluster, o.uid), o.ns,
      gv.value.0, gv.value.1, o.kind, o.name, resource,
      if o.compositionLabel.Some? then o.compositionLabel.value else o.uid,
      raw,
      if o.status.Some? then Some(encodeStatus(o.status.value)) else None))
  }

  /** The record pushed for an event when nobody else touches the object meanwhile. The clock is
      read once for a missing deletion timestamp and once for updated_at. */
  function Store(op: M.Operation, source: Object, resource: string, cluster: string,
                 now: int, later: int, encode: Object -> seq<byte>, encodeStatus: string -> seq<byte>): Option<Record>
  {
    var o := Normalise(op, source, now);
    BuildRecord(o, encode(o), resource, cluster, later, encodeStatus)
  }

  /** The record that the handler pushes for what reconcile published; events for the manager are
      not for it. */
  function StoreOutcome(out: Outcome, cluster: string, now: int, later: int,
                        encode: Object -> seq<byte>, encodeStatus: string -> seq<byte>): Option<Record>
  {
    if !out.Handled? || out.target != M.StorageTarget then None
    else Store(out.op, out.o, out.resource, cluster, now, later, encode, encodeStatus)
  }

  /** The row written for an event: deleted_at as normalised, and raw the object with that same
      timestamp. */
  ghost predicate MarkedAs(row: Row, o: Object, at: Option<int>, cluster: string, encode: Object -> seq<byte>) {
    && row.deletedAt == Time(at)
    && row.raw == Blob(Some(encode(o.(deletedAt := at))))
    && row.uid == Text(cluster + ":" + o.uid) && o.uid != ""
  }

  /** The columns that are not about the object's identity or deletion: when it was created and when
      the row was made, the composition it belongs to (by its label, or else itself) and its
      status. */
  ghost predicate Describes(row: Row, o: Object, later: int, encodeStatus: string -> seq<byte>) {
    && row.rest.createdAt == Time(Some(o.createdAt)) && row.rest.updatedAt == Time(Some(later))
    && (forall c :: o.compositionLabel == Some(c) ==> row.rest.compositionId == Text(c))
    && (o.compositionLabel == None ==> row.rest.compositionId == Text(o.uid))
    && (forall st :: o.status == Some(st) ==> row.rest.statusRaw == Blob(Some(encodeStatus(st))))
    && (o.status == None ==> row.rest.statusRaw == Blob(None))
  }

  /** The columns that say which object a row is about. */
  ghost predicate Identifies(row: Row, o: Object, resource: string, cluster: string) {
    && row.rest.namespace == Text(o.ns) && row.rest.resourceName == Text(o.name)
    && row.rest.resourceKind == Text(o.kind) && row.rest.resourcePlural == Text(resource)
    && row.rest.clusterName == Text(cluster) && row.rest.uid == Text(o.uid)
    && row.rest.resourceGroup.Text? && row.rest.resourceVersion.Text?
    && (o.apiVersion != "/" ==>
          o.apiVersion ==
            (if '/' in o.apiVersion then row.rest.resourceGroup.s + "/" else "") + row.rest.resourceVersion.s)
  }

  /** An apiVersion is refused exactly when it has two or more '/'. */
  lemma GroupVersionExactly(api: string)
    ensures ParseGroupVersion(api).None? <==> Occurrences(api, '/') >= 2
  {
    PiecesCounted(api, '/');
  }

  lemma GroupVersionRejoins(api: string)
    requires ParseGroupVersion(api).Some? && api != "/"
    ensures
      var (g, v) := ParseGroupVersion(api).value;
      api == (if '/' in api then g + "/" else "") + v
  {
    if Cut(api, '/').Some? {
      var (b, a) := Cut(api, '/').value;
      assert Split(api, '/') == [b] + Split(a, '/');
      assert Cut(a, '/').Some? ==> |Split(a, '/')| >= 2;
    }
  }

  lemma StoredColumns(op: M.Operation, o: Object, resource: string, cluster: string, now: int, later: int,
                      encode: Object -> seq<byte>, encodeStatus: string -> seq<byte>)
    requires Store(op, o, resource, cluster, now, later, encode, encodeStatus).Some?
    ensures
      var rec := Store(op, o, resource, cluster, now, later, encode, encodeStatus).value;
      && rec.namespace == o.ns && rec.resourceName == o.name && rec.resourceKind == o.kind
      && rec.resourcePlural == resource && rec.clusterName == cluster && rec.uid == o.uid
      && ParseGroupVersion(o.apiVersion) == Some((rec.resourceGroup, rec.resourceVersion))
      && Describes(ToRow(rec), o, later, encodeStatus)
  {
  }

  lemma RecordIdentifies(rec: Record, o: Object, resource: string, cluster: string)
    requires rec.namespace == o.ns && rec.resourceName == o.name && rec.resourceKind == o.kind
    requires rec.resourcePlural == resource && rec.clusterName == cluster && rec.uid == o.uid
    requires ParseGroupVersion(o.apiVersion) == Some((rec.resourceGroup, rec.resourceVersion))
    ensures Identifies(ToRow(rec), o, resource, cluster)
  {
    if o.apiVersion != "/" { GroupVersionRejoins(o.apiVersion); }
  }

  /** A stored row identifies its object: in particular group and version rejoin to apiVersion. */
  lemma StoredRowIdentifies(op: M.Operation, o: Object, resource: string, cluster: string, now: int, later: int,
                            encode: Object -> seq<byte>, encodeStatus: string -> seq<byte>)
    requires Store(op, o, resource, cluster, now, later, encode, encodeStatus).Some?
    ensures
      var rec := Store(op, o, resource, cluster, now, later, encode, encodeStatus).value;
      Identifies(ToRow(rec), o, resource, cluster) && Describes(ToRow(rec), o, later, encodeStatus)
  {
    var rec := Store(op, o, resource, cluster, now, later, encode, encodeStatus).value;
    StoredColumns(op, o, resource, cluster, now, later, encode, encodeStatus);
    RecordIdentifies(rec, o, resource, cluster);
  }

  lemma StoreMarks(op: M.Operation, o: Object, resource: string, cluster: string, now: int, later: int,
                   encode: Object -> seq<byte>, encodeStatus: string -> seq<byte>)
    requires op == M.Create || op == M.Update || op == M.Delete
    requires Store(op, o, resource, cluster, now, later, encode, encodeStatus).Some?
    ensures
      var row := ToRow(Store(op, o, resource, cluster, now, later, encode, encodeStatus).value);
      if op != M.Delete then MarkedAs(row, o, None, cluster, encode)
      else MarkedAs(row, o, Some(if o.deletedAt.Some? then o.deletedAt.value else now), cluster, encode)
  {
  }

  lemma OutcomeMarks(out: Outcome, cluster: string, now: int, later: int,
                     encode: Object -> seq<byte>, encodeStatus: string -> seq<byte>)
    requires out.Handled? && (out.op == M.Update || (out.op == M.Delete && out.target == M.StorageTarget))
    ensures
      var rec := StoreOutcome(out, cluster, now, later, encode, encodeStatus);
      && (rec.Some? <==> out.target == M.StorageTarget && ParseGroupVersion(out.o.apiVersion).Some? && out.o.uid != "")
      && (rec.Some? ==>
            if out.op == M.Update then MarkedAs(ToRow(rec.value), out.o, None, cluster, encode)
            else MarkedAs(ToRow(rec.value), out.o,
                          Some(if out.o.deletedAt.Some? then out.o.deletedAt.value else now), cluster, encode))
  {
    if Store(out.op, out.o, out.resource, cluster, now, later, encode, encodeStatus).Some? {
      StoreMarks(out.op, out.o, out.resource, cluster, now, later, encode, encodeStatus);
    }
  }

  /** What the handler pushes for a callback, if its item is reconciled with this registry and this
      store. */
  function StoreCallback(gvr: Gvr, kind: string, cb: Callback, m: Registry, store: (nat, string) -> Stored,
                         cluster: string, now: int, later: int,
                         encode: Object -> seq<byte>, encodeStatus: string -> seq<byte>): Option<Record>
  {
    match Enqueued(gvr, kind, cb)
    case None => None
    case Some(item) => StoreOutcome(Reconcile(m, store, item), cluster, now, later, encode, encodeStatus)
  }

  /** For objects as the handler finds them, and left alone until the record is built: deleted_at of
      the written row is set exactly when the callback reports a deletion. It is then the timestamp
      the object has if it has one, the handler's clock otherwise. What the handlers do to objects
      they share is in SharedObjects. A row is written for every deletion of an identifiable object,
      and for what the store has of it otherwise, except that updates of objects in the group of
      CRDs go to the manager and write none; nothing is written for a callback that queues
      nothing. */
  lemma DeletedAtFollowsCallback(gvr: Gvr, kind: string, cb: Callback, m: Registry, store: (nat, string) -> Stored,
                                 cluster: string, now: int, later: int,
                                 encode: Object -> seq<byte>, encodeStatus: string -> seq<byte>)
    ensures
      var rec := StoreCallback(gvr, kind, cb, m, store, cluster, now, later, encode, encodeStatus);
      if !Queues(cb) then rec.None? else
      && Enqueued(gvr, kind, cb).Some?
      && var out := Reconcile(m, store, Enqueued(gvr, kind, cb).value);
         && (rec.Some? <==> out.Handled? && (ReportsDeletion(cb) || out.target == M.StorageTarget) &&
                            ParseGroupVersion(out.o.apiVersion).Some? && out.o.uid != "")
         && (rec.Some? ==>
               if ReportsDeletion(cb)
               then MarkedAs(ToRow(rec.value), out.o,
                             Some(if out.o.deletedAt.Some? then out.o.deletedAt.value else now), cluster, encode)
               else MarkedAs(ToRow(rec.value), out.o, None, cluster, encode))
  {
    QueuesExactly(gvr, kind, cb);
    if Queues(cb) {
      var item := Enqueued(gvr, kind, cb).value;
      var out := Reconcile(m, store, item);
      ItemCarriesDeletion(gvr, kind, cb);
      if out.Handled? {
        OperationFollowsItem(m, store, item);
        OutcomeMarks(out, cluster, now, later, encode, encodeStatus);
      }
    }
  }

  /** Every deletion of an identifiable object is recorded, whatever the registry and the store hold:
      a row with deleted_at is written for it. */
  lemma DeletionAlwaysRecorded(gvr: Gvr, kind: string, cb: Callback, m: Registry, store: (nat, string) -> Stored,
                               cluster: string, now: int, later: int,
                               encode: Object -> seq<byte>, encodeStatus: string -> seq<byte>)
    requires Queues(cb) && ReportsDeletion(cb) && Subject(cb).Some?
    requires Free(gvr, kind, Subject(cb).value.ns, Subject(cb).value.name)
    requires ParseGroupVersion(Subject(cb).value.apiVersion).Some? && Subject(cb).value.uid != ""
    ensures
      var rec := StoreCallback(gvr, kind, cb, m, store, cluster, now, later, encode, encodeStatus);
      var o := Subject(cb).value;
      rec.Some? &&
      MarkedAs(ToRow(rec.value), o, Some(if o.deletedAt.Some? then o.deletedAt.value else now), cluster, encode)
  {
    QueuesExactly(gvr, kind, cb);
    ItemNamesSubject(gvr, kind, cb);
    DeletedAtFollowsCallback(gvr, kind, cb, m, store, cluster, now, later, encode, encodeStatus);
  }

  /** Objects of one cluster share a row only if they have the same UID. */
  lemma RowsAreKeyedByUid(cluster: string, a: string, b: string)
    requires GlobalUid(cluster, a) == GlobalUid(cluster, b)
    ensures a == b
  {
    SamePrefix(cluster + ":", a, b);
  }
}
