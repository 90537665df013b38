/** The record the batch worker receives (internal/batch/types.go) and the row of
    krateo_resources it becomes. */
module Records {
  import opened Jobs

  newtype byte = x: int | 0 <= x < 256

  /** Instants and payloads are opaque; a nil pointer or slice is None. */
  datatype Record = Record(
    createdAt: int,
    updatedAt: int,
    deletedAt: Option<int>,
    clusterName: string,
    uid: string,
    globalUid: string,
    namespace: string,
    resourceGroup: string,
    resourceVersion: string,
    resourceKind: string,
    resourceName: string,
    resourcePlural: string,
    compositionId: string,
    raw: seq<byte>,
    statusRaw: Option<seq<byte>>)

  datatype Value = Time(t: Option<int>) | Text(s: string) | Blob(b: Option<seq<byte>>)

  const FIELDS := 15

  /** The parameters `sync` appends for one record, in its order. */
  function Fields(r: Record): (f: seq<Value>)
    ensures |f| == FIELDS
  {
    [Time(Some(r.createdAt)), Time(Some(r.updatedAt)), Time(r.deletedAt), Text(r.clusterName),
     Text(r.uid), Text(r.globalUid), Text(r.namespace), Text(r.resourceGroup),
     Text(r.resourceVersion), Text(r.resourceKind), Text(r.resourcePlural), Text(r.resourceName),
     Text(r.compositionId), Blob(Some(r.raw)), Blob(r.statusRaw)]
  }

  // The table's columns.

  datatype Column =
    | CreatedAt | UpdatedAt | DeletedAt | ClusterName | Uid | GlobalUid | Namespace
    | ResourceGroup | ResourceVersion | ResourceKind | ResourcePlural | ResourceName
    | CompositionId | Raw | StatusRaw

  /** What a record has for a column. */
  function Cell(r: Record, c: Column): Value {
    match c
    case CreatedAt => Time(Some(r.createdAt))
    case UpdatedAt => Time(Some(r.updatedAt))
    case DeletedAt => Time(r.deletedAt)
    case ClusterName => Text(r.clusterName)
    case Uid => Text(r.uid)
    case GlobalUid => Text(r.globalUid)
    case Namespace => Text(r.namespace)
    case ResourceGroup => Text(r.resourceGroup)
    case ResourceVersion => Text(r.resourceVersion)
    case ResourceKind => Text(r.resourceKind)
    case ResourcePlural => Text(r.resourcePlural)
    case ResourceName => Text(r.resourceName)
    case CompositionId => Text(r.compositionId)
    case Raw => Blob(Some(r.raw))
    case StatusRaw => Blob(r.statusRaw)
  }

  /** The columns that an upsert sets only on insert. */
  datatype Rest = Rest(
    createdAt: Value, updatedAt: Value, clusterName: Value, uid: Value, namespace: Value,
    resourceGroup: Value, resourceVersion: Value, resourceKind: Value, resourcePlural: Value,
    resourceName: Value, compositionId: Value, statusRaw: Value)

  /** A stored row: its key global_uid, the two columns that an upsert updates, and the rest. */
  datatype Row = Row(uid: Value, deletedAt: Value, raw: Value, rest: Rest)

  /** The row with these cells. */
  function RowWith(cell: Column -> Value): Row {
    Row(cell(GlobalUid), cell(DeletedAt), cell(Raw),
        Rest(cell(CreatedAt), cell(UpdatedAt), cell(ClusterName), cell(Uid), cell(Namespace),
             cell(ResourceGroup), cell(ResourceVersion), cell(ResourceKind), cell(ResourcePlural),
             cell(ResourceName), cell(CompositionId), cell(StatusRaw)))
  }

  /** What a row has in a column. */
  function CellOf(row: Row, c: Column): Value {
    match c
    case CreatedAt => row.rest.createdAt
    case UpdatedAt => row.rest.updatedAt
    case DeletedAt => row.deletedAt
    case ClusterName => row.rest.clusterName
    case Uid => row.rest.uid
    case GlobalUid => row.uid
    case Namespace => row.rest.namespace
    case ResourceGroup => row.rest.resourceGroup
    case ResourceVersion => row.rest.resourceVersion
    case ResourceKind => row.rest.resourceKind
    case ResourcePlural => row.rest.resourcePlural
    case ResourceName => row.rest.resourceName
    case CompositionId => row.rest.compositionId
    case Raw => row.raw
    case StatusRaw => row.rest.statusRaw
  }

  lemma CellsOfRow(cell: Column -> Value, c: Column)
    ensures CellOf(RowWith(cell), c) == cell(c)
  {
  }

  lemma SameCellsSameRow(x: Row, y: Row)
    requires forall c: Column :: CellOf(x, c) == CellOf(y, c)
    ensures x == y
  {
    assert CellOf(x, GlobalUid) == CellOf(y, GlobalUid) && CellOf(x, DeletedAt) == CellOf(y, DeletedAt);
    assert CellOf(x, Raw) == CellOf(y, Raw);
    SameRest(x, y);
  }

  lemma SameRest(x: Row, y: Row)
    requires forall c: Column :: CellOf(x, c) == CellOf(y, c)
    ensures x.rest == y.rest
  {
    assert CellOf(x, CreatedAt) == CellOf(y, CreatedAt) && CellOf(x, UpdatedAt) == CellOf(y, UpdatedAt);
    assert CellOf(x, ClusterName) == CellOf(y, ClusterName) && CellOf(x, Uid) == CellOf(y, Uid);
    assert CellOf(x, Namespace) == CellOf(y, Namespace) && CellOf(x, ResourceGroup) == CellOf(y, ResourceGroup);
    assert CellOf(x, ResourceVersion) == CellOf(y, ResourceVersion);
    assert CellOf(x, ResourceKind) == CellOf(y, ResourceKind) && CellOf(x, ResourceName) == CellOf(y, ResourceName);
    assert CellOf(x, ResourcePlural) == CellOf(y, ResourcePlural);
    assert CellOf(x, CompositionId) == CellOf(y, CompositionId) && CellOf(x, StatusRaw) == CellOf(y, StatusRaw);
  }

  function ToRow(r: Record): Row { RowWith(c => Cell(r, c)) }

  function ToRows(rs: seq<Record>): (rows: seq<Row>)
    ensures |rows| == |rs|
    ensures forall i :: 0 <= i < |rs| ==> rows[i] == ToRow(rs[i])
  {
    seq(|rs|, i requires 0 <= i < |rs| => ToRow(rs[i]))
  }
}
