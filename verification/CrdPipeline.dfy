/** CRDs on their way to the manager: from a router callback through the work queue and reconcile
    (internal/router) to the event on which the manager starts or stops routers
    (internal/manager). */
module CrdPipeline {
  import opened Jobs
  import opened CrdExtract
  import opened RouterKeys
  import opened WorkerPool
  import M = Manager

  /** One reconcile: the callback that caused it, and the registry and the stores as they are when
      the item's turn comes, which may be much later. A retry is another turn. Objects are values
      here: the manager is taken to read of an object what reconcile found. SharedCrds is about the
      pointers that it does read through. */
  datatype Turn = Turn(gvr: Gvr, kind: string, cb: Callback, m: Registry, store: (nat, string) -> Stored)

  /** The event that the ingester publishes for what reconcile hands it. */
  function EventOf(out: Outcome): Option<M.Event> {
    match out
    case Handled(o, op, target, _) => Some(M.Event(target, op, o.kind, o.deletedAt.Some?, o.content))
    case _ => None
  }

  function Published(t: Turn): Option<M.Event> {
    match Enqueued(t.gvr, t.kind, t.cb)
    case None => None
    case Some(item) => EventOf(Reconcile(t.m, t.store, item))
  }

  function Events(ts: seq<Turn>): seq<M.Event> {
    if ts == [] then [] else
    match Published(ts[|ts| - 1])
    case None => Events(ts[..|ts| - 1])
    case Some(e) => Events(ts[..|ts| - 1]) + [e]
  }

  /** The manager after its handler has taken the events in this order. The turns may be in any
      order, and so may the handlers, as long as no storage handler changes an object meanwhile. */
  function After(groups: set<string>, ts: seq<Turn>): M.State { M.HandleAll(groups, Events(ts)) }

  // What a turn does, told without the queue, the keys and the events.

  /** The router's type and the object's name contain no separator of a key. */
  predicate Separable(t: Turn) {
    Subject(t.cb).Some? ==> Free(t.gvr, t.kind, Subject(t.cb).value.ns, Subject(t.cb).value.name)
  }

  /** The stored object that the turn looks at: none for a callback that reports a deletion. */
  function Seen(t: Turn): Option<Object> {
    if Enqueued(t.gvr, t.kind, t.cb).None? || ReportsDeletion(t.cb) || Subject(t.cb).None? then None else
    var o := Subject(t.cb).value;
    match Lookup(t.m, t.gvr, t.kind, o.ns)
    case None => None
    case Some(inf) =>
      match t.store(inf.id, MetaKey(o.ns, o.name))
      case Found(x) => Some(x)
      case _ => None
  }

  /** A CRD router's turn sees a CRD of a managed group. */
  predicate SeesCrd(groups: set<string>, t: Turn) {
    && t.gvr.group == CRD_GROUP && Seen(t).Some?
    && var o := Seen(t).value;
       o.kind == M.CRD_KIND && (Listed(o.content) == [] || Listed(o.content)[0].group in groups)
  }

  /** The CRD seen has a deletion timestamp by now, and lists the key. */
  ghost predicate SeesDeleting(groups: set<string>, t: Turn, key: string) {
    SeesCrd(groups, t) && Seen(t).value.deletedAt.Some? && M.Lists(Listed(Seen(t).value.content), key)
  }

  /** The CRD seen has no deletion timestamp, and lists the key with a version that is served. */
  ghost predicate SeesServing(groups: set<string>, t: Turn, key: string) {
    SeesCrd(groups, t) && Seen(t).value.deletedAt.None? && M.ListsServed(Listed(Seen(t).value.content), key)
  }

  lemma KeySplits(t: Turn)
    requires Separable(t) && Enqueued(t.gvr, t.kind, t.cb).Some?
    ensures Subject(t.cb).Some?
    ensures
      var o := Subject(t.cb).value;
      && SplitKey(Enqueued(t.gvr, t.kind, t.cb).value.key) == Parts(t.gvr, t.kind, o.ns, o.name)
      && ObjectKey(o.ns, o.name) == MetaKey(o.ns, o.name)
  {
    ItemNamesSubject(t.gvr, t.kind, t.cb);
  }

  /** A callback that reports a deletion causes no event for the manager, whatever it is about. */
  lemma DeletionGoesToStorage(t: Turn)
    requires ReportsDeletion(t.cb)
    ensures Published(t).Some? ==> Published(t).value.target == M.StorageTarget
  {
    if Enqueued(t.gvr, t.kind, t.cb).Some? {
      ItemCarriesDeletion(t.gvr, t.kind, t.cb);
    }
  }

  /** Any other turn publishes what it sees, as an update. */
  lemma SeenIsPublished(t: Turn)
    requires Separable(t) && !ReportsDeletion(t.cb)
    ensures Published(t) ==
      match Seen(t)
      case None => None
      case Some(o) => Some(M.Event(TargetOf(t.gvr), M.Update, o.kind, o.deletedAt.Some?, o.content))
  {
    if Enqueued(t.gvr, t.kind, t.cb).Some? {
      KeySplits(t);
      ItemCarriesDeletion(t.gvr, t.kind, t.cb);
    }
  }

  /** The manager gets a stopping event exactly when a CRD router's turn finds, in the store, an
      object with a deletion timestamp. */
  lemma StopEventExactly(t: Turn)
    requires Separable(t)
    ensures (&& Published(t).Some? && Published(t).value.target == M.ManagerTarget
             && M.EffectOf(Published(t).value) == M.Stops)
       <==> t.gvr.group == CRD_GROUP && Seen(t).Some? && Seen(t).value.deletedAt.Some?
  {
    if ReportsDeletion(t.cb) { DeletionGoesToStorage(t); } else { SeenIsPublished(t); }
  }

  /** The manager gets a stopping event for a key exactly when the callback did not itself report a
      deletion, the lookup succeeded, and the CRD stored by then has a deletion timestamp; and it
      gets a starting event exactly when that CRD has none. */
  lemma ManagerActsOnWhatIsSeen(groups: set<string>, t: Turn, key: string)
    requires Separable(t)
    ensures Published(t).Some? && M.StopsKey(groups, Published(t).value, key) <==> SeesDeleting(groups, t, key)
    ensures Published(t).Some? && M.StartsKey(groups, Published(t).value, key) <==> SeesServing(groups, t, key)
  {
    if ReportsDeletion(t.cb) { DeletionGoesToStorage(t); } else { SeenIsPublished(t); }
  }

  // Main results, over any turns in any order.

  /** The latest turn that concerns the key saw it served. */
  ghost predicate LatestServes(groups: set<string>, ts: seq<Turn>, key: string) {
    ts != [] &&
    var t := ts[|ts| - 1];
    (SeesServing(groups, t, key) || (!SeesDeleting(groups, t, key) && LatestServes(groups, ts[..|ts| - 1], key)))
  }

  lemma EventsSnoc(groups: set<string>, ts: seq<Turn>)
    requires ts != []
    ensures
      var before, e := After(groups, ts[..|ts| - 1]), Published(ts[|ts| - 1]);
      After(groups, ts) == if e.None? then before else M.Handle(groups, before, e.value)
  {
    var n := |ts| - 1;
    if Published(ts[n]).Some? {
      assert Events(ts)[..|Events(ts)| - 1] == Events(ts[..n]);
    }
  }

  lemma LatestSnoc(groups: set<string>, es: seq<M.Event>, e: M.Event, key: string)
    ensures M.LatestIsStart(groups, es + [e], key)
       <==> M.StartsKey(groups, e, key) || (!M.StopsKey(groups, e, key) && M.LatestIsStart(groups, es, key))
  {
    assert (es + [e])[..|es|] == es;
  }

  lemma {:induction false} LatestAgrees(groups: set<string>, ts: seq<Turn>, key: string)
    requires forall i :: 0 <= i < |ts| ==> Separable(ts[i])
    ensures M.LatestIsStart(groups, Events(ts), key) <==> LatestServes(groups, ts, key)
  {
    if ts != [] {
      var n := |ts| - 1;
      LatestAgrees(groups, ts[..n], key);
      ManagerActsOnWhatIsSeen(groups, ts[n], key);
      if Published(ts[n]).Some? { LatestSnoc(groups, Events(ts[..n]), Published(ts[n]).value, key); }
    }
  }

  /** The running routers follow what the turns see in the stores, not what the callbacks report:
      a key has a router exactly when the latest turn that saw a CRD listing it saw that CRD
      without a deletion timestamp. */
  lemma RoutersFollowStore(groups: set<string>, ts: seq<Turn>, key: string)
    requires forall i :: 0 <= i < |ts| ==> Separable(ts[i])
    ensures M.Exact(After(groups, ts))
    ensures key in After(groups, ts).informers <==> LatestServes(groups, ts, key)
  {
    M.RoutersFollowEvents(groups, Events(ts), key);
    LatestAgrees(groups, ts, key);
  }

  /** Turn i cancels router id: the router was live and the turn saw a CRD listing its key with a
      deletion timestamp. */
  ghost predicate CancelledAt(groups: set<string>, ts: seq<Turn>, i: nat, id: nat) {
    i < |ts| &&
    var s := After(groups, ts[..i]);
    M.Live(s, id) && SeesDeleting(groups, ts[i], M.KeyOf(s.routers[id]))
  }

  lemma CancelledAtPrefix(groups: set<string>, ts: seq<Turn>, i: nat, id: nat)
    requires i + 1 < |ts|
    ensures CancelledAt(groups, ts[..|ts| - 1], i, id) <==> CancelledAt(groups, ts, i, id)
  {
    assert ts[..|ts| - 1][..i] == ts[..i];
  }

  lemma TurnCancels(groups: set<string>, s: M.State, t: Turn, id: nat)
    requires M.Exact(s) && Separable(t)
    ensures
      var e := Published(t);
      id in (if e.None? then s else M.Handle(groups, s, e.value)).cancelled
      <==> id in s.cancelled || (M.Live(s, id) && SeesDeleting(groups, t, M.KeyOf(s.routers[id])))
  {
    if Published(t).Some? {
      M.CancelsExactly(groups, s, Published(t).value, id);
      M.CancelsLive(groups, s, Published(t).value, id);
    }
    if M.Live(s, id) { ManagerActsOnWhatIsSeen(groups, t, M.KeyOf(s.routers[id])); }
  }

  /** A router is cancelled if and only if, while it was live, some turn saw a CRD listing its key
      with a deletion timestamp. */
  lemma {:induction false} CancelledExactly(groups: set<string>, ts: seq<Turn>, id: nat)
    requires forall i :: 0 <= i < |ts| ==> Separable(ts[i])
    ensures id in After(groups, ts).cancelled <==> exists i: nat :: CancelledAt(groups, ts, i, id)
  {
    if ts != [] {
      var n := |ts| - 1;
      CancelledExactly(groups, ts[..n], id);
      EventsSnoc(groups, ts);
      RoutersFollowStore(groups, ts[..n], "");
      TurnCancels(groups, After(groups, ts[..n]), ts[n], id);
      forall i: nat | i < n ensures CancelledAt(groups, ts[..n], i, id) <==> CancelledAt(groups, ts, i, id) {
        CancelledAtPrefix(groups, ts, i, id);
      }
      if id in After(groups, ts).cancelled {
        if id in After(groups, ts[..n]).cancelled {
          var i: nat :| CancelledAt(groups, ts[..n], i, id);
          assert CancelledAt(groups, ts, i, id);
        } else {
          assert CancelledAt(groups, ts, n, id);
        }
      }
      if i: nat :| CancelledAt(groups, ts, i, id) {
        assert i == n || CancelledAt(groups, ts[..n], i, id);
      }
    }
  }

  /** Deleting a CRD does not by itself stop its routers: a callback that reports a deletion leaves
      the manager as it is, after any turns. */
  lemma DeletionLeavesRouters(groups: set<string>, ts: seq<Turn>, t: Turn)
    requires ReportsDeletion(t.cb)
    ensures After(groups, ts + [t]) == After(groups, ts)
  {
    assert (ts + [t])[..|ts|] == ts;
    EventsSnoc(groups, ts + [t]);
    DeletionGoesToStorage(t);
  }

  // Both sides, on one CRD.

  const CRDS := Gvr("apiextensions.k8s.io", "v1", "customresourcedefinitions")
  const KIND := "CustomResourceDefinition"
  const WIDGETS := Gvr("example.io", "v1", "widgets")

  /** The spec of a CRD that lists one version. */
  const SPEC: map<string, Json> := map[
    "group" := Str("example.io"), "names" := Json.Object(map["plural" := Str("widgets")]), "versions" := VERSIONS]

  const VERSIONS := List([Json.Object(map["name" := Str("v1")])])

  function Crd(resourceVersion: string, deletedAt: Option<int>): Object {
    WorkerPool.Object(CRD_NAME, "", "u", resourceVersion, "v1", KIND, 0, deletedAt, None,
                      map["spec" := Json.Object(SPEC)], None)
  }

  const CRD_NAME := "widgets.example.io"

  /** A turn of the static router for CRDs, while the store holds `stored`. */
  function CrdTurn(cb: Callback, stored: Object): Turn {
    Turn(CRDS, KIND, cb, Register(map[], Informer(CRDS, KIND, "", 0)), (id, key) => Found(stored))
  }

  lemma VersionsName()
    ensures Named(VERSIONS.items) == ["v1"]
  {
    assert VersionName(VERSIONS.items[0]) == "v1";
    assert Named(VERSIONS.items) == Named(VERSIONS.items[..0]) + ["v1"];
  }

  lemma ListsOne(crd: map<string, Json>, g: Gvr)
    requires WellShaped(crd) && Named(Get(Spec(crd), "versions").items) == [g.version]
    requires Get(Spec(crd), "group") == Str(g.group) && Get(Get(Spec(crd), "names").fields, "plural") == Str(g.resource)
    ensures Listed(crd) == [g]
  {
    var spec := Spec(crd);
    var names := Named(Get(spec, "versions").items);
    var plural := Get(Get(spec, "names").fields, "plural").AsString();
    assert Listed(crd)[0] == Gvr(Get(spec, "group").AsString(), names[0], plural);
    assert g == Gvr(g.group, g.version, g.resource);
  }

  lemma CrdLists(resourceVersion: string, deletedAt: Option<int>)
    ensures Listed(Crd(resourceVersion, deletedAt).content) == [WIDGETS]
  {
    VersionsName();
    ListsOne(Crd(resourceVersion, deletedAt).content, WIDGETS);
  }

  lemma GroupIsPlain()
    ensures RouterKeys.Plain(CRDS.group) && RouterKeys.Plain("v1")
  {
  }

  lemma ResourceIsPlain()
    ensures RouterKeys.Plain("customresourcedefinitions")
  {
  }

  lemma KindIsPlain()
    ensures RouterKeys.Plain(KIND)
  {
  }

  lemma NameIsPlain()
    ensures '/' !in CRD_NAME
  {
  }

  lemma CrdsArePlain()
    ensures PlainType(CRDS, KIND) && '/' !in CRD_NAME
  {
    GroupIsPlain();
    ResourceIsPlain();
    KindIsPlain();
    NameIsPlain();
  }

  lemma CrdTurnSees(cb: Callback, stored: Object)
    requires Enqueued(CRDS, KIND, cb).Some? && !ReportsDeletion(cb)
    ensures Seen(CrdTurn(cb, stored)) == Some(stored)
  {
    ItemKey(CRDS, KIND, cb);
  }

  /** The key has a router, and it is running. */
  ghost predicate RouterRuns(s: M.State, key: string) {
    key in s.informers && M.Live(s, s.informers[key])
  }

  ghost predicate About(cb: Callback) {
    Subject(cb).Some? && Subject(cb).value.ns == "" && Subject(cb).value.name == CRD_NAME
  }

  /** A turn about the CRD that finds it stored without, or with, a deletion timestamp. */
  lemma CrdTurnActs(groups: set<string>, cb: Callback, rv: string, deletedAt: Option<int>)
    requires WIDGETS.group in groups
    requires About(cb) && Enqueued(CRDS, KIND, cb).Some? && !ReportsDeletion(cb)
    ensures
      var t, key := CrdTurn(cb, Crd(rv, deletedAt)), M.KeyOf(WIDGETS);
      && Separable(t)
      && (deletedAt.None? ==> SeesServing(groups, t, key))
      && (deletedAt.Some? ==> SeesDeleting(groups, t, key))
  {
    CrdsArePlain();
    CrdTurnSees(cb, Crd(rv, deletedAt));
    CrdLists(rv, deletedAt);
    assert [WIDGETS][0] == WIDGETS;
  }

  /** The CRD is created: its router starts. */
  function Created(): seq<Turn> { [CrdTurn(OnAdd(Any.Plain(Crd("1", None))), Crd("1", None))] }

  lemma CreationStarts(groups: set<string>)
    requires WIDGETS.group in groups
    ensures Separable(Created()[0]) && LatestServes(groups, Created(), M.KeyOf(WIDGETS))
    ensures RouterRuns(After(groups, Created()), M.KeyOf(WIDGETS))
  {
    CrdTurnActs(groups, OnAdd(Any.Plain(Crd("1", None))), "1", None);
    RoutersFollowStore(groups, Created(), M.KeyOf(WIDGETS));
  }

  /** A deletion that leaves the router running: the update that sets the deletion timestamp and the
      final delete both go to storage. */
  lemma DeletionMissed(groups: set<string>, stored: Object)
    requires WIDGETS.group in groups
    ensures
      var dying := Any.Plain(Crd("2", Some(9)));
      var marked := CrdTurn(OnUpdate(Any.Plain(Crd("1", None)), dying), stored);
      var ts := Created() + [marked] + [CrdTurn(OnDelete(dying), stored)];
      RouterRuns(After(groups, ts), M.KeyOf(WIDGETS))
  {
    var dying := Any.Plain(Crd("2", Some(9)));
    var marked := CrdTurn(OnUpdate(Any.Plain(Crd("1", None)), dying), stored);
    CreationStarts(groups);
    DeletionLeavesRouters(groups, Created(), marked);
    DeletionLeavesRouters(groups, Created() + [marked], CrdTurn(OnDelete(dying), stored));
  }

  /** A deletion that stops the router: a plain update is still queued when the deletion timestamp
      is set, and finds it in the store. */
  lemma DeletionSeen(groups: set<string>)
    requires WIDGETS.group in groups
    ensures
      var plain := OnUpdate(Any.Plain(Crd("1", None)), Any.Plain(Crd("2", None)));
      var ts := Created() + [CrdTurn(plain, Crd("3", Some(9)))];
      && M.KeyOf(WIDGETS) in After(groups, Created()).informers
      && M.KeyOf(WIDGETS) !in After(groups, ts).informers
      && After(groups, Created()).informers[M.KeyOf(WIDGETS)] in After(groups, ts).cancelled
  {
    OvertakenSees(groups);
    StopsCreated(groups, CrdTurn(OnUpdate(Any.Plain(Crd("1", None)), Any.Plain(Crd("2", None))), Crd("3", Some(9))));
  }

  lemma OvertakenSees(groups: set<string>)
    requires WIDGETS.group in groups
    ensures
      var t := CrdTurn(OnUpdate(Any.Plain(Crd("1", None)), Any.Plain(Crd("2", None))), Crd("3", Some(9)));
      Separable(t) && SeesDeleting(groups, t, M.KeyOf(WIDGETS))
  {
    CrdTurnActs(groups, OnUpdate(Any.Plain(Crd("1", None)), Any.Plain(Crd("2", None))), "3", Some(9));
  }

  lemma StopsCreated(groups: set<string>, t: Turn)
    requires WIDGETS.group in groups
    requires Separable(t) && SeesDeleting(groups, t, M.KeyOf(WIDGETS))
    ensures
      var before, after := After(groups, Created()), After(groups, Created() + [t]);
      && M.KeyOf(WIDGETS) in before.informers && M.KeyOf(WIDGETS) !in after.informers
      && before.informers[M.KeyOf(WIDGETS)] in after.cancelled
  {
    CreationStarts(groups);
    StopsNext(groups, Created(), t, M.KeyOf(WIDGETS));
  }

  /** A turn that sees a deletion timestamp cancels the router of a key that has one. */
  lemma StopsNext(groups: set<string>, ts: seq<Turn>, t: Turn, key: string)
    requires (forall i :: 0 <= i < |ts| ==> Separable(ts[i])) && Separable(t)
    requires key in After(groups, ts).informers && SeesDeleting(groups, t, key)
    ensures key !in After(groups, ts + [t]).informers
    ensures After(groups, ts).informers[key] in After(groups, ts + [t]).cancelled
  {
    var us, s := ts + [t], After(groups, ts);
    assert us[..|ts|] == ts;
    EventsSnoc(groups, us);
    RoutersFollowStore(groups, ts, key);
    RoutersFollowStore(groups, us, key);
    TurnCancels(groups, s, t, s.informers[key]);
  }
}
