/** What the manager makes of CRDs that it shares with the storage handlers: it reads the deletion
    timestamp through the pointer when it handles the event (internal/manager/manager.go). */
module SharedCrds {
  import opened Jobs
  import opened CrdExtract
  import opened WorkerPool
  import opened SharedObjects
  import M = Manager

  // Main results: the manager reads through the pointer.

  ghost predicate InRange(born: seq<Object>, ms: seq<Mark>, done: seq<Managed>) {
    forall m :: m in done ==> m.r < |born| && m.at <= |ms|
  }

  /** What the manager's handler reads of the object when it runs. */
  function ReadOf(born: seq<Object>, ms: seq<Mark>, m: Managed): M.Event
    requires m.r < |born| && m.at <= |ms|
  {
    var o := At(born, ms[..m.at], m.r);
    M.Event(M.ManagerTarget, M.Update, o.kind, o.deletedAt.Some?, o.content)
  }

  ghost function Reads(born: seq<Object>, ms: seq<Mark>, done: seq<Managed>): (es: seq<M.Event>)
    requires InRange(born, ms, done)
    ensures |es| == |done|
  {
    seq(|done|, i requires 0 <= i < |done| => assert done[i] in done; ReadOf(born, ms, done[i]))
  }

  lemma InRangeHere(s: State)
    requires Histories(s)
    ensures InRange(s.born, s.marks, s.managed)
  {
    forall m | m in s.managed ensures m.r < |s.born| && m.at <= |s.marks| { assert GoodManaged(s, m); }
  }

  /** The manager after the events it has handled. */
  ghost function ManagerOf(groups: set<string>, s: State): M.State
    requires Histories(s)
  {
    InRangeHere(s);
    M.HandleAll(groups, Reads(s.born, s.marks, s.managed))
  }

  lemma HandleSnoc(groups: set<string>, es: seq<M.Event>, e: M.Event)
    ensures M.HandleAll(groups, es + [e]) == M.Handle(groups, M.HandleAll(groups, es), e)
  {
    assert (es + [e])[..|es|] == es;
  }

  /** The manager's step handles the event with the object as it is at that moment. */
  lemma ManageHandles(groups: set<string>, s: State, i: nat)
    requires Inv(s) && Enabled(s, Manage(i))
    ensures
      var t, e := Apply(s, Manage(i)), s.events[i];
      && Histories(t) && e.r < |s.heap|
      && var o := s.heap[e.r];
         ManagerOf(groups, t) == M.Handle(groups, ManagerOf(groups, s),
                                          M.Event(e.target, e.op, o.kind, o.deletedAt.Some?, o.content))
  {
    var t, e := Apply(s, Manage(i)), s.events[i];
    ManageKeeps(s, i);
    InRangeHere(s);
    InRangeHere(t);
    assert e in s.events;
    var read := ReadOf(s.born, s.marks, Managed(e.r, |s.marks|));
    assert s.marks[..|s.marks|] == s.marks;
    assert Reads(t.born, t.marks, t.managed) == Reads(s.born, s.marks, s.managed) + [read];
    HandleSnoc(groups, Reads(s.born, s.marks, s.managed), read);
  }

  /** No other step concerns the manager. */
  lemma OthersLeaveManager(groups: set<string>, s: State, l: Label)
    requires Inv(s) && Enabled(s, l) && !l.Manage?
    ensures Histories(Apply(s, l)) && ManagerOf(groups, Apply(s, l)) == ManagerOf(groups, s)
  {
    var t := Apply(s, l);
    StepKeeps(s, l);
    InRangeHere(s);
    InRangeHere(t);
    assert Grows(s, t) && t.managed == s.managed;
    forall i | 0 <= i < |s.managed|
      ensures Reads(t.born, t.marks, t.managed)[i] == Reads(s.born, s.marks, s.managed)[i]
    {
      assert s.managed[i] in s.managed;
      AtStable(s, t, s.managed[i].r, s.managed[i].at);
    }
    assert Reads(t.born, t.marks, t.managed) == Reads(s.born, s.marks, s.managed);
  }

  /** Of the first `at` changes, one was made to r. */
  ghost predicate ChangedBefore(ms: seq<Mark>, r: Ref, at: nat) {
    exists j: nat :: j < at && j < |ms| && ms[j].r == r
  }

  /** The manager reads a deletion timestamp exactly when the API server delivered the object with
      one, or a storage handler of a delete has set one on the same object before. */
  lemma DeletingExactly(s: State, m: Managed)
    requires Histories(s) && GoodManaged(s, m)
    ensures ReadOf(s.born, s.marks, m).deleting <==> s.born[m.r].deletedAt.Some? || ChangedBefore(s.marks, m.r, m.at)
  {
    var ms, t := s.marks[..m.at], s.born[m.r].deletedAt;
    ProperMarks(s);
    forall i | 0 <= i < |ms| ensures !Clears(ms[i], m.r) { assert s.marks[i] in s.marks; }
    assert ms[..0] == [];
    SinceClear(t, ms, m.r, 0);
    if ChangedBefore(s.marks, m.r, m.at) {
      var j: nat :| j < m.at && j < |s.marks| && s.marks[j].r == m.r;
      assert Sets(ms[j], m.r);
      var i := FirstSetExists(ms, m.r, 0, j);
    } else {
      assert Untouched(ms, m.r, 0);
      UntouchedStays(t, ms, m.r, 0);
    }
  }

  /** The n-th handled event concerns a CRD of a managed group that lists the key, and the CRD was
      delivered with a deletion timestamp or a storage handler had set one on it by then. */
  ghost predicate StopsAt(groups: set<string>, s: State, n: nat, key: string)
    requires Histories(s)
  {
    && n < |s.managed| && s.managed[n].r < |s.born|
    && var o := s.born[s.managed[n].r];
       && o.kind == M.CRD_KIND && (Listed(o.content) == [] || Listed(o.content)[0].group in groups)
       && M.Lists(Listed(o.content), key)
       && (o.deletedAt.Some? || ChangedBefore(s.marks, s.managed[n].r, s.managed[n].at))
  }

  lemma ReadStops(groups: set<string>, s: State, n: nat, key: string)
    requires Histories(s) && n < |s.managed| && InRange(s.born, s.marks, s.managed)
    ensures M.StopsKey(groups, Reads(s.born, s.marks, s.managed)[n], key) <==> StopsAt(groups, s, n, key)
  {
    var m := s.managed[n];
    assert m in s.managed;
    DeletingExactly(s, m);
  }

  /** The manager's n-th event cancels router id: the router was live, and the event stops its key. */
  ghost predicate CancelledAt(groups: set<string>, s: State, n: nat, id: nat)
    requires Histories(s) && InRange(s.born, s.marks, s.managed)
  {
    n < |s.managed| &&
    var before := M.HandleAll(groups, Reads(s.born, s.marks, s.managed)[..n]);
    M.Live(before, id) && StopsAt(groups, s, n, M.KeyOf(before.routers[id]))
  }

  /** Over every run: a router is cancelled if and only if, while it was live, the manager handled
      the event of a CRD listing its key that was delivered with a deletion timestamp, or on which
      a storage handler had set one by then. */
  lemma CancelledExactly(groups: set<string>, ls: seq<Label>, id: nat)
    requires Valid(Init(), ls)
    ensures
      var s := Final(Init(), ls);
      && Histories(s) && InRange(s.born, s.marks, s.managed)
      && (id in ManagerOf(groups, s).cancelled <==> exists n: nat :: CancelledAt(groups, s, n, id))
  {
    InitInv();
    RunKeeps(Init(), ls);
    var s := Final(Init(), ls);
    InRangeHere(s);
    var es := Reads(s.born, s.marks, s.managed);
    M.CancelledByEvent(groups, es, id);
    forall n: nat ensures M.CancelsAt(groups, es, n, id) <==> CancelledAt(groups, s, n, id) {
      AgreesAt(groups, s, n, id);
    }
    if n: nat :| M.CancelsAt(groups, es, n, id) { assert CancelledAt(groups, s, n, id); }
    if n: nat :| CancelledAt(groups, s, n, id) { assert M.CancelsAt(groups, es, n, id); }
  }

  lemma AgreesAt(groups: set<string>, s: State, n: nat, id: nat)
    requires Histories(s) && InRange(s.born, s.marks, s.managed)
    ensures M.CancelsAt(groups, Reads(s.born, s.marks, s.managed), n, id) <==> CancelledAt(groups, s, n, id)
  {
    if n < |s.managed| {
      var before := M.HandleAll(groups, Reads(s.born, s.marks, s.managed)[..n]);
      if M.Live(before, id) { ReadStops(groups, s, n, M.KeyOf(before.routers[id])); }
    }
  }

  /** The n-th handled event concerns a CRD of a managed group that lists the key with a version that
      is served, and nothing has given the CRD a deletion timestamp by then. */
  ghost predicate ServesAt(groups: set<string>, s: State, n: nat, key: string)
    requires Histories(s)
  {
    && n < |s.managed| && s.managed[n].r < |s.born|
    && var o := s.born[s.managed[n].r];
       && o.kind == M.CRD_KIND && (Listed(o.content) == [] || Listed(o.content)[0].group in groups)
       && M.ListsServed(Listed(o.content), key)
       && o.deletedAt.None? && !ChangedBefore(s.marks, s.managed[n].r, s.managed[n].at)
  }

  lemma ReadStarts(groups: set<string>, s: State, n: nat, key: string)
    requires Histories(s) && n < |s.managed| && InRange(s.born, s.marks, s.managed)
    ensures M.StartsKey(groups, Reads(s.born, s.marks, s.managed)[n], key) <==> ServesAt(groups, s, n, key)
  {
    var m := s.managed[n];
    assert m in s.managed;
    DeletingExactly(s, m);
  }

  /** The n-th handled event starts the key and no later one stops it. */
  ghost predicate ServedLast(groups: set<string>, s: State, n: nat, key: string)
    requires Histories(s)
  {
    ServesAt(groups, s, n, key) && forall i: nat :: n < i < |s.managed| ==> !StopsAt(groups, s, i, key)
  }

  lemma ServedLastAgrees(groups: set<string>, s: State, n: nat, key: string)
    requires Histories(s) && InRange(s.born, s.marks, s.managed)
    ensures M.StartedLast(groups, Reads(s.born, s.marks, s.managed), n, key) <==> ServedLast(groups, s, n, key)
  {
    if n < |s.managed| {
      ReadStarts(groups, s, n, key);
      forall i: nat | i < |s.managed|
        ensures M.StopsKey(groups, Reads(s.born, s.marks, s.managed)[i], key) <==> StopsAt(groups, s, i, key)
      {
        ReadStops(groups, s, i, key);
      }
    }
  }

  /** Over every run: the live routers are the map entries, and a key has one if and only if some
      handled event served it and none handled later stopped it. */
  lemma PresentExactly(groups: set<string>, ls: seq<Label>, key: string)
    requires Valid(Init(), ls)
    ensures
      var s := Final(Init(), ls);
      && Histories(s) && M.Exact(ManagerOf(groups, s))
      && (key in ManagerOf(groups, s).informers <==> exists n: nat :: ServedLast(groups, s, n, key))
  {
    InitInv();
    RunKeeps(Init(), ls);
    var s := Final(Init(), ls);
    InRangeHere(s);
    var es := Reads(s.born, s.marks, s.managed);
    M.RoutersFollowEvents(groups, es, key);
    M.LatestMeans(groups, es, key);
    if n: nat :| M.StartedLast(groups, es, n, key) { ServedLastAgrees(groups, s, n, key); }
    if n: nat :| ServedLast(groups, s, n, key) { ServedLastAgrees(groups, s, n, key); }
  }

  // A run in which a storage handler stops a router.

  /** Two versions of a CRD that lists g, both without a deletion timestamp. */
  ghost predicate CrdVersions(groups: set<string>, k: Key, c: Object, d: Object, g: Gvr) {
    && k.gvr.group == CRD_GROUP && c.ns == d.ns == k.ns && c.name == d.name == k.name
    && c.resourceVersion != d.resourceVersion && c.deletedAt.None? && d.deletedAt.None?
    && c.kind == d.kind == M.CRD_KIND && Listed(c.content) == Listed(d.content) == [g]
    && M.Startable(g) && g.group in groups
  }

  /** The first version was handled by the manager, and the event of the second is under way. */
  function SecondUnderWay(k: Key, c: Object, d: Object): State {
    State([c, d], [k, k], [c, d], map[k := 1], [], [], [Event(1, M.Update, M.ManagerTarget, k.gvr.resource)],
          map[], [], [], [Managed(0, 0)])
  }

  lemma FirstHandled(k: Key, c: Object) returns (ls: seq<Label>)
    requires k.gvr.group == CRD_GROUP && c.ns == k.ns && c.name == k.name
    ensures Valid(Init(), ls)
    ensures Final(Init(), ls) == State([c], [k], [c], map[k := 0], [], [], [], map[], [], [], [Managed(0, 0)])
  {
    var q := Init();
    ls := AddQueued(k, c);
    Snoc(q, ls, Reconcile(0)); ls := ls + [Reconcile(0)];
    Snoc(q, ls, Manage(0)); ls := ls + [Manage(0)];
  }

  lemma SecondReached(k: Key, c: Object, d: Object) returns (ls: seq<Label>)
    requires k.gvr.group == CRD_GROUP && c.ns == d.ns == k.ns && c.name == d.name == k.name
    requires c.resourceVersion != d.resourceVersion && d.deletedAt.None?
    ensures Valid(Init(), ls) && Final(Init(), ls) == SecondUnderWay(k, c, d)
  {
    var q, t := Init(), SecondUnderWay(k, c, d);
    ls := FirstHandled(k, c);
    Snoc(q, ls, Arrive(k, d)); ls := ls + [Arrive(k, d)];
    assert Final(q, ls) == t.(notes := [Changed(k, Some(0), 1)], events := []);
    Snoc(q, ls, Deliver(0)); ls := ls + [Deliver(0)];
    assert Final(q, ls) == t.(queue := [Item(k, None)], events := []);
    Snoc(q, ls, Reconcile(0)); ls := ls + [Reconcile(0)];
  }

  /** The cached object vanishes, and the deletion is published with the pointer to it. */
  lemma VanishPublished(k: Key, c: Object, d: Object) returns (ls: seq<Label>)
    ensures
      var s := SecondUnderWay(k, c, d);
      && Valid(s, ls)
      && Final(s, ls) == s.(store := map[], events := s.events + [Event(1, M.Delete, M.StorageTarget, k.gvr.resource)])
  {
    var s := SecondUnderWay(k, c, d);
    ls := [];
    assert Final(s, ls) == s;
    Snoc(s, ls, Vanish(k)); ls := ls + [Vanish(k)];
    assert Final(s, ls) == s.(store := map[], notes := [Gone(k, 1, true)]);
    Snoc(s, ls, Deliver(0)); ls := ls + [Deliver(0)];
    assert Final(s, ls) == s.(store := map[], queue := [Item(k, Some(1))]);
    Snoc(s, ls, Reconcile(0)); ls := ls + [Reconcile(0)];
  }

  /** The storage handler sets its clock on the object before the manager handles its event. */
  lemma SetBeforeManaged(k: Key, c: Object, d: Object, now: int) returns (ls: seq<Label>)
    requires k.gvr.group == CRD_GROUP && c.ns == d.ns == k.ns && c.name == d.name == k.name
    requires c.resourceVersion != d.resourceVersion && d.deletedAt.None?
    ensures Valid(Init(), ls)
    ensures
      var s := Final(Init(), ls);
      && s.born == [c, d] && s.marks == [Mark(1, M.Delete, now)]
      && s.managed == [Managed(0, 0), Managed(1, 1)]
  {
    var q := Init();
    ls := SecondReached(k, c, d);
    var ms := VanishPublished(k, c, d);
    Append(q, ls, ms);
    ls := ls + ms;
    Snoc(q, ls, Change(1, 0, now)); ls := ls + [Change(1, 0, now)];
    Snoc(q, ls, Manage(0)); ls := ls + [Manage(0)];
  }

  lemma StartsFirst(groups: set<string>, e: M.Event, g: Gvr)
    requires M.Relevant(groups, e) && M.EffectOf(e) == M.Starts && Listed(e.crd) == [g] && M.Startable(g)
    ensures M.HandleAll(groups, [e]) == M.State(map[M.KeyOf(g) := 0], [g], {})
  {
    assert [e][..0] + [] == [];
    assert M.HandleAll(groups, [e]) == M.Handle(groups, M.HandleAll(groups, []), e);
    assert [g][..0] + [] == [];
    var s := M.State(map[], [], {});
    assert M.ActAll(s, M.Starts, [g]) == M.Act(M.ActAll(s, M.Starts, []), M.Starts, g);
  }

  lemma CancelsSecond(groups: set<string>, s: State, k: Key, c: Object, d: Object, g: Gvr)
    requires CrdVersions(groups, k, c, d, g)
    requires Histories(s) && s.born == [c, d] && |s.marks| == 1 && s.marks[0].r == 1
    requires s.managed == [Managed(0, 0), Managed(1, 1)] && InRange(s.born, s.marks, s.managed)
    ensures CancelledAt(groups, s, 1, 0)
  {
    var es := Reads(s.born, s.marks, s.managed);
    assert es[..1] == [es[0]];
    assert s.marks[..0] == [];
    assert es[0] == ReadOf(s.born, s.marks, Managed(0, 0));
    assert Listed(c.content)[0] == g && Listed(d.content)[0] == g;
    StartsFirst(groups, es[0], g);
    assert s.marks[0].r == s.managed[1].r;
    assert M.Lists(Listed(d.content), M.KeyOf(g));
  }

  /** A router is stopped although the API server delivered no CRD with a deletion timestamp and no
      reconcile saw one: the event of the CRD is under way when a new list no longer has it, and
      the storage handler of that deletion sets the timestamp on the shared object first. */
  lemma StoppedByStorage(groups: set<string>, k: Key, c: Object, d: Object, g: Gvr, now: int) returns (ls: seq<Label>)
    requires CrdVersions(groups, k, c, d, g)
    ensures Valid(Init(), ls)
    ensures
      var s := Final(Init(), ls);
      && s.born == [c, d] && s.marks == [Mark(1, M.Delete, now)]
      && Histories(s) && 0 in ManagerOf(groups, s).cancelled
  {
    ls := SetBeforeManaged(k, c, d, now);
    CancelledExactly(groups, ls, 0);
    CancelsSecond(groups, Final(Init(), ls), k, c, d, g);
  }
}
