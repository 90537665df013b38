/** What gets through the pipeline over references: the cache follows the watch, every callback that
    should queue an item does, and no deletion is lost on its way to a record. */
module SharedFlow {
  import opened Jobs
  import opened WorkerPool
  import opened SharedObjects
  import M = Manager

  // The callbacks.

  /** The callback of a deletion always queues an item that carries the object. */
  lemma GoneIsQueued(s: State, i: nat)
    requires Enabled(s, Deliver(i)) && s.notes[i].Gone?
    ensures Apply(s, Deliver(i)).queue == s.queue + [Item(s.notes[i].k, Some(s.notes[i].r))]
  {
    var n := s.notes[i];
    QueuesExactly(n.k.gvr, n.k.kind, CallbackOf(s, n));
  }

  /** An update whose resource version did not change. */
  predicate Unchanged(s: State, n: Note)
    requires NoteInRange(s, n)
  {
    n.Changed? && n.before.Some? && s.heap[n.before.value].resourceVersion == s.heap[n.r].resourceVersion
  }

  /** An update, with another resource version, to an object that has a deletion timestamp by then. */
  predicate MarksDeletion(s: State, n: Note)
    requires NoteInRange(s, n)
  {
    n.Changed? && n.before.Some? && !Unchanged(s, n) && s.heap[n.r].deletedAt.Some?
  }

  /** The callback of an add or update queues an item exactly if the resource version is new, and the
      item carries the object exactly if this is an update that finds a deletion timestamp. */
  lemma ChangeIsQueued(s: State, i: nat)
    requires Enabled(s, Deliver(i)) && s.notes[i].Changed?
    ensures
      var n := s.notes[i];
      Apply(s, Deliver(i)).queue == s.queue +
        if Unchanged(s, n) then [] else [Item(n.k, if MarksDeletion(s, n) then Some(n.r) else None)]
  {
    var n := s.notes[i];
    QueuesExactly(n.k.gvr, n.k.kind, CallbackOf(s, n));
  }

  // The cache.

  /** The object under k according to the last report of the watch about it. */
  function Watched(ls: seq<Label>, k: Key): Option<Object> {
    if ls == [] then None else
    match ls[|ls| - 1]
    case Arrive(k', o) => if k' == k then Some(o) else Watched(ls[..|ls| - 1], k)
    case Remove(k', _) => if k' == k then None else Watched(ls[..|ls| - 1], k)
    case Vanish(k') => if k' == k then None else Watched(ls[..|ls| - 1], k)
    case _ => Watched(ls[..|ls| - 1], k)
  }

  ghost predicate CacheIs(s: State, k: Key, o: Option<Object>) {
    && (k in s.store <==> o.Some?)
    && (k in s.store ==> s.store[k] < |s.born| && s.born[s.store[k]] == o.value)
  }

  lemma {:induction false} LastStep(s: State, ls: seq<Label>)
    requires Valid(s, ls) && ls != []
    ensures Valid(s, ls[..|ls| - 1]) && Enabled(Final(s, ls[..|ls| - 1]), ls[|ls| - 1])
    ensures Final(s, ls) == Apply(Final(s, ls[..|ls| - 1]), ls[|ls| - 1])
    decreases |ls|
  {
    var n := |ls| - 1;
    if n == 0 {
      assert ls[..n] == [] && ls[1..] == [];
    } else {
      LastStep(Apply(s, ls[0]), ls[1..]);
      assert ls[1..][..n - 1] == ls[..n][1..] && ls[..n][0] == ls[0] && ls[1..][n - 1] == ls[n];
    }
  }

  lemma CacheStep(s: State, l: Label, k: Key, o: Option<Object>)
    requires Enabled(s, l) && CacheIs(s, k, o) && |s.born| == |s.heap|
    ensures
      var t := Apply(s, l);
      match l
      case Arrive(k', p) => CacheIs(t, k, if k' == k then Some(p) else o)
      case Remove(k', _) => CacheIs(t, k, if k' == k then None else o)
      case Vanish(k') => CacheIs(t, k, if k' == k then None else o)
      case _ => CacheIs(t, k, o)
  {
  }

  /** Over every run: an object is in the cache exactly if the last report of the watch about its key
      was not its deletion, and it is the one that was reported then. */
  lemma {:induction false} CacheFollowsWatch(ls: seq<Label>, k: Key)
    requires Valid(Init(), ls)
    ensures CacheIs(Final(Init(), ls), k, Watched(ls, k))
    decreases |ls|
  {
    if ls != [] {
      var n := |ls| - 1;
      LastStep(Init(), ls);
      CacheFollowsWatch(ls[..n], k);
      InitInv();
      RunKeeps(Init(), ls[..n]);
      CacheStep(Final(Init(), ls[..n]), ls[n], k, Watched(ls[..n], k));
    }
  }

  // No deletion is lost.

  function Count<T(!new)>(q: seq<T>, p: T -> bool): nat {
    if q == [] then 0 else Count(q[..|q| - 1], p) + if p(q[|q| - 1]) then 1 else 0
  }

  lemma CountSnoc<T(!new)>(q: seq<T>, x: T, p: T -> bool)
    ensures Count(q + [x], p) == Count(q, p) + if p(x) then 1 else 0
  {
    assert (q + [x])[..|q|] == q;
  }

  lemma {:induction false} CountWithout<T(!new)>(q: seq<T>, i: nat, p: T -> bool)
    requires i < |q|
    ensures Count(Without(q, i), p) + (if p(q[i]) then 1 else 0) == Count(q, p)
  {
    var n := |q| - 1;
    if i == n {
      assert Without(q, i) == q[..n];
    } else {
      CountWithout(q[..n], i, p);
      assert Without(q, i) == Without(q[..n], i) + [q[n]];
      CountSnoc(Without(q[..n], i), q[n], p);
    }
  }

  function IsGone(r: Ref): Note -> bool { (n: Note) => n.Gone? && n.r == r }

  function Carries(r: Ref): Item -> bool { (item: Item) => item.carried == Some(r) }

  function Deletes(r: Ref): Event -> bool { (e: Event) => e.op == M.Delete && e.r == r }

  function DeletesWritten(r: Ref): Written -> bool { (w: Written) => w.e.op == M.Delete && w.e.r == r }

  function Deleting(s: State, r: Ref): set<nat> {
    set h | h in s.handlers && s.handlers[h].e.op == M.Delete && s.handlers[h].e.r == r
  }

  /** The deletions of r at each place between the watch and the records. */
  function UnderWay(s: State, r: Ref): nat {
    Count(s.notes, IsGone(r)) + Count(s.queue, Carries(r)) + Count(s.events, Deletes(r)) + |Deleting(s, r)|
  }

  function Recorded(s: State, r: Ref): nat { Count(s.written, DeletesWritten(r)) }

  /** The step brings a deletion of r: the watch reports it, a new list no longer has it, or the
      callback of an update finds a deletion timestamp. */
  predicate Brings(s: State, l: Label, r: Ref)
    requires Enabled(s, l)
  {
    match l
    case Remove(_, _) => r == |s.heap|
    case Vanish(k) => r == s.store[k]
    case Deliver(i) => s.notes[i].r == r && MarksDeletion(s, s.notes[i])
    case _ => false
  }

  function Brought(s: State, ls: seq<Label>, r: Ref): nat
    requires Valid(s, ls)
    decreases |ls|
  {
    if ls == [] then 0 else (if Brings(s, ls[0], r) then 1 else 0) + Brought(Apply(s, ls[0]), ls[1..], r)
  }

  ghost predicate Conserves(s: State, l: Label, r: Ref)
    requires Enabled(s, l)
  {
    var t := Apply(s, l);
    UnderWay(t, r) + Recorded(t, r) == UnderWay(s, r) + Recorded(s, r) + if Brings(s, l, r) then 1 else 0
  }

  lemma WatchConserves(s: State, l: Label, r: Ref)
    requires Enabled(s, l) && (l.Arrive? || l.Remove? || l.Vanish?)
    ensures Conserves(s, l, r)
  {
    var t := Apply(s, l);
    CountSnoc(s.notes, t.notes[|s.notes|], IsGone(r));
    assert Deleting(t, r) == Deleting(s, r);
  }

  lemma DeliverConserves(s: State, i: nat, r: Ref)
    requires Enabled(s, Deliver(i))
    ensures Conserves(s, Deliver(i), r)
  {
    var t, n := Apply(s, Deliver(i)), s.notes[i];
    CountWithout(s.notes, i, IsGone(r));
    if n.Gone? { GoneIsQueued(s, i); } else { ChangeIsQueued(s, i); }
    if |t.queue| > |s.queue| {
      CountSnoc(s.queue, t.queue[|s.queue|], Carries(r));
    } else {
      assert t.queue == s.queue;
    }
    assert Deleting(t, r) == Deleting(s, r);
  }

  lemma ReconcileConserves(s: State, i: nat, r: Ref)
    requires Enabled(s, Reconcile(i))
    ensures Conserves(s, Reconcile(i), r)
  {
    var t := Apply(s, Reconcile(i));
    CountWithout(s.queue, i, Carries(r));
    if |t.events| > |s.events| {
      CountSnoc(s.events, t.events[|s.events|], Deletes(r));
    } else {
      assert t.events == s.events;
    }
    assert Deleting(t, r) == Deleting(s, r);
  }

  lemma ChangeConserves(s: State, i: nat, h: nat, now: int, r: Ref)
    requires Enabled(s, Change(i, h, now))
    ensures Conserves(s, Change(i, h, now), r)
  {
    var t, e := Apply(s, Change(i, h, now)), s.events[i];
    CountWithout(s.events, i, Deletes(r));
    DeletingGrows(s, t, h, r);
  }

  lemma DeletingGrows(s: State, t: State, h: nat, r: Ref)
    requires h !in s.handlers && h in t.handlers && t.handlers == s.handlers[h := t.handlers[h]]
    ensures |Deleting(t, r)| == |Deleting(s, r)| +
      if t.handlers[h].e.op == M.Delete && t.handlers[h].e.r == r then 1 else 0
  {
    var e := t.handlers[h].e;
    if e.op == M.Delete && e.r == r {
      assert Deleting(t, r) == Deleting(s, r) + {h};
    } else {
      assert Deleting(t, r) == Deleting(s, r);
    }
  }

  lemma EncodeConserves(s: State, h: nat, r: Ref)
    requires Enabled(s, Encode(h))
    ensures Conserves(s, Encode(h), r)
  {
    assert Deleting(Apply(s, Encode(h)), r) == Deleting(s, r);
  }

  lemma BuildConserves(s: State, h: nat, later: int, r: Ref)
    requires Enabled(s, Build(h, later))
    ensures Conserves(s, Build(h, later), r)
  {
    var t := Apply(s, Build(h, later));
    CountSnoc(s.written, t.written[|s.written|], DeletesWritten(r));
    assert Deleting(t, r) == Deleting(s, r) - {h};
    assert h in Deleting(s, r) <==> s.handlers[h].e.op == M.Delete && s.handlers[h].e.r == r;
  }

  lemma ManageConserves(s: State, i: nat, r: Ref)
    requires Flow(s) && Enabled(s, Manage(i))
    ensures Conserves(s, Manage(i), r)
  {
    var t := Apply(s, Manage(i));
    CountWithout(s.events, i, Deletes(r));
    assert s.events[i] in s.events;
    assert Deleting(t, r) == Deleting(s, r);
  }

  lemma StepConserves(s: State, l: Label, r: Ref)
    requires Flow(s) && Enabled(s, l)
    ensures Conserves(s, l, r)
  {
    match l
    case Deliver(i) => DeliverConserves(s, i, r);
    case Reconcile(i) => ReconcileConserves(s, i, r);
    case Change(i, h, now) => ChangeConserves(s, i, h, now, r);
    case Encode(h) => EncodeConserves(s, h, r);
    case Build(h, later) => BuildConserves(s, h, later, r);
    case Manage(i) => ManageConserves(s, i, r);
    case _ => WatchConserves(s, l, r);
  }

  lemma {:induction false} RunConserves(s: State, ls: seq<Label>, r: Ref)
    requires Inv(s) && Valid(s, ls)
    ensures UnderWay(Final(s, ls), r) + Recorded(Final(s, ls), r) == UnderWay(s, r) + Recorded(s, r) + Brought(s, ls, r)
    decreases |ls|
  {
    if ls != [] {
      StepKeeps(s, ls[0]);
      StepConserves(s, ls[0], r);
      RunConserves(Apply(s, ls[0]), ls[1..], r);
    }
  }

  /** Over every run, for every object: the deletions brought are those under way and those recorded,
      none is lost and none is made up. So when nothing is under way any more, each has its record. */
  lemma DeletionsConserved(ls: seq<Label>, r: Ref)
    requires Valid(Init(), ls)
    ensures
      var s := Final(Init(), ls);
      && Brought(Init(), ls, r) == UnderWay(s, r) + Recorded(s, r)
      && (s.notes == [] && s.queue == [] && s.events == [] && s.handlers == map[] ==>
            Recorded(s, r) == Brought(Init(), ls, r))
  {
    InitInv();
    RunConserves(Init(), ls, r);
    assert Deleting(Init(), r) == {};
    var s := Final(Init(), ls);
    if s.handlers == map[] { assert Deleting(s, r) == {}; }
  }

  // Nothing gets stuck.

  function Encoding(s: State): set<nat> { set h | h in s.handlers && s.handlers[h].Marked? }

  /** The steps it takes until everything under way has been dealt with. */
  function Work(s: State): nat {
    5 * |s.notes| + 4 * |s.queue| + 3 * |s.events| + |s.handlers| + |Encoding(s)|
  }

  predicate AtRest(s: State) { s.notes == [] && s.queue == [] && s.events == [] && s.handlers == map[] }

  predicate Inner(l: Label) { !l.Arrive? && !l.Remove? && !l.Vanish? }

  lemma HandlerWorks(s: State, h: nat) returns (l: Label)
    requires HeapAged(s) && Histories(s) && h in s.handlers
    ensures Enabled(s, l) && Inner(l) && Work(Apply(s, l)) < Work(s)
  {
    assert GoodHandler(s, s.handlers[h]);
    if s.handlers[h].Marked? {
      l := Encode(h);
      EncodeWork(s, Apply(s, l), h);
    } else {
      l := Build(h, 0);
      BuildWork(s, Apply(s, l), h);
    }
  }

  lemma EncodeWork(s: State, t: State, h: nat)
    requires h in s.handlers && s.handlers[h].Marked? && h in t.handlers && t.handlers[h].Encoded?
    requires t.handlers == s.handlers[h := t.handlers[h]]
    ensures |t.handlers| == |s.handlers| && |Encoding(t)| < |Encoding(s)|
  {
    assert Encoding(t) == Encoding(s) - {h} && h in Encoding(s);
    assert t.handlers.Keys == s.handlers.Keys;
    assert |t.handlers.Keys| == |t.handlers| && |s.handlers.Keys| == |s.handlers|;
  }

  lemma BuildWork(s: State, t: State, h: nat)
    requires h in s.handlers && s.handlers[h].Encoded? && t.handlers == s.handlers - {h}
    ensures |t.handlers| < |s.handlers| && |Encoding(t)| == |Encoding(s)|
  {
    assert Encoding(t) == Encoding(s);
    assert t.handlers.Keys == s.handlers.Keys - {h};
    assert |t.handlers.Keys| == |t.handlers| && |s.handlers.Keys| == |s.handlers|;
  }

  lemma EventWorks(s: State) returns (l: Label)
    requires HeapAged(s) && Flow(s) && s.handlers == map[] && s.events != []
    ensures Enabled(s, l) && Inner(l) && Work(Apply(s, l)) < Work(s)
  {
    assert s.events[0] in s.events;
    if s.events[0].target == M.StorageTarget {
      l := Change(0, 0, 0);
      var t := Apply(s, l);
      assert Encoding(s) == {} && Encoding(t) == {0};
      assert t.handlers.Keys == {0} && |t.handlers| == |t.handlers.Keys|;
    } else {
      l := Manage(0);
      assert Encoding(Apply(s, l)) == Encoding(s);
    }
  }

  lemma QueueWorks(s: State) returns (l: Label)
    requires HeapAged(s) && Flow(s) && (s.notes != [] || s.queue != [])
    ensures Enabled(s, l) && Inner(l) && Work(Apply(s, l)) < Work(s)
  {
    if s.notes != [] {
      l := Deliver(0);
      assert s.notes[0] in s.notes;
      assert Encoding(Apply(s, l)) == Encoding(s);
    } else {
      l := Reconcile(0);
      assert Encoding(Apply(s, l)) == Encoding(s);
    }
  }

  /** Some goroutine can always go on while anything is under way. */
  lemma Progress(s: State) returns (l: Label)
    requires Inv(s) && !AtRest(s)
    ensures Enabled(s, l) && Inner(l) && Work(Apply(s, l)) < Work(s)
  {
    if h :| h in s.handlers {
      l := HandlerWorks(s, h);
    } else {
      assert s.handlers == map[];
      if s.events != [] { l := EventWorks(s); } else { l := QueueWorks(s); }
    }
  }

  /** From every reachable state the pipeline can deal with everything that is under way. */
  lemma {:induction false} Drain(s: State) returns (ls: seq<Label>)
    requires Inv(s)
    ensures Valid(s, ls) && (forall l :: l in ls ==> Inner(l)) && |ls| <= Work(s) && AtRest(Final(s, ls))
    decreases Work(s)
  {
    if AtRest(s) { return []; }
    var l := Progress(s);
    StepKeeps(s, l);
    var rest := Drain(Apply(s, l));
    ls := [l] + rest;
    assert ls[1..] == rest;
  }

  /** So every deletion that was brought can still get its record. */
  lemma DeletionsReachRecords(ls: seq<Label>, r: Ref) returns (ms: seq<Label>)
    requires Valid(Init(), ls)
    ensures Valid(Init(), ls + ms) && Brought(Init(), ls, r) <= Recorded(Final(Init(), ls + ms), r)
  {
    InitInv();
    RunKeeps(Init(), ls);
    ms := Drain(Final(Init(), ls));
    Append(Init(), ls, ms);
    DeletionsConserved(ls + ms, r);
    BroughtGrows(Init(), ls, ms, r);
  }

  lemma {:induction false} BroughtGrows(s: State, ls: seq<Label>, ms: seq<Label>, r: Ref)
    requires Valid(s, ls) && Valid(s, ls + ms)
    ensures Brought(s, ls, r) <= Brought(s, ls + ms, r)
    decreases |ls|
  {
    if ls != [] {
      assert (ls + ms)[0] == ls[0] && (ls + ms)[1..] == ls[1..] + ms;
      BroughtGrows(Apply(s, ls[0]), ls[1..], ms, r);
    }
  }
}
