/** The dynamic informer manager of internal/manager, with its handlers run one at a time: CRD
    events start and stop one router per GVR, remembered in a map from gvr.String() to the cancel
    function of the router's context. */
module Manager {
  import opened CrdExtract
  import opened Strings

  datatype Target = ManagerTarget | StorageTarget

  datatype Operation = Create | Update | Delete | Unknown

  /** An InformerEvent: its routing fields and what the handler reads of its object. */
  datatype Event = Event(target: Target, op: Operation, kind: string, deleting: bool, crd: map<string, Json>)

  const CRD_KIND := "CustomResourceDefinition"

  /** schema.GroupVersionResource.String. */
  function KeyOf(g: Gvr): string { g.group + "/" + g.version + ", Resource=" + g.resource }

  predicate Startable(g: Gvr) { g != Gvr("", "", "") && g.version != "vacuum" }

  /** `informers` holds cancel functions by number; router i runs until i is in `cancelled`. */
  datatype State = State(informers: map<string, nat>, routers: seq<Gvr>, cancelled: set<nat>)

  function Start(s: State, g: Gvr): State {
    if !Startable(g) || KeyOf(g) in s.informers then s
    else s.(informers := s.informers[KeyOf(g) := |s.routers|], routers := s.routers + [g])
  }

  function Stop(s: State, key: string): State {
    if key in s.informers
    then s.(informers := s.informers - {key}, cancelled := s.cancelled + {s.informers[key]})
    else s
  }

  datatype Effect = Starts | Stops | Nothing

  function EffectOf(e: Event): Effect {
    match e.op
    case Create => Starts
    case Delete => Stops
    case Update => if e.deleting then Stops else Starts
    case Unknown => Nothing
  }

  function Act(s: State, effect: Effect, g: Gvr): State {
    match effect
    case Starts => Start(s, g)
    case Stops => Stop(s, KeyOf(g))
    case Nothing => s
  }

  function ActAll(s: State, effect: Effect, gvrs: seq<Gvr>): State {
    if gvrs == [] then s else Act(ActAll(s, effect, gvrs[..|gvrs| - 1]), effect, gvrs[|gvrs| - 1])
  }

  /** The events the handler acts on. Only the first GVR's group is checked. */
  predicate Relevant(groups: set<string>, e: Event) {
    e.target.ManagerTarget? && e.kind == CRD_KIND &&
    (Listed(e.crd) == [] || Listed(e.crd)[0].group in groups)
  }

  /** Although only the first GVR's group is checked, the handler acts exactly on events for the
      manager about CRDs all of whose GVRs are in managed groups. */
  lemma RelevantExactly(groups: set<string>, e: Event)
    ensures Relevant(groups, e) <==>
      && e.target == ManagerTarget && e.kind == "CustomResourceDefinition"
      && forall i :: 0 <= i < |Listed(e.crd)| ==> Listed(e.crd)[i].group in groups
  {
  }

  function Handle(groups: set<string>, s: State, e: Event): State {
    if Relevant(groups, e) then ActAll(s, EffectOf(e), Listed(e.crd)) else s
  }

  /** `parse` of the managed_groups asset: the trimmed lines, blank ones ignored. */
  method ParseGroups(content: string) returns (groups: set<string>)
    ensures forall g :: g in groups <==> g != "" && exists line :: line in Split(content, '\n') && TrimSpace(line) == g
  {
    groups := {};
    var lines := Split(content, '\n');
    for i := 0 to |lines|
      invariant forall g :: g in groups <==> g != "" && exists j :: 0 <= j < i && TrimSpace(lines[j]) == g
    {
      var line := TrimSpace(lines[i]);
      if line != "" { groups := groups + {line}; }
    }
  }

  class Supervisor {
    const managedGroups: set<string>
    var informers: map<string, nat>
    var routers: seq<Gvr>
    var cancelled: set<nat>

    constructor (groups: set<string>)
      ensures managedGroups == groups && View() == State(map[], [], {})
    {
      managedGroups := groups;
      informers, routers, cancelled := map[], [], {};
    }

    ghost function View(): State
      reads this
    {
      State(informers, routers, cancelled)
    }

    method StartInformer(gvr: Gvr)
      modifies this
      ensures View() == Start(old(View()), gvr)
    {
      if gvr == Gvr("", "", "") || gvr.version == "vacuum" { return; }
      if KeyOf(gvr) in informers { return; }
      informers := informers[KeyOf(gvr) := |routers|];
      routers := routers + [gvr];
    }

    method StopInformer(key: string)
      modifies this
      ensures View() == Stop(old(View()), key)
    {
      if key in informers {
        cancelled := cancelled + {informers[key]};
        informers := informers - {key};
      }
    }

    method OnEvent(e: Event)
      modifies this
      ensures View() == Handle(managedGroups, old(View()), e)
    {
      if e.target != ManagerTarget { return; }
      if e.kind != CRD_KIND { return; }
      var gvrs, kind, namespaced := Extract(e.crd);
      if |gvrs| > 0 && gvrs[0].group !in managedGroups { return; }
      for i := 0 to |gvrs|
        invariant View() == ActAll(old(View()), EffectOf(e), gvrs[..i])
      {
        assert gvrs[..i + 1][..i] == gvrs[..i];
        match e.op {
          case Create => StartInformer(gvrs[i]);
          case Delete => StopInformer(KeyOf(gvrs[i]));
          case Update =>
            if e.deleting { StopInformer(KeyOf(gvrs[i])); } else { StartInformer(gvrs[i]); }
          case Unknown =>
        }
      }
      assert gvrs[..|gvrs|] == gvrs;
    }
  }

  // Main results.

  predicate Live(s: State, id: nat) { id < |s.routers| && id !in s.cancelled }

  /** The live routers are exactly the map entries, each under the key of its own GVR. */
  ghost predicate Exact(s: State) {
    && (forall k :: k in s.informers ==> Live(s, s.informers[k]) && KeyOf(s.routers[s.informers[k]]) == k)
    && (forall id: nat :: Live(s, id) ==>
          KeyOf(s.routers[id]) in s.informers && s.informers[KeyOf(s.routers[id])] == id)
    && (forall id :: id in s.cancelled ==> id < |s.routers|)
  }

  ghost predicate Managed(groups: set<string>, s: State) {
    forall i :: 0 <= i < |s.routers| ==>
      s.routers[i].group in groups && s.routers[i].version != "" && s.routers[i].version != "vacuum"
  }

  lemma ActKeeps(groups: set<string>, s: State, effect: Effect, g: Gvr)
    requires Exact(s) && Managed(groups, s) && g.group in groups && g.version != ""
    ensures Exact(Act(s, effect, g)) && Managed(groups, Act(s, effect, g))
  {
  }

  lemma {:induction false} ActAllKeeps(groups: set<string>, s: State, effect: Effect, gvrs: seq<Gvr>)
    requires Exact(s) && Managed(groups, s)
    requires forall i :: 0 <= i < |gvrs| ==> gvrs[i].group in groups && gvrs[i].version != ""
    ensures Exact(ActAll(s, effect, gvrs)) && Managed(groups, ActAll(s, effect, gvrs))
  {
    if gvrs != [] {
      var n := |gvrs| - 1;
      ActAllKeeps(groups, s, effect, gvrs[..n]);
      ActKeeps(groups, ActAll(s, effect, gvrs[..n]), effect, gvrs[n]);
    }
  }

  lemma HandleKeeps(groups: set<string>, s: State, e: Event)
    requires Exact(s) && Managed(groups, s)
    ensures Exact(Handle(groups, s, e)) && Managed(groups, Handle(groups, s, e))
  {
    if Relevant(groups, e) { ActAllKeeps(groups, s, EffectOf(e), Listed(e.crd)); }
  }

  function HandleAll(groups: set<string>, es: seq<Event>): State {
    if es == [] then State(map[], [], {}) else Handle(groups, HandleAll(groups, es[..|es| - 1]), es[|es| - 1])
  }

  ghost predicate Lists(gvrs: seq<Gvr>, key: string) {
    exists i :: 0 <= i < |gvrs| && KeyOf(gvrs[i]) == key
  }

  ghost predicate ListsServed(gvrs: seq<Gvr>, key: string) {
    exists i :: 0 <= i < |gvrs| && KeyOf(gvrs[i]) == key && gvrs[i].version != "vacuum"
  }

  /** A create, or an update of an object without deletion timestamp, that lists the key. */
  ghost predicate StartsKey(groups: set<string>, e: Event, key: string) {
    Relevant(groups, e) && (e.op == Create || (e.op == Update && !e.deleting)) && ListsServed(Listed(e.crd), key)
  }

  /** A delete, or an update of an object with a deletion timestamp, that lists the key. */
  ghost predicate StopsKey(groups: set<string>, e: Event, key: string) {
    Relevant(groups, e) && (e.op == Delete || (e.op == Update && e.deleting)) && Lists(Listed(e.crd), key)
  }

  /** The latest event that concerns the key was a start. */
  ghost predicate LatestIsStart(groups: set<string>, es: seq<Event>, key: string) {
    es != [] &&
    var e := es[|es| - 1];
    (StartsKey(groups, e, key) || (!StopsKey(groups, e, key) && LatestIsStart(groups, es[..|es| - 1], key)))
  }

  lemma {:induction false} ActAllKey(s: State, effect: Effect, gvrs: seq<Gvr>, key: string)
    requires forall i :: 0 <= i < |gvrs| ==> gvrs[i].version != ""
    ensures
      var there := key in ActAll(s, effect, gvrs).informers;
      match effect
      case Starts => there <==> key in s.informers || ListsServed(gvrs, key)
      case Stops => there <==> key in s.informers && !Lists(gvrs, key)
      case Nothing => there <==> key in s.informers
  {
    if gvrs != [] {
      var n := |gvrs| - 1;
      ActAllKey(s, effect, gvrs[..n], key);
      assert forall i :: 0 <= i < n ==> gvrs[..n][i] == gvrs[i];
    }
  }

  /** With handlers run one at a time, after any events: the live routers are exactly the map
      entries, one per key; every router serves a managed, named version; and a key is present
      exactly when the latest event that concerns it was a start. */
  lemma {:induction false} RoutersFollowEvents(groups: set<string>, es: seq<Event>, key: string)
    ensures Exact(HandleAll(groups, es)) && Managed(groups, HandleAll(groups, es))
    ensures "" !in groups ==> forall i :: 0 <= i < |HandleAll(groups, es).routers| ==>
      HandleAll(groups, es).routers[i].group != ""
    ensures key in HandleAll(groups, es).informers <==> LatestIsStart(groups, es, key)
  {
    if es != [] {
      var n := |es| - 1;
      RoutersFollowEvents(groups, es[..n], key);
      HandleKeeps(groups, HandleAll(groups, es[..n]), es[n]);
      ActAllKey(HandleAll(groups, es[..n]), EffectOf(es[n]), Listed(es[n].crd), key);
    }
  }

  // What cancels a router.

  /** The event stops the key under which the map holds router id. */
  ghost predicate Cancels(groups: set<string>, s: State, e: Event, id: nat) {
    exists key :: key in s.informers && s.informers[key] == id && StopsKey(groups, e, key)
  }

  ghost predicate ListsEntry(s: State, gvrs: seq<Gvr>, id: nat) {
    exists key :: key in s.informers && s.informers[key] == id && Lists(gvrs, key)
  }

  lemma ListsSnoc(gvrs: seq<Gvr>, key: string)
    requires gvrs != []
    ensures Lists(gvrs, key) <==> Lists(gvrs[..|gvrs| - 1], key) || KeyOf(gvrs[|gvrs| - 1]) == key
  {
    var n := |gvrs| - 1;
    assert forall i :: 0 <= i < n ==> gvrs[..n][i] == gvrs[i];
  }

  lemma {:induction false} StopAllForm(s: State, gvrs: seq<Gvr>)
    ensures
      var r := ActAll(s, Stops, gvrs);
      && (forall key :: key in r.informers <==> key in s.informers && !Lists(gvrs, key))
      && (forall key :: key in r.informers ==> r.informers[key] == s.informers[key])
  {
    if gvrs != [] {
      StopAllForm(s, gvrs[..|gvrs| - 1]);
      forall key ensures Lists(gvrs, key) <==> Lists(gvrs[..|gvrs| - 1], key) || KeyOf(gvrs[|gvrs| - 1]) == key {
        ListsSnoc(gvrs, key);
      }
    }
  }

  lemma {:induction false} StopAllCancels(s: State, gvrs: seq<Gvr>, id: nat)
    ensures id in ActAll(s, Stops, gvrs).cancelled <==> id in s.cancelled || ListsEntry(s, gvrs, id)
  {
    if gvrs != [] {
      var n := |gvrs| - 1;
      StopAllCancels(s, gvrs[..n], id);
      StopAllForm(s, gvrs[..n]);
      var p, last := ActAll(s, Stops, gvrs[..n]), KeyOf(gvrs[n]);
      forall key ensures Lists(gvrs, key) <==> Lists(gvrs[..n], key) || last == key { ListsSnoc(gvrs, key); }
      if last in p.informers && p.informers[last] == id { assert ListsEntry(s, gvrs, id); }
    }
  }

  lemma {:induction false} StartAllCancelsNone(s: State, effect: Effect, gvrs: seq<Gvr>)
    requires effect != Stops
    ensures ActAll(s, effect, gvrs).cancelled == s.cancelled
  {
    if gvrs != [] { StartAllCancelsNone(s, effect, gvrs[..|gvrs| - 1]); }
  }

  /** An event cancels exactly the routers whose keys it stops. */
  lemma CancelsExactly(groups: set<string>, s: State, e: Event, id: nat)
    ensures id in Handle(groups, s, e).cancelled <==> id in s.cancelled || Cancels(groups, s, e, id)
  {
    if Relevant(groups, e) && EffectOf(e) == Stops {
      StopAllCancels(s, Listed(e.crd), id);
    } else {
      if Relevant(groups, e) { StartAllCancelsNone(s, EffectOf(e), Listed(e.crd)); }
    }
  }

  /** In terms of the router: it is live and the event stops its key. */
  lemma CancelsLive(groups: set<string>, s: State, e: Event, id: nat)
    requires Exact(s)
    ensures Cancels(groups, s, e, id) <==> Live(s, id) && StopsKey(groups, e, KeyOf(s.routers[id]))
  {
    if Live(s, id) && StopsKey(groups, e, KeyOf(s.routers[id])) {
      assert KeyOf(s.routers[id]) in s.informers;
    }
  }

  /** Event n of these meets router id live and stops its key. */
  ghost predicate CancelsAt(groups: set<string>, es: seq<Event>, n: nat, id: nat) {
    n < |es| &&
    var before := HandleAll(groups, es[..n]);
    Live(before, id) && StopsKey(groups, es[n], KeyOf(before.routers[id]))
  }

  lemma CancelledStep(groups: set<string>, es: seq<Event>, id: nat)
    requires es != []
    ensures id in HandleAll(groups, es).cancelled
       <==> id in HandleAll(groups, es[..|es| - 1]).cancelled || CancelsAt(groups, es, |es| - 1, id)
  {
    var n := |es| - 1;
    var before := HandleAll(groups, es[..n]);
    RoutersFollowEvents(groups, es[..n], "");
    CancelsExactly(groups, before, es[n], id);
    CancelsLive(groups, before, es[n], id);
  }

  lemma CancelsAtPrefix(groups: set<string>, es: seq<Event>, n: nat, id: nat)
    requires n + 1 < |es|
    ensures CancelsAt(groups, es[..|es| - 1], n, id) <==> CancelsAt(groups, es, n, id)
  {
    assert es[..|es| - 1][..n] == es[..n];
  }

  /** Over any events: a router is cancelled if and only if one of them met it live and stopped its
      key. */
  lemma {:induction false} CancelledByEvent(groups: set<string>, es: seq<Event>, id: nat)
    ensures id in HandleAll(groups, es).cancelled <==> exists n: nat :: CancelsAt(groups, es, n, id)
  {
    if es != [] {
      var front := es[..|es| - 1];
      CancelledByEvent(groups, front, id);
      CancelledStep(groups, es, id);
      if n: nat :| CancelsAt(groups, front, n, id) { CancelsAtPrefix(groups, es, n, id); }
      if n: nat :| CancelsAt(groups, es, n, id) { if n + 1 < |es| { CancelsAtPrefix(groups, es, n, id); } }
    }
  }

  /** Event n starts the key, and no later one stops it. */
  ghost predicate StartedLast(groups: set<string>, es: seq<Event>, n: nat, key: string) {
    n < |es| && StartsKey(groups, es[n], key) && forall i :: n < i < |es| ==> !StopsKey(groups, es[i], key)
  }

  lemma StartedLastFront(groups: set<string>, es: seq<Event>, n: nat, key: string)
    requires n + 1 < |es|
    ensures StartedLast(groups, es, n, key)
       <==> StartedLast(groups, es[..|es| - 1], n, key) && !StopsKey(groups, es[|es| - 1], key)
  {
    var last := |es| - 1;
    assert forall i :: 0 <= i < last ==> es[..last][i] == es[i];
    if StartedLast(groups, es[..last], n, key) && !StopsKey(groups, es[last], key) {
      forall i | n < i < |es| ensures !StopsKey(groups, es[i], key) { if i < last { assert es[..last][i] == es[i]; } }
    }
  }

  lemma {:induction false} LatestGives(groups: set<string>, es: seq<Event>, key: string) returns (n: nat)
    requires LatestIsStart(groups, es, key)
    ensures StartedLast(groups, es, n, key)
    decreases |es|
  {
    n := |es| - 1;
    if !StartsKey(groups, es[n], key) {
      n := LatestGives(groups, es[..n], key);
      StartedLastFront(groups, es, n, key);
    }
  }

  lemma {:induction false} StartedIsLatest(groups: set<string>, es: seq<Event>, n: nat, key: string)
    requires StartedLast(groups, es, n, key)
    ensures LatestIsStart(groups, es, key)
    decreases |es|
  {
    if n + 1 < |es| {
      StartedLastFront(groups, es, n, key);
      StartedIsLatest(groups, es[..|es| - 1], n, key);
    }
  }

  lemma LatestMeans(groups: set<string>, es: seq<Event>, key: string)
    ensures LatestIsStart(groups, es, key) <==> exists n: nat :: StartedLast(groups, es, n, key)
  {
    if LatestIsStart(groups, es, key) { var n := LatestGives(groups, es, key); }
    if n: nat :| StartedLast(groups, es, n, key) { StartedIsLatest(groups, es, n, key); }
  }

  // The key of a GVR.

  lemma KeyShape(g: Gvr)
    ensures KeyOf(g) == g.group + ['/'] + (g.version + [','] + (" Resource=" + g.resource))
  {
    assert ", Resource=" == [','] + " Resource=";
  }

  /** Different GVRs have different keys, as long as groups have no '/' and versions no ','. */
  lemma KeysAreUnique(g: Gvr, h: Gvr)
    requires '/' !in g.group && '/' !in h.group && ',' !in g.version && ',' !in h.version
    requires KeyOf(g) == KeyOf(h)
    ensures g == h
  {
    KeyShape(g);
    KeyShape(h);
    var u, v := " Resource=" + g.resource, " Resource=" + h.resource;
    SameJoined(g.group, h.group, '/', g.version + [','] + u, h.version + [','] + v);
    SameJoined(g.version, h.version, ',', u, v);
    SamePrefix(" Resource=", g.resource, h.resource);
  }
}
