/** The same informers map when handlers run concurrently. startInformer does its work under the
    lock; stopInformer (internal/manager/helpers.go) looks the cancel function up without it, and
    only then takes the lock to cancel and delete. */
module ManagerRace {

  datatype Lookup = Lookup(key: string, id: nat)

  /** Router i was started under `routers[i]` and lives until i is in `cancelled`. `pending` holds
      the handlers that stand between their lookup and their locked section. */
  datatype State = State(
    informers: map<string, nat>,
    routers: seq<string>,
    cancelled: set<nat>,
    pending: map<nat, Lookup>)

  function Init(): State { State(map[], [], {}, map[]) }

  datatype Label = Start(key: string) | Look(h: nat, key: string) | Finish(h: nat)

  predicate Enabled(s: State, l: Label) {
    match l
    case Start(_) => true
    case Look(h, _) => h !in s.pending
    case Finish(h) => h in s.pending
  }

  function Apply(s: State, l: Label): State
    requires Enabled(s, l)
  {
    match l
    case Start(k) =>
      if k in s.informers then s
      else s.(informers := s.informers[k := |s.routers|], routers := s.routers + [k])
    case Look(h, k) =>
      if k in s.informers then s.(pending := s.pending[h := Lookup(k, s.informers[k])]) else s
    case Finish(h) =>
      var p := s.pending[h];
      s.(cancelled := s.cancelled + {p.id}, informers := s.informers - {p.key}, pending := s.pending - {h})
  }

  predicate Valid(s: State, ls: seq<Label>)
    decreases |ls|
  {
    ls == [] || (Enabled(s, ls[0]) && Valid(Apply(s, ls[0]), ls[1..]))
  }

  function Final(s: State, ls: seq<Label>): State
    requires Valid(s, ls)
    decreases |ls|
  {
    if ls == [] then s else Final(Apply(s, ls[0]), ls[1..])
  }

  predicate Live(s: State, id: nat) { id < |s.routers| && id !in s.cancelled }

  /** Every entry is a live router of its own key; a looked-up cancel function belongs to the key
      it was found under. */
  ghost predicate Inv(s: State) {
    && (forall k :: k in s.informers ==> Live(s, s.informers[k]) && s.routers[s.informers[k]] == k)
    && (forall h :: h in s.pending ==> s.pending[h].id < |s.routers| && s.routers[s.pending[h].id] == s.pending[h].key)
    && (forall id :: id in s.cancelled ==> id < |s.routers|)
  }

  lemma StepKeeps(s: State, l: Label)
    requires Inv(s) && Enabled(s, l)
    ensures Inv(Apply(s, l))
  {
  }

  /** In every interleaving, no map entry has a cancel function that was already called. */
  lemma {:induction false} EntriesNeverCancelled(s: State, ls: seq<Label>)
    requires Inv(s) && Valid(s, ls)
    ensures Inv(Final(s, ls))
    ensures forall k :: k in Final(s, ls).informers ==> Final(s, ls).informers[k] !in Final(s, ls).cancelled
    decreases |ls|
  {
    if ls != [] {
      StepKeeps(s, ls[0]);
      EntriesNeverCancelled(Apply(s, ls[0]), ls[1..]);
    }
  }

  /** Every live router is in the map: the property the sequential manager has. */
  ghost predicate NoLeak(s: State) {
    forall id: nat :: Live(s, id) ==> s.routers[id] in s.informers && s.informers[s.routers[id]] == id
  }

  /** A lookup is stale when another router has since been put under its key. */
  predicate Stale(s: State, p: Lookup) { p.key in s.informers && s.informers[p.key] != p.id }

  predicate StaleStep(s: State, l: Label)
    requires Enabled(s, l)
  {
    l.Finish? && Stale(s, s.pending[l.h])
  }

  /** A step leaks a router exactly when it is the locked section of a stale lookup. */
  lemma LeaksExactlyWhenStale(s: State, l: Label)
    requires Inv(s) && NoLeak(s) && Enabled(s, l)
    ensures NoLeak(Apply(s, l)) <==> !StaleStep(s, l)
  {
    var t := Apply(s, l);
    if StaleStep(s, l) {
      var id := s.informers[s.pending[l.h].key];
      assert Live(t, id);
    }
  }

  predicate NeverStale(s: State, ls: seq<Label>)
    requires Valid(s, ls)
    decreases |ls|
  {
    ls == [] || (!StaleStep(s, ls[0]) && NeverStale(Apply(s, ls[0]), ls[1..]))
  }

  /** So a run without stale lookups keeps live routers and map entries in agreement. */
  lemma {:induction false} NoStaleNoLeak(s: State, ls: seq<Label>)
    requires Inv(s) && NoLeak(s) && Valid(s, ls) && NeverStale(s, ls)
    ensures NoLeak(Final(s, ls))
    decreases |ls|
  {
    if ls != [] {
      StepKeeps(s, ls[0]);
      LeaksExactlyWhenStale(s, ls[0]);
      NoStaleNoLeak(Apply(s, ls[0]), ls[1..]);
    }
  }

  /** Every state of the run has all its live routers in the map. */
  ghost predicate AlwaysNoLeak(s: State, ls: seq<Label>)
    requires Valid(s, ls)
    decreases |ls|
  {
    NoLeak(s) && (ls == [] || AlwaysNoLeak(Apply(s, ls[0]), ls[1..]))
  }

  /** Over whole runs: no state of a run has a leaked router if and only if no lookup of the run is
      stale when it is finished. */
  lemma {:induction false} NoLeakExactlyNeverStale(s: State, ls: seq<Label>)
    requires Inv(s) && NoLeak(s) && Valid(s, ls)
    ensures AlwaysNoLeak(s, ls) <==> NeverStale(s, ls)
    decreases |ls|
  {
    if ls != [] {
      var t := Apply(s, ls[0]);
      StepKeeps(s, ls[0]);
      LeaksExactlyWhenStale(s, ls[0]);
      if NoLeak(t) {
        NoLeakExactlyNeverStale(t, ls[1..]);
      } else {
        assert !AlwaysNoLeak(t, ls[1..]);
      }
    }
  }

  lemma {:induction false} Snoc(s: State, ls: seq<Label>, l: Label)
    requires Valid(s, ls) && Enabled(Final(s, ls), l)
    ensures Valid(s, ls + [l]) && Final(s, ls + [l]) == Apply(Final(s, ls), l)
    decreases |ls|
  {
    var ms := ls + [l];
    if ls == [] {
      assert ms == [l] && ms[1..] == [];
      assert Valid(Apply(s, l), ms[1..]);
    } else {
      assert ms[0] == ls[0] && ms[1..] == ls[1..] + [l];
      Snoc(Apply(s, ls[0]), ls[1..], l);
    }
  }

  /** Two overlapping stops with a start in between leave a live router that no map entry can
      cancel, and the next start runs a second router for the same key beside it. */
  lemma LeakReachable(k: string) returns (ls: seq<Label>)
    ensures Valid(Init(), ls)
    ensures
      var s := Final(Init(), ls);
      Live(s, 1) && Live(s, 2) && s.routers == [k, k, k] && s.informers == map[k := 2]
  {
    var q := Init();
    ls := [];
    Snoc(q, ls, Start(k)); ls := ls + [Start(k)];
    Snoc(q, ls, Look(0, k)); ls := ls + [Look(0, k)];
    Snoc(q, ls, Look(1, k)); ls := ls + [Look(1, k)];
    Snoc(q, ls, Finish(0)); ls := ls + [Finish(0)];
    Snoc(q, ls, Start(k)); ls := ls + [Start(k)];
    Snoc(q, ls, Finish(1)); ls := ls + [Finish(1)];
    Snoc(q, ls, Start(k)); ls := ls + [Start(k)];
  }
}
