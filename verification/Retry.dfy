/** The bounded retry of `processNext` (internal/router/workpool.go) under any interleaving of
    workers and items. Of the work queue it is assumed only that an item is never handed to two
    workers at once, and that NumRequeues counts AddRateLimited calls since the last Forget. */
module Retry {
  import opened Jobs

  type Item = string

  const MAX_REQUEUES := 5

  /** Where a worker is in processNext. */
  datatype Pc =
    | Got(item: Item)       // about to reconcile
    | Erred(item: Item)     // reconcile failed, about to read NumRequeues
    | Retrying(item: Item)  // about to call AddRateLimited
    | Dropping(item: Item)  // about to call Forget after a failure
    | Cleared(item: Item)   // reconcile succeeded, about to call Forget
    | Leaving(item: Item)   // about to run the deferred Done

  /** `attempts` is a history: reconciles of an item since it was last forgotten. */
  datatype State = State(
    waiting: set<Item>,
    workers: map<nat, Pc>,
    requeues: map<Item, nat>,
    attempts: map<Item, nat>)

  function Init(): State { State({}, map[], map[], map[]) }

  function Count(m: map<Item, nat>, i: Item): nat { if i in m then m[i] else 0 }

  datatype Label =
    | Enqueue(item: Item) | Get(w: nat, item: Item) | Reconcile(w: nat, ok: bool)
    | CheckRequeues(w: nat) | AddRateLimited(w: nat) | Forget(w: nat) | Done(w: nat)

  predicate Idle(s: State, i: Item) { forall w :: w in s.workers ==> s.workers[w].item != i }

  predicate Enabled(s: State, l: Label) {
    match l
    case Enqueue(_) => true
    case Get(w, i) => w !in s.workers && i in s.waiting && Idle(s, i)
    case Reconcile(w, _) => w in s.workers && s.workers[w].Got?
    case CheckRequeues(w) => w in s.workers && s.workers[w].Erred?
    case AddRateLimited(w) => w in s.workers && s.workers[w].Retrying?
    case Forget(w) => w in s.workers && (s.workers[w].Dropping? || s.workers[w].Cleared?)
    case Done(w) => w in s.workers && s.workers[w].Leaving?
  }

  function Apply(s: State, l: Label): State
    requires Enabled(s, l)
  {
    match l
    case Enqueue(i) => s.(waiting := s.waiting + {i})
    case Get(w, i) => s.(waiting := s.waiting - {i}, workers := s.workers[w := Got(i)])
    case Reconcile(w, ok) =>
      var i := s.workers[w].item;
      s.(attempts := s.attempts[i := Count(s.attempts, i) + 1],
         workers := s.workers[w := if ok then Cleared(i) else Erred(i)])
    case CheckRequeues(w) =>
      var i := s.workers[w].item;
      s.(workers := s.workers[w := if Count(s.requeues, i) < MAX_REQUEUES then Retrying(i) else Dropping(i)])
    case AddRateLimited(w) =>
      var i := s.workers[w].item;
      s.(requeues := s.requeues[i := Count(s.requeues, i) + 1], waiting := s.waiting + {i},
         workers := s.workers[w := Leaving(i)])
    case Forget(w) =>
      var i := s.workers[w].item;
      s.(requeues := s.requeues - {i}, attempts := s.attempts - {i}, workers := s.workers[w := Leaving(i)])
    case Done(w) => s.(workers := s.workers - {w})
  }

  predicate Valid(s: State, ls: seq<Label>)
    decreases |ls|
  {
    ls == [] || (Enabled(s, ls[0]) && Valid(Apply(s, ls[0]), ls[1..]))
  }

  function Final(s: State, ls: seq<Label>): State
    requires Valid(s, ls)
    decreases |ls|
  {
    if ls == [] then s else Final(Apply(s, ls[0]), ls[1..])
  }

  /** Reconciles of an item that the requeue count does not reflect yet. */
  predicate Ahead(pc: Pc) { pc.Erred? || pc.Retrying? || pc.Dropping? || pc.Cleared? }

  ghost predicate InProgress(s: State, i: Item) {
    exists w :: w in s.workers && s.workers[w].item == i && Ahead(s.workers[w])
  }

  ghost predicate Exclusive(s: State) {
    forall v, w :: v in s.workers && w in s.workers && v != w ==> s.workers[v].item != s.workers[w].item
  }

  ghost predicate CountsAgree(s: State, i: Item) {
    && Count(s.attempts, i) == Count(s.requeues, i) + (if InProgress(s, i) then 1 else 0)
    && Count(s.requeues, i) <= MAX_REQUEUES
  }

  predicate PcAgrees(s: State, pc: Pc) {
    && (pc.Retrying? ==> Count(s.requeues, pc.item) < MAX_REQUEUES)
    && (pc.Dropping? ==> Count(s.requeues, pc.item) == MAX_REQUEUES)
  }

  ghost predicate Inv(s: State) {
    && Exclusive(s)
    && (forall i :: CountsAgree(s, i))
    && (forall w :: w in s.workers ==> PcAgrees(s, s.workers[w]))
  }

  /** What a step of worker w on item i leaves alone. */
  lemma OthersUntouched(s: State, t: State, w: nat, i: Item, pc: Pc)
    requires Exclusive(s) && t.workers == s.workers[w := pc] && pc.item == i
    requires if w in s.workers then s.workers[w].item == i else Idle(s, i)
    ensures Exclusive(t)
    ensures forall j :: j != i ==> (InProgress(t, j) <==> InProgress(s, j))
    ensures InProgress(t, i) <==> Ahead(pc)
    ensures w in s.workers ==> (InProgress(s, i) <==> Ahead(s.workers[w]))
    ensures w !in s.workers ==> !InProgress(s, i)
  {
    forall j | j != i ensures InProgress(t, j) <==> InProgress(s, j) {
      if v :| v in s.workers && s.workers[v].item == j && Ahead(s.workers[v]) { assert t.workers[v] == s.workers[v]; }
      if v :| v in t.workers && t.workers[v].item == j && Ahead(t.workers[v]) { assert t.workers[v] == s.workers[v]; }
    }
    if Ahead(pc) { assert t.workers[w] == pc; }
  }

  predicate Steps(l: Label) { !l.Enqueue? && !l.Done? }

  function ItemOf(s: State, l: Label): Item
    requires Enabled(s, l) && Steps(l)
  {
    if l.Get? then l.item else s.workers[l.w].item
  }

  lemma WorkerStepCounts(s: State, l: Label)
    requires Inv(s) && Enabled(s, l) && Steps(l)
    ensures forall j :: CountsAgree(Apply(s, l), j)
  {
    var t, i := Apply(s, l), ItemOf(s, l);
    OthersUntouched(s, t, l.w, i, t.workers[l.w]);
    assert CountsAgree(s, i) && (l.w in s.workers ==> PcAgrees(s, s.workers[l.w]));
    forall j ensures CountsAgree(t, j) {
      assert CountsAgree(s, j);
    }
  }

  lemma WorkerStepKeeps(s: State, l: Label)
    requires Inv(s) && Enabled(s, l) && Steps(l)
    ensures Inv(Apply(s, l))
  {
    var t, i := Apply(s, l), ItemOf(s, l);
    OthersUntouched(s, t, l.w, i, t.workers[l.w]);
    assert CountsAgree(s, i) && (l.w in s.workers ==> PcAgrees(s, s.workers[l.w]));
    WorkerStepCounts(s, l);
    forall w | w in t.workers ensures PcAgrees(t, t.workers[w]) {
      if w != l.w { assert t.workers[w] == s.workers[w] && s.workers[w].item != i; }
    }
  }

  lemma DoneKeeps(s: State, w: nat)
    requires Inv(s) && Enabled(s, Done(w))
    ensures Inv(Apply(s, Done(w)))
  {
    var t := Apply(s, Done(w));
    forall j ensures CountsAgree(t, j) {
      assert CountsAgree(s, j);
      if v :| v in s.workers && s.workers[v].item == j && Ahead(s.workers[v]) { assert v in t.workers; }
    }
  }

  lemma StepKeeps(s: State, l: Label)
    requires Inv(s) && Enabled(s, l)
    ensures Inv(Apply(s, l))
  {
    match l
    case Enqueue(_) =>
      forall j ensures CountsAgree(Apply(s, l), j) { assert CountsAgree(s, j); }
    case Done(w) => DoneKeeps(s, w);
    case _ => WorkerStepKeeps(s, l);
  }

  lemma {:induction false} RunKeeps(s: State, ls: seq<Label>)
    requires Inv(s) && Valid(s, ls)
    ensures Inv(Final(s, ls))
    decreases |ls|
  {
    if ls != [] {
      StepKeeps(s, ls[0]);
      RunKeeps(Apply(s, ls[0]), ls[1..]);
    }
  }

  /** Over every run: an item is reconciled at most 6 times before it is forgotten, its requeue
      count stays within 0..5, and an item that is given up has been reconciled exactly 6 times. */
  lemma RetriesBounded(ls: seq<Label>, i: Item)
    requires Valid(Init(), ls)
    ensures
      var s := Final(Init(), ls);
      && Count(s.attempts, i) <= 6
      && Count(s.requeues, i) <= 5
      && (forall w :: w in s.workers && s.workers[w] == Dropping(i) ==> Count(s.attempts, i) == 6)
  {
    RunKeeps(Init(), ls);
    var s := Final(Init(), ls);
    assert CountsAgree(s, i);
    forall w | w in s.workers && s.workers[w] == Dropping(i)
      ensures Count(s.attempts, i) == MAX_REQUEUES + 1
    {
      assert PcAgrees(s, s.workers[w]) && InProgress(s, i);
    }
  }

  lemma {:induction false} Snoc(s: State, ls: seq<Label>, l: Label)
    requires Valid(s, ls) && Enabled(Final(s, ls), l)
    ensures Valid(s, ls + [l]) && Final(s, ls + [l]) == Apply(Final(s, ls), l)
    decreases |ls|
  {
    var ms := ls + [l];
    if ls == [] {
      assert ms == [l] && ms[1..] == [];
      assert Valid(Apply(s, l), ms[1..]);
    } else {
      assert ms[0] == ls[0] && ms[1..] == ls[1..] + [l];
      Snoc(Apply(s, ls[0]), ls[1..], l);
    }
  }

  // Main results: what the labels of a run say.

  /** The result of worker w's last reconcile. */
  function LastResult(ls: seq<Label>, w: nat): Option<bool> {
    if ls == [] then None else
    var l := ls[|ls| - 1];
    if l.Reconcile? && l.w == w then Some(l.ok) else LastResult(ls[..|ls| - 1], w)
  }

  /** The item worker w got last. */
  function Holds(ls: seq<Label>, w: nat): Option<Item> {
    if ls == [] then None else
    var l := ls[|ls| - 1];
    if l.Get? && l.w == w then Some(l.item) else Holds(ls[..|ls| - 1], w)
  }

  /** The failed reconciles of an item since it was last forgotten. */
  function Failures(ls: seq<Label>, i: Item): nat {
    if ls == [] then 0 else
    var l, before := ls[|ls| - 1], ls[..|ls| - 1];
    if l.Reconcile? && !l.ok && Holds(before, l.w) == Some(i) then Failures(before, i) + 1 else
    if l.Forget? && Holds(before, l.w) == Some(i) then 0 else Failures(before, i)
  }

  predicate Failing(pc: Pc) { pc.Erred? || pc.Retrying? || pc.Dropping? }

  ghost predicate FailureInProgress(s: State, i: Item) {
    exists w :: w in s.workers && s.workers[w].item == i && Failing(s.workers[w])
  }

  predicate PcTracks(pc: Pc, held: Option<Item>, result: Option<bool>) {
    && held == Some(pc.item)
    && (Failing(pc) ==> result == Some(false))
    && (pc.Cleared? ==> result == Some(true))
  }

  ghost predicate WorkersTrack(s: State, ls: seq<Label>) {
    forall w :: w in s.workers ==> PcTracks(s.workers[w], Holds(ls, w), LastResult(ls, w))
  }

  ghost predicate FailuresTrack(s: State, ls: seq<Label>, i: Item) {
    Failures(ls, i) == Count(s.requeues, i) + if FailureInProgress(s, i) then 1 else 0
  }

  lemma {:induction false} LastStep(s: State, ls: seq<Label>)
    requires Valid(s, ls) && ls != []
    ensures Valid(s, ls[..|ls| - 1]) && Enabled(Final(s, ls[..|ls| - 1]), ls[|ls| - 1])
    ensures Final(s, ls) == Apply(Final(s, ls[..|ls| - 1]), ls[|ls| - 1])
    decreases |ls|
  {
    var n := |ls| - 1;
    if n == 0 {
      assert ls[..n] == [] && ls[1..] == [];
    } else {
      LastStep(Apply(s, ls[0]), ls[1..]);
      assert ls[1..][..n - 1] == ls[..n][1..] && ls[..n][0] == ls[0] && ls[1..][n - 1] == ls[n];
    }
  }

  lemma WorkersTrackStep(s: State, ls: seq<Label>, l: Label)
    requires WorkersTrack(s, ls) && Enabled(s, l)
    ensures WorkersTrack(Apply(s, l), ls + [l])
  {
    assert (ls + [l])[..|ls|] == ls;
  }

  /** What a step of worker w on item i leaves alone. */
  lemma OthersFailing(s: State, t: State, w: nat, i: Item, pc: Pc)
    requires Exclusive(s) && t.workers == s.workers[w := pc] && pc.item == i
    requires if w in s.workers then s.workers[w].item == i else Idle(s, i)
    ensures forall j :: j != i ==> (FailureInProgress(t, j) <==> FailureInProgress(s, j))
    ensures FailureInProgress(t, i) <==> Failing(pc)
    ensures FailureInProgress(s, i) <==> w in s.workers && Failing(s.workers[w])
  {
    forall j | j != i ensures FailureInProgress(t, j) <==> FailureInProgress(s, j) {
      if v :| v in s.workers && s.workers[v].item == j && Failing(s.workers[v]) { assert t.workers[v] == s.workers[v]; }
      if v :| v in t.workers && t.workers[v].item == j && Failing(t.workers[v]) { assert t.workers[v] == s.workers[v]; }
    }
    if Failing(pc) { assert t.workers[w] == pc; }
    if w in s.workers && Failing(s.workers[w]) { assert s.workers[w].item == i; }
  }

  lemma FailuresSnoc(ls: seq<Label>, l: Label, i: Item)
    ensures Failures(ls + [l], i) ==
      if l.Reconcile? && !l.ok && Holds(ls, l.w) == Some(i) then Failures(ls, i) + 1
      else if l.Forget? && Holds(ls, l.w) == Some(i) then 0 else Failures(ls, i)
  {
    assert (ls + [l])[..|ls|] == ls;
  }

  lemma FailuresTrackStep(s: State, ls: seq<Label>, l: Label, j: Item)
    requires Exclusive(s) && WorkersTrack(s, ls) && Enabled(s, l) && Steps(l) && FailuresTrack(s, ls, j)
    ensures FailuresTrack(Apply(s, l), ls + [l], j)
  {
    var t, i := Apply(s, l), ItemOf(s, l);
    FailuresSnoc(ls, l, j);
    OthersFailing(s, t, l.w, i, t.workers[l.w]);
    if l.w in s.workers { assert PcTracks(s.workers[l.w], Holds(ls, l.w), LastResult(ls, l.w)); }
  }

  lemma FailuresTrackOther(s: State, ls: seq<Label>, l: Label, j: Item)
    requires Enabled(s, l) && !Steps(l) && FailuresTrack(s, ls, j)
    ensures FailuresTrack(Apply(s, l), ls + [l], j)
  {
    var t := Apply(s, l);
    FailuresSnoc(ls, l, j);
    if v :| v in s.workers && s.workers[v].item == j && Failing(s.workers[v]) { assert t.workers[v] == s.workers[v]; }
    if v :| v in t.workers && t.workers[v].item == j && Failing(t.workers[v]) { assert t.workers[v] == s.workers[v]; }
  }

  /** In every run the workers and the requeue counts are what the labels say: the requeue count of
      an item is the number of its failures since it was last forgotten, but for a failure that a
      worker is still dealing with. */
  lemma {:induction false} RunTracks(ls: seq<Label>)
    requires Valid(Init(), ls)
    ensures WorkersTrack(Final(Init(), ls), ls) && forall i :: FailuresTrack(Final(Init(), ls), ls, i)
    decreases |ls|
  {
    if ls != [] {
      var n := |ls| - 1;
      LastStep(Init(), ls);
      var s := Final(Init(), ls[..n]);
      RunTracks(ls[..n]);
      RunKeeps(Init(), ls[..n]);
      assert ls == ls[..n] + [ls[n]];
      WorkersTrackStep(s, ls[..n], ls[n]);
      forall i ensures FailuresTrack(Final(Init(), ls), ls, i) {
        if Steps(ls[n]) { FailuresTrackStep(s, ls[..n], ls[n], i); } else { FailuresTrackOther(s, ls[..n], ls[n], i); }
      }
    }
  }

  lemma {:induction false} PrefixValid(s: State, ls: seq<Label>, k: nat)
    requires Valid(s, ls) && k <= |ls|
    ensures Valid(s, ls[..k])
    decreases |ls|
  {
    if k == |ls| {
      assert ls[..k] == ls;
    } else {
      LastStep(s, ls);
      PrefixValid(s, ls[..|ls| - 1], k);
      assert ls[..|ls| - 1][..k] == ls[..k];
    }
  }

  lemma NextEnabled(s: State, ls: seq<Label>, k: nat)
    requires Valid(s, ls) && k < |ls|
    ensures Valid(s, ls[..k]) && Enabled(Final(s, ls[..k]), ls[k])
  {
    PrefixValid(s, ls, k + 1);
    LastStep(s, ls[..k + 1]);
    assert ls[..k + 1][..k] == ls[..k];
  }

  /** Over every run: a worker requeues its item only if its last reconcile failed and this was at
      most the fifth failure since the item was forgotten; it forgets the item only if its last
      reconcile succeeded, or failed for the sixth time. */
  lemma RetriesFollowResults(ls: seq<Label>, k: nat)
    requires Valid(Init(), ls) && k < |ls| && (ls[k].AddRateLimited? || ls[k].Forget?)
    ensures
      var before, w := ls[..k], ls[k].w;
      && Holds(before, w).Some?
      && var failures := Failures(before, Holds(before, w).value);
         if ls[k].AddRateLimited? then LastResult(before, w) == Some(false) && 1 <= failures <= 5
         else LastResult(before, w) == Some(true) || (LastResult(before, w) == Some(false) && failures == 6)
  {
    NextEnabled(Init(), ls, k);
    var s, w := Final(Init(), ls[..k]), ls[k].w;
    RunTracks(ls[..k]);
    RunKeeps(Init(), ls[..k]);
    var pc := s.workers[w];
    assert PcTracks(pc, Holds(ls[..k], w), LastResult(ls[..k], w)) && PcAgrees(s, pc);
    assert FailuresTrack(s, ls[..k], pc.item);
    if Failing(pc) { assert FailureInProgress(s, pc.item); }
  }

  function StepsLeft(pc: Pc): nat {
    match pc
    case Got(_) => 4
    case Erred(_) => 3
    case Leaving(_) => 1
    case _ => 2
  }

  /** The next step of worker w, when its reconcile returns this. */
  function Next(pc: Pc, w: nat, ok: bool): Label {
    match pc
    case Got(_) => Reconcile(w, ok)
    case Erred(_) => CheckRequeues(w)
    case Retrying(_) => AddRateLimited(w)
    case Dropping(_) => Forget(w)
    case Cleared(_) => Forget(w)
    case Leaving(_) => Done(w)
  }

  /** No worker gets stuck: it finishes with its item by its own steps, whatever its reconcile
      returns; other workers need not move. */
  lemma {:induction false} WorkerFinishes(s: State, w: nat, ok: bool) returns (ls: seq<Label>)
    requires w in s.workers
    ensures Valid(s, ls) && |ls| <= StepsLeft(s.workers[w]) && Final(s, ls).workers == s.workers - {w}
    decreases StepsLeft(s.workers[w])
  {
    var l := Next(s.workers[w], w, ok);
    var t := Apply(s, l);
    ls := [l];
    if w in t.workers {
      assert t.workers - {w} == s.workers - {w};
      var rest := WorkerFinishes(t, w, ok);
      ls := [l] + rest;
      assert ls[1..] == rest;
    } else {
      assert ls[1..] == [];
    }
  }

  predicate AllFail(ls: seq<Label>) { forall k :: 0 <= k < |ls| && ls[k].Reconcile? ==> !ls[k].ok }

  /** k failures in a row, each requeued. */
  lemma {:induction false} FailingRun(i: Item, k: nat) returns (ls: seq<Label>)
    requires k <= MAX_REQUEUES
    ensures Valid(Init(), ls)
    ensures
      var s := Final(Init(), ls);
      s.workers == map[] && i in s.waiting && Count(s.requeues, i) == k && Count(s.attempts, i) == k
    ensures AllFail(ls)
  {
    var q := Init();
    if k == 0 {
      ls := [];
      Snoc(q, ls, Enqueue(i)); ls := ls + [Enqueue(i)];
    } else {
      ls := FailingRun(i, k - 1);
      Snoc(q, ls, Get(0, i)); ls := ls + [Get(0, i)];
      Snoc(q, ls, Reconcile(0, false)); ls := ls + [Reconcile(0, false)];
      Snoc(q, ls, CheckRequeues(0)); ls := ls + [CheckRequeues(0)];
      Snoc(q, ls, AddRateLimited(0)); ls := ls + [AddRateLimited(0)];
      Snoc(q, ls, Done(0)); ls := ls + [Done(0)];
    }
  }

  /** The bound is reached: an item that keeps failing is reconciled 6 times and then dropped. */
  lemma BoundReached(i: Item) returns (ls: seq<Label>)
    ensures Valid(Init(), ls)
    ensures
      var s := Final(Init(), ls);
      Count(s.attempts, i) == 6 && 0 in s.workers && s.workers[0] == Dropping(i)
    ensures AllFail(ls) && Failures(ls, i) == 6
  {
    var q := Init();
    ls := FailingRun(i, MAX_REQUEUES);
    Snoc(q, ls, Get(0, i)); ls := ls + [Get(0, i)];
    Snoc(q, ls, Reconcile(0, false)); ls := ls + [Reconcile(0, false)];
    Snoc(q, ls, CheckRequeues(0)); ls := ls + [CheckRequeues(0)];
    RunTracks(ls);
    RunKeeps(q, ls);
    var s := Final(q, ls);
    assert s.workers[0].item == i && Failing(s.workers[0]) && InProgress(s, i);
    assert FailuresTrack(s, ls, i) && CountsAgree(s, i);
  }
}
