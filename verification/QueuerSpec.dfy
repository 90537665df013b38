/** What a `Queuer` (internal/queue/queue.go) promises, whatever its implementation: accepted
    jobs enter a line, are started from the front of the line by at most `width` workers, and
    Terminate's wait ends only when every accepted job has finished. */
module QueuerSpec {

  import opened Jobs

  datatype State = State(
    width: nat,
    accepted: multiset<JobId>,
    entered: seq<JobId>,
    started: nat,               // entered[..started] have been started, in this order
    finished: multiset<JobId>,
    terminated: bool)

  datatype Action = Accept(j: JobId) | Enter(j: JobId) | Start | Finish(j: JobId) | Terminate

  function Init(width: nat): State { State(width, multiset{}, [], 0, multiset{}, false) }

  predicate Enabled(s: State, a: Action) {
    match a
    case Accept(j) => !s.terminated && j !in s.accepted
    case Enter(j) => j in s.accepted && j !in s.entered
    case Start => s.started < |s.entered| && s.started < |s.finished| + s.width
    case Finish(j) => s.started <= |s.entered| && s.finished[j] < multiset(s.entered[..s.started])[j]
    case Terminate => !s.terminated && s.finished == s.accepted
  }

  function Apply(s: State, a: Action): State
    requires Enabled(s, a)
  {
    match a
    case Accept(j) => s.(accepted := s.accepted + multiset{j})
    case Enter(j) => s.(entered := s.entered + [j])
    case Start => s.(started := s.started + 1)
    case Finish(j) => s.(finished := s.finished + multiset{j})
    case Terminate => s.(terminated := true)
  }

  predicate Valid(s: State, acts: seq<Action>)
    decreases |acts|
  {
    acts == [] || (Enabled(s, acts[0]) && Valid(Apply(s, acts[0]), acts[1..]))
  }

  function Final(s: State, acts: seq<Action>): State
    requires Valid(s, acts)
    decreases |acts|
  {
    if acts == [] then s else Final(Apply(s, acts[0]), acts[1..])
  }

  lemma {:induction false} Concat(s: State, a: seq<Action>, b: seq<Action>)
    requires Valid(s, a) && Valid(Final(s, a), b)
    ensures Valid(s, a + b) && Final(s, a + b) == Final(Final(s, a), b)
    decreases |a|
  {
    if a == [] {
      assert a + b == b;
    } else {
      assert (a + b)[0] == a[0] && (a + b)[1..] == a[1..] + b;
      Concat(Apply(s, a[0]), a[1..], b);
    }
  }

  lemma Single(s: State, a: Action)
    requires Enabled(s, a)
    ensures Valid(s, [a]) && Final(s, [a]) == Apply(s, a)
  {
    assert [a][1..] == [];
    assert Valid(Apply(s, a), [a][1..]);
  }

  ghost predicate Once(m: multiset<JobId>) { forall j :: m[j] <= 1 }

  ghost predicate Inv(s: State) {
    && Once(s.accepted)
    && multiset(s.entered) <= s.accepted
    && s.started <= |s.entered|
    && s.finished <= multiset(s.entered[..s.started])
    && s.started <= |s.finished| + s.width
    && (s.terminated ==> s.finished == s.accepted)
  }

  lemma PrefixBelow(e: seq<JobId>, k: nat)
    requires k <= |e|
    ensures multiset(e[..k]) <= multiset(e)
  {
    assert e == e[..k] + e[k..];
  }

  lemma SubSize(a: multiset<JobId>, b: multiset<JobId>)
    requires a <= b
    ensures |a| <= |b|
    ensures |a| == |b| ==> a == b
  {
    assert b == a + (b - a);
  }

  /** A finished line: everything accepted was entered, started and finished. */
  lemma Settled(s: State)
    requires Inv(s) && s.finished == s.accepted
    ensures s.started == |s.entered|
    ensures multiset(s.entered) == s.accepted == s.finished
  {
    PrefixBelow(s.entered, s.started);
    SubSize(s.finished, multiset(s.entered[..s.started]));
    SubSize(multiset(s.entered), s.accepted);
  }

  /** Termination is final. */
  lemma NothingAfterTermination(s: State, a: Action)
    requires Inv(s) && s.terminated
    ensures !Enabled(s, a)
  {
    Settled(s);
    assert s.entered[..s.started] == s.entered;
    if a.Enter? {
      assert multiset(s.entered)[a.j] == s.accepted[a.j];
    }
  }

  lemma EnterKeeps(s: State, j: JobId)
    requires Inv(s) && !s.terminated && Enabled(s, Enter(j))
    ensures Inv(Apply(s, Enter(j)))
  {
    var t := Apply(s, Enter(j));
    assert t.entered[..s.started] == s.entered[..s.started];
    assert multiset(t.entered) == multiset(s.entered) + multiset{j};
    assert multiset(s.entered)[j] == 0 && 0 < s.accepted[j];
  }

  lemma StartKeeps(s: State)
    requires Inv(s) && !s.terminated && Enabled(s, Start)
    ensures Inv(Apply(s, Start))
  {
    var t := Apply(s, Start);
    assert t.entered[..t.started] == s.entered[..s.started] + [s.entered[s.started]];
  }

  lemma StepKeeps(s: State, a: Action)
    requires Inv(s) && Enabled(s, a)
    ensures Inv(Apply(s, a))
  {
    if s.terminated { NothingAfterTermination(s, a); }
    match a
    case Accept(j) => assert Apply(s, a).accepted[j] == 1;
    case Enter(j) => EnterKeeps(s, j);
    case Start => StartKeeps(s);
    case Finish(j) =>
    case Terminate =>
  }

  lemma {:induction false} RunKeeps(s: State, acts: seq<Action>)
    requires Inv(s) && Valid(s, acts)
    ensures Inv(Final(s, acts))
    decreases |acts|
  {
    if acts != [] {
      StepKeeps(s, acts[0]);
      RunKeeps(Apply(s, acts[0]), acts[1..]);
    }
  }

  /** The safety result for every run: terminated means every accepted job ran exactly once, in
      the order of the line, and never did more than `width` jobs run at a time. */
  lemma TerminatedMeansAllRan(width: nat, acts: seq<Action>)
    requires Valid(Init(width), acts)
    ensures
      var s := Final(Init(width), acts);
      && s.started - |s.finished| <= s.width
      && (forall j :: multiset(s.entered)[j] <= 1)
      && (s.terminated ==>
            s.started == |s.entered| && multiset(s.entered) == s.accepted == s.finished)
  {
    RunKeeps(Init(width), acts);
    var s := Final(Init(width), acts);
    if s.terminated { Settled(s); }
  }
}
