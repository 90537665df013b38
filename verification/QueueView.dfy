/** What both queues have in common in front of the crew: accepted jobs arrive and enter a line in
    some order (`entered`), and the crew together with that line is seen as a state of the
    abstract queuer. */
module QueueView {
  import opened Jobs
  import C = Crew
  import Spec = QueuerSpec

  /** Past wg.Add a job is at the door (`sending`) or has entered, and no job is accepted twice. */
  ghost predicate Arrivals(c: C.Crew, sending: set<JobId>, entered: seq<JobId>) {
    && multiset(c.accepted) == multiset(sending) + multiset(entered)
    && Spec.Once(multiset(c.accepted))
  }

  lemma ArrivalSizes(c: C.Crew, sending: set<JobId>, entered: seq<JobId>)
    requires Arrivals(c, sending, entered)
    ensures |c.accepted| == |sending| + |entered|
  {
    assert |multiset(c.accepted)| == |multiset(sending)| + |multiset(entered)|;
  }

  lemma AddArrives(c: C.Crew, sending: set<JobId>, entered: seq<JobId>, j: JobId)
    requires Arrivals(c, sending, entered) && j !in c.accepted
    ensures Arrivals(C.Accept(c, j), sending + {j}, entered)
  {
    assert multiset(C.Accept(c, j).accepted) == multiset(c.accepted) + multiset{j};
    assert multiset(c.accepted)[j] == 0;
    assert j !in multiset(sending);
    assert multiset(sending + {j}) == multiset(sending) + multiset{j};
    C.Regroup(multiset(sending), multiset(entered), multiset{}, multiset{j});
  }

  lemma EnterArrives(c: C.Crew, sending: set<JobId>, entered: seq<JobId>, j: JobId)
    requires Arrivals(c, sending, entered) && j in sending
    ensures Arrivals(c, sending - {j}, entered + [j])
    ensures j in c.accepted && j !in entered
  {
    assert multiset(sending) == multiset(sending - {j}) + multiset{j};
    assert multiset(entered + [j]) == multiset(entered) + multiset{j};
    C.Regroup(multiset(sending - {j}), multiset(entered), multiset{}, multiset{j});
    assert multiset(c.accepted)[j] <= 1;
    assert multiset(entered)[j] == 0;
    assert j in multiset(c.accepted);
  }

  /** No panic; jobs were handed to workers in the order they entered, and `waiting` is the rest;
      the WaitGroup counts the accepted jobs that are not done; at most maxThread jobs are with
      workers; and until Wait returns each started worker's token is in exactly one place. */
  ghost predicate Safe(c: C.Crew, entered: seq<JobId>, waiting: seq<JobId>) {
    && !c.crashed
    && entered == c.starts + waiting
    && c.wg == |c.accepted| - |c.finished| >= 0
    && |c.starts| - |c.finished| <= |c.ws|
    && (c.term.NotCalled? || c.term.Waiting? ==>
      (forall w: nat :: w < C.Started(c) ==> C.TokenPlacesOf(c, w) == 1))
  }

  lemma OkIsSafe(c: C.Crew, sending: set<JobId>, entered: seq<JobId>, waiting: seq<JobId>)
    requires C.Ok(c) && Arrivals(c, sending, entered) && entered == c.starts + waiting
    ensures Safe(c, entered, waiting)
  {
    ArrivalSizes(c, sending, entered);
    if C.Working(c) {
      C.BoundedConcurrency(c);
      forall w: nat | w < C.Started(c) ensures C.TokenPlacesOf(c, w) == 1 { C.TokenInOnePlace(c, w); }
    } else {
      assert |multiset(c.starts)| == |multiset(c.finished)|;
    }
  }

  // The abstract queuer.

  predicate PastWait(c: C.Crew) { !c.term.NotCalled? && !c.term.Waiting? }

  ghost function Abs(c: C.Crew, entered: seq<JobId>): Spec.State {
    Spec.State(|c.ws|, multiset(c.accepted), entered, |c.starts|, multiset(c.finished), PastWait(c))
  }

  /** The change from (c, e) to (d, f) is the abstract action a. */
  ghost predicate Matches(c: C.Crew, e: seq<JobId>, d: C.Crew, f: seq<JobId>, a: Spec.Action) {
    Spec.Enabled(Abs(c, e), a) && Abs(d, f) == Spec.Apply(Abs(c, e), a)
  }

  lemma AcceptMatches(c: C.Crew, e: seq<JobId>, j: JobId)
    requires !PastWait(c) && j !in c.accepted
    ensures Matches(c, e, C.Accept(c, j), e, Spec.Accept(j))
  {
  }

  lemma EnterMatches(c: C.Crew, e: seq<JobId>, j: JobId)
    requires j in c.accepted && j !in e
    ensures Matches(c, e, c, e + [j], Spec.Enter(j))
  {
  }

  lemma StartMatches(c: C.Crew, e: seq<JobId>, j: JobId)
    requires C.JobsConserved(c) && C.CanHandOff(c) && c.ws[c.hand.value].Selecting?
    requires |c.starts| < |e|
    ensures Matches(c, e, C.HandOff(c, j), e, Spec.Start)
  {
    C.RoomForStart(c, c.hand.value);
  }

  lemma FinishMatches(c: C.Crew, e: seq<JobId>, w: nat)
    requires C.JobsConserved(c) && C.Enabled(c, C.Done(w)) && 0 < c.wg && c.starts <= e
    ensures Matches(c, e, C.Apply(c, C.Done(w)), e, Spec.Finish(c.ws[w].job))
  {
    C.UnfinishedWithWorker(c, w);
    assert e[..|c.starts|] == c.starts;
    DoneAbs(c, e, w);
  }

  lemma DoneAbs(c: C.Crew, e: seq<JobId>, w: nat)
    requires C.Enabled(c, C.Done(w)) && 0 < c.wg
    ensures Abs(C.Apply(c, C.Done(w)), e) == Abs(c, e).(finished := Abs(c, e).finished + multiset{c.ws[w].job})
  {
    assert multiset(c.finished + [c.ws[w].job]) == multiset(c.finished) + multiset{c.ws[w].job};
  }

  lemma FinishMatchesWorking(c: C.Crew, e: seq<JobId>, w: nat)
    requires C.Working(c) && C.Enabled(c, C.Done(w)) && |c.starts| <= |c.accepted| && c.starts <= e
    ensures Matches(c, e, C.Apply(c, C.Done(w)), e, Spec.Finish(c.ws[w].job))
  {
    C.DonePositive(c, w);
    FinishMatches(c, e, w);
  }

  lemma TerminateMatches(c: C.Crew, e: seq<JobId>, next: C.TerminatorPc)
    requires C.CanReturnFromWait(c) && multiset(c.accepted) == multiset(c.finished)
    requires next == C.Closing || next == C.Stopping(0)
    ensures Matches(c, e, C.ReturnFromWait(c, next), e, Spec.Terminate)
  {
  }

  /** The crew's other steps cannot be seen. */
  lemma CrewInvisible(c: C.Crew, e: seq<JobId>, l: C.Label)
    requires C.Enabled(c, l) && !l.Done?
    ensures Abs(C.Apply(c, l), e) == Abs(c, e)
  {
    C.StepFrame(c, l);
  }

  /** At most one abstract action accounts for a step. */
  lemma OneAction(c: C.Crew, e: seq<JobId>, d: C.Crew, f: seq<JobId>, acts: seq<Spec.Action>)
    requires |acts| <= 1
    requires acts == [] ==> Abs(d, f) == Abs(c, e)
    requires acts != [] ==> Matches(c, e, d, f, acts[0])
    ensures Spec.Valid(Abs(c, e), acts) && Spec.Final(Abs(c, e), acts) == Abs(d, f)
  {
    if acts != [] {
      Spec.Single(Abs(c, e), acts[0]);
      assert acts == [acts[0]];
    }
  }

  /** What a terminated abstract state says of the crew behind it: every accepted job was started
      and finished exactly once, in the order of entry. */
  lemma TerminatedMeans(c: C.Crew, e: seq<JobId>, acts: seq<Spec.Action>)
    requires Spec.Valid(Spec.Init(|c.ws|), acts) && Spec.Final(Spec.Init(|c.ws|), acts) == Abs(c, e)
    requires c.starts <= e && PastWait(c)
    ensures multiset(c.finished) == multiset(c.starts) == multiset(c.accepted)
    ensures Spec.Once(multiset(c.starts)) && c.starts == e
  {
    Spec.TerminatedMeansAllRan(|c.ws|, acts);
    assert c.starts == e;
  }

  /** When all accepted jobs were started once and have finished, a job has finished once if it was
      accepted and never otherwise. */
  lemma FinishedOnce(c: C.Crew, j: JobId)
    requires multiset(c.finished) == multiset(c.starts) == multiset(c.accepted)
    requires Spec.Once(multiset(c.starts))
    ensures multiset(c.finished)[j] == if j in c.accepted then 1 else 0
  {
    assert j in c.accepted <==> j in multiset(c.accepted);
  }
}
