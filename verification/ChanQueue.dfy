/** The channel queue of internal/queue/chan_queue.go: pushers, the bounded job channel and its
    dispatcher, in front of the shared crew of workers. */
module ChanQueue {
  import opened Jobs
  import C = Crew
  import Spec = QueuerSpec
  import V = QueueView

  /** Where `Queue.dispatcher` is: at the channel receive, with a job in hand (first waiting for
      a token, then sending to the worker), or past the end of its loop. */
  datatype DispatcherPc = Receiving | Holding(job: JobId) | Left

  /** A Push call is in `checked` between its running check and its wg.Add, and in `sending`
      between its wg.Add and its channel send. `calls` and `entered` are histories: every Push
      call made, and the jobs in the order they entered the channel. */
  datatype State = State(
    cap: nat,
    crew: C.Crew,
    calls: set<JobId>,
    checked: set<JobId>,
    sending: set<JobId>,
    jobs: seq<JobId>,
    jobsClosed: bool,
    d: DispatcherPc,
    entered: seq<JobId>)

  function New(maxCapacity: nat, maxThread: nat): State {
    State(maxCapacity, C.New(maxThread), {}, {}, {}, [], false, Receiving, [])
  }

  datatype Label =
    | PushCall(j: JobId) | Add(j: JobId) | Send(j: JobId)
    | Receive | Take | HandOff | Leave
    | WaitReturns | CloseJobs
    | OfCrew(l: C.Label)

  /** An unbuffered channel passes a job directly to a dispatcher that is ready to receive. */
  predicate Rendezvous(s: State) {
    s.cap == 0 && s.jobs == [] && s.crew.runner.Launched? && s.d.Receiving?
  }

  predicate Enabled(s: State, l: Label) {
    !s.crew.crashed &&
    match l
    case PushCall(j) => j !in s.calls
    case Add(j) => j in s.checked
    case Send(j) => j in s.sending && (s.jobsClosed || |s.jobs| < s.cap || Rendezvous(s))
    case Receive => s.crew.runner.Launched? && s.d.Receiving? && s.jobs != []
    case Take => s.d.Holding? && C.CanTake(s.crew)
    case HandOff => s.d.Holding? && C.CanHandOff(s.crew)
    case Leave => s.crew.runner.Launched? && s.d.Receiving? && s.jobs == [] && s.jobsClosed
    case WaitReturns => C.CanReturnFromWait(s.crew)
    case CloseJobs => s.crew.term.Closing?
    case OfCrew(cl) => C.Enabled(s.crew, cl)
  }

  function Apply(s: State, l: Label): State
    requires Enabled(s, l)
  {
    match l
    case PushCall(j) =>
      s.(calls := s.calls + {j}, checked := if s.crew.running then s.checked + {j} else s.checked)
    case Add(j) =>
      s.(checked := s.checked - {j}, sending := s.sending + {j}, crew := C.Accept(s.crew, j))
    case Send(j) =>
      if s.jobsClosed then s.(crew := s.crew.(crashed := true))
      else
        var t := s.(sending := s.sending - {j}, entered := s.entered + [j]);
        if |s.jobs| < s.cap then t.(jobs := s.jobs + [j]) else t.(d := Holding(j))
    case Receive => s.(d := Holding(s.jobs[0]), jobs := s.jobs[1..])
    case Take => s.(crew := C.TakeToken(s.crew))
    case HandOff =>
      var c := C.HandOff(s.crew, s.d.job);
      if c.crashed then s.(crew := c) else s.(crew := c, d := Receiving)
    case Leave => s.(d := Left)
    case WaitReturns => s.(crew := C.ReturnFromWait(s.crew, C.Closing))
    case CloseJobs => s.(jobsClosed := true, crew := s.crew.(term := C.Stopping(0)))
    case OfCrew(cl) => s.(crew := C.Apply(s.crew, cl))
  }

  // Runs.

  predicate Valid(s: State, ls: seq<Label>)
    decreases |ls|
  {
    ls == [] || (Enabled(s, ls[0]) && Valid(Apply(s, ls[0]), ls[1..]))
  }

  function Final(s: State, ls: seq<Label>): State
    requires Valid(s, ls)
    decreases |ls|
  {
    if ls == [] then s else Final(Apply(s, ls[0]), ls[1..])
  }

  /** Wait returns only when no Push call stands between its running check and its wg.Add. */
  predicate CleanStep(s: State, l: Label) { l.WaitReturns? ==> s.checked == {} }

  predicate Clean(s: State, ls: seq<Label>)
    requires Valid(s, ls)
    decreases |ls|
  {
    ls == [] || (CleanStep(s, ls[0]) && Clean(Apply(s, ls[0]), ls[1..]))
  }

  // The invariant.

  function InHand(s: State): seq<JobId> {
    if s.d.Holding? then [s.d.job] else []
  }

  /** Where each job is: past Add it is at the channel's door or has entered, and what entered is
      what was handed to workers, then the job in the dispatcher's hand, then what waits. */
  ghost predicate Accounts(s: State) { Arrivals(s) && Fifo(s) }

  ghost predicate Arrivals(s: State) { V.Arrivals(s.crew, s.sending, s.entered) }

  predicate Fifo(s: State) { s.entered == s.crew.starts + InHand(s) + s.jobs }

  ghost predicate CallsKnown(s: State) {
    && (forall j :: j in s.checked ==> j in s.calls && j !in s.crew.accepted)
    && (forall j :: j in s.crew.accepted ==> j in s.calls)
  }

  ghost predicate Open(s: State) { C.Working(s.crew) && DoorOpen(s) }

  ghost predicate DoorOpen(s: State) {
    && !s.jobsClosed && !s.d.Left? && |s.jobs| <= s.cap
    && (s.crew.hand.Some? ==> s.d.Holding?)
    && (!s.crew.runner.Launched? ==> s.d.Receiving?)
    && (s.crew.runner.Idle? ==> s.checked == {})
  }

  ghost predicate Shut(s: State) { C.ShuttingDown(s.crew) && DoorShut(s) }

  ghost predicate DoorShut(s: State) {
    && s.checked == {} && s.sending == {} && s.jobs == [] && !s.d.Holding?
    && (s.jobsClosed <==> !s.crew.term.Closing?)
    && (s.d.Left? ==> s.jobsClosed)
  }

  ghost predicate Inv(s: State) {
    Accounts(s) && CallsKnown(s) && (Open(s) || Shut(s))
  }

  lemma InitInv(maxCapacity: nat, maxThread: nat)
    ensures Inv(New(maxCapacity, maxThread))
  {
    C.NewIsWorking(maxThread);
  }

  lemma Sizes(s: State)
    requires Accounts(s)
    ensures |s.crew.accepted| == |s.sending| + |s.crew.starts| + |InHand(s)| + |s.jobs|
  {
    V.ArrivalSizes(s.crew, s.sending, s.entered);
  }

  lemma PushCallKeeps(s: State, j: JobId)
    requires Inv(s) && Enabled(s, PushCall(j))
    ensures Inv(Apply(s, PushCall(j)))
  {
  }

  lemma AddKeeps(s: State, j: JobId)
    requires Inv(s) && Enabled(s, Add(j))
    ensures Inv(Apply(s, Add(j)))
  {
    assert j in s.checked && Open(s);
    V.AddArrives(s.crew, s.sending, s.entered, j);
    C.AcceptKeeps(s.crew, j);
  }

  lemma SendFifo(s: State, j: JobId)
    requires Fifo(s) && Enabled(s, Send(j)) && !s.jobsClosed && DoorOpen(s)
    ensures Fifo(Apply(s, Send(j))) && DoorOpen(Apply(s, Send(j)))
  {
    assert s.crew.starts + InHand(s) + (s.jobs + [j]) == s.crew.starts + InHand(s) + s.jobs + [j];
  }

  lemma SendFrame(s: State, j: JobId)
    requires Enabled(s, Send(j)) && !s.jobsClosed
    ensures
      var t := Apply(s, Send(j));
      && t.crew == s.crew && t.calls == s.calls && t.checked == s.checked
      && t.sending == s.sending - {j} && t.entered == s.entered + [j]
  {
  }

  lemma SendKeeps(s: State, j: JobId)
    requires Inv(s) && Enabled(s, Send(j))
    ensures Inv(Apply(s, Send(j)))
  {
    assert j in s.sending && Open(s);
    V.EnterArrives(s.crew, s.sending, s.entered, j);
    SendFrame(s, j);
    SendFifo(s, j);
  }

  lemma ReceiveFifo(s: State)
    requires Fifo(s) && Enabled(s, Receive)
    ensures Fifo(Apply(s, Receive)) && (DoorOpen(s) ==> DoorOpen(Apply(s, Receive)))
  {
    assert s.jobs == [s.jobs[0]] + s.jobs[1..];
  }

  lemma ReceiveKeeps(s: State)
    requires Inv(s) && Enabled(s, Receive)
    ensures Inv(Apply(s, Receive))
  {
    assert Open(s) && Apply(s, Receive).crew == s.crew;
    ReceiveFifo(s);
  }

  lemma HandOffFifo(s: State)
    requires Fifo(s) && Enabled(s, HandOff) && s.crew.ws[s.crew.hand.value].Selecting?
    ensures Fifo(Apply(s, HandOff))
  {
  }

  lemma HandOffInv(s: State)
    requires Inv(s) && Enabled(s, HandOff)
    ensures Inv(Apply(s, HandOff))
  {
    assert Open(s) && s.crew.ws[s.crew.hand.value].Selecting?;
    HandOffFifo(s);
    C.HandOffKeeps(s.crew, s.d.job);
  }

  lemma WaitKeeps(s: State)
    requires Inv(s) && Enabled(s, WaitReturns) && CleanStep(s, WaitReturns)
    ensures Shut(Apply(s, WaitReturns)) && Inv(Apply(s, WaitReturns))
    ensures |s.crew.pool| == |s.crew.ws|
    ensures forall w: nat :: w < |s.crew.ws| ==> w in s.crew.pool
  {
    Sizes(s);
    assert |multiset(s.crew.starts)| == |C.Held(s.crew.ws)| + |multiset(s.crew.finished)|;
    C.WaitReturnsClean(s.crew, C.Closing);
  }

  lemma CrewStepAccounts(s: State, cl: C.Label)
    requires Accounts(s) && CallsKnown(s) && C.Enabled(s.crew, cl)
    ensures Accounts(Apply(s, OfCrew(cl))) && CallsKnown(Apply(s, OfCrew(cl)))
    ensures |s.crew.starts| <= |s.crew.accepted|
  {
    Sizes(s);
    C.StepFrame(s.crew, cl);
  }

  lemma CrewStepDoor(s: State, cl: C.Label)
    requires C.Enabled(s.crew, cl)
    ensures DoorOpen(s) ==> DoorOpen(Apply(s, OfCrew(cl)))
    ensures DoorShut(s) ==> DoorShut(Apply(s, OfCrew(cl)))
  {
    C.StepFrame(s.crew, cl);
  }

  lemma CrewStepKeeps(s: State, cl: C.Label)
    requires Inv(s) && C.Enabled(s.crew, cl)
    ensures Inv(Apply(s, OfCrew(cl)))
  {
    CrewStepAccounts(s, cl);
    CrewStepDoor(s, cl);
    if Open(s) { C.WorkingKept(s.crew, cl); } else { C.ShuttingDownKept(s.crew, cl); }
  }

  lemma LeaveKeeps(s: State)
    requires Inv(s) && Enabled(s, Leave)
    ensures Inv(Apply(s, Leave))
  {
  }

  lemma TakeKeeps(s: State)
    requires Inv(s) && Enabled(s, Take)
    ensures Inv(Apply(s, Take))
  {
    C.TakeTokenKeeps(s.crew);
  }

  lemma CloseJobsKeeps(s: State)
    requires Inv(s) && Enabled(s, CloseJobs)
    ensures Inv(Apply(s, CloseJobs))
  {
    assert C.Unspent(Apply(s, CloseJobs).crew) == C.Unspent(s.crew);
  }

  /** Every step of every goroutine keeps the invariant, and none panics. */
  lemma StepKeeps(s: State, l: Label)
    requires Inv(s) && Enabled(s, l) && CleanStep(s, l)
    ensures Inv(Apply(s, l))
  {
    match l
    case PushCall(j) => PushCallKeeps(s, j);
    case Add(j) => AddKeeps(s, j);
    case Send(j) => SendKeeps(s, j);
    case Receive => ReceiveKeeps(s);
    case Take => TakeKeeps(s);
    case HandOff => HandOffInv(s);
    case Leave => LeaveKeeps(s);
    case WaitReturns => WaitKeeps(s);
    case CloseJobs => CloseJobsKeeps(s);
    case OfCrew(cl) => CrewStepKeeps(s, cl);
  }

  lemma {:induction false} RunKeeps(s: State, ls: seq<Label>)
    requires Inv(s) && Valid(s, ls) && Clean(s, ls)
    ensures Inv(Final(s, ls))
    decreases |ls|
  {
    if ls != [] {
      StepKeeps(s, ls[0]);
      RunKeeps(Apply(s, ls[0]), ls[1..]);
    }
  }

  // Main results: safety over whole runs.

  ghost predicate Safe(s: State) { V.Safe(s.crew, s.entered, InHand(s) + s.jobs) }

  lemma Waiting(s: State)
    requires Fifo(s)
    ensures s.entered == s.crew.starts + (InHand(s) + s.jobs)
  {
  }

  lemma InvIsSafe(s: State)
    requires Inv(s)
    ensures Safe(s)
  {
    Waiting(s);
    V.OkIsSafe(s.crew, s.sending, s.entered, InHand(s) + s.jobs);
  }

  lemma PastWaitStays(s: State, l: Label)
    requires Enabled(s, l)
    ensures V.PastWait(s.crew) || l.WaitReturns? ==> V.PastWait(Apply(s, l).crew)
  {
    if l.OfCrew? { C.StepFrame(s.crew, l.l); }
  }

  lemma {:induction false} PastWaitForEver(s: State, ls: seq<Label>)
    requires Valid(s, ls) && V.PastWait(s.crew)
    ensures V.PastWait(Final(s, ls).crew)
    decreases |ls|
  {
    if ls != [] {
      PastWaitStays(s, ls[0]);
      PastWaitForEver(Apply(s, ls[0]), ls[1..]);
    }
  }

  /** Until Wait returns every run is clean. */
  lemma {:induction false} CleanUntilWaitReturns(s: State, ls: seq<Label>)
    requires Valid(s, ls) && !V.PastWait(Final(s, ls).crew)
    ensures Clean(s, ls)
    decreases |ls|
  {
    if ls != [] {
      PastWaitStays(s, ls[0]);
      if V.PastWait(Apply(s, ls[0]).crew) { PastWaitForEver(Apply(s, ls[0]), ls[1..]); }
      CleanUntilWaitReturns(Apply(s, ls[0]), ls[1..]);
    }
  }

  /** Every reachable state is safe until Wait returns, and afterwards in every clean run. */
  lemma EveryRunIsSafe(maxCapacity: nat, maxThread: nat, ls: seq<Label>)
    requires Valid(New(maxCapacity, maxThread), ls)
    requires V.PastWait(Final(New(maxCapacity, maxThread), ls).crew) ==> Clean(New(maxCapacity, maxThread), ls)
    ensures Safe(Final(New(maxCapacity, maxThread), ls))
  {
    var q := New(maxCapacity, maxThread);
    if !V.PastWait(Final(q, ls).crew) { CleanUntilWaitReturns(q, ls); }
    InitInv(maxCapacity, maxThread);
    RunKeeps(q, ls);
    InvIsSafe(Final(q, ls));
  }

  lemma {:induction false} Snoc(s: State, ls: seq<Label>, l: Label)
    requires Valid(s, ls) && Enabled(Final(s, ls), l)
    ensures Valid(s, ls + [l]) && Final(s, ls + [l]) == Apply(Final(s, ls), l)
    ensures Clean(s, ls) && CleanStep(Final(s, ls), l) ==> Clean(s, ls + [l])
    decreases |ls|
  {
    var ms := ls + [l];
    if ls == [] {
      assert ms == [l] && ms[1..] == [];
      assert Valid(Apply(s, l), ms[1..]);
    } else {
      assert ms[0] == ls[0] && ms[1..] == ls[1..] + [l];
      Snoc(Apply(s, ls[0]), ls[1..], l);
    }
  }

  lemma {:induction false} ShutIsClean(s: State, ls: seq<Label>)
    requires Inv(s) && Shut(s) && Valid(s, ls)
    ensures Clean(s, ls) && Inv(Final(s, ls)) && Shut(Final(s, ls))
    decreases |ls|
  {
    if ls != [] {
      StepKeeps(s, ls[0]);
      StaysShut(s, ls[0]);
      ShutIsClean(Apply(s, ls[0]), ls[1..]);
    }
  }

  lemma StaysShut(s: State, l: Label)
    requires Inv(s) && Shut(s) && Enabled(s, l)
    ensures Shut(Apply(s, l))
  {
    StepKeeps(s, l);
    var t := Apply(s, l);
    if l.OfCrew? { C.StepFrame(s.crew, l.l); }
    assert !t.crew.term.NotCalled? && !t.crew.term.Waiting?;
  }

  /** The run that panics: Wait has returned, the job channel is closed, and then the Push call
      that had already passed its check adds and sends. */
  lemma WindowPanics(s: State, j: JobId) returns (ls: seq<Label>)
    requires !s.crew.crashed && s.crew.term.Closing? && j in s.checked
    ensures Valid(s, ls) && Final(s, ls).crew.crashed
  {
    ls := [];
    assert Final(s, ls) == s;
    Snoc(s, ls, CloseJobs); ls := ls + [CloseJobs];
    Snoc(s, ls, Add(j)); ls := ls + [Add(j)];
    Snoc(s, ls, Send(j)); ls := ls + [Send(j)];
  }

  /** Shutdown is safe exactly when no Push call stands between its running check and its
      wg.Add at the moment Wait returns: then, and only then, no continuation panics. */
  lemma ShutdownSafeExactly(s: State)
    requires Inv(s) && Enabled(s, WaitReturns)
    ensures (forall ls :: Valid(Apply(s, WaitReturns), ls) ==>
               !Final(Apply(s, WaitReturns), ls).crew.crashed)
            <==> s.checked == {}
  {
    var t := Apply(s, WaitReturns);
    if s.checked == {} {
      WaitKeeps(s);
      forall ls | Valid(t, ls) ensures !Final(t, ls).crew.crashed { ShutIsClean(t, ls); }
    } else {
      var j :| j in s.checked;
      var ls := WindowPanics(t, j);
    }
  }

  /** A queue with one worker, up and running, with one Push call past its running check when
      Terminate clears the flag. */
  lemma WindowReachable(maxCapacity: nat) returns (ls: seq<Label>)
    ensures Valid(New(maxCapacity, 1), ls) && Clean(New(maxCapacity, 1), ls)
    ensures
      var s := Final(New(maxCapacity, 1), ls);
      && s.checked == {0} && !s.crew.crashed && !s.crew.running && s.crew.runner.Launched?
      && s.crew.term.Waiting? && s.crew.wg == 0 && |s.crew.ws| == 1 && s.d == New(maxCapacity, 1).d
  {
    var q := New(maxCapacity, 1);
    ls := [];
    Snoc(q, ls, OfCrew(C.BeginRun)); ls := ls + [OfCrew(C.BeginRun)];
    Snoc(q, ls, OfCrew(C.StartWorker)); ls := ls + [OfCrew(C.StartWorker)];
    Snoc(q, ls, OfCrew(C.LaunchDispatcher)); ls := ls + [OfCrew(C.LaunchDispatcher)];
    Snoc(q, ls, PushCall(0)); ls := ls + [PushCall(0)];
    Snoc(q, ls, OfCrew(C.BeginTerminate)); ls := ls + [OfCrew(C.BeginTerminate)];
  }

  /** A run from a new queue with one worker that ends in a send on a closed channel. */
  lemma PanicReachable(maxCapacity: nat) returns (ls: seq<Label>)
    ensures Valid(New(maxCapacity, 1), ls) && Final(New(maxCapacity, 1), ls).crew.crashed
  {
    var q := New(maxCapacity, 1);
    ls := WindowReachable(maxCapacity);
    Snoc(q, ls, WaitReturns); ls := ls + [WaitReturns];
    Snoc(q, ls, CloseJobs); ls := ls + [CloseJobs];
    Snoc(q, ls, Add(0)); ls := ls + [Add(0)];
    Snoc(q, ls, Send(0)); ls := ls + [Send(0)];
  }

  // Main results: ranking and progress.

  function DispatcherWeight(s: State): nat {
    match s.d
    case Left => 0
    case Receiving => 1
    case Holding(_) => if s.crew.hand.Some? then 5 else 6
  }

  /** The operations still to come, summed over the Push calls and jobs under way, the
      dispatcher, the workers, Run and Terminate. */
  function Rank(s: State): nat {
    C.Rank(s.crew) + 8 * |s.checked| + 7 * |s.sending| + 6 * |s.jobs| + DispatcherWeight(s)
  }

  lemma HandOffRank(s: State)
    requires Enabled(s, HandOff)
    ensures Rank(Apply(s, HandOff)) < Rank(s)
  {
    C.HandOffRank(s.crew, s.d.job);
  }

  lemma CrewRank(s: State, cl: C.Label)
    requires C.WellPlaced(s.crew) && C.Enabled(s.crew, cl)
    ensures Rank(Apply(s, OfCrew(cl))) < Rank(s)
  {
    C.StepFrame(s.crew, cl);
    C.RankDrops(s.crew, cl);
  }

  lemma PusherRank(s: State, l: Label)
    requires Enabled(s, l) && (l.PushCall? || l.Add? || l.Send?)
    ensures !l.PushCall? ==> Rank(Apply(s, l)) < Rank(s)
    ensures l.PushCall? ==> Rank(Apply(s, l)) <= Rank(s) + 8
  {
    if l.Add? { assert C.Rank(Apply(s, l).crew) == C.Rank(s.crew); }
  }

  lemma DispatcherRank(s: State, l: Label)
    requires Enabled(s, l) && (l.Receive? || l.Take? || l.Leave? || l.WaitReturns? || l.CloseJobs?)
    ensures Rank(Apply(s, l)) < Rank(s)
  {
  }

  /** Every step except the arrival of a new Push call lowers the measure. */
  lemma EveryStepLowersRank(s: State, l: Label)
    requires Inv(s) && Enabled(s, l)
    ensures !l.PushCall? ==> Rank(Apply(s, l)) < Rank(s)
    ensures l.PushCall? ==> Rank(Apply(s, l)) <= Rank(s) + 8
  {
    match l
    case HandOff => HandOffRank(s);
    case OfCrew(cl) => CrewRank(s, cl);
    case PushCall(_) => PusherRank(s, l);
    case Add(_) => PusherRank(s, l);
    case Send(_) => PusherRank(s, l);
    case _ => DispatcherRank(s, l);
  }

  function Pushes(ls: seq<Label>): nat {
    if ls == [] then 0 else (if ls[0].PushCall? then 1 else 0) + Pushes(ls[1..])
  }

  lemma {:induction false} RunLength(s: State, ls: seq<Label>)
    requires Inv(s) && Valid(s, ls) && Clean(s, ls)
    ensures |ls| <= Rank(s) + 9 * Pushes(ls)
    decreases |ls|
  {
    if ls != [] {
      EveryStepLowersRank(s, ls[0]);
      StepKeeps(s, ls[0]);
      RunLength(Apply(s, ls[0]), ls[1..]);
    }
  }

  /** No run goes on for ever: its length is bounded by the number of Push calls and workers. */
  lemma EveryRunIsFinite(maxCapacity: nat, maxThread: nat, ls: seq<Label>)
    requires Valid(New(maxCapacity, maxThread), ls) && Clean(New(maxCapacity, maxThread), ls)
    ensures |ls| <= 9 * Pushes(ls) + 5 * maxThread + 8
  {
    InitInv(maxCapacity, maxThread);
    RunLength(New(maxCapacity, maxThread), ls);
    C.NewWeights(maxThread);
  }

  /** The steps the queue takes by itself, as opposed to calls of Push, Run and Terminate. */
  predicate Internal(l: Label) {
    match l
    case PushCall(_) => false
    case OfCrew(cl) => C.Internal(cl)
    case _ => true
  }

  /** Nothing under way: all accepted jobs are done, and after Terminate was called every
      goroutine has also ended. */
  ghost predicate Settled(s: State) {
    && s.checked == {} && s.sending == {} && s.jobs == [] && !s.d.Holding?
    && s.crew.runner.Launched? && s.crew.wg == 0
    && (if s.crew.term.NotCalled?
        then forall w :: 0 <= w < |s.crew.ws| ==> s.crew.ws[w].Selecting?
        else C.AllExited(s.crew) && s.d.Left?)
  }

  lemma OpenProgress(s: State) returns (l: Label)
    requires Inv(s) && Open(s) && 0 < |s.crew.ws| && !s.crew.runner.Idle? && !Settled(s)
    ensures Internal(l) && Enabled(s, l) && CleanStep(s, l)
    ensures 0 < s.crew.wg ==> !l.Add? && !l.WaitReturns?
  {
    if !s.crew.runner.Launched? || exists w: nat :: w < |s.crew.ws| && s.crew.ws[w].HasJob() {
      var cl := C.WorkingProgress(s.crew);
      return OfCrew(cl);
    }
    C.IdleTokens(s.crew);
    Sizes(s);
    if s.d.Holding? {
      l := if s.crew.hand.None? then Take else HandOff;
    } else if s.jobs != [] {
      l := Receive;
    } else if s.sending != {} {
      var j :| j in s.sending;
      l := Send(j);
    } else if s.checked != {} {
      var j :| j in s.checked;
      l := Add(j);
    } else {
      l := WaitReturns;
    }
  }

  /** No deadlock: while anything is under way, some goroutine can take a step. */
  lemma Progress(s: State) returns (l: Label)
    requires Inv(s) && 0 < |s.crew.ws| && !s.crew.runner.Idle? && !Settled(s)
    ensures Internal(l) && Enabled(s, l) && CleanStep(s, l)
  {
    if Open(s) {
      l := OpenProgress(s);
    } else if s.crew.term.Closing? {
      l := CloseJobs;
    } else if s.d.Receiving? {
      l := Leave;
    } else {
      var cl := C.ShutdownProgress(s.crew);
      l := OfCrew(cl);
    }
  }

  ghost predicate AllInternal(ls: seq<Label>) { forall l :: l in ls ==> Internal(l) }

  lemma InternalKeepsLaunch(s: State, l: Label)
    requires Enabled(s, l)
    ensures |Apply(s, l).crew.ws| == |s.crew.ws|
    ensures !s.crew.runner.Idle? ==> !Apply(s, l).crew.runner.Idle?
  {
    if l.OfCrew? { C.StepFrame(s.crew, l.l); }
  }

  /** From every reachable state after Run was called, the queue drains by its own steps, within
      Rank(s) of them; after Terminate was called it shuts down completely. */
  lemma {:induction false} Drain(s: State) returns (ls: seq<Label>)
    requires Inv(s) && 0 < |s.crew.ws| && !s.crew.runner.Idle?
    ensures Valid(s, ls) && Clean(s, ls) && AllInternal(ls) && |ls| <= Rank(s)
    ensures Settled(Final(s, ls))
    decreases Rank(s)
  {
    if Settled(s) { return []; }
    var l := Progress(s);
    EveryStepLowersRank(s, l);
    StepKeeps(s, l);
    InternalKeepsLaunch(s, l);
    var rest := Drain(Apply(s, l));
    ls := [l] + rest;
    assert ls[1..] == rest;
  }

  /** After a clean Wait: whatever happens next, no worker blocks on its last receive from the
      pool, and the goroutines can still all end. */
  lemma ShutdownCompletes(s: State, ls: seq<Label>) returns (ms: seq<Label>)
    requires Inv(s) && Enabled(s, WaitReturns) && s.checked == {} && 0 < |s.crew.ws|
    requires Valid(Apply(s, WaitReturns), ls)
    ensures
      var u := Final(Apply(s, WaitReturns), ls);
      && (forall w: nat :: w < |u.crew.ws| && u.crew.ws[w].Quitting? ==> u.crew.pool != [])
      && Valid(u, ms) && C.AllExited(Final(u, ms).crew) && Final(u, ms).d.Left?
  {
    var t := Apply(s, WaitReturns);
    WaitKeeps(s);
    ShutIsClean(t, ls);
    var u := Final(t, ls);
    WorkersFixed(t, ls);
    forall w: nat | w < |u.crew.ws| && u.crew.ws[w].Quitting? ensures u.crew.pool != [] {
      C.DrainNeverBlocks(u.crew, w);
    }
    ms := Drain(u);
    ShutIsClean(u, ms);
  }

  ghost predicate Quiescent(s: State) { forall l :: Internal(l) ==> !Enabled(s, l) }

  lemma NoWorkersUp(maxCapacity: nat) returns (ls: seq<Label>)
    ensures Valid(New(maxCapacity, 0), ls) && Clean(New(maxCapacity, 0), ls)
    ensures
      var s := Final(New(maxCapacity, 0), ls);
      s == New(maxCapacity, 0).(crew := C.New(0).(running := true, runner := C.Launched))
  {
    var q := New(maxCapacity, 0);
    ls := [];
    Snoc(q, ls, OfCrew(C.BeginRun)); ls := ls + [OfCrew(C.BeginRun)];
    Snoc(q, ls, OfCrew(C.LaunchDispatcher)); ls := ls + [OfCrew(C.LaunchDispatcher)];
  }

  /** The run that gets stuck when there are no workers. */
  lemma NoWorkersStuck(maxCapacity: nat) returns (ls: seq<Label>)
    ensures Valid(New(maxCapacity, 0), ls) && Clean(New(maxCapacity, 0), ls)
    ensures
      var s := Final(New(maxCapacity, 0), ls);
      s.crew.runner.Launched? && Quiescent(s) && s.crew.wg == 1
  {
    var q := New(maxCapacity, 0);
    ls := NoWorkersUp(maxCapacity);
    Snoc(q, ls, PushCall(0)); ls := ls + [PushCall(0)];
    Snoc(q, ls, Add(0)); ls := ls + [Add(0)];
    Snoc(q, ls, Send(0)); ls := ls + [Send(0)];
    if maxCapacity > 0 { Snoc(q, ls, Receive); ls := ls + [Receive]; }
    HoldingWithoutWorkers(Final(q, ls));
  }

  lemma HoldingWithoutWorkers(s: State)
    requires s.d.Holding? && s.crew.ws == [] && s.crew.pool == [] && s.checked == {} && s.sending == {}
    requires s.crew.runner.Launched? && s.crew.term.NotCalled? && s.crew.hand.None?
    ensures Quiescent(s)
  {
  }

  /** Drained means done, exactly when there is at least one worker: a queue that has started and
      can take no step by itself has a zero WaitGroup in every run iff maxThread >= 1. */
  lemma DrainsExactlyWithWorkers(maxCapacity: nat, maxThread: nat)
    ensures (forall ls ::
               Valid(New(maxCapacity, maxThread), ls) && Clean(New(maxCapacity, maxThread), ls) &&
               Final(New(maxCapacity, maxThread), ls).crew.runner.Launched? &&
               Quiescent(Final(New(maxCapacity, maxThread), ls)) ==>
               Final(New(maxCapacity, maxThread), ls).crew.wg == 0)
            <==> 1 <= maxThread
  {
    var q := New(maxCapacity, maxThread);
    if maxThread == 0 {
      var ls := NoWorkersStuck(maxCapacity);
    } else {
      forall ls | Valid(q, ls) && Clean(q, ls) && Final(q, ls).crew.runner.Launched? && Quiescent(Final(q, ls))
        ensures Final(q, ls).crew.wg == 0
      {
        InitInv(maxCapacity, maxThread);
        RunKeeps(q, ls);
        WorkersFixed(q, ls);
        if !Settled(Final(q, ls)) { var l := Progress(Final(q, ls)); }
      }
    }
  }

  lemma {:induction false} WorkersFixed(s: State, ls: seq<Label>)
    requires Valid(s, ls)
    ensures |Final(s, ls).crew.ws| == |s.crew.ws|
    decreases |ls|
  {
    if ls != [] {
      InternalKeepsLaunch(s, ls[0]);
      WorkersFixed(Apply(s, ls[0]), ls[1..]);
    }
  }

  // Main results: what a caller of Terminate can know.

  ghost predicate CanPanic(s: State) { exists ls :: Valid(s, ls) && Final(s, ls).crew.crashed }

  lemma {:induction false} Append(s: State, ls: seq<Label>, ms: seq<Label>)
    requires Valid(s, ls) && Valid(Final(s, ls), ms)
    ensures Valid(s, ls + ms) && Final(s, ls + ms) == Final(Final(s, ls), ms)
    decreases |ls|
  {
    if ls == [] {
      assert ls + ms == ms;
    } else {
      assert (ls + ms)[1..] == ls[1..] + ms;
      Append(Apply(s, ls[0]), ls[1..], ms);
    }
  }

  lemma PanicsLater(s: State, ls: seq<Label>)
    requires Valid(s, ls) && CanPanic(Final(s, ls))
    ensures CanPanic(s)
  {
    var ms :| Valid(Final(s, ls), ms) && Final(Final(s, ls), ms).crew.crashed;
    Append(s, ls, ms);
  }

  lemma WindowUntouched(s: State, l: Label)
    requires Enabled(s, l) && Internal(l) && !l.Add? && !l.WaitReturns? && s.crew.term.Waiting?
    ensures Apply(s, l).checked == s.checked && Apply(s, l).crew.term.Waiting?
    ensures |Apply(s, l).crew.ws| == |s.crew.ws|
  {
  }

  /** While Terminate waits, the accepted jobs can all finish without any Push call moving on to
      its wg.Add. */
  lemma {:induction false} ReachWait(s: State) returns (ls: seq<Label>)
    requires Inv(s) && s.crew.term.Waiting? && 0 < |s.crew.ws|
    ensures Valid(s, ls)
    ensures Inv(Final(s, ls)) && Enabled(Final(s, ls), WaitReturns) && Final(s, ls).checked == s.checked
    decreases Rank(s)
  {
    assert Open(s);
    Counted(s);
    if s.crew.wg == 0 { return []; }
    var l := OpenProgress(s);
    EveryStepLowersRank(s, l);
    StepKeeps(s, l);
    WindowUntouched(s, l);
    var rest := ReachWait(Apply(s, l));
    ls := [l] + rest;
    assert ls[1..] == rest;
  }

  /** Nothing can finish any more. */
  ghost predicate Stuck(s: State) { Inv(s) && Open(s) && s.crew.ws == [] && 0 < s.crew.wg }

  lemma StuckStep(s: State, l: Label)
    requires Stuck(s) && Enabled(s, l)
    ensures Stuck(Apply(s, l))
  {
    StepKeeps(s, l);
    WithoutWorkersStep(s, l);
  }

  lemma {:induction false} StuckForEver(s: State, ls: seq<Label>)
    requires Stuck(s) && Valid(s, ls)
    ensures !Final(s, ls).crew.crashed
    decreases |ls|
  {
    if ls != [] {
      StuckStep(s, ls[0]);
      StuckForEver(Apply(s, ls[0]), ls[1..]);
    }
  }

  /** Once Terminate was called no further Push call passes its running check. */
  lemma NoneStarts(s: State, l: Label)
    requires Enabled(s, l) && s.checked == {} && !s.crew.running && !s.crew.runner.Idle?
    ensures
      var t := Apply(s, l);
      t.checked == {} && !t.crew.running && !t.crew.runner.Idle?
  {
    if l.OfCrew? { C.StepFrame(s.crew, l.l); }
  }

  lemma {:induction false} NoWindowRun(s: State, ls: seq<Label>)
    requires Inv(s) && s.checked == {} && !s.crew.running && !s.crew.runner.Idle? && Valid(s, ls)
    ensures !Final(s, ls).crew.crashed
    decreases |ls|
  {
    if ls != [] {
      StepKeeps(s, ls[0]);
      NoneStarts(s, ls[0]);
      NoWindowRun(Apply(s, ls[0]), ls[1..]);
    }
  }

  /** Terminate was called and waits. */
  ghost predicate Called(s: State) {
    && Inv(s) && Open(s) && !s.crew.crashed && !s.crew.running && s.crew.term.Waiting?
    && !s.crew.runner.Idle? && 0 <= s.crew.wg
  }

  lemma CallTerminate(s: State)
    requires Inv(s) && Enabled(s, OfCrew(C.BeginTerminate))
    ensures
      var t := Apply(s, OfCrew(C.BeginTerminate));
      Called(t) && t.checked == s.checked && t.crew.ws == s.crew.ws && t.crew.wg == s.crew.wg
  {
    CrewStepKeeps(s, C.BeginTerminate);
    Counted(Apply(s, OfCrew(C.BeginTerminate)));
  }

  lemma Counted(s: State)
    requires Inv(s) && Open(s)
    ensures 0 <= s.crew.wg
  {
    Sizes(s);
    C.BoundedConcurrency(s.crew);
  }

  lemma ReturningPanics(s: State, ls: seq<Label>)
    requires Valid(s, ls) && Inv(Final(s, ls)) && Enabled(Final(s, ls), WaitReturns) && Final(s, ls).checked != {}
    ensures CanPanic(s)
  {
    ShutdownSafeExactly(Final(s, ls));
    Snoc(s, ls, WaitReturns);
    PanicsLater(s, ls + [WaitReturns]);
  }

  lemma CalledCanPanic(s: State)
    requires Called(s) && s.checked != {} && (0 < |s.crew.ws| || s.crew.wg == 0)
    ensures CanPanic(s)
  {
    var ls := [];
    if s.crew.wg != 0 { ls := ReachWait(s); } else { assert Final(s, ls) == s; }
    ReturningPanics(s, ls);
  }

  lemma CalledCannotPanic(s: State)
    requires Called(s) && (s.checked == {} || (s.crew.ws == [] && s.crew.wg != 0))
    ensures !CanPanic(s)
  {
    forall ls | Valid(s, ls) ensures !Final(s, ls).crew.crashed {
      if s.checked == {} { NoWindowRun(s, ls); } else { StuckForEver(s, ls); }
    }
  }

  /** When Terminate is called, some continuation panics exactly when a Push call stands between
      its running check and its wg.Add at that moment and the count can still come down to zero:
      there is a worker, or no accepted job is left. */
  lemma TerminatePanicsExactly(s: State)
    requires Inv(s) && Enabled(s, OfCrew(C.BeginTerminate))
    ensures CanPanic(Apply(s, OfCrew(C.BeginTerminate)))
            <==> s.checked != {} && (0 < |s.crew.ws| || s.crew.wg == 0)
  {
    CallTerminate(s);
    var t := Apply(s, OfCrew(C.BeginTerminate));
    if s.checked != {} && (0 < |s.crew.ws| || s.crew.wg == 0) { CalledCanPanic(t); } else { CalledCannotPanic(t); }
  }

  /** Terminate waits, and no continuation ever brings the WaitGroup back to zero. */
  ghost predicate Hangs(s: State) {
    && !s.crew.crashed && s.crew.term.Waiting?
    && forall ls :: Valid(s, ls) ==> Final(s, ls).crew.wg > 0
  }

  ghost predicate CanHang(s: State) { exists ls :: Valid(s, ls) && Hangs(Final(s, ls)) }

  /** With a worker, as long as Terminate waits the count can still come down to zero. */
  lemma WorkersFinish(s: State, ls: seq<Label>)
    requires Called(s) && 0 < |s.crew.ws| && Valid(s, ls)
    ensures !Hangs(Final(s, ls))
  {
    var t := Final(s, ls);
    if t.crew.term.Waiting? {
      CleanUntilWaitReturns(s, ls);
      RunKeeps(s, ls);
      WorkersFixed(s, ls);
      var ms := ReachWait(t);
      assert Final(t, ms).crew.wg == 0;
    }
  }

  lemma WithoutWorkersStep(s: State, l: Label)
    requires s.crew.ws == [] && Enabled(s, l)
    ensures Apply(s, l).crew.ws == [] && s.crew.wg <= Apply(s, l).crew.wg
    ensures !l.Add? ==> Apply(s, l).crew.wg == s.crew.wg
  {
    if l.OfCrew? { C.WithoutWorkersStep(s.crew, l.l); }
  }

  lemma {:induction false} WithoutWorkers(s: State, ls: seq<Label>)
    requires s.crew.ws == [] && Valid(s, ls)
    ensures s.crew.wg <= Final(s, ls).crew.wg
    ensures s.checked == {} && !s.crew.running && !s.crew.runner.Idle? ==> Final(s, ls).crew.wg == s.crew.wg
    decreases |ls|
  {
    if ls != [] {
      WithoutWorkersStep(s, ls[0]);
      if s.checked == {} && !s.crew.running && !s.crew.runner.Idle? { NoneStarts(s, ls[0]); }
      WithoutWorkers(Apply(s, ls[0]), ls[1..]);
    }
  }

  lemma WithoutWorkersHangs(s: State, ls: seq<Label>)
    requires Valid(s, ls)
    requires
      var t := Final(s, ls);
      t.crew.ws == [] && 0 < t.crew.wg && !t.crew.crashed && t.crew.term.Waiting?
    ensures CanHang(s)
  {
    var t := Final(s, ls);
    forall ms | Valid(t, ms) ensures Final(t, ms).crew.wg > 0 { WithoutWorkers(t, ms); }
    assert Hangs(t);
  }

  lemma HangsWithoutWorkers(s: State)
    requires Called(s) && s.crew.ws == []
    ensures CanHang(s) <==> s.checked != {} || 0 < s.crew.wg
  {
    if 0 < s.crew.wg {
      assert Final(s, []) == s;
      WithoutWorkersHangs(s, []);
    } else if s.checked != {} {
      var j :| j in s.checked;
      assert Final(s, []) == s;
      Snoc(s, [], Add(j));
      WithoutWorkersHangs(s, [] + [Add(j)]);
    } else {
      forall ls | Valid(s, ls) ensures !Hangs(Final(s, ls)) {
        WithoutWorkers(s, ls);
        assert Valid(Final(s, ls), []);
      }
    }
  }

  /** When Terminate is called, it may wait for ever exactly when there is no worker and a job to
      wait for, or a Push call that may still bring one. */
  lemma TerminateHangsExactly(s: State)
    requires Inv(s) && Enabled(s, OfCrew(C.BeginTerminate))
    ensures CanHang(Apply(s, OfCrew(C.BeginTerminate)))
            <==> s.crew.ws == [] && (s.checked != {} || 0 < s.crew.wg)
  {
    CallTerminate(s);
    var t := Apply(s, OfCrew(C.BeginTerminate));
    if s.crew.ws == [] {
      HangsWithoutWorkers(t);
    } else {
      forall ls | Valid(t, ls) ensures !Hangs(Final(t, ls)) { WorkersFinish(t, ls); }
    }
  }

  // Main results: refinement.

  ghost function Abs(s: State): Spec.State { V.Abs(s.crew, s.entered) }

  ghost function ActionOf(s: State, l: Label): seq<Spec.Action>
    requires Enabled(s, l)
  {
    match l
    case Add(j) => [Spec.Accept(j)]
    case Send(j) => [Spec.Enter(j)]
    case HandOff => [Spec.Start]
    case WaitReturns => [Spec.Terminate]
    case OfCrew(cl) => if cl.Done? then [Spec.Finish(s.crew.ws[cl.w].job)] else []
    case _ => []
  }

  ghost predicate Matches(s: State, l: Label, a: Spec.Action)
    requires Enabled(s, l)
  {
    V.Matches(s.crew, s.entered, Apply(s, l).crew, Apply(s, l).entered, a)
  }

  lemma AddMatches(s: State, j: JobId)
    requires Inv(s) && Enabled(s, Add(j))
    ensures Matches(s, Add(j), Spec.Accept(j))
  {
    assert Open(s);
    V.AcceptMatches(s.crew, s.entered, j);
  }

  lemma SendMatches(s: State, j: JobId)
    requires Inv(s) && Enabled(s, Send(j))
    ensures Matches(s, Send(j), Spec.Enter(j))
  {
    assert j in s.sending && Open(s);
    SendFrame(s, j);
    V.EnterArrives(s.crew, s.sending, s.entered, j);
    V.EnterMatches(s.crew, s.entered, j);
  }

  lemma StartMatches(s: State)
    requires Inv(s) && Enabled(s, HandOff)
    ensures Matches(s, HandOff, Spec.Start)
  {
    assert Open(s);
    V.StartMatches(s.crew, s.entered, s.d.job);
  }

  lemma StartsAreEntered(s: State)
    requires Arrivals(s) && Fifo(s)
    ensures s.crew.starts <= s.entered && |s.crew.starts| <= |s.crew.accepted|
  {
    Sizes(s);
  }

  lemma FinishMatches(s: State, w: nat)
    requires C.Working(s.crew) && s.crew.starts <= s.entered && |s.crew.starts| <= |s.crew.accepted|
    requires C.Enabled(s.crew, C.Done(w))
    ensures Matches(s, OfCrew(C.Done(w)), Spec.Finish(s.crew.ws[w].job))
  {
    V.FinishMatchesWorking(s.crew, s.entered, w);
  }

  lemma BusyMeansOpen(s: State, w: nat)
    requires Open(s) || Shut(s)
    requires w < |s.crew.ws| && s.crew.ws[w].HasJob()
    ensures Open(s)
  {
  }

  lemma TerminateMatches(s: State)
    requires Inv(s) && Enabled(s, WaitReturns) && CleanStep(s, WaitReturns)
    ensures Matches(s, WaitReturns, Spec.Terminate)
  {
    WaitKeeps(s);
    assert Shut(Apply(s, WaitReturns)) && s.sending == {} && s.entered == s.crew.starts;
    V.TerminateMatches(s.crew, s.entered, C.Closing);
  }

  lemma Invisible(s: State, l: Label)
    requires Enabled(s, l) && ActionOf(s, l) == []
    ensures Abs(Apply(s, l)) == Abs(s)
  {
    if l.OfCrew? { V.CrewInvisible(s.crew, s.entered, l.l); }
  }

  lemma VisibleMatches(s: State, l: Label)
    requires Inv(s) && Enabled(s, l) && CleanStep(s, l) && ActionOf(s, l) != []
    ensures |ActionOf(s, l)| == 1 && Matches(s, l, ActionOf(s, l)[0])
  {
    match l
    case Add(j) => AddMatches(s, j);
    case Send(j) => SendMatches(s, j);
    case HandOff => StartMatches(s);
    case WaitReturns => TerminateMatches(s);
    case OfCrew(cl) =>
      BusyMeansOpen(s, cl.w);
      StartsAreEntered(s);
      FinishMatches(s, cl.w);
  }

  /** Each step is a step of the abstract queuer, or invisible there. */
  lemma StepSimulates(s: State, l: Label)
    requires Inv(s) && Enabled(s, l) && CleanStep(s, l)
    ensures Spec.Valid(Abs(s), ActionOf(s, l))
    ensures Spec.Final(Abs(s), ActionOf(s, l)) == Abs(Apply(s, l))
  {
    if ActionOf(s, l) == [] { Invisible(s, l); } else { VisibleMatches(s, l); }
    V.OneAction(s.crew, s.entered, Apply(s, l).crew, Apply(s, l).entered, ActionOf(s, l));
  }

  ghost function ActionsOf(s: State, ls: seq<Label>): seq<Spec.Action>
    requires Valid(s, ls)
    decreases |ls|
  {
    if ls == [] then [] else ActionOf(s, ls[0]) + ActionsOf(Apply(s, ls[0]), ls[1..])
  }

  lemma {:induction false} RunRefines(s: State, ls: seq<Label>)
    requires Inv(s) && Valid(s, ls) && Clean(s, ls)
    ensures Spec.Valid(Abs(s), ActionsOf(s, ls))
    ensures Spec.Final(Abs(s), ActionsOf(s, ls)) == Abs(Final(s, ls))
    decreases |ls|
  {
    if ls != [] {
      StepSimulates(s, ls[0]);
      StepKeeps(s, ls[0]);
      RunRefines(Apply(s, ls[0]), ls[1..]);
      Spec.Concat(Abs(s), ActionOf(s, ls[0]), ActionsOf(Apply(s, ls[0]), ls[1..]));
    }
  }

  /** Every run of the channel queue is a run of the abstract queuer; so once Wait has returned,
      every accepted job has run exactly once and was started in the order it entered. */
  lemma RefinesQueuer(maxCapacity: nat, maxThread: nat, ls: seq<Label>)
    requires Valid(New(maxCapacity, maxThread), ls) && Clean(New(maxCapacity, maxThread), ls)
    ensures
      var q := New(maxCapacity, maxThread);
      && Spec.Valid(Spec.Init(maxThread), ActionsOf(q, ls))
      && Spec.Final(Spec.Init(maxThread), ActionsOf(q, ls)) == Abs(Final(q, ls))
    ensures
      var s := Final(New(maxCapacity, maxThread), ls);
      V.PastWait(s.crew) ==>
        && multiset(s.crew.finished) == multiset(s.crew.starts) == multiset(s.crew.accepted)
        && Spec.Once(multiset(s.crew.starts)) && s.crew.starts == s.entered
  {
    var q := New(maxCapacity, maxThread);
    InitInv(maxCapacity, maxThread);
    RunKeeps(q, ls);
    RunRefines(q, ls);
    WorkersFixed(q, ls);
    assert Abs(q) == Spec.Init(maxThread);
    var s := Final(q, ls);
    if V.PastWait(s.crew) { V.TerminatedMeans(s.crew, s.entered, ActionsOf(q, ls)); }
  }

  // Main results: what becomes of a Push call.

  const RUN := OfCrew(C.BeginRun)
  const TERMINATE := OfCrew(C.BeginTerminate)

  /** The calls so far include one of Run and none of Terminate. */
  predicate Started(ls: seq<Label>) { RUN in ls && TERMINATE !in ls }

  lemma {:induction false} CutRun(s: State, ls: seq<Label>, i: nat)
    requires Valid(s, ls) && i <= |ls|
    ensures Valid(s, ls[..i]) && Valid(Final(s, ls[..i]), ls[i..])
    ensures Final(s, ls) == Final(Final(s, ls[..i]), ls[i..])
    decreases |ls|
  {
    if i == 0 {
      assert ls[i..] == ls && ls[..i] == [];
    } else {
      CutRun(Apply(s, ls[0]), ls[1..], i - 1);
      assert ls[..i][0] == ls[0] && ls[..i][1..] == ls[1..][..i - 1];
      assert ls[i..] == ls[1..][i - 1..];
    }
  }

  /** Run is called once. */
  lemma {:induction false} RunsOnce(s: State, ls: seq<Label>)
    requires Valid(s, ls) && !s.crew.runner.Idle?
    ensures RUN !in ls
    decreases |ls|
  {
    if ls != [] {
      if ls[0].OfCrew? { C.StepFrame(s.crew, ls[0].l); }
      RunsOnce(Apply(s, ls[0]), ls[1..]);
    }
  }

  lemma RunningStep(s: State, l: Label)
    requires Enabled(s, l)
    ensures l == RUN ==> Apply(s, l).crew.running && !Apply(s, l).crew.runner.Idle?
    ensures l == TERMINATE ==> !Apply(s, l).crew.running && !Apply(s, l).crew.runner.Idle?
    ensures l != RUN && l != TERMINATE ==> Apply(s, l).crew.running == s.crew.running
  {
  }

  /** The running flag is what the calls of Run and Terminate say. */
  lemma {:induction false} RunningMeans(s: State, ls: seq<Label>)
    requires Valid(s, ls)
    ensures Final(s, ls).crew.running <==> (s.crew.running || RUN in ls) && TERMINATE !in ls
    decreases |ls|
  {
    if ls != [] {
      var t := Apply(s, ls[0]);
      RunningStep(s, ls[0]);
      RunningMeans(t, ls[1..]);
      if ls[0] == TERMINATE { RunsOnce(t, ls[1..]); }
    }
  }

  /** The Push call of j is past its running check, or its job is accepted. */
  predicate Taken(s: State, j: JobId) { j in s.checked || j in s.crew.accepted }

  lemma TakenStep(s: State, l: Label, j: JobId)
    requires Enabled(s, l) && l != PushCall(j)
    ensures Taken(Apply(s, l), j) == Taken(s, j)
  {
    if l.OfCrew? { C.StepFrame(s.crew, l.l); }
  }

  lemma CallsGrow(s: State, l: Label, j: JobId)
    requires Enabled(s, l)
    ensures j in s.calls ==> j in Apply(s, l).calls
    ensures (Taken(s, j) ==> j in s.calls) ==> (Taken(Apply(s, l), j) ==> j in Apply(s, l).calls)
  {
    if l.OfCrew? { C.StepFrame(s.crew, l.l); }
  }

  lemma {:induction false} TakenStays(s: State, ls: seq<Label>, j: JobId)
    requires Valid(s, ls) && j in s.calls
    ensures Taken(Final(s, ls), j) == Taken(s, j)
    decreases |ls|
  {
    if ls != [] {
      TakenStep(s, ls[0], j);
      CallsGrow(s, ls[0], j);
      TakenStays(Apply(s, ls[0]), ls[1..], j);
    }
  }

  lemma {:induction false} TakenIsCalled(s: State, ls: seq<Label>, j: JobId)
    requires Valid(s, ls) && (Taken(s, j) ==> j in s.calls)
    ensures Taken(Final(s, ls), j) ==> j in Final(s, ls).calls
    decreases |ls|
  {
    if ls != [] {
      CallsGrow(s, ls[0], j);
      TakenIsCalled(Apply(s, ls[0]), ls[1..], j);
    }
  }

  /** Over every run: a Push call is taken, and from then on its job is at its wg.Add or accepted, if
      and only if the call comes after Run and before Terminate; the length of the channel does
      not matter. */
  lemma PushTakenExactly(maxCapacity: nat, maxThread: nat, ls: seq<Label>, i: nat, j: JobId)
    requires Valid(New(maxCapacity, maxThread), ls) && i < |ls| && ls[i] == PushCall(j)
    ensures Taken(Final(New(maxCapacity, maxThread), ls), j) <==> Started(ls[..i])
  {
    var q := New(maxCapacity, maxThread);
    CutRun(q, ls, i);
    var s := Final(q, ls[..i]);
    var t := Apply(s, PushCall(j));
    assert ls[i..][0] == PushCall(j) && ls[i..][1..] == ls[i + 1..];
    RunningMeans(q, ls[..i]);
    TakenIsCalled(q, ls[..i], j);
    TakenStays(t, ls[i + 1..], j);
  }

  lemma ShutMeansNoneChecked(s: State)
    requires Inv(s) && V.PastWait(s.crew)
    ensures s.checked == {}
  {
  }

  /** In a clean run, once Wait has returned: the job of a Push call has finished, once, if and only
      if the call came after Run and before Terminate. */
  lemma PushedRunsOnceExactly(maxCapacity: nat, maxThread: nat, ls: seq<Label>, i: nat, j: JobId)
    requires Valid(New(maxCapacity, maxThread), ls) && Clean(New(maxCapacity, maxThread), ls)
    requires V.PastWait(Final(New(maxCapacity, maxThread), ls).crew) && i < |ls| && ls[i] == PushCall(j)
    ensures multiset(Final(New(maxCapacity, maxThread), ls).crew.finished)[j] == if Started(ls[..i]) then 1 else 0
  {
    var q := New(maxCapacity, maxThread);
    var s := Final(q, ls);
    PushTakenExactly(maxCapacity, maxThread, ls, i, j);
    InitInv(maxCapacity, maxThread);
    RunKeeps(q, ls);
    ShutMeansNoneChecked(s);
    RefinesQueuer(maxCapacity, maxThread, ls);
    V.FinishedOnce(s.crew, j);
  }

  /** The history of calls is what the labels say. */
  lemma {:induction false} CallsMeans(s: State, ls: seq<Label>, j: JobId)
    requires Valid(s, ls)
    ensures j in Final(s, ls).calls <==> j in s.calls || PushCall(j) in ls
    decreases |ls|
  {
    if ls != [] { CallsMeans(Apply(s, ls[0]), ls[1..], j); }
  }

  lemma LaunchStep(s: State, l: Label)
    requires Enabled(s, l)
    ensures l == OfCrew(C.LaunchDispatcher) ==> Apply(s, l).crew.runner.Launched?
    ensures l != OfCrew(C.LaunchDispatcher) ==> (Apply(s, l).crew.runner.Launched? <==> s.crew.runner.Launched?)
    ensures l == RUN ==> !Apply(s, l).crew.runner.Idle?
    ensures l != RUN ==> (Apply(s, l).crew.runner.Idle? <==> s.crew.runner.Idle?)
    ensures l == TERMINATE ==> !Apply(s, l).crew.term.NotCalled?
    ensures l != TERMINATE && !s.crew.term.Waiting? ==> (Apply(s, l).crew.term.NotCalled? <==> s.crew.term.NotCalled?)
    ensures s.crew.term.Waiting? ==> !Apply(s, l).crew.term.NotCalled?
  {
  }

  /** How far Run and Terminate are is what the labels say. */
  lemma {:induction false} PhasesMean(s: State, ls: seq<Label>)
    requires Valid(s, ls)
    ensures Final(s, ls).crew.runner.Launched? <==> s.crew.runner.Launched? || OfCrew(C.LaunchDispatcher) in ls
    ensures Final(s, ls).crew.runner.Idle? <==> s.crew.runner.Idle? && RUN !in ls
    ensures Final(s, ls).crew.term.NotCalled? <==> s.crew.term.NotCalled? && TERMINATE !in ls
    decreases |ls|
  {
    if ls != [] {
      LaunchStep(s, ls[0]);
      PhasesMean(Apply(s, ls[0]), ls[1..]);
    }
  }

  /** No call is ever refused: after every run that has not panicked Push can be called, Run if it was
      not, and Terminate once Run has returned, if it was not. */
  lemma CallsNeverRefused(maxCapacity: nat, maxThread: nat, ls: seq<Label>, j: JobId)
    requires Valid(New(maxCapacity, maxThread), ls) && !Final(New(maxCapacity, maxThread), ls).crew.crashed
    ensures PushCall(j) !in ls ==> Valid(New(maxCapacity, maxThread), ls + [PushCall(j)])
    ensures RUN !in ls ==> Valid(New(maxCapacity, maxThread), ls + [RUN])
    ensures RUN in ls && OfCrew(C.LaunchDispatcher) in ls && TERMINATE !in ls ==>
      Valid(New(maxCapacity, maxThread), ls + [TERMINATE])
  {
    var q := New(maxCapacity, maxThread);
    CallsMeans(q, ls, j);
    PhasesMean(q, ls);
    RunningMeans(q, ls);
    if PushCall(j) !in ls { Snoc(q, ls, PushCall(j)); }
    if RUN !in ls { Snoc(q, ls, RUN); }
    if RUN in ls && OfCrew(C.LaunchDispatcher) in ls && TERMINATE !in ls { Snoc(q, ls, TERMINATE); }
  }

  lemma CapacityStep(s: State, l: Label)
    requires Enabled(s, l) && |s.jobs| <= s.cap
    ensures |Apply(s, l).jobs| <= Apply(s, l).cap == s.cap
  {
  }

  lemma {:induction false} CapacityKept(s: State, ls: seq<Label>)
    requires Valid(s, ls) && |s.jobs| <= s.cap
    ensures |Final(s, ls).jobs| <= s.cap
    decreases |ls|
  {
    if ls != [] {
      CapacityStep(s, ls[0]);
      CapacityKept(Apply(s, ls[0]), ls[1..]);
    }
  }

  lemma {:induction false} Fill(maxCapacity: nat, maxThread: nat, k: nat) returns (ls: seq<Label>)
    requires k <= maxCapacity
    ensures Valid(New(maxCapacity, maxThread), ls)
    ensures
      var s := Final(New(maxCapacity, maxThread), ls);
      && !s.crew.crashed && s.crew.running && |s.jobs| == k && s.cap == maxCapacity && !s.jobsClosed
      && forall j :: j in s.calls ==> j < k
    decreases k
  {
    var q := New(maxCapacity, maxThread);
    if k == 0 {
      ls := [];
      Snoc(q, ls, RUN); ls := ls + [RUN];
    } else {
      ls := Fill(maxCapacity, maxThread, k - 1);
      Snoc(q, ls, PushCall(k - 1)); ls := ls + [PushCall(k - 1)];
      Snoc(q, ls, Add(k - 1)); ls := ls + [Add(k - 1)];
      Snoc(q, ls, Send(k - 1)); ls := ls + [Send(k - 1)];
    }
  }

  /** The channel can be filled to its capacity, and never holds more. */
  lemma ChannelFills(maxCapacity: nat, maxThread: nat) returns (ls: seq<Label>)
    ensures Valid(New(maxCapacity, maxThread), ls) && |Final(New(maxCapacity, maxThread), ls).jobs| == maxCapacity
    ensures forall ms :: Valid(New(maxCapacity, maxThread), ms) ==>
      |Final(New(maxCapacity, maxThread), ms).jobs| <= maxCapacity
  {
    ls := Fill(maxCapacity, maxThread, maxCapacity);
    forall ms | Valid(New(maxCapacity, maxThread), ms)
      ensures |Final(New(maxCapacity, maxThread), ms).jobs| <= maxCapacity
    {
      CapacityKept(New(maxCapacity, maxThread), ms);
    }
  }

  // Main results: the workers act on their own.

  /** The steps of a worker that has been told to quit. */
  predicate Leaves(l: Label, w: nat) {
    l == OfCrew(C.Quit(w)) || l == OfCrew(C.Drain(w)) || l == OfCrew(C.CloseJobChan(w))
  }

  /** After a clean Wait a worker that has been told to quit leaves by its own steps, even while
      Terminate is still telling the others. */
  lemma {:induction false} StoppedWorkerLeaves(s: State, w: nat) returns (ls: seq<Label>)
    requires C.ShuttingDown(s.crew) && w < |s.crew.ws| && w < C.Stopped(s.crew)
    ensures Valid(s, ls) && (forall l :: l in ls ==> Leaves(l, w))
    ensures |Final(s, ls).crew.ws| == |s.crew.ws| && Final(s, ls).crew.ws[w].Exited?
    decreases s.crew.ws[w].Weight()
  {
    if s.crew.ws[w].Exited? { return []; }
    var cl := C.LeavingStep(s.crew, w);
    var l := OfCrew(cl);
    var rest := StoppedWorkerLeaves(Apply(s, l), w);
    ls := [l] + rest;
    assert ls[1..] == rest;
  }

  /** Run has started k workers; nothing else has happened. */
  predicate Begun(s: State, k: nat) {
    && !s.crew.crashed && s.crew.running && s.crew.runner == C.Starting(k) && s.crew.term.NotCalled?
    && |s.crew.pool| == k <= |s.crew.ws| && (forall w :: 0 <= w < k ==> s.crew.ws[w].Selecting?)
    && s.calls == {} && s.checked == {} && s.sending == {} && s.jobs == [] && s.d.Receiving? && !s.jobsClosed
    && s.crew.hand.None?
  }

  lemma {:induction false} StartSome(q: State, ls: seq<Label>, k: nat) returns (ms: seq<Label>)
    requires Valid(q, ls) && Clean(q, ls) && Begun(Final(q, ls), 0) && k <= |Final(q, ls).crew.ws|
    ensures Valid(q, ms) && Clean(q, ms) && Begun(Final(q, ms), k)
    ensures |Final(q, ms).crew.ws| == |Final(q, ls).crew.ws|
    decreases k
  {
    ms := ls;
    if k > 0 {
      ms := StartSome(q, ls, k - 1);
      Snoc(q, ms, OfCrew(C.StartWorker)); ms := ms + [OfCrew(C.StartWorker)];
    }
  }

  /** k jobs run, and nothing else is under way. */
  ghost predicate Busy(s: State, k: nat) {
    && Inv(s) && Open(s) && !s.crew.crashed && s.crew.running && s.crew.runner.Launched? && s.crew.term.NotCalled?
    && C.OnlyRunning(s.crew) && |C.Held(s.crew.ws)| == k
    && s.checked == {} && s.sending == {} && s.jobs == [] && s.d.Receiving? && s.crew.hand.None?
    && (forall j :: j in s.calls ==> j < k)
  }

  lemma NobodyBusy(maxCapacity: nat, maxThread: nat) returns (ls: seq<Label>)
    ensures Valid(New(maxCapacity, maxThread), ls) && Clean(New(maxCapacity, maxThread), ls)
    ensures Busy(Final(New(maxCapacity, maxThread), ls), 0)
    ensures |Final(New(maxCapacity, maxThread), ls).crew.ws| == maxThread
  {
    ls := AllStarted(maxCapacity, maxThread);
    InitInv(maxCapacity, maxThread);
    RunKeeps(New(maxCapacity, maxThread), ls);
    Launches(New(maxCapacity, maxThread), ls);
    ls := ls + [OfCrew(C.LaunchDispatcher)];
  }

  lemma AllStarted(maxCapacity: nat, maxThread: nat) returns (ls: seq<Label>)
    ensures Valid(New(maxCapacity, maxThread), ls) && Clean(New(maxCapacity, maxThread), ls)
    ensures Begun(Final(New(maxCapacity, maxThread), ls), maxThread)
    ensures |Final(New(maxCapacity, maxThread), ls).crew.ws| == maxThread
  {
    var q := New(maxCapacity, maxThread);
    ls := [];
    Snoc(q, ls, RUN); ls := ls + [RUN];
    ls := StartSome(q, ls, maxThread);
  }

  lemma Launches(q: State, ls: seq<Label>)
    requires Valid(q, ls) && Clean(q, ls) && Inv(Final(q, ls)) && Begun(Final(q, ls), |Final(q, ls).crew.ws|)
    ensures
      var ms := ls + [OfCrew(C.LaunchDispatcher)];
      && Valid(q, ms) && Clean(q, ms) && Busy(Final(q, ms), 0)
      && |Final(q, ms).crew.ws| == |Final(q, ls).crew.ws|
  {
    var s := Final(q, ls);
    Snoc(q, ls, OfCrew(C.LaunchDispatcher));
    CrewStepKeeps(s, C.LaunchDispatcher);
    IdleIsBusy(s);
  }

  lemma IdleIsBusy(s: State)
    requires Begun(s, |s.crew.ws|) && Inv(Apply(s, OfCrew(C.LaunchDispatcher)))
    ensures Busy(Apply(s, OfCrew(C.LaunchDispatcher)), 0)
  {
    C.HeldNone(s.crew.ws);
    OpenWhenNotCalled(Apply(s, OfCrew(C.LaunchDispatcher)));
  }

  lemma OpenWhenNotCalled(s: State)
    requires Inv(s) && s.crew.term.NotCalled?
    ensures Open(s)
  {
  }

  /** One more job comes into the dispatcher's hand. */
  lemma OneHeld(q: State, ls: seq<Label>, j: JobId) returns (ms: seq<Label>)
    requires Valid(q, ls) && Clean(q, ls)
    requires
      var s := Final(q, ls);
      && !s.crew.crashed && s.crew.running && s.crew.runner.Launched? && j !in s.calls && !s.jobsClosed
      && s.checked == {} && s.sending == {} && s.jobs == [] && s.d.Receiving?
    ensures Valid(q, ms) && Clean(q, ms)
    ensures
      var s, t := Final(q, ls), Final(q, ms);
      && t.crew == C.Accept(s.crew, j) && t.calls == s.calls + {j} && t.d == Holding(j)
      && t.checked == {} && t.sending == {} && t.jobs == []
  {
    ms := ls;
    Snoc(q, ms, PushCall(j)); ms := ms + [PushCall(j)];
    Snoc(q, ms, Add(j)); ms := ms + [Add(j)];
    Snoc(q, ms, Send(j)); ms := ms + [Send(j)];
    if Final(q, ms).d.Receiving? { Snoc(q, ms, Receive); ms := ms + [Receive]; }
  }

  lemma AcceptRunning(c: C.Crew, j: JobId)
    ensures C.Accept(c, j).ws == c.ws && C.Accept(c, j).pool == c.pool && C.Accept(c, j).hand == c.hand
  {
  }

  /** The job in hand is given to a waiting worker, and runs. */
  lemma OneStarts(q: State, ls: seq<Label>) returns (ms: seq<Label>)
    requires Valid(q, ls) && Clean(q, ls)
    requires
      var s := Final(q, ls);
      && !s.crew.crashed && s.d.Holding? && s.crew.hand.None?
      && s.crew.pool != [] && s.crew.pool[0] < |s.crew.ws| && s.crew.ws[s.crew.pool[0]].Selecting?
    ensures Valid(q, ms) && Clean(q, ms)
    ensures
      var s, t := Final(q, ls), Final(q, ms);
      t == s.(crew := C.HandOff(C.TakeToken(s.crew), s.d.job), d := Receiving)
  {
    ms := ls;
    Snoc(q, ms, Take); ms := ms + [Take];
    Snoc(q, ms, HandOff); ms := ms + [HandOff];
  }

  lemma OneMoreBusy(maxCapacity: nat, maxThread: nat, ls: seq<Label>, k: nat) returns (ms: seq<Label>)
    requires Valid(New(maxCapacity, maxThread), ls) && Clean(New(maxCapacity, maxThread), ls)
    requires Busy(Final(New(maxCapacity, maxThread), ls), k) && k < |Final(New(maxCapacity, maxThread), ls).crew.ws|
    ensures Valid(New(maxCapacity, maxThread), ms) && Clean(New(maxCapacity, maxThread), ms)
    ensures Busy(Final(New(maxCapacity, maxThread), ms), k + 1)
    ensures |Final(New(maxCapacity, maxThread), ms).crew.ws| == |Final(New(maxCapacity, maxThread), ls).crew.ws|
  {
    var q := New(maxCapacity, maxThread);
    var s := Final(q, ls);
    C.TokenLeft(s.crew);
    ms := OneHeld(q, ls, k);
    AcceptRunning(s.crew, k);
    ms := OneStarts(q, ms);
    InitInv(maxCapacity, maxThread);
    RunKeeps(q, ms);
    BusyMore(s, Final(q, ms), k);
  }

  lemma BusyMore(s: State, t: State, k: nat)
    requires Busy(s, k) && s.crew.pool != [] && s.crew.pool[0] < |s.crew.ws| && s.crew.ws[s.crew.pool[0]].Selecting?
    requires Inv(t) && t.crew == C.HandOff(C.TakeToken(C.Accept(s.crew, k)), k) && t.calls == s.calls + {k}
    requires t.checked == {} && t.sending == {} && t.jobs == [] && t.d.Receiving?
    ensures Busy(t, k + 1)
  {
    C.RunsOneMore(s.crew, s.crew.pool[0], k);
  }

  /** All workers can be busy at once. */
  lemma AllWorkersBusy(maxCapacity: nat, maxThread: nat) returns (ls: seq<Label>)
    ensures Valid(New(maxCapacity, maxThread), ls)
    ensures |C.Held(Final(New(maxCapacity, maxThread), ls).crew.ws)| == maxThread
  {
    ls := NobodyBusy(maxCapacity, maxThread);
    for k := 0 to maxThread
      invariant Valid(New(maxCapacity, maxThread), ls) && Clean(New(maxCapacity, maxThread), ls)
      invariant Busy(Final(New(maxCapacity, maxThread), ls), k)
      invariant |Final(New(maxCapacity, maxThread), ls).crew.ws| == maxThread
    {
      ls := OneMoreBusy(maxCapacity, maxThread, ls, k);
    }
  }
}
