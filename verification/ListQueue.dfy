/** The list queue of internal/queue/list_queue.go: pushers, the locked list and its polling
    dispatcher, in front of the shared crew of workers. A section under the lock is one step. */
module ListQueue {
  import opened Jobs
  import C = Crew
  import Spec = QueuerSpec
  import V = QueueView

  /** Where `ListQueue.dispatcher` is: at the top of its loop, with a front element it has read
      (first waiting for a token, then sending to the worker), after the hand-off but before the
      removal, or past the end of its loop. */
  datatype DispatcherPc = Polling | Got(job: JobId) | Handed(job: JobId) | Left

  /** A Push call is in `checked` after its running check, in `passed` after its length check, and
      in `sending` after its wg.Add. `calls`, `entered` and `peak` are histories: every Push call
      made, the jobs in the order they entered the list, and the largest number of Push calls
      that were under way at one time. */
  datatype State = State(
    maxLen: int,
    crew: C.Crew,
    calls: set<JobId>,
    checked: set<JobId>,
    passed: set<JobId>,
    sending: set<JobId>,
    list: seq<JobId>,
    d: DispatcherPc,
    entered: seq<JobId>,
    peak: nat)

  function New(maxThread: nat, maxLen: int): State {
    State(maxLen, C.New(maxThread), {}, {}, {}, {}, [], Polling, [], 0)
  }

  datatype Label =
    | PushCall(j: JobId) | LenCheck(j: JobId) | Add(j: JobId) | PushBack(j: JobId)
    | Peek | Poll | Take | HandOff | Remove | Leave
    | WaitReturns
    | OfCrew(l: C.Label)

  predicate AtTop(s: State) { s.crew.runner.Launched? && s.d.Polling? }

  predicate Enabled(s: State, l: Label) {
    !s.crew.crashed &&
    match l
    case PushCall(j) => j !in s.calls
    case LenCheck(j) => j in s.checked
    case Add(j) => j in s.passed
    case PushBack(j) => j in s.sending
    case Peek => AtTop(s) && s.list != []
    case Poll => AtTop(s) && s.list == [] && s.crew.running
    case Leave => AtTop(s) && s.list == [] && !s.crew.running
    case Take => s.d.Got? && C.CanTake(s.crew)
    case HandOff => s.d.Got? && C.CanHandOff(s.crew)
    case Remove => s.d.Handed?
    case WaitReturns => C.CanReturnFromWait(s.crew)
    case OfCrew(cl) => C.Enabled(s.crew, cl)
  }

  function UnderWay(s: State): nat { |s.checked| + |s.passed| + |s.sending| }

  function Max(a: nat, b: nat): nat { if a < b then b else a }

  /** `list.Remove` of the element of one job. */
  function Without(q: seq<JobId>, j: JobId): (r: seq<JobId>)
    ensures |r| <= |q|
  {
    if q == [] then [] else if q[0] == j then q[1..] else [q[0]] + Without(q[1..], j)
  }

  predicate TooLong(s: State) { 0 < s.maxLen && s.maxLen < |s.list| }

  function Apply(s: State, l: Label): State
    requires Enabled(s, l)
  {
    match l
    case PushCall(j) =>
      var t := s.(calls := s.calls + {j});
      if !s.crew.running then t
      else t.(checked := s.checked + {j},
              peak := Max(s.peak, |s.checked + {j}| + |s.passed| + |s.sending|))
    case LenCheck(j) =>
      s.(checked := s.checked - {j}, passed := if TooLong(s) then s.passed else s.passed + {j})
    case Add(j) =>
      s.(passed := s.passed - {j}, sending := s.sending + {j}, crew := C.Accept(s.crew, j))
    case PushBack(j) =>
      s.(sending := s.sending - {j}, list := s.list + [j], entered := s.entered + [j])
    case Peek => s.(d := Got(s.list[0]))
    case Poll => s
    case Leave => s.(d := Left)
    case Take => s.(crew := C.TakeToken(s.crew))
    case HandOff =>
      var c := C.HandOff(s.crew, s.d.job);
      if c.crashed then s.(crew := c) else s.(crew := c, d := Handed(s.d.job))
    case Remove => s.(list := Without(s.list, s.d.job), d := Polling)
    case WaitReturns => s.(crew := C.ReturnFromWait(s.crew, C.Stopping(0)))
    case OfCrew(cl) => s.(crew := C.Apply(s.crew, cl))
  }

  // Runs.

  predicate Valid(s: State, ls: seq<Label>)
    decreases |ls|
  {
    ls == [] || (Enabled(s, ls[0]) && Valid(Apply(s, ls[0]), ls[1..]))
  }

  function Final(s: State, ls: seq<Label>): State
    requires Valid(s, ls)
    decreases |ls|
  {
    if ls == [] then s else Final(Apply(s, ls[0]), ls[1..])
  }

  /** Wait returns only when no Push call stands between its running check and its wg.Add. */
  predicate CleanStep(s: State, l: Label) {
    l.WaitReturns? ==> s.checked == {} && s.passed == {}
  }

  predicate Clean(s: State, ls: seq<Label>)
    requires Valid(s, ls)
    decreases |ls|
  {
    ls == [] || (CleanStep(s, ls[0]) && Clean(Apply(s, ls[0]), ls[1..]))
  }

  function InFlight(s: State): set<JobId> { s.checked + s.passed + s.sending }

  /** In addition, the dispatcher leaves only when no Push call is under way. */
  predicate CarefulStep(s: State, l: Label) {
    CleanStep(s, l) && (l.Leave? ==> InFlight(s) == {})
  }

  predicate Careful(s: State, ls: seq<Label>)
    requires Valid(s, ls)
    decreases |ls|
  {
    ls == [] || (CarefulStep(s, ls[0]) && Careful(Apply(s, ls[0]), ls[1..]))
  }

  // The invariant.

  /** The list without the element that has been handed off but not yet removed. */
  function Undelivered(s: State): seq<JobId> {
    if s.d.Handed? && s.list != [] then s.list[1..] else s.list
  }

  ghost predicate Arrivals(s: State) { V.Arrivals(s.crew, s.sending, s.entered) }

  predicate Fifo(s: State) {
    && s.entered == s.crew.starts + Undelivered(s)
    && (s.d.Got? || s.d.Handed? ==> s.list != [] && s.list[0] == s.d.job)
  }

  ghost predicate CallsKnown(s: State) {
    && (forall j :: j in s.checked ==> j in s.calls && j !in s.passed && j !in s.crew.accepted)
    && (forall j :: j in s.passed ==> j in s.calls && j !in s.crew.accepted)
    && (forall j :: j in s.crew.accepted ==> j in s.calls)
  }

  ghost predicate DoorOpen(s: State) {
    && (s.crew.hand.Some? ==> s.d.Got?)
    && (!s.crew.runner.Launched? ==> s.d.Polling?)
    && (s.crew.runner.Idle? ==> s.checked == {} && s.passed == {})
    && (s.d.Left? ==> !s.crew.running && s.crew.runner.Launched?)
  }

  ghost predicate DoorShut(s: State) {
    && InFlight(s) == {} && Undelivered(s) == [] && !s.d.Got? && !s.crew.term.Closing?
  }

  ghost predicate Open(s: State) { C.Working(s.crew) && DoorOpen(s) }

  ghost predicate Shut(s: State) { C.ShuttingDown(s.crew) && DoorShut(s) }

  ghost predicate Inv(s: State) {
    Arrivals(s) && Fifo(s) && CallsKnown(s) && (Open(s) || Shut(s))
  }

  lemma InitInv(maxThread: nat, maxLen: int)
    ensures Inv(New(maxThread, maxLen))
  {
    C.NewIsWorking(maxThread);
  }

  lemma Sizes(s: State)
    requires Arrivals(s) && Fifo(s)
    ensures |s.crew.accepted| == |s.sending| + |s.crew.starts| + |Undelivered(s)|
  {
    V.ArrivalSizes(s.crew, s.sending, s.entered);
  }

  lemma PushCallKeeps(s: State, j: JobId)
    requires Inv(s) && Enabled(s, PushCall(j))
    ensures Inv(Apply(s, PushCall(j)))
  {
  }

  lemma LenCheckKeeps(s: State, j: JobId)
    requires Inv(s) && Enabled(s, LenCheck(j))
    ensures Inv(Apply(s, LenCheck(j)))
  {
  }

  lemma AddKeeps(s: State, j: JobId)
    requires Inv(s) && Enabled(s, Add(j))
    ensures Inv(Apply(s, Add(j)))
  {
    assert j in s.passed && Open(s);
    V.AddArrives(s.crew, s.sending, s.entered, j);
    C.AcceptKeeps(s.crew, j);
  }

  lemma PushBackFifo(s: State, j: JobId)
    requires Fifo(s) && Enabled(s, PushBack(j))
    ensures Fifo(Apply(s, PushBack(j)))
  {
    var t := Apply(s, PushBack(j));
    assert Undelivered(t) == Undelivered(s) + [j];
  }

  lemma PushBackKeeps(s: State, j: JobId)
    requires Inv(s) && Enabled(s, PushBack(j))
    ensures Inv(Apply(s, PushBack(j)))
  {
    assert j in s.sending && Open(s);
    V.EnterArrives(s.crew, s.sending, s.entered, j);
    PushBackFifo(s, j);
  }

  lemma TakeKeeps(s: State)
    requires Inv(s) && Enabled(s, Take)
    ensures Inv(Apply(s, Take))
  {
    C.TakeTokenKeeps(s.crew);
  }

  lemma HandOffFrame(s: State)
    requires Enabled(s, HandOff) && s.crew.ws[s.crew.hand.value].Selecting?
    ensures
      var t := Apply(s, HandOff);
      && t.crew == C.HandOff(s.crew, s.d.job) && t.d == Handed(s.d.job) && t.list == s.list
      && t.sending == s.sending && t.entered == s.entered && t.calls == s.calls && t.checked == s.checked
      && t.passed == s.passed && t.crew.accepted == s.crew.accepted
      && t.crew.starts == s.crew.starts + [s.d.job]
  {
  }

  lemma HandOffDoor(s: State)
    requires DoorOpen(s) && Enabled(s, HandOff) && s.crew.ws[s.crew.hand.value].Selecting?
    ensures DoorOpen(Apply(s, HandOff))
  {
  }

  lemma HandOffFifo(s: State)
    requires Fifo(s) && Enabled(s, HandOff) && s.crew.ws[s.crew.hand.value].Selecting?
    ensures Fifo(Apply(s, HandOff))
  {
    HandOffFrame(s);
    FirstMoves(s.crew.starts, s.list);
  }

  lemma FirstMoves(starts: seq<JobId>, list: seq<JobId>)
    requires list != []
    ensures starts + list == starts + [list[0]] + list[1..]
  {
  }

  lemma HandOffKeeps(s: State)
    requires Inv(s) && Enabled(s, HandOff)
    ensures Inv(Apply(s, HandOff))
  {
    assert Open(s) && s.crew.ws[s.crew.hand.value].Selecting?;
    C.HandOffKeeps(s.crew, s.d.job);
    HandOffFrame(s);
    HandOffFifo(s);
    HandOffDoor(s);
  }

  lemma ScanFrame(s: State, l: Label)
    requires Fifo(s) && Enabled(s, l) && (l.Peek? || l.Poll? || l.Leave? || l.Remove?)
    ensures Fifo(Apply(s, l))
    ensures
      var t := Apply(s, l);
      && t.crew == s.crew && t.calls == s.calls && t.checked == s.checked && t.passed == s.passed
      && t.sending == s.sending && t.entered == s.entered
  {
  }

  lemma ScanDoor(s: State, l: Label)
    requires Fifo(s) && Enabled(s, l) && (l.Peek? || l.Poll? || l.Leave? || l.Remove?)
    requires s.crew.hand.Some? ==> s.d.Got?
    ensures DoorOpen(s) ==> DoorOpen(Apply(s, l))
    ensures DoorShut(s) ==> DoorShut(Apply(s, l))
  {
  }

  lemma ScanKeeps(s: State, l: Label)
    requires Inv(s) && Enabled(s, l) && (l.Peek? || l.Poll? || l.Leave? || l.Remove?)
    ensures Inv(Apply(s, l))
  {
    ScanFrame(s, l);
    ScanDoor(s, l);
  }

  lemma WaitKeeps(s: State)
    requires Inv(s) && Enabled(s, WaitReturns) && CleanStep(s, WaitReturns)
    ensures Shut(Apply(s, WaitReturns)) && Inv(Apply(s, WaitReturns))
    ensures |s.crew.pool| == |s.crew.ws|
  {
    Sizes(s);
    assert |multiset(s.crew.starts)| == |C.Held(s.crew.ws)| + |multiset(s.crew.finished)|;
    C.WaitReturnsClean(s.crew, C.Stopping(0));
  }

  lemma CrewStepAccounts(s: State, cl: C.Label)
    requires Arrivals(s) && Fifo(s) && CallsKnown(s) && C.Enabled(s.crew, cl)
    ensures
      var t := Apply(s, OfCrew(cl));
      Arrivals(t) && Fifo(t) && CallsKnown(t)
    ensures |s.crew.starts| <= |s.crew.accepted|
  {
    Sizes(s);
    C.StepFrame(s.crew, cl);
  }

  lemma CrewStepDoor(s: State, cl: C.Label)
    requires C.Enabled(s.crew, cl)
    ensures DoorOpen(s) ==> DoorOpen(Apply(s, OfCrew(cl)))
    ensures DoorShut(s) ==> DoorShut(Apply(s, OfCrew(cl)))
  {
    C.StepFrame(s.crew, cl);
  }

  lemma CrewStepKeeps(s: State, cl: C.Label)
    requires Inv(s) && C.Enabled(s.crew, cl)
    ensures Inv(Apply(s, OfCrew(cl)))
  {
    CrewStepAccounts(s, cl);
    CrewStepDoor(s, cl);
    if Open(s) { C.WorkingKept(s.crew, cl); } else { C.ShuttingDownKept(s.crew, cl); }
  }

  /** Every step of every goroutine keeps the invariant, and none panics. */
  lemma StepKeeps(s: State, l: Label)
    requires Inv(s) && Enabled(s, l) && CleanStep(s, l)
    ensures Inv(Apply(s, l))
  {
    match l
    case PushCall(j) => PushCallKeeps(s, j);
    case LenCheck(j) => LenCheckKeeps(s, j);
    case Add(j) => AddKeeps(s, j);
    case PushBack(j) => PushBackKeeps(s, j);
    case Take => TakeKeeps(s);
    case HandOff => HandOffKeeps(s);
    case WaitReturns => WaitKeeps(s);
    case OfCrew(cl) => CrewStepKeeps(s, cl);
    case _ => ScanKeeps(s, l);
  }

  lemma {:induction false} RunKeeps(s: State, ls: seq<Label>)
    requires Inv(s) && Valid(s, ls) && Clean(s, ls)
    ensures Inv(Final(s, ls))
    decreases |ls|
  {
    if ls != [] {
      StepKeeps(s, ls[0]);
      RunKeeps(Apply(s, ls[0]), ls[1..]);
    }
  }

  // Main results: safety over whole runs.

  /** The WaitGroup until Wait returns: Push calls past Add, plus the list, plus the jobs with
      workers, minus one while an element has been handed off but not yet removed. */
  lemma WaitGroupCounts(s: State)
    requires Inv(s) && Open(s)
    ensures s.crew.wg == |s.sending| + |s.list| + |C.Held(s.crew.ws)| - if s.d.Handed? then 1 else 0
  {
    Sizes(s);
    C.BoundedConcurrency(s.crew);
  }

  ghost predicate Safe(s: State) { V.Safe(s.crew, s.entered, Undelivered(s)) }

  lemma InvIsSafe(s: State)
    requires Inv(s)
    ensures Safe(s)
  {
    V.OkIsSafe(s.crew, s.sending, s.entered, Undelivered(s));
  }

  lemma PastWaitStays(s: State, l: Label)
    requires Enabled(s, l)
    ensures V.PastWait(s.crew) || l.WaitReturns? ==> V.PastWait(Apply(s, l).crew)
  {
    if l.OfCrew? { C.StepFrame(s.crew, l.l); }
  }

  lemma {:induction false} PastWaitForEver(s: State, ls: seq<Label>)
    requires Valid(s, ls) && V.PastWait(s.crew)
    ensures V.PastWait(Final(s, ls).crew)
    decreases |ls|
  {
    if ls != [] {
      PastWaitStays(s, ls[0]);
      PastWaitForEver(Apply(s, ls[0]), ls[1..]);
    }
  }

  /** Until Wait returns every run is clean. */
  lemma {:induction false} CleanUntilWaitReturns(s: State, ls: seq<Label>)
    requires Valid(s, ls) && !V.PastWait(Final(s, ls).crew)
    ensures Clean(s, ls)
    decreases |ls|
  {
    if ls != [] {
      PastWaitStays(s, ls[0]);
      if V.PastWait(Apply(s, ls[0]).crew) { PastWaitForEver(Apply(s, ls[0]), ls[1..]); }
      CleanUntilWaitReturns(Apply(s, ls[0]), ls[1..]);
    }
  }

  /** Every reachable state is safe until Wait returns, and afterwards in every clean run. */
  lemma EveryRunIsSafe(maxThread: nat, maxLen: int, ls: seq<Label>)
    requires Valid(New(maxThread, maxLen), ls)
    requires V.PastWait(Final(New(maxThread, maxLen), ls).crew) ==> Clean(New(maxThread, maxLen), ls)
    ensures Safe(Final(New(maxThread, maxLen), ls))
  {
    var q := New(maxThread, maxLen);
    if !V.PastWait(Final(q, ls).crew) { CleanUntilWaitReturns(q, ls); }
    InitInv(maxThread, maxLen);
    RunKeeps(q, ls);
    InvIsSafe(Final(q, ls));
  }

  lemma {:induction false} Snoc(s: State, ls: seq<Label>, l: Label)
    requires Valid(s, ls) && Enabled(Final(s, ls), l)
    ensures Valid(s, ls + [l]) && Final(s, ls + [l]) == Apply(Final(s, ls), l)
    ensures Clean(s, ls) && CleanStep(Final(s, ls), l) ==> Clean(s, ls + [l])
    decreases |ls|
  {
    var ms := ls + [l];
    if ls == [] {
      assert ms == [l] && ms[1..] == [];
      assert Valid(Apply(s, l), ms[1..]);
    } else {
      assert ms[0] == ls[0] && ms[1..] == ls[1..] + [l];
      Snoc(Apply(s, ls[0]), ls[1..], l);
    }
  }

  lemma StaysShut(s: State, l: Label)
    requires Inv(s) && Shut(s) && Enabled(s, l)
    ensures Shut(Apply(s, l))
  {
    StepKeeps(s, l);
    var t := Apply(s, l);
    if l.OfCrew? { C.StepFrame(s.crew, l.l); }
    assert !t.crew.term.NotCalled? && !t.crew.term.Waiting?;
  }

  lemma {:induction false} ShutIsClean(s: State, ls: seq<Label>)
    requires Inv(s) && Shut(s) && Valid(s, ls)
    ensures Clean(s, ls) && Inv(Final(s, ls)) && Shut(Final(s, ls))
    decreases |ls|
  {
    if ls != [] {
      StepKeeps(s, ls[0]);
      StaysShut(s, ls[0]);
      ShutIsClean(Apply(s, ls[0]), ls[1..]);
    }
  }

  /** A Push call that is past its running check can go on until its job is accepted. */
  lemma WindowAccepts(s: State, j: JobId) returns (ls: seq<Label>)
    requires !s.crew.crashed && !TooLong(s) && (j in s.checked || j in s.passed)
    ensures Valid(s, ls) && Clean(s, ls) && Final(s, ls).crew == C.Accept(s.crew, j)
    ensures j in Final(s, ls).sending && Final(s, ls).d == s.d && Final(s, ls).list == s.list
  {
    ls := [];
    assert Final(s, ls) == s;
    if j !in s.passed { Snoc(s, ls, LenCheck(j)); ls := ls + [LenCheck(j)]; }
    Snoc(s, ls, Add(j)); ls := ls + [Add(j)];
  }

  /** After Wait returned, nothing more is accepted exactly when no Push call stands between its
      running check and its wg.Add at that moment. */
  lemma NothingAcceptedLateExactly(s: State)
    requires Inv(s) && Enabled(s, WaitReturns)
    ensures (forall ls :: Valid(Apply(s, WaitReturns), ls) ==> Final(Apply(s, WaitReturns), ls).crew.wg == 0)
            <==> s.checked + s.passed == {}
  {
    var t := Apply(s, WaitReturns);
    if s.checked + s.passed == {} {
      assert s.checked == {} && s.passed == {};
      WaitKeeps(s);
      forall ls | Valid(t, ls) ensures Final(t, ls).crew.wg == 0 { ShutIsClean(t, ls); }
    } else {
      var j :| j in s.checked + s.passed;
      WaitGroupCounts(s);
      var ls := WindowAccepts(t, j);
    }
  }

  // Main results: when a panic can follow.

  ghost predicate CanPanic(s: State) { exists ls :: Valid(s, ls) && Final(s, ls).crew.crashed }

  /** No dispatcher is left to hand out a job, or there is no worker to take one. */
  ghost predicate Harmless(s: State) {
    !s.crew.crashed &&
    (s.crew.ws == [] || (s.d.Left? && forall w :: 0 <= w < |s.crew.ws| ==> !s.crew.ws[w].HasJob()))
  }

  lemma FrontKeepsWorkers(s: State, l: Label)
    requires Enabled(s, l) && !l.OfCrew? && (s.d.Left? || s.crew.ws == [])
    ensures Apply(s, l).crew.ws == s.crew.ws && !Apply(s, l).crew.crashed && (s.d.Left? ==> Apply(s, l).d.Left?)
  {
  }

  lemma HarmlessStep(s: State, l: Label)
    requires Harmless(s) && Enabled(s, l)
    ensures Harmless(Apply(s, l))
  {
    if l.OfCrew? { C.NoJobsStep(s.crew, l.l); } else { FrontKeepsWorkers(s, l); }
  }

  lemma {:induction false} HarmlessRun(s: State, ls: seq<Label>)
    requires Harmless(s) && Valid(s, ls)
    ensures !Final(s, ls).crew.crashed
    decreases |ls|
  {
    if ls != [] {
      HarmlessStep(s, ls[0]);
      HarmlessRun(Apply(s, ls[0]), ls[1..]);
    }
  }

  lemma IdleCrew(c: C.Crew)
    requires C.Working(c) && c.runner.Launched? && c.hand.None? && |C.Held(c.ws)| == 0
    ensures |c.pool| == |c.ws| && (forall i :: 0 <= i < |c.pool| ==> c.pool[i] < |c.ws|)
    ensures forall w :: 0 <= w < |c.ws| ==> c.ws[w].Selecting?
  {
    forall w: nat | w < |c.ws| ensures !c.ws[w].HasJob() { C.HeldBound(c.ws, w); }
    C.IdleTokens(c);
    C.TokenPlaces(c);
    forall i | 0 <= i < |c.pool| ensures c.pool[i] < |c.ws| { assert c.pool[i] in c.pool; }
  }

  /** When Wait returns, nothing is in front of the workers but an element already handed off, no
      worker has a job, and every token is in the pool. */
  lemma IdleAtWait(s: State)
    requires Inv(s) && Enabled(s, WaitReturns)
    ensures s.sending == {} && !s.d.Got? && s.crew.hand.None? && s.crew.runner.Launched?
    ensures s.list == if s.d.Handed? then [s.d.job] else []
    ensures |s.crew.pool| == |s.crew.ws| && (forall i :: 0 <= i < |s.crew.pool| ==> s.crew.pool[i] < |s.crew.ws|)
    ensures forall w :: 0 <= w < |s.crew.ws| ==> s.crew.ws[w].Selecting?
  {
    WaitGroupCounts(s);
    IdleCrew(s.crew);
  }

  /** Wait has returned and the workers are idle, with their tokens in the pool. */
  ghost predicate Returned(s: State) {
    && !s.crew.crashed && s.crew.runner.Launched? && s.crew.term == C.Stopping(0)
    && s.crew.hand.None? && 0 < |s.crew.pool| && s.crew.pool[0] < |s.crew.ws|
    && s.crew.ws[s.crew.pool[0]].Selecting?
  }

  /** A late job goes through the list into the dispatcher's hand, together with a token. */
  lemma LateJobTaken(s: State, j: JobId) returns (ls: seq<Label>)
    requires Returned(s) && s.d.Polling? && s.list == [] && j in s.sending
    ensures Valid(s, ls)
    ensures
      var t := Final(s, ls);
      && !t.crew.crashed && t.d.Got? && t.crew == C.TakeToken(s.crew)
  {
    ls := [];
    assert Final(s, ls) == s;
    Snoc(s, ls, PushBack(j)); ls := ls + [PushBack(j)];
    Snoc(s, ls, Peek); ls := ls + [Peek];
    Snoc(s, ls, Take); ls := ls + [Take];
  }

  /** Terminate stops all workers and closes the pool; nothing else need move. */
  lemma {:induction false} StopAll(s: State) returns (ls: seq<Label>)
    requires !s.crew.crashed && s.crew.term.Stopping?
    ensures Valid(s, ls)
    ensures Final(s, ls) == s.(crew := s.crew.(term := C.Ended, poolClosed := true))
    decreases |s.crew.ws| - s.crew.term.next
  {
    var l := OfCrew(if s.crew.term.next < |s.crew.ws| then C.StopWorker else C.ClosePool);
    var t := Apply(s, l);
    var rest := [];
    if s.crew.term.next < |s.crew.ws| { rest := StopAll(t); } else { assert Final(t, rest) == t; }
    ls := [l] + rest;
    assert ls[1..] == rest;
  }

  /** The worker whose token the dispatcher holds leaves, and the hand-off is a send on its closed
      job channel. */
  lemma HandOffPanics(s: State) returns (ls: seq<Label>)
    requires !s.crew.crashed && s.crew.term.Ended? && s.crew.poolClosed && s.d.Got?
    requires s.crew.hand.Some? && s.crew.hand.value < |s.crew.ws| && s.crew.ws[s.crew.hand.value].Selecting?
    ensures Valid(s, ls) && Final(s, ls).crew.crashed
  {
    var w := s.crew.hand.value;
    ls := [];
    assert Final(s, ls) == s;
    Snoc(s, ls, OfCrew(C.Quit(w))); ls := ls + [OfCrew(C.Quit(w))];
    Snoc(s, ls, OfCrew(C.Drain(w))); ls := ls + [OfCrew(C.Drain(w))];
    Snoc(s, ls, OfCrew(C.CloseJobChan(w))); ls := ls + [OfCrew(C.CloseJobChan(w))];
    Snoc(s, ls, HandOff); ls := ls + [HandOff];
  }

  lemma {:induction false} Append(s: State, ls: seq<Label>, ms: seq<Label>)
    requires Valid(s, ls) && Valid(Final(s, ls), ms)
    ensures Valid(s, ls + ms) && Final(s, ls + ms) == Final(Final(s, ls), ms)
    decreases |ls|
  {
    if ls == [] {
      assert ls + ms == ms;
    } else {
      assert (ls + ms)[1..] == ls[1..] + ms;
      Append(Apply(s, ls[0]), ls[1..], ms);
    }
  }

  lemma PanicsLater(s: State, ls: seq<Label>)
    requires Valid(s, ls) && CanPanic(Final(s, ls))
    ensures CanPanic(s)
  {
    var ms :| Valid(Final(s, ls), ms) && Final(Final(s, ls), ms).crew.crashed;
    Append(s, ls, ms);
  }

  lemma LateJobPanics(s: State, j: JobId)
    requires Returned(s) && s.d.Polling? && s.list == [] && j in s.sending
    ensures CanPanic(s)
  {
    var ls := LateJobTaken(s, j);
    var t := Final(s, ls);
    var ms := StopAll(t);
    var u := Final(t, ms);
    var ns := HandOffPanics(u);
    PanicsLater(t, ms);
    PanicsLater(s, ls);
  }

  /** The late Push call's wg.Add, and then the removal of an element already handed off. */
  lemma WindowEnters(s: State, j: JobId) returns (ls: seq<Label>)
    requires !s.crew.crashed && (j in s.checked || j in s.passed)
    requires (s.d.Polling? && s.list == []) || (s.d.Handed? && s.list == [s.d.job])
    ensures Valid(s, ls)
    ensures
      var t := Final(s, ls);
      t.crew == C.Accept(s.crew, j) && j in t.sending && t.d.Polling? && t.list == []
  {
    ls := WindowAccepts(s, j);
    if s.d.Handed? { Snoc(s, ls, Remove); ls := ls + [Remove]; }
  }

  lemma WindowPanics(s: State, j: JobId)
    requires Returned(s) && (j in s.checked || j in s.passed)
    requires (s.d.Polling? && s.list == []) || (s.d.Handed? && s.list == [s.d.job])
    ensures CanPanic(s)
  {
    var ls := WindowEnters(s, j);
    LateJobPanics(Final(s, ls), j);
    PanicsLater(s, ls);
  }

  lemma NoPanicWhen(s: State)
    requires Inv(s) && Enabled(s, WaitReturns)
    requires s.checked + s.passed == {} || s.d.Left? || |s.crew.ws| == 0
    ensures !CanPanic(Apply(s, WaitReturns))
  {
    var t := Apply(s, WaitReturns);
    if s.checked + s.passed == {} {
      assert s.checked == {} && s.passed == {};
      WaitKeeps(s);
      forall ls | Valid(t, ls) ensures !Final(t, ls).crew.crashed { ShutIsClean(t, ls); }
    } else {
      IdleAtWait(s);
      forall ls | Valid(t, ls) ensures !Final(t, ls).crew.crashed { HarmlessRun(t, ls); }
    }
  }

  /** After Wait returned, some continuation panics exactly when at that moment a Push call stands
      between its running check and its wg.Add, the dispatcher is still there and there is a
      worker: the late job reaches the dispatcher, and the hand-off a worker that has gone. */
  lemma PanicsExactly(s: State)
    requires Inv(s) && Enabled(s, WaitReturns)
    ensures CanPanic(Apply(s, WaitReturns))
            <==> s.checked + s.passed != {} && !s.d.Left? && 0 < |s.crew.ws|
  {
    if s.checked + s.passed != {} && !s.d.Left? && 0 < |s.crew.ws| {
      var j :| j in s.checked + s.passed;
      IdleAtWait(s);
      WindowPanics(Apply(s, WaitReturns), j);
    } else {
      NoPanicWhen(s);
    }
  }

  // Main results: the length bound.

  /** Holds in every run, clean or not. */
  ghost predicate LengthBound(s: State) {
    UnderWay(s) <= s.peak &&
    (0 < s.maxLen ==> |s.list| + |s.passed| + |s.sending| <= s.maxLen + s.peak)
  }

  lemma LengthPush(s: State, l: Label)
    requires LengthBound(s) && Enabled(s, l) && (l.PushCall? || l.LenCheck? || l.Add? || l.PushBack?)
    ensures LengthBound(Apply(s, l)) && Apply(s, l).maxLen == s.maxLen
  {
  }

  lemma LengthOther(s: State, l: Label)
    requires LengthBound(s) && Enabled(s, l) && !(l.PushCall? || l.LenCheck? || l.Add? || l.PushBack?)
    ensures LengthBound(Apply(s, l)) && Apply(s, l).maxLen == s.maxLen
  {
  }

  lemma LengthStep(s: State, l: Label)
    requires LengthBound(s) && Enabled(s, l)
    ensures LengthBound(Apply(s, l)) && Apply(s, l).maxLen == s.maxLen
  {
    if l.PushCall? || l.LenCheck? || l.Add? || l.PushBack? { LengthPush(s, l); } else { LengthOther(s, l); }
  }

  lemma {:induction false} LengthRun(s: State, ls: seq<Label>)
    requires LengthBound(s) && Valid(s, ls)
    ensures LengthBound(Final(s, ls)) && Final(s, ls).maxLen == s.maxLen
    decreases |ls|
  {
    if ls != [] {
      LengthStep(s, ls[0]);
      LengthRun(Apply(s, ls[0]), ls[1..]);
    }
  }

  /** The list, together with the Push calls past the length check, never exceeds maxLen plus the
      number of Push calls that were ever under way at once. */
  lemma ListLengthBounded(maxThread: nat, maxLen: int, ls: seq<Label>)
    requires Valid(New(maxThread, maxLen), ls) && 0 < maxLen
    ensures
      var s := Final(New(maxThread, maxLen), ls);
      |s.list| + |s.passed| + |s.sending| <= maxLen + s.peak
  {
    LengthRun(New(maxThread, maxLen), ls);
  }

  lemma OnePush(s: State, ls: seq<Label>, j: JobId) returns (ms: seq<Label>)
    requires Valid(s, ls)
    requires
      var t := Final(s, ls);
      && !t.crew.crashed && t.crew.running && j !in t.calls && UnderWay(t) == 0 && t.peak <= 1
      && !TooLong(t)
    ensures Valid(s, ms)
    ensures
      var t, u := Final(s, ls), Final(s, ms);
      && !u.crew.crashed && u.crew.running && u.calls == t.calls + {j}
      && UnderWay(u) == 0 && u.peak == 1 && u.list == t.list + [j] && u.maxLen == t.maxLen
  {
    ms := ls;
    Snoc(s, ms, PushCall(j)); ms := ms + [PushCall(j)];
    Snoc(s, ms, LenCheck(j)); ms := ms + [LenCheck(j)];
    Snoc(s, ms, Add(j)); ms := ms + [Add(j)];
    Snoc(s, ms, PushBack(j)); ms := ms + [PushBack(j)];
  }

  lemma {:induction false} Fill(maxThread: nat, maxLen: nat, k: nat) returns (ls: seq<Label>)
    requires 0 < maxLen && k <= maxLen
    ensures Valid(New(maxThread, maxLen), ls)
    ensures
      var s := Final(New(maxThread, maxLen), ls);
      && !s.crew.crashed && s.crew.running && UnderWay(s) == 0 && |s.list| == k
      && s.peak == (if k == 0 then 0 else 1) && s.maxLen == maxLen
      && forall j :: j in s.calls ==> j < k
  {
    var q := New(maxThread, maxLen);
    if k == 0 {
      ls := [];
      Snoc(q, ls, OfCrew(C.BeginRun));
      ls := ls + [OfCrew(C.BeginRun)];
    } else {
      var before := Fill(maxThread, maxLen, k - 1);
      ls := OnePush(q, before, k - 1);
    }
  }

  /** The job has passed its length check, beside those in `t.passed`. */
  ghost predicate Joined(t: State, u: State, j: JobId) {
    && u.crew == t.crew && u.checked == t.checked && u.sending == t.sending && u.list == t.list
    && u.maxLen == t.maxLen && u.passed == t.passed + {j} && u.calls == t.calls + {j}
    && u.peak == Max(t.peak, |t.checked| + |t.passed| + |t.sending| + 1)
  }

  ghost predicate MayJoin(t: State, j: JobId) {
    !t.crew.crashed && t.crew.running && j !in t.calls && j !in t.checked && !TooLong(t)
  }

  lemma JoinCrowd(s: State, ls: seq<Label>, j: JobId) returns (ms: seq<Label>)
    requires Valid(s, ls) && MayJoin(Final(s, ls), j)
    ensures Valid(s, ms) && Joined(Final(s, ls), Final(s, ms), j)
  {
    ms := ls;
    Snoc(s, ms, PushCall(j)); ms := ms + [PushCall(j)];
    Snoc(s, ms, LenCheck(j)); ms := ms + [LenCheck(j)];
  }

  ghost predicate Ready(t: State, base: nat) {
    && !t.crew.crashed && t.crew.running && t.checked == {} && t.passed == {} && t.sending == {} && !TooLong(t)
    && forall j :: j in t.calls ==> j < base
  }

  /** From t, `k` Push calls from `base` on are all past the length check at once. */
  ghost predicate Crowded(t: State, u: State, base: nat, k: nat) {
    && u.crew == t.crew && u.checked == {} && u.sending == {} && u.list == t.list && u.maxLen == t.maxLen
    && u.passed == Group(base, k) && u.peak == Max(t.peak, k)
    && (forall j :: j in u.calls ==> j < base + k)
  }

  lemma CrowdGrows(t: State, u: State, v: State, base: nat, k: nat)
    requires Ready(t, base) && Crowded(t, u, base, k) && Joined(u, v, base + k)
    ensures Crowded(t, v, base, k + 1)
  {
  }

  lemma CrowdStarts(t: State, base: nat)
    requires Ready(t, base)
    ensures Crowded(t, t, base, 0)
  {
  }

  lemma CrowdMayGrow(t: State, u: State, base: nat, k: nat)
    requires Ready(t, base) && Crowded(t, u, base, k)
    ensures MayJoin(u, base + k)
  {
  }

  lemma CrowdStep(s: State, ls: seq<Label>, t: State, base: nat, k: nat) returns (ms: seq<Label>)
    requires Valid(s, ls) && Ready(t, base) && Crowded(t, Final(s, ls), base, k)
    ensures Valid(s, ms) && Crowded(t, Final(s, ms), base, k + 1)
  {
    CrowdMayGrow(t, Final(s, ls), base, k);
    ms := JoinCrowd(s, ls, base + k);
    CrowdGrows(t, Final(s, ls), Final(s, ms), base, k);
  }

  lemma Crowd(s: State, ls: seq<Label>, base: nat, k: nat) returns (ms: seq<Label>)
    requires Valid(s, ls) && Ready(Final(s, ls), base)
    ensures Valid(s, ms) && Crowded(Final(s, ls), Final(s, ms), base, k)
  {
    var t := Final(s, ls);
    ms := ls;
    CrowdStarts(t, base);
    for i := 0 to k
      invariant Valid(s, ms) && Crowded(t, Final(s, ms), base, i)
    {
      ms := CrowdStep(s, ms, t, base, i);
    }
  }

  function Group(base: nat, k: nat): (r: set<JobId>)
    ensures |r| == k
    ensures forall j :: j in r <==> base <= j < base + k
  {
    if k == 0 then {} else Group(base, k - 1) + {base + k - 1}
  }

  /** The crowd enters the list; nobody checks its length any more. */
  lemma {:induction false} CrowdEnters(s: State, ls: seq<Label>, base: nat, k: nat) returns (ms: seq<Label>)
    requires Valid(s, ls)
    requires
      var t := Final(s, ls);
      !t.crew.crashed && t.passed == Group(base, k) && t.sending == {}
    ensures Valid(s, ms)
    ensures
      var t, u := Final(s, ls), Final(s, ms);
      u.peak == t.peak && |u.list| == |t.list| + k
    decreases k
  {
    ms := ls;
    if k > 0 {
      var j := base + k - 1;
      Snoc(s, ms, Add(j)); ms := ms + [Add(j)];
      Snoc(s, ms, PushBack(j)); ms := ms + [PushBack(j)];
      assert Final(s, ms).passed == Group(base, k - 1);
      ms := CrowdEnters(s, ms, base, k - 1);
    }
  }

  /** The bound is reached for every number of pushers: k of them can bring the list to maxLen + k,
      and never further. */
  lemma BoundIsReached(maxThread: nat, maxLen: nat, k: nat) returns (ls: seq<Label>)
    requires 0 < maxLen && 0 < k
    ensures Valid(New(maxThread, maxLen), ls)
    ensures
      var s := Final(New(maxThread, maxLen), ls);
      s.peak == k && |s.list| == maxLen + k
    ensures forall ms :: Valid(New(maxThread, maxLen), ms) && Final(New(maxThread, maxLen), ms).peak <= k ==>
      |Final(New(maxThread, maxLen), ms).list| <= maxLen + k
  {
    var q := New(maxThread, maxLen);
    ls := Fill(maxThread, maxLen, maxLen);
    ls := Crowd(q, ls, maxLen, k);
    ls := CrowdEnters(q, ls, maxLen, k);
    forall ms | Valid(q, ms) && Final(q, ms).peak <= k ensures |Final(q, ms).list| <= maxLen + k {
      ListLengthBounded(maxThread, maxLen, ms);
    }
  }

  // Main results: ranking and progress.

  function DispatcherWeight(s: State): nat {
    match s.d
    case Left => 0
    case Handed(_) => 0
    case Got(_) => if s.crew.hand.Some? then 4 else 5
    case Polling => 6
  }

  function Rank(s: State): nat {
    C.Rank(s.crew) + 10 * |s.checked| + 9 * |s.passed| + 8 * |s.sending| + 7 * |s.list| + DispatcherWeight(s)
  }

  lemma CallRank(s: State, j: JobId)
    requires Enabled(s, PushCall(j))
    ensures Rank(Apply(s, PushCall(j))) <= Rank(s) + 10
  {
  }

  lemma PusherRank(s: State, l: Label)
    requires Enabled(s, l) && (l.LenCheck? || l.Add? || l.PushBack?)
    ensures Rank(Apply(s, l)) < Rank(s)
  {
    if l.Add? { assert C.Rank(Apply(s, l).crew) == C.Rank(s.crew); }
  }

  lemma DispatcherRank(s: State, l: Label)
    requires Fifo(s) && Enabled(s, l)
    requires l.Peek? || l.Take? || l.Leave? || l.Remove? || l.WaitReturns?
    ensures Rank(Apply(s, l)) < Rank(s)
  {
  }

  lemma HandOffRank(s: State)
    requires Enabled(s, HandOff)
    ensures Rank(Apply(s, HandOff)) < Rank(s)
  {
    C.HandOffRank(s.crew, s.d.job);
  }

  lemma CrewRank(s: State, cl: C.Label)
    requires C.WellPlaced(s.crew) && C.Enabled(s.crew, cl)
    ensures Rank(Apply(s, OfCrew(cl))) < Rank(s)
  {
    C.StepFrame(s.crew, cl);
    C.RankDrops(s.crew, cl);
  }

  /** Every step except a new Push call and an idle poll lowers the measure. */
  lemma EveryStepLowersRank(s: State, l: Label)
    requires Inv(s) && Enabled(s, l)
    ensures !l.PushCall? && !l.Poll? ==> Rank(Apply(s, l)) < Rank(s)
    ensures l.PushCall? ==> Rank(Apply(s, l)) <= Rank(s) + 10
    ensures l.Poll? ==> Apply(s, l) == s
  {
    match l
    case HandOff => HandOffRank(s);
    case OfCrew(cl) => CrewRank(s, cl);
    case PushCall(j) => CallRank(s, j);
    case LenCheck(_) => PusherRank(s, l);
    case Add(_) => PusherRank(s, l);
    case PushBack(_) => PusherRank(s, l);
    case Poll =>
    case _ => DispatcherRank(s, l);
  }

  predicate Counted(l: Label) { !l.PushCall? && !l.Poll? }

  function Count(ls: seq<Label>, p: Label -> bool): nat {
    if ls == [] then 0 else (if p(ls[0]) then 1 else 0) + Count(ls[1..], p)
  }

  lemma {:induction false} RunLength(s: State, ls: seq<Label>)
    requires Inv(s) && Valid(s, ls) && Clean(s, ls)
    ensures Count(ls, Counted) <= Rank(s) + 10 * Count(ls, (l: Label) => l.PushCall?)
    decreases |ls|
  {
    if ls != [] {
      EveryStepLowersRank(s, ls[0]);
      StepKeeps(s, ls[0]);
      RunLength(Apply(s, ls[0]), ls[1..]);
    }
  }

  /** Idle polls aside, no run goes on for ever. */
  lemma EveryRunIsFinite(maxThread: nat, maxLen: int, ls: seq<Label>)
    requires Valid(New(maxThread, maxLen), ls) && Clean(New(maxThread, maxLen), ls)
    ensures Count(ls, Counted) <= 10 * Count(ls, (l: Label) => l.PushCall?) + 5 * maxThread + 13
  {
    InitInv(maxThread, maxLen);
    RunLength(New(maxThread, maxLen), ls);
    C.NewWeights(maxThread);
  }

  predicate Internal(l: Label) {
    match l
    case PushCall(_) => false
    case OfCrew(cl) => C.Internal(cl)
    case _ => true
  }

  /** Nothing is left behind when the dispatcher has gone. */
  ghost predicate Live(s: State) { s.d.Left? ==> InFlight(s) == {} && s.list == [] }

  ghost predicate Settled(s: State) {
    && InFlight(s) == {} && s.list == []
    && s.crew.runner.Launched? && s.crew.wg == 0
    && (if s.crew.term.NotCalled?
        then forall w :: 0 <= w < |s.crew.ws| ==> s.crew.ws[w].Selecting?
        else C.AllExited(s.crew) && s.d.Left?)
  }

  lemma LiveStep(s: State, l: Label)
    requires Inv(s) && Live(s) && Enabled(s, l) && CarefulStep(s, l)
    ensures Live(Apply(s, l))
  {
    if l.OfCrew? { C.StepFrame(s.crew, l.l); }
    if l.PushCall? && s.d.Left? { assert !s.crew.running; }
  }

  /** The steps of a Push call up to its wg.Add. */
  predicate InWindow(l: Label) { l.PushCall? || l.LenCheck? || l.Add? }

  predicate AtRest(s: State) { s.d.Polling? && s.list == [] }

  lemma OpenProgress(s: State) returns (l: Label)
    requires Inv(s) && Open(s) && Live(s) && 0 < |s.crew.ws| && !s.crew.runner.Idle? && !Settled(s)
    ensures Internal(l) && !l.Poll? && !l.Leave? && Enabled(s, l) && CarefulStep(s, l)
    ensures 0 < s.crew.wg ==> !InWindow(l) && !l.WaitReturns?
    ensures !s.d.Left? && !AtRest(s) ==> !InWindow(l) && !l.PushBack? && !l.WaitReturns?
  {
    if !s.crew.runner.Launched? || exists w: nat :: w < |s.crew.ws| && s.crew.ws[w].HasJob() {
      var cl := C.WorkingProgress(s.crew);
      return OfCrew(cl);
    }
    C.IdleTokens(s.crew);
    Sizes(s);
    if s.d.Got? {
      l := if s.crew.hand.None? then Take else HandOff;
    } else if s.d.Handed? {
      l := Remove;
    } else if s.d.Polling? && s.list != [] {
      l := Peek;
    } else if s.sending != {} {
      var j :| j in s.sending;
      l := PushBack(j);
    } else if s.passed != {} {
      var j :| j in s.passed;
      l := Add(j);
    } else if s.checked != {} {
      var j :| j in s.checked;
      l := LenCheck(j);
    } else {
      l := WaitReturns;
    }
  }

  /** No deadlock while the dispatcher has left nothing behind. */
  lemma Progress(s: State) returns (l: Label)
    requires Inv(s) && Live(s) && 0 < |s.crew.ws| && !s.crew.runner.Idle? && !Settled(s)
    ensures Internal(l) && !l.Poll? && Enabled(s, l) && CarefulStep(s, l)
  {
    if Open(s) {
      l := OpenProgress(s);
    } else if s.d.Handed? {
      l := Remove;
    } else if s.d.Polling? {
      l := Leave;
    } else {
      var cl := C.ShutdownProgress(s.crew);
      l := OfCrew(cl);
    }
  }

  lemma ShapeKept(s: State, l: Label)
    requires Enabled(s, l)
    ensures |Apply(s, l).crew.ws| == |s.crew.ws|
    ensures !s.crew.runner.Idle? ==> !Apply(s, l).crew.runner.Idle?
  {
    if l.OfCrew? { C.StepFrame(s.crew, l.l); }
  }

  ghost predicate AllInternal(ls: seq<Label>) { forall l :: l in ls ==> Internal(l) }

  /** The queue drains by its own steps, and after Terminate was called it shuts down completely,
      from every reachable state in which a dispatcher that has gone left nothing behind. */
  lemma {:induction false} Drain(s: State) returns (ls: seq<Label>)
    requires Inv(s) && Live(s) && 0 < |s.crew.ws| && !s.crew.runner.Idle?
    ensures Valid(s, ls) && Careful(s, ls) && AllInternal(ls) && |ls| <= Rank(s)
    ensures Settled(Final(s, ls))
    decreases Rank(s)
  {
    if Settled(s) { return []; }
    var l := Progress(s);
    EveryStepLowersRank(s, l);
    StepKeeps(s, l);
    LiveStep(s, l);
    ShapeKept(s, l);
    var rest := Drain(Apply(s, l));
    ls := [l] + rest;
    assert ls[1..] == rest;
  }

  /** In every run that is careful in this sense the queue can always still drain. */
  lemma {:induction false} CarefulRunsStayLive(s: State, ls: seq<Label>)
    requires Inv(s) && Live(s) && Valid(s, ls) && Careful(s, ls)
    ensures Inv(Final(s, ls)) && Live(Final(s, ls))
    decreases |ls|
  {
    if ls != [] {
      StepKeeps(s, ls[0]);
      LiveStep(s, ls[0]);
      CarefulRunsStayLive(Apply(s, ls[0]), ls[1..]);
    }
  }

  // Main results: when the dispatcher may leave.

  /** Terminate waits, and no continuation ever brings the WaitGroup back to zero. */
  ghost predicate Hangs(s: State) {
    && !s.crew.crashed && s.crew.term.Waiting?
    && forall ls :: Valid(s, ls) ==> Final(s, ls).crew.wg > 0
  }

  /** A job in the list with nobody to take it out. */
  ghost predicate Stranded(s: State) { Inv(s) && Open(s) && s.d.Left? && s.list != [] }

  lemma StrandedCount(s: State)
    requires Stranded(s)
    ensures s.crew.wg > 0
  {
    WaitGroupCounts(s);
  }

  lemma StrandedStep(s: State, l: Label)
    requires Stranded(s) && Enabled(s, l)
    ensures Stranded(Apply(s, l))
  {
    StrandedCount(s);
    StepKeeps(s, l);
    if l.OfCrew? { C.StepFrame(s.crew, l.l); }
  }

  lemma {:induction false} StrandedForEver(s: State, ls: seq<Label>)
    requires Stranded(s) && Valid(s, ls)
    ensures Final(s, ls).crew.wg > 0
    decreases |ls|
  {
    if ls == [] {
      StrandedCount(s);
    } else {
      StrandedStep(s, ls[0]);
      StrandedForEver(Apply(s, ls[0]), ls[1..]);
    }
  }

  lemma {:induction false} GoneIsCareful(s: State, ls: seq<Label>)
    requires Inv(s) && Live(s) && s.d.Left? && Valid(s, ls)
    ensures Careful(s, ls)
    decreases |ls|
  {
    if ls != [] {
      StepKeeps(s, ls[0]);
      LiveStep(s, ls[0]);
      GoneIsCareful(Apply(s, ls[0]), ls[1..]);
    }
  }

  /** Where a Push call under way when the dispatcher leaves can end up. */
  lemma StrandsJob(s: State, j: JobId) returns (ls: seq<Label>)
    requires Inv(s) && Open(s) && s.d.Left? && s.list == [] && j in InFlight(s)
    ensures Valid(s, ls) && Stranded(Final(s, ls))
  {
    if j in s.sending {
      ls := [];
      assert Final(s, ls) == s;
    } else {
      ls := WindowAccepts(s, j);
      RunKeeps(s, ls);
    }
    var t := Final(s, ls);
    PushBackKeeps(t, j);
    Snoc(s, ls, PushBack(j)); ls := ls + [PushBack(j)];
  }

  ghost predicate CanHang(s: State) { exists ls :: Valid(s, ls) && Hangs(Final(s, ls)) }

  lemma StrandingHangs(t: State, j: JobId)
    requires Inv(t) && Open(t) && t.d.Left? && t.list == [] && j in InFlight(t)
    ensures CanHang(t)
  {
    var ls := StrandsJob(t, j);
    var u := Final(t, ls);
    forall ms | Valid(u, ms) ensures Final(u, ms).crew.wg > 0 { StrandedForEver(u, ms); }
    assert Valid(t, ls) && Hangs(Final(t, ls));
  }

  /** A dispatcher that leaves after running was cleared can make Terminate hang exactly when a
      Push call is under way at that moment: the job may reach the list after the last look. */
  lemma LeavingHangsExactly(s: State)
    requires Inv(s) && Live(s) && Enabled(s, Leave) && 0 < |s.crew.ws|
    ensures CanHang(Apply(s, Leave)) <==> InFlight(s) != {}
  {
    var t := Apply(s, Leave);
    ScanKeeps(s, Leave);
    if InFlight(s) != {} {
      var j :| j in InFlight(s);
      assert Open(t);
      StrandingHangs(t, j);
    } else {
      forall ls | Valid(t, ls) ensures !Hangs(Final(t, ls)) { GoneDrains(t, ls); }
    }
  }

  lemma GoneDrains(t: State, ls: seq<Label>)
    requires Inv(t) && Live(t) && t.d.Left? && 0 < |t.crew.ws| && !t.crew.runner.Idle? && Valid(t, ls)
    ensures !Hangs(Final(t, ls))
  {
    GoneIsCareful(t, ls);
    CarefulRunsStayLive(t, ls);
    RunShape(t, ls);
    var ms := Drain(Final(t, ls));
    assert Final(Final(t, ls), ms).crew.wg == 0;
  }

  lemma {:induction false} RunShape(s: State, ls: seq<Label>)
    requires Valid(s, ls)
    ensures |Final(s, ls).crew.ws| == |s.crew.ws|
    ensures !s.crew.runner.Idle? ==> !Final(s, ls).crew.runner.Idle?
    decreases |ls|
  {
    if ls != [] {
      ShapeKept(s, ls[0]);
      RunShape(Apply(s, ls[0]), ls[1..]);
    }
  }

  // Main results: what a caller of Terminate can know.

  lemma WaitingKept(s: State, l: Label)
    requires Enabled(s, l) && Internal(l) && !l.Leave? && !l.WaitReturns? && !InWindow(l)
    requires s.crew.term.Waiting? && !s.d.Left?
    ensures
      var t := Apply(s, l);
      && t.crew.term.Waiting? && !t.d.Left? && |t.crew.ws| == |s.crew.ws|
      && t.checked == s.checked && t.passed == s.passed && (!l.PushBack? ==> t.sending == s.sending)
  {
  }

  /** While Terminate waits, the accepted jobs can all finish without any Push call moving on to
      its wg.Add. */
  lemma {:induction false} ReachWait(s: State) returns (ls: seq<Label>)
    requires Inv(s) && s.crew.term.Waiting? && !s.d.Left? && 0 < |s.crew.ws|
    ensures Valid(s, ls)
    ensures
      var t := Final(s, ls);
      && Inv(t) && Enabled(t, WaitReturns) && !t.d.Left? && |t.crew.ws| == |s.crew.ws|
      && t.checked == s.checked && t.passed == s.passed
    decreases Rank(s)
  {
    assert Open(s);
    WaitGroupCounts(s);
    if s.crew.wg == 0 { return []; }
    var l := OpenProgress(s);
    EveryStepLowersRank(s, l);
    StepKeeps(s, l);
    WaitingKept(s, l);
    var rest := ReachWait(Apply(s, l));
    ls := [l] + rest;
    assert ls[1..] == rest;
  }

  /** While Terminate waits, the list can become empty without any Push call moving at all. */
  lemma {:induction false} ReachRest(s: State) returns (ls: seq<Label>)
    requires Inv(s) && s.crew.term.Waiting? && !s.d.Left? && 0 < |s.crew.ws|
    ensures Valid(s, ls)
    ensures
      var t := Final(s, ls);
      && Inv(t) && t.crew.term.Waiting? && AtRest(t) && |t.crew.ws| == |s.crew.ws|
      && InFlight(t) == InFlight(s)
    decreases Rank(s)
  {
    assert Open(s);
    if AtRest(s) { return []; }
    var l := OpenProgress(s);
    EveryStepLowersRank(s, l);
    StepKeeps(s, l);
    WaitingKept(s, l);
    var rest := ReachRest(Apply(s, l));
    ls := [l] + rest;
    assert ls[1..] == rest;
  }

  /** Once Terminate was called no further Push call passes its running check. */
  lemma NoneStarts(s: State, l: Label)
    requires Enabled(s, l) && !s.crew.running && !s.crew.runner.Idle?
    ensures
      var t := Apply(s, l);
      && !t.crew.running && !t.crew.runner.Idle? && |t.crew.ws| == |s.crew.ws|
      && (s.checked == {} && s.passed == {} ==> t.checked == {} && t.passed == {})
      && (InFlight(s) == {} ==> InFlight(t) == {})
  {
    if l.OfCrew? { C.StepFrame(s.crew, l.l); }
  }

  lemma {:induction false} NoWindowRun(s: State, ls: seq<Label>)
    requires Inv(s) && s.checked == {} && s.passed == {} && Valid(s, ls)
    requires !s.crew.running && !s.crew.runner.Idle?
    ensures !Final(s, ls).crew.crashed
    decreases |ls|
  {
    if ls != [] {
      StepKeeps(s, ls[0]);
      NoneStarts(s, ls[0]);
      NoWindowRun(Apply(s, ls[0]), ls[1..]);
    }
  }

  /** Terminate was called and waits; the dispatcher has not left yet. */
  ghost predicate Called(s: State) {
    && Inv(s) && !s.crew.crashed && !s.crew.running && s.crew.term.Waiting?
    && !s.crew.runner.Idle? && !s.d.Left?
  }

  lemma CallTerminate(s: State)
    requires Inv(s) && Enabled(s, OfCrew(C.BeginTerminate))
    ensures
      var t := Apply(s, OfCrew(C.BeginTerminate));
      && Called(t) && t.checked == s.checked && t.passed == s.passed && t.sending == s.sending
      && t.crew.ws == s.crew.ws
  {
    CrewStepKeeps(s, C.BeginTerminate);
  }

  lemma CalledCanPanic(s: State)
    requires Called(s) && s.checked + s.passed != {} && 0 < |s.crew.ws|
    ensures CanPanic(s)
  {
    var ls := ReachWait(s);
    PanicsExactly(Final(s, ls));
    Snoc(s, ls, WaitReturns);
    PanicsLater(s, ls + [WaitReturns]);
  }

  lemma CalledCannotPanic(s: State)
    requires Called(s) && ((s.checked == {} && s.passed == {}) || s.crew.ws == [])
    ensures !CanPanic(s)
  {
    forall ls | Valid(s, ls) ensures !Final(s, ls).crew.crashed {
      if s.crew.ws == [] { HarmlessRun(s, ls); } else { NoWindowRun(s, ls); }
    }
  }

  /** When Terminate is called, some continuation panics exactly when a Push call stands between
      its running check and its wg.Add at that moment and there is a worker. */
  lemma TerminatePanicsExactly(s: State)
    requires Inv(s) && Enabled(s, OfCrew(C.BeginTerminate))
    ensures CanPanic(Apply(s, OfCrew(C.BeginTerminate)))
            <==> s.checked + s.passed != {} && 0 < |s.crew.ws|
  {
    CallTerminate(s);
    var t := Apply(s, OfCrew(C.BeginTerminate));
    if s.checked + s.passed != {} && 0 < |s.crew.ws| { CalledCanPanic(t); } else { CalledCannotPanic(t); }
  }

  lemma HangsLater(s: State, ls: seq<Label>)
    requires Valid(s, ls) && CanHang(Final(s, ls))
    ensures CanHang(s)
  {
    var ms :| Valid(Final(s, ls), ms) && Hangs(Final(Final(s, ls), ms));
    Append(s, ls, ms);
  }

  lemma {:induction false} NoneInFlightRun(s: State, ls: seq<Label>)
    requires Inv(s) && Live(s) && InFlight(s) == {} && Valid(s, ls)
    requires !s.crew.running && !s.crew.runner.Idle? && 0 < |s.crew.ws|
    ensures !Hangs(Final(s, ls))
    decreases |ls|
  {
    if ls == [] {
      var ms := Drain(s);
      assert Final(s, ms).crew.wg == 0;
    } else {
      assert CarefulStep(s, ls[0]);
      StepKeeps(s, ls[0]);
      LiveStep(s, ls[0]);
      NoneStarts(s, ls[0]);
      NoneInFlightRun(Apply(s, ls[0]), ls[1..]);
    }
  }

  lemma CalledCanHang(s: State)
    requires Called(s) && InFlight(s) != {} && 0 < |s.crew.ws|
    ensures CanHang(s)
  {
    var ls := ReachRest(s);
    LeavingHangsExactly(Final(s, ls));
    Snoc(s, ls, Leave);
    HangsLater(s, ls + [Leave]);
  }

  lemma WithoutWorkersStep(s: State, l: Label)
    requires s.crew.ws == [] && Enabled(s, l)
    ensures Apply(s, l).crew.ws == [] && s.crew.wg <= Apply(s, l).crew.wg
    ensures !l.Add? ==> Apply(s, l).crew.wg == s.crew.wg
  {
    if l.OfCrew? { C.WithoutWorkersStep(s.crew, l.l); } else { FrontKeepsWorkers(s, l); }
  }

  lemma {:induction false} WithoutWorkers(s: State, ls: seq<Label>)
    requires s.crew.ws == [] && Valid(s, ls)
    ensures s.crew.wg <= Final(s, ls).crew.wg
    ensures InFlight(s) == {} && !s.crew.running && !s.crew.runner.Idle? ==> Final(s, ls).crew.wg == s.crew.wg
    decreases |ls|
  {
    if ls != [] {
      WithoutWorkersStep(s, ls[0]);
      if !s.crew.running && !s.crew.runner.Idle? { NoneStarts(s, ls[0]); }
      assert InFlight(s) == {} ==> !ls[0].Add?;
      WithoutWorkers(Apply(s, ls[0]), ls[1..]);
    }
  }

  lemma CountWithoutWorkers(s: State)
    requires Called(s) && s.crew.ws == []
    ensures 0 <= s.crew.wg && (s.sending != {} || TooLong(s) ==> 0 < s.crew.wg)
  {
    assert Open(s);
    WaitGroupCounts(s);
    assert s.d.Handed? ==> 0 < |s.list|;
  }

  lemma HangsWithoutWorkers(s: State)
    requires Called(s) && s.crew.ws == []
    ensures CanHang(s) <==> InFlight(s) != {} || 0 < s.crew.wg
  {
    CountWithoutWorkers(s);
    if InFlight(s) == {} && s.crew.wg == 0 {
      forall ls | Valid(s, ls) ensures !Hangs(Final(s, ls)) {
        WithoutWorkers(s, ls);
        assert Valid(Final(s, ls), []);
      }
    } else {
      var ls := [];
      if s.crew.wg == 0 {
        var j :| j in InFlight(s);
        ls := WindowAccepts(s, j);
      } else {
        assert Final(s, ls) == s;
      }
      RunShape(s, ls);
      var t := Final(s, ls);
      forall ms | Valid(t, ms) ensures Final(t, ms).crew.wg > 0 { WithoutWorkers(t, ms); }
      assert Hangs(t);
    }
  }

  lemma HangsWithWorkers(s: State)
    requires Called(s) && 0 < |s.crew.ws|
    ensures CanHang(s) <==> InFlight(s) != {}
  {
    if InFlight(s) == {} {
      forall ls | Valid(s, ls) ensures !Hangs(Final(s, ls)) { NoneInFlightRun(s, ls); }
    } else {
      CalledCanHang(s);
    }
  }

  /** When Terminate is called, it may wait for ever exactly when a Push call is under way at that
      moment, or when there is a job to wait for and no worker to do it. */
  lemma TerminateHangsExactly(s: State)
    requires Inv(s) && Enabled(s, OfCrew(C.BeginTerminate))
    ensures CanHang(Apply(s, OfCrew(C.BeginTerminate)))
            <==> InFlight(s) != {} || (s.crew.ws == [] && 0 < s.crew.wg)
  {
    CallTerminate(s);
    var t := Apply(s, OfCrew(C.BeginTerminate));
    if s.crew.ws == [] { HangsWithoutWorkers(t); } else { HangsWithWorkers(t); }
  }

  lemma OneWorkerUp(maxLen: int) returns (ls: seq<Label>)
    ensures Valid(New(1, maxLen), ls) && Clean(New(1, maxLen), ls)
    ensures
      var s := Final(New(1, maxLen), ls);
      && !s.crew.crashed && s.crew.running && s.crew.runner.Launched? && s.crew.term.NotCalled?
      && s.calls == {} && s.checked == {} && s.crew.wg == 0 && |s.crew.ws| == 1 && s.d.Polling? && s.list == []
  {
    var q := New(1, maxLen);
    ls := [];
    Snoc(q, ls, OfCrew(C.BeginRun)); ls := ls + [OfCrew(C.BeginRun)];
    Snoc(q, ls, OfCrew(C.StartWorker)); ls := ls + [OfCrew(C.StartWorker)];
    Snoc(q, ls, OfCrew(C.LaunchDispatcher)); ls := ls + [OfCrew(C.LaunchDispatcher)];
  }

  /** One Push call is past its running check when Terminate clears the flag. */
  lemma WindowReachable(maxLen: int) returns (ls: seq<Label>)
    ensures Valid(New(1, maxLen), ls) && Clean(New(1, maxLen), ls)
    ensures
      var s := Final(New(1, maxLen), ls);
      && s.checked == {0} && !s.crew.crashed && !s.crew.running && s.crew.runner.Launched?
      && s.crew.term.Waiting? && s.crew.wg == 0 && |s.crew.ws| == 1 && s.d.Polling? && s.list == []
  {
    var q := New(1, maxLen);
    ls := OneWorkerUp(maxLen);
    Snoc(q, ls, PushCall(0)); ls := ls + [PushCall(0)];
    Snoc(q, ls, OfCrew(C.BeginTerminate)); ls := ls + [OfCrew(C.BeginTerminate)];
  }

  /** A run from a new queue with one worker that ends in a send on a worker's closed job
      channel. */
  lemma PanicReachable(maxLen: int) returns (ls: seq<Label>)
    ensures Valid(New(1, maxLen), ls) && Final(New(1, maxLen), ls).crew.crashed
  {
    var q := New(1, maxLen);
    var ms := WindowReachable(maxLen);
    InitInv(1, maxLen);
    RunKeeps(q, ms);
    PanicsExactly(Final(q, ms));
    Snoc(q, ms, WaitReturns); ms := ms + [WaitReturns];
    PanicsLater(q, ms);
    ls :| Valid(q, ls) && Final(q, ls).crew.crashed;
  }

  /** A run from a new queue with one worker after which Terminate may wait for ever. */
  lemma HangReachable(maxLen: int) returns (ls: seq<Label>)
    ensures Valid(New(1, maxLen), ls) && Clean(New(1, maxLen), ls)
    ensures Final(New(1, maxLen), ls).crew.term.Waiting? && CanHang(Final(New(1, maxLen), ls))
  {
    var q := New(1, maxLen);
    ls := WindowReachable(maxLen);
    InitInv(1, maxLen);
    RunKeeps(q, ls);
    LeavingHangsExactly(Final(q, ls));
    Snoc(q, ls, Leave); ls := ls + [Leave];
  }

  // Main results: refinement.

  ghost function Abs(s: State): Spec.State { V.Abs(s.crew, s.entered) }

  ghost function ActionOf(s: State, l: Label): seq<Spec.Action>
    requires Enabled(s, l)
  {
    match l
    case Add(j) => [Spec.Accept(j)]
    case PushBack(j) => [Spec.Enter(j)]
    case HandOff => [Spec.Start]
    case WaitReturns => [Spec.Terminate]
    case OfCrew(cl) => if cl.Done? then [Spec.Finish(s.crew.ws[cl.w].job)] else []
    case _ => []
  }

  ghost predicate Matches(s: State, l: Label, a: Spec.Action)
    requires Enabled(s, l)
  {
    V.Matches(s.crew, s.entered, Apply(s, l).crew, Apply(s, l).entered, a)
  }

  lemma AddMatches(s: State, j: JobId)
    requires Inv(s) && Enabled(s, Add(j))
    ensures Matches(s, Add(j), Spec.Accept(j))
  {
    assert j in s.passed && Open(s);
    V.AcceptMatches(s.crew, s.entered, j);
  }

  lemma PushBackMatches(s: State, j: JobId)
    requires Inv(s) && Enabled(s, PushBack(j))
    ensures Matches(s, PushBack(j), Spec.Enter(j))
  {
    V.EnterArrives(s.crew, s.sending, s.entered, j);
    V.EnterMatches(s.crew, s.entered, j);
  }

  lemma StartMatches(s: State)
    requires Inv(s) && Enabled(s, HandOff)
    ensures Matches(s, HandOff, Spec.Start)
  {
    assert Open(s);
    V.StartMatches(s.crew, s.entered, s.d.job);
  }

  lemma StartsAreEntered(s: State)
    requires Arrivals(s) && Fifo(s)
    ensures s.crew.starts <= s.entered && |s.crew.starts| <= |s.crew.accepted|
  {
    Sizes(s);
  }

  lemma FinishMatches(s: State, w: nat)
    requires C.Working(s.crew) && s.crew.starts <= s.entered && |s.crew.starts| <= |s.crew.accepted|
    requires C.Enabled(s.crew, C.Done(w))
    ensures Matches(s, OfCrew(C.Done(w)), Spec.Finish(s.crew.ws[w].job))
  {
    V.FinishMatchesWorking(s.crew, s.entered, w);
  }

  lemma BusyMeansOpen(s: State, w: nat)
    requires Open(s) || Shut(s)
    requires w < |s.crew.ws| && s.crew.ws[w].HasJob()
    ensures Open(s)
  {
  }

  lemma TerminateMatches(s: State)
    requires Inv(s) && Enabled(s, WaitReturns) && CleanStep(s, WaitReturns)
    ensures Matches(s, WaitReturns, Spec.Terminate)
  {
    WaitKeeps(s);
    assert Shut(Apply(s, WaitReturns)) && s.sending == {} && s.entered == s.crew.starts;
    V.TerminateMatches(s.crew, s.entered, C.Stopping(0));
  }

  lemma Invisible(s: State, l: Label)
    requires Enabled(s, l) && ActionOf(s, l) == []
    ensures Abs(Apply(s, l)) == Abs(s)
  {
    if l.OfCrew? { V.CrewInvisible(s.crew, s.entered, l.l); }
  }

  lemma VisibleMatches(s: State, l: Label)
    requires Inv(s) && Enabled(s, l) && CleanStep(s, l) && ActionOf(s, l) != []
    ensures |ActionOf(s, l)| == 1 && Matches(s, l, ActionOf(s, l)[0])
  {
    match l
    case Add(j) => AddMatches(s, j);
    case PushBack(j) => PushBackMatches(s, j);
    case HandOff => StartMatches(s);
    case WaitReturns => TerminateMatches(s);
    case OfCrew(cl) =>
      BusyMeansOpen(s, cl.w);
      StartsAreEntered(s);
      FinishMatches(s, cl.w);
  }

  /** Each step is a step of the abstract queuer, or invisible there. */
  lemma StepSimulates(s: State, l: Label)
    requires Inv(s) && Enabled(s, l) && CleanStep(s, l)
    ensures Spec.Valid(Abs(s), ActionOf(s, l))
    ensures Spec.Final(Abs(s), ActionOf(s, l)) == Abs(Apply(s, l))
  {
    if ActionOf(s, l) == [] { Invisible(s, l); } else { VisibleMatches(s, l); }
    V.OneAction(s.crew, s.entered, Apply(s, l).crew, Apply(s, l).entered, ActionOf(s, l));
  }

  ghost function ActionsOf(s: State, ls: seq<Label>): seq<Spec.Action>
    requires Valid(s, ls)
    decreases |ls|
  {
    if ls == [] then [] else ActionOf(s, ls[0]) + ActionsOf(Apply(s, ls[0]), ls[1..])
  }

  lemma {:induction false} RunRefines(s: State, ls: seq<Label>)
    requires Inv(s) && Valid(s, ls) && Clean(s, ls)
    ensures Spec.Valid(Abs(s), ActionsOf(s, ls))
    ensures Spec.Final(Abs(s), ActionsOf(s, ls)) == Abs(Final(s, ls))
    decreases |ls|
  {
    if ls != [] {
      StepSimulates(s, ls[0]);
      StepKeeps(s, ls[0]);
      RunRefines(Apply(s, ls[0]), ls[1..]);
      Spec.Concat(Abs(s), ActionOf(s, ls[0]), ActionsOf(Apply(s, ls[0]), ls[1..]));
    }
  }

  /** Every run of the list queue is a run of the same abstract queuer as the channel queue. */
  lemma RefinesQueuer(maxThread: nat, maxLen: int, ls: seq<Label>)
    requires Valid(New(maxThread, maxLen), ls) && Clean(New(maxThread, maxLen), ls)
    ensures
      var q := New(maxThread, maxLen);
      && Spec.Valid(Spec.Init(maxThread), ActionsOf(q, ls))
      && Spec.Final(Spec.Init(maxThread), ActionsOf(q, ls)) == Abs(Final(q, ls))
    ensures
      var s := Final(New(maxThread, maxLen), ls);
      V.PastWait(s.crew) ==>
        && multiset(s.crew.finished) == multiset(s.crew.starts) == multiset(s.crew.accepted)
        && Spec.Once(multiset(s.crew.starts)) && s.crew.starts == s.entered
  {
    var q := New(maxThread, maxLen);
    InitInv(maxThread, maxLen);
    RunKeeps(q, ls);
    RunRefines(q, ls);
    RunShape(q, ls);
    assert Abs(q) == Spec.Init(maxThread);
    var s := Final(q, ls);
    if V.PastWait(s.crew) { V.TerminatedMeans(s.crew, s.entered, ActionsOf(q, ls)); }
  }

  // Main results: what becomes of a Push call.

  const RUN := OfCrew(C.BeginRun)
  const TERMINATE := OfCrew(C.BeginTerminate)

  /** The calls so far include one of Run and none of Terminate. */
  predicate Started(ls: seq<Label>) { RUN in ls && TERMINATE !in ls }

  lemma {:induction false} CutRun(s: State, ls: seq<Label>, i: nat)
    requires Valid(s, ls) && i <= |ls|
    ensures Valid(s, ls[..i]) && Valid(Final(s, ls[..i]), ls[i..])
    ensures Final(s, ls) == Final(Final(s, ls[..i]), ls[i..])
    decreases |ls|
  {
    if i == 0 {
      assert ls[i..] == ls && ls[..i] == [];
    } else {
      CutRun(Apply(s, ls[0]), ls[1..], i - 1);
      assert ls[..i][0] == ls[0] && ls[..i][1..] == ls[1..][..i - 1];
      assert ls[i..] == ls[1..][i - 1..];
    }
  }

  /** Run is called once. */
  lemma {:induction false} RunsOnce(s: State, ls: seq<Label>)
    requires Valid(s, ls) && !s.crew.runner.Idle?
    ensures RUN !in ls
    decreases |ls|
  {
    if ls != [] {
      if ls[0].OfCrew? { C.StepFrame(s.crew, ls[0].l); }
      RunsOnce(Apply(s, ls[0]), ls[1..]);
    }
  }

  lemma RunningStep(s: State, l: Label)
    requires Enabled(s, l)
    ensures l == RUN ==> Apply(s, l).crew.running && !Apply(s, l).crew.runner.Idle?
    ensures l == TERMINATE ==> !Apply(s, l).crew.running && !Apply(s, l).crew.runner.Idle?
    ensures l != RUN && l != TERMINATE ==> Apply(s, l).crew.running == s.crew.running
  {
  }

  /** The running flag is what the calls of Run and Terminate say. */
  lemma {:induction false} RunningMeans(s: State, ls: seq<Label>)
    requires Valid(s, ls)
    ensures Final(s, ls).crew.running <==> (s.crew.running || RUN in ls) && TERMINATE !in ls
    decreases |ls|
  {
    if ls != [] {
      var t := Apply(s, ls[0]);
      RunningStep(s, ls[0]);
      RunningMeans(t, ls[1..]);
      if ls[0] == TERMINATE { RunsOnce(t, ls[1..]); }
    }
  }

  /** The Push call of j is past its running check and was not dropped. */
  predicate Taken(s: State, j: JobId) { j in s.checked || j in s.passed || j in s.crew.accepted }

  /** Step k is the length check of j's Push call, and finds the list longer than a positive maxLen. */
  ghost predicate DropsAt(s: State, ls: seq<Label>, k: nat, j: JobId)
    requires Valid(s, ls)
  {
    k < |ls| && ls[k] == LenCheck(j) && 0 < s.maxLen && (CutRun(s, ls, k); s.maxLen < |Final(s, ls[..k]).list|)
  }

  ghost predicate Dropped(s: State, ls: seq<Label>, j: JobId)
    requires Valid(s, ls)
  {
    exists k: nat :: DropsAt(s, ls, k, j)
  }

  lemma TakenStep(s: State, l: Label, j: JobId)
    requires Enabled(s, l) && l != PushCall(j)
    requires j in s.checked ==> j !in s.passed && j !in s.crew.accepted
    ensures Taken(Apply(s, l), j) <==> Taken(s, j) && !(l == LenCheck(j) && 0 < s.maxLen && s.maxLen < |s.list|)
    ensures Apply(s, l).maxLen == s.maxLen
  {
    if l.OfCrew? { C.StepFrame(s.crew, l.l); }
  }

  /** Where the Push call of j stands, and that j is known. */
  predicate CallKnown(s: State, j: JobId) {
    && (Taken(s, j) ==> j in s.calls)
    && (j in s.checked ==> j !in s.passed && j !in s.crew.accepted)
  }

  lemma CallKnownStep(s: State, l: Label, j: JobId)
    requires Enabled(s, l) && CallKnown(s, j)
    ensures CallKnown(Apply(s, l), j) && (j in s.calls ==> j in Apply(s, l).calls)
  {
    if l.OfCrew? { C.StepFrame(s.crew, l.l); }
  }

  lemma {:induction false} CallStaysKnown(s: State, ls: seq<Label>, j: JobId)
    requires Valid(s, ls) && CallKnown(s, j)
    ensures CallKnown(Final(s, ls), j) && Final(s, ls).maxLen == s.maxLen
    decreases |ls|
  {
    if ls != [] {
      CallKnownStep(s, ls[0], j);
      CallStaysKnown(Apply(s, ls[0]), ls[1..], j);
    }
  }

  lemma DroppedFirst(s: State, ls: seq<Label>, j: JobId)
    requires ls != [] && Valid(s, ls) && Apply(s, ls[0]).maxLen == s.maxLen
    ensures Dropped(s, ls, j) <==>
      (ls[0] == LenCheck(j) && 0 < s.maxLen && s.maxLen < |s.list|) || Dropped(Apply(s, ls[0]), ls[1..], j)
  {
    var t := Apply(s, ls[0]);
    forall k: nat | 0 < k < |ls| ensures DropsAt(s, ls, k, j) <==> DropsAt(t, ls[1..], k - 1, j) {
      CutRun(s, ls, k);
      assert ls[..k][1..] == ls[1..][..k - 1];
    }
    assert ls[..0] == [];
    assert DropsAt(s, ls, 0, j) <==> ls[0] == LenCheck(j) && 0 < s.maxLen && s.maxLen < |s.list|;
    if k: nat :| DropsAt(t, ls[1..], k, j) { assert DropsAt(s, ls, k + 1, j); }
    if k: nat :| DropsAt(s, ls, k, j) { assert k == 0 || DropsAt(t, ls[1..], k - 1, j); }
  }

  lemma {:induction false} TakenUnlessDropped(s: State, ls: seq<Label>, j: JobId)
    requires Valid(s, ls) && j in s.calls && CallKnown(s, j)
    ensures Taken(Final(s, ls), j) <==> Taken(s, j) && !Dropped(s, ls, j)
    decreases |ls|
  {
    if ls != [] {
      TakenStep(s, ls[0], j);
      CallKnownStep(s, ls[0], j);
      DroppedFirst(s, ls, j);
      TakenUnlessDropped(Apply(s, ls[0]), ls[1..], j);
    }
  }

  lemma {:induction false} PushFate(s: State, ls: seq<Label>, i: nat, j: JobId)
    requires Valid(s, ls) && i < |ls| && ls[i] == PushCall(j) && CallKnown(s, j)
    ensures j !in s.calls && Valid(s, ls[..i])
    ensures Taken(Final(s, ls), j) <==> Final(s, ls[..i]).crew.running && !Dropped(s, ls, j)
    decreases |ls|
  {
    var t := Apply(s, ls[0]);
    CutRun(s, ls, i);
    CallKnownStep(s, ls[0], j);
    assert t.maxLen == s.maxLen;
    DroppedFirst(s, ls, j);
    if i == 0 {
      assert ls[..i] == [];
      TakenUnlessDropped(t, ls[1..], j);
    } else {
      PushFate(t, ls[1..], i - 1, j);
      assert ls[..i][0] == ls[0] && ls[..i][1..] == ls[1..][..i - 1];
    }
  }

  /** Over every run: a Push call is taken, and from then on its job is before its wg.Add or accepted,
      if and only if the call comes after Run and before Terminate and its length check does not
      find the list longer than a positive maxLen. */
  lemma PushTakenExactly(maxThread: nat, maxLen: int, ls: seq<Label>, i: nat, j: JobId)
    requires Valid(New(maxThread, maxLen), ls) && i < |ls| && ls[i] == PushCall(j)
    ensures Taken(Final(New(maxThread, maxLen), ls), j) <==> Started(ls[..i]) && !Dropped(New(maxThread, maxLen), ls, j)
  {
    var q := New(maxThread, maxLen);
    CutRun(q, ls, i);
    PushFate(q, ls, i, j);
    RunningMeans(q, ls[..i]);
  }

  lemma ShutMeansNoneUnderWay(s: State)
    requires Inv(s) && V.PastWait(s.crew)
    ensures s.checked == {} && s.passed == {}
  {
  }

  /** In a clean run, once Wait has returned: the job of a Push call has finished, once, if and only
      if the call came after Run and before Terminate and was not dropped for the length of the
      list. With maxLen <= 0 none is dropped. */
  lemma PushedRunsOnceExactly(maxThread: nat, maxLen: int, ls: seq<Label>, i: nat, j: JobId)
    requires Valid(New(maxThread, maxLen), ls) && Clean(New(maxThread, maxLen), ls)
    requires V.PastWait(Final(New(maxThread, maxLen), ls).crew) && i < |ls| && ls[i] == PushCall(j)
    ensures
      var q := New(maxThread, maxLen);
      && multiset(Final(q, ls).crew.finished)[j] == (if Started(ls[..i]) && !Dropped(q, ls, j) then 1 else 0)
      && (maxLen <= 0 ==> !Dropped(q, ls, j))
  {
    var q := New(maxThread, maxLen);
    var s := Final(q, ls);
    PushTakenExactly(maxThread, maxLen, ls, i, j);
    InitInv(maxThread, maxLen);
    RunKeeps(q, ls);
    ShutMeansNoneUnderWay(s);
    RefinesQueuer(maxThread, maxLen, ls);
    V.FinishedOnce(s.crew, j);
  }

  /** The history of calls is what the labels say. */
  lemma {:induction false} CallsMeans(s: State, ls: seq<Label>, j: JobId)
    requires Valid(s, ls)
    ensures j in Final(s, ls).calls <==> j in s.calls || PushCall(j) in ls
    decreases |ls|
  {
    if ls != [] { CallsMeans(Apply(s, ls[0]), ls[1..], j); }
  }

  lemma LaunchStep(s: State, l: Label)
    requires Enabled(s, l)
    ensures l == OfCrew(C.LaunchDispatcher) ==> Apply(s, l).crew.runner.Launched?
    ensures l != OfCrew(C.LaunchDispatcher) ==> (Apply(s, l).crew.runner.Launched? <==> s.crew.runner.Launched?)
    ensures l == RUN ==> !Apply(s, l).crew.runner.Idle?
    ensures l != RUN ==> (Apply(s, l).crew.runner.Idle? <==> s.crew.runner.Idle?)
    ensures l == TERMINATE ==> !Apply(s, l).crew.term.NotCalled?
    ensures l != TERMINATE && !s.crew.term.Waiting? ==> (Apply(s, l).crew.term.NotCalled? <==> s.crew.term.NotCalled?)
    ensures s.crew.term.Waiting? ==> !Apply(s, l).crew.term.NotCalled?
  {
  }

  /** How far Run and Terminate are is what the labels say. */
  lemma {:induction false} PhasesMean(s: State, ls: seq<Label>)
    requires Valid(s, ls)
    ensures Final(s, ls).crew.runner.Launched? <==> s.crew.runner.Launched? || OfCrew(C.LaunchDispatcher) in ls
    ensures Final(s, ls).crew.runner.Idle? <==> s.crew.runner.Idle? && RUN !in ls
    ensures Final(s, ls).crew.term.NotCalled? <==> s.crew.term.NotCalled? && TERMINATE !in ls
    decreases |ls|
  {
    if ls != [] {
      LaunchStep(s, ls[0]);
      PhasesMean(Apply(s, ls[0]), ls[1..]);
    }
  }

  /** No call is ever refused: after every run that has not panicked Push can be called, Run if it was
      not, and Terminate once Run has returned, if it was not. */
  lemma CallsNeverRefused(maxThread: nat, maxLen: int, ls: seq<Label>, j: JobId)
    requires Valid(New(maxThread, maxLen), ls) && !Final(New(maxThread, maxLen), ls).crew.crashed
    ensures PushCall(j) !in ls ==> Valid(New(maxThread, maxLen), ls + [PushCall(j)])
    ensures RUN !in ls ==> Valid(New(maxThread, maxLen), ls + [RUN])
    ensures RUN in ls && OfCrew(C.LaunchDispatcher) in ls && TERMINATE !in ls ==>
      Valid(New(maxThread, maxLen), ls + [TERMINATE])
  {
    var q := New(maxThread, maxLen);
    CallsMeans(q, ls, j);
    PhasesMean(q, ls);
    RunningMeans(q, ls);
    if PushCall(j) !in ls { Snoc(q, ls, PushCall(j)); }
    if RUN !in ls { Snoc(q, ls, RUN); }
    if RUN in ls && OfCrew(C.LaunchDispatcher) in ls && TERMINATE !in ls { Snoc(q, ls, TERMINATE); }
  }

  // Main results: the workers act on their own.

  /** The steps of a worker that has been told to quit. */
  predicate Leaves(l: Label, w: nat) {
    l == OfCrew(C.Quit(w)) || l == OfCrew(C.Drain(w)) || l == OfCrew(C.CloseJobChan(w))
  }

  /** After a clean Wait a worker that has been told to quit leaves by its own steps, even while
      Terminate is still telling the others. */
  lemma {:induction false} StoppedWorkerLeaves(s: State, w: nat) returns (ls: seq<Label>)
    requires C.ShuttingDown(s.crew) && w < |s.crew.ws| && w < C.Stopped(s.crew)
    ensures Valid(s, ls) && (forall l :: l in ls ==> Leaves(l, w))
    ensures |Final(s, ls).crew.ws| == |s.crew.ws| && Final(s, ls).crew.ws[w].Exited?
    decreases s.crew.ws[w].Weight()
  {
    if s.crew.ws[w].Exited? { return []; }
    var cl := C.LeavingStep(s.crew, w);
    var l := OfCrew(cl);
    var rest := StoppedWorkerLeaves(Apply(s, l), w);
    ls := [l] + rest;
    assert ls[1..] == rest;
  }

  /** Run has started k workers; nothing else has happened. */
  predicate Begun(s: State, k: nat) {
    && !s.crew.crashed && s.crew.running && s.crew.runner == C.Starting(k) && s.crew.term.NotCalled?
    && |s.crew.pool| == k <= |s.crew.ws| && (forall w :: 0 <= w < k ==> s.crew.ws[w].Selecting?)
    && s.calls == {} && s.checked == {} && s.passed == {} && s.sending == {} && s.list == [] && s.d.Polling?
    && s.crew.hand.None?
  }

  lemma {:induction false} StartSome(q: State, ls: seq<Label>, k: nat) returns (ms: seq<Label>)
    requires Valid(q, ls) && Clean(q, ls) && Begun(Final(q, ls), 0) && k <= |Final(q, ls).crew.ws|
    ensures Valid(q, ms) && Clean(q, ms) && Begun(Final(q, ms), k)
    ensures |Final(q, ms).crew.ws| == |Final(q, ls).crew.ws|
    decreases k
  {
    ms := ls;
    if k > 0 {
      ms := StartSome(q, ls, k - 1);
      Snoc(q, ms, OfCrew(C.StartWorker)); ms := ms + [OfCrew(C.StartWorker)];
    }
  }

  /** k jobs run, and nothing else is under way. */
  ghost predicate Busy(s: State, k: nat) {
    && Inv(s) && Open(s) && !s.crew.crashed && s.crew.running && s.crew.runner.Launched? && s.crew.term.NotCalled?
    && C.OnlyRunning(s.crew) && |C.Held(s.crew.ws)| == k
    && s.checked == {} && s.passed == {} && s.sending == {} && s.list == [] && s.d.Polling? && s.crew.hand.None?
    && (forall j :: j in s.calls ==> j < k)
  }

  lemma NobodyBusy(maxThread: nat, maxLen: int) returns (ls: seq<Label>)
    ensures Valid(New(maxThread, maxLen), ls) && Clean(New(maxThread, maxLen), ls)
    ensures Busy(Final(New(maxThread, maxLen), ls), 0)
    ensures |Final(New(maxThread, maxLen), ls).crew.ws| == maxThread
  {
    ls := AllStarted(maxThread, maxLen);
    InitInv(maxThread, maxLen);
    RunKeeps(New(maxThread, maxLen), ls);
    Launches(New(maxThread, maxLen), ls);
    ls := ls + [OfCrew(C.LaunchDispatcher)];
  }

  lemma AllStarted(maxThread: nat, maxLen: int) returns (ls: seq<Label>)
    ensures Valid(New(maxThread, maxLen), ls) && Clean(New(maxThread, maxLen), ls)
    ensures Begun(Final(New(maxThread, maxLen), ls), maxThread)
    ensures |Final(New(maxThread, maxLen), ls).crew.ws| == maxThread
  {
    var q := New(maxThread, maxLen);
    ls := [];
    Snoc(q, ls, RUN); ls := ls + [RUN];
    ls := StartSome(q, ls, maxThread);
  }

  lemma Launches(q: State, ls: seq<Label>)
    requires Valid(q, ls) && Clean(q, ls) && Inv(Final(q, ls)) && Begun(Final(q, ls), |Final(q, ls).crew.ws|)
    ensures
      var ms := ls + [OfCrew(C.LaunchDispatcher)];
      && Valid(q, ms) && Clean(q, ms) && Busy(Final(q, ms), 0)
      && |Final(q, ms).crew.ws| == |Final(q, ls).crew.ws|
  {
    var s := Final(q, ls);
    Snoc(q, ls, OfCrew(C.LaunchDispatcher));
    CrewStepKeeps(s, C.LaunchDispatcher);
    IdleIsBusy(s);
  }

  lemma IdleIsBusy(s: State)
    requires Begun(s, |s.crew.ws|) && Inv(Apply(s, OfCrew(C.LaunchDispatcher)))
    ensures Busy(Apply(s, OfCrew(C.LaunchDispatcher)), 0)
  {
    C.HeldNone(s.crew.ws);
    OpenWhenNotCalled(Apply(s, OfCrew(C.LaunchDispatcher)));
  }

  lemma OpenWhenNotCalled(s: State)
    requires Inv(s) && s.crew.term.NotCalled?
    ensures Open(s)
  {
  }

  /** One more job comes into the list. */
  lemma OneListed(q: State, ls: seq<Label>, j: JobId) returns (ms: seq<Label>)
    requires Valid(q, ls) && Clean(q, ls)
    requires
      var s := Final(q, ls);
      && !s.crew.crashed && s.crew.running && j !in s.calls
      && s.checked == {} && s.passed == {} && s.sending == {} && s.list == []
    ensures Valid(q, ms) && Clean(q, ms)
    ensures
      var s, t := Final(q, ls), Final(q, ms);
      && t.crew == C.Accept(s.crew, j) && t.calls == s.calls + {j} && t.d == s.d
      && t.checked == {} && t.passed == {} && t.sending == {} && t.list == [j]
  {
    ms := ls;
    Snoc(q, ms, PushCall(j)); ms := ms + [PushCall(j)];
    Snoc(q, ms, LenCheck(j)); ms := ms + [LenCheck(j)];
    Snoc(q, ms, Add(j)); ms := ms + [Add(j)];
    Snoc(q, ms, PushBack(j)); ms := ms + [PushBack(j)];
  }

  /** The job in front is given to a waiting worker, and runs. */
  lemma OneStarts(q: State, ls: seq<Label>) returns (ms: seq<Label>)
    requires Valid(q, ls) && Clean(q, ls)
    requires
      var s := Final(q, ls);
      && !s.crew.crashed && s.crew.runner.Launched? && s.d.Polling? && |s.list| == 1 && s.crew.hand.None?
      && s.crew.pool != [] && s.crew.pool[0] < |s.crew.ws| && s.crew.ws[s.crew.pool[0]].Selecting?
    ensures Valid(q, ms) && Clean(q, ms)
    ensures
      var s, t := Final(q, ls), Final(q, ms);
      t == s.(crew := C.HandOff(C.TakeToken(s.crew), s.list[0]), list := [])
  {
    ms := ls;
    Snoc(q, ms, Peek); ms := ms + [Peek];
    Snoc(q, ms, Take); ms := ms + [Take];
    Snoc(q, ms, HandOff); ms := ms + [HandOff];
    Snoc(q, ms, Remove); ms := ms + [Remove];
  }

  lemma AcceptRunning(c: C.Crew, j: JobId)
    ensures C.Accept(c, j).ws == c.ws && C.Accept(c, j).pool == c.pool && C.Accept(c, j).hand == c.hand
  {
  }

  lemma OneMoreBusy(maxThread: nat, maxLen: int, ls: seq<Label>, k: nat) returns (ms: seq<Label>)
    requires Valid(New(maxThread, maxLen), ls) && Clean(New(maxThread, maxLen), ls)
    requires Busy(Final(New(maxThread, maxLen), ls), k) && k < |Final(New(maxThread, maxLen), ls).crew.ws|
    ensures Valid(New(maxThread, maxLen), ms) && Clean(New(maxThread, maxLen), ms)
    ensures Busy(Final(New(maxThread, maxLen), ms), k + 1)
    ensures |Final(New(maxThread, maxLen), ms).crew.ws| == |Final(New(maxThread, maxLen), ls).crew.ws|
  {
    var q := New(maxThread, maxLen);
    var s := Final(q, ls);
    C.TokenLeft(s.crew);
    ms := OneListed(q, ls, k);
    AcceptRunning(s.crew, k);
    ms := OneStarts(q, ms);
    InitInv(maxThread, maxLen);
    RunKeeps(q, ms);
    BusyMore(s, Final(q, ms), k);
  }

  lemma BusyMore(s: State, t: State, k: nat)
    requires Busy(s, k) && s.crew.pool != [] && s.crew.pool[0] < |s.crew.ws| && s.crew.ws[s.crew.pool[0]].Selecting?
    requires Inv(t) && t.crew == C.HandOff(C.TakeToken(C.Accept(s.crew, k)), k) && t.calls == s.calls + {k}
    requires t.checked == {} && t.passed == {} && t.sending == {} && t.list == [] && t.d.Polling?
    ensures Busy(t, k + 1)
  {
    C.RunsOneMore(s.crew, s.crew.pool[0], k);
  }

  /** All workers can be busy at once. */
  lemma AllWorkersBusy(maxThread: nat, maxLen: int) returns (ls: seq<Label>)
    ensures Valid(New(maxThread, maxLen), ls) && |C.Held(Final(New(maxThread, maxLen), ls).crew.ws)| == maxThread
  {
    ls := NobodyBusy(maxThread, maxLen);
    for k := 0 to maxThread
      invariant Valid(New(maxThread, maxLen), ls) && Clean(New(maxThread, maxLen), ls)
      invariant Busy(Final(New(maxThread, maxLen), ls), k)
      invariant |Final(New(maxThread, maxLen), ls).crew.ws| == maxThread
    {
      ls := OneMoreBusy(maxThread, maxLen, ls, k);
    }
  }
}
