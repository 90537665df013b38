/** The part of both job queues that they share: the N workers of internal/queue/worker.go,
    the pool channel of worker tokens, the WaitGroup, and the Run and Terminate sequences.

    The goroutines are modelled as one labelled transition system over values. A label is one
    channel, lock or WaitGroup operation of one goroutine; a goroutine that would block is one
    whose label is not enabled; a Go panic sets `crashed`, after which nothing is enabled. */
module Crew {

  import opened Jobs

  /** Where a worker goroutine is in `worker.dispatcher`. */
  datatype WorkerPc =
    | NotStarted
    | Selecting            // at the select statement
    | Running(job: JobId)  // inside j.Job()
    | Ran(job: JobId)      // about to send its token to the pool
    | Returned(job: JobId) // token sent, about to call wg.Done
    | Quitting             // saw quit closed, about to receive from the pool
    | Drained              // about to close its job channel
    | Exited               // job channel closed
  {
    predicate HasJob() { Running? || Ran? || Returned? }

    predicate OwnsToken() { Running? || Ran? }

    predicate Leaving() { Quitting? || Drained? || Exited? }

    predicate TookLast() { Drained? || Exited? }

    ghost function Jobs(): multiset<JobId> {
      if HasJob() then multiset{job} else multiset{}
    }

    /** Operations this worker can still perform without receiving a job. */
    function Weight(): nat {
      match this
      case Exited => 0
      case Drained => 1
      case Quitting => 2
      case Selecting => 3
      case Returned(_) => 4
      case NotStarted => 4
      case Ran(_) => 5
      case Running(_) => 6
    }
  }

  datatype RunnerPc = Idle | Starting(next: nat) | Launched

  datatype TerminatorPc = NotCalled | Waiting | Closing | Stopping(next: nat) | Ended

  /** `ws` is the workers slice, `hand` the token the queue's dispatcher holds. The sequences
      `accepted`, `starts` and `finished` are histories: the jobs in the order of wg.Add, of
      hand-off to a worker, and of wg.Done. */
  datatype Crew = Crew(
    ws: seq<WorkerPc>,
    pool: seq<nat>,
    poolClosed: bool,
    hand: Option<nat>,
    wg: int,
    running: bool,
    runner: RunnerPc,
    term: TerminatorPc,
    accepted: seq<JobId>,
    starts: seq<JobId>,
    finished: seq<JobId>,
    crashed: bool)

  function New(maxThread: nat): Crew {
    Crew(seq(maxThread, _ => NotStarted), [], false, None, 0, false, Idle, NotCalled, [], [], [], false)
  }

  /** The steps that do not involve the queue in front of the workers. */
  datatype Label =
    | BeginRun | StartWorker | LaunchDispatcher
    | JobReturns(w: nat) | GiveToken(w: nat) | Done(w: nat)
    | BeginTerminate | StopWorker | ClosePool
    | Quit(w: nat) | Drain(w: nat) | CloseJobChan(w: nat)

  function Stopped(c: Crew): nat {
    match c.term
    case Stopping(i) => i
    case Ended => |c.ws|
    case _ => 0
  }

  predicate Enabled(c: Crew, l: Label) {
    !c.crashed &&
    match l
    case BeginRun => c.runner.Idle?
    case StartWorker => c.runner.Starting? && c.runner.next < |c.ws| && |c.pool| < |c.ws|
    case LaunchDispatcher => c.runner.Starting? && |c.ws| <= c.runner.next
    case JobReturns(w) => w < |c.ws| && c.ws[w].Running?
    case GiveToken(w) => w < |c.ws| && c.ws[w].Ran? && (c.poolClosed || |c.pool| < |c.ws|)
    case Done(w) => w < |c.ws| && c.ws[w].Returned?
    case BeginTerminate => c.runner.Launched? && c.running && c.term.NotCalled?
    case StopWorker => c.term.Stopping? && c.term.next < |c.ws|
    case ClosePool => c.term.Stopping? && |c.ws| <= c.term.next
    case Quit(w) => w < |c.ws| && c.ws[w].Selecting? && w < Stopped(c)
    case Drain(w) => w < |c.ws| && c.ws[w].Quitting? && (c.pool != [] || c.poolClosed)
    case CloseJobChan(w) => w < |c.ws| && c.ws[w].Drained?
  }

  function Apply(c: Crew, l: Label): Crew
    requires Enabled(c, l)
  {
    match l
    case BeginRun => c.(running := true, runner := Starting(0))
    case StartWorker =>
      var i := c.runner.next;
      c.(pool := c.pool + [i], ws := c.ws[i := Selecting], runner := Starting(i + 1))
    case LaunchDispatcher => c.(runner := Launched)
    case JobReturns(w) => c.(ws := c.ws[w := Ran(c.ws[w].job)])
    case GiveToken(w) =>
      if c.poolClosed then c.(crashed := true)
      else c.(pool := c.pool + [w], ws := c.ws[w := Returned(c.ws[w].job)])
    case Done(w) =>
      if c.wg <= 0 then c.(crashed := true)
      else c.(wg := c.wg - 1, finished := c.finished + [c.ws[w].job], ws := c.ws[w := Selecting])
    case BeginTerminate => c.(running := false, term := Waiting)
    case StopWorker => c.(term := Stopping(c.term.next + 1))
    case ClosePool => c.(poolClosed := true, term := Ended)
    case Quit(w) => c.(ws := c.ws[w := Quitting])
    case Drain(w) =>
      c.(pool := if c.pool == [] then [] else c.pool[1..], ws := c.ws[w := Drained])
    case CloseJobChan(w) => c.(ws := c.ws[w := Exited])
  }

  /** What the workers, Run and Terminate never touch. */
  lemma StepFrame(c: Crew, l: Label)
    requires Enabled(c, l)
    ensures
      var d := Apply(c, l);
      && d.accepted == c.accepted && d.starts == c.starts && d.hand == c.hand && |d.ws| == |c.ws|
      && (d.running ==> c.running || l.BeginRun?)
      && (d.runner.Idle? ==> c.runner.Idle?)
      && (c.runner.Launched? ==> d.runner.Launched?)
      && (c.term.Closing? <==> d.term.Closing?)
      && (c.term.NotCalled? && !l.BeginTerminate? ==> d.term.NotCalled?)
      && (d.term.Waiting? ==> c.term.Waiting? || l.BeginTerminate?)
      && ((c.term.Stopping? || c.term.Ended?) <==> (d.term.Stopping? || d.term.Ended?))
      && (l.Done? && !d.crashed ==> d.finished == c.finished + [c.ws[l.w].job])
      && (!l.Done? ==> d.finished == c.finished)
  {
  }

  // The steps the queue in front takes on the shared state.

  /** A pusher's wg.Add(1). */
  function Accept(c: Crew, j: JobId): Crew {
    c.(wg := c.wg + 1, accepted := c.accepted + [j])
  }

  predicate CanTake(c: Crew) { !c.crashed && c.hand.None? && c.pool != [] }

  /** The dispatcher's receive from the pool. */
  function TakeToken(c: Crew): Crew
    requires CanTake(c)
  {
    c.(hand := Some(c.pool[0]), pool := c.pool[1..])
  }

  predicate CanHandOff(c: Crew) {
    !c.crashed && c.hand.Some? && c.hand.value < |c.ws| &&
    (c.ws[c.hand.value].Selecting? || c.ws[c.hand.value].Exited?)
  }

  /** The dispatcher's send on a worker's unbuffered job channel. */
  function HandOff(c: Crew, j: JobId): Crew
    requires CanHandOff(c)
  {
    var w := c.hand.value;
    if c.ws[w].Exited? then c.(crashed := true)
    else c.(hand := None, ws := c.ws[w := Running(j)], starts := c.starts + [j])
  }

  predicate CanReturnFromWait(c: Crew) { !c.crashed && c.term.Waiting? && c.wg == 0 }

  function ReturnFromWait(c: Crew, next: TerminatorPc): Crew { c.(term := next) }

  // Jobs and tokens.

  /** The jobs the workers hold. */
  ghost function Held(ws: seq<WorkerPc>): multiset<JobId> {
    if ws == [] then multiset{} else Held(ws[..|ws| - 1]) + ws[|ws| - 1].Jobs()
  }

  lemma AddBoth(a: multiset<JobId>, b: multiset<JobId>, x: multiset<JobId>, y: multiset<JobId>, m: multiset<JobId>)
    requires a + x == b + y
    ensures a + m + x == b + m + y
  {
    assert a + m + x == a + x + m;
    assert b + m + y == b + y + m;
  }

  lemma {:induction false} HeldUpdate(ws: seq<WorkerPc>, i: nat, x: WorkerPc)
    requires i < |ws|
    ensures Held(ws[i := x]) + ws[i].Jobs() == Held(ws) + x.Jobs()
  {
    var n := |ws| - 1;
    var vs := ws[i := x];
    if i == n {
      assert vs[..n] == ws[..n];
      assert Held(ws[..n]) + x.Jobs() + ws[i].Jobs() == Held(ws[..n]) + ws[i].Jobs() + x.Jobs();
    } else {
      HeldUpdate(ws[..n], i, x);
      assert vs[..n] == ws[..n][i := x];
      AddBoth(Held(vs[..n]), Held(ws[..n]), ws[i].Jobs(), x.Jobs(), ws[n].Jobs());
    }
  }

  lemma HeldSame(ws: seq<WorkerPc>, i: nat, x: WorkerPc)
    requires i < |ws| && x.Jobs() == ws[i].Jobs()
    ensures Held(ws[i := x]) == Held(ws)
  {
    HeldUpdate(ws, i, x);
    Cancel(Held(ws[i := x]), Held(ws), x.Jobs());
  }

  lemma HeldGain(ws: seq<WorkerPc>, i: nat, x: WorkerPc)
    requires i < |ws| && !ws[i].HasJob()
    ensures Held(ws[i := x]) == Held(ws) + x.Jobs()
  {
    HeldUpdate(ws, i, x);
  }

  lemma HeldLoss(ws: seq<WorkerPc>, i: nat, x: WorkerPc)
    requires i < |ws| && !x.HasJob()
    ensures Held(ws) == Held(ws[i := x]) + ws[i].Jobs()
  {
    HeldUpdate(ws, i, x);
  }

  lemma Cancel(a: multiset<JobId>, b: multiset<JobId>, m: multiset<JobId>)
    requires a + m == b + m
    ensures a == b
  {
    assert a + m - m == a && b + m - m == b;
  }

  lemma {:induction false} HeldBound(ws: seq<WorkerPc>, i: nat)
    requires i < |ws|
    ensures |Held(ws)| <= |ws|
    ensures !ws[i].HasJob() ==> |Held(ws)| < |ws|
    ensures ws[i].HasJob() ==> 0 < |Held(ws)|
  {
    var n := |ws| - 1;
    if 0 < n {
      HeldBound(ws[..n], if i == n then 0 else i);
    }
  }

  lemma {:induction false} HeldNone(ws: seq<WorkerPc>)
    requires forall w :: 0 <= w < |ws| ==> !ws[w].HasJob()
    ensures Held(ws) == multiset{}
  {
    if ws != [] { HeldNone(ws[..|ws| - 1]); }
  }

  ghost function Owners(c: Crew): set<nat> {
    set w: nat | w < |c.ws| && c.ws[w].OwnsToken()
  }

  ghost function HandToken(c: Crew): multiset<nat> {
    if c.hand.Some? then multiset{c.hand.value} else multiset{}
  }

  ghost function UpTo(k: nat): (r: set<nat>)
    ensures forall w: nat :: w in r <==> w < k
    ensures |r| == k
  {
    if k == 0 then {} else UpTo(k - 1) + {k - 1}
  }

  ghost function Started(c: Crew): nat {
    match c.runner
    case Idle => 0
    case Starting(i) => i
    case Launched => |c.ws|
  }

  /** Every started worker's token is in exactly one place: the pool, the dispatcher's hand, or
      the worker itself while it has a job and has not given the token back. */
  ghost predicate TokensConserved(c: Crew) {
    multiset(c.pool) + HandToken(c) + multiset(Owners(c)) == multiset(UpTo(Started(c)))
  }

  /** A job handed to a worker is either still with a worker or finished. */
  ghost predicate JobsConserved(c: Crew) {
    multiset(c.starts) == Held(c.ws) + multiset(c.finished)
  }

  /** What holds until Wait returns. */
  ghost predicate Working(c: Crew) {
    && PcsAgree(c)
    && TokensConserved(c)
    && JobsConserved(c)
  }

  ghost predicate PcsAgree(c: Crew) {
    && !c.crashed && !c.poolClosed
    && (c.term.NotCalled? || c.term.Waiting?)
    && (c.running <==> !c.runner.Idle? && c.term.NotCalled?)
    && (c.term.Waiting? ==> c.runner.Launched?)
    && Started(c) <= |c.ws|
    && (c.hand.Some? ==> c.runner.Launched?)
    && (forall w :: 0 <= w < |c.ws| ==>
          !c.ws[w].Leaving() && (c.ws[w].NotStarted? <==> Started(c) <= w))
    && c.wg == |c.accepted| - |c.finished|
  }

  ghost function Unspent(c: Crew): set<nat> {
    set w: nat | w < |c.ws| && !c.ws[w].TookLast()
  }

  /** What holds after Wait returned with no Push under way. */
  ghost predicate ShuttingDown(c: Crew) {
    && !c.crashed && !c.running
    && c.runner.Launched? && c.hand.None?
    && !c.term.NotCalled? && !c.term.Waiting?
    && Stopped(c) <= |c.ws|
    && (c.poolClosed <==> c.term.Ended?)
    && c.wg == 0 && |c.accepted| == |c.finished|
    && multiset(c.starts) == multiset(c.finished)
    && |c.pool| == |Unspent(c)|
    && (forall w :: 0 <= w < |c.ws| ==>
          (c.ws[w].Selecting? || c.ws[w].Leaving()) && (c.ws[w].Leaving() ==> w < Stopped(c)))
  }

  ghost predicate Ok(c: Crew) { Working(c) || ShuttingDown(c) }

  lemma NewIsWorking(n: nat)
    ensures Working(New(n))
  {
    HeldNone(New(n).ws);
    assert Owners(New(n)) == {};
  }

  // Facts about tokens.

  lemma TokenPlaces(c: Crew)
    requires Working(c)
    ensures |c.pool| <= Started(c)
    ensures forall w :: 0 <= w < |c.ws| && c.ws[w].OwnsToken() ==> w !in c.pool && c.hand != Some(w)
    ensures forall w :: 0 <= w < |c.ws| && c.ws[w].OwnsToken() ==> |c.pool| < |c.ws|
    ensures forall t :: t in c.pool || c.hand == Some(t) ==> t < Started(c)
    ensures |multiset(c.pool)| + |HandToken(c)| + |Owners(c)| == Started(c)
  {
    var k := Started(c);
    assert |multiset(UpTo(k))| == k;
    assert |multiset(Owners(c))| == |Owners(c)|;
    forall w | 0 <= w < |c.ws| && c.ws[w].OwnsToken()
      ensures w !in c.pool && c.hand != Some(w) && |c.pool| < |c.ws|
    {
      assert w in Owners(c);
      assert multiset(Owners(c))[w] == 1;
      assert multiset(UpTo(k))[w] <= 1;
      assert multiset(c.pool)[w] == 0 && HandToken(c)[w] == 0;
      assert 0 < |Owners(c)|;
    }
    forall t | t in c.pool || c.hand == Some(t) ensures t < k {
      assert t in multiset(c.pool) || t in HandToken(c);
      assert multiset(UpTo(k))[t] > 0;
      assert t in UpTo(k);
    }
  }

  /** How many places hold the token of worker w. */
  ghost function TokenPlacesOf(c: Crew, w: nat): nat {
    multiset(c.pool)[w]
    + (if c.hand == Some(w) then 1 else 0)
    + (if w < |c.ws| && c.ws[w].OwnsToken() then 1 else 0)
  }

  lemma TokenInOnePlace(c: Crew, w: nat)
    requires Working(c) && w < Started(c)
    ensures TokenPlacesOf(c, w) == 1
  {
    assert multiset(UpTo(Started(c)))[w] == 1;
    assert multiset(Owners(c))[w] == if c.ws[w].OwnsToken() then 1 else 0;
    assert HandToken(c)[w] == if c.hand == Some(w) then 1 else 0;
  }

  /** At most as many jobs are with workers as there are workers. */
  lemma BoundedConcurrency(c: Crew)
    requires Working(c)
    ensures |c.starts| - |c.finished| == |Held(c.ws)| <= |c.ws|
  {
    if c.ws != [] { HeldBound(c.ws, 0); }
    assert |multiset(c.starts)| == |Held(c.ws)| + |multiset(c.finished)|;
  }

  // Every step keeps the invariant.

  lemma Regroup(p: multiset<nat>, h: multiset<nat>, o: multiset<nat>, x: multiset<nat>)
    ensures (p + x) + h + o == p + h + (o + x)
    ensures (p + x) + h + o == p + (h + x) + o
    ensures p + h + o + x == (p + x) + h + o
  {
  }

  lemma SameTokens(c: Crew, d: Crew)
    requires TokensConserved(c)
    requires d.pool == c.pool && d.hand == c.hand && Started(d) == Started(c)
    requires |d.ws| == |c.ws|
    requires forall w :: 0 <= w < |c.ws| ==> d.ws[w].OwnsToken() == c.ws[w].OwnsToken()
    ensures TokensConserved(d)
  {
    assert Owners(d) == Owners(c);
  }

  lemma SameJobs(c: Crew, d: Crew, w: nat, x: WorkerPc)
    requires JobsConserved(c) && w < |c.ws| && x.Jobs() == c.ws[w].Jobs()
    requires d.ws == c.ws[w := x] && d.starts == c.starts && d.finished == c.finished
    ensures JobsConserved(d)
  {
    HeldSame(c.ws, w, x);
  }

  lemma StartWorkerTokens(c: Crew)
    requires Working(c) && Enabled(c, StartWorker)
    ensures TokensConserved(Apply(c, StartWorker))
  {
    var d := Apply(c, StartWorker);
    var i := c.runner.next;
    assert Owners(d) == Owners(c);
    assert multiset(UpTo(i + 1)) == multiset(UpTo(i)) + multiset{i};
    assert multiset(d.pool) == multiset(c.pool) + multiset{i};
    Regroup(multiset(c.pool), HandToken(c), multiset(Owners(c)), multiset{i});
  }

  lemma StartWorkerKeeps(c: Crew)
    requires Working(c) && Enabled(c, StartWorker)
    ensures Working(Apply(c, StartWorker))
  {
    SameJobs(c, Apply(c, StartWorker), c.runner.next, Selecting);
    StartWorkerTokens(c);
  }

  lemma JobReturnsKeeps(c: Crew, w: nat)
    requires Working(c) && Enabled(c, JobReturns(w))
    ensures Working(Apply(c, JobReturns(w)))
  {
    var d := Apply(c, JobReturns(w));
    SameJobs(c, d, w, d.ws[w]);
    SameTokens(c, d);
    JobReturnsPcs(c, w);
  }

  lemma JobReturnsPcs(c: Crew, w: nat)
    requires PcsAgree(c) && Enabled(c, JobReturns(w))
    ensures PcsAgree(Apply(c, JobReturns(w)))
  {
  }

  lemma GiveTokenTokens(c: Crew, w: nat)
    requires TokensConserved(c) && Enabled(c, GiveToken(w)) && !c.poolClosed
    ensures TokensConserved(Apply(c, GiveToken(w)))
  {
    var d := Apply(c, GiveToken(w));
    assert w in Owners(c) && Owners(d) == Owners(c) - {w};
    assert multiset(Owners(c)) == multiset(Owners(d)) + multiset{w};
    assert multiset(d.pool) == multiset(c.pool) + multiset{w};
    Regroup(multiset(c.pool), HandToken(c), multiset(Owners(d)), multiset{w});
  }

  lemma GiveTokenKeeps(c: Crew, w: nat)
    requires Working(c) && Enabled(c, GiveToken(w))
    ensures Working(Apply(c, GiveToken(w)))
  {
    GiveTokenJobs(c, w);
    GiveTokenTokens(c, w);
    GiveTokenPcs(c, w);
  }

  lemma GiveTokenJobs(c: Crew, w: nat)
    requires JobsConserved(c) && Enabled(c, GiveToken(w)) && !c.poolClosed
    ensures JobsConserved(Apply(c, GiveToken(w)))
  {
    SameJobs(c, Apply(c, GiveToken(w)), w, Returned(c.ws[w].job));
  }

  lemma GiveTokenPcs(c: Crew, w: nat)
    requires PcsAgree(c) && Enabled(c, GiveToken(w))
    ensures PcsAgree(Apply(c, GiveToken(w)))
  {
  }

  lemma DoneJobs(c: Crew, d: Crew, w: nat)
    requires JobsConserved(c) && w < |c.ws| && c.ws[w].HasJob()
    requires d.ws == c.ws[w := Selecting] && d.starts == c.starts && d.finished == c.finished + [c.ws[w].job]
    ensures JobsConserved(d)
  {
    var j := multiset{c.ws[w].job};
    HeldLoss(c.ws, w, Selecting);
    assert multiset(d.finished) == multiset(c.finished) + j;
    Regroup(Held(d.ws), multiset{}, multiset(c.finished), j);
  }

  lemma DonePcs(c: Crew, w: nat)
    requires PcsAgree(c) && Enabled(c, Done(w)) && 0 < c.wg
    ensures PcsAgree(Apply(c, Done(w)))
  {
  }

  lemma DoneTokens(c: Crew, w: nat)
    requires TokensConserved(c) && Enabled(c, Done(w)) && 0 < c.wg
    ensures TokensConserved(Apply(c, Done(w)))
  {
    SameTokens(c, Apply(c, Done(w)));
  }

  lemma DoneKeeps(c: Crew, w: nat)
    requires Working(c) && Enabled(c, Done(w))
    requires |c.starts| <= |c.accepted|
    ensures Working(Apply(c, Done(w)))
  {
    DonePositive(c, w);
    DoneJobs(c, Apply(c, Done(w)), w);
    DoneTokens(c, w);
    DonePcs(c, w);
  }

  lemma DonePositive(c: Crew, w: nat)
    requires Working(c) && w < |c.ws| && c.ws[w].HasJob() && |c.starts| <= |c.accepted|
    ensures 0 < c.wg
  {
    HeldBound(c.ws, w);
    assert |multiset(c.starts)| == |Held(c.ws)| + |multiset(c.finished)|;
  }

  /** A job whose worker is about to call Done was started once more often than it finished. */
  lemma UnfinishedWithWorker(c: Crew, w: nat)
    requires JobsConserved(c) && w < |c.ws| && c.ws[w].HasJob()
    ensures multiset(c.finished)[c.ws[w].job] < multiset(c.starts)[c.ws[w].job]
  {
    HeldLoss(c.ws, w, Selecting);
  }

  lemma RoomForStart(c: Crew, w: nat)
    requires JobsConserved(c) && w < |c.ws| && !c.ws[w].HasJob()
    ensures |c.starts| < |c.finished| + |c.ws|
  {
    HeldBound(c.ws, w);
    assert |multiset(c.starts)| == |Held(c.ws)| + |multiset(c.finished)|;
  }

  /** Before Wait returns, no step of the workers, of Run or of Terminate breaks the invariant;
      in particular none of them panics. */
  lemma WorkingKept(c: Crew, l: Label)
    requires Working(c) && Enabled(c, l) && |c.starts| <= |c.accepted|
    ensures Working(Apply(c, l))
  {
    match l
    case BeginRun => SameTokens(c, Apply(c, l));
    case StartWorker => StartWorkerKeeps(c);
    case LaunchDispatcher => SameTokens(c, Apply(c, l));
    case JobReturns(w) => JobReturnsKeeps(c, w);
    case GiveToken(w) => GiveTokenKeeps(c, w);
    case Done(w) => DoneKeeps(c, w);
    case BeginTerminate => SameTokens(c, Apply(c, l));
    case _ =>
  }

  lemma TakeTokenKeeps(c: Crew)
    requires Working(c) && CanTake(c) && c.runner.Launched?
    ensures Working(TakeToken(c))
  {
    var d := TakeToken(c);
    var t := c.pool[0];
    assert c.pool == [t] + d.pool;
    assert multiset(c.pool) == multiset(d.pool) + multiset{t};
    assert Owners(d) == Owners(c);
    Regroup(multiset(d.pool), HandToken(c), multiset(Owners(c)), multiset{t});
    assert HandToken(d) == HandToken(c) + multiset{t};
  }

  lemma HandOffJobs(c: Crew, j: JobId)
    requires Working(c) && CanHandOff(c)
    ensures JobsConserved(HandOff(c, j))
  {
    HeldGain(c.ws, c.hand.value, Running(j));
    assert multiset(HandOff(c, j).starts) == multiset(c.starts) + multiset{j};
    Regroup(Held(c.ws), multiset{}, multiset(c.finished), multiset{j});
  }

  lemma HandOffTokens(c: Crew, j: JobId)
    requires Working(c) && CanHandOff(c)
    ensures TokensConserved(HandOff(c, j))
  {
    var w := c.hand.value;
    var d := HandOff(c, j);
    assert Owners(d) == Owners(c) + {w} && w !in Owners(c);
    assert multiset(Owners(d)) == multiset(Owners(c)) + multiset{w};
    assert HandToken(c) == HandToken(d) + multiset{w};
    Regroup(multiset(c.pool), HandToken(d), multiset(Owners(c)), multiset{w});
  }

  lemma HandOffKeeps(c: Crew, j: JobId)
    requires Working(c) && CanHandOff(c)
    ensures Working(HandOff(c, j))
  {
    HandOffJobs(c, j);
    HandOffTokens(c, j);
  }

  lemma AcceptKeeps(c: Crew, j: JobId)
    requires Working(c)
    ensures Working(Accept(c, j))
  {
    SameTokens(c, Accept(c, j));
  }

  /** The step from the one invariant to the other: when the count is zero and nothing waits in
      front of the workers, every token is back in the pool, because a worker sends its token
      before it calls Done. */
  lemma WaitReturnsClean(c: Crew, next: TerminatorPc)
    requires Working(c) && CanReturnFromWait(c)
    requires |c.starts| == |c.accepted| && c.hand.None?
    requires next == Closing || next == Stopping(0)
    ensures ShuttingDown(ReturnFromWait(c, next))
    ensures |c.pool| == |c.ws|
    ensures forall w: nat :: w < |c.ws| ==> w in c.pool
  {
    NobodyWorks(c);
    TokensHome(c);
    assert Unspent(ReturnFromWait(c, next)) == UpTo(|c.ws|);
    StartsDone(c);
  }

  lemma NobodyWorks(c: Crew)
    requires JobsConserved(c) && PcsAgree(c) && c.runner.Launched? && c.wg == 0 && |c.starts| == |c.accepted|
    ensures Held(c.ws) == multiset{} && forall w :: 0 <= w < |c.ws| ==> c.ws[w].Selecting?
  {
    assert |multiset(c.starts)| == |Held(c.ws)| + |multiset(c.finished)|;
    forall w | 0 <= w < |c.ws| ensures c.ws[w].Selecting? {
      HeldBound(c.ws, w);
    }
  }

  lemma TokensHome(c: Crew)
    requires TokensConserved(c) && c.hand.None? && c.runner.Launched?
    requires forall w :: 0 <= w < |c.ws| ==> c.ws[w].Selecting?
    ensures |c.pool| == |c.ws| && forall w: nat :: w < |c.ws| ==> w in c.pool
  {
    assert Owners(c) == {};
    assert multiset(c.pool) == multiset(UpTo(|c.ws|));
    assert |multiset(c.pool)| == |UpTo(|c.ws|)|;
    forall w: nat | w < |c.ws| ensures w in c.pool {
      assert w in UpTo(|c.ws|);
      assert w in multiset(c.pool);
    }
  }

  lemma StartsDone(c: Crew)
    requires JobsConserved(c) && Held(c.ws) == multiset{}
    ensures multiset(c.starts) == multiset(c.finished)
  {
  }

  lemma UnspentAt(c: Crew, d: Crew, w: nat)
    requires w < |c.ws| && |d.ws| == |c.ws| && d.ws == c.ws[w := d.ws[w]]
    ensures d.ws[w].TookLast() == c.ws[w].TookLast() ==> Unspent(d) == Unspent(c)
    ensures d.ws[w].TookLast() && !c.ws[w].TookLast() ==> w in Unspent(c) && Unspent(d) == Unspent(c) - {w}
  {
  }

  lemma QuitKept(c: Crew, w: nat)
    requires ShuttingDown(c) && Enabled(c, Quit(w))
    ensures ShuttingDown(Apply(c, Quit(w)))
  {
    UnspentAt(c, Apply(c, Quit(w)), w);
  }

  lemma DrainKept(c: Crew, w: nat)
    requires ShuttingDown(c) && Enabled(c, Drain(w))
    ensures ShuttingDown(Apply(c, Drain(w)))
  {
    UnspentAt(c, Apply(c, Drain(w)), w);
  }

  lemma CloseJobChanKept(c: Crew, w: nat)
    requires ShuttingDown(c) && Enabled(c, CloseJobChan(w))
    ensures ShuttingDown(Apply(c, CloseJobChan(w)))
  {
    UnspentAt(c, Apply(c, CloseJobChan(w)), w);
  }

  lemma StoppingKept(c: Crew, l: Label)
    requires ShuttingDown(c) && Enabled(c, l) && (l.StopWorker? || l.ClosePool?)
    ensures ShuttingDown(Apply(c, l))
  {
    assert Unspent(Apply(c, l)) == Unspent(c);
  }

  lemma LeavingOnly(c: Crew, l: Label)
    requires ShuttingDown(c) && Enabled(c, l)
    ensures l.StopWorker? || l.ClosePool? || l.Quit? || l.Drain? || l.CloseJobChan?
  {
  }

  /** After a clean Wait no step panics, and no worker's last receive from the pool blocks. */
  lemma ShuttingDownKept(c: Crew, l: Label)
    requires ShuttingDown(c) && Enabled(c, l)
    ensures ShuttingDown(Apply(c, l))
  {
    LeavingOnly(c, l);
    if l.Quit? {
      QuitKept(c, l.w);
    } else if l.Drain? {
      DrainKept(c, l.w);
    } else if l.CloseJobChan? {
      CloseJobChanKept(c, l.w);
    } else {
      StoppingKept(c, l);
    }
  }

  lemma WithoutWorkersStep(c: Crew, l: Label)
    requires c.ws == [] && Enabled(c, l)
    ensures Apply(c, l).ws == [] && Apply(c, l).wg == c.wg
  {
  }

  /** Workers without a job, and no hand-off, cannot panic. */
  lemma NoJobsStep(c: Crew, l: Label)
    requires Enabled(c, l) && forall w :: 0 <= w < |c.ws| ==> !c.ws[w].HasJob()
    ensures
      var d := Apply(c, l);
      !d.crashed && |d.ws| == |c.ws| && forall w :: 0 <= w < |d.ws| ==> !d.ws[w].HasJob()
  {
  }

  lemma DrainNeverBlocks(c: Crew, w: nat)
    requires ShuttingDown(c) && w < |c.ws| && c.ws[w].Quitting?
    ensures c.pool != [] && Enabled(c, Drain(w))
  {
    assert w in Unspent(c);
  }

  /** Every worker waits for a job or runs one. */
  predicate OnlyRunning(c: Crew) { forall w :: 0 <= w < |c.ws| ==> c.ws[w].Selecting? || c.ws[w].Running? }

  /** While fewer jobs run than there are workers, a token is in the pool, of a worker that waits. */
  lemma TokenLeft(c: Crew)
    requires Working(c) && c.runner.Launched? && c.hand.None? && OnlyRunning(c) && |Held(c.ws)| < |c.ws|
    ensures c.pool != [] && c.pool[0] < |c.ws| && c.ws[c.pool[0]].Selecting?
  {
    TokenPlaces(c);
    OwnersHold(c.ws);
    assert Owners(c) == OwnersOf(c.ws);
    assert c.pool != [];
    assert c.pool[0] in c.pool;
  }

  ghost function OwnersOf(ws: seq<WorkerPc>): set<nat> { set w: nat | w < |ws| && ws[w].OwnsToken() }

  lemma OwnersSnoc(ws: seq<WorkerPc>, x: WorkerPc)
    ensures |OwnersOf(ws + [x])| == |OwnersOf(ws)| + if x.OwnsToken() then 1 else 0
  {
    var n := |ws|;
    if x.OwnsToken() {
      assert OwnersOf(ws + [x]) == OwnersOf(ws) + {n};
    } else {
      assert OwnersOf(ws + [x]) == OwnersOf(ws);
    }
  }

  lemma {:induction false} OwnersHold(ws: seq<WorkerPc>)
    requires forall w :: 0 <= w < |ws| ==> ws[w].Selecting? || ws[w].Running?
    ensures |OwnersOf(ws)| == |Held(ws)|
  {
    if ws == [] {
      assert OwnersOf(ws) == {};
    } else {
      var n := |ws| - 1;
      OwnersHold(ws[..n]);
      OwnersSnoc(ws[..n], ws[n]);
      assert ws == ws[..n] + [ws[n]];
    }
  }

  lemma RunsOneMore(c: Crew, w: nat, j: JobId)
    requires OnlyRunning(c) && w < |c.ws| && c.ws[w].Selecting?
    ensures |Held(c.ws[w := Running(j)])| == |Held(c.ws)| + 1
    ensures OnlyRunning(c.(ws := c.ws[w := Running(j)]))
  {
    HeldGain(c.ws, w, Running(j));
    StillOnlyRunning(c, w, j);
  }

  lemma StillOnlyRunning(c: Crew, w: nat, j: JobId)
    requires OnlyRunning(c) && w < |c.ws|
    ensures OnlyRunning(c.(ws := c.ws[w := Running(j)]))
  {
  }

  /** A worker that has been told to quit can take its next step on the way out. */
  lemma LeavingStep(c: Crew, w: nat) returns (l: Label)
    requires ShuttingDown(c) && w < |c.ws| && w < Stopped(c) && !c.ws[w].Exited?
    ensures Enabled(c, l) && (l == Quit(w) || l == Drain(w) || l == CloseJobChan(w))
    ensures
      var d := Apply(c, l);
      ShuttingDown(d) && |d.ws| == |c.ws| && Stopped(d) == Stopped(c) && d.ws[w].Weight() < c.ws[w].Weight()
  {
    if c.ws[w].Selecting? {
      l := Quit(w);
    } else if c.ws[w].Quitting? {
      DrainNeverBlocks(c, w);
      l := Drain(w);
    } else {
      l := CloseJobChan(w);
    }
    ShuttingDownKept(c, l);
  }

  // The ranking measure.

  function Weights(ws: seq<WorkerPc>): nat {
    if ws == [] then 0 else Weights(ws[..|ws| - 1]) + ws[|ws| - 1].Weight()
  }

  lemma {:induction false} WeightsUpdate(ws: seq<WorkerPc>, i: nat, x: WorkerPc)
    requires i < |ws|
    ensures Weights(ws[i := x]) + ws[i].Weight() == Weights(ws) + x.Weight()
  {
    var n := |ws| - 1;
    var vs := ws[i := x];
    if i == n {
      assert vs[..n] == ws[..n];
    } else {
      WeightsUpdate(ws[..n], i, x);
      assert vs[..n] == ws[..n][i := x];
    }
  }

  lemma {:induction false} NewWeights(n: nat)
    ensures Weights(New(n).ws) == 4 * n
  {
    if n > 0 {
      NewWeights(n - 1);
      assert New(n).ws[..n - 1] == New(n - 1).ws;
    }
  }

  function RunnerWeight(c: Crew): nat {
    match c.runner
    case Idle => 2
    case Starting(_) => 1
    case Launched => 0
  }

  function TerminatorWeight(c: Crew): nat {
    match c.term
    case NotCalled => |c.ws| + 4
    case Waiting => |c.ws| + 3
    case Closing => |c.ws| + 2
    case Stopping(i) => if i <= |c.ws| then |c.ws| - i + 1 else 1
    case Ended => 0
  }

  function Rank(c: Crew): nat {
    Weights(c.ws) + RunnerWeight(c) + TerminatorWeight(c) + if c.crashed then 0 else 1
  }

  predicate WellPlaced(c: Crew) {
    c.runner.Starting? && c.runner.next < |c.ws| ==> c.ws[c.runner.next].NotStarted?
  }

  lemma RankDropsAt(c: Crew, d: Crew, w: nat)
    requires w < |c.ws| && |d.ws| == |c.ws| && d.ws == c.ws[w := d.ws[w]]
    requires d.ws[w].Weight() < c.ws[w].Weight()
    requires RunnerWeight(d) <= RunnerWeight(c) && d.term == c.term && !c.crashed
    ensures Rank(d) < Rank(c)
  {
    WeightsUpdate(c.ws, w, d.ws[w]);
  }

  predicate OfWorker(l: Label) {
    l.JobReturns? || l.GiveToken? || l.Done? || l.Quit? || l.Drain? || l.CloseJobChan?
  }

  lemma WorkerStepLighter(c: Crew, l: Label)
    requires Enabled(c, l) && OfWorker(l)
    ensures
      var d := Apply(c, l);
      d.crashed || (d.ws == c.ws[l.w := d.ws[l.w]] && d.ws[l.w].Weight() < c.ws[l.w].Weight())
    ensures Apply(c, l).runner == c.runner && Apply(c, l).term == c.term
    ensures Apply(c, l).crashed ==> Apply(c, l).ws == c.ws
  {
  }

  lemma WorkerRankDrops(c: Crew, l: Label)
    requires Enabled(c, l) && OfWorker(l)
    ensures Rank(Apply(c, l)) < Rank(c)
  {
    WorkerStepLighter(c, l);
    var d := Apply(c, l);
    if !d.crashed { RankDropsAt(c, d, l.w); }
  }

  lemma StartRankDrops(c: Crew)
    requires Enabled(c, StartWorker) && WellPlaced(c)
    ensures Rank(Apply(c, StartWorker)) < Rank(c)
  {
    RankDropsAt(c, Apply(c, StartWorker), c.runner.next);
  }

  /** Every step uses up a unit of the measure. */
  lemma RankDrops(c: Crew, l: Label)
    requires Enabled(c, l) && WellPlaced(c)
    ensures Rank(Apply(c, l)) < Rank(c)
  {
    if OfWorker(l) { WorkerRankDrops(c, l); } else if l.StartWorker? { StartRankDrops(c); }
  }

  lemma HandOffRank(c: Crew, j: JobId)
    requires CanHandOff(c)
    ensures HandOff(c, j).crashed ==> Rank(HandOff(c, j)) < Rank(c)
    ensures !HandOff(c, j).crashed ==> Rank(HandOff(c, j)) == Rank(c) + 3
  {
    WeightsUpdate(c.ws, c.hand.value, Running(j));
  }

  // Progress.

  predicate Internal(l: Label) { !l.BeginRun? && !l.BeginTerminate? }

  /** While Run is under way its next step is enabled, and a worker with a job can always move:
      giving the token back never blocks. */
  lemma WorkingProgress(c: Crew) returns (l: Label)
    requires Working(c) && !c.runner.Idle?
    requires !c.runner.Launched? || exists w: nat :: w < |c.ws| && c.ws[w].HasJob()
    ensures Internal(l) && Enabled(c, l)
  {
    TokenPlaces(c);
    if c.runner.Starting? {
      l := if c.runner.next < |c.ws| then StartWorker else LaunchDispatcher;
    } else {
      var w: nat :| w < |c.ws| && c.ws[w].HasJob();
      l := match c.ws[w]
        case Running(_) => JobReturns(w)
        case Ran(_) => GiveToken(w)
        case _ => Done(w);
    }
  }

  /** When no worker has a job, the tokens are in the pool or in the dispatcher's hand. */
  lemma IdleTokens(c: Crew)
    requires Working(c) && c.runner.Launched?
    requires forall w: nat :: w < |c.ws| ==> !c.ws[w].HasJob()
    ensures |c.pool| + |HandToken(c)| == |c.ws|
    ensures forall w: nat :: w < |c.ws| ==> c.ws[w].Selecting?
    ensures c.hand.Some? ==> c.hand.value < |c.ws|
    ensures |c.starts| == |c.finished|
  {
    TokenPlaces(c);
    assert Owners(c) == {};
    HeldNone(c.ws);
    assert |multiset(c.starts)| == |multiset(c.finished)|;
  }

  ghost predicate AllExited(c: Crew) {
    c.term.Ended? && forall w :: 0 <= w < |c.ws| ==> c.ws[w].Exited?
  }

  lemma ShutdownProgress(c: Crew) returns (l: Label)
    requires ShuttingDown(c) && !c.term.Closing? && !AllExited(c)
    ensures Internal(l) && Enabled(c, l)
  {
    if !c.term.Ended? {
      l := if c.term.next < |c.ws| then StopWorker else ClosePool;
    } else {
      var w: nat :| w < |c.ws| && !c.ws[w].Exited?;
      match c.ws[w]
      case Selecting => l := Quit(w);
      case Quitting => l := Drain(w);
      case _ => l := CloseJobChan(w);
    }
  }
}
