/** The worker pool that reconciles all repositories of one cycle.

    A dispatcher feeds jobs into a bounded channel; workers take them, and put
    results into a second channel and the first error into a third.  A state is
    what all goroutines see; every interleaving of their steps is a run.  Job j
    stands for the j-th mapping. */
module WorkerPool {

  datatype Worker =
    | Idle                    // waiting for a job
    | Busy(job: nat)          // reconciling a repository
    | Publishing(job: nat)    // about to send its result
    | Failed(job: nat)        // about to offer its error
    | Cancelling              // its error was taken; about to cancel the others
    | Done

  datatype Outcome = Results(jobs: seq<nat>) | WorkerError(job: nat) | Incomplete

  datatype Caller = Waiting | Returned(outcome: Outcome)

  /** `failures` remembers every job that failed, `lost` every job that ends without a result,
      `stopped` whether the surrounding context was cancelled; the program keeps none of the three. */
  datatype Pool = Pool(
    jobs: nat, capacity: nat,
    next: nat, closed: bool, buffer: seq<nat>,
    workers: seq<Worker>,
    results: seq<nat>, error: seq<nat>,
    cancelled: bool, caller: Caller,
    failures: set<nat>, lost: multiset<nat>, stopped: bool)

  function Start(jobs: nat, maxConcurrency: nat): Pool
    requires jobs > 0 && maxConcurrency > 0
  {
    var workers := if maxConcurrency > jobs then jobs else maxConcurrency;
    Pool(jobs, maxConcurrency, 0, false, [], seq(workers, i => Idle), [], [], false, Waiting, {}, multiset{}, false)
  }

  datatype Step =
    | Dispatch | CloseJobs
    | Receive(worker: nat) | Leave(worker: nat)
    | Succeed(worker: nat) | Fail(worker: nat)
    | OfferError(worker: nat) | Cancel(worker: nat)
    | Publish(worker: nat) | Abandon(worker: nat)
    | Interrupt | Return

  predicate At(s: Pool, i: nat, w: Worker)
  {
    i < |s.workers| && s.workers[i] == w
  }

  predicate AllDone(s: Pool)
  {
    forall i :: 0 <= i < |s.workers| ==> s.workers[i].Done?
  }

  predicate Enabled(s: Pool, step: Step)
  {
    match step
    case Dispatch => !s.closed && s.next < s.jobs && |s.buffer| < s.capacity
    case CloseJobs => !s.closed && (s.next == s.jobs || s.cancelled)
    case Receive(i) => At(s, i, Idle) && s.buffer != []
    case Leave(i) => At(s, i, Idle) && s.buffer == [] && s.closed
    case Succeed(i) => i < |s.workers| && s.workers[i].Busy?
    case Fail(i) => i < |s.workers| && s.workers[i].Busy?
    case OfferError(i) => i < |s.workers| && s.workers[i].Failed?
    case Cancel(i) => At(s, i, Cancelling)
    case Publish(i) => i < |s.workers| && s.workers[i].Publishing? && |s.results| < s.jobs
    case Abandon(i) => i < |s.workers| && s.workers[i].Publishing? && s.cancelled
    case Interrupt => !s.stopped
    case Return => AllDone(s) && s.caller.Waiting?
  }

  function Move(s: Pool, i: nat, w: Worker): Pool
    requires i < |s.workers|
  {
    s.(workers := s.workers[i := w])
  }

  function OutcomeOf(s: Pool): Outcome
  {
    if s.error != [] then WorkerError(s.error[0])
    else if |s.results| != s.jobs then Incomplete
    else Results(s.results)
  }

  function Apply(s: Pool, step: Step): Pool
    requires Enabled(s, step)
  {
    match step
    case Dispatch => s.(buffer := s.buffer + [s.next], next := s.next + 1)
    case CloseJobs => s.(closed := true)
    case Receive(i) => Move(s, i, Busy(s.buffer[0])).(buffer := s.buffer[1..])
    case Leave(i) => Move(s, i, Done)
    case Succeed(i) => Move(s, i, Publishing(s.workers[i].job))
    case Fail(i) => Move(s, i, Failed(s.workers[i].job)).(failures := s.failures + {s.workers[i].job})
    case OfferError(i) =>
      var lost := s.lost + multiset{s.workers[i].job};
      if s.error == [] then Move(s, i, Cancelling).(error := [s.workers[i].job], lost := lost)
      else Move(s, i, Done).(lost := lost)
    case Cancel(i) => Move(s, i, Done).(cancelled := true)
    case Publish(i) => Move(s, i, Idle).(results := s.results + [s.workers[i].job])
    case Abandon(i) => Move(s, i, Done).(lost := s.lost + multiset{s.workers[i].job})
    case Interrupt => s.(cancelled := true, stopped := true)
    case Return => s.(caller := Returned(OutcomeOf(s)), cancelled := true)
  }

  // ---- every job is in one place ----

  function Hand(w: Worker): multiset<nat>
  {
    if w.Busy? || w.Publishing? || w.Failed? then multiset{w.job} else multiset{}
  }

  function InHand(workers: seq<Worker>): multiset<nat>
  {
    if workers == [] then multiset{} else InHand(workers[..|workers| - 1]) + Hand(workers[|workers| - 1])
  }

  lemma {:induction false} InHandMove(workers: seq<Worker>, i: nat, w: Worker)
    requires i < |workers|
    ensures InHand(workers[i := w]) + Hand(workers[i]) == InHand(workers) + Hand(w)
  {
    hide Hand;
    var n := |workers| - 1;
    var moved := workers[i := w];
    if i == n {
      assert moved[..n] == workers[..n];
      Exchange(InHand(workers[..n]), Hand(w), Hand(workers[n]));
    } else {
      InHandMove(workers[..n], i, w);
      assert moved[..n] == workers[..n][i := w];
      AddToBoth(InHand(moved[..n]), Hand(workers[i]), InHand(workers[..n]), Hand(w), Hand(workers[n]));
    }
  }

  lemma Exchange(m: multiset<nat>, a: multiset<nat>, b: multiset<nat>)
    ensures (m + a) + b == (m + b) + a
  {
  }

  lemma AddToBoth(a: multiset<nat>, h: multiset<nat>, b: multiset<nat>, h': multiset<nat>, x: multiset<nat>)
    requires a + h == b + h'
    ensures (a + x) + h == (b + x) + h'
  {
    Exchange(a, x, h);
    Exchange(b, x, h');
  }

  lemma {:induction false} IdleHandsAreEmpty(n: nat)
    ensures InHand(seq(n, i => Idle)) == multiset{}
  {
    if n > 0 {
      IdleHandsAreEmpty(n - 1);
      assert seq(n, i => Idle)[..n - 1] == seq(n - 1, i => Idle);
    }
  }

  /** The jobs 0, ..., n - 1, one of each. */
  function FirstJobs(n: nat): multiset<nat>
  {
    if n == 0 then multiset{} else FirstJobs(n - 1) + multiset{n - 1}
  }

  lemma {:induction false} FirstJobsAre(n: nat)
    ensures |FirstJobs(n)| == n
    ensures forall j: nat :: FirstJobs(n)[j] == if j < n then 1 else 0
  {
    if n > 0 { FirstJobsAre(n - 1); }
  }

  /** Every job dispatched so far is in the buffer, with a worker, among the results, or lost. */
  predicate Conserved(s: Pool)
  {
    JobsAre(s.buffer, s.workers, s.results, s.lost, s.next)
  }

  predicate JobsAre(buffer: seq<nat>, workers: seq<Worker>, results: seq<nat>, lost: multiset<nat>, next: nat)
  {
    multiset(buffer) + InHand(workers) + multiset(results) + lost == FirstJobs(next)
  }

  lemma ConservedMove(s: Pool, i: nat, w: Worker, buffer: seq<nat>, results: seq<nat>, lost: multiset<nat>)
    requires Conserved(s) && i < |s.workers|
    requires multiset(buffer) + Hand(w) + multiset(results) + lost
             == multiset(s.buffer) + Hand(s.workers[i]) + multiset(s.results) + s.lost
    ensures JobsAre(buffer, s.workers[i := w], results, lost, s.next)
  {
    hide InHand, Hand, FirstJobs;
    InHandMove(s.workers, i, w);
    Shift(InHand(s.workers), Hand(s.workers[i]), multiset(s.buffer), multiset(s.results), s.lost,
          InHand(s.workers[i := w]), Hand(w), multiset(buffer), multiset(results), lost);
  }

  lemma Shift(a: multiset<nat>, h: multiset<nat>, b: multiset<nat>, r: multiset<nat>, l: multiset<nat>,
              a': multiset<nat>, h': multiset<nat>, b': multiset<nat>, r': multiset<nat>, l': multiset<nat>)
    requires a' + h == a + h' && b' + h' + r' + l' == b + h + r + l
    ensures b' + a' + r' + l' == b + a + r + l
  {
    forall j ensures (b' + a' + r' + l')[j] == (b + a + r + l)[j] {
      assert (a' + h)[j] == (a + h')[j] && (b' + h' + r' + l')[j] == (b + h + r + l)[j];
    }
  }

  lemma {:induction false} HandIsHeld(workers: seq<Worker>, i: nat)
    requires i < |workers|
    ensures Hand(workers[i]) <= InHand(workers)
  {
    if i < |workers| - 1 { HandIsHeld(workers[..|workers| - 1], i); }
  }

  lemma KeepsHand(s: Pool, i: nat, w: Worker)
    requires Conserved(s) && i < |s.workers| && Hand(w) == Hand(s.workers[i])
    ensures JobsAre(s.buffer, s.workers[i := w], s.results, s.lost, s.next)
  {
    ConservedMove(s, i, w, s.buffer, s.results, s.lost);
  }

  lemma TakesJob(s: Pool, i: nat)
    requires Conserved(s) && At(s, i, Idle) && s.buffer != []
    ensures JobsAre(s.buffer[1..], s.workers[i := Busy(s.buffer[0])], s.results, s.lost, s.next)
  {
    hide InHand, FirstJobs, JobsAre;
    assert s.buffer == [s.buffer[0]] + s.buffer[1..];
    ConservedMove(s, i, Busy(s.buffer[0]), s.buffer[1..], s.results, s.lost);
  }

  lemma PublishesJob(s: Pool, i: nat)
    requires Conserved(s) && i < |s.workers| && s.workers[i].Publishing?
    ensures JobsAre(s.buffer, s.workers[i := Idle], s.results + [s.workers[i].job], s.lost, s.next)
  {
    hide InHand, FirstJobs, JobsAre;
    ConservedMove(s, i, Idle, s.buffer, s.results + [s.workers[i].job], s.lost);
  }

  lemma LosesJob(s: Pool, i: nat, w: Worker)
    requires Conserved(s) && i < |s.workers| && (s.workers[i].Publishing? || s.workers[i].Failed?) && Hand(w) == multiset{}
    ensures JobsAre(s.buffer, s.workers[i := w], s.results, s.lost + multiset{s.workers[i].job}, s.next)
  {
    hide InHand, FirstJobs, JobsAre;
    ConservedMove(s, i, w, s.buffer, s.results, s.lost + multiset{s.workers[i].job});
  }

  /** Steps by which a worker keeps its job, or has none. */
  lemma QuietStepConserved(s: Pool, step: Step)
    requires Conserved(s) && Enabled(s, step) && (step.Leave? || step.Succeed? || step.Fail? || step.Cancel?)
    ensures Conserved(Apply(s, step))
  {
    hide InHand, FirstJobs, JobsAre;
    match step
    case Leave(i) => KeepsHand(s, i, Done);
    case Succeed(i) => KeepsHand(s, i, Publishing(s.workers[i].job));
    case Fail(i) => KeepsHand(s, i, Failed(s.workers[i].job));
    case Cancel(i) => KeepsHand(s, i, Done);
  }

  lemma LossConserved(s: Pool, step: Step)
    requires Conserved(s) && Enabled(s, step) && (step.OfferError? || step.Abandon?)
    ensures Conserved(Apply(s, step))
  {
    hide InHand, FirstJobs, JobsAre;
    match step
    case OfferError(i) => LosesJob(s, i, if s.error == [] then Cancelling else Done);
    case Abandon(i) => LosesJob(s, i, Done);
  }

  lemma ConservedStep(s: Pool, step: Step)
    requires Conserved(s) && Enabled(s, step)
    ensures Conserved(Apply(s, step))
  {
    hide InHand, FirstJobs, JobsAre;
    match step
    case Receive(i) => TakesJob(s, i);
    case Publish(i) => PublishesJob(s, i);
    case Dispatch => DispatchConserved(s);
    case OfferError(_) => LossConserved(s, step);
    case Abandon(_) => LossConserved(s, step);
    case CloseJobs =>
    case Interrupt =>
    case Return =>
    case _ => QuietStepConserved(s, step);
  }

  lemma DispatchConserved(s: Pool)
    requires Conserved(s)
    ensures Conserved(s.(buffer := s.buffer + [s.next], next := s.next + 1))
  {
    hide InHand;
  }

  // ---- errors and cancellation ----

  predicate SomeFailed(s: Pool)
  {
    exists i :: 0 <= i < |s.workers| && s.workers[i].Failed?
  }

  /** The bookkeeping every interleaving keeps. */
  predicate Consistent(s: Pool)
  {
    && |s.workers| > 0 && s.capacity > 0 && s.next <= s.jobs && |s.error| <= 1
    // an error was put into the channel, or its worker is about to offer it
    && (s.failures != {} ==> s.error != [] || SomeFailed(s))
    && (s.error != [] ==> s.error[0] in s.failures)
    && (forall i :: 0 <= i < |s.workers| && s.workers[i].Failed? ==> s.workers[i].job in s.failures)
    // nothing is cancelled, lost or left behind without a reason
    && (s.cancelled ==> s.stopped || s.error != [] || s.caller.Returned?)
    && (s.stopped ==> s.cancelled) && (s.caller.Returned? ==> s.cancelled && AllDone(s))
    && (s.lost != multiset{} ==> s.cancelled || s.error != [])
    && (s.closed ==> s.next == s.jobs || s.cancelled)
    && (forall i :: 0 <= i < |s.workers| && s.workers[i].Done? ==>
          (s.closed && s.buffer == []) || s.cancelled || s.error != [])
    && (forall i :: 0 <= i < |s.workers| && s.workers[i].Cancelling? ==> s.error != [])
  }

  /** What the caller was told. */
  predicate Truthful(s: Pool)
  {
    s.caller.Returned? ==>
      match s.caller.outcome
      case Results(r) => s.failures == {} && multiset(r) == FirstJobs(s.jobs)
      case WorkerError(j) => j in s.failures
      case Incomplete => s.failures == {} && s.stopped && |s.results| < s.jobs
  }

  predicate Inv(s: Pool)
  {
    Conserved(s) && Consistent(s) && Truthful(s)
  }

  lemma StartInv(jobs: nat, maxConcurrency: nat)
    requires jobs > 0 && maxConcurrency > 0
    ensures Inv(Start(jobs, maxConcurrency))
  {
    IdleHandsAreEmpty(if maxConcurrency > jobs then jobs else maxConcurrency);
  }

  /** Steps of the workers: a failed one stays failed until its error is offered. */
  lemma FailedStays(s: Pool, step: Step)
    requires Enabled(s, step) && SomeFailed(s) && !step.OfferError?
    ensures SomeFailed(Apply(s, step))
  {
    var i :| 0 <= i < |s.workers| && s.workers[i].Failed?;
    assert Apply(s, step).workers[i].Failed?;
  }

  lemma OfferConsistent(s: Pool, step: Step)
    requires Consistent(s) && Enabled(s, step) && (step.OfferError? || step.Fail?)
    ensures Consistent(Apply(s, step))
  {
    var s' := Apply(s, step);
    if step.Fail? { assert s'.workers[step.worker].Failed?; }
  }

  lemma WorkerStepConsistent(s: Pool, step: Step)
    requires Consistent(s) && Enabled(s, step) && (SomeFailed(s) ==> SomeFailed(Apply(s, step)))
    requires step.Leave? || step.Cancel? || step.Publish? || step.Abandon? || step.Succeed?
    ensures Consistent(Apply(s, step))
  {
    hide SomeFailed;
  }

  lemma OtherStepConsistent(s: Pool, step: Step)
    requires Consistent(s) && Enabled(s, step) && (SomeFailed(s) ==> SomeFailed(Apply(s, step)))
    requires step.Dispatch? || step.CloseJobs? || step.Receive? || step.Interrupt? || step.Return?
    ensures Consistent(Apply(s, step))
  {
    hide SomeFailed;
  }

  lemma ConsistentStep(s: Pool, step: Step)
    requires Consistent(s) && Enabled(s, step)
    ensures Consistent(Apply(s, step))
  {
    hide Consistent, SomeFailed;
    if step.OfferError? || step.Fail? {
      OfferConsistent(s, step);
    } else {
      if SomeFailed(s) { FailedStays(s, step); }
      if step.Dispatch? || step.CloseJobs? || step.Receive? || step.Interrupt? || step.Return? {
        OtherStepConsistent(s, step);
      } else {
        WorkerStepConsistent(s, step);
      }
    }
  }

  /** Enough results are all results. */
  lemma AllResults(s: Pool)
    requires Conserved(s) && s.next <= s.jobs && |s.results| == s.jobs
    ensures multiset(s.results) == FirstJobs(s.jobs)
  {
    FirstJobsAre(s.next);
    assert multiset(s.results) <= FirstJobs(s.next);
    assert |multiset(s.results)| == s.jobs;
    var rest := FirstJobs(s.next) - multiset(s.results);
    assert FirstJobs(s.next) == multiset(s.results) + rest;
    assert |rest| == s.next - s.jobs;
  }

  lemma ResultsFit(s: Pool)
    requires Conserved(s) && s.next <= s.jobs
    ensures |s.results| <= s.jobs
  {
    FirstJobsAre(s.next);
    var rest := FirstJobs(s.next) - multiset(s.results);
    assert FirstJobs(s.next) == multiset(s.results) + rest;
    assert |multiset(s.results)| == |s.results|;
  }

  /** When all workers left on their own, every job has its result. */
  lemma NothingMissing(s: Pool)
    requires Conserved(s) && Consistent(s) && AllDone(s) && s.error == [] && !s.cancelled
    ensures |s.results| == s.jobs && s.failures == {}
  {
    assert s.workers[0].Done?;
    DoneHandsAreEmpty(s.workers);
    FirstJobsAre(s.jobs);
    assert multiset(s.results) == FirstJobs(s.jobs);
    assert |multiset(s.results)| == |s.results|;
  }

  lemma {:induction false} DoneHandsAreEmpty(workers: seq<Worker>)
    requires forall i :: 0 <= i < |workers| ==> workers[i].Done?
    ensures InHand(workers) == multiset{}
  {
    if workers != [] { DoneHandsAreEmpty(workers[..|workers| - 1]); }
  }

  lemma TruthfulReturn(s: Pool)
    requires Inv(s) && Enabled(s, Return)
    ensures Truthful(Apply(s, Return))
  {
    hide FirstJobs, InHand;
    if s.error == [] {
      assert s.failures == {};
      ResultsFit(s);
      if |s.results| == s.jobs {
        AllResults(s);
      } else if !s.cancelled {
        NothingMissing(s);
      }
    }
  }

  lemma InvStep(s: Pool, step: Step)
    requires Inv(s) && Enabled(s, step)
    ensures Inv(Apply(s, step))
  {
    hide FirstJobs, InHand, Consistent, Conserved;
    ConservedStep(s, step);
    ConsistentStep(s, step);
    if step.Return? { TruthfulReturn(s); }
    if s.caller.Returned? { ReturnedStaysTruthful(s, step); }
  }

  lemma ReturnedStaysTruthful(s: Pool, step: Step)
    requires Inv(s) && Enabled(s, step) && s.caller.Returned?
    ensures Truthful(Apply(s, step))
  {
    hide FirstJobs, InHand;
  }

  // ---- whole runs ----

  /** A run of the pool: any interleaving of enabled steps. */
  ghost predicate IsRun(jobs: nat, maxConcurrency: nat, states: seq<Pool>, steps: seq<Step>)
  {
    && jobs > 0 && maxConcurrency > 0 && |states| == |steps| + 1 && states[0] == Start(jobs, maxConcurrency)
    && forall k :: 0 <= k < |steps| ==> Enabled(states[k], steps[k]) && states[k + 1] == Apply(states[k], steps[k])
  }

  lemma {:induction false} RunInv(jobs: nat, maxConcurrency: nat, states: seq<Pool>, steps: seq<Step>, k: nat)
    requires IsRun(jobs, maxConcurrency, states, steps) && k < |states|
    ensures Inv(states[k]) && states[k].jobs == jobs
  {
    hide Inv;
    if k == 0 {
      StartInv(jobs, maxConcurrency);
    } else {
      RunInv(jobs, maxConcurrency, states, steps, k - 1);
      InvStep(states[k - 1], steps[k - 1]);
    }
  }

  /** Whatever the interleaving: without an error the caller gets the result of every mapping,
      once each; with any failed worker it gets a failure that did happen; and `Incomplete` only
      when the surrounding context was cancelled and some mapping has no result. */
  lemma PoolIsTruthful(jobs: nat, maxConcurrency: nat, states: seq<Pool>, steps: seq<Step>, k: nat)
    requires IsRun(jobs, maxConcurrency, states, steps) && k < |states| && states[k].caller.Returned?
    ensures match states[k].caller.outcome
            case Results(r) => states[k].failures == {} && multiset(r) == FirstJobs(jobs)
            case WorkerError(j) => j in states[k].failures
            case Incomplete =>
              states[k].failures == {} && states[k].stopped && exists j: nat :: j < jobs && j !in states[k].results
  {
    RunInv(jobs, maxConcurrency, states, steps, k);
    if states[k].caller.outcome.Incomplete? && forall j: nat :: j < jobs ==> j in states[k].results {
      ManyResults(states[k].results, jobs);
    }
  }

  lemma ManyResults(results: seq<nat>, n: nat)
    requires forall j: nat :: j < n ==> j in results
    ensures |results| >= n
  {
    FirstJobsAre(n);
    assert forall j: nat :: j in results <==> j in multiset(results);
    var rest := multiset(results) - FirstJobs(n);
    assert multiset(results) == FirstJobs(n) + rest;
    assert |multiset(results)| == |results|;
  }

  // ---- every run ends, and only when everything has ended ----

  function Weight(w: Worker): nat
  {
    match w
    case Idle => 1
    case Busy(_) => 5
    case Publishing(_) => 4
    case Failed(_) => 4
    case Cancelling => 3
    case Done => 0
  }

  function Weights(workers: seq<Worker>): nat
  {
    if workers == [] then 0 else Weights(workers[..|workers| - 1]) + Weight(workers[|workers| - 1])
  }

  lemma {:induction false} WeightsMove(workers: seq<Worker>, i: nat, w: Worker)
    requires i < |workers|
    ensures Weights(workers[i := w]) + Weight(workers[i]) == Weights(workers) + Weight(w)
  {
    var n := |workers| - 1;
    var moved := workers[i := w];
    if i == n {
      assert moved[..n] == workers[..n];
    } else {
      WeightsMove(workers[..n], i, w);
      assert moved[..n] == workers[..n][i := w];
    }
  }

  function Remaining(s: Pool): int
  {
    6 * (s.jobs - s.next) + 5 * |s.buffer| + Weights(s.workers)
    + (if s.closed then 0 else 1) + (if s.stopped then 0 else 1) + (if s.caller.Waiting? then 1 else 0)
  }

  lemma JobStepDecreases(s: Pool, step: Step)
    requires Enabled(s, step) && (step.Receive? || step.Succeed? || step.Fail? || step.OfferError? || step.Publish?)
    ensures Remaining(Apply(s, step)) < Remaining(s)
  {
    hide Weights;
    match step
    case Receive(i) => WeightsMove(s.workers, i, Busy(s.buffer[0]));
    case Succeed(i) => WeightsMove(s.workers, i, Publishing(s.workers[i].job));
    case Fail(i) => WeightsMove(s.workers, i, Failed(s.workers[i].job));
    case OfferError(i) => WeightsMove(s.workers, i, if s.error == [] then Cancelling else Done);
    case Publish(i) => WeightsMove(s.workers, i, Idle);
  }

  /** Every step uses something up. */
  lemma StepDecreases(s: Pool, step: Step)
    requires Enabled(s, step)
    ensures Remaining(Apply(s, step)) < Remaining(s)
  {
    hide Weights;
    match step
    case Leave(i) => WeightsMove(s.workers, i, Done);
    case Cancel(i) => WeightsMove(s.workers, i, Done);
    case Abandon(i) => WeightsMove(s.workers, i, Done);
    case Dispatch =>
    case CloseJobs =>
    case Interrupt =>
    case Return =>
    case _ => JobStepDecreases(s, step);
  }

  lemma {:induction false} IdleWeights(n: nat)
    ensures Weights(seq(n, i => Idle)) == n
  {
    if n > 0 {
      IdleWeights(n - 1);
      assert seq(n, i => Idle)[..n - 1] == seq(n - 1, i => Idle);
    }
  }

  lemma {:induction false} RunDecreases(jobs: nat, maxConcurrency: nat, states: seq<Pool>, steps: seq<Step>, k: nat)
    requires IsRun(jobs, maxConcurrency, states, steps) && k < |states|
    ensures Remaining(states[k]) + k <= 7 * jobs + 3
  {
    if k == 0 {
      IdleWeights(|states[0].workers|);
    } else {
      RunDecreases(jobs, maxConcurrency, states, steps, k - 1);
      StepDecreases(states[k - 1], steps[k - 1]);
    }
  }

  /** No interleaving goes on for ever: n mappings take at most 7 n + 3 steps. */
  lemma RunsAreBounded(jobs: nat, maxConcurrency: nat, states: seq<Pool>, steps: seq<Step>)
    requires IsRun(jobs, maxConcurrency, states, steps)
    ensures |steps| <= 7 * jobs + 3
  {
    RunDecreases(jobs, maxConcurrency, states, steps, |steps|);
    RunInv(jobs, maxConcurrency, states, steps, |steps|);
  }

  /** All goroutines have ended and the caller has its answer. */
  predicate Ended(s: Pool)
  {
    s.caller.Returned? && s.closed && AllDone(s)
  }

  lemma RoomForResult(s: Pool, i: nat)
    requires Conserved(s) && s.next <= s.jobs && i < |s.workers| && s.workers[i].Publishing?
    ensures |s.results| < s.jobs
  {
    HandIsHeld(s.workers, i);
    FirstJobsAre(s.next);
    assert |InHand(s.workers)| >= |Hand(s.workers[i])| by {
      assert InHand(s.workers) == (InHand(s.workers) - Hand(s.workers[i])) + Hand(s.workers[i]);
    }
    assert |multiset(s.results)| == |s.results|;
  }

  /** No deadlock: until all goroutines have ended some step other than outside cancellation is
      possible, even when workers left jobs behind in the buffer. */
  lemma NoDeadlock(s: Pool) returns (step: Step)
    requires Inv(s) && !Ended(s)
    ensures Enabled(s, step) && !step.Interrupt?
  {
    if AllDone(s) {
      step := if s.caller.Waiting? then Return else CloseJobs;
    } else {
      var i :| 0 <= i < |s.workers| && !s.workers[i].Done?;
      match s.workers[i]
      case Busy(_) => step := Succeed(i);
      case Failed(_) => step := OfferError(i);
      case Cancelling => step := Cancel(i);
      case Publishing(_) => RoomForResult(s, i); step := Publish(i);
      case Idle =>
        if s.buffer != [] { step := Receive(i); }
        else if s.closed { step := Leave(i); }
        else if s.next == s.jobs { step := CloseJobs; }
        else { step := Dispatch; }
    }
  }
}
