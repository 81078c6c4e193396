/**
 The parallel test runner: a main thread, worker threads, two FIFO queues, one "break" job per
 worker and an interrupt flag.  Every atomic action of a thread is one step, so a run is any
 interleaving whatsoever.
 */
module WorkerPool {

  // ----- State and steps ------------------------------------------------------------------

  /** A test to run, as the dispatcher describes it. */
  datatype JobSpec = JobSpec(name: string, skip: bool, skipReason: string)

  /** How many threads are started on `cpus` processors; a limit of 0, the default, counts as none. */
  function Processors(cpus: int, limit: int): int {
    if limit == 0 || cpus < limit then cpus else limit
  }

  datatype Config = Config(jobs: seq<JobSpec>, processors: int) {
    /** `range(processors)` is empty for a negative count. */
    ghost function Workers(): nat { if processors < 0 then 0 else processors }

    /** The jobs put on the input queue, in order: the test jobs, then one break job for each worker. */
    ghost function Puts(): nat { |jobs| + Workers() }

    ghost function JobAt(k: nat): Job {
      if k < |jobs|
      then Job(k, false, jobs[k].skip, 0, jobs[k].name, jobs[k].skipReason)
      else Job(k, true, false, 0, "", "")
    }
  }

  /** `id` stands for the identity of the job object. */
  datatype Job = Job(id: nat, isBreak: bool, isSkip: bool, returncode: int, name: string, skipReason: string)

  datatype Worker =
    | NotStarted
    | Waiting               // in input_queue.get()
    | Holding(job: Job)     // has a job, has not looked at it yet
    | Running(job: Job)     // the test process is running
    | Reporting(job: Job)   // about to put the job on the output queue
    | Stopped(job: Job)     // returned on seeing this break job

  datatype State = State(
    started: nat, dispatched: nat, input: seq<Job>, output: seq<Job>,
    workers: seq<Worker>, threadExit: bool, collected: seq<Job>, joined: nat)

  /** What moves: the main thread, worker `i` (whose process, if one ends, yields `code`), or the signal handler. */
  datatype Action = Main | Work(i: nat, code: int) | Interrupt

  ghost function Init(cfg: Config): State {
    State(0, 0, [], [], seq(cfg.Workers(), _ => NotStarted), false, [], 0)
  }

  ghost predicate Done(cfg: Config, s: State) {
    && s.started == cfg.Workers() && s.dispatched == cfg.Puts()
    && |s.collected| == |cfg.jobs| && s.joined == cfg.Workers()
  }

  /** Whether the action can be taken now; `get` blocks on an empty queue and `join` on a live thread. */
  ghost predicate Enabled(cfg: Config, s: State, a: Action)
    requires |s.workers| == cfg.Workers()
  {
    match a
    case Main =>
      if s.started < cfg.Workers() || s.dispatched < cfg.Puts() then true
      else if |s.collected| < |cfg.jobs| then s.output != []
      else s.joined < cfg.Workers() && s.workers[s.joined].Stopped?
    case Work(i, _) =>
      i < |s.workers| && match s.workers[i] {
        case NotStarted => false
        case Waiting => s.input != []
        case Stopped(_) => false
        case _ => true
      }
    case Interrupt => !s.threadExit
  }

  ghost function MainStep(cfg: Config, s: State): State
    requires |s.workers| == cfg.Workers() && Enabled(cfg, s, Main)
  {
    if s.started < cfg.Workers() then
      s.(workers := s.workers[s.started := Waiting], started := s.started + 1)
    else if s.dispatched < cfg.Puts() then
      s.(input := s.input + [cfg.JobAt(s.dispatched)], dispatched := s.dispatched + 1)
    else if |s.collected| < |cfg.jobs| then
      s.(collected := s.collected + [s.output[0]], output := s.output[1..])
    else
      s.(joined := s.joined + 1)
  }

  ghost function WorkStep(s: State, i: nat, code: int): State
    requires i < |s.workers| && (s.workers[i].Waiting? ==> s.input != [])
  {
    match s.workers[i]
    case Waiting => s.(workers := s.workers[i := Holding(s.input[0])], input := s.input[1..])
    case Holding(job) =>
      var next :=
        if job.isBreak then Stopped(job)
        else if s.threadExit then Reporting(job.(isBreak := true))
        else if job.isSkip then Reporting(job)
        else Running(job);
      s.(workers := s.workers[i := next])
    case Running(job) => s.(workers := s.workers[i := Reporting(job.(returncode := code))])
    case Reporting(job) => s.(workers := s.workers[i := Waiting], output := s.output + [job])
    case _ => s
  }

  ghost function Step(cfg: Config, s: State, a: Action): State
    requires |s.workers| == cfg.Workers() && Enabled(cfg, s, a)
  {
    match a
    case Main => MainStep(cfg, s)
    case Work(i, code) => WorkStep(s, i, code)
    case Interrupt => s.(threadExit := true)
  }

  ghost predicate Next(cfg: Config, s: State, s': State) {
    |s.workers| == cfg.Workers() && exists a :: Enabled(cfg, s, a) && s' == Step(cfg, s, a)
  }

  ghost predicate IsRun(cfg: Config, run: seq<State>) {
    && run != [] && run[0] == Init(cfg)
    && forall k :: 0 <= k < |run| - 1 ==> Next(cfg, run[k], run[k + 1])
  }

  /** No thread can move; a further interrupt would not count as progress. */
  ghost predicate Quiet(cfg: Config, s: State)
    requires |s.workers| == cfg.Workers()
  {
    !Enabled(cfg, s, Main) && forall i :: 0 <= i < |s.workers| ==> !Enabled(cfg, s, Work(i, 0))
  }

  // ----- Where every job is ----------------------------------------------------------------

  /** How often the job `id` occurs in a list of jobs. */
  ghost function Listed(jobs: seq<Job>, id: nat): nat {
    if jobs == [] then 0 else (if jobs[0].id == id then 1 else 0) + Listed(jobs[1..], id)
  }

  ghost predicate Has(w: Worker, id: nat) {
    !w.NotStarted? && !w.Waiting? && w.job.id == id
  }

  /** How many workers have the job `id`. */
  ghost function Held(workers: seq<Worker>, id: nat): nat {
    if workers == [] then 0 else (if Has(workers[0], id) then 1 else 0) + Held(workers[1..], id)
  }

  lemma {:induction false} ListedAppend(jobs: seq<Job>, j: Job, id: nat)
    ensures Listed(jobs + [j], id) == Listed(jobs, id) + if j.id == id then 1 else 0
  {
    if jobs != [] {
      assert (jobs + [j])[1..] == jobs[1..] + [j];
      ListedAppend(jobs[1..], j, id);
    }
  }

  lemma {:induction false} HeldUpdate(workers: seq<Worker>, i: nat, w: Worker, id: nat)
    requires i < |workers|
    ensures Held(workers[i := w], id) + (if Has(workers[i], id) then 1 else 0) ==
            Held(workers, id) + if Has(w, id) then 1 else 0
  {
    if i == 0 {
      assert workers[0 := w][1..] == workers[1..];
    } else {
      assert workers[i := w][1..] == workers[1..][i - 1 := w];
      HeldUpdate(workers[1..], i - 1, w, id);
    }
  }

  // ----- The invariant ------------------------------------------------------------------------

  /** A test job that a worker has finished with: as dispatched, except for the outcome. */
  ghost predicate Reported(cfg: Config, threadExit: bool, j: Job) {
    && j.id < |cfg.jobs|
    && j == cfg.JobAt(j.id).(isBreak := j.isBreak, returncode := j.returncode)
    && (j.isBreak ==> threadExit && j.returncode == 0)
    && (j.isSkip ==> j.returncode == 0)
  }

  ghost predicate WorkerOk(cfg: Config, threadExit: bool, w: Worker) {
    match w
    case NotStarted => true
    case Waiting => true
    case Holding(j) => j.id < cfg.Puts() && j == cfg.JobAt(j.id)
    case Running(j) => j.id < |cfg.jobs| && j == cfg.JobAt(j.id) && !j.isSkip
    case Reporting(j) => Reported(cfg, threadExit, j)
    case Stopped(j) => |cfg.jobs| <= j.id < cfg.Puts() && j == cfg.JobAt(j.id)
  }

  ghost function Taken(s: State): int { s.dispatched - |s.input| }

  /** The main thread goes through its phases in order. */
  ghost predicate PhasesOk(cfg: Config, s: State) {
    && |s.workers| == cfg.Workers() && s.started <= cfg.Workers() && s.dispatched <= cfg.Puts()
    && |s.collected| <= |cfg.jobs| && s.joined <= cfg.Workers()
    && (s.dispatched > 0 ==> s.started == cfg.Workers())
    && (|s.collected| > 0 ==> s.started == cfg.Workers() && s.dispatched == cfg.Puts())
    && (s.joined > 0 ==> s.dispatched == cfg.Puts() && |s.collected| == |cfg.jobs|)
  }

  ghost predicate WorkersOk(cfg: Config, s: State) {
    && (forall i :: 0 <= i < |s.workers| ==> WorkerOk(cfg, s.threadExit, s.workers[i]))
    && (forall i :: 0 <= i < |s.workers| ==> (s.workers[i].NotStarted? <==> i >= s.started))
    && (forall i :: 0 <= i < s.joined && i < |s.workers| ==> s.workers[i].Stopped?)
  }

  /** The input queue holds exactly the jobs put but not taken, first in first out. */
  ghost predicate InputOk(cfg: Config, s: State) {
    && 0 <= Taken(s) && (cfg.Workers() == 0 ==> Taken(s) == 0)
    && forall k :: 0 <= k < |s.input| ==> s.input[k] == cfg.JobAt(Taken(s) + k)
  }

  ghost predicate ReportsOk(cfg: Config, s: State) {
    && (forall k :: 0 <= k < |s.output| ==> Reported(cfg, s.threadExit, s.output[k]))
    && (forall k :: 0 <= k < |s.collected| ==> Reported(cfg, s.threadExit, s.collected[k]))
  }

  /** Every job taken from the input queue is in exactly one place, every other job in none of these. */
  ghost predicate Conserved(s: State) {
    forall id: nat :: Held(s.workers, id) + Listed(s.output, id) + Listed(s.collected, id) ==
                      if id < Taken(s) then 1 else 0
  }

  ghost predicate Inv(cfg: Config, s: State) {
    PhasesOk(cfg, s) && WorkersOk(cfg, s) && InputOk(cfg, s) && ReportsOk(cfg, s) && Conserved(s)
  }

  lemma {:induction false} NoneHeld(workers: seq<Worker>, id: nat)
    requires forall i :: 0 <= i < |workers| ==> workers[i].NotStarted?
    ensures Held(workers, id) == 0
  {
    if workers != [] { NoneHeld(workers[1..], id); }
  }

  lemma InvInit(cfg: Config)
    ensures Inv(cfg, Init(cfg))
  {
    forall id { NoneHeld(Init(cfg).workers, id); }
  }

  lemma MainConserves(cfg: Config, s: State)
    requires Inv(cfg, s) && Enabled(cfg, s, Main)
    ensures Conserved(MainStep(cfg, s))
  {
    assert s.started < cfg.Workers() ==> s.workers[s.started].NotStarted?;
    hide WorkersOk, ReportsOk, Reported, WorkerOk;
    if s.started < cfg.Workers() {
      forall id { HeldUpdate(s.workers, s.started, Waiting, id); }
    } else if s.dispatched == cfg.Puts() && |s.collected| < |cfg.jobs| {
      forall id { ListedAppend(s.collected, s.output[0], id); }
    }
  }

  lemma MainKeepsWorkers(cfg: Config, s: State)
    requires Inv(cfg, s) && Enabled(cfg, s, Main)
    ensures WorkersOk(cfg, MainStep(cfg, s))
  {
  }

  lemma InvMain(cfg: Config, s: State)
    requires Inv(cfg, s) && Enabled(cfg, s, Main)
    ensures Inv(cfg, MainStep(cfg, s))
  {
    MainConserves(cfg, s);
    MainKeepsWorkers(cfg, s);
    hide Conserved, Listed, Held, WorkersOk, WorkerOk, Reported;
  }

  lemma WorkConserves(cfg: Config, s: State, i: nat, code: int)
    requires Inv(cfg, s) && Enabled(cfg, s, Work(i, code))
    ensures Conserved(WorkStep(s, i, code))
  {
    hide WorkersOk, ReportsOk, PhasesOk, Reported, WorkerOk;
    var s' := WorkStep(s, i, code);
    assert s.workers[i].Waiting? ==> s.input[0] == cfg.JobAt(Taken(s));
    forall id { HeldUpdate(s.workers, i, s'.workers[i], id); }
    if s.workers[i].Reporting? {
      forall id { ListedAppend(s.output, s.workers[i].job, id); }
    }
  }

  lemma WorkKeepsWorkers(cfg: Config, s: State, i: nat, code: int)
    requires Inv(cfg, s) && Enabled(cfg, s, Work(i, code))
    ensures WorkersOk(cfg, WorkStep(s, i, code))
    ensures s.workers[i].Reporting? ==> Reported(cfg, s.threadExit, s.workers[i].job)
  {
    hide Conserved, Listed, Held, ReportsOk;
    assert WorkerOk(cfg, s.threadExit, s.workers[i]);
    assert s.workers[i].Waiting? ==> s.input[0] == cfg.JobAt(Taken(s));
  }

  lemma WorkKeepsInput(cfg: Config, s: State, i: nat, code: int)
    requires Inv(cfg, s) && Enabled(cfg, s, Work(i, code))
    ensures PhasesOk(cfg, WorkStep(s, i, code)) && InputOk(cfg, WorkStep(s, i, code))
  {
    hide Conserved, WorkersOk, WorkerOk, Reported, Held, Listed, ReportsOk;
  }

  lemma WorkKeepsReports(cfg: Config, s: State, i: nat, code: int)
    requires Inv(cfg, s) && Enabled(cfg, s, Work(i, code))
    requires s.workers[i].Reporting? ==> Reported(cfg, s.threadExit, s.workers[i].job)
    ensures ReportsOk(cfg, WorkStep(s, i, code))
  {
    hide Conserved, WorkersOk, WorkerOk, Reported, Held, Listed, InputOk;
  }

  lemma InvWork(cfg: Config, s: State, i: nat, code: int)
    requires Inv(cfg, s) && Enabled(cfg, s, Work(i, code))
    ensures Inv(cfg, WorkStep(s, i, code))
  {
    hide Conserved, WorkersOk, InputOk, ReportsOk, PhasesOk, WorkStep, Reported;
    WorkConserves(cfg, s, i, code);
    WorkKeepsWorkers(cfg, s, i, code);
    WorkKeepsInput(cfg, s, i, code);
    WorkKeepsReports(cfg, s, i, code);
  }

  lemma InvStep(cfg: Config, s: State, a: Action)
    requires Inv(cfg, s) && Enabled(cfg, s, a)
    ensures Inv(cfg, Step(cfg, s, a))
  {
    match a
    case Main => InvMain(cfg, s);
    case Work(i, code) => InvWork(cfg, s, i, code);
    case Interrupt =>
  }

  /** The invariant holds throughout every run. */
  lemma {:induction false} RunKeepsInv(cfg: Config, run: seq<State>, k: nat)
    requires IsRun(cfg, run) && k < |run|
    ensures Inv(cfg, run[k])
  {
    if k == 0 {
      InvInit(cfg);
    } else {
      RunKeepsInv(cfg, run, k - 1);
      assert Next(cfg, run[k - 1], run[k - 1 + 1]);
      var a :| Enabled(cfg, run[k - 1], a) && run[k] == Step(cfg, run[k - 1], a);
      InvStep(cfg, run[k - 1], a);
    }
  }

  // ----- Termination --------------------------------------------------------------------------

  ghost function WorkerRank(w: Worker): nat {
    match w
    case Holding(_) => 4
    case Running(_) => 3
    case Reporting(_) => 2
    case _ => 0
  }

  ghost function WorkersRank(workers: seq<Worker>): nat {
    if workers == [] then 0 else WorkerRank(workers[0]) + WorkersRank(workers[1..])
  }

  lemma {:induction false} WorkersRankUpdate(workers: seq<Worker>, i: nat, w: Worker)
    requires i < |workers|
    ensures WorkersRank(workers[i := w]) + WorkerRank(workers[i]) == WorkersRank(workers) + WorkerRank(w)
  {
    if i == 0 {
      assert workers[0 := w][1..] == workers[1..];
    } else {
      assert workers[i := w][1..] == workers[1..][i - 1 := w];
      WorkersRankUpdate(workers[1..], i - 1, w);
    }
  }

  /** Steps still to come, at most. */
  ghost function Rank(cfg: Config, s: State): int {
    (cfg.Workers() - s.started) + 6 * (cfg.Puts() - s.dispatched) + 5 * |s.input| + WorkersRank(s.workers)
      + |s.output| + (cfg.Workers() - s.joined) + if s.threadExit then 0 else 1
  }

  lemma WorkLowersRank(cfg: Config, s: State, i: nat, code: int)
    requires |s.workers| == cfg.Workers() && Enabled(cfg, s, Work(i, code))
    ensures Rank(cfg, WorkStep(s, i, code)) < Rank(cfg, s)
  {
    WorkersRankUpdate(s.workers, i, WorkStep(s, i, code).workers[i]);
  }

  lemma StepLowersRank(cfg: Config, s: State, a: Action)
    requires Inv(cfg, s) && Enabled(cfg, s, a)
    ensures Rank(cfg, Step(cfg, s, a)) < Rank(cfg, s)
  {
    match a
    case Main => if s.started < cfg.Workers() { WorkersRankUpdate(s.workers, s.started, Waiting); }
    case Work(i, code) => WorkLowersRank(cfg, s, i, code);
    case Interrupt =>
  }

  lemma RankNatural(cfg: Config, s: State)
    requires Inv(cfg, s)
    ensures Rank(cfg, s) >= 0
  {
  }

  /** No run is longer than the rank of its first state. */
  lemma {:induction false} RunsAreBounded(cfg: Config, run: seq<State>, k: nat)
    requires IsRun(cfg, run) && k < |run|
    ensures 0 <= Rank(cfg, run[k]) <= Rank(cfg, Init(cfg)) - k
  {
    RunKeepsInv(cfg, run, k);
    RankNatural(cfg, run[k]);
    if k > 0 {
      RunsAreBounded(cfg, run, k - 1);
      RunKeepsInv(cfg, run, k - 1);
      hide Rank, Inv, Enabled, Step;
      assert Next(cfg, run[k - 1], run[k - 1 + 1]);
      var a :| Enabled(cfg, run[k - 1], a) && run[k] == Step(cfg, run[k - 1], a);
      StepLowersRank(cfg, run[k - 1], a);
    }
  }

  // ----- Counting jobs ------------------------------------------------------------------------------

  /** How many entries have an id below `n`. */
  ghost function ListedBelow(jobs: seq<Job>, n: nat): nat {
    if jobs == [] then 0 else (if jobs[0].id < n then 1 else 0) + ListedBelow(jobs[1..], n)
  }

  ghost predicate HasBelow(w: Worker, n: nat) {
    !w.NotStarted? && !w.Waiting? && w.job.id < n
  }

  ghost function HeldBelow(workers: seq<Worker>, n: nat): nat {
    if workers == [] then 0 else (if HasBelow(workers[0], n) then 1 else 0) + HeldBelow(workers[1..], n)
  }

  lemma {:induction false} ListedBelowNext(jobs: seq<Job>, n: nat)
    ensures ListedBelow(jobs, 0) == 0
    ensures ListedBelow(jobs, n + 1) == ListedBelow(jobs, n) + Listed(jobs, n)
  {
    if jobs != [] { ListedBelowNext(jobs[1..], n); }
  }

  lemma {:induction false} HeldBelowNext(workers: seq<Worker>, n: nat)
    ensures HeldBelow(workers, 0) == 0
    ensures HeldBelow(workers, n + 1) == HeldBelow(workers, n) + Held(workers, n)
  {
    if workers != [] { HeldBelowNext(workers[1..], n); }
  }

  /** Of the jobs taken, those numbered below `n` make up exactly `n` places. */
  lemma {:induction false} PlacesBelow(s: State, n: nat)
    requires Conserved(s) && n <= Taken(s)
    ensures HeldBelow(s.workers, n) + ListedBelow(s.output, n) + ListedBelow(s.collected, n) == n
  {
    if n == 0 {
      HeldBelowNext(s.workers, 0);
      ListedBelowNext(s.output, 0);
      ListedBelowNext(s.collected, 0);
    } else {
      PlacesBelow(s, n - 1);
      HeldBelowNext(s.workers, n - 1);
      ListedBelowNext(s.output, n - 1);
      ListedBelowNext(s.collected, n - 1);
    }
  }

  lemma {:induction false} AllListedBelow(jobs: seq<Job>, n: nat)
    requires forall k :: 0 <= k < |jobs| ==> jobs[k].id < n
    ensures ListedBelow(jobs, n) == |jobs|
  {
    if jobs != [] { AllListedBelow(jobs[1..], n); }
  }

  lemma {:induction false} HeldBelowAtMost(workers: seq<Worker>, n: nat)
    ensures HeldBelow(workers, n) <= |workers|
    ensures (exists i :: 0 <= i < |workers| && !HasBelow(workers[i], n)) ==> HeldBelow(workers, n) < |workers|
    ensures (forall i :: 0 <= i < |workers| ==> !HasBelow(workers[i], n)) ==> HeldBelow(workers, n) == 0
    ensures (forall i :: 0 <= i < |workers| ==> HasBelow(workers[i], n)) ==> HeldBelow(workers, n) == |workers|
  {
    if workers != [] {
      HeldBelowAtMost(workers[1..], n);
      if i :| 0 <= i < |workers| && !HasBelow(workers[i], n) {
        assert i > 0 ==> !HasBelow(workers[1..][i - 1], n);
      }
    }
  }

  lemma {:induction false} HeldPositive(workers: seq<Worker>, i: nat)
    requires i < |workers| && !workers[i].NotStarted? && !workers[i].Waiting?
    ensures Held(workers, workers[i].job.id) > 0
  {
    if i > 0 { HeldPositive(workers[1..], i - 1); }
  }

  lemma {:induction false} ListedPositive(jobs: seq<Job>, k: nat)
    requires k < |jobs|
    ensures Listed(jobs, jobs[k].id) > 0
  {
    if k > 0 { ListedPositive(jobs[1..], k - 1); }
  }

  /** A worker has stopped only after every test job was taken: break jobs queue behind all of them. */
  lemma StoppedAfterJobs(cfg: Config, s: State, i: nat)
    requires Inv(cfg, s) && i < |s.workers| && s.workers[i].Stopped?
    ensures |cfg.jobs| < Taken(s)
  {
    HeldPositive(s.workers, i);
    assert WorkerOk(cfg, s.threadExit, s.workers[i]);
  }

  /** Reports never outnumber the test jobs, and together with those that workers hold they account for all of them. */
  lemma ReportCount(cfg: Config, s: State)
    requires Inv(cfg, s)
    ensures Taken(s) >= |cfg.jobs| ==>
              HeldBelow(s.workers, |cfg.jobs|) + |s.output| + |s.collected| == |cfg.jobs|
    ensures |s.output| + |s.collected| <= |cfg.jobs|
    ensures Taken(s) < |cfg.jobs| ==> |s.output| + |s.collected| < |cfg.jobs|
  {
    var T, n := |cfg.jobs|, if Taken(s) < |cfg.jobs| then Taken(s) else |cfg.jobs|;
    PlacesBelow(s, n);
    forall k | 0 <= k < |s.output| ensures s.output[k].id < n { ListedPositive(s.output, k); }
    forall k | 0 <= k < |s.collected| ensures s.collected[k].id < n { ListedPositive(s.collected, k); }
    AllListedBelow(s.output, n);
    AllListedBelow(s.collected, n);
  }

  // ----- Deadlock and completion ------------------------------------------------------------------------

  /** Somebody to run the jobs, or nothing to run. */
  ghost predicate Staffed(cfg: Config) {
    cfg.Workers() >= 1 || cfg.jobs == []
  }

  ghost predicate Busy(w: Worker) {
    w.Holding? || w.Running? || w.Reporting?
  }

  /** While reports are awaited and none is queued, some worker can move. */
  lemma CollectCanProceed(cfg: Config, s: State)
    requires Inv(cfg, s) && cfg.Workers() >= 1
    requires s.dispatched == cfg.Puts() && s.output == [] && |s.collected| < |cfg.jobs|
    ensures exists i :: 0 <= i < |s.workers| && Enabled(cfg, s, Work(i, 0))
  {
    if i :| 0 <= i < |s.workers| && Busy(s.workers[i]) {
      assert Enabled(cfg, s, Work(i, 0));
    } else {
      if Taken(s) >= |cfg.jobs| {
        ReportCount(cfg, s);
        assert forall i :: 0 <= i < |s.workers| ==> WorkerOk(cfg, s.threadExit, s.workers[i]);
        HeldBelowAtMost(s.workers, |cfg.jobs|);
        assert false;
      }
      if s.workers[0].Stopped? { StoppedAfterJobs(cfg, s, 0); }
      assert Enabled(cfg, s, Work(0, 0));
    }
  }

  /** While the next worker to join is alive, some worker can move. */
  lemma JoinCanProceed(cfg: Config, s: State)
    requires Inv(cfg, s) && s.dispatched == cfg.Puts() && |s.collected| == |cfg.jobs|
    requires s.joined < cfg.Workers() && !s.workers[s.joined].Stopped?
    ensures exists i :: 0 <= i < |s.workers| && Enabled(cfg, s, Work(i, 0))
  {
    var j := s.joined;
    if !Busy(s.workers[j]) && s.input == [] {
      assert s.workers[j].Waiting?;
      ReportCount(cfg, s);
      PlacesBelow(s, cfg.Puts());
      AllListedBelow(s.collected, cfg.Puts());
      assert !HasBelow(s.workers[j], cfg.Puts());
      HeldBelowAtMost(s.workers, cfg.Puts());
      assert false;
    }
    assert Enabled(cfg, s, Work(j, 0));
  }

  /** With somebody to run the jobs, a reachable state that is not finished is never quiet. */
  lemma NoDeadlock(cfg: Config, s: State)
    requires Inv(cfg, s) && Staffed(cfg) && Quiet(cfg, s)
    ensures Done(cfg, s)
  {
    if s.started == cfg.Workers() && s.dispatched == cfg.Puts() {
      if |s.collected| < |cfg.jobs| && s.output == [] {
        CollectCanProceed(cfg, s);
      } else if |s.collected| == |cfg.jobs| && s.joined < cfg.Workers() && !s.workers[s.joined].Stopped? {
        JoinCanProceed(cfg, s);
      }
    }
  }

  /** Without workers no report ever arrives. */
  lemma NobodyFinishes(cfg: Config, s: State)
    requires Inv(cfg, s) && !Staffed(cfg)
    ensures !Done(cfg, s)
  {
    ReportCount(cfg, s);
  }

  lemma {:induction false} RunToQuiet(cfg: Config, run: seq<State>) returns (full: seq<State>)
    requires IsRun(cfg, run)
    ensures IsRun(cfg, full) && |full[|full| - 1].workers| == cfg.Workers() && Quiet(cfg, full[|full| - 1])
    decreases Rank(cfg, Init(cfg)) - |run|
  {
    var s := run[|run| - 1];
    RunKeepsInv(cfg, run, |run| - 1);
    RunsAreBounded(cfg, run, |run| - 1);
    if Quiet(cfg, s) {
      full := run;
    } else {
      var a :| Enabled(cfg, s, a) && a != Interrupt;
      var run' := run + [Step(cfg, s, a)];
      forall k | 0 <= k < |run'| - 1 ensures Next(cfg, run'[k], run'[k + 1]) {
        if k < |run| - 1 { assert Next(cfg, run[k], run[k + 1]); }
      }
      RunsAreBounded(cfg, run', |run|);
      full := RunToQuiet(cfg, run');
    }
  }

  ghost predicate IsFullRun(cfg: Config, run: seq<State>) {
    IsRun(cfg, run) && |run[|run| - 1].workers| == cfg.Workers() && Quiet(cfg, run[|run| - 1])
  }

  /** Every full run ends with all reports read and all threads joined exactly when there is a worker or no job. */
  lemma FinishesIffStaffed(cfg: Config)
    ensures Staffed(cfg) <==> forall run :: IsFullRun(cfg, run) ==> Done(cfg, run[|run| - 1])
  {
    if Staffed(cfg) {
      forall run | IsFullRun(cfg, run) ensures Done(cfg, run[|run| - 1]) {
        RunKeepsInv(cfg, run, |run| - 1);
        NoDeadlock(cfg, run[|run| - 1]);
      }
    } else {
      var run := RunToQuiet(cfg, [Init(cfg)]);
      RunKeepsInv(cfg, run, |run| - 1);
      NobodyFinishes(cfg, run[|run| - 1]);
      assert IsFullRun(cfg, run);
    }
  }

  /** So with processors reported, only a negative process limit can keep the main thread waiting. */
  lemma FinishesIffLimitNotNegative(jobs: seq<JobSpec>, cpus: int, limit: int)
    ensures var cfg := Config(jobs, Processors(cpus, limit));
      jobs == [] || (cpus >= 1 && limit >= 0) <==> forall run :: IsFullRun(cfg, run) ==> Done(cfg, run[|run| - 1])
  {
    FinishesIffStaffed(Config(jobs, Processors(cpus, limit)));
  }

  /** With one job and a limit of -1, every run gets stuck before the end, on any number of processors. */
  lemma NegativeLimitHangs(job: JobSpec, cpus: int, run: seq<State>)
    requires IsFullRun(Config([job], Processors(cpus, -1)), run)
    ensures !Done(Config([job], Processors(cpus, -1)), run[|run| - 1])
  {
    var cfg := Config([job], Processors(cpus, -1));
    RunKeepsInv(cfg, run, |run| - 1);
    NobodyFinishes(cfg, run[|run| - 1]);
  }

  lemma {:induction false} ListedZero(jobs: seq<Job>, id: nat)
    requires forall k :: 0 <= k < |jobs| ==> jobs[k].id != id
    ensures Listed(jobs, id) == 0
  {
    if jobs != [] { ListedZero(jobs[1..], id); }
  }

  lemma {:induction false} HeldZero(workers: seq<Worker>, id: nat)
    requires forall i :: 0 <= i < |workers| ==> !Has(workers[i], id)
    ensures Held(workers, id) == 0
  {
    if workers != [] { HeldZero(workers[1..], id); }
  }

  /** At the end nothing is left on the input queue: all break jobs are gone too. */
  lemma AllTaken(cfg: Config, s: State)
    requires Inv(cfg, s) && Done(cfg, s)
    ensures Taken(s) == cfg.Puts() && s.output == []
  {
    ReportCount(cfg, s);
    forall i | 0 <= i < |s.workers| ensures HasBelow(s.workers[i], Taken(s)) {
      assert s.workers[i].Stopped?;
      HeldPositive(s.workers, i);
    }
    HeldBelowAtMost(s.workers, Taken(s));
    forall k | 0 <= k < |s.collected| ensures s.collected[k].id < Taken(s) { ListedPositive(s.collected, k); }
    AllListedBelow(s.collected, Taken(s));
    PlacesBelow(s, Taken(s));
  }

  /**
   When the main thread is done, every job has been reported exactly once, both queues are empty,
   and the workers have consumed exactly the break jobs, one each.
   */
  lemma FinalState(cfg: Config, s: State)
    requires Inv(cfg, s) && Done(cfg, s)
    ensures forall id: nat :: Listed(s.collected, id) == if id < |cfg.jobs| then 1 else 0
    ensures s.input == [] && s.output == []
    ensures forall i :: 0 <= i < |s.workers| ==> s.workers[i].Stopped?
    ensures forall id: nat :: Held(s.workers, id) == if |cfg.jobs| <= id < cfg.Puts() then 1 else 0
  {
    AllTaken(cfg, s);
    forall i | 0 <= i < |s.workers| ensures s.workers[i].Stopped? && s.workers[i].job.id >= |cfg.jobs| {
      assert WorkerOk(cfg, s.threadExit, s.workers[i]);
    }
    forall id: nat
      ensures Listed(s.collected, id) == if id < |cfg.jobs| then 1 else 0
      ensures Held(s.workers, id) == if |cfg.jobs| <= id < cfg.Puts() then 1 else 0
    {
      if id < |cfg.jobs| {
        HeldZero(s.workers, id);
      } else {
        assert forall k :: 0 <= k < |s.collected| ==> Reported(cfg, s.threadExit, s.collected[k]);
        ListedZero(s.collected, id);
      }
    }
  }

  /** Every interleaving that can go no further has reported each test job exactly once and stopped each worker on a
      break job of its own; and none is longer than the rank of the first state allows. */
  lemma FullRunReportsOnce(cfg: Config, run: seq<State>)
    requires Staffed(cfg) && IsFullRun(cfg, run)
    ensures var s := run[|run| - 1];
      && Done(cfg, s) && s.input == [] && s.output == []
      && (forall id: nat :: Listed(s.collected, id) == if id < |cfg.jobs| then 1 else 0)
      && (forall i :: 0 <= i < |s.workers| ==> s.workers[i].Stopped?)
      && (forall id: nat :: Held(s.workers, id) == if |cfg.jobs| <= id < cfg.Puts() then 1 else 0)
    ensures |run| <= Rank(cfg, Init(cfg)) + 1
  {
    var k := |run| - 1;
    RunKeepsInv(cfg, run, k);
    RunsAreBounded(cfg, run, k);
    NoDeadlock(cfg, run[k]);
    FinalState(cfg, run[k]);
  }

  // ----- Interrupts ---------------------------------------------------------------------------------------

  /** Of the test jobs from number `t` on, none is being run and none has been reported other than as interrupted. */
  ghost predicate HandedBack(cfg: Config, s: State, t: int) {
    && (forall i :: 0 <= i < |s.workers| ==> match s.workers[i] {
          case Running(j) => j.id < t
          case Reporting(j) => j.id < t || j.isBreak
          case _ => true
        })
    && (forall k :: 0 <= k < |s.output| ==> s.output[k].id < t || s.output[k].isBreak)
    && (forall k :: 0 <= k < |s.collected| ==> s.collected[k].id < t || s.collected[k].isBreak)
  }

  lemma HandedBackStart(cfg: Config, s: State)
    requires Inv(cfg, s)
    ensures HandedBack(cfg, s, Taken(s))
  {
    forall i | 0 <= i < |s.workers| && !s.workers[i].NotStarted? && !s.workers[i].Waiting? ensures s.workers[i].job.id < Taken(s) {
      HeldPositive(s.workers, i);
    }
    forall k | 0 <= k < |s.output| ensures s.output[k].id < Taken(s) { ListedPositive(s.output, k); }
    forall k | 0 <= k < |s.collected| ensures s.collected[k].id < Taken(s) { ListedPositive(s.collected, k); }
  }

  lemma HandedBackStep(cfg: Config, s: State, a: Action, t: int)
    requires |s.workers| == cfg.Workers() && Enabled(cfg, s, a) && s.threadExit && HandedBack(cfg, s, t)
    ensures Step(cfg, s, a).threadExit && HandedBack(cfg, Step(cfg, s, a), t)
  {
    if a.Work? {
      var w := s.workers[a.i];
      assert w.Reporting? ==> w.job.id < t || w.job.isBreak;
    }
  }

  /** Once the flag is set, it stays set and no further job is run. */
  lemma {:induction false} HandedBackLater(cfg: Config, run: seq<State>, k: nat, m: nat)
    requires IsRun(cfg, run) && k <= m < |run| && run[k].threadExit
    ensures run[m].threadExit && HandedBack(cfg, run[m], Taken(run[k]))
  {
    if m == k {
      RunKeepsInv(cfg, run, k);
      HandedBackStart(cfg, run[k]);
    } else {
      hide Inv, Enabled, Step, HandedBack;
      HandedBackLater(cfg, run, k, m - 1);
      assert Next(cfg, run[m - 1], run[m - 1 + 1]);
      var a :| Enabled(cfg, run[m - 1], a) && run[m] == Step(cfg, run[m - 1], a);
      HandedBackStep(cfg, run[m - 1], a, Taken(run[k]));
    }
  }

  /** Every job still on the input queue, or not yet put, when the interrupt flag is set ends up reported as interrupted. */
  lemma InterruptDropsTheRest(cfg: Config, run: seq<State>, k: nat, id: nat)
    requires Staffed(cfg) && IsFullRun(cfg, run) && k < |run| && run[k].threadExit
    requires Taken(run[k]) <= id < |cfg.jobs|
    ensures ReportedAs(run[|run| - 1].collected, id, Interrupted)
  {
    var m := |run| - 1;
    RunKeepsInv(cfg, run, m);
    NoDeadlock(cfg, run[m]);
    HandedBackLater(cfg, run, k, m);
    var r := TheReport(cfg, run[m], id);
  }

  // ----- What becomes of a job --------------------------------------------------------------------------

  ghost predicate Steps(cfg: Config, s: State, a: Action, s': State) {
    |s.workers| == cfg.Workers() && Enabled(cfg, s, a) && s' == Step(cfg, s, a)
  }

  /** A run with the action of every step. */
  ghost predicate IsTrace(cfg: Config, run: seq<State>, acts: seq<Action>) {
    && run != [] && run[0] == Init(cfg) && |acts| == |run| - 1
    && forall k :: 0 <= k < |acts| ==> Steps(cfg, run[k], acts[k], run[k + 1])
  }

  lemma TraceIsRun(cfg: Config, run: seq<State>, acts: seq<Action>)
    requires IsTrace(cfg, run, acts)
    ensures IsRun(cfg, run)
  {
    hide Enabled, Step, Init;
    forall k | 0 <= k < |run| - 1 ensures Next(cfg, run[k], run[k + 1]) {
      assert Steps(cfg, run[k], acts[k], run[k + 1]);
    }
  }

  /** Every run is the run of some actions. */
  lemma {:induction false} RunHasTrace(cfg: Config, run: seq<State>) returns (acts: seq<Action>)
    requires IsRun(cfg, run)
    ensures IsTrace(cfg, run, acts)
  {
    hide Enabled, Step, Init;
    if |run| == 1 {
      acts := [];
    } else {
      var n := |run| - 1;
      assert Next(cfg, run[n - 1], run[n - 1 + 1]);
      var a :| Enabled(cfg, run[n - 1], a) && run[n] == Step(cfg, run[n - 1], a);
      forall k | 0 <= k < |run[..n]| - 1 ensures Next(cfg, run[..n][k], run[..n][k + 1]) {
        assert Next(cfg, run[k], run[k + 1]);
      }
      acts := RunHasTrace(cfg, run[..n]);
      forall k | 0 <= k < |acts| ensures Steps(cfg, run[k], acts[k], run[k + 1]) {
        assert Steps(cfg, run[..n][k], acts[k], run[..n][k + 1]);
      }
      acts := acts + [a];
    }
  }

  /** In step `k` a worker looks at the job `id` that it has just taken. */
  ghost predicate LooksAt(run: seq<State>, acts: seq<Action>, k: nat, id: nat) {
    && k < |acts| && k < |run| && acts[k].Work? && acts[k].i < |run[k].workers|
    && run[k].workers[acts[k].i].Holding? && run[k].workers[acts[k].i].job.id == id
  }

  /** In step `k` the process of the job `id` ends, with the code that the action carries. */
  ghost predicate Ends(run: seq<State>, acts: seq<Action>, k: nat, id: nat) {
    && k < |acts| && k < |run| && acts[k].Work? && acts[k].i < |run[k].workers|
    && run[k].workers[acts[k].i].Running? && run[k].workers[acts[k].i].job.id == id
  }

  /** The job is on its way back, and will be reported as `j`. */
  ghost predicate Settled(s: State, id: nat, j: Job) {
    && (forall i :: 0 <= i < |s.workers| && Has(s.workers[i], id) ==> s.workers[i] == Reporting(j))
    && (forall k :: 0 <= k < |s.output| && s.output[k].id == id ==> s.output[k] == j)
    && (forall k :: 0 <= k < |s.collected| && s.collected[k].id == id ==> s.collected[k] == j)
  }

  /** What one worker has, nobody else has. */
  lemma HeldAlone(s: State, i: nat, id: nat)
    requires Conserved(s) && i < |s.workers| && Has(s.workers[i], id)
    ensures forall j :: 0 <= j < |s.workers| && j != i ==> !Has(s.workers[j], id)
    ensures forall k :: 0 <= k < |s.output| ==> s.output[k].id != id
    ensures forall k :: 0 <= k < |s.collected| ==> s.collected[k].id != id
    ensures id < Taken(s)
  {
    HeldUpdate(s.workers, i, Waiting, id);
    var others := s.workers[i := Waiting];
    assert Held(s.workers, id) + Listed(s.output, id) + Listed(s.collected, id) == if id < Taken(s) then 1 else 0;
    forall j | 0 <= j < |s.workers| && j != i ensures !Has(s.workers[j], id) {
      if Has(others[j], id) { HeldPositive(others, j); }
    }
    forall k | 0 <= k < |s.output| ensures s.output[k].id != id {
      if s.output[k].id == id { ListedPositive(s.output, k); }
    }
    forall k | 0 <= k < |s.collected| ensures s.collected[k].id != id {
      if s.collected[k].id == id { ListedPositive(s.collected, k); }
    }
  }

  lemma SettledStep(cfg: Config, s: State, a: Action, s': State, id: nat, j: Job)
    requires Inv(cfg, s) && Steps(cfg, s, a, s') && id < Taken(s) && Settled(s, id, j)
    ensures id < Taken(s') && Settled(s', id, j)
  {
    hide Conserved, WorkersOk, ReportsOk, PhasesOk;
    if a.Work? && s.workers[a.i].Waiting? { assert s.input[0] == cfg.JobAt(Taken(s) + 0); }
  }

  lemma {:induction false} SettledLater(cfg: Config, run: seq<State>, acts: seq<Action>, k: nat, m: nat, id: nat, j: Job)
    requires IsTrace(cfg, run, acts) && k <= m < |run| && id < Taken(run[k]) && Settled(run[k], id, j)
    ensures id < Taken(run[m]) && Settled(run[m], id, j)
    decreases m - k
  {
    if k < m {
      hide Settled, Taken, Init, Steps, Inv, IsRun;
      SettledLater(cfg, run, acts, k, m - 1, id, j);
      TraceIsRun(cfg, run, acts);
      RunKeepsInv(cfg, run, m - 1);
      assert Steps(cfg, run[m - 1], acts[m - 1], run[m - 1 + 1]);
      SettledStep(cfg, run[m - 1], acts[m - 1], run[m], id, j);
    }
  }

  /** `r` is the one report of its job. */
  ghost predicate OnlyReport(reports: seq<Job>, r: Job) {
    r in reports && forall x :: x in reports && x.id == r.id ==> x == r
  }

  ghost predicate IsFullTrace(cfg: Config, run: seq<State>, acts: seq<Action>) {
    IsTrace(cfg, run, acts) && Staffed(cfg) && IsFullRun(cfg, run)
  }

  lemma TraceEnds(cfg: Config, run: seq<State>, acts: seq<Action>)
    requires IsFullTrace(cfg, run, acts)
    ensures Inv(cfg, run[|run| - 1]) && Done(cfg, run[|run| - 1]) && Taken(run[|run| - 1]) == cfg.Puts()
    ensures forall w :: w in run[|run| - 1].workers ==> w.Stopped?
  {
    RunKeepsInv(cfg, run, |run| - 1);
    NoDeadlock(cfg, run[|run| - 1]);
    AllTaken(cfg, run[|run| - 1]);
    FinalState(cfg, run[|run| - 1]);
  }

  lemma SettledReport(cfg: Config, run: seq<State>, acts: seq<Action>, k: nat, j: Job)
    requires IsFullTrace(cfg, run, acts) && k < |run| && j.id < |cfg.jobs| && j.id < Taken(run[k]) && Settled(run[k], j.id, j)
    ensures OnlyReport(run[|run| - 1].collected, j)
  {
    hide Inv, Done, Init, IsTrace, IsFullRun;
    TraceEnds(cfg, run, acts);
    SettledLater(cfg, run, acts, k, |run| - 1, j.id, j);
    var n := TheReport(cfg, run[|run| - 1], j.id);
  }

  /** The report of a job that was handed back, skipped, or run to exit code `code`. */
  ghost function Report(cfg: Config, id: nat, isBreak: bool, code: int): Job
    requires id < |cfg.jobs|
  {
    Job(id, isBreak, cfg.jobs[id].skip, code, cfg.jobs[id].name, cfg.jobs[id].skipReason)
  }

  lemma LookStep(cfg: Config, s: State, a: Action, s': State, id: nat)
    requires Inv(cfg, s) && Steps(cfg, s, a, s') && a.Work? && id < |cfg.jobs|
    requires s.workers[a.i].Holding? && s.workers[a.i].job.id == id
    ensures id < Taken(s')
    ensures if s.threadExit then Settled(s', id, Report(cfg, id, true, 0))
            else if cfg.jobs[id].skip then Settled(s', id, Report(cfg, id, false, 0))
            else s'.workers[a.i].Running? && s'.workers[a.i].job.id == id
  {
    HeldAlone(s, a.i, id);
    assert WorkerOk(cfg, s.threadExit, s.workers[a.i]);
    hide Conserved, Held, Listed, ReportsOk, InputOk, PhasesOk;
  }

  lemma EndStep(cfg: Config, s: State, a: Action, s': State, id: nat)
    requires Inv(cfg, s) && Steps(cfg, s, a, s') && a.Work? && id < |cfg.jobs|
    requires s.workers[a.i].Running? && s.workers[a.i].job.id == id
    ensures id < Taken(s') && !cfg.jobs[id].skip && Settled(s', id, Report(cfg, id, false, a.code))
  {
    HeldAlone(s, a.i, id);
    assert WorkerOk(cfg, s.threadExit, s.workers[a.i]);
    hide Conserved, Held, Listed, ReportsOk, InputOk, PhasesOk;
  }

  /** The next step of a worker that has a job to look at or to run. */
  lemma {:induction false} NextWork(cfg: Config, run: seq<State>, acts: seq<Action>, k: nat, i: nat) returns (m: nat)
    requires IsFullTrace(cfg, run, acts) && k < |run| && i < |run[k].workers|
    requires run[k].workers[i].Holding? || run[k].workers[i].Running?
    ensures k <= m < |acts| && acts[m].Work? && acts[m].i == i
    ensures i < |run[m].workers| && run[m].workers[i] == run[k].workers[i]
    decreases |run| - k
  {
    TraceEnds(cfg, run, acts);
    hide Inv, Done, Init, IsFullRun;
    assert run[k].workers[i] in run[k].workers;
    assert k < |acts| && Steps(cfg, run[k], acts[k], run[k + 1]);
    if acts[k].Work? && acts[k].i == i {
      m := k;
    } else {
      TraceIsRun(cfg, run, acts);
      RunKeepsInv(cfg, run, k);
      OtherWorker(cfg, run[k], acts[k], run[k + 1], i);
      m := NextWork(cfg, run, acts, k + 1, i);
    }
  }

  lemma OtherWorker(cfg: Config, s: State, a: Action, s': State, i: nat)
    requires WorkersOk(cfg, s) && Steps(cfg, s, a, s') && i < |s.workers| && (a.Work? ==> a.i != i) && !s.workers[i].NotStarted?
    ensures i < |s'.workers| && s'.workers[i] == s.workers[i]
  {
  }

  /** Every job is taken and looked at. */
  lemma {:induction false} LookedAt(cfg: Config, run: seq<State>, acts: seq<Action>, k: nat, id: nat) returns (m: nat)
    requires IsFullTrace(cfg, run, acts) && id < |cfg.jobs| && k < |run| && Taken(run[k]) <= id
    ensures LooksAt(run, acts, m, id)
    decreases |run| - k
  {
    TraceEnds(cfg, run, acts);
    TraceIsRun(cfg, run, acts);
    RunKeepsInv(cfg, run, k);
    hide IsFullTrace, Done, Init, WorkersOk, ReportsOk, Conserved;
    assert k < |acts| && Steps(cfg, run[k], acts[k], run[k + 1]);
    if Taken(run[k + 1]) <= id {
      m := LookedAt(cfg, run, acts, k + 1, id);
    } else {
      assert run[k].input[0] == cfg.JobAt(Taken(run[k]) + 0);
      m := NextWork(cfg, run, acts, k + 1, acts[k].i);
    }
  }

  /** What becomes of a job, in every full run.  Some worker looks at it.  If the interrupt flag is set by then, the job is
      reported as interrupted; if not, it is skipped when it is marked so, and otherwise run until its process ends.
      A job that was run is reported with the exit code of its process, interrupt or not. */
  lemma JobFate(cfg: Config, run: seq<State>, acts: seq<Action>, id: nat)
    requires IsFullTrace(cfg, run, acts) && id < |cfg.jobs|
    ensures exists k: nat :: LooksAt(run, acts, k, id)
    ensures forall k: nat :: LooksAt(run, acts, k, id) ==>
              if run[k].threadExit then OnlyReport(run[|run| - 1].collected, Report(cfg, id, true, 0))
              else if cfg.jobs[id].skip then OnlyReport(run[|run| - 1].collected, Report(cfg, id, false, 0))
              else exists m: nat :: m > k && Ends(run, acts, m, id)
    ensures forall m: nat :: Ends(run, acts, m, id) ==>
              !cfg.jobs[id].skip && OnlyReport(run[|run| - 1].collected, Report(cfg, id, false, acts[m].code))
  {
    TraceIsRun(cfg, run, acts);
    hide Init, Inv, Steps, Settled, Taken, IsFullRun, OnlyReport, Report;
    assert Taken(run[0]) <= id by { TakenAtStart(cfg, run); }
    var first := LookedAt(cfg, run, acts, 0, id);
    forall k: nat | LooksAt(run, acts, k, id)
      ensures if run[k].threadExit then OnlyReport(run[|run| - 1].collected, Report(cfg, id, true, 0))
              else if cfg.jobs[id].skip then OnlyReport(run[|run| - 1].collected, Report(cfg, id, false, 0))
              else exists m: nat :: m > k && Ends(run, acts, m, id)
    {
      FateOfLook(cfg, run, acts, k, id);
    }
    forall m: nat | Ends(run, acts, m, id)
      ensures !cfg.jobs[id].skip && OnlyReport(run[|run| - 1].collected, Report(cfg, id, false, acts[m].code))
    {
      RunKeepsInv(cfg, run, m);
      assert Steps(cfg, run[m], acts[m], run[m + 1]);
      EndStep(cfg, run[m], acts[m], run[m + 1], id);
      SettledReport(cfg, run, acts, m + 1, Report(cfg, id, false, acts[m].code));
    }
  }

  lemma TakenAtStart(cfg: Config, run: seq<State>)
    requires IsRun(cfg, run)
    ensures Taken(run[0]) == 0
  {
  }

  lemma FateOfLook(cfg: Config, run: seq<State>, acts: seq<Action>, k: nat, id: nat)
    requires IsFullTrace(cfg, run, acts) && id < |cfg.jobs| && LooksAt(run, acts, k, id)
    ensures if run[k].threadExit then OnlyReport(run[|run| - 1].collected, Report(cfg, id, true, 0))
            else if cfg.jobs[id].skip then OnlyReport(run[|run| - 1].collected, Report(cfg, id, false, 0))
            else exists m: nat :: m > k && Ends(run, acts, m, id)
  {
    TraceIsRun(cfg, run, acts);
    RunKeepsInv(cfg, run, k);
    hide Init, Inv, Steps, Settled, Taken, IsFullRun, OnlyReport;
    assert Steps(cfg, run[k], acts[k], run[k + 1]);
    LookStep(cfg, run[k], acts[k], run[k + 1], id);
    if run[k].threadExit {
      SettledReport(cfg, run, acts, k + 1, Report(cfg, id, true, 0));
    } else if cfg.jobs[id].skip {
      SettledReport(cfg, run, acts, k + 1, Report(cfg, id, false, 0));
    } else {
      assert Inv(cfg, run[k + 1]) by { RunKeepsInv(cfg, run, k + 1); }
      SameWorkers(cfg, run[k], acts[k], run[k + 1]);
      var m := NextWork(cfg, run, acts, k + 1, acts[k].i);
      assert Ends(run, acts, m, id);
    }
  }

  lemma SameWorkers(cfg: Config, s: State, a: Action, s': State)
    requires Steps(cfg, s, a, s')
    ensures |s'.workers| == |s.workers|
  {
  }

  // ----- The summary ------------------------------------------------------------------------------------

  datatype Status = Interrupted | Skip | Pass | Fail | Valgrind | Crash

  function StatusOf(j: Job): Status {
    if j.isBreak then Interrupted
    else if j.isSkip then Skip
    else if j.returncode == 0 then Pass
    else if j.returncode == 1 then Fail
    else if j.returncode == 2 then Valgrind
    else Crash
  }

  function LabelOf(j: Job): string {
    if j.isSkip then j.name + " (" + j.skipReason + ")" else j.name
  }

  /** The labels of the reports with the given status, in order of arrival. */
  function Labels(reports: seq<Job>, status: Status): seq<string> {
    if reports == [] then [] else
    var j := reports[|reports| - 1];
    Labels(reports[..|reports| - 1], status) + if StatusOf(j) == status then [LabelOf(j)] else []
  }

  datatype Summary = Summary(
    passed: nat, failed: nat, failedNames: seq<string>, crashed: nat, crashedNames: seq<string>,
    valgrind: nat, valgrindNames: seq<string>, skipped: nat, skippedNames: seq<string>)

  /** The collection loop and the result of the run. */
  method Summarise(reports: seq<Job>, totalTests: nat) returns (r: Summary, result: int)
    ensures r.failedNames == Labels(reports, Fail) && r.crashedNames == Labels(reports, Crash)
    ensures r.valgrindNames == Labels(reports, Valgrind) && r.skippedNames == Labels(reports, Skip)
    ensures r.passed == |Labels(reports, Pass)|
    ensures r.failed == |r.failedNames| && r.crashed == |r.crashedNames|
    ensures r.valgrind == |r.valgrindNames| && r.skipped == |r.skippedNames|
    ensures r.passed + r.failed + r.valgrind + r.crashed + r.skipped + |Labels(reports, Interrupted)| == |reports|
    // What is counted, on the fields of the reports.
    ensures r.skipped == |set k | 0 <= k < |reports| && !reports[k].isBreak && reports[k].isSkip|
    ensures r.passed == |set k | 0 <= k < |reports| && WasRun(reports[k]) && reports[k].returncode == 0|
    ensures r.failed == |set k | 0 <= k < |reports| && WasRun(reports[k]) && reports[k].returncode == 1|
    ensures r.valgrind == |set k | 0 <= k < |reports| && WasRun(reports[k]) && reports[k].returncode == 2|
    ensures r.crashed == |set k | 0 <= k < |reports| && WasRun(reports[k]) && reports[k].returncode !in {0, 1, 2}|
    // What is listed.
    ensures forall k :: 0 <= k < |reports| ==> Named(reports[k], r)
    ensures result == 0 || result == 1
    ensures totalTests == |reports| ==> (result == 0 <==> forall k :: 0 <= k < |reports| ==> IsFine(reports[k]))
  {
    var passed, failed, crashed, valgrind, skipped := 0, 0, 0, 0, 0;
    var failedNames, crashedNames, valgrindNames, skippedNames: seq<string> := [], [], [], [];
    for i := 0 to |reports|
      invariant failedNames == Labels(reports[..i], Fail) && failed == |failedNames|
      invariant crashedNames == Labels(reports[..i], Crash) && crashed == |crashedNames|
      invariant valgrindNames == Labels(reports[..i], Valgrind) && valgrind == |valgrindNames|
      invariant skippedNames == Labels(reports[..i], Skip) && skipped == |skippedNames|
      invariant passed == |Labels(reports[..i], Pass)|
    {
      var job := reports[i];
      assert reports[..i + 1][..i] == reports[..i];
      if job.isBreak { continue; }
      if job.isSkip {
        skipped := skipped + 1;
        skippedNames := skippedNames + [job.name + " (" + job.skipReason + ")"];
      } else if job.returncode == 0 {
        passed := passed + 1;
      } else if job.returncode == 1 {
        failed := failed + 1;
        failedNames := failedNames + [job.name];
      } else if job.returncode == 2 {
        valgrind := valgrind + 1;
        valgrindNames := valgrindNames + [job.name];
      } else {
        crashed := crashed + 1;
        crashedNames := crashedNames + [job.name];
      }
    }
    assert reports[..|reports|] == reports;
    r := Summary(passed, failed, failedNames, crashed, crashedNames, valgrind, valgrindNames, skipped, skippedNames);
    LabelsPartition(reports);
    LabelsAll(reports);
    CountedFields(reports);
    ListedNames(reports, r);
    result := if passed + skipped == totalTests then 0 else 1;
  }

  /** A process was run for the job. */
  ghost predicate WasRun(j: Job) { !j.isBreak && !j.isSkip }

  /** The job was skipped, or its process returned 0. */
  ghost predicate IsFine(j: Job) { !j.isBreak && (j.isSkip || j.returncode == 0) }

  ghost function WithStatus(reports: seq<Job>, n: nat, status: Status): set<int>
    requires n <= |reports|
  {
    set k | 0 <= k < n && StatusOf(reports[k]) == status
  }

  lemma WithStatusNext(reports: seq<Job>, n: nat, status: Status)
    requires n < |reports|
    ensures |WithStatus(reports, n + 1, status)| == |WithStatus(reports, n, status)| + if StatusOf(reports[n]) == status then 1 else 0
  {
    hide StatusOf;
    assert WithStatus(reports, n + 1, status) == WithStatus(reports, n, status) + if StatusOf(reports[n]) == status then {n} else {};
  }

  lemma {:induction false} LabelsCount(reports: seq<Job>, n: nat, status: Status)
    requires n <= |reports|
    ensures |Labels(reports[..n], status)| == |WithStatus(reports, n, status)|
  {
    if n > 0 {
      hide StatusOf, LabelOf, WithStatus;
      LabelsCount(reports, n - 1, status);
      WithStatusNext(reports, n - 1, status);
      assert reports[..n][..n - 1] == reports[..n - 1];
    }
  }

  /** The summary names the job where it belongs. */
  ghost predicate Named(j: Job, r: Summary) {
    && (!j.isBreak && j.isSkip ==> j.name + " (" + j.skipReason + ")" in r.skippedNames)
    && (WasRun(j) && j.returncode == 1 ==> j.name in r.failedNames)
    && (WasRun(j) && j.returncode == 2 ==> j.name in r.valgrindNames)
    && (WasRun(j) && j.returncode !in {0, 1, 2} ==> j.name in r.crashedNames)
  }

  lemma {:induction false} LabelListed(reports: seq<Job>, k: nat)
    requires k < |reports|
    ensures LabelOf(reports[k]) in Labels(reports, StatusOf(reports[k]))
  {
    hide LabelOf, StatusOf;
    if k < |reports| - 1 { LabelListed(reports[..|reports| - 1], k); }
  }

  lemma ListedNames(reports: seq<Job>, r: Summary)
    requires r.failedNames == Labels(reports, Fail) && r.crashedNames == Labels(reports, Crash)
    requires r.valgrindNames == Labels(reports, Valgrind) && r.skippedNames == Labels(reports, Skip)
    ensures forall k :: 0 <= k < |reports| ==> Named(reports[k], r)
  {
    hide Labels, StatusOf, LabelOf, Named;
    forall k | 0 <= k < |reports| ensures Named(reports[k], r) {
      LabelListed(reports, k);
      NamedByStatus(reports[k], r);
    }
  }

  lemma NamedByStatus(j: Job, r: Summary)
    requires StatusOf(j) == Skip ==> LabelOf(j) in r.skippedNames
    requires StatusOf(j) == Fail ==> LabelOf(j) in r.failedNames
    requires StatusOf(j) == Valgrind ==> LabelOf(j) in r.valgrindNames
    requires StatusOf(j) == Crash ==> LabelOf(j) in r.crashedNames
    ensures Named(j, r)
  {
    StatusMeans(j);
    hide StatusOf;
  }

  lemma StatusMeans(j: Job)
    ensures StatusOf(j) == Skip <==> !j.isBreak && j.isSkip
    ensures StatusOf(j) == Pass <==> WasRun(j) && j.returncode == 0
    ensures StatusOf(j) == Fail <==> WasRun(j) && j.returncode == 1
    ensures StatusOf(j) == Valgrind <==> WasRun(j) && j.returncode == 2
    ensures StatusOf(j) == Crash <==> WasRun(j) && j.returncode !in {0, 1, 2}
    ensures IsFine(j) <==> PassOrSkip(StatusOf(j))
  {
  }

  lemma CountedFields(reports: seq<Job>)
    ensures |Labels(reports, Skip)| == |set k | 0 <= k < |reports| && !reports[k].isBreak && reports[k].isSkip|
    ensures |Labels(reports, Pass)| == |set k | 0 <= k < |reports| && WasRun(reports[k]) && reports[k].returncode == 0|
    ensures |Labels(reports, Fail)| == |set k | 0 <= k < |reports| && WasRun(reports[k]) && reports[k].returncode == 1|
    ensures |Labels(reports, Valgrind)| == |set k | 0 <= k < |reports| && WasRun(reports[k]) && reports[k].returncode == 2|
    ensures |Labels(reports, Crash)| == |set k | 0 <= k < |reports| && WasRun(reports[k]) && reports[k].returncode !in {0, 1, 2}|
    ensures forall j: Job :: IsFine(j) <==> PassOrSkip(StatusOf(j))
  {
    assert reports[..|reports|] == reports;
    forall status { LabelsCount(reports, |reports|, status); }
    forall j { StatusMeans(j); }
    hide StatusOf, WasRun, IsFine, PassOrSkip, Labels;
    assert WithStatus(reports, |reports|, Skip) == set k | 0 <= k < |reports| && !reports[k].isBreak && reports[k].isSkip;
    assert WithStatus(reports, |reports|, Pass) == set k | 0 <= k < |reports| && WasRun(reports[k]) && reports[k].returncode == 0;
    assert WithStatus(reports, |reports|, Fail) == set k | 0 <= k < |reports| && WasRun(reports[k]) && reports[k].returncode == 1;
    assert WithStatus(reports, |reports|, Valgrind) == set k | 0 <= k < |reports| && WasRun(reports[k]) && reports[k].returncode == 2;
    assert WithStatus(reports, |reports|, Crash)
        == set k | 0 <= k < |reports| && WasRun(reports[k]) && reports[k].returncode !in {0, 1, 2};
  }

  lemma {:induction false} LabelsPartition(reports: seq<Job>)
    ensures |Labels(reports, Pass)| + |Labels(reports, Fail)| + |Labels(reports, Valgrind)| + |Labels(reports, Crash)|
            + |Labels(reports, Skip)| + |Labels(reports, Interrupted)| == |reports|
  {
    if reports != [] { LabelsPartition(reports[..|reports| - 1]); }
  }

  lemma {:induction false} LabelsAll(reports: seq<Job>)
    ensures |Labels(reports, Pass)| + |Labels(reports, Skip)| <= |reports|
    ensures |Labels(reports, Pass)| + |Labels(reports, Skip)| == |reports| <==>
            forall k :: 0 <= k < |reports| ==> PassOrSkip(StatusOf(reports[k]))
  {
    if reports != [] {
      var front := reports[..|reports| - 1];
      LabelsAll(front);
      assert forall k :: 0 <= k < |front| ==> front[k] == reports[k];
    }
  }

  ghost predicate ReportedAs(reports: seq<Job>, id: nat, status: Status) {
    exists k :: 0 <= k < |reports| && reports[k].id == id && StatusOf(reports[k]) == status
  }

  /** Each job has one report, which decides how the job was reported. */
  lemma TheReport(cfg: Config, s: State, id: nat) returns (k: nat)
    requires Inv(cfg, s) && Done(cfg, s) && id < |cfg.jobs|
    ensures k < |s.collected| && s.collected[k].id == id && Reported(cfg, s.threadExit, s.collected[k])
    ensures forall status :: ReportedAs(s.collected, id, status) <==> StatusOf(s.collected[k]) == status
  {
    FinalState(cfg, s);
    if forall k :: 0 <= k < |s.collected| ==> s.collected[k].id != id { ListedZero(s.collected, id); }
    k :| 0 <= k < |s.collected| && s.collected[k].id == id;
    forall j | 0 <= j < |s.collected| && s.collected[j].id == id ensures j == k {
      if j < k { ListedTwice(s.collected, j, k); }
      if k < j { ListedTwice(s.collected, k, j); }
    }
    assert Reported(cfg, s.threadExit, s.collected[k]);
  }

  ghost predicate ReportedFine(reports: seq<Job>, id: nat) {
    ReportedAs(reports, id, Pass) || ReportedAs(reports, id, Skip)
  }

  ghost predicate PassOrSkip(status: Status) { status == Pass || status == Skip }

  /**
   What a finished run says about the jobs: one report each, so the statuses partition the jobs, and the
   reports are all PASS or SKIP exactly when every job was reported PASS or SKIP.  Without an interrupt
   nothing is dropped, and precisely the jobs marked so are skipped.
   */
  lemma SummaryCoversJobs(cfg: Config, s: State)
    requires Inv(cfg, s) && Done(cfg, s)
    ensures |s.collected| == |cfg.jobs|
    ensures (forall k :: 0 <= k < |s.collected| ==> PassOrSkip(StatusOf(s.collected[k])))
            <==> forall id :: 0 <= id < |cfg.jobs| ==> ReportedFine(s.collected, id)
    ensures !s.threadExit ==> forall id :: 0 <= id < |cfg.jobs| ==>
              !ReportedAs(s.collected, id, Interrupted) && (ReportedAs(s.collected, id, Skip) <==> cfg.jobs[id].skip)
  {
    forall id | 0 <= id < |cfg.jobs|
      ensures !s.threadExit ==>
                !ReportedAs(s.collected, id, Interrupted) && (ReportedAs(s.collected, id, Skip) <==> cfg.jobs[id].skip)
    {
      var k := TheReport(cfg, s, id);
    }
    if forall k :: 0 <= k < |s.collected| ==> PassOrSkip(StatusOf(s.collected[k])) {
      forall id | 0 <= id < |cfg.jobs| ensures ReportedFine(s.collected, id) {
        var k := TheReport(cfg, s, id);
      }
    }
    if forall id :: 0 <= id < |cfg.jobs| ==> ReportedFine(s.collected, id) {
      forall k | 0 <= k < |s.collected| ensures PassOrSkip(StatusOf(s.collected[k])) {
        assert Reported(cfg, s.threadExit, s.collected[k]);
        var j := TheReport(cfg, s, s.collected[k].id);
        assert ReportedFine(s.collected, s.collected[k].id) && ReportedAs(s.collected, s.collected[k].id, StatusOf(s.collected[k]));
      }
    }
  }

  /** What a job has to do for the run to succeed: be looked at before an interrupt, and be skipped or exit with 0. */
  ghost predicate Succeeds(cfg: Config, run: seq<State>, acts: seq<Action>, id: nat)
    requires id < |cfg.jobs|
  {
    exists k: nat :: LooksAt(run, acts, k, id) && !run[k].threadExit
      && (cfg.jobs[id].skip || exists m: nat :: m > k && Ends(run, acts, m, id) && acts[m].code == 0)
  }

  lemma FineIffSucceeds(cfg: Config, run: seq<State>, acts: seq<Action>, id: nat)
    requires IsFullTrace(cfg, run, acts) && id < |cfg.jobs|
    ensures exists r: Job :: OnlyReport(run[|run| - 1].collected, r) && r.id == id && (IsFine(r) <==> Succeeds(cfg, run, acts, id))
  {
    JobFate(cfg, run, acts, id);
    hide IsFullTrace, OnlyReport;
    var reports := run[|run| - 1].collected;
    var k: nat :| LooksAt(run, acts, k, id);
    if run[k].threadExit {
      OneReport(reports, Report(cfg, id, true, 0));
    } else if cfg.jobs[id].skip {
      OneReport(reports, Report(cfg, id, false, 0));
    } else {
      var m: nat :| m > k && Ends(run, acts, m, id);
      OneReport(reports, Report(cfg, id, false, acts[m].code));
    }
  }

  lemma OneReport(reports: seq<Job>, r: Job)
    requires OnlyReport(reports, r)
    ensures forall x: Job :: x.id == r.id && OnlyReport(reports, x) ==> x == r
  {
  }

  lemma ReportOfJob(cfg: Config, run: seq<State>, acts: seq<Action>, id: nat) returns (k: nat)
    requires IsFullTrace(cfg, run, acts) && id < |cfg.jobs|
    ensures var reports := run[|run| - 1].collected;
      && k < |reports| && reports[k].id == id && (IsFine(reports[k]) <==> Succeeds(cfg, run, acts, id))
      && forall x :: x in reports && x.id == id ==> x == reports[k]
  {
    FineIffSucceeds(cfg, run, acts, id);
    hide IsFullTrace, Succeeds, IsFine;
    var reports := run[|run| - 1].collected;
    var r: Job :| OnlyReport(reports, r) && r.id == id && (IsFine(r) <==> Succeeds(cfg, run, acts, id));
    k :| 0 <= k < |reports| && reports[k] == r;
  }

  lemma AllFineIffAllSucceed(cfg: Config, run: seq<State>, acts: seq<Action>)
    requires IsFullTrace(cfg, run, acts)
    ensures var reports := run[|run| - 1].collected;
      |reports| == |cfg.jobs| &&
      ((forall k :: 0 <= k < |reports| ==> IsFine(reports[k])) <==> forall id :: 0 <= id < |cfg.jobs| ==> Succeeds(cfg, run, acts, id))
  {
    TraceEnds(cfg, run, acts);
    hide IsFullTrace, Inv, Succeeds, IsFine;
    var reports := run[|run| - 1].collected;
    forall k | 0 <= k < |reports| ensures 0 <= reports[k].id < |cfg.jobs| { KnownReport(cfg, run[|run| - 1], k); }
    if forall k :: 0 <= k < |reports| ==> IsFine(reports[k]) {
      forall id | 0 <= id < |cfg.jobs| ensures Succeeds(cfg, run, acts, id) { var k := ReportOfJob(cfg, run, acts, id); }
    }
    if forall id :: 0 <= id < |cfg.jobs| ==> Succeeds(cfg, run, acts, id) {
      forall k | 0 <= k < |reports| ensures IsFine(reports[k]) { var n := ReportOfJob(cfg, run, acts, reports[k].id); }
    }
  }

  /** The result of the whole run is 0 exactly when every job succeeds, whatever the interleaving and the interrupts. */
  method ResultOfRun(cfg: Config, ghost run: seq<State>, ghost acts: seq<Action>, reports: seq<Job>)
    returns (r: Summary, result: int)
    requires IsFullTrace(cfg, run, acts) && reports == run[|run| - 1].collected
    ensures result == 0 <==> forall id :: 0 <= id < |cfg.jobs| ==> Succeeds(cfg, run, acts, id)
    ensures r.passed + r.failed + r.valgrind + r.crashed + r.skipped <= |cfg.jobs|
  {
    AllFineIffAllSucceed(cfg, run, acts);
    hide *;
    r, result := Summarise(reports, |cfg.jobs|);
  }

  lemma KnownReport(cfg: Config, s: State, k: nat)
    requires Inv(cfg, s) && k < |s.collected|
    ensures s.collected[k].id < |cfg.jobs|
  {
    assert Reported(cfg, s.threadExit, s.collected[k]);
  }

  /** Reports are read in the order in which the workers put them. */
  lemma {:induction false} ReportsInOrder(cfg: Config, run: seq<State>, k: nat, m: nat)
    requires IsRun(cfg, run) && k <= m < |run|
    ensures run[k].collected + run[k].output <= run[m].collected + run[m].output
  {
    if k < m {
      ReportsInOrder(cfg, run, k, m - 1);
      var s, s' := run[m - 1], run[m];
      assert Next(cfg, s, run[m - 1 + 1]);
      var a :| Enabled(cfg, s, a) && s' == Step(cfg, s, a);
      assert s.collected + s.output <= s'.collected + s'.output;
    }
  }

  lemma {:induction false} ListedTwice(jobs: seq<Job>, j: nat, k: nat)
    requires j < k < |jobs| && jobs[j].id == jobs[k].id
    ensures Listed(jobs, jobs[j].id) >= 2
  {
    if j > 0 {
      ListedTwice(jobs[1..], j - 1, k - 1);
    } else {
      ListedPositive(jobs[1..], k - 1);
    }
  }
}
