/**
 The phase barrier between the collector's main thread and its workers
 (`launch_worker_and_wait_until_done`, `wait_for_worker_launch`,
 `worker_done_and_notify_main_gc_thread`). Each step is one critical section
 of the barrier mutex; a wait on the condition variable is a step that is not
 enabled until its predicate holds.

 `launched` counts the phases the main thread has launched and `runs` the
 phases a worker has completed. The code has neither: it compares phase names.
 */
module Barrier {

  datatype Phase = Idle | ParallelMark | FinalMark | Sweep

  // The k-th launch, counted from 0.
  function PhaseOf(k: nat): Phase {
    if k % 3 == 0 then ParallelMark else if k % 3 == 1 then FinalMark else Sweep
  }

  datatype Worker = Worker(runs: nat, running: bool)

  datatype State = State(
    launch: Phase,      // m_gc_worker_threshold_launch_state
    finished: nat,      // m_gc_worker_threshold_finish_counter
    waiting: bool,      // main is inside launch_worker_and_wait_until_done
    launched: nat,
    workers: seq<Worker>)

  function Init(n: nat): State {
    State(Idle, 0, false, 0, seq(n, _ => Worker(0, false)))
  }

  datatype Step =
    | Launch              // main: start the next phase
    | Resume              // main: every worker reported
    | Close               // main: end of the cycle
    | Start(w: nat)       // worker: its phase has been launched
    | Finish(w: nat)      // worker: phase done

  // main launches the three phases of a cycle in order, from an idle barrier.
  predicate CanLaunch(s: State) {
    && !s.waiting
    && s.launch == (if s.launched % 3 == 0 then Idle else PhaseOf(s.launched - 1))
  }

  predicate Enabled(s: State, step: Step) {
    match step
    case Launch => CanLaunch(s)
    case Resume => s.waiting && s.finished == |s.workers|
    case Close => !s.waiting && s.launch == Sweep
    case Start(w) => w < |s.workers| && !s.workers[w].running && s.launch == PhaseOf(s.workers[w].runs)
    case Finish(w) => w < |s.workers| && s.workers[w].running
  }

  function After(s: State, step: Step): State
    requires Enabled(s, step)
  {
    match step
    case Launch => s.(launch := PhaseOf(s.launched), finished := 0, waiting := true, launched := s.launched + 1)
    case Resume => s.(waiting := false)
    case Close => s.(launch := Idle)
    case Start(w) => s.(workers := s.workers[w := s.workers[w].(running := true)])
    case Finish(w) => s.(workers := s.workers[w := Worker(s.workers[w].runs + 1, false)], finished := s.finished + 1)
  }

  // How many workers have completed k phases.
  function Completed(workers: seq<Worker>, k: nat): (c: nat)
    ensures c <= |workers|
  {
    if workers == [] then 0
    else Completed(workers[..|workers| - 1], k) + (if workers[|workers| - 1].runs == k then 1 else 0)
  }

  ghost predicate WorkerOk(s: State, w: nat)
    requires w < |s.workers|
  {
    var k := s.workers[w];
    && (k.runs == s.launched || (s.waiting && k.runs + 1 == s.launched))
    && (k.running ==> s.waiting && k.runs + 1 == s.launched)
  }

  ghost predicate Inv(s: State) {
    && (s.launch == Idle ==> s.launched % 3 == 0 && !s.waiting)
    && (s.launch != Idle ==> s.launched > 0 && s.launch == PhaseOf(s.launched - 1))
    && (forall w :: 0 <= w < |s.workers| ==> WorkerOk(s, w))
    && (s.launched > 0 ==> s.finished == Completed(s.workers, s.launched))
  }

  // ---- counting -------------------------------------------------------------

  lemma {:induction false} CompletedUpdate(workers: seq<Worker>, k: nat, w: nat, x: Worker)
    requires w < |workers|
    ensures Completed(workers[w := x], k) ==
            Completed(workers, k) - (if workers[w].runs == k then 1 else 0) + (if x.runs == k then 1 else 0)
  {
    var n := |workers| - 1;
    if w == n {
      assert workers[w := x][..n] == workers[..n];
    } else {
      assert workers[w := x][..n] == workers[..n][w := x];
      CompletedUpdate(workers[..n], k, w, x);
    }
  }

  lemma {:induction false} CompletedAll(workers: seq<Worker>, k: nat)
    ensures Completed(workers, k) == |workers| <==> forall w :: 0 <= w < |workers| ==> workers[w].runs == k
  {
    if workers != [] {
      var n := |workers| - 1;
      CompletedAll(workers[..n], k);
      assert forall w :: 0 <= w < n ==> workers[..n][w] == workers[w];
    }
  }

  lemma {:induction false} CompletedNone(workers: seq<Worker>, k: nat)
    requires forall w :: 0 <= w < |workers| ==> workers[w].runs != k
    ensures Completed(workers, k) == 0
  {
    if workers != [] {
      CompletedNone(workers[..|workers| - 1], k);
    }
  }

  // ---- every step keeps the barrier in order ----------------------------------

  lemma InitOk(n: nat)
    ensures Inv(Init(n))
  {
  }

  lemma StepOk(s: State, step: Step)
    requires Inv(s) && Enabled(s, step)
    ensures Inv(After(s, step)) && |After(s, step).workers| == |s.workers|
  {
    var s' := After(s, step);
    match step {
      case Launch =>
        forall w | 0 <= w < |s.workers|
          ensures WorkerOk(s', w) && s'.workers[w].runs != s'.launched
        {
          assert WorkerOk(s, w);
        }
        CompletedNone(s'.workers, s'.launched);
      case Resume =>
        CompletedAll(s.workers, s.launched);
        forall w | 0 <= w < |s.workers|
          ensures WorkerOk(s', w)
        {
          assert WorkerOk(s, w);
        }
      case Close =>
        forall w | 0 <= w < |s.workers|
          ensures WorkerOk(s', w)
        {
          assert WorkerOk(s, w);
        }
      case Start(w) =>
        StartedOnTime(s, w);
        CompletedUpdate(s.workers, s.launched, w, s.workers[w].(running := true));
        forall x | 0 <= x < |s.workers|
          ensures WorkerOk(s', x)
        {
          assert WorkerOk(s, x);
        }
      case Finish(w) =>
        assert WorkerOk(s, w);
        CompletedUpdate(s.workers, s.launched, w, Worker(s.workers[w].runs + 1, false));
        forall x | 0 <= x < |s.workers|
          ensures WorkerOk(s', x)
        {
          assert WorkerOk(s, x);
        }
    }
  }

  // Matching on the phase name never lets a worker run a phase twice or join
  // an old one: a start always belongs to the launch main is waiting for.
  lemma StartedOnTime(s: State, w: nat)
    requires Inv(s) && Enabled(s, Start(w))
    ensures s.waiting && s.workers[w].runs + 1 == s.launched
  {
    assert WorkerOk(s, w);
    PhasesDiffer(s.launched);
  }

  lemma PhasesDiffer(k: nat)
    ensures k > 0 ==> PhaseOf(k) != PhaseOf(k - 1)
  {
  }

  ghost predicate Next(s: State, s': State) {
    exists step :: Enabled(s, step) && s' == After(s, step)
  }

  // The run takes a step at i.
  ghost predicate StepAt(run: seq<State>, i: nat) {
    i + 1 < |run| && Next(run[i], run[i + 1])
  }

  ghost predicate IsRun(n: nat, run: seq<State>) {
    && |run| > 0 && run[0] == Init(n)
    && forall i :: 0 <= i < |run| - 1 ==> StepAt(run, i)
  }

  lemma {:induction false} RunOk(n: nat, run: seq<State>, i: nat)
    requires IsRun(n, run) && i < |run|
    ensures Inv(run[i]) && |run[i].workers| == n
  {
    if i == 0 {
      InitOk(n);
    } else {
      RunOk(n, run, i - 1);
      assert StepAt(run, i - 1);
      var step :| Enabled(run[i - 1], step) && run[i] == After(run[i - 1], step);
      StepOk(run[i - 1], step);
    }
  }

  // Whoever works, works on the phase main launched last; when main goes on,
  // every worker has run every launched phase exactly once.
  ghost predicate Lockstep(s: State, w: nat)
    requires w < |s.workers|
  {
    && (s.workers[w].running ==> s.workers[w].runs + 1 == s.launched && s.launch == PhaseOf(s.workers[w].runs))
    && (!s.waiting ==> s.workers[w] == Worker(s.launched, false))
  }

  lemma PhasesInLockstep(n: nat, run: seq<State>, i: nat, w: nat)
    requires IsRun(n, run) && i < |run| && w < n
    ensures |run[i].workers| == n && Lockstep(run[i], w)
    ensures run[i].launched > 0 ==> run[i].finished == Completed(run[i].workers, run[i].launched)
  {
    RunOk(n, run, i);
    assert WorkerOk(run[i], w);
  }

  // The barrier never gets stuck.
  lemma AlwaysEnabled(s: State) returns (step: Step)
    requires Inv(s)
    ensures Enabled(s, step)
  {
    if !s.waiting {
      step := if s.launch == Sweep then Close else Launch;
    } else if s.finished == |s.workers| {
      step := Resume;
    } else {
      CompletedAll(s.workers, s.launched);
      var w :| 0 <= w < |s.workers| && s.workers[w].runs != s.launched;
      assert WorkerOk(s, w);
      step := if s.workers[w].running then Finish(w) else Start(w);
    }
  }

  // In every run a cycle is a parallel mark, a final mark and a sweep, in this order,
  // and ends with the barrier idle.
  lemma ThreePhasesPerCycle(n: nat, run: seq<State>, i: nat)
    requires IsRun(n, run) && i < |run|
    ensures match run[i].launch
            case Idle => run[i].launched % 3 == 0 && !run[i].waiting
            case ParallelMark => run[i].launched % 3 == 1
            case FinalMark => run[i].launched % 3 == 2
            case Sweep => run[i].launched > 0 && run[i].launched % 3 == 0
  {
    RunOk(n, run, i);
  }
}
