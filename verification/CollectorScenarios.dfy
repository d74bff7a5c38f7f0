/**
 Two runs of the collector, step by step. In one, a heap loses its last page and
 the next sweep has nothing to start from; in the other, a word nobody stored
 keeps garbage alive.
 */
module CollectorScenarios {
  import opened Collector
  import T = Tricolour
  import B = Barrier
  import H = HeapPages
  import SweepShares

  ghost function Last(run: seq<State>): State
    requires run != []
  {
    run[|run| - 1]
  }

  // Steps that lead from s to s'.
  ghost predicate Leads(run: seq<State>, s: State, s': State) {
    && |run| > 0 && run[0] == s && Last(run) == s'
    && forall i :: 0 <= i < |run| - 1 ==> StepAt(run, i)
  }

  // The step leads from s to s'.
  ghost predicate Takes(s: State, step: Step, s': State) {
    Enabled(s, step) && After(s, step) == s'
  }

  lemma Then(run: seq<State>, s: State, s': State, step: Step, s'': State) returns (run': seq<State>)
    requires Leads(run, s, s') && Takes(s', step, s'')
    ensures Leads(run', s, s'')
  {
    run' := run + [s''];
    forall i | 0 <= i < |run'| - 1
      ensures StepAt(run', i)
    {
      if i == |run| - 1 {
        assert run'[i] == s';
      } else {
        assert StepAt(run, i);
      }
    }
  }

  lemma Join(run: seq<State>, more: seq<State>, s: State, s': State, s'': State) returns (run': seq<State>)
    requires Leads(run, s, s') && Leads(more, s', s'')
    ensures Leads(run', s, s'')
  {
    run' := run + more[1..];
    forall i | 0 <= i < |run'| - 1
      ensures StepAt(run', i)
    {
      if i < |run| - 1 {
        assert StepAt(run, i);
      } else {
        var k := i - (|run| - 1);
        assert run'[i] == more[k] && run'[i + 1] == more[k + 1];
        assert StepAt(more, k);
      }
    }
  }

  // ---- one worker, between phases ----------------------------------------------------

  function Barred(launched: nat): B.State {
    B.State(if launched % 3 == 0 then B.Idle else B.PhaseOf(launched - 1), if launched == 0 then 0 else 1, false,
            launched, [B.Worker(launched, false)])
  }

  const IDLE_WORKER: Worker := Worker([], [], false, -1, Out, {})

  function Between(heap: T.State, pg: H.State, launched: nat): State {
    State(heap, Barred(launched), [IDLE_WORKER], [], {}, pg)
  }

  // A phase is under way and the worker is at pc.
  function During(heap: T.State, pg: H.State, launched: nat, running: bool, k: Worker): State {
    State(heap, B.State(B.PhaseOf(launched), 0, true, launched + 1, [B.Worker(launched, running)]), [k], [], {}, pg)
  }

  // With nothing gray the worker finds nothing to do.
  lemma FindNothing(heap: T.State, pg: H.State, launched: nat) returns (run: seq<State>)
    ensures Leads(run, During(heap, pg, launched, true, IDLE_WORKER.(pc := Entering)),
                  During(heap, pg, launched, true, IDLE_WORKER.(pc := Left)))
  {
    var k := IDLE_WORKER.(draining := true);
    var s := During(heap, pg, launched, true, IDLE_WORKER.(pc := Entering));
    var top := During(heap, pg, launched, true, k.(pc := Top));
    var fill := During(heap, pg, launched, true, k.(pc := Fill(0)));
    var bottom := During(heap, pg, launched, true, k.(pc := Bottom));
    run := Then([s], s, s, Lists(0, Enter), top);
    run := Then(run, s, top, Lists(0, LoopTop), fill);
    run := Then(run, s, fill, Lists(0, FillStop), bottom);
    run := Then(run, s, bottom, Lists(0, Quit), During(heap, pg, launched, true, IDLE_WORKER.(pc := Left)));
  }

  // The main thread launches a mark phase and the worker starts.
  lemma LaunchMark(heap: T.State, pg: H.State, launched: nat) returns (run: seq<State>)
    requires launched % 3 != 2 && heap.stage.Marking?
    ensures Leads(run, Between(heap, pg, launched), During(heap, pg, launched, true, IDLE_WORKER.(pc := Entering)))
  {
    var s, s' := Between(heap, pg, launched), During(heap, pg, launched, false, IDLE_WORKER);
    var launch := Main(if launched % 3 == 0 then LaunchParallelMark else LaunchFinalMark);
    run := Then([s], s, s, launch, s');
    run := Then(run, s, s', Work(0, Start), During(heap, pg, launched, true, IDLE_WORKER.(pc := Entering)));
  }

  // The worker reports and the main thread goes on.
  lemma Report(heap: T.State, pg: H.State, launched: nat) returns (run: seq<State>)
    requires launched % 3 != 2
    ensures Leads(run, During(heap, pg, launched, true, IDLE_WORKER.(pc := Left)), Between(heap, pg, launched + 1))
  {
    var s := During(heap, pg, launched, true, IDLE_WORKER.(pc := Left));
    var s' := After(s, Work(0, Finish));
    run := Then([s], s, s, Work(0, Finish), s');
    run := Then(run, s, s', Main(Resume), Between(heap, pg, launched + 1));
  }

  lemma MarkPhase(heap: T.State, pg: H.State, launched: nat) returns (run: seq<State>)
    requires launched % 3 != 2 && heap.stage.Marking?
    ensures Leads(run, Between(heap, pg, launched), Between(heap, pg, launched + 1))
  {
    var s := Between(heap, pg, launched);
    var enter := During(heap, pg, launched, true, IDLE_WORKER.(pc := Entering));
    var left := During(heap, pg, launched, true, IDLE_WORKER.(pc := Left));
    var a := LaunchMark(heap, pg, launched);
    var b := FindNothing(heap, pg, launched);
    var c := Report(heap, pg, launched);
    run := Join(a, b, s, enter, left);
    run := Join(run, c, s, left, Between(heap, pg, launched + 1));
  }

  // ---- a heap that loses its last page --------------------------------------------

  // One page with one unit, which nothing refers to.
  function OneUnit(): T.State {
    T.DoAllocEnd(Begun(), 1, [], {}, true)
  }

  function Begun(): T.State {
    T.DoAllocBegin(T.DoNewPage(T.Init(), {1}), 1)
  }

  function OnePage(): H.State {
    H.Add(H.Init(1), 0, {1})
  }

  // A step of the heap alone.
  lemma HeapStep(s: State, h: T.Step)
    requires CanMutate(s, h)
    ensures Takes(s, Mutate(h), s.(heap := T.After(s.heap, h)))
  {
  }

  // The first page of a run.
  lemma FirstPageStep(threads: nat, us: set<Unit>)
    ensures Takes(Init(1, threads), AddPage(0, us),
                  Init(1, threads).(heap := T.DoNewPage(T.Init(), us), pg := H.Add(H.Init(1), 0, us)))
  {
  }

  lemma Prepare() returns (run: seq<State>)
    ensures Leads(run, Init(1, 0), Between(OneUnit(), OnePage(), 0))
  {
    var s, h := Init(1, 0), T.DoNewPage(T.Init(), {1});
    assert s == Between(T.Init(), H.Init(1), 0);
    FirstPageStep(0, {1});
    run := Then([s], s, s, AddPage(0, {1}), Between(h, OnePage(), 0));
    HeapStep(Between(h, OnePage(), 0), T.AllocBegin(1));
    run := Then(run, s, Between(h, OnePage(), 0), Mutate(T.AllocBegin(1)), Between(Begun(), OnePage(), 0));
    HeapStep(Between(Begun(), OnePage(), 0), T.AllocEnd(1, [], {}, true));
    run := Then(run, s, Between(Begun(), OnePage(), 0), Mutate(T.AllocEnd(1, [], {}, true)),
                Between(OneUnit(), OnePage(), 0));
  }

  // The first round, up to the sweep.
  function Marked(): T.State {
    T.DoBeginRound(OneUnit(), {})
  }

  // The unit is dropped and its page goes back to the chunk.
  function Visited(): T.State {
    T.DoVisit(T.DoEndMark(Marked()), 1)
  }

  function NoUnit(): T.State {
    T.DoGiveBack(Visited(), {1})
  }

  function NoPage(): H.State {
    H.State([], map[], [[]], true)
  }

  lemma BeginStep(heap: T.State, pg: H.State, launched: nat)
    requires heap.stage.Resting? && launched % 3 == 0
    ensures Takes(Between(heap, pg, launched), Main(Begin({})), Between(T.DoBeginRound(heap, {}), pg, launched))
  {
  }

  lemma DealOnePage()
    ensures H.Deal(OnePage()) == H.State([], map[0 := {1}], [[0]], true)
    ensures H.Parts(H.Deal(OnePage())) == [{1}]
  {
    H.SegmentAt([0], 1, 0);
    assert OnePage().list == [0];
    var pg := H.Deal(OnePage());
    assert pg.lists == [[0]];
    H.UnitsOnTail(pg.units, pg.lists[0]);
    assert pg.lists[0][1..] == [];
    assert SweepShares.On(pg.units, 0) == {1} && SweepShares.UnitsOn(pg.units, []) == {};
    assert H.Parts(pg)[0] == {1};
  }

  // The state after each step of the sweep.
  lemma LaunchStep()
    ensures Takes(Between(Marked(), OnePage(), 2), Main(LaunchSweep),
                  During(T.DoEndMark(Marked()), H.Deal(OnePage()), 2, false, IDLE_WORKER.(part := {1})))
  {
    DealOnePage();
    assert AfterMain(Between(Marked(), OnePage(), 2), LaunchSweep).workers == [IDLE_WORKER.(part := {1})];
  }

  lemma StartStep(heap: T.State, pg: H.State, k: Worker)
    ensures Takes(During(heap, pg, 2, false, k), Work(0, Start), During(heap, pg, 2, true, k))
  {
  }

  lemma VisitStep()
    ensures Takes(During(T.DoEndMark(Marked()), H.Deal(OnePage()), 2, true, IDLE_WORKER.(part := {1})),
                  Work(0, Visit(1)), During(Visited(), H.Deal(OnePage()), 2, true, IDLE_WORKER))
  {
    DealOnePage();
  }

  lemma GiveBackStep()
    ensures Takes(During(Visited(), H.Deal(OnePage()), 2, true, IDLE_WORKER), Work(0, EndPage(false)),
                  During(NoUnit(), NoPage(), 2, true, IDLE_WORKER))
  {
    DealOnePage();
    var pg := H.Deal(OnePage());
    assert Visited().heads[1].life.Released?;
    assert pg.lists[0][1..] == [] && pg.units - {0} == map[];
    assert H.GiveBack(pg, 0) == NoPage();
  }

  lemma SweepLastPage() returns (run: seq<State>)
    ensures Leads(run, Between(Marked(), OnePage(), 2), During(NoUnit(), NoPage(), 2, true, IDLE_WORKER))
  {
    var pg, k, h := H.Deal(OnePage()), IDLE_WORKER.(part := {1}), T.DoEndMark(Marked());
    var s := Between(Marked(), OnePage(), 2);
    LaunchStep();
    StartStep(h, pg, k);
    VisitStep();
    GiveBackStep();
    run := Then([s], s, s, Main(LaunchSweep), During(h, pg, 2, false, k));
    run := Then(run, s, During(h, pg, 2, false, k), Work(0, Start), During(h, pg, 2, true, k));
    run := Then(run, s, During(h, pg, 2, true, k), Work(0, Visit(1)), During(Visited(), pg, 2, true, IDLE_WORKER));
    run := Then(run, s, During(Visited(), pg, 2, true, IDLE_WORKER), Work(0, EndPage(false)),
                During(NoUnit(), NoPage(), 2, true, IDLE_WORKER));
  }

  // The barrier after the worker's report.
  function Reported(heap: T.State, pg: H.State, waiting: bool): State {
    State(heap, B.State(B.Sweep, 1, waiting, 3, [B.Worker(3, false)]), [IDLE_WORKER], [], {}, pg)
  }

  lemma FinishStep(heap: T.State)
    ensures Takes(During(heap, NoPage(), 2, true, IDLE_WORKER), Work(0, Finish), Reported(heap, NoPage(), true))
  {
  }

  lemma ResumeStep(heap: T.State, pg: H.State)
    ensures Takes(Reported(heap, pg, true), Main(Resume), Reported(heap, pg, false))
  {
  }

  lemma CloseStep(heap: T.State, pg: H.State)
    ensures Takes(Reported(heap, pg, false), Main(Close), Between(heap.(stage := T.Resting), pg, 3))
  {
  }

  lemma CloseRound(heap: T.State) returns (run: seq<State>)
    ensures Leads(run, During(heap, NoPage(), 2, true, IDLE_WORKER), Between(heap.(stage := T.Resting), NoPage(), 3))
  {
    var s := During(heap, NoPage(), 2, true, IDLE_WORKER);
    FinishStep(heap);
    ResumeStep(heap, NoPage());
    CloseStep(heap, NoPage());
    run := Then([s], s, s, Work(0, Finish), Reported(heap, NoPage(), true));
    run := Then(run, s, Reported(heap, NoPage(), true), Main(Resume), Reported(heap, NoPage(), false));
    run := Then(run, s, Reported(heap, NoPage(), false), Main(Close), Between(heap.(stage := T.Resting), NoPage(), 3));
  }

  // Begin a round and mark, with nothing gray.
  lemma MarkRound(heap: T.State, pg: H.State, launched: nat) returns (run: seq<State>)
    requires heap.stage.Resting? && launched % 3 == 0
    ensures Leads(run, Between(heap, pg, launched), Between(T.DoBeginRound(heap, {}), pg, launched + 2))
  {
    var s, h := Between(heap, pg, launched), T.DoBeginRound(heap, {});
    BeginStep(heap, pg, launched);
    run := Then([s], s, s, Main(Begin({})), Between(h, pg, launched));
    var a := MarkPhase(h, pg, launched);
    run := Join(run, a, s, Between(h, pg, launched), Between(h, pg, launched + 1));
    var b := MarkPhase(h, pg, launched + 1);
    run := Join(run, b, s, Between(h, pg, launched + 1), Between(h, pg, launched + 2));
  }

  // A run of two rounds, with one page that the first one gives back. When the
  // second sweep is due the page list is empty, the workers' lists are left over,
  // and the main thread of the model takes no further step.
  lemma LastPageGoes() returns (run: seq<State>)
    ensures IsRun(1, 0, run)
    ensures Last(run).bar.launched % 3 == 2 && B.CanLaunch(Last(run).bar)
    ensures Last(run).pg.list == [] && Last(run).pg.handed
    ensures forall m :: !MainEnabled(Last(run), m)
  {
    var s, h := Init(1, 0), NoUnit().(stage := T.Resting);
    run := Prepare();
    var a := MarkRound(OneUnit(), OnePage(), 0);
    run := Join(run, a, s, Between(OneUnit(), OnePage(), 0), Between(Marked(), OnePage(), 2));
    var b := SweepLastPage();
    run := Join(run, b, s, Between(Marked(), OnePage(), 2), During(NoUnit(), NoPage(), 2, true, IDLE_WORKER));
    var c := CloseRound(NoUnit());
    run := Join(run, c, s, During(NoUnit(), NoPage(), 2, true, IDLE_WORKER), Between(h, NoPage(), 3));
    var d := MarkRound(h, NoPage(), 3);
    run := Join(run, d, s, Between(h, NoPage(), 3), Between(T.DoBeginRound(h, {}), NoPage(), 5));
  }

  // ---- a word nobody stored ---------------------------------------------------------

  // Unit 1 is complete when the round begins, and nothing refers to it. Unit 2 is
  // completed during the round; its one word is what its cell held before, and
  // happens to name unit 1.
  function Complete(): T.State {
    T.DoAllocEnd(T.DoAllocBegin(T.DoNewPage(T.Init(), {1, 2}), 1), 1, [], {}, true)
  }

  function Garbage(): T.State {
    T.DoBeginRound(Complete(), {})
  }

  function Stale(): T.State {
    T.DoAllocEnd(T.DoAllocBegin(Garbage(), 2), 2, [1], {}, true)
  }

  function Gray2(): T.State {
    T.DoShade(Stale(), 2)
  }

  function Read2(): T.State {
    T.DoReadWord(Gray2(), 2)
  }

  function Black2(): T.State {
    T.DoBlacken(Read2(), 2)
  }

  function TwoUnits(): H.State {
    H.Add(H.Init(1), 0, {1, 2})
  }

  // Before the workers are launched.
  function Quiet(heap: T.State, k: Worker, x: Thread): State {
    State(heap, Barred(0), [k], [x], {}, TwoUnits())
  }

  // The worker is inside its first phase.
  function Active(heap: T.State, k: Worker): State {
    State(heap, B.State(B.ParallelMark, 0, true, 1, [B.Worker(0, true)]), [k], [Idle], {}, TwoUnits())
  }

  function Working(local: seq<Unit>, queue: seq<Unit>, pc: WorkerPc): Worker {
    Worker(local, queue, true, -1, pc, {})
  }

  lemma PrepareGarbage() returns (run: seq<State>)
    ensures Leads(run, Init(1, 1), Quiet(Garbage(), IDLE_WORKER, Idle))
  {
    var s, h := Init(1, 1), T.DoNewPage(T.Init(), {1, 2});
    var h' := T.DoAllocBegin(h, 1);
    assert s == Quiet(T.Init(), IDLE_WORKER, Idle).(pg := H.Init(1));
    FirstPageStep(1, {1, 2});
    run := Then([s], s, s, AddPage(0, {1, 2}), Quiet(h, IDLE_WORKER, Idle));
    AllocateGarbageStep();
    run := Then(run, s, Quiet(h, IDLE_WORKER, Idle), Mutate(T.AllocBegin(1)), Quiet(h', IDLE_WORKER, Idle));
    CompleteGarbageStep();
    run := Then(run, s, Quiet(h', IDLE_WORKER, Idle), Mutate(T.AllocEnd(1, [], {}, true)),
                Quiet(Complete(), IDLE_WORKER, Idle));
    BeginGarbageStep();
    run := Then(run, s, Quiet(Complete(), IDLE_WORKER, Idle), Main(Begin({})), Quiet(Garbage(), IDLE_WORKER, Idle));
  }

  lemma AllocateGarbageStep()
    ensures var h := T.DoNewPage(T.Init(), {1, 2});
            Takes(Quiet(h, IDLE_WORKER, Idle), Mutate(T.AllocBegin(1)), Quiet(T.DoAllocBegin(h, 1), IDLE_WORKER, Idle))
  {
    HeapStep(Quiet(T.DoNewPage(T.Init(), {1, 2}), IDLE_WORKER, Idle), T.AllocBegin(1));
  }

  lemma CompleteGarbageStep()
    ensures var h := T.DoAllocBegin(T.DoNewPage(T.Init(), {1, 2}), 1);
            Takes(Quiet(h, IDLE_WORKER, Idle), Mutate(T.AllocEnd(1, [], {}, true)),
                  Quiet(Complete(), IDLE_WORKER, Idle))
  {
    HeapStep(Quiet(T.DoAllocBegin(T.DoNewPage(T.Init(), {1, 2}), 1), IDLE_WORKER, Idle),
             T.AllocEnd(1, [], {}, true));
  }

  lemma BeginGarbageStep()
    ensures Takes(Quiet(Complete(), IDLE_WORKER, Idle), Main(Begin({})), Quiet(Garbage(), IDLE_WORKER, Idle))
  {
  }

  lemma AllocateStaleStep()
    ensures Takes(Quiet(Garbage(), IDLE_WORKER, Idle), Mutate(T.AllocBegin(2)),
                  Quiet(T.DoAllocBegin(Garbage(), 2), IDLE_WORKER, Idle))
  {
    HeapStep(Quiet(Garbage(), IDLE_WORKER, Idle), T.AllocBegin(2));
  }

  lemma CompleteStaleStep()
    ensures Takes(Quiet(T.DoAllocBegin(Garbage(), 2), IDLE_WORKER, Idle), Mutate(T.AllocEnd(2, [1], {}, true)),
                  Quiet(Stale(), IDLE_WORKER, Idle))
  {
    HeapStep(Quiet(T.DoAllocBegin(Garbage(), 2), IDLE_WORKER, Idle), T.AllocEnd(2, [1], {}, true));
  }

  lemma MarkStaleStep()
    ensures Takes(Quiet(Stale(), IDLE_WORKER, Idle), External(0, MarkCas(2, 0)),
                  Quiet(Gray2(), IDLE_WORKER, Hand(0, 2)))
  {
  }

  // A mutator completes unit 2 and marks it.
  lemma PrepareStale() returns (run: seq<State>)
    ensures Leads(run, Quiet(Garbage(), IDLE_WORKER, Idle), Quiet(Gray2(), IDLE_WORKER, Hand(0, 2)))
  {
    var s, h := Quiet(Garbage(), IDLE_WORKER, Idle), T.DoAllocBegin(Garbage(), 2);
    AllocateStaleStep();
    CompleteStaleStep();
    MarkStaleStep();
    run := Then([s], s, s, Mutate(T.AllocBegin(2)), Quiet(h, IDLE_WORKER, Idle));
    run := Then(run, s, Quiet(h, IDLE_WORKER, Idle), Mutate(T.AllocEnd(2, [1], {}, true)),
                Quiet(Stale(), IDLE_WORKER, Idle));
    run := Then(run, s, Quiet(Stale(), IDLE_WORKER, Idle), External(0, MarkCas(2, 0)),
                Quiet(Gray2(), IDLE_WORKER, Hand(0, 2)));
  }

  lemma EnqueueSteps(heap: T.State)
    ensures Takes(Quiet(heap, IDLE_WORKER, Hand(0, 2)), External(0, Enqueue),
                  Quiet(heap, IDLE_WORKER.(queue := [2]), Claimed(0, 2)))
    ensures Takes(Quiet(heap, IDLE_WORKER.(queue := [2]), Claimed(0, 2)), External(0, Publish),
                  Quiet(heap, IDLE_WORKER.(queue := [2]), Idle))
  {
    assert IDLE_WORKER.queue + [2] == [2];
  }

  lemma Enqueued(heap: T.State) returns (run: seq<State>)
    requires heap.stage.Marking?
    ensures Leads(run, Quiet(heap, IDLE_WORKER, Hand(0, 2)), Active(heap, IDLE_WORKER.(queue := [2], pc := Entering)))
  {
    var s, k := Quiet(heap, IDLE_WORKER, Hand(0, 2)), IDLE_WORKER.(queue := [2]);
    EnqueueSteps(heap);
    run := Then([s], s, s, External(0, Enqueue), Quiet(heap, k, Claimed(0, 2)));
    run := Then(run, s, Quiet(heap, k, Claimed(0, 2)), External(0, Publish), Quiet(heap, k, Idle));
    var s' := Active(heap, k).(bar := Active(heap, k).bar.(workers := [B.Worker(0, false)]));
    run := Then(run, s, Quiet(heap, k, Idle), Main(LaunchParallelMark), s');
    run := Then(run, s, s', Work(0, Start), Active(heap, k.(pc := Entering)));
  }

  // A step of the worker on its own lists.
  lemma ListStepTaken(heap: T.State, k: Worker, l: ListStep)
    requires ListEnabled(Active(heap, k), 0, l)
    ensures Takes(Active(heap, k), Lists(0, l), Active(heap, ListAfter(k, l)))
  {
  }

  lemma PopSteps(heap: T.State)
    ensures Takes(Active(heap, IDLE_WORKER.(queue := [2], pc := Entering)), Lists(0, Enter),
                  Active(heap, Working([], [2], Top)))
    ensures Takes(Active(heap, Working([], [2], Top)), Lists(0, LoopTop), Active(heap, Working([], [2], Fill(0))))
    ensures Takes(Active(heap, Working([], [2], Fill(0))), Lists(0, TakeOne), Active(heap, Working([2], [], Fill(1))))
    ensures Takes(Active(heap, Working([2], [], Fill(1))), Lists(0, FillStop), Active(heap, Working([2], [], Bottom)))
    ensures Takes(Active(heap, Working([2], [], Bottom)), Lists(0, Pop), Active(heap, Working([], [], Scan(2))))
  {
    ListStepTaken(heap, IDLE_WORKER.(queue := [2], pc := Entering), Enter);
    ListStepTaken(heap, Working([], [2], Top), LoopTop);
    ListStepTaken(heap, Working([], [2], Fill(0)), TakeOne);
    var k := ListAfter(Working([], [2], Fill(0)), TakeOne);
    assert k.local == [2] && k.queue == [];
    ListStepTaken(heap, Working([2], [], Fill(1)), FillStop);
    ListStepTaken(heap, Working([2], [], Bottom), Pop);
  }

  lemma Popped(heap: T.State) returns (run: seq<State>)
    ensures Leads(run, Active(heap, IDLE_WORKER.(queue := [2], pc := Entering)), Active(heap, Working([], [], Scan(2))))
  {
    var s := Active(heap, IDLE_WORKER.(queue := [2], pc := Entering));
    PopSteps(heap);
    run := Then([s], s, s, Lists(0, Enter), Active(heap, Working([], [2], Top)));
    run := Then(run, s, Active(heap, Working([], [2], Top)), Lists(0, LoopTop),
                Active(heap, Working([], [2], Fill(0))));
    run := Then(run, s, Active(heap, Working([], [2], Fill(0))), Lists(0, TakeOne),
                Active(heap, Working([2], [], Fill(1))));
    run := Then(run, s, Active(heap, Working([2], [], Fill(1))), Lists(0, FillStop),
                Active(heap, Working([2], [], Bottom)));
    run := Then(run, s, Active(heap, Working([2], [], Bottom)), Lists(0, Pop), Active(heap, Working([], [], Scan(2))));
  }

  lemma ReadStep()
    ensures Takes(Active(Gray2(), Working([], [], Scan(2))), Work(0, Read),
                  Active(Read2(), Working([], [], Push(2, 1))))
  {
  }

  lemma PushStep(heap: T.State)
    ensures Takes(Active(heap, Working([], [], Push(2, 1))), Lists(0, PushChild),
                  Active(heap, Working([1], [], Scan(2))))
  {
    ListStepTaken(heap, Working([], [], Push(2, 1)), PushChild);
    assert ListAfter(Working([], [], Push(2, 1)), PushChild).local == [1];
  }

  lemma BlackenStep(heap: T.State, local: seq<Unit>, u: Unit)
    requires u in heap.heads && u in heap.words && |T.Scanned(heap, u)| == |heap.words[u]|
    ensures Takes(Active(heap, Working(local, [], Scan(u))), Work(0, Blacken),
                  Active(T.DoBlacken(heap, u), Working(local, [], Top)))
  {
  }

  lemma BlackenStaleStep()
    ensures Takes(Active(Read2(), Working([1], [], Scan(2))), Work(0, Blacken), Active(Black2(), Working([1], [], Top)))
  {
    BlackenStep(Read2(), [1], 2);
  }

  lemma ScanStale() returns (run: seq<State>)
    ensures Leads(run, Active(Gray2(), Working([], [], Scan(2))), Active(Black2(), Working([1], [], Top)))
  {
    var s := Active(Gray2(), Working([], [], Scan(2)));
    ReadStep();
    PushStep(Read2());
    BlackenStaleStep();
    run := Then([s], s, s, Work(0, Read), Active(Read2(), Working([], [], Push(2, 1))));
    run := Then(run, s, Active(Read2(), Working([], [], Push(2, 1))), Lists(0, PushChild),
                Active(Read2(), Working([1], [], Scan(2))));
    run := Then(run, s, Active(Read2(), Working([1], [], Scan(2))), Work(0, Blacken),
                Active(Black2(), Working([1], [], Top)));
  }

  lemma BlackenGarbageSteps()
    ensures Takes(Active(Black2(), Working([1], [], Top)), Lists(0, LoopTop),
                  Active(Black2(), Working([1], [], Bottom)))
    ensures Takes(Active(Black2(), Working([1], [], Bottom)), Lists(0, Pop), Active(Black2(), Working([], [], Scan(1))))
    ensures Takes(Active(Black2(), Working([], [], Scan(1))), Work(0, Blacken),
                  Active(T.DoBlacken(Black2(), 1), Working([], [], Top)))
  {
    ListStepTaken(Black2(), Working([1], [], Top), LoopTop);
    ListStepTaken(Black2(), Working([1], [], Bottom), Pop);
    BlackenStep(Black2(), [], 1);
  }

  lemma ScanGarbage() returns (run: seq<State>)
    ensures Leads(run, Active(Black2(), Working([1], [], Top)),
                  Active(T.DoBlacken(Black2(), 1), Working([], [], Top)))
  {
    var s := Active(Black2(), Working([1], [], Top));
    BlackenGarbageSteps();
    run := Then([s], s, s, Lists(0, LoopTop), Active(Black2(), Working([1], [], Bottom)));
    run := Then(run, s, Active(Black2(), Working([1], [], Bottom)), Lists(0, Pop),
                Active(Black2(), Working([], [], Scan(1))));
    run := Then(run, s, Active(Black2(), Working([], [], Scan(1))), Work(0, Blacken),
                Active(T.DoBlacken(Black2(), 1), Working([], [], Top)));
  }

  // A sweepable unit that was garbage when the round began, and that no mutator
  // marks, is fully marked at the end of marking.
  ghost predicate KeptInVain(heap: T.State, u: Unit) {
    && T.CanEndMark(heap) && u in heap.cycle.sweepable
    && u in heap.heads && heap.heads[u].life.FullMarked?
    && !T.Reach(heap.cycle, heap.marks, u)
  }

  lemma GarbageIsKept()
    ensures KeptInVain(T.DoBlacken(Black2(), 1), 1)
  {
  }

  // A run in which a round keeps garbage.
  lemma StaleWordKeepsGarbage() returns (run: seq<State>)
    ensures IsRun(1, 1, run) && KeptInVain(Last(run).heap, 1)
  {
    var s := Init(1, 1);
    run := PrepareGarbage();
    var a := PrepareStale();
    run := Join(run, a, s, Quiet(Garbage(), IDLE_WORKER, Idle), Quiet(Gray2(), IDLE_WORKER, Hand(0, 2)));
    var b := Enqueued(Gray2());
    run := Join(run, b, s, Quiet(Gray2(), IDLE_WORKER, Hand(0, 2)),
                Active(Gray2(), IDLE_WORKER.(queue := [2], pc := Entering)));
    var c := Popped(Gray2());
    run := Join(run, c, s, Active(Gray2(), IDLE_WORKER.(queue := [2], pc := Entering)),
                Active(Gray2(), Working([], [], Scan(2))));
    var d := ScanStale();
    run := Join(run, d, s, Active(Gray2(), Working([], [], Scan(2))), Active(Black2(), Working([1], [], Top)));
    var e := ScanGarbage();
    run := Join(run, e, s, Active(Black2(), Working([1], [], Top)),
                Active(T.DoBlacken(Black2(), 1), Working([], [], Top)));
    GarbageIsKept();
  }
}
