/**
 The whole collector: a main thread, any number of workers and any number of
 external threads, one atomic access or critical section per step. The heap
 is `Tricolour`, the phase barrier is `Barrier`, and a worker's gray queue is
 the first-in first-out queue that `MpscQueue` shows its ticket scheme to be.

 Assumed of the embedder, as the code does: the callback at the beginning of a
 round returns with root marking by other threads finished, and the callback
 that stops marking returns with no external thread still inside a mark call.
 */
module Collector {
  import T = Tricolour
  import B = Barrier
  import H = HeapPages
  import SweepShares

  type Unit = T.Unit

  const QUEUE_CAPACITY: nat := 8192

  // Where a worker is inside process_gray_units.
  datatype WorkerPc =
    | Out
    | Entering                 // about to take the lock and raise m_is_draining
    | Top                      // head of the loop
    | Fill(n: nat)             // draining the queue, n units so far
    | Bottom                   // second emptiness test
    | Scan(u: Unit)            // popped u, reading its words
    | Push(u: Unit, v: Unit)   // shaded v while scanning u, not yet pushed
    | Left                     // returned

  datatype Worker = Worker(
    local: seq<Unit>,          // m_local_work
    queue: seq<Unit>,          // m_gray_queue, claimed tickets in order
    draining: bool,            // m_is_draining
    holder: int,               // thread holding m_local_work_spin_for_root, -1 for none
    pc: WorkerPc,
    part: set<Unit>)           // units on the pages of m_sweep_page_list still to sweep

  // Where an external thread is inside a mark call.
  datatype Thread =
    | Idle
    | Hand(w: nat, u: Unit)      // shaded u, trying to enqueue it
    | Claimed(w: nat, u: Unit)   // has a ticket, not yet published
    | SawIdle(w: nat, u: Unit)   // refused, and m_is_draining read as false
    | Locked(w: nat, u: Unit)    // has the lock
    | Cleared(w: nat, u: Unit)   // has the lock and read m_is_draining as false again
    | RootHand(w: nat, u: Unit)  // shaded u as a root, about to push it under the lock

  datatype State = State(
    heap: T.State,
    bar: B.State,
    workers: seq<Worker>,
    threads: seq<Thread>,
    rootsTodo: set<Unit>,
    pg: H.State)

  function Init(workers: nat, threads: nat): State {
    State(T.Init(), B.Init(workers), seq(workers, _ => Worker([], [], false, -1, Out, {})),
          seq(threads, _ => Idle), {}, H.Init(workers))
  }

  // ---- stages of a round ------------------------------------------------------

  predicate Rooting(s: State) {
    s.heap.stage.Marking? && s.bar.launched % 3 == 0
  }

  // External threads may mark from the start of the round until the callback
  // that stops marking.
  predicate MarkingOpen(s: State) {
    s.heap.stage.Marking? && s.bar.launched % 3 <= 1
  }

  predicate InUse(pc: WorkerPc) {
    pc.Top? || pc.Fill? || pc.Bottom? || pc.Scan? || pc.Push?
  }


  // The oldest ticket of the queue is claimed but not yet published.
  predicate HeadUnpublished(s: State, w: nat)
    requires w < |s.workers|
  {
    s.workers[w].queue != [] && exists t :: 0 <= t < |s.threads| && s.threads[t] == Claimed(w, s.workers[w].queue[0])
  }

  // The main collector thread.
  datatype MainStep =
    | Begin(roots: set<Unit>)
    | LaunchParallelMark
    | LaunchFinalMark
    | LaunchSweep
    | Resume
    | Close

  // A thread inside mark_root_unit_to_gray or mark_unit_to_gray.
  datatype ThreadStep =
    | RootMark(u: Unit, w: nat)
    | RootPush
    | MarkCas(u: Unit, w: nat)
    | Enqueue
    | Publish
    | SeeIdle
    | Lock
    | Recheck
    | PushDirect

  // A worker inside process_gray_units: steps that touch only its own lists.
  datatype ListStep =
    | Enter
    | LoopTop
    | TakeOne
    | FillStop
    | Pop
    | Quit
    | PushChild

  // A worker: steps that touch the heap or the barrier.
  datatype WorkStep =
    | Start
    | Read
    | Blacken
    | Finish
    | Visit(u: Unit)
    | EndPage(keep: bool)      // back on the page list, or to the chunk

  datatype Step =
    | Main(m: MainStep)
    | External(t: nat, e: ThreadStep)
    | Lists(w: nat, l: ListStep)
    | Work(w: nat, k: WorkStep)
    | Mutate(h: T.Step)
    | AddPage(p: nat, us: set<Unit>)

  ghost predicate MainEnabled(s: State, m: MainStep) {
    match m
    case Begin(roots) => s.heap.stage.Resting? && s.bar.launch == B.Idle && !s.bar.waiting
    case LaunchParallelMark =>
      && Rooting(s) && B.CanLaunch(s.bar) && s.rootsTodo == {}
      && forall t :: 0 <= t < |s.threads| ==> !s.threads[t].RootHand?
    case LaunchFinalMark =>
      && s.bar.launched % 3 == 1 && B.CanLaunch(s.bar)
      && forall t :: 0 <= t < |s.threads| ==> s.threads[t].Idle?
    // with no page at all the lists of an earlier round would be swept again
    case LaunchSweep =>
      && s.bar.launched % 3 == 2 && B.CanLaunch(s.bar)
      && |s.pg.lists| > 0 && (s.pg.list != [] || !s.pg.handed)
    case Resume => B.Enabled(s.bar, B.Resume)
    case Close => B.Enabled(s.bar, B.Close)
  }

  ghost function AfterMain(s: State, m: MainStep): State
    requires MainEnabled(s, m)
  {
    match m
    case Begin(roots) => s.(heap := T.DoBeginRound(s.heap, roots), rootsTodo := roots)
    case LaunchParallelMark => s.(bar := B.After(s.bar, B.Launch))
    case LaunchFinalMark => s.(bar := B.After(s.bar, B.Launch))
    case LaunchSweep =>
      var parts := H.Parts(H.Deal(s.pg));
      s.(bar := B.After(s.bar, B.Launch), heap := T.DoEndMark(s.heap), pg := H.Deal(s.pg),
         workers := seq(|s.workers|, w requires 0 <= w < |s.workers| =>
                          s.workers[w].(part := if w < |parts| then parts[w] else {})))
    case Resume => s.(bar := B.After(s.bar, B.Resume))
    case Close => s.(bar := B.After(s.bar, B.Close), heap := s.heap.(stage := T.Resting))
  }

  predicate ThreadEnabled(s: State, t: nat, e: ThreadStep) {
    && t < |s.threads|
    && match e
       case RootMark(u, w) => Rooting(s) && s.threads[t].Idle? && w < |s.workers|
       case MarkCas(u, w) => MarkingOpen(s) && s.threads[t].Idle? && w < |s.workers| && T.CanShade(s.heap, u)
       case _ =>
         && !s.threads[t].Idle? && s.threads[t].w < |s.workers|
         && var k := s.workers[s.threads[t].w];
            match e
            case RootPush => s.threads[t].RootHand? && k.holder == -1
            case Enqueue => s.threads[t].Hand? && |k.queue| < QUEUE_CAPACITY
            case Publish => s.threads[t].Claimed?
            case SeeIdle => s.threads[t].Hand? && !k.draining
            case Lock => s.threads[t].SawIdle? && k.holder == -1
            case Recheck => s.threads[t].Locked?
            case PushDirect => s.threads[t].Cleared?
            case _ => false
  }

  // The lists and lock of the worker the thread is marking for, afterwards.
  function WorkerAfter(k: Worker, t: nat, u: Unit, e: ThreadStep): Worker {
    match e
    case RootPush => k.(local := k.local + [u])
    case Enqueue => k.(queue := k.queue + [u])
    case Lock => k.(holder := t)
    case Recheck => if k.draining then k.(holder := -1) else k
    case PushDirect => k.(local := k.local + [u], holder := -1)
    case _ => k
  }

  function ThreadAfter(x: Thread, k: Worker, e: ThreadStep): Thread
    requires !x.Idle?
  {
    match e
    case Enqueue => Claimed(x.w, x.u)
    case SeeIdle => SawIdle(x.w, x.u)
    case Lock => Locked(x.w, x.u)
    case Recheck => if k.draining then Hand(x.w, x.u) else Cleared(x.w, x.u)
    case _ => Idle
  }

  function AfterThread(s: State, t: nat, e: ThreadStep): State
    requires ThreadEnabled(s, t, e)
  {
    match e
    case RootMark(u, w) =>
      if T.CanShade(s.heap, u)
      then s.(heap := T.DoShade(s.heap, u), threads := s.threads[t := RootHand(w, u)], rootsTodo := s.rootsTodo - {u})
      else s.(rootsTodo := s.rootsTodo - {u})
    case MarkCas(u, w) => s.(heap := T.DoShade(s.heap, u), threads := s.threads[t := Hand(w, u)])
    case _ =>
      var w, u := s.threads[t].w, s.threads[t].u;
      s.(workers := s.workers[w := WorkerAfter(s.workers[w], t, u, e)],
         threads := s.threads[t := ThreadAfter(s.threads[t], s.workers[w], e)])
  }

  predicate ListEnabled(s: State, w: nat, l: ListStep) {
    && w < |s.workers|
    && var k := s.workers[w];
       match l
       case Enter => k.pc.Entering? && k.holder == -1
       case LoopTop => k.pc.Top?
       case TakeOne => k.pc.Fill? && k.pc.n < QUEUE_CAPACITY && k.queue != [] && !HeadUnpublished(s, w)
       case FillStop => k.pc.Fill? && (k.pc.n == QUEUE_CAPACITY || k.queue == [] || HeadUnpublished(s, w))
       case Pop => k.pc.Bottom? && k.local != []
       case Quit => k.pc.Bottom? && k.local == []
       case PushChild => k.pc.Push?
  }

  function ListAfter(k: Worker, l: ListStep): Worker
    requires l.TakeOne? ==> k.queue != [] && k.pc.Fill?
    requires l.Pop? ==> k.local != []
    requires l.PushChild? ==> k.pc.Push?
  {
    match l
    case Enter => k.(draining := true, pc := Top)
    case LoopTop => k.(pc := if k.local == [] then Fill(0) else Bottom)
    case TakeOne => k.(local := k.local + [k.queue[0]], queue := k.queue[1..], pc := Fill(k.pc.n + 1))
    case FillStop => k.(pc := Bottom)
    case Pop => k.(local := k.local[..|k.local| - 1], pc := Scan(k.local[|k.local| - 1]))
    case Quit => k.(draining := false, pc := Left)
    case PushChild => k.(local := k.local + [k.pc.v], pc := Scan(k.pc.u))
  }

  function AfterList(s: State, w: nat, l: ListStep): State
    requires ListEnabled(s, w, l)
  {
    s.(workers := s.workers[w := ListAfter(s.workers[w], l)])
  }

  // The unit a worker is scanning is a unit with words.
  predicate Scanning(s: State, w: nat) {
    && w < |s.workers| && s.workers[w].pc.Scan?
    && s.workers[w].pc.u in s.heap.words && s.workers[w].pc.u in s.heap.heads
  }

  // Worker w is sweeping the first page of what is left of its list.
  predicate AtPage(s: State, w: nat) {
    && w < |s.workers| && w < |s.bar.workers| && s.bar.workers[w].running && s.bar.launch == B.Sweep
    && w < |s.pg.lists| && s.pg.lists[w] != [] && s.pg.lists[w][0] in s.pg.units
  }

  function PageUnits(s: State, w: nat): set<Unit>
    requires AtPage(s, w)
  {
    s.pg.units[s.pg.lists[w][0]]
  }

  predicate WorkEnabled(s: State, w: nat, k: WorkStep) {
    match k
    case Start => w < |s.workers| && B.Enabled(s.bar, B.Start(w))
    case Read => Scanning(s, w) && |T.Scanned(s.heap, s.workers[w].pc.u)| < |s.heap.words[s.workers[w].pc.u]|
    case Blacken => Scanning(s, w) && |T.Scanned(s.heap, s.workers[w].pc.u)| == |s.heap.words[s.workers[w].pc.u]|
    case Finish =>
      && w < |s.workers| && B.Enabled(s.bar, B.Finish(w))
      && (if s.bar.launch == B.Sweep then w < |s.pg.lists| && s.pg.lists[w] == [] else s.workers[w].pc.Left?)
    case Visit(u) => AtPage(s, w) && u in PageUnits(s, w) && u in s.workers[w].part && u in s.heap.heads
    case EndPage(keep) =>
      && AtPage(s, w) && PageUnits(s, w) !! s.workers[w].part
      && (!keep ==> forall u :: u in PageUnits(s, w) ==> u in s.heap.heads && s.heap.heads[u].life.Released?)
  }

  function SetPc(s: State, w: nat, pc: WorkerPc): seq<Worker>
    requires w < |s.workers|
  {
    s.workers[w := s.workers[w].(pc := pc)]
  }

  function AfterWork(s: State, w: nat, k: WorkStep): State
    requires WorkEnabled(s, w, k)
  {
    match k
    case Start =>
      s.(bar := B.After(s.bar, B.Start(w)),
         workers := if s.bar.launch == B.Sweep then s.workers else SetPc(s, w, Entering))
    case Read =>
      var u := s.workers[w].pc.u;
      var v := T.NextWord(s.heap, u);
      s.(heap := T.DoReadWord(s.heap, u),
         workers := SetPc(s, w, if v in s.heap.heads && s.heap.heads[v].life.Unmarked? then Push(u, v) else Scan(u)))
    case Blacken => s.(heap := T.DoBlacken(s.heap, s.workers[w].pc.u), workers := SetPc(s, w, Top))
    case Finish => s.(bar := B.After(s.bar, B.Finish(w)), workers := SetPc(s, w, Out))
    case Visit(u) =>
      s.(heap := T.DoVisit(s.heap, u), workers := s.workers[w := s.workers[w].(part := s.workers[w].part - {u})])
    case EndPage(keep) =>
      if keep then s.(pg := H.Keep(s.pg, w))
      else s.(pg := H.GiveBack(s.pg, w), heap := T.DoGiveBack(s.heap, PageUnits(s, w)))
  }

  ghost predicate CanMutate(s: State, h: T.Step) {
    T.IsMutation(h) && !h.NewPage? && !h.GiveBack? && T.Enabled(s.heap, h)
  }

  predicate CanAddPage(s: State, p: nat, us: set<Unit>) {
    p !in s.pg.units && us !! s.heap.heads.Keys
  }

  function DoAddPage(s: State, p: nat, us: set<Unit>): State {
    s.(heap := T.DoNewPage(s.heap, us), pg := H.Add(s.pg, p, us))
  }

  ghost predicate Enabled(s: State, step: Step) {
    match step
    case Main(m) => MainEnabled(s, m)
    case External(t, e) => ThreadEnabled(s, t, e)
    case Lists(w, l) => ListEnabled(s, w, l)
    case Work(w, k) => WorkEnabled(s, w, k)
    case Mutate(h) => CanMutate(s, h)
    case AddPage(p, us) => CanAddPage(s, p, us)
  }

  ghost function After(s: State, step: Step): State
    requires Enabled(s, step)
  {
    match step
    case Main(m) => AfterMain(s, m)
    case External(t, e) => AfterThread(s, t, e)
    case Lists(w, l) => AfterList(s, w, l)
    case Work(w, k) => AfterWork(s, w, k)
    case Mutate(h) => s.(heap := T.After(s.heap, h))
    case AddPage(p, us) => DoAddPage(s, p, us)
  }

  // ---- control invariant ----------------------------------------------------------

  ghost predicate StageOk(s: State) {
    && |s.bar.workers| == |s.workers| == |s.pg.lists|
    && B.Inv(s.bar)
    && (s.heap.stage.Resting? ==> s.bar.launch == B.Idle)
    && (s.heap.stage.Sweeping? ==> s.bar.launch == B.Sweep)
    && (s.heap.stage.Marking? ==> s.bar.launch != B.Sweep)
    && (s.bar.launched % 3 != 0 ==> s.rootsTodo == {})
    && (s.heap.stage.Marking? ==>
          forall r :: r in s.heap.cycle.roots ==> r in s.rootsTodo || T.NotWhite(s.heap, r))
  }

  // Worker w is inside a mark phase.
  predicate MarkRun(s: State, w: nat)
    requires w < |s.bar.workers|
  {
    s.bar.workers[w].running && s.bar.launch != B.Sweep
  }

  ghost predicate WorkerOk(s: State, w: nat)
    requires w < |s.workers| == |s.bar.workers| == |s.pg.lists|
  {
    var k := s.workers[w];
    && (k.pc.Out? <==> !MarkRun(s, w))
    && (k.draining <==> InUse(k.pc))
    && (k.pc.Fill? ==> |k.local| == k.pc.n <= QUEUE_CAPACITY)
    && |k.queue| <= QUEUE_CAPACITY
    && (s.bar.launched % 3 == 2 ==>
          && (k.pc.Left? || s.bar.workers[w].runs == s.bar.launched ==> k.local == [] && k.queue == [])
          && (k.pc.Bottom? && k.local == [] ==> k.queue == []))
    && (s.pg.lists[w] != [] ==> s.heap.stage.Sweeping? && s.bar.workers[w].runs != s.bar.launched)
  }

  ghost predicate ThreadOk(s: State, t: nat)
    requires t < |s.threads|
  {
    var x := s.threads[t];
    !x.Idle? ==>
      && MarkingOpen(s) && x.w < |s.workers|
      && (x.RootHand? ==> Rooting(s))
      && (x.Locked? || x.Cleared? ==> s.workers[x.w].holder == t)
      && (x.Cleared? ==> !s.workers[x.w].draining)
  }

  ghost predicate Control(s: State) {
    && StageOk(s)
    && (forall w :: 0 <= w < |s.workers| ==> WorkerOk(s, w))
    && (forall t :: 0 <= t < |s.threads| ==> ThreadOk(s, t))
  }

  // What the workers have to sweep is on their lists, is disjoint, and covers
  // what is left to sweep.
  ghost predicate PartsOk(s: State) {
    s.heap.stage.Sweeping? ==>
      && |s.pg.lists| == |s.workers|
      && (forall w :: 0 <= w < |s.workers| ==> s.workers[w].part <= SweepShares.UnitsOn(s.pg.units, s.pg.lists[w]))
      && (forall u :: u in s.heap.todo <==> exists w :: 0 <= w < |s.workers| && u in s.workers[w].part)
      && (forall v, w :: 0 <= v < w < |s.workers| ==> s.workers[v].part !! s.workers[w].part)
  }

  // The page lists fit the heap.
  ghost predicate PagesOk(s: State) {
    |s.pg.lists| == |s.workers| && H.Inv(s.pg, s.heap.heads.Keys)
  }

  // ---- where a gray unit is -----------------------------------------------------

  datatype Loc = InLocal(w: nat) | InQueue(w: nat) | AtScan(w: nat) | AtPush(w: nat) | InHand(t: nat)

  predicate Holds(s: State, l: Loc, u: Unit) {
    match l
    case InLocal(w) => w < |s.workers| && u in s.workers[w].local
    case InQueue(w) => w < |s.workers| && u in s.workers[w].queue
    case AtScan(w) => w < |s.workers| && (s.workers[w].pc.Scan? || s.workers[w].pc.Push?) && s.workers[w].pc.u == u
    case AtPush(w) => w < |s.workers| && s.workers[w].pc.Push? && s.workers[w].pc.v == u
    case InHand(t) => t < |s.threads| && !s.threads[t].Idle? && !s.threads[t].Claimed? && s.threads[t].u == u
  }

  predicate Gray(s: State, u: Unit) {
    u in s.heap.heads && s.heap.heads[u].life.SelfMarked?
  }

  ghost predicate NoRepeats(q: seq<Unit>) {
    forall i, j :: 0 <= i < j < |q| ==> q[i] != q[j]
  }

  // Every gray unit is in exactly one place, and is there once.
  ghost predicate Tokens(s: State) {
    && (forall u, l :: Holds(s, l, u) ==> Gray(s, u))
    && (forall u :: Gray(s, u) ==> exists l :: Holds(s, l, u))
    && (forall u, l, l' :: Holds(s, l, u) && Holds(s, l', u) ==> l == l')
    && (forall w :: 0 <= w < |s.workers| ==> NoRepeats(s.workers[w].local) && NoRepeats(s.workers[w].queue))
  }

  ghost predicate Inv(s: State) {
    T.Inv(s.heap) && Control(s) && PartsOk(s) && Tokens(s) && PagesOk(s)
  }

  // ---- tokens move ------------------------------------------------------------------

  ghost predicate SameGray(s: State, s': State) {
    forall u :: Gray(s', u) <==> Gray(s, u)
  }

  ghost predicate NoRepeatsAnywhere(s: State) {
    forall w :: 0 <= w < |s.workers| ==> NoRepeats(s.workers[w].local) && NoRepeats(s.workers[w].queue)
  }

  // Nothing moves.
  lemma TokensStay(s: State, s': State)
    requires Tokens(s) && SameGray(s, s') && NoRepeatsAnywhere(s')
    requires forall l, u :: Holds(s', l, u) <==> Holds(s, l, u)
    ensures Tokens(s')
  {
    forall u | Gray(s', u)
      ensures exists l :: Holds(s', l, u)
    {
      assert Gray(s, u);
      var l :| Holds(s, l, u);
      assert Holds(s', l, u);
    }
  }

  // One unit moves from one place to another.
  lemma TokenMoves(s: State, s': State, x: Unit, from: Loc, to: Loc)
    requires Tokens(s) && SameGray(s, s') && NoRepeatsAnywhere(s') && Holds(s, from, x)
    requires forall l, u :: Holds(s', l, u) <==> if u == x then l == to else Holds(s, l, u)
    ensures Tokens(s')
  {
    assert Holds(s', to, x);
    forall u | Gray(s', u)
      ensures exists l :: Holds(s', l, u)
    {
      assert Gray(s, u);
      if u != x {
        var l :| Holds(s, l, u);
        assert Holds(s', l, u);
      }
    }
  }

  // A unit turns gray and appears in one place.
  lemma TokenAppears(s: State, s': State, x: Unit, to: Loc)
    requires Tokens(s) && NoRepeatsAnywhere(s') && !Gray(s, x)
    requires forall u :: Gray(s', u) <==> Gray(s, u) || u == x
    requires forall l, u :: Holds(s', l, u) <==> if u == x then l == to else Holds(s, l, u)
    ensures Tokens(s')
  {
    assert Holds(s', to, x);
    forall u | Gray(s', u)
      ensures exists l :: Holds(s', l, u)
    {
      if u != x {
        assert Gray(s, u);
        var l :| Holds(s, l, u);
        assert Holds(s', l, u);
      }
    }
  }

  // A unit turns black and leaves its place.
  lemma TokenGoes(s: State, s': State, x: Unit)
    requires Tokens(s) && NoRepeatsAnywhere(s')
    requires forall u :: Gray(s', u) <==> Gray(s, u) && u != x
    requires forall l, u :: Holds(s', l, u) <==> Holds(s, l, u) && u != x
    ensures Tokens(s')
  {
    forall u | Gray(s', u)
      ensures exists l :: Holds(s', l, u)
    {
      assert Gray(s, u);
      var l :| Holds(s, l, u);
      assert Holds(s', l, u);
    }
  }

  // ---- tokens, step by step ------------------------------------------------------

  // Places that have nothing to do with worker w or thread t.
  lemma ElsewhereSame(s: State, s': State, w: int, t: int, l: Loc, u: Unit)
    requires |s'.workers| == |s.workers| && |s'.threads| == |s.threads|
    requires forall x :: 0 <= x < |s.workers| && x != w ==> s'.workers[x] == s.workers[x]
    requires forall x :: 0 <= x < |s.threads| && x != t ==> s'.threads[x] == s.threads[x]
    requires if l.InHand? then l.t != t else l.w != w
    ensures Holds(s', l, u) <==> Holds(s, l, u)
  {
  }

  lemma ShadeTokens(s: State, t: nat, u: Unit, x: Thread)
    requires Tokens(s) && t < |s.threads| && s.threads[t].Idle? && T.CanShade(s.heap, u)
    requires !x.Idle? && !x.Claimed? && x.u == u
    ensures Tokens(s.(heap := T.DoShade(s.heap, u), threads := s.threads[t := x]))
  {
    var s' := s.(heap := T.DoShade(s.heap, u), threads := s.threads[t := x]);
    assert !Gray(s, u);
    forall l, y
      ensures Holds(s', l, y) <==> if y == u then l == InHand(t) else Holds(s, l, y)
    {
      if l != InHand(t) {
        ElsewhereSame(s, s', -1, t, l, y);
      }
    }
    TokenAppears(s, s', u, InHand(t));
  }

  // A thread that only changes what it knows.
  lemma ThreadLocalTokens(s: State, t: nat, w: nat, k: Worker, x: Thread)
    requires Tokens(s) && t < |s.threads| && w < |s.workers|
    requires !s.threads[t].Idle? && !x.Idle? && x.u == s.threads[t].u
    requires !s.threads[t].Claimed? && !x.Claimed?
    requires k == s.workers[w].(holder := k.holder)
    ensures Tokens(s.(workers := s.workers[w := k], threads := s.threads[t := x]))
  {
    var s' := s.(workers := s.workers[w := k], threads := s.threads[t := x]);
    forall l, y
      ensures Holds(s', l, y) <==> Holds(s, l, y)
    {
    }
    TokensStay(s, s');
  }

  // A thread puts the unit in its hand on a list of worker w.
  lemma HandOverTokens(s: State, t: nat, w: nat, k: Worker, x: Thread, to: Loc)
    requires Tokens(s) && t < |s.threads| && w < |s.workers|
    requires !s.threads[t].Idle? && !s.threads[t].Claimed? && (x.Idle? || x.Claimed?)
    requires k.pc == s.workers[w].pc
    requires to == InLocal(w) ==> k.local == s.workers[w].local + [s.threads[t].u] && k.queue == s.workers[w].queue
    requires to == InQueue(w) ==> k.queue == s.workers[w].queue + [s.threads[t].u] && k.local == s.workers[w].local
    requires to == InLocal(w) || to == InQueue(w)
    ensures Tokens(s.(workers := s.workers[w := k], threads := s.threads[t := x]))
  {
    var u := s.threads[t].u;
    var s' := s.(workers := s.workers[w := k], threads := s.threads[t := x]);
    assert Holds(s, InHand(t), u);
    assert !Holds(s, to, u);
    forall l, y
      ensures Holds(s', l, y) <==> if y == u then l == to else Holds(s, l, y)
    {
      assert y == u && Holds(s, l, y) ==> l == InHand(t);
    }
    TokenMoves(s, s', u, InHand(t), to);
  }

  lemma RootMarkTokens(s: State, t: nat, u: Unit, w: nat)
    requires Tokens(s) && ThreadEnabled(s, t, RootMark(u, w))
    ensures Tokens(AfterThread(s, t, RootMark(u, w)))
  {
    var s' := AfterThread(s, t, RootMark(u, w));
    if T.CanShade(s.heap, u) {
      var m := s.(heap := T.DoShade(s.heap, u), threads := s.threads[t := RootHand(w, u)]);
      ShadeTokens(s, t, u, RootHand(w, u));
      TokensStay(m, s');
    } else {
      TokensStay(s, s');
    }
  }

  lemma ThreadTokens(s: State, t: nat, e: ThreadStep)
    requires Tokens(s) && ThreadEnabled(s, t, e)
    ensures Tokens(AfterThread(s, t, e))
  {
    match e {
      case RootMark(u, w) => RootMarkTokens(s, t, u, w);
      case MarkCas(u, w) => ShadeTokens(s, t, u, Hand(w, u));
      case Publish => TokensStay(s, AfterThread(s, t, e));
      case _ => HandTokens(s, t, e);
    }
  }

  lemma HandTokens(s: State, t: nat, e: ThreadStep)
    requires Tokens(s) && ThreadEnabled(s, t, e) && !e.RootMark? && !e.MarkCas? && !e.Publish?
    ensures Tokens(AfterThread(s, t, e))
  {
    var w := s.threads[t].w;
    var k := WorkerAfter(s.workers[w], t, s.threads[t].u, e);
    var x := ThreadAfter(s.threads[t], s.workers[w], e);
    if e.RootPush? || e.PushDirect? {
      HandOverTokens(s, t, w, k, x, InLocal(w));
    } else if e.Enqueue? {
      HandOverTokens(s, t, w, k, x, InQueue(w));
    } else {
      ThreadLocalTokens(s, t, w, k, x);
    }
  }

  // A worker moves u between its own places.
  lemma OwnMoveTokens(s: State, w: nat, k: Worker, u: Unit, from: Loc, to: Loc)
    requires Tokens(s) && w < |s.workers| && Holds(s, from, u)
    requires NoRepeats(k.local) && NoRepeats(k.queue)
    requires var s' := s.(workers := s.workers[w := k]);
             forall l: Loc, y :: !l.InHand? && l.w == w ==>
               (Holds(s', l, y) <==> if y == u then l == to else Holds(s, l, y))
    requires !from.InHand? && !to.InHand? && from.w == w == to.w
    ensures Tokens(s.(workers := s.workers[w := k]))
  {
    var s' := s.(workers := s.workers[w := k]);
    forall l, y
      ensures Holds(s', l, y) <==> if y == u then l == to else Holds(s, l, y)
    {
      if l.InHand? || l.w != w {
        ElsewhereSame(s, s', w, -1, l, y);
        assert y == u && Holds(s, l, y) ==> l == from;
      }
    }
    TokenMoves(s, s', u, from, to);
  }

  lemma PopTokens(s: State, w: nat)
    requires Tokens(s) && ListEnabled(s, w, Pop)
    ensures Tokens(AfterList(s, w, Pop))
  {
    var k := s.workers[w];
    var k' := ListAfter(k, Pop);
    var u := k.local[|k.local| - 1];
    assert Holds(s, InLocal(w), u);
    assert forall y :: y in k'.local <==> y in k.local && y != u;
    assert !Holds(s, InQueue(w), u);
    OwnMoveTokens(s, w, k', u, InLocal(w), AtScan(w));
  }

  lemma TakeOneTokens(s: State, w: nat)
    requires Tokens(s) && ListEnabled(s, w, TakeOne)
    ensures Tokens(AfterList(s, w, TakeOne))
  {
    var k := s.workers[w];
    var k' := ListAfter(k, TakeOne);
    var u := k.queue[0];
    assert Holds(s, InQueue(w), u);
    assert !Holds(s, InLocal(w), u);
    assert k.queue == [u] + k'.queue;
    assert forall y :: y in k'.queue <==> y in k.queue && y != u;
    OwnMoveTokens(s, w, k', u, InQueue(w), InLocal(w));
  }

  lemma PushChildTokens(s: State, w: nat)
    requires Tokens(s) && ListEnabled(s, w, PushChild)
    ensures Tokens(AfterList(s, w, PushChild))
  {
    var k := s.workers[w];
    var v := k.pc.v;
    assert Holds(s, AtPush(w), v);
    assert !Holds(s, InLocal(w), v);
    assert !Holds(s, InQueue(w), v);
    assert !Holds(s, AtScan(w), v);
    OwnMoveTokens(s, w, ListAfter(k, PushChild), v, AtPush(w), InLocal(w));
  }

  lemma ListTokens(s: State, w: nat, l: ListStep)
    requires Tokens(s) && ListEnabled(s, w, l)
    ensures Tokens(AfterList(s, w, l))
  {
    match l {
      case Pop => PopTokens(s, w);
      case TakeOne => TakeOneTokens(s, w);
      case PushChild => PushChildTokens(s, w);
      case _ => TokensStay(s, AfterList(s, w, l));
    }
  }

  lemma ReadTokens(s: State, w: nat)
    requires Tokens(s) && WorkEnabled(s, w, Read)
    requires T.CanScan(s.heap, s.workers[w].pc.u, |T.Scanned(s.heap, s.workers[w].pc.u)|)
    ensures Tokens(AfterWork(s, w, Read))
  {
    var s' := AfterWork(s, w, Read);
    var u := s.workers[w].pc.u;
    var v := T.NextWord(s.heap, u);
    if v in s.heap.heads && s.heap.heads[v].life.Unmarked? {
      assert !Gray(s, v) && Gray(s, u);
      forall l, y
        ensures Holds(s', l, y) <==> if y == v then l == AtPush(w) else Holds(s, l, y)
      {
        assert Holds(s, l, y) ==> Gray(s, y);
        if l.InHand? || l.w != w {
          ElsewhereSame(s, s', w, -1, l, y);
        }
      }
      TokenAppears(s, s', v, AtPush(w));
    } else {
      TokensStay(s, s');
    }
  }

  lemma BlackenTokens(s: State, w: nat)
    requires Tokens(s) && WorkEnabled(s, w, Blacken)
    ensures Tokens(AfterWork(s, w, Blacken))
  {
    var s' := AfterWork(s, w, Blacken);
    var u := s.workers[w].pc.u;
    assert Holds(s, AtScan(w), u);
    forall l, y
      ensures Holds(s', l, y) <==> Holds(s, l, y) && y != u
    {
      assert y == u && Holds(s, l, y) ==> l == AtScan(w);
    }
    TokenGoes(s, s', u);
  }

  // A worker outside the mark loop holds nothing at its program counter.
  lemma PcTokens(s: State, w: nat, bar: B.State, pc: WorkerPc)
    requires Tokens(s) && w < |s.workers|
    requires s.workers[w].pc.Out? || s.workers[w].pc.Left? || s.workers[w].pc.Entering?
    requires pc.Out? || pc.Left? || pc.Entering?
    ensures Tokens(s.(bar := bar, workers := SetPc(s, w, pc)))
  {
    TokensStay(s, s.(bar := bar, workers := SetPc(s, w, pc)));
  }

  // Steps of the heap that leave gray units gray.
  lemma HeapTokens(s: State, s': State)
    requires Tokens(s) && SameGray(s, s') && s'.threads == s.threads && |s'.workers| == |s.workers|
    requires forall w :: 0 <= w < |s.workers| ==> s'.workers[w] == s.workers[w].(part := s'.workers[w].part)
    ensures Tokens(s')
  {
    forall l, u
      ensures Holds(s', l, u) <==> Holds(s, l, u)
    {
      if !l.InHand? && l.w < |s.workers| {
        assert s'.workers[l.w] == s.workers[l.w].(part := s'.workers[l.w].part);
      }
    }
    forall w | 0 <= w < |s.workers|
      ensures NoRepeats(s'.workers[w].local) && NoRepeats(s'.workers[w].queue)
    {
      assert s'.workers[w] == s.workers[w].(part := s'.workers[w].part);
    }
    TokensStay(s, s');
  }

  // ---- control, step by step ---------------------------------------------------

  // Neither the barrier nor the stage moves.
  ghost predicate SameStage(s: State, s': State) {
    && s'.bar == s.bar && s'.heap.stage == s.heap.stage
    && |s'.workers| == |s.workers| && |s'.threads| == |s.threads| && |s'.pg.lists| == |s.pg.lists|
    && (s.heap.stage.Marking? ==>
          && s'.heap.cycle == s.heap.cycle && s'.rootsTodo <= s.rootsTodo
          && (forall r :: T.NotWhite(s.heap, r) || r in s.rootsTodo ==> T.NotWhite(s'.heap, r) || r in s'.rootsTodo))
    && (s.bar.launched % 3 != 0 ==> s'.rootsTodo == s.rootsTodo)
  }

  // Only worker w and thread t change.
  lemma ControlFrame(s: State, s': State, w: int, t: int)
    requires Control(s) && SameStage(s, s')
    requires forall x :: 0 <= x < |s.workers| && x != w ==>
               s'.workers[x] == s.workers[x] && s'.pg.lists[x] == s.pg.lists[x]
    requires forall x :: 0 <= x < |s.threads| && x != t ==> s'.threads[x] == s.threads[x]
    requires 0 <= w < |s.workers| ==> WorkerOk(s', w)
    requires 0 <= t < |s.threads| ==> ThreadOk(s', t)
    // threads that rely on worker w can still do so
    requires forall x :: 0 <= x < |s.threads| && x != t && !s.threads[x].Idle? && s.threads[x].w == w < |s.workers| ==>
               && (s.threads[x].Locked? || s.threads[x].Cleared? ==> s'.workers[w].holder == s.workers[w].holder)
               && (s.threads[x].Cleared? ==> !s'.workers[w].draining)
    ensures Control(s')
  {
    forall x | 0 <= x < |s'.workers| && x != w
      ensures WorkerOk(s', x)
    {
      assert WorkerOk(s, x);
    }
    forall x | 0 <= x < |s'.threads| && x != t
      ensures ThreadOk(s', x)
    {
      assert ThreadOk(s, x);
    }
  }

  // A thread in the critical section has the lock; one about to push directly
  // also knows that the worker is not draining.
  lemma LockFacts(s: State)
    requires Control(s)
    ensures forall x :: 0 <= x < |s.threads| && (s.threads[x].Locked? || s.threads[x].Cleared?) ==>
              && s.threads[x].w < |s.workers| && s.workers[s.threads[x].w].holder == x
              && (s.threads[x].Cleared? ==> !s.workers[s.threads[x].w].draining)
  {
    forall x | 0 <= x < |s.threads| && (s.threads[x].Locked? || s.threads[x].Cleared?)
      ensures s.threads[x].w < |s.workers| && s.workers[s.threads[x].w].holder == x
      ensures s.threads[x].Cleared? ==> !s.workers[s.threads[x].w].draining
    {
      assert ThreadOk(s, x);
    }
  }

  // External threads are quiet unless marking is open to them.
  lemma QuietUnlessOpen(s: State)
    requires Control(s)
    ensures forall t :: 0 <= t < |s.threads| ==> s.threads[t].Idle? || MarkingOpen(s)
  {
    forall t | 0 <= t < |s.threads|
      ensures s.threads[t].Idle? || MarkingOpen(s)
    {
      assert ThreadOk(s, t);
    }
  }

  lemma ListControl(s: State, w: nat, l: ListStep)
    requires Control(s) && ListEnabled(s, w, l)
    ensures Control(AfterList(s, w, l))
  {
    ListWorkerOk(s, w, l);
    LockFacts(s);
    ControlFrame(s, AfterList(s, w, l), w, -1);
  }

  lemma ListWorkerOk(s: State, w: nat, l: ListStep)
    requires Control(s) && ListEnabled(s, w, l)
    ensures WorkerOk(AfterList(s, w, l), w)
  {
    assert WorkerOk(s, w);
    assert B.WorkerOk(s.bar, w);
    QuietUnlessOpen(s);
    assert s.bar.launched % 3 == 2 ==> !HeadUnpublished(s, w);
  }

  lemma ThreadControl(s: State, t: nat, e: ThreadStep)
    requires Control(s) && ThreadEnabled(s, t, e)
    ensures Control(AfterThread(s, t, e))
  {
    var s' := AfterThread(s, t, e);
    assert ThreadOk(s, t);
    match e {
      case RootMark(u, w) => ControlFrame(s, s', -1, t);
      case MarkCas(u, w) => ControlFrame(s, s', -1, t);
      case _ => HandControl(s, t, e);
    }
  }

  lemma HandControl(s: State, t: nat, e: ThreadStep)
    requires Control(s) && ThreadEnabled(s, t, e) && !e.RootMark? && !e.MarkCas?
    ensures Control(AfterThread(s, t, e))
  {
    var w := s.threads[t].w;
    assert ThreadOk(s, t);
    HandWorkerOk(s, t, e);
    LockFacts(s);
    ControlFrame(s, AfterThread(s, t, e), w, t);
  }

  lemma HandWorkerOk(s: State, t: nat, e: ThreadStep)
    requires Control(s) && ThreadEnabled(s, t, e) && !e.RootMark? && !e.MarkCas?
    ensures WorkerOk(AfterThread(s, t, e), s.threads[t].w)
  {
    var w := s.threads[t].w;
    assert ThreadOk(s, t);
    assert WorkerOk(s, w);
    assert B.WorkerOk(s.bar, w);
  }

  lemma ScanControl(s: State, w: nat, k: WorkStep)
    requires Control(s) && T.Inv(s.heap) && WorkEnabled(s, w, k) && (k.Read? || k.Blacken?)
    requires T.CanScan(s.heap, s.workers[w].pc.u, |T.Scanned(s.heap, s.workers[w].pc.u)|)
    ensures Control(AfterWork(s, w, k))
  {
    var s' := AfterWork(s, w, k);
    assert WorkerOk(s, w);
    assert B.WorkerOk(s.bar, w);
    assert WorkerOk(s', w);
    LockFacts(s);
    ControlFrame(s, s', w, -1);
  }

  lemma VisitControl(s: State, w: nat, u: Unit)
    requires Control(s) && WorkEnabled(s, w, Visit(u))
    ensures Control(AfterWork(s, w, Visit(u)))
  {
    var s' := AfterWork(s, w, Visit(u));
    assert WorkerOk(s, w);
    assert B.WorkerOk(s.bar, w);
    QuietUnlessOpen(s);
    ControlFrame(s, s', w, -1);
  }

  lemma StartControl(s: State, w: nat)
    requires Control(s) && WorkEnabled(s, w, Start)
    ensures Control(AfterWork(s, w, Start))
  {
    var s' := AfterWork(s, w, Start);
    B.StepOk(s.bar, B.Start(w));
    B.StartedOnTime(s.bar, w);
    forall x | 0 <= x < |s.workers|
      ensures WorkerOk(s', x)
    {
      assert WorkerOk(s, x);
    }
    forall t | 0 <= t < |s.threads|
      ensures ThreadOk(s', t)
    {
      assert ThreadOk(s, t);
    }
  }

  lemma FinishControl(s: State, w: nat)
    requires Control(s) && WorkEnabled(s, w, Finish)
    ensures Control(AfterWork(s, w, Finish))
  {
    var s' := AfterWork(s, w, Finish);
    B.StepOk(s.bar, B.Finish(w));
    assert B.WorkerOk(s.bar, w);
    forall x | 0 <= x < |s.workers|
      ensures WorkerOk(s', x)
    {
      assert WorkerOk(s, x);
    }
    forall t | 0 <= t < |s.threads|
      ensures ThreadOk(s', t)
    {
      assert ThreadOk(s, t);
    }
  }

  lemma EndPageControl(s: State, w: nat, keep: bool)
    requires Control(s) && WorkEnabled(s, w, EndPage(keep))
    ensures Control(AfterWork(s, w, EndPage(keep)))
  {
    var s' := AfterWork(s, w, EndPage(keep));
    assert WorkerOk(s, w);
    assert B.WorkerOk(s.bar, w);
    QuietUnlessOpen(s);
    ControlFrame(s, s', w, -1);
  }

  lemma AddPageControl(s: State, p: nat, us: set<Unit>)
    requires Control(s) && CanAddPage(s, p, us)
    ensures Control(DoAddPage(s, p, us))
  {
    T.MutationKeeps(s.heap, T.NewPage(us));
    ControlFrame(s, DoAddPage(s, p, us), -1, -1);
  }

  lemma MutateControl(s: State, h: T.Step)
    requires Control(s) && T.IsMutation(h) && T.Enabled(s.heap, h)
    ensures Control(s.(heap := T.After(s.heap, h)))
  {
    var s' := s.(heap := T.After(s.heap, h));
    T.MutationKeeps(s.heap, h);
    ControlFrame(s, s', -1, -1);
  }

  // ---- main thread: control -----------------------------------------------------

  // With main between phases every worker is idle, with the launched phases done.
  lemma WorkersParked(s: State)
    requires Control(s) && !s.bar.waiting
    ensures forall w :: 0 <= w < |s.workers| ==>
              s.workers[w].pc.Out? && s.bar.workers[w].runs == s.bar.launched && !s.bar.workers[w].running
  {
    forall w | 0 <= w < |s.workers|
      ensures s.workers[w].pc.Out? && s.bar.workers[w].runs == s.bar.launched && !s.bar.workers[w].running
    {
      assert WorkerOk(s, w);
      assert B.WorkerOk(s.bar, w);
    }
  }

  lemma BeginControl(s: State, roots: set<Unit>)
    requires Control(s) && MainEnabled(s, Begin(roots))
    ensures Control(AfterMain(s, Begin(roots)))
  {
    var s' := AfterMain(s, Begin(roots));
    forall w | 0 <= w < |s.workers|
      ensures WorkerOk(s', w)
    {
      assert WorkerOk(s, w);
    }
    QuietUnlessOpen(s);
    assert forall t :: 0 <= t < |s.threads| ==> ThreadOk(s', t);
  }

  lemma LaunchMarkControl(s: State, m: MainStep)
    requires Control(s) && MainEnabled(s, m) && (m.LaunchParallelMark? || m.LaunchFinalMark?)
    ensures Control(AfterMain(s, m))
  {
    var s' := AfterMain(s, m);
    B.StepOk(s.bar, B.Launch);
    WorkersParked(s);
    forall w | 0 <= w < |s.workers|
      ensures WorkerOk(s', w)
    {
      assert WorkerOk(s, w);
    }
    forall t | 0 <= t < |s.threads|
      ensures ThreadOk(s', t)
    {
      assert ThreadOk(s, t);
    }
  }

  lemma LaunchSweepControl(s: State)
    requires Control(s) && MainEnabled(s, LaunchSweep)
    ensures Control(AfterMain(s, LaunchSweep))
  {
    var s' := AfterMain(s, LaunchSweep);
    B.StepOk(s.bar, B.Launch);
    WorkersParked(s);
    forall w | 0 <= w < |s.workers|
      ensures WorkerOk(s', w)
    {
      assert WorkerOk(s, w);
    }
    QuietUnlessOpen(s);
    assert forall t :: 0 <= t < |s.threads| ==> ThreadOk(s', t);
  }

  lemma ResumeCloseControl(s: State, m: MainStep)
    requires Control(s) && MainEnabled(s, m) && (m.Resume? || m.Close?)
    ensures Control(AfterMain(s, m))
  {
    var s' := AfterMain(s, m);
    B.StepOk(s.bar, if m.Resume? then B.Resume else B.Close);
    forall w | 0 <= w < |s.workers|
      ensures WorkerOk(s', w)
    {
      assert WorkerOk(s, w);
      assert B.WorkerOk(s.bar, w);
    }
    QuietUnlessOpen(s);
    forall t | 0 <= t < |s.threads|
      ensures ThreadOk(s', t)
    {
      assert ThreadOk(s, t);
    }
  }

  // ---- the heap only ever takes its own steps --------------------------------------

  // A worker in the mark loop works on a marking heap, and the unit it scans is
  // gray: the assertion in process_gray_units never fails.
  lemma ScannedIsGray(s: State, w: nat)
    requires Control(s) && Tokens(s) && w < |s.workers| && (s.workers[w].pc.Scan? || s.workers[w].pc.Push?)
    ensures s.heap.stage.Marking? && Gray(s, s.workers[w].pc.u)
  {
    assert WorkerOk(s, w);
    assert B.WorkerOk(s.bar, w);
    assert Holds(s, AtScan(w), s.workers[w].pc.u);
  }

  // Before the sweep is launched nothing is gray any more.
  lemma NothingGrayBeforeSweep(s: State)
    requires Control(s) && Tokens(s) && MainEnabled(s, LaunchSweep)
    ensures T.CanEndMark(s.heap)
  {
    WorkersParked(s);
    QuietUnlessOpen(s);
    forall u, l
      ensures !Holds(s, l, u)
    {
      if !l.InHand? && l.w < |s.workers| {
        assert WorkerOk(s, l.w);
      }
    }
    forall u | u in s.heap.heads
      ensures !s.heap.heads[u].life.SelfMarked?
    {
      assert Gray(s, u) ==> exists l :: Holds(s, l, u);
    }
  }

  // When main closes the round every page has been swept.
  lemma NothingLeftToSweep(s: State)
    requires Control(s) && PartsOk(s) && MainEnabled(s, Close)
    ensures s.heap.stage.Sweeping? && s.heap.todo == {}
  {
    ListsEmpty(s);
  }

  // Between phases no worker has a page in hand.
  lemma ListsEmpty(s: State)
    requires Control(s) && !s.bar.waiting
    ensures forall w :: 0 <= w < |s.pg.lists| ==> s.pg.lists[w] == []
  {
    WorkersParked(s);
    forall w | 0 <= w < |s.workers|
      ensures s.pg.lists[w] == []
    {
      assert WorkerOk(s, w);
    }
  }

  lemma MainHeap(s: State, m: MainStep)
    requires Inv(s) && MainEnabled(s, m)
    ensures T.Inv(AfterMain(s, m).heap)
  {
    match m {
      case Begin(roots) => T.BeginRoundOk(s.heap, roots);
      case LaunchSweep =>
        NothingGrayBeforeSweep(s);
        T.EndMarkOk(s.heap);
      case Close =>
        NothingLeftToSweep(s);
        T.EndRoundOk(s.heap);
      case _ =>
    }
  }

  lemma ThreadHeap(s: State, t: nat, e: ThreadStep)
    requires T.Inv(s.heap) && ThreadEnabled(s, t, e)
    ensures T.Inv(AfterThread(s, t, e).heap)
  {
    match e {
      case RootMark(u, w) =>
        if T.CanShade(s.heap, u) {
          T.ShadeOk(s.heap, u);
        }
      case MarkCas(u, w) => T.ShadeOk(s.heap, u);
      case _ =>
    }
  }

  lemma WorkHeap(s: State, w: nat, k: WorkStep)
    requires Inv(s) && WorkEnabled(s, w, k)
    ensures T.Inv(AfterWork(s, w, k).heap)
  {
    match k {
      case Read =>
        ScannedIsGray(s, w);
        T.ReadWordOk(s.heap, s.workers[w].pc.u);
      case Blacken =>
        ScannedIsGray(s, w);
        T.BlackenOk(s.heap, s.workers[w].pc.u);
      case Visit(u) => T.VisitOk(s.heap, u);
      case EndPage(keep) =>
        if !keep {
          assert WorkerOk(s, w);
          EmptyPageLeaves(s, w);
          T.GiveBackOk(s.heap, PageUnits(s, w));
        }
      case _ =>
    }
  }

  // A page whose units the worker is through with has nothing left to sweep.
  lemma EmptyPageLeaves(s: State, w: nat)
    requires PartsOk(s) && PagesOk(s) && s.heap.stage.Sweeping? && WorkEnabled(s, w, EndPage(false))
    ensures T.CanGiveBack(s.heap, PageUnits(s, w))
  {
    var p := s.pg.lists[w][0];
    forall u | u in s.heap.todo
      ensures u !in s.pg.units[p]
    {
      var v :| 0 <= v < |s.workers| && u in s.workers[v].part;
      if v != w {
        SweepShares.OnSomePage(s.pg.units, s.pg.lists[v], u);
        var k :| 0 <= k < |s.pg.lists[v]| && u in SweepShares.On(s.pg.units, s.pg.lists[v][k]);
        H.OneList(s.pg, s.heap.heads.Keys, v, w, s.pg.lists[v][k]);
      }
    }
  }

  // ---- the other parts of the invariant ---------------------------------------------

  lemma WorkTokens(s: State, w: nat, k: WorkStep)
    requires Inv(s) && WorkEnabled(s, w, k)
    ensures Tokens(AfterWork(s, w, k))
  {
    assert WorkerOk(s, w);
    match k {
      case Read =>
        ScannedIsGray(s, w);
        ReadTokens(s, w);
      case Blacken => BlackenTokens(s, w);
      case Start =>
        B.StartedOnTime(s.bar, w);
        PcTokens(s, w, B.After(s.bar, B.Start(w)), if s.bar.launch == B.Sweep then s.workers[w].pc else Entering);
        if s.bar.launch == B.Sweep {
          TokensStay(s, AfterWork(s, w, k));
        }
      case Finish => PcTokens(s, w, B.After(s.bar, B.Finish(w)), Out);
      case Visit(u) =>
        assert T.UnitOk(s.heap, u);
        SweepTokens(s, w, k);
      case EndPage(keep) => SweepTokens(s, w, k);
    }
  }

  lemma SweepTokens(s: State, w: nat, k: WorkStep)
    requires Tokens(s) && WorkEnabled(s, w, k) && (k.Visit? || k.EndPage?)
    requires k.Visit? ==> !Gray(s, k.u)
    ensures Tokens(AfterWork(s, w, k))
  {
    HeapTokens(s, AfterWork(s, w, k));
  }

  lemma MainTokens(s: State, m: MainStep)
    requires Inv(s) && MainEnabled(s, m)
    ensures Tokens(AfterMain(s, m))
  {
    if m.Begin? {
      assert forall u :: u in s.heap.heads ==> T.UnitOk(s.heap, u);
    }
    HeapTokens(s, AfterMain(s, m));
  }

  lemma WorkControl(s: State, w: nat, k: WorkStep)
    requires Inv(s) && WorkEnabled(s, w, k)
    ensures Control(AfterWork(s, w, k))
  {
    match k {
      case Start => StartControl(s, w);
      case Finish => FinishControl(s, w);
      case Visit(u) => VisitControl(s, w, u);
      case EndPage(keep) => EndPageControl(s, w, keep);
      case _ =>
        ScannedIsGray(s, w);
        ScanControl(s, w, k);
    }
  }

  lemma MainControl(s: State, m: MainStep)
    requires Control(s) && MainEnabled(s, m)
    ensures Control(AfterMain(s, m))
  {
    match m {
      case Begin(roots) => BeginControl(s, roots);
      case LaunchSweep => LaunchSweepControl(s);
      case Resume => ResumeCloseControl(s, m);
      case Close => ResumeCloseControl(s, m);
      case _ => LaunchMarkControl(s, m);
    }
  }

  lemma VisitParts(s: State, w: nat, u: Unit)
    requires PartsOk(s) && WorkEnabled(s, w, Visit(u))
    ensures PartsOk(AfterWork(s, w, Visit(u)))
  {
    var s' := AfterWork(s, w, Visit(u));
    if s.heap.stage.Sweeping? {
      forall y
        ensures y in s'.heap.todo <==> exists x :: 0 <= x < |s'.workers| && y in s'.workers[x].part
      {
        if y in s'.heap.todo {
          var x :| 0 <= x < |s.workers| && y in s.workers[x].part;
          assert y in s'.workers[x].part;
        }
        if exists x :: 0 <= x < |s'.workers| && y in s'.workers[x].part {
          var x :| 0 <= x < |s'.workers| && y in s'.workers[x].part;
          assert y in s.workers[x].part;
        }
      }
    }
  }

  // Steps that leave the sweep lists and the units to sweep alone.
  lemma PartsFrame(s: State, s': State)
    requires PartsOk(s) && |s'.workers| == |s.workers| && s'.pg == s.pg
    requires s'.heap.stage.Sweeping? ==> s.heap.stage.Sweeping? && s'.heap.todo == s.heap.todo
    requires forall w :: 0 <= w < |s.workers| ==> s'.workers[w].part == s.workers[w].part
    ensures PartsOk(s')
  {
    if s'.heap.stage.Sweeping? {
      forall u
        ensures u in s'.heap.todo <==> exists w :: 0 <= w < |s'.workers| && u in s'.workers[w].part
      {
        if u in s.heap.todo {
          var w :| 0 <= w < |s.workers| && u in s.workers[w].part;
          assert u in s'.workers[w].part;
        }
        if exists w :: 0 <= w < |s'.workers| && u in s'.workers[w].part {
          var w :| 0 <= w < |s'.workers| && u in s'.workers[w].part;
          assert u in s.workers[w].part;
        }
      }
    }
  }

  lemma LaunchSweepParts(s: State)
    requires PagesOk(s) && MainEnabled(s, LaunchSweep) && forall w :: 0 <= w < |s.pg.lists| ==> s.pg.lists[w] == []
    ensures PartsOk(AfterMain(s, LaunchSweep))
  {
    H.DealIsPartition(s.pg, s.heap.heads.Keys);
    PartitionIsParts(AfterMain(s, LaunchSweep), H.Parts(H.Deal(s.pg)));
  }

  lemma PartitionIsParts(s: State, parts: seq<set<Unit>>)
    requires |parts| == |s.workers| == |s.pg.lists| && SweepShares.Partition(parts, s.heap.todo)
    requires forall w :: 0 <= w < |parts| ==> s.workers[w].part == parts[w]
    requires forall w :: 0 <= w < |parts| ==> parts[w] == SweepShares.UnitsOn(s.pg.units, s.pg.lists[w])
    ensures PartsOk(s)
  {
    forall u
      ensures u in s.heap.todo <==> exists w :: 0 <= w < |s.workers| && u in s.workers[w].part
    {
      if u in s.heap.todo {
        var w :| 0 <= w < |parts| && u in parts[w];
        assert u in s.workers[w].part;
      }
      if exists w :: 0 <= w < |s.workers| && u in s.workers[w].part {
        var w :| 0 <= w < |s.workers| && u in s.workers[w].part;
        assert u in parts[w];
      }
    }
  }

  // The lists of other workers, and the units on them, when a page is added or
  // worker w is through with one.
  lemma PartsElsewhere(s: State, s': State)
    requires PartsOk(s) && |s'.workers| == |s.workers| && |s'.pg.lists| == |s.pg.lists|
    requires s'.workers == s.workers && s'.heap.stage == s.heap.stage && s'.heap.todo == s.heap.todo
    requires s.heap.stage.Sweeping? ==> forall x :: 0 <= x < |s.workers| ==>
               s.workers[x].part <= SweepShares.UnitsOn(s'.pg.units, s'.pg.lists[x])
    ensures PartsOk(s')
  {
  }

  lemma EndPageParts(s: State, w: nat, keep: bool)
    requires PartsOk(s) && PagesOk(s) && WorkEnabled(s, w, EndPage(keep))
    ensures PartsOk(AfterWork(s, w, EndPage(keep)))
  {
    var s' := AfterWork(s, w, EndPage(keep));
    var list := s.pg.lists[w];
    forall x | 0 <= x < |s.workers| && s.heap.stage.Sweeping?
      ensures s.workers[x].part <= SweepShares.UnitsOn(s'.pg.units, s'.pg.lists[x])
    {
      if x == w {
        H.UnitsOnTail(s.pg.units, list);
      }
      forall p | p in s'.pg.lists[x]
        ensures SweepShares.On(s'.pg.units, p) == SweepShares.On(s.pg.units, p)
      {
        OtherPage(s, w, x, p);
      }
      H.OtherPages(s.pg.units, s'.pg.units, s'.pg.lists[x]);
    }
    PartsElsewhere(s, s');
  }

  // The page worker w is at is on no list any more once it is taken off.
  lemma OtherPage(s: State, w: nat, x: nat, p: nat)
    requires PagesOk(s) && AtPage(s, w) && x < |s.pg.lists|
    requires p in if x == w then s.pg.lists[w][1..] else s.pg.lists[x]
    ensures p != s.pg.lists[w][0]
  {
    var list := s.pg.lists[w];
    if x == w {
      H.TimesAtLeast(s.pg.lists, w, list[0]);
      var k :| 0 <= k < |list| - 1 && list[1..][k] == p;
      if p == list[0] {
        H.TwiceListed(list, 0, k + 1);
      }
    } else {
      H.OneList(s.pg, s.heap.heads.Keys, x, w, p);
    }
  }

  lemma AddPageParts(s: State, p: nat, us: set<Unit>)
    requires PartsOk(s) && PagesOk(s) && CanAddPage(s, p, us)
    ensures PartsOk(DoAddPage(s, p, us))
  {
    var s' := DoAddPage(s, p, us);
    forall x | 0 <= x < |s.workers| && s.heap.stage.Sweeping?
      ensures s.workers[x].part <= SweepShares.UnitsOn(s'.pg.units, s'.pg.lists[x])
    {
      forall q | q in s.pg.lists[x]
        ensures q != p
      {
        H.OneList(s.pg, s.heap.heads.Keys, x, x, q);
      }
      H.OtherPages(s.pg.units, s'.pg.units, s.pg.lists[x]);
    }
    PartsElsewhere(s, s');
  }

  // ---- every step --------------------------------------------------------------------

  lemma MainOk(s: State, m: MainStep)
    requires Inv(s) && MainEnabled(s, m)
    ensures Inv(AfterMain(s, m))
  {
    MainHeap(s, m);
    MainControl(s, m);
    MainTokens(s, m);
    if m.LaunchSweep? {
      ListsEmpty(s);
      LaunchSweepParts(s);
      H.DealOk(s.pg, s.heap.heads.Keys);
    } else {
      PartsFrame(s, AfterMain(s, m));
    }
  }

  lemma ThreadStepOk(s: State, t: nat, e: ThreadStep)
    requires Inv(s) && ThreadEnabled(s, t, e)
    ensures Inv(AfterThread(s, t, e))
  {
    ThreadHeap(s, t, e);
    ThreadControl(s, t, e);
    ThreadTokens(s, t, e);
    PartsFrame(s, AfterThread(s, t, e));
  }

  lemma ListOk(s: State, w: nat, l: ListStep)
    requires Inv(s) && ListEnabled(s, w, l)
    ensures Inv(AfterList(s, w, l))
  {
    ListControl(s, w, l);
    ListTokens(s, w, l);
    PartsFrame(s, AfterList(s, w, l));
  }

  lemma WorkOk(s: State, w: nat, k: WorkStep)
    requires Inv(s) && WorkEnabled(s, w, k)
    ensures Inv(AfterWork(s, w, k))
  {
    WorkHeap(s, w, k);
    WorkControl(s, w, k);
    WorkTokens(s, w, k);
    WorkParts(s, w, k);
    WorkPages(s, w, k);
  }

  lemma WorkParts(s: State, w: nat, k: WorkStep)
    requires PartsOk(s) && PagesOk(s) && WorkEnabled(s, w, k)
    ensures PartsOk(AfterWork(s, w, k))
  {
    match k {
      case Visit(u) => VisitParts(s, w, u);
      case EndPage(keep) => EndPageParts(s, w, keep);
      case _ => PartsFrame(s, AfterWork(s, w, k));
    }
  }

  lemma WorkPages(s: State, w: nat, k: WorkStep)
    requires PagesOk(s) && WorkEnabled(s, w, k)
    ensures PagesOk(AfterWork(s, w, k))
  {
    match k {
      case EndPage(keep) =>
        if keep {
          H.KeepOk(s.pg, s.heap.heads.Keys, w);
        } else {
          H.GiveBackOk(s.pg, s.heap.heads.Keys, w);
          assert AfterWork(s, w, k).heap.heads.Keys == s.heap.heads.Keys - PageUnits(s, w);
        }
      case _ => assert AfterWork(s, w, k).heap.heads.Keys == s.heap.heads.Keys;
    }
  }

  lemma MutateOk(s: State, h: T.Step)
    requires Inv(s) && CanMutate(s, h)
    ensures Inv(s.(heap := T.After(s.heap, h)))
  {
    var s' := s.(heap := T.After(s.heap, h));
    T.StepOk(s.heap, h);
    T.MutationKeeps(s.heap, h);
    T.UnitsKept(s.heap, h);
    MutateControl(s, h);
    HeapTokens(s, s');
    PartsFrame(s, s');
  }

  lemma AddPageOk(s: State, p: nat, us: set<Unit>)
    requires Inv(s) && CanAddPage(s, p, us)
    ensures Inv(DoAddPage(s, p, us))
  {
    T.NewPageOk(s.heap, us);
    AddPageControl(s, p, us);
    AddPageTokens(s, p, us);
    AddPageParts(s, p, us);
    AddPagePages(s, p, us);
  }

  lemma AddPageTokens(s: State, p: nat, us: set<Unit>)
    requires Tokens(s) && CanAddPage(s, p, us)
    ensures Tokens(DoAddPage(s, p, us))
  {
    T.MutationKeeps(s.heap, T.NewPage(us));
    HeapTokens(s, DoAddPage(s, p, us));
  }

  lemma AddPagePages(s: State, p: nat, us: set<Unit>)
    requires PagesOk(s) && CanAddPage(s, p, us)
    ensures PagesOk(DoAddPage(s, p, us))
  {
    H.AddOk(s.pg, s.heap.heads.Keys, p, us);
    assert DoAddPage(s, p, us).heap.heads.Keys == s.heap.heads.Keys + us;
  }

  lemma StepOk(s: State, step: Step)
    requires Inv(s) && Enabled(s, step)
    ensures Inv(After(s, step))
  {
    match step {
      case Main(m) => MainOk(s, m);
      case External(t, e) => ThreadStepOk(s, t, e);
      case Lists(w, l) => ListOk(s, w, l);
      case Work(w, k) => WorkOk(s, w, k);
      case Mutate(h) => MutateOk(s, h);
      case AddPage(p, us) => AddPageOk(s, p, us);
    }
  }

  // ---- runs ---------------------------------------------------------------------------

  ghost predicate Next(s: State, s': State) {
    exists step :: Enabled(s, step) && s' == After(s, step)
  }

  // The run takes a step at i.
  ghost predicate StepAt(run: seq<State>, i: nat) {
    i + 1 < |run| && Next(run[i], run[i + 1])
  }

  ghost predicate IsRun(workers: nat, threads: nat, run: seq<State>) {
    && |run| > 0 && run[0] == Init(workers, threads)
    && forall i :: 0 <= i < |run| - 1 ==> StepAt(run, i)
  }

  lemma InitOk(workers: nat, threads: nat)
    ensures Inv(Init(workers, threads))
  {
    var s := Init(workers, threads);
    T.InitOk();
    B.InitOk(workers);
    H.InitOk(workers);
    forall w | 0 <= w < |s.workers|
      ensures WorkerOk(s, w)
    {
      assert s.bar.workers[w] == B.Worker(0, false);
    }
  }

  lemma {:induction false} RunOk(workers: nat, threads: nat, run: seq<State>, i: nat)
    requires IsRun(workers, threads, run) && i < |run|
    ensures Inv(run[i])
  {
    if i == 0 {
      InitOk(workers, threads);
    } else {
      RunOk(workers, threads, run, i - 1);
      assert StepAt(run, i - 1);
      NextOk(run[i - 1], run[i]);
    }
  }

  lemma NextOk(s: State, s': State)
    requires Inv(s) && Next(s, s')
    ensures Inv(s')
  {
    var step :| Enabled(s, step) && s' == After(s, step);
    StepOk(s, step);
  }

  // ---- theorems -------------------------------------------------------------------------

  // In every run, every gray unit is in exactly one place, once.
  lemma GrayExactlyOnce(workers: nat, threads: nat, run: seq<State>, i: nat, u: Unit)
    requires IsRun(workers, threads, run) && i < |run|
    ensures Gray(run[i], u) <==> exists l :: Holds(run[i], l, u)
    ensures forall l, l' :: Holds(run[i], l, u) && Holds(run[i], l', u) ==> l == l'
    ensures NoRepeatsAnywhere(run[i])
  {
    RunOk(workers, threads, run, i);
  }

  // A thread one step away from storing into a worker's local list.
  predicate AboutToPush(s: State, t: nat) {
    t < |s.threads| && (s.threads[t].Cleared? || s.threads[t].RootHand?)
  }

  // In every run, no external thread stores into a local list while its worker
  // is using it without the lock.
  lemma DrainHandshake(workers: nat, threads: nat, run: seq<State>, i: nat, t: nat)
    requires IsRun(workers, threads, run) && i < |run| && AboutToPush(run[i], t)
    ensures run[i].threads[t].w < |run[i].workers| && !InUse(run[i].workers[run[i].threads[t].w].pc)
  {
    RunOk(workers, threads, run, i);
    var s := run[i];
    assert ThreadOk(s, t);
    assert WorkerOk(s, s.threads[t].w);
    assert B.WorkerOk(s.bar, s.threads[t].w);
  }

  // A unit leaves a local list only to be scanned.
  lemma LeavesLocalToBeScanned(s: State, step: Step, w: nat, u: Unit)
    requires Enabled(s, step) && w < |s.workers| && u in s.workers[w].local
    ensures w < |After(s, step).workers|
    ensures u in After(s, step).workers[w].local || After(s, step).workers[w].pc == Scan(u)
  {
    var s' := After(s, step);
    if step.Lists? && step.w == w && step.l.Pop? {
      var k := s.workers[w];
      assert k.local == k.local[..|k.local| - 1] + [k.local[|k.local| - 1]];
    }
  }

  // From one state to the next, u stays on the local list of w or is taken up.
  ghost predicate Carried(s: State, s': State, w: nat, u: Unit) {
    w < |s.workers| && u in s.workers[w].local ==>
      w < |s'.workers| && (u in s'.workers[w].local || s'.workers[w].pc == Scan(u))
  }

  lemma NextCarries(s: State, s': State, w: nat, u: Unit)
    requires Next(s, s')
    ensures Carried(s, s', w, u)
  {
    if w < |s.workers| && u in s.workers[w].local {
      var step :| Enabled(s, step) && s' == After(s, step);
      LeavesLocalToBeScanned(s, step, w, u);
    }
  }

  lemma {:induction false} CarriedToScan(run: seq<State>, i: nat, j: nat, w: nat, u: Unit) returns (k: nat)
    requires i <= j < |run| && forall x :: i <= x < j ==> Carried(run[x], run[x + 1], w, u)
    requires w < |run[i].workers| && u in run[i].workers[w].local
    requires w < |run[j].workers| && run[j].workers[w].local == []
    ensures i < k <= j && w < |run[k].workers| && run[k].workers[w].pc == Scan(u)
    decreases j - i
  {
    assert Carried(run[i], run[i + 1], w, u);
    if run[i + 1].workers[w].pc == Scan(u) {
      k := i + 1;
    } else {
      k := CarriedToScan(run, i + 1, j, w, u);
    }
  }

  // A unit on a local list when its worker leaves the mark loop has been
  // scanned in between; so a unit pushed directly is dealt with by the next
  // call of process_gray_units.
  lemma PushedIsScanned(workers: nat, threads: nat, run: seq<State>, i: nat, j: nat, w: nat, u: Unit) returns (k: nat)
    requires IsRun(workers, threads, run) && i <= j < |run|
    requires w < |run[i].workers| && u in run[i].workers[w].local
    requires ListEnabled(run[j], w, Quit)
    ensures i < k <= j && w < |run[k].workers| && run[k].workers[w].pc == Scan(u)
  {
    forall x | i <= x < j
      ensures Carried(run[x], run[x + 1], w, u)
    {
      assert StepAt(run, x);
      NextCarries(run[x], run[x + 1], w, u);
    }
    k := CarriedToScan(run, i, j, w, u);
  }

  // In every run, no unit reachable from the roots of the round through the
  // heap as it is now is ever released.
  lemma ReachableSurvives(workers: nat, threads: nat, run: seq<State>, i: nat, w: nat, p: seq<Unit>)
    requires IsRun(workers, threads, run) && i < |run|
    requires T.IsLivePath(run[i].heap, p) && WorkEnabled(run[i], w, Visit(p[|p| - 1]))
    ensures !T.Dropped(run[i].heap.heads[p[|p| - 1]], run[i].heap.round)
  {
    RunOk(workers, threads, run, i);
    T.ReachableIsNeverDropped(run[i].heap, p);
  }

  // The step of the heap that a step of the collector is, if it is one.
  function HeapSteps(s: State, step: Step): seq<T.Step> {
    match step
    case Main(Begin(roots)) => [T.BeginRound(roots)]
    case Main(LaunchSweep) => [T.EndMark]
    case Main(Close) => [T.EndRound]
    case External(t, RootMark(u, w)) => if T.CanShade(s.heap, u) then [T.Shade(u)] else []
    case External(t, MarkCas(u, w)) => [T.Shade(u)]
    case Work(w, Read) => if w < |s.workers| && s.workers[w].pc.Scan? then [T.ReadWord(s.workers[w].pc.u)] else []
    case Work(w, Blacken) => if w < |s.workers| && s.workers[w].pc.Scan? then [T.Blacken(s.workers[w].pc.u)] else []
    case Work(w, Visit(u)) => [T.Visit(u)]
    case Work(w, EndPage(false)) => if AtPage(s, w) then [T.GiveBack(PageUnits(s, w))] else []
    case Mutate(h) => [h]
    case AddPage(p, us) => [T.NewPage(us)]
    case _ => []
  }

  // The collector does to the heap only what the heap's own steps do.
  ghost predicate Refines(s: State, step: Step)
    requires Enabled(s, step)
  {
    var hs := HeapSteps(s, step);
    if hs == [] then After(s, step).heap == s.heap
    else T.Enabled(s.heap, hs[0]) && After(s, step).heap == T.After(s.heap, hs[0])
  }

  lemma MainRefines(s: State, m: MainStep)
    requires Inv(s) && MainEnabled(s, m)
    ensures Refines(s, Main(m))
  {
    match m {
      case LaunchSweep => NothingGrayBeforeSweep(s);
      case Close => NothingLeftToSweep(s);
      case _ =>
    }
  }

  lemma WorkStepRefines(s: State, w: nat, k: WorkStep)
    requires WorkEnabled(s, w, k)
    requires k.Read? || k.Blacken? ==> s.heap.stage.Marking? && Gray(s, s.workers[w].pc.u)
    requires k.Visit? ==> T.CanVisit(s.heap, k.u)
    requires k.EndPage? && !k.keep ==> T.CanGiveBack(s.heap, PageUnits(s, w))
    ensures Refines(s, Work(w, k))
  {
  }

  lemma WorkRefines(s: State, w: nat, k: WorkStep)
    requires Inv(s) && WorkEnabled(s, w, k)
    ensures Refines(s, Work(w, k))
  {
    match k {
      case Read => ScannedIsGray(s, w);
      case Blacken => ScannedIsGray(s, w);
      case Visit(u) => VisitIsDue(s, w, u);
      case EndPage(keep) =>
        assert WorkerOk(s, w);
        if !keep {
          EmptyPageLeaves(s, w);
        }
      case _ =>
    }
    WorkStepRefines(s, w, k);
  }

  lemma VisitIsDue(s: State, w: nat, u: Unit)
    requires Control(s) && PartsOk(s) && WorkEnabled(s, w, Visit(u))
    ensures T.CanVisit(s.heap, u)
  {
    assert WorkerOk(s, w);
  }

  lemma StepRefines(s: State, step: Step)
    requires Inv(s) && Enabled(s, step)
    ensures Refines(s, step)
  {
    match step {
      case Main(m) => MainRefines(s, m);
      case Work(w, k) => WorkRefines(s, w, k);
      case _ =>
    }
  }

  // ---- nobody is stuck --------------------------------------------------------------------

  // Whoever holds a worker's lock is a thread inside its critical section.
  ghost predicate LocksOk(s: State) {
    forall w :: 0 <= w < |s.workers| && s.workers[w].holder != -1 ==> HolderOk(s, w)
  }

  ghost predicate HolderOk(s: State, w: nat)
    requires w < |s.workers|
  {
    var t := s.workers[w].holder;
    0 <= t < |s.threads| && (s.threads[t].Locked? || s.threads[t].Cleared?) && s.threads[t].w == w
  }

  lemma LocksNext(s: State, step: Step)
    requires LocksOk(s) && Enabled(s, step)
    ensures LocksOk(After(s, step))
  {
    var s' := After(s, step);
    forall w | 0 <= w < |s'.workers| && s'.workers[w].holder != -1
      ensures HolderOk(s', w)
    {
      assert s.workers[w].holder != -1 ==> HolderOk(s, w);
    }
  }

  lemma {:induction false} LocksInRuns(workers: nat, threads: nat, run: seq<State>, i: nat)
    requires IsRun(workers, threads, run) && i < |run|
    ensures LocksOk(run[i])
  {
    if i > 0 {
      LocksInRuns(workers, threads, run, i - 1);
      assert StepAt(run, i - 1);
      var step :| Enabled(run[i - 1], step) && run[i] == After(run[i - 1], step);
      LocksNext(run[i - 1], step);
    }
  }

  // A worker inside a mark phase has a next step, unless it waits for its lock.
  lemma MarkerNeverStuck(s: State, w: nat) returns (step: Step)
    requires Inv(s) && w < |s.workers| && MarkRun(s, w)
    requires s.workers[w].pc.Entering? ==> s.workers[w].holder == -1
    ensures Enabled(s, step) && ((step.Lists? && step.w == w) || (step.Work? && step.w == w))
  {
    assert WorkerOk(s, w);
    match s.workers[w].pc {
      case Entering => step := Lists(w, Enter);
      case Top => step := Lists(w, LoopTop);
      case Fill(n) => step := Lists(w, if ListEnabled(s, w, TakeOne) then TakeOne else FillStop);
      case Bottom => step := Lists(w, if s.workers[w].local == [] then Quit else Pop);
      case Push(u, v) => step := Lists(w, PushChild);
      case Scan(u) =>
        ScannedIsGray(s, w);
        assert T.UnitOk(s.heap, u);
        step := Work(w, if |T.Scanned(s.heap, u)| < |s.heap.words[u]| then Read else Blacken);
      case _ => step := Work(w, Finish);
    }
  }

  // A worker inside the sweep has a next step.
  lemma SweeperNeverStuck(s: State, w: nat) returns (step: Step)
    requires Inv(s) && w < |s.workers| && s.bar.workers[w].running && s.bar.launch == B.Sweep
    ensures Enabled(s, step) && step.Work? && step.w == w
  {
    assert WorkerOk(s, w);
    if s.pg.lists[w] == [] {
      step := Work(w, Finish);
    } else {
      H.OneList(s.pg, s.heap.heads.Keys, w, w, s.pg.lists[w][0]);
      if PageUnits(s, w) !! s.workers[w].part {
        step := Work(w, EndPage(true));
      } else {
        var u :| u in PageUnits(s, w) && u in s.workers[w].part;
        assert u in s.heap.todo;
        step := Work(w, Visit(u));
      }
    }
  }

  // The main thread goes on when what it waits for is there.
  lemma MainGoesOn(s: State)
    requires Inv(s)
    ensures s.heap.stage.Resting? ==> forall roots :: MainEnabled(s, Begin(roots))
    ensures s.bar.waiting && s.bar.finished == |s.workers| ==> MainEnabled(s, Resume)
    ensures Rooting(s) && s.rootsTodo == {} && (forall t :: 0 <= t < |s.threads| ==> !s.threads[t].RootHand?) ==>
              MainEnabled(s, LaunchParallelMark)
    ensures s.heap.stage.Marking? && s.bar.launched % 3 == 1 && !s.bar.waiting &&
            (forall t :: 0 <= t < |s.threads| ==> s.threads[t].Idle?) ==>
              MainEnabled(s, LaunchFinalMark)
    ensures s.heap.stage.Marking? && s.bar.launched % 3 == 2 && !s.bar.waiting && |s.workers| > 0 &&
            (s.pg.list != [] || !s.pg.handed) ==>
              MainEnabled(s, LaunchSweep)
    ensures s.heap.stage.Sweeping? && !s.bar.waiting ==> MainEnabled(s, Close)
  {
  }

  // A worker whose phase has been launched can start it.
  lemma WorkerStarts(s: State, w: nat)
    requires Inv(s) && w < |s.workers| && s.bar.waiting
    requires !s.bar.workers[w].running && s.bar.workers[w].runs != s.bar.launched
    ensures WorkEnabled(s, w, Start)
  {
    assert B.WorkerOk(s.bar, w);
  }

  // A mark call on an unmarked unit, from the beginning of the round until marking
  // stops, makes it gray and puts it in the caller's hand; a root mark on any other
  // unit only crosses it off.
  lemma MarkMakesGray(s: State, t: nat, u: Unit, w: nat)
    requires Inv(s) && t < |s.threads| && s.threads[t].Idle? && w < |s.workers|
    ensures MarkingOpen(s) && T.CanShade(s.heap, u) ==>
              && ThreadEnabled(s, t, MarkCas(u, w))
              && Gray(AfterThread(s, t, MarkCas(u, w)), u)
              && AfterThread(s, t, MarkCas(u, w)).threads[t] == Hand(w, u)
    ensures Rooting(s) ==>
              && ThreadEnabled(s, t, RootMark(u, w))
              && var s' := AfterThread(s, t, RootMark(u, w));
              && s'.rootsTodo == s.rootsTodo - {u}
              && (T.CanShade(s.heap, u) ==> Gray(s', u) && s'.threads[t] == RootHand(w, u))
              && (!T.CanShade(s.heap, u) ==> s'.heap == s.heap && s'.threads == s.threads)
  {
  }

  // A mark call returns once the unit is published or on the local list.
  lemma MarkCallEnds(s: State, t: nat)
    requires Inv(s) && t < |s.threads| && !s.threads[t].Idle?
    ensures var w, u := s.threads[t].w, s.threads[t].u;
            && (ThreadEnabled(s, t, Publish) ==> AfterThread(s, t, Publish).threads[t].Idle?)
            && (ThreadEnabled(s, t, PushDirect) ==>
                  && AfterThread(s, t, PushDirect).threads[t].Idle?
                  && u in AfterThread(s, t, PushDirect).workers[w].local)
            && (ThreadEnabled(s, t, RootPush) ==>
                  && AfterThread(s, t, RootPush).threads[t].Idle?
                  && u in AfterThread(s, t, RootPush).workers[w].local)
            && (ThreadEnabled(s, t, Enqueue) ==>
                  && AfterThread(s, t, Enqueue).threads[t] == Claimed(w, u)
                  && u in AfterThread(s, t, Enqueue).workers[w].queue)
  {
    assert ThreadOk(s, t);
  }

  // The drain of a worker takes the oldest unit of its queue exactly when there is
  // one, its producer has published it, and the buffer has room.
  lemma DrainTakesPublished(s: State, w: nat)
    requires Inv(s) && w < |s.workers| && s.workers[w].pc.Fill?
    ensures var k := s.workers[w];
            ListEnabled(s, w, TakeOne) <==>
              && k.queue != [] && k.pc.n < 8192
              && forall t :: 0 <= t < |s.threads| ==> s.threads[t] != Claimed(w, k.queue[0])
    ensures ListEnabled(s, w, FillStop) <==> !ListEnabled(s, w, TakeOne)
    ensures |s.workers[w].queue| <= 8192
  {
    assert WorkerOk(s, w);
  }

  // In every run, a thread inside a mark call never waits for nothing: it, the
  // thread that has the lock it needs, or the worker that is draining the full
  // queue can go on. This is what the direct push is for: without it a thread
  // would wait for a worker that has not started.
  lemma MarkCallNeverDeadlocks(workers: nat, threads: nat, run: seq<State>, i: nat, t: nat) returns (step: Step)
    requires IsRun(workers, threads, run) && i < |run| && t < |run[i].threads| && !run[i].threads[t].Idle?
    ensures Enabled(run[i], step) && (step.External? || step.Lists? || step.Work?)
  {
    RunOk(workers, threads, run, i);
    LocksInRuns(workers, threads, run, i);
    step := ThreadOrOther(run[i], t);
  }

  lemma ThreadOrOther(s: State, t: nat) returns (step: Step)
    requires Inv(s) && LocksOk(s) && t < |s.threads| && !s.threads[t].Idle?
    ensures Enabled(s, step) && (step.External? || step.Lists? || step.Work?)
  {
    assert ThreadOk(s, t);
    var w := s.threads[t].w;
    if s.threads[t].Claimed? {
      step := External(t, Publish);
    } else if s.threads[t].Locked? {
      step := External(t, Recheck);
    } else if s.threads[t].Cleared? {
      step := External(t, PushDirect);
    } else if s.threads[t].Hand? {
      step := External(t, if |s.workers[w].queue| < QUEUE_CAPACITY then Enqueue else SeeIdle);
      if !Enabled(s, step) {
        assert WorkerOk(s, w);
        step := MarkerNeverStuck(s, w);
      }
    } else if s.workers[w].holder == -1 {
      step := External(t, if s.threads[t].SawIdle? then Lock else RootPush);
    } else {
      assert HolderOk(s, w);
      var h := s.workers[w].holder;
      step := External(h, if s.threads[h].Locked? then Recheck else PushDirect);
    }
  }

  // ---- what units are completed with, and the roots of a round --------------------------

  // u is alive in this state, with the given attribute.
  predicate AliveWith(s: State, u: Unit, needSweep: bool) {
    u in s.heap.heads && T.Live(s.heap.heads[u]) && s.heap.heads[u].needSweep == needSweep
  }

  lemma AliveStep(s: State, step: Step, u: Unit, needSweep: bool)
    requires T.ShapeOk(s.heap) && Enabled(s, step) && Refines(s, step) && AliveWith(After(s, step), u, needSweep)
    ensures AliveWith(s, u, needSweep) ||
            (step.Mutate? && step.h.AllocEnd? && step.h.u == u && step.h.needSweep == needSweep)
  {
    var hs := HeapSteps(s, step);
    if hs != [] {
      T.ComesAlive(s.heap, hs[0], u);
      if u in s.heap.heads && T.Live(s.heap.heads[u]) {
        T.LiveUnitKept(s.heap, hs[0], u);
      }
    }
  }

  // Alive after a step means alive before it, or completed by it.
  ghost predicate AliveLink(s: State, s': State, u: Unit, needSweep: bool) {
    AliveWith(s', u, needSweep) ==> AliveWith(s, u, needSweep) || CompletesWith(s, s', u, needSweep)
  }

  lemma AliveNext(s: State, s': State, u: Unit, needSweep: bool)
    requires Inv(s) && Next(s, s')
    ensures AliveLink(s, s', u, needSweep)
  {
    var step :| Enabled(s, step) && s' == After(s, step);
    if AliveWith(s', u, needSweep) {
      StepRefines(s, step);
      AliveStep(s, step, u, needSweep);
      if !AliveWith(s, u, needSweep) {
        assert step == Mutate(T.AllocEnd(u, step.h.init, step.h.own, needSweep));
        assert CompletesAs(s, s', u, step.h.init, step.h.own, needSweep);
      }
    }
  }

  lemma {:induction false} AliveSince(run: seq<State>, k: nat, u: Unit, needSweep: bool) returns (a: nat)
    requires k < |run| && AliveWith(run[k], u, needSweep) && !AliveWith(run[0], u, needSweep)
    requires forall x :: 0 <= x < k ==> AliveLink(run[x], run[x + 1], u, needSweep)
    ensures a < k && CompletesWith(run[a], run[a + 1], u, needSweep)
    ensures forall j :: a < j <= k ==> AliveWith(run[j], u, needSweep)
  {
    assert AliveLink(run[k - 1], run[k - 1 + 1], u, needSweep);
    if AliveWith(run[k - 1], u, needSweep) {
      a := AliveSince(run, k - 1, u, needSweep);
    } else {
      a := k - 1;
    }
  }

  // Between two states u is completed, with the given attribute.
  ghost predicate CompletesWith(s: State, s': State, u: Unit, needSweep: bool) {
    exists init, own :: CompletesAs(s, s', u, init, own, needSweep)
  }

  ghost predicate CompletesAs(s: State, s': State, u: Unit, init: seq<Unit>, own: set<nat>, needSweep: bool) {
    && Enabled(s, Mutate(T.AllocEnd(u, init, own, needSweep)))
    && s' == After(s, Mutate(T.AllocEnd(u, init, own, needSweep)))
  }

  // In every run, a unit that is alive was completed with the attribute it has,
  // and has been alive with it ever since.
  lemma CompletedAt(workers: nat, threads: nat, run: seq<State>, k: nat, u: Unit) returns (a: nat)
    requires IsRun(workers, threads, run) && k < |run| && u in run[k].heap.heads && T.Live(run[k].heap.heads[u])
    ensures a < k && CompletesWith(run[a], run[a + 1], u, run[k].heap.heads[u].needSweep)
    ensures forall j :: a < j <= k ==> AliveWith(run[j], u, run[k].heap.heads[u].needSweep)
  {
    var n := run[k].heap.heads[u].needSweep;
    forall x | 0 <= x < k
      ensures AliveLink(run[x], run[x + 1], u, n)
    {
      RunOk(workers, threads, run, x);
      assert StepAt(run, x);
      AliveNext(run[x], run[x + 1], u, n);
    }
    a := AliveSince(run, k, u, n);
  }

  ghost predicate UnsweptLink(s: State, s': State, u: Unit) {
    AliveWith(s, u, false) ==> AliveWith(s', u, false)
  }

  lemma UnsweptNext(s: State, s': State, u: Unit)
    requires Inv(s) && Next(s, s')
    ensures UnsweptLink(s, s', u)
  {
    var step :| Enabled(s, step) && s' == After(s, step);
    StepRefines(s, step);
    UnsweptStep(s, step, u);
  }

  lemma UnsweptStep(s: State, step: Step, u: Unit)
    requires Enabled(s, step) && Refines(s, step)
    ensures UnsweptLink(s, After(s, step), u)
  {
    var hs := HeapSteps(s, step);
    if hs != [] && AliveWith(s, u, false) {
      T.UnsweptStays(s.heap, hs[0], u);
    }
  }

  lemma {:induction false} UnsweptUpTo(run: seq<State>, a: nat, i: nat, u: Unit)
    requires a <= i < |run| && AliveWith(run[a], u, false)
    requires forall x :: a <= x < i ==> UnsweptLink(run[x], run[x + 1], u)
    ensures AliveWith(run[i], u, false)
  {
    if a < i {
      UnsweptUpTo(run, a, i - 1, u);
      assert UnsweptLink(run[i - 1], run[i - 1 + 1], u);
    }
  }

  // In every run, a unit completed without NEED_SWEEP stays alive for good.
  lemma UnsweptLives(workers: nat, threads: nat, run: seq<State>, a: nat, i: nat, u: Unit, init: seq<Unit>,
                     own: set<nat>)
    requires IsRun(workers, threads, run) && a < i < |run| && CompletesAs(run[a], run[a + 1], u, init, own, false)
    ensures AliveWith(run[i], u, false)
  {
    T.CompletionIsRecorded(run[a].heap, u, init, own, false);
    forall x | a + 1 <= x < i
      ensures UnsweptLink(run[x], run[x + 1], u)
    {
      RunOk(workers, threads, run, x);
      assert StepAt(run, x);
      UnsweptNext(run[x], run[x + 1], u);
    }
    UnsweptUpTo(run, a + 1, i, u);
  }

  // The round of h began on heap h0 with the given roots.
  ghost predicate RoundOn(h0: T.State, roots: set<Unit>, h: T.State) {
    && h.round == h0.round + 1 && h.cycle.roots == roots
    && (forall u :: u in h.cycle.elder <==> u in h0.heads && h0.heads[u].life.Unmarked?)
    && (forall u :: u in h.cycle.sweepable <==> u in h.cycle.elder && h0.heads[u].needSweep)
    && (forall u :: u in h.cycle.elder && u in h0.words ==> u in h.cycle.snap && h.cycle.snap[u] == h0.words[u])
  }

  // The step that began the round of state i.
  ghost predicate BeganAt(run: seq<State>, b: nat, i: nat, roots: set<Unit>) {
    && b < i < |run|
    && Enabled(run[b], Main(Begin(roots))) && run[b + 1] == After(run[b], Main(Begin(roots)))
    && RoundOn(run[b].heap, roots, run[i].heap)
  }

  lemma BeginSetsRound(s: State, roots: set<Unit>)
    requires Enabled(s, Main(Begin(roots)))
    ensures RoundOn(s.heap, roots, After(s, Main(Begin(roots))).heap)
    ensures After(s, Main(Begin(roots))).rootsTodo == roots
  {
  }

  // A step keeps the round, or begins the next one.
  ghost predicate RoundLink(s: State, s': State) {
    (s'.heap.round == s.heap.round && s'.heap.cycle == s.heap.cycle) || s'.heap.round == s.heap.round + 1
  }

  lemma RoundNext(s: State, s': State)
    requires Control(s) && Next(s, s')
    ensures RoundLink(s, s')
  {
    var begins, roots := BeginsOrKeeps(s, s');
    if begins {
      BeginSetsRound(s, roots);
    }
  }

  lemma {:induction false} RoundsUpTo(run: seq<State>, b: nat, i: nat)
    requires b <= i < |run| && forall x :: b <= x < i ==> RoundLink(run[x], run[x + 1])
    ensures run[b].heap.round <= run[i].heap.round
    ensures run[i].heap.round == run[b].heap.round ==> run[i].heap.cycle == run[b].heap.cycle
  {
    if b < i {
      RoundsUpTo(run, b, i - 1);
      assert RoundLink(run[i - 1], run[i - 1 + 1]);
    }
  }

  lemma RoundsGrow(workers: nat, threads: nat, run: seq<State>, b: nat, i: nat)
    requires IsRun(workers, threads, run) && b <= i < |run|
    ensures run[b].heap.round <= run[i].heap.round
    ensures run[i].heap.round == run[b].heap.round ==> run[i].heap.cycle == run[b].heap.cycle
  {
    forall x | b <= x < i
      ensures RoundLink(run[x], run[x + 1])
    {
      RunOk(workers, threads, run, x);
      assert StepAt(run, x);
      RoundNext(run[x], run[x + 1]);
    }
    RoundsUpTo(run, b, i);
  }

  // Units a path of words leads to from the roots, through complete units.
  ghost predicate IsHeapPath(h: T.State, roots: set<Unit>, p: seq<Unit>) {
    && |p| > 0 && p[0] in roots
    && (forall k :: 0 <= k < |p| ==> p[k] in h.heads && p[k] in h.words && h.heads[p[k]].life.Unmarked?)
    && (forall k :: 0 <= k < |p| - 1 ==> p[k + 1] in h.words[p[k]])
  }

  // In every run, a round works with the roots it was given: neither they nor
  // anything reachable from them, in the heap the round began on, is among what
  // it releases.
  lemma GivenRootsSurvive(workers: nat, threads: nat, run: seq<State>, b: nat, i: nat, roots: set<Unit>, p: seq<Unit>)
    requires IsRun(workers, threads, run) && b < i < |run| && run[i].heap.round == run[b].heap.round + 1
    requires Enabled(run[b], Main(Begin(roots))) && run[b + 1] == After(run[b], Main(Begin(roots)))
    ensures run[i].heap.cycle.roots == roots && BeganAt(run, b, i, roots)
    ensures IsHeapPath(run[b].heap, roots, p) ==> p[|p| - 1] !in run[i].heap.freed
  {
    BeginSetsRound(run[b], roots);
    RoundsGrow(workers, threads, run, b + 1, i);
    RunOk(workers, threads, run, i);
    if IsHeapPath(run[b].heap, roots, p) {
      var c := run[i].heap.cycle;
      forall k | 0 <= k < |p| - 1
        ensures p[k] in c.snap && p[k + 1] in c.snap[p[k]]
      {
        assert p[k] in c.elder;
      }
      assert T.IsPath(c, run[i].heap.seeds, p);
      assert T.Reach(c, run[i].heap.seeds, p[|p| - 1]);
    }
  }

  lemma CycleKept(s: State, step: Step)
    requires Control(s) && Enabled(s, step)
    requires !(step.Main? && step.m.Begin?)
    ensures After(s, step).heap.cycle == s.heap.cycle && After(s, step).heap.round == s.heap.round
    ensures !After(s, step).heap.stage.Resting? ==> !s.heap.stage.Resting?
  {
    match step {
      case Main(m) => MainKeepsCycle(s, m);
      case Work(w, k) => WorkKeepsCycle(s, w, k);
      case Mutate(h) => T.MutationKeeps(s.heap, h);
      case _ =>
    }
  }

  lemma MainKeepsCycle(s: State, m: MainStep)
    requires Control(s) && MainEnabled(s, m) && !m.Begin?
    ensures var s' := AfterMain(s, m);
            && s'.heap.cycle == s.heap.cycle && s'.heap.round == s.heap.round
            && (!s'.heap.stage.Resting? ==> !s.heap.stage.Resting?)
  {
  }

  lemma WorkKeepsCycle(s: State, w: nat, k: WorkStep)
    requires WorkEnabled(s, w, k)
    ensures var s' := AfterWork(s, w, k);
            s'.heap.cycle == s.heap.cycle && s'.heap.round == s.heap.round && s'.heap.stage == s.heap.stage
  {
  }

  lemma {:induction false} EveryRoundBegan(workers: nat, threads: nat, run: seq<State>, i: nat)
    returns (b: nat, roots: set<Unit>)
    requires IsRun(workers, threads, run) && i < |run| && !run[i].heap.stage.Resting?
    ensures BeganAt(run, b, i, roots)
  {
    assert i > 0;
    RunOk(workers, threads, run, i - 1);
    assert StepAt(run, i - 1);
    var begins;
    begins, roots := BeginsOrKeeps(run[i - 1], run[i]);
    if begins {
      b := i - 1;
      BeginSetsRound(run[b], roots);
    } else {
      b, roots := EveryRoundBegan(workers, threads, run, i - 1);
    }
  }

  // A step begins a round, or leaves the data of the round alone.
  lemma BeginsOrKeeps(s: State, s': State) returns (begins: bool, roots: set<Unit>)
    requires Control(s) && Next(s, s')
    ensures begins ==> Enabled(s, Main(Begin(roots))) && s' == After(s, Main(Begin(roots)))
    ensures !begins ==>
              && s'.heap.cycle == s.heap.cycle && s'.heap.round == s.heap.round
              && (!s'.heap.stage.Resting? ==> !s.heap.stage.Resting?)
  {
    var step :| Enabled(s, step) && s' == After(s, step);
    begins, roots := step.Main? && step.m.Begin?, {};
    if begins {
      roots := step.m.roots;
    } else {
      CycleKept(s, step);
    }
  }

  // In every run, each page of the heap is on the page list or on one worker's
  // list, once, and nothing else is; the pages hold all units and share none.
  lemma PagesAreConserved(workers: nat, threads: nat, run: seq<State>, i: nat, p: nat)
    requires IsRun(workers, threads, run) && i < |run|
    ensures H.Times(run[i].pg.list, p) + H.TimesOnAll(run[i].pg.lists, p) == if p in run[i].pg.units then 1 else 0
    ensures forall u :: u in run[i].heap.heads <==> exists q :: q in run[i].pg.units && u in run[i].pg.units[q]
  {
    RunOk(workers, threads, run, i);
  }

  // In every run, the list taken for the sweep holds every page once, and its
  // segments give every unit of the heap to exactly one worker.
  lemma SweepGetsEveryUnit(workers: nat, threads: nat, run: seq<State>, i: nat)
    requires IsRun(workers, threads, run) && i < |run| && MainEnabled(run[i], LaunchSweep)
    ensures forall p :: p in run[i].pg.list <==> p in run[i].pg.units
    ensures SweepShares.Partition(H.Parts(H.Deal(run[i].pg)), run[i].heap.heads.Keys)
  {
    RunOk(workers, threads, run, i);
    ListsEmpty(run[i]);
    H.ListHoldsEveryPage(run[i].pg, run[i].heap.heads.Keys);
    H.DealIsPartition(run[i].pg, run[i].heap.heads.Keys);
  }

  // Between two states the page list was cut for a sweep, with a page on it.
  ghost predicate Dealt(s: State, s': State) {
    MainEnabled(s, LaunchSweep) && s' == AfterMain(s, LaunchSweep) && s.pg.list != []
  }

  ghost predicate HandedStep(s: State, s': State) {
    s'.pg.handed <==> s.pg.handed || Dealt(s, s')
  }

  // Only cutting a nonempty page list hands anything out.
  lemma StepHands(s: State, step: Step)
    requires Enabled(s, step)
    ensures After(s, step).pg.handed <==> s.pg.handed || (step == Main(LaunchSweep) && s.pg.list != [])
  {
  }

  lemma DealtStep(s: State, s': State)
    requires Next(s, s')
    ensures HandedStep(s, s')
  {
    var step :| Enabled(s, step) && s' == After(s, step);
    StepHands(s, step);
    if Dealt(s, s') {
      StepHands(s, Main(LaunchSweep));
    }
  }

  lemma {:induction false} HandedUpTo(run: seq<State>, i: nat)
    requires i < |run| && !run[0].pg.handed && forall x :: 0 <= x < i ==> HandedStep(run[x], run[x + 1])
    ensures run[i].pg.handed <==> exists k :: 0 <= k < i && Dealt(run[k], run[k + 1])
  {
    if i > 0 {
      HandedUpTo(run, i - 1);
      assert HandedStep(run[i - 1], run[i - 1 + 1]);
    }
  }

  // `handed` says that an earlier round had a page. So the sweep is held up in
  // the model exactly where `PageList.RoundIsRight` says the code goes wrong.
  lemma HandedExactly(workers: nat, threads: nat, run: seq<State>, i: nat)
    requires IsRun(workers, threads, run) && i < |run|
    ensures run[i].pg.handed <==> exists k :: 0 <= k < i && Dealt(run[k], run[k + 1])
  {
    forall x | 0 <= x < i
      ensures HandedStep(run[x], run[x + 1])
    {
      assert StepAt(run, x);
      DealtStep(run[x], run[x + 1]);
    }
    HandedUpTo(run, i);
  }

  // When the list is empty between phases, there is no unit in the heap at all.
  lemma EmptyListMeansNoUnits(workers: nat, threads: nat, run: seq<State>, i: nat)
    requires IsRun(workers, threads, run) && i < |run| && !run[i].bar.waiting && run[i].pg.list == []
    ensures run[i].heap.heads == map[]
  {
    RunOk(workers, threads, run, i);
    ListsEmpty(run[i]);
    H.ListHoldsEveryUnit(run[i].pg, run[i].heap.heads.Keys);
    assert run[i].heap.heads.Keys == {};
  }

  // In every run, when a unit comes up in the sweep, the low byte of the round
  // number tells this round from all others as the number itself would.
  lemma RoundByteSuffices(workers: nat, threads: nat, run: seq<State>, i: nat, w: nat, u: Unit)
    requires IsRun(workers, threads, run) && i < |run|
    requires WorkEnabled(run[i], w, Visit(u)) && T.Live(run[i].heap.heads[u])
    ensures var h, round := run[i].heap.heads[u], run[i].heap.round;
            && (h.age == 15 ==> h.born == round || h.born + 1 == round)
            && (h.age == 15 && h.timing == round % 256 <==> h.born == round)
            && (h.born == round <==> u in run[i].heap.young)
  {
    RunOk(workers, threads, run, i);
    assert WorkerOk(run[i], w);
    T.WrapIsHarmless(run[i].heap, u);
  }

  // In every run, while marking goes on: a word read from a black unit and still
  // in place, or held by it when the round began, names no white unit.
  lemma BlackNamesNoWhite(workers: nat, threads: nat, run: seq<State>, i: nat, u: Unit, k: nat)
    requires IsRun(workers, threads, run) && i < |run| && run[i].heap.stage.Marking?
    requires u in run[i].heap.heads && run[i].heap.heads[u].life.FullMarked?
    requires u in run[i].heap.words && k < |run[i].heap.words[u]|
    ensures var h := run[i].heap;
            && |T.Scanned(h, u)| == |h.words[u]|
            && (h.words[u][k] == T.Scanned(h, u)[k] ==> T.NotWhite(h, h.words[u][k]))
            && (u in h.cycle.elder ==>
                  u in h.cycle.snap && |h.words[u]| == |h.cycle.snap[u]| && T.NotWhite(h, h.cycle.snap[u][k]))
  {
    RunOk(workers, threads, run, i);
    T.BlackSeesNoWhite(run[i].heap, u, k);
  }

  // In every run, once marking is over: no old unit was marked in vain if and
  // only if no word found in a unit completed during the round named garbage.
  lemma MarkedInVain(workers: nat, threads: nat, run: seq<State>, i: nat)
    requires IsRun(workers, threads, run) && i < |run| && MainEnabled(run[i], LaunchSweep)
    ensures T.MarkedAreReachable(run[i].heap) <==> T.NoStaleGarbage(run[i].heap)
  {
    RunOk(workers, threads, run, i);
    NothingGrayBeforeSweep(run[i]);
    T.MarksExactly(run[i].heap);
  }

  // The whole cycle, for every round of a run; a run ends for the main thread
  // when a sweep is due without a page after an earlier round had one
  // (`MainEnabled`, `HandedExactly`). When main closes a round, what the round
  // released is exactly this: units that were complete, unmarked and marked for
  // sweeping when it began, and that no path led to then, neither from its roots,
  // nor from a unit marked by a mutator during the round, nor from a word the
  // marking found in a unit completed during the round. Each was released once,
  // and no unit is left marked. The last kind of path matters only if such a word
  // was left over from before and named garbage.
  lemma WholeCycle(workers: nat, threads: nat, run: seq<State>, i: nat) returns (b: nat, roots: set<Unit>)
    requires IsRun(workers, threads, run) && i < |run| && MainEnabled(run[i], Close)
    ensures BeganAt(run, b, i, roots)
    ensures forall u :: u in run[i].heap.freed ==> exists a :: 0 <= a < b && CompletesWith(run[a], run[a + 1], u, true)
    ensures forall u :: u in run[i].heap.freed <==>
              && u in run[b].heap.heads && run[b].heap.heads[u].life.Unmarked? && run[b].heap.heads[u].needSweep
              && !T.Reach(run[i].heap.cycle, run[i].heap.seeds, u)
    ensures T.NoStaleGarbage(run[i].heap) ==>
              forall u :: T.Reach(run[i].heap.cycle, run[i].heap.seeds, u) <==>
                          T.Reach(run[i].heap.cycle, run[i].heap.marks, u)
    ensures forall x, y :: 0 <= x < y < |run[i].heap.freed| ==> run[i].heap.freed[x] != run[i].heap.freed[y]
    ensures forall u :: u in run[i].heap.heads ==>
              !run[i].heap.heads[u].life.SelfMarked? && !run[i].heap.heads[u].life.FullMarked?
  {
    RunOk(workers, threads, run, i);
    NothingLeftToSweep(run[i]);
    T.RoundIsExact(run[i].heap);
    T.AllReachIsSharp(run[i].heap);
    b, roots := EveryRoundBegan(workers, threads, run, i);
    forall u | u in run[i].heap.freed
      ensures exists a :: 0 <= a < b && CompletesWith(run[a], run[a + 1], u, true)
    {
      var a := CompletedAt(workers, threads, run, b, u);
      assert CompletesWith(run[a], run[a + 1], u, true);
    }
  }
}
