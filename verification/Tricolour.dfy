/**
 The collector seen from the heap: what happens to units, whoever does it.
 Each step is one atomic access of the mark, sweep or allocation code; any
 number of threads may take them in any order. `Collector` adds the threads.

 A unit is its address, so words held in memory are just numbers: a word that
 is no unit's address is data. Mutators may overwrite words while marking runs
 if the word they overwrite has been marked first, and store only words they
 hold; a heap nobody writes to is the special case of no such step. A cell is
 not cleared when it is handed out: words nobody stored hold anything, and are
 scanned all the same.
 */
module Tricolour {

  type Unit = nat

  datatype Life = Released | Pending | Unmarked | SelfMarked | FullMarked

  // `born` is the true number of the round the unit was completed in; the code
  // only has its low byte, `timing`.
  datatype Head = Head(life: Life, age: nat, timing: nat, needSweep: bool, born: nat)

  predicate Live(h: Head) {
    h.life.Unmarked? || h.life.SelfMarked? || h.life.FullMarked?
  }

  datatype Stage = Resting | Marking | Sweeping

  // What the heap looked like when the round began.
  datatype Cycle = Cycle(roots: set<Unit>, elder: set<Unit>, snap: map<Unit, seq<Unit>>, sweepable: set<Unit>)

  datatype State = State(
    heads: map<Unit, Head>,
    words: map<Unit, seq<Unit>>,
    round: nat,
    stage: Stage,
    todo: set<Unit>,               // units on pages not yet swept this round
    // history of the round, never read by the code
    cycle: Cycle,
    marks: set<Unit>,              // marked from outside: roots and mutator marks
    seeds: set<Unit>,              // the same, and words read from young units
    own: map<Unit, set<nat>>,      // which words of a unit a mutator has stored
    young: set<Unit>,              // completed since the round began
    scanned: map<Unit, seq<Unit>>, // words read so far while scanning
    freed: seq<Unit>)              // released by this round's sweep

  function Init(): State {
    State(map[], map[], 0, Resting, {}, Cycle({}, {}, map[], {}), {}, {}, map[], {}, map[], [])
  }

  function Scanned(s: State, u: Unit): seq<Unit> {
    if u in s.scanned then s.scanned[u] else []
  }

  // Words of a unit a mutator has stored; the others hold what the cell held before.
  function Own(s: State, u: Unit): set<nat> {
    if u in s.own then s.own[u] else {}
  }

  // allocate_end stamps a completed unit.
  function Completed(round: nat, needSweep: bool): Head {
    Head(Unmarked, 15, round % 256, needSweep, round)
  }

  // check_and_free_unmarked_unit: drop the unit?
  predicate Dropped(h: Head, round: nat) {
    h.life.Unmarked? && (h.age != 15 || h.timing != round % 256) && h.needSweep
  }

  // check_and_free_unmarked_unit: the head afterwards.
  function Swept(h: Head, round: nat): Head {
    if h.life.Released? || h.life.Pending? then h
    else if Dropped(h, round) then h.(life := Released)
    else h.(life := Unmarked, age := if h.age != 0 then h.age - 1 else 0)
  }

  // The compare-exchange of mark_unit_to_gray.
  function Shaded(heads: map<Unit, Head>, u: Unit): map<Unit, Head> {
    if u in heads && heads[u].life.Unmarked? then heads[u := heads[u].(life := SelfMarked)] else heads
  }

  datatype Step =
    | BeginRound(roots: set<Unit>)
    | Shade(u: Unit)
    | ReadWord(u: Unit)
    | Blacken(u: Unit)
    | EndMark
    | Visit(u: Unit)
    | EndRound
    | NewPage(us: set<Unit>)
    | GiveBack(us: set<Unit>)
    | AllocBegin(u: Unit)
    | AllocEnd(u: Unit, init: seq<Unit>, own: set<nat>, needSweep: bool)
    | Write(u: Unit, i: nat, v: Unit)

  // ---- reachability in the snapshot ----------------------------------------

  ghost predicate IsPath(c: Cycle, seeds: set<Unit>, p: seq<Unit>) {
    && |p| > 0
    && (p[0] in c.roots || p[0] in seeds)
    && (forall i :: 0 <= i < |p| ==> p[i] in c.elder)
    && (forall i :: 0 <= i < |p| - 1 ==> p[i] in c.snap && p[i + 1] in c.snap[p[i]])
  }

  // An old unit reachable, at the start of the round, from a root, from a unit
  // marked from outside during the round, or from a word the marking found in a
  // unit completed during the round.
  ghost predicate Reach(c: Cycle, seeds: set<Unit>, v: Unit) {
    exists p :: IsPath(c, seeds, p) && p[|p| - 1] == v
  }

  // Not a candidate for release: marked, completed this round, or not a
  // completed unit at all.
  predicate NotWhite(s: State, v: Unit) {
    v !in s.heads || !s.heads[v].life.Unmarked? || v in s.young
  }

  // A word a mutator may legitimately have in hand.
  ghost predicate Held(s: State, v: Unit) {
    v !in s.cycle.elder || v in s.young || (v in s.heads && s.heads[v].life.Pending?) || Reach(s.cycle, s.seeds, v)
  }

  // ---- steps ----------------------------------------------------------------

  function DoBeginRound(s: State, roots: set<Unit>): State {
    var elder := set u | u in s.heads && s.heads[u].life.Unmarked?;
    s.(round := s.round + 1, stage := Marking, todo := {},
       cycle := Cycle(roots, elder, map u | u in s.words && u in elder :: s.words[u],
                      set u | u in elder && s.heads[u].needSweep),
       marks := {}, seeds := {}, young := {}, scanned := map[], freed := [])
  }

  predicate CanShade(s: State, u: Unit) {
    s.stage.Marking? && u in s.heads && s.heads[u].life.Unmarked?
  }

  function DoShade(s: State, u: Unit): State {
    s.(heads := Shaded(s.heads, u), marks := s.marks + {u}, seeds := s.seeds + {u})
  }

  // u is gray and its next word to read is number k.
  predicate CanScan(s: State, u: Unit, k: nat) {
    && s.stage.Marking? && u in s.heads && s.heads[u].life.SelfMarked?
    && u in s.words && |Scanned(s, u)| == k <= |s.words[u]|
  }

  function DoReadWord(s: State, u: Unit): State
    requires u in s.words && |Scanned(s, u)| < |s.words[u]|
  {
    var v := s.words[u][|Scanned(s, u)|];
    s.(heads := Shaded(s.heads, v), scanned := s.scanned[u := Scanned(s, u) + [v]],
       seeds := if u in s.young then s.seeds + {v} else s.seeds)
  }

  function DoBlacken(s: State, u: Unit): State
    requires u in s.heads
  {
    s.(heads := s.heads[u := s.heads[u].(life := FullMarked)])
  }

  predicate CanEndMark(s: State) {
    && s.stage.Marking?
    && (forall u :: u in s.heads ==> !s.heads[u].life.SelfMarked?)
    && (forall r :: r in s.cycle.roots ==> NotWhite(s, r))
  }

  function DoEndMark(s: State): State {
    s.(stage := Sweeping, todo := s.heads.Keys)
  }

  predicate CanVisit(s: State, u: Unit) {
    s.stage.Sweeping? && u in s.todo && u in s.heads
  }

  function DoVisit(s: State, u: Unit): State
    requires u in s.heads
  {
    s.(heads := s.heads[u := Swept(s.heads[u], s.round)], todo := s.todo - {u},
       freed := if Dropped(s.heads[u], s.round) then s.freed + [u] else s.freed)
  }

  function DoNewPage(s: State, us: set<Unit>): State {
    s.(heads := s.heads + map u | u in us :: Head(Released, 0, 0, false, 0),
       words := s.words + map u | u in us :: [])
  }

  // A swept page on which every unit is released may leave the heap.
  predicate CanGiveBack(s: State, us: set<Unit>) {
    s.stage.Sweeping? && us !! s.todo && forall u :: u in us ==> u in s.heads && s.heads[u].life.Released?
  }

  function DoGiveBack(s: State, us: set<Unit>): State {
    s.(heads := s.heads - us, words := s.words - us)
  }

  function DoAllocBegin(s: State, u: Unit): State
    requires u in s.heads
  {
    s.(heads := s.heads[u := s.heads[u].(life := Pending)])
  }

  // `init` is the whole payload, up to the size of the unit's group. Cells are
  // not cleared, so words outside `own` may hold anything.
  ghost predicate CanAllocEnd(s: State, u: Unit, init: seq<Unit>, own: set<nat>) {
    && u in s.heads && s.heads[u].life.Pending?
    && (!s.stage.Resting? ==> forall i :: 0 <= i < |init| && i in own ==> Held(s, init[i]))
  }

  function DoAllocEnd(s: State, u: Unit, init: seq<Unit>, own: set<nat>, needSweep: bool): State {
    s.(heads := s.heads[u := Completed(s.round, needSweep)], words := s.words[u := init],
       own := s.own[u := own], young := s.young + {u})
  }

  ghost predicate CanWrite(s: State, u: Unit, i: nat, v: Unit) {
    && u in s.heads && Live(s.heads[u]) && u in s.words && i < |s.words[u]|
    && (!s.stage.Resting? ==> Held(s, v))
    && (s.stage.Marking? && u in s.cycle.elder ==> NotWhite(s, s.words[u][i]))
  }

  function DoWrite(s: State, u: Unit, i: nat, v: Unit): State
    requires u in s.words && i < |s.words[u]|
  {
    var w: seq<Unit> := s.words[u][i := v];
    s.(words := s.words[u := w], own := s.own[u := Own(s, u) + {i}])
  }

  ghost predicate Enabled(s: State, step: Step) {
    match step
    case BeginRound(roots) => s.stage.Resting?
    case Shade(u) => CanShade(s, u)
    case ReadWord(u) => CanScan(s, u, |Scanned(s, u)|) && |Scanned(s, u)| < |s.words[u]|
    case Blacken(u) => CanScan(s, u, |Scanned(s, u)|) && |Scanned(s, u)| == |s.words[u]|
    case EndMark => CanEndMark(s)
    case Visit(u) => CanVisit(s, u)
    case EndRound => s.stage.Sweeping? && s.todo == {}
    case NewPage(us) => us !! s.heads.Keys
    case GiveBack(us) => CanGiveBack(s, us)
    case AllocBegin(u) => u in s.heads && s.heads[u].life.Released?
    case AllocEnd(u, init, own, needSweep) => CanAllocEnd(s, u, init, own)
    case Write(u, i, v) => CanWrite(s, u, i, v)
  }

  ghost function After(s: State, step: Step): State
    requires Enabled(s, step)
  {
    match step
    case BeginRound(roots) => DoBeginRound(s, roots)
    case Shade(u) => DoShade(s, u)
    case ReadWord(u) => DoReadWord(s, u)
    case Blacken(u) => DoBlacken(s, u)
    case EndMark => DoEndMark(s)
    case Visit(u) => DoVisit(s, u)
    case EndRound => s.(stage := Resting)
    case NewPage(us) => DoNewPage(s, us)
    case GiveBack(us) => DoGiveBack(s, us)
    case AllocBegin(u) => DoAllocBegin(s, u)
    case AllocEnd(u, init, own, needSweep) => DoAllocEnd(s, u, init, own, needSweep)
    case Write(u, i, v) => DoWrite(s, u, i, v)
  }

  // ---- invariant ------------------------------------------------------------

  ghost predicate ShapeOk(s: State) {
    && s.words.Keys == s.heads.Keys
    && s.young <= s.heads.Keys
    && s.marks <= s.seeds
    && s.cycle.snap.Keys == s.cycle.elder
    && s.cycle.sweepable <= s.cycle.elder
    && s.todo <= s.heads.Keys
    && (s.stage.Marking? ==> s.cycle.elder <= s.heads.Keys && s.scanned.Keys <= s.heads.Keys)
  }

  // The sweep of this round is over for u.
  predicate Done(s: State, u: Unit) {
    s.stage.Resting? || (s.stage.Sweeping? && u !in s.todo)
  }

  ghost predicate AgeOk(s: State, u: Unit)
    requires u in s.heads
  {
    var h := s.heads[u];
    Live(h) ==>
      && h.timing == h.born % 256
      && h.born <= s.round && h.age <= 15
      && (h.age == 15 ==> h.born + 1 >= s.round)
      && (h.age == 15 && Done(s, u) ==> h.born == s.round)
      && (!s.stage.Resting? ==>
            && (u in s.young ==> h.born == s.round && (Done(s, u) || h.age == 15))
            && (u !in s.young ==> h.born < s.round))
  }

  ghost predicate LifeOk(s: State, u: Unit)
    requires u in s.heads
  {
    var h := s.heads[u];
    match s.stage
    case Resting => !h.life.SelfMarked? && !h.life.FullMarked?
    case Marking =>
      && (Live(h) <==> u in s.cycle.elder || u in s.young)
      && !(u in s.cycle.elder && u in s.young)
      && (u in s.cycle.sweepable ==> h.needSweep)
      && (u in s.cycle.elder && h.needSweep ==> u in s.cycle.sweepable)
    case Sweeping =>
      && !h.life.SelfMarked?
      && (h.life.FullMarked? ==> u in s.todo)
      && (u in s.young ==> Live(h))
      && (Live(h) ==> u in s.cycle.elder || u in s.young)
      && (u in s.todo && u in s.cycle.elder ==>
            && Live(h) && u !in s.young
            && (h.needSweep <==> u in s.cycle.sweepable))
  }

  // While marking: how far u has been scanned fits its colour, and nothing
  // read from it is white.
  ghost predicate ColourOk(s: State, u: Unit)
    requires u in s.heads && u in s.words
  {
    s.stage.Marking? ==>
      && |Scanned(s, u)| <= |s.words[u]|
      && (s.heads[u].life.FullMarked? ==> |Scanned(s, u)| == |s.words[u]|)
      && (!s.heads[u].life.FullMarked? && !s.heads[u].life.SelfMarked? ==> Scanned(s, u) == [])
      && (forall i :: 0 <= i < |Scanned(s, u)| ==> NotWhite(s, Scanned(s, u)[i]))
  }

  // While marking: a word the snapshot held is no longer white, or it is
  // still in place and will be read.
  ghost predicate SnapOk(s: State, u: Unit)
    requires u in s.cycle.elder && u in s.words && u in s.cycle.snap
  {
    s.stage.Marking? ==>
      && |s.words[u]| == |s.cycle.snap[u]|
      && forall i :: 0 <= i < |s.words[u]| ==>
           NotWhite(s, s.cycle.snap[u][i]) || (s.words[u][i] == s.cycle.snap[u][i] && |Scanned(s, u)| <= i)
  }

  // Every word the mutators can get at is one they may hold.
  ghost predicate WordsOk(s: State, u: Unit)
    requires u in s.heads && u in s.words
  {
    !s.stage.Resting? && Live(s.heads[u]) ==>
      && (u in s.young ==> forall i :: 0 <= i < |s.words[u]| && i in Own(s, u) ==> Held(s, s.words[u][i]))
      && (u in s.cycle.elder && u !in s.young ==>
            && u in s.cycle.snap && |s.words[u]| == |s.cycle.snap[u]|
            && forall i :: 0 <= i < |s.words[u]| ==> s.words[u][i] == s.cycle.snap[u][i] || Held(s, s.words[u][i]))
  }

  // Marked old units are reachable; once marking is over, the reachable ones
  // are exactly the marked ones.
  ghost predicate ReachOk(s: State, u: Unit)
    requires u in s.heads
  {
    var h := s.heads[u];
    u in s.cycle.elder ==>
      && (s.stage.Marking? && (h.life.SelfMarked? || h.life.FullMarked?) ==> Reach(s.cycle, s.seeds, u))
      && (s.stage.Sweeping? && u in s.todo ==> (h.life.FullMarked? <==> Reach(s.cycle, s.seeds, u)))
  }

  // This round's sweep has released exactly the old, sweepable, unreachable
  // units it has met, each once.
  ghost predicate FreedOk(s: State) {
    && (forall i, j :: 0 <= i < j < |s.freed| ==> s.freed[i] != s.freed[j])
    && (s.stage.Marking? ==> s.freed == [])
    && (!s.stage.Marking? ==>
          forall u :: u in s.freed <==>
                      u in s.cycle.sweepable && u !in s.todo && !Reach(s.cycle, s.seeds, u))
  }

  ghost predicate SeedsOk(s: State) {
    s.stage.Marking? ==> forall u :: u in s.seeds ==> NotWhite(s, u)
  }

  ghost predicate UnitOk(s: State, u: Unit)
    requires ShapeOk(s) && u in s.heads
  {
    && AgeOk(s, u) && LifeOk(s, u) && ColourOk(s, u) && WordsOk(s, u) && ReachOk(s, u)
    && (u in s.cycle.elder ==> SnapOk(s, u))
  }

  ghost predicate Inv(s: State) {
    && ShapeOk(s)
    && FreedOk(s)
    && SeedsOk(s)
    && forall u :: u in s.heads ==> UnitOk(s, u)
  }

  // ---- reachability ---------------------------------------------------------

  lemma ReachRoot(c: Cycle, seeds: set<Unit>, u: Unit)
    requires u in c.elder && (u in c.roots || u in seeds)
    ensures Reach(c, seeds, u)
  {
    assert IsPath(c, seeds, [u]);
  }

  lemma ReachChild(c: Cycle, seeds: set<Unit>, u: Unit, v: Unit)
    requires Reach(c, seeds, u) && u in c.snap && v in c.snap[u] && v in c.elder
    ensures Reach(c, seeds, v)
  {
    var p :| IsPath(c, seeds, p) && p[|p| - 1] == u;
    var q := p + [v];
    forall i | 0 <= i < |q| - 1
      ensures q[i] in c.snap && q[i + 1] in c.snap[q[i]]
    {
      if i < |p| - 1 {
        assert q[i] == p[i] && q[i + 1] == p[i + 1];
      }
    }
    assert IsPath(c, seeds, q);
  }

  lemma ReachMore(c: Cycle, seeds: set<Unit>, seeds': set<Unit>, u: Unit)
    requires Reach(c, seeds, u) && seeds <= seeds'
    ensures Reach(c, seeds', u)
  {
    var p :| IsPath(c, seeds, p) && p[|p| - 1] == u;
    assert IsPath(c, seeds', p);
  }

  // ---- what only grows during a round ---------------------------------------

  // Within a round, what mutators hold stays held, and what is not white
  // never turns white.
  ghost predicate Grows(s: State, s': State) {
    && s'.cycle == s.cycle && s.seeds <= s'.seeds && s.young <= s'.young
    && (forall v :: v in s.heads && s.heads[v].life.Pending? ==>
          v in s'.heads && (s'.heads[v].life.Pending? || v in s'.young))
    && (s.stage.Marking? ==> forall v :: NotWhite(s, v) ==> NotWhite(s', v))
  }

  lemma HeldGrows(s: State, s': State, v: Unit)
    requires Grows(s, s') && Held(s, v)
    ensures Held(s', v)
  {
    if Reach(s.cycle, s.seeds, v) {
      ReachMore(s.cycle, s.seeds, s'.seeds, v);
    }
  }

  lemma AllHeldGrows(s: State, s': State)
    requires Grows(s, s')
    ensures forall v :: Held(s, v) ==> Held(s', v)
  {
    forall v | Held(s, v)
      ensures Held(s', v)
    {
      HeldGrows(s, s', v);
    }
  }

  // The part of the invariant that a unit keeps when nothing about it changes
  // but the rest of the heap moves on inside a round.
  lemma BystanderOk(s: State, s': State, u: Unit)
    requires ShapeOk(s) && ShapeOk(s') && Grows(s, s') && u in s.heads && u in s'.heads && UnitOk(s, u)
    requires s'.stage == s.stage && s'.round == s.round
    requires s'.heads[u] == s.heads[u] && s'.words[u] == s.words[u] && Scanned(s', u) == Scanned(s, u)
    requires (u in s'.young <==> u in s.young) && (u in s'.todo <==> u in s.todo) && Own(s', u) == Own(s, u)
    requires s.stage.Sweeping? ==> s'.seeds == s.seeds
    ensures UnitOk(s', u)
  {
    AllHeldGrows(s, s');
    if Reach(s.cycle, s.seeds, u) {
      ReachMore(s.cycle, s.seeds, s'.seeds, u);
    }
  }

  // Nothing about u itself changes.
  ghost predicate Same(s: State, s': State, u: Unit) {
    && u in s.heads && u in s.words && u in s'.heads && u in s'.words
    && s'.heads[u] == s.heads[u] && s'.words[u] == s.words[u] && Scanned(s', u) == Scanned(s, u)
    && (u in s'.young <==> u in s.young) && (u in s'.todo <==> u in s.todo) && Own(s', u) == Own(s, u)
  }

  // A step inside a round that touches only the given units.
  ghost predicate Framed(s: State, s': State, touched: set<Unit>) {
    && ShapeOk(s') && FreedOk(s') && SeedsOk(s') && Grows(s, s')
    && s'.stage == s.stage && s'.round == s.round
    && (s.stage.Sweeping? ==> s'.seeds == s.seeds)
    && (forall u :: u in s'.heads && u !in touched ==> Same(s, s', u))
  }

  // ... need only be checked there.
  lemma FrameOk(s: State, s': State, touched: set<Unit>)
    requires Inv(s) && Framed(s, s', touched)
    requires forall u :: u in s'.heads && u in touched ==> UnitOk(s', u)
    ensures Inv(s')
  {
    forall u | u in s'.heads && u !in touched
      ensures UnitOk(s', u)
    {
      assert Same(s, s', u);
      assert UnitOk(s, u);
      BystanderOk(s, s', u);
    }
  }

  ghost predicate Global(s: State) {
    ShapeOk(s) && FreedOk(s) && SeedsOk(s)
  }

  // ---- every step keeps the invariant ----------------------------------------

  lemma InitOk()
    ensures Inv(Init())
  {
  }

  lemma BeginRoundOk(s: State, roots: set<Unit>)
    requires Inv(s) && s.stage.Resting?
    ensures Inv(DoBeginRound(s, roots))
  {
    var s' := DoBeginRound(s, roots);
    forall u | u in s'.heads
      ensures UnitOk(s', u)
    {
      assert UnitOk(s, u);
    }
  }

  lemma ShadingFramed(s: State, s': State, u: Unit, v: Unit)
    requires Global(s) && s.stage.Marking? && u in s.heads
    requires s' == s.(heads := Shaded(s.heads, v), marks := s'.marks, seeds := s'.seeds, scanned := s'.scanned)
    requires s'.marks <= s'.seeds && s.seeds <= s'.seeds <= s.seeds + {v} && s'.scanned.Keys <= s.scanned.Keys + {u}
    requires forall x :: x != u ==> Scanned(s', x) == Scanned(s, x)
    ensures Framed(s, s', {u, v}) && NotWhite(s', v)
  {
  }

  lemma ShadeOk(s: State, u: Unit)
    requires Inv(s) && CanShade(s, u)
    ensures Inv(DoShade(s, u))
  {
    ShadingFramed(s, DoShade(s, u), u, u);
    assert UnitOk(s, u);
    MarkedOk(s, u);
    FrameOk(s, DoShade(s, u), {u, u});
  }

  lemma MarkedOk(s: State, u: Unit)
    requires ShapeOk(s) && CanShade(s, u) && UnitOk(s, u) && Framed(s, DoShade(s, u), {u, u})
    ensures UnitOk(DoShade(s, u), u)
  {
    var s' := DoShade(s, u);
    if u in s.cycle.elder {
      ReachRoot(s'.cycle, s'.seeds, u);
    }
    ShadedOk(s, s', u);
  }

  // A unit that has just turned gray.
  lemma ShadedOk(s: State, s': State, u: Unit)
    requires ShapeOk(s) && ShapeOk(s') && Grows(s, s') && u in s.heads && u in s'.heads && UnitOk(s, u)
    requires s.stage.Marking? && s.heads[u].life.Unmarked?
    requires s'.stage == s.stage && s'.round == s.round && s'.young == s.young && s'.todo == s.todo
    requires s'.heads[u] == s.heads[u].(life := SelfMarked)
    requires s'.words[u] == s.words[u] && Scanned(s', u) == Scanned(s, u) && Own(s', u) == Own(s, u)
    requires u in s.cycle.elder ==> Reach(s'.cycle, s'.seeds, u)
    ensures UnitOk(s', u)
  {
    AllHeldGrows(s, s');
  }

  // The word to be read next from u.
  function NextWord(s: State, u: Unit): Unit
    requires u in s.words && |Scanned(s, u)| < |s.words[u]|
  {
    s.words[u][|Scanned(s, u)|]
  }

  // The word just read from u names a unit that is reachable: from u, if u is
  // old, and otherwise as a word found in a unit completed during the round.
  lemma WordReachable(s: State, u: Unit)
    requires Inv(s) && CanScan(s, u, |Scanned(s, u)|) && |Scanned(s, u)| < |s.words[u]|
    requires NextWord(s, u) in s.cycle.elder
    ensures Reach(s.cycle, DoReadWord(s, u).seeds, NextWord(s, u))
  {
    var v := NextWord(s, u);
    assert UnitOk(s, u) && UnitOk(s, v);
    if u in s.young {
      ReachRoot(s.cycle, DoReadWord(s, u).seeds, v);
    } else if v == s.cycle.snap[u][|Scanned(s, u)|] {
      ReachChild(s.cycle, s.seeds, u, v);
    }
  }

  lemma ReadWordOk(s: State, u: Unit)
    requires Inv(s) && CanScan(s, u, |Scanned(s, u)|) && |Scanned(s, u)| < |s.words[u]|
    ensures Inv(DoReadWord(s, u))
  {
    ReadWordFramed(s, u);
    assert UnitOk(s, u);
    ReaderOk(s, u);
    WordShadedOk(s, u);
    FrameOk(s, DoReadWord(s, u), {u, NextWord(s, u)});
  }

  lemma ReadWordFramed(s: State, u: Unit)
    requires Global(s) && CanScan(s, u, |Scanned(s, u)|) && |Scanned(s, u)| < |s.words[u]|
    ensures Framed(s, DoReadWord(s, u), {u, NextWord(s, u)}) && NotWhite(DoReadWord(s, u), NextWord(s, u))
  {
    ShadingFramed(s, DoReadWord(s, u), u, NextWord(s, u));
  }

  // The unit being scanned, after one more word.
  lemma ReaderOk(s: State, u: Unit)
    requires ShapeOk(s) && u in s.heads && UnitOk(s, u)
    requires CanScan(s, u, |Scanned(s, u)|) && |Scanned(s, u)| < |s.words[u]|
    requires Framed(s, DoReadWord(s, u), {u, NextWord(s, u)}) && NotWhite(DoReadWord(s, u), NextWord(s, u))
    ensures UnitOk(DoReadWord(s, u), u)
  {
    AllHeldGrows(s, DoReadWord(s, u));
  }

  // The unit named by the word just read.
  lemma WordShadedOk(s: State, u: Unit)
    requires Inv(s) && CanScan(s, u, |Scanned(s, u)|) && |Scanned(s, u)| < |s.words[u]|
    requires Framed(s, DoReadWord(s, u), {u, NextWord(s, u)})
    ensures NextWord(s, u) != u && NextWord(s, u) in s.heads ==> UnitOk(DoReadWord(s, u), NextWord(s, u))
  {
    var v := NextWord(s, u);
    if v != u && v in s.heads {
      assert UnitOk(s, v);
      if v in s.cycle.elder {
        WordReachable(s, u);
      }
      NamedOk(s, u);
    }
  }

  lemma NamedOk(s: State, u: Unit)
    requires ShapeOk(s) && CanScan(s, u, |Scanned(s, u)|) && |Scanned(s, u)| < |s.words[u]|
    requires Framed(s, DoReadWord(s, u), {u, NextWord(s, u)})
    requires NextWord(s, u) != u && NextWord(s, u) in s.heads && UnitOk(s, NextWord(s, u))
    requires NextWord(s, u) in s.cycle.elder ==> Reach(s.cycle, DoReadWord(s, u).seeds, NextWord(s, u))
    ensures UnitOk(DoReadWord(s, u), NextWord(s, u))
  {
    var v := NextWord(s, u);
    if s.heads[v].life.Unmarked? {
      ShadedOk(s, DoReadWord(s, u), v);
    } else {
      BystanderOk(s, DoReadWord(s, u), v);
    }
  }

  lemma BlackenedOk(s: State, u: Unit)
    requires ShapeOk(s) && u in s.heads && UnitOk(s, u) && CanScan(s, u, |s.words[u]|)
    requires ShapeOk(DoBlacken(s, u)) && Grows(s, DoBlacken(s, u))
    ensures UnitOk(DoBlacken(s, u), u)
  {
    AllHeldGrows(s, DoBlacken(s, u));
  }

  lemma BlackenFramed(s: State, u: Unit)
    requires Global(s) && u in s.words && CanScan(s, u, |s.words[u]|)
    ensures Framed(s, DoBlacken(s, u), {u})
  {
  }

  lemma BlackenOk(s: State, u: Unit)
    requires Inv(s) && u in s.words && CanScan(s, u, |s.words[u]|)
    ensures Inv(DoBlacken(s, u))
  {
    BlackenFramed(s, u);
    assert UnitOk(s, u);
    BlackenedOk(s, u);
    FrameOk(s, DoBlacken(s, u), {u});
  }

  // With no gray unit left, every unit on a path from a root is black.
  lemma {:induction false} PathIsBlack(s: State, p: seq<Unit>, i: nat)
    requires Inv(s) && CanEndMark(s) && IsPath(s.cycle, s.seeds, p) && i < |p|
    ensures p[i] in s.heads && s.heads[p[i]].life.FullMarked?
  {
    assert p[i] in s.cycle.elder;
    assert UnitOk(s, p[i]);
    if i > 0 {
      PathIsBlack(s, p, i - 1);
      assert UnitOk(s, p[i - 1]);
      var u := p[i - 1];
      assert p[i - 1 + 1] in s.cycle.snap[u];
      var j :| 0 <= j < |s.cycle.snap[u]| && s.cycle.snap[u][j] == p[i];
      assert NotWhite(s, s.cycle.snap[u][j]);
    }
  }

  lemma ReachableIsBlack(s: State, u: Unit)
    requires Inv(s) && CanEndMark(s) && Reach(s.cycle, s.seeds, u)
    ensures u in s.heads && s.heads[u].life.FullMarked?
  {
    var p :| IsPath(s.cycle, s.seeds, p) && p[|p| - 1] == u;
    PathIsBlack(s, p, |p| - 1);
  }

  lemma EndMarkUnitOk(s: State, u: Unit)
    requires ShapeOk(s) && ShapeOk(DoEndMark(s)) && CanEndMark(s) && u in s.heads && UnitOk(s, u)
    requires Reach(s.cycle, s.seeds, u) ==> s.heads[u].life.FullMarked?
    ensures UnitOk(DoEndMark(s), u)
  {
    AllHeldGrows(s, DoEndMark(s));
  }

  lemma EndMarkOk(s: State)
    requires Inv(s) && CanEndMark(s)
    ensures Inv(DoEndMark(s))
  {
    forall u | u in s.heads
      ensures UnitOk(DoEndMark(s), u)
    {
      if Reach(s.cycle, s.seeds, u) {
        ReachableIsBlack(s, u);
      }
      assert UnitOk(s, u);
      EndMarkUnitOk(s, u);
    }
  }

  // What is reachable through more seeds is reachable through fewer, if those
  // that were added are.
  lemma {:induction false} PathWithoutSeeds(c: Cycle, marks: set<Unit>, seeds: set<Unit>, p: seq<Unit>, i: nat)
    requires IsPath(c, seeds, p) && i < |p|
    requires forall v :: v in seeds && v in c.elder ==> Reach(c, marks, v)
    ensures Reach(c, marks, p[i])
  {
    if i == 0 {
      if p[0] in c.roots {
        ReachRoot(c, marks, p[0]);
      }
    } else {
      PathWithoutSeeds(c, marks, seeds, p, i - 1);
      assert p[i - 1] in c.snap && p[i - 1 + 1] in c.snap[p[i - 1]];
      ReachChild(c, marks, p[i - 1], p[i]);
    }
  }

  // No word found in a unit completed during the round names garbage.
  ghost predicate NoStaleGarbage(s: State) {
    forall v :: v in s.seeds && v in s.cycle.elder ==> Reach(s.cycle, s.marks, v)
  }

  lemma ReachIsSharp(s: State, u: Unit)
    requires ShapeOk(s) && NoStaleGarbage(s)
    ensures Reach(s.cycle, s.seeds, u) <==> Reach(s.cycle, s.marks, u)
  {
    if Reach(s.cycle, s.seeds, u) {
      var p :| IsPath(s.cycle, s.seeds, p) && p[|p| - 1] == u;
      PathWithoutSeeds(s.cycle, s.marks, s.seeds, p, |p| - 1);
    }
    if Reach(s.cycle, s.marks, u) {
      ReachMore(s.cycle, s.marks, s.seeds, u);
    }
  }

  lemma AllReachIsSharp(s: State)
    requires ShapeOk(s)
    ensures NoStaleGarbage(s) ==> forall u :: Reach(s.cycle, s.seeds, u) <==> Reach(s.cycle, s.marks, u)
  {
    if NoStaleGarbage(s) {
      forall u
        ensures Reach(s.cycle, s.seeds, u) <==> Reach(s.cycle, s.marks, u)
      {
        ReachIsSharp(s, u);
      }
    }
  }

  // No old unit was marked in vain.
  ghost predicate MarkedAreReachable(s: State) {
    forall u :: u in s.cycle.elder && u in s.heads && s.heads[u].life.FullMarked? ==> Reach(s.cycle, s.marks, u)
  }

  // Marking is exact if and only if no word found in a unit completed during the
  // round names garbage.
  lemma MarksExactly(s: State)
    requires Inv(s) && CanEndMark(s)
    ensures MarkedAreReachable(s) <==> NoStaleGarbage(s)
  {
    if NoStaleGarbage(s) {
      forall u | u in s.cycle.elder && u in s.heads && s.heads[u].life.FullMarked?
        ensures Reach(s.cycle, s.marks, u)
      {
        assert UnitOk(s, u);
        ReachIsSharp(s, u);
      }
    }
    forall v | v in s.seeds && v in s.cycle.elder
      ensures v in s.heads && s.heads[v].life.FullMarked?
    {
      assert UnitOk(s, v);
      assert NotWhite(s, v);
    }
  }

  // Comparing the low bytes of round numbers is as good as comparing the
  // numbers: a unit that reaches the sweep at age 15 was completed in this
  // round or the one before.
  lemma WrapIsHarmless(s: State, u: Unit)
    requires Inv(s) && s.stage.Sweeping? && u in s.todo && u in s.heads && Live(s.heads[u])
    ensures s.heads[u].age == 15 ==> s.heads[u].born == s.round || s.heads[u].born + 1 == s.round
    ensures s.heads[u].age == 15 && s.heads[u].timing == s.round % 256 <==> s.heads[u].born == s.round
    ensures s.heads[u].born == s.round <==> u in s.young
  {
    assert UnitOk(s, u);
  }

  // The sweep drops exactly the old, sweepable, unreachable units.
  lemma DropsExactly(s: State, u: Unit)
    requires Inv(s) && s.stage.Sweeping? && u in s.todo && u in s.heads
    ensures Dropped(s.heads[u], s.round) <==> u in s.cycle.sweepable && !Reach(s.cycle, s.seeds, u)
  {
    assert UnitOk(s, u);
    if Live(s.heads[u]) {
      WrapIsHarmless(s, u);
    }
  }

  lemma VisitFramed(s: State, u: Unit)
    requires Global(s) && CanVisit(s, u) && FreedOk(DoVisit(s, u))
    requires u in s.young ==> Live(s.heads[u])
    ensures Framed(s, DoVisit(s, u), {u})
  {
  }

  lemma VisitOk(s: State, u: Unit)
    requires Inv(s) && CanVisit(s, u)
    ensures Inv(DoVisit(s, u))
  {
    DropsExactly(s, u);
    FreedGrows(s, u);
    assert UnitOk(s, u);
    VisitFramed(s, u);
    VisitedOk(s, u);
    FrameOk(s, DoVisit(s, u), {u});
  }

  lemma VisitedOk(s: State, u: Unit)
    requires Inv(s) && CanVisit(s, u) && ShapeOk(DoVisit(s, u)) && Grows(s, DoVisit(s, u))
    ensures UnitOk(DoVisit(s, u), u)
  {
    assert UnitOk(s, u);
    if Live(s.heads[u]) {
      WrapIsHarmless(s, u);
    }
    AllHeldGrows(s, DoVisit(s, u));
  }

  lemma FreedGrows(s: State, u: Unit)
    requires Inv(s) && CanVisit(s, u)
    requires Dropped(s.heads[u], s.round) <==> u in s.cycle.sweepable && !Reach(s.cycle, s.seeds, u)
    ensures FreedOk(DoVisit(s, u))
  {
    var s' := DoVisit(s, u);
    assert u !in s.freed;
    forall x
      ensures x in s'.freed <==> x in s.freed || (x == u && Dropped(s.heads[u], s.round))
    {
    }
  }

  lemma EndRoundOk(s: State)
    requires Inv(s) && s.stage.Sweeping? && s.todo == {}
    ensures Inv(s.(stage := Resting))
  {
    var s' := s.(stage := Resting);
    forall u | u in s'.heads
      ensures UnitOk(s', u)
    {
      assert UnitOk(s, u);
    }
  }

  lemma NewPageFramed(s: State, us: set<Unit>)
    requires Global(s) && us !! s.heads.Keys
    ensures Framed(s, DoNewPage(s, us), us)
  {
  }

  lemma NewPageOk(s: State, us: set<Unit>)
    requires Inv(s) && us !! s.heads.Keys
    ensures Inv(DoNewPage(s, us))
  {
    NewPageFramed(s, us);
    NewUnitsOk(s, us);
    FrameOk(s, DoNewPage(s, us), us);
  }

  lemma NewUnitsOk(s: State, us: set<Unit>)
    requires Global(s) && us !! s.heads.Keys && ShapeOk(DoNewPage(s, us))
    ensures forall u :: u in us ==> UnitOk(DoNewPage(s, us), u)
  {
  }

  lemma GiveBackFramed(s: State, us: set<Unit>)
    requires Inv(s) && CanGiveBack(s, us)
    ensures Framed(s, DoGiveBack(s, us), {})
  {
    forall u | u in s.young
      ensures u !in us
    {
      assert UnitOk(s, u);
    }
  }

  lemma GiveBackOk(s: State, us: set<Unit>)
    requires Inv(s) && CanGiveBack(s, us)
    ensures Inv(DoGiveBack(s, us))
  {
    GiveBackFramed(s, us);
    FrameOk(s, DoGiveBack(s, us), {});
  }

  lemma BegunOk(s: State, u: Unit)
    requires ShapeOk(s) && u in s.heads && UnitOk(s, u) && s.heads[u].life.Released?
    requires ShapeOk(DoAllocBegin(s, u))
    ensures UnitOk(DoAllocBegin(s, u), u)
  {
  }

  lemma AllocBeginFramed(s: State, u: Unit)
    requires Global(s) && u in s.heads && s.heads[u].life.Released?
    ensures Framed(s, DoAllocBegin(s, u), {u})
  {
  }

  lemma AllocBeginOk(s: State, u: Unit)
    requires Inv(s) && u in s.heads && s.heads[u].life.Released?
    ensures Inv(DoAllocBegin(s, u))
  {
    AllocBeginFramed(s, u);
    assert UnitOk(s, u);
    BegunOk(s, u);
    FrameOk(s, DoAllocBegin(s, u), {u});
  }

  lemma CompletedOk(s: State, u: Unit, init: seq<Unit>, own: set<nat>, needSweep: bool)
    requires ShapeOk(s) && u in s.heads && UnitOk(s, u) && CanAllocEnd(s, u, init, own)
    requires ShapeOk(DoAllocEnd(s, u, init, own, needSweep)) && Grows(s, DoAllocEnd(s, u, init, own, needSweep))
    ensures UnitOk(DoAllocEnd(s, u, init, own, needSweep), u)
  {
    AllHeldGrows(s, DoAllocEnd(s, u, init, own, needSweep));
  }

  lemma AllocEndFramed(s: State, u: Unit, init: seq<Unit>, own: set<nat>, needSweep: bool)
    requires Global(s) && CanAllocEnd(s, u, init, own)
    ensures Framed(s, DoAllocEnd(s, u, init, own, needSweep), {u})
  {
  }

  lemma AllocEndOk(s: State, u: Unit, init: seq<Unit>, own: set<nat>, needSweep: bool)
    requires Inv(s) && CanAllocEnd(s, u, init, own)
    ensures Inv(DoAllocEnd(s, u, init, own, needSweep))
  {
    AllocEndFramed(s, u, init, own, needSweep);
    assert UnitOk(s, u);
    CompletedOk(s, u, init, own, needSweep);
    FrameOk(s, DoAllocEnd(s, u, init, own, needSweep), {u});
  }

  lemma WrittenOk(s: State, u: Unit, i: nat, v: Unit)
    requires ShapeOk(s) && u in s.heads && UnitOk(s, u) && CanWrite(s, u, i, v)
    requires ShapeOk(DoWrite(s, u, i, v)) && Grows(s, DoWrite(s, u, i, v))
    ensures UnitOk(DoWrite(s, u, i, v), u)
  {
    AllHeldGrows(s, DoWrite(s, u, i, v));
  }

  lemma WriteFramed(s: State, u: Unit, i: nat, v: Unit)
    requires Global(s) && CanWrite(s, u, i, v)
    ensures Framed(s, DoWrite(s, u, i, v), {u})
  {
  }

  lemma WriteOk(s: State, u: Unit, i: nat, v: Unit)
    requires Inv(s) && CanWrite(s, u, i, v)
    ensures Inv(DoWrite(s, u, i, v))
  {
    WriteFramed(s, u, i, v);
    assert UnitOk(s, u);
    WrittenOk(s, u, i, v);
    FrameOk(s, DoWrite(s, u, i, v), {u});
  }

  lemma StepOk(s: State, step: Step)
    requires Inv(s) && Enabled(s, step)
    ensures Inv(After(s, step))
  {
    match step {
      case BeginRound(roots) => BeginRoundOk(s, roots);
      case Shade(u) => ShadeOk(s, u);
      case ReadWord(u) => ReadWordOk(s, u);
      case Blacken(u) => BlackenOk(s, u);
      case EndMark => EndMarkOk(s);
      case Visit(u) => VisitOk(s, u);
      case EndRound => EndRoundOk(s);
      case NewPage(us) => NewPageOk(s, us);
      case GiveBack(us) => GiveBackOk(s, us);
      case AllocBegin(u) => AllocBeginOk(s, u);
      case AllocEnd(u, init, own, needSweep) => AllocEndOk(s, u, init, own, needSweep);
      case Write(u, i, v) => WriteOk(s, u, i, v);
    }
  }

  // ---- the life of a unit ------------------------------------------------------------

  // The life of u after a step.
  ghost function LifeAfter(s: State, step: Step, u: Unit): Life
    requires Enabled(s, step) && u in s.heads
  {
    match s.heads[u].life
    case Released => if step == AllocBegin(u) then Pending else Released
    case Pending => if step.AllocEnd? && step.u == u then Unmarked else Pending
    case Unmarked =>
      if step == Shade(u) || (step.ReadWord? && NextWord(s, step.u) == u) then SelfMarked
      else if step == Visit(u) && Garbage(s, u) then Released else Unmarked
    case SelfMarked => if step == Blacken(u) then FullMarked else SelfMarked
    case FullMarked => if step == Visit(u) then Unmarked else FullMarked
  }

  lemma LifeStep(s: State, step: Step, u: Unit)
    requires Enabled(s, step) && u in s.heads && u in After(s, step).heads
    requires step.NewPage? ==> u !in step.us
    requires step == Visit(u) ==> !s.heads[u].life.SelfMarked? && (Dropped(s.heads[u], s.round) <==> Garbage(s, u))
    ensures After(s, step).heads[u].life == LifeAfter(s, step, u)
    ensures s.heads[u].life.Unmarked? && After(s, step).heads[u].life.Released? ==>
              After(s, step).freed == s.freed + [u]
  {
  }

  // Every change of a unit's life is one of seven, each made by its own step; a
  // unit is released only by the sweep's visit, and the release is recorded.
  lemma LifeMachine(s: State, step: Step, u: Unit)
    requires Inv(s) && Enabled(s, step) && u in s.heads && u in After(s, step).heads
    ensures After(s, step).heads[u].life == LifeAfter(s, step, u)
    ensures s.heads[u].life.Unmarked? && After(s, step).heads[u].life.Released? ==>
              After(s, step).freed == s.freed + [u]
  {
    if step == Visit(u) {
      DropsExactly(s, u);
      assert UnitOk(s, u);
    }
    LifeStep(s, step, u);
  }

  // Sweepable when the round began, and reached by nothing.
  ghost predicate Garbage(s: State, u: Unit) {
    u in s.cycle.sweepable && !Reach(s.cycle, s.seeds, u)
  }

  // While a unit is alive its attribute, the round of its completion and its
  // words' number stay; its age drops by one with every sweep it survives.
  lemma LiveUnitKept(s: State, step: Step, u: Unit)
    requires ShapeOk(s) && Enabled(s, step) && u in s.heads && u in After(s, step).heads
    requires Live(s.heads[u]) && Live(After(s, step).heads[u])
    ensures var h, h' := s.heads[u], After(s, step).heads[u];
            && h'.needSweep == h.needSweep && h'.timing == h.timing && h'.born == h.born
            && h'.age == if step == Visit(u) && h.age > 0 then h.age - 1 else h.age
    ensures |After(s, step).words[u]| == |s.words[u]|
    ensures forall i :: 0 <= i < |s.words[u]| ==>
              After(s, step).words[u][i] ==
              if step.Write? && step.u == u && step.i == i then step.v else s.words[u][i]
  {
  }

  // The units of a new page are free, and a page given back takes out exactly its
  // own.
  lemma PagesComeAndGo(s: State, us: set<Unit>)
    ensures Enabled(s, NewPage(us)) ==>
              && var s' := After(s, NewPage(us));
              && s'.heads.Keys == s.heads.Keys + us
              && (forall u :: u in us ==> s'.heads[u].life.Released?)
              && (forall u :: u in s.heads ==> s'.heads[u] == s.heads[u])
    ensures Enabled(s, GiveBack(us)) ==>
              && var s' := After(s, GiveBack(us));
              && s'.heads.Keys == s.heads.Keys - us && s'.words.Keys == s.words.Keys - us
              && (forall u :: u in s'.heads ==> s'.heads[u] == s.heads[u])
  {
  }

  // Between rounds mutators may do as they like: allocate any free unit, complete
  // any unit they hold with any words, and store anything anywhere. During a round
  // they may store what they hold over anything that is marked.
  lemma MutatorsMay(s: State, u: Unit, init: seq<Unit>, own: set<nat>, needSweep: bool, i: nat, v: Unit)
    requires ShapeOk(s) && u in s.heads
    ensures s.heads[u].life.Released? ==> Enabled(s, AllocBegin(u))
    ensures s.heads[u].life.Pending? && (s.stage.Resting? || forall k :: 0 <= k < |init| ==> Held(s, init[k])) ==>
              Enabled(s, AllocEnd(u, init, own, needSweep))
    ensures Live(s.heads[u]) && i < |s.words[u]| && (s.stage.Resting? || (Held(s, v) && NotWhite(s, s.words[u][i]))) ==>
              Enabled(s, Write(u, i, v))
  {
  }

  // What the history of a round records: marks from outside, and the words the
  // marking reads from units completed during the round.
  lemma HistoryIsKept(s: State, step: Step)
    requires Enabled(s, step)
    ensures After(s, step).marks ==
            match step
            case BeginRound(roots) => {}
            case Shade(u) => s.marks + {u}
            case _ => s.marks
    ensures After(s, step).seeds ==
            match step
            case BeginRound(roots) => {}
            case Shade(u) => s.seeds + {u}
            case ReadWord(u) => if u in s.young then s.seeds + {NextWord(s, u)} else s.seeds
            case _ => s.seeds
    ensures After(s, step).young ==
            match step
            case BeginRound(roots) => {}
            case AllocEnd(u, init, own, needSweep) => s.young + {u}
            case _ => s.young
  {
  }

  // What allocate_end leaves: the attribute and the payload it was given, the
  // full age, and the low byte of the round.
  lemma CompletionIsRecorded(s: State, u: Unit, init: seq<Unit>, own: set<nat>, needSweep: bool)
    requires CanAllocEnd(s, u, init, own)
    ensures var s' := DoAllocEnd(s, u, init, own, needSweep);
            && u in s'.heads && u in s'.words && s'.words[u] == init && Own(s', u) == own
            && s'.heads[u].life.Unmarked? && s'.heads[u].needSweep == needSweep
            && s'.heads[u].age == 15 && s'.heads[u].timing == s.round % 256
  {
  }

  // A unit comes alive only by being completed, with the attribute given then,
  // and leaves the heap only when it is not alive.
  lemma ComesAlive(s: State, step: Step, u: Unit)
    requires Enabled(s, step)
    ensures u in After(s, step).heads && Live(After(s, step).heads[u]) && !(u in s.heads && Live(s.heads[u])) ==>
              step.AllocEnd? && step.u == u && step.needSweep == After(s, step).heads[u].needSweep
    ensures u in s.heads && Live(s.heads[u]) ==> u in After(s, step).heads
  {
  }

  // A unit completed without NEED_SWEEP stays alive.
  lemma UnsweptStays(s: State, step: Step, u: Unit)
    requires Enabled(s, step) && u in s.heads && Live(s.heads[u]) && !s.heads[u].needSweep
    ensures var s' := After(s, step);
            u in s'.heads && Live(s'.heads[u]) && !s'.heads[u].needSweep
  {
  }

  predicate IsMutation(step: Step) {
    step.NewPage? || step.GiveBack? || step.AllocBegin? || step.AllocEnd? || step.Write?
  }

  // Only new pages and pages given back change what units there are.
  lemma UnitsKept(s: State, step: Step)
    requires ShapeOk(s) && Enabled(s, step) && !step.NewPage? && !step.GiveBack?
    ensures After(s, step).heads.Keys == s.heads.Keys
  {
  }

  // Allocating and writing neither marks, unmarks nor moves the round on.
  lemma MutationKeeps(s: State, step: Step)
    requires IsMutation(step) && Enabled(s, step)
    ensures var s' := After(s, step);
            && s'.stage == s.stage && s'.round == s.round && s'.cycle == s.cycle
            && s'.todo == s.todo && s'.seeds == s.seeds
            && (forall v :: NotWhite(s, v) ==> NotWhite(s', v))
            && (forall u :: u in s'.heads && s'.heads[u].life.SelfMarked? <==>
                            u in s.heads && s.heads[u].life.SelfMarked?)
  {
  }

  // ---- what a round guarantees --------------------------------------------------

  // No unit a mutator may hold is ever dropped.
  lemma HeldIsNeverDropped(s: State, u: Unit)
    requires Inv(s) && CanVisit(s, u) && Held(s, u)
    ensures !Dropped(s.heads[u], s.round)
  {
    DropsExactly(s, u);
    assert UnitOk(s, u);
  }

  // u holds v; in a unit completed during the round only words that were
  // stored count, not what its cell held before.
  ghost predicate Names(s: State, u: Unit, v: Unit) {
    && u in s.heads && u in s.words && Live(s.heads[u])
    && exists j :: 0 <= j < |s.words[u]| && s.words[u][j] == v && (u in s.young ==> j in Own(s, u))
  }

  // Reachable through the words as they are now.
  ghost predicate IsLivePath(s: State, p: seq<Unit>) {
    && |p| > 0
    && p[0] in s.cycle.roots
    && (forall i :: 0 <= i < |p| - 1 ==> Names(s, p[i], p[i + 1]))
  }

  // At any moment of a round, whatever can be reached from the roots through
  // the current heap is something mutators may hold.
  lemma {:induction false} ReachableIsHeld(s: State, p: seq<Unit>, i: nat)
    requires Inv(s) && !s.stage.Resting? && IsLivePath(s, p) && i < |p|
    ensures Held(s, p[i])
  {
    if i == 0 {
      if p[0] in s.cycle.elder {
        ReachRoot(s.cycle, s.seeds, p[0]);
      }
    } else {
      ReachableIsHeld(s, p, i - 1);
      var u := p[i - 1];
      assert Names(s, p[i - 1], p[i - 1 + 1]);
      assert UnitOk(s, u);
      var j :| 0 <= j < |s.words[u]| && s.words[u][j] == p[i] && (u in s.young ==> j in Own(s, u));
      if u in s.cycle.elder && u !in s.young && p[i] == s.cycle.snap[u][j] && p[i] in s.cycle.elder {
        ReachChild(s.cycle, s.seeds, u, p[i]);
      }
    }
  }

  // So no unit reachable from the roots is ever released.
  lemma ReachableIsNeverDropped(s: State, p: seq<Unit>)
    requires Inv(s) && IsLivePath(s, p) && CanVisit(s, p[|p| - 1])
    ensures !Dropped(s.heads[p[|p| - 1]], s.round)
  {
    ReachableIsHeld(s, p, |p| - 1);
    HeldIsNeverDropped(s, p[|p| - 1]);
  }

  // The whole round, once every page has been swept: released are exactly the
  // units completed before the round, marked for sweeping, and unreachable;
  // each was released once, and nothing is left marked.
  lemma RoundIsExact(s: State)
    requires Inv(s) && s.stage.Sweeping? && s.todo == {}
    ensures forall u :: u in s.freed <==> u in s.cycle.sweepable && !Reach(s.cycle, s.seeds, u)
    ensures forall i, j :: 0 <= i < j < |s.freed| ==> s.freed[i] != s.freed[j]
    ensures forall u :: u in s.heads ==> !s.heads[u].life.SelfMarked? && !s.heads[u].life.FullMarked?
  {
    forall u | u in s.heads
      ensures !s.heads[u].life.SelfMarked? && !s.heads[u].life.FullMarked?
    {
      assert UnitOk(s, u);
    }
  }

  // If no word found in a new unit named garbage, all garbage is released.
  lemma GarbageIsReleased(s: State)
    requires Inv(s) && s.stage.Sweeping? && s.todo == {} && NoStaleGarbage(s)
    ensures forall u :: u in s.freed <==> u in s.cycle.sweepable && !Reach(s.cycle, s.marks, u)
  {
    AllReachIsSharp(s);
  }

  // Tri-colour: a word found in a black unit, and not overwritten since it was
  // read, names no white unit.
  lemma BlackSeesNoWhite(s: State, u: Unit, i: nat)
    requires Inv(s) && s.stage.Marking? && u in s.heads && s.heads[u].life.FullMarked? && i < |s.words[u]|
    ensures |Scanned(s, u)| == |s.words[u]|
    ensures s.words[u][i] == Scanned(s, u)[i] ==> NotWhite(s, s.words[u][i])
    ensures u in s.cycle.elder ==> |s.words[u]| == |s.cycle.snap[u]| && NotWhite(s, s.cycle.snap[u][i])
  {
    assert UnitOk(s, u);
  }
}
