/**
 Who may allocate from a normal page: a thread's cache, the global pool, the
 sweeper that is about to hand it to the pool, or nobody. The flag `m_run_out`
 carries that ownership between them (`ThreadPageCollection`,
 `GlobalPageCollection`, `sweep_units_in_page`).

 Any number of cache slots (a thread and a size group each) and sweepers take
 steps in any order. A spin lock's critical section is one step per pool entry
 it looks at. Where the code's choice depends on state modelled elsewhere
 (which unit is free, whether a unit is dropped) every choice is allowed.
 */
module PageOwnership {

  type Page = nat

  datatype PageState = PageState(
    group: nat,
    size: nat,            // number of units on the page
    runOut: bool,         // m_run_out
    flag: bool,           // m_mark_as_run_out_in_global_pool
    inUse: set<nat>)      // units that are not RELEASED

  datatype Cache =
    | Empty
    | Owns(p: Page)
    | Starved(p: Page)    // stored m_run_out, cached pointer not yet replaced

  datatype Slot = Slot(group: nat, cache: Cache)

  datatype Sweeper =
    | Off
    | Sweeping(p: Page, runOut: bool, i: nat, survivor: bool, freeSpace: bool)
    | Returning(p: Page)  // cleared m_run_out, page not yet in the pool
    | Rejoining(p: Page)  // page not yet back on the page list

  // An entry of a pool vector; remove_marked_run_out_pages clears entries in place.
  datatype Entry = Cleared | Listed(p: Page)

  datatype State = State(
    pages: map<Page, PageState>,    // normal pages taken from the chunk
    chain: set<Page>,               // on the global page list
    slots: seq<Slot>,
    pools: seq<seq<Entry>>,         // per group
    sweepers: seq<Sweeper>)

  datatype Step =
    | Allocate(c: nat, u: nat)
    | RunOut(c: nat)
    | PopPool(c: nat)
    | NewPage(c: nat, p: Page, size: nat)
    | GiveUp(c: nat)
    | Exit(c: nat)
    | StartSweep(w: nat, p: Page)
    | VisitUnit(w: nat, drop: bool)
    | EndSweep(w: nat)
    | PushPool(w: nat)
    | Rejoin(w: nat)
    | RemoveFlagged(g: nat, k: nat)

  predicate Wanting(s: State, c: nat) {
    c < |s.slots| && !s.slots[c].cache.Owns? && s.slots[c].group < |s.pools|
  }

  // Slot c caches a page.
  predicate Caching(s: State, c: nat) {
    c < |s.slots| && s.slots[c].cache.Owns? && s.slots[c].cache.p in s.pages
  }

  // Sweeper w is inside the loop over the units of a page, or just past it.
  predicate InPage(s: State, w: nat) {
    w < |s.sweepers| && s.sweepers[w].Sweeping? && s.sweepers[w].p in s.pages
  }

  predicate Enabled(s: State, step: Step) {
    match step
    case Allocate(c, u) =>
      && Caching(s, c)
      && var pg := s.pages[s.slots[c].cache.p]; u < pg.size && u !in pg.inUse
    case RunOut(c) => Caching(s, c)
    case PopPool(c) => Wanting(s, c) && s.pools[s.slots[c].group] != []
    case NewPage(c, p, size) => Wanting(s, c) && p !in s.pages
    case GiveUp(c) => Wanting(s, c)
    case Exit(c) => c < |s.slots| && s.slots[c].cache.Owns? && s.slots[c].group < |s.pools|
    case StartSweep(w, p) => w < |s.sweepers| && s.sweepers[w].Off? && p in s.chain && p in s.pages
    case VisitUnit(w, drop) => InPage(s, w) && s.sweepers[w].i < s.pages[s.sweepers[w].p].size
    case EndSweep(w) => InPage(s, w) && s.sweepers[w].i == s.pages[s.sweepers[w].p].size
    case PushPool(w) =>
      && w < |s.sweepers| && s.sweepers[w].Returning? && s.sweepers[w].p in s.pages
      && s.pages[s.sweepers[w].p].group < |s.pools|
    case Rejoin(w) => w < |s.sweepers| && s.sweepers[w].Rejoining?
    case RemoveFlagged(g, k) =>
      && g < |s.pools| && k < |s.pools[g]| && s.pools[g][k].Listed?
      && s.pools[g][k].p in s.pages && s.pages[s.pools[g][k].p].flag
  }

  function SetCache(s: State, c: nat, x: Cache): seq<Slot>
    requires c < |s.slots|
  {
    s.slots[c := s.slots[c].(cache := x)]
  }

  function SetPage(s: State, p: Page, x: PageState): map<Page, PageState> {
    s.pages[p := x]
  }

  // pick_free_page, one entry: cleared entries are skipped, flagged pages leave
  // the pool as run out, any other page is taken.
  function DoPop(s: State, c: nat): State
    requires Wanting(s, c) && s.pools[s.slots[c].group] != []
  {
    var g := s.slots[c].group;
    var q := s.pools[g];
    var x := q[|q| - 1];
    var pools := s.pools[g := q[..|q| - 1]];
    if x.Cleared? || x.p !in s.pages then s.(pools := pools)
    else if s.pages[x.p].flag then
      s.(pools := pools, pages := SetPage(s, x.p, s.pages[x.p].(flag := false, runOut := true)))
    else s.(pools := pools, slots := SetCache(s, c, Owns(x.p)))
  }

  function DoVisit(s: State, w: nat, drop: bool): State
    requires Enabled(s, VisitUnit(w, drop))
  {
    var k := s.sweepers[w];
    var pg := s.pages[k.p];
    if k.i !in pg.inUse then s.(sweepers := s.sweepers[w := k.(i := k.i + 1)])
    else if drop then
      s.(sweepers := s.sweepers[w := k.(i := k.i + 1, freeSpace := true)],
         pages := SetPage(s, k.p, pg.(inUse := pg.inUse - {k.i})))
    else s.(sweepers := s.sweepers[w := k.(i := k.i + 1, survivor := true)])
  }

  // The page goes back to the chunk.
  predicate GivesBack(k: Sweeper) {
    k.Sweeping? && k.runOut && k.freeSpace && !k.survivor
  }

  function DoEnd(s: State, w: nat): State
    requires Enabled(s, EndSweep(w))
  {
    var k := s.sweepers[w];
    var pg := s.pages[k.p];
    if GivesBack(k) then s.(sweepers := s.sweepers[w := Off], pages := s.pages - {k.p})
    else if k.runOut && k.freeSpace then
      s.(sweepers := s.sweepers[w := Returning(k.p)], pages := SetPage(s, k.p, pg.(runOut := false)))
    else
      s.(sweepers := s.sweepers[w := Rejoining(k.p)],
         pages := if !k.survivor && !k.runOut then SetPage(s, k.p, pg.(flag := true)) else s.pages)
  }

  function After(s: State, step: Step): State
    requires Enabled(s, step)
  {
    match step
    case Allocate(c, u) =>
      var p := s.slots[c].cache.p;
      s.(pages := SetPage(s, p, s.pages[p].(inUse := s.pages[p].inUse + {u})))
    case RunOut(c) =>
      var p := s.slots[c].cache.p;
      s.(pages := SetPage(s, p, s.pages[p].(runOut := true)), slots := SetCache(s, c, Starved(p)))
    case PopPool(c) => DoPop(s, c)
    case NewPage(c, p, size) =>
      s.(pages := SetPage(s, p, PageState(s.slots[c].group, size, false, false, {})), chain := s.chain + {p},
         slots := SetCache(s, c, Owns(p)))
    case GiveUp(c) => s.(slots := SetCache(s, c, Empty))
    case Exit(c) =>
      var g := s.slots[c].group;
      s.(pools := s.pools[g := s.pools[g] + [Listed(s.slots[c].cache.p)]], slots := SetCache(s, c, Empty))
    case StartSweep(w, p) =>
      s.(chain := s.chain - {p}, sweepers := s.sweepers[w := Sweeping(p, s.pages[p].runOut, 0, false, false)])
    case VisitUnit(w, drop) => DoVisit(s, w, drop)
    case EndSweep(w) => DoEnd(s, w)
    case PushPool(w) =>
      var p := s.sweepers[w].p;
      var g := s.pages[p].group;
      s.(pools := s.pools[g := s.pools[g] + [Listed(p)]], sweepers := s.sweepers[w := Rejoining(p)])
    case Rejoin(w) => s.(chain := s.chain + {s.sweepers[w].p}, sweepers := s.sweepers[w := Off])
    case RemoveFlagged(g, k) =>
      var p := s.pools[g][k].p;
      s.(pools := s.pools[g := s.pools[g][k := Cleared]],
         pages := SetPage(s, p, s.pages[p].(flag := false, runOut := true)))
  }

  // ---- claims -------------------------------------------------------------------

  datatype Claim = ByCache(c: nat) | InPool(g: nat, k: nat) | ByReturn(w: nat)

  // Whoever holds a claim may let someone allocate from the page.
  predicate Holds(s: State, cl: Claim, p: Page) {
    match cl
    case ByCache(c) => c < |s.slots| && s.slots[c].cache == Owns(p)
    case InPool(g, k) => g < |s.pools| && k < |s.pools[g]| && s.pools[g][k] == Listed(p)
    case ByReturn(w) => w < |s.sweepers| && s.sweepers[w] == Returning(p)
  }

  function GroupOf(s: State, cl: Claim, p: Page): nat
    requires Holds(s, cl, p) && p in s.pages
  {
    match cl
    case ByCache(c) => s.slots[c].group
    case InPool(g, k) => g
    case ByReturn(w) => s.pages[p].group
  }

  // Exactly the pages that have not run out have an owner, and they have one.
  ghost predicate ClaimsOk(s: State) {
    && (forall p, cl :: Holds(s, cl, p) ==> p in s.pages && !s.pages[p].runOut && GroupOf(s, cl, p) == s.pages[p].group)
    && (forall p :: p in s.pages && !s.pages[p].runOut ==> exists cl :: Holds(s, cl, p))
    && (forall p, cl, cl' :: Holds(s, cl, p) && Holds(s, cl', p) ==> cl == cl')
  }

  // ---- sweepers --------------------------------------------------------------------

  ghost predicate SweeperOk(s: State, w: nat)
    requires w < |s.sweepers|
  {
    var k := s.sweepers[w];
    !k.Off? ==>
      && k.p in s.pages && k.p !in s.chain
      && (k.Sweeping? ==> k.i <= s.pages[k.p].size)
      && (k.Sweeping? && k.runOut ==> s.pages[k.p].runOut)
      && (k.Sweeping? && k.runOut && !k.survivor ==> forall u :: u in s.pages[k.p].inUse ==> k.i <= u)
  }

  ghost predicate SweepOk(s: State) {
    && s.chain <= s.pages.Keys
    && (forall p :: p in s.pages ==> forall u :: u in s.pages[p].inUse ==> u < s.pages[p].size)
    && (forall w :: 0 <= w < |s.sweepers| ==> SweeperOk(s, w))
    && (forall v, w :: 0 <= v < w < |s.sweepers| && !s.sweepers[v].Off? && !s.sweepers[w].Off? ==>
          s.sweepers[v].p != s.sweepers[w].p)
    && (forall c :: 0 <= c < |s.slots| ==> s.slots[c].group < |s.pools|)
    && (forall p :: p in s.pages ==> s.pages[p].group < |s.pools|)
  }

  // No page is lost: it is on the page list or a sweeper has it.
  ghost predicate CoverOk(s: State) {
    forall p :: p in s.pages && p !in s.chain ==> InSweep(s, p)
  }

  ghost predicate InSweep(s: State, p: Page) {
    exists w :: 0 <= w < |s.sweepers| && !s.sweepers[w].Off? && s.sweepers[w].p == p
  }

  ghost predicate Ownership(s: State) {
    ClaimsOk(s) && SweepOk(s)
  }

  ghost predicate Inv(s: State) {
    Ownership(s) && CoverOk(s)
  }

  // ---- claims change hands ---------------------------------------------------------

  // The pages look the same to the claims.
  ghost predicate SamePage(s: State, s': State, p: Page) {
    && (p in s'.pages <==> p in s.pages)
    && (p in s.pages ==> s'.pages[p].runOut == s.pages[p].runOut && s'.pages[p].group == s.pages[p].group)
  }

  ghost predicate SameGroups(s: State, s': State) {
    && |s'.slots| == |s.slots|
    && (forall c :: 0 <= c < |s.slots| ==> s'.slots[c].group == s.slots[c].group)
  }

  lemma ClaimsStay(s: State, s': State)
    requires ClaimsOk(s) && SameGroups(s, s')
    requires forall p :: SamePage(s, s', p)
    requires forall cl, p :: Holds(s', cl, p) <==> Holds(s, cl, p)
    ensures ClaimsOk(s')
  {
    forall p | p in s'.pages && !s'.pages[p].runOut
      ensures exists cl :: Holds(s', cl, p)
    {
      assert SamePage(s, s', p);
      var cl :| Holds(s, cl, p);
      assert Holds(s', cl, p);
    }
    forall p, cl | Holds(s', cl, p)
      ensures p in s'.pages && !s'.pages[p].runOut && GroupOf(s', cl, p) == s'.pages[p].group
    {
      assert Holds(s, cl, p) && SamePage(s, s', p);
    }
  }

  // Only page x changes hands; afterwards `to` is its one owner, or it has none.
  lemma ClaimChanges(s: State, s': State, x: Page, owned: bool, to: Claim)
    requires ClaimsOk(s) && SameGroups(s, s')
    requires forall p :: p != x ==> SamePage(s, s', p)
    requires forall cl, p :: p != x ==> (Holds(s', cl, p) <==> Holds(s, cl, p))
    requires forall cl :: Holds(s', cl, x) <==> owned && cl == to
    requires owned <==> x in s'.pages && !s'.pages[x].runOut
    requires owned ==> Holds(s', to, x) && GroupOf(s', to, x) == s'.pages[x].group
    ensures ClaimsOk(s')
  {
    forall p | p in s'.pages && !s'.pages[p].runOut
      ensures exists cl :: Holds(s', cl, p)
    {
      if p == x {
        assert Holds(s', to, x);
      } else {
        assert SamePage(s, s', p);
        var cl :| Holds(s, cl, p);
        assert Holds(s', cl, p);
      }
    }
    forall p, cl | Holds(s', cl, p)
      ensures p in s'.pages && !s'.pages[p].runOut && GroupOf(s', cl, p) == s'.pages[p].group
    {
      if p != x {
        assert Holds(s, cl, p) && SamePage(s, s', p);
      }
    }
  }

  // ---- cache slots ----------------------------------------------------------------

  lemma AllocateOk(s: State, c: nat, u: nat)
    requires Ownership(s) && Enabled(s, Allocate(c, u))
    ensures Ownership(After(s, Allocate(c, u)))
  {
    var s' := After(s, Allocate(c, u));
    var p := s.slots[c].cache.p;
    assert Holds(s, ByCache(c), p);
    ClaimsStay(s, s');
    forall w | 0 <= w < |s.sweepers|
      ensures SweeperOk(s', w)
    {
      assert SweeperOk(s, w);
    }
  }

  lemma RunOutOk(s: State, c: nat)
    requires Ownership(s) && Enabled(s, RunOut(c))
    ensures Ownership(After(s, RunOut(c)))
  {
    var s' := After(s, RunOut(c));
    var p := s.slots[c].cache.p;
    assert Holds(s, ByCache(c), p);
    forall cl, q
      ensures Holds(s', cl, q) <==> Holds(s, cl, q) && q != p
    {
      assert q == p && Holds(s, cl, q) ==> cl == ByCache(c);
    }
    ClaimChanges(s, s', p, false, ByCache(c));
    forall w | 0 <= w < |s.sweepers|
      ensures SweeperOk(s', w)
    {
      assert SweeperOk(s, w);
    }
  }

  lemma NewPageOk(s: State, c: nat, p: Page, size: nat)
    requires Ownership(s) && Enabled(s, NewPage(c, p, size))
    ensures Ownership(After(s, NewPage(c, p, size)))
  {
    var s' := After(s, NewPage(c, p, size));
    forall cl, q
      ensures Holds(s', cl, q) <==> if q == p then cl == ByCache(c) else Holds(s, cl, q)
    {
      assert Holds(s, cl, q) ==> q in s.pages;
    }
    ClaimChanges(s, s', p, true, ByCache(c));
    forall w | 0 <= w < |s.sweepers|
      ensures SweeperOk(s', w)
    {
      assert SweeperOk(s, w);
    }
  }

  lemma GiveUpOk(s: State, c: nat)
    requires Ownership(s) && Enabled(s, GiveUp(c))
    ensures Ownership(After(s, GiveUp(c)))
  {
    var s' := After(s, GiveUp(c));
    ClaimsStay(s, s');
    forall w | 0 <= w < |s.sweepers|
      ensures SweeperOk(s', w)
    {
      assert SweeperOk(s, w);
    }
  }

  lemma ExitOk(s: State, c: nat)
    requires Ownership(s) && Enabled(s, Exit(c))
    ensures Ownership(After(s, Exit(c)))
  {
    var s' := After(s, Exit(c));
    var p, g := s.slots[c].cache.p, s.slots[c].group;
    assert Holds(s, ByCache(c), p);
    var to := InPool(g, |s.pools[g]|);
    forall cl, q
      ensures Holds(s', cl, q) <==> if q == p then cl == to else Holds(s, cl, q)
    {
      assert q == p && Holds(s, cl, q) ==> cl == ByCache(c);
    }
    ClaimChanges(s, s', p, true, to);
    forall w | 0 <= w < |s.sweepers|
      ensures SweeperOk(s', w)
    {
      assert SweeperOk(s, w);
    }
  }

  lemma PopPoolOk(s: State, c: nat)
    requires Ownership(s) && Enabled(s, PopPool(c))
    ensures Ownership(After(s, PopPool(c)))
  {
    var s' := DoPop(s, c);
    var q := s.pools[s.slots[c].group];
    if q[|q| - 1].Cleared? {
      ClaimsStay(s, s');
    } else {
      PopClaims(s, c);
    }
    forall w | 0 <= w < |s.sweepers|
      ensures SweeperOk(s', w)
    {
      assert SweeperOk(s, w);
    }
  }

  lemma PopClaims(s: State, c: nat)
    requires ClaimsOk(s) && Enabled(s, PopPool(c))
    requires var q := s.pools[s.slots[c].group]; q[|q| - 1].Listed?
    ensures ClaimsOk(DoPop(s, c))
    ensures var q := s.pools[s.slots[c].group]; q[|q| - 1].p in s.pages
  {
    var s' := DoPop(s, c);
    var g := s.slots[c].group;
    var q := s.pools[g];
    var p := q[|q| - 1].p;
    var from := InPool(g, |q| - 1);
    assert Holds(s, from, p);
    var taken := !s.pages[p].flag;
    forall cl, x
      ensures Holds(s', cl, x) <==> if x == p then taken && cl == ByCache(c) else Holds(s, cl, x)
    {
      assert x == p && Holds(s, cl, x) ==> cl == from;
    }
    ClaimChanges(s, s', p, taken, ByCache(c));
  }

  // ---- sweepers ------------------------------------------------------------------------

  lemma StartSweepOk(s: State, w: nat, p: Page)
    requires Ownership(s) && Enabled(s, StartSweep(w, p))
    ensures Ownership(After(s, StartSweep(w, p)))
  {
    var s' := After(s, StartSweep(w, p));
    ClaimsStay(s, s');
    forall x | 0 <= x < |s.sweepers|
      ensures SweeperOk(s', x) && (x != w && !s.sweepers[x].Off? ==> s.sweepers[x].p != p)
    {
      assert SweeperOk(s, x);
    }
  }

  lemma VisitUnitOk(s: State, w: nat, drop: bool)
    requires Ownership(s) && Enabled(s, VisitUnit(w, drop))
    ensures Ownership(After(s, VisitUnit(w, drop)))
  {
    VisitClaims(s, w, drop);
    VisitSweepers(s, w, drop);
  }

  lemma VisitClaims(s: State, w: nat, drop: bool)
    requires ClaimsOk(s) && Enabled(s, VisitUnit(w, drop))
    ensures ClaimsOk(DoVisit(s, w, drop))
  {
    ClaimsStay(s, DoVisit(s, w, drop));
  }

  lemma VisitSweepers(s: State, w: nat, drop: bool)
    requires SweepOk(s) && Enabled(s, VisitUnit(w, drop))
    ensures SweepOk(DoVisit(s, w, drop))
  {
    var s' := DoVisit(s, w, drop);
    forall x | 0 <= x < |s.sweepers|
      ensures SweeperOk(s', x)
    {
      assert SweeperOk(s, x) && SweeperOk(s, w);
    }
  }

  lemma EndSweepOk(s: State, w: nat)
    requires Ownership(s) && Enabled(s, EndSweep(w))
    ensures Ownership(After(s, EndSweep(w)))
  {
    EndClaims(s, w);
    EndSweepers(s, w);
  }

  lemma EndClaims(s: State, w: nat)
    requires Ownership(s) && Enabled(s, EndSweep(w))
    ensures ClaimsOk(DoEnd(s, w))
  {
    var s' := DoEnd(s, w);
    var k := s.sweepers[w];
    var p := k.p;
    assert SweeperOk(s, w);
    if k.runOut && k.freeSpace {
      forall cl, x
        ensures Holds(s', cl, x) <==> if x == p then k.survivor && cl == ByReturn(w) else Holds(s, cl, x)
      {
        assert Holds(s, cl, x) ==> x in s.pages && !s.pages[x].runOut;
      }
      ClaimChanges(s, s', p, k.survivor, ByReturn(w));
    } else {
      ClaimsStay(s, s');
    }
  }

  lemma EndSweepers(s: State, w: nat)
    requires Ownership(s) && Enabled(s, EndSweep(w))
    ensures SweepOk(DoEnd(s, w))
  {
    var s' := DoEnd(s, w);
    assert SweeperOk(s, w);
    forall x | 0 <= x < |s.sweepers|
      ensures SweeperOk(s', x)
    {
      assert SweeperOk(s, x);
    }
  }

  lemma PushPoolOk(s: State, w: nat)
    requires Ownership(s) && Enabled(s, PushPool(w))
    ensures Ownership(After(s, PushPool(w)))
  {
    var s' := After(s, PushPool(w));
    var p := s.sweepers[w].p;
    var g := s.pages[p].group;
    var to := InPool(g, |s.pools[g]|);
    assert Holds(s, ByReturn(w), p);
    forall cl, x
      ensures Holds(s', cl, x) <==> if x == p then cl == to else Holds(s, cl, x)
    {
      assert x == p && Holds(s, cl, x) ==> cl == ByReturn(w);
    }
    ClaimChanges(s, s', p, true, to);
    forall x | 0 <= x < |s.sweepers|
      ensures SweeperOk(s', x)
    {
      assert SweeperOk(s, x);
    }
  }

  lemma RemoveFlaggedOk(s: State, g: nat, k: nat)
    requires Ownership(s) && Enabled(s, RemoveFlagged(g, k))
    ensures Ownership(After(s, RemoveFlagged(g, k)))
  {
    var s' := After(s, RemoveFlagged(g, k));
    var p := s.pools[g][k].p;
    assert Holds(s, InPool(g, k), p);
    forall cl, x
      ensures Holds(s', cl, x) <==> Holds(s, cl, x) && x != p
    {
      assert x == p && Holds(s, cl, x) ==> cl == InPool(g, k);
    }
    ClaimChanges(s, s', p, false, InPool(g, k));
    forall x | 0 <= x < |s.sweepers|
      ensures SweeperOk(s', x)
    {
      assert SweeperOk(s, x);
    }
  }

  lemma RejoinOk(s: State, w: nat)
    requires Ownership(s) && Enabled(s, Rejoin(w))
    ensures Ownership(After(s, Rejoin(w)))
  {
    var s' := After(s, Rejoin(w));
    assert SweeperOk(s, w);
    ClaimsStay(s, s');
    forall x | 0 <= x < |s.sweepers|
      ensures SweeperOk(s', x)
    {
      assert SweeperOk(s, x);
    }
  }

  lemma CoverStep(s: State, step: Step)
    requires Inv(s) && Enabled(s, step)
    ensures CoverOk(After(s, step))
  {
    var s' := After(s, step);
    forall p | p in s'.pages && p !in s'.chain
      ensures InSweep(s', p)
    {
      if step.StartSweep? && p == step.p {
        assert s'.sweepers[step.w].p == p;
      } else {
        var w :| 0 <= w < |s.sweepers| && !s.sweepers[w].Off? && s.sweepers[w].p == p;
        assert !s'.sweepers[w].Off? && s'.sweepers[w].p == p;
      }
    }
  }

  lemma StepOk(s: State, step: Step)
    requires Inv(s) && Enabled(s, step)
    ensures Inv(After(s, step))
  {
    CoverStep(s, step);
    match step {
      case Allocate(c, u) => AllocateOk(s, c, u);
      case RunOut(c) => RunOutOk(s, c);
      case PopPool(c) => PopPoolOk(s, c);
      case NewPage(c, p, size) => NewPageOk(s, c, p, size);
      case GiveUp(c) => GiveUpOk(s, c);
      case Exit(c) => ExitOk(s, c);
      case StartSweep(w, p) => StartSweepOk(s, w, p);
      case VisitUnit(w, drop) => VisitUnitOk(s, w, drop);
      case EndSweep(w) => EndSweepOk(s, w);
      case PushPool(w) => PushPoolOk(s, w);
      case Rejoin(w) => RejoinOk(s, w);
      case RemoveFlagged(g, k) => RemoveFlaggedOk(s, g, k);
    }
  }

  // ---- runs ------------------------------------------------------------------------------

  // Empty caches, empty pools, idle sweepers, no page taken yet.
  ghost predicate IsInit(s: State) {
    && s.pages == map[] && s.chain == {}
    && (forall c :: 0 <= c < |s.slots| ==> s.slots[c].cache.Empty? && s.slots[c].group < |s.pools|)
    && (forall g :: 0 <= g < |s.pools| ==> s.pools[g] == [])
    && (forall w :: 0 <= w < |s.sweepers| ==> s.sweepers[w].Off?)
  }

  ghost predicate Next(s: State, s': State) {
    exists step :: Enabled(s, step) && s' == After(s, step)
  }

  // The run takes a step at i.
  ghost predicate StepAt(run: seq<State>, i: nat) {
    i + 1 < |run| && Next(run[i], run[i + 1])
  }

  ghost predicate IsRun(run: seq<State>) {
    && |run| > 0 && IsInit(run[0])
    && forall i :: 0 <= i < |run| - 1 ==> StepAt(run, i)
  }

  lemma {:induction false} RunOk(run: seq<State>, i: nat)
    requires IsRun(run) && i < |run|
    ensures Inv(run[i])
  {
    if i > 0 {
      RunOk(run, i - 1);
      assert StepAt(run, i - 1);
      var step :| Enabled(run[i - 1], step) && run[i] == After(run[i - 1], step);
      StepOk(run[i - 1], step);
    }
  }

  // In every run: a page is in at most one cache or pool, at most once, and in
  // the pool of its own size group; it is in one of them, or in the hand of a
  // sweeper about to put it there, exactly when m_run_out is clear.
  lemma OneOwner(run: seq<State>, i: nat, p: Page)
    requires IsRun(run) && i < |run|
    ensures forall cl, cl' :: Holds(run[i], cl, p) && Holds(run[i], cl', p) ==> cl == cl'
    ensures (exists cl :: Holds(run[i], cl, p)) <==> p in run[i].pages && !run[i].pages[p].runOut
    ensures forall cl :: Holds(run[i], cl, p) ==> p in run[i].pages && GroupOf(run[i], cl, p) == run[i].pages[p].group
  {
    RunOk(run, i);
  }

  // In every run: with no sweep under way, the page list holds every page.
  lemma ListHoldsEveryPage(run: seq<State>, i: nat)
    requires IsRun(run) && i < |run|
    requires forall w :: 0 <= w < |run[i].sweepers| ==> run[i].sweepers[w].Off?
    ensures run[i].chain == run[i].pages.Keys
  {
    RunOk(run, i);
    assert forall p :: p in run[i].pages ==> !InSweep(run[i], p);
  }

  // In every run: a sweeper gives a page back to the chunk only when no cache
  // and no pool has it and every unit on it is RELEASED.
  lemma GivenBackOnlyWhenFree(run: seq<State>, i: nat, w: nat)
    requires IsRun(run) && i < |run|
    requires Enabled(run[i], EndSweep(w)) && GivesBack(run[i].sweepers[w])
    ensures forall cl :: !Holds(run[i], cl, run[i].sweepers[w].p)
    ensures run[i].pages[run[i].sweepers[w].p].inUse == {}
  {
    RunOk(run, i);
    var s := run[i];
    assert SweeperOk(s, w);
    var pg := s.pages[s.sweepers[w].p];
    assert forall u :: u in pg.inUse ==> u < pg.size && pg.size <= u;
  }

  // A page that has run out, on which nothing is in use, and that no sweep in
  // progress is going to hand back to the pool or the chunk.
  ghost predicate Forgotten(s: State, p: Page) {
    && p in s.pages && s.pages[p].runOut && s.pages[p].inUse == {}
    && forall w :: 0 <= w < |s.sweepers| && s.sweepers[w].Sweeping? && s.sweepers[w].p == p ==>
         !(s.sweepers[w].runOut && s.sweepers[w].freeSpace)
  }

  lemma StaysForgotten(s: State, step: Step, p: Page)
    requires Inv(s) && Enabled(s, step) && Forgotten(s, p)
    ensures Forgotten(After(s, step), p)
  {
    assert forall cl :: !Holds(s, cl, p);
    match step {
      case Allocate(c, u) => assert !Holds(s, ByCache(c), p);
      case PushPool(w) => assert !Holds(s, ByReturn(w), p);
      case _ =>
    }
  }

  // In every run: once a page has run out and is empty without a sweep having
  // seen it become so, it stays that way. It is never allocated from again, never
  // in a cache or pool, and never given back to the chunk.
  lemma {:induction false} EmptyRunOutPageIsLost(run: seq<State>, i: nat, j: nat, p: Page)
    requires IsRun(run) && i <= j < |run| && Forgotten(run[i], p)
    ensures Forgotten(run[j], p) && forall cl :: !Holds(run[j], cl, p)
    decreases j - i
  {
    RunOk(run, j);
    if i < j {
      EmptyRunOutPageIsLost(run, i, j - 1, p);
      RunOk(run, j - 1);
      assert StepAt(run, j - 1);
      var step :| Enabled(run[j - 1], step) && run[j] == After(run[j - 1], step);
      StaysForgotten(run[j - 1], step, p);
    }
  }

  // One thread, one page with one unit, one sweeper: the page runs out after the
  // sweeper has read m_run_out and before it frees the unit.
  function RunsOutLate(k: nat): State {
    var full := PageState(0, 1, false, false, {0});
    var s := State(map[], {}, [Slot(0, Empty)], [[]], [Off]);
    if k == 0 then s
    else if k == 1 then s.(pages := map[0 := full.(inUse := {})], chain := {0}, slots := [Slot(0, Owns(0))])
    else if k == 2 then s.(pages := map[0 := full], chain := {0}, slots := [Slot(0, Owns(0))])
    else if k == 3 then
      s.(pages := map[0 := full], slots := [Slot(0, Owns(0))], sweepers := [Sweeping(0, false, 0, false, false)])
    else if k == 4 then
      s.(pages := map[0 := full.(runOut := true)], slots := [Slot(0, Starved(0))],
         sweepers := [Sweeping(0, false, 0, false, false)])
    else
      s.(pages := map[0 := full.(runOut := true, inUse := {})], slots := [Slot(0, Starved(0))],
         sweepers := [Sweeping(0, false, 1, false, true)])
  }

  lemma RunsOutLateStep(k: nat)
    requires k < 5
    ensures Next(RunsOutLate(k), RunsOutLate(k + 1))
  {
    var step :=
      if k == 0 then NewPage(0, 0, 1) else if k == 1 then Allocate(0, 0) else if k == 2 then StartSweep(0, 0)
      else if k == 3 then RunOut(0) else VisitUnit(0, true);
    assert Enabled(RunsOutLate(k), step);
    var s, s' := After(RunsOutLate(k), step), RunsOutLate(k + 1);
    assert s.pages[0].inUse == s'.pages[0].inUse;
    assert s.pages == s'.pages && s.chain == s'.chain && s.slots == s'.slots && s.sweepers == s'.sweepers;
  }

  lemma PageGetsLost() returns (run: seq<State>)
    ensures IsRun(run) && Forgotten(run[|run| - 1], 0)
  {
    run := seq(6, k requires 0 <= k => RunsOutLate(k));
    forall k | 0 <= k < |run| - 1
      ensures StepAt(run, k)
    {
      RunsOutLateStep(k);
    }
  }

  // ---- what becomes of a page ------------------------------------------------------------

  // A sweeper's look at one unit: a released unit changes nothing, a dropped one
  // leaves free space, a kept one is a survivor.
  lemma VisitOutcome(s: State, w: nat, drop: bool)
    requires Inv(s) && Enabled(s, VisitUnit(w, drop))
    ensures var k, s' := s.sweepers[w], After(s, VisitUnit(w, drop));
            && k.p in s'.pages
            && s'.sweepers[w] == k.(i := k.i + 1, survivor := k.survivor || (k.i in s.pages[k.p].inUse && !drop),
                                    freeSpace := k.freeSpace || (k.i in s.pages[k.p].inUse && drop))
            && (forall u :: u in s'.pages[k.p].inUse <==> u in s.pages[k.p].inUse && !(u == k.i && drop))
  {
  }

  // The end of a pass. A page nobody owned goes back to the chunk if a unit was
  // freed and none survived, and to the pool of its group if a unit was freed and
  // some survived; a page somebody owns is flagged if nothing survived.
  lemma PassOutcome(s: State, w: nat)
    requires Inv(s) && Enabled(s, EndSweep(w))
    ensures var k, s' := s.sweepers[w], After(s, EndSweep(w));
            && (k.p in s'.pages <==> !(k.runOut && k.freeSpace && !k.survivor))
            && (k.runOut && k.freeSpace && k.survivor ==> !s'.pages[k.p].runOut && Holds(s', ByReturn(w), k.p))
            && (k.p in s'.pages ==>
                  s'.pages[k.p].flag == (s.pages[k.p].flag || (!k.runOut && !k.survivor)))
            && (k.p in s'.pages && !(k.runOut && k.freeSpace) ==>
                  s'.sweepers[w] == Rejoining(k.p) && s'.pages[k.p].runOut == s.pages[k.p].runOut)
  {
    assert SweeperOk(s, w);
  }

  // A page in the sweeper's hand reaches the pool of its group, and every page the
  // sweeper keeps reaches the page list.
  lemma ReturnReachesPool(s: State, w: nat)
    requires Inv(s) && w < |s.sweepers|
    ensures s.sweepers[w].Returning? ==>
              && Enabled(s, PushPool(w))
              && var p, s' := s.sweepers[w].p, After(s, PushPool(w));
              && Holds(s', InPool(s.pages[p].group, |s.pools[s.pages[p].group]|), p)
              && s'.sweepers[w] == Rejoining(p)
    ensures s.sweepers[w].Rejoining? ==>
              && Enabled(s, Rejoin(w))
              && s.sweepers[w].p in After(s, Rejoin(w)).chain && After(s, Rejoin(w)).sweepers[w].Off?
    ensures s.sweepers[w].Sweeping? ==> Enabled(s, EndSweep(w)) || forall drop :: Enabled(s, VisitUnit(w, drop))
  {
    assert SweeperOk(s, w);
  }

  // What a thread gets from the pool: the page of the last entry, unless that has
  // been cleared or is flagged; a flagged page leaves the pool as run out.
  lemma PoolAnswer(s: State, c: nat)
    requires Inv(s) && Enabled(s, PopPool(c))
    ensures var g, s' := s.slots[c].group, After(s, PopPool(c));
            var q := s.pools[g];
            var x := q[|q| - 1];
            && s'.pools[g] == q[..|q| - 1]
            && (x.Cleared? ==> s'.slots == s.slots && s'.pages == s.pages)
            && (x.Listed? ==>
                  && x.p in s.pages && x.p in s'.pages && !s'.pages[x.p].flag
                  && (if s.pages[x.p].flag then s'.slots == s.slots && s'.pages[x.p].runOut
                      else s'.slots[c] == Slot(g, Owns(x.p)) && s'.pages == s.pages))
  {
    var g := s.slots[c].group;
    var q := s.pools[g];
    if q[|q| - 1].Listed? {
      assert Holds(s, InPool(g, |q| - 1), q[|q| - 1].p);
    }
  }

  // A thread that has run out goes on to another page or to none, and a page it
  // gives up has run out.
  lemma RunOutOutcome(s: State, c: nat)
    requires Inv(s) && c < |s.slots|
    ensures s.slots[c].cache.Owns? ==>
              && Enabled(s, RunOut(c)) && Enabled(s, Exit(c))
              && After(s, RunOut(c)).pages[s.slots[c].cache.p].runOut
              && After(s, RunOut(c)).slots[c].cache == Starved(s.slots[c].cache.p)
    ensures s.slots[c].cache.Owns? ==> forall u: nat ::
              var pg := s.pages[s.slots[c].cache.p];
              Enabled(s, Allocate(c, u)) <==> u < pg.size && u !in pg.inUse
    ensures !s.slots[c].cache.Owns? ==> Enabled(s, GiveUp(c)) && After(s, GiveUp(c)).slots[c].cache.Empty?
    ensures !s.slots[c].cache.Owns? ==> (Enabled(s, PopPool(c)) <==> s.pools[s.slots[c].group] != [])
  {
    if s.slots[c].cache.Owns? {
      assert Holds(s, ByCache(c), s.slots[c].cache.p);
    }
  }

  // How a pass begins, and how a page comes into use.
  lemma BeginningsAreClean(s: State, w: nat, c: nat, p: Page, size: nat, u: nat)
    requires Inv(s)
    ensures Enabled(s, StartSweep(w, p)) ==>
              After(s, StartSweep(w, p)).sweepers[w] == Sweeping(p, s.pages[p].runOut, 0, false, false)
    ensures Enabled(s, NewPage(c, p, size)) ==>
              && var s' := After(s, NewPage(c, p, size));
              && p in s'.pages && s'.pages[p].inUse == {} && s'.pages[p].size == size && !s'.pages[p].flag
              && s'.slots[c].cache == Owns(p) && p in s'.chain
    ensures Enabled(s, Allocate(c, u)) ==>
              After(s, Allocate(c, u)).pages[s.slots[c].cache.p].inUse == s.pages[s.slots[c].cache.p].inUse + {u}
  {
  }

  // A flagged page found in a pool leaves it as run out, and its entry is cleared.
  lemma FlaggedLeaves(s: State, g: nat, k: nat)
    requires Inv(s) && g < |s.pools| && k < |s.pools[g]| && s.pools[g][k].Listed?
    ensures s.pools[g][k].p in s.pages
    ensures Enabled(s, RemoveFlagged(g, k)) <==> s.pages[s.pools[g][k].p].flag
    ensures Enabled(s, RemoveFlagged(g, k)) ==>
              var p, s' := s.pools[g][k].p, After(s, RemoveFlagged(g, k));
              s'.pools[g][k].Cleared? && p in s'.pages && s'.pages[p].runOut && !s'.pages[p].flag
  {
    assert Holds(s, InPool(g, k), s.pools[g][k].p);
  }
}
