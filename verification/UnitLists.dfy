/**
 The units of one page (`pick_unit_from_page_without_init`,
 `drop_freed_unit_into_page`). The owning thread keeps a private list; any
 number of sweeping threads push freed units onto a shared stack with a
 compare-exchange. Both lists thread through the same field of the unit head,
 which in a unit that is handed out holds the unit's own offset instead.

 Units are numbered from 1, 0 is the null offset. `mine`, `taken` and `stack`
 spell out the lists; the code only has the links.
 */
module UnitLists {

  datatype Owner =
    | Absent             // nobody allocates from the page
    | Ready              // between calls
    | Took(head: nat)    // emptied the freed stack into a register
    | Starved            // found the freed stack empty too, m_run_out not yet stored

  datatype Drop =
    | Freed              // marked RELEASED, not yet linked
    | Linked             // next holds the stack head it saw

  datatype State = State(
    next: seq<nat>,            // m_next_free_unit_offset, entry 0 unused
    alloc: nat,                // m_next_allocate_unit_offset
    freed: nat,                // m_freed_unit_offset
    owner: Owner,
    drops: map<nat, Drop>,     // units on their way to the freed stack
    out: set<nat>,             // units handed out: every life but RELEASED
    mine: seq<nat>,
    taken: seq<nat>,
    stack: seq<nat>)

  // Following the links from head visits exactly the units of l.
  ghost predicate IsList(next: seq<nat>, head: nat, l: seq<nat>) {
    && head == First(l)
    && (forall k :: 0 <= k < |l| ==> Node(next, l, k))
    && (forall i, j :: 0 <= i < j < |l| ==> l[i] != l[j])
  }

  function First(l: seq<nat>): nat {
    if l == [] then 0 else l[0]
  }

  ghost predicate Node(next: seq<nat>, l: seq<nat>, k: nat) {
    && k < |l| && 0 < l[k] < |next|
    && next[l[k]] == if k + 1 < |l| then l[k + 1] else 0
  }

  datatype Step =
    | Acquire             // a thread gets the page
    | Pick                // hand out the first private unit
    | Exchange            // private list empty: take the freed stack
    | Adopt               // make it the private list
    | SeeEmpty            // private list empty: the freed stack is empty as well
    | RunOut              // store m_run_out: give the page up
    | Release(u: nat)     // sweeper: life := RELEASED
    | Load(u: nat)        // sweeper: read the stack head into next
    | CasWin(u: nat)      // sweeper: compare-exchange succeeded
    | CasLose(u: nat)     // sweeper: compare-exchange failed, next reloaded

  predicate Enabled(s: State, step: Step) {
    match step
    case Acquire => s.owner.Absent?
    case Pick => s.owner.Ready? && 0 < s.alloc < |s.next|
    case Exchange => s.owner.Ready? && s.alloc == 0 && s.freed != 0
    case Adopt => s.owner.Took?
    case SeeEmpty => s.owner.Ready? && s.alloc == 0 && s.freed == 0
    case RunOut => s.owner.Starved?
    case Release(u) => u in s.out
    case Load(u) => u in s.drops && s.drops[u].Freed? && u < |s.next|
    case CasWin(u) => u in s.drops && s.drops[u].Linked? && u < |s.next| && s.next[u] == s.freed
    case CasLose(u) => u in s.drops && s.drops[u].Linked? && u < |s.next|
  }

  function After(s: State, step: Step): State
    requires Enabled(s, step)
  {
    match step
    case Acquire => s.(owner := Ready)
    case Pick =>
      s.(alloc := s.next[s.alloc], next := s.next[s.alloc := s.alloc], out := s.out + {s.alloc},
         mine := if s.mine == [] then [] else s.mine[1..])
    case Exchange => s.(freed := 0, owner := Took(s.freed), taken := s.stack, stack := [])
    case Adopt => s.(alloc := s.owner.head, owner := Ready, mine := s.taken, taken := [])
    case SeeEmpty => s.(owner := Starved)
    case RunOut => s.(owner := Absent)
    case Release(u) => s.(out := s.out - {u}, drops := s.drops[u := Freed])
    case Load(u) => s.(next := s.next[u := s.freed], drops := s.drops[u := Linked])
    case CasWin(u) => s.(freed := u, drops := s.drops - {u}, stack := [u] + s.stack)
    case CasLose(u) => s.(next := s.next[u := s.freed])
  }

  // ---- invariant -------------------------------------------------------------

  function Tally(b: bool): nat {
    if b then 1 else 0
  }

  // In how many places u is.
  function Places(s: State, u: nat): nat {
    Tally(u in s.mine) + Tally(u in s.taken) + Tally(u in s.stack) + Tally(u in s.drops) + Tally(u in s.out)
  }

  ghost predicate Inv(s: State) {
    && |s.next| > 0
    && IsList(s.next, s.alloc, s.mine)
    && IsList(s.next, s.freed, s.stack)
    && IsList(s.next, if s.owner.Took? then s.owner.head else 0, s.taken)
    && (s.owner.Took? || s.owner.Starved? ==> s.mine == [])
    && (forall u: nat :: Places(s, u) == if 0 < u < |s.next| then 1 else 0)
    && (forall u :: u in s.out ==> u < |s.next| && s.next[u] == u)
  }

  // A store at a unit outside a list leaves the list alone.
  lemma OtherList(next: seq<nat>, head: nat, l: seq<nat>, u: nat, v: nat)
    requires IsList(next, head, l) && u < |next| && u !in l
    ensures IsList(next[u := v], head, l)
  {
    var next' := next[u := v];
    forall k | 0 <= k < |l|
      ensures Node(next', l, k)
    {
      assert Node(next, l, k);
      assert l[k] in l;
    }
  }

  lemma TailList(next: seq<nat>, head: nat, l: seq<nat>)
    requires IsList(next, head, l) && l != []
    ensures head < |next| && IsList(next, next[head], l[1..])
    ensures head !in l[1..]
  {
    assert Node(next, l, 0);
    var t := l[1..];
    forall k | 0 <= k < |t|
      ensures Node(next, t, k)
    {
      assert Node(next, l, k + 1);
    }
  }

  lemma NullList(next: seq<nat>, l: seq<nat>)
    requires IsList(next, 0, l)
    ensures l == []
  {
    assert l != [] ==> Node(next, l, 0);
  }

  lemma ConsList(next: seq<nat>, u: nat, l: seq<nat>)
    requires 0 < u < |next| && u !in l && IsList(next, next[u], l)
    ensures IsList(next, u, [u] + l)
  {
    var m := [u] + l;
    forall k | 0 <= k < |m|
      ensures Node(next, m, k)
    {
      if k > 0 {
        assert Node(next, l, k - 1);
      }
    }
  }

  // ---- every step -----------------------------------------------------------------

  lemma PickOk(s: State)
    requires Inv(s) && Enabled(s, Pick)
    ensures Inv(After(s, Pick))
  {
    var s' := After(s, Pick);
    var u := s.alloc;
    assert s.mine != [] && u in s.mine;
    assert Places(s, u) == 1;
    TailList(s.next, u, s.mine);
    OtherList(s.next, s.next[u], s.mine[1..], u, u);
    OtherList(s.next, s.freed, s.stack, u, u);
    OtherList(s.next, First(s.taken), s.taken, u, u);
    assert s.mine == [u] + s.mine[1..];
    forall x
      ensures Places(s', x) == Places(s, x)
    {
      assert x in s.mine <==> x == u || x in s.mine[1..];
    }
  }

  lemma RelinkOk(s: State, u: nat, d: Drop)
    requires Inv(s) && u in s.drops && u < |s.next|
    ensures Inv(s.(next := s.next[u := s.freed], drops := s.drops[u := d]))
  {
    var s' := s.(next := s.next[u := s.freed], drops := s.drops[u := d]);
    assert Places(s, u) == 1;
    OtherList(s.next, s.alloc, s.mine, u, s.freed);
    OtherList(s.next, s.freed, s.stack, u, s.freed);
    OtherList(s.next, First(s.taken), s.taken, u, s.freed);
    forall x
      ensures Places(s', x) == Places(s, x)
    {
    }
    assert u !in s.out;
  }

  lemma CasWinOk(s: State, u: nat)
    requires Inv(s) && Enabled(s, CasWin(u))
    ensures Inv(After(s, CasWin(u)))
  {
    var s' := After(s, CasWin(u));
    assert Places(s, u) == 1;
    ConsList(s.next, u, s.stack);
    forall x
      ensures Places(s', x) == Places(s, x)
    {
    }
  }

  lemma ReleaseOk(s: State, u: nat)
    requires Inv(s) && Enabled(s, Release(u))
    ensures Inv(After(s, Release(u)))
  {
    var s' := After(s, Release(u));
    forall x
      ensures Places(s', x) == Places(s, x)
    {
      assert Places(s, u) >= 1;
    }
  }

  lemma OwnerStepOk(s: State, step: Step)
    requires Inv(s) && Enabled(s, step)
    requires step.Acquire? || step.Exchange? || step.Adopt? || step.SeeEmpty? || step.RunOut?
    ensures Inv(After(s, step))
  {
    var s' := After(s, step);
    if step.SeeEmpty? {
      NullList(s.next, s.mine);
    }
    if step.Exchange? {
      NullList(s.next, s.mine);
      NullList(s.next, s.taken);
    }
    assert step.Adopt? ==> s.mine == [];
    forall x
      ensures Places(s', x) == Places(s, x)
    {
    }
  }

  lemma StepOk(s: State, step: Step)
    requires Inv(s) && Enabled(s, step)
    ensures Inv(After(s, step)) && |After(s, step).next| == |s.next|
  {
    match step {
      case Pick => PickOk(s);
      case Release(u) => ReleaseOk(s, u);
      case Load(u) => RelinkOk(s, u, Linked);
      case CasLose(u) =>
        RelinkOk(s, u, Linked);
        assert s.drops[u := Linked] == s.drops;
      case CasWin(u) => CasWinOk(s, u);
      case _ => OwnerStepOk(s, step);
    }
  }

  // ---- a fresh page ------------------------------------------------------------

  // Byte offset of unit i from the page's allocation head.
  function Offset(i: nat, stride: nat): nat {
    if i == 0 then 8 else Offset(i - 1, stride) + stride
  }

  lemma {:induction false} OffsetValue(i: nat, stride: nat)
    ensures Offset(i, stride) == 8 + i * stride
  {
    if i > 0 {
      OffsetValue(i - 1, stride);
      assert i * stride == (i - 1) * stride + stride;
    }
  }

  // Every unit offset fits the 16-bit link field and is not the null offset.
  lemma OffsetsFit(i: nat, stride: nat, count: nat)
    requires i < count && count * stride <= 32736
    ensures 0 < Offset(i, stride) < 0x1_0000
  {
    OffsetValue(i, stride);
    assert i * stride <= count * stride by {
      assert (count - i) * stride >= 0;
      assert count * stride == i * stride + (count - i) * stride;
    }
  }

  // The loop of init_page_for_unit_allocating: each unit links to the next.
  method InitPage(links: array<nat>, stride: nat)
    modifies links
    ensures forall i :: 0 <= i < links.Length ==>
              links[i] == if i + 1 < links.Length then Offset(i + 1, stride) else 0
  {
    var offset := 8;
    for i := 0 to links.Length
      invariant offset == Offset(i, stride)
      invariant forall j :: 0 <= j < i ==>
                  links[j] == if j + 1 < links.Length then Offset(j + 1, stride) else 0
    {
      offset := offset + stride;
      links[i] := if i + 1 < links.Length then offset else 0;
    }
  }

  // The same page with units numbered from 1 in place of their offsets.
  function Init(count: nat): State {
    State(seq(count + 1, u requires 0 <= u => if 0 < u < count then u + 1 else 0), if count == 0 then 0 else 1, 0,
          Ready, map[], {}, seq(count, i requires 0 <= i => i + 1), [], [])
  }

  lemma InitOk(count: nat)
    ensures Inv(Init(count))
  {
    var s := Init(count);
    forall k | 0 <= k < |s.mine|
      ensures Node(s.next, s.mine, k)
    {
    }
    forall u: nat
      ensures Places(s, u) == if 0 < u < |s.next| then 1 else 0
    {
      if 0 < u < |s.next| {
        assert s.mine[u - 1] == u;
      }
    }
  }

  // ---- runs ----------------------------------------------------------------------

  ghost predicate Next(s: State, s': State) {
    exists step :: Enabled(s, step) && s' == After(s, step)
  }

  // The run takes a step at i.
  ghost predicate StepAt(run: seq<State>, i: nat) {
    i + 1 < |run| && Next(run[i], run[i + 1])
  }

  ghost predicate IsRun(count: nat, run: seq<State>) {
    && |run| > 0 && run[0] == Init(count)
    && forall i :: 0 <= i < |run| - 1 ==> StepAt(run, i)
  }

  lemma {:induction false} RunOk(count: nat, run: seq<State>, i: nat)
    requires IsRun(count, run) && i < |run|
    ensures Inv(run[i]) && |run[i].next| == count + 1
  {
    if i == 0 {
      InitOk(count);
    } else {
      RunOk(count, run, i - 1);
      assert StepAt(run, i - 1);
      var step :| Enabled(run[i - 1], step) && run[i] == After(run[i - 1], step);
      StepOk(run[i - 1], step);
    }
  }

  // In every run each unit is in exactly one place, and the links of both
  // lists end after finitely many distinct units.
  lemma UnitsAreConserved(count: nat, run: seq<State>, i: nat, u: nat)
    requires IsRun(count, run) && i < |run| && 1 <= u <= count
    ensures Places(run[i], u) == 1
    ensures IsList(run[i].next, run[i].alloc, run[i].mine) && IsList(run[i].next, run[i].freed, run[i].stack)
    ensures u in run[i].out ==> u < |run[i].next| && run[i].next[u] == u
  {
    RunOk(count, run, i);
  }

  // The unit picked next is a unit of the page that nobody has: no unit is
  // handed out twice, and the assertion that it is RELEASED never fails.
  lemma NeverHandedOutTwice(count: nat, run: seq<State>, i: nat)
    requires IsRun(count, run) && i < |run| && Enabled(run[i], Pick)
    ensures 1 <= run[i].alloc <= count
    ensures run[i].alloc !in run[i].out && run[i].alloc !in run[i].drops && run[i].alloc !in run[i].stack
  {
    RunOk(count, run, i);
    var s := run[i];
    assert s.alloc in s.mine;
    assert Places(s, s.alloc) == 1;
  }

  // Every unit is handed out or still on its way back.
  predicate NothingFree(s: State, count: nat) {
    forall u :: 1 <= u <= count ==> u in s.out || u in s.drops
  }

  // When the owner finds both lists empty, no unit of the page is free.
  lemma EmptyMeansNothingFree(count: nat, run: seq<State>, i: nat)
    requires IsRun(count, run) && i < |run| && Enabled(run[i], SeeEmpty)
    ensures NothingFree(run[i], count)
  {
    RunOk(count, run, i);
    var s := run[i];
    NullList(s.next, s.mine);
    NullList(s.next, s.stack);
    NullList(s.next, s.taken);
    forall u: nat | 1 <= u <= count
      ensures u in s.out || u in s.drops
    {
      assert Places(s, u) == 1;
    }
  }

  // The store of m_run_out comes later. By then units may have come back, but
  // only onto the freed stack, where the next owner finds them.
  lemma GivenUpKeepsFreedUnits(count: nat, run: seq<State>, i: nat)
    requires IsRun(count, run) && i < |run| && Enabled(run[i], RunOut)
    ensures forall u :: 1 <= u <= count ==> u in run[i].out || u in run[i].drops || u in run[i].stack
    ensures NothingFree(run[i], count) <==> run[i].freed == 0
  {
    RunOk(count, run, i);
    var s := run[i];
    NullList(s.next, s.taken);
    forall u: nat | 1 <= u <= count
      ensures u in s.out || u in s.drops || u in s.stack
    {
      assert Places(s, u) == 1;
    }
    if s.freed == 0 {
      NullList(s.next, s.stack);
    } else {
      assert Node(s.next, s.stack, 0);
      assert s.freed in s.stack && Places(s, s.freed) == 1;
    }
  }

  // A sweeper completes its push.
  ghost predicate Pushes(s: State, s': State) {
    exists u :: Enabled(s, CasWin(u)) && s' == After(s, CasWin(u))
  }

  lemma StarvedStep(s: State, s': State)
    requires Next(s, s') && s.owner.Starved? && s'.owner.Starved?
    ensures if Pushes(s, s') then |s'.stack| == |s.stack| + 1 else s'.stack == s.stack
  {
    var step :| Enabled(s, step) && s' == After(s, step);
    if step.CasWin? {
      assert Pushes(s, s');
    }
  }

  lemma {:induction false} StarvedStack(count: nat, run: seq<State>, i: nat, j: nat)
    requires IsRun(count, run) && i <= j < |run|
    requires forall k :: i <= k <= j ==> run[k].owner.Starved?
    ensures |run[i].stack| <= |run[j].stack|
    ensures |run[i].stack| == |run[j].stack| <==> forall k :: i <= k < j ==> !Pushes(run[k], run[k + 1])
    decreases j - i
  {
    if i < j {
      StarvedStack(count, run, i, j - 1);
      assert StepAt(run, j - 1);
      StarvedStep(run[j - 1], run[j]);
    }
  }

  // The page is given up with nothing free exactly when no sweeper completed a
  // push between the owner's look and its store.
  lemma GivenUpTooEarly(count: nat, run: seq<State>, i: nat, j: nat)
    requires IsRun(count, run) && i < j < |run|
    requires Enabled(run[i], SeeEmpty) && run[i + 1] == After(run[i], SeeEmpty)
    requires forall k :: i < k <= j ==> run[k].owner.Starved?
    ensures NothingFree(run[j], count) <==> forall k :: i < k < j ==> !Pushes(run[k], run[k + 1])
  {
    RunOk(count, run, i);
    RunOk(count, run, j);
    NullList(run[i].next, run[i].stack);
    StarvedStack(count, run, i + 1, j);
    GivenUpKeepsFreedUnits(count, run, j);
    if run[j].freed == 0 {
      NullList(run[j].next, run[j].stack);
    }
  }

  // A page of one unit: it is picked, the owner comes back and finds nothing,
  // the sweeper frees the unit, and only then is m_run_out stored.
  function LateStore(k: nat): State {
    if k == 0 then State([0, 0], 1, 0, Ready, map[], {}, [1], [], [])
    else if k == 1 then State([0, 1], 0, 0, Ready, map[], {1}, [], [], [])
    else if k == 2 then State([0, 1], 0, 0, Starved, map[], {1}, [], [], [])
    else if k == 3 then State([0, 1], 0, 0, Starved, map[1 := Freed], {}, [], [], [])
    else if k == 4 then State([0, 0], 0, 0, Starved, map[1 := Linked], {}, [], [], [])
    else State([0, 0], 0, 1, Starved, map[], {}, [], [], [1])
  }

  lemma LateStoreStep(k: nat)
    requires k < 5
    ensures Next(LateStore(k), LateStore(k + 1))
  {
    var step :=
      if k == 0 then Pick else if k == 1 then SeeEmpty else if k == 2 then Release(1)
      else if k == 3 then Load(1) else CasWin(1);
    assert Enabled(LateStore(k), step) && LateStore(k + 1) == After(LateStore(k), step);
  }

  lemma PageGivenUpWithFreeUnit() returns (run: seq<State>)
    ensures IsRun(1, run) && Enabled(run[|run| - 1], RunOut) && !NothingFree(run[|run| - 1], 1)
  {
    run := seq(6, k requires 0 <= k => LateStore(k));
    assert run[0] == Init(1);
    forall k | 0 <= k < |run| - 1
      ensures StepAt(run, k)
    {
      LateStoreStep(k);
    }
    assert 1 !in run[5].out && 1 !in run[5].drops;
  }

  // ---- what the owner and the sweepers get --------------------------------------------

  // The owner hands out its first private unit if it has one, takes the freed
  // stack if not, and gives up only if both are empty; nobody is ever stuck.
  lemma NeverStuck(s: State, u: nat)
    requires Inv(s)
    ensures s.owner.Ready? ==>
              && (Enabled(s, Pick) <==> s.mine != [])
              && (Enabled(s, Exchange) <==> s.mine == [] && s.stack != [])
              && (Enabled(s, SeeEmpty) <==> s.mine == [] && s.stack == [])
    ensures s.owner.Absent? ==> Enabled(s, Acquire)
    ensures s.owner.Took? ==> Enabled(s, Adopt)
    ensures s.owner.Starved? ==> Enabled(s, RunOut)
    ensures u in s.out ==> Enabled(s, Release(u))
    ensures u in s.drops && s.drops[u].Freed? ==> Enabled(s, Load(u))
    ensures u in s.drops && s.drops[u].Linked? ==>
              Enabled(s, CasLose(u)) && (Enabled(s, CasWin(u)) <==> s.next[u] == s.freed)
  {
    assert s.mine != [] ==> Node(s.next, s.mine, 0);
    assert s.stack != [] ==> Node(s.next, s.stack, 0);
    assert u in s.drops ==> Places(s, u) >= 1;
  }

  // The pick takes the first private unit and nothing else.
  lemma PickTakesFirst(s: State)
    requires Inv(s) && Enabled(s, Pick)
    ensures s.mine != [] && s.alloc == s.mine[0]
    ensures After(s, Pick).out == s.out + {s.mine[0]} && After(s, Pick).mine == s.mine[1..]
    ensures After(s, Pick).stack == s.stack && After(s, Pick).drops == s.drops
  {
  }

  // Everything on the freed stack becomes private, in order, at one go.
  lemma FreedComeBack(s: State)
    requires Inv(s) && Enabled(s, Exchange)
    ensures Enabled(After(s, Exchange), Adopt) && After(s, Exchange).stack == []
    ensures After(After(s, Exchange), Adopt).mine == s.stack && After(After(s, Exchange), Adopt).owner.Ready?
    ensures Enabled(After(After(s, Exchange), Adopt), Pick)
  {
    StepOk(s, Exchange);
    StepOk(After(s, Exchange), Adopt);
    NeverStuck(After(After(s, Exchange), Adopt), 0);
    assert s.stack != [] by {
      NeverStuck(s, 0);
    }
  }

  // With nobody in between, a freed unit is pushed at the first try, and a page
  // that has run out is up for another owner.
  lemma FirstTryWins(s: State, u: nat)
    requires Inv(s)
    ensures Enabled(s, Load(u)) ==> Enabled(After(s, Load(u)), CasWin(u))
    ensures Enabled(s, CasLose(u)) ==> Enabled(After(s, CasLose(u)), CasWin(u))
    ensures Enabled(s, RunOut) ==> After(s, RunOut).owner.Absent?
    ensures Enabled(s, Acquire) ==> After(s, Acquire).owner.Ready?
  {
  }

  // A push that wins puts the unit in front of what was there.
  lemma PushGoesInFront(s: State, u: nat)
    requires Inv(s) && Enabled(s, CasWin(u))
    ensures After(s, CasWin(u)).stack == [u] + s.stack && u !in After(s, CasWin(u)).drops
  {
  }
}
