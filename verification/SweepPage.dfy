/**
 Sweeping one page (`sweep_units_in_page` and `check_and_free_unmarked_unit`):
 one pass over the unit heads of a page, the live-size counter, and what is
 done with the page afterwards.
 */
module SweepPage {
  import opened Tricolour
  import opened SizeClasses
  import C = Chunk

  const PAGE_OVERHEAD: nat := 32    // PageHead and PageUnitAlloc

  datatype Fate =
    | Rejoin              // back on the page list
    | RejoinAndPool       // also handed to the global pool, m_run_out cleared
    | RejoinAndFlag       // also flagged as run out for whoever finds it in the pool
    | ReturnToChunk            // returned to the chunk

  // Units that are not RELEASED.
  function Survivors(heads: seq<Head>): (n: nat)
    ensures n <= |heads|
  {
    if heads == [] then 0
    else Survivors(heads[..|heads| - 1]) + (if heads[|heads| - 1].life.Released? then 0 else 1)
  }

  // Bytes a normal page keeps in use.
  function LiveSize(heads: seq<Head>, unitSizeWithHead: nat): nat {
    if Survivors(heads) == 0 then 0 else Survivors(heads) * unitSizeWithHead + PAGE_OVERHEAD
  }

  lemma {:induction false} NoSurvivors(heads: seq<Head>)
    ensures Survivors(heads) == 0 <==> forall i :: 0 <= i < |heads| ==> heads[i].life.Released?
  {
    if heads != [] {
      NoSurvivors(heads[..|heads| - 1]);
      assert forall i :: 0 <= i < |heads| - 1 ==> heads[..|heads| - 1][i] == heads[i];
    }
  }

  // The units of a page that are not RELEASED.
  function InUse(heads: seq<Head>): set<nat> {
    set i: nat | i < |heads| && !heads[i].life.Released?
  }

  lemma {:induction false} SurvivorsAreUnits(heads: seq<Head>)
    ensures Survivors(heads) == |InUse(heads)|
  {
    if heads != [] {
      var n := |heads| - 1;
      SurvivorsAreUnits(heads[..n]);
      if heads[n].life.Released? {
        assert InUse(heads) == InUse(heads[..n]);
      } else {
        assert InUse(heads) == InUse(heads[..n]) + {n};
      }
    }
  }

  // A page keeps in use a stride for each unit that is not RELEASED, and its own
  // heads if there is such a unit.
  lemma LiveSizeMeans(heads: seq<Head>, unitSizeWithHead: nat)
    ensures InUse(heads) == {} ==> LiveSize(heads, unitSizeWithHead) == 0
    ensures InUse(heads) != {} ==> LiveSize(heads, unitSizeWithHead) == |InUse(heads)| * unitSizeWithHead + 32
  {
    SurvivorsAreUnits(heads);
  }

  // A page on which every unit is in use counts in full.
  lemma FullPageCountsInFull(heads: seq<Head>, g: nat)
    requires g < MAX_GROUP && |heads| == UnitCount(GROUP_SIZE[g])
    requires forall i :: 0 <= i < |heads| ==> !heads[i].life.Released?
    ensures LiveSize(heads, GROUP_SIZE[g] + UNIT_HEAD_SIZE) == C.PAGE_SIZE
  {
    GroupsTileThePage(g);
    AllSurvive(heads);
  }

  lemma {:induction false} AllSurvive(heads: seq<Head>)
    requires forall i :: 0 <= i < |heads| ==> !heads[i].life.Released?
    ensures Survivors(heads) == |heads|
  {
    if heads != [] {
      AllSurvive(heads[..|heads| - 1]);
    }
  }

  function SweptAll(heads: seq<Head>, round: nat): (r: seq<Head>)
    ensures |r| == |heads|
    ensures forall i :: 0 <= i < |r| ==> r[i] == Swept(heads[i], round)
  {
    seq(|heads|, i requires 0 <= i < |heads| => Swept(heads[i], round))
  }

  ghost predicate AnyDropped(heads: seq<Head>, round: nat) {
    exists i :: 0 <= i < |heads| && Dropped(heads[i], round)
  }

  method CheckAndFree(heads: array<Head>, i: nat, round: nat) returns (alive: bool)
    requires i < heads.Length
    modifies heads
    ensures heads[..] == old(heads[..])[i := Swept(old(heads[i]), round)]
    ensures alive <==> !heads[i].life.Released?
    // the unit is dropped
    ensures !alive && !old(heads[i]).life.Released? <==>
              && old(heads[i]).life.Unmarked? && old(heads[i]).needSweep
              && !(old(heads[i]).age == 15 && old(heads[i]).timing == round % 256)
    // a survivor gets one round older and keeps everything else
    ensures alive && Live(old(heads[i])) ==>
              && heads[i].life.Unmarked? && heads[i].needSweep == old(heads[i]).needSweep
              && heads[i].timing == old(heads[i]).timing
              && heads[i].age == if old(heads[i]).age > 0 then old(heads[i]).age - 1 else 0
    // a unit not completed is left alone
    ensures !Live(old(heads[i])) ==> heads[i] == old(heads[i])
  {
    var h := heads[i];
    if h.life.Released? {
      return false;
    }
    if h.life.Pending? {
      return true;
    }
    if h.life.Unmarked? && (h.age != 15 || h.timing != round % 256) && h.needSweep {
      heads[i] := h.(life := Released);
      return false;
    }
    heads[i] := h.(age := if h.age != 0 then h.age - 1 else 0, life := Unmarked);
    return true;
  }

  /**
   Sweep a normal page. `runOut` is m_run_out as read on entry. The counter
   grows by exactly what the page keeps in use, and the page goes back to the
   chunk only if it was owned by nobody, lost a unit in this very pass, and no
   unit on it is left. The heads are those the pass meets: on a page that is
   owned, the owner may have moved on before (`OwnerDoesNotInterfere`).
   */
  method SweepNormal(heads: array<Head>, round: nat, unitSizeWithHead: nat, runOut: bool, counter: nat)
    returns (counter': nat, fate: Fate)
    modifies heads
    ensures heads[..] == SweptAll(old(heads[..]), round)
    ensures counter' == counter + LiveSize(heads[..], unitSizeWithHead)
    ensures fate.ReturnToChunk? <==>
              && runOut && AnyDropped(old(heads[..]), round)
              && forall i :: 0 <= i < heads.Length ==> heads[i].life.Released?
    ensures fate.RejoinAndPool? <==>
              && runOut && AnyDropped(old(heads[..]), round)
              && exists i :: 0 <= i < heads.Length && !heads[i].life.Released?
    ensures fate.RejoinAndFlag? <==> !runOut && forall i :: 0 <= i < heads.Length ==> heads[i].life.Released?
  {
    var hasSurvivor, hasFreeSpace := false, false;
    counter' := counter;
    ghost var was := heads[..];
    for i := 0 to heads.Length
      invariant heads[..i] == SweptAll(was[..i], round)
      invariant forall j :: i <= j < heads.Length ==> heads[j] == was[j]
      invariant counter' == counter + Survivors(heads[..i]) * unitSizeWithHead
      invariant hasSurvivor <==> Survivors(heads[..i]) > 0
      invariant hasFreeSpace <==> AnyDropped(was[..i], round)
    {
      assert heads[i] == was[i];
      SweepExtends(was, i, round, unitSizeWithHead);
      if !heads[i].life.Released? {
        var alive := CheckAndFree(heads, i, round);
        if alive {
          hasSurvivor := true;
          counter' := counter' + unitSizeWithHead;
        } else {
          hasFreeSpace := true;
        }
      }
      assert heads[..i + 1] == heads[..i] + [heads[i]];
    }
    assert was[..heads.Length] == was && heads[..heads.Length] == heads[..];
    NoSurvivors(heads[..]);
    fate := Rejoin;
    if runOut && hasFreeSpace {
      fate := if !hasSurvivor then ReturnToChunk else RejoinAndPool;
    }
    if hasSurvivor {
      counter' := counter' + PAGE_OVERHEAD;
    } else if !runOut {
      fate := RejoinAndFlag;
    }
  }

  lemma SweepExtends(was: seq<Head>, i: nat, round: nat, size: nat)
    requires i < |was|
    ensures SweptAll(was[..i + 1], round) == SweptAll(was[..i], round) + [Swept(was[i], round)]
    ensures var s := SweptAll(was[..i], round) + [Swept(was[i], round)];
            && Survivors(s) ==
               Survivors(SweptAll(was[..i], round)) + (if Swept(was[i], round).life.Released? then 0 else 1)
            && Survivors(s) * size ==
               Survivors(SweptAll(was[..i], round)) * size + (if Swept(was[i], round).life.Released? then 0 else size)
    ensures AnyDropped(was[..i + 1], round) <==> AnyDropped(was[..i], round) || Dropped(was[i], round)
  {
    var s := SweptAll(was[..i], round);
    assert (s + [Swept(was[i], round)])[..i] == s;
    OneMore(Survivors(s), size);
    DroppedExtends(was, i, round);
  }

  lemma OneMore(n: nat, size: nat)
    ensures (n + 1) * size == n * size + size
  {
  }

  lemma DroppedExtends(was: seq<Head>, i: nat, round: nat)
    requires i < |was|
    ensures AnyDropped(was[..i + 1], round) <==> AnyDropped(was[..i], round) || Dropped(was[i], round)
  {
    var less, more := was[..i], was[..i + 1];
    assert more == less + [was[i]];
    if AnyDropped(less, round) {
      var k :| 0 <= k < i && Dropped(less[k], round);
      assert Dropped(more[k], round);
    }
    assert more[i] == was[i];
  }

  // Sweep a huge page: one unit, all or nothing.
  method SweepHuge(heads: array<Head>, round: nat, pageCount: nat, counter: nat) returns (counter': nat, fate: Fate)
    requires heads.Length == 1
    modifies heads
    ensures heads[..] == SweptAll(old(heads[..]), round)
    ensures fate == if heads[0].life.Released? then ReturnToChunk else Rejoin
    ensures counter' == counter + if heads[0].life.Released? then 0 else pageCount * C.PAGE_SIZE
  {
    var alive := CheckAndFree(heads, 0, round);
    if !alive {
      return counter, ReturnToChunk;
    }
    return counter + pageCount * C.PAGE_SIZE, Rejoin;
  }

  // A run-out page whose units were all released before this pass is kept,
  // although nothing on it is in use: being empty is not enough.
  lemma EmptyRunOutPageIsKept(heads: seq<Head>, round: nat)
    requires forall i :: 0 <= i < |heads| ==> heads[i].life.Released?
    ensures SweptAll(heads, round) == heads && !AnyDropped(heads, round)
  {
  }

  // What the owner of a page does to a unit while a round's sweep is under way:
  // take a free one, and complete one it has taken.
  ghost predicate OwnerMoves(h: Head, h': Head, round: nat) {
    || h' == h
    || (h.life.Released? && h'.life.Pending?)
    || ((h.life.Released? || h.life.Pending?) && exists needSweep :: h' == Completed(round, needSweep))
  }

  // Whatever the owner does before the sweep gets to a unit, the sweep drops
  // the same units, and no unit that would have survived is lost.
  lemma OwnerDoesNotInterfere(heads: seq<Head>, met: seq<Head>, round: nat)
    requires |met| == |heads| && forall i :: 0 <= i < |heads| ==> OwnerMoves(heads[i], met[i], round)
    ensures forall i :: 0 <= i < |heads| ==> (Dropped(met[i], round) <==> Dropped(heads[i], round))
    ensures AnyDropped(met, round) <==> AnyDropped(heads, round)
    ensures forall i :: 0 <= i < |heads| && !Swept(heads[i], round).life.Released? ==>
              !Swept(met[i], round).life.Released?
  {
    forall i | 0 <= i < |heads|
      ensures Dropped(met[i], round) <==> Dropped(heads[i], round)
    {
      assert OwnerMoves(heads[i], met[i], round);
    }
    if AnyDropped(met, round) {
      var i :| 0 <= i < |met| && Dropped(met[i], round);
      assert Dropped(heads[i], round);
    }
    if AnyDropped(heads, round) {
      var i :| 0 <= i < |heads| && Dropped(heads[i], round);
      assert Dropped(met[i], round);
    }
  }
}
