/**
 What the cut of the page list by `PageList.Split` means for the units: those
 on the workers' segments are a partition of the units on the list. `Collector`
 shows that the list then holds every page.
 */
module SweepShares {
  import opened PageList
  import T = Tricolour

  type Unit = T.Unit

  // The units on a page; a page that is not part of the heap has none.
  function On(units: map<nat, set<Unit>>, p: nat): set<Unit> {
    if p in units then units[p] else {}
  }

  // All units on a sequence of pages.
  function UnitsOn(units: map<nat, set<Unit>>, pages: seq<nat>): set<Unit> {
    if pages == [] then {} else UnitsOn(units, pages[..|pages| - 1]) + On(units, pages[|pages| - 1])
  }

  lemma {:induction false} OnSomePage(units: map<nat, set<Unit>>, pages: seq<nat>, u: Unit)
    ensures u in UnitsOn(units, pages) <==> exists k :: 0 <= k < |pages| && u in On(units, pages[k])
  {
    if pages != [] {
      var n := |pages| - 1;
      OnSomePage(units, pages[..n], u);
      assert forall k :: 0 <= k < n ==> pages[..n][k] == pages[k];
      if u in UnitsOn(units, pages[..n]) {
        var k :| 0 <= k < n && u in On(units, pages[..n][k]);
        assert u in On(units, pages[k]);
      }
    }
  }

  // The worker whose segment holds position k of the page list.
  lemma {:induction false} SomeSegment(total: nat, workers: nat, k: nat, n: nat) returns (i: nat)
    requires workers > 0 && k < Start(total, workers, n)
    ensures i < n && Start(total, workers, i) <= k < Start(total, workers, i + 1)
  {
    if Start(total, workers, n - 1) <= k {
      i := n - 1;
    } else {
      i := SomeSegment(total, workers, k, n - 1);
    }
  }

  // No two pages share a unit.
  ghost predicate Separate(units: map<nat, set<Unit>>, chain: seq<nat>) {
    forall j, k :: 0 <= j < k < |chain| ==> On(units, chain[j]) !! On(units, chain[k])
  }

  lemma InSegment(units: map<nat, set<Unit>>, chain: seq<nat>, workers: nat, i: nat, u: Unit) returns (k: nat)
    requires workers > 0 && Start(|chain|, workers, i + 1) <= |chain|
    requires u in UnitsOn(units, Segment(chain, workers, i))
    ensures Start(|chain|, workers, i) <= k < Start(|chain|, workers, i + 1) && u in On(units, chain[k])
  {
    var seg := Segment(chain, workers, i);
    OnSomePage(units, seg, u);
    var j :| 0 <= j < |seg| && u in On(units, seg[j]);
    k := Start(|chain|, workers, i) + j;
  }

  lemma NotInLaterSegment(units: map<nat, set<Unit>>, chain: seq<nat>, workers: nat, j: nat, u: Unit, a: nat)
    requires workers > 0 && Start(|chain|, workers, j + 1) <= |chain| && Separate(units, chain)
    requires a < Start(|chain|, workers, j) && u in On(units, chain[a])
    ensures u !in UnitsOn(units, Segment(chain, workers, j))
  {
    if u in UnitsOn(units, Segment(chain, workers, j)) {
      var b := InSegment(units, chain, workers, j, u);
    }
  }

  lemma SegmentsApart(units: map<nat, set<Unit>>, chain: seq<nat>, workers: nat, i: nat, j: nat)
    requires i < j < workers && Separate(units, chain)
    ensures Start(|chain|, workers, i + 1) <= |chain| && Start(|chain|, workers, j + 1) <= |chain|
    ensures UnitsOn(units, Segment(chain, workers, i)) !! UnitsOn(units, Segment(chain, workers, j))
  {
    ShareFits(|chain|, workers, i);
    ShareFits(|chain|, workers, j);
    StartMonotone(|chain|, workers, i + 1, j);
    forall u | u in UnitsOn(units, Segment(chain, workers, i))
      ensures u !in UnitsOn(units, Segment(chain, workers, j))
    {
      var a := InSegment(units, chain, workers, i, u);
      NotInLaterSegment(units, chain, workers, j, u, a);
    }
  }

  lemma SegmentsCover(units: map<nat, set<Unit>>, chain: seq<nat>, workers: nat, u: Unit) returns (i: nat)
    requires workers > 0 && u in UnitsOn(units, chain)
    ensures i < workers && Start(|chain|, workers, i + 1) <= |chain|
    ensures u in UnitsOn(units, Segment(chain, workers, i))
  {
    OnSomePage(units, chain, u);
    var k :| 0 <= k < |chain| && u in On(units, chain[k]);
    SharesAddUp(|chain|, workers);
    i := SomeSegment(|chain|, workers, k, workers);
    ShareFits(|chain|, workers, i);
    var seg := Segment(chain, workers, i);
    assert seg[k - Start(|chain|, workers, i)] == chain[k];
    OnSomePage(units, seg, u);
  }

  ghost predicate Partition(parts: seq<set<Unit>>, all: set<Unit>) {
    && (forall u :: u in all <==> exists w :: 0 <= w < |parts| && u in parts[w])
    && (forall v, w :: 0 <= v < w < |parts| ==> parts[v] !! parts[w])
  }

  // The units worker i finds on its segment.
  ghost predicate IsShare(parts: seq<set<Unit>>, units: map<nat, set<Unit>>, chain: seq<nat>, i: nat) {
    && i < |parts| && Start(|chain|, |parts|, i + 1) <= |chain|
    && parts[i] == UnitsOn(units, Segment(chain, |parts|, i))
  }

  ghost predicate Shares(parts: seq<set<Unit>>, units: map<nat, set<Unit>>, chain: seq<nat>) {
    forall i :: 0 <= i < |parts| ==> IsShare(parts, units, chain, i)
  }

  // Sweeping the segments sweeps every unit exactly once.
  lemma SegmentsPartitionTheUnits(parts: seq<set<Unit>>, units: map<nat, set<Unit>>, chain: seq<nat>)
    requires |parts| > 0 && Separate(units, chain) && Shares(parts, units, chain)
    ensures Partition(parts, UnitsOn(units, chain))
  {
    var n := |parts|;
    forall u
      ensures u in UnitsOn(units, chain) <==> exists w :: 0 <= w < n && u in parts[w]
    {
      if u in UnitsOn(units, chain) {
        var i := SegmentsCover(units, chain, n, u);
        assert IsShare(parts, units, chain, i);
        assert u in parts[i];
      }
      if exists w :: 0 <= w < n && u in parts[w] {
        var w :| 0 <= w < n && u in parts[w];
        assert IsShare(parts, units, chain, w);
        var k := InSegment(units, chain, n, w, u);
        OnSomePage(units, chain, u);
      }
    }
    forall v, w | 0 <= v < w < n
      ensures parts[v] !! parts[w]
    {
      assert IsShare(parts, units, chain, v) && IsShare(parts, units, chain, w);
      SegmentsApart(units, chain, n, v, w);
    }
  }
}
