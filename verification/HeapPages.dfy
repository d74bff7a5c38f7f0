/**
 The pages of the heap as the collector passes them around: the global page
 list, and during the sweep the list each worker still has to go through. A
 page is moved between them, added when it is new, and leaves when it goes back
 to the chunk; none is ever lost or listed twice.
 */
module HeapPages {
  import opened PageList
  import opened SweepShares

  datatype State = State(
    list: seq<nat>,                 // m_all_page_list
    units: map<nat, set<Unit>>,     // the units on each page of the heap
    lists: seq<seq<nat>>,           // what is left of m_sweep_page_list, per worker
    handed: bool)                   // some m_sweep_page_list is not null

  function Init(workers: nat): State {
    State([], map[], seq(workers, _ => []), false)
  }

  // How often page p is on a list.
  function Times(list: seq<nat>, p: nat): nat {
    multiset(list)[p]
  }

  // How often page p is on the workers' lists.
  function TimesOnAll(lists: seq<seq<nat>>, p: nat): nat {
    if lists == [] then 0 else TimesOnAll(lists[..|lists| - 1], p) + Times(lists[|lists| - 1], p)
  }

  // Pages are conserved, share no unit, and hold all units there are.
  ghost predicate Inv(s: State, all: set<Unit>) {
    && (forall p :: Times(s.list, p) + TimesOnAll(s.lists, p) == if p in s.units then 1 else 0)
    && (forall p, q :: p in s.units && q in s.units && p != q ==> s.units[p] !! s.units[q])
    && (forall u :: u in all <==> exists p :: p in s.units && u in s.units[p])
  }

  // ---- steps ------------------------------------------------------------------------

  // add_new_page_into_chain
  function Add(s: State, p: nat, us: set<Unit>): State {
    s.(list := [p] + s.list, units := s.units[p := us])
  }

  // The main thread takes the list and cuts it.
  function Segments(chain: seq<nat>, workers: nat): (r: seq<seq<nat>>)
    requires workers > 0
    ensures |r| == workers
  {
    seq(workers, w requires 0 <= w < workers => ShareFits(|chain|, workers, w); Segment(chain, workers, w))
  }

  function Deal(s: State): State
    requires |s.lists| > 0
  {
    s.(list := [], lists := Segments(s.list, |s.lists|), handed := s.handed || s.list != [])
  }

  // add_page_back_to_into_chain, for the page worker w is at
  function Keep(s: State, w: nat): State
    requires w < |s.lists| && s.lists[w] != []
  {
    s.(list := [s.lists[w][0]] + s.list, lists := s.lists[w := s.lists[w][1..]])
  }

  // The page worker w is at goes back to the chunk.
  function GiveBack(s: State, w: nat): State
    requires w < |s.lists| && s.lists[w] != []
  {
    s.(units := s.units - {s.lists[w][0]}, lists := s.lists[w := s.lists[w][1..]])
  }

  // ---- counting pages --------------------------------------------------------------

  lemma TimesOfFront(p: nat, list: seq<nat>, q: nat)
    ensures Times([p] + list, q) == Times(list, q) + (if q == p then 1 else 0)
  {
    assert multiset([p] + list) == multiset{p} + multiset(list);
  }

  lemma {:induction false} TimesUpdate(lists: seq<seq<nat>>, w: nat, l: seq<nat>, p: nat)
    requires w < |lists|
    ensures TimesOnAll(lists[w := l], p) + Times(lists[w], p) == TimesOnAll(lists, p) + Times(l, p)
  {
    var n := |lists| - 1;
    if w == n {
      assert lists[w := l][..n] == lists[..n];
    } else {
      assert lists[w := l][..n] == lists[..n][w := l];
      TimesUpdate(lists[..n], w, l, p);
    }
  }

  lemma {:induction false} TimesOnNone(lists: seq<seq<nat>>, p: nat)
    requires forall w :: 0 <= w < |lists| ==> lists[w] == []
    ensures TimesOnAll(lists, p) == 0
  {
    if lists != [] {
      TimesOnNone(lists[..|lists| - 1], p);
    }
  }

  lemma {:induction false} TimesAtLeast(lists: seq<seq<nat>>, w: nat, p: nat)
    requires w < |lists|
    ensures TimesOnAll(lists, p) >= Times(lists[w], p)
  {
    var n := |lists| - 1;
    if w < n {
      TimesAtLeast(lists[..n], w, p);
    }
  }

  // A page on a worker's list is a page of the heap and on no other list.
  lemma OneList(s: State, all: set<Unit>, v: nat, w: nat, p: nat)
    requires Inv(s, all) && v < |s.lists| && w < |s.lists| && p in s.lists[v]
    ensures p in s.units && (v != w ==> p !in s.lists[w])
  {
    TimesAtLeast(s.lists, v, p);
    TimesUpdate(s.lists, v, [], p);
    TimesAtLeast(s.lists[v := []], w, p);
    assert Times(s.lists[v], p) >= 1;
    assert p in s.lists[w] ==> Times(s.lists[w], p) >= 1;
  }

  // The lists are the chain cut at the given places.
  ghost predicate CutAt(lists: seq<seq<nat>>, chain: seq<nat>, cuts: seq<nat>) {
    && |cuts| == |lists| + 1 && cuts[0] == 0
    && forall k :: 0 <= k < |lists| ==> IsCut(lists, chain, cuts, k)
  }

  ghost predicate IsCut(lists: seq<seq<nat>>, chain: seq<nat>, cuts: seq<nat>, k: nat) {
    k < |lists| && k + 1 < |cuts| && cuts[k] <= cuts[k + 1] <= |chain| && lists[k] == chain[cuts[k]..cuts[k + 1]]
  }

  lemma {:induction false} TimesOnCuts(lists: seq<seq<nat>>, chain: seq<nat>, cuts: seq<nat>, i: nat, p: nat)
    requires CutAt(lists, chain, cuts) && i <= |lists|
    ensures cuts[i] <= |chain| && TimesOnAll(lists[..i], p) == Times(chain[..cuts[i]], p)
  {
    if i > 0 {
      TimesOnCuts(lists, chain, cuts, i - 1, p);
      assert IsCut(lists, chain, cuts, i - 1);
      assert lists[..i][..i - 1] == lists[..i - 1] && lists[..i][i - 1] == lists[i - 1];
      TimesSplits(chain, cuts[i - 1], cuts[i], p);
    }
  }

  lemma SegmentsAreCuts(chain: seq<nat>, workers: nat) returns (cuts: seq<nat>)
    requires workers > 0
    ensures CutAt(Segments(chain, workers), chain, cuts) && cuts[workers] == |chain|
  {
    cuts := seq(workers + 1, k requires 0 <= k => Start(|chain|, workers, k));
    forall k | 0 <= k < workers
      ensures IsCut(Segments(chain, workers), chain, cuts, k)
    {
      SegmentAt(chain, workers, k);
    }
    SharesAddUp(|chain|, workers);
  }

  lemma SegmentAt(chain: seq<nat>, workers: nat, w: nat)
    requires w < workers
    ensures Start(|chain|, workers, w) <= Start(|chain|, workers, w + 1) <= |chain|
    ensures Segments(chain, workers)[w] == chain[Start(|chain|, workers, w)..Start(|chain|, workers, w + 1)]
  {
    ShareFits(|chain|, workers, w);
  }

  lemma TimesSplits(chain: seq<nat>, a: nat, b: nat, p: nat)
    requires a <= b <= |chain|
    ensures Times(chain[..b], p) == Times(chain[..a], p) + Times(chain[a..b], p)
  {
    assert chain[..b] == chain[..a] + chain[a..b];
  }

  // ---- every step ------------------------------------------------------------------

  lemma InitOk(workers: nat)
    ensures Inv(Init(workers), {})
  {
    forall p
      ensures TimesOnAll(Init(workers).lists, p) == 0
    {
      TimesOnNone(Init(workers).lists, p);
    }
  }

  lemma AddOk(s: State, all: set<Unit>, p: nat, us: set<Unit>)
    requires Inv(s, all) && p !in s.units && us !! all
    ensures Inv(Add(s, p, us), all + us)
  {
    var s' := Add(s, p, us);
    forall q
      ensures Times(s'.list, q) == Times(s.list, q) + (if q == p then 1 else 0)
    {
      TimesOfFront(p, s.list, q);
    }
    forall q | q in s.units
      ensures s.units[q] !! us
    {
      assert forall u :: u in s.units[q] ==> u in all;
    }
    forall u
      ensures u in all + us <==> exists q :: q in s'.units && u in s'.units[q]
    {
      if u in us {
        assert u in s'.units[p];
      } else if u in all {
        var q :| q in s.units && u in s.units[q];
        assert u in s'.units[q];
      }
    }
  }

  lemma DealOk(s: State, all: set<Unit>)
    requires Inv(s, all) && |s.lists| > 0 && forall w :: 0 <= w < |s.lists| ==> s.lists[w] == []
    ensures Inv(Deal(s), all)
  {
    var n, segs := |s.lists|, Segments(s.list, |s.lists|);
    var cuts := SegmentsAreCuts(s.list, n);
    assert segs[..n] == segs && s.list[..|s.list|] == s.list;
    forall p
      ensures TimesOnAll(s.lists, p) == 0 && TimesOnAll(segs, p) == Times(s.list, p)
    {
      TimesOnNone(s.lists, p);
      TimesOnCuts(segs, s.list, cuts, n, p);
    }
  }

  // The page worker w is at comes off its list.
  lemma TimesOfHead(lists: seq<seq<nat>>, w: nat, q: nat)
    requires w < |lists| && lists[w] != []
    ensures TimesOnAll(lists[w := lists[w][1..]], q) + (if q == lists[w][0] then 1 else 0) == TimesOnAll(lists, q)
  {
    TimesUpdate(lists, w, lists[w][1..], q);
    TimesOfFront(lists[w][0], lists[w][1..], q);
    assert lists[w] == [lists[w][0]] + lists[w][1..];
  }

  lemma KeepOk(s: State, all: set<Unit>, w: nat)
    requires Inv(s, all) && w < |s.lists| && s.lists[w] != []
    ensures Inv(Keep(s, w), all)
  {
    var s' := Keep(s, w);
    forall q
      ensures Times(s'.list, q) + TimesOnAll(s'.lists, q) == Times(s.list, q) + TimesOnAll(s.lists, q)
    {
      TimesOfHead(s.lists, w, q);
      TimesOfFront(s.lists[w][0], s.list, q);
    }
  }

  lemma GiveBackOk(s: State, all: set<Unit>, w: nat)
    requires Inv(s, all) && w < |s.lists| && s.lists[w] != []
    ensures s.lists[w][0] in s.units && Inv(GiveBack(s, w), all - s.units[s.lists[w][0]])
  {
    var s' := GiveBack(s, w);
    var p := s.lists[w][0];
    OneList(s, all, w, w, p);
    forall q
      ensures TimesOnAll(s'.lists, q) + (if q == p then 1 else 0) == TimesOnAll(s.lists, q)
    {
      TimesOfHead(s.lists, w, q);
    }
    forall u
      ensures u in all - s.units[p] <==> exists q :: q in s'.units && u in s'.units[q]
    {
      if u in all && u !in s.units[p] {
        var q :| q in s.units && u in s.units[q];
        assert u in s'.units[q];
      }
    }
  }

  // ---- what the sweep starts from --------------------------------------------------

  lemma TwiceListed(list: seq<nat>, j: nat, k: nat)
    requires j < k < |list| && list[j] == list[k]
    ensures Times(list, list[j]) >= 2
  {
    assert list == list[..k] + list[k..];
    assert list[..k][j] == list[j] && list[k..][0] == list[k];
  }

  lemma ListedOnce(list: seq<nat>)
    requires forall p :: Times(list, p) <= 1
    ensures Distinct(list)
  {
    forall j, k | 0 <= j < k < |list|
      ensures list[j] != list[k]
    {
      if list[j] == list[k] {
        TwiceListed(list, j, k);
      }
    }
  }

  // With no sweep under way the page list holds every page, once.
  lemma ListHoldsEveryPage(s: State, all: set<Unit>)
    requires Inv(s, all) && forall w :: 0 <= w < |s.lists| ==> s.lists[w] == []
    ensures Distinct(s.list) && forall p :: p in s.list <==> p in s.units
  {
    forall p
      ensures Times(s.list, p) == if p in s.units then 1 else 0
    {
      TimesOnNone(s.lists, p);
    }
    ListedOnce(s.list);
    forall p
      ensures p in s.list <==> p in s.units
    {
      assert p in s.list <==> Times(s.list, p) > 0;
    }
  }

  // So the units on the list are all units there are.
  lemma ListHoldsEveryUnit(s: State, all: set<Unit>)
    requires Inv(s, all) && forall w :: 0 <= w < |s.lists| ==> s.lists[w] == []
    ensures Separate(s.units, s.list) && UnitsOn(s.units, s.list) == all
  {
    ListHoldsEveryPage(s, all);
    forall u
      ensures u in UnitsOn(s.units, s.list) <==> u in all
    {
      OnSomePage(s.units, s.list, u);
      if u in all {
        var p :| p in s.units && u in s.units[p];
        var k :| 0 <= k < |s.list| && s.list[k] == p;
        assert u in On(s.units, s.list[k]);
      }
    }
  }

  // The units each worker has to sweep.
  function Parts(s: State): (parts: seq<set<Unit>>)
    ensures |parts| == |s.lists|
    ensures forall w :: 0 <= w < |parts| ==> parts[w] == UnitsOn(s.units, s.lists[w])
  {
    seq(|s.lists|, w requires 0 <= w < |s.lists| => UnitsOn(s.units, s.lists[w]))
  }

  // The cut gives every unit to exactly one worker.
  lemma DealIsPartition(s: State, all: set<Unit>)
    requires Inv(s, all) && |s.lists| > 0 && forall w :: 0 <= w < |s.lists| ==> s.lists[w] == []
    ensures Partition(Parts(Deal(s)), all)
  {
    ListHoldsEveryUnit(s, all);
    DealtShares(s);
    SegmentsPartitionTheUnits(Parts(Deal(s)), s.units, s.list);
  }

  lemma DealtShares(s: State)
    requires |s.lists| > 0
    ensures Shares(Parts(Deal(s)), s.units, s.list)
  {
    var parts := Parts(Deal(s));
    forall i | 0 <= i < |parts|
      ensures IsShare(parts, s.units, s.list, i)
    {
      SegmentAt(s.list, |parts|, i);
    }
  }

  // Pages that come and go leave the units on a list of other pages alone.
  lemma {:induction false} OtherPages(units: map<nat, set<Unit>>, units': map<nat, set<Unit>>, list: seq<nat>)
    requires forall p :: p in list ==> On(units', p) == On(units, p)
    ensures UnitsOn(units', list) == UnitsOn(units, list)
  {
    if list != [] {
      OtherPages(units, units', list[..|list| - 1]);
    }
  }

  lemma UnitsOnTail(units: map<nat, set<Unit>>, list: seq<nat>)
    requires list != []
    ensures UnitsOn(units, list) == On(units, list[0]) + UnitsOn(units, list[1..])
  {
    forall u
      ensures u in UnitsOn(units, list) <==> u in On(units, list[0]) || u in UnitsOn(units, list[1..])
    {
      OnSomePage(units, list, u);
      OnSomePage(units, list[1..], u);
      if u in UnitsOn(units, list[1..]) {
        var k :| 0 <= k < |list| - 1 && u in On(units, list[1..][k]);
        assert u in On(units, list[k + 1]);
      }
      if u in UnitsOn(units, list) {
        var k :| 0 <= k < |list| && u in On(units, list[k]);
        assert k > 0 ==> list[1..][k - 1] == list[k];
      }
    }
  }
}
