/**
 Handing the pages to the workers for the sweep (`main_thread_job`, step 6):
 the global page list is cut in place into one list per worker. Pages are
 numbered, `next` holds the `m_next_page` links, -1 is null.
 */
module PageList {

  const NONE := -1

  // Following next from head visits exactly the pages of chain, in order.
  ghost predicate IsChain(next: seq<int>, head: int, chain: seq<nat>) {
    && head == First(chain)
    && (forall k :: 0 <= k < |chain| ==> Link(next, chain, k))
  }

  function First(chain: seq<nat>): int {
    if chain == [] then NONE else chain[0]
  }

  ghost predicate Link(next: seq<int>, chain: seq<nat>, k: nat) {
    && k < |chain| && chain[k] < |next|
    && next[chain[k]] == if k + 1 < |chain| then chain[k + 1] else NONE
  }

  ghost predicate Distinct(chain: seq<nat>) {
    forall i, j :: 0 <= i < j < |chain| ==> chain[i] != chain[j]
  }

  // ---- sizes ------------------------------------------------------------------

  // Pages for worker i: the remainder goes to the first workers.
  function Share(total: nat, workers: nat, i: nat): nat
    requires workers > 0
  {
    total / workers + (if i < total % workers then 1 else 0)
  }

  function Start(total: nat, workers: nat, i: nat): nat
    requires workers > 0
  {
    if i == 0 then 0 else Start(total, workers, i - 1) + Share(total, workers, i - 1)
  }

  lemma {:induction false} StartValue(total: nat, workers: nat, i: nat)
    requires workers > 0
    ensures Start(total, workers, i) == i * (total / workers) + (if i < total % workers then i else total % workers)
  {
    if i > 0 {
      StartValue(total, workers, i - 1);
      var b := total / workers;
      assert i * b == (i - 1) * b + b;
    }
  }

  lemma SharesAddUp(total: nat, workers: nat)
    requires workers > 0
    ensures Start(total, workers, workers) == total
  {
    StartValue(total, workers, workers);
  }

  lemma {:induction false} StartMonotone(total: nat, workers: nat, i: nat, j: nat)
    requires workers > 0 && i <= j
    ensures Start(total, workers, i) <= Start(total, workers, j)
    decreases j - i
  {
    if i < j {
      StartMonotone(total, workers, i, j - 1);
    }
  }

  // The pages worker i gets.
  function Segment(chain: seq<nat>, workers: nat, i: nat): seq<nat>
    requires workers > 0 && Start(|chain|, workers, i + 1) <= |chain|
  {
    chain[Start(|chain|, workers, i)..Start(|chain|, workers, i + 1)]
  }

  // ---- cutting a chain ----------------------------------------------------------

  // A chain falls into a front part, ended by a null link, and the rest.
  lemma CutChain(next: seq<int>, chain: seq<nat>, n: nat)
    requires IsChain(next, First(chain), chain) && Distinct(chain) && 1 <= n <= |chain|
    ensures chain[n - 1] < |next|
    ensures IsChain(next[chain[n - 1] := NONE], First(chain), chain[..n])
    ensures IsChain(next[chain[n - 1] := NONE], First(chain[n..]), chain[n..])
  {
    assert Link(next, chain, n - 1);
    var next' := next[chain[n - 1] := NONE];
    forall k | 0 <= k < n
      ensures Link(next', chain[..n], k)
    {
      assert Link(next, chain, k);
    }
    forall k | 0 <= k < |chain| - n
      ensures Link(next', chain[n..], k)
    {
      assert Link(next, chain, n + k);
      assert chain[n + k] != chain[n - 1];
    }
  }

  // A store at a page outside the chain leaves the chain alone.
  lemma OtherChain(next: seq<int>, head: int, chain: seq<nat>, p: nat, v: int)
    requires IsChain(next, head, chain) && p < |next| && p !in chain
    ensures IsChain(next[p := v], head, chain)
  {
    var next' := next[p := v];
    forall k | 0 <= k < |chain|
      ensures Link(next', chain, k)
    {
      assert Link(next, chain, k);
    }
  }

  // Walk n pages along a chain; prev is the last page passed.
  method Walk(next: array<int>, head: int, n: nat, ghost chain: seq<nat>) returns (prev: int, current: int)
    requires IsChain(next[..], head, chain) && 1 <= n <= |chain|
    ensures prev == chain[n - 1] && prev < next.Length
    ensures current == First(chain[n..])
  {
    prev, current := NONE, head;
    for j := 0 to n
      invariant current == First(chain[j..])
      invariant j > 0 ==> prev == chain[j - 1] && prev < next.Length
    {
      assert Link(next[..], chain, j);
      prev := current;
      current := next[current];
    }
  }

  method Length(next: array<int>, head: int, ghost chain: seq<nat>) returns (total: nat)
    requires IsChain(next[..], head, chain)
    ensures total == |chain|
  {
    total := 0;
    var p := head;
    while p != NONE
      invariant total <= |chain| && p == First(chain[total..])
      decreases |chain| - total
    {
      assert Link(next[..], chain, total);
      p := next[p];
      total := total + 1;
    }
  }

  // The lists handed out so far, and what is left of the page list.
  ghost predicate Dealt(next: seq<int>, lists: seq<int>, chain: seq<nat>, workers: nat, i: nat, current: int) {
    && workers > 0 && i <= |lists|
    && Start(|chain|, workers, i) <= |chain|
    && (forall j :: 0 <= j < i ==> HasSegment(next, lists, chain, workers, j))
    && IsChain(next, current, chain[Start(|chain|, workers, i)..])
  }

  ghost predicate HasSegment(next: seq<int>, lists: seq<int>, chain: seq<nat>, workers: nat, j: nat) {
    && workers > 0 && j < |lists|
    && Start(|chain|, workers, j + 1) <= |chain|
    && IsChain(next, lists[j], Segment(chain, workers, j))
  }

  // One more worker gets no page.
  lemma DealNone(next: seq<int>, lists: seq<int>, chain: seq<nat>, workers: nat, i: nat, current: int)
    requires Dealt(next, lists, chain, workers, i, current) && i < |lists|
    requires Start(|chain|, workers, i + 1) == Start(|chain|, workers, i)
    ensures Dealt(next, lists[i := NONE], chain, workers, i + 1, current)
  {
    var lists' := lists[i := NONE];
    forall j | 0 <= j < i
      ensures HasSegment(next, lists', chain, workers, j)
    {
      assert HasSegment(next, lists, chain, workers, j);
    }
    assert HasSegment(next, lists', chain, workers, i);
  }

  // One more worker gets n pages.
  lemma DealSome(next: seq<int>, lists: seq<int>, chain: seq<nat>, workers: nat, i: nat, current: int, n: nat)
    requires Dealt(next, lists, chain, workers, i, current) && i < |lists| && Distinct(chain)
    requires 1 <= n && Start(|chain|, workers, i + 1) == Start(|chain|, workers, i) + n <= |chain|
    ensures var e := Start(|chain|, workers, i + 1);
            chain[e - 1] < |next| &&
            Dealt(next[chain[e - 1] := NONE], lists[i := current], chain, workers, i + 1, First(chain[e..]))
  {
    var a, e := Start(|chain|, workers, i), Start(|chain|, workers, i + 1);
    var rest, cut := chain[a..], chain[e - 1];
    assert rest[n - 1] == cut;
    CutChain(next, rest, n);
    var next', lists' := next[cut := NONE], lists[i := current];
    assert rest[..n] == Segment(chain, workers, i) && rest[n..] == chain[e..];
    forall j | 0 <= j < i
      ensures HasSegment(next', lists', chain, workers, j)
    {
      assert HasSegment(next, lists, chain, workers, j);
      StartMonotone(|chain|, workers, j + 1, i);
      StartMonotone(|chain|, workers, j, j + 1);
      EarlierPages(chain, Start(|chain|, workers, j), Start(|chain|, workers, j + 1), e - 1);
      OtherChain(next, lists[j], Segment(chain, workers, j), cut, NONE);
    }
    assert HasSegment(next', lists', chain, workers, i);
  }

  lemma ShareFits(total: nat, workers: nat, i: nat)
    requires i < workers
    ensures Start(total, workers, i + 1) == Start(total, workers, i) + Share(total, workers, i) <= total
  {
    StartMonotone(total, workers, i + 1, workers);
    SharesAddUp(total, workers);
  }

  lemma EarlierPages(chain: seq<nat>, a: nat, b: nat, k: nat)
    requires Distinct(chain) && a <= b <= k < |chain|
    ensures chain[k] !in chain[a..b]
  {
  }

  // The heads the workers should be given.
  function Heads(workers: nat, chain: seq<nat>): (r: seq<int>)
    requires workers > 0
    ensures |r| == workers
  {
    seq(workers, i requires 0 <= i < workers => ShareFits(|chain|, workers, i); First(Segment(chain, workers, i)))
  }

  // m_sweep_page_list of every worker after one round: without pages the code
  // leaves the lists alone.
  function ListsAfter(lists: seq<int>, chain: seq<nat>): (r: seq<int>)
    requires |lists| > 0
    ensures |r| == |lists|
  {
    if chain == [] then lists else Heads(|lists|, chain)
  }

  lemma HeadsOfSegments(next: seq<int>, lists: seq<int>, chain: seq<nat>)
    requires |lists| > 0 && forall i :: 0 <= i < |lists| ==> HasSegment(next, lists, chain, |lists|, i)
    ensures lists == Heads(|lists|, chain)
  {
    forall i | 0 <= i < |lists|
      ensures lists[i] == Heads(|lists|, chain)[i]
    {
      assert HasSegment(next, lists, chain, |lists|, i);
    }
  }

  /**
   Cut the page list into one list per worker. `lists` is m_sweep_page_list of
   every worker. With no page at all the code leaves the lists of the previous
   round in place.
   */
  method Split(next: array<int>, all: int, lists: array<int>, ghost chain: seq<nat>)
    requires next != lists && lists.Length > 0
    requires IsChain(next[..], all, chain) && Distinct(chain)
    modifies next, lists
    ensures chain != [] ==>
              forall i :: 0 <= i < lists.Length ==> HasSegment(next[..], lists[..], chain, lists.Length, i)
    ensures chain == [] ==> next[..] == old(next[..])
    ensures lists[..] == ListsAfter(old(lists[..]), chain)
  {
    if all != NONE {
      var total := Length(next, all, chain);
      var workers := lists.Length;
      var base, remainder := total / workers, total % workers;
      var current := all;
      assert chain[0..] == chain;
      for i := 0 to workers
        invariant Dealt(next[..], lists[..], chain, workers, i, current)
      {
        var n := base + (if i < remainder then 1 else 0);
        ShareFits(|chain|, workers, i);
        if n == 0 {
          DealNone(next[..], lists[..], chain, workers, i, current);
          lists[i] := NONE;
        } else {
          DealSome(next[..], lists[..], chain, workers, i, current, n);
          lists[i] := current;
          ghost var a := Start(|chain|, workers, i);
          assert chain[a..][n - 1] == chain[a + n - 1] && chain[a..][n..] == chain[a + n..];
          var prev;
          prev, current := Walk(next, current, n, chain[a..]);
          next[prev] := NONE;
        }
      }
      HeadsOfSegments(next[..], lists[..], chain);
    }
  }

  // ---- what the cut guarantees ----------------------------------------------------

  function Flatten(chain: seq<nat>, workers: nat, i: nat): seq<nat>
    requires workers > 0 && Start(|chain|, workers, i) <= |chain|
  {
    if i == 0 then []
    else
      StartMonotone(|chain|, workers, i - 1, i);
      Flatten(chain, workers, i - 1) + Segment(chain, workers, i - 1)
  }

  lemma {:induction false} FlattenIsPrefix(chain: seq<nat>, workers: nat, i: nat)
    requires workers > 0 && Start(|chain|, workers, i) <= |chain|
    ensures Flatten(chain, workers, i) == chain[..Start(|chain|, workers, i)]
  {
    if i > 0 {
      StartMonotone(|chain|, workers, i - 1, i);
      FlattenIsPrefix(chain, workers, i - 1);
    }
  }

  // The lists put end to end are the page list, no page lost, added or moved,
  // and no worker has more than one page more than another.
  lemma SegmentsTileTheList(chain: seq<nat>, workers: nat)
    requires workers > 0
    ensures Start(|chain|, workers, workers) <= |chain|
    ensures Flatten(chain, workers, workers) == chain
    ensures forall i, j :: 0 <= i < workers && 0 <= j < workers ==>
              Share(|chain|, workers, i) <= Share(|chain|, workers, j) + 1
  {
    SharesAddUp(|chain|, workers);
    FlattenIsPrefix(chain, workers, workers);
  }

  function Sum(f: nat -> nat, pages: seq<nat>): nat {
    if pages == [] then 0 else Sum(f, pages[..|pages| - 1]) + f(pages[|pages| - 1])
  }

  lemma {:induction false} SumSplits(f: nat -> nat, p: seq<nat>, q: seq<nat>)
    ensures Sum(f, p + q) == Sum(f, p) + Sum(f, q)
  {
    if q == [] {
      assert p + q == p;
    } else {
      assert (p + q)[..|p + q| - 1] == p + q[..|q| - 1];
      SumSplits(f, p, q[..|q| - 1]);
    }
  }

  // What the workers count, added up (main_thread_job, step 7).
  function CountersUpTo(f: nat -> nat, chain: seq<nat>, workers: nat, i: nat): nat
    requires workers > 0 && Start(|chain|, workers, i) <= |chain|
  {
    if i == 0 then 0
    else
      StartMonotone(|chain|, workers, i - 1, i);
      CountersUpTo(f, chain, workers, i - 1) + Sum(f, Segment(chain, workers, i - 1))
  }

  lemma {:induction false} CountersAddUp(f: nat -> nat, chain: seq<nat>, workers: nat, i: nat)
    requires workers > 0 && Start(|chain|, workers, i) <= |chain|
    ensures CountersUpTo(f, chain, workers, i) == Sum(f, chain[..Start(|chain|, workers, i)])
  {
    if i > 0 {
      StartMonotone(|chain|, workers, i - 1, i);
      CountersAddUp(f, chain, workers, i - 1);
      var a, b := Start(|chain|, workers, i - 1), Start(|chain|, workers, i);
      assert chain[..b] == chain[..a] + chain[a..b];
      SumSplits(f, chain[..a], chain[a..b]);
    }
  }

  // Whatever a page contributes, the workers' counters add up to the total
  // over the whole page list.
  lemma AccountingIsExact(f: nat -> nat, chain: seq<nat>, workers: nat)
    requires workers > 0
    ensures Start(|chain|, workers, workers) <= |chain|
    ensures CountersUpTo(f, chain, workers, workers) == Sum(f, chain)
  {
    SharesAddUp(|chain|, workers);
    CountersAddUp(f, chain, workers, workers);
    assert chain[..|chain|] == chain;
  }

  // ---- rounds without pages -----------------------------------------------------------

  // Every worker has its part of the page list, as the sweep expects.
  ghost predicate Handed(next: seq<int>, lists: seq<int>, chain: seq<nat>) {
    |lists| > 0 && forall i :: 0 <= i < |lists| ==> HasSegment(next, lists, chain, |lists|, i)
  }

  lemma EmptySegment(workers: nat, i: nat)
    requires i < workers
    ensures Start(0, workers, i + 1) == 0 && Segment([], workers, i) == []
  {
    ShareFits(0, workers, i);
  }

  lemma EmptyHeads(workers: nat)
    requires workers > 0
    ensures Heads(workers, []) == seq(workers, _ => NONE)
  {
    forall i | 0 <= i < workers
      ensures Heads(workers, [])[i] == NONE
    {
      EmptySegment(workers, i);
    }
  }

  lemma EmptyPart(next: seq<int>, lists: seq<int>, i: nat)
    requires i < |lists|
    ensures HasSegment(next, lists, [], |lists|, i) <==> lists[i] == NONE
  {
    EmptySegment(|lists|, i);
  }

  // An empty page list is handed out properly exactly when all lists are null.
  lemma EmptyIsHanded(next: seq<int>, lists: seq<int>)
    requires |lists| > 0
    ensures Handed(next, lists, []) <==> lists == seq(|lists|, _ => NONE)
  {
    forall i | 0 <= i < |lists|
      ensures HasSegment(next, lists, [], |lists|, i) <==> lists[i] == NONE
    {
      EmptyPart(next, lists, i);
    }
  }

  // The lists after the given rounds, from freshly made workers.
  function ListsOver(workers: nat, chains: seq<seq<nat>>): (r: seq<int>)
    requires workers > 0
    ensures |r| == workers
  {
    if chains == [] then seq(workers, _ => NONE)
    else ListsAfter(ListsOver(workers, chains[..|chains| - 1]), chains[|chains| - 1])
  }

  predicate NoPages(chains: seq<seq<nat>>) {
    forall j :: 0 <= j < |chains| ==> chains[j] == []
  }

  lemma FirstShare(total: nat, workers: nat)
    requires workers > 0 && total > 0
    ensures Share(total, workers, 0) > 0
  {
    assert total == workers * (total / workers) + total % workers;
  }

  // The first worker gets the first page.
  lemma FirstWorkerHasPages(workers: nat, chain: seq<nat>)
    requires workers > 0 && 0 < Start(|chain|, workers, 1) <= |chain|
    ensures Heads(workers, chain)[0] == chain[0]
  {
    assert Segment(chain, workers, 0)[0] == chain[0];
  }

  lemma {:induction false} LeftoversStay(workers: nat, chains: seq<seq<nat>>)
    requires workers > 0
    ensures NoPages(chains) ==> ListsOver(workers, chains) == seq(workers, _ => NONE)
    ensures !NoPages(chains) ==> ListsOver(workers, chains)[0] != NONE
  {
    if chains != [] {
      var n := |chains| - 1;
      LeftoversStay(workers, chains[..n]);
      if chains[n] != [] {
        FirstShare(|chains[n]|, workers);
        ShareFits(|chains[n]|, workers, 0);
        FirstWorkerHasPages(workers, chains[n]);
      } else if !NoPages(chains) {
        var j :| 0 <= j < n && chains[j] != [];
        assert chains[..n][j] == chains[j];
      }
    }
  }

  // Over any sequence of rounds: round k gives the workers what they should
  // sweep exactly when it has a page, or no round before it had one. A round
  // without pages after one with pages sends them over the old pages again.
  lemma RoundIsRight(workers: nat, chains: seq<seq<nat>>, k: nat, next: seq<int>)
    requires workers > 0 && k < |chains|
    ensures var lists := ListsOver(workers, chains[..k + 1]);
            && (lists == Heads(workers, chains[k]) <==> chains[k] != [] || NoPages(chains[..k]))
            && (chains[k] == [] ==> (Handed(next, lists, chains[k]) <==> NoPages(chains[..k])))
  {
    assert chains[..k + 1][..k] == chains[..k];
    LeftoversStay(workers, chains[..k]);
    if chains[k] == [] {
      EmptyHeads(workers);
      EmptyIsHanded(next, ListsOver(workers, chains[..k + 1]));
    }
  }
}
