/**
 The sweep phase over whole page lists (`worker_thread_job`, steps 6 and 7 of
 `main_thread_job`): a worker walks its list, sweeps page after page, and
 pushes every page it keeps back onto the page list; the main thread adds up
 the counters. The link of a page is read before the page is swept, because
 pushing it back overwrites the link.

 Pages are numbered as in `PageList`; `pages` holds the unit heads of each.
 */
module SweepRound {
  import opened PageList
  import opened SweepPage
  import T = Tricolour
  import C = Chunk

  type Contents = seq<seq<T.Head>>

  datatype Info = Info(pageCountIfHuge: nat, unitSizeWithHead: nat, runOut: bool)

  // Bytes a page keeps in use.
  function BytesInUse(info: Info, heads: seq<T.Head>): nat {
    if info.pageCountIfHuge == 0 then LiveSize(heads, info.unitSizeWithHead)
    else if heads == [] || heads[0].life.Released? then 0
    else info.pageCountIfHuge * C.PAGE_SIZE
  }

  // The sweep of this round gives the page back to the chunk.
  ghost predicate ToChunk(info: Info, was: seq<T.Head>, round: nat) {
    var now := SweptAll(was, round);
    (info.pageCountIfHuge == 0 ==> info.runOut && AnyDropped(was, round))
    && forall i :: 0 <= i < |now| ==> now[i].life.Released?
  }

  // Every page of the list swept, the others as they were.
  function SweptPages(was: Contents, list: seq<nat>, round: nat): (r: Contents)
    ensures |r| == |was|
  {
    seq(|was|, p requires 0 <= p < |was| => if p in list then SweptAll(was[p], round) else was[p])
  }

  // The pages of the list that stay, last one first: each is pushed in front.
  ghost function Pushed(infos: seq<Info>, was: Contents, list: seq<nat>, round: nat): seq<nat>
    requires |infos| == |was| && OnPages(list, |was|)
  {
    if list == [] then []
    else
      var n := |list| - 1;
      Stays(infos[list[n]], was[list[n]], list[n], round) + Pushed(infos, was, list[..n], round)
  }

  ghost function Stays(info: Info, was: seq<T.Head>, p: nat, round: nat): seq<nat> {
    if ToChunk(info, was, round) then [] else [p]
  }

  ghost predicate OnPages(list: seq<nat>, n: nat) {
    forall k :: 0 <= k < |list| ==> list[k] < n
  }

  // What a page keeps in use once this round has swept it.
  function LiveAfter(infos: seq<Info>, was: Contents, round: nat): nat -> nat {
    (p: nat) => if p < |infos| && p < |was| then BytesInUse(infos[p], SweptAll(was[p], round)) else 0
  }

  // ---- lists and contents ----------------------------------------------------------

  lemma {:induction false} PushedAreListed(infos: seq<Info>, was: Contents, list: seq<nat>, round: nat)
    requires |infos| == |was| && OnPages(list, |was|)
    ensures forall p :: p in Pushed(infos, was, list, round) ==> p in list
  {
    if list != [] {
      PushedAreListed(infos, was, list[..|list| - 1], round);
    }
  }

  lemma {:induction false} PushedSplits(infos: seq<Info>, was: Contents, a: seq<nat>, b: seq<nat>, round: nat)
    requires |infos| == |was| && OnPages(a, |was|) && OnPages(b, |was|)
    ensures OnPages(a + b, |was|)
    ensures Pushed(infos, was, a + b, round) == Pushed(infos, was, b, round) + Pushed(infos, was, a, round)
  {
    if b == [] {
      assert a + b == a;
    } else {
      var n := |b| - 1;
      assert (a + b)[..|a + b| - 1] == a + b[..n] && (a + b)[|a + b| - 1] == b[n];
      PushedSplits(infos, was, a, b[..n], round);
      var x, y, z := Stays(infos[b[n]], was[b[n]], b[n], round), Pushed(infos, was, b[..n], round),
                     Pushed(infos, was, a, round);
      assert x + (y + z) == (x + y) + z;
    }
  }

  // Sweeping other pages first changes nothing for the pages of a list.
  ghost predicate Agree(was: Contents, now: Contents, list: seq<nat>) {
    && |was| == |now| && OnPages(list, |was|)
    && forall k :: 0 <= k < |list| ==> now[list[k]] == was[list[k]]
  }

  lemma {:induction false} PushedAgree(infos: seq<Info>, was: Contents, now: Contents, list: seq<nat>, round: nat)
    requires |infos| == |was| && Agree(was, now, list)
    ensures Pushed(infos, now, list, round) == Pushed(infos, was, list, round)
  {
    if list != [] {
      assert forall k :: 0 <= k < |list| - 1 ==> list[..|list| - 1][k] == list[k];
      PushedAgree(infos, was, now, list[..|list| - 1], round);
    }
  }

  lemma {:induction false} SumAgree(infos: seq<Info>, was: Contents, now: Contents, list: seq<nat>, round: nat)
    requires |infos| == |was| && Agree(was, now, list)
    ensures Sum(LiveAfter(infos, now, round), list) == Sum(LiveAfter(infos, was, round), list)
  {
    if list != [] {
      assert forall k :: 0 <= k < |list| - 1 ==> list[..|list| - 1][k] == list[k];
      SumAgree(infos, was, now, list[..|list| - 1], round);
    }
  }

  // One more page at the front of a chain.
  lemma PushKeepsChain(next: seq<int>, head: int, chain: seq<nat>, p: nat)
    requires IsChain(next, head, chain) && p < |next| && p !in chain
    ensures IsChain(next[p := head], p, [p] + chain)
  {
    var next', chain' := next[p := head], [p] + chain;
    OtherChain(next, head, chain, p, head);
    forall k | 0 <= k < |chain'|
      ensures Link(next', chain', k)
    {
      if k > 0 {
        assert Link(next', chain, k - 1);
      }
    }
  }

  lemma TailChain(next: seq<int>, head: int, chain: seq<nat>, i: nat)
    requires i < |chain| && IsChain(next, head, chain[i..])
    ensures head == chain[i] < |next| && IsChain(next, next[head], chain[i + 1..])
  {
    var rest, tail := chain[i..], chain[i + 1..];
    assert Link(next, rest, 0);
    forall k | 0 <= k < |tail|
      ensures Link(next, tail, k)
    {
      assert Link(next, rest, k + 1);
    }
  }

  // ---- one page ----------------------------------------------------------------------

  ghost function HeadsOf(pages: seq<array<T.Head>>): (c: Contents)
    reads pages
    ensures |c| == |pages|
  {
    seq(|pages|, p requires 0 <= p < |pages| reads pages => pages[p][..])
  }

  // Every page has its own heads, and a huge page has one.
  ghost predicate PagesOk(pages: seq<array<T.Head>>, infos: seq<Info>) {
    && |pages| == |infos|
    && (forall p, q :: 0 <= p < q < |pages| ==> pages[p] != pages[q])
    && (forall p :: 0 <= p < |pages| && infos[p].pageCountIfHuge > 0 ==> pages[p].Length == 1)
  }

  method SweepUnits(pages: seq<array<T.Head>>, infos: seq<Info>, p: nat, round: nat, counter: nat)
    returns (counter': nat, kept: bool)
    requires PagesOk(pages, infos) && p < |pages|
    modifies pages
    ensures HeadsOf(pages) == old(HeadsOf(pages))[p := SweptAll(old(HeadsOf(pages))[p], round)]
    ensures counter' == counter + BytesInUse(infos[p], SweptAll(old(HeadsOf(pages))[p], round))
    ensures kept <==> !ToChunk(infos[p], old(HeadsOf(pages))[p], round)
  {
    ghost var was := pages[p][..];
    var fate;
    if infos[p].pageCountIfHuge == 0 {
      counter', fate := SweepNormal(pages[p], round, infos[p].unitSizeWithHead, infos[p].runOut, counter);
    } else {
      counter', fate := SweepHuge(pages[p], round, infos[p].pageCountIfHuge, counter);
    }
    kept := !fate.ReturnToChunk?;
    assert pages[p][..] == SweptAll(was, round);
  }

  // ---- one worker -------------------------------------------------------------------

  // The first i pages of the list are swept; page and all are where the worker
  // and the page list stand.
  ghost predicate Swept(infos: seq<Info>, was: Contents, now: Contents, next: seq<int>, list: seq<nat>, rest: seq<nat>,
                        round: nat, i: nat, page: int, all: int)
  {
    && |infos| == |was| && OnPages(list, |was|) && i <= |list|
    && now == SweptPages(was, list[..i], round)
    && IsChain(next, page, list[i..])
    && IsChain(next, all, Pushed(infos, was, list[..i], round) + rest)
  }

  // No page of one list is on the other.
  ghost predicate Apart(a: seq<nat>, b: seq<nat>) {
    forall p :: p in a ==> p !in b
  }

  lemma FirstPage(infos: seq<Info>, was: Contents, now: Contents, next: seq<int>, list: seq<nat>, rest: seq<nat>,
                  round: nat, i: nat, page: int, all: int)
    requires Swept(infos, was, now, next, list, rest, round, i, page, all) && i < |list| && Distinct(list)
    ensures page == list[i] && 0 <= page < |was| && page < |next| && now[page] == was[page]
  {
    TailChain(next, page, list, i);
    assert list[i] !in list[..i];
  }

  // The contents and links after one more page.
  lemma OneMorePage(infos: seq<Info>, was: Contents, now: Contents, next: seq<int>, list: seq<nat>, rest: seq<nat>,
                    round: nat, i: nat, page: int, all: int)
    requires Swept(infos, was, now, next, list, rest, round, i, page, all) && i < |list|
    requires Distinct(list) && Apart(list, rest)
    ensures page == list[i] && 0 <= page < |was| && page < |next|
    ensures var now' := now[page := SweptAll(was[page], round)];
            if ToChunk(infos[page], was[page], round)
            then Swept(infos, was, now', next, list, rest, round, i + 1, next[page], all)
            else Swept(infos, was, now', next[page := all], list, rest, round, i + 1, next[page], page)
  {
    FirstPage(infos, was, now, next, list, rest, round, i, page, all);
    TailChain(next, page, list, i);
    assert list[..i + 1][..i] == list[..i];
    assert forall p :: p in list[..i + 1] <==> p in list[..i] || p == list[i];
    assert SweptPages(was, list[..i + 1], round) == now[page := SweptAll(was[page], round)];
    if !ToChunk(infos[page], was[page], round) {
      var pushed := Pushed(infos, was, list[..i], round);
      PushedAreListed(infos, was, list[..i], round);
      assert list[i] !in pushed + rest && list[i] !in list[i + 1..];
      PushKeepsChain(next, all, pushed + rest, list[i]);
      OtherChain(next, next[page], list[i + 1..], page, all);
      assert [list[i]] + (pushed + rest) == Pushed(infos, was, list[..i + 1], round) + rest;
    } else {
      assert Pushed(infos, was, list[..i + 1], round) == Pushed(infos, was, list[..i], round);
    }
  }

  lemma CountOneMore(infos: seq<Info>, was: Contents, list: seq<nat>, round: nat, i: nat)
    requires |infos| == |was| && i < |list| && list[i] < |was|
    ensures Sum(LiveAfter(infos, was, round), list[..i + 1]) ==
            Sum(LiveAfter(infos, was, round), list[..i]) + BytesInUse(infos[list[i]], SweptAll(was[list[i]], round))
  {
    assert list[..i + 1][..i] == list[..i];
  }

  // One turn of the loop: read the link, sweep the page, push it back if it stays.
  method SweepNext(next: array<int>, pages: seq<array<T.Head>>, infos: seq<Info>, round: nat, page: int, all: int,
                   counter: nat, ghost was: Contents, ghost list: seq<nat>, ghost rest: seq<nat>, ghost i: nat)
    returns (page': int, all': int, counter': nat)
    requires PagesOk(pages, infos) && i < |list| && Distinct(list) && Apart(list, rest)
    requires Swept(infos, was, HeadsOf(pages), next[..], list, rest, round, i, page, all)
    modifies next, pages
    ensures Swept(infos, was, HeadsOf(pages), next[..], list, rest, round, i + 1, page', all')
    ensures list[i] < |was| && counter' == counter + BytesInUse(infos[list[i]], SweptAll(was[list[i]], round))
    ensures forall p :: 0 <= p < next.Length && p != list[i] ==> next[p] == old(next[p])
  {
    FirstPage(infos, was, HeadsOf(pages), next[..], list, rest, round, i, page, all);
    OneMorePage(infos, was, HeadsOf(pages), next[..], list, rest, round, i, page, all);
    page', all' := next[page], all;
    var kept;
    counter', kept := SweepUnits(pages, infos, page, round, counter);
    if kept {
      next[page] := all;
      all' := page;
    }
  }

  /**
   The sweep loop of a worker over its list. Every page of the list is swept
   once and no other page is touched, the counter is what the pages keep in
   use, and the pages that stay are back on the page list.
   */
  method SweepList(next: array<int>, pages: seq<array<T.Head>>, infos: seq<Info>, round: nat, head: int, all: int,
                   ghost list: seq<nat>, ghost rest: seq<nat>) returns (counter: nat, all': int)
    requires PagesOk(pages, infos) && next.Length == |pages|
    requires IsChain(next[..], head, list) && Distinct(list)
    requires IsChain(next[..], all, rest) && Apart(list, rest)
    modifies next, pages
    ensures OnPages(list, |pages|)
    ensures HeadsOf(pages) == SweptPages(old(HeadsOf(pages)), list, round)
    ensures counter == Sum(LiveAfter(infos, old(HeadsOf(pages)), round), list)
    ensures IsChain(next[..], all', Pushed(infos, old(HeadsOf(pages)), list, round) + rest)
    ensures forall p :: 0 <= p < next.Length && p !in list ==> next[p] == old(next[p])
  {
    counter, all' := 0, all;
    var page := head;
    ghost var i, was := 0, HeadsOf(pages);
    StartOfList(infos, was, next[..], list, rest, round, head, all);
    while page != NONE
      invariant Swept(infos, was, HeadsOf(pages), next[..], list, rest, round, i, page, all')
      invariant counter == Sum(LiveAfter(infos, was, round), list[..i])
      invariant forall p :: 0 <= p < next.Length && p !in list ==> next[p] == old(next[p])
      decreases |list| - i
    {
      assert i < |list|;
      CountOneMore(infos, was, list, round, i);
      page, all', counter := SweepNext(next, pages, infos, round, page, all', counter, was, list, rest, i);
      i := i + 1;
    }
    EndOfList(infos, was, HeadsOf(pages), next[..], list, rest, round, i, all');
  }

  lemma EndOfList(infos: seq<Info>, was: Contents, now: Contents, next: seq<int>, list: seq<nat>, rest: seq<nat>,
                  round: nat, i: nat, all: int)
    requires Swept(infos, was, now, next, list, rest, round, i, NONE, all)
    ensures i == |list| && list[..i] == list
    ensures now == SweptPages(was, list, round) && IsChain(next, all, Pushed(infos, was, list, round) + rest)
  {
    assert list[i..] == [];
    assert list[..|list|] == list;
  }

  lemma StartOfList(infos: seq<Info>, was: Contents, next: seq<int>, list: seq<nat>, rest: seq<nat>, round: nat,
                    head: int, all: int)
    requires |infos| == |was| == |next| && IsChain(next, head, list) && IsChain(next, all, rest)
    ensures Swept(infos, was, was, next, list, rest, round, 0, head, all)
  {
    forall k | 0 <= k < |list|
      ensures list[k] < |was|
    {
      assert Link(next, list, k);
    }
    assert list[0..] == list && SweptPages(was, list[..0], round) == was;
    assert Pushed(infos, was, list[..0], round) + rest == rest;
  }

  // ---- the whole phase ---------------------------------------------------------------

  // Step 7: the main thread adds up what the workers counted.
  method TotalAlive(counters: seq<nat>, ghost infos: seq<Info>, ghost was: Contents, ghost round: nat,
                    ghost chain: seq<nat>) returns (total: nat)
    requires |counters| > 0 && AllCounted(infos, was, round, counters, |counters|, chain)
    ensures total == Sum(LiveAfter(infos, was, round), chain)
  {
    total := 0;
    ghost var f := LiveAfter(infos, was, round);
    for i := 0 to |counters|
      invariant Start(|chain|, |counters|, i) <= |chain|
      invariant total == CountersUpTo(f, chain, |counters|, i)
    {
      assert Counted(infos, was, round, counters[i], |counters|, chain, i);
      total := total + counters[i];
    }
    AccountingIsExact(f, chain, |counters|);
  }

  // The first i workers are done.
  ghost predicate Phase(infos: seq<Info>, was: Contents, now: Contents, next: seq<int>, lists: seq<int>,
                        chain: seq<nat>, round: nat, i: nat, all: int)
  {
    && |infos| == |was| && OnPages(chain, |was|) && i <= |lists| && |lists| > 0
    && Start(|chain|, |lists|, i) <= |chain|
    && (forall j :: i <= j < |lists| ==> HasSegment(next, lists, chain, |lists|, j))
    && var done := chain[..Start(|chain|, |lists|, i)];
       && now == SweptPages(was, done, round)
       && IsChain(next, all, Pushed(infos, was, done, round))
  }

  // What a worker finds: its own list, apart from the page list, not yet swept.
  lemma WorkerReady(infos: seq<Info>, was: Contents, now: Contents, next: seq<int>, lists: seq<int>, chain: seq<nat>,
                    round: nat, i: nat, all: int)
    requires Phase(infos, was, now, next, lists, chain, round, i, all) && i < |lists| && Distinct(chain)
    ensures Start(|chain|, |lists|, i + 1) <= |chain|
    ensures var done, seg := chain[..Start(|chain|, |lists|, i)], Segment(chain, |lists|, i);
            && IsChain(next, lists[i], seg) && Distinct(seg) && Agree(was, now, seg)
            && Apart(seg, Pushed(infos, was, done, round))
            && Apart(seg, done)
            && chain[..Start(|chain|, |lists|, i + 1)] == done + seg
  {
    ShareFits(|chain|, |lists|, i);
    assert HasSegment(next, lists, chain, |lists|, i);
    var a, b := Start(|chain|, |lists|, i), Start(|chain|, |lists|, i + 1);
    PushedAreListed(infos, was, chain[..a], round);
    CutOff(chain, a, b);
    Untouched(was, chain[..a], chain[a..b], round);
  }

  lemma CutOff(chain: seq<nat>, a: nat, b: nat)
    requires Distinct(chain) && a <= b <= |chain|
    ensures Distinct(chain[a..b]) && Apart(chain[a..b], chain[..a]) && chain[..b] == chain[..a] + chain[a..b]
  {
  }

  lemma Untouched(was: Contents, done: seq<nat>, list: seq<nat>, round: nat)
    requires Apart(list, done) && OnPages(list, |was|)
    ensures Agree(was, SweptPages(was, done, round), list)
  {
    assert forall k :: 0 <= k < |list| ==> list[k] in list;
  }

  lemma SweptPagesSplit(was: Contents, a: seq<nat>, b: seq<nat>, round: nat)
    requires Apart(b, a)
    ensures SweptPages(SweptPages(was, a, round), b, round) == SweptPages(was, a + b, round)
  {
  }

  // Stores off a chain leave it alone.
  lemma ChainFrame(next: seq<int>, next': seq<int>, head: int, chain: seq<nat>)
    requires IsChain(next, head, chain) && |next'| == |next|
    requires forall p :: 0 <= p < |next| && p in chain ==> next'[p] == next[p]
    ensures IsChain(next', head, chain)
  {
    forall k | 0 <= k < |chain|
      ensures Link(next', chain, k)
    {
      assert Link(next, chain, k);
    }
  }

  lemma LaterSegmentsKept(next: seq<int>, next': seq<int>, lists: seq<int>, chain: seq<nat>, i: nat)
    requires |next'| == |next| && i < |lists| && Distinct(chain)
    requires forall j :: i <= j < |lists| ==> HasSegment(next, lists, chain, |lists|, j)
    requires Start(|chain|, |lists|, i + 1) <= |chain|
    requires forall p :: 0 <= p < |next| && p !in Segment(chain, |lists|, i) ==> next'[p] == next[p]
    ensures forall j :: i < j < |lists| ==> HasSegment(next', lists, chain, |lists|, j)
  {
    var n := |lists|;
    forall j | i < j < n
      ensures HasSegment(next', lists, chain, n, j)
    {
      assert HasSegment(next, lists, chain, n, j);
      StartMonotone(|chain|, n, i + 1, j);
      StartMonotone(|chain|, n, j, j + 1);
      SegmentsShareNoPage(chain, n, i, j);
      ChainFrame(next, next', lists[j], Segment(chain, n, j));
    }
  }

  lemma SegmentsShareNoPage(chain: seq<nat>, workers: nat, i: nat, j: nat)
    requires workers > 0 && Distinct(chain)
    requires Start(|chain|, workers, i + 1) <= Start(|chain|, workers, j) <= Start(|chain|, workers, j + 1) <= |chain|
    ensures Apart(Segment(chain, workers, j), Segment(chain, workers, i))
  {
  }

  // One more worker has swept its list.
  lemma NextWorker(infos: seq<Info>, was: Contents, now: Contents, next: seq<int>, next': seq<int>, lists: seq<int>,
                   chain: seq<nat>, round: nat, i: nat, all: int, all': int)
    requires Phase(infos, was, now, next, lists, chain, round, i, all) && i < |lists| && Distinct(chain)
    requires |next'| == |next| && Start(|chain|, |lists|, i + 1) <= |chain|
    requires var done, seg := chain[..Start(|chain|, |lists|, i)], Segment(chain, |lists|, i);
             && OnPages(seg, |was|)
             && IsChain(next', all', Pushed(infos, now, seg, round) + Pushed(infos, was, done, round))
             && forall p :: 0 <= p < |next| && p !in seg ==> next'[p] == next[p]
    ensures var now' := SweptPages(now, Segment(chain, |lists|, i), round);
            Phase(infos, was, now', next', lists, chain, round, i + 1, all')
    ensures Sum(LiveAfter(infos, now, round), Segment(chain, |lists|, i)) ==
            Sum(LiveAfter(infos, was, round), Segment(chain, |lists|, i))
  {
    var done, seg := chain[..Start(|chain|, |lists|, i)], Segment(chain, |lists|, i);
    WorkerReady(infos, was, now, next, lists, chain, round, i, all);
    SumAgree(infos, was, now, seg, round);
    PushedAgree(infos, was, now, seg, round);
    PushedSplits(infos, was, done, seg, round);
    SweptPagesSplit(was, done, seg, round);
    LaterSegmentsKept(next, next', lists, chain, i);
  }

  /**
   The sweep phase, one worker after the other: their lists share no page, so
   the order does not matter. `all` is the page list when the phase begins.
   Every page on it is swept exactly once, the total is what the pages keep in
   use afterwards, and the page list is what has not gone back to the chunk.
   */
  method SweepPhase(next: array<int>, pages: seq<array<T.Head>>, infos: seq<Info>, round: nat, all: int,
                    lists: array<int>, ghost chain: seq<nat>) returns (total: nat, all': int)
    requires PagesOk(pages, infos) && next.Length == |pages| && next != lists && lists.Length > 0
    requires IsChain(next[..], all, chain) && Distinct(chain)
    requires chain == [] ==> forall i :: 0 <= i < lists.Length ==> lists[i] == NONE
    modifies next, pages, lists
    ensures OnPages(chain, |pages|)
    ensures HeadsOf(pages) == SweptPages(old(HeadsOf(pages)), chain, round)
    ensures total == Sum(LiveAfter(infos, old(HeadsOf(pages)), round), chain)
    ensures IsChain(next[..], all', Pushed(infos, old(HeadsOf(pages)), chain, round))
  {
    ghost var was := HeadsOf(pages);
    StartOfList(infos, was, next[..], chain, [], round, all, NONE);
    Split(next, all, lists, chain);
    StartOfPhase(infos, was, next[..], lists[..], chain, round);
    var counters;
    counters, all' := SweepLists(next, pages, infos, round, lists[..], was, chain);
    EndOfPhase(infos, was, HeadsOf(pages), next[..], lists[..], chain, round, all');
    total := TotalAlive(counters, infos, was, round, chain);
  }

  lemma EndOfPhase(infos: seq<Info>, was: Contents, now: Contents, next: seq<int>, lists: seq<int>, chain: seq<nat>,
                   round: nat, all: int)
    requires Phase(infos, was, now, next, lists, chain, round, |lists|, all)
    ensures now == SweptPages(was, chain, round) && IsChain(next, all, Pushed(infos, was, chain, round))
  {
    SharesAddUp(|chain|, |lists|);
    assert chain[..|chain|] == chain;
  }

  method SweepLists(next: array<int>, pages: seq<array<T.Head>>, infos: seq<Info>, round: nat, lists: seq<int>,
                    ghost was: Contents, ghost chain: seq<nat>) returns (counters: seq<nat>, all': int)
    requires PagesOk(pages, infos) && next.Length == |pages| && Distinct(chain)
    requires Phase(infos, was, HeadsOf(pages), next[..], lists, chain, round, 0, NONE)
    modifies next, pages
    ensures Phase(infos, was, HeadsOf(pages), next[..], lists, chain, round, |lists|, all')
    ensures |counters| == |lists| && AllCounted(infos, was, round, counters, |lists|, chain)
  {
    all', counters := NONE, [];
    for i := 0 to |lists|
      invariant Phase(infos, was, HeadsOf(pages), next[..], lists, chain, round, i, all')
      invariant |counters| == i && AllCounted(infos, was, round, counters, |lists|, chain)
    {
      var counter;
      counter, all' := SweepNextList(next, pages, infos, round, lists, i, all', was, chain);
      OneMoreCounted(infos, was, round, counters, counter, |lists|, chain);
      counters := counters + [counter];
    }
  }

  ghost predicate AllCounted(infos: seq<Info>, was: Contents, round: nat, counters: seq<nat>, workers: nat,
                             chain: seq<nat>)
  {
    forall k :: 0 <= k < |counters| ==> Counted(infos, was, round, counters[k], workers, chain, k)
  }

  lemma OneMoreCounted(infos: seq<Info>, was: Contents, round: nat, counters: seq<nat>, counter: nat, workers: nat,
                       chain: seq<nat>)
    requires AllCounted(infos, was, round, counters, workers, chain)
    requires Counted(infos, was, round, counter, workers, chain, |counters|)
    ensures AllCounted(infos, was, round, counters + [counter], workers, chain)
  {
  }

  // The counter of worker i is what its segment keeps in use.
  ghost predicate Counted(infos: seq<Info>, was: Contents, round: nat, counter: nat, workers: nat, chain: seq<nat>,
                          i: nat)
  {
    && i < workers && Start(|chain|, workers, i + 1) <= |chain|
    && counter == Sum(LiveAfter(infos, was, round), Segment(chain, workers, i))
  }

  method SweepNextList(next: array<int>, pages: seq<array<T.Head>>, infos: seq<Info>, round: nat, lists: seq<int>,
                       i: nat, all: int, ghost was: Contents, ghost chain: seq<nat>) returns (counter: nat, all': int)
    requires PagesOk(pages, infos) && next.Length == |pages| && i < |lists| && Distinct(chain)
    requires Phase(infos, was, HeadsOf(pages), next[..], lists, chain, round, i, all)
    modifies next, pages
    ensures Phase(infos, was, HeadsOf(pages), next[..], lists, chain, round, i + 1, all')
    ensures Counted(infos, was, round, counter, |lists|, chain, i)
  {
    ghost var now, links := HeadsOf(pages), next[..];
    WorkerReady(infos, was, now, links, lists, chain, round, i, all);
    ghost var done, seg := chain[..Start(|chain|, |lists|, i)], Segment(chain, |lists|, i);
    counter, all' := SweepList(next, pages, infos, round, lists[i], all, seg, Pushed(infos, was, done, round));
    NextWorker(infos, was, now, links, next[..], lists, chain, round, i, all, all');
  }

  lemma StartOfPhase(infos: seq<Info>, was: Contents, next: seq<int>, lists: seq<int>, chain: seq<nat>, round: nat)
    requires |infos| == |was| && OnPages(chain, |was|) && |lists| > 0
    requires chain != [] ==> forall i :: 0 <= i < |lists| ==> HasSegment(next, lists, chain, |lists|, i)
    requires chain == [] ==> forall i :: 0 <= i < |lists| ==> lists[i] == NONE
    ensures Phase(infos, was, was, next, lists, chain, round, 0, NONE)
  {
    assert chain[..0] == [] && SweptPages(was, [], round) == was;
    if chain == [] {
      forall i | 0 <= i < |lists|
        ensures HasSegment(next, lists, chain, |lists|, i)
      {
        EmptyPart(next, lists, i);
      }
    }
  }

  // ---- lists left over from an earlier round ---------------------------------------

  ghost predicate AllReleased(heads: seq<T.Head>) {
    forall i :: 0 <= i < |heads| ==> heads[i].life.Released?
  }

  // A page that has been given back is swept once more: nothing on it changes and
  // nothing is counted, but only a huge page is given back again.
  lemma LeftoverPage(info: Info, was: seq<T.Head>, round: nat)
    requires AllReleased(was)
    ensures SweptAll(was, round) == was && BytesInUse(info, SweptAll(was, round)) == 0
    ensures ToChunk(info, was, round) <==> info.pageCountIfHuge > 0
  {
    EmptyRunOutPageIsKept(was, round);
    NoSurvivors(was);
  }

  // Sweeping pages that have all been given back before, as happens when a round
  // finds no page: every normal page among them ends up on the page list although
  // it is free in the chunk.
  lemma {:induction false} LeftoversAreListedAgain(infos: seq<Info>, was: Contents, list: seq<nat>, round: nat)
    requires |infos| == |was| && OnPages(list, |was|)
    requires forall k :: 0 <= k < |list| ==> AllReleased(was[list[k]])
    ensures forall p :: p in Pushed(infos, was, list, round) <==> p in list && infos[p].pageCountIfHuge == 0
    ensures Sum(LiveAfter(infos, was, round), list) == 0
  {
    if list != [] {
      var n := |list| - 1;
      LeftoverPage(infos[list[n]], was[list[n]], round);
      LeftoversAreListedAgain(infos, was, list[..n], round);
      assert list == list[..n] + [list[n]];
    }
  }

  // Such a sweep is harmless exactly when all leftover pages are huge.
  lemma LeftoverSweepIsHarmless(infos: seq<Info>, was: Contents, list: seq<nat>, round: nat)
    requires |infos| == |was| && OnPages(list, |was|)
    requires forall k :: 0 <= k < |list| ==> AllReleased(was[list[k]])
    ensures SweptPages(was, list, round) == was
    ensures Pushed(infos, was, list, round) == [] <==>
            forall k :: 0 <= k < |list| ==> infos[list[k]].pageCountIfHuge > 0
  {
    LeftoversAreListedAgain(infos, was, list, round);
    var pushed := Pushed(infos, was, list, round);
    if pushed == [] {
      forall k | 0 <= k < |list|
        ensures infos[list[k]].pageCountIfHuge > 0
      {
        assert list[k] !in pushed;
      }
    } else {
      assert pushed[0] in pushed;
    }
    forall p | 0 <= p < |was|
      ensures SweptPages(was, list, round)[p] == was[p]
    {
      if p in list {
        var k :| 0 <= k < |list| && list[k] == p;
        LeftoverPage(infos[p], was[p], round);
      }
    }
  }
}
