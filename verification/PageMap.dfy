/**
 The reference view of a chunk: one entry per page, saying which allocated
 block the page belongs to. Everything the page allocator promises is stated
 over this view; `Chunk` shows that the count array and the intrusive free
 list implement it.
 */
module PageMap {

  // Entry of a page that belongs to no allocated block. Any other entry is
  // the index of the first page of the block.
  const FREE := -1

  type Pages = seq<int>

  // Pages [h, h + c) form exactly one allocated block.
  ghost predicate IsBlock(pm: Pages, h: int, c: int) {
    && 0 <= h < h + c <= |pm|
    && (forall j :: h <= j < h + c ==> pm[j] == h)
    && (forall j :: 0 <= j < |pm| && pm[j] == h ==> h <= j < h + c)
  }

  // Every entry names the head of a contiguous block.
  ghost predicate WellFormed(pm: Pages) {
    && (forall i :: 0 <= i < |pm| ==> FREE <= pm[i] <= i)
    && (forall i, j :: 0 <= i < |pm| && 0 <= pm[i] <= j <= i ==> pm[j] == pm[i])
  }

  predicate FreeRange(pm: Pages, i: int, n: nat) {
    && 0 <= i <= i + n <= |pm|
    && (forall j :: i <= j < i + n ==> pm[j] == FREE)
  }

  function FreeMask(pm: Pages): (m: seq<bool>)
    ensures |m| == |pm|
    ensures forall i :: 0 <= i < |m| ==> m[i] == (pm[i] == FREE)
  {
    seq(|pm|, i requires 0 <= i < |pm| => pm[i] == FREE)
  }

  // The block [h, h + n) is handed out.
  function Take(pm: Pages, h: nat, n: nat): (r: Pages)
    requires h + n <= |pm|
    ensures |r| == |pm|
    ensures forall i :: 0 <= i < |r| ==> r[i] == if h <= i < h + n then h else pm[i]
  {
    seq(|pm|, i requires 0 <= i < |pm| => if h <= i < h + n then h else pm[i])
  }

  // The block with head h is given back.
  function Release(pm: Pages, h: int): (r: Pages)
    ensures |r| == |pm|
    ensures forall i :: 0 <= i < |r| ==> r[i] == if pm[i] == h then FREE else pm[i]
  {
    seq(|pm|, i requires 0 <= i < |pm| => if pm[i] == h then FREE else pm[i])
  }

  // The lowest index at or after `from` where n consecutive pages are free,
  // or |pm| when there is none.
  function FirstFit(pm: Pages, n: nat, from: nat := 0): (r: nat)
    requires from <= |pm|
    ensures from <= r <= |pm|
    ensures r < |pm| ==> FreeRange(pm, r, n)
    ensures forall k :: from <= k < r ==> !FreeRange(pm, k, n)
    decreases |pm| - from
  {
    if from == |pm| || FreeRange(pm, from, n) then from else FirstFit(pm, n, from + 1)
  }

  lemma OnePageFits(pm: Pages)
    ensures FirstFit(pm, 1) == |pm| <==> forall i :: 0 <= i < |pm| ==> pm[i] != FREE
  {
    assert forall i :: 0 <= i < |pm| && pm[i] == FREE ==> FreeRange(pm, i, 1);
    var r := FirstFit(pm, 1);
    assert r < |pm| ==> pm[r] == FREE;
  }

  lemma TakeKeepsWellFormed(pm: Pages, h: nat, n: nat)
    requires WellFormed(pm) && FreeRange(pm, h, n) && 1 <= n
    ensures WellFormed(Take(pm, h, n))
    ensures IsBlock(Take(pm, h, n), h, n)
    ensures forall g, c :: IsBlock(pm, g, c) ==> IsBlock(Take(pm, h, n), g, c)
  {
    var r := Take(pm, h, n);
    assert forall j :: 0 <= j < |pm| && pm[j] == h ==> pm[h] == h;
    assert forall i, j :: 0 <= i < |pm| && 0 <= pm[i] <= j <= i ==> pm[j] == pm[i] == r[j] == r[i];
    forall g, c | IsBlock(pm, g, c)
      ensures IsBlock(r, g, c)
    {
      assert pm[g] == g && pm[h] == FREE;
    }
  }

  lemma ReleaseKeepsWellFormed(pm: Pages, h: int)
    requires WellFormed(pm) && 0 <= h
    ensures WellFormed(Release(pm, h))
    ensures forall g, c :: g != h && IsBlock(pm, g, c) ==> IsBlock(Release(pm, h), g, c)
  {
  }

  // Giving back the block just handed out restores the map exactly.
  lemma ReleaseUndoesTake(pm: Pages, h: nat, n: nat)
    requires WellFormed(pm) && FreeRange(pm, h, n) && 1 <= n
    ensures Release(Take(pm, h, n), h) == pm
  {
    assert forall j :: 0 <= j < |pm| && pm[j] == h ==> pm[h] == h;
  }

  ghost predicate SameBlocks(pm: Pages, qm: Pages) {
    forall h, c :: IsBlock(pm, h, c) <==> IsBlock(qm, h, c)
  }

  // Length of the block with head h, counted from page i on.
  function BlockEnd(pm: Pages, h: nat, i: nat): (e: nat)
    requires h <= i <= |pm|
    ensures i <= e <= |pm|
    ensures forall j :: i <= j < e ==> pm[j] == h
    ensures e < |pm| ==> pm[e] != h
    decreases |pm| - i
  {
    if i < |pm| && pm[i] == h then BlockEnd(pm, h, i + 1) else i
  }

  lemma EveryPageHasItsBlock(pm: Pages, i: nat)
    requires WellFormed(pm) && i < |pm| && pm[i] != FREE
    ensures pm[i] <= i < BlockEnd(pm, pm[i], pm[i])
    ensures IsBlock(pm, pm[i], BlockEnd(pm, pm[i], pm[i]) - pm[i])
  {
    var h := pm[i];
    var e := BlockEnd(pm, h, h);
    assert forall j :: 0 <= j < |pm| && pm[j] == h && e <= j ==> pm[e] == pm[j];
  }

  lemma BlocksFixEntry(pm: Pages, qm: Pages, i: nat)
    requires WellFormed(pm) && SameBlocks(pm, qm) && i < |pm| && pm[i] != FREE
    ensures i < |qm| && qm[i] == pm[i]
  {
    EveryPageHasItsBlock(pm, i);
    assert IsBlock(qm, pm[i], BlockEnd(pm, pm[i], pm[i]) - pm[i]);
  }

  // The map holds nothing beyond the set of allocated blocks.
  lemma BlocksDetermineMap(pm: Pages, qm: Pages)
    requires WellFormed(pm) && WellFormed(qm) && |pm| == |qm| && SameBlocks(pm, qm)
    ensures pm == qm
  {
    forall i: nat | i < |pm| && pm[i] != FREE
      ensures qm[i] == pm[i]
    {
      BlocksFixEntry(pm, qm, i);
    }
    forall i: nat | i < |qm| && qm[i] != FREE
      ensures qm[i] == pm[i]
    {
      BlocksFixEntry(qm, pm, i);
    }
  }
}
