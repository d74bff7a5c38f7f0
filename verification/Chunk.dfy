/**
 The chunk page allocator (`Chunk`): a first-fit allocator over three arrays
 and an intrusive list. The ghost page map says what the arrays mean.

 Merging leaves stale nonzero counts inside free blocks. The invariant is
 therefore asymmetric: the interior of an allocated block is all zero, while a
 free page is only known not to carry the allocated flag.
 */
module Chunk {
  import opened FreeList
  import opened PageMap

  const PAGE_SIZE: nat := 32768
  const WORD: nat := 0x1_0000_0000_0000_0000   // range of size_t

  datatype Option<T> = None | Some(value: T)

  // Pages needed for a request, rounded up; size_t arithmetic wraps.
  function RequiredPages(size: nat): (n: nat) {
    (size + PAGE_SIZE - 1) % WORD / PAGE_SIZE
  }

  // Rounding up is right exactly when the addition does not wrap.
  lemma RequiredPagesExact(size: nat)
    requires size < WORD
    ensures size <= RequiredPages(size) * PAGE_SIZE < size + PAGE_SIZE
            <==> size <= WORD - PAGE_SIZE || size == 0
    ensures WORD - PAGE_SIZE < size ==> RequiredPages(size) == 0
  {
  }

  ghost predicate Counts(pm: Pages, count: seq<U32>) {
    && |pm| == |count|
    && (forall i :: 0 <= i < |pm| && pm[i] == FREE ==> count[i] < FLAG)
    && (forall i :: 0 <= i < |pm| && pm[i] == i ==> count[i] > FLAG && IsBlock(pm, i, count[i] - FLAG))
    && (forall i :: 0 <= i < |pm| && pm[i] != FREE && pm[i] != i ==> count[i] == 0)
  }

  // Only counts of pages in m change, and none of them gains the flag.
  ghost predicate Kept(m: Mask, count: seq<U32>, count': seq<U32>) {
    && |m| == |count| == |count'|
    && forall i :: 0 <= i < |m| ==> count'[i] == count[i] || (m[i] && count'[i] < FLAG)
  }

  lemma KeptWiden(m: Mask, m': Mask, count: seq<U32>, count': seq<U32>)
    requires Kept(m, count, count') && |m'| == |m|
    requires forall i :: 0 <= i < |m| && m[i] ==> m'[i]
    ensures Kept(m', count, count')
  {
  }

  lemma FreshChunk(n: Index)
    requires 1 <= n
    ensures WellFormed(seq(n, _ => FREE))
    ensures Counts(seq(n, _ => FREE), seq(n, _ => 0)[0 := n])
    ensures Linked([0], 0, seq(n, _ => NIL), seq(n, _ => NIL))
    ensures Runs(FreeMask(seq(n, _ => FREE)), [0], seq(n, _ => 0)[0 := n])
  {
    OneRun(n);
    assert FreeMask(seq(n, _ => FREE)) == seq(n, _ => true);
  }

  // The block found by walking the list is the lowest fit.
  lemma ListFindsFirstFit(pm: Pages, fl: seq<Index>, count: seq<U32>, a: nat, n: nat)
    requires Runs(FreeMask(pm), fl, count) && a <= |fl| && 1 <= n
    requires forall k :: 0 <= k < a ==> RunAt(FreeMask(pm), fl, count, k) && count[fl[k]] < n
    requires a < |fl| ==> RunAt(FreeMask(pm), fl, count, a) && n <= count[fl[a]]
    ensures FirstFit(pm, n) == if a < |fl| then fl[a] else |pm|
  {
    forall k: nat | k < |pm| && FreeRange(pm, k, n)
      ensures a < |fl| && fl[a] <= k
    {
      var o := RangeInsideRun(FreeMask(pm), fl, count, k, n);
      assert a <= o;
    }
    if a < |fl| {
      assert FreeRange(pm, fl[a], n);
    }
  }

  // Giving back a block is painting its pages free.
  lemma ReleasePaints(pm: Pages, h: nat, c: nat)
    requires IsBlock(pm, h, c)
    ensures FreeMask(Release(pm, h)) == Paint(FreeMask(pm), h, c, true)
  {
  }

  lemma TakePaints(pm: Pages, h: nat, n: nat)
    requires h + n <= |pm|
    ensures FreeMask(Take(pm, h, n)) == Paint(FreeMask(pm), h, n, false)
  {
  }

  // Counts survive an insertion that only touches pages that are free afterwards.
  lemma CountsAfterRelease(pm: Pages, h: nat, c: nat, count: seq<U32>, count': seq<U32>)
    requires WellFormed(pm) && Counts(pm, count) && IsBlock(pm, h, c) && |count'| == |count|
    requires forall i :: 0 <= i < |pm| && pm[i] != h && pm[i] != FREE ==> count'[i] == count[i]
    requires forall i :: 0 <= i < |pm| && (pm[i] == h || pm[i] == FREE) ==> count'[i] < FLAG
    ensures Counts(Release(pm, h), count')
  {
    ReleaseKeepsWellFormed(pm, h);
  }

  lemma CountsAfterTake(pm: Pages, h: nat, n: nat, count: seq<U32>, count': seq<U32>)
    requires WellFormed(pm) && Counts(pm, count) && FreeRange(pm, h, n) && 1 <= n < FLAG && |count'| == |count|
    requires forall i :: 0 <= i < |pm| && pm[i] != FREE ==> count'[i] == count[i]
    requires forall i :: 0 <= i < |pm| && pm[i] == FREE && !(h <= i < h + n) ==> count'[i] < FLAG
    requires count'[h] == FLAG + n
    requires forall i :: h < i < h + n ==> count'[i] == 0
    ensures Counts(Take(pm, h, n), count')
  {
    TakeKeepsWellFormed(pm, h, n);
  }

  lemma FlaggedFreePage(pm: Pages, count: seq<U32>, i: nat)
    requires i < |pm| == |count| && pm[i] == FREE && count[i] >= FLAG
    ensures !Counts(pm, count)
  {
  }

  // Scanning back over zero counts cannot leave the block of an allocated page.
  lemma ScanStopsAtHead(pm: Pages, count: seq<U32>, idx: nat, head: nat)
    requires WellFormed(pm) && Counts(pm, count) && head <= idx < |pm|
    requires forall j :: head < j <= idx ==> count[j] == 0
    ensures pm[idx] != FREE ==> pm[idx] <= head && count[pm[idx]] != 0
    ensures pm[idx] != FREE && count[head] != 0 ==> pm[idx] == head
  {
    if pm[idx] != FREE {
      assert pm[pm[idx]] == pm[idx] <= head;
      assert pm[head] == pm[idx];
    }
  }

  class Chunk {
    var base: nat
    var totalPages: nat
    var count: array<U32>
    var freePrev: array<U32>
    var freeNext: array<U32>
    var freeHead: U32
    var commit: array<bool>

    ghost var pm: Pages
    ghost var fl: seq<Index>

    ghost predicate Arrays()
      reads this
    {
      && totalPages < FLAG
      && count.Length == totalPages && freePrev.Length == totalPages
      && freeNext.Length == totalPages && commit.Length == totalPages
      && count != freePrev && count != freeNext && freePrev != freeNext
    }

    // The free list covers exactly the pages marked in m.
    ghost predicate Listed(m: Mask)
      reads this, count, freePrev, freeNext
    {
      && Arrays()
      && Linked(fl, freeHead, freeNext[..], freePrev[..])
      && Runs(m, fl, count[..])
    }

    ghost predicate Valid()
      reads this, count, freePrev, freeNext, commit
    {
      && Arrays()
      && |pm| == totalPages
      && WellFormed(pm)
      && Counts(pm, count[..])
      && Listed(FreeMask(pm))
      && (forall i :: 0 <= i < totalPages && pm[i] != FREE ==> commit[i])
    }

    // `mapped` is the address the operating system reserved, 0 for failure;
    // reserving no bytes at all, as after an overflow, fails.
    constructor (reservedSize: nat, mapped: nat)
      requires reservedSize < WORD
      requires RequiredPages(reservedSize) == 0 ==> mapped == 0
      ensures reservedSize == 0 || mapped == 0 ==> totalPages == 0 && base == 0
      ensures reservedSize != 0 && mapped != 0 ==>
                && base == mapped
                && reservedSize <= totalPages * PAGE_SIZE < reservedSize + PAGE_SIZE
                && count.Length == totalPages
                && (totalPages < FLAG ==> Valid() && forall i :: 0 <= i < totalPages ==> pm[i] == FREE)
                && count[0] == totalPages % 0x1_0000_0000
    {
      RequiredPagesExact(reservedSize);
      var n := if reservedSize == 0 || mapped == 0 then 0 else RequiredPages(reservedSize);
      base := if n == 0 then 0 else mapped;
      totalPages := n;
      count := new U32[n](_ => 0);
      freePrev := new U32[n](_ => NIL);
      freeNext := new U32[n](_ => NIL);
      commit := new bool[n](_ => false);
      freeHead := NIL;
      pm := seq(n, _ => FREE);
      fl := [];
      new;
      if n != 0 {
        MakeOneRun();
      }
    }

    // All pages become one free block.
    method MakeOneRun()
      requires 1 <= totalPages == count.Length == freePrev.Length == freeNext.Length == commit.Length == |pm|
      requires count != freePrev && count != freeNext && freePrev != freeNext
      requires forall i :: 0 <= i < totalPages ==> pm[i] == FREE && count[i] == 0
      requires forall i :: 0 <= i < totalPages ==> freePrev[i] == NIL && freeNext[i] == NIL
      modifies this`freeHead, this`fl, count
      ensures totalPages < FLAG ==> Valid()
      ensures count[0] == totalPages % 0x1_0000_0000
    {
      ghost var n := totalPages;
      count[0] := totalPages % 0x1_0000_0000;
      freeHead := 0;
      fl := [0];
      if n < FLAG {
        FreshChunk(n);
        assert pm == seq(n, _ => FREE);
        assert freeNext[..] == seq(n, _ => NIL) && freePrev[..] == seq(n, _ => NIL);
        assert count[..] == seq(n, _ => 0)[0 := n];
      }
    }

    // The pointer stores of `free_list_remove`.
    method Unlink(idx: Index)
      requires Arrays() && idx < totalPages
      requires freePrev[idx] == NIL || freePrev[idx] < totalPages
      requires freeNext[idx] == NIL || freeNext[idx] < totalPages
      modifies this`freeHead, freePrev, freeNext
      ensures freeHead == if old(freePrev[idx]) == NIL then old(freeNext[idx]) else old(freeHead)
      ensures freeNext[..] == Set(Set(old(freeNext[..]), old(freePrev[idx]), old(freeNext[idx])), idx, NIL)
      ensures freePrev[..] == Set(Set(old(freePrev[..]), old(freeNext[idx]), old(freePrev[idx])), idx, NIL)
    {
      var prev := freePrev[idx];
      var next := freeNext[idx];
      if prev != NIL {
        freeNext[prev] := next;
      } else {
        freeHead := next;
      }
      if next != NIL {
        freePrev[next] := prev;
      }
      freePrev[idx] := NIL;
      freeNext[idx] := NIL;
    }

    method FreeListRemove(idx: Index, ghost m: Mask, ghost a: nat)
      requires Listed(m) && a < |fl| && fl[a] == idx
      modifies this`freeHead, this`fl, freePrev, freeNext
      ensures idx < count.Length
      ensures fl == Drop(old(fl), a)
      ensures Listed(Paint(m, idx, count[idx], false))
    {
      assert Node(fl, freeNext[..], freePrev[..], a);
      assert a > 0 ==> Node(fl, freeNext[..], freePrev[..], a - 1);
      assert a + 1 < |fl| ==> Node(fl, freeNext[..], freePrev[..], a + 1);
      UnlinkKeepsLinked(fl, a, freeHead, freeNext[..], freePrev[..]);
      UnlistRun(m, fl, a, count[..]);
      Unlink(idx);
      fl := Drop(fl, a);
    }

    // Walk to the first listed head above idx.
    method FindNeighbours(idx: Index, ghost m: Mask) returns (prev: U32, next: U32, ghost a: nat)
      requires Listed(m) && idx < totalPages && !m[idx]
      ensures Place(fl, a, idx)
      ensures prev == At(fl, a - 1) && next == At(fl, a)
    {
      prev, next, a := NIL, freeHead, 0;
      while next != NIL && next < idx
        invariant a <= |fl|
        invariant prev == At(fl, a - 1) && next == At(fl, a)
        invariant forall k :: 0 <= k < a ==> fl[k] < idx
        decreases |fl| - a
      {
        assert Node(fl, freeNext[..], freePrev[..], a);
        prev := next;
        next := freeNext[next];
        a := a + 1;
      }
      if a < |fl| {
        assert RunAt(m, fl, count[..], a);
        assert m[fl[a]];
      }
    }

    // The pointer and count stores at the end of `free_list_insert`.
    method Link(idx: Index, cnt: U32, prev: U32, next: U32)
      requires Arrays() && idx < totalPages
      requires prev == NIL || prev < totalPages
      requires next == NIL || next < totalPages
      modifies this`freeHead, count, freePrev, freeNext
      ensures freeHead == if prev == NIL then idx else old(freeHead)
      ensures freeNext[..] == Set(Set(old(freeNext[..]), idx, next), prev, idx)
      ensures freePrev[..] == Set(Set(old(freePrev[..]), idx, prev), next, idx)
      ensures count[..] == old(count[..])[idx := cnt]
    {
      freePrev[idx] := prev;
      freeNext[idx] := next;
      if prev != NIL {
        freeNext[prev] := idx;
      } else {
        freeHead := idx;
      }
      if next != NIL {
        freePrev[next] := idx;
      }
      count[idx] := cnt;
    }

    // Link a block that touches neither of its neighbours.
    method LinkBlock(idx: Index, cnt: U32, prev: U32, next: U32, ghost m: Mask, ghost a: nat)
      requires Listed(m) && Place(fl, a, idx)
      requires prev == At(fl, a - 1) && next == At(fl, a)
      requires 1 <= cnt && idx + cnt <= totalPages
      requires forall j :: idx <= j < idx + cnt ==> !m[j]
      requires idx == 0 || !m[idx - 1]
      requires idx + cnt == totalPages || !m[idx + cnt]
      modifies this`freeHead, this`fl, count, freePrev, freeNext
      ensures Listed(Paint(m, idx, cnt, true))
      ensures count[..] == old(count[..])[idx := cnt]
    {
      assert a > 0 ==> Node(fl, freeNext[..], freePrev[..], a - 1);
      assert a < |fl| ==> Node(fl, freeNext[..], freePrev[..], a);
      LinkKeepsLinked(fl, a, idx, freeHead, freeNext[..], freePrev[..]);
      ListRun(m, fl, a, idx, cnt, count[..]);
      Link(idx, cnt, prev, next);
      fl := Put(fl, a, idx);
    }

    // The list covers mm, the block [idx, idx + cnt) is in hand, and together
    // they make up the pages of `target`.
    ghost predicate InHand(mm: Mask, idx: int, cnt: int, target: Mask)
      reads this, count, freePrev, freeNext
    {
      && Listed(mm)
      && 0 <= idx < idx + cnt <= totalPages == |mm|
      && (forall j :: idx <= j < idx + cnt ==> !mm[j])
      && Paint(mm, idx, cnt, true) == target
    }

    // Take the listed run that touches the block into the hand.
    method Absorb(h: Index, idx: Index, cnt: U32, ghost a: nat, ghost mm: Mask, ghost target: Mask)
      returns (idx': Index, cnt': U32, ghost mm': Mask)
      requires InHand(mm, idx, cnt, target) && a < |fl| && fl[a] == h
      requires h < totalPages && (h + count[h] == idx || idx + cnt == h)
      modifies this`freeHead, this`fl, freePrev, freeNext
      ensures InHand(mm', idx', cnt', target)
      ensures |fl| < old(|fl|)
    {
      assert RunAt(mm, fl, count[..], a);
      PaintMerge(mm, idx, cnt, h, count[h]);
      FreeListRemove(h, mm, a);
      mm' := Paint(mm, h, count[h], false);
      idx' := if h < idx then h else idx;
      cnt' := count[h] + cnt;
    }

    // Merge the block into the list: absorb the run below, then the run above,
    // then link. Each restart of the original is one turn of the loop.
    method FreeListInsert(idx0: Index, count0: U32, ghost m: Mask)
      requires Listed(m)
      requires 1 <= count0 && idx0 + count0 <= totalPages
      requires forall j :: idx0 <= j < idx0 + count0 ==> !m[j]
      modifies this`freeHead, this`fl, count, freePrev, freeNext
      ensures Listed(Paint(m, idx0, count0, true))
      ensures Kept(Paint(m, idx0, count0, true), old(count[..]), count[..])
    {
      var idx, cnt := idx0, count0;
      ghost var mm, target := m, Paint(m, idx0, count0, true);
      while true
        invariant InHand(mm, idx, cnt, target) && count[..] == old(count[..])
        decreases |fl|
      {
        var prev, next, a := FindNeighbours(idx, mm);
        assert a > 0 ==> RunAt(mm, fl, count[..], a - 1);
        assert a < |fl| ==> RunAt(mm, fl, count[..], a);
        if prev != NIL && prev + count[prev] == idx {
          idx, cnt, mm := Absorb(prev, idx, cnt, a - 1, mm, target);
        } else if next != NIL && idx + cnt == next {
          idx, cnt, mm := Absorb(next, idx, cnt, a, mm, target);
        } else {
          TouchingRunBelow(mm, fl, a, idx, count[..]);
          TouchingRunAbove(mm, fl, a, idx, cnt, count[..]);
          LinkBlock(idx, cnt, prev, next, mm, a);
          assert target[idx];
          return;
        }
      }
    }

    // First listed block with room for `required` pages.
    method FreeListFindBlock(required: U32, ghost m: Mask) returns (idx: U32, ghost a: nat)
      requires Listed(m)
      ensures idx == At(fl, a) && a <= |fl|
      ensures idx != NIL ==> idx < totalPages && IsRun(m, idx, count[idx]) && count[idx] >= required
      ensures forall k :: 0 <= k < a ==> RunAt(m, fl, count[..], k) && count[fl[k]] < required
    {
      idx, a := freeHead, 0;
      while idx != NIL
        invariant a <= |fl| && idx == At(fl, a)
        invariant forall k :: 0 <= k < a ==> RunAt(m, fl, count[..], k) && count[fl[k]] < required
        decreases |fl| - a
      {
        assert Node(fl, freeNext[..], freePrev[..], a);
        assert RunAt(m, fl, count[..], a);
        if count[idx] % FLAG >= required {
          return;
        }
        idx := freeNext[idx];
        a := a + 1;
      }
    }

    method ZeroCounts(from: nat, to: nat)
      requires to <= count.Length
      modifies count
      ensures forall i :: 0 <= i < count.Length ==> count[i] == if from <= i < to then 0 else old(count[i])
    {
      var j := from;
      while j < to
        invariant from <= j
        invariant forall i :: 0 <= i < count.Length ==> count[i] == if from <= i < j && i < to then 0 else old(count[i])
      {
        count[j] := 0;
        j := j + 1;
      }
    }

    method CommitPages(from: nat, to: nat)
      requires from <= to <= commit.Length
      modifies commit
      ensures forall i :: 0 <= i < commit.Length ==> commit[i] == (from <= i < to || old(commit[i]))
    {
      for j := from to to
        invariant forall i :: 0 <= i < commit.Length ==> commit[i] == (from <= i < j || old(commit[i]))
      {
        if !commit[j] {
          commit[j] := true;
        }
      }
    }

    // Put the tail of a split block back on the list with clean counts.
    method ReturnRemainder(left: Index, leftCount: U32, ghost m: Mask)
      requires Listed(m) && 1 <= leftCount && left + leftCount <= totalPages
      requires forall j :: left <= j < left + leftCount ==> !m[j]
      modifies this`freeHead, this`fl, count, freePrev, freeNext
      ensures Listed(Paint(m, left, leftCount, true))
      ensures Kept(Paint(m, left, leftCount, true), old(count[..]), count[..])
    {
      ghost var count0 := count[..];
      count[left] := leftCount;
      ZeroCounts(left + 1, left + leftCount);
      RunsFrame(m, fl, count0, count[..]);
      FreeListInsert(left, leftCount, m);
    }

    method ReturnTail(idx: Index, required: U32, blockCount: U32, ghost m: Mask)
      requires |m| == totalPages && Listed(Paint(m, idx, blockCount, false))
      requires required < blockCount && idx + blockCount <= totalPages
      requires forall j :: idx <= j < idx + blockCount ==> m[j]
      modifies this`freeHead, this`fl, count, freePrev, freeNext
      ensures Listed(Paint(m, idx, required, false))
      ensures Kept(m, old(count[..]), count[..])
    {
      PaintSplit(m, idx, blockCount, required);
      ReturnRemainder(idx + required, blockCount - required, Paint(m, idx, blockCount, false));
      KeptWiden(Paint(m, idx, required, false), m, old(count[..]), count[..]);
    }

    // Take the first `required` pages of a listed run off the list; what is
    // left of the run goes back on.
    method CarveBlock(idx: Index, required: U32, ghost m: Mask, ghost a: nat)
      requires Listed(m) && a < |fl| && fl[a] == idx
      requires idx < totalPages && required <= count[idx]
      modifies this`freeHead, this`fl, count, freePrev, freeNext
      ensures idx + required <= totalPages && Listed(Paint(m, idx, required, false))
      ensures Kept(m, old(count[..]), count[..])
    {
      assert RunAt(m, fl, count[..], a);
      var blockCount := count[idx] % FLAG;
      FreeListRemove(idx, m, a);
      if blockCount > required {
        ReturnTail(idx, required, blockCount, m);
      }
    }

    // The stores that turn carved pages into an allocated block.
    method StampBlock(idx: Index, required: U32)
      requires Arrays() && required < FLAG && idx < totalPages && idx + required <= totalPages
      modifies count, commit
      ensures forall i :: 0 <= i < totalPages ==>
                count[i] == if i == idx then FLAG + required else if idx < i < idx + required then 0 else old(count[i])
      ensures forall i :: 0 <= i < totalPages ==> commit[i] == (idx <= i < idx + required || old(commit[i]))
    {
      count[idx] := required + FLAG;
      ZeroCounts(idx + 1, idx + required);
      CommitPages(idx, idx + required);
    }

    // Turn the front of a listed run into an allocated block.
    method HandOut(idx: Index, required: U32, ghost a: nat)
      requires Valid() && a < |fl| && fl[a] == idx
      requires idx < totalPages && pm[idx] == FREE
      requires required <= count[idx] && FreeRange(pm, idx, required)
      modifies this`freeHead, this`fl, this`pm, count, freePrev, freeNext, commit
      ensures 1 <= required ==> Valid() && pm == Take(old(pm), idx, required)
      ensures required == 0 ==> pm == old(pm) && Broken(Some(idx))
    {
      ghost var count0 := count[..];
      TakePaints(pm, idx, required);
      CarveBlock(idx, required, FreeMask(pm), a);
      ghost var count1 := count[..];
      StampBlock(idx, required);
      if required == 0 {
        assert Paint(FreeMask(pm), idx, 0, false) == FreeMask(pm);
        RunsDetermineList(FreeMask(pm), old(fl), count0, fl, count1);
        assert fl[a] == idx;
        FlaggedFreePage(pm, count[..], idx);
      } else {
        RunsFrame(FreeMask(Take(pm, idx, required)), fl, count1, count[..]);
        TakeKeepsWellFormed(pm, idx, required);
        CountsAfterTake(pm, idx, required, count0, count[..]);
        pm := Take(pm, idx, required);
      }
    }

    // A page is handed out although it is still free and on the list.
    ghost predicate Broken(page: Option<nat>)
      reads this, count, freePrev, freeNext, commit
    {
      && page.Some? && page.value < |pm| && page.value < count.Length
      && pm[page.value] == FREE && page.value in fl && count[page.value] == FLAG
      && !Valid()
    }

    // The lowest free run with room for `required` pages; any free page has room
    // for none.
    method FindFit(required: U32) returns (idx: U32, ghost a: nat)
      requires Valid()
      ensures idx == if FirstFit(pm, if required == 0 then 1 else required) < totalPages
                     then FirstFit(pm, if required == 0 then 1 else required) else NIL
      ensures idx != NIL ==>
                && a < |fl| && fl[a] == idx && idx < totalPages && pm[idx] == FREE
                && required <= count[idx] && FreeRange(pm, idx, required)
    {
      idx, a := FreeListFindBlock(required, FreeMask(pm));
      if idx != NIL {
        assert RunAt(FreeMask(pm), fl, count[..], a);
      }
      ListFindsFirstFit(pm, fl, count[..], a, if required == 0 then 1 else required);
    }

    // Asking for no page at all, as callers do after an overflow, breaks the
    // chunk unless it is full: the first free page is stamped as allocated and
    // stays listed.
    method AllocatePages(required: U32) returns (page: Option<nat>)
      requires Valid()
      modifies this`freeHead, this`fl, this`pm, count, freePrev, freeNext, commit
      ensures 1 <= required ==> Valid()
      ensures 1 <= required ==>
                page == if FirstFit(old(pm), required) < totalPages then Some(FirstFit(old(pm), required)) else None
      ensures 1 <= required ==> pm == if page.Some? then Take(old(pm), page.value, required) else old(pm)
      ensures required == 0 ==>
                && pm == old(pm)
                && (if FirstFit(pm, 1) < totalPages then page == Some(FirstFit(pm, 1)) && Broken(page)
                    else page == None && Valid())
    {
      var idx, a := FindFit(required);
      if idx == NIL {
        return None;
      }
      HandOut(idx, required, a);
      return Some(idx);
    }

    // Reset the counts of a block and put it on the list.
    method ReturnBlock(idx: Index, blockCount: U32, ghost m: Mask)
      requires Listed(m) && 1 <= blockCount && idx + blockCount <= totalPages
      requires forall j :: idx <= j < idx + blockCount ==> !m[j]
      modifies this`freeHead, this`fl, count, freePrev, freeNext
      ensures Listed(Paint(m, idx, blockCount, true))
      ensures Kept(Paint(m, idx, blockCount, true), old(count[..]), count[..])
      ensures forall i :: idx <= i < idx + blockCount ==> count[i] < FLAG
    {
      ghost var count0 := count[..];
      ZeroCounts(idx, idx + blockCount);
      count[idx] := blockCount;
      RunsFrame(m, fl, count0, count[..]);
      FreeListInsert(idx, blockCount, m);
    }

    method FreePage(idx: Index)
      requires Valid() && idx < totalPages
      modifies this`freeHead, this`fl, this`pm, count, freePrev, freeNext
      ensures Valid()
      ensures pm == if old(pm)[idx] == idx then Release(old(pm), idx) else old(pm)
    {
      ghost var count0 := count[..];
      var c := count[idx];
      if c < FLAG {
        return;
      }
      var blockCount := c % FLAG;
      ReturnBlock(idx, blockCount, FreeMask(pm));
      ReleasePaints(pm, idx, blockCount);
      ReleaseKeepsWellFormed(pm, idx);
      CountsAfterRelease(pm, idx, blockCount, count0, count[..]);
      pm := Release(pm, idx);
    }

    // Resolve any address to the block that holds it, by scanning back to the
    // nearest nonzero count.
    method Validate(addr: nat) returns (page: Option<nat>)
      requires Valid() && 1 <= totalPages
      ensures page.Some? <==> base <= addr < base + totalPages * PAGE_SIZE && pm[(addr - base) / PAGE_SIZE] != FREE
      ensures page.Some? ==> page.value == base + pm[(addr - base) / PAGE_SIZE] * PAGE_SIZE
    {
      if addr < base || addr >= base + totalPages * PAGE_SIZE {
        return None;
      }
      var idx := (addr - base) / PAGE_SIZE;
      var head := idx;
      while count[head] == 0
        invariant 0 <= head <= idx
        invariant forall j :: head < j <= idx ==> count[j] == 0
        decreases head
      {
        if head == 0 {
          ScanStopsAtHead(pm, count[..], idx, head);
          return None;
        }
        head := head - 1;
      }
      ScanStopsAtHead(pm, count[..], idx, head);
      var c := count[head];
      if c < FLAG {
        return None;
      }
      if idx >= head + c % FLAG {
        return None;
      }
      return Some(base + head * PAGE_SIZE);
    }

    method AllocatePage() returns (page: Option<nat>, pageCountIfHuge: nat)
      requires Valid()
      modifies this`freeHead, this`fl, this`pm, count, freePrev, freeNext, commit
      ensures Valid() && pageCountIfHuge == 0
      ensures page.None? <==> forall i :: 0 <= i < totalPages ==> old(pm)[i] != FREE
      ensures page.None? ==> pm == old(pm)
      ensures page.Some? ==> page.value == FirstFit(old(pm), 1) < totalPages && pm == Take(old(pm), page.value, 1)
    {
      page := AllocatePages(1);
      pageCountIfHuge := 0;
      OnePageFits(old(pm));
    }

    // A huge block has room for `size` bytes and no page more than that takes,
    // if rounding up does not overflow; otherwise no page is asked for.
    method AllocateHugePage(size: nat) returns (page: Option<nat>, pageCountIfHuge: nat)
      requires Valid() && 1 <= size < WORD
      modifies this`freeHead, this`fl, this`pm, count, freePrev, freeNext, commit
      ensures size <= WORD - PAGE_SIZE ==>
                && Valid()
                && size <= pageCountIfHuge * PAGE_SIZE < size + PAGE_SIZE
                && (page.None? <==> forall i :: !FreeRange(old(pm), i, pageCountIfHuge))
      ensures size <= WORD - PAGE_SIZE && page.None? ==> pm == old(pm)
      ensures size <= WORD - PAGE_SIZE && page.Some? ==>
                && page.value == FirstFit(old(pm), pageCountIfHuge) < totalPages
                && IsBlock(pm, page.value, pageCountIfHuge)
                && pm == Take(old(pm), page.value, pageCountIfHuge)
      ensures WORD - PAGE_SIZE < size ==> pageCountIfHuge == 0 && if page.None? then Valid() else Broken(page)
    {
      RequiredPagesExact(size);
      pageCountIfHuge := RequiredPages(size);
      if pageCountIfHuge > totalPages {
        return None, pageCountIfHuge;
      }
      page := AllocatePages(pageCountIfHuge);
      if page.Some? && pageCountIfHuge > 0 {
        TakeKeepsWellFormed(old(pm), page.value, pageCountIfHuge);
      }
    }

    // One request, answered as the page map says.
    method Perform(op: Op) returns (answer: Option<nat>)
      requires Valid() && Admissible(op, totalPages)
      modifies this`freeHead, this`fl, this`pm, count, freePrev, freeNext, commit
      ensures Valid()
      ensures (answer, pm) == Apply(old(pm), op)
    {
      match op {
        case Alloc(n) =>
          answer := AllocatePages(n);
        case Free(idx) =>
          FreePage(idx);
          answer := None;
        case Lookup(idx) =>
          var page := Validate(base + idx * PAGE_SIZE);
          answer := if page.None? then None else Some((page.value - base) / PAGE_SIZE);
      }
    }

    // A sequence of requests: the arrays answer as the page map does.
    method PerformAll(ops: seq<Op>) returns (answers: seq<Option<nat>>)
      requires Valid() && forall k :: 0 <= k < |ops| ==> Admissible(ops[k], totalPages)
      modifies this`freeHead, this`fl, this`pm, count, freePrev, freeNext, commit
      ensures Valid()
      ensures (answers, pm) == Replay(old(pm), ops)
      decreases |ops|
    {
      if ops == [] {
        return [];
      }
      var first := Perform(ops[0]);
      var rest := PerformAll(ops[1..]);
      answers := [first] + rest;
    }
  }

  // ---- requests against the page map ---------------------------------------

  datatype Op = Alloc(n: U32) | Free(idx: Index) | Lookup(idx: Index)

  predicate Admissible(op: Op, totalPages: nat) {
    match op
    case Alloc(n) => 1 <= n
    case Free(idx) => idx < totalPages
    case Lookup(idx) => idx < totalPages
  }

  function Apply(pm: Pages, op: Op): (r: (Option<nat>, Pages))
    requires Admissible(op, |pm|)
    ensures |r.1| == |pm|
  {
    match op
    case Alloc(n) =>
      var i := FirstFit(pm, n);
      if i < |pm| then (Some(i), Take(pm, i, n)) else (None, pm)
    case Free(idx) => (None, if pm[idx] == idx then Release(pm, idx) else pm)
    case Lookup(idx) => (if pm[idx] < 0 then None else Some(pm[idx]), pm)
  }

  function Replay(pm: Pages, ops: seq<Op>): (r: (seq<Option<nat>>, Pages))
    requires forall k :: 0 <= k < |ops| ==> Admissible(ops[k], |pm|)
    decreases |ops|
  {
    if ops == [] then ([], pm)
    else
      var (a, pm') := Apply(pm, ops[0]);
      var (rest, last) := Replay(pm', ops[1..]);
      ([a] + rest, last)
  }

  // Everything an allocator state can show is determined by its blocks: two
  // states with the same allocated blocks have the same list, head for head,
  // count for count and link for link.
  lemma CanonicalForm(c: Chunk, d: Chunk)
    requires c.Valid() && d.Valid() && c.totalPages == d.totalPages && SameBlocks(c.pm, d.pm)
    ensures c.pm == d.pm && c.fl == d.fl && c.freeHead == d.freeHead
    ensures forall k :: 0 <= k < |c.fl| ==>
              && c.fl[k] < c.totalPages
              && c.count[c.fl[k]] == d.count[c.fl[k]]
              && c.freeNext[c.fl[k]] == d.freeNext[c.fl[k]]
              && c.freePrev[c.fl[k]] == d.freePrev[c.fl[k]]
  {
    BlocksDetermineMap(c.pm, d.pm);
    RunsDetermineList(FreeMask(c.pm), c.fl, c.count[..], d.fl, d.count[..]);
    forall k | 0 <= k < |c.fl|
      ensures c.freeNext[c.fl[k]] == d.freeNext[c.fl[k]] && c.freePrev[c.fl[k]] == d.freePrev[c.fl[k]]
    {
      assert Node(c.fl, c.freeNext[..], c.freePrev[..], k);
      assert Node(d.fl, d.freeNext[..], d.freePrev[..], k);
    }
  }

  lemma {:induction false} ReplayKeepsWellFormed(pm: Pages, ops: seq<Op>)
    requires WellFormed(pm) && forall k :: 0 <= k < |ops| ==> Admissible(ops[k], |pm|)
    ensures WellFormed(Replay(pm, ops).1) && |Replay(pm, ops).1| == |pm|
    decreases |ops|
  {
    if ops != [] {
      match ops[0] {
        case Alloc(n) =>
          if FirstFit(pm, n) < |pm| {
            TakeKeepsWellFormed(pm, FirstFit(pm, n), n);
          }
        case Free(idx) => ReleaseKeepsWellFormed(pm, idx);
        case Lookup(idx) =>
      }
      ReplayKeepsWellFormed(Apply(pm, ops[0]).1, ops[1..]);
    }
  }

  // Histories that end with the same allocated blocks answer every later
  // sequence of requests alike.
  lemma HistoryIsUnobservable(n: nat, past: seq<Op>, past': seq<Op>, future: seq<Op>)
    requires forall k :: 0 <= k < |past| ==> Admissible(past[k], n)
    requires forall k :: 0 <= k < |past'| ==> Admissible(past'[k], n)
    requires forall k :: 0 <= k < |future| ==> Admissible(future[k], n)
    ensures var empty := seq(n, _ => FREE);
            var pm, qm := Replay(empty, past).1, Replay(empty, past').1;
            |pm| == |qm| == n && (SameBlocks(pm, qm) ==> Replay(pm, future) == Replay(qm, future))
  {
    var empty := seq(n, _ => FREE);
    ReplayKeepsWellFormed(empty, past);
    ReplayKeepsWellFormed(empty, past');
    var pm, qm := Replay(empty, past).1, Replay(empty, past').1;
    if SameBlocks(pm, qm) {
      BlocksDetermineMap(pm, qm);
    }
  }

  // The same on the arrays: two chunks with the same allocated blocks, whatever
  // their histories, answer every sequence of requests alike and end alike.
  method AnswerAlike(c: Chunk, d: Chunk, ops: seq<Op>) returns (answers: seq<Option<nat>>, answers': seq<Option<nat>>)
    requires c.Valid() && d.Valid() && c.totalPages == d.totalPages && SameBlocks(c.pm, d.pm)
    requires c != d && {c.count, c.freePrev, c.freeNext} !! {d.count, d.freePrev, d.freeNext} && c.commit != d.commit
    requires forall k :: 0 <= k < |ops| ==> Admissible(ops[k], c.totalPages)
    modifies c, c.count, c.freePrev, c.freeNext, c.commit
    modifies d, d.count, d.freePrev, d.freeNext, d.commit
    ensures answers == answers'
    ensures c.Valid() && d.Valid() && c.pm == d.pm && c.fl == d.fl && c.freeHead == d.freeHead
  {
    BlocksDetermineMap(c.pm, d.pm);
    answers := c.PerformAll(ops);
    answers' := d.PerformAll(ops);
    CanonicalForm(c, d);
  }

  function Frees(heads: seq<Index>): (ops: seq<Op>)
    ensures |ops| == |heads| && forall k :: 0 <= k < |ops| ==> ops[k] == Free(heads[k])
  {
    seq(|heads|, k requires 0 <= k < |heads| => Free(heads[k]))
  }

  // After a sequence of frees exactly the pages of the named blocks are free.
  lemma {:induction false} FreesAt(pm: Pages, heads: seq<Index>, i: nat)
    requires WellFormed(pm) && i < |pm| && forall k :: 0 <= k < |heads| ==> heads[k] < |pm|
    ensures var last := Replay(pm, Frees(heads)).1;
            |last| == |pm| && last[i] == if pm[i] in heads then FREE else pm[i]
    decreases |heads|
  {
    if heads != [] {
      var pm' := Apply(pm, Free(heads[0])).1;
      ReleaseKeepsWellFormed(pm, heads[0]);
      assert Frees(heads)[1..] == Frees(heads[1..]);
      assert heads == [heads[0]] + heads[1..];
      assert pm'[i] == if pm[i] == heads[0] then FREE else pm[i];
      FreesAt(pm', heads[1..], i);
    }
  }

  // Neither the order nor the number of times blocks are given back matters.
  lemma FreesInAnyOrder(pm: Pages, heads: seq<Index>, heads': seq<Index>)
    requires WellFormed(pm) && forall k :: 0 <= k < |heads| ==> heads[k] < |pm|
    requires forall k :: 0 <= k < |heads'| ==> heads'[k] < |pm|
    requires forall h :: h in heads <==> h in heads'
    ensures Replay(pm, Frees(heads)).1 == Replay(pm, Frees(heads')).1
  {
    ReplayKeepsWellFormed(pm, Frees(heads));
    ReplayKeepsWellFormed(pm, Frees(heads'));
    forall i: nat | i < |pm|
      ensures Replay(pm, Frees(heads)).1[i] == Replay(pm, Frees(heads')).1[i]
    {
      FreesAt(pm, heads, i);
      FreesAt(pm, heads', i);
    }
  }

  // A block handed out and given back leaves no trace.
  lemma FreeUndoesAllocate(pm: Pages, n: U32)
    requires WellFormed(pm) && 1 <= n && FirstFit(pm, n) < |pm| < FLAG
    ensures Apply(Apply(pm, Alloc(n)).1, Free(FirstFit(pm, n))).1 == pm
  {
    TakeKeepsWellFormed(pm, FirstFit(pm, n), n);
    ReleaseUndoesTake(pm, FirstFit(pm, n), n);
  }

  // What the requests mean, without the page map's own functions: an allocation
  // answers the lowest index where that many pages are free and makes them one
  // block, a free empties the block with that head, a lookup names the head of the
  // block around a page; and none of them touches any other block.
  lemma RequestsMean(pm: Pages, op: Op, i: int)
    requires WellFormed(pm) && Admissible(op, |pm|)
    ensures var (answer, qm) := Apply(pm, op);
            match op
            case Alloc(n) =>
              && (answer == Some(i) && i >= 0 <==>
                    FreeRange(pm, i, n) && forall k :: 0 <= k < i ==> !FreeRange(pm, k, n))
              && (answer == None ==> qm == pm && forall k :: 0 <= k < |pm| ==> !FreeRange(pm, k, n))
              && (answer.Some? ==> IsBlock(qm, answer.value, n))
              && (forall g, c :: IsBlock(pm, g, c) ==> IsBlock(qm, g, c))
            case Free(idx) =>
              && answer == None
              && (forall c: nat :: IsBlock(pm, idx, c) ==> FreeRange(qm, idx, c))
              && (forall g, c :: g != idx && IsBlock(pm, g, c) ==> IsBlock(qm, g, c))
            case Lookup(idx) =>
              && qm == pm
              && (answer == None <==> pm[idx] == FREE)
              && (answer.Some? ==> exists c :: IsBlock(pm, answer.value, c) && answer.value <= idx < answer.value + c)
  {
    match op {
      case Alloc(n) =>
        if FirstFit(pm, n) < |pm| {
          TakeKeepsWellFormed(pm, FirstFit(pm, n), n);
        }
      case Free(idx) => ReleaseKeepsWellFormed(pm, idx);
      case Lookup(idx) =>
        if pm[idx] != FREE {
          EveryPageHasItsBlock(pm, idx);
        }
    }
  }
}
