/**
 The address-sorted, doubly linked free list of a chunk, as pure facts about
 the contents of `free_next_`, `free_prev_` and `count_`.

 `m` marks the pages the list is responsible for. While a block is being
 merged its pages are temporarily unmarked, so one invariant serves every
 point of `free_list_insert`.
 */
module FreeList {

  type U32 = x: int | 0 <= x < 0x1_0000_0000

  const NIL: U32 := 0xFFFF_FFFF      // INDEX_NULL
  const FLAG: U32 := 0x8000_0000     // ALLOCATED_FLAG

  // A page index: the chunk never holds more pages than the flag bit allows.
  type Index = x: int | 0 <= x < 0x8000_0000

  type Mask = seq<bool>

  // The a-th listed head, or the null index beyond either end.
  function At(fl: seq<Index>, a: int): U32 {
    if 0 <= a < |fl| then fl[a] else NIL
  }

  ghost predicate Sorted(fl: seq<Index>) {
    forall a, b :: 0 <= a < b < |fl| ==> fl[a] < fl[b]
  }

  // The k-th head points at its two neighbours.
  ghost predicate Node(fl: seq<Index>, next: seq<U32>, prev: seq<U32>, k: int) {
    && 0 <= k < |fl| && fl[k] < |next| && fl[k] < |prev|
    && next[fl[k]] == At(fl, k + 1)
    && prev[fl[k]] == At(fl, k - 1)
  }

  // head, next and prev spell out fl in both directions.
  ghost predicate Linked(fl: seq<Index>, head: U32, next: seq<U32>, prev: seq<U32>) {
    && Sorted(fl)
    && |next| == |prev|
    && head == At(fl, 0)
    && (forall k :: 0 <= k < |fl| ==> Node(fl, next, prev, k))
  }

  // Pages [k, k + c) are a maximal run of marked pages.
  ghost predicate IsRun(m: Mask, k: int, c: int) {
    && 0 <= k < k + c <= |m|
    && (forall j :: k <= j < k + c ==> m[j])
    && (k == 0 || !m[k - 1])
    && (k + c == |m| || !m[k + c])
  }

  predicate RunStart(m: Mask, k: int) {
    0 <= k < |m| && m[k] && (k == 0 || !m[k - 1])
  }

  // The k-th head starts a maximal run whose length is its count.
  ghost predicate RunAt(m: Mask, fl: seq<Index>, count: seq<U32>, k: int) {
    0 <= k < |fl| && fl[k] < |count| && IsRun(m, fl[k], count[fl[k]])
  }

  // fl lists exactly the maximal runs, and count holds their lengths.
  ghost predicate Runs(m: Mask, fl: seq<Index>, count: seq<U32>) {
    && |m| == |count| < FLAG
    && Sorted(fl)
    && (forall k :: 0 <= k < |fl| ==> RunAt(m, fl, count, k))
    && (forall i :: RunStart(m, i) ==> i in fl)
  }

  function Paint(m: Mask, k: int, c: int, v: bool): (r: Mask)
    ensures |r| == |m|
    ensures forall i :: 0 <= i < |r| ==> r[i] == if k <= i < k + c then v else m[i]
  {
    seq(|m|, i requires 0 <= i < |m| => if k <= i < k + c then v else m[i])
  }

  // Moving pages from the list into the block in hand leaves their union alone.
  lemma PaintMerge(m: Mask, x: int, c: int, g: int, d: int)
    requires 0 <= x < x + c <= |m| && 0 <= g < g + d <= |m|
    requires forall j :: g <= j < g + d ==> m[j]
    requires g + d == x || x + c == g
    ensures Paint(Paint(m, g, d, false), if g < x then g else x, c + d, true) == Paint(m, x, c, true)
  {
  }

  lemma PaintSplit(m: Mask, x: int, c: int, n: int)
    requires 0 <= x <= x + n <= x + c <= |m|
    requires forall j :: x <= j < x + c ==> m[j]
    ensures Paint(Paint(m, x, c, false), x + n, c - n, true) == Paint(m, x, n, false)
  {
  }

  function Drop(fl: seq<Index>, a: nat): (r: seq<Index>)
    requires a < |fl|
    ensures |r| == |fl| - 1
    ensures forall k :: 0 <= k < |r| ==> r[k] == if k < a then fl[k] else fl[k + 1]
  {
    fl[..a] + fl[a + 1..]
  }

  function Put(fl: seq<Index>, a: nat, x: Index): (r: seq<Index>)
    requires a <= |fl|
    ensures |r| == |fl| + 1
    ensures forall k :: 0 <= k < |r| ==> r[k] == if k < a then fl[k] else if k == a then x else fl[k - 1]
  {
    fl[..a] + [x] + fl[a..]
  }

  // a is the place of x in the list: everything before is below, the rest above.
  ghost predicate Place(fl: seq<Index>, a: nat, x: int) {
    && a <= |fl|
    && (forall k :: 0 <= k < a ==> fl[k] < x)
    && (forall k :: a <= k < |fl| ==> x < fl[k])
  }

  // ---- the two list edits, over the pointer arrays -------------------------

  // Store v at i; the null index is not a place.
  function Set(s: seq<U32>, i: U32, v: U32): (r: seq<U32>)
    ensures |r| == |s|
    ensures forall k :: 0 <= k < |s| ==> r[k] == if k == i then v else s[k]
  {
    if i < |s| then s[i := v] else s
  }

  lemma UnlinkKeepsNode(fl: seq<Index>, a: nat, next: seq<U32>, prev: seq<U32>, o: nat)
    requires Sorted(fl) && |next| == |prev| && a < |fl| && o < |fl| && o != a
    requires Node(fl, next, prev, o)
    ensures Node(Drop(fl, a), Set(Set(next, At(fl, a - 1), At(fl, a + 1)), fl[a], NIL),
                 Set(Set(prev, At(fl, a + 1), At(fl, a - 1)), fl[a], NIL), if o < a then o else o - 1)
  {
    assert fl[o] != fl[a];
    assert fl[o] == At(fl, a - 1) <==> o == a - 1;
    assert fl[o] == At(fl, a + 1) <==> o == a + 1;
  }

  lemma UnlinkKeepsLinked(fl: seq<Index>, a: nat, head: U32, next: seq<U32>, prev: seq<U32>)
    requires Linked(fl, head, next, prev) && a < |fl|
    ensures Linked(Drop(fl, a), if a == 0 then At(fl, 1) else head,
                   Set(Set(next, At(fl, a - 1), At(fl, a + 1)), fl[a], NIL),
                   Set(Set(prev, At(fl, a + 1), At(fl, a - 1)), fl[a], NIL))
  {
    var r := Drop(fl, a);
    var next' := Set(Set(next, At(fl, a - 1), At(fl, a + 1)), fl[a], NIL);
    var prev' := Set(Set(prev, At(fl, a + 1), At(fl, a - 1)), fl[a], NIL);
    forall k | 0 <= k < |r|
      ensures Node(r, next', prev', k)
    {
      UnlinkKeepsNode(fl, a, next, prev, if k < a then k else k + 1);
    }
  }

  lemma LinkKeepsNode(fl: seq<Index>, a: nat, x: Index, next: seq<U32>, prev: seq<U32>, o: nat)
    requires Sorted(fl) && |next| == |prev| && Place(fl, a, x) && x < |next|
    requires o < |fl| && Node(fl, next, prev, o)
    ensures Node(Put(fl, a, x), Set(Set(next, x, At(fl, a)), At(fl, a - 1), x),
                 Set(Set(prev, x, At(fl, a - 1)), At(fl, a), x), if o < a then o else o + 1)
  {
    assert fl[o] != x;
    assert fl[o] == At(fl, a - 1) <==> o == a - 1;
    assert fl[o] == At(fl, a) <==> o == a;
  }

  lemma LinkKeepsLinked(fl: seq<Index>, a: nat, x: Index, head: U32, next: seq<U32>, prev: seq<U32>)
    requires Linked(fl, head, next, prev) && Place(fl, a, x) && x < |next|
    ensures Linked(Put(fl, a, x), if a == 0 then x else head,
                   Set(Set(next, x, At(fl, a)), At(fl, a - 1), x),
                   Set(Set(prev, x, At(fl, a - 1)), At(fl, a), x))
  {
    var r := Put(fl, a, x);
    var next' := Set(Set(next, x, At(fl, a)), At(fl, a - 1), x);
    var prev' := Set(Set(prev, x, At(fl, a - 1)), At(fl, a), x);
    forall k | 0 <= k < |r|
      ensures Node(r, next', prev', k)
    {
      if k == a {
        assert r[k] == x;
      } else {
        LinkKeepsNode(fl, a, x, next, prev, if k < a then k else k - 1);
      }
    }
    assert Sorted(r) by {
      PutKeepsSorted(fl, a, x);
    }
  }

  lemma PutKeepsSorted(fl: seq<Index>, a: nat, x: Index)
    requires Sorted(fl) && Place(fl, a, x)
    ensures Sorted(Put(fl, a, x))
  {
  }

  // ---- the same edits, over the runs of pages ------------------------------

  // Two different maximal runs are separated by an unmarked page.
  lemma RunsApart(m: Mask, g: int, d: int, h: int, c: int)
    requires IsRun(m, g, d) && IsRun(m, h, c) && g < h
    ensures g + d < h
  {
    assert !m[h - 1] && m[h];
  }

  lemma RunOutlivesOther(m: Mask, g: int, d: int, h: int, c: int)
    requires IsRun(m, g, d) && IsRun(m, h, c) && g != h
    ensures IsRun(Paint(m, h, c, false), g, d)
  {
    if g < h {
      RunsApart(m, g, d, h, c);
    } else {
      RunsApart(m, h, c, g, d);
    }
  }

  lemma UnlistRun(m: Mask, fl: seq<Index>, a: nat, count: seq<U32>)
    requires Runs(m, fl, count) && a < |fl|
    ensures fl[a] < |count|
    ensures Runs(Paint(m, fl[a], count[fl[a]], false), Drop(fl, a), count)
  {
    assert RunAt(m, fl, count, a);
    var h, c := fl[a], count[fl[a]];
    var m' := Paint(m, h, c, false);
    var r := Drop(fl, a);
    forall k | 0 <= k < |r|
      ensures RunAt(m', r, count, k)
    {
      var o := if k < a then k else k + 1;
      assert r[k] == fl[o];
      assert RunAt(m, fl, count, o);
      RunOutlivesOther(m, fl[o], count[fl[o]], h, c);
    }
    forall i | RunStart(m', i)
      ensures i in r
    {
      assert RunStart(m, i);
      DropKeeps(fl, a, i);
    }
  }

  lemma DropKeeps(fl: seq<Index>, a: nat, i: int)
    requires a < |fl| && i in fl && i != fl[a]
    ensures i in Drop(fl, a)
  {
    var o :| 0 <= o < |fl| && fl[o] == i;
    assert Drop(fl, a)[if o < a then o else o - 1] == i;
  }

  // A block that touches no listed run on either side becomes a run of its own.
  lemma ListRun(m: Mask, fl: seq<Index>, a: nat, x: Index, c: U32, count: seq<U32>)
    requires Runs(m, fl, count) && Place(fl, a, x)
    requires 1 <= c && x + c <= |m|
    requires forall j :: x <= j < x + c ==> !m[j]
    requires x == 0 || !m[x - 1]
    requires x + c == |m| || !m[x + c]
    ensures Runs(Paint(m, x, c, true), Put(fl, a, x), count[x := c])
  {
    var count' := count[x := c];
    var m' := Paint(m, x, c, true);
    var r := Put(fl, a, x);
    assert IsRun(m', x, c);
    assert RunAt(m', r, count', a);
    forall k | 0 <= k < |r| && k != a
      ensures RunAt(m', r, count', k)
    {
      var o := if k < a then k else k - 1;
      assert r[k] == fl[o] != x;
      assert RunAt(m, fl, count, o);
      RunSurvives(m, fl[o], count[fl[o]], x, c);
    }
    forall i | RunStart(m', i)
      ensures i in r
    {
      assert r[a] == x;
      if i != x {
        assert RunStart(m, i);
        PutKeeps(fl, a, x, i);
      }
    }
  }

  lemma PutKeeps(fl: seq<Index>, a: nat, x: Index, i: int)
    requires a <= |fl| && i in fl
    ensures i in Put(fl, a, x)
  {
    var o :| 0 <= o < |fl| && fl[o] == i;
    assert Put(fl, a, x)[if o < a then o else o + 1] == i;
  }

  lemma RunSurvives(m: Mask, g: int, d: int, x: int, c: int)
    requires IsRun(m, g, d) && 0 <= x < x + c <= |m|
    requires forall j :: x <= j < x + c ==> !m[j]
    requires x == 0 || !m[x - 1]
    requires x + c == |m| || !m[x + c]
    ensures IsRun(Paint(m, x, c, true), g, d)
  {
    RunAvoids(m, g, d, x, c);
  }

  // A run of marked pages lies clear of a block of unmarked ones.
  lemma RunAvoids(m: Mask, g: int, d: int, x: int, c: int)
    requires IsRun(m, g, d) && 0 <= x < x + c <= |m|
    requires forall j :: x <= j < x + c ==> !m[j]
    requires x == 0 || !m[x - 1]
    requires x + c == |m| || !m[x + c]
    ensures g + d < x || x + c < g
  {
    assert m[g] && m[g + d - 1];
  }

  // A marked page right above the block starts the listed run after x.
  lemma TouchingRunAbove(m: Mask, fl: seq<Index>, a: nat, x: Index, c: nat, count: seq<U32>)
    requires Runs(m, fl, count) && Place(fl, a, x)
    requires 1 <= c && x + c <= |m|
    requires forall j :: x <= j < x + c ==> !m[j]
    ensures x + c < |m| && m[x + c] ==> At(fl, a) == x + c
  {
    if x + c < |m| && m[x + c] {
      assert RunStart(m, x + c);
      var o :| 0 <= o < |fl| && fl[o] == x + c;
      assert a <= o;
      assert RunAt(m, fl, count, a);
      assert m[fl[a]] && x < fl[a] <= x + c;
    }
  }

  // A marked page right below x ends the listed run before x.
  lemma TouchingRunBelow(m: Mask, fl: seq<Index>, a: nat, x: Index, count: seq<U32>)
    requires Runs(m, fl, count) && Place(fl, a, x)
    requires x < |m| && !m[x]
    ensures 0 < x && m[x - 1] ==> 0 < a && fl[a - 1] < |count| && fl[a - 1] + count[fl[a - 1]] == x
  {
    if 0 < x && m[x - 1] {
      var s := StartOf(m, x - 1);
      var o :| 0 <= o < |fl| && fl[o] == s;
      assert o <= a - 1;
      assert RunAt(m, fl, count, a - 1);
      assert s <= fl[a - 1] <= x - 1;
      assert fl[a - 1] == s;
      assert IsRun(m, s, x - s);
      SameRun(m, s, count[s], x - s);
    }
  }

  // The start of the run around a marked page.
  function StartOf(m: Mask, i: nat): (s: nat)
    requires i < |m| && m[i]
    ensures s <= i && RunStart(m, s)
    ensures forall j :: s <= j <= i ==> m[j]
  {
    if i == 0 || !m[i - 1] then i else StartOf(m, i - 1)
  }

  lemma SameRun(m: Mask, k: int, c: int, d: int)
    requires IsRun(m, k, c) && IsRun(m, k, d)
    ensures c == d
  {
  }

  // A fresh list: all pages form one run headed by page 0.
  lemma OneRun(n: Index)
    requires 1 <= n
    ensures Linked([0], 0, seq(n, _ => NIL), seq(n, _ => NIL))
    ensures Runs(seq(n, _ => true), [0], seq(n, _ => 0)[0 := n])
  {
    var fl: seq<Index> := [0];
    var m: Mask, links: seq<U32>, count: seq<U32> := seq(n, _ => true), seq(n, _ => NIL), seq(n, _ => 0)[0 := n];
    assert Node(fl, links, links, 0);
    assert IsRun(m, 0, n);
    assert RunAt(m, fl, count, 0);
    assert forall i :: RunStart(m, i) ==> i == fl[0];
  }

  // The list reads counts only at marked pages.
  lemma RunsFrame(m: Mask, fl: seq<Index>, count: seq<U32>, count': seq<U32>)
    requires Runs(m, fl, count) && |count'| == |count|
    requires forall i :: 0 <= i < |m| && m[i] ==> count'[i] == count[i]
    ensures Runs(m, fl, count')
  {
    forall k | 0 <= k < |fl|
      ensures RunAt(m, fl, count', k)
    {
      assert RunAt(m, fl, count, k);
      assert m[fl[k]];
    }
  }

  // Consecutive marked pages lie inside one listed run.
  lemma RangeInsideRun(m: Mask, fl: seq<Index>, count: seq<U32>, k: nat, n: nat) returns (o: nat)
    requires Runs(m, fl, count) && 1 <= n && k + n <= |m|
    requires forall j :: k <= j < k + n ==> m[j]
    ensures o < |fl| && RunAt(m, fl, count, o)
    ensures fl[o] <= k && k + n <= fl[o] + count[fl[o]]
  {
    var s := StartOf(m, k);
    o :| 0 <= o < |fl| && fl[o] == s;
    assert RunAt(m, fl, count, o);
    assert forall j :: s <= j < k + n ==> m[j];
  }

  // ---- canonical form -------------------------------------------------------

  // The list and the counts at its heads are determined by the marked pages alone.
  lemma RunsDetermineList(m: Mask, fl: seq<Index>, count: seq<U32>, gl: seq<Index>, count': seq<U32>)
    requires Runs(m, fl, count) && Runs(m, gl, count')
    ensures fl == gl
    ensures forall k :: 0 <= k < |fl| ==> fl[k] < |m| && count[fl[k]] == count'[fl[k]]
  {
    HeadsAreRunStarts(m, fl, count);
    HeadsAreRunStarts(m, gl, count');
    SortedUnique(fl, gl);
    forall k | 0 <= k < |fl|
      ensures fl[k] < |m| && count[fl[k]] == count'[fl[k]]
    {
      assert RunAt(m, fl, count, k) && RunAt(m, gl, count', k);
      SameRun(m, fl[k], count[fl[k]], count'[gl[k]]);
    }
  }

  lemma HeadsAreRunStarts(m: Mask, fl: seq<Index>, count: seq<U32>)
    requires Runs(m, fl, count)
    ensures forall x :: x in fl <==> RunStart(m, x)
  {
    forall k | 0 <= k < |fl|
      ensures RunStart(m, fl[k])
    {
      assert RunAt(m, fl, count, k);
    }
  }

  // Strictly increasing lists with the same elements are equal.
  lemma {:induction false} SortedUnique(fl: seq<Index>, gl: seq<Index>)
    requires Sorted(fl) && Sorted(gl)
    requires forall x :: x in fl <==> x in gl
    ensures fl == gl
  {
    assert gl != [] ==> gl[0] in gl;
    if |fl| > 0 {
      assert fl[0] in gl && gl[0] in fl;
      assert fl[0] == gl[0];
      TailElements(fl);
      TailElements(gl);
      SortedUnique(fl[1..], gl[1..]);
      assert fl == [fl[0]] + fl[1..] && gl == [gl[0]] + gl[1..];
    }
  }

  lemma TailElements(fl: seq<Index>)
    requires Sorted(fl) && |fl| > 0
    ensures Sorted(fl[1..])
    ensures forall x :: x in fl[1..] <==> x in fl && x != fl[0]
  {
    var t := fl[1..];
    forall x | x in fl && x != fl[0]
      ensures x in t
    {
      var k :| 0 <= k < |fl| && fl[k] == x;
      assert t[k - 1] == x;
    }
  }
}
