/**
 The size groups of in-page units: the lookup tables, and what they promise
 about requests and pages.
 */
module SizeClasses {
  import opened Chunk

  const PAGE_HEAD_SIZE: nat := 24
  const UNIT_HEAD_SIZE: nat := 8
  const UNIT_STORAGE: nat := 32736            // a page less PageHead and PageUnitAlloc
  const MAX_SMALL_UNIT_SIZE: nat := 1048
  const MAX_IN_PAGE_UNIT_SIZE: nat := 16360
  const MAX_GROUP: nat := 13

  // GROUP_SIZE_LOOKUP_TABLE
  const GROUP_SIZE: seq<nat> := [16, 40, 88, 168, 344, 520, 736, 1048, 2720, 5448, 8176, 10904, 16360]

  function Times(n: nat, g: nat): (r: seq<nat>)
    ensures |r| == n
    ensures forall i :: 0 <= i < n ==> r[i] == g
  {
    seq(n, _ => g)
  }

  // SMALL_UNIT_GROUP_FAST_LOOKUP_TABLE
  function FastLookup(): (r: seq<nat>)
    ensures |r| == 132
    ensures forall k :: 0 <= k < 132 ==>
              r[k] == if k < 3 then 0 else if k < 6 then 1 else if k < 12 then 2 else if k < 22 then 3
                      else if k < 44 then 4 else if k < 66 then 5 else if k < 93 then 6 else 7
  {
    Times(3, 0) + Times(3, 1) + Times(6, 2) + Times(10, 3) + Times(22, 4) + Times(22, 5) + Times(27, 6) + Times(39, 7)
  }

  // eval_group_by_small_unit_size
  function Group(size: nat): (g: nat)
    ensures g < MAX_GROUP
  {
    if size <= MAX_SMALL_UNIT_SIZE then FastLookup()[(size + 7) / 8]
    else if size <= GROUP_SIZE[8] then 8
    else if size <= GROUP_SIZE[9] then 9
    else if size <= GROUP_SIZE[10] then 10
    else if size <= GROUP_SIZE[11] then 11
    else 12
  }

  // The group found is the smallest that fits the request.
  lemma GroupIsTightest(size: nat)
    requires size <= MAX_IN_PAGE_UNIT_SIZE
    ensures size <= GROUP_SIZE[Group(size)]
    ensures forall g :: 0 <= g < Group(size) ==> GROUP_SIZE[g] < size
  {
  }

  // A page of a group goes back to the pool of that group: looking up a
  // group's own unit size finds the group.
  lemma GroupOfItsOwnSize(g: nat)
    requires g < MAX_GROUP
    ensures Group(GROUP_SIZE[g]) == g
  {
  }

  function UnitCount(unitSize: nat): nat {
    UNIT_STORAGE / (unitSize + UNIT_HEAD_SIZE)
  }

  // Every group tiles the unit storage of a page with no byte left over.
  lemma GroupsTileThePage(g: nat)
    requires g < MAX_GROUP
    ensures UnitCount(GROUP_SIZE[g]) * (GROUP_SIZE[g] + UNIT_HEAD_SIZE) == UNIT_STORAGE
    ensures 2 <= UnitCount(GROUP_SIZE[g])
  {
  }

  // get_unit_available_size of a huge unit of n pages.
  function HugeAvailable(n: nat): int {
    n * PAGE_SIZE - (PAGE_HEAD_SIZE + UNIT_HEAD_SIZE)
  }

  // The pages woomem_allocate_begin asks for, with the additions wrapping as
  // size_t additions do.
  function HugePages(size: nat): nat {
    RequiredPages((PAGE_HEAD_SIZE + UNIT_HEAD_SIZE + size) % WORD)
  }

  // A huge unit has room for the request exactly when the size does not bring
  // the additions to overflow.
  lemma HugeFitsExactly(size: nat)
    requires MAX_IN_PAGE_UNIT_SIZE < size < WORD
    ensures size <= HugeAvailable(HugePages(size)) <==> size + 32 + (PAGE_SIZE - 1) < WORD
  {
    var bytes := (32 + size) % WORD;
    RequiredPagesExact(bytes);
  }

  // What an overflowing request asks the chunk for: no page at all, which
  // breaks the chunk (`Chunk.AllocatePages`), or, when already adding the heads
  // wraps past zero, one page.
  lemma OverflowAsksTooLittle(size: nat)
    requires size < WORD && WORD <= size + 32 + (PAGE_SIZE - 1)
    ensures HugePages(size) == if size + 32 <= WORD then 0 else 1
    ensures HugeAvailable(HugePages(size)) < size
  {
    if size + 32 < WORD {
      RequiredPagesExact(32 + size);
    } else {
      assert (32 + size) % WORD == 32 + size - WORD;
    }
  }

  // What a successful allocation makes available.
  function Available(size: nat): int {
    if size <= MAX_IN_PAGE_UNIT_SIZE then GROUP_SIZE[Group(size)] else HugeAvailable(HugePages(size))
  }

  lemma RequestFits(size: nat)
    requires size + 32 + (PAGE_SIZE - 1) < WORD
    ensures size <= Available(size)
  {
    if size <= MAX_IN_PAGE_UNIT_SIZE {
      GroupIsTightest(size);
    } else {
      HugeFitsExactly(size);
    }
  }
}
