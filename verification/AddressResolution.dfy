/**
 From any address to the unit that holds it (`woomem_validate_addr`), and
 reallocation. The chunk is seen through its page map; page heads and unit
 lives are what the code finds in memory.
 */
module AddressResolution {
  import opened PageMap
  import opened SizeClasses
  import C = Chunk
  import T = Tricolour

  datatype PageInfo = PageInfo(justAllocated: bool, pageCountIfHuge: nat, group: nat)

  datatype Memory = Memory(
    base: nat,
    pm: Pages,
    info: map<nat, PageInfo>,     // page heads, by index of the block's first page
    life: nat -> T.Life)          // m_life of the unit head at an address

  // Until m_page_just_allocated is cleared nothing is known of the page head:
  // the chunk hands out a block before its page count and unit size are stored.
  ghost predicate PageOk(m: Memory, h: nat) {
    && h in m.info
    && (!m.info[h].justAllocated ==>
          && (m.info[h].pageCountIfHuge == 0 ==> m.info[h].group < MAX_GROUP)
          && IsBlock(m.pm, h, if m.info[h].pageCountIfHuge == 0 then 1 else m.info[h].pageCountIfHuge))
  }

  ghost predicate MemoryOk(m: Memory) {
    && WellFormed(m.pm)
    && forall h: nat :: h < |m.pm| && m.pm[h] == h ==> PageOk(m, h)
  }

  function PageAddr(m: Memory, h: nat): nat {
    m.base + h * C.PAGE_SIZE
  }

  function Stride(m: Memory, h: nat): (n: nat)
    requires h in m.info && m.info[h].group < MAX_GROUP
    ensures 0 < n
  {
    GROUP_SIZE[m.info[h].group] + UNIT_HEAD_SIZE
  }

  // ---- what the code computes ---------------------------------------------------

  // chunk().validate: the first page of the block around an address.
  function ResolvePage(m: Memory, addr: nat): C.Option<nat>
    requires WellFormed(m.pm)
  {
    if addr < m.base || addr >= m.base + |m.pm| * C.PAGE_SIZE then C.None
    else
      var h := m.pm[(addr - m.base) / C.PAGE_SIZE];
      if h == FREE then C.None else C.Some(h)
  }

  ghost function ValidateAddr(m: Memory, addr: nat): C.Option<nat>
    requires MemoryOk(m)
  {
    match ResolvePage(m, addr)
    case None => C.None
    case Some(h) =>
      HeadIsHead(m, addr);
      if m.info[h].justAllocated then C.None
      else if m.info[h].pageCountIfHuge == 0 then
        var storage := PageAddr(m, h) + 32;
        if addr < storage then C.None
        else Payload(m, storage + (addr - storage) / Stride(m, h) * Stride(m, h))
      else Payload(m, PageAddr(m, h) + PAGE_HEAD_SIZE)
  }

  // A unit that is no longer PENDING answers with its payload address.
  function Payload(m: Memory, unitHead: nat): C.Option<nat> {
    if m.life(unitHead).Released? || m.life(unitHead).Pending? then C.None else C.Some(unitHead + UNIT_HEAD_SIZE)
  }

  // ---- what it means ----------------------------------------------------------------

  // Unit i of the page, or the one unit of a huge block.
  ghost predicate IsUnit(m: Memory, h: nat, i: nat) {
    && h < |m.pm| && m.pm[h] == h && PageOk(m, h) && !m.info[h].justAllocated
    && (if m.info[h].pageCountIfHuge == 0 then i < UnitCount(GROUP_SIZE[m.info[h].group]) else i == 0)
  }

  ghost function UnitHead(m: Memory, h: nat, i: nat): nat
    requires IsUnit(m, h, i)
  {
    if m.info[h].pageCountIfHuge == 0 then PageAddr(m, h) + 32 + i * Stride(m, h) else PageAddr(m, h) + PAGE_HEAD_SIZE
  }

  // Head or payload of an in-page unit; anywhere in the block of a huge one.
  ghost predicate Contains(m: Memory, h: nat, i: nat, addr: nat)
    requires IsUnit(m, h, i)
  {
    if m.info[h].pageCountIfHuge == 0
    then UnitHead(m, h, i) <= addr < UnitHead(m, h, i) + Stride(m, h)
    else PageAddr(m, h) <= addr < PageAddr(m, h) + m.info[h].pageCountIfHuge * C.PAGE_SIZE
  }

  // ---- arithmetic of strides ----------------------------------------------------------

  // Dividing an offset in the unit storage by the stride finds a unit.
  lemma OffsetFindsUnit(g: nat, x: nat)
    requires g < MAX_GROUP && x < UNIT_STORAGE
    ensures var n := GROUP_SIZE[g] + UNIT_HEAD_SIZE;
            x / n < UnitCount(GROUP_SIZE[g]) && x / n * n <= x < x / n * n + n
  {
    GroupsTileThePage(g);
  }

  lemma {:induction false} NextMultiple(n: nat, i: nat, j: nat)
    requires i < j
    ensures i * n + n <= j * n
    decreases j
  {
    assert j * n == (j - 1) * n + n;
    if i < j - 1 {
      NextMultiple(n, i, j - 1);
    }
  }

  // Units do not share bytes.
  lemma OneIndex(n: nat, i: nat, j: nat, x: nat)
    requires i * n <= x < i * n + n && j * n <= x < j * n + n
    ensures i == j
  {
    if i < j {
      NextMultiple(n, i, j);
    } else if j < i {
      NextMultiple(n, j, i);
    }
  }

  lemma HeadIsHead(m: Memory, addr: nat)
    requires MemoryOk(m) && ResolvePage(m, addr).Some?
    ensures var h := ResolvePage(m, addr).value; h < |m.pm| && m.pm[h] == h && PageOk(m, h)
  {
    var i := (addr - m.base) / C.PAGE_SIZE;
    assert m.pm[m.pm[i]] == m.pm[i];
  }

  // An address lies in the pages of a block exactly when it resolves to it.
  lemma ResolvesToBlock(m: Memory, addr: nat, h: nat, c: nat)
    requires MemoryOk(m) && IsBlock(m.pm, h, c)
    ensures ResolvePage(m, addr) == C.Some(h) <==> PageAddr(m, h) <= addr < PageAddr(m, h) + c * C.PAGE_SIZE
  {
    if m.base <= addr < m.base + |m.pm| * C.PAGE_SIZE {
      var i := (addr - m.base) / C.PAGE_SIZE;
      assert m.pm[i] == h <==> h <= i < h + c;
    }
  }

  // The unit storage of a page is inside the page.
  lemma UnitInsidePage(m: Memory, h: nat, i: nat)
    requires IsUnit(m, h, i) && m.info[h].pageCountIfHuge == 0
    ensures PageAddr(m, h) + 32 <= UnitHead(m, h, i)
    ensures UnitHead(m, h, i) + Stride(m, h) <= PageAddr(m, h) + C.PAGE_SIZE
  {
    var g := m.info[h].group;
    GroupsTileThePage(g);
    NextMultiple(Stride(m, h), i, UnitCount(GROUP_SIZE[g]));
  }

  // A unit that contains the address is on the page the address resolves to.
  lemma ContainerResolves(m: Memory, h: nat, i: nat, addr: nat)
    requires MemoryOk(m) && IsUnit(m, h, i) && Contains(m, h, i, addr)
    ensures ResolvePage(m, addr) == C.Some(h)
  {
    var huge := m.info[h].pageCountIfHuge;
    ResolvesToBlock(m, addr, h, if huge == 0 then 1 else huge);
    if huge == 0 {
      UnitInsidePage(m, h, i);
    }
  }

  // The units of a page do not overlap.
  lemma OneUnitOnPage(m: Memory, addr: nat, h: nat, i: nat, j: nat)
    requires IsUnit(m, h, i) && IsUnit(m, h, j)
    requires Contains(m, h, i, addr) && Contains(m, h, j, addr)
    ensures i == j
  {
    if m.info[h].pageCountIfHuge == 0 {
      OneIndex(Stride(m, h), i, j, addr - PageAddr(m, h) - 32);
    }
  }

  // At most one unit contains an address.
  lemma ContainerIsUnique(m: Memory, addr: nat, h: nat, i: nat, g: nat, j: nat)
    requires MemoryOk(m)
    requires IsUnit(m, h, i) && Contains(m, h, i, addr)
    requires IsUnit(m, g, j) && Contains(m, g, j, addr)
    ensures h == g && i == j
  {
    ContainerResolves(m, h, i, addr);
    ContainerResolves(m, g, j, addr);
    OneUnitOnPage(m, addr, h, i, j);
  }

  // The answer for an address inside a unit depends on that unit alone.
  lemma AnswerInsideUnit(m: Memory, addr: nat, h: nat, i: nat)
    requires MemoryOk(m) && IsUnit(m, h, i) && Contains(m, h, i, addr)
    ensures ValidateAddr(m, addr) == Payload(m, UnitHead(m, h, i))
  {
    ContainerResolves(m, h, i, addr);
    if m.info[h].pageCountIfHuge == 0 {
      var x := addr - PageAddr(m, h) - 32;
      UnitInsidePage(m, h, i);
      OffsetFindsUnit(m.info[h].group, x);
      OneIndex(Stride(m, h), i, x / Stride(m, h), x);
    }
  }

  // The unit a positive answer is about: its index never runs past the page.
  lemma AnswerHasUnit(m: Memory, addr: nat) returns (h: nat, i: nat)
    requires MemoryOk(m) && ValidateAddr(m, addr).Some?
    ensures IsUnit(m, h, i) && Contains(m, h, i, addr)
  {
    HeadIsHead(m, addr);
    h := ResolvePage(m, addr).value;
    var huge := m.info[h].pageCountIfHuge;
    ResolvesToBlock(m, addr, h, if huge == 0 then 1 else huge);
    if huge == 0 {
      var x := addr - PageAddr(m, h) - 32;
      OffsetFindsUnit(m.info[h].group, x);
      i := x / Stride(m, h);
      assert UnitHead(m, h, i) == PageAddr(m, h) + 32 + i * Stride(m, h);
    } else {
      i := 0;
    }
  }

  // Unit i of page h contains the address, has been completed and not released
  // since, and has its payload at p.
  ghost predicate Resolves(m: Memory, h: nat, i: nat, addr: nat, p: nat) {
    && IsUnit(m, h, i) && Contains(m, h, i, addr)
    && (var life := m.life(UnitHead(m, h, i)); life.Unmarked? || life.SelfMarked? || life.FullMarked?)
    && p == UnitHead(m, h, i) + UNIT_HEAD_SIZE
  }

  // Resolution is exact: the answer is p exactly when some completed unit contains
  // the address and has its payload at p. There is never more than one such unit.
  lemma ResolutionIsExact(m: Memory, addr: nat, p: nat)
    requires MemoryOk(m)
    ensures ValidateAddr(m, addr) == C.Some(p) <==> exists h, i :: Resolves(m, h, i, addr, p)
  {
    if ValidateAddr(m, addr) == C.Some(p) {
      var h, i := AnswerHasUnit(m, addr);
      AnswerInsideUnit(m, addr, h, i);
      assert Resolves(m, h, i, addr, p);
    }
    if exists h, i :: Resolves(m, h, i, addr, p) {
      var h, i :| Resolves(m, h, i, addr, p);
      AnswerInsideUnit(m, addr, h, i);
    }
  }

  // ---- the window of an allocation ----------------------------------------------------

  // The chunk has handed out pages [h, h + n); whatever their head still holds,
  // m_page_just_allocated is set.
  function InWindow(m: Memory, h: nat, n: nat, found: PageInfo): Memory
    requires h + n <= |m.pm|
  {
    m.(pm := Take(m.pm, h, n), info := m.info[h := found.(justAllocated := true)])
  }

  lemma WindowIsOk(m: Memory, h: nat, n: nat, found: PageInfo)
    requires MemoryOk(m) && FreeRange(m.pm, h, n) && 1 <= n
    ensures MemoryOk(InWindow(m, h, n, found))
  {
    var m' := InWindow(m, h, n, found);
    TakeKeepsWellFormed(m.pm, h, n);
    forall g: nat | g < |m'.pm| && m'.pm[g] == g
      ensures PageOk(m', g)
    {
      if g != h {
        assert PageOk(m, g);
      }
    }
  }

  // The answer depends only on the page resolved to and on what is found there.
  lemma SameAnswer(m: Memory, m': Memory, addr: nat)
    requires MemoryOk(m) && MemoryOk(m') && m'.base == m.base && m'.life == m.life
    requires ResolvePage(m', addr) == ResolvePage(m, addr)
    requires var h := ResolvePage(m, addr);
             h.Some? && h.value in m.info ==> h.value in m'.info && m'.info[h.value] == m.info[h.value]
    ensures ValidateAddr(m', addr) == ValidateAddr(m, addr)
  {
    if ResolvePage(m, addr).Some? {
      HeadIsHead(m, addr);
      HeadIsHead(m', addr);
      var h := ResolvePage(m, addr).value;
      assert PageAddr(m', h) == PageAddr(m, h);
    }
  }

  lemma WindowResolves(m: Memory, h: nat, n: nat, found: PageInfo, addr: nat)
    requires MemoryOk(m) && FreeRange(m.pm, h, n) && 1 <= n && WellFormed(InWindow(m, h, n, found).pm)
    ensures ResolvePage(m, addr) != C.Some(h)
    ensures ResolvePage(InWindow(m, h, n, found), addr) == ResolvePage(m, addr) ||
            (ResolvePage(InWindow(m, h, n, found), addr) == C.Some(h) && ResolvePage(m, addr) == C.None)
  {
    if m.base <= addr < m.base + |m.pm| * C.PAGE_SIZE {
      var i := (addr - m.base) / C.PAGE_SIZE;
      assert m.pm[h] == FREE;
      assert m.pm[i] != h;
    }
  }

  // Until the flag is cleared no address resolves any differently.
  lemma WindowIsInvisible(m: Memory, h: nat, n: nat, found: PageInfo, addr: nat)
    requires MemoryOk(m) && FreeRange(m.pm, h, n) && 1 <= n
    ensures MemoryOk(InWindow(m, h, n, found))
    ensures ValidateAddr(InWindow(m, h, n, found), addr) == ValidateAddr(m, addr)
  {
    var m' := InWindow(m, h, n, found);
    WindowIsOk(m, h, n, found);
    WindowResolves(m, h, n, found, addr);
    if ResolvePage(m', addr) == ResolvePage(m, addr) {
      SameAnswer(m, m', addr);
    }
  }

  // ---- every reachable memory ---------------------------------------------------------

  datatype Change =
    | HandOut(h: nat, n: nat, found: PageInfo)     // the chunk allocates, its lock is released
    | Scribble(h: nat, found: PageInfo)            // stores into the head before the flag is cleared
    | SetUp(h: nat, huge: bool, group: nat)        // m_page_just_allocated := false
    | TakeBack(h: nat)                             // the chunk frees
    | Live(life: nat -> T.Life)                    // units come and go

  // A block is set up as a page of units, if it is one page, or as a huge one.
  ghost predicate CanChange(m: Memory, c: Change) {
    match c
    case HandOut(h, n, found) => 1 <= n && FreeRange(m.pm, h, n)
    case Scribble(h, found) => h in m.info && m.info[h].justAllocated
    case SetUp(h, huge, group) =>
      && h < |m.pm| && m.pm[h] == h && h in m.info && m.info[h].justAllocated
      && (!huge ==> group < MAX_GROUP && BlockEnd(m.pm, h, h) == h + 1)
    case TakeBack(h) => h < |m.pm|
    case Live(life) => true
  }

  ghost function Changed(m: Memory, c: Change): Memory
    requires CanChange(m, c)
  {
    match c
    case HandOut(h, n, found) => InWindow(m, h, n, found)
    case Scribble(h, found) => m.(info := m.info[h := found.(justAllocated := true)])
    case SetUp(h, huge, group) =>
      m.(info := m.info[h := PageInfo(false, if huge then BlockEnd(m.pm, h, h) - h else 0, group)])
    case TakeBack(h) => m.(pm := Release(m.pm, h))
    case Live(life) => m.(life := life)
  }

  lemma SetUpIsOk(m: Memory, h: nat, huge: bool, group: nat)
    requires MemoryOk(m) && CanChange(m, SetUp(h, huge, group))
    ensures MemoryOk(Changed(m, SetUp(h, huge, group)))
  {
    var m' := Changed(m, SetUp(h, huge, group));
    EveryPageHasItsBlock(m.pm, h);
    forall g: nat | g < |m'.pm| && m'.pm[g] == g
      ensures PageOk(m', g)
    {
      assert PageOk(m, g);
    }
  }

  lemma TakeBackIsOk(m: Memory, h: nat)
    requires MemoryOk(m) && h < |m.pm|
    ensures MemoryOk(Changed(m, TakeBack(h)))
  {
    var m' := Changed(m, TakeBack(h));
    ReleaseKeepsWellFormed(m.pm, h);
    forall g: nat | g < |m'.pm| && m'.pm[g] == g
      ensures PageOk(m', g)
    {
      assert PageOk(m, g);
    }
  }

  lemma ChangeIsOk(m: Memory, c: Change)
    requires MemoryOk(m) && CanChange(m, c)
    ensures MemoryOk(Changed(m, c))
  {
    match c {
      case HandOut(h, n, found) => WindowIsOk(m, h, n, found);
      case SetUp(h, huge, group) => SetUpIsOk(m, h, huge, group);
      case TakeBack(h) => TakeBackIsOk(m, h);
      case _ =>
        forall g: nat | g < |m.pm| && m.pm[g] == g
          ensures PageOk(Changed(m, c), g)
        {
          assert PageOk(m, g);
        }
    }
  }

  // A block that is set up holds units, a block taken back holds none, and a change
  // of lives is seen at once.
  lemma ChangesMean(m: Memory, c: Change)
    requires MemoryOk(m) && CanChange(m, c)
    ensures var m' := Changed(m, c);
            match c
            case HandOut(h, n, found) => IsBlock(m'.pm, h, n) && h in m'.info && m'.info[h].justAllocated
            case SetUp(h, huge, group) =>
              && m'.pm == m.pm && IsUnit(m', h, 0) && m'.life == m.life
              && (if huge then m'.info[h].pageCountIfHuge == BlockEnd(m.pm, h, h) - h > 0
                  else m'.info[h].pageCountIfHuge == 0 && m'.info[h].group == group)
            case TakeBack(h) => forall i :: 0 <= i < |m.pm| && m.pm[i] == h ==> m'.pm[i] == FREE
            case Live(life) => m'.life == life && m'.pm == m.pm && m'.info == m.info
            case Scribble(h, found) => m'.pm == m.pm && m'.life == m.life
  {
    ChangeIsOk(m, c);
    match c {
      case HandOut(h, n, found) => TakeKeepsWellFormed(m.pm, h, n);
      case SetUp(h, huge, group) =>
        EveryPageHasItsBlock(m.pm, h);
        if !huge {
          GroupsTileThePage(group);
        }
      case _ =>
    }
  }

  ghost predicate Follows(m: Memory, m': Memory) {
    exists c :: CanChange(m, c) && m' == Changed(m, c)
  }

  // The run takes a step at i.
  ghost predicate StepAt(run: seq<Memory>, i: nat) {
    i + 1 < |run| && Follows(run[i], run[i + 1])
  }

  // From a chunk with nothing allocated, whatever the memory holds.
  ghost predicate IsRun(run: seq<Memory>) {
    && |run| > 0
    && (forall i :: 0 <= i < |run[0].pm| ==> run[0].pm[i] == FREE)
    && forall i :: 0 <= i < |run| - 1 ==> StepAt(run, i)
  }

  lemma {:induction false} RunOk(run: seq<Memory>, i: nat)
    requires IsRun(run) && i < |run|
    ensures MemoryOk(run[i])
  {
    if i > 0 {
      RunOk(run, i - 1);
      assert StepAt(run, i - 1);
      var c :| CanChange(run[i - 1], c) && run[i] == Changed(run[i - 1], c);
      ChangeIsOk(run[i - 1], c);
    }
  }

  // In every run, resolution is exact for every address.
  lemma EveryAddressResolves(run: seq<Memory>, i: nat, addr: nat, p: nat)
    requires IsRun(run) && i < |run|
    ensures MemoryOk(run[i])
    ensures ValidateAddr(run[i], addr) == C.Some(p) <==> exists h, j :: Resolves(run[i], h, j, addr, p)
  {
    RunOk(run, i);
    ResolutionIsExact(run[i], addr, p);
  }

  // ---- reallocation -----------------------------------------------------------------

  // The n bytes at `from` are now also at `to`; no other byte has changed.
  ghost predicate Copied(was: seq<nat>, now: seq<nat>, to: nat, from: nat, n: nat) {
    && |now| == |was| && to + n <= |was| && from + n <= |was|
    && (forall k :: to <= k < to + n ==> now[k] == was[from + (k - to)])
    && (forall k :: 0 <= k < |was| && (k < to || to + n <= k) ==> now[k] == was[k])
  }

  method Copy(bytes: array<nat>, to: nat, from: nat, n: nat)
    requires to + n <= bytes.Length && from + n <= bytes.Length
    requires to + n <= from || from + n <= to
    modifies bytes
    ensures Copied(old(bytes[..]), bytes[..], to, from, n)
  {
    ghost var was := bytes[..];
    for j := 0 to n
      invariant forall k :: to <= k < to + j ==> bytes[k] == was[from + (k - to)]
      invariant forall k :: 0 <= k < bytes.Length && (k < to || to + j <= k) ==> bytes[k] == was[k]
    {
      bytes[to + j] := bytes[from + j];
    }
  }

  // get_unit_available_size of a unit on page h.
  ghost function Room(m: Memory, h: nat): int
    requires h < |m.pm| && m.pm[h] == h && PageOk(m, h) && !m.info[h].justAllocated
  {
    if m.info[h].pageCountIfHuge == 0 then GROUP_SIZE[m.info[h].group] else HugeAvailable(m.info[h].pageCountIfHuge)
  }

  // Every payload byte of a unit is inside the unit and inside the chunk.
  lemma PayloadInside(m: Memory, h: nat, i: nat, k: nat)
    requires MemoryOk(m) && IsUnit(m, h, i) && k < Room(m, h)
    ensures Contains(m, h, i, UnitHead(m, h, i) + UNIT_HEAD_SIZE + k)
    ensures UnitHead(m, h, i) + UNIT_HEAD_SIZE + k < m.base + |m.pm| * C.PAGE_SIZE
  {
    ContainerResolves(m, h, i, UnitHead(m, h, i) + UNIT_HEAD_SIZE + k);
  }

  // Payloads of different units share no byte.
  lemma PayloadsApart(m: Memory, h: nat, i: nat, g: nat, j: nat)
    requires MemoryOk(m) && IsUnit(m, h, i) && IsUnit(m, g, j) && (h, i) != (g, j)
    requires 1 <= Room(m, h) && 1 <= Room(m, g)
    ensures var p, q := UnitHead(m, h, i) + UNIT_HEAD_SIZE, UnitHead(m, g, j) + UNIT_HEAD_SIZE;
            p + Room(m, h) <= q || q + Room(m, g) <= p
  {
    var p, q := UnitHead(m, h, i) + UNIT_HEAD_SIZE, UnitHead(m, g, j) + UNIT_HEAD_SIZE;
    if p <= q < p + Room(m, h) {
      PayloadInside(m, h, i, q - p);
      PayloadInside(m, g, j, 0);
      ContainerIsUnique(m, q, h, i, g, j);
    } else if q <= p < q + Room(m, g) {
      PayloadInside(m, h, i, 0);
      PayloadInside(m, g, j, p - q);
      ContainerIsUnique(m, p, h, i, g, j);
    }
  }

  // The unit an allocation of `size` bytes hands out: of the request's size
  // group, or the one unit of a huge block of the pages asked for.
  ghost predicate ServesRequest(m: Memory, g: nat, j: nat, size: nat) {
    && IsUnit(m, g, j)
    && (if size <= MAX_IN_PAGE_UNIT_SIZE
        then m.info[g].pageCountIfHuge == 0 && m.info[g].group == Group(size)
        else m.info[g].pageCountIfHuge == HugePages(size) && HugePages(size) > 0)
  }

  /**
   woomem_reallocate for unit i of page h. `unit` is what woomem_allocate_begin
   hands out for the new size: any other unit, or nothing. Every payload byte is
   kept, the copy stays inside the new unit, and no other byte changes.
   */
  method Reallocate(bytes: array<nat>, ghost m: Memory, ghost h: nat, ghost i: nat, ptr: nat, available: nat,
                    size: nat, newPtr: C.Option<nat>, ghost g: nat, ghost j: nat) returns (r: C.Option<nat>)
    requires MemoryOk(m) && bytes.Length == m.base + |m.pm| * C.PAGE_SIZE
    requires IsUnit(m, h, i) && ptr == UnitHead(m, h, i) + UNIT_HEAD_SIZE && available == Room(m, h)
    requires size + 32 + (C.PAGE_SIZE - 1) < C.WORD
    requires newPtr.Some? ==>
               && ServesRequest(m, g, j, size) && (g, j) != (h, i)
               && newPtr.value == UnitHead(m, g, j) + UNIT_HEAD_SIZE
    modifies bytes
    ensures r == if size <= available then C.Some(ptr) else newPtr
    ensures size <= available || newPtr.None? ==> bytes[..] == old(bytes[..])
    ensures available < size && newPtr.Some? ==>
              && size <= Room(m, g)
              && Copied(old(bytes[..]), bytes[..], newPtr.value, ptr, available)
              && forall k :: newPtr.value <= k < newPtr.value + available ==> Contains(m, g, j, k)
  {
    if size <= available {
      return C.Some(ptr);
    }
    if newPtr.None? {
      return C.None;
    }
    RequestFits(size);
    RoomForCopy(m, h, i, g, j);
    Copy(bytes, newPtr.value, ptr, available);
    return newPtr;
  }

  // Copying a whole payload into a larger unit stays inside both and does not
  // overlap.
  lemma RoomForCopy(m: Memory, h: nat, i: nat, g: nat, j: nat)
    requires MemoryOk(m) && IsUnit(m, h, i) && IsUnit(m, g, j) && (h, i) != (g, j)
    requires 1 <= Room(m, h) < Room(m, g)
    ensures var p, q, n := UnitHead(m, h, i) + UNIT_HEAD_SIZE, UnitHead(m, g, j) + UNIT_HEAD_SIZE, Room(m, h);
            && p + n <= m.base + |m.pm| * C.PAGE_SIZE && q + n <= m.base + |m.pm| * C.PAGE_SIZE
            && (p + n <= q || q + n <= p)
            && (forall k :: q <= k < q + n ==> Contains(m, g, j, k))
  {
    var q, n := UnitHead(m, g, j) + UNIT_HEAD_SIZE, Room(m, h);
    PayloadInside(m, h, i, n - 1);
    PayloadInside(m, g, j, n - 1);
    PayloadsApart(m, h, i, g, j);
    forall k | q <= k < q + n
      ensures Contains(m, g, j, k)
    {
      PayloadInside(m, g, j, k - q);
    }
  }
}
