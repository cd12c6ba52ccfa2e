/** Loading a program image through the page tables (src/kernel/elf.c). */
module Elf {
  import opened Pmm
  import opened Paging
  import opened Accounts
  import opened Translation
  import opened Walks
  import opened Machine
  import opened Vmm
  import opened UserMemory
  import opened UserCopy

  const STACK_ADDRESS: nat := 0x80_0000

  /** A program header. */
  datatype Segment = Segment(load: bool, write: bool, exec: bool, offset: nat, address: nat, fileSize: nat,
    memorySize: nat)

  datatype LoadResult = Loaded | Invalid | OutOfMemory

  function PageFloor(a: nat): (r: nat)
    ensures r % PAGE_SIZE == 0 && r <= a < r + PAGE_SIZE
  {
    a / PAGE_SIZE * PAGE_SIZE
  }

  function SegmentFlags(p: Segment): Flags { Flags(p.write, true, false, false, false, !p.exec) }

  /** Pages are mapped from `lo` to `hi` with the given flags, each on a frame of its own. */
  ghost predicate Placed(m: Memory, space: Frame, lo: nat, hi: nat, flags: Flags) {
    forall va | lo <= va < hi :: PlacedAt(m, PageOf(space, va), flags)
  }

  ghost predicate PlacedAt(m: Memory, q: Pos, flags: Flags) {
    q in m.pages && m.pages[q] == LeafEntry(m.pages[q].frame, flags) && Owners(m, m.pages[q].frame) == 1
  }

  /** `v` is `v0` with zeroed pages from `lo` to `hi` where there were none. */
  ghost predicate Zeroed(v0: Private, v: Private, space: Frame, lo: nat, hi: nat) {
    && (forall s: Frame, va: nat | va < LOWER_END ::
      ByteAt(v, s, va) == if s == space && lo <= va < hi then Some(0) else ByteAt(v0, s, va))
    && (forall va: nat | lo <= va < hi && va < LOWER_END :: ByteAt(v0, space, va).None?)
  }

  lemma SamePages(space: Frame, page: nat, va: nat)
    requires page % PAGE_SIZE == 0 && page < LOWER_END && va < LOWER_END
    ensures PageOf(space, va) == PageOf(space, page) <==> page <= va < page + PAGE_SIZE
    ensures forall s: Frame :: PageOf(s, va) == PageOf(space, page) ==> s == space
  {
  }

  lemma ZeroedStep(v0: Private, v: Private, v': Private, space: Frame, lo: nat, page: nat)
    requires Zeroed(v0, v, space, lo, page) && page % PAGE_SIZE == 0 && lo <= page < LOWER_END
    requires PageOf(space, page) !in v && v' == v[PageOf(space, page) := Zeros()]
    ensures Zeroed(v0, v', space, lo, page + PAGE_SIZE)
  {
    forall s: Frame, va: nat | va < LOWER_END
      ensures ByteAt(v', s, va) == if s == space && lo <= va < page + PAGE_SIZE then Some(0) else ByteAt(v0, s, va) {
      SamePages(space, page, va);
      assert ByteAt(v, s, va) == if s == space && lo <= va < page then Some(0) else ByteAt(v0, s, va);
      hide PageOf;
    }
    forall va: nat | lo <= va < page + PAGE_SIZE && va < LOWER_END ensures ByteAt(v0, space, va).None? {
      SamePages(space, page, va);
      assert ByteAt(v, space, va) == if lo <= va < page then Some(0) else ByteAt(v0, space, va);
      hide PageOf;
    }
  }

  lemma PlacedStep(m: Memory, m': Memory, space: Frame, lo: nat, page: nat, hi: nat, flags: Flags, e: Entry)
    requires Placed(m, space, lo, page, flags) && page % PAGE_SIZE == 0 && page < LOWER_END
    requires hi == page + PAGE_SIZE <= LOWER_END
    requires Step(m, Op.Map(PageOf(space, page), e, Zeros()), m') && e == LeafEntry(e.frame, flags)
    ensures Placed(m', space, lo, hi, flags) && |m'.pages| == |m.pages| + 1
    ensures forall q | q in m.pages :: q in m'.pages && m'.pages[q] == m.pages[q]
  {
    var q := PageOf(space, page);
    assert m'.pages == m.pages[q := e];
    forall va | lo <= va < hi ensures PlacedAt(m', PageOf(space, va), flags) {
      SamePages(space, page, va);
      if va < page {
        assert PlacedAt(m, PageOf(space, va), flags);
        CountInsert(m.pages, q, e, m.pages[PageOf(space, va)].frame);
      } else {
        CountInsert(m.pages, q, e, e.frame);
      }
      hide Count, PageOf;
    }
  }

  /** Other spaces read what they read. */
  ghost predicate Elsewhere(v0: Private, v: Private, space: Frame) {
    forall s: Frame, va: nat | va < LOWER_END && s != space :: ByteAt(v, s, va) == ByteAt(v0, s, va)
  }

  ghost predicate PagesKept(m: Memory, m': Memory) {
    forall q | q in m.pages :: q in m'.pages && m'.pages[q] == m.pages[q]
  }

  /** The pages of other spaces are as they were. */
  ghost predicate OtherPages(m: Memory, m': Memory, space: Frame) {
    forall q: Pos | q.root != space :: (q in m'.pages <==> q in m.pages) && (q in m.pages ==> m'.pages[q] == m.pages[q])
  }

  lemma OtherPagesTrans(m: Memory, m': Memory, m'': Memory, space: Frame)
    requires OtherPages(m, m', space) && (OtherPages(m', m'', space) || m''.pages == m'.pages)
    ensures OtherPages(m, m'', space)
  {
  }

  lemma OtherPagesRefl(m: Memory, space: Frame)
    ensures OtherPages(m, m, space)
  {
  }

  lemma OtherPagesMap(m: Memory, m': Memory, q: Pos, e: Entry, bytes: seq<byte>)
    requires Step(m, Op.Map(q, e, bytes), m')
    ensures OtherPages(m, m', q.root)
  {
    hide Owners, AllKept;
  }

  lemma MapEffect(m: Memory, m': Memory, q: Pos, e: Entry)
    requires Good(m) && Step(m, Op.Map(q, e, Zeros()), m')
    ensures q !in View(m) && View(m') == View(m)[q := Zeros()]
  {
    hide View;
    StepRefines(m, Op.Map(q, e, Zeros()), m');
  }

  lemma ZeroedStart(v: Private, m: Memory, space: Frame, lo: nat, flags: Flags)
    ensures Zeroed(v, v, space, lo, lo) && Placed(m, space, lo, lo, flags) && PagesKept(m, m) && Elsewhere(v, v, space)
  {
  }

  lemma ZeroedElsewhere(v0: Private, v: Private, space: Frame, lo: nat, hi: nat)
    requires Zeroed(v0, v, space, lo, hi)
    ensures Elsewhere(v0, v, space)
  {
  }

  lemma KeptTrans(m: Memory, m': Memory, m'': Memory)
    requires PagesKept(m, m') && PagesKept(m', m'')
    ensures PagesKept(m, m'')
  {
  }

  lemma GoodVm(g: Layout, t: Tree, s: State, held: multiset<Frame>)
    requires Sane(g, t, s, held)
    ensures Good(MemoryOf(t, held))
  {
    GoodFromSane(g, t, s, held);
  }

  function PageCount(lo: nat, hi: nat): nat
    requires lo <= hi
  {
    (hi - lo) / PAGE_SIZE
  }

  predicate PageRange(lo: nat, hi: nat) { lo % PAGE_SIZE == 0 && hi % PAGE_SIZE == 0 && lo <= hi <= LOWER_END }

  lemma NextPage(lo: nat, hi: nat)
    requires PageRange(lo, hi) && hi < LOWER_END
    ensures PageRange(lo, hi + PAGE_SIZE) && PageCount(lo, hi + PAGE_SIZE) == PageCount(lo, hi) + 1
  {
  }

  /** The pages from `lo` to `hi` have been added, zeroed, with these flags, and nothing else changed. */
  ghost predicate Mapped(m0: Memory, m: Memory, space: Frame, lo: nat, hi: nat, flags: Flags) {
    && PageRange(lo, hi) && |m.pages| == |m0.pages| + PageCount(lo, hi)
    && Zeroed(View(m0), View(m), space, lo, hi) && Placed(m, space, lo, hi, flags) && PagesKept(m0, m)
    && OtherPages(m0, m, space)
  }

  lemma MappedStart(m: Memory, space: Frame, lo: nat, flags: Flags)
    requires lo % PAGE_SIZE == 0 && lo <= LOWER_END
    ensures Mapped(m, m, space, lo, lo, flags)
  {
    ZeroedStart(View(m), m, space, lo, flags);
  }

  lemma MappedNext(m0: Memory, m: Memory, m': Memory, space: Frame, lo: nat, page: nat, flags: Flags, e: Entry)
    requires Good(m) && Mapped(m0, m, space, lo, page, flags) && page < LOWER_END
    requires Step(m, Op.Map(PageOf(space, page), e, Zeros()), m') && e == LeafEntry(e.frame, flags)
    ensures Mapped(m0, m', space, lo, page + PAGE_SIZE, flags)
  {
    hide View, Step, PageOf, Owners, ByteAt, Good, Zeroed, Placed, PagesKept, OtherPages;
    OtherPagesMap(m, m', PageOf(space, page), e, Zeros());
    OtherPagesTrans(m0, m, m', space);
    NextPage(lo, page);
    MapEffect(m, m', PageOf(space, page), e);
    ZeroedStep(View(m0), View(m), View(m'), space, lo, page);
    PlacedStep(m, m', space, lo, page, page + PAGE_SIZE, flags, e);
    StepKept(m, m');
    KeptTrans(m0, m, m');
  }

  lemma StepKept(m: Memory, m': Memory)
    requires forall q | q in m.pages :: q in m'.pages && m'.pages[q] == m.pages[q]
    ensures PagesKept(m, m')
  {
  }

  lemma MappedSame(m0: Memory, m: Memory, m': Memory, space: Frame, lo: nat, hi: nat, flags: Flags)
    requires Mapped(m0, m, space, lo, hi, flags) && m'.pages == m.pages && m'.held == m.held && View(m') == View(m)
    ensures Mapped(m0, m', space, lo, hi, flags)
  {
    hide View, Zeroed, Placed, PageCount, OtherPages;
    OtherPagesTrans(m0, m, m', space);
    SamePlaced(m, m', space, lo, hi, flags);
  }

  lemma MappedElsewhere(m0: Memory, m: Memory, space: Frame, lo: nat, hi: nat, flags: Flags)
    requires Mapped(m0, m, space, lo, hi, flags)
    ensures Elsewhere(View(m0), View(m), space) && OtherPages(m0, m, space)
  {
    hide OtherPages, View, Zeroed, Elsewhere, Placed, PagesKept;
    ZeroedElsewhere(View(m0), View(m), space, lo, hi);
  }

  // ---- when pages are in the way ----

  /** The user reserve is used up, or the space is not a process's. */
  ghost predicate NoMemory(vm: Manager, space: Frame)
    reads vm, vm.pmm
  {
    vm.pmm.freePages <= KERNEL_RESERVE_PAGES || space == vm.kernel
  }

  ghost predicate PageOutcome(t: Tree, t': Tree, space: Frame, page: nat, r: LoadResult, low: bool) {
    var q := PageOf(space, page);
    && OnlyPage(t, t', q) && (!r.Loaded? ==> Translate(t', q) == Translate(t, q))
    && (r == Invalid <==> Translate(t, q).Some?) && (r == OutOfMemory ==> low)
  }

  lemma SameHere(t: Tree, q: Pos)
    ensures OnlyPage(t, t, q)
  {
  }

  lemma LowerPage(kernel: Frame, space: Frame, page: nat, flags: Flags, m0: Memory, m: Memory, lo: nat)
    requires page < LOWER_END && flags.user && !(flags.writable && !flags.nx) && Mapped(m0, m, space, lo, page, flags)
    ensures Canonical(page) && page < UPPER_START && (space != kernel ==> MapAllowed(kernel, space, page, 0, flags))
  {
    CanonicalLower(page);
  }

  /** No page from `lo` to `hi` is translated. */
  ghost predicate Clear(t: Tree, space: Frame, lo: nat, hi: nat) {
    forall va: nat | lo <= va < hi :: Translate(t, PageOf(space, va)).None?
  }

  /** Lower-half pages outside `lo` to `hi` are translated as before. */
  ghost predicate SameBeyond(t: Tree, t': Tree, space: Frame, lo: nat, hi: nat) {
    forall va: nat | va < LOWER_END && !(lo <= va < hi) ::
      Translate(t', PageOf(space, va)) == Translate(t, PageOf(space, va))
  }

  lemma BeyondStart(t: Tree, space: Frame, lo: nat)
    ensures Clear(t, space, lo, lo) && SameBeyond(t, t, space, lo, lo)
  {
  }

  lemma BeyondStep(t0: Tree, t: Tree, t': Tree, space: Frame, lo: nat, page: nat, r: LoadResult, low: bool)
    requires page % PAGE_SIZE == 0 && lo <= page < LOWER_END && SameBeyond(t0, t, space, lo, page)
    requires Clear(t0, space, lo, page)
    requires PageOutcome(t, t', space, page, r, low)
    ensures r.Loaded? ==> SameBeyond(t0, t', space, lo, page + PAGE_SIZE) && Clear(t0, space, lo, page + PAGE_SIZE)
    ensures !r.Loaded? ==> SameBeyond(t0, t', space, lo, page)
    ensures r == Invalid ==> Translate(t0, PageOf(space, page)).Some?
  {
    hide Translate, PageOf;
    forall va: nat | va < LOWER_END
      ensures PageOf(space, va) == PageOf(space, page) <==> page <= va < page + PAGE_SIZE {
      SamePages(space, page, va);
    }
    ChunkPage(space, page, PAGE_SIZE);
  }

  /** One round of the first loop of load_segment. */
  method MapNext(vm: Manager, space: Frame, lo: nat, page: nat, flags: Flags, ghost m0: Memory) returns (r: LoadResult)
    requires Valid(vm) && Pos(space, 0, 0) in vm.roots && flags.user && !flags.cow && page < LOWER_END
    requires flags.writable ==> flags.nx
    requires Mapped(m0, Mem(vm), space, lo, page, flags)
    modifies vm, vm.pmm, vm.pmm.used, vm.pmm.refs
    ensures Valid(vm) && vm.roots == old(vm.roots) && vm.held == old(vm.held)
    ensures Mapped(m0, Mem(vm), space, lo, if r.Loaded? then page + PAGE_SIZE else page, flags)
    ensures PageOutcome(old(vm.T()), vm.T(), space, page, r, NoMemory(vm, space))
  {
    hide Sane, Flat, View, PageOf, Step, Mapped, Good, Owners, Translate, OnlyPage, TreeOk, Acct, Consistent, FlagsOk,
      Tops, Canonical;
    ghost var m := Mem(vm);
    GoodVm(vm.pmm.layout, vm.T(), vm.S(), vm.held);
    ValidParts(vm.pmm.layout, vm.T(), vm.S(), vm.held);
    LowerPage(vm.kernel, space, page, flags, m0, m, lo);
    SamePage(space, page, 0);
    var present, _ := vm.Query(space, page);
    if present.Some? {
      SameHere(vm.T(), PageOf(space, page));
      return Invalid;
    }
    var ok: bool;
    ghost var e: Entry;
    ok, e := MapZeroed(vm, space, page, flags);
    if !ok {
      MappedSame(m0, m, Mem(vm), space, lo, page, flags);
      return OutOfMemory;
    }
    MappedNext(m0, m, Mem(vm), space, lo, page, flags, e);
    return Loaded;
  }

  lemma OutcomeParts(t0: Tree, t: Tree, t': Tree, space: Frame, lo: nat, page: nat, end: nat, r: LoadResult, low: bool)
    requires PageOutcome(t, t', space, page, r, low) && lo <= page < end
    requires r == Invalid ==> Translate(t0, PageOf(space, page)).Some?
    ensures (r == OutOfMemory ==> low) && (r == Invalid ==> !Clear(t0, space, lo, end))
  {
    hide Translate, PageOf;
  }

  /** The first loop of load_segment: fresh zeroed pages for the whole segment. A page that is mapped
      already is refused. */
  method MapSegment(vm: Manager, space: Frame, lo: nat, end: nat, flags: Flags) returns (r: LoadResult, hi: nat)
    requires Valid(vm) && Pos(space, 0, 0) in vm.roots && flags.user && !flags.cow && (flags.writable ==> flags.nx)
    requires lo % PAGE_SIZE == 0 && lo < end <= LOWER_END
    modifies vm, vm.pmm, vm.pmm.used, vm.pmm.refs
    ensures Valid(vm) && vm.roots == old(vm.roots) && vm.held == old(vm.held)
    ensures Mapped(old(Mem(vm)), Mem(vm), space, lo, hi, flags)
    ensures r.Loaded? ==> end <= hi < end + PAGE_SIZE && Clear(old(vm.T()), space, lo, hi)
    ensures r == Invalid ==> !Clear(old(vm.T()), space, lo, end)
    ensures r == OutOfMemory ==> NoMemory(vm, space)
    ensures SameBeyond(old(vm.T()), vm.T(), space, lo, hi)
  {
    hide Sane, Flat, Mapped, Clear, SameBeyond, PageOutcome, NoMemory;
    ghost var m0, t0 := Mem(vm), vm.T();
    MappedStart(m0, space, lo, flags);
    BeyondStart(t0, space, lo);
    hi := lo;
    while hi < end
      invariant Valid(vm) && vm.roots == old(vm.roots) && vm.held == old(vm.held)
      invariant lo <= hi < end + PAGE_SIZE && Mapped(m0, Mem(vm), space, lo, hi, flags)
      invariant hi % PAGE_SIZE == 0 && Clear(t0, space, lo, hi) && SameBeyond(t0, vm.T(), space, lo, hi)
    {
      ghost var t := vm.T();
      r := MapNext(vm, space, lo, hi, flags, m0);
      BeyondStep(t0, t, vm.T(), space, lo, hi, r, NoMemory(vm, space));
      if !r.Loaded? {
        OutcomeParts(t0, t, vm.T(), space, lo, hi, end, r, NoMemory(vm, space));
        return r, hi;
      }
      hi := hi + PAGE_SIZE;
    }
    r := Loaded;
  }

  lemma RoomForPage(page: nat)
    requires page % PAGE_SIZE == 0 && page < LOWER_END
    ensures page + PAGE_SIZE <= LOWER_END
  {
  }

  lemma SamePlaced(m: Memory, m': Memory, space: Frame, lo: nat, hi: nat, flags: Flags)
    requires Placed(m, space, lo, hi, flags) && m'.pages == m.pages && m'.held == m.held
    ensures Placed(m', space, lo, hi, flags)
  {
    forall va | lo <= va < hi ensures PlacedAt(m', PageOf(space, va), flags) {
      assert PlacedAt(m, PageOf(space, va), flags);
    }
  }

  lemma SameKept(m0: Memory, m: Memory, m': Memory)
    requires PagesKept(m0, m) && m'.pages == m.pages
    ensures PagesKept(m0, m')
  {
  }

  // ---- the bytes ----

  lemma PlacedHere(m: Memory, space: Frame, lo: nat, hi: nat, flags: Flags, va: nat)
    requires Placed(m, space, lo, hi, flags) && lo <= va < hi
    ensures Storable(m, PageOf(space, va))
  {
    assert PlacedAt(m, PageOf(space, va), flags);
  }

  /** One round of the second loop of load_segment. */
  method CopyNext(vm: Manager, space: Frame, lo: nat, hi: nat, flags: Flags, va: nat, rest: seq<byte>)
    returns (chunk: nat)
    requires Valid(vm) && Pos(space, 0, 0) in vm.roots && Placed(Mem(vm), space, lo, hi, flags)
    requires rest != [] && lo <= va && va + |rest| <= hi <= LOWER_END
    modifies vm`mem
    ensures Valid(vm) && Mem(vm).pages == old(Mem(vm)).pages && 0 < chunk <= |rest|
    ensures Written(View(old(Mem(vm))), View(Mem(vm)), space, va, rest[..chunk])
    ensures Placed(Mem(vm), space, lo, hi, flags)
    ensures SameTables(old(vm.T()), vm.T())
  {
    hide Sane, Flat, View, PageOf, Written, Placed, Storable, PageChunk, SameTables;
    ghost var m := Mem(vm);
    PlacedHere(m, space, lo, hi, flags, va);
    StorableMapped(m, PageOf(space, va));
    var present, physical := QueryUser(vm, space, va);
    chunk := PageChunk(va, |rest|);
    StoreChunk(vm, space, va, physical, rest[..chunk]);
    SamePlaced(m, Mem(vm), space, lo, hi, flags);
  }

  lemma StorableMapped(m: Memory, q: Pos)
    requires Storable(m, q)
    ensures q in m.pages
  {
  }

  /** The second loop of load_segment. */
  method CopySegment(vm: Manager, space: Frame, lo: nat, hi: nat, flags: Flags, address: nat, bytes: seq<byte>)
    requires Valid(vm) && Pos(space, 0, 0) in vm.roots && Placed(Mem(vm), space, lo, hi, flags)
    requires lo <= address && address + |bytes| <= hi <= LOWER_END
    modifies vm`mem
    ensures Valid(vm) && Mem(vm).pages == old(Mem(vm)).pages
    ensures Written(View(old(Mem(vm))), View(Mem(vm)), space, address, bytes) && SameTables(old(vm.T()), vm.T())
  {
    hide Sane, Flat, View, PageOf, Written, Placed, SameTables;
    ghost var m0 := Mem(vm);
    TablesRefl(vm.T());
    WrittenNone(View(m0), space, address);
    assert bytes[..0] == [];
    var copied := 0;
    while copied < |bytes|
      invariant 0 <= copied <= |bytes| && Valid(vm) && Mem(vm).pages == m0.pages
      invariant Placed(Mem(vm), space, lo, hi, flags)
      invariant Written(View(m0), View(Mem(vm)), space, address, bytes[..copied]) && SameTables(old(vm.T()), vm.T())
    {
      ghost var v, t := View(Mem(vm)), vm.T();
      var chunk := CopyNext(vm, space, lo, hi, flags, address + copied, bytes[copied..]);
      TablesTrans(old(vm.T()), t, vm.T());
      WrittenSlice(View(m0), v, View(Mem(vm)), space, address, bytes, copied, copied + chunk);
      copied := copied + chunk;
    }
    assert bytes[..copied] == bytes;
  }

  /** What a segment puts at an address of its pages: the bytes of the file, zero around them. */
  function SegmentByte(p: Segment, image: seq<byte>, va: nat): byte
    requires p.offset + p.fileSize <= |image|
  {
    if p.address <= va < p.address + p.fileSize then image[p.offset + (va - p.address)] else 0
  }

  predicate SegmentOk(p: Segment, size: nat) {
    && p.fileSize <= p.memorySize && p.offset <= size && p.fileSize <= size - p.offset
    && p.address <= LOWER_END && p.memorySize <= LOWER_END - p.address && !(p.write && p.exec)
  }

  /** The tests of a program header, which are written so that nothing overflows: its bytes lie in the file
      and its pages in the lower half, and it is not both writable and executable. */
  lemma SegmentIs(p: Segment, size: nat, entry: nat)
    ensures SegmentOk(p, size) <==>
      && p.fileSize <= p.memorySize && p.offset + p.fileSize <= size
      && p.address + p.memorySize <= LOWER_END && !(p.write && p.exec)
    ensures Enters(p, entry) <==> p.load && p.exec && p.address <= entry < p.address + p.memorySize
  {
  }

  /** `v` is `v0` with the segment in fresh pages from `lo` to `hi`. */
  ghost predicate SegmentAdded(v0: Private, v: Private, space: Frame, p: Segment, image: seq<byte>, lo: nat, hi: nat)
    requires p.offset + p.fileSize <= |image|
  {
    && (forall s: Frame, va: nat | va < LOWER_END ::
      ByteAt(v, s, va) == if s == space && lo <= va < hi then Some(SegmentByte(p, image, va)) else ByteAt(v0, s, va))
    && (forall va: nat | lo <= va < hi && va < LOWER_END :: ByteAt(v0, space, va).None?)
  }

  lemma ZeroedThenWritten(v0: Private, v1: Private, v2: Private, space: Frame, p: Segment, image: seq<byte>, lo: nat,
                          hi: nat)
    requires SegmentOk(p, |image|) && Zeroed(v0, v1, space, lo, hi) && lo <= p.address && p.address + p.fileSize <= hi
    requires Written(v1, v2, space, p.address, image[p.offset..p.offset + p.fileSize])
    ensures SegmentAdded(v0, v2, space, p, image, lo, hi)
  {
    var bytes := image[p.offset..p.offset + p.fileSize];
    forall s: Frame, va: nat | va < LOWER_END
      ensures ByteAt(v2, s, va) == if s == space && lo <= va < hi then Some(SegmentByte(p, image, va))
        else ByteAt(v0, s, va) {
      assert ByteAt(v2, s, va) == Overlay(v1, space, p.address, bytes, s, va);
      assert ByteAt(v1, s, va) == if s == space && lo <= va < hi then Some(0) else ByteAt(v0, s, va);
      hide ByteAt;
    }
  }

  // ---- whole images ----

  function SegmentEnd(p: Segment): nat { p.address + p.memorySize }

  /** The end of the last page of a segment. */
  function PageCeil(a: nat): (r: nat)
    requires a > 0
    ensures r % PAGE_SIZE == 0 && a <= r < a + PAGE_SIZE
  {
    PageFloor(a - 1) + PAGE_SIZE
  }

  /** The segment reads back as its file bytes, zero elsewhere in its pages, with its own flags. */
  ghost predicate InPlace(m: Memory, space: Frame, p: Segment, image: seq<byte>) {
    && SegmentOk(p, |image|)
    && (p.memorySize > 0 ==>
          forall va: nat | PageFloor(p.address) <= va < PageCeil(SegmentEnd(p)) && va < LOWER_END ::
            InPlaceAt(m, space, p, image, va))
  }

  ghost predicate InPlaceAt(m: Memory, space: Frame, p: Segment, image: seq<byte>, va: nat)
    requires p.offset + p.fileSize <= |image|
  {
    var q := PageOf(space, va);
    && ByteAt(View(m), space, va) == Some(SegmentByte(p, image, va))
    && q in m.pages && m.pages[q] == LeafEntry(m.pages[q].frame, SegmentFlags(p)) && UsedAs(m.pages[q], p)
  }

  /** A program may write to the page exactly if the header says so, and execute it exactly if the header
      says so. */
  predicate UsedAs(e: Entry, p: Segment) {
    e.present && e.user && !e.cow && (e.writable <==> p.write) && (e.nx <==> !p.exec)
  }

  /** The same, as a program's accesses see it. */
  ghost predicate Usable(t: Tree, space: Frame, p: Segment, va: nat) {
    && Translate(t, PageOf(space, va)).Some? && var m := Translate(t, PageOf(space, va)).value;
    m.user && !m.cow && (m.writable <==> p.write) && (m.nx <==> !p.exec)
  }

  ghost predicate AllUsable(t: Tree, space: Frame, segments: seq<Segment>) {
    forall j, va: nat | 0 <= j < |segments| && segments[j].load
      && segments[j].address <= va < segments[j].address + segments[j].memorySize :: Usable(t, space, segments[j], va)
  }

  lemma UsableNow(m: Memory, t: Tree, space: Frame, p: Segment, image: seq<byte>, va: nat)
    requires InPlace(m, space, p, image) && m.pages == Flat(t) && p.address <= va < SegmentEnd(p)
    ensures Usable(t, space, p, va)
  {
    hide Translate, PageOf, Flat, View, ByteAt, PageFloor, PageCeil;
    assert InPlaceAt(m, space, p, image, va);
    UserMiss(t, PageOf(space, va));
  }

  /** The entry point lies in a page that a program may execute and cannot write to. */
  ghost predicate Runs(t: Tree, space: Frame, entry: nat) {
    && Translate(t, PageOf(space, entry)).Some? && var m := Translate(t, PageOf(space, entry)).value;
    m.user && !m.nx && !m.writable
  }

  lemma ImageUsable(m: Memory, t: Tree, space: Frame, segments: seq<Segment>, image: seq<byte>, end: nat, entry: nat)
    requires AllInPlace(m, space, segments, |segments|, image, end) && m.pages == Flat(t)
    requires exists j | 0 <= j < |segments| :: Enters(segments[j], entry)
    ensures AllUsable(t, space, segments) && Runs(t, space, entry)
  {
    hide Translate, PageOf, Flat, View, InPlace;
    forall j, va: nat | 0 <= j < |segments| && segments[j].load
      && segments[j].address <= va < segments[j].address + segments[j].memorySize
      ensures Usable(t, space, segments[j], va) {
      UsableNow(m, t, space, segments[j], image, va);
    }
    var j :| 0 <= j < |segments| && Enters(segments[j], entry);
    assert Usable(t, space, segments[j], entry);
    InPlaceOk(m, space, segments[j], image);
  }

  lemma InPlaceOk(m: Memory, space: Frame, p: Segment, image: seq<byte>)
    requires InPlace(m, space, p, image)
    ensures SegmentOk(p, |image|)
  {
  }

  lemma CeilIs(end: nat, hi: nat)
    requires hi % PAGE_SIZE == 0 && 0 < end <= hi < end + PAGE_SIZE
    ensures hi == PageCeil(end)
  {
  }

  lemma PagesOfSegment(p: Segment)
    requires p.memorySize > 0
    ensures PageFloor(p.address) < SegmentEnd(p) && PageFloor(p.address) <= PageCeil(SegmentEnd(p))
    ensures (SegmentEnd(p) - 1 - PageFloor(p.address)) / PAGE_SIZE + 1
      == PageCount(PageFloor(p.address), PageCeil(SegmentEnd(p)))
  {
    var lo, hi := PageFloor(p.address), PageFloor(SegmentEnd(p) - 1);
    assert lo == p.address / PAGE_SIZE * PAGE_SIZE && hi == (SegmentEnd(p) - 1) / PAGE_SIZE * PAGE_SIZE;
  }

  /** What a segment that was loaded leaves behind, and what it leaves alone. */
  ghost predicate Added(m0: Memory, m: Memory, space: Frame, p: Segment, image: seq<byte>) {
    && InPlace(m, space, p, image) && PagesKept(m0, m) && Elsewhere(View(m0), View(m), space)
    && |m.pages| == |m0.pages| + SegmentPages(p)
    && (forall va: nat | va < LOWER_END && ByteAt(View(m0), space, va).Some? ::
      ByteAt(View(m), space, va) == ByteAt(View(m0), space, va))
  }

  function SegmentPages(p: Segment): nat {
    if p.memorySize == 0 then 0 else
      PagesOfSegment(p);
      PageCount(PageFloor(p.address), PageCeil(SegmentEnd(p)))
  }

  lemma AddedBy(m0: Memory, m1: Memory, m2: Memory, space: Frame, p: Segment, image: seq<byte>, hi: nat)
    requires SegmentOk(p, |image|) && p.memorySize > 0 && hi == PageCeil(SegmentEnd(p))
    requires PageFloor(p.address) <= hi <= LOWER_END
    requires Mapped(m0, m1, space, PageFloor(p.address), hi, SegmentFlags(p)) && m2.pages == m1.pages
    requires SegmentAdded(View(m0), View(m2), space, p, image, PageFloor(p.address), hi)
    ensures Added(m0, m2, space, p, image)
  {
    hide View, ByteAt, PageFloor, PageCeil, PageOf, Owners, PageCount, SegmentByte;
    forall va: nat | PageFloor(p.address) <= va < hi && va < LOWER_END ensures InPlaceAt(m2, space, p, image, va) {
      assert PlacedAt(m1, PageOf(space, va), SegmentFlags(p));
    }
    SameKept(m0, m1, m2);
    assert SegmentPages(p) == PageCount(PageFloor(p.address), hi);
    assert |m2.pages| == |m0.pages| + SegmentPages(p);
  }

  lemma NothingAdded(m: Memory, space: Frame, p: Segment, image: seq<byte>)
    requires SegmentOk(p, |image|) && p.memorySize == 0
    ensures Added(m, m, space, p, image)
  {
  }

  /** The pages of a segment. */
  function FirstPage(p: Segment): nat { PageFloor(p.address) }

  function PastPages(p: Segment): nat { if p.memorySize == 0 then FirstPage(p) else PageCeil(SegmentEnd(p)) }

  lemma ClearLess(t: Tree, space: Frame, lo: nat, end: nat, hi: nat)
    requires end <= hi
    ensures Clear(t, space, lo, hi) ==> Clear(t, space, lo, end)
  {
    hide Translate, PageOf;
  }

  lemma BeyondTables(t0: Tree, t: Tree, t': Tree, space: Frame, lo: nat, hi: nat)
    requires SameBeyond(t0, t, space, lo, hi) && SameTables(t, t')
    ensures SameBeyond(t0, t', space, lo, hi)
  {
    hide Translate, PageOf, SameTables;
    forall va: nat | va < LOWER_END && !(lo <= va < hi)
      ensures Translate(t', PageOf(space, va)) == Translate(t0, PageOf(space, va)) {
      TranslateTables(t, t', PageOf(space, va));
    }
  }

  /** load_segment. Whatever happens, other spaces are left alone. With memory to spare it succeeds
      exactly for a well-formed segment whose pages are all unmapped. */
  method LoadSegment(vm: Manager, space: Frame, image: seq<byte>, p: Segment) returns (r: LoadResult)
    requires Valid(vm) && Pos(space, 0, 0) in vm.roots
    modifies vm, vm.pmm, vm.pmm.used, vm.pmm.refs
    ensures Valid(vm) && vm.roots == old(vm.roots) && vm.held == old(vm.held)
    ensures Elsewhere(View(old(Mem(vm))), View(Mem(vm)), space) && OtherPages(old(Mem(vm)), Mem(vm), space)
    ensures r.Loaded? ==> Added(old(Mem(vm)), Mem(vm), space, p, image)
    ensures r.Loaded? ==> Clear(old(vm.T()), space, FirstPage(p), PastPages(p))
    ensures r.Loaded? ==> SameBeyond(old(vm.T()), vm.T(), space, FirstPage(p), PastPages(p))
    ensures r == Invalid ==> !SegmentOk(p, |image|) || !Clear(old(vm.T()), space, FirstPage(p), PastPages(p))
    ensures r == OutOfMemory ==> NoMemory(vm, space)
  {
    hide Sane, Flat, View, Mapped, Written, Zeroed, Placed, SegmentAdded, Added, Elsewhere, PageFloor, PageCeil, Clear,
      SameBeyond, NoMemory, SameTables, OtherPages;
    ghost var m0, t0 := Mem(vm), vm.T();
    OtherPagesRefl(m0, space);
    ZeroedStart(View(m0), m0, space, 0, SegmentFlags(p));
    if !SegmentOk(p, |image|) {
      return Invalid;
    }
    if p.memorySize == 0 {
      NothingAdded(m0, space, p, image);
      BeyondStart(t0, space, FirstPage(p));
      return Loaded;
    }
    var end := SegmentEnd(p);
    var hi: nat;
    r, hi := MapSegment(vm, space, PageFloor(p.address), end, SegmentFlags(p));
    ghost var m1 := Mem(vm);
    MappedElsewhere(m0, m1, space, PageFloor(p.address), hi, SegmentFlags(p));
    if !r.Loaded? {
      ClearLess(t0, space, PageFloor(p.address), end, PastPages(p));
      return r;
    }
    ghost var t1 := vm.T();
    MappedParts(m0, m1, space, PageFloor(p.address), hi, SegmentFlags(p));
    CeilIs(end, hi);
    CopySegment(vm, space, PageFloor(p.address), hi, SegmentFlags(p), p.address,
      image[p.offset..p.offset + p.fileSize]);
    BeyondTables(t0, t1, vm.T(), space, PageFloor(p.address), hi);
    ZeroedThenWritten(View(m0), View(m1), View(Mem(vm)), space, p, image, PageFloor(p.address), hi);
    AddedBy(m0, m1, Mem(vm), space, p, image, hi);
    AddedElsewhere(m0, Mem(vm), space, p, image);
    OtherPagesTrans(m0, m1, Mem(vm), space);
  }

  lemma MappedParts(m0: Memory, m: Memory, space: Frame, lo: nat, hi: nat, flags: Flags)
    requires Mapped(m0, m, space, lo, hi, flags)
    ensures hi % PAGE_SIZE == 0 && lo <= hi <= LOWER_END && Zeroed(View(m0), View(m), space, lo, hi)
    ensures Placed(m, space, lo, hi, flags)
  {
  }

  lemma AddedElsewhere(m0: Memory, m: Memory, space: Frame, p: Segment, image: seq<byte>)
    requires Added(m0, m, space, p, image)
    ensures Elsewhere(View(m0), View(m), space)
  {
  }

  /** A segment already in place stays in place when another one is loaded. */
  lemma StaysInPlace(m: Memory, m': Memory, space: Frame, p: Segment, image: seq<byte>, other: Segment)
    requires InPlace(m, space, p, image) && Added(m, m', space, other, image)
    ensures InPlace(m', space, p, image)
  {
    hide View, ByteAt, PageFloor, PageCeil, PageOf, SegmentByte, SegmentFlags;
    if p.memorySize > 0 {
      forall va: nat | PageFloor(p.address) <= va < PageCeil(SegmentEnd(p)) && va < LOWER_END
        ensures InPlaceAt(m', space, p, image, va) {
        assert InPlaceAt(m, space, p, image, va);
      }
    }
  }

  /** The loadable segments among the first `n` are in place, below `highest`. */
  ghost predicate AllInPlace(m: Memory, space: Frame, segments: seq<Segment>, n: nat, image: seq<byte>, highest: nat) {
    forall j | 0 <= j < n && j < |segments| && segments[j].load ::
      InPlace(m, space, segments[j], image) && SegmentEnd(segments[j]) <= highest
  }

  predicate Enters(p: Segment, entry: nat) {
    p.load && p.exec && p.address <= entry && entry - p.address < p.memorySize
  }

  lemma AllStays(m: Memory, m': Memory, space: Frame, segments: seq<Segment>, n: nat, image: seq<byte>, highest: nat,
                 highest': nat)
    requires n < |segments| && segments[n].load && AllInPlace(m, space, segments, n, image, highest)
    requires Added(m, m', space, segments[n], image)
    requires highest <= highest' && SegmentEnd(segments[n]) <= highest'
    ensures AllInPlace(m', space, segments, n + 1, image, highest')
  {
    hide InPlace, Elsewhere, View, ByteAt;
    forall j | 0 <= j < n && segments[j].load ensures InPlace(m', space, segments[j], image) {
      StaysInPlace(m, m', space, segments[j], image, segments[n]);
    }
  }

  lemma AddedParts(m0: Memory, m: Memory, m': Memory, space: Frame, p: Segment, image: seq<byte>)
    requires Added(m, m', space, p, image) && PagesKept(m0, m) && Elsewhere(View(m0), View(m), space)
    ensures PagesKept(m0, m') && Elsewhere(View(m0), View(m'), space) && |m'.pages| == |m.pages| + SegmentPages(p)
    ensures InPlace(m', space, p, image) && SegmentOk(p, |image|)
  {
    hide View, ByteAt, InPlaceAt, SegmentPages, PageFloor, PageCeil;
  }

  lemma ElsewhereTrans(v0: Private, v1: Private, v2: Private, space: Frame)
    requires Elsewhere(v0, v1, space) && Elsewhere(v1, v2, space)
    ensures Elsewhere(v0, v2, space)
  {
    hide ByteAt;
  }

  /** The first `n` program headers have been dealt with; `end` is where the highest segment ends. */
  ghost predicate LoadedUpTo(m0: Memory, m: Memory, space: Frame, segments: seq<Segment>, n: nat, image: seq<byte>,
                             end: nat, pages: nat, limit: nat) {
    && PagesKept(m0, m) && AllInPlace(m, space, segments, n, image, end)
    && (end == 0 || exists j | 0 <= j < n && j < |segments| && segments[j].load :: SegmentEnd(segments[j]) == end)
    && |m.pages| == |m0.pages| + pages && pages <= limit && pages == TotalPages(segments, n)
  }

  function TotalPages(segments: seq<Segment>, n: nat): nat {
    if n == 0 || n > |segments| then 0 else
      TotalPages(segments, n - 1) + if segments[n - 1].load then SegmentPages(segments[n - 1]) else 0
  }

  lemma {:induction false} TotalGrows(segments: seq<Segment>, n: nat, k: nat)
    requires n <= k <= |segments|
    ensures TotalPages(segments, n) <= TotalPages(segments, k)
    decreases k
  {
    hide SegmentPages;
    if n < k {
      TotalGrows(segments, n, k - 1);
    }
  }

  /** An earlier loadable segment has the page of `va`. */
  ghost predicate Occupied(segments: seq<Segment>, n: nat, va: nat) {
    exists j | 0 <= j < n && j < |segments| && segments[j].load :: FirstPage(segments[j]) <= va < PastPages(segments[j])
  }

  /** Segment `j` is malformed, or one of its pages is mapped already or taken by an earlier segment. */
  ghost predicate BadSegment(t: Tree, space: Frame, segments: seq<Segment>, j: nat, size: nat)
    requires j < |segments|
  {
    || !SegmentOk(segments[j], size)
    || exists va: nat | FirstPage(segments[j]) <= va < PastPages(segments[j]) ::
         Translate(t, PageOf(space, va)).Some? || Occupied(segments, j, va)
  }

  /** Away from the loaded segments nothing has been mapped. */
  ghost predicate SameApart(t0: Tree, t: Tree, space: Frame, segments: seq<Segment>, n: nat) {
    forall va: nat | va < LOWER_END && !Occupied(segments, n, va) ::
      Translate(t, PageOf(space, va)) == Translate(t0, PageOf(space, va))
  }

  /** The loaded segments keep their pages. */
  ghost predicate AllTaken(t: Tree, space: Frame, segments: seq<Segment>, n: nat) {
    forall va: nat | va < LOWER_END && Occupied(segments, n, va) :: Translate(t, PageOf(space, va)).Some?
  }

  ghost predicate SomeBad(t: Tree, space: Frame, segments: seq<Segment>, n: nat, size: nat) {
    exists j | 0 <= j < n && j < |segments| && segments[j].load :: BadSegment(t, space, segments, j, size)
  }

  lemma NoneApart(t: Tree, space: Frame, segments: seq<Segment>, size: nat)
    ensures SameApart(t, t, space, segments, 0) && AllTaken(t, space, segments, 0)
    ensures !SomeBad(t, space, segments, 0, size)
  {
  }

  lemma OccupiedNext(segments: seq<Segment>, n: nat, va: nat)
    requires n < |segments|
    ensures Occupied(segments, n + 1, va) <==>
      Occupied(segments, n, va) || (segments[n].load && FirstPage(segments[n]) <= va < PastPages(segments[n]))
  {
    hide PastPages, FirstPage;
    if Occupied(segments, n, va) {
      var j :| 0 <= j < n && j < |segments| && segments[j].load
        && FirstPage(segments[j]) <= va < PastPages(segments[j]);
      assert Occupied(segments, n + 1, va);
    }
  }

  lemma {:induction false} BadNext(t: Tree, space: Frame, segments: seq<Segment>, n: nat, size: nat)
    requires n < |segments|
    ensures SomeBad(t, space, segments, n + 1, size) <==>
      SomeBad(t, space, segments, n, size) || (segments[n].load && BadSegment(t, space, segments, n, size))
  {
    hide BadSegment;
  }

  lemma SkipApart(t0: Tree, t: Tree, space: Frame, segments: seq<Segment>, n: nat, size: nat)
    requires n < |segments| && !segments[n].load && SameApart(t0, t, space, segments, n)
    requires AllTaken(t, space, segments, n) && !SomeBad(t0, space, segments, n, size)
    ensures SameApart(t0, t, space, segments, n + 1) && AllTaken(t, space, segments, n + 1)
    ensures !SomeBad(t0, space, segments, n + 1, size)
  {
    hide Translate, PageOf, Occupied, SomeBad;
    BadNext(t0, space, segments, n, size);
    forall va: nat ensures Occupied(segments, n + 1, va) <==> Occupied(segments, n, va) {
      OccupiedNext(segments, n, va);
    }
  }

  /** The pages of segment `n` are clear now exactly if it is not bad. */
  lemma ClearIsGood(t0: Tree, t: Tree, space: Frame, segments: seq<Segment>, n: nat, size: nat)
    requires n < |segments| && SameApart(t0, t, space, segments, n) && AllTaken(t, space, segments, n)
    requires SegmentOk(segments[n], size)
    ensures Clear(t, space, FirstPage(segments[n]), PastPages(segments[n])) <==>
      !BadSegment(t0, space, segments, n, size)
  {
    hide Translate, PageOf, Occupied, SegmentOk;
    LastPages(segments[n], size);
    hide FirstPage, PastPages;
    var lo, hi := FirstPage(segments[n]), PastPages(segments[n]);
    forall va: nat | lo <= va < hi
      ensures Translate(t, PageOf(space, va)).None? <==>
        Translate(t0, PageOf(space, va)).None? && !Occupied(segments, n, va) {
    }
  }

  lemma LastPages(p: Segment, size: nat)
    requires SegmentOk(p, size)
    ensures PastPages(p) <= LOWER_END
  {
    if p.memorySize > 0 {
      RoomForPage(PageFloor(SegmentEnd(p) - 1));
    }
  }

  lemma LoadedApart(t0: Tree, t: Tree, t': Tree, space: Frame, segments: seq<Segment>, n: nat, m': Memory,
                    image: seq<byte>)
    requires n < |segments| && segments[n].load && SameApart(t0, t, space, segments, n)
    requires AllTaken(t, space, segments, n)
    requires !SomeBad(t0, space, segments, n, |image|) && SegmentOk(segments[n], |image|)
    requires Clear(t, space, FirstPage(segments[n]), PastPages(segments[n]))
    requires SameBeyond(t, t', space, FirstPage(segments[n]), PastPages(segments[n]))
    requires InPlace(m', space, segments[n], image) && m'.pages == Flat(t')
    ensures SameApart(t0, t', space, segments, n + 1) && AllTaken(t', space, segments, n + 1)
    ensures !SomeBad(t0, space, segments, n + 1, |image|)
  {
    hide Translate, PageOf, Occupied, SomeBad, InPlace, Flat, SegmentOk;
    ClearIsGood(t0, t, space, segments, n, |image|);
    BadNext(t0, space, segments, n, |image|);
    hide BadSegment, FirstPage, PastPages;
    var lo, hi := FirstPage(segments[n]), PastPages(segments[n]);
    forall va: nat | va < LOWER_END
      ensures !Occupied(segments, n + 1, va) ==> Translate(t', PageOf(space, va)) == Translate(t0, PageOf(space, va))
      ensures Occupied(segments, n + 1, va) ==> Translate(t', PageOf(space, va)).Some? {
      OccupiedNext(segments, n, va);
      if lo <= va < hi {
        NowTaken(t', space, segments[n], m', image, va);
      } else {
        assert Translate(t', PageOf(space, va)) == Translate(t, PageOf(space, va));
      }
    }
  }

  lemma NowTaken(t: Tree, space: Frame, p: Segment, m: Memory, image: seq<byte>, va: nat)
    requires InPlace(m, space, p, image) && m.pages == Flat(t) && FirstPage(p) <= va < PastPages(p) && va < LOWER_END
    ensures Translate(t, PageOf(space, va)).Some?
  {
    hide Translate, PageOf, Flat, View, ByteAt;
    assert InPlaceAt(m, space, p, image, va);
    UserMiss(t, PageOf(space, va));
  }

  ghost predicate Apart(t0: Tree, t: Tree, space: Frame, segments: seq<Segment>, n: nat, size: nat) {
    SameApart(t0, t, space, segments, n) && AllTaken(t, space, segments, n) && !SomeBad(t0, space, segments, n, size)
  }

  /** One round of the loop of elf_load, for a loadable segment. */
  method LoadNext(vm: Manager, space: Frame, image: seq<byte>, segments: seq<Segment>, i: nat, highest: nat, total: nat,
                  limit: nat, ghost m0: Memory, ghost t0: Tree)
    returns (r: LoadResult, end: nat, pages: nat)
    requires Valid(vm) && Pos(space, 0, 0) in vm.roots && i < |segments| && segments[i].load
    requires Elsewhere(View(m0), View(Mem(vm)), space) && OtherPages(m0, Mem(vm), space)
    requires LoadedUpTo(m0, Mem(vm), space, segments, i, image, highest, total, limit)
    requires Apart(t0, vm.T(), space, segments, i, |image|)
    modifies vm, vm.pmm, vm.pmm.used, vm.pmm.refs
    ensures Valid(vm) && vm.roots == old(vm.roots) && vm.held == old(vm.held)
    ensures Elsewhere(View(m0), View(Mem(vm)), space) && OtherPages(m0, Mem(vm), space)
    ensures r.Loaded? ==> LoadedUpTo(m0, Mem(vm), space, segments, i + 1, image, end, pages, limit)
    ensures r.Loaded? ==> Apart(t0, vm.T(), space, segments, i + 1, |image|)
    ensures r == Invalid ==> BadSegment(t0, space, segments, i, |image|)
    ensures r == OutOfMemory ==> NoMemory(vm, space) || TotalPages(segments, i + 1) > limit
  {
    hide Sane, Flat, View, Added, Elsewhere, LoadedUpTo, Apart, BadSegment, SegmentPages, TotalPages, Clear, SameBeyond,
      NoMemory, FirstPage, PastPages, OtherPages;
    var p := segments[i];
    BadUnlessClear(t0, vm.T(), space, segments, i, |image|);
    TotalUpTo(m0, Mem(vm), space, segments, i, image, highest, total, limit);
    end, pages := highest, total;
    if !(p.address <= LOWER_END && p.memorySize <= LOWER_END - p.address) {
      return Invalid, 0, 0;
    }
    var needed := CountPages(p);
    if needed > limit - total {
      return OutOfMemory, 0, 0;
    }
    ghost var m, t := Mem(vm), vm.T();
    r := LoadSegment(vm, space, image, p);
    ElsewhereTrans(View(m0), View(m), View(Mem(vm)), space);
    OtherPagesTrans(m0, m, Mem(vm), space);
    if !r.Loaded? {
      return r, 0, 0;
    }
    if SegmentEnd(p) > end {
      end := SegmentEnd(p);
    }
    LoadedMore(m0, m, Mem(vm), space, segments, i, image, highest, total, limit);
    StillApartAfter(t0, t, vm.T(), space, segments, i, m, Mem(vm), image);
    pages := pages + needed;
  }

  lemma LoadedMore(m0: Memory, m: Memory, m': Memory, space: Frame, segments: seq<Segment>, i: nat, image: seq<byte>,
                   highest: nat, total: nat, limit: nat)
    requires i < |segments| && segments[i].load && LoadedUpTo(m0, m, space, segments, i, image, highest, total, limit)
    requires Added(m, m', space, segments[i], image) && Elsewhere(View(m0), View(m), space)
    requires total + SegmentPages(segments[i]) <= limit
    ensures LoadedUpTo(m0, m', space, segments, i + 1, image,
                       if SegmentEnd(segments[i]) > highest then SegmentEnd(segments[i]) else highest,
                       total + SegmentPages(segments[i]), limit)
  {
    hide View, Added, Elsewhere, PagesKept, InPlace, SegmentPages, AllInPlace;
    var end := if SegmentEnd(segments[i]) > highest then SegmentEnd(segments[i]) else highest;
    AddedParts(m0, m, m', space, segments[i], image);
    AllStays(m, m', space, segments, i, image, highest, end);
  }

  lemma StillApartAfter(t0: Tree, t: Tree, t': Tree, space: Frame, segments: seq<Segment>, n: nat, m: Memory,
                        m': Memory, image: seq<byte>)
    requires n < |segments| && segments[n].load && Apart(t0, t, space, segments, n, |image|)
    requires Clear(t, space, FirstPage(segments[n]), PastPages(segments[n]))
    requires SameBeyond(t, t', space, FirstPage(segments[n]), PastPages(segments[n]))
    requires Added(m, m', space, segments[n], image) && m'.pages == Flat(t')
    ensures Apart(t0, t', space, segments, n + 1, |image|)
  {
    hide View, Flat, Elsewhere, PagesKept, InPlace, SegmentPages, Clear, SameBeyond, SameApart, AllTaken, SomeBad,
      FirstPage, PastPages, ByteAt;
    InPlaceOk(m', space, segments[n], image);
    LoadedApart(t0, t, t', space, segments, n, m', image);
  }

  lemma BadUnlessClear(t0: Tree, t: Tree, space: Frame, segments: seq<Segment>, n: nat, size: nat)
    requires n < |segments| && Apart(t0, t, space, segments, n, size)
    ensures !SegmentOk(segments[n], size) || !Clear(t, space, FirstPage(segments[n]), PastPages(segments[n])) ==>
      BadSegment(t0, space, segments, n, size)
  {
    hide Clear, SameApart, AllTaken, SomeBad, FirstPage, PastPages, Translate, PageOf, Occupied;
    if SegmentOk(segments[n], size) {
      ClearIsGood(t0, t, space, segments, n, size);
    }
  }

  lemma TotalUpTo(m0: Memory, m: Memory, space: Frame, segments: seq<Segment>, i: nat, image: seq<byte>, highest: nat,
                  total: nat, limit: nat)
    requires i < |segments| && segments[i].load && LoadedUpTo(m0, m, space, segments, i, image, highest, total, limit)
    ensures total <= limit && TotalPages(segments, i + 1) == total + SegmentPages(segments[i])
  {
    hide SegmentPages, PagesKept, AllInPlace;
  }

  /** What elf_load asks of an image: a good header, segments that are well formed, on pages of their
      own and below the stack guard, and an entry point in an executable one. */
  ghost predicate Loadable(t: Tree, space: Frame, headerOk: bool, entry: nat, segments: seq<Segment>, size: nat) {
    && headerOk && segments != [] && entry < LOWER_END
    && !SomeBad(t, space, segments, |segments|, size)
    && (exists j | 0 <= j < |segments| :: Enters(segments[j], entry))
    && (forall j | 0 <= j < |segments| && segments[j].load :: SegmentEnd(segments[j]) < STACK_ADDRESS - PAGE_SIZE)
  }

  lemma StartApart(t: Tree, space: Frame, segments: seq<Segment>, size: nat)
    ensures Apart(t, t, space, segments, 0, size)
  {
    hide SameApart, AllTaken, SomeBad;
    NoneApart(t, space, segments, size);
  }

  lemma StillApart(t0: Tree, t: Tree, space: Frame, segments: seq<Segment>, n: nat, size: nat)
    requires n < |segments| && !segments[n].load && Apart(t0, t, space, segments, n, size)
    ensures Apart(t0, t, space, segments, n + 1, size)
  {
    hide SameApart, AllTaken, SomeBad;
    SkipApart(t0, t, space, segments, n, size);
  }

  lemma BadFound(t: Tree, space: Frame, segments: seq<Segment>, j: nat, size: nat)
    requires j < |segments| && segments[j].load
    ensures BadSegment(t, space, segments, j, size) ==> SomeBad(t, space, segments, |segments|, size)
  {
    hide BadSegment;
  }

  lemma EndExact(m0: Memory, m: Memory, t0: Tree, t: Tree, space: Frame, segments: seq<Segment>, image: seq<byte>,
                 end: nat, pages: nat, limit: nat)
    requires LoadedUpTo(m0, m, space, segments, |segments|, image, end, pages, limit)
    requires Apart(t0, t, space, segments, |segments|, |image|)
    ensures !SomeBad(t0, space, segments, |segments|, |image|)
    ensures end < STACK_ADDRESS - PAGE_SIZE <==>
      forall j | 0 <= j < |segments| && segments[j].load :: SegmentEnd(segments[j]) < STACK_ADDRESS - PAGE_SIZE
  {
    hide InPlace, PagesKept, TotalPages, SomeBad, SameApart, AllTaken;
  }

  /** elf_load, for a file whose header is well formed when `headerOk`. On success every loadable
      segment is in place, the image end is the highest segment end, and the page count is exact and
      within the limit. With memory and pages to spare it succeeds exactly for a loadable image. */
  method Load(vm: Manager, space: Frame, image: seq<byte>, headerOk: bool, entry: nat, segments: seq<Segment>,
              limit: nat)
    returns (r: LoadResult, end: nat, pages: nat)
    requires Valid(vm) && Pos(space, 0, 0) in vm.roots
    modifies vm, vm.pmm, vm.pmm.used, vm.pmm.refs
    ensures Valid(vm) && vm.roots == old(vm.roots) && vm.held == old(vm.held)
    ensures Elsewhere(View(old(Mem(vm))), View(Mem(vm)), space) && OtherPages(old(Mem(vm)), Mem(vm), space)
    ensures r.Loaded? ==> LoadedUpTo(old(Mem(vm)), Mem(vm), space, segments, |segments|, image, end, pages, limit)
    ensures r.Loaded? ==> Loadable(old(vm.T()), space, headerOk, entry, segments, |image|)
    ensures r.Loaded? ==> AllUsable(vm.T(), space, segments) && Runs(vm.T(), space, entry)
    ensures r == Invalid ==> !Loadable(old(vm.T()), space, headerOk, entry, segments, |image|)
    ensures r == OutOfMemory ==> NoMemory(vm, space) || TotalPages(segments, |segments|) > limit
  {
    hide Sane, Flat, View, Elsewhere, LoadedUpTo, Apart, NoMemory, SomeBad, AllInPlace, AllUsable, Runs, OtherPages;
    ghost var m0, t0 := Mem(vm), vm.T();
    OtherPagesRefl(m0, space);
    NoneApart(t0, space, segments, |image|);
    StartApart(t0, space, segments, |image|);
    ZeroedStart(View(m0), m0, space, 0, Flags(false, true, false, false, false, true));
    NoSegments(m0, space, segments, image, limit);
    end, pages := 0, 0;
    if !headerOk || segments == [] || entry >= LOWER_END {
      return Invalid, 0, 0;
    }
    var executable := false;
    var i := 0;
    while i < |segments|
      invariant 0 <= i <= |segments| && Valid(vm) && vm.roots == old(vm.roots) && vm.held == old(vm.held)
      invariant Elsewhere(View(m0), View(Mem(vm)), space) && OtherPages(m0, Mem(vm), space)
      invariant LoadedUpTo(m0, Mem(vm), space, segments, i, image, end, pages, limit)
      invariant executable <==> exists j | 0 <= j < i :: Enters(segments[j], entry)
      invariant Apart(t0, vm.T(), space, segments, i, |image|)
    {
      if segments[i].load {
        r, end, pages := LoadNext(vm, space, image, segments, i, end, pages, limit, m0, t0);
        if !r.Loaded? {
          TotalGrows(segments, i + 1, |segments|);
          BadFound(t0, space, segments, i, |image|);
          return r, 0, 0;
        }
        if Enters(segments[i], entry) {
          executable := true;
        }
      } else {
        SkipSegment(m0, Mem(vm), space, segments, i, image, end, pages, limit);
        StillApart(t0, vm.T(), space, segments, i, |image|);
      }
      i := i + 1;
    }
    EndExact(m0, Mem(vm), t0, vm.T(), space, segments, image, end, pages, limit);
    if !executable || end >= STACK_ADDRESS - PAGE_SIZE {
      return Invalid, 0, 0;
    }
    LoadedPlaces(m0, Mem(vm), space, segments, image, end, pages, limit);
    ImageUsable(Mem(vm), vm.T(), space, segments, image, end, entry);
    r := Loaded;
  }

  lemma LoadedPlaces(m0: Memory, m: Memory, space: Frame, segments: seq<Segment>, image: seq<byte>, end: nat,
                     pages: nat, limit: nat)
    requires LoadedUpTo(m0, m, space, segments, |segments|, image, end, pages, limit)
    ensures AllInPlace(m, space, segments, |segments|, image, end)
  {
    hide InPlace;
  }

  method CountPages(p: Segment) returns (n: nat)
    ensures n == SegmentPages(p)
  {
    n := 0;
    if p.memorySize != 0 {
      PagesOfSegment(p);
      n := (SegmentEnd(p) - 1 - PageFloor(p.address)) / PAGE_SIZE + 1;
    }
  }

  lemma NoSegments(m: Memory, space: Frame, segments: seq<Segment>, image: seq<byte>, limit: nat)
    ensures LoadedUpTo(m, m, space, segments, 0, image, 0, 0, limit)
  {
  }

  lemma SkipSegment(m0: Memory, m: Memory, space: Frame, segments: seq<Segment>, n: nat, image: seq<byte>, end: nat,
                    pages: nat, limit: nat)
    requires n < |segments| && !segments[n].load && LoadedUpTo(m0, m, space, segments, n, image, end, pages, limit)
    ensures LoadedUpTo(m0, m, space, segments, n + 1, image, end, pages, limit)
  {
    hide InPlace;
  }
}
