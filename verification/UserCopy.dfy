/** Copies between kernel buffers and user memory (src/mm/usercopy.c), and user-mode stores. */
module UserCopy {
  import opened Pmm
  import opened Paging
  import opened Accounts
  import opened Translation
  import opened Walks
  import opened Cow
  import opened Clones
  import opened Fork
  import opened Machine
  import opened Vmm
  import opened UserMemory

  /** The byte a space reads at an address of its private memory. */
  ghost function ByteAt(v: Private, space: Frame, va: nat): Option<byte> {
    var q := PageOf(space, va);
    if q in v && va % PAGE_SIZE < |v[q]| then Some(v[q][va % PAGE_SIZE]) else None
  }

  ghost function Overlay(v0: Private, space: Frame, address: nat, bytes: seq<byte>, s: Frame, va: nat): Option<byte> {
    if s == space && address <= va < address + |bytes| then Some(bytes[va - address]) else ByteAt(v0, s, va)
  }

  /** `v` is `v0` with `bytes` stored at `address` in one space. */
  ghost predicate Written(v0: Private, v: Private, space: Frame, address: nat, bytes: seq<byte>) {
    && v.Keys == v0.Keys
    && forall s: Frame, va: nat | va < LOWER_END :: ByteAt(v, s, va) == Overlay(v0, space, address, bytes, s, va)
  }

  lemma PageOfLower(s: Frame, va: nat, s': Frame, va': nat)
    requires va < LOWER_END && va' < LOWER_END
    ensures PageOf(s, va) == PageOf(s', va') && va % PAGE_SIZE == va' % PAGE_SIZE <==> s == s' && va == va'
  {
  }

  lemma WrittenNone(v: Private, space: Frame, address: nat)
    ensures Written(v, v, space, address, [])
  {
  }

  /** One more byte. */
  lemma WrittenStep(v0: Private, v: Private, v': Private, space: Frame, address: nat, bytes: seq<byte>, b: byte)
    requires Written(v0, v, space, address, bytes) && address + |bytes| < LOWER_END
    requires PrivateStep(v, Write(PageOf(space, address + |bytes|), (address + |bytes|) % PAGE_SIZE, b), v')
    ensures Written(v0, v', space, address, bytes + [b])
  {
    var a := address + |bytes|;
    var q := PageOf(space, a);
    forall s: Frame, va: nat | va < LOWER_END
      ensures ByteAt(v', s, va) == Overlay(v0, space, address, bytes + [b], s, va) {
      assert ByteAt(v, s, va) == Overlay(v0, space, address, bytes, s, va);
      PageOfLower(s, va, space, a);
      hide PageOf;
    }
  }

  lemma WrittenOne(v: Private, v': Private, space: Frame, va: nat, b: byte)
    requires va < LOWER_END && PrivateStep(v, Write(PageOf(space, va), va % PAGE_SIZE, b), v')
    ensures Written(v, v', space, va, [b])
  {
    hide PrivateStep, Written;
    WrittenNone(v, space, va);
    WrittenStep(v, v, v', space, va, [], b);
    assert [] + [b] == [b];
  }

  /** A user translation comes from a 4 KiB page of the space's own. */
  lemma UserHit(t: Tree, q: Pos)
    requires FlagsOk(t) && q.depth == 4 && Translate(t, q).Some?
    ensures var m := Translate(t, q).value;
      m.user || m.cow ==>
        q in Flat(t) && Flat(t)[q].frame == m.frame && Flat(t)[q].writable == m.writable && Flat(t)[q].cow == m.cow
          && m.user
  {
    hide Ent, Flat;
    var c := Terminal(t, q);
    TerminalAbove(t, q);
    EntryFlags(t, c);
    PageAt(t, q);
    LeafAt(t, c);
  }

  lemma {:induction false} TerminalAbove(t: Tree, c: Pos)
    ensures Terminal(t, c).depth <= c.depth && (Terminal(t, c).depth == c.depth ==> Terminal(t, c) == c)
    ensures Terminal(t, c).depth == 0 || Leaf(t, Terminal(t, c)).present
    decreases c.depth
  {
    if c.depth > 0 && !Leaf(t, c).present {
      TerminalAbove(t, Parent(c));
    }
  }

  /** A user page translates to itself. */
  lemma UserMiss(t: Tree, q: Pos)
    requires q.depth == 4 && q in Flat(t)
    ensures Translate(t, q) == Some(Mapping(Flat(t)[q].frame, Flat(t)[q].writable, true, Flat(t)[q].cow, Flat(t)[q].nx))
  {
    hide Ent, Flat;
    PageAt(t, q);
    LeafAt(t, q);
  }

  lemma StoreOk(g: Layout, t: Tree, s: State, held: multiset<Frame>, q: Pos, offset: nat, b: byte)
    requires Sane(g, t, s, held) && q in Flat(t) && offset < PAGE_SIZE
    requires Flat(t)[q].writable || Owners(MemoryOf(t, held), Flat(t)[q].frame) == 1
    ensures IsData(t, Flat(t)[q].frame)
    ensures var t' := WithData(t, Flat(t)[q].frame, Poke(t.mem[Flat(t)[q].frame].bytes, offset, b));
      && Sane(g, t', s, held) && Flat(t') == Flat(t) && SameTables(t, t')
      && Step(MemoryOf(t, held), Write(q, offset, b), MemoryOf(t', held))
      && PrivateStep(View(MemoryOf(t, held)), Write(q, offset, b), View(MemoryOf(t', held)))
  {
    hide Flat, TreeOk, Acct, Consistent, FlagsOk, Ent, Tops, Fresh;
    var f := Flat(t)[q].frame;
    UserCounted(g, t, s, held, q);
    ShapeOf(t);
    OwnersAreRefs(g, t, s, held, q);
    SoleMapping(g, t, s, held, q);
    var t' := WithData(t, f, Poke(t.mem[f].bytes, offset, b));
    WithDataOk(g, t, s, held, f, Poke(t.mem[f].bytes, offset, b));
    FlagsSame(t, t');
    StoreIsStep(t, held, q, offset, b);
    StepSane(g, t, s, t', s, held, held, Write(q, offset, b));
  }

  lemma StoreIsStep(t: Tree, held: multiset<Frame>, q: Pos, offset: nat, b: byte)
    requires q in Flat(t) && offset < PAGE_SIZE && IsData(t, Flat(t)[q].frame)
    requires Flat(t)[q].writable || Owners(MemoryOf(t, held), Flat(t)[q].frame) == 1
    requires var t' := WithData(t, Flat(t)[q].frame, Poke(t.mem[Flat(t)[q].frame].bytes, offset, b));
      Flat(t') == Flat(t)
    ensures var t' := WithData(t, Flat(t)[q].frame, Poke(t.mem[Flat(t)[q].frame].bytes, offset, b));
      Step(MemoryOf(t, held), Write(q, offset, b), MemoryOf(t', held))
  {
    hide Flat, Owners;
  }

  /** A page that is writable, or that nobody else refers to. */
  ghost predicate Storable(m: Memory, q: Pos) {
    q in m.pages && (m.pages[q].writable || Owners(m, m.pages[q].frame) == 1)
  }

  lemma StorableSame(m: Memory, m': Memory, q: Pos)
    requires Storable(m, q) && m'.pages == m.pages && m'.held == m.held
    ensures Storable(m', q)
  {
  }

  /** A store to the frame of a page. */
  method StoreByte(vm: Manager, frame: Frame, offset: nat, b: byte, ghost q: Pos)
    requires Valid(vm) && Storable(Mem(vm), q) && Mem(vm).pages[q].frame == frame && offset < PAGE_SIZE
    modifies vm`mem
    ensures Valid(vm) && Mem(vm).pages == old(Mem(vm)).pages
    ensures Step(old(Mem(vm)), Write(q, offset, b), Mem(vm))
    ensures PrivateStep(View(old(Mem(vm))), Write(q, offset, b), View(Mem(vm)))
    ensures SameTables(old(vm.T()), vm.T())
  {
    hide Sane, Flat, Step, View, PrivateStep, SameTables, Ent, IsUser, Count, Owners;
    StoreOk(vm.pmm.layout, vm.T(), vm.S(), vm.held, q, offset, b);
    ghost var t := vm.T();
    vm.mem := vm.mem[frame := Data(Poke(vm.mem[frame].bytes, offset, b))];
    assert vm.T() == WithData(t, frame, Poke(t.mem[frame].bytes, offset, b));
  }

  /** vmm_space_query on a lower-half address, in terms of the user pages of the space. */
  method QueryUser(vm: Manager, space: Frame, va: nat) returns (m: Option<Mapping>, physical: nat)
    requires Valid(vm) && Pos(space, 0, 0) in vm.roots && va < LOWER_END
    ensures var q := PageOf(space, va); var p := Mem(vm).pages;
      && (q in p ==> m == Some(Mapping(p[q].frame, p[q].writable, true, p[q].cow, p[q].nx)))
      && (m.Some? && (m.value.user || m.value.cow) ==> q in p)
    ensures m.Some? ==> physical / PAGE_SIZE == m.value.frame && physical % PAGE_SIZE == va % PAGE_SIZE
  {
    hide Sane, Flat, PageOf, Canonical, Translate, TreeOk, Acct, Consistent, FlagsOk, Tops;
    CanonicalLower(va);
    ValidParts(vm.pmm.layout, vm.T(), vm.S(), vm.held);
    m, physical := vm.Query(space, va);
    QueryFacts(vm.T(), PageOf(space, va));
  }

  /** The page for a write: resolved if it was copy-on-write; `None` if the program may not write. */
  method WritablePage(vm: Manager, space: Frame, va: nat) returns (r: Option<nat>)
    requires Valid(vm) && Pos(space, 0, 0) in vm.roots && va < LOWER_END
    modifies vm, vm.pmm, vm.pmm.used, vm.pmm.refs
    ensures Valid(vm) && vm.roots == old(vm.roots) && vm.held == old(vm.held)
    ensures View(Mem(vm)) == View(old(Mem(vm)))
    ensures r.Some? ==> PageOf(space, va) in Mem(vm).pages && Mem(vm).pages[PageOf(space, va)].writable
    ensures r.Some? ==> Storable(Mem(vm), PageOf(space, va))
    ensures r.Some? ==> r.value / PAGE_SIZE == Mem(vm).pages[PageOf(space, va)].frame
    ensures r.Some? ==> r.value % PAGE_SIZE == va % PAGE_SIZE
    ensures SameRights(old(Mem(vm)), Mem(vm)) && (r.Some? ==> MayWrite(old(Mem(vm)), PageOf(space, va)))
    ensures r.None? ==> vm.pmm.freePages <= KERNEL_RESERVE_PAGES || !MayWrite(old(Mem(vm)), PageOf(space, va))
  {
    hide Sane, Flat, View, PageOf, Canonical, Step, SameRights;
    RightsRefl(Mem(vm));
    var m, physical := QueryUser(vm, space, va);
    if m.None? {
      return None;
    }
    if m.value.cow {
      CanonicalLower(va);
      ghost var before := Mem(vm);
      var resolved := ResolvePage(vm, space, va);
      if resolved <= 0 {
        return None;
      }
      ResolvedWritable(before, PageOf(space, va), Mem(vm));
      m, physical := QueryUser(vm, space, va);
    }
    if m.None? || !m.value.user || !m.value.writable {
      return None;
    }
    return Some(physical);
  }

  /** A program may write to the page, once it has been resolved if it is copy-on-write. */
  ghost predicate MayWrite(m: Memory, q: Pos) {
    q in m.pages && (m.pages[q].writable || m.pages[q].cow)
  }

  ghost predicate SameRights(m: Memory, m': Memory) { RightsOf(m'.pages) == RightsOf(m.pages) }

  lemma ResolvedWritable(m: Memory, q: Pos, m': Memory)
    requires Step(m, Resolve(q), m')
    ensures q in m'.pages && m'.pages[q].writable && MayWrite(m, q) && SameRights(m, m')
  {
    hide Owners, AllKept, RightsOf;
    RightsRefine(m, Resolve(q), m');
  }

  lemma CanonicalLower(va: nat)
    requires va < LOWER_END
    ensures Canonical(va)
  {
  }

  /** A query of a user page, in terms of the flat map. */
  lemma QueryFacts(t: Tree, q: Pos)
    requires FlagsOk(t) && q.depth == 4
    ensures q in Flat(t) ==>
      Translate(t, q) == Some(Mapping(Flat(t)[q].frame, Flat(t)[q].writable, true, Flat(t)[q].cow, Flat(t)[q].nx))
    ensures Translate(t, q).Some? && (Translate(t, q).value.user || Translate(t, q).value.cow) ==> q in Flat(t)
  {
    if q in Flat(t) {
      UserMiss(t, q);
    }
    if Translate(t, q).Some? {
      UserHit(t, q);
    }
  }

  predicate RangeValid(address: nat, size: nat) { address < LOWER_END && size <= LOWER_END - address }

  lemma RangeIs(address: nat, size: nat)
    ensures RangeValid(address, size) <==> address < LOWER_END && address + size <= LOWER_END
  {
  }

  /** A user-mode store: through the page if it is writable, else after the write fault resolved it. */
  method UserStore(vm: Manager, space: Frame, va: nat, b: byte) returns (ok: bool)
    requires Valid(vm) && Pos(space, 0, 0) in vm.roots && va < LOWER_END
    modifies vm, vm.pmm, vm.pmm.used, vm.pmm.refs
    ensures Valid(vm) && vm.roots == old(vm.roots) && vm.held == old(vm.held)
    ensures if ok then Written(View(old(Mem(vm))), View(Mem(vm)), space, va, [b])
            else View(Mem(vm)) == View(old(Mem(vm)))
    ensures if ok then MayWrite(old(Mem(vm)), PageOf(space, va))
            else vm.pmm.freePages <= KERNEL_RESERVE_PAGES || !MayWrite(old(Mem(vm)), PageOf(space, va))
    ensures SameRights(old(Mem(vm)), Mem(vm))
  {
    hide Sane, Flat, View, PageOf, Step, PrivateStep, Written, MayWrite, SameRights;
    var page := WritablePage(vm, space, va);
    if page.None? {
      return false;
    }
    ghost var v, m := View(Mem(vm)), Mem(vm);
    StoreByte(vm, page.value / PAGE_SIZE, page.value % PAGE_SIZE, b, PageOf(space, va));
    WrittenOne(v, View(Mem(vm)), space, va, b);
    RightsSame(old(Mem(vm)), m, Mem(vm));
    return true;
  }

  /** The inner loop of copy_user towards user memory: one chunk within one page. */
  method StoreChunk(vm: Manager, space: Frame, va: nat, physical: nat, chunk: seq<byte>)
    requires Valid(vm) && va + |chunk| <= LOWER_END && va % PAGE_SIZE + |chunk| <= PAGE_SIZE
    requires physical % PAGE_SIZE == va % PAGE_SIZE
    requires Storable(Mem(vm), PageOf(space, va)) && physical / PAGE_SIZE == Mem(vm).pages[PageOf(space, va)].frame
    modifies vm`mem
    ensures Valid(vm) && Written(View(old(Mem(vm))), View(Mem(vm)), space, va, chunk)
    ensures Mem(vm).pages == old(Mem(vm)).pages
    ensures SameTables(old(vm.T()), vm.T())
  {
    hide Sane, Flat, View, PageOf, Step, PrivateStep, Written, Storable, SameTables, Ent;
    ghost var m0, q := Mem(vm), PageOf(space, va);
    WrittenNone(View(m0), space, va);
    TablesRefl(vm.T());
    var i := 0;
    assert chunk[..0] == [];
    while i < |chunk|
      invariant 0 <= i <= |chunk| && Valid(vm) && Mem(vm).pages == m0.pages
      invariant Written(View(m0), View(Mem(vm)), space, va, chunk[..i]) && SameTables(old(vm.T()), vm.T())
    {
      ghost var v, t := View(Mem(vm)), vm.T();
      SamePage(space, va, i);
      SameFrame(physical, i);
      StorableSame(m0, Mem(vm), q);
      StoreByte(vm, (physical + i) / PAGE_SIZE, (physical + i) % PAGE_SIZE, chunk[i], q);
      TablesTrans(old(vm.T()), t, vm.T());
      assert |chunk[..i]| == i && chunk[..i] + [chunk[i]] == chunk[..i + 1];
      WrittenStep(View(m0), v, View(Mem(vm)), space, va, chunk[..i], chunk[i]);
      i := i + 1;
    }
    assert chunk[..i] == chunk;
  }

  lemma ChunkPage(space: Frame, va: nat, n: nat)
    requires va % PAGE_SIZE + n <= PAGE_SIZE
    ensures forall a | va <= a < va + n :: PageOf(space, a) == PageOf(space, va)
  {
    forall a | va <= a < va + n ensures PageOf(space, a) == PageOf(space, va) {
      SamePage(space, va, a - va);
    }
  }

  lemma SameFrame(physical: nat, i: nat)
    requires physical % PAGE_SIZE + i < PAGE_SIZE
    ensures (physical + i) / PAGE_SIZE == physical / PAGE_SIZE && (physical + i) % PAGE_SIZE == physical % PAGE_SIZE + i
  {
  }

  lemma SamePage(space: Frame, va: nat, i: nat)
    requires va % PAGE_SIZE + i < PAGE_SIZE
    ensures PageOf(space, va + i) == PageOf(space, va) && (va + i) % PAGE_SIZE == va % PAGE_SIZE + i
    ensures (va + i) / PAGE_SIZE == va / PAGE_SIZE
  {
  }

  /** Two stores one after the other are one store. */
  lemma WrittenAppend(v0: Private, v1: Private, v2: Private, space: Frame, address: nat, a: seq<byte>, b: seq<byte>)
    requires Written(v0, v1, space, address, a) && Written(v1, v2, space, address + |a|, b)
    ensures Written(v0, v2, space, address, a + b)
  {
    hide ByteAt;
    forall s: Frame, va: nat | va < LOWER_END ensures ByteAt(v2, s, va) == Overlay(v0, space, address, a + b, s, va) {
      assert ByteAt(v2, s, va) == Overlay(v1, space, address + |a|, b, s, va);
      assert ByteAt(v1, s, va) == Overlay(v0, space, address, a, s, va);
    }
  }

  lemma WrittenSlice(v0: Private, v1: Private, v2: Private, space: Frame, address: nat, buffer: seq<byte>, m: nat,
                     n: nat)
    requires m <= n <= |buffer|
    requires Written(v0, v1, space, address, buffer[..m]) && Written(v1, v2, space, address + m, buffer[m..][..n - m])
    ensures Written(v0, v2, space, address, buffer[..n])
  {
    hide Written;
    assert |buffer[..m]| == m && buffer[..m] + buffer[m..][..n - m] == buffer[..n];
    WrittenAppend(v0, v1, v2, space, address, buffer[..m], buffer[m..][..n - m]);
  }

  /** The bytes of a range of `rest` bytes at `va` that lie in its first page. */
  function PageChunk(va: nat, rest: nat): (n: nat)
    requires 0 < rest
    ensures 0 < n <= rest && va % PAGE_SIZE + n <= PAGE_SIZE && (n == rest || (va + n) % PAGE_SIZE == 0)
  {
    var n := PAGE_SIZE - va % PAGE_SIZE;
    if n > rest then rest else n
  }

  /** The body of copy_user's outer loop: the bytes up to the end of the page, or none. */
  method CopyChunk(vm: Manager, space: Frame, va: nat, rest: seq<byte>) returns (chunk: nat)
    requires Valid(vm) && Pos(space, 0, 0) in vm.roots && rest != [] && va + |rest| <= LOWER_END
    modifies vm, vm.pmm, vm.pmm.used, vm.pmm.refs
    ensures Valid(vm) && vm.roots == old(vm.roots) && vm.held == old(vm.held) && chunk <= |rest|
    ensures Written(View(old(Mem(vm))), View(Mem(vm)), space, va, rest[..chunk])
    ensures SameRights(old(Mem(vm)), Mem(vm))
    ensures if chunk > 0 then chunk == PageChunk(va, |rest|) && MayWrite(old(Mem(vm)), PageOf(space, va))
            else vm.pmm.freePages <= KERNEL_RESERVE_PAGES || !MayWrite(old(Mem(vm)), PageOf(space, va))
  {
    hide *;
    ghost var v0 := View(Mem(vm));
    var page := WritablePage(vm, space, va);
    if page.None? {
      WrittenNone(v0, space, va);
      assert rest[..0] == [];
      return 0;
    }
    chunk := PageChunk(va, |rest|);
    assert View(Mem(vm)) == v0;
    ghost var m1 := Mem(vm);
    StoreChunk(vm, space, va, page.value, rest[..chunk]);
    RightsSame(old(Mem(vm)), m1, Mem(vm));
  }

  lemma RightsSame(m: Memory, m': Memory, m'': Memory)
    requires SameRights(m, m') && (m''.pages == m'.pages || SameRights(m', m''))
    ensures SameRights(m, m'')
  {
  }

  lemma RightsAt(m: Memory, m': Memory, q: Pos)
    requires SameRights(m, m')
    ensures MayWrite(m, q) <==> MayWrite(m', q)
  {
    assert q in RightsOf(m.pages) <==> q in RightsOf(m'.pages);
  }

  lemma RightsRefl(m: Memory)
    ensures SameRights(m, m)
  {
  }

  /** copy_to_user: on success exactly the addressed bytes of this space change, to the buffer's; a
      failure has stored some prefix of the buffer and nothing else. */
  method CopyToUser(vm: Manager, space: Frame, address: nat, buffer: seq<byte>) returns (ok: bool, ghost done: nat)
    requires Valid(vm) && Pos(space, 0, 0) in vm.roots
    modifies vm, vm.pmm, vm.pmm.used, vm.pmm.refs
    ensures Valid(vm) && vm.roots == old(vm.roots) && vm.held == old(vm.held) && done <= |buffer|
    ensures Written(View(old(Mem(vm))), View(Mem(vm)), space, address, buffer[..done])
    ensures ok <==> done == |buffer|
    ensures ok && buffer != [] ==>
      RangeValid(address, |buffer|) && forall va | address <= va < address + |buffer| ::
        MayWrite(old(Mem(vm)), PageOf(space, va))
    ensures !ok ==>
      !RangeValid(address, |buffer|) || vm.pmm.freePages <= KERNEL_RESERVE_PAGES
        || !MayWrite(old(Mem(vm)), PageOf(space, address + done))
    ensures SameRights(old(Mem(vm)), Mem(vm))
  {
    hide Sane, Flat, View, PageOf, Step, PrivateStep, Written, MayWrite, SameRights, PageChunk;
    ghost var m0 := Mem(vm);
    ghost var v0 := View(Mem(vm));
    RightsRefl(m0);
    WrittenNone(v0, space, address);
    done := 0;
    assert buffer[..0] == [];
    if |buffer| == 0 {
      return true, 0;
    }
    if !RangeValid(address, |buffer|) {
      return false, 0;
    }
    var copied := 0;
    while copied < |buffer|
      invariant 0 <= copied <= |buffer| && Valid(vm) && vm.roots == old(vm.roots) && vm.held == old(vm.held)
      invariant Written(v0, View(Mem(vm)), space, address, buffer[..copied])
      invariant SameRights(m0, Mem(vm))
      invariant forall va | address <= va < address + copied :: MayWrite(m0, PageOf(space, va))
    {
      ghost var v1, m1 := View(Mem(vm)), Mem(vm);
      var chunk := CopyChunk(vm, space, address + copied, buffer[copied..]);
      RightsAt(m0, m1, PageOf(space, address + copied));
      RightsSame(m0, m1, Mem(vm));
      ChunkPage(space, address + copied, chunk);
      WrittenSlice(v0, v1, View(Mem(vm)), space, address, buffer, copied, copied + chunk);
      if chunk == 0 {
        return false, copied;
      }
      copied := copied + chunk;
    }
    return true, copied;
  }

  lemma PageReads(m: Memory, space: Frame, va: nat)
    requires Good(m)
    ensures ByteAt(View(m), space, va).Some? <==> PageOf(space, va) in m.pages
    ensures PageOf(space, va) in m.pages ==> var f := m.pages[PageOf(space, va)].frame;
      Holds(m, f) && ByteAt(View(m), space, va) == Some(m.mem[f].bytes[va % PAGE_SIZE])
  {
    hide PageOf, Owners;
    if PageOf(space, va) in m.pages {
      assert PageOk(m, PageOf(space, va));
    }
  }

  /** copy_from_user: succeeds exactly when every byte of the range is a user byte, and then returns
      what the space reads there. */
  method CopyFromUser(vm: Manager, space: Frame, address: nat, size: nat) returns (ok: bool, data: seq<byte>)
    requires Valid(vm) && Pos(space, 0, 0) in vm.roots
    ensures ok <==>
      size == 0
        || (RangeValid(address, size) && forall va | address <= va < address + size ::
          ByteAt(View(Mem(vm)), space, va).Some?)
    ensures ok ==>
      |data| == size && forall va | address <= va < address + size ::
        ByteAt(View(Mem(vm)), space, va) == Some(data[va - address])
  {
    hide Sane, Flat, View, PageOf, Good, ByteAt, IsUser, Ent;
    GoodFromSane(vm.pmm.layout, vm.T(), vm.S(), vm.held);
    data := [];
    if size == 0 {
      return true, [];
    }
    if !RangeValid(address, size) {
      return false, [];
    }
    var copied := 0;
    while copied < size
      invariant 0 <= copied <= size && |data| == copied
      invariant forall a | address <= a < address + copied :: ByteAt(View(Mem(vm)), space, a) == Some(data[a - address])
    {
      var va := address + copied;
      PageReads(Mem(vm), space, va);
      var m, physical := QueryUser(vm, space, va);
      if m.None? || !m.value.user {
        assert ByteAt(View(Mem(vm)), space, address + copied).None?;
        return false, data;
      }
      var chunk := PageChunk(va, size - copied);
      var i := 0;
      while i < chunk
        invariant 0 <= i <= chunk && |data| == copied + i
        invariant forall a | address <= a < address + copied + i ::
          ByteAt(View(Mem(vm)), space, a) == Some(data[a - address])
      {
        SamePage(space, va, i);
        PageReads(Mem(vm), space, va + i);
        data := data + [vm.mem[physical / PAGE_SIZE].bytes[physical % PAGE_SIZE + i]];
        i := i + 1;
      }
      copied := copied + chunk;
    }
    ok := true;
  }

  /** What a program may do with a page: read it, or also write to it. */
  ghost predicate Accessible(m: Memory, q: Pos, writable: bool) {
    q in m.pages && (writable ==> MayWrite(m, q))
  }

  /** user_range_accessible: exactly when every byte of the range is, page by page. */
  method RangeAccessible(vm: Manager, space: Frame, address: nat, size: nat, writable: bool) returns (ok: bool)
    requires Valid(vm) && Pos(space, 0, 0) in vm.roots
    ensures ok <==>
      RangeValid(address, size) && forall va | address <= va < address + size ::
        Accessible(Mem(vm), PageOf(space, va), writable)
  {
    hide Sane, Flat, PageOf;
    if !RangeValid(address, size) {
      return false;
    }
    if size == 0 {
      return true;
    }
    var end := address + size;
    var page := address - address % PAGE_SIZE;
    while page < end
      invariant page % PAGE_SIZE == 0 && address < page + PAGE_SIZE
      invariant forall va | address <= va < page && va < end :: Accessible(Mem(vm), PageOf(space, va), writable)
    {
      var m, physical := QueryUser(vm, space, page);
      ChunkPage(space, page, PAGE_SIZE);
      if m.None? || !m.value.user || (writable && !(m.value.writable || m.value.cow)) {
        assert PageOf(space, if address > page then address else page) == PageOf(space, page);
        return false;
      }
      page := page + PAGE_SIZE;
    }
    return true;
  }
}
