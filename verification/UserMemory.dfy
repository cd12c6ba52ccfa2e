/** User memory as programs see it: the manager's operations, together with their callers' handling
    of frames, are steps of the copy-on-write machine (src/mm/usercopy.c, src/kernel/process.c). */
module UserMemory {
  import opened Pmm
  import opened Paging
  import opened Accounts
  import opened Translation
  import opened Walks
  import opened Cow
  import opened Subtrees
  import opened Clones
  import opened Fork
  import opened Supply
  import opened Machine
  import opened Vmm

  /** Everything the manager maintains between operations. */
  ghost predicate Sane(g: Layout, t: Tree, s: State, held: multiset<Frame>) {
    && Consistent(g, s) && TreeOk(t) && Acct(g, t, s, held) && FlagsOk(t) && Tops(t.roots)
    && Pos(t.kernel, 0, 0) in t.roots && Exclusive(t, s)
  }

  /** What the manager's own operations ask for. */
  lemma ValidParts(g: Layout, t: Tree, s: State, held: multiset<Frame>)
    requires Sane(g, t, s, held)
    ensures Consistent(g, s) && TreeOk(t) && Acct(g, t, s, held) && FlagsOk(t) && Tops(t.roots)
    ensures Pos(t.kernel, 0, 0) in t.roots
  {
  }

  ghost predicate Valid(vm: Manager)
    reads vm, vm.pmm, vm.pmm.used, vm.pmm.refs
  {
    Sane(vm.pmm.layout, vm.T(), vm.S(), vm.held)
  }

  ghost function MemoryOf(t: Tree, held: multiset<Frame>): Memory { Memory(Flat(t), t.mem, held) }

  /** The machine state a manager stands for. */
  ghost function Mem(vm: Manager): Memory
    reads vm
  {
    MemoryOf(vm.T(), vm.held)
  }

  /** A user page's frame counts its mappings in all spaces and the kernel's handles, and has no
      other reference; a writable page is alone on its frame. */
  ghost predicate PageExact(pages: map<Pos, Entry>, s: State, held: multiset<Frame>, q: Pos)
    requires q in pages
  {
    var f := pages[q].frame;
    Refs(s, f) == Count(pages, f) + held[f] > 0 && (pages[q].writable ==> Refs(s, f) == 1)
  }

  /** A table of the allocator's is alone on its frame. */
  ghost predicate TableExact(pages: map<Pos, Entry>, s: State, held: multiset<Frame>, f: Frame) {
    Refs(s, f) == 1 && Count(pages, f) == 0 && held[f] == 0
  }

  /** Frame ownership is exact: for user pages, for tables, and for the free frames, which are those
      nobody refers to and which the counter counts. */
  ghost predicate Exact(g: Layout, t: Tree, s: State, held: multiset<Frame>) {
    && (forall q | q in Flat(t) :: PageExact(Flat(t), s, held, q))
    && (forall p | p in t.at && g.Managed(t.at[p]) :: TableExact(Flat(t), s, held, t.at[p]))
    && s.free == ClearBits(s.used)
    && (forall f: Frame | f < |s.used| && g.Managed(f) :: s.used[f] <==> Refs(s, f) > 0)
  }

  lemma OwnershipExact(g: Layout, t: Tree, s: State, held: multiset<Frame>)
    requires Sane(g, t, s, held)
    ensures Exact(g, t, s, held)
  {
    hide Flat, TreeOk, Acct, FlagsOk, Tops, Count;
    ShapeOf(t);
    forall q | q in Flat(t) ensures PageExact(Flat(t), s, held, q) {
      UserCounted(g, t, s, held, q);
      DataBalance(g, t, s, held, q);
    }
    forall p | p in t.at && g.Managed(t.at[p]) ensures TableExact(Flat(t), s, held, t.at[p]) {
      TableBalance(g, t, s, held, p);
    }
  }

  lemma DataBalance(g: Layout, t: Tree, s: State, held: multiset<Frame>, q: Pos)
    requires Shape(t) && Acct(g, t, s, held) && q in Flat(t)
    ensures Refs(s, Flat(t)[q].frame) == Count(Flat(t), Flat(t)[q].frame) + held[Flat(t)[q].frame]
  {
    hide Flat, Count, Shape, Fresh;
    FrameFresh(g, t, s, held, Flat(t)[q].frame);
  }

  lemma TableBalance(g: Layout, t: Tree, s: State, held: multiset<Frame>, p: Pos)
    requires Shape(t) && Acct(g, t, s, held) && p in t.at && g.Managed(t.at[p])
    ensures Refs(s, t.at[p]) == 1 && Count(Flat(t), t.at[p]) == 0 && held[t.at[p]] == 0
  {
    hide Flat, Shape;
    TableCountOne(g, t, s, held, p);
  }

  lemma OwnersAreRefs(g: Layout, t: Tree, s: State, held: multiset<Frame>, q: Pos)
    requires Shape(t) && Acct(g, t, s, held) && q in Flat(t)
    ensures Owners(MemoryOf(t, held), Flat(t)[q].frame) == Refs(s, Flat(t)[q].frame)
  {
    hide Flat, Count;
    FrameFresh(g, t, s, held, Flat(t)[q].frame);
  }

  lemma GoodFromSane(g: Layout, t: Tree, s: State, held: multiset<Frame>)
    requires Sane(g, t, s, held)
    ensures Good(MemoryOf(t, held))
  {
    hide Flat, Consistent, TreeOk, Ent;
    ShapeOf(t);
    forall q | q in Flat(t) ensures PageOk(MemoryOf(t, held), q) {
      UserCounted(g, t, s, held, q);
      OwnersAreRefs(g, t, s, held, q);
      EntryFlags(t, q);
      PageAt(t, q);
      hide Acct, FlagsOk;
    }
  }

  lemma ExclusiveFromGood(g: Layout, t: Tree, s: State, held: multiset<Frame>)
    requires TreeOk(t) && Acct(g, t, s, held) && Good(MemoryOf(t, held))
    ensures Exclusive(t, s)
  {
    hide Flat, TreeOk, Acct;
    ShapeOf(t);
    forall q | q in Flat(t) && Flat(t)[q].writable ensures Refs(s, Flat(t)[q].frame) == 1 {
      assert PageOk(MemoryOf(t, held), q);
      OwnersAreRefs(g, t, s, held, q);
    }
  }

  /** One step of the machine carries the invariant across one operation of the manager. */
  lemma StepSane(g: Layout, t: Tree, s: State, t': Tree, s': State, held: multiset<Frame>, held': multiset<Frame>,
                 op: Op)
    requires Sane(g, t, s, held) && Step(MemoryOf(t, held), op, MemoryOf(t', held'))
    requires Consistent(g, s') && TreeOk(t') && Acct(g, t', s', held') && FlagsOk(t') && Tops(t'.roots)
    requires Pos(t'.kernel, 0, 0) in t'.roots
    ensures Sane(g, t', s', held') && Good(MemoryOf(t', held'))
    ensures PrivateStep(View(MemoryOf(t, held)), op, View(MemoryOf(t', held')))
    ensures RightsStep(RightsOf(Flat(t)), op, RightsOf(Flat(t')))
  {
    hide Flat, TreeOk, Acct, Consistent, FlagsOk, Step, RightsOf, RightsStep;
    GoodFromSane(g, t, s, held);
    StepRefines(MemoryOf(t, held), op, MemoryOf(t', held'));
    ExclusiveFromGood(g, t', s', held');
  }

  lemma InUseOwned(t: Tree, held: multiset<Frame>, f: Frame)
    ensures InUse(t, held, f) <==> Owners(MemoryOf(t, held), f) > 0
  {
    hide Flat;
    CountEmpty(Flat(t), f);
  }

  lemma KeptFromKeeps(held: multiset<Frame>, held': multiset<Frame>, t: Tree, t': Tree)
    requires KeepsData(held, t, t')
    ensures AllKept(MemoryOf(t, held), MemoryOf(t', held'))
  {
    hide Flat, InUse, Owners;
    forall f ensures InUse(t, held, f) <==> Owners(MemoryOf(t, held), f) > 0 {
      InUseOwned(t, held, f);
    }
  }

  lemma ResolveIsStep(g: Layout, t: Tree, s: State, held: multiset<Frame>, t': Tree, s': State, q: Pos)
    requires TreeOk(t) && Acct(g, t, s, held) && Resolved(t, s, held, t', q) && Flat(t)[q].cow
    requires Keeps(held, t, s, t', s')
    ensures Step(MemoryOf(t, held), Resolve(q), MemoryOf(t', held))
  {
    hide Flat, TreeOk, Acct, Keeps, Owners, AllKept, InUse, Leaf, Shape, KeepsData;
    KeepsGivesData(held, t, s, t', s');
    KeptFromKeeps(held, held, t, t');
    ShapeOf(t);
    OwnersAreRefs(g, t, s, held, q);
    InUseOwned(t, held, Flat(t')[q].frame);
  }

  lemma ResolvesOnlyPage(t: Tree, s: State, held: multiset<Frame>, t': Tree, q: Pos)
    requires Resolved(t, s, held, t', q) && q.depth == 4
    ensures OnlyPage(t, t', q)
  {
    hide Flat, Leaf, Translate, IsData, Unclaimed, Refs;
    forall q': Pos | q'.depth == 4 && q' != q ensures Translate(t', q') == Translate(t, q') {
      TranslateElsewhere(t, t', q, q');
    }
  }

  lemma ForkIsStep(g: Layout, t: Tree, held: multiset<Frame>, t': Tree, parent: Frame, child: Frame)
    requires TreeOk(t) && Tops(t.roots) && Pos(child, 0, 0) !in t.at && Pos(parent, 0, 0) in t.at
    requires Forked(Flat(t), Flat(t'), parent, child) && KeepsData(held, t, t')
    ensures Step(MemoryOf(t, held), Op.Fork(parent, child), MemoryOf(t', held))
  {
    hide Flat, TreeOk, KeepsData, Forked, AllKept;
    NoPagesIn(t, child, Pos(0, 0, 0));
    KeptFromKeeps(held, held, t, t');
  }

  lemma UnmapIsStep(t: Tree, s: State, held: multiset<Frame>, t': Tree, s': State, q: Pos)
    requires Flat(t') == Flat(t) - {q} && KeepsData(held, t, t')
    ensures Step(MemoryOf(t, held), Unmap(q), MemoryOf(t', held))
  {
    hide Flat, KeepsData, AllKept;
    KeptFromKeeps(held, held, t, t');
  }

  lemma DestroyIsStep(t: Tree, held: multiset<Frame>, t': Tree, space: Frame)
    requires TreeOk(t) && Tops(t.roots) && t' == Without(t, Pos(space, 0, 0))
    ensures Step(MemoryOf(t, held), Destroy(space), MemoryOf(t', held))
  {
    forall c ensures c in Flat(t') <==> c in Flat(t) && c.root != space {
      DestroyedPage(t, t', space, c);
    }
    forall c | c in Flat(t') ensures Flat(t')[c] == Flat(t)[c] {
      DestroyedPage(t, t', space, c);
    }
    WithoutMem(t, Pos(space, 0, 0));
  }

  lemma DestroyedPage(t: Tree, t': Tree, space: Frame, c: Pos)
    requires TreeOk(t) && Tops(t.roots) && t' == Without(t, Pos(space, 0, 0))
    ensures c in Flat(t') <==> c in Flat(t) && c.root != space
    ensures c in Flat(t') ==> Flat(t')[c] == Flat(t)[c]
  {
    hide Flat, TreeOk, Ent;
    RemovedEnt(t, t', c);
    if c in Flat(t) {
      EntHas(t, c);
      AllUnder(t, Parent(c));
      if Under(Pos(space, 0, 0), Parent(c)) { UnderRoot(Pos(space, 0, 0), Parent(c)); }
    }
  }

  lemma IdleIsStep(held: multiset<Frame>, t: Tree, t': Tree)
    requires Flat(t') == Flat(t) && KeepsData(held, t, t')
    ensures Step(MemoryOf(t, held), Handles(held), MemoryOf(t', held))
  {
    hide Flat, KeepsData, AllKept;
    KeptFromKeeps(held, held, t, t');
  }

  // ---- operations ----

  /** A write fault on a present page, and copy_user before a write (src/kernel/process.c:483-487). */
  method ResolvePage(vm: Manager, space: Frame, va: nat) returns (r: int)
    requires Valid(vm) && Pos(space, 0, 0) in vm.roots && (va >= UPPER_START ==> space == vm.kernel)
    modifies vm, vm.pmm, vm.pmm.used, vm.pmm.refs
    ensures Valid(vm) && vm.roots == old(vm.roots) && vm.held == old(vm.held)
    ensures r <= 0 ==> vm.T() == old(vm.T()) && Mem(vm) == old(Mem(vm)) && vm.pmm.freePages == old(vm.pmm.freePages)
    ensures r > 0 ==> Step(old(Mem(vm)), Resolve(PageOf(space, va)), Mem(vm))
    ensures View(Mem(vm)) == View(old(Mem(vm))) && OnlyPage(old(vm.T()), vm.T(), PageOf(space, va))
    ensures RightsOf(Mem(vm).pages) == RightsOf(old(Mem(vm)).pages)
    ensures r < 0 ==> old(vm.pmm.freePages) <= KERNEL_RESERVE_PAGES
    ensures r == 0 <==>
      !(Canonical(va) && PageOf(space, va) in old(Mem(vm)).pages && old(Mem(vm)).pages[PageOf(space, va)].cow)
  {
    hide Flat, TreeOk, Acct, Keeps, Consistent, FlagsOk, Step, Resolved, View, Exclusive, PageOf, Canonical, Tops,
      Translate, OnlyPage, RightsOf;
    ghost var t, s := vm.T(), vm.S();
    r := vm.ResolveCow(space, va);
    if r <= 0 {
      TablesRefl(t);
      TablesPages(t, t, PageOf(space, va));
    } else {
      ResolvesOnlyPage(t, s, vm.held, vm.T(), PageOf(space, va));
      ResolveIsStep(vm.pmm.layout, t, s, vm.held, vm.T(), vm.S(), PageOf(space, va));
      StepSane(vm.pmm.layout, t, s, vm.T(), vm.S(), vm.held, vm.held, Resolve(PageOf(space, va)));
    }
  }

  function Zeros(): (b: seq<byte>)
    ensures |b| == PAGE_SIZE && forall i | 0 <= i < PAGE_SIZE :: b[i] == 0
  {
    seq(PAGE_SIZE, _ => 0 as byte)
  }

  /** Filling a frame only the caller has a handle on. */
  lemma FillFrame(g: Layout, t: Tree, s: State, held: multiset<Frame>, f: Frame, bytes: seq<byte>)
    requires TreeOk(t) && FlagsOk(t) && Acct(g, t, s, held + multiset{f}) && Unclaimed(t, held, f)
    requires |bytes| == PAGE_SIZE
    ensures var t' := WithData(t, f, bytes);
      && TreeOk(t') && FlagsOk(t') && Acct(g, t', s, held + multiset{f}) && Flat(t') == Flat(t)
      && (forall c :: Ent(t', c) == Ent(t, c)) && IsData(t', f) && KeepsData(held, t, t')
  {
    hide TreeOk, FlagsOk, Acct, Flat, Ent, Fresh, InUse;
    WithDataOk(g, t, s, held + multiset{f}, f, bytes);
    FlagsSame(t, WithData(t, f, bytes));
  }

  lemma MapIsStep(held: multiset<Frame>, t: Tree, t1: Tree, t2: Tree, s1: State, s2: State, q: Pos, e: Entry,
                  bytes: seq<byte>)
    requires q !in Flat(t) && Unclaimed(t, held, e.frame) && e.present && e.user && LeafFlagsOk(e)
    requires |bytes| == PAGE_SIZE
    requires t1 == WithData(t, e.frame, bytes) && Flat(t1) == Flat(t) && KeepsData(held, t, t1)
    requires Keeps(held + multiset{e.frame}, t1, s1, t2, s2) && Flat(t2) == Flat(t)[q := e]
    ensures Step(MemoryOf(t, held), Op.Map(q, e, bytes), MemoryOf(t2, held))
  {
    hide Flat, Keeps, Fresh, AllKept, InUse, Owners, KeepsData;
    KeepsHandle(held + multiset{e.frame}, t1, s1, t2, s2, e.frame);
    KeepsLess(held, held + multiset{e.frame}, t1, s1, t2, s2);
    KeepsGivesData(held, t1, s1, t2, s2);
    KeepsDataTrans(held, t, t1, t2);
    KeptFromKeeps(held, held, t, t2);
    InUseOwned(t, held, e.frame);
  }

  lemma MapFailed(held: multiset<Frame>, f: Frame, t: Tree, t1: Tree, s1: State, t2: Tree, s2: State, q: Pos)
    requires Flat(t1) == Flat(t) && KeepsData(held, t, t1) && Keeps(held + multiset{f}, t1, s1, t2, s2)
    requires SameTables(t, t1)
    requires q.depth == 4 && forall c :: Ent(t2, c) == Ent(t1, c)
    ensures Flat(t2) == Flat(t) && Step(MemoryOf(t, held), Handles(held), MemoryOf(t2, held))
    ensures OnlyPage(t, t2, q) && Translate(t2, q) == Translate(t, q)
  {
    hide Flat, Keeps, KeepsData, Ent, OnlyPage, Translate, Step;
    FlatSame(t1, t2);
    TablesTrans(t, t1, t2);
    TablesPages(t, t2, q);
    KeepsLess(held, held + multiset{f}, t1, s1, t2, s2);
    KeepsGivesData(held, t1, s1, t2, s2);
    KeepsDataTrans(held, t, t1, t2);
    IdleIsStep(held, t, t2);
  }

  lemma MapDone(held: multiset<Frame>, t: Tree, t1: Tree, t2: Tree, s1: State, s2: State, q: Pos, e: Entry,
                bytes: seq<byte>)
    requires q.depth == 4 && Unclaimed(t, held, e.frame) && e.present && e.user && LeafFlagsOk(e)
    requires |bytes| == PAGE_SIZE
    requires t1 == WithData(t, e.frame, bytes) && Flat(t1) == Flat(t) && KeepsData(held, t, t1)
    requires Keeps(held + multiset{e.frame}, t1, s1, t2, s2) && !Leaf(t1, q).present && Mapped(t1, t2, q, e)
    requires SameTables(t, t1)
    ensures OnlyPage(t, t2, q) && Step(MemoryOf(t, held), Op.Map(q, e, bytes), MemoryOf(t2, held))
  {
    hide Flat, Keeps, KeepsData, Ent, Mapped, Step, Unclaimed, OnlyPage, SameTables;
    LeafIsEnt(t1, q);
    MapsOnlyPage(t, t1, t2, q, e);
    MappedFlat(t1, t2, q, e);
    MapIsStep(held, t, t1, t2, s1, s2, q, e, bytes);
  }

  /** No page but `q` is translated differently, nor `q` on failure; with memory to spare, a
      permitted request fails only if `q` is mapped already. */
  ghost predicate MapOutcome(t: Tree, t': Tree, q: Pos, ok: bool, possible: bool)
    requires q.depth == 4
  {
    OnlyPage(t, t', q) && (!ok ==> Translate(t', q) == Translate(t, q) && (possible ==> Translate(t, q).Some?))
  }

  /** A zeroed frame nobody else refers to. */
  method ZeroedFrame(vm: Manager) returns (r: Option<Frame>)
    requires vm.Sound() && FlagsOk(vm.T())
    modifies vm, vm.pmm, vm.pmm.used, vm.pmm.refs
    ensures vm.Sound() && FlagsOk(vm.T()) && vm.roots == old(vm.roots) && vm.at == old(vm.at)
    ensures r.None? <==> old(vm.pmm.freePages) <= KERNEL_RESERVE_PAGES
    ensures r.None? ==> vm.T() == old(vm.T()) && vm.S() == old(vm.S()) && vm.held == old(vm.held)
    ensures r.Some? ==> vm.T() == WithData(old(vm.T()), r.value, Zeros()) && vm.held == old(vm.held) + multiset{r.value}
    ensures r.Some? ==> Unclaimed(old(vm.T()), old(vm.held), r.value) && IsData(vm.T(), r.value)
    ensures r.Some? ==> KeepsData(old(vm.held), old(vm.T()), vm.T())
    ensures r.Some? ==> Flat(vm.T()) == old(Flat(vm.T())) && SameTables(old(vm.T()), vm.T())
    ensures r.Some? ==> vm.pmm.freePages == old(vm.pmm.freePages) - 1
  {
    hide Flat, TreeOk, Acct, Keeps, Consistent, FlagsOk, Ent, KeepsData, IsData, Unclaimed;
    ghost var t, h := vm.T(), vm.held;
    r := vm.Take(KERNEL_RESERVE_PAGES);
    if r.Some? {
      FillFrame(vm.pmm.layout, t, vm.S(), h, r.value, Zeros());
      vm.mem := vm.mem[r.value := Data(Zeros())];
      assert vm.T() == WithData(t, r.value, Zeros());
    }
  }

  lemma FreeAbove(t: Tree, t': Tree, q: Pos)
    requires q.depth == 4 && SameTables(t, t')
    ensures Translate(t, q).None? ==> !Leaf(t', q).present && !UnderLarge(t', q)
  {
    hide Ent, UnderLarge, Translate, SameTables;
    TranslateTables(t, t', q);
    if Translate(t, q).None? {
      NothingThere(t', q);
    }
  }

  lemma AllowedZero(kernel: Frame, space: Frame, va: nat, f: Frame, flags: Flags)
    ensures f * PAGE_SIZE / PAGE_SIZE == f
    ensures MapAllowed(kernel, space, va, f * PAGE_SIZE, flags) <==> MapAllowed(kernel, space, va, 0, flags)
    ensures MapAllowed(kernel, space, va, 0, flags) && flags.user && !flags.cow ==> LeafFlagsOk(LeafEntry(f, flags))
  {
  }

  lemma Placed(g: Layout, t: Tree, s: State, h: multiset<Frame>, t1: Tree, s1: State, t2: Tree, s2: State, q: Pos,
               e: Entry,
               possible: bool)
    requires Sane(g, t, s, h) && q.depth == 4 && e.present && e.user && LeafFlagsOk(e) && t2.kernel == t.kernel
    requires t2.roots == t.roots
    requires t1 == WithData(t, e.frame, Zeros()) && Unclaimed(t, h, e.frame) && Flat(t1) == Flat(t) && SameTables(t, t1)
    requires KeepsData(h, t, t1) && Keeps(h + multiset{e.frame}, t1, s1, t2, s2) && !Leaf(t1, q).present
    requires Mapped(t1, t2, q, e)
    requires Consistent(g, s2) && TreeOk(t2) && Acct(g, t2, s2, h) && FlagsOk(t2)
    ensures Sane(g, t2, s2, h) && Step(MemoryOf(t, h), Op.Map(q, e, Zeros()), MemoryOf(t2, h))
    ensures MapOutcome(t, t2, q, true, possible)
  {
    hide Flat, TreeOk, Acct, Keeps, Consistent, FlagsOk, Step, View, Exclusive, Tops, Ent, Mapped, KeepsData, Unclaimed,
      Leaf, Translate, OnlyPage, SameTables, WithData;
    MapDone(h, t, t1, t2, s1, s2, q, e, Zeros());
    StepSane(g, t, s, t2, s2, h, h, Op.Map(q, e, Zeros()));
  }

  lemma NotPlaced(g: Layout, t: Tree, s: State, h: multiset<Frame>, f: Frame, t1: Tree, s1: State, t2: Tree, s2: State,
                  s3: State, q: Pos, possible: bool)
    requires Sane(g, t, s, h) && q.depth == 4 && t2.kernel == t.kernel && t2.roots == t.roots
    requires Flat(t1) == Flat(t) && KeepsData(h, t, t1) && Keeps(h + multiset{f}, t1, s1, t2, s2) && SameTables(t, t1)
    requires forall c :: Ent(t2, c) == Ent(t1, c)
    requires possible ==> Translate(t, q).Some?
    requires Consistent(g, s3) && TreeOk(t2) && Acct(g, t2, s3, h) && FlagsOk(t2)
    ensures Sane(g, t2, s3, h) && Flat(t2) == Flat(t) && View(MemoryOf(t2, h)) == View(MemoryOf(t, h))
    ensures MapOutcome(t, t2, q, false, possible)
  {
    hide Flat, TreeOk, Acct, Keeps, Consistent, FlagsOk, Step, View, Exclusive, Tops, Ent, KeepsData, Translate,
      OnlyPage, SameTables;
    MapFailed(h, f, t, t1, s1, t2, s2, q);
    StepSane(g, t, s, t2, s3, h, h, Handles(h));
  }

  /** The zeroed frame `f` that the caller holds is mapped, or given back. `t`, `s` and `h` are the
      state before it was taken. */
  method PlaceZeroed(vm: Manager, space: Frame, va: nat, f: Frame, flags: Flags, ghost t: Tree, ghost s: State,
                     ghost h: multiset<Frame>) returns (ok: bool)
    requires vm.Sound() && FlagsOk(vm.T()) && Sane(vm.pmm.layout, t, s, h) && Pos(space, 0, 0) in vm.roots
    requires flags.user && !flags.cow && vm.kernel == t.kernel && vm.roots == t.roots
    requires vm.T() == WithData(t, f, Zeros()) && vm.held == h + multiset{f} && Unclaimed(t, h, f) && IsData(vm.T(), f)
    requires KeepsData(h, t, vm.T()) && Flat(vm.T()) == Flat(t) && SameTables(t, vm.T()) && vm.pmm.freePages >= 3
    modifies vm, vm.pmm, vm.pmm.used, vm.pmm.refs
    ensures Valid(vm) && vm.roots == old(vm.roots) && vm.held == h
    ensures ok ==> MapAllowed(vm.kernel, space, va, 0, flags)
    ensures ok ==> Step(MemoryOf(t, h), Op.Map(PageOf(space, va), LeafEntry(f, flags), Zeros()), Mem(vm))
    ensures !ok ==> View(Mem(vm)) == View(MemoryOf(t, h)) && Flat(vm.T()) == Flat(t)
    ensures MapOutcome(t, vm.T(), PageOf(space, va), ok,
                       MapAllowed(vm.kernel, space, va, 0, flags) && vm.pmm.freePages > KERNEL_RESERVE_PAGES)
  {
    hide Sane, Flat, TreeOk, Acct, Keeps, Consistent, FlagsOk, Step, View, PageOf, Tops, Ent, Mapped, KeepsData, IsData,
      Unclaimed, UnderLarge, Leaf, Translate, SameTables, WithData, MapAllowed, MapOutcome, SameSupply, Shrinks,
      LeafFlagsOk;
    ghost var q, t1, s1 := PageOf(space, va), vm.T(), vm.S();
    ghost var possible := MapAllowed(vm.kernel, space, va, 0, flags);
    ValidParts(vm.pmm.layout, t, s, h);
    FreeAbove(t, t1, q);
    AllowedZero(vm.kernel, space, va, f, flags);
    ok := vm.MapPage(space, va, f * PAGE_SIZE, flags);
    ghost var t2, s2 := vm.T(), vm.S();
    assert h + multiset{f} - multiset{f} == h;
    if !ok {
      vm.Free(f);
    }
    possible := possible && vm.pmm.freePages > KERNEL_RESERVE_PAGES;
    if ok {
      Placed(vm.pmm.layout, t, s, h, t1, s1, t2, s2, q, LeafEntry(f, flags), possible);
    } else {
      NotPlaced(vm.pmm.layout, t, s, h, f, t1, s1, t2, s2, vm.S(), q, possible);
    }
  }

  /** A fault on a page not yet present: a zeroed frame is mapped, or nothing happens
      (src/kernel/process.c:507-523). */
  method MapZeroed(vm: Manager, space: Frame, va: nat, flags: Flags) returns (ok: bool, ghost entry: Entry)
    requires Valid(vm) && Pos(space, 0, 0) in vm.roots && flags.user && !flags.cow
    modifies vm, vm.pmm, vm.pmm.used, vm.pmm.refs
    ensures Valid(vm) && vm.roots == old(vm.roots) && vm.held == old(vm.held)
    ensures ok ==> MapAllowed(vm.kernel, space, va, 0, flags) && entry == LeafEntry(entry.frame, flags)
    ensures ok ==> Step(old(Mem(vm)), Op.Map(PageOf(space, va), entry, Zeros()), Mem(vm))
    ensures !ok ==> View(Mem(vm)) == View(old(Mem(vm))) && Mem(vm).pages == old(Mem(vm)).pages
    ensures MapOutcome(old(vm.T()), vm.T(), PageOf(space, va), ok,
                       MapAllowed(vm.kernel, space, va, 0, flags) && vm.pmm.freePages > KERNEL_RESERVE_PAGES)
  {
    hide Sane, Flat, TreeOk, Acct, Keeps, Consistent, FlagsOk, Step, View, PageOf, Tops, Ent, KeepsData, IsData,
      Unclaimed, Translate, OnlyPage, SameTables, WithData, MapAllowed;
    ghost var t, s, h := vm.T(), vm.S(), vm.held;
    ValidParts(vm.pmm.layout, t, s, h);
    entry := ABSENT;
    var page := ZeroedFrame(vm);
    if page.None? {
      TablesRefl(t);
      TablesPages(t, t, PageOf(space, va));
      return false, entry;
    }
    entry := LeafEntry(page.value, flags);
    ok := PlaceZeroed(vm, space, va, page.value, flags, t, s, h);
  }

  /** vmm_space_create: a new space without user pages, or no change; no program notices. */
  method NewSpace(vm: Manager, heapFull: bool) returns (r: Option<Frame>)
    requires Valid(vm)
    modifies vm, vm.pmm, vm.pmm.used, vm.pmm.refs
    ensures Valid(vm) && vm.held == old(vm.held)
    ensures Mem(vm).pages == old(Mem(vm)).pages && View(Mem(vm)) == View(old(Mem(vm)))
    ensures r.None? ==> vm.roots == old(vm.roots) && vm.at == old(vm.at) && SameSupply(old(vm.S()), vm.S())
    ensures r.None? ==> heapFull || old(vm.pmm.freePages) < |Part(old(vm.T()), Pos(vm.kernel, 0, 0), 256)|
    ensures r.Some? ==> Pos(r.value, 0, 0) !in old(vm.at) && vm.roots == old(vm.roots) + {Pos(r.value, 0, 0)}
    ensures r.Some? ==> SharesUpper(vm.T(), r.value) && forall q | q in Mem(vm).pages :: q.root != r.value
  {
    hide SharesUpper, Flat, TreeOk, Acct, Keeps, Consistent, FlagsOk, Step, View, Exclusive, Tops, Ent, KeepsData,
      Cloned, Part;
    ghost var t, s, h := vm.T(), vm.S(), vm.held;
    r := vm.CreateSpace(heapFull);
    KeepsGivesData(h, t, s, vm.T(), vm.S());
    IdleIsStep(h, t, vm.T());
    StepSane(vm.pmm.layout, t, s, vm.T(), vm.S(), h, h, Handles(h));
    if r.Some? {
      NoPagesIn(t, r.value, Pos(0, 0, 0));
    }
  }

  /** vmm_map_page, as the kernel heap, the stacks and the drivers use it: one kernel page more, or
      no change; no program notices. */
  method KernelMap(vm: Manager, va: nat, pa: nat, flags: Flags) returns (ok: bool)
    requires Valid(vm) && !flags.user && !flags.cow
    modifies vm, vm.pmm, vm.pmm.used, vm.pmm.refs
    ensures Valid(vm) && vm.roots == old(vm.roots) && vm.held == old(vm.held)
    ensures Mem(vm).pages == old(Mem(vm)).pages && View(Mem(vm)) == View(old(Mem(vm)))
    ensures ok ==> !old(Leaf(vm.T(), PageOf(vm.kernel, va))).present
    ensures ok ==> Mapped(old(vm.T()), vm.T(), PageOf(vm.kernel, va), LeafEntry(pa / PAGE_SIZE, flags))
    ensures ok ==> AsAsked(Leaf(vm.T(), PageOf(vm.kernel, va)), pa, flags)
    ensures !ok ==> vm.at == old(vm.at) && SameSupply(old(vm.S()), vm.S())
  {
    hide Flat, TreeOk, Acct, Keeps, Consistent, FlagsOk, Step, View, Exclusive, Tops, Ent, KeepsData, PageOf, Mapped,
      Leaf, MapAllowed, UnderLarge;
    ghost var t, s, h, q := vm.T(), vm.S(), vm.held, PageOf(vm.kernel, va);
    ok := vm.MapPage(vm.kernel, va, pa, flags);
    if ok {
      LeafIsEnt(t, q);
      MappedFlat(t, vm.T(), q, LeafEntry(pa / PAGE_SIZE, flags));
    } else {
      FlatSame(t, vm.T());
    }
    KeepsGivesData(h, t, s, vm.T(), vm.S());
    IdleIsStep(h, t, vm.T());
    StepSane(vm.pmm.layout, t, s, vm.T(), vm.S(), h, h, Handles(h));
  }

  /** vmm_unmap_page on the kernel's space: one kernel page less, and no program notices. */
  method KernelUnmap(vm: Manager, va: nat) returns (r: Option<Frame>)
    requires Valid(vm)
    modifies vm, vm.pmm, vm.pmm.used, vm.pmm.refs
    ensures Valid(vm) && vm.roots == old(vm.roots) && vm.held == old(vm.held)
    ensures Mem(vm).pages == old(Mem(vm)).pages && View(Mem(vm)) == View(old(Mem(vm)))
    ensures r.Some? <==> UnmapAllowed(vm.kernel, vm.kernel, va) && old(Leaf(vm.T(), PageOf(vm.kernel, va))).present
    ensures r.Some? ==> r.value == old(Leaf(vm.T(), PageOf(vm.kernel, va))).frame
    ensures OnlyPage(old(vm.T()), vm.T(), PageOf(vm.kernel, va))
  {
    hide Flat, TreeOk, Acct, Keeps, Consistent, FlagsOk, Step, View, Exclusive, Tops, Ent, KeepsData, PageOf, Leaf,
      Canonical, Translate, PrunedOnly, NoneEmpty;
    ghost var t, s, h, q := vm.T(), vm.S(), vm.held, PageOf(vm.kernel, va);
    KernelPage(t, q);
    r := vm.UnmapPage(vm.kernel, va);
    if r.Some? {
      UnmapChangesOnePage(t, vm.T(), q);
      assert Flat(t) - {q} == Flat(t);
    }
    KeepsGivesData(h, t, s, vm.T(), vm.S());
    IdleIsStep(h, t, vm.T());
    StepSane(vm.pmm.layout, t, s, vm.T(), vm.S(), h, h, Handles(h));
  }

  /** No page of the kernel's space is a user page. */
  lemma KernelPage(t: Tree, q: Pos)
    requires FlagsOk(t) && q.root == t.kernel && q.depth == 4
    ensures q !in Flat(t) && !Leaf(t, q).user
  {
    hide Flat;
    LeafIsEnt(t, q);
    PageAt(t, q);
  }

  /** pmm_alloc_page and pmm_free_page by kernel code, which then holds the frame or has given it up. */
  method TakePage(vm: Manager, reserve: nat) returns (r: Option<Frame>)
    requires Valid(vm)
    modifies vm`held, vm.pmm, vm.pmm.used, vm.pmm.refs
    ensures Valid(vm) && View(Mem(vm)) == View(old(Mem(vm))) && Mem(vm).pages == old(Mem(vm)).pages
    ensures r.None? <==> old(vm.pmm.freePages) <= reserve
    ensures vm.held == if r.Some? then old(vm.held) + multiset{r.value} else old(vm.held)
  {
    hide Flat, TreeOk, Acct, Keeps, Consistent, FlagsOk, Step, View, Exclusive, Tops, Unclaimed, KeepsData;
    ghost var t, s, h := vm.T(), vm.S(), vm.held;
    r := vm.Take(reserve);
    KeepsGivesData(h, t, s, vm.T(), vm.S());
    if r.Some? {
      TakeIsStep(t, h, r.value);
      StepSane(vm.pmm.layout, t, s, vm.T(), vm.S(), h, vm.held, Handles(vm.held));
    }
  }

  lemma TakeIsStep(t: Tree, held: multiset<Frame>, f: Frame)
    requires Unclaimed(t, held, f)
    ensures Step(MemoryOf(t, held), Handles(held + multiset{f}), MemoryOf(t, held + multiset{f}))
  {
    hide Flat;
    CountEmpty(Flat(t), f);
  }

  method GivePage(vm: Manager, f: Frame)
    requires Valid(vm) && f in vm.held
    modifies vm`held, vm.pmm, vm.pmm.used, vm.pmm.refs
    ensures Valid(vm) && View(Mem(vm)) == View(old(Mem(vm))) && Mem(vm).pages == old(Mem(vm)).pages
    ensures vm.held == old(vm.held) - multiset{f}
  {
    hide Flat, TreeOk, Acct, Keeps, Consistent, FlagsOk, Step, View, Exclusive, Tops, KeepsData;
    ghost var t, s, h := vm.T(), vm.S(), vm.held;
    vm.Free(f);
    GiveIsStep(t, h, f);
    StepSane(vm.pmm.layout, t, s, vm.T(), vm.S(), h, vm.held, Handles(vm.held));
  }

  lemma GiveIsStep(t: Tree, held: multiset<Frame>, f: Frame)
    ensures Step(MemoryOf(t, held), Handles(held - multiset{f}), MemoryOf(t, held - multiset{f}))
  {
    hide Flat;
  }

  /** process_fork's memory: a child space with the parent's contents, or no change. */
  method ForkSpace(vm: Manager, space: Frame, heapFull: bool) returns (r: Option<Frame>)
    requires Valid(vm) && Pos(space, 0, 0) in vm.roots && space != vm.kernel
    modifies vm, vm.pmm, vm.pmm.used, vm.pmm.refs
    ensures Valid(vm) && vm.held == old(vm.held)
    ensures r.None? ==> vm.roots == old(vm.roots) && vm.at == old(vm.at) && View(Mem(vm)) == View(old(Mem(vm)))
    ensures r.None? ==> SameSupply(old(vm.S()), vm.S())
    ensures r.None? ==> heapFull || ForkShort(old(vm.T()), old(vm.S()), space)
    ensures r.Some? ==> Pos(r.value, 0, 0) !in old(vm.at) && vm.roots == old(vm.roots) + {Pos(r.value, 0, 0)}
    ensures r.Some? ==> Step(old(Mem(vm)), Op.Fork(space, r.value), Mem(vm))
    ensures r.Some? ==> SharedBy(old(Mem(vm)).pages, Mem(vm).pages, space, r.value)
    ensures r.Some? ==> RightsStep(RightsOf(old(Mem(vm)).pages), Op.Fork(space, r.value), RightsOf(Mem(vm).pages))
    ensures r.None? ==> Mem(vm).pages == old(Mem(vm)).pages
  {
    hide SharedBy, RightsOf, RightsStep, Flat, TreeOk, Acct, Keeps, Consistent, FlagsOk, Step, View, Exclusive, Tops,
      Ent, KeepsData, Forked, ForkShort;
    ghost var t, s, h := vm.T(), vm.S(), vm.held;
    RootsAt(t);
    r := vm.CloneSpaceCow(space, heapFull);
    if r.None? {
      FlatSame(t, vm.T());
      IdleIsStep(h, t, vm.T());
      StepSane(vm.pmm.layout, t, s, vm.T(), vm.S(), h, h, Handles(h));
    } else {
      ForkIsStep(vm.pmm.layout, t, h, vm.T(), space, r.value);
      RightsRefine(MemoryOf(t, h), Op.Fork(space, r.value), Mem(vm));
    }
  }

  /** munmap's treatment of one page: unmap it and give its frame back (src/kernel/process.c:672-676). */
  method UnmapAndFree(vm: Manager, space: Frame, va: nat)
    requires Valid(vm) && Pos(space, 0, 0) in vm.roots
    requires Leaf(vm.T(), PageOf(space, va)).present ==> Leaf(vm.T(), PageOf(space, va)).user
    modifies vm, vm.pmm, vm.pmm.used, vm.pmm.refs
    ensures Valid(vm) && vm.roots == old(vm.roots) && vm.held == old(vm.held)
    ensures if UnmapAllowed(vm.kernel, space, va) then Step(old(Mem(vm)), Unmap(PageOf(space, va)), Mem(vm))
            else Mem(vm) == old(Mem(vm))
    ensures OnlyPage(old(vm.T()), vm.T(), PageOf(space, va))
    ensures UnmapAllowed(vm.kernel, space, va) && old(Leaf(vm.T(), PageOf(space, va))).present ==>
      Translate(vm.T(), PageOf(space, va)) == None
  {
    hide Flat, TreeOk, Acct, Keeps, Consistent, FlagsOk, Step, View, Exclusive, Tops, Ent, KeepsData, PageOf, Canonical,
      Leaf, Translate;
    ghost var t, s, h, q := vm.T(), vm.S(), vm.held, PageOf(space, va);
    var r := vm.UnmapPage(space, va);
    ghost var t1, s1 := vm.T(), vm.S();
    LeafIsEnt(t, q);
    PageAt(t, q);
    KeepsGivesData(h, t, s, t1, s1);
    assert r.Some? ==> h + multiset{r.value} - multiset{r.value} == h;
    if r.Some? {
      UnmapChangesOnePage(t, t1, q);
      vm.Free(r.value);
    }
    if UnmapAllowed(vm.kernel, space, va) {
      assert q !in Flat(t) ==> Flat(t) - {q} == Flat(t);
      UnmapIsStep(t, s, h, t1, s1, q);
      StepSane(vm.pmm.layout, t, s, vm.T(), vm.S(), h, h, Unmap(q));
    }
  }

  /** The end of a process: its whole space goes. */
  method DestroyUserSpace(vm: Manager, space: Frame)
    requires Valid(vm) && Pos(space, 0, 0) in vm.roots && space != vm.kernel
    modifies vm, vm.pmm, vm.pmm.used, vm.pmm.refs
    ensures Valid(vm) && vm.roots == old(vm.roots) - {Pos(space, 0, 0)} && vm.held == old(vm.held)
    ensures Step(old(Mem(vm)), Destroy(space), Mem(vm))
    ensures forall c | c in vm.at :: c.root != space
  {
    hide Flat, TreeOk, Acct, Keeps, Consistent, FlagsOk, Step, View, Exclusive, Tops, Ent, KeepsData, EntriesOk;
    ghost var t, s, h := vm.T(), vm.S(), vm.held;
    FlagsEntries(t);
    vm.DestroySpace(space);
    DestroyIsStep(t, h, vm.T(), space);
    DestroyedFlags(t, space);
    DestroyedGone(t, space);
    StepSane(vm.pmm.layout, t, s, vm.T(), vm.S(), h, h, Destroy(space));
  }

  lemma DestroyedGone(t: Tree, space: Frame)
    requires TreeOk(t) && Tops(t.roots)
    ensures forall c | c in Without(t, Pos(space, 0, 0)).at :: c.root != space
    ensures Tops(Without(t, Pos(space, 0, 0)).roots)
  {
    hide TreeOk;
    forall c | c in Without(t, Pos(space, 0, 0)).at ensures c.root != space {
      AllUnder(t, c);
    }
  }

  lemma DestroyedFlags(t: Tree, space: Frame)
    requires TreeOk(t) && Tops(t.roots) && FlagsOk(t)
    ensures FlagsOk(Without(t, Pos(space, 0, 0)))
  {
    hide TreeOk;
    var w := Without(t, Pos(space, 0, 0));
    forall c | Ent(w, c).present ensures EntryOk(w.kernel, c, Ent(w, c)) {
      RemovedEnt(t, w, c);
      hide Ent;
    }
    forall c | Ent(w, c).present && Ent(w, c).user ensures UserAbove(w, c) {
      DestroyedUserAbove(t, w, space, c);
    }
  }

  lemma DestroyedUserAbove(t: Tree, w: Tree, space: Frame, c: Pos)
    requires TreeOk(t) && Tops(t.roots) && FlagsOk(t) && w == Without(t, Pos(space, 0, 0))
    requires Ent(w, c).present && Ent(w, c).user
    ensures UserAbove(w, c)
  {
    hide TreeOk, EntryOk, Ent;
    RemovedEnt(t, w, c);
    if c.depth > 1 {
      RemovedEnt(t, w, Parent(c));
      assert UserAbove(t, c);
      assert Parent(c) in w.at;
      ParentKept(t, space, Parent(c));
    }
  }

  lemma ParentKept(t: Tree, space: Frame, c: Pos)
    requires TreeOk(t) && Tops(t.roots) && c in Without(t, Pos(space, 0, 0)).at && c.depth > 0
    ensures Parent(c) in Without(t, Pos(space, 0, 0)).at && c !in t.roots
  {
    hide TreeOk;
    ParentAt(t, c);
    if Under(Pos(space, 0, 0), Parent(c)) { UnderBelow(Pos(space, 0, 0), c); }
  }
}
