/** The kernel's memory from boot on: the state boot protection leaves starts the manager, and every
    run of requests to the memory manager stays in the states the other modules speak about and
    gives each space a private memory (src/kernel/kernel.c, src/mm). */
module Kernel {
  import opened Pmm
  import opened Paging
  import opened Accounts
  import opened Translation
  import opened Walks
  import opened Cow
  import opened Fork
  import opened Machine
  import opened Vmm
  import opened UserMemory
  import opened UserCopy
  import opened Boot
  import opened Elf

  // ---- boot ----

  /** What the loader promises: one tree of tables, none of them in memory it calls usable, and the
      bit that will mark copy-on-write pages clear. */
  ghost predicate LoaderTree(regions: seq<Area>, t: Tree) {
    BootTree(t) && NoCow(t) && forall p | p in t.at :: !PageUsable(regions, t.at[p])
  }

  /** The frames of a run. */
  function RunFrames(f: Frame, n: nat): multiset<Frame> {
    if n == 0 then multiset{} else RunFrames(f, n - 1) + multiset{f + n - 1}
  }

  lemma {:induction false} RunCounts(s: State, f: Frame, n: nat, h: Frame)
    requires f + n <= |s.used| == |s.refs| && n <= s.free
    ensures RunFrames(f, n)[h] == if f <= h < f + n then 1 else 0
    ensures Refs(TakenRun(s, f, n), h) == if f <= h < f + n then 1 else Refs(s, h)
  {
    if n > 0 {
      RunCounts(s, f, n - 1, h);
    }
  }

  /** The allocator's records agree with the loader's tables and the one run of frames taken so far. */
  lemma FirstCounts(regions: seq<Area>, g: Layout, s: State, t: Tree, f: Frame, n: nat)
    requires InitOk(regions, g, s.used) && Consistent(g, s) && LoaderTree(regions, t) && ClearRun(s.used, f, n)
    requires n <= s.free
    ensures BootSound(g, t, TakenRun(s, f, n), RunFrames(f, n))
  {
    hide BootTree, NoCow, ClearBits, TakenRun, RunFrames;
    TakenRunConsistent(g, s, f, n);
    forall h ensures g.Managed(h) ==> Refs(TakenRun(s, f, n), h) == TableUse(t, h) + RunFrames(f, n)[h]
      ensures h in RunFrames(f, n) ==> g.Managed(h) && Fresh(t, h) {
      RunCounts(s, f, n, h);
      assert g.Managed(h) ==> PageUsable(regions, h);
    }
  }

  /** Boot protection leaves no user page. */
  lemma NoUserPages(r: Ranges, t: Tree)
    requires forall c | Ent(t, c).present :: Guarded(r, t.kernel, c, Ent(t, c))
    ensures Flat(t) == map[]
  {
    hide Flat, Ent;
    forall c ensures c !in Flat(t) {
      PageAt(t, c);
    }
  }

  lemma StartSane(g: Layout, t: Tree, s: State, held: multiset<Frame>)
    requires BootTree(t) && Consistent(g, s) && FlagsOk(t) && Acct(g, t, s, held) && Flat(t) == map[]
    ensures Sane(g, t, s, held)
  {
    hide TreeOk, Acct, Consistent, FlagsOk, Flat;
  }

  /** pmm_init, the pages smp_init takes for the records of the processors, if any, and vmm_init: the
      manager starts in a valid state with no user page and no process. */
  method Start(regions: seq<Area>, cpuPages: nat, kernel: Frame, mem: map<Frame, Content>, ghost at: map<Pos, Frame>,
               r: Ranges)
    returns (vm: Option<Manager>, handles: multiset<Frame>)
    requires MapOk(regions) && LoaderTree(regions, Tree(kernel, mem, at, {Pos(kernel, 0, 0)}))
    ensures vm.Some? ==> fresh(vm.value) && fresh(vm.value.pmm) && fresh(vm.value.pmm.used) && fresh(vm.value.pmm.refs)
    ensures vm.Some? ==> Valid(vm.value) && WorldOf(vm.value) == World({}, map[], map[]) && vm.value.held == handles
    ensures vm.Some? ==> |handles| == cpuPages
    ensures vm.Some? ==> forall q: Pos | q.depth == 4 && q.root == kernel && InSpace(q) ::
      PageView(vm.value.T(), q) == GuardPage(r, q, PageView(Tree(kernel, mem, at, {Pos(kernel, 0, 0)}), q))
  {
    hide TreeOk, Ent, Flat, Acct, Consistent, FlagsOk, NoCow, TablesCounted, PageView, Guarded, GuardPage, InitOk,
      MapOk, SameTargets, View, LoaderTree, Sane, Spaces, RunFrames, TakenRun;
    handles := multiset{};
    var pmm := Init(regions);
    if pmm.None? {
      return None, handles;
    }
    ghost var s, t := pmm.value.S(), Tree(kernel, mem, at, {Pos(kernel, 0, 0)});
    var first := 0;
    if cpuPages > 0 {
      var block := pmm.value.AllocContiguous(cpuPages);
      if block.None? {
        return None, handles;
      }
      first := block.value;
    }
    handles := RunFrames(first, cpuPages);
    RunSize(first, cpuPages);
    NothingTaken(pmm.value.layout, s, first, cpuPages);
    FirstCounts(regions, pmm.value.layout, s, t, first, cpuPages);
    var pager := new Pager(pmm.value, kernel, mem, at, handles);
    var ok := pager.ProtectKernel(r);
    if !ok {
      return None, handles;
    }
    NoUserPages(r, pager.T());
    var manager := new Manager(pager.pmm, kernel, pager.mem, pager.at, handles);
    StartSane(pager.pmm.layout, pager.T(), pager.pmm.S(), handles);
    NothingYet(pager.T(), handles);
    return Some(manager), handles;
  }

  lemma NothingTaken(g: Layout, s: State, f: Frame, n: nat)
    requires Consistent(g, s)
    ensures |s.used| == |s.refs|
    ensures n == 0 ==> RunFrames(f, n) == multiset{}
    ensures n == 0 && f <= |s.used| ==> TakenRun(s, f, n) == s
  {
  }

  lemma {:induction false} RunSize(f: Frame, n: nat)
    ensures |RunFrames(f, n)| == n
  {
    if n > 0 {
      RunSize(f, n - 1);
    }
  }

  // ---- what programs can tell ----

  /** The live spaces, what each of them reads, and what it may do with it. */
  datatype World = World(spaces: set<Frame>, memory: Private, rights: Rights)

  ghost function Spaces(kernel: Frame, roots: set<Pos>): set<Frame> {
    set p | p in roots && p == Pos(p.root, 0, 0) && p.root != kernel :: p.root
  }

  lemma SpaceLive(kernel: Frame, roots: set<Pos>, space: Frame)
    ensures space in Spaces(kernel, roots) <==> Pos(space, 0, 0) in roots && space != kernel
  {
  }

  lemma SpaceAdded(t: Tree, roots': set<Pos>, space: Frame)
    requires TreeOk(t) && Pos(t.kernel, 0, 0) in t.roots && Pos(space, 0, 0) !in t.at
    requires roots' == t.roots + {Pos(space, 0, 0)}
    ensures space !in Spaces(t.kernel, t.roots) && Spaces(t.kernel, roots') == Spaces(t.kernel, t.roots) + {space}
  {
    hide Ent, Shape;
    forall s ensures s in Spaces(t.kernel, roots') <==> s in Spaces(t.kernel, t.roots) || s == space {
      SpaceLive(t.kernel, t.roots, s);
      SpaceLive(t.kernel, roots', s);
    }
    SpaceLive(t.kernel, t.roots, space);
  }

  lemma SpaceRemoved(kernel: Frame, roots: set<Pos>, space: Frame)
    ensures Spaces(kernel, roots - {Pos(space, 0, 0)}) == Spaces(kernel, roots) - {space}
  {
    forall s ensures s in Spaces(kernel, roots - {Pos(space, 0, 0)}) <==> s in Spaces(kernel, roots) && s != space {
      SpaceLive(kernel, roots, s);
      SpaceLive(kernel, roots - {Pos(space, 0, 0)}, s);
    }
  }

  lemma TopIsRoot(t: Tree, space: Frame)
    requires TreeOk(t) && Pos(space, 0, 0) in t.at
    ensures Pos(space, 0, 0) in t.roots
  {
    hide Ent, Shape;
  }

  /** Every page belongs to a live space. */
  lemma PagesLive(g: Layout, t: Tree, s: State, held: multiset<Frame>, q: Pos)
    requires Sane(g, t, s, held) && q in Flat(t)
    ensures q.root in Spaces(t.kernel, t.roots)
  {
    hide TreeOk, Ent, Acct, Consistent, Exclusive, Flat, Spaces, Tops, FlagsOk;
    PageAt(t, q);
    if q.root == t.kernel {
      KernelPage(t, q);
    }
    if Pos(q.root, 0, 0) in t.at {
      TopIsRoot(t, q.root);
    } else {
      NoPagesIn(t, q.root, Pos(0, 0, 0));
    }
    SpaceLive(t.kernel, t.roots, q.root);
  }

  lemma NothingYet(t: Tree, held: multiset<Frame>)
    requires BootTree(t) && Flat(t) == map[]
    ensures Spaces(t.kernel, t.roots) == {} && View(MemoryOf(t, held)) == map[] && RightsOf(Flat(t)) == map[]
  {
    hide TreeOk, Flat;
  }

  ghost function WorldOf(vm: Manager): World
    reads vm
  {
    World(Spaces(vm.kernel, vm.roots), View(Mem(vm)), RightsOf(Mem(vm).pages))
  }

  // ---- requests ----

  /** What reaches the memory manager: system calls and faults of processes, and the kernel's own use. */
  datatype Request =
    | Create(heapFull: bool)
    | Touch(space: Frame, va: nat, flags: Flags)  // a first access, which maps a zeroed page
    | Store(space: Frame, va: nat, value: byte)  // a store by the program
    | CopyOut(space: Frame, address: nat, bytes: seq<byte>)
    | Exec(space: Frame, image: seq<byte>, headerOk: bool, entry: nat, segments: seq<Segment>, limit: nat)
    | Clone(space: Frame, heapFull: bool)
    | Release(space: Frame, va: nat)
    | End(space: Frame)
    | MapKernel(va: nat, pa: nat, flags: Flags)
    | UnmapKernel(va: nat)
    | Take(reserve: nat)
    | Give(frame: Frame)

  /** The process a request acts for. */
  function Actor(req: Request): Option<Frame> {
    match req
    case Touch(s, _, _) => Some(s)
    case Store(s, _, _) => Some(s)
    case CopyOut(s, _, _) => Some(s)
    case Exec(s, _, _, _, _, _) => Some(s)
    case Clone(s, _) => Some(s)
    case Release(s, _) => Some(s)
    case End(s) => Some(s)
    case _ => None
  }

  /** The request may change what this space reads. */
  predicate Concerning(req: Request, space: Frame) { Actor(req) == Some(space) && !req.Clone? }

  ghost predicate Joins(w: World, w': World, child: Frame) {
    child !in w.spaces && w'.spaces == w.spaces + {child}
  }

  ghost predicate Copied(w: World, w': World, parent: Frame, child: Frame) {
    && parent in w.spaces && Joins(w, w', child) && PrivateStep(w.memory, Op.Fork(parent, child), w'.memory)
    && RightsStep(w.rights, Op.Fork(parent, child), w'.rights)
  }

  ghost predicate RightsElsewhere(a: Rights, a': Rights, space: Frame) {
    forall q: Pos | q.root != space :: (q in a' <==> q in a) && (q in a ==> a'[q] == a[q])
  }

  /** A zeroed page more, for the uses that were asked for. */
  ghost function Touched(w: World, space: Frame, va: nat, flags: Flags): World {
    var q := PageOf(space, va);
    w.(memory := w.memory[q := Zeros()], rights := w.rights[q := Right(flags.writable, !flags.nx)])
  }

  ghost function Released(w: World, q: Pos): World { w.(memory := w.memory - {q}, rights := w.rights - {q}) }

  ghost predicate CopiedOut(v: Private, v': Private, space: Frame, address: nat, bytes: seq<byte>) {
    exists n: nat | n <= |bytes| :: Written(v, v', space, address, bytes[..n])
  }

  /** What a request may do to private memories and rights; requests may fail for want of memory, but only as a whole,
      except that a copy may have stored a prefix. */
  ghost predicate Effect(w: World, req: Request, w': World) {
    match req
    case Create(_) =>
      w'.memory == w.memory && w'.rights == w.rights && (w' == w || exists child :: Joins(w, w', child))
    case Touch(space, va, flags) =>
      w' == w || (space in w.spaces && PageOf(space, va) !in w.memory && w' == Touched(w, space, va, flags))
    case Store(space, va, b) =>
      && w'.spaces == w.spaces && w'.rights == w.rights
      && (w' == w || (space in w.spaces && Written(w.memory, w'.memory, space, va, [b])))
    case CopyOut(space, address, bytes) =>
      && w'.spaces == w.spaces && w'.rights == w.rights
      && (w' == w || (space in w.spaces && CopiedOut(w.memory, w'.memory, space, address, bytes)))
    case Exec(space, _, _, _, _, _) =>
      && w'.spaces == w.spaces
      && (w' == w
          || (space in w.spaces && Elsewhere(w.memory, w'.memory, space)
              && RightsElsewhere(w.rights, w'.rights, space)))
    case Clone(space, _) => w' == w || exists child :: Copied(w, w', space, child)
    case Release(space, va) =>
      w' == if space in w.spaces && va < LOWER_END && va % PAGE_SIZE == 0 then Released(w, PageOf(space, va)) else w
    case End(space) =>
      && w'.spaces == w.spaces - {space} && PrivateStep(w.memory, Destroy(space), w'.memory)
      && RightsStep(w.rights, Destroy(space), w'.rights)
    case MapKernel(_, _, _) => w' == w
    case UnmapKernel(_) => w' == w
    case Take(_) => w' == w
    case Give(_) => w' == w
  }

  // ---- each request has its effect ----

  /** A step of the machine from a valid state is a step of private memories. */
  lemma Refined(g: Layout, t: Tree, s: State, held: multiset<Frame>, op: Op, m: Memory)
    requires Sane(g, t, s, held) && Step(MemoryOf(t, held), op, m)
    ensures PrivateStep(View(MemoryOf(t, held)), op, View(m)) && RightsStep(RightsOf(Flat(t)), op, RightsOf(m.pages))
  {
    hide Sane, Step, View, Flat, PrivateStep, RightsOf, RightsStep;
    GoodFromSane(g, t, s, held);
    StepRefines(MemoryOf(t, held), op, m);
  }

  lemma TouchEffect(w: World, w': World, m: Memory, m': Memory, space: Frame, va: nat, flags: Flags, e: Entry)
    requires w.memory == View(m) && w'.memory == View(m') && w'.spaces == w.spaces && space in w.spaces
    requires w.rights == RightsOf(m.pages) && w'.rights == RightsOf(m'.pages)
    requires Step(m, Op.Map(PageOf(space, va), e, Zeros()), m')
    requires PrivateStep(View(m), Op.Map(PageOf(space, va), e, Zeros()), View(m'))
    requires RightsStep(RightsOf(m.pages), Op.Map(PageOf(space, va), e, Zeros()), RightsOf(m'.pages))
    requires e == LeafEntry(e.frame, flags.(user := true, cow := false))
    ensures Effect(w, Touch(space, va, flags), w')
  {
    hide PageOf, Owners, AllKept, RightsOf;
  }

  method HandleTouch(vm: Manager, space: Frame, va: nat, flags: Flags)
    requires Valid(vm) && space in Spaces(vm.kernel, vm.roots)
    modifies vm, vm.pmm, vm.pmm.used, vm.pmm.refs
    ensures Valid(vm) && vm.roots == old(vm.roots) && vm.held == old(vm.held)
    ensures Effect(old(WorldOf(vm)), Touch(space, va, flags), WorldOf(vm))
  {
    hide Sane, Flat, View, PageOf, Step, PrivateStep, MapOutcome, MapAllowed, Spaces, Effect, RightsOf, RightsStep;
    ghost var t, s, w := vm.T(), vm.S(), WorldOf(vm);
    SpaceLive(vm.kernel, vm.roots, space);
    Unchanged(w, Touch(space, va, flags));
    var ok, entry := MapZeroed(vm, space, va, flags.(user := true, cow := false));
    if ok {
      Refined(vm.pmm.layout, t, s, vm.held, Op.Map(PageOf(space, va), entry, Zeros()), Mem(vm));
      TouchEffect(w, WorldOf(vm), MemoryOf(t, vm.held), Mem(vm), space, va, flags, entry);
    }
  }

  /** Requests that may be refused, or that programs never notice. */
  lemma Unchanged(w: World, req: Request)
    requires !req.Release? && !req.End?
    ensures Effect(w, req, w)
  {
    hide PageOf, Written, Elsewhere, PrivateStep, RightsStep, RightsElsewhere;
  }

  method HandleStore(vm: Manager, space: Frame, va: nat, b: byte)
    requires Valid(vm) && space in Spaces(vm.kernel, vm.roots)
    modifies vm, vm.pmm, vm.pmm.used, vm.pmm.refs
    ensures Valid(vm) && vm.roots == old(vm.roots) && vm.held == old(vm.held)
    ensures Effect(old(WorldOf(vm)), Store(space, va, b), WorldOf(vm))
  {
    hide Sane, Flat, View, PageOf, Written, MayWrite, Spaces, RightsOf;
    SpaceLive(vm.kernel, vm.roots, space);
    if va < LOWER_END {
      var ok := UserStore(vm, space, va, b);
    }
  }

  method HandleCopy(vm: Manager, space: Frame, address: nat, bytes: seq<byte>)
    requires Valid(vm) && space in Spaces(vm.kernel, vm.roots)
    modifies vm, vm.pmm, vm.pmm.used, vm.pmm.refs
    ensures Valid(vm) && vm.roots == old(vm.roots) && vm.held == old(vm.held)
    ensures Effect(old(WorldOf(vm)), CopyOut(space, address, bytes), WorldOf(vm))
  {
    hide Sane, Flat, View, PageOf, Written, MayWrite, Spaces, RangeValid, RightsOf;
    SpaceLive(vm.kernel, vm.roots, space);
    var ok, n := CopyToUser(vm, space, address, bytes);
  }

  lemma OtherRights(m: Memory, m': Memory, space: Frame)
    requires OtherPages(m, m', space)
    ensures RightsElsewhere(RightsOf(m.pages), RightsOf(m'.pages), space)
  {
    hide RightsOf;
  }

  method HandleExec(vm: Manager, space: Frame, image: seq<byte>, headerOk: bool, entry: nat, segments: seq<Segment>,
                    limit: nat)
    requires Valid(vm) && space in Spaces(vm.kernel, vm.roots)
    modifies vm, vm.pmm, vm.pmm.used, vm.pmm.refs
    ensures Valid(vm) && vm.roots == old(vm.roots) && vm.held == old(vm.held)
    ensures Effect(old(WorldOf(vm)), Exec(space, image, headerOk, entry, segments, limit), WorldOf(vm))
  {
    hide Sane, Flat, View, Elsewhere, Spaces, LoadedUpTo, Loadable, AllUsable, Runs, OtherPages, RightsOf,
      RightsElsewhere;
    SpaceLive(vm.kernel, vm.roots, space);
    ghost var m := Mem(vm);
    var r, end, pages := Load(vm, space, image, headerOk, entry, segments, limit);
    OtherRights(m, Mem(vm), space);
  }

  lemma JoinEffect(w: World, w': World, child: Frame, heapFull: bool)
    requires Joins(w, w', child) && w'.memory == w.memory && w'.rights == w.rights
    ensures Effect(w, Create(heapFull), w')
  {
  }

  method HandleCreate(vm: Manager, heapFull: bool) returns (r: Option<Frame>)
    requires Valid(vm)
    modifies vm, vm.pmm, vm.pmm.used, vm.pmm.refs
    ensures Valid(vm) && vm.held == old(vm.held)
    ensures Effect(old(WorldOf(vm)), Create(heapFull), WorldOf(vm))
    ensures Spaces(vm.kernel, vm.roots) == if r.None? then old(Spaces(vm.kernel, vm.roots))
      else old(Spaces(vm.kernel, vm.roots)) + {r.value}
  {
    hide Sane, Flat, View, Spaces, Effect, SameSupply, TreeOk, Acct, Consistent, FlagsOk, Tops;
    ghost var t, w := vm.T(), WorldOf(vm);
    ValidParts(vm.pmm.layout, t, vm.S(), vm.held);
    r := NewSpace(vm, heapFull);
    Unchanged(w, Create(heapFull));
    if r.Some? {
      SpaceAdded(t, vm.roots, r.value);
      JoinEffect(w, WorldOf(vm), r.value, heapFull);
    }
  }

  lemma CloneEffect(w: World, w': World, parent: Frame, child: Frame, heapFull: bool)
    requires Copied(w, w', parent, child)
    ensures Effect(w, Clone(parent, heapFull), w')
  {
    hide PrivateStep, RightsStep;
  }

  method HandleClone(vm: Manager, space: Frame, heapFull: bool) returns (r: Option<Frame>)
    requires Valid(vm) && space in Spaces(vm.kernel, vm.roots)
    modifies vm, vm.pmm, vm.pmm.used, vm.pmm.refs
    ensures Valid(vm) && vm.held == old(vm.held)
    ensures Effect(old(WorldOf(vm)), Clone(space, heapFull), WorldOf(vm))
    ensures Spaces(vm.kernel, vm.roots) == if r.None? then old(Spaces(vm.kernel, vm.roots))
      else old(Spaces(vm.kernel, vm.roots)) + {r.value}
  {
    hide Sane, Flat, View, Spaces, Effect, SameSupply, TreeOk, Acct, Consistent, FlagsOk, Tops, Step, PrivateStep,
      RightsOf, RightsStep, SharedBy;
    ghost var t, s, w := vm.T(), vm.S(), WorldOf(vm);
    ValidParts(vm.pmm.layout, t, s, vm.held);
    SpaceLive(vm.kernel, vm.roots, space);
    r := ForkSpace(vm, space, heapFull);
    Unchanged(w, Clone(space, heapFull));
    if r.Some? {
      SpaceAdded(t, vm.roots, r.value);
      Refined(vm.pmm.layout, t, s, vm.held, Op.Fork(space, r.value), Mem(vm));
      CloneEffect(w, WorldOf(vm), space, r.value, heapFull);
    }
  }

  lemma ReleaseEffect(w: World, w': World, space: Frame, va: nat)
    requires w'.spaces == w.spaces && space in w.spaces
    requires va < LOWER_END && va % PAGE_SIZE == 0 ==>
      var op := Unmap(PageOf(space, va)); PrivateStep(w.memory, op, w'.memory) && RightsStep(w.rights, op, w'.rights)
    requires !(va < LOWER_END && va % PAGE_SIZE == 0) ==> w' == w
    ensures Effect(w, Release(space, va), w')
  {
    hide PageOf;
  }

  lemma NotThere(v: Private, a: Rights, q: Pos)
    requires q !in v && q !in a
    ensures PrivateStep(v, Unmap(q), v) && RightsStep(a, Unmap(q), a)
  {
    assert v - {q} == v && a - {q} == a;
  }

  lemma UserLeaf(t: Tree, q: Pos)
    requires q in Flat(t)
    ensures Leaf(t, q).present && Leaf(t, q).user
  {
    hide Flat, Ent;
    PageAt(t, q);
    LeafIsEnt(t, q);
  }

  lemma LowerAllowed(kernel: Frame, space: Frame, va: nat)
    requires va < LOWER_END && va % PAGE_SIZE == 0
    ensures UnmapAllowed(kernel, space, va)
  {
    CanonicalLower(va);
  }

  /** A program gives back one of its pages, as munmap and a shrinking break do. */
  method HandleRelease(vm: Manager, space: Frame, va: nat)
    requires Valid(vm) && space in Spaces(vm.kernel, vm.roots)
    modifies vm, vm.pmm, vm.pmm.used, vm.pmm.refs
    ensures Valid(vm) && vm.roots == old(vm.roots) && vm.held == old(vm.held)
    ensures Effect(old(WorldOf(vm)), Release(space, va), WorldOf(vm))
  {
    hide Sane, Flat, View, PageOf, Step, PrivateStep, Leaf, Translate, OnlyPage, Spaces, Effect, UnmapAllowed, RightsOf,
      RightsStep;
    ghost var t, s, w, q := vm.T(), vm.S(), WorldOf(vm), PageOf(space, va);
    SpaceLive(vm.kernel, vm.roots, space);
    if va < LOWER_END && va % PAGE_SIZE == 0 {
      var m, physical := QueryUser(vm, space, va);
      if m.Some? && m.value.user {
        UserLeaf(t, q);
        LowerAllowed(vm.kernel, space, va);
        UnmapAndFree(vm, space, va);
        Refined(vm.pmm.layout, t, s, vm.held, Unmap(q), Mem(vm));
      } else {
        NotThere(w.memory, w.rights, q);
      }
    }
    ReleaseEffect(w, WorldOf(vm), space, va);
  }

  lemma EndEffect(w: World, w': World, space: Frame)
    requires w'.spaces == w.spaces - {space} && PrivateStep(w.memory, Destroy(space), w'.memory)
    requires RightsStep(w.rights, Destroy(space), w'.rights)
    ensures Effect(w, End(space), w')
  {
  }

  method HandleEnd(vm: Manager, space: Frame)
    requires Valid(vm) && space in Spaces(vm.kernel, vm.roots)
    modifies vm, vm.pmm, vm.pmm.used, vm.pmm.refs
    ensures Valid(vm) && vm.held == old(vm.held)
    ensures Effect(old(WorldOf(vm)), End(space), WorldOf(vm))
    ensures Spaces(vm.kernel, vm.roots) == old(Spaces(vm.kernel, vm.roots)) - {space}
  {
    hide Sane, Flat, View, Step, PrivateStep, Spaces, Effect, RightsOf, RightsStep;
    ghost var t, s, w := vm.T(), vm.S(), WorldOf(vm);
    SpaceLive(vm.kernel, vm.roots, space);
    SpaceRemoved(vm.kernel, vm.roots, space);
    DestroyUserSpace(vm, space);
    Refined(vm.pmm.layout, t, s, vm.held, Destroy(space), Mem(vm));
    EndEffect(w, WorldOf(vm), space);
  }

  /** A space that is not live has no pages. */
  lemma NothingIn(g: Layout, t: Tree, s: State, held: multiset<Frame>, space: Frame)
    requires Sane(g, t, s, held) && space !in Spaces(t.kernel, t.roots)
    ensures PrivateStep(View(MemoryOf(t, held)), Destroy(space), View(MemoryOf(t, held)))
    ensures RightsStep(RightsOf(Flat(t)), Destroy(space), RightsOf(Flat(t)))
  {
    hide Sane, Flat, Spaces;
    forall q | q in Flat(t) ensures q.root != space {
      PagesLive(g, t, s, held, q);
    }
  }

  /** What a request for a space that is not live does. */
  lemma Refused(g: Layout, t: Tree, s: State, held: multiset<Frame>, req: Request)
    requires Sane(g, t, s, held)
    requires req.Release? || req.End? ==> req.space !in Spaces(t.kernel, t.roots)
    ensures var w := World(Spaces(t.kernel, t.roots), View(MemoryOf(t, held)), RightsOf(Flat(t))); Effect(w, req, w)
  {
    hide Sane, Flat, Spaces, View, PrivateStep, Elsewhere, Written, PageOf, RightsOf, RightsStep, RightsElsewhere;
    if req.End? {
      NothingIn(g, t, s, held, req.space);
    }
  }

  /** One request of a live process. */
  method HandleUser(vm: Manager, live: set<Frame>, req: Request) returns (live': set<Frame>)
    requires Valid(vm) && live == Spaces(vm.kernel, vm.roots) && Actor(req).Some? && Actor(req).value in live
    modifies vm, vm.pmm, vm.pmm.used, vm.pmm.refs
    ensures Valid(vm) && live' == Spaces(vm.kernel, vm.roots) && vm.held == old(vm.held)
    ensures Effect(old(WorldOf(vm)), req, WorldOf(vm))
  {
    hide Sane, Flat, View, Spaces, Effect;
    live' := live;
    match req
    case Touch(space, va, flags) =>
      HandleTouch(vm, space, va, flags);
    case Store(space, va, b) =>
      HandleStore(vm, space, va, b);
    case CopyOut(space, address, bytes) =>
      HandleCopy(vm, space, address, bytes);
    case Exec(space, image, headerOk, entry, segments, limit) =>
      HandleExec(vm, space, image, headerOk, entry, segments, limit);
    case Clone(space, heapFull) =>
      var r := HandleClone(vm, space, heapFull);
      live' := if r.Some? then live + {r.value} else live;
    case Release(space, va) =>
      HandleRelease(vm, space, va);
    case End(space) =>
      HandleEnd(vm, space);
      live' := live - {space};
  }

  /** One request; processes that are not live, and frames that are not held, are refused. */
  method Handle(vm: Manager, live: set<Frame>, handles: multiset<Frame>, req: Request)
    returns (live': set<Frame>, handles': multiset<Frame>)
    requires Valid(vm) && live == Spaces(vm.kernel, vm.roots) && handles == vm.held
    modifies vm, vm.pmm, vm.pmm.used, vm.pmm.refs
    ensures Valid(vm) && live' == Spaces(vm.kernel, vm.roots) && handles' == vm.held
    ensures Effect(old(WorldOf(vm)), req, WorldOf(vm))
  {
    hide Sane, Flat, View, Spaces, Effect, OnlyPage, Leaf, Translation.Mapped, SameSupply, PageOf;
    live', handles' := live, handles;
    if Actor(req).None? || Actor(req).value !in live {
      Refused(vm.pmm.layout, vm.T(), vm.S(), vm.held, req);
    }
    if Actor(req).Some? {
      if Actor(req).value in live {
        live' := HandleUser(vm, live, req);
      }
      return;
    }
    match req
    case Create(heapFull) =>
      var r := HandleCreate(vm, heapFull);
      live' := if r.Some? then live + {r.value} else live;
    case MapKernel(va, pa, flags) =>
      var ok := KernelMap(vm, va, pa, flags.(user := false, cow := false));
    case UnmapKernel(va) =>
      var r := KernelUnmap(vm, va);
    case Take(reserve) =>
      var r := TakePage(vm, reserve);
      handles' := if r.Some? then handles + multiset{r.value} else handles;
    case Give(f) =>
      if f in handles {
        GivePage(vm, f);
        handles' := handles - multiset{f};
      }
  }

  // ---- whole runs ----

  /** The whole state: tables and memory, the allocator's records, and the handles of kernel code. */
  datatype Snapshot = Snapshot(tree: Tree, state: State, held: multiset<Frame>)

  ghost function Taken(vm: Manager): Snapshot
    reads vm, vm.pmm, vm.pmm.used, vm.pmm.refs
  {
    Snapshot(vm.T(), vm.S(), vm.held)
  }

  ghost function WorldAt(x: Snapshot): World {
    World(Spaces(x.tree.kernel, x.tree.roots), View(MemoryOf(x.tree, x.held)), RightsOf(Flat(x.tree)))
  }

  /** No page is both writable and executable, copy-on-write pages are neither, and the kernel's
      space has no page that programs may use. */
  ghost predicate Protected(t: Tree) {
    forall q: Pos | q.depth == 4 && Translate(t, q).Some? :: PageProtected(t.kernel, q, Translate(t, q).value)
  }

  predicate PageProtected(kernel: Frame, q: Pos, m: Mapping) {
    !(m.writable && !m.nx) && (m.cow ==> m.nx && !m.writable && m.user) && (q.root == kernel ==> !m.user)
  }

  ghost predicate Orderly(g: Layout, x: Snapshot) {
    Exact(g, x.tree, x.state, x.held) && Protected(x.tree)
  }

  ghost predicate OrderlyRun(g: Layout, run: seq<Snapshot>) { forall i | 0 <= i < |run| :: Orderly(g, run[i]) }

  ghost predicate Served(run: seq<Snapshot>, requests: seq<Request>) {
    |run| == |requests| + 1 && forall i | 0 <= i < |requests| ::
      Effect(WorldAt(run[i]), requests[i], WorldAt(run[i + 1]))
  }

  lemma OrderlyNow(g: Layout, t: Tree, s: State, held: multiset<Frame>)
    requires Sane(g, t, s, held)
    ensures Orderly(g, Snapshot(t, s, held))
  {
    hide Sane, Exact, Translate, FlagsOk, TreeOk, Acct, Consistent, Tops;
    OwnershipExact(g, t, s, held);
    ValidParts(g, t, s, held);
    forall q: Pos | q.depth == 4 && Translate(t, q).Some? ensures PageProtected(t.kernel, q, Translate(t, q).value) {
      WriteXorExecute(t, q);
    }
  }

  lemma ServedMore(g: Layout, run: seq<Snapshot>, requests: seq<Request>, n: nat, x: Snapshot)
    requires n < |requests| && Served(run, requests[..n]) && OrderlyRun(g, run) && Orderly(g, x)
    requires Effect(WorldAt(run[n]), requests[n], WorldAt(x))
    ensures Served(run + [x], requests[..n + 1]) && OrderlyRun(g, run + [x])
  {
    hide Effect, Orderly, WorldAt;
    var run', done := run + [x], requests[..n + 1];
    forall i | 0 <= i < |done| ensures Effect(WorldAt(run'[i]), done[i], WorldAt(run'[i + 1])) {
      if i < n {
        assert run'[i] == run[i] && run'[i + 1] == run[i + 1] && done[i] == requests[..n][i];
      }
    }
    forall i | 0 <= i < |run'| ensures Orderly(g, run'[i]) {
      assert i < |run| ==> run'[i] == run[i];
    }
  }

  /** Every run of requests: in every state ownership is exact and no page can be both written and
      executed, and each request has its effect on private memories and rights and no other. */
  method Serve(vm: Manager, held: multiset<Frame>, requests: seq<Request>) returns (ghost run: seq<Snapshot>)
    requires Valid(vm) && Spaces(vm.kernel, vm.roots) == {} && vm.held == held
    modifies vm, vm.pmm, vm.pmm.used, vm.pmm.refs
    ensures Valid(vm) && Served(run, requests) && OrderlyRun(vm.pmm.layout, run)
    ensures run[0] == old(Taken(vm)) && run[|requests|] == Taken(vm)
  {
    hide Sane, Flat, View, Spaces, Effect, Exact, Protected, Served, OrderlyRun, WorldAt;
    var live, handles := {}, held;
    var i := 0;
    ghost var g := vm.pmm.layout;
    run := [Taken(vm)];
    OrderlyNow(g, vm.T(), vm.S(), vm.held);
    ServedNone(g, run[0]);
    assert requests[..0] == [];
    while i < |requests|
      invariant 0 <= i <= |requests| && |run| == i + 1 && run[0] == old(Taken(vm)) && run[i] == Taken(vm)
      invariant Valid(vm) && live == Spaces(vm.kernel, vm.roots) && handles == vm.held
      invariant Served(run, requests[..i]) && OrderlyRun(g, run)
    {
      WorldIs(vm.T(), vm.S(), vm.held);
      live, handles := Handle(vm, live, handles, requests[i]);
      WorldIs(vm.T(), vm.S(), vm.held);
      OrderlyNow(g, vm.T(), vm.S(), vm.held);
      ServedMore(g, run, requests, i, Taken(vm));
      run := run + [Taken(vm)];
      i := i + 1;
    }
    assert requests[..i] == requests;
  }

  lemma ServedNone(g: Layout, x: Snapshot)
    requires Orderly(g, x)
    ensures Served([x], []) && OrderlyRun(g, [x])
  {
    hide Orderly;
  }

  lemma WorldIs(t: Tree, s: State, held: multiset<Frame>)
    ensures WorldAt(Snapshot(t, s, held))
      == World(Spaces(t.kernel, t.roots), View(MemoryOf(t, held)), RightsOf(Flat(t)))
  {
  }

  /** From power-on: every state that boot and any requests after it lead to is orderly, and programs
      see private memories that start out empty. */
  method Lifetime(regions: seq<Area>, cpuPages: nat, kernel: Frame, mem: map<Frame, Content>, ghost at: map<Pos, Frame>,
                  r: Ranges,
                  requests: seq<Request>)
    returns (vm: Option<Manager>, ghost run: seq<Snapshot>)
    requires MapOk(regions) && LoaderTree(regions, Tree(kernel, mem, at, {Pos(kernel, 0, 0)}))
    ensures vm.Some? ==> Valid(vm.value) && Served(run, requests) && OrderlyRun(vm.value.pmm.layout, run)
    ensures vm.Some? ==> WorldAt(run[0]) == World({}, map[], map[]) && run[|requests|] == Taken(vm.value)
  {
    hide Sane, Flat, View, Spaces, Effect, Served, OrderlyRun, LoaderTree, MapOk, PageView, GuardPage, WorldAt;
    var handles;
    vm, handles := Start(regions, cpuPages, kernel, mem, at, r);
    run := [];
    if vm.Some? {
      WorldIs(vm.value.T(), vm.value.S(), vm.value.held);
      run := Serve(vm.value, handles, requests);
    }
  }

  // ---- isolation ----

  ghost predicate SameBytes(v: Private, v': Private, space: Frame) {
    forall va: nat | va < LOWER_END :: ByteAt(v', space, va) == ByteAt(v, space, va)
  }

  ghost predicate SameUses(a: Rights, a': Rights, space: Frame) {
    forall q: Pos | q.root == space :: (q in a' <==> q in a) && (q in a ==> a'[q] == a[q])
  }

  /** A request for another space leaves this one alive, and its bytes and rights alone. */
  lemma EffectApart(w: World, req: Request, w': World, space: Frame)
    requires Effect(w, req, w') && space in w.spaces && !Concerning(req, space)
    ensures space in w'.spaces && SameBytes(w.memory, w'.memory, space) && SameUses(w.rights, w'.rights, space)
  {
    hide Written;
    forall q: Pos | q.root == space
      ensures (q in w'.rights <==> q in w.rights) && (q in w.rights ==> w'.rights[q] == w.rights[q]) {
      if req.Clone? && w' != w {
        var child :| Copied(w, w', req.space, child);
        assert RightsFork(w.rights, w'.rights, req.space, child, q);
      }
    }
    forall va: nat | va < LOWER_END ensures ByteAt(w'.memory, space, va) == ByteAt(w.memory, space, va) {
      var q := PageOf(space, va);
      match req
      case Store(s, a, b) =>
        if w' != w {
          WrittenElsewhere(w.memory, w'.memory, s, a, [b], space, va);
        }
      case CopyOut(s, a, bytes) =>
        if w' != w {
          var n: nat :| n <= |bytes| && Written(w.memory, w'.memory, s, a, bytes[..n]);
          WrittenElsewhere(w.memory, w'.memory, s, a, bytes[..n], space, va);
        }
      case Clone(s, _) =>
        if w' != w {
          var child :| Copied(w, w', s, child);
          assert PrivateFork(w.memory, w'.memory, s, child, q);
        }
      case _ =>
    }
  }

  lemma WrittenElsewhere(v: Private, v': Private, s: Frame, address: nat, bytes: seq<byte>, space: Frame, va: nat)
    requires Written(v, v', s, address, bytes) && va < LOWER_END && space != s
    ensures ByteAt(v', space, va) == ByteAt(v, space, va)
  {
    hide PageOf;
  }

  /** Isolation over every run: what a live space reads, and what it may do with it, changes only by
      requests of its own. */
  lemma {:induction false} Apart(run: seq<Snapshot>, requests: seq<Request>, space: Frame, n: nat)
    requires Served(run, requests) && n <= |requests| && space in WorldAt(run[0]).spaces
    requires forall i | 0 <= i < n :: !Concerning(requests[i], space)
    ensures space in WorldAt(run[n]).spaces && SameBytes(WorldAt(run[0]).memory, WorldAt(run[n]).memory, space)
    ensures SameUses(WorldAt(run[0]).rights, WorldAt(run[n]).rights, space)
  {
    hide Effect, WorldAt, ByteAt, Concerning;
    if n > 0 {
      Apart(run, requests, space, n - 1);
      EffectApart(WorldAt(run[n - 1]), requests[n - 1], WorldAt(run[n - 1 + 1]), space);
    }
  }
}
