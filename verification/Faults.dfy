/** Page faults of programs: the region table decides what may be mapped, the manager maps it
    (src/kernel/process.c:473-524). */
module Faults {
  import opened Pmm
  import opened Paging
  import opened Accounts
  import opened Translation
  import opened Walks
  import opened Machine
  import opened Vmm
  import opened UserMemory
  import opened UserCopy
  import Regions

  /** The bits of the error code that the handler reads. */
  datatype Access = Access(present: bool, write: bool, user: bool, reserved: bool, exec: bool)

  function PageStart(address: nat): (a: nat)
    ensures a % PAGE_SIZE == 0 && a <= address < a + PAGE_SIZE
  {
    address / PAGE_SIZE * PAGE_SIZE
  }

  /** The flags of a page that a region or the heap asks for. */
  function FlagsFor(p: Regions.Protection): Flags {
    Flags(p.write, true, false, false, false, !p.exec)
  }

  /** What the heap or a region permits at an address. */
  ghost function Permitted(p: Regions.Process, address: nat): Option<Regions.Protection>
    reads p, p.mappings
  {
    if p.heapBase <= address < p.programBreak then Some(Regions.HEAP_PROTECTION)
    else Regions.Access(p.mappings[..], address)
  }

  predicate Suffices(p: Regions.Protection, a: Access) { p.read && (a.write ==> p.write) && (a.exec ==> p.exec) }

  /** The process's record of resident pages is what the tables translate. */
  ghost predicate Backed(resident: set<nat>, t: Tree, space: Frame) {
    forall a: nat | a % PAGE_SIZE == 0 && a < LOWER_END :: a in resident <==> Translate(t, PageOf(space, a)).Some?
  }

  lemma BackedStill(resident: set<nat>, t: Tree, t': Tree, space: Frame, q: Pos)
    requires Backed(resident, t, space) && q.depth == 4 && OnlyPage(t, t', q)
    requires Translate(t', q).Some? <==> Translate(t, q).Some?
    ensures Backed(resident, t', space)
  {
    hide Translate, PageOf;
  }

  lemma BackedMore(resident: set<nat>, t: Tree, t': Tree, space: Frame, page: nat)
    requires Backed(resident, t, space) && page % PAGE_SIZE == 0 && page < LOWER_END
    requires OnlyPage(t, t', PageOf(space, page)) && Translate(t', PageOf(space, page)).Some?
    ensures Backed(resident + {page}, t', space)
  {
    hide Translate, PageOf;
    forall a: nat | a % PAGE_SIZE == 0 && a < LOWER_END
      ensures a in resident + {page} <==> Translate(t', PageOf(space, a)).Some? {
      PageOfLower(space, a, space, page);
    }
  }

  /** A fault that the handler turns down: not the program's, fatal, not a copy-on-write page, not
      permitted, or on a page that is there already. */
  ghost predicate NotHandled(p: Regions.Process, m: Memory, t: Tree, space: Frame, address: nat, a: Access)
    reads p, p.mappings
  {
    || !a.user || a.reserved
    || (a.present && !(a.write && PageOf(space, address) in m.pages && m.pages[PageOf(space, address)].cow))
    || (!a.present && (
        var r := Permitted(p, address);
        r.None? || !Suffices(r.value, a) || Translate(t, PageOf(space, address)).Some?))
  }

  lemma SamePageOf(space: Frame, address: nat)
    ensures PageOf(space, PageStart(address)) == PageOf(space, address)
  {
  }

  /** The page is a program's, to be used as `p` says. */
  ghost predicate MappedFor(t: Tree, q: Pos, p: Regions.Protection)
    requires q.depth == 4
  {
    && Translate(t, q).Some? && var m := Translate(t, q).value;
    m.user && !m.cow && m.writable == p.write && m.nx == !p.exec
  }

  /** The access that faulted may now be repeated. */
  ghost predicate Allowed(t: Tree, q: Pos, a: Access)
    requires q.depth == 4
  {
    && Translate(t, q).Some? && var m := Translate(t, q).value;
    m.user && (a.write ==> m.writable) && (a.exec && !a.present ==> !m.nx)
  }

  lemma ResolvedThere(t: Tree, t': Tree, held: multiset<Frame>, q: Pos)
    requires q.depth == 4 && Step(MemoryOf(t, held), Resolve(q), MemoryOf(t', held))
    ensures Translate(t, q).Some? && Translate(t', q).Some?
    ensures Translate(t', q).value.user && Translate(t', q).value.writable
  {
    hide Flat, Owners, Translate;
    UserMiss(t, q);
    UserMiss(t', q);
  }

  lemma MappedThere(t: Tree, t': Tree, held: multiset<Frame>, q: Pos, e: Entry, p: Regions.Protection)
    requires q.depth == 4 && Step(MemoryOf(t, held), Op.Map(q, e, Zeros()), MemoryOf(t', held))
    requires e == LeafEntry(e.frame, FlagsFor(p))
    ensures MappedFor(t', q, p)
  {
    hide Flat, Owners, Translate;
    UserMiss(t', q);
  }

  /** The handler's answer to a write to a page that is there. */
  method CowFault(vm: Manager, space: Frame, address: nat, ghost resident: set<nat>) returns (r: int)
    requires Valid(vm) && Pos(space, 0, 0) in vm.roots && address < LOWER_END && Backed(resident, vm.T(), space)
    modifies vm, vm.pmm, vm.pmm.used, vm.pmm.refs
    ensures Valid(vm) && vm.roots == old(vm.roots) && vm.held == old(vm.held) && Backed(resident, vm.T(), space)
    ensures r == 0 <==>
      !(PageOf(space, address) in old(Mem(vm)).pages && old(Mem(vm)).pages[PageOf(space, address)].cow)
    ensures r < 0 ==> vm.pmm.freePages <= KERNEL_RESERVE_PAGES
    ensures r <= 0 ==> Mem(vm) == old(Mem(vm))
    ensures r > 0 ==> Step(old(Mem(vm)), Resolve(PageOf(space, address)), Mem(vm))
    ensures r > 0 ==> Translate(vm.T(), PageOf(space, address)).Some?
    ensures r > 0 ==> var m := Translate(vm.T(), PageOf(space, address)).value; m.user && m.writable
  {
    hide Sane, Flat, View, PageOf, Step, Translate, OnlyPage, Backed, Canonical;
    ghost var t, q := vm.T(), PageOf(space, address);
    CanonicalLower(address);
    r := ResolvePage(vm, space, address);
    if r > 0 {
      ResolvedThere(t, vm.T(), vm.held, q);
      BackedStill(resident, t, vm.T(), space, q);
    }
  }

  /** Protections never permit both writing and executing, so their flags may be mapped. */
  lemma FlagsAllowed(kernel: Frame, space: Frame, page: nat, p: Regions.Protection)
    requires page % PAGE_SIZE == 0 && page < LOWER_END && space != kernel && !(p.write && p.exec)
    ensures MapAllowed(kernel, space, page, 0, FlagsFor(p))
  {
    CanonicalLower(page);
  }

  /** The handler's answer to an access to a page that is not there, once it is permitted. */
  method FirstAccess(vm: Manager, space: Frame, page: nat, p: Regions.Protection, ghost resident: set<nat>)
    returns (r: int, ghost entry: Entry)
    requires Valid(vm) && Pos(space, 0, 0) in vm.roots && space != vm.kernel && page < LOWER_END
    requires page % PAGE_SIZE == 0
    requires !(p.write && p.exec) && Backed(resident, vm.T(), space)
    modifies vm, vm.pmm, vm.pmm.used, vm.pmm.refs
    ensures Valid(vm) && vm.roots == old(vm.roots) && vm.held == old(vm.held)
    ensures Backed(if r > 0 then resident + {page} else resident, vm.T(), space)
    ensures r == 0 <==> old(Translate(vm.T(), PageOf(space, page))).Some?
    ensures r < 0 ==> vm.pmm.freePages <= KERNEL_RESERVE_PAGES
    ensures r <= 0 ==> View(Mem(vm)) == View(old(Mem(vm))) && Mem(vm).pages == old(Mem(vm)).pages
    ensures r > 0 ==> Step(old(Mem(vm)), Op.Map(PageOf(space, page), entry, Zeros()), Mem(vm))
    ensures r > 0 ==> entry == LeafEntry(entry.frame, FlagsFor(p)) && MappedFor(vm.T(), PageOf(space, page), p)
  {
    hide Sane, Flat, View, PageOf, Step, Translate, OnlyPage, Backed, Canonical, MapAllowed, TreeOk, Acct, Consistent,
      FlagsOk, Tops;
    ghost var t, q := vm.T(), PageOf(space, page);
    entry := ABSENT;
    ValidParts(vm.pmm.layout, t, vm.S(), vm.held);
    CanonicalLower(page);
    FlagsAllowed(vm.kernel, space, page, p);
    var m, physical := vm.Query(space, page);
    if m.Some? {
      return 0, entry;
    }
    var ok;
    ok, entry := MapZeroed(vm, space, page, FlagsFor(p));
    if !ok {
      BackedStill(resident, t, vm.T(), space, q);
      return -1, entry;
    }
    MappedThere(t, vm.T(), vm.held, q, entry, p);
    BackedMore(resident, t, vm.T(), space, page);
    return 1, entry;
  }

  lemma ResidentAligned(p: Regions.Process, page: nat)
    requires p.Valid() && page % PAGE_SIZE == 0
    ensures forall a | a in p.resident + {page} :: Regions.Aligned(a)
  {
    hide Regions.Total, Regions.RegionsOk;
  }

  /** process_handle_page_fault: 1 if the page is now there and the access may be repeated, 0 if the
      fault is not for the handler, -1 if memory ran out. */
  method PageFault(p: Regions.Process, vm: Manager, space: Frame, address: nat, a: Access)
    returns (r: int, ghost entry: Entry)
    requires p.Valid() && Valid(vm) && Pos(space, 0, 0) in vm.roots && space != vm.kernel && address < LOWER_END
    requires Backed(p.resident, vm.T(), space)
    modifies p`resident, vm, vm.pmm, vm.pmm.used, vm.pmm.refs
    ensures p.Valid() && Valid(vm) && vm.roots == old(vm.roots) && vm.held == old(vm.held)
    ensures Backed(p.resident, vm.T(), space)
    ensures r == 0 <==> old(NotHandled(p, Mem(vm), vm.T(), space, address, a))
    ensures r < 0 ==> vm.pmm.freePages <= KERNEL_RESERVE_PAGES
    ensures r <= 0 ==> View(Mem(vm)) == View(old(Mem(vm))) && Mem(vm).pages == old(Mem(vm)).pages
    ensures r > 0 && a.present ==> Step(old(Mem(vm)), Resolve(PageOf(space, address)), Mem(vm))
    ensures r > 0 && !a.present ==> Step(old(Mem(vm)), Op.Map(PageOf(space, address), entry, Zeros()), Mem(vm))
    ensures r > 0 && !a.present ==> Permitted(p, address).Some?
    ensures r > 0 && !a.present ==> entry == LeafEntry(entry.frame, FlagsFor(Permitted(p, address).value))
    ensures r > 0 && !a.present ==> MappedFor(vm.T(), PageOf(space, address), Permitted(p, address).value)
    ensures r > 0 ==> Allowed(vm.T(), PageOf(space, address), a)
  {
    hide Sane, Flat, View, PageOf, Step, Translate, Backed, TreeOk, Acct, Regions.Total, Regions.RegionsOk,
      Regions.Access, PageStart, Ent, IsUser;
    entry := ABSENT;
    if !a.user || a.reserved {
      return 0, entry;
    }
    if a.present {
      r := 0;
      if a.write {
        r := CowFault(vm, space, address, p.resident);
      }
      return;
    }
    var protection := p.FaultProtection(address, a.write, a.exec);
    if protection.None? {
      return 0, entry;
    }
    var page := PageStart(address);
    SamePageOf(space, address);
    r, entry := FirstAccess(vm, space, page, protection.value, p.resident);
    if r > 0 {
      ResidentAligned(p, page);
      p.resident := p.resident + {page};
    }
  }
}
