/** The virtual memory manager (src/mm/vmm.c). The page tables live in `mem`, the physical memory,
    and are changed in place; `at`, `roots` and `held` only keep track of who owns which frame. */
module Vmm {
  import opened Pmm
  import opened Paging
  import opened Accounts
  import opened Translation
  import opened Walks
  import opened Cow
  import opened Subtrees
  import opened Clones
  import opened Fork
  import opened Supply

  class Manager {
    const pmm: Allocator
    const kernel: Frame
    var mem: map<Frame, Content>
    ghost var at: map<Pos, Frame>
    ghost var roots: set<Pos>
    ghost var held: multiset<Frame>

    ghost function T(): Tree
      reads this
    {
      Tree(kernel, mem, at, roots)
    }

    ghost function S(): State
      reads pmm, pmm.used, pmm.refs
    {
      pmm.S()
    }

    /** Tables form a forest and every reference is accounted for. */
    ghost predicate Sound()
      reads this, pmm, pmm.used, pmm.refs
    {
      && pmm.Valid()
      && TreeOk(T())
      && Acct(pmm.layout, T(), S(), held)
    }

    /** The boot state: the loader's tables under the kernel's top table. */
    constructor (pmm: Allocator, kernel: Frame, mem: map<Frame, Content>, ghost at: map<Pos, Frame>,
                 ghost held: multiset<Frame>)
      requires pmm.Valid()
      requires var t := Tree(kernel, mem, at, {Pos(kernel, 0, 0)});
        TreeOk(t) && Acct(pmm.layout, t, pmm.S(), held)
      ensures this.pmm == pmm && this.kernel == kernel && this.mem == mem && this.at == at
      ensures roots == {Pos(kernel, 0, 0)} && this.held == held
      ensures Sound()
    {
      this.pmm := pmm;
      this.kernel := kernel;
      this.mem := mem;
      this.at := at;
      this.roots := {Pos(kernel, 0, 0)};
      this.held := held;
    }

    /** pmm_alloc_page and pmm_alloc_user_page, with the handle they give the caller. */
    method Take(reserve: nat) returns (r: Option<Frame>)
      requires Sound()
      modifies this`held, pmm, pmm.used, pmm.refs
      ensures Sound()
      ensures r.None? ==> S() == old(S()) && held == old(held)
      ensures r.None? <==> old(pmm.freePages) <= reserve
      ensures r.Some? ==> held == old(held) + multiset{r.value} && Refs(S(), r.value) == 1
      ensures r.Some? ==> pmm.freePages == old(pmm.freePages) - 1
      ensures r.Some? ==> Unclaimed(T(), old(held), r.value)
      ensures Keeps(old(held), T(), old(S()), T(), S())
    {
      hide Shape;
      r := pmm.AllocWithReserve(reserve);
      hide TreeOk, Acct, Unclaimed;
      if r.Some? {
        TakeOk(pmm.layout, T(), old(S()), held, r.value);
        held := held + multiset{r.value};
        hide InUse, IsData;
      }
    }

    /** pmm_free_page on a frame the kernel holds a handle to. */
    method Free(f: Frame)
      requires Sound() && (pmm.layout.Managed(f) ==> f in held)
      modifies this`held, pmm, pmm.used, pmm.refs
      ensures Sound()
      ensures held == old(held) - multiset{f}
      ensures Keeps(old(held), T(), old(S()), T(), S())
      ensures Shrinks(old(S()), S())
    {
      hide TreeOk, Acct, InUse, IsData, Consistent;
      FreeFacts(pmm.layout, T(), S(), held, f);
      var ok := pmm.FreePage(f * PAGE_SIZE);
      assert f * PAGE_SIZE / PAGE_SIZE == f && f * PAGE_SIZE % PAGE_SIZE == 0;
      if f in held {
        ReleaseOk(pmm.layout, T(), old(S()), held, f);
        held := held - multiset{f};
      }
    }

    /** create_table: a cleared table behind the entry of `c`, or nothing at all. */
    method CreateTable(table: Frame, slot: nat, user: bool, ghost c: Pos) returns (ok: bool)
      requires Sound() && Has(T(), c) && c.depth < 4 && c !in at && !Ent(T(), c).present
      requires at[Parent(c)] == table && Slot(c) == slot
      modifies this, pmm, pmm.used, pmm.refs
      ensures Sound() && held == old(held) && roots == old(roots)
      ensures !ok ==> T() == old(T()) && S() == old(S()) && pmm.freePages == 0
      ensures ok ==> pmm.freePages == old(pmm.freePages) - 1
      ensures ok ==> c in at && at == old(at)[c := at[c]]
      ensures ok ==> Flat(T()) == old(Flat(T()))
      ensures ok ==> forall d :: Ent(T(), d) == if d == c then TableEntry(at[c], user) else old(Ent(T(), d))
      ensures Keeps(held, old(T()), old(S()), T(), S())
    {
      hide TreeOk, Ent, Flat, Acct, InUse, IsData, Consistent, Unclaimed;
      var page := Take(0);
      if page.None? {
        return false;
      }
      var f := page.value;
      ghost var t := T();
      LinkNewOk(pmm.layout, t, S(), held, c, f, TableEntry(f, user));
      mem := mem[f := Table(EmptyTable())];
      mem := mem[table := Table(mem[table].entries[slot := TableEntry(f, user)])];
      at := at[c := f];
      held := held - multiset{f};
      assert T() == LinkNew(t, c, f, TableEntry(f, user));
      assert held == old(held);
      KeepsTrans(held, t, old(S()), t, S(), T(), S());
      return true;
    }

    /** The first loop of map_page_locked: walk down to the last table, making tables on the way. */
    method BuildPath(space: Frame, va: nat, user: bool)
      returns (ok: bool, table: Frame, created: seq<Created>, ghost lo: nat)
      requires Sound() && Tops(roots) && Pos(space, 0, 0) in at && Owned(kernel, Up(PageOf(space, va), 3))
      modifies this, pmm, pmm.used, pmm.refs
      ensures Sound() && held == old(held) && roots == old(roots)
      ensures Grown(old(T()), T()) && Keeps(held, old(T()), old(S()), T(), S())
      ensures lo + |created| <= 3 && NewOnPath(old(T()), T(), PageOf(space, va), lo, lo + |created|)
      ensures RecordsOk(T(), PageOf(space, va), lo, created)
      ensures forall c | c in at && c !in old(at) :: Ent(T(), c).user == user
      ensures ok ==> Up(PageOf(space, va), 1) in at && at[Up(PageOf(space, va), 1)] == table
      ensures !ok ==> old(pmm.freePages) < 3 || UnderLarge(T(), PageOf(space, va))
    {
      hide TreeOk, Ent, Flat, Acct, Consistent, Grown, Keeps, Up, NewOnPath, Tops, UnderLarge, Index, PageOf, Shape;
      ghost var q := PageOf(space, va);
      ghost var t0 := T();
      WalkSlot(space, va, 0);
      RootAt(t0, space);
      GrownRefl(held, t0, S(), q);
      table, created, lo := space, [], 0;
      var level := 0;
      while level < 3
        invariant 0 <= level <= 3 && lo + |created| == level && pmm.freePages == old(pmm.freePages) - |created|
        invariant Sound() && held == old(held) && roots == old(roots)
        invariant Grown(t0, T()) && Keeps(held, t0, old(S()), T(), S())
        invariant NewOnPath(t0, T(), q, lo, level) && RecordsOk(T(), q, lo, created)
        invariant forall c | c in at && c !in t0.at :: Ent(T(), c).user == user
        invariant Up(q, 4 - level) in at && at[Up(q, 4 - level)] == table
      {
        ghost var c := Up(q, 3 - level);
        WalkSlot(space, va, level);
        ReadEnt(T(), c);
        var slot := Index(va, level);
        var entry := mem[table].entries[slot];
        if !entry.present {
          ghost var t, s := T(), S();
          NewBelow(t, c);
          GrownLeaf(t0, t);
          var made := CreateTable(table, slot, user, c);
          KeepsTrans(held, t0, old(S()), t, s, T(), S());
          if !made {
            ok := false;
            return;
          }
          ReadEnt(T(), c);
          var r := Created(table, slot, mem[table].entries[slot].frame);
          WalkNew(t0, t, T(), q, lo, level, c, created, r);
          created := created + [r];
        } else if entry.large {
          LargeFound(T(), q, c);
          ok := false;
          return;
        } else {
          WalkOld(t0, T(), q, lo, level, c);
          lo := level + 1;
        }
        table := mem[table].entries[slot].frame;
        level := level + 1;
      }
      ok := true;
    }

    /** Clear the entry that links an empty table and free the table. */
    method UnlinkTable(table: Frame, slot: nat, page: Frame, ghost c: Pos)
      requires Sound() && c in at && c !in roots && NoEntries(T(), c)
      requires c.depth > 0 && Parent(c) in at && at[Parent(c)] == table && Slot(c) == slot && at[c] == page
      modifies this, pmm, pmm.used, pmm.refs
      ensures Sound() && held == old(held) && roots == old(roots) && at == old(at) - {c}
      ensures forall d :: Ent(T(), d) == if d == c then ABSENT else old(Ent(T(), d))
      ensures Flat(T()) == old(Flat(T())) && Keeps(held, old(T()), old(S()), T(), S())
    {
      hide TreeOk, Ent, Flat, Acct, Consistent, Keeps, NoEntries;
      ghost var t, s := T(), S();
      UnlinkOk(pmm.layout, t, s, held, c);
      FreeFacts(pmm.layout, t, s, held, page);
      mem := mem[table := Table(mem[table].entries[slot := ABSENT])];
      at := at - {c};
      held := Give(pmm.layout, held, page);
      assert T() == Unlink(t, c);
      ghost var t', held' := T(), held;
      Free(page);
      assert held == old(held);
      KeepsLess(held, held', t', s, T(), S());
      KeepsTrans(held, t, s, t', s, T(), S());
    }

    /** The rollback of map_page_locked: unlink and free the tables made, deepest first. */
    method Rollback(created: seq<Created>, ghost t0: Tree, ghost q: Pos, ghost lo: nat)
      requires Sound() && q.depth == 4 && lo + |created| <= 3 && TreeOk(t0)
      requires Grown(t0, T()) && NewOnPath(t0, T(), q, lo, lo + |created|) && RecordsOk(T(), q, lo, created)
      modifies this, pmm, pmm.used, pmm.refs
      ensures Sound() && held == old(held)
      ensures at == t0.at && roots == t0.roots && forall c :: Ent(T(), c) == Ent(t0, c)
      ensures Keeps(held, old(T()), old(S()), T(), S())
    {
      hide TreeOk, Ent, Flat, Acct, Consistent, Grown, Keeps, Up, NewOnPath, NoEntries, RecordsOk;
      RootsAt(t0);
      GrownRefl(held, T(), S(), q);
      var n := |created|;
      assert created[..n] == created;
      while n > 0
        invariant 0 <= n <= |created|
        invariant Sound() && held == old(held) && roots == old(roots)
        invariant Grown(t0, T()) && NewOnPath(t0, T(), q, lo, lo + n) && RecordsOk(T(), q, lo, created[..n])
        invariant Flat(T()) == old(Flat(T())) && Keeps(held, old(T()), old(S()), T(), S())
      {
        ghost var c := Up(q, 4 - (lo + n));
        ghost var t, s := T(), S();
        RollbackEmpty(t0, t, q, lo, lo + n, c);
        n := n - 1;
        RollbackRecords(t, t.(at := at - {c}), q, lo, c, created, n);
        var r := created[n];
        UnlinkTable(r.table, r.slot, r.page, c);
        RollbackPath(t0, t, T(), q, lo, lo + n + 1, c);
        RollbackRecords(t, T(), q, lo, c, created, n);
        GrownRemove(t0, t, T(), c);
        KeepsTrans(held, old(T()), old(S()), t, s, T(), S());
      }
      RolledBack(t0, T(), q, lo);
    }

    /** Rewrite the flags of a link. */
    method WriteLink(table: Frame, slot: nat, entry: Entry, ghost c: Pos)
      requires Sound() && c.depth < 4 && Linked(Ent(T(), c)) && Linked(entry) && entry.frame == Ent(T(), c).frame
      requires Has(T(), c) && at[Parent(c)] == table && Slot(c) == slot
      modifies this`mem
      ensures Sound() && Keeps(held, old(T()), S(), T(), S()) && Flat(T()) == old(Flat(T()))
      ensures forall d :: Ent(T(), d) == if d == c then entry else old(Ent(T(), d))
    {
      hide TreeOk, Ent, Flat, Acct, Keeps;
      ghost var t := T();
      RelinkOk(t, c, entry);
      LinkAcct(pmm.layout, t, S(), held, c, entry, roots);
      mem := mem[table := Table(mem[table].entries[slot := entry])];
      assert T() == SetEnt(t, c, entry);
    }

    /** The last loop of map_page_locked: open the links on the way to a user page for user mode. */
    method MarkUser(space: Frame, va: nat)
      requires Sound() && Pos(space, 0, 0) in at
      requires forall c | OnPath(PageOf(space, va), c) :: Linked(Ent(T(), c))
      modifies this`mem
      ensures Sound()
      ensures Marked(old(T()), T(), PageOf(space, va), 3)
      ensures Keeps(held, old(T()), S(), T(), S()) && Flat(T()) == old(Flat(T()))
    {
      hide TreeOk, Ent, Flat, Acct, Consistent, Keeps, Marked, Index, PageOf, Up, OnPath;
      ghost var q := PageOf(space, va);
      ghost var t0 := T();
      WalkSlot(space, va, 0);
      RootAt(t0, space);
      GrownRefl(held, t0, S(), q);
      MarkNone(t0, q);
      var table := space;
      var level := 0;
      while level < 3
        invariant 0 <= level <= 3 && Sound()
        invariant Up(q, 4 - level) in at && at[Up(q, 4 - level)] == table
        invariant Marked(t0, T(), q, level)
        invariant Keeps(held, t0, S(), T(), S()) && Flat(T()) == Flat(t0)
      {
        ghost var c, t := Up(q, 3 - level), T();
        WalkSlot(space, va, level);
        var slot := Index(va, level);
        MarkedLink(t0, t, q, level, c);
        ReadEnt(t, c);
        var entry := mem[table].entries[slot];
        WriteLink(table, slot, entry.(user := true), c);
        KeepsTrans(held, t0, S(), t, S(), T(), S());
        MarkUserStep(t0, t, T(), q, c, level);
        table := entry.frame;
        level := level + 1;
      }
    }

    /** Write the leaf entry and, for a user page, open the way to it. */
    method PlaceLeaf(space: Frame, va: nat, table: Frame, slot: nat, e: Entry) returns (ghost mid: Tree)
      requires Sound() && Pos(space, 0, 0) in at && e.present
      requires Has(T(), PageOf(space, va)) && !Ent(T(), PageOf(space, va)).present
      requires at[Parent(PageOf(space, va))] == table && Slot(PageOf(space, va)) == slot
      requires forall c | OnPath(PageOf(space, va), c) :: c in at && Linked(Ent(T(), c))
      requires e.user ==> e.frame in held && IsData(T(), e.frame)
      modifies this`mem, this`held
      ensures Sound() && held == if e.user then old(held) - multiset{e.frame} else old(held)
      ensures Keeps(old(held), old(T()), S(), T(), S())
      ensures forall d :: Ent(mid, d) == if d == PageOf(space, va) then e else old(Ent(T(), d))
      ensures if e.user then Marked(mid, T(), PageOf(space, va), 3) else T() == mid
    {
      hide TreeOk, Ent, Flat, Acct, Consistent, Keeps, Up, Marked, IsData, PageOf;
      ghost var q, t := PageOf(space, va), T();
      PutNewLeaf(pmm.layout, t, S(), held, q, e);
      mem := mem[table := Table(mem[table].entries[slot := e])];
      if e.user {
        held := held - multiset{e.frame};
      }
      mid := T();
      assert mid == SetEnt(t, q, e);
      if e.user {
        PathStays(t, mid, q, e);
        MarkUser(space, va);
        InsertInUse(t, mid, old(held), q, e);
        KeepsChain(old(held), t, S(), mid, S(), held, T(), S());
      }
    }

    /** The part of map_page_locked after its checks: build the tables on the way, put the leaf in,
        or take the new tables out again. */
    method MapAt(space: Frame, va: nat, e: Entry, ghost q: Pos) returns (ok: bool)
      requires Sound() && FlagsOk(T()) && Tops(roots) && Pos(space, 0, 0) in roots
      requires q == PageOf(space, va) && Owned(kernel, Up(q, 3)) && e.present
      requires e.user ==> e.frame in held && IsData(T(), e.frame)
      modifies this, pmm, pmm.used, pmm.refs
      ensures Sound() && roots == old(roots) && Keeps(old(held), old(T()), old(S()), T(), S())
      ensures ok ==> !old(Leaf(T(), q)).present && Mapped(old(T()), T(), q, e)
      ensures held == if ok && e.user then old(held) - multiset{e.frame} else old(held)
      ensures !ok ==> at == old(at) && forall c :: Ent(T(), c) == old(Ent(T(), c))
      ensures !ok ==> old(Leaf(T(), q)).present || old(pmm.freePages) < 3 || old(UnderLarge(T(), q))
    {
      hide TreeOk, Ent, Flat, Acct, Consistent, Grown, Keeps, Up, NewOnPath, UnderLarge, FlagsOk, Mapped, Marked,
        IsData, PageOf, Index, OnPath, RecordsOk, Tops, IsUser;
      ghost var t0, s0, h := T(), S(), held;
      GrownRefl(h, t0, s0, q);
      RootsAt(t0);
      var built, table, created, lo := BuildPath(space, va, e.user);
      ghost var t1, s1 := T(), S();
      GrownLeaf(t0, t1);
      var slot := Index(va, 3);
      if built {
        PathLinked(t1, q);
        WalkSlot(space, va, 3);
        ReadEnt(t1, q);
        if !mem[table].entries[slot].present {
          KeepsHandle(h, t0, s0, t1, s1, e.frame);
          RootsAt(t1);
          ghost var t2 := PlaceLeaf(space, va, table, slot, e);
          KeepsTrans(h, t0, s0, t1, s1, T(), S());
          MapFinish(t0, t1, t2, T(), q, e, lo, lo + |created|);
          return true;
        }
      }
      Rollback(created, t0, q, lo);
      KeepsTrans(h, t0, s0, t1, s1, T(), S());
      LargeSame(t0, t1, q);
      return false;
    }

    /** map_page_locked. */
    method MapPage(space: Frame, va: nat, pa: nat, flags: Flags) returns (ok: bool)
      requires Sound() && FlagsOk(T()) && Tops(roots) && Pos(space, 0, 0) in roots
      requires flags.user && MapAllowed(kernel, space, va, pa, flags) ==> pa / PAGE_SIZE in held
      requires flags.user && MapAllowed(kernel, space, va, pa, flags) ==> IsData(T(), pa / PAGE_SIZE)
      modifies this, pmm, pmm.used, pmm.refs
      ensures Sound() && roots == old(roots)
      ensures ok ==> MapAllowed(kernel, space, va, pa, flags) && !old(Leaf(T(), PageOf(space, va))).present
      ensures ok ==> Mapped(old(T()), T(), PageOf(space, va), LeafEntry(pa / PAGE_SIZE, flags))
      ensures ok ==> AsAsked(Leaf(T(), PageOf(space, va)), pa, flags)
      ensures held == if ok && flags.user then old(held) - multiset{pa / PAGE_SIZE} else old(held)
      ensures !ok ==> at == old(at) && forall c :: Ent(T(), c) == old(Ent(T(), c))
      ensures Keeps(old(held), old(T()), old(S()), T(), S())
      ensures (flags.cow ==> flags.nx && !flags.writable && flags.user) ==> FlagsOk(T())
      ensures !ok ==> SameSupply(old(S()), S())
      ensures !ok && MapAllowed(kernel, space, va, pa, flags) && !old(Leaf(T(), PageOf(space, va))).present
        ==> old(pmm.freePages) < 3 || old(UnderLarge(T(), PageOf(space, va)))
    {
      hide TreeOk, Ent, Flat, Acct, Consistent, Keeps, Up, UnderLarge, FlagsOk, Mapped, IsData, PageOf, Tops,
        MapAllowed, Leaf, AsAsked;
      if !MapAllowed(kernel, space, va, pa, flags) {
        GrownRefl(held, T(), S(), PageOf(space, va));
        return false;
      }
      AllowedOwned(kernel, space, va, pa, flags);
      ghost var t, s := T(), S();
      ok := MapAt(space, va, LeafEntry(pa / PAGE_SIZE, flags), PageOf(space, va));
      if ok {
        MapPageFlags(t, T(), space, va, pa, flags);
        LeafAsAsked(t, T(), kernel, space, va, pa, flags);
      } else {
        FlagsSame(t, T());
        SupplySame(pmm.layout, t, s, T(), S(), held);
      }
    }

    /** The common walk of unmap and COW resolution: the four tables above the page, or nothing. */
    method WalkDown(space: Frame, va: nat) returns (found: bool, tables: seq<Frame>)
      requires Sound() && Tops(roots) && Pos(space, 0, 0) in at && Owned(kernel, Up(PageOf(space, va), 3))
      ensures found <==> Up(PageOf(space, va), 1) in at
      ensures found ==> |tables| == 4 && TablesAt(at, PageOf(space, va), tables)
    {
      hide TreeOk, Ent, Flat, Acct, Consistent, Up, PageOf, Index, Tops;
      ghost var q := PageOf(space, va);
      WalkSlot(space, va, 0);
      RootAt(T(), space);
      tables := [space];
      var level := 0;
      while level < 3
        invariant 0 <= level <= 3 && |tables| == level + 1 && TablesAt(at, q, tables)
      {
        WalkSlot(space, va, level);
        ghost var c := Up(q, 3 - level);
        assert TableAt(at, q, level, tables[level]);
        ReadEnt(T(), c);
        var entry := mem[tables[level]].entries[Index(va, level)];
        if !entry.present || entry.large {
          NotLinked(T(), c);
          NoTableBelow(T(), q, 3 - level);
          return false, [];
        }
        assert TableAt(at, q, level + 1, entry.frame);
        tables := tables + [entry.frame];
        level := level + 1;
      }
      assert TableAt(at, q, 3, tables[3]);
      found := true;
    }

    method TableIsEmpty(table: Frame) returns (r: bool)
      requires IsTable(T(), table)
      ensures r <==> forall i | 0 <= i < 512 :: !mem[table].entries[i].present
    {
      var i := 0;
      while i < 512
        invariant 0 <= i <= 512
        invariant forall j | 0 <= j < i :: !mem[table].entries[j].present
      {
        if mem[table].entries[i].present {
          return false;
        }
        i := i + 1;
      }
      return true;
    }

    /** The table at this level, if it is empty, is unlinked and freed. */
    method PruneLevel(space: Frame, va: nat, tables: seq<Frame>, level: nat) returns (empty: bool)
      requires Sound() && FlagsOk(T()) && Tops(roots) && 0 < level <= 3 && level < |tables|
      requires TablesAt(at, PageOf(space, va), tables[..level + 1])
      modifies this, pmm, pmm.used, pmm.refs
      ensures Sound() && FlagsOk(T()) && roots == old(roots) && held == old(held)
      ensures forall c :: Leaf(T(), c) == old(Leaf(T(), c))
      ensures Flat(T()) == old(Flat(T())) && Keeps(held, old(T()), old(S()), T(), S())
      ensures empty <==> old(NoEntries(T(), Up(PageOf(space, va), 4 - level)))
      ensures if empty then at == old(at) - {Up(PageOf(space, va), 4 - level)}
              else T() == old(T()) && Up(PageOf(space, va), 4 - level) in at
      ensures TablesAt(at, PageOf(space, va), tables[..level])
    {
      hide TreeOk, Ent, Leaf, Flat, Acct, Consistent, Up, PageOf, Index, Tops, Keeps, FlagsOk, NoEntries, TablesAt;
      ghost var q := PageOf(space, va);
      ghost var c, t, s := Up(q, 4 - level), T(), S();
      GrownRefl(held, t, s, q);
      WalkSlot(space, va, level - 1);
      TablesAtLast(at, q, tables[..level + 1], level);
      TablesAtLast(at, q, tables[..level + 1], level - 1);
      ShapeAt(t, c);
      empty := TableIsEmpty(tables[level]);
      TablesAtPrefix(at, at - {c}, q, tables, level + 1);
      if !empty {
        SomeEntry(t, c);
        TablesAtMore(at, q, tables, level);
        return;
      }
      EmptyTableNoEntries(t, c);
      TableLinked(t, c);
      ReadEnt(t, c);
      UnlinkTable(tables[level - 1], Index(va, level - 1), mem[tables[level - 1]].entries[Index(va, level - 1)].frame,
        c);
      PruneFlags(t, T(), c);
    }


    /** The last loop of vmm_space_unmap_page: give up tables the unmap left empty, bottom up. */
    method Prune(space: Frame, va: nat, tables: seq<Frame>)
      requires Sound() && FlagsOk(T()) && Tops(roots) && |tables| == 4 && TablesAt(at, PageOf(space, va), tables)
      modifies this, pmm, pmm.used, pmm.refs
      ensures Sound() && FlagsOk(T()) && roots == old(roots) && held == old(held)
      ensures forall c :: Leaf(T(), c) == old(Leaf(T(), c))
      ensures Flat(T()) == old(Flat(T())) && Keeps(held, old(T()), old(S()), T(), S())
      ensures PrunedOnly(old(at), at, PageOf(space, va)) && NoneEmpty(T(), PageOf(space, va))
    {
      hide TreeOk, Ent, Leaf, Flat, Acct, Consistent, Up, PageOf, Tops, Keeps, FlagsOk, NoEntries, TablesAt, PrunedOnly,
        GoneBelow, NoneEmpty;
      ghost var q := PageOf(space, va);
      GrownRefl(held, T(), S(), q);
      PrunedRefl(at, q);
      var level := 3;
      assert tables[..level + 1] == tables;
      while level > 0
        invariant 0 <= level <= 3
        invariant Sound() && FlagsOk(T()) && roots == old(roots) && held == old(held)
        invariant TablesAt(at, q, tables[..level + 1])
        invariant forall c :: Leaf(T(), c) == old(Leaf(T(), c))
        invariant Flat(T()) == old(Flat(T())) && Keeps(held, old(T()), old(S()), T(), S())
        invariant PrunedOnly(old(at), at, q) && GoneBelow(at, q, level)
      {
        ghost var t, s := T(), S();
        var empty := PruneLevel(space, va, tables, level);
        KeepsTrans(held, old(T()), old(S()), t, s, T(), S());
        if !empty {
          break;
        }
        PrunedStep(old(at), t.at, q, level);
        GoneBelowStep(t.at, q, level);
        level := level - 1;
      }
      PruneEnds(T(), q, level);
    }

    /** vmm_space_unmap_page: the frame that was mapped, for the caller to free. */
    method UnmapPage(space: Frame, va: nat) returns (r: Option<Frame>)
      requires Sound() && FlagsOk(T()) && Tops(roots) && Pos(space, 0, 0) in roots
      modifies this, pmm, pmm.used, pmm.refs
      ensures Sound() && FlagsOk(T()) && roots == old(roots)
      ensures r.Some? <==> UnmapAllowed(kernel, space, va) && old(Leaf(T(), PageOf(space, va))).present
      ensures r.None? ==> T() == old(T()) && S() == old(S()) && held == old(held)
      ensures r.Some? ==> r.value == old(Leaf(T(), PageOf(space, va))).frame
      ensures r.Some? ==> forall c :: Leaf(T(), c) == if c == PageOf(space, va) then ABSENT else old(Leaf(T(), c))
      ensures r.Some? ==>
        held == if old(Leaf(T(), PageOf(space, va))).user then old(held) + multiset{r.value} else old(held)
      ensures r.Some? ==> Flat(T()) == old(Flat(T())) - {PageOf(space, va)}
      ensures r.Some? ==> PrunedOnly(old(at), at, PageOf(space, va)) && NoneEmpty(T(), PageOf(space, va))
      ensures Keeps(old(held), old(T()), old(S()), T(), S())
    {
      hide TreeOk, Ent, Flat, Acct, Consistent, Up, PageOf, Index, Tops, Keeps, FlagsOk, Canonical, PrunedOnly,
        NoneEmpty, IsTable;
      ghost var q, t0, s0 := PageOf(space, va), T(), S();
      GrownRefl(held, t0, s0, q);
      if !UnmapAllowed(kernel, space, va) {
        return None;
      }
      OwnedPage(kernel, space, va);
      RootsAt(t0);
      var found, tables := WalkDown(space, va);
      WalkSlot(space, va, 3);
      if !found {
        NoTableNoEnt(t0, q);
        return None;
      }
      TablesAtLast(at, q, tables, 3);
      ReadEnt(t0, q);
      var slot := Index(va, 3);
      var entry := mem[tables[3]].entries[slot];
      if !entry.present {
        return None;
      }
      ClearLeaf(pmm.layout, t0, s0, held, q);
      ShapeOf(t0);
      mem := mem[tables[3] := Table(mem[tables[3]].entries[slot := ABSENT])];
      ghost var t1 := T();
      assert t1 == SetEnt(t0, q, ABSENT);
      ClearLeafFlags(t0, t1, q);
      ghost var extra := if entry.user then multiset{entry.frame} else multiset{};
      assert held + multiset{} == held;
      held := held + extra;
      RemoveInUse(t0, t1, old(held), q, extra);
      Prune(space, va, tables);
      LeafSets(t0, t1, T(), q);
      KeepsChain(old(held), t0, s0, t1, s0, held, T(), S());
      return Some(entry.frame);
    }

    method DropOne(f: Frame)
      requires pmm.Valid() && Refs(S(), f) > 0
      modifies pmm, pmm.used, pmm.refs
      ensures pmm.Valid() && S() == Released(old(S()), f)
    {
      hide Released, Consistent;
      var freed := pmm.FreePage(f * PAGE_SIZE);
    }

    /** The page is shared: move this space to a copy in a new frame. */
    method CopyShared(table: Frame, slot: nat, entry: Entry, ghost q: Pos) returns (r: int)
      requires Sound() && FlagsOk(T()) && q in Flat(T()) && Flat(T())[q] == entry && entry.cow
      requires Has(T(), q) && at[Parent(q)] == table && Slot(q) == slot && Refs(S(), entry.frame) > 1
      modifies this, pmm, pmm.used, pmm.refs
      ensures Sound() && FlagsOk(T()) && roots == old(roots) && held == old(held) && at == old(at)
      ensures r == 1 || r == -1
      ensures r < 0 ==> old(pmm.freePages) <= KERNEL_RESERVE_PAGES && T() == old(T()) && S() == old(S())
      ensures r > 0 ==> Resolved(old(T()), old(S()), old(held), T(), q)
      ensures Keeps(held, old(T()), old(S()), T(), S())
    {
      hide TreeOk, Ent, Flat, Acct, Consistent, Keeps, FlagsOk, Resolved, Unclaimed, Released, Refs;
      ghost var t, s := T(), S();
      UserCounted(pmm.layout, t, s, held, q);
      var page := Take(KERNEL_RESERVE_PAGES);
      if page.None? {
        return -1;
      }
      var n := page.value;
      var e := entry.(frame := n, writable := true, cow := false);
      ghost var s1 := S();
      assert held - multiset{n} == old(held);
      ResolveCopy(pmm.layout, t, s1, held, q, n, e);
      mem := mem[n := Data(mem[entry.frame].bytes)];
      DropOne(entry.frame);
      mem := mem[table := Table(mem[table].entries[slot := e])];
      held := held - multiset{n};
      assert T() == CopiedTo(t, q, n, e);
      KeepsTrans(held, t, s, t, s1, T(), S());
      ResolvedCopy(t, s, held, T(), q, n, e);
      return 1;
    }

    /** The second half of vmm_space_resolve_cow, at the leaf. */
    method SplitShared(table: Frame, slot: nat, entry: Entry, ghost q: Pos) returns (r: int)
      requires Sound() && FlagsOk(T()) && q in Flat(T()) && Flat(T())[q] == entry && entry.cow
      requires Has(T(), q) && at[Parent(q)] == table && Slot(q) == slot
      modifies this, pmm, pmm.used, pmm.refs
      ensures Sound() && FlagsOk(T()) && roots == old(roots) && held == old(held) && at == old(at)
      ensures r == 1 || r == -1
      ensures r < 0 ==> old(pmm.freePages) <= KERNEL_RESERVE_PAGES && Refs(S(), entry.frame) > 1
      ensures r < 0 ==> T() == old(T()) && S() == old(S())
      ensures r > 0 ==> Resolved(old(T()), old(S()), old(held), T(), q)
      ensures Keeps(held, old(T()), old(S()), T(), S())
    {
      hide TreeOk, Ent, Flat, Acct, Consistent, Keeps, FlagsOk, Resolved, IsData;
      ghost var t, s := T(), S();
      UserCounted(pmm.layout, t, s, held, q);
      GrownRefl(held, t, s, q);
      var references := pmm.References(entry.frame * PAGE_SIZE);
      assert references == Refs(s, entry.frame);
      if references == 1 {
        var e := entry.(writable := true, cow := false);
        ResolveInPlace(pmm.layout, t, s, held, q, e);
        mem := mem[table := Table(mem[table].entries[slot := e])];
        assert T() == SetEnt(t, q, e);
        return 1;
      }
      r := CopyShared(table, slot, entry, q);
    }

    /** vmm_space_resolve_cow: 1 when the page is writable now, 0 when it is no copy-on-write page,
        -1 when memory has run out. */
    method ResolveCow(space: Frame, va: nat) returns (r: int)
      requires Sound() && FlagsOk(T()) && Tops(roots) && Pos(space, 0, 0) in roots
      requires va >= UPPER_START ==> space == kernel
      modifies this, pmm, pmm.used, pmm.refs
      ensures Sound() && FlagsOk(T()) && roots == old(roots) && held == old(held) && at == old(at)
      ensures -1 <= r <= 1
      ensures r == 0 <==>
        !(Canonical(va) && PageOf(space, va) in old(Flat(T())) && old(Flat(T())[PageOf(space, va)]).cow)
      ensures r < 0 ==> old(pmm.freePages) <= KERNEL_RESERVE_PAGES
      ensures r < 0 ==> old(Refs(S(), Flat(T())[PageOf(space, va)].frame)) > 1
      ensures r <= 0 ==> T() == old(T()) && S() == old(S())
      ensures r > 0 ==> Resolved(old(T()), old(S()), old(held), T(), PageOf(space, va))
      ensures Keeps(held, old(T()), old(S()), T(), S())
    {
      hide TreeOk, Ent, Flat, Acct, Consistent, Up, PageOf, Index, Tops, Keeps, FlagsOk, Canonical, IsData, Resolved;
      ghost var q, t0, s0 := PageOf(space, va), T(), S();
      GrownRefl(held, t0, s0, q);
      if !Canonical(va) {
        return 0;
      }
      OwnedPage(kernel, space, va);
      RootsAt(t0);
      var found, tables := WalkDown(space, va);
      WalkSlot(space, va, 3);
      if !found {
        NoTableNoEnt(t0, q);
        return 0;
      }
      TablesAtLast(at, q, tables, 3);
      ReadEnt(t0, q);
      var slot := Index(va, 3);
      var entry := mem[tables[3]].entries[slot];
      CowLeaf(t0, q);
      if !(entry.present && entry.user && entry.cow) || entry.writable {
        return 0;
      }
      r := SplitShared(tables[3], slot, entry, q);
    }

    /** destroy_table: free a subtree with the user pages it maps. */
    method DestroyTable(physical: Frame, level: nat, ghost p: Pos)
      requires Sound() && EntriesOk(T()) && p in roots && Whole(T(), p)
      requires p in at && at[p] == physical && 1 <= level <= 3 && p.depth == 4 - level
      modifies this`at, this`roots, this`held, pmm, pmm.used, pmm.refs
      ensures Sound() && held == old(held) && T() == Without(old(T()), p)
      ensures Shrinks(old(S()), S())
      decreases level
    {
      hide TreeOk, Ent, Flat, Acct, Consistent, Keeps, EntriesOk, Whole, Pending, Removed, Without, Shrinks, Disband;
      ghost var t0 := T();
      ghost var h := Give(pmm.layout, held, physical);
      ShrinksRefl(S());
      DisbandPending(pmm.layout, t0, S(), held, p);
      FreeFacts(pmm.layout, t0, S(), held, physical);
      RemovedStart(t0, p);
      ShapeAt(t0, p);
      at, roots, held := Disband(t0, p).at, Disband(t0, p).roots, Pending(t0, p, 0, h);
      DisbandMem(t0, p);
      assert T() == Removed(t0, p, 0);
      var i := 0;
      while i < 512
        invariant 0 <= i <= 512 && Sound() && T() == Removed(t0, p, i) && held == Pending(t0, p, i, h)
        invariant Shrinks(old(S()), S())
      {
        ghost var c, s := Child(p, i), S();
        SlotHas(t0, p, i);
        ReadEnt(t0, c);
        ShrinksRefl(s);
        var entry := mem[physical].entries[i];
        if !entry.present {
          DestroyLeafStep(t0, p, i, h);
        } else if level == 1 || entry.large {
          DestroyLeafStep(t0, p, i, h);
          if entry.user {
            Free(entry.frame);
          }
        } else {
          DestroyLinkStep(t0, p, i, h);
          RemovedEntries(t0, p, i);
          DestroyTable(entry.frame, level - 1, c);
        }
        ShrinksTrans(old(S()), s, S());
        i := i + 1;
      }
      RemovedEnd(t0, p);
      ghost var s := S();
      PendingEnd(t0, p, h);
      Free(physical);
      ShrinksTrans(old(S()), s, S());
    }

    /** destroy_cloned_tables: free a subtree of tables and leave what they map alone. */
    method DestroyClonedTables(physical: Frame, level: nat, ghost p: Pos)
      requires Sound() && EntriesOk(T()) && p in roots && Whole(T(), p) && NoUsers(T(), p)
      requires p in at && at[p] == physical && 1 <= level <= 3 && p.depth == 4 - level
      modifies this`at, this`roots, this`held, pmm, pmm.used, pmm.refs
      ensures Sound() && held == old(held) && T() == Without(old(T()), p)
      ensures Shrinks(old(S()), S())
      decreases level
    {
      hide TreeOk, Ent, Flat, Acct, Consistent, Keeps, EntriesOk, Whole, Pending, Removed, Without, Shrinks, Disband,
        NoUsers, Has;
      ghost var t0 := T();
      ghost var h := Give(pmm.layout, held, physical);
      ShrinksRefl(S());
      DisbandPending(pmm.layout, t0, S(), held, p);
      FreeFacts(pmm.layout, t0, S(), held, physical);
      RemovedStart(t0, p);
      ShapeAt(t0, p);
      at, roots, held := Disband(t0, p).at, Disband(t0, p).roots, Pending(t0, p, 0, h);
      DisbandMem(t0, p);
      assert T() == Removed(t0, p, 0);
      if level > 1 {
        var i := 0;
        while i < 512
          invariant 0 <= i <= 512 && Sound() && T() == Removed(t0, p, i) && held == Pending(t0, p, i, h)
          invariant Shrinks(old(S()), S())
        {
          ghost var c, s := Child(p, i), S();
          SlotHas(t0, p, i);
          ReadEnt(t0, c);
          ShrinksRefl(s);
          NoUsersChild(t0, p, i);
          var entry := mem[physical].entries[i];
          if entry.present && !entry.large {
            DestroyLinkStep(t0, p, i, h);
            RemovedEntries(t0, p, i);
            DestroyClonedTables(entry.frame, level - 1, c);
          } else {
            DestroyLeafStep(t0, p, i, h);
          }
          ShrinksTrans(old(S()), s, S());
          i := i + 1;
        }
      } else {
        NoUsersRest(t0, p);
        DestroyRest(t0, p, 0, h);
      }
      RemovedEnd(t0, p);
      ghost var s := S();
      PendingEnd(t0, p, h);
      Free(physical);
      ShrinksTrans(old(S()), s, S());
    }

    /** vmm_space_destroy: everything the space owns is given back. */
    method DestroySpace(space: Frame)
      requires Sound() && EntriesOk(T()) && Pos(space, 0, 0) in roots && Tops(roots)
      modifies this`at, this`roots, this`held, pmm, pmm.used, pmm.refs
      ensures Sound() && held == old(held)
      ensures T() == if space == kernel then old(T()) else Without(old(T()), Pos(space, 0, 0))
      ensures Shrinks(old(S()), S())
    {
      hide TreeOk, Ent, Flat, Acct, Consistent, Keeps, EntriesOk, Whole, Pending, Removed, Without, Shrinks, Disband,
        Tops;
      ShrinksRefl(S());
      if space == kernel {
        return;
      }
      ghost var t0, p := T(), Pos(space, 0, 0);
      ghost var h := Give(pmm.layout, held, space);
      RootsAt(t0);
      RootAt(t0, space);
      TopsWhole(t0, p);
      DisbandPending(pmm.layout, t0, S(), held, p);
      FreeFacts(pmm.layout, t0, S(), held, space);
      RemovedStart(t0, p);
      ShapeAt(t0, p);
      at, roots, held := Disband(t0, p).at, Disband(t0, p).roots, Pending(t0, p, 0, h);
      DisbandMem(t0, p);
      assert T() == Removed(t0, p, 0);
      var i := 0;
      while i < 256
        invariant 0 <= i <= 256 && Sound() && T() == Removed(t0, p, i) && held == Pending(t0, p, i, h)
        invariant Shrinks(old(S()), S())
      {
        ghost var c, s := Child(p, i), S();
        SlotHas(t0, p, i);
        ReadEnt(t0, c);
        TopEntry(t0, c);
        ShrinksRefl(s);
        var entry := mem[space].entries[i];
        if entry.present {
          DestroyLinkStep(t0, p, i, h);
          RemovedEntries(t0, p, i);
          DestroyTable(entry.frame, 3, c);
        } else {
          DestroyLeafStep(t0, p, i, h);
        }
        ShrinksTrans(old(S()), s, S());
        i := i + 1;
      }
      UpperHalf(t0, p);
      DestroyRest(t0, p, 256, h);
      RemovedEnd(t0, p);
      ghost var s := S();
      PendingEnd(t0, p, h);
      Free(space);
      ShrinksTrans(old(S()), s, S());
    }

    /** A new detached table at `d`. */
    method NewTable(ghost d: Pos) returns (r: Option<Frame>)
      requires Sound() && d !in at && 1 <= d.depth <= 3
      modifies this, pmm, pmm.used, pmm.refs
      ensures Sound() && held == old(held) && Keeps(held, old(T()), old(S()), T(), S())
      ensures r.None? ==> T() == old(T()) && S() == old(S()) && old(pmm.freePages) == 0
      ensures r.Some? ==> d in at && at == old(at)[d := r.value] && roots == old(roots) + {d}
      ensures r.Some? ==> (forall c :: Ent(T(), c) == old(Ent(T(), c))) && Flat(T()) == old(Flat(T()))
    {
      hide TreeOk, Ent, Flat, Acct, Consistent, InUse, IsData, Unclaimed, Keeps, Fresh;
      ghost var t, s := T(), S();
      r := Take(0);
      if r.None? {
        return;
      }
      var f := r.value;
      SoleHandle(pmm.layout, t, S(), held, f);
      AddTableOk(t, d, f);
      AddTableAcct(pmm.layout, t, S(), held, d, f);
      assert held - multiset{f} == old(held);
      AddTableKeeps(t, S(), old(held), d, f);
      mem := mem[f := Table(EmptyTable())];
      at, roots, held := at[d := f], roots + {d}, held - multiset{f};
      assert T() == AddTable(t, d, f);
      KeepsTrans(held, t, s, t, S(), T(), S());
    }

    /** Copy an entry into an empty slot of a detached table. */
    method CopyEntry(table: Frame, slot: nat, entry: Entry, ghost c: Pos)
      requires Sound() && Has(T(), c) && at[Parent(c)] == table && Slot(c) == slot && !Ent(T(), c).present
      requires entry.present ==> !entry.user
      requires c.depth == 4 || !Linked(entry)
      modifies this`mem
      ensures Sound() && Keeps(held, old(T()), S(), T(), S()) && Flat(T()) == old(Flat(T()))
      ensures forall d :: Ent(T(), d) == if d == c then (if entry.present then entry else ABSENT) else old(Ent(T(), d))
    {
      hide TreeOk, Ent, Flat, Acct, Consistent, Keeps;
      ghost var t := T();
      PutPlain(pmm.layout, t, S(), held, c, entry);
      mem := mem[table := Table(mem[table].entries[slot := entry])];
      assert T() == SetEnt(t, c, entry);
    }

    /** Link a detached table. */
    method AttachTable(table: Frame, slot: nat, entry: Entry, ghost c: Pos)
      requires Sound() && c in roots && Has(T(), c) && c.depth < 4 && !Ent(T(), c).present && c in at
      requires at[Parent(c)] == table && Slot(c) == slot && Linked(entry) && entry.frame == at[c]
      modifies this`mem, this`roots
      ensures Sound() && Keeps(held, old(T()), S(), T(), S()) && Flat(T()) == old(Flat(T()))
      ensures roots == old(roots) - {c}
      ensures forall d :: Ent(T(), d) == if d == c then entry else old(Ent(T(), d))
    {
      hide TreeOk, Ent, Flat, Acct, Consistent, Keeps;
      ghost var t := T();
      ReadEnt(t, c);
      AttachOk(t, c, entry);
      LinkAcct(pmm.layout, t, S(), held, c, entry, roots - {c});
      mem := mem[table := Table(mem[table].entries[slot := entry])];
      roots := roots - {c};
      assert T() == Attach(t, c, entry);
    }

    /** The failure path of clone_table: destroy the partial copy. */
    method UndoClone(f: Frame, level: nat, ghost p: Pos, ghost r: Frame, ghost i: nat, ghost t0: Tree, ghost s0: State)
      requires Sound() && Cloned(t0, T(), p, r, i) && Vacant(t0, In(p, r)) && TreeOk(t0) && EntriesOk(t0)
      requires NoUsers(t0, p)
      requires 1 <= level <= 3 && p.depth == 4 - level && In(p, r) in at && at[In(p, r)] == f
      requires Keeps(held, t0, s0, T(), S()) && Flat(T()) == Flat(t0)
      modifies this`at, this`roots, this`held, pmm, pmm.used, pmm.refs
      ensures Sound() && held == old(held) && Keeps(held, t0, s0, T(), S()) && Flat(T()) == Flat(t0)
      ensures at == t0.at && roots == t0.roots && forall c :: Ent(T(), c) == Ent(t0, c)
    {
      hide TreeOk, Ent, Flat, Acct, Consistent, Keeps, EntriesOk, Whole, NoUsers, Vacant, Cloned, Without, Shrinks;
      ghost var t, s := T(), S();
      RootsAt(t0);
      CloneWhole(t0, t, p, r, i);
      ClonedEntries(t0, t, p, r, i);
      CloneNoUsers(t0, t, p, r, i);
      DestroyClonedTables(f, level, In(p, r));
      CloneUndone(t0, t, p, r, i);
      WithoutMem(t, In(p, r));
      FlatSame(t0, T());
      SameMemShrinks(held, t, s, T(), S());
      KeepsTrans(held, t0, s0, t, s, T(), S());
    }

    /** clone_table: a detached copy of a subtree of kernel tables, or no change at all. */
    method CloneTable(source: Frame, level: nat, ghost p: Pos, ghost r: Frame) returns (res: Option<Frame>)
      requires Sound() && EntriesOk(T()) && p in at && at[p] == source && 1 <= level <= 3 && p.depth == 4 - level
      requires Whole(T(), p) && NoUsers(T(), p) && r != p.root && Vacant(T(), In(p, r))
      modifies this, pmm, pmm.used, pmm.refs
      ensures Sound() && held == old(held) && Keeps(held, old(T()), old(S()), T(), S()) && Flat(T()) == old(Flat(T()))
      ensures res.None? ==> at == old(at) && roots == old(roots) && forall c :: Ent(T(), c) == old(Ent(T(), c))
      ensures res.Some? ==> Cloned(old(T()), T(), p, r, 512) && In(p, r) in at && at[In(p, r)] == res.value
      ensures res.None? ==> old(pmm.freePages) < |Part(old(T()), p, 512)|
      decreases level
    {
      hide TreeOk, Ent, Flat, Acct, Consistent, Keeps, EntriesOk, Whole, NoUsers, Vacant, Cloned, Part, Has, Under;
      ghost var t0, s0, d := T(), S(), In(p, r);
      PartSelf(t0, p, 512);
      VacantTop(t0, d);
      res := NewTable(d);
      if res.None? {
        return;
      }
      var f := res.value;
      CloneStart(t0, T(), p, r);
      var i := 0;
      while i < 512
        invariant 0 <= i <= 512 && Sound() && held == old(held) && Cloned(t0, T(), p, r, i)
        invariant Keeps(held, t0, s0, T(), S()) && Flat(T()) == Flat(t0)
        invariant d in at && at[d] == f
      {
        ghost var t, s := T(), S();
        CloneSlot(t0, t, p, r, i);
        ParentOfChild(p, i);
        ParentOfChild(d, i);
        ReadEnt(t, Child(p, i));
        NoUsersAt(t0, p, i);
        var entry := mem[source].entries[i];
        if !entry.present || level == 1 || entry.large {
          CopyEntry(f, i, entry, Child(d, i));
          CloneLeafDone(t0, t, T(), p, r, i);
          KeepsTrans(held, t0, s0, t, s, T(), S());
        } else {
          CloneReady(t0, t, p, r, i);
          ClonedEntries(t0, t, p, r, i);
          var child := CloneTable(entry.frame, level - 1, Child(p, i), r);
          if child.None? {
            CloneShort(pmm.layout, t0, s0, t, s, held, p, r, i, 512);
            ClonedSame(t0, t, T(), p, r, i);
            KeepsTrans(held, t0, s0, t, s, T(), S());
            UndoClone(f, level, p, r, i, t0, s0);
            return None;
          }
          ghost var t2, s2 := T(), S();
          KeepsTrans(held, t0, s0, t, s, t2, s2);
          CloneLinkReady(t, t2, p, r, i);
          AttachTable(f, i, entry.(frame := child.value), Child(d, i));
          RootsAt(t0);
          SlotTable(t0, p, i);
          CloneLinkRoots(t0, t, p, r, i);
          CloneLinkDone(t0, t, t2, T(), p, r, i);
          KeepsTrans(held, t0, s0, t2, s2, T(), S());
        }
        i := i + 1;
      }
    }

    /** The top table of a new space: a cleared frame. */
    method NewRoot() returns (r: Option<Frame>)
      requires Sound() && Tops(roots)
      modifies this, pmm, pmm.used, pmm.refs
      ensures Sound() && held == old(held) && Keeps(held, old(T()), old(S()), T(), S())
      ensures r.None? ==> T() == old(T()) && S() == old(S()) && old(pmm.freePages) == 0
      ensures r.Some? ==> Vacant(old(T()), Pos(r.value, 0, 0)) && Pos(r.value, 0, 0) !in old(at)
      ensures r.Some? ==> at == old(at)[Pos(r.value, 0, 0) := r.value] && roots == old(roots) + {Pos(r.value, 0, 0)}
      ensures r.Some? ==> (forall c :: Ent(T(), c) == old(Ent(T(), c))) && Flat(T()) == old(Flat(T()))
    {
      hide TreeOk, Ent, Flat, Acct, Consistent, InUse, IsData, Unclaimed, Keeps, Fresh, Vacant, Tops;
      ghost var t, s := T(), S();
      r := Take(0);
      if r.None? {
        return;
      }
      var f := r.value;
      ghost var d := Pos(f, 0, 0);
      SoleHandle(pmm.layout, t, S(), held, f);
      FreshSpace(t, f);
      VacantTop(t, d);
      AddTableOk(t, d, f);
      AddTableAcct(pmm.layout, t, S(), held, d, f);
      assert held - multiset{f} == old(held);
      AddTableKeeps(t, S(), old(held), d, f);
      mem := mem[f := Table(EmptyTable())];
      at, roots, held := at[d := f], roots + {d}, held - multiset{f};
      assert T() == AddTable(t, d, f);
      KeepsTrans(held, t, s, t, S(), T(), S());
    }

    /** The failure path of vmm_space_create: destroy the first `n` copies and the top table. */
    method UndoCreate(f: Frame, n: nat, ghost t0: Tree, ghost s0: State)
      requires Sound() && n <= 256 && f != kernel && Cloned(t0, T(), Pos(kernel, 0, 0), f, n)
      requires Vacant(t0, Pos(f, 0, 0))
      requires TreeOk(t0) && EntriesOk(t0) && Pos(f, 0, 0) in at && at[Pos(f, 0, 0)] == f
      requires t0.kernel == kernel && Keeps(held, t0, s0, T(), S()) && Flat(T()) == Flat(t0)
      modifies this`at, this`roots, this`held, pmm, pmm.used, pmm.refs
      ensures Sound() && held == old(held) && Keeps(held, t0, s0, T(), S()) && Flat(T()) == Flat(t0)
      ensures at == t0.at && roots == t0.roots && forall c :: Ent(T(), c) == Ent(t0, c)
    {
      hide TreeOk, Ent, Flat, Acct, Consistent, Keeps, EntriesOk, Whole, NoUsers, Vacant, Cloned, Without, Shrinks,
        Pending, Removed, Disband;
      ghost var t, s, p, d := T(), S(), Pos(kernel, 0, 0), Pos(f, 0, 0);
      assert d == In(p, f);
      RootsAt(t0);
      KernelNoUsers(t0);
      CloneWhole(t0, t, p, f, n);
      ClonedEntries(t0, t, p, f, n);
      CloneNoUsers(t0, t, p, f, n);
      CloneRest(t0, t, p, f, n);
      DestroyTop(f, n);
      CloneUndone(t0, t, p, f, n);
      WithoutMem(t, d);
      FlatSame(t0, T());
      SameMemShrinks(held, t, s, T(), S());
      KeepsTrans(held, t0, s0, t, s, T(), S());
    }

    /** Free the tables below the first `n` entries of a top table, then the table. */
    method DestroyTop(f: Frame, n: nat)
      requires Sound() && EntriesOk(T()) && n <= 256 && Pos(f, 0, 0) in roots && Pos(f, 0, 0) in at
      requires at[Pos(f, 0, 0)] == f
      requires Whole(T(), Pos(f, 0, 0)) && NoUsers(T(), Pos(f, 0, 0)) && f != kernel
      requires forall j | n <= j < 512 :: Ent(T(), Child(Pos(f, 0, 0), j)) == ABSENT
      modifies this`at, this`roots, this`held, pmm, pmm.used, pmm.refs
      ensures Sound() && held == old(held) && T() == Without(old(T()), Pos(f, 0, 0)) && Shrinks(old(S()), S())
    {
      hide TreeOk, Ent, Flat, Acct, Consistent, Keeps, EntriesOk, Whole, Pending, Removed, Without, Shrinks, Disband,
        NoUsers, Child, Shape, Has;
      ghost var t0, p := T(), Pos(f, 0, 0);
      ghost var h := Give(pmm.layout, held, f);
      ShrinksRefl(S());
      DisbandPending(pmm.layout, t0, S(), held, p);
      FreeFacts(pmm.layout, t0, S(), held, f);
      RemovedStart(t0, p);
      ShapeAt(t0, p);
      at, roots, held := Disband(t0, p).at, Disband(t0, p).roots, Pending(t0, p, 0, h);
      DisbandMem(t0, p);
      assert T() == Removed(t0, p, 0);
      var j := 0;
      while j < n
        invariant 0 <= j <= n && Sound() && T() == Removed(t0, p, j) && held == Pending(t0, p, j, h)
        invariant Shrinks(old(S()), S())
      {
        ghost var c, s := Child(p, j), S();
        SlotHas(t0, p, j);
        ReadEnt(t0, c);
        TopEntry(t0, c);
        ShrinksRefl(s);
        NoUsersChild(t0, p, j);
        var entry := mem[f].entries[j];
        if entry.present {
          DestroyLinkStep(t0, p, j, h);
          RemovedEntries(t0, p, j);
          DestroyClonedTables(entry.frame, 3, c);
        } else {
          DestroyLeafStep(t0, p, j, h);
        }
        ShrinksTrans(old(S()), s, S());
        j := j + 1;
      }
      DestroyRest(t0, p, n, h);
      RemovedEnd(t0, p);
      ghost var s := S();
      PendingEnd(t0, p, h);
      Free(f);
      ShrinksTrans(old(S()), s, S());
    }

    /** The last loop of vmm_space_create: the upper half repeats the kernel's top-level entries. */
    method CopyUpperHalf(f: Frame)
      requires Sound() && Pos(f, 0, 0) in at && f != kernel && Pos(kernel, 0, 0) in at
      modifies this`mem
      ensures Sound() && Keeps(held, old(T()), S(), T(), S()) && Flat(T()) == old(Flat(T()))
      ensures forall c :: Ent(T(), c) == old(Ent(T(), c))
      ensures SharesUpper(T(), f)
    {
      hide TreeOk, Ent, Flat, Acct, Consistent, Keeps;
      ghost var t0 := T();
      GrownRefl(held, t0, S(), Pos(0, 4, 0));
      RootAt(t0, f);
      RootAt(t0, kernel);
      ShapeAt(t0, Pos(f, 0, 0));
      ShapeAt(t0, Pos(kernel, 0, 0));
      var i := 256;
      while i < 512
        invariant 256 <= i <= 512 && Sound() && Keeps(held, t0, S(), T(), S()) && Flat(T()) == Flat(t0)
        invariant forall c :: Ent(T(), c) == Ent(t0, c)
        invariant IsTable(T(), f) && IsTable(T(), kernel)
        invariant forall j | 256 <= j < i :: mem[f].entries[j] == mem[kernel].entries[j]
      {
        ghost var t := T();
        WriteUpper(pmm.layout, t, S(), held, f, i, mem[kernel].entries[i]);
        mem := mem[f := Table(mem[f].entries[i := mem[kernel].entries[i]])];
        KeepsTrans(held, t0, S(), t, S(), T(), S());
        i := i + 1;
      }
    }

    /** One round of the loop of vmm_space_create over the kernel's lower-half entries. */
    method CloneTopEntry(f: Frame, i: nat, ghost t0: Tree, ghost s0: State) returns (ok: bool)
      requires Sound() && i < 256 && f != kernel && t0.kernel == kernel && Pos(kernel, 0, 0) in t0.at
      requires t0.roots <= t0.at.Keys
      requires TreeOk(t0) && EntriesOk(t0) && Whole(t0, Pos(kernel, 0, 0)) && NoUsers(t0, Pos(kernel, 0, 0))
      requires Vacant(t0, Pos(f, 0, 0))
      requires Cloned(t0, T(), Pos(kernel, 0, 0), f, i) && Keeps(held, t0, s0, T(), S()) && Flat(T()) == Flat(t0)
      requires Pos(f, 0, 0) in at && at[Pos(f, 0, 0)] == f && roots == t0.roots + {Pos(f, 0, 0)}
      modifies this, pmm, pmm.used, pmm.refs
      ensures Sound() && held == old(held) && Keeps(held, t0, s0, T(), S()) && Flat(T()) == Flat(t0)
      ensures Cloned(t0, T(), Pos(kernel, 0, 0), f, if ok then i + 1 else i)
      ensures Pos(f, 0, 0) in at && at[Pos(f, 0, 0)] == f && roots == old(roots)
      ensures !ok ==> old(pmm.freePages) < |Part(old(T()), Child(Pos(kernel, 0, 0), i), 512)|
    {
      hide TreeOk, Ent, Flat, Acct, Consistent, Keeps, EntriesOk, Whole, NoUsers, Vacant, Cloned, Child, Part;
      ghost var t, s, p, d := T(), S(), Pos(kernel, 0, 0), Pos(f, 0, 0);
      assert In(p, f) == d;
      CloneSlot(t0, t, p, f, i);
      RootAt(t, kernel);
      ParentOfChild(p, i);
      ParentOfChild(d, i);
      ReadEnt(t, Child(p, i));
      TopEntry(t0, Child(p, i));
      var entry := mem[kernel].entries[i];
      if !entry.present {
        CloneLeafDone(t0, t, t, p, f, i);
        return true;
      }
      CloneReady(t0, t, p, f, i);
      ClonedEntries(t0, t, p, f, i);
      var child := CloneTable(entry.frame, 3, Child(p, i), f);
      KeepsTrans(held, t0, s0, t, s, T(), S());
      if child.None? {
        ClonedSame(t0, t, T(), p, f, i);
        return false;
      }
      ghost var t2, s2 := T(), S();
      CloneLinkReady(t, t2, p, f, i);
      AttachTable(f, i, entry.(frame := child.value), Child(d, i));
      SlotTable(t0, p, i);
      CloneLinkRoots(t0, t, p, f, i);
      CloneLinkDone(t0, t, t2, T(), p, f, i);
      KeepsTrans(held, t0, s0, t2, s2, T(), S());
      return true;
    }

    /** vmm_space_create: a new space with copies of the kernel's lower-half tables, or no change.
        `heapFull` stands for the kernel heap refusing the space record. */
    method CreateSpace(heapFull: bool) returns (r: Option<Frame>)
      requires Sound() && FlagsOk(T()) && Tops(roots) && Pos(kernel, 0, 0) in roots
      modifies this, pmm, pmm.used, pmm.refs
      ensures Sound() && FlagsOk(T()) && Tops(roots) && held == old(held) && Flat(T()) == old(Flat(T()))
      ensures Keeps(held, old(T()), old(S()), T(), S())
      ensures r.None? ==> at == old(at) && roots == old(roots) && forall c :: Ent(T(), c) == old(Ent(T(), c))
      ensures r.Some? ==> Pos(r.value, 0, 0) !in old(at) && roots == old(roots) + {Pos(r.value, 0, 0)}
      ensures r.Some? ==> Cloned(old(T()), T(), Pos(kernel, 0, 0), r.value, 256) && SharesUpper(T(), r.value)
      ensures r.None? ==> heapFull || old(pmm.freePages) < |Part(old(T()), Pos(kernel, 0, 0), 256)|
      ensures r.None? ==> SameSupply(old(S()), S())
    {
      hide TreeOk, Ent, Flat, Acct, Consistent, Keeps, FlagsOk, EntriesOk, Whole, NoUsers, Vacant, Cloned, Child, Part,
        SharesUpper;
      ghost var t0, s0, p := T(), S(), Pos(kernel, 0, 0);
      GrownRefl(held, t0, s0, Pos(0, 4, 0));
      if heapFull {
        return None;
      }
      RootsAt(t0);
      FlagsEntries(t0);
      KernelNoUsers(t0);
      TopsWhole(t0, p);
      PartSelf(t0, p, 256);
      r := NewRoot();
      if r.None? {
        return;
      }
      var f := r.value;
      ghost var d := Pos(f, 0, 0);
      assert In(p, f) == d;
      CloneStart(t0, T(), p, f);
      var i := 0;
      while i < 256
        invariant 0 <= i <= 256 && Sound() && held == old(held) && Cloned(t0, T(), p, f, i)
        invariant Keeps(held, t0, s0, T(), S()) && Flat(T()) == Flat(t0)
        invariant d in at && at[d] == f && f != kernel && roots == t0.roots + {d}
      {
        ghost var t, s := T(), S();
        var ok := CloneTopEntry(f, i, t0, s0);
        if !ok {
          CloneShort(pmm.layout, t0, s0, t, s, held, p, f, i, 256);
          UndoCreate(f, i, t0, s0);
          FlagsSame(t0, T());
          SupplySame(pmm.layout, t0, s0, T(), S(), held);
          return None;
        }
        i := i + 1;
      }
      ghost var t, s := T(), S();
      RootsAt(t);
      CopyUpperHalf(f);
      ClonedSame(t0, t, T(), p, f, 256);
      ClonedFlags(t0, T(), p, f, 256);
      KeepsTrans(held, t0, s0, t, s, T(), S());
    }

    /** Rewrite the flags of a user leaf. */
    method WriteLeafFlags(table: Frame, slot: nat, entry: Entry, ghost q: Pos)
      requires Sound() && FlagsOk(T()) && q in Flat(T()) && at[Parent(q)] == table && Slot(q) == slot && Has(T(), q)
      requires entry.present && entry.user && entry.frame == Flat(T())[q].frame && EntryOk(kernel, q, entry)
      modifies this`mem
      ensures Sound() && FlagsOk(T()) && Keeps(held, old(T()), S(), T(), S()) && Flat(T()) == old(Flat(T()))[q := entry]
      ensures forall c :: Ent(T(), c) == if c == q then entry else old(Ent(T(), c))
    {
      hide TreeOk, Ent, Flat, Acct, Consistent, Keeps, FlagsOk, Shape;
      ghost var t := T();
      ShapeOf(t);
      ReplaceLeaf(pmm.layout, t, S(), held, q, entry);
      mem := mem[table := Table(mem[table].entries[slot := entry])];
      assert T() == SetEnt(t, q, entry);
      ReplaceLeafFlags(t, T(), q, entry);
    }

    /** protect_user_mappings_cow: every writable user page below `p` becomes copy-on-write. */
    method ProtectUserMappings(table: Frame, level: nat, ghost p: Pos)
      requires Sound() && FlagsOk(T()) && p in at && at[p] == table && 1 <= level <= 4 && p.depth == 4 - level
      requires Whole(T(), p) && p.root != kernel
      modifies this`mem
      ensures Sound() && FlagsOk(T()) && Protected(old(T()), T(), p, 512) && Keeps(held, old(T()), S(), T(), S())
      ensures forall c | c in old(Flat(T())) :: c in Flat(T()) && Flat(T())[c].frame == old(Flat(T()))[c].frame
      decreases level
    {
      hide TreeOk, Ent, Flat, Acct, Consistent, Keeps, FlagsOk, Whole, Protected, Child, Slot;
      ghost var t0 := T();
      GrownRefl(held, t0, S(), Pos(0, 4, 0));
      ProtectStart(t0, p);
      TopPrefix(t0, p);
      var i := 0;
      while i < 512 && !(level == 4 && i >= 256)
        invariant 0 <= i <= 512 && (level == 4 ==> i <= 256) && Sound() && FlagsOk(T()) && Protected(t0, T(), p, i)
        invariant Keeps(held, t0, S(), T(), S())
        invariant forall c | c in Flat(t0) :: c in Flat(T()) && Flat(T())[c].frame == Flat(t0)[c].frame
      {
        ghost var c, t := Child(p, i), T();
        SlotHas(t, p, i);
        ReadEnt(t, c);
        ProtectSlot(t0, t, p, i);
        ChildDepth(p, i);
        var entry := mem[table].entries[i];
        if level == 1 {
          CowLeaf(t, c);
          if entry.present && entry.user && entry.writable {
            var protected := entry.(writable := false, cow := true);
            WriteLeafFlags(table, i, protected, c);
            KeepsFrames(held, t0, t, T(), S());
          }
          ProtectLeafStep(t0, t, T(), p, i);
        } else if entry.present && !entry.large {
          ProtectWhole(t0, t, p, i);
          ProtectUserMappings(entry.frame, level - 1, c);
          ProtectLinkStep(t0, t, T(), p, i);
          KeepsFrames(held, t0, t, T(), S());
        } else {
          ProtectSkipStep(t0, t, p, i);
        }
        i := i + 1;
      }
      if level == 4 {
        UpperHalf(t0, p);
        ProtectRest(t0, T(), p, i);
      }
    }

    /** One page of a fork: take a reference for the child and map the frame there, or take nothing. */
    method ShareLeaf(child: Frame, va: nat, entry: Entry, ghost q: Pos) returns (ok: bool)
      requires Sound() && FlagsOk(T()) && Tops(roots) && Pos(child, 0, 0) in roots && child != kernel
      requires q in Flat(T()) && Flat(T())[q] == entry && InLower(q) && q.depth == 4 && va == q.prefix * 4096
      modifies this, pmm, pmm.used, pmm.refs
      ensures Sound() && FlagsOk(T()) && held == old(held) && roots == old(roots)
      ensures SameElsewhere(old(T()), T(), child) && KeepsData(held, old(T()), T())
      ensures ok ==> In(q, child) !in old(Flat(T())) && Flat(T()) == old(Flat(T()))[In(q, child) := CowOf(entry)]
      ensures ok ==> SameUse(entry, Flat(T())[In(q, child)])
      ensures if ok then Mapped(old(T()), T(), In(q, child), CowOf(entry))
              else Flat(T()) == old(Flat(T())) && ShareFails(old(T()), old(S()), q, child)
    {
      hide TreeOk, Ent, Flat, Acct, Consistent, Keeps, FlagsOk, Tops, IsData, SameElsewhere, KeepsData, Mapped, EntryOk,
        Canonical, Translate, UnderLarge, Leaf, MapAllowed, InLower, Shape, PageOf;
      ghost var t, h := T(), held;
      CowLeaf(t, q);
      UserCounted(pmm.layout, t, S(), held, q);
      RetainUser(pmm.layout, t, S(), held, q);
      FrameAddress(entry.frame);
      GiveAndTake(held, entry.frame);
      KeepsDataRefl(held, t);
      SameIsElsewhere(t, t, child);
      var retained := pmm.RetainPage(entry.frame * PAGE_SIZE);
      if !retained {
        return false;
      }
      held := held + multiset{entry.frame};
      PageAddress(q, child);
      ghost var s := S();
      var flags := Flags(false, true, false, false, entry.cow || entry.writable, entry.nx);
      assert LeafEntry(entry.frame, flags) == CowOf(entry);
      CowUse(t, q);
      ShareAllowed(kernel, child, q, entry.frame * PAGE_SIZE, flags);
      if Translate(t, In(q, child)).None? {
        NothingThere(t, In(q, child));
      }
      ok := MapPage(child, va, entry.frame * PAGE_SIZE, flags);
      ghost var t1, s1 := T(), S();
      KeepsLess(h, h + multiset{entry.frame}, t, s, t1, s1);
      KeepsGivesData(h, t, s, t1, s1);
      if !ok {
        FlagsSame(t, t1);
        FlatSame(t, t1);
        SameIsElsewhere(t, t1, child);
        Free(entry.frame);
        return;
      }
      LeafIsEnt(t, In(q, child));
      MappedFlat(t, t1, In(q, child), CowOf(entry));
      ShapeOf(t);
      CowEntryOk(kernel, q, entry, child);
      MappedFlags(t, t1, In(q, child), CowOf(entry));
      MappedElsewhere(t, t1, In(q, child), CowOf(entry));
    }

    /** clone_user_mappings_cow: share every user page below `p` with the child. */
    method CloneUserMappings(child: Frame, table: Frame, level: nat, prefix: nat, ghost p: Pos, ghost t1: Tree,
                             ghost s1: State)
      returns (ok: bool)
      requires Sound() && FlagsOk(T()) && Tops(roots) && Pos(child, 0, 0) in roots && child != kernel && p.root != child
      requires p in at && at[p] == table && 1 <= level <= 4 && p.depth == 4 - level && Whole(T(), p) && p.root != kernel
      requires InLower(p) && prefix == BaseOf(p) && Unfilled(Flat(T()), p, child)
      requires TreeOk(t1) && Tops(t1.roots) && Consistent(pmm.layout, s1) && Acct(pmm.layout, t1, s1, held)
      requires Filling(t1, T(), p.root, child)
      modifies this, pmm, pmm.used, pmm.refs
      ensures Sound() && FlagsOk(T()) && held == old(held) && roots == old(roots)
      ensures SameElsewhere(old(T()), T(), child) && KeepsData(held, old(T()), T())
      ensures forall c | c in old(Flat(T())) :: c in Flat(T()) && Flat(T())[c] == old(Flat(T()))[c]
      ensures ok ==> Copied(old(Flat(T())), Flat(T()), p, child, 512) && Filling(t1, T(), p.root, child)
      ensures !ok ==> FillShort(t1, s1, p.root, child) || LargeUser(T())
      decreases level
    {
      hide TreeOk, Ent, Flat, Acct, Consistent, Keeps, FlagsOk, Tops, SameElsewhere, KeepsData, Whole, Child, Copied,
        Unfilled, InLower, BaseOf, EntryAddress, Filling, FillShort, LargeUser, ShareFails, Mapped;
      ghost var t0, m0 := T(), Flat(T());
      SameIsElsewhere(t0, t0, child);
      KeepsDataRefl(held, t0);
      CopyStart(m0, p, child);
      TopPrefix(t0, p);
      FlatDepth(t0);
      var i := 0;
      while i < 512 && !(level == 4 && i >= 256)
        invariant 0 <= i <= 512 && (level == 4 ==> i <= 256)
        invariant Sound() && FlagsOk(T()) && held == old(held) && roots == old(roots)
        invariant SameElsewhere(t0, T(), child) && KeepsData(held, t0, T())
        invariant Copied(m0, Flat(T()), p, child, i) && Filling(t1, T(), p.root, child)
      {
        ghost var c, t, s := Child(p, i), T(), S();
        ElsewhereSlot(t0, t, child, p, i);
        SlotHas(t, p, i);
        ReadEnt(t, c);
        ChildDepth(p, i);
        EntryAddressOk(p, i, level);
        CopiedKeeps(m0, Flat(t), p, child, i);
        CopyUnfilled(m0, Flat(t), p, child, i);
        var entry := mem[table].entries[i];
        var address := EntryAddress(prefix, i, level);
        if !entry.present || (level > 1 && entry.large) || (level == 1 && !entry.user) {
          if entry.present && level > 1 && entry.large && entry.user {
            LargeUserAt(t, c);
            return false;
          }
          PageAt(t0, c);
          NoPageBelow(t0, p, i);
          CopySkipStep(m0, Flat(t), p, child, i);
        } else if level > 1 {
          ElsewhereWhole(t0, t, child, p, i);
          ChildRoot(p, i);
          ok := CloneUserMappings(child, entry.frame, level - 1, address, c, t1, s1);
          ForkStep(held, t0, t, T(), child);
          if !ok {
            return;
          }
          CopyLinkStep(m0, Flat(t), Flat(T()), p, child, i);
        } else {
          PageAt(t, c);
          PageAt(t0, c);
          ChildRoot(p, i);
          FillSource(t1, t, p.root, child, c);
          UnfilledHere(Flat(t), c, child);
          ok := ShareLeaf(child, address, entry, c);
          ForkStep(held, t0, t, T(), child);
          if !ok {
            ShareShort(pmm.layout, t1, s1, t, s, held, p.root, child, c);
            return;
          }
          FillStep(t1, t, T(), p.root, child, c, CowOf(entry));
          CopyPageStep(m0, Flat(t), Flat(T()), p, child, i);
        }
        i := i + 1;
      }
      if level == 4 {
        UpperHalf(t0, p);
        CopyRest(t0, Flat(T()), p, child, i);
      }
      CopiedKeeps(m0, Flat(T()), p, child, 512);
      return true;
    }

    /** vmm_space_clone_cow: a child that maps the parent's frames copy-on-write, or no change. */
    method CloneSpaceCow(space: Frame, heapFull: bool) returns (r: Option<Frame>)
      requires Sound() && FlagsOk(T()) && Tops(roots) && Pos(kernel, 0, 0) in roots && Exclusive(T(), S())
      requires Pos(space, 0, 0) in roots && space != kernel
      modifies this, pmm, pmm.used, pmm.refs
      ensures Sound() && FlagsOk(T()) && Tops(roots) && held == old(held) && Exclusive(T(), S())
      ensures KeepsData(held, old(T()), T())
      ensures r.None? ==> at == old(at) && roots == old(roots) && forall c :: Ent(T(), c) == old(Ent(T(), c))
      ensures r.Some? ==> Pos(r.value, 0, 0) !in old(at) && roots == old(roots) + {Pos(r.value, 0, 0)}
      ensures r.Some? ==> Forked(old(Flat(T())), Flat(T()), space, r.value)
      ensures r.Some? ==> SharedBy(old(Flat(T())), Flat(T()), space, r.value)
      ensures r.Some? ==> ForkedTables(old(T()), T(), space, r.value)
      ensures r.None? ==> heapFull || ForkShort(old(T()), old(S()), space)
      ensures r.None? ==> SameSupply(old(S()), S())
    {
      hide TreeOk, Ent, Flat, Acct, Consistent, Keeps, FlagsOk, SameElsewhere, KeepsData, Whole, Copied, Unfilled,
        Cloned, Exclusive, Protected, Forked, SharedBy, Without, Shrinks, EntriesOk, Filling, FillShort, Tops,
        LargeUser, ForkedTables;
      ghost var t0, s0, p := T(), S(), Pos(space, 0, 0);
      r := CreateSpace(heapFull);
      KeepsGivesData(held, t0, s0, T(), S());
      if r.None? {
        SameExclusive(pmm.layout, t0, s0, T(), S(), held);
        return;
      }
      var child := r.value;
      ghost var t1, s1 := T(), S();
      FillStart(t1, space, child);
      RootsAt(t0);
      RootsAt(t1);
      RootAt(t1, space);
      TopsWhole(t1, p);
      NoPagesIn(t0, child, p);
      var ok := CloneUserMappings(child, space, 4, 0, p, t1, s1);
      ghost var t2 := T();
      KeepsDataTrans(held, t0, t1, t2);
      if !ok {
        ghost var s2 := S();
        NoLargeUser(t2);
        ForkFails(pmm.layout, t0, s0, t1, s1, held, space, child);
        FlagsEntries(t2);
        DestroySpace(child);
        ForkUndone(t0, t1, t2, child);
        WithoutMem(t2, Pos(child, 0, 0));
        SameMemShrinks(held, t2, s2, T(), S());
        KeepsGivesData(held, t2, s2, T(), S());
        KeepsDataTrans(held, t0, t2, T());
        FlagsSame(t0, T());
        FlatSame(t0, T());
        SameExclusive(pmm.layout, t0, s0, T(), S(), held);
        SupplySame(pmm.layout, t0, s0, T(), S(), held);
        return None;
      }
      RootsAt(t2);
      RootAt(t2, space);
      TopsWhole(t2, p);
      ProtectUserMappings(space, 4, p);
      KeepsGivesData(held, t2, S(), T(), S());
      KeepsDataTrans(held, t0, t2, T());
      ProtectedRoots(t2, T(), p, 512);
      ForkTables(t0, t1, t2, T(), space, child);
      ForkDone(t0, t2, T(), space, child);
      ShapeOf(T());
      CowExclusive(pmm.layout, t0, s0, T(), S(), held, space, child);
    }

    /** vmm_space_query: the frame and the effective permissions of a page, from the walk's running
        conjunction of the entries on the way. */
    method Query(space: Frame, va: nat) returns (r: Option<Mapping>, physical: nat)
      requires Sound() && FlagsOk(T()) && Tops(roots) && Pos(space, 0, 0) in roots
      requires va >= UPPER_START ==> space == kernel
      ensures r == if Canonical(va) then Translate(T(), PageOf(space, va)) else None
      ensures r.Some? ==> physical == r.value.frame * PAGE_SIZE + va % PAGE_SIZE
    {
      hide TreeOk, Ent, Flat, Acct, Consistent, Up, PageOf, Index, Tops, FlagsOk, Canonical, Leaf, Translate, EntriesOk;
      physical := 0;
      if !Canonical(va) {
        return None, 0;
      }
      ghost var q, t := PageOf(space, va), T();
      OwnedPage(kernel, space, va);
      RootsAt(t);
      WalkSlot(space, va, 0);
      RootAt(t, space);
      var table := space;
      var writable, user, nx := true, true, false;
      var level := 0;
      while level < 4
        invariant 0 <= level <= 3 && writable && !nx
        invariant Up(q, 4 - level) in at && at[Up(q, 4 - level)] == table
        invariant user <==> PathUser(t, q, level)
        invariant forall j | 3 - level < j <= 3 :: Linked(Ent(t, Up(q, j)))
        decreases 4 - level
      {
        ghost var c := Up(q, 3 - level);
        WalkSlot(space, va, level);
        ReadEnt(t, c);
        EntryFlags(t, c);
        var entry := mem[table].entries[Index(va, level)];
        if !entry.present || (level == 0 && entry.large) {
          QueryMiss(t, q, 3 - level);
          return None, 0;
        }
        user := user && entry.user;
        writable := writable && entry.writable;
        nx := nx || entry.nx;
        PathUserStep(t, q, level);
        if level == 3 || entry.large {
          LeafAt(t, c);
          QueryHit(t, q, 3 - level);
          PathUserLeaf(t, q, level);
          PhysicalAddress(entry, space, va, level + 1);
          TranslateAt(t, q, c);
          var size := PAGE_SIZE * Span(level + 1);
          physical := entry.frame * PAGE_SIZE - entry.frame * PAGE_SIZE % size + va % size;
          var frame := entry.frame - entry.frame % Span(level + 1) + PageOf(space, va).prefix % Span(level + 1);
          return Some(Mapping(frame, writable, user, entry.cow, nx)), physical;
        }
        table := entry.frame;
        level := level + 1;
      }
    }
  }
}
