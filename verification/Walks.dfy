/** Addresses, and the walks that map, roll back, unmap and prune: lemmas on table trees as values. */
module Walks {
  import opened Pmm
  import opened Paging
  import opened Accounts
  import opened Translation

  const LOWER_END: nat := 0x8000_0000_0000
  const UPPER_START: nat := 0xFFFF_8000_0000_0000
  const ADDRESS_END: nat := 0x1_0000_0000_0000_0000

  datatype Flags = Flags(writable: bool, user: bool, writeThrough: bool, cacheDisable: bool, cow: bool, nx: bool)

  predicate Canonical(va: nat) {
    va / 0x1_0000_0000_0000 == if va / 0x8000_0000_0000 % 2 == 1 then 0xFFFF else 0
  }

  /** The two halves of the 48-bit address space. */
  lemma CanonicalIs(va: nat)
    requires va < ADDRESS_END
    ensures Canonical(va) <==> va < LOWER_END || va >= UPPER_START
  {
  }

  /** The leaf position of the page that holds address `va`. */
  function PageOf(space: Frame, va: nat): (q: Pos)
    ensures q.root == space && q.depth == 4
  {
    Pos(space, 4, va / 4096 % 68719476736)
  }

  /** Table index of `va`, from level 0 (top) to 3. */
  function Index(va: nat, level: nat): nat
    requires level < 4
  {
    va / (if level == 0 then 0x80_0000_0000 else if level == 1 then 0x4000_0000 else if level == 2 then 0x20_0000
      else 4096) % 512
  }

  /** Splitting a number at a multiple of 512 splits its quotient by 512. */
  lemma Quotient(x: nat, k: nat, m: nat, y: nat)
    requires x == k * (512 * m) + y
    ensures x / 512 == k * m + y / 512 && x % 512 == y % 512
  {
    assert k * (512 * m) == 512 * (k * m);
    assert x == 512 * (k * m + y / 512) + y % 512;
  }

  lemma IndexDigits(va: nat)
    ensures Index(va, 3) == va / 4096 % 512
    ensures Index(va, 2) == va / 4096 / 512 % 512
    ensures Index(va, 1) == va / 4096 / 512 / 512 % 512
    ensures Index(va, 0) == va / 4096 / 512 / 512 / 512 % 512
  {
    DivLarge(va);
    DivHuge(va);
    DivTop(va);
  }

  lemma DivLarge(va: nat)
    ensures va / 0x20_0000 == va / 4096 / 512
  {
  }

  lemma DivHuge(va: nat)
    ensures va / 0x4000_0000 == va / 4096 / 512 / 512
  {
    DivLarge(va);
    var b := va / 0x20_0000;
    assert va == 0x20_0000 * b + va % 0x20_0000 && b == 512 * (b / 512) + b % 512;
  }

  lemma DivTop(va: nat)
    ensures va / 0x80_0000_0000 == va / 4096 / 512 / 512 / 512
  {
    DivHuge(va);
    var c := va / 0x4000_0000;
    assert va == 0x4000_0000 * c + va % 0x4000_0000 && c == 512 * (c / 512) + c % 512;
  }

  /** The walk's four indices are the slots of the positions above the page. */
  lemma IndexIsSlot(space: Frame, va: nat)
    ensures Index(va, 3) == Slot(PageOf(space, va))
    ensures Index(va, 2) == Slot(Up(PageOf(space, va), 1))
    ensures Index(va, 1) == Slot(Up(PageOf(space, va), 2))
    ensures Index(va, 0) == Slot(Up(PageOf(space, va), 3))
    ensures Up(PageOf(space, va), 4) == Pos(space, 0, 0)
  {
    hide Index;
    IndexDigits(va);
    var q := PageOf(space, va);
    var x := va / 4096;
    var k := x / 68719476736;
    var y := q.prefix;
    assert x == k * (512 * 134217728) + y;
    Quotient(x, k, 134217728, y);
    Quotient(x / 512, k, 262144, y / 512);
    Quotient(x / 512 / 512, k, 512, y / 512 / 512);
    Quotient(x / 512 / 512 / 512, k, 1, y / 512 / 512 / 512);
    assert Up(q, 1) == Pos(space, 3, y / 512);
    assert Up(q, 2) == Pos(space, 2, y / 512 / 512);
    assert Up(q, 3) == Pos(space, 1, y / 512 / 512 / 512);
    assert Up(q, 4) == Pos(space, 0, y / 512 / 512 / 512 / 512);
  }

  lemma WalkSlot(space: Frame, va: nat, level: nat)
    requires level < 4
    ensures Index(va, level) == Slot(Up(PageOf(space, va), 3 - level))
    ensures Up(PageOf(space, va), 4) == Pos(space, 0, 0)
    ensures Up(PageOf(space, va), 0) == PageOf(space, va)
    ensures Up(PageOf(space, va), 4 - level) == Parent(Up(PageOf(space, va), 3 - level))
    ensures level < 3 ==> OnPath(PageOf(space, va), Up(PageOf(space, va), 3 - level))
  {
    hide Index;
    IndexIsSlot(space, va);
  }

  function TableEntry(page: Frame, user: bool): Entry {
    Entry(true, true, user, false, false, false, false, false, page)
  }

  function LeafEntry(page: Frame, flags: Flags): Entry {
    Entry(true, flags.writable, flags.user, flags.writeThrough, flags.cacheDisable, false, flags.cow, flags.nx, page)
  }

  /** The entry maps the address and has each property that was asked for, and no other. */
  predicate AsAsked(e: Entry, pa: nat, flags: Flags) {
    && e.present && !e.large && e.frame * PAGE_SIZE == pa
    && (e.writable <==> flags.writable) && (e.user <==> flags.user) && (e.cow <==> flags.cow) && (e.nx <==> flags.nx)
    && (e.writeThrough <==> flags.writeThrough) && (e.cacheDisable <==> flags.cacheDisable)
  }

  lemma LeafAsAsked(t0: Tree, t: Tree, kernel: Frame, space: Frame, va: nat, pa: nat, flags: Flags)
    requires MapAllowed(kernel, space, va, pa, flags)
    requires Mapped(t0, t, PageOf(space, va), LeafEntry(pa / PAGE_SIZE, flags))
    ensures AsAsked(Leaf(t, PageOf(space, va)), pa, flags)
  {
    hide PageOf, Ent, Canonical;
    var q := PageOf(space, va);
    assert MappedEnt(t0, t, q, LeafEntry(pa / PAGE_SIZE, flags), q);
  }

  /** The entry of a new table restricts nothing: permissions belong to the leaves. */
  lemma TableEntryIs(page: Frame, user: bool)
    ensures AsAsked(TableEntry(page, user), page * PAGE_SIZE, Flags(true, user, false, false, false, false))
  {
  }

  /** A new table is linked below `c`'s parent: clear the frame, then write the entry. */
  function LinkNew(t: Tree, c: Pos, f: Frame, e: Entry): Tree
    requires Has(t, c) && IsTable(t, t.at[Parent(c)]) && t.at[Parent(c)] != f
  {
    Attach(AddTable(t, c, f), c, e)
  }

  lemma LinkNewOk(g: Layout, t: Tree, s: State, held: multiset<Frame>, c: Pos, f: Frame, e: Entry)
    requires TreeOk(t) && Acct(g, t, s, held) && f in held && Refs(s, f) == 1
    requires Has(t, c) && c.depth < 4 && c !in t.at && !Ent(t, c).present && Linked(e) && e.frame == f
    ensures IsTable(t, t.at[Parent(c)]) && t.at[Parent(c)] != f
    ensures TreeOk(LinkNew(t, c, f, e)) && Acct(g, LinkNew(t, c, f, e), s, held - multiset{f})
    ensures Keeps(held - multiset{f}, t, s, LinkNew(t, c, f, e), s)
    ensures LinkNew(t, c, f, e).roots == t.roots && Flat(LinkNew(t, c, f, e)) == Flat(t)
    ensures forall d :: Ent(LinkNew(t, c, f, e), d) == if d == c then e else Ent(t, d)
  {
    hide TreeOk, Ent, Flat, Acct, Shape, Keeps;
    RootsAt(t);
    SoleHandle(g, t, s, held, f);
    var t1 := AddTable(t, c, f);
    AddTableOk(t, c, f);
    ShapeAt(t, Parent(c));
    ShapeAt(t1, Parent(c));
    AddTableAcct(g, t, s, held, c, f);
    AddTableKeeps(t, s, held - multiset{f}, c, f);
    AttachOk(t1, c, e);
    LinkAcct(g, t1, s, held - multiset{f}, c, e, t1.roots - {c});
    KeepsTrans(held - multiset{f}, t, s, t1, s, Attach(t1, c, e), s);
  }

  lemma ShapeAt(t: Tree, p: Pos)
    requires TreeOk(t) && p in t.at
    ensures IsTable(t, t.at[p]) && p.depth <= 3
  {
  }

  /** Writing an entry above the last level, or a kernel leaf, moves no reference. */
  lemma LinkAcct(g: Layout, t: Tree, s: State, held: multiset<Frame>, c: Pos, e: Entry, rs: set<Pos>)
    requires Has(t, c) && IsTable(t, t.at[Parent(c)]) && Acct(g, t, s, held)
    requires Flat(SetEnt(t, c, e).(roots := rs)) == Flat(t)
    ensures Acct(g, SetEnt(t, c, e).(roots := rs), s, held)
    ensures Keeps(held, t, s, SetEnt(t, c, e).(roots := rs), s)
  {
    hide Flat, Users;
    SameOwnersAcct(g, t, SetEnt(t, c, e).(roots := rs), s, held);
  }

  /** Undoing LinkNew: clear the entry, and the frame is a plain handle again. */
  function Unlink(t: Tree, c: Pos): Tree
    requires Has(t, c) && IsTable(t, t.at[Parent(c)])
  {
    DropTable(Detach(t, c), c)
  }

  lemma UnlinkOk(g: Layout, t: Tree, s: State, held: multiset<Frame>, c: Pos)
    requires TreeOk(t) && Acct(g, t, s, held) && c in t.at && c !in t.roots && NoEntries(t, c)
    ensures Has(t, c) && IsTable(t, t.at[Parent(c)])
    ensures TreeOk(Unlink(t, c)) && Acct(g, Unlink(t, c), s, Give(g, held, t.at[c]))
    ensures Unlink(t, c).at == t.at - {c} && Unlink(t, c).roots == t.roots
    ensures Keeps(held, t, s, Unlink(t, c), s) && Flat(Unlink(t, c)) == Flat(t)
    ensures forall d :: Ent(Unlink(t, c), d) == if d == c then ABSENT else Ent(t, d)
  {
    hide Shape, InUse;
    DetachOk(t, c);
    var t1 := Detach(t, c);
    assert NoEntries(t1, c);
    assert Shape(t1);
    DropTableOk(t1, c);
    hide TreeOk, Ent, Flat, Acct, Shape;
    LinkAcct(g, t, s, held, c, ABSENT, t.roots + {c});
    RemoveTableAcct(g, t1, DropTable(t1, c), s, held, c);
    SameMemKeeps(held, t1, DropTable(t1, c), s);
    KeepsTrans(held, t, s, t1, s, DropTable(t1, c), s);
  }

  lemma SameMemKeeps(held: multiset<Frame>, t: Tree, t': Tree, s: State)
    requires t'.mem == t.mem
    ensures Keeps(held, t, s, t', s)
  {
  }

  /** Tables made on the way to `q`, from just below depth `lo` down to depth `hi`. */
  ghost predicate NewOnPath(t0: Tree, t: Tree, q: Pos, lo: nat, hi: nat)
    requires q.depth == 4
  {
    forall c :: c in t.at && c !in t0.at <==> lo < c.depth <= hi && OnPath(q, c)
  }

  /** One record of created_entries and created_pages. */
  datatype Created = Created(table: Frame, slot: nat, page: Frame)

  ghost predicate RecordOk(t: Tree, c: Pos, r: Created) {
    && c.depth > 0 && c in t.at && Parent(c) in t.at
    && r == Created(t.at[Parent(c)], Slot(c), t.at[c])
  }

  ghost predicate RecordsOk(t: Tree, q: Pos, lo: nat, created: seq<Created>)
    requires q.depth == 4 && lo + |created| <= 3
  {
    forall j | 0 <= j < |created| :: RecordOk(t, Up(q, 3 - lo - j), created[j])
  }

  /** No detached subtrees: every top is the top table of a space. */
  ghost predicate Tops(roots: set<Pos>) { forall p | p in roots :: p.depth == 0 }

  lemma GrownRefl(held: multiset<Frame>, t: Tree, s: State, q: Pos)
    requires q.depth == 4
    ensures Grown(t, t) && Keeps(held, t, s, t, s) && NewOnPath(t, t, q, 0, 0)
  {
  }

  lemma RootAt(t: Tree, space: Frame)
    requires TreeOk(t) && Pos(space, 0, 0) in t.at
    ensures t.at[Pos(space, 0, 0)] == space
  {
  }

  /** Reading slot `Slot(c)` of the table at `Parent(c)` reads the entry of `c`. */
  lemma ReadEnt(t: Tree, c: Pos)
    requires TreeOk(t) && Has(t, c)
    ensures IsTable(t, t.at[Parent(c)])
    ensures var e := t.mem[t.at[Parent(c)]].entries[Slot(c)]; Ent(t, c) == if e.present then e else ABSENT
    ensures c.depth < 4 && Linked(Ent(t, c)) ==> c in t.at && c !in t.roots && t.at[c] == Ent(t, c).frame
    ensures c.depth < 4 && !Ent(t, c).present && c in t.at ==> c in t.roots
  {
  }

  lemma ParentAt(t: Tree, c: Pos)
    requires TreeOk(t) && c in t.at && c !in t.roots
    ensures c.depth > 0 && Parent(c) in t.at
  {
  }

  lemma UpParent(q: Pos, k: nat)
    requires 0 < k <= q.depth
    ensures Up(q, k) == Parent(Up(q, k - 1))
  {
  }

  /** Below an absent entry there is no table. */
  lemma NewBelow(t: Tree, c: Pos)
    requires c.depth > 0
    requires TreeOk(t) && Ent(t, c) == ABSENT && Tops(t.roots)
    ensures c !in t.at
  {
    hide Ent, Shape;
  }

  /** Walking over an existing table means none has been made yet. */
  lemma WalkOld(t0: Tree, t: Tree, q: Pos, lo: nat, level: nat, c: Pos)
    requires q.depth == 4 && level < 3 && lo <= level && c == Up(q, 3 - level)
    requires TreeOk(t0) && Grown(t0, t) && NewOnPath(t0, t, q, lo, level)
    requires c in t.at && c !in t.roots
    ensures lo == level && NewOnPath(t0, t, q, level + 1, level + 1)
  {
    hide TreeOk, Ent;
    ParentAt(t0, c);
    assert Parent(c) == Up(q, 4 - level);
    assert 0 < level ==> OnPath(q, Parent(c));
  }

  lemma WalkNew(t0: Tree, t: Tree, t': Tree, q: Pos, lo: nat, level: nat, c: Pos, created: seq<Created>, r: Created)
    requires q.depth == 4 && level < 3 && lo + |created| == level && c == Up(q, 3 - level)
    requires Grown(t0, t) && NewOnPath(t0, t, q, lo, level) && RecordsOk(t, q, lo, created)
    requires c !in t.at && c in t'.at && t'.at == t.at[c := t'.at[c]] && t'.roots == t.roots && t'.kernel == t.kernel
    requires !Ent(t, c).present && OpenLink(Ent(t', c)) && forall d :: d != c ==> Ent(t', d) == Ent(t, d)
    requires RecordOk(t', c, r)
    ensures Grown(t0, t') && NewOnPath(t0, t', q, lo, level + 1) && RecordsOk(t', q, lo, created + [r])
  {
    hide Ent, OpenLink, Grown, NewOnPath;
    assert t'.at - {c} == t.at;
    assert c !in t0.at by { assert c in t0.at ==> c in t.at by { GrownAt(t0, t, c); } }
    GrownAdd(t0, t, t', c);
    WalkNewPath(t0, t, t', q, lo, level, c);
    forall j | 0 <= j < |created| + 1 ensures RecordOk(t', Up(q, 3 - lo - j), (created + [r])[j]) {
      if j < |created| {
        assert RecordOk(t, Up(q, 3 - lo - j), created[j]);
      }
    }
  }

  lemma GrownAt(t0: Tree, t: Tree, p: Pos)
    requires Grown(t0, t)
    ensures p in t0.at ==> p in t.at && t.at[p] == t0.at[p]
  {
  }

  lemma WalkNewPath(t0: Tree, t: Tree, t': Tree, q: Pos, lo: nat, level: nat, c: Pos)
    requires q.depth == 4 && lo <= level < 3 && c == Up(q, 3 - level)
    requires NewOnPath(t0, t, q, lo, level) && c !in t0.at && t'.at.Keys == t.at.Keys + {c}
    ensures NewOnPath(t0, t', q, lo, level + 1)
  {
    assert OnPath(q, c) && c.depth == level + 1;
    forall d ensures d in t'.at && d !in t0.at <==> lo < d.depth <= level + 1 && OnPath(q, d) {
      if d.depth == level + 1 && OnPath(q, d) {
        assert d == c;
      }
    }
  }

  lemma NoTableNoEnt(t: Tree, d: Pos)
    requires d.depth > 0 && Parent(d) !in t.at
    ensures Ent(t, d) == ABSENT
  {
  }

  /** The deepest table made on the way is still empty, so it can be taken back. */
  lemma RollbackEmpty(t0: Tree, t: Tree, q: Pos, lo: nat, hi: nat, c: Pos)
    requires q.depth == 4 && lo < hi <= 3 && c == Up(q, 4 - hi)
    requires Grown(t0, t) && NewOnPath(t0, t, q, lo, hi) && t0.roots <= t0.at.Keys
    ensures c in t.at && c !in t.roots && c !in t0.at && NoEntries(t, c)
  {
    hide Ent, Grown, NewOnPath, Up;
    GrownRoots(t0, t);
    NewLast(t0, t, q, lo, hi);
    forall d: Pos | d.depth > 0 && Parent(d) == c ensures !Ent(t, d).present {
      NoTableNoEnt(t0, d);
      GrownEnt(t0, t, d);
    }
  }

  lemma NewLast(t0: Tree, t: Tree, q: Pos, lo: nat, hi: nat)
    requires q.depth == 4 && lo < hi <= 3 && NewOnPath(t0, t, q, lo, hi)
    ensures var c := Up(q, 4 - hi);
      c in t.at && c !in t0.at && forall d: Pos | d.depth > 0 && Parent(d) == c :: !(d in t.at && d !in t0.at)
  {
    var c := Up(q, 4 - hi);
    assert OnPath(q, c);
    assert c.depth == hi;
  }

  lemma GrownRoots(t0: Tree, t: Tree)
    requires Grown(t0, t)
    ensures t.roots == t0.roots && t.kernel == t0.kernel
  {
  }

  lemma GrownEnt(t0: Tree, t: Tree, d: Pos)
    requires Grown(t0, t) && !(d in t.at && d !in t0.at)
    ensures Ent(t, d) == Ent(t0, d)
  {
  }

  lemma RollbackPath(t0: Tree, t: Tree, t': Tree, q: Pos, lo: nat, hi: nat, c: Pos)
    requires q.depth == 4 && lo < hi <= 3 && c == Up(q, 4 - hi)
    requires NewOnPath(t0, t, q, lo, hi) && c !in t0.at && t'.at == t.at - {c}
    ensures NewOnPath(t0, t', q, lo, hi - 1)
  {
    hide Up, OnPath;
    PathPlace(q, c, hi);
    forall d ensures d in t'.at && d !in t0.at <==> lo < d.depth <= hi - 1 && OnPath(q, d) {
      PathPlace(q, d, hi);
    }
  }

  /** The way to `q` has one place at each depth. */
  lemma PathPlace(q: Pos, d: Pos, k: nat)
    requires q.depth == 4 && 0 < k <= 3
    ensures OnPath(q, Up(q, 4 - k)) && Up(q, 4 - k).depth == k
    ensures OnPath(q, d) && d.depth == k ==> d == Up(q, 4 - k)
  {
  }

  lemma RollbackRecords(t: Tree, t': Tree, q: Pos, lo: nat, c: Pos, created: seq<Created>, n: nat)
    requires q.depth == 4 && lo + n + 1 <= 3 && n < |created| && c == Up(q, 3 - (lo + n)) && t'.at == t.at - {c}
    requires RecordsOk(t, q, lo, created[..n + 1])
    ensures RecordsOk(t', q, lo, created[..n])
    ensures RecordOk(t, c, created[n])
  {
    assert RecordOk(t, Up(q, 3 - lo - n), created[..n + 1][n]);
    forall j | 0 <= j < n ensures RecordOk(t', Up(q, 3 - lo - j), created[..n][j]) {
      assert RecordOk(t, Up(q, 3 - lo - j), created[..n + 1][j]);
    }
  }

  lemma RolledBack(t0: Tree, t: Tree, q: Pos, lo: nat)
    requires q.depth == 4 && Grown(t0, t) && NewOnPath(t0, t, q, lo, lo)
    ensures t.at == t0.at && t.roots == t0.roots && forall c :: Ent(t, c) == Ent(t0, c)
  {
    hide Ent;
    assert forall c :: c in t.at <==> c in t0.at;
  }

  lemma ShapeOf(t: Tree)
    requires TreeOk(t)
    ensures Shape(t)
  {
  }

  lemma RootsAt(t: Tree)
    requires TreeOk(t)
    ensures t.roots <= t.at.Keys
  {
  }

  lemma EntHas(t: Tree, c: Pos)
    ensures Ent(t, c).present ==> Has(t, c)
  {
  }

  /** The links down to depth `level` on the way to `q` have become user links. */
  ghost predicate Marked(t0: Tree, t: Tree, q: Pos, level: nat)
    requires q.depth == 4
  {
    forall d :: Ent(t, d) == if OnPath(q, d) && d.depth <= level then Ent(t0, d).(user := true) else Ent(t0, d)
  }

  lemma MarkNone(t: Tree, q: Pos)
    requires q.depth == 4
    ensures Marked(t, t, q, 0)
  {
  }

  lemma MarkUserStep(t0: Tree, t: Tree, t': Tree, q: Pos, c: Pos, level: nat)
    requires q.depth == 4 && level < 3 && c == Up(q, 3 - level) && Marked(t0, t, q, level)
    requires forall d :: Ent(t', d) == if d == c then Ent(t, c).(user := true) else Ent(t, d)
    ensures Marked(t0, t', q, level + 1)
  {
    hide Ent;
    forall d
      ensures Ent(t', d) == if OnPath(q, d) && d.depth <= level + 1 then Ent(t0, d).(user := true) else Ent(t0, d) {
      assert OnPath(q, d) && d.depth == level + 1 <==> d == c;
    }
  }

  lemma MarkedLink(t0: Tree, t: Tree, q: Pos, level: nat, c: Pos)
    requires q.depth == 4 && Marked(t0, t, q, level) && Linked(Ent(t0, c))
    ensures Linked(Ent(t, c)) && Has(t, c)
  {
    hide Ent;
    EntHas(t, c);
  }

  lemma LargeFound(t: Tree, q: Pos, c: Pos)
    requires q.depth == 4 && 0 < c.depth < 4 && c == Up(q, 4 - c.depth) && Ent(t, c).present && Ent(t, c).large
    ensures UnderLarge(t, q)
  {
    assert OnPath(q, c) && Leaf(t, c).present;
  }

  /** A large page covers `q`. */
  ghost predicate UnderLarge(t: Tree, q: Pos)
    requires q.depth == 4
  {
    exists c :: OnPath(q, c) && Leaf(t, c).present
  }

  /** Writing a leaf where none was: a user leaf takes over the caller's handle. */
  lemma PutNewLeaf(g: Layout, t: Tree, s: State, held: multiset<Frame>, q: Pos, e: Entry)
    requires TreeOk(t) && Acct(g, t, s, held) && Has(t, q) && q.depth == 4 && !Ent(t, q).present && e.present
    requires e.user ==> e.frame in held && IsData(t, e.frame)
    ensures IsTable(t, t.at[Parent(q)]) && TreeOk(SetEnt(t, q, e))
    ensures Acct(g, SetEnt(t, q, e), s, if e.user then held - multiset{e.frame} else held)
    ensures Keeps(held, t, s, SetEnt(t, q, e), s)
    ensures q !in Flat(t) && Flat(SetEnt(t, q, e)) == if e.user then Flat(t)[q := e] else Flat(t)
    ensures forall d :: Ent(SetEnt(t, q, e), d) == if d == q then e else Ent(t, d)
  {
    PutLeafOk(t, q, e);
    SetEntData(g, t, s, held, q, e);
    var t' := SetEnt(t, q, e);
    hide TreeOk, Ent, Acct, Flat, Users, Shape;
    FlatSet(t, t', q);
    if e.user {
      DataOf(g, t, s, held);
      InsertUserAcct(g, t, t', s, held, q, e);
    } else {
      assert Flat(t') == Flat(t);
      LinkAcct(g, t, s, held, q, e, t.roots);
    }
  }

  lemma DataOf(g: Layout, t: Tree, s: State, held: multiset<Frame>)
    requires Acct(g, t, s, held)
    ensures forall c | c in Flat(t) :: g.Managed(Flat(t)[c].frame) && IsData(t, Flat(t)[c].frame)
  {
  }

  /** Which requests map_page_locked considers at all. */
  predicate MapAllowed(kernel: Frame, space: Frame, va: nat, pa: nat, flags: Flags) {
    && Canonical(va) && va % PAGE_SIZE == 0 && pa % PAGE_SIZE == 0
    && !(flags.writable && !flags.nx)
    && !(flags.user && (va >= LOWER_END || space == kernel))
    && !(va >= UPPER_START && space != kernel)
  }

  /** What may be mapped: in a process's lower half whatever is not both writable and executable, and in
      the kernel's space the same as long as programs cannot use it. */
  lemma AllowedIs(kernel: Frame, space: Frame, va: nat, pa: nat, flags: Flags)
    requires va < ADDRESS_END && va % PAGE_SIZE == 0 && pa % PAGE_SIZE == 0
    ensures space != kernel ==>
      (MapAllowed(kernel, space, va, pa, flags) <==> va < LOWER_END && (flags.writable ==> flags.nx))
    ensures space == kernel ==>
      (MapAllowed(kernel, space, va, pa, flags) <==>
        (va < LOWER_END || va >= UPPER_START) && !flags.user && (flags.writable ==> flags.nx))
  {
    CanonicalIs(va);
  }

  /** A page can be unmapped wherever one can be mapped. */
  lemma UnmapIs(kernel: Frame, space: Frame, va: nat)
    requires va < ADDRESS_END && va % PAGE_SIZE == 0
    ensures UnmapAllowed(kernel, space, va) <==> va < LOWER_END || (va >= UPPER_START && space == kernel)
  {
    CanonicalIs(va);
  }

  lemma OwnedPage(kernel: Frame, space: Frame, va: nat)
    requires Canonical(va) && (va >= UPPER_START ==> space == kernel)
    ensures Owned(kernel, Up(PageOf(space, va), 3))
  {
    IndexIsSlot(space, va);
    var q := PageOf(space, va);
    if space != kernel {
      assert va < LOWER_END;
      assert q.prefix == va / 4096;
      assert Up(q, 1).prefix == q.prefix / 512;
      assert Up(q, 2).prefix == q.prefix / 512 / 512;
      assert Up(q, 3).prefix == q.prefix / 512 / 512 / 512;
    }
  }

  lemma AllowedOwned(kernel: Frame, space: Frame, va: nat, pa: nat, flags: Flags)
    requires MapAllowed(kernel, space, va, pa, flags)
    ensures Owned(kernel, Up(PageOf(space, va), 3))
  {
    OwnedPage(kernel, space, va);
  }

  /** A mapping that map_page_locked accepts keeps the flags in order, if a copy-on-write page is
      asked for as a read-only user data page. */
  lemma MapPageFlags(t0: Tree, t: Tree, space: Frame, va: nat, pa: nat, flags: Flags)
    requires TreeOk(t0) && FlagsOk(t0) && MapAllowed(t0.kernel, space, va, pa, flags)
    requires Mapped(t0, t, PageOf(space, va), LeafEntry(pa / PAGE_SIZE, flags))
    ensures (flags.cow ==> flags.nx && !flags.writable && flags.user) ==> FlagsOk(t)
  {
    hide TreeOk, FlagsOk, Mapped, Shape;
    ShapeOf(t0);
    if flags.cow ==> flags.nx && !flags.writable && flags.user {
      MappedFlags(t0, t, PageOf(space, va), LeafEntry(pa / PAGE_SIZE, flags));
    }
  }

  lemma LargeSame(t: Tree, t': Tree, q: Pos)
    requires q.depth == 4 && forall c :: Leaf(t', c) == Leaf(t, c)
    ensures UnderLarge(t', q) == UnderLarge(t, q)
  {
    hide Leaf, OnPath;
  }

  lemma PathStays(t1: Tree, t2: Tree, q: Pos, e: Entry)
    requires q.depth == 4 && forall c | OnPath(q, c) :: c in t1.at && Linked(Ent(t1, c))
    requires forall d :: Ent(t2, d) == if d == q then e else Ent(t1, d)
    ensures forall c | OnPath(q, c) :: Linked(Ent(t2, c))
  {
    hide Ent;
  }

  /** If the last table of the walk exists, so do all the tables and links above it. */
  lemma PathLinked(t: Tree, q: Pos)
    requires TreeOk(t) && Tops(t.roots) && q.depth == 4 && Up(q, 1) in t.at
    ensures forall c | OnPath(q, c) :: c in t.at && Linked(Ent(t, c))
  {
    hide TreeOk, Ent;
    ParentAt(t, Up(q, 1));
    ParentAt(t, Up(q, 2));
    forall c | OnPath(q, c) ensures c in t.at && Linked(Ent(t, c)) {
      assert c == Up(q, 1) || c == Up(q, 2) || c == Up(q, 3);
      LinkedAt(t, c);
    }
  }

  lemma LinkedAt(t: Tree, c: Pos)
    requires TreeOk(t) && c in t.at && c !in t.roots
    ensures Linked(Ent(t, c))
  {
  }

  lemma MapFinish(t0: Tree, t1: Tree, t2: Tree, t3: Tree, q: Pos, e: Entry, lo: nat, hi: nat)
    requires q.depth == 4 && FlagsOk(t0) && Grown(t0, t1) && NewOnPath(t0, t1, q, lo, hi)
    requires forall c | c in t1.at && c !in t0.at :: Ent(t1, c).user == e.user
    requires forall c | OnPath(q, c) :: c in t1.at && Linked(Ent(t1, c))
    requires t3.at == t1.at && t3.roots == t1.roots && t3.kernel == t1.kernel
    requires forall c :: Ent(t2, c) == if c == q then e else Ent(t1, c)
    requires if e.user then Marked(t2, t3, q, 3) else t3 == t2
    ensures Mapped(t0, t3, q, e)
  {
    hide Ent, EntryOk, Up, UserAbove;
    forall c ensures MappedEnt(t0, t3, q, e, c) {
      MapFinishEnt(t0, t1, t2, t3, q, e, c);
    }
  }

  lemma MapFinishEnt(t0: Tree, t1: Tree, t2: Tree, t3: Tree, q: Pos, e: Entry, c: Pos)
    requires q.depth == 4 && FlagsOk(t0) && Grown(t0, t1)
    requires c in t1.at && c !in t0.at ==> Ent(t1, c).user == e.user && OnPath(q, c)
    requires OnPath(q, c) ==> c in t1.at && Linked(Ent(t1, c))
    requires forall c :: Ent(t2, c) == if c == q then e else Ent(t1, c)
    requires if e.user then Marked(t2, t3, q, 3) else t3 == t2
    ensures MappedEnt(t0, t3, q, e, c)
  {
    hide Ent, Up, UserAbove;
    AbsentAlike(t0, c);
    if OnPath(q, c) && c in t0.at {
      assert EntryOk(t0.kernel, c, Ent(t0, c));
    }
  }

  lemma NoOrphans(t: Tree, c: Pos)
    requires TreeOk(t) && Tops(t.roots) && c.depth > 0 && Parent(c) !in t.at
    ensures c !in t.at
  {
    hide Ent, Shape;
    NoTableNoEnt(t, c);
  }

  /** Where the walk to `q` stops short, nothing is mapped by a 4 KiB leaf. */
  lemma {:induction false} NoTableBelow(t: Tree, q: Pos, k: nat)
    requires TreeOk(t) && Tops(t.roots) && q.depth == 4 && k <= 3 && (k > 0 ==> Up(q, k) !in t.at)
    ensures forall j | 0 < j <= k :: Up(q, j) !in t.at
    ensures k > 0 ==> forall j | 0 <= j < k :: Ent(t, Up(q, j)) == ABSENT
  {
    hide TreeOk, Ent;
    if k > 1 {
      assert Up(q, k) == Parent(Up(q, k - 1));
      NoOrphans(t, Up(q, k - 1));
      NoTableBelow(t, q, k - 1);
    }
    if k > 0 {
      assert Up(q, k) == Parent(Up(q, k - 1));
      NoTableNoEnt(t, Up(q, k - 1));
    }
  }

  lemma TableLinked(t: Tree, c: Pos)
    requires TreeOk(t) && Tops(t.roots) && c in t.at && c.depth > 0
    ensures c !in t.roots && Linked(Ent(t, c)) && Has(t, c)
  {
    hide Ent, Shape;
    EntHas(t, c);
  }

  /** `tables[k]` is the table at depth `k` on the way to `q`. */
  ghost predicate TablesAt(at: map<Pos, Frame>, q: Pos, tables: seq<Frame>)
    requires q.depth == 4
  {
    |tables| <= 4 && forall k | 0 <= k < |tables| :: TableAt(at, q, k, tables[k])
  }

  predicate TableAt(at: map<Pos, Frame>, q: Pos, k: nat, f: Frame)
    requires q.depth == 4 && k <= 4
  {
    Up(q, 4 - k) in at && at[Up(q, 4 - k)] == f
  }

  lemma TablesAtLast(at: map<Pos, Frame>, q: Pos, tables: seq<Frame>, k: nat)
    requires q.depth == 4 && k < |tables| && TablesAt(at, q, tables)
    ensures k < 4 && TableAt(at, q, k, tables[k])
  {
  }

  /** The tables above a page sit at different depths, so dropping the last one leaves the others. */
  lemma TablesAtMore(at: map<Pos, Frame>, q: Pos, tables: seq<Frame>, n: nat)
    requires q.depth == 4 && n < |tables| && TablesAt(at, q, tables[..n + 1])
    ensures TablesAt(at, q, tables[..n])
  {
    forall k | 0 <= k < n ensures TableAt(at, q, k, tables[..n][k]) {
      assert tables[..n][k] == tables[..n + 1][k];
    }
  }

  lemma TablesAtPrefix(at: map<Pos, Frame>, at': map<Pos, Frame>, q: Pos, tables: seq<Frame>, n: nat)
    requires q.depth == 4 && 0 < n <= |tables| && TablesAt(at, q, tables[..n]) && at' == at - {Up(q, 5 - n)}
    ensures TablesAt(at', q, tables[..n - 1])
  {
    var kept := tables[..n - 1];
    forall k | 0 <= k < n - 1 ensures TableAt(at', q, k, kept[k]) {
      assert TableAt(at, q, k, tables[..n][k]);
      assert Up(q, 4 - k).depth != Up(q, 5 - n).depth;
    }
  }

  lemma NotLinked(t: Tree, c: Pos)
    requires TreeOk(t) && Tops(t.roots) && 0 < c.depth && !Linked(Ent(t, c))
    ensures c !in t.at
  {
    hide Ent, Shape;
  }

  lemma EmptyTableNoEntries(t: Tree, p: Pos)
    requires TreeOk(t) && p in t.at && IsTable(t, t.at[p])
    requires forall i | 0 <= i < 512 :: !t.mem[t.at[p]].entries[i].present
    ensures NoEntries(t, p)
  {
  }

  /** No table on the way to `q` is without entries. */
  ghost predicate NoneEmpty(t: Tree, q: Pos)
    requires q.depth == 4
  {
    forall c | OnPath(q, c) && c in t.at :: !NoEntries(t, c)
  }

  /** No table on the way to `q` is left below this level. */
  ghost predicate GoneBelow(at: map<Pos, Frame>, q: Pos, level: nat)
    requires q.depth == 4
  {
    forall c | OnPath(q, c) && c.depth > level :: c !in at
  }

  lemma GoneBelowStep(at: map<Pos, Frame>, q: Pos, level: nat)
    requires q.depth == 4 && 0 < level <= 3 && GoneBelow(at, q, level)
    ensures GoneBelow(at - {Up(q, 4 - level)}, q, level - 1)
  {
    hide Up, OnPath;
    forall c | OnPath(q, c) && c.depth == level ensures c == Up(q, 4 - level) {
      PathPlace(q, c, level);
    }
  }

  /** Only tables on the way to `q` are gone. */
  ghost predicate PrunedOnly(at: map<Pos, Frame>, at': map<Pos, Frame>, q: Pos)
    requires q.depth == 4
  {
    && (forall c | c in at' :: c in at && at'[c] == at[c])
    && (forall c | c in at && c !in at' :: OnPath(q, c))
  }

  lemma PrunedRefl(at: map<Pos, Frame>, q: Pos)
    requires q.depth == 4
    ensures PrunedOnly(at, at, q) && GoneBelow(at, q, 3)
  {
  }

  lemma PrunedStep(at: map<Pos, Frame>, at1: map<Pos, Frame>, q: Pos, k: nat)
    requires q.depth == 4 && 0 < k <= 3 && PrunedOnly(at, at1, q)
    ensures PrunedOnly(at, at1 - {Up(q, 4 - k)}, q)
  {
    hide Up, OnPath;
    PathPlace(q, q, k);
  }

  /** The lowest table left on the way has an entry, and those above it have a link. */
  lemma PruneEnds(t: Tree, q: Pos, level: nat)
    requires TreeOk(t) && Tops(t.roots) && q.depth == 4 && level <= 3
    requires GoneBelow(t.at, q, level)
    requires level > 0 ==> Up(q, 4 - level) in t.at && !NoEntries(t, Up(q, 4 - level))
    ensures NoneEmpty(t, q)
  {
    hide TreeOk, Tops, Ent, Up, NoEntries, OnPath;
    forall c | OnPath(q, c) && c in t.at ensures !NoEntries(t, c) {
      PathDepth(q, c);
      PathPlace(q, c, c.depth);
      if c.depth < level {
        EntryAbove(t, q, c.depth, level);
      }
    }
  }

  lemma PathDepth(q: Pos, c: Pos)
    requires q.depth == 4 && OnPath(q, c)
    ensures 0 < c.depth <= 3
  {
  }

  lemma {:induction false} EntryAbove(t: Tree, q: Pos, k: nat, level: nat)
    requires TreeOk(t) && Tops(t.roots) && q.depth == 4 && 0 < k < level <= 3 && Up(q, 4 - level) in t.at
    ensures !NoEntries(t, Up(q, 4 - k))
    decreases level
  {
    hide TreeOk, Tops, Ent;
    var c := Up(q, 4 - level);
    TopLevel(t, c);
    ParentAt(t, c);
    LinkedAt(t, c);
    if k + 1 < level {
      EntryAbove(t, q, k, level - 1);
    } else {
      assert Parent(c) == Up(q, 4 - k);
    }
  }

  lemma TopLevel(t: Tree, c: Pos)
    requires Tops(t.roots) && c.depth > 0
    ensures c !in t.roots
  {
  }

  lemma SomeEntry(t: Tree, p: Pos)
    requires TreeOk(t) && p in t.at && IsTable(t, t.at[p]) && Owned(t.kernel, Child(p, 0)) && p.depth > 0
    requires exists i | 0 <= i < 512 :: t.mem[t.at[p]].entries[i].present
    ensures !NoEntries(t, p)
  {
    hide TreeOk;
    var i :| 0 <= i < 512 && t.mem[t.at[p]].entries[i].present;
    ParentOfChild(p, i);
    ReadEnt(t, Child(p, i));
  }

  /** Unlinking an empty table changes no mapping and no permission. */
  lemma PruneFlags(t: Tree, t': Tree, c: Pos)
    requires FlagsOk(t) && c.depth < 4 && Linked(Ent(t, c)) && NoEntries(t, c)
    requires t'.kernel == t.kernel && t'.roots == t.roots
    requires forall d :: Ent(t', d) == if d == c then ABSENT else Ent(t, d)
    ensures FlagsOk(t') && forall d :: Leaf(t', d) == Leaf(t, d)
  {
    hide Ent, EntryOk;
    forall d | Ent(t', d).present && Ent(t', d).user ensures UserAbove(t', d) {
      assert UserAbove(t, d);
    }
  }

  lemma ClearLeafFlags(t: Tree, t': Tree, q: Pos)
    requires FlagsOk(t) && q.depth == 4 && Shape(t) && t'.kernel == t.kernel && t'.roots == t.roots
    requires forall d :: Ent(t', d) == if d == q then ABSENT else Ent(t, d)
    ensures FlagsOk(t') && forall d :: Leaf(t', d) == if d == q then ABSENT else Leaf(t, d)
  {
    hide Ent;
    forall d | Ent(t', d).present && Ent(t', d).user ensures UserAbove(t', d) {
      assert UserAbove(t, d);
      PresentDepth(t, d);
    }
  }

  /** Clearing a leaf: a user leaf leaves its reference with the caller. */
  lemma ClearLeaf(g: Layout, t: Tree, s: State, held: multiset<Frame>, q: Pos)
    requires TreeOk(t) && Acct(g, t, s, held) && q.depth == 4 && Ent(t, q).present
    ensures Has(t, q) && IsTable(t, t.at[Parent(q)]) && TreeOk(SetEnt(t, q, ABSENT))
    ensures Acct(g, SetEnt(t, q, ABSENT), s, if Ent(t, q).user then held + multiset{Ent(t, q).frame} else held)
    ensures Keeps(held, t, s, SetEnt(t, q, ABSENT), s)
    ensures Flat(SetEnt(t, q, ABSENT)) == Flat(t) - {q}
    ensures forall d :: Ent(SetEnt(t, q, ABSENT), d) == if d == q then ABSENT else Ent(t, d)
  {
    ReadEnt(t, q);
    PutLeafOk(t, q, ABSENT);
    SetEntData(g, t, s, held, q, ABSENT);
    assert Shape(t);
    var t' := SetEnt(t, q, ABSENT);
    hide TreeOk, Ent, Acct, Flat, Users, Shape;
    FlatSet(t, t', q);
    DataOf(g, t, s, held);
    if Ent(t, q).user {
      RemoveUserAcct(g, t, t', s, held, q);
    } else {
      assert Flat(t') == Flat(t);
      LinkAcct(g, t, s, held, q, ABSENT, t.roots);
    }
  }

  /** Which requests vmm_space_unmap_page considers at all. */
  predicate UnmapAllowed(kernel: Frame, space: Frame, va: nat) {
    Canonical(va) && va % PAGE_SIZE == 0 && !(va >= UPPER_START && space != kernel)
  }

  lemma LeafSets(t: Tree, t1: Tree, t2: Tree, q: Pos)
    requires forall d :: Leaf(t1, d) == if d == q then ABSENT else Leaf(t, d)
    requires forall d :: Leaf(t2, d) == Leaf(t1, d)
    ensures forall d :: Leaf(t2, d) == if d == q then ABSENT else Leaf(t, d)
  {
    hide Leaf;
  }

  /** What is in use stays in use when a user mapping turns into a handle. */
  lemma RemoveInUse(t: Tree, t': Tree, held: multiset<Frame>, q: Pos, extra: multiset<Frame>)
    requires Flat(t') == Flat(t) - {q} && (q in Flat(t) ==> Flat(t)[q].frame in extra)
    ensures forall f | InUse(t, held, f) :: InUse(t', held + extra, f)
  {
    hide Flat;
    forall f | InUse(t, held, f) ensures InUse(t', held + extra, f) {
      if f !in held {
        var d :| d in Users(Flat(t), f);
        if d != q {
          assert d in Users(Flat(t'), f);
        }
      }
    }
  }

  /** Writing an entry that neither links a table nor maps a user page. */
  lemma PutPlain(g: Layout, t: Tree, s: State, held: multiset<Frame>, c: Pos, e: Entry)
    requires TreeOk(t) && Acct(g, t, s, held) && Has(t, c) && !Ent(t, c).present && (e.present ==> !e.user)
    requires c.depth == 4 || !Linked(e)
    ensures IsTable(t, t.at[Parent(c)]) && TreeOk(SetEnt(t, c, e)) && Acct(g, SetEnt(t, c, e), s, held)
    ensures Keeps(held, t, s, SetEnt(t, c, e), s) && Flat(SetEnt(t, c, e)) == Flat(t)
    ensures forall d :: Ent(SetEnt(t, c, e), d) == if d == c then (if e.present then e else ABSENT) else Ent(t, d)
  {
    hide TreeOk, Ent, Acct, Flat, Users, Shape, Keeps;
    ReadEnt(t, c);
    PutLeafOk(t, c, e);
    var t' := SetEnt(t, c, e);
    if c.depth == 4 {
      FlatSet(t, t', c);
      assert Flat(t') == Flat(t);
    } else {
      FlatSame(t, t');
    }
    LinkAcct(g, t, s, held, c, e, t.roots);
  }

  // ---- queries ----

  lemma {:induction false} TerminalUp(t: Tree, q: Pos, k: nat)
    requires q.depth == 4 && k <= 4 && forall j | 0 <= j < k :: !Leaf(t, Up(q, j)).present
    ensures Terminal(t, q) == Terminal(t, Up(q, k))
  {
    hide Leaf;
    if k > 0 {
      TerminalUp(t, q, k - 1);
      assert !Leaf(t, Up(q, k - 1)).present;
      assert Up(q, k) == Parent(Up(q, k - 1));
    }
  }

  lemma {:induction false} LeafOnWay(t: Tree, q: Pos, i: nat, j: nat)
    requires q.depth == 4 && i <= j <= 3 && Leaf(t, Up(q, j)).present
    requires forall k | 0 <= k < i :: !Leaf(t, Up(q, k)).present
    ensures Translate(t, q).Some?
    decreases j - i
  {
    hide Leaf;
    if Leaf(t, Up(q, i)).present {
      TerminalUp(t, q, i);
    } else {
      LeafOnWay(t, q, i + 1, j);
    }
  }

  /** A page without translation has no leaf and lies under no large page. */
  lemma NothingThere(t: Tree, q: Pos)
    requires q.depth == 4 && Translate(t, q).None?
    ensures !Leaf(t, q).present && !UnderLarge(t, q)
  {
    hide Leaf, Translate;
    assert Up(q, 0) == q;
    if Leaf(t, q).present {
      LeafOnWay(t, q, 0, 0);
    }
    if UnderLarge(t, q) {
      var c :| OnPath(q, c) && Leaf(t, c).present;
      LeafOnWay(t, q, 0, 4 - c.depth);
    }
  }

  lemma TopLeaf(t: Tree, c: Pos)
    requires c.depth == 0
    ensures Leaf(t, c) == ABSENT
  {
  }

  /** Nothing is mapped below an entry that links no table. */
  lemma BelowAbsent(t: Tree, q: Pos, k: nat)
    requires TreeOk(t) && Tops(t.roots) && q.depth == 4 && k <= 3 && (k == 0 || !Linked(Ent(t, Up(q, k))))
    ensures forall j | 0 <= j < k :: Leaf(t, Up(q, j)) == ABSENT
  {
    hide TreeOk, Ent, Tops;
    if k > 0 {
      NotLinked(t, Up(q, k));
      NoTableBelow(t, q, k);
      forall j | 0 <= j < k ensures Leaf(t, Up(q, j)) == ABSENT {
        assert Ent(t, Up(q, j)) == ABSENT;
      }
    }
  }

  /** The walk found the entry that maps the page. */
  lemma QueryHit(t: Tree, q: Pos, k: nat)
    requires TreeOk(t) && Tops(t.roots) && q.depth == 4 && k <= 3 && Leaf(t, Up(q, k)).present
    requires k == 0 || !Linked(Ent(t, Up(q, k)))
    ensures Terminal(t, q) == Up(q, k)
  {
    hide TreeOk, Ent, Leaf;
    BelowAbsent(t, q, k);
    TerminalUp(t, q, k);
  }

  /** The walk stopped at an absent entry. */
  lemma QueryMiss(t: Tree, q: Pos, k: nat)
    requires TreeOk(t) && Tops(t.roots) && q.depth == 4 && k <= 3 && !Ent(t, Up(q, k)).present
    requires forall j | k < j <= 3 :: Linked(Ent(t, Up(q, j)))
    ensures Translate(t, q) == None
  {
    hide TreeOk, Tops;
    BelowAbsent(t, q, k);
    forall j | 0 <= j < 4 ensures !Leaf(t, Up(q, j)).present {
      if j > k {
        assert Linked(Ent(t, Up(q, j)));
        assert Up(q, j).depth < 4;
      }
      hide Ent;
    }
    TopLeaf(t, Up(q, 4));
    hide Ent, Leaf;
    TerminalUp(t, q, 4);
  }

  lemma UserUp(t: Tree, c: Pos)
    requires FlagsOk(t) && Tops(t.roots) && c.depth > 1 && Ent(t, c).present && Ent(t, c).user
    ensures Ent(t, Parent(c)).present && Ent(t, Parent(c)).user
  {
    hide Ent, EntryOk;
    UserPresent(t, Parent(c));
    assert UserAbove(t, c);
  }

  /** Above a user page every link is a user link. */
  lemma UserLinks(t: Tree, q: Pos)
    requires FlagsOk(t) && Tops(t.roots) && q.depth == 4 && Ent(t, q).present && Ent(t, q).user
    ensures Ent(t, Up(q, 1)).user && Ent(t, Up(q, 2)).user && Ent(t, Up(q, 3)).user
  {
    hide Ent, FlagsOk, Tops;
    UpParent(q, 1);
    UpParent(q, 2);
    UpParent(q, 3);
    UserUp(t, q);
    UserUp(t, Up(q, 1));
    UserUp(t, Up(q, 2));
  }

  lemma Mod2MiB(n: nat)
    ensures n % 2097152 == (n / 4096 % 512) * 4096 + n % 4096
  {
    var x := n / 4096;
    var k, m := x / 512, x % 512;
    assert x == 512 * k + m;
    assert n == 2097152 * k + (m * 4096 + n % 4096);
  }

  lemma Mod1GiB(n: nat)
    ensures n % 1073741824 == (n / 4096 % 262144) * 4096 + n % 4096
  {
    var x := n / 4096;
    var k, m := x / 262144, x % 262144;
    assert x == 262144 * k + m;
    assert n == 1073741824 * k + (m * 4096 + n % 4096);
  }

  lemma ModGiB(j: nat, y: nat)
    ensures (262144 * j + y) % 262144 == y % 262144
  {
    var a, b := y / 262144, y % 262144;
    assert 262144 * j + y == 262144 * (j + a) + b;
  }

  lemma PageMod(x: nat)
    ensures x % 68719476736 % 512 == x % 512 && x % 68719476736 % 262144 == x % 262144
  {
    var k, y := x / 68719476736, x % 68719476736;
    Quotient(x, k, 134217728, y);
    ModGiB(k * 262144, y);
  }

  /** The physical address a query computes: frame base plus offset within the (large) page. */
  lemma PhysicalAddress(e: Entry, space: Frame, va: nat, d: nat)
    requires 2 <= d <= 4
    ensures var size := 4096 * Span(d);
      e.frame * 4096 - e.frame * 4096 % size + va % size
      == (e.frame - e.frame % Span(d) + PageOf(space, va).prefix % Span(d)) * 4096 + va % 4096
  {
    var f := e.frame;
    PageMod(va / 4096);
    assert f * 4096 / 4096 == f && f * 4096 % 4096 == 0;
    if d == 3 {
      Mod2MiB(va);
      Mod2MiB(f * 4096);
    } else if d == 2 {
      Mod1GiB(va);
      Mod1GiB(f * 4096);
    }
  }

  /** All links down to depth `level` on the way to `q` admit user mode. */
  ghost predicate PathUser(t: Tree, q: Pos, level: nat)
    requires q.depth == 4 && level <= 4
  {
    (level >= 1 ==> Ent(t, Up(q, 3)).user) && (level >= 2 ==> Ent(t, Up(q, 2)).user)
    && (level >= 3 ==> Ent(t, Up(q, 1)).user) && (level >= 4 ==> Ent(t, q).user)
  }

  lemma PathUserStep(t: Tree, q: Pos, level: nat)
    requires q.depth == 4 && level < 4
    ensures PathUser(t, q, level + 1) <==> PathUser(t, q, level) && Ent(t, Up(q, 3 - level)).user
  {
    hide Ent;
    assert Up(q, 0) == q;
  }

  /** At a leaf, the conjunction of user bits on the way is the leaf's own user bit. */
  lemma PathUserLeaf(t: Tree, q: Pos, level: nat)
    requires FlagsOk(t) && Tops(t.roots) && q.depth == 4 && level < 4 && Ent(t, Up(q, 3 - level)).present
    requires level == 3 || Ent(t, Up(q, 3 - level)).large
    ensures PathUser(t, q, level + 1) <==> Ent(t, Up(q, 3 - level)).user
  {
    hide Ent, Tops;
    assert Up(q, 0) == q;
    PathUserStep(t, q, level);
    if level == 3 {
      if Ent(t, q).user {
        UserLinks(t, q);
      }
    } else {
      assert EntryOk(t.kernel, Up(q, 3 - level), Ent(t, Up(q, 3 - level)));
    }
  }

  lemma EntryFlags(t: Tree, c: Pos)
    requires FlagsOk(t)
    ensures Ent(t, c).present ==> EntryOk(t.kernel, c, Ent(t, c))
  {
  }

  lemma LeafAt(t: Tree, c: Pos)
    ensures c.depth == 4 || Ent(t, c).large ==> Leaf(t, c) == Ent(t, c)
  {
  }

  lemma TranslateAt(t: Tree, q: Pos, c: Pos)
    requires q.depth == 4 && Terminal(t, q) == c && Leaf(t, c).present && c.depth <= 4
    ensures Translate(t, q)
      == Some(Mapping(Leaf(t, c).frame - Leaf(t, c).frame % Span(c.depth) + q.prefix % Span(c.depth),
                                            Leaf(t, c).writable, Leaf(t, c).user, Leaf(t, c).cow, Leaf(t, c).nx))
  {
    hide Leaf, Terminal;
  }

  // ---- the tables as a flat map of pages ----

  /** No page but `q` is translated differently. */
  ghost predicate OnlyPage(t: Tree, t': Tree, q: Pos) {
    forall q': Pos | q'.depth == 4 && q' != q :: Translate(t', q') == Translate(t, q')
  }

  /** Unchanged tables translate every page as before. */
  lemma TablesPages(t: Tree, t': Tree, q: Pos)
    requires SameTables(t, t') && q.depth == 4
    ensures Translate(t', q) == Translate(t, q) && OnlyPage(t, t', q)
  {
    hide SameTables, Translate;
    TranslateTables(t, t', q);
    forall q': Pos | q'.depth == 4 && q' != q ensures Translate(t', q') == Translate(t, q') {
      TranslateTables(t, t', q');
    }
  }

  /** A new mapping, after data has been stored. */
  lemma MapsOnlyPage(t: Tree, t1: Tree, t2: Tree, q: Pos, e: Entry)
    requires SameTables(t, t1) && q.depth == 4 && Mapped(t1, t2, q, e) && e.present
    ensures OnlyPage(t, t2, q)
  {
    hide SameTables, Translate, Mapped;
    TablesPages(t, t1, q);
    MapChangesOnePage(t1, t2, q, e);
  }

  /** A new mapping changes the translation of one page, to what was asked for, and of no other. */
  lemma MapChangesOnePage(t0: Tree, t: Tree, q: Pos, e: Entry)
    requires q.depth == 4 && Mapped(t0, t, q, e) && e.present
    ensures Translate(t, q) == Some(Mapping(e.frame, e.writable, e.user, e.cow, e.nx))
    ensures forall q': Pos | q'.depth == 4 && q' != q :: Translate(t, q') == Translate(t0, q')
  {
    hide Leaf, Mapped;
    MappedLeaf(t0, t, q, e);
    assert Terminal(t, q) == q;
    forall q': Pos | q'.depth == 4 && q' != q ensures Translate(t, q') == Translate(t0, q') {
      TranslateElsewhere(t0, t, q, q');
    }
  }

  /** Unmapping a page removes its translation and no other, however many tables it prunes. */
  lemma UnmapChangesOnePage(t0: Tree, t: Tree, q: Pos)
    requires TreeOk(t0) && Tops(t0.roots) && q.depth == 4 && Leaf(t0, q).present
    requires forall c :: Leaf(t, c) == if c == q then ABSENT else Leaf(t0, c)
    ensures Translate(t, q) == None
    ensures forall q': Pos | q'.depth == 4 && q' != q :: Translate(t, q') == Translate(t0, q')
  {
    EntHas(t0, q);
    assert Up(q, 1) == Parent(q);
    PathLinked(t0, q);
    forall j | 0 <= j < 4 ensures !Leaf(t, Up(q, j)).present {
      if j > 0 {
        assert OnPath(q, Up(q, j));
        assert Linked(Ent(t0, Up(q, j)));
      }
      hide Ent, TreeOk;
    }
    TopLeaf(t0, Up(q, 4));
    hide Ent, Leaf, TreeOk;
    TerminalUp(t, q, 4);
    forall q': Pos | q'.depth == 4 && q' != q ensures Translate(t, q') == Translate(t0, q') {
      TranslateElsewhere(t0, t, q, q');
    }
  }
}
