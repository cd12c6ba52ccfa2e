/** Boot protection (src/mm/vmm.c): the loader's tables become the kernel's, with write and execute
    kept apart. Large pages that cross a permission boundary are split; every page keeps its frame
    and its cache attributes. */
module Boot {
  import opened Pmm
  import opened Paging
  import opened Accounts
  import opened Translation
  import opened Walks
  import opened Subtrees

  datatype Range = Range(start: nat, end: nat) {
    predicate Has(a: nat) { start <= a < end }

    /** range_contains */
    predicate Contains(start: nat, size: nat) {
      this.start <= start < end && size <= end - start
    }

    /** range_overlaps */
    predicate Overlaps(start: nat, size: nat) {
      start < end && (start >= this.start || this.start - start < size)
    }
  }

  /** The two tests, byte by byte. */
  lemma RangeTests(r: Range, start: nat, size: nat)
    requires size > 0
    ensures r.Contains(start, size) <==> forall a | start <= a < start + size :: r.Has(a)
    ensures r.start < r.end ==> (r.Overlaps(start, size) <==> exists a | start <= a < start + size :: r.Has(a))
  {
    if !r.Contains(start, size) {
      assert !r.Has(start) || !r.Has(start + size - 1);
    }
    if r.start < r.end && r.Overlaps(start, size) {
      assert r.Has(if start >= r.start then start else r.start);
    }
  }

  /** Kernel text as virtual addresses; text and constants as physical addresses. */
  datatype Ranges = Ranges(text: Range, readonly: Range)

  /** If a block lies inside a range or does not touch it, so do all its parts. */
  lemma PartsAgree(r: Range, start: nat, size: nat, a: nat, n: nat)
    requires start <= a && a + n <= start + size && 0 < n
    requires r.Contains(start, size) || !r.Overlaps(start, size)
    ensures r.Contains(a, n) <==> r.Contains(start, size)
  {
  }

  // ---- addresses of positions ----

  function Bytes(depth: nat): nat
    requires depth <= 4
  {
    Span(depth) * 4096
  }

  function Positions(depth: nat): nat
    requires depth <= 4
  {
    if depth == 0 then 1 else if depth == 1 then 512 else if depth == 2 then 262144
      else if depth == 3 then 134217728 else 68719476736
  }

  predicate InSpace(c: Pos) { c.depth <= 4 && c.prefix < Positions(c.depth) }

  /** The first virtual address below a position, in canonical form. */
  function Address(c: Pos): nat
    requires c.depth <= 4
  {
    var a := c.prefix * Bytes(c.depth);
    if a >= LOWER_END then a + 0xFFFF_0000_0000_0000 else a
  }

  /** The address protect_boot_table computes for entry `i` of a table. */
  function SlotAddress(prefix: nat, i: nat, level: nat): nat
    requires 1 <= level <= 4
  {
    var a := prefix + i * Bytes(5 - level);
    if level == 4 && a / LOWER_END % 2 == 1 then a + 0xFFFF_0000_0000_0000 else a
  }

  lemma SlotAddressOk(p: Pos, i: nat)
    requires p.depth < 4 && InSpace(p) && i < 512
    ensures InSpace(Child(p, i)) && SlotAddress(Address(p), i, 4 - p.depth) == Address(Child(p, i))
  {
  }

  lemma {:induction false} UnderBounds(c: Pos, x: Pos)
    requires Under(c, x) && x.depth <= 4
    ensures c.depth <= 4
    ensures c.prefix * Span(c.depth) <= x.prefix * Span(x.depth) <= (c.prefix + 1) * Span(c.depth) - Span(x.depth)
    decreases x.depth
  {
    if x != c {
      UnderBounds(c, Parent(x));
      assert Span(x.depth - 1) == 512 * Span(x.depth);
      assert x.prefix == 512 * Parent(x).prefix + Slot(x);
      SpanStep(Parent(x).prefix, Slot(x), Span(x.depth));
    }
  }

  lemma SpanStep(p: nat, i: nat, s: nat)
    requires i < 512
    ensures p * (512 * s) <= (512 * p + i) * s <= p * (512 * s) + 512 * s - s
  {
    assert (512 * p + i) * s == p * (512 * s) + i * s;
    assert i * s <= 511 * s;
  }

  /** The first page below a position. */
  function First(c: Pos): nat {
    if c.depth == 4 then c.prefix else if c.depth == 3 then 512 * c.prefix else if c.depth == 2 then 262144 * c.prefix
    else if c.depth == 1 then 134217728 * c.prefix else 68719476736 * c.prefix
  }

  lemma FirstOf(c: Pos)
    requires c.depth <= 4
    ensures First(c) == c.prefix * Span(c.depth) && First(c) + Span(c.depth) == (c.prefix + 1) * Span(c.depth)
  {
  }

  lemma Remainder(c: Pos, x: nat)
    requires c.depth <= 4 && First(c) <= x < First(c) + Span(c.depth)
    ensures x == First(c) + x % Span(c.depth)
  {
  }

  lemma AddressOf(c: Pos)
    requires c.depth <= 4
    ensures Address(c) == First(c) * 4096 + if First(c) >= 34359738368 then 0xFFFF_0000_0000_0000 else 0
  {
  }

  /** The address of a page is a canonical address in that page. */
  lemma AddressInPage(q: Pos)
    requires q.depth == 4 && InSpace(q)
    ensures Address(q) < ADDRESS_END && Canonical(Address(q)) && Address(q) % PAGE_SIZE == 0
    ensures PageOf(q.root, Address(q)) == q
  {
    AddressOf(q);
  }

  lemma SameHalf(c: Pos, x: nat)
    requires 0 < c.depth <= 4 && First(c) <= x < First(c) + Span(c.depth)
    ensures First(c) >= 34359738368 <==> x >= 34359738368
  {
  }

  lemma PageInside(c: Pos, q: Pos)
    requires Under(c, q) && q.depth == 4 && c.depth > 0
    ensures c.depth <= 4 && Address(q) == Address(c) + q.prefix % Span(c.depth) * 4096
    ensures q.prefix % Span(c.depth) < Span(c.depth) && q.prefix == First(c) + q.prefix % Span(c.depth)
  {
    UnderBounds(c, q);
    FirstOf(c);
    Remainder(c, q.prefix);
    SameHalf(c, q.prefix);
    AddressOf(c);
    AddressOf(q);
    assert First(q) == q.prefix && 0 < Span(c.depth);
    hide Under, Address, First, Span;
  }

  // ---- what a page looks like to the processor ----

  /** The translation of a page together with its memory type. */
  datatype Page = Page(mapping: Mapping, pat: bool, writeThrough: bool, cacheDisable: bool)

  /** The PAT bit of an entry: bit 7 of a 4 KiB leaf, bit 12 of a large page. */
  predicate Pat(c: Pos, e: Entry) { if c.depth == 4 then e.large else e.frame % 2 == 1 }

  function PageFrom(c: Pos, e: Entry, q: Pos): Page
    requires c.depth <= 4
  {
    Page(Mapping(e.frame - e.frame % Span(c.depth) + q.prefix % Span(c.depth), e.writable, e.user, e.cow, e.nx),
         Pat(c, e), e.writeThrough, e.cacheDisable)
  }

  function PageView(t: Tree, q: Pos): (r: Option<Page>)
    requires q.depth == 4
    ensures r.Some? <==> Translate(t, q).Some?
    ensures r.Some? ==> Translate(t, q) == Some(r.value.mapping)
  {
    var c := Terminal(t, q);
    var e := Leaf(t, c);
    if e.present && c.depth <= 4 then Some(PageFrom(c, e, q)) else None
  }

  // ---- terminal entries in the loader's tree ----

  ghost predicate BootTree(t: Tree) { TreeOk(t) && t.roots == {Pos(t.kernel, 0, 0)} }

  lemma TableAbove(t: Tree, p: Pos)
    requires BootTree(t) && p in t.at
    ensures p.depth <= 3 && p.root == t.kernel
    ensures p.depth == 0 ==> p == Pos(t.kernel, 0, 0)
    ensures p.depth > 0 ==> Linked(Ent(t, p)) && Parent(p) in t.at
    decreases p.depth
  {
    if p.depth > 0 {
      TableAbove(t, Parent(p));
    }
  }

  /** Below an entry that is no link there is nothing. */
  lemma {:induction false} NothingBelow(t: Tree, c: Pos, d: Pos)
    requires BootTree(t) && c.depth > 0 && !Linked(Ent(t, c)) && Under(c, d) && d != c
    ensures Ent(t, d) == ABSENT
    decreases d.depth
  {
    if Parent(d) != c {
      NothingBelow(t, c, Parent(d));
    }
    if Parent(d) in t.at {
      TableAbove(t, Parent(d));
    }
  }

  lemma {:induction false} TerminalAt(t: Tree, c: Pos, x: Pos)
    requires BootTree(t) && c.depth > 0 && Leaf(t, c).present && Under(c, x) && x.depth <= 4
    ensures Terminal(t, x) == c
    decreases x.depth
  {
    if x != c {
      UnderRoot(c, Parent(x));
      NothingBelow(t, c, x);
      TerminalAt(t, c, Parent(x));
    }
  }

  lemma {:induction false} NoTerminal(t: Tree, p: Pos)
    requires BootTree(t) && p in t.at
    ensures !Leaf(t, Terminal(t, p)).present
    decreases p.depth
  {
    TableAbove(t, p);
    if p.depth > 0 {
      NoTerminal(t, Parent(p));
    }
  }

  lemma {:induction false} AbsentBelow(t: Tree, c: Pos, x: Pos)
    requires BootTree(t) && Has(t, c) && !Ent(t, c).present && Under(c, x)
    ensures !Leaf(t, Terminal(t, x)).present
    decreases x.depth
  {
    AbsentAlike(t, c);
    if x == c {
      NoTerminal(t, Parent(c));
    } else {
      NothingBelow(t, c, x);
      AbsentBelow(t, c, Parent(x));
    }
  }

  lemma {:induction false} TerminalAlike(t: Tree, t': Tree, x: Pos)
    requires forall c | Under(c, x) :: Leaf(t', c) == Leaf(t, c)
    ensures Terminal(t', x) == Terminal(t, x) && Under(Terminal(t, x), x)
    decreases x.depth
  {
    hide Leaf;
    assert Under(x, x);
    if x.depth > 0 && !Leaf(t, x).present {
      forall c | Under(c, Parent(x)) ensures Under(c, x) {
        UnderRoot(c, Parent(x));
      }
      TerminalAlike(t, t', Parent(x));
    }
  }

  lemma ViewAlike(t: Tree, t': Tree, q: Pos)
    requires q.depth == 4 && forall c | Under(c, q) :: Leaf(t', c) == Leaf(t, c)
    ensures PageView(t', q) == PageView(t, q)
  {
    hide Leaf, Under, Terminal;
    TerminalAlike(t, t', q);
  }

  lemma ViewAt(t: Tree, c: Pos, q: Pos)
    requires BootTree(t) && c.depth > 0 && Leaf(t, c).present && Under(c, q) && q.depth == 4
    ensures c.depth <= 4 && PageView(t, q) == Some(PageFrom(c, Leaf(t, c), q))
  {
    UnderRoot(c, q);
    TerminalAt(t, c, q);
  }

  // ---- splitting ----

  /** Entry `i` of the table that replaces a large page at `depth`. */
  function SplitChild(depth: nat, e: Entry, i: nat): Entry {
    if depth == 3 then e.(large := e.frame % 2 == 1, frame := e.frame - e.frame % 512 + i)
    else e.(frame := e.frame - e.frame % 262144 + i * 512 + e.frame % 2)
  }

  lemma SplitHuge(c: Pos, e: Entry, d: Pos, q: Pos)
    requires c.depth == 2 && d.depth == 3 && q.depth == 4 && q.prefix == 512 * d.prefix + q.prefix % 512
    ensures PageFrom(d, SplitChild(2, e, Slot(d)), q) == PageFrom(c, e, q)
  {
    SplitArith(e.frame, d.prefix, q.prefix);
  }

  lemma SplitLarge(c: Pos, e: Entry, q: Pos)
    requires c.depth == 3 && q.depth == 4
    ensures PageFrom(q, SplitChild(3, e, Slot(q)), q) == PageFrom(c, e, q)
  {
  }

  /** The part of a split page shows the same page, memory type included. */
  lemma SplitPage(c: Pos, e: Entry, d: Pos, q: Pos)
    requires 2 <= c.depth <= 3 && d.depth == c.depth + 1 && Under(d, q) && q.depth == 4
    ensures PageFrom(d, SplitChild(c.depth, e, Slot(d)), q) == PageFrom(c, e, q)
  {
    PageInside(d, q);
    UnderRoot(d, q);
    if c.depth == 2 {
      assert q.prefix == 512 * d.prefix + q.prefix % 512;
      hide *;
      SplitHuge(c, e, d, q);
    } else {
      assert d == q;
      hide *;
      SplitLarge(c, e, q);
    }
  }

  lemma SplitArith(f: nat, d: nat, q: nat)
    requires q == 512 * d + q % 512
    ensures var g := f - f % 262144 + d % 512 * 512 + f % 2;
      g % 2 == f % 2 && g - g % 512 + q % 512 == f - f % 262144 + q % 262144
  {
    var k, i, j, e, r := f / 262144, d % 512, d / 512, f % 2, q % 512;
    var g := f - f % 262144 + i * 512 + e;
    assert f - f % 262144 == 262144 * k;
    assert d == 512 * j + i;
    Mod512(512 * k + i, e);
    Mod2(131072 * k + 256 * i, e);
    ModHuge(j, 512 * i + r);
    assert g == 512 * (512 * k + i) + e && g == 2 * (131072 * k + 256 * i) + e && q == 262144 * j + (512 * i + r);
  }

  lemma Mod2(a: nat, e: nat)
    requires e < 2
    ensures (2 * a + e) % 2 == e
  {
  }

  lemma Mod512(a: nat, e: nat)
    requires e < 512
    ensures (512 * a + e) % 512 == e
  {
  }

  lemma ModHuge(a: nat, e: nat)
    requires e < 262144
    ensures (262144 * a + e) % 262144 == e
  {
  }

  /** The large page at `c` gives way to a table in frame `f`. */
  function SplitTree(t: Tree, c: Pos, f: Frame, es: seq<Entry>): Tree
    requires Has(t, c) && IsTable(t, t.at[Parent(c)]) && t.at[Parent(c)] != f
  {
    SetEnt(Plugged(t, c, f, es), c, TableEntry(f, false))
  }

  /** Entry `d` once the page at `c` is split. */
  function SplitEnt(t: Tree, c: Pos, f: Frame, es: seq<Entry>, d: Pos): Entry
    requires |es| == 512
  {
    if d == c then TableEntry(f, false) else if d.depth > 0 && Parent(d) == c then es[Slot(d)] else Ent(t, d)
  }

  lemma SplitShape(t: Tree, c: Pos, f: Frame, es: seq<Entry>)
    requires Shape(t) && Has(t, c) && 1 < c.depth < 4 && c !in t.at && Fresh(t, f)
    requires |es| == 512 && forall i | 0 <= i < 512 :: es[i].present
    ensures IsTable(t, t.at[Parent(c)]) && t.at[Parent(c)] != f
    ensures Shape(SplitTree(t, c, f, es))
    ensures forall d :: Ent(SplitTree(t, c, f, es), d) == SplitEnt(t, c, f, es, d)
  {
    hide Ent, SetEnt, Shape, Fresh;
    PlugShape(t, c, f, es);
    forall d ensures Ent(Plugged(t, c, f, es), d) == if d.depth > 0 && Parent(d) == c then es[Slot(d)] else Ent(t, d) {
      PlugEnt(t, c, f, es, d);
    }
    SetEntShape(Plugged(t, c, f, es), c, TableEntry(f, false));
  }

  /** The filled table is in place, but its entry is not written. */
  function Plugged(t: Tree, c: Pos, f: Frame, es: seq<Entry>): Tree {
    t.(mem := t.mem[f := Table(es)], at := t.at[c := f])
  }

  lemma PlugShape(t: Tree, c: Pos, f: Frame, es: seq<Entry>)
    requires Shape(t) && Has(t, c) && 1 < c.depth < 4 && c !in t.at && Fresh(t, f) && |es| == 512
    ensures Shape(Plugged(t, c, f, es)) && IsTable(t, t.at[Parent(c)]) && t.at[Parent(c)] != f
    ensures IsTable(Plugged(t, c, f, es), Plugged(t, c, f, es).at[Parent(c)])
  {
  }

  lemma PlugEnt(t: Tree, c: Pos, f: Frame, es: seq<Entry>, d: Pos)
    requires Shape(t) && Has(t, c) && c !in t.at && Fresh(t, f)
    requires |es| == 512 && forall i | 0 <= i < 512 :: es[i].present
    ensures Ent(Plugged(t, c, f, es), d) == if d.depth > 0 && Parent(d) == c then es[Slot(d)] else Ent(t, d)
  {
  }

  lemma SplitForest(t: Tree, t': Tree, c: Pos, f: Frame, es: seq<Entry>)
    requires BootTree(t) && c !in t.at && 1 < c.depth < 4
    requires |es| == 512 && forall i | 0 <= i < 512 :: es[i].present && (c.depth == 2 ==> es[i].large)
    requires Shape(t') && t'.at == t.at[c := f] && t'.roots == t.roots && t'.kernel == t.kernel
    requires forall d :: Ent(t', d) == SplitEnt(t, c, f, es, d)
    ensures BootTree(t')
  {
    hide Shape, Ent;
    forall d | d in t'.at && d !in t'.roots ensures d.depth > 0 && Linked(Ent(t', d)) && Ent(t', d).frame == t'.at[d] {
      SplitChildNew(t, c, d);
    }
    forall d: Pos | d.depth < 4 && Linked(Ent(t', d)) ensures d in t'.at && d !in t'.roots {
      assert Ent(t', d) == SplitEnt(t, c, f, es, d);
    }
  }

  lemma SplitOk(t: Tree, c: Pos, f: Frame, es: seq<Entry>)
    requires BootTree(t) && Has(t, c) && 1 < c.depth < 4 && !Linked(Ent(t, c)) && Fresh(t, f)
    requires |es| == 512 && forall i | 0 <= i < 512 :: es[i].present && (c.depth == 2 ==> es[i].large)
    ensures c !in t.at && IsTable(t, t.at[Parent(c)]) && t.at[Parent(c)] != f
    ensures BootTree(SplitTree(t, c, f, es))
    ensures forall d :: Ent(SplitTree(t, c, f, es), d) == SplitEnt(t, c, f, es, d)
  {
    if c in t.at {
      TableAbove(t, c);
    }
    hide Ent;
    SplitShape(t, c, f, es);
    assert SplitTree(t, c, f, es).at == t.at[c := f];
    hide SetEnt, Shape, TreeOk, SplitEnt;
    SplitForest(t, SplitTree(t, c, f, es), c, f, es);
  }

  lemma SplitChildNew(t: Tree, c: Pos, d: Pos)
    requires BootTree(t) && c !in t.at
    ensures d in t.at && d.depth > 0 ==> Parent(d) != c
  {
    if d in t.at {
      TableAbove(t, d);
    }
  }

  lemma {:induction false} UnderTrans(a: Pos, b: Pos, c: Pos)
    requires Under(a, b) && Under(b, c)
    ensures Under(a, c)
    decreases c.depth
  {
    if c != b {
      UnderRoot(a, b);
      UnderRoot(b, Parent(c));
      UnderTrans(a, b, Parent(c));
    }
  }

  /** Splitting changes no page. */
  lemma SplitView(t: Tree, t': Tree, c: Pos, q: Pos)
    requires BootTree(t) && BootTree(t') && 2 <= c.depth <= 3 && Leaf(t, c).present && q.depth == 4
    requires Linked(Ent(t', c))
    requires forall d ::
      d != c ==> Ent(t', d) == if d.depth > 0 && Parent(d) == c then SplitChild(c.depth, Ent(t, c), Slot(d))
        else Ent(t, d)
    ensures PageView(t', q) == PageView(t, q)
  {
    hide Ent, BootTree;
    if Under(c, q) {
      var d := Child(c, Branch(c, q));
      BranchBound(c, q);
      UnderChild(c, Branch(c, q), q);
      ParentOfChild(c, Branch(c, q));
      ViewAt(t, c, q);
      ViewAt(t', d, q);
      SplitPage(c, Ent(t, c), d, q);
    } else {
      forall x | Under(x, q) ensures Leaf(t', x) == Leaf(t, x) {
        if x.depth > 0 && Parent(x) == c {
          UnderTrans(c, x, q);
        }
      }
      ViewAlike(t, t', q);
    }
  }

  // ---- protecting one leaf ----

  function Physical(c: Pos, e: Entry): nat
    requires c.depth <= 4
  {
    (e.frame - e.frame % Span(c.depth)) * 4096
  }

  /** What becomes of a leaf: supervisor only, executable exactly in kernel text, writable only
      outside text and constants. */
  function GuardEntry(r: Ranges, c: Pos, e: Entry): Entry
    requires c.depth <= 4
  {
    var readonly := r.readonly.Contains(Physical(c, e), Bytes(c.depth));
    var executable := r.text.Contains(Address(c), Bytes(c.depth));
    e.(user := false, writable := e.writable && !readonly && !executable, nx := !executable)
  }

  function GuardPage(r: Ranges, q: Pos, v: Option<Page>): Option<Page>
    requires q.depth == 4
  {
    if v.None? then None else
      var m := v.value.mapping;
      var readonly := r.readonly.Contains(m.frame * 4096, 4096);
      var executable := r.text.Contains(Address(q), 4096);
      Some(v.value.(mapping := m.(user := false, writable := m.writable && !readonly
        && !executable, nx := !executable)))
  }

  /** A large page that needs no split: each range holds all of it or touches none of it. */
  predicate Uniform(r: Ranges, c: Pos, e: Entry)
    requires c.depth <= 4
  {
    && (r.readonly.Contains(Physical(c, e), Bytes(c.depth)) || !r.readonly.Overlaps(Physical(c, e), Bytes(c.depth)))
    && (r.text.Contains(Address(c), Bytes(c.depth)) || !r.text.Overlaps(Address(c), Bytes(c.depth)))
  }

  /** Guarding an entry guards each of its pages. */
  lemma GuardPages(r: Ranges, c: Pos, e: Entry, q: Pos)
    requires 0 < c.depth <= 4 && Under(c, q) && q.depth == 4 && (c.depth == 4 || Uniform(r, c, e))
    ensures Some(PageFrom(c, GuardEntry(r, c, e), q)) == GuardPage(r, q, Some(PageFrom(c, e, q)))
  {
    PageInside(c, q);
    UnderRoot(c, q);
    var f := PageFrom(c, e, q).mapping.frame;
    if c.depth == 4 {
      assert c == q && f * 4096 == Physical(c, e);
      assert Bytes(4) == 4096;
    } else {
      var off := q.prefix % Span(c.depth);
      assert f * 4096 == Physical(c, e) + off * 4096;
      assert off * 4096 + 4096 <= Bytes(c.depth);
      hide Under, Address, Span, Bytes;
      PartsAgree(r.readonly, Physical(c, e), Bytes(c.depth), f * 4096, 4096);
      PartsAgree(r.text, Address(c), Bytes(c.depth), Address(q), 4096);
    }
  }

  // ---- protecting a table ----

  /** The entries dealt with once the first `n` entries of the table at `p` are done. */
  ghost predicate Past(p: Pos, n: nat, c: Pos) {
    c.depth > p.depth && Under(p, c) && Branch(p, c) < n
  }

  lemma PastStep(p: Pos, i: nat, c: Pos)
    requires i < 512
    ensures Past(p, i + 1, c) <==> Past(p, i, c) || Under(Child(p, i), c)
    ensures !(Past(p, i, c) && Under(Child(p, i), c))
  {
    UnderChild(p, i, c);
  }

  lemma PastAll(p: Pos, c: Pos)
    ensures Past(p, 512, c) <==> Under(p, c) && c != p
  {
    if Under(p, c) {
      UnderRoot(p, c);
      if c.depth > p.depth {
        BranchBound(p, c);
      }
    }
  }

  /** An entry as boot protection leaves it: open links, guarded supervisor leaves. */
  predicate Guarded(r: Ranges, kernel: Frame, c: Pos, e: Entry) {
    && EntryOk(kernel, c, e) && !e.user
    && (c.depth <= 4 && (c.depth == 4 || e.large) ==> e == GuardEntry(r, c, e))
  }

  ghost predicate ViewOk(r: Ranges, t0: Tree, t: Tree, p: Pos, n: nat, q: Pos)
    requires q.depth == 4
  {
    PageView(t, q) == if Past(p, n, q) then GuardPage(r, q, PageView(t0, q)) else PageView(t0, q)
  }

  ghost predicate EntOk(r: Ranges, t0: Tree, t: Tree, p: Pos, n: nat, c: Pos) {
    if Past(p, n, c) then Ent(t, c).present ==> Guarded(r, t.kernel, c, Ent(t, c)) else Ent(t, c) == Ent(t0, c)
  }

  /** `t` is `t0` with the first `n` entries of the table at `p` protected, and all below them. */
  ghost predicate Done(r: Ranges, t0: Tree, t: Tree, p: Pos, n: nat) {
    && (forall q: Pos | q.depth == 4 :: ViewOk(r, t0, t, p, n, q))
    && (forall c :: EntOk(r, t0, t, p, n, c))
  }

  lemma DoneStart(r: Ranges, t: Tree, p: Pos)
    ensures Done(r, t, t, p, 0)
  {
  }

  /** A step that deals with the entry `c` and everything below it. */
  lemma DoneStep(r: Ranges, t0: Tree, t: Tree, t': Tree, p: Pos, i: nat)
    requires i < 512 && Done(r, t0, t, p, i) && t'.kernel == t.kernel
    requires forall q: Pos | q.depth == 4 ::
      PageView(t', q) == if Under(Child(p, i), q) then GuardPage(r, q, PageView(t, q)) else PageView(t, q)
    requires forall d ::
      if Under(Child(p, i), d) then Ent(t', d).present ==>
        Guarded(r, t.kernel, d, Ent(t', d)) else Ent(t', d) == Ent(t, d)
    ensures Done(r, t0, t', p, i + 1)
  {
    hide Ent, PageView, GuardPage, Past, Under, Guarded, Child;
    forall q: Pos | q.depth == 4 ensures ViewOk(r, t0, t', p, i + 1, q) {
      PastStep(p, i, q);
      assert ViewOk(r, t0, t, p, i, q);
    }
    var n := i + 1;
    forall c ensures EntOk(r, t0, t', p, n, c) {
      PastStep(p, i, c);
      assert EntOk(r, t0, t, p, i, c);
    }
  }

  lemma SlotOf(r: Ranges, t0: Tree, t: Tree, p: Pos, i: nat)
    requires i < 512 && Done(r, t0, t, p, i)
    ensures Ent(t, Child(p, i)) == Ent(t0, Child(p, i))
  {
    var c := Child(p, i);
    PastStep(p, i, c);
    assert Under(c, c);
    assert EntOk(r, t0, t, p, i, c);
  }

  lemma DoneAbsent(r: Ranges, t0: Tree, t: Tree, p: Pos, i: nat)
    requires i < 512 && Done(r, t0, t, p, i) && BootTree(t) && Has(t, Child(p, i)) && !Ent(t, Child(p, i)).present
    ensures Done(r, t0, t, p, i + 1)
  {
    hide Ent, Done, BootTree, Child, Guarded;
    var c := Child(p, i);
    forall q: Pos | q.depth == 4 && Under(c, q) ensures PageView(t, q) == None {
      AbsentBelow(t, c, q);
    }
    forall d | Under(c, d) ensures !Ent(t, d).present {
      AbsentAlike(t, c);
      if d != c {
        NothingBelow(t, c, d);
      }
    }
    DoneStep(r, t0, t, t, p, i);
  }

  lemma DoneLeaf(r: Ranges, t0: Tree, t: Tree, t': Tree, p: Pos, i: nat)
    requires i < 512 && Done(r, t0, t, p, i) && BootTree(t) && BootTree(t') && t'.kernel == t.kernel && p.depth < 4
    requires Leaf(t, Child(p, i)).present && !Leaf(t, Child(p, i)).cow && p.root == t.kernel
    requires p.depth == 3 || (Uniform(r, Child(p, i), Ent(t, Child(p, i))) && p.depth > 0)
    requires forall d :: Ent(t', d) == if d == Child(p, i) then GuardEntry(r, d, Ent(t, d)) else Ent(t, d)
    ensures Done(r, t0, t', p, i + 1)
  {
    hide Ent, Done, BootTree, GuardPage, Uniform;
    var c := Child(p, i);
    forall q: Pos | q.depth == 4
      ensures PageView(t', q) == if Under(c, q) then GuardPage(r, q, PageView(t, q)) else PageView(t, q) {
      if Under(c, q) {
        ViewAt(t, c, q);
        ViewAt(t', c, q);
        GuardPages(r, c, Ent(t, c), q);
      } else {
        ViewAlike(t, t', q);
      }
    }
    forall d
      ensures if Under(c, d) then Ent(t', d).present ==>
        Guarded(r, t.kernel, d, Ent(t', d)) else Ent(t', d) == Ent(t, d) {
      if Under(c, d) && d != c {
        LeafBelow(t, c, d);
      }
    }
    DoneStep(r, t0, t, t', p, i);
  }

  lemma LeafBelow(t: Tree, c: Pos, d: Pos)
    requires BootTree(t) && c.depth > 0 && Leaf(t, c).present && Under(c, d) && d != c
    ensures !Ent(t, d).present
  {
    UnderRoot(c, Parent(d));
    if c.depth < 4 {
      NothingBelow(t, c, d);
    }
  }

  /** The entry at `c` opened (after a split, perhaps), then the table behind it protected. */
  lemma DoneLink(r: Ranges, t0: Tree, t: Tree, t1: Tree, t': Tree, p: Pos, i: nat)
    requires i < 512 && Done(r, t0, t, p, i) && Done(r, t1, t', Child(p, i), 512)
    requires t1.kernel == t.kernel && t'.kernel == t.kernel && p.depth < 3
    requires forall q: Pos | q.depth == 4 :: PageView(t1, q) == PageView(t, q)
    requires forall d | !Under(Child(p, i), d) :: Ent(t1, d) == Ent(t, d)
    requires OpenLink(Ent(t1, Child(p, i))) && !Ent(t1, Child(p, i)).user
    ensures Done(r, t0, t', p, i + 1)
  {
    var c := Child(p, i);
    forall q: Pos | q.depth == 4
      ensures PageView(t', q) == if Under(c, q) then GuardPage(r, q, PageView(t, q)) else PageView(t, q) {
      PastAll(c, q);
      assert ViewOk(r, t1, t', c, 512, q);
    }
    forall d
      ensures if Under(c, d) then Ent(t', d).present ==>
        Guarded(r, t.kernel, d, Ent(t', d)) else Ent(t', d) == Ent(t, d) {
      hide Ent;
      PastAll(c, d);
      assert EntOk(r, t1, t', c, 512, d);
    }
    hide Done;
    DoneStep(r, t0, t, t', p, i);
  }

  // ---- accounting and runs of the protection ----

  /** Tables the kernel allocated have one reference, and so have the frames it holds already; the
      loader's tables lie outside the allocator. */
  ghost predicate TablesCounted(g: Layout, t: Tree, s: State, held: multiset<Frame>) {
    && (forall f | g.Managed(f) :: Refs(s, f) == TableUse(t, f) + held[f])
    && (forall f | f in held :: g.Managed(f) && Fresh(t, f))
  }

  /** The loader leaves the bit that the kernel uses to mark copy-on-write pages clear. */
  ghost predicate NoCow(t: Tree) { forall c :: !Leaf(t, c).cow }

  ghost predicate BootSound(g: Layout, t: Tree, s: State, held: multiset<Frame>) {
    BootTree(t) && Consistent(g, s) && TablesCounted(g, t, s, held) && NoCow(t)
  }

  function Target(v: Option<Page>): Option<(Frame, bool, bool, bool)> {
    if v.None? then None else Some((v.value.mapping.frame, v.value.pat, v.value.writeThrough, v.value.cacheDisable))
  }

  /** Every page still leads to the same frame with the same memory type. */
  ghost predicate SameTargets(t: Tree, t': Tree) {
    forall q: Pos | q.depth == 4 :: Target(PageView(t', q)) == Target(PageView(t, q))
  }

  lemma DoneTargets(r: Ranges, t0: Tree, t: Tree, p: Pos, n: nat)
    requires Done(r, t0, t, p, n)
    ensures SameTargets(t0, t)
  {
    hide PageView, Past;
    forall q: Pos | q.depth == 4 ensures Target(PageView(t, q)) == Target(PageView(t0, q)) {
      assert ViewOk(r, t0, t, p, n, q);
    }
  }

  lemma FreshFrame(g: Layout, t: Tree, s: State, held: multiset<Frame>, f: Frame)
    requires BootSound(g, t, s, held) && f < |s.used| && !s.used[f] && s.free > 0
    ensures Fresh(t, f) && g.Managed(f) && f !in held && Refs(s, f) == 0 && Consistent(g, Taken(s, f))
  {
    TakenConsistent(g, s, f);
    assert Refs(s, f) == TableUse(t, f) + held[f];
  }

  lemma SplitCounted(g: Layout, t: Tree, t': Tree, s: State, held: multiset<Frame>, c: Pos, f: Frame)
    requires TablesCounted(g, t, s, held) && f < |s.used| == |s.refs| && s.free > 0 && Fresh(t, f) && g.Managed(f)
    requires f !in held
    requires c !in t.at && t'.at == t.at[c := f]
    ensures TablesCounted(g, t', Taken(s, f), held)
  {
    forall h | h in held ensures Fresh(t', h) {
      assert Fresh(t, h);
    }
    forall h | g.Managed(h) ensures Refs(Taken(s, f), h) == TableUse(t', h) + held[h] {
      assert Refs(s, h) == TableUse(t, h) + held[h];
      if h == f {
        assert c in t'.at && t'.at[c] == f;
      } else if Fresh(t, h) {
        assert Fresh(t', h);
      } else {
        var x :| x in t.at && t.at[x] == h;
        assert t'.at[x] == h;
      }
    }
  }

  lemma SplitNoCow(t: Tree, t': Tree, c: Pos)
    requires NoCow(t) && Leaf(t, c).present && !Ent(t', c).cow
    requires forall d ::
      d != c ==> Ent(t', d) == if d.depth > 0 && Parent(d) == c then SplitChild(c.depth, Ent(t, c), Slot(d))
        else Ent(t, d)
    ensures NoCow(t')
  {
    hide Ent;
    forall d ensures !Leaf(t', d).cow {
      assert !Leaf(t, d).cow && !Leaf(t, c).cow;
    }
  }

  lemma SetSound(g: Layout, t: Tree, s: State, held: multiset<Frame>, c: Pos, e: Entry)
    requires BootSound(g, t, s, held) && Has(t, c) && Ent(t, c).present && e.present && c.depth <= 4
    requires if c.depth == 4 || Ent(t, c).large then !e.cow && (c.depth == 4 || e.large)
             else Linked(e) && e.frame == Ent(t, c).frame
    ensures IsTable(t, t.at[Parent(c)]) && BootSound(g, SetEnt(t, c, e), s, held)
    ensures forall d :: Ent(SetEnt(t, c, e), d) == if d == c then e else Ent(t, d)
  {
    hide Shape, IsTable;
    assert IsTable(t, t.at[Parent(c)]);
    if c.depth == 4 || Ent(t, c).large {
      PutLeafOk(t, c, e);
    } else {
      RelinkOk(t, c, e);
    }
    var t' := SetEnt(t, c, e);
    hide Ent, TreeOk, Consistent;
    assert forall f :: Fresh(t', f) == Fresh(t, f);
    forall d ensures !Leaf(t', d).cow {
      assert !Leaf(t, d).cow;
    }
  }

  lemma RelinkView(t: Tree, t': Tree, c: Pos, q: Pos)
    requires q.depth == 4 && c.depth < 4 && Linked(Ent(t, c)) && Linked(Ent(t', c))
    requires forall d :: d != c ==> Ent(t', d) == Ent(t, d)
    ensures PageView(t', q) == PageView(t, q)
  {
    ViewAlike(t, t', q);
  }

  lemma EntryAt(g: Layout, t: Tree, s: State, held: multiset<Frame>, p: Pos, i: nat)
    requires BootSound(g, t, s, held) && p in t.at && i < 512
    ensures p.depth <= 3 && p.root == t.kernel && IsTable(t, t.at[p])
    ensures var c := Child(p, i);
      Has(t, c) && Parent(c) == p && Slot(c) == i && c.depth == p.depth + 1 && !Leaf(t, c).cow
    ensures var e := t.mem[t.at[p]].entries[i]; Ent(t, Child(p, i)) == if e.present then e else ABSENT
    ensures Child(p, i).depth < 4 && Linked(Ent(t, Child(p, i))) ==> Child(p, i) in t.at
    ensures Child(p, i).depth < 4 && Linked(Ent(t, Child(p, i))) ==> t.at[Child(p, i)] == Ent(t, Child(p, i)).frame
  {
    TableAbove(t, p);
    ParentOfChild(p, i);
    ReadEnt(t, Child(p, i));
  }

  lemma TargetsTrans(t0: Tree, t1: Tree, t2: Tree)
    requires SameTargets(t0, t1) && SameTargets(t1, t2)
    ensures SameTargets(t0, t2)
  {
    hide PageView, Target;
    forall q: Pos | q.depth == 4 ensures Target(PageView(t2, q)) == Target(PageView(t0, q)) {
      assert Target(PageView(t1, q)) == Target(PageView(t0, q));
    }
  }

  ghost predicate SameViews(t: Tree, t': Tree) {
    forall q: Pos | q.depth == 4 :: PageView(t', q) == PageView(t, q)
  }

  ghost predicate OnlyBelow(t: Tree, t': Tree, c: Pos) {
    forall d | !Under(c, d) :: Ent(t', d) == Ent(t, d)
  }

  lemma ViewsRefl(t: Tree, c: Pos)
    ensures SameViews(t, t) && OnlyBelow(t, t, c)
  {
  }

  lemma ChildrenLeaves(depth: nat, e: Entry)
    requires 2 <= depth <= 3 && e.present && e.large
    ensures forall i: nat :: SplitChild(depth, e, i).present && (depth == 2 ==> SplitChild(depth, e, i).large)
  {
  }

  lemma SplitViews(t: Tree, t': Tree, c: Pos, f: Frame, es: seq<Entry>)
    requires BootTree(t) && BootTree(t') && 2 <= c.depth <= 3 && Leaf(t, c).present && NoCow(t)
    requires |es| == 512 && forall i | 0 <= i < 512 :: es[i] == SplitChild(c.depth, Ent(t, c), i)
    requires forall d :: Ent(t', d) == SplitEnt(t, c, f, es, d)
    ensures SameViews(t, t') && OnlyBelow(t, t', c) && NoCow(t')
  {
    hide Ent, BootTree, SplitChild;
    SplitNoCow(t, t', c);
    forall q: Pos | q.depth == 4 ensures PageView(t', q) == PageView(t, q) {
      SplitView(t, t', c, q);
    }
    forall d | !Under(c, d) ensures Ent(t', d) == Ent(t, d) {
      if d.depth > 0 && Parent(d) == c {
        assert Under(c, Parent(d));
      }
    }
  }

  lemma AbsentProtected(r: Ranges, g: Layout, t0: Tree, t: Tree, s: State, held: multiset<Frame>, p: Pos, i: nat)
    requires i < 512 && Done(r, t0, t, p, i) && BootSound(g, t, s, held) && p in t.at && !Ent(t, Child(p, i)).present
    ensures Done(r, t0, t, p, i + 1)
  {
    EntryAt(g, t, s, held, p, i);
    DoneAbsent(r, t0, t, p, i);
  }

  /** The link at `c` is opened: no page and nothing outside `c` changes. */
  lemma Opened(t0: Tree, t: Tree, t1: Tree, t2: Tree, c: Pos)
    requires SameTargets(t0, t) && SameViews(t, t1) && OnlyBelow(t, t1, c) && c.depth < 4
    requires Linked(Ent(t1, c)) && Linked(Ent(t2, c)) && forall d :: d != c ==> Ent(t2, d) == Ent(t1, d)
    ensures SameViews(t, t2) && OnlyBelow(t, t2, c) && SameTargets(t0, t2)
  {
    hide Ent, PageView;
    forall q: Pos | q.depth == 4 ensures PageView(t2, q) == PageView(t1, q) {
      RelinkView(t1, t2, c, q);
    }
    assert Under(c, c);
    forall q: Pos | q.depth == 4 ensures Target(PageView(t2, q)) == Target(PageView(t0, q)) {
      assert PageView(t2, q) == PageView(t1, q) == PageView(t, q);
    }
  }

  lemma LinkProtected(r: Ranges, t0: Tree, t: Tree, t1: Tree, t': Tree, p: Pos, i: nat)
    requires i < 512 && Done(r, t0, t, p, i) && Done(r, t1, t', Child(p, i), 512)
    requires t1.kernel == t.kernel && t'.kernel == t.kernel && p.depth < 3
    requires SameViews(t, t1) && OnlyBelow(t, t1, Child(p, i))
    requires OpenLink(Ent(t1, Child(p, i))) && !Ent(t1, Child(p, i)).user
    ensures Done(r, t0, t', p, i + 1)
  {
    hide Ent, PageView, Done;
    DoneLink(r, t0, t, t1, t', p, i);
  }

  lemma LeafProtected(r: Ranges, g: Layout, t0: Tree, t: Tree, t': Tree, s: State, held: multiset<Frame>, p: Pos,
                      i: nat)
    requires i < 512 && Done(r, t0, t, p, i) && BootSound(g, t, s, held) && BootSound(g, t', s, held)
    requires t'.kernel == t.kernel && p in t.at
    requires p.depth < 4 && Leaf(t, Child(p, i)).present
    requires p.depth == 3 || (Uniform(r, Child(p, i), Ent(t, Child(p, i))) && p.depth > 0)
    requires Ent(t', Child(p, i)) == GuardEntry(r, Child(p, i), Ent(t, Child(p, i)))
    requires forall d :: d != Child(p, i) ==> Ent(t', d) == Ent(t, d)
    ensures Done(r, t0, t', p, i + 1) && SameTargets(t0, t')
  {
    hide Ent, Done, BootTree, Uniform, GuardEntry;
    EntryAt(g, t, s, held, p, i);
    DoneLeaf(r, t0, t, t', p, i);
    DoneTargets(r, t0, t', p, i + 1);
  }

  // ---- the state the virtual memory manager starts from ----

  lemma {:induction false} UnderTop(r: Frame, c: Pos)
    requires c.root == r && InSpace(c)
    ensures Under(Pos(r, 0, 0), c)
    decreases c.depth
  {
    if c.depth > 0 {
      UnderTop(r, Parent(c));
    }
  }

  lemma {:induction false} PresentUnderTop(t: Tree, c: Pos)
    requires BootTree(t) && Ent(t, c).present
    ensures Under(Pos(t.kernel, 0, 0), c) && c.depth > 0
    decreases c.depth
  {
    TableAbove(t, Parent(c));
    if c.depth > 1 {
      PresentUnderTop(t, Parent(c));
    }
  }

  /** Protecting the whole kernel space leaves the flags in order and no user page anywhere. */
  lemma AllGuarded(r: Ranges, t0: Tree, t: Tree)
    requires BootTree(t) && Done(r, t0, t, Pos(t.kernel, 0, 0), 512)
    ensures FlagsOk(t) && Flat(t) == map[]
    ensures forall c | Ent(t, c).present :: Guarded(r, t.kernel, c, Ent(t, c))
    ensures forall q: Pos | q.depth == 4 && q.root == t.kernel && InSpace(q) ::
      PageView(t, q) == GuardPage(r, q, PageView(t0, q))
  {
    var top := Pos(t.kernel, 0, 0);
    forall c | Ent(t, c).present ensures Guarded(r, t.kernel, c, Ent(t, c)) {
      PresentUnderTop(t, c);
      PastAll(top, c);
      assert EntOk(r, t0, t, top, 512, c);
    }
    forall q: Pos | q.depth == 4 && q.root == t.kernel && InSpace(q)
      ensures PageView(t, q) == GuardPage(r, q, PageView(t0, q)) {
      UnderTop(t.kernel, q);
      PastAll(top, q);
      assert ViewOk(r, t0, t, top, 512, q);
    }
    hide Ent, Done, BootTree;
    assert forall c | Ent(t, c).present :: !Ent(t, c).user;
    assert Flat(t) == map[];
  }

  /** The manager's accounting starts out balanced. */
  lemma StartAccounts(g: Layout, t: Tree, s: State, held: multiset<Frame>)
    requires BootSound(g, t, s, held) && Flat(t) == map[]
    ensures Acct(g, t, s, held)
  {
    hide Flat;
    forall f ensures Count(Flat(t), f) == 0 {
      assert Users(Flat(t), f) == {};
    }
  }

  /** Kernel text is executable and nothing else is, and no page is writable and executable. What was
      writable stays so, unless it is kernel text or a frame of the read-only part. */
  lemma GuardedPage(r: Ranges, q: Pos, v: Option<Page>)
    requires q.depth == 4
    ensures GuardPage(r, q, v).Some? <==> v.Some?
    ensures v.Some? ==> var m, m0 := GuardPage(r, q, v).value.mapping, v.value.mapping;
      && Target(GuardPage(r, q, v)) == Target(v) && !m.user && m.cow == m0.cow
      && (!m.nx <==> r.text.Contains(Address(q), 4096))
      && (m.writable <==> m0.writable && m.nx && !r.readonly.Contains(m0.frame * 4096, 4096))
  {
  }

  /** The tables found at boot, changed in place. */
  class Pager {
    const pmm: Allocator
    const kernel: Frame
    var mem: map<Frame, Content>
    ghost var at: map<Pos, Frame>
    ghost const held: multiset<Frame>

    ghost function T(): Tree
      reads this
    {
      Tree(kernel, mem, at, {Pos(kernel, 0, 0)})
    }

    ghost predicate Valid()
      reads this, pmm, pmm.used, pmm.refs
    {
      BootSound(pmm.layout, T(), pmm.S(), held)
    }

    /** `held` are frames the kernel has taken before: the records of the processors. */
    constructor (pmm: Allocator, kernel: Frame, mem: map<Frame, Content>, ghost at: map<Pos, Frame>,
                 ghost held: multiset<Frame>)
      requires BootSound(pmm.layout, Tree(kernel, mem, at, {Pos(kernel, 0, 0)}), pmm.S(), held)
      ensures Valid() && this.pmm == pmm && this.kernel == kernel && this.mem == mem && this.at == at
      ensures this.held == held
    {
      this.held := held;
      this.pmm := pmm;
      this.kernel := kernel;
      this.mem := mem;
      this.at := at;
    }

    /** split_boot_mapping: no page changes, whether or not there is memory for the new table. */
    method Split(table: Frame, slot: nat, level: nat, ghost c: Pos) returns (ok: bool)
      requires Valid() && Has(T(), c) && 2 <= level <= 3 && c.depth == 5 - level
      requires at[Parent(c)] == table && Slot(c) == slot && Leaf(T(), c).present
      modifies this, pmm, pmm.used, pmm.refs
      ensures Valid()
      ensures ok <==> old(pmm.freePages) > 0
      ensures !ok ==> T() == old(T()) && pmm.S() == old(pmm.S())
      ensures ok ==> c in at && Ent(T(), c) == TableEntry(at[c], false)
      ensures forall x | x in old(at) :: x in at && at[x] == old(at)[x]
      ensures SameViews(old(T()), T()) && OnlyBelow(old(T()), T(), c)
    {
      hide TreeOk, Ent, Consistent, TablesCounted, NoCow, SameViews, OnlyBelow, SplitChild;
      ghost var t, s := T(), pmm.S();
      ReadEnt(t, c);
      ViewsRefl(t, c);
      var entry := mem[table].entries[slot];
      var page := pmm.AllocPage();
      if page.None? {
        return false;
      }
      var f := page.value;
      FreshFrame(pmm.layout, t, s, held, f);
      var entries: seq<Entry> := [];
      while |entries| < 512
        invariant |entries| <= 512 && forall i | 0 <= i < |entries| :: entries[i] == SplitChild(5 - level, entry, i)
      {
        entries := entries + [SplitChild(5 - level, entry, |entries|)];
      }
      ChildrenLeaves(c.depth, entry);
      SplitOk(t, c, f, entries);
      SplitCounted(pmm.layout, t, SplitTree(t, c, f, entries), s, held, c, f);
      mem := mem[f := Table(entries)];
      mem := mem[table := Table(mem[table].entries[slot := TableEntry(f, false)])];
      at := at[c := f];
      assert T() == SplitTree(t, c, f, entries);
      SplitViews(t, T(), c, f, entries);
      return true;
    }

    /** Writes the flags of the entry `c`. */
    method Write(table: Frame, slot: nat, e: Entry, ghost c: Pos)
      requires Valid() && Has(T(), c) && at[Parent(c)] == table && Slot(c) == slot && c.depth <= 4
      requires Ent(T(), c).present && e.present
      requires if c.depth == 4 || Ent(T(), c).large then !e.cow && (c.depth == 4 || e.large)
               else Linked(e) && e.frame == Ent(T(), c).frame
      modifies this`mem
      ensures Valid()
      ensures forall d :: Ent(T(), d) == if d == c then e else old(Ent(T(), d))
    {
      hide BootSound, Ent;
      SetSound(pmm.layout, T(), pmm.S(), held, c, e);
      ghost var t := T();
      mem := mem[table := Table(mem[table].entries[slot := e])];
      assert T() == SetEnt(t, c, e);
    }

    /** protect_boot_table. On success every page below the table is guarded and every entry there
        is safe; whatever happens, each page keeps its frame and memory type. */
    method Protect(r: Ranges, table: Frame, level: nat, prefix: nat, ghost p: Pos) returns (ok: bool)
      requires Valid() && p in at && at[p] == table && 1 <= level <= 4 && p.depth == 4 - level
      requires InSpace(p) && prefix == Address(p)
      modifies this, pmm, pmm.used, pmm.refs
      ensures Valid()
      ensures ok ==> Done(r, old(T()), T(), p, 512)
      ensures !ok ==> pmm.freePages == 0 || (level == 4 && exists c: Pos :: c.depth == 1 && old(Ent(T(), c)).large)
      ensures SameTargets(old(T()), T())
      ensures forall x | x in old(at) :: x in at && at[x] == old(at)[x]
      decreases level, 2
    {
      hide BootSound, Done, SameTargets, Ent, Address, InSpace;
      ghost var t0 := T();
      DoneStart(r, t0, p);
      DoneTargets(r, t0, t0, p, 0);
      var i := 0;
      while i < 512
        invariant 0 <= i <= 512 && Valid() && Done(r, t0, T(), p, i) && SameTargets(t0, T())
        invariant forall x | x in old(at) :: x in at && at[x] == old(at)[x]
      {
        ok := ProtectSlot(r, table, level, prefix, i, p, t0);
        if !ok {
          return false;
        }
        i := i + 1;
      }
      return true;
    }

    /** One entry of protect_boot_table: nothing to do, a page to guard, a large page to split, or a
        table below to protect. */
    method ProtectSlot(r: Ranges, table: Frame, level: nat, prefix: nat, i: nat, ghost p: Pos, ghost t0: Tree)
      returns (ok: bool)
      requires Valid() && p in at && at[p] == table && 1 <= level <= 4 && p.depth == 4 - level
      requires InSpace(p) && prefix == Address(p) && i < 512 && Done(r, t0, T(), p, i) && SameTargets(t0, T())
      modifies this, pmm, pmm.used, pmm.refs
      ensures Valid() && SameTargets(t0, T())
      ensures ok ==> Done(r, t0, T(), p, i + 1)
      ensures !ok ==> pmm.freePages == 0 || (level == 4 && exists c: Pos :: c.depth == 1 && Ent(t0, c).large)
      ensures forall x | x in old(at) :: x in at && at[x] == old(at)[x]
      decreases level, 1
    {
      hide BootSound, Ent, Done, PageView, SameTargets, SameViews, OnlyBelow, Address, SlotAddress, InSpace, Child,
        Slot, Parent, Under, Guarded;
      ghost var c, t := Child(p, i), T();
      EntryAt(pmm.layout, t, pmm.S(), held, p, i);
      SlotAddressOk(p, i);
      var entry := mem[table].entries[i];
      if !entry.present {
        AbsentProtected(r, pmm.layout, t0, t, pmm.S(), held, p, i);
        return true;
      }
      var address := SlotAddress(prefix, i, level);
      if level == 1 || entry.large {
        if level == 4 {
          SlotOf(r, t0, t, p, i);
          assert Ent(t0, c).large;
          return false;
        }
        var size := Bytes(5 - level);
        var physical := (entry.frame - entry.frame % Span(5 - level)) * 4096;
        var readonly := r.readonly.Contains(physical, size);
        var executable := r.text.Contains(address, size);
        if level > 1
          && ((!readonly && r.readonly.Overlaps(physical, size)) || (!executable && r.text.Overlaps(address, size))) {
          var split := Split(table, i, level, c);
          if !split {
            return false;
          }
        } else {
          Write(table, i,
            entry.(user := false, writable := entry.writable && !(readonly || executable), nx := !executable), c);
          LeafProtected(r, pmm.layout, t0, t, T(), pmm.S(), held, p, i);
          return true;
        }
      }
      ViewsRefl(t, c);
      ok := Descend(r, table, level, address, i, p, t0, t);
    }

    /** The entry leads to a table, maybe one just split off: open it and protect the table. */
    method Descend(r: Ranges, table: Frame, level: nat, address: nat, i: nat, ghost p: Pos, ghost t0: Tree,
                   ghost t: Tree)
      returns (ok: bool)
      requires Valid() && p in at && at[p] == table && 2 <= level <= 4 && p.depth == 4 - level && i < 512
      requires InSpace(Child(p, i)) && address == Address(Child(p, i)) && Linked(Ent(T(), Child(p, i)))
      requires t.kernel == kernel && p in t.at && Done(r, t0, t, p, i) && SameTargets(t0, t)
      requires SameViews(t, T()) && OnlyBelow(t, T(), Child(p, i))
      modifies this, pmm, pmm.used, pmm.refs
      ensures Valid() && SameTargets(t0, T())
      ensures ok ==> Done(r, t0, T(), p, i + 1)
      ensures !ok ==> pmm.freePages == 0
      ensures forall x | x in old(at) :: x in at && at[x] == old(at)[x]
      decreases level, 0
    {
      hide BootSound, Ent, Done, PageView, SameTargets, SameViews, OnlyBelow, Address, SlotAddress, InSpace, Child,
        Slot, Parent, Under, Guarded;
      ghost var c, t1 := Child(p, i), T();
      EntryAt(pmm.layout, t1, pmm.S(), held, p, i);
      var link := mem[table].entries[i].(writable := true, user := false, nx := false);
      Write(table, i, link, c);
      Opened(t0, t, t1, T(), c);
      ghost var t2 := T();
      ok := Protect(r, link.frame, level - 1, address, c);
      TargetsTrans(t0, t2, T());
      if !ok {
        return false;
      }
      LinkProtected(r, t0, t, t2, T(), p, i);
      return true;
    }

    /** The part of vmm_init that works on the tables. */
    method ProtectKernel(r: Ranges) returns (ok: bool)
      requires Valid()
      modifies this, pmm, pmm.used, pmm.refs
      ensures Valid() && SameTargets(old(T()), T())
      ensures !ok ==> pmm.freePages == 0 || exists c: Pos :: c.depth == 1 && old(Ent(T(), c)).large
      ensures ok ==> FlagsOk(T()) && Acct(pmm.layout, T(), pmm.S(), held)
      ensures ok ==> forall c | Ent(T(), c).present :: Guarded(r, kernel, c, Ent(T(), c))
      ensures ok ==>
        forall q: Pos | q.depth == 4 && q.root == kernel && InSpace(q) ::
          PageView(T(), q) == GuardPage(r, q, old(PageView(T(), q)))
    {
      hide Ent, Done, PageView, SameTargets, FlagsOk, Acct, Flat, Guarded, TablesCounted, NoCow, Consistent;
      TopTable(T());
      ok := Protect(r, kernel, 4, 0, Pos(kernel, 0, 0));
      if ok {
        AllGuarded(r, old(T()), T());
        StartAccounts(pmm.layout, T(), pmm.S(), held);
      }
    }
  }

  lemma TopTable(t: Tree)
    requires BootTree(t)
    ensures Pos(t.kernel, 0, 0) in t.at && t.at[Pos(t.kernel, 0, 0)] == t.kernel
    ensures InSpace(Pos(t.kernel, 0, 0)) && Address(Pos(t.kernel, 0, 0)) == 0
  {
  }
}
