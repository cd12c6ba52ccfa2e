/** Four-level page tables in physical memory, and what a set of tables means as flat maps.

    A table is named by its position: the space it belongs to, its depth (0 for the top table,
    3 for the tables of 4 KiB leaves) and the virtual-address prefix it covers. An entry is named
    by the position it leads to: entry `c` is slot `Slot(c)` of the table at `Parent(c)`. */
module Paging {
  import opened Pmm

  type byte = b: int | 0 <= b < 256

  datatype Entry = Entry(present: bool, writable: bool, user: bool, writeThrough: bool,
                         cacheDisable: bool, large: bool, cow: bool, nx: bool, frame: Frame)

  const ABSENT := Entry(false, false, false, false, false, false, false, false, 0)

  /** An entry above the last level that leads to a further table. */
  predicate Linked(e: Entry) { e.present && !e.large }

  function EmptyTable(): (es: seq<Entry>)
    ensures |es| == 512 && forall i | 0 <= i < 512 :: es[i] == ABSENT
  {
    seq(512, _ => ABSENT)
  }

  datatype Content = Table(entries: seq<Entry>) | Data(bytes: seq<byte>)

  datatype Pos = Pos(root: Frame, depth: nat, prefix: nat)

  function Child(p: Pos, i: nat): Pos { Pos(p.root, p.depth + 1, p.prefix * 512 + i) }

  function Parent(c: Pos): Pos
    requires c.depth > 0
  {
    Pos(c.root, c.depth - 1, c.prefix / 512)
  }

  function Slot(c: Pos): nat { c.prefix % 512 }

  /** `at` places every table; `roots` are the tops of trees: live spaces and detached subtrees. */
  datatype Tree = Tree(kernel: Frame, mem: map<Frame, Content>, at: map<Pos, Frame>, roots: set<Pos>)

  /** The slots of a table that belong to its space: the upper half of a process's top table
      only repeats the kernel's entries. */
  predicate Owned(kernel: Frame, c: Pos) {
    c.depth == 1 && c.root != kernel ==> c.prefix < 256
  }

  predicate Has(t: Tree, c: Pos) {
    c.depth > 0 && Parent(c) in t.at && Owned(t.kernel, c)
  }

  predicate IsTable(t: Tree, f: Frame) {
    f in t.mem && t.mem[f].Table? && |t.mem[f].entries| == 512
  }

  /** The entry at `c`; entries that are not present all read alike. */
  function Ent(t: Tree, c: Pos): Entry {
    if Has(t, c) && IsTable(t, t.at[Parent(c)]) then
      var e := t.mem[t.at[Parent(c)]].entries[Slot(c)];
      if e.present then e else ABSENT
    else ABSENT
  }

  /** Every position holds a table of its own. */
  ghost predicate Shape(t: Tree) {
    && (forall p | p in t.at :: IsTable(t, t.at[p]) && p.depth <= 3)
    && (forall p, q | p in t.at && q in t.at && t.at[p] == t.at[q] :: p == q)
    && (forall p | p in t.at && p.depth == 0 :: p.prefix == 0 && t.at[p] == p.root)
  }

  /** Links and positions agree: the tables form a forest whose tops are `roots`. */
  ghost predicate TreeOk(t: Tree) {
    && Shape(t)
    && t.roots <= t.at.Keys
    && (forall c | c in t.at && c !in t.roots :: c.depth > 0 && Linked(Ent(t, c)) && Ent(t, c).frame == t.at[c])
    && (forall c: Pos | c.depth < 4 && Linked(Ent(t, c)) :: c in t.at && c !in t.roots)
  }

  function SetEnt(t: Tree, c: Pos, e: Entry): Tree
    requires Has(t, c) && IsTable(t, t.at[Parent(c)])
  {
    var f := t.at[Parent(c)];
    t.(mem := t.mem[f := Table(t.mem[f].entries[Slot(c) := e])])
  }

  lemma SetEntShape(t: Tree, c: Pos, e: Entry)
    requires Shape(t) && Has(t, c)
    ensures Shape(SetEnt(t, c, e))
    ensures forall d :: Ent(SetEnt(t, c, e), d) == if d == c then (if e.present then e else ABSENT) else Ent(t, d)
  {
    var t' := SetEnt(t, c, e);
    forall d | d != c ensures Ent(t', d) == Ent(t, d) {
      if Has(t, d) {
        if Parent(d) == Parent(c) {
          assert d.prefix == d.prefix / 512 * 512 + d.prefix % 512;
          assert c.prefix == c.prefix / 512 * 512 + c.prefix % 512;
          assert Slot(d) != Slot(c);
        } else {
          assert t.at[Parent(d)] != t.at[Parent(c)];
        }
      }
    }
  }

  // ---- user leaves ----

  predicate IsUser(t: Tree, c: Pos) {
    c.depth == 4 && Ent(t, c).present && Ent(t, c).user
  }

  lemma ChildOfParent(c: Pos)
    requires c.depth > 0
    ensures Child(Parent(c), Slot(c)) == c
  {
  }

  lemma ParentOfChild(p: Pos, i: nat)
    requires i < 512
    ensures Parent(Child(p, i)) == p && Slot(Child(p, i)) == i
  {
  }

  ghost function UserLeaves(t: Tree): (r: set<Pos>)
    ensures forall c :: c in r <==> IsUser(t, c)
  {
    var r := set p, i | p in t.at && p.depth == 3 && 0 <= i < 512 && IsUser(t, Child(p, i)) :: Child(p, i);
    assert forall c :: c in r <==> IsUser(t, c) by {
      forall c | IsUser(t, c) ensures c in r {
        ChildOfParent(c);
        assert Parent(c) in t.at && IsUser(t, Child(Parent(c), Slot(c)));
      }
    }
    r
  }

  /** The user mappings of every space at once, as one flat map from leaf position to entry. */
  ghost function Flat(t: Tree): (m: map<Pos, Entry>)
    ensures forall c :: c in m <==> IsUser(t, c)
    ensures forall c | c in m :: m[c] == Ent(t, c)
  {
    map c | c in UserLeaves(t) :: if IsUser(t, c) then Ent(t, c) else ABSENT
  }

  lemma FlatSame(t: Tree, t': Tree)
    requires forall c: Pos | c.depth == 4 :: Ent(t', c) == Ent(t, c)
    ensures Flat(t') == Flat(t)
  {
    assert forall c :: c in Flat(t') <==> c in Flat(t);
  }

  lemma FlatSet(t: Tree, t': Tree, c: Pos)
    requires c.depth == 4
    requires forall d: Pos | d.depth == 4 && d != c :: Ent(t', d) == Ent(t, d)
    ensures Flat(t') == if IsUser(t', c) then Flat(t)[c := Ent(t', c)] else Flat(t) - {c}
  {
    var m := if IsUser(t', c) then Flat(t)[c := Ent(t', c)] else Flat(t) - {c};
    assert forall d :: d in Flat(t') <==> d in m;
  }

  /** How many mappings of a flat map lead to frame `f`. */
  ghost function Users(m: map<Pos, Entry>, f: Frame): (r: set<Pos>)
    ensures forall c :: c in r <==> c in m && m[c].frame == f
  {
    set c | c in m && m[c].frame == f
  }

  ghost function Count(m: map<Pos, Entry>, f: Frame): nat { |Users(m, f)| }

  lemma CountRemove(m: map<Pos, Entry>, c: Pos, f: Frame)
    requires c in m
    ensures Count(m - {c}, f) == Count(m, f) - (if m[c].frame == f then 1 else 0)
  {
    if m[c].frame == f {
      assert Users(m - {c}, f) == Users(m, f) - {c};
    } else {
      assert Users(m - {c}, f) == Users(m, f);
    }
  }

  lemma CountInsert(m: map<Pos, Entry>, c: Pos, e: Entry, f: Frame)
    requires c !in m
    ensures Count(m[c := e], f) == Count(m, f) + (if e.frame == f then 1 else 0)
  {
    var m' := m[c := e];
    assert m' - {c} == m;
    CountRemove(m', c, f);
  }

  lemma CountReplace(m: map<Pos, Entry>, c: Pos, e: Entry, f: Frame)
    requires c in m
    ensures Count(m[c := e], f) == Count(m, f) - (if m[c].frame == f then 1 else 0) + (if e.frame == f then 1 else 0)
  {
    CountRemove(m, c, f);
    CountInsert(m - {c}, c, e, f);
    assert (m - {c})[c := e] == m[c := e];
  }

  // ---- moves on the forest: what each does to the entries, and that the forest survives ----

  /** A cleared frame becomes a detached table at `p`. */
  function AddTable(t: Tree, p: Pos, f: Frame): Tree {
    t.(mem := t.mem[f := Table(EmptyTable())], at := t.at[p := f], roots := t.roots + {p})
  }

  ghost predicate Fresh(t: Tree, f: Frame) { forall p | p in t.at :: t.at[p] != f }

  lemma AddTableEnt(t: Tree, p: Pos, f: Frame)
    requires Shape(t) && p !in t.at && Fresh(t, f) && p.depth <= 3
    requires p.depth == 0 ==> p.prefix == 0 && p.root == f
    ensures Shape(AddTable(t, p, f))
    ensures forall c :: Ent(AddTable(t, p, f), c) == Ent(t, c)
  {
    var t' := AddTable(t, p, f);
    forall c ensures Ent(t', c) == Ent(t, c) {
      if c.depth > 0 && Parent(c) == p {
        assert !Has(t, c);
      }
    }
  }

  lemma AddTableOk(t: Tree, p: Pos, f: Frame)
    requires TreeOk(t) && p !in t.at && Fresh(t, f) && p.depth <= 3
    requires p.depth == 0 ==> p.prefix == 0 && p.root == f
    ensures TreeOk(AddTable(t, p, f))
    ensures forall c :: Ent(AddTable(t, p, f), c) == Ent(t, c)
    ensures Flat(AddTable(t, p, f)) == Flat(t)
  {
    hide Ent, Shape, Flat;
    AddTableEnt(t, p, f);
    FlatSame(t, AddTable(t, p, f));
  }

  /** A detached table is linked into its parent. */
  function Attach(t: Tree, c: Pos, e: Entry): Tree
    requires Has(t, c) && IsTable(t, t.at[Parent(c)])
  {
    SetEnt(t, c, e).(roots := t.roots - {c})
  }

  lemma AttachEnt(t: Tree, c: Pos, e: Entry)
    requires Shape(t) && Has(t, c)
    ensures Shape(Attach(t, c, e))
    ensures forall d :: Ent(Attach(t, c, e), d) == if d == c then (if e.present then e else ABSENT) else Ent(t, d)
  {
    SetEntShape(t, c, e);
    assert forall d :: Ent(Attach(t, c, e), d) == Ent(SetEnt(t, c, e), d);
  }

  lemma AttachOk(t: Tree, c: Pos, e: Entry)
    requires TreeOk(t) && c in t.roots && Has(t, c) && c.depth < 4 && !Ent(t, c).present
    requires Linked(e) && e.frame == t.at[c]
    ensures TreeOk(Attach(t, c, e))
    ensures forall d :: Ent(Attach(t, c, e), d) == if d == c then e else Ent(t, d)
    ensures Flat(Attach(t, c, e)) == Flat(t)
  {
    assert IsTable(t, t.at[Parent(c)]);
    hide Ent, Shape, Flat;
    AttachEnt(t, c, e);
    FlatSame(t, Attach(t, c, e));
  }

  /** Clearing the link to a table leaves it detached. */
  function Detach(t: Tree, c: Pos): Tree
    requires Has(t, c) && IsTable(t, t.at[Parent(c)])
  {
    SetEnt(t, c, ABSENT).(roots := t.roots + {c})
  }

  lemma DetachEnt(t: Tree, c: Pos)
    requires Shape(t) && Has(t, c)
    ensures Shape(Detach(t, c))
    ensures forall d :: Ent(Detach(t, c), d) == if d == c then ABSENT else Ent(t, d)
  {
    SetEntShape(t, c, ABSENT);
    assert forall d :: Ent(Detach(t, c), d) == Ent(SetEnt(t, c, ABSENT), d);
  }

  lemma LinkHas(t: Tree, c: Pos)
    requires Shape(t) && Ent(t, c).present
    ensures Has(t, c) && IsTable(t, t.at[Parent(c)])
  {
  }

  lemma DetachOk(t: Tree, c: Pos)
    requires TreeOk(t) && c in t.at && c !in t.roots
    ensures Has(t, c) && IsTable(t, t.at[Parent(c)])
    ensures TreeOk(Detach(t, c))
    ensures forall d :: Ent(Detach(t, c), d) == if d == c then ABSENT else Ent(t, d)
    ensures Flat(Detach(t, c)) == Flat(t)
  {
    hide Ent, Shape, Flat;
    LinkHas(t, c);
    assert c.depth < 4 by { DepthBound(t, c); }
    DetachEnt(t, c);
    FlatSame(t, Detach(t, c));
  }

  lemma DepthBound(t: Tree, c: Pos)
    requires Shape(t) && c in t.at
    ensures c.depth < 4
  {
  }

  /** A detached table without present entries is given up. */
  function DropTable(t: Tree, p: Pos): Tree {
    t.(at := t.at - {p}, roots := t.roots - {p})
  }

  ghost predicate NoEntries(t: Tree, p: Pos) {
    forall c: Pos | c.depth > 0 && Parent(c) == p :: !Ent(t, c).present
  }

  /** Taking a table out of the forest silences its own entries and no others. */
  lemma RemoveEnt(t: Tree, p: Pos, rs: set<Pos>)
    requires Shape(t) && p in t.at
    ensures var t' := t.(at := t.at - {p}, roots := rs);
      && Shape(t')
      && Fresh(t', t.at[p])
      && forall c :: Ent(t', c) == if c.depth > 0 && Parent(c) == p then ABSENT else Ent(t, c)
  {
    var t' := t.(at := t.at - {p}, roots := rs);
    forall c ensures Ent(t', c) == if c.depth > 0 && Parent(c) == p then ABSENT else Ent(t, c) {
    }
  }

  lemma AbsentAlike(t: Tree, c: Pos)
    ensures Ent(t, c).present || Ent(t, c) == ABSENT
  {
  }

  lemma DropTableOk(t: Tree, p: Pos)
    requires TreeOk(t) && p in t.roots && NoEntries(t, p)
    ensures TreeOk(DropTable(t, p))
    ensures forall c :: Ent(DropTable(t, p), c) == Ent(t, c)
    ensures Flat(DropTable(t, p)) == Flat(t)
    ensures Fresh(DropTable(t, p), t.at[p])
  {
    hide Ent, Shape, Flat, Parent, Linked, Fresh;
    RemoveEnt(t, p, t.roots - {p});
    forall c ensures Ent(DropTable(t, p), c) == Ent(t, c) {
      AbsentAlike(t, c);
    }
    FlatSame(t, DropTable(t, p));
  }

  /** Writing an entry that links no table: a leaf, a large page, or nothing. */
  lemma PutLeafOk(t: Tree, c: Pos, e: Entry)
    requires TreeOk(t) && Has(t, c)
    requires c.depth == 4 || (!Linked(e) && !Linked(Ent(t, c)))
    ensures TreeOk(SetEnt(t, c, e))
    ensures forall d :: Ent(SetEnt(t, c, e), d) == if d == c then (if e.present then e else ABSENT) else Ent(t, d)
  {
    hide Ent, Shape;
    SetEntShape(t, c, e);
  }

  /** Changing the flags of a link keeps the forest. */
  lemma RelinkOk(t: Tree, c: Pos, e: Entry)
    requires TreeOk(t) && c.depth < 4 && Linked(Ent(t, c)) && Linked(e) && e.frame == Ent(t, c).frame
    ensures Has(t, c) && IsTable(t, t.at[Parent(c)])
    ensures TreeOk(SetEnt(t, c, e))
    ensures forall d :: Ent(SetEnt(t, c, e), d) == if d == c then e else Ent(t, d)
    ensures Flat(SetEnt(t, c, e)) == Flat(t)
  {
    hide Ent, Shape, Flat;
    LinkHas(t, c);
    SetEntShape(t, c, e);
    FlatSame(t, SetEnt(t, c, e));
  }

  ghost function LinkedChildren(t: Tree, p: Pos): (r: set<Pos>)
    ensures forall c :: c in r <==> c in t.at && c !in t.roots && c.depth > 0 && Parent(c) == p
  {
    set c | c in t.at && c !in t.roots && c.depth > 0 && Parent(c) == p
  }

  /** A table on its way out: it leaves the forest and each table below it becomes a top. */
  ghost function Disband(t: Tree, p: Pos): Tree {
    t.(at := t.at - {p}, roots := t.roots - {p} + LinkedChildren(t, p))
  }

  lemma DisbandOk(t: Tree, p: Pos)
    requires TreeOk(t) && p in t.roots
    ensures TreeOk(Disband(t, p))
    ensures forall c :: Ent(Disband(t, p), c) == if c.depth > 0 && Parent(c) == p then ABSENT else Ent(t, c)
    ensures Fresh(Disband(t, p), t.at[p])
  {
    hide Ent, Shape, Parent, Fresh;
    RemoveEnt(t, p, Disband(t, p).roots);
  }
}
