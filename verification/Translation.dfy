/** What the tables translate: terminal entries, effective permissions, and how changes to the
    tables change them. */
module Translation {
  import opened Pmm
  import opened Paging

  /** The mapping that ends at `c`, a 4 KiB leaf or a large page; links to tables read as absent. */
  function Leaf(t: Tree, c: Pos): Entry {
    if c.depth == 4 || Ent(t, c).large then Ent(t, c) else ABSENT
  }

  /** The position `k` levels above `q`. */
  function Up(q: Pos, k: nat): (r: Pos)
    requires k <= q.depth
    ensures r.root == q.root && r.depth == q.depth - k
  {
    if k == 0 then q else Parent(Up(q, k - 1))
  }

  predicate OnPath(q: Pos, c: Pos)
    requires q.depth == 4
  {
    0 < c.depth < 4 && c == Up(q, 4 - c.depth)
  }

  lemma OnPathParent(q: Pos, c: Pos)
    requires q.depth == 4 && c.depth > 1 && (c == q || OnPath(q, c))
    ensures OnPath(q, Parent(c))
  {
    assert Up(q, 4 - c.depth + 1) == Parent(Up(q, 4 - c.depth));
  }

  // ---- page permissions, as the source keeps them ----

  /** A link to a table restricts nothing: permissions belong to the leaves. */
  predicate OpenLink(e: Entry) { Linked(e) && e.writable && !e.nx }

  /** Write and execute exclude each other, and a copy-on-write page is a read-only data page. */
  predicate LeafFlagsOk(e: Entry) {
    && (e.writable ==> e.nx)
    && (e.cow ==> e.nx && !e.writable && e.user)
  }

  predicate EntryOk(kernel: Frame, c: Pos, e: Entry) {
    && (c.depth < 4 && Linked(e) ==> OpenLink(e))
    && (c.depth == 4 || e.large ==> LeafFlagsOk(e))
    && (c.depth < 4 && e.large ==> !e.user && c.depth > 1)
    && (e.user ==> c.root != kernel)
  }

  ghost predicate UserAbove(t: Tree, c: Pos) {
    c.depth > 1 && Parent(c) !in t.roots ==> Ent(t, Parent(c)).user
  }

  ghost predicate EntriesOk(t: Tree) {
    forall c | Ent(t, c).present :: EntryOk(t.kernel, c, Ent(t, c))
  }

  ghost predicate FlagsOk(t: Tree) {
    && EntriesOk(t)
    && (forall c {:trigger UserAbove(t, c)} | Ent(t, c).present && Ent(t, c).user :: UserAbove(t, c))
  }

  lemma FlagsEntries(t: Tree)
    requires FlagsOk(t)
    ensures EntriesOk(t)
  {
  }

  lemma FlagsSame(t: Tree, t': Tree)
    requires FlagsOk(t) && t'.kernel == t.kernel && t'.roots == t.roots
    requires forall c :: Ent(t', c) == Ent(t, c)
    ensures FlagsOk(t')
  {
    hide Ent, EntryOk;
    forall c | Ent(t', c).present && Ent(t', c).user ensures UserAbove(t', c) {
      assert UserAbove(t, c);
    }
  }

  // ---- growing by empty tables ----

  /** `t` is `t0` with some empty tables added on open links. */
  ghost predicate Grown(t0: Tree, t: Tree) {
    && t.kernel == t0.kernel && t.roots == t0.roots
    && (forall p | p in t0.at :: p in t.at && t.at[p] == t0.at[p])
    && (forall c :: if c in t.at && c !in t0.at then !Ent(t0, c).present && OpenLink(Ent(t, c)) && c.depth < 4
                    else Ent(t, c) == Ent(t0, c))
  }

  lemma GrownLeaf(t0: Tree, t: Tree)
    requires Grown(t0, t)
    ensures forall c :: Leaf(t, c) == Leaf(t0, c)
    ensures Flat(t) == Flat(t0)
  {
    hide Ent, Flat;
    forall c ensures Leaf(t, c) == Leaf(t0, c) {
      AbsentAlike(t0, c);
      hide Ent;
    }
    assert forall c: Pos | c.depth == 4 :: Leaf(t, c) == Ent(t, c) && Leaf(t0, c) == Ent(t0, c);
    FlatSame(t0, t);
  }

  lemma GrownAdd(t0: Tree, t: Tree, t': Tree, c: Pos)
    requires Grown(t0, t) && c !in t.at && !Ent(t, c).present
    requires t'.kernel == t.kernel && t'.roots == t.roots && c.depth < 4
    requires c in t'.at && t'.at - {c} == t.at
    requires OpenLink(Ent(t', c)) && forall d :: d != c ==> Ent(t', d) == Ent(t, d)
    ensures Grown(t0, t')
  {
    hide Ent, OpenLink;
    forall p | p in t0.at ensures p in t'.at && t'.at[p] == t0.at[p] {
      assert p in (t'.at - {c});
    }
    forall p | p in t'.at && p != c ensures p in t.at {
      assert p in (t'.at - {c});
    }
  }

  lemma GrownRemove(t0: Tree, t: Tree, t': Tree, c: Pos)
    requires Grown(t0, t) && c in t.at && c !in t0.at
    requires t'.kernel == t.kernel && t'.roots == t.roots
    requires t'.at == t.at - {c}
    requires !Ent(t', c).present && forall d :: d != c ==> Ent(t', d) == Ent(t, d)
    ensures Grown(t0, t')
  {
    hide Ent, OpenLink;
    AbsentAlike(t0, c);
    AbsentAlike(t', c);
  }

  // ---- one new mapping ----

  /** `t` is `t0` with the mapping `e` at `q`: links on the way may be new or newly user. */
  ghost predicate Mapped(t0: Tree, t: Tree, q: Pos, e: Entry)
    requires q.depth == 4
  {
    && t.kernel == t0.kernel && t.roots == t0.roots
    && (forall p | p in t0.at :: p in t.at && t.at[p] == t0.at[p])
    && (forall p | p in t.at && p !in t0.at :: OnPath(q, p))
    && (forall c :: MappedEnt(t0, t, q, e, c))
  }

  ghost predicate MappedEnt(t0: Tree, t: Tree, q: Pos, e: Entry, c: Pos)
    requires q.depth == 4
  {
    if c == q then Ent(t, c) == e
    else if OnPath(q, c) then
      && OpenLink(Ent(t, c))
      && (Ent(t0, c).present ==> Linked(Ent(t0, c)))
      && (Ent(t, c).user <==> Ent(t0, c).user || e.user)
    else Ent(t, c) == Ent(t0, c)
  }

  lemma MappedLeaf(t0: Tree, t: Tree, q: Pos, e: Entry)
    requires q.depth == 4 && Mapped(t0, t, q, e)
    ensures forall c :: Leaf(t, c) == if c == q then e else Leaf(t0, c)
  {
    forall c ensures Leaf(t, c) == if c == q then e else Leaf(t0, c) {
      AbsentAlike(t0, c);
      assert MappedEnt(t0, t, q, e, c);
      hide Ent, OnPath;
    }
  }

  lemma MappedFlat(t0: Tree, t: Tree, q: Pos, e: Entry)
    requires q.depth == 4 && Mapped(t0, t, q, e) && e.present && !Ent(t0, q).present
    ensures q !in Flat(t0)
    ensures Flat(t) == if e.user then Flat(t0)[q := e] else Flat(t0)
  {
    hide Flat, Ent, Up;
    forall d: Pos | d.depth == 4 && d != q ensures Ent(t, d) == Ent(t0, d) {
      assert MappedEnt(t0, t, q, e, d);
    }
    assert MappedEnt(t0, t, q, e, q);
    FlatSet(t0, t, q);
  }

  lemma MappedFlags(t0: Tree, t: Tree, q: Pos, e: Entry)
    requires q.depth == 4 && Shape(t0) && FlagsOk(t0) && Mapped(t0, t, q, e)
    requires EntryOk(t0.kernel, q, e) && e.present
    ensures FlagsOk(t)
  {
    forall c | Ent(t, c).present ensures EntryOk(t.kernel, c, Ent(t, c)) {
      assert MappedEnt(t0, t, q, e, c);
      hide Ent, OnPath;
    }
    forall c | Ent(t, c).present && Ent(t, c).user ensures UserAbove(t, c) {
      if c.depth > 1 && Parent(c) !in t.roots {
        MappedUserAbove(t0, t, q, e, c);
      }
    }
  }

  lemma MappedUserAbove(t0: Tree, t: Tree, q: Pos, e: Entry, c: Pos)
    requires q.depth == 4 && Shape(t0) && FlagsOk(t0) && Mapped(t0, t, q, e)
    requires c.depth > 1 && Parent(c) !in t.roots && Ent(t, c).user
    ensures Ent(t, Parent(c)).user
  {
    hide Ent, EntryOk, Up, OpenLink, Shape;
    PresentDepth(t0, c);
    assert MappedEnt(t0, t, q, e, c);
    assert MappedEnt(t0, t, q, e, Parent(c));
    if e.user && (c == q || OnPath(q, c)) {
      OnPathParent(q, c);
      assert Parent(c) != q;
    } else {
      UserPresent(t0, c);
      assert c != q ==> Ent(t0, c).user;
      if c != q {
        assert UserAbove(t0, c);
        assert Parent(c) != q;
      }
    }
  }

  lemma PresentDepth(t: Tree, c: Pos)
    requires Shape(t)
    ensures Ent(t, c).user ==> c.depth <= 4
  {
  }

  lemma UserPresent(t: Tree, c: Pos)
    ensures Ent(t, c).user ==> Ent(t, c).present
  {
  }

  // ---- the translation of a page ----

  datatype Mapping = Mapping(frame: Frame, writable: bool, user: bool, cow: bool, nx: bool)

  /** Pages under one entry at depth `d`. */
  function Span(d: nat): nat
    requires d <= 4
  {
    if d == 4 then 1 else if d == 3 then 512 else if d == 2 then 262144 else if d == 1 then 134217728 else 68719476736
  }

  function Terminal(t: Tree, c: Pos): Pos
    decreases c.depth
  {
    if c.depth == 0 || Leaf(t, c).present then c else Terminal(t, Parent(c))
  }

  /** The flat map of a space: what its tables say about the page at leaf position `q`. */
  function Translate(t: Tree, q: Pos): Option<Mapping>
    requires q.depth == 4
  {
    var c := Terminal(t, q);
    var e := Leaf(t, c);
    if e.present && c.depth <= 4 then
      Some(Mapping(e.frame - e.frame % Span(c.depth) + q.prefix % Span(c.depth), e.writable, e.user, e.cow, e.nx))
    else None
  }

  lemma {:induction false} TerminalSame(t: Tree, t': Tree, q: Pos, c: Pos)
    requires q.depth == 4 && c.depth <= 4 && (c.depth == 4 ==> c != q)
    requires forall d :: d != q ==> Leaf(t', d) == Leaf(t, d)
    ensures Terminal(t', c) == Terminal(t, c) && Leaf(t', Terminal(t, c)) == Leaf(t, Terminal(t, c))
    decreases c.depth
  {
    hide Leaf;
    if c.depth > 0 && !Leaf(t, c).present {
      TerminalSame(t, t', q, Parent(c));
    }
  }

  /** If the terminal entries agree except at one page, so do the translations. */
  lemma TranslateElsewhere(t: Tree, t': Tree, q: Pos, q': Pos)
    requires q.depth == 4 == q'.depth && q != q'
    requires forall d :: d != q ==> Leaf(t', d) == Leaf(t, d)
    ensures Translate(t', q') == Translate(t, q')
  {
    hide Leaf;
    TerminalSame(t, t', q, q');
  }

  /** Nothing in the tables differs, wherever data has changed. */
  ghost predicate SameTables(t: Tree, t': Tree) { forall c :: Ent(t', c) == Ent(t, c) }

  lemma TablesRefl(t: Tree)
    ensures SameTables(t, t)
  {
  }

  lemma TablesTrans(t: Tree, t': Tree, t'': Tree)
    requires SameTables(t, t') && SameTables(t', t'')
    ensures SameTables(t, t'')
  {
    hide Ent;
  }

  lemma {:induction false} TerminalTables(t: Tree, t': Tree, c: Pos)
    requires SameTables(t, t')
    ensures Terminal(t', c) == Terminal(t, c)
    decreases c.depth
  {
    hide Ent;
    if c.depth > 0 && !Leaf(t, c).present {
      TerminalTables(t, t', Parent(c));
    }
  }

  /** Unchanged tables translate every page as before. */
  lemma TranslateTables(t: Tree, t': Tree, q: Pos)
    requires SameTables(t, t') && q.depth == 4
    ensures Translate(t', q) == Translate(t, q)
  {
    hide Ent, Terminal;
    TerminalTables(t, t', q);
  }

  lemma {:induction false} TerminalRoot(t: Tree, c: Pos)
    ensures Terminal(t, c).root == c.root
    decreases c.depth
  {
    if c.depth > 0 && !Leaf(t, c).present {
      TerminalRoot(t, Parent(c));
    }
  }

  /** With the flags in order no page is writable and executable, copy-on-write pages are data, and
      the kernel's own pages are closed to user code. */
  lemma WriteXorExecute(t: Tree, q: Pos)
    requires FlagsOk(t) && q.depth == 4 && Translate(t, q).Some?
    ensures var m := Translate(t, q).value;
      !(m.writable && !m.nx) && (m.cow ==> m.nx && !m.writable && m.user) && (q.root == t.kernel ==> !m.user)
  {
    TerminalRoot(t, q);
    var c := Terminal(t, q);
    assert EntryOk(t.kernel, c, Ent(t, c));
  }
}
