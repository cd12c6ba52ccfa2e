/** Copy-on-write duplication of a space (vmm_space_clone_cow): lemmas on table trees as values. */
module Fork {
  import opened Pmm
  import opened Paging
  import opened Accounts
  import opened Translation
  import opened Walks
  import opened Cow
  import opened Subtrees
  import opened Clones

  // ---- write-protecting the parent ----

  predicate WritablePage(e: Entry) { e.present && e.user && e.writable }

  /** A writable user page turns into a copy-on-write page; other pages stay. */
  function Protect(e: Entry): Entry {
    if WritablePage(e) then e.(writable := false, cow := true) else e
  }

  ghost predicate ProtectedEnt(t0: Tree, t: Tree, p: Pos, i: nat, c: Pos) {
    Ent(t, c) == if c.depth == 4 && p.depth < 4 && Gone(p, i, c) then Protect(Ent(t0, c)) else Ent(t0, c)
  }

  /** The user pages below the first `i` entries of the table at `p` are write-protected. */
  ghost predicate Protected(t0: Tree, t: Tree, p: Pos, i: nat) {
    && t.kernel == t0.kernel && t.at == t0.at && t.roots == t0.roots
    && forall c :: ProtectedEnt(t0, t, p, i, c)
  }

  lemma ProtectStart(t: Tree, p: Pos)
    requires p.depth < 4
    ensures Protected(t, t, p, 0)
  {
    forall c ensures ProtectedEnt(t, t, p, 0, c) {
      GoneEnds(p, c);
      hide Ent;
    }
  }

  /** The slot about to be looked at is as it was. */
  lemma ProtectSlot(t0: Tree, t: Tree, p: Pos, i: nat)
    requires Protected(t0, t, p, i) && i < 512
    ensures Ent(t, Child(p, i)) == Ent(t0, Child(p, i))
  {
    hide Ent;
    ParentOfChild(p, i);
    var c := Child(p, i);
    assert ProtectedEnt(t0, t, p, i, c);
    GoneStep(p, i, c);
    UnderChild(p, i, c);
  }

  lemma ProtectLeafStep(t0: Tree, t: Tree, t': Tree, p: Pos, i: nat)
    requires p.depth == 3 && i < 512 && Protected(t0, t, p, i)
    requires t'.kernel == t.kernel && t'.at == t.at && t'.roots == t.roots
    requires forall c :: Ent(t', c) == if c == Child(p, i) then Protect(Ent(t0, c)) else Ent(t, c)
    ensures Protected(t0, t', p, i + 1)
  {
    hide Ent;
    var n := i + 1;
    forall c ensures ProtectedEnt(t0, t', p, n, c) {
      assert ProtectedEnt(t0, t, p, i, c);
      GoneStep(p, i, c);
      ParentOfChild(p, i);
      if Under(Child(p, i), c) {
        UnderRoot(Child(p, i), c);
      }
    }
  }

  lemma ProtectSkipStep(t0: Tree, t: Tree, p: Pos, i: nat)
    requires TreeOk(t0) && Whole(t0, p) && p in t0.at && p.depth < 3 && i < 512 && Protected(t0, t, p, i)
    requires !Linked(Ent(t0, Child(p, i)))
    ensures Protected(t0, t, p, i + 1)
  {
    hide Ent, TreeOk, Whole;
    var n := i + 1;
    forall c ensures ProtectedEnt(t0, t, p, n, c) {
      assert ProtectedEnt(t0, t, p, i, c);
      GoneStep(p, i, c);
      ParentOfChild(p, i);
      if c.depth == 4 && Under(Child(p, i), c) {
        BelowSlot(t0, p, i, c);
      }
    }
  }

  lemma ProtectLinkStep(t0: Tree, t: Tree, t': Tree, p: Pos, i: nat)
    requires p.depth < 3 && i < 512 && Protected(t0, t, p, i) && Protected(t, t', Child(p, i), 512)
    ensures Protected(t0, t', p, i + 1)
  {
    hide Ent;
    var n := i + 1;
    forall c ensures ProtectedEnt(t0, t', p, n, c) {
      assert ProtectedEnt(t0, t, p, i, c) && ProtectedEnt(t, t', Child(p, i), 512, c);
      GoneStep(p, i, c);
      GoneEnds(Child(p, i), c);
      ParentOfChild(p, i);
    }
  }

  lemma ProtectWhole(t0: Tree, t: Tree, p: Pos, i: nat)
    requires Protected(t0, t, p, i) && Whole(t0, p) && i < 512
    ensures Whole(t, Child(p, i))
  {
    hide Ent;
    forall q | q in t.roots && q != Child(p, i) ensures !Under(Child(p, i), q) {
      UnderChild(p, i, q);
    }
  }

  // ---- giving the child its pages ----

  /** The child's entry for a page of the parent. */
  function CowOf(e: Entry): Entry {
    Entry(true, false, true, false, false, false, e.cow || e.writable, e.nx, e.frame)
  }

  /** Same tables and entries outside space `r`. */
  ghost predicate SameElsewhere(t0: Tree, t: Tree, r: Frame) {
    && t.kernel == t0.kernel && t.roots == t0.roots
    && (forall c: Pos | c.root != r :: (c in t.at <==> c in t0.at) && (c in t0.at ==> t.at[c] == t0.at[c]))
    && (forall c: Pos | c.root != r :: Ent(t, c) == Ent(t0, c))
  }

  /** `m` adds to `m0` the child's pages for those of the parent below the first `i` entries of `p`. */
  ghost predicate Copied(m0: map<Pos, Entry>, m: map<Pos, Entry>, p: Pos, r: Frame, i: nat) {
    forall c :: CopiedAt(m0, m, p, r, i, c)
  }

  ghost predicate Source(m0: map<Pos, Entry>, p: Pos, r: Frame, i: nat, c: Pos) {
    c.root == r && c.depth > p.depth && Gone(p, i, In(c, p.root)) && In(c, p.root) in m0
  }

  ghost predicate CopiedAt(m0: map<Pos, Entry>, m: map<Pos, Entry>, p: Pos, r: Frame, i: nat, c: Pos) {
    && (c in m <==> c in m0 || Source(m0, p, r, i, c))
    && (c in m0 ==> c in m && m[c] == m0[c])
    && (c !in m0 && c in m ==> m[c] == CowOf(m0[In(c, p.root)]))
  }

  /** The child has no user page yet where the pages below `p` would go. */
  ghost predicate Unfilled(m: map<Pos, Entry>, p: Pos, r: Frame) {
    forall c | c in m && c.root == r :: !Under(p, In(c, p.root))
  }

  lemma CopyStart(m: map<Pos, Entry>, p: Pos, r: Frame)
    ensures Copied(m, m, p, r, 0)
  {
    forall c ensures CopiedAt(m, m, p, r, 0, c) {
      GoneEnds(p, In(c, p.root));
    }
  }

  /** No page below slot `i`: nothing to do. */
  lemma CopySkipStep(m0: map<Pos, Entry>, m: map<Pos, Entry>, p: Pos, r: Frame, i: nat)
    requires i < 512 && Copied(m0, m, p, r, i) && forall c | c in m0 :: !Under(Child(p, i), c)
    ensures Copied(m0, m, p, r, i + 1)
  {
    var n := i + 1;
    forall c ensures CopiedAt(m0, m, p, r, n, c) {
      assert CopiedAt(m0, m, p, r, i, c);
      GoneStep(p, i, In(c, p.root));
    }
  }

  lemma CopyPageStep(m0: map<Pos, Entry>, m: map<Pos, Entry>, m': map<Pos, Entry>, p: Pos, r: Frame, i: nat)
    requires i < 512 && p.depth == 3 && p.root != r && Copied(m0, m, p, r, i) && Child(p, i) in m0
    requires (forall c | c in m0 :: c.depth == 4) && In(Child(p, i), r) !in m
    requires m' == m[In(Child(p, i), r) := CowOf(m0[Child(p, i)])]
    ensures Copied(m0, m', p, r, i + 1)
  {
    var n := i + 1;
    var k := In(Child(p, i), r);
    assert In(k, p.root) == Child(p, i);
    forall c ensures CopiedAt(m0, m', p, r, n, c) {
      assert CopiedAt(m0, m, p, r, i, c);
      GoneStep(p, i, In(c, p.root));
      if Under(Child(p, i), In(c, p.root)) {
        UnderRoot(Child(p, i), In(c, p.root));
        UnderChild(p, i, In(c, p.root));
      }
    }
  }

  lemma CopyLinkStep(m0: map<Pos, Entry>, m: map<Pos, Entry>, m': map<Pos, Entry>, p: Pos, r: Frame, i: nat)
    requires i < 512 && p.depth < 3 && p.root != r && Copied(m0, m, p, r, i) && Copied(m, m', Child(p, i), r, 512)
    requires forall c | c in m0 :: c.depth == 4
    ensures Copied(m0, m', p, r, i + 1)
  {
    var n := i + 1;
    forall c ensures CopiedAt(m0, m', p, r, n, c) {
      CopyLinkAt(m0, m, m', p, r, i, c);
    }
  }

  lemma CopyLinkAt(m0: map<Pos, Entry>, m: map<Pos, Entry>, m': map<Pos, Entry>, p: Pos, r: Frame, i: nat, c: Pos)
    requires i < 512 && p.depth < 3 && p.root != r && Copied(m0, m, p, r, i) && Copied(m, m', Child(p, i), r, 512)
    requires forall c | c in m0 :: c.depth == 4
    ensures CopiedAt(m0, m', p, r, i + 1, c)
  {
    hide Gone, Under;
    assert CopiedAt(m0, m, p, r, i, c) && CopiedAt(m, m', Child(p, i), r, 512, c);
    assert CopiedAt(m0, m, p, r, i, In(c, p.root));
    GoneStep(p, i, In(c, p.root));
    GoneEnds(Child(p, i), In(c, p.root));
  }

  lemma CopyUnfilled(m0: map<Pos, Entry>, m: map<Pos, Entry>, p: Pos, r: Frame, i: nat)
    requires i < 512 && Copied(m0, m, p, r, i) && Unfilled(m0, p, r)
    ensures Unfilled(m, Child(p, i), r) && In(Child(p, i), r) !in m
  {
    forall c | c in m && c.root == r ensures !Under(Child(p, i), In(c, Child(p, i).root)) {
      assert CopiedAt(m0, m, p, r, i, c);
      UnderChild(p, i, In(c, p.root));
    }
    var k := In(Child(p, i), r);
    assert In(k, p.root) == Child(p, i);
    assert Under(Child(p, i), Child(p, i));
  }

  // ---- frame contents and exclusiveness across a fork ----

  ghost predicate KeepsData(held: multiset<Frame>, t: Tree, t': Tree) {
    forall f | InUse(t, held, f) && IsData(t, f) :: IsData(t', f) && t'.mem[f] == t.mem[f]
  }

  lemma KeepsGivesData(held: multiset<Frame>, t: Tree, s: State, t': Tree, s': State)
    requires Keeps(held, t, s, t', s')
    ensures KeepsData(held, t, t')
  {
    hide InUse, IsData;
  }

  lemma KeepsDataRefl(held: multiset<Frame>, t: Tree)
    ensures KeepsData(held, t, t)
  {
  }

  lemma KeepsDataTrans(held: multiset<Frame>, t: Tree, t': Tree, t'': Tree)
    requires KeepsData(held, t, t') && KeepsData(held, t', t'')
    requires forall c | c in Flat(t) :: c in Flat(t') && Flat(t')[c].frame == Flat(t)[c].frame
    ensures KeepsData(held, t, t'')
  {
    hide Flat, IsData;
    forall f | InUse(t, held, f) ensures InUse(t', held, f) {
      if f !in held {
        var c :| c in Users(Flat(t), f);
        assert c in Users(Flat(t'), f);
      }
    }
  }

  /** A position of a space is reached from the space's top table. */
  lemma {:induction false} AllUnder(t: Tree, c: Pos)
    requires TreeOk(t) && Tops(t.roots) && c in t.at
    ensures Under(Pos(c.root, 0, 0), c) && Pos(c.root, 0, 0) in t.at
    decreases c.depth
  {
    if c.depth == 0 {
      assert c == Pos(c.root, 0, 0);
    } else {
      hide TreeOk;
      ParentAt(t, c);
      AllUnder(t, Parent(c));
    }
  }

  lemma LeafUnder(t: Tree, c: Pos)
    requires TreeOk(t) && Tops(t.roots) && Ent(t, c).present
    ensures c.depth > 0 && Under(Pos(c.root, 0, 0), c)
  {
    hide TreeOk, Ent;
    EntHas(t, c);
    AllUnder(t, Parent(c));
  }

  // ---- addresses ----

  /** Bytes under one entry of a table at depth `d`. */
  function EntryBytes(d: nat): nat
    requires d <= 3
  {
    if d == 3 then 4096 else if d == 2 then 0x20_0000 else if d == 1 then 0x4000_0000 else 0x80_0000_0000
  }

  /** The first address a table covers. */
  function BaseOf(p: Pos): nat
    requires p.depth <= 3
  {
    p.prefix * 512 * EntryBytes(p.depth)
  }

  /** page_table_virtual_address, where the prefix has no bits below the index. */
  function EntryAddress(prefix: nat, i: nat, level: nat): nat
    requires 1 <= level <= 4
  {
    prefix + i * EntryBytes(4 - level)
  }

  predicate InLower(p: Pos) {
    p.prefix < if p.depth == 0 then 1 else if p.depth == 1 then 256 else if p.depth == 2 then 131072
      else if p.depth == 3 then 67108864 else 34359738368
  }

  lemma EntryAddressOk(p: Pos, i: nat, level: nat)
    requires 1 <= level <= 4 && p.depth == 4 - level && i < 512 && InLower(p) && (level == 4 ==> i < 256)
    ensures InLower(Child(p, i))
    ensures level > 1 ==> EntryAddress(BaseOf(p), i, level) == BaseOf(Child(p, i))
    ensures level == 1 ==> EntryAddress(BaseOf(p), i, level) == Child(p, i).prefix * 4096
  {
  }

  /** A lower-half page number and its address. */
  lemma PageAddress(q: Pos, r: Frame)
    requires q.depth == 4 && InLower(q)
    ensures PageOf(r, q.prefix * 4096) == In(q, r)
    ensures q.prefix * 4096 % PAGE_SIZE == 0 && q.prefix * 4096 < LOWER_END && Canonical(q.prefix * 4096)
  {
  }

  // ---- the whole fork ----

  ghost predicate ForkedAt(m0: map<Pos, Entry>, m: map<Pos, Entry>, parent: Frame, child: Frame, c: Pos) {
    if c.root == child then (c in m <==> In(c, parent) in m0) && (c in m ==> m[c] == CowOf(m0[In(c, parent)]))
    else (c in m <==> c in m0) && (c in m ==> m[c] == if c.root == parent then Protect(m0[c]) else m0[c])
  }

  /** The child maps exactly the parent's frames, copy-on-write; the parent loses its write
      permission on them; no other space changes. */
  ghost predicate Forked(m0: map<Pos, Entry>, m: map<Pos, Entry>, parent: Frame, child: Frame) {
    forall c :: ForkedAt(m0, m, parent, child, c)
  }

  /** The same frame for the same uses: what may be executed, and what may be written to, at once or after
      a resolution, is unchanged; but for now nobody writes to it. */
  predicate SameUse(e: Entry, e': Entry) {
    && e'.present && e'.user && e'.frame == e.frame && e'.nx == e.nx
    && (e'.writable || e'.cow <==> e.writable || e.cow) && !e'.writable
  }

  /** Every page of the parent is now a page of both, for the same uses. */
  ghost predicate SharedBy(m0: map<Pos, Entry>, m: map<Pos, Entry>, parent: Frame, child: Frame) {
    forall q | q in m0 && q.root == parent ::
      q in m && In(q, child) in m && SameUse(m0[q], m[q]) && SameUse(m0[q], m[In(q, child)])
  }

  lemma ForkShares(t: Tree, m: map<Pos, Entry>, parent: Frame, child: Frame)
    requires Forked(Flat(t), m, parent, child) && parent != child
    ensures SharedBy(Flat(t), m, parent, child)
  {
    hide Flat, Ent, Forked;
    forall q | q in Flat(t) && q.root == parent
      ensures q in m && In(q, child) in m && SameUse(Flat(t)[q], m[q]) && SameUse(Flat(t)[q], m[In(q, child)]) {
      ForkedPage(Flat(t), m, parent, child, q);
      PageAt(t, q);
    }
  }

  lemma CowUse(t: Tree, q: Pos)
    requires q in Flat(t)
    ensures SameUse(Flat(t)[q], CowOf(Flat(t)[q]))
  {
    hide Flat;
    PageAt(t, q);
  }

  lemma ForkedPage(m0: map<Pos, Entry>, m: map<Pos, Entry>, parent: Frame, child: Frame, q: Pos)
    requires Forked(m0, m, parent, child) && parent != child && q in m0 && q.root == parent
    ensures q in m && In(q, child) in m && m[q] == Protect(m0[q]) && m[In(q, child)] == CowOf(m0[q])
  {
    assert In(In(q, child), parent) == q;
    assert ForkedAt(m0, m, parent, child, q) && ForkedAt(m0, m, parent, child, In(q, child));
  }

  lemma ForkDone(t0: Tree, t1: Tree, t2: Tree, parent: Frame, child: Frame)
    requires TreeOk(t0) && Tops(t0.roots) && parent != child
    requires Copied(Flat(t0), Flat(t1), Pos(parent, 0, 0), child, 512) && Protected(t1, t2, Pos(parent, 0, 0), 512)
    requires forall c | c in Flat(t0) :: c.root != child
    ensures Forked(Flat(t0), Flat(t2), parent, child) && SharedBy(Flat(t0), Flat(t2), parent, child)
  {
    hide Flat, TreeOk, Tops, Copied, Protected, SharedBy, ForkedAt;
    forall c ensures ForkedAt(Flat(t0), Flat(t2), parent, child, c) {
      ForkDoneAt(t0, t1, t2, parent, child, c);
    }
    ForkShares(t0, Flat(t2), parent, child);
  }

  lemma ForkDoneAt(t0: Tree, t1: Tree, t2: Tree, parent: Frame, child: Frame, c: Pos)
    requires TreeOk(t0) && Tops(t0.roots) && parent != child
    requires Copied(Flat(t0), Flat(t1), Pos(parent, 0, 0), child, 512) && Protected(t1, t2, Pos(parent, 0, 0), 512)
    requires forall c | c in Flat(t0) :: c.root != child
    ensures ForkedAt(Flat(t0), Flat(t2), parent, child, c)
  {
    hide Ent, Flat, TreeOk, Gone;
    var p := Pos(parent, 0, 0);
    assert CopiedAt(Flat(t0), Flat(t1), p, child, 512, c) && ProtectedEnt(t1, t2, p, 512, c);
    hide Copied, Protected;
    GoneEnds(p, c);
    GoneEnds(p, In(c, parent));
    if In(c, parent) in Flat(t0) {
      LeafUnder(t0, In(c, parent));
    }
    if Under(p, c) {
      UnderRoot(p, c);
    }
    hide Under;
  }

  lemma {:induction false} ProtectRest(t0: Tree, t: Tree, p: Pos, i: nat)
    requires TreeOk(t0) && Whole(t0, p) && p in t0.at && p.depth < 3 && i <= 512 && Protected(t0, t, p, i)
    requires forall j | i <= j < 512 :: Ent(t0, Child(p, j)) == ABSENT
    ensures Protected(t0, t, p, 512)
    decreases 512 - i
  {
    hide TreeOk, Whole, Protected, Ent, Child;
    if i < 512 {
      ProtectSkipStep(t0, t, p, i);
      ProtectRest(t0, t, p, i + 1);
    }
  }

  lemma ChildDepth(p: Pos, i: nat)
    ensures Child(p, i).depth == p.depth + 1 && Child(p, i).root == p.root
  {
  }

  lemma TopPrefix(t: Tree, p: Pos)
    requires TreeOk(t) && p in t.at
    ensures p.depth == 0 ==> p.prefix == 0
  {
  }

  lemma KeepsFrames(held: multiset<Frame>, t: Tree, t': Tree, t'': Tree, s: State)
    requires Keeps(held, t, s, t', s) && Keeps(held, t', s, t'', s)
    requires forall c | c in Flat(t) :: c in Flat(t') && Flat(t')[c].frame == Flat(t)[c].frame
    ensures Keeps(held, t, s, t'', s)
  {
    hide Flat, IsData;
    forall f | InUse(t, held, f) ensures InUse(t', held, f) {
      if f !in held {
        var c :| c in Users(Flat(t), f);
        assert c in Users(Flat(t'), f);
      }
    }
  }

  lemma MappedElsewhere(t0: Tree, t: Tree, q: Pos, e: Entry)
    requires q.depth == 4 && Mapped(t0, t, q, e)
    ensures SameElsewhere(t0, t, q.root)
  {
    hide Ent;
    forall c: Pos | c.root != q.root ensures Ent(t, c) == Ent(t0, c) && (c in t.at <==> c in t0.at) {
      assert MappedEnt(t0, t, q, e, c);
      hide Up;
    }
  }

  lemma SameIsElsewhere(t0: Tree, t: Tree, r: Frame)
    requires t.kernel == t0.kernel && t.roots == t0.roots && t.at == t0.at && forall c :: Ent(t, c) == Ent(t0, c)
    ensures SameElsewhere(t0, t, r)
  {
    hide Ent;
  }

  lemma ElsewhereTrans(t0: Tree, t1: Tree, t2: Tree, r: Frame)
    requires SameElsewhere(t0, t1, r) && SameElsewhere(t1, t2, r)
    ensures SameElsewhere(t0, t2, r)
  {
    hide Ent;
  }

  lemma ElsewhereSlot(t0: Tree, t: Tree, r: Frame, p: Pos, i: nat)
    requires SameElsewhere(t0, t, r) && p.root != r && p in t0.at
    ensures p in t.at && t.at[p] == t0.at[p] && Ent(t, Child(p, i)) == Ent(t0, Child(p, i))
  {
    hide Ent;
  }

  lemma ElsewhereWhole(t0: Tree, t: Tree, r: Frame, p: Pos, i: nat)
    requires SameElsewhere(t0, t, r) && Whole(t0, p) && i < 512
    ensures Whole(t, Child(p, i))
  {
    hide Ent;
    forall q | q in t.roots && q != Child(p, i) ensures !Under(Child(p, i), q) {
      UnderChild(p, i, q);
    }
  }

  lemma FlatDepth(t: Tree)
    ensures forall c | c in Flat(t) :: c.depth == 4
  {
    hide Flat;
  }

  /** No page of the parent lies below a slot that links no table and maps no user page. */
  lemma NoPageBelow(t: Tree, p: Pos, i: nat)
    requires TreeOk(t) && Whole(t, p) && p in t.at && i < 512
    requires if p.depth == 3 then !IsUser(t, Child(p, i)) else !Linked(Ent(t, Child(p, i)))
    ensures forall c | c in Flat(t) :: !Under(Child(p, i), c)
  {
    hide TreeOk, Whole, Ent, Flat;
    ChildDepth(p, i);
    ShapeAt(t, p);
    forall c | c in Flat(t) ensures !Under(Child(p, i), c) {
      if Under(Child(p, i), c) && c != Child(p, i) {
        BelowSlot(t, p, i, c);
      }
    }
  }

  lemma {:induction false} CopyRest(t0: Tree, m: map<Pos, Entry>, p: Pos, r: Frame, i: nat)
    requires TreeOk(t0) && Whole(t0, p) && p in t0.at && p.depth < 3 && i <= 512 && Copied(Flat(t0), m, p, r, i)
    requires forall j | i <= j < 512 :: Ent(t0, Child(p, j)) == ABSENT
    ensures Copied(Flat(t0), m, p, r, 512)
    decreases 512 - i
  {
    hide TreeOk, Whole, Ent, Child, Copied, Flat;
    if i < 512 {
      NoPageBelow(t0, p, i);
      CopySkipStep(Flat(t0), m, p, r, i);
      CopyRest(t0, m, p, r, i + 1);
    }
  }

  /** Pages of the source space are as they were while the child is being filled. */
  lemma CopiedKeeps(m0: map<Pos, Entry>, m: map<Pos, Entry>, p: Pos, r: Frame, i: nat)
    requires Copied(m0, m, p, r, i)
    ensures forall c | c in m0 :: c in m && m[c] == m0[c]
  {
    forall c | c in m0 ensures c in m && m[c] == m0[c] {
      assert CopiedAt(m0, m, p, r, i, c);
    }
  }

  /** One more reference to a frame some user page maps. */
  lemma RetainUser(g: Layout, t: Tree, s: State, held: multiset<Frame>, q: Pos)
    requires TreeOk(t) && Consistent(g, s) && Acct(g, t, s, held) && q in Flat(t)
    ensures Flat(t)[q].frame < |s.refs| && IsData(t, Flat(t)[q].frame)
    ensures Acct(g, t, Retained(s, Flat(t)[q].frame), held + multiset{Flat(t)[q].frame})
  {
    hide TreeOk, Acct, Flat, Consistent, Fresh, Shape;
    ShapeOf(t);
    UserCounted(g, t, s, held, q);
    FrameFresh(g, t, s, held, Flat(t)[q].frame);
    TableUseFresh(t, Flat(t)[q].frame);
    RetainOk(g, t, s, held, Flat(t)[q].frame);
  }

  lemma LeafIsEnt(t: Tree, q: Pos)
    requires q.depth == 4
    ensures Leaf(t, q) == Ent(t, q)
  {
  }

  lemma CowEntryOk(kernel: Frame, q: Pos, e: Entry, child: Frame)
    requires EntryOk(kernel, q, e) && q.depth == 4 && child != kernel
    ensures EntryOk(kernel, In(q, child), CowOf(e))
  {
  }

  lemma PageAt(t: Tree, c: Pos)
    ensures c in Flat(t) <==> c.depth == 4 && Ent(t, c).present && Ent(t, c).user
    ensures c in Flat(t) ==> Flat(t)[c] == Ent(t, c)
    ensures IsUser(t, c) <==> c in Flat(t)
  {
    hide Ent;
  }

  lemma ForkStep(held: multiset<Frame>, t0: Tree, t: Tree, t': Tree, r: Frame)
    requires SameElsewhere(t0, t, r) && SameElsewhere(t, t', r) && KeepsData(held, t0, t) && KeepsData(held, t, t')
    requires forall c | c in Flat(t0) :: c in Flat(t) && Flat(t)[c] == Flat(t0)[c]
    ensures SameElsewhere(t0, t', r) && KeepsData(held, t0, t')
  {
    hide Flat, SameElsewhere, KeepsData;
    ElsewhereTrans(t0, t, t', r);
    KeepsDataTrans(held, t0, t, t');
  }

  lemma NoPagesIn(t: Tree, r: Frame, p: Pos)
    requires TreeOk(t) && Tops(t.roots) && Pos(r, 0, 0) !in t.at
    ensures (forall c | c in Flat(t) :: c.root != r) && (forall c | c in t.at :: c.root != r)
    ensures (forall c: Pos | c.root == r :: Ent(t, c) == ABSENT) && Unfilled(Flat(t), p, r)
  {
    hide Ent;
    forall c | c in t.at ensures c.root != r {
      AllUnder(t, c);
    }
    forall c: Pos | c.root == r ensures Ent(t, c) == ABSENT {
      AbsentOutside(t, c);
    }
  }

  lemma AbsentOutside(t: Tree, c: Pos)
    ensures (c.depth == 0 || Parent(c) !in t.at) ==> Ent(t, c) == ABSENT
  {
  }

  /** Destroying the child of a failed fork restores every table and entry. */
  lemma ForkUndone(t0: Tree, t1: Tree, t2: Tree, child: Frame)
    requires TreeOk(t0) && Tops(t0.roots) && TreeOk(t2) && Tops(t2.roots) && Pos(child, 0, 0) !in t0.at
    requires child != t0.kernel
    requires Cloned(t0, t1, Pos(t0.kernel, 0, 0), child, 256) && SameElsewhere(t1, t2, child)
    ensures var w := Without(t2, Pos(child, 0, 0));
      w.at == t0.at && w.roots == t0.roots && w.kernel == t0.kernel && forall c :: Ent(w, c) == Ent(t0, c)
  {
    hide Ent, TreeOk;
    var k := Pos(t0.kernel, 0, 0);
    var d := Pos(child, 0, 0);
    var w := Without(t2, d);
    NoPagesIn(t0, child, k);
    assert d == In(k, child);
    RootsAt(t0);
    forall c ensures c in w.at <==> c in t0.at {
      ForkUndoneAt(t0, t1, t2, child, c);
    }
    forall c | c in t0.at ensures w.at[c] == t0.at[c] {
      ForkUndoneAt(t0, t1, t2, child, c);
    }
    forall c ensures Ent(w, c) == Ent(t0, c) {
      ForkUndoneEnt(t0, t1, t2, child, c);
    }
    assert w.at == t0.at;
  }

  lemma ForkUndoneEnt(t0: Tree, t1: Tree, t2: Tree, child: Frame, c: Pos)
    requires TreeOk(t0) && Tops(t0.roots) && TreeOk(t2) && Tops(t2.roots) && Pos(child, 0, 0) !in t0.at
    requires child != t0.kernel
    requires Cloned(t0, t1, Pos(t0.kernel, 0, 0), child, 256) && SameElsewhere(t1, t2, child)
    ensures Ent(Without(t2, Pos(child, 0, 0)), c) == Ent(t0, c)
  {
    hide Ent, TreeOk;
    RemovedEnt(t2, Without(t2, Pos(child, 0, 0)), c);
    NoPagesIn(t0, child, Pos(t0.kernel, 0, 0));
    AbsentOutside(t0, c);
    if c.root != child {
      OriginalSame(t0, t1, Pos(t0.kernel, 0, 0), child, 256, c);
      if c.depth > 0 {
        ForkUndoneAt(t0, t1, t2, child, Parent(c));
      }
    } else if c.depth > 0 {
      ForkUndoneAt(t0, t1, t2, child, Parent(c));
    }
  }

  lemma ForkUndoneAt(t0: Tree, t1: Tree, t2: Tree, child: Frame, c: Pos)
    requires TreeOk(t0) && Tops(t0.roots) && TreeOk(t2) && Tops(t2.roots) && Pos(child, 0, 0) !in t0.at
    requires child != t0.kernel
    requires Cloned(t0, t1, Pos(t0.kernel, 0, 0), child, 256) && SameElsewhere(t1, t2, child)
    ensures c in Without(t2, Pos(child, 0, 0)).at <==> c in t0.at
    ensures c in t0.at ==> c in t2.at && t2.at[c] == t0.at[c]
  {
    hide Ent, TreeOk;
    NoPagesIn(t0, child, Pos(0, 0, 0));
    if c.root != child {
      OriginalSame(t0, t1, Pos(t0.kernel, 0, 0), child, 256, c);
      if Under(Pos(child, 0, 0), c) { UnderRoot(Pos(child, 0, 0), c); }
    } else if c in t2.at {
      AllUnder(t2, c);
    }
  }

  lemma CowExclusive(g: Layout, t0: Tree, s0: State, t: Tree, s: State, held: multiset<Frame>, parent: Frame,
                     child: Frame)
    requires Shape(t) && Acct(g, t0, s0, held) && Acct(g, t, s, held) && Exclusive(t0, s0)
    requires Forked(Flat(t0), Flat(t), parent, child)
    ensures Exclusive(t, s)
  {
    hide Flat, Acct, Shape;
    forall c | c in Flat(t) && Flat(t)[c].writable ensures Refs(s, Flat(t)[c].frame) == 1 {
      assert ForkedAt(Flat(t0), Flat(t), parent, child, c);
      SoleMapping(g, t0, s0, held, c);
      var f := Flat(t)[c].frame;
      forall d | d in Flat(t) && Flat(t)[d].frame == f ensures d == c {
        assert ForkedAt(Flat(t0), Flat(t), parent, child, d);
      }
      SoleUser(g, t, s, held, c);
    }
  }

  /** A frame mapped by one page only and held by nobody has one reference. */
  lemma SoleUser(g: Layout, t: Tree, s: State, held: multiset<Frame>, c: Pos)
    requires Shape(t) && Acct(g, t, s, held) && c in Flat(t) && Flat(t)[c].frame !in held
    requires forall d | d in Flat(t) && Flat(t)[d].frame == Flat(t)[c].frame :: d == c
    ensures Refs(s, Flat(t)[c].frame) == 1
  {
    hide Flat;
    var f := Flat(t)[c].frame;
    FrameFresh(g, t, s, held, f);
    assert Users(Flat(t), f) == {c};
  }

  lemma ProtectedRoots(t0: Tree, t: Tree, p: Pos, i: nat)
    requires Protected(t0, t, p, i)
    ensures t.roots == t0.roots && t.at == t0.at
  {
  }

  lemma SameExclusive(g: Layout, t: Tree, s: State, t': Tree, s': State, held: multiset<Frame>)
    requires Consistent(g, s) && Consistent(g, s') && Acct(g, t, s, held) && Acct(g, t', s', held)
    requires t'.at == t.at && (forall c :: Ent(t', c) == Ent(t, c)) && Exclusive(t, s)
    ensures Flat(t') == Flat(t) && Exclusive(t', s')
  {
    hide Ent, Flat, Acct, Consistent;
    FlatSame(t, t');
    SameCounts(g, t, s, t', s', held);
  }
}
