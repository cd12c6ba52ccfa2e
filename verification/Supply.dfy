/** How many frames the copying of tables can need, and what a fork does to the tables as a whole. */
module Supply {
  import opened Pmm
  import opened Paging
  import opened Accounts
  import opened Translation
  import opened Walks
  import opened Cow
  import opened Subtrees
  import opened Clones
  import opened Fork

  ghost function FreeFrames(used: seq<bool>): (r: set<nat>)
    ensures forall f: nat :: f in r <==> f < |used| && !used[f]
  {
    set f: nat | f < |used| && !used[f]
  }

  lemma {:induction false} FreeFramesSize(used: seq<bool>)
    ensures |FreeFrames(used)| == ClearBits(used)
  {
    if used == [] {
      assert FreeFrames(used) == {};
    } else {
      var n := |used| - 1;
      var rest := used[..n];
      FreeFramesSize(rest);
      ClearBitsSplit(rest, used[n..]);
      assert used == rest + used[n..];
      assert used[n..] == [used[n]];
      assert FreeFrames(used) == FreeFrames(rest) + if used[n] then {} else {n};
    }
  }

  ghost function FramesAt(at: map<Pos, Frame>, ps: set<Pos>): (r: set<Frame>)
    requires ps <= at.Keys
    ensures forall c | c in ps :: at[c] in r
    ensures forall f | f in r :: exists c | c in ps :: at[c] == f
  {
    set c | c in ps :: at[c]
  }

  lemma {:induction false} FramesAtSize(at: map<Pos, Frame>, ps: set<Pos>)
    requires ps <= at.Keys
    ensures |FramesAt(at, ps)| <= |ps|
    decreases |ps|
  {
    if ps != {} {
      var c :| c in ps;
      FramesAtSize(at, ps - {c});
      assert FramesAt(at, ps) == FramesAt(at, ps - {c}) + {at[c]};
    }
  }

  /** Only new tables use up free pages, if the frames user pages map were mapped before. */
  lemma FreeDrop(g: Layout, t: Tree, s: State, t': Tree, s': State, held: multiset<Frame>)
    requires Consistent(g, s) && Consistent(g, s') && Acct(g, t, s, held) && Acct(g, t', s', held)
    requires forall c | c in t.at :: c in t'.at && t'.at[c] == t.at[c]
    requires forall f | Count(Flat(t'), f) > 0 :: Count(Flat(t), f) > 0
    ensures s'.free + |t'.at.Keys - t.at.Keys| >= s.free
  {
    hide Flat, Count, ClearBits;
    var added := t'.at.Keys - t.at.Keys;
    var a, b, n := FreeFrames(s.used), FreeFrames(s'.used), FramesAt(t'.at, added);
    FreeFramesSize(s.used);
    FreeFramesSize(s'.used);
    FramesAtSize(t'.at, added);
    forall f | f in a && f !in b ensures f in n {
      NowTable(g, t, s, t', s', held, f);
    }
    SubsetSize(a, b + n);
  }

  lemma NowTable(g: Layout, t: Tree, s: State, t': Tree, s': State, held: multiset<Frame>, f: Frame)
    requires Consistent(g, s) && Consistent(g, s') && Acct(g, t, s, held) && Acct(g, t', s', held)
    requires forall c | c in t.at :: c in t'.at && t'.at[c] == t.at[c]
    requires Count(Flat(t'), f) > 0 ==> Count(Flat(t), f) > 0
    requires f < |s.used| && !s.used[f] && s'.used[f]
    ensures exists c | c in t'.at.Keys - t.at.Keys :: t'.at[c] == f
  {
    hide Flat, Count, ClearBits;
    assert g.Managed(f) && Refs(s, f) == 0 && Refs(s', f) > 0;
    assert !Fresh(t', f);
    var c :| c in t'.at && t'.at[c] == f;
    assert c !in t.at;
  }

  // ---- the tables a copy takes ----

  /** The table at `p` and the tables below its first `i` entries. */
  ghost function Part(t: Tree, p: Pos, i: nat): (r: set<Pos>)
    ensures forall c :: c in r <==> c in t.at && Gone(p, i, c)
  {
    set c | c in t.at && Gone(p, i, c)
  }

  ghost function Copies(ps: set<Pos>, r: Frame): (q: set<Pos>)
    ensures forall c | c in ps :: In(c, r) in q
  {
    set c | c in ps :: In(c, r)
  }

  lemma {:induction false} CopiesSize(ps: set<Pos>, r: Frame)
    ensures |Copies(ps, r)| <= |ps|
    decreases |ps|
  {
    if ps != {} {
      var c :| c in ps;
      CopiesSize(ps - {c}, r);
      assert Copies(ps, r) == Copies(ps - {c}, r) + {In(c, r)};
    }
  }

  lemma GoneIn(p: Pos, i: nat, c: Pos, r: Frame)
    requires Gone(In(p, r), i, c)
    ensures c.root == r && Gone(p, i, In(c, p.root)) && In(In(c, p.root), r) == c
  {
    UnderRoot(In(p, r), c);
    UnderIn(In(p, r), c, p.root);
    assert In(In(p, r), p.root) == p;
    if c.depth > p.depth {
      BranchIn(In(p, r), c, p.root);
    }
  }

  /** A partial copy has at most as many tables as the part copied. */
  lemma CopiedTables(t0: Tree, t: Tree, p: Pos, r: Frame, i: nat)
    requires Cloned(t0, t, p, r, i) && p in t0.at
    ensures |t.at.Keys - t0.at.Keys| <= |Part(t0, p, i)|
  {
    hide Ent, Gone;
    var ps := Part(t0, p, i);
    forall c | c in t.at.Keys - t0.at.Keys ensures c in Copies(ps, r) {
      assert ClonedAt(t0, t, p, r, i, c);
      GoneIn(p, i, c, r);
    }
    CopiesSize(ps, r);
    SubsetSize(t.at.Keys - t0.at.Keys, Copies(ps, r));
  }

  /** The next entry's tables come on top of those counted. */
  lemma PartStep(t: Tree, p: Pos, i: nat)
    requires i < 512
    ensures |Part(t, p, i)| + |Part(t, Child(p, i), 512)| <= |Part(t, p, i + 1)|
  {
    var a, b, c := Part(t, p, i), Part(t, Child(p, i), 512), Part(t, p, i + 1);
    forall x ensures x in a ==> x in c && x !in b {
      StepApart(p, i, x);
    }
    forall x ensures x in b ==> x in c {
      StepApart(p, i, x);
    }
    SubsetSize(a + b, c);
  }

  lemma StepApart(p: Pos, i: nat, x: Pos)
    requires i < 512
    ensures Gone(p, i, x) ==> Gone(p, i + 1, x) && !Gone(Child(p, i), 512, x)
    ensures Gone(Child(p, i), 512, x) ==> Gone(p, i + 1, x)
  {
    GoneStep(p, i, x);
    GoneEnds(Child(p, i), x);
    UnderChild(p, i, x);
  }

  lemma PartSelf(t: Tree, p: Pos, i: nat)
    requires p in t.at
    ensures |Part(t, p, i)| > 0
  {
    assert p in Part(t, p, i);
  }

  lemma PartGrows(t: Tree, p: Pos, i: nat, j: nat)
    requires i <= j
    ensures |Part(t, p, i)| <= |Part(t, p, j)|
  {
    SubsetSize(Part(t, p, i), Part(t, p, j));
  }

  /** The originals stay what they are while a copy in another space is made. */
  lemma PartSame(t0: Tree, t: Tree, p: Pos, r: Frame, i: nat, q: Pos)
    requires Cloned(t0, t, p, r, i) && q.root != r
    ensures Part(t, q, 512) == Part(t0, q, 512)
  {
    hide Ent, Gone;
    forall c | Gone(q, 512, c) ensures c in t.at <==> c in t0.at {
      GoneRoot(q, c);
      OriginalSame(t0, t, p, r, i, c);
    }
  }

  lemma GoneRoot(q: Pos, c: Pos)
    requires Gone(q, 512, c)
    ensures c.root == q.root
  {
    UnderRoot(q, c);
  }

  /** Where copying the next subtree fails, so little was free at the start that the whole copy
      could not be made. */
  lemma CloneShort(g: Layout, t0: Tree, s0: State, t: Tree, s: State, held: multiset<Frame>, p: Pos, r: Frame, i: nat,
                   n: nat)
    requires Consistent(g, s0) && Consistent(g, s) && Acct(g, t0, s0, held) && Acct(g, t, s, held)
    requires Cloned(t0, t, p, r, i) && p in t0.at && p.root != r && Flat(t) == Flat(t0) && i < n <= 512
    requires s.free < |Part(t, Child(p, i), 512)|
    ensures s0.free < |Part(t0, p, n)|
  {
    hide Consistent, Acct, Flat, Ent, Gone;
    CloneKept(t0, t, p, r, i);
    FreeDrop(g, t0, s0, t, s, held);
    CopiedTables(t0, t, p, r, i);
    ChildRoot(p, i);
    PartSame(t0, t, p, r, i, Child(p, i));
    PartStep(t0, p, i);
    PartGrows(t0, p, i + 1, n);
  }

  lemma CloneKept(t0: Tree, t: Tree, p: Pos, r: Frame, i: nat)
    requires Cloned(t0, t, p, r, i)
    ensures forall c | c in t0.at :: c in t.at && t.at[c] == t0.at[c]
  {
  }

  lemma ChildRoot(p: Pos, i: nat)
    ensures Child(p, i).root == p.root
  {
  }

  // ---- filling a child's space ----

  ghost predicate FillingPages(m1: map<Pos, Entry>, m: map<Pos, Entry>, space: Frame, child: Frame) {
    && (forall c | c in m1 :: c in m && m[c].frame == m1[c].frame)
    && (forall c | c in m && c !in m1 :: c.root == child && In(c, space) in m1 && m[c].frame == m1[In(c, space)].frame)
  }

  /** `t` is `t1` with some pages of `space` shared with `child`, and the tables that took. */
  ghost predicate Filling(t1: Tree, t: Tree, space: Frame, child: Frame) {
    && (forall c | c in t1.at :: c in t.at && t.at[c] == t1.at[c])
    && (forall c | c in t.at && c !in t1.at :: c.root == child && In(c, space) in t1.at)
    && FillingPages(Flat(t1), Flat(t), space, child)
    && (forall q: Pos | q.depth == 4 && q.root == child && q !in Flat(t) :: Translate(t, q) == Translate(t1, q))
  }

  lemma FillStart(t: Tree, space: Frame, child: Frame)
    ensures Filling(t, t, space, child)
  {
    hide Flat, Translate;
  }

  lemma UpIn(q: Pos, r: Frame, k: nat)
    requires k <= q.depth
    ensures Up(In(q, r), k) == In(Up(q, k), r)
  {
    if k > 0 {
      UpIn(q, r, k - 1);
    }
  }

  /** Tables made on the way to a child's page have a model on the way to the parent's page. */
  lemma PathShared(t1: Tree, space: Frame, child: Frame, q: Pos, c: Pos)
    requires TreeOk(t1) && Tops(t1.roots) && q in Flat(t1) && q.depth == 4 && q.root == space && OnPath(In(q, child), c)
    ensures c.root == child && In(c, space) in t1.at
  {
    hide TreeOk, Ent, Tops, Flat;
    PageAt(t1, q);
    EntHas(t1, q);
    assert Up(q, 1) == Parent(q);
    PathLinked(t1, q);
    UpIn(q, child, 4 - c.depth);
    assert OnPath(q, In(c, space));
  }

  lemma FillStep(t1: Tree, t: Tree, t': Tree, space: Frame, child: Frame, q: Pos, e: Entry)
    requires TreeOk(t1) && Tops(t1.roots) && Filling(t1, t, space, child) && q in Flat(t1) && q.depth == 4
    requires q.root == space
    requires Mapped(t, t', In(q, child), e) && e.present && e.frame == Flat(t1)[q].frame
    requires In(q, child) !in Flat(t) && Flat(t') == Flat(t)[In(q, child) := e]
    ensures Filling(t1, t', space, child)
  {
    hide TreeOk, Tops, Flat, Translate, MappedEnt;
    MapChangesOnePage(t, t', In(q, child), e);
    forall c | c in t'.at && c !in t1.at ensures c.root == child && In(c, space) in t1.at {
      if c !in t.at {
        PathShared(t1, space, child, q, c);
      }
    }
    FillPage(Flat(t1), Flat(t), space, child, q, e);
  }

  lemma FillPage(m1: map<Pos, Entry>, m: map<Pos, Entry>, space: Frame, child: Frame, q: Pos, e: Entry)
    requires FillingPages(m1, m, space, child) && q in m1 && q.root == space && e.frame == m1[q].frame
    requires In(q, child) !in m
    ensures FillingPages(m1, m[In(q, child) := e], space, child)
  {
    hide Parent;
    assert In(In(q, child), space) == q;
  }

  // ---- why a fork can fail ----

  ghost function Tables(t: Tree, space: Frame): (r: set<Pos>)
    ensures forall c :: c in r <==> c in t.at && c.root == space
  {
    set c | c in t.at && c.root == space
  }

  /** A page that cannot be shared: its count may run full, or the child has something else there. */
  ghost predicate Obstacle(t: Tree, s: State, q: Pos, other: Frame)
    requires q in Flat(t)
  {
    2 * Refs(s, Flat(t)[q].frame) >= MAX_REFERENCES || (q.depth == 4 && Translate(t, In(q, other)).Some?)
  }

  ghost predicate FillShort(t1: Tree, s1: State, space: Frame, child: Frame) {
    || s1.free < |Tables(t1, space)| + 3
    || exists q | q in Flat(t1) :: q.root == space && InLower(q) && Obstacle(t1, s1, q, child)
  }

  /** Why one page could not be shared when its turn came. */
  ghost predicate ShareFails(t: Tree, s: State, q: Pos, child: Frame)
    requires q in Flat(t) && q.depth == 4
  {
    Refs(s, Flat(t)[q].frame) >= MAX_REFERENCES || s.free < 3 || Translate(t, In(q, child)).Some?
  }

  ghost predicate LargeUser(t: Tree) { exists c: Pos | c.depth < 4 :: Ent(t, c).large && Ent(t, c).user }

  lemma NoLargeUser(t: Tree)
    requires FlagsOk(t)
    ensures !LargeUser(t)
  {
    forall c: Pos | c.depth < 4 ensures !(Ent(t, c).large && Ent(t, c).user) {
      UserPresent(t, c);
      if Ent(t, c).present {
        assert EntryOk(t.kernel, c, Ent(t, c));
      }
    }
  }

  lemma LargeUserAt(t: Tree, c: Pos)
    requires c.depth < 4 && Ent(t, c).large && Ent(t, c).user
    ensures LargeUser(t)
  {
  }

  lemma ShareAllowed(kernel: Frame, child: Frame, q: Pos, pa: nat, flags: Flags)
    requires q.depth == 4 && InLower(q) && child != kernel && pa % PAGE_SIZE == 0 && !flags.writable
    ensures MapAllowed(kernel, child, q.prefix * 4096, pa, flags)
  {
    hide Canonical;
    PageAddress(q, child);
  }

  lemma FrameAddress(f: Frame)
    ensures f * PAGE_SIZE / PAGE_SIZE == f && f * PAGE_SIZE % PAGE_SIZE == 0
  {
  }

  lemma GiveAndTake(h: multiset<Frame>, f: Frame)
    ensures h + multiset{f} - multiset{f} == h
  {
  }

  lemma UnfilledHere(m: map<Pos, Entry>, c: Pos, child: Frame)
    requires Unfilled(m, c, child)
    ensures In(c, child) !in m
  {
    assert In(In(c, child), c.root) == c;
  }

  lemma FillSource(t1: Tree, t: Tree, space: Frame, child: Frame, q: Pos)
    requires Filling(t1, t, space, child) && q in Flat(t) && q.root != child
    ensures q in Flat(t1) && Flat(t)[q].frame == Flat(t1)[q].frame
  {
    hide Flat, Translate;
  }

  lemma CountDoubles(m1: map<Pos, Entry>, m: map<Pos, Entry>, space: Frame, child: Frame, f: Frame)
    requires FillingPages(m1, m, space, child)
    ensures Count(m, f) <= 2 * Count(m1, f)
  {
    var u := Users(m1, f);
    CopiesSize(u, child);
    forall c | c in Users(m, f) ensures c in u + Copies(u, child) {
      if c !in m1 {
        assert In(c, space) in u && In(In(c, space), child) == c;
      }
    }
    SubsetSize(Users(m, f), u + Copies(u, child));
  }

  lemma RefsDouble(g: Layout, t1: Tree, s1: State, t: Tree, s: State, held: multiset<Frame>, space: Frame, child: Frame,
                   q: Pos)
    requires TreeOk(t) && Acct(g, t1, s1, held) && Acct(g, t, s, held) && FillingPages(Flat(t1), Flat(t), space, child)
    requires q in Flat(t1)
    ensures Refs(s, Flat(t1)[q].frame) <= 2 * Refs(s1, Flat(t1)[q].frame)
  {
    hide Flat, Count, TreeOk, Fresh, Shape;
    var f := Flat(t1)[q].frame;
    assert q in Flat(t) && Flat(t)[q].frame == f;
    ShapeOf(t);
    UserCounted(g, t, s, held, q);
    FrameFresh(g, t, s, held, f);
    TableUseFresh(t, f);
    CountDoubles(Flat(t1), Flat(t), space, child, f);
  }

  lemma TablesShared(t1: Tree, t: Tree, space: Frame, child: Frame)
    requires Filling(t1, t, space, child)
    ensures |t.at.Keys - t1.at.Keys| <= |Tables(t1, space)|
  {
    hide Flat, Translate;
    var ps := Tables(t1, space);
    forall c | c in t.at.Keys - t1.at.Keys ensures c in Copies(ps, child) {
      assert In(In(c, space), child) == c;
    }
    CopiesSize(ps, child);
    SubsetSize(t.at.Keys - t1.at.Keys, Copies(ps, child));
  }

  lemma MappedBefore(m1: map<Pos, Entry>, m: map<Pos, Entry>, space: Frame, child: Frame, f: Frame)
    requires FillingPages(m1, m, space, child) && Count(m, f) > 0
    ensures Count(m1, f) > 0
  {
    CountDoubles(m1, m, space, child, f);
  }

  /** A page that cannot be shared shows what stood in the way at the start. */
  lemma FillFails(g: Layout, t1: Tree, s1: State, t: Tree, s: State, held: multiset<Frame>, space: Frame, child: Frame,
                  q: Pos)
    requires Consistent(g, s1) && Consistent(g, s) && TreeOk(t) && Acct(g, t1, s1, held) && Acct(g, t, s, held)
    requires Filling(t1, t, space, child)
    requires q in Flat(t1) && q.root == space && q.depth == 4 && InLower(q) && In(q, child) !in Flat(t)
    requires Refs(s, Flat(t1)[q].frame) >= MAX_REFERENCES || s.free < 3 || Translate(t, In(q, child)).Some?
    ensures FillShort(t1, s1, space, child)
  {
    hide Consistent, Acct, Flat, Translate, TreeOk, Count, InLower;
    if s.free < 3 {
      forall f | Count(Flat(t), f) > 0 ensures Count(Flat(t1), f) > 0 {
        MappedBefore(Flat(t1), Flat(t), space, child, f);
      }
      FreeDrop(g, t1, s1, t, s, held);
      TablesShared(t1, t, space, child);
    } else {
      RefsDouble(g, t1, s1, t, s, held, space, child, q);
      assert Obstacle(t1, s1, q, child);
    }
  }

  lemma ShareShort(g: Layout, t1: Tree, s1: State, t: Tree, s: State, held: multiset<Frame>, space: Frame, child: Frame,
                   q: Pos)
    requires Consistent(g, s1) && Consistent(g, s) && TreeOk(t) && Acct(g, t1, s1, held) && Acct(g, t, s, held)
    requires Filling(t1, t, space, child)
    requires q in Flat(t1) && q in Flat(t) && Flat(t)[q].frame == Flat(t1)[q].frame && q.root == space && q.depth == 4
    requires InLower(q) && In(q, child) !in Flat(t)
    requires ShareFails(t, s, q, child)
    ensures FillShort(t1, s1, space, child)
  {
    hide Consistent, Acct, Flat, Translate, TreeOk, InLower, Filling, FillShort;
    FillFails(g, t1, s1, t, s, held, space, child, q);
  }

  // ---- what a new space translates ----

  lemma CloneLeaf(t0: Tree, t: Tree, p: Pos, r: Frame, i: nat, c: Pos)
    requires Cloned(t0, t, p, r, i) && c.depth > p.depth && Gone(In(p, r), i, c)
    ensures Leaf(t, c) == Leaf(t0, In(c, p.root))
  {
    hide Ent, Gone;
    assert ClonedEnt(t0, t, p, r, i, c);
  }

  lemma TopAbsent(t: Tree, c: Pos)
    requires c.depth == 0
    ensures !Leaf(t, c).present && Leaf(t, c) == ABSENT
  {
  }

  /** Copied tables end the walk where the originals do. */
  lemma {:induction false} CloneTerminal(t0: Tree, t: Tree, p: Pos, r: Frame, i: nat, c: Pos)
    requires Cloned(t0, t, p, r, i) && p.depth == 0 && Gone(In(p, r), i, c)
    ensures Terminal(t, c) == In(Terminal(t0, In(c, p.root)), r)
    ensures Leaf(t, Terminal(t, c)) == Leaf(t0, Terminal(t0, In(c, p.root)))
    decreases c.depth
  {
    hide Leaf, Cloned;
    UnderRoot(In(p, r), c);
    if c.depth == 0 {
      TopAbsent(t, c);
      TopAbsent(t0, In(c, p.root));
    } else {
      CloneLeaf(t0, t, p, r, i, c);
      if !Leaf(t, c).present {
        assert Parent(In(c, p.root)) == In(Parent(c), p.root);
        CloneTerminal(t0, t, p, r, i, Parent(c));
      }
    }
  }

  lemma LowerGone(q: Pos, r: Frame)
    requires q.depth == 4 && InLower(q)
    ensures Gone(Pos(r, 0, 0), 256, In(q, r))
  {
    var a := In(q, r);
    var b, c, d := Parent(a), Parent(Parent(a)), Parent(Parent(Parent(a)));
    assert b.prefix < 67108864 && c.prefix < 131072 && d.prefix < 256 && Parent(d) == Pos(r, 0, 0);
    var p := Pos(r, 0, 0);
    assert Under(p, d) && Under(p, c) && Under(p, b) && Under(p, a);
    assert Branch(p, d) == Slot(d) < 256;
    assert Branch(p, c) == Branch(p, d) && Branch(p, b) == Branch(p, c) && Branch(p, a) == Branch(p, b);
  }

  lemma CloneTranslate(t0: Tree, t: Tree, kernel: Frame, r: Frame, q: Pos)
    requires Cloned(t0, t, Pos(kernel, 0, 0), r, 256) && q.depth == 4 && InLower(q)
    ensures Translate(t, In(q, r)) == Translate(t0, In(q, kernel))
  {
    hide Leaf, Cloned, Gone, Terminal, InLower;
    LowerGone(q, r);
    assert In(Pos(kernel, 0, 0), r) == Pos(r, 0, 0) && In(In(q, r), kernel) == In(q, kernel);
    CloneTerminal(t0, t, Pos(kernel, 0, 0), r, 256, In(q, r));
  }

  /** Why vmm_space_clone_cow can fail: too few free pages for the tables of the kernel's lower half
      and of the parent, or a page of the parent that cannot be shared. */
  ghost predicate ForkShort(t: Tree, s: State, space: Frame) {
    || s.free < |Part(t, Pos(t.kernel, 0, 0), 256)| + |Tables(t, space)| + 3
    || exists q | q in Flat(t) :: q.root == space && InLower(q) && Obstacle(t, s, q, t.kernel)
  }

  lemma SameRefs(g: Layout, t0: Tree, s0: State, t: Tree, s: State, held: multiset<Frame>, q: Pos)
    requires TreeOk(t0) && TreeOk(t) && Acct(g, t0, s0, held) && Acct(g, t, s, held) && Flat(t) == Flat(t0)
    requires q in Flat(t)
    ensures Refs(s, Flat(t)[q].frame) == Refs(s0, Flat(t)[q].frame)
  {
    hide Flat, Count, TreeOk, Fresh, Shape;
    var f := Flat(t)[q].frame;
    ShapeOf(t0);
    ShapeOf(t);
    UserCounted(g, t0, s0, held, q);
    UserCounted(g, t, s, held, q);
    FrameFresh(g, t0, s0, held, f);
    FrameFresh(g, t, s, held, f);
    TableUseFresh(t0, f);
    TableUseFresh(t, f);
  }

  lemma TablesSame(t0: Tree, t: Tree, p: Pos, r: Frame, i: nat, space: Frame)
    requires Cloned(t0, t, p, r, i) && space != r
    ensures Tables(t, space) == Tables(t0, space)
  {
    hide Ent, Cloned;
    forall c: Pos | c.root == space ensures c in t.at <==> c in t0.at {
      OriginalSame(t0, t, p, r, i, c);
    }
  }

  lemma ForkFails(g: Layout, t0: Tree, s0: State, t1: Tree, s1: State, held: multiset<Frame>, space: Frame,
                  child: Frame)
    requires Consistent(g, s0) && Consistent(g, s1) && TreeOk(t0) && TreeOk(t1) && Acct(g, t0, s0, held)
    requires Acct(g, t1, s1, held)
    requires Cloned(t0, t1, Pos(t0.kernel, 0, 0), child, 256) && Pos(t0.kernel, 0, 0) in t0.at && Flat(t1) == Flat(t0)
    requires space != child
    requires FillShort(t1, s1, space, child)
    ensures ForkShort(t0, s0, space)
  {
    hide Consistent, Acct, TreeOk, Cloned, Flat, Translate, InLower, Count;
    var k := Pos(t0.kernel, 0, 0);
    TablesSame(t0, t1, k, child, 256, space);
    if s1.free < |Tables(t1, space)| + 3 {
      CloneKept(t0, t1, k, child, 256);
      FreeDrop(g, t0, s0, t1, s1, held);
      CopiedTables(t0, t1, k, child, 256);
    } else {
      var q :| q in Flat(t1) && q.root == space && InLower(q) && Obstacle(t1, s1, q, child);
      SameRefs(g, t0, s0, t1, s1, held, q);
      if q.depth == 4 {
        CloneTranslate(t0, t1, t0.kernel, child, q);
      }
      assert Obstacle(t0, s0, q, t0.kernel);
    }
  }

  // ---- what a fork does to tables and translations ----

  /** Outside the child only the parent's writable user pages changed, and the child translates the
      pages it does not share as the kernel does. */
  ghost predicate ForkedTables(t0: Tree, t: Tree, space: Frame, child: Frame) {
    && (forall c: Pos | c.root != child :: (c in t.at <==> c in t0.at) && (c in t0.at ==> t.at[c] == t0.at[c]))
    && (forall c: Pos | c.root != child ::
      Ent(t, c) == if c.root == space && c.depth == 4 then Protect(Ent(t0, c)) else Ent(t0, c))
    && (forall q: Pos | q.depth == 4 && InLower(q) && In(q, child) !in Flat(t) ::
      Translate(t, In(q, child)) == Translate(t0, In(q, t0.kernel)))
  }

  lemma ForkedEntry(t0: Tree, t1: Tree, t2: Tree, t: Tree, space: Frame, child: Frame, c: Pos)
    requires TreeOk(t0) && Tops(t0.roots) && Cloned(t0, t1, Pos(t0.kernel, 0, 0), child, 256)
    requires SameElsewhere(t1, t2, child)
    requires Protected(t2, t, Pos(space, 0, 0), 512) && c.root != child
    ensures (c in t.at <==> c in t0.at) && (c in t0.at ==> t.at[c] == t0.at[c])
    ensures Ent(t, c) == if c.root == space && c.depth == 4 then Protect(Ent(t0, c)) else Ent(t0, c)
  {
    hide TreeOk, Tops, Cloned, Ent, Gone;
    OriginalSame(t0, t1, Pos(t0.kernel, 0, 0), child, 256, c);
    CloneKept(t0, t1, Pos(t0.kernel, 0, 0), child, 256);
    assert ProtectedEnt(t2, t, Pos(space, 0, 0), 512, c);
    if c.depth == 4 {
      ProtectedHere(t0, space, c);
    }
  }

  lemma ProtectedHere(t: Tree, space: Frame, c: Pos)
    requires TreeOk(t) && Tops(t.roots) && c.depth == 4
    ensures c.root != space ==> !Gone(Pos(space, 0, 0), 512, c)
    ensures c.root == space && !Gone(Pos(space, 0, 0), 512, c) ==> Ent(t, c) == ABSENT && Protect(ABSENT) == ABSENT
  {
    hide TreeOk, Tops;
    GoneEnds(Pos(space, 0, 0), c);
    if Under(Pos(space, 0, 0), c) {
      UnderRoot(Pos(space, 0, 0), c);
    } else if c.root == space {
      NotUnder(t, c);
    }
  }

  lemma NotUnder(t: Tree, c: Pos)
    requires TreeOk(t) && Tops(t.roots) && c.depth == 4 && !Under(Pos(c.root, 0, 0), c)
    ensures Ent(t, c) == ABSENT
  {
    hide TreeOk, Tops;
    AbsentOutside(t, c);
    if Parent(c) in t.at {
      AllUnder(t, Parent(c));
    }
  }

  lemma ChildTranslates(t0: Tree, t1: Tree, t2: Tree, t: Tree, space: Frame, child: Frame, q: Pos)
    requires Cloned(t0, t1, Pos(t0.kernel, 0, 0), child, 256) && Filling(t1, t2, space, child)
    requires Protected(t2, t, Pos(space, 0, 0), 512)
    requires space != child && q.depth == 4 && InLower(q) && In(q, child) !in Flat(t)
    ensures Translate(t, In(q, child)) == Translate(t0, In(q, t0.kernel))
  {
    hide Cloned, Translate, InLower, Flat, Terminal, Protected;
    CloneTranslate(t0, t1, t0.kernel, child, q);
    OtherPages(t2, t, space, child, q);
  }

  lemma OtherPages(t2: Tree, t: Tree, space: Frame, child: Frame, q: Pos)
    requires Protected(t2, t, Pos(space, 0, 0), 512) && space != child && q.depth == 4
    ensures Translate(t, In(q, child)) == Translate(t2, In(q, child))
    ensures In(q, child) in Flat(t) <==> In(q, child) in Flat(t2)
  {
    hide Terminal, Gone, Flat;
    forall c: Pos | c.root == child ensures Ent(t, c) == Ent(t2, c) {
      OtherEntry(t2, t, space, c);
    }
    TerminalChild(t2, t, child, In(q, child));
    PageAt(t, In(q, child));
    PageAt(t2, In(q, child));
  }

  lemma OtherEntry(t2: Tree, t: Tree, space: Frame, c: Pos)
    requires Protected(t2, t, Pos(space, 0, 0), 512) && c.root != space
    ensures Ent(t, c) == Ent(t2, c)
  {
    hide Ent;
    assert ProtectedEnt(t2, t, Pos(space, 0, 0), 512, c);
    if Under(Pos(space, 0, 0), c) {
      UnderRoot(Pos(space, 0, 0), c);
    }
  }

  lemma {:induction false} TerminalChild(t2: Tree, t: Tree, child: Frame, c: Pos)
    requires c.root == child && forall d: Pos | d.root == child :: Ent(t, d) == Ent(t2, d)
    ensures Terminal(t, c) == Terminal(t2, c) && Terminal(t, c).root == child
    decreases c.depth
  {
    hide Ent;
    if c.depth > 0 && !Leaf(t2, c).present {
      TerminalChild(t2, t, child, Parent(c));
    }
  }

  lemma ForkTables(t0: Tree, t1: Tree, t2: Tree, t: Tree, space: Frame, child: Frame)
    requires TreeOk(t0) && Tops(t0.roots) && Cloned(t0, t1, Pos(t0.kernel, 0, 0), child, 256)
    requires SameElsewhere(t1, t2, child)
    requires Filling(t1, t2, space, child) && Protected(t2, t, Pos(space, 0, 0), 512) && space != child
    ensures ForkedTables(t0, t, space, child)
  {
    hide TreeOk, Tops, Cloned, Ent, Flat, Translate, InLower, Filling, Protected, SameElsewhere;
    forall c: Pos | c.root != child
      ensures (c in t.at <==> c in t0.at) && (c in t0.at ==> t.at[c] == t0.at[c])
      ensures Ent(t, c) == if c.root == space && c.depth == 4 then Protect(Ent(t0, c)) else Ent(t0, c) {
      ForkedEntry(t0, t1, t2, t, space, child, c);
    }
    forall q: Pos | q.depth == 4 && InLower(q) && In(q, child) !in Flat(t)
      ensures Translate(t, In(q, child)) == Translate(t0, In(q, t0.kernel)) {
      ChildTranslates(t0, t1, t2, t, space, child, q);
    }
  }
}
