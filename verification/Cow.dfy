/** Data in frames, and the resolution of copy-on-write pages: lemmas on table trees as values. */
module Cow {
  import opened Pmm
  import opened Paging
  import opened Accounts
  import opened Translation
  import opened Walks

  /** Storing data in a frame that holds no table. */
  function WithData(t: Tree, f: Frame, bytes: seq<byte>): Tree {
    t.(mem := t.mem[f := Data(bytes)])
  }

  lemma WithDataEnt(t: Tree, f: Frame, bytes: seq<byte>)
    requires Shape(t) && Fresh(t, f)
    ensures Shape(WithData(t, f, bytes)) && forall c :: Ent(WithData(t, f, bytes), c) == Ent(t, c)
  {
  }

  lemma WithDataOk(g: Layout, t: Tree, s: State, held: multiset<Frame>, f: Frame, bytes: seq<byte>)
    requires TreeOk(t) && Fresh(t, f) && Acct(g, t, s, held) && |bytes| == PAGE_SIZE
    ensures TreeOk(WithData(t, f, bytes)) && Acct(g, WithData(t, f, bytes), s, held)
    ensures forall c :: Ent(WithData(t, f, bytes), c) == Ent(t, c)
    ensures Flat(WithData(t, f, bytes)) == Flat(t)
  {
    hide TreeOk, Ent, Shape, Flat, Users, Fresh, Acct;
    ShapeOf(t);
    WithDataEnt(t, f, bytes);
    TreeSame(t, WithData(t, f, bytes));
    FlatSame(t, WithData(t, f, bytes));
    DataOf(g, t, s, held);
    SameOwnersAcct(g, t, WithData(t, f, bytes), s, held);
  }

  lemma TreeSame(t: Tree, t': Tree)
    requires TreeOk(t) && Shape(t') && t'.at == t.at && t'.roots == t.roots && forall c :: Ent(t', c) == Ent(t, c)
    ensures TreeOk(t')
  {
    hide Ent, Shape;
  }

  /** A user page gets its own copy: `n`, held by the caller, replaces the shared frame. */
  lemma ReplaceLeaf(g: Layout, t: Tree, s: State, held: multiset<Frame>, q: Pos, e: Entry)
    requires TreeOk(t) && Acct(g, t, s, held) && q in Flat(t) && e.present && e.user
    requires e.frame == Flat(t)[q].frame || (e.frame in held && g.Managed(e.frame) && IsData(t, e.frame))
    ensures Has(t, q) && IsTable(t, t.at[Parent(q)]) && TreeOk(SetEnt(t, q, e))
    ensures Acct(g, SetEnt(t, q, e), s, if e.frame == Flat(t)[q].frame then held
                                        else held - multiset{e.frame} + multiset{Flat(t)[q].frame})
    ensures Keeps(held, t, s, SetEnt(t, q, e), s)
    ensures Flat(SetEnt(t, q, e)) == Flat(t)[q := e]
    ensures forall d :: Ent(SetEnt(t, q, e), d) == if d == q then e else Ent(t, d)
  {
    hide TreeOk, Ent, Acct, Flat, Users, Shape, Keeps, IsData;
    EntHas(t, q);
    ReadEnt(t, q);
    PutLeafOk(t, q, e);
    ShapeOf(t);
    SetEntData(g, t, s, held, q, e);
    SetEntKeeps(held, t, s, q, e);
    var t' := SetEnt(t, q, e);
    FlatSet(t, t', q);
    DataOf(g, t, s, held);
    ReplaceUserAcct(g, t, t', s, held, q, e);
  }

  lemma SetEntKeeps(held: multiset<Frame>, t: Tree, s: State, c: Pos, e: Entry)
    requires Has(t, c) && IsTable(t, t.at[Parent(c)])
    ensures Keeps(held, t, s, SetEnt(t, c, e), s)
  {
    hide InUse;
  }

  /** The outcome of a resolved write to a copy-on-write page: the page alone changes, to a writable
      entry whose frame holds the same bytes and is either the old frame, unshared, or a new one. */
  ghost predicate Resolved(t: Tree, s: State, held: multiset<Frame>, t': Tree, q: Pos) {
    && q in Flat(t) && q in Flat(t')
    && var old' := Flat(t)[q]; var e := Flat(t')[q];
    && e == old'.(frame := e.frame, writable := true, cow := false)
    && Flat(t') == Flat(t)[q := e]
    && (forall c :: Leaf(t', c) == if c == q then e else Leaf(t, c))
    && IsData(t, old'.frame) && IsData(t', e.frame) && t'.mem[e.frame] == t.mem[old'.frame]
    && (if Refs(s, old'.frame) == 1 then e.frame == old'.frame else Unclaimed(t, held, e.frame))
  }

  /** Every user mapping is counted. */
  lemma UserCounted(g: Layout, t: Tree, s: State, held: multiset<Frame>, q: Pos)
    requires Acct(g, t, s, held) && q in Flat(t)
    ensures Refs(s, Flat(t)[q].frame) > 0 && g.Managed(Flat(t)[q].frame) && IsData(t, Flat(t)[q].frame)
  {
    hide Flat;
    assert q in Users(Flat(t), Flat(t)[q].frame);
    CountEmpty(Flat(t), Flat(t)[q].frame);
  }

  /** An unshared copy-on-write page becomes writable in place. */
  lemma ResolveInPlace(g: Layout, t: Tree, s: State, held: multiset<Frame>, q: Pos, e: Entry)
    requires TreeOk(t) && FlagsOk(t) && Acct(g, t, s, held) && q in Flat(t) && Flat(t)[q].cow
    requires Refs(s, Flat(t)[q].frame) == 1 && e == Flat(t)[q].(writable := true, cow := false)
    ensures Has(t, q) && IsTable(t, t.at[Parent(q)])
    ensures TreeOk(SetEnt(t, q, e)) && FlagsOk(SetEnt(t, q, e)) && Acct(g, SetEnt(t, q, e), s, held)
    ensures Resolved(t, s, held, SetEnt(t, q, e), q) && Keeps(held, t, s, SetEnt(t, q, e), s)
  {
    hide TreeOk, Ent, Acct, Flat, Shape, Keeps, FlagsOk, IsData;
    CowLeaf(t, q);
    ShapeOf(t);
    ReplaceLeaf(g, t, s, held, q, e);
    UserCounted(g, t, s, held, q);
    UserCounted(g, SetEnt(t, q, e), s, held, q);
    KeepsUser(held, t, s, SetEnt(t, q, e), s, q);
    ReplaceLeafFlags(t, SetEnt(t, q, e), q, e);
  }

  lemma KeepsUser(held: multiset<Frame>, t: Tree, s: State, t': Tree, s': State, q: Pos)
    requires Keeps(held, t, s, t', s') && q in Flat(t) && IsData(t, Flat(t)[q].frame)
    ensures IsData(t', Flat(t)[q].frame) && t'.mem[Flat(t)[q].frame] == t.mem[Flat(t)[q].frame]
  {
    hide Flat;
    assert q in Users(Flat(t), Flat(t)[q].frame);
  }

  /** A shared page: copy the bytes to frame `n`, drop the old reference, switch the entry. */
  ghost function CopiedTo(t: Tree, q: Pos, n: Frame, e: Entry): Tree
    requires Has(t, q) && q in Flat(t) && IsData(t, Flat(t)[q].frame)
    requires IsTable(WithData(t, n, t.mem[Flat(t)[q].frame].bytes), t.at[Parent(q)])
  {
    SetEnt(WithData(t, n, t.mem[Flat(t)[q].frame].bytes), q, e)
  }

  lemma ResolveCopy(g: Layout, t: Tree, s: State, held: multiset<Frame>, q: Pos, n: Frame, e: Entry)
    requires TreeOk(t) && FlagsOk(t) && Consistent(g, s) && Acct(g, t, s, held) && q in Flat(t) && Flat(t)[q].cow
    requires n in held && Refs(s, n) == 1 && Unclaimed(t, held - multiset{n}, n)
    requires e == Flat(t)[q].(frame := n, writable := true, cow := false)
    ensures Has(t, q) && IsData(t, Flat(t)[q].frame) && Refs(s, Flat(t)[q].frame) > 0
    ensures IsTable(WithData(t, n, t.mem[Flat(t)[q].frame].bytes), t.at[Parent(q)])
    ensures var t' := CopiedTo(t, q, n, e); var s' := Released(s, Flat(t)[q].frame);
      && TreeOk(t') && FlagsOk(t') && Acct(g, t', s', held - multiset{n})
      && Flat(t') == Flat(t)[q := e] && Keeps(held - multiset{n}, t, s, t', s')
      && IsData(t', n) && t'.mem[n] == t.mem[Flat(t)[q].frame]
      && forall c :: Ent(t', c) == if c == q then e else Ent(t, c)
  {
    hide TreeOk, Ent, Acct, Flat, Shape, Users, Consistent, FlagsOk, Keeps, Fresh, InUse;
    UserCounted(g, t, s, held, q);
    CowLeaf(t, q);
    EntHas(t, q);
    ReadEnt(t, q);
    ShapeOf(t);
    var f := Flat(t)[q].frame;
    var t1 := WithData(t, n, t.mem[f].bytes);
    WithDataOk(g, t, s, held, n, t.mem[f].bytes);
    ReadEnt(t1, q);
    UserInUse(t, held - multiset{n}, q);
    FreeFacts(g, t, s, held, n);
    Sizes(g, s);
    CopyKeeps(t, s, held - multiset{n}, q, n, e, f);
    ReplaceLeaf(g, t1, s, held, q, e);
    hide IsData;
    var t' := SetEnt(t1, q, e);
    var h := held - multiset{n} + multiset{f};
    ReleaseOk(g, t', s, h, f);
    assert h - multiset{f} == held - multiset{n};
    ReplaceLeafFlags(t, t', q, e);
  }

  lemma Sizes(g: Layout, s: State)
    requires Consistent(g, s)
    ensures |s.used| == |s.refs|
  {
  }

  lemma UserInUse(t: Tree, held: multiset<Frame>, q: Pos)
    requires q in Flat(t)
    ensures InUse(t, held, Flat(t)[q].frame)
  {
    hide Flat;
    assert q in Users(Flat(t), Flat(t)[q].frame);
  }

  lemma CopyKeeps(t: Tree, s: State, held: multiset<Frame>, q: Pos, n: Frame, e: Entry, f: Frame)
    requires Has(t, q) && IsTable(WithData(t, n, []), t.at[Parent(q)])
    requires Unclaimed(t, held, n) && IsData(t, f) && Refs(s, f) > 0 && f < |s.refs| == |s.used|
    ensures IsTable(WithData(t, n, t.mem[f].bytes), t.at[Parent(q)])
    ensures Keeps(held, t, s, SetEnt(WithData(t, n, t.mem[f].bytes), q, e), Released(s, f))
    ensures n != t.at[Parent(q)]
    ensures SetEnt(WithData(t, n, t.mem[f].bytes), q, e).mem[n] == t.mem[f]
  {
    hide Flat, Users, Fresh;
  }

  lemma ResolvedCopy(t: Tree, s: State, held: multiset<Frame>, t': Tree, q: Pos, n: Frame, e: Entry)
    requires q.depth == 4 && q in Flat(t) && IsData(t, Flat(t)[q].frame) && Refs(s, Flat(t)[q].frame) != 1
    requires e == Flat(t)[q].(frame := n, writable := true, cow := false) && Unclaimed(t, held, n)
    requires Flat(t') == Flat(t)[q := e] && IsData(t', n) && t'.mem[n] == t.mem[Flat(t)[q].frame]
    requires forall c :: Ent(t', c) == if c == q then e else Ent(t, c)
    ensures Resolved(t, s, held, t', q)
  {
    hide Ent, Flat, IsData, Unclaimed;
  }

  lemma CowLeaf(t: Tree, q: Pos)
    requires FlagsOk(t) && q.depth == 4
    ensures Ent(t, q).present && Ent(t, q).cow ==> Ent(t, q).user && Ent(t, q).nx && !Ent(t, q).writable
    ensures q in Flat(t) <==> Ent(t, q).present && Ent(t, q).user
    ensures q in Flat(t) ==> Flat(t)[q] == Ent(t, q) && EntryOk(t.kernel, q, Flat(t)[q])
  {
    hide Ent;
    if Ent(t, q).present {
      assert EntryOk(t.kernel, q, Ent(t, q));
    }
  }

  /** Every writable user page is the only mapping of its frame, and no one else holds the frame. */
  ghost predicate Exclusive(t: Tree, s: State) {
    forall c | c in Flat(t) && Flat(t)[c].writable :: Refs(s, Flat(t)[c].frame) == 1
  }

  lemma ReplaceLeafFlags(t: Tree, t': Tree, q: Pos, e: Entry)
    requires Shape(t) && FlagsOk(t) && q in Flat(t) && t'.kernel == t.kernel && t'.roots == t.roots
    requires e.user && EntryOk(t.kernel, q, e)
    requires forall d :: Ent(t', d) == if d == q then e else Ent(t, d)
    ensures FlagsOk(t')
  {
    hide Ent;
    forall d | Ent(t', d).present && Ent(t', d).user ensures UserAbove(t', d) {
      assert UserAbove(t, d);
      PresentDepth(t, d);
    }
  }
}
