/** Whole subtrees of tables: taking one out of the forest, and copying one. */
module Subtrees {
  import opened Pmm
  import opened Paging
  import opened Accounts
  import opened Translation
  import opened Walks

  ghost predicate Under(p: Pos, c: Pos)
    decreases c.depth
  {
    c == p || (c.depth > p.depth && Under(p, Parent(c)))
  }

  /** Which entry of the table at `p` leads to `c`. */
  function Branch(p: Pos, c: Pos): nat
    requires c.depth > p.depth
    decreases c.depth
  {
    if c.depth == p.depth + 1 then Slot(c) else Branch(p, Parent(c))
  }

  lemma {:induction false} BranchBound(p: Pos, c: Pos)
    requires c.depth > p.depth
    ensures Branch(p, c) < 512
    decreases c.depth
  {
    if c.depth > p.depth + 1 {
      BranchBound(p, Parent(c));
    }
  }

  lemma {:induction false} UnderRoot(p: Pos, c: Pos)
    requires Under(p, c)
    ensures c.root == p.root && c.depth >= p.depth
    decreases c.depth
  {
    if c != p {
      UnderRoot(p, Parent(c));
    }
  }

  lemma {:induction false} UnderChild(p: Pos, i: nat, c: Pos)
    requires i < 512
    ensures Under(Child(p, i), c) <==> c.depth > p.depth && Under(p, c) && Branch(p, c) == i
    decreases c.depth
  {
    ParentOfChild(p, i);
    if c.depth == p.depth + 1 {
      ChildOfParent(c);
      UnderSame(p, Parent(c));
      UnderSame(Child(p, i), c);
      assert Under(p, c) <==> Parent(c) == p;
    } else if c.depth > p.depth + 1 {
      UnderChild(p, i, Parent(c));
    } else {
      UnderSame(Child(p, i), c);
    }
  }

  lemma UnderSame(p: Pos, c: Pos)
    requires c.depth <= p.depth
    ensures Under(p, c) <==> c == p
  {
  }

  /** What is gone once the first `i` entries below `p` have been dealt with. */
  ghost predicate Gone(p: Pos, i: nat, c: Pos) {
    Under(p, c) && (c.depth <= p.depth || Branch(p, c) < i)
  }

  lemma GoneStep(p: Pos, i: nat, c: Pos)
    requires i < 512
    ensures Gone(p, i + 1, c) <==> Gone(p, i, c) || Under(Child(p, i), c)
  {
    UnderChild(p, i, c);
  }

  lemma GoneEnds(p: Pos, c: Pos)
    ensures Gone(p, 0, c) <==> c == p
    ensures Gone(p, 512, c) <==> Under(p, c)
  {
    if Under(p, c) {
      UnderRoot(p, c);
      if c.depth > p.depth {
        BranchBound(p, c);
      }
    }
  }

  ghost function GoneSet(t: Tree, p: Pos, i: nat): (r: set<Pos>)
    ensures forall c :: c in r <==> c in t.at && Gone(p, i, c)
  {
    set c | c in t.at && Gone(p, i, c)
  }

  ghost function Waiting(t: Tree, p: Pos, i: nat): (r: set<Pos>)
    ensures forall c :: c in r <==> c in LinkedChildren(t, p) && Slot(c) >= i
  {
    set c | c in LinkedChildren(t, p) && Slot(c) >= i
  }

  /** The forest while the table at `p` is being destroyed: entries below `i` are done, the tables
      behind the others wait as tops of their own. */
  ghost function Removed(t: Tree, p: Pos, i: nat): Tree {
    t.(at := t.at - GoneSet(t, p, i), roots := t.roots - {p} + Waiting(t, p, i))
  }

  ghost function UnderSet(t: Tree, p: Pos): (r: set<Pos>)
    ensures forall c :: c in r <==> c in t.at && Under(p, c)
  {
    set c | c in t.at && Under(p, c)
  }

  /** The forest without the tree whose top is `p`. */
  ghost function Without(t: Tree, p: Pos): Tree {
    t.(at := t.at - UnderSet(t, p), roots := t.roots - {p})
  }

  /** No other top lies inside the tree of `p`. */
  ghost predicate Whole(t: Tree, p: Pos) {
    forall r | r in t.roots && r != p :: !Under(p, r)
  }

  lemma RemovedStart(t: Tree, p: Pos)
    ensures Removed(t, p, 0) == Disband(t, p)
  {
    hide Gone;
    forall c ensures Gone(p, 0, c) <==> c == p { GoneEnds(p, c); }
    assert Waiting(t, p, 0) == LinkedChildren(t, p);
    assert t.at - GoneSet(t, p, 0) == t.at - {p};
  }

  lemma RemovedEnd(t: Tree, p: Pos)
    ensures Removed(t, p, 512) == Without(t, p)
  {
    hide Gone, Under;
    forall c ensures Gone(p, 512, c) <==> Under(p, c) { GoneEnds(p, c); }
    assert GoneSet(t, p, 512) == UnderSet(t, p);
    assert Waiting(t, p, 512) == {};
  }

  lemma RemovedChild(t: Tree, p: Pos, i: nat)
    requires i < 512
    ensures Without(Removed(t, p, i), Child(p, i)).at == Removed(t, p, i + 1).at
  {
    hide Gone, Under;
    forall c ensures Gone(p, i + 1, c) <==> Gone(p, i, c) || Under(Child(p, i), c) { GoneStep(p, i, c); }
    var a, b := Without(Removed(t, p, i), Child(p, i)).at, Removed(t, p, i + 1).at;
    assert forall c :: c in a <==> c in b;
  }

  lemma RemovedChildRoots(t: Tree, p: Pos, i: nat)
    requires i < 512 && Whole(t, p)
    ensures Without(Removed(t, p, i), Child(p, i)).roots == Removed(t, p, i + 1).roots
  {
    ParentOfChild(p, i);
    var c := Child(p, i);
    assert Under(p, c);
    hide Under;
    assert forall d | d in LinkedChildren(t, p) :: (Slot(d) == i <==> d == c) by {
      forall d | d in LinkedChildren(t, p) ensures Slot(d) == i <==> d == c {
        ChildOfParent(d);
      }
    }
  }

  /** A slot that links no table has no table below it. */
  lemma {:induction false} NothingBelow(t: Tree, p: Pos, i: nat, c: Pos)
    requires TreeOk(t) && Whole(t, p) && i < 512 && !(Child(p, i) in t.at && Child(p, i) !in t.roots)
    requires Under(Child(p, i), c)
    requires p.depth < 3
    ensures c !in t.at
    decreases c.depth
  {
    UnderChild(p, i, c);
    UnderRoot(Child(p, i), c);
    if c in t.at {
      assert c !in t.roots;
      hide TreeOk, Whole;
      if c != Child(p, i) {
        ParentAt(t, c);
        NothingBelow(t, p, i, Parent(c));
      }
    }
  }

  lemma RemovedSkip(t: Tree, p: Pos, i: nat)
    requires TreeOk(t) && Whole(t, p) && i < 512 && p in t.at
    requires p.depth == 3 || !Linked(Ent(t, Child(p, i)))
    ensures Removed(t, p, i + 1) == Removed(t, p, i)
  {
    hide Ent, Shape, Under, Gone, TreeOk, Whole;
    var c := Child(p, i);
    assert !(c in t.at && c !in t.roots) by {
      SkipLinked(t, p, i);
    }
    forall d ensures d in t.at ==> (Gone(p, i + 1, d) <==> Gone(p, i, d)) {
      GoneStep(p, i, d);
      if d in t.at && Under(c, d) {
        SkipBelow(t, p, i, d);
      }
    }
    assert GoneSet(t, p, i + 1) == GoneSet(t, p, i);
    assert Waiting(t, p, i + 1) == Waiting(t, p, i) by {
      forall d | d in LinkedChildren(t, p) ensures Slot(d) != i {
        ChildOfParent(d);
      }
    }
  }

  lemma SkipLinked(t: Tree, p: Pos, i: nat)
    requires TreeOk(t) && (p.depth == 3 || !Linked(Ent(t, Child(p, i))))
    ensures !(Child(p, i) in t.at && Child(p, i) !in t.roots)
  {
  }

  lemma SkipBelow(t: Tree, p: Pos, i: nat, d: Pos)
    requires TreeOk(t) && Whole(t, p) && i < 512 && d in t.at && !(Child(p, i) in t.at && Child(p, i) !in t.roots)
    requires p in t.at
    ensures !Under(Child(p, i), d)
  {
    if Under(Child(p, i), d) {
      UnderRoot(Child(p, i), d);
      if p.depth < 3 {
        NothingBelow(t, p, i, d);
      } else {
        ShapeAt(t, d);
      }
    }
  }

  /** The table behind a linked slot is a whole tree of its own in the meantime. */
  lemma RemovedWaiting(t: Tree, p: Pos, i: nat)
    requires TreeOk(t) && Whole(t, p) && i < 512 && p in t.roots && p.depth < 3 && Linked(Ent(t, Child(p, i)))
    ensures Child(p, i) in Removed(t, p, i).roots && Child(p, i) in Removed(t, p, i).at
    ensures Whole(Removed(t, p, i), Child(p, i))
    ensures Removed(t, p, i).at[Child(p, i)] == Ent(t, Child(p, i)).frame
  {
    hide Ent, TreeOk;
    var c := Child(p, i);
    ParentOfChild(p, i);
    ReadLinked(t, c);
    assert !Gone(p, i, c) by { GoneStep(p, i, c); UnderChild(p, i, c); }
    forall r | r in Removed(t, p, i).roots && r != c ensures !Under(c, r) {
      UnderChild(p, i, r);
      if r in LinkedChildren(t, p) {
        ChildOfParent(r);
      }
    }
  }

  lemma ReadLinked(t: Tree, c: Pos)
    requires TreeOk(t) && c.depth < 4 && Linked(Ent(t, c))
    ensures c in t.at && c !in t.roots && t.at[c] == Ent(t, c).frame
  {
  }

  /** Removing tables only silences entries. */
  lemma RemovedEnt(t: Tree, t': Tree, c: Pos)
    requires t'.mem == t.mem && t'.kernel == t.kernel && t'.at.Keys <= t.at.Keys
    requires forall p | p in t'.at :: t'.at[p] == t.at[p]
    ensures Ent(t', c) == if c.depth > 0 && Parent(c) in t'.at then Ent(t, c) else ABSENT
  {
  }

  // ---- the references of the leaves of a table ----

  ghost function LeafFrames(m: map<Pos, Entry>, p: Pos, i: nat): multiset<Frame>
    decreases 512 - i
  {
    if i >= 512 then multiset{}
    else (if Child(p, i) in m then multiset{m[Child(p, i)].frame} else multiset{}) + LeafFrames(m, p, i + 1)
  }

  ghost function Kids(p: Pos, i: nat): (r: set<Pos>)
    ensures forall c :: c in r <==> c.depth > 0 && Parent(c) == p && Slot(c) >= i
  {
    var r := set j | i <= j < 512 :: Child(p, j);
    assert forall c :: c in r <==> c.depth > 0 && Parent(c) == p && Slot(c) >= i by {
      forall c: Pos | c.depth > 0 && Parent(c) == p && Slot(c) >= i ensures c in r { ChildOfParent(c); }
      forall c | c in r ensures c.depth > 0 && Parent(c) == p && Slot(c) >= i {
        var j :| i <= j < 512 && c == Child(p, j);
        ParentOfChild(p, j);
      }
    }
    r
  }

  lemma {:induction false} LeafFramesAgree(m: map<Pos, Entry>, m': map<Pos, Entry>, p: Pos, i: nat)
    requires forall j | i <= j < 512 ::
      (Child(p, j) in m <==> Child(p, j) in m') && (Child(p, j) in m ==> m[Child(p, j)] == m'[Child(p, j)])
    ensures LeafFrames(m, p, i) == LeafFrames(m', p, i)
    decreases 512 - i
  {
    if i < 512 {
      LeafFramesAgree(m, m', p, i + 1);
    }
  }

  lemma KidsStep(m: map<Pos, Entry>, p: Pos, i: nat)
    requires i < 512
    ensures m - Kids(p, i) == m - {Child(p, i)} - Kids(p, i + 1)
  {
    hide Parent, Slot, Child;
    var c := Child(p, i);
    ParentOfChild(p, i);
    forall d: Pos | d.depth > 0 && Parent(d) == p && Slot(d) == i ensures d == c { ChildOfParent(d); }
    assert Kids(p, i) == Kids(p, i + 1) + {c};
  }

  lemma CountNext(m: map<Pos, Entry>, p: Pos, i: nat, f: Frame)
    requires i < 512
    ensures Count(m - {Child(p, i)}, f) + LeafFrames(m, p, i)[f] == Count(m, f) + LeafFrames(m, p, i + 1)[f]
  {
    hide Count, Child;
    if Child(p, i) in m {
      CountRemove(m, Child(p, i), f);
    } else {
      assert m - {Child(p, i)} == m;
    }
  }

  lemma NoKids(m: map<Pos, Entry>, p: Pos)
    ensures m - Kids(p, 512) == m && LeafFrames(m, p, 512) == multiset{}
  {
    assert Kids(p, 512) == {};
  }

  lemma LeafFramesOther(m: map<Pos, Entry>, p: Pos, i: nat)
    requires i < 512
    ensures LeafFrames(m - {Child(p, i)}, p, i + 1) == LeafFrames(m, p, i + 1)
  {
    assert forall j | i + 1 <= j < 512 :: Child(p, j) != Child(p, i);
    hide Child;
    LeafFramesAgree(m - {Child(p, i)}, m, p, i + 1);
  }

  lemma {:induction false} LeafFramesCount(m: map<Pos, Entry>, p: Pos, i: nat, f: Frame)
    requires i <= 512
    ensures Count(m - Kids(p, i), f) + LeafFrames(m, p, i)[f] == Count(m, f)
    decreases 512 - i
  {
    hide Count, Child, Parent, Kids, LeafFrames;
    if i == 512 {
      NoKids(m, p);
    } else {
      LeafFramesCount(m - {Child(p, i)}, p, i + 1, f);
      LeafFramesOther(m, p, i);
      KidsStep(m, p, i);
      CountNext(m, p, i, f);
    }
  }

  /** A table leaves the forest: its own reference and those of its user leaves become handles. */
  lemma DisbandAcct(g: Layout, t: Tree, s: State, held: multiset<Frame>, p: Pos)
    requires TreeOk(t) && p in t.roots && Acct(g, t, s, held)
    ensures TreeOk(Disband(t, p))
    ensures Acct(g, Disband(t, p), s, Give(g, held, t.at[p]) + LeafFrames(Flat(t), p, 0))
    ensures Keeps(held, t, s, Disband(t, p), s)
  {
    hide TreeOk, Ent, Acct, Flat, Shape, Users, Fresh, Count, LeafFrames;
    RootsAt(t);
    DisbandOk(t, p);
    ShapeOf(t);
    SameMemKeeps(held, t, Disband(t, p), s);
    DisbandFlat(t, Disband(t, p), p);
    DisbandBalance(g, t, Disband(t, p), s, held, p);
  }

  lemma DisbandFlat(t: Tree, t': Tree, p: Pos)
    requires forall c :: Ent(t', c) == if c.depth > 0 && Parent(c) == p then ABSENT else Ent(t, c)
    ensures Flat(t') == Flat(t) - Kids(p, 0)
  {
    hide Ent, Flat, Kids;
    var m := Flat(t) - Kids(p, 0);
    forall c ensures c in Flat(t') <==> c in m {
      assert c in Kids(p, 0) <==> c.depth > 0 && Parent(c) == p;
      hide Parent, Slot;
    }
    hide Parent, Slot, IsUser;
    forall c | c in m ensures Flat(t')[c] == m[c] {
      assert c !in Kids(p, 0);
    }
  }

  lemma {:induction false} LeafFramesIn(m: map<Pos, Entry>, p: Pos, i: nat, f: Frame)
    requires i <= 512 && f in LeafFrames(m, p, i)
    ensures exists c :: c in m && m[c].frame == f
    decreases 512 - i
  {
    if i < 512 && f in LeafFrames(m, p, i + 1) {
      LeafFramesIn(m, p, i + 1, f);
    }
  }

  lemma DisbandBalance(g: Layout, t: Tree, t': Tree, s: State, held: multiset<Frame>, p: Pos)
    requires Shape(t) && p in t.at && Acct(g, t, s, held)
    requires t'.mem == t.mem && t'.at == t.at - {p} && Flat(t') == Flat(t) - Kids(p, 0)
    ensures Acct(g, t', s, Give(g, held, t.at[p]) + LeafFrames(Flat(t), p, 0))
  {
    hide Flat, Count, Users, Kids, LeafFrames, Fresh, TableUse, Balanced, Give, Shape;
    DisbandSums(g, t, t', s, held, p);
    DisbandHandles(g, t, t', s, held, p);
  }

  lemma DisbandSums(g: Layout, t: Tree, t': Tree, s: State, held: multiset<Frame>, p: Pos)
    requires Shape(t) && p in t.at && Acct(g, t, s, held)
    requires t'.at == t.at - {p} && Flat(t') == Flat(t) - Kids(p, 0)
    ensures Balanced(g, t', s, Give(g, held, t.at[p]) + LeafFrames(Flat(t), p, 0))
  {
    hide Flat, Count, Users, Kids, LeafFrames, Fresh, TableUse, IsData, Shape;
    var f := t.at[p];
    var more := LeafFrames(Flat(t), p, 0);
    forall h | g.Managed(h) ensures Refs(s, h) == TableUse(t', h) + Count(Flat(t'), h) + (Give(g, held, f) + more)[h] {
      RemoveTableUse(t, t', p, h);
      LeafFramesCount(Flat(t), p, 0, h);
    }
  }

  lemma DisbandHandles(g: Layout, t: Tree, t': Tree, s: State, held: multiset<Frame>, p: Pos)
    requires Shape(t) && p in t.at && Acct(g, t, s, held) && t'.at == t.at - {p}
    ensures forall h | h in Give(g, held, t.at[p]) + LeafFrames(Flat(t), p, 0) :: g.Managed(h) && Fresh(t', h)
  {
    hide Flat, Count, Users, LeafFrames, Balanced, TableUse;
    var f := t.at[p];
    forall h | h in Give(g, held, f) + LeafFrames(Flat(t), p, 0) ensures g.Managed(h) && Fresh(t', h) {
      if h in LeafFrames(Flat(t), p, 0) {
        LeafFramesIn(Flat(t), p, 0, h);
        FrameFresh(g, t, s, held, h);
        TableUseFresh(t, h);
      }
    }
  }

  /** User pages are data, so they are never tables. */
  lemma FrameFresh(g: Layout, t: Tree, s: State, held: multiset<Frame>, f: Frame)
    requires Shape(t) && Acct(g, t, s, held) && exists c :: c in Flat(t) && Flat(t)[c].frame == f
    ensures g.Managed(f) && TableUse(t, f) == 0
  {
    hide Flat;
  }

  lemma RemoveTableUse(t: Tree, t': Tree, p: Pos, h: Frame)
    requires Shape(t) && p in t.at && t'.at == t.at - {p}
    ensures TableUse(t', h) == TableUse(t, h) - (if h == t.at[p] then 1 else 0)
  {
    if h != t.at[p] && !Fresh(t, h) {
      var q :| q in t.at && t.at[q] == h;
      assert q in t'.at && t'.at[q] == h;
    }
  }

  // ---- steps of the destroying loops ----

  lemma LeafFramesStep(t: Tree, p: Pos, i: nat)
    requires i < 512
    ensures LeafFrames(Flat(t), p, i)
         == (if IsUser(t, Child(p, i)) then multiset{Ent(t, Child(p, i)).frame}
           else multiset{}) + LeafFrames(Flat(t), p, i + 1)
  {
    hide Ent, IsUser, Child;
  }

  /** Handles the kernel owes while the table at `p` is being destroyed. */
  ghost function Pending(t: Tree, p: Pos, i: nat, h: multiset<Frame>): multiset<Frame> {
    h + LeafFrames(Flat(t), p, i)
  }

  /** An entry that links no table: a user leaf gives its reference up, anything else nothing. */
  lemma DestroyLeafStep(t: Tree, p: Pos, i: nat, h: multiset<Frame>)
    requires TreeOk(t) && EntriesOk(t) && Whole(t, p) && i < 512 && p in t.at
    requires p.depth == 3 || !Linked(Ent(t, Child(p, i)))
    ensures Removed(t, p, i + 1) == Removed(t, p, i)
    ensures var e := Ent(t, Child(p, i));
      if e.present && e.user then e.frame in Pending(t, p, i, h)
        && Pending(t, p, i, h) - multiset{e.frame} == Pending(t, p, i + 1, h)
      else Pending(t, p, i, h) == Pending(t, p, i + 1, h)
  {
    hide TreeOk, Ent, LeafFrames, Flat, Whole, Removed;
    LeafFramesStep(t, p, i);
    RemovedSkip(t, p, i);
    var c := Child(p, i);
    if Ent(t, c).present && Ent(t, c).user {
      assert EntryOk(t.kernel, c, Ent(t, c));
      ShapeAt(t, p);
      assert IsUser(t, c);
    }
  }

  lemma DestroyLinkStep(t: Tree, p: Pos, i: nat, h: multiset<Frame>)
    requires TreeOk(t) && Whole(t, p) && i < 512 && p in t.roots && p.depth < 3 && Linked(Ent(t, Child(p, i)))
    ensures Child(p, i) in Removed(t, p, i).roots && Child(p, i) in Removed(t, p, i).at
    ensures Whole(Removed(t, p, i), Child(p, i))
    ensures Removed(t, p, i).at[Child(p, i)] == Ent(t, Child(p, i)).frame
    ensures Without(Removed(t, p, i), Child(p, i)) == Removed(t, p, i + 1)
    ensures Pending(t, p, i, h) == Pending(t, p, i + 1, h)
  {
    hide TreeOk, Ent, LeafFrames, Flat, Whole;
    RemovedWaiting(t, p, i);
    RemovedChild(t, p, i);
    RemovedChildRoots(t, p, i);
    LeafFramesStep(t, p, i);
    assert !IsUser(t, Child(p, i));
    hide Removed, Without, IsUser;
    TreeEq(Without(Removed(t, p, i), Child(p, i)), Removed(t, p, i + 1), t);
  }

  lemma TreeEq(a: Tree, b: Tree, t: Tree)
    requires a.at == b.at && a.roots == b.roots && a.mem == b.mem && a.kernel == b.kernel
    ensures a == b
  {
  }

  lemma RemovedEntries(t: Tree, p: Pos, i: nat)
    requires EntriesOk(t)
    ensures EntriesOk(Removed(t, p, i))
  {
    forall c | Ent(Removed(t, p, i), c).present ensures EntryOk(t.kernel, c, Ent(Removed(t, p, i), c)) {
      RemovedEnt(t, Removed(t, p, i), c);
      hide Ent, EntryOk;
    }
  }

  lemma SlotHas(t: Tree, p: Pos, i: nat)
    requires p in t.at && i < 512 && (p.depth > 0 || p.root == t.kernel || i < 256) && (p.depth == 0 ==> p.prefix == 0)
    ensures Has(t, Child(p, i)) && Parent(Child(p, i)) == p && Slot(Child(p, i)) == i
  {
  }

  lemma DisbandMem(t: Tree, p: Pos)
    ensures Disband(t, p) == Tree(t.kernel, t.mem, Disband(t, p).at, Disband(t, p).roots)
  {
  }

  lemma PendingEnd(t: Tree, p: Pos, h: multiset<Frame>)
    ensures Pending(t, p, 512, h) == h
  {
  }

  lemma DisbandPending(g: Layout, t: Tree, s: State, held: multiset<Frame>, p: Pos)
    requires TreeOk(t) && p in t.roots && Acct(g, t, s, held)
    ensures p in t.at && TreeOk(Disband(t, p))
    ensures Acct(g, Disband(t, p), s, Pending(t, p, 0, Give(g, held, t.at[p])))
  {
    RootsAt(t);
    DisbandAcct(g, t, s, held, p);
  }

  /** If no slot from `i` on links a table or maps a user page, the rest of the loop does nothing. */
  lemma {:induction false} DestroyRest(t: Tree, p: Pos, i: nat, h: multiset<Frame>)
    requires TreeOk(t) && EntriesOk(t) && Whole(t, p) && i <= 512 && p in t.at
    requires forall j | i <= j < 512 :: (p.depth == 3 || !Linked(Ent(t, Child(p, j)))) && !Ent(t, Child(p, j)).user
    ensures Removed(t, p, i) == Removed(t, p, 512) && Pending(t, p, i, h) == Pending(t, p, 512, h)
    decreases 512 - i
  {
    hide TreeOk, EntriesOk, Whole, Ent, Removed, Pending, Child;
    if i < 512 {
      DestroyLeafStep(t, p, i, h);
      DestroyRest(t, p, i + 1, h);
    }
  }

  ghost predicate NoUsers(t: Tree, p: Pos) {
    forall c | Under(p, c) && c != p :: !Ent(t, c).user
  }

  lemma NoUsersChild(t: Tree, p: Pos, i: nat)
    requires NoUsers(t, p) && i < 512
    ensures !Ent(t, Child(p, i)).user && NoUsers(Removed(t, p, i), Child(p, i))
  {
    ParentOfChild(p, i);
    assert Under(p, Child(p, i));
    forall c | Under(Child(p, i), c) && c != Child(p, i) ensures !Ent(Removed(t, p, i), c).user {
      UnderChild(p, i, c);
      RemovedEnt(t, Removed(t, p, i), c);
      hide Ent, Under;
    }
  }

  lemma NoUsersRest(t: Tree, p: Pos)
    requires NoUsers(t, p) && p.depth == 3
    ensures forall j | 0 <= j < 512 :: !Ent(t, Child(p, j)).user
  {
    forall j | 0 <= j < 512 ensures !Ent(t, Child(p, j)).user {
      NoUsersChild(t, p, j);
      hide Ent, NoUsers;
    }
  }

  /** The upper half of a process's top table is not its own. */
  lemma UpperHalf(t: Tree, p: Pos)
    requires p.depth == 0 && p.root != t.kernel && p.prefix == 0
    ensures forall j | 256 <= j < 512 :: Ent(t, Child(p, j)) == ABSENT
  {
  }

  lemma TopsWhole(t: Tree, p: Pos)
    requires Tops(t.roots) && p in t.roots
    ensures Whole(t, p)
  {
    forall r | r in t.roots && r != p ensures !Under(p, r) {
      assert p.depth == 0;
    }
  }

  /** Top-level entries always link tables. */
  lemma TopEntry(t: Tree, c: Pos)
    requires EntriesOk(t) && c.depth == 1
    ensures Ent(t, c).present ==> Linked(Ent(t, c))
  {
    hide Ent;
    if Ent(t, c).present {
      assert EntryOk(t.kernel, c, Ent(t, c));
    }
  }
}
