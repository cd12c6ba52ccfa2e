/** Copies of table subtrees, as clone_table makes them for a new space. */
module Clones {
  import opened Pmm
  import opened Paging
  import opened Accounts
  import opened Translation
  import opened Walks
  import opened Subtrees
  import opened Cow

  /** The position of `p` in another space. */
  function In(p: Pos, r: Frame): Pos { p.(root := r) }

  lemma {:induction false} UnderIn(p: Pos, c: Pos, r: Frame)
    requires Under(p, c)
    ensures Under(In(p, r), In(c, r))
    decreases c.depth
  {
    if c != p {
      UnderIn(p, Parent(c), r);
    }
  }

  lemma {:induction false} BranchIn(p: Pos, c: Pos, r: Frame)
    requires c.depth > p.depth
    ensures Branch(In(p, r), In(c, r)) == Branch(p, c)
    decreases c.depth
  {
    if c.depth > p.depth + 1 {
      BranchIn(p, Parent(c), r);
    }
  }

  /** Nothing lies below `d` yet. */
  ghost predicate Vacant(t: Tree, d: Pos) { forall c | c in t.at :: !Under(d, c) }

  /** The entry of a copy: as the original, but a link leads to the copied table. */
  function CopyEnt(t0: Tree, t: Tree, p: Pos, c: Pos): Entry {
    var e := Ent(t0, In(c, p.root));
    if c.depth < 4 && Linked(e) && c in t.at then e.(frame := t.at[c]) else e
  }

  ghost predicate ClonedAt(t0: Tree, t: Tree, p: Pos, r: Frame, i: nat, c: Pos) {
    c in t.at <==> c in t0.at || (Gone(In(p, r), i, c) && (c == In(p, r) || In(c, p.root) in t0.at))
  }

  ghost predicate ClonedEnt(t0: Tree, t: Tree, p: Pos, r: Frame, i: nat, c: Pos) {
    Ent(t, c) == if c.depth > p.depth && Gone(In(p, r), i, c) then CopyEnt(t0, t, p, c) else Ent(t0, c)
  }

  /** `t` is `t0` with a detached copy, in space `r`, of the table at `p` and of everything below
      its first `i` entries. */
  ghost predicate Cloned(t0: Tree, t: Tree, p: Pos, r: Frame, i: nat) {
    && t.kernel == t0.kernel && t.roots == t0.roots + {In(p, r)}
    && (forall c | c in t0.at :: c in t.at && t.at[c] == t0.at[c])
    && (forall c :: ClonedAt(t0, t, p, r, i, c))
    && (forall c :: ClonedEnt(t0, t, p, r, i, c))
  }

  /** The upper half of a space is the kernel's, down to the same tables. */
  ghost predicate SharesUpper(t: Tree, f: Frame) {
    IsTable(t, f) && IsTable(t, t.kernel) && t.mem[f].entries[256..] == t.mem[t.kernel].entries[256..]
  }

  lemma CloneStart(t0: Tree, t: Tree, p: Pos, r: Frame)
    requires t.kernel == t0.kernel && t.roots == t0.roots + {In(p, r)}
    requires In(p, r) !in t0.at && In(p, r) in t.at && t.at == t0.at[In(p, r) := t.at[In(p, r)]]
    requires forall c :: Ent(t, c) == Ent(t0, c)
    ensures Cloned(t0, t, p, r, 0)
  {
    var d := In(p, r);
    forall c ensures ClonedAt(t0, t, p, r, 0, c) && ClonedEnt(t0, t, p, r, 0, c) {
      GoneEnds(d, c);
      hide Gone, Ent;
    }
  }

  /** Below an unlinked slot the original has nothing, so there is nothing more to copy. */
  lemma BelowSlot(t: Tree, p: Pos, i: nat, c: Pos)
    requires TreeOk(t) && Whole(t, p) && i < 512 && p in t.at && (p.depth == 3 || !Linked(Ent(t, Child(p, i))))
    requires Under(Child(p, i), c) && c != Child(p, i)
    ensures Ent(t, c) == ABSENT && c !in t.at
  {
    hide Ent, TreeOk, Whole;
    UnderRoot(Child(p, i), c);
    SkipLinked(t, p, i);
    ShapeAt(t, p);
    if Parent(c) in t.at {
      SkipBelow(t, p, i, Parent(c));
    }
    NoTableNoEnt(t, c);
    if c in t.at {
      SkipBelow(t, p, i, c);
    }
  }

  /** Copying an entry that links no table. */
  lemma CloneLeafStep(t0: Tree, t: Tree, t': Tree, p: Pos, r: Frame, i: nat, c: Pos)
    requires TreeOk(t0) && Whole(t0, p) && Vacant(t0, In(p, r)) && p in t0.at && i < 512
    requires p.depth == 3 || !Linked(Ent(t0, Child(p, i)))
    requires Cloned(t0, t, p, r, i)
    requires t'.at == t.at && Ent(t', c) == if c == Child(In(p, r), i) then Ent(t0, Child(p, i)) else Ent(t, c)
    ensures ClonedAt(t0, t', p, r, i + 1, c) && ClonedEnt(t0, t', p, r, i + 1, c)
  {
    hide TreeOk, Whole, Ent;
    var d := In(p, r);
    assert ClonedAt(t0, t, p, r, i, c) && ClonedEnt(t0, t, p, r, i, c);
    assert Child(d, i) == In(Child(p, i), r);
    GoneStep(d, i, c);
    ParentOfChild(d, i);
    if Under(Child(d, i), c) {
      UnderChild(d, i, c);
      UnderIn(Child(d, i), c, p.root);
      assert In(Child(d, i), p.root) == Child(p, i);
      if c == Child(d, i) {
        SkipLinked(t0, p, i);
        SkipSelf(t0, p, i);
      } else {
        BelowSlot(t0, p, i, In(c, p.root));
        VacantEnt(t0, d, c);
      }
    }
  }

  lemma SkipSelf(t: Tree, p: Pos, i: nat)
    requires TreeOk(t) && Whole(t, p) && i < 512 && !(Child(p, i) in t.at && Child(p, i) !in t.roots)
    ensures Child(p, i) !in t.at
  {
    ParentOfChild(p, i);
    assert Under(p, Child(p, i));
    hide TreeOk, Under;
  }

  lemma VacantEnt(t: Tree, d: Pos, c: Pos)
    requires Vacant(t, d) && Under(d, c) && c != d
    ensures Ent(t, c) == ABSENT && c !in t.at
  {
    hide Ent;
    assert Under(d, Parent(c));
    NoTableNoEnt(t, c);
  }

  /** The copy leaves the original alone. */
  lemma OriginalSame(t0: Tree, t: Tree, p: Pos, r: Frame, i: nat, c: Pos)
    requires Cloned(t0, t, p, r, i) && c.root != r
    ensures (c in t.at <==> c in t0.at) && Ent(t, c) == Ent(t0, c)
  {
    hide Ent;
    assert ClonedAt(t0, t, p, r, i, c) && ClonedEnt(t0, t, p, r, i, c);
    if Under(In(p, r), c) {
      UnderRoot(In(p, r), c);
    }
  }

  /** Copying an entry that links a table: copy the table, then link the copy. */
  lemma CloneLinkStep(t0: Tree, t: Tree, t2: Tree, t3: Tree, p: Pos, r: Frame, i: nat, c: Pos)
    requires i < 512 && r != p.root && p.depth < 3
    requires Child(p, i) in t0.at && Linked(Ent(t0, Child(p, i)))
    requires Cloned(t0, t, p, r, i) && Cloned(t, t2, Child(p, i), r, 512)
    requires t3.at == t2.at && Child(In(p, r), i) in t2.at
    requires Ent(t3, c) == if c
      == Child(In(p, r), i) then Ent(t0, Child(p, i)).(frame := t2.at[Child(In(p, r), i)]) else Ent(t2, c)
    ensures ClonedAt(t0, t3, p, r, i + 1, c) && ClonedEnt(t0, t3, p, r, i + 1, c)
  {
    hide Ent, Under, Branch;
    var d := In(p, r);
    var k := Child(p, i);
    assert In(k, r) == Child(d, i) && In(Child(d, i), p.root) == k;
    assert ClonedAt(t0, t, p, r, i, c) && ClonedEnt(t0, t, p, r, i, c);
    assert ClonedAt(t, t2, k, r, 512, c) && ClonedEnt(t, t2, k, r, 512, c);
    GoneStep(d, i, c);
    GoneEnds(In(k, r), c);
    OriginalSame(t0, t, p, r, i, In(c, p.root));
    ParentOfChild(d, i);
    UnderChild(d, i, c);
    if Under(Child(d, i), c) {
      UnderRoot(Child(d, i), c);
    }
  }

  lemma CloneLinkDone(t0: Tree, t: Tree, t2: Tree, t3: Tree, p: Pos, r: Frame, i: nat)
    requires i < 512 && r != p.root && p.depth < 3 && Vacant(t0, In(p, r))
    requires Child(p, i) in t0.at && Linked(Ent(t0, Child(p, i))) && t0.roots <= t0.at.Keys
    requires Cloned(t0, t, p, r, i) && Cloned(t, t2, Child(p, i), r, 512)
    requires t3.at == t2.at && Child(In(p, r), i) in t2.at && t3.kernel == t2.kernel
    requires t3.roots == t2.roots - {Child(In(p, r), i)}
    requires forall c ::
      Ent(t3, c) == if c == Child(In(p, r), i) then Ent(t0, Child(p, i)).(frame := t2.at[Child(In(p, r), i)])
        else Ent(t2, c)
    ensures Cloned(t0, t3, p, r, i + 1)
  {
    hide Ent, ClonedAt, ClonedEnt;
    var d := In(p, r);
    assert Child(d, i) !in t0.roots by {
      ParentOfChild(d, i);
      assert Under(d, Child(d, i));
    }
    var n := i + 1;
    forall c ensures ClonedAt(t0, t3, p, r, n, c) && ClonedEnt(t0, t3, p, r, n, c) {
      CloneLinkStep(t0, t, t2, t3, p, r, i, c);
    }
    assert Child(d, i) == In(Child(p, i), r);
  }

  lemma CloneLeafDone(t0: Tree, t: Tree, t': Tree, p: Pos, r: Frame, i: nat)
    requires TreeOk(t0) && Whole(t0, p) && Vacant(t0, In(p, r)) && p in t0.at && i < 512
    requires p.depth == 3 || !Linked(Ent(t0, Child(p, i)))
    requires Cloned(t0, t, p, r, i)
    requires t'.at == t.at && t'.kernel == t.kernel && t'.roots == t.roots
    requires forall c :: Ent(t', c) == if c == Child(In(p, r), i) then Ent(t0, Child(p, i)) else Ent(t, c)
    ensures Cloned(t0, t', p, r, i + 1)
  {
    hide TreeOk, Whole, Ent, ClonedAt, ClonedEnt, Vacant;
    var n := i + 1;
    forall c ensures ClonedAt(t0, t', p, r, n, c) && ClonedEnt(t0, t', p, r, n, c) {
      CloneLeafStep(t0, t, t', p, r, i, c);
    }
  }

  /** Destroying a partial copy restores the forest it was made from. */
  lemma CloneUndone(t0: Tree, t: Tree, p: Pos, r: Frame, i: nat)
    requires Cloned(t0, t, p, r, i) && Vacant(t0, In(p, r)) && In(p, r) !in t0.roots
    ensures Without(t, In(p, r)).at == t0.at && Without(t, In(p, r)).roots == t0.roots
    ensures forall c :: Ent(Without(t, In(p, r)), c) == Ent(t0, c)
  {
    var d := In(p, r);
    var w := Without(t, d);
    forall c ensures c in w.at <==> c in t0.at {
      assert ClonedAt(t0, t, p, r, i, c);
      hide Ent, ClonedEnt;
    }
    forall c ensures Ent(w, c) == Ent(t0, c) {
      RemovedEnt(t, w, c);
      assert ClonedEnt(t0, t, p, r, i, c);
      if c.depth == 0 || Parent(c) !in t0.at {
        CloneUndoneAbsent(t0, c);
      } else {
        assert !Under(d, Parent(c));
      }
      hide Ent;
    }
    hide Ent, ClonedEnt, ClonedAt;
    assert w.at == t0.at;
  }

  lemma CloneUndoneAbsent(t: Tree, c: Pos)
    requires c.depth == 0 || Parent(c) !in t.at
    ensures Ent(t, c) == ABSENT
  {
  }

  /** A copy of kernel tables maps no user pages. */
  lemma CloneNoUsers(t0: Tree, t: Tree, p: Pos, r: Frame, i: nat)
    requires Cloned(t0, t, p, r, i) && Vacant(t0, In(p, r)) && NoUsers(t0, p)
    ensures NoUsers(t, In(p, r))
  {
    var d := In(p, r);
    forall c | Under(d, c) && c != d ensures !Ent(t, c).user {
      assert ClonedEnt(t0, t, p, r, i, c);
      VacantEnt(t0, d, c);
      UnderIn(d, c, p.root);
      assert In(d, p.root) == p;
      assert Under(p, In(c, p.root));
      hide Ent;
    }
  }

  lemma ClonedEntries(t0: Tree, t: Tree, p: Pos, r: Frame, i: nat)
    requires Cloned(t0, t, p, r, i) && EntriesOk(t0) && NoUsers(t0, p)
    ensures EntriesOk(t)
  {
    hide Ent;
    forall c | Ent(t, c).present ensures EntryOk(t.kernel, c, Ent(t, c)) {
      assert ClonedEnt(t0, t, p, r, i, c);
      if c.depth > p.depth && Gone(In(p, r), i, c) {
        UnderIn(In(p, r), c, p.root);
        assert In(In(p, r), p.root) == p;
        assert EntryOk(t0.kernel, In(c, p.root), Ent(t0, In(c, p.root)));
      }
    }
  }

  /** The slot about to be copied: its original, and the empty slot of the copy. */
  lemma CloneSlot(t0: Tree, t: Tree, p: Pos, r: Frame, i: nat)
    requires Cloned(t0, t, p, r, i) && Vacant(t0, In(p, r)) && p in t0.at && i < 512 && r != p.root
    requires p.depth >= 1 || (p == Pos(t0.kernel, 0, 0) && i < 256)
    ensures Has(t, Child(p, i)) && Ent(t, Child(p, i)) == Ent(t0, Child(p, i))
    ensures Has(t, Child(In(p, r), i)) && Ent(t, Child(In(p, r), i)) == ABSENT && Child(In(p, r), i) !in t.at
    ensures In(p, r) in t.at && p in t.at && t.at[p] == t0.at[p]
  {
    hide Ent;
    var d := In(p, r);
    ParentOfChild(p, i);
    ParentOfChild(d, i);
    OriginalSame(t0, t, p, r, i, Child(p, i));
    assert ClonedAt(t0, t, p, r, i, d);
    GoneEnds(d, d);
    var c := Child(d, i);
    assert ClonedAt(t0, t, p, r, i, c) && ClonedEnt(t0, t, p, r, i, c);
    assert Under(d, c);
    VacantEnt(t0, d, c);
  }

  /** The tree to be copied next is whole, and its place is vacant. */
  lemma CloneReady(t0: Tree, t: Tree, p: Pos, r: Frame, i: nat)
    requires Cloned(t0, t, p, r, i) && Vacant(t0, In(p, r)) && Whole(t0, p) && NoUsers(t0, p) && i < 512 && r != p.root
    ensures Whole(t, Child(p, i)) && NoUsers(t, Child(p, i)) && Vacant(t, In(Child(p, i), r))
    ensures Child(p, i) in t0.at ==> Child(p, i) in t.at && t.at[Child(p, i)] == t0.at[Child(p, i)]
  {
    hide Ent;
    var k, d := Child(p, i), In(p, r);
    assert In(k, r) == Child(d, i);
    forall q | q in t.roots && q != k ensures !Under(k, q) {
      UnderChild(p, i, q);
      if q == d && Under(k, q) { UnderRoot(k, q); }
    }
    forall c | Under(k, c) && c != k ensures !Ent(t, c).user {
      UnderChild(p, i, c);
      UnderRoot(k, c);
      OriginalSame(t0, t, p, r, i, c);
    }
    forall c | c in t.at ensures !Under(In(k, r), c) {
      assert ClonedAt(t0, t, p, r, i, c);
      UnderChild(d, i, c);
    }
  }

  lemma VacantTop(t: Tree, d: Pos)
    requires Vacant(t, d)
    ensures d !in t.at
  {
    if d in t.at {
      assert Under(d, d);
    }
  }

  lemma NoUsersAt(t: Tree, p: Pos, i: nat)
    requires NoUsers(t, p) && i < 512
    ensures !Ent(t, Child(p, i)).user
  {
    hide Ent;
    ParentOfChild(p, i);
    assert Under(p, Child(p, i));
  }

  /** After the copy of the table below slot `i`, that slot is still free to take the link. */
  lemma CloneLinkReady(t: Tree, t2: Tree, p: Pos, r: Frame, i: nat)
    requires Cloned(t, t2, Child(p, i), r, 512) && i < 512
    requires In(p, r) in t.at && Has(t, Child(In(p, r), i)) && Ent(t, Child(In(p, r), i)) == ABSENT
    ensures Child(In(p, r), i) in t2.roots && Has(t2, Child(In(p, r), i)) && Ent(t2, Child(In(p, r), i)) == ABSENT
    ensures In(p, r) in t2.at && t2.at[In(p, r)] == t.at[In(p, r)]
    ensures t2.roots - {Child(In(p, r), i)} == t.roots - {Child(In(p, r), i)}
  {
    hide Ent;
    var k := Child(In(p, r), i);
    assert k == In(Child(p, i), r);
    assert ClonedEnt(t, t2, Child(p, i), r, 512, k);
    ParentOfChild(In(p, r), i);
  }

  lemma ClonedSame(t0: Tree, t: Tree, t': Tree, p: Pos, r: Frame, i: nat)
    requires Cloned(t0, t, p, r, i) && t'.kernel == t.kernel && t'.at == t.at && t'.roots == t.roots
    requires forall c :: Ent(t', c) == Ent(t, c)
    ensures Cloned(t0, t', p, r, i)
  {
    hide Ent;
    forall c ensures ClonedAt(t0, t', p, r, i, c) && ClonedEnt(t0, t', p, r, i, c) {
      assert ClonedAt(t0, t, p, r, i, c) && ClonedEnt(t0, t, p, r, i, c);
    }
  }

  /** A partial copy is a whole tree of its own. */
  lemma CloneWhole(t0: Tree, t: Tree, p: Pos, r: Frame, i: nat)
    requires Cloned(t0, t, p, r, i) && Vacant(t0, In(p, r)) && t0.roots <= t0.at.Keys
    ensures In(p, r) in t.roots && Whole(t, In(p, r)) && In(p, r) !in t0.roots
  {
    hide Ent, Under;
    VacantTop(t0, In(p, r));
  }

  lemma WithoutMem(t: Tree, p: Pos)
    ensures Without(t, p).mem == t.mem && Without(t, p).kernel == t.kernel
  {
  }

  lemma SlotTable(t: Tree, p: Pos, i: nat)
    requires TreeOk(t)
    ensures p.depth < 3 && Linked(Ent(t, Child(p, i))) ==> Child(p, i) in t.at
  {
  }

  lemma CloneLinkRoots(t0: Tree, t: Tree, p: Pos, r: Frame, i: nat)
    requires Cloned(t0, t, p, r, i)
    ensures t.kernel == t0.kernel && forall c | c in t0.at :: c in t.at && t.at[c] == t0.at[c]
  {
  }

  /** Permissions survive the copying of kernel tables. */
  lemma ClonedFlags(t0: Tree, t: Tree, p: Pos, r: Frame, i: nat)
    requires Cloned(t0, t, p, r, i) && FlagsOk(t0) && NoUsers(t0, p) && Vacant(t0, In(p, r))
    ensures FlagsOk(t)
  {
    hide Ent, Vacant;
    ClonedEntries(t0, t, p, r, i);
    CloneNoUsers(t0, t, p, r, i);
    forall c | Ent(t, c).present && Ent(t, c).user ensures UserAbove(t, c) {
      ClonedUserAbove(t0, t, p, r, i, c);
    }
  }

  lemma UnderBelow(d: Pos, c: Pos)
    requires c.depth > 0 && Under(d, Parent(c))
    ensures Under(d, c) && c != d
  {
    UnderRoot(d, Parent(c));
  }

  lemma ClonedUserAbove(t0: Tree, t: Tree, p: Pos, r: Frame, i: nat, c: Pos)
    requires Cloned(t0, t, p, r, i) && FlagsOk(t0) && NoUsers(t, In(p, r)) && Vacant(t0, In(p, r)) && Ent(t, c).present
    requires Ent(t, c).user
    ensures UserAbove(t, c)
  {
    hide Ent, EntryOk;
    var d := In(p, r);
    assert ClonedEnt(t0, t, p, r, i, c);
    if c.depth > 1 && Parent(c) !in t.roots {
      assert ClonedEnt(t0, t, p, r, i, Parent(c));
      assert UserAbove(t0, c);
      if Under(d, Parent(c)) {
        UnderBelow(d, c);
      }
    }
  }

  /** Nothing below a slot not yet copied. */
  lemma CloneRest(t0: Tree, t: Tree, p: Pos, r: Frame, i: nat)
    requires Cloned(t0, t, p, r, i) && Vacant(t0, In(p, r))
    ensures forall j | i <= j < 512 :: Ent(t, Child(In(p, r), j)) == ABSENT
  {
    var d := In(p, r);
    forall j | i <= j < 512 ensures Ent(t, Child(d, j)) == ABSENT {
      ParentOfChild(d, j);
      assert Under(d, Child(d, j));
      assert ClonedEnt(t0, t, p, r, i, Child(d, j));
      VacantEnt(t0, d, Child(d, j));
      hide Ent;
    }
  }

  /** A fresh frame number names no space. */
  lemma FreshSpace(t: Tree, f: Frame)
    requires TreeOk(t) && Tops(t.roots) && Fresh(t, f)
    ensures Vacant(t, Pos(f, 0, 0))
  {
    forall c | c in t.at ensures !Under(Pos(f, 0, 0), c) {
      if Under(Pos(f, 0, 0), c) {
        UnderTopAt(t, f, c);
        RootAt(t, f);
      }
    }
  }

  lemma {:induction false} UnderTopAt(t: Tree, f: Frame, c: Pos)
    requires TreeOk(t) && Tops(t.roots) && c in t.at && Under(Pos(f, 0, 0), c)
    ensures Pos(f, 0, 0) in t.at
    decreases c.depth
  {
    hide TreeOk;
    if c != Pos(f, 0, 0) {
      ParentAt(t, c);
      UnderTopAt(t, f, Parent(c));
    }
  }

  lemma KernelNoUsers(t: Tree)
    requires EntriesOk(t)
    ensures NoUsers(t, Pos(t.kernel, 0, 0))
  {
    forall c | Under(Pos(t.kernel, 0, 0), c) && c != Pos(t.kernel, 0, 0) ensures !Ent(t, c).user {
      UnderRoot(Pos(t.kernel, 0, 0), c);
      UserPresent(t, c);
      hide Ent;
      assert Ent(t, c).present ==> EntryOk(t.kernel, c, Ent(t, c));
    }
  }

  /** The upper half of a process's top table may hold anything: no page of its own is behind it. */
  lemma WriteUpper(g: Layout, t: Tree, s: State, held: multiset<Frame>, f: Frame, i: nat, e: Entry)
    requires TreeOk(t) && Acct(g, t, s, held) && Pos(f, 0, 0) in t.at && f != t.kernel && 256 <= i < 512
    ensures IsTable(t, f)
    ensures var t' := t.(mem := t.mem[f := Table(t.mem[f].entries[i := e])]);
      TreeOk(t') && Acct(g, t', s, held) && Keeps(held, t, s, t', s) && Flat(t') == Flat(t) && forall c ::
        Ent(t', c) == Ent(t, c)
  {
    hide TreeOk, Ent, Acct, Flat, Users, Shape, InUse;
    RootAt(t, f);
    ShapeAt(t, Pos(f, 0, 0));
    var t' := t.(mem := t.mem[f := Table(t.mem[f].entries[i := e])]);
    WriteUpperEnt(t, t', f, i, e);
    TreeSame(t, t');
    FlatSame(t, t');
    DataOf(g, t, s, held);
    SameOwnersAcct(g, t, t', s, held);
  }

  lemma WriteUpperEnt(t: Tree, t': Tree, f: Frame, i: nat, e: Entry)
    requires TreeOk(t) && Pos(f, 0, 0) in t.at && t.at[Pos(f, 0, 0)] == f && f != t.kernel && 256 <= i < 512
    requires IsTable(t, f)
    requires t' == t.(mem := t.mem[f := Table(t.mem[f].entries[i := e])])
    ensures Shape(t') && forall c :: Ent(t', c) == Ent(t, c)
  {
    assert Shape(t);
    hide TreeOk;
    forall c ensures Ent(t', c) == Ent(t, c) {
      if Has(t, c) && t.at[Parent(c)] == f {
        assert Parent(c) == Pos(f, 0, 0);
        assert Slot(c) == c.prefix;
      }
    }
  }
}
