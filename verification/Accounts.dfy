/** Frame ownership: every reference count is explained by a table, by user mappings in all
    spaces together, and by the handles kernel code holds. */
module Accounts {
  import opened Pmm
  import opened Paging

  predicate IsData(t: Tree, f: Frame) {
    f in t.mem && t.mem[f].Data? && |t.mem[f].bytes| == PAGE_SIZE
  }

  ghost function TableUse(t: Tree, f: Frame): nat { if Fresh(t, f) then 0 else 1 }

  ghost predicate Balanced(g: Layout, t: Tree, s: State, held: multiset<Frame>) {
    forall f | g.Managed(f) :: Refs(s, f) == TableUse(t, f) + Count(Flat(t), f) + held[f]
  }

  /** The global accounting invariant. `held` are the handles of kernel code. */
  ghost predicate Acct(g: Layout, t: Tree, s: State, held: multiset<Frame>) {
    && Balanced(g, t, s, held)
    && (forall c | c in Flat(t) :: g.Managed(Flat(t)[c].frame) && IsData(t, Flat(t)[c].frame))
    && (forall f | f in held :: g.Managed(f) && Fresh(t, f))
  }

  /** Frames whose contents somebody relies on: a handle is held or a user page maps it. */
  ghost predicate InUse(t: Tree, held: multiset<Frame>, f: Frame) {
    f in held || Users(Flat(t), f) != {}
  }

  /** The step from (t, s) to (t', s') leaves what is in use alone: contents, and no new owners. */
  ghost predicate Keeps(held: multiset<Frame>, t: Tree, s: State, t': Tree, s': State) {
    forall f | InUse(t, held, f) ::
      Refs(s', f) <= Refs(s, f) && (IsData(t, f) ==> IsData(t', f) && t'.mem[f] == t.mem[f])
  }

  /** No count went up. */
  ghost predicate Shrinks(s: State, s': State) {
    forall f :: Refs(s', f) <= Refs(s, f)
  }

  lemma ShrinksRefl(s: State)
    ensures Shrinks(s, s)
  {
  }

  lemma ShrinksTrans(s: State, s': State, s'': State)
    requires Shrinks(s, s') && Shrinks(s', s'')
    ensures Shrinks(s, s'')
  {
    hide Refs;
  }

  lemma SameMemShrinks(held: multiset<Frame>, t: Tree, s: State, t': Tree, s': State)
    requires t'.mem == t.mem && Shrinks(s, s')
    ensures Keeps(held, t, s, t', s')
  {
  }

  lemma KeepsTrans(held: multiset<Frame>, t: Tree, s: State, t': Tree, s': State, t'': Tree, s'': State)
    requires Keeps(held, t, s, t', s') && Keeps(held, t', s', t'', s'') && Flat(t') == Flat(t)
    ensures Keeps(held, t, s, t'', s'')
  {
    hide Flat, Users, IsData;
    assert forall f :: InUse(t', held, f) == InUse(t, held, f);
  }

  lemma KeepsChain(held: multiset<Frame>, t: Tree, s: State, t': Tree, s': State, held': multiset<Frame>, t'': Tree,
                   s'': State)
    requires Keeps(held, t, s, t', s') && Keeps(held', t', s', t'', s'')
    requires forall f | InUse(t, held, f) :: InUse(t', held', f)
    ensures Keeps(held, t, s, t'', s'')
  {
    hide InUse, IsData;
  }

  lemma KeepsHandle(held: multiset<Frame>, t: Tree, s: State, t': Tree, s': State, f: Frame)
    requires Keeps(held, t, s, t', s')
    ensures f in held && IsData(t, f) ==> IsData(t', f) && t'.mem[f] == t.mem[f]
  {
    hide Flat, Users;
  }

  /** Handing a handle over to a new user mapping keeps every frame in use. */
  lemma InsertInUse(t: Tree, t': Tree, held: multiset<Frame>, c: Pos, e: Entry)
    requires c !in Flat(t) && Flat(t') == Flat(t)[c := e]
    ensures forall f | InUse(t, held, f) :: InUse(t', held - multiset{e.frame}, f)
  {
    hide Flat;
    forall f | InUse(t, held, f) ensures InUse(t', held - multiset{e.frame}, f) {
      if f == e.frame {
        assert c in Users(Flat(t'), f);
      } else if Users(Flat(t), f) != {} {
        var d :| d in Users(Flat(t), f);
        assert d in Users(Flat(t'), f);
      }
    }
  }

  lemma KeepsLess(held: multiset<Frame>, more: multiset<Frame>, t: Tree, s: State, t': Tree, s': State)
    requires Keeps(more, t, s, t', s') && held <= more
    ensures Keeps(held, t, s, t', s')
  {
    hide Flat, Users, IsData;
  }

  /** A frame that is in no table, under no user mapping and in no handle. */
  ghost predicate Unclaimed(t: Tree, held: multiset<Frame>, f: Frame) {
    Fresh(t, f) && !InUse(t, held, f)
  }

  lemma CountEmpty(m: map<Pos, Entry>, f: Frame)
    ensures Count(m, f) == 0 <==> Users(m, f) == {}
  {
  }

  lemma TakeOk(g: Layout, t: Tree, s: State, held: multiset<Frame>, f: Frame)
    requires Consistent(g, s) && f < |s.used| && !s.used[f] && s.free > 0
    requires Acct(g, t, s, held)
    ensures Unclaimed(t, held, f) && g.Managed(f)
    ensures Acct(g, t, Taken(s, f), held + multiset{f}) && Refs(Taken(s, f), f) == 1
  {
    hide Flat, Count, Users, Fresh;
    assert g.Managed(f);
    CountEmpty(Flat(t), f);
  }

  lemma ReleaseOk(g: Layout, t: Tree, s: State, held: multiset<Frame>, f: Frame)
    requires Consistent(g, s) && Acct(g, t, s, held) && f in held
    ensures Refs(s, f) > 0 && f < |s.refs| == |s.used|
    ensures Acct(g, t, Released(s, f), held - multiset{f})
  {
    hide Flat, Count, Users, Fresh;
    assert g.Managed(f);
  }

  lemma FreeFacts(g: Layout, t: Tree, s: State, held: multiset<Frame>, f: Frame)
    requires Consistent(g, s) && Acct(g, t, s, held)
    ensures f in held ==> g.Managed(f)
    ensures !g.Managed(f) ==> Refs(s, f) == 0
  {
  }

  lemma RetainOk(g: Layout, t: Tree, s: State, held: multiset<Frame>, f: Frame)
    requires Consistent(g, s) && Acct(g, t, s, held) && f < |s.refs| && s.refs[f] > 0 && Fresh(t, f)
    ensures g.Managed(f) && Acct(g, t, Retained(s, f), held + multiset{f})
  {
    hide Flat, Count, Users, Fresh;
    assert g.Managed(f);
  }

  /** A count of one behind a handle leaves no room for another owner. */
  lemma SoleHandle(g: Layout, t: Tree, s: State, held: multiset<Frame>, f: Frame)
    requires Acct(g, t, s, held) && f in held && Refs(s, f) == 1
    ensures Fresh(t, f) && Users(Flat(t), f) == {} && held[f] == 1
  {
    hide Flat, Users, Fresh;
    CountEmpty(Flat(t), f);
  }

  lemma SoleMapping(g: Layout, t: Tree, s: State, held: multiset<Frame>, c: Pos)
    requires Acct(g, t, s, held) && c in Flat(t) && Refs(s, Flat(t)[c].frame) == 1
    ensures Fresh(t, Flat(t)[c].frame) && Flat(t)[c].frame !in held
    ensures forall d | d in Flat(t) && Flat(t)[d].frame == Flat(t)[c].frame :: d == c
  {
    hide Flat, Fresh;
    var f := Flat(t)[c].frame;
    forall d | d in Flat(t) && Flat(t)[d].frame == f ensures d == c {
      if d != c {
        assert {c, d} <= Users(Flat(t), f);
        assert |{c, d}| == 2;
        SubsetSize({c, d}, Users(Flat(t), f));
      }
    }
    assert c in Users(Flat(t), f);
    SubsetSize({c}, Users(Flat(t), f));
  }

  lemma {:induction false} SubsetSize<T>(a: set<T>, b: set<T>)
    requires a <= b
    ensures |a| <= |b|
  {
    if a != {} {
      var x :| x in a;
      SubsetSize(a - {x}, b - {x});
    }
  }

  /** The allocator's records, all but the search hint. */
  ghost predicate SameSupply(s: State, s': State) { s'.refs == s.refs && s'.used == s.used && s'.free == s.free }

  /** With the same entries and handles, no page and no reference has been gained or lost. */
  lemma SupplySame(g: Layout, t: Tree, s: State, t': Tree, s': State, held: multiset<Frame>)
    requires Consistent(g, s) && Consistent(g, s') && Acct(g, t, s, held) && Acct(g, t', s', held)
    requires t'.at == t.at && forall c :: Ent(t', c) == Ent(t, c)
    ensures SameSupply(s, s')
  {
    hide Flat, Ent, Acct, Consistent;
    FlatSame(t, t');
    SameCounts(g, t, s, t', s', held);
  }

  /** Two states with the same tables, user mappings and handles have the same counts. */
  lemma SameCounts(g: Layout, t: Tree, s: State, t': Tree, s': State, held: multiset<Frame>)
    requires Consistent(g, s) && Consistent(g, s')
    requires Acct(g, t, s, held) && Acct(g, t', s', held)
    requires t'.at == t.at && Flat(t') == Flat(t)
    ensures s'.refs == s.refs && s'.used == s.used && s'.free == s.free
  {
    hide Flat, Count, Users;
    forall f | 0 <= f < |s.refs| ensures s'.refs[f] == s.refs[f] && s'.used[f] == s.used[f] {
      if g.Managed(f) {
        assert Fresh(t', f) == Fresh(t, f);
        assert Refs(s', f) == Refs(s, f);
      }
    }
  }

  // ---- the moves of the forest, with their owners ----

  lemma AddTableUse(t: Tree, p: Pos, f: Frame, h: Frame)
    requires p !in t.at && Fresh(t, f)
    ensures TableUse(AddTable(t, p, f), h) == TableUse(t, h) + (if h == f then 1 else 0)
  {
    var t' := AddTable(t, p, f);
    if h == f {
      assert t'.at[p] == f;
    } else if !Fresh(t, h) {
      var q :| q in t.at && t.at[q] == h;
      assert t'.at[q] == h;
    }
  }

  lemma AddTableKeeps(t: Tree, s: State, held: multiset<Frame>, p: Pos, f: Frame)
    requires !InUse(t, held, f)
    ensures Keeps(held, t, s, AddTable(t, p, f), s)
  {
  }

  /** A frame with one handle becomes a table: the handle turns into the table's own reference. */
  lemma AddTableAcct(g: Layout, t: Tree, s: State, held: multiset<Frame>, p: Pos, f: Frame)
    requires p !in t.at && Acct(g, t, s, held) && f in held && Refs(s, f) == 1
    requires Flat(AddTable(t, p, f)) == Flat(t)
    ensures !InUse(t, held - multiset{f}, f)
    ensures Acct(g, AddTable(t, p, f), s, held - multiset{f})
  {
    hide Flat, Count, Fresh, TableUse;
    SoleHandle(g, t, s, held, f);
    forall h ensures TableUse(AddTable(t, p, f), h) == TableUse(t, h) + (if h == f then 1 else 0) {
      AddTableUse(t, p, f, h);
    }
    forall c | c in Flat(t) ensures Flat(t)[c].frame != f {
      assert Flat(t)[c].frame == f ==> c in Users(Flat(t), f);
    }
    forall h | h in held - multiset{f} ensures Fresh(AddTable(t, p, f), h) {
      TableUseFresh(t, h);
      TableUseFresh(AddTable(t, p, f), h);
    }
  }

  lemma TableUseFresh(t: Tree, f: Frame)
    ensures Fresh(t, f) <==> TableUse(t, f) == 0
  {
  }

  /** A frame that holds a page table is counted once and belongs to nobody else. */
  lemma TableCountOne(g: Layout, t: Tree, s: State, held: multiset<Frame>, p: Pos)
    requires Shape(t) && Acct(g, t, s, held) && p in t.at && g.Managed(t.at[p])
    ensures Refs(s, t.at[p]) == 1 && !InUse(t, held, t.at[p])
  {
    hide Flat, Count;
    var f := t.at[p];
    assert !Fresh(t, f);
    assert IsTable(t, f);
    assert Users(Flat(t), f) == {};
    CountEmpty(Flat(t), f);
  }

  /** Changing an entry that is no user leaf moves no reference. */
  lemma SameOwnersAcct(g: Layout, t: Tree, t': Tree, s: State, held: multiset<Frame>)
    requires Acct(g, t, s, held) && t'.at == t.at && Flat(t') == Flat(t)
    requires forall c | c in Flat(t) :: IsData(t', Flat(t)[c].frame)
    ensures Acct(g, t', s, held)
  {
    hide Flat, Count, Users;
    assert forall f :: Fresh(t', f) == Fresh(t, f);
  }

  /** Writing an entry touches only a table's memory. */
  lemma SetEntData(g: Layout, t: Tree, s: State, held: multiset<Frame>, c: Pos, e: Entry)
    requires Acct(g, t, s, held) && Shape(t) && Has(t, c)
    ensures forall f | IsData(t, f) :: IsData(SetEnt(t, c, e), f) && SetEnt(t, c, e).mem[f] == t.mem[f]
  {
  }

  /** The handle a released table or mapping leaves behind, if the allocator knows the frame. */
  ghost function Give(g: Layout, held: multiset<Frame>, f: Frame): multiset<Frame> {
    if g.Managed(f) then held + multiset{f} else held
  }

  /** A table leaves the forest; its frame is in the kernel's hands again. */
  lemma RemoveTableAcct(g: Layout, t: Tree, t': Tree, s: State, held: multiset<Frame>, p: Pos)
    requires Shape(t) && p in t.at && Acct(g, t, s, held)
    requires t'.mem == t.mem && t'.at == t.at - {p} && Flat(t') == Flat(t)
    ensures Acct(g, t', s, Give(g, held, t.at[p]))
  {
    hide Flat, Count, Users;
    var f := t.at[p];
    assert Fresh(t', f);
    forall h | h != f ensures Fresh(t', h) == Fresh(t, h) {
      if !Fresh(t, h) {
        var q :| q in t.at && t.at[q] == h;
        assert q in t'.at && t'.at[q] == h;
      }
    }
  }

  /** A user page is mapped: the caller's handle becomes the mapping's reference. */
  lemma InsertUserAcct(g: Layout, t: Tree, t': Tree, s: State, held: multiset<Frame>, c: Pos, e: Entry)
    requires Acct(g, t, s, held) && t'.at == t.at && c !in Flat(t) && Flat(t') == Flat(t)[c := e]
    requires e.frame in held && IsData(t', e.frame)
    requires forall d | d in Flat(t) :: IsData(t', Flat(t)[d].frame)
    ensures Acct(g, t', s, held - multiset{e.frame})
  {
    hide Flat, Count, Users;
    assert forall f :: Fresh(t', f) == Fresh(t, f);
    forall f | g.Managed(f) ensures Count(Flat(t'), f) == Count(Flat(t), f) + (if f == e.frame then 1 else 0) {
      CountInsert(Flat(t), c, e, f);
    }
  }

  lemma RemoveUserAcct(g: Layout, t: Tree, t': Tree, s: State, held: multiset<Frame>, c: Pos)
    requires Shape(t) && Acct(g, t, s, held) && t'.at == t.at && c in Flat(t) && Flat(t') == Flat(t) - {c}
    requires forall d | d in Flat(t) :: IsData(t', Flat(t)[d].frame)
    ensures Acct(g, t', s, held + multiset{Flat(t)[c].frame})
  {
    hide Flat, Count, Users;
    assert forall f :: Fresh(t', f) == Fresh(t, f);
    forall f | g.Managed(f) ensures Count(Flat(t'), f) == Count(Flat(t), f) - (if f == Flat(t)[c].frame then 1 else 0) {
      CountRemove(Flat(t), c, f);
    }
  }

  /** A mapping changes frame: the new frame's handle is spent, the old frame's reference freed. */
  lemma ReplaceUserAcct(g: Layout, t: Tree, t': Tree, s: State, held: multiset<Frame>, c: Pos, e: Entry)
    requires Shape(t) && Acct(g, t, s, held) && t'.at == t.at && c in Flat(t) && Flat(t') == Flat(t)[c := e]
    requires e.frame == Flat(t)[c].frame || e.frame in held
    requires forall d | d in Flat(t') :: g.Managed(Flat(t')[d].frame) && IsData(t', Flat(t')[d].frame)
    ensures Acct(g, t', s, if e.frame == Flat(t)[c].frame then held
                           else held - multiset{e.frame} + multiset{Flat(t)[c].frame})
  {
    hide Flat, Count, Users, Ent;
    assert forall f :: Fresh(t', f) == Fresh(t, f);
    forall f | g.Managed(f)
      ensures Count(Flat(t'), f)
        == Count(Flat(t), f) - (if f == Flat(t)[c].frame then 1 else 0) + (if f == e.frame then 1 else 0)
    {
      CountReplace(Flat(t), c, e, f);
    }
  }
}
