/** Copy-on-write memory as a machine over flat maps, and why it cannot be told apart from giving
    every space its own private memory. The virtual memory manager's operations are steps of this
    machine (module `UserMemory`). */
module Machine {
  import opened Pmm
  import opened Paging
  import opened Accounts
  import opened Translation
  import opened Cow
  import opened Clones
  import opened Fork

  /** User pages of all spaces by leaf position, physical memory, and the handles of kernel code. */
  datatype Memory = Memory(pages: map<Pos, Entry>, mem: map<Frame, Content>, held: multiset<Frame>)

  datatype Op =
    | Map(page: Pos, entry: Entry, bytes: seq<byte>)
    | Write(page: Pos, offset: nat, value: byte)  // through a writable page, or into a page nobody else refers to
    | Resolve(page: Pos)
    | Fork(parent: Frame, child: Frame)
    | Unmap(page: Pos)
    | Destroy(space: Frame)
    | Handles(after: multiset<Frame>)

  /** The page after storing one byte. */
  function Poke(bytes: seq<byte>, offset: nat, value: byte): seq<byte>
    requires offset < |bytes|
  {
    bytes[offset := value]
  }

  predicate Holds(m: Memory, f: Frame) {
    f in m.mem && m.mem[f].Data? && |m.mem[f].bytes| == PAGE_SIZE
  }

  /** References to a frame: user pages that map it and handles on it. */
  ghost function Owners(m: Memory, f: Frame): nat { Count(m.pages, f) + m.held[f] }

  ghost predicate PageOk(m: Memory, q: Pos)
    requires q in m.pages
  {
    var e := m.pages[q];
    && e.present && e.user && LeafFlagsOk(e) && Holds(m, e.frame)
    && (e.writable ==> Owners(m, e.frame) == 1)
  }

  /** What every reachable state keeps. */
  ghost predicate Good(m: Memory) { forall q | q in m.pages :: PageOk(m, q) }

  /** Contents of frames somebody refers to, other than `f`, are left alone. */
  ghost predicate OthersKept(m: Memory, m': Memory, f: Frame) {
    forall h | Owners(m, h) > 0 && h != f && Holds(m, h) :: Holds(m', h) && m'.mem[h] == m.mem[h]
  }

  ghost predicate AllKept(m: Memory, m': Memory) {
    forall h | Owners(m, h) > 0 && Holds(m, h) :: Holds(m', h) && m'.mem[h] == m.mem[h]
  }

  ghost predicate OfSpace(pages: map<Pos, Entry>, space: Frame, pages': map<Pos, Entry>) {
    forall q :: q in pages' <==> q in pages && q.root != space
  }

  ghost predicate Resolves(m: Memory, q: Pos, m': Memory)
    requires q in m.pages
  {
    var e := m.pages[q];
    && q in m'.pages
    && var e' := m'.pages[q];
    && e' == e.(frame := e'.frame, writable := true, cow := false)
    && m'.pages == m.pages[q := e']
    && (Holds(m, e.frame) ==> Holds(m', e'.frame) && m'.mem[e'.frame] == m.mem[e.frame])
    && (if Owners(m, e.frame) == 1 then e'.frame == e.frame else Owners(m, e'.frame) == 0)
  }

  ghost predicate Step(m: Memory, op: Op, m': Memory) {
    match op
    case Map(q, e, bytes) =>
      && q !in m.pages && Owners(m, e.frame) == 0 && e.present && e.user && LeafFlagsOk(e) && |bytes| == PAGE_SIZE
      && m'.pages == m.pages[q := e] && m'.held == m.held && Holds(m', e.frame) && m'.mem[e.frame] == Data(bytes)
      && AllKept(m, m')
    case Write(q, offset, value) =>
      && q in m.pages && offset < PAGE_SIZE && Holds(m, m.pages[q].frame)
      && (m.pages[q].writable || Owners(m, m.pages[q].frame) == 1)
      && m'.pages == m.pages && m'.held == m.held
      && Holds(m', m.pages[q].frame)
      && m'.mem[m.pages[q].frame] == Data(Poke(m.mem[m.pages[q].frame].bytes, offset, value))
      && OthersKept(m, m', m.pages[q].frame)
    case Resolve(q) =>
      q in m.pages && m.pages[q].cow && Resolves(m, q, m') && m'.held == m.held && AllKept(m, m')
    case Fork(parent, child) =>
      && parent != child && (forall q | q in m.pages :: q.root != child)
      && Forked(m.pages, m'.pages, parent, child) && m'.held == m.held && AllKept(m, m')
    case Unmap(q) =>
      m'.pages == m.pages - {q} && m'.held == m.held && AllKept(m, m')
    case Destroy(space) =>
      OfSpace(m.pages, space, m'.pages) && (forall q | q in m'.pages :: m'.pages[q] == m.pages[q])
        && m'.held == m.held && AllKept(m, m')
    case Handles(after) =>
      m'.pages == m.pages && m'.held == after && AllKept(m, m')
      && forall f | Count(m.pages, f) > 0 :: after[f] <= m.held[f]
  }

  // ---- the specification: every space has its own memory ----

  type Private = map<Pos, seq<byte>>

  ghost function View(m: Memory): (v: Private)
    ensures v.Keys == m.pages.Keys
    ensures forall q | q in v && Holds(m, m.pages[q].frame) :: v[q] == m.mem[m.pages[q].frame].bytes
  {
    map q | q in m.pages :: if q in m.pages && Holds(m, m.pages[q].frame) then m.mem[m.pages[q].frame].bytes else []
  }

  ghost predicate PrivateStep(v: Private, op: Op, v': Private) {
    match op
    case Map(q, _, bytes) => v' == v[q := bytes]
    case Write(q, offset, value) => q in v && offset < |v[q]| && v' == v[q := Poke(v[q], offset, value)]
    case Resolve(_) => v' == v
    case Fork(parent, child) =>
      forall q :: PrivateFork(v, v', parent, child, q)
    case Unmap(q) => v' == v - {q}
    case Destroy(space) =>
      (forall q :: q in v' <==> q in v && q.root != space) && forall q | q in v' :: v'[q] == v[q]
    case Handles(_) => v' == v
  }

  /** What a program may do with a page besides reading it. It may write to a copy-on-write page, which is
      resolved on the way. */
  datatype Right = Right(write: bool, exec: bool)

  type Rights = map<Pos, Right>

  function RightOf(e: Entry): Right { Right(e.writable || e.cow, !e.nx) }

  ghost function RightsOf(pages: map<Pos, Entry>): (a: Rights)
    ensures a.Keys == pages.Keys && forall q | q in a :: a[q] == RightOf(pages[q])
  {
    map q | q in pages :: RightOf(pages[q])
  }

  /** Rights are as private as bytes: a fork copies them, and stores, resolutions and other spaces leave
      them alone. */
  ghost predicate RightsStep(a: Rights, op: Op, a': Rights) {
    match op
    case Map(q, e, _) => a' == a[q := RightOf(e)]
    case Write(_, _, _) => a' == a
    case Resolve(_) => a' == a
    case Fork(parent, child) => forall q :: RightsFork(a, a', parent, child, q)
    case Unmap(q) => a' == a - {q}
    case Destroy(space) =>
      (forall q :: q in a' <==> q in a && q.root != space) && forall q | q in a' :: a'[q] == a[q]
    case Handles(_) => a' == a
  }

  ghost predicate RightsFork(a: Rights, a': Rights, parent: Frame, child: Frame, q: Pos) {
    if q.root == child then (q in a' <==> In(q, parent) in a) && (q in a' ==> a'[q] == a[In(q, parent)])
    else (q in a' <==> q in a) && (q in a' ==> a'[q] == a[q])
  }

  lemma RightsRefine(m: Memory, op: Op, m': Memory)
    requires Step(m, op, m')
    ensures RightsStep(RightsOf(m.pages), op, RightsOf(m'.pages))
  {
    hide Owners, AllKept, OthersKept, Holds, RightsOf;
    if op.Fork? {
      forall q ensures RightsFork(RightsOf(m.pages), RightsOf(m'.pages), op.parent, op.child, q) {
        assert ForkedAt(m.pages, m'.pages, op.parent, op.child, q);
      }
    }
  }

  /** The child starts with exactly its parent's pages and bytes; nobody else notices. */
  ghost predicate PrivateFork(v: Private, v': Private, parent: Frame, child: Frame, q: Pos) {
    if q.root == child then (q in v' <==> In(q, parent) in v) && (q in v' ==> v'[q] == v[In(q, parent)])
    else (q in v' <==> q in v) && (q in v' ==> v'[q] == v[q])
  }

  lemma UsedFrame(m: Memory, q: Pos)
    requires q in m.pages
    ensures Owners(m, m.pages[q].frame) > 0
  {
    hide Users;
    assert q in Users(m.pages, m.pages[q].frame);
    CountEmpty(m.pages, m.pages[q].frame);
  }

  /** A writable page is alone on its frame. */
  lemma AloneOnFrame(m: Memory, q: Pos, d: Pos)
    requires q in m.pages && d in m.pages && Owners(m, m.pages[q].frame) == 1 && m.pages[d].frame == m.pages[q].frame
    ensures d == q && m.held[m.pages[q].frame] == 0
  {
    var f := m.pages[q].frame;
    assert {q, d} <= Users(m.pages, f);
    SubsetSize({q, d}, Users(m.pages, f));
  }

  lemma KeptBytes(m: Memory, m': Memory, q: Pos)
    requires Good(m) && AllKept(m, m') && q in m.pages
    ensures Holds(m, m.pages[q].frame) && Holds(m', m.pages[q].frame)
    ensures m'.mem[m.pages[q].frame] == m.mem[m.pages[q].frame]
  {
    hide Owners;
    assert PageOk(m, q);
    UsedFrame(m, q);
  }

  // ---- one step: the invariant is kept and the views follow the specification ----

  /** Equal views, page by page. */
  lemma ViewIs(m: Memory, v: Private)
    requires m.pages.Keys == v.Keys && forall q | q in v :: View(m)[q] == v[q]
    ensures View(m) == v
  {
    hide View;
  }

  lemma MapStep(m: Memory, q: Pos, e: Entry, bytes: seq<byte>, m': Memory)
    requires Good(m) && Step(m, Map(q, e, bytes), m')
    ensures Good(m') && PrivateStep(View(m), Map(q, e, bytes), View(m'))
  {
    hide View, Owners, AllKept, PageOk, Holds;
    var v := View(m)[q := bytes];
    forall d | d in m'.pages ensures PageOk(m', d) && View(m')[d] == v[d] {
      MapPageOk(m, q, e, bytes, m', d);
      hide Step;
    }
    ViewIs(m', v);
  }

  lemma MapPageOk(m: Memory, q: Pos, e: Entry, bytes: seq<byte>, m': Memory, d: Pos)
    requires Good(m) && Step(m, Map(q, e, bytes), m') && d in m'.pages
    ensures PageOk(m', d) && View(m')[d] == if d == q then bytes else View(m)[d]
  {
    hide Count, View;
    if d != q {
      KeptBytes(m, m', d);
      assert PageOk(m, d);
      UsedFrame(m, d);
    }
    CountInsert(m.pages, q, e, m'.pages[d].frame);
  }

  lemma WritePageOk(m: Memory, q: Pos, offset: nat, value: byte, m': Memory, d: Pos)
    requires Good(m) && Step(m, Write(q, offset, value), m') && d in m.pages
    ensures PageOk(m', d) && |View(m)[q]| == PAGE_SIZE
    ensures View(m')[d] == if d == q then Poke(View(m)[q], offset, value) else View(m)[d]
  {
    hide Count, View;
    assert PageOk(m, q) && PageOk(m, d);
    UsedFrame(m, d);
    if d != q && m.pages[d].frame == m.pages[q].frame {
      AloneOnFrame(m, q, d);
    }
  }

  lemma WriteStep(m: Memory, q: Pos, offset: nat, value: byte, m': Memory)
    requires Good(m) && Step(m, Write(q, offset, value), m')
    ensures Good(m') && PrivateStep(View(m), Write(q, offset, value), View(m'))
  {
    hide View, Owners, OthersKept, PageOk, Holds;
    WritePageOk(m, q, offset, value, m', q);
    var v := View(m)[q := Poke(View(m)[q], offset, value)];
    forall d | d in m'.pages ensures PageOk(m', d) && View(m')[d] == v[d] {
      WritePageOk(m, q, offset, value, m', d);
      hide Step;
    }
    ViewIs(m', v);
  }

  lemma ResolveStep(m: Memory, q: Pos, m': Memory)
    requires Good(m) && Step(m, Resolve(q), m')
    ensures Good(m') && PrivateStep(View(m), Resolve(q), View(m'))
  {
    hide View, Owners, AllKept, PageOk, Holds;
    forall d | d in m'.pages ensures PageOk(m', d) && View(m')[d] == View(m)[d] {
      ResolvePageOk(m, q, m', d);
      hide Step;
    }
    ViewIs(m', View(m));
  }

  lemma ResolvePageOk(m: Memory, q: Pos, m': Memory, d: Pos)
    requires Good(m) && Step(m, Resolve(q), m') && d in m'.pages
    ensures d in m.pages && PageOk(m', d) && View(m')[d] == View(m)[d]
  {
    hide Count, View;
    assert PageOk(m, q);
    KeptBytes(m, m', q);
    UsedFrame(m, q);
    var e' := m'.pages[q];
    CountReplace(m.pages, q, e', m'.pages[d].frame);
    if d != q {
      assert PageOk(m, d);
      KeptBytes(m, m', d);
      UsedFrame(m, d);
      if m.pages[d].writable && m.pages[d].frame == m.pages[q].frame {
        AloneOnFrame(m, d, q);
      }
    }
  }

  lemma ForkStepPage(m: Memory, parent: Frame, child: Frame, m': Memory, q: Pos)
    requires Good(m) && Step(m, Fork(parent, child), m') && q in m'.pages
    ensures PageOk(m', q) && PrivateFork(View(m), View(m'), parent, child, q)
  {
    hide Count;
    assert ForkedAt(m.pages, m'.pages, parent, child, q);
    var o := if q.root == child then In(q, parent) else q;
    assert PageOk(m, o);
    KeptBytes(m, m', o);
    if m'.pages[q].writable {
      ForkAlone(m, parent, child, m', q);
    }
  }

  /** A page still writable after a fork belongs to a third space, and its frame got no new owner. */
  lemma ForkAlone(m: Memory, parent: Frame, child: Frame, m': Memory, q: Pos)
    requires Good(m) && Step(m, Fork(parent, child), m') && q in m'.pages && m'.pages[q].writable
    ensures Owners(m', m'.pages[q].frame) == 1
  {
    hide Holds;
    assert ForkedAt(m.pages, m'.pages, parent, child, q);
    assert PageOk(m, q);
    var f := m.pages[q].frame;
    AloneOnFrame(m, q, q);
    forall d ensures d in Users(m'.pages, f) <==> d == q {
      if d in Users(m'.pages, f) {
        assert ForkedAt(m.pages, m'.pages, parent, child, d);
        var o := if d.root == child then In(d, parent) else d;
        AloneOnFrame(m, q, o);
      }
    }
    assert Users(m'.pages, f) == {q};
  }

  lemma ForkStepOk(m: Memory, parent: Frame, child: Frame, m': Memory)
    requires Good(m) && Step(m, Fork(parent, child), m')
    ensures Good(m') && PrivateStep(View(m), Fork(parent, child), View(m'))
  {
    forall q | q in m'.pages ensures PageOk(m', q) {
      ForkStepPage(m, parent, child, m', q);
    }
    forall q ensures PrivateFork(View(m), View(m'), parent, child, q) {
      assert ForkedAt(m.pages, m'.pages, parent, child, q);
      if q in m'.pages {
        ForkStepPage(m, parent, child, m', q);
      }
      hide Owners, AllKept, PageOk;
    }
  }

  /** Fewer pages or handles: what remains is as good as before. */
  lemma ShrinkOk(m: Memory, m': Memory)
    requires Good(m) && AllKept(m, m')
    requires forall q | q in m'.pages :: q in m.pages && m'.pages[q] == m.pages[q]
    requires forall f | Count(m.pages, f) > 0 :: m'.held[f] <= m.held[f]
    ensures Good(m') && forall q | q in m'.pages :: View(m')[q] == View(m)[q]
  {
    forall q | q in m'.pages ensures PageOk(m', q) && View(m')[q] == View(m)[q] {
      assert PageOk(m, q);
      KeptBytes(m, m', q);
      var f := m.pages[q].frame;
      SubsetSize(Users(m'.pages, f), Users(m.pages, f));
      UsedFrame(m', q);
      assert q in Users(m.pages, f) && q in Users(m'.pages, f);
      CountEmpty(m.pages, f);
      CountEmpty(m'.pages, f);
      hide Users;
    }
  }

  /** Every step keeps the invariant and acts on private memories and on rights as their specifications
      say. */
  lemma StepRefines(m: Memory, op: Op, m': Memory)
    requires Good(m) && Step(m, op, m')
    ensures Good(m') && PrivateStep(View(m), op, View(m'))
    ensures RightsStep(RightsOf(m.pages), op, RightsOf(m'.pages))
  {
    hide View, Good, AllKept, OthersKept, Holds, RightsOf, RightsStep;
    RightsRefine(m, op, m');
    match op
    case Map(q, e, bytes) => MapStep(m, q, e, bytes, m');
    case Write(q, offset, value) => WriteStep(m, q, offset, value, m');
    case Resolve(q) => ResolveStep(m, q, m');
    case Fork(parent, child) => ForkStepOk(m, parent, child, m');
    case Unmap(q) =>
      ShrinkOk(m, m');
      ViewIs(m', View(m) - {q});
    case Destroy(space) =>
      ShrinkOk(m, m');
    case Handles(after) =>
      ShrinkOk(m, m');
      ViewIs(m', View(m));
  }

  // ---- whole runs ----

  ghost predicate Run(ms: seq<Memory>, ops: seq<Op>) {
    |ms| == |ops| + 1 && forall i | 0 <= i < |ops| :: Step(ms[i], ops[i], ms[i + 1])
  }

  ghost predicate PrivateRun(vs: seq<Private>, ops: seq<Op>) {
    |vs| == |ops| + 1 && forall i | 0 <= i < |ops| :: PrivateStep(vs[i], ops[i], vs[i + 1])
  }

  /** COW refines private memory over every run: the invariant holds throughout, and what the
      spaces can read, and what they may do with it, is a run of private memories and rights under the
      same operations. */
  lemma {:induction false} RunRefines(ms: seq<Memory>, ops: seq<Op>)
    requires Run(ms, ops) && Good(ms[0])
    ensures forall i | 0 <= i < |ms| :: Good(ms[i])
    ensures PrivateRun(seq(|ms|, i requires 0 <= i < |ms| => View(ms[i])), ops)
    ensures forall i | 0 <= i < |ops| :: RightsStep(RightsOf(ms[i].pages), ops[i], RightsOf(ms[i + 1].pages))
  {
    hide Step, PrivateStep, View, Good, RightsStep, RightsOf;
    var vs := seq(|ms|, i requires 0 <= i < |ms| => View(ms[i]));
    var n := 0;
    while n < |ops|
      invariant 0 <= n <= |ops|
      invariant forall i | 0 <= i <= n :: Good(ms[i])
      invariant forall i | 0 <= i < n :: PrivateStep(vs[i], ops[i], vs[i + 1])
      invariant forall i | 0 <= i < n :: RightsStep(RightsOf(ms[i].pages), ops[i], RightsOf(ms[i + 1].pages))
    {
      StepRefines(ms[n], ops[n], ms[n + 1]);
      n := n + 1;
    }
  }

  /** The space an operation is for. */
  predicate Concerns(op: Op, space: Frame) {
    match op
    case Map(q, _, _) => q.root == space
    case Write(q, _, _) => q.root == space
    case Resolve(q) => false
    case Fork(_, child) => child == space
    case Unmap(q) => q.root == space
    case Destroy(s) => s == space
    case Handles(_) => false
  }

  /** Isolation: what a space reads, and what it may do with it, changes only by operations on that space,
      whatever the others write, fork or free in between. */
  lemma {:induction false} Isolation(ms: seq<Memory>, ops: seq<Op>, space: Frame, q: Pos)
    requires Run(ms, ops) && Good(ms[0]) && q.root == space
    requires forall i | 0 <= i < |ops| :: !Concerns(ops[i], space)
    ensures q in View(ms[|ops|]) <==> q in View(ms[0])
    ensures q in View(ms[0]) ==> View(ms[|ops|])[q] == View(ms[0])[q]
    ensures var a, a' := RightsOf(ms[0].pages), RightsOf(ms[|ops|].pages);
      (q in a' <==> q in a) && (q in a ==> a'[q] == a[q])
    decreases |ops|
  {
    hide Step, View, PrivateStep, Good, RightsOf, RightsStep;
    if |ops| > 0 {
      var n := |ops| - 1;
      var ms', ops' := ms[..n + 1], ops[..n];
      assert Run(ms', ops') by {
        forall i | 0 <= i < |ops'| ensures Step(ms'[i], ops'[i], ms'[i + 1]) {
          assert Step(ms[i], ops[i], ms[i + 1]);
        }
      }
      Isolation(ms', ops', space, q);
      RunRefines(ms', ops');
      StepRefines(ms[n], ops[n], ms[n + 1]);
      StepIsolates(View(ms[n]), ops[n], View(ms[n + 1]), space, q);
      RightsIsolate(RightsOf(ms[n].pages), ops[n], RightsOf(ms[n + 1].pages), space, q);
    }
  }

  lemma RightsIsolate(a: Rights, op: Op, a': Rights, space: Frame, q: Pos)
    requires RightsStep(a, op, a') && !Concerns(op, space) && q.root == space
    ensures (q in a' <==> q in a) && (q in a ==> a'[q] == a[q])
  {
    if op.Fork? {
      assert RightsFork(a, a', op.parent, op.child, q);
    }
  }

  lemma StepIsolates(v: Private, op: Op, v': Private, space: Frame, q: Pos)
    requires PrivateStep(v, op, v') && !Concerns(op, space) && q.root == space
    ensures (q in v' <==> q in v) && (q in v ==> v'[q] == v[q])
  {
    match op
    case Fork(parent, child) => assert PrivateFork(v, v', parent, child, q);
    case _ =>
  }
}
