/** The kernel heap (src/mm/kmalloc.c): block headers linked both ways through the heap itself. */
module KernelHeap {
  import opened Pmm

  const HEAP_BASE: nat := 0xFFFF_D000_0000_0000
  const HEAP_MAX: nat := 0x1000_0000
  const GROW_PAGES: nat := 4
  const HEADER: nat := 32
  const ALIGNMENT: nat := 16

  /** A block header in memory; address 0 is the null pointer. */
  datatype Header = Header(size: nat, previous: nat, next: nat, magic: bool, used: bool)

  /** A block as the list describes it. */
  datatype Block = Block(at: nat, size: nat, used: bool)

  predicate Round(x: int) { x % ALIGNMENT == 0 }

  lemma RoundSum(a: int, b: int)
    requires Round(a) && Round(b)
    ensures Round(a + b) && Round(a - b)
  {
  }

  lemma Rounds()
    ensures Round(HEAP_BASE) && Round(HEADER) && Round(0)
  {
  }

  function RoundUp(v: nat): (r: nat)
    ensures Round(r) && v <= r < v + ALIGNMENT
  {
    (v + 15) / 16 * 16
  }

  function PageUp(v: nat): (r: nat)
    ensures r % PAGE_SIZE == 0 && v <= r < v + PAGE_SIZE && Round(r)
  {
    (v + 4095) / 4096 * 4096
  }

  /** Where block `i` ends: the next header, or the end of the heap. */
  function EndOf(bs: seq<Block>, i: nat, end: nat): nat
    requires i < |bs|
  {
    if i + 1 < |bs| then bs[i + 1].at else end
  }

  ghost predicate BlockOk(bs: seq<Block>, i: nat, end: nat)
    requires i < |bs|
  {
    bs[i].at + HEADER + bs[i].size == EndOf(bs, i, end) && bs[i].size >= ALIGNMENT && Round(bs[i].size)
  }

  /** The blocks fill the heap without gaps. */
  ghost predicate Tiled(bs: seq<Block>, end: nat) {
    && (if bs == [] then end == HEAP_BASE else bs[0].at == HEAP_BASE)
    && forall i | 0 <= i < |bs| :: BlockOk(bs, i, end)
  }

  /** No two neighbours are both free. */
  ghost predicate Merged(bs: seq<Block>) {
    forall i, j | 0 <= i < |bs| && j == i + 1 < |bs| :: bs[i].used || bs[j].used
  }

  function HeaderOf(bs: seq<Block>, i: nat): Header
    requires i < |bs|
  {
    Header(bs[i].size, if i > 0 then bs[i - 1].at else 0, if i + 1 < |bs| then bs[i + 1].at else 0, true, bs[i].used)
  }

  ghost predicate Linked(m: map<nat, Header>, bs: seq<Block>) {
    forall i | 0 <= i < |bs| :: bs[i].at in m && m[bs[i].at] == HeaderOf(bs, i)
  }

  lemma {:induction false} Increasing(bs: seq<Block>, end: nat, i: nat, j: nat)
    requires Tiled(bs, end) && i < j < |bs|
    ensures bs[i].at + HEADER + bs[i].size <= bs[j].at
    decreases j - i
  {
    assert BlockOk(bs, i, end);
    if i + 1 < j {
      Increasing(bs, end, i + 1, j);
    }
  }

  lemma {:induction false} BeforeEnd(bs: seq<Block>, end: nat, i: nat)
    requires Tiled(bs, end) && i < |bs|
    ensures HEAP_BASE <= bs[i].at && Round(bs[i].at)
    ensures bs[i].at + HEADER + bs[i].size <= end
    decreases |bs| - i
  {
    AtAligned(bs, end, i);
    assert BlockOk(bs, i, end);
    if i + 1 < |bs| {
      BeforeEnd(bs, end, i + 1);
    }
  }

  lemma {:induction false} AtAligned(bs: seq<Block>, end: nat, i: nat)
    requires Tiled(bs, end) && i < |bs|
    ensures HEAP_BASE <= bs[i].at && Round(bs[i].at)
  {
    hide Round;
    Rounds();
    if i > 0 {
      AtAligned(bs, end, i - 1);
      var b := bs[i - 1];
      assert BlockOk(bs, i - 1, end);
      RoundSum(b.at, HEADER);
      RoundSum(b.at + HEADER, b.size);
    }
  }

  lemma Distinct(bs: seq<Block>, end: nat)
    requires Tiled(bs, end)
    ensures Apart(bs)
  {
    forall i, j | 0 <= i < j < |bs| ensures bs[i].at != bs[j].at {
      Increasing(bs, end, i, j);
    }
    forall i | 0 <= i < |bs| ensures bs[i].at != 0 {
      AtAligned(bs, end, i);
    }
  }

  lemma BigEnough(bs: seq<Block>, end: nat, i: nat)
    requires Tiled(bs, end) && i < |bs|
    ensures bs[i].size >= ALIGNMENT
  {
    assert BlockOk(bs, i, end);
  }

  // ---- live payloads ----

  ghost predicate Live(bs: seq<Block>, p: nat, size: nat) {
    exists i | 0 <= i < |bs| :: bs[i].used && bs[i].at + HEADER == p && bs[i].size == size
  }

  /** Payloads handed out are aligned, lie inside the heap and do not overlap. */
  lemma PayloadsDisjoint(bs: seq<Block>, end: nat, p: nat, s: nat, q: nat, t: nat)
    requires Tiled(bs, end) && Live(bs, p, s) && Live(bs, q, t)
    ensures Round(p) && HEAP_BASE + HEADER <= p && p + s <= end && s >= ALIGNMENT
    ensures p == q ==> s == t
    ensures p != q ==> p + s <= q || q + t <= p
  {
    hide Round, Tiled;
    var i :| 0 <= i < |bs| && bs[i].used && bs[i].at + HEADER == p && bs[i].size == s;
    var j :| 0 <= j < |bs| && bs[j].used && bs[j].at + HEADER == q && bs[j].size == t;
    BeforeEnd(bs, end, i);
    BigEnough(bs, end, i);
    Rounds();
    RoundSum(bs[i].at, HEADER);
    if i < j {
      Increasing(bs, end, i, j);
    } else if j < i {
      Increasing(bs, end, j, i);
    }
  }

  // ---- sums ----

  function UsedBytes(bs: seq<Block>): nat {
    if bs == [] then 0 else UsedBytes(bs[..|bs| - 1]) + if bs[|bs| - 1].used then bs[|bs| - 1].size else 0
  }

  function FreeBytes(bs: seq<Block>): nat {
    if bs == [] then 0 else FreeBytes(bs[..|bs| - 1]) + if bs[|bs| - 1].used then 0 else bs[|bs| - 1].size
  }

  function UsedCount(bs: seq<Block>): nat {
    if bs == [] then 0 else UsedCount(bs[..|bs| - 1]) + if bs[|bs| - 1].used then 1 else 0
  }

  function HeaderBytes(bs: seq<Block>): nat { 32 * |bs| }

  /** Used bytes, free bytes and headers make up the mapped heap. */
  lemma {:induction false} BytesAddUp(bs: seq<Block>, end: nat)
    requires Tiled(bs, end)
    ensures UsedBytes(bs) + FreeBytes(bs) + HeaderBytes(bs) == end - HEAP_BASE
  {
    if bs != [] {
      var n := |bs| - 1;
      assert BlockOk(bs, n, end);
      var rest := bs[..n];
      forall i | 0 <= i < n ensures BlockOk(rest, i, bs[n].at) {
        assert BlockOk(bs, i, end);
      }
      BytesAddUp(rest, bs[n].at);
    }
  }

  lemma BytesNone()
    ensures UsedBytes([]) == 0 && FreeBytes([]) == 0
  {
  }

  lemma BytesStep(bs: seq<Block>, i: nat)
    requires i < |bs|
    ensures UsedBytes(bs[..i + 1]) == UsedBytes(bs[..i]) + if bs[i].used then bs[i].size else 0
    ensures FreeBytes(bs[..i + 1]) == FreeBytes(bs[..i]) + if bs[i].used then 0 else bs[i].size
  {
    assert bs[..i + 1][..i] == bs[..i];
  }

  lemma {:induction false} CountAppend(a: seq<Block>, b: seq<Block>)
    ensures UsedCount(a + b) == UsedCount(a) + UsedCount(b)
  {
    if b == [] {
      assert a + b == a;
    } else {
      assert (a + b)[..|a + b| - 1] == a + b[..|b| - 1];
      CountAppend(a, b[..|b| - 1]);
    }
  }

  // ---- splitting and merging, on the list ----

  /** Block `i` keeps `size` bytes; the rest becomes a free block behind it. */
  function SplitAt(bs: seq<Block>, i: nat, size: nat): seq<Block>
    requires i < |bs| && bs[i].size >= size + HEADER
  {
    bs[..i] + [bs[i].(size := size), Block(bs[i].at + HEADER + size, bs[i].size - size - HEADER, false)] + bs[i + 1..]
  }

  /** Block `i` takes over the block behind it. */
  function MergeAt(bs: seq<Block>, i: nat): seq<Block>
    requires i + 1 < |bs|
  {
    bs[..i] + [bs[i].(size := bs[i].size + HEADER + bs[i + 1].size)] + bs[i + 2..]
  }

  lemma SplitIndex(bs: seq<Block>, i: nat, size: nat)
    requires i < |bs| && bs[i].size >= size + HEADER
    ensures |SplitAt(bs, i, size)| == |bs| + 1
    ensures IsSplit(bs, SplitAt(bs, i, size), i, size)
  {
  }

  lemma MergeIndex(bs: seq<Block>, i: nat)
    requires i + 1 < |bs|
    ensures |MergeAt(bs, i)| == |bs| - 1
    ensures IsMerge(bs, MergeAt(bs, i), i)
  {
  }

  lemma SplitTiled(bs: seq<Block>, end: nat, i: nat, size: nat)
    requires Tiled(bs, end) && i < |bs| && bs[i].size >= size + HEADER + ALIGNMENT && size >= ALIGNMENT && Round(size)
    ensures Tiled(SplitAt(bs, i, size), end)
  {
    hide Round, SplitAt;
    SplitIndex(bs, i, size);
    var bs' := SplitAt(bs, i, size);
    Rounds();
    assert BlockOk(bs, i, end);
    RoundSum(bs[i].size, size);
    RoundSum(bs[i].size - size, HEADER);
    forall j | 0 <= j < |bs'| ensures BlockOk(bs', j, end) {
      assert BlockOk(bs, if j <= i then j else j - 1, end);
    }
  }

  lemma MergeTiled(bs: seq<Block>, end: nat, i: nat)
    requires Tiled(bs, end) && i + 1 < |bs|
    ensures Tiled(MergeAt(bs, i), end)
  {
    hide Round, MergeAt;
    MergeIndex(bs, i);
    var bs' := MergeAt(bs, i);
    Rounds();
    assert BlockOk(bs, i, end) && BlockOk(bs, i + 1, end);
    RoundSum(bs[i].size, HEADER);
    RoundSum(bs[i].size + HEADER, bs[i + 1].size);
    forall j | 0 <= j < |bs'| ensures BlockOk(bs', j, end) {
      assert BlockOk(bs, if j <= i then j else j + 1, end);
    }
  }

  ghost predicate HeaderAt(m: map<nat, Header>, bs: seq<Block>, i: nat)
    requires i < |bs|
  {
    bs[i].at in m && m[bs[i].at] == HeaderOf(bs, i)
  }

  /** split_block, on memory. */
  ghost function SplitMemory(m: map<nat, Header>, at: nat, size: nat): map<nat, Header>
    requires at in m && m[at].size >= size + HEADER && (m[at].next != 0 ==> m[at].next in m)
  {
    var rest, h := at + HEADER + size, m[at];
    var m1 := m[rest := Header(h.size - size - HEADER, at, h.next, true, false)];
    var m2 := if h.next != 0 then m1[h.next := m[h.next].(previous := rest)] else m1;
    m2[at := h.(size := size, next := rest)]
  }

  /** merge_with_next, on memory, where the next block is free. */
  ghost function MergeMemory(m: map<nat, Header>, at: nat): map<nat, Header>
    requires at in m && m[at].next in m && (m[m[at].next].next != 0 ==> m[m[at].next].next in m)
  {
    var h, n := m[at], m[m[at].next];
    var m1 := m[at := h.(size := h.size + HEADER + n.size, next := n.next)];
    if n.next != 0 then m1[n.next := m[n.next].(previous := at)] else m1
  }

  lemma LinkedAt(m: map<nat, Header>, bs: seq<Block>, i: nat)
    requires Linked(m, bs) && i < |bs|
    ensures bs[i].at in m && m[bs[i].at] == HeaderOf(bs, i)
    ensures i + 1 < |bs| ==> bs[i + 1].at in m && m[bs[i + 1].at] == HeaderOf(bs, i + 1)
  {
  }

  lemma SplitLinked(m: map<nat, Header>, bs: seq<Block>, end: nat, i: nat, size: nat)
    requires Tiled(bs, end) && Linked(m, bs) && i < |bs| && bs[i].size >= size + HEADER + ALIGNMENT && size >= ALIGNMENT
    requires Round(size)
    ensures bs[i].at in m && m[bs[i].at].size == bs[i].size && (m[bs[i].at].next != 0 ==> m[bs[i].at].next in m)
    ensures Linked(SplitMemory(m, bs[i].at, size), SplitAt(bs, i, size))
  {
    LinkedAt(m, bs, i);
    Distinct(bs, end);
    SplitTiled(bs, end, i, size);
    SplitIndex(bs, i, size);
    var bs' := SplitAt(bs, i, size);
    Distinct(bs', end);
    hide Tiled, SplitAt, Round, Apart, IsSplit, HeaderOf;
    var m' := SplitMemory(m, bs[i].at, size);
    forall j | 0 <= j < |bs'| ensures bs'[j].at in m' && m'[bs'[j].at] == HeaderOf(bs', j) {
      SplitOne(m, bs, bs', i, size, j);
      assert HeaderAt(m', bs', j);
    }
  }

  /** `bs'` is `bs` with block `i` split. */
  ghost predicate IsSplit(bs: seq<Block>, bs': seq<Block>, i: nat, size: nat) {
    && i < |bs| && bs[i].size >= size + HEADER && |bs'| == |bs| + 1
    && (forall k | 0 <= k < i :: bs'[k] == bs[k])
    && bs'[i] == bs[i].(size := size)
    && bs'[i + 1] == Block(bs[i].at + HEADER + size, bs[i].size - size - HEADER, false)
    && (forall k | i + 1 < k < |bs'| :: bs'[k] == bs[k - 1])
  }

  ghost predicate Apart(bs: seq<Block>) {
    && (forall k, l | 0 <= k < l < |bs| :: bs[k].at != bs[l].at)
    && (forall k | 0 <= k < |bs| :: bs[k].at != 0)
  }

  lemma SplitMemoryAt(m: map<nat, Header>, at: nat, size: nat, x: nat)
    requires at in m && m[at].size >= size + HEADER
    requires m[at].next != 0 ==> m[at].next in m && m[at].next != at && m[at].next != at + HEADER + size
    ensures var m', h, rest := SplitMemory(m, at, size), m[at], at + HEADER + size;
      && (x == at ==> x in m' && m'[x] == h.(size := size, next := rest))
      && (x == rest ==> x in m' && m'[x] == Header(h.size - size - HEADER, at, h.next, true, false))
      && (x == h.next != 0 ==> x in m' && m'[x] == m[x].(previous := rest))
      && (x in m && x != at && x != rest && (x != h.next || x == 0) ==> x in m' && m'[x] == m[x])
  {
  }

  lemma SplitOne(m: map<nat, Header>, bs: seq<Block>, bs': seq<Block>, i: nat, size: nat, j: nat)
    requires Linked(m, bs) && IsSplit(bs, bs', i, size) && Apart(bs') && j < |bs'|
    ensures bs[i].at in m && m[bs[i].at].size == bs[i].size && (m[bs[i].at].next != 0 ==> m[bs[i].at].next in m)
    ensures HeaderAt(SplitMemory(m, bs[i].at, size), bs', j)
  {
    hide SplitMemory, Linked;
    LinkedAt(m, bs, i);
    var at, rest := bs'[i].at, bs'[i + 1].at;
    assert at != rest;
    if i + 1 < |bs| {
      assert bs'[i + 2] == bs[i + 1];
      assert bs'[i + 2].at != rest && bs'[i + 2].at != at && bs[i + 1].at != 0;
    }
    SplitMemoryAt(m, at, size, bs'[j].at);
    if j < i {
      SplitBefore(m, bs, bs', i, size, j);
    } else if j > i + 1 {
      SplitAfter(m, bs, bs', i, size, j);
    }
  }

  lemma SplitBefore(m: map<nat, Header>, bs: seq<Block>, bs': seq<Block>, i: nat, size: nat, j: nat)
    requires Linked(m, bs) && IsSplit(bs, bs', i, size) && Apart(bs') && j < i
    ensures bs'[j].at in m && m[bs'[j].at] == HeaderOf(bs', j)
    ensures bs'[j].at != bs'[i].at && bs'[j].at != bs'[i + 1].at && (i + 1 < |bs| ==> bs'[j].at != bs[i + 1].at)
  {
    hide Linked;
    LinkedAt(m, bs, j);
    assert bs'[j + 1].at == bs[j + 1].at;
    assert i + 1 < |bs| ==> bs'[i + 2] == bs[i + 1];
  }

  lemma SplitAfter(m: map<nat, Header>, bs: seq<Block>, bs': seq<Block>, i: nat, size: nat, j: nat)
    requires Linked(m, bs) && IsSplit(bs, bs', i, size) && Apart(bs') && i + 1 < j < |bs'|
    ensures bs'[j].at in m && bs'[j].at != bs'[i].at && bs'[j].at != bs'[i + 1].at
    ensures if j == i + 2 then m[bs'[j].at].(previous := bs'[i + 1].at) == HeaderOf(bs', j)
            else m[bs'[j].at] == HeaderOf(bs', j) && bs'[j].at != bs[i + 1].at
  {
    hide Linked;
    LinkedAt(m, bs, j - 1);
    assert bs'[j] == bs[j - 1];
    assert j + 1 < |bs'| ==> bs'[j + 1] == bs[j];
    if j > i + 2 {
      assert bs'[i + 2] == bs[i + 1] && bs'[j - 1] == bs[j - 2];
    }
  }

  ghost predicate IsMerge(bs: seq<Block>, bs': seq<Block>, i: nat) {
    && i + 1 < |bs| && |bs'| == |bs| - 1
    && (forall k | 0 <= k < i :: bs'[k] == bs[k])
    && bs'[i] == bs[i].(size := bs[i].size + HEADER + bs[i + 1].size)
    && (forall k | i < k < |bs'| :: bs'[k] == bs[k + 1])
  }

  lemma MergeMemoryAt(m: map<nat, Header>, at: nat, x: nat)
    requires at in m && m[at].next in m
    requires m[m[at].next].next != 0 ==> m[m[at].next].next in m && m[m[at].next].next != at
    ensures var m', h, n := MergeMemory(m, at), m[at], m[m[at].next];
      && (x == at ==> x in m' && m'[x] == h.(size := h.size + HEADER + n.size, next := n.next))
      && (x == n.next != 0 ==> x in m' && m'[x] == m[x].(previous := at))
      && (x in m && x != at && (x != n.next || x == 0) ==> x in m' && m'[x] == m[x])
  {
  }

  lemma MergeOne(m: map<nat, Header>, bs: seq<Block>, bs': seq<Block>, i: nat, j: nat)
    requires Linked(m, bs) && IsMerge(bs, bs', i) && Apart(bs) && j < |bs'|
    ensures bs[i].at in m && m[bs[i].at].next in m && (m[m[bs[i].at].next].next != 0 ==> m[m[bs[i].at].next].next in m)
    ensures HeaderAt(MergeMemory(m, bs[i].at), bs', j)
  {
    hide MergeMemory, Linked;
    LinkedAt(m, bs, i);
    LinkedAt(m, bs, i + 1);
    MergeMemoryAt(m, bs[i].at, bs'[j].at);
    if j < i {
      LinkedAt(m, bs, j);
      assert bs'[j + 1].at == bs[j + 1].at;
    } else if j > i {
      LinkedAt(m, bs, j + 1);
      assert j > i + 1 ==> bs'[j - 1] == bs[j];
    }
  }

  lemma MergeLinked(m: map<nat, Header>, bs: seq<Block>, end: nat, i: nat)
    requires Tiled(bs, end) && Linked(m, bs) && i + 1 < |bs|
    ensures bs[i].at in m && m[bs[i].at].next in m && (m[m[bs[i].at].next].next != 0 ==> m[m[bs[i].at].next].next in m)
    ensures Linked(MergeMemory(m, bs[i].at), MergeAt(bs, i))
  {
    LinkedAt(m, bs, i);
    LinkedAt(m, bs, i + 1);
    Distinct(bs, end);
    MergeIndex(bs, i);
    var bs' := MergeAt(bs, i);
    hide Tiled, MergeAt, Round, Apart, IsMerge, HeaderOf;
    var m' := MergeMemory(m, bs[i].at);
    forall j | 0 <= j < |bs'| ensures bs'[j].at in m' && m'[bs'[j].at] == HeaderOf(bs', j) {
      MergeOne(m, bs, bs', i, j);
      assert HeaderAt(m', bs', j);
    }
  }

  // ---- what the operations mean for the clients ----

  ghost predicate SameLive(bs: seq<Block>, bs': seq<Block>) {
    forall p, size :: Live(bs', p, size) <==> Live(bs, p, size)
  }

  lemma SplitLive(bs: seq<Block>, bs': seq<Block>, i: nat, size: nat)
    requires IsSplit(bs, bs', i, size) && !bs[i].used
    ensures SameLive(bs, bs')
  {
    forall p, s ensures Live(bs', p, s) <==> Live(bs, p, s) {
      if Live(bs, p, s) {
        var k :| 0 <= k < |bs| && bs[k].used && bs[k].at + HEADER == p && bs[k].size == s;
        assert bs'[if k < i then k else k + 1] == bs[k];
      }
      if Live(bs', p, s) {
        var k :| 0 <= k < |bs'| && bs'[k].used && bs'[k].at + HEADER == p && bs'[k].size == s;
        assert bs'[k] == bs[if k < i then k else k - 1];
      }
    }
  }

  lemma MergeLive(bs: seq<Block>, bs': seq<Block>, i: nat)
    requires IsMerge(bs, bs', i) && !bs[i].used && !bs[i + 1].used
    ensures SameLive(bs, bs')
  {
    forall p, s ensures Live(bs', p, s) <==> Live(bs, p, s) {
      if Live(bs, p, s) {
        var k :| 0 <= k < |bs| && bs[k].used && bs[k].at + HEADER == p && bs[k].size == s;
        assert bs'[if k < i then k else k - 1] == bs[k];
      }
      if Live(bs', p, s) {
        var k :| 0 <= k < |bs'| && bs'[k].used && bs'[k].at + HEADER == p && bs'[k].size == s;
        assert bs'[k] == bs[if k < i then k else k + 1];
      }
    }
  }

  lemma TakeLive(bs: seq<Block>, i: nat)
    requires i < |bs| && !bs[i].used && Apart(bs)
    ensures forall p, s ::
      Live(bs[i := bs[i].(used := true)], p, s) <==> Live(bs, p, s) || (p == bs[i].at + HEADER && s == bs[i].size)
    ensures forall p, s | p == bs[i].at + HEADER :: !Live(bs, p, s)
  {
    var bs' := bs[i := bs[i].(used := true)];
    forall p, s ensures Live(bs', p, s) <==> Live(bs, p, s) || (p == bs[i].at + HEADER && s == bs[i].size) {
      if Live(bs, p, s) {
        var k :| 0 <= k < |bs| && bs[k].used && bs[k].at + HEADER == p && bs[k].size == s;
        assert bs'[k] == bs[k];
      }
      if p == bs[i].at + HEADER && s == bs[i].size {
        assert bs'[i].used;
      }
    }
  }

  lemma DropLive(bs: seq<Block>, i: nat)
    requires i < |bs| && bs[i].used && Apart(bs)
    ensures forall p, s :: Live(bs[i := bs[i].(used := false)], p, s) <==> Live(bs, p, s) && p != bs[i].at + HEADER
  {
    var bs' := bs[i := bs[i].(used := false)];
    forall p, s ensures Live(bs', p, s) <==> Live(bs, p, s) && p != bs[i].at + HEADER {
      if Live(bs, p, s) && p != bs[i].at + HEADER {
        var k :| 0 <= k < |bs| && bs[k].used && bs[k].at + HEADER == p && bs[k].size == s;
        assert bs'[k] == bs[k];
      }
    }
  }

  lemma SetUsed(m: map<nat, Header>, bs: seq<Block>, end: nat, i: nat, used: bool)
    requires Tiled(bs, end) && Linked(m, bs) && i < |bs|
    ensures var bs' := bs[i := bs[i].(used := used)];
      Tiled(bs', end) && bs[i].at in m && Linked(m[bs[i].at := m[bs[i].at].(used := used)], bs')
  {
    var bs' := bs[i := bs[i].(used := used)];
    Distinct(bs, end);
    LinkedAt(m, bs, i);
    hide Round;
    forall j | 0 <= j < |bs'| ensures BlockOk(bs', j, end) {
      assert BlockOk(bs, j, end);
    }
    hide Tiled;
    forall j | 0 <= j < |bs'|
      ensures bs'[j].at in m && m[bs[i].at := m[bs[i].at].(used := used)][bs'[j].at] == HeaderOf(bs', j) {
      LinkedAt(m, bs, j);
    }
  }

  lemma CountSet(bs: seq<Block>, i: nat, b: Block)
    requires i < |bs|
    ensures UsedCount(bs[i := b]) == UsedCount(bs) - (if bs[i].used then 1 else 0) + (if b.used then 1 else 0)
  {
    hide UsedCount;
    var a, c := bs[..i], bs[i + 1..];
    assert bs == a + ([bs[i]] + c) && bs[i := b] == a + ([b] + c);
    CountAppend(a, [bs[i]] + c);
    CountAppend(a, [b] + c);
    CountAppend([bs[i]], c);
    CountAppend([b], c);
    CountOne(bs[i]);
    CountOne(b);
  }

  lemma CountOne(b: Block)
    ensures UsedCount([b]) == if b.used then 1 else 0
  {
    assert [b][..0] == [];
  }

  lemma CountSplit(bs: seq<Block>, i: nat, size: nat)
    requires i < |bs| && bs[i].size >= size + HEADER
    ensures UsedCount(SplitAt(bs, i, size)) == UsedCount(bs)
  {
    hide UsedCount;
    var a, x, y, c := bs[..i], bs[i].(size := size),
      Block(bs[i].at + HEADER + size, bs[i].size - size - HEADER, false), bs[i + 1..];
    assert bs == a + ([bs[i]] + c) && SplitAt(bs, i, size) == a + ([x] + ([y] + c));
    CountAppend(a, [bs[i]] + c);
    CountAppend([bs[i]], c);
    CountAppend(a, [x] + ([y] + c));
    CountAppend([x], [y] + c);
    CountAppend([y], c);
    CountOne(bs[i]);
    CountOne(x);
    CountOne(y);
  }

  lemma CountMerge(bs: seq<Block>, i: nat)
    requires i + 1 < |bs| && !bs[i + 1].used
    ensures UsedCount(MergeAt(bs, i)) == UsedCount(bs)
  {
    hide UsedCount;
    var a, x, y, z, c := bs[..i], bs[i], bs[i + 1], bs[i].(size := bs[i].size + HEADER + bs[i + 1].size), bs[i + 2..];
    assert bs == a + ([x] + ([y] + c)) && MergeAt(bs, i) == a + ([z] + c);
    CountAppend(a, [x] + ([y] + c));
    CountAppend([x], [y] + c);
    CountAppend([y], c);
    CountAppend(a, [z] + c);
    CountAppend([z], c);
    CountOne(x);
    CountOne(y);
    CountOne(z);
  }

  // ---- merging restores the invariant ----

  /** Only block `i` may have a free neighbour besides itself. */
  ghost predicate MergedExcept(bs: seq<Block>, i: nat) {
    forall k, l | 0 <= k < |bs| && l == k + 1 < |bs| && k != i && l != i :: bs[k].used || bs[l].used
  }

  lemma FreedExcept(bs: seq<Block>, i: nat)
    requires Merged(bs) && i < |bs|
    ensures MergedExcept(bs[i := bs[i].(used := false)], i)
  {
  }

  lemma SplitMerged(bs: seq<Block>, bs': seq<Block>, i: nat, size: nat)
    requires Merged(bs) && IsSplit(bs, bs', i, size) && !bs[i].used
    ensures Merged(bs'[i := bs'[i].(used := true)])
  {
    var bs'' := bs'[i := bs'[i].(used := true)];
    forall k, l | 0 <= k < |bs''| && l == k + 1 < |bs''| ensures bs''[k].used || bs''[l].used {
      if k == i + 1 {
        assert bs[i].used || bs[i + 1].used;
        assert bs''[l] == bs[i + 1];
      } else if k > i + 1 {
        assert bs''[k] == bs[k - 1] && bs''[l] == bs[k];
        assert bs[k - 1].used || bs[k].used;
      } else if k < i {
        assert bs[k].used || bs[k + 1].used;
      }
    }
  }

  lemma TakeMerged(bs: seq<Block>, i: nat)
    requires Merged(bs) && i < |bs|
    ensures Merged(bs[i := bs[i].(used := true)])
  {
  }

  /** After taking over a free block, block `i` has no free block behind it. */
  lemma MergeNext(bs: seq<Block>, bs': seq<Block>, i: nat)
    requires IsMerge(bs, bs', i) && MergedExcept(bs, i) && !bs[i + 1].used
    ensures MergedExcept(bs', i) && (i + 1 < |bs'| ==> bs'[i + 1].used)
  {
    if i + 1 < |bs'| {
      assert bs'[i + 1] == bs[i + 2];
      assert bs[i + 1].used || bs[i + 2].used;
    }
    forall k, l | 0 <= k < |bs'| && l == k + 1 < |bs'| && k != i && l != i ensures bs'[k].used || bs'[l].used {
      if k < i {
        assert bs'[k] == bs[k] && bs'[l] == bs[l];
      } else {
        assert bs'[k] == bs[k + 1] && bs'[l] == bs[l + 1];
        assert bs[k + 1].used || bs[l + 1].used;
      }
    }
  }

  /** Merging into the free block before `i` leaves no free neighbours. */
  lemma MergePrevious(bs: seq<Block>, bs': seq<Block>, i: nat)
    requires 0 < i < |bs| && IsMerge(bs, bs', i - 1) && MergedExcept(bs, i) && (i + 1 < |bs| ==> bs[i + 1].used)
    requires !bs[i - 1].used
    ensures Merged(bs')
  {
    forall k, l | 0 <= k < |bs'| && l == k + 1 < |bs'| ensures bs'[k].used || bs'[l].used {
      if l < i - 1 {
        assert bs'[k] == bs[k] && bs'[l] == bs[l];
      } else if l == i - 1 {
        assert bs[k].used;
      } else {
        assert bs'[l] == bs[l + 1];
        assert k == i - 1 || bs'[k] == bs[k + 1];
        assert k == i - 1 || bs[k + 1].used || bs[l + 1].used;
      }
    }
  }

  lemma NoFreeNeighbour(bs: seq<Block>, i: nat)
    requires i < |bs| && MergedExcept(bs, i) && (i + 1 < |bs| ==> bs[i + 1].used) && (i > 0 ==> bs[i - 1].used)
    ensures Merged(bs)
  {
  }

  class Heap {
    var memory: map<nat, Header>
    var first: nat
    var mappedSize: nat
    var active: nat
    var pages: set<nat>
    ghost var blocks: seq<Block>

    /** The list in memory is the list of blocks, and the blocks fill the mapped heap. */
    ghost predicate ListOk()
      reads this
    {
      Tiled(blocks, HEAP_BASE + mappedSize) && Linked(memory, blocks) && first == if blocks == [] then 0 else HEAP_BASE
    }

    ghost predicate Sound()
      reads this
    {
      && ListOk()
      && mappedSize % PAGE_SIZE == 0 && mappedSize <= HEAP_MAX
      && active == UsedCount(blocks)
      && (forall k: nat :: k in pages <==> k < mappedSize / PAGE_SIZE)
    }

    ghost predicate Valid()
      reads this
    {
      Sound() && Merged(blocks)
    }

    /** The static variables before kmalloc_init. */
    constructor ()
      ensures Valid() && blocks == [] && mappedSize == 0 && active == 0
    {
      memory, first, mappedSize, active, pages, blocks := map[], 0, 0, 0, {}, [];
    }

    /** split_block */
    method Split(at: nat, size: nat, ghost i: nat)
      requires Sound() && i < |blocks| && blocks[i].at == at && size >= ALIGNMENT && Round(size)
      modifies `memory, `blocks
      ensures Sound()
      ensures if old(blocks)[i].size < size + HEADER + ALIGNMENT then blocks == old(blocks) && memory == old(memory)
        else blocks == SplitAt(old(blocks), i, size)
    {
      hide Round, Tiled, Linked, UsedCount;
      LinkedAt(memory, blocks, i);
      var block := memory[at];
      if block.size < size + HEADER + ALIGNMENT {
        return;
      }
      SplitTiled(blocks, HEAP_BASE + mappedSize, i, size);
      SplitLinked(memory, blocks, HEAP_BASE + mappedSize, i, size);
      CountSplit(blocks, i, size);
      ghost var m := memory;
      var rest := at + HEADER + size;
      memory := memory[rest := Header(block.size - size - HEADER, at, block.next, true, false)];
      if block.next != 0 {
        NextApart(blocks, HEAP_BASE + mappedSize, i, size);
        memory := memory[block.next := memory[block.next].(previous := rest)];
      }
      memory := memory[at := block.(size := size, next := rest)];
      assert memory == SplitMemory(m, at, size);
      blocks := SplitAt(blocks, i, size);
    }

    /** merge_with_next */
    method MergeWithNext(at: nat, ghost i: nat)
      requires Sound() && i < |blocks| && blocks[i].at == at && !blocks[i].used
      modifies `memory, `blocks
      ensures Sound() && SameLive(old(blocks), blocks)
      ensures if i + 1 == |old(blocks)| || old(blocks)[i + 1].used then blocks == old(blocks)
              else blocks == MergeAt(old(blocks), i)
    {
      hide Round, Tiled, Linked, UsedCount, Apart, HeaderOf, SameLive, IsMerge, MergeAt;
      NextOf(memory, blocks, HEAP_BASE + mappedSize, i);
      var next := memory[at].next;
      if next == 0 || memory[next].used {
        SameLiveRefl(blocks);
        return;
      }
      MergeTiled(blocks, HEAP_BASE + mappedSize, i);
      MergeLinked(memory, blocks, HEAP_BASE + mappedSize, i);
      MergeIndex(blocks, i);
      MergeLive(blocks, MergeAt(blocks, i), i);
      CountMerge(blocks, i);
      MergedHead(blocks, i);
      ghost var m := memory;
      var after := memory[next];
      memory := memory[at := memory[at].(size := memory[at].size + HEADER + after.size, next := after.next)];
      if after.next != 0 {
        AfterApart(blocks, HEAP_BASE + mappedSize, i);
        memory := memory[after.next := memory[after.next].(previous := at)];
      }
      assert memory == MergeMemory(m, at);
      blocks := MergeAt(blocks, i);
    }

    /** find_block_for_pointer: the payload address determines the block. */
    method FindBlock(pointer: nat) returns (at: nat, ghost i: nat)
      requires Sound()
      ensures i <= |blocks| && (i < |blocks| ==> at == blocks[i].at && at != 0 && blocks[i].at + HEADER == pointer)
      ensures i == |blocks| ==> at == 0 && forall k | 0 <= k < |blocks| :: blocks[k].at + HEADER != pointer
      ensures at != 0 <==> exists k | 0 <= k < |blocks| :: blocks[k].at + HEADER == pointer
    {
      hide Round, Tiled, Linked, UsedCount;
      Distinct(blocks, HEAP_BASE + mappedSize);
      HeadAt(blocks, HEAP_BASE + mappedSize);
      at, i := first, 0;
      while at != 0
        invariant i <= |blocks| && at == (if i < |blocks| then blocks[i].at else 0)
        invariant forall k | 0 <= k < i :: blocks[k].at + HEADER != pointer
        decreases |blocks| - i
      {
        LinkedAt(memory, blocks, i);
        assert memory[at].magic;
        if at + HEADER == pointer {
          return;
        }
        at, i := memory[at].next, i + 1;
      }
    }

    /** kfree: succeeds exactly on the address of a live payload, and takes that one out. */
    method Kfree(pointer: nat) returns (ok: bool)
      requires Valid()
      modifies `memory, `blocks, `active
      ensures Valid() && mappedSize == old(mappedSize)
      ensures ok <==> exists size :: Live(old(blocks), pointer, size)
      ensures !ok ==> blocks == old(blocks)
      ensures ok ==> active == old(active) - 1 && forall p, size :: Live(blocks, p, size) <==>
        Live(old(blocks), p, size) && p != pointer
    {
      hide Round, Linked, UsedCount;
      ghost var end := HEAP_BASE + mappedSize;
      if pointer == 0 || pointer < HEAP_BASE + HEADER || pointer >= HEAP_BASE + mappedSize || !Round(pointer) {
        NotLive(blocks, end, pointer);
        return false;
      }
      var at: nat;
      ghost var i: nat;
      at, i := FindBlock(pointer);
      LiveBlock(blocks, end, pointer, i);
      if at == 0 {
        return false;
      }
      LinkedAt(memory, blocks, i);
      if !memory[at].used {
        return false;
      }
      Release(at, i);
      return true;
    }

    /** The block before, when it is free, takes in a free block whose follower is in use. */
    method MergeBack(at: nat, ghost i: nat)
      requires Sound() && i < |blocks| && blocks[i].at == at && !blocks[i].used
      requires MergedExcept(blocks, i) && (i + 1 < |blocks| ==> blocks[i + 1].used)
      modifies `memory, `blocks
      ensures Valid() && (SameLive(old(blocks), blocks) || blocks == old(blocks))
    {
      hide Round, Linked, UsedCount, Live, Tiled, Apart, SameLive, Merged, MergedExcept, MergeAt, IsMerge;
      ghost var b1 := blocks;
      LinkedAt(memory, blocks, i);
      var previous := memory[at].previous;
      PreviousOf(memory, blocks, HEAP_BASE + mappedSize, i);
      if previous != 0 && !memory[previous].used {
        MergeWithNext(previous, i - 1);
        MergeIndex(b1, i - 1);
        MergePrevious(b1, blocks, i);
      } else {
        NoFreeNeighbour(blocks, i);
      }
    }

    method Release(at: nat, ghost i: nat)
      requires Valid() && i < |blocks| && blocks[i].at == at && blocks[i].used
      modifies `memory, `blocks, `active
      ensures Valid() && active == old(active) - 1
      ensures forall p, size :: Live(blocks, p, size) <==> Live(old(blocks), p, size) && p != at + HEADER
    {
      hide Round, Linked, UsedCount, Live, Tiled, Apart, SameLive, Merged, MergedExcept;
      ghost var end := HEAP_BASE + mappedSize;
      Distinct(blocks, end);
      SetUsed(memory, blocks, end, i, false);
      CountSet(blocks, i, blocks[i].(used := false));
      FreedExcept(blocks, i);
      HeadAt(blocks, end);
      memory := memory[at := memory[at].(used := false)];
      blocks := blocks[i := blocks[i].(used := false)];
      active := active - 1;
      ghost var b0 := blocks;
      MergeWithNext(at, i);
      ghost var b1 := blocks;
      MergedBehind(b0, b1, i);
      MergeBack(at, i);
      LiveChain(old(blocks), i, b1, blocks);
    }

    /** Maps `count` pages behind the heap, or gives back the ones it got. `available` is how many
        pages the page allocator and the page tables can supply. */
    method MapPages(count: nat, available: nat) returns (ok: bool)
      requires forall k: nat :: k in pages <==> k < mappedSize / PAGE_SIZE
      modifies `pages
      ensures ok <==> count <= available
      ensures forall k: nat :: k in pages <==> k < mappedSize / PAGE_SIZE + if ok then count else 0
    {
      var base := mappedSize / PAGE_SIZE;
      var page := 0;
      while page < count
        invariant 0 <= page <= count && page <= available && forall k: nat :: k in pages <==> k < base + page
      {
        if page >= available {
          var mapped := page;
          while mapped > 0
            invariant 0 <= mapped && forall k: nat :: k in pages <==> k < base + mapped
          {
            mapped := mapped - 1;
            pages := pages - {base + mapped};
          }
          return false;
        }
        pages := pages + {base + page};
        page := page + 1;
      }
      return true;
    }

    /** last_block */
    method LastBlock() returns (at: nat)
      requires ListOk()
      ensures at == if blocks == [] then 0 else blocks[|blocks| - 1].at
    {
      hide Round, Tiled, Linked;
      Distinct(blocks, HEAP_BASE + mappedSize);
      HeadAt(blocks, HEAP_BASE + mappedSize);
      at := first;
      if at == 0 {
        return;
      }
      ghost var i := 0;
      LinkedAt(memory, blocks, 0);
      while memory[at].next != 0
        invariant i < |blocks| && at == blocks[i].at && at in memory && memory[at] == HeaderOf(blocks, i)
        decreases |blocks| - i
      {
        LinkedAt(memory, blocks, i + 1);
        at, i := memory[at].next, i + 1;
      }
    }

    method ExtendLast(last: nat, growth: nat)
      requires ListOk() && Merged(blocks) && blocks != [] && blocks[|blocks| - 1].at == last
      requires !blocks[|blocks| - 1].used && Round(growth)
      modifies `memory, `blocks, `mappedSize
      ensures ListOk() && Merged(blocks) && UsedCount(blocks) == UsedCount(old(blocks))
      ensures mappedSize == old(mappedSize) + growth && SameLive(old(blocks), blocks)
      ensures blocks != [] && !blocks[|blocks| - 1].used && blocks[|blocks| - 1].size >= growth
    {
      hide Round, Tiled, Linked, UsedCount, Merged, SameLive, Extended;
      GrowLast(memory, blocks, HEAP_BASE + mappedSize, growth);
      memory := memory[last := memory[last].(size := memory[last].size + growth)];
      blocks := Extended(blocks, growth);
      mappedSize := mappedSize + growth;
    }

    method AppendBlock(last: nat, growth: nat)
      requires ListOk() && Merged(blocks) && last == (if blocks == [] then 0 else blocks[|blocks| - 1].at)
      requires blocks != [] ==> blocks[|blocks| - 1].used
      requires Round(growth) && growth >= HEADER + ALIGNMENT
      modifies `memory, `blocks, `mappedSize, `first
      ensures ListOk() && Merged(blocks) && UsedCount(blocks) == UsedCount(old(blocks))
      ensures mappedSize == old(mappedSize) + growth && SameLive(old(blocks), blocks)
      ensures blocks != [] && !blocks[|blocks| - 1].used && blocks[|blocks| - 1].size == growth - HEADER
    {
      hide Round, Tiled, Linked, UsedCount, Merged, SameLive;
      ghost var end := HEAP_BASE + mappedSize;
      AddLast(memory, blocks, end, growth);
      NoLast(blocks, end);
      memory := memory[HEAP_BASE + mappedSize := Header(growth - HEADER, last, 0, true, false)];
      if last != 0 {
        memory := memory[last := memory[last].(next := HEAP_BASE + mappedSize)];
      } else {
        first := HEAP_BASE + mappedSize;
      }
      blocks := blocks + [Block(end, growth - HEADER, false)];
      mappedSize := mappedSize + growth;
    }

    /** grow_heap: all of the pages or none, and afterwards a free block of at least `minimum` bytes
        at the end of the heap. */
    method Grow(minimum: nat, available: nat) returns (ok: bool)
      requires Valid()
      modifies this
      ensures Valid() && active == old(active)
      ensures ok <==> Growth(minimum) <= HEAP_MAX - old(mappedSize) && Growth(minimum) / PAGE_SIZE <= available
      ensures !ok ==> blocks == old(blocks) && memory == old(memory) && mappedSize == old(mappedSize)
      ensures ok ==> mappedSize == old(mappedSize) + Growth(minimum) && SameLive(old(blocks), blocks)
      ensures ok ==> blocks != [] && !blocks[|blocks| - 1].used && blocks[|blocks| - 1].size >= minimum
    {
      hide Round, Tiled, Linked, UsedCount, Growth, Merged, SameLive;
      var growth := Growth(minimum);
      if growth > HEAP_MAX - mappedSize {
        return false;
      }
      ok := MapPages(growth / PAGE_SIZE, available);
      if !ok {
        return false;
      }
      PagesAdd(mappedSize, growth);
      var last := LastBlock();
      NoLast(blocks, HEAP_BASE + mappedSize);
      if last != 0 {
        LastUsed(memory, blocks);
      }
      if last != 0 && !memory[last].used {
        ExtendLast(last, growth);
      } else {
        AppendBlock(last, growth);
      }
    }

    /** The first-fit search of kmalloc. */
    method FindFit(size: nat) returns (at: nat, ghost i: nat)
      requires Sound()
      ensures i <= |blocks| && at == (if i < |blocks| then blocks[i].at else 0)
      ensures i < |blocks| ==> at != 0 && !blocks[i].used && blocks[i].size >= size
      ensures forall k | 0 <= k < i :: blocks[k].used || blocks[k].size < size
      ensures at == 0 <==> NoFit(blocks, size)
    {
      hide Round, Tiled, Linked, UsedCount;
      Distinct(blocks, HEAP_BASE + mappedSize);
      HeadAt(blocks, HEAP_BASE + mappedSize);
      at, i := first, 0;
      while at != 0
        invariant i <= |blocks| && at == (if i < |blocks| then blocks[i].at else 0)
        invariant forall k | 0 <= k < i :: blocks[k].used || blocks[k].size < size
        decreases |blocks| - i
      {
        LinkedAt(memory, blocks, i);
        if memory[at].magic && !memory[at].used && memory[at].size >= size {
          return;
        }
        at, i := memory[at].next, i + 1;
      }
    }

    /** kmalloc: an aligned payload of at least `size` bytes that overlaps no other, from the first
        block it fits in, or nothing; it grows the heap at most once and fails exactly for a bad size
        or when the heap cannot grow. */
    method Kmalloc(size: nat, available: nat) returns (r: Option<nat>)
      requires Valid()
      modifies this
      ensures Valid()
      ensures r.None? ==> blocks == old(blocks) && mappedSize == old(mappedSize) && active == old(active)
      ensures r.None? <==>
        size == 0 || size > HEAP_MAX - HEADER
          || (NoFit(old(blocks), RoundUp(size))
            && (Growth(RoundUp(size)) > HEAP_MAX - old(mappedSize) || Growth(RoundUp(size)) / PAGE_SIZE > available))
      ensures r.Some? ==>
        active == old(active) + 1
          && mappedSize == old(mappedSize) + if NoFit(old(blocks), RoundUp(size)) then Growth(RoundUp(size)) else 0
      ensures r.Some? ==>
        exists s | RoundUp(size) <= s < RoundUp(size) + HEADER + ALIGNMENT :: Added(old(blocks), blocks, r.value, s)
      ensures r.Some? && !NoFit(old(blocks), RoundUp(size)) ==>
        exists i: nat :: FirstFit(old(blocks), RoundUp(size), i) && r.value == old(blocks)[i].at + HEADER
    {
      hide Round, Tiled, Linked, UsedCount, HeaderOf, Growth, Merged, SameLive, Live;
      if size == 0 || size > HEAP_MAX - HEADER {
        return None;
      }
      var rounded := RoundUp(size);
      RoundedUp(size);
      SameLiveRefl(blocks);
      ghost var grown := false;
      while true
        invariant Valid() && active == old(active) && SameLive(old(blocks), blocks)
        invariant !grown ==> blocks == old(blocks) && mappedSize == old(mappedSize)
        invariant grown ==> NoFit(old(blocks), rounded) && mappedSize == old(mappedSize) + Growth(rounded)
        invariant grown ==> Growth(rounded) <= HEAP_MAX - old(mappedSize) && Growth(rounded) / PAGE_SIZE <= available
        invariant grown ==> blocks != [] && !blocks[|blocks| - 1].used && blocks[|blocks| - 1].size >= rounded
        decreases if grown then 0 else 1
      {
        var at: nat;
        ghost var i: nat;
        at, i := FindFit(rounded);
        if at != 0 {
          ghost var before := blocks;
          ghost var s := Take(at, rounded, i);
          AddedTo(old(blocks), before, blocks, at + HEADER, s);
          FitFound(before, rounded, i);
          return Some(at + HEADER);
        }
        FitMissing(blocks, rounded, i);
        var ok := Grow(rounded, available);
        if !ok {
          return None;
        }
        grown := true;
      }
    }

    method Take(at: nat, size: nat, ghost i: nat) returns (ghost s: nat)
      requires Valid() && i < |blocks| && blocks[i].at == at && !blocks[i].used && blocks[i].size >= size >= ALIGNMENT
      requires Round(size)
      modifies `memory, `blocks, `active
      ensures Valid() && active == old(active) + 1 && size <= s < size + HEADER + ALIGNMENT
      ensures Added(old(blocks), blocks, at + HEADER, s)
    {
      hide Round, Linked, UsedCount, HeaderOf, Live, SameLive, Tiled;
      ghost var end := HEAP_BASE + mappedSize;
      ghost var b0 := blocks;
      SplitOutcome(blocks, i, size);
      Split(at, size, i);
      ghost var b1 := blocks;
      Distinct(b1, end);
      SetUsed(memory, b1, end, i, true);
      CountSet(b1, i, b1[i].(used := true));
      HeadAt(b1, end);
      s := b1[i].size;
      TookLive(b0, b1, i);
      memory := memory[at := memory[at].(used := true)];
      blocks := blocks[i := blocks[i].(used := true)];
      active := active + 1;
    }

    /** kmalloc_get_stats: used bytes, free bytes and headers add up to the mapped bytes. */
    method Stats() returns (mapped: nat, used: nat, free: nat, allocations: nat)
      requires Valid()
      ensures mapped == mappedSize && used == UsedBytes(blocks) && free == FreeBytes(blocks)
      ensures allocations == UsedCount(blocks)
      ensures used + free + HeaderBytes(blocks) == mapped
    {
      hide Round, Tiled, Linked, UsedCount, UsedBytes, FreeBytes, HeaderBytes, Merged;
      BytesAddUp(blocks, HEAP_BASE + mappedSize);
      Distinct(blocks, HEAP_BASE + mappedSize);
      HeadAt(blocks, HEAP_BASE + mappedSize);
      assert blocks[..0] == [];
      BytesNone();
      mapped, used, free, allocations := mappedSize, 0, 0, active;
      var at := first;
      ghost var i := 0;
      while at != 0
        invariant i <= |blocks| && at == (if i < |blocks| then blocks[i].at else 0)
        invariant used == UsedBytes(blocks[..i]) && free == FreeBytes(blocks[..i])
        decreases |blocks| - i
      {
        LinkedAt(memory, blocks, i);
        BytesStep(blocks, i);
        if memory[at].used {
          used := used + memory[at].size;
        } else {
          free := free + memory[at].size;
        }
        at, i := memory[at].next, i + 1;
      }
      assert blocks[..i] == blocks;
    }
  }

  lemma NextApart(bs: seq<Block>, end: nat, i: nat, size: nat)
    requires Tiled(bs, end) && i + 1 < |bs| && size + HEADER + ALIGNMENT <= bs[i].size
    ensures bs[i + 1].at != bs[i].at + HEADER + size && bs[i + 1].at != bs[i].at
  {
    assert BlockOk(bs, i, end);
  }

  lemma AfterApart(bs: seq<Block>, end: nat, i: nat)
    requires Tiled(bs, end) && i + 2 < |bs|
    ensures bs[i + 2].at != bs[i].at
  {
    Increasing(bs, end, i, i + 2);
  }

  lemma HeadAt(bs: seq<Block>, end: nat)
    requires Tiled(bs, end)
    ensures bs != [] ==> bs[0].at == HEAP_BASE
  {
  }

  lemma NotLive(bs: seq<Block>, end: nat, p: nat)
    requires Tiled(bs, end) && (p == 0 || p < HEAP_BASE + HEADER || p >= end || !Round(p))
    ensures forall s :: !Live(bs, p, s)
  {
    forall s ensures !Live(bs, p, s) {
      if Live(bs, p, s) {
        PayloadsDisjoint(bs, end, p, s, p, s);
      }
    }
  }

  lemma LiveBlock(bs: seq<Block>, end: nat, p: nat, i: nat)
    requires Tiled(bs, end) && i <= |bs|
    requires if i < |bs| then bs[i].at + HEADER == p else forall k | 0 <= k < |bs| :: bs[k].at + HEADER != p
    ensures (exists s :: Live(bs, p, s)) <==> i < |bs| && bs[i].used
  {
    Distinct(bs, end);
    if i < |bs| && bs[i].used {
      assert Live(bs, p, bs[i].size);
    }
  }

  /** After merging block `i` with what follows, nothing free follows it. */
  lemma MergedBehind(b0: seq<Block>, b1: seq<Block>, i: nat)
    requires i < |b0| && !b0[i].used && MergedExcept(b0, i)
    requires if i + 1 == |b0| || b0[i + 1].used then b1 == b0 else b1 == MergeAt(b0, i)
    ensures i < |b1| && b1[i].at == b0[i].at && !b1[i].used && MergedExcept(b1, i) && (i + 1 < |b1| ==> b1[i + 1].used)
    ensures forall k | 0 <= k < i :: b1[k] == b0[k]
  {
    if i + 1 < |b0| && !b0[i + 1].used {
      MergeIndex(b0, i);
      MergeNext(b0, b1, i);
    }
  }

  lemma MergedHead(bs: seq<Block>, i: nat)
    requires i + 1 < |bs|
    ensures MergeAt(bs, i) != []
  {
  }

  lemma SameLiveRefl(bs: seq<Block>)
    ensures SameLive(bs, bs)
  {
  }

  lemma NextOf(m: map<nat, Header>, bs: seq<Block>, end: nat, i: nat)
    requires Tiled(bs, end) && Linked(m, bs) && i < |bs|
    ensures bs[i].at in m && (m[bs[i].at].next != 0 <==> i + 1 < |bs|) && m[bs[i].at].size == bs[i].size
    ensures i + 1 < |bs| ==> m[bs[i].at].next == bs[i + 1].at != bs[i].at && bs[i + 1].at in m
    ensures i + 1 < |bs| ==> m[bs[i + 1].at].used == bs[i + 1].used
    ensures i + 1 < |bs| ==> (m[bs[i + 1].at].next != 0 <==> i + 2 < |bs|)
    ensures i + 1 < |bs| ==> (i + 2 < |bs| ==> m[bs[i + 1].at].next == bs[i + 2].at && bs[i + 2].at in m)
  {
    Distinct(bs, end);
    LinkedAt(m, bs, i);
    if i + 1 < |bs| {
      LinkedAt(m, bs, i + 1);
    }
  }

  lemma PreviousOf(m: map<nat, Header>, bs: seq<Block>, end: nat, i: nat)
    requires Tiled(bs, end) && Linked(m, bs) && i < |bs|
    ensures bs[i].at in m && (m[bs[i].at].previous != 0 <==> i > 0)
    ensures i > 0 ==> m[bs[i].at].previous == bs[i - 1].at && bs[i - 1].at in m
    ensures i > 0 ==> m[bs[i - 1].at].used == bs[i - 1].used
  {
    Distinct(bs, end);
    LinkedAt(m, bs, i);
    if i > 0 {
      LinkedAt(m, bs, i - 1);
    }
  }

  lemma LiveChain(b: seq<Block>, i: nat, b1: seq<Block>, b2: seq<Block>)
    requires i < |b| && b[i].used && Apart(b) && SameLive(b[i := b[i].(used := false)], b1)
    requires SameLive(b1, b2) || b2 == b1
    ensures forall p, s :: Live(b2, p, s) <==> Live(b, p, s) && p != b[i].at + HEADER
  {
    hide Live;
    DropLive(b, i);
    forall p, s ensures Live(b2, p, s) <==> Live(b, p, s) && p != b[i].at + HEADER {
      assert Live(b1, p, s) <==> Live(b[i := b[i].(used := false)], p, s);
    }
  }

  /** Taking a free block moves its bytes from the free ones to the used ones. */
  lemma {:induction false} BytesMove(bs: seq<Block>, i: nat)
    requires i < |bs| && !bs[i].used
    ensures var bs' := bs[i := bs[i].(used := true)];
      UsedBytes(bs') == UsedBytes(bs) + bs[i].size && FreeBytes(bs') == FreeBytes(bs) - bs[i].size
    decreases |bs|
  {
    var bs', n := bs[i := bs[i].(used := true)], |bs| - 1;
    if i == n {
      assert bs'[..n] == bs[..n];
    } else {
      assert bs'[..n] == bs[..n][i := bs[i].(used := true)];
      BytesMove(bs[..n], i);
    }
  }

  // ---- growing ----

  /** Bytes the heap grows by to make room for a payload. */
  function Growth(minimum: nat): (g: nat)
    ensures g % PAGE_SIZE == 0 && Round(g) && g >= minimum + HEADER && g >= GROW_PAGES * PAGE_SIZE
    ensures g < minimum + HEADER + PAGE_SIZE || g == GROW_PAGES * PAGE_SIZE
  {
    var g := PageUp(minimum + HEADER);
    if g < 16384 then 16384 else g
  }

  lemma {:induction false} NoneUsed(bs: seq<Block>)
    requires UsedCount(bs) == 0
    ensures forall i | 0 <= i < |bs| :: !bs[i].used
    decreases |bs|
  {
    if bs != [] {
      NoneUsed(bs[..|bs| - 1]);
      forall i | 0 <= i < |bs| ensures !bs[i].used {
        assert i < |bs| - 1 ==> bs[..|bs| - 1][i] == bs[i];
      }
    }
  }

  /** A heap without live blocks is one free block. */
  lemma OneFreeBlock(bs: seq<Block>, end: nat)
    requires Tiled(bs, end) && Merged(bs) && UsedCount(bs) == 0 && bs != []
    ensures end >= HEAP_BASE + HEADER && bs == [Block(HEAP_BASE, end - HEAP_BASE - HEADER, false)]
  {
    assert |bs| > 1 ==> bs[0].used || bs[1].used;
    assert BlockOk(bs, 0, end);
    NoneUsed(bs);
  }

  /** kmalloc_init: the first growth leaves one free block over four pages, or there is no memory. */
  method Init(available: nat) returns (heap: Heap, ok: bool)
    ensures fresh(heap) && heap.Valid() && heap.active == 0
    ensures ok <==> GROW_PAGES <= available
    ensures ok ==> heap.mappedSize == GROW_PAGES * PAGE_SIZE
    ensures ok ==> heap.blocks == [Block(HEAP_BASE, GROW_PAGES * PAGE_SIZE - HEADER, false)]
    ensures !ok ==> heap.mappedSize == 0 && heap.blocks == []
  {
    hide Round, Tiled, Linked, UsedCount, Merged, SameLive;
    heap := new Heap();
    assert Growth(ALIGNMENT) == GROW_PAGES * PAGE_SIZE;
    ok := heap.Grow(ALIGNMENT, available);
    if ok {
      OneFreeBlock(heap.blocks, HEAP_BASE + heap.mappedSize);
    }
  }

  lemma PagesAdd(a: nat, b: nat)
    requires a % PAGE_SIZE == 0 && b % PAGE_SIZE == 0
    ensures (a + b) / PAGE_SIZE == a / PAGE_SIZE + b / PAGE_SIZE && (a + b) % PAGE_SIZE == 0
  {
  }

  lemma NoLast(bs: seq<Block>, end: nat)
    requires Tiled(bs, end)
    ensures bs != [] ==> bs[|bs| - 1].at != 0
    ensures bs == [] ==> end == HEAP_BASE
  {
    Distinct(bs, end);
  }

  lemma LastUsed(m: map<nat, Header>, bs: seq<Block>)
    requires Linked(m, bs) && bs != []
    ensures var b := bs[|bs| - 1]; b.at in m && m[b.at].used == b.used && m[b.at].size == b.size
  {
  }

  function Extended(bs: seq<Block>, growth: nat): seq<Block>
    requires bs != []
  {
    bs[|bs| - 1 := bs[|bs| - 1].(size := bs[|bs| - 1].size + growth)]
  }

  lemma GrowLast(m: map<nat, Header>, bs: seq<Block>, end: nat, growth: nat)
    requires Tiled(bs, end) && Linked(m, bs) && Merged(bs) && bs != [] && !bs[|bs| - 1].used && Round(growth)
    ensures var at := bs[|bs| - 1].at;
      at in m && Linked(m[at := m[at].(size := m[at].size + growth)], Extended(bs, growth))
    ensures Tiled(Extended(bs, growth), end + growth) && Merged(Extended(bs, growth))
    ensures SameLive(bs, Extended(bs, growth))
    ensures var bs' := Extended(bs, growth);
      UsedCount(bs') == UsedCount(bs) && |bs'| == |bs| && bs'[|bs| - 1].size >= growth && !bs'[|bs| - 1].used
  {
    hide Tiled, Round, UsedCount, SameLive, Live, Linked, Merged;
    var n, bs' := |bs| - 1, Extended(bs, growth);
    Distinct(bs, end);
    LinkedAt(m, bs, n);
    CountSet(bs, n, bs'[n]);
    ExtendedTiled(bs, end, growth);
    ExtendedLive(bs, growth);
    ExtendedLinked(m, bs, growth);
    ExtendedMerged(bs, growth);
  }

  lemma ExtendedMerged(bs: seq<Block>, growth: nat)
    requires Merged(bs) && bs != []
    ensures Merged(Extended(bs, growth))
  {
  }

  lemma ExtendedLinked(m: map<nat, Header>, bs: seq<Block>, growth: nat)
    requires Linked(m, bs) && Apart(bs) && bs != []
    ensures var at := bs[|bs| - 1].at;
      at in m && Linked(m[at := m[at].(size := m[at].size + growth)], Extended(bs, growth))
  {
    hide HeaderOf, Extended;
    var n, bs' := |bs| - 1, Extended(bs, growth);
    LinkedAt(m, bs, n);
    ExtendedHeader(bs, growth, n);
    var m' := m[bs[n].at := m[bs[n].at].(size := m[bs[n].at].size + growth)];
    forall j | 0 <= j < |bs'| ensures bs'[j].at in m' && m'[bs'[j].at] == HeaderOf(bs', j) {
      ExtendedHeader(bs, growth, j);
      LinkedAt(m, bs, j);
      assert j < n ==> bs[j].at != bs[n].at;
    }
  }

  lemma ExtendedHeader(bs: seq<Block>, growth: nat, j: nat)
    requires j < |bs|
    ensures var n, bs' := |bs| - 1, Extended(bs, growth);
      && |bs'| == |bs| && bs'[j].at == bs[j].at
      && HeaderOf(bs', j) == if j == n then HeaderOf(bs, n).(size := HeaderOf(bs, n).size + growth) else HeaderOf(bs, j)
  {
  }

  lemma ExtendedTiled(bs: seq<Block>, end: nat, growth: nat)
    requires Tiled(bs, end) && bs != [] && Round(growth)
    ensures Tiled(Extended(bs, growth), end + growth)
  {
    hide Round;
    var n, bs', e := |bs| - 1, Extended(bs, growth), end + growth;
    assert BlockOk(bs, n, end);
    RoundSum(bs[n].size, growth);
    forall j | 0 <= j < |bs'| ensures BlockOk(bs', j, e) {
      assert BlockOk(bs, j, end);
    }
  }

  lemma ExtendedLive(bs: seq<Block>, growth: nat)
    requires bs != [] && !bs[|bs| - 1].used
    ensures SameLive(bs, Extended(bs, growth))
  {
    var bs' := Extended(bs, growth);
    forall p, s ensures Live(bs', p, s) <==> Live(bs, p, s) {
      if Live(bs, p, s) {
        var k :| 0 <= k < |bs| && bs[k].used && bs[k].at + HEADER == p && bs[k].size == s;
        assert bs'[k] == bs[k];
      }
      if Live(bs', p, s) {
        var k :| 0 <= k < |bs'| && bs'[k].used && bs'[k].at + HEADER == p && bs'[k].size == s;
        assert bs'[k] == bs[k];
      }
    }
  }

  lemma AddLast(m: map<nat, Header>, bs: seq<Block>, end: nat, growth: nat)
    requires Tiled(bs, end) && Linked(m, bs) && Merged(bs) && Round(growth) && growth >= HEADER + ALIGNMENT
    requires bs != [] ==> bs[|bs| - 1].used
    ensures bs != [] ==> bs[|bs| - 1].at in m && bs[|bs| - 1].at != end
    ensures var bs' := bs + [Block(end, growth - HEADER, false)]; var last := if bs == [] then 0 else bs[|bs| - 1].at;
      var m1 := m[end := Header(growth - HEADER, last, 0, true, false)];
      && Linked(if last != 0 then m1[last := m[last].(next := end)] else m1, bs')
      && Tiled(bs', end + growth) && Merged(bs') && SameLive(bs, bs') && UsedCount(bs') == UsedCount(bs)
  {
    hide Tiled, Round, UsedCount, SameLive, Live, Linked, Merged, Apart;
    var b := Block(end, growth - HEADER, false);
    Rounds();
    RoundSum(growth, HEADER);
    AddTiled(bs, end, growth);
    Distinct(bs + [b], end + growth);
    CountAppend(bs, [b]);
    CountOne(b);
    AddLive(bs, b);
    AddMerged(bs, b);
    NoLast(bs, end);
    AddLinked(m, bs, b);
  }

  lemma AddMerged(bs: seq<Block>, b: Block)
    requires Merged(bs) && (bs != [] ==> bs[|bs| - 1].used)
    ensures Merged(bs + [b])
  {
  }

  lemma AddLinked(m: map<nat, Header>, bs: seq<Block>, b: Block)
    requires Linked(m, bs) && Apart(bs + [b]) && !b.used
    ensures bs != [] ==> bs[|bs| - 1].at in m && bs[|bs| - 1].at != b.at && bs[|bs| - 1].at != 0
    ensures var last := if bs == [] then 0 else bs[|bs| - 1].at;
      var m1 := m[b.at := Header(b.size, last, 0, true, false)];
      Linked(if last != 0 then m1[last := m[last].(next := b.at)] else m1, bs + [b])
  {
    var n, bs' := |bs|, bs + [b];
    assert bs'[n] == b;
    if n > 0 {
      LinkedAt(m, bs, n - 1);
      assert bs'[n - 1] == bs[n - 1] && bs'[n - 1].at != bs'[n].at && bs'[n - 1].at != 0;
    }
    var last := if bs == [] then 0 else bs[n - 1].at;
    var m1 := m[b.at := Header(b.size, last, 0, true, false)];
    var m' := if last != 0 then m1[last := m[last].(next := b.at)] else m1;
    forall j | 0 <= j < |bs'| ensures bs'[j].at in m' && m'[bs'[j].at] == HeaderOf(bs', j) {
      if j < n {
        LinkedAt(m, bs, j);
        assert bs'[j] == bs[j] && bs'[j].at != bs'[n].at;
      }
    }
  }

  lemma AddTiled(bs: seq<Block>, end: nat, growth: nat)
    requires Tiled(bs, end) && Round(growth - HEADER) && growth >= HEADER + ALIGNMENT
    ensures Tiled(bs + [Block(end, growth - HEADER, false)], end + growth)
  {
    hide Round;
    var bs', e := bs + [Block(end, growth - HEADER, false)], end + growth;
    forall j | 0 <= j < |bs'| ensures BlockOk(bs', j, e) {
      if j < |bs| {
        assert BlockOk(bs, j, end);
      }
    }
  }

  lemma AddLive(bs: seq<Block>, b: Block)
    requires !b.used
    ensures SameLive(bs, bs + [b])
  {
    var bs' := bs + [b];
    forall p, s ensures Live(bs', p, s) <==> Live(bs, p, s) {
      if Live(bs, p, s) {
        var k :| 0 <= k < |bs| && bs[k].used && bs[k].at + HEADER == p && bs[k].size == s;
        assert bs'[k] == bs[k];
      }
      if Live(bs', p, s) {
        var k :| 0 <= k < |bs'| && bs'[k].used && bs'[k].at + HEADER == p && bs'[k].size == s;
        assert bs'[k] == bs[k];
      }
    }
  }

  // ---- allocating ----

  ghost predicate NoFit(bs: seq<Block>, size: nat) {
    forall i | 0 <= i < |bs| :: bs[i].used || bs[i].size < size
  }

  /** The first free block that is large enough. */
  ghost predicate FirstFit(bs: seq<Block>, size: nat, i: nat) {
    i < |bs| && !bs[i].used && bs[i].size >= size && forall k | 0 <= k < i :: bs[k].used || bs[k].size < size
  }

  lemma FitFound(bs: seq<Block>, size: nat, i: nat)
    requires i < |bs| && !bs[i].used && bs[i].size >= size
    requires forall k | 0 <= k < i :: bs[k].used || bs[k].size < size
    ensures !NoFit(bs, size) && FirstFit(bs, size, i)
  {
  }

  lemma FitMissing(bs: seq<Block>, size: nat, i: nat)
    requires i == |bs| && forall k | 0 <= k < i :: bs[k].used || bs[k].size < size
    ensures NoFit(bs, size)
  {
  }

  lemma RoundedUp(size: nat)
    requires size > 0
    ensures RoundUp(size) >= ALIGNMENT
  {
  }

  /** One payload was added, at an address that was not live. */
  ghost predicate Added(bs: seq<Block>, bs': seq<Block>, p: nat, size: nat) {
    && (forall s :: !Live(bs, p, s))
    && (forall q, s :: Live(bs', q, s) <==> Live(bs, q, s) || (q == p && s == size))
  }

  lemma AddedTo(bs: seq<Block>, bs1: seq<Block>, bs2: seq<Block>, p: nat, size: nat)
    requires SameLive(bs, bs1) && Added(bs1, bs2, p, size)
    ensures Added(bs, bs2, p, size)
  {
    hide Live;
  }

  lemma SplitOutcome(bs: seq<Block>, i: nat, size: nat)
    requires Merged(bs) && i < |bs| && !bs[i].used && bs[i].size >= size
    ensures Merged(bs[i := bs[i].(used := true)])
    ensures bs[i].size >= size + HEADER + ALIGNMENT ==> var bs' := SplitAt(bs, i, size);
      i < |bs'| && bs'[i] == bs[i].(size := size) && Merged(bs'[i := bs'[i].(used := true)]) && SameLive(bs, bs')
  {
    TakeMerged(bs, i);
    if bs[i].size >= size + HEADER + ALIGNMENT {
      SplitIndex(bs, i, size);
      SplitMerged(bs, SplitAt(bs, i, size), i, size);
      SplitLive(bs, SplitAt(bs, i, size), i, size);
    }
  }

  lemma TookLive(b0: seq<Block>, b1: seq<Block>, i: nat)
    requires i < |b1| && !b1[i].used && Apart(b1) && (b1 == b0 || SameLive(b0, b1))
    ensures Added(b0, b1[i := b1[i].(used := true)], b1[i].at + HEADER, b1[i].size)
  {
    hide Live;
    TakeLive(b1, i);
    var b2, p := b1[i := b1[i].(used := true)], b1[i].at + HEADER;
    forall s ensures !Live(b0, p, s) {
      assert !Live(b1, p, s);
    }
    forall q, s ensures Live(b2, q, s) <==> Live(b0, q, s) || (q == p && s == b1[i].size) {
      assert Live(b1, q, s) <==> Live(b0, q, s);
    }
  }
}
