/** The physical page allocator (src/mm/pmm.c): one bit and one reference count per page. */
module Pmm {

  const PAGE_SIZE: nat := 4096
  const KERNEL_RESERVE_PAGES: nat := 1024
  const MAX_REFERENCES: nat := 65535

  /** Page frame number: a page-aligned physical address divided by PAGE_SIZE. */
  type Frame = nat

  datatype Option<+T> = None | Some(value: T)

  /** What never changes after boot: which frames are usable memory, and the frames taken by
      the bitmap and the reference counts themselves. */
  datatype Layout = Layout(usable: seq<bool>, metaStart: nat, metaEnd: nat) {

    /** Frames the allocator hands out; every other frame keeps its bit set and its count zero. */
    predicate Managed(f: Frame) {
      f < |usable| && usable[f] && !(metaStart <= f < metaEnd)
    }
  }

  datatype State = State(used: seq<bool>, refs: seq<nat>, free: nat, start: nat)

  function ClearBits(used: seq<bool>): nat {
    if used == [] then 0 else (if used[0] then 0 else 1) + ClearBits(used[1..])
  }

  lemma {:induction false} ClearBitsUpdate(used: seq<bool>, f: nat, b: bool)
    requires f < |used|
    ensures ClearBits(used[f := b]) == ClearBits(used) + (if used[f] then 1 else 0) - (if b then 1 else 0)
  {
    if f == 0 {
      assert used[f := b][1..] == used[1..];
    } else {
      assert used[f := b][1..] == used[1..][f - 1 := b];
      ClearBitsUpdate(used[1..], f - 1, b);
    }
  }

  lemma {:induction false} ClearBitsNone(used: seq<bool>)
    requires forall f | 0 <= f < |used| :: used[f]
    ensures ClearBits(used) == 0
  {
    if used != [] {
      ClearBitsNone(used[1..]);
    }
  }

  /** The consistency of the allocator's three records: bitmap, counts and free counter. */
  ghost predicate Consistent(g: Layout, s: State) {
    && |s.used| == |s.refs| == |g.usable|
    && s.start <= |s.used|
    && s.free == ClearBits(s.used)
    && (forall f | 0 <= f < |s.refs| :: s.refs[f] <= MAX_REFERENCES)
    && (forall f | 0 <= f < |s.refs| && g.Managed(f) :: s.used[f] <==> s.refs[f] > 0)
    && (forall f | 0 <= f < |s.refs| && !g.Managed(f) :: s.used[f] && s.refs[f] == 0)
  }

  /** References of a frame as callers see them; frames outside the allocator have none. */
  function Refs(s: State, f: Frame): nat {
    if f < |s.refs| then s.refs[f] else 0
  }

  ghost predicate FirstClear(used: seq<bool>, from: nat, f: nat) {
    from <= f < |used| && !used[f] && forall k | from <= k < f :: used[k]
  }

  /** Next-fit order: the first clear bit from the hint, or else the first one of all. */
  ghost predicate NextFit(s: State, f: nat) {
    || FirstClear(s.used, s.start, f)
    || ((forall k | s.start <= k < |s.used| :: s.used[k]) && FirstClear(s.used, 0, f))
  }

  ghost predicate ClearRun(used: seq<bool>, from: nat, count: nat) {
    from + count <= |used| && forall k | from <= k < from + count :: !used[k]
  }

  /** No run of `count` clear bits lies inside the window from `lo` to `hi`. */
  ghost predicate NoRun(used: seq<bool>, lo: nat, hi: nat, count: nat) {
    forall f | lo <= f && f + count <= hi :: !ClearRun(used, f, count)
  }

  /** The first run of clear bits inside a window. */
  ghost predicate FirstRun(used: seq<bool>, lo: nat, hi: nat, count: nat, f: nat) {
    lo <= f && f + count <= hi && ClearRun(used, f, count) && forall k | lo <= k < f :: !ClearRun(used, k, count)
  }

  function Taken(s: State, f: Frame): State
    requires f < |s.used| == |s.refs| && s.free > 0
  {
    State(s.used[f := true], s.refs[f := 1], s.free - 1, f + 1)
  }

  function Released(s: State, f: Frame): State
    requires f < |s.used| == |s.refs| && s.refs[f] > 0
  {
    if s.refs[f] > 1 then s.(refs := s.refs[f := s.refs[f] - 1])
    else State(s.used[f := false], s.refs[f := 0], s.free + 1, if f < s.start then f else s.start)
  }

  function Retained(s: State, f: Frame): State
    requires f < |s.refs|
  {
    s.(refs := s.refs[f := s.refs[f] + 1])
  }

  lemma TakenConsistent(g: Layout, s: State, f: Frame)
    requires Consistent(g, s) && f < |s.used| && !s.used[f]
    ensures s.free > 0 && g.Managed(f) && Consistent(g, Taken(s, f))
  {
    ClearBitsUpdate(s.used, f, true);
    assert ClearBits(s.used[f := true]) >= 0;
  }

  /** Taking `n` neighbouring pages one after the other. */
  ghost function TakenRun(s: State, f: Frame, n: nat): (t: State)
    requires f + n <= |s.used| == |s.refs| && n <= s.free
    ensures |t.used| == |s.used| && |t.refs| == |s.refs| && t.free == s.free - n && (n > 0 ==> t.start == f + n)
  {
    if n == 0 then s else Taken(TakenRun(s, f, n - 1), f + n - 1)
  }

  lemma {:induction false} TakenRunConsistent(g: Layout, s: State, f: Frame, n: nat)
    requires Consistent(g, s) && ClearRun(s.used, f, n) && n <= s.free
    ensures Consistent(g, TakenRun(s, f, n))
    ensures forall k | f + n <= k < |s.used| :: TakenRun(s, f, n).used[k] == s.used[k]
  {
    if n > 0 {
      TakenRunConsistent(g, s, f, n - 1);
      TakenConsistent(g, TakenRun(s, f, n - 1), f + n - 1);
    }
  }

  lemma {:induction false} ClearBitsSplit(a: seq<bool>, b: seq<bool>)
    ensures ClearBits(a + b) == ClearBits(a) + ClearBits(b)
  {
    if a == [] {
      assert a + b == b;
    } else {
      assert (a + b)[1..] == a[1..] + b;
      ClearBitsSplit(a[1..], b);
    }
  }

  lemma {:induction false} ClearBitsAll(used: seq<bool>)
    requires forall k | 0 <= k < |used| :: !used[k]
    ensures ClearBits(used) == |used|
  {
    if used != [] {
      ClearBitsAll(used[1..]);
    }
  }

  /** A run of clear bits needs that many free pages. */
  lemma RunNeedsFree(used: seq<bool>, f: nat, count: nat)
    requires ClearRun(used, f, count)
    ensures count <= ClearBits(used)
  {
    var a, b, c := used[..f], used[f..f + count], used[f + count..];
    assert used == a + (b + c);
    ClearBitsSplit(a, b + c);
    ClearBitsSplit(b, c);
    ClearBitsAll(b);
  }

  lemma ReleasedConsistent(g: Layout, s: State, f: Frame)
    requires Consistent(g, s) && f < |s.used| && s.refs[f] > 0
    ensures g.Managed(f) && Consistent(g, Released(s, f))
  {
    ClearBitsUpdate(s.used, f, false);
  }

  /** Giving a page back right after taking it restores every record except the search hint. */
  lemma TakeThenRelease(g: Layout, s: State, f: Frame)
    requires Consistent(g, s) && f < |s.used| && !s.used[f]
    ensures s.free > 0
    ensures var t := Released(Taken(s, f), f); t.used == s.used && t.refs == s.refs && t.free == s.free
  {
    TakenConsistent(g, s, f);
  }

  // ---- the memory map ----

  datatype Area = Area(base: nat, length: nat, usable: bool)

  /** The whole of page `f` lies in a usable region. */
  predicate HoldsPage(r: Area, f: Frame) {
    r.usable && r.base <= f * PAGE_SIZE && f * PAGE_SIZE + PAGE_SIZE <= r.base + r.length
  }

  /** page_is_usable */
  predicate PageUsable(regions: seq<Area>, f: Frame) {
    exists i | 0 <= i < |regions| :: HoldsPage(regions[i], f)
  }

  /** The boot protocol's promise: usable regions are made of whole pages and do not overlap. */
  ghost predicate MapOk(regions: seq<Area>) {
    && (forall i | 0 <= i < |regions| && regions[i].usable ::
      regions[i].base % PAGE_SIZE == 0 && regions[i].length % PAGE_SIZE == 0)
    && (forall i, j, f | 0 <= i < j < |regions| && HoldsPage(regions[i], f) :: !HoldsPage(regions[j], f))
  }

  /** The fewest pages that hold the bytes. */
  function Pages(bytes: nat): (n: nat)
    ensures bytes <= n * PAGE_SIZE < bytes + PAGE_SIZE
  {
    (bytes + PAGE_SIZE - 1) / PAGE_SIZE
  }

  /** Pages for the bitmap, one bit for each of `pages` frames, and for the counts, 16 bits for each. */
  function MetadataPages(pages: nat): (n: nat)
    ensures exists bitmap: nat, counts: nat ::
      n == bitmap + counts && FewestFor(bitmap, pages) && FewestFor(counts, 16 * pages)
  {
    var bitmap, counts := Pages((pages + 7) / 8), Pages(2 * pages);
    assert FewestFor(bitmap, pages) && FewestFor(counts, 16 * pages);
    bitmap + counts
  }

  /** So many pages, and no fewer, hold so many bits. */
  predicate FewestFor(n: nat, bits: nat) { bits <= 8 * n * PAGE_SIZE && (n > 0 ==> 8 * (n - 1) * PAGE_SIZE < bits) }

  /** One past the highest usable address. */
  function Highest(regions: seq<Area>): nat {
    if regions == [] then 0 else
      var rest, r := Highest(regions[..|regions| - 1]), regions[|regions| - 1];
      if r.usable && r.base + r.length > rest then r.base + r.length else rest
  }

  function PageCount(regions: seq<Area>): nat { Pages(Highest(regions)) }

  lemma {:induction false} HighestReached(regions: seq<Area>)
    ensures Highest(regions) == 0 || exists i | 0 <= i < |regions| ::
      regions[i].usable && regions[i].base + regions[i].length == Highest(regions)
  {
    if regions != [] {
      var n := |regions| - 1;
      HighestReached(regions[..n]);
      if Highest(regions[..n]) == Highest(regions) != 0 {
        var i :| 0 <= i < n && regions[..n][i].usable
          && regions[..n][i].base + regions[..n][i].length == Highest(regions[..n]);
        assert regions[i].usable && regions[i].base + regions[i].length == Highest(regions);
      }
    }
  }

  lemma {:induction false} HighestBound(regions: seq<Area>, i: nat)
    requires i < |regions| && regions[i].usable
    ensures regions[i].base + regions[i].length <= Highest(regions)
  {
    if i < |regions| - 1 {
      HighestBound(regions[..|regions| - 1], i);
    }
  }

  lemma UsableBelow(regions: seq<Area>, f: Frame)
    requires PageUsable(regions, f)
    ensures f < PageCount(regions)
  {
    var i :| 0 <= i < |regions| && HoldsPage(regions[i], f);
    HighestBound(regions, i);
    assert (f + 1) * PAGE_SIZE <= Highest(regions);
  }

  lemma CoveredPages(r: Area, f: Frame)
    requires r.usable && r.base % PAGE_SIZE == 0 && r.length % PAGE_SIZE == 0
    ensures HoldsPage(r, f) <==> r.base / PAGE_SIZE <= f < (r.base + r.length) / PAGE_SIZE
  {
    assert r.base == PAGE_SIZE * (r.base / PAGE_SIZE) && r.length == PAGE_SIZE * (r.length / PAGE_SIZE);
  }

  lemma NoneUsable(regions: seq<Area>)
    ensures forall f: Frame :: !PageUsable(regions[..0], f)
  {
  }

  lemma UsableNext(regions: seq<Area>, i: nat)
    requires i < |regions|
    ensures forall f :: PageUsable(regions[..i + 1], f) <==> PageUsable(regions[..i], f) || HoldsPage(regions[i], f)
    ensures forall f | HoldsPage(regions[i], f) :: PageUsable(regions, f)
  {
    var a, b := regions[..i], regions[..i + 1];
    assert forall k | 0 <= k < i :: a[k] == regions[k];
    assert forall k | 0 <= k < i :: b[k] == regions[k];
    forall f ensures PageUsable(b, f) <==> PageUsable(a, f) || HoldsPage(regions[i], f) {
      if PageUsable(a, f) {
        var k :| 0 <= k < i && HoldsPage(a[k], f);
        assert HoldsPage(b[k], f);
      }
      if HoldsPage(regions[i], f) {
        assert HoldsPage(b[i], f);
      }
      if PageUsable(b, f) {
        var k :| 0 <= k <= i && HoldsPage(b[k], f);
        assert k < i ==> HoldsPage(a[k], f);
      }
    }
  }

  lemma NotBefore(regions: seq<Area>, i: nat, f: Frame)
    requires MapOk(regions) && i < |regions| && HoldsPage(regions[i], f)
    ensures !PageUsable(regions[..i], f)
  {
    assert forall k | 0 <= k < i :: regions[..i][k] == regions[k];
  }

  class Allocator {
    const layout: Layout
    const used: array<bool>
    const refs: array<nat>
    var freePages: nat
    var searchStart: nat

    ghost function S(): State
      reads this, used, refs
    {
      State(used[..], refs[..], freePages, searchStart)
    }

    ghost predicate Valid()
      reads this, used, refs
    {
      Consistent(layout, S())
    }

    /** The end of pmm_init: every bit set and every count zero, then the usable pages cleared, then
        the allocator's own pages set again. */
    constructor (usable: seq<bool>, metaStart: nat, metaEnd: nat, regions: seq<Area>)
      requires MapOk(regions) && metaStart <= metaEnd <= |usable|
      requires forall f | 0 <= f < |usable| :: usable[f] <==> PageUsable(regions, f)
      requires forall f: Frame | PageUsable(regions, f) :: f < |usable|
      ensures Valid() && fresh(used) && fresh(refs) && layout == Layout(usable, metaStart, metaEnd)
      ensures forall f | 0 <= f < |usable| :: used[f] <==> !layout.Managed(f)
      ensures searchStart == metaEnd
    {
      hide PageUsable, ClearBits, MapOk;
      layout := Layout(usable, metaStart, metaEnd);
      used := new bool[|usable|](_ => true);
      refs := new nat[|usable|](_ => 0);
      freePages := 0;
      searchStart := 0;
      new;
      ClearRegions(regions);
      SetMetadata(metaStart, metaEnd);
    }

    method ClearRegions(regions: seq<Area>)
      requires MapOk(regions) && freePages == 0 && forall f | 0 <= f < used.Length :: used[f]
      requires forall f: Frame | PageUsable(regions, f) :: f < used.Length
      modifies used, `freePages
      ensures freePages == ClearBits(used[..])
      ensures forall f | 0 <= f < used.Length :: used[f] <==> !PageUsable(regions, f)
    {
      hide PageUsable, ClearBits, MapOk;
      ClearBitsNone(used[..]);
      NoneUsable(regions);
      var i := 0;
      while i < |regions|
        invariant 0 <= i <= |regions| && freePages == ClearBits(used[..])
        invariant forall f | 0 <= f < used.Length :: used[f] <==> !PageUsable(regions[..i], f)
      {
        UsableNext(regions, i);
        if regions[i].usable {
          ClearRegion(regions, i);
        }
        i := i + 1;
      }
      assert regions[..i] == regions;
    }

    method SetMetadata(metaStart: nat, metaEnd: nat)
      requires metaStart <= metaEnd <= used.Length && freePages == ClearBits(used[..])
      modifies used, this
      ensures freePages == ClearBits(used[..]) && searchStart == metaEnd
      ensures forall f | 0 <= f < used.Length :: used[f] <==> old(used[f]) || metaStart <= f < metaEnd
    {
      var i := 0;
      while i < metaEnd - metaStart
        invariant 0 <= i <= metaEnd - metaStart && freePages == ClearBits(used[..])
        invariant forall f | 0 <= f < used.Length :: used[f] <==> old(used[f]) || metaStart <= f < metaStart + i
      {
        var page := metaStart + i;
        if !used[page] {
          ghost var bits := used[..];
          ClearBitsUpdate(bits, page, true);
          used[page] := true;
          assert used[..] == bits[page := true];
          freePages := freePages - 1;
        }
        i := i + 1;
      }
      searchStart := metaEnd;
    }

    method ClearRegion(regions: seq<Area>, i: nat)
      requires MapOk(regions) && i < |regions| && regions[i].usable && freePages == ClearBits(used[..])
      requires forall f | 0 <= f < used.Length :: used[f] <==> !PageUsable(regions[..i], f)
      requires forall f: Frame | HoldsPage(regions[i], f) :: f < used.Length
      modifies used, `freePages
      ensures freePages == ClearBits(used[..])
      ensures forall f | 0 <= f < used.Length :: used[f] <==> old(used[f]) && !HoldsPage(regions[i], f)
    {
      var r := regions[i];
      var page, end := r.base / PAGE_SIZE, (r.base + r.length) / PAGE_SIZE;
      ghost var first := page;
      while page < end
        invariant first <= page && freePages == ClearBits(used[..])
        invariant forall f | 0 <= f < used.Length :: used[f] <==> old(used[f]) && !(first <= f < page && f < end)
      {
        CoveredPages(r, page);
        NotBefore(regions, i, page);
        ghost var bits := used[..];
        ClearBitsUpdate(bits, page, false);
        used[page] := false;
        assert used[..] == bits[page := false];
        freePages := freePages + 1;
        page := page + 1;
      }
      forall f | 0 <= f < used.Length ensures used[f] <==> old(used[f]) && !HoldsPage(r, f) {
        CoveredPages(r, f);
      }
    }

    /** alloc_page_with_reserve: fails exactly when no more than the reserve is free; otherwise
        takes the next-fit page with count one. */
    method AllocWithReserve(reserve: nat) returns (r: Option<Frame>)
      requires Valid()
      modifies this, used, refs
      ensures Valid()
      ensures r.None? <==> old(freePages) <= reserve
      ensures r.None? ==> S() == old(S())
      ensures r.Some? ==> NextFit(old(S()), r.value) && S() == Taken(old(S()), r.value)
    {
      if freePages <= reserve {
        return None;
      }
      var pass := 0;
      while pass < 2
        invariant 0 <= pass <= 2
        invariant S() == old(S())
        invariant pass >= 1 ==> forall k | searchStart <= k < used.Length :: used[k]
        invariant pass >= 2 ==> forall k | 0 <= k < searchStart :: used[k]
      {
        var page := if pass == 0 then searchStart else 0;
        var end := if pass == 0 then used.Length else searchStart;
        while page < end
          invariant page <= end
          invariant S() == old(S())
          invariant forall k | (if pass == 0 then searchStart else 0) <= k < page :: used[k]
        {
          if !used[page] {
            ghost var before := S();
            TakenConsistent(layout, before, page);
            used[page] := true;
            refs[page] := 1;
            freePages := freePages - 1;
            searchStart := page + 1;
            assert S() == Taken(before, page);
            return Some(page);
          }
          page := page + 1;
        }
        pass := pass + 1;
      }
      ClearBitsNone(used[..]);
      assert false;
    }

    method AllocPage() returns (r: Option<Frame>)
      requires Valid()
      modifies this, used, refs
      ensures Valid()
      ensures r.None? <==> old(freePages) == 0
      ensures r.None? ==> S() == old(S())
      ensures r.Some? ==> NextFit(old(S()), r.value) && S() == Taken(old(S()), r.value)
    {
      r := AllocWithReserve(0);
    }

    method AllocUserPage() returns (r: Option<Frame>)
      requires Valid()
      modifies this, used, refs
      ensures Valid()
      ensures r.None? <==> old(freePages) <= KERNEL_RESERVE_PAGES
      ensures r.None? ==> S() == old(S())
      ensures r.Some? ==> NextFit(old(S()), r.value) && S() == Taken(old(S()), r.value)
    {
      r := AllocWithReserve(KERNEL_RESERVE_PAGES);
    }

    /** pmm_alloc_contiguous: the first run from the hint on, or else the first run below the hint;
        it fails exactly when neither window has a run. A run across the hint is not found. */
    method AllocContiguous(count: nat) returns (r: Option<Frame>)
      requires Valid()
      modifies this, used, refs
      ensures Valid()
      ensures r.None? ==> S() == old(S())
      ensures r.None? <==>
        count == 0
          || (NoRun(old(S()).used, old(searchStart), used.Length, count)
            && NoRun(old(S()).used, 0, old(searchStart), count))
      ensures r.Some? ==> count <= old(freePages) && r.value + count <= used.Length
      ensures r.Some? ==> S() == TakenRun(old(S()), r.value, count)
      ensures r.Some? ==>
        || FirstRun(old(S()).used, old(searchStart), used.Length, count, r.value)
        || (NoRun(old(S()).used, old(searchStart), used.Length, count)
          && FirstRun(old(S()).used, 0, old(searchStart), count, r.value))
    {
      hide ClearBits;
      if count == 0 {
        return None;
      }
      ghost var bits := used[..];
      if count > freePages {
        forall f | ClearRun(bits, f, count) ensures false {
          RunNeedsFree(bits, f, count);
        }
        return None;
      }
      var pass := 0;
      while pass < 2
        invariant 0 <= pass <= 2 && S() == old(S())
        invariant pass >= 1 ==> NoRun(bits, searchStart, used.Length, count)
        invariant pass >= 2 ==> NoRun(bits, 0, searchStart, count)
      {
        var start := if pass == 0 then searchStart else 0;
        var end := if pass == 0 then used.Length else searchStart;
        var page := start;
        while page < end && count <= end - page
          invariant start <= page && S() == old(S())
          invariant forall k | start <= k < page :: !ClearRun(bits, k, count)
        {
          var offset := 0;
          while offset < count && !used[page + offset]
            invariant 0 <= offset <= count
            invariant forall k | page <= k < page + offset :: !bits[k]
          {
            offset := offset + 1;
          }
          if offset == count {
            assert ClearRun(bits, page, count) && FirstRun(bits, start, end, count, page);
            assert !NoRun(bits, start, end, count);
            TakeRun(page, count);
            return Some(page);
          }
          assert bits[page + offset];
          page := page + offset + 1;
        }
        assert NoRun(bits, start, end, count);
        pass := pass + 1;
      }
      return None;
    }

    method TakeRun(page: nat, count: nat)
      requires Valid() && ClearRun(used[..], page, count) && 0 < count <= freePages
      modifies this, used, refs
      ensures Valid() && S() == TakenRun(old(S()), page, count)
    {
      ghost var before := S();
      TakenRunConsistent(layout, before, page, count);
      var i := 0;
      while i < count
        invariant 0 <= i <= count && freePages == old(freePages)
        invariant used[..] == TakenRun(before, page, i).used && refs[..] == TakenRun(before, page, i).refs
      {
        used[page + i] := true;
        refs[page + i] := 1;
        i := i + 1;
      }
      freePages := freePages - count;
      searchStart := page + count;
      assert S() == TakenRun(before, page, count);
    }

    /** pmm_free_page on a physical address. */
    method FreePage(address: nat) returns (ok: bool)
      requires Valid()
      modifies this, used, refs
      ensures Valid()
      ensures ok <==> address % PAGE_SIZE == 0 && old(Refs(S(), address / PAGE_SIZE)) > 0
      ensures S() == if ok then Released(old(S()), address / PAGE_SIZE) else old(S())
    {
      var page := address / PAGE_SIZE;
      if address % PAGE_SIZE != 0 || page >= |layout.usable| || !layout.usable[page] {
        return false;
      }
      if layout.metaStart <= page < layout.metaEnd {
        return false;
      }
      if !used[page] {
        return false;
      }
      ghost var before := S();
      ReleasedConsistent(layout, before, page);
      if refs[page] > 1 {
        refs[page] := refs[page] - 1;
      } else {
        refs[page] := 0;
        used[page] := false;
        freePages := freePages + 1;
        if page < searchStart {
          searchStart := page;
        }
      }
      assert S() == Released(before, page);
      return true;
    }

    /** pmm_retain_page: refuses free frames, frames outside the allocator and a full count. */
    method RetainPage(address: nat) returns (ok: bool)
      requires Valid()
      modifies refs
      ensures Valid()
      ensures ok <==> address % PAGE_SIZE == 0 && 0 < old(Refs(S(), address / PAGE_SIZE)) < MAX_REFERENCES
      ensures S() == if ok then Retained(old(S()), address / PAGE_SIZE) else old(S())
    {
      var page := address / PAGE_SIZE;
      if address % PAGE_SIZE != 0 || page >= |layout.usable| || !layout.usable[page] {
        return false;
      }
      if !used[page] || refs[page] == 0 || refs[page] == MAX_REFERENCES {
        return false;
      }
      refs[page] := refs[page] + 1;
      assert S() == Retained(old(S()), page);
      return true;
    }

    method References(address: nat) returns (n: nat)
      requires Valid()
      ensures n == if address % PAGE_SIZE == 0 then Refs(S(), address / PAGE_SIZE) else 0
    {
      var page := address / PAGE_SIZE;
      if address % PAGE_SIZE != 0 || page >= |layout.usable| || !layout.usable[page] {
        return 0;
      }
      n := if used[page] then refs[page] else 0;
    }
  }

  /** What pmm_init sets up: every usable page outside the allocator's own pages is free. */
  ghost predicate InitOk(regions: seq<Area>, g: Layout, used: seq<bool>)
  {
    && |used| == |g.usable| == PageCount(regions)
    && g.metaEnd - g.metaStart == MetadataPages(PageCount(regions))
    && (forall f: Frame :: g.Managed(f) <==> PageUsable(regions, f) && !(g.metaStart <= f < g.metaEnd))
    && (forall f | g.metaStart <= f < g.metaEnd :: PageUsable(regions, f))
    && (forall f | 0 <= f < |used| :: used[f] <==> !g.Managed(f))
  }

  method HighestAddress(regions: seq<Area>) returns (highest: nat)
    ensures highest == Highest(regions)
  {
    highest := 0;
    var i := 0;
    while i < |regions|
      invariant 0 <= i <= |regions| && highest == Highest(regions[..i])
    {
      if regions[i].usable && regions[i].base + regions[i].length > highest {
        highest := regions[i].base + regions[i].length;
      }
      i := i + 1;
      assert regions[..i][..i - 1] == regions[..i - 1];
    }
    assert regions[..i] == regions;
  }

  /** A region found for the allocator's own pages gives them that many usable pages. */
  lemma MetadataFits(regions: seq<Area>, i: nat, metadata: nat)
    requires MapOk(regions) && i < |regions| && regions[i].usable && regions[i].length >= metadata * PAGE_SIZE
    ensures regions[i].base / PAGE_SIZE + metadata <= PageCount(regions)
    ensures forall f | regions[i].base / PAGE_SIZE <= f < regions[i].base / PAGE_SIZE + metadata ::
      PageUsable(regions, f)
  {
    hide Highest, Pages;
    var r := regions[i];
    RoomFor(r, metadata);
    HighestBound(regions, i);
    PagesMonotone(r.base + r.length, Highest(regions));
    forall f | r.base / PAGE_SIZE <= f < r.base / PAGE_SIZE + metadata ensures PageUsable(regions, f) {
      CoveredPages(r, f);
      assert HoldsPage(regions[i], f);
    }
  }

  lemma PagesMonotone(a: nat, b: nat)
    requires a <= b
    ensures Pages(a) <= Pages(b)
  {
  }

  /** pmm_init: fails exactly when no usable region can hold the bitmap and the counts. */
  method Init(regions: seq<Area>) returns (r: Option<Allocator>)
    requires MapOk(regions)
    ensures r.Some? ==> fresh(r.value) && fresh(r.value.used) && fresh(r.value.refs) && r.value.Valid()
    ensures r.Some? ==> InitOk(regions, r.value.layout, r.value.used[..])
    ensures r.None? <==>
      forall i | 0 <= i < |regions| && regions[i].usable ::
        regions[i].length < MetadataPages(PageCount(regions)) * PAGE_SIZE
  {
    hide MapOk, Highest, Pages, MetadataPages, PageUsable;
    var highest := HighestAddress(regions);
    var pages := Pages(highest);
    var metadata := MetadataPages(pages);
    var i := 0;
    while i < |regions| && !(regions[i].usable && regions[i].length >= metadata * PAGE_SIZE)
      invariant 0 <= i <= |regions|
      invariant forall k | 0 <= k < i && regions[k].usable :: regions[k].length < metadata * PAGE_SIZE
    {
      i := i + 1;
    }
    if i == |regions| {
      return None;
    }
    var start := regions[i].base / PAGE_SIZE;
    forall f: Frame | PageUsable(regions, f) ensures f < pages {
      UsableBelow(regions, f);
    }
    MetadataFits(regions, i, metadata);
    var usable := seq(pages, (f: Frame) => PageUsable(regions, f));
    var a := new Allocator(usable, start, start + metadata, regions);
    return Some(a);
  }

  lemma RoomFor(r: Area, n: nat)
    requires r.base % PAGE_SIZE == 0 && r.length >= n * PAGE_SIZE
    ensures r.base / PAGE_SIZE + n <= (r.base + r.length) / PAGE_SIZE <= Pages(r.base + r.length)
  {
    assert r.base + r.length >= PAGE_SIZE * (r.base / PAGE_SIZE + n);
  }
}
