/** Process memory: the table of mapped regions, the heap break and the page account
    (src/kernel/process.c). */
module Regions {
  import opened Pmm

  const MAX_REGIONS: nat := 32
  const WINDOW_START: nat := 0x1_0000_0000
  const WINDOW_END: nat := 0x7F00_0000_0000
  const STACK_ADDRESS: nat := 0x80_0000
  const LIMIT_PAGES: nat := 4096
  const MAX_UINT64: nat := 0xFFFF_FFFF_FFFF_FFFF

  datatype Protection = Protection(read: bool, write: bool, exec: bool)

  datatype Region = Region(start: nat, end: nat, protection: Protection, used: bool)

  datatype Error = Invalid | NoMemory
  datatype Result = Done(value: nat) | Failed(error: Error)

  predicate Aligned(a: int) { a % PAGE_SIZE == 0 }

  function AlignUp(a: nat): (r: nat)
    ensures Aligned(r) && a <= r < a + PAGE_SIZE && (Aligned(a) ==> r == a)
  {
    (a + PAGE_SIZE - 1) / PAGE_SIZE * PAGE_SIZE
  }

  predicate Covers(r: Region, a: int) { r.used && r.start <= a < r.end }

  predicate Overlaps(r: Region, lo: nat, hi: nat) { r.used && lo < r.end && r.start < hi }

  ghost predicate RegionOk(r: Region) {
    r.used ==>
      && Aligned(r.start) && Aligned(r.end) && WINDOW_START <= r.start < r.end <= WINDOW_END
      && r.protection.read && !(r.protection.write && r.protection.exec)
  }

  ghost predicate Disjoint(a: Region, b: Region) { a.used && b.used ==> a.end <= b.start || b.end <= a.start }

  /** Regions are page-aligned, inside the window and pairwise disjoint. */
  ghost predicate RegionsOk(rs: seq<Region>) {
    && (forall i | 0 <= i < |rs| :: RegionOk(rs[i]))
    && (forall i, j | 0 <= i < j < |rs| :: Disjoint(rs[i], rs[j]))
  }

  /** Some region holds the address. */
  ghost predicate Within(rs: seq<Region>, a: int) { exists i | 0 <= i < |rs| :: Covers(rs[i], a) }

  predicate Inside(a: int, lo: int, hi: int) { lo <= a < hi }

  /** What a process may do at an address: the protection of the region there, if any. */
  ghost function Access(rs: seq<Region>, a: int): Option<Protection> {
    if Within(rs, a) then
      var i :| 0 <= i < |rs| && Covers(rs[i], a); Some(rs[i].protection)
    else None
  }

  lemma AccessAt(rs: seq<Region>, i: nat, a: int)
    requires RegionsOk(rs) && i < |rs| && Covers(rs[i], a)
    ensures Access(rs, a) == Some(rs[i].protection)
  {
    var j :| 0 <= j < |rs| && Covers(rs[j], a) && Access(rs, a) == Some(rs[j].protection);
    assert j < i ==> Disjoint(rs[j], rs[i]);
    assert i < j ==> Disjoint(rs[i], rs[j]);
  }

  // ---- sizes ----

  function Size(r: Region): nat { if r.used && r.start <= r.end then r.end - r.start else 0 }

  function Total(rs: seq<Region>): nat { if rs == [] then 0 else Size(rs[0]) + Total(rs[1..]) }

  lemma {:induction false} TotalUpdate(rs: seq<Region>, i: nat, r: Region)
    requires i < |rs|
    ensures Total(rs[i := r]) == Total(rs) - Size(rs[i]) + Size(r)
  {
    if i == 0 {
      assert rs[i := r][1..] == rs[1..];
    } else {
      assert rs[i := r][1..] == rs[1..][i - 1 := r];
      TotalUpdate(rs[1..], i - 1, r);
    }
  }

  ghost function Span(lo: int, hi: int): (s: set<int>)
    ensures forall a :: a in s <==> Inside(a, lo, hi)
  {
    set a | lo <= a < hi && Inside(a, lo, hi)
  }

  lemma {:induction false} SpanSize(lo: int, hi: int)
    requires lo <= hi
    ensures |Span(lo, hi)| == hi - lo
    decreases hi - lo
  {
    if lo == hi {
      assert Span(lo, hi) == {};
    } else {
      SpanSize(lo, hi - 1);
      assert Span(lo, hi) == Span(lo, hi - 1) + {hi - 1};
    }
  }

  /** The addresses inside regions. */
  ghost function Covered(rs: seq<Region>): (s: set<int>)
    ensures forall a :: a in s <==> Within(rs, a)
  {
    if rs == [] then {} else
      CoveredHead(rs);
      (if rs[0].used then Span(rs[0].start, rs[0].end) else {}) + Covered(rs[1..])
  }

  lemma CoveredHead(rs: seq<Region>)
    requires rs != []
    ensures forall a :: Within(rs, a) <==> Covers(rs[0], a) || Within(rs[1..], a)
  {
    forall a ensures Within(rs, a) <==> Covers(rs[0], a) || Within(rs[1..], a) {
      if i :| 0 <= i < |rs| && Covers(rs[i], a) {
        assert i > 0 ==> Covers(rs[1..][i - 1], a);
      }
      if i :| 0 <= i < |rs[1..]| && Covers(rs[1..][i], a) {
        assert Covers(rs[i + 1], a);
      }
    }
  }

  lemma RestOk(rs: seq<Region>)
    requires RegionsOk(rs) && rs != []
    ensures RegionsOk(rs[1..]) && (rs[0].used ==> rs[0].start <= rs[0].end)
  {
    assert RegionOk(rs[0]);
    forall i | 0 <= i < |rs[1..]| ensures RegionOk(rs[1..][i]) {
      assert RegionOk(rs[i + 1]);
    }
    forall i, j | 0 <= i < j < |rs[1..]| ensures Disjoint(rs[1..][i], rs[1..][j]) {
      assert Disjoint(rs[i + 1], rs[j + 1]);
    }
  }

  lemma HeadApart(rs: seq<Region>)
    requires RegionsOk(rs) && rs != [] && rs[0].used
    ensures Span(rs[0].start, rs[0].end) !! Covered(rs[1..])
  {
    hide Covered;
    forall i | 0 <= i < |rs[1..]| ensures Disjoint(rs[0], rs[1..][i]) {
      assert Disjoint(rs[0], rs[i + 1]);
    }
  }

  /** For disjoint regions the sizes add up to the number of addresses covered. */
  lemma {:induction false} TotalIsCovered(rs: seq<Region>)
    requires RegionsOk(rs)
    ensures Total(rs) == |Covered(rs)|
  {
    if rs != [] {
      hide RegionsOk;
      var r, rest := rs[0], rs[1..];
      RestOk(rs);
      TotalIsCovered(rest);
      if r.used {
        SpanSize(r.start, r.end);
        HeadApart(rs);
      }
    }
  }

  /** Cutting a covered range out takes exactly its length off the total. */
  lemma CutTotal(rs: seq<Region>, rs': seq<Region>, lo: nat, hi: nat)
    requires RegionsOk(rs) && RegionsOk(rs') && lo <= hi
    requires forall a | Inside(a, lo, hi) :: Within(rs, a)
    requires forall a :: Within(rs', a) <==> Within(rs, a) && !Inside(a, lo, hi)
    ensures Total(rs') == Total(rs) - (hi - lo)
  {
    hide RegionsOk, Within, Inside, Total;
    TotalIsCovered(rs);
    TotalIsCovered(rs');
    SpanSize(lo, hi);
    assert Span(lo, hi) <= Covered(rs);
    assert Covered(rs') == Covered(rs) - Span(lo, hi);
  }

  // ---- places for a new region ----

  /** A block fits at `a`: page-aligned, inside the window, over no region and no mapped page. */
  ghost predicate Fits(rs: seq<Region>, resident: set<nat>, a: nat, length: nat) {
    && Aligned(a) && WINDOW_START <= a && a + length <= WINDOW_END
    && (forall i | 0 <= i < |rs| :: !Overlaps(rs[i], a, a + length))
    && (forall p | p in resident :: !Inside(p, a, a + length))
  }

  ghost predicate NoneFrom(rs: seq<Region>, resident: set<nat>, from: nat, length: nat) {
    forall a | from <= a :: !Fits(rs, resident, a, length)
  }

  ghost predicate FirstFrom(rs: seq<Region>, resident: set<nat>, from: nat, length: nat, a: nat) {
    from <= a && Fits(rs, resident, a, length) && forall b | from <= b < a :: !Fits(rs, resident, b, length)
  }

  /** The first gap from `from` on or, if there is none, the first gap of the window. */
  ghost predicate FirstFit(rs: seq<Region>, resident: set<nat>, from: nat, length: nat, a: nat) {
    || FirstFrom(rs, resident, from, length, a)
    || (NoneFrom(rs, resident, from, length) && FirstFrom(rs, resident, WINDOW_START, length, a))
  }

  /** Why process_mmap refuses a well-formed request: the table is full, the account would exceed
      its limit, or the window has no gap. */
  ghost predicate NoRoom(rs: seq<Region>, resident: set<nat>, committed: nat, length: nat) {
    || (forall i | 0 <= i < |rs| :: rs[i].used)
    || committed + length / PAGE_SIZE > LIMIT_PAGES
    || NoneFrom(rs, resident, WINDOW_START, length)
  }

  /** Why process_munmap refuses a range of mapped addresses: it lies strictly inside a region, and
      the table has no slot for the piece behind it. */
  ghost predicate NoPiece(rs: seq<Region>, lo: nat, hi: nat) {
    && (forall a | Inside(a, lo, hi) :: Within(rs, a))
    && (exists i | 0 <= i < |rs| :: Splits(rs[i], lo, hi))
    && (forall i | 0 <= i < |rs| :: rs[i].used)
  }

  /** Nothing fits before the end of a region in the way. */
  lemma SkipRegion(rs: seq<Region>, resident: set<nat>, candidate: nat, length: nat, i: nat, a: nat)
    requires i < |rs| && Overlaps(rs[i], candidate, candidate + length) && candidate <= a < rs[i].end
    ensures !Fits(rs, resident, a, length)
  {
    assert Overlaps(rs[i], a, a + length);
  }

  lemma AlignedNext(a: nat, b: nat)
    requires Aligned(a) && Aligned(b) && a <= b < a + PAGE_SIZE
    ensures a == b
  {
  }

  lemma AlignedAdd(a: nat, b: nat)
    requires Aligned(a) && Aligned(b)
    ensures Aligned(a + b)
  {
  }

  const HEAP_PROTECTION := Protection(true, true, false)

  lemma PageCounts(base: nat, a: nat)
    requires Aligned(base) && Aligned(a) && base <= a
    ensures (a - base) / PAGE_SIZE * PAGE_SIZE == a - base
  {
  }

  lemma MoreIsMore(a: nat, b: nat)
    requires a <= b
    ensures AlignUp(a) <= AlignUp(b)
  {
  }

  /** The record of one process; `resident` are the pages its page tables map. */
  class Process {
    const mappings: array<Region>
    var heapBase: nat
    var programBreak: nat
    var committed: nat
    var resident: set<nat>
    ghost var image: nat

    ghost predicate Valid()
      reads this, mappings
    {
      && mappings.Length == MAX_REGIONS && RegionsOk(mappings[..])
      && Aligned(heapBase) && heapBase <= programBreak <= STACK_ADDRESS - PAGE_SIZE
      && committed * PAGE_SIZE == image * PAGE_SIZE + (AlignUp(programBreak) - heapBase) + Total(mappings[..])
      && committed <= LIMIT_PAGES
      && (forall p | p in resident :: Aligned(p))
    }

    /** The record after an image has been loaded: no regions, an empty heap. */
    constructor Exec(heapBase: nat, image: nat, resident: set<nat>)
      requires Aligned(heapBase) && heapBase <= STACK_ADDRESS - PAGE_SIZE && image <= LIMIT_PAGES
      requires forall p | p in resident :: Aligned(p)
      ensures Valid() && fresh(mappings) && programBreak == this.heapBase == heapBase && committed == image
      ensures forall a :: Access(mappings[..], a) == None
    {
      mappings := new Region[MAX_REGIONS](_ => Region(0, 0, Protection(false, false, false), false));
      this.heapBase, programBreak, committed, this.resident, this.image := heapBase, heapBase, image, resident, image;
      new;
      NoRegions(mappings[..]);
    }

    /** process_fork copies the record. */
    constructor Fork(parent: Process)
      requires parent.Valid()
      ensures Valid() && fresh(mappings) && mappings[..] == parent.mappings[..]
      ensures heapBase == parent.heapBase && programBreak == parent.programBreak && committed == parent.committed
      ensures resident == parent.resident
    {
      mappings := new Region[MAX_REGIONS](i requires 0 <= i < MAX_REGIONS
        && parent.mappings.Length == MAX_REGIONS reads parent, parent.mappings => parent.mappings[i]);
      heapBase, programBreak, committed, resident, image := parent.heapBase, parent.programBreak, parent.committed,
        parent.resident, parent.image;
      new;
      assert mappings[..] == parent.mappings[..];
    }

    /** The end of the highest region in the way of a block, or 0. */
    method RegionInTheWay(candidate: nat, length: nat) returns (next: nat)
      ensures next == 0 <==>
        forall i | 0 <= i < mappings.Length ::
          !(Overlaps(mappings[i], candidate, candidate + length) && mappings[i].end > 0)
      ensures next != 0 ==>
        exists i | 0 <= i < mappings.Length ::
          Overlaps(mappings[i], candidate, candidate + length) && mappings[i].end == next
    {
      next := 0;
      var i := 0;
      while i < mappings.Length
        invariant 0 <= i <= mappings.Length
        invariant next == 0 <==>
          forall j | 0 <= j < i :: !(Overlaps(mappings[j], candidate, candidate + length) && mappings[j].end > 0)
        invariant next != 0 ==>
          exists j | 0 <= j < i :: Overlaps(mappings[j], candidate, candidate + length) && mappings[j].end == next
      {
        var region := mappings[i];
        if !(!region.used || candidate + length <= region.start || candidate >= region.end) {
          if region.end > next {
            next := region.end;
          }
        }
        i := i + 1;
      }
    }

    /** Some page of the block is mapped already. */
    method Occupied(candidate: nat, length: nat) returns (occupied: bool)
      requires Aligned(candidate) && forall p | p in resident :: Aligned(p)
      ensures occupied <==> exists p :: p in resident && Inside(p, candidate, candidate + length)
    {
      var end, page := candidate + length, candidate;
      while page < end
        invariant Aligned(page) && candidate <= page
        invariant forall p | p in resident :: !Inside(p, candidate, page)
      {
        if page in resident {
          assert Inside(page, candidate, end);
          return true;
        }
        forall p | p in resident && Inside(p, page, page + PAGE_SIZE) ensures p == page {
          AlignedNext(page, p);
        }
        page := page + PAGE_SIZE;
      }
      return false;
    }

    /** One attempt of select_mapping_address. */
    method Search(from: nat, length: nat) returns (r: Option<nat>)
      requires mappings.Length == MAX_REGIONS && RegionsOk(mappings[..]) && (forall p | p in resident :: Aligned(p))
      requires Aligned(from) && Aligned(length) && 0 < length <= WINDOW_END - WINDOW_START && WINDOW_START <= from
      ensures r.Some? ==> FirstFrom(mappings[..], resident, from, length, r.value)
      ensures r.None? <==> NoneFrom(mappings[..], resident, from, length)
    {
      hide RegionsOk, Fits;
      ghost var rs := mappings[..];
      var candidate := from;
      while candidate <= WINDOW_END - length
        invariant from <= candidate && Aligned(candidate)
        invariant forall b | from <= b < candidate :: !Fits(rs, resident, b, length)
        decreases WINDOW_END - candidate
      {
        var next := RegionInTheWay(candidate, length);
        if next != 0 {
          ghost var i :| 0 <= i < mappings.Length && Overlaps(mappings[i], candidate, candidate + length)
            && mappings[i].end == next;
          RegionAt(rs, i);
          forall b | candidate <= b < next ensures !Fits(rs, resident, b, length) {
            SkipRegion(rs, resident, candidate, length, i, b);
          }
          candidate := AlignUp(next);
        } else {
          var occupied := Occupied(candidate, length);
          if !occupied {
            FitsHere(rs, resident, candidate, length);
            return Some(candidate);
          }
          forall b | candidate <= b < candidate + PAGE_SIZE ensures !Fits(rs, resident, b, length) {
            NoFit(rs, resident, candidate, length, b);
          }
          AlignedAdd(candidate, PAGE_SIZE);
          candidate := candidate + PAGE_SIZE;
        }
      }
      forall b | from <= b ensures !Fits(rs, resident, b, length) {
        if b >= candidate {
          TooHigh(rs, resident, b, length);
        }
      }
      return None;
    }

    /** select_mapping_address: the first gap from the hint on, or else the first gap of all; it
        fails exactly when the window has no gap of that length. */
    method SelectAddress(hint: nat, length: nat) returns (r: Option<nat>)
      requires Valid() && Aligned(length) && 0 < length
      requires hint == 0 || (Aligned(hint) && WINDOW_START <= hint < WINDOW_END)
      ensures r.None? <==> NoneFrom(mappings[..], resident, WINDOW_START, length)
      ensures r.Some? ==> FirstFit(mappings[..], resident, if hint == 0 then WINDOW_START else hint, length, r.value)
    {
      hide RegionsOk, Fits, Total;
      if length > WINDOW_END - WINDOW_START {
        TooLong(mappings[..], resident, length);
        return None;
      }
      var from := if hint != 0 then hint else WINDOW_START;
      assert Aligned(WINDOW_START);
      r := Search(from, length);
      if r.None? && hint != 0 && hint != WINDOW_START {
        r := Search(WINDOW_START, length);
      }
    }

    method FreeSlot() returns (i: nat)
      ensures i <= mappings.Length && (i < mappings.Length ==> !mappings[i].used)
      ensures forall j | 0 <= j < i :: mappings[j].used
    {
      i := 0;
      while i < mappings.Length && mappings[i].used
        invariant 0 <= i <= mappings.Length && forall j | 0 <= j < i :: mappings[j].used
      {
        i := i + 1;
      }
    }

    /** process_mmap: a new region in a gap, charged to the account, or no change at all. */
    method Mmap(hint: nat, length: nat, protection: Protection, flagsOk: bool) returns (r: Result)
      requires Valid()
      modifies this`committed, mappings
      ensures Valid() && heapBase == old(heapBase) && programBreak == old(programBreak)
      ensures r == Failed(Invalid) <==> !MmapArguments(hint, length, protection, flagsOk)
      ensures r.Failed? ==> mappings[..] == old(mappings[..]) && committed == old(committed)
      ensures r == Failed(NoMemory) <==>
        MmapArguments(hint, length, protection, flagsOk)
          && old(NoRoom(mappings[..], resident, committed, AlignUp(length)))
      ensures r.Done? ==>
        old(FirstFit(mappings[..], resident, if hint == 0 then WINDOW_START else hint, AlignUp(length), r.value))
      ensures r.Done? ==> committed == old(committed) + AlignUp(length) / PAGE_SIZE
      ensures r.Done? ==>
        forall a :: Access(mappings[..], a)
          == if Inside(a, r.value, r.value + AlignUp(length)) then Some(protection) else old(Access(mappings[..], a))
    {
      hide Total, RegionsOk, AlignUp;
      if !MmapArguments(hint, length, protection, flagsOk) {
        return Failed(Invalid);
      }
      var rounded := AlignUp(length);
      var slot := FreeSlot();
      if slot == mappings.Length {
        return Failed(NoMemory);
      }
      var pages := rounded / PAGE_SIZE;
      if committed > LIMIT_PAGES || pages > LIMIT_PAGES - committed {
        return Failed(NoMemory);
      }
      var address := SelectAddress(hint, rounded);
      if address.None? {
        return Failed(NoMemory);
      }
      var region := Region(address.value, address.value + rounded, protection, true);
      ghost var rs := mappings[..];
      AddRegion(rs, resident, slot, region);
      hide RegionsOk, Total, Access, Fits, Aligned;
      mappings[slot] := region;
      assert mappings[..] == rs[slot := region];
      committed := committed + pages;
      assert pages * PAGE_SIZE == rounded;
      return Done(address.value);
    }

    /** mapping_covering */
    method FindCovering(address: nat) returns (i: nat)
      ensures i <= mappings.Length && (i < mappings.Length ==> Covers(mappings[i], address))
      ensures i == mappings.Length <==> !Within(mappings[..], address)
    {
      i := 0;
      while i < mappings.Length && !Covers(mappings[i], address)
        invariant 0 <= i <= mappings.Length && forall j | 0 <= j < i :: !Covers(mappings[j], address)
      {
        i := i + 1;
      }
    }

    /** The walk at the start of process_munmap: is every address of the range in a region? */
    method AllCovered(address: nat, end: nat) returns (ok: bool)
      ensures ok <==> forall a | Inside(a, address, end) :: Within(mappings[..], a)
    {
      var cursor := address;
      while cursor < end
        invariant address <= cursor
        invariant forall a | Inside(a, address, cursor) && a < end :: Within(mappings[..], a)
      {
        var i := FindCovering(cursor);
        if i == mappings.Length {
          assert Inside(cursor, address, end);
          return false;
        }
        var segmentEnd := mappings[i].end;
        if segmentEnd > end {
          segmentEnd := end;
        }
        forall a | Inside(a, cursor, segmentEnd) ensures Within(mappings[..], a) {
          assert Covers(mappings[..][i], a);
        }
        cursor := segmentEnd;
      }
      return true;
    }

    /** A free slot, if the range lies strictly inside a region; `needed` says whether it does. */
    method SplitSlot(address: nat, end: nat) returns (needed: bool, slot: nat)
      ensures needed <==> exists i | 0 <= i < mappings.Length :: Splits(mappings[i], address, end)
      ensures needed ==> slot <= mappings.Length && (slot < mappings.Length ==> !mappings[slot].used)
      ensures needed && slot == mappings.Length ==> forall i | 0 <= i < mappings.Length :: mappings[i].used
    {
      needed, slot := false, mappings.Length;
      var i := 0;
      while i < mappings.Length
        invariant 0 <= i <= mappings.Length && !needed
        invariant forall j | 0 <= j < i :: !Splits(mappings[j], address, end)
      {
        var region := mappings[i];
        if region.used && address < region.end && region.start < end && address > region.start && end < region.end {
          slot := FreeSlot();
          return true, slot;
        }
        i := i + 1;
      }
    }

    method UnmapPages(address: nat, end: nat)
      requires Aligned(address) && Aligned(end) && forall p | p in resident :: Aligned(p)
      modifies this`resident
      ensures forall p :: p in resident <==> p in old(resident) && !Inside(p, address, end)
    {
      var page := address;
      while page < end
        invariant address <= page && Aligned(page)
        invariant forall p :: p in resident <==> p in old(resident) && !(address <= p < page && p < end)
      {
        forall p | p in resident && page <= p < page + PAGE_SIZE ensures p == page {
          AlignedNext(page, p);
        }
        resident := resident - {page};
        page := page + PAGE_SIZE;
      }
    }

    /** The last loop of process_munmap. */
    method CutRegions(address: nat, end: nat, split: nat)
      requires RegionsOk(mappings[..]) && address < end && Aligned(address) && Aligned(end)
      requires forall i | 0 <= i < mappings.Length && Splits(mappings[i], address, end) ::
        split < mappings.Length && !mappings[split].used
      modifies mappings
      ensures RegionsOk(mappings[..])
      ensures forall a ::
        Access(mappings[..], a) == if Inside(a, address, end) then None else old(Access(mappings[..], a))
    {
      hide RegionsOk, Access;
      ghost var rs := mappings[..];
      var i := 0;
      while i < mappings.Length
        invariant 0 <= i <= mappings.Length && RegionsOk(mappings[..])
        invariant forall a | !Inside(a, address, end) :: Access(mappings[..], a) == Access(rs, a)
        invariant forall j | 0 <= j < i :: !Overlaps(mappings[j], address, end)
        invariant forall j | 0 <= j < mappings.Length && Splits(mappings[j], address, end) ::
          split < mappings.Length && !mappings[split].used
      {
        ghost var now := mappings[..];
        var region := mappings[i];
        if Overlaps(region, address, end) {
          if Splits(region, address, end) {
            SplitStep(now, i, split, address, end);
            mappings[split] := region.(start := end);
            mappings[i] := region.(end := address);
            assert mappings[..] == now[split := region.(start := end)][i := region.(end := address)];
          } else {
            CutStep(now, i, address, end);
            mappings[i] := Cut(region, address, end);
            assert mappings[..] == now[i := Cut(region, address, end)];
          }
        }
        i := i + 1;
      }
      NothingLeft(mappings[..], address, end);
    }

    /** process_munmap: on success exactly the requested pages lose their region and their memory;
        on failure nothing changes. */
    method Munmap(address: nat, length: nat) returns (r: Result)
      requires Valid()
      modifies this`committed, this`resident, mappings
      ensures Valid() && heapBase == old(heapBase) && programBreak == old(programBreak)
      ensures r == Failed(Invalid) <==>
        !MunmapArguments(address, length) || exists a ::
          Inside(a, address, address + AlignUp(length)) && !old(Within(mappings[..], a))
      ensures r == Failed(NoMemory) <==>
        MunmapArguments(address, length) && old(NoPiece(mappings[..], address, address + AlignUp(length)))
      ensures r.Failed? ==> mappings[..] == old(mappings[..]) && committed == old(committed)
      ensures r.Failed? ==> resident == old(resident)
      ensures r.Done? ==> committed == old(committed) - AlignUp(length) / PAGE_SIZE
      ensures r.Done? ==>
        forall a :: Access(mappings[..], a) == if Inside(a, address, address + AlignUp(length)) then None
          else old(Access(mappings[..], a))
      ensures r.Done? ==> forall p :: p in resident <==>
        p in old(resident) && !Inside(p, address, address + AlignUp(length))
    {
      hide RegionsOk, Access, Total, Within, Aligned, Splits, Inside;
      if !MunmapArguments(address, length) {
        return Failed(Invalid);
      }
      var rounded := AlignUp(length);
      var end := address + rounded;
      var covered := AllCovered(address, end);
      if !covered {
        return Failed(Invalid);
      }
      var needed, split := SplitSlot(address, end);
      if needed && split == mappings.Length {
        return Failed(NoMemory);
      }
      ghost var rs := mappings[..];
      AlignedAdd(address, rounded);
      UnmapPages(address, end);
      CutRegions(address, end, split);
      Accounted(rs, mappings[..], address, end);
      committed := committed - rounded / PAGE_SIZE;
      return Done(0);
    }

    /** process_brk: the account follows the break page by page; shrinking gives the pages back. */
    method Brk(requested: nat) returns (r: Result)
      requires Valid()
      modifies this`committed, this`resident, this`programBreak
      ensures Valid() && heapBase == old(heapBase)
      ensures requested == 0 ==> r == Done(programBreak)
      ensures r == Failed(Invalid) <==> requested != 0 && !(heapBase <= requested <= STACK_ADDRESS - PAGE_SIZE)
      ensures r == Failed(NoMemory) <==>
        && requested != 0 && heapBase <= requested <= STACK_ADDRESS - PAGE_SIZE
        && old(committed) * PAGE_SIZE + AlignUp(requested) > LIMIT_PAGES * PAGE_SIZE + AlignUp(old(programBreak))
        && AlignUp(requested) > AlignUp(old(programBreak))
      ensures r.Failed? || requested == 0 ==>
        programBreak == old(programBreak) && committed == old(committed) && resident == old(resident)
      ensures r.Done? && requested != 0 ==> programBreak == requested == r.value
      ensures r.Done? && requested != 0 ==> forall p :: p in resident <==>
        p in old(resident) && !Inside(p, AlignUp(requested), AlignUp(old(programBreak)))
    {
      hide Aligned, RegionsOk, Total, AlignUp;
      if requested == 0 {
        return Done(programBreak);
      }
      if requested < heapBase || requested > STACK_ADDRESS - PAGE_SIZE {
        return Failed(Invalid);
      }
      var oldPage, newPage := AlignUp(programBreak), AlignUp(requested);
      PageCounts(heapBase, oldPage);
      PageCounts(heapBase, newPage);
      var oldHeap, newHeap := (oldPage - heapBase) / PAGE_SIZE, (newPage - heapBase) / PAGE_SIZE;
      if newHeap > oldHeap {
        if committed > LIMIT_PAGES || newHeap - oldHeap > LIMIT_PAGES - committed {
          return Failed(NoMemory);
        }
      }
      if requested <= programBreak {
        UnmapPages(newPage, oldPage);
      } else {
        MoreIsMore(programBreak, requested);
      }
      programBreak := requested;
      if newHeap >= oldHeap {
        committed := committed + (newHeap - oldHeap);
      } else {
        committed := committed - (oldHeap - newHeap);
      }
      return Done(requested);
    }

    /** What process_handle_page_fault may map at an address, if anything: never a page that is both
        writable and executable, and never more than the heap or the region there allows. */
    method FaultProtection(address: nat, write: bool, exec: bool) returns (r: Option<Protection>)
      requires Valid()
      ensures r.Some? ==> r.value.read && !(r.value.write && r.value.exec) && (write ==> r.value.write)
      ensures r.Some? ==> (exec ==> r.value.exec)
      ensures r.Some? ==>
        if heapBase <= address < programBreak then r.value == HEAP_PROTECTION else Access(mappings[..], address) == r
      ensures r.None? <==> if heapBase <= address < programBreak then exec else
        var p := Access(mappings[..], address); p.None? || (write && !p.value.write) || (exec && !p.value.exec)
    {
      hide Total;
      if heapBase <= address < programBreak {
        return if exec then None else Some(HEAP_PROTECTION);
      }
      var i := FindCovering(address);
      AccessWithin(mappings[..], address);
      if i == mappings.Length {
        return None;
      }
      AccessAt(mappings[..], i, address);
      assert RegionOk(mappings[..][i]);
      var p := mappings[i].protection;
      if !p.read || (write && !p.write) || (exec && !p.exec) {
        return None;
      }
      return Some(p);
    }
  }

  lemma {:induction false} NoRegions(rs: seq<Region>)
    requires forall i | 0 <= i < |rs| :: !rs[i].used
    ensures Total(rs) == 0
  {
    if rs != [] {
      NoRegions(rs[1..]);
    }
  }

  lemma RegionAt(rs: seq<Region>, i: nat)
    requires RegionsOk(rs) && i < |rs| && rs[i].used
    ensures RegionOk(rs[i])
  {
  }

  lemma FitsHere(rs: seq<Region>, resident: set<nat>, a: nat, length: nat)
    requires RegionsOk(rs) && Aligned(a) && WINDOW_START <= a && a + length <= WINDOW_END
    requires forall i | 0 <= i < |rs| :: !(Overlaps(rs[i], a, a + length) && rs[i].end > 0)
    requires !exists p :: p in resident && Inside(p, a, a + length)
    ensures Fits(rs, resident, a, length)
  {
    forall i | 0 <= i < |rs| ensures !Overlaps(rs[i], a, a + length) {
      assert RegionOk(rs[i]);
    }
  }

  lemma NoFit(rs: seq<Region>, resident: set<nat>, candidate: nat, length: nat, b: nat)
    requires Aligned(candidate) && candidate <= b < candidate + PAGE_SIZE
    requires exists p :: p in resident && Inside(p, candidate, candidate + length)
    ensures !Fits(rs, resident, b, length)
  {
    if Aligned(b) {
      AlignedNext(candidate, b);
    }
  }

  lemma TooLong(rs: seq<Region>, resident: set<nat>, length: nat)
    requires length > WINDOW_END - WINDOW_START
    ensures NoneFrom(rs, resident, WINDOW_START, length)
  {
  }

  lemma TooHigh(rs: seq<Region>, resident: set<nat>, b: nat, length: nat)
    requires b + length > WINDOW_END
    ensures !Fits(rs, resident, b, length)
  {
  }

  predicate MmapArguments(hint: nat, length: nat, protection: Protection, flagsOk: bool) {
    && 0 < length <= MAX_UINT64 - (PAGE_SIZE - 1)
    && protection.read && !(protection.write && protection.exec) && flagsOk
    && (hint == 0 || (Aligned(hint) && WINDOW_START <= hint < WINDOW_END))
  }

  /** The tests of mmap and munmap as a caller sees them; they are written so that nothing overflows. */
  lemma ArgumentsAre(address: nat, length: nat, protection: Protection)
    requires address < WINDOW_END && length < 0x1_0000_0000_0000
    ensures MmapArguments(address, length, protection, true) <==>
      && length > 0 && protection.read && !(protection.write && protection.exec)
      && (address == 0 || (address >= 0x1_0000_0000 && address % PAGE_SIZE == 0))
    ensures MunmapArguments(address, length) <==>
      && length > 0 && address >= 0x1_0000_0000 && address % PAGE_SIZE == 0 && address + length <= 0x7F00_0000_0000
  {
  }

  /** A region placed where it fits changes access there and nowhere else. */
  lemma AddRegion(rs: seq<Region>, resident: set<nat>, slot: nat, r: Region)
    requires RegionsOk(rs) && slot < |rs| && !rs[slot].used && r.used && r.start < r.end && Aligned(r.end)
    requires r.protection.read && !(r.protection.write && r.protection.exec)
    requires Fits(rs, resident, r.start, r.end - r.start)
    ensures RegionsOk(rs[slot := r]) && Total(rs[slot := r]) == Total(rs) + (r.end - r.start)
    ensures forall a ::
      Access(rs[slot := r], a) == if Inside(a, r.start, r.end) then Some(r.protection) else Access(rs, a)
  {
    var rs' := rs[slot := r];
    TotalUpdate(rs, slot, r);
    forall i, j | 0 <= i < j < |rs'| ensures Disjoint(rs'[i], rs'[j]) {
      assert Disjoint(rs[i], rs[j]);
    }
    assert RegionsOk(rs');
    forall a ensures Access(rs', a) == if Inside(a, r.start, r.end) then Some(r.protection) else Access(rs, a) {
      if Inside(a, r.start, r.end) {
        AccessAt(rs', slot, a);
      } else {
        AccessSame(rs, rs', slot, a);
      }
    }
  }

  lemma AccessSame(rs: seq<Region>, rs': seq<Region>, slot: nat, a: int)
    requires RegionsOk(rs) && RegionsOk(rs') && slot < |rs| == |rs'| && rs' == rs[slot := rs'[slot]]
    requires !Covers(rs[slot], a) && !Covers(rs'[slot], a)
    ensures Access(rs', a) == Access(rs, a)
  {
    if Within(rs, a) {
      var i :| 0 <= i < |rs| && Covers(rs[i], a);
      AccessAt(rs, i, a);
      AccessAt(rs', i, a);
    }
  }

  // ---- cutting a range out ----

  /** The range lies strictly inside the region, so that two pieces remain. */
  predicate Splits(r: Region, lo: nat, hi: nat) { Overlaps(r, lo, hi) && r.start < lo && hi < r.end }

  /** What remains of a region of which at most one piece remains. */
  function Cut(r: Region, lo: nat, hi: nat): Region {
    var cutStart := if lo > r.start then lo else r.start;
    var cutEnd := if hi < r.end then hi else r.end;
    if cutStart == r.start && cutEnd == r.end then r.(used := false)
    else if cutStart == r.start then r.(start := cutEnd)
    else r.(end := cutStart)
  }

  predicate MunmapArguments(address: nat, length: nat) {
    && Aligned(address) && 0 < length <= MAX_UINT64 - (PAGE_SIZE - 1)
    && WINDOW_START <= address < WINDOW_END && AlignUp(length) <= WINDOW_END - address
  }

  lemma CutStep(rs: seq<Region>, i: nat, lo: nat, hi: nat)
    requires RegionsOk(rs) && i < |rs| && Overlaps(rs[i], lo, hi) && !Splits(rs[i], lo, hi) && Aligned(lo)
    requires Aligned(hi) && lo < hi
    ensures RegionsOk(rs[i := Cut(rs[i], lo, hi)]) && !Overlaps(Cut(rs[i], lo, hi), lo, hi)
    ensures forall a | !Inside(a, lo, hi) :: Access(rs[i := Cut(rs[i], lo, hi)], a) == Access(rs, a)
  {
    var r, r' := rs[i], Cut(rs[i], lo, hi);
    var rs' := rs[i := r'];
    assert RegionOk(r);
    assert RegionOk(r');
    forall j, k | 0 <= j < k < |rs'| ensures Disjoint(rs'[j], rs'[k]) {
      assert Disjoint(rs[j], rs[k]);
    }
    assert RegionsOk(rs');
    forall a | !Inside(a, lo, hi) ensures Access(rs', a) == Access(rs, a) {
      if Covers(r, a) {
        AccessAt(rs, i, a);
        AccessAt(rs', i, a);
      } else {
        AccessSame(rs, rs', i, a);
      }
    }
  }

  lemma SplitStep(rs: seq<Region>, i: nat, split: nat, lo: nat, hi: nat)
    requires RegionsOk(rs) && i < |rs| && Splits(rs[i], lo, hi) && split < |rs| && !rs[split].used && Aligned(lo)
    requires Aligned(hi) && lo < hi
    ensures var rs' := rs[split := rs[i].(start := hi)][i := rs[i].(end := lo)];
      && RegionsOk(rs')
      && (forall j | 0 <= j < |rs'| :: Overlaps(rs'[j], lo, hi) ==> j != i && j != split && rs'[j] == rs[j])
      && (forall j | 0 <= j < |rs'| :: !Splits(rs'[j], lo, hi))
      && forall a | !Inside(a, lo, hi) :: Access(rs', a) == Access(rs, a)
  {
    var r := rs[i];
    var rs' := rs[split := r.(start := hi)][i := r.(end := lo)];
    assert RegionOk(r);
    SplitDisjoint(rs, i, split, lo, hi);
    forall j | 0 <= j < |rs'| ensures !Splits(rs'[j], lo, hi) {
      assert j < i ==> Disjoint(rs[j], rs[i]);
      assert i < j ==> Disjoint(rs[i], rs[j]);
    }
    forall a | !Inside(a, lo, hi) ensures Access(rs', a) == Access(rs, a) {
      if Covers(r, a) {
        AccessAt(rs, i, a);
        AccessAt(rs', if a < lo then i else split, a);
      } else {
        AccessElsewhere(rs, rs', i, split, a);
      }
    }
  }

  lemma SplitDisjoint(rs: seq<Region>, i: nat, split: nat, lo: nat, hi: nat)
    requires RegionsOk(rs) && i < |rs| && Splits(rs[i], lo, hi) && split < |rs| && !rs[split].used && Aligned(lo)
    requires Aligned(hi) && lo < hi
    ensures RegionsOk(rs[split := rs[i].(start := hi)][i := rs[i].(end := lo)])
  {
    var rs' := rs[split := rs[i].(start := hi)][i := rs[i].(end := lo)];
    assert RegionOk(rs[i]);
    forall j, k | 0 <= j < k < |rs'| ensures Disjoint(rs'[j], rs'[k]) {
      assert Disjoint(rs[j], rs[k]);
      assert j < i ==> Disjoint(rs[j], rs[i]);
      assert i < j ==> Disjoint(rs[i], rs[j]);
      assert k < i ==> Disjoint(rs[k], rs[i]);
      assert i < k ==> Disjoint(rs[i], rs[k]);
    }
  }

  lemma AccessElsewhere(rs: seq<Region>, rs': seq<Region>, i: nat, split: nat, a: int)
    requires RegionsOk(rs) && RegionsOk(rs') && |rs| == |rs'| && i < |rs| && split < |rs|
    requires !Covers(rs[i], a) && !Covers(rs'[i], a) && !Covers(rs[split], a) && !Covers(rs'[split], a)
    requires forall j | 0 <= j < |rs| && j != i && j != split :: rs'[j] == rs[j]
    ensures Access(rs', a) == Access(rs, a)
  {
    if Within(rs, a) {
      var j :| 0 <= j < |rs| && Covers(rs[j], a);
      AccessAt(rs, j, a);
      AccessAt(rs', j, a);
    }
  }

  lemma NothingLeft(rs: seq<Region>, lo: nat, hi: nat)
    requires forall j | 0 <= j < |rs| :: !Overlaps(rs[j], lo, hi)
    ensures forall a | Inside(a, lo, hi) :: Access(rs, a) == None
  {
  }

  lemma AccessWithin(rs: seq<Region>, a: int)
    ensures Access(rs, a).Some? <==> Within(rs, a)
  {
  }

  lemma Accounted(rs: seq<Region>, rs': seq<Region>, lo: nat, hi: nat)
    requires RegionsOk(rs) && RegionsOk(rs') && lo <= hi && forall a | Inside(a, lo, hi) :: Within(rs, a)
    requires forall a :: Access(rs', a) == if Inside(a, lo, hi) then None else Access(rs, a)
    ensures Total(rs') == Total(rs) - (hi - lo)
  {
    hide Access, Within, Inside;
    forall a ensures Within(rs', a) <==> Within(rs, a) && !Inside(a, lo, hi) {
      AccessWithin(rs, a);
      AccessWithin(rs', a);
    }
    CutTotal(rs, rs', lo, hi);
  }
}
