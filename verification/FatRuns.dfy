/** Whole runs of file operations on a FAT32 volume: the directories on disk always describe the
    files there are, and the files behave as a map from names to bytes (src/fs/fat32.c:884-1018). */
module FatRuns {
  import opened Pmm
  import opened FatSlots
  import opened FatVolume
  import LongName

  /** Where a file's entry is: its directory, and its slots there, the short entry last. */
  datatype Entry = Entry(dir: nat, slots: seq<Slot>)

  /** The entry's slots follow each other in the directory from place `p` on, are all in use, and the
      last one tells where the file is and how long. */
  ghost predicate EntryOk(d: Disk, files: map<nat, File>, spc: nat, file: File, e: Entry, p: nat) {
    && e.dir in files && files[e.dir].directory && e.dir in d.chains && e.slots != []
    && p + |e.slots| <= |Places(d.chains[e.dir], spc)|
    && e.slots == Places(d.chains[e.dir], spc)[p..p + |e.slots|]
    && (forall k | p <= k < p + |e.slots| :: InUse(d, e.dir, spc, k))
    && Describes(d.data, e.slots[|e.slots| - 1], file)
  }

  ghost predicate Separate(a: Entry, p: nat, b: Entry, q: nat) {
    a.dir == b.dir ==> p + |a.slots| <= q || q + |b.slots| <= p
  }

  /** Every file has its entry, and no two share a slot. */
  ghost predicate Filed(d: Disk, files: map<nat, File>, spc: nat, book: map<nat, Entry>, at: map<nat, nat>) {
    && book.Keys == at.Keys && (forall id :: id in book <==> id in files && !files[id].directory)
    && (forall id | id in book :: EntryOk(d, files, spc, files[id], book[id], at[id]))
    && (forall a, b | a in book && b in book && a != b :: Separate(book[a], at[a], book[b], at[b]))
  }

  // ---- an entry that is left alone stays an entry ----

  /** The places of the directory there were are there still, and none has become an end mark. */
  ghost predicate NoNewEnd(d: Disk, d': Disk, dir: nat, spc: nat) {
    && dir in d.chains && dir in d'.chains && d.chains[dir] <= d'.chains[dir]
    && AllOk(d.data, Places(d.chains[dir], spc)) && AllOk(d'.data, Places(d'.chains[dir], spc))
    && (forall at | at in Places(d.chains[dir], spc) && SlotOk(d.data, at) && SlotOk(d'.data, at) ::
          Mark(d'.data, at) == END_MARK ==> Mark(d.data, at) == END_MARK)
  }

  lemma UsedStill(d: Disk, d': Disk, dir: nat, spc: nat, k: nat)
    requires NoNewEnd(d, d', dir, spc) && InUse(d, dir, spc, k)
    requires var at := Places(d.chains[dir], spc)[k];
      SlotOk(d.data, at) && SlotOk(d'.data, at) && Mark(d'.data, at) == Mark(d.data, at)
    ensures InUse(d', dir, spc, k) && Places(d'.chains[dir], spc)[k] == Places(d.chains[dir], spc)[k]
  {
    hide Places, Mark, SlotOk;
    var ps, ps' := Places(d.chains[dir], spc), Places(d'.chains[dir], spc);
    assert d.chains[dir] == d'.chains[dir][..|d.chains[dir]|];
    PlacesPrefix(d'.chains[dir], |d.chains[dir]|, spc);
    UsedIff(d.data, ps, k);
    forall j | 0 <= j <= k ensures Mark(d'.data, ps'[j]) != END_MARK {
      assert ps'[j] == ps[j] && ps[j] in ps;
    }
    UsedIff(d'.data, ps', k);
  }

  lemma EntryStill(d: Disk, d': Disk, files: map<nat, File>, files': map<nat, File>, spc: nat, file: File, file': File,
                   e: Entry, p: nat)
    requires EntryOk(d, files, spc, file, e, p) && e.dir in files' && files'[e.dir].directory
    requires NoNewEnd(d, d', e.dir, spc)
    requires forall i | 0 <= i < |e.slots| ::
      SlotOk(d.data, e.slots[i]) && SlotOk(d'.data, e.slots[i]) && Mark(d'.data, e.slots[i]) == Mark(d.data, e.slots[i])
    requires Describes(d'.data, e.slots[|e.slots| - 1], file')
    ensures EntryOk(d', files', spc, file', e, p)
  {
    hide Places, Mark, SlotOk, Describes, NoNewEnd, InUse;
    SamePlaces(d, d', e.dir, spc);
    var ps := Places(d.chains[e.dir], spc);
    forall k | p <= k < p + |e.slots| ensures InUse(d', e.dir, spc, k) {
      assert e.slots[k - p] == ps[k] && InUse(d, e.dir, spc, k);
      UsedStill(d, d', e.dir, spc, k);
    }
  }

  lemma SamePlaces(d: Disk, d': Disk, dir: nat, spc: nat)
    requires NoNewEnd(d, d', dir, spc)
    ensures dir in d.chains && dir in d'.chains && Places(d.chains[dir], spc) <= Places(d'.chains[dir], spc)
  {
    hide Places, Mark, SlotOk;
    assert d.chains[dir] == d'.chains[dir][..|d.chains[dir]|];
    PlacesPrefix(d'.chains[dir], |d.chains[dir]|, spc);
  }

  /** An entry whose slots are as before. */
  lemma EntrySame(d: Disk, d': Disk, files: map<nat, File>, files': map<nat, File>, spc: nat, file: File, e: Entry,
                  p: nat)
    requires EntryOk(d, files, spc, file, e, p) && e.dir in files' && files'[e.dir].directory
    requires NoNewEnd(d, d', e.dir, spc)
    requires forall i | 0 <= i < |e.slots| :: OldSlot(d.data, d'.data, e.slots[i])
    ensures EntryOk(d', files', spc, file, e, p)
  {
    hide Places, Mark, NoNewEnd, InUse, EntryCluster, EntrySize, EntryIsDirectory;
    forall i | 0 <= i < |e.slots|
      ensures SlotOk(d.data, e.slots[i]) && SlotOk(d'.data, e.slots[i])
        && Mark(d'.data, e.slots[i]) == Mark(d.data, e.slots[i]) {
      OldMark(d.data, d'.data, e.slots[i]);
    }
    EntryStill(d, d', files, files', spc, file, file, e, p);
  }

  // ---- what each operation does to the entries ----

  /** The volume behind a disk is well formed. */
  ghost predicate DiskOk(d: Disk, n: nat, spc: nat, files: map<nat, File>) {
    |d.table| == n <= END && Chained(d.table, spc, files, d.chains) && DataOk(d.data, n, spc)
  }

  lemma DirPlaces(d: Disk, n: nat, spc: nat, files: map<nat, File>, dir: nat)
    requires DiskOk(d, n, spc, files) && dir in files
    ensures dir in d.chains && AllOk(d.data, Places(d.chains[dir], spc))
    ensures forall at | at in Places(d.chains[dir], spc) :: at.cluster in d.chains[dir] && SlotOk(d.data, at)
  {
    hide IsChain, Places, DataOk;
    DirectoryOk(d.table, d.data, n, spc, files, d.chains, dir);
    var ps := Places(d.chains[dir], spc);
    forall at | at in ps ensures at.cluster in d.chains[dir] && SlotOk(d.data, at) {
      var k :| 0 <= k < |ps| && ps[k] == at;
      PlaceCluster(d.chains[dir], spc, k);
    }
  }

  lemma KeysOf(d: Disk, n: nat, spc: nat, files: map<nat, File>)
    requires DiskOk(d, n, spc, files)
    ensures d.chains.Keys == files.Keys
  {
  }

  lemma ApartOf(d: Disk, n: nat, spc: nat, files: map<nat, File>, a: nat, b: nat)
    requires DiskOk(d, n, spc, files) && a in files && b in files && a != b
    ensures a in d.chains && b in d.chains && forall c | c in d.chains[a] :: c !in d.chains[b]
  {
    assert Apart(d.chains[a], d.chains[b]);
  }

  /** A directory whose clusters are as before has the slots it had. */
  lemma ClustersSame(d: Disk, d': Disk, n: nat, spc: nat, files: map<nat, File>, files': map<nat, File>, dir: nat)
    requires DiskOk(d, n, spc, files) && DiskOk(d', n, spc, files') && dir in files && dir in files' && dir in d.chains
    requires dir in d'.chains
    requires d.chains[dir] <= d'.chains[dir]
    requires forall c | c in d.chains[dir] && c < |d.data| && c < |d'.data| :: d'.data[c] == d.data[c]
    ensures NoNewEnd(d, d', dir, spc) && forall at | at in Places(d.chains[dir], spc) :: OldSlot(d.data, d'.data, at)
  {
    hide IsChain, Places, DataOk, Chained, Mark, SlotBytes;
    SameSize(d, d', n, spc, files, files');
    DirPlaces(d, n, spc, files, dir);
    DirPlaces(d', n, spc, files', dir);
    forall at | at in Places(d.chains[dir], spc) ensures OldSlot(d.data, d'.data, at) {
      SameCluster(d.data, d'.data, at);
    }
    forall at | at in Places(d.chains[dir], spc)
      ensures OldSlot(d.data, d'.data, at) && Mark(d'.data, at) == Mark(d.data, at) {
      OldMark(d.data, d'.data, at);
    }
  }

  lemma SameSize(d: Disk, d': Disk, n: nat, spc: nat, files: map<nat, File>, files': map<nat, File>)
    requires DiskOk(d, n, spc, files) && DiskOk(d', n, spc, files')
    ensures |d.data| == |d'.data| == n
  {
  }

  /** A failed creation leaves every entry as it was. */
  lemma RefusedFiled(d: Disk, d': Disk, n: nat, spc: nat, files: map<nat, File>, book: map<nat, Entry>,
                     at: map<nat, nat>, dir: nat)
    requires DiskOk(d, n, spc, files) && DiskOk(d', n, spc, files) && Filed(d, files, spc, book, at) && dir in files
    requires OthersKept(files, files, d.chains, d'.chains, dir) && DataKept(d, d', dir)
    ensures Filed(d', files, spc, book, at)
  {
    hide IsChain, Places, Chained, DataOk, EntryOk, DiskOk, Separate;
    SameSize(d, d', n, spc, files, files);
    forall id | id in book ensures EntryOk(d', files, spc, files[id], book[id], at[id]) {
      var e := book[id];
      EntryParts(d, files, spc, files[id], e, at[id]);
      if e.dir != dir {
        ApartOf(d', n, spc, files, e.dir, dir);
      }
      ClustersSame(d, d', n, spc, files, files, e.dir);
      SlotsKept(d, d', files, files, spc, files[id], e, at[id]);
    }
  }

  lemma EntryParts(d: Disk, files: map<nat, File>, spc: nat, file: File, e: Entry, p: nat)
    requires EntryOk(d, files, spc, file, e, p)
    ensures e.dir in files && files[e.dir].directory && e.dir in d.chains && e.slots != []
    ensures forall i | 0 <= i < |e.slots| :: e.slots[i] in Places(d.chains[e.dir], spc)
  {
    hide Places;
  }

  lemma SlotsKept(d: Disk, d': Disk, files: map<nat, File>, files': map<nat, File>, spc: nat, file: File, e: Entry,
                  p: nat)
    requires EntryOk(d, files, spc, file, e, p) && e.dir in files' && files'[e.dir].directory
    requires NoNewEnd(d, d', e.dir, spc)
    requires forall x | x in Places(d.chains[e.dir], spc) :: OldSlot(d.data, d'.data, x)
    ensures EntryOk(d', files', spc, file, e, p)
  {
    hide Places, NoNewEnd, OldSlot, EntryOk;
    EntryParts(d, files, spc, file, e, p);
    EntrySame(d, d', files, files', spc, file, e, p);
  }

  /** A new entry: the ones there were are undisturbed, and the new one is an entry. */
  lemma CreatedFiled(d: Disk, d': Disk, n: nat, spc: nat, files: map<nat, File>, files': map<nat, File>,
                     book: map<nat, Entry>, at: map<nat, nat>,
                     id: nat, e: Entry, p: nat, items: seq<seq<byte>>)
    requires DiskOk(d, n, spc, files) && DiskOk(d', n, spc, files') && Filed(d, files, spc, book, at)
    requires id !in files && id in files' && files' == files[id := files'[id]] && !files'[id].directory
    requires e.dir in files && files[e.dir].directory
    requires OthersKept(files, files', d.chains, d'.chains, e.dir) && Entered(d, d', e.dir, spc, p, items)
    requires items != []
    requires forall i | 0 <= i < |items| :: |items[i]| == SLOT && UsedMark(items[i][0])
    requires |e.slots| == |items| && e.slots == Places(d'.chains[e.dir], spc)[p..p + |items|]
    requires Describes(d'.data, e.slots[|e.slots| - 1], files'[id])
    ensures Filed(d', files', spc, book[id := e], at[id := p])
  {
    hide IsChain, Places, Chained, DataOk, EntryOk, DiskOk, Separate, Entered, OthersKept, Describes, Mark;
    forall a | a in book
      ensures EntryOk(d', files', spc, files'[a], book[a], at[a]) && Separate(book[a], at[a], e, p)
        && Separate(e, p, book[a], at[a]) {
      CreatedOther(d, d', n, spc, files, files', files[a], book[a], at[a], e, p, items);
    }
    CreatedNew(d, d', files', spc, files'[id], e, p, items);
  }

  lemma CreatedNew(d: Disk, d': Disk, files': map<nat, File>, spc: nat, file: File, e: Entry, p: nat,
                   items: seq<seq<byte>>)
    requires Entered(d, d', e.dir, spc, p, items) && items != [] && e.dir in files' && files'[e.dir].directory
    requires forall i | 0 <= i < |items| :: |items[i]| == SLOT && UsedMark(items[i][0])
    requires |e.slots| == |items| && e.slots == Places(d'.chains[e.dir], spc)[p..p + |items|]
    requires Describes(d'.data, e.slots[|e.slots| - 1], file)
    ensures EntryOk(d', files', spc, file, e, p)
  {
    hide Places, Describes, Mark, InUse, UsedMark;
    forall k | p <= k < p + |items| ensures InUse(d', e.dir, spc, k) {
      EntriesKept(d, d', e.dir, spc, p, items, k);
    }
  }

  lemma CreatedOther(d: Disk, d': Disk, n: nat, spc: nat, files: map<nat, File>, files': map<nat, File>, file: File,
                     o: Entry, q: nat,
                     e: Entry, p: nat, items: seq<seq<byte>>)
    requires DiskOk(d, n, spc, files) && DiskOk(d', n, spc, files') && EntryOk(d, files, spc, file, o, q)
    requires e.dir in files
    requires OthersKept(files, files', d.chains, d'.chains, e.dir) && Entered(d, d', e.dir, spc, p, items)
    requires (forall i | 0 <= i < |items| :: |items[i]| == SLOT && UsedMark(items[i][0])) && |e.slots| == |items| > 0
    ensures EntryOk(d', files', spc, file, o, q) && Separate(o, q, e, p) && Separate(e, p, o, q)
  {
    hide IsChain, Places, Chained, DataOk, DiskOk, Entered, Describes, Mark, EntryOk;
    EntryParts(d, files, spc, file, o, q);
    if o.dir == e.dir {
      EnteredNoEnd(d, d', e.dir, spc, p, items);
      OldEntry(d, d', files, spc, file, o, q, e, p, items);
      EntrySame(d, d', files, files', spc, file, o, q);
    } else {
      SameSize(d, d', n, spc, files, files');
      ApartOf(d', n, spc, files', o.dir, e.dir);
      EnteredOutside(d, d', e.dir, spc, p, items);
      ClustersSame(d, d', n, spc, files, files', o.dir);
      SlotsKept(d, d', files, files', spc, file, o, q);
    }
  }

  lemma EnteredOutside(d: Disk, d': Disk, dir: nat, spc: nat, p: nat, items: seq<seq<byte>>)
    requires Entered(d, d', dir, spc, p, items)
    ensures dir in d'.chains && |d'.data| == |d.data|
    ensures forall c | 0 <= c < |d.data| && c !in d'.chains[dir] :: d'.data[c] == d.data[c]
  {
    hide Places, Free, OldSlot, AllOk;
  }

  lemma EnteredNoEnd(d: Disk, d': Disk, dir: nat, spc: nat, p: nat, items: seq<seq<byte>>)
    requires Entered(d, d', dir, spc, p, items)
    requires forall i | 0 <= i < |items| :: |items[i]| == SLOT && UsedMark(items[i][0])
    ensures NoNewEnd(d, d', dir, spc)
  {
    hide Places, Free, Mark, OldSlot, UsedMark, SlotOk;
    var ps := Places(d.chains[dir], spc);
    forall x | x in ps && SlotOk(d.data, x) && SlotOk(d'.data, x)
      ensures Mark(d'.data, x) == END_MARK ==> Mark(d.data, x) == END_MARK {
      var k :| 0 <= k < |ps| && ps[k] == x;
      MarkAfter(d, d', dir, spc, p, items, k);
      if p <= k < p + |items| {
        SamePlaceAt(d, d', dir, spc, k);
        NotEnd(Mark(d'.data, x));
      } else {
        OldMark(d.data, d'.data, x);
      }
    }
  }

  lemma NotEnd(b: byte)
    requires UsedMark(b)
    ensures b != END_MARK
  {
  }

  lemma SamePlaceAt(d: Disk, d': Disk, dir: nat, spc: nat, k: nat)
    requires dir in d.chains && dir in d'.chains && d.chains[dir] <= d'.chains[dir] && k < |Places(d.chains[dir], spc)|
    ensures k < |Places(d'.chains[dir], spc)| && Places(d'.chains[dir], spc)[k] == Places(d.chains[dir], spc)[k]
  {
    hide Places;
    assert d.chains[dir] == d'.chains[dir][..|d.chains[dir]|];
    PlacesPrefix(d'.chains[dir], |d.chains[dir]|, spc);
  }

  lemma OldEntry(d: Disk, d': Disk, files: map<nat, File>, spc: nat, file: File, o: Entry, q: nat, e: Entry, p: nat,
                 items: seq<seq<byte>>)
    requires EntryOk(d, files, spc, file, o, q) && Entered(d, d', e.dir, spc, p, items) && o.dir == e.dir
    requires |e.slots| == |items|
    requires (forall i | 0 <= i < |items| :: |items[i]| == SLOT && UsedMark(items[i][0])) && items != []
    ensures Separate(o, q, e, p) && Separate(e, p, o, q)
    ensures forall i | 0 <= i < |o.slots| :: OldSlot(d.data, d'.data, o.slots[i])
  {
    hide Places, OldSlot, Entered, InUse, Describes, UsedMark, EntryOk;
    EntryParts(d, files, spc, file, o, q);
    forall i | 0 <= i < |o.slots| ensures OldSlot(d.data, d'.data, o.slots[i]) {
      OldEntryAt(d, d', files, spc, file, o, q, p, items, i);
    }
    OldEntryAt(d, d', files, spc, file, o, q, p, items, if q < p < q + |o.slots| then p - q else 0);
  }

  lemma OldEntryAt(d: Disk, d': Disk, files: map<nat, File>, spc: nat, file: File, o: Entry, q: nat, p: nat,
                   items: seq<seq<byte>>, i: nat)
    requires EntryOk(d, files, spc, file, o, q) && Entered(d, d', o.dir, spc, p, items) && i < |o.slots|
    requires forall j | 0 <= j < |items| :: |items[j]| == SLOT && UsedMark(items[j][0])
    ensures OldSlot(d.data, d'.data, o.slots[i]) && !(p <= q + i < p + |items|)
  {
    hide Places, OldSlot, Entered, Describes, UsedMark;
    assert InUse(d, o.dir, spc, q + i);
    EntriesKept(d, d', o.dir, spc, p, items, q + i);
  }

  // ---- writing and unlinking ----

  /** Entries of two files share no slot. */
  lemma EntriesApart(d: Disk, n: nat, spc: nat, files: map<nat, File>, f: File, a: Entry, p: nat, g: File, b: Entry,
                     q: nat)
    requires DiskOk(d, n, spc, files) && EntryOk(d, files, spc, f, a, p) && EntryOk(d, files, spc, g, b, q)
    requires Separate(a, p, b, q)
    ensures forall i | 0 <= i < |a.slots| :: a.slots[i] !in b.slots
  {
    hide IsChain, Places, Chained, DataOk, Describes, InUse;
    DirectoryDistinct(d, n, spc, files, a.dir);
    forall i, j | 0 <= i < |a.slots| && 0 <= j < |b.slots| ensures a.slots[i] != b.slots[j] {
      if a.dir == b.dir {
        if p + i < q + j {
          PlacesDistinct(d.chains[a.dir], spc, p + i, q + j);
        } else {
          PlacesDistinct(d.chains[a.dir], spc, q + j, p + i);
        }
      } else {
        ApartOf(d, n, spc, files, a.dir, b.dir);
        PlaceCluster(d.chains[a.dir], spc, p + i);
        PlaceCluster(d.chains[b.dir], spc, q + j);
      }
    }
  }

  lemma DirectoryDistinct(d: Disk, n: nat, spc: nat, files: map<nat, File>, dir: nat)
    requires DiskOk(d, n, spc, files) && dir in files
    ensures dir in d.chains && forall i, j | 0 <= i < j < |d.chains[dir]| :: d.chains[dir][i] != d.chains[dir][j]
  {
    hide IsChain, Places, DataOk;
    DirectoryOk(d.table, d.data, n, spc, files, d.chains, dir);
  }

  lemma SizeMark(e: seq<byte>, size: nat)
    requires |e| == SLOT
    ensures WithSize(e, size)[0] == e[0]
  {
  }

  /** Outside the file's clusters, a write keeps the mark of every slot, and all of it but for one slot. */
  lemma MarkWritten(data: Sectors, data': Sectors, cs: seq<nat>, slot: Slot, size: nat, x: Slot)
    requires OnlySize(data, data', cs, slot, size) && SlotOk(data, x) && x.cluster !in cs
    ensures SlotOk(data', x) && Mark(data', x) == Mark(data, x) && (x != slot ==> OldSlot(data, data', x))
  {
    hide WithSize;
    if x != slot {
      assert OldSlot(data, data', x);
      OldMark(data, data', x);
    } else {
      SizeMark(SlotBytes(data, slot), size);
      assert SlotBytes(data', slot)[0] == Mark(data', slot) && SlotBytes(data, slot)[0] == Mark(data, slot);
    }
  }

  /** A directory during a write to a file. */
  lemma WrittenDirectory(d: Disk, d': Disk, n: nat, spc: nat, files: map<nat, File>, files': map<nat, File>, id: nat,
                         dir: nat, slot: Slot, size: nat)
    requires DiskOk(d, n, spc, files) && DiskOk(d', n, spc, files') && id in files' && dir in files && dir in files'
    requires id != dir
    requires id in d'.chains && OnlyChain(d.chains, d'.chains, id)
    requires OnlySize(d.data, d'.data, d'.chains[id], slot, size)
    ensures NoNewEnd(d, d', dir, spc)
    ensures forall x | x in Places(d.chains[dir], spc) ::
      SlotOk(d.data, x) && SlotOk(d'.data, x) && Mark(d'.data, x) == Mark(d.data, x)
    ensures forall x | x in Places(d.chains[dir], spc) && x != slot :: OldSlot(d.data, d'.data, x)
  {
    hide IsChain, Places, Chained, DataOk, Mark, SlotOk, OnlySize, DiskOk, OldSlot;
    KeysOf(d, n, spc, files);
    KeysOf(d', n, spc, files');
    DirPlaces(d, n, spc, files, dir);
    DirPlaces(d', n, spc, files', dir);
    ApartOf(d', n, spc, files', dir, id);
    forall x | x in Places(d.chains[dir], spc)
      ensures SlotOk(d.data, x) && SlotOk(d'.data, x) && Mark(d'.data, x) == Mark(d.data, x)
        && (x != slot ==> OldSlot(d.data, d'.data, x)) {
      MarkWritten(d.data, d'.data, d'.chains[id], slot, size, x);
    }
  }

  lemma WrittenFiled(d: Disk, d': Disk, n: nat, spc: nat, files: map<nat, File>, files': map<nat, File>,
                     book: map<nat, Entry>, at: map<nat, nat>,
                     id: nat, size: nat)
    requires DiskOk(d, n, spc, files) && DiskOk(d', n, spc, files') && Filed(d, files, spc, book, at) && id in book
    requires id in files'
    requires files' == files[id := files'[id]] && !files'[id].directory && book[id].slots != []
    requires id in d'.chains && OnlyChain(d.chains, d'.chains, id)
    requires var slot := book[id].slots[|book[id].slots| - 1];
      OnlySize(d.data, d'.data, d'.chains[id], slot, size) && Describes(d'.data, slot, files'[id])
    ensures Filed(d', files', spc, book, at)
  {
    hide IsChain, Places, Chained, DataOk, Mark, SlotOk, OnlySize, DiskOk, OldSlot, EntryOk, Separate, OnlyChain,
      Describes;
    var slot := book[id].slots[|book[id].slots| - 1];
    forall a | a in book ensures EntryOk(d', files', spc, files'[a], book[a], at[a]) {
      var e := book[a];
      EntryParts(d, files, spc, files[a], e, at[a]);
      WrittenDirectory(d, d', n, spc, files, files', id, e.dir, slot, size);
      if a == id {
        EntryStill(d, d', files, files', spc, files[a], files'[a], e, at[a]);
      } else {
        EntriesApart(d, n, spc, files, files[a], e, at[a], files[id], book[id], at[id]);
        EntrySame(d, d', files, files', spc, files[a], e, at[a]);
      }
    }
  }

  /** A directory during an unlink. */
  lemma UnlinkedDirectory(d: Disk, d': Disk, n: nat, spc: nat, files: map<nat, File>, files': map<nat, File>, dir: nat,
                          slots: seq<Slot>)
    requires DiskOk(d, n, spc, files) && DiskOk(d', n, spc, files') && dir in files && dir in files' && dir in d.chains
    requires dir in d'.chains
    requires d'.chains[dir] == d.chains[dir] && Deleted(d.data, d'.data, slots)
    ensures NoNewEnd(d, d', dir, spc)
    ensures forall x | x in Places(d.chains[dir], spc) && x !in slots :: OldSlot(d.data, d'.data, x)
  {
    hide IsChain, Places, Chained, DataOk, Mark, SlotBytes, DiskOk;
    DirPlaces(d, n, spc, files, dir);
    DirPlaces(d', n, spc, files', dir);
    forall x | x in Places(d.chains[dir], spc) && SlotOk(d.data, x) && SlotOk(d'.data, x)
      ensures Mark(d'.data, x) == END_MARK ==> Mark(d.data, x) == END_MARK {
      if x in slots {
        var i :| 0 <= i < |slots| && slots[i] == x;
        assert DeletedSlot(d.data, d'.data, slots[i]);
      } else {
        OldMark(d.data, d'.data, x);
      }
    }
  }

  lemma UnlinkedFiled(d: Disk, d': Disk, n: nat, spc: nat, files: map<nat, File>, book: map<nat, Entry>,
                      at: map<nat, nat>, id: nat)
    requires DiskOk(d, n, spc, files) && DiskOk(d', n, spc, files - {id}) && Filed(d, files, spc, book, at)
    requires id in book
    requires d'.chains == d.chains - {id} && Deleted(d.data, d'.data, book[id].slots)
    ensures Filed(d', files - {id}, spc, book - {id}, at - {id})
  {
    hide IsChain, Places, Chained, DataOk, Mark, SlotOk, DiskOk, OldSlot, EntryOk, Separate, Deleted;
    var files' := files - {id};
    forall a | a in book && a != id ensures EntryOk(d', files', spc, files'[a], book[a], at[a]) {
      var e := book[a];
      EntryParts(d, files, spc, files[a], e, at[a]);
      UnlinkedDirectory(d, d', n, spc, files, files', e.dir, book[id].slots);
      EntriesApart(d, n, spc, files, files[a], e, at[a], files[id], book[id], at[id]);
      EntrySame(d, d', files, files', spc, files[a], e, at[a]);
    }
  }

  // ---- files as a map ----

  type Files = map<nat, seq<byte>>

  /** What the files hold; directories are not files. */
  ghost function Contents(v: Volume): (c: Files)
    requires v.Valid()
    reads v
    ensures forall id :: id in c <==> id in v.files && !v.files[id].directory
    ensures forall id | id in c :: c[id] == v.Content(id)
  {
    map id | id in v.files && !v.files[id].directory :: if id in v.files then v.Content(id) else []
  }

  datatype Op = Create(id: nat, dir: nat, name: Option<Name>) | Write(id: nat,
    bytes: seq<byte>) | Unlink(id: nat) | Read(id: nat, capacity: nat)
  datatype Reply = Done | Refused | Data(bytes: seq<byte>)

  /** The specification: files are a map. */
  ghost predicate Effect(c: Files, op: Op, reply: Reply, c': Files) {
    match op
    case Create(id, _, _) => if reply.Done? then c' == (if id in c then c else c[id := []])
      else reply.Refused? && c' == c
    case Write(id, bytes) => if reply.Done? then id in c && c' == c[id := bytes] else reply.Refused? && c' == c
    case Unlink(id) => if id in c then reply.Done? && c' == c - {id} else reply.Refused? && c' == c
    case Read(id, capacity) =>
      c' == c && if id in c then reply == Data(c[id][..if |c[id]| < capacity then |c[id]| else capacity])
        else reply.Refused?
  }

  /** The directories are the ones there were, each at most two clusters longer. */
  ghost predicate SameDirectories(files: map<nat, File>, files': map<nat, File>, chains: map<nat, seq<nat>>,
                                  chains': map<nat, seq<nat>>) {
    && (forall a :: a in files' && files'[a].directory <==> a in files && files[a].directory)
    && (forall a | a in files && files[a].directory :: a in chains && a in chains' && |chains'[a]| <= |chains[a]| + 2)
  }

  lemma DiskOf(v: Volume)
    requires v.Valid()
    ensures DiskOk(v.D(), v.n, v.spc, v.files)
  {
    hide Chained, DataOk;
  }

  /** What a creation leaves on disk. */
  ghost predicate Outcome(d: Disk, d': Disk, spc: nat, files: map<nat, File>, files': map<nat, File>, id: nat, dir: nat,
                          name: Option<Name>,
                          ok: bool, slots: seq<Slot>, p: nat)
  {
    && OthersKept(files, files', d.chains, d'.chains, dir)
    && (if ok then
          && name.Some? && NameOk(name.value) && id in files' && files' == files[id := files'[id]]
          && !files'[id].directory
          && Entered(d, d', dir, spc, p,
            name.value.long + [ShortEntry(name.value.alias, FILE_ATTRIBUTE, files'[id].cluster)])
          && |slots| == |name.value.long| + 1 && slots == Places(d'.chains[dir], spc)[p..p + |slots|]
          && Describes(d'.data, slots[|slots| - 1], files'[id])
        else files' == files && DataKept(d, d', dir))
  }

  lemma OutcomeFiled(d: Disk, d': Disk, n: nat, spc: nat, files: map<nat, File>, files': map<nat, File>,
                     book: map<nat, Entry>, at: map<nat, nat>,
                     id: nat, dir: nat, name: Option<Name>, ok: bool, slots: seq<Slot>, p: nat)
    requires DiskOk(d, n, spc, files) && DiskOk(d', n, spc, files') && Filed(d, files, spc, book, at) && id !in files
    requires dir in files && files[dir].directory && Outcome(d, d', spc, files, files', id, dir, name, ok, slots, p)
    ensures Filed(d', files', spc, if ok then book[id := Entry(dir, slots)] else book, if ok then at[id := p] else at)
  {
    hide Places, DiskOk, Filed, Entered, OthersKept, Describes, DataKept, ShortEntry, UsedMark;
    if ok {
      ItemsUsed(name.value, files'[id].cluster);
      CreatedFiled(d, d', n, spc, files, files', book, at, id, Entry(dir, slots), p,
                   name.value.long + [ShortEntry(name.value.alias, FILE_ATTRIBUTE, files'[id].cluster)]);
    } else {
      RefusedFiled(d, d', n, spc, files, book, at, dir);
    }
  }

  method CreateNamed(v: Volume, id: nat, dir: nat, name: Option<Name>)
    returns (ok: bool, slots: seq<Slot>, ghost p: nat)
    requires v.Valid() && id !in v.files && dir in v.files && v.files[dir].directory
    requires dir in v.chains && |v.chains[dir]| <= MAX_DIRECTORY && (name.Some? ==> NameOk(name.value))
    modifies v
    ensures v.Valid() && Outcome(old(v.D()), v.D(), v.spc, old(v.files), v.files, id, dir, name, ok, slots, p)
    ensures Effect(old(Contents(v)), Create(id, dir, name), if ok then Done else Refused, Contents(v))
    ensures SameDirectories(old(v.files), v.files, old(v.chains), v.chains)
  {
    hide IsChain, Places, Chained, DataOk, Entered, OthersKept, Describes, TakenBy, DataKept, CanCreate, Left,
      ShortEntry, Effect, SameDirectories, NameOk, Bytes, Next;
    ghost var files, chains, c := v.files, v.chains, Contents(v);
    SameKeys(v.fat[0], v.spc, files, chains);
    ok, slots, p := v.Create(id, dir, name);
    KeptParts(files, v.files, chains, v.chains, dir);
    FilesNow(files, v.files, id, ok);
    CreateEffect(c, Contents(v), id, dir, name, ok);
    CreateDirectories(files, v.files, chains, v.chains, dir, id);
  }

  lemma FilesNow(files: map<nat, File>, files': map<nat, File>, id: nat, ok: bool)
    requires files'.Keys == files.Keys + (if ok then {id} else {})
    requires forall a | a in files :: a in files' && files'[a] == files[a]
    ensures if ok then id in files' && files' == files[id := files'[id]] else files' == files
  {
  }

  method PerformCreate(v: Volume, book: map<nat, Entry>, ghost at: map<nat, nat>, id: nat, dir: nat, name: Option<Name>)
    returns (reply: Reply, book': map<nat, Entry>, ghost at': map<nat, nat>)
    requires v.Valid() && Filed(v.D(), v.files, v.spc, book, at) && id !in v.files && dir in v.files
    requires v.files[dir].directory
    requires dir in v.chains && |v.chains[dir]| <= MAX_DIRECTORY && (name.Some? ==> NameOk(name.value))
    modifies v
    ensures v.Valid() && Filed(v.D(), v.files, v.spc, book', at')
    ensures Effect(old(Contents(v)), Create(id, dir, name), reply, Contents(v))
    ensures SameDirectories(old(v.files), v.files, old(v.chains), v.chains)
  {
    hide IsChain, Places, Chained, DataOk, Filed, DiskOk, Effect, SameDirectories, NameOk, Outcome;
    ghost var d, files := v.D(), v.files;
    DiskOf(v);
    var ok, slots;
    ghost var p;
    ok, slots, p := CreateNamed(v, id, dir, name);
    DiskOf(v);
    OutcomeFiled(d, v.D(), v.n, v.spc, files, v.files, book, at, id, dir, name, ok, slots, p);
    reply := if ok then Done else Refused;
    book' := if ok then book[id := Entry(dir, slots)] else book;
    at' := if ok then at[id := p] else at;
  }

  lemma CreateEffect(c: Files, c': Files, id: nat, dir: nat, name: Option<Name>, ok: bool)
    requires id !in c && (forall a | a in c :: a in c' && c'[a] == c[a])
    requires forall a | a in c' :: a in c || (ok && a == id)
    requires ok ==> id in c' && c'[id] == []
    ensures Effect(c, Create(id, dir, name), if ok then Done else Refused, c')
  {
  }

  lemma CreateDirectories(files: map<nat, File>, files': map<nat, File>, chains: map<nat, seq<nat>>,
                          chains': map<nat, seq<nat>>, dir: nat, id: nat)
    requires chains.Keys == files.Keys && chains'.Keys == files'.Keys && id !in files && dir in files
    requires forall a | a in files :: a in files' && files'[a] == files[a]
    requires forall a | a in files' :: a in files || (a == id && !files'[a].directory)
    requires (forall a | a in files && a != dir :: chains'[a] == chains[a]) && |chains'[dir]| - |chains[dir]| <= 2
    ensures SameDirectories(files, files', chains, chains')
  {
  }

  lemma KeptParts(files: map<nat, File>, files': map<nat, File>, chains: map<nat, seq<nat>>,
                  chains': map<nat, seq<nat>>, dir: nat)
    requires OthersKept(files, files', chains, chains', dir)
    ensures chains.Keys == files.Keys && chains'.Keys == files'.Keys
    ensures forall a | a in files :: a in files' && files'[a] == files[a]
    ensures forall a | a in files && a != dir :: chains'[a] == chains[a]
  {
  }

  lemma ItemsUsed(name: Name, cluster: nat)
    requires NameOk(name)
    ensures var items := name.long + [ShortEntry(name.alias, FILE_ATTRIBUTE, cluster)];
      items != [] && forall i | 0 <= i < |items| :: |items[i]| == SLOT && UsedMark(items[i][0])
  {
    assert ShortEntry(name.alias, FILE_ATTRIBUTE, cluster)[0] == name.alias[0];
  }

  lemma FiledAt(d: Disk, n: nat, spc: nat, files: map<nat, File>, book: map<nat, Entry>, at: map<nat, nat>, id: nat)
    requires DiskOk(d, n, spc, files) && Filed(d, files, spc, book, at) && id in book
    ensures id in files && !files[id].directory && id in at && EntryOk(d, files, spc, files[id], book[id], at[id])
    ensures var e := book[id];
      e.dir in files && files[e.dir].directory && e.dir in d.chains && e.slots != [] && AllOk(d.data, e.slots)
    ensures forall i | 0 <= i < |book[id].slots| :: book[id].slots[i].cluster in d.chains[book[id].dir]
    ensures Describes(d.data, book[id].slots[|book[id].slots| - 1], files[id])
  {
    hide IsChain, Places, Chained, DataOk, DiskOk, Describes, InUse, Separate;
    var e := book[id];
    assert EntryOk(d, files, spc, files[id], e, at[id]);
    DirPlaces(d, n, spc, files, e.dir);
    EntryParts(d, files, spc, files[id], e, at[id]);
    forall i | 0 <= i < |e.slots| ensures e.slots[i].cluster in d.chains[e.dir] && SlotOk(d.data, e.slots[i]) {
      assert e.slots[i] in Places(d.chains[e.dir], spc);
    }
  }

  lemma WriteEffect(c: Files, c': Files, id: nat, bytes: seq<byte>, ok: bool)
    requires id in c && c'.Keys == c.Keys && (forall a | a in c && a != id :: c'[a] == c[a])
      && c'[id] == if ok then bytes else c[id]
    ensures Effect(c, Write(id, bytes), if ok then Done else Refused, c')
  {
  }

  lemma UnlinkEffect(c: Files, c': Files, id: nat)
    requires id in c && (forall a :: a in c' <==> a in c && a != id) && forall a | a in c' :: c'[a] == c[a]
    ensures Effect(c, Unlink(id), Done, c')
  {
  }

  lemma OnlyDirectories(files: map<nat, File>, files': map<nat, File>, chains: map<nat, seq<nat>>,
                        chains': map<nat, seq<nat>>, id: nat)
    requires chains.Keys == files.Keys && id in files && !files[id].directory
    requires id in files' ==> !files'[id].directory
    requires (forall a | a in files && a != id ::
      a in files' && files'[a] == files[a] && a in chains' && chains'[a] == chains[a])
    requires forall a | a in files' :: a in files
    ensures SameDirectories(files, files', chains, chains')
  {
  }

  /** What a write leaves on disk. */
  ghost predicate WriteOutcome(d: Disk, d': Disk, files: map<nat, File>, files': map<nat, File>, id: nat, slot: Slot,
                               size: nat) {
    && id in files' && files' == files[id := files'[id]] && !files'[id].directory && id in d'.chains
    && OnlyChain(d.chains, d'.chains, id) && OnlySize(d.data, d'.data, d'.chains[id], slot, size)
    && Describes(d'.data, slot, files'[id])
  }

  method WriteNamed(v: Volume, id: nat, dir: nat, slot: Slot, bytes: seq<byte>) returns (ok: bool)
    requires v.Valid() && id in v.files && dir in v.files && v.files[dir].directory && !v.files[id].directory
    requires dir in v.chains && slot.cluster in v.chains[dir] && Describes(v.data, slot, v.files[id])
    modifies v
    ensures v.Valid() && WriteOutcome(old(v.D()), v.D(), old(v.files), v.files, id, slot, |bytes|)
    ensures Effect(old(Contents(v)), Write(id, bytes), if ok then Done else Refused, Contents(v))
    ensures SameDirectories(old(v.files), v.files, old(v.chains), v.chains)
  {
    hide IsChain, Chained, DataOk, Effect, SameDirectories, Describes, FatVolume.Bytes, OnlySize, Moved, Next, Required,
      FreeClusters, OnlyChain;
    ghost var files, chains, c := v.files, v.chains, Contents(v);
    SameKeys(v.fat[0], v.spc, files, chains);
    ok := v.Write(id, dir, slot, bytes);
    SameKeys(v.fat[0], v.spc, v.files, v.chains);
    FilesAfter(files, v.files, id, ok, |bytes|);
    OnlyParts(chains, v.chains, id);
    WriteEffect(c, Contents(v), id, bytes, ok);
    OnlyDirectories(files, v.files, chains, v.chains, id);
  }

  lemma FilesAfter(files: map<nat, File>, files': map<nat, File>, id: nat, ok: bool, size: nat)
    requires id in files && files' == if ok then files[id := files[id].(size := size)] else files
    ensures files'.Keys == files.Keys && files' == files[id := files'[id]]
    ensures files'[id].directory == files[id].directory
    ensures forall a | a in files && a != id :: files'[a] == files[a]
  {
  }

  lemma OnlyParts(chains: map<nat, seq<nat>>, chains': map<nat, seq<nat>>, id: nat)
    requires OnlyChain(chains, chains', id)
    ensures chains'.Keys == chains.Keys && forall a | a in chains && a != id :: chains'[a] == chains[a]
  {
  }

  method PerformWrite(v: Volume, book: map<nat, Entry>, ghost at: map<nat, nat>, id: nat, bytes: seq<byte>)
    returns (reply: Reply)
    requires v.Valid() && Filed(v.D(), v.files, v.spc, book, at) && id in book
    modifies v
    ensures v.Valid() && Filed(v.D(), v.files, v.spc, book, at)
    ensures Effect(old(Contents(v)), Write(id, bytes), reply, Contents(v))
    ensures SameDirectories(old(v.files), v.files, old(v.chains), v.chains)
  {
    hide IsChain, Places, Chained, DataOk, Filed, DiskOk, Effect, SameDirectories, EntryOk, Describes, OnlySize;
    ghost var d, files := v.D(), v.files;
    DiskOf(v);
    FiledAt(d, v.n, v.spc, files, book, at, id);
    var slots := book[id].slots;
    var ok := WriteNamed(v, id, book[id].dir, slots[|slots| - 1], bytes);
    DiskOf(v);
    WrittenFiled(d, v.D(), v.n, v.spc, files, v.files, book, at, id, |bytes|);
    reply := if ok then Done else Refused;
  }

  method PerformUnlink(v: Volume, book: map<nat, Entry>, ghost at: map<nat, nat>, id: nat)
    requires v.Valid() && Filed(v.D(), v.files, v.spc, book, at) && id in book
    modifies v
    ensures v.Valid() && Filed(v.D(), v.files, v.spc, book - {id}, at - {id})
    ensures Effect(old(Contents(v)), Unlink(id), Done, Contents(v))
    ensures SameDirectories(old(v.files), v.files, old(v.chains), v.chains)
  {
    hide IsChain, Places, Chained, DataOk, Filed, DiskOk, Effect, SameDirectories, EntryOk, Describes, FatVolume.Bytes,
      Deleted, Next, AllOk;
    ghost var d, files, c := v.D(), v.files, Contents(v);
    DiskOf(v);
    FiledAt(d, v.n, v.spc, files, book, at, id);
    SameKeys(v.fat[0], v.spc, files, v.chains);
    var ok := v.Unlink(id, book[id].dir, book[id].slots);
    DiskOf(v);
    UnlinkedFiled(d, v.D(), v.n, v.spc, files, book, at, id);
    UnlinkEffect(c, Contents(v), id);
    OnlyDirectories(files, v.files, d.chains, v.chains, id);
  }

  lemma ReadEffect(c: Files, id: nat, capacity: nat, b: seq<byte>)
    requires id in c && b == c[id][..if |c[id]| < capacity then |c[id]| else capacity]
    ensures Effect(c, Read(id, capacity), Data(b), c)
  {
  }

  lemma RefusedEffect(c: Files, op: Op)
    requires !op.Create? ==> op.id !in c
    ensures Effect(c, op, Refused, c)
  {
  }

  lemma ThereAlready(c: Files, id: nat, dir: nat, name: Option<Name>)
    requires id in c
    ensures Effect(c, Create(id, dir, name), Done, c)
  {
  }

  lemma DirectoriesRefl(d: Disk, n: nat, spc: nat, files: map<nat, File>)
    requires DiskOk(d, n, spc, files)
    ensures SameDirectories(files, files, d.chains, d.chains)
  {
    hide DataOk, IsChain;
  }

  lemma InBook(d: Disk, files: map<nat, File>, spc: nat, book: map<nat, Entry>, at: map<nat, nat>)
    requires Filed(d, files, spc, book, at)
    ensures forall id :: id in book <==> id in files && !files[id].directory
  {
    hide EntryOk, Separate;
  }

  /** A directory that a request names may still grow. */
  ghost predicate Grows(files: map<nat, File>, chains: map<nat, seq<nat>>, room: nat) {
    forall a | a in files && files[a].directory :: a in chains && |chains[a]| + 2 * room <= MAX_DIRECTORY
  }

  /** One operation. */
  method Perform(v: Volume, book: map<nat, Entry>, ghost at: map<nat, nat>, op: Op)
    returns (reply: Reply, book': map<nat, Entry>, ghost at': map<nat, nat>)
    requires v.Valid() && Filed(v.D(), v.files, v.spc, book, at) && Grows(v.files, v.chains, 0)
    requires op.Create? && op.name.Some? ==> NameOk(op.name.value)
    modifies v
    ensures v.Valid() && Filed(v.D(), v.files, v.spc, book', at')
    ensures Effect(old(Contents(v)), op, reply, Contents(v))
    ensures SameDirectories(old(v.files), v.files, old(v.chains), v.chains)
  {
    hide IsChain, Chained, DataOk, Filed, DiskOk, Effect, SameDirectories, NameOk, FatVolume.Bytes;
    book', at', reply := book, at, Refused;
    DiskOf(v);
    DirectoriesRefl(v.D(), v.n, v.spc, v.files);
    InBook(v.D(), v.files, v.spc, book, at);
    match op
    case Create(id, dir, name) =>
      if id in v.files {
        if v.files[id].directory {
          RefusedEffect(Contents(v), op);
        } else {
          ThereAlready(Contents(v), id, dir, name);
          reply := Done;
        }
      } else if dir !in v.files || !v.files[dir].directory {
        RefusedEffect(Contents(v), op);
      } else {
        reply, book', at' := PerformCreate(v, book, at, id, dir, name);
      }
    case Write(id, bytes) =>
      if id in book {
        reply := PerformWrite(v, book, at, id, bytes);
      } else {
        RefusedEffect(Contents(v), op);
      }
    case Unlink(id) =>
      if id in book {
        PerformUnlink(v, book, at, id);
        reply, book', at' := Done, book - {id}, at - {id};
      } else {
        RefusedEffect(Contents(v), op);
      }
    case Read(id, capacity) =>
      if id in book {
        var b := v.Read(id, capacity);
        ReadEffect(Contents(v), id, capacity, b.value);
        reply := Data(b.value);
      } else {
        RefusedEffect(Contents(v), op);
      }
  }

  // ---- whole runs ----

  ghost predicate Run(states: seq<Files>, ops: seq<Op>, replies: seq<Reply>) {
    |states| == |ops| + 1 && |replies| == |ops| && forall i | 0 <= i < |ops| ::
      Effect(states[i], ops[i], replies[i], states[i + 1])
  }

  lemma RunMore(states: seq<Files>, ops: seq<Op>, replies: seq<Reply>, n: nat, reply: Reply, c: Files)
    requires n < |ops| && Run(states, ops[..n], replies) && Effect(states[n], ops[n], reply, c)
    ensures Run(states + [c], ops[..n + 1], replies + [reply])
  {
    hide Effect;
    var ss, os, rs := states + [c], ops[..n + 1], replies + [reply];
    forall i | 0 <= i < |os| ensures Effect(ss[i], os[i], rs[i], ss[i + 1]) {
      if i < n {
        assert ss[i] == states[i] && ss[i + 1] == states[i + 1] && os[i] == ops[..n][i] && rs[i] == replies[i];
      }
    }
  }

  lemma GrowsLess(files: map<nat, File>, files': map<nat, File>, chains: map<nat, seq<nat>>,
                  chains': map<nat, seq<nat>>, room: nat)
    requires Grows(files, chains, room + 1) && SameDirectories(files, files', chains, chains')
    ensures Grows(files', chains', room)
  {
  }

  lemma GrowsNow(files: map<nat, File>, chains: map<nat, seq<nat>>, room: nat)
    requires Grows(files, chains, room)
    ensures Grows(files, chains, 0)
  {
  }

  predicate NamesOk(ops: seq<Op>) {
    forall i | 0 <= i < |ops| && ops[i].Create? && ops[i].name.Some? :: NameOk(ops[i].name.value)
  }

  /** Every run of creations, writes, unlinks and reads: the volume stays well formed, every file has
      its own entry on disk that says where it is and how long, and the answers are those of a map
      from files to bytes. */
  method Serve(v: Volume, book: map<nat, Entry>, ghost at: map<nat, nat>, ops: seq<Op>)
    returns (replies: seq<Reply>, book': map<nat, Entry>, ghost at': map<nat, nat>, ghost states: seq<Files>)
    requires v.Valid() && Filed(v.D(), v.files, v.spc, book, at) && Grows(v.files, v.chains, |ops|) && NamesOk(ops)
    modifies v
    ensures v.Valid() && Filed(v.D(), v.files, v.spc, book', at')
    ensures Run(states, ops, replies) && states[0] == old(Contents(v)) && states[|ops|] == Contents(v)
  {
    hide IsChain, Chained, DataOk, Filed, Effect, SameDirectories, Grows, NameOk, FatVolume.Bytes, Run;
    replies, book', at', states := [], book, at, [Contents(v)];
    RunNone(Contents(v));
    assert ops[..0] == [];
    var i := 0;
    while i < |ops|
      invariant 0 <= i <= |ops| && v.Valid() && Filed(v.D(), v.files, v.spc, book', at')
      invariant Grows(v.files, v.chains, |ops| - i)
      invariant |states| == i + 1 && states[0] == old(Contents(v)) && states[i] == Contents(v)
      invariant Run(states, ops[..i], replies)
    {
      GrowsNow(v.files, v.chains, |ops| - i);
      ghost var files, chains := v.files, v.chains;
      var reply;
      reply, book', at' := Perform(v, book', at', ops[i]);
      GrowsLess(files, v.files, chains, v.chains, |ops| - i - 1);
      RunMore(states, ops, replies, i, reply, Contents(v));
      replies, states := replies + [reply], states + [Contents(v)];
      i := i + 1;
    }
    assert ops[..i] == ops;
  }

  lemma RunNone(c: Files)
    ensures Run([c], [], [])
  {
  }

  /** The operation may change this file. */
  predicate Changes(op: Op, id: nat) { op.id == id && (op.Write? || op.Unlink?) }

  /** A write followed by a read returns the same bytes, whatever is done to other files in between. */
  lemma {:induction false} ReadsBack(states: seq<Files>, ops: seq<Op>, replies: seq<Reply>, i: nat, k: nat, id: nat)
    requires Run(states, ops, replies) && i < k <= |ops| && ops[i].Write? && ops[i].id == id && replies[i].Done?
    requires forall j | i < j < k :: !Changes(ops[j], id)
    ensures id in states[k] && states[k][id] == ops[i].bytes
    ensures k < |ops| && ops[k].Read? && ops[k].id == id && ops[k].capacity >= |ops[i].bytes| ==>
      replies[k] == Data(ops[i].bytes)
    decreases k
  {
    if k == i + 1 {
      assert Effect(states[i], ops[i], replies[i], states[i + 1]);
    } else {
      ReadsBack(states, ops, replies, i, k - 1, id);
      assert Effect(states[k - 1], ops[k - 1], replies[k - 1], states[k - 1 + 1]);
    }
    if k < |ops| && ops[k].Read? && ops[k].id == id {
      assert Effect(states[k], ops[k], replies[k], states[k + 1]);
    }
  }

  // ---- names ----

  /** What a directory scan reads from place `p` on. */
  ghost function SlotsRead(d: Disk, dir: nat, spc: nat, p: nat, n: nat): (r: seq<seq<byte>>)
    requires dir in d.chains && AllOk(d.data, Places(d.chains[dir], spc)) && p + n <= |Places(d.chains[dir], spc)|
    ensures |r| == n && forall i | 0 <= i < n :: r[i] == SlotBytes(d.data, Places(d.chains[dir], spc)[p + i])
  {
    seq(n, i requires 0 <= i < n => SlotBytes(d.data, Places(d.chains[dir], spc)[p + i]))
  }

  /** A long name that has been entered is found again: scanning its slots and then the short entry,
      from any state of the scan, decodes to the name, exactly when it has no U+FFFF. */
  lemma NameReadsBack(d: Disk, d': Disk, dir: nat, spc: nat, p: nat, cs: seq<nat>, alias: seq<byte>,
                      long: seq<seq<byte>>, cluster: nat,
                      r: LongName.Reader)
    requires LongName.NameCharacters(cs) && LongName.Encode(LongName.Utf8(cs)).Some? && |alias| == 11
    requires cluster <= MAX_UINT32
    requires LongName.SlotsOk(long, LongName.Encode(LongName.Utf8(cs)).value, LongName.Checksum(alias))
    requires LongName.ReaderOk(r)
    requires Entered(d, d', dir, spc, p, long + [ShortEntry(alias, FILE_ATTRIBUTE, cluster)])
    ensures var slots, short := SlotsRead(d', dir, spc, p, |long|),
      SlotBytes(d'.data, Places(d'.chains[dir], spc)[p + |long|]);
      && LongName.Entries(slots) && |short| == SLOT && EntryCluster(short) == cluster
      && (0xFFFF !in cs <==>
          LongName.DecodeName(LongName.AddAll(r, slots), short[..11], LongName.NAME_CAPACITY)
            == Some(LongName.Utf8(cs)))
  {
    hide Places, ShortEntry, EntryCluster, EntrySize, LongName.Encode, LongName.SlotsOk, LongName.DecodeName,
      LongName.AddAll, LongName.Entries;
    var items, ps := long + [ShortEntry(alias, FILE_ATTRIBUTE, cluster)], Places(d'.chains[dir], spc);
    var slots := SlotsRead(d', dir, spc, p, |long|);
    forall i | 0 <= i < |long| ensures slots[i] == long[i] {
      assert SlotBytes(d'.data, ps[p + i]) == items[i];
    }
    assert slots == long;
    assert SlotBytes(d'.data, ps[p + |long|]) == items[|long|];
    EntryReads(alias, FILE_ATTRIBUTE, cluster);
    LongName.LongNameRoundTrip(cs, alias, long, r);
  }
}
