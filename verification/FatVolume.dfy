/** Files and directories on a FAT32 volume (src/fs/fat32.c): cluster chains linked through the
    allocation table, kept in several copies, and the data clusters they lead to. */
module FatVolume {
  import opened Pmm
  import opened FatSlots

  const MASK: nat := 0x1000_0000
  const LAST: nat := 0x0FFF_FFFF
  const END: nat := 0x0FFF_FFF8
  const MAX_CLUSTERS: nat := 32
  const MAX_DIRECTORY: nat := 65536
  const MAX_UINT32: nat := 0xFFFF_FFFF

  /** What a directory entry says about a file or a directory. */
  datatype File = File(cluster: nat, size: nat, directory: bool)

  /** The cluster an entry of the table leads to; the top four bits are reserved. */
  function Next(f: seq<nat>, c: nat): nat
    requires c < |f|
  {
    f[c] % MASK
  }

  /** The reserved bits of an entry do not matter. */
  lemma ReservedBits(f: seq<nat>, c: nat, bits: nat)
    requires c < |f| && bits < 16 && f[c] < 0x1000_0000
    ensures Next(f[c := f[c] + 0x1000_0000 * bits], c) == f[c]
  {
  }

  predicate InRange(f: seq<nat>, c: nat) { 2 <= c < |f| }

  /** `cs` are the clusters of a file in order: linked, without repetition, and ended by a marker. */
  ghost predicate IsChain(f: seq<nat>, cs: seq<nat>) {
    && cs != []
    && (forall i | 0 <= i < |cs| :: InRange(f, cs[i]))
    && (forall i, j | 0 <= i < j < |cs| :: cs[i] != cs[j])
    && (forall i | 0 <= i < |cs| - 1 :: Next(f, cs[i]) == cs[i + 1])
    && Next(f, cs[|cs| - 1]) >= END
  }

  ghost predicate Apart(a: seq<nat>, b: seq<nat>) { forall c | c in a :: c !in b }

  lemma ChainFrame(f: seq<nat>, f': seq<nat>, cs: seq<nat>)
    requires IsChain(f, cs) && |f'| == |f| && forall c | c in cs && c < |f| :: f'[c] == f[c]
    ensures IsChain(f', cs)
  {
    forall i | 0 <= i < |cs| ensures InRange(f', cs[i]) && Next(f', cs[i]) == Next(f, cs[i]) {
      assert cs[i] in cs;
    }
  }

  lemma InChain(f: seq<nat>, cs: seq<nat>, c: nat)
    requires IsChain(f, cs) && c in cs && |f| <= END
    ensures InRange(f, c) && Next(f, c) >= 2
  {
    var i :| 0 <= i < |cs| && cs[i] == c;
    if i < |cs| - 1 {
      assert InRange(f, cs[i + 1]);
    }
  }

  /** A free cluster marked as an end is a chain of its own. */
  lemma FreshChain(f: seq<nat>, c: nat)
    requires InRange(f, c)
    ensures IsChain(f[c := LAST], [c])
  {
  }

  /** Linking a free cluster behind a chain. */
  lemma ExtendChain(f: seq<nat>, cs: seq<nat>, c: nat)
    requires IsChain(f, cs) && InRange(f, c) && c !in cs && |f| <= END
    ensures cs[|cs| - 1] < |f| && IsChain(f[c := LAST][cs[|cs| - 1] := c], cs + [c])
  {
    var n := |cs| - 1;
    assert InRange(f, cs[n]);
    var f', cs' := f[c := LAST][cs[n] := c], cs + [c];
    assert c % MASK == c;
    forall i | 0 <= i < |cs'| - 1 ensures Next(f', cs'[i]) == cs'[i + 1] {
      assert cs[i] in cs && InRange(f, cs[i]);
      if i < n {
        assert cs[i] != cs[n];
        assert Next(f, cs[i]) == cs[i + 1];
      }
    }
  }

  /** Ending a chain early. */
  lemma CutChain(f: seq<nat>, cs: seq<nat>, n: nat)
    requires IsChain(f, cs) && 0 < n <= |cs|
    ensures cs[n - 1] < |f| && IsChain(f[cs[n - 1] := LAST], cs[..n])
  {
    assert InRange(f, cs[n - 1]);
    var f', cs' := f[cs[n - 1] := LAST], cs[..n];
    forall i | 0 <= i < |cs'| - 1 ensures Next(f', cs'[i]) == cs'[i + 1] {
      assert InRange(f, cs[i]) && cs[i] != cs[n - 1] && Next(f, cs[i]) == cs[i + 1];
    }
    forall i | 0 <= i < |cs'| ensures InRange(f', cs'[i]) {
      assert InRange(f, cs[i]);
    }
  }

  // ---- contents ----

  ghost predicate DataOk(data: Sectors, n: nat, spc: nat) {
    && |data| == n
    && (forall c | 0 <= c < n :: |data[c]| == spc)
    && (forall c, s | 0 <= c < n && 0 <= s < |data[c]| :: |data[c][s]| == SECTOR)
  }

  function Flat(sectors: seq<seq<byte>>): seq<byte> {
    if sectors == [] then [] else Flat(sectors[..|sectors| - 1]) + sectors[|sectors| - 1]
  }

  lemma {:induction false} FlatSize(sectors: seq<seq<byte>>)
    requires forall s | 0 <= s < |sectors| :: |sectors[s]| == SECTOR
    ensures |Flat(sectors)| == SECTOR * |sectors|
  {
    if sectors != [] {
      FlatSize(sectors[..|sectors| - 1]);
    }
  }

  /** The bytes of the clusters `cs`, one after the other. */
  function Bytes(data: Sectors, cs: seq<nat>): seq<byte>
    requires forall i | 0 <= i < |cs| :: cs[i] < |data|
  {
    if cs == [] then [] else Bytes(data, cs[..|cs| - 1]) + Flat(data[cs[|cs| - 1]])
  }

  lemma {:induction false} BytesFrame(data: Sectors, data': Sectors, cs: seq<nat>)
    requires |data'| == |data| && forall i | 0 <= i < |cs| :: cs[i] < |data| && data'[cs[i]] == data[cs[i]]
    ensures Bytes(data', cs) == Bytes(data, cs)
  {
    if cs != [] {
      BytesFrame(data, data', cs[..|cs| - 1]);
    }
  }

  lemma {:induction false} BytesSize(data: Sectors, n: nat, spc: nat, cs: seq<nat>)
    requires DataOk(data, n, spc) && forall i | 0 <= i < |cs| :: cs[i] < n
    ensures |Bytes(data, cs)| == |cs| * (SECTOR * spc)
  {
    if cs != [] {
      var k := |cs| - 1;
      BytesSize(data, n, spc, cs[..k]);
      FlatSize(data[cs[k]]);
      assert |cs| * (SECTOR * spc) == k * (SECTOR * spc) + SECTOR * spc;
    }
  }

  lemma {:induction false} BytesPrefix(data: Sectors, cs: seq<nat>, k: nat)
    requires (forall i | 0 <= i < |cs| :: cs[i] < |data|) && k <= |cs|
    ensures Bytes(data, cs[..k]) <= Bytes(data, cs)
  {
    if k == |cs| {
      assert cs[..k] == cs;
    } else {
      BytesPrefix(data, cs[..|cs| - 1], k);
      assert cs[..|cs| - 1][..k] == cs[..k];
    }
  }

  // ---- the volume ----

  /** A walk along the chain `cs` that has made `i` steps stands at `cluster`. */
  ghost predicate Walk(f: seq<nat>, cs: seq<nat>, i: nat, cluster: nat) {
    i <= |cs| && if i < |cs| then cluster == cs[i] else cluster >= END
  }

  lemma WalkStep(f: seq<nat>, cs: seq<nat>, i: nat, cluster: nat)
    requires IsChain(f, cs) && Walk(f, cs, i, cluster) && |f| <= END
    ensures i < |cs| <==> 2 <= cluster < END
    ensures i < |cs| ==> InRange(f, cluster) && Walk(f, cs, i + 1, Next(f, cluster))
  {
    if i < |cs| {
      assert InRange(f, cs[i]);
      if i < |cs| - 1 {
        assert Next(f, cs[i]) == cs[i + 1];
      }
    }
  }

  lemma WalkEnd(f: seq<nat>, cs: seq<nat>, i: nat, cluster: nat)
    requires IsChain(f, cs) && Walk(f, cs, i, cluster) && |f| <= END
    ensures i <= |cs| && (i < |cs| ==> cluster == cs[i]) && (i == |cs| <==> !(2 <= cluster < END))
  {
    WalkStep(f, cs, i, cluster);
  }

  /** The chains belong to the files: each file's entry leads to its chain, chains share nothing,
      and a file is no longer than its chain. */
  ghost predicate Chained(f: seq<nat>, spc: nat, files: map<nat, File>, chains: map<nat, seq<nat>>) {
    && chains.Keys == files.Keys
    && (forall id | id in files :: FileChain(f, spc, files[id], chains[id]))
    && (forall a, b | a in chains && b in chains && a != b :: Apart(chains[a], chains[b]))
  }

  ghost predicate FileChain(f: seq<nat>, spc: nat, file: File, cs: seq<nat>) {
    IsChain(f, cs) && cs[0] == file.cluster && file.size <= |cs| * (SECTOR * spc) && (file.directory ==> file.size == 0)
  }

  /** A change to the table outside the other files' chains. */
  lemma ChainedUpdate(f: seq<nat>, f': seq<nat>, spc: nat, files: map<nat, File>, chains: map<nat, seq<nat>>, id: nat,
                      file: File, cs: seq<nat>)
    requires Chained(f, spc, files, chains) && |f'| == |f| && FileChain(f', spc, file, cs)
    requires forall a | a in chains && a != id :: Apart(chains[a], cs)
    requires forall a, c | a in chains && a != id && c in chains[a] && c < |f| :: f'[c] == f[c]
    ensures Chained(f', spc, files[id := file], chains[id := cs])
  {
    hide IsChain;
    forall a | a in files && a != id ensures FileChain(f', spc, files[a], chains[a]) {
      assert FileChain(f, spc, files[a], chains[a]);
      ChainFrame(f, f', chains[a]);
    }
  }

  lemma ChainedRemove(f: seq<nat>, f': seq<nat>, spc: nat, files: map<nat, File>, chains: map<nat, seq<nat>>, id: nat)
    requires Chained(f, spc, files, chains) && |f'| == |f|
    requires forall a, c | a in chains && a != id && c in chains[a] && c < |f| :: f'[c] == f[c]
    ensures Chained(f', spc, files - {id}, chains - {id})
  {
    forall a | a in files && a != id ensures FileChain(f', spc, files[a], chains[a]) {
      assert FileChain(f, spc, files[a], chains[a]);
      ChainFrame(f, f', chains[a]);
    }
  }

  // ---- which clusters change hands ----

  /** The file whose chain was `cs` and is `cs'` took only free clusters and gave the ones it no
      longer has back; no other entry of the table changed. */
  ghost predicate Moved(f: seq<nat>, f': seq<nat>, cs: seq<nat>, cs': seq<nat>) {
    && |f'| == |f|
    && (forall c | 0 <= c < |f| && c !in cs && c !in cs' :: f'[c] == f[c])
    && (forall c | 0 <= c < |f| && c in cs && c !in cs' :: f'[c] == 0)
    && (forall c | 0 <= c < |f| && c in cs' && c !in cs :: Next(f, c) == 0)
  }

  lemma MovedTrans(f: seq<nat>, f1: seq<nat>, f2: seq<nat>, a: seq<nat>, b: seq<nat>, c: seq<nat>)
    requires Moved(f, f1, a, b) && Moved(f1, f2, b, c) && (a == b || b == c)
    ensures Moved(f, f2, a, c)
  {
  }

  /** Growing twice is growing once. */
  lemma MovedGrows(f: seq<nat>, f1: seq<nat>, f2: seq<nat>, a: seq<nat>, b: seq<nat>, c: seq<nat>)
    requires Moved(f, f1, a, b) && Moved(f1, f2, b, c) && a <= b <= c
    ensures Moved(f, f2, a, c)
  {
    assert forall x | x in b :: x in c by {
      forall x | x in b ensures x in c {
        var i :| 0 <= i < |b| && b[i] == x;
        assert c[i] == x;
      }
    }
  }

  lemma MovedRefl(f: seq<nat>, cs: seq<nat>)
    ensures Moved(f, f, cs, cs)
  {
  }

  ghost function FreeClusters(f: seq<nat>): (r: set<nat>)
    ensures forall c: nat :: c in r <==> 2 <= c < |f| && Next(f, c) == 0
  {
    set c: nat | 2 <= c < |f| && Next(f, c) == 0
  }

  lemma NoneFree(f: seq<nat>)
    requires forall c | 2 <= c < |f| :: Next(f, c) != 0
    ensures FreeClusters(f) == {}
  {
  }

  lemma FreshMoved(f: seq<nat>, c: nat)
    requires InRange(f, c) && Next(f, c) == 0
    ensures Moved(f, f[c := LAST], [], [c])
  {
  }

  /** A free cluster linked behind a chain: one free cluster less, and nothing else. */
  lemma OneTaken(f: seq<nat>, cs: seq<nat>, c: nat)
    requires IsChain(f, cs) && InRange(f, c) && Next(f, c) == 0 && c !in cs && |f| <= END
    ensures cs[|cs| - 1] < |f| && var f' := f[c := LAST][cs[|cs| - 1] := c];
      Moved(f, f', cs, cs + [c]) && |FreeClusters(f')| == |FreeClusters(f)| - 1
  {
    var last := cs[|cs| - 1];
    var f' := f[c := LAST][last := c];
    assert InRange(f, last) && last != c;
    assert FreeClusters(f') == FreeClusters(f) - {c};
  }

  class Volume {
    const n: nat
    const copies: nat
    const spc: nat
    var fat: seq<seq<nat>>
    var data: Sectors
    var files: map<nat, File>
    ghost var chains: map<nat, seq<nat>>

    /** fat32_mount: the volume as it is on disk, with its root directory and whatever files there are. */
    constructor Mount(copies: nat, spc: nat, table: seq<nat>, data: Sectors, root: nat, files: map<nat, File>,
                      ghost chains: map<nat, seq<nat>>)
      requires 2 < |table| <= END && copies > 0 && spc > 0 && DataOk(data, |table|, spc)
      requires root in files && files[root].directory && Chained(table, spc, files, chains)
      ensures Valid() && this.files == files && this.chains == chains && this.data == data && fat[0] == table
      ensures n == |table| && this.copies == copies && this.spc == spc
    {
      n, this.copies, this.spc := |table|, copies, spc;
      fat := seq(copies, _ => table);
      this.data, this.files, this.chains := data, files, chains;
    }

    ghost function D(): Disk
      requires |fat| > 0
      reads this
    {
      Disk(fat[0], data, chains)
    }

    /** All copies of the table are equal. */
    ghost predicate TableOk()
      reads this
    {
      && 2 < n <= END && spc > 0 && |fat| == copies > 0 && |fat[0]| == n
      && (forall k | 0 <= k < copies :: fat[k] == fat[0])
      && DataOk(data, n, spc)
    }

    ghost predicate Valid()
      reads this
    {
      TableOk() && Chained(fat[0], spc, files, chains)
    }

    ghost function Content(id: nat): (r: seq<byte>)
      requires Valid() && id in files
      reads this
      ensures |r| == files[id].size
    {
      assert FileChain(fat[0], spc, files[id], chains[id]);
      ContentSize(fat[0], data, n, spc, files[id], chains[id]);
      Bytes(data, chains[id])[..files[id].size]
    }

    /** update_fat: the entry changes in every copy. */
    method UpdateFat(cluster: nat, value: nat)
      requires TableOk() && cluster < n
      modifies `fat
      ensures TableOk() && fat[0] == old(fat[0])[cluster := value]
    {
      var copy := 0;
      while copy < copies
        invariant 0 <= copy <= copies && |fat| == copies
        invariant forall k | 0 <= k < copy :: fat[k] == old(fat[0])[cluster := value]
        invariant forall k | copy <= k < copies :: fat[k] == old(fat[0])
      {
        var entries: seq<nat> := fat[copy][cluster := value];
        fat := fat[copy := entries];
        copy := copy + 1;
      }
    }

    /** allocate_cluster: the first free cluster, marked as the end of a chain. */
    method AllocateCluster() returns (r: nat)
      requires TableOk()
      modifies `fat
      ensures TableOk()
      ensures r == 0 ==> fat == old(fat) && forall c | 2 <= c < n :: Next(old(fat[0]), c) != 0
      ensures r != 0 ==> InRange(old(fat[0]), r) && Next(old(fat[0]), r) == 0 && fat[0] == old(fat[0])[r := LAST]
      ensures r != 0 ==> forall c | 2 <= c < r :: Next(old(fat[0]), c) != 0
    {
      var cluster := 2;
      while cluster < n
        invariant 2 <= cluster <= n && forall c | 2 <= c < cluster :: Next(fat[0], c) != 0
      {
        if fat[0][cluster] % MASK == 0 {
          UpdateFat(cluster, LAST);
          return cluster;
        }
        cluster := cluster + 1;
      }
      return 0;
    }

    /** find_free_slots, within one sector: the search goes on over its sixteen slots, until it has
        a run of the wanted length. */
    method ScanSector(cluster: nat, s: nat, start: Search, required: nat, ghost before: seq<Slot>)
      returns (r: Search, ghost done: seq<Slot>)
      requires TableOk() && cluster < n && s < spc
      requires AllOk(data, before) && start == Visited(data, before) && Unfinished(data, before, required)
      requires |start.run| < required
      ensures AllOk(data, done) && r == Visited(data, done) && |r.run| <= required
      ensures before <= done <= before + SectorPlaces(cluster, s, PER_SECTOR)
      ensures |r.run| < required ==> done == before + SectorPlaces(cluster, s, PER_SECTOR)
      ensures |r.run| < required ==> Unfinished(data, done, required)
      ensures |r.run| == required ==> done != [] && Unfinished(data, done[..|done| - 1], required)
    {
      hide Visited, AllOk, Unfinished;
      r, done := start, before;
      var e := 0;
      while e < PER_SECTOR
        invariant 0 <= e <= PER_SECTOR && done == before + SectorPlaces(cluster, s, e)
        invariant AllOk(data, done) && r == Visited(data, done) && |r.run| < required
        invariant Unfinished(data, done, required)
      {
        var at := Slot(cluster, s, e);
        VisitNext(data, done, at);
        r := Visit(r, data[cluster][s][SLOT * e], at);
        done := done + [at];
        assert done[..|done| - 1] == before + SectorPlaces(cluster, s, e);
        if |r.run| == required {
          assert done <= before + SectorPlaces(cluster, s, PER_SECTOR);
          return;
        }
        UnfinishedNext(data, done[..|done| - 1], at, required);
        assert done[..|done| - 1] + [at] == done;
        e := e + 1;
      }
    }

    /** The same over the sectors of a cluster. */
    method ScanCluster(cluster: nat, start: Search, required: nat, ghost before: seq<Slot>)
      returns (r: Search, ghost done: seq<Slot>)
      requires TableOk() && cluster < n
      requires AllOk(data, before) && start == Visited(data, before) && Unfinished(data, before, required)
      requires |start.run| < required
      ensures AllOk(data, done) && r == Visited(data, done) && |r.run| <= required
      ensures before <= done <= before + ClusterPlaces(cluster, spc)
      ensures |r.run| < required ==> done == before + ClusterPlaces(cluster, spc) && Unfinished(data, done, required)
      ensures |r.run| == required ==> done != [] && Unfinished(data, done[..|done| - 1], required)
    {
      hide Visited, AllOk, Unfinished, DataOk;
      r, done := start, before;
      var s := 0;
      while s < spc
        invariant 0 <= s <= spc && done == before + ClusterPlaces(cluster, s)
        invariant AllOk(data, done) && r == Visited(data, done) && |r.run| < required
        invariant Unfinished(data, done, required)
      {
        ghost var all := done + SectorPlaces(cluster, s, PER_SECTOR);
        assert all == before + ClusterPlaces(cluster, s + 1);
        r, done := ScanSector(cluster, s, r, required, done);
        ClusterPrefix(cluster, s + 1, spc);
        if |r.run| == required {
          PrefixOfBoth(before, done, ClusterPlaces(cluster, s + 1), ClusterPlaces(cluster, spc));
          return;
        }
        s := s + 1;
      }
    }

    /** The first loop of find_free_slots, along the directory's chain. Either it ends at the first
        run of the wanted length, or it has seen the whole directory, which has no such run, and
        knows the last cluster and the free slots at the end. */
    method ScanDirectory(dir: nat, required: nat) returns (r: Search, last: nat, ghost done: seq<Slot>)
      requires Valid() && dir in files && |chains[dir]| <= MAX_DIRECTORY && required > 0
      ensures AllOk(data, done) && r == Visited(data, done) && |r.run| <= required
      ensures done <= Places(chains[dir], spc)
      ensures |r.run| < required ==> done == Places(chains[dir], spc) && Unfinished(data, done, required)
      ensures |r.run| < required ==> chains[dir] != [] && last == chains[dir][|chains[dir]| - 1]
      ensures |r.run| == required ==> done != [] && Unfinished(data, done[..|done| - 1], required)
    {
      hide IsChain, DataOk, Walk, Visited, AllOk, Unfinished, Places, ClusterPlaces;
      ghost var f, cs := fat[0], chains[dir];
      assert FileChain(f, spc, files[dir], cs);
      StartWalk(f, cs);
      NotEmpty(f, cs);
      UnfinishedNone(data, required);
      PlacesNone(spc);
      assert cs[..0] == [];
      r, done := Search(false, []), [];
      var cluster: nat := files[dir].cluster;
      last := cluster;
      var chain := 0;
      while chain < MAX_DIRECTORY && 2 <= cluster < END
        invariant chain <= |cs| && Walk(f, cs, chain, cluster) && done == Places(cs[..chain], spc)
        invariant AllOk(data, done) && r == Visited(data, done) && |r.run| < required
        invariant Unfinished(data, done, required)
        invariant chain > 0 ==> last == cs[chain - 1]
        decreases |cs| - chain
      {
        WalkEnd(f, cs, chain, cluster);
        WalkStep(f, cs, chain, cluster);
        assert cs[..chain + 1] == cs[..chain] + [cs[chain]];
        PlacesMore(cs[..chain], cs[chain], spc);
        PlacesPrefix(cs, chain + 1, spc);
        r, done := ScanCluster(cluster, r, required, done);
        if |r.run| == required {
          return;
        }
        last := cluster;
        cluster := fat[0][cluster] % MASK;
        chain := chain + 1;
      }
      WalkEnd(f, cs, chain, cluster);
      assert cs[..chain] == cs;
    }

    /** The slots of a cleared sector are taken until there are enough. */
    method TakeSector(cluster: nat, i: nat, start: seq<Slot>, required: nat) returns (full: bool, run: seq<Slot>)
      requires |start| <= required
      ensures full <==> required < |start| + PER_SECTOR
      ensures start <= run <= start + SectorPlaces(cluster, i, PER_SECTOR)
      ensures |run| == Least(required, |start| + PER_SECTOR)
    {
      run := start;
      var e := 0;
      while e < PER_SECTOR
        invariant 0 <= e <= PER_SECTOR && run == start + SectorPlaces(cluster, i, e) && |run| <= required
      {
        if |run| == required {
          assert run <= start + SectorPlaces(cluster, i, PER_SECTOR);
          return true, run;
        }
        run := run + [Slot(cluster, i, e)];
        e := e + 1;
      }
      return false, run;
    }

    /** The body of the second loop of find_free_slots: the sectors of a new cluster are cleared one
        by one and their slots taken, until there are enough. */
    method TakeSlots(cluster: nat, start: seq<Slot>, required: nat) returns (run: seq<Slot>)
      requires TableOk() && cluster < n && |start| < required
      modifies `data
      ensures TableOk() && (forall c | 0 <= c < n && c != cluster :: data[c] == old(data[c]))
      ensures start <= run <= start + ClusterPlaces(cluster, spc)
      ensures |run| == Least(required, |start| + PER_SECTOR * spc)
      ensures forall k | |start| <= k < |run| :: SlotOk(data, run[k]) && Mark(data, run[k]) == END_MARK
    {
      hide Zeros, DataOk, ClusterPlaces, Mark, SlotOk;
      run := start;
      ClusterNone(cluster);
      SectorCount(data, n, spc, cluster);
      var i := 0;
      while i < spc
        invariant 0 <= i <= spc && TableOk() && |data| == n && run == start + ClusterPlaces(cluster, i)
        invariant |run| <= required
        invariant forall c | 0 <= c < n && c != cluster :: data[c] == old(data[c])
        invariant ClearedUpTo(data, cluster, i)
      {
        ghost var before, d := run, data;
        SectorCount(data, n, spc, cluster);
        SetSector(cluster, i, Zeros(SECTOR));
        SectorCount(data, n, spc, cluster);
        ClearedMore(d, data, cluster, i);
        ClusterNext(cluster, i);
        ClusterPrefix(cluster, i + 1, spc);
        assert before + SectorPlaces(cluster, i, PER_SECTOR) == start + ClusterPlaces(cluster, i + 1);
        var full;
        full, run := TakeSector(cluster, i, run, required);
        if full {
          PrefixOfBoth(start, run, ClusterPlaces(cluster, i + 1), ClusterPlaces(cluster, spc));
          ClearedMarks(data, cluster, i + 1, start, run);
          return;
        }
        assert run == before + SectorPlaces(cluster, i, PER_SECTOR);
        i := i + 1;
      }
      ClearedMarks(data, cluster, i, start, run);
    }

    /** One round of the second loop of find_free_slots: a new cluster behind the directory, and its slots. */
    method GrowOnce(dir: nat, last: nat, start: seq<Slot>, required: nat) returns (next: nat, run: seq<Slot>)
      requires Valid() && dir in files && chains[dir] != [] && last == chains[dir][|chains[dir]| - 1]
      requires |start| < required
      modifies `fat, `data, `chains
      ensures Valid() && OnlyChain(old(chains), chains, dir) && (forall a | a in files :: Content(a) == old(Content(a)))
      ensures Moved(old(fat[0]), fat[0], old(chains[dir]), chains[dir])
      ensures |FreeClusters(fat[0])| == |FreeClusters(old(fat[0]))| - if next != 0 then 1 else 0
      ensures next == 0 ==> chains == old(chains) && FreeClusters(fat[0]) == {} && data == old(data) && run == start
      ensures next != 0 ==> next < n && chains[dir] == old(chains[dir]) + [next] && next in FreeClusters(old(fat[0]))
      ensures next != 0 ==> forall c | 0 <= c < n && c != next :: data[c] == old(data[c])
      ensures next != 0 ==> start <= run <= start + ClusterPlaces(next, spc)
      ensures next != 0 ==> |run| == Least(required, |start| + PER_SECTOR * spc)
      ensures next != 0 ==> forall k | |start| <= k < |run| :: SlotOk(data, run[k]) && Mark(data, run[k]) == END_MARK
    {
      hide IsChain, DataOk, Bytes, Moved, Chained, FreeClusters, ClusterPlaces;
      ghost var before := data;
      SameKeys(fat[0], spc, files, chains);
      OldSize(fat[0], spc, files, chains, dir);
      next := ExtendOne(dir, last);
      run := start;
      if next != 0 {
        run := TakeSlots(next, start, required);
        forall a | a in files ensures ReadsSame(before, data, files[a].size, chains[a]) {
          BehindContent(fat[0], before, data, n, spc, files, chains, dir, a);
        }
      }
    }

    /** The second loop of find_free_slots: clusters are linked behind the directory until there are
        slots enough, or no cluster is left. */
    method GrowDirectory(dir: nat, end: nat, start: seq<Slot>, required: nat) returns (ok: bool, run: seq<Slot>)
      requires Valid() && dir in files && chains[dir] != [] && end == chains[dir][|chains[dir]| - 1]
      requires |start| < required
      requires |start| <= |Places(chains[dir], spc)|
      requires start == Places(chains[dir], spc)[|Places(chains[dir], spc)| - |start|..]
      modifies `fat, `data, `chains
      ensures Valid() && (forall a | a in files :: Content(a) == old(Content(a)))
      ensures Progress(old(D()), D(), dir, spc, start, run, required)
      ensures ok <==> |run| == required
      ensures !ok ==> FreeClusters(fat[0]) == {}
    {
      hide IsChain, DataOk, Bytes, Moved, Chained, FreeClusters, ClusterPlaces, Places, Grown, OnlyChain, Progress;
      ghost var d0 := D();
      SameKeys(fat[0], spc, files, chains);
      ProgressNone(d0, dir, spc, start, required);
      run := start;
      var last := end;
      while |run| < required
        invariant Valid() && dir in chains && chains[dir] != [] && last == chains[dir][|chains[dir]| - 1]
        invariant forall a | a in files :: Content(a) == old(Content(a))
        invariant |run| <= required && Progress(d0, D(), dir, spc, start, run, required)
        decreases required - |run|
      {
        ghost var d1, before := D(), run;
        forall c | c in FreeClusters(fat[0]) ensures c !in chains[dir] {
          FreeNotIn(fat[0], spc, files, chains, dir, c);
        }
        var next;
        DataLength(data, n, spc);
        next, run := GrowOnce(dir, last, run, required);
        DataLength(data, n, spc);
        OnlyKeys(d1.chains, chains, dir);
        if next == 0 {
          ProgressStuck(d0, d1, D(), dir, spc, start, run, required);
          return false, run;
        }
        OneMore(required, |before|, spc);
        
        ProgressStep(d0, d1, D(), dir, spc, start, before, run, required, next);
        last := next;
      }
      return true, run;
    }

    /** find_free_slots: the first run of free slots that is long enough, or the one at the end of
        the directory made longer by new clusters. It fails exactly when clusters run out, and has
        then linked all there were behind the directory. */
    method FindFreeSlots(dir: nat, required: nat) returns (ok: bool, slots: seq<Slot>, ghost p: nat)
      requires Valid() && dir in files && |chains[dir]| <= MAX_DIRECTORY && required > 0
      modifies `fat, `data, `chains
      ensures Valid() && (forall a | a in files :: Content(a) == old(Content(a)))
      ensures Grown(old(D()), D(), dir) && Extended(old(D()), D(), dir, spc, required, ok)
      ensures ok <==> Room(old(D()), dir, spc, required, |FreeClusters(old(fat[0]))|)
      ensures ok ==> |slots| == required && SlotsFrom(old(D()), D(), dir, spc, slots, p)
    {
      hide IsChain, DataOk, Bytes, Moved, Chained, FreeClusters, ClusterPlaces, Places, Grown, OnlyChain, Progress,
        Visited, AllOk, Unfinished, HasRun, Room, Extended, SlotsFrom;
      ghost var d := D();
      SameKeys(fat[0], spc, files, chains);
      DirectoryOk(fat[0], data, n, spc, files, chains, dir);
      var r, last;
      ghost var done;
      r, last, done := ScanDirectory(dir, required);
      if |r.run| == required {
        p := Found(d, dir, spc, required, done);
        return true, r.run, p;
      }
      NotFound(d, dir, spc, required);
      p := |Places(chains[dir], spc)| - |r.run|;
      ok, slots := GrowDirectory(dir, last, r.run, required);
      Ended(d, D(), dir, spc, r.run, slots, required, ok);
    }

    /** Reading a directory sector, changing one entry of it, and writing it back. */
    method WriteSlot(at: Slot, item: seq<byte>)
      requires TableOk() && SlotOk(data, at) && |item| == SLOT
      modifies `data
      ensures TableOk() && Stored(old(data), data, [at], [item])
    {
      hide DataOk, Stored;
      ghost var before := data;
      var o, sector := SLOT * at.index, data[at.cluster][at.sector];
      SlotFits(data, n, spc, at);
      DataLength(data, n, spc);
      SetSector(at.cluster, at.sector, sector[..o] + item + sector[o + SLOT..]);
      DataLength(data, n, spc);
      OneStored(before, data, at, item);
    }

    /** The loop of create_named_entry over its slots. */
    method WriteSlots(slots: seq<Slot>, items: seq<seq<byte>>)
      requires TableOk() && |slots| == |items| && AllOk(data, slots)
      requires forall i | 0 <= i < |items| :: |items[i]| == SLOT
      requires forall i, j | 0 <= i < j < |slots| :: slots[i] != slots[j]
      modifies `data
      ensures TableOk() && Stored(old(data), data, slots, items)
    {
      hide DataOk, Stored, AllOk;
      ghost var before := data;
      StoredNone(before);
      assert slots[..0] == [] && items[..0] == [];
      var i := 0;
      while i < |slots|
        invariant 0 <= i <= |slots| && TableOk() && Stored(before, data, slots[..i], items[..i])
      {
        ghost var middle := data;
        StillOk(before, data, slots[..i], items[..i], slots, i);
        WriteSlot(slots[i], items[i]);
        StoredMore(before, middle, data, slots, items, i);
        i := i + 1;
      }
      assert slots[..i] == slots && items[..i] == items;
    }

    /** create_named_entry for a name that may be entered: `long` are its long-name slots, `alias` its
        short name. The entry goes into free slots and disturbs no other. */
    method NameEntry(dir: nat, long: seq<seq<byte>>, alias: seq<byte>, attributes: byte, cluster: nat)
      returns (ok: bool, slots: seq<Slot>, ghost p: nat)
      requires Valid() && dir in files && files[dir].directory && |chains[dir]| <= MAX_DIRECTORY
      requires |alias| == 11 && forall i | 0 <= i < |long| :: |long[i]| == SLOT
      modifies `fat, `data, `chains
      ensures Valid() && (forall a | a in files :: Content(a) == old(Content(a)))
      ensures GrownTable(old(D()), D(), dir) && Extended(old(D()), D(), dir, spc, |long| + 1, ok)
      ensures ok <==> Room(old(D()), dir, spc, |long| + 1, |FreeClusters(old(fat[0]))|)
      ensures ok ==> Entered(old(D()), D(), dir, spc, p, long + [ShortEntry(alias, attributes, cluster)])
      ensures ok ==> |slots| == |long| + 1 && slots == Places(chains[dir], spc)[p..p + |slots|]
      ensures !ok ==> Grown(old(D()), D(), dir)
    {
      hide IsChain, DataOk, Bytes, Chained, Grown, Extended, Room, SlotsFrom, Places, GrownTable, Entered, FreeClusters,
        Stored, AllOk, ShortEntry;
      ghost var d := D();
      SameKeys(fat[0], spc, files, chains);
      ok, slots, p := FindFreeSlots(dir, |long| + 1);
      GrownGives(d, D(), dir);
      if ok {
        ghost var d1, items := D(), long + [ShortEntry(alias, attributes, cluster)];
        SameKeys(fat[0], spc, files, chains);
        DirectoryOk(fat[0], data, n, spc, files, chains, dir);
        RunOk(data, chains[dir], spc, slots, p, d, d1, dir);
        WriteSlots(slots, long + [ShortEntry(alias, attributes, cluster)]);
        EnteredNow(d, d1, D(), dir, spc, slots, p, items);
        SameTable(d, d1, D(), dir, spc, |long| + 1, ok);
        SlotAt(d, d1, dir, spc, slots, p);
        forall a | a in files ensures ReadsSame(d1.data, data, files[a].size, chains[a]) {
          DirectoryContent(fat[0], d1.data, data, n, spc, files, chains, dir, slots, items, a);
        }
      }
    }

    /** fat32_create_file for a name that is not there yet; `name` is what create_named_entry makes of
        it, if anything. Clusters move only from the free ones to the new file and to the end of the
        parent directory. A failure gives the file's cluster back, but not what was linked behind
        the directory: that is then every other free cluster. */
    method Create(id: nat, dir: nat, name: Option<Name>) returns (ok: bool, slots: seq<Slot>, ghost p: nat)
      requires Valid() && id !in files && dir in files && files[dir].directory && |chains[dir]| <= MAX_DIRECTORY
      requires name.Some? ==> NameOk(name.value)
      modifies `fat, `data, `files, `chains
      ensures Valid() && OthersKept(old(files), files, old(chains), chains, dir)
      ensures forall a | a in old(files) :: Content(a) == old(Content(a))
      ensures ok <==> name.Some? && CanCreate(old(D()), dir, spc, |name.value.long| + 1)
      ensures files.Keys == old(files.Keys) + if ok then {id} else {}
      ensures TakenBy(old(fat[0]), fat[0], old(chains[dir]), chains[dir], if ok then chains[id] else [])
      ensures !ok ==> |chains[dir]| - |old(chains[dir])| == if name.Some? then Left(old(fat[0])) else 0
      ensures |chains[dir]| - |old(chains[dir])| <= 2
      ensures ok ==> |chains[id]| == 1 && files[id] == File(chains[id][0], 0, false) && Content(id) == []
      ensures ok ==>
        Entered(old(D()), D(), dir, spc, p,
          name.value.long + [ShortEntry(name.value.alias, FILE_ATTRIBUTE, files[id].cluster)])
      ensures ok ==> |slots| == |name.value.long| + 1 && slots == Places(chains[dir], spc)[p..p + |slots|]
      ensures ok ==> Describes(data, slots[|slots| - 1], files[id])
      ensures !ok ==> DataKept(old(D()), D(), dir)
    {
      hide IsChain, DataOk, Bytes, Chained, Extended, Room, Places, GrownTable, Entered, FreeClusters, ShortEntry,
        TakenBy, Describes, OthersKept, CanCreate, Left, Next, DataKept, Grown;
      ghost var d := D();
      slots, p := [], 0;
      SameKeys(fat[0], spc, files, chains);
      OthersRefl(files, chains, dir);
      var cluster := AllocateCluster();
      if cluster == 0 {
        NoneFree(d.table);
        NothingLeft(d, dir, spc);
        NothingTaken(d.table, chains[dir]);
        DataKeptRefl(d, D(), dir);
        return false, slots, p;
      }
      FreeOutside(d.table, spc, files, chains, cluster);
      ChainedSame(d.table, fat[0], spc, files, chains);
      if name.None? {
        UpdateFat(cluster, 0);
        ChainedSame(d.table, fat[0], spc, files, chains);
        GivenBack(d.table, fat[0], chains[dir], cluster);
        DataKeptRefl(d, D(), dir);
        return false, slots, p;
      }
      ok, slots, p := EnterFile(id, dir, name.value, cluster, d);
    }

    /** A cluster in no chain goes back to the free ones. */
    method DropCluster(cluster: nat)
      requires Valid() && cluster < n && forall a | a in chains :: cluster !in chains[a]
      modifies `fat
      ensures Valid() && fat[0] == old(fat[0])[cluster := 0]
      ensures forall a | a in files :: Content(a) == old(Content(a))
    {
      hide IsChain, DataOk, Bytes, Chained;
      ghost var f := fat[0];
      UpdateFat(cluster, 0);
      ChainedSame(f, fat[0], spc, files, chains);
    }

    /** A cluster in no other chain becomes the whole of a new, empty file. */
    method AdoptCluster(id: nat, cluster: nat)
      requires Valid() && id !in files && IsChain(fat[0], [cluster])
      requires forall a | a in chains :: Apart(chains[a], [cluster])
      modifies `files, `chains
      ensures Valid() && files == old(files)[id := File(cluster, 0, false)] && chains == old(chains)[id := [cluster]]
      ensures Content(id) == [] && forall a | a in old(files) :: Content(a) == old(Content(a))
    {
      hide IsChain, DataOk, Bytes, Chained;
      SameKeys(fat[0], spc, files, chains);
      ChainedUpdate(fat[0], fat[0], spc, files, chains, id, File(cluster, 0, false), [cluster]);
      files := files[id := File(cluster, 0, false)];
      chains := chains[id := [cluster]];
    }

    /** The rest of fat32_create_file, once the file's cluster has been found. */
    method EnterFile(id: nat, dir: nat, name: Name, cluster: nat, ghost d: Disk)
      returns (ok: bool, slots: seq<Slot>, ghost p: nat)
      requires Valid() && id !in files && dir in files && files[dir].directory && |chains[dir]| <= MAX_DIRECTORY
      requires NameOk(name)
      requires InRange(d.table, cluster) && Next(d.table, cluster) == 0 && fat[0] == d.table[cluster := LAST]
      requires d.data == data && d.chains == chains && forall a | a in chains :: cluster !in chains[a]
      modifies `fat, `data, `files, `chains
      ensures Valid() && OthersKept(old(files), files, old(chains), chains, dir)
      ensures forall a | a in old(files) :: Content(a) == old(Content(a))
      ensures ok <==> CanCreate(d, dir, spc, |name.long| + 1)
      ensures files.Keys == old(files.Keys) + if ok then {id} else {}
      ensures TakenBy(d.table, fat[0], d.chains[dir], chains[dir], if ok then chains[id] else [])
      ensures !ok ==> |chains[dir]| - |d.chains[dir]| == Left(d.table)
      ensures |chains[dir]| - |d.chains[dir]| <= 2
      ensures ok ==> |chains[id]| == 1 && files[id] == File(chains[id][0], 0, false) && Content(id) == []
      ensures ok ==>
        Entered(d, D(), dir, spc, p, name.long + [ShortEntry(name.alias, FILE_ATTRIBUTE, files[id].cluster)])
      ensures ok ==> |slots| == |name.long| + 1 && slots == Places(chains[dir], spc)[p..p + |slots|]
      ensures ok ==> Describes(data, slots[|slots| - 1], files[id])
      ensures !ok ==> DataKept(d, D(), dir)
    {
      hide IsChain, DataOk, Bytes, Chained, Extended, Room, Places, GrownTable, Entered, FreeClusters, ShortEntry,
        TakenBy, Describes, OthersKept, CanCreate, Left, Next, DataKept, Grown, Apart;
      ghost var d1 := D();
      ok, slots, p := NameEntry(dir, name.long, name.alias, FILE_ATTRIBUTE, cluster);
      ghost var d2 := D();
      AfterEntry(files, d, d1, d2, dir, spc, |name.long| + 1, cluster, ok);
      if ok {
        AdoptCluster(id, cluster);
        KeptWith(old(files), d1.chains, d2.chains, dir, id, File(cluster, 0, false), [cluster]);
        EnteredFrame(d1, d2, d, D(), dir, spc, p, name.long + [ShortEntry(name.alias, FILE_ATTRIBUTE, cluster)]);
        NewDescribed(d, D(), dir, spc, p, name, cluster);
      } else {
        DropCluster(cluster);
        DataKeptFrom(d, d1, d2, D(), dir);
      }
    }

    /** The loop of fat32_unlink_file, and of the end of fat32_write_file: gives back the clusters
        from `first` on, which are the chain `cs` from place `i` on. */
    method FreeChain(first: nat, ghost f: seq<nat>, ghost cs: seq<nat>, ghost i: nat)
      requires TableOk() && IsChain(f, cs) && Walk(f, cs, i, first) && |f| == n
      requires forall j | i <= j < |cs| && cs[j] < n :: fat[0][cs[j]] == f[cs[j]]
      modifies `fat
      ensures TableOk()
      ensures forall c | 0 <= c < n :: fat[0][c] == if c in cs[i..] then 0 else old(fat[0][c])
    {
      hide IsChain, DataOk, Walk;
      ghost var k := i;
      var cluster: nat := first;
      WalkEnd(f, cs, k, cluster);
      assert cs[i..i] == [];
      while 2 <= cluster < END
        invariant i <= k <= |cs| && TableOk() && Walk(f, cs, k, cluster)
        invariant forall j | k <= j < |cs| && cs[j] < n :: fat[0][cs[j]] == f[cs[j]]
        invariant forall c | 0 <= c < n :: fat[0][c] == if c in cs[i..k] then 0 else old(fat[0][c])
        decreases |cs| - k
      {
        WalkEnd(f, cs, k, cluster);
        WalkStep(f, cs, k, cluster);
        var next := fat[0][cluster] % MASK;
        UpdateFat(cluster, 0);
        assert cs[i..k + 1] == cs[i..k] + [cs[k]];
        FreeStep(f, cs, k);
        k := k + 1;
        cluster := next;
        WalkEnd(f, cs, k, cluster);
      }
      WalkEnd(f, cs, k, cluster);
    }

    /** The loop of mark_entry_deleted: the first byte of each slot of the entry says so. */
    method MarkDeleted(slots: seq<Slot>)
      requires TableOk() && AllOk(data, slots)
      modifies `data
      ensures TableOk() && Deleted(old(data), data, slots)
    {
      hide DataOk, AllOk, Deleted, Stored;
      ghost var before := data;
      DeletedNone(before);
      assert slots[..0] == [];
      var i := 0;
      while i < |slots|
        invariant 0 <= i <= |slots| && TableOk() && Deleted(before, data, slots[..i])
      {
        ghost var middle := data;
        DeletedOk(before, data, slots, i);
        var e := SlotBytes(data, slots[i]);
        WriteSlot(slots[i], [DELETED_MARK] + e[1..]);
        DeletedMore(before, middle, data, slots, i);
        i := i + 1;
      }
      assert slots[..i] == slots;
    }

    /** fat32_unlink_file, whose entry takes the `slots` of the directory `dir`: the entry is marked
        as deleted, and exactly the file's clusters become free. Directories are refused. */
    method Unlink(id: nat, dir: nat, slots: seq<Slot>) returns (ok: bool)
      requires Valid() && id in files && dir in files && files[dir].directory
      requires AllOk(data, slots) && forall i | 0 <= i < |slots| :: slots[i].cluster in chains[dir]
      modifies `fat, `data, `files, `chains
      ensures Valid() && (ok <==> !old(files[id]).directory)
      ensures !ok ==> files == old(files) && D() == old(D())
      ensures ok ==> files == old(files) - {id} && chains == old(chains) - {id} && Deleted(old(data), data, slots)
      ensures ok ==> forall c | 0 <= c < n :: fat[0][c] == if c in old(chains[id]) then 0 else old(fat[0][c])
      ensures forall a | a in files :: Content(a) == old(Content(a))
    {
      hide IsChain, DataOk, Bytes, Deleted, AllOk, Chained;
      if files[id].directory {
        return false;
      }
      ghost var before := data;
      SameKeys(fat[0], spc, files, chains);
      MarkDeleted(slots);
      forall a | a in files ensures ReadsSame(before, data, files[a].size, chains[a]) {
        DeletedContent(fat[0], before, data, n, spc, files, chains, dir, slots, a);
      }
      FreeFile(id);
      return true;
    }

    /** The chain of a file is given back, and the file is no more. */
    method FreeFile(id: nat)
      requires Valid() && id in files
      modifies `fat, `files, `chains
      ensures Valid() && files == old(files) - {id} && chains == old(chains) - {id}
      ensures forall c | 0 <= c < n :: fat[0][c] == if c in old(chains[id]) then 0 else old(fat[0][c])
      ensures forall a | a in files :: Content(a) == old(Content(a))
    {
      hide IsChain, DataOk, Bytes, Chained;
      SameKeys(fat[0], spc, files, chains);
      ghost var f, cs := fat[0], chains[id];
      ChainOf(f, spc, files, chains, id);
      assert cs[0..] == cs;
      StartWalk(f, cs);
      FreeChain(files[id].cluster, f, cs, 0);
      OthersOutside(f, spc, files, chains, id);
      ChainedRemove(f, fat[0], spc, files, chains, id);
      files := files - {id};
      chains := chains - {id};
    }

    /** fat32_read_file: the first bytes of the file, as many as there is room for; nothing from a
        directory. */
    method Read(id: nat, capacity: nat) returns (buffer: Option<seq<byte>>)
      requires Valid() && id in files
      ensures buffer.None? <==> files[id].directory
      ensures buffer.Some? ==>
        buffer.value == Content(id)[..if files[id].size < capacity then files[id].size else capacity]
    {
      if files[id].directory {
        return None;
      }
      var bytes := ReadChain(id, capacity);
      return Some(bytes);
    }

    method ReadChain(id: nat, capacity: nat) returns (buffer: seq<byte>)
      requires Valid() && id in files
      ensures buffer == Content(id)[..if files[id].size < capacity then files[id].size else capacity]
    {
      hide IsChain, DataOk, Walk, Bytes, Flat;
      ghost var f, cs := fat[0], chains[id];
      assert FileChain(f, spc, files[id], cs);
      ContentSize(f, data, n, spc, files[id], cs);
      StartWalk(f, cs);
      BytesNone(data);
      assert cs[..0] == [];
      var total := if files[id].size < capacity then files[id].size else capacity;
      buffer := [];
      var cluster: nat := files[id].cluster;
      ghost var i := 0;
      while |buffer| < total && 2 <= cluster < END
        invariant |buffer| <= total && Walk(f, cs, i, cluster) && i <= |cs|
        invariant if |buffer| < total then buffer == Bytes(data, cs[..i]) else buffer == Bytes(data, cs)[..total]
        decreases |cs| - i
      {
        WalkEnd(f, cs, i, cluster);
        WalkStep(f, cs, i, cluster);
        buffer := ReadCluster(cluster, buffer, total, cs, i);
        cluster := fat[0][cluster] % MASK;
        i := i + 1;
      }
      WalkEnd(f, cs, i, cluster);
      if i == |cs| {
        assert cs[..i] == cs;
      }
    }

    method ReadCluster(cluster: nat, buffer: seq<byte>, total: nat, ghost cs: seq<nat>, ghost i: nat)
      returns (r: seq<byte>)
      requires TableOk() && cluster < n && i < |cs| && cs[i] == cluster && (forall k | 0 <= k < |cs| :: cs[k] < |data|)
      requires |buffer| < total <= |Bytes(data, cs)| && buffer == Bytes(data, cs[..i])
      ensures |r| <= total && if |r| < total then r == Bytes(data, cs[..i + 1]) else r == Bytes(data, cs)[..total]
    {
      hide Bytes, Flat;
      r := buffer;
      var s := 0;
      FlatNone(data[cluster]);
      while s < spc && |r| < total
        invariant 0 <= s <= spc && |r| <= total
        invariant if |r| < total then r == buffer + Flat(data[cluster][..s]) else r == Bytes(data, cs)[..total]
      {
        var amount := if total - |r| < SECTOR then total - |r| else SECTOR;
        SectorOf(data, n, spc, cs, i, s);
        FlatStep(data[cluster], s);
        r := r + data[cluster][s][..amount];
        s := s + 1;
      }
      if |r| < total {
        assert data[cluster][..s] == data[cluster];
        BytesStep(data, cs, i);
      }
    }

    /** The clusters of a file, 32 at most. */
    method Collect(id: nat) returns (clusters: seq<nat>)
      requires Valid() && id in files
      ensures clusters == chains[id][..Least(MAX_CLUSTERS, |chains[id]|)] && clusters != []
    {
      hide IsChain, DataOk, Walk;
      ghost var f, cs := fat[0], chains[id];
      assert FileChain(f, spc, files[id], cs);
      StartWalk(f, cs);
      clusters := [];
      var cluster: nat := files[id].cluster;
      while 2 <= cluster < END && |clusters| < MAX_CLUSTERS
        invariant |clusters| <= MAX_CLUSTERS && |clusters| <= |cs| && clusters == cs[..|clusters|]
        invariant Walk(f, cs, |clusters|, cluster)
        decreases |cs| - |clusters|
      {
        WalkEnd(f, cs, |clusters|, cluster);
        WalkStep(f, cs, |clusters|, cluster);
        clusters := clusters + [cluster];
        cluster := fat[0][cluster] % MASK;
      }
      WalkEnd(f, cs, |clusters|, cluster);
      NotEmpty(f, cs);
    }

    /** One round of the loops that make a chain longer, in fat32_write_file and find_free_slots: a
        free cluster is linked behind the last one; 0 if there is none. */
    method ExtendOne(id: nat, last: nat) returns (next: nat)
      requires Valid() && id in files && chains[id] != [] && last == chains[id][|chains[id]| - 1]
      modifies `fat, `chains
      ensures Valid() && OnlyChain(old(chains), chains, id)
      ensures forall a | a in files && a != id :: Content(a) == old(Content(a))
      ensures Content(id) == old(Content(id))
      ensures if next == 0 then chains == old(chains) && FreeClusters(fat[0]) == {}
              else next < n && chains[id] == old(chains[id]) + [next] && next in FreeClusters(old(fat[0]))
      ensures Moved(old(fat[0]), fat[0], old(chains[id]), chains[id])
      ensures |FreeClusters(fat[0])| == |FreeClusters(old(fat[0]))| - if next != 0 then 1 else 0
    {
      hide IsChain, DataOk, Bytes, Moved;
      ghost var f, cs := fat[0], chains[id];
      assert FileChain(f, spc, files[id], cs);
      next := AllocateCluster();
      if next == 0 {
        MovedRefl(f, cs);
        NoneFree(f);
        return;
      }
      FreeOutside(f, spc, files, chains, next);
      OneTaken(f, cs, next);
      LastOf(f, cs);
      UpdateFat(last, next);
      Longer(f, spc, files, chains, id, next);
      chains := chains[id := cs + [next]];
      LongerContent(fat[0], data, n, spc, files, old(chains), chains, id, cs, cs + [next]);
    }

    /** The part of fat32_write_file that gives back clusters a shorter file no longer needs. */
    method Shorten(id: nat, clusters: seq<nat>, required: nat, ghost size: nat)
      requires Valid() && id in files && !files[id].directory && clusters <= chains[id]
      requires 0 < required <= |clusters| && size <= required * (SECTOR * spc)
      modifies `fat, `chains
      ensures TableOk() && OnlyChain(old(chains), chains, id)
      ensures Chained(fat[0], spc, files[id := files[id].(size := size)], chains)
      ensures chains[id] == if required < |clusters| then clusters[..required] else old(chains[id])
      ensures forall c | 0 <= c < n && c !in old(chains[id]) :: fat[0][c] == old(fat[0][c])
      ensures Moved(old(fat[0]), fat[0], old(chains[id]), chains[id])
    {
      hide IsChain, DataOk, Walk, Moved, Chained;
      SameKeys(fat[0], spc, files, chains);
      ghost var f, cs := fat[0], chains[id];
      ChainOf(f, spc, files, chains, id);
      if required < |clusters| {
        CutAt(f, cs, required);
        CutChain(f, cs, required);
        var last := clusters[required - 1];
        var next := fat[0][last] % MASK;
        UpdateFat(last, LAST);
        FreeChain(next, f, cs, required);
        ShorterChained(f, fat[0], spc, files, chains, id, required, size);
        ShorterMoved(f, fat[0], cs, required);
        chains := chains[id := cs[..required]];
        assert clusters[..required] == cs[..required];
      } else {
        Resized(f, spc, files, chains, id, required, size);
        MovedRefl(f, cs);
      }
    }

    /** The loop of fat32_write_file over clusters and sectors: the buffer, padded with zeros. */
    method WriteData(clusters: seq<nat>, buffer: seq<byte>)
      requires TableOk() && |buffer| <= |clusters| * (SECTOR * spc)
      requires forall i | 0 <= i < |clusters| :: clusters[i] < n
      requires forall i, j | 0 <= i < j < |clusters| :: clusters[i] != clusters[j]
      modifies `data
      ensures TableOk() && (forall c | 0 <= c < n && c !in clusters :: data[c] == old(data[c]))
      ensures |Bytes(data, clusters)| >= |buffer| && Bytes(data, clusters)[..|buffer|] == buffer
    {
      hide Bytes, Flat;
      assert clusters[..0] == [];
      BytesNone(data);
      ghost var cb := SECTOR * spc;
      ghost var p := Padded(buffer, |clusters| * cb);
      var copied, k := 0, 0;
      while k < |clusters|
        invariant 0 <= k <= |clusters| && TableOk() && copied == Least(k * cb, |buffer|)
        invariant forall c | 0 <= c < n && c !in clusters :: data[c] == old(data[c])
        invariant k * cb <= |p| && Bytes(data, clusters[..k]) == p[..k * cb]
      {
        ghost var before := data;
        PlaceOf(k, |clusters|, cb);
        copied := WriteCluster(clusters[k], buffer, copied, p, k * cb);
        BytesFrame(before, data, clusters[..k]);
        BytesStep(data, clusters, k);
        NextPlace(k, cb);
        assert p[..k * cb] + p[k * cb..k * cb + cb] == p[..k * cb + cb];
        k := k + 1;
      }
      assert clusters[..k] == clusters;
    }

    method WriteCluster(cluster: nat, buffer: seq<byte>, from: nat, ghost p: seq<byte>, ghost at: nat)
      returns (copied: nat)
      requires TableOk() && cluster < n && |buffer| <= |p| && p == Padded(buffer, |p|) && at + SECTOR * spc <= |p|
      requires from == Least(at, |buffer|)
      modifies `data
      ensures TableOk() && copied == Least(at + SECTOR * spc, |buffer|)
      ensures forall c | 0 <= c < n && c != cluster :: data[c] == old(data[c])
      ensures Flat(data[cluster]) == p[at..at + SECTOR * spc]
    {
      hide Flat, Padded, Zeros;
      copied := from;
      FlatNone(data[cluster]);
      var s := 0;
      ghost var o := at;
      while s < spc
        invariant 0 <= s <= spc && o == at + SECTOR * s && TableOk() && copied == Least(o, |buffer|)
        invariant forall c | 0 <= c < n && c != cluster :: data[c] == old(data[c])
        invariant Flat(data[cluster][..s]) == p[at..o]
      {
        var amount := if copied < |buffer| then |buffer| - copied else 0;
        if amount > SECTOR {
          amount := SECTOR;
        }
        var sector: seq<byte> := buffer[copied..copied + amount] + Zeros(SECTOR - amount);
        SectorSlice(buffer, p, o, copied, amount);
        ghost var sectors := data[cluster];
        SetSector(cluster, s, sector);
        assert data[cluster][..s] == sectors[..s];
        FlatStep(data[cluster], s);
        Joined(p, at, o, o + SECTOR);
        o := o + SECTOR;
        copied := copied + amount;
        s := s + 1;
      }
      assert data[cluster][..s] == data[cluster];
    }

    method SetSector(cluster: nat, s: nat, sector: seq<byte>)
      requires TableOk() && cluster < n && s < spc && |sector| == SECTOR
      modifies `data
      ensures TableOk() && (forall c | 0 <= c < n && c != cluster :: data[c] == old(data[c]))
      ensures data[cluster] == old(data[cluster])[s := sector]
    {
      var sectors: seq<seq<byte>> := data[cluster][s := sector];
      data := data[cluster := sectors];
    }

    /** fat32_write_file, whose entry is the slot `at` of the directory `dir`. On success the file
        holds exactly the buffer, in as many clusters as it needs, and its entry says how long it is.
        It fails for a directory, and exactly when more than 32 clusters, or more than there are,
        would be needed, and then every file holds what it held. Either way no other cluster changes
        hands, and nothing else changes on disk. */
    method Write(id: nat, dir: nat, at: Slot, buffer: seq<byte>) returns (ok: bool)
      requires Valid() && id in files && dir in files && files[dir].directory
      requires at.cluster in chains[dir] && Describes(data, at, files[id])
      modifies `fat, `data, `files, `chains
      ensures Valid() && OnlyChain(old(chains), chains, id)
      ensures files == if ok then old(files)[id := old(files[id]).(size := |buffer|)] else old(files)
      ensures Content(id) == if ok then buffer else old(Content(id))
      ensures forall a | a in files && a != id :: Content(a) == old(Content(a))
      ensures Moved(old(fat[0]), fat[0], old(chains[id]), chains[id]) && Describes(data, at, files[id])
      ensures OnlySize(old(data), data, chains[id], at, |buffer|)
      ensures ok <==> var required := Required(|buffer|, SECTOR * spc);
        && !old(files[id]).directory && |buffer| <= MAX_UINT32 && required <= MAX_CLUSTERS
        && required <= |old(chains[id])| + |FreeClusters(old(fat[0]))|
      ensures ok && |old(chains[id])| <= MAX_CLUSTERS ==> |chains[id]| == Required(|buffer|, SECTOR * spc)
    {
      hide IsChain, DataOk, Bytes, Chained, OnlyChain, Required, Next, Moved, Describes, OnlySize, Stored, FreeClusters;
      SameKeys(fat[0], spc, files, chains);
      OnlyRefl(chains, id);
      MovedRefl(fat[0], chains[id]);
      SizeRefl(data, chains[id], at, |buffer|);
      if files[id].directory || |buffer| > MAX_UINT32 {
        return false;
      }
      DescribedOk(data, at, files[id]);
      ghost var before, c0 := data, chains;
      DataLength(data, n, spc);
      ok := WriteFile(id, buffer);
      ghost var middle := data;
      DataLength(data, n, spc);
      SameKeys(fat[0], spc, files, chains);
      SizeRefl(data, chains[id], at, |buffer|);
      if ok {
        EntryApart(fat[0], spc, files, c0, chains, id, dir, at);
        EntryKept(before, middle, chains[id], at);
        WriteSlot(at, WithSize(SlotBytes(data, at), |buffer|));
        forall a | a in files ensures ReadsSame(middle, data, files[a].size, chains[a]) {
          DirectoryContent(fat[0], middle, data, n, spc, files, chains, dir, [at],
            [WithSize(SlotBytes(middle, at), |buffer|)], a);
        }
        SizeEntered(before, middle, data, chains[id], at, old(files[id]), |buffer|);
      }
    }

    /** Everything fat32_write_file does to the file itself. */
    method WriteFile(id: nat, buffer: seq<byte>) returns (ok: bool)
      requires Valid() && id in files && !files[id].directory
      modifies `fat, `data, `files, `chains
      ensures Valid() && OnlyChain(old(chains), chains, id)
      ensures files == if ok then old(files)[id := old(files[id]).(size := |buffer|)] else old(files)
      ensures Content(id) == if ok then buffer else old(Content(id))
      ensures forall a | a in files && a != id :: Content(a) == old(Content(a))
      ensures Moved(old(fat[0]), fat[0], old(chains[id]), chains[id])
      ensures forall c | 0 <= c < n && c !in chains[id] :: data[c] == old(data[c])
      ensures ok <==> var required := Required(|buffer|, SECTOR * spc);
        required <= MAX_CLUSTERS && required <= |old(chains[id])| + |FreeClusters(old(fat[0]))|
      ensures ok && |old(chains[id])| <= MAX_CLUSTERS ==> |chains[id]| == Required(|buffer|, SECTOR * spc)
      ensures !ok ==> data == old(data)
    {
      hide IsChain, DataOk, Bytes, Chained, OnlyChain, Required, Next, Moved;
      SameKeys(fat[0], spc, files, chains);
      OnlyRefl(chains, id);
      MovedRefl(fat[0], chains[id]);
      var required := Required(|buffer|, SECTOR * spc);
      var clusters := Collect(id);
      if required > MAX_CLUSTERS {
        return false;
      }
      var longer;
      ok, longer := ExtendTo(id, clusters, required);
      if ok {
        ghost var c1, f1 := chains, fat[0];
        Rewrite(id, longer, required, buffer);
        OnlyTrans(old(chains), c1, chains, id);
        OnlyKeys(old(chains), c1, id);
        OnlyKeys(old(chains), chains, id);
        MovedTrans(old(fat[0]), f1, fat[0], old(chains)[id], c1[id], chains[id]);
      }
    }

    /** The loop of fat32_write_file that makes a chain long enough. */
    method ExtendTo(id: nat, clusters: seq<nat>, required: nat) returns (ok: bool, longer: seq<nat>)
      requires Valid() && id in files && clusters <= chains[id] && (|clusters| < required ==> clusters == chains[id])
      modifies `fat, `chains
      ensures Valid() && OnlyChain(old(chains), chains, id)
      ensures forall a | a in files :: Content(a) == old(Content(a))
      ensures Moved(old(fat[0]), fat[0], old(chains[id]), chains[id])
      ensures ok <==> |clusters| >= required || required <= |old(chains[id])| + |FreeClusters(old(fat[0]))|
      ensures ok ==> longer <= chains[id] && |longer| >= required
      ensures if |clusters| >= required then longer == clusters && chains == old(chains)
              else ok ==> |longer| == |chains[id]| == required
    {
      hide IsChain, DataOk, Bytes, Chained, OnlyChain, Next, Moved, FreeClusters;
      SameKeys(fat[0], spc, files, chains);
      OnlyRefl(chains, id);
      MovedRefl(fat[0], chains[id]);
      longer := clusters;
      while |longer| < required
        invariant Valid() && id in chains && longer <= chains[id] && (|longer| < required ==> longer == chains[id])
        invariant OnlyChain(old(chains), chains, id) && forall a | a in files :: Content(a) == old(Content(a))
        invariant Moved(old(fat[0]), fat[0], old(chains)[id], chains[id]) && old(chains)[id] <= chains[id]
        invariant |chains[id]| + |FreeClusters(fat[0])| == |old(chains)[id]| + |FreeClusters(old(fat[0]))|
        invariant |longer| > |clusters| ==> |longer| <= required && longer == chains[id]
        invariant |longer| == |clusters| ==> longer == clusters && chains == old(chains)
        invariant |longer| >= |clusters|
        decreases required - |longer|
      {
        ghost var c1, f1 := chains, fat[0];
        ChainNotEmpty(fat[0], spc, files, chains, id);
        var next := ExtendOne(id, longer[|longer| - 1]);
        OnlyTrans(old(chains), c1, chains, id);
        OnlyKeys(old(chains), chains, id);
        MovedGrows(old(fat[0]), f1, fat[0], old(chains)[id], c1[id], chains[id]);
        if next == 0 {
          return false, longer;
        }
        longer := longer + [next];
      }
      ok := true;
    }

    method Rewrite(id: nat, clusters: seq<nat>, required: nat, buffer: seq<byte>)
      requires Valid() && id in files && !files[id].directory && clusters <= chains[id]
      requires required == Required(|buffer|, SECTOR * spc) <= |clusters|
      modifies `fat, `data, `files, `chains
      ensures Valid() && OnlyChain(old(chains), chains, id)
      ensures files == old(files)[id := old(files[id]).(size := |buffer|)]
      ensures Content(id) == buffer && forall a | a in files && a != id :: Content(a) == old(Content(a))
      ensures Moved(old(fat[0]), fat[0], old(chains[id]), chains[id])
      ensures forall c | 0 <= c < n && c !in chains[id] :: data[c] == old(data[c])
      ensures chains[id] == if required < |clusters| then clusters[..required] else old(chains[id])
    {
      hide IsChain, DataOk, Bytes, Chained, Moved;
      SameKeys(fat[0], spc, files, chains);
      ghost var f, before := fat[0], data;
      ChainOf(f, spc, files, chains, id);
      ClustersOk(f, chains[id], clusters, required);
      RequiredFits(|buffer|, SECTOR * spc);
      Shorten(id, clusters, required, |buffer|);
      assert clusters[..required] <= chains[id];
      WriteData(clusters[..required], buffer);
      DataLength(data, n, spc);
      files := files[id := files[id].(size := |buffer|)];
      WrittenContent(fat[0], data, n, spc, files, chains, id, clusters[..required], buffer);
      forall a | a in files && a != id ensures Content(a) == old(Content(a)) {
        OtherContent(f, before, data, n, spc, old(files), old(chains), id, a, clusters[..required]);
      }
    }
  }

  lemma SameKeys(f: seq<nat>, spc: nat, files: map<nat, File>, chains: map<nat, seq<nat>>)
    requires Chained(f, spc, files, chains)
    ensures chains.Keys == files.Keys
  {
  }

  lemma ChainNotEmpty(f: seq<nat>, spc: nat, files: map<nat, File>, chains: map<nat, seq<nat>>, id: nat)
    requires Chained(f, spc, files, chains) && id in files
    ensures chains[id] != []
  {
    assert FileChain(f, spc, files[id], chains[id]);
  }

  /** The first sectors of the cluster are clear. */
  ghost predicate ClearedUpTo(data: Sectors, cluster: nat, sectors: nat) {
    && cluster < |data| && sectors <= |data[cluster]|
    && forall s | 0 <= s < sectors :: data[cluster][s] == Zeros(SECTOR)
  }

  lemma SectorCount(data: Sectors, n: nat, spc: nat, cluster: nat)
    requires DataOk(data, n, spc) && cluster < n
    ensures |data| == n && |data[cluster]| == spc
  {
  }

  lemma ClearedMore(data: Sectors, data': Sectors, cluster: nat, i: nat)
    requires ClearedUpTo(data, cluster, i) && i < |data[cluster]| && |data'| == |data|
    requires data'[cluster] == data[cluster][i := Zeros(SECTOR)]
    ensures ClearedUpTo(data', cluster, i + 1)
  {
  }

  lemma ClearedMarks(data: Sectors, cluster: nat, sectors: nat, start: seq<Slot>, run: seq<Slot>)
    requires ClearedUpTo(data, cluster, sectors) && start <= run <= start + ClusterPlaces(cluster, sectors)
    ensures forall k | |start| <= k < |run| :: SlotOk(data, run[k]) && Mark(data, run[k]) == END_MARK
  {
    hide ClusterPlaces;
    forall k | |start| <= k < |run| ensures SlotOk(data, run[k]) && Mark(data, run[k]) == END_MARK {
      InCluster(cluster, sectors, k - |start|);
      assert run[k] == ClusterPlaces(cluster, sectors)[k - |start|];
      assert data[cluster][run[k].sector] == Zeros(SECTOR);
    }
  }

  lemma PrefixOfBoth(before: seq<Slot>, done: seq<Slot>, part: seq<Slot>, whole: seq<Slot>)
    requires before <= done <= before + part && part <= whole
    ensures done <= before + whole
  {
    assert before + part <= before + whole;
  }

  lemma ChainOf(f: seq<nat>, spc: nat, files: map<nat, File>, chains: map<nat, seq<nat>>, id: nat)
    requires Chained(f, spc, files, chains) && id in files
    ensures FileChain(f, spc, files[id], chains[id])
  {
    hide FileChain;
  }

  lemma OldSize(f: seq<nat>, spc: nat, files: map<nat, File>, chains: map<nat, seq<nat>>, id: nat)
    requires Chained(f, spc, files, chains) && id in files
    ensures files[id].size <= |chains[id]| * (SECTOR * spc)
  {
    hide IsChain;
    assert FileChain(f, spc, files[id], chains[id]);
  }

  /** A file of `size` bytes in the clusters `cs` reads the same. */
  ghost predicate ReadsSame(data: Sectors, data': Sectors, size: nat, cs: seq<nat>) {
    && (forall i | 0 <= i < |cs| :: cs[i] < |data| && cs[i] < |data'|)
    && size <= |Bytes(data, cs)| && size <= |Bytes(data', cs)|
    && Bytes(data', cs)[..size] == Bytes(data, cs)[..size]
  }

  /** What is done to a cluster just linked behind a chain changes no file. */
  lemma BehindContent(f: seq<nat>, data: Sectors, data': Sectors, n: nat, spc: nat, files: map<nat, File>,
                      chains: map<nat, seq<nat>>, id: nat, a: nat)
    requires Chained(f, spc, files, chains) && DataOk(data, n, spc) && DataOk(data', n, spc) && |f| == n
    requires id in files && chains[id] != [] && files[id].size <= (|chains[id]| - 1) * (SECTOR * spc) && a in files
    requires forall c | 0 <= c < n && c != chains[id][|chains[id]| - 1] :: data'[c] == data[c]
    ensures ReadsSame(data, data', files[a].size, chains[a])
  {
    hide Bytes;
    var cs := chains[a];
    assert FileChain(f, spc, files[a], cs);
    ContentSize(f, data, n, spc, files[a], cs);
    ContentSize(f, data', n, spc, files[a], cs);
    if a == id {
      var k := |cs| - 1;
      BytesFrame(data, data', cs[..k]);
      BytesSize(data, n, spc, cs[..k]);
      BytesPrefix(data, cs, k);
      BytesPrefix(data', cs, k);
    } else {
      assert Apart(chains[id], cs) && chains[id][|chains[id]| - 1] in chains[id];
      BytesFrame(data, data', cs);
    }
  }

  /** The table, the clusters, and whose they are. */
  datatype Disk = Disk(table: seq<nat>, data: Sectors, chains: map<nat, seq<nat>>)

  /** A directory may have grown: free clusters were linked behind it, and nothing else changed hands
      or contents. */
  ghost predicate Grown(d: Disk, d': Disk, dir: nat) {
    && dir in d.chains && dir in d'.chains && OnlyChain(d.chains, d'.chains, dir) && d.chains[dir] <= d'.chains[dir]
    && Moved(d.table, d'.table, d.chains[dir], d'.chains[dir]) && |d'.data| == |d.data|
    && (forall c | 0 <= c < |d.data| && (c in d.chains[dir] || c !in d'.chains[dir]) :: d'.data[c] == d.data[c])
  }

  /** The directory has grown, the run it ended in continues in the new clusters, whose slots are
      clear, and no cluster was linked that was not needed. */
  ghost predicate Progress(d: Disk, d': Disk, dir: nat, spc: nat, start: seq<Slot>, run: seq<Slot>, required: nat) {
    && Grown(d, d', dir) && RunsOn(Places(d.chains[dir], spc), Places(d'.chains[dir], spc), start, run)
    && (forall k | |start| <= k < |run| :: SlotOk(d'.data, run[k]) && Mark(d'.data, run[k]) == END_MARK)
    && Counted(|d'.chains[dir]| - |d.chains[dir]|, PER_SECTOR * spc, |start|, |run|, required)
    && |FreeClusters(d'.table)| == |FreeClusters(d.table)| - (|d'.chains[dir]| - |d.chains[dir]|)
  }

  /** `run` begins where `start`, the end of `ps`, begins, and goes on in `ps'`. */
  ghost predicate RunsOn(ps: seq<Slot>, ps': seq<Slot>, start: seq<Slot>, run: seq<Slot>) {
    var p := |ps| - |start|;
    0 <= p && start <= run && p + |run| <= |ps'| && run == ps'[p..p + |run|]
  }

  /** `added` clusters of `per` slots each have brought the run from `start` to `run` slots. */
  ghost predicate Counted(added: int, per: nat, start: nat, run: nat, required: nat) {
    added >= 0 && run == Least(required, start + added * per) && (added > 0 ==> start + (added - 1) * per < required)
  }

  lemma ProgressNone(d: Disk, dir: nat, spc: nat, start: seq<Slot>, required: nat)
    requires dir in d.chains && |start| < required
    requires |start| <= |Places(d.chains[dir], spc)|
    requires start == Places(d.chains[dir], spc)[|Places(d.chains[dir], spc)| - |start|..]
    ensures Progress(d, d, dir, spc, start, start, required)
  {
    hide Places, Mark, SlotOk;
  }

  lemma ProgressStuck(d: Disk, d1: Disk, d2: Disk, dir: nat, spc: nat, start: seq<Slot>, run: seq<Slot>, required: nat)
    requires Progress(d, d1, dir, spc, start, run, required) && d2.data == d1.data && d2.chains == d1.chains
    requires Moved(d1.table, d2.table, d1.chains[dir], d1.chains[dir])
    requires |FreeClusters(d2.table)| == |FreeClusters(d1.table)|
    ensures Progress(d, d2, dir, spc, start, run, required)
  {
    hide Places, Mark, SlotOk, Moved, FreeClusters, RunsOn, Counted;
    MovedTrans(d.table, d1.table, d2.table, d.chains[dir], d1.chains[dir], d1.chains[dir]);
  }

  lemma OneMore(required: nat, start: nat, spc: nat)
    ensures Least(required, start + PER_SECTOR * spc) <= required
  {
  }

  lemma CountedStep(added: int, per: nat, start: nat, run: nat, run': nat, required: nat)
    requires Counted(added, per, start, run, required) && run < required && run' == Least(required, run + per)
    ensures Counted(added + 1, per, start, run', required)
  {
    assert (added + 1) * per == added * per + per;
  }

  lemma RunsOnStep(ps: seq<Slot>, ps1: seq<Slot>, more: seq<Slot>, start: seq<Slot>, run: seq<Slot>, run': seq<Slot>)
    requires RunsOn(ps, ps1, start, run) && |ps| - |start| + |run| == |ps1| && run <= run' <= run + more
    ensures RunsOn(ps, ps1 + more, start, run')
  {
    var p := |ps| - |start|;
    assert (ps1 + more)[p..] == run + more;
  }

  lemma FreeNotIn(f: seq<nat>, spc: nat, files: map<nat, File>, chains: map<nat, seq<nat>>, id: nat, c: nat)
    requires Chained(f, spc, files, chains) && id in files && c in FreeClusters(f) && |f| <= END
    ensures c !in chains[id]
  {
    hide IsChain;
    FreeOutside(f, spc, files, chains, c);
  }

  lemma GrownStep(d: Disk, d1: Disk, d2: Disk, dir: nat, next: nat)
    requires Grown(d, d1, dir) && next !in d1.chains[dir]
    requires Moved(d1.table, d2.table, d1.chains[dir], d1.chains[dir] + [next])
    requires dir in d2.chains && OnlyChain(d1.chains, d2.chains, dir) && d2.chains[dir] == d1.chains[dir] + [next]
    requires |d2.data| == |d1.data| && forall c | 0 <= c < |d1.data| && c != next :: d2.data[c] == d1.data[c]
    ensures Grown(d, d2, dir)
  {
    hide Moved, OnlyChain;
    MovedGrows(d.table, d1.table, d2.table, d.chains[dir], d1.chains[dir], d2.chains[dir]);
    OnlyTrans(d.chains, d1.chains, d2.chains, dir);
    forall c | 0 <= c < |d.data| && (c in d.chains[dir] || c !in d2.chains[dir]) ensures d2.data[c] == d.data[c] {
      PrefixMembers(d.chains[dir], d1.chains[dir], c);
      PrefixMembers(d1.chains[dir], d2.chains[dir], c);
      assert d2.chains[dir][|d1.chains[dir]|] == next;
    }
  }

  lemma PrefixMembers(a: seq<nat>, b: seq<nat>, c: nat)
    requires a <= b
    ensures c in a ==> c in b
  {
    if c in a {
      var i :| 0 <= i < |a| && a[i] == c;
      assert b[i] == c;
    }
  }

  /** Slots of a cluster keep their marks if another cluster changes. */
  lemma MarksKept(data: Sectors, data': Sectors, ps: seq<Slot>, from: nat, next: nat)
    requires |data'| == |data| && from <= |ps| && forall c | 0 <= c < |data| && c != next :: data'[c] == data[c]
    requires forall k | from <= k < |ps| ::
      SlotOk(data, ps[k]) && Mark(data, ps[k]) == END_MARK && ps[k].cluster != next
    ensures forall k | from <= k < |ps| :: SlotOk(data', ps[k]) && Mark(data', ps[k]) == END_MARK
  {
  }

  lemma RunAtEnd(cs: seq<nat>, cs1: seq<nat>, spc: nat, start: nat, run: nat, required: nat)
    requires Counted(|cs1| - |cs|, PER_SECTOR * spc, start, run, required) && run < required
    ensures |Places(cs, spc)| - start + run == |Places(cs1, spc)|
  {
    var per := PER_SECTOR * spc;
    assert |cs1| * per == |cs| * per + (|cs1| - |cs|) * per;
  }

  /** A run of slots lies in the clusters of its chain. */
  lemma RunInChain(cs0: seq<nat>, cs: seq<nat>, spc: nat, start: seq<Slot>, run: seq<Slot>)
    requires RunsOn(Places(cs0, spc), Places(cs, spc), start, run)
    ensures start <= run
    ensures forall k | 0 <= k < |run| :: run[k].cluster in cs && run[k].sector < spc && run[k].index < PER_SECTOR
  {
    hide Places;
    var p := |Places(cs0, spc)| - |start|;
    forall k | 0 <= k < |run| ensures run[k].cluster in cs && run[k].sector < spc && run[k].index < PER_SECTOR {
      var i := InPlaces(cs, spc, p + k);
      assert run[k] == Places(cs, spc)[p + k];
    }
  }

  lemma ProgressStep(d: Disk, d1: Disk, d2: Disk, dir: nat, spc: nat, start: seq<Slot>, run: seq<Slot>, run': seq<Slot>,
                     required: nat, next: nat)
    requires Progress(d, d1, dir, spc, start, run, required) && |run| < required && next !in d1.chains[dir]
    requires dir in d2.chains && OnlyChain(d1.chains, d2.chains, dir) && d2.chains[dir] == d1.chains[dir] + [next]
    requires |d2.data| == |d1.data|
    requires forall c | 0 <= c < |d1.data| && c != next :: d2.data[c] == d1.data[c]
    requires Moved(d1.table, d2.table, d1.chains[dir], d2.chains[dir])
    requires |FreeClusters(d2.table)| == |FreeClusters(d1.table)| - 1
    requires run <= run' <= run + ClusterPlaces(next, spc) && |run'| == Least(required, |run| + PER_SECTOR * spc)
    requires forall k | |run| <= k < |run'| :: SlotOk(d2.data, run'[k]) && Mark(d2.data, run'[k]) == END_MARK
    ensures Progress(d, d2, dir, spc, start, run', required)
  {
    hide Places, Moved, FreeClusters, ClusterPlaces, Grown, Mark, SlotOk, Least, Counted, OnlyChain, RunsOn;
    GrownIs(d, d1, dir);
    GrownStep(d, d1, d2, dir, next);
    ghost var ps, ps1 := Places(d.chains[dir], spc), Places(d1.chains[dir], spc);
    RunAtEnd(d.chains[dir], d1.chains[dir], spc, |start|, |run|, required);
    PlacesMore(d1.chains[dir], next, spc);
    RunsOnStep(ps, ps1, ClusterPlaces(next, spc), start, run, run');
    CountedStep(|d1.chains[dir]| - |d.chains[dir]|, PER_SECTOR * spc, |start|, |run|, |run'|, required);
    RunInChain(d.chains[dir], d1.chains[dir], spc, start, run);
    NewMarks(d1.data, d2.data, d1.chains[dir], start, run, run', next);
  }

  lemma NewMarks(data: Sectors, data': Sectors, cs: seq<nat>, start: seq<Slot>, run: seq<Slot>, run': seq<Slot>,
                 next: nat)
    requires |data'| == |data| && start <= run <= run' && next !in cs
    requires forall c | 0 <= c < |data| && c != next :: data'[c] == data[c]
    requires forall k | 0 <= k < |run| :: run[k].cluster in cs
    requires forall k | |start| <= k < |run| :: SlotOk(data, run[k]) && Mark(data, run[k]) == END_MARK
    requires forall k | |run| <= k < |run'| :: SlotOk(data', run'[k]) && Mark(data', run'[k]) == END_MARK
    ensures forall k | |start| <= k < |run'| :: SlotOk(data', run'[k]) && Mark(data', run'[k]) == END_MARK
  {
    hide Mark, SlotOk;
    MarksKept(data, data', run, |start|, next);
    forall k | |start| <= k < |run'| ensures SlotOk(data', run'[k]) && Mark(data', run'[k]) == END_MARK {
      assert k < |run| ==> run'[k] == run[k];
    }
  }

  lemma GrownIs(d: Disk, d': Disk, dir: nat)
    requires Grown(d, d', dir)
    ensures dir in d.chains && dir in d'.chains && d.chains[dir] <= d'.chains[dir]
  {
  }

  // ---- the outcome of the search ----

  /** The free slots a directory ends in. */
  ghost function TailRun(d: Disk, dir: nat, spc: nat): seq<Slot>
    requires dir in d.chains && AllOk(d.data, Places(d.chains[dir], spc))
  {
    Visited(d.data, Places(d.chains[dir], spc)).run
  }

  /** There is a long enough run of free slots, or `free` clusters can make the one at the end so. */
  ghost predicate Room(d: Disk, dir: nat, spc: nat, required: nat, free: int) {
    && dir in d.chains && AllOk(d.data, Places(d.chains[dir], spc))
    && (HasRun(d.data, Places(d.chains[dir], spc), required)
        || required <= |TailRun(d, dir, spc)| + free * (PER_SECTOR * spc))
  }

  /** The directory has grown by no more clusters than were needed; by all the free ones if they were
      not enough. */
  ghost predicate Extended(d: Disk, d': Disk, dir: nat, spc: nat, required: nat, ok: bool) {
    && dir in d.chains && dir in d'.chains && AllOk(d.data, Places(d.chains[dir], spc))
    && (HasRun(d.data, Places(d.chains[dir], spc), required) ==> ok && d'.table == d.table && d'.chains == d.chains)
    && (!HasRun(d.data, Places(d.chains[dir], spc), required) ==>
        var added, per, tail := |d'.chains[dir]| - |d.chains[dir]|, PER_SECTOR * spc, |TailRun(d, dir, spc)|;
        && (added > 0) == (|FreeClusters(d.table)| > 0)
        && if ok then tail + (added - 1) * per < required <= tail + added * per
           else added == |FreeClusters(d.table)| && FreeClusters(d'.table) == {})
  }

  /** The slots lie one after the other in the directory, as early as possible; the old ones among
      them were free, and the new ones are clear. */
  ghost predicate SlotsFrom(d: Disk, d': Disk, dir: nat, spc: nat, slots: seq<Slot>, p: nat) {
    && dir in d.chains && dir in d'.chains && AllOk(d.data, Places(d.chains[dir], spc))
    && p + |slots| <= |Places(d'.chains[dir], spc)| && slots == Places(d'.chains[dir], spc)[p..p + |slots|]
    && (forall k | p <= k < p + |slots| && k < |Places(d.chains[dir], spc)| ::
      Free(d.data, Places(d.chains[dir], spc), k))
    && (forall j | 0 <= j < |slots| && p + j >= |Places(d.chains[dir], spc)| ::
          SlotOk(d'.data, slots[j]) && Mark(d'.data, slots[j]) == END_MARK)
    && (forall p' | 0 <= p' < p :: !RunAt(d.data, Places(d.chains[dir], spc), p', |slots|))
    && UsedBefore(d, dir, spc, p)
  }

  /** The slot before place `p`, if any, is in use. */
  ghost predicate UsedBefore(d: Disk, dir: nat, spc: nat, p: nat) {
    && dir in d.chains && AllOk(d.data, Places(d.chains[dir], spc)) && p <= |Places(d.chains[dir], spc)|
    && (p > 0 ==> !Free(d.data, Places(d.chains[dir], spc), p - 1))
  }

  lemma DirectoryOk(f: seq<nat>, data: Sectors, n: nat, spc: nat, files: map<nat, File>, chains: map<nat, seq<nat>>,
                    dir: nat)
    requires Chained(f, spc, files, chains) && DataOk(data, n, spc) && |f| == n && dir in files
    ensures AllOk(data, Places(chains[dir], spc)) && chains[dir] != []
    ensures forall i, j | 0 <= i < j < |chains[dir]| :: chains[dir][i] != chains[dir][j]
    ensures forall i | 0 <= i < |chains[dir]| :: chains[dir][i] < n
  {
    hide AllOk, Places;
    assert FileChain(f, spc, files[dir], chains[dir]);
    forall i | 0 <= i < |chains[dir]| ensures chains[dir][i] < n {
      assert InRange(f, chains[dir][i]);
    }
    PlacesOk(data, chains[dir], spc);
  }

  lemma Found(d: Disk, dir: nat, spc: nat, required: nat, done: seq<Slot>) returns (p: nat)
    requires dir in d.chains && AllOk(d.data, Places(d.chains[dir], spc)) && done <= Places(d.chains[dir], spc)
    requires AllOk(d.data, done) && |Visited(d.data, done).run| == required > 0
    requires done != [] && Unfinished(d.data, done[..|done| - 1], required)
    ensures Grown(d, d, dir) && Extended(d, d, dir, spc, required, true)
    ensures Room(d, dir, spc, required, |FreeClusters(d.table)|)
    ensures SlotsFrom(d, d, dir, spc, Visited(d.data, done).run, p)
  {
    hide Places, Visited, AllOk, Free, HasRun, FreeClusters;
    var ps, m := Places(d.chains[dir], spc), |done|;
    assert done == ps[..m];
    FoundRun(d.data, ps, m, required);
    p := m - required;
    assert ps[..m - 1] == done[..|done| - 1];
    forall p' | 0 <= p' < p ensures !RunAt(d.data, ps, p', required) {
      NoRunBefore(d.data, ps, m - 1, p', required);
    }
  }

  lemma NotFound(d: Disk, dir: nat, spc: nat, required: nat)
    requires dir in d.chains && AllOk(d.data, Places(d.chains[dir], spc)) && required > 0
    requires Unfinished(d.data, Places(d.chains[dir], spc), required)
    ensures !HasRun(d.data, Places(d.chains[dir], spc), required)
    ensures forall p: nat :: !RunAt(d.data, Places(d.chains[dir], spc), p, required)
    ensures var ps := Places(d.chains[dir], spc); var run := Visited(d.data, ps).run;
      |run| <= |ps| && run == ps[|ps| - |run|..] && RunAt(d.data, ps, |ps| - |run|, |run|)
        && UsedBefore(d, dir, spc, |ps| - |run|)
  {
    hide Places, Visited, Free, AllOk;
    var ps := Places(d.chains[dir], spc);
    FatSlots.NoRun(d.data, ps, required);
    RunIsTail(d.data, ps);
  }

  lemma Enough(added: int, free: nat, free': nat, per: nat, start: nat, run: nat, required: nat)
    requires Counted(added, per, start, run, required) && free' == free - added && start < required
    requires run < required ==> free' == 0
    ensures run == required <==> required <= start + free * per
    ensures added > 0 <==> free > 0
    ensures run == required ==> start + (added - 1) * per < required <= start + added * per
    ensures run < required ==> added == free
  {
    assert added * per + free' * per == free * per;
  }

  lemma Ended(d: Disk, d': Disk, dir: nat, spc: nat, start: seq<Slot>, run: seq<Slot>, required: nat, ok: bool)
    requires dir in d.chains && AllOk(d.data, Places(d.chains[dir], spc))
    requires !HasRun(d.data, Places(d.chains[dir], spc), required)
    requires forall p: nat :: !RunAt(d.data, Places(d.chains[dir], spc), p, required)
    requires start == TailRun(d, dir, spc) && |start| < required
    requires |start| <= |Places(d.chains[dir], spc)|
    requires RunAt(d.data, Places(d.chains[dir], spc), |Places(d.chains[dir], spc)| - |start|, |start|)
    requires UsedBefore(d, dir, spc, |Places(d.chains[dir], spc)| - |start|)
    requires Progress(d, d', dir, spc, start, run, required) && (ok <==> |run| == required)
    requires !ok ==> FreeClusters(d'.table) == {}
    ensures Grown(d, d', dir) && Extended(d, d', dir, spc, required, ok)
    ensures ok <==> Room(d, dir, spc, required, |FreeClusters(d.table)|)
    ensures ok ==> SlotsFrom(d, d', dir, spc, run, |Places(d.chains[dir], spc)| - |start|)
  {
    hide Places, Visited, AllOk, Free, HasRun, FreeClusters, Grown, Counted;
    GrownIs(d, d', dir);
    Enough(|d'.chains[dir]| - |d.chains[dir]|, |FreeClusters(d.table)|, |FreeClusters(d'.table)|, PER_SECTOR * spc,
      |start|, |run|, required);
  }

  // ---- a new file ----

  const FILE_ATTRIBUTE: byte := 0x20

  /** The slots of a long name, and the short name. */
  datatype Name = Name(long: seq<seq<byte>>, alias: seq<byte>)

  predicate NameOk(name: Name) {
    && |name.alias| == 11 && UsedMark(name.alias[0])
    && |name.long| <= 20 && forall i | 0 <= i < |name.long| :: |name.long[i]| == SLOT && UsedMark(name.long[i][0])
  }

  /** The entry on disk tells where the file is and how long. */
  ghost predicate Describes(data: Sectors, at: Slot, file: File) {
    && SlotOk(data, at) && |SlotBytes(data, at)| == SLOT
    && var e := SlotBytes(data, at);
    EntryCluster(e) == file.cluster && EntrySize(e) == file.size && (EntryIsDirectory(e) <==> file.directory)
  }

  /** A free cluster for the file, and room for its name once that cluster is taken. */
  ghost predicate CanCreate(d: Disk, dir: nat, spc: nat, required: nat) {
    FreeClusters(d.table) != {} && Room(d, dir, spc, required, |FreeClusters(d.table)| - 1)
  }

  /** The free clusters besides the one a new file takes. */
  ghost function Left(f: seq<nat>): int { if FreeClusters(f) == {} then 0 else |FreeClusters(f)| - 1 }

  /** Files and directories there were are as before, except that `dir` may be longer. */
  ghost predicate OthersKept(files: map<nat, File>, files': map<nat, File>, chains: map<nat, seq<nat>>,
                             chains': map<nat, seq<nat>>, dir: nat) {
    && chains.Keys == files.Keys && chains'.Keys == files'.Keys
    && (forall a | a in files :: a in files' && files'[a] == files[a] && (a != dir ==> chains'[a] == chains[a]))
    && (dir in files ==> chains[dir] <= chains'[dir])
  }

  /** Clusters moved only from the free ones behind the chain `cs`, which is now `cs'`, and to `own`. */
  ghost predicate TakenBy(f: seq<nat>, f': seq<nat>, cs: seq<nat>, cs': seq<nat>, own: seq<nat>) {
    && |f'| == |f| && cs <= cs'
    && (forall c | 0 <= c < |f| && c !in cs' && c !in own :: Next(f', c) == Next(f, c))
    && (forall c | 0 <= c < |f| && c !in cs && (c in cs' || c in own) :: Next(f, c) == 0)
    && (forall c | 0 <= c < |f| && (c in cs' || c in own) && c !in cs :: Next(f', c) != 0)
  }

  lemma OthersRefl(files: map<nat, File>, chains: map<nat, seq<nat>>, dir: nat)
    requires chains.Keys == files.Keys
    ensures OthersKept(files, files, chains, chains, dir)
  {
  }

  lemma NothingTaken(f: seq<nat>, cs: seq<nat>)
    ensures TakenBy(f, f, cs, cs, [])
  {
  }

  lemma NothingLeft(d: Disk, dir: nat, spc: nat)
    requires FreeClusters(d.table) == {}
    ensures Left(d.table) == 0 && forall required :: !CanCreate(d, dir, spc, required)
  {
    hide Room;
  }

  lemma ChainTaken(f: seq<nat>, spc: nat, files: map<nat, File>, chains: map<nat, seq<nat>>, id: nat)
    requires Chained(f, spc, files, chains) && id in files && |f| <= END
    ensures forall c | c in chains[id] && c < |f| :: Next(f, c) != 0
  {
    hide IsChain;
    assert FileChain(f, spc, files[id], chains[id]);
    forall c | c in chains[id] ensures InRange(f, c) && Next(f, c) >= 2 {
      InChain(f, chains[id], c);
    }
  }

  const LETTER: byte := 0x41

  /** A volume with a full directory of one cluster, number 2, and the clusters 3 and 4 free. */
  function FullDirectory(): Disk {
    Disk([0, 0, LAST, 0, 0], seq(5, _ => [seq(SECTOR, _ => LETTER)]), map[0 := [2]])
  }

  /** A failed creation need not give back all it took: for a name of twenty slots and its alias, one
      cluster goes to the file and one to the directory, a third is missing, and the one behind the
      directory stays. */
  lemma FailureKeepsCluster()
    ensures var d := FullDirectory();
      IsChain(d.table, d.chains[0]) && DataOk(d.data, 5, 1) && !CanCreate(d, 0, 1, 21) && Left(d.table) == 1
  {
    hide Places;
    var d := FullDirectory();
    var ps := Places([2], 1);
    assert FreeClusters(d.table) == {3, 4};
    PlacesOk(d.data, [2], 1);
    forall k | 0 <= k < |ps| ensures Mark(d.data, ps[k]) == LETTER {
      var i := InPlaces([2], 1, k);
    }
    AllUsed(d.data, ps);
  }

  lemma GivenBack(f: seq<nat>, f': seq<nat>, cs: seq<nat>, c: nat)
    requires c < |f| && Next(f, c) == 0 && f' == f[c := LAST][c := 0]
    ensures TakenBy(f, f', cs, cs, [])
  {
  }

  /** The cluster of the new file is in no chain, wherever the directory has grown. */
  lemma StillApart(d: Disk, d1: Disk, d2: Disk, dir: nat, c: nat)
    requires GrownTable(d1, d2, dir) && c < |d.table| && d1.table == d.table[c := LAST]
    requires forall a | a in d1.chains :: c !in d1.chains[a]
    ensures forall a | a in d2.chains :: c !in d2.chains[a]
    ensures |d2.table| == |d.table| && d2.table[c] == LAST
  {
    assert Next(d1.table, c) != 0;
  }

  lemma FreeLess(f: seq<nat>, c: nat)
    requires InRange(f, c) && Next(f, c) == 0
    ensures |FreeClusters(f[c := LAST])| == |FreeClusters(f)| - 1 && FreeClusters(f) != {}
  {
    assert c in FreeClusters(f);
    assert FreeClusters(f[c := LAST]) == FreeClusters(f) - {c};
  }

  lemma RoomAfter(d: Disk, d1: Disk, d2: Disk, dir: nat, spc: nat, required: nat, c: nat, ok: bool)
    requires InRange(d.table, c) && Next(d.table, c) == 0 && d1 == Disk(d.table[c := LAST], d.data, d.chains)
    requires Extended(d1, d2, dir, spc, required, ok)
    requires ok <==> Room(d1, dir, spc, required, |FreeClusters(d1.table)|)
    ensures ok <==> CanCreate(d, dir, spc, required)
    ensures !ok ==> |d2.chains[dir]| - |d.chains[dir]| == Left(d.table)
  {
    hide Places, AllOk, HasRun, FreeClusters, TailRun;
    FreeLess(d.table, c);
    TailSame(d, d1, dir, spc);
  }

  /** A name takes two new clusters at most. */
  lemma FewAdded(d: Disk, d': Disk, dir: nat, spc: nat, required: nat, ok: bool)
    requires Extended(d, d', dir, spc, required, ok) && required <= 21 && spc > 0
    requires ok <==> Room(d, dir, spc, required, |FreeClusters(d.table)|)
    ensures |d'.chains[dir]| - |d.chains[dir]| <= 2
  {
    hide Places, AllOk, HasRun, FreeClusters, TailRun;
    TwoClusters(|d'.chains[dir]| - |d.chains[dir]|, PER_SECTOR * spc);
  }

  lemma TwoClusters(added: int, per: nat)
    requires per >= PER_SECTOR
    ensures added > 2 ==> (added - 1) * per > 21 && added * per > 21
  {
    if added > 2 {
      assert (added - 1) * per >= 2 * per;
    }
  }

  lemma TailSame(d: Disk, d1: Disk, dir: nat, spc: nat)
    requires d1.data == d.data && d1.chains == d.chains && dir in d.chains && AllOk(d.data, Places(d.chains[dir], spc))
    ensures TailRun(d1, dir, spc) == TailRun(d, dir, spc)
  {
  }

  lemma KeptSoFar(files: map<nat, File>, d1: Disk, d2: Disk, dir: nat)
    requires GrownTable(d1, d2, dir) && d1.chains.Keys == files.Keys
    ensures OthersKept(files, files, d1.chains, d2.chains, dir) && d1.chains[dir] <= d2.chains[dir]
  {
    hide Moved;
  }

  /** What naming the file has done to the tables, and what is to be done with the file's own cluster `c`. */
  lemma AfterEntry(files: map<nat, File>, d: Disk, d1: Disk, d2: Disk, dir: nat, spc: nat, required: nat, c: nat,
                   ok: bool)
    requires InRange(d.table, c) && Next(d.table, c) == 0 && d1 == Disk(d.table[c := LAST], d.data, d.chains)
    requires Chained(d1.table, spc, files, d1.chains) && Chained(d2.table, spc, files, d2.chains) && dir in files
    requires GrownTable(d1, d2, dir) && Extended(d1, d2, dir, spc, required, ok) && required <= 21 && spc > 0
    requires |d2.table| <= END && forall a | a in d1.chains :: c !in d1.chains[a]
    requires ok <==> Room(d1, dir, spc, required, |FreeClusters(d1.table)|)
    ensures ok <==> CanCreate(d, dir, spc, required)
    ensures !ok ==> |d2.chains[dir]| - |d.chains[dir]| == Left(d.table)
    ensures |d2.chains[dir]| - |d.chains[dir]| <= 2 && d1.chains.Keys == d2.chains.Keys == files.Keys
    ensures OthersKept(files, files, d1.chains, d2.chains, dir) && d1.chains[dir] <= d2.chains[dir]
    ensures |d2.table| == |d.table| && forall a | a in d2.chains :: c !in d2.chains[a]
    ensures TakenBy(d.table, d2.table[c := 0], d.chains[dir], d2.chains[dir], [])
    ensures TakenBy(d.table, d2.table, d.chains[dir], d2.chains[dir], [c])
    ensures IsChain(d2.table, [c]) && forall a | a in d2.chains :: Apart(d2.chains[a], [c])
  {
    hide IsChain, Chained, Extended, Room, GrownTable, FreeClusters, TakenBy, OthersKept, CanCreate, Left, Next, Apart;
    SameKeys(d1.table, spc, files, d1.chains);
    SameKeys(d2.table, spc, files, d2.chains);
    ChainTaken(d2.table, spc, files, d2.chains, dir);
    StillApart(d, d1, d2, dir, c);
    RoomAfter(d, d1, d2, dir, spc, required, c, ok);
    KeptSoFar(files, d1, d2, dir);
    FewAdded(d1, d2, dir, spc, required, ok);
    TakenBack(d, d1, d2, d2.table[c := 0], dir, c);
    ClusterOwn(d, d1, d2, dir, c);
  }

  lemma KeptWith(files: map<nat, File>, chains: map<nat, seq<nat>>, chains': map<nat, seq<nat>>, dir: nat, id: nat,
                 file: File, cs: seq<nat>)
    requires OthersKept(files, files, chains, chains', dir) && id !in files
    ensures OthersKept(files, files[id := file], chains, chains'[id := cs], dir)
  {
  }

  lemma TakenBack(d: Disk, d1: Disk, d2: Disk, f: seq<nat>, dir: nat, c: nat)
    requires GrownTable(d1, d2, dir) && c < |d.table| == |d2.table| && Next(d.table, c) == 0
    requires d1 == Disk(d.table[c := LAST], d.data, d.chains)
    requires c !in d2.chains[dir] && f == d2.table[c := 0]
    requires forall x | x in d2.chains[dir] && x !in d1.chains[dir] && x < |d2.table| :: Next(d2.table, x) != 0
    ensures TakenBy(d.table, f, d.chains[dir], d2.chains[dir], [])
  {
  }

  lemma ClusterOwn(d: Disk, d1: Disk, d2: Disk, dir: nat, c: nat)
    requires GrownTable(d1, d2, dir) && InRange(d.table, c) && |d2.table| == |d.table| && Next(d.table, c) == 0
    requires d1 == Disk(d.table[c := LAST], d.data, d.chains) && d2.table[c] == LAST
    requires forall a | a in d2.chains :: c !in d2.chains[a]
    requires forall x | x in d2.chains[dir] && x !in d1.chains[dir] && x < |d2.table| :: Next(d2.table, x) != 0
    ensures TakenBy(d.table, d2.table, d.chains[dir], d2.chains[dir], [c])
    ensures IsChain(d2.table, [c]) && forall a | a in d2.chains :: Apart(d2.chains[a], [c])
  {
  }

  lemma EnteredFrame(d: Disk, d': Disk, e: Disk, e': Disk, dir: nat, spc: nat, p: nat, items: seq<seq<byte>>)
    requires Entered(d, d', dir, spc, p, items) && e.data == d.data && e'.data == d'.data
    requires dir in e.chains && dir in e'.chains && e.chains[dir] == d.chains[dir] && e'.chains[dir] == d'.chains[dir]
    ensures Entered(e, e', dir, spc, p, items)
  {
    hide Places, Free, OldSlot, AllOk, SlotBytes;
  }

  // ---- entries in use ----

  /** The place holds an entry that is in use. */
  ghost predicate InUse(d: Disk, dir: nat, spc: nat, k: nat) {
    && dir in d.chains && AllOk(d.data, Places(d.chains[dir], spc)) && k < |Places(d.chains[dir], spc)|
    && !Free(d.data, Places(d.chains[dir], spc), k)
  }

  predicate UsedMark(b: byte) { b != END_MARK && b != DELETED_MARK }

  /** Up to place `k` there is no end mark, and `k` itself is in use, in the one or the other. */
  lemma UsedIff(data: Sectors, ps: seq<Slot>, k: nat)
    requires AllOk(data, ps) && k < |ps|
    ensures !Free(data, ps, k) <==>
      Mark(data, ps[k]) != DELETED_MARK && forall j | 0 <= j <= k :: Mark(data, ps[j]) != END_MARK
  {
  }

  lemma OldMark(data: Sectors, data': Sectors, at: Slot)
    requires OldSlot(data, data', at)
    ensures Mark(data', at) == Mark(data, at)
  {
    SameMark(data, data', at);
  }

  /** The mark of a place of the directory after a name has been entered: an old one, or a new one in use. */
  lemma MarkAfter(d: Disk, d': Disk, dir: nat, spc: nat, p: nat, items: seq<seq<byte>>, j: nat)
    requires Entered(d, d', dir, spc, p, items)
    requires forall i | 0 <= i < |items| :: |items[i]| == SLOT && UsedMark(items[i][0])
    requires j < p + |items| || j < |Places(d.chains[dir], spc)|
    ensures j < |Places(d'.chains[dir], spc)|
    ensures p <= j < p + |items| ==> UsedMark(Mark(d'.data, Places(d'.chains[dir], spc)[j]))
    ensures !(p <= j < p + |items|) ==> Places(d'.chains[dir], spc)[j] == Places(d.chains[dir], spc)[j]
    ensures !(p <= j < p + |items|) ==> OldSlot(d.data, d'.data, Places(d.chains[dir], spc)[j])
  {
    hide Places, Free, OldSlot, UsedMark;
    var ps, ps' := Places(d.chains[dir], spc), Places(d'.chains[dir], spc);
    assert d.chains[dir] == d'.chains[dir][..|d.chains[dir]|];
    PlacesPrefix(d'.chains[dir], |d.chains[dir]|, spc);
    if p <= j < p + |items| {
      assert SlotBytes(d'.data, ps'[p + (j - p)]) == items[j - p];
      assert Mark(d'.data, ps'[j]) == SlotBytes(d'.data, ps'[j])[0];
    }
  }

  /** Entering a name disturbs no entry in use, and the new slots are in use. */
  lemma EntriesKept(d: Disk, d': Disk, dir: nat, spc: nat, p: nat, items: seq<seq<byte>>, k: nat)
    requires Entered(d, d', dir, spc, p, items)
    requires forall i | 0 <= i < |items| :: |items[i]| == SLOT && UsedMark(items[i][0])
    requires InUse(d, dir, spc, k) || p <= k < p + |items|
    ensures InUse(d', dir, spc, k)
    ensures InUse(d, dir, spc, k) ==> !(p <= k < p + |items|)
    ensures InUse(d, dir, spc, k) ==> Places(d'.chains[dir], spc)[k] == Places(d.chains[dir], spc)[k]
    ensures InUse(d, dir, spc, k) ==> OldSlot(d.data, d'.data, Places(d.chains[dir], spc)[k])
  {
    hide Places, Free, OldSlot, Mark;
    var ps, ps' := Places(d.chains[dir], spc), Places(d'.chains[dir], spc);
    MarkAfter(d, d', dir, spc, p, items, k);
    if InUse(d, dir, spc, k) {
      UsedIff(d.data, ps, k);
    } else if p > 0 {
      UsedIff(d.data, ps, p - 1);
    }
    forall j | 0 <= j <= k ensures Mark(d'.data, ps'[j]) != END_MARK {
      MarkAfter(d, d', dir, spc, p, items, j);
      if !(p <= j < p + |items|) {
        OldMark(d.data, d'.data, ps[j]);
      }
    }
    if InUse(d, dir, spc, k) {
      OldMark(d.data, d'.data, ps[k]);
    }
    UsedIff(d'.data, ps', k);
  }

  /** Only clusters linked behind the directory have other contents. */
  ghost predicate DataKept(d: Disk, d': Disk, dir: nat) {
    && dir in d.chains && dir in d'.chains && |d'.data| == |d.data|
    && (forall c | 0 <= c < |d.data| && (c in d.chains[dir] || c !in d'.chains[dir]) :: d'.data[c] == d.data[c])
  }

  lemma DataKeptRefl(d: Disk, d': Disk, dir: nat)
    requires dir in d.chains && d'.data == d.data && d'.chains == d.chains
    ensures DataKept(d, d', dir)
  {
  }

  lemma DataKeptFrom(d: Disk, d1: Disk, d2: Disk, d3: Disk, dir: nat)
    requires Grown(d1, d2, dir) && d.data == d1.data && d.chains == d1.chains && d3.data == d2.data
    requires d3.chains == d2.chains
    ensures DataKept(d, d3, dir)
  {
    hide Moved;
  }

  lemma NewDescribed(d: Disk, d': Disk, dir: nat, spc: nat, p: nat, name: Name, c: nat)
    requires NameOk(name) && c <= MAX_UINT32
    requires Entered(d, d', dir, spc, p, name.long + [ShortEntry(name.alias, FILE_ATTRIBUTE, c)])
    ensures p + |name.long| < |Places(d'.chains[dir], spc)|
    ensures Describes(d'.data, Places(d'.chains[dir], spc)[p + |name.long|], File(c, 0, false))
  {
    hide Places, Free, OldSlot, ShortEntry, EntryCluster, EntrySize;
    var items, at := name.long + [ShortEntry(name.alias, FILE_ATTRIBUTE, c)],
      Places(d'.chains[dir], spc)[p + |name.long|];
    EntryReads(name.alias, FILE_ATTRIBUTE, c);
    assert items[|name.long|] == ShortEntry(name.alias, FILE_ATTRIBUTE, c);
    assert SlotBytes(d'.data, at) == items[|name.long|];
  }

  // ---- the entry of a file ----

  /** Outside the file's clusters only the size in its entry may differ. */
  ghost predicate OnlySize(data: Sectors, data': Sectors, cs: seq<nat>, at: Slot, size: nat) {
    && |data'| == |data|
    && (forall c | 0 <= c < |data| && c !in cs && c != at.cluster :: data'[c] == data[c])
    && (forall o | SlotOk(data, o) && o.cluster !in cs && o != at :: OldSlot(data, data', o))
    && (SlotOk(data, at) && at.cluster !in cs ==>
          SlotOk(data', at) && |SlotBytes(data, at)| == SLOT
            && SlotBytes(data', at) in {SlotBytes(data, at), WithSize(SlotBytes(data, at), size)})
  }

  lemma SizeRefl(data: Sectors, cs: seq<nat>, at: Slot, size: nat)
    ensures OnlySize(data, data, cs, at, size)
  {
  }

  lemma DescribedOk(data: Sectors, at: Slot, file: File)
    requires Describes(data, at, file)
    ensures SlotOk(data, at) && |SlotBytes(data, at)| == SLOT
  {
  }

  /** A file's entry lies in a directory, and so in no file. */
  lemma EntryApart(f: seq<nat>, spc: nat, files: map<nat, File>, chains: map<nat, seq<nat>>,
                   chains': map<nat, seq<nat>>, id: nat, dir: nat, at: Slot)
    requires Chained(f, spc, files, chains') && OnlyChain(chains, chains', id) && id in files && dir in files
    requires id != dir && at.cluster in chains[dir]
    ensures dir in chains' && chains'[dir] == chains[dir] && at.cluster !in chains'[id]
  {
    hide IsChain;
    assert Apart(chains'[dir], chains'[id]);
  }

  lemma EntryKept(data: Sectors, data': Sectors, cs: seq<nat>, at: Slot)
    requires SlotOk(data, at) && at.cluster !in cs && |data'| == |data|
    requires forall c | 0 <= c < |data| && c !in cs :: data'[c] == data[c]
    ensures SlotOk(data', at) && SlotBytes(data', at) == SlotBytes(data, at)
  {
  }

  lemma SizeEntered(data: Sectors, data1: Sectors, data2: Sectors, cs: seq<nat>, at: Slot, file: File, size: nat)
    requires Describes(data, at, file) && at.cluster !in cs && |data1| == |data| && size <= MAX_UINT32
    requires SlotOk(data1, at) && SlotBytes(data1, at) == SlotBytes(data, at)
    requires forall c | 0 <= c < |data| && c !in cs :: data1[c] == data[c]
    requires Stored(data1, data2, [at], [WithSize(SlotBytes(data, at), size)])
    ensures OnlySize(data, data2, cs, at, size) && Describes(data2, at, file.(size := size))
  {
    hide WithSize, EntryCluster, EntrySize, EntryIsDirectory, SlotBytes, SlotOk;
    SizeReads(SlotBytes(data, at), size);
    assert [at][0] == at;
    forall o | SlotOk(data, o) && o.cluster !in cs && o != at ensures OldSlot(data, data2, o) {
      SlotCluster(data, o);
      SameCluster(data, data1, o);
      assert o !in [at];
    }
  }

  // ---- deleting an entry ----

  /** The slots are marked as deleted; nothing else of them, and no other slot, has changed. */
  ghost predicate Deleted(data: Sectors, data': Sectors, slots: seq<Slot>) {
    && |data'| == |data|
    && (forall i | 0 <= i < |slots| :: DeletedSlot(data, data', slots[i]))
    && (forall c | 0 <= c < |data| && (forall i | 0 <= i < |slots| :: slots[i].cluster != c) :: data'[c] == data[c])
    && (forall o | SlotOk(data, o) && o !in slots :: OldSlot(data, data', o))
  }

  ghost predicate DeletedSlot(data: Sectors, data': Sectors, at: Slot) {
    && SlotOk(data, at) && SlotOk(data', at) && Mark(data', at) == DELETED_MARK
    && |SlotBytes(data, at)| == |SlotBytes(data', at)| == SLOT && SlotBytes(data', at)[1..] == SlotBytes(data, at)[1..]
  }

  lemma DeletedNone(data: Sectors)
    ensures Deleted(data, data, [])
  {
  }

  lemma DeletedOk(data: Sectors, data': Sectors, slots: seq<Slot>, i: nat)
    requires AllOk(data, slots) && i < |slots| && Deleted(data, data', slots[..i])
    ensures SlotOk(data', slots[i]) && |SlotBytes(data', slots[i])| == SLOT
  {
    assert SlotOk(data, slots[i]);
    if slots[i] in slots[..i] {
      var j :| 0 <= j < i && slots[..i][j] == slots[i];
    }
  }

  lemma DeletedOnce(data: Sectors, data1: Sectors, data2: Sectors, at: Slot, e: seq<byte>)
    requires SlotOk(data, at) && |SlotBytes(data, at)| == SLOT && SlotOk(data1, at) && |SlotBytes(data1, at)| == SLOT
    requires SlotBytes(data1, at)[1..] == SlotBytes(data, at)[1..] && e == [DELETED_MARK] + SlotBytes(data1, at)[1..]
    requires SlotOk(data2, at) && SlotBytes(data2, at) == e
    ensures DeletedSlot(data, data2, at)
  {
    assert SlotBytes(data2, at)[0] == Mark(data2, at);
  }

  lemma DeletedMore(data: Sectors, data1: Sectors, data2: Sectors, slots: seq<Slot>, i: nat)
    requires AllOk(data, slots) && i < |slots| && Deleted(data, data1, slots[..i]) && SlotOk(data1, slots[i])
    requires |SlotBytes(data1, slots[i])| == SLOT
    requires Stored(data1, data2, [slots[i]], [[DELETED_MARK] + SlotBytes(data1, slots[i])[1..]])
    ensures Deleted(data, data2, slots[..i + 1])
  {
    hide SlotOk, SlotBytes, Mark;
    var s := slots[..i + 1];
    assert s == slots[..i] + [slots[i]] && [slots[i]][0] == slots[i] && SlotOk(data, slots[i]);
    AnyBytes(data, slots[i]);
    assert SlotBytes(data1, slots[i])[1..] == SlotBytes(data, slots[i])[1..] by {
      if slots[i] in slots[..i] {
        var j :| 0 <= j < i && slots[..i][j] == slots[i];
        assert DeletedSlot(data, data1, slots[i]);
      } else {
        assert OldSlot(data, data1, slots[i]);
      }
    }
    DeletedOnce(data, data1, data2, slots[i], [DELETED_MARK] + SlotBytes(data1, slots[i])[1..]);
    forall j | 0 <= j < |s| ensures DeletedSlot(data, data2, s[j]) {
      if s[j] != slots[i] {
        assert s[j] == slots[..i][j] && DeletedSlot(data, data1, s[j]) && s[j] !in [slots[i]];
        SameMark(data1, data2, s[j]);
      }
    }
    forall c | 0 <= c < |data| && (forall j | 0 <= j < |s| :: s[j].cluster != c) ensures data2[c] == data[c] {
      assert forall j | 0 <= j < i :: slots[..i][j] == s[j];
      assert s[i] == slots[i];
    }
    forall o | SlotOk(data, o) && o !in s ensures OldSlot(data, data2, o) {
      assert o !in slots[..i] && o !in [slots[i]];
      assert OldSlot(data, data1, o);
    }
  }

  lemma AnyBytes(data: Sectors, at: Slot)
    requires SlotOk(data, at)
    ensures |SlotBytes(data, at)| == SLOT
  {
  }

  lemma SameMark(data: Sectors, data': Sectors, at: Slot)
    requires SlotOk(data, at) && SlotOk(data', at) && SlotBytes(data', at) == SlotBytes(data, at)
    ensures Mark(data', at) == Mark(data, at)
  {
    assert SlotBytes(data', at)[0] == Mark(data', at) && SlotBytes(data, at)[0] == Mark(data, at);
  }

  lemma DeletedContent(f: seq<nat>, data: Sectors, data': Sectors, n: nat, spc: nat, files: map<nat, File>,
                       chains: map<nat, seq<nat>>,
                       dir: nat, slots: seq<Slot>, a: nat)
    requires Chained(f, spc, files, chains) && DataOk(data, n, spc) && DataOk(data', n, spc) && |f| == n && dir in files
    requires a in files
    requires files[dir].directory && Deleted(data, data', slots)
    requires forall i | 0 <= i < |slots| :: slots[i].cluster in chains[dir]
    ensures ReadsSame(data, data', files[a].size, chains[a])
  {
    hide SlotOk, SlotBytes;
    var cs := chains[a];
    assert FileChain(f, spc, files[a], cs);
    ContentSize(f, data, n, spc, files[a], cs);
    ContentSize(f, data', n, spc, files[a], cs);
    if a != dir {
      assert Apart(chains[dir], cs);
      BytesFrame(data, data', cs);
    }
  }

  // ---- writing slots ----

  /** The slots hold the items, and everything else is as before. */
  ghost predicate Stored(data: Sectors, data': Sectors, slots: seq<Slot>, items: seq<seq<byte>>) {
    && |data'| == |data| && |slots| == |items|
    && (forall i | 0 <= i < |slots| :: SlotOk(data', slots[i]) && SlotBytes(data', slots[i]) == items[i])
    && (forall c | 0 <= c < |data| && (forall i | 0 <= i < |slots| :: slots[i].cluster != c) :: data'[c] == data[c])
    && (forall o | SlotOk(data, o) && o !in slots :: SlotOk(data', o) && SlotBytes(data', o) == SlotBytes(data, o))
  }

  lemma SlotFits(data: Sectors, n: nat, spc: nat, at: Slot)
    requires DataOk(data, n, spc) && SlotOk(data, at)
    ensures at.cluster < n && at.sector < spc && SLOT * at.index + SLOT <= SECTOR == |data[at.cluster][at.sector]|
  {
  }

  lemma OneStored(data: Sectors, data': Sectors, at: Slot, item: seq<byte>)
    requires SlotOk(data, at) && |item| == SLOT && |data'| == |data|
    requires forall c | 0 <= c < |data| && c != at.cluster :: data'[c] == data[c]
    requires var o, sector := SLOT * at.index, data[at.cluster][at.sector];
      o + SLOT <= |sector|
        && data'[at.cluster] == data[at.cluster][at.sector := sector[..o] + item + sector[o + SLOT..]]
    ensures Stored(data, data', [at], [item])
  {
    var o, sector := SLOT * at.index, data[at.cluster][at.sector];
    var sector' := sector[..o] + item + sector[o + SLOT..];
    assert sector'[o..o + SLOT] == item;
    forall x | SlotOk(data, x) && x != at ensures SlotOk(data', x) && SlotBytes(data', x) == SlotBytes(data, x) {
      var y := SLOT * x.index;
      if x.cluster == at.cluster && x.sector == at.sector {
        assert sector'[y..y + SLOT] == sector[y..y + SLOT];
      }
    }
    assert [at][0] == at;
  }

  lemma StoredNone(data: Sectors)
    ensures Stored(data, data, [], [])
  {
  }

  lemma StillOk(data: Sectors, data': Sectors, done: seq<Slot>, items: seq<seq<byte>>, slots: seq<Slot>, i: nat)
    requires Stored(data, data', done, items) && AllOk(data, slots) && i < |slots| && done == slots[..i]
    requires forall j | 0 <= j < i :: slots[j] != slots[i]
    ensures SlotOk(data', slots[i])
  {
    hide SlotOk;
    assert SlotOk(data, slots[i]) && slots[i] !in done;
  }

  lemma StoredMore(data: Sectors, data1: Sectors, data2: Sectors, slots: seq<Slot>, items: seq<seq<byte>>, i: nat)
    requires i < |slots| == |items| && Stored(data, data1, slots[..i], items[..i])
    requires Stored(data1, data2, [slots[i]], [items[i]])
    requires forall j, k | 0 <= j < k < |slots| :: slots[j] != slots[k]
    ensures Stored(data, data2, slots[..i + 1], items[..i + 1])
  {
    hide SlotOk, SlotBytes;
    var s, t := slots[..i + 1], items[..i + 1];
    assert [slots[i]][0] == slots[i];
    forall j | 0 <= j < |s| ensures SlotOk(data2, s[j]) && SlotBytes(data2, s[j]) == t[j] {
      if j < i {
        assert s[j] == slots[..i][j] && t[j] == items[..i][j] && s[j] !in [slots[i]];
      }
    }
    forall c | 0 <= c < |data| && (forall j | 0 <= j < |s| :: s[j].cluster != c) ensures data2[c] == data[c] {
      assert forall j | 0 <= j < i :: slots[..i][j] == s[j];
      assert s[i] == slots[i];
    }
    assert s == slots[..i] + [slots[i]];
    forall o | SlotOk(data, o) && o !in s ensures SlotOk(data2, o) && SlotBytes(data2, o) == SlotBytes(data, o) {
      assert o !in slots[..i] && o !in [slots[i]];
    }
  }

  // ---- entering a name ----

  /** Free clusters were linked behind the directory, and no other entry of the table changed. */
  ghost predicate GrownTable(d: Disk, d': Disk, dir: nat) {
    && dir in d.chains && dir in d'.chains && OnlyChain(d.chains, d'.chains, dir) && d.chains[dir] <= d'.chains[dir]
    && Moved(d.table, d'.table, d.chains[dir], d'.chains[dir])
  }

  lemma SameTable(d: Disk, d1: Disk, d2: Disk, dir: nat, spc: nat, required: nat, ok: bool)
    requires GrownTable(d, d1, dir) && Extended(d, d1, dir, spc, required, ok) && d2.table == d1.table
    requires d2.chains == d1.chains
    ensures GrownTable(d, d2, dir) && Extended(d, d2, dir, spc, required, ok)
  {
    hide Moved, OnlyChain, Places, AllOk, HasRun, FreeClusters, TailRun;
  }

  lemma GrownGives(d: Disk, d': Disk, dir: nat)
    requires Grown(d, d', dir)
    ensures GrownTable(d, d', dir)
  {
    hide Moved, OnlyChain;
  }

  /** The directory holds the items one after the other from slot `p` on, in what were free slots;
      its other slots are as before, and so is everything outside it. */
  ghost predicate Entered(d: Disk, d': Disk, dir: nat, spc: nat, p: nat, items: seq<seq<byte>>) {
    && dir in d.chains && dir in d'.chains && d.chains[dir] <= d'.chains[dir] && |d'.data| == |d.data|
    && AllOk(d.data, Places(d.chains[dir], spc)) && AllOk(d'.data, Places(d'.chains[dir], spc))
    && p + |items| <= |Places(d'.chains[dir], spc)|
    && (forall i | 0 <= i < |items| :: SlotBytes(d'.data, Places(d'.chains[dir], spc)[p + i]) == items[i])
    && (forall k | p <= k < p + |items| && k < |Places(d.chains[dir], spc)| ::
      Free(d.data, Places(d.chains[dir], spc), k))
    && UsedBefore(d, dir, spc, p)
    && (forall k | 0 <= k < |Places(d.chains[dir], spc)| && !(p <= k < p + |items|) ::
          OldSlot(d.data, d'.data, Places(d.chains[dir], spc)[k]))
    && (forall c | 0 <= c < |d.data| && c !in d'.chains[dir] :: d'.data[c] == d.data[c])
  }

  ghost predicate OldSlot(data: Sectors, data': Sectors, at: Slot) {
    SlotOk(data, at) && SlotOk(data', at) && SlotBytes(data', at) == SlotBytes(data, at)
  }

  /** Slots found by the search may be written. */
  lemma RunOk(data: Sectors, cs: seq<nat>, spc: nat, slots: seq<Slot>, p: nat, d: Disk, d': Disk, dir: nat)
    requires SlotsFrom(d, d', dir, spc, slots, p) && cs == d'.chains[dir] && AllOk(data, Places(cs, spc))
    requires forall i, j | 0 <= i < j < |cs| :: cs[i] != cs[j]
    ensures AllOk(data, slots) && forall i, j | 0 <= i < j < |slots| :: slots[i] != slots[j]
  {
    hide Places, SlotOk, Free, RunAt, Mark;
    forall i, j | 0 <= i < j < |slots| ensures slots[i] != slots[j] {
      PlacesDistinct(cs, spc, p + i, p + j);
    }
  }

  lemma SlotAt(d: Disk, d1: Disk, dir: nat, spc: nat, slots: seq<Slot>, p: nat)
    requires SlotsFrom(d, d1, dir, spc, slots, p)
    ensures p + |slots| <= |Places(d1.chains[dir], spc)| && slots == Places(d1.chains[dir], spc)[p..p + |slots|]
    ensures forall j | 0 <= j < |slots| :: slots[j].cluster in d1.chains[dir]
  {
    hide Places, Free, RunAt, SlotOk;
    SlotClusters(d1.chains[dir], spc, slots, p);
  }

  lemma EnteredNow(d: Disk, d1: Disk, d2: Disk, dir: nat, spc: nat, slots: seq<Slot>, p: nat, items: seq<seq<byte>>)
    requires Grown(d, d1, dir) && SlotsFrom(d, d1, dir, spc, slots, p) && Stored(d1.data, d2.data, slots, items)
    requires d2.chains == d1.chains && AllOk(d1.data, Places(d1.chains[dir], spc))
    requires forall i, j | 0 <= i < j < |d1.chains[dir]| :: d1.chains[dir][i] != d1.chains[dir][j]
    ensures Entered(d, d2, dir, spc, p, items)
  {
    hide Places, SlotOk, Free, RunAt, Mark, SlotBytes, Stored, Moved, OldSlot;
    var cs, ps1 := d1.chains[dir], Places(d1.chains[dir], spc);
    SlotClusters(cs, spc, slots, p);
    ItemsThere(d1.data, d2.data, ps1, slots, p, items);
    forall k | 0 <= k < |Places(d.chains[dir], spc)| && !(p <= k < p + |items|)
      ensures OldSlot(d.data, d2.data, Places(d.chains[dir], spc)[k]) {
      OldThere(d, d1, d2, dir, spc, slots, p, items, k);
    }
    StoredOutside(d1.data, d2.data, cs, slots, items);
  }

  lemma ItemsThere(data: Sectors, data': Sectors, ps: seq<Slot>, slots: seq<Slot>, p: nat, items: seq<seq<byte>>)
    requires Stored(data, data', slots, items) && AllOk(data, ps) && p + |slots| <= |ps| && slots == ps[p..p + |slots|]
    ensures AllOk(data', ps) && |items| == |slots|
    ensures forall i | 0 <= i < |items| :: SlotBytes(data', ps[p + i]) == items[i]
  {
    hide SlotOk, SlotBytes;
    forall k | 0 <= k < |ps| ensures SlotOk(data', ps[k]) {
      PlaceStored(data, data', ps[k], slots, items);
    }
    forall i | 0 <= i < |items| ensures SlotBytes(data', ps[p + i]) == items[i] {
      assert slots[i] == ps[p + i];
    }
  }

  lemma OldThere(d: Disk, d1: Disk, d2: Disk, dir: nat, spc: nat, slots: seq<Slot>, p: nat, items: seq<seq<byte>>,
                 k: nat)
    requires Grown(d, d1, dir) && Stored(d1.data, d2.data, slots, items) && AllOk(d.data, Places(d.chains[dir], spc))
    requires p + |slots| <= |Places(d1.chains[dir], spc)| && slots == Places(d1.chains[dir], spc)[p..p + |slots|]
    requires forall i, j | 0 <= i < j < |d1.chains[dir]| :: d1.chains[dir][i] != d1.chains[dir][j]
    requires k < |Places(d.chains[dir], spc)| && !(p <= k < p + |items|)
    ensures OldSlot(d.data, d2.data, Places(d.chains[dir], spc)[k])
  {
    hide Places, SlotOk, SlotBytes, Moved;
    var cs := d1.chains[dir];
    assert d.chains[dir] == cs[..|d.chains[dir]|];
    PlacesPrefix(cs, |d.chains[dir]|, spc);
    OutsideSlots(cs, spc, slots, p, k);
    PlaceCluster(d.chains[dir], spc, k);
    SlotCluster(d.data, Places(d.chains[dir], spc)[k]);
    SameCluster(d.data, d1.data, Places(d.chains[dir], spc)[k]);
  }

  lemma SlotCluster(data: Sectors, at: Slot)
    requires SlotOk(data, at)
    ensures at.cluster < |data|
  {
  }

  lemma StoredOutside(data: Sectors, data': Sectors, cs: seq<nat>, slots: seq<Slot>, items: seq<seq<byte>>)
    requires Stored(data, data', slots, items) && forall i | 0 <= i < |slots| :: slots[i].cluster in cs
    ensures |data'| == |data| && forall c | 0 <= c < |data| && c !in cs :: data'[c] == data[c]
  {
    hide SlotOk, SlotBytes;
  }

  lemma PlaceStored(data: Sectors, data': Sectors, at: Slot, slots: seq<Slot>, items: seq<seq<byte>>)
    requires Stored(data, data', slots, items) && SlotOk(data, at)
    ensures SlotOk(data', at)
  {
    hide SlotOk, SlotBytes;
    if at in slots {
      var i :| 0 <= i < |slots| && slots[i] == at;
    }
  }

  lemma OutsideSlots(cs: seq<nat>, spc: nat, slots: seq<Slot>, p: nat, k: nat)
    requires p + |slots| <= |Places(cs, spc)| && slots == Places(cs, spc)[p..p + |slots|] && k < |Places(cs, spc)|
    requires !(p <= k < p + |slots|)
    requires forall i, j | 0 <= i < j < |cs| :: cs[i] != cs[j]
    ensures Places(cs, spc)[k] !in slots
  {
    hide Places;
    if i :| 0 <= i < |slots| && slots[i] == Places(cs, spc)[k] {
      if k < p + i {
        PlacesDistinct(cs, spc, k, p + i);
      } else {
        PlacesDistinct(cs, spc, p + i, k);
      }
    }
  }

  lemma PlaceCluster(cs: seq<nat>, spc: nat, k: nat)
    requires k < |Places(cs, spc)|
    ensures Places(cs, spc)[k].cluster in cs
  {
    var i := InPlaces(cs, spc, k);
  }

  lemma SameCluster(data: Sectors, data': Sectors, at: Slot)
    requires SlotOk(data, at) && |data'| == |data| && data'[at.cluster] == data[at.cluster]
    ensures SlotOk(data', at) && SlotBytes(data', at) == SlotBytes(data, at)
  {
  }

  lemma SlotClusters(cs: seq<nat>, spc: nat, slots: seq<Slot>, p: nat)
    requires p + |slots| <= |Places(cs, spc)| && slots == Places(cs, spc)[p..p + |slots|]
    ensures forall i | 0 <= i < |slots| :: slots[i].cluster in cs
  {
    hide Places;
    forall i | 0 <= i < |slots| ensures slots[i].cluster in cs {
      PlaceCluster(cs, spc, p + i);
      assert slots[i] == Places(cs, spc)[p + i];
    }
  }

  /** Writing slots of a directory changes no file. */
  lemma DirectoryContent(f: seq<nat>, data: Sectors, data': Sectors, n: nat, spc: nat, files: map<nat, File>,
                         chains: map<nat, seq<nat>>,
                         dir: nat, slots: seq<Slot>, items: seq<seq<byte>>, a: nat)
    requires Chained(f, spc, files, chains) && DataOk(data, n, spc) && DataOk(data', n, spc) && |f| == n && dir in files
    requires a in files
    requires files[dir].directory && Stored(data, data', slots, items)
    requires forall i | 0 <= i < |slots| :: slots[i].cluster in chains[dir]
    ensures ReadsSame(data, data', files[a].size, chains[a])
  {
    hide SlotOk, SlotBytes;
    var cs := chains[a];
    assert FileChain(f, spc, files[a], cs);
    ContentSize(f, data, n, spc, files[a], cs);
    ContentSize(f, data', n, spc, files[a], cs);
    if a != dir {
      assert Apart(chains[dir], cs);
      BytesFrame(data, data', cs);
    }
  }

  lemma StartWalk(f: seq<nat>, cs: seq<nat>)
    requires IsChain(f, cs)
    ensures Walk(f, cs, 0, cs[0])
  {
  }

  lemma FreeStep(f: seq<nat>, cs: seq<nat>, k: nat)
    requires IsChain(f, cs) && k < |cs|
    ensures forall j | k < j < |cs| :: cs[j] != cs[k]
  {
  }

  lemma OthersOutside(f: seq<nat>, spc: nat, files: map<nat, File>, chains: map<nat, seq<nat>>, id: nat)
    requires Chained(f, spc, files, chains) && id in chains
    ensures forall a, c | a in chains && a != id && c in chains[a] :: c !in chains[id]
  {
    forall a, c | a in chains && a != id && c in chains[a] ensures c !in chains[id] {
      assert Apart(chains[a], chains[id]);
    }
  }

  /** A free cluster is in nobody's chain. */
  lemma FreeOutside(f: seq<nat>, spc: nat, files: map<nat, File>, chains: map<nat, seq<nat>>, c: nat)
    requires Chained(f, spc, files, chains) && InRange(f, c) && Next(f, c) == 0 && |f| <= END
    ensures forall a | a in chains :: c !in chains[a] && Apart(chains[a], [c])
  {
    forall a | a in chains ensures c !in chains[a] && Apart(chains[a], [c]) {
      assert FileChain(f, spc, files[a], chains[a]);
      if c in chains[a] {
        InChain(f, chains[a], c);
      }
    }
  }

  lemma ChainedSame(f: seq<nat>, f': seq<nat>, spc: nat, files: map<nat, File>, chains: map<nat, seq<nat>>)
    requires Chained(f, spc, files, chains) && |f'| == |f|
    requires forall a, c | a in chains && c in chains[a] && c < |f| :: f'[c] == f[c]
    ensures Chained(f', spc, files, chains)
  {
    forall a | a in files ensures FileChain(f', spc, files[a], chains[a]) {
      assert FileChain(f, spc, files[a], chains[a]);
      ChainFrame(f, f', chains[a]);
    }
  }

  lemma ContentSize(f: seq<nat>, data: Sectors, n: nat, spc: nat, file: File, cs: seq<nat>)
    requires FileChain(f, spc, file, cs) && DataOk(data, n, spc) && |f| == n
    ensures (forall i | 0 <= i < |cs| :: cs[i] < |data|) && file.size <= |Bytes(data, cs)|
  {
    forall i | 0 <= i < |cs| ensures cs[i] < |data| {
      assert InRange(f, cs[i]);
    }
    BytesSize(data, n, spc, cs);
  }

  lemma BytesNone(data: Sectors)
    ensures Bytes(data, []) == []
  {
  }

  lemma FlatNone(sectors: seq<seq<byte>>)
    ensures Flat(sectors[..0]) == []
  {
  }

  lemma FlatStep(sectors: seq<seq<byte>>, s: nat)
    requires s < |sectors|
    ensures Flat(sectors[..s + 1]) == Flat(sectors[..s]) + sectors[s]
  {
    assert sectors[..s + 1][..s] == sectors[..s];
  }

  lemma BytesStep(data: Sectors, cs: seq<nat>, i: nat)
    requires i < |cs| && forall k | 0 <= k < |cs| :: cs[k] < |data|
    ensures Bytes(data, cs[..i + 1]) == Bytes(data, cs[..i]) + Flat(data[cs[i]])
  {
    assert cs[..i + 1][..i] == cs[..i];
  }

  lemma {:induction false} FlatPrefix(sectors: seq<seq<byte>>, s: nat)
    requires s <= |sectors|
    ensures Flat(sectors[..s]) <= Flat(sectors)
  {
    if s == |sectors| {
      assert sectors[..s] == sectors;
    } else {
      FlatPrefix(sectors[..|sectors| - 1], s);
      assert sectors[..|sectors| - 1][..s] == sectors[..s];
    }
  }

  /** What lies before a sector, followed by the sector, begins the bytes of the chain. */
  lemma SectorOf(data: Sectors, n: nat, spc: nat, cs: seq<nat>, i: nat, s: nat)
    requires DataOk(data, n, spc) && i < |cs| && s < spc && forall k | 0 <= k < |cs| :: cs[k] < |data|
    ensures s < |data[cs[i]]| && |data[cs[i]][s]| == SECTOR
    ensures Bytes(data, cs[..i]) + Flat(data[cs[i]][..s]) + data[cs[i]][s] <= Bytes(data, cs)
  {
    hide Bytes, Flat;
    var d := data[cs[i]];
    assert |d| == spc;
    FlatStep(d, s);
    FlatPrefix(d, s + 1);
    BytesStep(data, cs, i);
    BytesPrefix(data, cs, i + 1);
    var a := Bytes(data, cs[..i]);
    assert a + Flat(d[..s]) + d[s] == a + Flat(d[..s + 1]);
    assert a + Flat(d[..s + 1]) <= a + Flat(d);
  }

  function Least(a: nat, b: nat): nat { if a < b then a else b }

  lemma NotEmpty(f: seq<nat>, cs: seq<nat>)
    requires IsChain(f, cs)
    ensures cs != []
  {
  }

  lemma LastOf(f: seq<nat>, cs: seq<nat>)
    requires IsChain(f, cs)
    ensures cs != [] && cs[|cs| - 1] < |f| && cs[|cs| - 1] in cs
  {
    assert InRange(f, cs[|cs| - 1]);
  }

  ghost predicate OnlyChain(chains: map<nat, seq<nat>>, chains': map<nat, seq<nat>>, id: nat) {
    chains'.Keys == chains.Keys && forall a | a in chains && a != id :: chains'[a] == chains[a]
  }

  lemma OnlyRefl(chains: map<nat, seq<nat>>, id: nat)
    ensures OnlyChain(chains, chains, id)
  {
  }

  lemma OnlyKeys(chains: map<nat, seq<nat>>, chains': map<nat, seq<nat>>, id: nat)
    requires OnlyChain(chains, chains', id)
    ensures chains'.Keys == chains.Keys
  {
  }

  lemma OnlyTrans(c0: map<nat, seq<nat>>, c1: map<nat, seq<nat>>, c2: map<nat, seq<nat>>, id: nat)
    requires OnlyChain(c0, c1, id) && OnlyChain(c1, c2, id)
    ensures OnlyChain(c0, c2, id)
  {
  }

  /** A free cluster linked behind a file's chain. */
  lemma Longer(f: seq<nat>, spc: nat, files: map<nat, File>, chains: map<nat, seq<nat>>, id: nat, c: nat)
    requires Chained(f, spc, files, chains) && id in files && InRange(f, c) && Next(f, c) == 0 && |f| <= END
    ensures id in chains && chains[id] != [] && chains[id][|chains[id]| - 1] < |f|
    ensures Chained(f[c := LAST][chains[id][|chains[id]| - 1] := c], spc, files, chains[id := chains[id] + [c]])
  {
    hide IsChain;
    var cs := chains[id];
    assert FileChain(f, spc, files[id], cs);
    FreeOutside(f, spc, files, chains, c);
    LastOf(f, cs);
    ExtendChain(f, cs, c);
    OthersOutside(f, spc, files, chains, id);
    var f' := f[c := LAST][cs[|cs| - 1] := c];
    assert FileChain(f', spc, files[id], cs + [c]);
    forall a | a in chains && a != id ensures Apart(chains[a], cs + [c]) {
      assert Apart(chains[a], cs);
    }
    ChainedUpdate(f, f', spc, files, chains, id, files[id], cs + [c]);
    assert files[id := files[id]] == files;
  }

  /** A chain that only got longer behind leaves every file's bytes alone. */
  lemma LongerContent(f: seq<nat>, data: Sectors, n: nat, spc: nat, files: map<nat, File>,
                      chains: map<nat, seq<nat>>, chains': map<nat, seq<nat>>, id: nat, cs: seq<nat>, cs': seq<nat>)
    requires Chained(f, spc, files, chains') && DataOk(data, n, spc) && |f| == n && id in files
    requires id in chains && chains[id] == cs && chains'[id] == cs' && cs <= cs'
    requires files[id].size <= |cs| * (SECTOR * spc)
    ensures (forall i | 0 <= i < |cs'| :: cs'[i] < |data|) && |Bytes(data, cs)| <= |Bytes(data, cs')|
    ensures files[id].size <= |Bytes(data, cs)|
    ensures Bytes(data, cs')[..files[id].size] == Bytes(data, cs)[..files[id].size]
  {
    assert FileChain(f, spc, files[id], cs');
    ContentSize(f, data, n, spc, files[id], cs');
    BytesSize(data, n, spc, cs);
    assert cs == cs'[..|cs|];
    BytesPrefix(data, cs', |cs|);
  }

  function Zeros(k: nat): (r: seq<byte>)
    ensures |r| == k && forall i | 0 <= i < k :: r[i] == 0
  {
    seq(k, _ => 0)
  }

  function Padded(buffer: seq<byte>, k: nat): (r: seq<byte>)
    requires |buffer| <= k
    ensures |r| == k
  {
    buffer + Zeros(k - |buffer|)
  }

  lemma Joined(p: seq<byte>, a: nat, b: nat, c: nat)
    requires a <= b <= c <= |p|
    ensures p[a..b] + p[b..c] == p[a..c]
  {
  }

  lemma SectorSlice(buffer: seq<byte>, p: seq<byte>, at: nat, copied: nat, amount: nat)
    requires |buffer| <= |p| && p == Padded(buffer, |p|) && at + SECTOR <= |p| && copied == Least(at, |buffer|)
    requires amount == Least(SECTOR, |buffer| - copied)
    ensures buffer[copied..copied + amount] + Zeros(SECTOR - amount) == p[at..at + SECTOR]
    ensures copied + amount == Least(at + SECTOR, |buffer|)
  {
  }

  lemma PlaceOf(k: nat, n: nat, cb: nat)
    requires k < n
    ensures k * cb + cb <= n * cb
  {
    assert (k + 1) * cb <= n * cb;
  }

  lemma NextPlace(k: nat, cb: nat)
    ensures (k + 1) * cb == k * cb + cb
  {
  }

  lemma CutAt(f: seq<nat>, cs: seq<nat>, k: nat)
    requires IsChain(f, cs) && 0 < k < |cs|
    ensures cs[k - 1] < |f| && Walk(f, cs, k, Next(f, cs[k - 1])) && forall j | k <= j < |cs| :: cs[j] != cs[k - 1]
  {
    assert InRange(f, cs[k - 1]);
  }

  lemma ShorterFree(f: seq<nat>, cs: seq<nat>, k: nat)
    requires IsChain(f, cs) && k <= |cs|
    ensures forall c | c in cs && c !in cs[..k] :: c in cs[k..]
  {
    assert cs == cs[..k] + cs[k..];
  }

  lemma ShorterMoved(f: seq<nat>, f': seq<nat>, cs: seq<nat>, k: nat)
    requires IsChain(f, cs) && 0 < k <= |cs| && cs[k - 1] < |f| == |f'|
    requires forall c | 0 <= c < |f| :: f'[c] == if c in cs[k..] then 0 else f[cs[k - 1] := LAST][c]
    ensures Moved(f, f', cs, cs[..k])
  {
    hide IsChain;
    ShorterFree(f, cs, k);
    assert cs[k - 1] == cs[..k][k - 1];
    forall c | c in cs[k..] ensures c in cs {
    }
  }

  lemma ShorterChained(f: seq<nat>, f': seq<nat>, spc: nat, files: map<nat, File>, chains: map<nat, seq<nat>>, id: nat,
                       k: nat, size: nat)
    requires Chained(f, spc, files, chains) && id in files && !files[id].directory
    requires 0 < k < |chains[id]| && |f'| == |f| && size <= k * (SECTOR * spc)
    requires chains[id][k - 1] < |f| && IsChain(f[chains[id][k - 1] := LAST], chains[id][..k])
    requires forall c | 0 <= c < |f| :: f'[c] == if c in chains[id][k..] then 0 else f[chains[id][k - 1] := LAST][c]
    ensures Chained(f', spc, files[id := files[id].(size := size)], chains[id := chains[id][..k]])
  {
    hide IsChain;
    var cs := chains[id];
    assert FileChain(f, spc, files[id], cs);
    Separate(f, cs, k);
    ChainFrame(f[cs[k - 1] := LAST], f', cs[..k]);
    OthersOutside(f, spc, files, chains, id);
    assert cs[k - 1] in cs;
    forall a | a in chains && a != id ensures Apart(chains[a], cs[..k]) {
      assert Apart(chains[a], cs);
    }
    assert FileChain(f', spc, files[id].(size := size), cs[..k]);
    ChainedUpdate(f, f', spc, files, chains, id, files[id].(size := size), cs[..k]);
  }

  lemma Separate(f: seq<nat>, cs: seq<nat>, k: nat)
    requires IsChain(f, cs) && k <= |cs|
    ensures forall c | c in cs[..k] :: c !in cs[k..]
  {
    forall c | c in cs[..k] ensures c !in cs[k..] {
      var i :| 0 <= i < k && cs[i] == c;
    }
  }

  lemma Resized(f: seq<nat>, spc: nat, files: map<nat, File>, chains: map<nat, seq<nat>>, id: nat, k: nat, size: nat)
    requires Chained(f, spc, files, chains) && id in files && !files[id].directory && k <= |chains[id]|
    requires size <= k * (SECTOR * spc)
    ensures Chained(f, spc, files[id := files[id].(size := size)], chains)
  {
    hide IsChain;
    var cs := chains[id];
    assert FileChain(f, spc, files[id], cs);
    assert k * (SECTOR * spc) <= |cs| * (SECTOR * spc);
    forall a | a in chains && a != id ensures Apart(chains[a], cs) {
    }
    ChainedUpdate(f, f, spc, files, chains, id, files[id].(size := size), cs);
    assert chains[id := cs] == chains;
  }

  /** Clusters for `size` bytes; an empty file keeps one. */
  function Required(size: nat, cb: nat): (r: nat)
    requires cb > 0
    ensures r >= 1 && size <= r * cb && (r > 1 ==> (r - 1) * cb < size)
  {
    RequiredLeast(size, cb);
    var r := (size + cb - 1) / cb;
    if r == 0 then 1 else r
  }

  lemma RequiredLeast(size: nat, cb: nat)
    requires cb > 0
    ensures var r := (size + cb - 1) / cb; size <= r * cb && (r > 0 ==> (r - 1) * cb < size)
  {
    var r := (size + cb - 1) / cb;
    assert (size + cb - 1) == r * cb + (size + cb - 1) % cb;
  }

  lemma RequiredFits(size: nat, cb: nat)
    requires cb > 0
    ensures Required(size, cb) > 0 && size <= Required(size, cb) * cb
  {
    var r := (size + cb - 1) / cb;
    assert size + cb - 1 == r * cb + (size + cb - 1) % cb;
  }

  lemma DataLength(data: Sectors, n: nat, spc: nat)
    requires DataOk(data, n, spc)
    ensures |data| == n
  {
  }

  lemma ClustersOk(f: seq<nat>, cs: seq<nat>, clusters: seq<nat>, k: nat)
    requires IsChain(f, cs) && clusters <= cs && k <= |clusters|
    ensures forall i | 0 <= i < k :: clusters[..k][i] < |f|
    ensures forall i, j | 0 <= i < j < k :: clusters[..k][i] != clusters[..k][j]
    ensures forall c | c in clusters[..k] :: c in cs
  {
    forall i | 0 <= i < k ensures clusters[i] == cs[i] && InRange(f, cs[i]) {
    }
  }

  lemma WrittenContent(f: seq<nat>, data: Sectors, n: nat, spc: nat, files: map<nat, File>, chains: map<nat, seq<nat>>,
                       id: nat, cl: seq<nat>, buffer: seq<byte>)
    requires Chained(f, spc, files, chains) && DataOk(data, n, spc) && |f| == n && id in files
    requires files[id].size == |buffer| && cl <= chains[id]
    requires (forall i | 0 <= i < |cl| :: cl[i] < |data|) && |Bytes(data, cl)| >= |buffer|
    requires Bytes(data, cl)[..|buffer|] == buffer
    ensures (forall i | 0 <= i < |chains[id]| :: chains[id][i] < |data|) && |Bytes(data, chains[id])| >= |buffer|
    ensures Bytes(data, chains[id])[..|buffer|] == buffer
  {
    var cs := chains[id];
    assert FileChain(f, spc, files[id], cs);
    ContentSize(f, data, n, spc, files[id], cs);
    assert cl == cs[..|cl|];
    BytesPrefix(data, cs, |cl|);
  }

  lemma OtherContent(f: seq<nat>, data: Sectors, data': Sectors, n: nat, spc: nat, files: map<nat, File>,
                     chains: map<nat, seq<nat>>, id: nat, a: nat, cl: seq<nat>)
    requires Chained(f, spc, files, chains) && DataOk(data, n, spc) && DataOk(data', n, spc) && |f| == n && id in files
    requires a in files && a != id
    requires (forall c | c in cl :: c in chains[id]) && forall c | 0 <= c < n && c !in cl :: data'[c] == data[c]
    ensures (forall i | 0 <= i < |chains[a]| :: chains[a][i] < n) && Bytes(data', chains[a]) == Bytes(data, chains[a])
  {
    var cs := chains[a];
    assert FileChain(f, spc, files[a], cs);
    forall i | 0 <= i < |cs| ensures cs[i] < n && data'[cs[i]] == data[cs[i]] {
      assert InRange(f, cs[i]) && cs[i] in cs;
      assert Apart(cs, chains[id]);
    }
    BytesFrame(data, data', cs);
  }
}
