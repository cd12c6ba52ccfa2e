/** Directory slots on a FAT32 volume (src/fs/fat32.c:363-415): their order along a chain, and the
    search for a run of free ones. */
module FatSlots {
  import Paging

  type byte = Paging.byte
  type Sectors = seq<seq<seq<byte>>>

  const SECTOR: nat := 512
  const SLOT: nat := 32
  const PER_SECTOR: nat := 16
  const END_MARK: byte := 0
  const DELETED_MARK: byte := 0xE5

  /** One directory entry: a cluster, a sector of it, and one of the sector's sixteen entries. */
  datatype Slot = Slot(cluster: nat, sector: nat, index: nat)

  predicate SlotOk(data: Sectors, at: Slot) {
    && at.cluster < |data| && at.sector < |data[at.cluster]| && |data[at.cluster][at.sector]| == SECTOR
    && at.index < PER_SECTOR
  }

  /** The byte that tells whether an entry is in use. */
  function Mark(data: Sectors, at: Slot): byte
    requires SlotOk(data, at)
  {
    data[at.cluster][at.sector][SLOT * at.index]
  }

  function SlotBytes(data: Sectors, at: Slot): seq<byte>
    requires SlotOk(data, at)
  {
    data[at.cluster][at.sector][SLOT * at.index..SLOT * at.index + SLOT]
  }

  ghost predicate AllOk(data: Sectors, ps: seq<Slot>) { forall k | 0 <= k < |ps| :: SlotOk(data, ps[k]) }

  // ---- the order of slots ----

  ghost function SectorPlaces(cluster: nat, sector: nat, n: nat): (ps: seq<Slot>)
    ensures |ps| == n && forall e | 0 <= e < n :: ps[e] == Slot(cluster, sector, e)
  {
    seq(n, e requires 0 <= e => Slot(cluster, sector, e))
  }

  /** The slots of a cluster's first sectors. */
  ghost function ClusterPlaces(cluster: nat, sectors: nat): (ps: seq<Slot>)
    ensures |ps| == PER_SECTOR * sectors
  {
    if sectors == 0 then [] else ClusterPlaces(cluster, sectors - 1) + SectorPlaces(cluster, sectors - 1, PER_SECTOR)
  }

  /** The slots of a directory whose clusters are `cs`, of `spc` sectors each. */
  ghost function Places(cs: seq<nat>, spc: nat): (ps: seq<Slot>)
    ensures |ps| == |cs| * (PER_SECTOR * spc)
  {
    if cs == [] then [] else
      var n := |cs| - 1;
      assert |cs| * (PER_SECTOR * spc) == n * (PER_SECTOR * spc) + PER_SECTOR * spc;
      Places(cs[..n], spc) + ClusterPlaces(cs[n], spc)
  }

  lemma PlacesNone(spc: nat)
    ensures Places([], spc) == []
  {
  }

  lemma PlacesMore(cs: seq<nat>, c: nat, spc: nat)
    ensures Places(cs + [c], spc) == Places(cs, spc) + ClusterPlaces(c, spc)
  {
    assert (cs + [c])[..|cs|] == cs;
  }

  lemma ClusterNone(c: nat)
    ensures ClusterPlaces(c, 0) == []
  {
  }

  lemma ClusterNext(c: nat, sectors: nat)
    ensures ClusterPlaces(c, sectors + 1) == ClusterPlaces(c, sectors) + SectorPlaces(c, sectors, PER_SECTOR)
  {
  }

  lemma {:induction false} InCluster(c: nat, sectors: nat, k: nat)
    requires k < |ClusterPlaces(c, sectors)|
    ensures var p := ClusterPlaces(c, sectors)[k];
      p.cluster == c && p.sector < sectors && p.index < PER_SECTOR && k == PER_SECTOR * p.sector + p.index
  {
    if k < PER_SECTOR * (sectors - 1) {
      InCluster(c, sectors - 1, k);
    }
  }

  lemma {:induction false} InPlaces(cs: seq<nat>, spc: nat, k: nat) returns (i: nat)
    requires k < |Places(cs, spc)|
    ensures i < |cs| && var p := Places(cs, spc)[k]; p.cluster == cs[i] && p.sector < spc && p.index < PER_SECTOR
    ensures var p := Places(cs, spc)[k]; k == i * (PER_SECTOR * spc) + (PER_SECTOR * p.sector + p.index)
    decreases |cs|
  {
    var n := |cs| - 1;
    if k < |Places(cs[..n], spc)| {
      i := InPlaces(cs[..n], spc, k);
    } else {
      InCluster(cs[n], spc, k - |Places(cs[..n], spc)|);
      i := n;
    }
  }

  /** No slot comes twice. */
  lemma PlacesDistinct(cs: seq<nat>, spc: nat, a: nat, b: nat)
    requires a < b < |Places(cs, spc)| && forall i, j | 0 <= i < j < |cs| :: cs[i] != cs[j]
    ensures Places(cs, spc)[a] != Places(cs, spc)[b]
  {
    var i := InPlaces(cs, spc, a);
    var j := InPlaces(cs, spc, b);
  }

  lemma PlacesOk(data: Sectors, cs: seq<nat>, spc: nat)
    requires forall i | 0 <= i < |cs| :: cs[i] < |data|
    requires forall c | 0 <= c < |data| :: |data[c]| == spc && forall s | 0 <= s < spc :: |data[c][s]| == SECTOR
    ensures AllOk(data, Places(cs, spc))
  {
    forall k | 0 <= k < |Places(cs, spc)| ensures SlotOk(data, Places(cs, spc)[k]) {
      var i := InPlaces(cs, spc, k);
    }
  }

  // ---- the search ----

  /** How far the search has come: whether the end mark was seen, and the free slots since the last
      one in use. */
  datatype Search = Search(ended: bool, run: seq<Slot>)

  function Visit(s: Search, mark: byte, at: Slot): Search {
    var ended := s.ended || mark == END_MARK;
    Search(ended, if ended || mark == DELETED_MARK then s.run + [at] else [])
  }

  ghost function Visited(data: Sectors, ps: seq<Slot>): Search
    requires AllOk(data, ps)
  {
    if ps == [] then Search(false, []) else
      var n := |ps| - 1;
      Visit(Visited(data, ps[..n]), Mark(data, ps[n]), ps[n])
  }

  lemma VisitNext(data: Sectors, ps: seq<Slot>, at: Slot)
    requires AllOk(data, ps) && SlotOk(data, at)
    ensures AllOk(data, ps + [at]) && Visited(data, ps + [at]) == Visit(Visited(data, ps), Mark(data, at), at)
  {
    assert (ps + [at])[..|ps|] == ps;
  }

  /** A slot is free if it is marked so or lies at or behind the end mark. */
  ghost predicate Free(data: Sectors, ps: seq<Slot>, k: nat)
    requires AllOk(data, ps) && k < |ps|
  {
    Mark(data, ps[k]) == DELETED_MARK || exists j | 0 <= j <= k :: Mark(data, ps[j]) == END_MARK
  }

  ghost predicate RunAt(data: Sectors, ps: seq<Slot>, from: nat, count: nat)
    requires AllOk(data, ps)
  {
    from + count <= |ps| && forall k | from <= k < from + count :: Free(data, ps, k)
  }

  /** The longest run of free slots at the end of `ps`. */
  ghost predicate Tail(data: Sectors, ps: seq<Slot>, run: seq<Slot>)
    requires AllOk(data, ps)
  {
    var from := |ps| - |run|;
    from >= 0 && run == ps[from..] && RunAt(data, ps, from, |run|) && (from > 0 ==> !Free(data, ps, from - 1))
  }

  ghost predicate EndSeen(data: Sectors, ps: seq<Slot>)
    requires AllOk(data, ps)
  {
    exists j | 0 <= j < |ps| :: Mark(data, ps[j]) == END_MARK
  }

  /** The search's run is the longest run of free slots at the end of what it has seen. */
  lemma {:induction false} RunIsTail(data: Sectors, ps: seq<Slot>)
    requires AllOk(data, ps)
    ensures Tail(data, ps, Visited(data, ps).run) && (Visited(data, ps).ended <==> EndSeen(data, ps))
    decreases |ps|
  {
    hide Tail, EndSeen, Mark, SlotOk;
    if ps == [] {
      TailNone(data);
    } else {
      var n := |ps| - 1;
      RunIsTail(data, ps[..n]);
      EndNext(data, ps);
      TailNext(data, ps, Visited(data, ps[..n]).run);
    }
  }

  lemma TailNone(data: Sectors)
    ensures Tail(data, [], []) && !EndSeen(data, [])
  {
  }

  lemma EndNext(data: Sectors, ps: seq<Slot>)
    requires AllOk(data, ps) && ps != []
    ensures var n := |ps| - 1; EndSeen(data, ps) <==> EndSeen(data, ps[..n]) || Mark(data, ps[n]) == END_MARK
    ensures var n := |ps| - 1; Free(data, ps, n) <==> EndSeen(data, ps) || Mark(data, ps[n]) == DELETED_MARK
  {
    hide Mark, SlotOk;
    var n := |ps| - 1;
    if j :| 0 <= j < n && Mark(data, ps[j]) == END_MARK {
      assert Mark(data, ps[..n][j]) == END_MARK;
    }
    if j :| 0 <= j < n && Mark(data, ps[..n][j]) == END_MARK {
      assert Mark(data, ps[j]) == END_MARK;
    }
  }

  lemma TailNext(data: Sectors, ps: seq<Slot>, run: seq<Slot>)
    requires AllOk(data, ps) && ps != [] && Tail(data, ps[..|ps| - 1], run)
    ensures Tail(data, ps, if Free(data, ps, |ps| - 1) then run + [ps[|ps| - 1]] else [])
  {
    hide Free, SlotOk, Tail;
    if Free(data, ps, |ps| - 1) {
      TailGrows(data, ps, run);
    } else {
      TailEnds(data, ps);
    }
  }

  lemma TailEnds(data: Sectors, ps: seq<Slot>)
    requires AllOk(data, ps) && ps != [] && !Free(data, ps, |ps| - 1)
    ensures Tail(data, ps, [])
  {
    hide Free, SlotOk;
    assert ps[|ps|..] == [];
  }

  lemma TailGrows(data: Sectors, ps: seq<Slot>, run: seq<Slot>)
    requires AllOk(data, ps) && ps != [] && Tail(data, ps[..|ps| - 1], run) && Free(data, ps, |ps| - 1)
    ensures Tail(data, ps, run + [ps[|ps| - 1]])
  {
    hide Free, SlotOk;
    var n := |ps| - 1;
    var from := n - |run|;
    FreePrefix(data, ps, n);
    forall k | from <= k < n ensures Free(data, ps, k) {
      assert Free(data, ps[..n], k);
    }
    assert from > 0 ==> !Free(data, ps[..n], from - 1);
    assert ps[from..] == ps[..n][from..] + [ps[n]];
  }

  lemma FreePrefix(data: Sectors, ps: seq<Slot>, m: nat)
    requires AllOk(data, ps) && m <= |ps|
    ensures AllOk(data, ps[..m]) && forall k | 0 <= k < m :: Free(data, ps[..m], k) <==> Free(data, ps, k)
  {
    var init := ps[..m];
    forall k | 0 <= k < m ensures Free(data, init, k) <==> Free(data, ps, k) {
      if j :| 0 <= j <= k && Mark(data, ps[j]) == END_MARK {
        assert Mark(data, init[j]) == END_MARK;
      }
      if j :| 0 <= j <= k && Mark(data, init[j]) == END_MARK {
        assert Mark(data, ps[j]) == END_MARK;
      }
    }
  }

  /** A run of `required` free slots exists. */
  ghost predicate HasRun(data: Sectors, ps: seq<Slot>, required: nat)
    requires AllOk(data, ps)
  {
    exists p: nat :: RunAt(data, ps, p, required)
  }

  /** The search stops where the first run of the wanted length is complete. */
  lemma FoundRun(data: Sectors, ps: seq<Slot>, m: nat, required: nat)
    requires AllOk(data, ps) && m <= |ps| && AllOk(data, ps[..m]) && |Visited(data, ps[..m]).run| == required
    ensures required <= m && Visited(data, ps[..m]).run == ps[m - required..m]
    ensures RunAt(data, ps, m - required, required) && HasRun(data, ps, required)
    ensures m > required ==> !Free(data, ps, m - required - 1)
  {
    hide Visited, Free, SlotOk;
    RunIsTail(data, ps[..m]);
    FreePrefix(data, ps, m);
    assert ps[..m][m - required..] == ps[m - required..m];
    assert RunAt(data, ps, m - required, required);
  }

  /** If the search never reaches the wanted length, there is no such run. */
  lemma NoRun(data: Sectors, ps: seq<Slot>, required: nat)
    requires AllOk(data, ps) && required > 0
    requires forall m | 0 <= m <= |ps| :: AllOk(data, ps[..m]) && |Visited(data, ps[..m]).run| < required
    ensures !HasRun(data, ps, required)
  {
    hide Visited, Free, SlotOk, AllOk;
    if HasRun(data, ps, required) {
      var p: nat :| RunAt(data, ps, p, required);
      var m := p + required;
      assert |Visited(data, ps[..m]).run| < required;
      RunIsTail(data, ps[..m]);
      FreePrefix(data, ps, m);
    }
  }

  /** No part of the directory looked at so far ends in a run of the wanted length. */
  ghost predicate Unfinished(data: Sectors, ps: seq<Slot>, required: nat) {
    forall m | 0 <= m <= |ps| :: AllOk(data, ps[..m]) && |Visited(data, ps[..m]).run| < required
  }

  /** No run of the wanted length is complete within the first `m` slots. */
  lemma NoRunBefore(data: Sectors, ps: seq<Slot>, m: nat, p: nat, required: nat)
    requires AllOk(data, ps) && m <= |ps| && Unfinished(data, ps[..m], required) && p + required <= m && required > 0
    ensures !RunAt(data, ps, p, required)
  {
    hide Visited, Free, SlotOk;
    FreePrefix(data, ps, m);
    assert RunAt(data, ps, p, required) ==> RunAt(data, ps[..m], p, required);
    NoRun(data, ps[..m], required);
  }

  lemma UnfinishedNone(data: Sectors, required: nat)
    requires required > 0
    ensures AllOk(data, []) && Visited(data, []) == Search(false, []) && Unfinished(data, [], required)
  {
    forall m | 0 <= m <= 0 ensures AllOk(data, [][..m]) && |Visited(data, [][..m]).run| < required {
    }
  }

  lemma UnfinishedNext(data: Sectors, ps: seq<Slot>, at: Slot, required: nat)
    requires Unfinished(data, ps, required) && AllOk(data, ps + [at]) && |Visited(data, ps + [at]).run| < required
    ensures Unfinished(data, ps + [at], required)
  {
    hide Visited, AllOk;
    var qs := ps + [at];
    forall m | 0 <= m <= |qs| ensures AllOk(data, qs[..m]) && |Visited(data, qs[..m]).run| < required {
      if m <= |ps| {
        assert qs[..m] == ps[..m];
      } else {
        assert qs[..m] == qs;
      }
    }
  }

  lemma {:induction false} ClusterPrefix(c: nat, a: nat, b: nat)
    requires a <= b
    ensures ClusterPlaces(c, a) <= ClusterPlaces(c, b)
    decreases b
  {
    if a < b {
      ClusterPrefix(c, a, b - 1);
    }
  }

  lemma {:induction false} PlacesPrefix(cs: seq<nat>, k: nat, spc: nat)
    requires k <= |cs|
    ensures Places(cs[..k], spc) <= Places(cs, spc)
    decreases |cs|
  {
    if k == |cs| {
      assert cs[..k] == cs;
    } else {
      var n := |cs| - 1;
      PlacesPrefix(cs[..n], k, spc);
      assert cs[..n][..k] == cs[..k];
    }
  }

  /** A directory in which every slot is in use ends in no free ones. */
  lemma {:induction false} AllUsed(data: Sectors, ps: seq<Slot>)
    requires AllOk(data, ps)
    requires forall k | 0 <= k < |ps| :: Mark(data, ps[k]) != END_MARK && Mark(data, ps[k]) != DELETED_MARK
    ensures Visited(data, ps) == Search(false, [])
    decreases |ps|
  {
    if ps != [] {
      AllUsed(data, ps[..|ps| - 1]);
    }
  }

  // ---- short entries ----

  function Zeroes(n: nat): (r: seq<byte>)
    ensures |r| == n && forall i | 0 <= i < n :: r[i] == 0
  {
    seq(n, _ => 0)
  }

  function Le16(v: nat): (r: seq<byte>)
    ensures |r| == 2
  {
    [v % 256, v / 256 % 256]
  }

  function Le32(v: nat): (r: seq<byte>)
    ensures |r| == 4
  {
    Le16(v % 65536) + Le16(v / 65536)
  }

  function Read16(b: seq<byte>, o: nat): nat
    requires o + 2 <= |b|
  {
    var low: int, high: int := b[o], b[o + 1];
    low + 256 * high
  }

  function Read32(b: seq<byte>, o: nat): nat
    requires o + 4 <= |b|
  {
    Read16(b, o) + 65536 * Read16(b, o + 2)
  }

  lemma Read16Le16(v: nat)
    requires v < 65536
    ensures Read16(Le16(v), 0) == v
  {
  }

  lemma Read32Le32(v: nat)
    requires v <= 0xFFFF_FFFF
    ensures Read32(Le32(v), 0) == v
  {
    Read16Le16(v % 65536);
    Read16Le16(v / 65536);
  }

  const DIRECTORY_BIT: nat := 16

  /** The entry create_named_entry writes behind the long-name slots. */
  function ShortEntry(alias: seq<byte>, attributes: byte, cluster: nat): (e: seq<byte>)
    requires |alias| == 11
    ensures |e| == SLOT
  {
    alias + [attributes] + Zeroes(8) + Le16(cluster / 65536) + Zeroes(4) + Le16(cluster % 65536) + Zeroes(4)
  }

  /** The layout of a short entry, byte by byte. */
  lemma ShortEntryLayout(alias: seq<byte>, attributes: byte, cluster: nat)
    requires |alias| == 11 && cluster <= 0xFFFF_FFFF
    ensures var e := ShortEntry(alias, attributes, cluster);
      && e[..11] == alias && e[11] == attributes
      && (forall i | 12 <= i < 20 || 22 <= i < 26 || 28 <= i < 32 :: e[i] == 0)
      && cluster == e[26] as nat + 0x100 * e[27] as nat + 0x1_0000 * e[20] as nat + 0x100_0000 * e[21] as nat
  {
    var e := ShortEntry(alias, attributes, cluster);
    assert e[20..22] == Le16(cluster / 65536) && e[26..28] == Le16(cluster % 65536);
    assert e[20] == e[20..22][0] && e[21] == e[20..22][1] && e[26] == e[26..28][0] && e[27] == e[26..28][1];
    LowHigh(cluster / 65536);
    LowHigh(cluster % 65536);
  }

  lemma LowHigh(v: nat)
    requires v < 65536
    ensures v == v % 256 + 256 * (v / 256 % 256)
  {
  }

  /** The size is the little-endian number in the last four bytes, and nothing else changes. */
  lemma SizeLayout(e: seq<byte>, size: nat)
    requires |e| == SLOT && size <= 0xFFFF_FFFF
    ensures var r := WithSize(e, size);
      && r[..28] == e[..28]
      && size == r[28] as nat + 0x100 * r[29] as nat + 0x1_0000 * r[30] as nat + 0x100_0000 * r[31] as nat
  {
    var r := WithSize(e, size);
    assert r[28..] == Le32(size) == Le16(size % 65536) + Le16(size / 65536);
    assert r[28] == r[28..][0] && r[29] == r[28..][1] && r[30] == r[28..][2] && r[31] == r[28..][3];
    LowHigh(size % 65536);
    LowHigh(size / 65536);
  }

  /** What find_entry reads from an entry. */
  function EntryCluster(e: seq<byte>): nat
    requires |e| == SLOT
  {
    65536 * Read16(e, 20) + Read16(e, 26)
  }

  function EntrySize(e: seq<byte>): nat
    requires |e| == SLOT
  {
    Read32(e, 28)
  }

  predicate EntryIsDirectory(e: seq<byte>)
    requires |e| == SLOT
  {
    e[11] / DIRECTORY_BIT % 2 == 1
  }

  function WithSize(e: seq<byte>, size: nat): (r: seq<byte>)
    requires |e| == SLOT
    ensures |r| == SLOT
  {
    e[..28] + Le32(size)
  }

  /** A new entry is read back as an empty file, or directory, with its first cluster. */
  lemma EntryReads(alias: seq<byte>, attributes: byte, cluster: nat)
    requires |alias| == 11 && cluster <= 0xFFFF_FFFF
    ensures var e := ShortEntry(alias, attributes, cluster);
      EntryCluster(e) == cluster && EntrySize(e) == 0
        && (EntryIsDirectory(e) <==> attributes / DIRECTORY_BIT % 2 == 1) && e[..11] == alias
  {
    var e := ShortEntry(alias, attributes, cluster);
    Read16Le16(cluster / 65536);
    Read16Le16(cluster % 65536);
    assert e[20..22] == Le16(cluster / 65536) && e[26..28] == Le16(cluster % 65536);
    assert e[28] == 0 && e[29] == 0 && e[30] == 0 && e[31] == 0;
  }

  /** A new size changes nothing else that is read. */
  lemma SizeReads(e: seq<byte>, size: nat)
    requires |e| == SLOT && size <= 0xFFFF_FFFF
    ensures var e' := WithSize(e, size);
      EntrySize(e') == size && EntryCluster(e') == EntryCluster(e)
        && (EntryIsDirectory(e') <==> EntryIsDirectory(e)) && e'[..28] == e[..28]
  {
    var e' := WithSize(e, size);
    Read32Le32(size);
    assert e'[28..] == Le32(size);
  }
}
