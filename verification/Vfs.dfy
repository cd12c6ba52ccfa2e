/** The descriptor calls (src/fs/vfs.c) on the kernel's three static arrays. */
module Vfs {
  import opened Pmm
  import Paging

  type byte = Paging.byte
  import opened Descriptors
  import PipeProtocol

  const CONSOLE: nat := 1

  datatype ReadOutcome = Got(bytes: seq<byte>) | EndOfFile | MustWait
  datatype WriteOutcome = Put(amount: nat) | NoReaders | MustWaitToWrite

  class Files {
    const fds: array<Fd>
    const files: array<OpenFile>
    const pipes: array<Pipe>

    ghost function T(): Table
      reads fds, files, pipes
    {
      Table(fds[..], files[..], pipes[..])
    }

    ghost predicate Valid()
      reads fds, files, pipes
    {
      Counted(T())
    }

    /** vfs_init leaves everything unused. */
    constructor ()
      ensures Valid() && fresh(fds) && fresh(files) && fresh(pipes)
      ensures forall i | 0 <= i < fds.Length :: !fds[i].used
    {
      fds := new Fd[DESCRIPTOR_SLOTS](_ => Fd(false, 0, 0, NOTHING));
      files := new OpenFile[DESCRIPTOR_SLOTS](_ => OpenFile(false, 0, 0));
      pipes := new Pipe[MAX_PIPES](_ => Pipe(false, 0, 0, 0, 0, 0, seq(PIPE_CAPACITY, _ => 0)));
      new;
      PipeProtocol.StartInv(PipeProtocol.System(T(), seq(MAX_PIPES, _ => PipeProtocol.Log([], [])), map[], 0));
    }

    method Lookup(owner: nat, number: int) returns (i: nat)
      ensures i <= fds.Length
      ensures i < fds.Length ==> fds[i].used && fds[i].owner == owner && fds[i].number == number
      ensures i == fds.Length <==> Vacant(fds[..], owner, number)
    {
      i := 0;
      while i < fds.Length
        invariant 0 <= i <= fds.Length
        invariant forall j | 0 <= j < i && fds[j].used :: !(fds[j].owner == owner && fds[j].number == number)
      {
        if fds[i].used && fds[i].owner == owner && fds[i].number == number {
          return;
        }
        i := i + 1;
      }
    }

    method AllocateSlot() returns (i: nat)
      ensures i <= fds.Length && (i < fds.Length ==> !fds[i].used) && forall j | 0 <= j < i :: fds[j].used
    {
      i := 0;
      while i < fds.Length && fds[i].used
        invariant 0 <= i <= fds.Length && forall j | 0 <= j < i :: fds[j].used
      {
        i := i + 1;
      }
    }

    /** Fills a free slot and retains what it refers to. */
    method Place(i: nat, fd: Fd, ghost owner: nat) returns (ghost m: seq<Move>)
      requires Valid() && Free(T(), i, fd) && Live(T(), fd.handle)
      modifies fds, files, pipes
      ensures Valid() && fds[..] == old(fds[..])[i := fd]
      ensures OffsetsKept(old(T()), T())
      ensures Does(old(T()), m, T(), owner) && !ClosesEnd(old(T()), m)
    {
      ghost var t := T();
      m := [Hold(i, fd)];
      MoveKeepsCounts(t, Hold(i, fd));
      DoesOne(t, Hold(i, fd), owner);
      var h := fd.handle;
      fds[i] := fd;
      if h.file.Some? {
        files[h.file.value] := KeepFile(files[h.file.value]);
      }
      if h.mode == ReadEnd {
        pipes[h.pipe.value] := pipes[h.pipe.value].(readers := pipes[h.pipe.value].readers + 1);
      }
      if h.mode == WriteEnd {
        pipes[h.pipe.value] := pipes[h.pipe.value].(writers := pipes[h.pipe.value].writers + 1);
      }
      assert T() == Placed(t, i, fd);
    }

    /** Releases what a slot refers to and frees it. */
    method Clear(i: nat) returns (ghost m: seq<Move>)
      requires Valid() && i < fds.Length && fds[i].used
      modifies fds, files, pipes
      ensures Valid() && fds[..] == old(fds[..])[i := Blank(old(fds[i]))]
      ensures OffsetsKept(old(T()), T())
      ensures Does(old(T()), m, T(), old(fds[i].owner))
      ensures ClosesEnd(old(T()), m) <==> old(fds[i].handle.mode) != NoPipe
    {
      ghost var t := T();
      m := [Move.Close(i)];
      HeldHandle(t, i);
      MoveKeepsCounts(t, Move.Close(i));
      DoesOne(t, Move.Close(i), fds[i].owner);
      var h := fds[i].handle;
      if h.pipe.Some? {
        pipes[h.pipe.value] := DropEnd(pipes[h.pipe.value], h.mode);
      }
      if h.file.Some? {
        files[h.file.value] := DropFile(files[h.file.value]);
      }
      fds[i] := Blank(fds[i]);
      assert T() == Cleared(t, i);
    }

    /** Gives a free slot the handle of another. */
    method Copy(source: nat, target: nat, owner: nat, number: int, ghost caller: nat) returns (ghost m: seq<Move>)
      requires Valid() && source < fds.Length && fds[source].used && target < fds.Length && !fds[target].used
      requires 0 <= number < MAX_FDS && Vacant(fds[..], owner, number)
      modifies fds, files, pipes
      ensures Valid() && fds[..] == old(fds[..])[target := old(fds[source]).(owner := owner, number := number)]
      ensures OffsetsKept(old(T()), T())
      ensures Does(old(T()), m, T(), caller) && !ClosesEnd(old(T()), m)
    {
      hide Counted, OffsetsKept;
      HeldHandle(T(), source);
      m := Place(target, fds[source].(owner := owner, number := number), caller);
    }

    /** ensure_standard_streams: console descriptors for the numbers 0 to 2 that are missing. */
    method EnsureStandard(owner: nat) returns (ghost moves: seq<Move>)
      requires Valid()
      modifies fds, files, pipes
      ensures Valid() && Does(old(T()), moves, T(), owner) && !ClosesEnd(old(T()), moves)
      ensures OffsetsKept(old(T()), T())
      ensures OthersKept(old(T()), T(), owner)
      ensures forall i | 0 <= i < fds.Length && old(fds[i].used) :: fds[i] == old(fds[i])
      ensures AllUsed(fds[..]) || forall n | 0 <= n < 3 :: !Vacant(fds[..], owner, n)
      ensures forall i | 0 <= i < fds.Length && fds[i].used && !old(fds[i].used) ::
        0 <= fds[i].number < 3 && fds[i] == Standard(owner, fds[i].number)
      ensures forall i | 0 <= i < fds.Length && fds[i].used && !old(fds[i].used) ::
        fds[i].owner == owner && fds[i].handle.device == CONSOLE && fds[i].handle.file.None? && fds[i].handle.pipe.None?
    {
      hide Counted, Does, ClosesEnd, OthersKept, Vacant, OffsetsKept;
      moves := [];
      OffsetsRefl(T());
      OthersRefl(T(), owner);
      DoesNothing(T(), owner);
      var number := 0;
      while number < 3
        invariant 0 <= number <= 3 && Valid() && Does(old(T()), moves, T(), owner) && !ClosesEnd(old(T()), moves)
        invariant OthersKept(old(T()), T(), owner) && OffsetsKept(old(T()), T())
        invariant forall i | 0 <= i < fds.Length && old(fds[i].used) :: fds[i] == old(fds[i])
        invariant forall n | 0 <= n < number :: !Vacant(fds[..], owner, n)
        invariant forall i | 0 <= i < fds.Length && fds[i].used && !old(fds[i].used) ::
          0 <= fds[i].number < 3 && fds[i] == Standard(owner, fds[i].number)
      {
        var found := Lookup(owner, number);
        if found == fds.Length {
          var slot := AllocateSlot();
          if slot == fds.Length {
            return;
          }
          ghost var t := T();
          ghost var m := Place(slot, Standard(owner, number), owner);
          DoesAppend(old(T()), moves, t, m, T(), owner);
          OffsetsTrans(old(T()), t, T());
          OthersStep(old(T()), t, T(), owner, slot);
          forall n | 0 <= n <= number ensures !Vacant(fds[..], owner, n) {
            NoLongerVacant(t.fds, slot, Standard(owner, number), owner, n);
          }
          moves := moves + m;
        }
        number := number + 1;
      }
    }

    /** The lowest free number of a process. */
    method LowestNumber(owner: nat, from: nat) returns (n: nat)
      requires from <= MAX_FDS
      ensures n <= MAX_FDS && (n < MAX_FDS ==> Lowest(fds[..], owner, from, n))
      ensures n == MAX_FDS <==> NoneVacant(fds[..], owner, from)
    {
      n := from;
      while n < MAX_FDS
        invariant from <= n <= MAX_FDS && forall k | from <= k < n :: !Vacant(fds[..], owner, k)
      {
        var i := Lookup(owner, n);
        if i == fds.Length {
          return;
        }
        n := n + 1;
      }
    }

    /** vfs_dup: the same handle again under the lowest free number. */
    method Dup(owner: nat, number: int) returns (r: int, ghost mid: Table, ghost moves: seq<Move>)
      requires Valid()
      modifies fds, files, pipes
      ensures Valid() && Does(old(T()), moves, T(), owner) && !ClosesEnd(old(T()), moves)
      ensures OffsetsKept(old(T()), T())
      ensures OthersKept(old(T()), T(), owner)
      ensures r < 0 ==> T() == mid
      ensures r < 0 ==> (Vacant(mid.fds, owner, number) || NoneVacant(mid.fds, owner, 0) || AllUsed(mid.fds))
      ensures r >= 0 ==>
        Lowest(mid.fds, owner, 0, r) && exists h ::
          Opens(mid.fds, owner, number, h) && Opens(T().fds, owner, number, h) && Opens(T().fds, owner, r, h)
      ensures |mid.fds| == fds.Length && forall i | 0 <= i < fds.Length && mid.fds[i].used :: fds[i] == mid.fds[i]
    {
      hide Counted, Does, ClosesEnd, Opens, OthersKept, Vacant, OffsetsKept;
      moves := EnsureStandard(owner);
      mid := T();
      var source := Lookup(owner, number);
      if source == fds.Length {
        return -1, mid, moves;
      }
      var n := LowestNumber(owner, 0);
      var target := AllocateSlot();
      if n == MAX_FDS || target == fds.Length {
        return -1, mid, moves;
      }
      ghost var m := Copy(source, target, owner, n, owner);
      DoesAppend(old(T()), moves, mid, m, T(), owner);
      moves := moves + m;
      OffsetsTrans(old(T()), mid, T());
      OthersStep(old(T()), mid, T(), owner, target);
      CopyOpens(mid.fds, T().fds, source, target, n);
      r := n;
    }

    /** vfs_close: standard streams stay; closing an end of a pipe wakes blocked tasks. */
    method Close(owner: nat, number: int) returns (ok: bool, wake: bool, ghost moves: seq<Move>)
      requires Valid()
      modifies fds, files, pipes
      ensures Valid() && Does(old(T()), moves, T(), owner) && (ClosesEnd(old(T()), moves) ==> wake)
      ensures OffsetsKept(old(T()), T())
      ensures OthersKept(old(T()), T(), owner)
      ensures ok <==> number >= 3 && !old(Vacant(fds[..], owner, number))
      ensures !ok ==> T() == old(T())
      ensures ok ==> Vacant(fds[..], owner, number)
      ensures forall i | 0 <= i < fds.Length && old(fds[i].used)
        && !(old(fds[i].owner) == owner && old(fds[i].number) == number) ::
        fds[i] == old(fds[i])
    {
      hide Counted, OffsetsKept;
      moves := [];
      OffsetsRefl(T());
      var i := Lookup(owner, number);
      if i == fds.Length || number < 3 {
        return false, false, [];
      }
      wake := fds[i].handle.mode != NoPipe;
      OnlyOne(T(), i);
      moves := Clear(i);
      return true, wake, moves;
    }

    /** The locked part of vfs_dup2 once both slots are known. */
    method Redirect(source: nat, target: nat, number: int) returns (ghost m: seq<Move>)
      requires Valid() && source < fds.Length && fds[source].used && target < fds.Length && source != target
      requires 0 <= number < MAX_FDS
      requires if fds[target].used then fds[target].owner == fds[source].owner && fds[target].number == number
               else Vacant(fds[..], fds[source].owner, number)
      modifies fds, files, pipes
      ensures Valid() && fds[..] == old(fds[..])[target := old(fds[source]).(number := number)]
      ensures OffsetsKept(old(T()), T())
      ensures Does(old(T()), m, T(), old(fds[source].owner))
    {
      hide Counted, OffsetsKept;
      ghost var t, owner := T(), fds[source].owner;
      m := [];
      OffsetsRefl(t);
      if fds[target].used {
        OnlyOne(t, target);
        hide Counted;
        m := Clear(target);
      }
      ghost var t1 := T();
      ghost var m1 := Copy(source, target, fds[source].owner, number, owner);
      DoesAppend(t, m, t1, m1, T(), owner);
      OffsetsTrans(t, t1, T());
      m := m + m1;
    }

    /** vfs_dup2 with interrupts off: `destination` gives up what it held and takes the source's handle. */
    method Dup2Locked(owner: nat, number: int, destination: int) returns (r: int, wake: bool, ghost moves: seq<Move>)
      requires Valid() && 0 <= destination < MAX_FDS
      modifies fds, files, pipes
      ensures Valid() && Does(old(T()), moves, T(), owner) && (ClosesEnd(old(T()), moves) ==> wake)
      ensures OffsetsKept(old(T()), T())
      ensures OthersKept(old(T()), T(), owner)
      ensures r < 0 ==> r == -1 && T() == old(T())
      ensures r < 0 <==>
        old(Vacant(fds[..], owner, number))
          || (number != destination && old(Vacant(fds[..], owner, destination)) && old(AllUsed(fds[..])))
      ensures r >= 0 ==>
        r == destination && exists h ::
          old(Opens(fds[..], owner, number, h)) && Opens(fds[..], owner, number, h)
            && Opens(fds[..], owner, destination, h)
      ensures forall i | 0 <= i < fds.Length && old(fds[i].used)
        && !(old(fds[i].owner) == owner && old(fds[i].number) == destination) ::
        fds[i] == old(fds[i])
    {
      hide Counted, Does, ClosesEnd, Opens, OthersKept, Vacant, OffsetsKept;
      ghost var t := T();
      moves := [];
      OthersRefl(t, owner);
      OffsetsRefl(t);
      DoesNothing(t, owner);
      var source := Lookup(owner, number);
      if source == fds.Length {
        return -1, false, [];
      }
      OpenSlot(t.fds, source);
      if number == destination {
        return destination, false, [];
      }
      var target := Lookup(owner, destination);
      if target == fds.Length {
        target := AllocateSlot();
      }
      if target == fds.Length {
        return -1, false, [];
      }
      moves := Redirect(source, target, destination);
      OthersStep(t, t, T(), owner, target);
      CopyOpens(t.fds, T().fds, source, target, destination);
      return destination, true, moves;
    }

    /** vfs_dup2 */
    method Dup2(owner: nat, number: int, destination: int)
      returns (r: int, wake: bool, ghost mid: Table, ghost moves: seq<Move>)
      requires Valid()
      modifies fds, files, pipes
      ensures Valid() && Does(old(T()), moves, T(), owner) && (ClosesEnd(old(T()), moves) ==> wake)
      ensures OffsetsKept(old(T()), T())
      ensures OthersKept(old(T()), T(), owner)
      ensures r < 0 ==> r == -1 && T() == mid
      ensures r < 0 <==>
        !(0 <= destination < MAX_FDS) || Vacant(mid.fds, owner, number)
          || (number != destination && Vacant(mid.fds, owner, destination) && AllUsed(mid.fds))
      ensures r >= 0 ==>
        r == destination && exists h ::
          Opens(mid.fds, owner, number, h) && Opens(fds[..], owner, number, h) && Opens(fds[..], owner, destination, h)
      ensures |mid.fds| == fds.Length
      ensures forall i | 0 <= i < fds.Length && mid.fds[i].used
        && !(mid.fds[i].owner == owner && mid.fds[i].number == destination) ::
        fds[i] == mid.fds[i]
    {
      hide Counted, Apply, Opens, Vacant, OffsetsKept;
      mid, moves, wake := T(), [], false;
      OthersRefl(mid, owner);
      OffsetsRefl(mid);
      assert Does(mid, [], mid, owner) && !ClosesEnd(mid, []);
      hide Counted, Does, ClosesEnd, Opens, OthersKept, Vacant, AllUsed;
      if !(0 <= destination < MAX_FDS) {
        return -1, false, mid, moves;
      }
      moves := EnsureStandard(owner);
      mid := T();
      ghost var m;
      r, wake, m := Dup2Locked(owner, number, destination);
      DoesAppend(old(T()), moves, mid, m, T(), owner);
      OthersTrans(old(T()), mid, T(), owner);
      OffsetsTrans(old(T()), mid, T());
      moves := moves + m;
    }

    /** vfs_close_all: every descriptor of a process goes, and no other. */
    method CloseAll(owner: nat) returns (wake: bool, ghost moves: seq<Move>)
      requires Valid()
      modifies fds, files, pipes
      ensures Valid() && Does(old(T()), moves, T(), owner) && (ClosesEnd(old(T()), moves) ==> wake)
      ensures OffsetsKept(old(T()), T())
      ensures forall i | 0 <= i < fds.Length ::
        if old(fds[i].used) && old(fds[i].owner) == owner then !fds[i].used else fds[i] == old(fds[i])
    {
      hide Counted, Legal, Apply, OffsetsKept;
      wake, moves := false, [];
      OffsetsRefl(T());
      var i := 0;
      while i < fds.Length
        invariant 0 <= i <= fds.Length && Valid() && Does(old(T()), moves, T(), owner)
        invariant (ClosesEnd(old(T()), moves) ==> wake) && OffsetsKept(old(T()), T())
        invariant forall j | 0 <= j < i ::
          if old(fds[j].used) && old(fds[j].owner) == owner then !fds[j].used else fds[j] == old(fds[j])
        invariant forall j | i <= j < fds.Length :: fds[j] == old(fds[j])
      {
        if fds[i].used && fds[i].owner == owner {
          if fds[i].handle.mode != NoPipe {
            wake := true;
          }
          ghost var t := T();
          ghost var m := Clear(i);
          DoesAppend(old(T()), moves, t, m, T(), owner);
          OffsetsTrans(old(T()), t, T());
          moves := moves + m;
        }
        i := i + 1;
      }
    }

    method CountSlots(parent: nat) returns (needed: nat, available: nat)
      ensures needed == |SlotsOf(fds[..], parent, 0, fds.Length)| && available == |FreeSlots(fds[..], fds.Length)|
    {
      needed, available := 0, 0;
      var i := 0;
      while i < fds.Length
        invariant 0 <= i <= fds.Length
        invariant needed == |SlotsOf(fds[..], parent, 0, i)| && available == |FreeSlots(fds[..], i)|
      {
        SlotsGrow(fds[..], parent, 0, i);
        FreeGrow(fds[..], i);
        if fds[i].used && fds[i].owner == parent {
          needed := needed + 1;
        }
        if !fds[i].used {
          available := available + 1;
        }
        i := i + 1;
      }
    }

    /** vfs_fork with interrupts off. The child ends up with exactly the parent's descriptors, or
        nothing has happened; once the slots have been counted it cannot run out of them. */
    method ForkLocked(parent: nat, child: nat) returns (ok: bool, wake: bool, ghost moves: seq<Move>)
      requires Valid() && parent != child && SlotsOf(fds[..], child, 0, fds.Length) == {}
      modifies fds, files, pipes
      ensures Valid() && Does(old(T()), moves, T(), child) && !ClosesEnd(old(T()), moves)
      ensures OffsetsKept(old(T()), T())
      ensures ok <==> |old(SlotsOf(fds[..], parent, 0, fds.Length))| <= |old(FreeSlots(fds[..], fds.Length))|
      ensures !ok ==> T() == old(T())
      ensures ok ==> SameHandles(old(fds[..]), parent, fds[..], child) && OthersKept(old(T()), T(), child)
    {
      hide Counted, Does, ClosesEnd, OthersKept, Copied, Vacant, SameHandles, OffsetsKept;
      wake, moves := false, [];
      DoesNothing(T(), child);
      OffsetsRefl(T());
      var needed, available := CountSlots(parent);
      if needed > available {
        return false, false, [];
      }
      ghost var t0 := T();
      ghost var copies: map<nat, nat> := map[];
      CopiedStart(t0.fds, parent, child);
      OthersRefl(t0, child);
      var i := 0;
      while i < fds.Length
        invariant 0 <= i <= fds.Length && Valid() && Does(t0, moves, T(), child) && !ClosesEnd(t0, moves)
        invariant OffsetsKept(t0, T()) && OthersKept(t0, T(), child)
        invariant Copied(t0.fds, fds[..], parent, child, i, copies)
        invariant |SlotsOf(t0.fds, parent, i, fds.Length)| <= |FreeSlots(fds[..], fds.Length)|
      {
        SlotsShrink(t0.fds, parent, i);
        CopiedSlot(t0.fds, fds[..], parent, child, i, copies);
        if fds[i].used && fds[i].owner == parent {
          var slot := AllocateSlot();
          SomeFree(fds[..], slot);
          VacantChild(t0, T(), parent, child, i, copies);
          ghost var t := T();
          if fds[i].handle.mode != NoPipe {
            wake := true;
          }
          ghost var m := Copy(i, slot, child, fds[i].number, child);
          DoesAppend(t0, moves, t, m, T(), child);
          moves := moves + m;
          OthersStep(t0, t, T(), child, slot);
          OffsetsTrans(t0, t, T());
          CopiedStep(t0.fds, t.fds, T().fds, parent, child, i, slot, copies);
          FreeTaken(t.fds, slot, T().fds[slot]);
          copies := copies[i := slot];
        } else {
          CopiedSkip(t0.fds, fds[..], parent, child, i, copies);
        }
        i := i + 1;
      }
      CopiedAll(t0.fds, fds[..], parent, child, copies);
      return true, wake, moves;
    }

    /** vfs_fork: three sections. The parent's streams are made, the child's old descriptors go, and
        then the child gets a table equal to the parent's or stays without descriptors. */
    method Fork(parent: nat, child: nat)
      returns (ok: bool, wakeClosed: bool, wakeForked: bool, ghost t1: Table, ghost t2: Table,
                                                   ghost m1: seq<Move>, ghost m2: seq<Move>, ghost m3: seq<Move>)
      requires Valid() && parent != child
      modifies fds, files, pipes
      ensures Valid() && Does(old(T()), m1, t1, parent) && Does(t1, m2, t2, child) && Does(t2, m3, T(), child)
      ensures OffsetsKept(old(T()), T())
      ensures !ClosesEnd(old(T()), m1) && (ClosesEnd(t1, m2) ==> wakeClosed) && !ClosesEnd(t2, m3)
      ensures OthersKept(t1, T(), child)
      ensures ok <==> |SlotsOf(t2.fds, parent, 0, |t2.fds|)| <= |FreeSlots(t2.fds, |t2.fds|)|
      ensures ok ==> SameHandles(t1.fds, parent, fds[..], child)
      ensures !ok ==> SlotsOf(fds[..], child, 0, fds.Length) == {}
    {
      hide Counted, Does, ClosesEnd, OffsetsKept;
      m1 := EnsureStandard(parent);
      t1 := T();
      wakeClosed, m2 := CloseAll(child);
      t2 := T();
      ok, wakeForked, m3 := ForkLocked(parent, child);
      assert OthersKept(t1, t2, child);
      OffsetsTrans(old(T()), t1, t2);
      OffsetsTrans(old(T()), t2, T());
      if ok {
        ParentKept(t1.fds, t2.fds, parent, child);
        OthersTrans(t1, t2, T(), child);
      }
    }

    /** One round of vfs_inherit_standard: the child gets the parent's descriptor under the same number. */
    method ShareNumber(parent: nat, child: nat, number: nat, ghost t1: Table) returns (shared: bool, ghost m: seq<Move>)
      requires Valid() && parent != child && number < 3 && OthersKept(t1, T(), child)
      requires StandardShared(t1.fds, parent, fds[..], child, number)
      modifies fds, files, pipes
      ensures Valid() && OthersKept(t1, T(), child)
      ensures OffsetsKept(old(T()), T())
      ensures shared <==> !Vacant(t1.fds, parent, number) && |FreeSlots(old(fds[..]), fds.Length)| > 0
      ensures !shared ==> T() == old(T())
      ensures shared ==> Does(old(T()), m, T(), child) && !ClosesEnd(old(T()), m)
      ensures shared ==> StandardShared(t1.fds, parent, fds[..], child, number + 1)
      ensures shared ==> |FreeSlots(fds[..], fds.Length)| == |FreeSlots(old(fds[..]), fds.Length)| - 1
    {
      hide Counted, Does, ClosesEnd, OthersKept, Vacant, StandardShared, FreeSlots, OffsetsKept;
      OffsetsRefl(T());
      var source := Lookup(parent, number);
      var target := AllocateSlot();
      SharedVacant(t1, T(), parent, child, number);
      NoneFree(fds[..], target);
      if source == fds.Length || target == fds.Length {
        return false, [];
      }
      ghost var t := T();
      m := Copy(source, target, child, number, child);
      OthersStep(t1, t, T(), child, target);
      SharedStep(t1.fds, t.fds, T().fds, parent, child, number, source, target);
      FreeTaken(t.fds, target, T().fds[target]);
      return true, m;
    }

    /** vfs_inherit_standard: the child gets the parent's descriptors 0 to 2 and no others, or none. */
    method InheritStandard(parent: nat, child: nat)
      returns (ok: bool, wake: bool, ghost t1: Table, ghost t2: Table, ghost m1: seq<Move>, ghost m2: seq<Move>)
      requires Valid() && parent != child
      modifies fds, files, pipes
      ensures Valid() && Does(old(T()), m1, t1, parent) && Does(t1, m2, T(), child)
      ensures OffsetsKept(old(T()), T())
      ensures !ClosesEnd(old(T()), m1) && (ClosesEnd(t1, m2) ==> wake) && OthersKept(t1, T(), child)
      ensures Emptied(t1.fds, t2.fds, child)
      ensures ok <==> (forall n | 0 <= n < 3 :: !Vacant(t1.fds, parent, n)) && |FreeSlots(t2.fds, |t2.fds|)| >= 3
      ensures if ok then StandardShared(t1.fds, parent, fds[..], child, 3)
              else SlotsOf(fds[..], child, 0, fds.Length) == {}
    {
      hide Counted, Does, ClosesEnd, OthersKept, Vacant, StandardShared, Emptied, AllUsed, FreeSlots, OffsetsKept;
      m1 := EnsureStandard(parent);
      t1 := T();
      wake, m2 := CloseAll(child);
      t2 := T();
      OffsetsTrans(old(T()), t1, t2);
      ClosedAll(t1, t2, child);
      SharedNone(t1.fds, t2.fds, parent, child);
      var number := 0;
      while number < 3
        invariant 0 <= number <= 3 && Valid() && Does(t1, m2, T(), child) && (ClosesEnd(t1, m2) ==> wake)
        invariant OthersKept(t1, T(), child) && OffsetsKept(old(T()), T())
        invariant StandardShared(t1.fds, parent, fds[..], child, number)
        invariant forall n | 0 <= n < number :: !Vacant(t1.fds, parent, n)
        invariant |FreeSlots(fds[..], fds.Length)| == |FreeSlots(t2.fds, |t2.fds|)| - number
      {
        ghost var t := T();
        var shared;
        ghost var m;
        shared, m := ShareNumber(parent, child, number, t1);
        OffsetsTrans(old(T()), t, T());
        if !shared {
          ghost var u := T();
          var again;
          again, m := CloseAll(child);
          ClosedAll(t, T(), child);
          DoesAppend(t1, m2, t, m, T(), child);
          OthersTrans(t1, t, T(), child);
          OffsetsTrans(old(T()), u, T());
          return false, wake || again, t1, t2, m1, m2 + m;
        }
        DoesAppend(t1, m2, t, m, T(), child);
        m2 := m2 + m;
        number := number + 1;
      }
      return true, wake, t1, t2, m1, m2;
    }

    method FreePipe() returns (k: nat)
      ensures k <= pipes.Length && (k < pipes.Length ==> !pipes[k].used) && forall j | 0 <= j < k :: pipes[j].used
    {
      k := 0;
      while k < pipes.Length && pipes[k].used
        invariant 0 <= k <= pipes.Length && forall j | 0 <= j < k :: pipes[j].used
      {
        k := k + 1;
      }
    }

    method FreeFile() returns (f: nat)
      ensures f <= files.Length && (f < files.Length ==> !files[f].used) && forall j | 0 <= j < f :: files[j].used
    {
      f := 0;
      while f < files.Length && files[f].used
        invariant 0 <= f <= files.Length && forall j | 0 <= j < f :: files[j].used
      {
        f := f + 1;
      }
    }

    method AllocateSlotAfter(first: nat) returns (i: nat)
      requires first < fds.Length
      ensures first < i <= fds.Length && (i < fds.Length ==> !fds[i].used) && forall j | first < j < i :: fds[j].used
    {
      i := first + 1;
      while i < fds.Length && fds[i].used
        invariant first < i <= fds.Length && forall j | first < j < i :: fds[j].used
      {
        i := i + 1;
      }
    }

    method InstallPipe(p: nat, i: nat, r: Fd, j: nat, w: Fd) returns (ghost moves: seq<Move>)
      requires Valid() && Legal(T(), NewPipe(p, i, r, j, w)) && r.owner == w.owner
      modifies fds, files, pipes
      ensures Valid() && Does(old(T()), moves, T(), r.owner) && !ClosesEnd(old(T()), moves)
      ensures OffsetsKept(old(T()), T())
      ensures OthersKept(old(T()), T(), r.owner)
      ensures pipes[p].used && RingOk(pipes[p]) && Contents(pipes[p]) == []
      ensures Opens(fds[..], r.owner, r.number, r.handle) && Opens(fds[..], w.owner, w.number, w.handle)
      ensures fds[..] == old(fds[..])[i := r][j := w]
    {
      hide Counted, Does, ClosesEnd, OffsetsKept;
      ghost var t := T();
      MoveKeepsCounts(t, NewPipe(p, i, r, j, w));
      DoesOne(t, NewPipe(p, i, r, j, w), r.owner);
      moves := [NewPipe(p, i, r, j, w)];
      RingOf(t, p);
      pipes[p] := Piped(pipes[p]);
      fds[i] := r;
      fds[j] := w;
      assert T() == Apply(t, NewPipe(p, i, r, j, w));
      OpenSlot(fds[..], i);
      OpenSlot(fds[..], j);
    }

    /** vfs_pipe with interrupts off: an unused pipe, emptied, with one descriptor for each end. */
    method MakePipe(owner: nat) returns (ok: bool, reader: int, writer: int, ghost k: nat, ghost moves: seq<Move>)
      requires Valid()
      modifies fds, files, pipes
      ensures Valid() && Does(old(T()), moves, T(), owner) && !ClosesEnd(old(T()), moves)
      ensures OffsetsKept(old(T()), T())
      ensures OthersKept(old(T()), T(), owner)
      ensures !ok ==> T() == old(T())
      ensures ok <==>
        (exists p | 0 <= p < pipes.Length :: !old(pipes[p].used)) && TwoVacant(old(fds[..]), owner, 3)
          && TwoFree(old(fds[..]))
      ensures ok ==> Lowest(old(fds[..]), owner, 3, reader) && Lowest(old(fds[..]), owner, reader + 1, writer)
      ensures ok ==> k < pipes.Length && !old(pipes[k].used) && pipes[k].used && RingOk(pipes[k])
      ensures ok ==> Contents(pipes[k]) == []
      ensures ok ==> Opens(fds[..], owner, reader, PipeHandle(k, ReadEnd))
      ensures ok ==> Opens(fds[..], owner, writer, PipeHandle(k, WriteEnd))
      ensures forall i | 0 <= i < fds.Length && old(fds[i].used) :: fds[i] == old(fds[i])
    {
      hide Counted, Does, ClosesEnd, Legal, Opens, OthersKept, Vacant, Contents, RingOk, OffsetsKept;
      ghost var t := T();
      OthersRefl(t, owner);
      OffsetsRefl(t);
      DoesNothing(t, owner);
      moves, k := [], 0;
      var p := FreePipe();
      var n := LowestNumber(owner, 3);
      if n == MAX_FDS || p == pipes.Length {
        NotTwo(t.fds, owner, 3, n);
        return false, 0, 0, 0, [];
      }
      var m := LowestNumber(owner, n + 1);
      var i := AllocateSlot();
      NotTwo(t.fds, owner, 3, n);
      if m == MAX_FDS || i == fds.Length {
        return false, 0, 0, 0, [];
      }
      var j := AllocateSlotAfter(i);
      if j == fds.Length {
        return false, 0, 0, 0, [];
      }
      IndeedTwo(t.fds, owner, 3, n, m);
      var r := Fd(true, owner, n, PipeHandle(p, ReadEnd));
      var w := Fd(true, owner, m, PipeHandle(p, WriteEnd));
      PipeLegal(t, p, i, r, j, w);
      moves := InstallPipe(p, i, r, j, w);
      return true, n, m, p, moves;
    }

    /** vfs_open with interrupts off, for a path that exists: a new open file at offset zero. */
    method Open(owner: nat, name: string, device: nat) returns (r: int, ghost f: nat, ghost moves: seq<Move>)
      requires Valid()
      modifies fds, files, pipes
      ensures Valid() && Does(old(T()), moves, T(), owner) && !ClosesEnd(old(T()), moves)
      ensures OthersKept(old(T()), T(), owner)
      ensures r < 0 ==> T() == old(T())
      ensures r < 0 <==>
        old(NoneVacant(fds[..], owner, 3)) || old(AllUsed(fds[..])) || forall j | 0 <= j < files.Length ::
          old(files[j].used)
      ensures r >= 0 ==> Lowest(old(fds[..]), owner, 3, r) && f < files.Length && files[f] == OPENED
      ensures r >= 0 ==> !old(files[f].used) && files[f].offset == 0
      ensures forall g | 0 <= g < files.Length && old(files[g].used) :: files[g] == old(files[g])
      ensures r >= 0 ==> Opens(fds[..], owner, r, Handle(name, Some(f), device, None, NoPipe))
      ensures forall i | 0 <= i < fds.Length && old(fds[i].used) :: fds[i] == old(fds[i])
    {
      ghost var t := T();
      OthersRefl(t, owner);
      assert Does(t, [], t, owner) && !ClosesEnd(t, []);
      moves, f := [], 0;
      var n := LowestNumber(owner, 3);
      if n == MAX_FDS {
        return -1, 0, [];
      }
      var i := AllocateSlot();
      var file := FreeFile();
      if i == fds.Length || file == files.Length {
        return -1, 0, [];
      }
      var fd := Fd(true, owner, n, Handle(name, Some(file), device, None, NoPipe));
      assert HandleOk(t, fd.handle);
      MoveKeepsCounts(t, NewFile(i, file, fd));
      DoesOne(t, NewFile(i, file, fd), owner);
      hide Counted, Does, ClosesEnd, Legal;
      files[file] := OPENED;
      fds[i] := fd;
      assert T() == Apply(t, NewFile(i, file, fd));
      OpenSlot(fds[..], i);
      return n, file, [NewFile(i, file, fd)];
    }

    /** The locked part of pipe_read. */
    method ReadSection(k: nat, length: nat) returns (r: ReadOutcome)
      requires Valid() && k < pipes.Length && pipes[k].used && length > 0
      modifies pipes
      ensures Valid() && pipes[..] == old(pipes[..])[k := pipes[k]]
      ensures ReadDone(old(pipes[k]), pipes[k], length, r)
    {
      hide Counted, Contents;
      var p := pipes[k];
      ghost var t := T();
      RingOf(t, k);
      if p.count == 0 {
        assert pipes[..] == old(pipes[..])[k := pipes[k]];
        return if p.writers == 0 then EndOfFile else MustWait;
      }
      var q, buffer := Drain(p, if p.count < length then p.count else length);
      pipes[k] := q;
      PipeProtocol.RingMove(t, k, q);
      assert T() == t.(pipes := t.pipes[k := q]);
      return Got(buffer);
    }

    /** The locked part of pipe_write. */
    method WriteSection(k: nat, data: seq<byte>, total: nat) returns (r: WriteOutcome)
      requires Valid() && k < pipes.Length && pipes[k].used && total < |data|
      modifies pipes
      ensures Valid() && pipes[..] == old(pipes[..])[k := pipes[k]]
      ensures WriteDone(old(pipes[k]), pipes[k], data, total, r)
    {
      hide Counted, Contents;
      var p := pipes[k];
      ghost var t := T();
      RingOf(t, k);
      assert pipes[..] == old(pipes[..])[k := pipes[k]];
      if p.readers == 0 {
        return NoReaders;
      }
      var available := PIPE_CAPACITY - p.count;
      var amount := |data| - total;
      if amount > available {
        amount := available;
      }
      if amount == 0 {
        return MustWaitToWrite;
      }
      var q := Fill(p, data[total..total + amount]);
      pipes[k] := q;
      PipeProtocol.RingMove(t, k, q);
      assert T() == t.(pipes := t.pipes[k := q]);
      return Put(amount);
    }
  }

  /** The locked part of pipe_read delivers the oldest bytes, or finds the end of the data, or has to wait. */
  ghost predicate ReadDone(p: Pipe, p': Pipe, length: nat, r: ReadOutcome) {
    && RingOk(p) && (r.Got? <==> p.count != 0)
    && (if r.Got? then
          && |r.bytes| == PipeProtocol.Min(p.count, length) && r.bytes == Contents(p)[..|r.bytes|]
          && PipeProtocol.Drained(p, p', |r.bytes|)
        else p' == p && (r.EndOfFile? <==> p.writers == 0))
  }

  /** The locked part of pipe_write takes what fits, or finds nobody to read it, or has to wait. */
  ghost predicate WriteDone(p: Pipe, p': Pipe, data: seq<byte>, total: nat, r: WriteOutcome) {
    && RingOk(p) && total < |data| && (r.NoReaders? <==> p.readers == 0)
    && (if r.Put? then
          && 0 < r.amount == PipeProtocol.Min(PIPE_CAPACITY - p.count, |data| - total)
          && PipeProtocol.Filled(p, p', data[total..total + r.amount])
        else p' == p && (r.MustWaitToWrite? ==> p.count == PIPE_CAPACITY))
  }

  /** Where pipe_read goes on. */
  function AfterRead(k: nat, length: nat, r: ReadOutcome): PipeProtocol.Phase {
    match r
    case Got(_) => PipeProtocol.Waking(PipeProtocol.Idle)
    case EndOfFile => PipeProtocol.Idle
    case MustWait => PipeProtocol.Empty(k, length)
  }

  /** Where pipe_write goes on. */
  function AfterWrite(w: PipeProtocol.WriteCall, r: WriteOutcome): PipeProtocol.Phase {
    match r
    case Put(amount) => PipeProtocol.Waking(PipeProtocol.Writing(w.(total := w.total + amount)))
    case NoReaders => PipeProtocol.Idle
    case MustWaitToWrite => PipeProtocol.Full(w)
  }

  /** The locked part of pipe_read is a step of the protocol, after which the reader goes on as the code
      does, and the bytes it returns are the ones delivered. */
  lemma ReadIsStep(s: PipeProtocol.System, u: nat, p': Pipe, r: ReadOutcome) returns (s': PipeProtocol.System)
    requires PipeProtocol.Inv(s) && u in s.tasks && s.tasks[u].Reading? && PipeProtocol.InRange(s, u)
    requires ReadDone(s.table.pipes[s.tasks[u].k], p', s.tasks[u].length, r)
    ensures PipeProtocol.Step(s, PipeProtocol.ReadSection(u), s') && PipeProtocol.Inv(s')
    ensures s'.table == s.table.(pipes := s.table.pipes[s.tasks[u].k := p'])
    ensures s'.tasks == s.tasks[u := AfterRead(s.tasks[u].k, s.tasks[u].length, r)]
    ensures r.Got? ==> s'.logs[s.tasks[u].k].delivered == s.logs[s.tasks[u].k].delivered + r.bytes
  {
    hide PipeProtocol.Inv, Contents, RingOk;
    var k := s.tasks[u].k;
    var log := s.logs[k];
    s' := s.(table := s.table.(pipes := s.table.pipes[k := p']),
             logs := if r.Got? then s.logs[k := log.(delivered := log.delivered + r.bytes)] else s.logs,
             tasks := s.tasks[u := AfterRead(k, s.tasks[u].length, r)]);
    if !r.Got? {
      assert s.table.pipes[k := p'] == s.table.pipes;
    }
    assert PipeProtocol.ReadStep(s, s', u);
    PipeProtocol.StepKeepsInv(s, PipeProtocol.ReadSection(u), s');
  }

  /** The pipe has accepted the next `amount` bytes of the call. */
  ghost predicate Accepted(logs: seq<PipeProtocol.Log>, logs': seq<PipeProtocol.Log>, w: PipeProtocol.WriteCall,
                           amount: nat) {
    && w.k < |logs| == |logs'| && w.total + amount <= |w.data|
    && logs'[w.k].accepted == logs[w.k].accepted + PipeProtocol.Tag(w.call, w.data[w.total..w.total + amount])
  }

  /** The same for the locked part of pipe_write: the bytes it takes are the ones accepted. */
  lemma WriteIsStep(s: PipeProtocol.System, u: nat, p': Pipe, r: WriteOutcome) returns (s': PipeProtocol.System)
    requires PipeProtocol.Inv(s) && u in s.tasks && s.tasks[u].Writing? && PipeProtocol.InRange(s, u)
    requires WriteDone(s.table.pipes[s.tasks[u].w.k], p', s.tasks[u].w.data, s.tasks[u].w.total, r)
    ensures PipeProtocol.Step(s, PipeProtocol.WriteSection(u), s') && PipeProtocol.Inv(s')
    ensures s'.table == s.table.(pipes := s.table.pipes[s.tasks[u].w.k := p'])
    ensures s'.tasks == s.tasks[u := AfterWrite(s.tasks[u].w, r)]
    ensures r.Put? ==> Accepted(s.logs, s'.logs, s.tasks[u].w, r.amount)
  {
    hide PipeProtocol.Inv, Contents, PipeProtocol.Tag, PipeProtocol.Filled;
    var w := s.tasks[u].w;
    if r.Put? {
      s' := PutIsStep(s, u, p', r.amount);
    } else {
      assert s.table.pipes[w.k := p'] == s.table.pipes;
      s' := s.(tasks := s.tasks[u := AfterWrite(w, r)]);
      assert PipeProtocol.WriteStep(s, s', u);
    }
    PipeProtocol.StepKeepsInv(s, PipeProtocol.WriteSection(u), s');
  }

  lemma PutIsStep(s: PipeProtocol.System, u: nat, p': Pipe, amount: nat) returns (s': PipeProtocol.System)
    requires u in s.tasks && s.tasks[u].Writing? && PipeProtocol.InRange(s, u)
    requires WriteDone(s.table.pipes[s.tasks[u].w.k], p', s.tasks[u].w.data, s.tasks[u].w.total, Put(amount))
    ensures PipeProtocol.WriteStep(s, s', u)
    ensures s'.table == s.table.(pipes := s.table.pipes[s.tasks[u].w.k := p'])
    ensures s'.tasks == s.tasks[u := AfterWrite(s.tasks[u].w, Put(amount))]
    ensures Accepted(s.logs, s'.logs, s.tasks[u].w, amount)
  {
    hide Contents, PipeProtocol.Tag;
    var w := s.tasks[u].w;
    var p, log, n := s.table.pipes[w.k], s.logs[w.k],
      PipeProtocol.Min(PIPE_CAPACITY - s.table.pipes[w.k].count, |w.data| - w.total);
    var bytes := w.data[w.total..w.total + n];
    s' := s.(table := s.table.(pipes := s.table.pipes[w.k := p']),
             logs := s.logs[w.k := log.(accepted := log.accepted + PipeProtocol.Tag(w.call, bytes))],
             tasks := s.tasks[u := PipeProtocol.Waking(PipeProtocol.Writing(w.(total := w.total + n)))]);
    assert n == amount && PipeProtocol.Filled(p, p', bytes);
  }

  /** Takes the oldest `n` bytes out of a ring. */
  method Drain(p: Pipe, n: nat) returns (q: Pipe, buffer: seq<byte>)
    requires RingOk(p) && n <= p.count
    ensures PipeProtocol.Drained(p, q, n) && buffer == Contents(p)[..n]
  {
    hide Contents;
    q, buffer := p, [];
    var i := 0;
    while i < n
      invariant 0 <= i <= n && |buffer| == i && RingOk(q) && q == p.(head := q.head, count := p.count - i)
      invariant Contents(p) == buffer + Contents(q)
    {
      PopOk(q);
      buffer := buffer + [q.data[q.head]];
      q := Pop(q);
      i := i + 1;
    }
  }

  /** Puts bytes into a ring behind those already there. */
  method Fill(p: Pipe, bytes: seq<byte>) returns (q: Pipe)
    requires RingOk(p) && p.count + |bytes| <= PIPE_CAPACITY
    ensures PipeProtocol.Filled(p, q, bytes)
  {
    hide Contents;
    q := p;
    var i := 0;
    while i < |bytes|
      invariant 0 <= i <= |bytes| && RingOk(q) && q == p.(data := q.data, tail := q.tail, count := p.count + i)
      invariant Contents(q) == Contents(p) + bytes[..i]
    {
      PushOk(q, bytes[i]);
      q := Push(q, bytes[i]);
      assert bytes[..i] + [bytes[i]] == bytes[..i + 1];
      i := i + 1;
    }
    assert bytes[..i] == bytes;
  }

  lemma HeldHandle(t: Table, i: nat)
    requires Counted(t) && i < |t.fds| && t.fds[i].used
    ensures HandleOk(t, t.fds[i].handle) && Live(t, t.fds[i].handle) && 0 <= t.fds[i].number < MAX_FDS
  {
    HeldIsLive(t, i);
  }

  lemma OnlyOne(t: Table, i: nat)
    requires Counted(t) && i < |t.fds| && t.fds[i].used
    ensures forall j | 0 <= j < |t.fds| && t.fds[j].used && t.fds[j].owner == t.fds[i].owner
      && t.fds[j].number == t.fds[i].number ::
      j == i
  {
  }

  lemma OpenSlot(fds: seq<Fd>, i: nat)
    requires i < |fds| && fds[i].used
    ensures Opens(fds, fds[i].owner, fds[i].number, fds[i].handle)
  {
  }

  lemma OthersRefl(t: Table, owner: nat)
    ensures OthersKept(t, t, owner)
  {
  }

  lemma OthersTrans(t: Table, mid: Table, t': Table, owner: nat)
    requires OthersKept(t, mid, owner) && OthersKept(mid, t', owner)
    ensures OthersKept(t, t', owner)
  {
  }

  lemma OthersStep(t: Table, mid: Table, t': Table, owner: nat, i: nat)
    requires OthersKept(t, mid, owner) && i < |mid.fds| == |t'.fds| && t'.fds == mid.fds[i := t'.fds[i]]
    requires (mid.fds[i].used ==> mid.fds[i].owner == owner) && t'.fds[i].owner == owner
    ensures OthersKept(t, t', owner)
  {
  }

  lemma CopyOpens(a: seq<Fd>, b: seq<Fd>, source: nat, target: nat, number: int)
    requires source < |a| && target < |a| && source != target && a[source].used
    requires b == a[target := a[source].(number := number)]
    ensures var o, n, h := a[source].owner, a[source].number, a[source].handle;
      Opens(a, o, n, h) && Opens(b, o, n, h) && Opens(b, o, number, h)
  {
    assert b[source] == a[source] && b[target] == a[source].(number := number);
  }

  // ---- counting slots, and copying a table ----

  ghost function SlotsOf(fds: seq<Fd>, owner: nat, lo: nat, hi: nat): (r: set<nat>)
    requires hi <= |fds|
    ensures forall i: nat :: i in r <==> lo <= i < hi && fds[i].used && fds[i].owner == owner
  {
    set i: nat | lo <= i < hi && fds[i].used && fds[i].owner == owner
  }

  ghost function FreeSlots(fds: seq<Fd>, hi: nat): (r: set<nat>)
    requires hi <= |fds|
    ensures forall i: nat :: i in r <==> i < hi && !fds[i].used
  {
    set i: nat | i < hi && !fds[i].used
  }

  lemma SlotsGrow(fds: seq<Fd>, owner: nat, lo: nat, i: nat)
    requires lo <= i < |fds|
    ensures |SlotsOf(fds, owner, lo, i + 1)| == |SlotsOf(fds, owner, lo, i)| + if fds[i].used
      && fds[i].owner == owner then 1 else 0
  {
    var a, b := SlotsOf(fds, owner, lo, i), SlotsOf(fds, owner, lo, i + 1);
    assert b == if fds[i].used && fds[i].owner == owner then a + {i} else a;
  }

  lemma SlotsShrink(fds: seq<Fd>, owner: nat, i: nat)
    requires i < |fds|
    ensures |SlotsOf(fds, owner, i, |fds|)| == |SlotsOf(fds, owner, i + 1, |fds|)| + if fds[i].used
      && fds[i].owner == owner then 1 else 0
  {
    var a, b := SlotsOf(fds, owner, i, |fds|), SlotsOf(fds, owner, i + 1, |fds|);
    assert a == if fds[i].used && fds[i].owner == owner then b + {i} else b;
  }

  lemma FreeGrow(fds: seq<Fd>, i: nat)
    requires i < |fds|
    ensures |FreeSlots(fds, i + 1)| == |FreeSlots(fds, i)| + if fds[i].used then 0 else 1
  {
    var a, b := FreeSlots(fds, i), FreeSlots(fds, i + 1);
    assert b == if fds[i].used then a else a + {i};
  }

  lemma FreeTaken(fds: seq<Fd>, i: nat, fd: Fd)
    requires i < |fds| && !fds[i].used && fd.used
    ensures |FreeSlots(fds[i := fd], |fds|)| == |FreeSlots(fds, |fds|)| - 1
  {
    assert FreeSlots(fds[i := fd], |fds|) == FreeSlots(fds, |fds|) - {i};
  }

  lemma SomeFree(fds: seq<Fd>, slot: nat)
    requires |FreeSlots(fds, |fds|)| > 0 && slot <= |fds| && forall j | 0 <= j < slot :: fds[j].used
    ensures slot < |fds|
  {
    assert FreeSlots(fds, |fds|) != {};
    var x :| x in FreeSlots(fds, |fds|);
  }

  ghost predicate TwoVacant(fds: seq<Fd>, owner: nat, from: nat) {
    exists a, b | from <= a < b < MAX_FDS :: Vacant(fds, owner, a) && Vacant(fds, owner, b)
  }

  ghost predicate TwoFree(fds: seq<Fd>) {
    exists i, j | 0 <= i < j < |fds| :: !fds[i].used && !fds[j].used
  }

  lemma NotTwo(fds: seq<Fd>, owner: nat, from: nat, n: nat)
    requires from <= n <= MAX_FDS
    ensures n == MAX_FDS && NoneVacant(fds, owner, from) ==> !TwoVacant(fds, owner, from)
    ensures n < MAX_FDS && Lowest(fds, owner, from, n) && NoneVacant(fds, owner, n + 1) ==> !TwoVacant(fds, owner, from)
  {
    hide Vacant;
  }

  lemma IndeedTwo(fds: seq<Fd>, owner: nat, from: nat, n: nat, m: nat)
    requires Lowest(fds, owner, from, n) && Lowest(fds, owner, n + 1, m) && m < MAX_FDS
    ensures TwoVacant(fds, owner, from)
  {
    hide Vacant;
  }

  /** The console descriptors a process starts with. */
  function Standard(owner: nat, number: int): Fd {
    Fd(true, owner, number,
      Handle(if number == 0 then "stdin" else if number == 1 then "stdout" else "stderr", None, CONSOLE, None, NoPipe))
  }

  lemma NoLongerVacant(fds: seq<Fd>, i: nat, fd: Fd, owner: nat, n: int)
    requires i < |fds| && !fds[i].used && fd.used && (!Vacant(fds, owner, n) || (fd.owner == owner && fd.number == n))
    ensures !Vacant(fds[i := fd], owner, n)
  {
    assert fds[i := fd][i] == fd;
    if !Vacant(fds, owner, n) {
      var j :| 0 <= j < |fds| && fds[j].used && fds[j].owner == owner && fds[j].number == n;
      assert fds[i := fd][j] == fds[j];
    }
  }

  ghost predicate Emptied(a: seq<Fd>, b: seq<Fd>, owner: nat) {
    |a| == |b| && forall i | 0 <= i < |a| :: if a[i].used && a[i].owner == owner then !b[i].used else b[i] == a[i]
  }

  lemma ClosedAll(t: Table, t': Table, owner: nat)
    requires |t.fds| == |t'.fds|
    requires forall i | 0 <= i < |t.fds| ::
      if t.fds[i].used && t.fds[i].owner == owner then !t'.fds[i].used else t'.fds[i] == t.fds[i]
    ensures Emptied(t.fds, t'.fds, owner) && OthersKept(t, t', owner) && SlotsOf(t'.fds, owner, 0, |t'.fds|) == {}
  {
  }

  lemma NoneFree(fds: seq<Fd>, slot: nat)
    requires slot <= |fds| && forall j | 0 <= j < slot :: fds[j].used
    ensures slot == |fds| ==> |FreeSlots(fds, |fds|)| == 0
    ensures slot < |fds| && !fds[slot].used ==> |FreeSlots(fds, |fds|)| > 0
  {
    if slot == |fds| {
      assert FreeSlots(fds, |fds|) == {};
    } else if !fds[slot].used {
      assert slot in FreeSlots(fds, |fds|);
    }
  }

  ghost predicate SharedNumber(a: seq<Fd>, parent: nat, b: seq<Fd>, child: nat, k: int) {
    exists h :: Opens(a, parent, k, h) && Opens(b, child, k, h)
  }

  /** The child has exactly the parent's descriptors below `n`. */
  ghost predicate StandardShared(a: seq<Fd>, parent: nat, b: seq<Fd>, child: nat, n: nat) {
    && |a| == |b|
    && (forall i | 0 <= i < |a| && a[i].used && a[i].owner != child :: b[i] == a[i])
    && (forall i | 0 <= i < |b| && b[i].used && b[i].owner != child :: a[i] == b[i])
    && (forall k | 0 <= k < n :: SharedNumber(a, parent, b, child, k))
    && (forall i | 0 <= i < |b| && b[i].used && b[i].owner == child :: 0 <= b[i].number < n)
  }

  lemma SharedNone(a: seq<Fd>, b: seq<Fd>, parent: nat, child: nat)
    requires Emptied(a, b, child)
    ensures StandardShared(a, parent, b, child, 0)
  {
  }

  lemma SharedVacant(t0: Table, t: Table, parent: nat, child: nat, n: nat)
    requires StandardShared(t0.fds, parent, t.fds, child, n) && parent != child
    ensures Vacant(t.fds, child, n) && (Vacant(t.fds, parent, n) <==> Vacant(t0.fds, parent, n))
  {
  }

  lemma SharedStep(a: seq<Fd>, b: seq<Fd>, b': seq<Fd>, parent: nat, child: nat, n: nat, source: nat, target: nat)
    requires StandardShared(a, parent, b, child, n) && parent != child && source < |b| && target < |b|
    requires !b[target].used
    requires b[source].used && b[source].owner == parent && b[source].number == n
    requires b' == b[target := b[source].(owner := child, number := n)]
    ensures StandardShared(a, parent, b', child, n + 1)
  {
    forall k | 0 <= k < n + 1 ensures SharedNumber(a, parent, b', child, k) {
      if k == n {
        assert a[source] == b[source] && b'[target].handle == a[source].handle;
        assert Opens(a, parent, n, a[source].handle) && Opens(b', child, n, a[source].handle);
      } else {
        assert SharedNumber(a, parent, b, child, k);
        var h :| Opens(a, parent, k, h) && Opens(b, child, k, h);
        var i :| 0 <= i < |b| && b[i].used && b[i].owner == child && b[i].number == k && b[i].handle == h;
        assert b'[i] == b[i];
        assert Opens(b', child, k, h);
      }
    }
  }

  /** Two processes have descriptors with the same numbers and handles. */
  ghost predicate SameHandles(a: seq<Fd>, owner: nat, b: seq<Fd>, other: nat) {
    forall n, h :: Opens(a, owner, n, h) <==> Opens(b, other, n, h)
  }

  /** The parent's descriptors in the first `i` slots have been copied, and nothing else changed. */
  ghost predicate Copied(a: seq<Fd>, b: seq<Fd>, parent: nat, child: nat, i: nat, copies: map<nat, nat>) {
    && |a| == |b|
    && (forall j | 0 <= j < |a| && a[j].used :: b[j] == a[j])
    && (forall j | 0 <= j < |a| && j < i && a[j].used && a[j].owner == parent :: j in copies)
    && (forall j | j in copies ::
      j < i && j < |a| && copies[j] < |b| && a[j].used && a[j].owner == parent && b[copies[j]] == a[j].(owner := child))
    && (forall c | 0 <= c < |b| && b[c].used && !a[c].used :: b[c].owner == child && exists j ::
      j in copies && copies[j] == c)
    && (forall c | 0 <= c < |a| && a[c].used :: a[c].owner != child)
  }

  lemma CopiedStart(fds: seq<Fd>, parent: nat, child: nat)
    requires SlotsOf(fds, child, 0, |fds|) == {}
    ensures Copied(fds, fds, parent, child, 0, map[])
  {
    forall c | 0 <= c < |fds| && fds[c].used ensures fds[c].owner != child {
      assert c !in SlotsOf(fds, child, 0, |fds|);
    }
  }

  lemma CopiedSlot(a: seq<Fd>, b: seq<Fd>, parent: nat, child: nat, i: nat, copies: map<nat, nat>)
    requires Copied(a, b, parent, child, i, copies) && i < |a| && parent != child
    ensures b[i].used && b[i].owner == parent <==> a[i].used && a[i].owner == parent
    ensures a[i].used ==> b[i] == a[i]
  {
  }

  lemma CopiedSkip(a: seq<Fd>, b: seq<Fd>, parent: nat, child: nat, i: nat, copies: map<nat, nat>)
    requires Copied(a, b, parent, child, i, copies) && i < |a| && !(a[i].used && a[i].owner == parent)
    ensures Copied(a, b, parent, child, i + 1, copies)
  {
  }

  lemma CopiedStep(a: seq<Fd>, b: seq<Fd>, b': seq<Fd>, parent: nat, child: nat, i: nat, slot: nat,
                   copies: map<nat, nat>)
    requires Copied(a, b, parent, child, i, copies) && i < |a| && a[i].used && a[i].owner == parent
    requires slot < |b| && !b[slot].used && b' == b[slot := a[i].(owner := child)]
    ensures Copied(a, b', parent, child, i + 1, copies[i := slot])
  {
    var copies' := copies[i := slot];
    forall c | 0 <= c < |b'| && b'[c].used && !a[c].used
      ensures b'[c].owner == child && exists j :: j in copies' && copies'[j] == c {
      if c == slot {
        assert i in copies' && copies'[i] == c;
      } else {
        var j :| j in copies && copies[j] == c;
        assert j in copies' && copies'[j] == c;
      }
    }
    forall j | j in copies ensures copies[j] != slot {
      assert b[copies[j]] == a[j].(owner := child);
    }
  }

  lemma VacantChild(t0: Table, t: Table, parent: nat, child: nat, i: nat, copies: map<nat, nat>)
    requires Counted(t0) && Copied(t0.fds, t.fds, parent, child, i, copies) && i < |t0.fds| && t0.fds[i].used
    requires t0.fds[i].owner == parent
    ensures 0 <= t0.fds[i].number < MAX_FDS && Vacant(t.fds, child, t0.fds[i].number)
  {
    hide PipeOk, FileOk;
    forall c | 0 <= c < |t.fds| && t.fds[c].used
      ensures !(t.fds[c].owner == child && t.fds[c].number == t0.fds[i].number) {
      if !t0.fds[c].used {
        var j :| j in copies && copies[j] == c;
        assert t.fds[c] == t0.fds[j].(owner := child);
      }
    }
  }

  lemma CopiedAll(a: seq<Fd>, b: seq<Fd>, parent: nat, child: nat, copies: map<nat, nat>)
    requires Copied(a, b, parent, child, |a|, copies) && parent != child
    ensures SameHandles(a, parent, b, child)
  {
    forall n, h ensures Opens(a, parent, n, h) <==> Opens(b, child, n, h) {
      if Opens(a, parent, n, h) {
        var j :| 0 <= j < |a| && a[j].used && a[j].owner == parent && a[j].number == n && a[j].handle == h;
        assert b[copies[j]] == a[j].(owner := child);
      }
      if Opens(b, child, n, h) {
        var c :| 0 <= c < |b| && b[c].used && b[c].owner == child && b[c].number == n && b[c].handle == h;
        var j :| j in copies && copies[j] == c;
        assert a[j].number == n && a[j].handle == h;
      }
    }
  }

  function PipeHandle(k: nat, mode: Mode): Handle { Handle("[pipe]", None, 0, Some(k), mode) }

  lemma PipeLegal(t: Table, k: nat, i: nat, r: Fd, j: nat, w: Fd)
    requires k < |t.pipes| && !t.pipes[k].used && i < |t.fds| && j < |t.fds| && i != j && !t.fds[i].used
    requires !t.fds[j].used
    requires r.used && w.used && r.owner == w.owner && 0 <= r.number < w.number < MAX_FDS
    requires r.handle == PipeHandle(k, ReadEnd) && w.handle == PipeHandle(k, WriteEnd)
    requires Vacant(t.fds, r.owner, r.number) && Vacant(t.fds, w.owner, w.number)
    ensures Legal(t, NewPipe(k, i, r, j, w))
  {
  }

  lemma RingOf(t: Table, k: nat)
    requires Counted(t) && k < |t.pipes|
    ensures RingOk(t.pipes[k])
  {
    assert PipeOk(t.fds, k, t.pipes[k]);
  }

  lemma ParentKept(a: seq<Fd>, b: seq<Fd>, parent: nat, child: nat)
    requires |a| == |b| && parent != child
    requires forall i | 0 <= i < |a| :: if a[i].used && a[i].owner == child then !b[i].used else b[i] == a[i]
    ensures SameHandles(a, parent, b, parent)
  {
    forall n, h ensures Opens(a, parent, n, h) <==> Opens(b, parent, n, h) {
      if Opens(a, parent, n, h) {
        var i :| 0 <= i < |a| && a[i].used && a[i].owner == parent && a[i].number == n && a[i].handle == h;
        assert b[i] == a[i];
      }
      if Opens(b, parent, n, h) {
        var i :| 0 <= i < |b| && b[i].used && b[i].owner == parent && b[i].number == n && b[i].handle == h;
        assert b[i] == a[i];
      }
    }
  }
}
