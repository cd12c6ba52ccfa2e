/** Open files, pipes and the descriptors that hold them (src/fs/vfs.c), as values. */
module Descriptors {
  import opened Pmm
  import opened Paging

  const MAX_FDS: nat := 32
  const DESCRIPTOR_SLOTS: nat := 512
  const MAX_PIPES: nat := 16
  const PIPE_CAPACITY: nat := 4096

  datatype Mode = NoPipe | ReadEnd | WriteEnd

  /** What a descriptor gives access to. */
  datatype Handle = Handle(name: string, file: Option<nat>, device: nat, pipe: Option<nat>, mode: Mode)

  const NOTHING := Handle("", None, 0, None, NoPipe)

  datatype Fd = Fd(used: bool, owner: nat, number: int, handle: Handle)

  datatype OpenFile = OpenFile(used: bool, references: nat, offset: nat)

  datatype Pipe = Pipe(used: bool, readers: nat, writers: nat, head: nat, tail: nat, count: nat, data: seq<byte>)

  datatype Table = Table(fds: seq<Fd>, files: seq<OpenFile>, pipes: seq<Pipe>)

  // ---- the ring ----

  predicate RingOk(p: Pipe) {
    && |p.data| == PIPE_CAPACITY && p.head < PIPE_CAPACITY && p.count <= PIPE_CAPACITY
    && p.tail == (p.head + p.count) % PIPE_CAPACITY
  }

  /** The bytes in the pipe, oldest first. */
  function Contents(p: Pipe): (s: seq<byte>)
    requires RingOk(p)
    ensures |s| == p.count
  {
    seq(p.count, i requires 0 <= i < p.count => p.data[(p.head + i) % PIPE_CAPACITY])
  }

  function Pop(p: Pipe): Pipe
    requires RingOk(p) && p.count > 0
  {
    p.(head := (p.head + 1) % PIPE_CAPACITY, count := p.count - 1)
  }

  function Push(p: Pipe, b: byte): Pipe
    requires RingOk(p) && p.count < PIPE_CAPACITY
  {
    p.(data := p.data[p.tail := b], tail := (p.tail + 1) % PIPE_CAPACITY, count := p.count + 1)
  }

  lemma Wrap(h: nat, i: nat)
    requires h < PIPE_CAPACITY && i <= PIPE_CAPACITY
    ensures (h + i) % PIPE_CAPACITY == if h + i < PIPE_CAPACITY then h + i else h + i - PIPE_CAPACITY
  {
  }

  lemma PopOk(p: Pipe)
    requires RingOk(p) && p.count > 0
    ensures RingOk(Pop(p)) && Contents(p) == [p.data[p.head]] + Contents(Pop(p))
  {
    var q := Pop(p);
    Wrap(p.head, 1);
    Wrap(p.head, p.count);
    Wrap(q.head, q.count);
    forall i | 0 <= i < q.count ensures Contents(q)[i] == Contents(p)[i + 1] {
      Wrap(q.head, i);
      Wrap(p.head, i + 1);
    }
    Wrap(p.head, 0);
  }

  lemma PushOk(p: Pipe, b: byte)
    requires RingOk(p) && p.count < PIPE_CAPACITY
    ensures RingOk(Push(p, b)) && Contents(Push(p, b)) == Contents(p) + [b]
  {
    var q := Push(p, b);
    Wrap(p.head, p.count);
    Wrap(p.head, q.count);
    Wrap(p.tail, 1);
    forall i | 0 <= i < p.count ensures Contents(q)[i] == Contents(p)[i] {
      Wrap(p.head, i);
      assert (p.head + i) % PIPE_CAPACITY != p.tail;
    }
  }

  // ---- who holds what ----

  predicate EndOf(fd: Fd, k: nat, mode: Mode) {
    fd.used && fd.handle.mode == mode && fd.handle.pipe == Some(k)
  }

  predicate FileOf(fd: Fd, f: nat) { fd.used && fd.handle.file == Some(f) }

  ghost function Ends(fds: seq<Fd>, k: nat, mode: Mode): (r: set<nat>)
    ensures forall i: nat :: i in r <==> i < |fds| && EndOf(fds[i], k, mode)
  {
    set i: nat | i < |fds| && EndOf(fds[i], k, mode)
  }

  ghost function Holders(fds: seq<Fd>, f: nat): (r: set<nat>)
    ensures forall i: nat :: i in r <==> i < |fds| && FileOf(fds[i], f)
  {
    set i: nat | i < |fds| && FileOf(fds[i], f)
  }

  lemma EndsUpdate(fds: seq<Fd>, i: nat, fd: Fd, k: nat, mode: Mode)
    requires i < |fds|
    ensures |Ends(fds[i := fd], k, mode)|
      == |Ends(fds, k, mode)| - (if EndOf(fds[i], k, mode) then 1 else 0) + (if EndOf(fd, k, mode) then 1 else 0)
  {
    hide EndOf;
    var a, b := Ends(fds, k, mode), Ends(fds[i := fd], k, mode);
    assert a - {i} == b - {i};
    assert |a - {i}| == |a| - if i in a then 1 else 0;
    assert |b - {i}| == |b| - if i in b then 1 else 0;
  }

  lemma HoldersUpdate(fds: seq<Fd>, i: nat, fd: Fd, f: nat)
    requires i < |fds|
    ensures |Holders(fds[i := fd], f)|
      == |Holders(fds, f)| - (if FileOf(fds[i], f) then 1 else 0) + (if FileOf(fd, f) then 1 else 0)
  {
    var a, b := Holders(fds, f), Holders(fds[i := fd], f);
    assert a - {i} == b - {i};
    assert |a - {i}| == |a| - if i in a then 1 else 0;
    assert |b - {i}| == |b| - if i in b then 1 else 0;
  }

  ghost predicate PipeOk(fds: seq<Fd>, k: nat, p: Pipe) {
    && RingOk(p)
    && p.readers == |Ends(fds, k, ReadEnd)| && p.writers == |Ends(fds, k, WriteEnd)|
    && (p.used <==> p.readers + p.writers > 0)
    && (!p.used ==> p.count == 0)
  }

  ghost predicate FileOk(fds: seq<Fd>, f: nat, o: OpenFile) {
    o.references == |Holders(fds, f)| && (o.used <==> o.references > 0)
  }

  /** A handle is a file, a device or one end of a pipe. */
  predicate HandleOk(t: Table, h: Handle) {
    && (h.mode == NoPipe <==> h.pipe.None?)
    && (h.pipe.Some? ==> h.pipe.value < |t.pipes| && h.file.None?)
    && (h.file.Some? ==> h.file.value < |t.files|)
  }

  ghost predicate Unique(fds: seq<Fd>) {
    forall i, j | 0 <= i < j < |fds| && fds[i].used && fds[j].used ::
      !(fds[i].owner == fds[j].owner && fds[i].number == fds[j].number)
  }

  /** The descriptor invariant: counts are exact, objects live exactly while held, and a process
      has at most one descriptor of each number. */
  ghost predicate Counted(t: Table) {
    && |t.fds| == |t.files| == DESCRIPTOR_SLOTS && |t.pipes| == MAX_PIPES
    && (forall k | 0 <= k < |t.pipes| :: PipeOk(t.fds, k, t.pipes[k]))
    && (forall f | 0 <= f < |t.files| :: FileOk(t.fds, f, t.files[f]))
    && (forall i | 0 <= i < |t.fds| :: HandleOk(t, t.fds[i].handle) && 0 <= t.fds[i].number < MAX_FDS)
    && Unique(t.fds)
  }

  // ---- taking and giving up references ----

  /** pipe_drop_reference_locked: the last end to go empties the pipe and frees it. */
  function DropEnd(p: Pipe, mode: Mode): Pipe {
    if !p.used then p else
      var r := if mode == ReadEnd && p.readers > 0 then p.readers - 1 else p.readers;
      var w := if mode == WriteEnd && p.writers > 0 then p.writers - 1 else p.writers;
      if r == 0 && w == 0 then p.(used := false, readers := 0, writers := 0, head := 0, tail := 0, count := 0)
      else p.(readers := r, writers := w)
  }

  function KeepEnd(p: Pipe, mode: Mode): Pipe {
    if mode == ReadEnd then p.(readers := p.readers + 1)
    else if mode == WriteEnd then p.(writers := p.writers + 1) else p
  }

  /** open_file_release_locked */
  function DropFile(o: OpenFile): OpenFile {
    if o.references == 0 then o else if o.references == 1 then OpenFile(false, 0, 0)
      else o.(references := o.references - 1)
  }

  function KeepFile(o: OpenFile): OpenFile { o.(references := o.references + 1) }

  function Dropped(t: Table, h: Handle): Table
    requires HandleOk(t, h)
  {
    var u := if h.pipe.Some? then t.(pipes := t.pipes[h.pipe.value := DropEnd(t.pipes[h.pipe.value], h.mode)]) else t;
    if h.file.Some? then u.(files := u.files[h.file.value := DropFile(u.files[h.file.value])]) else u
  }

  function Kept(t: Table, h: Handle): Table
    requires HandleOk(t, h)
  {
    var u := if h.pipe.Some? then t.(pipes := t.pipes[h.pipe.value := KeepEnd(t.pipes[h.pipe.value], h.mode)]) else t;
    if h.file.Some? then u.(files := u.files[h.file.value := KeepFile(u.files[h.file.value])]) else u
  }

  function Blank(fd: Fd): Fd {
    Fd(false, fd.owner, fd.number, Handle(fd.handle.name, None, fd.handle.device, None, NoPipe))
  }

  /** The descriptor in slot `i` is closed. */
  function Cleared(t: Table, i: nat): Table
    requires i < |t.fds| && HandleOk(t, t.fds[i].handle)
  {
    Dropped(t, t.fds[i].handle).(fds := t.fds[i := Blank(t.fds[i])])
  }

  /** Slot `i` becomes one more holder of what `fd` refers to. */
  function Placed(t: Table, i: nat, fd: Fd): Table
    requires i < |t.fds| && HandleOk(t, fd.handle)
  {
    Kept(t, fd.handle).(fds := t.fds[i := fd])
  }

  predicate Live(t: Table, h: Handle)
    requires HandleOk(t, h)
  {
    (h.pipe.Some? ==> t.pipes[h.pipe.value].used) && (h.file.Some? ==> t.files[h.file.value].used)
  }

  ghost predicate Vacant(fds: seq<Fd>, owner: nat, number: int) {
    forall i | 0 <= i < |fds| && fds[i].used :: !(fds[i].owner == owner && fds[i].number == number)
  }

  /** Pipes that stay in use keep their bytes. */
  ghost predicate BytesKept(t: Table, t': Table) {
    |t.pipes| == |t'.pipes| && forall k | 0 <= k < |t.pipes| && t.pipes[k].used && t'.pipes[k].used ::
      RingOk(t.pipes[k]) && RingOk(t'.pipes[k]) && Contents(t'.pipes[k]) == Contents(t.pipes[k])
  }

  /** Files that are in use were in use before, and stand where they stood. */
  ghost predicate OffsetsKept(t: Table, t': Table) {
    |t'.files| == |t.files| && forall f | 0 <= f < |t.files| && t'.files[f].used ::
      t.files[f].used && t'.files[f].offset == t.files[f].offset
  }

  lemma OffsetsRefl(t: Table)
    ensures OffsetsKept(t, t)
  {
  }

  lemma OffsetsTrans(t: Table, t1: Table, t2: Table)
    requires OffsetsKept(t, t1) && OffsetsKept(t1, t2)
    ensures OffsetsKept(t, t2)
  {
  }

  /** No move but the opening of a file touches the place a file stands at, and that one touches no other
      file. */
  lemma MoveKeepsOffsets(t: Table, m: Move)
    requires Counted(t) && Legal(t, m)
    ensures !m.NewFile? ==> OffsetsKept(t, Apply(t, m))
    ensures m.NewFile? ==>
      |Apply(t, m).files| == |t.files| && forall g | 0 <= g < |t.files| && g != m.f ::
        Apply(t, m).files[g] == t.files[g]
  {
    hide Counted;
    match m
    case Hold(i, fd) =>
      var f := fd.handle.file;
      assert f.Some? ==> Apply(t, m).files == t.files[f.value := KeepFile(t.files[f.value])];
    case Close(i) =>
      var f := t.fds[i].handle.file;
      assert f.Some? ==> Apply(t, m).files == t.files[f.value := DropFile(t.files[f.value])];
      FileUse(t, i);
    case _ =>
  }

  /** The record of a file that a descriptor holds. */
  lemma FileUse(t: Table, i: nat)
    requires Counted(t) && i < |t.fds| && t.fds[i].used
    ensures t.fds[i].handle.file.Some? ==>
      t.fds[i].handle.file.value < |t.files| && t.files[t.fds[i].handle.file.value].used
  {
    HeldIsLive(t, i);
    assert HandleOk(t, t.fds[i].handle);
  }

  lemma HeldIsLive(t: Table, i: nat)
    requires Counted(t) && i < |t.fds| && t.fds[i].used
    ensures Live(t, t.fds[i].handle)
    ensures var h := t.fds[i].handle;
      h.pipe.Some? ==>
        (h.mode == ReadEnd ==> t.pipes[h.pipe.value].readers > 0)
          && (h.mode == WriteEnd ==> t.pipes[h.pipe.value].writers > 0)
  {
    var h := t.fds[i].handle;
    assert HandleOk(t, h);
    if h.pipe.Some? {
      assert PipeOk(t.fds, h.pipe.value, t.pipes[h.pipe.value]);
      assert i in Ends(t.fds, h.pipe.value, h.mode);
    }
    if h.file.Some? {
      assert FileOk(t.fds, h.file.value, t.files[h.file.value]);
      assert i in Holders(t.fds, h.file.value);
    }
  }

  lemma ClearedPipe(t: Table, i: nat, k: nat)
    requires Counted(t) && i < |t.fds| && t.fds[i].used && k < |t.pipes|
    ensures PipeOk(Cleared(t, i).fds, k, Cleared(t, i).pipes[k])
    ensures t.pipes[k].used && Cleared(t, i).pipes[k].used ==> Contents(Cleared(t, i).pipes[k]) == Contents(t.pipes[k])
  {
    HeldIsLive(t, i);
    var h, t' := t.fds[i].handle, Cleared(t, i);
    assert PipeOk(t.fds, k, t.pipes[k]);
    EndsUpdate(t.fds, i, Blank(t.fds[i]), k, ReadEnd);
    EndsUpdate(t.fds, i, Blank(t.fds[i]), k, WriteEnd);
    hide Ends, Counted;
    if h.pipe == Some(k) {
      assert t'.pipes[k] == DropEnd(t.pipes[k], h.mode);
    } else {
      assert t'.pipes[k] == t.pipes[k];
    }
  }

  lemma ClearedFile(t: Table, i: nat, f: nat)
    requires Counted(t) && i < |t.fds| && t.fds[i].used && f < |t.files|
    ensures FileOk(Cleared(t, i).fds, f, Cleared(t, i).files[f])
  {
    HeldIsLive(t, i);
    assert FileOk(t.fds, f, t.files[f]);
    HoldersUpdate(t.fds, i, Blank(t.fds[i]), f);
    hide Holders, Counted;
  }

  /** Closing a descriptor keeps every count exact. */
  lemma ClearedOk(t: Table, i: nat)
    requires Counted(t) && i < |t.fds| && t.fds[i].used
    ensures Counted(Cleared(t, i)) && BytesKept(t, Cleared(t, i))
  {
    var t' := Cleared(t, i);
    forall k | 0 <= k < |t'.pipes| ensures PipeOk(t'.fds, k, t'.pipes[k]) {
      ClearedPipe(t, i, k);
    }
    forall k | 0 <= k < |t.pipes| && t.pipes[k].used && t'.pipes[k].used
      ensures RingOk(t.pipes[k]) && RingOk(t'.pipes[k]) && Contents(t'.pipes[k]) == Contents(t.pipes[k]) {
      ClearedPipe(t, i, k);
    }
    forall f | 0 <= f < |t'.files| ensures FileOk(t'.fds, f, t'.files[f]) {
      ClearedFile(t, i, f);
    }
    hide PipeOk, FileOk, Dropped, Contents;
    forall j | 0 <= j < |t'.fds| ensures HandleOk(t', t'.fds[j].handle) && 0 <= t'.fds[j].number < MAX_FDS {
      assert HandleOk(t, t.fds[j].handle) && 0 <= t.fds[j].number < MAX_FDS;
    }
  }

  lemma PlacedPipe(t: Table, i: nat, fd: Fd, k: nat)
    requires Counted(t) && i < |t.fds| && !t.fds[i].used && fd.used && HandleOk(t, fd.handle) && Live(t, fd.handle)
    requires k < |t.pipes|
    ensures PipeOk(Placed(t, i, fd).fds, k, Placed(t, i, fd).pipes[k])
    ensures Contents(Placed(t, i, fd).pipes[k]) == Contents(t.pipes[k])
    ensures Placed(t, i, fd).pipes[k].used <==> t.pipes[k].used
  {
    var t' := Placed(t, i, fd);
    assert PipeOk(t.fds, k, t.pipes[k]);
    EndsUpdate(t.fds, i, fd, k, ReadEnd);
    EndsUpdate(t.fds, i, fd, k, WriteEnd);
    hide Ends, Counted;
    if fd.handle.pipe == Some(k) {
      assert t'.pipes[k] == KeepEnd(t.pipes[k], fd.handle.mode);
    } else {
      assert t'.pipes[k] == t.pipes[k];
    }
  }

  lemma PlacedFile(t: Table, i: nat, fd: Fd, f: nat)
    requires Counted(t) && i < |t.fds| && !t.fds[i].used && fd.used && HandleOk(t, fd.handle) && Live(t, fd.handle)
    requires f < |t.files|
    ensures FileOk(Placed(t, i, fd).fds, f, Placed(t, i, fd).files[f])
  {
    assert FileOk(t.fds, f, t.files[f]);
    HoldersUpdate(t.fds, i, fd, f);
    hide Holders, Counted;
  }

  /** One more holder of a live object keeps every count exact. */
  lemma PlacedOk(t: Table, i: nat, fd: Fd)
    requires Counted(t) && i < |t.fds| && !t.fds[i].used && fd.used && 0 <= fd.number < MAX_FDS
    requires HandleOk(t, fd.handle) && Live(t, fd.handle) && Vacant(t.fds, fd.owner, fd.number)
    ensures Counted(Placed(t, i, fd)) && BytesKept(t, Placed(t, i, fd))
    ensures forall k | 0 <= k < |t.pipes| :: Placed(t, i, fd).pipes[k].used <==> t.pipes[k].used
  {
    var t' := Placed(t, i, fd);
    forall k | 0 <= k < |t'.pipes| ensures PipeOk(t'.fds, k, t'.pipes[k]) && (t'.pipes[k].used <==> t.pipes[k].used) {
      PlacedPipe(t, i, fd, k);
    }
    forall k | 0 <= k < |t.pipes| && t.pipes[k].used && t'.pipes[k].used
      ensures RingOk(t.pipes[k]) && RingOk(t'.pipes[k]) && Contents(t'.pipes[k]) == Contents(t.pipes[k]) {
      PlacedPipe(t, i, fd, k);
    }
    forall f | 0 <= f < |t'.files| ensures FileOk(t'.fds, f, t'.files[f]) {
      PlacedFile(t, i, fd, f);
    }
    hide PipeOk, FileOk, Kept, Contents;
    forall j | 0 <= j < |t'.fds| ensures HandleOk(t', t'.fds[j].handle) && 0 <= t'.fds[j].number < MAX_FDS {
      assert HandleOk(t, t.fds[j].handle) && 0 <= t.fds[j].number < MAX_FDS;
    }
  }

  // ---- the moves that descriptor calls are made of ----

  datatype Move =
    | Hold(i: nat, fd: Fd)
    | Close(i: nat)
    | NewFile(i: nat, f: nat, fd: Fd)
    | NewPipe(k: nat, i: nat, reader: Fd, j: nat, writer: Fd)

  const OPENED := OpenFile(true, 1, 0)

  function Piped(p: Pipe): Pipe { p.(used := true, readers := 1, writers := 1, head := 0, tail := 0, count := 0) }

  ghost predicate Free(t: Table, i: nat, fd: Fd) {
    && i < |t.fds| && !t.fds[i].used && fd.used && 0 <= fd.number < MAX_FDS && HandleOk(t, fd.handle)
    && Vacant(t.fds, fd.owner, fd.number)
  }

  ghost predicate Legal(t: Table, m: Move) {
    match m
    case Hold(i, fd) => Free(t, i, fd) && Live(t, fd.handle)
    case Close(i) => i < |t.fds| && t.fds[i].used && HandleOk(t, t.fds[i].handle)
    case NewFile(i, f, fd) => Free(t, i, fd) && f < |t.files| && !t.files[f].used && fd.handle.file == Some(f)
      && fd.handle.pipe.None?
    case NewPipe(k, i, reader, j, writer) =>
      && Free(t, i, reader) && Free(t, j, writer) && i != j && k < |t.pipes| && !t.pipes[k].used
      && EndOf(reader, k, ReadEnd) && EndOf(writer, k, WriteEnd)
      && !(reader.owner == writer.owner && reader.number == writer.number)
  }

  ghost function Apply(t: Table, m: Move): Table
    requires Legal(t, m)
  {
    match m
    case Hold(i, fd) => Placed(t, i, fd)
    case Close(i) => Cleared(t, i)
    case NewFile(i, f, fd) => t.(fds := t.fds[i := fd], files := t.files[f := OPENED])
    case NewPipe(k, i, reader, j, writer) => t.(fds := t.fds[i := reader][j := writer],
      pipes := t.pipes[k := Piped(t.pipes[k])])
  }

  lemma NoHolders(t: Table, f: nat)
    requires Counted(t) && f < |t.files| && !t.files[f].used
    ensures Holders(t.fds, f) == {}
  {
    assert FileOk(t.fds, f, t.files[f]);
  }

  lemma NoEnds(t: Table, k: nat)
    requires Counted(t) && k < |t.pipes| && !t.pipes[k].used
    ensures Ends(t.fds, k, ReadEnd) == {} && Ends(t.fds, k, WriteEnd) == {}
  {
    assert PipeOk(t.fds, k, t.pipes[k]);
  }

  lemma NewFileOk(t: Table, i: nat, f: nat, fd: Fd)
    requires Counted(t) && Legal(t, NewFile(i, f, fd))
    ensures Counted(Apply(t, NewFile(i, f, fd))) && BytesKept(t, Apply(t, NewFile(i, f, fd)))
  {
    var t' := Apply(t, NewFile(i, f, fd));
    NoHolders(t, f);
    forall k | 0 <= k < |t'.pipes| ensures PipeOk(t'.fds, k, t'.pipes[k]) {
      assert PipeOk(t.fds, k, t.pipes[k]);
      EndsUpdate(t.fds, i, fd, k, ReadEnd);
      EndsUpdate(t.fds, i, fd, k, WriteEnd);
    }
    forall g | 0 <= g < |t'.files| ensures FileOk(t'.fds, g, t'.files[g]) {
      assert FileOk(t.fds, g, t.files[g]);
      HoldersUpdate(t.fds, i, fd, g);
    }
    hide PipeOk, FileOk, Contents;
    forall j | 0 <= j < |t'.fds| ensures HandleOk(t', t'.fds[j].handle) && 0 <= t'.fds[j].number < MAX_FDS {
      assert HandleOk(t, t.fds[j].handle) && 0 <= t.fds[j].number < MAX_FDS;
    }
  }

  lemma NewPipeEnds(t: Table, k: nat, i: nat, reader: Fd, j: nat, writer: Fd, n: nat)
    requires Counted(t) && Legal(t, NewPipe(k, i, reader, j, writer)) && n < |t.pipes|
    ensures var t' := Apply(t, NewPipe(k, i, reader, j, writer)); PipeOk(t'.fds, n, t'.pipes[n])
  {
    assert PipeOk(t.fds, n, t.pipes[n]);
    NoEnds(t, k);
    EndsUpdate(t.fds, i, reader, n, ReadEnd);
    EndsUpdate(t.fds, i, reader, n, WriteEnd);
    EndsUpdate(t.fds[i := reader], j, writer, n, ReadEnd);
    EndsUpdate(t.fds[i := reader], j, writer, n, WriteEnd);
    hide Ends, Counted;
  }

  lemma NewPipeOk(t: Table, k: nat, i: nat, reader: Fd, j: nat, writer: Fd)
    requires Counted(t) && Legal(t, NewPipe(k, i, reader, j, writer))
    ensures var t' := Apply(t, NewPipe(k, i, reader, j, writer)); Counted(t') && BytesKept(t, t')
  {
    var t' := Apply(t, NewPipe(k, i, reader, j, writer));
    forall n | 0 <= n < |t'.pipes| ensures PipeOk(t'.fds, n, t'.pipes[n]) {
      NewPipeEnds(t, k, i, reader, j, writer, n);
    }
    forall f | 0 <= f < |t'.files| ensures FileOk(t'.fds, f, t'.files[f]) {
      assert FileOk(t.fds, f, t.files[f]);
      HoldersUpdate(t.fds, i, reader, f);
      HoldersUpdate(t.fds[i := reader], j, writer, f);
    }
    forall n | 0 <= n < |t.pipes| && t.pipes[n].used ensures RingOk(t.pipes[n]) && t'.pipes[n] == t.pipes[n] {
      assert PipeOk(t.fds, n, t.pipes[n]);
    }
    hide PipeOk, FileOk, Contents;
    forall l | 0 <= l < |t'.fds| ensures HandleOk(t', t'.fds[l].handle) && 0 <= t'.fds[l].number < MAX_FDS {
      assert HandleOk(t, t.fds[l].handle) && 0 <= t.fds[l].number < MAX_FDS;
    }
  }

  /** Every move keeps the descriptor invariant. */
  lemma MoveKeepsCounts(t: Table, m: Move)
    requires Counted(t) && Legal(t, m)
    ensures Counted(Apply(t, m)) && BytesKept(t, Apply(t, m)) && (!m.NewFile? ==> OffsetsKept(t, Apply(t, m)))
  {
    hide Counted, BytesKept, OffsetsKept;
    MoveKeepsOffsets(t, m);
    match m
    case Hold(i, fd) => PlacedOk(t, i, fd);
    case Close(i) => ClearedOk(t, i);
    case NewFile(i, f, fd) => NewFileOk(t, i, f, fd);
    case NewPipe(k, i, reader, j, writer) => NewPipeOk(t, k, i, reader, j, writer);
  }

  /** The moves lead from one table to another and close only descriptors of `owner`. */
  ghost predicate Does(t: Table, moves: seq<Move>, t': Table, owner: nat)
    decreases |moves|
  {
    if moves == [] then t' == t else
      && Legal(t, moves[0]) && (moves[0].Close? ==> t.fds[moves[0].i].owner == owner)
      && Does(Apply(t, moves[0]), moves[1..], t', owner)
  }

  ghost predicate ClosesEnd(t: Table, moves: seq<Move>)
    decreases |moves|
  {
    moves != [] && Legal(t, moves[0]) &&
      ((moves[0].Close? && t.fds[moves[0].i].handle.mode != NoPipe) || ClosesEnd(Apply(t, moves[0]), moves[1..]))
  }

  lemma DoesNothing(t: Table, owner: nat)
    ensures Does(t, [], t, owner) && !ClosesEnd(t, [])
  {
  }

  lemma DoesOne(t: Table, m: Move, owner: nat)
    requires Legal(t, m) && (m.Close? ==> t.fds[m.i].owner == owner)
    ensures Does(t, [m], Apply(t, m), owner) && (ClosesEnd(t, [m]) <==> m.Close? && t.fds[m.i].handle.mode != NoPipe)
  {
    assert [m][1..] == [];
  }

  lemma {:induction false} DoesAppend(t: Table, a: seq<Move>, t1: Table, b: seq<Move>, t2: Table, owner: nat)
    requires Does(t, a, t1, owner) && Does(t1, b, t2, owner)
    ensures Does(t, a + b, t2, owner) && (ClosesEnd(t, a + b) <==> ClosesEnd(t, a) || ClosesEnd(t1, b))
    decreases |a|
  {
    if a == [] {
      assert a + b == b;
    } else {
      assert (a + b)[0] == a[0] && (a + b)[1..] == a[1..] + b;
      DoesAppend(Apply(t, a[0]), a[1..], t1, b, t2, owner);
    }
  }

  /** The lowest number from `from` on that a process has free. */
  ghost predicate Lowest(fds: seq<Fd>, owner: nat, from: nat, n: int) {
    from <= n && Vacant(fds, owner, n) && forall k | from <= k < n :: !Vacant(fds, owner, k)
  }

  ghost predicate NoneVacant(fds: seq<Fd>, owner: nat, from: nat) {
    forall k | from <= k < MAX_FDS :: !Vacant(fds, owner, k)
  }

  ghost predicate AllUsed(fds: seq<Fd>) { forall i | 0 <= i < |fds| :: fds[i].used }

  /** A process has descriptor `n`, and it gives access to `h`. */
  ghost predicate Opens(fds: seq<Fd>, owner: nat, n: int, h: Handle) {
    exists i | 0 <= i < |fds| :: fds[i].used && fds[i].owner == owner && fds[i].number == n && fds[i].handle == h
  }

  /** Descriptors of everybody but `owner` are what they were. */
  ghost predicate OthersKept(t: Table, t': Table, owner: nat) {
    |t'.fds| == |t.fds| && forall i | 0 <= i < |t.fds| ::
      (t.fds[i].used && t.fds[i].owner != owner ==> t'.fds[i] == t.fds[i])
        && (t'.fds[i].used && t'.fds[i].owner != owner ==> t.fds[i] == t'.fds[i])
  }
}
