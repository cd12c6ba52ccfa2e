/** Pipes, descriptors and blocked tasks as one step protocol (src/fs/vfs.c, src/kernel/task.c).
    Each section with interrupts off is one step; anything may happen between two steps. */
module PipeProtocol {
  import opened Pmm
  import opened Paging
  import opened Descriptors

  /** A byte with the write call it came from. */
  datatype Sent = Sent(call: nat, b: byte)

  /** History of a pipe since it was made: what it accepted and what it delivered. */
  datatype Log = Log(accepted: seq<Sent>, delivered: seq<byte>)

  /** A call of pipe_write: the pipe, a serial number, the buffer, and the bytes written so far. */
  datatype WriteCall = WriteCall(k: nat, call: nat, data: seq<byte>, total: nat)

  /** Where a task stands. `Reading` and `Writing` are the heads of the loops in pipe_read and
      pipe_write; `Empty` and `Full` are between the check and task_block_current_if; `Waking` is
      between an update and task_wake_blocked. */
  datatype Phase =
    | Idle
    | Reading(k: nat, length: nat)
    | Empty(k: nat, length: nat)
    | ReadBlocked(k: nat, length: nat)
    | Writing(w: WriteCall)
    | Full(w: WriteCall)
    | WriteBlocked(w: WriteCall)
    | Waking(next: Phase)

  datatype System = System(table: Table, logs: seq<Log>, tasks: map<nat, Phase>, calls: nat)

  function Bytes(s: seq<Sent>): (r: seq<byte>)
    ensures |r| == |s| && forall i | 0 <= i < |s| :: r[i] == s[i].b
  {
    seq(|s|, i requires 0 <= i < |s| => s[i].b)
  }

  /** The bytes of one write call, in the order they went in. */
  function OfCall(s: seq<Sent>, call: nat): seq<byte> {
    if s == [] then [] else OfCall(s[..|s| - 1], call) + if s[|s| - 1].call == call then [s[|s| - 1].b] else []
  }

  function Tag(call: nat, bytes: seq<byte>): (r: seq<Sent>)
    ensures |r| == |bytes| && forall i | 0 <= i < |r| :: r[i] == Sent(call, bytes[i])
  {
    seq(|bytes|, i requires 0 <= i < |bytes| => Sent(call, bytes[i]))
  }

  lemma {:induction false} OfCallAppend(s: seq<Sent>, call: nat, bytes: seq<byte>, other: nat)
    ensures OfCall(s + Tag(call, bytes), other) == OfCall(s, other) + if other == call then bytes else []
  {
    if bytes == [] {
      assert s + Tag(call, bytes) == s;
    } else {
      var n := |bytes| - 1;
      var all := s + Tag(call, bytes);
      assert all[..|all| - 1] == s + Tag(call, bytes[..n]);
      OfCallAppend(s, call, bytes[..n], other);
      assert bytes[..n] + [bytes[n]] == bytes;
    }
  }

  lemma {:induction false} OfCallNone(s: seq<Sent>, call: nat)
    requires forall i | 0 <= i < |s| :: s[i].call != call
    ensures OfCall(s, call) == []
  {
    if s != [] {
      OfCallNone(s[..|s| - 1], call);
    }
  }

  // ---- waiting ----

  /** pipe_reader_should_wait and pipe_writer_should_wait */
  predicate ShouldWait(p: Pipe, mode: Mode) {
    p.used && if mode == ReadEnd then p.count == 0 && p.writers != 0 else p.count == PIPE_CAPACITY && p.readers != 0
  }

  /** The pipe a task waits for, if it is blocked on one. */
  function WaitsOn(f: Phase): Option<(nat, Mode)> {
    if f.ReadBlocked? then Some((f.k, ReadEnd)) else if f.WriteBlocked? then Some((f.w.k, WriteEnd)) else None
  }

  /** The pipe end a task is using. */
  function Uses(f: Phase): Option<(nat, Mode)> {
    match f
    case Reading(k, _) => Some((k, ReadEnd))
    case Empty(k, _) => Some((k, ReadEnd))
    case ReadBlocked(k, _) => Some((k, ReadEnd))
    case Writing(w) => Some((w.k, WriteEnd))
    case Full(w) => Some((w.k, WriteEnd))
    case WriteBlocked(w) => Some((w.k, WriteEnd))
    case Waking(next) => Uses(next)
    case Idle => None
  }

  /** The write call a task is in. */
  function Call(f: Phase): Option<WriteCall> {
    match f
    case Writing(w) => Some(w)
    case Full(w) => Some(w)
    case WriteBlocked(w) => Some(w)
    case Waking(next) => Call(next)
    case _ => None
  }

  predicate WakePending(s: System) { exists v | v in s.tasks :: s.tasks[v].Waking? }

  /** task_wake_blocked: every blocked task is ready to look again. */
  function Awake(f: Phase): Phase {
    match f
    case ReadBlocked(k, length) => Reading(k, length)
    case WriteBlocked(w) => Writing(w)
    case _ => f
  }

  ghost predicate HasEnd(t: Table, u: nat, k: nat, mode: Mode) {
    exists i | 0 <= i < |t.fds| :: t.fds[i].owner == u && EndOf(t.fds[i], k, mode)
  }

  ghost predicate AllAwake(a: map<nat, Phase>, b: map<nat, Phase>, u: nat)
    requires u in a && a[u].Waking?
  {
    b.Keys == a.Keys && forall v | v in a :: b[v] == if v == u then a[u].next else Awake(a[v])
  }

  // ---- the invariant ----

  /** Bytes delivered followed by bytes buffered are the bytes accepted. */
  ghost predicate LogOk(p: Pipe, log: Log, calls: nat) {
    && RingOk(p)
    && (p.used ==> Bytes(log.accepted) == log.delivered + Contents(p))
    && forall i | 0 <= i < |log.accepted| :: log.accepted[i].call < calls
  }

  ghost predicate LogsOk(s: System) {
    |s.logs| == |s.table.pipes| && forall k | 0 <= k < |s.logs| :: LogOk(s.table.pipes[k], s.logs[k], s.calls)
  }

  ghost predicate EndOk(t: Table, u: nat, f: Phase) {
    Uses(f).Some? ==> HasEnd(t, u, Uses(f).value.0, Uses(f).value.1)
  }

  /** A write call has put exactly its first `total` bytes into the pipe, in order. */
  ghost predicate CallOk(logs: seq<Log>, calls: nat, f: Phase) {
    Call(f).Some? ==> var w := Call(f).value;
      w.k < |logs| && w.call < calls && w.total <= |w.data| && OfCall(logs[w.k].accepted, w.call) == w.data[..w.total]
  }

  ghost predicate NextOk(f: Phase) { f.Waking? ==> f.next.Idle? || f.next.Writing? }

  ghost predicate TasksOk(s: System) {
    && (forall u | u in s.tasks ::
      EndOk(s.table, u, s.tasks[u]) && CallOk(s.logs, s.calls, s.tasks[u]) && NextOk(s.tasks[u]))
    && (forall u, v | u in s.tasks && v in s.tasks && u != v && Call(s.tasks[u]).Some? && Call(s.tasks[v]).Some? ::
         Call(s.tasks[u]).value.call != Call(s.tasks[v]).value.call)
  }

  /** No lost wakeups: a blocked task still has to wait, or some task is about to wake it. */
  ghost predicate NoLostWakeups(s: System) {
    forall u | u in s.tasks && WaitsOn(s.tasks[u]).Some? && WaitsOn(s.tasks[u]).value.0 < |s.table.pipes| ::
      ShouldWait(s.table.pipes[WaitsOn(s.tasks[u]).value.0], WaitsOn(s.tasks[u]).value.1) || WakePending(s)
  }

  ghost predicate Inv(s: System) {
    Counted(s.table) && LogsOk(s) && TasksOk(s) && NoLostWakeups(s)
  }

  lemma EndInUse(t: Table, u: nat, k: nat, mode: Mode)
    requires Counted(t) && HasEnd(t, u, k, mode) && mode != NoPipe
    ensures k < |t.pipes| && t.pipes[k].used && RingOk(t.pipes[k])
    ensures if mode == ReadEnd then t.pipes[k].readers > 0 else t.pipes[k].writers > 0
  {
    var i :| 0 <= i < |t.fds| && t.fds[i].owner == u && EndOf(t.fds[i], k, mode);
    HeldIsLive(t, i);
    assert HandleOk(t, t.fds[i].handle);
    assert PipeOk(t.fds, k, t.pipes[k]);
  }

  /** The pipe a task works on exists; true in every reachable state. */
  ghost predicate InRange(s: System, u: nat)
    requires u in s.tasks
  {
    && (Uses(s.tasks[u]).Some? ==>
      var k := Uses(s.tasks[u]).value.0; k < |s.table.pipes| == |s.logs| && RingOk(s.table.pipes[k]))
    && (Call(s.tasks[u]).Some? ==> Call(s.tasks[u]).value.total <= |Call(s.tasks[u]).value.data|)
  }

  /** While a task is inside a pipe call its pipe stays in use. */
  lemma PipeInUse(s: System, u: nat)
    requires Inv(s) && u in s.tasks
    ensures InRange(s, u) && (Uses(s.tasks[u]).Some? ==> s.table.pipes[Uses(s.tasks[u]).value.0].used)
  {
    var f := s.tasks[u];
    UsesEnd(f);
    assert EndOk(s.table, u, f) && CallOk(s.logs, s.calls, f);
    if Uses(f).Some? {
      EndInUse(s.table, u, Uses(f).value.0, Uses(f).value.1);
    }
  }

  lemma {:induction false} UsesEnd(f: Phase)
    ensures Uses(f).Some? ==> Uses(f).value.1 != NoPipe
  {
    if f.Waking? {
      UsesEnd(f.next);
    }
  }

  // ---- the steps ----

  datatype Event =
    | StartRead(u: nat, k: nat, length: nat)
    | StartWrite(u: nat, k: nat, data: seq<byte>)
    | ReadSection(u: nat)
    | WriteSection(u: nat)
    | BlockIf(u: nat)
    | Wake(u: nat)
    | Resume(u: nat)
    | Section(u: nat, moves: seq<Move>, wake: bool)
    | Begin(u: nat)
    | End(u: nat)

  function Min(a: nat, b: nat): nat { if a < b then a else b }

  /** What the locked part of pipe_read does with a pipe. */
  ghost predicate Drained(p: Pipe, p': Pipe, n: nat)
    requires RingOk(p)
  {
    RingOk(p') && n <= p.count && p' == p.(head := p'.head, count := p'.count) && Contents(p') == Contents(p)[n..]
  }

  /** What the locked part of pipe_write does with a pipe. */
  ghost predicate Filled(p: Pipe, p': Pipe, bytes: seq<byte>)
    requires RingOk(p)
  {
    RingOk(p') && p' == p.(tail := p'.tail, count := p'.count, data := p'.data) && Contents(p') == Contents(p) + bytes
  }

  ghost predicate ReadStep(s: System, s': System, u: nat)
    requires u in s.tasks && s.tasks[u].Reading? && InRange(s, u)
  {
    var k, length := s.tasks[u].k, s.tasks[u].length;
    var p, log := s.table.pipes[k], s.logs[k];
    if p.count != 0 then
      exists p' :: Drained(p, p', Min(p.count, length)) && s' == s.(table := s.table.(pipes := s.table.pipes[k := p']),
        logs := s.logs[k := log.(delivered := log.delivered + Contents(p)[..Min(p.count, length)])],
        tasks := s.tasks[u := Waking(Idle)])
    else s' == s.(tasks := s.tasks[u := if p.writers == 0 then Idle else Empty(k, length)])
  }

  ghost predicate WriteStep(s: System, s': System, u: nat)
    requires u in s.tasks && s.tasks[u].Writing? && InRange(s, u)
  {
    var w := s.tasks[u].w;
    var p, log := s.table.pipes[w.k], s.logs[w.k];
    if w.total == |w.data| || p.readers == 0 then s' == s.(tasks := s.tasks[u := Idle])
    else
      var amount := Min(PIPE_CAPACITY - p.count, |w.data| - w.total);
      var bytes := w.data[w.total..w.total + amount];
      if amount == 0 then s' == s.(tasks := s.tasks[u := Full(w)])
      else exists p' :: Filled(p, p', bytes) && s' == s.(table := s.table.(pipes := s.table.pipes[w.k := p']),
        logs := s.logs[w.k := log.(accepted := log.accepted + Tag(w.call, bytes))],
        tasks := s.tasks[u := Waking(Writing(w.(total := w.total + amount)))])
  }

  /** A descriptor call closes only descriptors of tasks that are not inside a pipe call. */
  ghost predicate MayMove(s: System, m: Move) {
    m.Close? && m.i < |s.table.fds| ==> var o := s.table.fds[m.i].owner; o in s.tasks ==> Uses(s.tasks[o]).None?
  }

  function Fresh(logs: seq<Log>, m: Move): seq<Log> {
    if m.NewPipe? && m.k < |logs| then logs[m.k := Log([], [])] else logs
  }

  ghost predicate Moved(s: System, s': System, moves: seq<Move>)
    decreases |moves|
  {
    if moves == [] then s' == s else
      && Legal(s.table, moves[0]) && MayMove(s, moves[0])
      && Moved(s.(table := Apply(s.table, moves[0]), logs := Fresh(s.logs, moves[0])), s', moves[1..])
  }

  /** task_block_current_if: the condition is checked again in the section that blocks. */
  ghost predicate Blocks(s: System, s': System, u: nat)
    requires u in s.tasks && (s.tasks[u].Empty? || s.tasks[u].Full?) && InRange(s, u)
  {
    var f := s.tasks[u];
    if f.Empty? then
      s' == s.(tasks := s.tasks[u := if ShouldWait(s.table.pipes[f.k], ReadEnd) then ReadBlocked(f.k, f.length)
        else Reading(f.k, f.length)])
    else
      s' == s.(tasks := s.tasks[u := if ShouldWait(s.table.pipes[f.w.k], WriteEnd) then WriteBlocked(f.w)
        else Writing(f.w)])
  }

  ghost predicate Step(s: System, e: Event, s': System) {
    && (!e.Begin? ==> e.u in s.tasks)
    && match e
       case StartRead(u, k, length) => s.tasks[u].Idle? && length > 0 && HasEnd(s.table, u, k, ReadEnd)
         && s' == s.(tasks := s.tasks[u := Reading(k, length)])
       case StartWrite(u, k, data) => s.tasks[u].Idle? && HasEnd(s.table, u, k, WriteEnd)
         && s' == s.(tasks := s.tasks[u := Writing(WriteCall(k, s.calls, data, 0))], calls := s.calls + 1)
       case ReadSection(u) => s.tasks[u].Reading? && InRange(s, u) && ReadStep(s, s', u)
       case WriteSection(u) => s.tasks[u].Writing? && InRange(s, u) && WriteStep(s, s', u)
       case BlockIf(u) => (s.tasks[u].Empty? || s.tasks[u].Full?) && InRange(s, u) && Blocks(s, s', u)
       case Wake(u) => s.tasks[u].Waking? && s' == s.(tasks := s'.tasks) && AllAwake(s.tasks, s'.tasks, u)
       case Resume(u) => s' == s.(tasks := s.tasks[u := Awake(s.tasks[u])])
       case Section(u, moves, wake) =>
         && s.tasks[u].Idle? && (ClosesEnd(s.table, moves) ==> wake)
         && exists m :: Moved(s, m, moves) && s' == m.(tasks := m.tasks[u := if wake then Waking(Idle) else Idle])
       case Begin(u) => u !in s.tasks && s' == s.(tasks := s.tasks[u := Idle])
       case End(u) => s.tasks[u].Idle? && s' == s.(tasks := s.tasks - {u})
  }

  // ---- every step keeps the invariant ----

  /** A step that only moves one task on. */
  lemma TaskMoves(s: System, u: nat, f: Phase)
    requires Inv(s) && (u in s.tasks ==> !s.tasks[u].Waking?)
    requires EndOk(s.table, u, f) && CallOk(s.logs, s.calls, f) && NextOk(f)
    requires Call(f).Some? ==> u in s.tasks && Call(s.tasks[u]) == Call(f)
    requires WaitsOn(f).Some? && WaitsOn(f).value.0 < |s.table.pipes| ==>
      ShouldWait(s.table.pipes[WaitsOn(f).value.0], WaitsOn(f).value.1)
    ensures Inv(s.(tasks := s.tasks[u := f]))
  {
    hide Counted, LogsOk, EndOk, CallOk, ShouldWait, Bytes;
    var s' := s.(tasks := s.tasks[u := f]);
    forall v | v in s'.tasks && WaitsOn(s'.tasks[v]).Some? && WaitsOn(s'.tasks[v]).value.0 < |s'.table.pipes|
      ensures ShouldWait(s'.table.pipes[WaitsOn(s'.tasks[v]).value.0], WaitsOn(s'.tasks[v]).value.1)
        || WakePending(s') {
      if v != u && WakePending(s) {
        var x :| x in s.tasks && s.tasks[x].Waking?;
        assert x in s'.tasks && s'.tasks[x].Waking?;
      }
    }
    assert LogsOk(s') by { LogsAlike(s, s'); }
  }

  lemma LogsAlike(s: System, s': System)
    requires LogsOk(s) && s'.table == s.table && s'.logs == s.logs && s'.calls >= s.calls
    ensures LogsOk(s')
  {
    forall k | 0 <= k < |s'.logs| ensures LogOk(s'.table.pipes[k], s'.logs[k], s'.calls) {
      assert LogOk(s.table.pipes[k], s.logs[k], s.calls);
    }
  }

  lemma StartWriteOk(s: System, s': System, u: nat, k: nat, data: seq<byte>)
    requires Inv(s) && u in s.tasks && Step(s, StartWrite(u, k, data), s')
    ensures Inv(s')
  {
    hide Counted, LogsOk, ShouldWait, OfCall, HasEnd, LogOk, EndOk, CallOk;
    EndInUse(s.table, u, k, WriteEnd);
    LogsAlike(s, s');
    LogsAt(s, k);
    NewCall(s, u, k, data);
    forall v | v in s'.tasks && v != u
      ensures EndOk(s'.table, v, s'.tasks[v]) && CallOk(s'.logs, s'.calls, s'.tasks[v]) {
      OldCall(s, v);
    }
    forall v | v in s.tasks && Call(s.tasks[v]).Some? ensures Call(s.tasks[v]).value.call < s.calls {
      OldCall(s, v);
    }
    StillWaking(s, s', u);
  }

  lemma NewCall(s: System, u: nat, k: nat, data: seq<byte>)
    requires k < |s.logs| == |s.table.pipes| && LogOk(s.table.pipes[k], s.logs[k], s.calls)
    requires HasEnd(s.table, u, k, WriteEnd)
    ensures var f := Writing(WriteCall(k, s.calls, data, 0)); EndOk(s.table, u, f) && CallOk(s.logs, s.calls + 1, f)
  {
    hide HasEnd, RingOk, Contents;
    OfCallNone(s.logs[k].accepted, s.calls);
    assert data[..0] == [];
  }

  lemma OldCall(s: System, v: nat)
    requires TasksOk(s) && v in s.tasks
    ensures EndOk(s.table, v, s.tasks[v]) && CallOk(s.logs, s.calls + 1, s.tasks[v]) && NextOk(s.tasks[v])
    ensures Call(s.tasks[v]).Some? ==> Call(s.tasks[v]).value.call < s.calls
  {
    hide EndOk, OfCall;
    assert CallOk(s.logs, s.calls, s.tasks[v]);
  }

  /** A task that was not waking moves on without touching any pipe. */
  lemma StillWaking(s: System, s': System, u: nat)
    requires NoLostWakeups(s) && u in s.tasks && !s.tasks[u].Waking? && s'.table == s.table
    requires s'.tasks.Keys == s.tasks.Keys && forall v | v in s.tasks && v != u :: s'.tasks[v] == s.tasks[v]
    requires WaitsOn(s'.tasks[u]).None?
    ensures NoLostWakeups(s')
  {
    hide ShouldWait, WaitsOn;
    if WakePending(s) {
      var x :| x in s.tasks && s.tasks[x].Waking?;
      assert x in s'.tasks && s'.tasks[x].Waking?;
    }
  }

  /** Being woken changes neither the pipe end nor the write call a task is busy with. */
  lemma AwakeAlike(f: Phase)
    requires NextOk(f)
    ensures Uses(Awake(f)) == Uses(f) && Call(Awake(f)) == Call(f) && WaitsOn(Awake(f)).None? && NextOk(Awake(f))
    ensures f.Waking? ==> Uses(f.next) == Uses(f) && Call(f.next) == Call(f) && WaitsOn(f.next).None? && NextOk(f.next)
  {
  }

  lemma WakeOk(s: System, s': System, u: nat)
    requires Inv(s) && u in s.tasks && Step(s, Wake(u), s')
    ensures Inv(s')
  {
    hide Counted, LogsOk, ShouldWait, OfCall, HasEnd, Awake, Uses, Call, WaitsOn, NextOk;
    LogsAlike(s, s');
    forall v | v in s'.tasks ensures EndOk(s'.table, v, s'.tasks[v]) && CallOk(s'.logs, s'.calls, s'.tasks[v])
      && NextOk(s'.tasks[v])
        && WaitsOn(s'.tasks[v]).None? && Call(s'.tasks[v]) == Call(s.tasks[v]) {
      AwakeAlike(s.tasks[v]);
    }
  }

  lemma EndEventOk(s: System, s': System, u: nat)
    requires Inv(s) && u in s.tasks && Step(s, End(u), s')
    ensures Inv(s')
  {
    hide Counted, LogsOk, ShouldWait, OfCall, HasEnd;
    LogsAlike(s, s');
    forall v | v in s'.tasks
      ensures EndOk(s'.table, v, s'.tasks[v]) && CallOk(s'.logs, s'.calls, s'.tasks[v]) && NextOk(s'.tasks[v]) {
      assert s'.tasks[v] == s.tasks[v];
    }
    if WakePending(s) {
      var x :| x in s.tasks && s.tasks[x].Waking?;
      assert x in s'.tasks && s'.tasks[x].Waking?;
    }
  }

  // ---- data through the ring ----

  /** Changing the bytes of a pipe in use keeps the descriptor invariant. */
  lemma RingMove(t: Table, k: nat, p: Pipe)
    requires Counted(t) && k < |t.pipes| && t.pipes[k].used && RingOk(p)
    requires p.used && p.readers == t.pipes[k].readers && p.writers == t.pipes[k].writers
    ensures Counted(t.(pipes := t.pipes[k := p]))
  {
    var t' := t.(pipes := t.pipes[k := p]);
    forall n | 0 <= n < |t'.pipes| ensures PipeOk(t'.fds, n, t'.pipes[n]) {
      assert PipeOk(t.fds, n, t.pipes[n]);
    }
    hide PipeOk;
    forall f | 0 <= f < |t'.files| ensures FileOk(t'.fds, f, t'.files[f]) {
      assert FileOk(t.fds, f, t.files[f]);
    }
    forall j | 0 <= j < |t'.fds| ensures HandleOk(t', t'.fds[j].handle) && 0 <= t'.fds[j].number < MAX_FDS {
      assert HandleOk(t, t.fds[j].handle) && 0 <= t.fds[j].number < MAX_FDS;
    }
  }

  lemma ReadLog(p: Pipe, p': Pipe, log: Log, n: nat, calls: nat)
    requires LogOk(p, log, calls) && p.used && Drained(p, p', n)
    ensures LogOk(p', log.(delivered := log.delivered + Contents(p)[..n]), calls)
  {
    var c := Contents(p);
    assert log.delivered + c == (log.delivered + c[..n]) + c[n..];
  }

  lemma EndAlike(t: Table, t': Table, u: nat, f: Phase)
    requires EndOk(t, u, f) && t'.fds == t.fds
    ensures EndOk(t', u, f)
  {
  }

  lemma Pending(s: System, u: nat)
    requires u in s.tasks && s.tasks[u].Waking?
    ensures NoLostWakeups(s)
  {
    assert WakePending(s);
  }

  lemma ReadDataOk(s: System, s': System, u: nat, p': Pipe, n: nat)
    requires Inv(s) && u in s.tasks && s.tasks[u].Reading? && InRange(s, u)
    requires Drained(s.table.pipes[s.tasks[u].k], p', n)
    requires var k := s.tasks[u].k;
      s' == s.(table := s.table.(pipes := s.table.pipes[k := p']),
               logs := s.logs[k := s.logs[k].(delivered := s.logs[k].delivered + Contents(s.table.pipes[k])[..n])],
               tasks := s.tasks[u := Waking(Idle)])
    ensures Inv(s')
  {
    hide Counted, Contents, RingOk, Drained, NoLostWakeups, LogsOk, TasksOk, LogOk, EndOk, CallOk;
    PipeInUse(s, u);
    var k := s.tasks[u].k;
    LogsAt(s, k);
    DrainedRing(s.table.pipes[k], p', n);
    RingMove(s.table, k, p');
    ReadLog(s.table.pipes[k], p', s.logs[k], n, s.calls);
    Pending(s', u);
    OneLog(s, s', k);
    ReaderDone(s, s', u);
  }

  lemma LogsAt(s: System, k: nat)
    requires LogsOk(s) && k < |s.logs|
    ensures |s.logs| == |s.table.pipes| && LogOk(s.table.pipes[k], s.logs[k], s.calls)
  {
    hide LogOk;
  }

  lemma DrainedRing(p: Pipe, p': Pipe, n: nat)
    requires RingOk(p) && Drained(p, p', n)
    ensures RingOk(p') && p'.used == p.used && p'.readers == p.readers && p'.writers == p.writers
  {
  }

  /** One pipe and its history have changed. */
  lemma OneLog(s: System, s': System, k: nat)
    requires LogsOk(s) && k < |s.logs| == |s.table.pipes| && s'.calls == s.calls
    requires |s'.logs| == |s.logs| && |s'.table.pipes| == |s.table.pipes|
    requires LogOk(s'.table.pipes[k], s'.logs[k], s.calls)
    requires forall i | 0 <= i < |s.logs| && i != k :: s'.logs[i] == s.logs[i] && s'.table.pipes[i] == s.table.pipes[i]
    ensures LogsOk(s')
  {
    hide LogOk;
    forall i | 0 <= i < |s'.logs| ensures LogOk(s'.table.pipes[i], s'.logs[i], s'.calls) {
      assert LogOk(s.table.pipes[i], s.logs[i], s.calls);
    }
  }

  /** A reader has got its bytes; what was accepted is as before. */
  lemma ReaderDone(s: System, s': System, u: nat)
    requires TasksOk(s) && u in s.tasks && s.tasks[u].Reading? && s'.tasks == s.tasks[u := Waking(Idle)]
    requires s'.calls == s.calls
    requires s'.table.fds == s.table.fds && |s'.logs| == |s.logs|
    requires forall i | 0 <= i < |s.logs| :: s'.logs[i].accepted == s.logs[i].accepted
    ensures TasksOk(s')
  {
    hide EndOk;
    forall v | v in s'.tasks
      ensures EndOk(s'.table, v, s'.tasks[v]) && CallOk(s'.logs, s'.calls, s'.tasks[v]) && NextOk(s'.tasks[v]) {
      if v != u {
        assert EndOk(s.table, v, s.tasks[v]) && CallOk(s.logs, s.calls, s.tasks[v]) && NextOk(s.tasks[v]);
        EndAlike(s.table, s'.table, v, s.tasks[v]);
      } else {
        NoEnd(s'.table, u);
      }
    }
  }

  lemma NoEnd(t: Table, u: nat)
    ensures EndOk(t, u, Waking(Idle)) && EndOk(t, u, Idle)
  {
  }

  lemma WriteLog(p: Pipe, p': Pipe, log: Log, call: nat, bytes: seq<byte>, calls: nat)
    requires LogOk(p, log, calls) && p.used && Filled(p, p', bytes) && call < calls
    ensures LogOk(p', log.(accepted := log.accepted + Tag(call, bytes)), calls)
  {
    var c := Contents(p);
    assert log.delivered + (c + bytes) == (log.delivered + c) + bytes;
    assert Bytes(log.accepted + Tag(call, bytes)) == Bytes(log.accepted) + bytes;
  }

  ghost predicate Wrote(s: System, s': System, u: nat, bytes: seq<byte>)
    requires u in s.tasks && s.tasks[u].Writing? && s.tasks[u].w.k < |s.logs|
  {
    var w := s.tasks[u].w;
    && w.total + |bytes| <= |w.data| && bytes == w.data[w.total..w.total + |bytes|]
    && s'.logs == s.logs[w.k := s.logs[w.k].(accepted := s.logs[w.k].accepted + Tag(w.call, bytes))]
    && s'.tasks == s.tasks[u := Waking(Writing(w.(total := w.total + |bytes|)))] && s'.calls == s.calls
  }

  lemma WriterCall(s: System, s': System, u: nat, bytes: seq<byte>)
    requires TasksOk(s) && u in s.tasks && s.tasks[u].Writing? && s.tasks[u].w.k < |s.logs| && Wrote(s, s', u, bytes)
    ensures CallOk(s'.logs, s'.calls, s'.tasks[u])
  {
    hide OfCall, EndOk, Tag;
    var w := s.tasks[u].w;
    assert CallOk(s.logs, s.calls, s.tasks[u]);
    CallGrows(s.logs[w.k].accepted, w, bytes);
    assert Call(s'.tasks[u]) == Some(w.(total := w.total + |bytes|));
  }

  lemma CallGrows(accepted: seq<Sent>, w: WriteCall, bytes: seq<byte>)
    requires w.total + |bytes| <= |w.data| && bytes == w.data[w.total..w.total + |bytes|]
    requires OfCall(accepted, w.call) == w.data[..w.total]
    ensures OfCall(accepted + Tag(w.call, bytes), w.call) == w.data[..w.total + |bytes|]
  {
    hide OfCall, Tag;
    OfCallAppend(accepted, w.call, bytes, w.call);
    assert w.data[..w.total] + bytes == w.data[..w.total + |bytes|];
  }

  lemma OtherCalls(s: System, s': System, u: nat, bytes: seq<byte>, v: nat)
    requires TasksOk(s) && u in s.tasks && s.tasks[u].Writing? && s.tasks[u].w.k < |s.logs| && Wrote(s, s', u, bytes)
    requires v in s.tasks && v != u
    ensures CallOk(s'.logs, s'.calls, s'.tasks[v])
  {
    var w := s.tasks[u].w;
    assert CallOk(s.logs, s.calls, s.tasks[v]);
    if Call(s.tasks[v]).Some? {
      var x := Call(s.tasks[v]).value;
      assert x.call != w.call;
      OfCallAppend(s.logs[w.k].accepted, w.call, bytes, x.call);
      hide OfCall;
    }
  }

  lemma WriterEnd(t: Table, t': Table, u: nat, w: WriteCall, n: nat)
    requires EndOk(t, u, Writing(w)) && t'.fds == t.fds
    ensures EndOk(t', u, Waking(Writing(w.(total := n))))
  {
    assert Uses(Waking(Writing(w.(total := n)))) == Uses(Writing(w));
  }

  lemma WroteTasks(s: System, s': System, u: nat, bytes: seq<byte>)
    requires TasksOk(s) && u in s.tasks && s.tasks[u].Writing? && s.tasks[u].w.k < |s.logs| && Wrote(s, s', u, bytes)
    requires s'.table.fds == s.table.fds
    ensures TasksOk(s')
  {
    hide CallOk, EndOk;
    var w := s.tasks[u].w;
    WriterCall(s, s', u, bytes);
    assert EndOk(s.table, u, s.tasks[u]);
    WriterEnd(s.table, s'.table, u, w, w.total + |bytes|);
    assert s'.tasks[u] == Waking(Writing(w.(total := w.total + |bytes|)));
    assert Call(s'.tasks[u]) == Some(w.(total := w.total + |bytes|));
    forall v | v in s'.tasks
      ensures EndOk(s'.table, v, s'.tasks[v]) && CallOk(s'.logs, s'.calls, s'.tasks[v]) && NextOk(s'.tasks[v]) {
      if v != u {
        OtherCalls(s, s', u, bytes, v);
        EndAlike(s.table, s'.table, v, s.tasks[v]);
      }
    }
  }

  lemma WriteDataOk(s: System, s': System, u: nat, p': Pipe, bytes: seq<byte>)
    requires Inv(s) && u in s.tasks && s.tasks[u].Writing? && InRange(s, u) && Wrote(s, s', u, bytes)
    requires Filled(s.table.pipes[s.tasks[u].w.k], p', bytes)
    requires s'.table == s.table.(pipes := s.table.pipes[s.tasks[u].w.k := p'])
    ensures Inv(s')
  {
    hide Counted, Contents, RingOk, Filled, Tag, NoLostWakeups, LogOk, LogsOk, TasksOk, CallOk;
    PipeInUse(s, u);
    var w := s.tasks[u].w;
    var p := s.table.pipes[w.k];
    CallAt(s, u);
    LogsAt(s, w.k);
    FilledRing(p, p', bytes);
    RingMove(s.table, w.k, p');
    WriteLog(p, p', s.logs[w.k], w.call, bytes, s.calls);
    Pending(s', u);
    WroteTasks(s, s', u, bytes);
    OneLog(s, s', w.k);
  }

  lemma CallAt(s: System, u: nat)
    requires TasksOk(s) && u in s.tasks && s.tasks[u].Writing?
    ensures s.tasks[u].w.call < s.calls
  {
    hide EndOk, OfCall;
    assert CallOk(s.logs, s.calls, s.tasks[u]);
  }

  lemma FilledRing(p: Pipe, p': Pipe, bytes: seq<byte>)
    requires RingOk(p) && Filled(p, p', bytes)
    ensures RingOk(p') && p'.used == p.used && p'.readers == p.readers && p'.writers == p.writers
  {
  }

  // ---- descriptor calls ----

  /** The part of the invariant that holds inside a descriptor call as well. */
  ghost predicate Inside(s: System) { Counted(s.table) && LogsOk(s) && TasksOk(s) }

  ghost function Next(s: System, m: Move): System
    requires Legal(s.table, m)
  {
    s.(table := Apply(s.table, m), logs := Fresh(s.logs, m))
  }

  lemma MoveEnd(t: Table, m: Move, u: nat, k: nat, mode: Mode)
    requires Legal(t, m) && HasEnd(t, u, k, mode) && !(m.Close? && t.fds[m.i].owner == u)
    ensures HasEnd(Apply(t, m), u, k, mode)
  {
    var i :| 0 <= i < |t.fds| && t.fds[i].owner == u && EndOf(t.fds[i], k, mode);
    assert Apply(t, m).fds[i] == t.fds[i];
  }

  lemma MoveLog(s: System, m: Move, k: nat)
    requires Inside(s) && Legal(s.table, m) && k < |s.logs|
    ensures Counted(Apply(s.table, m)) && |Apply(s.table, m).pipes| == |s.logs|
    ensures LogOk(Apply(s.table, m).pipes[k], Fresh(s.logs, m)[k], s.calls)
  {
    var t, t' := s.table, Apply(s.table, m);
    MoveKeepsCounts(t, m);
    assert LogOk(t.pipes[k], s.logs[k], s.calls);
    assert PipeOk(t'.fds, k, t'.pipes[k]);
    if t'.pipes[k].used {
      UsedBefore(t, m, k);
    }
    hide Counted, Legal, Apply;
  }

  lemma UsedBefore(t: Table, m: Move, k: nat)
    requires Legal(t, m) && k < |t.pipes| == |Apply(t, m).pipes| && Apply(t, m).pipes[k].used
    ensures t.pipes[k].used || (m.NewPipe? && m.k == k && Apply(t, m).pipes[k].count == 0)
    ensures m.NewPipe? && m.k == k ==> Apply(t, m).pipes[k].count == 0
  {
  }

  lemma MoveTask(s: System, m: Move, u: nat)
    requires Inside(s) && Legal(s.table, m) && MayMove(s, m) && u in s.tasks
    ensures EndOk(Apply(s.table, m), u, s.tasks[u]) && CallOk(Fresh(s.logs, m), s.calls, s.tasks[u])
  {
    var f := s.tasks[u];
    assert EndOk(s.table, u, f) && CallOk(s.logs, s.calls, f);
    CallUses(f);
    UsesEnd(f);
    if Uses(f).Some? {
      var (k, mode) := Uses(f).value;
      EndInUse(s.table, u, k, mode);
      MoveEnd(s.table, m, u, k, mode);
    }
  }

  lemma {:induction false} CallUses(f: Phase)
    ensures Call(f).Some? ==> Uses(f) == Some((Call(f).value.k, WriteEnd))
  {
    if f.Waking? {
      CallUses(f.next);
    }
  }

  lemma MoveOk(s: System, m: Move)
    requires Inside(s) && Legal(s.table, m) && MayMove(s, m)
    ensures Inside(Next(s, m))
  {
    var s' := Next(s, m);
    MoveKeepsCounts(s.table, m);
    assert |s'.logs| == |s.logs| == |s'.table.pipes|;
    forall k | 0 <= k < |s'.logs| ensures LogOk(s'.table.pipes[k], s'.logs[k], s'.calls) {
      MoveLog(s, m, k);
    }
    hide Legal, Apply, Fresh, LogOk, EndOk, CallOk, Counted;
    forall u | u in s'.tasks
      ensures EndOk(s'.table, u, s'.tasks[u]) && CallOk(s'.logs, s'.calls, s'.tasks[u]) && NextOk(s'.tasks[u]) {
      MoveTask(s, m, u);
    }
  }

  /** Only giving up an end of a pipe can end somebody's wait. */
  lemma MoveWaits(t: Table, m: Move, k: nat, mode: Mode)
    requires Counted(t) && Legal(t, m) && k < |t.pipes| && ShouldWait(t.pipes[k], mode)
    requires !(m.Close? && t.fds[m.i].handle.mode != NoPipe)
    ensures k < |Apply(t, m).pipes| && ShouldWait(Apply(t, m).pipes[k], mode)
  {
    if m.Close? {
      assert HandleOk(t, t.fds[m.i].handle);
    }
  }

  ghost predicate WaitsKept(t: Table, t': Table) {
    |t'.pipes| == |t.pipes| && forall k, mode | 0 <= k < |t.pipes| && ShouldWait(t.pipes[k], mode) ::
      ShouldWait(t'.pipes[k], mode)
  }

  lemma {:induction false} MovesOk(s: System, s': System, moves: seq<Move>)
    requires Inside(s) && Moved(s, s', moves)
    ensures Inside(s') && s'.tasks == s.tasks && s'.calls == s.calls
    ensures !ClosesEnd(s.table, moves) ==> WaitsKept(s.table, s'.table)
    decreases |moves|
  {
    if moves != [] {
      var m := moves[0];
      MoveOk(s, m);
      MovesOk(Next(s, m), s', moves[1..]);
      if !ClosesEnd(s.table, moves) {
        forall k, mode | 0 <= k < |s.table.pipes| && ShouldWait(s.table.pipes[k], mode)
          ensures ShouldWait(s'.table.pipes[k], mode) {
          MoveWaits(s.table, m, k, mode);
        }
      }
    }
  }

  lemma IdleInside(s: System, u: nat, f: Phase)
    requires Inside(s) && u in s.tasks && (f.Idle? || f == Waking(Idle))
    ensures Inside(s.(tasks := s.tasks[u := f]))
  {
    hide Counted, EndOk, CallOk, LogsOk;
    LogsAlike(s, s.(tasks := s.tasks[u := f]));
    NoEnd(s.table, u);
    IdleCalls(s.logs, s.calls);
    assert Call(f).None? && NextOk(f);
  }

  lemma SectionOk(s: System, m: System, u: nat, moves: seq<Move>, wake: bool)
    requires Inv(s) && u in s.tasks && s.tasks[u].Idle? && (ClosesEnd(s.table, moves) ==> wake) && Moved(s, m, moves)
    ensures Inv(m.(tasks := m.tasks[u := if wake then Waking(Idle) else Idle]))
  {
    hide Counted, TasksOk, LogsOk, Moved, ClosesEnd, NoLostWakeups, WaitsKept;
    MovesOk(s, m, moves);
    if wake {
      IdleInside(m, u, Waking(Idle));
      Pending(m.(tasks := m.tasks[u := Waking(Idle)]), u);
    } else {
      assert m.(tasks := m.tasks[u := Idle]) == m;
      WaitersKept(s, m);
    }
  }

  lemma IdleCalls(logs: seq<Log>, calls: nat)
    ensures CallOk(logs, calls, Idle) && CallOk(logs, calls, Waking(Idle))
  {
  }

  lemma WaitersKept(s: System, s': System)
    requires NoLostWakeups(s) && s'.tasks == s.tasks && WaitsKept(s.table, s'.table)
    ensures NoLostWakeups(s')
  {
    hide ShouldWait, WaitsOn;
    if WakePending(s) {
      var x :| x in s.tasks && s.tasks[x].Waking?;
      assert x in s'.tasks && s'.tasks[x].Waking?;
    }
  }

  // ---- whole runs ----

  lemma ReadSectionOk(s: System, s': System, u: nat)
    requires Inv(s) && u in s.tasks && s.tasks[u].Reading? && InRange(s, u) && ReadStep(s, s', u)
    ensures Inv(s')
  {
    var k, length := s.tasks[u].k, s.tasks[u].length;
    var p := s.table.pipes[k];
    assert EndOk(s.table, u, s.tasks[u]);
    hide Inv;
    if p.count != 0 {
      var p' :| Drained(p, p', Min(p.count, length)) && s' == s.(table := s.table.(pipes := s.table.pipes[k := p']),
        logs := s.logs[k := s.logs[k].(delivered := s.logs[k].delivered + Contents(p)[..Min(p.count, length)])],
        tasks := s.tasks[u := Waking(Idle)]);
      ReadDataOk(s, s', u, p', Min(p.count, length));
    } else {
      TaskMoves(s, u, if p.writers == 0 then Idle else Empty(k, length));
    }
  }

  lemma TaskOk(s: System, u: nat)
    requires Inv(s) && u in s.tasks
    ensures EndOk(s.table, u, s.tasks[u]) && CallOk(s.logs, s.calls, s.tasks[u]) && NextOk(s.tasks[u])
  {
  }

  lemma WriteSectionOk(s: System, s': System, u: nat)
    requires Inv(s) && u in s.tasks && s.tasks[u].Writing? && InRange(s, u) && WriteStep(s, s', u)
    ensures Inv(s')
  {
    hide Inv, OfCall, Filled, Tag;
    var w := s.tasks[u].w;
    var p := s.table.pipes[w.k];
    TaskOk(s, u);
    var amount := Min(PIPE_CAPACITY - p.count, |w.data| - w.total);
    if w.total == |w.data| || p.readers == 0 {
      TaskMoves(s, u, Idle);
    } else if amount == 0 {
      TaskMoves(s, u, Full(w));
    } else {
      var bytes := w.data[w.total..w.total + amount];
      var p' :| Filled(p, p', bytes) && s' == s.(table := s.table.(pipes := s.table.pipes[w.k := p']),
        logs := s.logs[w.k := s.logs[w.k].(accepted := s.logs[w.k].accepted + Tag(w.call, bytes))],
        tasks := s.tasks[u := Waking(Writing(w.(total := w.total + amount)))]);
      WriteDataOk(s, s', u, p', bytes);
    }
  }

  lemma BlockIfOk(s: System, s': System, u: nat)
    requires Inv(s) && u in s.tasks && (s.tasks[u].Empty? || s.tasks[u].Full?) && InRange(s, u) && Blocks(s, s', u)
    ensures Inv(s')
  {
    hide Inv, OfCall, HasEnd;
    TaskOk(s, u);
    TaskMoves(s, u, s'.tasks[u]);
  }

  lemma StartReadOk(s: System, u: nat, k: nat, length: nat)
    requires Inv(s) && u in s.tasks && s.tasks[u].Idle? && HasEnd(s.table, u, k, ReadEnd)
    ensures Inv(s.(tasks := s.tasks[u := Reading(k, length)]))
  {
    hide Inv;
    TaskMoves(s, u, Reading(k, length));
  }

  lemma BeginOk(s: System, u: nat)
    requires Inv(s) && u !in s.tasks
    ensures Inv(s.(tasks := s.tasks[u := Idle]))
  {
    hide Inv;
    TaskMoves(s, u, Idle);
  }

  lemma ResumeOk(s: System, u: nat)
    requires Inv(s) && u in s.tasks && !s.tasks[u].Waking?
    ensures Inv(s.(tasks := s.tasks[u := Awake(s.tasks[u])]))
  {
    var f := s.tasks[u];
    assert EndOk(s.table, u, f) && CallOk(s.logs, s.calls, f) && NextOk(f);
    AwakeAlike(f);
    hide Inv, OfCall, HasEnd, Awake, NextOk;
    TaskMoves(s, u, Awake(f));
  }

  /** Every step of every task keeps the invariant. */
  lemma StepKeepsInv(s: System, e: Event, s': System)
    requires Inv(s) && Step(s, e, s')
    ensures Inv(s')
  {
    hide Inv, ReadStep, WriteStep, Blocks, InRange, HasEnd;
    match e
    case ReadSection(u) => ReadSectionOk(s, s', u);
    case WriteSection(u) => WriteSectionOk(s, s', u);
    case StartWrite(u, k, data) => StartWriteOk(s, s', u, k, data);
    case Wake(u) => WakeOk(s, s', u);
    case End(u) => EndEventOk(s, s', u);
    case Section(u, moves, wake) =>
      var m :| Moved(s, m, moves) && s' == m.(tasks := m.tasks[u := if wake then Waking(Idle) else Idle]);
      SectionOk(s, m, u, moves, wake);
    case BlockIf(u) => BlockIfOk(s, s', u);
    case StartRead(u, k, length) => StartReadOk(s, u, k, length);
    case Begin(u) => BeginOk(s, u);
    case Resume(u) =>
      if s.tasks[u].Waking? {
        assert s' == s;
      } else {
        ResumeOk(s, u);
      }
  }

  /** No descriptor, file or pipe is in use and every task is between calls. */
  ghost predicate Start(s: System) {
    && |s.table.fds| == |s.table.files| == DESCRIPTOR_SLOTS && |s.table.pipes| == |s.logs| == MAX_PIPES
    && (forall i | 0 <= i < |s.table.fds| ::
      !s.table.fds[i].used && s.table.fds[i].number == 0 && HandleOk(s.table, s.table.fds[i].handle))
    && (forall f | 0 <= f < |s.table.files| :: s.table.files[f] == OpenFile(false, 0, 0))
    && (forall k | 0 <= k < |s.table.pipes| ::
          var p := s.table.pipes[k];
          !p.used && p.readers == p.writers == p.head == p.tail == p.count == 0 && |p.data| == PIPE_CAPACITY)
    && (forall k | 0 <= k < |s.logs| :: s.logs[k] == Log([], []))
    && (forall u | u in s.tasks :: s.tasks[u] == Idle)
  }

  lemma StartInv(s: System)
    requires Start(s)
    ensures Inv(s)
  {
    var t := s.table;
    forall k | 0 <= k < |t.pipes| ensures PipeOk(t.fds, k, t.pipes[k]) {
      assert Ends(t.fds, k, ReadEnd) == {} && Ends(t.fds, k, WriteEnd) == {};
    }
    forall f | 0 <= f < |t.files| ensures FileOk(t.fds, f, t.files[f]) {
      assert Holders(t.fds, f) == {};
    }
    assert Counted(t);
    hide Counted;
    assert LogsOk(s);
    assert TasksOk(s);
  }

  ghost predicate Run(states: seq<System>, events: seq<Event>) {
    |states| == |events| + 1 && Start(states[0]) && forall i | 0 <= i < |events| ::
      Step(states[i], events[i], states[i + 1])
  }

  /** In every interleaving of any number of tasks: exact counts, FIFO pipes, no lost wakeups. */
  lemma {:induction false} EveryRun(states: seq<System>, events: seq<Event>, n: nat)
    requires Run(states, events) && n < |states|
    ensures Inv(states[n])
  {
    if n == 0 {
      StartInv(states[0]);
    } else {
      EveryRun(states, events, n - 1);
      StepKeepsInv(states[n - 1], events[n - 1], states[n]);
    }
  }

  // ---- what the invariant means for callers ----

  lemma SomeEnd(t: Table, k: nat, mode: Mode)
    requires Counted(t) && k < |t.pipes|
    requires if mode == ReadEnd then t.pipes[k].readers > 0 else mode == WriteEnd && t.pipes[k].writers > 0
    ensures exists i :: 0 <= i < |t.fds| && EndOf(t.fds[i], k, mode)
  {
    assert PipeOk(t.fds, k, t.pipes[k]);
    assert Ends(t.fds, k, mode) != {};
    var i :| i in Ends(t.fds, k, mode);
    assert EndOf(t.fds[i], k, mode);
  }

  /** A task left blocked, with nobody about to wake it, waits for a reason that some open
      descriptor can still remove. */
  lemma BlockedForGoodReason(s: System, u: nat)
    requires Inv(s) && u in s.tasks && WaitsOn(s.tasks[u]).Some? && !WakePending(s)
    ensures var (k, mode) := WaitsOn(s.tasks[u]).value;
      && k < |s.table.pipes| && RingOk(s.table.pipes[k])
      && (mode == ReadEnd ==>
        Contents(s.table.pipes[k]) == [] && exists i :: 0 <= i < |s.table.fds| && EndOf(s.table.fds[i], k, WriteEnd))
      && (mode == WriteEnd ==>
        |Contents(s.table.pipes[k])| == PIPE_CAPACITY && exists i ::
          0 <= i < |s.table.fds| && EndOf(s.table.fds[i], k, ReadEnd))
  {
    PipeInUse(s, u);
    var (k, mode) := WaitsOn(s.tasks[u]).value;
    assert ShouldWait(s.table.pipes[k], mode);
    SomeEnd(s.table, k, if mode == ReadEnd then WriteEnd else ReadEnd);
  }

  /** A read that ends without bytes has seen the end: no write end is open anywhere and every byte
      the pipe ever accepted has been delivered. */
  lemma EndOfFile(s: System, s': System, u: nat)
    requires Inv(s) && Step(s, ReadSection(u), s') && s'.tasks[u] == Idle
    ensures var k := s.tasks[u].k;
      k < |s.logs| && Ends(s.table.fds, k, WriteEnd) == {} && Bytes(s.logs[k].accepted) == s.logs[k].delivered
  {
    PipeInUse(s, u);
    var k := s.tasks[u].k;
    assert LogOk(s.table.pipes[k], s.logs[k], s.calls);
    assert PipeOk(s.table.fds, k, s.table.pipes[k]);
    hide Counted;
    assert s.table.pipes[k].count == 0;
    assert Contents(s.table.pipes[k]) == [];
  }

  /** A write that stops short has no reader left, and has put in exactly the bytes it reports. */
  lemma ShortWrite(s: System, s': System, u: nat)
    requires Inv(s) && Step(s, WriteSection(u), s') && s'.tasks[u] == Idle && s.tasks[u].w.total < |s.tasks[u].w.data|
    ensures var w := s.tasks[u].w;
      w.k < |s.logs| && Ends(s.table.fds, w.k, ReadEnd) == {}
        && OfCall(s.logs[w.k].accepted, w.call) == w.data[..w.total]
  {
    PipeInUse(s, u);
    var w := s.tasks[u].w;
    assert CallOk(s.logs, s.calls, s.tasks[u]);
    assert PipeOk(s.table.fds, w.k, s.table.pipes[w.k]);
    hide Counted, OfCall;
    assert s.table.pipes[w.k].readers == 0;
  }

  lemma {:induction false} DoesMoved(s: System, moves: seq<Move>, t': Table, owner: nat) returns (m: System)
    requires Does(s.table, moves, t', owner) && (owner in s.tasks ==> Uses(s.tasks[owner]).None?)
    ensures Moved(s, m, moves) && m.table == t' && m.tasks == s.tasks
    decreases |moves|
  {
    if moves == [] {
      m := s;
    } else {
      m := DoesMoved(Next(s, moves[0]), moves[1..], t', owner);
    }
  }

  /** A descriptor call whose moves close only descriptors of a process outside pipe calls, and
      which wakes blocked tasks if it closed an end of a pipe, is a step of the protocol. */
  lemma CallIsStep(s: System, u: nat, moves: seq<Move>, t': Table, owner: nat, wake: bool) returns (s': System)
    requires Inv(s) && u in s.tasks && s.tasks[u].Idle? && Does(s.table, moves, t', owner)
    requires (owner in s.tasks ==> Uses(s.tasks[owner]).None?) && (ClosesEnd(s.table, moves) ==> wake)
    ensures Step(s, Section(u, moves, wake), s') && s'.table == t' && Inv(s')
  {
    hide Inv, Moved, ClosesEnd;
    var m := DoesMoved(s, moves, t', owner);
    s' := m.(tasks := m.tasks[u := if wake then Waking(Idle) else Idle]);
    assert Step(s, Section(u, moves, wake), s');
    StepKeepsInv(s, Section(u, moves, wake), s');
  }
}
