/** The pipe protocol on top of the scheduler: who waits for a pipe is blocked in the list of tasks, and
    once there is something to do it gets the processor (src/fs/vfs.c, src/kernel/task.c). */
module Wakeups {
  import opened Pmm
  import Descriptors
  import PipeProtocol
  import Scheduler

  type System = PipeProtocol.System
  type Queue = Scheduler.Queue

  predicate Waits(s: System, u: nat) { u in s.tasks && PipeProtocol.WaitsOn(s.tasks[u]).Some? }

  ghost predicate Tied(s: System, q: Queue) {
    forall u | Waits(s, u) :: Scheduler.In(q.tasks, u, Scheduler.Blocked)
  }

  lemma BlockedStays(q: Queue, op: Scheduler.Op, u: nat)
    requires Scheduler.Ok(q) && Scheduler.BootRunnable(q) && Scheduler.Enabled(q, op) && Scheduler.SparesBoot(q, op)
    requires Scheduler.In(q.tasks, u, Scheduler.Blocked) && !op.Wake?
    ensures Scheduler.In(Scheduler.Apply(q, op).tasks, u, Scheduler.Blocked)
  {
    hide Scheduler.Ok, Scheduler.BootRunnable, Scheduler.Enabled, Scheduler.SparesBoot, Scheduler.Apply;
    var i :| 0 <= i < |q.tasks| && q.tasks[i].id == u && q.tasks[i].state == Scheduler.Blocked;
    var t := q.tasks[i];
    assert t in q.tasks;
    Scheduler.RestStays(q, op, t);
    var j :| 0 <= j < |Scheduler.Apply(q, op).tasks| && Scheduler.Apply(q, op).tasks[j] == t;
  }

  /** Steps of the scheduler other than a wake-up wake nobody who waits for a pipe. */
  lemma StepTied(s: System, q: Queue, op: Scheduler.Op)
    requires Tied(s, q) && Scheduler.Ok(q) && Scheduler.BootRunnable(q) && Scheduler.Enabled(q, op)
    requires Scheduler.SparesBoot(q, op) && !op.Wake?
    ensures Tied(s, Scheduler.Apply(q, op))
  {
    hide Scheduler.Ok, Scheduler.BootRunnable, Scheduler.Enabled, Scheduler.SparesBoot, Scheduler.Apply, Scheduler.In;
    forall u | Waits(s, u) ensures Scheduler.In(Scheduler.Apply(q, op).tasks, u, Scheduler.Blocked) {
      BlockedStays(q, op, u);
    }
  }

  lemma CallerBlocked(q: Queue, now: nat)
    requires Scheduler.Ok(q) && Scheduler.BootRunnable(q) && q.current != Scheduler.BOOT
    ensures Scheduler.In(Scheduler.Apply(q, Scheduler.Block(now)).tasks, q.current, Scheduler.Blocked)
  {
    hide Scheduler.Scheduled, Scheduler.WithoutZombies;
    Scheduler.IndexFound(q.tasks, q.current);
    var c := Scheduler.Index(q.tasks, q.current);
    var t := q.tasks[c].(state := Scheduler.Blocked);
    var b := q.(tasks := Scheduler.SetState(q.tasks, q.current, Scheduler.Blocked));
    Scheduler.SetOne(q, c, Scheduler.Blocked);
    Scheduler.StateSet(q, c, t);
    Scheduler.GivesWay(b, now, t);
    var q' := Scheduler.Apply(q, Scheduler.Block(now));
    assert q' == Scheduler.Apply(b, Scheduler.Yield(now));
    var j :| 0 <= j < |q'.tasks| && q'.tasks[j] == t;
  }

  /** task_block_current_if in a pipe call: the caller is blocked exactly if the call goes on waiting. */
  lemma BlockTied(s: System, q: Queue, now: nat, s': System)
    requires Tied(s, q) && Scheduler.Ok(q) && Scheduler.BootRunnable(q) && q.current != Scheduler.BOOT
    requires Scheduler.Enabled(q, Scheduler.Block(now)) && PipeProtocol.Step(s, PipeProtocol.BlockIf(q.current), s')
    ensures Tied(s', if Waits(s', q.current) then Scheduler.Apply(q, Scheduler.Block(now)) else q)
  {
    hide Scheduler.Ok, Scheduler.BootRunnable, Scheduler.Enabled, Scheduler.Apply, Scheduler.In,
      PipeProtocol.ShouldWait;
    CallerBlocked(q, now);
    forall u | Waits(s', u) && Waits(s', q.current)
      ensures Scheduler.In(Scheduler.Apply(q, Scheduler.Block(now)).tasks, u, Scheduler.Blocked) {
      if u != q.current {
        BlockedStays(q, Scheduler.Block(now), u);
      }
    }
  }

  /** A wake-up leaves nobody waiting for a pipe. */
  lemma WakeTied(s: System, q: Queue, u: nat, s': System)
    requires Scheduler.Ok(q) && PipeProtocol.Step(s, PipeProtocol.Wake(u), s') && PipeProtocol.NextOk(s.tasks[u])
    ensures forall v :: !Waits(s', v)
    ensures Tied(s', Scheduler.Apply(q, Scheduler.Wake))
  {
  }

  lemma WakerThere(s: System, v: nat)
    requires PipeProtocol.Inv(s) && Waits(s, v)
    requires var (k, mode) := PipeProtocol.WaitsOn(s.tasks[v]).value;
      k < |s.table.pipes| && !PipeProtocol.ShouldWait(s.table.pipes[k], mode)
    ensures exists w | w in s.tasks :: s.tasks[w].Waking?
  {
    hide PipeProtocol.ShouldWait, PipeProtocol.TasksOk, PipeProtocol.LogsOk, Descriptors.Counted;
  }

  lemma LooksAgain(s: System, v: nat, u: nat, s': System)
    requires Waits(s, v) && PipeProtocol.Step(s, PipeProtocol.Wake(u), s')
    ensures v in s'.tasks && s'.tasks[v] == PipeProtocol.Awake(s.tasks[v])
    ensures s'.tasks[v].Reading? || s'.tasks[v].Writing?
  {
  }

  /** No wake-up is lost, and every wake-up arrives. When a task waits for a pipe that no longer makes it
      wait, somebody is about to wake it; after that it is at the head of its loop again, and in every
      run of the scheduler it gets the processor within as many switches as it is places behind the
      current task. */
  lemma WakeArrives(s: System, q: Queue, v: nat, u: nat, s': System, ops: seq<Scheduler.Op>)
    requires PipeProtocol.Inv(s) && Tied(s, q) && Scheduler.Ok(q) && Waits(s, v)
    requires var (k, mode) := PipeProtocol.WaitsOn(s.tasks[v]).value;
      k < |s.table.pipes| && !PipeProtocol.ShouldWait(s.table.pipes[k], mode)
    ensures exists w | w in s.tasks :: s.tasks[w].Waking?
    ensures PipeProtocol.Step(s, PipeProtocol.Wake(u), s') ==>
      v in s'.tasks && s'.tasks[v] == PipeProtocol.Awake(s.tasks[v]) && (s'.tasks[v].Reading? || s'.tasks[v].Writing?)
    ensures Scheduler.PassedOver(Scheduler.Apply(q, Scheduler.Wake), ops, v) ==>
      && Scheduler.Listed(q.tasks, v) && Scheduler.Listed(q.tasks, q.current)
      && Scheduler.SwitchCount(ops) < Scheduler.Wait(q, v)
  {
    hide Scheduler.Ok, Scheduler.PassedOver, Scheduler.Apply, Scheduler.Wait, PipeProtocol.ShouldWait, PipeProtocol.Inv,
      PipeProtocol.Step, PipeProtocol.Awake;
    WakerThere(s, v);
    if PipeProtocol.Step(s, PipeProtocol.Wake(u), s') {
      LooksAgain(s, v, u, s');
    }
    if Scheduler.PassedOver(Scheduler.Apply(q, Scheduler.Wake), ops, v) {
      Scheduler.WokenGetsTurn(q, ops, v);
    }
  }
}
