/** The round-robin scheduler (src/kernel/task.c). Tasks form a sequence in list order whose
    first element is the boot task. */
module Scheduler {
  import opened Pmm

  datatype State = Ready | Running | Blocked | Sleeping | Zombie
  datatype Task = Task(id: nat, state: State, wakeAt: nat)
  /** `next` is the id the next task will get. */
  datatype Queue = Queue(tasks: seq<Task>, current: nat, next: nat)

  const BOOT: nat := 0

  ghost predicate UniqueIds(ts: seq<Task>) {
    forall i, j | 0 <= i < j < |ts| :: ts[i].id != ts[j].id
  }

  ghost predicate Listed(ts: seq<Task>, id: nat) { exists i | 0 <= i < |ts| :: ts[i].id == id }

  /** Place of a task in the list. */
  function Index(ts: seq<Task>, id: nat): (r: nat)
    ensures r <= |ts| && (forall i | 0 <= i < r :: ts[i].id != id) && (r < |ts| ==> ts[r].id == id)
  {
    if ts == [] || ts[0].id == id then 0 else 1 + Index(ts[1..], id)
  }

  /** Nobody but the current task is running, and the boot task heads the list. */
  ghost predicate Ok(q: Queue) {
    && q.tasks != [] && q.tasks[0].id == BOOT && UniqueIds(q.tasks) && Listed(q.tasks, q.current)
    && (forall i | 0 <= i < |q.tasks| && q.tasks[i].state == Running :: q.tasks[i].id == q.current)
    && (forall i | 0 <= i < |q.tasks| :: q.tasks[i].id < q.next)
  }

  ghost function StateOf(q: Queue, id: nat): Option<State> {
    if Index(q.tasks, id) < |q.tasks| then Some(q.tasks[Index(q.tasks, id)].state) else None
  }

  function SetState(ts: seq<Task>, id: nat, state: State): (r: seq<Task>)
    ensures |r| == |ts|
  {
    seq(|ts|, i requires 0 <= i < |ts| => if ts[i].id == id then ts[i].(state := state) else ts[i])
  }

  // ---- the parts of schedule ----

  /** remove_zombies keeps the boot task, which heads the list, and the current task. */
  predicate Kept(t: Task, current: nat) { t.state != Zombie || t.id == current || t.id == BOOT }

  function WithoutZombies(ts: seq<Task>, current: nat): seq<Task> {
    if ts == [] then [] else (if Kept(ts[0], current) then [ts[0]] else []) + WithoutZombies(ts[1..], current)
  }

  function Cleaned(q: Queue): Queue { q.(tasks := WithoutZombies(q.tasks, q.current)) }

  /** Sleepers whose time has come. */
  function Awakened(ts: seq<Task>, now: nat): (r: seq<Task>)
    ensures |r| == |ts|
  {
    seq(|ts|, i requires 0 <= i < |ts| => if ts[i].state == Sleeping
      && ts[i].wakeAt <= now then ts[i].(state := Ready) else ts[i])
  }

  /** `k` places after `c` in cyclic list order. */
  function After(n: nat, c: nat, k: nat): (r: nat)
    requires c < n && k <= n
    ensures r < n
  {
    if c + k < n then c + k else c + k - n
  }

  /** The first ready task after `c`, looking at the places from the `k`th on, and at `c` last. */
  function FirstReady(ts: seq<Task>, c: nat, k: nat): (r: Option<nat>)
    requires c < |ts| && 1 <= k <= |ts|
    ensures r.Some? ==>
      k <= r.value <= |ts| && ts[After(|ts|, c, r.value)].state == Ready && forall j | k <= j < r.value ::
        ts[After(|ts|, c, j)].state != Ready
    ensures r.None? ==> forall j | k <= j <= |ts| :: ts[After(|ts|, c, j)].state != Ready
    decreases |ts| - k
  {
    if ts[After(|ts|, c, k)].state == Ready then Some(k)
    else if k == |ts| then None else FirstReady(ts, c, k + 1)
  }

  /** The state schedule starts its search from. */
  function Yielded(q: Queue, now: nat): seq<Task> {
    Awakened(seq(|q.tasks|, i requires 0 <= i < |q.tasks| => if q.tasks[i].id == q.current
      && q.tasks[i].state == Running then q.tasks[i].(state := Ready) else q.tasks[i]), now)
  }

  function Scheduled(q: Queue, now: nat): Queue
    requires Index(q.tasks, q.current) < |q.tasks|
  {
    var ts, c := Yielded(q, now), Index(q.tasks, q.current);
    var k := FirstReady(ts, c, 1);
    if k.None? then Queue(SetState(ts, q.current, Running), q.current, q.next)
    else
      var next := ts[After(|ts|, c, k.value)].id;
      Queue(SetState(ts, next, Running), next, q.next)
  }

  lemma IndexFound(ts: seq<Task>, id: nat)
    requires Listed(ts, id)
    ensures Index(ts, id) < |ts|
  {
    var i :| 0 <= i < |ts| && ts[i].id == id;
  }

  lemma YieldedAt(q: Queue, now: nat, i: nat)
    requires Ok(q) && i < |q.tasks|
    ensures var t, u := q.tasks[i], Yielded(q, now)[i];
      u.id == t.id && u.wakeAt == t.wakeAt && u.state != Running
        && (t.state != Running && t.state != Sleeping ==> u.state == t.state)
        && (u.state == Ready <==> t.state == Ready || t.state == Running || (t.state == Sleeping && t.wakeAt <= now))
  {
  }

  lemma ScheduledIds(q: Queue, now: nat)
    requires Ok(q)
    ensures Index(q.tasks, q.current) < |q.tasks|
    ensures |Scheduled(q, now).tasks| == |q.tasks| && Scheduled(q, now).next == q.next
    ensures Listed(Scheduled(q, now).tasks, Scheduled(q, now).current)
    ensures forall i | 0 <= i < |q.tasks| :: Scheduled(q, now).tasks[i].id == q.tasks[i].id
    ensures forall i | 0 <= i < |q.tasks| ::
      Scheduled(q, now).tasks[i].state == Running <==> Scheduled(q, now).tasks[i].id == Scheduled(q, now).current
  {
    IndexFound(q.tasks, q.current);
    var ts, c := Yielded(q, now), Index(q.tasks, q.current);
    forall i | 0 <= i < |ts| ensures ts[i].id == q.tasks[i].id && ts[i].state != Running {
      YieldedAt(q, now, i);
    }
    hide Yielded, Ok, Index;
    var q' := Scheduled(q, now);
    var j := if FirstReady(ts, c, 1).None? then c else After(|ts|, c, FirstReady(ts, c, 1).value);
    assert q'.tasks[j].id == q'.current;
  }

  lemma ScheduledOk(q: Queue, now: nat)
    requires Ok(q)
    ensures Index(q.tasks, q.current) < |q.tasks| && Ok(Scheduled(q, now))
    ensures StateOf(Scheduled(q, now), Scheduled(q, now).current) == Some(Running) && Scheduled(q, now).next == q.next
    ensures |Scheduled(q, now).tasks| == |q.tasks|
    ensures forall i | 0 <= i < |q.tasks| :: Scheduled(q, now).tasks[i].id == q.tasks[i].id
  {
    hide Scheduled;
    ScheduledIds(q, now);
    var q' := Scheduled(q, now);
    IndexFound(q'.tasks, q'.current);
  }

  // ---- who runs next ----

  /** A task that could run at time `now`. */
  predicate Runnable(t: Task, now: nat) {
    t.state == Ready || t.state == Running || (t.state == Sleeping && t.wakeAt <= now)
  }

  /** A task that gave up the processor gets it back at once exactly when nobody can run: schedule
      then sets it running again, whatever its state, even if it has exited. */
  lemma ComesBack(q: Queue, now: nat)
    requires Ok(q) && !Runnable(q.tasks[Index(q.tasks, q.current)], now)
    ensures Index(q.tasks, q.current) < |q.tasks|
    ensures Scheduled(q, now).current == q.current <==> forall i | 0 <= i < |q.tasks| :: !Runnable(q.tasks[i], now)
  {
    IndexFound(q.tasks, q.current);
    var ts, c, n := Yielded(q, now), Index(q.tasks, q.current), |q.tasks|;
    forall i | 0 <= i < n ensures ts[i].id == q.tasks[i].id && (ts[i].state == Ready <==> Runnable(q.tasks[i], now)) {
      YieldedAt(q, now, i);
    }
    hide Yielded;
    var k := FirstReady(ts, c, 1);
    if k.Some? {
      assert Runnable(q.tasks[After(n, c, k.value)], now);
      assert After(n, c, k.value) != c;
    } else {
      forall i | 0 <= i < n ensures !Runnable(q.tasks[i], now) {
        assert i == After(n, c, if i > c then i - c else i - c + n);
      }
    }
  }

  /** The failing case exists: a lone task that has exited is set running again. */
  lemma LoneZombieRuns()
    ensures var q := Queue([Task(BOOT, Zombie, 0)], BOOT, 1); Ok(q) && StateOf(Scheduled(q, 0), BOOT) == Some(Running)
  {
    var q := Queue([Task(BOOT, Zombie, 0)], BOOT, 1);
    assert q.tasks[0].id == BOOT;
    ScheduledOk(q, 0);
    assert Scheduled(q, 0).current == BOOT;
  }

  // ---- steps ----

  datatype Op =
    | Yield(now: nat) | Preempt(now: nat) | Exit | Block(now: nat) | Wake
    | Sleep(until: nat) | Cancel(id: nat) | Create | Tidy

  function Woken(ts: seq<Task>): (r: seq<Task>)
    ensures |r| == |ts|
  {
    seq(|ts|, i requires 0 <= i < |ts| => if ts[i].state == Blocked then ts[i].(state := Ready) else ts[i])
  }

  function AsleepUntil(ts: seq<Task>, id: nat, until: nat): (r: seq<Task>)
    ensures |r| == |ts|
  {
    seq(|ts|, i requires 0 <= i < |ts| => if ts[i].id == id then Task(id, Sleeping, until) else ts[i])
  }

  ghost predicate Enabled(q: Queue, op: Op) {
    match op
    case Exit => StateOf(q, q.current) == Some(Running)
    case Block(_) => StateOf(q, q.current) == Some(Running)
    case Sleep(_) => StateOf(q, q.current) == Some(Running)
    case Cancel(id) => id != q.current && StateOf(q, id) == Some(Ready)
    case _ => true
  }

  ghost function Apply(q: Queue, op: Op): Queue
    requires Ok(q)
  {
    CleanedOk(q);
    match op
    case Yield(now) => ScheduledOk(Cleaned(q), now); Scheduled(Cleaned(q), now)
    case Preempt(now) => ScheduledOk(q, now); Scheduled(q, now)
    case Exit => q.(tasks := SetState(q.tasks, q.current, Zombie))
    case Block(now) =>
      var b := q.(tasks := SetState(q.tasks, q.current, Blocked));
      SetOk(q, q.current, Blocked);
      CleanedOk(b);
      ScheduledOk(Cleaned(b), now);
      Scheduled(Cleaned(b), now)
    case Wake => q.(tasks := Woken(q.tasks))
    case Sleep(until) => q.(tasks := AsleepUntil(q.tasks, q.current, until))
    case Cancel(id) => q.(tasks := SetState(q.tasks, id, Zombie))
    case Create => q.(tasks := q.tasks + [Task(q.next, Ready, 0)], next := q.next + 1)
    case Tidy => Cleaned(q)
  }

  lemma SetOk(q: Queue, id: nat, state: State)
    requires Ok(q) && state != Running
    ensures Ok(q.(tasks := SetState(q.tasks, id, state)))
  {
    var q' := q.(tasks := SetState(q.tasks, id, state));
    var i :| 0 <= i < |q.tasks| && q.tasks[i].id == q.current;
    assert q'.tasks[i].id == q.current;
  }

  lemma {:induction false} FilterFacts(ts: seq<Task>, current: nat)
    requires UniqueIds(ts)
    ensures UniqueIds(WithoutZombies(ts, current))
    ensures forall t :: t in WithoutZombies(ts, current) <==> t in ts && Kept(t, current)
    ensures |WithoutZombies(ts, current)| <= |ts|
  {
    if ts != [] {
      assert ts == [ts[0]] + ts[1..];
      FilterFacts(ts[1..], current);
      var rest := WithoutZombies(ts[1..], current);
      forall i | 0 <= i < |rest| ensures rest[i].id != ts[0].id {
        assert rest[i] in rest;
        assert rest[i] in ts[1..];
      }
    }
  }

  lemma CleanedOk(q: Queue)
    requires Ok(q)
    ensures Ok(Cleaned(q)) && Cleaned(q).current == q.current
    ensures forall t :: t in Cleaned(q).tasks <==> t in q.tasks && Kept(t, q.current)
  {
    var ts := q.tasks;
    FilterFacts(ts, q.current);
    var q' := Cleaned(q);
    assert q'.tasks == [ts[0]] + WithoutZombies(ts[1..], q.current);
    var i :| 0 <= i < |ts| && ts[i].id == q.current;
    assert ts[i] in q'.tasks;
    forall j | 0 <= j < |q'.tasks|
      ensures (q'.tasks[j].state == Running ==> q'.tasks[j].id == q.current) && q'.tasks[j].id < q.next {
      assert q'.tasks[j] in q'.tasks;
      assert q'.tasks[j] in ts;
    }
  }

  /** Every step keeps the invariant: nobody but the current task is running. */
  lemma StepOk(q: Queue, op: Op)
    requires Ok(q) && Enabled(q, op)
    ensures Ok(Apply(q, op))
  {
    CleanedOk(q);
    match op
    case Yield(now) => ScheduledOk(Cleaned(q), now);
    case Preempt(now) => ScheduledOk(q, now);
    case Exit => SetOk(q, q.current, Zombie);
    case Block(now) =>
      var b := q.(tasks := SetState(q.tasks, q.current, Blocked));
      SetOk(q, q.current, Blocked);
      CleanedOk(b);
      ScheduledOk(Cleaned(b), now);
    case Wake => SameIdsOk(q, Woken(q.tasks));
    case Sleep(until) => SameIdsOk(q, AsleepUntil(q.tasks, q.current, until));
    case Cancel(id) => SetOk(q, id, Zombie);
    case Create =>
      var i :| 0 <= i < |q.tasks| && q.tasks[i].id == q.current;
      assert Apply(q, op).tasks[i].id == q.current;
    case Tidy =>
  }

  lemma SameIdsOk(q: Queue, ts: seq<Task>)
    requires Ok(q) && |ts| == |q.tasks|
    requires forall i | 0 <= i < |ts| ::
      ts[i].id == q.tasks[i].id && (ts[i].state == Running ==> q.tasks[i].state == Running)
    ensures Ok(q.(tasks := ts))
  {
    var i :| 0 <= i < |q.tasks| && q.tasks[i].id == q.current;
    assert ts[i].id == q.current;
  }

  // ---- a task that has exited ----

  ghost predicate In(ts: seq<Task>, id: nat, state: State) {
    exists i | 0 <= i < |ts| :: ts[i].id == id && ts[i].state == state
  }

  /** Off the processor, and if still listed then as a zombie. */
  ghost predicate Gone(q: Queue, z: nat) {
    z != q.current && z < q.next && forall i | 0 <= i < |q.tasks| && q.tasks[i].id == z :: q.tasks[i].state == Zombie
  }

  ghost predicate BootRunnable(q: Queue) { In(q.tasks, BOOT, Ready) || In(q.tasks, BOOT, Running) }

  /** Schedule picks somebody who was runnable when anybody is. */
  lemma PicksRunnable(q: Queue, now: nat)
    requires Ok(q) && SomeRunnable(q, now)
    ensures Index(q.tasks, q.current) < |q.tasks|
    ensures exists i | 0 <= i < |q.tasks| :: Runnable(q.tasks[i], now) && q.tasks[i].id == Scheduled(q, now).current
    ensures forall i | 0 <= i < |q.tasks| && q.tasks[i].state == Zombie ::
      Scheduled(q, now).tasks[i] == q.tasks[i] && Scheduled(q, now).current != q.tasks[i].id
  {
    IndexFound(q.tasks, q.current);
    var ts, c, n := Yielded(q, now), Index(q.tasks, q.current), |q.tasks|;
    forall i | 0 <= i < n
      ensures ts[i].id == q.tasks[i].id && (ts[i].state == Ready <==> Runnable(q.tasks[i], now))
        && (q.tasks[i].state == Zombie ==> ts[i] == q.tasks[i]) {
      YieldedAt(q, now, i);
    }
    hide Yielded;
    var k := FirstReady(ts, c, 1);
    var i :| 0 <= i < n && Runnable(q.tasks[i], now);
    assert i == After(n, c, if i > c then i - c else i - c + n);
    assert Runnable(q.tasks[After(n, c, k.value)], now);
  }

  ghost predicate OnlyAsZombie(q: Queue, z: nat) {
    z < q.next && forall i | 0 <= i < |q.tasks| && q.tasks[i].id == z :: q.tasks[i].state == Zombie
  }

  /** Nobody can run: the current task goes on. */
  lemma NobodyElse(q: Queue, now: nat)
    requires Ok(q) && forall i | 0 <= i < |q.tasks| :: !Runnable(q.tasks[i], now)
    ensures Index(q.tasks, q.current) < |q.tasks| && Scheduled(q, now).current == q.current
    ensures forall i | 0 <= i < |q.tasks| && q.tasks[i].id != q.current :: Scheduled(q, now).tasks[i] == q.tasks[i]
  {
    IndexFound(q.tasks, q.current);
    forall i | 0 <= i < |q.tasks| ensures Yielded(q, now)[i] == q.tasks[i] {
      YieldedAt(q, now, i);
    }
    assert Yielded(q, now) == q.tasks;
  }

  lemma ScheduleGone(q: Queue, now: nat, z: nat)
    requires Ok(q) && OnlyAsZombie(q, z) && (z != q.current || BootRunnable(q))
    ensures Index(q.tasks, q.current) < |q.tasks| && Gone(Scheduled(q, now), z)
  {
    ScheduledOk(q, now);
    if BootRunnable(q) {
      BootRuns(q, now);
    }
    if SomeRunnable(q, now) {
      PicksRunnable(q, now);
    } else {
      NobodyElse(q, now);
    }
  }

  ghost predicate SomeRunnable(q: Queue, now: nat) { exists i | 0 <= i < |q.tasks| :: Runnable(q.tasks[i], now) }

  lemma BootRuns(q: Queue, now: nat)
    requires BootRunnable(q)
    ensures SomeRunnable(q, now)
  {
    var b :| 0 <= b < |q.tasks| && q.tasks[b].id == BOOT && (q.tasks[b].state == Ready || q.tasks[b].state == Running);
    assert Runnable(q.tasks[b], now);
  }

  lemma CleanKeeps(q: Queue, z: nat)
    requires Ok(q) && OnlyAsZombie(q, z)
    ensures Ok(Cleaned(q)) && OnlyAsZombie(Cleaned(q), z) && (BootRunnable(q) ==> BootRunnable(Cleaned(q)))
  {
    CleanedOk(q);
    var c := Cleaned(q);
    assert c.tasks[0] == q.tasks[0];
    forall i | 0 <= i < |c.tasks| && c.tasks[i].id == z ensures c.tasks[i].state == Zombie {
      assert c.tasks[i] in c.tasks;
      assert c.tasks[i] in q.tasks;
    }
  }

  /** While the boot task can run, the first switch after a task exits takes it off the processor. */
  lemma ExitIsFinal(q: Queue, op: Op, z: nat)
    requires Ok(q) && BootRunnable(q) && In(q.tasks, z, Zombie) && (op.Yield? || op.Preempt?)
    ensures Gone(Apply(q, op), z)
  {
    OnlyZombie(q, z);
    CleanKeeps(q, z);
    if op.Yield? {
      ScheduleGone(Cleaned(q), op.now, z);
    } else {
      ScheduleGone(q, op.now, z);
    }
  }

  lemma OnlyZombie(q: Queue, z: nat)
    requires Ok(q) && In(q.tasks, z, Zombie)
    ensures OnlyAsZombie(q, z)
  {
  }

  /** A task that has exited and left the processor never comes back. */
  lemma GoneStays(q: Queue, op: Op, z: nat)
    requires Ok(q) && Enabled(q, op) && Gone(q, z)
    ensures Gone(Apply(q, op), z)
  {
    assert OnlyAsZombie(q, z);
    CleanKeeps(q, z);
    match op
    case Yield(now) => ScheduleGone(Cleaned(q), now, z);
    case Preempt(now) => ScheduleGone(q, now, z);
    case Block(now) => BlockGone(q, now, z);
    case _ =>
  }

  lemma BlockGone(q: Queue, now: nat, z: nat)
    requires Ok(q) && Gone(q, z)
    ensures Gone(Apply(q, Block(now)), z)
  {
    var b := q.(tasks := SetState(q.tasks, q.current, Blocked));
    SetOk(q, q.current, Blocked);
    assert OnlyAsZombie(b, z);
    CleanKeeps(b, z);
    hide Ok, OnlyAsZombie, SetState;
    ScheduleGone(Cleaned(b), now, z);
  }

  // ---- whole runs ----

  ghost predicate Runs(q: Queue, ops: seq<Op>)
    requires Ok(q)
    decreases |ops|
  {
    ops == [] || (Enabled(q, ops[0]) && (StepOk(q, ops[0]); Runs(Apply(q, ops[0]), ops[1..])))
  }

  ghost function RunTo(q: Queue, ops: seq<Op>): Queue
    requires Ok(q) && Runs(q, ops)
    decreases |ops|
  {
    if ops == [] then q else StepOk(q, ops[0]); RunTo(Apply(q, ops[0]), ops[1..])
  }

  /** Safety: in every state of every run nobody but the current task is running, the current task
      is in the list, and the boot task heads it. */
  lemma {:induction false} EveryRunOk(q: Queue, ops: seq<Op>)
    requires Ok(q) && Runs(q, ops)
    ensures Ok(RunTo(q, ops))
    decreases |ops|
  {
    if ops != [] {
      StepOk(q, ops[0]);
      EveryRunOk(Apply(q, ops[0]), ops[1..]);
    }
  }

  // ---- runs in which the boot task never leaves the processor for good ----

  /** The boot task does not exit, block or sleep, and nobody cancels it: kernel_main only ever yields. */
  predicate SparesBoot(q: Queue, op: Op) {
    match op
    case Exit => q.current != BOOT
    case Block(_) => q.current != BOOT
    case Sleep(_) => q.current != BOOT
    case Cancel(id) => id != BOOT
    case _ => true
  }

  ghost predicate BootStays(q: Queue, ops: seq<Op>)
    requires Ok(q) && Runs(q, ops)
    decreases |ops|
  {
    ops == [] || (SparesBoot(q, ops[0]) && (StepOk(q, ops[0]); BootStays(Apply(q, ops[0]), ops[1..])))
  }

  predicate Switches(op: Op) { op.Yield? || op.Preempt? || op.Block? }

  lemma ScheduleKeepsBoot(q: Queue, now: nat)
    requires Ok(q) && BootRunnable(q)
    ensures Index(q.tasks, q.current) < |q.tasks| && BootRunnable(Scheduled(q, now))
  {
    ScheduledOk(q, now);
    YieldedAt(q, now, 0);
    assert Scheduled(q, now).tasks[0].id == BOOT;
  }

  lemma CleanKeepsBoot(q: Queue)
    requires Ok(q) && BootRunnable(q)
    ensures Ok(Cleaned(q)) && BootRunnable(Cleaned(q))
  {
    CleanedOk(q);
    assert Cleaned(q).tasks[0] == q.tasks[0];
  }

  lemma BlockKeepsBoot(q: Queue, now: nat)
    requires Ok(q) && BootRunnable(q) && q.current != BOOT
    ensures BootRunnable(Apply(q, Block(now)))
  {
    var b := q.(tasks := SetState(q.tasks, q.current, Blocked));
    SetOk(q, q.current, Blocked);
    assert b.tasks[0] == q.tasks[0];
    CleanKeepsBoot(b);
    ScheduleKeepsBoot(Cleaned(b), now);
  }

  lemma BootKept(q: Queue, op: Op)
    requires Ok(q) && BootRunnable(q) && Enabled(q, op) && SparesBoot(q, op)
    ensures BootRunnable(Apply(q, op))
  {
    CleanKeepsBoot(q);
    match op
    case Yield(now) => ScheduleKeepsBoot(Cleaned(q), now);
    case Preempt(now) => ScheduleKeepsBoot(q, now);
    case Block(now) => BlockKeepsBoot(q, now);
    case _ => assert q.tasks[0].id == BOOT && Apply(q, op).tasks[0].state == q.tasks[0].state;
  }

  lemma RunningNotZombie(q: Queue, z: nat)
    requires Ok(q) && OnlyAsZombie(q, z) && StateOf(q, q.current) == Some(Running)
    ensures Gone(q, z)
  {
  }

  /** One step, while the boot task can run: whoever has exited stays exited, and a switch takes it
      off the processor. */
  lemma ZombieStays(q: Queue, op: Op, z: nat)
    requires Ok(q) && BootRunnable(q) && Enabled(q, op) && OnlyAsZombie(q, z)
    ensures OnlyAsZombie(Apply(q, op), z)
    ensures Switches(op) || z != q.current ==> z != Apply(q, op).current
  {
    hide Ok, BootRunnable, Scheduled;
    if StateOf(q, q.current) == Some(Running) {
      RunningNotZombie(q, z);
    }
    if z != q.current {
      GoneStays(q, op, z);
    } else {
      CleanKeeps(q, z);
      match op
      case Yield(now) => ScheduleGone(Cleaned(q), now, z);
      case Preempt(now) => ScheduleGone(q, now, z);
      case Wake =>
      case Cancel(id) =>
      case Create =>
      case Tidy =>
    }
  }

  /** In every run in which the boot task never exits, blocks or sleeps and is never cancelled, it
      can run throughout. */
  lemma {:induction false} BootAlwaysRunnable(q: Queue, ops: seq<Op>)
    requires Ok(q) && BootRunnable(q) && Runs(q, ops) && BootStays(q, ops)
    ensures BootRunnable(RunTo(q, ops))
    decreases |ops|
  {
    hide Ok, BootRunnable, Enabled, Apply, SparesBoot;
    if ops != [] {
      StepOk(q, ops[0]);
      BootKept(q, ops[0]);
      BootAlwaysRunnable(Apply(q, ops[0]), ops[1..]);
    }
  }

  /** In every such run a task that has exited is never set running again: it stays a zombie until
      it is removed, and is off the processor from the first switch on. */
  lemma {:induction false} ExitedNeverRuns(q: Queue, ops: seq<Op>, z: nat)
    requires Ok(q) && BootRunnable(q) && OnlyAsZombie(q, z) && Runs(q, ops) && BootStays(q, ops)
    ensures OnlyAsZombie(RunTo(q, ops), z)
    ensures z != q.current || (exists i | 0 <= i < |ops| :: Switches(ops[i])) ==> z != RunTo(q, ops).current
    decreases |ops|
  {
    hide Ok, BootRunnable, OnlyAsZombie, Enabled, Apply, SparesBoot;
    if ops != [] {
      var q' := Apply(q, ops[0]);
      StepOk(q, ops[0]);
      BootKept(q, ops[0]);
      ZombieStays(q, ops[0], z);
      ExitedNeverRuns(q', ops[1..], z);
      if i :| 0 <= i < |ops| && Switches(ops[i]) {
        assert i > 0 ==> Switches(ops[1..][i - 1]);
      }
    }
  }

  /** The state task_init leaves. */
  function StartQueue(): (q: Queue)
    ensures Ok(q) && BootRunnable(q)
  {
    var q := Queue([Task(BOOT, Running, 0)], BOOT, 1);
    assert q.tasks[0].id == BOOT && In(q.tasks, BOOT, Running);
    q
  }

  /** From task_init on: a run leads to `q`, where some task has exited; wherever the run goes on
      from there, as long as the boot task only yields, that task is a zombie or removed. */
  lemma NoZombieEverRuns(before: seq<Op>, q: Queue, after: seq<Op>, z: nat)
    requires Runs(StartQueue(), before) && BootStays(StartQueue(), before) && q == RunTo(StartQueue(), before) && Ok(q)
    requires In(q.tasks, z, Zombie) && Runs(q, after) && BootStays(q, after)
    ensures StateOf(RunTo(q, after), z) == None || StateOf(RunTo(q, after), z) == Some(Zombie)
  {
    hide Runs, RunTo, BootStays, StartQueue;
    BootAlwaysRunnable(StartQueue(), before);
    OnlyZombie(q, z);
    ExitedNeverRuns(q, after, z);
  }

  // ---- tasks that wait for a wake-up or for their time ----

  /** This step can neither wake `t` nor let its time run out. */
  predicate Undisturbed(op: Op, t: Task) {
    match op
    case Yield(now) => t.state == Sleeping ==> now < t.wakeAt
    case Preempt(now) => t.state == Sleeping ==> now < t.wakeAt
    case Block(now) => t.state == Sleeping ==> now < t.wakeAt
    case Wake => t.state != Blocked
    case _ => true
  }

  lemma ScheduleRest(q: Queue, now: nat, t: Task)
    requires Ok(q) && SomeRunnable(q, now) && t in q.tasks && !Runnable(t, now)
    ensures Index(q.tasks, q.current) < |q.tasks| && t in Scheduled(q, now).tasks
  {
    var i :| 0 <= i < |q.tasks| && q.tasks[i] == t;
    PicksRunnable(q, now);
    YieldedAt(q, now, i);
    assert Scheduled(q, now).tasks[i] == t;
  }

  lemma CleanRest(q: Queue, now: nat, t: Task)
    requires Ok(q) && BootRunnable(q) && t in q.tasks && t.state != Zombie && !Runnable(t, now)
    ensures Ok(Cleaned(q)) && Index(Cleaned(q).tasks, q.current) < |Cleaned(q).tasks|
    ensures t in Scheduled(Cleaned(q), now).tasks
  {
    hide Scheduled, WithoutZombies;
    CleanedOk(q);
    CleanKeepsBoot(q);
    BootRuns(Cleaned(q), now);
    ScheduleRest(Cleaned(q), now, t);
  }

  lemma SetRest(q: Queue, id: nat, state: State, t: Task)
    requires t in q.tasks && t.id != id
    ensures t in SetState(q.tasks, id, state)
  {
    var i :| 0 <= i < |q.tasks| && q.tasks[i] == t;
    assert SetState(q.tasks, id, state)[i] == t;
  }

  lemma BlockRest(q: Queue, now: nat, t: Task)
    requires Ok(q) && BootRunnable(q) && q.current != BOOT && t in q.tasks && t.id != q.current
    requires t.state != Zombie && !Runnable(t, now)
    ensures t in Apply(q, Block(now)).tasks
  {
    hide SetState, Scheduled, WithoutZombies;
    var b := q.(tasks := SetState(q.tasks, q.current, Blocked));
    SetOk(q, q.current, Blocked);
    SetRest(q, q.current, Blocked, t);
    assert q.tasks[0] in q.tasks;
    SetRest(q, q.current, Blocked, q.tasks[0]);
    CleanRest(b, now, t);
  }

  lemma NotCurrent(q: Queue, t: Task)
    requires Ok(q) && t in q.tasks && StateOf(q, q.current) == Some(Running) && t.state != Running
    ensures t.id != q.current
  {
    var i :| 0 <= i < |q.tasks| && q.tasks[i] == t;
    IndexUnique(q.tasks, i);
  }

  /** A task that is blocked, or asleep until a later time, is left as it is by every other step. */
  lemma RestStays(q: Queue, op: Op, t: Task)
    requires Ok(q) && BootRunnable(q) && Enabled(q, op) && SparesBoot(q, op)
    requires t in q.tasks && (t.state == Blocked || t.state == Sleeping) && Undisturbed(op, t)
    ensures t in Apply(q, op).tasks
  {
    hide Ok, BootRunnable, Scheduled, WithoutZombies, StateOf, Index;
    CleanedOk(q);
    if StateOf(q, q.current) == Some(Running) {
      NotCurrent(q, t);
    }
    match op
    case Yield(now) => CleanRest(q, now, t);
    case Preempt(now) =>
      BootRuns(q, now);
      ScheduleRest(q, now, t);
    case Exit => SetRest(q, q.current, Zombie, t);
    case Block(now) => BlockRest(q, now, t);
    case Wake =>
      var i :| 0 <= i < |q.tasks| && q.tasks[i] == t;
      assert Woken(q.tasks)[i] == t;
    case Sleep(until) =>
      var i :| 0 <= i < |q.tasks| && q.tasks[i] == t;
      assert AsleepUntil(q.tasks, q.current, until)[i] == t;
    case Cancel(id) =>
      ReadyOther(q, id, t);
      SetRest(q, id, Zombie, t);
    case Create =>
    case Tidy =>
  }

  lemma ReadyOther(q: Queue, id: nat, t: Task)
    requires Ok(q) && t in q.tasks && StateOf(q, id) == Some(Ready) && t.state != Ready
    ensures t.id != id
  {
    var i :| 0 <= i < |q.tasks| && q.tasks[i] == t;
    IndexUnique(q.tasks, i);
  }

  /** In every run in which the boot task stays: nobody leaves the blocked state but by a wake-up, and no
      sleeper wakes before its time. */
  lemma {:induction false} RestsUntilDue(q: Queue, ops: seq<Op>, t: Task)
    requires Ok(q) && BootRunnable(q) && Runs(q, ops) && BootStays(q, ops)
    requires t in q.tasks && (t.state == Blocked || t.state == Sleeping)
    requires forall i | 0 <= i < |ops| :: Undisturbed(ops[i], t)
    ensures t in RunTo(q, ops).tasks
    decreases |ops|
  {
    hide Ok, BootRunnable, Enabled, Apply, SparesBoot, Undisturbed;
    if ops != [] {
      StepOk(q, ops[0]);
      BootKept(q, ops[0]);
      RestStays(q, ops[0], t);
      forall i | 0 <= i < |ops[1..]| ensures Undisturbed(ops[1..][i], t) {
        assert ops[1..][i] == ops[i + 1];
      }
      RestsUntilDue(Apply(q, ops[0]), ops[1..], t);
    }
  }

  /** Once its time has come, the next switch makes a sleeper ready or runs it. */
  lemma DueRuns(q: Queue, now: nat, t: Task)
    requires Ok(q) && t in q.tasks && t.state == Sleeping && t.wakeAt <= now
    ensures Index(q.tasks, q.current) < |q.tasks|
    ensures In(Scheduled(q, now).tasks, t.id, Ready) || Scheduled(q, now).current == t.id
  {
    var i :| 0 <= i < |q.tasks| && q.tasks[i] == t;
    ScheduledIds(q, now);
    YieldedAt(q, now, i);
    var u := Scheduled(q, now).tasks[i];
    assert u.id == t.id && (u.state == Ready || u.state == Running);
  }

  /** The current task has given up the processor: somebody else gets it, and its record stays. */
  lemma GivesWay(q: Queue, now: nat, t: Task)
    requires Ok(q) && BootRunnable(q) && t in q.tasks && t.state != Zombie && !Runnable(t, now)
    ensures t in Apply(q, Yield(now)).tasks && Apply(q, Yield(now)).current != t.id
    ensures Ok(Apply(q, Yield(now))) && StateOf(Apply(q, Yield(now)), t.id) == Some(t.state)
  {
    hide Ok, BootRunnable, Scheduled, WithoutZombies;
    var q' := Apply(q, Yield(now));
    CleanedOk(q);
    StepOk(q, Yield(now));
    CleanRest(q, now, t);
    ScheduledOk(Cleaned(q), now);
    var i :| 0 <= i < |q'.tasks| && q'.tasks[i] == t;
    PlaceOf(q', i);
  }

  lemma PlaceOf(q: Queue, i: nat)
    requires Ok(q) && i < |q.tasks|
    ensures StateOf(q, q.tasks[i].id) == Some(q.tasks[i].state)
  {
    IndexUnique(q.tasks, i);
  }

  lemma StateSet(q: Queue, c: nat, t: Task)
    requires Ok(q) && BootRunnable(q) && q.current != BOOT && c < |q.tasks| && q.tasks[c].id == q.current == t.id
    requires t.state != Running
    ensures var b := q.(tasks := q.tasks[c := t]);
      Ok(b) && BootRunnable(b) && t in b.tasks && In(b.tasks, t.id, t.state)
  {
    var b := q.(tasks := q.tasks[c := t]);
    assert b.tasks[c] == t;
    assert b.tasks[0] == q.tasks[0] && (In(b.tasks, BOOT, Ready) || In(b.tasks, BOOT, Running));
  }

  // ---- bounded waiting ----

  /** How many places after `c` the place `i` is, from 1 to `n`. */
  function Distance(n: nat, c: nat, i: nat): (d: nat)
    requires c < n && i < n
    ensures 1 <= d <= n && After(n, c, d) == i
  {
    if i > c then i - c else i - c + n
  }

  /** The turns a task has to wait at most: its cyclic list distance from the current task. */
  ghost function Wait(q: Queue, id: nat): nat
    requires Listed(q.tasks, id) && Listed(q.tasks, q.current)
  {
    IndexFound(q.tasks, id);
    IndexFound(q.tasks, q.current);
    Distance(|q.tasks|, Index(q.tasks, q.current), Index(q.tasks, id))
  }

  lemma IndexUnique(ts: seq<Task>, i: nat)
    requires UniqueIds(ts) && i < |ts|
    ensures Index(ts, ts[i].id) == i
  {
  }

  lemma SameIndex(a: seq<Task>, b: seq<Task>, id: nat)
    requires |a| == |b| && forall i | 0 <= i < |a| :: a[i].id == b[i].id
    ensures Index(a, id) == Index(b, id)
  {
  }

  /** Each switch either runs a ready task or brings its turn closer. */
  lemma ScheduleCloser(q: Queue, now: nat, id: nat)
    requires Ok(q) && id != q.current && In(q.tasks, id, Ready)
    ensures Index(q.tasks, q.current) < |q.tasks| && Listed(q.tasks, id)
    ensures var q' := Scheduled(q, now);
      Ok(q') && Listed(q'.tasks, id) && (q'.current == id || Wait(q', id) < Wait(q, id))
  {
    var i :| 0 <= i < |q.tasks| && q.tasks[i].id == id && q.tasks[i].state == Ready;
    assert Listed(q.tasks, id);
    ScheduledOk(q, now);
    YieldedAt(q, now, i);
    IndexUnique(q.tasks, i);
    var ts, c, n, q' := Yielded(q, now), Index(q.tasks, q.current), |q.tasks|, Scheduled(q, now);
    assert q'.tasks[i].id == id;
    SameIndex(q.tasks, q'.tasks, id);
    SameIndex(q.tasks, q'.tasks, q'.current);
    assert Listed(q'.tasks, q'.current) && Listed(q.tasks, q.current);
    var k := ReadyBy(ts, c, i);
    NextPlace(q, now, k);
    hide Yielded, Ok, Index, Scheduled, FirstReady, After;
    Nearer(n, c, i, k);
    assert Wait(q, id) == Distance(n, c, i);
    assert Wait(q', id) == Distance(n, After(n, c, k), i);
    if k == Distance(n, c, i) {
      SamePlace(q.tasks, q'.current, id, i);
    }
  }

  lemma SamePlace(ts: seq<Task>, a: nat, b: nat, i: nat)
    requires Index(ts, a) == i && Index(ts, b) == i && i < |ts|
    ensures a == b
  {
  }

  /** A ready task is found at its own distance at the latest. */
  lemma ReadyBy(ts: seq<Task>, c: nat, i: nat) returns (k: nat)
    requires c < |ts| && i < |ts| && ts[i].state == Ready
    ensures FirstReady(ts, c, 1) == Some(k) && k <= Distance(|ts|, c, i)
  {
    var d := Distance(|ts|, c, i);
    assert ts[After(|ts|, c, d)].state == Ready;
    k := FirstReady(ts, c, 1).value;
  }

  lemma Nearer(n: nat, c: nat, i: nat, k: nat)
    requires c < n && i < n && 1 <= k <= Distance(n, c, i)
    ensures if k == Distance(n, c, i) then After(n, c, k) == i
            else Distance(n, After(n, c, k), i) == Distance(n, c, i) - k
  {
  }

  lemma NextPlace(q: Queue, now: nat, k: nat)
    requires Ok(q) && Index(q.tasks, q.current) < |q.tasks|
    requires FirstReady(Yielded(q, now), Index(q.tasks, q.current), 1) == Some(k)
    ensures Index(q.tasks, Scheduled(q, now).current) == After(|q.tasks|, Index(q.tasks, q.current), k)
  {
    var j := After(|q.tasks|, Index(q.tasks, q.current), k);
    YieldedAt(q, now, j);
    IndexUnique(q.tasks, j);
  }

  lemma {:induction false} FilterAppend(a: seq<Task>, b: seq<Task>, current: nat)
    ensures WithoutZombies(a + b, current) == WithoutZombies(a, current) + WithoutZombies(b, current)
    ensures |WithoutZombies(a, current)| <= |a|
  {
    if a == [] {
      assert a + b == b;
    } else {
      assert (a + b)[1..] == a[1..] + b;
      FilterAppend(a[1..], b, current);
    }
  }

  /** Where a kept task ends up: behind the kept tasks that were before it. */
  lemma FilterIndex(q: Queue, i: nat)
    requires Ok(q) && i < |q.tasks| && Kept(q.tasks[i], q.current)
    ensures Index(Cleaned(q).tasks, q.tasks[i].id) == |WithoutZombies(q.tasks[..i], q.current)| < |Cleaned(q).tasks|
    ensures |WithoutZombies(q.tasks[..i], q.current)| <= i
  {
    var ts, t := q.tasks, q.tasks[i];
    CleanedOk(q);
    FilterAppend(ts[..i], ts[i..], q.current);
    assert ts == ts[..i] + ts[i..];
    var a, b := WithoutZombies(ts[..i], q.current), WithoutZombies(ts[i..], q.current);
    assert b[0] == t by {
      assert ts[i..][0] == t;
    }
    assert Cleaned(q).tasks == a + b;
    hide WithoutZombies, Index;
    IndexUnique(Cleaned(q).tasks, |a|);
  }

  lemma FilterBetween(q: Queue, i: nat, j: nat)
    requires i < j <= |q.tasks| && Kept(q.tasks[i], q.current)
    ensures |WithoutZombies(q.tasks[..i], q.current)| < |WithoutZombies(q.tasks[..j],
      q.current)| <= |WithoutZombies(q.tasks[..i], q.current)| + (j - i)
  {
    var ts := q.tasks;
    assert ts[..j] == ts[..i] + ts[i..j];
    FilterAppend(ts[..i], ts[i..j], q.current);
    assert ts[i..j] == [ts[i]] + ts[i + 1..j];
    FilterAppend(ts[i + 1..j], [], q.current);
  }

  lemma CleanPlaces(q: Queue, c: nat, i: nat)
    requires Ok(q) && c < |q.tasks| && i < |q.tasks| && c != i && Kept(q.tasks[c], q.current)
    requires Kept(q.tasks[i], q.current)
    ensures var ts := Cleaned(q).tasks; var c', i' := Index(ts, q.tasks[c].id), Index(ts, q.tasks[i].id);
      c' < |ts| && i' < |ts| && Distance(|ts|, c', i') <= Distance(|q.tasks|, c, i)
  {
    hide WithoutZombies, Index, Ok, Kept;
    var n := |q.tasks|;
    FilterIndex(q, i);
    FilterIndex(q, c);
    assert q.tasks[..n] == q.tasks;
    FilterBetween(q, c, n);
    if i > c {
      FilterBetween(q, c, i);
    } else {
      FilterBetween(q, i, c);
    }
    Squeezed(n, |Cleaned(q).tasks|, c, i, Index(Cleaned(q).tasks, q.tasks[c].id),
      Index(Cleaned(q).tasks, q.tasks[i].id));
  }

  /** Removing zombies makes nobody wait longer. */
  lemma CleanCloser(q: Queue, id: nat)
    requires Ok(q) && id != q.current && In(q.tasks, id, Ready)
    ensures Listed(q.tasks, id) && Ok(Cleaned(q)) && In(Cleaned(q).tasks, id, Ready) && Listed(Cleaned(q).tasks, id)
    ensures Wait(Cleaned(q), id) <= Wait(q, id)
  {
    hide WithoutZombies, Index, Distance;
    var i :| 0 <= i < |q.tasks| && q.tasks[i].id == id && q.tasks[i].state == Ready;
    assert Listed(q.tasks, id);
    CleanedOk(q);
    IndexFound(q.tasks, q.current);
    IndexUnique(q.tasks, i);
    FilterHolds(q, i);
    CleanPlaces(q, Index(q.tasks, q.current), i);
  }

  lemma Squeezed(n: nat, n': nat, c: nat, i: nat, c': nat, i': nat)
    requires c < n && i < n && c != i && c' < n' && i' < n' && i' <= i
    requires n' - c' <= n - c && if i > c then c' < i' <= c' + (i - c) else i' < c'
    ensures Distance(n', c', i') <= Distance(n, c, i)
  {
  }

  lemma FilterHolds(q: Queue, i: nat)
    requires Ok(q) && i < |q.tasks| && q.tasks[i].state == Ready
    ensures In(Cleaned(q).tasks, q.tasks[i].id, Ready) && Listed(Cleaned(q).tasks, q.tasks[i].id)
  {
    CleanedOk(q);
    assert q.tasks[i] in q.tasks;
    assert q.tasks[i] in Cleaned(q).tasks;
    var j :| 0 <= j < |Cleaned(q).tasks| && Cleaned(q).tasks[j] == q.tasks[i];
  }

  lemma SameWait(q: Queue, q': Queue, id: nat)
    requires |q'.tasks| == |q.tasks| && q'.current == q.current && Listed(q.tasks, id) && Listed(q.tasks, q.current)
    requires forall i | 0 <= i < |q.tasks| :: q'.tasks[i].id == q.tasks[i].id
    ensures Listed(q'.tasks, id) && Listed(q'.tasks, q'.current) && Wait(q', id) == Wait(q, id)
  {
    IndexFound(q.tasks, id);
    IndexFound(q.tasks, q.current);
    SameIndex(q.tasks, q'.tasks, id);
    SameIndex(q.tasks, q'.tasks, q.current);
    assert q'.tasks[Index(q.tasks, id)].id == id && q'.tasks[Index(q.tasks, q.current)].id == q.current;
  }

  function SwitchCount(ops: seq<Op>): nat {
    if ops == [] then 0 else (if Switches(ops[0]) then 1 else 0) + SwitchCount(ops[1..])
  }

  lemma CleanSwitchCloser(q: Queue, now: nat, id: nat)
    requires Ok(q) && id != q.current && In(q.tasks, id, Ready)
    ensures Listed(q.tasks, id) && Ok(Cleaned(q)) && Index(Cleaned(q).tasks, q.current) < |Cleaned(q).tasks|
    ensures var q' := Scheduled(Cleaned(q), now);
      Ok(q') && Listed(q'.tasks, id) && (q'.current == id || Wait(q', id) < Wait(q, id))
  {
    CleanCloser(q, id);
    hide Ok, Cleaned, In;
    ScheduleCloser(Cleaned(q), now, id);
  }

  lemma SetOther(ts: seq<Task>, other: nat, to: State, id: nat)
    requires id != other && In(ts, id, Ready)
    ensures Listed(ts, id) && In(SetState(ts, other, to), id, Ready)
    ensures forall i | 0 <= i < |ts| :: SetState(ts, other, to)[i].id == ts[i].id
  {
    var i :| 0 <= i < |ts| && ts[i].id == id && ts[i].state == Ready;
    assert SetState(ts, other, to)[i] == ts[i];
  }

  lemma BlockCloser(q: Queue, now: nat, id: nat)
    requires Ok(q) && id != q.current && In(q.tasks, id, Ready)
    ensures Listed(q.tasks, id)
    ensures var q' := Apply(q, Block(now));
      Ok(q') && Listed(q'.tasks, id) && (q'.current == id || Wait(q', id) < Wait(q, id))
  {
    hide Ok, SetState, Wait, In, Listed;
    var b := q.(tasks := SetState(q.tasks, q.current, Blocked));
    SetOk(q, q.current, Blocked);
    OkListed(q);
    SetOther(q.tasks, q.current, Blocked, id);
    SameWait(q, b, id);
    CleanSwitchCloser(b, now, id);
  }

  /** No step but the creation of tasks makes a ready task wait longer, and each switch makes it wait less. */
  lemma StepCloser(q: Queue, op: Op, id: nat)
    requires Ok(q) && Enabled(q, op) && !op.Create? && id != q.current && In(q.tasks, id, Ready)
    requires Ok(Apply(q, op)) && In(Apply(q, op).tasks, id, Ready) && Apply(q, op).current != id
    ensures Listed(q.tasks, id) && Listed(Apply(q, op).tasks, id)
    ensures if Switches(op) then Wait(Apply(q, op), id) < Wait(q, id) else Wait(Apply(q, op), id) <= Wait(q, id)
  {
    hide Ok, In, Wait, Listed;
    CleanCloser(q, id);
    if op.Yield? {
      CleanSwitchCloser(q, op.now, id);
    } else if op.Preempt? {
      ScheduleCloser(q, op.now, id);
    } else if op.Block? {
      BlockCloser(q, op.now, id);
    } else if !op.Tidy? {
      OkListed(q);
      SameWait(q, Apply(q, op), id);
    }
  }

  lemma OkListed(q: Queue)
    requires Ok(q)
    ensures Listed(q.tasks, q.current)
  {
  }

  /** A run without new tasks during which a task stays ready and never gets the processor. */
  ghost predicate StillWaiting(q: Queue, ops: seq<Op>, id: nat)
    decreases |ops|
  {
    && Ok(q) && q.current != id && In(q.tasks, id, Ready)
    && (ops != [] ==> Enabled(q, ops[0]) && !ops[0].Create? && StillWaiting(Apply(q, ops[0]), ops[1..], id))
  }

  /** Bounded waiting: such a run has fewer switches than its cyclic list distance. */
  lemma {:induction false} BoundedWaiting(q: Queue, ops: seq<Op>, id: nat)
    requires StillWaiting(q, ops, id)
    ensures Listed(q.tasks, id) && Listed(q.tasks, q.current) && SwitchCount(ops) < Wait(q, id)
    decreases |ops|
  {
    OkListed(q);
    CleanCloser(q, id);
    if ops != [] {
      StepCloser(q, ops[0], id);
      BoundedWaiting(Apply(q, ops[0]), ops[1..], id);
    }
  }

  /** A run in which a task never gets the processor; no task is made meanwhile, and this one is not
      cancelled. */
  ghost predicate PassedOver(q: Queue, ops: seq<Op>, id: nat)
    decreases |ops|
  {
    && Ok(q) && q.current != id
    && (ops != [] ==>
          Enabled(q, ops[0]) && !ops[0].Create? && ops[0] != Cancel(id) && PassedOver(Apply(q, ops[0]), ops[1..], id))
  }

  lemma ScheduleReady(q: Queue, now: nat, id: nat)
    requires Ok(q) && In(q.tasks, id, Ready)
    ensures Index(q.tasks, q.current) < |q.tasks|
    ensures Scheduled(q, now).current != id ==> In(Scheduled(q, now).tasks, id, Ready)
  {
    var i :| 0 <= i < |q.tasks| && q.tasks[i].id == id && q.tasks[i].state == Ready;
    ScheduledIds(q, now);
    YieldedAt(q, now, i);
    assert Scheduled(q, now).tasks[i].id == id;
    if Scheduled(q, now).current != id {
      assert Scheduled(q, now).tasks[i].state == Ready;
    }
  }

  lemma CleanReady(q: Queue, id: nat)
    requires Ok(q) && In(q.tasks, id, Ready)
    ensures Ok(Cleaned(q)) && In(Cleaned(q).tasks, id, Ready)
  {
    var i :| 0 <= i < |q.tasks| && q.tasks[i].id == id && q.tasks[i].state == Ready;
    CleanedOk(q);
    FilterHolds(q, i);
  }

  /** A ready task that does not get the processor stays ready. */
  lemma ReadyStays(q: Queue, op: Op, id: nat)
    requires Ok(q) && Enabled(q, op) && op != Cancel(id) && q.current != id && In(q.tasks, id, Ready)
    requires Apply(q, op).current != id
    ensures In(Apply(q, op).tasks, id, Ready)
  {
    hide Ok, Scheduled, WithoutZombies, SetState, StateOf, In;
    CleanReady(q, id);
    match op
    case Yield(now) => ScheduleReady(Cleaned(q), now, id);
    case Preempt(now) => ScheduleReady(q, now, id);
    case Exit => SetOther(q.tasks, q.current, Zombie, id);
    case Block(now) =>
      var b := q.(tasks := SetState(q.tasks, q.current, Blocked));
      SetOk(q, q.current, Blocked);
      SetOther(q.tasks, q.current, Blocked, id);
      CleanReady(b, id);
      ScheduleReady(Cleaned(b), now, id);
    case Wake => OthersReady(q.tasks, Woken(q.tasks), id, id);
    case Sleep(until) => OthersReady(q.tasks, AsleepUntil(q.tasks, q.current, until), q.current, id);
    case Cancel(other) => SetOther(q.tasks, other, Zombie, id);
    case Create => OthersReady(q.tasks, q.tasks + [Task(q.next, Ready, 0)], q.current, id);
    case Tidy =>
  }

  lemma OthersReady(ts: seq<Task>, ts': seq<Task>, other: nat, id: nat)
    requires |ts| <= |ts'| && In(ts, id, Ready)
    requires forall i | 0 <= i < |ts| && ts[i].state == Ready :: ts'[i] == ts[i] || (ts[i].id == other && other != id)
    ensures In(ts', id, Ready)
  {
    var i :| 0 <= i < |ts| && ts[i].id == id && ts[i].state == Ready;
    assert ts'[i].id == id && ts'[i].state == Ready;
  }

  lemma {:induction false} PassedOverWaits(q: Queue, ops: seq<Op>, id: nat)
    requires PassedOver(q, ops, id) && In(q.tasks, id, Ready)
    ensures StillWaiting(q, ops, id)
    decreases |ops|
  {
    hide Ok, In, Enabled, Apply;
    if ops != [] {
      PassedOverNow(Apply(q, ops[0]), ops[1..], id);
      ReadyStays(q, ops[0], id);
      PassedOverWaits(Apply(q, ops[0]), ops[1..], id);
    }
  }

  lemma PassedOverNow(q: Queue, ops: seq<Op>, id: nat)
    requires PassedOver(q, ops, id)
    ensures Ok(q) && q.current != id
  {
  }

  /** A task that is blocked when the blocked tasks are woken gets the processor within as many switches
      as it is places behind the current task. */
  lemma WokenGetsTurn(q: Queue, ops: seq<Op>, id: nat)
    requires Ok(q) && In(q.tasks, id, Blocked) && PassedOver(Apply(q, Wake), ops, id)
    ensures Listed(q.tasks, id) && Listed(q.tasks, q.current) && SwitchCount(ops) < Wait(q, id)
  {
    hide Ok, Wait, PassedOver;
    var q' := Apply(q, Wake);
    var i :| 0 <= i < |q.tasks| && q.tasks[i].id == id && q.tasks[i].state == Blocked;
    assert q'.tasks[i].id == id && q'.tasks[i].state == Ready;
    OkListed(q);
    assert Listed(q.tasks, id);
    SameWait(q, q', id);
    PassedOverWaits(q', ops, id);
    BoundedWaiting(q', ops, id);
  }

  // ---- the code ----

  class Tasks {
    var tasks: seq<Task>
    var current: nat
    var next: nat

    ghost function Q(): Queue
      reads this
    {
      Queue(tasks, current, next)
    }

    /** task_init */
    constructor ()
      ensures Ok(Q()) && Q() == StartQueue()
    {
      tasks := [Task(BOOT, Running, 0)];
      current := BOOT;
      next := 1;
      new;
      assert tasks[0].id == BOOT;
    }

    /** Follows the list from its head to the current task. */
    method Find(id: nat) returns (i: nat)
      ensures i == Index(tasks, id)
    {
      i := 0;
      while i < |tasks| && tasks[i].id != id
        invariant 0 <= i <= |tasks| && forall j | 0 <= j < i :: tasks[j].id != id
      {
        i := i + 1;
      }
    }

    /** remove_zombies: the current task is never freed. */
    method RemoveZombies()
      requires Ok(Q())
      modifies `tasks
      ensures Q() == Cleaned(old(Q())) && Ok(Q())
      ensures forall t :: t in tasks <==> t in old(tasks) && (t.state != Zombie || t.id == current || t.id == BOOT)
    {
      hide WithoutZombies, Ok;
      CleanedOk(Q());
      HeadKept(Q());
      ghost var all := tasks;
      var i := 1;
      while i < |tasks|
        invariant 1 <= i <= |tasks| && tasks[..i] + WithoutZombies(tasks[i..], current) == WithoutZombies(all, current)
        invariant forall j | i <= j < |tasks| :: tasks[j].id != BOOT
        decreases |tasks| - i
      {
        if tasks[i].id != current && tasks[i].state == Zombie {
          DropStep(tasks, i, current);
          tasks := tasks[..i] + tasks[i + 1..];
        } else {
          KeepStep(tasks, i, current);
          i := i + 1;
        }
      }
      AtEnd(tasks, current);
    }

    method WakeSleepers(now: nat)
      modifies `tasks
      ensures tasks == Awakened(old(tasks), now)
      ensures |tasks| == |old(tasks)|
      ensures forall i | 0 <= i < |tasks| && old(tasks)[i].state == Sleeping && old(tasks)[i].wakeAt <= now ::
        tasks[i] == old(tasks)[i].(state := Ready)
      ensures forall i | 0 <= i < |tasks| && !(old(tasks)[i].state == Sleeping && old(tasks)[i].wakeAt <= now) ::
        tasks[i] == old(tasks)[i]
    {
      var i := 0;
      ghost var all := tasks;
      while i < |tasks|
        invariant 0 <= i <= |tasks| == |all|
        invariant forall j | 0 <= j < i :: tasks[j] == Awakened(all, now)[j]
        invariant forall j | i <= j < |all| :: tasks[j] == all[j]
      {
        if tasks[i].state == Sleeping && tasks[i].wakeAt <= now {
          tasks := tasks[i := tasks[i].(state := Ready)];
        }
        i := i + 1;
      }
    }

    /** next_ready_task, as a place in the list. */
    method NextReady(c: nat, now: nat) returns (r: Option<nat>)
      requires c < |tasks|
      modifies `tasks
      ensures tasks == Awakened(old(tasks), now)
      ensures r == ReadyPlace(tasks, c)
    {
      hide Awakened;
      WakeSleepers(now);
      var n := |tasks|;
      var i := if c + 1 < n then c + 1 else 0;
      ghost var k := 1;
      while i != c
        invariant 1 <= k <= n && i == After(n, c, k)
        invariant FirstReady(tasks, c, 1) == FirstReady(tasks, c, k)
        decreases n - k
      {
        if tasks[i].state == Ready {
          return Some(i);
        }
        k := k + 1;
        i := if i + 1 < n then i + 1 else 0;
      }
      return if tasks[c].state == Ready then Some(c) else None;
    }

    /** schedule without the zombies: who runs afterwards. */
    method Switch(now: nat)
      requires Ok(Q())
      modifies this
      ensures Index(old(tasks), old(current)) < |old(tasks)| && Ok(Q()) && Q() == Scheduled(old(Q()), now)
    {
      hide Ok, Yielded, Awakened, Index, Scheduled;
      ghost var q := Q();
      ScheduledOk(q, now);
      var c := Find(current);
      if tasks[c].state == Running {
        tasks := tasks[c := tasks[c].(state := Ready)];
      }
      YieldAtOnce(q, tasks, c, now);
      var n := NextReady(c, now);
      var chosen := if n.None? then c else n.value;
      tasks := tasks[chosen := tasks[chosen].(state := Running)];
      RunOne(q, now, c, tasks, chosen);
      current := tasks[chosen].id;
    }

    /** schedule */
    method Schedule(clean: bool, now: nat)
      requires Ok(Q())
      modifies this
      ensures Ok(Q()) && Q() == Apply(old(Q()), if clean then Yield(now) else Preempt(now))
    {
      hide Ok, Scheduled;
      CleanedOk(Q());
      if clean {
        RemoveZombies();
      }
      Switch(now);
    }

    /** task_block_current_if: interrupts stay off from the check to the switch. */
    method BlockIf(shouldBlock: bool, now: nat) returns (blocked: bool)
      requires Ok(Q()) && Enabled(Q(), Block(now))
      modifies this
      ensures Ok(Q()) && blocked == shouldBlock && Q() == if shouldBlock then Apply(old(Q()), Block(now)) else old(Q())
      ensures blocked && old(BootRunnable(Q())) && old(current) != BOOT ==>
        StateOf(Q(), old(current)) == Some(Blocked) && current != old(current)
    {
      hide Ok, SetState, Scheduled, StateOf, BootRunnable, SomeRunnable;
      if !shouldBlock {
        return false;
      }
      ghost var q := Q();
      SetOk(q, current, Blocked);
      var c := Find(current);
      CurrentAt(q, c);
      SetOne(q, c, Blocked);
      tasks := tasks[c := tasks[c].(state := Blocked)];
      assert Q() == q.(tasks := SetState(q.tasks, q.current, Blocked));
      if BootRunnable(q) && q.current != BOOT {
        StateSet(q, c, tasks[c]);
        GivesWay(Q(), now, tasks[c]);
      }
      Schedule(true, now);
      return true;
    }

    /** task_exit_current: two sections, and a preemption may fall between them. */
    method Exit(now: nat)
      requires Ok(Q()) && Enabled(Q(), Op.Exit)
      modifies this
      ensures StepsTo(old(Q()), [Op.Exit, Yield(now)], Q())
      ensures old(BootRunnable(Q())) && old(current) != BOOT ==> Gone(Q(), old(current))
    {
      hide Ok, SetState, Apply, BootRunnable, Gone, In;
      ghost var q := Q();
      StepOk(q, Op.Exit);
      var c := Find(current);
      CurrentAt(q, c);
      SetOne(q, c, Zombie);
      tasks := tasks[c := tasks[c].(state := Zombie)];
      ExitApplied(q);
      ghost var q1 := Q();
      if BootRunnable(q) && q.current != BOOT {
        StateSet(q, c, q.tasks[c].(state := Zombie));
        ExitIsFinal(q1, Yield(now), q.current);
      }
      Schedule(true, now);
      TwoSteps(q, Op.Exit, Yield(now), q1, Q());
    }

    /** task_sleep_ms: a sleeper gives up the processor until its deadline, which saturates. */
    method Sleep(milliseconds: nat, now: nat, later: nat)
      requires Ok(Q()) && Enabled(Q(), Op.Sleep(0))
      modifies this
      ensures if milliseconds == 0 then Q() == Apply(old(Q()), Yield(later))
              else StepsTo(old(Q()), [Op.Sleep(Deadline(now, milliseconds)), Yield(later)], Q())
      ensures milliseconds > 0 && old(BootRunnable(Q())) && old(current) != BOOT
              && later < now + milliseconds && later < MAX_TIME ==>
        && current != old(current)
        && exists t | t in tasks ::
             t.id == old(current) && t.state == Sleeping && WakesAfter(t.wakeAt, now, milliseconds)
    {
      hide Ok, Apply, AsleepUntil, BootRunnable, In;
      ghost var q := Q();
      if milliseconds == 0 {
        Schedule(true, later);
        return;
      }
      var until := Deadline(now, milliseconds);
      StepOk(q, Op.Sleep(until));
      var c := Find(current);
      CurrentAt(q, c);
      AsleepOne(q, c, until);
      tasks := tasks[c := Task(tasks[c].id, Sleeping, until)];
      SleepApplied(q, until);
      ghost var q1, t := Q(), tasks[c];
      if BootRunnable(q) && q.current != BOOT && later < until {
        StateSet(q, c, t);
        GivesWay(Q(), later, t);
      }
      Schedule(true, later);
      TwoSteps(q, Op.Sleep(until), Yield(later), q1, Q());
    }

    /** The end of task_create_in_space: a new task, ready, at the end of the list. */
    method Create() returns (id: nat)
      requires Ok(Q())
      modifies this
      ensures Ok(Q()) && id == old(next) && Q() == Apply(old(Q()), Op.Create)
      ensures tasks == old(tasks) + [Task(id, Ready, 0)] && !Listed(old(tasks), id)
    {
      StepOk(Q(), Op.Create);
      id := next;
      next := next + 1;
      tasks := tasks + [Task(id, Ready, 0)];
    }

    /** task_wake_blocked */
    method WakeBlocked()
      requires Ok(Q())
      modifies `tasks
      ensures Ok(Q()) && Q() == Apply(old(Q()), Wake) && |tasks| == |old(tasks)|
      ensures forall i | 0 <= i < |tasks| && old(tasks)[i].state == Blocked ::
        tasks[i] == old(tasks)[i].(state := Ready)
      ensures forall i | 0 <= i < |tasks| && old(tasks)[i].state != Blocked :: tasks[i] == old(tasks)[i]
    {
      ghost var all := tasks;
      StepOk(Q(), Wake);
      var i := 0;
      while i < |tasks|
        invariant 0 <= i <= |tasks| == |all|
        invariant forall j | 0 <= j < i :: tasks[j] == Woken(all)[j]
        invariant forall j | i <= j < |all| :: tasks[j] == all[j]
      {
        if tasks[i].state == Blocked {
          tasks := tasks[i := tasks[i].(state := Ready)];
        }
        i := i + 1;
      }
      assert tasks == Woken(all);
    }

    /** task_cancel_ready: only a task that is ready and not current can be cancelled. */
    method CancelReady(id: nat) returns (ok: bool)
      requires Ok(Q())
      modifies `tasks
      ensures ok <==> old(Enabled(Q(), Cancel(id)))
      ensures Ok(Q()) && Q() == if ok then Apply(old(Q()), Cancel(id)) else old(Q())
      ensures ok ==> |tasks| == |old(tasks)| && StateOf(Q(), id) == Some(Zombie)
      ensures ok ==> forall i | 0 <= i < |tasks| && old(tasks)[i].id != id :: tasks[i] == old(tasks)[i]
    {
      ghost var q := Q();
      var i := Find(id);
      if i == |tasks| || id == current || tasks[i].state != Ready {
        return false;
      }
      StepOk(q, Cancel(id));
      SetOne(q, i, Zombie);
      tasks := tasks[i := tasks[i].(state := Zombie)];
      PlaceOf(Q(), i);
      return true;
    }
  }

  const MAX_TIME: nat := 0xFFFF_FFFF_FFFF_FFFF

  /** Not before the time is over, except that times end at the largest number there is. */
  predicate WakesAfter(until: nat, now: nat, milliseconds: nat) {
    until == now + milliseconds <= MAX_TIME || until == MAX_TIME < now + milliseconds
  }

  function Deadline(now: nat, milliseconds: nat): (until: nat)
    ensures WakesAfter(until, now, milliseconds)
  {
    if now > MAX_TIME || milliseconds > MAX_TIME - now then MAX_TIME else now + milliseconds
  }

  /** The run `ops` leads from one queue to the other. */
  ghost predicate StepsTo(q: Queue, ops: seq<Op>, q': Queue) {
    Ok(q) && Runs(q, ops) && RunTo(q, ops) == q' && Ok(q')
  }

  lemma TwoSteps(q: Queue, a: Op, b: Op, q1: Queue, q2: Queue)
    requires Ok(q) && Enabled(q, a) && q1 == Apply(q, a) && Ok(q1) && Enabled(q1, b) && q2 == Apply(q1, b) && Ok(q2)
    ensures StepsTo(q, [a, b], q2)
  {
    hide Ok, Enabled, Apply;
    assert [a, b][1..] == [b] && [b][1..] == [];
    assert RunTo(q2, []) == q2;
    assert Runs(q2, []) && Runs(q1, [b]) && RunTo(q1, [b]) == q2;
  }

  lemma ExitApplied(q: Queue)
    requires Ok(q)
    ensures Apply(q, Op.Exit) == q.(tasks := SetState(q.tasks, q.current, Zombie))
  {
  }

  lemma SleepApplied(q: Queue, until: nat)
    requires Ok(q)
    ensures Apply(q, Op.Sleep(until)) == q.(tasks := AsleepUntil(q.tasks, q.current, until))
  {
  }

  lemma CurrentAt(q: Queue, c: nat)
    requires Ok(q) && c == Index(q.tasks, q.current)
    ensures c < |q.tasks| && q.tasks[c].id == q.current
  {
    IndexFound(q.tasks, q.current);
  }

  lemma AsleepOne(q: Queue, i: nat, until: nat)
    requires Ok(q) && i < |q.tasks|
    ensures AsleepUntil(q.tasks, q.tasks[i].id, until) == q.tasks[i := Task(q.tasks[i].id, Sleeping, until)]
  {
  }

  lemma SetOne(q: Queue, i: nat, state: State)
    requires Ok(q) && i < |q.tasks|
    ensures SetState(q.tasks, q.tasks[i].id, state) == q.tasks[i := q.tasks[i].(state := state)]
  {
  }

  lemma HeadKept(q: Queue)
    requires Ok(q)
    ensures q.tasks != []
    ensures q.tasks[..1] + WithoutZombies(q.tasks[1..], q.current) == WithoutZombies(q.tasks, q.current)
    ensures forall j | 1 <= j < |q.tasks| :: q.tasks[j].id != BOOT
  {
    assert q.tasks[..1] == [q.tasks[0]];
  }

  lemma DropStep(ts: seq<Task>, i: nat, current: nat)
    requires i < |ts| && !Kept(ts[i], current)
    ensures var ts' := ts[..i] + ts[i + 1..];
      ts'[..i] + WithoutZombies(ts'[i..], current) == ts[..i] + WithoutZombies(ts[i..], current)
  {
    var ts' := ts[..i] + ts[i + 1..];
    assert ts'[..i] == ts[..i] && ts'[i..] == ts[i + 1..] && ts[i..][1..] == ts[i + 1..];
  }

  lemma KeepStep(ts: seq<Task>, i: nat, current: nat)
    requires i < |ts| && Kept(ts[i], current)
    ensures ts[..i + 1] + WithoutZombies(ts[i + 1..], current) == ts[..i] + WithoutZombies(ts[i..], current)
  {
    assert ts[i..][1..] == ts[i + 1..] && ts[..i + 1] == ts[..i] + [ts[i]];
    assert WithoutZombies(ts[i..], current) == [ts[i]] + WithoutZombies(ts[i + 1..], current);
  }

  lemma AtEnd(ts: seq<Task>, current: nat)
    ensures ts[..|ts|] + WithoutZombies(ts[|ts|..], current) == ts
  {
  }

  function ReadyPlace(ts: seq<Task>, c: nat): Option<nat>
    requires c < |ts|
  {
    var k := FirstReady(ts, c, 1);
    if k.None? then None else Some(After(|ts|, c, k.value))
  }

  lemma YieldAtOnce(q: Queue, ts: seq<Task>, c: nat, now: nat)
    requires Ok(q) && c == Index(q.tasks, q.current) < |q.tasks|
    requires ts == if q.tasks[c].state == Running then q.tasks[c := q.tasks[c].(state := Ready)] else q.tasks
    ensures Awakened(ts, now) == Yielded(q, now)
  {
    forall i | 0 <= i < |ts|
      ensures ts[i] == if q.tasks[i].id == q.current
        && q.tasks[i].state == Running then q.tasks[i].(state := Ready) else q.tasks[i] {
    }
  }

  lemma RunOne(q: Queue, now: nat, c: nat, ts: seq<Task>, chosen: nat)
    requires Ok(q) && c == Index(q.tasks, q.current) < |q.tasks| && chosen < |q.tasks|
    requires var n := ReadyPlace(Yielded(q, now), c); chosen == if n.None? then c else n.value
    requires var y := Yielded(q, now); ts == y[chosen := y[chosen].(state := Running)]
    ensures Scheduled(q, now) == Queue(ts, ts[chosen].id, q.next)
  {
    var y := Yielded(q, now);
    forall i | 0 <= i < |y| ensures y[i].id == q.tasks[i].id {
      YieldedAt(q, now, i);
    }
    hide Yielded;
    assert SetState(y, y[chosen].id, Running) == ts;
  }
}
