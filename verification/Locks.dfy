/** Spinlocks and their ranking (src/cpu/spinlock.h and its users in src/mm) for any number of
    processors. */
module Locks {
  import opened Pmm

  datatype Lock = HeapLock | StackLock | VmmLock | PmmLock

  /** Nesting only goes up: heap or stack, then page tables, then page allocator. */
  function Rank(l: Lock): nat {
    match l
    case HeapLock => 1
    case StackLock => 1
    case VmmLock => 2
    case PmmLock => 3
  }

  datatype Act = Acquire(l: Lock) | Release(l: Lock)

  /** Run from holding `held`, the acts nest, respect the ranks, and give every lock back. */
  predicate Disciplined(acts: seq<Act>, held: seq<Lock>)
    decreases |acts|
  {
    if acts == [] then held == [] else
      match acts[0]
      case Acquire(l) => (held == [] || Rank(held[|held| - 1]) < Rank(l)) && Disciplined(acts[1..], held + [l])
      case Release(l) => held != [] && held[|held| - 1] == l && Disciplined(acts[1..], held[..|held| - 1])
  }

  // ---- what the operations do with the locks ----

  /** pmm_alloc_page, pmm_free_page, pmm_retain_page, pmm_page_references. */
  const PMM_CALL: seq<Act> := [Acquire(PmmLock), Release(PmmLock)]

  /** Calls made while a lock is held: to the page allocator, or to the page tables, which call the
      page allocator some number of times. */
  datatype Call = ToPmm | ToVmm(pmmCalls: nat)

  function PmmCalls(n: nat): seq<Act> { if n == 0 then [] else PMM_CALL + PmmCalls(n - 1) }

  /** Every operation of vmm.c that takes vmm_lock. */
  function VmmOperation(n: nat): seq<Act> { [Acquire(VmmLock)] + PmmCalls(n) + [Release(VmmLock)] }

  function CallActs(c: Call): seq<Act> {
    match c
    case ToPmm => PMM_CALL
    case ToVmm(n) => VmmOperation(n)
  }

  function CallsActs(cs: seq<Call>): seq<Act> { if cs == [] then [] else CallActs(cs[0]) + CallsActs(cs[1..]) }

  /** kmalloc with its growth and roll-back, kfree, kmalloc_get_stats. */
  function HeapOperation(cs: seq<Call>): seq<Act> { [Acquire(HeapLock)] + CallsActs(cs) + [Release(HeapLock)] }

  /** kernel_stack_alloc and kernel_stack_free. */
  function StackOperation(cs: seq<Call>): seq<Act> { [Acquire(StackLock)] + CallsActs(cs) + [Release(StackLock)] }

  predicate Below(held: seq<Lock>, l: Lock) { held == [] || Rank(held[|held| - 1]) < Rank(l) }

  /** Holding a lock for a disciplined piece of work. */
  lemma Around(l: Lock, held: seq<Lock>, work: seq<Act>, rest: seq<Act>)
    requires Below(held, l) && Disciplined(work + ([Release(l)] + rest), held + [l])
    ensures Disciplined([Acquire(l)] + work + [Release(l)] + rest, held)
  {
    var all := [Acquire(l)] + work + [Release(l)] + rest;
    assert all[1..] == work + ([Release(l)] + rest);
  }

  lemma Unlocked(l: Lock, held: seq<Lock>, rest: seq<Act>)
    requires Disciplined(rest, held)
    ensures Disciplined([Release(l)] + rest, held + [l])
  {
    assert ([Release(l)] + rest)[1..] == rest && (held + [l])[..|held|] == held;
  }

  lemma {:induction false} PmmCallsOn(n: nat, held: seq<Lock>, rest: seq<Act>)
    requires Below(held, PmmLock) && Disciplined(rest, held)
    ensures Disciplined(PmmCalls(n) + rest, held)
  {
    hide Disciplined;
    if n == 0 {
      assert PmmCalls(0) + rest == rest;
    } else {
      PmmCallsOn(n - 1, held, rest);
      var more := PmmCalls(n - 1) + rest;
      Unlocked(PmmLock, held, more);
      assert [] + ([Release(PmmLock)] + more) == [Release(PmmLock)] + more;
      Around(PmmLock, held, [], more);
      assert PmmCalls(n) + rest == [Acquire(PmmLock)] + [] + [Release(PmmLock)] + more;
    }
  }

  lemma VmmOn(n: nat, held: seq<Lock>, rest: seq<Act>)
    requires Below(held, VmmLock) && Disciplined(rest, held)
    ensures Disciplined(VmmOperation(n) + rest, held)
  {
    hide Disciplined;
    Unlocked(VmmLock, held, rest);
    PmmCallsOn(n, held + [VmmLock], [Release(VmmLock)] + rest);
    Around(VmmLock, held, PmmCalls(n), rest);
  }

  lemma CallOn(c: Call, held: seq<Lock>, rest: seq<Act>)
    requires Below(held, VmmLock) && Disciplined(rest, held)
    ensures Disciplined(CallActs(c) + rest, held)
  {
    hide Disciplined, VmmOperation;
    match c
    case ToVmm(n) => VmmOn(n, held, rest);
    case ToPmm =>
      PmmCallsOn(1, held, rest);
      assert PmmCalls(1) == PMM_CALL + PmmCalls(0) == PMM_CALL;
  }

  lemma {:induction false} CallsOn(cs: seq<Call>, held: seq<Lock>, rest: seq<Act>)
    requires Below(held, VmmLock) && Disciplined(rest, held)
    ensures Disciplined(CallsActs(cs) + rest, held)
    decreases |cs|
  {
    hide Disciplined, CallActs;
    if cs == [] {
      assert CallsActs(cs) + rest == rest;
    } else {
      var more := CallsActs(cs[1..]) + rest;
      CallsOn(cs[1..], held, rest);
      CallOn(cs[0], held, more);
      assert CallsActs(cs) + rest == CallActs(cs[0]) + more;
    }
  }

  /** Every operation of the memory managers keeps to the ranking, whatever it has to call. */
  lemma OperationsDisciplined(cs: seq<Call>, n: nat, rest: seq<Act>)
    requires Disciplined(rest, [])
    ensures Disciplined(HeapOperation(cs) + rest, []) && Disciplined(StackOperation(cs) + rest, [])
    ensures Disciplined(VmmOperation(n) + rest, []) && Disciplined(PmmCalls(n) + rest, [])
  {
    Unlocked(HeapLock, [], rest);
    CallsOn(cs, [HeapLock], [Release(HeapLock)] + rest);
    assert [] + [HeapLock] == [HeapLock] && [] + [StackLock] == [StackLock];
    Around(HeapLock, [], CallsActs(cs), rest);
    Unlocked(StackLock, [], rest);
    CallsOn(cs, [StackLock], [Release(StackLock)] + rest);
    Around(StackLock, [], CallsActs(cs), rest);
    VmmOn(n, [], rest);
    PmmCallsOn(n, [], rest);
  }

  // ---- processors ----

  /** `saved` are the interrupt flags the held locks were taken with; `waiting` is the lock being
      spun on and the flag saved for it; `home` is the flag from before the outermost lock. */
  datatype Cpu = Cpu(interrupts: bool, held: seq<Lock>, saved: seq<bool>, waiting: Option<(Lock, bool)>,
    todo: seq<Act>, home: bool)

  datatype Machine = Machine(cpus: seq<Cpu>, taken: set<Lock>)

  datatype Step =
    | Begin(c: nat)                       // save the flag, disable interrupts, start spinning
    | Exchange(c: nat)                    // one atomic exchange
    | Unlock(c: nat)                      // store zero, restore the flag
    | Run(c: nat, acts: seq<Act>)         // a further operation, or an interrupt handler's
    | SetFlag(c: nat, on: bool)           // sti and cli outside any lock

  ghost predicate Took(m: Machine, st: Step, m': Machine) {
    st.c < |m.cpus| && var p := m.cpus[st.c];
    match st
    case Begin(c) =>
      && p.waiting.None? && p.todo != [] && p.todo[0].Acquire?
      && m' == m.(cpus := m.cpus[c := p.(interrupts := false, waiting := Some((p.todo[0].l, p.interrupts)),
        home := if p.held == [] then p.interrupts else p.home)])
    case Exchange(c) =>
      && p.waiting.Some? && p.todo != []
      && var (l, flag) := p.waiting.value;
        if l in m.taken then m' == m
        else m' == Machine(m.cpus[c := p.(held := p.held + [l], saved := p.saved + [flag], waiting := None,
          todo := p.todo[1..])], m.taken + {l})
    case Unlock(c) =>
      && p.waiting.None? && p.todo != [] && p.todo[0].Release? && p.held != [] && p.saved != []
      && m' == Machine(m.cpus[c := p.(interrupts := p.saved[|p.saved| - 1], held := p.held[..|p.held| - 1],
        saved := p.saved[..|p.saved| - 1], todo := p.todo[1..])],
                       m.taken - {p.todo[0].l})
    case Run(c, acts) =>
      && p.waiting.None? && (p.todo == [] || p.interrupts) && Disciplined(acts + p.todo, [])
      && m' == m.(cpus := m.cpus[c := p.(todo := acts + p.todo)])
    case SetFlag(c, on) =>
      && p.waiting.None? && p.held == []
      && m' == m.(cpus := m.cpus[c := p.(interrupts := on, home := on)])
  }

  // ---- the invariant ----

  ghost predicate CpuOk(p: Cpu) {
    && Disciplined(p.todo, p.held) && |p.saved| == |p.held|
    && (p.held != [] || p.waiting.Some? ==> !p.interrupts)
    && (p.waiting.Some? ==>
      p.todo != [] && p.todo[0] == Acquire(p.waiting.value.0) && p.waiting.value.1 == (p.held == [] && p.home))
    && (forall i | 0 <= i < |p.saved| :: p.saved[i] == (i == 0 && p.home))
    && (p.held == [] && p.waiting.None? ==> p.interrupts == p.home)
    && (forall i, j | 0 <= i < j < |p.held| :: Rank(p.held[i]) < Rank(p.held[j]))
  }

  ghost predicate Ok(m: Machine) {
    && (forall c | 0 <= c < |m.cpus| :: CpuOk(m.cpus[c]))
    && (forall l :: l in m.taken <==> exists c | 0 <= c < |m.cpus| :: l in m.cpus[c].held)
    && (forall c, d | 0 <= c < d < |m.cpus| :: forall l | l in m.cpus[c].held :: l !in m.cpus[d].held)
  }

  lemma BeginOk(p: Cpu)
    requires CpuOk(p) && p.waiting.None? && p.todo != [] && p.todo[0].Acquire?
    ensures CpuOk(p.(interrupts := false, waiting := Some((p.todo[0].l, p.interrupts)), home := if p.held
      == [] then p.interrupts else p.home))
  {
  }

  lemma TakeDisciplined(acts: seq<Act>, held: seq<Lock>, l: Lock)
    requires Disciplined(acts, held) && acts != [] && acts[0] == Acquire(l)
    ensures Disciplined(acts[1..], held + [l]) && Below(held, l)
  {
  }

  lemma RankedMore(held: seq<Lock>, l: Lock)
    requires Below(held, l) && forall i, j | 0 <= i < j < |held| :: Rank(held[i]) < Rank(held[j])
    ensures forall i, j | 0 <= i < j < |held + [l]| :: Rank((held + [l])[i]) < Rank((held + [l])[j])
  {
    hide Rank;
    forall i, j | 0 <= i < j < |held + [l]| ensures Rank((held + [l])[i]) < Rank((held + [l])[j]) {
      if j == |held| && i < |held| - 1 {
        assert Rank(held[i]) < Rank(held[|held| - 1]);
      }
    }
  }

  lemma TakeOk(p: Cpu)
    requires CpuOk(p) && p.waiting.Some?
    ensures var (l, flag) := p.waiting.value;
      CpuOk(p.(held := p.held + [l], saved := p.saved + [flag], waiting := None, todo := p.todo[1..]))
  {
    hide Disciplined, Rank;
    TakeDisciplined(p.todo, p.held, p.waiting.value.0);
    RankedMore(p.held, p.waiting.value.0);
  }

  lemma UnlockOk(p: Cpu)
    requires CpuOk(p) && p.waiting.None? && p.todo != [] && p.todo[0].Release?
    ensures p.held != [] && p.saved != [] && p.held[|p.held| - 1] == p.todo[0].l
    ensures p.todo[0].l !in p.held[..|p.held| - 1]
    ensures CpuOk(p.(interrupts := p.saved[|p.saved| - 1], held := p.held[..|p.held| - 1],
      saved := p.saved[..|p.saved| - 1], todo := p.todo[1..]))
  {
    var n := |p.held| - 1;
    forall i | 0 <= i < n ensures p.held[i] != p.held[n] {
      assert Rank(p.held[i]) < Rank(p.held[n]);
    }
  }

  /** One processor changes without touching locks. */
  lemma SameHeld(m: Machine, c: nat, p: Cpu)
    requires Ok(m) && c < |m.cpus| && CpuOk(p) && p.held == m.cpus[c].held
    ensures Ok(m.(cpus := m.cpus[c := p]))
  {
    var m' := m.(cpus := m.cpus[c := p]);
    assert forall d | 0 <= d < |m.cpus| :: m'.cpus[d].held == m.cpus[d].held;
  }

  lemma TakenBy(m: Machine, c: nat, p: Cpu, l: Lock)
    requires Ok(m) && c < |m.cpus| && CpuOk(p) && l !in m.taken && p.held == m.cpus[c].held + [l]
    ensures Ok(Machine(m.cpus[c := p], m.taken + {l}))
  {
    hide CpuOk;
    var m' := Machine(m.cpus[c := p], m.taken + {l});
    assert forall d | 0 <= d < |m.cpus| :: l !in m.cpus[d].held;
    assert forall d, k | 0 <= d < |m.cpus| :: k in m'.cpus[d].held <==> k in m.cpus[d].held || (d == c && k == l);
    forall k ensures k in m'.taken <==> exists d | 0 <= d < |m'.cpus| :: k in m'.cpus[d].held {
      if k == l {
        assert l in m'.cpus[c].held;
      }
    }
  }

  lemma GivenBack(m: Machine, c: nat, p: Cpu, l: Lock)
    requires Ok(m) && c < |m.cpus| && CpuOk(p) && m.cpus[c].held == p.held + [l] && l !in p.held
    ensures Ok(Machine(m.cpus[c := p], m.taken - {l}))
  {
    hide CpuOk;
    var m' := Machine(m.cpus[c := p], m.taken - {l});
    assert l in m.cpus[c].held;
    forall k ensures k in m'.taken <==> exists d | 0 <= d < |m'.cpus| :: k in m'.cpus[d].held {
      if k == l {
        forall d | 0 <= d < |m'.cpus| ensures l !in m'.cpus[d].held {
        }
      } else {
        assert forall d | 0 <= d < |m.cpus| :: k in m'.cpus[d].held <==> k in m.cpus[d].held;
      }
    }
  }

  /** Mutual exclusion, interrupts off while a lock is held, and the ranking survive every step. */
  lemma StepKeepsOk(m: Machine, st: Step, m': Machine)
    requires Ok(m) && Took(m, st, m')
    ensures Ok(m')
  {
    hide Ok, CpuOk, Disciplined;
    var p := m.cpus[st.c];
    EachOk(m, st.c);
    match st
    case Begin(c) =>
      BeginOk(p);
      SameHeld(m, c, m'.cpus[c]);
    case Exchange(c) =>
      if p.waiting.value.0 !in m.taken {
        TakeOk(p);
        TakenBy(m, c, m'.cpus[c], p.waiting.value.0);
      }
    case Unlock(c) =>
      UnlockOk(p);
      assert p.held == p.held[..|p.held| - 1] + [p.todo[0].l];
      GivenBack(m, c, m'.cpus[c], p.todo[0].l);
    case Run(c, acts) =>
      RunOk(p, acts);
      SameHeld(m, c, m'.cpus[c]);
    case SetFlag(c, on) =>
      FlagOk(p, on);
      SameHeld(m, c, m'.cpus[c]);
  }

  lemma EachOk(m: Machine, c: nat)
    requires Ok(m) && c < |m.cpus|
    ensures CpuOk(m.cpus[c])
  {
  }

  lemma RunOk(p: Cpu, acts: seq<Act>)
    requires CpuOk(p) && p.waiting.None? && (p.todo == [] || p.interrupts) && Disciplined(acts + p.todo, [])
    ensures CpuOk(p.(todo := acts + p.todo))
  {
    hide Disciplined;
    NothingHeld(p);
  }

  lemma FlagOk(p: Cpu, on: bool)
    requires CpuOk(p) && p.waiting.None? && p.held == []
    ensures CpuOk(p.(interrupts := on, home := on))
  {
    hide Disciplined;
  }

  lemma NothingHeld(p: Cpu)
    requires CpuOk(p) && (p.todo == [] || p.interrupts)
    ensures p.held == []
  {
  }

  /** All processors idle and no lock taken. */
  ghost predicate Start(m: Machine) {
    m.taken == {} && forall c | 0 <= c < |m.cpus| ::
      var p := m.cpus[c]; p.held == [] && p.saved == [] && p.waiting.None? && p.todo == [] && p.home == p.interrupts
  }

  ghost predicate History(ms: seq<Machine>, steps: seq<Step>) {
    |ms| == |steps| + 1 && Start(ms[0]) && forall i | 0 <= i < |steps| :: Took(ms[i], steps[i], ms[i + 1])
  }

  lemma {:induction false} EveryHistory(ms: seq<Machine>, steps: seq<Step>, n: nat)
    requires History(ms, steps) && n < |ms|
    ensures Ok(ms[n])
  {
    if n > 0 {
      EveryHistory(ms, steps, n - 1);
      StepKeepsOk(ms[n - 1], steps[n - 1], ms[n]);
    }
  }

  // ---- what it means ----

  /** A processor that can go on: it is inside an operation and not stuck on a lock somebody holds. */
  ghost predicate CanGoOn(m: Machine, c: nat) {
    c < |m.cpus| && var p := m.cpus[c];
    if p.waiting.Some? then p.waiting.value.0 !in m.taken else p.held != []
  }

  /** Deadlock freedom: whenever some processor spins, some processor can go on, because whoever
      holds the lock it spins on can only be spinning on a lock of higher rank. */
  lemma {:induction false} NoDeadlock(m: Machine, c: nat) returns (d: nat)
    requires Ok(m) && c < |m.cpus| && m.cpus[c].waiting.Some?
    ensures CanGoOn(m, d)
    decreases 3 - Rank(m.cpus[c].waiting.value.0)
  {
    var l := m.cpus[c].waiting.value.0;
    if l !in m.taken {
      return c;
    }
    d :| 0 <= d < |m.cpus| && l in m.cpus[d].held;
    if m.cpus[d].waiting.Some? {
      WaitsHigher(m.cpus[d], l);
      d := NoDeadlock(m, d);
    }
  }

  /** Going on is a step that changes something: taking a free lock, asking for the next one, or
      giving one back. */
  lemma GoesOn(m: Machine, c: nat) returns (st: Step, m': Machine)
    requires Ok(m) && CanGoOn(m, c)
    ensures st.c == c && Took(m, st, m') && m' != m
  {
    var p := m.cpus[c];
    assert CpuOk(p);
    if p.waiting.Some? {
      var (l, flag) := p.waiting.value;
      st := Exchange(c);
      m' := Machine(m.cpus[c := p.(held := p.held + [l], saved := p.saved + [flag], waiting := None,
        todo := p.todo[1..])], m.taken + {l});
      assert m'.cpus[c] != p;
    } else if p.todo[0].Acquire? {
      st := Begin(c);
      m' := m.(cpus := m.cpus[c := p.(interrupts := false, waiting := Some((p.todo[0].l, p.interrupts)),
        home := if p.held == [] then p.interrupts else p.home)]);
      assert m'.cpus[c] != p;
    } else {
      st := Unlock(c);
      m' := Machine(m.cpus[c := p.(interrupts := p.saved[|p.saved| - 1], held := p.held[..|p.held| - 1],
        saved := p.saved[..|p.saved| - 1], todo := p.todo[1..])],
                    m.taken - {p.todo[0].l});
      assert m'.cpus[c] != p;
    }
  }

  lemma WaitsHigher(p: Cpu, l: Lock)
    requires CpuOk(p) && p.waiting.Some? && l in p.held
    ensures Rank(l) < Rank(p.waiting.value.0)
  {
    var i :| 0 <= i < |p.held| && p.held[i] == l;
    assert p.todo[0] == Acquire(p.waiting.value.0);
    if i < |p.held| - 1 {
      assert Rank(p.held[i]) < Rank(p.held[|p.held| - 1]);
    }
  }

  /** At most one processor holds a lock, with interrupts off, and giving back the outermost lock
      restores the flag from before it was taken. */
  lemma OneHolder(m: Machine, c: nat, d: nat, l: Lock)
    requires Ok(m) && c < |m.cpus| && d < |m.cpus| && l in m.cpus[c].held && l in m.cpus[d].held
    ensures c == d && !m.cpus[c].interrupts
  {
    assert CpuOk(m.cpus[c]);
  }

  lemma FlagRestored(m: Machine, c: nat, m': Machine)
    requires Ok(m) && Took(m, Unlock(c), m') && |m.cpus[c].held| == 1
    ensures m'.cpus[c].interrupts == m.cpus[c].home
  {
    assert CpuOk(m.cpus[c]);
  }
}
