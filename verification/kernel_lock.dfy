/** The big kernel lock: taken on every entry from user mode or the idle thread, dropped on return. */
module KernelLock {
  import opened TicketLock

  const IRQ_EL1H: nat := 5
  const SYNC_EL0_64: nat := 8
  const IRQ_EL0_64: nat := 9
  const IRQ_EL0_32: nat := 13
  const VECTORS: nat := 16

  /** handle_entry_c locks for exceptions from EL0 only. */
  predicate EntryLocks(kind: nat) {
    kind >= SYNC_EL0_64
  }

  /** handle_irq locks for interrupts from EL0 and for those that hit an idle thread. */
  predicate IrqLocks(kind: nat, idle: bool) {
    kind == IRQ_EL0_64 || kind == IRQ_EL0_32 || idle
  }

  /** Whether the code behind a vector takes the lock; system calls lock in el0_syscall. */
  predicate Acquires(vector: nat, svc: bool, idle: bool) {
    if vector == SYNC_EL0_64 then svc || EntryLocks(SYNC_EL0_64)
    else if vector == IRQ_EL1H || vector == IRQ_EL0_64 then IrqLocks(vector, idle)
    else EntryLocks(vector)
  }

  /** Entries from EL0, and interrupts of an idle thread. */
  predicate Allowed(vector: nat, idle: bool) {
    vector < VECTORS && (vector >= SYNC_EL0_64 || (vector == IRQ_EL1H && idle))
  }

  /** Every vector returns through exception_return, which unlocks; these are the ones that lock. */
  lemma AcquiresExactly(vector: nat, svc: bool, idle: bool)
    requires vector < VECTORS
    ensures Acquires(vector, svc, idle) <==> Allowed(vector, idle)
  {
  }

  datatype Mode = Outside | Entering | Inside | Leaving

  datatype Event =
    | Enter(vector: nat, svc: bool, idle: bool)
    | Locking(a: Action)
    | Return
    | Unlocking(a: Action)

  /** All CPUs: the lock, and where each is between entry and exception_return. */
  datatype Machine = Machine(lock: State, modes: seq<Mode>)

  ghost predicate CanHappen(k: Machine, c: nat, e: Event) {
    && c < |k.modes| == |k.lock.pcs|
    && match e
       case Enter(v, _, idle) => k.modes[c].Outside? && Allowed(v, idle)
       case Locking(a) => k.modes[c].Entering? && Enabled(k.lock, c, a)
                          && (a.LoadNext? || a.StoreNext? || a.FailNext? || a.ReadOwner? || a.LoseMonitor?)
       case Return => k.modes[c].Inside?
       case Unlocking(a) => k.modes[c].Leaving? && (a.UnlockLoad? || a.UnlockStore?) && Enabled(k.lock, c, a)
  }

  ghost function Happen(k: Machine, c: nat, e: Event): Machine
    requires CanHappen(k, c, e)
  {
    match e
    case Enter(v, svc, idle) => k.(modes := k.modes[c := if Acquires(v, svc, idle) then Entering else Inside])
    case Locking(a) =>
      var lock := Apply(k.lock, c, a);
      Machine(lock, if c < |lock.pcs| && lock.pcs[c].Holding? then k.modes[c := Inside] else k.modes)
    case Return => k.(modes := k.modes[c := Leaving])
    case Unlocking(a) =>
      var lock := Apply(k.lock, c, a);
      Machine(lock, if a.UnlockStore? then k.modes[c := Outside] else k.modes)
  }

  /** At boot every CPU calls lock_kernel and leaves through eret_to_thread. */
  ghost function Boot(n: nat): Machine {
    Machine(Init(n), seq(n, i => Entering))
  }

  ghost predicate Agrees(m: Mode, p: Pc) {
    match m
    case Outside => p.Out?
    case Entering => p.Out? || p.LockRetry? || p.LockLoaded? || p.Waiting?
    case Inside => p.Holding?
    case Leaving => p.Holding? || p.Releasing?
  }

  ghost predicate Balanced(k: Machine, f: Fifo) {
    && Refines(k.lock, f) && |k.modes| == |k.lock.pcs|
    && forall c :: 0 <= c < |k.modes| ==> Agrees(k.modes[c], k.lock.pcs[c])
  }

  ghost function QueueStep(f: Fifo, c: nat, e: Event): Fifo {
    match e
    case Locking(a) => FifoApply(f, c, a)
    case Unlocking(a) => FifoApply(f, c, a)
    case _ => f
  }

  lemma StepBalanced(k: Machine, f: Fifo, c: nat, e: Event)
    requires Balanced(k, f) && CanHappen(k, c, e)
    ensures Balanced(Happen(k, c, e), QueueStep(f, c, e))
  {
    hide Refines;
    match e
    case Enter(v, svc, idle) => AcquiresExactly(v, svc, idle);
    case Locking(a) => StepRefines(k.lock, f, c, a);
    case Return =>
    case Unlocking(a) => StepRefines(k.lock, f, c, a);
  }

  /**
    * An allowed entry on a free lock, with no step of another CPU in between, leads into the kernel: one round of the
    * lock's loop and one look at owner.
    */
  lemma EntryGetsIn(k: Machine, f: Fifo, c: nat, v: nat, svc: bool, idle: bool)
    requires Balanced(k, f) && CanHappen(k, c, Enter(v, svc, idle)) && IsFree(k.lock)
    ensures var k1 := Happen(k, c, Enter(v, svc, idle));
            && CanHappen(k1, c, Locking(LoadNext)) && var k2 := Happen(k1, c, Locking(LoadNext));
            && CanHappen(k2, c, Locking(StoreNext)) && var k3 := Happen(k2, c, Locking(StoreNext));
            && CanHappen(k3, c, Locking(ReadOwner)) && var k4 := Happen(k3, c, Locking(ReadOwner));
            && k4.modes == k.modes[c := Inside] && k4.lock.pcs == k.lock.pcs[c := Holding]
  {
    AcquiresExactly(v, svc, idle);
    FreeExactly(k.lock, f);
    hide IsFree, Members, Tickets, Monitors, Acquires, Allowed;
    assert k.modes[c := Entering][c := Inside] == k.modes[c := Inside];
  }

  /** A return from the kernel drops the lock: the next in the queue is first then, and the CPU is outside. */
  lemma ReturnLeaves(k: Machine, f: Fifo, c: nat)
    requires Balanced(k, f) && CanHappen(k, c, Return)
    ensures var k1 := Happen(k, c, Return);
            && CanHappen(k1, c, Unlocking(UnlockLoad)) && var k2 := Happen(k1, c, Unlocking(UnlockLoad));
            && CanHappen(k2, c, Unlocking(UnlockStore)) && var k3 := Happen(k2, c, Unlocking(UnlockStore));
            && k3.modes == k.modes[c := Outside] && k3.lock.pcs == k.lock.pcs[c := Out]
            && f.queue != [] && f.queue[0] == c && Refines(k3.lock, Fifo(f.queue[1..], f.served + 1))
  {
    var k1 := Happen(k, c, Return);
    var k2 := Happen(k1, c, Unlocking(UnlockLoad));
    UnlockLoadRefines(k.lock, f, c);
    LeaveRefines(k2.lock, f, c);
    hide Refines;
    assert k.modes[c := Leaving][c := Outside] == k.modes[c := Outside];
  }

  type Trace = seq<(nat, Event)>

  ghost predicate CanRun(k: Machine, t: Trace)
    decreases |t|
  {
    t == [] || (CanHappen(k, t[0].0, t[0].1) && CanRun(Happen(k, t[0].0, t[0].1), t[1..]))
  }

  ghost function End(k: Machine, t: Trace): Machine
    requires CanRun(k, t)
    decreases |t|
  {
    if t == [] then k else End(Happen(k, t[0].0, t[0].1), t[1..])
  }

  ghost function QueueEnd(f: Fifo, t: Trace): Fifo
    decreases |t|
  {
    if t == [] then f else QueueEnd(QueueStep(f, t[0].0, t[0].1), t[1..])
  }

  lemma {:induction false} RunBalanced(k: Machine, f: Fifo, t: Trace)
    requires Balanced(k, f) && CanRun(k, t)
    ensures Balanced(End(k, t), QueueEnd(f, t))
    decreases |t|
  {
    hide Balanced, CanHappen, Happen, QueueStep;
    if t == [] {
    } else {
      StepBalanced(k, f, t[0].0, t[0].1);
      RunBalanced(Happen(k, t[0].0, t[0].1), QueueStep(f, t[0].0, t[0].1), t[1..]);
    }
  }

  /** In every run a CPU is in kernel code only while it is first in the lock's queue. */
  lemma OneCpuInKernel(n: nat, t: Trace, c: nat, d: nat)
    requires n < U32 && CanRun(Boot(n), t)
    requires var k := End(Boot(n), t);
             && c < |k.modes| && (k.modes[c].Inside? || k.modes[c].Leaving?)
             && d < |k.modes| && (k.modes[d].Inside? || k.modes[d].Leaving?)
    ensures c == d
    ensures var f := QueueEnd(Fifo([], 0), t); f.queue != [] && f.queue[0] == c
  {
    BootBalanced(n);
    RunBalanced(Boot(n), Fifo([], 0), t);
    var k, f := End(Boot(n), t), QueueEnd(Fifo([], 0), t);
    hide CanRun, End, QueueEnd, Boot;
    assert c in f.queue && d in f.queue;
  }

  lemma BootBalanced(n: nat)
    requires n < U32
    ensures Balanced(Boot(n), Fifo([], 0))
  {
    InitRefines(n);
    hide Refines;
  }

  /** Entries, completed acquisitions and releases of one CPU in a run. */
  datatype Tally = Tally(entries: int, acquired: int, released: int)

  ghost function Count(k: Machine, t: Trace, c: nat): Tally
    requires CanRun(k, t)
    decreases |t|
  {
    if t == [] then Tally(0, 0, 0)
    else
      var k' := Happen(k, t[0].0, t[0].1);
      var r := Count(k', t[1..], c);
      if t[0].0 != c then r
      else match t[0].1
        case Enter(_, _, _) => r.(entries := r.entries + 1)
        case Locking(_) => if k'.modes[c].Inside? then r.(acquired := r.acquired + 1) else r
        case Unlocking(a) => if a.UnlockStore? then r.(released := r.released + 1) else r
        case Return => r
  }

  ghost function Pending(m: Mode): int { if m.Entering? then 1 else 0 }
  ghost function Held(m: Mode): int { if m.Inside? || m.Leaving? then 1 else 0 }

  /** Each entry acquires once and each return releases once, from any balanced state on. */
  lemma {:induction false} Accounting(k: Machine, f: Fifo, t: Trace, c: nat)
    requires Balanced(k, f) && CanRun(k, t) && c < |k.modes|
    ensures var k' := End(k, t);
            var r := Count(k, t, c);
            && |k'.modes| == |k.modes|
            && Pending(k.modes[c]) + r.entries == r.acquired + Pending(k'.modes[c])
            && Held(k.modes[c]) + r.acquired == r.released + Held(k'.modes[c])
    decreases |t|
  {
    if t == [] {
    } else {
      var d, e := t[0].0, t[0].1;
      StepBalanced(k, f, d, e);
      AccountingStep(k, f, d, e, c);
      hide Balanced, QueueStep;
      Accounting(Happen(k, d, e), QueueStep(f, d, e), t[1..], c);
    }
  }

  lemma AccountingStep(k: Machine, f: Fifo, d: nat, e: Event, c: nat)
    requires Balanced(k, f) && CanHappen(k, d, e) && c < |k.modes|
    ensures var k' := Happen(k, d, e);
            && |k'.modes| == |k.modes|
            && (d != c ==> k'.modes[c] == k.modes[c])
            && (d == c ==>
                  match e
                  case Enter(_, _, _) => Pending(k'.modes[c]) == Pending(k.modes[c]) + 1
                    && Held(k'.modes[c]) == Held(k.modes[c])
                  case Locking(_) =>
                    var got := if k'.modes[c].Inside? then 1 else 0;
                    Pending(k.modes[c]) == got + Pending(k'.modes[c]) && Held(k'.modes[c]) == Held(k.modes[c]) + got
                  case Return => Pending(k'.modes[c]) == Pending(k.modes[c]) && Held(k'.modes[c]) == Held(k.modes[c])
                  case Unlocking(a) =>
                    var gone := if a.UnlockStore? then 1 else 0;
                    Pending(k'.modes[c]) == Pending(k.modes[c]) && Held(k.modes[c]) == gone + Held(k'.modes[c]))
  {
    hide Refines;
    if e.Enter? {
      AcquiresExactly(e.vector, e.svc, e.idle);
    }
  }

  /** Balance over whole runs: a CPU holds the lock exactly from an entry to the matching return. */
  lemma LockBalance(n: nat, t: Trace, c: nat)
    requires n < U32 && CanRun(Boot(n), t) && c < n
    ensures var k := End(Boot(n), t);
            var r := Count(Boot(n), t, c);
            && |k.modes| == n
            && r.entries + 1 - r.acquired == Pending(k.modes[c])
            && r.acquired - r.released == Held(k.modes[c])
  {
    BootBalanced(n);
    Accounting(Boot(n), Fifo([], 0), t, c);
  }
}
