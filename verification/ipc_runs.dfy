/** Runs of the whole system: interrupts, system calls, and what user threads do in between. */
module IpcRuns {
  import opened Wrappers
  import opened SchedModel
  import opened SchedLaws
  import opened IpcChain

  /** The system and, as a ghost, its call chains. */
  datatype Config = Config(sys: Sys, chains: Chains)

  datatype Event =
    | Timer(c: nat)
    | Device(c: nat)
    | YieldCall(c: nat)
    | Execute(c: nat, pc: nat, stack: nat, arg: nat)
    | SetAffinity(t: nat, aff: int)
    | Spawn(c: nat, t: nat, kind: Kind, b: nat, pc: nat, stack: nat, arg: nat, aff: int)
    | AddServer(t: nat, b: nat, handler: nat)
    | Connect(cn: nat, server: nat, stack: nat)
    | CallOut(c: nat, cn: nat, arg: nat)
    | ReturnBack(c: nat, ret: nat)

  /** Clients are not shadow threads, and connections lead to shadow threads only. */
  ghost predicate RootsOk(s: Sys, ch: Chains) {
    && (forall r :: r in ch && r in s.threads ==> s.threads[r].kind != Shadow)
    && (forall cn :: cn in s.conns ==> s.conns[cn].target in s.threads && s.threads[s.conns[cn].target].kind == Shadow)
  }

  ghost predicate Good(p: Config) {
    Sound(p.sys, p.chains) && RootsOk(p.sys, p.chains)
  }

  /** The threads that start on a ready queue: the root thread and user threads. */
  predicate IsClient(kind: Kind) {
    kind == Root || kind == User
  }

  /** A CPU runs a thread that can make system calls. */
  ghost predicate InUser(s: Sys, c: nat)
    requires Shape(s)
  {
    c < CPUS && s.current[c].Some? && s.threads[s.current[c].value].kind != Idle
  }

  /** What may happen next. The one restriction on callers: no connection is called while it is active. */
  ghost predicate Enabled(p: Config, e: Event)
    requires Good(p)
  {
    var s := p.sys;
    match e
    case Timer(c) => c < CPUS
    case Device(c) => c < CPUS
    case YieldCall(c) => InUser(s, c)
    case Execute(c, _, _, _) => InUser(s, c)
    case SetAffinity(t, aff) => t in s.threads && NO_AFF <= aff
    case Spawn(c, t, kind, b, _, _, _, aff) =>
      c < CPUS && IsClient(kind) && t !in s.threads && b !in s.budget && NO_AFF <= aff < CPUS
    case AddServer(t, b, _) => t !in s.threads && b !in s.budget
    case Connect(cn, v, _) => cn !in s.conns && v in s.threads && s.threads[v].kind == Shadow
    case CallOut(c, cn, _) => Callable(p, c, cn)
    case ReturnBack(c, _) => InUser(s, c)
  }

  /** sys_set_affinity: numbers beyond the last CPU are refused. */
  function Affinity(s: Sys, t: nat, aff: int): Sys
    requires t in s.threads
  {
    if aff >= CPUS && aff != NO_AFF then s else s.(threads := s.threads[t := s.threads[t].(affinity := aff)])
  }

  function Fresh(kind: Kind, b: nat, pc: nat, stack: nat, arg: nat, aff: int): Thread {
    Thread(TsInit, kind, aff, 0, b, None, pc, arg, pc, stack)
  }

  /** A new thread with a scheduling context of its own, on no queue yet. */
  function Create(s: Sys, t: nat, th: Thread): Sys {
    s.(threads := s.threads[t := th], budget := s.budget[th.sc := DEFAULT_BUDGET])
  }

  function Executed(s: Sys, c: nat, pc: nat, stack: nat, arg: nat): Sys
    requires Shape(s) && c < CPUS && s.current[c].Some?
  {
    var t := s.current[c].value;
    s.(threads := s.threads[t := s.threads[t].(ip := pc, sp := stack, x0 := arg)])
  }

  ghost function Step(p: Config, e: Event): Config
    requires Good(p) && Enabled(p, e)
  {
    var s, ch := p.sys, p.chains;
    match e
    case Timer(c) => Config(Interrupt(s, c, true), ch)
    case Device(c) => Config(Interrupt(s, c, false), ch)
    case YieldCall(c) => Config(Yield(s, c), ch)
    case Execute(c, pc, stack, arg) => Config(Executed(s, c, pc, stack, arg), ch)
    case SetAffinity(t, aff) => Config(Affinity(s, t, aff), ch)
    case Spawn(c, t, kind, b, pc, stack, arg, aff) =>
      Config(Enqueue(Create(s, t, Fresh(kind, b, pc, stack, arg, aff)), c, t), ch[t := [t]])
    case AddServer(t, b, handler) => Config(Create(s, t, Fresh(Shadow, b, handler, 0, 0, NO_AFF)), ch)
    case Connect(cn, v, stack) => Config(s.(conns := s.conns[cn := Conn(None, v, stack)]), ch)
    case CallOut(c, cn, arg) => CalledOut(p, c, cn, arg)
    case ReturnBack(c, ret) => ReturnedBack(p, c, ret)
  }

  /** A new thread starts at pc, with its stack, argument and two ticks, at the end of the queue its affinity names. */
  lemma SpawnStarts(p: Config, c: nat, t: nat, kind: Kind, b: nat, pc: nat, stack: nat, arg: nat, aff: int, k: nat)
    requires Good(p) && Enabled(p, Spawn(c, t, kind, b, pc, stack, arg, aff)) && k < CPUS
    requires k == aff || (aff == -1 && k == c)
    ensures Step(p, Spawn(c, t, kind, b, pc, stack, arg, aff)) ==
            Config(p.sys.(threads := p.sys.threads[t := Thread(TsReady, kind, aff, k, b, None, pc, arg, pc, stack)],
                          queues := p.sys.queues[k := p.sys.queues[k] + [t]], budget := p.sys.budget[b := 2]),
                   p.chains[t := [t]])
  {
    var th := Fresh(kind, b, pc, stack, arg, aff);
    EnqueuePlaces(Create(p.sys, t, th), c, t, k);
    hide Inv, Chained;
    var s1 := Create(p.sys, t, th);
    assert s1.threads[t := th.(state := TsReady, cpuid := k)] ==
           p.sys.threads[t := Thread(TsReady, kind, aff, k, b, None, pc, arg, pc, stack)];
    forall d | 0 <= d < CPUS && d != k
      ensures Enqueue(s1, c, t).queues[d] == s1.queues[d]
    {
      EnqueuePlaces(s1, c, t, d);
    }
  }

  /** Between entries into the kernel user code changes the registers of its own thread, to anything, and no more. */
  lemma UserCode(p: Config, c: nat, pc: nat, stack: nat, arg: nat, t: nat)
    requires Good(p) && Enabled(p, Execute(c, pc, stack, arg)) && t in p.sys.threads
    ensures var s, s' := p.sys, Step(p, Execute(c, pc, stack, arg)).sys;
            && s' == s.(threads := s'.threads) && s'.threads.Keys == s.threads.Keys
            && s'.threads[t] ==
               if s.current[c] == Some(t) then s.threads[t].(ip := pc, sp := stack, x0 := arg) else s.threads[t]
  {
    hide IdleOk, QueuesOk, ReadyOk, LimitsOk, CurrentOkAt, Chained;
  }

  /** sys_set_affinity stores what it is given, unless that is beyond the last CPU. */
  lemma AffinityStored(s: Sys, t: nat, aff: int)
    requires t in s.threads
    ensures Affinity(s, t, aff) == if aff > 3 then s else s.(threads := s.threads[t := s.threads[t].(affinity := aff)])
  {
  }

  ghost predicate Callable(p: Config, c: nat, cn: nat)
    requires Good(p)
  {
    InUser(p.sys, c) && cn in p.sys.conns && p.sys.threads[p.sys.conns[cn].target].active == None
  }

  lemma CallableMayCall(p: Config, c: nat, cn: nat)
    requires Good(p) && Callable(p, c, cn)
    ensures MayCall(p.sys, c, cn)
  {
    ShadowIsFree(p.sys, p.chains, p.sys.conns[cn].target);
    hide Inv, Chained;
  }

  ghost function CalledOut(p: Config, c: nat, cn: nat, arg: nat): Config
    requires Good(p) && Callable(p, c, cn)
  {
    CallableMayCall(p, c, cn);
    Config(Call(p.sys, c, cn, arg), CallChains(p.sys, p.chains, c, cn))
  }

  ghost function ReturnedBack(p: Config, c: nat, ret: nat): Config
    requires Good(p) && InUser(p.sys, c)
  {
    if p.sys.threads[p.sys.current[c].value].active == None then p
    else
      CallerBelow(p.sys, p.chains, c);
      Config(Return(p.sys, c, ret), ReturnChains(p.sys, p.chains, c))
  }

  /** For a shadow thread, serving no call is all that a new call needs. */
  lemma ShadowIsFree(s: Sys, ch: Chains, v: nat)
    requires Sound(s, ch) && RootsOk(s, ch) && v in s.threads && s.threads[v].kind == Shadow
    ensures s.threads[v].active == None <==> Unengaged(s, v)
  {
    UnengagedExactly(s, ch, v);
    hide IdleOk, QueuesOk, ReadyOk, LimitsOk, CurrentOkAt, Placed, Apart, TopsPlaced;
    if r :| r in ch && v in ch[r] {
      var i :| 0 <= i < |ch[r]| && ch[r][i] == v;
      assert ChainOk(s, ch[r]);
      assert i > 0 ==> Serves(s, ch[r][i - 1], ch[r][i]);
    }
  }

  // Scheduling steps.

  /** x and y are one thread before and after: only its place changed, and it waits as before. */
  ghost predicate SameButPlace(x: Thread, y: Thread) {
    && y == x.(state := y.state, cpuid := y.cpuid)
    && (y.state == TsWaiting <==> x.state == TsWaiting)
    && (x.state == TsWaiting ==> y == x)
  }

  lemma RequeueThreads(s: Sys, c: nat, x: nat)
    requires Inv(s) && c < CPUS && x in s.threads
    ensures Requeue(s, c).threads.Keys == s.threads.Keys && SameButPlace(s.threads[x], Requeue(s, c).threads[x])
  {
    RequeueShape(s, c);
    if s.current[c].Some? {
      CurrentAlone(s, c);
    }
  }

  lemma DispatchThreads(s1: Sys, c: nat, x: nat)
    requires InvBut(s1, c) && c < CPUS && x in s1.threads
    ensures var t := Chosen(s1, c);
            && t in s1.threads && t in Choose(s1, c).threads
            && SameButPlace(s1.threads[x], SwitchTo(Refill(Choose(s1, c), t), c, t).threads[x])
  {
    assert s1.queues[c] != [] ==> Chosen(s1, c) in s1.queues[c];
    hide LimitsOk, ReadyOk, CurrentOkAt;
  }

  /** Rescheduling changes only the state and CPU of threads, and wakes no waiting thread. */
  lemma RescheduleThreads(s: Sys, c: nat, x: nat)
    requires Inv(s) && c < CPUS && x in s.threads
    ensures var s' := Reschedule(s, c);
            s'.threads.Keys == s.threads.Keys && s'.conns == s.conns && SameButPlace(s.threads[x], s'.threads[x])
  {
    RescheduleQueues(s, c);
    RequeueKeeps(s, c);
    RequeueShape(s, c);
    RequeueThreads(s, c, x);
    DispatchThreads(Requeue(s, c), c, x);
    hide Inv, IdleOk, QueuesOk, ReadyOk, LimitsOk, CurrentOkAt, Requeue;
  }

  lemma RescheduleSameIpc(s: Sys, c: nat)
    requires Inv(s) && c < CPUS
    ensures Inv(Reschedule(s, c)) && SameIpc(s, Reschedule(s, c))
  {
    hide Reschedule, Placed, IdleOk, QueuesOk, ReadyOk, LimitsOk, CurrentOkAt;
    RescheduleKeeps(s, c);
    RescheduleThreads(s, c, s.idle[c]);
    var s' := Reschedule(s, c);
    forall x | x in s.threads
      ensures SameButPlace(s.threads[x], s'.threads[x])
      ensures s.threads[x].kind != Idle ==> (Placed(s, x) <==> Placed(s', x))
    {
      RescheduleThreads(s, c, x);
      if s.threads[x].kind != Idle {
        RescheduleConserves(s, c, x);
      }
    }
  }

  /** A step that keeps the scheduler's invariant and looks like nothing to the chains keeps everything. */
  lemma QuietKeeps(s: Sys, s': Sys, ch: Chains)
    requires Sound(s, ch) && RootsOk(s, ch) && Inv(s') && SameIpc(s, s')
    ensures Sound(s', ch) && RootsOk(s', ch)
  {
    assert RootsOk(s', ch) by {
      hide Chained, IdleOk, QueuesOk, ReadyOk, LimitsOk, CurrentOkAt, Placed;
    }
    hide IdleOk, QueuesOk, ReadyOk, LimitsOk, CurrentOkAt, Placed, Chained, RootsOk, SameIpc;
    SameIpcKeeps(s, s', ch);
  }

  lemma BudgetQuiet(s: Sys, b: map<nat, nat>)
    requires Inv(s) && b.Keys == s.budget.Keys && forall x :: x in b ==> b[x] <= DEFAULT_BUDGET
    ensures Inv(s.(budget := b)) && SameIpc(s, s.(budget := b))
  {
    BudgetKeeps(s, b);
    hide IdleOk, QueuesOk, ReadyOk, LimitsOk, CurrentOkAt;
  }

  lemma TickGood(s: Sys, ch: Chains, c: nat)
    requires Good(Config(s, ch)) && c < CPUS
    ensures Good(Config(Tick(s, c), ch))
  {
    BudgetQuiet(s, Tick(s, c).budget);
    hide Inv, Chained, SameIpc, Tick;
    QuietKeeps(s, Tick(s, c), ch);
  }

  lemma SchedGood(s: Sys, ch: Chains, c: nat)
    requires Good(Config(s, ch)) && c < CPUS
    ensures Good(Config(Sched(s, c), ch))
  {
    if !Keeps(s, c) {
      RescheduleSameIpc(s, c);
      hide Inv, Chained, SameIpc, Reschedule;
      QuietKeeps(s, Reschedule(s, c), ch);
    }
  }

  lemma SpendGood(s: Sys, ch: Chains, c: nat)
    requires Good(Config(s, ch)) && c < CPUS
    ensures Good(Config(Spend(s, c), ch))
  {
    BudgetQuiet(s, Spend(s, c).budget);
    hide Inv, Chained, SameIpc, Spend;
    QuietKeeps(s, Spend(s, c), ch);
  }

  lemma InterruptGood(s: Sys, ch: Chains, c: nat, timer: bool)
    requires Good(Config(s, ch)) && c < CPUS
    ensures Good(Config(Interrupt(s, c, timer), ch))
  {
    hide IdleOk, QueuesOk, ReadyOk, LimitsOk, CurrentOkAt, Chained, RootsOk, Tick, Sched;
    var s1 := if timer then Tick(s, c) else s;
    if timer {
      TickGood(s, ch, c);
    }
    TickGood(s1, ch, c);
    SchedGood(Tick(s1, c), ch, c);
  }

  lemma YieldGood(s: Sys, ch: Chains, c: nat)
    requires Good(Config(s, ch)) && c < CPUS
    ensures Good(Config(Yield(s, c), ch))
  {
    hide IdleOk, QueuesOk, ReadyOk, LimitsOk, CurrentOkAt, Chained, RootsOk, Spend, Sched;
    SpendGood(s, ch, c);
    SchedGood(Spend(s, c), ch, c);
  }

  lemma RegistersParts(s: Sys, t: nat, th: Thread)
    requires Shape(s) && IdleOk(s) && QueuesOk(s) && ReadyOk(s) && LimitsOk(s) && t in s.threads
             && NO_AFF <= th.affinity < CPUS
    requires th == s.threads[t].(ip := th.ip, sp := th.sp, x0 := th.x0, affinity := th.affinity)
    ensures var s' := s.(threads := s.threads[t := th]);
            Shape(s') && IdleOk(s') && QueuesOk(s') && ReadyOk(s') && LimitsOk(s')
  {
    hide IdleOk, QueuesOk, ReadyOk, LimitsOk;
    var s' := s.(threads := s.threads[t := th]);
    assert Shape(s') && SameReady(s, s');
    SameReadyQueues(s, s');
    SameReadyReady(s, s');
    RegistersRest(s, t, th);
  }

  lemma RegistersRest(s: Sys, t: nat, th: Thread)
    requires Shape(s) && IdleOk(s) && LimitsOk(s) && t in s.threads && NO_AFF <= th.affinity < CPUS
    requires th == s.threads[t].(ip := th.ip, sp := th.sp, x0 := th.x0, affinity := th.affinity)
    ensures var s' := s.(threads := s.threads[t := th]);
            Shape(s') && IdleOk(s') && LimitsOk(s')
  {
  }

  /** Registers and affinity of a thread do not matter to the invariant. */
  lemma RegistersInv(s: Sys, t: nat, th: Thread)
    requires Inv(s) && t in s.threads && NO_AFF <= th.affinity < CPUS
    requires th == s.threads[t].(ip := th.ip, sp := th.sp, x0 := th.x0, affinity := th.affinity)
    ensures Inv(s.(threads := s.threads[t := th]))
  {
    var s' := s.(threads := s.threads[t := th]);
    RegistersParts(s, t, th);
    hide IdleOk, QueuesOk, ReadyOk, LimitsOk;
    forall d | 0 <= d < CPUS
      ensures CurrentOkAt(s', d)
    {
      assert CurrentOkAt(s, d);
    }
  }

  lemma RegistersSameIpc(s: Sys, t: nat, th: Thread)
    requires Shape(s) && t in s.threads
    requires th == s.threads[t].(ip := th.ip, sp := th.sp, x0 := th.x0, affinity := th.affinity)
    ensures var s' := s.(threads := s.threads[t := th]);
            Shape(s') && SameIpc(s, s')
  {
  }

  lemma RegistersGood(s: Sys, ch: Chains, t: nat, th: Thread)
    requires Good(Config(s, ch)) && t in s.threads && NO_AFF <= th.affinity < CPUS
    requires th == s.threads[t].(ip := th.ip, sp := th.sp, x0 := th.x0, affinity := th.affinity)
    ensures Good(Config(s.(threads := s.threads[t := th]), ch))
  {
    RegistersInv(s, t, th);
    RegistersSameIpc(s, t, th);
    hide Inv, Chained, SameIpc;
    QuietKeeps(s, s.(threads := s.threads[t := th]), ch);
  }

  // New threads and connections.

  /** A thread nobody has heard of yet. */
  ghost predicate IsNew(s: Sys, t: nat, th: Thread) {
    && t !in s.threads && th.sc !in s.budget
    && th.state == TsInit && th.active == None && th.kind != Idle && NO_AFF <= th.affinity < CPUS
  }

  lemma CreateShape(s: Sys, t: nat, th: Thread)
    requires Shape(s) && IsNew(s, t, th)
    ensures Shape(Create(s, t, th)) && !Placed(Create(s, t, th), t)
    ensures forall x :: x in s.threads ==> (Placed(Create(s, t, th), x) <==> Placed(s, x))
  {
  }

  lemma CreateInv(s: Sys, t: nat, th: Thread)
    requires Inv(s) && IsNew(s, t, th)
    ensures Inv(Create(s, t, th))
  {
    CreateShape(s, t, th);
    CreateParts(s, t, th);
    hide IdleOk, LimitsOk, Placed, QueuesOk, ReadyOk;
    forall d | 0 <= d < CPUS
      ensures CurrentOkAt(Create(s, t, th), d)
    {
      assert CurrentOkAt(s, d);
    }
  }

  lemma CreateParts(s: Sys, t: nat, th: Thread)
    requires Shape(s) && IsNew(s, t, th) && IdleOk(s) && QueuesOk(s) && ReadyOk(s) && LimitsOk(s)
             && Shape(Create(s, t, th))
    ensures var s' := Create(s, t, th);
            IdleOk(s') && QueuesOk(s') && ReadyOk(s') && LimitsOk(s')
  {
    var s' := Create(s, t, th);
    assert IdleOk(s') && LimitsOk(s');
    hide IdleOk, LimitsOk;
  }

  /** A chain of threads that did not change, over connections that did not change. */
  lemma ChainFrame(s: Sys, s': Sys, q: seq<nat>)
    requires q != [] && (forall i :: 0 <= i < |q| ==> q[i] in s.threads) && ChainOk(s, q)
    requires forall i :: 0 <= i < |q| ==> q[i] in s'.threads && s'.threads[q[i]] == s.threads[q[i]]
    requires forall cn :: cn in s.conns ==> cn in s'.conns && s'.conns[cn] == s.conns[cn]
    ensures ChainOk(s', q)
  {
    forall i | 0 < i < |q|
      ensures Serves(s', q[i - 1], q[i])
    {
      assert Serves(s, q[i - 1], q[i]);
    }
  }

  lemma CreateChained(s: Sys, ch: Chains, t: nat, th: Thread)
    requires Sound(s, ch) && IsNew(s, t, th)
    ensures Shape(Create(s, t, th)) && Chained(Create(s, t, th), ch)
    ensures !InChain(ch, t)
  {
    var s' := Create(s, t, th);
    CreateShape(s, t, th);
    hide Shape, Inv, Placed, Apart;
    assert !InChain(ch, t);
    hide ChainOk;
    forall r | r in ch
      ensures ChainOk(s', ch[r])
    {
      ChainFrame(s, s', ch[r]);
    }
    CreateOutside(s, ch, t, th);
    CreateTops(s, ch, t, th);
  }

  lemma CreateOutside(s: Sys, ch: Chains, t: nat, th: Thread)
    requires OutsideOk(s, ch) && IsNew(s, t, th)
    ensures OutsideOk(Create(s, t, th), ch)
  {
    hide InChain;
  }

  lemma CreateTops(s: Sys, ch: Chains, t: nat, th: Thread)
    requires Shape(s) && Within(s, ch) && TopsPlaced(s, ch) && IsNew(s, t, th)
    ensures var s' := Create(s, t, th);
            Shape(s') && Within(s', ch) && TopsPlaced(s', ch)
  {
    CreateShape(s, t, th);
    hide Placed, Shape;
  }

  lemma CreateRoots(s: Sys, ch: Chains, t: nat, th: Thread)
    requires RootsOk(s, ch) && IsNew(s, t, th) && !InChain(ch, t) && Within(s, ch)
    ensures RootsOk(Create(s, t, th), ch)
  {
    RootInChain(s, ch, t);
    hide Within, InChain;
  }

  lemma CreateGood(s: Sys, ch: Chains, t: nat, th: Thread)
    requires Good(Config(s, ch)) && IsNew(s, t, th)
    ensures Good(Config(Create(s, t, th), ch)) && !InChain(ch, t) && Unengaged(Create(s, t, th), t)
  {
    hide IdleOk, QueuesOk, ReadyOk, LimitsOk, CurrentOkAt, Placed, Apart, InChain, OutsideOk, TopsPlaced,
         ChainOk, RootsOk, Within, Shape;
    CreateShape(s, t, th);
    CreateInv(s, t, th);
    CreateChained(s, ch, t, th);
    CreateRoots(s, ch, t, th);
  }

  lemma ConnectGood(s: Sys, ch: Chains, cn: nat, v: nat, stack: nat)
    requires Good(Config(s, ch)) && cn !in s.conns && v in s.threads && s.threads[v].kind == Shadow
    ensures Good(Config(s.(conns := s.conns[cn := Conn(None, v, stack)]), ch))
  {
    hide ChainOk, Placed, Apart, TopsPlaced, OutsideOk, IdleOk, QueuesOk, ReadyOk, LimitsOk, CurrentOkAt;
    var conns := s.conns[cn := Conn(None, v, stack)];
    ConnectInv(s, conns);
    ConnectRest(s, ch, conns);
    ConnectChains(s, ch, cn, conns[cn]);
    hide Inv, Within;
  }

  lemma ConnectChains(s: Sys, ch: Chains, cn: nat, conn: Conn)
    requires Within(s, ch) && (forall r :: r in ch ==> ChainOk(s, ch[r])) && cn !in s.conns
    ensures var s' := s.(conns := s.conns[cn := conn]);
            forall r :: r in ch ==> ChainOk(s', ch[r])
  {
    hide ChainOk;
    forall r | r in ch
      ensures ChainOk(s.(conns := s.conns[cn := conn]), ch[r])
    {
      ChainFrame(s, s.(conns := s.conns[cn := conn]), ch[r]);
    }
  }

  lemma ConnectRest(s: Sys, ch: Chains, conns: map<nat, Conn>)
    requires var s' := s.(conns := conns);
             && Shape(s) && Shape(s') && Within(s, ch) && OutsideOk(s, ch) && TopsPlaced(s, ch)
             && forall t :: Placed(s', t) <==> Placed(s, t)
    ensures var s' := s.(conns := conns);
            Within(s', ch) && OutsideOk(s', ch) && TopsPlaced(s', ch)
  {
    hide Placed, InChain, Shape;
    var s' := s.(conns := conns);
    assert OutsideOk(s', ch) && Within(s', ch);
    hide OutsideOk;
  }

  lemma ConnectInv(s: Sys, conns: map<nat, Conn>)
    requires Inv(s)
    ensures Inv(s.(conns := conns)) && forall t :: Placed(s.(conns := conns), t) <==> Placed(s, t)
  {
    var s' := s.(conns := conns);
    assert Shape(s') && IdleOk(s') && QueuesOk(s') && ReadyOk(s') && LimitsOk(s');
    hide IdleOk, QueuesOk, ReadyOk, LimitsOk;
    forall d | 0 <= d < CPUS
      ensures CurrentOkAt(s', d)
    {
      assert CurrentOkAt(s, d);
    }
  }

  // A new client joins a queue, as a chain of its own.

  lemma JoinPlaces(s: Sys, s': Sys, t: nat, k: nat, x: nat)
    requires Shape(s) && Joined(s, s', t, k)
    ensures Shape(s') && (Placed(s', x) <==> Placed(s, x) || x == t)
  {
    JoinShape(s, s', t, k);
    hide Joined, Shape;
    assert s'.current == s.current by {
      JoinCurrent(s, s', t, k);
    }
    assert t in s'.queues[k];
  }

  lemma JoinCurrent(s: Sys, s': Sys, t: nat, k: nat)
    requires Shape(s) && Joined(s, s', t, k)
    ensures s'.current == s.current && s'.conns == s.conns && s'.threads.Keys == s.threads.Keys && k < CPUS
    ensures forall x :: x in s.threads && x != t ==> s'.threads[x] == s.threads[x]
    ensures s'.threads[t] == s.threads[t].(state := TsReady, cpuid := k)
  {
  }

  lemma StartMembers(ch: Chains, t: nat)
    requires Apart(ch) && !InChain(ch, t) && t !in ch
    ensures Apart(ch[t := [t]]) && forall x :: InChain(ch[t := [t]], x) <==> InChain(ch, x) || x == t
  {
    var ch' := ch[t := [t]];
    assert forall q, i :: q in ch && 0 <= i < |ch[q]| ==> ch[q][i] in ch[q] && ch[q][i] != t;
    forall x
      ensures InChain(ch', x) <==> InChain(ch, x) || x == t
    {
      if InChain(ch, x) {
        var r :| r in ch && x in ch[r];
        assert r in ch' && x in ch'[r];
      }
      if x == t {
        assert t in ch' && t in ch'[t];
      }
    }
  }

  /** t, outside all chains, was started: all else is as it was. */
  ghost predicate Begun(s: Sys, s': Sys, ch: Chains, t: nat) {
    && t in s.threads && !InChain(ch, t) && s.threads[t].kind != Idle && s.threads[t].active == None
    && s'.threads.Keys == s.threads.Keys && s'.conns == s.conns
    && (forall x :: x in s.threads && x != t ==> s'.threads[x] == s.threads[x])
    && s'.threads[t] == s.threads[t].(state := TsReady, cpuid := s'.threads[t].cpuid)
  }

  lemma BeginWithin(s: Sys, s': Sys, ch: Chains, t: nat)
    requires Within(s, ch) && Begun(s, s', ch, t)
    ensures Within(s', ch[t := [t]])
  {
    hide InChain;
  }

  lemma BeginOutside(s: Sys, s': Sys, ch: Chains, t: nat)
    requires OutsideOk(s, ch) && Begun(s, s', ch, t)
    requires forall x :: InChain(ch[t := [t]], x) <==> InChain(ch, x) || x == t
    ensures OutsideOk(s', ch[t := [t]])
  {
    hide InChain;
  }

  lemma BeginChain(s: Sys, s': Sys, ch: Chains, t: nat, r: nat)
    requires Within(s, ch) && Begun(s, s', ch, t) && r in ch && ChainOk(s, ch[r])
    ensures (forall i :: 0 <= i < |ch[r]| ==> ch[r][i] in s'.threads) && ChainOk(s', ch[r])
  {
    hide ChainOk;
    forall i | 0 <= i < |ch[r]|
      ensures ch[r][i] != t
    {
      assert ch[r][i] in ch[r];
    }
    ChainFrame(s, s', ch[r]);
  }

  lemma BeginOwn(s: Sys, s': Sys, ch: Chains, t: nat)
    requires Begun(s, s', ch, t)
    ensures t in s'.threads && ChainOk(s', [t])
  {
    hide InChain;
  }

  lemma BeginKinds(s: Sys, s': Sys, ch: Chains, t: nat)
    requires Begun(s, s', ch, t)
    ensures s'.threads.Keys == s.threads.Keys && forall x :: x in s.threads ==> s'.threads[x].kind == s.threads[x].kind
  {
    hide InChain;
  }

  lemma JoinBegun(s: Sys, s': Sys, ch: Chains, t: nat, k: nat)
    requires Shape(s) && Joined(s, s', t, k) && !InChain(ch, t) && s.threads[t].kind != Idle
             && s.threads[t].active == None
    ensures Begun(s, s', ch, t)
  {
    hide InChain;
  }

  lemma StartChained(s: Sys, s': Sys, ch: Chains, t: nat, k: nat)
    requires Sound(s, ch) && Joined(s, s', t, k) && Shape(s') && !InChain(ch, t) && t !in ch
    requires s.threads[t].kind != Idle && s.threads[t].active == None
    ensures Chained(s', ch[t := [t]])
  {
    hide IdleOk, QueuesOk, ReadyOk, LimitsOk, CurrentOkAt, Placed, Apart, InChain, OutsideOk, TopsPlaced,
         ChainOk, Begun;
    JoinBegun(s, s', ch, t, k);
    StartMembers(ch, t);
    BeginWithin(s, s', ch, t);
    BeginOutside(s, s', ch, t);
    BeginKinds(s, s', ch, t);
    BeginOwn(s, s', ch, t);
    forall x
      ensures Placed(s', x) <==> Placed(s, x) || x == t
    {
      JoinPlaces(s, s', t, k, x);
    }
    StartTops(s, s', ch, t);
    forall r | r in ch
      ensures ChainOk(s', ch[r])
    {
      BeginChain(s, s', ch, t, r);
    }
  }

  lemma StartTops(s: Sys, s': Sys, ch: Chains, t: nat)
    requires Shape(s) && Shape(s') && Within(s, ch) && Within(s', ch[t := [t]]) && TopsPlaced(s, ch) && t !in ch
    requires s'.threads.Keys == s.threads.Keys && forall x :: x in s.threads ==> s'.threads[x].kind == s.threads[x].kind
    requires forall x :: Placed(s', x) <==> Placed(s, x) || x == t
    ensures TopsPlaced(s', ch[t := [t]])
  {
    hide Shape, Placed;
    var ch' := ch[t := [t]];
    assert Top(ch'[t]) == t;
    forall x | x in s'.threads && s'.threads[x].kind != Idle && Placed(s', x)
      ensures exists q :: q in ch' && Top(ch'[q]) == x
    {
      if x != t {
        var q :| q in ch && Top(ch[q]) == x;
        assert q in ch' && Top(ch'[q]) == x;
      }
    }
  }

  lemma StartRoots(s: Sys, s': Sys, ch: Chains, t: nat, k: nat)
    requires Shape(s) && RootsOk(s, ch) && Joined(s, s', t, k) && IsClient(s.threads[t].kind)
    ensures RootsOk(s', ch[t := [t]])
  {
  }

  lemma RootInChain(s: Sys, ch: Chains, r: nat)
    requires Within(s, ch)
    ensures r in ch ==> InChain(ch, r)
  {
    assert r in ch ==> ch[r][0] in ch[r];
  }

  lemma StartGood(s: Sys, ch: Chains, c: nat, t: nat)
    requires Good(Config(s, ch)) && c < CPUS && t in s.threads && IsClient(s.threads[t].kind)
    requires !InChain(ch, t) && Unengaged(s, t) && s.threads[t].state == TsInit
    ensures Good(Config(Enqueue(s, c, t), ch[t := [t]]))
  {
    var s' := Enqueue(s, c, t);
    var k := Assigned(s.threads[t], c);
    assert NO_AFF <= s.threads[t].affinity < CPUS;
    assert Joined(s, s', t, k);
    RootInChain(s, ch, t);
    StartInv(s, c, t);
    hide Inv, Enqueue, Assigned, Placed;
    StartChained(s, s', ch, t, k);
    hide Sound, Chained;
    StartRoots(s, s', ch, t, k);
  }

  lemma StartInv(s: Sys, c: nat, t: nat)
    requires Inv(s) && c < CPUS && t in s.threads && IsClient(s.threads[t].kind) && s.threads[t].state == TsInit
             && !Placed(s, t)
    ensures Inv(Enqueue(s, c, t))
  {
    var s', k := Enqueue(s, c, t), Assigned(s.threads[t], c);
    assert NO_AFF <= s.threads[t].affinity < CPUS;
    JoinQueues(s, s', t, k);
    forall d | 0 <= d < CPUS
      ensures CurrentOkAt(s', d)
    {
      assert CurrentOkAt(s, d);
    }
    hide QueuesOk, ReadyOk;
  }

  // Calls and returns.

  lemma CallGood(s: Sys, ch: Chains, c: nat, cn: nat, arg: nat)
    requires Good(Config(s, ch)) && MayCall(s, c, cn)
    ensures Good(Config(Call(s, c, cn, arg), CallChains(s, ch, c, cn)))
  {
    CallKeeps(s, ch, c, cn, arg);
    CallEffect(s, c, cn, arg);
    CurrentIsTop(s, ch, c);
    hide Inv, Chained, Call, CallChains, ChainOf, MayCall;
    CallChainsIs(s, ch, c, cn);
    CallRoots(s, Call(s, c, cn, arg), ch, CallChains(s, ch, c, cn), s.current[c].value, s.conns[cn].target, c, cn, arg);
  }

  lemma CallRoots(s: Sys, s': Sys, ch: Chains, ch': Chains, t: nat, v: nat, c: nat, cn: nat, arg: nat)
    requires Shape(s) && RootsOk(s, ch) && Called(s, s', t, v, c, cn, arg) && ch'.Keys == ch.Keys
    ensures RootsOk(s', ch')
  {
  }

  lemma ReturnRoots(s: Sys, s': Sys, ch: Chains, ch': Chains, t: nat, u: nat, c: nat, cn: nat, ret: nat)
    requires Shape(s) && RootsOk(s, ch) && Returned(s, s', t, u, c, cn, ret) && ch'.Keys == ch.Keys
    ensures RootsOk(s', ch')
  {
  }

  lemma ReturnGood(s: Sys, ch: Chains, c: nat, ret: nat)
    requires Good(Config(s, ch)) && MayReturn(s, c)
    ensures (CallerBelow(s, ch, c); Good(Config(Return(s, c, ret), ReturnChains(s, ch, c))))
  {
    hide ReturnChains, ChainOf, Placed, IdleOk, QueuesOk, ReadyOk, LimitsOk, CurrentOkAt, ChainOk, InChain,
         OutsideOk, TopsPlaced, Returned, RootsOk;
    CallerBelow(s, ch, c);
    var t := s.current[c].value;
    var r := ChainOf(ch, t);
    var u := ch[r][|ch[r]| - 2];
    ReturnFacts(s, ch, c, r, u, ret);
    ReturnKeeps(s, ch, c, ret);
    ReturnChainsIs(s, ch, c);
    ReturnRoots(s, Return(s, c, ret), ch, ReturnChains(s, ch, c), t, u, c, s.threads[t].active.value, ret);
  }

  /** Every step keeps everything. */
  lemma StepKeeps(p: Config, e: Event)
    requires Good(p) && Enabled(p, e)
    ensures Good(Step(p, e))
  {
    var s, ch := p.sys, p.chains;
    hide IdleOk, QueuesOk, ReadyOk, LimitsOk, CurrentOkAt, Chained, RootsOk, Interrupt, Yield, CalledOut,
         ReturnedBack, Enqueue, Placed, InChain, Create, Unengaged;
    match e {
      case Timer(c) => InterruptGood(s, ch, c, true);
      case Device(c) => InterruptGood(s, ch, c, false);
      case YieldCall(c) => YieldGood(s, ch, c);
      case Execute(c, pc, stack, arg) => ExecuteGood(s, ch, c, pc, stack, arg);
      case SetAffinity(t, aff) => AffinityGood(s, ch, t, aff);
      case Spawn(c, t, kind, b, pc, stack, arg, aff) => SpawnGood(s, ch, c, t, Fresh(kind, b, pc, stack, arg, aff));
      case AddServer(t, b, handler) => CreateGood(s, ch, t, Fresh(Shadow, b, handler, 0, 0, NO_AFF));
      case Connect(cn, v, stack) => ConnectGood(s, ch, cn, v, stack);
      case CallOut(c, cn, arg) => CallOutGood(p, c, cn, arg);
      case ReturnBack(c, ret) => ReturnBackGood(p, c, ret);
    }
  }

  lemma CallOutGood(p: Config, c: nat, cn: nat, arg: nat)
    requires Good(p) && Callable(p, c, cn)
    ensures Good(CalledOut(p, c, cn, arg))
  {
    CallableMayCall(p, c, cn);
    hide Inv, Chained, MayCall, Call, CallChains;
    CallGood(p.sys, p.chains, c, cn, arg);
  }

  lemma ReturnBackGood(p: Config, c: nat, ret: nat)
    requires Good(p) && InUser(p.sys, c)
    ensures Good(ReturnedBack(p, c, ret))
  {
    hide IdleOk, QueuesOk, ReadyOk, LimitsOk, CurrentOkAt, Chained, RootsOk, Return, ReturnChains, ChainOf, Placed;
    if p.sys.threads[p.sys.current[c].value].active.Some? {
      ReturnGood(p.sys, p.chains, c, ret);
    }
  }

  lemma ExecuteGood(s: Sys, ch: Chains, c: nat, pc: nat, stack: nat, arg: nat)
    requires Good(Config(s, ch)) && InUser(s, c)
    ensures Good(Config(Executed(s, c, pc, stack, arg), ch))
  {
    var t := s.current[c].value;
    hide Chained, RootsOk, Placed, QueuesOk, IdleOk, ReadyOk, CurrentOkAt;
    RegistersGood(s, ch, t, s.threads[t].(ip := pc, sp := stack, x0 := arg));
  }

  lemma AffinityGood(s: Sys, ch: Chains, t: nat, aff: int)
    requires Good(Config(s, ch)) && t in s.threads && NO_AFF <= aff
    ensures Good(Config(Affinity(s, t, aff), ch))
  {
    hide Chained, RootsOk, Inv;
    if aff < CPUS {
      RegistersGood(s, ch, t, s.threads[t].(affinity := aff));
    }
  }

  lemma SpawnGood(s: Sys, ch: Chains, c: nat, t: nat, th: Thread)
    requires Good(Config(s, ch)) && IsNew(s, t, th) && IsClient(th.kind) && c < CPUS
    ensures Good(Config(Enqueue(Create(s, t, th), c, t), ch[t := [t]]))
  {
    CreateGood(s, ch, t, th);
    hide Inv, Chained, RootsOk, InChain, Enqueue, Unengaged;
    StartGood(Create(s, t, th), ch, c, t);
  }

  /** A sequence of events, each possible when its turn comes. */
  ghost predicate Runs(p: Config, es: seq<Event>)
    requires Good(p)
    decreases |es|
  {
    es == [] || (Enabled(p, es[0]) && (StepKeeps(p, es[0]); Runs(Step(p, es[0]), es[1..])))
  }

  ghost function After(p: Config, es: seq<Event>): (p': Config)
    requires Good(p) && Runs(p, es)
    ensures Good(p')
    decreases |es|
  {
    if es == [] then p
    else
      StepKeeps(p, es[0]);
      After(Step(p, es[0]), es[1..])
  }

  // Boot.

  /** rr_sched_init: empty queues, no current threads, an idle thread for each CPU. */
  ghost predicate Boot(s: Sys) {
    && |s.queues| == |s.current| == |s.idle| == CPUS
    && (forall c :: 0 <= c < CPUS ==> s.queues[c] == [] && s.current[c] == None)
    && (forall c, d :: 0 <= c < d < CPUS ==> s.idle[c] != s.idle[d])
    && (forall c :: 0 <= c < CPUS ==>
          && s.idle[c] in s.threads && s.threads[s.idle[c]].kind == Idle && s.threads[s.idle[c]].state == TsInit
          && s.threads[s.idle[c]].active == None && s.threads[s.idle[c]].affinity == c)
    && (forall t :: t in s.threads ==> t in s.idle && s.threads[t].sc in s.budget)
    && (forall b :: b in s.budget ==> s.budget[b] == DEFAULT_BUDGET)
    && s.conns == map[]
  }

  /** The system starts good; so, by After, it is good after every run. */
  lemma BootGood(s: Sys)
    requires Boot(s)
    ensures Good(Config(s, map[]))
  {
    assert Shape(s) && IdleOk(s) && QueuesOk(s) && ReadyOk(s) && LimitsOk(s);
    hide IdleOk, QueuesOk, ReadyOk, LimitsOk;
  }

  /**
    * The first call of a new server over a new connection: the handler runs on the caller's CPU, on the stack of the
    * connection, with the argument, in the caller's scheduling context.
    */
  lemma FirstCall(p: Config, v: nat, b: nat, handler: nat, cn: nat, stack: nat, c: nat, arg: nat)
    requires Good(p) && Enabled(p, AddServer(v, b, handler)) && cn !in p.sys.conns && InUser(p.sys, c)
    ensures var p1 := Step(p, AddServer(v, b, handler));
            && Good(p1) && Enabled(p1, Connect(cn, v, stack)) && var p2 := Step(p1, Connect(cn, v, stack));
            && Good(p2) && Enabled(p2, CallOut(c, cn, arg)) && var s' := Step(p2, CallOut(c, cn, arg)).sys;
            && s'.current == p.sys.current[c := Some(v)] && v in s'.threads
            && var u := p.sys.current[c].value;
            && u in p.sys.threads && s'.threads[v] ==
               Thread(TsRunning, Shadow, -1, c, p.sys.threads[u].sc, Some(cn), handler, arg, handler, stack)
            && s'.conns == p.sys.conns[cn := Conn(Some(u), v, stack)]
  {
    hide IdleOk, QueuesOk, ReadyOk, LimitsOk, CurrentOkAt, Chained, RootsOk, Call;
    var p1 := Step(p, AddServer(v, b, handler));
    StepKeeps(p, AddServer(v, b, handler));
    var p2 := Step(p1, Connect(cn, v, stack));
    StepKeeps(p1, Connect(cn, v, stack));
    CallServes(p2.sys, c, cn, arg);
  }
}
