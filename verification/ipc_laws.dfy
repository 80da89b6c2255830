/** What whole runs guarantee: exact ownership, bounded waiting, and calls that unwind in order. */
module IpcLaws {
  import opened Wrappers
  import opened SchedModel
  import opened SchedLaws
  import opened IpcChain
  import opened IpcRuns

  /** Of each chain exactly the top is running or queued; every caller below it waits; all share one context. */
  lemma ExactlyTheTopRuns(p: Config, r: nat, i: nat)
    requires Good(p) && r in p.chains && i < |p.chains[r]|
    ensures var t, q := p.chains[r][i], p.chains[r];
            && t in p.sys.threads
            && (Placed(p.sys, t) <==> i == |q| - 1)
            && (i < |q| - 1 ==> p.sys.threads[t].state == TsWaiting)
            && p.sys.threads[t].sc == p.sys.threads[r].sc
            && (i > 0 ==> Serves(p.sys, q[i - 1], t))
  {
    var s, ch := p.sys, p.chains;
    assert ChainOk(s, ch[r]);
    assert Placed(s, Top(ch[r]));
    hide Apart, OutsideOk, TopsPlaced, Placed;
    if i < |ch[r]| - 1 {
      WaitingNotPlaced(s, ch[r][i]);
    }
    assert i > 0 ==> Serves(s, ch[r][i - 1], ch[r][i]);
  }

  /** No client is ever lost: whatever happens, its chain goes on, and exactly one of its threads has a place. */
  lemma ClientsStay(p: Config, es: seq<Event>, r: nat)
    requires Good(p) && Runs(p, es) && r in p.chains
    ensures var s, ch := After(p, es).sys, After(p, es).chains;
            && r in ch && ch[r] != [] && ch[r][0] == r
            && forall i :: 0 <= i < |ch[r]| ==> ch[r][i] in s.threads && (Placed(s, ch[r][i]) <==> i == |ch[r]| - 1)
  {
    ChainsStay(p, es, r);
    var p' := After(p, es);
    forall i | 0 <= i < |p'.chains[r]|
      ensures var t := p'.chains[r][i]; t in p'.sys.threads && (Placed(p'.sys, t) <==> i == |p'.chains[r]| - 1)
    {
      ExactlyTheTopRuns(p', r, i);
    }
    hide Inv, Chained, RootsOk, Placed;
  }

  lemma {:induction false} ChainsStay(p: Config, es: seq<Event>, r: nat)
    requires Good(p) && Runs(p, es) && r in p.chains
    ensures r in After(p, es).chains && After(p, es).chains[r] != [] && After(p, es).chains[r][0] == r
    decreases |es|
  {
    hide Inv, Chained, RootsOk, Enabled, Step;
    if es == [] {
      ClientHeads(p, r);
    } else {
      StepKeeps(p, es[0]);
      ClientStays(p, es[0], r);
      ChainsStay(Step(p, es[0]), es[1..], r);
    }
  }

  lemma ClientHeads(p: Config, r: nat)
    requires Good(p) && r in p.chains
    ensures p.chains[r] != [] && p.chains[r][0] == r
  {
  }

  /** v came on top of t. */
  ghost predicate Pushed(ch: Chains, ch': Chains, t: nat, v: nat) {
    exists r :: r in ch && ch[r] != [] && Top(ch[r]) == t && ch' == ch[r := ch[r] + [v]]
  }

  /** The top t was taken off. */
  ghost predicate Popped(ch: Chains, ch': Chains, t: nat) {
    exists r :: r in ch && |ch[r]| >= 2 && Top(ch[r]) == t && ch' == ch[r := ch[r][..|ch[r]| - 1]]
  }

  lemma CallOutChains(p: Config, c: nat, cn: nat, arg: nat)
    requires Good(p) && Callable(p, c, cn)
    ensures Pushed(p.chains, CalledOut(p, c, cn, arg).chains, p.sys.current[c].value, p.sys.conns[cn].target)
  {
    var s, ch := p.sys, p.chains;
    hide Chained, IdleOk, QueuesOk, ReadyOk, LimitsOk, CurrentOkAt, Call, CallChains, ChainOf, RootsOk, MayCall;
    CallableMayCall(p, c, cn);
    CurrentIsTop(s, ch, c);
    CallChainsIs(s, ch, c, cn);
  }

  lemma ReturnBackChains(p: Config, c: nat, ret: nat)
    requires Good(p) && InUser(p.sys, c) && p.sys.threads[p.sys.current[c].value].active.Some?
    ensures Popped(p.chains, ReturnedBack(p, c, ret).chains, p.sys.current[c].value)
  {
    var s, ch := p.sys, p.chains;
    hide Chained, Return, ReturnChains, ChainOf, RootsOk, IdleOk, QueuesOk, ReadyOk, LimitsOk, CurrentOkAt, Placed;
    CallerBelow(s, ch, c);
    ReturnChainsIs(s, ch, c);
  }

  lemma ClientStays(p: Config, e: Event, r: nat)
    requires Good(p) && Enabled(p, e) && r in p.chains
    ensures r in Step(p, e).chains
  {
    hide Inv, Chained, RootsOk, Interrupt, Yield, CalledOut, Callable, InUser, Enqueue, Create, Affinity, Executed;
    if e.CallOut? {
      CallOutChains(p, e.c, e.cn, e.arg);
    } else if e.ReturnBack? {
      ReturnBackStays(p, e.c, e.ret, r);
    }
  }

  lemma ReturnBackStays(p: Config, c: nat, ret: nat, r: nat)
    requires Good(p) && InUser(p.sys, c) && r in p.chains
    ensures r in ReturnedBack(p, c, ret).chains
  {
    hide Chained, Return, ReturnChains, RootsOk, IdleOk, QueuesOk, ReadyOk, LimitsOk, CurrentOkAt, Placed;
    if p.sys.threads[p.sys.current[c].value].active.Some? {
      ReturnBackChains(p, c, ret);
    }
  }

  // Bounded waiting.

  /** t is at place k of queue c, or further ahead. */
  ghost predicate Queued(s: Sys, c: nat, t: nat, k: int)
    requires Shape(s) && c < CPUS
  {
    exists j :: 0 <= j <= k && j < |s.queues[c]| && s.queues[c][j] == t
  }

  ghost predicate OnCpu(s: Sys, c: nat, t: nat)
    requires Shape(s) && c < CPUS
  {
    s.current[c] == Some(t)
  }

  lemma RescheduleBrings(s: Sys, c: nat, d: nat, t: nat, k: int)
    requires Inv(s) && c < CPUS && d < CPUS && Queued(s, c, t, k)
    ensures Inv(Reschedule(s, d))
    ensures OnCpu(Reschedule(s, d), c, t) || Queued(Reschedule(s, d), c, t, if c == d then k - 1 else k)
  {
    RescheduleKeeps(s, d);
    var j :| 0 <= j <= k && j < |s.queues[c]| && s.queues[c][j] == t;
    RescheduleAdvances(s, c, d, j);
    hide Inv, Reschedule;
  }

  lemma SchedBrings(s: Sys, c: nat, d: nat, t: nat, k: int)
    requires Inv(s) && c < CPUS && d < CPUS && Queued(s, c, t, k)
    ensures Inv(Sched(s, d))
    ensures OnCpu(Sched(s, d), c, t) || Queued(Sched(s, d), c, t, if c == d && !Keeps(s, d) then k - 1 else k)
  {
    hide IdleOk, QueuesOk, ReadyOk, LimitsOk, CurrentOkAt, Reschedule, Queued;
    if !Keeps(s, d) {
      RescheduleBrings(s, c, d, t, k);
    }
  }

  /** A timer interrupt on the thread's CPU moves it one place ahead, or onto the CPU. */
  lemma InterruptBrings(s: Sys, c: nat, d: nat, timer: bool, t: nat, k: int)
    requires Inv(s) && c < CPUS && d < CPUS && Queued(s, c, t, k)
    ensures Inv(Interrupt(s, d, timer))
    ensures OnCpu(Interrupt(s, d, timer), c, t)
            || Queued(Interrupt(s, d, timer), c, t, if c == d && timer then k - 1 else k)
  {
    TwoTicksExhaust(s, d);
    hide IdleOk, QueuesOk, ReadyOk, LimitsOk, CurrentOkAt, Sched, Keeps;
    var s1 := if timer then Tick(s, d) else s;
    TickKeeps(s1, d);
    var s2 := Tick(s1, d);
    SchedBrings(s2, c, d, t, k);
    hide Tick;
    QueuedMonotone(Sched(s2, d), c, t, k);
  }

  lemma QueuedMonotone(s: Sys, c: nat, t: nat, k: int)
    requires Shape(s) && c < CPUS
    ensures Queued(s, c, t, k - 1) ==> Queued(s, c, t, k)
  {
  }

  lemma YieldBrings(s: Sys, c: nat, d: nat, t: nat, k: int)
    requires Inv(s) && c < CPUS && d < CPUS && Queued(s, c, t, k)
    ensures Inv(Yield(s, d)) && (OnCpu(Yield(s, d), c, t) || Queued(Yield(s, d), c, t, k))
  {
    BudgetKeeps(s, Spend(s, d).budget);
    hide IdleOk, QueuesOk, ReadyOk, LimitsOk, CurrentOkAt, Sched, Keeps;
    SchedBrings(Spend(s, d), c, d, t, k);
    QueuedMonotone(Sched(Spend(s, d), d), c, t, k);
  }

  /** A thread that waits on a queue stays there until its CPU takes it. */
  lemma QueueGrows(s: Sys, s': Sys, c: nat, t: nat, k: int)
    requires Shape(s) && Shape(s') && c < CPUS && Queued(s, c, t, k) && s.queues[c] <= s'.queues[c]
    ensures Queued(s', c, t, k)
  {
    var j :| 0 <= j <= k && j < |s.queues[c]| && s.queues[c][j] == t;
    assert s'.queues[c][j] == t;
  }

  lemma StepBrings(p: Config, e: Event, c: nat, t: nat, k: int)
    requires Good(p) && Enabled(p, e) && c < CPUS && Queued(p.sys, c, t, k)
    ensures Good(Step(p, e))
    ensures OnCpu(Step(p, e).sys, c, t) || Queued(Step(p, e).sys, c, t, if e == Timer(c) then k - 1 else k)
  {
    StepKeeps(p, e);
    var s := p.sys;
    hide Chained, RootsOk, IdleOk, QueuesOk, ReadyOk, LimitsOk, CurrentOkAt, Interrupt, Yield, CalledOut,
         ReturnedBack, Callable, Queued, Enqueue, Affinity, Executed, Create;
    match e {
      case Timer(d) => InterruptBrings(s, c, d, true, t, k);
      case Device(d) => InterruptBrings(s, c, d, false, t, k);
      case YieldCall(d) => YieldBrings(s, c, d, t, k);
      case _ =>
        QuietQueues(p, e, c);
        QueueGrows(s, Step(p, e).sys, c, t, k);
    }
  }

  /** Only the scheduler takes threads off a queue. */
  lemma QuietQueues(p: Config, e: Event, c: nat)
    requires Good(p) && Enabled(p, e) && c < CPUS && !e.Timer? && !e.Device? && !e.YieldCall?
    ensures |Step(p, e).sys.queues| == CPUS && p.sys.queues[c] <= Step(p, e).sys.queues[c]
  {
    hide Chained, RootsOk, IdleOk, QueuesOk, ReadyOk, LimitsOk, CurrentOkAt, Placed, MayCall, CallChains,
         ReturnChains;
    match e {
      case CallOut(d, cn, arg) => CallableMayCall(p, d, cn);
      case ReturnBack(d, ret) =>
        if p.sys.threads[p.sys.current[d].value].active.Some? {
          CallerBelow(p.sys, p.chains, d);
        }
      case _ =>
    }
  }

  /** How many timer interrupts CPU c gets. */
  function Timers(es: seq<Event>, c: nat): nat {
    if es == [] then 0 else (if es[0] == Timer(c) then 1 else 0) + Timers(es[1..], c)
  }

  /** At some point of the run, t is the current thread of CPU c. */
  ghost predicate Dispatched(p: Config, es: seq<Event>, c: nat, t: nat)
    requires Good(p) && Runs(p, es) && c < CPUS
    decreases |es|
  {
    OnCpu(p.sys, c, t) || (es != [] && (StepKeeps(p, es[0]); Dispatched(Step(p, es[0]), es[1..], c, t)))
  }

  /** Bounded waiting: at place k of queue c a thread runs after at most k + 1 timer interrupts on CPU c. */
  lemma {:induction false} BoundedWait(p: Config, es: seq<Event>, c: nat, t: nat, k: int)
    requires Good(p) && Runs(p, es) && c < CPUS && Queued(p.sys, c, t, k) && Timers(es, c) >= k + 1
    ensures Dispatched(p, es, c, t)
    decreases |es|
  {
    hide Chained, RootsOk, IdleOk, QueuesOk, ReadyOk, LimitsOk, CurrentOkAt, Enabled, Step, OnCpu;
    if es == [] {
    } else {
      StepBrings(p, es[0], c, t, k);
      var p' := Step(p, es[0]);
      if !OnCpu(p'.sys, c, t) {
        BoundedWait(p', es[1..], c, t, if es[0] == Timer(c) then k - 1 else k);
      }
    }
  }

  // Calls unwind last in, first out.

  /** x and y are one thread before and after, of which at most the affinity changed. */
  ghost predicate Untouched(x: Thread, y: Thread) {
    y == x.(affinity := y.affinity)
  }

  lemma InterruptLeaves(s: Sys, c: nat, timer: bool, u: nat)
    requires Inv(s) && c < CPUS && u in s.threads && s.threads[u].state == TsWaiting
    ensures u in Interrupt(s, c, timer).threads && Interrupt(s, c, timer).threads[u] == s.threads[u]
  {
    hide IdleOk, QueuesOk, ReadyOk, LimitsOk, CurrentOkAt, Reschedule, Keeps;
    var s1 := if timer then Tick(s, c) else s;
    TickKeeps(s, c);
    TickKeeps(s1, c);
    RescheduleThreads(Tick(s1, c), c, u);
  }

  lemma YieldLeaves(s: Sys, c: nat, u: nat)
    requires Inv(s) && c < CPUS && u in s.threads && s.threads[u].state == TsWaiting
    ensures u in Yield(s, c).threads && Yield(s, c).threads[u] == s.threads[u]
  {
    BudgetKeeps(s, Spend(s, c).budget);
    hide IdleOk, QueuesOk, ReadyOk, LimitsOk, CurrentOkAt, Reschedule, Keeps;
    RescheduleThreads(Spend(s, c), c, u);
  }

  lemma CallOutLeaves(p: Config, c: nat, cn: nat, arg: nat, u: nat)
    requires Good(p) && Callable(p, c, cn) && u in p.sys.threads && p.sys.threads[u].state == TsWaiting
    ensures u in CalledOut(p, c, cn, arg).sys.threads && CalledOut(p, c, cn, arg).sys.threads[u] == p.sys.threads[u]
  {
    CallableMayCall(p, c, cn);
    CurrentAlone(p.sys, c);
    hide Inv, Chained, RootsOk, Call, CallChains, Placed;
    CallEffect(p.sys, c, cn, arg);
  }

  /** The thread that the current thread of CPU c works for, if any, is the one below it. */
  lemma ReturnBackLeaves(p: Config, c: nat, ret: nat, r: nat, i: nat)
    requires Good(p) && InUser(p.sys, c) && r in p.chains && i < |p.chains[r]| - 1
    requires var ch' := ReturnedBack(p, c, ret).chains;
             r in ch' && |ch'[r]| > i + 1
    ensures var u, s' := p.chains[r][i], ReturnedBack(p, c, ret).sys;
            u in p.sys.threads && u in s'.threads && s'.threads[u] == p.sys.threads[u]
  {
    var s, ch := p.sys, p.chains;
    ExactlyTheTopRuns(p, r, i);
    hide IdleOk, QueuesOk, ReadyOk, LimitsOk, CurrentOkAt, ChainOk, OutsideOk, TopsPlaced, RootsOk, Return,
         ReturnChains, ChainOf;
    var t := s.current[c].value;
    if s.threads[t].active.Some? {
      CallerBelow(s, ch, c);
      var q := ChainOf(ch, t);
      var w := ch[q][|ch[q]| - 2];
      ReturnChainsIs(s, ch, c);
      ReturnEffect(s, c, w, ret);
      assert w != ch[r][i];
      assert t != ch[r][i];
    }
  }

  lemma OthersLeave(p: Config, e: Event, u: nat)
    requires Good(p) && Enabled(p, e) && u in p.sys.threads && p.sys.threads[u].state == TsWaiting && !Placed(p.sys, u)
    requires e.Execute? || e.SetAffinity? || e.Spawn? || e.AddServer? || e.Connect?
    ensures var s' := Step(p, e).sys;
            u in s'.threads && Untouched(p.sys.threads[u], s'.threads[u])
  {
    hide Chained, RootsOk, IdleOk, QueuesOk, ReadyOk, LimitsOk, CurrentOkAt;
    if e.Execute? {
      assert p.sys.current[e.c] != Some(u);
    }
  }

  /** A thread that waits in a chain is left alone until the chain shrinks back to it. */
  lemma StepLeaves(p: Config, e: Event, r: nat, i: nat)
    requires Good(p) && Enabled(p, e) && r in p.chains && i < |p.chains[r]| - 1
    requires var ch' := Step(p, e).chains;
             r in ch' && |ch'[r]| > i + 1
    ensures var u, s' := p.chains[r][i], Step(p, e).sys;
            u in p.sys.threads && u in s'.threads && Untouched(p.sys.threads[u], s'.threads[u])
  {
    var s, u := p.sys, p.chains[r][i];
    ExactlyTheTopRuns(p, r, i);
    hide Chained, RootsOk, IdleOk, QueuesOk, ReadyOk, LimitsOk, CurrentOkAt, Placed, Interrupt, Yield,
         CalledOut, ReturnedBack, Callable, Executed, Affinity, Create, Enqueue;
    match e {
      case Timer(c) => InterruptLeaves(s, c, true, u);
      case Device(c) => InterruptLeaves(s, c, false, u);
      case YieldCall(c) => YieldLeaves(s, c, u);
      case CallOut(c, cn, arg) => CallOutLeaves(p, c, cn, arg, u);
      case ReturnBack(c, ret) => ReturnBackLeaves(p, c, ret, r, i);
      case _ => OthersLeave(p, e, u);
    }
  }

  /** A chain keeps its first d threads while it stays longer than d. */
  lemma StepPrefix(p: Config, e: Event, r: nat, d: nat)
    requires Good(p) && Enabled(p, e) && r in p.chains && d < |p.chains[r]|
    requires r in Step(p, e).chains && d <= |Step(p, e).chains[r]|
    ensures Step(p, e).chains[r][..d] == p.chains[r][..d]
  {
    hide Inv, Chained, RootsOk, Interrupt, Yield, CalledOut, ReturnedBack, Callable, InUser, Enqueue, Create,
         Affinity, Executed;
    match e {
      case CallOut(c, cn, arg) => CallOutChains(p, c, cn, arg);
      case ReturnBack(c, ret) => ReturnBackPrefix(p, c, ret, r, d);
      case Spawn(c, t, kind, b, pc, stack, arg, aff) => RootIsThread(p, r);
      case _ =>
    }
  }

  lemma RootIsThread(p: Config, r: nat)
    requires Good(p) && r in p.chains
    ensures r in p.sys.threads
  {
    assert p.chains[r][0] == r;
  }

  lemma ReturnBackPrefix(p: Config, c: nat, ret: nat, r: nat, d: nat)
    requires Good(p) && InUser(p.sys, c) && r in p.chains && d < |p.chains[r]|
    requires r in ReturnedBack(p, c, ret).chains && d <= |ReturnedBack(p, c, ret).chains[r]|
    ensures ReturnedBack(p, c, ret).chains[r][..d] == p.chains[r][..d]
  {
    hide Chained, RootsOk, IdleOk, QueuesOk, ReadyOk, LimitsOk, CurrentOkAt, Placed, Return, ReturnChains;
    if p.sys.threads[p.sys.current[c].value].active.Some? {
      ReturnBackChains(p, c, ret);
    }
  }

  /** Throughout the run the chain of r is longer than d. */
  ghost predicate StaysAbove(p: Config, es: seq<Event>, r: nat, d: nat)
    requires Good(p) && Runs(p, es)
    decreases |es|
  {
    r in p.chains && |p.chains[r]| > d
      && (es != [] ==> (StepKeeps(p, es[0]); StaysAbove(Step(p, es[0]), es[1..], r, d)))
  }

  /** The first d threads of chain r are q, and are as they were in s. */
  ghost predicate SameBelow(s: Sys, p: Config, r: nat, q: seq<nat>) {
    && r in p.chains && |q| <= |p.chains[r]| && p.chains[r][..|q|] == q
    && forall i :: 0 <= i < |q| ==>
         q[i] in s.threads && q[i] in p.sys.threads && Untouched(s.threads[q[i]], p.sys.threads[q[i]])
  }

  lemma StepSameBelow(s: Sys, p: Config, e: Event, r: nat, q: seq<nat>)
    requires Good(p) && Enabled(p, e) && SameBelow(s, p, r, q) && |q| < |p.chains[r]|
    requires r in Step(p, e).chains && |q| < |Step(p, e).chains[r]|
    ensures SameBelow(s, Step(p, e), r, q)
  {
    hide Good, Enabled, Step;
    StepPrefix(p, e, r, |q|);
    forall i | 0 <= i < |q|
      ensures q[i] in Step(p, e).sys.threads && Untouched(p.sys.threads[q[i]], Step(p, e).sys.threads[q[i]])
    {
      assert q[i] == p.chains[r][i];
      StepLeaves(p, e, r, i);
    }
  }

  /** Whatever runs above them, the first threads of a chain are frozen. */
  lemma {:induction false} FrozenBelow(s: Sys, p: Config, es: seq<Event>, r: nat, q: seq<nat>)
    requires Good(p) && Runs(p, es) && SameBelow(s, p, r, q) && StaysAbove(p, es, r, |q|)
    ensures SameBelow(s, After(p, es), r, q) && |After(p, es).chains[r]| > |q|
    decreases |es|
  {
    if es == [] {
    } else {
      hide Good, Enabled, Step, SameBelow;
      StepKeeps(p, es[0]);
      var p' := Step(p, es[0]);
      assert StaysAbove(p', es[1..], r, |q|);
      StepSameBelow(s, p, es[0], r, q);
      FrozenBelow(s, p', es[1..], r, q);
    }
  }

  /** CPU c runs the top of chain r. */
  ghost predicate TopOn(p: Config, c: nat, r: nat)
    requires Good(p)
  {
    InUser(p.sys, c) && r in p.chains && p.chains[r] != [] && p.sys.current[c] == Some(Top(p.chains[r]))
  }

  /** From p to p1 the top t of chain r called v. */
  ghost predicate Started(p: Config, p1: Config, r: nat, t: nat, v: nat) {
    && r in p.chains && r in p1.chains && p1.chains[r] == p.chains[r] + [v]
    && t in p.sys.threads && t in p1.sys.threads && p1.sys.threads[t] == p.sys.threads[t].(state := TsWaiting)
  }

  /** From p to p' the top of chain r returned to t, below it. */
  ghost predicate Ended(p: Config, p': Config, r: nat, t: nat, c: nat, ret: nat) {
    && r in p.chains && r in p'.chains && |p.chains[r]| >= 2 && p'.chains[r] == p.chains[r][..|p.chains[r]| - 1]
    && t == p.chains[r][|p.chains[r]| - 2]
    && c < |p'.sys.current| && p'.sys.current[c] == Some(t)
    && t in p.sys.threads && t in p'.sys.threads
    && p'.sys.threads[t] == p.sys.threads[t].(state := TsRunning, cpuid := c, x0 := ret)
  }

  lemma CallStarts(p: Config, c: nat, cn: nat, arg: nat, r: nat)
    requires Good(p) && Callable(p, c, cn) && TopOn(p, c, r)
    ensures Started(p, CalledOut(p, c, cn, arg), r, p.sys.current[c].value, p.sys.conns[cn].target)
  {
    CallableMayCall(p, c, cn);
    CallOutChains(p, c, cn, arg);
    ChainedApart(p.sys, p.chains);
    hide Chained, RootsOk, Apart, Pushed, Call, CallChains, MayCall, Placed, IdleOk, QueuesOk, ReadyOk,
         LimitsOk, CurrentOkAt;
    CallEffect(p.sys, c, cn, arg);
    PushedOn(p.chains, CalledOut(p, c, cn, arg).chains, r, p.sys.conns[cn].target);
  }

  lemma PushedOn(ch: Chains, ch': Chains, r: nat, v: nat)
    requires Apart(ch) && r in ch && ch[r] != [] && Pushed(ch, ch', Top(ch[r]), v)
    ensures ch' == ch[r := ch[r] + [v]]
  {
    var q :| q in ch && ch[q] != [] && Top(ch[q]) == Top(ch[r]) && ch' == ch[q := ch[q] + [v]];
    SameTop(ch, q, r);
  }

  lemma PoppedOff(ch: Chains, ch': Chains, r: nat)
    requires Apart(ch) && r in ch && ch[r] != [] && Popped(ch, ch', Top(ch[r]))
    ensures ch' == ch[r := ch[r][..|ch[r]| - 1]]
  {
    var q :| q in ch && |ch[q]| >= 2 && Top(ch[q]) == Top(ch[r]) && ch' == ch[q := ch[q][..|ch[q]| - 1]];
    SameTop(ch, q, r);
  }

  lemma TopServes(p: Config, c: nat, r: nat)
    requires Good(p) && TopOn(p, c, r) && |p.chains[r]| >= 2
    ensures MayReturn(p.sys, c)
  {
    ExactlyTheTopRuns(p, r, |p.chains[r]| - 1);
    hide Inv, Chained, RootsOk;
  }

  lemma SameTop(ch: Chains, q: nat, r: nat)
    requires Apart(ch) && q in ch && r in ch && ch[q] != [] && ch[r] != [] && Top(ch[q]) == Top(ch[r])
    ensures q == r
  {
    assert ch[q][|ch[q]| - 1] == ch[r][|ch[r]| - 1];
  }

  lemma ReturnEndsThreads(p: Config, c: nat, ret: nat, u: nat)
    requires Good(p) && InUser(p.sys, c) && MayReturn(p.sys, c) && u in p.sys.threads && u != p.sys.current[c].value
    requires Serves(p.sys, u, p.sys.current[c].value)
    ensures var t := p.sys.current[c].value;
            Returned(p.sys, ReturnedBack(p, c, ret).sys, t, u, c, p.sys.threads[t].active.value, ret)
  {
    hide Chained, RootsOk, IdleOk, QueuesOk, ReadyOk, LimitsOk, CurrentOkAt, ReturnChains, Return, Placed;
    ReturnEffect(p.sys, c, u, ret);
  }

  lemma ReturnEndsChains(p: Config, c: nat, ret: nat, r: nat)
    requires Good(p) && TopOn(p, c, r) && MayReturn(p.sys, c)
    ensures ReturnedBack(p, c, ret).chains == p.chains[r := p.chains[r][..|p.chains[r]| - 1]]
  {
    ChainedApart(p.sys, p.chains);
    ReturnBackChains(p, c, ret);
    hide Inv, Chained, RootsOk, ReturnedBack, Apart, Popped;
    PoppedOff(p.chains, ReturnedBack(p, c, ret).chains, r);
  }

  lemma ReturnEnds(p: Config, c: nat, ret: nat, r: nat)
    requires Good(p) && TopOn(p, c, r) && |p.chains[r]| >= 2
    ensures Ended(p, ReturnedBack(p, c, ret), r, p.chains[r][|p.chains[r]| - 2], c, ret)
  {
    hide Chained, RootsOk, IdleOk, QueuesOk, ReadyOk, LimitsOk, CurrentOkAt, ReturnedBack, Placed, Serves, MayReturn;
    var q := p.chains[r];
    TopServes(p, c, r);
    ExactlyTheTopRuns(p, r, |q| - 1);
    ExactlyTheTopRuns(p, r, |q| - 2);
    ReturnEndsChains(p, c, ret, r);
    ReturnEndsThreads(p, c, ret, q[|q| - 2]);
  }

  lemma ChainedApart(s: Sys, ch: Chains)
    requires Sound(s, ch)
    ensures Apart(ch) && forall r :: r in ch ==> ch[r] != []
  {
  }

  /** In p' thread t is back on CPU c and on its chain as in p, with ret as the result of its call. */
  ghost predicate Resumed(p: Config, p': Config, r: nat, t: nat, c: nat, ret: nat) {
    && r in p.chains && r in p'.chains && p'.chains[r] == p.chains[r]
    && c < |p'.sys.current| && p'.sys.current[c] == Some(t)
    && t in p.sys.threads && t in p'.sys.threads
    && Untouched(p.sys.threads[t].(state := TsRunning, cpuid := c, x0 := ret), p'.sys.threads[t])
  }

  lemma ChainIsThreads(p: Config, r: nat)
    requires Good(p) && r in p.chains
    ensures forall i :: 0 <= i < |p.chains[r]| ==> p.chains[r][i] in p.sys.threads
  {
  }

  /** A prefix of a chain is as it is. */
  lemma PrefixSameBelow(p: Config, r: nat, n: nat)
    requires r in p.chains && n <= |p.chains[r]|
    requires forall i :: 0 <= i < |p.chains[r]| ==> p.chains[r][i] in p.sys.threads
    ensures SameBelow(p.sys, p, r, p.chains[r][..n])
  {
  }

  lemma StartSameBelow(p: Config, p1: Config, r: nat, t: nat, v: nat)
    requires Good(p1) && Started(p, p1, r, t, v)
    ensures SameBelow(p1.sys, p1, r, p.chains[r])
  {
    ChainIsThreads(p1, r);
    hide Good, SameBelow;
    PrefixSameBelow(p1, r, |p.chains[r]|);
    assert p1.chains[r][..|p.chains[r]|] == p.chains[r];
  }

  lemma Resumes(p: Config, p1: Config, p2: Config, p3: Config, r: nat, t: nat, v: nat, u: nat, c: nat, ret: nat)
    requires Started(p, p1, r, t, v) && Ended(p2, p3, r, u, c, ret) && p.chains[r] != [] && Top(p.chains[r]) == t
    requires SameBelow(p1.sys, p2, r, p.chains[r]) && |p2.chains[r]| == |p.chains[r]| + 1
    ensures Resumed(p, p3, r, t, c, ret)
  {
    var q := p.chains[r];
    assert p2.chains[r][..|q|][|q| - 1] == p2.chains[r][|q| - 1];
    assert q[|q| - 1] == t;
  }

  /**
    * A call is undone by its return: whatever runs in between, as long as the chain stays above the caller,
    * the caller goes on where it called, on its old chain, with the returned value.
    */
  lemma CallsUnwind(p: Config, c: nat, cn: nat, arg: nat, es: seq<Event>, c2: nat, ret: nat, r: nat)
    requires Good(p) && Callable(p, c, cn) && TopOn(p, c, r)
    requires Good(CalledOut(p, c, cn, arg)) && Runs(CalledOut(p, c, cn, arg), es)
    requires StaysAbove(CalledOut(p, c, cn, arg), es, r, |p.chains[r]|)
    requires var p2 := After(CalledOut(p, c, cn, arg), es);
             TopOn(p2, c2, r) && |p2.chains[r]| == |p.chains[r]| + 1
    ensures Resumed(p, ReturnedBack(After(CalledOut(p, c, cn, arg), es), c2, ret), r, p.sys.current[c].value, c2, ret)
  {
    var p1 := CalledOut(p, c, cn, arg);
    var p2 := After(p1, es);
    var t, v := p.sys.current[c].value, p.sys.conns[cn].target;
    hide Inv, Chained, RootsOk, CalledOut, ReturnedBack, Started, Ended, Resumed, SameBelow, StaysAbove, Runs, After;
    CallStarts(p, c, cn, arg, r);
    StartSameBelow(p, p1, r, t, v);
    FrozenBelow(p1.sys, p1, es, r, p.chains[r]);
    ReturnEnds(p2, c2, ret, r);
    Resumes(p, p1, p2, ReturnedBack(p2, c2, ret), r, t, v, p2.chains[r][|p2.chains[r]| - 2], c2, ret);
  }
}
