/** Runs in which callers keep no rule: what becomes of a thread that nothing leads to any more. */
module IpcStrays {
  import opened Wrappers
  import opened SchedModel
  import opened SchedLaws
  import opened IpcChain
  import opened IpcRuns

  /** Connections lead to shadow threads, and whoever serves a call knows a thread to return to. */
  ghost predicate Wired(s: Sys) {
    && Shape(s)
    && (forall cn :: cn in s.conns ==> s.conns[cn].target in s.threads && s.threads[s.conns[cn].target].kind == Shadow)
    && forall t :: t in s.threads && s.threads[t].active.Some? ==>
         var cn := s.threads[t].active.value;
         cn in s.conns && s.conns[cn].source.Some? && s.conns[cn].source.value in s.threads
  }

  /** What may happen when busy servers may be called and any number set as affinity. */
  ghost predicate Possible(s: Sys, e: Event)
    requires Wired(s)
  {
    match e
    case Timer(c) => c < CPUS
    case Device(c) => c < CPUS
    case YieldCall(c) => InUser(s, c)
    case Execute(c, _, _, _) => InUser(s, c)
    case SetAffinity(t, _) => t in s.threads
    case Spawn(c, t, kind, b, _, _, _, _) => c < CPUS && IsClient(kind) && t !in s.threads && b !in s.budget
    case AddServer(t, b, _) => t !in s.threads && b !in s.budget
    case Connect(cn, v, _) => cn !in s.conns && v in s.threads && s.threads[v].kind == Shadow
    case CallOut(c, cn, _) => InUser(s, c) && cn in s.conns
    case ReturnBack(c, _) => InUser(s, c)
  }

  ghost function Happens(s: Sys, e: Event): Sys
    requires Wired(s) && Possible(s, e)
  {
    match e
    case Timer(c) => Interrupt(s, c, true)
    case Device(c) => Interrupt(s, c, false)
    case YieldCall(c) => Yield(s, c)
    case Execute(c, pc, stack, arg) => Executed(s, c, pc, stack, arg)
    case SetAffinity(t, aff) => Affinity(s, t, aff)
    case Spawn(c, t, kind, b, pc, stack, arg, aff) => Enqueue(Create(s, t, Fresh(kind, b, pc, stack, arg, aff)), c, t)
    case AddServer(t, b, handler) => Create(s, t, Fresh(Shadow, b, handler, 0, 0, NO_AFF))
    case Connect(cn, v, stack) => s.(conns := s.conns[cn := Conn(None, v, stack)])
    case CallOut(c, cn, arg) => Call(s, c, cn, arg)
    case ReturnBack(c, ret) => Return(s, c, ret)
  }

  /** Thread u has no place, is no idle thread, and nobody serves a call of it. */
  ghost predicate Stranded(s: Sys, u: nat)
    requires Shape(s)
  {
    && u in s.threads && u !in s.idle && !Placed(s, u)
    && forall t :: t in s.threads && s.threads[t].active.Some? ==>
         var cn := s.threads[t].active.value; cn in s.conns ==> s.conns[cn].source != Some(u)
  }

  /** Nobody calls thread u. */
  ghost predicate Avoids(s: Sys, e: Event, u: nat) {
    e.CallOut? && e.cn in s.conns ==> s.conns[e.cn].target != u
  }

  /** The thread as it was, whatever its affinity. */
  ghost predicate SameThread(s: Sys, s': Sys, u: nat) {
    u in s.threads && u in s'.threads && s'.threads[u] == s.threads[u].(affinity := s'.threads[u].affinity)
  }

  /** The scheduler at work, as u sees it: threads changed state and CPU, u did not, and u got no place. */
  ghost predicate PassedBy(s: Sys, s': Sys, u: nat)
    requires Shape(s)
  {
    && Shape(s') && s'.threads.Keys == s.threads.Keys && s'.conns == s.conns && s'.idle == s.idle
    && (forall t :: t in s.threads ==>
       s'.threads[t] == s.threads[t].(state := s'.threads[t].state, cpuid := s'.threads[t].cpuid))
    && (u in s.threads && u !in s.idle && !Placed(s, u) ==> s'.threads[u] == s.threads[u] && !Placed(s', u))
  }

  lemma BudgetPasses(s: Sys, b: map<nat, nat>, u: nat)
    requires Shape(s) && s.budget.Keys <= b.Keys
    ensures PassedBy(s, s.(budget := b), u)
  {
  }

  lemma TickPasses(s: Sys, c: nat, u: nat)
    requires Shape(s) && c < CPUS
    ensures PassedBy(s, Tick(s, c), u)
  {
    BudgetPasses(s, Tick(s, c).budget, u);
  }

  lemma PassedTwice(s: Sys, s1: Sys, s2: Sys, u: nat)
    requires Shape(s) && PassedBy(s, s1, u) && PassedBy(s1, s2, u)
    ensures PassedBy(s, s2, u)
  {
    hide Shape, Placed;
  }

  lemma RequeuePasses(s: Sys, c: nat, u: nat)
    requires Shape(s) && c < CPUS
    ensures PassedBy(s, Requeue(s, c), u)
  {
    RequeueShape(s, c);
    if s.current[c].Some? && Accepts(s.threads[s.current[c].value], c) {
      var t := s.current[c].value;
      JoinShape(s, Requeue(s, c), t, Assigned(s.threads[t], c));
    }
  }

  lemma DispatchPasses(s: Sys, c: nat, u: nat)
    requires Shape(s) && c < CPUS
    ensures var t := Chosen(s, c);
            && t in s.threads && t in Choose(s, c).threads
            && PassedBy(s, SwitchTo(Refill(Choose(s, c), t), c, t), u)
  {
    var t := Chosen(s, c);
    assert s.queues[c] != [] ==> s.queues[c] == [s.queues[c][0]] + s.queues[c][1..] && t in s.queues[c];
  }

  lemma SchedPasses(s: Sys, c: nat, u: nat)
    requires Shape(s) && c < CPUS
    ensures PassedBy(s, Sched(s, c), u)
  {
    hide Placed, Requeue;
    if Keeps(s, c) {
      BudgetPasses(s, s.budget, u);
    } else {
      RequeuePasses(s, c, u);
      DispatchPasses(Requeue(s, c), c, u);
      PassedTwice(s, Requeue(s, c), Reschedule(s, c), u);
    }
  }

  lemma InterruptPasses(s: Sys, c: nat, timer: bool, u: nat)
    requires Shape(s) && c < CPUS
    ensures PassedBy(s, Interrupt(s, c, timer), u)
  {
    hide Placed, Sched;
    BudgetPasses(s, s.budget, u);
    TickPasses(s, c, u);
    var s1 := if timer then Tick(s, c) else s;
    TickPasses(s1, c, u);
    SchedPasses(Tick(s1, c), c, u);
    PassedTwice(s, s1, Tick(s1, c), u);
    PassedTwice(s, Tick(s1, c), Interrupt(s, c, timer), u);
  }

  lemma YieldPasses(s: Sys, c: nat, u: nat)
    requires Shape(s) && c < CPUS
    ensures PassedBy(s, Yield(s, c), u)
  {
    hide Placed, Sched;
    BudgetPasses(s, Spend(s, c).budget, u);
    SchedPasses(Spend(s, c), c, u);
    PassedTwice(s, Spend(s, c), Yield(s, c), u);
  }

  lemma PassedWired(s: Sys, s': Sys, u: nat)
    requires Wired(s) && PassedBy(s, s', u)
    ensures Wired(s') && (Stranded(s, u) ==> Stranded(s', u) && SameThread(s, s', u))
  {
    hide Shape, Placed;
  }

  /** A thread's registers or affinity change. */
  lemma RegistersStray(s: Sys, t: nat, th: Thread, u: nat)
    requires Wired(s) && t in s.threads
    requires th == s.threads[t].(ip := th.ip, sp := th.sp, x0 := th.x0, affinity := th.affinity)
    ensures var s' := s.(threads := s.threads[t := th]);
            && Wired(s') && (Stranded(s, u) ==> Stranded(s', u))
  {
  }

  lemma ExecuteStray(s: Sys, c: nat, pc: nat, stack: nat, arg: nat, u: nat)
    requires Wired(s) && InUser(s, c)
    ensures var s' := Executed(s, c, pc, stack, arg);
            Wired(s') && (Stranded(s, u) ==> Stranded(s', u) && SameThread(s, s', u))
  {
    var t := s.current[c].value;
    RegistersStray(s, t, s.threads[t].(ip := pc, sp := stack, x0 := arg), u);
  }

  lemma AffinityStray(s: Sys, t: nat, aff: int, u: nat)
    requires Wired(s) && t in s.threads
    ensures var s' := Affinity(s, t, aff);
            Wired(s') && (Stranded(s, u) ==> Stranded(s', u) && SameThread(s, s', u))
  {
    RegistersStray(s, t, s.threads[t].(affinity := aff), u);
    hide Wired, Stranded;
  }

  lemma CreateStray(s: Sys, t: nat, th: Thread, u: nat)
    requires Wired(s) && t !in s.threads && th.sc !in s.budget && th.active == None
    ensures var s' := Create(s, t, th);
            Wired(s') && (Stranded(s, u) ==> Stranded(s', u) && SameThread(s, s', u) && u != t)
  {
  }

  lemma EnqueueStray(s: Sys, c: nat, t: nat, u: nat)
    requires Wired(s) && c < CPUS && t in s.threads
    ensures var s' := Enqueue(s, c, t);
            Wired(s') && (Stranded(s, u) && u != t ==> Stranded(s', u) && SameThread(s, s', u))
  {
    if Accepts(s.threads[t], c) {
      JoinShape(s, Enqueue(s, c, t), t, Assigned(s.threads[t], c));
    }
  }

  lemma ConnectStray(s: Sys, cn: nat, v: nat, stack: nat, u: nat)
    requires Wired(s) && cn !in s.conns && v in s.threads && s.threads[v].kind == Shadow
    ensures var s' := s.(conns := s.conns[cn := Conn(None, v, stack)]);
            Wired(s') && (Stranded(s, u) ==> Stranded(s', u) && SameThread(s, s', u))
  {
  }

  /** The current thread changes on CPU c, and with it threads t and v; u is neither. */
  lemma HandoverStray(s: Sys, s1: Sys, c: nat, t: nat, v: nat, u: nat)
    requires Shape(s) && c < CPUS && s.current[c] == Some(t) && v in s.threads && s1.threads.Keys == s.threads.Keys
    requires s1.queues == s.queues && s1.current == s.current && s1.idle == s.idle && s1.budget == s.budget
    requires forall x :: x in s1.threads ==> s1.threads[x].sc in s.budget
    requires forall x :: x in s.threads && x != t && x != v ==> s1.threads[x] == s.threads[x]
    ensures var s' := SwitchTo(s1, c, v);
            && Shape(s') && s'.idle == s.idle && s'.conns == s1.conns && s'.threads.Keys == s.threads.Keys
            && (forall x :: x in s1.threads ==>
                  s'.threads[x] == s1.threads[x].(state := s'.threads[x].state, cpuid := s'.threads[x].cpuid))
            && (u in s.threads && !Placed(s, u) && u != v ==> !Placed(s', u) && s'.threads[u] == s.threads[u])
  {
  }

  /** A step after which every connection and every active thread is as before, or leads back to a thread but u. */
  ghost predicate Relinked(s: Sys, s': Sys, u: nat) {
    && s'.idle == s.idle && s'.threads.Keys == s.threads.Keys && s'.conns.Keys == s.conns.Keys
    && (forall x :: x in s.threads ==> s'.threads[x].kind == s.threads[x].kind)
    && (forall cn :: cn in s.conns ==>
          && s'.conns[cn].target == s.conns[cn].target
          && (s'.conns[cn].source == s.conns[cn].source || LeadsBack(s', cn, u)))
    && forall x :: x in s.threads ==>
         var a := s'.threads[x].active;
         a == None || a == s.threads[x].active || (a.value in s'.conns && LeadsBack(s', a.value, u))
  }

  ghost predicate LeadsBack(s: Sys, cn: nat, u: nat)
    requires cn in s.conns
  {
    var w := s.conns[cn].source; w.Some? && w.value in s.threads && w != Some(u)
  }

  lemma LinksWired(s: Sys, s': Sys, u: nat)
    requires Wired(s) && Shape(s') && Relinked(s, s', u)
    ensures Wired(s')
  {
    hide Shape;
  }

  lemma LinksStray(s: Sys, s': Sys, u: nat)
    requires Wired(s) && Shape(s') && Relinked(s, s', u)
    ensures Wired(s') && (Stranded(s, u) && !Placed(s', u) ==> Stranded(s', u))
  {
    LinksWired(s, s', u);
    hide Shape, Placed;
  }

  lemma CallRelinks(s: Sys, c: nat, cn: nat, arg: nat, u: nat)
    requires Wired(s) && InUser(s, c) && cn in s.conns && s.current[c] != Some(u)
    ensures Relinked(s, Call(s, c, cn, arg), u)
  {
    hide Placed;
  }

  lemma CallPlaces(s: Sys, c: nat, cn: nat, arg: nat, u: nat)
    requires Wired(s) && InUser(s, c) && cn in s.conns
    ensures var s' := Call(s, c, cn, arg);
            && Shape(s')
            && (Stranded(s, u) ==> s.current[c] != Some(u))
            && (Stranded(s, u) && s.conns[cn].target != u ==> !Placed(s', u) && SameThread(s, s', u))
  {
    var t, v := s.current[c].value, s.conns[cn].target;
    var threads := s.threads[t := s.threads[t].(state := TsWaiting)];
    var server := threads[v].(active := Some(cn), sp := s.conns[cn].stackTop, ip := threads[v].callback, x0 := arg,
                              sc := s.threads[t].sc);
    var s1 := s.(conns := s.conns[cn := s.conns[cn].(source := Some(t))], threads := threads[v := server]);
    HandoverStray(s, s1, c, t, v, u);
    assert Call(s, c, cn, arg) == SwitchTo(s1, c, v);
  }

  lemma CallStray(s: Sys, c: nat, cn: nat, arg: nat, u: nat)
    requires Wired(s) && InUser(s, c) && cn in s.conns
    ensures var s' := Call(s, c, cn, arg);
            Wired(s') && (Stranded(s, u) && s.conns[cn].target != u ==> Stranded(s', u) && SameThread(s, s', u))
  {
    hide Call, Relinked, Placed, SameThread;
    CallPlaces(s, c, cn, arg, u);
    var w := if Stranded(s, u) then u else s.current[c].value + 1;
    CallRelinks(s, c, cn, arg, w);
    LinksStray(s, Call(s, c, cn, arg), w);
  }

  lemma ReturnRelinks(s: Sys, c: nat, ret: nat, u: nat)
    requires Wired(s) && InUser(s, c)
    ensures Relinked(s, Return(s, c, ret), u)
  {
    hide Placed;
  }

  lemma ReturnPlaces(s: Sys, c: nat, ret: nat, u: nat)
    requires Wired(s) && InUser(s, c)
    ensures var s' := Return(s, c, ret);
            Shape(s') && (Stranded(s, u) ==> !Placed(s', u) && SameThread(s, s', u))
  {
    var t := s.current[c].value;
    if s.threads[t].active.Some? {
      var w := s.conns[s.threads[t].active.value].source.value;
      var threads := s.threads[t := s.threads[t].(active := None)];
      var s1 := s.(threads := threads[w := threads[w].(x0 := ret)]);
      HandoverStray(s, s1, c, t, w, u);
      assert Return(s, c, ret) == SwitchTo(s1, c, w);
    }
  }

  lemma ReturnStray(s: Sys, c: nat, ret: nat, u: nat)
    requires Wired(s) && InUser(s, c)
    ensures var s' := Return(s, c, ret);
            Wired(s') && (Stranded(s, u) ==> Stranded(s', u) && SameThread(s, s', u))
  {
    hide Return, Relinked, Placed, SameThread;
    ReturnPlaces(s, c, ret, u);
    ReturnRelinks(s, c, ret, u);
    LinksStray(s, Return(s, c, ret), u);
  }

  /** One step leaves a stranded thread stranded, unless it is called itself. */
  lemma StrandedStays(s: Sys, e: Event, u: nat)
    requires Wired(s) && Possible(s, e)
    ensures Wired(Happens(s, e))
    ensures Stranded(s, u) && Avoids(s, e, u) ==> Stranded(Happens(s, e), u) && SameThread(s, Happens(s, e), u)
  {
    hide Wired, Stranded, Interrupt, Yield, Executed, Affinity, Create, Enqueue, Call, Return, InUser;
    assert Shape(s) && (Stranded(s, u) ==> u in s.threads) by {
      WiredShape(s, u);
    }
    match e {
      case Timer(c) =>
        InterruptPasses(s, c, true, u);
        PassedWired(s, Interrupt(s, c, true), u);
      case Device(c) =>
        InterruptPasses(s, c, false, u);
        PassedWired(s, Interrupt(s, c, false), u);
      case YieldCall(c) =>
        UserCpu(s, c);
        YieldPasses(s, c, u);
        PassedWired(s, Yield(s, c), u);
      case Execute(c, pc, stack, arg) => ExecuteStray(s, c, pc, stack, arg, u);
      case SetAffinity(t, aff) => AffinityStray(s, t, aff, u);
      case Spawn(c, t, kind, b, pc, stack, arg, aff) =>
        SpawnStray(s, c, t, Fresh(kind, b, pc, stack, arg, aff), u);
      case AddServer(t, b, handler) => CreateStray(s, t, Fresh(Shadow, b, handler, 0, 0, NO_AFF), u);
      case Connect(cn, v, stack) => ConnectStray(s, cn, v, stack, u);
      case CallOut(c, cn, arg) => CallStray(s, c, cn, arg, u);
      case ReturnBack(c, ret) => ReturnStray(s, c, ret, u);
    }
  }

  lemma WiredShape(s: Sys, u: nat)
    requires Wired(s)
    ensures Shape(s) && (Stranded(s, u) ==> u in s.threads && !Placed(s, u))
  {
  }

  lemma UserCpu(s: Sys, c: nat)
    requires Shape(s) && InUser(s, c)
    ensures c < CPUS
  {
  }

  lemma SpawnStray(s: Sys, c: nat, t: nat, th: Thread, u: nat)
    requires Wired(s) && t !in s.threads && th.sc !in s.budget && th.active == None && c < CPUS
    ensures Wired(Create(s, t, th)) && t in Create(s, t, th).threads
    ensures var s' := Enqueue(Create(s, t, th), c, t);
            Wired(s') && (Stranded(s, u) ==> Stranded(s', u) && SameThread(s, s', u))
  {
    hide Shape, Placed, Enqueue;
    CreateStray(s, t, th, u);
    EnqueueStray(Create(s, t, th), c, t, u);
  }

  // Runs.

  ghost predicate FreeRuns(s: Sys, es: seq<Event>)
    requires Wired(s)
    decreases |es|
  {
    es == [] || (Possible(s, es[0]) && (StrandedStays(s, es[0], 0); FreeRuns(Happens(s, es[0]), es[1..])))
  }

  ghost function FreeAfter(s: Sys, es: seq<Event>): (s': Sys)
    requires Wired(s) && FreeRuns(s, es)
    ensures Wired(s')
    decreases |es|
  {
    if es == [] then s
    else
      StrandedStays(s, es[0], 0);
      FreeAfter(Happens(s, es[0]), es[1..])
  }

  /** Nobody calls u in the run. */
  ghost predicate AvoidsAll(s: Sys, es: seq<Event>, u: nat)
    requires Wired(s) && FreeRuns(s, es)
    decreases |es|
  {
    es == [] || (Avoids(s, es[0], u) && (StrandedStays(s, es[0], 0); AvoidsAll(Happens(s, es[0]), es[1..], u)))
  }

  /** A stranded thread stays where it is and what it is, waiting if it waits, until it is called itself. */
  lemma {:induction false} StrandedForever(s: Sys, es: seq<Event>, u: nat)
    requires Wired(s) && FreeRuns(s, es) && Stranded(s, u) && AvoidsAll(s, es, u)
    ensures Stranded(FreeAfter(s, es), u) && SameThread(s, FreeAfter(s, es), u)
    decreases |es|
  {
    hide Wired, Stranded, Possible, Happens, Avoids;
    if es == [] {
      SameStranded(s, u);
    } else {
      StrandedStays(s, es[0], u);
      StrandedForever(Happens(s, es[0]), es[1..], u);
    }
  }

  lemma SameStranded(s: Sys, u: nat)
    requires Wired(s) && Stranded(s, u)
    ensures SameThread(s, s, u)
  {
  }

  lemma HappensKinds(s: Sys, e: Event, u: nat)
    requires Wired(s) && Possible(s, e) && Stranded(s, u) && s.threads[u].kind != Shadow
    ensures Avoids(s, e, u)
  {
  }

  /** Only shadow threads are called: any other thread, once stranded, is stranded for ever. */
  lemma {:induction false} ClientStrandedForever(s: Sys, es: seq<Event>, u: nat)
    requires Wired(s) && FreeRuns(s, es) && Stranded(s, u) && s.threads[u].kind != Shadow
    ensures AvoidsAll(s, es, u)
    ensures Stranded(FreeAfter(s, es), u) && SameThread(s, FreeAfter(s, es), u)
    decreases |es|
  {
    hide Wired, Stranded, Possible, Happens, Avoids;
    if es == [] {
      SameStranded(s, u);
    } else {
      WiredShape(s, u);
      HappensKinds(s, es[0], u);
      StrandedStays(s, es[0], u);
      ClientStrandedForever(Happens(s, es[0]), es[1..], u);
    }
  }
}
