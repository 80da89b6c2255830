/** Rescheduling: what it keeps, what it conserves, and whom it dispatches. */
module SchedLaws {
  import opened Sequences
  import opened Wrappers
  import opened SchedModel

  /** Requeue the current thread, take the head of the queue or the idle thread, give it a full budget. */
  function Reschedule(s: Sys, c: nat): Sys
    requires Shape(s) && c < CPUS
  {
    var s1 := Requeue(s, c);
    RequeueShape(s, c);
    var t := Chosen(s1, c);
    assert s1.queues[c] != [] ==> s1.queues[c][0] in s1.queues[c];
    SwitchTo(Refill(Choose(s1, c), t), c, t)
  }

  function Sched(s: Sys, c: nat): Sys
    requires Shape(s) && c < CPUS
  {
    if Keeps(s, c) then s else Reschedule(s, c)
  }

  /** An interrupt ends with one tick and a call of the scheduler; a timer interrupt ticks before that. */
  function Interrupt(s: Sys, c: nat, timer: bool): Sys
    requires Shape(s) && c < CPUS
  {
    var s1 := if timer then Tick(s, c) else s;
    Sched(Tick(s1, c), c)
  }

  function Spend(s: Sys, c: nat): Sys
    requires Shape(s) && c < CPUS
  {
    if s.current[c] == None then s
    else s.(budget := s.budget[s.threads[s.current[c].value].sc := 0])
  }

  function Yield(s: Sys, c: nat): Sys
    requires Shape(s) && c < CPUS
  {
    Sched(Spend(s, c), c)
  }

  lemma RequeueShape(s: Sys, c: nat)
    requires Shape(s) && c < CPUS
    ensures Shape(Requeue(s, c))
    ensures var s' := Requeue(s, c);
            s'.current == s.current && s'.idle == s.idle && s'.budget == s.budget && s'.conns == s.conns
              && s'.threads.Keys == s.threads.Keys
  {
    if s.current[c].Some? && Accepts(s.threads[s.current[c].value], c) {
      var t := s.current[c].value;
      JoinShape(s, Requeue(s, c), t, Assigned(s.threads[t], c));
    }
  }

  /** A thread is on a ready queue or is the current thread of a CPU. */
  ghost predicate Placed(s: Sys, t: nat)
    requires Shape(s)
  {
    (exists k :: 0 <= k < CPUS && t in s.queues[k]) || (exists c :: 0 <= c < CPUS && s.current[c] == Some(t))
  }

  /** No thread is in two places, and queued threads are exactly the ready ones. */
  lemma PlacedOnce(s: Sys, t: nat, c: nat, d: nat)
    requires Inv(s) && t in s.threads && c < CPUS && d < CPUS
    ensures t in s.queues[c] && t in s.queues[d] ==> c == d
    ensures s.current[c] == Some(t) && s.current[d] == Some(t) ==> c == d
    ensures s.current[c] == Some(t) ==> t !in s.queues[d]
    ensures s.threads[t].state == TsReady <==> exists k :: 0 <= k < CPUS && t in s.queues[k]
    ensures t in s.queues[c] ==> s.threads[t].cpuid == c && s.threads[t].kind != Idle
  {
    assert CurrentOkAt(s, c) && CurrentOkAt(s, d);
  }

  /** The current thread of CPU c is current nowhere else. */
  lemma CurrentAlone(s: Sys, c: nat)
    requires Inv(s) && c < CPUS && s.current[c].Some?
    ensures forall d :: 0 <= d < CPUS && d != c ==> s.current[d] != s.current[c]
    ensures s.threads[s.current[c].value].state == TsRunning
  {
    forall d | 0 <= d < CPUS && d != c
      ensures s.current[d] != s.current[c]
    {
      assert CurrentOkAt(s, c) && CurrentOkAt(s, d);
    }
    assert CurrentOkAt(s, c);
  }

  lemma RequeueKeeps(s: Sys, c: nat)
    requires Inv(s) && c < CPUS
    ensures InvBut(Requeue(s, c), c)
  {
    if s.current[c].Some? {
      CurrentAlone(s, c);
      assert InvBut(s, c);
      hide Shape, IdleOk, QueuesOk, ReadyOk, LimitsOk, CurrentOkAt, Enqueue;
      EnqueueKeeps(s, c, s.current[c].value);
    }
  }

  lemma RefillKeeps(s: Sys, c: nat, t: nat)
    requires InvBut(s, c) && t in s.threads
    ensures InvBut(Refill(s, t), c)
  {
    var s' := Refill(s, t);
    forall d | 0 <= d < CPUS && d != c
      ensures CurrentOkAt(s', d)
    {
      assert CurrentOkAt(s, d);
    }
  }

  /** The scheduler keeps the invariant; there is always a thread to switch to. */
  lemma RescheduleKeeps(s: Sys, c: nat)
    requires Inv(s) && c < CPUS
    ensures Inv(Reschedule(s, c))
  {
    var s1 := Requeue(s, c);
    var t := Chosen(s1, c);
    RequeueKeeps(s, c);
    ChooseKeeps(s1, c);
    RefillKeeps(Choose(s1, c), c, t);
    hide IdleOk, QueuesOk, ReadyOk, LimitsOk, CurrentOkAt, Requeue, Inv;
    assert Choose(s1, c).current == s1.current;
    SwitchKeeps(Refill(Choose(s1, c), t), c, t);
  }

  lemma BudgetKeeps(s: Sys, b: map<nat, nat>)
    requires Inv(s) && b.Keys == s.budget.Keys && forall x :: x in b ==> b[x] <= DEFAULT_BUDGET
    ensures Inv(s.(budget := b))
  {
    var s' := s.(budget := b);
    forall d | 0 <= d < CPUS
      ensures CurrentOkAt(s', d)
    {
      assert CurrentOkAt(s, d);
    }
  }

  lemma TickKeeps(s: Sys, c: nat)
    requires Inv(s) && c < CPUS
    ensures Inv(Tick(s, c))
  {
    BudgetKeeps(s, Tick(s, c).budget);
  }

  /** Two ticks exhaust any budget the invariant allows. */
  lemma TwoTicksExhaust(s: Sys, c: nat)
    requires Inv(s) && c < CPUS
    ensures Inv(Tick(s, c)) && !Keeps(Tick(Tick(s, c), c), c)
  {
    TickKeeps(s, c);
  }

  /** The queues after rescheduling: the current thread joins its queue, the head leaves queue c. */
  lemma RescheduleQueues(s: Sys, c: nat)
    requires Inv(s) && c < CPUS
    ensures var s' := Reschedule(s, c);
            var q := Requeue(s, c).queues;
            && (forall d :: 0 <= d < CPUS && d != c ==> s'.queues[d] == q[d] && s'.current[d] == s.current[d])
            && s'.queues[c] == (if q[c] == [] then [] else q[c][1..])
            && s'.current[c] == Some(if q[c] == [] then s.idle[c] else q[c][0])
            && s'.idle == s.idle && s'.threads.Keys == s.threads.Keys
  {
    RequeueShape(s, c);
  }

  /** What the current thread of CPU c adds to queue k when it is requeued. */
  ghost function Addition(s: Sys, c: nat, k: nat): seq<nat>
    requires Shape(s) && c < CPUS
  {
    if s.current[c] == None then []
    else
      var t := s.threads[s.current[c].value];
      if t.kind != Idle && (t.affinity == k || (t.affinity == -1 && k == c)) then [s.current[c].value] else []
  }

  /**
    * What requeueing does to each queue: the current thread, unless it is idle, is added at the end of the queue that
    * its affinity names, or of queue c if its affinity is -1.
    */
  lemma RequeueQueues(s: Sys, c: nat)
    requires Inv(s) && c < CPUS
    ensures var q := Requeue(s, c).queues;
            && |q| == CPUS
            && forall k :: 0 <= k < CPUS ==> q[k] == s.queues[k] + Addition(s, c, k)
  {
    if s.current[c].Some? {
      CurrentAlone(s, c);
    }
  }

  /** A current thread that is not idle is in some queue after requeueing. */
  lemma RequeuePlaces(s: Sys, c: nat)
    requires Inv(s) && c < CPUS && s.current[c].Some? && s.threads[s.current[c].value].kind != Idle
    ensures var q := Requeue(s, c).queues;
            |q| == CPUS && exists k :: 0 <= k < CPUS && s.current[c].value in q[k]
  {
    RequeueQueues(s, c);
    var k := Assigned(s.threads[s.current[c].value], c);
    assert 0 <= k < CPUS;
    hide Requeue, IdleOk, QueuesOk, ReadyOk, LimitsOk, CurrentOkAt;
    assert s.current[c].value in Requeue(s, c).queues[k];
  }

  /** Conservation: rescheduling neither loses nor creates a place for any thread but idle threads. */
  lemma RescheduleConserves(s: Sys, c: nat, t: nat)
    requires Inv(s) && c < CPUS && t in s.threads && s.threads[t].kind != Idle
    ensures Inv(Reschedule(s, c)) && (Placed(Reschedule(s, c), t) <==> Placed(s, t))
  {
    RescheduleKeeps(s, c);
    RescheduleQueues(s, c);
    RequeueQueues(s, c);
    assert t != s.idle[c];
    hide QueuesOk, ReadyOk, IdleOk, LimitsOk, CurrentOkAt, Reschedule, Requeue, Assigned;
    if s.current[c] == Some(t) {
      RequeuePlaces(s, c);
    }
    assert forall k :: Addition(s, c, k) == [] || (s.current[c].Some? && Addition(s, c, k) == [s.current[c].value]);
    hide Addition, Placed;
    PlacedMoves(s, Reschedule(s, c), Requeue(s, c).queues, c, t);
  }

  /** The places of a thread before and after, given how the queues moved. */
  lemma PlacedMoves(s: Sys, s': Sys, q: seq<seq<nat>>, c: nat, t: nat)
    requires Shape(s) && Shape(s') && c < CPUS && |q| == CPUS && t != s.idle[c]
    requires forall k :: 0 <= k < CPUS ==>
               q[k] == s.queues[k] || (s.current[c].Some? && q[k] == s.queues[k] + [s.current[c].value])
    requires s.current[c] == Some(t) ==> exists k :: 0 <= k < CPUS && t in q[k]
    requires forall d :: 0 <= d < CPUS && d != c ==> s'.queues[d] == q[d] && s'.current[d] == s.current[d]
    requires s'.queues[c] == (if q[c] == [] then [] else q[c][1..])
    requires s'.current[c] == Some(if q[c] == [] then s.idle[c] else q[c][0])
    ensures Placed(s', t) <==> Placed(s, t)
  {
    assert q[c] != [] ==> q[c] == [q[c][0]] + q[c][1..];
    if Placed(s, t) {
      if s.current[c] == Some(t) {
        var k :| 0 <= k < CPUS && t in q[k];
        assert t in s'.queues[k] || s'.current[c] == Some(t);
      } else if k :| 0 <= k < CPUS && t in s.queues[k] {
        assert t in q[k];
        assert t in s'.queues[k] || s'.current[c] == Some(t);
      } else {
        var d :| 0 <= d < CPUS && s.current[d] == Some(t);
        assert s'.current[d] == Some(t);
      }
    }
    if Placed(s', t) {
      if k :| 0 <= k < CPUS && t in s'.queues[k] {
        assert t in q[k];
        assert t in s.queues[k] || s.current[c] == Some(t);
      } else {
        var d :| 0 <= d < CPUS && s'.current[d] == Some(t);
        assert d != c ==> s.current[d] == Some(t);
        assert d == c ==> t in q[c];
        assert d == c ==> t in s.queues[c] || s.current[c] == Some(t);
      }
    }
  }

  /** A thread at place p of queue c, after one step on CPU d that reschedules. */
  lemma RescheduleAdvances(s: Sys, c: nat, d: nat, p: nat)
    requires Inv(s) && c < CPUS && d < CPUS && p < |s.queues[c]|
    ensures var s' := Reschedule(s, d);
            if d != c then p < |s'.queues[c]| && s'.queues[c][p] == s.queues[c][p]
            else if p == 0 then s'.current[c] == Some(s.queues[c][0])
            else p - 1 < |s'.queues[c]| && s'.queues[c][p - 1] == s.queues[c][p]
  {
    RescheduleQueues(s, d);
    RequeueQueues(s, d);
    hide Inv, Reschedule, Requeue, Assigned;
  }

  // Budgets.

  /** Whom CPU c dispatches: the head of its queue, or else its current thread if that comes back, or else idle. */
  ghost function Next(s: Sys, c: nat): nat
    requires Shape(s) && c < CPUS
  {
    if s.queues[c] != [] then s.queues[c][0]
    else if Addition(s, c, c) != [] then s.current[c].value
    else s.idle[c]
  }

  /** Rescheduling dispatches that thread on CPU c with a budget of two ticks, and changes no other budget. */
  lemma RescheduleDispatches(s: Sys, c: nat)
    requires Inv(s) && c < CPUS
    ensures var t, s' := Next(s, c), Reschedule(s, c);
            && t in s.threads && t in s'.threads && |s'.current| == CPUS
            && s'.current[c] == Some(t) && s'.threads[t].state == TsRunning && s'.threads[t].cpuid == c
            && s'.threads[t].sc == s.threads[t].sc && s'.budget == s.budget[s.threads[t].sc := 2]
  {
    RescheduleQueues(s, c);
    RequeueQueues(s, c);
    DispatchedRuns(s, c);
    hide IdleOk, QueuesOk, ReadyOk, LimitsOk, CurrentOkAt, Reschedule, Requeue, Addition;
    assert s.queues[c] == [] ==> s.queues[c] + Addition(s, c, c) == Addition(s, c, c);
    AdditionIs(s, c);
  }

  lemma AdditionIs(s: Sys, c: nat)
    requires Shape(s) && c < CPUS
    ensures Addition(s, c, c) == [] || (s.current[c].Some? && Addition(s, c, c) == [s.current[c].value])
  {
  }

  lemma DispatchedRuns(s: Sys, c: nat)
    requires Inv(s) && c < CPUS
    ensures var s' := Reschedule(s, c);
            && s'.current[c].Some? && var t := s'.current[c].value;
            && t in s.threads && t in s'.threads && s'.threads[t].state == TsRunning && s'.threads[t].cpuid == c
            && s'.threads[t].sc == s.threads[t].sc && s'.budget == s.budget[s.threads[t].sc := 2]
  {
    var s1 := Requeue(s, c);
    RequeueShape(s, c);
    RequeueContexts(s, c);
    hide IdleOk, QueuesOk, ReadyOk, LimitsOk, CurrentOkAt, Requeue;
    assert s1.queues[c] != [] ==> s1.queues[c][0] in s1.queues[c];
    SwitchedRuns(s1, c);
  }

  lemma RequeueContexts(s: Sys, c: nat)
    requires Inv(s) && c < CPUS
    ensures Requeue(s, c).budget == s.budget
    ensures forall t :: t in s.threads && t in Requeue(s, c).threads ==> Requeue(s, c).threads[t].sc == s.threads[t].sc
  {
    hide Inv;
  }

  lemma SwitchedRuns(s1: Sys, c: nat)
    requires Shape(s1) && c < CPUS && Chosen(s1, c) in s1.threads
    ensures var t := Chosen(s1, c);
            && t in Choose(s1, c).threads && var s' := SwitchTo(Refill(Choose(s1, c), t), c, t);
            && s'.current[c] == Some(t) && s'.threads[t].state == TsRunning && s'.threads[t].cpuid == c
            && s'.threads[t].sc == s1.threads[t].sc && s'.budget == s1.budget[s1.threads[t].sc := 2]
  {
  }

  /** A thread that has budget left stays when the scheduler is called; otherwise the CPU is handed over. */
  lemma SchedExactly(s: Sys, c: nat)
    requires Inv(s) && c < CPUS
    ensures if s.current[c].Some? && s.budget[s.threads[s.current[c].value].sc] > 0 then Sched(s, c) == s
            else Sched(s, c) == Reschedule(s, c)
  {
  }

  /**
    * A device interrupt costs the current thread of the CPU one unit of budget: with more than one left it goes on, and
    * with its last one, as with none, it hands the CPU over. A timer interrupt always does.
    */
  lemma InterruptCosts(s: Sys, c: nat)
    requires Inv(s) && c < CPUS && s.current[c].Some?
    ensures var b := s.threads[s.current[c].value].sc;
            && (s.budget[b] > 1 ==> Interrupt(s, c, false) == s.(budget := s.budget[b := s.budget[b] - 1]))
            && (s.budget[b] <= 1 ==> Interrupt(s, c, false) == Reschedule(s.(budget := s.budget[b := 0]), c))
            && Interrupt(s, c, true) == Reschedule(s.(budget := s.budget[b := 0]), c)
  {
    hide IdleOk, QueuesOk, ReadyOk, CurrentOkAt, Reschedule;
    var b := s.threads[s.current[c].value].sc;
    assert s.budget[b] <= 2;
    assert s.budget[b := 1][b := 0] == s.budget[b := 0];
    assert s.budget[b] == 0 ==> s.budget[b := 0] == s.budget;
  }

  /** An interrupt of a CPU without a current thread costs nobody anything. */
  lemma InterruptStarts(s: Sys, c: nat, timer: bool)
    requires Inv(s) && c < CPUS && s.current[c] == None
    ensures Interrupt(s, c, timer) == Reschedule(s, c)
  {
    hide Reschedule;
  }

  /** A thread that yields gives up all its budget and the CPU: the head of the queue runs, if there is one. */
  lemma YieldHandsOver(s: Sys, c: nat)
    requires Inv(s) && c < CPUS && s.current[c].Some?
    ensures var b := s.threads[s.current[c].value].sc;
            Yield(s, c) == Reschedule(s.(budget := s.budget[b := 0]), c)
    ensures s.queues[c] != [] ==> |Yield(s, c).current| == CPUS && Yield(s, c).current[c] == Some(s.queues[c][0])
  {
    BudgetKeeps(s, Spend(s, c).budget);
    RescheduleDispatches(Spend(s, c), c);
    hide Inv, Reschedule;
  }
}
