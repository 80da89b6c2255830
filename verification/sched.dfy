/** The round-robin scheduler and the IPC migration paths, as the kernel runs them. */
module Sched {
  import opened Sequences
  import opened Wrappers
  import opened SchedModel
  import opened SchedLaws
  import opened IpcChain

  const EINVAL: int := 5

  lemma RemoveLast(q: seq<nat>, t: nat)
    requires t !in q
    ensures Remove(q + [t], t) == q
  {
    assert InsertAt(q, |q|, t) == q + [t];
    RemoveInserted(q, |q|, t);
  }

  /** rr_sched_dequeue of a thread that may be queued. */
  function Dequeue(s: Sys, t: nat): Sys
    requires Shape(s) && t in s.threads
  {
    var k := s.threads[t].cpuid;
    if s.threads[t].state != TsReady || s.threads[t].kind == Idle || k >= CPUS then s
    else
      s.(queues := s.queues[k := Remove<nat>(s.queues[k], t)],
         threads := s.threads[t := s.threads[t].(state := TsInter)])
  }

  /** Dequeueing takes the thread off its queue, disturbs no other thread, and keeps the invariant. */
  lemma DequeueKeeps(s: Sys, t: nat)
    requires Inv(s) && t in s.threads && s.threads[t].state == TsReady
    ensures Inv(Dequeue(s, t)) && !Placed(Dequeue(s, t), t)
  {
    var s', k := Dequeue(s, t), s.threads[t].cpuid;
    assert t in s.queues[k];
    RemoveOk(s.queues[k], t);
    forall d | 0 <= d < CPUS
      ensures s.current[d] != Some(t)
    {
      assert CurrentOkAt(s, d);
    }
    assert forall d :: 0 <= d < CPUS ==> s'.queues[d] == if d == k then Remove(s.queues[d], t) else s.queues[d];
    assert forall d :: 0 <= d < CPUS && d != k ==> t !in s.queues[d];
    DequeueParts(s, s', t, k);
    hide IdleOk, QueuesOk, ReadyOk, LimitsOk;
    forall d | 0 <= d < CPUS
      ensures CurrentOkAt(s', d)
    {
      assert CurrentOkAt(s, d);
    }
  }

  lemma DequeueParts(s: Sys, s': Sys, t: nat, k: nat)
    requires Shape(s) && IdleOk(s) && QueuesOk(s) && ReadyOk(s) && LimitsOk(s) && t in s.threads && k < CPUS
             && s.threads[t].kind != Idle
    requires |s'.queues| == CPUS && Distinct(s'.queues[k])
    requires forall x :: x in s'.queues[k] <==> x in s.queues[k] && x != t
    requires forall d :: 0 <= d < CPUS && d != k ==> s'.queues[d] == s.queues[d] && t !in s.queues[d]
    requires s' == s.(queues := s'.queues, threads := s.threads[t := s.threads[t].(state := TsInter)])
    ensures Shape(s') && IdleOk(s') && QueuesOk(s') && ReadyOk(s') && LimitsOk(s')
  {
    hide Distinct, IdleOk, QueuesOk, ReadyOk, LimitsOk;
    assert Shape(s');
    LeaveQueues(s, s', t, k);
    LeaveReady(s, s', t, k);
    DequeueRest(s, s', t);
  }

  lemma DequeueRest(s: Sys, s': Sys, t: nat)
    requires Shape(s) && Shape(s') && IdleOk(s) && LimitsOk(s) && t in s.threads && s.threads[t].kind != Idle
    requires s'.threads == s.threads[t := s.threads[t].(state := TsInter)] && s'.idle == s.idle && s'.budget == s.budget
    ensures IdleOk(s') && LimitsOk(s')
  {
  }

  /** Dequeueing takes a thread out of its queue at its place i, and leaves it between queue and CPU. */
  lemma DequeueTakes(s: Sys, t: nat, k: nat, i: nat)
    requires Inv(s) && t in s.threads && k < CPUS && i < |s.queues[k]| && s.queues[k][i] == t
    ensures Dequeue(s, t) == s.(queues := s.queues[k := s.queues[k][..i] + s.queues[k][i + 1..]],
                                threads := s.threads[t := s.threads[t].(state := TsInter)])
  {
    assert t in s.queues[k] && Distinct(s.queues[k]);
    hide IdleOk, ReadyOk, LimitsOk, CurrentOkAt;
  }

  /** Dequeueing a thread right after enqueueing it gives back the old queues. */
  lemma DequeueUndoesEnqueue(s: Sys, c: nat, t: nat)
    requires Inv(s) && c < CPUS && t in s.threads && Accepts(s.threads[t], c) && !Placed(s, t)
    ensures Shape(Enqueue(s, c, t)) && Dequeue(Enqueue(s, c, t), t).queues == s.queues
  {
    var k := Assigned(s.threads[t], c);
    JoinShape(s, Enqueue(s, c, t), t, k);
    assert t !in s.queues[k];
    RemoveLast(s.queues[k], t);
  }

  /** The stores of a call, in the order of thread_migrate_to_server. */
  lemma CallIs(s: Sys, c: nat, cn: nat, arg: nat)
    requires Shape(s) && c < CPUS && s.current[c].Some? && cn in s.conns && s.conns[cn].target in s.threads
    requires s.threads[s.conns[cn].target].state != TsReady
    ensures var t, v := s.current[c].value, s.conns[cn].target;
            && t in s.threads && |s.current| == CPUS
            && var m1 := s.threads[v := s.threads[v].(active := Some(cn))];
               var m2 := m1[t := m1[t].(state := TsWaiting)];
               var m3 := m2[v := m2[v].(sp := s.conns[cn].stackTop, ip := m2[v].callback, x0 := arg)];
               var m4 := m3[v := m3[v].(sc := m3[t].sc)];
               && m4[v].state != TsReady
               && Call(s, c, cn, arg) ==
                  s.(threads := m4[v := Running(m4[v], c)], current := s.current[c := Some(v)],
                     conns := s.conns[cn := s.conns[cn].(source := Some(t))])
  {
    assert Shape(s);
  }

  class Scheduler {
    var threads: map<nat, Thread>
    var queues: seq<seq<nat>>
    var current: seq<Option<nat>>
    var budget: map<nat, nat>
    var conns: map<nat, Conn>
    const idle: seq<nat>

    function View(): Sys
      reads this
    {
      Sys(threads, queues, current, budget, conns, idle)
    }

    /** rr_sched_init, with the given idle threads and a scheduling context for each. */
    constructor (idleThreads: map<nat, Thread>, idleOf: seq<nat>, contexts: set<nat>)
      ensures View() ==
              Sys(idleThreads, [[], [], [], []], [None, None, None, None], map b | b in contexts :: DEFAULT_BUDGET,
                map[], idleOf)
    {
      threads, budget, conns, idle := idleThreads, map b | b in contexts :: DEFAULT_BUDGET, map[], idleOf;
      queues, current := [[], [], [], []], [None, None, None, None];
    }

    /** rr_sched_enqueue on CPU c; None stands for NULL. */
    method RrEnqueue(c: nat, thread: Option<nat>) returns (r: int)
      requires Shape(View()) && c < CPUS && (thread.Some? ==> thread.value in threads)
      modifies this`threads, this`queues
      ensures View() == if thread.Some? then SchedModel.Enqueue(old(View()), c, thread.value) else old(View())
      ensures r == 0 <==>
              thread.Some? && var x := old(threads)[thread.value];
              x.state != TsReady && (x.kind == Idle || -1 <= x.affinity <= 3)
      ensures r == 0 || r == -EINVAL
    {
      if thread == None {
        return -EINVAL;
      }
      var t := thread.value;
      if threads[t].state == TsReady {
        return -EINVAL;
      }
      if threads[t].kind == Idle {
        return 0;
      }
      var cpu: int := c;
      if threads[t].affinity != NO_AFF {
        cpu := threads[t].affinity;
        // The source compares an unsigned number, so a negative one is too big.
        if cpu < 0 || cpu >= CPUS {
          return -EINVAL;
        }
      }
      queues := queues[cpu := queues[cpu] + [t]];
      threads := threads[t := threads[t].(state := TsReady)];
      threads := threads[t := threads[t].(cpuid := cpu)];
      return 0;
    }

    /** rr_sched_dequeue. */
    method RrDequeue(thread: Option<nat>) returns (r: int)
      requires Shape(View()) && ReadyOk(View()) && (thread.Some? ==> thread.value in threads)
      modifies this`threads, this`queues
      ensures View() == if thread.Some? then Dequeue(old(View()), thread.value) else old(View())
      ensures r == if thread.Some? && old(threads)[thread.value].state == TsReady then 0 else -EINVAL
    {
      if thread == None || threads[thread.value].state != TsReady {
        return -EINVAL;
      }
      var t := thread.value;
      if threads[t].kind == Idle {
        return 0;
      }
      var k := threads[t].cpuid;
      assert k < CPUS;
      queues := queues[k := Remove<nat>(queues[k], t)];
      threads := threads[t := threads[t].(state := TsInter)];
      return 0;
    }

    /** rr_sched_choose_thread: with the invariant, the NULL result does not happen. */
    method RrChooseThread(c: nat) returns (thread: Option<nat>)
      requires InvBut(View(), c) && c < CPUS
      modifies this`threads, this`queues
      ensures thread == Some(Chosen(old(View()), c)) && View() == Choose(old(View()), c)
    {
      if queues[c] == [] {
        return Some(idle[c]);
      }
      var chosen := queues[c][0];
      assert chosen in queues[c];
      RemoveFirst<nat>(queues[c]);
      assert threads[chosen].state == TsReady && threads[chosen].cpuid == c && threads[chosen].kind != Idle;
      hide IdleOk, QueuesOk, LimitsOk, CurrentOkAt;
      var r := RrDequeue(Some(chosen));
      if r < 0 {
        return None;
      }
      return Some(chosen);
    }

    /** switch_to_thread; the source stops if the target is ready. */
    method SwitchToThread(c: nat, target: nat) returns (r: int)
      requires c < |current| && target in threads && threads[target].state != TsReady
      modifies this`threads, this`current
      ensures r == 0 && View() == SwitchTo(old(View()), c, target)
    {
      threads := threads[target := threads[target].(cpuid := c)];
      threads := threads[target := threads[target].(state := TsRunning)];
      current := current[c := Some(target)];
      return 0;
    }

    /** rr_sched always succeeds. */
    method RrSched(c: nat) returns (r: int)
      requires Inv(View()) && c < CPUS
      modifies this`threads, this`queues, this`current, this`budget
      ensures r == 0 && View() == SchedLaws.Sched(old(View()), c) && Inv(View())
    {
      ghost var s := View();
      RescheduleKeeps(s, c);
      if current[c].Some? && budget[threads[current[c].value].sc] != 0 {
        return 0;
      }
      RequeueKeeps(s, c);
      ChooseKeeps(Requeue(s, c), c);
      RequeueShape(s, c);
      hide IdleOk, QueuesOk, ReadyOk, LimitsOk, CurrentOkAt, SchedModel.Enqueue, Choose, Chosen;
      if current[c].Some? {
        var _ := RrEnqueue(c, current[c]);
      }
      var target := RrChooseThread(c);
      if target == None {
        return -EINVAL;
      }
      var t := target.value;
      budget := budget[threads[t].sc := DEFAULT_BUDGET];
      r := SwitchToThread(c, t);
    }

    /** rr_sched_handle_timer_irq. */
    method HandleTimerIrq(c: nat)
      requires Shape(View()) && c < CPUS
      modifies this`budget
      ensures View() == Tick(old(View()), c)
    {
      if current[c].Some? && budget[threads[current[c].value].sc] > 0 {
        var b := threads[current[c].value].sc;
        budget := budget[b := budget[b] - 1];
      }
    }

    /** handle_irq, after the lock: the timer's own handler ticks as well. */
    method HandleIrq(c: nat, timer: bool)
      requires Inv(View()) && c < CPUS
      modifies this`threads, this`queues, this`current, this`budget
      ensures View() == Interrupt(old(View()), c, timer) && Inv(View())
    {
      ghost var s := View();
      TickKeeps(s, c);
      hide IdleOk, QueuesOk, ReadyOk, LimitsOk, CurrentOkAt, Tick, SchedLaws.Sched;
      if timer {
        HandleTimerIrq(c);
      }
      TickKeeps(View(), c);
      HandleTimerIrq(c);
      var _ := RrSched(c);
    }

    /** sys_yield. */
    method SysYield(c: nat)
      requires Inv(View()) && c < CPUS
      modifies this`threads, this`queues, this`current, this`budget
      ensures View() == Yield(old(View()), c) && Inv(View())
    {
      BudgetKeeps(View(), Spend(View(), c).budget);
      if current[c].Some? {
        budget := budget[threads[current[c].value].sc := 0];
      }
      hide IdleOk, QueuesOk, ReadyOk, LimitsOk, CurrentOkAt, SchedLaws.Sched;
      var _ := RrSched(c);
    }

    /** arch_set_thread_stack, arch_set_thread_next_ip and arch_set_thread_arg. */
    method SetContext(t: nat, stack: nat, ip: nat, arg: nat)
      requires t in threads
      modifies this`threads
      ensures threads == old(threads)[t := old(threads)[t].(sp := stack, ip := ip, x0 := arg)]
    {
      threads := threads[t := threads[t].(sp := stack)];
      threads := threads[t := threads[t].(ip := ip)];
      threads := threads[t := threads[t].(x0 := arg)];
    }

    /** thread_migrate_to_server. */
    method MigrateToServer(c: nat, cn: nat, arg: nat)
      requires Shape(View()) && c < CPUS && current[c].Some? && cn in conns && conns[cn].target in threads
      requires threads[conns[cn].target].state != TsReady
      modifies this`threads, this`current, this`conns
      ensures View() == Call(old(View()), c, cn, arg)
    {
      hide Shape, Call;
      CallIs(View(), c, cn, arg);
      var t, target := current[c].value, conns[cn].target;
      conns := conns[cn := conns[cn].(source := Some(t))];
      threads := threads[target := threads[target].(active := Some(cn))];
      threads := threads[t := threads[t].(state := TsWaiting)];
      SetContext(target, conns[cn].stackTop, threads[target].callback, arg);
      threads := threads[target := threads[target].(sc := threads[t].sc)];
      var _ := SwitchToThread(c, target);
    }

    /** sys_ipc_return and thread_migrate_to_client: a thread that serves no call just goes on. */
    method SysIpcReturn(c: nat, ret: nat)
      requires Shape(View()) && c < CPUS && current[c].Some?
      requires var a := threads[current[c].value].active;
               a.Some? ==> a.value in conns && conns[a.value].source.Some? && conns[a.value].source.value in threads
                           && threads[conns[a.value].source.value].state != TsReady
      modifies this`threads, this`current
      ensures View() == Return(old(View()), c, ret)
    {
      var t := current[c].value;
      if threads[t].active == None {
        return;
      }
      var source := conns[threads[t].active.value].source.value;
      threads := threads[t := threads[t].(active := None)];
      threads := threads[source := threads[source].(x0 := ret)];
      var _ := SwitchToThread(c, source);
    }
  }
}
