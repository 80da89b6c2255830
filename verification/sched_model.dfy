/** Threads, per-CPU ready queues and IPC connections as a value, and the scheduler's invariant. */
module SchedModel {
  import opened Sequences
  import opened Wrappers

  const CPUS: nat := 4
  const DEFAULT_BUDGET: nat := 2
  const NO_AFF: int := -1

  datatype Status = TsInit | TsReady | TsInter | TsRunning | TsExit | TsWaiting | TsExiting
  datatype Kind = Idle | Root | User | Shadow | Kernel | Tests

  /** A thread and its context; `sc` names its scheduling context, which threads may share. */
  datatype Thread = Thread(
    state: Status, kind: Kind, affinity: int, cpuid: nat, sc: nat,
    active: Option<nat>, callback: nat, x0: nat, ip: nat, sp: nat)

  datatype Conn = Conn(source: Option<nat>, target: nat, stackTop: nat)

  datatype Sys = Sys(
    threads: map<nat, Thread>, queues: seq<seq<nat>>, current: seq<Option<nat>>,
    budget: map<nat, nat>, conns: map<nat, Conn>, idle: seq<nat>)

  /** Every name in the system names something, and every CPU has its idle thread. */
  ghost predicate Shape(s: Sys) {
    && |s.queues| == |s.current| == |s.idle| == CPUS
    && (forall c :: 0 <= c < CPUS ==> s.idle[c] in s.threads)
    && (forall c :: 0 <= c < CPUS && s.current[c].Some? ==> s.current[c].value in s.threads)
    && (forall k, t :: 0 <= k < CPUS && t in s.queues[k] ==> t in s.threads)
    && (forall t :: t in s.threads ==> s.threads[t].sc in s.budget)
  }

  ghost predicate IdleOk(s: Sys)
    requires Shape(s)
  {
    && (forall c :: 0 <= c < CPUS ==>
          var i := s.threads[s.idle[c]];
          i.kind == Idle && (i.state == TsInit || (i.state == TsRunning && i.cpuid == c)))
    && (forall t :: t in s.threads && s.threads[t].kind == Idle ==> t in s.idle)
    && (forall c, d :: 0 <= c < d < CPUS ==> s.idle[c] != s.idle[d])
  }

  /** What is in ready queue k is ready, assigned to CPU k, not an idle thread, and there once. */
  ghost predicate QueuesOk(s: Sys)
    requires Shape(s)
  {
    && (forall k, t :: 0 <= k < CPUS && t in s.queues[k] ==>
          s.threads[t].state == TsReady && s.threads[t].cpuid == k && s.threads[t].kind != Idle)
    && (forall k :: 0 <= k < CPUS ==> Distinct(s.queues[k]))
  }

  ghost predicate ReadyOk(s: Sys)
    requires Shape(s)
  {
    forall t :: t in s.threads && s.threads[t].state == TsReady ==>
      s.threads[t].cpuid < CPUS && t in s.queues[s.threads[t].cpuid]
  }

  /** The current thread of CPU d is running there. */
  ghost predicate CurrentOkAt(s: Sys, d: nat)
    requires Shape(s) && d < CPUS
  {
    s.current[d].Some? ==>
      var t := s.threads[s.current[d].value];
      t.state == TsRunning && t.cpuid == d && (t.kind == Idle ==> s.current[d].value == s.idle[d])
  }

  ghost predicate LimitsOk(s: Sys) {
    && (forall t :: t in s.threads ==> NO_AFF <= s.threads[t].affinity < CPUS)
    && (forall b :: b in s.budget ==> s.budget[b] <= DEFAULT_BUDGET)
  }

  /** The invariant, except for the current thread of CPU c. */
  ghost predicate InvBut(s: Sys, c: nat) {
    && Shape(s) && IdleOk(s) && QueuesOk(s) && ReadyOk(s) && LimitsOk(s)
    && forall d :: 0 <= d < CPUS && d != c ==> CurrentOkAt(s, d)
  }

  ghost predicate Inv(s: Sys) {
    InvBut(s, CPUS)
  }

  /** The queue that enqueueing on CPU c puts a thread in; any other number is refused. */
  function Assigned(t: Thread, c: nat): int {
    if t.affinity != NO_AFF then t.affinity else c
  }

  predicate Accepts(t: Thread, c: nat) {
    t.state != TsReady && t.kind != Idle && 0 <= Assigned(t, c) < CPUS
  }

  function Enqueue(s: Sys, c: nat, t: nat): Sys
    requires |s.queues| == CPUS && t in s.threads && c < CPUS
  {
    if !Accepts(s.threads[t], c) then s
    else
      var k: nat := Assigned(s.threads[t], c);
      s.(queues := s.queues[k := s.queues[k] + [t]],
         threads := s.threads[t := s.threads[t].(state := TsReady, cpuid := k)])
  }

  function Running(t: Thread, c: nat): Thread {
    t.(state := TsRunning, cpuid := c)
  }

  function SwitchTo(s: Sys, c: nat, t: nat): Sys
    requires t in s.threads && c < |s.current|
  {
    s.(threads := s.threads[t := Running(s.threads[t], c)], current := s.current[c := Some(t)])
  }

  function Tick(s: Sys, c: nat): Sys
    requires c < |s.current|
             && (s.current[c].Some? ==> s.current[c].value in s.threads && s.threads[s.current[c].value].sc in s.budget)
  {
    if s.current[c] == None then s
    else
      var b := s.threads[s.current[c].value].sc;
      if s.budget[b] > 0 then s.(budget := s.budget[b := s.budget[b] - 1]) else s
  }

  /** The head of the queue, now between queue and CPU, or the idle thread. */
  function Chosen(s: Sys, c: nat): nat
    requires c < |s.queues| && c < |s.idle|
  {
    if s.queues[c] == [] then s.idle[c] else s.queues[c][0]
  }

  function Choose(s: Sys, c: nat): Sys
    requires c < |s.queues| && forall t :: t in s.queues[c] ==> t in s.threads
  {
    if s.queues[c] == [] then s
    else
      var t := s.queues[c][0];
      s.(queues := s.queues[c := s.queues[c][1..]],
         threads := s.threads[t := s.threads[t].(state := TsInter)])
  }

  function Refill(s: Sys, t: nat): Sys
    requires t in s.threads
  {
    s.(budget := s.budget[s.threads[t].sc := DEFAULT_BUDGET])
  }

  /** The current thread keeps the CPU while it has budget. */
  predicate Keeps(s: Sys, c: nat)
    requires c < |s.current|
             && (s.current[c].Some? ==> s.current[c].value in s.threads && s.threads[s.current[c].value].sc in s.budget)
  {
    s.current[c].Some? && s.budget[s.threads[s.current[c].value].sc] != 0
  }

  /** The current thread back on a queue. */
  function Requeue(s: Sys, c: nat): Sys
    requires |s.queues| == CPUS && c < CPUS == |s.current| && (s.current[c].Some? ==> s.current[c].value in s.threads)
  {
    if s.current[c].Some? then Enqueue(s, c, s.current[c].value) else s
  }

  /** A thread on no queue joins one queue and is marked accordingly; nothing else changes. */
  ghost predicate Joined(s: Sys, s': Sys, t: nat, k: nat)
    requires Shape(s)
  {
    && k < CPUS && t in s.threads
    && s' == s.(queues := s.queues[k := s.queues[k] + [t]],
                threads := s.threads[t := s.threads[t].(state := TsReady, cpuid := k)])
  }

  lemma JoinShape(s: Sys, s': Sys, t: nat, k: nat)
    requires Shape(s) && Joined(s, s', t, k)
    ensures Shape(s')
            && forall d, x :: 0 <= d < CPUS ==> (x in s'.queues[d] <==> x in s.queues[d] || (d == k && x == t))
  {
  }

  lemma JoinQueues(s: Sys, s': Sys, t: nat, k: nat)
    requires Shape(s) && Joined(s, s', t, k) && QueuesOk(s) && ReadyOk(s)
    requires s.threads[t].state != TsReady && s.threads[t].kind != Idle
    ensures Shape(s') && QueuesOk(s') && ReadyOk(s')
  {
    JoinShape(s, s', t, k);
    assert t !in s.queues[k];
    assert Distinct(s'.queues[k]);
    assert forall d :: 0 <= d < CPUS && d != k ==> Distinct(s'.queues[d]);
  }

  lemma JoinRest(s: Sys, s': Sys, t: nat, k: nat, c: nat)
    requires Shape(s) && Joined(s, s', t, k) && c < CPUS && IdleOk(s) && LimitsOk(s)
    requires s.threads[t].kind != Idle
    requires forall d :: 0 <= d < CPUS && d != c ==> CurrentOkAt(s, d) && s.current[d] != Some(t)
    ensures Shape(s') && IdleOk(s') && LimitsOk(s')
    ensures forall d :: 0 <= d < CPUS && d != c ==> CurrentOkAt(s', d)
  {
    JoinShape(s, s', t, k);
    forall d | 0 <= d < CPUS && d != c
      ensures CurrentOkAt(s', d)
    {
      assert CurrentOkAt(s, d);
    }
  }

  lemma EnqueueKeeps(s: Sys, c: nat, t: nat)
    requires InvBut(s, c) && c < CPUS && t in s.threads
    requires forall d :: 0 <= d < CPUS && d != c ==> s.current[d] != Some(t)
    ensures InvBut(Enqueue(s, c, t), c)
  {
    if Accepts(s.threads[t], c) {
      JoinQueues(s, Enqueue(s, c, t), t, Assigned(s.threads[t], c));
      JoinRest(s, Enqueue(s, c, t), t, Assigned(s.threads[t], c), c);
      hide Shape, IdleOk, QueuesOk, ReadyOk, LimitsOk, CurrentOkAt;
    }
  }

  /**
    * Where enqueueing on CPU c puts a thread: with affinity -1 last on queue c, with affinity 0 to 3 last on the queue
    * of that CPU, and marked for that CPU; an idle or ready thread, and any other affinity, changes nothing.
    */
  lemma EnqueuePlaces(s: Sys, c: nat, t: nat, k: nat)
    requires |s.queues| == CPUS && t in s.threads && c < CPUS && k < CPUS
    ensures var x, s' := s.threads[t], Enqueue(s, c, t);
            if x.state == TsReady || x.kind == Idle || x.affinity < -1 || x.affinity > 3 then s' == s
            else
              && (x.affinity == k || (x.affinity == -1 && c == k) ==>
                    s'.queues[k] == s.queues[k] + [t]
                    && s' == s.(queues := s'.queues, threads := s.threads[t := x.(state := TsReady, cpuid := k)]))
              && (x.affinity != k && (x.affinity != -1 || c != k) ==> s'.queues[k] == s.queues[k])
  {
  }

  // Thread t leaves queue k.

  lemma LeaveQueues(s: Sys, s': Sys, t: nat, k: nat)
    requires Shape(s) && Shape(s') && QueuesOk(s) && t in s.threads && k < CPUS
    requires Distinct(s'.queues[k]) && forall x :: x in s'.queues[k] <==> x in s.queues[k] && x != t
    requires forall d :: 0 <= d < CPUS && d != k ==> s'.queues[d] == s.queues[d] && t !in s.queues[d]
    requires s'.threads == s.threads[t := s.threads[t].(state := TsInter)]
    ensures QueuesOk(s')
  {
    hide Distinct, Shape;
  }

  lemma LeaveReady(s: Sys, s': Sys, t: nat, k: nat)
    requires Shape(s) && Shape(s') && ReadyOk(s) && t in s.threads && k < CPUS
    requires forall x :: x in s'.queues[k] <==> x in s.queues[k] && x != t
    requires forall d :: 0 <= d < CPUS && d != k ==> s'.queues[d] == s.queues[d]
    requires s'.threads == s.threads[t := s.threads[t].(state := TsInter)]
    ensures ReadyOk(s')
  {
  }

  lemma ChooseQueues(s: Sys, c: nat)
    requires Shape(s) && QueuesOk(s) && ReadyOk(s) && c < CPUS && s.queues[c] != []
    ensures var s' := Choose(s, c);
            && Shape(s') && QueuesOk(s') && ReadyOk(s')
            && forall d, x :: 0 <= d < CPUS ==>
               (x in s'.queues[d] <==> x in s.queues[d] && !(d == c && x == s.queues[c][0]))
  {
    var s', q, t := Choose(s, c), s.queues[c], s.queues[c][0];
    assert Distinct(q) && s.threads[t].cpuid == c by {
      assert t in q;
    }
    WithoutFirst(q);
    forall d | 0 <= d < CPUS && d != c
      ensures t !in s.queues[d]
    {
    }
    hide QueuesOk, ReadyOk, Distinct;
    assert Shape(s');
    LeaveQueues(s, s', t, c);
    LeaveReady(s, s', t, c);
  }

  lemma WithoutFirst(q: seq<nat>)
    requires q != [] && Distinct(q)
    ensures Distinct(q[1..]) && forall x :: x in q[1..] <==> x in q && x != q[0]
  {
    assert q == [q[0]] + q[1..];
  }

  lemma ChooseKeeps(s: Sys, c: nat)
    requires InvBut(s, c) && c < CPUS
    ensures InvBut(Choose(s, c), c)
    ensures var t := Chosen(s, c);
            && t in s.threads && Choose(s, c).threads[t].state != TsReady
            && (s.threads[t].kind == Idle ==> t == s.idle[c])
            && forall d :: 0 <= d < CPUS && d != c ==> s.current[d] != Some(t)
  {
    var s', t := Choose(s, c), Chosen(s, c);
    forall d | 0 <= d < CPUS && d != c
      ensures s.current[d] != Some(t)
    {
      assert CurrentOkAt(s, d);
    }
    if s.queues[c] != [] {
      assert t in s.queues[c];
      ChooseQueues(s, c);
      hide QueuesOk, ReadyOk;
      forall d | 0 <= d < CPUS && d != c
        ensures CurrentOkAt(s', d)
      {
        assert CurrentOkAt(s, d);
      }
    }
  }

  /** Threads changed, but none became ready or ceased to be. */
  ghost predicate SameReady(s: Sys, s': Sys) {
    && s'.queues == s.queues && s'.idle == s.idle && s'.threads.Keys == s.threads.Keys
    && forall t :: t in s.threads ==>
         var x, y := s.threads[t], s'.threads[t];
         && y.kind == x.kind && (y.state == TsReady <==> x.state == TsReady)
         && (x.state == TsReady ==> y.cpuid == x.cpuid)
  }

  lemma SameReadyQueues(s: Sys, s': Sys)
    requires Shape(s) && Shape(s') && SameReady(s, s') && QueuesOk(s)
    ensures QueuesOk(s')
  {
    hide Distinct;
  }

  lemma SameReadyReady(s: Sys, s': Sys)
    requires Shape(s) && Shape(s') && SameReady(s, s') && ReadyOk(s)
    ensures ReadyOk(s')
  {
  }

  lemma SwitchParts(s: Sys, c: nat, t: nat)
    requires Shape(s) && IdleOk(s) && QueuesOk(s) && ReadyOk(s) && LimitsOk(s)
    requires c < CPUS && t in s.threads && s.threads[t].state != TsReady
             && (s.threads[t].kind == Idle ==> t == s.idle[c])
    ensures var s' := SwitchTo(s, c, t);
            Shape(s') && IdleOk(s') && QueuesOk(s') && ReadyOk(s') && LimitsOk(s')
  {
    hide IdleOk, QueuesOk, ReadyOk, LimitsOk;
    var s' := SwitchTo(s, c, t);
    assert Shape(s') && SameReady(s, s');
    SameReadyQueues(s, s');
    SameReadyReady(s, s');
    SwitchRest(s, c, t);
  }

  lemma SwitchRest(s: Sys, c: nat, t: nat)
    requires Shape(s) && IdleOk(s) && LimitsOk(s) && c < CPUS && t in s.threads
             && (s.threads[t].kind == Idle ==> t == s.idle[c])
    requires Shape(SwitchTo(s, c, t))
    ensures IdleOk(SwitchTo(s, c, t)) && LimitsOk(SwitchTo(s, c, t))
  {
    assert LimitsOk(SwitchTo(s, c, t));
    hide LimitsOk;
  }

  lemma SwitchKeeps(s: Sys, c: nat, t: nat)
    requires InvBut(s, c) && c < CPUS && t in s.threads && s.threads[t].state != TsReady
    requires s.threads[t].kind == Idle ==> t == s.idle[c]
    requires forall d :: 0 <= d < CPUS && d != c ==> s.current[d] != Some(t)
    ensures Inv(SwitchTo(s, c, t))
  {
    var s' := SwitchTo(s, c, t);
    SwitchParts(s, c, t);
    hide IdleOk, QueuesOk, ReadyOk, LimitsOk;
    forall d | 0 <= d < CPUS
      ensures CurrentOkAt(s', d)
    {
      assert d != c ==> CurrentOkAt(s, d);
    }
  }
}
