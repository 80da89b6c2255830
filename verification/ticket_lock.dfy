/** The ticket lock as an interleaving of single memory accesses by any number of CPUs. */
module TicketLock {

  /** Tickets are 32-bit counters that wrap around. */
  const U32: nat := 0x1_0000_0000

  /** Where a CPU is in lock, try_lock or unlock, with the registers it has loaded. */
  datatype Pc =
    | Out
    | LockRetry
    | LockLoaded(v: nat)
    | Waiting(ticket: nat)
    | TryLoaded(v: nat)
    | TryEqual(v: nat)
    | Holding
    | Releasing(o: nat)

  /** `excl[c]` is CPU c's exclusive monitor on the word `next`. */
  datatype State = State(owner: nat, next: nat, pcs: seq<Pc>, excl: seq<bool>)

  datatype Action =
    | LoadNext        // ldaxr in lock
    | StoreNext       // stxr in lock, succeeding
    | FailNext        // stxr in lock, failing
    | ReadOwner       // ldar and compare in the spin loop
    | TryLoad         // ldaxr in try_lock
    | TryCompare      // ldar and compare in try_lock
    | TryStore        // stxr in try_lock, succeeding
    | TryFail         // stxr in try_lock, failing
    | UnlockLoad      // load half of owner++
    | UnlockStore     // store half of owner++
    | LoseMonitor     // an exclusive monitor may be lost at any time

  ghost predicate Enabled(s: State, c: nat, a: Action) {
    && c < |s.pcs| == |s.excl|
    && match a
       case LoadNext => s.pcs[c].Out? || s.pcs[c].LockRetry?
       case StoreNext => s.pcs[c].LockLoaded? && s.excl[c]
       case FailNext => s.pcs[c].LockLoaded?
       case ReadOwner => s.pcs[c].Waiting?
       case TryLoad => s.pcs[c].Out?
       case TryCompare => s.pcs[c].TryLoaded?
       case TryStore => s.pcs[c].TryEqual? && s.excl[c]
       case TryFail => s.pcs[c].TryEqual?
       case UnlockLoad => s.pcs[c].Holding?
       case UnlockStore => s.pcs[c].Releasing?
       case LoseMonitor => true
  }

  function Cleared(n: nat): seq<bool> {
    seq(n, i => false)
  }

  /** One step. A store to `next` clears every CPU's monitor. */
  ghost function Apply(s: State, c: nat, a: Action): State
    requires Enabled(s, c, a)
  {
    match a
    case LoadNext => s.(pcs := s.pcs[c := LockLoaded(s.next)], excl := s.excl[c := true])
    case StoreNext =>
      var v := s.pcs[c].v;
      s.(next := (v + 1) % U32, pcs := s.pcs[c := Waiting(v)], excl := Cleared(|s.excl|))
    case FailNext => s.(pcs := s.pcs[c := LockRetry], excl := s.excl[c := false])
    case ReadOwner => if s.pcs[c].ticket == s.owner then s.(pcs := s.pcs[c := Holding]) else s
    case TryLoad => s.(pcs := s.pcs[c := TryLoaded(s.next)], excl := s.excl[c := true])
    case TryCompare =>
      var v := s.pcs[c].v;
      if v == s.owner then s.(pcs := s.pcs[c := TryEqual(v)]) else s.(pcs := s.pcs[c := Out])
    case TryStore =>
      var v := s.pcs[c].v;
      s.(next := (v + 1) % U32, pcs := s.pcs[c := Holding], excl := Cleared(|s.excl|))
    case TryFail => s.(pcs := s.pcs[c := Out], excl := s.excl[c := false])
    case UnlockLoad => s.(pcs := s.pcs[c := Releasing(s.owner)])
    case UnlockStore => s.(owner := (s.pcs[c].o + 1) % U32, pcs := s.pcs[c := Out])
    case LoseMonitor => s.(excl := s.excl[c := false])
  }

  ghost function Init(n: nat): State {
    State(0, 0, seq(n, i => Out), Cleared(n))
  }

  /** The reference lock: CPUs queue up, the first in the queue owns the lock. */
  datatype Fifo = Fifo(queue: seq<nat>, served: nat)

  ghost function FifoApply(f: Fifo, c: nat, a: Action): Fifo {
    match a
    case StoreNext => f.(queue := f.queue + [c])
    case TryStore => f.(queue := f.queue + [c])
    case UnlockStore => if f.queue == [] then f else Fifo(f.queue[1..], f.served + 1)
    case _ => f
  }

  ghost predicate Queued(p: Pc) {
    p.Waiting? || p.Holding? || p.Releasing?
  }

  ghost predicate Owns(p: Pc) {
    p.Holding? || p.Releasing?
  }

  /** The counters are the ends of the queue. */
  ghost predicate Counters(s: State, f: Fifo) {
    && |s.pcs| == |s.excl| < U32
    && s.owner == f.served % U32 && s.next == (f.served + |f.queue|) % U32
  }

  /** The queue holds exactly the CPUs that have a ticket, once each. */
  ghost predicate Members(s: State, f: Fifo) {
    && (forall i :: 0 <= i < |f.queue| ==> f.queue[i] < |s.pcs| && Queued(s.pcs[f.queue[i]]))
    && (forall i, j :: 0 <= i < j < |f.queue| ==> f.queue[i] != f.queue[j])
    && (forall c :: 0 <= c < |s.pcs| && Queued(s.pcs[c]) ==> c in f.queue)
  }

  /** The CPU at place i waits for ticket served + i; only the first may have got in. */
  ghost predicate Tickets(s: State, f: Fifo) {
    forall i :: 0 <= i < |f.queue| && f.queue[i] < |s.pcs| ==>
      var p := s.pcs[f.queue[i]];
      && (p.Waiting? ==> p.ticket == (f.served + i) % U32)
      && (Owns(p) ==> i == 0)
      && (p.Releasing? ==> p.o == f.served % U32)
  }

  /** A monitor that is still set guarantees that `next` is what was loaded. */
  ghost predicate Monitors(s: State, f: Fifo) {
    && |s.excl| == |s.pcs|
    && forall c :: 0 <= c < |s.pcs| && s.excl[c] ==>
         var p := s.pcs[c];
         && (p.LockLoaded? || p.TryLoaded? || p.TryEqual? ==> p.v == s.next)
         && (p.TryEqual? ==> f.queue == [])
  }

  ghost predicate Refines(s: State, f: Fifo) {
    Counters(s, f) && Members(s, f) && Tickets(s, f) && Monitors(s, f)
  }

  lemma InitRefines(n: nat)
    requires n < U32
    ensures Refines(Init(n), Fifo([], 0))
  {
  }

  /** A queue of distinct CPUs is no longer than the number of CPUs. */
  lemma {:induction false} QueueBound(q: seq<nat>, n: nat)
    requires forall i :: 0 <= i < |q| ==> q[i] < n
    requires forall i, j :: 0 <= i < j < |q| ==> q[i] != q[j]
    ensures |q| <= n
    decreases n
  {
    if q == [] {
    } else {
      assert q[0] < n;
      if n - 1 in q {
        var k :| 0 <= k < |q| && q[k] == n - 1;
        QueueBound(q[..k] + q[k + 1..], n - 1);
      } else {
        QueueBound(q, n - 1);
      }
    }
  }

  lemma SameCounter(a: nat, d: nat)
    requires d < U32
    ensures (a + d) % U32 == a % U32 <==> d == 0
  {
  }

  lemma Successor(a: nat)
    ensures (a % U32 + 1) % U32 == (a + 1) % U32
  {
  }

  /** Taking a ticket: the CPU joins the end of the queue. */
  lemma JoinRefines(s: State, f: Fifo, c: nat, a: Action)
    requires Refines(s, f) && Enabled(s, c, a) && (a.StoreNext? || a.TryStore?)
    ensures Refines(Apply(s, c, a), FifoApply(f, c, a))
  {
    assert s.pcs[c].v == s.next && (a.TryStore? ==> f.queue == []);
    hide Members, Tickets, Monitors;
    Successor(f.served + |f.queue|);
    JoinMembers(s, f, c, a);
    JoinTickets(s, f, c, a);
    MonitorsCleared(Apply(s, c, a), FifoApply(f, c, a));
  }

  lemma JoinMembers(s: State, f: Fifo, c: nat, a: Action)
    requires Members(s, f) && Enabled(s, c, a) && (a.StoreNext? || a.TryStore?)
    ensures c !in f.queue && Members(Apply(s, c, a), FifoApply(f, c, a))
  {
    var s', f' := Apply(s, c, a), FifoApply(f, c, a);
    assert forall i :: 0 <= i < |f.queue| ==> s'.pcs[f.queue[i]] == s.pcs[f.queue[i]];
    assert forall d :: d in f'.queue <==> d in f.queue || d == c;
  }

  lemma JoinTickets(s: State, f: Fifo, c: nat, a: Action)
    requires Counters(s, f) && Tickets(s, f) && Enabled(s, c, a) && c !in f.queue
    requires (a.StoreNext? || (a.TryStore? && f.queue == [])) && s.pcs[c].v == s.next
    ensures Tickets(Apply(s, c, a), FifoApply(f, c, a))
  {
    var s' := Apply(s, c, a);
    assert forall i :: 0 <= i < |f.queue| && f.queue[i] < |s.pcs| ==> s'.pcs[f.queue[i]] == s.pcs[f.queue[i]];
  }

  lemma MonitorsCleared(s: State, f: Fifo)
    requires s.excl == Cleared(|s.pcs|)
    ensures Monitors(s, f)
  {
  }

  /** A CPU that owns the lock is the first of the queue. */
  lemma OwnerIsFirst(s: State, f: Fifo, c: nat)
    requires Members(s, f) && Tickets(s, f) && c < |s.pcs| && Owns(s.pcs[c])
    ensures f.queue != [] && f.queue[0] == c
  {
    assert c in f.queue;
    var k :| 0 <= k < |f.queue| && f.queue[k] == c;
    assert Owns(s.pcs[f.queue[k]]);
  }

  /** Releasing: the first of the queue leaves, and the next ticket is served. */
  lemma LeaveRefines(s: State, f: Fifo, c: nat)
    requires Refines(s, f) && Enabled(s, c, UnlockStore)
    ensures f.queue != [] && f.queue[0] == c
    ensures Refines(Apply(s, c, UnlockStore), FifoApply(f, c, UnlockStore))
  {
    hide Members, Tickets;
    OwnerIsFirst(s, f, c);
    FirstTicket(s, f);
    Successor(f.served);
    LeaveMembers(s, f, c);
    LeaveTickets(s, f, c);
  }

  lemma FirstTicket(s: State, f: Fifo)
    requires Tickets(s, f) && f.queue != [] && f.queue[0] < |s.pcs| && s.pcs[f.queue[0]].Releasing?
    ensures s.pcs[f.queue[0]].o == f.served % U32
  {
  }

  lemma LeaveMembers(s: State, f: Fifo, c: nat)
    requires Members(s, f) && Enabled(s, c, UnlockStore) && f.queue != [] && f.queue[0] == c
    ensures Members(Apply(s, c, UnlockStore), FifoApply(f, c, UnlockStore))
  {
    var f' := FifoApply(f, c, UnlockStore);
    assert forall i :: 0 <= i < |f'.queue| ==> f'.queue[i] == f.queue[i + 1] && f'.queue[i] != c;
    assert forall d :: d in f.queue ==> d == c || d in f'.queue;
  }

  lemma LeaveTickets(s: State, f: Fifo, c: nat)
    requires Members(s, f) && Tickets(s, f) && Enabled(s, c, UnlockStore) && f.queue != [] && f.queue[0] == c
    ensures Tickets(Apply(s, c, UnlockStore), FifoApply(f, c, UnlockStore))
  {
    var s', f' := Apply(s, c, UnlockStore), FifoApply(f, c, UnlockStore);
    assert forall i :: 0 <= i < |f'.queue| ==> f'.queue[i] == f.queue[i + 1] && f'.queue[i] != c;
    forall i | 0 <= i < |f'.queue| && f'.queue[i] < |s'.pcs|
      ensures var p := s'.pcs[f'.queue[i]];
              p.Waiting? && p.ticket == (f'.served + i) % U32
    {
      assert Queued(s.pcs[f.queue[i + 1]]);
    }
  }

  /** An owner read that equals a `next` still monitored means that the queue is empty. */
  lemma CompareRefines(s: State, f: Fifo, c: nat)
    requires Refines(s, f) && Enabled(s, c, TryCompare)
    ensures Refines(Apply(s, c, TryCompare), f)
  {
    QueueBound(f.queue, |s.pcs|);
    SameCounter(f.served, |f.queue|);
    var s' := Apply(s, c, TryCompare);
    assert c !in f.queue;
    assert forall i :: 0 <= i < |f.queue| ==> s'.pcs[f.queue[i]] == s.pcs[f.queue[i]];
  }

  /** Entering: the CPU whose ticket is served is the first of the queue. */
  lemma EnterRefines(s: State, f: Fifo, c: nat)
    requires Refines(s, f) && Enabled(s, c, ReadOwner)
    ensures Refines(Apply(s, c, ReadOwner), f)
    ensures s.pcs[c].ticket == s.owner ==> f.queue != [] && f.queue[0] == c
  {
    hide Tickets;
    QueueBound(f.queue, |s.pcs|);
    assert c in f.queue;
    var k :| 0 <= k < |f.queue| && f.queue[k] == c;
    TicketAt(s, f, k);
    if s.pcs[c].ticket == s.owner {
      SameCounter(f.served, k);
      EnterTickets(s, f, c);
    }
  }

  lemma TicketAt(s: State, f: Fifo, k: nat)
    requires Tickets(s, f) && k < |f.queue| && f.queue[k] < |s.pcs| && s.pcs[f.queue[k]].Waiting?
    ensures s.pcs[f.queue[k]].ticket == (f.served + k) % U32
  {
  }

  lemma EnterTickets(s: State, f: Fifo, c: nat)
    requires Members(s, f) && Tickets(s, f) && f.queue != [] && f.queue[0] == c && c < |s.pcs|
    ensures Tickets(s.(pcs := s.pcs[c := Holding]), f)
  {
    assert forall i :: 0 < i < |f.queue| ==> f.queue[i] != c;
  }

  lemma UnlockLoadRefines(s: State, f: Fifo, c: nat)
    requires Refines(s, f) && Enabled(s, c, UnlockLoad)
    ensures Refines(Apply(s, c, UnlockLoad), f)
  {
    assert c in f.queue;
    var k :| 0 <= k < |f.queue| && f.queue[k] == c;
    var s' := Apply(s, c, UnlockLoad);
    assert Owns(s.pcs[f.queue[k]]);
    assert forall i :: 0 <= i < |f.queue| && i != k ==> s'.pcs[f.queue[i]] == s.pcs[f.queue[i]];
  }

  /** Steps of CPUs without a ticket that take none. */
  lemma OutsideRefines(s: State, f: Fifo, c: nat, a: Action)
    requires Refines(s, f) && Enabled(s, c, a)
    requires a.LoadNext? || a.FailNext? || a.TryLoad? || a.TryFail? || a.LoseMonitor?
    ensures Refines(Apply(s, c, a), f)
  {
    var s' := Apply(s, c, a);
    assert forall i :: 0 <= i < |f.queue| ==> s'.pcs[f.queue[i]] == s.pcs[f.queue[i]];
  }

  /** Every step of the ticket lock is a step of the queue lock or leaves it unchanged. */
  lemma StepRefines(s: State, f: Fifo, c: nat, a: Action)
    requires Refines(s, f) && Enabled(s, c, a)
    ensures Refines(Apply(s, c, a), FifoApply(f, c, a))
  {
    hide Refines;
    match a
    case StoreNext => JoinRefines(s, f, c, a);
    case TryStore => JoinRefines(s, f, c, a);
    case UnlockStore => LeaveRefines(s, f, c);
    case ReadOwner => EnterRefines(s, f, c);
    case TryCompare => CompareRefines(s, f, c);
    case UnlockLoad => UnlockLoadRefines(s, f, c);
    case _ => OutsideRefines(s, f, c, a);
  }

  /** A run: which CPU does which step, in order. */
  type Run = seq<(nat, Action)>

  ghost predicate Possible(s: State, run: Run)
    decreases |run|
  {
    run == [] || (Enabled(s, run[0].0, run[0].1) && Possible(Apply(s, run[0].0, run[0].1), run[1..]))
  }

  ghost function After(s: State, run: Run): State
    requires Possible(s, run)
    decreases |run|
  {
    if run == [] then s else After(Apply(s, run[0].0, run[0].1), run[1..])
  }

  ghost function FifoAfter(f: Fifo, run: Run): Fifo
    decreases |run|
  {
    if run == [] then f else FifoAfter(FifoApply(f, run[0].0, run[0].1), run[1..])
  }

  lemma {:induction false} RunRefines(s: State, f: Fifo, run: Run)
    requires Refines(s, f) && Possible(s, run)
    ensures Refines(After(s, run), FifoAfter(f, run))
    decreases |run|
  {
    hide Refines;
    if run == [] {
    } else {
      StepRefines(s, f, run[0].0, run[0].1);
      RunRefines(Apply(s, run[0].0, run[0].1), FifoApply(f, run[0].0, run[0].1), run[1..]);
    }
  }

  /** Mutual exclusion in every reachable state. */
  lemma MutualExclusion(n: nat, run: Run, c: nat, d: nat)
    requires n < U32 && Possible(Init(n), run)
    requires var s := After(Init(n), run);
             c < |s.pcs| && d < |s.pcs| && Owns(s.pcs[c]) && Owns(s.pcs[d])
    ensures c == d
  {
    InitRefines(n);
    RunRefines(Init(n), Fifo([], 0), run);
    var s, f := After(Init(n), run), FifoAfter(Fifo([], 0), run);
    assert c in f.queue && d in f.queue;
  }

  /**
   * The outstanding tickets of a reachable state are exactly owner, owner + 1, ..., next - 1 around
   * the 32-bit circle, one for each CPU that has taken a ticket and not released it.
   */
  lemma OutstandingTickets(n: nat, run: Run)
    requires n < U32 && Possible(Init(n), run)
    ensures var s, f := After(Init(n), run), FifoAfter(Fifo([], 0), run);
            && |f.queue| <= n && s.next == (s.owner + |f.queue|) % U32
            && (forall c :: 0 <= c < |s.pcs| && Queued(s.pcs[c]) <==> c in f.queue)
            && (forall i, j :: 0 <= i < j < |f.queue| ==> f.queue[i] != f.queue[j])
            && (forall i :: 0 <= i < |f.queue| && f.queue[i] < |s.pcs| && s.pcs[f.queue[i]].Waiting? ==>
                  s.pcs[f.queue[i]].ticket == (s.owner + i) % U32)
  {
    InitRefines(n);
    RunRefines(Init(n), Fifo([], 0), run);
    var s, f := After(Init(n), run), FifoAfter(Fifo([], 0), run);
    SizeKept(Init(n), run);
    QueueBound(f.queue, |s.pcs|);
    ShiftedCounter(f.served, |f.queue|);
    forall i | 0 <= i < |f.queue| && f.queue[i] < |s.pcs| && s.pcs[f.queue[i]].Waiting?
      ensures s.pcs[f.queue[i]].ticket == (s.owner + i) % U32
    {
      ShiftedCounter(f.served, i);
    }
  }

  lemma ShiftedCounter(a: nat, i: nat)
    ensures (a % U32 + i) % U32 == (a + i) % U32
  {
  }

  lemma {:induction false} SizeKept(s: State, run: Run)
    requires Possible(s, run)
    ensures |After(s, run).pcs| == |s.pcs|
    decreases |run|
  {
    if run == [] {
    } else {
      SizeKept(Apply(s, run[0].0, run[0].1), run[1..]);
    }
  }

  /** Number of releases in a run. */
  ghost function Releases(run: Run): nat
    decreases |run|
  {
    if run == [] then 0 else (if run[0].1.UnlockStore? then 1 else 0) + Releases(run[1..])
  }

  ghost predicate ReleasedBy(run: Run, c: nat) {
    exists k :: 0 <= k < |run| && run[k] == (c, UnlockStore)
  }

  /** Each release moves everyone still queued one place forward. */
  lemma {:induction false} QueueMoves(s: State, f: Fifo, run: Run, c: nat, i: nat)
    requires Refines(s, f) && Possible(s, run) && i < |f.queue| && f.queue[i] == c
    requires !ReleasedBy(run, c)
    ensures var f' := FifoAfter(f, run);
            && Releases(run) <= i && f'.served == f.served + Releases(run)
            && i - Releases(run) < |f'.queue| && f'.queue[i - Releases(run)] == c
    decreases |run|
  {
    hide Refines, Enabled, Apply, FifoApply, ReleasedBy;
    if run == [] {
    } else {
      var d, a := run[0].0, run[0].1;
      NotReleased(run, c);
      QueueStep(s, f, d, a, c, i);
      QueueMoves(Apply(s, d, a), FifoApply(f, d, a), run[1..], c, if a.UnlockStore? then i - 1 else i);
    }
  }

  lemma NotReleased(run: Run, c: nat)
    requires run != [] && !ReleasedBy(run, c)
    ensures !ReleasedBy(run[1..], c) && run[0] != (c, UnlockStore)
  {
    assert forall k :: 0 <= k < |run[1..]| ==> run[1..][k] == run[k + 1];
  }

  lemma QueueStep(s: State, f: Fifo, d: nat, a: Action, c: nat, i: nat)
    requires Refines(s, f) && Enabled(s, d, a) && i < |f.queue| && f.queue[i] == c
    requires (d, a) != (c, UnlockStore)
    ensures Refines(Apply(s, d, a), FifoApply(f, d, a))
    ensures var f' := FifoApply(f, d, a);
            var j := if a.UnlockStore? then i - 1 else i;
            && 0 <= j < |f'.queue| && f'.queue[j] == c
            && f'.served == f.served + if a.UnlockStore? then 1 else 0
  {
    hide Refines, Enabled, Apply;
    StepRefines(s, f, d, a);
    if a.UnlockStore? {
      LeaveRefines(s, f, d);
    }
  }

  /** Number of tickets from owner to t around the circle. */
  function Distance(owner: nat, t: nat): nat
    requires owner < U32
  {
    (t + U32 - owner) % U32
  }

  /**
   * First come, first served: a CPU that waits with ticket t gets in after exactly t - owner further
   * releases. Before it releases the lock itself there are never more than that; if it is in there
   * were exactly that many; and while it waits, its next read of owner lets it in just when there were.
   */
  lemma FirstComeFirstServed(n: nat, run0: Run, run: Run, c: nat)
    requires n < U32 && Possible(Init(n), run0) && Possible(After(Init(n), run0), run) && !ReleasedBy(run, c)
    requires var s := After(Init(n), run0); c < |s.pcs| && s.pcs[c].Waiting?
    ensures var s := After(Init(n), run0);
            var s' := After(s, run);
            && s.owner < U32 && c < |s'.pcs| && Queued(s'.pcs[c])
            && var d := Distance(s.owner, s.pcs[c].ticket);
               && Releases(run) <= d
               && (Owns(s'.pcs[c]) ==> Releases(run) == d)
               && (s'.pcs[c].Waiting? ==> (s'.pcs[c].ticket == s'.owner <==> Releases(run) == d))
  {
    hide Possible, After, FifoAfter, Releases, ReleasedBy, Monitors, Init;
    InitRefines(n);
    RunRefines(Init(n), Fifo([], 0), run0);
    var s, f := After(Init(n), run0), FifoAfter(Fifo([], 0), run0);
    RunRefines(s, f, run);
    SizeKept(s, run);
    assert c in f.queue;
    var i :| 0 <= i < |f.queue| && f.queue[i] == c;
    QueueMoves(s, f, run, c, i);
    QueueBound(f.queue, |s.pcs|);
    DistanceOfPlace(f.served, i);
    var s', f' := After(s, run), FifoAfter(f, run);
    var j := i - Releases(run);
    assert f'.queue[j] == c;
    QueueBound(f'.queue, |s'.pcs|);
    SameCounter(f'.served, j);
  }

  lemma DistanceOfPlace(served: nat, i: nat)
    requires i < U32
    ensures Distance(served % U32, (served + i) % U32) == i
  {
  }

  /**
   * is_locked compares the counters directly, so it is right exactly when no wrap-around lies between
   * them: if the lock is taken, `next` must not have wrapped past `owner`.
   */
  lemma IsLockedExactly(n: nat, run: Run)
    requires n < U32 && Possible(Init(n), run)
    ensures var s, f := After(Init(n), run), FifoAfter(Fifo([], 0), run);
            (s.owner < s.next <==> f.queue != []) <==> s.owner <= s.next
  {
    InitRefines(n);
    RunRefines(Init(n), Fifo([], 0), run);
    var s, f := After(Init(n), run), FifoAfter(Fifo([], 0), run);
    QueueBound(f.queue, |s.pcs|);
    SameCounter(f.served, |f.queue|);
    hide Possible, After, FifoAfter;
  }

  // Everyone who waits gets in, as long as every CPU keeps stepping.

  /** CPU c steps in the run; losing its monitor is nothing that c does. */
  ghost predicate Acts(run: Run, c: nat) {
    exists k :: 0 <= k < |run| && run[k].0 == c && run[k].1 != LoseMonitor
  }

  /** Every CPU steps at least once. */
  ghost predicate Sweep(n: nat, run: Run) {
    forall c :: 0 <= c < n ==> Acts(run, c)
  }

  /** The runs are possible one after the other, and each is a sweep. */
  ghost predicate Sweeps(s: State, runs: seq<Run>)
    decreases |runs|
  {
    runs == [] || (Possible(s, runs[0]) && Sweep(|s.pcs|, runs[0]) && Sweeps(After(s, runs[0]), runs[1..]))
  }

  /** At some point of the run CPU c owns the lock. */
  ghost predicate GetsIn(s: State, run: Run, c: nat)
    requires Possible(s, run)
    decreases |run|
  {
    || (c < |s.pcs| && Owns(s.pcs[c]))
    || (run != [] && GetsIn(Apply(s, run[0].0, run[0].1), run[1..], c))
  }

  /** In one of the runs CPU c gets in. */
  ghost predicate GetsInDuring(s: State, runs: seq<Run>, c: nat)
    requires Sweeps(s, runs)
    decreases |runs|
  {
    runs != [] && (GetsIn(s, runs[0], c) || GetsInDuring(After(s, runs[0]), runs[1..], c))
  }

  /** CPU c waits at place i of the queue. */
  ghost predicate WaitsAt(s: State, f: Fifo, c: nat, i: nat) {
    Refines(s, f) && i < |f.queue| && f.queue[i] == c && c < |s.pcs| && s.pcs[c].Waiting?
  }

  /** How many steps of the first CPUs of the queue the CPU at place i still waits for, its own last one included. */
  ghost function Ahead(s: State, f: Fifo, i: nat): nat {
    if i == 0 || f.queue == [] || f.queue[0] >= |s.pcs| then 1
    else if s.pcs[f.queue[0]].Releasing? then 3 * i - 1
    else if s.pcs[f.queue[0]].Holding? then 3 * i
    else 3 * i + 1
  }

  /** The place of CPU i after a step. */
  function Place(i: nat, a: Action): int {
    if a.UnlockStore? then i - 1 else i
  }

  lemma OtherCpu(s: State, d: nat, a: Action, c: nat)
    requires Enabled(s, d, a) && c < |s.pcs| && d != c
    ensures |Apply(s, d, a).pcs| == |s.pcs| && Apply(s, d, a).pcs[c] == s.pcs[c]
  {
  }

  /** A step of the CPU that waits leaves it waiting or lets it in; it gets in if it is the first and looks. */
  lemma OwnAhead(s: State, f: Fifo, a: Action, c: nat, i: nat)
    requires WaitsAt(s, f, c, i) && Enabled(s, c, a)
    ensures var s' := Apply(s, c, a);
            && c < |s'.pcs|
            && (|| Owns(s'.pcs[c])
                || (WaitsAt(s', FifoApply(f, c, a), c, i) && s'.pcs == s.pcs && FifoApply(f, c, a) == f))
    ensures i == 0 && a != LoseMonitor ==> Owns(Apply(s, c, a).pcs[c])
  {
    TicketAt(s, f, i);
    StepRefines(s, f, c, a);
    hide Members, Tickets, Monitors;
  }

  /** A step of another CPU: the CPU that waits moves on with a release, and is nearer if the first took the step. */
  lemma OtherAhead(s: State, f: Fifo, d: nat, a: Action, c: nat, i: nat)
    requires WaitsAt(s, f, c, i) && Enabled(s, d, a) && d != c
    ensures var s', f', j := Apply(s, d, a), FifoApply(f, d, a), Place(i, a);
            && j >= 0 && WaitsAt(s', f', c, j) && Ahead(s', f', j) <= Ahead(s, f, i)
            && (d == f.queue[0] && a != LoseMonitor ==> Ahead(s', f', j) < Ahead(s, f, i))
            && (Ahead(s', f', j) == Ahead(s, f, i) ==> f'.queue[0] == f.queue[0])
  {
    hide Refines, Enabled, Apply;
    OtherFirst(s, f, d, a);
    QueueStep(s, f, d, a, c, i);
    OtherCpu(s, d, a, c);
    if a.UnlockStore? {
      LeaveRefines(s, f, d);
    }
  }

  /** What a step of CPU d means for the first of the queue, if it does not release the lock. */
  lemma OtherFirst(s: State, f: Fifo, d: nat, a: Action)
    requires Refines(s, f) && Enabled(s, d, a) && f.queue != []
    ensures var p := f.queue[0];
            && p < |s.pcs| == |Apply(s, d, a).pcs| && Queued(s.pcs[p])
            && (d != p ==> Apply(s, d, a).pcs[p] == s.pcs[p])
            && (d == p && s.pcs[p].Waiting? && a != LoseMonitor ==> Apply(s, d, a).pcs[p].Holding?)
            && (d == p && s.pcs[p].Holding? && a != LoseMonitor ==> Apply(s, d, a).pcs[p].Releasing?)
            && (d == p && s.pcs[p].Releasing? && a != LoseMonitor ==> a.UnlockStore?)
            && (a == LoseMonitor ==> Apply(s, d, a).pcs == s.pcs)
            && (a.UnlockStore? ==> d == p && s.pcs[p].Releasing?)
  {
    if s.pcs[f.queue[0]].Waiting? {
      TicketAt(s, f, 0);
    }
    if a.UnlockStore? {
      OwnerIsFirst(s, f, d);
    }
  }

  /** A step lets CPU c in, or leaves it waiting, no further behind, and nearer if the first of the queue took it. */
  lemma StepAhead(s: State, f: Fifo, d: nat, a: Action, c: nat, i: nat)
    requires WaitsAt(s, f, c, i) && Enabled(s, d, a)
    ensures var s', f', j := Apply(s, d, a), FifoApply(f, d, a), Place(i, a);
            || (c < |s'.pcs| && Owns(s'.pcs[c]))
            || (&& j >= 0 && WaitsAt(s', f', c, j) && Ahead(s', f', j) <= Ahead(s, f, i)
                && (d == f.queue[0] && a != LoseMonitor ==> Ahead(s', f', j) < Ahead(s, f, i))
                && (Ahead(s', f', j) == Ahead(s, f, i) ==> f'.queue[0] == f.queue[0]))
  {
    hide Counters, Tickets, Monitors, FifoApply, Apply;
    if d == c {
      OwnAhead(s, f, a, c, i);
      assert c == f.queue[0] ==> i == 0;
    } else {
      OtherAhead(s, f, d, a, c, i);
    }
  }

  /** A run lets CPU c in, or brings it nearer if the first of the queue steps in it. */
  lemma {:induction false} RunAhead(s: State, f: Fifo, run: Run, c: nat, i: nat) returns (j: nat)
    requires WaitsAt(s, f, c, i) && Possible(s, run)
    ensures GetsIn(s, run, c) || (
      var s', f' := After(s, run), FifoAfter(f, run);
      && WaitsAt(s', f', c, j) && Ahead(s', f', j) <= Ahead(s, f, i)
      && (Acts(run, f.queue[0]) ==> Ahead(s', f', j) < Ahead(s, f, i)))
    decreases |run|
  {
    hide Refines, Enabled, Apply, FifoApply, Ahead, Acts;
    j := i;
    if run == [] {
      NobodyActs(f.queue[0]);
    } else {
      var d, a := run[0].0, run[0].1;
      var s1, f1 := Apply(s, d, a), FifoApply(f, d, a);
      ActsRest(run, f.queue[0]);
      StepAhead(s, f, d, a, c, i);
      if !(c < |s1.pcs| && Owns(s1.pcs[c])) {
        j := RunAhead(s1, f1, run[1..], c, Place(i, a));
      }
    }
  }

  lemma NobodyActs(c: nat)
    ensures !Acts([], c)
  {
  }

  lemma ActsRest(run: Run, c: nat)
    requires run != []
    ensures Acts(run, c) ==> (run[0].0 == c && run[0].1 != LoseMonitor) || Acts(run[1..], c)
  {
    if Acts(run, c) {
      var k :| 0 <= k < |run| && run[k].0 == c && run[k].1 != LoseMonitor;
      assert k > 0 ==> run[1..][k - 1] == run[k];
    }
  }

  lemma FirstInSweep(s: State, f: Fifo, run: Run)
    requires Refines(s, f) && f.queue != [] && Sweep(|s.pcs|, run)
    ensures Acts(run, f.queue[0])
  {
    hide Counters, Tickets, Monitors, Acts;
  }

  lemma {:induction false} SweepsAhead(s: State, f: Fifo, runs: seq<Run>, c: nat, i: nat)
    requires WaitsAt(s, f, c, i) && Sweeps(s, runs) && |runs| >= Ahead(s, f, i)
    ensures GetsInDuring(s, runs, c)
    decreases |runs|
  {
    hide Refines, Possible, After, FifoAfter, Acts, Sweep, GetsIn;
    AheadPositive(s, f, i);
    hide Ahead;
    FirstInSweep(s, f, runs[0]);
    var j := RunAhead(s, f, runs[0], c, i);
    if !GetsIn(s, runs[0], c) {
      SweepsAhead(After(s, runs[0]), FifoAfter(f, runs[0]), runs[1..], c, j);
    }
  }

  lemma AheadPositive(s: State, f: Fifo, i: nat)
    ensures 0 < Ahead(s, f, i) <= 3 * i + 1
  {
  }

  /**
    * No CPU waits forever: whatever steps are interleaved, a CPU that waits with ticket t gets in during the first
    * 3 * (t - owner) + 1 runs in which every CPU steps.
    */
  lemma EveryoneGetsIn(n: nat, run0: Run, runs: seq<Run>, c: nat)
    requires n < U32 && Possible(Init(n), run0)
    requires var s := After(Init(n), run0);
             && c < |s.pcs| && s.pcs[c].Waiting? && Sweeps(s, runs)
             && s.owner < U32 && |runs| >= 3 * Distance(s.owner, s.pcs[c].ticket) + 1
    ensures GetsInDuring(After(Init(n), run0), runs, c)
  {
    hide Possible, After, FifoAfter, Monitors, Init, Sweeps, GetsInDuring, Ahead;
    InitRefines(n);
    RunRefines(Init(n), Fifo([], 0), run0);
    var s, f := After(Init(n), run0), FifoAfter(Fifo([], 0), run0);
    assert c in f.queue;
    var i :| 0 <= i < |f.queue| && f.queue[i] == c;
    QueueBound(f.queue, |s.pcs|);
    DistanceOfPlace(f.served, i);
    AheadPositive(s, f, i);
    SweepsAhead(s, f, runs, c, i);
  }

  // What lock and try_lock do for the CPU that calls them.

  /** Nobody has a ticket: the lock is free. */
  ghost predicate IsFree(s: State) {
    forall d :: 0 <= d < |s.pcs| ==> !Queued(s.pcs[d])
  }

  lemma FreeExactly(s: State, f: Fifo)
    requires Refines(s, f)
    ensures IsFree(s) <==> f.queue == []
    ensures IsFree(s) <==> s.next == s.owner
  {
    hide Tickets, Monitors;
    QueueBound(f.queue, |s.pcs|);
    SameCounter(f.served, |f.queue|);
    if f.queue != [] {
      assert Queued(s.pcs[f.queue[0]]);
    }
  }

  /** While its monitor is set, the comparison of a CPU in try_lock comes out equal exactly if the lock is free. */
  lemma CompareExactly(n: nat, run: Run, c: nat)
    requires n < U32 && Possible(Init(n), run)
    requires var s := After(Init(n), run); Enabled(s, c, TryCompare) && s.excl[c]
    ensures var s := After(Init(n), run);
            && Apply(s, c, TryCompare).pcs == s.pcs[c := if IsFree(s) then TryEqual(s.next) else Out]
            && (IsFree(s) <==> FifoAfter(Fifo([], 0), run).queue == [])
  {
    InitRefines(n);
    RunRefines(Init(n), Fifo([], 0), run);
    var s := After(Init(n), run);
    FreeExactly(s, FifoAfter(Fifo([], 0), run));
    hide IsFree, Possible, After, FifoAfter;
  }

  /**
    * try_lock with no step of another CPU in between: on a free lock it takes the lock, and the CPU is the only one in
    * the queue; on a lock that is taken it gives up, and nobody but its own monitor has changed.
    */
  lemma TryLockAlone(n: nat, run: Run, c: nat)
    requires n < U32 && Possible(Init(n), run)
    requires var s := After(Init(n), run); c < |s.pcs| && s.pcs[c].Out?
    ensures var s, f := After(Init(n), run), FifoAfter(Fifo([], 0), run);
            && Enabled(s, c, TryLoad) && var s1 := Apply(s, c, TryLoad);
            && Enabled(s1, c, TryCompare) && var s2 := Apply(s1, c, TryCompare);
            && FifoApply(FifoApply(f, c, TryLoad), c, TryCompare) == f
            && (IsFree(s) ==>
                  && Enabled(s2, c, TryStore) && Apply(s2, c, TryStore).pcs == s.pcs[c := Holding]
                  && FifoApply(f, c, TryStore).queue == [c])
            && (!IsFree(s) ==> s2 == s.(excl := s2.excl))
  {
    InitRefines(n);
    RunRefines(Init(n), Fifo([], 0), run);
    var s, f := After(Init(n), run), FifoAfter(Fifo([], 0), run);
    FreeExactly(s, f);
    hide IsFree, Possible, After, FifoAfter, Members, Tickets, Monitors;
    assert s.pcs[c := TryLoaded(s.next)][c := Out] == s.pcs;
  }

  /**
    * lock with no step of another CPU in between: it takes the next ticket, and the CPU is the last in the queue; on a
    * free lock the first look at owner lets it in.
    */
  lemma LockAlone(n: nat, run: Run, c: nat)
    requires n < U32 && Possible(Init(n), run)
    requires var s := After(Init(n), run); c < |s.pcs| && (s.pcs[c].Out? || s.pcs[c].LockRetry?)
    ensures var s, f := After(Init(n), run), FifoAfter(Fifo([], 0), run);
            && Enabled(s, c, LoadNext) && var s1 := Apply(s, c, LoadNext);
            && Enabled(s1, c, StoreNext) && var s2 := Apply(s1, c, StoreNext);
            && s2.pcs == s.pcs[c := Waiting(s.next)] && s2.owner == s.owner && s2.next == (s.next + 1) % U32
            && FifoApply(FifoApply(f, c, LoadNext), c, StoreNext).queue == f.queue + [c]
            && Enabled(s2, c, ReadOwner)
            && Apply(s2, c, ReadOwner).pcs == s.pcs[c := if IsFree(s) then Holding else Waiting(s.next)]
  {
    InitRefines(n);
    RunRefines(Init(n), Fifo([], 0), run);
    FreeExactly(After(Init(n), run), FifoAfter(Fifo([], 0), run));
    hide IsFree, Possible, After, FifoAfter, Members, Tickets, Monitors;
  }

  /** A CPU that has called lock and is not in yet. */
  ghost predicate InLock(p: Pc) {
    p.LockRetry? || p.LockLoaded? || p.Waiting?
  }

  /** lock never returns without the lock: until it gets in, the CPU stays in it, whatever is interleaved. */
  lemma {:induction false} LockPersists(s: State, run: Run, c: nat)
    requires Possible(s, run) && c < |s.pcs| && InLock(s.pcs[c]) && !GetsIn(s, run, c)
    ensures c < |After(s, run).pcs| && InLock(After(s, run).pcs[c])
    decreases |run|
  {
    if run == [] {
    } else {
      var s1 := Apply(s, run[0].0, run[0].1);
      assert !GetsIn(s1, run[1..], c);
      NotIn(s1, run[1..], c);
      LockPersists(s1, run[1..], c);
    }
  }

  lemma NotIn(s: State, run: Run, c: nat)
    requires Possible(s, run) && c < |s.pcs| && !GetsIn(s, run, c)
    ensures !Owns(s.pcs[c])
  {
  }

  /** A CPU that has called try_lock and neither has the lock nor has given up. */
  ghost predicate InTry(p: Pc) {
    p.TryLoaded? || p.TryEqual?
  }

  /** How many steps of its own a CPU in try_lock still has to make. */
  ghost function TryLeft(p: Pc): nat {
    if p.TryLoaded? then 2 else if p.TryEqual? then 1 else 0
  }

  ghost function OwnSteps(run: Run, c: nat): nat
    decreases |run|
  {
    if run == [] then 0 else (if run[0].0 == c && run[0].1 != LoseMonitor then 1 else 0) + OwnSteps(run[1..], c)
  }

  /** CPU c calls neither lock nor try_lock in the run. */
  ghost predicate NoCall(run: Run, c: nat) {
    forall k :: 0 <= k < |run| && run[k].0 == c ==> run[k].1 != LoadNext && run[k].1 != TryLoad
  }

  /**
    * try_lock never waits: whatever is interleaved, after two more steps of its own the CPU has had the lock or is back
    * outside.
    */
  lemma {:induction false} TryEnds(s: State, run: Run, c: nat)
    requires Possible(s, run) && c < |s.pcs| && (InTry(s.pcs[c]) || s.pcs[c].Out?) && NoCall(run, c)
    requires !GetsIn(s, run, c)
    ensures c < |After(s, run).pcs| && (InTry(After(s, run).pcs[c]) || After(s, run).pcs[c].Out?)
    ensures TryLeft(After(s, run).pcs[c]) + OwnSteps(run, c) <= TryLeft(s.pcs[c])
    decreases |run|
  {
    if run == [] {
    } else {
      var s1 := Apply(s, run[0].0, run[0].1);
      assert !GetsIn(s1, run[1..], c);
      NotIn(s1, run[1..], c);
      assert forall k :: 0 <= k < |run[1..]| ==> run[1..][k] == run[k + 1];
      assert run[0].0 == c ==> run[0].1 != LoadNext && run[0].1 != TryLoad;
      TryEnds(s1, run[1..], c);
    }
  }

  /**
    * No CPU is ever stuck: it has a next step, and one that loads can store if its monitor is still set; but the
    * monitor may go at any time, and then the CPU cannot store.
    */
  lemma AlwaysAStep(s: State, c: nat)
    requires c < |s.pcs| == |s.excl|
    ensures exists a :: a != LoseMonitor && Enabled(s, c, a)
    ensures s.pcs[c].LockLoaded? && s.excl[c] ==> Enabled(s, c, StoreNext)
    ensures s.pcs[c].TryEqual? && s.excl[c] ==> Enabled(s, c, TryStore)
    ensures Enabled(s, c, LoseMonitor)
    ensures var s' := Apply(s, c, LoseMonitor);
            s'.pcs == s.pcs && !Enabled(s', c, StoreNext) && !Enabled(s', c, TryStore)
  {
    var a := match s.pcs[c]
      case Out => LoadNext
      case LockRetry => LoadNext
      case LockLoaded(_) => FailNext
      case Waiting(_) => ReadOwner
      case TryLoaded(_) => TryCompare
      case TryEqual(_) => TryFail
      case Holding => UnlockLoad
      case Releasing(_) => UnlockStore;
    assert Enabled(s, c, a);
  }

  // A run in which is_locked is wrong.

  /** CPU 0 takes the lock and releases it, k times; then the rest. */
  function Rounds(k: nat, rest: Run): Run {
    if k == 0 then rest
    else [(0, LoadNext), (0, StoreNext), (0, ReadOwner), (0, UnlockLoad), (0, UnlockStore)] + Rounds(k - 1, rest)
  }

  ghost function Free(n: nat, o: nat): State {
    State(o, o, seq(n, i => Out), Cleared(n))
  }

  lemma FirstStep(s: State, f: Fifo, c: nat, a: Action, rest: Run)
    requires Enabled(s, c, a)
    ensures Possible(s, [(c, a)] + rest) <==> Possible(Apply(s, c, a), rest)
    ensures Possible(s, [(c, a)] + rest) ==> After(s, [(c, a)] + rest) == After(Apply(s, c, a), rest)
    ensures FifoAfter(f, [(c, a)] + rest) == FifoAfter(FifoApply(f, c, a), rest)
  {
    assert ([(c, a)] + rest)[1..] == rest;
  }

  /** Taking a free lock on CPU 0. */
  ghost function Asked(n: nat, o: nat): State {
    State(o, (o + 1) % U32, seq(n, i => if i == 0 then Waiting(o) else Out), Cleared(n))
  }

  lemma Asks(n: nat, o: nat, served: nat, rest: Run)
    requires n > 0 && o < U32
    ensures var run := [(0, LoadNext)] + ([(0, StoreNext)] + rest);
            && (Possible(Free(n, o), run) <==> Possible(Asked(n, o), rest))
            && (Possible(Free(n, o), run) ==> After(Free(n, o), run) == After(Asked(n, o), rest))
            && FifoAfter(Fifo([], served), run) == FifoAfter(Fifo([0], served), rest)
  {
    hide Possible, After, FifoAfter;
    var s, f := Free(n, o), Fifo([], served);
    FirstStep(s, f, 0, LoadNext, [(0, StoreNext)] + rest);
    var s1 := Apply(s, 0, LoadNext);
    FirstStep(s1, f, 0, StoreNext, rest);
    assert Apply(s1, 0, StoreNext) == Asked(n, o) && [] + [0] == [0];
  }

  lemma Answers(n: nat, o: nat, served: nat, rest: Run)
    requires n > 0 && o < U32
    ensures var run := [(0, ReadOwner)] + ([(0, UnlockLoad)] + ([(0, UnlockStore)] + rest));
            && (Possible(Asked(n, o), run) <==> Possible(Free(n, (o + 1) % U32), rest))
            && (Possible(Asked(n, o), run) ==> After(Asked(n, o), run) == After(Free(n, (o + 1) % U32), rest))
            && FifoAfter(Fifo([0], served), run) == FifoAfter(Fifo([], served + 1), rest)
  {
    hide Possible, After, FifoAfter;
    var s, f := Asked(n, o), Fifo([0], served);
    FirstStep(s, f, 0, ReadOwner, [(0, UnlockLoad)] + ([(0, UnlockStore)] + rest));
    var s1 := Apply(s, 0, ReadOwner);
    FirstStep(s1, f, 0, UnlockLoad, [(0, UnlockStore)] + rest);
    var s2 := Apply(s1, 0, UnlockLoad);
    FirstStep(s2, f, 0, UnlockStore, rest);
    assert f.queue[1..] == [];
    assert Apply(s2, 0, UnlockStore) == Free(n, (o + 1) % U32);
  }

  lemma OneRound(n: nat, o: nat, served: nat, rest: Run)
    requires n > 0 && o + 1 < U32
    ensures var run := [(0, LoadNext), (0, StoreNext), (0, ReadOwner), (0, UnlockLoad), (0, UnlockStore)] + rest;
            && (Possible(Free(n, o), run) <==> Possible(Free(n, o + 1), rest))
            && (Possible(Free(n, o), run) ==> After(Free(n, o), run) == After(Free(n, o + 1), rest))
            && FifoAfter(Fifo([], served), run) == FifoAfter(Fifo([], served + 1), rest)
  {
    hide *;
    var back := [(0, ReadOwner)] + ([(0, UnlockLoad)] + ([(0, UnlockStore)] + rest));
    assert [(0, LoadNext), (0, StoreNext), (0, ReadOwner), (0, UnlockLoad), (0, UnlockStore)] + rest
        == [(0, LoadNext)] + ([(0, StoreNext)] + back);
    Asks(n, o, served, back);
    Answers(n, o, served, rest);
  }

  lemma {:induction false} RoundsPass(n: nat, o: nat, k: nat, served: nat, rest: Run)
    requires n > 0 && o + k < U32
    ensures Possible(Free(n, o), Rounds(k, rest)) <==> Possible(Free(n, o + k), rest)
    ensures Possible(Free(n, o + k), rest) ==> After(Free(n, o), Rounds(k, rest)) == After(Free(n, o + k), rest)
    ensures FifoAfter(Fifo([], served), Rounds(k, rest)) == FifoAfter(Fifo([], served + k), rest)
    decreases k
  {
    hide Possible, After, FifoAfter, Free, Asked;
    if k == 0 {
      assert Rounds(0, rest) == rest;
    } else {
      OneRound(n, o, served, Rounds(k - 1, rest));
      RoundsPass(n, o + 1, k - 1, served + 1, rest);
    }
  }

  /** After 2^32 - 1 rounds the next ticket wraps around, and is_locked calls the lock that CPU 0 has taken free. */
  lemma IsLockedWraps(n: nat)
    requires 0 < n < U32
    ensures var run := Rounds(U32 - 1, [(0, LoadNext), (0, StoreNext)]);
            && Possible(Init(n), run) && var s := After(Init(n), run);
               s.owner == U32 - 1 && s.next == 0 && FifoAfter(Fifo([], 0), run).queue == [0]
  {
    hide Rounds, FifoApply;
    var two := [(0, LoadNext), (0, StoreNext)];
    assert two == [(0, LoadNext)] + ([(0, StoreNext)] + []);
    RoundsPass(n, 0, U32 - 1, 0, two);
    Asks(n, U32 - 1, U32 - 1, []);
    assert Possible(Asked(n, U32 - 1), []);
    assert Init(n) == Free(n, 0);
  }
}
