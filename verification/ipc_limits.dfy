/** Where the guarantees end: calls of a busy server, and threads with an affinity that names no CPU. */
module IpcLimits {
  import opened Wrappers
  import opened SchedModel
  import opened SchedLaws
  import opened IpcChain
  import opened IpcRuns
  import opened IpcLaws
  import opened IpcStrays

  /** In a sound system a caller has one server at most. */
  lemma OneServer(s: Sys, ch: Chains, u: nat, v: nat, w: nat)
    requires Sound(s, ch) && v in s.threads && w in s.threads && Serves(s, u, v) && Serves(s, u, w)
    ensures v == w
  {
    var r, i := ServerPlace(s, ch, u, v);
    var q, j := ServerPlace(s, ch, u, w);
    hide Inv, ChainOk, OutsideOk, TopsPlaced;
    assert ch[r][i - 1] == ch[q][j - 1];
  }

  /** A server is in a chain, right above its caller. */
  lemma ServerPlace(s: Sys, ch: Chains, u: nat, v: nat) returns (r: nat, i: nat)
    requires Sound(s, ch) && v in s.threads && Serves(s, u, v)
    ensures r in ch && 0 < i < |ch[r]| && ch[r][i] == v && ch[r][i - 1] == u
  {
    hide Inv, Apart, TopsPlaced;
    assert InChain(ch, v);
    r :| r in ch && v in ch[r];
    i :| 0 <= i < |ch[r]| && ch[r][i] == v;
    assert ChainOk(s, ch[r]);
    assert i > 0 ==> Serves(s, ch[r][i - 1], ch[r][i]);
  }

  /** A waiting thread of a sound system has a server. */
  lemma WaitingIsServed(s: Sys, ch: Chains, u: nat) returns (w: nat)
    requires Sound(s, ch) && u in s.threads && s.threads[u].state == TsWaiting
    ensures w in s.threads && Serves(s, u, w)
  {
    WaitingNotPlaced(s, u);
    hide Inv, Apart, Placed;
    assert InChain(ch, u);
    var r :| r in ch && u in ch[r];
    var i :| 0 <= i < |ch[r]| && ch[r][i] == u;
    assert i < |ch[r]| - 1;
    w := ch[r][i + 1];
    assert ChainOk(s, ch[r]);
    assert Serves(s, ch[r][i], ch[r][i + 1]);
  }

  /** Whom the server works for at the time of the second call. */
  lemma BusyServer(s: Sys, ch: Chains, c: nat, v: nat) returns (u: nat)
    requires Sound(s, ch) && InUser(s, c) && v in s.threads && s.threads[v].active.Some?
    ensures u in s.threads && s.threads[u].state == TsWaiting && Serves(s, u, v) && u != s.current[c].value && u != v
  {
    CurrentAlone(s, c);
    hide Inv, TopsPlaced, Placed;
    assert InChain(ch, v);
    var r :| r in ch && v in ch[r];
    var i :| 0 <= i < |ch[r]| && ch[r][i] == v;
    assert ChainOk(s, ch[r]);
    assert i > 0;
    u := ch[r][i - 1];
    assert Serves(s, ch[r][i - 1], ch[r][i]);
  }

  /** Which servers of u a second call of v leaves: all but v. */
  lemma SecondCall(s: Sys, c: nat, cn: nat, arg: nat, u: nat, w: nat)
    requires Shape(s) && InUser(s, c) && cn in s.conns && s.conns[cn].target in s.threads
    requires u in s.threads && u != s.current[c].value && u != s.conns[cn].target
    ensures var s' := Call(s, c, cn, arg);
            && s'.threads.Keys == s.threads.Keys && s'.threads[u] == s.threads[u]
            && (w in s.threads && Serves(s', u, w) ==> w != s.conns[cn].target && Serves(s, u, w))
  {
  }

  lemma BusyCallBreaks(s: Sys, ch: Chains, c: nat, cn: nat, arg: nat, ch': Chains)
    requires Sound(s, ch) && InUser(s, c) && cn in s.conns && s.conns[cn].target in s.threads
    requires s.threads[s.conns[cn].target].active.Some?
    ensures !Sound(Call(s, c, cn, arg), ch')
  {
    var v, s' := s.conns[cn].target, Call(s, c, cn, arg);
    var u := BusyServer(s, ch, c, v);
    hide IdleOk, QueuesOk, ReadyOk, LimitsOk, CurrentOkAt, Chained, Call, Serves;
    SecondCall(s, c, cn, arg, u, u);
    if Sound(s', ch') {
      var w := WaitingIsServed(s', ch', u);
      SecondCall(s, c, cn, arg, u, w);
      OneServer(s, ch, u, v, w);
    }
  }

  /**
    * A call keeps the system sound exactly when its server serves no other call. A second call of a busy server
    * overwrites for whom it works: WaitsForever says what becomes of that thread.
    */
  lemma CallSoundExactly(p: Config, c: nat, cn: nat, arg: nat)
    requires Good(p) && InUser(p.sys, c) && cn in p.sys.conns
    ensures p.sys.conns[cn].target in p.sys.threads
    ensures (exists ch: Chains :: Sound(Call(p.sys, c, cn, arg), ch)) <==>
            p.sys.threads[p.sys.conns[cn].target].active == None
  {
    var s := p.sys;
    assert p.sys.conns[cn].target in p.sys.threads;
    if s.threads[s.conns[cn].target].active == None {
      CallOutGood(p, c, cn, arg);
      assert Sound(Call(s, c, cn, arg), CalledOut(p, c, cn, arg).chains) by {
        hide Inv, Chained, Call, CallChains, RootsOk;
      }
    } else {
      hide Inv, Chained, Call, RootsOk;
      forall ch: Chains
        ensures !Sound(Call(s, c, cn, arg), ch)
      {
        BusyCallBreaks(s, p.chains, c, cn, arg, ch);
      }
    }
  }

  /**
    * The scheduler keeps the thread it takes off a CPU exactly when the thread's affinity is no affinity or names a
    * CPU. sys_set_affinity lets numbers below -1 pass: NeverRunsAgain says what becomes of such a thread.
    */
  lemma KeptExactly(s: Sys, c: nat, t: nat)
    requires Shape(s) && c < CPUS && s.current[c] == Some(t) && s.budget[s.threads[t].sc] == 0
    requires s.threads[t].kind != Idle && s.threads[t].state != TsReady && t != s.idle[c]
    requires forall k :: 0 <= k < CPUS ==> t !in s.queues[k]
    requires forall d :: 0 <= d < CPUS && d != c ==> s.current[d] != Some(t)
    ensures Shape(Sched(s, c))
    ensures Placed(Sched(s, c), t) <==> s.threads[t].affinity == NO_AFF || 0 <= s.threads[t].affinity < CPUS
  {
    var s1, s', k := Requeue(s, c), Sched(s, c), Assigned(s.threads[t], c);
    RequeueShape(s, c);
    assert s1.queues[c] != [] ==> s1.queues[c] == [s1.queues[c][0]] + s1.queues[c][1..];
    if Accepts(s.threads[t], c) {
      assert t in s1.queues[k];
      assert t in s'.queues[k] || s'.current[c] == Some(t);
    } else {
      assert s1 == s;
    }
  }

  // What becomes of the threads lost.

  /** Good systems are among those in which callers keep no rule. */
  lemma GoodWired(p: Config)
    requires Good(p)
    ensures Wired(p.sys)
  {
    hide IdleOk, QueuesOk, ReadyOk, LimitsOk, CurrentOkAt, Placed, Apart, TopsPlaced;
    var s, ch := p.sys, p.chains;
    forall t | t in s.threads && s.threads[t].active.Some?
      ensures var cn := s.threads[t].active.value;
              cn in s.conns && s.conns[cn].source.Some? && s.conns[cn].source.value in s.threads
    {
      assert InChain(ch, t);
      var r :| r in ch && t in ch[r];
      var i :| 0 <= i < |ch[r]| && ch[r][i] == t;
      assert ChainOk(s, ch[r]);
      assert i > 0 ==> Serves(s, ch[r][i - 1], ch[r][i]);
    }
  }

  /** Whoever serves an active connection of u is u's server. */
  lemma ActiveSourceServes(p: Config, u: nat, t: nat)
    requires Good(p) && t in p.sys.threads && p.sys.threads[t].active.Some? && Wired(p.sys)
    requires p.sys.conns[p.sys.threads[t].active.value].source == Some(u)
    ensures Serves(p.sys, u, t)
  {
    hide IdleOk, QueuesOk, ReadyOk, LimitsOk, CurrentOkAt, Placed, Apart, TopsPlaced;
    var s, ch := p.sys, p.chains;
    assert InChain(ch, t);
    var r :| r in ch && t in ch[r];
    var i :| 0 <= i < |ch[r]| && ch[r][i] == t;
    assert ChainOk(s, ch[r]);
    assert i > 0 ==> Serves(s, ch[r][i - 1], ch[r][i]);
  }

  /** A waiting thread is no idle thread. */
  lemma WaitingIsNotIdle(s: Sys, u: nat)
    requires Inv(s) && u in s.threads && s.threads[u].state == TsWaiting
    ensures u !in s.idle
  {
    hide QueuesOk, ReadyOk, LimitsOk, CurrentOkAt;
  }

  /** After the second call nobody serves u any more. */
  lemma NobodyServes(p: Config, c: nat, cn: nat, arg: nat, u: nat)
    requires Good(p) && Wired(p.sys) && InUser(p.sys, c) && cn in p.sys.conns
    requires Serves(p.sys, u, p.sys.conns[cn].target) && u != p.sys.current[c].value
    ensures var s' := Call(p.sys, c, cn, arg);
            forall x :: x in s'.threads && s'.threads[x].active.Some? && s'.threads[x].active.value in s'.conns ==>
              s'.conns[s'.threads[x].active.value].source != Some(u)
  {
    hide Inv, Chained, RootsOk, Call, Serves, Placed;
    var s, s', v := p.sys, Call(p.sys, c, cn, arg), p.sys.conns[cn].target;
    forall x | x in s'.threads && s'.threads[x].active.Some? && s'.threads[x].active.value in s'.conns
      ensures s'.conns[s'.threads[x].active.value].source != Some(u)
    {
      if s'.conns[s'.threads[x].active.value].source == Some(u) {
        CallKeys(s, c, cn, arg);
        CallActives(s, c, cn, arg, x, u);
        ActiveSourceServes(p, u, x);
        OneServer(s, p.chains, u, v, x);
      }
    }
  }

  lemma CallKeys(s: Sys, c: nat, cn: nat, arg: nat)
    requires Wired(s) && InUser(s, c) && cn in s.conns
    ensures Call(s, c, cn, arg).threads.Keys == s.threads.Keys
  {
  }

  /** After a second call of its server nothing leads to the first caller any more. */
  lemma SecondCallStrands(p: Config, c: nat, cn: nat, arg: nat) returns (u: nat)
    requires Good(p) && InUser(p.sys, c) && cn in p.sys.conns && p.sys.conns[cn].target in p.sys.threads
    requires p.sys.threads[p.sys.conns[cn].target].active.Some?
    ensures var s, s' := p.sys, Call(p.sys, c, cn, arg);
            && u in s.threads && Serves(s, u, s.conns[cn].target) && Wired(s') && Stranded(s', u)
            && s'.threads[u] == s.threads[u] && s'.threads[u].state == TsWaiting
  {
    var s, v, t := p.sys, p.sys.conns[cn].target, p.sys.current[c].value;
    var s' := Call(s, c, cn, arg);
    GoodWired(p);
    u := BusyServer(s, p.chains, c, v);
    WaitingNotPlaced(s, u);
    WaitingIsNotIdle(s, u);
    CallStray(s, c, cn, arg, u);
    CallLeaves(s, c, cn, arg, u);
    NobodyServes(p, c, cn, arg, u);
    CallStrands(s', u);
  }

  lemma CallLeaves(s: Sys, c: nat, cn: nat, arg: nat, u: nat)
    requires Wired(s) && InUser(s, c) && cn in s.conns && u in s.threads && !Placed(s, u) && u != s.conns[cn].target
    ensures var s' := Call(s, c, cn, arg);
            && Shape(s') && s'.threads.Keys == s.threads.Keys && s'.threads[u] == s.threads[u]
            && s'.idle == s.idle && !Placed(s', u)
  {
    var t := s.current[c].value;
    assert t != u;
  }

  /** Who serves a call of u after another thread called, did so before, and is not the thread called. */
  lemma CallActives(s: Sys, c: nat, cn: nat, arg: nat, x: nat, u: nat)
    requires Wired(s) && InUser(s, c) && cn in s.conns && x in s.threads && u != s.current[c].value
    ensures var s' := Call(s, c, cn, arg);
            && x in s'.threads
            && (s'.threads[x].active.Some? && s'.threads[x].active.value in s'.conns
                && s'.conns[s'.threads[x].active.value].source == Some(u) ==>
                  && x != s.conns[cn].target && s.threads[x].active.Some?
                  && s.conns[s.threads[x].active.value].source == Some(u))
  {
    hide Placed;
  }

  lemma CallStrands(s: Sys, u: nat)
    requires Shape(s) && u in s.threads && u !in s.idle && !Placed(s, u)
    requires forall x :: x in s.threads && s.threads[x].active.Some? && s.threads[x].active.value in s.conns ==>
               s.conns[s.threads[x].active.value].source != Some(u)
    ensures Stranded(s, u)
  {
    hide Shape, Placed;
  }

  /**
    * The first caller of a busy server waits for ever: whatever happens after the second call, it waits and has no
    * place. (Unless it is a server itself and somebody calls it.)
    */
  lemma WaitsForever(p: Config, c: nat, cn: nat, arg: nat) returns (u: nat)
    requires Good(p) && InUser(p.sys, c) && cn in p.sys.conns && p.sys.conns[cn].target in p.sys.threads
    requires p.sys.threads[p.sys.conns[cn].target].active.Some?
    ensures u in p.sys.threads && Serves(p.sys, u, p.sys.conns[cn].target)
    ensures var s' := Call(p.sys, c, cn, arg);
            && Wired(s') && u in s'.threads
            && forall es: seq<Event> :: FreeRuns(s', es) && (s'.threads[u].kind == Shadow ==> AvoidsAll(s', es, u)) ==>
                 var s2 := FreeAfter(s', es);
                 u in s2.threads && s2.threads[u].state == TsWaiting && !Placed(s2, u)
  {
    u := SecondCallStrands(p, c, cn, arg);
    var s' := Call(p.sys, c, cn, arg);
    hide Wired, Call, Serves, InUser;
    forall es: seq<Event> | FreeRuns(s', es) && (s'.threads[u].kind == Shadow ==> AvoidsAll(s', es, u))
      ensures var s2 := FreeAfter(s', es);
              Shape(s2) && u in s2.threads && s2.threads[u].state == TsWaiting && !Placed(s2, u)
    {
      if s'.threads[u].kind != Shadow {
        ClientStrandedForever(s', es, u);
      }
      StrandedForever(s', es, u);
      WiredShape(FreeAfter(s', es), u);
    }
  }

  /** A thread waits while somebody serves a call of it. */
  lemma SourceWaits(p: Config, u: nat, x: nat)
    requires Good(p) && Wired(p.sys) && x in p.sys.threads && p.sys.threads[x].active.Some?
    requires p.sys.conns[p.sys.threads[x].active.value].source == Some(u)
    ensures u in p.sys.threads && p.sys.threads[u].state == TsWaiting
  {
    ActiveSourceServes(p, u, x);
    var r, i := ServerPlace(p.sys, p.chains, u, x);
    assert ChainOk(p.sys, p.chains[r]);
    assert p.sys.threads[p.chains[r][i - 1]].state == TsWaiting;
  }

  /** Nobody serves a call of the thread that runs on a CPU. */
  lemma CurrentIsNoSource(p: Config, c: nat, x: nat)
    requires Good(p) && Wired(p.sys) && InUser(p.sys, c) && x in p.sys.threads && p.sys.threads[x].active.Some?
    ensures p.sys.conns[p.sys.threads[x].active.value].source != p.sys.current[c]
  {
    CurrentAlone(p.sys, c);
    hide Inv, Chained, RootsOk;
    if p.sys.conns[p.sys.threads[x].active.value].source == p.sys.current[c] {
      SourceWaits(p, p.sys.current[c].value, x);
    }
  }

  /** A running thread that sets its affinity below -1 and yields is stranded. */
  lemma YieldStrands(p: Config, c: nat, aff: int)
    requires Good(p) && InUser(p.sys, c) && aff < NO_AFF
    ensures var t := p.sys.current[c].value;
            && t in p.sys.threads && Shape(Affinity(p.sys, t, aff))
            && var s' := Yield(Affinity(p.sys, t, aff), c);
               Wired(s') && Stranded(s', t) && s'.threads[t].kind == p.sys.threads[t].kind
  {
    var s, t := p.sys, p.sys.current[c].value;
    var s1 := Affinity(s, t, aff);
    GoodWired(p);
    AffinityStray(s, t, aff, t);
    BudgetPasses(s1, Spend(s1, c).budget, t);
    SchedPasses(Spend(s1, c), c, t);
    PassedTwice(s1, Spend(s1, c), Yield(s1, c), t);
    PassedWired(s1, Yield(s1, c), t);
    YieldPlace(s, c, aff);
    forall x | x in s.threads && s.threads[x].active.Some?
      ensures s.conns[s.threads[x].active.value].source != Some(t)
    {
      CurrentIsNoSource(p, c, x);
    }
    hide Inv, Chained, RootsOk, Placed, Yield, Spend, Sched;
    AffinityActives(s, t, aff, Yield(s1, c));
    CallStrands(Yield(s1, c), t);
  }

  lemma AffinityActives(s: Sys, t: nat, aff: int, s': Sys)
    requires Wired(s) && t in s.threads && Shape(Affinity(s, t, aff)) && PassedBy(Affinity(s, t, aff), s', t)
    ensures s'.threads.Keys == s.threads.Keys && s'.conns == s.conns && s'.idle == s.idle
    ensures s'.threads[t].kind == s.threads[t].kind
    ensures forall x :: x in s.threads ==> s'.threads[x].active == s.threads[x].active
  {
    hide Shape, Placed;
  }

  lemma YieldPlace(s: Sys, c: nat, aff: int)
    requires Inv(s) && InUser(s, c) && aff < NO_AFF
    ensures var t := s.current[c].value;
            && Shape(Affinity(s, t, aff)) && Shape(Yield(Affinity(s, t, aff), c)) && t !in s.idle
            && !Placed(Yield(Affinity(s, t, aff), c), t)
  {
    var t := s.current[c].value;
    CurrentAlone(s, c);
    forall k | 0 <= k < CPUS
      ensures t !in s.queues[k]
    {
      PlacedOnce(s, t, c, k);
    }
    hide QueuesOk, ReadyOk, LimitsOk, CurrentOkAt;
    KeptExactly(Spend(Affinity(s, t, aff), c), c, t);
  }

  /** A thread that did so never has a place again, be it on a queue or on a CPU, unless it is a server and called. */
  lemma NeverRunsAgain(p: Config, c: nat, aff: int, es: seq<Event>)
    requires Good(p) && InUser(p.sys, c) && aff < NO_AFF
    ensures var t := p.sys.current[c].value;
            && t in p.sys.threads && Shape(Affinity(p.sys, t, aff))
            && var s' := Yield(Affinity(p.sys, t, aff), c);
               Wired(s') && (FreeRuns(s', es) && (p.sys.threads[t].kind == Shadow ==> AvoidsAll(s', es, t)) ==>
                 !Placed(FreeAfter(s', es), t))
  {
    hide IdleOk, QueuesOk, ReadyOk, LimitsOk, CurrentOkAt, Chained, RootsOk, Wired, Yield, Affinity, Stranded, Placed;
    YieldStrands(p, c, aff);
    var t := p.sys.current[c].value;
    var s' := Yield(Affinity(p.sys, t, aff), c);
    if FreeRuns(s', es) && (p.sys.threads[t].kind == Shadow ==> AvoidsAll(s', es, t)) {
      if p.sys.threads[t].kind != Shadow {
        ClientStrandedForever(s', es, t);
      }
      StrandedForever(s', es, t);
      WiredShape(FreeAfter(s', es), t);
    }
  }
}
