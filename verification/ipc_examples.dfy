/** Short runs from boot that reach the two limits: an affinity below -1, and a second call of a busy server. */
module IpcExamples {
  import opened Wrappers
  import opened SchedModel
  import opened SchedLaws
  import opened IpcChain
  import opened IpcRuns
  import opened IpcStrays
  import opened IpcLimits

  /** An event at the head of a run. */
  lemma RunsCons(p: Config, e: Event, es: seq<Event>)
    requires Good(p) && Enabled(p, e) && Good(Step(p, e)) && Runs(Step(p, e), es)
    ensures Runs(p, [e] + es) && After(p, [e] + es) == After(Step(p, e), es)
  {
    hide Good, Enabled, Step;
    assert ([e] + es)[1..] == es;
  }

  function Client(c: nat, x: nat): Event {
    Spawn(c, x, User, x, 0, 0, 0, NO_AFF)
  }

  /** A timer interrupt on an idle CPU whose queue holds t alone. */
  lemma FirstDispatch(s: Sys, c: nat, t: nat)
    requires Shape(s) && c < CPUS && s.current[c] == None && s.queues[c] == [t]
    ensures var s' := Interrupt(s, c, true);
            && t in s.threads && s'.current == s.current[c := Some(t)] && s'.queues == s.queues[c := []]
            && s'.threads == s.threads[t := Running(s.threads[t], c)] && s'.budget.Keys == s.budget.Keys
            && s'.idle == s.idle && s'.conns == s.conns
  {
    assert Tick(Tick(s, c), c) == s;
    assert t in s.queues[c];
    assert s.queues[c][1..] == [];
  }

  ghost predicate Unused(s: Sys, t: nat) {
    t !in s.threads && t !in s.budget
  }

  function Spawned(s: Sys, c: nat, x: nat): Sys
    requires |s.queues| == CPUS && c < CPUS
  {
    Enqueue(Create(s, x, Fresh(User, x, 0, 0, 0, NO_AFF)), c, x)
  }

  lemma SpawnFacts(s: Sys, c: nat, x: nat)
    requires Shape(s) && c < CPUS && s.queues[c] == [] && Unused(s, x)
    ensures var s' := Spawned(s, c, x);
            && s'.queues == s.queues[c := [x]] && s'.conns == s.conns && s'.current == s.current
            && x in s'.threads && s'.threads[x].kind == User
            && (forall t :: t in s'.threads <==> t in s.threads || t == x)
            && (forall t :: t in s'.budget <==> t in s.budget || t == x)
            && forall t :: t in s.threads ==> s'.threads[t] == s.threads[t]
  {
    assert [] + [x] == [x];
  }

  lemma SpawnStep(p: Config, c: nat, x: nat)
    requires Good(p) && c < CPUS && Unused(p.sys, x)
    ensures Enabled(p, Client(c, x)) && Step(p, Client(c, x)) == Config(Spawned(p.sys, c, x), p.chains[x := [x]])
    ensures Good(Step(p, Client(c, x)))
  {
    assert |p.sys.queues| == CPUS;
    hide Good, Shape;
    StepKeeps(p, Client(c, x));
  }

  lemma TimerStep(p: Config, c: nat)
    requires Good(p) && c < CPUS
    ensures Enabled(p, Timer(c)) && Step(p, Timer(c)) == Config(Interrupt(p.sys, c, true), p.chains)
    ensures Good(Step(p, Timer(c)))
  {
    hide Good, Interrupt;
    StepKeeps(p, Timer(c));
  }

  lemma ServerStep(p: Config, v: nat)
    requires Good(p) && Unused(p.sys, v)
    ensures var e, s, s' := AddServer(v, v, v), p.sys, Create(p.sys, v, Fresh(Shadow, v, v, 0, 0, NO_AFF));
            && Enabled(p, e) && Step(p, e) == Config(s', p.chains) && Good(Step(p, e))
            && s'.threads == s.threads[v := s'.threads[v]] && s'.threads[v].kind == Shadow
            && s'.threads[v].active == None
            && s'.queues == s.queues && s'.current == s.current && s'.conns == s.conns
            && s'.budget.Keys == s.budget.Keys + {v}
  {
    hide Good;
    StepKeeps(p, AddServer(v, v, v));
  }

  lemma ConnectStep(p: Config, v: nat)
    requires Good(p) && p.sys.conns == map[] && v in p.sys.threads && p.sys.threads[v].kind == Shadow
    ensures var e := Connect(0, v, 0);
            && Enabled(p, e) && Step(p, e) == Config(p.sys.(conns := map[0 := Conn(None, v, 0)]), p.chains)
            && Good(Step(p, e))
  {
    hide Good;
    StepKeeps(p, Connect(0, v, 0));
  }

  lemma CallFacts(s: Sys, v: nat)
    requires Shape(s) && InUser(s, 0) && s.conns == map[0 := Conn(None, v, 0)] && v in s.threads
             && s.current[0] != Some(v)
    ensures var s' := Call(s, 0, 0, 0);
            && s'.queues == s.queues && |s'.current| == CPUS && s'.current[1] == s.current[1]
            && s'.threads.Keys == s.threads.Keys && s'.budget == s.budget
            && s'.threads[v].active == Some(0) && 0 in s'.conns && s'.conns[0].target == v
  {
  }

  lemma CallStep(p: Config, v: nat)
    requires Good(p) && InUser(p.sys, 0) && p.sys.conns == map[0 := Conn(None, v, 0)]
    requires v in p.sys.threads && p.sys.threads[v].active == None && p.sys.current[0] != Some(v)
    ensures var e := CallOut(0, 0, 0);
            Enabled(p, e) && Good(Step(p, e)) && Step(p, e).sys == Call(p.sys, 0, 0, 0)
  {
    hide Good, InUser, Shape, Call, CallChains, MayCall;
    assert Callable(p, 0, 0);
    StepKeeps(p, CallOut(0, 0, 0));
  }

  lemma BootFacts(s0: Sys)
    requires Boot(s0)
    ensures Good(Config(s0, map[])) && Shape(s0) && s0.conns == map[]
    ensures forall c :: 0 <= c < CPUS ==> s0.queues[c] == [] && s0.current[c] == None
  {
    BootGood(s0);
    hide Inv, Chained, RootsOk;
  }

  lemma GoodShape(p: Config)
    requires Good(p)
    ensures Shape(p.sys)
  {
  }

  /** A new client on an idle CPU with an empty queue runs after the next timer interrupt. */
  lemma ClientStarts(p: Config, c: nat, x: nat)
    requires Good(p) && Shape(p.sys) && c < CPUS && p.sys.current[c] == None && p.sys.queues[c] == []
             && Unused(p.sys, x)
    ensures Runs(p, [Client(c, x), Timer(c)])
    ensures var s, p' := p.sys, After(p, [Client(c, x), Timer(c)]);
            && Good(p') && Shape(p'.sys) && var s' := p'.sys;
               && s'.current == s.current[c := Some(x)] && s'.queues == s.queues && s'.conns == s.conns
               && x in s'.threads && s'.threads[x].kind == User
               && (forall t :: t != x && Unused(s, t) ==> Unused(s', t))
               && forall t :: t in s.threads ==> t in s'.threads && s'.threads[t] == s.threads[t]
  {
    hide Good, Enabled, Step, Spawned, Interrupt, Runs, After;
    SpawnFacts(p.sys, c, x);
    SpawnStep(p, c, x);
    var p1 := Config(Spawned(p.sys, c, x), p.chains[x := [x]]);
    TimerStep(p1, c);
    GoodShape(p1);
    FirstDispatch(p1.sys, c, x);
    var p2 := Config(Interrupt(p1.sys, c, true), p1.chains);
    GoodShape(p2);
    NoEvents(p2);
    RunsCons(p1, Timer(c), []);
    assert [Timer(c)] + [] == [Timer(c)];
    RunsCons(p, Client(c, x), [Timer(c)]);
    assert [Client(c, x)] + [Timer(c)] == [Client(c, x), Timer(c)];
    assert p1.sys.queues[c := []] == p.sys.queues;
  }

  lemma NoEvents(p: Config)
    requires Good(p)
    ensures Runs(p, []) && After(p, []) == p
  {
  }

  /** A new server, a connection to it, and a call by the thread on CPU 0. */
  lemma ServerCalled(p: Config, x: nat, v: nat)
    requires Good(p) && Shape(p.sys) && p.sys.conns == map[] && Unused(p.sys, v)
    requires p.sys.current[0] == Some(x) && p.sys.threads[x].kind == User
    ensures var es := [AddServer(v, v, v), Connect(0, v, 0), CallOut(0, 0, 0)];
            && Runs(p, es) && Good(After(p, es)) && var s, s' := p.sys, After(p, es).sys;
               && Shape(s') && s'.queues == s.queues && s'.current[1] == s.current[1]
               && (forall t :: t != v && Unused(s, t) ==> Unused(s', t))
               && v in s'.threads && s'.threads[v].active == Some(0) && 0 in s'.conns && s'.conns[0].target == v
  {
    hide Good, Enabled, Step, Runs, After, Create, Call;
    ServerStep(p, v);
    var p1 := Config(Create(p.sys, v, Fresh(Shadow, v, v, 0, 0, NO_AFF)), p.chains);
    ConnectStep(p1, v);
    var p2 := Config(p1.sys.(conns := map[0 := Conn(None, v, 0)]), p1.chains);
    GoodShape(p2);
    CallStep(p2, v);
    CallFacts(p2.sys, v);
    var p3 := Step(p2, CallOut(0, 0, 0));
    GoodShape(p3);
    NoEvents(p3);
    RunsCons(p2, CallOut(0, 0, 0), []);
    assert [CallOut(0, 0, 0)] + [] == [CallOut(0, 0, 0)];
    RunsCons(p1, Connect(0, v, 0), [CallOut(0, 0, 0)]);
    assert [Connect(0, v, 0)] + [CallOut(0, 0, 0)] == [Connect(0, v, 0), CallOut(0, 0, 0)];
    RunsCons(p, AddServer(v, v, v), [Connect(0, v, 0), CallOut(0, 0, 0)]);
    assert [AddServer(v, v, v)] + [Connect(0, v, 0), CallOut(0, 0, 0)] ==
      [AddServer(v, v, v), Connect(0, v, 0), CallOut(0, 0, 0)];
  }

  /** Two runs, one after the other. */
  lemma {:induction false} RunsAppend(p: Config, es: seq<Event>, fs: seq<Event>)
    requires Good(p) && Runs(p, es) && Runs(After(p, es), fs)
    ensures Runs(p, es + fs) && After(p, es + fs) == After(After(p, es), fs)
    decreases |es|
  {
    hide Good, Enabled, Step;
    if es == [] {
      assert es + fs == fs;
    } else {
      StepKeeps(p, es[0]);
      RunsAppend(Step(p, es[0]), es[1..], fs);
      assert (es + fs)[1..] == es[1..] + fs;
    }
  }

  /** From any boot state a run of seven events, each allowed, leads to a second call of a busy server. */
  lemma BusyCallReached(s0: Sys, x: nat, v: nat, y: nat)
    requires Boot(s0) && Unused(s0, x) && Unused(s0, v) && Unused(s0, y) && x != v && x != y && v != y
    ensures var p0 := Config(s0, map[]);
            var es := [Client(0, x), Timer(0)] + [AddServer(v, v, v), Connect(0, v, 0), CallOut(0, 0, 0)]
                      + [Client(1, y), Timer(1)];
            && Good(p0) && Runs(p0, es) && Good(After(p0, es)) && var s := After(p0, es).sys;
               && Shape(s) && InUser(s, 1) && 0 in s.conns && s.conns[0].target in s.threads
               && s.threads[s.conns[0].target].active.Some?
  {
    hide Good, Enabled, Step, Runs, After, Boot;
    var p0 := Config(s0, map[]);
    BootFacts(s0);
    ClientStarts(p0, 0, x);
    var e1, e2, e3 := [Client(0, x), Timer(0)], [AddServer(v, v, v), Connect(0, v, 0), CallOut(0, 0, 0)],
      [Client(1, y), Timer(1)];
    var p1 := After(p0, e1);
    ServerCalled(p1, x, v);
    var p2 := After(p1, e2);
    ClientStarts(p2, 1, y);
    RunsAppend(p0, e1, e2);
    RunsAppend(p0, e1 + e2, e3);
  }

  /** From any boot state a run of two events leads to a thread that yields with affinity -2 and is stranded. */
  lemma BadAffinityReached(s0: Sys, x: nat)
    requires Boot(s0) && Unused(s0, x)
    ensures var p0 := Config(s0, map[]);
            var es := [Client(0, x), Timer(0)];
            && Good(p0) && Runs(p0, es) && var s := After(p0, es).sys;
               && Shape(s) && s.current[0] == Some(x) && x in s.threads && Shape(Affinity(s, x, -2))
               && Shape(Yield(Affinity(s, x, -2), 0)) && Stranded(Yield(Affinity(s, x, -2), 0), x)
  {
    hide Good, Enabled, Step, Runs, After, Boot, Yield, Affinity, Stranded;
    BootFacts(s0);
    ClientStarts(Config(s0, map[]), 0, x);
    YieldStrands(After(Config(s0, map[]), [Client(0, x), Timer(0)]), 0, -2);
  }
}
