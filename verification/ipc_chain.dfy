/** Synchronous IPC by thread migration: call chains and the whole system's runs. */
module IpcChain {
  import opened Wrappers
  import opened SchedModel
  import opened SchedLaws

  /** The call chains: for each client thread the stack of threads that work for it, itself first. */
  type Chains = map<nat, seq<nat>>

  function Top(q: seq<nat>): nat
    requires q != []
  {
    q[|q| - 1]
  }

  /** thread_migrate_to_server: the caller waits, the target runs with the caller's scheduling context. */
  function Call(s: Sys, c: nat, cn: nat, arg: nat): Sys
    requires Shape(s) && c < CPUS && s.current[c].Some? && cn in s.conns && s.conns[cn].target in s.threads
  {
    var t, v := s.current[c].value, s.conns[cn].target;
    var waiting := s.threads[t].(state := TsWaiting);
    var threads := s.threads[t := waiting];
    var server := threads[v].(active := Some(cn), sp := s.conns[cn].stackTop, ip := threads[v].callback, x0 := arg,
                              sc := waiting.sc);
    SwitchTo(s.(conns := s.conns[cn := s.conns[cn].(source := Some(t))], threads := threads[v := server]), c, v)
  }

  /** thread_migrate_to_client, if the current thread serves a call; otherwise nothing happens. */
  function Return(s: Sys, c: nat, ret: nat): Sys
    requires Shape(s) && c < CPUS && s.current[c].Some?
    requires var a := s.threads[s.current[c].value].active;
             a.Some? ==>
                 a.value in s.conns && s.conns[a.value].source.Some? && s.conns[a.value].source.value in s.threads
  {
    var t := s.current[c].value;
    var a := s.threads[t].active;
    if a == None then s
    else
      var u := s.conns[a.value].source.value;
      var threads := s.threads[t := s.threads[t].(active := None)];
      SwitchTo(s.(threads := threads[u := threads[u].(x0 := ret)]), c, u)
  }

  /**
    * After a call the caller waits, and the target runs on its CPU: at the handler, on the connection's stack, with the
    * argument, in the caller's scheduling context, serving this connection for the caller. Nothing else has changed.
    */
  lemma CallServes(s: Sys, c: nat, cn: nat, arg: nat)
    requires Shape(s) && c < CPUS && s.current[c].Some? && cn in s.conns && s.conns[cn].target in s.threads
    requires s.conns[cn].target != s.current[c].value
    ensures var u, v, s' := s.current[c].value, s.conns[cn].target, Call(s, c, cn, arg);
            && u in s.threads && u in s'.threads && v in s'.threads
            && var x, y := s.threads[u], s.threads[v];
            && s'.threads[u] == x.(state := TsWaiting)
            && s'.threads[v] == Thread(TsRunning, y.kind, y.affinity, c, x.sc, Some(cn), y.callback, arg, y.callback,
                                       s.conns[cn].stackTop)
            && s'.threads.Keys == s.threads.Keys
            && (forall t :: t in s.threads && t != u && t != v ==> s'.threads[t] == s.threads[t])
            && s'.conns == s.conns[cn := Conn(Some(u), v, s.conns[cn].stackTop)]
            && s'.current == s.current[c := Some(v)]
            && s'.queues == s.queues && s'.budget == s.budget && s'.idle == s.idle
  {
  }

  /**
    * After a return the caller runs on this CPU with the result, as it was but for that; the server serves nobody, and
    * nothing else has changed. A thread that serves no call goes on.
    */
  lemma ReturnResumes(s: Sys, c: nat, ret: nat)
    requires Shape(s) && c < CPUS && s.current[c].Some?
    requires var a := s.threads[s.current[c].value].active;
             a.Some? ==>
                 a.value in s.conns && s.conns[a.value].source.Some? && s.conns[a.value].source.value in s.threads
                 && s.conns[a.value].source.value != s.current[c].value
    ensures var v, s' := s.current[c].value, Return(s, c, ret);
            var a := s.threads[v].active;
            if a == None then s' == s
            else
              var u := s.conns[a.value].source.value;
              && v in s'.threads && u in s'.threads
              && s'.threads[u] == s.threads[u].(state := TsRunning, cpuid := c, x0 := ret)
              && s'.threads[v] == s.threads[v].(active := None)
              && s'.threads.Keys == s.threads.Keys
              && (forall t :: t in s.threads && t != u && t != v ==> s'.threads[t] == s.threads[t])
              && s' == s.(threads := s'.threads, current := s.current[c := Some(u)])
  {
  }

  ghost predicate Within(s: Sys, ch: Chains) {
    forall r :: r in ch ==> ch[r] != [] && ch[r][0] == r && forall i :: 0 <= i < |ch[r]| ==> ch[r][i] in s.threads
  }

  /** No thread is in two chains or twice in one. */
  ghost predicate Apart(ch: Chains) {
    forall q, r, i, j :: q in ch && r in ch && 0 <= i < |ch[q]| && 0 <= j < |ch[r]| && ch[q][i] == ch[r][j] ==>
        q == r && i == j
  }

  /** v serves a call made by u. */
  ghost predicate Serves(s: Sys, u: nat, v: nat)
    requires v in s.threads
  {
    var a := s.threads[v].active;
    a.Some? && a.value in s.conns && s.conns[a.value] == s.conns[a.value].(source := Some(u), target := v)
  }

  /** A chain: every caller waits for the thread above it, and all run on the client's context. */
  ghost predicate ChainOk(s: Sys, q: seq<nat>)
    requires q != [] && forall i :: 0 <= i < |q| ==> q[i] in s.threads
  {
    && s.threads[q[0]].active == None
    && (forall i :: 0 <= i < |q| - 1 ==> s.threads[q[i]].state == TsWaiting)
    && (forall i :: 0 < i < |q| ==> Serves(s, q[i - 1], q[i]))
    && (forall i :: 0 <= i < |q| ==> s.threads[q[i]].sc == s.threads[q[0]].sc && s.threads[q[i]].kind != Idle)
  }

  ghost predicate InChain(ch: Chains, t: nat) {
    exists r :: r in ch && t in ch[r]
  }

  /** Outside chains nobody serves or waits. */
  ghost predicate OutsideOk(s: Sys, ch: Chains) {
    forall t :: t in s.threads && !InChain(ch, t) ==> s.threads[t].active == None && s.threads[t].state != TsWaiting
  }

  /** Of each chain exactly the top has a place; and whoever has a place, but idle threads, is a top. */
  ghost predicate TopsPlaced(s: Sys, ch: Chains)
    requires Shape(s) && Within(s, ch)
  {
    && (forall r :: r in ch ==> Placed(s, Top(ch[r])))
    && (forall t :: t in s.threads && s.threads[t].kind != Idle && Placed(s, t) ==>
          exists r :: r in ch && Top(ch[r]) == t)
  }

  ghost predicate Chained(s: Sys, ch: Chains)
    requires Shape(s)
  {
    && Within(s, ch) && Apart(ch)
    && (forall r :: r in ch ==> ChainOk(s, ch[r]))
    && OutsideOk(s, ch) && TopsPlaced(s, ch)
  }

  /** The system's invariant. */
  ghost predicate Sound(s: Sys, ch: Chains) {
    Inv(s) && Chained(s, ch)
  }

  /** A step of the scheduler, as seen from the chains. */
  ghost predicate SameIpc(s: Sys, s': Sys)
    requires Shape(s) && Shape(s')
  {
    && s'.conns == s.conns && s'.threads.Keys == s.threads.Keys
    && forall t :: t in s.threads ==>
         var x, y := s.threads[t], s'.threads[t];
         && x.active == y.active && x.sc == y.sc && x.kind == y.kind
         && (x.state == TsWaiting <==> y.state == TsWaiting)
         && (x.kind != Idle ==> (Placed(s, t) <==> Placed(s', t)))
  }

  lemma SameChain(s: Sys, s': Sys, q: seq<nat>)
    requires Shape(s) && Shape(s') && SameIpc(s, s')
    requires q != [] && (forall i :: 0 <= i < |q| ==> q[i] in s.threads) && ChainOk(s, q)
    ensures ChainOk(s', q)
  {
    hide Shape, Placed;
    assert forall i :: 0 < i < |q| ==> Serves(s, q[i - 1], q[i]);
  }

  lemma SameTops(s: Sys, s': Sys, ch: Chains)
    requires Shape(s) && Shape(s') && SameIpc(s, s') && Within(s, ch) && Within(s', ch)
    requires TopsPlaced(s, ch) && forall r :: r in ch ==> ChainOk(s, ch[r])
    ensures TopsPlaced(s', ch)
  {
    hide Shape, Placed;
    forall r | r in ch
      ensures Placed(s', Top(ch[r]))
    {
      assert ChainOk(s, ch[r]);
    }
  }

  lemma SameIpcKeeps(s: Sys, s': Sys, ch: Chains)
    requires Shape(s) && Shape(s') && Chained(s, ch) && SameIpc(s, s')
    ensures Chained(s', ch)
  {
    hide Shape, Placed, Apart, InChain, ChainOk, TopsPlaced;
    SameTops(s, s', ch);
    forall r | r in ch
      ensures ChainOk(s', ch[r])
    {
      SameChain(s, s', ch[r]);
    }
  }

  /** A thread that no call is using: it may be the target of a new call. */
  ghost predicate Unengaged(s: Sys, v: nat)
    requires Shape(s)
  {
    && v in s.threads && s.threads[v].kind != Idle
    && s.threads[v].active == None && s.threads[v].state != TsWaiting && !Placed(s, v)
  }

  /** These are exactly the threads outside all chains. */
  lemma UnengagedExactly(s: Sys, ch: Chains, v: nat)
    requires Sound(s, ch) && v in s.threads && s.threads[v].kind != Idle
    ensures Unengaged(s, v) <==> !InChain(ch, v)
  {
    forall r | r in ch && Top(ch[r]) == v
      ensures v in ch[r]
    {
    }
    if InChain(ch, v) {
      var r :| r in ch && v in ch[r];
      var i :| 0 <= i < |ch[r]| && ch[r][i] == v;
      assert ChainOk(s, ch[r]);
      assert i > 0 ==> Serves(s, ch[r][i - 1], ch[r][i]);
      assert i == |ch[r]| - 1 ==> Placed(s, v);
    }
  }

  /** The chain whose top is t. */
  ghost function ChainOf(ch: Chains, t: nat): (r: nat)
    requires exists r :: r in ch && ch[r] != [] && Top(ch[r]) == t
    ensures r in ch && ch[r] != [] && Top(ch[r]) == t
  {
    var r :| r in ch && ch[r] != [] && Top(ch[r]) == t;
    r
  }

  /** The running thread of a CPU, if not idle, is the top of a chain. */
  lemma CurrentIsTop(s: Sys, ch: Chains, c: nat)
    requires Sound(s, ch) && c < CPUS && s.current[c].Some? && s.threads[s.current[c].value].kind != Idle
    ensures exists r :: r in ch && ch[r] != [] && Top(ch[r]) == s.current[c].value
  {
    assert Placed(s, s.current[c].value);
  }

  /** The state between the stores of a migration and the switch. */
  ghost predicate Handover(s: Sys, s1: Sys, t: nat, v: nat, c: nat)
    requires Shape(s)
  {
    && c < CPUS && s.current[c] == Some(t) && v in s.threads && v != t
    && s1.queues == s.queues && s1.current == s.current && s1.budget == s.budget && s1.idle == s.idle
    && s1.threads.Keys == s.threads.Keys
    && (forall x :: x in s.threads && x != t && x != v ==> s1.threads[x] == s.threads[x])
    && s1.threads[t].state != TsReady && s1.threads[v].state == s.threads[v].state
    && (forall x :: x == t || x == v ==>
          var y, z := s.threads[x], s1.threads[x];
          z.kind == y.kind && z.affinity == y.affinity && z.cpuid == y.cpuid && z.sc in s.budget)
  }

  lemma HandoverKeeps(s: Sys, s1: Sys, t: nat, v: nat, c: nat)
    requires Inv(s) && Handover(s, s1, t, v, c)
    requires s.threads[t].kind != Idle && s.threads[v].kind != Idle && !Placed(s, v)
    ensures Shape(s1) && Inv(SwitchTo(s1, c, v))
  {
    hide IdleOk, QueuesOk, ReadyOk, LimitsOk, Placed;
    CurrentAlone(s, c);
    NotReady(s, v);
    assert Shape(s1) && SameReady(s, s1);
    SameReadyQueues(s, s1);
    SameReadyReady(s, s1);
    HandoverRest(s, s1, t, v, c);
    forall d | 0 <= d < CPUS && d != c
      ensures CurrentOkAt(s1, d) && s1.current[d] != Some(v)
    {
      assert CurrentOkAt(s, d);
    }
    SwitchKeeps(s1, c, v);
  }

  lemma NotReady(s: Sys, v: nat)
    requires Inv(s) && v in s.threads && !Placed(s, v)
    ensures s.threads[v].state != TsReady
    ensures forall d :: 0 <= d < CPUS ==> s.current[d] != Some(v)
  {
    hide IdleOk, QueuesOk, LimitsOk, CurrentOkAt;
  }

  lemma HandoverRest(s: Sys, s1: Sys, t: nat, v: nat, c: nat)
    requires Shape(s) && Shape(s1) && IdleOk(s) && LimitsOk(s) && Handover(s, s1, t, v, c)
    requires s.threads[t].kind != Idle && s.threads[v].kind != Idle
    ensures IdleOk(s1) && LimitsOk(s1)
  {
  }

  /** A thread may call: it runs on the CPU and is not an idle thread. */
  ghost predicate MayCall(s: Sys, c: nat, cn: nat)
    requires Shape(s)
  {
    && c < CPUS && s.current[c].Some? && s.threads[s.current[c].value].kind != Idle
    && cn in s.conns && Unengaged(s, s.conns[cn].target)
  }

  ghost function CallChains(s: Sys, ch: Chains, c: nat, cn: nat): Chains
    requires Sound(s, ch) && MayCall(s, c, cn)
  {
    CurrentIsTop(s, ch, c);
    var r := ChainOf(ch, s.current[c].value);
    ch[r := ch[r] + [s.conns[cn].target]]
  }

  /** What a call changes: t waits, v serves connection cn on CPU c. */
  ghost predicate Called(s: Sys, s': Sys, t: nat, v: nat, c: nat, cn: nat, arg: nat)
    requires Shape(s)
  {
    && c < CPUS && cn in s.conns && t in s.threads && v in s.threads && t != v
    && s.current[c] == Some(t) && s.conns[cn].target == v
    && s'.threads.Keys == s.threads.Keys
    && s'.conns == s.conns[cn := s.conns[cn].(source := Some(t))]
    && s'.threads[t] == s.threads[t].(state := TsWaiting)
    && s'.threads[v] == s.threads[v].(state := TsRunning, cpuid := c, active := Some(cn),
         sp := s.conns[cn].stackTop, ip := s.threads[v].callback, x0 := arg, sc := s.threads[t].sc)
    && (forall x :: x in s.threads && x != t && x != v ==> s'.threads[x] == s.threads[x])
    && s'.queues == s.queues && s'.current == s.current[c := Some(v)] && s'.idle == s.idle && s'.budget == s.budget
  }

  lemma CallerIsNotTarget(s: Sys, c: nat, cn: nat)
    requires Shape(s) && MayCall(s, c, cn)
    ensures s.current[c].value != s.conns[cn].target
  {
    assert Placed(s, s.current[c].value);
  }

  lemma CallEffect(s: Sys, c: nat, cn: nat, arg: nat)
    requires Shape(s) && MayCall(s, c, cn)
    ensures Called(s, Call(s, c, cn, arg), s.current[c].value, s.conns[cn].target, c, cn, arg)
  {
    CallerIsNotTarget(s, c, cn);
    hide Placed;
  }

  lemma CallInv(s: Sys, c: nat, cn: nat, arg: nat)
    requires Inv(s) && MayCall(s, c, cn)
    ensures Inv(Call(s, c, cn, arg))
  {
    hide IdleOk, QueuesOk, ReadyOk, LimitsOk, CurrentOkAt, Placed;
    CallerIsNotTarget(s, c, cn);
    CurrentAlone(s, c);
    var t, v := s.current[c].value, s.conns[cn].target;
    var waiting := s.threads[t].(state := TsWaiting);
    var threads := s.threads[t := waiting];
    var server := threads[v].(active := Some(cn), sp := s.conns[cn].stackTop, ip := threads[v].callback, x0 := arg,
                              sc := waiting.sc);
    var s1 := s.(conns := s.conns[cn := s.conns[cn].(source := Some(t))], threads := threads[v := server]);
    assert Handover(s, s1, t, v, c);
    hide Inv, Handover;
    HandoverKeeps(s, s1, t, v, c);
  }

  /** A chain that the call does not extend is not affected by it. */
  lemma CalledOtherChain(s: Sys, s': Sys, q: seq<nat>, t: nat, v: nat, c: nat, cn: nat, arg: nat)
    requires Shape(s) && Called(s, s', t, v, c, cn, arg) && s.threads[v].active == None
    requires q != [] && (forall i :: 0 <= i < |q| ==> q[i] in s.threads && q[i] != t && q[i] != v) && ChainOk(s, q)
    ensures ChainOk(s', q)
  {
    forall i | 0 < i < |q|
      ensures Serves(s', q[i - 1], q[i])
    {
      assert Serves(s, q[i - 1], q[i]);
    }
    hide Shape;
  }

  lemma CalledOwnChain(s: Sys, s': Sys, q: seq<nat>, t: nat, v: nat, c: nat, cn: nat, arg: nat)
    requires Shape(s) && Called(s, s', t, v, c, cn, arg) && s.threads[v].active == None && s.threads[v].kind != Idle
    requires q != [] && (forall i :: 0 <= i < |q| ==> q[i] in s.threads && q[i] != v) && ChainOk(s, q)
    requires Top(q) == t && forall i :: 0 <= i < |q| - 1 ==> q[i] != t
    ensures ChainOk(s', q + [v])
  {
    var q' := q + [v];
    forall i | 0 < i < |q'|
      ensures Serves(s', q'[i - 1], q'[i])
    {
      assert i < |q| ==> Serves(s, q[i - 1], q[i]);
    }
    hide Shape;
  }

  /** Who has a place after the CPU went from t to v. */
  lemma HandoverPlaces(s: Sys, s': Sys, t: nat, v: nat, c: nat, x: nat)
    requires Inv(s) && Shape(s') && c < CPUS && s.current[c] == Some(t) && x in s.threads && !Placed(s, v)
    requires s'.queues == s.queues && s'.current == s.current[c := Some(v)]
    ensures Placed(s', x) <==> (x == v || (x != t && Placed(s, x)))
  {
    CurrentAlone(s, c);
    forall d, e | 0 <= d < CPUS && 0 <= e < CPUS
      ensures s.current[d] == Some(t) ==> t !in s.queues[e]
    {
      PlacedOnce(s, t, d, e);
    }
    hide Inv;
    assert s'.current[c] == Some(v);
    assert forall d :: 0 <= d < CPUS && d != c ==> s'.current[d] == s.current[d];
  }

  lemma GrowApart(ch: Chains, r: nat, v: nat)
    requires Apart(ch) && r in ch && !InChain(ch, v)
    ensures Apart(ch[r := ch[r] + [v]])
    ensures forall x :: InChain(ch[r := ch[r] + [v]], x) <==> InChain(ch, x) || x == v
  {
    var ch' := ch[r := ch[r] + [v]];
    assert forall q, i :: q in ch && 0 <= i < |ch[q]| ==> ch[q][i] in ch[q] && ch[q][i] != v;
    assert forall q, i :: q in ch' && 0 <= i < |ch'[q]| ==> (ch'[q][i] == v <==> q == r && i == |ch[r]|);
    forall x
      ensures InChain(ch', x) <==> InChain(ch, x) || x == v
    {
      GrowMember(ch, r, v, x);
    }
  }

  lemma GrowMember(ch: Chains, r: nat, v: nat, x: nat)
    requires r in ch
    ensures InChain(ch[r := ch[r] + [v]], x) <==> InChain(ch, x) || x == v
  {
    var ch' := ch[r := ch[r] + [v]];
    assert r in ch' && v in ch'[r];
    if InChain(ch, x) {
      var q :| q in ch && x in ch[q];
      assert q in ch' && x in ch'[q];
    }
  }

  /** The members of different chains differ, and a top occurs nowhere else. */
  lemma TopApart(ch: Chains, r: nat, q: nat, i: nat)
    requires Apart(ch) && r in ch && ch[r] != [] && q in ch && i < |ch[q]| && (q != r || i < |ch[r]| - 1)
    ensures ch[q][i] != Top(ch[r])
  {
    assert ch[r][|ch[r]| - 1] == Top(ch[r]);
  }

  /** A call by the top of chain r to an unengaged thread makes that thread the new top. */
  lemma CallKeeps(s: Sys, ch: Chains, c: nat, cn: nat, arg: nat)
    requires Sound(s, ch) && MayCall(s, c, cn)
    ensures Sound(Call(s, c, cn, arg), CallChains(s, ch, c, cn))
  {
    CallInv(s, c, cn, arg);
    CallEffect(s, c, cn, arg);
    CurrentIsTop(s, ch, c);
    var t, v := s.current[c].value, s.conns[cn].target;
    var s', ch' := Call(s, c, cn, arg), CallChains(s, ch, c, cn);
    var r := ChainOf(ch, t);
    UnengagedExactly(s, ch, v);
    hide Inv, Call, MayCall, CallChains, ChainOf, Placed;
    assert ch' == ch[r := ch[r] + [v]] by {
      CallChainsIs(s, ch, c, cn);
    }
    GrowApart(ch, r, v);
    CallChainsOk(s, s', ch, r, t, v, c, cn, arg);
    CallTops(s, s', ch, r, t, v, c, cn, arg);
  }

  lemma CallChainsIs(s: Sys, ch: Chains, c: nat, cn: nat)
    requires Sound(s, ch) && MayCall(s, c, cn)
    ensures (CurrentIsTop(s, ch, c);
             var r := ChainOf(ch, s.current[c].value);
             CallChains(s, ch, c, cn) == ch[r := ch[r] + [s.conns[cn].target]])
  {
  }

  lemma CallChainsOk(s: Sys, s': Sys, ch: Chains, r: nat, t: nat, v: nat, c: nat, cn: nat, arg: nat)
    requires Shape(s) && Within(s, ch) && Apart(ch) && Called(s, s', t, v, c, cn, arg)
    requires forall q :: q in ch ==> ChainOk(s, ch[q])
    requires r in ch && Top(ch[r]) == t && !InChain(ch, v) && s.threads[v].active == None && s.threads[v].kind != Idle
    ensures var ch' := ch[r := ch[r] + [v]];
            Within(s', ch') && forall q :: q in ch' ==> ChainOk(s', ch'[q])
  {
    hide Shape, Called, InChain, ChainOk, Apart;
    var ch' := ch[r := ch[r] + [v]];
    CalledKeys(s, s', t, v, c, cn, arg);
    forall q | q in ch
      ensures ChainOk(s', ch'[q])
    {
      CallChainAt(s, s', ch, r, q, t, v, c, cn, arg);
    }
  }

  lemma CallChainAt(s: Sys, s': Sys, ch: Chains, r: nat, q: nat, t: nat, v: nat, c: nat, cn: nat, arg: nat)
    requires Shape(s) && Within(s, ch) && Apart(ch) && Called(s, s', t, v, c, cn, arg) && q in ch && ChainOk(s, ch[q])
    requires r in ch && Top(ch[r]) == t && !InChain(ch, v) && s.threads[v].active == None && s.threads[v].kind != Idle
    ensures var p := ch[r := ch[r] + [v]][q];
            p != [] && (forall i :: 0 <= i < |p| ==> p[i] in s'.threads) && ChainOk(s', p)
  {
    hide Shape, Called, ChainOk, Apart;
    CalledKeys(s, s', t, v, c, cn, arg);
    forall i | 0 <= i < |ch[q]|
      ensures ch[q][i] != v && (q != r || i < |ch[r]| - 1 ==> ch[q][i] != t)
    {
      assert ch[q][i] in ch[q];
      if q != r || i < |ch[r]| - 1 {
        TopApart(ch, r, q, i);
      }
    }
    hide InChain, Within;
    if q == r {
      CalledOwnChain(s, s', ch[r], t, v, c, cn, arg);
    } else {
      CalledOtherChain(s, s', ch[q], t, v, c, cn, arg);
    }
  }


  lemma CalledKeys(s: Sys, s': Sys, t: nat, v: nat, c: nat, cn: nat, arg: nat)
    requires Shape(s) && Called(s, s', t, v, c, cn, arg)
    ensures s'.threads.Keys == s.threads.Keys && v in s.threads
  {
  }

  lemma CallOutside(s: Sys, s': Sys, ch: Chains, ch': Chains, t: nat, v: nat, c: nat, cn: nat, arg: nat)
    requires Shape(s) && Called(s, s', t, v, c, cn, arg) && OutsideOk(s, ch) && InChain(ch, t)
    requires forall x :: InChain(ch', x) <==> InChain(ch, x) || x == v
    ensures OutsideOk(s', ch')
  {
    hide Shape, InChain;
  }

  lemma CallTops(s: Sys, s': Sys, ch: Chains, r: nat, t: nat, v: nat, c: nat, cn: nat, arg: nat)
    requires Sound(s, ch) && Shape(s') && Called(s, s', t, v, c, cn, arg)
    requires r in ch && Top(ch[r]) == t && !InChain(ch, v) && !Placed(s, v) && s.threads[v].kind != Idle
    requires var ch' := ch[r := ch[r] + [v]];
             Within(s', ch') && forall x :: InChain(ch', x) <==> InChain(ch, x) || x == v
    ensures var ch' := ch[r := ch[r] + [v]];
            TopsPlaced(s', ch') && OutsideOk(s', ch')
  {
    var ch' := ch[r := ch[r] + [v]];
    assert InChain(ch, t) by {
      assert t in ch[r];
    }
    CallOutside(s, s', ch, ch', t, v, c, cn, arg);
    forall x | x in s.threads
      ensures Placed(s', x) <==> (x == v || (x != t && Placed(s, x)))
    {
      HandoverPlaces(s, s', t, v, c, x);
    }
    CalledKinds(s, s', t, v, c, cn, arg);
    hide Inv, Called, Placed, InChain, ChainOk, OutsideOk, Apart, TopsPlaced, Retop, Within;
    NewTop(s, s', ch, r, ch[r] + [v], t, v);
    RetopTops(s, s', ch, ch', r, t, v);
  }

  lemma CalledKinds(s: Sys, s': Sys, t: nat, v: nat, c: nat, cn: nat, arg: nat)
    requires Shape(s) && Called(s, s', t, v, c, cn, arg)
    ensures s'.threads.Keys == s.threads.Keys && forall x :: x in s.threads ==> s'.threads[x].kind == s.threads[x].kind
  {
  }

  /** Chain r gets v as its top instead of t, and v gets the place of t. */
  ghost predicate Retop(s: Sys, s': Sys, ch: Chains, ch': Chains, r: nat, t: nat, v: nat)
    requires Shape(s) && Shape(s')
  {
    && r in ch && ch[r] != [] && Top(ch[r]) == t && ch'.Keys == ch.Keys && ch'[r] != [] && Top(ch'[r]) == v
    && (forall p :: p in ch && p != r ==> ch'[p] == ch[p])
    && s'.threads.Keys == s.threads.Keys && (forall x :: x in s.threads ==> s'.threads[x].kind == s.threads[x].kind)
    && v in s.threads && forall x :: x in s.threads ==> (Placed(s', x) <==> (x == v || (x != t && Placed(s, x))))
  }

  lemma NewTop(s: Sys, s': Sys, ch: Chains, r: nat, q: seq<nat>, t: nat, v: nat)
    requires Shape(s) && Shape(s') && r in ch && ch[r] != [] && Top(ch[r]) == t && q != [] && Top(q) == v
             && v in s.threads
    requires s'.threads.Keys == s.threads.Keys && forall x :: x in s.threads ==> s'.threads[x].kind == s.threads[x].kind
    requires forall x :: x in s.threads ==> (Placed(s', x) <==> (x == v || (x != t && Placed(s, x))))
    ensures Retop(s, s', ch, ch[r := q], r, t, v)
  {
    hide Shape, Placed;
  }

  lemma RetopPlaces(s: Sys, s': Sys, ch: Chains, ch': Chains, r: nat, t: nat, v: nat, p: nat)
    requires Shape(s) && Shape(s') && Within(s, ch) && Apart(ch) && TopsPlaced(s, ch)
             && Retop(s, s', ch, ch', r, t, v) && p in ch
    ensures ch'[p] != [] && Placed(s', Top(ch'[p]))
  {
    hide Shape, Placed;
    if p != r {
      TopApart(ch, r, p, |ch[p]| - 1);
    }
  }

  lemma RetopOwners(s: Sys, s': Sys, ch: Chains, ch': Chains, r: nat, t: nat, v: nat, x: nat)
    requires Shape(s) && Shape(s') && Within(s, ch) && TopsPlaced(s, ch) && Retop(s, s', ch, ch', r, t, v)
    requires x in s'.threads && s'.threads[x].kind != Idle && Placed(s', x)
    ensures exists p :: p in ch' && ch'[p] != [] && Top(ch'[p]) == x
  {
    hide Shape, Placed;
    if x == v {
      assert Top(ch'[r]) == x;
    } else {
      var p :| p in ch && Top(ch[p]) == x;
      assert p != r && Top(ch'[p]) == x;
    }
  }

  lemma RetopKeys(s: Sys, s': Sys, ch: Chains, ch': Chains, r: nat, t: nat, v: nat)
    requires Shape(s) && Shape(s') && Retop(s, s', ch, ch', r, t, v)
    ensures ch'.Keys == ch.Keys
  {
    hide Shape, Placed;
  }

  lemma RetopTops(s: Sys, s': Sys, ch: Chains, ch': Chains, r: nat, t: nat, v: nat)
    requires Shape(s) && Shape(s') && Within(s, ch) && Apart(ch) && TopsPlaced(s, ch) && Retop(s, s', ch, ch', r, t, v)
    requires Within(s', ch')
    ensures TopsPlaced(s', ch')
  {
    hide Shape, Placed, Apart, Retop;
    RetopKeys(s, s', ch, ch', r, t, v);
    forall p | p in ch'
      ensures Placed(s', Top(ch'[p]))
    {
      RetopPlaces(s, s', ch, ch', r, t, v, p);
    }
    forall x | x in s'.threads && s'.threads[x].kind != Idle && Placed(s', x)
      ensures exists p :: p in ch' && Top(ch'[p]) == x
    {
      RetopOwners(s, s', ch, ch', r, t, v, x);
    }
  }

  /** What a return changes: u, the caller, takes the CPU back from t. */
  ghost predicate Returned(s: Sys, s': Sys, t: nat, u: nat, c: nat, cn: nat, ret: nat)
    requires Shape(s)
  {
    && c < CPUS && cn in s.conns && t in s.threads && u in s.threads && t != u
    && s.current[c] == Some(t) && s.threads[t].active == Some(cn) && s.conns[cn].source == Some(u)
    && s'.threads.Keys == s.threads.Keys && s'.conns == s.conns
    && s'.threads[t] == s.threads[t].(active := None)
    && s'.threads[u] == s.threads[u].(state := TsRunning, cpuid := c, x0 := ret)
    && (forall x :: x in s.threads && x != t && x != u ==> s'.threads[x] == s.threads[x])
    && s'.queues == s.queues && s'.current == s.current[c := Some(u)] && s'.idle == s.idle && s'.budget == s.budget
  }

  /** The current thread serves a call. */
  ghost predicate MayReturn(s: Sys, c: nat)
    requires Shape(s)
  {
    c < CPUS && s.current[c].Some? && s.threads[s.current[c].value].kind != Idle
      && s.threads[s.current[c].value].active.Some?
  }

  /** A server on top of a chain has its caller right below it, waiting and without a place. */
  lemma CallerBelow(s: Sys, ch: Chains, c: nat)
    requires Sound(s, ch) && MayReturn(s, c)
    ensures exists r :: r in ch && ch[r] != [] && Top(ch[r]) == s.current[c].value
    ensures var t := s.current[c].value;
            var q := ch[ChainOf(ch, t)];
            && |q| >= 2 && Serves(s, q[|q| - 2], t)
            && q[|q| - 2] in s.threads && q[|q| - 2] != t && s.threads[q[|q| - 2]].kind != Idle
            && s.threads[q[|q| - 2]].state == TsWaiting && !Placed(s, q[|q| - 2])
  {
    CurrentIsTop(s, ch, c);
    var t := s.current[c].value;
    var r := ChainOf(ch, t);
    var q := ch[r];
    assert ChainOk(s, q);
    hide InChain, OutsideOk, TopsPlaced, IdleOk, LimitsOk;
    assert |q| >= 2;
    var u := q[|q| - 2];
    assert Serves(s, q[|q| - 2], q[|q| - 1]);
    TopApart(ch, r, r, |q| - 2);
    WaitingNotPlaced(s, u);
  }

  lemma WaitingNotPlaced(s: Sys, u: nat)
    requires Inv(s) && u in s.threads && s.threads[u].state == TsWaiting
    ensures !Placed(s, u)
  {
    forall d | 0 <= d < CPUS
      ensures u !in s.queues[d] && s.current[d] != Some(u)
    {
      assert CurrentOkAt(s, d);
    }
  }

  lemma ReturnEffect(s: Sys, c: nat, u: nat, ret: nat)
    requires Shape(s) && MayReturn(s, c) && u in s.threads && u != s.current[c].value
    requires Serves(s, u, s.current[c].value)
    ensures Returned(s, Return(s, c, ret), s.current[c].value, u, c, s.threads[s.current[c].value].active.value, ret)
  {
  }

  lemma ReturnInv(s: Sys, c: nat, u: nat, ret: nat)
    requires Inv(s) && MayReturn(s, c) && u in s.threads && u != s.current[c].value
    requires Serves(s, u, s.current[c].value) && !Placed(s, u) && s.threads[u].kind != Idle
    ensures Inv(Return(s, c, ret))
  {
    hide IdleOk, QueuesOk, ReadyOk, LimitsOk, CurrentOkAt, Placed;
    CurrentAlone(s, c);
    var t := s.current[c].value;
    var threads := s.threads[t := s.threads[t].(active := None)];
    var s1 := s.(threads := threads[u := threads[u].(x0 := ret)]);
    assert Handover(s, s1, t, u, c);
    hide Inv, Handover;
    HandoverKeeps(s, s1, t, u, c);
  }

  lemma ReturnedChain(s: Sys, s': Sys, q: seq<nat>, t: nat, u: nat, c: nat, cn: nat, ret: nat)
    requires Shape(s) && Returned(s, s', t, u, c, cn, ret)
    requires q != [] && (forall i :: 0 <= i < |q| ==> q[i] in s.threads && q[i] != t) && ChainOk(s, q)
    requires forall i :: 0 <= i < |q| - 1 ==> q[i] != u
    ensures ChainOk(s', q)
  {
    forall i | 0 < i < |q|
      ensures Serves(s', q[i - 1], q[i])
    {
      assert Serves(s, q[i - 1], q[i]);
    }
    hide Shape;
  }

  lemma ChainPrefix(s: Sys, q: seq<nat>)
    requires |q| >= 2 && (forall i :: 0 <= i < |q| ==> q[i] in s.threads) && ChainOk(s, q)
    ensures ChainOk(s, q[..|q| - 1])
  {
    var p := q[..|q| - 1];
    forall i | 0 < i < |p|
      ensures Serves(s, p[i - 1], p[i])
    {
      assert p[i] == q[i] && Serves(s, q[i - 1], q[i]);
    }
  }

  ghost function ReturnChains(s: Sys, ch: Chains, c: nat): Chains
    requires Sound(s, ch) && MayReturn(s, c)
  {
    CallerBelow(s, ch, c);
    var r := ChainOf(ch, s.current[c].value);
    ch[r := ch[r][..|ch[r]| - 1]]
  }

  lemma ShrinkApart(ch: Chains, r: nat, t: nat)
    requires Apart(ch) && r in ch && |ch[r]| >= 2 && Top(ch[r]) == t
    ensures Apart(ch[r := ch[r][..|ch[r]| - 1]])
    ensures forall x :: InChain(ch[r := ch[r][..|ch[r]| - 1]], x) <==> InChain(ch, x) && x != t
  {
    var ch' := ch[r := ch[r][..|ch[r]| - 1]];
    forall x
      ensures InChain(ch', x) <==> InChain(ch, x) && x != t
    {
      ShrinkMember(ch, r, t, x);
    }
  }

  lemma ShrinkMember(ch: Chains, r: nat, t: nat, x: nat)
    requires Apart(ch) && r in ch && |ch[r]| >= 2 && Top(ch[r]) == t
    ensures InChain(ch[r := ch[r][..|ch[r]| - 1]], x) <==> InChain(ch, x) && x != t
  {
    var ch' := ch[r := ch[r][..|ch[r]| - 1]];
    if InChain(ch, x) && x != t {
      var q :| q in ch && x in ch[q];
      var i :| 0 <= i < |ch[q]| && ch[q][i] == x;
      assert i < |ch'[q]| && ch'[q][i] == x;
      assert q in ch' && x in ch'[q];
    }
    if InChain(ch', x) {
      var q :| q in ch' && x in ch'[q];
      var i :| 0 <= i < |ch'[q]| && ch'[q][i] == x;
      assert ch[q][i] == x && x in ch[q];
      TopApart(ch, r, q, i);
    }
  }

  lemma ReturnChainsIs(s: Sys, ch: Chains, c: nat)
    requires Sound(s, ch) && MayReturn(s, c)
    ensures (CallerBelow(s, ch, c);
             var r := ChainOf(ch, s.current[c].value);
             ReturnChains(s, ch, c) == ch[r := ch[r][..|ch[r]| - 1]])
  {
  }

  /** Everything a return does, in one place. */
  lemma ReturnFacts(s: Sys, ch: Chains, c: nat, r: nat, u: nat, ret: nat)
    requires Sound(s, ch) && MayReturn(s, c) && r in ch && |ch[r]| >= 2 && Top(ch[r]) == s.current[c].value
    requires u == ch[r][|ch[r]| - 2] && u in s.threads && u != s.current[c].value && s.threads[u].kind != Idle
    requires Serves(s, u, s.current[c].value) && !Placed(s, u)
    ensures var t := s.current[c].value;
            var s' := Return(s, c, ret);
            Inv(s') && Returned(s, s', t, u, c, s.threads[t].active.value, ret)
  {
    hide Chained, IdleOk, QueuesOk, ReadyOk, LimitsOk, CurrentOkAt, Placed;
    ReturnInv(s, c, u, ret);
    ReturnEffect(s, c, u, ret);
  }

  /** A return makes the caller the top of the chain again. */
  lemma ReturnKeeps(s: Sys, ch: Chains, c: nat, ret: nat)
    requires Sound(s, ch) && MayReturn(s, c)
    ensures (CallerBelow(s, ch, c); Sound(Return(s, c, ret), ReturnChains(s, ch, c)))
  {
    hide Return, ReturnChains, ChainOf, Placed, IdleOk, QueuesOk, ReadyOk, LimitsOk, CurrentOkAt, ChainOk,
         InChain, OutsideOk, TopsPlaced, Returned;
    CallerBelow(s, ch, c);
    var t := s.current[c].value;
    var r := ChainOf(ch, t);
    var u := ch[r][|ch[r]| - 2];
    ReturnFacts(s, ch, c, r, u, ret);
    ReturnChainsIs(s, ch, c);
    var s' := Return(s, c, ret);
    ShrinkApart(ch, r, t);
    var cn := s.threads[t].active.value;
    ReturnChainsOk(s, s', ch, r, t, u, c, cn, ret);
    ReturnTops(s, s', ch, r, t, u, c, cn, ret);
  }

  lemma ReturnChainsOk(s: Sys, s': Sys, ch: Chains, r: nat, t: nat, u: nat, c: nat, cn: nat, ret: nat)
    requires Shape(s) && Within(s, ch) && Apart(ch) && Returned(s, s', t, u, c, cn, ret)
    requires forall q :: q in ch ==> ChainOk(s, ch[q])
    requires r in ch && |ch[r]| >= 2 && Top(ch[r]) == t && ch[r][|ch[r]| - 2] == u
    ensures var ch' := ch[r := ch[r][..|ch[r]| - 1]];
            Within(s', ch') && forall q :: q in ch' ==> ChainOk(s', ch'[q])
  {
    var ch' := ch[r := ch[r][..|ch[r]| - 1]];
    assert s'.threads.Keys == s.threads.Keys;
    hide Shape, Returned, ChainOk;
    forall q | q in ch'
      ensures ChainOk(s', ch'[q])
    {
      forall i | 0 <= i < |ch'[q]|
        ensures ch'[q][i] != t && (i < |ch'[q]| - 1 ==> ch'[q][i] != u)
      {
        TopApart(ch, r, q, i);
        assert ch'[q][i] == ch[q][i];
      }
      if q == r {
        ChainPrefix(s, ch[r]);
      }
      ReturnedChain(s, s', ch'[q], t, u, c, cn, ret);
    }
  }

  lemma ReturnOutside(s: Sys, s': Sys, ch: Chains, ch': Chains, t: nat, u: nat, c: nat, cn: nat, ret: nat)
    requires Inv(s) && Returned(s, s', t, u, c, cn, ret) && OutsideOk(s, ch)
    requires forall x :: InChain(ch', x) <==> InChain(ch, x) && x != t
    ensures OutsideOk(s', ch')
  {
    CurrentAlone(s, c);
    hide Inv, Shape, InChain;
  }

  lemma ReturnedKinds(s: Sys, s': Sys, t: nat, u: nat, c: nat, cn: nat, ret: nat)
    requires Shape(s) && Returned(s, s', t, u, c, cn, ret)
    ensures s'.threads.Keys == s.threads.Keys && forall x :: x in s.threads ==> s'.threads[x].kind == s.threads[x].kind
  {
  }

  lemma ReturnTops(s: Sys, s': Sys, ch: Chains, r: nat, t: nat, u: nat, c: nat, cn: nat, ret: nat)
    requires Sound(s, ch) && Shape(s') && Returned(s, s', t, u, c, cn, ret) && !Placed(s, u)
    requires r in ch && |ch[r]| >= 2 && Top(ch[r]) == t && ch[r][|ch[r]| - 2] == u
    requires var ch' := ch[r := ch[r][..|ch[r]| - 1]];
             Within(s', ch') && forall x :: InChain(ch', x) <==> InChain(ch, x) && x != t
    ensures var ch' := ch[r := ch[r][..|ch[r]| - 1]];
            TopsPlaced(s', ch') && OutsideOk(s', ch')
  {
    var ch' := ch[r := ch[r][..|ch[r]| - 1]];
    ReturnOutside(s, s', ch, ch', t, u, c, cn, ret);
    forall x | x in s.threads
      ensures Placed(s', x) <==> (x == u || (x != t && Placed(s, x)))
    {
      HandoverPlaces(s, s', t, u, c, x);
    }
    ReturnedKinds(s, s', t, u, c, cn, ret);
    hide Inv, Returned, Placed, InChain, ChainOk, OutsideOk, Apart, TopsPlaced, Retop, Within;
    NewTop(s, s', ch, r, ch[r][..|ch[r]| - 1], t, u);
    RetopTops(s, s', ch, ch', r, t, u);
  }
}
