/** The reusable CPU barrier as an interleaving of reads and writes of the shared counters. */
module Barrier {

  /** CPU 0 is the primary CPU. */
  datatype Pc =
    | Idle                      // outside the barrier
    | Primary(num: nat, i: nat) // spinning on the counter of CPU i
    | Secondary(num: nat)       // spinning on the counter of the primary CPU

  datatype State = State(bar: seq<nat>, pcs: seq<Pc>)

  ghost predicate Enabled(s: State, c: nat) {
    c < |s.bar| == |s.pcs|
  }

  /** The next step of CPU c; a spin that does not see its value changes nothing. */
  ghost function Step(s: State, c: nat): State
    requires Enabled(s, c)
  {
    match s.pcs[c]
    case Idle =>
      if c == 0 then s.(pcs := s.pcs[0 := Primary(s.bar[0], 0)])
      else State(s.bar[c := s.bar[c] + 1], s.pcs[c := Secondary(s.bar[c])])
    case Primary(num, i) =>
      if i >= |s.bar| then State(s.bar[c := num + 1], s.pcs[c := Idle])
      else if i == c || s.bar[i] == num + 1 then s.(pcs := s.pcs[c := Primary(num, i + 1)])
      else s
    case Secondary(num) =>
      if s.bar[0] == num + 1 then s.(pcs := s.pcs[c := Idle]) else s
  }

  ghost predicate Leaves(s: State, c: nat)
    requires Enabled(s, c)
  {
    match s.pcs[c]
    case Idle => false
    case Primary(num, i) => i >= |s.bar|
    case Secondary(num) => s.bar[0] == num + 1
  }

  /** The value that the spin of CPU c waits for, and the counter it reads. */
  ghost predicate Spins(s: State, c: nat)
    requires Enabled(s, c)
  {
    s.pcs[c].Secondary? || (s.pcs[c].Primary? && s.pcs[c].i < |s.bar| && s.pcs[c].i != c)
  }

  ghost function Read(s: State, c: nat): nat
    requires Enabled(s, c) && Spins(s, c)
  {
    if s.pcs[c].Secondary? then s.bar[0] else s.bar[s.pcs[c].i]
  }

  ghost function Start(n: nat): State {
    State(seq(n, i => 0), seq(n, i => Idle))
  }

  /** Number of rounds that CPU c has entered. */
  ghost function Entered(s: State, c: nat): nat
    requires Enabled(s, c)
  {
    s.bar[c] + if s.pcs[c].Primary? then 1 else 0
  }

  /** A secondary CPU is level with the primary, or one ahead while it waits. */
  ghost predicate SecondaryOk(s: State, c: nat)
    requires Enabled(s, c)
  {
    match s.pcs[c]
    case Idle => s.bar[c] == s.bar[0]
    case Primary(_, _) => false
    case Secondary(num) => s.bar[c] == num + 1 && (s.bar[0] == num || s.bar[0] == num + 1)
  }

  ghost predicate PrimaryOk(s: State)
    requires |s.bar| == |s.pcs| > 0
  {
    match s.pcs[0]
    case Idle => true
    case Primary(num, i) => num == s.bar[0] && forall j :: 1 <= j < |s.bar| && j < i ==> s.bar[j] == num + 1
    case Secondary(_) => false
  }

  ghost predicate Inv(s: State) {
    && |s.bar| == |s.pcs| > 0
    && PrimaryOk(s)
    && forall c :: 1 <= c < |s.bar| ==> SecondaryOk(s, c)
  }

  lemma StepInv(s: State, c: nat)
    requires Inv(s) && Enabled(s, c)
    ensures Inv(Step(s, c)) && |Step(s, c).bar| == |s.bar|
  {
    var s' := Step(s, c);
    assert c > 0 ==> SecondaryOk(s, c);
    assert c == 0 ==> !s.pcs[c].Secondary?;
    if s.pcs[c].Primary? && s.pcs[c].i >= |s.bar| {
      forall d | 1 <= d < |s.bar|
        ensures SecondaryOk(s', d)
      {
        assert s.bar[d] == s.bar[0] + 1 && SecondaryOk(s, d);
      }
    } else {
      assert forall d :: 1 <= d < |s.bar| && d != c ==>
          SecondaryOk(s, d) && s'.bar[d] == s.bar[d] && s'.pcs[d] == s.pcs[d];
    }
  }

  type Run = seq<nat>

  ghost predicate Possible(n: nat, run: Run) {
    n > 0 && forall k :: 0 <= k < |run| ==> run[k] < n
  }

  ghost function After(s: State, run: Run): State
    requires Inv(s) && Possible(|s.bar|, run)
    ensures Inv(After(s, run)) && |After(s, run).bar| == |s.bar|
    decreases |run|
  {
    if run == [] then s
    else
      StepInv(s, run[0]);
      After(Step(s, run[0]), run[1..])
  }

  lemma StartInv(n: nat)
    requires n > 0
    ensures Inv(Start(n)) && |Start(n).bar| == n
  {
  }

  /** No CPU leaves round num before every CPU has entered it. */
  lemma NobodyLeavesEarly(n: nat, run: Run, c: nat, d: nat)
    requires Possible(n, run) && c < n && d < n
    requires (StartInv(n); Leaves(After(Start(n), run), c))
    ensures (StartInv(n);
             var s := After(Start(n), run); Entered(s, d) >= s.pcs[c].num + 1)
  {
    StartInv(n);
    var s := After(Start(n), run);
    if d > 0 {
      assert SecondaryOk(s, d);
    }
    if c > 0 {
      assert SecondaryOk(s, c);
    }
  }

  /** The counters of any two CPUs differ by at most one. */
  lemma CountersLevel(n: nat, run: Run, c: nat, d: nat)
    requires Possible(n, run) && c < n && d < n
    ensures (StartInv(n);
             var s := After(Start(n), run); s.bar[c] <= s.bar[d] + 1)
  {
    StartInv(n);
    var s := After(Start(n), run);
    assert c > 0 ==> SecondaryOk(s, c);
    assert d > 0 ==> SecondaryOk(s, d);
  }

  /** A spinning CPU reads the value before the one it waits for, or that value, never a later one. */
  lemma NoMissedValue(n: nat, run: Run, c: nat)
    requires Possible(n, run) && c < n
    requires (StartInv(n); Spins(After(Start(n), run), c))
    ensures (StartInv(n);
             var s := After(Start(n), run);
             Read(s, c) == s.pcs[c].num || Read(s, c) == s.pcs[c].num + 1)
  {
    StartInv(n);
    var s := After(Start(n), run);
    if s.pcs[c].Primary? {
      assert c == 0 by {
        assert c > 0 ==> SecondaryOk(s, c);
      }
      assert SecondaryOk(s, s.pcs[c].i);
    } else {
      assert c > 0;
      assert SecondaryOk(s, c);
    }
  }

  // Everyone leaves, if every CPU keeps stepping.

  /** Every CPU steps at least once. */
  ghost predicate Sweep(n: nat, run: Run) {
    Possible(n, run) && forall c :: 0 <= c < n ==> c in run
  }

  ghost predicate Sweeps(n: nat, runs: seq<Run>) {
    forall k :: 0 <= k < |runs| ==> Sweep(n, runs[k])
  }

  /** The runs one after the other. */
  ghost function AfterAll(s: State, runs: seq<Run>): State
    requires Inv(s) && forall k :: 0 <= k < |runs| ==> Possible(|s.bar|, runs[k])
    ensures Inv(AfterAll(s, runs)) && |AfterAll(s, runs).bar| == |s.bar|
    decreases |runs|
  {
    if runs == [] then s else AfterAll(After(s, runs[0]), runs[1..])
  }

  /** CPU c is inside round num. */
  ghost predicate InRound(s: State, c: nat, num: nat)
    requires Enabled(s, c)
  {
    s.pcs[c] == Secondary(num) || (s.pcs[c].Primary? && s.pcs[c].num == num)
  }

  // How far a CPU is on the way to the end of round b.

  /** CPU c is done with the round before b. */
  ghost predicate Ready(s: State, c: nat, b: nat)
    requires Enabled(s, c)
  {
    s.bar[0] > b || (s.bar[0] == b && (s.bar[c] == b + 1 || (s.bar[c] == b && s.pcs[c].Idle?)))
  }

  /** CPU c has entered round b. */
  ghost predicate Arrived(s: State, c: nat, b: nat)
    requires Enabled(s, c)
  {
    s.bar[0] > b || (s.bar[0] == b && s.bar[c] == b + 1)
  }

  /** How many steps the primary CPU has made in round b. */
  ghost function Progress(s: State, b: nat): nat
    requires Enabled(s, 0)
  {
    if s.bar[0] > b then |s.bar| + 2
    else if s.pcs[0].Primary? then (if s.pcs[0].i < |s.bar| then s.pcs[0].i else |s.bar|) + 1
    else 0
  }

  /** CPU c is past round num. */
  ghost predicate Past(s: State, c: nat, num: nat)
    requires Enabled(s, c)
  {
    s.bar[c] > num && !InRound(s, c, num)
  }

  lemma FirstStep(s: State, run: Run)
    requires Inv(s) && Possible(|s.bar|, run) && run != []
    ensures Enabled(s, run[0]) && Possible(|s.bar|, run[1..])
    ensures Inv(Step(s, run[0])) && |Step(s, run[0]).bar| == |s.bar|
  {
    StepInv(s, run[0]);
  }

  lemma ReadyStep(s: State, d: nat, c: nat, b: nat)
    requires Inv(s) && Enabled(s, d) && 0 < c < |s.bar| && s.bar[0] >= b
    ensures Step(s, d).bar[0] >= s.bar[0]
    ensures d == c || Ready(s, c, b) ==> Ready(Step(s, d), c, b)
    ensures (d == c && Ready(s, c, b)) || Arrived(s, c, b) ==> Arrived(Step(s, d), c, b)
  {
    assert SecondaryOk(s, c);
    assert d > 0 ==> SecondaryOk(s, d);
  }

  lemma {:induction false} RunReady(s: State, run: Run, c: nat, b: nat)
    requires Inv(s) && Possible(|s.bar|, run) && 0 < c < |s.bar| && s.bar[0] >= b
    ensures After(s, run).bar[0] >= s.bar[0]
    ensures c in run || Ready(s, c, b) ==> Ready(After(s, run), c, b)
    ensures (c in run && Ready(s, c, b)) || Arrived(s, c, b) ==> Arrived(After(s, run), c, b)
    decreases |run|
  {
    hide Inv, Ready, Arrived, Step;
    if run == [] {
    } else {
      FirstStep(s, run);
      ReadyStep(s, run[0], c, b);
      RunReady(Step(s, run[0]), run[1..], c, b);
    }
  }

  ghost predicate AllArrived(s: State, b: nat)
    requires |s.bar| == |s.pcs|
  {
    forall c :: 0 < c < |s.bar| ==> Arrived(s, c, b)
  }

  lemma ProgressStep(s: State, d: nat, b: nat)
    requires Inv(s) && Enabled(s, d) && s.bar[0] >= b && AllArrived(s, b)
    ensures AllArrived(Step(s, d), b) && Step(s, d).bar[0] >= b
    ensures Progress(Step(s, d), b) >= Progress(s, b)
    ensures d == 0 ==> Progress(Step(s, d), b) > Progress(s, b) || Progress(Step(s, d), b) == |s.bar| + 2
  {
    var s' := Step(s, d);
    assert d > 0 ==> SecondaryOk(s, d) && Arrived(s, d, b);
    assert s.pcs[0].Primary? && 0 < s.pcs[0].i < |s.bar| ==> Arrived(s, s.pcs[0].i, b);
    forall c | 0 < c < |s.bar|
      ensures Arrived(s', c, b)
    {
      assert Arrived(s, c, b);
    }
  }

  lemma {:induction false} RunProgress(s: State, run: Run, b: nat)
    requires Inv(s) && Possible(|s.bar|, run) && s.bar[0] >= b && AllArrived(s, b)
    ensures AllArrived(After(s, run), b) && After(s, run).bar[0] >= b
    ensures Progress(After(s, run), b) >= Progress(s, b)
    ensures 0 in run ==> Progress(After(s, run), b) > Progress(s, b) || Progress(After(s, run), b) == |s.bar| + 2
    decreases |run|
  {
    hide Inv, AllArrived, Step, Progress;
    if run == [] {
    } else {
      FirstStep(s, run);
      ProgressStep(s, run[0], b);
      ProgressBound(After(s, run), b);
      RunProgress(Step(s, run[0]), run[1..], b);
    }
  }

  lemma ProgressBound(s: State, b: nat)
    requires Inv(s)
    ensures Progress(s, b) <= |s.bar| + 2
  {
  }

  lemma PastStep(s: State, d: nat, c: nat, num: nat)
    requires Inv(s) && Enabled(s, d) && 0 < c < |s.bar| && s.bar[c] > num
    ensures Step(s, d).bar[c] > num && Step(s, d).bar[0] >= s.bar[0]
    ensures Past(s, c, num) || (d == c && s.bar[0] > num) ==> Past(Step(s, d), c, num)
  {
    assert SecondaryOk(s, c);
    assert d > 0 ==> SecondaryOk(s, d);
  }

  lemma {:induction false} RunPast(s: State, run: Run, c: nat, num: nat)
    requires Inv(s) && Possible(|s.bar|, run) && 0 < c < |s.bar| && s.bar[c] > num
    ensures After(s, run).bar[c] > num && After(s, run).bar[0] >= s.bar[0]
    ensures Past(s, c, num) || (c in run && s.bar[0] > num) ==> Past(After(s, run), c, num)
    decreases |run|
  {
    hide Inv, Past, Step;
    if run == [] {
    } else {
      FirstStep(s, run);
      PastStep(s, run[0], c, num);
      RunPast(Step(s, run[0]), run[1..], c, num);
    }
  }

  /** After one sweep every CPU is done with the round before, and after another one has entered this one. */
  lemma TwoSweeps(s: State, r1: Run, r2: Run, b: nat)
    requires Inv(s) && Sweep(|s.bar|, r1) && Sweep(|s.bar|, r2) && s.bar[0] >= b
    ensures var s2 := After(After(s, r1), r2); s2.bar[0] >= b && AllArrived(s2, b)
  {
    var s1 := After(s, r1);
    var s2 := After(s1, r2);
    PrimaryGrows(s, r1);
    PrimaryGrows(s1, r2);
    hide Inv, Ready, Arrived, After;
    forall c | 0 < c < |s.bar|
      ensures Arrived(s2, c, b)
    {
      RunReady(s, r1, c, b);
      RunReady(s1, r2, c, b);
    }
  }

  lemma {:induction false} PrimaryGrows(s: State, run: Run)
    requires Inv(s) && Possible(|s.bar|, run)
    ensures After(s, run).bar[0] >= s.bar[0]
    decreases |run|
  {
    if run == [] {
    } else {
      FirstStep(s, run);
      PrimaryGrows(Step(s, run[0]), run[1..]);
    }
  }

  /** Then the primary CPU moves on with every sweep, until the round ends. */
  lemma {:induction false} SweepsProgress(s: State, runs: seq<Run>, b: nat)
    requires Inv(s) && Sweeps(|s.bar|, runs) && s.bar[0] >= b && AllArrived(s, b)
    requires |runs| + Progress(s, b) >= |s.bar| + 2
    ensures AfterAll(s, runs).bar[0] > b
    decreases |runs|
  {
    hide AllArrived, Possible;
    if runs == [] {
      ProgressDone(s, b);
    } else {
      assert Sweep(|s.bar|, runs[0]) && 0 in runs[0];
      RunProgress(s, runs[0], b);
      SweepsProgress(After(s, runs[0]), runs[1..], b);
    }
  }

  lemma ProgressDone(s: State, b: nat)
    requires Inv(s) && Progress(s, b) >= |s.bar| + 2
    ensures s.bar[0] > b
  {
  }

  /** From any state, after n + 4 sweeps the round of the primary CPU is over. */
  lemma RoundEnds(s: State, runs: seq<Run>)
    requires Inv(s) && Sweeps(|s.bar|, runs) && |runs| == |s.bar| + 4
    ensures AfterAll(s, runs).bar[0] > s.bar[0]
  {
    hide AllArrived, PrimaryOk, SecondaryOk;
    assert Sweep(|s.bar|, runs[0]) && Sweep(|s.bar|, runs[1]);
    TwoSweeps(s, runs[0], runs[1], s.bar[0]);
    var s2 := After(After(s, runs[0]), runs[1]);
    assert runs[1..][0] == runs[1] && runs[1..][1..] == runs[2..];
    SweepsProgress(s2, runs[2..], s.bar[0]);
  }

  /** Where a CPU inside a round stands. */
  lemma InRoundCount(s: State, c: nat, num: nat)
    requires Inv(s) && c < |s.bar| && InRound(s, c, num)
    ensures if c == 0 then s.bar[0] == num else s.bar[c] > num && s.bar[0] >= num
  {
    assert c > 0 ==> SecondaryOk(s, c);
  }

  lemma {:induction false} KeepsCount(s: State, runs: seq<Run>, c: nat, num: nat)
    requires Inv(s) && Sweeps(|s.bar|, runs) && 0 < c < |s.bar| && s.bar[c] > num
    ensures AfterAll(s, runs).bar[c] > num
    decreases |runs|
  {
    hide Possible, Inv, Past;
    if runs == [] {
    } else {
      assert Sweep(|s.bar|, runs[0]);
      RunPast(s, runs[0], c, num);
      KeepsCount(After(s, runs[0]), runs[1..], c, num);
    }
  }

  /**
    * Nobody waits for ever: from any reachable state, while every CPU steps at least once in each of n + 5 sweeps,
    * every CPU that is inside a round leaves it.
    */
  lemma EveryoneLeaves(n: nat, run: Run, runs: seq<Run>, last: Run, c: nat, num: nat)
    requires Possible(n, run) && Sweeps(n, runs) && |runs| == n + 4 && Sweep(n, last) && c < n
    requires (StartInv(n); InRound(After(Start(n), run), c, num))
    ensures (StartInv(n); !InRound(After(AfterAll(After(Start(n), run), runs), last), c, num))
  {
    StartInv(n);
    var s := After(Start(n), run);
    var s1 := AfterAll(s, runs);
    RoundEnds(s, runs);
    PrimaryGrows(s1, last);
    InRoundCount(s, c, num);
    if c == 0 {
      if InRound(After(s1, last), 0, num) {
        InRoundCount(After(s1, last), 0, num);
      }
    } else {
      KeepsCount(s, runs, c, num);
      RunPast(s1, last, c, num);
    }
  }
}
