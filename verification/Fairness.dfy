/** Every fair run ends: an endless schedule starves some thread that could always act. */
module Fairness {
  import opened FileSystem
  import opened Machine
  import opened Shape
  import opened Accounting
  import opened Invariant
  import opened Progress

  datatype Thread = WalkerThread(w: nat) | OutputThread | MainThread | Environment

  function ThreadOf(a: Action): Thread {
    match a
    case Local(w, _) => WalkerThread(w)
    case StealBatch(w, _) => WalkerThread(w)
    case StealPeer(w, _) => WalkerThread(w)
    case Pass(w, _) => WalkerThread(w)
    case Send(w) => WalkerThread(w)
    case HandOver(w) => WalkerThread(w)
    case Receive => OutputThread
    case Write => OutputThread
    case NextBatch => OutputThread
    case HangUp => OutputThread
    case WalkReturns => MainThread
    case Interrupt => Environment
  }

  ghost predicate CanAct(job: Plan, s: State, t: Thread) {
    exists a :: ThreadOf(a) == t && Enabled(job, s, a)
  }

  // ----- Stopping exactly at the end -----

  lemma NobodyActsAfter(job: Plan, s: State, a: Action)
    requires Final(s) && Enabled(job, s, a)
    ensures ThreadOf(a) == Environment
  {
  }

  /** No deadlock: a reachable state in which no thread can act is the end, and the end is one. */
  lemma OnlyTheEndIsStuck(job: Job, s: State)
    requires Reachable(job, s)
    ensures Final(s) <==> forall t | t != Environment :: !CanAct(job, s, t)
  {
    if Final(s) {
      forall a | Enabled(job, s, a) ensures ThreadOf(a) == Environment {
        NobodyActsAfter(job, s, a);
      }
    } else {
      InvReachable(job, s);
      var a := SomebodyActs(job, s);
      assert CanAct(job, s, ThreadOf(a));
    }
  }

  lemma SomebodyActs(job: Job, s: State) returns (a: Action)
    requires Inv(job, s) && !Final(s)
    ensures Enabled(job, s, a) && ThreadOf(a) != Environment
  {
    if AllExited(s) {
      a := TailCanMove(job, s);
    } else {
      var w :| 0 <= w < |s.walkers| && !s.walkers[w].phase.Exited?;
      if Idle(s.walkers[w].phase) {
        IdleCanMove(job, s, w);
        a := IdleAction(s, w);
      } else {
        a := BusyCanMove(job, s, w);
      }
    }
  }

  // ----- Endless schedules -----

  /** A run that never stops: its states and the action taken in each. */
  datatype Trace = Trace(state: nat -> State, act: nat -> Action)

  predicate StepsAt(job: Plan, tr: Trace, n: nat) {
    Enabled(job, tr.state(n), tr.act(n)) && tr.state(n + 1) == Apply(job, tr.state(n), tr.act(n))
  }

  ghost predicate Endless(job: Plan, tr: Trace) {
    tr.state(0) == Init(job) && forall n: nat :: StepsAt(job, tr, n)
  }

  ghost predicate CanActFrom(job: Plan, tr: Trace, t: Thread, n: nat) {
    forall m: nat | m >= n :: CanAct(job, tr.state(m), t)
  }

  ghost predicate ActsFrom(tr: Trace, t: Thread, n: nat) {
    exists m: nat :: m >= n && ThreadOf(tr.act(m)) == t
  }

  /** A thread that can act from some point on without a break does act. */
  ghost predicate WeaklyFair(job: Plan, tr: Trace) {
    forall t, n: nat | t != Environment :: CanActFrom(job, tr, t, n) ==> ActsFrom(tr, t, n)
  }

  lemma ReachableNext(job: Plan, s: State, a: Action)
    requires Reachable(job, s) && Enabled(job, s, a)
    ensures Reachable(job, Apply(job, s, a))
  {
    var acts :| Valid(job, Init(job), acts) && Run(job, Init(job), acts) == s;
    RunOne(job, s, a);
    RunAppend(job, Init(job), acts, [a]);
  }

  lemma ReachableStart(job: Plan)
    ensures Reachable(job, Init(job))
  {
    assert Valid(job, Init(job), []) && Run(job, Init(job), []) == Init(job);
  }

  lemma {:induction false} ReachableAt(job: Job, tr: Trace, n: nat)
    requires Endless(job, tr)
    ensures Reachable(job, tr.state(n))
  {
    if n == 0 {
      ReachableStart(job);
    } else {
      ReachableAt(job, tr, n - 1);
      assert StepsAt(job, tr, n - 1);
      ReachableNext(job, tr.state(n - 1), tr.act(n - 1));
    }
  }

  lemma InvAt(job: Job, tr: Trace, n: nat)
    requires Endless(job, tr)
    ensures Inv(job, tr.state(n)) && StepsAt(job, tr, n)
  {
    ReachableAt(job, tr, n);
    InvReachable(job, tr.state(n));
  }

  // ----- From some point on there is nothing but idle spinning -----

  ghost function Cost(job: Job, s: State): int {
    Measure(Expected(job, None), s)
  }

  lemma CostFalls(job: Job, tr: Trace, n: nat)
    requires Endless(job, tr)
    ensures 0 <= Cost(job, tr.state(n + 1)) <= Cost(job, tr.state(n))
    ensures !Spins(tr.state(n), tr.act(n)) ==> Cost(job, tr.state(n + 1)) < Cost(job, tr.state(n))
  {
    InvAt(job, tr, n);
    MeasureFalls(job, tr.state(n), tr.act(n));
    MeasureNonNegative(Expected(job, None), tr.state(n + 1));
  }

  lemma {:induction false} CostLater(job: Job, tr: Trace, n: nat, m: nat)
    requires Endless(job, tr) && n <= m
    ensures Cost(job, tr.state(m)) <= Cost(job, tr.state(n))
    decreases m - n
  {
    if n < m {
      CostFalls(job, tr, n);
      CostLater(job, tr, n + 1, m);
    }
  }

  ghost predicate QuietFrom(tr: Trace, q: nat) {
    forall m: nat | m >= q :: Spins(tr.state(m), tr.act(m))
  }

  lemma {:induction false} FallsQuiet(job: Job, tr: Trace, n: nat) returns (q: nat)
    requires Endless(job, tr)
    ensures QuietFrom(tr, q)
    decreases Cost(job, tr.state(n))
  {
    if QuietFrom(tr, n) {
      q := n;
    } else {
      var m: nat :| m >= n && !Spins(tr.state(m), tr.act(m));
      CostLater(job, tr, n, m);
      CostFalls(job, tr, m);
      q := FallsQuiet(job, tr, m + 1);
    }
  }

  // ----- What spinning leaves alone -----

  ghost predicate SameButSpun(k: Walker, k': Walker) {
    if Idle(k.phase) then Idle(k'.phase) && k' == k.(phase := k'.phase) else k' == k
  }

  ghost predicate Quieted(s: State, s': State) {
    && |s'.walkers| == |s.walkers| && s' == s.(walkers := s'.walkers)
    && forall w | 0 <= w < |s.walkers| :: SameButSpun(s.walkers[w], s'.walkers[w])
  }

  lemma SpinIsQuiet(s: State, s': State, s'': State, w: nat)
    requires Quieted(s, s') && w < |s'.walkers| && OnlySpun(s', s'', w)
    ensures Quieted(s, s'')
  {
    forall x | 0 <= x < |s.walkers| ensures SameButSpun(s.walkers[x], s''.walkers[x]) {
      assert SameButSpun(s.walkers[x], s'.walkers[x]);
      assert x != w ==> s''.walkers[x] == s'.walkers[x];
    }
  }

  lemma {:induction false} TailIsQuiet(job: Plan, tr: Trace, q: nat, m: nat)
    requires Endless(job, tr) && QuietFrom(tr, q) && q <= m
    ensures Quieted(tr.state(q), tr.state(m))
    decreases m - q
  {
    if q < m {
      TailIsQuiet(job, tr, q, m - 1);
      assert StepsAt(job, tr, m - 1);
      SpinEffect(job, tr.state(m - 1), tr.act(m - 1));
      SpinIsQuiet(tr.state(q), tr.state(m - 1), tr.state(m), tr.act(m - 1).w);
    }
  }

  /** An action of the output thread or of a busy walker stays possible while others spin. */
  lemma StillEnabled(job: Plan, s: State, s': State, a: Action)
    requires Quieted(s, s') && Enabled(job, s, a)
    requires a.Receive? || a.Write? || a.NextBatch? ||
             ((a.Local? || a.Send? || a.HandOver?) && !Idle(s.walkers[a.w].phase))
    ensures Enabled(job, s', a)
  {
    if a.Local? || a.Send? || a.HandOver? {
      assert SameButSpun(s.walkers[a.w], s'.walkers[a.w]);
      assert ViewOf(s') == ViewOf(s);
    }
  }

  lemma SpinnersAreIdle(job: Plan, tr: Trace, q: nat, m: nat)
    requires Endless(job, tr) && QuietFrom(tr, q) && q <= m
    ensures var w := tr.act(m).w;
            && ThreadOf(tr.act(m)) == WalkerThread(w)
            && w < |tr.state(q).walkers| && Idle(tr.state(q).walkers[w].phase)
            && w < |tr.state(m).walkers| && Idle(tr.state(m).walkers[w].phase)
  {
    TailIsQuiet(job, tr, q, m);
    assert StepsAt(job, tr, m);
    SpinEffect(job, tr.state(m), tr.act(m));
    assert SameButSpun(tr.state(q).walkers[tr.act(m).w], tr.state(m).walkers[tr.act(m).w]);
  }

  // ----- Somebody busy starves -----

  /** From `n` on thread `t` could always act and never does. */
  ghost predicate Starves(job: Plan, tr: Trace, t: Thread, n: nat) {
    t != Environment && CanActFrom(job, tr, t, n) && !ActsFrom(tr, t, n)
  }

  lemma BusyStarves(job: Job, tr: Trace, q: nat, v: nat) returns (t: Thread)
    requires Endless(job, tr) && QuietFrom(tr, q) && v < |tr.state(q).walkers|
    requires Working(tr.state(q).walkers[v].phase)
    ensures Starves(job, tr, t, q)
  {
    var s := tr.state(q);
    InvAt(job, tr, q);
    var a := BusyCanMove(job, s, v);
    t := ThreadOf(a);
    forall m: nat | m >= q ensures CanAct(job, tr.state(m), t) && ThreadOf(tr.act(m)) != t {
      TailIsQuiet(job, tr, q, m);
      StillEnabled(job, s, tr.state(m), a);
      SpinnersAreIdle(job, tr, q, m);
    }
  }

  // ----- Or an idle walker short of the end of its round -----

  ghost predicate Roaming(s: State, w: nat) {
    w < |s.walkers| && Idle(s.walkers[w].phase) && Worth(s, w)
  }

  lemma SpinByAnybody(job: Job, s: State, a: Action, w: nat)
    requires Inv(job, s) && Enabled(job, s, a) && Spins(s, a) && Roaming(s, w)
    ensures var s' := Apply(job, s, a);
            && Roaming(s', w) && SpinsAway(s', w) <= SpinsAway(s, w)
            && (a.w == w ==> SpinsAway(s', w) < SpinsAway(s, w))
  {
    if a.w == w {
      SpinStep(job, s, a);
    } else {
      SpinEffect(job, s, a);
      SameGoal(s, Apply(job, s, a), a.w, w);
      SameVictim(s, Apply(job, s, a), a.w, w, 0);
    }
  }

  lemma SpinAt(job: Job, tr: Trace, q: nat, w: nat, m: nat)
    requires Endless(job, tr) && QuietFrom(tr, q) && q <= m && Roaming(tr.state(m), w)
    ensures var s, s' := tr.state(m), tr.state(m + 1);
            && Roaming(s', w) && SpinsAway(s', w) <= SpinsAway(s, w)
            && (ThreadOf(tr.act(m)) == WalkerThread(w) ==> SpinsAway(s', w) < SpinsAway(s, w))
  {
    InvAt(job, tr, m);
    SpinByAnybody(job, tr.state(m), tr.act(m), w);
  }

  lemma {:induction false} RoamsOn(job: Job, tr: Trace, q: nat, w: nat, m: nat)
    requires Endless(job, tr) && QuietFrom(tr, q) && q <= m && Roaming(tr.state(q), w)
    ensures Roaming(tr.state(m), w) && SpinsAway(tr.state(m), w) <= SpinsAway(tr.state(q), w)
    decreases m - q
  {
    if q < m {
      RoamsOn(job, tr, q, w, m - 1);
      SpinAt(job, tr, q, w, m - 1);
    }
  }

  lemma {:induction false} IdleStarves(job: Job, tr: Trace, q: nat, w: nat) returns (n: nat)
    requires Endless(job, tr) && QuietFrom(tr, q) && Roaming(tr.state(q), w)
    ensures Starves(job, tr, WalkerThread(w), n)
    decreases SpinsAway(tr.state(q), w)
  {
    if m: nat :| m >= q && ThreadOf(tr.act(m)) == WalkerThread(w) {
      RoamsOn(job, tr, q, w, m);
      SpinAt(job, tr, q, w, m);
      n := IdleStarves(job, tr, m + 1, w);
    } else {
      n := q;
      forall m: nat | m >= q ensures CanAct(job, tr.state(m), WalkerThread(w)) {
        RoamsOn(job, tr, q, w, m);
        InvAt(job, tr, m);
        IdleCanMove(job, tr.state(m), w);
        assert ThreadOf(IdleAction(tr.state(m), w)) == WalkerThread(w);
      }
    }
  }

  /** An endless schedule is unfair: from some point on some thread could always act and never does. */
  lemma EndlessStarves(job: Job, tr: Trace) returns (t: Thread, n: nat)
    requires Endless(job, tr)
    ensures Starves(job, tr, t, n)
  {
    var q := FallsQuiet(job, tr, 0);
    var s := tr.state(q);
    if v: nat :| v < |s.walkers| && Working(s.walkers[v].phase) {
      n := q;
      t := BusyStarves(job, tr, q, v);
    } else {
      InvAt(job, tr, q);
      SpinnersAreIdle(job, tr, q, q);
      QuietIsWorth(s, tr.act(q).w);
      n := IdleStarves(job, tr, q, tr.act(q).w);
      t := WalkerThread(tr.act(q).w);
    }
  }

  /** Termination: no schedule that is fair to every thread goes on for ever. */
  lemma FairRunsEnd(job: Job, tr: Trace)
    requires Endless(job, tr)
    ensures !WeaklyFair(job, tr)
  {
    var t, n := EndlessStarves(job, tr);
  }
}
