/** The inductive invariant of all runs, and what it says about stopping. */
module Invariant {
  import opened FileSystem
  import opened WalkSpec
  import opened Machine
  import opened Shape
  import opened Accounting
  import opened Flow

  /** Only a shutdown or the cap makes anybody quit. */
  ghost predicate QuitForCause(job: Plan, s: State) {
    !Unhurried(s) ==> s.shutdown || (s.out.Finished? && CapHit(job, s))
  }

  ghost predicate Inv(job: Job, s: State) {
    && WellShaped(job, s)
    && PendingExact(s)
    && (forall pr: Probe :: Balanced(job, pr, s))
    && Bounded(job, s)
    && (forall w: nat :: FlowAt(s, w))
    && (forall e: Entry :: Logged(s, e))
    && QuitForCause(job, s)
    && LeavesForCause(s)
  }

  // ----- Stopping -----

  /** Once nothing is pending, nothing will ever be pending again. */
  lemma ZeroIsForever(job: Plan, s: State, a: Action)
    requires PendingExact(s) && s.pending == 0 && Enabled(job, s, a)
    ensures Apply(job, s, a).pending == 0
  {
    ZeroMeansNoWork(s);
  }

  /** No walker sees a closed channel before the cap is written. */
  lemma ClosedMeansCapped(job: Plan, s: State, w: nat)
    requires Bounded(job, s) && Enabled(job, s, Local(w, SendFails))
    ensures CapHit(job, s)
  {
  }

  lemma VisitQuits(job: Plan, shutdown: bool, k: Walker, q: QTask, spot: Spot, e: Entry)
    ensures var p := Visit(job, shutdown, k, q, spot, e).phase;
            (p.Quitting? ==> shutdown) && !Gone(p)
  {
  }

  lemma StepQuits(job: Plan, v: View, k: Walker, step: Step)
    requires CanStep(job, v, k, step)
    ensures var e := StepOf(job, v, k, step);
            && (e.quit ==> k.phase.Quitting?)
            && (e.k.phase.Quitting? ==> v.shutdown || step.SendFails?)
            && (Gone(e.k.phase) && !Gone(k.phase) ==> v.quit || v.pending == 0)
  {
    if step.Process? {
      VisitQuits(job, v.shutdown, k, k.phase.q, AtRoot, RootEntry(k.phase.q.task));
    } else if step.NextRecord? {
      var q, fd, i := k.phase.q, k.phase.fd, k.phase.i;
      if ShownAt(job, q.task, i) {
        VisitQuits(job, v.shutdown, k, q, AtRecord(fd, i), EntryAt(job, q.task, i));
      }
    }
  }

  lemma LocalCauses(job: Plan, s: State, w: nat, step: Step)
    requires PendingExact(s) && Bounded(job, s) && QuitForCause(job, s) && LeavesForCause(s)
    requires Enabled(job, s, Local(w, step))
    ensures var s' := Apply(job, s, Local(w, step)); QuitForCause(job, s') && LeavesForCause(s')
  {
    var s' := Apply(job, s, Local(w, step));
    StepQuits(job, ViewOf(s), s.walkers[w], step);
    if s.pending == 0 {
      ZeroIsForever(job, s, Local(w, step));
    }
    if step.SendFails? {
      ClosedMeansCapped(job, s, w);
    } else if Unhurried(s) && !s.shutdown {
      forall v | 0 <= v < |s.walkers| ensures !s'.walkers[v].phase.Quitting? {
        if v != w {
          assert s'.walkers[v] == s.walkers[v];
        }
      }
    }
    forall v | 0 <= v < |s.walkers| && Gone(s'.walkers[v].phase) ensures s'.quit || s'.pending == 0 {
      if v != w {
        assert s'.walkers[v] == s.walkers[v];
      }
    }
  }

  lemma SharedCauses(job: Plan, s: State, a: Action)
    requires PendingExact(s) && Bounded(job, s) && QuitForCause(job, s) && LeavesForCause(s)
    requires WellShaped(job, s) && Enabled(job, s, a) && !a.Local?
    ensures var s' := Apply(job, s, a); QuitForCause(job, s') && LeavesForCause(s')
  {
    var s' := Apply(job, s, a);
    SameHurry(job, s, a);
    forall v | 0 <= v < |s.walkers| && Gone(s'.walkers[v].phase) ensures s'.quit || s'.pending == 0 {
      assert Gone(s.walkers[v].phase);
    }
  }

  // ----- Induction over schedules -----

  lemma InitFlows(job: Plan)
    ensures var s := Init(job);
            && Bounded(job, s) && QuitForCause(job, s) && LeavesForCause(s)
            && forall w: nat :: FlowAt(s, w)
  {
    assert Pipe(Init(job)) == [];
  }

  lemma InitLogged(job: Plan, e: Entry)
    ensures Logged(Init(job), e)
  {
    NothingLogged(e, WalkerCount(job));
    assert Init(job).walkers == seq(WalkerCount(job), _ => Walker(Top, [], [], [], []));
  }

  lemma InvInit(job: Job)
    ensures Inv(job, Init(job))
  {
    InitShape(job);
    InitFlows(job);
    InitBalanced(job, None);
    forall pr: Probe ensures Balanced(job, pr, Init(job)) {
      InitBalanced(job, pr);
    }
    forall e: Entry ensures Logged(Init(job), e) {
      InitLogged(job, e);
    }
  }

  lemma {:induction false} NothingLogged(e: Entry, n: nat)
    ensures Sum(Tally(e), seq(n, _ => Walker(Top, [], [], [], []))) == 0
  {
    if n > 0 {
      assert seq(n, _ => Walker(Top, [], [], [], []))[1..] == seq(n - 1, _ => Walker(Top, [], [], [], []));
      NothingLogged(e, n - 1);
    }
  }

  lemma InvKept(job: Job, s: State, a: Action)
    requires Inv(job, s) && Enabled(job, s, a)
    ensures Inv(job, Apply(job, s, a))
  {
    ShapeKept(job, s, a);
    PendingKept(job, s, a);
    BoundKept(job, s, a);
    forall pr: Probe ensures Balanced(job, pr, Apply(job, s, a)) {
      WalkConserved(job, pr, s, a);
    }
    forall w: nat ensures FlowAt(Apply(job, s, a), w) {
      FlowKept(job, s, a, w);
    }
    forall e: Entry ensures Logged(Apply(job, s, a), e) {
      LoggedKept(job, s, a, e);
    }
    if a.Local? {
      LocalCauses(job, s, a.w, a.step);
    } else {
      SharedCauses(job, s, a);
    }
  }

  lemma {:induction false} InvRun(job: Job, s: State, acts: seq<Action>)
    requires Inv(job, s) && Valid(job, s, acts)
    ensures Inv(job, Run(job, s, acts))
    decreases |acts|
  {
    if acts != [] {
      InvKept(job, s, acts[0]);
      InvRun(job, Apply(job, s, acts[0]), acts[1..]);
    }
  }

  /** The invariant holds in every state of every interleaving. */
  lemma InvReachable(job: Job, s: State)
    requires Reachable(job, s)
    ensures Inv(job, s)
  {
    var acts :| Valid(job, Init(job), acts) && Run(job, Init(job), acts) == s;
    InvInit(job);
    InvRun(job, Init(job), acts);
  }
}
