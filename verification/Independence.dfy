/** What a run's answer does not depend on: threads, throttling, interleaving, other filters. */
module Independence {
  import opened FileSystem
  import opened WalkSpec
  import opened Machine
  import opened Accounting
  import opened Routes
  import opened EndToEnd

  /** The jobs walk the same trees; threads, limiter, cap and filters may differ. */
  ghost predicate SameWalk(a: Plan, b: Plan) {
    && a.fs == b.fs && a.cfg.paths == b.cfg.paths
    && a.cfg.follow == b.cfg.follow && a.cfg.oneFilesystem == b.cfg.oneFilesystem
    && a.cfg.maxDepth == b.cfg.maxDepth
    && forall n :: a.cfg.exclude(n) == b.cfg.exclude(n)
  }

  /** Both jobs' filters say the same about `ev`; they have no say about a directory read. */
  predicate SameFilter(a: Plan, b: Plan, ev: Event) {
    ev.Emit? ==> a.cfg.keep(ev.entry) == b.cfg.keep(ev.entry)
  }

  lemma SameStep(a: Plan, b: Plan, t: Task, i: nat)
    requires SameWalk(a, b)
    ensures Opened(a, t) == Opened(b, t) && Stream(a, t) == Stream(b, t)
    ensures ShownAt(a, t, i) == ShownAt(b, t, i) && DescendsAt(a, t, i) == DescendsAt(b, t, i)
    ensures ShownAt(a, t, i) ==> EntryAt(a, t, i) == EntryAt(b, t, i)
    ensures DescendsAt(a, t, i) ==> ChildAt(a, t, i) == ChildAt(b, t, i)
  {
  }

  lemma {:induction false} SameBelow(a: Job, b: Job, t: Task, ev: Event)
    requires SameWalk(a, b) && SameFilter(a, b, ev)
    ensures Below(a, t)[ev] == Below(b, t)[ev]
    decreases Height(a, t), |Stream(a, t)| + 1
  {
    SameStep(a, b, t, 0);
    if Opened(a, t).Some? {
      SameRecords(a, b, t, 0, ev);
    }
  }

  lemma {:induction false} SameRecords(a: Job, b: Job, t: Task, i: nat, ev: Event)
    requires SameWalk(a, b) && SameFilter(a, b, ev)
    ensures Records(a, t, i)[ev] == Records(b, t, i)[ev]
    decreases Height(a, t), |Stream(a, t)| - i
  {
    SameStep(a, b, t, i);
    if i < |Stream(a, t)| {
      SameRecords(a, b, t, i + 1, ev);
      if DescendsAt(a, t, i) {
        HeightDrops(a, t, i);
        SameBelow(a, b, ChildAt(a, t, i), ev);
      }
      SameRecord(a, b, t, i, ev);
    }
  }

  lemma SameRecord(a: Job, b: Job, t: Task, i: nat, ev: Event)
    requires SameWalk(a, b) && SameFilter(a, b, ev)
    requires ChildBelow(a, t, i)[ev] == ChildBelow(b, t, i)[ev]
    requires Records(a, t, i + 1)[ev] == Records(b, t, i + 1)[ev]
    ensures Records(a, t, i)[ev] == Records(b, t, i)[ev]
  {
    SameStep(a, b, t, i);
    RecordsCount(a, Some(ev), t, i);
    RecordsCount(b, Some(ev), t, i);
  }

  lemma {:induction false} SameRoots(a: Job, b: Job, ts: seq<Task>, ev: Event)
    requires SameWalk(a, b) && SameFilter(a, b, ev)
    ensures WalkRoots(a, ts)[ev] == WalkRoots(b, ts)[ev]
    decreases |ts|
  {
    if ts != [] {
      SameRoot(a, b, ts[0], ev);
      SameRoots(a, b, ts[1..], ev);
      CountAdds(Some(ev), WalkRoot(a, ts[0]), WalkRoots(a, ts[1..]));
      CountAdds(Some(ev), WalkRoot(b, ts[0]), WalkRoots(b, ts[1..]));
    }
  }

  lemma SameRoot(a: Job, b: Job, t: Task, ev: Event)
    requires SameWalk(a, b) && SameFilter(a, b, ev)
    ensures WalkRoot(a, t)[ev] == WalkRoot(b, t)[ev]
  {
    SameBelow(a, b, t, ev);
    CountAdds(Some(ev), Shown(a, RootEntry(t)), Below(a, t));
    CountAdds(Some(ev), Shown(b, RootEntry(t)), Below(b, t));
  }

  lemma {:induction false} SameSeeds(a: Plan, b: Plan, paths: seq<Path>)
    requires SameWalk(a, b)
    ensures RootTasks(a, paths) == RootTasks(b, paths)
    decreases |paths|
  {
    if paths != [] {
      SameSeeds(a, b, paths[..|paths| - 1]);
    }
  }

  lemma SameEvents(a: Job, b: Job, ev: Event)
    requires SameWalk(a, b) && SameFilter(a, b, ev)
    ensures Walk(a)[ev] == Walk(b)[ev]
  {
    SameSeeds(a, b, Unique(a.cfg.paths));
    SameRoots(a, b, Roots(a), ev);
  }

  /** No filter, --min-depth included, changes which directories are read, or how often. */
  lemma FiltersNeverPrune(a: Job, b: Job, s: State, t: State, d: Id, depth: nat)
    requires SameWalk(a, b)
    requires Complete(a, s)
    requires Complete(b, t)
    ensures s.history[Read(d, depth)] == t.history[Read(d, depth)]
  {
    WalkIsComplete(a, s);
    WalkIsComplete(b, t);
    SameEvents(a, b, Read(d, depth));
  }

  lemma RejectedIsNotEmitted(job: Job, e: Entry)
    requires !job.cfg.keep(e)
    ensures Emit(e) !in Walk(job)
  {
    InWalk(job, Emit(e));
    forall p | Seeded(job, p) ensures Emit(e) !in WalkRoot(job, RootTask(job, p)) {
      EmitIffShown(job, RootTask(job, p), e);
    }
  }

  /**
   * Narrowing the filters selects from the output: whatever the thread counts, the limiters and
   * the interleavings of the two runs, the narrower one writes exactly those of the wider one's
   * entries that pass, just as often.
   */
  lemma FilteringSelects(wide: Job, narrow: Job, s: State, t: State, e: Entry)
    requires SameWalk(wide, narrow) && (narrow.cfg.keep(e) ==> wide.cfg.keep(e))
    requires Complete(wide, s)
    requires Complete(narrow, t)
    ensures Written(t)[e] == if narrow.cfg.keep(e) then Written(s)[e] else 0
  {
    RunsRefineWalk(wide, s);
    RunsRefineWalk(narrow, t);
    if narrow.cfg.keep(e) {
      SameEvents(wide, narrow, Emit(e));
    } else {
      RejectedIsNotEmitted(narrow, e);
    }
  }

  /** Any two uninterrupted, uncapped runs of the same request write the same entries. */
  lemma SameAnswer(a: Job, b: Job, s: State, t: State)
    requires SameWalk(a, b) && forall e :: a.cfg.keep(e) == b.cfg.keep(e)
    requires Complete(a, s)
    requires Complete(b, t)
    ensures Written(s) == Written(t)
  {
    forall e: Entry ensures Written(s)[e] == Written(t)[e] {
      FilteringSelects(a, b, s, t, e);
      FilteringSelects(b, a, t, s, e);
    }
  }

  // ----- Queueing fewer children -----

  function WithPruning(job: Job, on: bool): Job {
    var p: Plan := job.(cfg := job.cfg.(pruning := on));
    p
  }

  /**
   * The pruning optimisation: a walker that queues every subdirectory and leaves it to the depth
   * check to turn it away performs the same events and writes the same entries as one that does
   * not queue those which could not read their records.
   */
  lemma PruningIsInvisible(job: Job, s: State, t: State)
    requires Complete(WithPruning(job, true), s) && Complete(WithPruning(job, false), t)
    ensures s.history == t.history && Written(s) == Written(t)
  {
    var a, b := WithPruning(job, true), WithPruning(job, false);
    WalkIsComplete(a, s);
    WalkIsComplete(b, t);
    forall ev: Event ensures s.history[ev] == t.history[ev] {
      SameEvents(a, b, ev);
    }
    SameAnswer(a, b, s, t);
  }

  // ----- Throttling -----

  /** A token has been granted and its open not tried yet. */
  function Granted(k: Walker): int {
    if k.phase.Opening? then 1 else 0
  }

  ghost function Steps(acts: seq<Action>, step: Step): nat {
    if acts == [] then 0
    else (if acts[0].Local? && acts[0].step == step then 1 else 0) + Steps(acts[1..], step)
  }

  lemma VisitGrants(job: Plan, shutdown: bool, k: Walker, q: QTask, spot: Spot, e: Entry)
    ensures !Visit(job, shutdown, k, q, spot, e).phase.Opening?
  {
  }

  lemma StepGrants(job: Plan, v: View, k: Walker, step: Step)
    requires job.cfg.limited && CanStep(job, v, k, step)
    ensures Granted(StepOf(job, v, k, step).k) - Granted(k)
            == (if step.Token? then 1 else 0) - (if step.Open? then 1 else 0)
  {
    if step.Process? {
      VisitGrants(job, v.shutdown, k, k.phase.q, AtRoot, RootEntry(k.phase.q.task));
    } else if step.NextRecord? && ShownAt(job, k.phase.q.task, k.phase.i) {
      VisitGrants(job, v.shutdown, k, k.phase.q, AtRecord(k.phase.fd, k.phase.i),
                  EntryAt(job, k.phase.q.task, k.phase.i));
    }
  }

  lemma ActionGrants(job: Plan, s: State, a: Action)
    requires job.cfg.limited && Enabled(job, s, a)
    ensures Sum(Granted, Apply(job, s, a).walkers) - Sum(Granted, s.walkers)
            == (if a == Local(WalkerOf(a), Token) then 1 else 0) - (if a == Local(WalkerOf(a), Open) then 1 else 0)
  {
    if a.Local? {
      StepGrants(job, ViewOf(s), s.walkers[a.w], a.step);
      SumUpdate(Granted, s.walkers, a.w, StepOf(job, ViewOf(s), s.walkers[a.w], a.step).k);
    } else if a.StealBatch? {
      SumUpdate(Granted, s.walkers, a.w, s.walkers[a.w].(phase := Begin(s.injector[0]), deque := a.order));
    } else if a.StealPeer? {
      var victim := s.walkers[a.v];
      var robbed := victim.(deque := victim.deque[1..]);
      SumUpdate(Granted, s.walkers, a.v, robbed);
      SumUpdate(Granted, s.walkers[a.v := robbed], a.w, s.walkers[a.w].(phase := Begin(victim.deque[0])));
    } else if a.Pass? {
      SumUpdate(Granted, s.walkers, a.w, s.walkers[a.w].(phase := Onward(s, s.walkers[a.w].phase, a.lost)));
    } else if a.Send? || a.HandOver? {
      SumUpdate(Granted, s.walkers, a.w, Sent(job, s.walkers[a.w]));
    } else if a.WalkReturns? {
      SumEmptied(Granted, s.walkers);
    }
  }

  function WalkerOf(a: Action): nat {
    if a.Local? then a.w else 0
  }

  lemma {:induction false} GrantsOver(job: Plan, s: State, acts: seq<Action>)
    requires job.cfg.limited && Valid(job, s, acts)
    ensures Steps(acts, Token) - Steps(acts, Open)
            == Sum(Granted, Run(job, s, acts).walkers) - Sum(Granted, s.walkers)
    decreases |acts|
  {
    if acts != [] {
      ActionGrants(job, s, acts[0]);
      GrantsOver(job, Apply(job, s, acts[0]), acts[1..]);
    }
  }

  /**
   * One token a directory: along every schedule of a throttled run, with pruning or without, the
   * tokens granted are the opens tried plus the walkers in between, and in the end exactly those.
   */
  lemma TokensAreOpens(job: Plan, acts: seq<Action>)
    requires job.cfg.limited && Valid(job, Init(job), acts)
    ensures var s := Run(job, Init(job), acts);
            && Steps(acts, Token) == Steps(acts, Open) + Sum(Granted, s.walkers)
            && (Final(s) ==> Steps(acts, Token) == Steps(acts, Open))
  {
    var s := Run(job, Init(job), acts);
    SumOfZeros(Granted, Init(job).walkers);
    GrantsOver(job, Init(job), acts);
    if Final(s) {
      SumOfZeros(Granted, s.walkers);
    }
  }
}
