/** What every reachable state looks like, walker by walker. */
module Shape {
  import opened FileSystem
  import opened WalkSpec
  import opened Machine

  /** Roots carry no descriptor; any other task is anchored one level above itself. */
  predicate TaskOk(fds: seq<nat>, q: QTask) {
    if q.parent.None? then q.task.depth == 0
    else q.parent.value < |fds| && fds[q.parent.value] + 1 == q.task.depth
  }

  ghost predicate TasksOk(fds: seq<nat>, qs: seq<QTask>) {
    forall q | q in qs :: TaskOk(fds, q)
  }

  predicate Running(p: Phase) {
    !(p.Top? || p.Seek? || p.Draw? || p.Poll? || p.Miss? || p.Spent? || p.Flushing? || p.Exited?)
  }

  /** A walker has its task from taking it until, processed and counted off, it is dropped. */
  predicate HasTask(p: Phase) {
    Running(p) || p.Spent?
  }

  /** The directory of `q` is open behind `fd` and its records before `i` are consumed. */
  predicate ReadingOk(job: Plan, fds: seq<nat>, q: QTask, fd: nat, i: nat) {
    && fd < |fds| && fds[fd] == q.task.depth
    && Opened(job, q.task).Some? && i <= |Stream(job, q.task)|
  }

  predicate PhaseOk(job: Plan, fds: seq<nat>, p: Phase) {
    && (HasTask(p) ==> TaskOk(fds, p.q))
    && (p.Throttle? || p.Opening? ==> !DepthReached(job, p.q.task.depth))
    && (p.Reading? ==> ReadingOk(job, fds, p.q, p.fd, p.i))
    && (p.Enqueue? || p.Push? ==> ReadingOk(job, fds, p.q, p.fd, p.i) && EnqueuesAt(job, p.q.task, p.i))
    && (p.Sending? && p.spot.AtRecord? ==>
          ReadingOk(job, fds, p.q, p.spot.fd, p.spot.i) && ShownAt(job, p.q.task, p.spot.i))
    && (p.Quitting? && p.spot.AtRecord? ==> ReadingOk(job, fds, p.q, p.spot.fd, p.spot.i))
    && (p.Sending? || p.Flushing? ==> p.batch != [])
  }

  ghost predicate WalkerOk(job: Plan, fds: seq<nat>, k: Walker) {
    && TasksOk(fds, k.deque) && PhaseOk(job, fds, k.phase)
    && |k.buf| < BATCH_SIZE
    && (Blocked(k.phase) || k.phase.Exited? ==> k.buf == [])
    && (k.phase.Draw? || k.phase.Poll? ==> k.deque == [])
  }

  ghost predicate WellShaped(job: Plan, s: State) {
    && |s.walkers| == WalkerCount(job)
    && TasksOk(s.fds, s.injector)
    && forall w | 0 <= w < |s.walkers| :: WalkerOk(job, s.fds, s.walkers[w])
  }

  lemma FdsKeep(job: Plan, fds: seq<nat>, more: seq<nat>, k: Walker)
    requires WalkerOk(job, fds, k)
    ensures WalkerOk(job, fds + more, k)
  {
    forall q | q in k.deque ensures TaskOk(fds + more, q) {
      assert TaskOk(fds, q);
    }
  }

  lemma VisitOk(job: Plan, fds: seq<nat>, shutdown: bool, k: Walker, q: QTask, spot: Spot, e: Entry)
    requires WalkerOk(job, fds, k) && TaskOk(fds, q)
    requires spot.AtRecord? ==> ReadingOk(job, fds, q, spot.fd, spot.i) && ShownAt(job, q.task, spot.i)
    ensures WalkerOk(job, fds, Visit(job, shutdown, k, q, spot, e))
  {
  }

  lemma StolenOk(s: State, order: seq<QTask>)
    requires TasksOk(s.fds, s.injector) && |order| + 1 <= |s.injector|
    requires multiset(order) == multiset(s.injector[1..|order| + 1])
    ensures TasksOk(s.fds, order)
  {
    forall q | q in order ensures TaskOk(s.fds, q) {
      assert q in multiset(s.injector[1..|order| + 1]);
    }
  }

  lemma StepOk(job: Plan, fds: seq<nat>, v: View, k: Walker, step: Step)
    requires WalkerOk(job, fds, k) && v.fd == |fds| && CanStep(job, v, k, step)
    ensures var e := StepOf(job, v, k, step); WalkerOk(job, fds + e.fds, e.k)
  {
    var e := StepOf(job, v, k, step);
    if step.Open? {
      FdsKeep(job, fds, e.fds, k);
    } else {
      assert fds + e.fds == fds;
      if step.NextRecord? {
        var q, fd, i := k.phase.q, k.phase.fd, k.phase.i;
        if ShownAt(job, q.task, i) {
          VisitOk(job, fds, v.shutdown, k, q, AtRecord(fd, i), EntryAt(job, q.task, i));
        }
      } else if step.Process? {
        VisitOk(job, fds, v.shutdown, k, k.phase.q, AtRoot, RootEntry(k.phase.q.task));
      } else if step.PushChild? {
        PushOk(job, fds, k);
      } else {
        MoveOk(job, fds, v, k, step);
      }
    }
  }

  lemma PushOk(job: Plan, fds: seq<nat>, k: Walker)
    requires WalkerOk(job, fds, k) && k.phase.Push?
    ensures DescendsAt(job, k.phase.q.task, k.phase.i)
    ensures ReadingOk(job, fds, k.phase.q, k.phase.fd, k.phase.i + 1)
    ensures TaskOk(fds, QTask(ChildAt(job, k.phase.q.task, k.phase.i), Some(k.phase.fd)))
  {
  }

  lemma MoveOk(job: Plan, fds: seq<nat>, v: View, k: Walker, step: Step)
    requires WalkerOk(job, fds, k) && CanStep(job, v, k, step)
    requires !step.Open? && !step.NextRecord? && !step.Process? && !step.PushChild?
    ensures WalkerOk(job, fds, StepOf(job, v, k, step).k)
  {
  }

  lemma LocalShape(job: Plan, s: State, w: nat, step: Step)
    requires WellShaped(job, s) && Enabled(job, s, Local(w, step))
    ensures WellShaped(job, Apply(job, s, Local(w, step)))
  {
    var e := StepOf(job, ViewOf(s), s.walkers[w], step);
    StepOk(job, s.fds, ViewOf(s), s.walkers[w], step);
    forall v | 0 <= v < |s.walkers| ensures WalkerOk(job, s.fds + e.fds, s.walkers[v]) {
      FdsKeep(job, s.fds, e.fds, s.walkers[v]);
    }
    FdsKeep(job, s.fds, e.fds, Walker(Top, s.injector, [], [], []));
  }

  lemma StealShape(job: Plan, s: State, w: nat, v: nat)
    requires WellShaped(job, s) && Enabled(job, s, StealPeer(w, v))
    ensures WellShaped(job, Apply(job, s, StealPeer(w, v)))
  {
    assert WalkerOk(job, s.fds, s.walkers[v]);
    assert s.walkers[v].deque[0] in s.walkers[v].deque;
  }

  lemma SentOk(job: Plan, fds: seq<nat>, k: Walker)
    requires WalkerOk(job, fds, k) && Blocked(k.phase)
    ensures WalkerOk(job, fds, Sent(job, k))
  {
  }

  lemma HandedShape(job: Plan, s: State, a: Action)
    requires WellShaped(job, s) && Enabled(job, s, a) && (a.StealBatch? || a.Pass? || a.Send? || a.HandOver?)
    ensures WellShaped(job, Apply(job, s, a))
  {
    var k, s' := s.walkers[a.w], Apply(job, s, a);
    if a.StealBatch? {
      StolenOk(s, a.order);
      assert s.injector[0] in s.injector;
    } else if !a.Pass? {
      SentOk(job, s.fds, k);
    }
    assert WalkerOk(job, s.fds, s'.walkers[a.w]);
    assert forall v | 0 <= v < |s.walkers| && v != a.w :: s'.walkers[v] == s.walkers[v];
  }

  lemma ShapeKept(job: Plan, s: State, a: Action)
    requires WellShaped(job, s) && Enabled(job, s, a)
    ensures WellShaped(job, Apply(job, s, a))
  {
    if a.Local? {
      LocalShape(job, s, a.w, a.step);
    } else if a.StealPeer? {
      StealShape(job, s, a.w, a.v);
    } else if a.StealBatch? || a.Pass? || a.Send? || a.HandOver? {
      HandedShape(job, s, a);
    }
  }

  lemma InitShape(job: Plan)
    ensures WellShaped(job, Init(job))
  {
    RootsAreRoots(job, Unique(job.cfg.paths));
  }

  lemma RootsAreRoots(job: Plan, paths: seq<Path>)
    ensures forall t | t in RootTasks(job, paths) :: t.depth == 0
  {
  }
}
