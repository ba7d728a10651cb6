/** Conservation: no task is lost or duplicated, and `pending` counts exactly what is outstanding. */
module Accounting {
  import opened FileSystem
  import opened WalkSpec
  import opened Machine
  import opened Shape

  // ----- Sums over the walkers -----

  ghost function Sum(f: Walker -> int, ks: seq<Walker>): int {
    if ks == [] then 0 else f(ks[0]) + Sum(f, ks[1..])
  }

  lemma {:induction false} SumUpdate(f: Walker -> int, ks: seq<Walker>, w: nat, k: Walker)
    requires w < |ks|
    ensures Sum(f, ks[w := k]) == Sum(f, ks) - f(ks[w]) + f(k)
    decreases |ks|
  {
    if w == 0 {
      assert ks[0 := k][1..] == ks[1..];
    } else {
      assert ks[w := k][1..] == ks[1..][w - 1 := k];
      SumUpdate(f, ks[1..], w - 1, k);
    }
  }

  lemma {:induction false} SumBounds(f: Walker -> int, ks: seq<Walker>, w: nat)
    requires w < |ks| && forall k :: f(k) >= 0
    ensures Sum(f, ks) >= f(ks[w]) >= 0
    decreases |ks|
  {
    if w > 0 {
      SumBounds(f, ks[1..], w - 1);
    } else {
      SumNonNegative(f, ks[1..]);
    }
  }

  lemma {:induction false} SumOfZeros(f: Walker -> int, ks: seq<Walker>)
    requires forall w | 0 <= w < |ks| :: f(ks[w]) == 0
    ensures Sum(f, ks) == 0
    decreases |ks|
  {
    if ks != [] {
      SumOfZeros(f, ks[1..]);
    }
  }

  /** A sum that does not look at deques survives their being emptied. */
  lemma {:induction false} SumEmptied(f: Walker -> int, ks: seq<Walker>)
    requires forall w | 0 <= w < |ks| :: f(ks[w].(deque := [])) == f(ks[w])
    ensures Sum(f, Emptied(ks)) == Sum(f, ks)
    decreases |ks|
  {
    if ks != [] {
      assert Emptied(ks)[1..] == Emptied(ks[1..]);
      SumEmptied(f, ks[1..]);
    }
  }

  lemma SumNonNegative(f: Walker -> int, ks: seq<Walker>)
    requires forall k :: f(k) >= 0
    ensures Sum(f, ks) >= 0
  {
  }

  // ----- The pending counter -----

  /** A walker's outstanding tasks: queued, running, and incremented but not pushed yet. */
  function Owed(k: Walker): int {
    |k.deque| + if !Running(k.phase) then 0 else if k.phase.Push? then 2 else 1
  }

  /**
   * `pending` is the number of queued tasks, in the injector and every deque, plus the tasks
   * running but not yet decremented, plus the increments whose push has not happened.
   */
  ghost predicate PendingExact(s: State) {
    s.pending == |s.injector| + Sum(Owed, s.walkers)
  }

  lemma StepOwes(job: Plan, v: View, k: Walker, step: Step)
    requires CanStep(job, v, k, step)
    ensures var e := StepOf(job, v, k, step); Owed(e.k) == Owed(k) + e.pending
  {
    if step.Process? {
      VisitOwes(job, v.shutdown, k, k.phase.q, AtRoot, RootEntry(k.phase.q.task));
    } else if step.NextRecord? {
      var q, fd, i := k.phase.q, k.phase.fd, k.phase.i;
      if ShownAt(job, q.task, i) {
        VisitOwes(job, v.shutdown, k, q, AtRecord(fd, i), EntryAt(job, q.task, i));
      }
    }
  }

  lemma VisitOwes(job: Plan, shutdown: bool, k: Walker, q: QTask, spot: Spot, e: Entry)
    ensures Owed(Visit(job, shutdown, k, q, spot, e)) == |k.deque| + 1
  {
  }

  lemma StealOwes(job: Plan, s: State, a: Action)
    requires PendingExact(s) && Enabled(job, s, a) && (a.StealBatch? || a.StealPeer?)
    ensures PendingExact(Apply(job, s, a))
  {
    var k := s.walkers[a.w];
    if a.StealBatch? {
      SumUpdate(Owed, s.walkers, a.w, k.(phase := Begin(s.injector[0]), deque := a.order));
    } else {
      var victim := s.walkers[a.v];
      var left := s.walkers[a.v := victim.(deque := victim.deque[1..])];
      SumUpdate(Owed, s.walkers, a.v, victim.(deque := victim.deque[1..]));
      SumUpdate(Owed, left, a.w, k.(phase := Begin(victim.deque[0])));
    }
  }

  lemma PendingKept(job: Plan, s: State, a: Action)
    requires PendingExact(s) && Enabled(job, s, a)
    ensures PendingExact(Apply(job, s, a))
  {
    if a.Local? {
      StepOwes(job, ViewOf(s), s.walkers[a.w], a.step);
      SumUpdate(Owed, s.walkers, a.w, StepOf(job, ViewOf(s), s.walkers[a.w], a.step).k);
    } else if a.StealBatch? || a.StealPeer? {
      StealOwes(job, s, a);
    } else if a.Pass? {
      SumUpdate(Owed, s.walkers, a.w, s.walkers[a.w].(phase := Onward(s, s.walkers[a.w].phase, a.lost)));
    } else if a.Send? || a.HandOver? {
      SumUpdate(Owed, s.walkers, a.w, Sent(job, s.walkers[a.w]));
    } else if a.WalkReturns? {
      SumOfZeros(Owed, Emptied(s.walkers));
    }
  }

  /** `pending == 0` means that no task exists and that no walker could create one. */
  lemma {:induction false} ZeroMeansNoWork(s: State)
    requires PendingExact(s) && s.pending == 0
    ensures s.injector == []
    ensures forall w | 0 <= w < |s.walkers| :: s.walkers[w].deque == [] && !Running(s.walkers[w].phase)
  {
    SumNonNegative(Owed, s.walkers);
    forall w | 0 <= w < |s.walkers|
      ensures s.walkers[w].deque == [] && !Running(s.walkers[w].phase)
    {
      SumBounds(Owed, s.walkers, w);
    }
  }

  lemma {:induction false} NonZeroMeansWork(s: State) returns (w: nat)
    requires PendingExact(s) && s.pending != 0 && s.injector == []
    ensures w < |s.walkers| && (s.walkers[w].deque != [] || Running(s.walkers[w].phase))
  {
    w := FindOwing(s.walkers);
  }

  lemma FindOwing(ks: seq<Walker>) returns (w: nat)
    requires Sum(Owed, ks) != 0
    ensures w < |ks| && Owed(ks[w]) != 0
  {
    if Owed(ks[0]) != 0 {
      w := 0;
    } else {
      var w' := FindOwing(ks[1..]);
      w := w' + 1;
    }
  }

  // ----- The events still to come -----

  /** What is being counted: the occurrences of one event, or all events. */
  type Probe = Option<Event>

  ghost function Count(pr: Probe, m: multiset<Event>): nat {
    if pr.Some? then m[pr.value] else |m|
  }

  lemma CountAdds(pr: Probe, a: multiset<Event>, b: multiset<Event>)
    ensures Count(pr, a + b) == Count(pr, a) + Count(pr, b)
  {
  }

  /** How much of what is counted is still to come: from a root's own entry, a descent, a stream. */
  datatype Future = Future(root: Task -> nat, below: Task -> nat,
                           records: (Task, nat) -> nat, child: (Task, nat) -> nat)

  ghost function Expected(job: Job, pr: Probe): Future {
    Future((t: Task) => Count(pr, Shown(job, RootEntry(t))),
           (t: Task) => Count(pr, Below(job, t)),
           (t: Task, i: nat) => Count(pr, Records(job, t, i)),
           (t: Task, i: nat) => Count(pr, ChildBelow(job, t, i)))
  }

  /** `f` obeys the recursive walk at task `t` and its record `i`. */
  ghost predicate Foretells(job: Plan, pr: Probe, f: Future, t: Task, i: nat) {
    var o, n := Opened(job, t), |Stream(job, t)|;
    && f.root(t) == Count(pr, Shown(job, RootEntry(t)))
    && f.below(t) == (if o.None? then 0 else Count(pr, multiset{Read(o.value, t.depth)}) + f.records(t, 0))
    && (i >= n ==> f.records(t, i) == 0)
    && (i < n ==> f.records(t, i) ==
                    Count(pr, multiset{Scan})
                    + (if ShownAt(job, t, i) then Count(pr, Shown(job, EntryAt(job, t, i))) else 0)
                    + f.child(t, i) + f.records(t, i + 1))
    && (DescendsAt(job, t, i) ==> f.child(t, i) == f.below(ChildAt(job, t, i)))
    && (!EnqueuesAt(job, t, i) ==> f.child(t, i) == 0)
  }

  /** Children that could not read are never queued, which changes nothing: nothing is below them. */
  lemma ExpectedForetells(job: Job, pr: Probe, t: Task, i: nat)
    ensures Foretells(job, pr, Expected(job, pr), t, i)
  {
    BelowCount(job, pr, t);
    ExpectedRecords(job, pr, t, i);
    ChildCount(job, pr, t, i);
  }

  lemma ExpectedRecords(job: Job, pr: Probe, t: Task, i: nat)
    ensures var f := Expected(job, pr);
            f.records(t, i) == if i >= |Stream(job, t)| then 0
                               else Count(pr, multiset{Scan})
                                    + (if ShownAt(job, t, i) then Count(pr, Shown(job, EntryAt(job, t, i))) else 0)
                                    + f.child(t, i) + f.records(t, i + 1)
  {
    RecordsCount(job, pr, t, i);
    var now, next := Count(pr, Records(job, t, i)), Count(pr, Records(job, t, i + 1));
    var child := Count(pr, ChildBelow(job, t, i));
    assert Expected(job, pr).records(t, i) == now;
    assert Expected(job, pr).records(t, i + 1) == next;
    assert Expected(job, pr).child(t, i) == child;
  }

  lemma BelowCount(job: Job, pr: Probe, t: Task)
    ensures Count(pr, Below(job, t)) == if Opened(job, t).None? then 0
            else Count(pr, multiset{Read(Opened(job, t).value, t.depth)}) + Count(pr, Records(job, t, 0))
  {
    if Opened(job, t).Some? {
      CountAdds(pr, multiset{Read(Opened(job, t).value, t.depth)}, Records(job, t, 0));
    }
  }

  lemma ChildCount(job: Job, pr: Probe, t: Task, i: nat)
    ensures DescendsAt(job, t, i) ==> Count(pr, ChildBelow(job, t, i)) == Count(pr, Below(job, ChildAt(job, t, i)))
    ensures !EnqueuesAt(job, t, i) ==> Count(pr, ChildBelow(job, t, i)) == 0
  {
    if !EnqueuesAt(job, t, i) {
      PastLimit(job, t, i);
    }
  }

  lemma PastLimit(job: Job, t: Task, i: nat)
    requires !EnqueuesAt(job, t, i)
    ensures ChildBelow(job, t, i) == multiset{}
  {
    if DescendsAt(job, t, i) {
      assert Opened(job, ChildAt(job, t, i)).None?;
    }
  }

  lemma RecordsCount(job: Job, pr: Probe, t: Task, i: nat)
    ensures Count(pr, Records(job, t, i))
            == if i >= |Stream(job, t)| then 0
               else Count(pr, multiset{Scan})
                    + (if ShownAt(job, t, i) then Count(pr, Shown(job, EntryAt(job, t, i))) else 0)
                    + Count(pr, ChildBelow(job, t, i)) + Count(pr, Records(job, t, i + 1))
  {
    if i < |Stream(job, t)| {
      var own := if ShownAt(job, t, i) then Shown(job, EntryAt(job, t, i)) else multiset{};
      CountAdds(pr, multiset{Scan}, own);
      CountAdds(pr, multiset{Scan} + own, ChildBelow(job, t, i));
      CountAdds(pr, multiset{Scan} + own + ChildBelow(job, t, i), Records(job, t, i + 1));
    }
  }

  ghost function TaskLeft(f: Future, q: QTask): nat {
    (if q.parent.None? then f.root(q.task) else 0) + f.below(q.task)
  }

  ghost function TasksLeft(f: Future, qs: seq<QTask>): nat {
    if qs == [] then 0 else TaskLeft(f, qs[0]) + TasksLeft(f, qs[1..])
  }

  ghost function SpotLeft(f: Future, t: Task, spot: Spot): nat {
    match spot
    case AtRoot => f.below(t)
    case AtRecord(_, i) => f.child(t, i) + f.records(t, i + 1)
  }

  ghost function PhaseLeft(f: Future, p: Phase): nat {
    match p
    case Begin(q) => TaskLeft(f, q)
    case Gate(q) => f.below(q.task)
    case Throttle(q) => f.below(q.task)
    case Opening(q) => f.below(q.task)
    case Reading(q, _, i) => f.records(q.task, i)
    case Sending(q, spot, _) => SpotLeft(f, q.task, spot)
    case Enqueue(q, fd, i) => SpotLeft(f, q.task, AtRecord(fd, i))
    case Push(q, fd, i) => SpotLeft(f, q.task, AtRecord(fd, i))
    case _ => 0
  }

  ghost function WalkerLeft(f: Future, k: Walker): nat {
    TasksLeft(f, k.deque) + PhaseLeft(f, k.phase)
  }

  ghost function WalkersLeft(f: Future, ks: seq<Walker>): nat {
    if ks == [] then 0 else WalkerLeft(f, ks[0]) + WalkersLeft(f, ks[1..])
  }

  ghost function Left(f: Future, s: State): nat {
    TasksLeft(f, s.injector) + WalkersLeft(f, s.walkers)
  }

  lemma {:induction false} TasksSplit(f: Future, a: seq<QTask>, b: seq<QTask>)
    ensures TasksLeft(f, a + b) == TasksLeft(f, a) + TasksLeft(f, b)
    decreases |a|
  {
    if a == [] {
      assert a + b == b;
    } else {
      assert (a + b)[1..] == a[1..] + b;
      TasksSplit(f, a[1..], b);
    }
  }

  lemma TasksOne(f: Future, q: QTask)
    ensures TasksLeft(f, [q]) == TaskLeft(f, q)
  {
    assert [q][1..] == [];
  }

  lemma {:induction false} TasksPermuted(f: Future, a: seq<QTask>, b: seq<QTask>)
    requires multiset(a) == multiset(b)
    ensures TasksLeft(f, a) == TasksLeft(f, b)
    decreases |a|
  {
    if a == [] {
      assert |b| == |multiset(b)|;
    } else {
      var i := Find(a, b);
      TasksPermuted(f, a[1..], b[..i] + b[i + 1..]);
      TasksSplit(f, b[..i], [b[i]] + b[i + 1..]);
      TasksSplit(f, b[..i], b[i + 1..]);
      TasksSplit(f, [b[i]], b[i + 1..]);
      TasksOne(f, b[i]);
    }
  }

  lemma Find(a: seq<QTask>, b: seq<QTask>) returns (i: nat)
    requires a != [] && multiset(a) == multiset(b)
    ensures i < |b| && b[i] == a[0] && b == b[..i] + ([b[i]] + b[i + 1..])
    ensures multiset(a[1..]) == multiset(b[..i] + b[i + 1..])
  {
    assert a[0] in multiset(b);
    i :| 0 <= i < |b| && b[i] == a[0];
    assert b == b[..i] + ([b[i]] + b[i + 1..]);
    assert a == [a[0]] + a[1..];
    assert multiset(a) == multiset{a[0]} + multiset(a[1..]);
    assert multiset(b) == multiset{a[0]} + multiset(b[..i] + b[i + 1..]);
    assert multiset(a[1..]) == multiset(a) - multiset{a[0]};
  }

  lemma {:induction false} LeftUpdate(f: Future, ks: seq<Walker>, w: nat, k: Walker)
    requires w < |ks|
    ensures WalkersLeft(f, ks[w := k]) == WalkersLeft(f, ks) - WalkerLeft(f, ks[w]) + WalkerLeft(f, k)
    decreases |ks|
  {
    if w == 0 {
      assert ks[0 := k][1..] == ks[1..];
    } else {
      assert ks[w := k][1..] == ks[1..][w - 1 := k];
      LeftUpdate(f, ks[1..], w - 1, k);
    }
  }

  // ----- Every step moves exactly its events from the future to the past -----

  /** The record a walker is busy with. */
  function IndexOf(p: Phase): nat {
    match p
    case Reading(_, _, i) => i
    case Enqueue(_, _, i) => i
    case Push(_, _, i) => i
    case Sending(_, spot, _) => if spot.AtRecord? then spot.i else 0
    case _ => 0
  }

  ghost predicate Knows(job: Plan, pr: Probe, f: Future, p: Phase) {
    Running(p) ==> Foretells(job, pr, f, p.q.task, IndexOf(p))
  }

  lemma ResumeLeft(job: Plan, pr: Probe, f: Future, q: QTask, spot: Spot)
    requires spot.AtRecord? ==> Foretells(job, pr, f, q.task, spot.i)
    ensures PhaseLeft(f, Resume(job, q, spot)) == SpotLeft(f, q.task, spot)
  {
  }

  /** A step loses work only by obeying a Quit or by being refused a token. */
  predicate Gives(e: Effect, step: Step) {
    e.k.phase.Quitting? || step.Refused?
  }

  /** `before` pays for the walker's new future and the step's events, exactly unless it gives up. */
  ghost predicate Pays(pr: Probe, f: Future, before: nat, e: Effect, step: Step) {
    && WalkerLeft(f, e.k) + Count(pr, e.events) <= before
    && (!Gives(e, step) ==> WalkerLeft(f, e.k) + Count(pr, e.events) == before)
  }

  lemma VisitLeft(job: Plan, pr: Probe, f: Future, shutdown: bool, k: Walker, q: QTask, spot: Spot, e: Entry)
    requires spot.AtRecord? ==> Foretells(job, pr, f, q.task, spot.i)
    ensures var k' := Visit(job, shutdown, k, q, spot, e);
            var after := PhaseLeft(f, k'.phase) + Count(pr, Noted(job, shutdown, e));
            var before := Count(pr, Shown(job, e)) + SpotLeft(f, q.task, spot);
            && k'.deque == k.deque
            && after <= before
            && (!k'.phase.Quitting? ==> after == before)
  {
    if !shutdown {
      ResumeLeft(job, pr, f, q, spot);
      assert Noted(job, shutdown, e) == Shown(job, e);
    }
  }

  lemma ShownPays(job: Plan, pr: Probe, f: Future, v: View, k: Walker)
    requires k.phase.Reading? && Knows(job, pr, f, k.phase) && ShownAt(job, k.phase.q.task, k.phase.i)
    ensures Pays(pr, f, WalkerLeft(f, k), StepOf(job, v, k, NextRecord), NextRecord)
  {
    var q, fd, i := k.phase.q, k.phase.fd, k.phase.i;
    var e := EntryAt(job, q.task, i);
    VisitLeft(job, pr, f, v.shutdown, k, q, AtRecord(fd, i), e);
    CountAdds(pr, multiset{Scan}, Noted(job, v.shutdown, e));
    assert StepOf(job, v, k, NextRecord)
           == Only(Visit(job, v.shutdown, k, q, AtRecord(fd, i), e)).(
                events := multiset{Scan} + Noted(job, v.shutdown, e));
    assert f.records(q.task, i)
           == Count(pr, multiset{Scan}) + Count(pr, Shown(job, e)) + SpotLeft(f, q.task, AtRecord(fd, i));
  }

  lemma RecordPays(job: Plan, pr: Probe, f: Future, v: View, k: Walker)
    requires k.phase.Reading? && Knows(job, pr, f, k.phase)
    ensures Pays(pr, f, WalkerLeft(f, k), StepOf(job, v, k, NextRecord), NextRecord)
  {
    var q, fd, i := k.phase.q, k.phase.fd, k.phase.i;
    if ShownAt(job, q.task, i) {
      ShownPays(job, pr, f, v, k);
    } else if i < |Stream(job, q.task)| {
      assert f.child(q.task, i) == 0;
    }
  }

  lemma DequePays(job: Plan, pr: Probe, f: Future, v: View, k: Walker, step: Step)
    requires CanStep(job, v, k, step) && (step.PopOwn? || step.PushChild?)
    requires step.PushChild? ==> f.child(k.phase.q.task, k.phase.i) == f.below(ChildAt(job, k.phase.q.task, k.phase.i))
    ensures Pays(pr, f, WalkerLeft(f, k), StepOf(job, v, k, step), step)
  {
    if step.PopOwn? {
      var n := |k.deque| - 1;
      assert k.deque == k.deque[..n] + [k.deque[n]];
      TasksSplit(f, k.deque[..n], [k.deque[n]]);
      TasksOne(f, k.deque[n]);
    } else {
      var c := QTask(ChildAt(job, k.phase.q.task, k.phase.i), Some(k.phase.fd));
      TasksSplit(f, k.deque, [c]);
      TasksOne(f, c);
    }
  }

  lemma ProcessPays(job: Plan, pr: Probe, f: Future, v: View, k: Walker)
    requires k.phase.Begin?
    requires f.root(k.phase.q.task) == Count(pr, Shown(job, RootEntry(k.phase.q.task)))
    ensures Pays(pr, f, WalkerLeft(f, k), StepOf(job, v, k, Process), Process)
  {
    var q := k.phase.q;
    if q.parent.None? {
      VisitLeft(job, pr, f, v.shutdown, k, q, AtRoot, RootEntry(q.task));
      assert StepOf(job, v, k, Process).k == Visit(job, v.shutdown, k, q, AtRoot, RootEntry(q.task));
    }
  }

  /** The depth check, the limiter and the open: nothing is below a directory that is not read. */
  lemma OpenPays(job: Plan, pr: Probe, f: Future, fds: seq<nat>, v: View, k: Walker, step: Step)
    requires PhaseOk(job, fds, k.phase) && CanStep(job, v, k, step)
    requires step.CheckDepth? || step.Token? || step.Refused? || step.Open?
    requires var t := k.phase.q.task; var o := Opened(job, t);
             f.below(t) == if o.None? then 0 else Count(pr, multiset{Read(o.value, t.depth)}) + f.records(t, 0)
    ensures Pays(pr, f, WalkerLeft(f, k), StepOf(job, v, k, step), step)
  {
    if step.Open? {
      assert Opened(job, k.phase.q.task) == Entered(job, k.phase.q.task);
    }
  }

  lemma IdlePays(job: Plan, pr: Probe, f: Future, v: View, k: Walker, step: Step)
    requires CanStep(job, v, k, step)
    requires step.LoadQuit? || step.OwnEmpty? || step.LoadPending? || step.FetchAdd? || step.StoreQuit?
             || step.FetchSub? || step.DropTask? || step.SendFails?
    ensures Pays(pr, f, WalkerLeft(f, k), StepOf(job, v, k, step), step)
  {
  }

  lemma StepPays(job: Plan, pr: Probe, f: Future, fds: seq<nat>, v: View, k: Walker, step: Step)
    requires PhaseOk(job, fds, k.phase) && CanStep(job, v, k, step) && Knows(job, pr, f, k.phase)
    ensures Pays(pr, f, WalkerLeft(f, k), StepOf(job, v, k, step), step)
  {
    match step
    case PopOwn => DequePays(job, pr, f, v, k, step);
    case PushChild => DequePays(job, pr, f, v, k, step);
    case Process => ProcessPays(job, pr, f, v, k);
    case NextRecord => RecordPays(job, pr, f, v, k);
    case Open => OpenPays(job, pr, f, fds, v, k, step);
    case CheckDepth => OpenPays(job, pr, f, fds, v, k, step);
    case Token => OpenPays(job, pr, f, fds, v, k, step);
    case Refused => OpenPays(job, pr, f, fds, v, k, step);
    case _ => IdlePays(job, pr, f, v, k, step);
  }

  predicate Gone(p: Phase) {
    p.Flushing? || p.Exited?
  }

  /** A walker leaves its loop only on quit or when nothing is pending. */
  ghost predicate LeavesForCause(s: State) {
    forall w | 0 <= w < |s.walkers| :: Gone(s.walkers[w].phase) ==> s.quit || s.pending == 0
  }

  /** Nobody has been told to stop. */
  ghost predicate Unhurried(s: State) {
    !s.quit && forall w | 0 <= w < |s.walkers| :: !s.walkers[w].phase.Quitting?
  }

  /** Past plus future never exceeds `total`, and is exactly that until somebody is told to stop. */
  ghost predicate BalancedTo(pr: Probe, f: Future, total: nat, s: State) {
    && Count(pr, s.history) + Left(f, s) <= total
    && (Unhurried(s) ==> Count(pr, s.history) + Left(f, s) == total)
  }

  lemma LocalHurry(job: Plan, s: State, w: nat, step: Step)
    requires Enabled(job, s, Local(w, step))
    requires Unhurried(Apply(job, s, Local(w, step)))
    ensures Unhurried(s) && !Gives(StepOf(job, ViewOf(s), s.walkers[w], step), step)
  {
    var s' := Apply(job, s, Local(w, step));
    assert !s'.walkers[w].phase.Quitting?;
    forall v | 0 <= v < |s.walkers| ensures !s.walkers[v].phase.Quitting? {
      assert v != w ==> s'.walkers[v] == s.walkers[v];
    }
  }

  lemma LocalBalance(job: Plan, pr: Probe, f: Future, total: nat, s: State, w: nat, step: Step)
    requires WellShaped(job, s) && Enabled(job, s, Local(w, step))
    requires BalancedTo(pr, f, total, s) && Knows(job, pr, f, s.walkers[w].phase)
    ensures BalancedTo(pr, f, total, Apply(job, s, Local(w, step)))
  {
    var k := s.walkers[w];
    var e := StepOf(job, ViewOf(s), k, step);
    StepPays(job, pr, f, s.fds, ViewOf(s), k, step);
    LeftUpdate(f, s.walkers, w, e.k);
    CountAdds(pr, s.history, e.events);
    if Unhurried(Apply(job, s, Local(w, step))) {
      LocalHurry(job, s, w, step);
    }
  }

  lemma StealBatchLeft(job: Plan, f: Future, s: State, a: Action)
    requires Enabled(job, s, a) && a.StealBatch?
    ensures Left(f, Apply(job, s, a)) == Left(f, s)
  {
    var n := |a.order| + 1;
    assert s.injector == [s.injector[0]] + s.injector[1..n] + s.injector[n..];
    TasksSplit(f, [s.injector[0]] + s.injector[1..n], s.injector[n..]);
    TasksSplit(f, [s.injector[0]], s.injector[1..n]);
    TasksOne(f, s.injector[0]);
    TasksPermuted(f, a.order, s.injector[1..n]);
    LeftUpdate(f, s.walkers, a.w, s.walkers[a.w].(phase := Begin(s.injector[0]), deque := a.order));
  }

  lemma StealPeerLeft(job: Plan, f: Future, s: State, a: Action)
    requires Enabled(job, s, a) && a.StealPeer?
    ensures Left(f, Apply(job, s, a)) == Left(f, s)
  {
    var victim := s.walkers[a.v];
    var robbed := victim.(deque := victim.deque[1..]);
    LeftUpdate(f, s.walkers, a.v, robbed);
    LeftUpdate(f, s.walkers[a.v := robbed], a.w, s.walkers[a.w].(phase := Begin(victim.deque[0])));
  }

  lemma SendLeft(job: Plan, pr: Probe, f: Future, s: State, a: Action)
    requires Enabled(job, s, a) && (a.Send? || a.HandOver?) && Knows(job, pr, f, s.walkers[a.w].phase)
    ensures Left(f, Apply(job, s, a)) == Left(f, s)
  {
    var k := s.walkers[a.w];
    if k.phase.Sending? {
      ResumeLeft(job, pr, f, k.phase.q, k.phase.spot);
    }
    LeftUpdate(f, s.walkers, a.w, Sent(job, k));
  }

  lemma SameHurry(job: Plan, s: State, a: Action)
    requires Enabled(job, s, a) && !a.Local?
    ensures Unhurried(Apply(job, s, a)) <==> Unhurried(s)
    ensures Apply(job, s, a).history == s.history
  {
    var s' := Apply(job, s, a);
    assert forall v | 0 <= v < |s.walkers| ::
        s'.walkers[v].phase.Quitting? <==> s.walkers[v].phase.Quitting?;
  }

  /** Walkers that returned have nothing left to do. */
  lemma {:induction false} NothingLeft(f: Future, ks: seq<Walker>)
    requires forall k | k in ks :: k.deque == [] && k.phase.Exited?
    ensures WalkersLeft(f, ks) == 0
    decreases |ks|
  {
    if ks != [] {
      NothingLeft(f, ks[1..]);
    }
  }

  /** The returning walk drops no task unless somebody was told to stop. */
  lemma ReturnBalance(job: Plan, pr: Probe, f: Future, total: nat, s: State)
    requires WellShaped(job, s) && BalancedTo(pr, f, total, s) && Enabled(job, s, WalkReturns)
    requires PendingExact(s) && LeavesForCause(s)
    ensures BalancedTo(pr, f, total, Apply(job, s, WalkReturns))
  {
    NothingLeft(f, Emptied(s.walkers));
    SameHurry(job, s, WalkReturns);
    if Unhurried(s) {
      assert Gone(s.walkers[0].phase);
      ZeroMeansNoWork(s);
      NothingLeft(f, s.walkers);
    }
  }

  lemma BalanceKept(job: Plan, pr: Probe, f: Future, total: nat, s: State, a: Action)
    requires WellShaped(job, s) && BalancedTo(pr, f, total, s) && Enabled(job, s, a)
    requires PendingExact(s) && LeavesForCause(s)
    requires forall k | k in s.walkers :: Knows(job, pr, f, k.phase)
    ensures BalancedTo(pr, f, total, Apply(job, s, a))
  {
    if a.Local? {
      LocalBalance(job, pr, f, total, s, a.w, a.step);
    } else if a.WalkReturns? {
      ReturnBalance(job, pr, f, total, s);
    } else {
      SameHurry(job, s, a);
      if a.StealBatch? {
        StealBatchLeft(job, f, s, a);
      } else if a.StealPeer? {
        StealPeerLeft(job, f, s, a);
      } else if a.Pass? {
        LeftUpdate(f, s.walkers, a.w, s.walkers[a.w].(phase := Onward(s, s.walkers[a.w].phase, a.lost)));
      } else if a.Send? || a.HandOver? {
        SendLeft(job, pr, f, s, a);
      }
    }
  }

  // ----- Past plus future is the recursive walk -----

  /**
   * Past and future events never exceed those of the recursive walk, and add up to exactly them
   * as long as nobody has been told to stop.
   */
  ghost predicate Balanced(job: Job, pr: Probe, s: State) {
    BalancedTo(pr, Expected(job, pr), Count(pr, Walk(job)), s)
  }

  lemma WalkConserved(job: Job, pr: Probe, s: State, a: Action)
    requires WellShaped(job, s) && Balanced(job, pr, s) && Enabled(job, s, a)
    requires PendingExact(s) && LeavesForCause(s)
    ensures Balanced(job, pr, Apply(job, s, a))
  {
    var f := Expected(job, pr);
    forall k | k in s.walkers ensures Knows(job, pr, f, k.phase) {
      if Running(k.phase) {
        ExpectedForetells(job, pr, k.phase.q.task, IndexOf(k.phase));
      }
    }
    BalanceKept(job, pr, f, Count(pr, Walk(job)), s, a);
  }

  lemma {:induction false} QueuedLeft(job: Job, pr: Probe, ts: seq<Task>)
    ensures TasksLeft(Expected(job, pr), Queued(ts)) == Count(pr, WalkRoots(job, ts))
    decreases |ts|
  {
    if ts != [] {
      assert Queued(ts)[1..] == Queued(ts[1..]);
      QueuedLeft(job, pr, ts[1..]);
      CountAdds(pr, WalkRoot(job, ts[0]), WalkRoots(job, ts[1..]));
      CountAdds(pr, Shown(job, RootEntry(ts[0])), Below(job, ts[0]));
    }
  }

  lemma {:induction false} IdleLeft(f: Future, n: nat)
    ensures var ks := seq(n, _ => Walker(Top, [], [], [], [])); WalkersLeft(f, ks) == 0 && Sum(Owed, ks) == 0
  {
    if n > 0 {
      assert seq(n, _ => Walker(Top, [], [], [], []))[1..] == seq(n - 1, _ => Walker(Top, [], [], [], []));
      IdleLeft(f, n - 1);
    }
  }

  lemma InitBalanced(job: Job, pr: Probe)
    ensures Balanced(job, pr, Init(job)) && PendingExact(Init(job))
  {
    QueuedLeft(job, pr, Roots(job));
    IdleLeft(Expected(job, pr), WalkerCount(job));
    assert Init(job).walkers == seq(WalkerCount(job), _ => Walker(Top, [], [], [], []));
  }
}
