/** Runs end: a measure no action raises, and from every reachable state a way to the end. */
module Progress {
  import opened FileSystem
  import opened WalkSpec
  import opened Machine
  import opened Shape
  import opened Accounting
  import opened Invariant

  /** Each event still to come pays for everything it can cause downstream. */
  const EVENT_COST: nat := 20
  const TASK_COST: nat := 11
  const ENTRY_COST: nat := 4

  /** Idle spinning: looking at `quit`, at empty queues or in a lost race, and at a nonzero `pending`. */
  predicate Spins(s: State, a: Action) {
    a.Pass? || (a.Local? && (
      || (a.step.LoadQuit? && !s.quit)
      || a.step.OwnEmpty?
      || (a.step.LoadPending? && s.pending != 0)))
  }

  function PhaseCost(p: Phase): nat {
    match p
    case Top => 2
    case Seek => 2
    case Draw(_) => 2
    case Poll(_, _, _) => 2
    case Miss => 2
    case Begin(_) => 12
    case Gate(_) => 10
    case Throttle(_) => 9
    case Opening(_) => 8
    case Reading(_, _, _) => 6
    case Sending(_, spot, batch) => |batch| + 4 + (if spot.AtRoot? then 10 else 19)
    case Enqueue(_, _, _) => 19
    case Push(_, _, _) => 18
    case Quitting(_, _) => 5
    case Done(_) => 4
    case Spent(_) => 3
    case Flushing(batch) => |batch| + 4
    case Exited => 0
  }

  function WalkerCost(k: Walker): int {
    PhaseCost(k.phase) + TASK_COST * |k.deque| + ENTRY_COST * |k.buf|
  }

  function ChanCost(chan: seq<Batch>): nat {
    if chan == [] then 0 else |chan[0].entries| + 2 + ChanCost(chan[1..])
  }

  function OutCost(out: Output): nat {
    match out
    case Waiting => 1
    case Printing(_, rest) => |rest| + 2
    case Finished => 0
  }

  function Flags(s: State): nat {
    (if s.sender then 1 else 0) + (if s.shutdown then 0 else 1)
  }

  /** Work to come, queued tasks, busy walkers, buffered and channelled entries, live threads. */
  ghost function Measure(f: Future, s: State): int {
    EVENT_COST * Left(f, s) + TASK_COST * |s.injector| + Sum(WalkerCost, s.walkers)
    + ChanCost(s.chan) + OutCost(s.out) + Flags(s)
  }

  // ----- Local steps -----

  /** The events of a step and what they leave pay for the walker's new cost. */
  ghost predicate Cheaper(f: Future, k: Walker, e: Effect, spin: bool) {
    var before := EVENT_COST * WalkerLeft(f, k) + WalkerCost(k);
    var after := EVENT_COST * WalkerLeft(f, e.k) + WalkerCost(e.k);
    if spin then after == before else after < before
  }

  lemma VisitCost(job: Plan, shutdown: bool, k: Walker, q: QTask, spot: Spot, e: Entry)
    ensures var k' := Visit(job, shutdown, k, q, spot, e);
            WalkerCost(k') <= ENTRY_COST * |k.buf| + TASK_COST * |k.deque| + 5 + (if spot.AtRoot? then 10 else 19)
            && (!Accepts(job, shutdown, e) ==>
                  WalkerCost(k') <= ENTRY_COST * |k.buf| + TASK_COST * |k.deque| + (if spot.AtRoot? then 10 else 19))
  {
  }

  lemma ProcessCost(job: Plan, f: Future, v: View, k: Walker)
    requires k.phase.Begin? && Pays(None, f, WalkerLeft(f, k), StepOf(job, v, k, Process), Process)
    ensures Cheaper(f, k, StepOf(job, v, k, Process), false)
  {
    var q := k.phase.q;
    if q.parent.None? {
      VisitCost(job, v.shutdown, k, q, AtRoot, RootEntry(q.task));
      assert StepOf(job, v, k, Process).k == Visit(job, v.shutdown, k, q, AtRoot, RootEntry(q.task));
    }
  }

  lemma RecordCost(job: Plan, f: Future, v: View, k: Walker)
    requires k.phase.Reading? && Pays(None, f, WalkerLeft(f, k), StepOf(job, v, k, NextRecord), NextRecord)
    ensures Cheaper(f, k, StepOf(job, v, k, NextRecord), false)
  {
    var q, fd, i := k.phase.q, k.phase.fd, k.phase.i;
    if ShownAt(job, q.task, i) {
      var e := EntryAt(job, q.task, i);
      VisitCost(job, v.shutdown, k, q, AtRecord(fd, i), e);
      assert StepOf(job, v, k, NextRecord).k == Visit(job, v.shutdown, k, q, AtRecord(fd, i), e);
    }
  }

  lemma MoveCost(job: Plan, f: Future, v: View, k: Walker, step: Step, spin: bool)
    requires CanStep(job, v, k, step) && !step.Process? && !step.NextRecord?
    requires Pays(None, f, WalkerLeft(f, k), StepOf(job, v, k, step), step)
    requires spin == ((step.LoadQuit? && !v.quit) || step.OwnEmpty? || (step.LoadPending? && v.pending != 0))
    ensures Cheaper(f, k, StepOf(job, v, k, step), spin)
  {
  }

  lemma MergeMeasure(f: Future, s: State, w: nat, e: Effect)
    requires w < |s.walkers|
    ensures Measure(f, Merge(s, w, e))
            == Measure(f, s) + EVENT_COST * (WalkerLeft(f, e.k) - WalkerLeft(f, s.walkers[w]))
               + WalkerCost(e.k) - WalkerCost(s.walkers[w])
  {
    LeftUpdate(f, s.walkers, w, e.k);
    SumUpdate(WalkerCost, s.walkers, w, e.k);
  }

  lemma LocalMeasure(job: Plan, f: Future, s: State, w: nat, step: Step)
    requires WellShaped(job, s) && Enabled(job, s, Local(w, step)) && Knows(job, None, f, s.walkers[w].phase)
    ensures var s' := Apply(job, s, Local(w, step));
            if Spins(s, Local(w, step)) then Measure(f, s') == Measure(f, s) else Measure(f, s') < Measure(f, s)
  {
    var k, v := s.walkers[w], ViewOf(s);
    var e := StepOf(job, v, k, step);
    StepPays(job, None, f, s.fds, v, k, step);
    if step.Process? {
      ProcessCost(job, f, v, k);
    } else if step.NextRecord? {
      RecordCost(job, f, v, k);
    } else {
      MoveCost(job, f, v, k, step, Spins(s, Local(w, step)));
    }
    MergeMeasure(f, s, w, e);
  }

  // ----- Shared actions -----

  lemma StealMeasure(job: Plan, f: Future, s: State, a: Action)
    requires Enabled(job, s, a) && (a.StealBatch? || a.StealPeer?)
    ensures Measure(f, Apply(job, s, a)) < Measure(f, s)
  {
    var k := s.walkers[a.w];
    if a.StealBatch? {
      StealBatchLeft(job, f, s, a);
      SumUpdate(WalkerCost, s.walkers, a.w, k.(phase := Begin(s.injector[0]), deque := a.order));
    } else {
      StealPeerLeft(job, f, s, a);
      var victim := s.walkers[a.v];
      var robbed := victim.(deque := victim.deque[1..]);
      SumUpdate(WalkerCost, s.walkers, a.v, robbed);
      SumUpdate(WalkerCost, s.walkers[a.v := robbed], a.w, k.(phase := Begin(victim.deque[0])));
    }
  }

  lemma PassMeasure(job: Plan, f: Future, s: State, a: Action)
    requires Enabled(job, s, a) && a.Pass?
    ensures Measure(f, Apply(job, s, a)) == Measure(f, s)
  {
    var k' := s.walkers[a.w].(phase := Onward(s, s.walkers[a.w].phase, a.lost));
    LeftUpdate(f, s.walkers, a.w, k');
    SumUpdate(WalkerCost, s.walkers, a.w, k');
  }

  lemma {:induction false} ChanAppend(chan: seq<Batch>, b: Batch)
    ensures ChanCost(chan + [b]) == ChanCost(chan) + |b.entries| + 2
    decreases |chan|
  {
    if chan == [] {
      assert chan + [b] == [b] && [b][1..] == [];
    } else {
      assert (chan + [b])[1..] == chan[1..] + [b];
      ChanAppend(chan[1..], b);
    }
  }

  lemma SentCost(job: Plan, k: Walker)
    requires Blocked(k.phase)
    ensures WalkerCost(Sent(job, k)) + |k.phase.batch| + 4 <= WalkerCost(k)
  {
  }

  lemma SendMeasure(job: Plan, f: Future, s: State, a: Action)
    requires Enabled(job, s, a) && (a.Send? || a.HandOver?) && Knows(job, None, f, s.walkers[a.w].phase)
    ensures Measure(f, Apply(job, s, a)) < Measure(f, s)
  {
    var k := s.walkers[a.w];
    SendLeft(job, None, f, s, a);
    SentCost(job, k);
    SumUpdate(WalkerCost, s.walkers, a.w, Sent(job, k));
    ChanAppend(s.chan, Batch(a.w, k.phase.batch));
  }

  lemma {:induction false} EmptiedIsCheaper(ks: seq<Walker>)
    ensures Sum(WalkerCost, Emptied(ks)) <= Sum(WalkerCost, ks)
    decreases |ks|
  {
    if ks != [] {
      assert Emptied(ks)[1..] == Emptied(ks[1..]);
      EmptiedIsCheaper(ks[1..]);
    }
  }

  lemma ReturnMeasure(job: Plan, f: Future, s: State)
    requires Enabled(job, s, WalkReturns)
    ensures Measure(f, Apply(job, s, WalkReturns)) < Measure(f, s)
  {
    EmptiedIsCheaper(s.walkers);
    NothingLeft(f, Emptied(s.walkers));
  }

  lemma SameWalkers(f: Future, s: State, s': State)
    requires s'.walkers == s.walkers && s'.injector == s.injector
    ensures Measure(f, s') - Measure(f, s)
            == ChanCost(s'.chan) - ChanCost(s.chan) + OutCost(s'.out) - OutCost(s.out) + Flags(s') - Flags(s)
  {
  }

  lemma OutputMeasure(job: Plan, f: Future, s: State, a: Action)
    requires Enabled(job, s, a)
    requires a.Receive? || a.Write? || a.NextBatch? || a.HangUp? || a.Interrupt?
    ensures Measure(f, Apply(job, s, a)) < Measure(f, s)
  {
    SameWalkers(f, s, Apply(job, s, a));
    OutputCost(job, s, a);
  }

  lemma OutputCost(job: Plan, s: State, a: Action)
    requires Enabled(job, s, a)
    requires a.Receive? || a.Write? || a.NextBatch? || a.HangUp? || a.Interrupt?
    ensures var s' := Apply(job, s, a);
            ChanCost(s'.chan) + OutCost(s'.out) + Flags(s') < ChanCost(s.chan) + OutCost(s.out) + Flags(s)
  {
  }

  /** No action raises the measure, and every action but idle spinning lowers it. */
  lemma MeasureFalls(job: Job, s: State, a: Action)
    requires WellShaped(job, s) && Enabled(job, s, a)
    ensures var m, m' := Measure(Expected(job, None), s), Measure(Expected(job, None), Apply(job, s, a));
            if Spins(s, a) then m' == m else m' < m
  {
    var f := Expected(job, None);
    if (a.Local? || a.Send? || a.HandOver?) && Running(s.walkers[a.w].phase) {
      var p := s.walkers[a.w].phase;
      ExpectedForetells(job, None, p.q.task, IndexOf(p));
    }
    if a.Local? {
      LocalMeasure(job, f, s, a.w, a.step);
    } else if a.StealBatch? || a.StealPeer? {
      StealMeasure(job, f, s, a);
    } else if a.Pass? {
      PassMeasure(job, f, s, a);
    } else if a.Send? || a.HandOver? {
      SendMeasure(job, f, s, a);
    } else if a.WalkReturns? {
      ReturnMeasure(job, f, s);
    } else {
      OutputMeasure(job, f, s, a);
    }
  }

  lemma MeasureNonNegative(f: Future, s: State)
    ensures Measure(f, s) >= 0
  {
    SumNonNegative(WalkerCost, s.walkers);
  }

  // ----- Every run is finite but for spinning -----

  ghost function Busy(job: Plan, s: State, acts: seq<Action>): nat
    requires Valid(job, s, acts)
    decreases |acts|
  {
    if acts == [] then 0
    else (if Spins(s, acts[0]) then 0 else 1) + Busy(job, Apply(job, s, acts[0]), acts[1..])
  }

  lemma {:induction false} BusyIsBounded(job: Job, s: State, acts: seq<Action>)
    requires WellShaped(job, s) && Valid(job, s, acts)
    ensures Busy(job, s, acts) <= Measure(Expected(job, None), s)
    decreases |acts|
  {
    MeasureNonNegative(Expected(job, None), s);
    if acts != [] {
      MeasureFalls(job, s, acts[0]);
      ShapeKept(job, s, acts[0]);
      BusyIsBounded(job, Apply(job, s, acts[0]), acts[1..]);
    }
  }

  /** Termination: all schedules together have one bound on their actions other than idle spinning. */
  lemma RunsTerminate(job: Job, acts: seq<Action>)
    requires Valid(job, Init(job), acts)
    ensures Busy(job, Init(job), acts) <= Measure(Expected(job, None), Init(job))
  {
    InitShape(job);
    BusyIsBounded(job, Init(job), acts);
  }

  // ----- No run is ever stuck -----

  predicate Working(p: Phase) {
    HasTask(p) || Blocked(p)
  }

  /** The step of a walker that is busy and not blocked on the channel. */
  function StepFor(p: Phase): Step
    requires Working(p) && !Blocked(p)
  {
    match p
    case Begin(_) => Process
    case Gate(_) => CheckDepth
    case Throttle(_) => Token
    case Opening(_) => Open
    case Reading(_, _, _) => NextRecord
    case Enqueue(_, _, _) => FetchAdd
    case Push(_, _, _) => PushChild
    case Quitting(_, _) => StoreQuit
    case Done(_) => FetchSub
    case Spent(_) => DropTask
  }

  /** The output thread always has something to do on a batch or a nonempty channel. */
  function Drain(s: State): Action
    requires s.out.Printing? || (s.out.Waiting? && s.chan != [])
  {
    if s.out.Waiting? then Receive else if s.out.rest != [] then Write else NextBatch
  }

  /** A busy walker can move, or the output thread can make room for it. */
  lemma BusyCanMove(job: Plan, s: State, w: nat) returns (a: Action)
    requires WellShaped(job, s) && w < |s.walkers|
    requires Working(s.walkers[w].phase)
    ensures Enabled(job, s, a) && !Spins(s, a)
    ensures ((a.Local? || a.Send? || a.HandOver?) && a.w == w) || a.Receive? || a.Write? || a.NextBatch?
  {
    var p := s.walkers[w].phase;
    if !Blocked(p) {
      assert WalkerOk(job, s.fds, s.walkers[w]);
      a := Local(w, StepFor(p));
    } else if s.out.Finished? {
      a := Local(w, SendFails);
    } else if |s.chan| < Capacity(job) {
      a := Send(w);
    } else if s.out.Printing? || s.chan != [] {
      a := Drain(s);
    } else {
      a := HandOver(w);
    }
  }

  lemma TailCanMove(job: Plan, s: State) returns (a: Action)
    requires AllExited(s) && !Final(s)
    ensures Enabled(job, s, a) && !Spins(s, a)
    ensures a.WalkReturns? || a.Receive? || a.Write? || a.NextBatch? || a.HangUp?
  {
    if s.sender {
      a := WalkReturns;
    } else if s.out.Printing? || s.chan != [] {
      a := Drain(s);
    } else {
      a := HangUp;
    }
  }

  predicate Idle(p: Phase) {
    p.Top? || p.Seek? || p.Draw? || p.Poll? || p.Miss?
  }

  /** Where an idle walker is in its round of `n` peers. */
  function Place(p: Phase, n: nat): nat
    requires Idle(p)
  {
    match p
    case Top => 0
    case Seek => 1
    case Draw(_) => 2
    case Poll(v, _, _) => if v <= n then 3 + v else 3 + n
    case Miss => n + 4
  }

  /** Where the round of walker `w` ends next: at a reason to leave, or at a task to take. */
  function Goal(s: State, w: nat): nat
    requires w < |s.walkers|
  {
    if s.quit then 0
    else if s.pending == 0 then |s.walkers| + 4
    else if s.walkers[w].deque != [] then 1
    else if s.injector != [] then 2
    else 3 + Victim(s, w, 0)
  }

  /** The first peer from `v` on with a task; none is past the end. */
  function Victim(s: State, w: nat, v: nat): (u: nat)
    ensures v <= u && (v <= |s.walkers| ==> u <= |s.walkers|)
    ensures u < |s.walkers| ==> u != w && s.walkers[u].deque != []
    ensures u >= |s.walkers| ==> forall x | v <= x < |s.walkers| && x != w :: s.walkers[x].deque == []
    decreases |s.walkers| - v
  {
    if v >= |s.walkers| || (v != w && s.walkers[v].deque != []) then v else Victim(s, w, v + 1)
  }

  /** A walker that may lose a race, or has to start over because it lost one. */
  predicate Shaken(s: State, p: Phase) {
    Racing(s, p) || (p.Poll? && p.lost)
  }

  /** How many spins an idle walker is at most away from the end of its round, if nothing else happens. */
  function SpinsAway(s: State, w: nat): nat
    requires w < |s.walkers| && Idle(s.walkers[w].phase)
  {
    var n, p := |s.walkers|, s.walkers[w].phase;
    var at, goal := Place(p, n), Goal(s, w);
    if Shaken(s, p) then 3 * (n + 5) - at
    else if at <= goal then goal - at
    else goal + n + 5 - at
  }

  /** The round of walker `w` has an end: a reason to leave, or a task to take. */
  ghost predicate Worth(s: State, w: nat)
    requires w < |s.walkers|
  {
    s.quit || s.pending == 0 || s.walkers[w].deque != [] || s.injector != [] || Victim(s, w, 0) < |s.walkers|
  }

  /** What an idle walker does next. */
  function IdleAction(s: State, w: nat): Action
    requires w < |s.walkers| && Idle(s.walkers[w].phase)
  {
    var k := s.walkers[w];
    match k.phase
    case Top => Local(w, LoadQuit)
    case Seek => if k.deque != [] then Local(w, PopOwn) else Local(w, OwnEmpty)
    case Draw(_) => if s.injector != [] then StealBatch(w, []) else Pass(w, false)
    case Poll(v, _, _) => if Tempting(s, w) then StealPeer(w, v) else Pass(w, false)
    case Miss => Local(w, LoadPending)
  }

  /** An idle walker can always move. */
  lemma IdleCanMove(job: Plan, s: State, w: nat)
    requires WellShaped(job, s) && w < |s.walkers| && Idle(s.walkers[w].phase)
    ensures Enabled(job, s, IdleAction(s, w))
  {
    assert WalkerOk(job, s.fds, s.walkers[w]);
  }

  /** What a spin leaves alone: everything but the spinner's place in its round. */
  ghost predicate OnlySpun(s: State, s': State, w: nat)
    requires w < |s.walkers|
  {
    && |s'.walkers| == |s.walkers|
    && s' == s.(walkers := s'.walkers)
    && s'.walkers == s.walkers[w := s.walkers[w].(phase := s'.walkers[w].phase)]
    && Idle(s.walkers[w].phase) && Idle(s'.walkers[w].phase)
  }

  lemma LocalSpin(job: Plan, v: View, k: Walker, step: Step)
    requires CanStep(job, v, k, step)
    requires (step.LoadQuit? && !v.quit) || step.OwnEmpty? || (step.LoadPending? && v.pending != 0)
    ensures var p := if step.LoadQuit? then Seek else if step.OwnEmpty? then Draw(v.moves) else Top;
            StepOf(job, v, k, step) == Only(k.(phase := p))
  {
  }

  lemma SpinEffect(job: Plan, s: State, a: Action)
    requires Enabled(job, s, a) && Spins(s, a)
    ensures OnlySpun(s, Apply(job, s, a), a.w)
    ensures var p, p' := s.walkers[a.w].phase, Apply(job, s, a).walkers[a.w].phase;
            p' == if p.Top? then Seek else if p.Seek? then Draw(s.moves) else if p.Miss? then Top
                  else Onward(s, p, a.Pass? && a.lost)
  {
    if a.Local? {
      LocalSpin(job, ViewOf(s), s.walkers[a.w], a.step);
      assert s.fds + [] == s.fds && s.history + multiset{} == s.history;
    }
  }

  lemma SameGoal(s: State, s': State, w: nat, x: nat)
    requires w < |s.walkers| && x < |s.walkers| && OnlySpun(s, s', w)
    ensures Goal(s', x) == Goal(s, x)
  {
    SameVictim(s, s', w, x, 0);
  }

  lemma {:induction false} SameVictim(s: State, s': State, w: nat, x: nat, v: nat)
    requires w < |s.walkers| && OnlySpun(s, s', w)
    ensures Victim(s', x, v) == Victim(s, x, v)
    decreases |s.walkers| - v
  {
    if v < |s.walkers| {
      assert s'.walkers[v].deque == s.walkers[v].deque;
      SameVictim(s, s', w, x, v + 1);
    }
  }

  /** A spin does not happen at the end of a round, and brings it nearer. */
  lemma SpinApproaches(job: Plan, s: State, a: Action)
    requires WellShaped(job, s) && Enabled(job, s, a) && Spins(s, a) && Worth(s, a.w)
    ensures var s' := Apply(job, s, a);
            OnlySpun(s, s', a.w) && SpinsAway(s', a.w) < SpinsAway(s, a.w)
  {
    SpinEffect(job, s, a);
    SameGoal(s, Apply(job, s, a), a.w, a.w);
    GoalInRound(s, a.w);
    if !Shaken(s, s.walkers[a.w].phase) {
      NoSpinAtGoal(job, s, a);
    }
  }

  lemma GoalInRound(s: State, w: nat)
    requires w < |s.walkers| && Worth(s, w)
    ensures Goal(s, w) <= |s.walkers| + 4
  {
  }

  lemma NoSpinAtGoal(job: Plan, s: State, a: Action)
    requires Enabled(job, s, a) && Spins(s, a) && Worth(s, a.w) && !Shaken(s, s.walkers[a.w].phase)
    ensures Idle(s.walkers[a.w].phase) && Place(s.walkers[a.w].phase, |s.walkers|) != Goal(s, a.w)
  {
  }

  /**
   * Progress: from every reachable state that is not the end, at most three rounds of idle spins
   * lead to an action that lowers the measure, without anybody interrupting.
   */
  lemma CanAdvance(job: Job, s: State) returns (acts: seq<Action>)
    requires Inv(job, s) && !Final(s)
    ensures Valid(job, s, acts) && |acts| <= 3 * (|s.walkers| + 5) + 1
    ensures Measure(Expected(job, None), Run(job, s, acts)) < Measure(Expected(job, None), s)
    ensures Run(job, s, acts).shutdown == s.shutdown
  {
    if AllExited(s) {
      var a := TailCanMove(job, s);
      acts := OneAction(job, s, a);
    } else if v :| 0 <= v < |s.walkers| && Working(s.walkers[v].phase) {
      var a := BusyCanMove(job, s, v);
      acts := OneAction(job, s, a);
    } else {
      var w :| 0 <= w < |s.walkers| && !s.walkers[w].phase.Exited?;
      QuietIsWorth(s, w);
      acts := IdleAdvances(job, s, w);
    }
  }

  /** If nobody is busy, a round ends. */
  lemma QuietIsWorth(s: State, w: nat)
    requires PendingExact(s) && w < |s.walkers|
    requires forall v | 0 <= v < |s.walkers| :: !Running(s.walkers[v].phase)
    ensures Worth(s, w)
  {
    if s.pending != 0 && s.injector == [] {
      var v := NonZeroMeansWork(s);
    }
  }

  lemma OneAction(job: Job, s: State, a: Action) returns (acts: seq<Action>)
    requires WellShaped(job, s) && Enabled(job, s, a) && !Spins(s, a) && !a.Interrupt?
    ensures Valid(job, s, acts) && |acts| == 1
    ensures Measure(Expected(job, None), Run(job, s, acts)) < Measure(Expected(job, None), s)
    ensures Run(job, s, acts).shutdown == s.shutdown
  {
    acts := [a];
    RunOne(job, s, a);
    MeasureFalls(job, s, a);
  }

  lemma SpinStep(job: Job, s: State, a: Action)
    requires Inv(job, s) && Enabled(job, s, a) && Spins(s, a) && Worth(s, a.w)
    ensures var s' := Apply(job, s, a);
            && Inv(job, s') && OnlySpun(s, s', a.w) && Worth(s', a.w) && SpinsAway(s', a.w) < SpinsAway(s, a.w)
            && Measure(Expected(job, None), s') == Measure(Expected(job, None), s)
  {
    InvKept(job, s, a);
    MeasureFalls(job, s, a);
    SpinApproaches(job, s, a);
    SameVictim(s, Apply(job, s, a), a.w, a.w, 0);
  }

  lemma IdleAdvances(job: Job, s: State, w: nat) returns (acts: seq<Action>)
    requires Inv(job, s) && w < |s.walkers| && Idle(s.walkers[w].phase) && Worth(s, w)
    ensures Valid(job, s, acts) && |acts| <= SpinsAway(s, w) + 1
    ensures Measure(Expected(job, None), Run(job, s, acts)) < Measure(Expected(job, None), s)
    ensures Run(job, s, acts).shutdown == s.shutdown
    decreases SpinsAway(s, w)
  {
    IdleCanMove(job, s, w);
    var a := IdleAction(s, w);
    if Spins(s, a) {
      SpinStep(job, s, a);
      var s' := Apply(job, s, a);
      var rest := IdleAdvances(job, s', w);
      PrependRun(job, s, a, rest);
      acts := [a] + rest;
    } else {
      acts := OneAction(job, s, a);
    }
  }

  lemma PrependRun(job: Plan, s: State, a: Action, rest: seq<Action>)
    requires Enabled(job, s, a) && Valid(job, Apply(job, s, a), rest)
    ensures Valid(job, s, [a] + rest) && Run(job, s, [a] + rest) == Run(job, Apply(job, s, a), rest)
  {
    assert ([a] + rest)[1..] == rest;
  }

  /** Every run can be brought to its end, without an interrupt: no deadlock, whatever happened before. */
  lemma CanFinish(job: Job, s: State) returns (acts: seq<Action>)
    requires Inv(job, s)
    ensures Valid(job, s, acts) && Final(Run(job, s, acts)) && Run(job, s, acts).shutdown == s.shutdown
    decreases Measure(Expected(job, None), s)
  {
    if Final(s) {
      acts := [];
    } else {
      var head := CanAdvance(job, s);
      InvRun(job, s, head);
      MeasureNonNegative(Expected(job, None), s);
      MeasureNonNegative(Expected(job, None), Run(job, s, head));
      var tail := CanFinish(job, Run(job, s, head));
      RunAppend(job, s, head, tail);
      acts := head + tail;
    }
  }
}
