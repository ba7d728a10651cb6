/**
 * The walker's code as it runs: run_worker, find_task, process and descend as methods on the
 * shared state, with every other thread acting at arbitrary points in between.
 */
module WorkerCode {
  import opened FileSystem
  import opened WalkSpec
  import opened Machine
  import opened Shape
  import opened Accounting
  import opened Flow
  import opened Invariant
  import opened Progress

  /** `s` is where the schedule `past` leads from the initial state. */
  ghost predicate Reached(job: Job, past: seq<Action>, s: State) {
    Machine.Valid(job, Init(job), past) && Run(job, Init(job), past) == s
  }

  lemma ReachedInv(job: Job, past: seq<Action>, s: State)
    requires Reached(job, past, s)
    ensures Reachable(job, s) && Inv(job, s)
  {
    InvReachable(job, s);
  }

  lemma ReachedShape(job: Job, past: seq<Action>, s: State, w: nat)
    requires Reached(job, past, s) && w < |s.walkers|
    ensures WalkerOk(job, s.fds, s.walkers[w])
  {
    ReachedInv(job, past, s);
  }

  lemma ReachedNext(job: Job, past: seq<Action>, s: State, a: Action)
    requires Reached(job, past, s) && Enabled(job, s, a)
    ensures Reached(job, past + [a], Apply(job, s, a))
  {
    RunOne(job, s, a);
    RunAppend(job, Init(job), past, [a]);
  }

  /** Longer schedules leave no more to do. */
  lemma {:induction false} MeasureOverTime(job: Job, s: State, acts: seq<Action>)
    requires WellShaped(job, s) && Machine.Valid(job, s, acts)
    ensures Measure(Expected(job, None), Run(job, s, acts)) <= Measure(Expected(job, None), s)
    decreases |acts|
  {
    if acts != [] {
      MeasureFalls(job, s, acts[0]);
      ShapeKept(job, s, acts[0]);
      MeasureOverTime(job, Apply(job, s, acts[0]), acts[1..]);
    }
  }

  lemma {:induction false} SplitRun(job: Plan, s: State, a: seq<Action>, b: seq<Action>)
    requires Machine.Valid(job, s, a + b)
    ensures Machine.Valid(job, s, a) && Machine.Valid(job, Run(job, s, a), b)
    ensures Run(job, s, a + b) == Run(job, Run(job, s, a), b)
    decreases |a|
  {
    if a == [] {
      assert a + b == b;
    } else {
      assert (a + b)[1..] == a[1..] + b;
      SplitRun(job, Apply(job, s, a[0]), a[1..], b);
    }
  }

  lemma LaterIsLess(job: Job, early: seq<Action>, s: State, late: seq<Action>, t: State)
    requires Reached(job, early, s) && Reached(job, late, t) && early <= late
    ensures 0 <= Measure(Expected(job, None), t) <= Measure(Expected(job, None), s)
  {
    var more := late[|early|..];
    assert late == early + more;
    SplitRun(job, Init(job), early, more);
    ReachedInv(job, early, s);
    MeasureOverTime(job, s, more);
    MeasureNonNegative(Expected(job, None), t);
  }

  lemma MovesKept(job: Plan, s: State, a: Action)
    requires Enabled(job, s, a)
    ensures Apply(job, s, a).moves >= s.moves
    ensures Spins(s, a) ==> Apply(job, s, a).moves == s.moves
  {
    if Spins(s, a) {
      SpinEffect(job, s, a);
    }
  }

  /** Queues change only by work being done. */
  lemma {:induction false} MovesCost(job: Job, s: State, acts: seq<Action>)
    requires WellShaped(job, s) && Machine.Valid(job, s, acts)
    ensures var t := Run(job, s, acts);
            && t.moves >= s.moves
            && (t.moves > s.moves ==> Measure(Expected(job, None), t) < Measure(Expected(job, None), s))
    decreases |acts|
  {
    if acts != [] {
      MovesKept(job, s, acts[0]);
      MeasureFalls(job, s, acts[0]);
      ShapeKept(job, s, acts[0]);
      MovesCost(job, Apply(job, s, acts[0]), acts[1..]);
      MeasureOverTime(job, Apply(job, s, acts[0]), acts[1..]);
    }
  }

  lemma MovedIsLess(job: Job, early: seq<Action>, s: State, late: seq<Action>, t: State)
    requires Reached(job, early, s) && Reached(job, late, t) && early <= late && t.moves > s.moves
    ensures 0 <= Measure(Expected(job, None), t) < Measure(Expected(job, None), s)
  {
    var more := late[|early|..];
    assert late == early + more;
    SplitRun(job, Init(job), early, more);
    ReachedInv(job, early, s);
    MovesCost(job, s, more);
    MeasureNonNegative(Expected(job, None), t);
  }

  // ----- What happened between two points of a schedule -----

  /** `t` is a state the schedule `late` passed through after its prefix `early`. */
  ghost predicate PassedThrough(job: Job, early: seq<Action>, late: seq<Action>, t: State) {
    exists k :: |early| <= k <= |late| && Reached(job, late[..k], t)
  }

  ghost predicate SawNoSeeds(job: Job, early: seq<Action>, late: seq<Action>) {
    exists t :: PassedThrough(job, early, late, t) && t.injector == []
  }

  ghost predicate SawIdle(job: Job, early: seq<Action>, late: seq<Action>, v: nat) {
    exists t :: PassedThrough(job, early, late, t) && v < |t.walkers| && t.walkers[v].deque == []
  }

  lemma PassesNow(job: Job, early: seq<Action>, late: seq<Action>, s: State)
    requires early <= late && Reached(job, late, s)
    ensures PassedThrough(job, early, late, s)
  {
    assert late[..|late|] == late;
  }

  lemma StillPassed(job: Job, early: seq<Action>, late: seq<Action>, later: seq<Action>, t: State)
    requires PassedThrough(job, early, late, t) && late <= later
    ensures PassedThrough(job, early, later, t)
  {
    var k :| |early| <= k <= |late| && Reached(job, late[..k], t);
    assert later[..k] == late[..k];
  }

  lemma StillSaw(job: Job, early: seq<Action>, late: seq<Action>, later: seq<Action>)
    requires late <= later
    ensures SawNoSeeds(job, early, late) ==> SawNoSeeds(job, early, later)
    ensures forall v: nat :: SawIdle(job, early, late, v) ==> SawIdle(job, early, later, v)
  {
    forall t | PassedThrough(job, early, late, t) ensures PassedThrough(job, early, later, t) {
      StillPassed(job, early, late, later, t);
    }
  }

  lemma SawEarlier(job: Job, early: seq<Action>, mid: seq<Action>, late: seq<Action>)
    requires early <= mid
    ensures SawNoSeeds(job, mid, late) ==> SawNoSeeds(job, early, late)
    ensures forall v: nat :: SawIdle(job, mid, late, v) ==> SawIdle(job, early, late, v)
  {
    forall t | PassedThrough(job, mid, late, t) ensures PassedThrough(job, early, late, t) {
    }
  }

  /** Every peer of `w` below `n` was seen without a task. */
  ghost predicate SawPeersIdle(job: Job, early: seq<Action>, late: seq<Action>, w: nat, n: nat) {
    forall v: nat | v < n && v != w :: SawIdle(job, early, late, v)
  }

  lemma OnePeerMore(job: Job, early: seq<Action>, mid: seq<Action>, late: seq<Action>, w: nat, n: nat)
    requires early <= mid <= late && SawPeersIdle(job, early, mid, w, n)
    requires n != w ==> SawIdle(job, mid, late, n)
    ensures SawPeersIdle(job, early, late, w, n + 1)
  {
    StillSaw(job, early, mid, late);
    SawEarlier(job, early, mid, late);
  }

  lemma SawPeersWithin(job: Job, early: seq<Action>, a: seq<Action>, b: seq<Action>, late: seq<Action>, w: nat, n: nat)
    requires early <= a <= b <= late && SawPeersIdle(job, a, b, w, n)
    ensures SawPeersIdle(job, early, late, w, n)
  {
    SawEarlier(job, early, a, b);
    StillSaw(job, early, b, late);
  }

  // ----- Where a task comes from -----

  predicate NewestOwn(t: State, w: nat, q: QTask) {
    w < |t.walkers| && t.walkers[w].deque != [] && q == t.walkers[w].deque[|t.walkers[w].deque| - 1]
  }

  predicate OldestSeed(t: State, w: nat, q: QTask) {
    w < |t.walkers| && t.walkers[w].deque == [] && t.injector != [] && q == t.injector[0]
  }

  ghost predicate OldestOfPeer(t: State, w: nat, q: QTask) {
    w < |t.walkers| && t.walkers[w].deque == [] &&
    exists v: nat :: v < |t.walkers| && v != w && t.walkers[v].deque != [] && q == t.walkers[v].deque[0]
  }

  /** In between, walker `w` lost a race for a queue. */
  ghost predicate LostRace(early: seq<Action>, late: seq<Action>, w: nat) {
    exists k :: |early| <= k < |late| && late[k] == Pass(w, true)
  }

  lemma StillLost(early: seq<Action>, a: seq<Action>, b: seq<Action>, late: seq<Action>, w: nat)
    requires early <= a && b <= late && LostRace(a, b, w)
    ensures LostRace(early, late, w)
  {
    var k :| |a| <= k < |b| && b[k] == Pass(w, true);
    assert late[k] == b[k];
  }

  /** Whether the way to the peers was open: the injector was seen empty, or a race was lost. */
  ghost predicate PastSeeds(job: Job, early: seq<Action>, late: seq<Action>, w: nat) {
    SawNoSeeds(job, early, late) || LostRace(early, late, w)
  }

  /**
   * In between, `q` was the newest task of walker `w` itself or, that having none, the injector's
   * oldest or, the injector having been seen empty or a race having been lost, the oldest of some
   * peer.
   */
  ghost predicate Taken(job: Job, early: seq<Action>, late: seq<Action>, w: nat, q: QTask) {
    exists t :: PassedThrough(job, early, late, t) && (
      NewestOwn(t, w, q) || OldestSeed(t, w, q) || (OldestOfPeer(t, w, q) && PastSeeds(job, early, late, w)))
  }

  lemma TakenWithin(job: Job, early: seq<Action>, mid: seq<Action>, late: seq<Action>, w: nat, q: QTask)
    requires early <= mid && Taken(job, mid, late, w, q)
    ensures Taken(job, early, late, w, q)
  {
    SawEarlier(job, early, mid, late);
    var t :| PassedThrough(job, mid, late, t) && (
      NewestOwn(t, w, q) || OldestSeed(t, w, q) || (OldestOfPeer(t, w, q) && PastSeeds(job, mid, late, w)));
    assert PassedThrough(job, early, late, t);
    if LostRace(mid, late, w) {
      StillLost(early, mid, late, late, w);
    }
  }

  /** Some peer's oldest task was `q`. */
  ghost predicate TakenFromPeer(job: Job, early: seq<Action>, late: seq<Action>, w: nat, q: QTask) {
    exists t :: PassedThrough(job, early, late, t) && OldestOfPeer(t, w, q)
  }

  lemma PeerWithin(job: Job, early: seq<Action>, mid: seq<Action>, late: seq<Action>, w: nat, q: QTask)
    requires early <= mid && TakenFromPeer(job, mid, late, w, q)
    ensures TakenFromPeer(job, early, late, w, q)
  {
    var t :| PassedThrough(job, mid, late, t) && OldestOfPeer(t, w, q);
    assert PassedThrough(job, early, late, t);
  }

  // ----- What the walk of one task does -----

  /** The entries the first `n` records of `t` contribute, in order. */
  ghost function KeptOf(job: Plan, t: Task, n: nat): seq<Entry> {
    if n == 0 then [] else KeptOf(job, t, n - 1) + KeptAt(job, t, n - 1)
  }

  function KeptAt(job: Plan, t: Task, i: nat): seq<Entry> {
    if ShownAt(job, t, i) then Kept(job, EntryAt(job, t, i)) else []
  }

  function Kept(job: Plan, e: Entry): seq<Entry> {
    if job.cfg.keep(e) then [e] else []
  }

  /** The children the first `n` records of `t` give rise to, in order. */
  ghost function ChildrenOf(job: Plan, t: Task, n: nat): seq<Task> {
    if n == 0 then [] else ChildrenOf(job, t, n - 1) + ChildrenAt(job, t, n - 1)
  }

  function ChildrenAt(job: Plan, t: Task, i: nat): seq<Task> {
    if EnqueuesAt(job, t, i) then [ChildAt(job, t, i)] else []
  }

  /** From `before` to `after` the walker accepted exactly `entries` and pushed exactly `tasks`. */
  predicate Did(before: Walker, after: Walker, entries: seq<Entry>, tasks: seq<Task>) {
    after.log == before.log + entries && after.made == before.made + tasks
  }

  lemma DidBoth(a: Walker, b: Walker, c: Walker, es: seq<Entry>, ts: seq<Task>, es': seq<Entry>, ts': seq<Task>)
    requires Did(a, b, es, ts) && Did(b, c, es', ts')
    ensures Did(a, c, es + es', ts + ts')
  {
  }

  lemma DidMore(a: Walker, b: Walker, c: Walker, es: seq<Entry>, es': seq<Entry>, ts: seq<Task>)
    requires Did(a, b, es, []) && Did(b, c, es', ts)
    ensures Did(a, c, es + es', ts)
  {
    assert a.made + [] == a.made;
  }

  lemma DidNothing(a: Walker, b: Walker)
    requires a.log == b.log && a.made == b.made
    ensures Did(a, b, [], [])
  {
  }

  /** The rounds walker `w` has completed: tasks processed, and nonzero looks at `pending`. */
  ghost function Turns(w: nat, acts: seq<Action>): nat {
    if acts == [] then 0
    else
      var last := acts[|acts| - 1];
      Turns(w, acts[..|acts| - 1]) + if last == Local(w, FetchSub) || last == Local(w, LoadPending) then 1 else 0
  }

  lemma {:induction false} TurnsGrow(w: nat, early: seq<Action>, late: seq<Action>)
    requires early <= late
    ensures Turns(w, early) <= Turns(w, late)
    decreases |late|
  {
    if |early| < |late| {
      TurnsGrow(w, early, late[..|late| - 1]);
    } else {
      assert early == late;
    }
  }

  /** No task is queued or running. */
  ghost predicate NoTasks(s: State) {
    s.injector == [] &&
    forall w | 0 <= w < |s.walkers| :: s.walkers[w].deque == [] && !Running(s.walkers[w].phase)
  }

  class Pool {
    const job: Job
    /** What the other threads try to do at each point where this one can be overtaken. */
    const others: nat -> seq<Action>
    /** Whether a try at a queue that may lose a race does. */
    const unlucky: nat -> bool
    var s: State
    var clock: nat
    ghost var past: seq<Action>

    /** Everything so far is a schedule of the machine, so every result about schedules applies. */
    ghost predicate Ok()
      reads this
    {
      Reached(job, past, s)
    }

    constructor (job: Job, others: nat -> seq<Action>, unlucky: nat -> bool)
      ensures Ok() && this.job == job && this.others == others && this.unlucky == unlucky
      ensures s == Init(job) && past == []
    {
      this.job := job;
      this.others := others;
      this.unlucky := unlucky;
      s := Init(job);
      clock := 0;
      past := [];
    }

    /** One atomic action, by anybody. */
    method Act(a: Action)
      requires Ok() && Enabled(job, s, a)
      modifies this
      ensures Ok() && s == Apply(job, old(s), a) && past == old(past) + [a]
    {
      ReachedNext(job, past, s, a);
      s := Apply(job, s, a);
      past := past + [a];
    }

    /** One atomic action of walker `w` itself. */
    method Move(w: nat, step: Step)
      requires Ok() && w < |s.walkers| && CanStep(job, ViewOf(s), s.walkers[w], step)
      modifies this
      ensures Ok() && |s.walkers| == |old(s).walkers| && past == old(past) + [Local(w, step)]
      ensures s.walkers[w] == StepOf(job, ViewOf(old(s)), old(s).walkers[w], step).k
      ensures old(s).quit || step.StoreQuit? ==> s.quit
    {
      Act(Local(w, step));
    }

    /** Whether a thread other than walker `w` performs `a`. */
    predicate Foreign(w: nat, a: Action) {
      match a
      case Local(v, _) => v != w
      case StealBatch(v, _) => v != w
      case StealPeer(v, _) => v != w
      case Pass(v, _) => v != w
      case Send(v) => v != w
      case HandOver(v) => v != w
      case _ => true
    }

    /** The others may have taken the oldest tasks of a walker, and touched nothing else of it. */
    ghost predicate Overtaken(before: Walker, after: Walker) {
      var n := |before.deque| - |after.deque|;
      && after.phase == before.phase && after.buf == before.buf
      && after.log == before.log && after.made == before.made
      && n >= 0 && after.deque == before.deque[n..]
    }

    lemma ForeignLeaves(w: nat, t: State, a: Action)
      requires Enabled(job, t, a) && Foreign(w, a) && w < |t.walkers|
      requires !(a.StealPeer? && a.v == w) && !a.WalkReturns?
      ensures |Apply(job, t, a).walkers| == |t.walkers| && Apply(job, t, a).walkers[w] == t.walkers[w]
    {
    }

    lemma ForeignOvertakes(w: nat, t: State, a: Action)
      requires Enabled(job, t, a) && Foreign(w, a) && w < |t.walkers|
      ensures |Apply(job, t, a).walkers| == |t.walkers|
      ensures Overtaken(t.walkers[w], Apply(job, t, a).walkers[w])
    {
      var k := t.walkers[w];
      if a.StealPeer? && a.v == w {
        assert Apply(job, t, a).walkers[w] == k.(deque := k.deque[1..]);
      } else if a.WalkReturns? {
        assert Apply(job, t, a).walkers[w] == k.(deque := []);
        assert k.deque[|k.deque|..] == [];
      } else {
        ForeignLeaves(w, t, a);
        assert k.deque[0..] == k.deque;
      }
    }

    lemma OvertakenTwice(a: Walker, b: Walker, c: Walker)
      requires Overtaken(a, b) && Overtaken(b, c)
      ensures Overtaken(a, c)
    {
      var n, m := |a.deque| - |b.deque|, |b.deque| - |c.deque|;
      assert a.deque[n..][m..] == a.deque[n + m..];
    }

    /** The other threads run for a while: any actions of theirs, in any order. */
    method Interfere(w: nat)
      requires Ok() && w < |s.walkers|
      modifies this
      ensures Ok() && |s.walkers| == |old(s).walkers| && old(past) <= past
      ensures Overtaken(old(s).walkers[w], s.walkers[w]) && old(s).moves <= s.moves
    {
      var acts := others(clock);
      clock := clock + 1;
      assert s.walkers[w].deque[0..] == s.walkers[w].deque;
      for i := 0 to |acts|
        invariant Ok() && |s.walkers| == |old(s).walkers| && old(past) <= past
        invariant Overtaken(old(s).walkers[w], s.walkers[w]) && old(s).moves <= s.moves
      {
        if Foreign(w, acts[i]) && Enabled(job, s, acts[i]) {
          ghost var t := s;
          ForeignOvertakes(w, t, acts[i]);
          MovesKept(job, t, acts[i]);
          Act(acts[i]);
          OvertakenTwice(old(s).walkers[w], t.walkers[w], s.walkers[w]);
        }
      }
    }

    /** Where a blocked send may leave a walker: sent, or refused by a channel closed at the cap. */
    ghost predicate SendOver(p: Phase, t: State, p': Phase)
      requires Blocked(p)
    {
      if p.Flushing? then p' == Exited
      else p' == Resume(job, p.q, p.spot) || (p' == Quitting(p.q, p.spot) && CapHit(job, t))
    }

    /** The walker kept its batch, its log and what it pushed. */
    predicate SameWork(before: Walker, after: Walker) {
      after.buf == before.buf && after.log == before.log && after.made == before.made
    }

    /** A send that need not wait: it fails on a closed channel, and succeeds on room or a waiting receiver. */
    method SendNow(w: nat)
      requires Ok() && w < |s.walkers| && Blocked(s.walkers[w].phase)
      requires s.out.Finished? || |s.chan| < Capacity(job) || Enabled(job, s, HandOver(w))
      modifies this
      ensures Ok() && |s.walkers| == |old(s).walkers| && old(past) <= past
      ensures SendOver(old(s).walkers[w].phase, s, s.walkers[w].phase)
      ensures SameWork(old(s).walkers[w], s.walkers[w])
    {
      if s.out.Finished? {
        ReachedInv(job, past, s);
        ClosedMeansCapped(job, s, w);
        Act(Local(w, SendFails));
      } else if |s.chan| < Capacity(job) {
        Act(Send(w));
      } else {
        Act(HandOver(w));
      }
    }

    /** One try at a blocked send; while the channel is full the output thread drains it a little. */
    method TrySend(w: nat) returns (done: bool)
      requires Ok() && w < |s.walkers| && Blocked(s.walkers[w].phase)
      modifies this
      ensures Ok() && |s.walkers| == |old(s).walkers| && old(past) <= past
      ensures done ==> SendOver(old(s).walkers[w].phase, s, s.walkers[w].phase)
      ensures !done ==> s.walkers[w].phase == old(s).walkers[w].phase && Drained(old(s), s)
      ensures SameWork(old(s).walkers[w], s.walkers[w])
    {
      done := s.out.Finished? || |s.chan| < Capacity(job) || (s.out.Waiting? && s.chan == []);
      if done {
        SendNow(w);
      } else {
        Act(Drain(s));
      }
    }

    /** Somebody took a step that is no idle spin. */
    ghost predicate Drained(s0: State, s1: State) {
      exists a :: Enabled(job, s0, a) && !Spins(s0, a) && s1 == Apply(job, s0, a)
    }

    /** Everything walker `w` accepted has left it, and none of it is lost unless the cap is written. */
    ghost predicate HandedOver(w: nat)
      requires w < |s.walkers|
      reads this
    {
      s.walkers[w].log == Of(w, Pipe(s)) && (s.lost != [] ==> CapHit(job, s))
    }

    lemma NothingHeld(w: nat)
      requires Ok() && w < |s.walkers| && s.walkers[w].buf == [] && !Blocked(s.walkers[w].phase)
      ensures HandedOver(w)
    {
      ReachedInv(job, past, s);
      assert FlowAt(s, w) && Held(s.walkers[w]) == [];
    }

    lemma DrainingEnds(before: seq<Action>, s0: State, between: seq<Action>, s1: State, s2: State)
      requires Reached(job, before, s0) && Reached(job, between, s1) && before <= between && Drained(s1, s2)
      ensures 0 <= Measure(Expected(job, None), s2) < Measure(Expected(job, None), s0)
    {
      var a :| Enabled(job, s1, a) && !Spins(s1, a) && s2 == Apply(job, s1, a);
      LaterIsLess(job, before, s0, between, s1);
      ReachedInv(job, between, s1);
      MeasureFalls(job, s1, a);
      MeasureNonNegative(Expected(job, None), s2);
    }

    /** Waiting for room while everybody else goes on, until the send succeeds or fails. */
    method AwaitSend(w: nat)
      requires Ok() && w < |s.walkers| && Blocked(s.walkers[w].phase)
      modifies this
      ensures Ok() && |s.walkers| == |old(s).walkers| && old(past) <= past
      ensures SendOver(old(s).walkers[w].phase, s, s.walkers[w].phase)
      ensures SameWork(old(s).walkers[w], s.walkers[w])
    {
      ghost var p := s.walkers[w].phase;
      var done := false;
      while !done
        invariant Ok() && |s.walkers| == |old(s).walkers| && old(past) <= past
        invariant if done then SendOver(p, s, s.walkers[w].phase) else s.walkers[w].phase == p
        invariant SameWork(old(s).walkers[w], s.walkers[w])
        decreases !done, Measure(Expected(job, None), s)
      {
        ghost var before, s0 := past, s;
        Interfere(w);
        ghost var between, s1 := past, s;
        done := TrySend(w);
        if !done {
          DrainingEnds(before, s0, between, s1, s);
        }
      }
    }

    /**
     * A blocked send. It fails only once the channel is closed, that is, after the last result
     * was written; otherwise the batch has reached the channel, and with it everything the walker
     * accepted so far.
     */
    method FinishSend(w: nat)
      requires Ok() && w < |s.walkers| && Blocked(s.walkers[w].phase)
      modifies this
      ensures Ok() && |s.walkers| == |old(s).walkers| && old(past) <= past
      ensures SendOver(old(s).walkers[w].phase, s, s.walkers[w].phase)
      ensures SameWork(old(s).walkers[w], s.walkers[w]) && HandedOver(w)
    {
      ReachedShape(job, past, s, w);
      AwaitSend(w);
      NothingHeld(w);
    }

    /** On to the next queue: there is nothing to take here, or the race for it is lost. */
    method PassOn(w: nat, lost: bool)
      requires Ok() && w < |s.walkers| && (s.walkers[w].phase.Draw? || s.walkers[w].phase.Poll?)
      requires if lost then Racing(s, s.walkers[w].phase) else !Tempting(s, w)
      modifies this
      ensures Ok() && |s.walkers| == |old(s).walkers| && past == old(past) + [Pass(w, lost)]
      ensures s.walkers[w] == old(s).walkers[w].(phase := Onward(old(s), old(s).walkers[w].phase, lost))
      ensures s.walkers[w].deque == [] && s.moves == old(s).moves
    {
      ReachedShape(job, past, s, w);
      Act(Pass(w, lost));
    }

    /** A try at peer `v`: taking its oldest task, finding it empty, or losing the race. */
    method RobPeer(w: nat, v: nat) returns (found: bool, raced: bool)
      requires Ok() && w < |s.walkers| && v < |s.walkers| && s.walkers[w].phase.Poll? && s.walkers[w].phase.v == v
      modifies this
      ensures Ok() && |s.walkers| == |old(s).walkers| && old(past) <= past
      ensures if found then s.walkers[w].phase.Begin?
              else s.walkers[w].phase == Poll(v + 1, s.moves, old(s).walkers[w].phase.lost || raced)
      ensures found ==> TakenFromPeer(job, old(past), past, w, s.walkers[w].phase.q)
      ensures !found && !raced && v != w ==> SawIdle(job, old(past), past, v)
      ensures old(s).moves <= s.moves && (raced ==> old(s).walkers[w].phase.at < s.moves)
      ensures SameWork(old(s).walkers[w], s.walkers[w])
    {
      Interfere(w);
      ghost var before, t := past, s;
      PassesNow(job, old(past), past, s);
      found := false;
      raced := Racing(s, s.walkers[w].phase) && unlucky(clock);
      if raced {
        PassOn(w, true);
      } else if v != w && s.walkers[v].deque != [] {
        found := true;
        ReachedShape(job, past, s, w);
        Act(StealPeer(w, v));
        assert OldestOfPeer(t, w, t.walkers[v].deque[0]);
        StillPassed(job, old(past), before, past, t);
      } else {
        PassOn(w, false);
        StillSaw(job, old(past), before, past);
      }
    }

    /** What a round of tries at the peers that found nothing leaves behind. */
    ghost predicate AfterPeers(w: nat, before: State, retry: bool)
      requires w < |s.walkers| && w < |before.walkers| && before.walkers[w].phase.Poll?
      reads this
    {
      if retry then s.walkers[w].phase == Draw(s.moves) && (before.walkers[w].phase.lost || before.moves < s.moves)
      else s.walkers[w].phase.Miss? && s.walkers[w].deque == []
    }

    /** Robbing the first peer found with a task; `retry` says that a race was lost on the way. */
    method FindPeer(w: nat) returns (found: bool, retry: bool)
      requires Ok() && w < |s.walkers|
      requires s.walkers[w].phase.Poll? && s.walkers[w].phase.v == 0 && s.walkers[w].phase.at == s.moves
      modifies this
      ensures Ok() && |s.walkers| == |old(s).walkers| && old(past) <= past
      ensures if found then s.walkers[w].phase.Begin? else AfterPeers(w, old(s), retry)
      ensures !found && old(s).walkers[w].phase.lost ==> retry
      ensures found ==> !retry && TakenFromPeer(job, old(past), past, w, s.walkers[w].phase.q)
      ensures !found && !retry ==> SawPeersIdle(job, old(past), past, w, |s.walkers|)
      ensures old(s).moves <= s.moves && SameWork(old(s).walkers[w], s.walkers[w])
    {
      var n := |s.walkers|;
      retry := s.walkers[w].phase.lost;
      for v := 0 to n
        invariant Ok() && |s.walkers| == n && old(past) <= past
        invariant s.walkers[w].phase.Poll? && s.walkers[w].phase.v == v && s.walkers[w].phase.lost == retry
        invariant old(s).moves <= s.walkers[w].phase.at <= s.moves
        invariant old(s).walkers[w].phase.lost ==> retry
        invariant retry ==> old(s).walkers[w].phase.lost || old(s).moves < s.moves
        invariant !retry ==> SawPeersIdle(job, old(past), past, w, v)
        invariant SameWork(old(s).walkers[w], s.walkers[w])
      {
        ghost var before := past;
        var raced;
        found, raced := RobPeer(w, v);
        if found {
          PeerWithin(job, old(past), before, past, w, s.walkers[w].phase.q);
          return true, false;
        }
        retry := retry || raced;
        if !retry {
          OnePeerMore(job, old(past), before, past, w, v);
        }
      }
      ghost var before := past;
      PassOn(w, false);
      if !retry {
        SawPeersWithin(job, old(past), old(past), before, past, w, n);
      }
      found := false;
    }

    /** The injector's oldest task, with some of the next ones. */
    method TakeSeeds(w: nat)
      requires Ok() && w < |s.walkers| && s.walkers[w].phase.Draw? && s.injector != []
      modifies this
      ensures Ok() && |s.walkers| == |old(s).walkers| && old(past) <= past
      ensures s.walkers[w].phase == Begin(old(s).injector[0]) && old(s).walkers[w].deque == []
      ensures old(s).moves <= s.moves
      ensures SameWork(old(s).walkers[w], s.walkers[w])
    {
      ReachedShape(job, past, s, w);
      var n := |s.injector| / 2;
      Act(StealBatch(w, s.injector[1..n + 1]));
    }

    /** A try at the injector. */
    method TrySeeds(w: nat) returns (found: bool, raced: bool)
      requires Ok() && w < |s.walkers| && s.walkers[w].phase == Draw(s.moves)
      modifies this
      ensures Ok() && |s.walkers| == |old(s).walkers| && old(past) <= past
      ensures if found then s.walkers[w].phase.Begin? else s.walkers[w].phase == Poll(0, s.moves, raced)
      ensures found ==> Taken(job, old(past), past, w, s.walkers[w].phase.q)
      ensures !found && !raced ==> SawNoSeeds(job, old(past), past)
      ensures raced ==> old(s).moves < s.moves && LostRace(old(past), past, w)
      ensures old(s).moves <= s.moves
      ensures SameWork(old(s).walkers[w], s.walkers[w])
    {
      Interfere(w);
      ghost var before, t := past, s;
      PassesNow(job, old(past), past, s);
      found := false;
      raced := Racing(s, s.walkers[w].phase) && unlucky(clock);
      if raced {
        PassOn(w, true);
        assert past[|before|] == Pass(w, true);
      } else if s.injector != [] {
        found := true;
        TakeSeeds(w);
        assert OldestSeed(t, w, s.walkers[w].phase.q);
        StillPassed(job, old(past), before, past, t);
      } else {
        PassOn(w, false);
        StillSaw(job, old(past), before, past);
      }
    }

    /** One round of stealing: from the injector, else from a peer; `retry` after a lost race. */
    method Attempt(w: nat) returns (found: bool, retry: bool)
      requires Ok() && w < |s.walkers| && s.walkers[w].phase == Draw(s.moves)
      modifies this
      ensures Ok() && |s.walkers| == |old(s).walkers| && old(past) <= past
      ensures if found then s.walkers[w].phase.Begin?
              else if retry then s.walkers[w].phase == Draw(s.moves) && old(s).moves < s.moves
              else s.walkers[w].phase.Miss? && s.walkers[w].deque == []
      ensures found ==> !retry && Taken(job, old(past), past, w, s.walkers[w].phase.q)
      ensures !found && !retry ==> SawNoSeeds(job, old(past), past)
      ensures !found && !retry ==> SawPeersIdle(job, old(past), past, w, |s.walkers|)
      ensures SameWork(old(s).walkers[w], s.walkers[w])
    {
      var raced;
      found, raced := TrySeeds(w);
      retry := false;
      if !found {
        ghost var first := past;
        found, retry := FindPeer(w);
        StillSaw(job, old(past), first, past);
        if raced {
          StillLost(old(past), old(past), first, past, w);
        }
        if found {
          PeerWithin(job, old(past), first, past, w, s.walkers[w].phase.q);
        } else if !retry {
          SawPeersWithin(job, old(past), first, past, past, w, |s.walkers|);
        }
      }
    }

    /** Stealing, with an empty deque: rounds until one loses no race. Every lost race is others' progress. */
    method Steal(w: nat) returns (found: bool)
      requires Ok() && w < |s.walkers| && s.walkers[w].phase == Draw(s.moves)
      modifies this
      ensures Ok() && |s.walkers| == |old(s).walkers| && old(past) <= past
      ensures if found then s.walkers[w].phase.Begin? else s.walkers[w].phase.Miss? && s.walkers[w].deque == []
      ensures found ==> Taken(job, old(past), past, w, s.walkers[w].phase.q)
      ensures !found ==> SawNoSeeds(job, old(past), past)
      ensures !found ==> SawPeersIdle(job, old(past), past, w, |s.walkers|)
      ensures SameWork(old(s).walkers[w], s.walkers[w])
    {
      var retry := true;
      found := false;
      while retry
        invariant Ok() && |s.walkers| == |old(s).walkers| && old(past) <= past
        invariant retry ==> !found && s.walkers[w].phase == Draw(s.moves)
        invariant found ==> s.walkers[w].phase.Begin? && Taken(job, old(past), past, w, s.walkers[w].phase.q)
        invariant !found && !retry ==> s.walkers[w].phase.Miss? && s.walkers[w].deque == []
        invariant !found && !retry ==> SawNoSeeds(job, old(past), past)
        invariant !found && !retry ==> SawPeersIdle(job, old(past), past, w, |s.walkers|)
        invariant SameWork(old(s).walkers[w], s.walkers[w])
        decreases retry, Measure(Expected(job, None), s)
      {
        ghost var first, s0 := past, s;
        found, retry := Attempt(w);
        if found {
          TakenWithin(job, old(past), first, past, w, s.walkers[w].phase.q);
        } else if retry {
          MovedIsLess(job, first, s0, past, s);
        } else {
          SawEarlier(job, old(past), first, past);
          SawPeersWithin(job, old(past), first, past, past, w, |s.walkers|);
        }
      }
    }

    /** The own deque's turn. */
    method TryOwn(w: nat) returns (found: bool)
      requires Ok() && w < |s.walkers| && s.walkers[w].phase.Seek?
      modifies this
      ensures Ok() && |s.walkers| == |old(s).walkers| && old(past) <= past
      ensures if found then s.walkers[w].phase.Begin? else s.walkers[w].phase == Draw(s.moves)
      ensures found ==> Taken(job, old(past), past, w, s.walkers[w].phase.q)
      ensures SameWork(old(s).walkers[w], s.walkers[w])
    {
      Interfere(w);
      ghost var before, t := past, s;
      PassesNow(job, old(past), past, s);
      found := s.walkers[w].deque != [];
      if found {
        Move(w, PopOwn);
        assert NewestOwn(t, w, s.walkers[w].phase.q);
        StillPassed(job, old(past), before, past, t);
      } else {
        Act(Local(w, OwnEmpty));
      }
    }

    /**
     * find_task: the newest own task, else the injector's oldest with a batch, else a peer's
     * oldest. It comes back empty-handed only after finding every one of these queues empty.
     */
    method FindTask(w: nat) returns (found: bool)
      requires Ok() && w < |s.walkers| && s.walkers[w].phase.Seek?
      modifies this
      ensures Ok() && |s.walkers| == |old(s).walkers| && old(past) <= past
      ensures if found then s.walkers[w].phase.Begin? else s.walkers[w].phase.Miss? && s.walkers[w].deque == []
      ensures found ==> Taken(job, old(past), past, w, s.walkers[w].phase.q)
      ensures !found ==> SawNoSeeds(job, old(past), past)
      ensures !found ==> SawPeersIdle(job, old(past), past, w, |s.walkers|)
      ensures SameWork(old(s).walkers[w], s.walkers[w])
    {
      found := TryOwn(w);
      if !found {
        ghost var first := past;
        found := Steal(w);
        if found {
          TakenWithin(job, old(past), first, past, w, s.walkers[w].phase.q);
        } else {
          SawEarlier(job, old(past), first, past);
          SawPeersWithin(job, old(past), first, past, past, w, |s.walkers|);
        }
      }
    }

    /** What a visitor call may leave a walker at: going on, told to quit, or sending a full batch. */
    predicate Visited(p: Phase, q: QTask, spot: Spot) {
      p == Resume(job, q, spot) || p == Quitting(q, spot) || (p.Sending? && p.q == q && p.spot == spot)
    }

    lemma VisitPhase(shutdown: bool, k: Walker, q: QTask, spot: Spot, e: Entry)
      ensures var k' := Visit(job, shutdown, k, q, spot, e);
              Visited(k'.phase, q, spot) && (k'.phase.Quitting? || Did(k, k', Kept(job, e), []))
    {
    }

    lemma RootPhase(v: View, k: Walker)
      requires k.phase.Begin?
      ensures var q, k' := k.phase.q, StepOf(job, v, k, Step.Process).k;
              && (if q.parent.None? then Visited(k'.phase, q, AtRoot) else k'.phase == Gate(q))
              && (k'.phase.Quitting? || Did(k, k', RootKept(q), []))
    {
      VisitPhase(v.shutdown, k, k.phase.q, AtRoot, RootEntry(k.phase.q.task));
    }

    /** What a task shows of itself: only a root does. */
    function RootKept(q: QTask): seq<Entry> {
      if q.parent.None? then Kept(job, RootEntry(q.task)) else []
    }

    lemma RecordPhase(v: View, k: Walker, q: QTask, fd: nat, i: nat)
      requires k.phase == Reading(q, fd, i)
      ensures var k' := StepOf(job, v, k, NextRecord).k;
              && (if ShownAt(job, q.task, i) then Visited(k'.phase, q, AtRecord(fd, i))
                  else k'.phase == if i < |Stream(job, q.task)| then Reading(q, fd, i + 1) else Done(q))
              && (k'.phase.Quitting? || Did(k, k', KeptAt(job, q.task, i), []))
    {
      if ShownAt(job, q.task, i) {
        VisitPhase(v.shutdown, k, q, AtRecord(fd, i), EntryAt(job, q.task, i));
      }
    }

    /** What the visitor left behind: a full batch is sent, on Quit the flag is stored. */
    method AfterVisit(w: nat, q: QTask, spot: Spot) returns (go: bool)
      requires Ok() && w < |s.walkers| && Visited(s.walkers[w].phase, q, spot)
      modifies this
      ensures Ok() && |s.walkers| == |old(s).walkers| && old(past) <= past
      ensures s.walkers[w].phase == if go then Resume(job, q, spot) else Done(q)
      ensures go ==> !old(s).walkers[w].phase.Quitting?
      ensures !go ==> s.quit
      ensures SameWork(old(s).walkers[w], s.walkers[w])
    {
      if s.walkers[w].phase.Sending? {
        FinishSend(w);
      }
      go := !s.walkers[w].phase.Quitting?;
      if !go {
        Interfere(w);
        Move(w, StoreQuit);
      }
    }

    /** The visitor call of a root; any other task was shown by its parent. */
    method ShowRoot(w: nat, q: QTask)
      requires Ok() && w < |s.walkers| && s.walkers[w].phase == Begin(q)
      modifies this
      ensures Ok() && |s.walkers| == |old(s).walkers| && old(past) <= past
      ensures var p := s.walkers[w].phase; if q.parent.None? then Visited(p, q, AtRoot) else p == Gate(q)
      ensures s.walkers[w].phase.Quitting? || Did(old(s).walkers[w], s.walkers[w], RootKept(q), [])
    {
      Interfere(w);
      RootPhase(ViewOf(s), s.walkers[w]);
      Move(w, Step.Process);
    }

    /** `count` records of the task were read to their end. */
    ghost predicate ReadThrough(before: Walker, after: Walker, t: Task, count: nat) {
      Did(before, after, KeptOf(job, t, count), ChildrenOf(job, t, count))
    }

    /** A root's own entry, with what the visitor leaves to be done; false if told to stop. */
    method ShowSelf(w: nat, q: QTask) returns (go: bool)
      requires Ok() && w < |s.walkers| && s.walkers[w].phase == Begin(q)
      modifies this
      ensures Ok() && |s.walkers| == |old(s).walkers| && old(past) <= past
      ensures s.walkers[w].phase == if go then Gate(q) else Done(q)
      ensures if go then Did(old(s).walkers[w], s.walkers[w], RootKept(q), []) else s.quit
    {
      ShowRoot(w, q);
      go := true;
      if q.parent.None? {
        go := AfterVisit(w, q, AtRoot);
      }
    }

    lemma RootThenRecords(a: Walker, b: Walker, c: Walker, q: QTask, n: nat)
      requires Did(a, b, RootKept(q), []) && ReadThrough(b, c, q.task, n)
      ensures Did(a, c, RootKept(q) + KeptOf(job, q.task, n), ChildrenOf(job, q.task, n))
    {
      DidMore(a, b, c, RootKept(q), KeptOf(job, q.task, n), ChildrenOf(job, q.task, n));
    }

    /**
     * process: a root shows itself first; then the directory is descended into. Unless the walk
     * is told to stop, exactly the kept entries of the directory's stream are accepted and exactly
     * its children are pushed, all in order; nothing of it if a gate keeps the directory unread.
     */
    method Process(w: nat)
      requires Ok() && w < |s.walkers| && s.walkers[w].phase.Begin?
      modifies this
      ensures Ok() && |s.walkers| == |old(s).walkers| && old(past) <= past
      ensures s.walkers[w].phase == Done(old(s).walkers[w].phase.q)
      ensures var q := old(s).walkers[w].phase.q;
              var n := |Stream(job, q.task)|;
              s.quit || Did(old(s).walkers[w], s.walkers[w],
                            RootKept(q) + KeptOf(job, q.task, n), ChildrenOf(job, q.task, n))
    {
      var q := s.walkers[w].phase.q;
      var go := ShowSelf(w, q);
      if go {
        ghost var k := s.walkers[w];
        Descend(w, q);
        if !s.quit {
          RootThenRecords(old(s).walkers[w], k, s.walkers[w], q, |Stream(job, q.task)|);
        }
      }
    }

    /** descend: the depth limit and the limiter, then the directory itself. */
    method Descend(w: nat, q: QTask)
      requires Ok() && w < |s.walkers| && s.walkers[w].phase == Gate(q)
      modifies this
      ensures Ok() && |s.walkers| == |old(s).walkers| && old(past) <= past
      ensures s.walkers[w].phase == Done(q)
      ensures s.quit || ReadThrough(old(s).walkers[w], s.walkers[w], q.task, |Stream(job, q.task)|)
      ensures Opened(job, q.task).None? ==> SameWork(old(s).walkers[w], s.walkers[w])
    {
      var through := PassGates(w, q);
      if through {
        ReadDirectory(w, q);
      }
    }

    /** The depth limit and the limiter; false if the directory is too deep or the walk is stopping. */
    method PassGates(w: nat, q: QTask) returns (through: bool)
      requires Ok() && w < |s.walkers| && s.walkers[w].phase == Gate(q)
      modifies this
      ensures Ok() && |s.walkers| == |old(s).walkers| && old(past) <= past
      ensures s.walkers[w].phase == if through then Opening(q) else Done(q)
      ensures through ==> job.cfg.maxDepth.Some? ==> q.task.depth < job.cfg.maxDepth.value
      ensures !through ==> s.quit || (job.cfg.maxDepth.Some? && q.task.depth >= job.cfg.maxDepth.value)
      ensures SameWork(old(s).walkers[w], s.walkers[w])
    {
      Interfere(w);
      Move(w, CheckDepth);
      if DepthReached(job, q.task.depth) {
        return false;
      }
      if job.cfg.limited {
        Interfere(w);
        if s.quit {
          Move(w, Refused);
          return false;
        }
        Move(w, Token);
      }
      return true;
    }

    /** The open with its checks, then the records. */
    method ReadDirectory(w: nat, q: QTask)
      requires Ok() && w < |s.walkers| && s.walkers[w].phase == Opening(q)
      requires job.cfg.maxDepth.Some? ==> q.task.depth < job.cfg.maxDepth.value
      modifies this
      ensures Ok() && |s.walkers| == |old(s).walkers| && old(past) <= past
      ensures s.walkers[w].phase == Done(q)
      ensures s.quit || ReadThrough(old(s).walkers[w], s.walkers[w], q.task, |Stream(job, q.task)|)
      ensures Entered(job, q.task).None? ==> SameWork(old(s).walkers[w], s.walkers[w])
    {
      Interfere(w);
      var fd := |s.fds|;
      Move(w, Open);
      if Entered(job, q.task).Some? {
        ReadRecords(w, q, fd);
      }
    }

    /** The entry loop, which Quit stops early. */
    method ReadRecords(w: nat, q: QTask, fd: nat)
      requires Ok() && w < |s.walkers| && s.walkers[w].phase == Reading(q, fd, 0)
      modifies this
      ensures Ok() && |s.walkers| == |old(s).walkers| && old(past) <= past
      ensures s.walkers[w].phase == Done(q)
      ensures s.quit || ReadThrough(old(s).walkers[w], s.walkers[w], q.task, |Stream(job, q.task)|)
    {
      var n := |Stream(job, q.task)|;
      for i := 0 to n
        invariant Ok() && |s.walkers| == |old(s).walkers| && old(past) <= past
        invariant s.walkers[w].phase == Reading(q, fd, i)
        invariant ReadThrough(old(s).walkers[w], s.walkers[w], q.task, i)
      {
        ghost var k := s.walkers[w];
        var go := ReadRecord(w, q, fd, i);
        if !go {
          return;
        }
        OneRecordMore(old(s).walkers[w], k, s.walkers[w], q.task, i);
      }
      EndRecords(w, q, fd);
    }

    lemma OneRecordMore(a: Walker, b: Walker, c: Walker, t: Task, i: nat)
      requires ReadThrough(a, b, t, i) && Did(b, c, KeptAt(job, t, i), ChildrenAt(job, t, i))
      ensures ReadThrough(a, c, t, i + 1)
    {
      DidBoth(a, b, c, KeptOf(job, t, i), ChildrenOf(job, t, i), KeptAt(job, t, i), ChildrenAt(job, t, i));
    }

    /** The end of the stream. */
    method EndRecords(w: nat, q: QTask, fd: nat)
      requires Ok() && w < |s.walkers| && s.walkers[w].phase == Reading(q, fd, |Stream(job, q.task)|)
      modifies this
      ensures Ok() && |s.walkers| == |old(s).walkers| && old(past) <= past
      ensures s.walkers[w].phase == Done(q) && SameWork(old(s).walkers[w], s.walkers[w])
    {
      Interfere(w);
      RecordPhase(ViewOf(s), s.walkers[w], q, fd, |Stream(job, q.task)|);
      Move(w, NextRecord);
    }

    /** Reading one record, and the visitor call unless it is skipped. */
    method ShowRecord(w: nat, q: QTask, fd: nat, i: nat)
      requires Ok() && w < |s.walkers| && s.walkers[w].phase == Reading(q, fd, i) && i < |Stream(job, q.task)|
      modifies this
      ensures Ok() && |s.walkers| == |old(s).walkers| && old(past) <= past
      ensures var p := s.walkers[w].phase;
              if ShownAt(job, q.task, i) then Visited(p, q, AtRecord(fd, i)) else p == Reading(q, fd, i + 1)
      ensures s.walkers[w].phase.Quitting? || Did(old(s).walkers[w], s.walkers[w], KeptAt(job, q.task, i), [])
    {
      Interfere(w);
      RecordPhase(ViewOf(s), s.walkers[w], q, fd, i);
      Move(w, NextRecord);
    }

    /** One record: skipped, or shown and, for a directory to descend into, counted and then pushed. */
    method ReadRecord(w: nat, q: QTask, fd: nat, i: nat) returns (go: bool)
      requires Ok() && w < |s.walkers| && s.walkers[w].phase == Reading(q, fd, i) && i < |Stream(job, q.task)|
      modifies this
      ensures Ok() && |s.walkers| == |old(s).walkers| && old(past) <= past
      ensures s.walkers[w].phase == if go then Reading(q, fd, i + 1) else Done(q)
      ensures !go ==> s.quit
      ensures go ==> Did(old(s).walkers[w], s.walkers[w], KeptAt(job, q.task, i), ChildrenAt(job, q.task, i))
    {
      ShowRecord(w, q, fd, i);
      ghost var k := s.walkers[w];
      go := true;
      if ShownAt(job, q.task, i) {
        go := AfterVisit(w, q, AtRecord(fd, i));
      }
      if go {
        MaybeQueue(w, q, fd, i);
        DidMore(old(s).walkers[w], k, s.walkers[w], KeptAt(job, q.task, i), [], ChildrenAt(job, q.task, i));
        assert KeptAt(job, q.task, i) + [] == KeptAt(job, q.task, i);
      }
    }

    /** The rest of a record once it was shown or skipped. */
    method MaybeQueue(w: nat, q: QTask, fd: nat, i: nat)
      requires Ok() && w < |s.walkers|
      requires s.walkers[w].phase == if EnqueuesAt(job, q.task, i) then Enqueue(q, fd, i) else Reading(q, fd, i + 1)
      modifies this
      ensures Ok() && |s.walkers| == |old(s).walkers| && old(past) <= past
      ensures s.walkers[w].phase == Reading(q, fd, i + 1)
      ensures Did(old(s).walkers[w], s.walkers[w], [], ChildrenAt(job, q.task, i))
    {
      if EnqueuesAt(job, q.task, i) {
        QueueChild(w, q, fd, i);
      } else {
        DidNothing(s.walkers[w], s.walkers[w]);
      }
    }

    /** `pending` is incremented before the child becomes visible to thieves. */
    method QueueChild(w: nat, q: QTask, fd: nat, i: nat)
      requires Ok() && w < |s.walkers| && s.walkers[w].phase == Enqueue(q, fd, i) && EnqueuesAt(job, q.task, i)
      modifies this
      ensures Ok() && |s.walkers| == |old(s).walkers| && old(past) <= past
      ensures s.walkers[w].phase == Reading(q, fd, i + 1)
      ensures s.walkers[w].deque != [] && s.walkers[w].deque[|s.walkers[w].deque| - 1]
                == QTask(ChildAt(job, q.task, i), Some(fd))
      ensures Did(old(s).walkers[w], s.walkers[w], [], [ChildAt(job, q.task, i)])
      ensures CountedThenPushed(w, old(past), past)
    {
      Interfere(w);
      ghost var before := past;
      Move(w, FetchAdd);
      assert past[|before|] == Local(w, FetchAdd);
      PushCounted(w, q, fd, i);
      assert past[|before|] == Local(w, FetchAdd);
    }

    /** In between, the walker's increment comes first and its push last. */
    ghost predicate CountedThenPushed(w: nat, early: seq<Action>, late: seq<Action>) {
      late != [] && late[|late| - 1] == Local(w, PushChild) &&
      exists k :: |early| <= k < |late| - 1 && late[k] == Local(w, FetchAdd)
    }

    method PushCounted(w: nat, q: QTask, fd: nat, i: nat)
      requires Ok() && w < |s.walkers| && s.walkers[w].phase == Push(q, fd, i) && EnqueuesAt(job, q.task, i)
      modifies this
      ensures Ok() && |s.walkers| == |old(s).walkers| && old(past) <= past
      ensures s.walkers[w].phase == Reading(q, fd, i + 1)
      ensures s.walkers[w].deque != [] && s.walkers[w].deque[|s.walkers[w].deque| - 1]
                == QTask(ChildAt(job, q.task, i), Some(fd))
      ensures Did(old(s).walkers[w], s.walkers[w], [], [ChildAt(job, q.task, i)])
      ensures |past| > |old(past)| && past[|past| - 1] == Local(w, PushChild)
    {
      Interfere(w);
      ghost var k := s.walkers[w];
      Move(w, PushChild);
      assert s.walkers[w].deque == k.deque + [QTask(ChildAt(job, q.task, i), Some(fd))];
    }

    /** Dropping the visitor sends the partial batch, if any. */
    method DropVisitor(w: nat)
      requires Ok() && w < |s.walkers| && Gone(s.walkers[w].phase)
      modifies this
      ensures Ok() && |s.walkers| == |old(s).walkers| && old(past) <= past
      ensures s.walkers[w].phase.Exited? && s.walkers[w].log == old(s).walkers[w].log
    {
      if s.walkers[w].phase.Flushing? {
        FinishSend(w);
      }
    }

    lemma StoppedForCause(w: nat)
      requires Ok() && w < |s.walkers| && s.walkers[w].phase.Exited?
      ensures s.quit || (s.pending == 0 && NoTasks(s))
      ensures HandedOver(w)
    {
      ReachedInv(job, past, s);
      ReachedShape(job, past, s, w);
      NothingHeld(w);
      assert Gone(s.walkers[w].phase);
      if !s.quit {
        ZeroMeansNoWork(s);
      }
    }

    /** Counting a processed task off and, later, dropping it. */
    method CountOff(w: nat)
      requires Ok() && w < |s.walkers| && s.walkers[w].phase.Done?
      modifies this
      ensures Ok() && |s.walkers| == |old(s).walkers| && old(past) <= past
      ensures s.walkers[w].phase.Top? && Turns(w, past) > Turns(w, old(past))
    {
      Interfere(w);
      ghost var before := past;
      Move(w, FetchSub);
      assert past[..|past| - 1] == before;
      TurnsGrow(w, old(past), before);
      ghost var counted := past;
      Interfere(w);
      Move(w, DropTask);
      TurnsGrow(w, counted, past);
    }

    /** Looking whether anything is pending, with no task found. */
    method LookPending(w: nat) returns (none: bool)
      requires Ok() && w < |s.walkers| && s.walkers[w].phase.Miss?
      modifies this
      ensures Ok() && |s.walkers| == |old(s).walkers| && old(past) <= past
      ensures if none then Gone(s.walkers[w].phase) else s.walkers[w].phase.Top?
      ensures Turns(w, past) > Turns(w, old(past))
    {
      Interfere(w);
      ghost var before := past;
      none := s.pending == 0;
      Move(w, LoadPending);
      assert past[..|past| - 1] == before;
      TurnsGrow(w, old(past), before);
    }

    /** Processing a task, if one is found; `none` says that nothing is pending. */
    method Work(w: nat) returns (none: bool)
      requires Ok() && w < |s.walkers| && s.walkers[w].phase.Seek?
      modifies this
      ensures Ok() && |s.walkers| == |old(s).walkers| && old(past) <= past
      ensures if none then Gone(s.walkers[w].phase) else s.walkers[w].phase.Top?
      ensures Turns(w, past) > Turns(w, old(past))
    {
      var found := FindTask(w);
      if found {
        Process(w);
        TurnsGrow(w, old(past), past);
        CountOff(w);
        none := false;
      } else {
        TurnsGrow(w, old(past), past);
        none := LookPending(w);
      }
    }

    /** One round: leave on quit, else look for work. */
    method Round(w: nat) returns (returned: bool)
      requires Ok() && w < |s.walkers| && s.walkers[w].phase.Top?
      modifies this
      ensures Ok() && |s.walkers| == |old(s).walkers| && old(past) <= past
      ensures if returned then s.walkers[w].phase.Exited? else s.walkers[w].phase.Top?
      ensures returned ==> (s.quit || (s.pending == 0 && NoTasks(s))) && HandedOver(w)
      ensures !returned ==> Turns(w, past) > Turns(w, old(past))
    {
      Interfere(w);
      returned := s.quit;
      Move(w, LoadQuit);
      if !returned {
        TurnsGrow(w, old(past), past);
        returned := Work(w);
      }
      if returned {
        DropVisitor(w);
        StoppedForCause(w);
      }
    }

    /**
     * run_worker for at most `rounds` rounds of its loop, against arbitrary interference. It
     * returns only on quit or when nothing is pending; then no task is left anywhere. Otherwise
     * it completed every one of the rounds.
     */
    method RunWorker(w: nat, rounds: nat) returns (returned: bool)
      requires Ok() && w < |s.walkers| && s.walkers[w].phase.Top?
      modifies this
      ensures Ok() && |s.walkers| == |old(s).walkers| && old(past) <= past
      ensures if returned then s.walkers[w].phase.Exited? else s.walkers[w].phase.Top?
      ensures returned ==> (s.quit || (s.pending == 0 && NoTasks(s))) && HandedOver(w)
      ensures !returned ==> Turns(w, past) >= Turns(w, old(past)) + rounds
    {
      for round := 0 to rounds
        invariant Ok() && |s.walkers| == |old(s).walkers| && old(past) <= past
        invariant s.walkers[w].phase.Top?
        invariant Turns(w, past) >= Turns(w, old(past)) + round
      {
        returned := Round(w);
        if returned {
          return;
        }
      }
      return false;
    }
  }
}
