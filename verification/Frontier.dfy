/**
 * How many directory descriptors the walk pins. Popping the newest task, stealing the oldest and
 * stealing only with an empty deque keep every walker's tasks stacked by depth, one parent a level.
 */
module Frontier {
  import opened FileSystem
  import opened WalkSpec
  import opened Machine
  import opened Shape
  import opened Accounting
  import opened Flow
  import opened Invariant
  import opened EndToEnd
  import opened Routes

  // ----- The structure of a walker's tasks -----

  /** Depths never fall from oldest to newest, and tasks of equal depth >= 1 share their parent. */
  ghost predicate Stacked(qs: seq<QTask>) {
    forall i, j | 0 <= i < j < |qs| :: Stacks(qs[i], qs[j])
  }

  predicate Stacks(older: QTask, newer: QTask) {
    && older.task.depth <= newer.task.depth
    && (older.task.depth == newer.task.depth >= 1 ==> older.parent == newer.parent)
  }

  /** The descriptor of the directory being read, from its open until its entry loop is left. */
  function ReadingFd(p: Phase): Option<nat> {
    match p
    case Reading(_, fd, _) => Some(fd)
    case Enqueue(_, fd, _) => Some(fd)
    case Push(_, fd, _) => Some(fd)
    case Sending(_, spot, _) => FdOf(spot)
    case Quitting(_, spot) => FdOf(spot)
    case _ => None
  }

  function FdOf(spot: Spot): Option<nat> {
    if spot.AtRecord? then Some(spot.fd) else None
  }

  /** A queued task is above or beside the running one, or is one of its children. */
  predicate Fits(p: Phase, x: QTask) {
    HasTask(p) ==>
      || Stacks(x, p.q)
      || (x.task.depth == p.q.task.depth + 1
          && (p.Done? || p.Spent? || (ReadingFd(p).Some? && x.parent == ReadingFd(p))))
  }

  /** The deque, with the running task placed before its own children, is stacked. */
  ghost predicate WalkerStacked(k: Walker) {
    && Stacked(k.deque)
    && forall i | 0 <= i < |k.deque| :: Fits(k.phase, k.deque[i])
  }

  ghost predicate OnlyRoots(qs: seq<QTask>) {
    forall q | q in qs :: q.parent.None?
  }

  /** Every opened directory was a read of the walk. */
  ghost predicate DepthsRead(s: State) {
    forall d | d in s.fds :: exists id :: Read(id, d) in s.history
  }

  ghost predicate Piled(s: State) {
    && OnlyRoots(s.injector)
    && (forall w | 0 <= w < |s.walkers| :: WalkerStacked(s.walkers[w]))
    && DepthsRead(s)
  }

  lemma VisitPile(job: Plan, shutdown: bool, k: Walker, q: QTask, spot: Spot, e: Entry)
    requires WalkerStacked(k) && Running(k.phase) && k.phase.q == q && !k.phase.Done?
    requires if spot.AtRecord? then ReadingFd(k.phase) == Some(spot.fd) else ReadingFd(k.phase).None?
    ensures WalkerStacked(Visit(job, shutdown, k, q, spot, e))
  {
    var k' := Visit(job, shutdown, k, q, spot, e);
    forall i | 0 <= i < |k.deque| ensures Fits(k'.phase, k.deque[i]) {
      assert Fits(k.phase, k.deque[i]);
    }
  }

  lemma PopPile(k: Walker)
    requires WalkerStacked(k) && k.deque != []
    ensures var n := |k.deque| - 1;
            WalkerStacked(k.(phase := Begin(k.deque[n]), deque := k.deque[..n]))
  {
  }

  lemma PushPile(k: Walker, c: QTask)
    requires WalkerStacked(k) && k.phase.Push?
    requires c.task.depth == k.phase.q.task.depth + 1 && c.parent == Some(k.phase.fd)
    ensures WalkerStacked(k.(phase := Reading(k.phase.q, k.phase.fd, k.phase.i + 1), deque := k.deque + [c]))
  {
    forall i | 0 <= i < |k.deque| ensures Stacks(k.deque[i], c) && Fits(k.phase, k.deque[i]) {
    }
  }

  lemma MovePile(job: Plan, v: View, k: Walker, step: Step)
    requires WalkerStacked(k) && CanStep(job, v, k, step)
    requires !step.PopOwn? && !step.PushChild? && !step.NextRecord? && !step.Process?
    ensures WalkerStacked(StepOf(job, v, k, step).k)
  {
    var k' := StepOf(job, v, k, step).k;
    forall i | 0 <= i < |k.deque| ensures Fits(k'.phase, k.deque[i]) {
      assert Fits(k.phase, k.deque[i]);
    }
  }

  lemma StepPile(job: Plan, v: View, k: Walker, step: Step)
    requires WalkerStacked(k) && CanStep(job, v, k, step)
    ensures WalkerStacked(StepOf(job, v, k, step).k)
  {
    if step.PopOwn? {
      PopPile(k);
    } else if step.PushChild? {
      PushPile(k, QTask(ChildAt(job, k.phase.q.task, k.phase.i), Some(k.phase.fd)));
    } else if step.Process? && k.phase.q.parent.None? {
      VisitPile(job, v.shutdown, k, k.phase.q, AtRoot, RootEntry(k.phase.q.task));
    } else if step.NextRecord? && ShownAt(job, k.phase.q.task, k.phase.i) {
      var q, fd, i := k.phase.q, k.phase.fd, k.phase.i;
      VisitPile(job, v.shutdown, k, q, AtRecord(fd, i), EntryAt(job, q.task, i));
    } else {
      QuietPile(job, v, k, step);
    }
  }

  lemma QuietPile(job: Plan, v: View, k: Walker, step: Step)
    requires WalkerStacked(k) && CanStep(job, v, k, step) && !step.PopOwn? && !step.PushChild?
    requires step.Process? ==> k.phase.q.parent.Some?
    requires step.NextRecord? ==> !ShownAt(job, k.phase.q.task, k.phase.i)
    ensures WalkerStacked(StepOf(job, v, k, step).k)
  {
    if step.Process? || step.NextRecord? {
      var k' := StepOf(job, v, k, step).k;
      forall i | 0 <= i < |k.deque| ensures Fits(k'.phase, k.deque[i]) {
        assert Fits(k.phase, k.deque[i]);
      }
    } else {
      MovePile(job, v, k, step);
    }
  }

  lemma SentPile(job: Plan, k: Walker)
    requires WalkerStacked(k) && Blocked(k.phase)
    ensures WalkerStacked(Sent(job, k))
  {
    forall i | 0 <= i < |k.deque| ensures Fits(Sent(job, k).phase, k.deque[i]) {
      assert Fits(k.phase, k.deque[i]);
    }
  }

  lemma BatchPile(job: Plan, s: State, a: Action)
    requires WellShaped(job, s) && Enabled(job, s, a) && a.StealBatch? && OnlyRoots(s.injector)
    ensures WalkerStacked(Apply(job, s, a).walkers[a.w])
  {
    StolenOk(s, a.order);
    assert s.injector[0] in s.injector && TaskOk(s.fds, s.injector[0]);
    forall q | q in a.order ensures q.task.depth == 0 {
      assert q in multiset(s.injector[1..|a.order| + 1]);
      assert q in s.injector && TaskOk(s.fds, q);
    }
  }

  lemma PeerPile(job: Plan, s: State, a: Action, v: nat)
    requires Piled(s) && Enabled(job, s, a) && a.StealPeer? && v < |s.walkers|
    ensures WalkerStacked(Apply(job, s, a).walkers[v])
  {
    assert WalkerStacked(s.walkers[v]);
    var k' := Apply(job, s, a).walkers[v];
    if v == a.w {
      assert k'.deque == [];
    } else if v == a.v {
      assert k'.deque == s.walkers[v].deque[1..];
    } else {
      assert k' == s.walkers[v];
    }
  }

  lemma PassPile(s: State, k: Walker, lost: bool)
    requires WalkerStacked(k) && Hungry(k)
    ensures WalkerStacked(k.(phase := Onward(s, k.phase, lost)))
  {
  }

  lemma HistoryGrows(job: Plan, s: State, a: Action)
    requires Enabled(job, s, a)
    ensures s.history <= Apply(job, s, a).history
  {
  }

  /** A step that opens a directory reads it. */
  lemma OpensAreReads(job: Plan, v: View, k: Walker, step: Step, d: nat)
    requires CanStep(job, v, k, step) && d in StepOf(job, v, k, step).fds
    ensures step.Open? && Read(Entered(job, k.phase.q.task).value, d) in StepOf(job, v, k, step).events
  {
  }

  lemma DepthsKept(job: Plan, s: State, a: Action)
    requires DepthsRead(s) && Enabled(job, s, a)
    ensures DepthsRead(Apply(job, s, a))
  {
    var s' := Apply(job, s, a);
    HistoryGrows(job, s, a);
    if a.Local? {
      forall d | d in s'.fds ensures exists id :: Read(id, d) in s'.history {
        if d in s.fds {
          var id :| Read(id, d) in s.history;
          assert Read(id, d) in s'.history;
        } else {
          OpensAreReads(job, ViewOf(s), s.walkers[a.w], a.step, d);
        }
      }
    }
  }

  lemma PileKept(job: Plan, s: State, a: Action)
    requires WellShaped(job, s) && Piled(s) && Enabled(job, s, a)
    ensures Piled(Apply(job, s, a))
  {
    var s' := Apply(job, s, a);
    DepthsKept(job, s, a);
    forall v | 0 <= v < |s.walkers| ensures WalkerStacked(s'.walkers[v]) {
      assert WalkerStacked(s.walkers[v]);
      if a.StealBatch? {
        BatchPile(job, s, a);
      } else if a.StealPeer? {
        PeerPile(job, s, a, v);
      } else if a.Local? && a.w == v {
        StepPile(job, ViewOf(s), s.walkers[v], a.step);
      } else if a.Pass? && a.w == v {
        PassPile(s, s.walkers[v], a.lost);
      } else if (a.Send? || a.HandOver?) && a.w == v {
        SentPile(job, s.walkers[v]);
      } else if a.WalkReturns? {
        assert s'.walkers[v].deque == [];
      }
    }
  }

  lemma {:induction false} PileRun(job: Plan, s: State, acts: seq<Action>)
    requires WellShaped(job, s) && Piled(s) && Valid(job, s, acts)
    ensures Piled(Run(job, s, acts))
    decreases |acts|
  {
    if acts != [] {
      ShapeKept(job, s, acts[0]);
      PileKept(job, s, acts[0]);
      PileRun(job, Apply(job, s, acts[0]), acts[1..]);
    }
  }

  /** The stacked structure holds in every reachable state. */
  lemma PileReachable(job: Plan, s: State)
    requires Reachable(job, s)
    ensures Piled(s)
  {
    var acts :| Valid(job, Init(job), acts) && Run(job, Init(job), acts) == s;
    InitShape(job);
    PileRun(job, Init(job), acts);
  }

  // ----- Counting the pinned descriptors -----

  ghost function ParentsOf(qs: seq<QTask>): set<nat> {
    set q | q in qs && q.parent.Some? :: q.parent.value
  }

  /** The descriptors a walker keeps open: its tasks' parents and the directory it reads. */
  ghost function Anchors(k: Walker): set<nat> {
    ParentsOf(k.deque)
    + (if HasTask(k.phase) && k.phase.q.parent.Some? then {k.phase.q.parent.value} else {})
    + (if ReadingFd(k.phase).Some? then {ReadingFd(k.phase).value} else {})
  }

  ghost function AnchorSets(ks: seq<Walker>): (sets: seq<set<nat>>)
    ensures |sets| == |ks| && forall w | 0 <= w < |ks| :: sets[w] == Anchors(ks[w])
  {
    seq(|ks|, w requires 0 <= w < |ks| => Anchors(ks[w]))
  }

  ghost function Union(sets: seq<set<nat>>): set<nat> {
    if sets == [] then {} else sets[0] + Union(sets[1..])
  }

  ghost function AllAnchors(ks: seq<Walker>): set<nat> {
    Union(AnchorSets(ks))
  }

  /** All descriptors some task or walker still refers to. */
  ghost function LiveAnchors(s: State): set<nat> {
    ParentsOf(s.injector) + AllAnchors(s.walkers)
  }

  /** A walker pins at most one directory of each depth. */
  lemma OnePerDepth(job: Plan, fds: seq<nat>, k: Walker, a: nat, b: nat)
    requires WalkerOk(job, fds, k) && WalkerStacked(k)
    requires a in Anchors(k) && b in Anchors(k)
    ensures a < |fds| && b < |fds| && (fds[a] == fds[b] ==> a == b)
  {
    AnchorSource(job, fds, k, a);
    AnchorSource(job, fds, k, b);
    if a in ParentsOf(k.deque) && b in ParentsOf(k.deque) {
      var i :| 0 <= i < |k.deque| && k.deque[i].parent == Some(a);
      var j :| 0 <= j < |k.deque| && k.deque[j].parent == Some(b);
      assert TaskOk(fds, k.deque[i]) && TaskOk(fds, k.deque[j]);
      assert i < j ==> Stacks(k.deque[i], k.deque[j]);
      assert j < i ==> Stacks(k.deque[j], k.deque[i]);
    } else if a in ParentsOf(k.deque) {
      DequeVersusRunning(job, fds, k, a, b);
    } else if b in ParentsOf(k.deque) {
      DequeVersusRunning(job, fds, k, b, a);
    }
  }

  lemma AnchorSource(job: Plan, fds: seq<nat>, k: Walker, a: nat)
    requires WalkerOk(job, fds, k) && a in Anchors(k)
    ensures a < |fds|
    ensures a in ParentsOf(k.deque) ||
            (HasTask(k.phase) && k.phase.q.parent == Some(a) && fds[a] + 1 == k.phase.q.task.depth) ||
            (Running(k.phase) && ReadingFd(k.phase) == Some(a) && fds[a] == k.phase.q.task.depth)
  {
    if a in ParentsOf(k.deque) {
      var q :| q in k.deque && q.parent == Some(a);
      assert TaskOk(fds, q);
    }
  }

  lemma DequeVersusRunning(job: Plan, fds: seq<nat>, k: Walker, a: nat, b: nat)
    requires WalkerOk(job, fds, k) && WalkerStacked(k)
    requires a in ParentsOf(k.deque) && b in Anchors(k) && b !in ParentsOf(k.deque)
    ensures a < |fds| && b < |fds| && (fds[a] == fds[b] ==> a == b)
  {
    AnchorSource(job, fds, k, b);
    var i :| 0 <= i < |k.deque| && k.deque[i].parent == Some(a);
    assert TaskOk(fds, k.deque[i]);
    assert Fits(k.phase, k.deque[i]);
  }

  /** A set whose labels below `levels` tell its elements apart has at most `levels` elements. */
  lemma {:induction false} LabelledSize(xs: set<nat>, tag: seq<nat>, levels: nat)
    requires forall x | x in xs :: x < |tag| && tag[x] < levels
    requires forall x, y | x in xs && y in xs && tag[x] == tag[y] :: x == y
    ensures |xs| <= levels
    decreases levels
  {
    if levels == 0 {
      assert xs == {};
    } else {
      var high := set x | x in xs && tag[x] == levels - 1;
      var low := xs - high;
      assert |high| <= 1 by {
        if high != {} {
          var x :| x in high;
          assert high == {x};
        }
      }
      assert xs == high + low;
      LabelledSize(low, tag, levels - 1);
    }
  }

  lemma WalkerPins(job: Plan, fds: seq<nat>, k: Walker, levels: nat)
    requires WalkerOk(job, fds, k) && WalkerStacked(k) && forall d | d in fds :: d < levels
    ensures |Anchors(k)| <= levels
  {
    forall a | a in Anchors(k) ensures a < |fds| && fds[a] < levels {
      OnePerDepth(job, fds, k, a, a);
      assert fds[a] in fds;
    }
    forall a, b | a in Anchors(k) && b in Anchors(k) && fds[a] == fds[b] ensures a == b {
      OnePerDepth(job, fds, k, a, b);
    }
    LabelledSize(Anchors(k), fds, levels);
  }

  lemma UnionSize(a: set<nat>, b: set<nat>, x: nat, y: nat)
    requires |a| <= x && |b| <= y
    ensures |a + b| <= x + y
  {
    assert |a + b| == |a| + |b| - |a * b|;
  }

  ghost function Times(n: nat, x: nat): nat {
    if n == 0 then 0 else x + Times(n - 1, x)
  }

  lemma TimesIsProduct(n: nat, x: nat)
    ensures Times(n, x) == n * x
  {
  }

  lemma {:induction false} UnionBound(sets: seq<set<nat>>, each: nat)
    requires forall i | 0 <= i < |sets| :: |sets[i]| <= each
    ensures |Union(sets)| <= Times(|sets|, each)
    decreases |sets|
  {
    if sets != [] {
      UnionBound(sets[1..], each);
      UnionSize(sets[0], Union(sets[1..]), each, Times(|sets| - 1, each));
    }
  }

  lemma AllPins(ks: seq<Walker>, each: nat)
    requires forall w | 0 <= w < |ks| :: |Anchors(ks[w])| <= each
    ensures |AllAnchors(ks)| <= |ks| * each
  {
    UnionBound(AnchorSets(ks), each);
    TimesIsProduct(|ks|, each);
  }

  /** The recursive walk reads directories at depths below `levels` only. */
  ghost predicate ReadsWithin(job: Job, levels: nat) {
    forall id, d: nat | Read(id, d) in Walk(job) :: d < levels
  }

  /** Every directory opened so far is at a depth below `levels`. */
  ghost predicate OpenedWithin(s: State, levels: nat) {
    forall d | d in s.fds :: d < levels
  }

  lemma ReadsBoundOpens(job: Job, s: State, levels: nat)
    requires Reachable(job, s) && ReadsWithin(job, levels)
    ensures OpenedWithin(s, levels)
  {
    InvReachable(job, s);
    PileReachable(job, s);
    forall d | d in s.fds ensures d < levels {
      var id :| Read(id, d) in s.history;
      assert Balanced(job, Some(Read(id, d)), s);
      assert Read(id, d) in Walk(job);
    }
  }

  lemma EachPins(job: Job, s: State, levels: nat)
    requires Inv(job, s) && Piled(s) && OpenedWithin(s, levels)
    ensures forall w | 0 <= w < |s.walkers| :: |Anchors(s.walkers[w])| <= levels
  {
    forall w | 0 <= w < |s.walkers| ensures |Anchors(s.walkers[w])| <= levels {
      WalkerPins(job, s.fds, s.walkers[w], levels);
    }
  }

  /**
   * The frontier bound: in every reachable state of every interleaving at most W x levels
   * directory descriptors are pinned, `levels` being one more than the depth of the deepest
   * directory opened so far.
   */
  lemma PinnedDescriptors(job: Job, s: State, levels: nat)
    requires Reachable(job, s) && OpenedWithin(s, levels)
    ensures |LiveAnchors(s)| <= WalkerCount(job) * levels
  {
    InvReachable(job, s);
    PileReachable(job, s);
    EachPins(job, s, levels);
    AllPins(s.walkers, levels);
    assert ParentsOf(s.injector) == {};
    assert LiveAnchors(s) == AllAnchors(s.walkers);
  }

  lemma ReadWithinLimit(job: Job, id: Id, d: nat)
    requires Read(id, d) in Walk(job)
    ensures (job.cfg.maxDepth.Some? ==> d < job.cfg.maxDepth.value) && d <= |job.fs.dirs|
  {
    InWalk(job, Read(id, d));
    var p :| p in job.cfg.paths && Seeded(job, p) && Read(id, d) in WalkRoot(job, RootTask(job, p));
    ReadIffWalked(job, RootTask(job, p), id, d);
    ReadsAreShallow(job, p, id, d);
  }

  lemma LimitedReads(job: Job)
    requires job.cfg.maxDepth.Some?
    ensures ReadsWithin(job, job.cfg.maxDepth.value)
  {
    forall id, d: nat | Read(id, d) in Walk(job) ensures d < job.cfg.maxDepth.value {
      ReadWithinLimit(job, id, d);
    }
  }

  lemma AllReads(job: Job)
    ensures ReadsWithin(job, |job.fs.dirs| + 1)
  {
    forall id, d: nat | Read(id, d) in Walk(job) ensures d < |job.fs.dirs| + 1 {
      ReadWithinLimit(job, id, d);
    }
  }

  /** With a depth limit m the bound is W x m, known before the walk. */
  lemma PinnedWithinLimit(job: Job, s: State)
    requires Reachable(job, s) && job.cfg.maxDepth.Some?
    ensures |LiveAnchors(s)| <= WalkerCount(job) * job.cfg.maxDepth.value
  {
    LimitedReads(job);
    ReadsBoundOpens(job, s, job.cfg.maxDepth.value);
    PinnedDescriptors(job, s, job.cfg.maxDepth.value);
  }

  /** Whatever the options and however links are formed, the bound is W x (directories + 1). */
  lemma PinnedOnAnyTree(job: Job, s: State)
    requires Reachable(job, s)
    ensures |LiveAnchors(s)| <= WalkerCount(job) * (|job.fs.dirs| + 1)
  {
    AllReads(job);
    ReadsBoundOpens(job, s, |job.fs.dirs| + 1);
    PinnedDescriptors(job, s, |job.fs.dirs| + 1);
  }

  // ----- Releasing everything -----

  /** Once the walk has returned nothing is queued. */
  ghost predicate DroppedAll(s: State) {
    !s.sender ==> AllExited(s) && s.injector == [] && forall w | 0 <= w < |s.walkers| :: s.walkers[w].deque == []
  }

  lemma DroppedKept(job: Plan, s: State, a: Action)
    requires DroppedAll(s) && Enabled(job, s, a)
    ensures DroppedAll(Apply(job, s, a))
  {
    if !s.sender {
      ExitKept(job, s, a);
    }
  }

  lemma {:induction false} DroppedRun(job: Plan, s: State, acts: seq<Action>)
    requires DroppedAll(s) && Valid(job, s, acts)
    ensures DroppedAll(Run(job, s, acts))
    decreases |acts|
  {
    if acts != [] {
      DroppedKept(job, s, acts[0]);
      DroppedRun(job, Apply(job, s, acts[0]), acts[1..]);
    }
  }

  /**
   * A walk nobody stopped releases everything by its own work: once all its workers have left,
   * before it returns and drops its queues, no descriptor is pinned any more.
   */
  lemma ReleasedByWork(job: Job, s: State)
    requires Reachable(job, s) && AllExited(s) && !s.quit
    ensures s.pending == 0 && LiveAnchors(s) == {}
  {
    InvReachable(job, s);
    assert Gone(s.walkers[0].phase);
    ZeroMeansNoWork(s);
    NothingPinned(s.walkers);
  }

  /** A stopped walk drops what is left when it returns, so every run ends with all released. */
  lemma AllReleased(job: Job, s: State)
    requires Reachable(job, s) && Final(s)
    ensures LiveAnchors(s) == {}
  {
    var acts :| Valid(job, Init(job), acts) && Run(job, Init(job), acts) == s;
    DroppedRun(job, Init(job), acts);
    NothingPinned(s.walkers);
  }

  lemma NothingPinned(ks: seq<Walker>)
    requires forall k | k in ks :: k.deque == [] && k.phase.Exited?
    ensures AllAnchors(ks) == {}
  {
    EmptyUnion(AnchorSets(ks));
  }

  lemma {:induction false} EmptyUnion(sets: seq<set<nat>>)
    requires forall i | 0 <= i < |sets| :: sets[i] == {}
    ensures Union(sets) == {}
    decreases |sets|
  {
    if sets != [] {
      EmptyUnion(sets[1..]);
    }
  }
}
