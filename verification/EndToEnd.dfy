/** What every run writes. */
module EndToEnd {
  import opened FileSystem
  import opened WalkSpec
  import opened Machine
  import opened Shape
  import opened Accounting
  import opened Flow
  import opened Invariant
  import opened Routes

  /** The entries among a walk's events. */
  ghost function Emits(m: multiset<Event>): (r: multiset<Entry>)
    ensures forall e :: r[e] == m[Emit(e)]
    decreases |m|
  {
    if m == multiset{} then multiset{}
    else
      var x :| x in m;
      (if x.Emit? then multiset{x.entry} else multiset{}) + Emits(m - multiset{x})
  }

  /** The entries a run is asked for. */
  ghost function Matching(job: Job): multiset<Entry> {
    Emits(Walk(job))
  }

  ghost function Written(s: State): multiset<Entry> {
    multiset(Entries(s.written))
  }

  lemma WrittenSize(ts: seq<Tagged>)
    ensures |Entries(ts)| == |ts|
  {
  }

  lemma WrittenPrefix(job: Job, s: State, w: nat)
    requires Inv(job, s) && w < |s.walkers|
    ensures Of(w, s.written) <= s.walkers[w].log
  {
    var rest := InHand(s.out) + Flat(s.chan) + s.lost;
    assert FlowAt(s, w);
    assert Pipe(s) == s.written + rest;
    OfSplit(w, s.written, rest);
  }

  /** At the end all pipes and batches are empty, and nothing was lost unless the cap was written. */
  lemma AllDelivered(job: Job, s: State, w: nat)
    requires Inv(job, s) && Final(s) && w < |s.walkers|
    ensures s.walkers[w].log == Of(w, s.written) + Of(w, s.lost)
    ensures !CapHit(job, s) ==> s.lost == []
  {
    assert FlowAt(s, w);
    assert WalkerOk(job, s.fds, s.walkers[w]);
    assert Pipe(s) == s.written + s.lost;
    OfSplit(w, s.written, s.lost);
  }

  lemma WrittenInRange(job: Job, s: State)
    requires Inv(job, s)
    ensures forall t | t in s.written :: t.from < |s.walkers|
  {
    forall t | t in s.written ensures t.from < |s.walkers| {
      assert t in Pipe(s);
    }
  }

  /** In every state of every run, nothing is written that the walk does not emit, nor more often. */
  lemma NothingSpurious(job: Job, s: State, e: Entry)
    requires Reachable(job, s)
    ensures Written(s)[e] <= Matching(job)[e]
  {
    InvReachable(job, s);
    forall w | 0 <= w < |s.walkers| ensures Of(w, s.written) <= s.walkers[w].log {
      WrittenPrefix(job, s, w);
    }
    WrittenInRange(job, s);
    SharesAddUp(s.written, e, |s.walkers|);
    ShareVersusLogs(s.written, e, s.walkers, false);
    assert Logged(s, e);
    assert Balanced(job, Some(Emit(e)), s);
  }

  /** A run to the end: every thread returned, nobody interrupted it, the cap was not reached. */
  ghost predicate Complete(job: Job, s: State) {
    Reachable(job, s) && Final(s) && !s.shutdown && !CapHit(job, s)
  }

  /** Every complete, uninterrupted run below the cap performs exactly the events of the walk. */
  lemma WalkIsComplete(job: Job, s: State)
    requires Complete(job, s)
    ensures s.history == Walk(job)
  {
    InvReachable(job, s);
    assert Unhurried(s);
    assert Gone(s.walkers[0].phase);
    ZeroMeansNoWork(s);
    forall ev: Event ensures s.history[ev] == Walk(job)[ev] {
      assert Balanced(job, Some(ev), s);
      NothingLeft(Expected(job, Some(ev)), s.walkers);
    }
  }

  /**
   * End-to-end refinement: in every interleaving that finishes without shutdown or cap, the
   * multiset of written entries is the recursive walk's, for any number of threads.
   */
  lemma RunsRefineWalk(job: Job, s: State)
    requires Complete(job, s)
    ensures Written(s) == Matching(job)
  {
    InvReachable(job, s);
    WalkIsComplete(job, s);
    forall e: Entry ensures Written(s)[e] == Matching(job)[e] {
      WrittenIsLogged(job, s, e);
    }
  }

  lemma WrittenIsLogged(job: Job, s: State, e: Entry)
    requires Inv(job, s) && Final(s) && !CapHit(job, s)
    ensures Written(s)[e] == s.history[Emit(e)]
  {
    WrittenInRange(job, s);
    forall w | 0 <= w < |s.walkers| ensures Of(w, s.written) == s.walkers[w].log {
      AllDelivered(job, s, w);
      assert Of(w, []) == [];
    }
    SharesAddUp(s.written, e, |s.walkers|);
    ShareVersusLogs(s.written, e, s.walkers, true);
    assert Logged(s, e);
  }

  lemma SubmultisetSize(a: multiset<Entry>, b: multiset<Entry>)
    requires forall e :: a[e] <= b[e]
    ensures |a| <= |b|
  {
    assert b == a + (b - a);
  }

  /** Complete runs, over the option: an uninterrupted end with fewer results than --max-results, if that is set. */
  lemma CompleteMeans(job: Job, s: State)
    ensures Complete(job, s) <==>
              && Reachable(job, s) && Final(s) && !s.shutdown
              && (job.cfg.maxResults.Some? && job.cfg.maxResults.value > 0 ==> |s.written| < job.cfg.maxResults.value)
  {
    if Reachable(job, s) {
      InvReachable(job, s);
    }
  }

  /** Exact cap: with --max-results N > 0 every uninterrupted run that ends writes min(N, matching entries). */
  lemma CapIsExact(job: Job, s: State, n: nat)
    requires Reachable(job, s) && Final(s) && !s.shutdown && job.cfg.maxResults == Some(n) && n > 0
    ensures |s.written| == if |Matching(job)| < n then |Matching(job)| else n
  {
    InvReachable(job, s);
    WrittenSize(s.written);
    assert |Written(s)| == |s.written|;
    if CapHit(job, s) {
      forall e: Entry ensures Written(s)[e] <= Matching(job)[e] {
        NothingSpurious(job, s, e);
      }
      SubmultisetSize(Written(s), Matching(job));
    } else {
      RunsRefineWalk(job, s);
    }
  }

  /** With --max-results N > 0 no state of any run holds more than N results. */
  lemma CapIsNeverExceeded(job: Job, s: State, n: nat)
    requires Reachable(job, s) && job.cfg.maxResults == Some(n) && n > 0
    ensures |s.written| <= n
  {
    InvReachable(job, s);
  }

  /** Without --max-results, or with 0, every uninterrupted run that ends writes all matching entries. */
  lemma UncappedWritesAll(job: Job, s: State)
    requires Reachable(job, s) && Final(s) && !s.shutdown
    requires job.cfg.maxResults == None || job.cfg.maxResults == Some(0)
    ensures Written(s) == Matching(job)
  {
    RunsRefineWalk(job, s);
  }

  /** The threads and the room of the channel: one thread is kept for the output, four batches a walker. */
  lemma PoolSizes(job: Job, s: State)
    requires Reachable(job, s)
    ensures |s.walkers| == if job.cfg.threads > 2 then job.cfg.threads - 1 else 1
    ensures |s.chan| <= 4 * (job.cfg.threads - 1)
  {
    InvReachable(job, s);
  }

  /** A walker with a batch can send it exactly while the channel holds fewer than four a walker. */
  lemma RoomToSend(job: Job, s: State, w: nat)
    requires w < |s.walkers| && Blocked(s.walkers[w].phase) && !s.out.Finished?
    ensures Enabled(job, s, Send(w)) <==> |s.chan| < 4 * (job.cfg.threads - 1)
  {
  }

  /**
   * Conservation in order, in every state of every run: what a walker's visitor accepted is, in
   * push order, what of it is written, in the output thread's hand, in the channel, discarded
   * with the closed channel, and still held. Only behind the cap is anything discarded, so at
   * the end of any run below the cap all of it is written.
   */
  lemma OrderIsKept(job: Job, s: State, w: nat)
    requires Reachable(job, s) && w < |s.walkers|
    ensures s.walkers[w].log
            == Of(w, s.written) + Of(w, InHand(s.out)) + Of(w, Flat(s.chan)) + Of(w, s.lost) + Held(s.walkers[w])
    ensures s.lost != [] ==> s.out.Finished? && CapHit(job, s)
    ensures s.out.Finished? ==> InHand(s.out) == [] && s.chan == []
    ensures Final(s) ==> Held(s.walkers[w]) == []
    ensures Final(s) && !CapHit(job, s) ==> Of(w, s.written) == s.walkers[w].log
  {
    InvReachable(job, s);
    assert FlowAt(s, w) && WalkerOk(job, s.fds, s.walkers[w]);
    OfSplit(w, s.written + InHand(s.out) + Flat(s.chan), s.lost);
    OfSplit(w, s.written + InHand(s.out), Flat(s.chan));
    OfSplit(w, s.written, InHand(s.out));
    if Final(s) && !CapHit(job, s) {
      AllDelivered(job, s, w);
    }
  }

  // ----- Seen from the snapshot -----

  lemma {:induction false} InRootTasks(job: Plan, paths: seq<Path>, t: Task)
    ensures t in RootTasks(job, paths) <==> exists p :: p in paths && Seeded(job, p) && t == RootTask(job, p)
    decreases |paths|
  {
    if paths != [] {
      var n := |paths| - 1;
      InRootTasks(job, paths[..n], t);
      assert forall p :: p in paths <==> p in paths[..n] || p == paths[n];
    }
  }

  lemma {:induction false} InUnique(paths: seq<Path>, p: Path)
    ensures p in Unique(paths) <==> p in paths
    decreases |paths|
  {
    if paths != [] {
      var n := |paths| - 1;
      InUnique(paths[..n], p);
      assert p in paths <==> p in paths[..n] || p == paths[n];
    }
  }

  lemma {:induction false} InWalkRoots(job: Job, ts: seq<Task>, ev: Event)
    ensures ev in WalkRoots(job, ts) <==> exists t :: t in ts && ev in WalkRoot(job, t)
    decreases |ts|
  {
    if ts != [] {
      InWalkRoots(job, ts[1..], ev);
      assert forall t :: t in ts <==> t == ts[0] || t in ts[1..];
    }
  }

  lemma InWalk(job: Job, ev: Event)
    ensures ev in Walk(job) <==>
            exists p :: p in job.cfg.paths && Seeded(job, p) && ev in WalkRoot(job, RootTask(job, p))
  {
    InWalkRoots(job, Roots(job), ev);
    forall p ensures p in Unique(job.cfg.paths) <==> p in job.cfg.paths {
      InUnique(job.cfg.paths, p);
    }
    forall t ensures t in Roots(job) <==>
                     exists p :: p in Unique(job.cfg.paths) && Seeded(job, p) && t == RootTask(job, p)
    {
      InRootTasks(job, Unique(job.cfg.paths), t);
    }
  }

  /** `e` is the root's own entry or is shown at the end of a walked route from the root. */
  ghost predicate FoundUnder(job: Plan, t: Task, e: Entry) {
    e == RootEntry(t) ||
    exists ids, idx, i :: Walked(job, t, ids, idx) && ShownAlong(job, t, ids, idx, i, e)
  }

  lemma EmittedUnderRoot(job: Job, p: Path, e: Entry)
    requires Seeded(job, p)
    ensures Emit(e) in WalkRoot(job, RootTask(job, p)) <==> job.cfg.keep(e) && FoundUnder(job, RootTask(job, p), e)
  {
    EmitIffShown(job, RootTask(job, p), e);
  }

  /**
   * The run said without the walker: an entry is written exactly when it passes the filters and
   * is a given path with a readable identity or is found under one.
   */
  lemma WrittenIffFound(job: Job, s: State, e: Entry)
    requires Complete(job, s)
    ensures e in Written(s) <==>
            job.cfg.keep(e) &&
            exists p :: p in job.cfg.paths && Seeded(job, p) && FoundUnder(job, RootTask(job, p), e)
  {
    RunsRefineWalk(job, s);
    InWalk(job, Emit(e));
    if p :| p in job.cfg.paths && Seeded(job, p) && Emit(e) in WalkRoot(job, RootTask(job, p)) {
      EmittedUnderRoot(job, p, e);
    }
    if job.cfg.keep(e) {
      forall p | p in job.cfg.paths && Seeded(job, p) && FoundUnder(job, RootTask(job, p), e)
        ensures Emit(e) in WalkRoot(job, RootTask(job, p))
      {
        EmittedUnderRoot(job, p, e);
      }
    }
  }

  /** How many of the root tasks `ts` entry `e` is found under. */
  ghost function Finders(job: Plan, ts: seq<Task>, e: Entry): nat {
    if ts == [] then 0 else (if FoundUnder(job, ts[0], e) then 1 else 0) + Finders(job, ts[1..], e)
  }

  lemma {:induction false} RootsCount(job: Job, ts: seq<Task>, e: Entry)
    requires NamesUnique(job.fs) && job.cfg.keep(e)
    requires forall t | t in ts :: IsRoot(job, t)
    ensures WalkRoots(job, ts)[Emit(e)] == Finders(job, ts, e)
    decreases |ts|
  {
    if ts != [] {
      assert IsRoot(job, ts[0]);
      RootCount(job, ts[0], e);
      RootsCount(job, ts[1..], e);
    }
  }

  ghost predicate IsRoot(job: Plan, t: Task) {
    exists p :: Seeded(job, p) && t == RootTask(job, p)
  }

  lemma RootCount(job: Job, t: Task, e: Entry)
    requires NamesUnique(job.fs) && job.cfg.keep(e) && IsRoot(job, t)
    ensures WalkRoot(job, t)[Emit(e)] == if FoundUnder(job, t, e) then 1 else 0
  {
    var p :| Seeded(job, p) && t == RootTask(job, p);
    RootEmitsOnce(job, p, e);
    EmitIffShown(job, t, e);
  }

  /** No loss, no duplicate: a matching entry is written once for every distinct root it is found under. */
  lemma WrittenOncePerRoot(job: Job, s: State, e: Entry)
    requires Complete(job, s)
    requires NamesUnique(job.fs) && job.cfg.keep(e)
    ensures Written(s)[e] == Finders(job, Roots(job), e)
  {
    RunsRefineWalk(job, s);
    forall t | t in Roots(job) ensures IsRoot(job, t) {
      InRootTasks(job, Unique(job.cfg.paths), t);
    }
    RootsCount(job, Roots(job), e);
  }

  lemma {:induction false} EntriesAt(ts: seq<Tagged>, i: nat)
    requires i < |ts|
    ensures |Entries(ts)| == |ts| && Entries(ts)[i] == ts[i].entry
    decreases |ts|
  {
    WrittenSize(ts);
    if i > 0 {
      EntriesAt(ts[1..], i - 1);
    }
  }

  lemma OccursTwice(es: seq<Entry>, i: nat, j: nat)
    requires i < j < |es| && es[i] == es[j]
    ensures multiset(es)[es[i]] >= 2
  {
    assert es == es[..j] + ([es[j]] + es[j + 1..]);
    assert es[i] == es[..j][i];
    assert es[i] in multiset(es[..j]);
  }

  /** No given path lies inside another one. */
  ghost predicate Apart(paths: seq<Path>) {
    forall p, q | p in paths && q in paths && p <= q :: p == q
  }

  lemma EmittedInside(job: Job, p: Path, e: Entry)
    requires Seeded(job, p) && Emit(e) in WalkRoot(job, RootTask(job, p))
    ensures p <= e.path
  {
    EmitIffShown(job, RootTask(job, p), e);
  }

  lemma {:induction false} UniqueIsDistinct(paths: seq<Path>)
    ensures Distinct(Unique(paths))
    decreases |paths|
  {
    if paths != [] {
      UniqueIsDistinct(paths[..|paths| - 1]);
    }
  }

  /** No root among `ts` lies inside another. */
  ghost predicate RootsApart(ts: seq<Task>) {
    forall i, j | 0 <= i < j < |ts| :: !(ts[i].path <= ts[j].path) && !(ts[j].path <= ts[i].path)
  }

  lemma {:induction false} RootTasksApart(job: Plan, paths: seq<Path>)
    requires Apart(paths) && Distinct(paths)
    ensures RootsApart(RootTasks(job, paths))
    decreases |paths|
  {
    if paths != [] {
      var n := |paths| - 1;
      var front := RootTasks(job, paths[..n]);
      forall p | p in paths[..n] ensures p in paths {
      }
      RootTasksApart(job, paths[..n]);
      forall i | 0 <= i < |front| ensures !(front[i].path <= paths[n]) && !(paths[n] <= front[i].path) {
        InRootTasks(job, paths[..n], front[i]);
        var p :| p in paths[..n] && Seeded(job, p) && front[i] == RootTask(job, p);
        var j :| 0 <= j < n && paths[..n][j] == p;
        assert p in paths && paths[n] in paths && paths[j] != paths[n];
      }
    }
  }

  lemma InsideSomeRoot(job: Job, ts: seq<Task>, e: Entry) returns (i: nat)
    requires Emit(e) in WalkRoots(job, ts) && forall i | 0 <= i < |ts| :: IsRoot(job, ts[i])
    ensures i < |ts| && ts[i].path <= e.path
  {
    InWalkRoots(job, ts, Emit(e));
    var t :| t in ts && Emit(e) in WalkRoot(job, t);
    i :| 0 <= i < |ts| && ts[i] == t;
    InsideRoot(job, ts[i], e);
  }

  lemma InsideRoot(job: Job, t: Task, e: Entry)
    requires IsRoot(job, t)
    ensures WalkRoot(job, t)[Emit(e)] >= 1 ==> t.path <= e.path
  {
    var p :| Seeded(job, p) && t == RootTask(job, p);
    if Emit(e) in WalkRoot(job, t) {
      EmittedInside(job, p, e);
    }
  }

  lemma AtMostOnceBelow(job: Job, t: Task, e: Entry)
    requires NamesUnique(job.fs) && IsRoot(job, t)
    ensures WalkRoot(job, t)[Emit(e)] <= 1
  {
    var p :| Seeded(job, p) && t == RootTask(job, p);
    RootEmitsOnce(job, p, e);
  }

  lemma {:induction false} OneFinder(job: Job, ts: seq<Task>, e: Entry)
    requires NamesUnique(job.fs) && RootsApart(ts) && forall i | 0 <= i < |ts| :: IsRoot(job, ts[i])
    ensures WalkRoots(job, ts)[Emit(e)] <= 1
    decreases |ts|
  {
    if ts != [] {
      OneFinder(job, ts[1..], e);
      CountAdds(Some(Emit(e)), WalkRoot(job, ts[0]), WalkRoots(job, ts[1..]));
      AtMostOnceBelow(job, ts[0], e);
      InsideRoot(job, ts[0], e);
      if Emit(e) in WalkRoots(job, ts[1..]) && ts[0].path <= e.path {
        var i := InsideSomeRoot(job, ts[1..], e);
        Nested(ts[0].path, ts[i + 1].path, e.path);
      }
    }
  }

  lemma Nested(p: Path, q: Path, path: Path)
    requires p <= path && q <= path
    ensures p <= q || q <= p
  {
  }

  lemma MatchesOnce(job: Job, e: Entry)
    requires NamesUnique(job.fs) && Apart(job.cfg.paths)
    ensures Matching(job)[e] <= 1
  {
    var unique := Unique(job.cfg.paths);
    UniqueIsDistinct(job.cfg.paths);
    forall p ensures p in unique <==> p in job.cfg.paths {
      InUnique(job.cfg.paths, p);
    }
    RootTasksApart(job, unique);
    forall i | 0 <= i < |Roots(job)| ensures IsRoot(job, Roots(job)[i]) {
      InRootTasks(job, unique, Roots(job)[i]);
    }
    OneFinder(job, Roots(job), e);
  }

  /** Two matching entries with one path are one entry. */
  lemma SamePathSameEntry(job: Job, e: Entry, e': Entry)
    requires NamesUnique(job.fs) && Apart(job.cfg.paths) && e.path == e'.path
    requires Emit(e) in Walk(job) && Emit(e') in Walk(job)
    ensures e == e'
  {
    InWalk(job, Emit(e));
    InWalk(job, Emit(e'));
    var p :| p in job.cfg.paths && Seeded(job, p) && Emit(e) in WalkRoot(job, RootTask(job, p));
    var q :| q in job.cfg.paths && Seeded(job, q) && Emit(e') in WalkRoot(job, RootTask(job, q));
    EmittedInside(job, p, e);
    EmittedInside(job, q, e');
    Nested(p, q, e.path);
    PathsAreDistinct(job, p, e, e');
  }

  /** Unless one given path lies inside another, no state of any run holds two results with one path. */
  lemma NoPathTwice(job: Job, s: State, i: nat, j: nat)
    requires Reachable(job, s) && NamesUnique(job.fs) && Apart(job.cfg.paths)
    requires i < j < |s.written|
    ensures s.written[i].entry.path != s.written[j].entry.path
  {
    var e, e' := s.written[i].entry, s.written[j].entry;
    EntriesAt(s.written, i);
    EntriesAt(s.written, j);
    NothingSpurious(job, s, e);
    NothingSpurious(job, s, e');
    MatchesOnce(job, e);
    if e.path == e'.path {
      SamePathSameEntry(job, e, e');
      OccursTwice(Entries(s.written), i, j);
    }
  }

  /** Every directory permitted steps lead to is read in every complete, uninterrupted, uncapped run. */
  lemma EveryDirectoryIsRead(job: Job, s: State, p: Path, ids: seq<Id>, idx: seq<nat>) returns (depth: nat)
    requires Complete(job, s)
    requires p in job.cfg.paths && Seeded(job, p) && Route(job, RootTask(job, p), ids, idx)
    requires job.cfg.maxDepth.Some? ==> |idx| < job.cfg.maxDepth.value
    ensures depth <= |idx| && Read(ids[|idx|], depth) in s.history
  {
    depth := NoDirectoryLost(job, p, ids, idx);
    WalkIsComplete(job, s);
    InWalk(job, Read(ids[|idx|], depth));
  }
}
