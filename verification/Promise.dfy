/** What complete runs read and write, said of the snapshot's records and the options alone. */
module Promise {
  import opened FileSystem
  import opened WalkSpec
  import opened Machine
  import opened Routes
  import opened EndToEnd

  /** A record's type: what the stream reports, or else what the fallback stat answers. */
  predicate HasType(r: Record, ty: EntryType) {
    r.dtype == Some(ty) || (r.dtype == None && r.lstat == Some(ty))
  }

  /** Record `i` of directory `d` is an entry for the filters to see: no dot entry, not excluded. */
  predicate Shows(job: Plan, d: Id, i: nat, name: Name, ty: EntryType) {
    && d in job.fs.dirs && i < |job.fs.dirs[d]|
    && job.fs.dirs[d][i].name == name && HasType(job.fs.dirs[d][i], ty)
    && name != "." && name != ".." && !job.cfg.exclude(name)
  }

  /** Record `i` leads from directory `d` into `d'`: a directory, or a followed link. */
  predicate LeadsTo(job: Plan, d: Id, i: nat, name: Name, d': Id) {
    || (Shows(job, d, i, name, Dir) && job.fs.dirs[d][i].plain == Some(d'))
    || (job.cfg.follow && Shows(job, d, i, name, Symlink) && job.fs.dirs[d][i].linked == Some(d'))
  }

  /** A given path that can be identified. */
  predicate Given(job: Plan, p: Path) {
    p in job.cfg.paths && p in job.fs.roots && job.fs.roots[p].stat.Some?
  }

  /** From `p` on, the records `idx`, called `names`, lead through the directories `ids`, on one device if so asked. */
  ghost predicate Trail(job: Plan, p: Path, ids: seq<Id>, idx: seq<nat>, names: seq<Name>) {
    && Given(job, p) && |ids| == |idx| + 1 && |names| == |idx|
    && job.fs.roots[p].dir == Some(ids[0])
    && (forall j | 0 <= j < |idx| :: LeadsTo(job, ids[j], idx[j], names[j], ids[j + 1]))
    && (job.cfg.oneFilesystem ==> forall j | 0 <= j < |ids| :: ids[j].dev == job.fs.roots[p].stat.value.dev)
  }

  /** A trail the walk takes: with links followed, one that comes back to no directory. */
  ghost predicate Taken(job: Plan, p: Path, ids: seq<Id>, idx: seq<nat>, names: seq<Name>) {
    && Trail(job, p, ids, idx, names)
    && (job.cfg.follow ==> forall j, k | 0 <= j < k < |ids| :: ids[j] != ids[k])
  }

  /** Directory `d` lies `n` steps below some given path, nearer than the depth limit. */
  ghost predicate Reaches(job: Plan, d: Id, n: nat) {
    && (job.cfg.maxDepth.Some? ==> n < job.cfg.maxDepth.value)
    && exists p, ids, idx, names :: Taken(job, p, ids, idx, names) && |idx| == n && ids[n] == d
  }

  /** Record `i` of the trail's last directory is the entry `e`. */
  ghost predicate EndsIn(job: Plan, p: Path, ids: seq<Id>, idx: seq<nat>, names: seq<Name>, i: nat, e: Entry) {
    && Taken(job, p, ids, idx, names) && e.path != []
    && Shows(job, ids[|idx|], i, e.path[|e.path| - 1], e.ty)
    && e.path == p + names + [e.path[|e.path| - 1]] && e.depth == |idx| + 1
  }

  /** `e` is the given path `p` itself, shown as a directory, or lies below it, no deeper than the limit. */
  ghost predicate Finds(job: Plan, p: Path, e: Entry) {
    && Given(job, p)
    && (e == Entry(p, Dir, 0)
        || ((job.cfg.maxDepth.Some? ==> e.depth <= job.cfg.maxDepth.value)
            && exists ids, idx, names, i :: EndsIn(job, p, ids, idx, names, i, e)))
  }

  // ----- Trails are the walk's routes -----

  lemma ShowsAdmitted(job: Plan, d: Id, i: nat, ty: EntryType)
    requires i < |Listing(job.fs, d)|
    ensures Shows(job, d, i, Listing(job.fs, d)[i].name, ty) <==> Admitted(job, Listing(job.fs, d)[i]) == Some(ty)
  {
  }

  lemma StepIsPermitted(job: Plan, dev: nat, d: Id, i: nat, d': Id)
    requires i < |Listing(job.fs, d)|
    ensures Permits(job, dev, d, i, d') <==>
              LeadsTo(job, d, i, Listing(job.fs, d)[i].name, d') && (job.cfg.oneFilesystem ==> d'.dev == dev)
  {
    ShowsAdmitted(job, d, i, Dir);
    ShowsAdmitted(job, d, i, Symlink);
  }

  lemma TrailIsRoute(job: Plan, p: Path, ids: seq<Id>, idx: seq<nat>, names: seq<Name>)
    requires Trail(job, p, ids, idx, names)
    ensures Seeded(job, p) && Route(job, RootTask(job, p), ids, idx)
    ensures Names(job, RootTask(job, p), ids, idx) == names
  {
    var dev := job.fs.roots[p].stat.value.dev;
    forall j | 0 <= j < |idx| ensures Permits(job, dev, ids[j], idx[j], ids[j + 1]) {
      assert LeadsTo(job, ids[j], idx[j], names[j], ids[j + 1]);
      StepIsPermitted(job, dev, ids[j], idx[j], ids[j + 1]);
    }
    assert Route(job, RootTask(job, p), ids, idx);
    forall j | 0 <= j < |idx| ensures Names(job, RootTask(job, p), ids, idx)[j] == names[j] {
      assert LeadsTo(job, ids[j], idx[j], names[j], ids[j + 1]);
    }
  }

  lemma RouteIsTrail(job: Plan, p: Path, ids: seq<Id>, idx: seq<nat>)
    requires p in job.cfg.paths && Seeded(job, p) && Route(job, RootTask(job, p), ids, idx)
    ensures Trail(job, p, ids, idx, Names(job, RootTask(job, p), ids, idx))
  {
    var dev, names := job.fs.roots[p].stat.value.dev, Names(job, RootTask(job, p), ids, idx);
    forall j | 0 <= j < |idx| ensures LeadsTo(job, ids[j], idx[j], names[j], ids[j + 1]) {
      assert Permits(job, dev, ids[j], idx[j], ids[j + 1]);
      StepIsPermitted(job, dev, ids[j], idx[j], ids[j + 1]);
    }
    forall j | 0 <= j < |ids| && job.cfg.oneFilesystem ensures ids[j].dev == dev {
      assert j > 0 ==> Permits(job, dev, ids[j - 1], idx[j - 1], ids[j]);
    }
  }

  lemma TakenIsWalked(job: Plan, p: Path, ids: seq<Id>, idx: seq<nat>, names: seq<Name>)
    requires Taken(job, p, ids, idx, names) && (job.cfg.maxDepth.Some? ==> |idx| < job.cfg.maxDepth.value)
    ensures Seeded(job, p) && Walked(job, RootTask(job, p), ids, idx)
    ensures Names(job, RootTask(job, p), ids, idx) == names
  {
    TrailIsRoute(job, p, ids, idx, names);
    assert RootTask(job, p).ancestors + ids == ids;
  }

  lemma WalkedIsTaken(job: Plan, p: Path, ids: seq<Id>, idx: seq<nat>)
    requires p in job.cfg.paths && Seeded(job, p) && Walked(job, RootTask(job, p), ids, idx)
    ensures Taken(job, p, ids, idx, Names(job, RootTask(job, p), ids, idx))
    ensures job.cfg.maxDepth.Some? ==> |idx| < job.cfg.maxDepth.value
  {
    RouteIsTrail(job, p, ids, idx);
    assert RootTask(job, p).ancestors + ids == ids;
  }

  // ----- What is read -----

  lemma ReadBelow(job: Job, p: Path, d: Id, n: nat)
    requires p in job.cfg.paths && Seeded(job, p)
    ensures Read(d, n) in WalkRoot(job, RootTask(job, p)) <==>
            && (job.cfg.maxDepth.Some? ==> n < job.cfg.maxDepth.value)
            && exists ids, idx, names :: Taken(job, p, ids, idx, names) && |idx| == n && ids[n] == d
  {
    var t := RootTask(job, p);
    ReadIffWalked(job, t, d, n);
    if Read(d, n) in Below(job, t) {
      var ids: seq<Id>, idx: seq<nat> :| Walked(job, t, ids, idx) && ids[|idx|] == d && n == t.depth + |idx|;
      WalkedIsTaken(job, p, ids, idx);
    }
    if job.cfg.maxDepth.Some? ==> n < job.cfg.maxDepth.value {
      forall ids, idx, names | Taken(job, p, ids, idx, names) && |idx| == n && ids[n] == d
        ensures Read(d, n) in Below(job, t)
      {
        TakenIsWalked(job, p, ids, idx, names);
      }
    }
  }

  /** A complete run reads exactly the directories trails shorter than the limit lead to, at the trails' lengths. */
  lemma ReadsExactly(job: Job, s: State, d: Id, n: nat)
    requires Complete(job, s)
    ensures Read(d, n) in s.history <==> Reaches(job, d, n)
  {
    WalkIsComplete(job, s);
    InWalk(job, Read(d, n));
    forall p | p in job.cfg.paths && Seeded(job, p)
      ensures Read(d, n) in WalkRoot(job, RootTask(job, p)) <==>
              && (job.cfg.maxDepth.Some? ==> n < job.cfg.maxDepth.value)
              && exists ids, idx, names :: Taken(job, p, ids, idx, names) && |idx| == n && ids[n] == d
    {
      ReadBelow(job, p, d, n);
    }
  }

  /** Whatever a trail shorter than the limit leads to is read, revisits or not, and no later than there. */
  lemma NothingUnread(job: Job, s: State, p: Path, ids: seq<Id>, idx: seq<nat>, names: seq<Name>) returns (n: nat)
    requires Complete(job, s) && Trail(job, p, ids, idx, names)
    requires job.cfg.maxDepth.Some? ==> |idx| < job.cfg.maxDepth.value
    ensures n <= |idx| && Read(ids[|idx|], n) in s.history
  {
    TrailIsRoute(job, p, ids, idx, names);
    n := EveryDirectoryIsRead(job, s, p, ids, idx);
  }

  // ----- What is written -----

  lemma ShownIsEnd(job: Plan, p: Path, ids: seq<Id>, idx: seq<nat>, i: nat, e: Entry)
    requires p in job.cfg.paths && Seeded(job, p)
    requires Walked(job, RootTask(job, p), ids, idx) && ShownAlong(job, RootTask(job, p), ids, idx, i, e)
    ensures EndsIn(job, p, ids, idx, Names(job, RootTask(job, p), ids, idx), i, e)
    ensures job.cfg.maxDepth.Some? ==> e.depth <= job.cfg.maxDepth.value
  {
    WalkedIsTaken(job, p, ids, idx);
    ShowsAdmitted(job, ids[|idx|], i, e.ty);
  }

  lemma EndIsShown(job: Plan, p: Path, ids: seq<Id>, idx: seq<nat>, names: seq<Name>, i: nat, e: Entry)
    requires EndsIn(job, p, ids, idx, names, i, e)
    requires job.cfg.maxDepth.Some? ==> e.depth <= job.cfg.maxDepth.value
    ensures Seeded(job, p) && Walked(job, RootTask(job, p), ids, idx)
    ensures ShownAlong(job, RootTask(job, p), ids, idx, i, e)
  {
    TakenIsWalked(job, p, ids, idx, names);
    ShowsAdmitted(job, ids[|idx|], i, e.ty);
  }

  lemma FoundIsFinds(job: Plan, p: Path, e: Entry)
    requires p in job.cfg.paths && Seeded(job, p)
    ensures FoundUnder(job, RootTask(job, p), e) <==> Finds(job, p, e)
  {
    var t := RootTask(job, p);
    if ids: seq<Id>, idx: seq<nat>, i: nat :| Walked(job, t, ids, idx) && ShownAlong(job, t, ids, idx, i, e) {
      ShownIsEnd(job, p, ids, idx, i, e);
    }
    if job.cfg.maxDepth.Some? ==> e.depth <= job.cfg.maxDepth.value {
      forall ids, idx, names, i | EndsIn(job, p, ids, idx, names, i, e)
        ensures Walked(job, t, ids, idx) && ShownAlong(job, t, ids, idx, i, e)
      {
        EndIsShown(job, p, ids, idx, names, i, e);
      }
    }
  }

  lemma EmittedIsFound(job: Job, p: Path, e: Entry)
    requires p in job.cfg.paths && Seeded(job, p)
    ensures Emit(e) in WalkRoot(job, RootTask(job, p)) <==> job.cfg.keep(e) && Finds(job, p, e)
  {
    EmitIffShown(job, RootTask(job, p), e);
    FoundIsFinds(job, p, e);
  }

  /** The matching entries: those the filters keep among the given paths and what is found below them. */
  lemma MatchesAreFound(job: Job, e: Entry)
    ensures e in Matching(job) <==> job.cfg.keep(e) && exists p :: Finds(job, p, e)
  {
    InWalk(job, Emit(e));
    if p :| p in job.cfg.paths && Seeded(job, p) && Emit(e) in WalkRoot(job, RootTask(job, p)) {
      EmittedIsFound(job, p, e);
    }
    if job.cfg.keep(e) {
      forall p | Finds(job, p, e)
        ensures Seeded(job, p) && Emit(e) in WalkRoot(job, RootTask(job, p))
      {
        EmittedIsFound(job, p, e);
      }
    }
  }

  /** A complete run writes exactly the entries that pass the filters and are found under some given path. */
  lemma WritesExactly(job: Job, s: State, e: Entry)
    requires Complete(job, s)
    ensures e in Written(s) <==> job.cfg.keep(e) && exists p :: Finds(job, p, e)
  {
    RunsRefineWalk(job, s);
    MatchesAreFound(job, e);
  }

  // ----- How often -----

  /** The paths among `paths` under which `e` is found. */
  ghost function Finding(job: Plan, paths: seq<Path>, e: Entry): set<Path> {
    set p | p in paths && Finds(job, p, e)
  }

  lemma OneMorePath(job: Plan, front: seq<Path>, p: Path, e: Entry)
    requires p !in front
    ensures |Finding(job, front + [p], e)| == |Finding(job, front, e)| + if Finds(job, p, e) then 1 else 0
  {
    var before := Finding(job, front, e);
    assert Finding(job, front + [p], e) == if Finds(job, p, e) then before + {p} else before;
  }

  lemma {:induction false} FindersSplit(job: Plan, a: seq<Task>, t: Task, e: Entry)
    ensures Finders(job, a + [t], e) == Finders(job, a, e) + if FoundUnder(job, t, e) then 1 else 0
    decreases |a|
  {
    if a == [] {
      assert a + [t] == [t] && [t][1..] == [];
    } else {
      assert (a + [t])[1..] == a[1..] + [t];
      FindersSplit(job, a[1..], t, e);
    }
  }

  lemma OneMoreRoot(job: Plan, front: seq<Path>, p: Path, e: Entry)
    requires p in job.cfg.paths
    ensures Finders(job, RootTasks(job, front + [p]), e)
            == Finders(job, RootTasks(job, front), e) + if Finds(job, p, e) then 1 else 0
  {
    assert (front + [p])[..|front|] == front;
    if Seeded(job, p) {
      FindersSplit(job, RootTasks(job, front), RootTask(job, p), e);
      FoundIsFinds(job, p, e);
    }
  }

  lemma {:induction false} CountFinders(job: Plan, paths: seq<Path>, e: Entry)
    requires Distinct(paths) && forall p | p in paths :: p in job.cfg.paths
    ensures Finders(job, RootTasks(job, paths), e) == |Finding(job, paths, e)|
    decreases |paths|
  {
    if paths != [] {
      var n := |paths| - 1;
      CountFinders(job, paths[..n], e);
      assert paths == paths[..n] + [paths[n]] && paths[n] !in paths[..n];
      OneMorePath(job, paths[..n], paths[n], e);
      OneMoreRoot(job, paths[..n], paths[n], e);
    }
  }

  /** An entry matches as often as there are distinct given paths it is found under, if the filters keep it. */
  lemma MatchesOncePerPath(job: Job, e: Entry)
    requires NamesUnique(job.fs)
    ensures Matching(job)[e] == if job.cfg.keep(e) then |Finding(job, job.cfg.paths, e)| else 0
  {
    if job.cfg.keep(e) {
      var unique := Unique(job.cfg.paths);
      UniqueIsDistinct(job.cfg.paths);
      forall p ensures p in unique <==> p in job.cfg.paths {
        InUnique(job.cfg.paths, p);
      }
      forall t | t in Roots(job) ensures IsRoot(job, t) {
        InRootTasks(job, unique, t);
      }
      RootsCount(job, Roots(job), e);
      CountFinders(job, unique, e);
      assert Finding(job, unique, e) == Finding(job, job.cfg.paths, e);
    } else {
      MatchesAreFound(job, e);
    }
  }

  /** Every matching entry is written once for every distinct given path it is found under. */
  lemma WrittenOncePerPath(job: Job, s: State, e: Entry)
    requires Complete(job, s) && NamesUnique(job.fs)
    ensures Written(s)[e] == if job.cfg.keep(e) then |Finding(job, job.cfg.paths, e)| else 0
  {
    RunsRefineWalk(job, s);
    MatchesOncePerPath(job, e);
  }
}
