/** Before the threads start: distinct roots, and the tasks that seed the injector. */
module Seeding {
  import opened FileSystem
  import opened WalkSpec
  import opened Machine
  import opened Routes
  import opened EndToEnd

  /** The roots as given, each once: a set of those already seen filters the rest. */
  method UniquePaths(paths: seq<Path>) returns (unique: seq<Path>)
    ensures unique == Unique(paths)
  {
    unique := [];
    var seen: set<Path> := {};
    for i := 0 to |paths|
      invariant unique == Unique(paths[..i])
      invariant seen == SetOf(unique)
    {
      assert paths[..i + 1][..i] == paths[..i];
      if paths[i] !in seen {
        seen := seen + {paths[i]};
        unique := unique + [paths[i]];
      }
    }
    assert paths[..|paths|] == paths;
  }

  /** Where `p` first occurs. */
  function First(paths: seq<Path>, p: Path): (i: nat)
    requires p in paths
    ensures i < |paths| && paths[i] == p && p !in paths[..i]
  {
    var n := |paths| - 1;
    if p in paths[..n] then
      var i := First(paths[..n], p);
      assert paths[..n][..i] == paths[..i];
      i
    else n
  }

  /** Deduplication keeps exactly the given paths, no path twice, in order of first occurrence. */
  lemma {:induction false} UniqueKeepsFirsts(paths: seq<Path>)
    ensures SetOf(Unique(paths)) == SetOf(paths) && Distinct(Unique(paths))
    ensures forall p :: p in Unique(paths) <==> p in paths
    ensures var u := Unique(paths);
            forall i, j | 0 <= i < j < |u| :: First(paths, u[i]) < First(paths, u[j])
    decreases |paths|
  {
    forall p ensures p in Unique(paths) <==> p in paths {
      InUnique(paths, p);
    }
    if paths != [] {
      var n := |paths| - 1;
      UniqueKeepsFirsts(paths[..n]);
      var u, front := Unique(paths), Unique(paths[..n]);
      forall i, j | 0 <= i < j < |u| ensures First(paths, u[i]) < First(paths, u[j]) {
        assert u[i] == front[i] && front[i] in paths[..n];
        if j < |front| {
          assert u[j] == front[j] && front[j] in paths[..n];
        }
      }
    }
  }

  /** What a given path with a readable identity is queued as. */
  ghost predicate SeedOf(job: Plan, p: Path, q: QTask) {
    && p in job.fs.roots && job.fs.roots[p].stat.Some?
    && q == QTask(Task(p, job.fs.roots[p].dir, 0, job.fs.roots[p].stat.value.dev, []), None)
  }

  lemma SeedsAreRoots(job: Plan)
    ensures forall q :: q in Queued(Roots(job)) <==> exists p :: p in job.cfg.paths && SeedOf(job, p, q)
    ensures Distinct(Queued(Roots(job)))
  {
    var unique := Unique(job.cfg.paths);
    UniqueKeepsFirsts(job.cfg.paths);
    forall q ensures q in Queued(Roots(job)) <==> exists p :: p in job.cfg.paths && SeedOf(job, p, q) {
      InRootTasks(job, unique, q.task);
      if q in Queued(Roots(job)) {
        assert q.task in Roots(job) && q == QTask(q.task, None);
      }
      if p :| p in job.cfg.paths && SeedOf(job, p, q) {
        assert q.task in Roots(job);
        var i :| 0 <= i < |Roots(job)| && Roots(job)[i] == q.task;
        assert Queued(Roots(job))[i] == q;
      }
    }
    RootTasksDistinct(job, unique);
  }

  lemma {:induction false} RootTasksDistinct(job: Plan, paths: seq<Path>)
    requires Distinct(paths)
    ensures Distinct(RootTasks(job, paths))
    decreases |paths|
  {
    if paths != [] {
      var n := |paths| - 1;
      RootTasksDistinct(job, paths[..n]);
      forall t | t in RootTasks(job, paths[..n]) ensures t.path != paths[n] {
        InRootTasks(job, paths[..n], t);
      }
    }
  }

  /**
   * The seeding loop: a root whose identity cannot be read is skipped, every other one is counted
   * and then queued, with the device its stat reports. Together with idle walkers this is the
   * machine's initial state.
   */
  method Seed(job: Plan) returns (injector: seq<QTask>, pending: nat)
    ensures injector == Init(job).injector && pending == Init(job).pending == |injector|
    ensures forall q :: q in injector <==> exists p :: p in job.cfg.paths && SeedOf(job, p, q)
    ensures Distinct(injector)
  {
    var roots := UniquePaths(job.cfg.paths);
    injector, pending := [], 0;
    for i := 0 to |roots|
      invariant injector == Queued(RootTasks(job, roots[..i])) && pending == |injector|
    {
      assert roots[..i + 1][..i] == roots[..i];
      var root := roots[i];
      if root !in job.fs.roots || job.fs.roots[root].stat.None? {
        continue;
      }
      var task := Task(root, job.fs.roots[root].dir, 0, job.fs.roots[root].stat.value.dev, []);
      pending := pending + 1;
      injector := injector + [QTask(task, None)];
    }
    assert roots[..|roots|] == roots;
    SeedsAreRoots(job);
  }
}
