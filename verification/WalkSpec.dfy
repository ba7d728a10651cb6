/** What a walk is for: the events of a recursive, single-threaded descent. */
module WalkSpec {
  import opened FileSystem

  /**
   * A directory still to be descended into. `target` is the directory its open yields.
   * `ancestors` stays empty unless symlinks are followed.
   */
  datatype Task = Task(path: Path, target: Option<Id>, depth: nat, rootDev: nat, ancestors: seq<Id>)

  /** A kept entry reaches the pipeline, a directory is read, one stream record is consumed. */
  datatype Event = Emit(entry: Entry) | Read(dir: Id, depth: nat) | Scan

  predicate DepthReached(job: Plan, depth: nat) {
    job.cfg.maxDepth.Some? && depth >= job.cfg.maxDepth.value
  }

  /** The checks on an opened directory: same filesystem, not its own ancestor. */
  function Entered(job: Plan, t: Task): Option<Id> {
    if t.target.None? then None
    else if job.cfg.oneFilesystem && t.target.value.dev != t.rootDev then None
    else if job.cfg.follow && t.target.value in t.ancestors then None
    else t.target
  }

  /** The directory task `t` reads, if any. */
  function Opened(job: Plan, t: Task): Option<Id> {
    if DepthReached(job, t.depth) then None else Entered(job, t)
  }

  /** The type under which a record is shown to the visitor; None when it is skipped. */
  function Admitted(job: Plan, r: Record): Option<EntryType> {
    if r.name == "." || r.name == ".." then None
    else if Resolved(r).None? then None
    else if job.cfg.exclude(r.name) then None
    else Resolved(r)
  }

  predicate DescendsInto(job: Plan, ty: EntryType) {
    ty == Dir || (ty == Symlink && job.cfg.follow)
  }

  function TargetOf(r: Record, ty: EntryType): Option<Id> {
    if ty == Symlink then r.linked else r.plain
  }

  function Stream(job: Plan, t: Task): seq<Record> {
    var o := Opened(job, t);
    if o.None? then [] else Listing(job.fs, o.value)
  }

  predicate ShownAt(job: Plan, t: Task, i: nat) {
    i < |Stream(job, t)| && Admitted(job, Stream(job, t)[i]).Some?
  }

  function EntryAt(job: Plan, t: Task, i: nat): Entry
    requires ShownAt(job, t, i)
  {
    var r := Stream(job, t)[i];
    Entry(t.path + [r.name], Admitted(job, r).value, t.depth + 1)
  }

  predicate DescendsAt(job: Plan, t: Task, i: nat) {
    ShownAt(job, t, i) && DescendsInto(job, EntryAt(job, t, i).ty)
  }

  function ChildAt(job: Plan, t: Task, i: nat): Task
    requires DescendsAt(job, t, i)
  {
    var e := EntryAt(job, t, i);
    Task(e.path, TargetOf(Stream(job, t)[i], e.ty), e.depth, t.rootDev,
         if job.cfg.follow then t.ancestors + [Opened(job, t).value] else [])
  }

  // ----- Termination -----

  ghost function Rank(job: Job): (rank: map<Id, nat>)
    ensures job.cfg.follow || IsRank(job.fs, rank)
  {
    if job.cfg.follow then map[] else var rank: map<Id, nat> :| IsRank(job.fs, rank); rank
  }

  ghost function SetOf<T>(s: seq<T>): set<T> {
    set x | x in s
  }

  /** Bounds how deep the descent below `t` can still go. */
  ghost function Height(job: Job, t: Task): nat {
    if t.target.None? then 0
    else if job.cfg.follow then 1 + |job.fs.dirs.Keys - SetOf(t.ancestors)|
    else 1 + RankIn(Rank(job), t.target.value)
  }

  /** Well-founded descent, on arbitrary link graphs: a child's height is strictly smaller. */
  lemma HeightDrops(job: Job, t: Task, i: nat)
    requires DescendsAt(job, t, i)
    ensures Height(job, ChildAt(job, t, i)) < Height(job, t)
  {
    var c := ChildAt(job, t, i);
    var d := Opened(job, t).value;
    if job.cfg.follow {
      var before := job.fs.dirs.Keys - SetOf(t.ancestors);
      assert d in before;
      assert job.fs.dirs.Keys - SetOf(c.ancestors) == before - {d};
    } else {
      var r := Stream(job, t)[i];
      assert r in job.fs.dirs[d];
      assert Resolved(r) == Some(Dir);
    }
  }

  // ----- The recursive walk -----

  ghost function Shown(job: Plan, e: Entry): multiset<Event> {
    if job.cfg.keep(e) then multiset{Emit(e)} else multiset{}
  }

  /** Everything the descent of `t` does: it reads its directory, then its records in order. */
  ghost function Below(job: Job, t: Task): multiset<Event>
    decreases Height(job, t), 2, 0
  {
    if Opened(job, t).None? then multiset{}
    else multiset{Read(Opened(job, t).value, t.depth)} + Records(job, t, 0)
  }

  /** What the records of `t` from the `i`-th on give rise to. */
  ghost function Records(job: Job, t: Task, i: nat): multiset<Event>
    decreases Height(job, t), 1, |Stream(job, t)| - i
  {
    if i >= |Stream(job, t)| then multiset{}
    else
      multiset{Scan}
      + (if ShownAt(job, t, i) then Shown(job, EntryAt(job, t, i)) else multiset{})
      + ChildBelow(job, t, i)
      + Records(job, t, i + 1)
  }

  ghost function ChildBelow(job: Job, t: Task, i: nat): multiset<Event>
    decreases Height(job, t), 0, 0
  {
    if DescendsAt(job, t, i) then
      HeightDrops(job, t, i);
      Below(job, ChildAt(job, t, i))
    else multiset{}
  }

  // ----- Roots -----

  /** The first occurrence of every path, in order. */
  function Unique(paths: seq<Path>): seq<Path> {
    if paths == [] then []
    else
      var front := Unique(paths[..|paths| - 1]);
      if paths[|paths| - 1] in front then front else front + [paths[|paths| - 1]]
  }

  /** A path is walked when its identity can be read. */
  predicate Seeded(job: Plan, p: Path) {
    p in job.fs.roots && job.fs.roots[p].stat.Some?
  }

  function RootTask(job: Plan, p: Path): Task
    requires Seeded(job, p)
  {
    Task(p, job.fs.roots[p].dir, 0, job.fs.roots[p].stat.value.dev, [])
  }

  function RootTasks(job: Plan, paths: seq<Path>): seq<Task> {
    if paths == [] then []
    else
      var front := RootTasks(job, paths[..|paths| - 1]);
      var p := paths[|paths| - 1];
      if Seeded(job, p) then front + [RootTask(job, p)] else front
  }

  function Roots(job: Plan): seq<Task> {
    RootTasks(job, Unique(job.cfg.paths))
  }

  /** A root is emitted as a directory before it is opened. */
  function RootEntry(t: Task): Entry {
    Entry(t.path, Dir, t.depth)
  }

  ghost function WalkRoot(job: Job, t: Task): multiset<Event> {
    Shown(job, RootEntry(t)) + Below(job, t)
  }

  ghost function WalkRoots(job: Job, ts: seq<Task>): multiset<Event> {
    if ts == [] then multiset{} else WalkRoot(job, ts[0]) + WalkRoots(job, ts[1..])
  }

  /** The whole walk: the sum over the distinct roots whose identity can be read. */
  ghost function Walk(job: Job): multiset<Event> {
    WalkRoots(job, Roots(job))
  }
}
