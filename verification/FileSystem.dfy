/** The immutable world a walk runs against: a directory snapshot and the run's options. */
module FileSystem {

  datatype Option<+T> = None | Some(value: T)

  /** A path is the sequence of its components, so joining a name appends one component. */
  type Name = string
  type Path = seq<Name>

  /** The (device, inode) identity of a directory. */
  datatype Id = Id(dev: nat, ino: nat)

  datatype EntryType = File | Dir | Symlink | BlockDevice | CharDevice | Fifo | Socket

  /** What the visitor is handed for every entry the walk reaches. */
  datatype Entry = Entry(path: Path, ty: EntryType, depth: nat)

  /**
   * One record of a directory stream. `dtype` is the type the stream reports (None: unknown),
   * `lstat` the answer of the fallback stat. `plain` and `linked` are the directories an open
   * yields without and with resolving a final symlink; None is any failure to open or identify.
   */
  datatype Record = Record(name: Name, dtype: Option<EntryType>, lstat: Option<EntryType>,
                           plain: Option<Id>, linked: Option<Id>)

  /** A command-line path: what stat and open answer for it, both resolving a final symlink. */
  datatype RootInfo = RootInfo(stat: Option<Id>, dir: Option<Id>)

  /** `dirs[d]` is the record stream of `d` up to the first read error. */
  datatype Snapshot = Snapshot(dirs: map<Id, seq<Record>>, roots: map<Path, RootInfo>)

  /**
   * `exclude` is the --exclude glob set, `keep` the conjunction of the visitor's filters. The program
   * has `pruning` on; off, subdirectories that could not read their records are queued as well.
   */
  datatype Config = Config(paths: seq<Path>, threads: nat, follow: bool, oneFilesystem: bool, pruning: bool,
                           maxDepth: Option<nat>, limited: bool, maxResults: Option<nat>,
                           exclude: Name -> bool, keep: Entry -> bool)

  datatype Plan = Plan(fs: Snapshot, cfg: Config)

  function Listing(fs: Snapshot, d: Id): seq<Record> {
    if d in fs.dirs then fs.dirs[d] else []
  }

  /** The type an entry is given: the stream's own, else the fallback stat's. */
  function Resolved(r: Record): Option<EntryType> {
    if r.dtype.Some? then r.dtype else r.lstat
  }

  function RankIn(rank: map<Id, nat>, d: Id): nat {
    if d in rank then rank[d] else 0
  }

  ghost predicate IsRank(fs: Snapshot, rank: map<Id, nat>) {
    forall d, r | d in fs.dirs && r in fs.dirs[d] ::
      Resolved(r) == Some(Dir) && r.plain.Some? ==> RankIn(rank, r.plain.value) < RankIn(rank, d)
  }

  /** Real directories form no cycle: some rank falls along every real-directory edge. */
  ghost predicate Acyclic(fs: Snapshot) {
    exists rank: map<Id, nat> :: IsRank(fs, rank)
  }

  /** A run: at least one thread, and acyclic real directories unless symlinks are followed. */
  ghost predicate Sound(p: Plan) {
    p.cfg.threads >= 1 && (p.cfg.follow || Acyclic(p.fs))
  }

  ghost function IdlePlan(): (p: Plan)
    ensures Sound(p)
  {
    Plan(Snapshot(map[], map[]),
         Config([], 1, true, true, true, None, false, None, (n: Name) => false, (e: Entry) => true))
  }

  type Job = p: Plan | Sound(p) ghost witness IdlePlan()
}
