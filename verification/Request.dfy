/** What the filters ask of an entry, said of its name, its kind and its metadata. */
module Request {
  import opened FileSystem
  import opened Comparisons
  import opened FileTypes
  import opened MetaPredicates
  import opened Perm
  import opened Promise
  import opened Visitor

  // ----- Metadata -----

  /** N, +N, -N of an unsigned field; 2^63 - 1 stands for itself and everything above. */
  predicate Counted(c: Comparison, v: u64) {
    match c
    case Exact(n) => v == n || (n == 0x7fff_ffff_ffff_ffff && v > n)
    case Greater(n) => v > n && n < 0x7fff_ffff_ffff_ffff
    case Less(n) => v < n
  }

  /** N, +N, -N of a size: bytes, or units every begun one of which counts. */
  predicate Sized(c: Comparison, unit: nat, size: u64) {
    if unit == 1 then Counted(c, size)
    else
      match c
      case Exact(n) => (n - 1) * unit < size <= n * unit
      case Greater(n) => size > n * unit
      case Less(n) => size <= (n - 1) * unit
  }

  /** N, +N, -N of whole units between `t` and `now`, as 64 bits hold the seconds between them. */
  predicate Aged(c: Comparison, now: i64, t: i64, unit: nat) {
    var gap := now - t;
    var secs := if gap >= 0x8000_0000_0000_0000 then gap - 0x1_0000_0000_0000_0000
                else if gap < -0x8000_0000_0000_0000 then gap + 0x1_0000_0000_0000_0000 else gap;
    match c
    case Exact(n) => if n > 0 then n * unit <= secs < (n + 1) * unit
                     else if n < 0 then (n - 1) * unit < secs <= n * unit
                     else secs < unit && -secs < unit
    case Greater(n) => if n >= 0 then secs >= (n + 1) * unit else secs > n * unit
    case Less(n) => if n > 0 then secs < n * unit else secs <= (n - 1) * unit
  }

  /** /MODE, -MODE and MODE, bit by bit. */
  ghost predicate Permitted(p: PermPred, mode: bv32) {
    match p.kind
    case AnyOf => p.mode == 0 || Meets(mode, p.mode)
    case AllOf => Includes(mode, p.mode)
    case ExactBits => Agrees(mode, p.mode)
  }

  /** What all the metadata predicates together ask of `m`. */
  ghost predicate MetaAsked(p: Predicates, m: Meta, now: i64, users: nat -> bool, groups: nat -> bool) {
    && (p.size.Some? ==> Sized(p.size.value.cmp, p.size.value.unit, m.size))
    && (forall t | t in p.times ::
          && (t.field == OfMtime ==> Aged(t.cmp, now, m.mtime, t.unit))
          && (t.field == OfCtime ==> Aged(t.cmp, now, m.ctime, t.unit))
          && (t.field == OfAtime ==> Aged(t.cmp, now, m.atime, t.unit)))
    && (p.perm.Some? ==> Permitted(p.perm.value, m.mode))
    && (p.uid.Some? ==> Counted(p.uid.value, m.uid)) && (p.gid.Some? ==> Counted(p.gid.value, m.gid))
    && (p.links.Some? ==> Counted(p.links.value, m.nlink)) && (p.inum.Some? ==> Counted(p.inum.value, m.ino))
    && (forall n | n in p.newer ::
          && (n.field == OfMtime ==> n.refMtime < m.mtime)
          && (n.field == OfCtime ==> n.refMtime < m.ctime)
          && (n.field == OfAtime ==> n.refMtime < m.atime))
    && (p.nouser ==> !users(m.uid)) && (p.nogroup ==> !groups(m.gid))
  }

  /** Units and modes are what the parsers produce. */
  predicate Parsed(p: Predicates) {
    Proper(p) && (p.perm.Some? ==> p.perm.value.mode <= 0xfff)
  }

  lemma CountMeans(c: Comparison, v: u64)
    ensures MatchesU64(c, v) <==> Counted(c, v)
  {
  }

  lemma SizeMeans(p: SizePred, size: u64)
    requires IsUnit(p.unit)
    ensures SizeMatches(p, size) <==> Sized(p.cmp, p.unit, size)
  {
    if p.unit == 1 {
      assert DivCeil(size, 1) == size;
      CountMeans(p.cmp, size);
    } else {
      SizeIntervals(p.cmp.n, p.unit, size);
    }
  }

  /** The age test, on every clock reading: the thresholds of the difference that 64 bits hold. */
  lemma AgeMeans(c: Comparison, now: i64, t: i64, unit: nat)
    requires unit > 0
    ensures AgeMatches(c, now, t, unit) <==> Aged(c, now, t, unit)
  {
    var secs := WrapSub(now, t);
    TruncDivAbove(secs, unit, c.n);
    TruncDivBelow(secs, unit, c.n);
    Negated(unit);
  }

  lemma Negated(unit: nat)
    ensures (0 + 1) * unit == unit && (0 - 1) * unit + unit == 0
  {
  }

  lemma PermMeans(p: PermPred, mode: bv32)
    requires p.mode <= 0xfff
    ensures PermMatches(p, mode) <==> Permitted(p, mode)
  {
    match p.kind
    case ExactBits => ExactMeaning(mode, p.mode);
    case AllOf => AllOfMeaning(mode, p.mode);
    case AnyOf => AnyOfMeaning(mode, p.mode);
  }

  lemma TimesMean(p: Predicates, m: Meta, now: i64)
    requires Proper(p)
    ensures (forall t | t in p.times :: TimeMatches(t, m, now)) <==>
            forall t | t in p.times ::
              && (t.field == OfMtime ==> Aged(t.cmp, now, m.mtime, t.unit))
              && (t.field == OfCtime ==> Aged(t.cmp, now, m.ctime, t.unit))
              && (t.field == OfAtime ==> Aged(t.cmp, now, m.atime, t.unit))
  {
    forall t | t in p.times
      ensures TimeMatches(t, m, now) <==>
              && (t.field == OfMtime ==> Aged(t.cmp, now, m.mtime, t.unit))
              && (t.field == OfCtime ==> Aged(t.cmp, now, m.ctime, t.unit))
              && (t.field == OfAtime ==> Aged(t.cmp, now, m.atime, t.unit))
    {
      AgeMeans(t.cmp, now, TimeIn(m, t.field), t.unit);
    }
  }

  /** The stat-based verdict is what the predicates ask, each in its own terms. */
  lemma VerdictMeans(p: Predicates, m: Meta, now: i64, users: nat -> bool, groups: nat -> bool)
    requires Parsed(p)
    ensures Verdict(p, m, now, users, groups) <==> MetaAsked(p, m, now, users, groups)
  {
    if p.size.Some? {
      SizeMeans(p.size.value, m.size);
    }
    TimesMean(p, m, now);
    if p.perm.Some? {
      PermMeans(p.perm.value, m.mode);
    }
    if p.uid.Some? {
      CountMeans(p.uid.value, m.uid);
    }
    if p.gid.Some? {
      CountMeans(p.gid.value, m.gid);
    }
    if p.links.Some? {
      CountMeans(p.links.value, m.nlink);
    }
    if p.inum.Some? {
      CountMeans(p.inum.value, m.ino);
    }
  }

  // ----- The whole request -----

  /** The path's last component is `name`; the slash and the dots name nothing. */
  predicate NamedLast(path: Path, name: Name) {
    path != [] && path[|path| - 1] == name && name != "/" && name != "." && name != ".."
  }

  /** The name a path goes by: the one it ends in, or else the whole path as it is spelled. */
  ghost predicate GoesBy(world: World, path: Path, name: Name) {
    NamedLast(path, name) || (name == world.spelling(path) && forall n :: !NamedLast(path, n))
  }

  /** `ft` is what the selectors `sel` make. */
  ghost predicate Selected(ft: FileType, sel: seq<Selector>) {
    ft.empty == (Empty in sel) && forall ty :: Selects(ft.selected, ty) <==> Wanted(sel, ty)
  }

  /** The types asked for: those listed, or files and directories if only emptiness is asked of these. */
  predicate TypeAsked(sel: seq<Selector>, ty: EntryType, isEmpty: bool) {
    && (Of(ty) in sel || (ty in {File, Dir} && Empty in sel && Of(File) !in sel && Of(Dir) !in sel))
    && (Empty in sel ==> isEmpty)
  }

  const NO_PREDICATES := Predicates(None, [], None, None, None, None, None, [], false, false)

  /** Everything the command line asks of an entry, given what stat and the other calls answer about it. */
  ghost predicate Requested(fl: Filters, sel: seq<Selector>, world: World, truth: Truth, e: Entry) {
    && e.depth >= fl.minDepth
    && TypeAsked(sel, e.ty, world.isEmpty(e))
    && (fl.name.Some? ==> exists name :: GoesBy(world, e.path, name) && fl.name.value(name))
    && (fl.regex.Some? ==> fl.regex.value(e.path))
    && (fl.path.Some? ==> fl.path.value(e.path))
    && (fl.lname.Some? ==>
          e.ty == Symlink && exists target :: world.readlink(e) == Some(target) && fl.lname.value(target))
    && (fl.meta == NO_PREDICATES
        || exists m :: truth(e) == Some(m) && MetaAsked(fl.meta, m, fl.now, world.users, world.groups))
    && (fl.access != 0 ==> world.access(e, fl.access))
  }

  lemma OneName(world: World, path: Path, name: Name)
    ensures GoesBy(world, path, name) <==> name == FileName(world, path)
  {
    if path != [] && path[|path| - 1] != "/" && path[|path| - 1] != "." && path[|path| - 1] != ".." {
      assert NamedLast(path, path[|path| - 1]);
    }
  }

  lemma NameMeans(fl: Filters, world: World, e: Entry)
    requires fl.name.Some?
    ensures fl.name.value(FileName(world, e.path)) <==>
              exists name :: GoesBy(world, e.path, name) && fl.name.value(name)
  {
    OneName(world, e.path, FileName(world, e.path));
    forall name | GoesBy(world, e.path, name) ensures name == FileName(world, e.path) {
      OneName(world, e.path, name);
    }
  }

  lemma LinkMeans(fl: Filters, world: World, e: Entry)
    ensures LinkStage(fl, world, e) <==>
              (fl.lname.Some? ==>
                 e.ty == Symlink && exists target :: world.readlink(e) == Some(target) && fl.lname.value(target))
  {
    if world.readlink(e).Some? {
      assert world.readlink(e) == Some(world.readlink(e).value);
    }
  }

  lemma MetaMeans(fl: Filters, world: World, truth: Truth, e: Entry)
    requires Parsed(fl.meta)
    ensures MetaStage(fl, world, truth, e) <==>
              fl.meta == NO_PREDICATES
              || exists m :: truth(e) == Some(m) && MetaAsked(fl.meta, m, fl.now, world.users, world.groups)
  {
    if truth(e).Some? {
      VerdictMeans(fl.meta, truth(e).value, fl.now, world.users, world.groups);
      assert truth(e) == Some(truth(e).value);
    }
  }

  /** The visitor's cascade keeps exactly what was requested. */
  lemma KeepMeans(fl: Filters, sel: seq<Selector>, world: World, truth: Truth, e: Entry)
    requires Parsed(fl.meta) && Selected(fl.types, sel)
    ensures Keep(fl, world, truth, e) <==> Requested(fl, sel, world, truth, e)
  {
    TypeStage(sel, fl.types, e.ty, world.isEmpty(e));
    if fl.name.Some? {
      NameMeans(fl, world, e);
    }
    LinkMeans(fl, world, e);
    MetaMeans(fl, world, truth, e);
  }

  // ----- Names along the walk -----

  /** --name judges what the walk shows by the name of its record. */
  lemma NamedByRecord(job: Plan, p: Path, ids: seq<Id>, idx: seq<nat>, names: seq<Name>, i: nat, e: Entry,
                      fl: Filters, world: World)
    requires EndsIn(job, p, ids, idx, names, i, e) && fl.name.Some?
    requires job.fs.dirs[ids[|idx|]][i].name != "/"
    ensures NameStages(fl, world, e) <==>
              fl.name.value(job.fs.dirs[ids[|idx|]][i].name) && NameStages(fl.(name := None), world, e)
  {
  }

  /** A given path is judged by the name it ends in, or, ending in none, as it is spelled. */
  lemma NamedAsGiven(p: Path, name: Name, fl: Filters, world: World)
    requires fl.name.Some? && GoesBy(world, p, name)
    ensures NameStages(fl, world, Entry(p, Dir, 0)) <==>
              fl.name.value(name) && NameStages(fl.(name := None), world, Entry(p, Dir, 0))
  {
    OneName(world, p, name);
  }
}
