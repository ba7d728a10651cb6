/** Which directories a walk reads and which entries it emits, said without the recursion. */
module Routes {
  import opened FileSystem
  import opened WalkSpec

  // ----- Routes through the snapshot -----

  predicate Allowed(job: Plan, rootDev: nat, d: Id) {
    job.cfg.oneFilesystem ==> d.dev == rootDev
  }

  /** Record `i` of directory `d` may be descended through, into `d'`. */
  predicate Permits(job: Plan, rootDev: nat, d: Id, i: nat, d': Id) {
    i < |Listing(job.fs, d)| &&
    var r := Listing(job.fs, d)[i];
    Admitted(job, r).Some? && DescendsInto(job, Admitted(job, r).value) &&
    TargetOf(r, Admitted(job, r).value) == Some(d') && Allowed(job, rootDev, d')
  }

  /** `ids` are the directories met from `t` on when the records `idx` are followed in turn. */
  ghost predicate Route(job: Plan, t: Task, ids: seq<Id>, idx: seq<nat>) {
    && |ids| == |idx| + 1
    && t.target == Some(ids[0]) && Allowed(job, t.rootDev, ids[0])
    && forall j | 0 <= j < |idx| :: Permits(job, t.rootDev, ids[j], idx[j], ids[j + 1])
  }

  ghost predicate Distinct<T(!new)>(s: seq<T>) {
    forall i, j | 0 <= i < j < |s| :: s[i] != s[j]
  }

  /** A route the walk takes to its end: short enough and, with links followed, revisiting nothing. */
  ghost predicate Walked(job: Plan, t: Task, ids: seq<Id>, idx: seq<nat>) {
    && Route(job, t, ids, idx)
    && (job.cfg.maxDepth.Some? ==> t.depth + |idx| < job.cfg.maxDepth.value)
    && (job.cfg.follow ==> Distinct(t.ancestors + ids))
  }

  /** The names met along a route. */
  ghost function Names(job: Plan, t: Task, ids: seq<Id>, idx: seq<nat>): (names: seq<Name>)
    requires Route(job, t, ids, idx)
    ensures |names| == |idx|
  {
    seq(|idx|, j requires 0 <= j < |idx| =>
      assert Permits(job, t.rootDev, ids[j], idx[j], ids[j + 1]);
      Listing(job.fs, ids[j])[idx[j]].name)
  }

  /** `e` is what record `i` of the route's last directory shows. */
  ghost predicate ShownAlong(job: Plan, t: Task, ids: seq<Id>, idx: seq<nat>, i: nat, e: Entry)
    requires Route(job, t, ids, idx)
  {
    var last := Listing(job.fs, ids[|idx|]);
    i < |last| && Admitted(job, last[i]) == Some(e.ty) &&
    e.path == t.path + Names(job, t, ids, idx) + [last[i].name] &&
    e.depth == t.depth + |idx| + 1
  }

  // ----- Tasks of the recursive walk, addressed by record indices -----

  ghost function TaskAt(job: Plan, t: Task, idx: seq<nat>): Option<Task>
    decreases |idx|
  {
    if idx == [] then Some(t)
    else if DescendsAt(job, t, idx[0]) then TaskAt(job, ChildAt(job, t, idx[0]), idx[1..])
    else None
  }

  /** An event of `u` itself: reading its directory or showing one of its records. */
  ghost predicate Own(job: Plan, u: Task, ev: Event) {
    Opened(job, u).Some? && (
      || ev == Read(Opened(job, u).value, u.depth)
      || exists i: nat :: ShownAt(job, u, i) && job.cfg.keep(EntryAt(job, u, i)) && ev == Emit(EntryAt(job, u, i)))
  }

  /** An event of record `i` itself, or of what is below it. */
  ghost predicate OfRecord(job: Job, t: Task, i: nat, ev: Event) {
    ev in ChildBelow(job, t, i) || (ShownAt(job, t, i) && ev in Shown(job, EntryAt(job, t, i)))
  }

  lemma OneRecord(job: Job, t: Task, i: nat, ev: Event)
    requires i < |Stream(job, t)| && ev != Scan
    ensures ev in Records(job, t, i) <==> OfRecord(job, t, i, ev) || ev in Records(job, t, i + 1)
  {
  }

  lemma {:induction false} RecordsCover(job: Job, t: Task, i: nat, k: nat, ev: Event)
    requires i <= k < |Stream(job, t)| && ev != Scan && OfRecord(job, t, k, ev)
    ensures ev in Records(job, t, i)
    decreases k - i
  {
    OneRecord(job, t, i, ev);
    if i < k {
      RecordsCover(job, t, i + 1, k, ev);
    }
  }

  lemma {:induction false} LocateRecord(job: Job, t: Task, i: nat, ev: Event) returns (k: nat)
    requires ev in Records(job, t, i) && ev != Scan
    ensures i <= k < |Stream(job, t)| && OfRecord(job, t, k, ev)
    decreases |Stream(job, t)| - i
  {
    OneRecord(job, t, i, ev);
    if OfRecord(job, t, i, ev) {
      k := i;
    } else {
      k := LocateRecord(job, t, i + 1, ev);
    }
  }

  lemma {:induction false} OwnEventsOccur(job: Job, t: Task, idx: seq<nat>, ev: Event)
    requires TaskAt(job, t, idx).Some? && Own(job, TaskAt(job, t, idx).value, ev)
    ensures ev in Below(job, t)
    decreases |idx|
  {
    if idx == [] {
      if ev.Emit? {
        var i: nat :| ShownAt(job, t, i) && job.cfg.keep(EntryAt(job, t, i)) && ev == Emit(EntryAt(job, t, i));
        RecordsCover(job, t, 0, i, ev);
      }
    } else {
      OwnEventsOccur(job, ChildAt(job, t, idx[0]), idx[1..], ev);
      RecordsCover(job, t, 0, idx[0], ev);
    }
  }

  lemma {:induction false} EventsAreOwned(job: Job, t: Task, ev: Event) returns (idx: seq<nat>)
    requires ev in Below(job, t) && ev != Scan
    ensures TaskAt(job, t, idx).Some? && Own(job, TaskAt(job, t, idx).value, ev)
    decreases Height(job, t)
  {
    if ev == Read(Opened(job, t).value, t.depth) {
      idx := [];
    } else {
      var k := LocateRecord(job, t, 0, ev);
      if ev in ChildBelow(job, t, k) {
        HeightDrops(job, t, k);
        var rest := EventsAreOwned(job, ChildAt(job, t, k), ev);
        idx := [k] + rest;
        assert idx[1..] == rest;
      } else {
        idx := [];
      }
    }
  }

  // ----- Addresses are walked routes -----

  /** A walked route from a child is one from its parent, a step longer. */
  lemma RouteLonger(job: Plan, t: Task, i: nat, ids: seq<Id>, idx: seq<nat>)
    requires DescendsAt(job, t, i) && Walked(job, ChildAt(job, t, i), ids, idx)
    ensures Walked(job, t, [Opened(job, t).value] + ids, [i] + idx)
  {
    var c, d := ChildAt(job, t, i), Opened(job, t).value;
    var ids', idx' := [d] + ids, [i] + idx;
    assert t.ancestors + ids' == (t.ancestors + [d]) + ids;
    forall j | 0 <= j < |idx'| ensures Permits(job, t.rootDev, ids'[j], idx'[j], ids'[j + 1]) {
      if j > 0 {
        assert Permits(job, c.rootDev, ids[j - 1], idx[j - 1], ids[j]);
      }
    }
  }

  lemma {:induction false} RouteOfTask(job: Plan, t: Task, idx: seq<nat>) returns (ids: seq<Id>)
    requires TaskAt(job, t, idx).Some? && Opened(job, TaskAt(job, t, idx).value).Some?
    requires Distinct(t.ancestors)
    ensures Walked(job, t, ids, idx)
    ensures ids[|idx|] == Opened(job, TaskAt(job, t, idx).value).value
    decreases |idx|
  {
    if idx == [] {
      ids := [t.target.value];
    } else {
      ChildDistinct(job, t, idx[0]);
      var rest := RouteOfTask(job, ChildAt(job, t, idx[0]), idx[1..]);
      RouteLonger(job, t, idx[0], rest, idx[1..]);
      assert idx == [idx[0]] + idx[1..];
      ids := [Opened(job, t).value] + rest;
    }
  }

  /** A walked route opens its first directory. */
  lemma RouteOpens(job: Plan, t: Task, ids: seq<Id>, idx: seq<nat>)
    requires Walked(job, t, ids, idx)
    ensures Opened(job, t) == Some(ids[0])
  {
    if job.cfg.follow {
      assert forall i | 0 <= i < |t.ancestors| :: t.ancestors[i] == (t.ancestors + ids)[i];
      assert (t.ancestors + ids)[|t.ancestors|] == ids[0] && ids[0] !in t.ancestors;
    }
  }

  /** Without its first step it is a walked route from the child. */
  lemma RouteTail(job: Plan, t: Task, ids: seq<Id>, idx: seq<nat>)
    requires Walked(job, t, ids, idx) && idx != []
    ensures DescendsAt(job, t, idx[0])
    ensures var c := ChildAt(job, t, idx[0]);
            && Walked(job, c, ids[1..], idx[1..])
            && Names(job, t, ids, idx) == [Listing(job.fs, ids[0])[idx[0]].name] + Names(job, c, ids[1..], idx[1..])
  {
    RouteOpens(job, t, ids, idx);
    assert Permits(job, t.rootDev, ids[0], idx[0], ids[1]);
    var c := ChildAt(job, t, idx[0]);
    assert t.ancestors + ids == (t.ancestors + [ids[0]]) + ids[1..];
    forall j | 0 <= j < |idx[1..]|
      ensures Permits(job, c.rootDev, ids[1..][j], idx[1..][j], ids[1..][j + 1])
    {
      assert Permits(job, t.rootDev, ids[j + 1], idx[j + 1], ids[j + 2]);
    }
  }

  lemma {:induction false} TaskOfRoute(job: Plan, t: Task, ids: seq<Id>, idx: seq<nat>)
    requires Walked(job, t, ids, idx)
    ensures TaskAt(job, t, idx).Some?
    ensures var u := TaskAt(job, t, idx).value;
            && Opened(job, u) == Some(ids[|idx|])
            && u.path == t.path + Names(job, t, ids, idx) && u.depth == t.depth + |idx|
    decreases |idx|
  {
    RouteOpens(job, t, ids, idx);
    if idx != [] {
      RouteTail(job, t, ids, idx);
      TaskOfRoute(job, ChildAt(job, t, idx[0]), ids[1..], idx[1..]);
    }
  }

  // ----- Main results about one task's walk -----

  /** A directory is read exactly when a walked route leads to it, at the route's length. */
  lemma ReadIffWalked(job: Job, t: Task, d: Id, depth: nat)
    requires Distinct(t.ancestors)
    ensures Read(d, depth) in Below(job, t) <==>
            exists ids, idx :: Walked(job, t, ids, idx) && ids[|idx|] == d && depth == t.depth + |idx|
  {
    if Read(d, depth) in Below(job, t) {
      var idx := EventsAreOwned(job, t, Read(d, depth));
      var ids := RouteOfTask(job, t, idx);
      TaskOfRoute(job, t, ids, idx);
      assert Walked(job, t, ids, idx) && ids[|idx|] == d && depth == t.depth + |idx|;
    }
    forall ids, idx | Walked(job, t, ids, idx) && ids[|idx|] == d && depth == t.depth + |idx|
      ensures Read(d, depth) in Below(job, t)
    {
      TaskOfRoute(job, t, ids, idx);
      OwnEventsOccur(job, t, idx, Read(d, depth));
    }
  }

  /**
   * Depth and pruning: an entry is emitted exactly when it passes the filters and is a
   * non-excluded record of a directory some walked route leads to. Its path spells the route.
   */
  lemma EmitIffShown(job: Job, t: Task, e: Entry)
    requires Distinct(t.ancestors)
    ensures Emit(e) in Below(job, t) <==>
            job.cfg.keep(e) &&
            exists ids, idx, i :: Walked(job, t, ids, idx) && ShownAlong(job, t, ids, idx, i, e)
  {
    if Emit(e) in Below(job, t) {
      var idx := EventsAreOwned(job, t, Emit(e));
      var u := TaskAt(job, t, idx).value;
      var i: nat :| ShownAt(job, u, i) && job.cfg.keep(EntryAt(job, u, i)) && Emit(e) == Emit(EntryAt(job, u, i));
      var ids := RouteOfTask(job, t, idx);
      TaskOfRoute(job, t, ids, idx);
      assert ShownAlong(job, t, ids, idx, i, e);
    }
    if job.cfg.keep(e) {
      forall ids, idx, i | Walked(job, t, ids, idx) && ShownAlong(job, t, ids, idx, i, e)
        ensures Emit(e) in Below(job, t)
      {
        TaskOfRoute(job, t, ids, idx);
        var u := TaskAt(job, t, idx).value;
        assert ShownAt(job, u, i) && EntryAt(job, u, i) == e;
        OwnEventsOccur(job, t, idx, Emit(e));
      }
    }
  }

  // ----- Cutting cycles loses no directory -----

  lemma {:induction false} Shorten(job: Plan, t: Task, ids: seq<Id>, idx: seq<nat>)
    returns (ids': seq<Id>, idx': seq<nat>)
    requires Route(job, t, ids, idx)
    ensures Route(job, t, ids', idx') && Distinct(ids')
    ensures |idx'| <= |idx| && ids'[|idx'|] == ids[|idx|]
    decreases |idx|
  {
    if Distinct(ids) {
      ids', idx' := ids, idx;
    } else {
      var i, j :| 0 <= i < j < |ids| && ids[i] == ids[j];
      var cutIds, cutIdx := ids[..i] + ids[j..], idx[..i] + idx[j..];
      forall k | 0 <= k < |cutIdx|
        ensures Permits(job, t.rootDev, cutIds[k], cutIdx[k], cutIds[k + 1])
      {
        var k' := if k < i then k else k + (j - i);
        assert Permits(job, t.rootDev, ids[k'], idx[k'], ids[k' + 1]);
      }
      ids', idx' := Shorten(job, t, cutIds, cutIdx);
    }
  }

  /**
   * Every directory reachable from a root in k permitted steps, k within the limit on directory
   * reads, is read at depth at most k, although paths revisiting an ancestor are cut.
   */
  lemma NoDirectoryLost(job: Job, p: Path, ids: seq<Id>, idx: seq<nat>) returns (depth: nat)
    requires Seeded(job, p) && Route(job, RootTask(job, p), ids, idx)
    requires job.cfg.maxDepth.Some? ==> |idx| < job.cfg.maxDepth.value
    ensures depth <= |idx| && Read(ids[|idx|], depth) in Below(job, RootTask(job, p))
  {
    var t := RootTask(job, p);
    var ids', idx' := Shorten(job, t, ids, idx);
    assert t.ancestors + ids' == ids';
    ReadIffWalked(job, t, ids[|idx|], |idx'|);
    depth := |idx'|;
  }

  // ----- Well-founded descent -----

  ghost predicate Chained(job: Plan, t: Task) {
    && |t.ancestors| == t.depth && Distinct(t.ancestors)
    && SetOf(t.ancestors) <= job.fs.dirs.Keys
  }

  lemma DistinctCount<T(!new)>(s: seq<T>)
    requires Distinct(s)
    ensures |SetOf(s)| == |s|
  {
    if s != [] {
      var front := s[..|s| - 1];
      DistinctCount(front);
      assert SetOf(s) == SetOf(front) + {s[|s| - 1]};
      assert s[|s| - 1] !in front;
    }
  }

  /**
   * With links followed, every task below a root lists as many distinct ancestors as it is deep,
   * so no walk is deeper than there are directories, whatever cycles the links form.
   */
  lemma {:induction false} AncestorsAreDistinct(job: Plan, t: Task, idx: seq<nat>)
    requires job.cfg.follow && Chained(job, t) && TaskAt(job, t, idx).Some?
    ensures Chained(job, TaskAt(job, t, idx).value)
    ensures TaskAt(job, t, idx).value.depth <= |job.fs.dirs|
    decreases |idx|
  {
    if idx == [] {
      DistinctCount(t.ancestors);
      SubsetSize(SetOf(t.ancestors), job.fs.dirs.Keys);
    } else {
      var c := ChildAt(job, t, idx[0]);
      assert SetOf(c.ancestors) == SetOf(t.ancestors) + {Opened(job, t).value};
      AncestorsAreDistinct(job, c, idx[1..]);
    }
  }

  lemma SubsetSize<T>(a: set<T>, b: set<T>)
    requires a <= b
    ensures |a| <= |b|
  {
    if a != {} {
      var x :| x in a;
      SubsetSize(a - {x}, b - {x});
    }
  }

  /** Without links every step of a route goes down the rank of real directories. */
  lemma StepDescends(job: Job, rootDev: nat, d: Id, i: nat, d': Id)
    requires !job.cfg.follow && Permits(job, rootDev, d, i, d')
    ensures RankIn(Rank(job), d') < RankIn(Rank(job), d)
  {
    var r := Listing(job.fs, d)[i];
    assert r in job.fs.dirs[d] && Resolved(r) == Some(Dir);
  }

  lemma {:induction false} RanksFall(job: Job, t: Task, ids: seq<Id>, idx: seq<nat>, i: nat, j: nat)
    requires !job.cfg.follow && Route(job, t, ids, idx) && i < j < |ids|
    ensures RankIn(Rank(job), ids[j]) < RankIn(Rank(job), ids[i])
    decreases j - i
  {
    StepDescends(job, t.rootDev, ids[j - 1], idx[j - 1], ids[j]);
    if i < j - 1 {
      RanksFall(job, t, ids, idx, i, j - 1);
    }
  }

  /** A walked route never meets a directory twice, with links by the cut, without them by rank. */
  lemma WalkedIsSimple(job: Job, t: Task, ids: seq<Id>, idx: seq<nat>)
    requires Walked(job, t, ids, idx) && t.ancestors == []
    ensures Distinct(ids)
  {
    if job.cfg.follow {
      assert t.ancestors + ids == ids;
    } else {
      forall i, j | 0 <= i < j < |ids| ensures ids[i] != ids[j] {
        RanksFall(job, t, ids, idx, i, j);
      }
    }
  }

  /** No walk reads deeper than there are directories, on any snapshot. */
  lemma ReadsAreShallow(job: Job, p: Path, d: Id, depth: nat)
    requires Seeded(job, p) && Read(d, depth) in Below(job, RootTask(job, p))
    ensures depth <= |job.fs.dirs|
  {
    var t := RootTask(job, p);
    ReadIffWalked(job, t, d, depth);
    var ids, idx :| Walked(job, t, ids, idx) && ids[|idx|] == d && depth == t.depth + |idx|;
    WalkedIsSimple(job, t, ids, idx);
    var passed := ids[..|idx|];
    forall x | x in passed ensures x in job.fs.dirs {
      var j :| 0 <= j < |idx| && ids[j] == x;
      assert Permits(job, t.rootDev, ids[j], idx[j], ids[j + 1]);
    }
    DistinctCount(passed);
    SubsetSize(SetOf(passed), job.fs.dirs.Keys);
  }

  // ----- No entry twice below one root -----

  ghost predicate NamesUnique(fs: Snapshot) {
    forall d, i, j | d in fs.dirs && 0 <= i < j < |fs.dirs[d]| :: fs.dirs[d][i].name != fs.dirs[d][j].name
  }

  /** An entry shown from record `i` on lies below `t`, under the name of one of those records. */
  lemma EmittedUnder(job: Job, t: Task, i: nat, e: Entry) returns (k: nat)
    requires Distinct(t.ancestors) && Emit(e) in Records(job, t, i)
    ensures i <= k < |Stream(job, t)|
    ensures t.path < e.path && e.path[|t.path|] == Stream(job, t)[k].name
  {
    k := LocateRecord(job, t, i, Emit(e));
    if Emit(e) in ChildBelow(job, t, k) {
      EmittedBelow(job, t, k, e);
    }
  }

  lemma EmittedBelow(job: Job, t: Task, i: nat, e: Entry)
    requires Distinct(t.ancestors) && Emit(e) in ChildBelow(job, t, i)
    ensures t.path + [Stream(job, t)[i].name] < e.path
  {
    var c := ChildAt(job, t, i);
    EmitIffShown(job, c, e);
    var ids, idx, k :| Walked(job, c, ids, idx) && ShownAlong(job, c, ids, idx, k, e);
  }

  lemma {:induction false} AtMostOnce(job: Job, t: Task, e: Entry)
    requires NamesUnique(job.fs) && Distinct(t.ancestors)
    ensures Below(job, t)[Emit(e)] <= 1
    decreases Height(job, t), |Stream(job, t)| + 1
  {
    if Opened(job, t).Some? {
      RecordsAtMostOnce(job, t, 0, e);
    }
  }

  /** Record `i` on its own accounts for at most one emission of `e`, and only under its name. */
  lemma {:induction false} RecordAtMostOnce(job: Job, t: Task, i: nat, e: Entry)
    requires NamesUnique(job.fs) && Distinct(t.ancestors) && i < |Stream(job, t)|
    requires ChildBelow(job, t, i)[Emit(e)] <= 1
    ensures var own := if ShownAt(job, t, i) then Shown(job, EntryAt(job, t, i)) else multiset{};
            var n := own[Emit(e)] + ChildBelow(job, t, i)[Emit(e)];
            n <= 1 && (n == 1 ==> t.path < e.path && e.path[|t.path|] == Stream(job, t)[i].name)
  {
    if Emit(e) in ChildBelow(job, t, i) {
      EmittedBelow(job, t, i, e);
    }
  }

  lemma ChildDistinct(job: Plan, t: Task, i: nat)
    requires DescendsAt(job, t, i) && Distinct(t.ancestors)
    ensures Distinct(ChildAt(job, t, i).ancestors)
  {
  }

  lemma {:induction false} RecordsAtMostOnce(job: Job, t: Task, i: nat, e: Entry)
    requires NamesUnique(job.fs) && Distinct(t.ancestors)
    ensures Records(job, t, i)[Emit(e)] <= 1
    decreases Height(job, t), |Stream(job, t)| - i
  {
    if i < |Stream(job, t)| {
      RecordsAtMostOnce(job, t, i + 1, e);
      if DescendsAt(job, t, i) {
        HeightDrops(job, t, i);
        ChildDistinct(job, t, i);
        AtMostOnce(job, ChildAt(job, t, i), e);
      }
      RecordAtMostOnce(job, t, i, e);
      if Emit(e) in Records(job, t, i + 1) {
        var k := EmittedUnder(job, t, i + 1, e);
        NamesDiffer(job, t, i, k);
      }
    }
  }

  lemma NamesDiffer(job: Plan, t: Task, i: nat, k: nat)
    requires NamesUnique(job.fs) && i < k < |Stream(job, t)|
    ensures Stream(job, t)[i].name != Stream(job, t)[k].name
  {
  }

  /** Below one root every entry is emitted at most once, the root's own entry included. */
  lemma RootEmitsOnce(job: Job, p: Path, e: Entry)
    requires NamesUnique(job.fs) && Seeded(job, p)
    ensures WalkRoot(job, RootTask(job, p))[Emit(e)] <= 1
  {
    var t := RootTask(job, p);
    AtMostOnce(job, t, e);
    if Emit(e) in Below(job, t) {
      EmitIffShown(job, t, e);
      var ids, idx, i :| Walked(job, t, ids, idx) && ShownAlong(job, t, ids, idx, i, e);
      assert e != RootEntry(t);
    }
  }

  // ----- A path names one entry -----

  lemma RouteFront(job: Plan, t: Task, ids: seq<Id>, idx: seq<nat>)
    requires Route(job, t, ids, idx) && idx != []
    ensures var n := |idx| - 1;
            && Route(job, t, ids[..n + 1], idx[..n]) && Permits(job, t.rootDev, ids[n], idx[n], ids[n + 1])
            && Names(job, t, ids, idx) == Names(job, t, ids[..n + 1], idx[..n]) + [Listing(job.fs, ids[n])[idx[n]].name]
  {
    var n := |idx| - 1;
    forall j | 0 <= j < n ensures Permits(job, t.rootDev, ids[..n + 1][j], idx[..n][j], ids[..n + 1][j + 1]) {
      assert Permits(job, t.rootDev, ids[j], idx[j], ids[j + 1]);
    }
    assert Permits(job, t.rootDev, ids[n], idx[n], ids[n + 1]);
  }

  lemma NamePinsRecord(fs: Snapshot, d: Id, i: nat, j: nat)
    requires NamesUnique(fs) && i < |Listing(fs, d)| && j < |Listing(fs, d)|
    requires Listing(fs, d)[i].name == Listing(fs, d)[j].name
    ensures i == j
  {
  }

  lemma LastStep<T>(s: seq<T>, s': seq<T>, n: nat)
    requires |s| == |s'| == n + 1 && s[..n] == s'[..n] && s[n] == s'[n]
    ensures s == s'
  {
    assert s == s[..n] + [s[n]] && s' == s'[..n] + [s'[n]];
  }

  /** Two routes from the same task that spell the same names are the same route. */
  lemma {:induction false} NamesPinRoute(job: Plan, t: Task, ids: seq<Id>, idx: seq<nat>, ids': seq<Id>, idx': seq<nat>)
    requires NamesUnique(job.fs) && Route(job, t, ids, idx) && Route(job, t, ids', idx')
    requires Names(job, t, ids, idx) == Names(job, t, ids', idx')
    ensures ids == ids' && idx == idx'
    decreases |idx|
  {
    if idx == [] {
      assert idx' == [];
      LastStep(ids, ids', 0);
    } else {
      var n := |idx| - 1;
      RouteFront(job, t, ids, idx);
      RouteFront(job, t, ids', idx');
      LastNames(Names(job, t, ids[..n + 1], idx[..n]), Listing(job.fs, ids[n])[idx[n]].name,
                Names(job, t, ids'[..n + 1], idx'[..n]), Listing(job.fs, ids'[n])[idx'[n]].name);
      NamesPinRoute(job, t, ids[..n + 1], idx[..n], ids'[..n + 1], idx'[..n]);
      LastStepPinned(job, t, ids, idx, ids', idx', n);
    }
  }

  lemma LastNames(a: seq<Name>, x: Name, b: seq<Name>, y: Name)
    requires a + [x] == b + [y]
    ensures a == b && x == y
  {
    assert [] + a + [x] == a + [x] && [] + b + [y] == b + [y];
    SameSpelling([], a, x, b, y);
  }

  lemma LastStepPinned(job: Plan, t: Task, ids: seq<Id>, idx: seq<nat>, ids': seq<Id>, idx': seq<nat>, n: nat)
    requires NamesUnique(job.fs) && |idx| == |idx'| == n + 1 && |ids| == |ids'| == n + 2
    requires ids[..n + 1] == ids'[..n + 1] && idx[..n] == idx'[..n]
    requires Permits(job, t.rootDev, ids[n], idx[n], ids[n + 1])
    requires Permits(job, t.rootDev, ids'[n], idx'[n], ids'[n + 1])
    requires Listing(job.fs, ids[n])[idx[n]].name == Listing(job.fs, ids'[n])[idx'[n]].name
    ensures ids == ids' && idx == idx'
  {
    assert ids[n] == ids[..n + 1][n] && ids'[n] == ids'[..n + 1][n];
    NamePinsRecord(job.fs, ids[n], idx[n], idx'[n]);
    LastStep(idx, idx', n);
    LastStep(ids, ids', n + 1);
  }

  /** Below one root no two emitted entries share a path. */
  lemma PathsAreDistinct(job: Job, p: Path, e: Entry, e': Entry)
    requires NamesUnique(job.fs) && Seeded(job, p) && e.path == e'.path
    requires Emit(e) in WalkRoot(job, RootTask(job, p)) && Emit(e') in WalkRoot(job, RootTask(job, p))
    ensures e == e'
  {
    var t := RootTask(job, p);
    EmitIffShown(job, t, e);
    EmitIffShown(job, t, e');
    if e != RootEntry(t) && e' != RootEntry(t) {
      var ids, idx, i :| Walked(job, t, ids, idx) && ShownAlong(job, t, ids, idx, i, e);
      var ids', idx', i' :| Walked(job, t, ids', idx') && ShownAlong(job, t, ids', idx', i', e');
      ShownPinned(job, t, ids, idx, i, e, ids', idx', i', e');
    }
  }

  lemma ShownPinned(job: Plan, t: Task, ids: seq<Id>, idx: seq<nat>, i: nat, e: Entry,
                    ids': seq<Id>, idx': seq<nat>, i': nat, e': Entry)
    requires NamesUnique(job.fs) && Route(job, t, ids, idx) && Route(job, t, ids', idx')
    requires ShownAlong(job, t, ids, idx, i, e) && ShownAlong(job, t, ids', idx', i', e') && e.path == e'.path
    ensures e == e'
  {
    var names, names' := Names(job, t, ids, idx), Names(job, t, ids', idx');
    SameSpelling(t.path, names, Listing(job.fs, ids[|idx|])[i].name, names', Listing(job.fs, ids'[|idx'|])[i'].name);
    NamesPinRoute(job, t, ids, idx, ids', idx');
    NamePinsRecord(job.fs, ids[|idx|], i, i');
  }

  lemma SameSpelling(p: Path, a: seq<Name>, x: Name, b: seq<Name>, y: Name)
    requires p + a + [x] == p + b + [y]
    ensures a == b && x == y
  {
    var s := p + a + [x];
    assert |s| == |p + b + [y]|;
    assert |a| == |b|;
    assert s[|s| - 1] == x && s[|s| - 1] == y;
    assert s[|p|..|s| - 1] == a && s[|p|..|s| - 1] == b;
  }
}
