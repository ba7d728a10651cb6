/** The whole program: from the filters on the command line to the bytes on standard output. */
module Answer {
  import opened FileSystem
  import opened WalkSpec
  import opened Machine
  import opened Flow
  import opened Invariant
  import opened Routes
  import opened EndToEnd
  import opened Progress
  import opened Output
  import FileTypes
  import MetaPredicates
  import Promise
  import Request
  import Visitor

  /** The run's visitors filter by `fl`. */
  ghost predicate Asks(job: Plan, fl: Visitor.Filters, world: Visitor.World, truth: Visitor.Truth)
    requires MetaPredicates.Proper(fl.meta)
  {
    forall e :: job.cfg.keep(e) == Visitor.Keep(fl, world, truth, e)
  }

  /**
   * What a complete run writes: exactly the entries that are as the command line asks, and that are
   * a given path or found below one.
   */
  lemma RunAnswersRequest(job: Job, fl: Visitor.Filters, sel: seq<FileTypes.Selector>, world: Visitor.World,
                          truth: Visitor.Truth, s: State, e: Entry)
    requires Request.Parsed(fl.meta) && Request.Selected(fl.types, sel)
    requires Asks(job, fl, world, truth) && Complete(job, s)
    ensures e in Written(s) <==> Request.Requested(fl, sel, world, truth, e) && exists p :: Promise.Finds(job, p, e)
  {
    Promise.WritesExactly(job, s, e);
    Request.KeepMeans(fl, sel, world, truth, e);
  }

  /** What is on standard output after `written`. */
  function Stdout(text: Entry -> string, sep: char, written: seq<Tagged>): string {
    Render(Texts(text, Entries(written)), sep)
  }

  lemma {:induction false} TextsClean(text: Entry -> string, es: seq<Entry>, sep: char)
    ensures (forall t | t in Texts(text, es) :: sep !in t) <==> (forall e | e in multiset(es) :: sep !in text(e))
  {
    if forall t | t in Texts(text, es) :: sep !in t {
      forall e | e in multiset(es) ensures sep !in text(e) {
        var i :| 0 <= i < |es| && es[i] == e;
        assert Texts(text, es)[i] == text(e);
      }
    }
    if forall e | e in multiset(es) :: sep !in text(e) {
      forall t | t in Texts(text, es) ensures sep !in t {
        var i :| 0 <= i < |es| && Texts(text, es)[i] == t;
        assert es[i] in multiset(es) && t == text(es[i]);
      }
    }
  }

  /**
   * Read back by splitting at the separator, the output of a complete run is the matching entries'
   * texts, each as often as it matches, in some order, exactly when no matching entry's text
   * contains the separator.
   */
  lemma StdoutIsTheAnswer(job: Job, s: State, text: Entry -> string, sep: char) returns (es: seq<Entry>)
    requires Complete(job, s)
    ensures multiset(es) == Matching(job)
    ensures Pieces(Stdout(text, sep, s.written), sep) == Texts(text, es)
            <==> forall e | e in Matching(job) :: sep !in text(e)
  {
    es := Entries(s.written);
    RunsRefineWalk(job, s);
    OutputReadsBack(Texts(text, es), sep);
    TextsClean(text, es, sep);
  }

  // ----- Paths as the program spells them -----

  /** Joining one component: after a slash, unless the text is empty or ends in one. */
  function Join(front: string, c: Name): string {
    (if front != "" && front[|front| - 1] != '/' then front + "/" else front) + c
  }

  function Spell(p: Path): string {
    if p == [] then "" else if |p| == 1 then p[0] else Join(Spell(p[..|p| - 1]), p[|p| - 1])
  }

  function PathText(e: Entry): string {
    Spell(e.path)
  }

  ghost predicate CleanPath(p: Path, sep: char) {
    forall c | c in p :: sep !in c
  }

  lemma {:induction false} SpellClean(p: Path, sep: char)
    requires sep != '/' && CleanPath(p, sep)
    ensures sep !in Spell(p)
    decreases |p|
  {
    if p != [] {
      var front := p[..|p| - 1];
      forall c | c in front ensures sep !in c {
        assert c in p;
      }
      SpellClean(front, sep);
      assert p[|p| - 1] in p;
    }
  }

  /** Neither a given path nor a name in any directory contains the separator. */
  ghost predicate CleanNames(job: Plan, sep: char) {
    && (forall p | p in job.cfg.paths :: CleanPath(p, sep))
    && forall d, r | d in job.fs.dirs && r in job.fs.dirs[d] :: sep !in r.name
  }

  lemma ListedClean(job: Plan, d: Id, i: nat, sep: char)
    requires CleanNames(job, sep) && i < |Listing(job.fs, d)|
    ensures sep !in Listing(job.fs, d)[i].name
  {
    assert Listing(job.fs, d)[i] in job.fs.dirs[d];
  }

  /** What is found has a path made of given components and names. */
  lemma FoundClean(job: Plan, p: Path, e: Entry, sep: char)
    requires CleanNames(job, sep) && p in job.cfg.paths && Seeded(job, p) && FoundUnder(job, RootTask(job, p), e)
    ensures CleanPath(e.path, sep)
  {
    var t := RootTask(job, p);
    if e != RootEntry(t) {
      var ids: seq<Id>, idx: seq<nat>, i: nat :| Walked(job, t, ids, idx) && ShownAlong(job, t, ids, idx, i, e);
      var names := Names(job, t, ids, idx);
      forall j | 0 <= j < |names| ensures sep !in names[j] {
        assert Permits(job, t.rootDev, ids[j], idx[j], ids[j + 1]);
        ListedClean(job, ids[j], idx[j], sep);
      }
      ListedClean(job, ids[|idx|], i, sep);
      forall c | c in e.path ensures sep !in c {
        assert c in p || c in names || c == Listing(job.fs, ids[|idx|])[i].name;
      }
    }
  }

  /**
   * Standard output as the program spells it: with a separator other than the slash that occurs
   * in no given path and no name, splitting a complete run's output gives back the paths of the
   * matching entries. NUL is such a separator on every Unix file system; a newline need not be.
   */
  lemma PathsReadBack(job: Job, s: State, sep: char) returns (es: seq<Entry>)
    requires Complete(job, s) && sep != '/' && CleanNames(job, sep)
    ensures multiset(es) == Matching(job)
    ensures Pieces(Stdout(PathText, sep, s.written), sep) == Texts(PathText, es)
  {
    es := StdoutIsTheAnswer(job, s, PathText, sep);
    forall e | e in Matching(job) ensures sep !in PathText(e) {
      RunsRefineWalk(job, s);
      WrittenIffFound(job, s, e);
      var p :| p in job.cfg.paths && Seeded(job, p) && FoundUnder(job, RootTask(job, p), e);
      FoundClean(job, p, e, sep);
      SpellClean(e.path, sep);
    }
  }

  // ----- From the spelling back to the path -----

  predicate Plain(c: Name) {
    c != "" && '/' !in c
  }

  /** A relative path of plain components, or an absolute one. */
  ghost predicate WellSpelled(p: Path) {
    p != [] && (Plain(p[0]) || p[0] == "/") && forall c | c in p[1..] :: Plain(c)
  }

  /** The components of a spelled path. */
  function ReadPath(s: string): Path {
    if s == "/" then ["/"]
    else if s != "" && s[0] == '/' then ["/"] + Pieces(s[1..] + "/", '/')
    else Pieces(s + "/", '/')
  }

  /** Relative paths: a slash after every component. */
  lemma {:induction false} SpellSlashes(p: Path)
    requires p != [] && forall c | c in p :: Plain(c)
    ensures Spell(p) != "" && Spell(p)[0] != '/' && Spell(p)[|Spell(p)| - 1] != '/'
    ensures Spell(p) + "/" == Render(p, '/')
    decreases |p|
  {
    var n := |p| - 1;
    var front, c := p[..n], p[n];
    assert Plain(c) && c[0] in c && c[|c| - 1] in c;
    if n == 0 {
      assert Render(front, '/') == [] && [] + c + "/" == c + "/";
    } else {
      SpellSlashes(front);
      assert Spell(p) == Spell(front) + "/" + c;
    }
  }

  lemma JoinRooted(f: string, c: Name)
    ensures Join("/" + f, c) == "/" + Join(f, c)
  {
    assert ("/" + f)[|f|] == if f == "" then '/' else f[|f| - 1];
    assert "/" + f + "/" + c == "/" + (f + "/" + c) && "/" + f + c == "/" + (f + c);
  }

  /** Absolute paths: a slash before the rest. */
  lemma {:induction false} SpellRooted(q: Path)
    requires q != []
    ensures Spell(["/"] + q) == "/" + Spell(q)
    decreases |q|
  {
    var p, n := ["/"] + q, |q| - 1;
    assert |p| == n + 2 && p[..n + 1] == ["/"] + q[..n] && p[n + 1] == q[n];
    assert Spell(p) == Join(Spell(["/"] + q[..n]), q[n]);
    if n == 0 {
      assert ["/"] + q[..0] == ["/"];
      assert Join("/", q[0]) == "/" + q[0];
    } else {
      SpellRooted(q[..n]);
      JoinRooted(Spell(q[..n]), q[n]);
    }
  }

  /** Spelled and read back, a path is itself. */
  lemma SpellRoundTrip(p: Path)
    requires WellSpelled(p)
    ensures ReadPath(Spell(p)) == p
  {
    assert p == [p[0]] + p[1..];
    if p[0] == "/" {
      if |p| > 1 {
        SpellSlashes(p[1..]);
        SpellRooted(p[1..]);
        assert Spell(p)[1..] == Spell(p[1..]);
        CleanTextsReadBack(p[1..], '/');
      }
    } else {
      SpellSlashes(p);
      CleanTextsReadBack(p, '/');
    }
  }

  /** Given paths are well spelled, and names are what a file system calls its entries. */
  ghost predicate RealNames(job: Plan) {
    && (forall p | p in job.cfg.paths :: WellSpelled(p))
    && forall d, r | d in job.fs.dirs && r in job.fs.dirs[d] :: Plain(r.name)
  }

  lemma FoundWellSpelled(job: Plan, p: Path, e: Entry)
    requires RealNames(job) && Promise.Finds(job, p, e)
    ensures WellSpelled(e.path)
  {
    if e != Entry(p, Dir, 0) {
      var ids: seq<Id>, idx: seq<nat>, names: seq<Name>, i: nat :| Promise.EndsIn(job, p, ids, idx, names, i, e);
      forall c | c in names ensures Plain(c) {
        var j :| 0 <= j < |names| && names[j] == c;
        assert Promise.LeadsTo(job, ids[j], idx[j], names[j], ids[j + 1]);
        assert job.fs.dirs[ids[j]][idx[j]] in job.fs.dirs[ids[j]];
      }
      var last := e.path[|e.path| - 1];
      assert job.fs.dirs[ids[|idx|]][i] in job.fs.dirs[ids[|idx|]];
      assert e.path[1..] == p[1..] + names + [last];
    }
  }

  /** The texts a complete run prints give back the matching entries' paths, component by component. */
  lemma PathsRecovered(job: Job, e: Entry)
    requires RealNames(job) && e in Matching(job)
    ensures ReadPath(PathText(e)) == e.path
  {
    Promise.MatchesAreFound(job, e);
    var p :| Promise.Finds(job, p, e);
    FoundWellSpelled(job, p, e);
    SpellRoundTrip(e.path);
  }

  // ----- There are complete runs -----

  /** Every job can be run to its end without an interrupt. */
  lemma SomeRunEnds(job: Job) returns (s: State)
    ensures Reachable(job, s) && Final(s) && !s.shutdown
  {
    InvInit(job);
    var acts := CanFinish(job, Init(job));
    s := Run(job, Init(job), acts);
  }

  /** A job has a complete run exactly when fewer entries match than --max-results, if set, allows. */
  lemma SomeRunIsComplete(job: Job)
    ensures (exists s :: Complete(job, s)) <==>
            (job.cfg.maxResults.Some? && job.cfg.maxResults.value > 0 ==> |Matching(job)| < job.cfg.maxResults.value)
  {
    forall s | Complete(job, s)
      ensures job.cfg.maxResults.Some? && job.cfg.maxResults.value > 0 ==> |Matching(job)| < job.cfg.maxResults.value
    {
      EndBelowCap(job, s);
    }
    var s := SomeRunEnds(job);
    EndBelowCap(job, s);
  }

  lemma EndBelowCap(job: Job, s: State)
    requires Reachable(job, s) && Final(s) && !s.shutdown
    ensures Complete(job, s) <==>
            (job.cfg.maxResults.Some? && job.cfg.maxResults.value > 0 ==> |Matching(job)| < job.cfg.maxResults.value)
  {
    CompleteMeans(job, s);
    if job.cfg.maxResults.Some? && job.cfg.maxResults.value > 0 {
      CapIsExact(job, s, job.cfg.maxResults.value);
    }
  }
}
