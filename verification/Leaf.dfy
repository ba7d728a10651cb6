/** The platform leaf's directory loop: what it makes of a raw directory stream. */
module Leaf {
  import opened FileSystem
  import WalkSpec

  datatype RawType = RegularFile | Directory | Link | Block | Character | Pipe | Sock | Unknown

  function MapType(ft: RawType): Option<EntryType> {
    match ft
    case RegularFile => Some(File)
    case Directory => Some(Dir)
    case Link => Some(Symlink)
    case Block => Some(BlockDevice)
    case Character => Some(CharDevice)
    case Pipe => Some(Fifo)
    case Sock => Some(Socket)
    case Unknown => None
  }

  /**
   * One item of the stream: a read error, or a raw entry. `stat` is what a stat of the name
   * would answer (None: it fails), `plain` and `linked` where opening it would lead.
   */
  datatype RawItem =
    | ReadError
    | RawEntry(name: Name, ty: RawType, stat: Option<RawType>, plain: Option<Id>, linked: Option<Id>)

  function ToRecord(item: RawItem): Record
    requires item.RawEntry?
  {
    Record(item.name, MapType(item.ty), if item.stat.Some? then MapType(item.stat.value) else None,
           item.plain, item.linked)
  }

  /** The records of a snapshot's directory: the stream up to its first error. */
  function ToRecords(raw: seq<RawItem>): seq<Record> {
    if raw == [] || raw[0].ReadError? then [] else [ToRecord(raw[0])] + ToRecords(raw[1..])
  }

  datatype Shown = Shown(name: Name, ty: EntryType)

  /** What a record is shown as: nothing for the dot entries and for unresolvable types. */
  function ShownAs(r: Record): seq<Shown> {
    if r.name == "." || r.name == ".." || Resolved(r).None? then [] else [Shown(r.name, Resolved(r).value)]
  }

  function AllShown(rs: seq<Record>): seq<Shown> {
    if rs == [] then [] else ShownAs(rs[0]) + AllShown(rs[1..])
  }

  /** The walk admits of a record what the leaf shows, unless its name is excluded. */
  lemma WalkAdmitsShown(job: Plan, r: Record)
    ensures WalkSpec.Admitted(job, r)
            == if ShownAs(r) == [] || job.cfg.exclude(r.name) then None else Some(ShownAs(r)[0].ty)
  {
  }

  /** A callback with any memory: it answers from everything it has been shown so far. */
  class Callback {
    const answer: seq<Shown> -> bool
    var seen: seq<Shown>

    constructor (answer: seq<Shown> -> bool)
      ensures this.answer == answer && seen == []
    {
      this.answer := answer;
      seen := [];
    }

    method Call(name: Name, ty: EntryType) returns (go: bool)
      modifies this
      ensures seen == old(seen) + [Shown(name, ty)] && go == answer(seen)
    {
      seen := seen + [Shown(name, ty)];
      go := answer(seen);
    }
  }

  /** The callback said yes to each of the first `n` entries. */
  ghost predicate Agreed(answer: seq<Shown> -> bool, before: seq<Shown>, all: seq<Shown>, n: nat)
    requires n <= |all|
  {
    forall k | 0 < k <= n :: answer(before + all[..k])
  }

  /** Showing `all` after `before` gets to its `n`-th entry: all of it, or a first refusal. */
  ghost predicate StopsAt(answer: seq<Shown> -> bool, before: seq<Shown>, all: seq<Shown>, n: nat) {
    && n <= |all|
    && (n > 0 ==> Agreed(answer, before, all, n - 1))
    && (n < |all| ==> n > 0 && !answer(before + all[..n]))
  }

  /** That place is unique, so the loop's contract fixes what the callback is shown. */
  lemma StopsOnce(answer: seq<Shown> -> bool, before: seq<Shown>, all: seq<Shown>, n: nat, m: nat)
    requires StopsAt(answer, before, all, n) && StopsAt(answer, before, all, m)
    ensures n == m
  {
  }

  lemma OneMore(before: seq<Shown>, all: seq<Shown>, n: nat, x: Shown, rest: seq<Shown>)
    requires n <= |all| && all[n..] == [x] + rest
    ensures n < |all| && before + all[..n] + [x] == before + all[..n + 1] && all[n + 1..] == rest
  {
    assert all[n] == ([x] + rest)[0];
    assert all[n + 1..] == all[n..][1..];
    assert all[..n + 1] == all[..n] + [x];
  }

  /** The file type of the stream or of a stat and the walk's name for it. */
  predicate SameKind(ft: RawType, ty: EntryType) {
    (ft, ty) in {(RegularFile, File), (Directory, Dir), (Link, Symlink), (Block, BlockDevice),
                 (Character, CharDevice), (Pipe, Fifo), (Sock, Socket)}
  }

  /** An entry other than the dots, of the type it is reported with, or if none is, the one a stat gives it. */
  predicate ShownTo(item: RawItem, ty: EntryType)
    requires item.RawEntry?
  {
    && item.name != "." && item.name != ".."
    && (SameKind(item.ty, ty) || (item.ty.Unknown? && item.stat.Some? && SameKind(item.stat.value, ty)))
  }

  lemma TypesByKind(item: RawItem)
    requires item.RawEntry?
    ensures forall ty :: ShownAs(ToRecord(item)) == [Shown(item.name, ty)] <==> ShownTo(item, ty)
  {
    forall ft: RawType, ty ensures MapType(ft) == Some(ty) <==> SameKind(ft, ty) {
      match ft
      case RegularFile =>
      case Directory =>
      case Link =>
      case Block =>
      case Character =>
      case Pipe =>
      case Sock =>
      case Unknown =>
    }
  }

  /** One raw entry: skipped, or its type resolved and the callback called; `go` is false on refusal. */
  method ShowItem(item: RawItem, f: Callback) returns (shown: bool, go: bool)
    requires item.RawEntry?
    modifies f
    ensures shown == (ShownAs(ToRecord(item)) != [])
    ensures f.seen == old(f.seen) + ShownAs(ToRecord(item))
    ensures go == (shown ==> f.answer(f.seen))
    ensures forall ty :: f.seen[|old(f.seen)|..] == [Shown(item.name, ty)] <==> ShownTo(item, ty)
  {
    shown, go := false, true;
    TypesByKind(item);
    if item.name == "." || item.name == ".." {
      return;
    }
    var ty := MapType(item.ty);
    if ty.None? {
      ty := if item.stat.Some? then MapType(item.stat.value) else None;
      if ty.None? {
        return;
      }
    }
    go := f.Call(item.name, ty.value);
    shown := true;
  }

  /** What the raw stream is shown as from its `i`-th item on. */
  function Visible(raw: seq<RawItem>, i: nat): seq<Shown>
    decreases |raw| - i
  {
    if i >= |raw| || raw[i].ReadError? then [] else ShownAs(ToRecord(raw[i])) + Visible(raw, i + 1)
  }

  /** It is what the records of the snapshot's directory are shown as. */
  lemma {:induction false} VisibleIsListing(raw: seq<RawItem>, i: nat)
    requires i <= |raw|
    ensures Visible(raw, i) == AllShown(ToRecords(raw[i..]))
    decreases |raw| - i
  {
    if i < |raw| {
      VisibleIsListing(raw, i + 1);
      assert raw[i..][0] == raw[i] && raw[i..][1..] == raw[i + 1..];
    }
  }

  /**
   * The loop: it shows the callback the entries of the stream in order, up to the first read
   * error and no further than the callback's first refusal. `ok` reports a clean end.
   */
  method ForEachEntry(raw: seq<RawItem>, f: Callback) returns (ok: bool, ghost n: nat)
    modifies f
    ensures StopsAt(f.answer, old(f.seen), Visible(raw, 0), n)
    ensures f.seen == old(f.seen) + Visible(raw, 0)[..n]
    ensures !ok ==> ReadError in raw && n == |Visible(raw, 0)|
  {
    ghost var all, before := Visible(raw, 0), f.seen;
    ok, n := true, 0;
    for i := 0 to |raw|
      invariant n <= |all| && f.seen == before + all[..n]
      invariant Agreed(f.answer, before, all, n)
      invariant all[n..] == Visible(raw, i)
    {
      if raw[i].ReadError? {
        return false, n;
      }
      var shown, go := ShowItem(raw[i], f);
      if shown {
        OneMore(before, all, n, ShownAs(ToRecord(raw[i]))[0], Visible(raw, i + 1));
        n := n + 1;
        if !go {
          return true, n;
        }
      }
    }
  }

  // ----- Access checks -----

  datatype Access = ReadOk | WriteOk | ExecOk

  /** The access bits of the command line. */
  predicate Requests(mode: bv8, acc: Access) {
    match acc
    case ReadOk => mode & 0x1 != 0
    case WriteOk => mode & 0x2 != 0
    case ExecOk => mode & 0x4 != 0
  }

  /** do_access asks for exactly the requested kinds of access, all in one call. */
  method AccessFlags(mode: bv8) returns (acc: set<Access>)
    ensures forall a :: a in acc <==> Requests(mode, a)
  {
    acc := {};
    if mode & 0x1 != 0 {
      acc := acc + {ReadOk};
    }
    if mode & 0x2 != 0 {
      acc := acc + {WriteOk};
    }
    if mode & 0x4 != 0 {
      acc := acc + {ExecOk};
    }
  }
}
