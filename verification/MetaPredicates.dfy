/** All metadata predicates of a run, the stat fields they need, and the per-walker id memo. */
module MetaPredicates {
  import opened FileSystem
  import opened Comparisons
  import opened Perm

  /** The stat fields, some of which a leaf leaves unspecified. */
  datatype Meta = Meta(size: u64, mtime: i64, ctime: i64, atime: i64, mode: bv32,
                       uid: u32, gid: u32, nlink: u64, ino: u64)

  datatype Field = Size | Mtime | Ctime | Atime | Mode | Uid | Gid | Nlink | Ino

  function FieldBit(f: Field): bv32 {
    match f
    case Size => 0x1
    case Mtime => 0x2
    case Ctime => 0x4
    case Atime => 0x8
    case Mode => 0x10
    case Uid => 0x20
    case Gid => 0x40
    case Nlink => 0x80
    case Ino => 0x100
  }

  predicate InMask(mask: bv32, f: Field) {
    match f
    case Size => mask & 0x1 != 0
    case Mtime => mask & 0x2 != 0
    case Ctime => mask & 0x4 != 0
    case Atime => mask & 0x8 != 0
    case Mode => mask & 0x10 != 0
    case Uid => mask & 0x20 != 0
    case Gid => mask & 0x40 != 0
    case Nlink => mask & 0x80 != 0
    case Ino => mask & 0x100 != 0
  }

  datatype TimeField = OfMtime | OfCtime | OfAtime

  function FieldOf(t: TimeField): Field {
    match t
    case OfMtime => Mtime
    case OfCtime => Ctime
    case OfAtime => Atime
  }

  function TimeIn(m: Meta, t: TimeField): i64 {
    match t
    case OfMtime => m.mtime
    case OfCtime => m.ctime
    case OfAtime => m.atime
  }

  datatype TimePred = TimePred(cmp: Comparison, unit: nat, field: TimeField)
  datatype NewerPred = NewerPred(refMtime: i64, field: TimeField)

  const DAY: nat := 86400
  const MIN: nat := 60

  datatype Predicates = Predicates(size: Option<SizePred>, times: seq<TimePred>, perm: Option<PermPred>,
                                   uid: Option<Comparison>, gid: Option<Comparison>,
                                   links: Option<Comparison>, inum: Option<Comparison>,
                                   newer: seq<NewerPred>, nouser: bool, nogroup: bool)

  /** Units are what the parsers produce. */
  predicate Proper(p: Predicates) {
    (p.size.Some? ==> IsUnit(p.size.value.unit)) && forall t | t in p.times :: t.unit == DAY || t.unit == MIN
  }

  predicate TimeMatches(t: TimePred, m: Meta, now: i64)
    requires t.unit > 0
  {
    AgeMatches(t.cmp, now, TimeIn(m, t.field), t.unit)
  }

  /** What the predicates ask of an entry's metadata: all of them at once. */
  predicate Satisfies(p: Predicates, m: Meta, now: i64)
    requires Proper(p)
  {
    && (p.size.Some? ==> SizeMatches(p.size.value, m.size))
    && (forall t | t in p.times :: TimeMatches(t, m, now))
    && (p.perm.Some? ==> PermMatches(p.perm.value, m.mode))
    && (p.uid.Some? ==> MatchesU64(p.uid.value, m.uid))
    && (p.gid.Some? ==> MatchesU64(p.gid.value, m.gid))
    && (p.links.Some? ==> MatchesU64(p.links.value, m.nlink))
    && (p.inum.Some? ==> MatchesU64(p.inum.value, m.ino))
    && (forall n | n in p.newer :: NewerMatches(n.refMtime, TimeIn(m, n.field)))
  }

  predicate IsActive(p: Predicates) {
    p.size.Some? || p.times != [] || p.perm.Some? || p.uid.Some? || p.gid.Some? || p.links.Some?
    || p.inum.Some? || p.newer != [] || p.nouser || p.nogroup
  }

  lemma AddBit(mask: bv32, g: Field, f: Field)
    ensures InMask(mask | FieldBit(g), f) <==> InMask(mask, f) || f == g
  {
    match f
    case Size => assert InMask(FieldBit(g), f) <==> f == g;
    case Mtime => assert InMask(FieldBit(g), f) <==> f == g;
    case Ctime => assert InMask(FieldBit(g), f) <==> f == g;
    case Atime => assert InMask(FieldBit(g), f) <==> f == g;
    case Mode => assert InMask(FieldBit(g), f) <==> f == g;
    case Uid => assert InMask(FieldBit(g), f) <==> f == g;
    case Gid => assert InMask(FieldBit(g), f) <==> f == g;
    case Nlink => assert InMask(FieldBit(g), f) <==> f == g;
    case Ino => assert InMask(FieldBit(g), f) <==> f == g;
  }

  /** A mask requests exactly these fields, and has no other bits. */
  ghost predicate MaskIs(mask: bv32, fields: set<Field>) {
    mask <= 0x1ff && forall f :: InMask(mask, f) <==> f in fields
  }

  lemma EmptyMask()
    ensures MaskIs(0, {})
  {
  }

  lemma InRange(mask: bv32, g: Field)
    requires mask <= 0x1ff
    ensures mask | FieldBit(g) <= 0x1ff
  {
    assert FieldBit(g) <= 0x1ff;
  }

  function With(fields: set<Field>, wanted: bool, g: Field): set<Field> {
    if wanted then fields + {g} else fields
  }

  /** One bit more if `wanted`. */
  method Include(mask: bv32, wanted: bool, g: Field, ghost fields: set<Field>) returns (r: bv32)
    requires MaskIs(mask, fields)
    ensures MaskIs(r, With(fields, wanted, g))
  {
    if !wanted {
      return mask;
    }
    r := mask | FieldBit(g);
    InRange(mask, g);
    forall f ensures InMask(r, f) <==> f in fields + {g} {
      AddBit(mask, g, f);
    }
  }

  /** The fields of the time and newer predicates. */
  function TimeFields(times: seq<TimePred>, newer: seq<NewerPred>): set<Field> {
    (set t | t in times :: FieldOf(t.field)) + (set n | n in newer :: FieldOf(n.field))
  }

  lemma OneTimeMore(times: seq<TimePred>, newer: seq<NewerPred>, i: nat)
    ensures i < |times| ==>
              TimeFields(times[..i + 1], newer) == TimeFields(times[..i], newer) + {FieldOf(times[i].field)}
    ensures i < |newer| ==>
              TimeFields(times, newer[..i + 1]) == TimeFields(times, newer[..i]) + {FieldOf(newer[i].field)}
  {
    if i < |times| {
      assert times[..i + 1] == times[..i] + [times[i]];
    }
    if i < |newer| {
      assert newer[..i + 1] == newer[..i] + [newer[i]];
    }
  }

  /** The fields some active predicate reads. */
  function FieldsRead(p: Predicates): set<Field> {
    With(With(With(With(With(With({}, p.size.Some?, Size) + TimeFields(p.times, p.newer),
      p.perm.Some?, Mode), p.uid.Some? || p.nouser, Uid), p.gid.Some? || p.nogroup, Gid),
      p.links.Some?, Nlink), p.inum.Some?, Ino)
  }

  /** Field by field, the predicates that read it. */
  lemma FieldsMean(p: Predicates, f: Field)
    ensures f in FieldsRead(p) <==>
              match f
              case Size => p.size.Some?
              case Mtime =>
                (exists t :: t in p.times && t.field == OfMtime) || (exists n :: n in p.newer && n.field == OfMtime)
              case Ctime =>
                (exists t :: t in p.times && t.field == OfCtime) || (exists n :: n in p.newer && n.field == OfCtime)
              case Atime =>
                (exists t :: t in p.times && t.field == OfAtime) || (exists n :: n in p.newer && n.field == OfAtime)
              case Mode => p.perm.Some?
              case Uid => p.uid.Some? || p.nouser
              case Gid => p.gid.Some? || p.nogroup
              case Nlink => p.links.Some?
              case Ino => p.inum.Some?
  {
    forall t: TimePred | t in p.times ensures FieldOf(t.field) in TimeFields(p.times, p.newer) {
    }
    forall n: NewerPred | n in p.newer ensures FieldOf(n.field) in TimeFields(p.times, p.newer) {
    }
  }

  /** The mask bits of the time predicates, on top of those already requested. */
  method TimeMask(start: bv32, p: Predicates, ghost fields: set<Field>) returns (mask: bv32)
    requires MaskIs(start, fields)
    ensures MaskIs(mask, fields + TimeFields(p.times, p.newer))
  {
    mask := start;
    assert TimeFields(p.times[..0], []) == {};
    for i := 0 to |p.times|
      invariant MaskIs(mask, fields + TimeFields(p.times[..i], []))
    {
      OneTimeMore(p.times, [], i);
      mask := Include(mask, true, FieldOf(p.times[i].field), fields + TimeFields(p.times[..i], []));
    }
    assert p.times[..|p.times|] == p.times && p.newer[..0] == [];
    for i := 0 to |p.newer|
      invariant MaskIs(mask, fields + TimeFields(p.times, p.newer[..i]))
    {
      OneTimeMore(p.times, p.newer, i);
      mask := Include(mask, true, FieldOf(p.newer[i].field), fields + TimeFields(p.times, p.newer[..i]));
    }
    assert p.newer[..|p.newer|] == p.newer;
  }

  /** The statx mask: exactly the fields the active predicates read. */
  method Mask(p: Predicates) returns (mask: bv32)
    ensures MaskIs(mask, FieldsRead(p))
  {
    EmptyMask();
    ghost var fields: set<Field> := {};
    mask := Include(0, p.size.Some?, Size, fields);
    fields := With(fields, p.size.Some?, Size);
    mask := TimeMask(mask, p, fields);
    fields := fields + TimeFields(p.times, p.newer);
    mask := Include(mask, p.perm.Some?, Mode, fields);
    fields := With(fields, p.perm.Some?, Mode);
    mask := Include(mask, p.uid.Some? || p.nouser, Uid, fields);
    fields := With(fields, p.uid.Some? || p.nouser, Uid);
    mask := Include(mask, p.gid.Some? || p.nogroup, Gid, fields);
    fields := With(fields, p.gid.Some? || p.nogroup, Gid);
    mask := Include(mask, p.links.Some?, Nlink, fields);
    fields := With(fields, p.links.Some?, Nlink);
    mask := Include(mask, p.inum.Some?, Ino, fields);
  }

  /** The evaluator, which stops at the first predicate that fails. */
  method Matches(p: Predicates, m: Meta, now: i64) returns (ok: bool)
    requires Proper(p)
    ensures ok == Satisfies(p, m, now)
  {
    if p.size.Some? && !SizeMatches(p.size.value, m.size) {
      return false;
    }
    for i := 0 to |p.times|
      invariant forall j | 0 <= j < i :: TimeMatches(p.times[j], m, now)
    {
      if !TimeMatches(p.times[i], m, now) {
        return false;
      }
    }
    if p.perm.Some? && !PermMatches(p.perm.value, m.mode) {
      return false;
    }
    if p.uid.Some? && !MatchesU64(p.uid.value, m.uid) {
      return false;
    }
    if p.gid.Some? && !MatchesU64(p.gid.value, m.gid) {
      return false;
    }
    if p.links.Some? && !MatchesU64(p.links.value, m.nlink) {
      return false;
    }
    if p.inum.Some? && !MatchesU64(p.inum.value, m.ino) {
      return false;
    }
    for i := 0 to |p.newer|
      invariant forall j | 0 <= j < i :: NewerMatches(p.newer[j].refMtime, TimeIn(m, p.newer[j].field))
    {
      if !NewerMatches(p.newer[i].refMtime, TimeIn(m, p.newer[i].field)) {
        return false;
      }
    }
    return true;
  }

  /** Two answers of stat that agree on a field. */
  predicate SameField(a: Meta, b: Meta, f: Field) {
    match f
    case Size => a.size == b.size
    case Mtime => a.mtime == b.mtime
    case Ctime => a.ctime == b.ctime
    case Atime => a.atime == b.atime
    case Mode => a.mode == b.mode
    case Uid => a.uid == b.uid
    case Gid => a.gid == b.gid
    case Nlink => a.nlink == b.nlink
    case Ino => a.ino == b.ino
  }

  /** The whole stat-based verdict: the predicates, then orphaned owners. */
  predicate Verdict(p: Predicates, m: Meta, now: i64, users: nat -> bool, groups: nat -> bool)
    requires Proper(p)
  {
    Satisfies(p, m, now) && !(p.nouser && users(m.uid)) && !(p.nogroup && groups(m.gid))
  }

  /**
   * The mask is a sound frame: answers that agree on the fields in it get the same verdict, so
   * fields the leaf leaves unspecified are never observed.
   */
  lemma MaskIsSound(p: Predicates, mask: bv32, a: Meta, b: Meta, now: i64, users: nat -> bool, groups: nat -> bool)
    requires Proper(p) && MaskIs(mask, FieldsRead(p))
    requires forall f | InMask(mask, f) :: SameField(a, b, f)
    ensures Verdict(p, a, now, users, groups) == Verdict(p, b, now, users, groups)
  {
    forall f | f in FieldsRead(p) ensures SameField(a, b, f) {
      assert InMask(mask, f);
    }
    FieldsSuffice(p, a, b, now, users, groups);
  }

  lemma FieldsSuffice(p: Predicates, a: Meta, b: Meta, now: i64, users: nat -> bool, groups: nat -> bool)
    requires Proper(p) && forall f | f in FieldsRead(p) :: SameField(a, b, f)
    ensures Verdict(p, a, now, users, groups) == Verdict(p, b, now, users, groups)
  {
    TimesAgree(p, a, b, now);
    assert Size in FieldsRead(p) ==> SameField(a, b, Size);
    assert Mode in FieldsRead(p) ==> SameField(a, b, Mode);
    assert Uid in FieldsRead(p) ==> SameField(a, b, Uid);
    assert Gid in FieldsRead(p) ==> SameField(a, b, Gid);
    assert Nlink in FieldsRead(p) ==> SameField(a, b, Nlink);
    assert Ino in FieldsRead(p) ==> SameField(a, b, Ino);
  }

  lemma TimesAgree(p: Predicates, a: Meta, b: Meta, now: i64)
    requires Proper(p) && forall f | f in FieldsRead(p) :: SameField(a, b, f)
    ensures forall t | t in p.times :: TimeMatches(t, a, now) == TimeMatches(t, b, now)
    ensures forall n | n in p.newer ::
              NewerMatches(n.refMtime, TimeIn(a, n.field)) == NewerMatches(n.refMtime, TimeIn(b, n.field))
  {
    forall t | t in p.times ensures TimeIn(a, t.field) == TimeIn(b, t.field) {
      assert FieldOf(t.field) in FieldsRead(p);
    }
    forall n | n in p.newer ensures TimeIn(a, n.field) == TimeIn(b, n.field) {
      assert FieldOf(n.field) in FieldsRead(p);
    }
  }

  /** The stat path is switched on exactly when some field is requested. */
  lemma ActiveIffMasked(p: Predicates, mask: bv32)
    requires MaskIs(mask, FieldsRead(p))
    ensures IsActive(p) <==> mask != 0
  {
    NineBits(mask);
    if IsActive(p) {
      if p.times != [] {
        assert FieldOf(p.times[0].field) in FieldsRead(p);
      } else if p.newer != [] {
        assert FieldOf(p.newer[0].field) in FieldsRead(p);
      } else {
        var fields := FieldsRead(p);
        assert Size in fields || Mode in fields || Uid in fields || Gid in fields || Nlink in fields || Ino in fields;
      }
    }
  }

  lemma NineBits(mask: bv32)
    requires mask <= 0x1ff
    ensures mask != 0 <==> exists f :: InMask(mask, f)
  {
    if forall f :: !InMask(mask, f) {
      assert !InMask(mask, Size) && !InMask(mask, Mtime) && !InMask(mask, Ctime) && !InMask(mask, Atime);
      assert !InMask(mask, Mode) && !InMask(mask, Uid) && !InMask(mask, Gid) && !InMask(mask, Nlink);
      assert !InMask(mask, Ino);
    }
  }

  // ----- The leaf's translation of the mask -----

  /** to_statx_flags: a fold over the table of mask bits, collecting the platform's flags. */
  method StatxFlags(mask: bv32) returns (flags: set<Field>)
    ensures forall f :: f in flags <==> InMask(mask, f)
  {
    forall f ensures f in [Size, Mtime, Ctime, Atime, Mode, Uid, Gid, Nlink, Ino] {
      Listed(f);
    }
    var table := [Size, Mtime, Ctime, Atime, Mode, Uid, Gid, Nlink, Ino];
    flags := {};
    for i := 0 to |table|
      invariant forall f :: f in flags <==> f in table[..i] && InMask(mask, f)
    {
      if InMask(mask, table[i]) {
        flags := flags + {table[i]};
      }
      assert table[..i + 1] == table[..i] + [table[i]];
    }
    assert table[..|table|] == table;
  }

  lemma Listed(f: Field)
    ensures f in [Size, Mtime, Ctime, Atime, Mode, Uid, Gid, Nlink, Ino]
  {
    var table := [Size, Mtime, Ctime, Atime, Mode, Uid, Gid, Nlink, Ino];
    assert table[0] == Size && table[1] == Mtime && table[2] == Ctime && table[3] == Atime && table[4] == Mode
           && table[5] == Uid && table[6] == Gid && table[7] == Nlink && table[8] == Ino;
  }

  // ----- The reverse-lookup memo -----

  /** What a cache holds is what the database answers. */
  predicate Recalls(cache: map<nat, bool>, db: nat -> bool) {
    forall id | id in cache :: cache[id] == db(id)
  }

  /** The lookups behind a cache: one for every id in it, and no more. */
  ghost predicate LookedUpOnce(lookups: seq<nat>, cache: map<nat, bool>) {
    && (forall id :: id in lookups <==> id in cache)
    && (forall i, j | 0 <= i < j < |lookups| :: lookups[i] != lookups[j])
  }

  /** Per-walker memo of which ids resolve; `userDb` and `groupDb` are the name service's answers. */
  class NssCache {
    const userDb: nat -> bool
    const groupDb: nat -> bool
    var users: map<nat, bool>
    var groups: map<nat, bool>
    /** Every question put to the name service so far. */
    ghost var userLookups: seq<nat>
    ghost var groupLookups: seq<nat>

    ghost predicate Valid()
      reads this
    {
      && Recalls(users, userDb) && Recalls(groups, groupDb)
      && LookedUpOnce(userLookups, users) && LookedUpOnce(groupLookups, groups)
    }

    constructor (userDb: nat -> bool, groupDb: nat -> bool)
      ensures Valid() && this.userDb == userDb && this.groupDb == groupDb
      ensures userLookups == [] && groupLookups == []
    {
      this.userDb := userDb;
      this.groupDb := groupDb;
      users := map[];
      groups := map[];
      userLookups := [];
      groupLookups := [];
    }

    /** Answers as the database would, asking it only about an id never asked about before. */
    method UserExists(uid: nat) returns (found: bool)
      requires Valid()
      modifies this
      ensures Valid() && found == userDb(uid)
      ensures groups == old(groups) && groupLookups == old(groupLookups)
      ensures userLookups == if uid in old(userLookups) then old(userLookups) else old(userLookups) + [uid]
    {
      if uid !in users {
        users := users[uid := userDb(uid)];
        userLookups := userLookups + [uid];
      }
      found := users[uid];
    }

    method GroupExists(gid: nat) returns (found: bool)
      requires Valid()
      modifies this
      ensures Valid() && found == groupDb(gid)
      ensures users == old(users) && userLookups == old(userLookups)
      ensures groupLookups == if gid in old(groupLookups) then old(groupLookups) else old(groupLookups) + [gid]
    {
      if gid !in groups {
        groups := groups[gid := groupDb(gid)];
        groupLookups := groupLookups + [gid];
      }
      found := groups[gid];
    }
  }

  /** The verdict of a walker that memoizes, after any history, is the plain one. */
  method CachedVerdict(p: Predicates, m: Meta, now: i64, cache: NssCache) returns (ok: bool)
    requires Proper(p) && cache.Valid()
    modifies cache
    ensures cache.Valid() && ok == Verdict(p, m, now, cache.userDb, cache.groupDb)
  {
    ok := Matches(p, m, now);
    if !ok {
      return;
    }
    if p.nouser {
      var found := cache.UserExists(m.uid);
      if found {
        return false;
      }
    }
    if p.nogroup {
      var found := cache.GroupExists(m.gid);
      if found {
        return false;
      }
    }
  }
}
