/** -perm modes: the symbolic grammar, its parser, and what a mode means bit by bit. */
module Perm {
  import opened FileSystem

  // ----- The grammar: who* op perm*, comma-separated -----

  datatype Op = Plus | Minus | Assign

  datatype Clause = Clause(who: string, op: Op, perms: string)

  predicate IsWho(c: char) {
    c == 'u' || c == 'g' || c == 'o' || c == 'a'
  }

  predicate IsPerm(c: char) {
    c == 'r' || c == 'w' || c == 'x' || c == 's' || c == 't'
  }

  predicate WellFormed(c: Clause) {
    (forall x | x in c.who :: IsWho(x)) && (forall x | x in c.perms :: IsPerm(x))
  }

  predicate AllWellFormed(cs: seq<Clause>) {
    forall c | c in cs :: WellFormed(c)
  }

  function OpChar(op: Op): char {
    match op
    case Plus => '+'
    case Minus => '-'
    case Assign => '='
  }

  function OpOf(c: char): Option<Op> {
    if c == '+' then Some(Plus) else if c == '-' then Some(Minus) else if c == '=' then Some(Assign) else None
  }

  function Print(c: Clause): string {
    c.who + [OpChar(c.op)] + c.perms
  }

  /** The text of a list of clauses. */
  function Text(cs: seq<Clause>): string
    requires cs != []
  {
    if |cs| == 1 then Print(cs[0]) else Print(cs[0]) + [','] + Text(cs[1..])
  }

  // ----- What a clause does -----

  datatype Class = User | Group | Other

  datatype ModeBit = ClassBit(class_: Class, perm: char) | SetUid | SetGid | Sticky

  predicate IsBit(b: ModeBit) {
    b.ClassBit? ==> b.perm == 'r' || b.perm == 'w' || b.perm == 'x'
  }

  /** Whether a numeric mode has a bit set. */
  predicate Has(mode: bv32, b: ModeBit) {
    match b
    case SetUid => mode & 0x800 != 0
    case SetGid => mode & 0x400 != 0
    case Sticky => mode & 0x200 != 0
    case ClassBit(User, p) =>
      if p == 'r' then mode & 0x100 != 0 else if p == 'w' then mode & 0x80 != 0 else mode & 0x40 != 0
    case ClassBit(Group, p) =>
      if p == 'r' then mode & 0x20 != 0 else if p == 'w' then mode & 0x10 != 0 else mode & 0x8 != 0
    case ClassBit(Other, p) =>
      if p == 'r' then mode & 0x4 != 0 else if p == 'w' then mode & 0x2 != 0 else mode & 0x1 != 0
  }

  /** A clause addresses a class by its letter, by `a`, or by naming nobody. */
  predicate Addresses(c: Clause, k: Class) {
    var letter := match k case User => 'u' case Group => 'g' case Other => 'o';
    letter in c.who || 'a' in c.who || c.who == []
  }

  /** The bits a clause lists; `t` lists the sticky bit whoever is addressed. */
  predicate Lists(c: Clause, b: ModeBit) {
    match b
    case ClassBit(k, p) => Addresses(c, k) && p in c.perms
    case SetUid => Addresses(c, User) && 's' in c.perms
    case SetGid => Addresses(c, Group) && 's' in c.perms
    case Sticky => 't' in c.perms
  }

  /** The bits `=` overwrites: all those of the addressed classes. */
  predicate Owns(c: Clause, b: ModeBit) {
    match b
    case ClassBit(k, _) => Addresses(c, k)
    case SetUid => Addresses(c, User)
    case SetGid => Addresses(c, Group)
    case Sticky => Addresses(c, Other)
  }

  predicate Touches(c: Clause, b: ModeBit) {
    Lists(c, b) || (c.op.Assign? && Owns(c, b))
  }

  /** The value a clause gives to a bit it touches. */
  predicate Gives(c: Clause, b: ModeBit) {
    !c.op.Minus? && Lists(c, b)
  }

  // ----- The arithmetic of the parser -----

  function WhoBit(c: char): bv8 {
    if c == 'u' then 4 else if c == 'g' then 2 else if c == 'o' then 1 else if c == 'a' then 7 else 0
  }

  function WhoMask(s: string): bv8 {
    if s == [] then 0 else WhoMask(s[..|s| - 1]) | WhoBit(s[|s| - 1])
  }

  function Addressed(who: string): bv8 {
    if WhoMask(who) == 0 then 7 else WhoMask(who)
  }

  function RwxOf(r: bool, w: bool, x: bool): bv32 {
    (if r then 4 else 0) | (if w then 2 else 0) | (if x then 1 else 0)
  }

  function Rwx(perms: string): bv32 {
    RwxOf('r' in perms, 'w' in perms, 'x' in perms)
  }

  function BitsOf(who: bv8, rwx: bv32, s: bool, t: bool): bv32 {
    (if who & 4 != 0 then (rwx << 6) | (if s then 0x800 else 0) else 0)
    | (if who & 2 != 0 then (rwx << 3) | (if s then 0x400 else 0) else 0)
    | (if who & 1 != 0 then rwx else 0)
    | (if t then 0x200 else 0)
  }

  function ClearOf(who: bv8): bv32 {
    (if who & 4 != 0 then 0x9c0 else 0) | (if who & 2 != 0 then 0x438 else 0) | (if who & 1 != 0 then 0x207 else 0)
  }

  function Combine(op: Op, mode: bv32, bits: bv32, clear: bv32): bv32 {
    match op
    case Plus => mode | bits
    case Minus => mode & !bits
    case Assign => (mode & !clear) | bits
  }

  /** One clause applied to a mode. */
  function Apply(c: Clause, mode: bv32): bv32 {
    var who := Addressed(c.who);
    Combine(c.op, mode, BitsOf(who, Rwx(c.perms), 's' in c.perms, 't' in c.perms), ClearOf(who))
  }

  function Fold(cs: seq<Clause>, mode: bv32): bv32 {
    if cs == [] then mode else Apply(cs[|cs| - 1], Fold(cs[..|cs| - 1], mode))
  }

  lemma {:induction false} WhoMaskBits(s: string)
    requires forall x | x in s :: IsWho(x)
    ensures WhoMask(s) & 4 != 0 <==> 'u' in s || 'a' in s
    ensures WhoMask(s) & 2 != 0 <==> 'g' in s || 'a' in s
    ensures WhoMask(s) & 1 != 0 <==> 'o' in s || 'a' in s
    ensures WhoMask(s) == 0 <==> s == []
    decreases |s|
  {
    if s != [] {
      var front, last := s[..|s| - 1], s[|s| - 1];
      assert s == front + [last];
      assert IsWho(last);
      WhoMaskBits(front);
      OrBits(WhoMask(front), WhoBit(last));
    }
  }

  lemma OrBits(a: bv8, b: bv8)
    ensures (a | b) & 4 != 0 <==> a & 4 != 0 || b & 4 != 0
    ensures (a | b) & 2 != 0 <==> a & 2 != 0 || b & 2 != 0
    ensures (a | b) & 1 != 0 <==> a & 1 != 0 || b & 1 != 0
    ensures a | b == 0 <==> a == 0 && b == 0
  {
  }

  lemma AddressedBits(c: Clause)
    requires WellFormed(c)
    ensures Addressed(c.who) & 4 != 0 <==> Addresses(c, User)
    ensures Addressed(c.who) & 2 != 0 <==> Addresses(c, Group)
    ensures Addressed(c.who) & 1 != 0 <==> Addresses(c, Other)
  {
    WhoMaskBits(c.who);
  }

  lemma BitsOfClause(who: bv8, r: bool, w: bool, x: bool, s: bool, t: bool)
    ensures var bits := BitsOf(who, RwxOf(r, w, x), s, t);
            && (bits & 0x100 != 0 <==> who & 4 != 0 && r) && (bits & 0x80 != 0 <==> who & 4 != 0 && w)
            && (bits & 0x40 != 0 <==> who & 4 != 0 && x) && (bits & 0x800 != 0 <==> who & 4 != 0 && s)
            && (bits & 0x20 != 0 <==> who & 2 != 0 && r) && (bits & 0x10 != 0 <==> who & 2 != 0 && w)
            && (bits & 0x8 != 0 <==> who & 2 != 0 && x) && (bits & 0x400 != 0 <==> who & 2 != 0 && s)
            && (bits & 0x4 != 0 <==> who & 1 != 0 && r) && (bits & 0x2 != 0 <==> who & 1 != 0 && w)
            && (bits & 0x1 != 0 <==> who & 1 != 0 && x) && (bits & 0x200 != 0 <==> t)
            && bits <= 0xfff
  {
  }

  lemma BitsByBit(who: bv8, r: bool, w: bool, x: bool, s: bool, t: bool, b: ModeBit)
    requires IsBit(b)
    ensures Has(BitsOf(who, RwxOf(r, w, x), s, t), b) <==>
              match b
              case SetUid => who & 4 != 0 && s
              case SetGid => who & 2 != 0 && s
              case Sticky => t
              case ClassBit(User, p) => who & 4 != 0 && (if p == 'r' then r else if p == 'w' then w else x)
              case ClassBit(Group, p) => who & 2 != 0 && (if p == 'r' then r else if p == 'w' then w else x)
              case ClassBit(Other, p) => who & 1 != 0 && (if p == 'r' then r else if p == 'w' then w else x)
  {
    BitsOfClause(who, r, w, x, s, t);
  }

  lemma BitsMeanLists(c: Clause, b: ModeBit)
    requires WellFormed(c) && IsBit(b)
    ensures Has(BitsOf(Addressed(c.who), Rwx(c.perms), 's' in c.perms, 't' in c.perms), b) <==> Lists(c, b)
  {
    AddressedBits(c);
    BitsByBit(Addressed(c.who), 'r' in c.perms, 'w' in c.perms, 'x' in c.perms, 's' in c.perms, 't' in c.perms, b);
  }

  lemma ClearMeansOwns(c: Clause, b: ModeBit)
    requires WellFormed(c) && IsBit(b)
    ensures Has(ClearOf(Addressed(c.who)), b) <==> Owns(c, b)
  {
    AddressedBits(c);
    ClearBits(Addressed(c.who), b);
  }

  lemma ClearBits(who: bv8, b: ModeBit)
    requires IsBit(b)
    ensures Has(ClearOf(who), b) <==>
              match b
              case SetUid => who & 4 != 0
              case SetGid => who & 2 != 0
              case Sticky => who & 1 != 0
              case ClassBit(User, _) => who & 4 != 0
              case ClassBit(Group, _) => who & 2 != 0
              case ClassBit(Other, _) => who & 1 != 0
  {
  }

  // ----- Bitwise operations, bit by bit -----

  lemma NotAt(x: bv32, b: ModeBit)
    requires IsBit(b)
    ensures Has(!x, b) <==> !Has(x, b)
  {
  }

  lemma AndAt(x: bv32, y: bv32, b: ModeBit)
    requires IsBit(b)
    ensures Has(x & y, b) <==> Has(x, b) && Has(y, b)
  {
  }

  lemma OrSplits(x: bv32, y: bv32, m: bv32)
    ensures (x | y) & m == (x & m) | (y & m)
  {
  }

  lemma OrBit(x: bv32, y: bv32, m: bv32)
    ensures (x | y) & m != 0 <==> x & m != 0 || y & m != 0
  {
  }

  lemma OrAt(x: bv32, y: bv32, b: ModeBit)
    requires IsBit(b)
    ensures Has(x | y, b) <==> Has(x, b) || Has(y, b)
  {
    match b
    case SetUid => OrBit(x, y, 0x800);
    case SetGid => OrBit(x, y, 0x400);
    case Sticky => OrBit(x, y, 0x200);
    case ClassBit(User, p) => OrUser(x, y, p);
    case ClassBit(Group, p) => OrGroup(x, y, p);
    case ClassBit(Other, p) => OrOther(x, y, p);
  }

  lemma OrUser(x: bv32, y: bv32, p: char)
    requires IsBit(ClassBit(User, p))
    ensures Has(x | y, ClassBit(User, p)) <==> Has(x, ClassBit(User, p)) || Has(y, ClassBit(User, p))
  {
    if p == 'r' {
      OrBit(x, y, 0x100);
    } else if p == 'w' {
      OrBit(x, y, 0x80);
    } else {
      OrBit(x, y, 0x40);
    }
  }

  lemma OrGroup(x: bv32, y: bv32, p: char)
    requires IsBit(ClassBit(Group, p))
    ensures Has(x | y, ClassBit(Group, p)) <==> Has(x, ClassBit(Group, p)) || Has(y, ClassBit(Group, p))
  {
    if p == 'r' {
      OrBit(x, y, 0x20);
    } else if p == 'w' {
      OrBit(x, y, 0x10);
    } else {
      OrBit(x, y, 0x8);
    }
  }

  lemma OrOther(x: bv32, y: bv32, p: char)
    requires IsBit(ClassBit(Other, p))
    ensures Has(x | y, ClassBit(Other, p)) <==> Has(x, ClassBit(Other, p)) || Has(y, ClassBit(Other, p))
  {
    if p == 'r' {
      OrBit(x, y, 0x4);
    } else if p == 'w' {
      OrBit(x, y, 0x2);
    } else {
      OrBit(x, y, 0x1);
    }
  }

  predicate OneBit(m: bv32) {
    m == 0x800 || m == 0x400 || m == 0x200 || m == 0x100 || m == 0x80 || m == 0x40
    || m == 0x20 || m == 0x10 || m == 0x8 || m == 0x4 || m == 0x2 || m == 0x1
  }

  lemma MinusBit(x: bv32, y: bv32, m: bv32)
    requires OneBit(m)
    ensures (x & !y) & m != 0 <==> x & m != 0 && y & m == 0
  {
  }

  lemma MinusAt(x: bv32, y: bv32, b: ModeBit)
    requires IsBit(b)
    ensures Has(x & !y, b) <==> Has(x, b) && !Has(y, b)
  {
    match b
    case SetUid => MinusBit(x, y, 0x800);
    case SetGid => MinusBit(x, y, 0x400);
    case Sticky => MinusBit(x, y, 0x200);
    case ClassBit(User, p) => MinusUser(x, y, p);
    case ClassBit(Group, p) => MinusGroup(x, y, p);
    case ClassBit(Other, p) => MinusOther(x, y, p);
  }

  lemma MinusUser(x: bv32, y: bv32, p: char)
    requires IsBit(ClassBit(User, p))
    ensures Has(x & !y, ClassBit(User, p)) <==> Has(x, ClassBit(User, p)) && !Has(y, ClassBit(User, p))
  {
    if p == 'r' {
      MinusBit(x, y, 0x100);
    } else if p == 'w' {
      MinusBit(x, y, 0x80);
    } else {
      MinusBit(x, y, 0x40);
    }
  }

  lemma MinusGroup(x: bv32, y: bv32, p: char)
    requires IsBit(ClassBit(Group, p))
    ensures Has(x & !y, ClassBit(Group, p)) <==> Has(x, ClassBit(Group, p)) && !Has(y, ClassBit(Group, p))
  {
    if p == 'r' {
      MinusBit(x, y, 0x20);
    } else if p == 'w' {
      MinusBit(x, y, 0x10);
    } else {
      MinusBit(x, y, 0x8);
    }
  }

  lemma MinusOther(x: bv32, y: bv32, p: char)
    requires IsBit(ClassBit(Other, p))
    ensures Has(x & !y, ClassBit(Other, p)) <==> Has(x, ClassBit(Other, p)) && !Has(y, ClassBit(Other, p))
  {
    if p == 'r' {
      MinusBit(x, y, 0x4);
    } else if p == 'w' {
      MinusBit(x, y, 0x2);
    } else {
      MinusBit(x, y, 0x1);
    }
  }

  lemma AssignAt(x: bv32, y: bv32, z: bv32, b: ModeBit)
    requires IsBit(b)
    ensures Has((x & !y) | z, b) <==> (Has(x, b) && !Has(y, b)) || Has(z, b)
  {
    OrAt(x & !y, z, b);
    MinusAt(x, y, b);
  }

  lemma CombineBits(op: Op, mode: bv32, bits: bv32, clear: bv32, b: ModeBit)
    requires IsBit(b)
    ensures Has(Combine(op, mode, bits, clear), b) <==>
              match op
              case Plus => Has(mode, b) || Has(bits, b)
              case Minus => Has(mode, b) && !Has(bits, b)
              case Assign => (Has(mode, b) && !Has(clear, b)) || Has(bits, b)
  {
    match op
    case Plus => OrAt(mode, bits, b);
    case Minus => MinusAt(mode, bits, b);
    case Assign => AssignAt(mode, clear, bits, b);
  }

  /** A clause gives every bit it touches its value and leaves the others alone. */
  lemma ClauseEffect(c: Clause, mode: bv32, b: ModeBit)
    requires WellFormed(c) && IsBit(b)
    ensures Has(Apply(c, mode), b) <==> if Touches(c, b) then Gives(c, b) else Has(mode, b)
  {
    var who := Addressed(c.who);
    var bits := BitsOf(who, Rwx(c.perms), 's' in c.perms, 't' in c.perms);
    BitsMeanLists(c, b);
    ClearMeansOwns(c, b);
    CombineBits(c.op, mode, bits, ClearOf(who), b);
  }

  /** Clause `i` is the last one to touch the bit. */
  ghost predicate LastToTouch(cs: seq<Clause>, b: ModeBit, i: nat) {
    i < |cs| && Touches(cs[i], b) && forall j | i < j < |cs| :: !Touches(cs[j], b)
  }

  /** The last clause to touch the bit gives it. */
  ghost predicate LastGives(cs: seq<Clause>, b: ModeBit) {
    exists i: nat :: LastToTouch(cs, b, i) && Gives(cs[i], b)
  }

  lemma LastGivesStep(front: seq<Clause>, c: Clause, b: ModeBit)
    ensures LastGives(front + [c], b) <==> if Touches(c, b) then Gives(c, b) else LastGives(front, b)
  {
    var cs, n := front + [c], |front|;
    if Touches(c, b) {
      assert LastToTouch(cs, b, n);
    } else {
      forall i: nat ensures LastToTouch(cs, b, i) <==> LastToTouch(front, b, i) {
        assert forall j | 0 <= j < n :: cs[j] == front[j];
      }
      assert forall i: nat | LastToTouch(front, b, i) :: cs[i] == front[i];
    }
  }

  /** Last writer wins: a bit has the value the last clause touching it gives, and is clear if none does. */
  lemma {:induction false} LastWriterWins(cs: seq<Clause>, b: ModeBit)
    requires AllWellFormed(cs) && IsBit(b)
    ensures Has(Fold(cs, 0), b) <==> LastGives(cs, b)
    decreases |cs|
  {
    if cs == [] {
      assert !Has(0, b);
    } else {
      var front, c := cs[..|cs| - 1], cs[|cs| - 1];
      LastWriterWins(front, b);
      ClauseEffect(c, Fold(front, 0), b);
      LastGivesStep(front, c, b);
      assert cs == front + [c];
    }
  }

  /** No mode ever exceeds the twelve permission bits. */
  lemma {:induction false} FoldInRange(cs: seq<Clause>, mode: bv32)
    requires mode <= 0xfff
    ensures Fold(cs, mode) <= 0xfff
    decreases |cs|
  {
    if cs != [] {
      var c := cs[|cs| - 1];
      FoldInRange(cs[..|cs| - 1], mode);
      BitsOfClause(Addressed(c.who), 'r' in c.perms, 'w' in c.perms, 'x' in c.perms, 's' in c.perms, 't' in c.perms);
      CombineRange(c.op, Fold(cs[..|cs| - 1], mode),
                   BitsOf(Addressed(c.who), Rwx(c.perms), 's' in c.perms, 't' in c.perms), ClearOf(Addressed(c.who)));
    }
  }

  lemma InTwelve(x: bv32)
    ensures x <= 0xfff <==> x & 0xffff_f000 == 0
  {
  }

  lemma OrRange(x: bv32, y: bv32)
    requires x <= 0xfff && y <= 0xfff
    ensures x | y <= 0xfff
  {
    InTwelve(x);
    InTwelve(y);
    InTwelve(x | y);
    OrSplits(x, y, 0xffff_f000);
  }

  lemma AndSplits(x: bv32, y: bv32, m: bv32)
    ensures (x & y) & m == (x & m) & y
  {
  }

  lemma AndRange(x: bv32, y: bv32)
    requires x <= 0xfff
    ensures x & y <= 0xfff
  {
    InTwelve(x);
    InTwelve(x & y);
    AndSplits(x, y, 0xffff_f000);
  }

  lemma CombineRange(op: Op, mode: bv32, bits: bv32, clear: bv32)
    requires mode <= 0xfff && bits <= 0xfff
    ensures Combine(op, mode, bits, clear) <= 0xfff
  {
    match op
    case Plus => OrRange(mode, bits);
    case Minus => AndRange(mode, !bits);
    case Assign =>
      AndRange(mode, !clear);
      OrRange(mode & !clear, bits);
  }

  // ----- Reading clauses -----

  function WhoLen(p: string): (n: nat)
    ensures n <= |p|
  {
    if p == [] || !IsWho(p[0]) then 0 else 1 + WhoLen(p[1..])
  }

  /** The clause a comma-free piece spells, if any. */
  function ClauseOf(p: string): Option<Clause> {
    var n := WhoLen(p);
    if n == |p| || OpOf(p[n]).None? then None
    else if exists x | x in p[n + 1..] :: !IsPerm(x) then None
    else Some(Clause(p[..n], OpOf(p[n]).value, p[n + 1..]))
  }

  /** Rust's split: always at least one piece. */
  function Split(s: string): (ps: seq<string>)
    ensures ps != []
  {
    if s == [] then [[]]
    else
      var rest := Split(s[1..]);
      if s[0] == ',' then [[]] + rest else [[s[0]] + rest[0]] + rest[1..]
  }

  function ClausesOf(ps: seq<string>): Option<seq<Clause>> {
    if ps == [] then Some([])
    else
      var front, c := ClausesOf(ps[..|ps| - 1]), ClauseOf(ps[|ps| - 1]);
      if front.Some? && c.Some? then Some(front.value + [c.value]) else None
  }

  function ModeOf(s: string): Option<bv32> {
    var cs := ClausesOf(Split(s));
    if cs.Some? then Some(Fold(cs.value, 0)) else None
  }

  lemma {:induction false} WhoLenIs(p: string, n: nat)
    requires n <= |p| && forall i | 0 <= i < n :: IsWho(p[i])
    requires n == |p| || !IsWho(p[n])
    ensures WhoLen(p) == n
    decreases n
  {
    if n > 0 {
      WhoLenIs(p[1..], n - 1);
    }
  }

  lemma {:induction false} WhoLenWho(p: string)
    ensures forall i | 0 <= i < WhoLen(p) :: IsWho(p[i])
    decreases |p|
  {
    if p != [] && IsWho(p[0]) {
      WhoLenWho(p[1..]);
      forall i | 0 <= i < WhoLen(p) ensures IsWho(p[i]) {
        assert i > 0 ==> p[i] == p[1..][i - 1];
      }
    }
  }

  lemma PrintParts(c: Clause)
    ensures var p, n := Print(c), |c.who|;
            n < |p| && p[..n] == c.who && p[n] == OpChar(c.op) && p[n + 1..] == c.perms
  {
  }

  lemma PrintReads(c: Clause)
    requires WellFormed(c)
    ensures ClauseOf(Print(c)) == Some(c)
  {
    var p, n := Print(c), |c.who|;
    PrintParts(c);
    forall i | 0 <= i < n ensures IsWho(p[i]) {
      assert p[i] == c.who[i] && c.who[i] in c.who;
    }
    WhoLenIs(p, n);
  }

  lemma ReadPrints(p: string)
    requires ClauseOf(p).Some?
    ensures var c := ClauseOf(p).value; WellFormed(c) && Print(c) == p
  {
    WhoLenWho(p);
    assert p == p[..WhoLen(p)] + [p[WhoLen(p)]] + p[WhoLen(p) + 1..];
  }

  /** Printing and reading a clause are inverse to each other. */
  lemma ClauseRoundTrip(p: string, c: Clause)
    ensures ClauseOf(p) == Some(c) <==> WellFormed(c) && Print(c) == p
  {
    if ClauseOf(p).Some? {
      ReadPrints(p);
    }
    if WellFormed(c) {
      PrintReads(c);
    }
  }

  lemma {:induction false} SplitFirst(a: string, b: string)
    requires ',' !in a
    ensures Split(a + [','] + b) == [a] + Split(b)
    decreases |a|
  {
    if a == [] {
      assert a + [','] + b == [','] + b && ([','] + b)[1..] == b;
    } else {
      assert (a + [','] + b)[1..] == a[1..] + [','] + b;
      SplitFirst(a[1..], b);
      assert [a[0]] + a[1..] == a;
    }
  }

  lemma {:induction false} SplitWhole(a: string)
    requires ',' !in a
    ensures Split(a) == [a]
    decreases |a|
  {
    if a != [] {
      SplitWhole(a[1..]);
      assert [a[0]] + a[1..] == a;
    }
  }

  lemma NoComma(c: Clause)
    requires WellFormed(c)
    ensures ',' !in Print(c)
  {
  }

  function Prints(cs: seq<Clause>): (ps: seq<string>)
    ensures |ps| == |cs| && forall i | 0 <= i < |cs| :: ps[i] == Print(cs[i])
  {
    seq(|cs|, i requires 0 <= i < |cs| => Print(cs[i]))
  }

  lemma {:induction false} SplitText(cs: seq<Clause>)
    requires cs != [] && AllWellFormed(cs)
    ensures Split(Text(cs)) == Prints(cs)
    decreases |cs|
  {
    NoComma(cs[0]);
    if |cs| == 1 {
      SplitWhole(Print(cs[0]));
    } else {
      SplitFirst(Print(cs[0]), Text(cs[1..]));
      SplitText(cs[1..]);
    }
  }

  function Join(ps: seq<string>): string
    requires ps != []
  {
    if |ps| == 1 then ps[0] else ps[0] + [','] + Join(ps[1..])
  }

  lemma {:induction false} JoinSplit(s: string)
    ensures Join(Split(s)) == s
    decreases |s|
  {
    if s != [] {
      JoinSplit(s[1..]);
      var rest := Split(s[1..]);
      if s[0] == ',' {
        assert ([[]] + rest)[1..] == rest;
        assert [] + [','] + s[1..] == s;
      } else {
        var ps := [[s[0]] + rest[0]] + rest[1..];
        assert ps[1..] == rest[1..];
        assert Join(ps) == [s[0]] + Join(rest);
      }
    }
  }

  lemma {:induction false} JoinPrints(cs: seq<Clause>)
    requires cs != []
    ensures Join(Prints(cs)) == Text(cs)
    decreases |cs|
  {
    if |cs| > 1 {
      assert Prints(cs)[1..] == Prints(cs[1..]);
      JoinPrints(cs[1..]);
    }
  }

  lemma {:induction false} ClausesRoundTrip(ps: seq<string>, cs: seq<Clause>)
    ensures ClausesOf(ps) == Some(cs) <==> AllWellFormed(cs) && ps == Prints(cs)
    decreases |ps|
  {
    if ps == [] {
      assert cs == [] ==> Prints(cs) == [];
    } else if cs == [] {
      assert Prints(cs) == [];
    } else {
      var n, m := |ps| - 1, |cs| - 1;
      ClausesRoundTrip(ps[..n], cs[..m]);
      ClauseRoundTrip(ps[n], cs[m]);
      assert cs == cs[..m] + [cs[m]] && ps == ps[..n] + [ps[n]];
      assert Prints(cs)[..m] == Prints(cs[..m]);
      assert AllWellFormed(cs) <==> AllWellFormed(cs[..m]) && WellFormed(cs[m]);
      if ClausesOf(ps) == Some(cs) {
        LastOf(ClausesOf(ps[..n]).value, ClauseOf(ps[n]).value, cs);
      }
    }
  }

  lemma LastOf(front: seq<Clause>, c: Clause, cs: seq<Clause>)
    requires cs == front + [c]
    ensures front == cs[..|cs| - 1] && c == cs[|cs| - 1]
  {
  }

  /**
   * The parser and the grammar: a text is accepted exactly when it is the text of some nonempty
   * list of clauses, and its mode is then those clauses applied in order to 0.
   */
  lemma ParserMeetsGrammar(s: string, mode: bv32)
    ensures ModeOf(s) == Some(mode) <==>
            exists cs :: cs != [] && AllWellFormed(cs) && Text(cs) == s && Fold(cs, 0) == mode
  {
    if ModeOf(s) == Some(mode) {
      var cs := ClausesOf(Split(s)).value;
      ClausesRoundTrip(Split(s), cs);
      JoinSplit(s);
      JoinPrints(cs);
      assert cs != [] && AllWellFormed(cs) && Text(cs) == s && Fold(cs, 0) == mode;
    }
    forall cs | cs != [] && AllWellFormed(cs) && Text(cs) == s && Fold(cs, 0) == mode
      ensures ModeOf(s) == Some(mode)
    {
      SplitText(cs);
      ClausesRoundTrip(Split(s), cs);
    }
  }

  /** The grammar is unambiguous. */
  lemma TextIsInjective(cs: seq<Clause>, ds: seq<Clause>)
    requires cs != [] && ds != [] && AllWellFormed(cs) && AllWellFormed(ds) && Text(cs) == Text(ds)
    ensures cs == ds
  {
    SplitText(cs);
    SplitText(ds);
    ClausesRoundTrip(Split(Text(cs)), cs);
    ClausesRoundTrip(Split(Text(cs)), ds);
  }

  lemma {:induction false} FoldSplit(a: seq<Clause>, b: seq<Clause>, mode: bv32)
    ensures Fold(a + b, mode) == Fold(b, Fold(a, mode))
    decreases |b|
  {
    if b == [] {
      assert a + b == a;
    } else {
      assert (a + b)[..|a + b| - 1] == a + b[..|b| - 1];
      FoldSplit(a, b[..|b| - 1], mode);
    }
  }

  lemma {:induction false} TextAppend(a: seq<Clause>, b: seq<Clause>)
    requires a != [] && b != []
    ensures Text(a + b) == Text(a) + [','] + Text(b)
    decreases |a|
  {
    assert (a + b)[1..] == a[1..] + b;
    if |a| > 1 {
      TextAppend(a[1..], b);
    }
  }

  /** Joining two modes by a comma applies the second one's clauses to the first one's result. */
  lemma CommaComposes(a: seq<Clause>, b: seq<Clause>)
    requires a != [] && b != [] && AllWellFormed(a) && AllWellFormed(b)
    ensures ModeOf(Text(a) + [','] + Text(b)) == Some(Fold(b, Fold(a, 0)))
    ensures ModeOf(Text(a)) == Some(Fold(a, 0))
  {
    TextAppend(a, b);
    FoldSplit(a, b, 0);
    ParserMeetsGrammar(Text(a + b), Fold(a + b, 0));
    ParserMeetsGrammar(Text(a), Fold(a, 0));
  }

  // ----- The parser as it runs -----

  /** The who letters at the front of a piece, accumulated as a mask. */
  method ReadWho(bytes: string) returns (i: nat, who: bv8)
    ensures i == WhoLen(bytes) && who == WhoMask(bytes[..i])
  {
    i, who := 0, 0;
    while i < |bytes| && IsWho(bytes[i])
      invariant i <= |bytes| && (forall j | 0 <= j < i :: IsWho(bytes[j]))
      invariant who == WhoMask(bytes[..i])
    {
      assert bytes[..i + 1][..i] == bytes[..i];
      who := who | WhoBit(bytes[i]);
      i := i + 1;
    }
    WhoLenIs(bytes, i);
  }

  /** The permission letters from `start` on; fails at the first other character. */
  method ReadPerms(bytes: string, start: nat) returns (ok: bool, r: bool, w: bool, x: bool, s: bool, t: bool)
    requires start <= |bytes|
    ensures ok <==> forall c | c in bytes[start..] :: IsPerm(c)
    ensures ok ==> r == ('r' in bytes[start..]) && w == ('w' in bytes[start..]) && x == ('x' in bytes[start..])
                   && s == ('s' in bytes[start..]) && t == ('t' in bytes[start..])
  {
    r, w, x, s, t := false, false, false, false, false;
    var i := start;
    while i < |bytes|
      invariant start <= i <= |bytes|
      invariant forall c | c in bytes[start..i] :: IsPerm(c)
      invariant r == ('r' in bytes[start..i]) && w == ('w' in bytes[start..i]) && x == ('x' in bytes[start..i])
      invariant s == ('s' in bytes[start..i]) && t == ('t' in bytes[start..i])
    {
      var c := bytes[i];
      assert c == bytes[start..][i - start];
      if !IsPerm(c) {
        return false, r, w, x, s, t;
      }
      r, w, x, s, t := r || c == 'r', w || c == 'w', x || c == 'x', s || c == 's', t || c == 't';
      assert bytes[start..i + 1] == bytes[start..i] + [c];
      i := i + 1;
    }
    assert bytes[start..i] == bytes[start..];
    ok := true;
  }

  /** One comma-free piece applied to the mode so far. */
  method ReadClause(bytes: string, mode: bv32) returns (r: Option<bv32>)
    ensures r == if ClauseOf(bytes).Some? then Some(Apply(ClauseOf(bytes).value, mode)) else None
  {
    var i, who := ReadWho(bytes);
    if who == 0 {
      who := 7;
    }
    if i == |bytes| || OpOf(bytes[i]).None? {
      return None;
    }
    var op := OpOf(bytes[i]).value;
    var ok, pr, pw, px, ps, pt := ReadPerms(bytes, i + 1);
    if !ok {
      return None;
    }
    return Some(Combine(op, mode, BitsOf(who, RwxOf(pr, pw, px), ps, pt), ClearOf(who)));
  }

  /** The whole parser, clause by clause; by ParserMeetsGrammar its result is the grammar's. */
  method ParseSymbolicMode(s: string) returns (r: Option<bv32>)
    ensures r == ModeOf(s)
  {
    var pieces := Split(s);
    var mode: bv32 := 0;
    for n := 0 to |pieces|
      invariant ClausesOf(pieces[..n]).Some? && mode == Fold(ClausesOf(pieces[..n]).value, 0)
    {
      ClausesStep(pieces, n);
      var next := ReadClause(pieces[n], mode);
      if next.None? {
        ClausesStuck(pieces, n + 1);
        return None;
      }
      mode := next.value;
    }
    assert pieces[..|pieces|] == pieces;
    return Some(mode);
  }

  lemma ClausesStep(ps: seq<string>, n: nat)
    requires n < |ps| && ClausesOf(ps[..n]).Some?
    ensures var front, c := ClausesOf(ps[..n]).value, ClauseOf(ps[n]);
            && (c.None? ==> ClausesOf(ps[..n + 1]).None?)
            && (c.Some? ==> ClausesOf(ps[..n + 1]) == Some(front + [c.value])
                            && Fold(front + [c.value], 0) == Apply(c.value, Fold(front, 0)))
  {
    assert ps[..n + 1][..n] == ps[..n];
  }

  lemma {:induction false} ClausesStuck(ps: seq<string>, n: nat)
    requires n <= |ps| && ClausesOf(ps[..n]).None?
    ensures ClausesOf(ps).None?
    decreases |ps| - n
  {
    if n < |ps| {
      assert ps[..n + 1][..n] == ps[..n];
      ClausesStuck(ps, n + 1);
    } else {
      assert ps[..n] == ps;
    }
  }

  // ----- Octal modes and the test itself -----

  predicate IsOctalDigit(c: char) {
    '0' <= c <= '7'
  }

  predicate IsOctal(s: string) {
    forall c | c in s :: IsOctalDigit(c)
  }

  function OctalValue(s: string): nat
    requires IsOctal(s)
  {
    if s == [] then 0
    else
      assert IsOctalDigit(s[|s| - 1]);
      8 * OctalValue(s[..|s| - 1]) + (s[|s| - 1] as int - '0' as int)
  }

  /** -perm's mode: octal digits up to 7777, else symbolic. */
  function ParseMode(s: string): Option<bv32> {
    if s == [] then None
    else if IsOctal(s) then
      if OctalValue(s) <= 4095 then Some(OctalValue(s) as bv32) else None
    else ModeOf(s)
  }

  function Octal(n: nat): (s: string)
    ensures s != [] && IsOctal(s)
  {
    if n < 8 then ['0' + n as char] else Octal(n / 8) + ['0' + (n % 8) as char]
  }

  lemma {:induction false} OctalRoundTrip(n: nat)
    ensures OctalValue(Octal(n)) == n
    ensures ParseMode(Octal(n)) == if n <= 4095 then Some(n as bv32) else None
    decreases n
  {
    if n < 8 {
      assert Octal(n)[..0] == [];
    } else {
      OctalRoundTrip(n / 8);
      assert Octal(n)[..|Octal(n)| - 1] == Octal(n / 8);
    }
  }

  datatype PermKind = ExactBits | AllOf | AnyOf

  datatype PermPred = PermPred(mode: bv32, kind: PermKind)

  function ParsePerm(s: string): Option<PermPred> {
    var kind := if s != [] && s[0] == '/' then AnyOf else if s != [] && s[0] == '-' then AllOf else ExactBits;
    var mode := ParseMode(if kind == ExactBits then s else s[1..]);
    if mode.None? then None else Some(PermPred(mode.value, kind))
  }

  predicate MatchesExact(stMode: bv32, mode: bv32) {
    stMode & 0xfff == mode
  }

  predicate MatchesAll(stMode: bv32, mode: bv32) {
    (stMode & 0xfff) & mode == mode
  }

  predicate MatchesAny(stMode: bv32, mode: bv32) {
    mode == 0 || (stMode & 0xfff) & mode != 0
  }

  predicate PermMatches(p: PermPred, stMode: bv32) {
    match p.kind
    case ExactBits => MatchesExact(stMode, p.mode)
    case AllOf => MatchesAll(stMode, p.mode)
    case AnyOf => MatchesAny(stMode, p.mode)
  }

  lemma ModesInRange(s: string)
    ensures ParseMode(s).Some? ==> ParseMode(s).value <= 0xfff
  {
    if s != [] && IsOctal(s) {
      if OctalValue(s) <= 4095 {
        assert (OctalValue(s) as bv32) <= 0xfff;
      }
    } else if ClausesOf(Split(s)).Some? {
      FoldInRange(ClausesOf(Split(s)).value, 0);
    }
  }

  lemma MaskKeeps(m: bv32, b: ModeBit)
    requires IsBit(b)
    ensures Has(m & 0xfff, b) == Has(m, b)
  {
  }

  lemma TwelveBits(m: bv32)
    requires m <= 0xfff
    ensures m == (m & 0x800) | (m & 0x400) | (m & 0x200) | (m & 0x100) | (m & 0x80) | (m & 0x40)
                 | (m & 0x20) | (m & 0x10) | (m & 0x8) | (m & 0x4) | (m & 0x2) | (m & 0x1)
  {
  }

  lemma NoBits(m: bv32)
    requires m <= 0xfff
    ensures m == 0 <==> forall b | IsBit(b) :: !Has(m, b)
  {
    if forall b | IsBit(b) :: !Has(m, b) {
      assert !Has(m, SetUid) && !Has(m, SetGid) && !Has(m, Sticky);
      assert !Has(m, ClassBit(User, 'r')) && !Has(m, ClassBit(User, 'w')) && !Has(m, ClassBit(User, 'x'));
      assert !Has(m, ClassBit(Group, 'r')) && !Has(m, ClassBit(Group, 'w')) && !Has(m, ClassBit(Group, 'x'));
      assert !Has(m, ClassBit(Other, 'r')) && !Has(m, ClassBit(Other, 'w')) && !Has(m, ClassBit(Other, 'x'));
      TwelveBits(m);
    }
  }

  lemma MissingBits(m: bv32, n: bv32)
    requires n <= 0xfff
    ensures n & !m <= 0xfff && m & n <= 0xfff && (n & !m == 0 <==> m & n == n)
  {
  }

  /** Every bit of `n` is set in `m`. */
  ghost predicate Includes(m: bv32, n: bv32) {
    forall b | IsBit(b) && Has(n, b) :: Has(m, b)
  }

  /** Some bit of `n` is set in `m`. */
  ghost predicate Meets(m: bv32, n: bv32) {
    exists b :: IsBit(b) && Has(n, b) && Has(m, b)
  }

  lemma IncludesByBits(m: bv32, n: bv32)
    requires n <= 0xfff
    ensures m & n == n <==> Includes(m, n)
  {
    MissingBits(m, n);
    NoBits(n & !m);
    forall b | IsBit(b) ensures Has(n & !m, b) <==> Has(n, b) && !Has(m, b) {
      NotAt(m, b);
      AndAt(n, !m, b);
    }
  }

  lemma EqualByBits(m: bv32, n: bv32)
    requires m <= 0xfff && n <= 0xfff
    ensures m == n <==> forall b | IsBit(b) :: Has(m, b) == Has(n, b)
  {
    IncludesByBits(m, n);
    IncludesByBits(n, m);
    BothIncluded(m, n);
  }

  lemma BothIncluded(m: bv32, n: bv32)
    ensures m & n == n && n & m == m ==> m == n
  {
  }

  lemma MeetsByBits(m: bv32, n: bv32)
    requires n <= 0xfff
    ensures m & n != 0 <==> Meets(m, n)
  {
    MissingBits(m, n);
    NoBits(m & n);
    forall b | IsBit(b) ensures Has(m & n, b) <==> Has(m, b) && Has(n, b) {
      AndAt(m, n, b);
    }
  }

  lemma MaskedBits(m: bv32)
    ensures m & 0xfff <= 0xfff
    ensures forall b | IsBit(b) :: Has(m & 0xfff, b) == Has(m, b)
  {
    forall b | IsBit(b) ensures Has(m & 0xfff, b) == Has(m, b) {
      MaskKeeps(m, b);
    }
  }

  /** All twelve bits agree. */
  ghost predicate Agrees(m: bv32, n: bv32) {
    forall b | IsBit(b) :: Has(m, b) == Has(n, b)
  }

  /** `-perm MODE`, bit by bit, whatever else st_mode carries. */
  lemma ExactMeaning(stMode: bv32, mode: bv32)
    requires mode <= 0xfff
    ensures MatchesExact(stMode, mode) <==> Agrees(stMode, mode)
  {
    MaskedBits(stMode);
    EqualByBits(stMode & 0xfff, mode);
  }

  lemma MaskIrrelevant(m: bv32, n: bv32)
    requires n <= 0xfff
    ensures (m & 0xfff) & n == m & n
  {
  }

  /** `-perm -MODE`: every bit of the mode is set. */
  lemma AllOfMeaning(stMode: bv32, mode: bv32)
    requires mode <= 0xfff
    ensures MatchesAll(stMode, mode) <==> Includes(stMode, mode)
  {
    MaskIrrelevant(stMode, mode);
    IncludesByBits(stMode, mode);
  }

  /** `-perm /MODE`: some bit of the mode is set, or the mode has none. */
  lemma AnyOfMeaning(stMode: bv32, mode: bv32)
    requires mode <= 0xfff
    ensures MatchesAny(stMode, mode) <==> mode == 0 || Meets(stMode, mode)
  {
    MaskIrrelevant(stMode, mode);
    MeetsByBits(stMode, mode);
  }

  lemma AnyForm(s: string, mode: bv32, stMode: bv32)
    requires ParseMode(s) == Some(mode)
    ensures ParsePerm("/" + s) == Some(PermPred(mode, AnyOf))
    ensures PermMatches(PermPred(mode, AnyOf), stMode) <==> mode == 0 || Meets(stMode, mode)
  {
    assert ("/" + s)[1..] == s;
    ModesInRange(s);
    AnyOfMeaning(stMode, mode);
  }

  lemma AllForm(s: string, mode: bv32, stMode: bv32)
    requires ParseMode(s) == Some(mode)
    ensures ParsePerm("-" + s) == Some(PermPred(mode, AllOf))
    ensures PermMatches(PermPred(mode, AllOf), stMode) <==> Includes(stMode, mode)
  {
    assert ("-" + s)[1..] == s;
    ModesInRange(s);
    AllOfMeaning(stMode, mode);
  }

  lemma ExactForm(s: string, mode: bv32, stMode: bv32)
    requires ParseMode(s) == Some(mode)
    ensures s != [] && (s[0] != '-' ==> ParsePerm(s) == Some(PermPred(mode, ExactBits)))
    ensures PermMatches(PermPred(mode, ExactBits), stMode) <==> Agrees(stMode, mode)
  {
    NoSlash(s);
    ModesInRange(s);
    ExactMeaning(stMode, mode);
  }

  /**
   * The three forms of the option, parsed and matched: `/MODE` some bit, `-MODE` every bit, `MODE`
   * all twelve alike. A mode text that itself begins with `-` has no exact form.
   */
  lemma PermOption(s: string, mode: bv32, stMode: bv32)
    requires ParseMode(s) == Some(mode)
    ensures var any := ParsePerm("/" + s);
            any.Some? && (PermMatches(any.value, stMode) <==> mode == 0 || Meets(stMode, mode))
    ensures var all := ParsePerm("-" + s);
            all.Some? && (PermMatches(all.value, stMode) <==> Includes(stMode, mode))
    ensures s[0] != '-' ==>
              var exact := ParsePerm(s); exact.Some? && (PermMatches(exact.value, stMode) <==> Agrees(stMode, mode))
  {
    AnyForm(s, mode, stMode);
    AllForm(s, mode, stMode);
    ExactForm(s, mode, stMode);
  }

  lemma NoSlash(s: string)
    requires ParseMode(s).Some?
    ensures s != [] && s[0] != '/'
  {
    if s != [] && s[0] == '/' {
      assert !IsOctalDigit(s[0]) && !IsOctal(s);
      assert Split(s)[0][0] == '/';
      FirstPieceReads(Split(s));
    }
  }

  lemma {:induction false} FirstPieceReads(ps: seq<string>)
    requires ps != [] && ClausesOf(ps).Some?
    ensures ClauseOf(ps[0]).Some?
    decreases |ps|
  {
    if |ps| > 1 {
      FirstPieceReads(ps[..|ps| - 1]);
    }
  }
}
