/** find's numeric tests: N / +N / -N over signed and unsigned fields, sizes and times. */
module Comparisons {
  import opened FileSystem

  const I64_MAX: int := 0x7fff_ffff_ffff_ffff
  const I64_MIN: int := -0x8000_0000_0000_0000

  type i64 = x: int | -0x8000_0000_0000_0000 <= x <= 0x7fff_ffff_ffff_ffff
  type u64 = x: int | 0 <= x <= 0xffff_ffff_ffff_ffff
  type u32 = x: int | 0 <= x <= 0xffff_ffff

  datatype Comparison = Exact(n: i64) | Greater(n: i64) | Less(n: i64)

  /** The comparison as mathematics has it. */
  predicate Holds(c: Comparison, v: int) {
    match c
    case Exact(n) => v == n
    case Greater(n) => v > n
    case Less(n) => v < n
  }

  // ----- Unsigned fields -----

  /** The comparison as run on an unsigned field: values above the signed range are clamped. */
  predicate MatchesU64(c: Comparison, v: u64) {
    Holds(c, if v <= I64_MAX then v else I64_MAX)
  }

  /** Clamping preserves the verdict exactly when the threshold or the value is not at the edge. */
  lemma ClampBoundary(c: Comparison, v: u64)
    ensures (MatchesU64(c, v) == Holds(c, v)) <==> (c.Less? || c.n < I64_MAX || v <= I64_MAX)
  {
  }

  /** A field where clamping does change the verdict: more than i64::MAX bytes are not `+` that many. */
  lemma ClampCounterexample()
    ensures MatchesU64(Greater(I64_MAX), I64_MAX + 1) != Holds(Greater(I64_MAX), I64_MAX + 1)
    ensures MatchesU64(Exact(I64_MAX), I64_MAX + 1) != Holds(Exact(I64_MAX), I64_MAX + 1)
  {
  }

  // ----- Parsing -----

  predicate IsDigit(c: char) {
    '0' <= c <= '9'
  }

  predicate AllDigits(s: string) {
    forall c | c in s :: IsDigit(c)
  }

  function Value(s: string): nat
    requires AllDigits(s)
  {
    if s == [] then 0
    else
      assert s[|s| - 1] in s;
      10 * Value(s[..|s| - 1]) + (s[|s| - 1] as int - '0' as int)
  }

  /** A signed 64-bit decimal: an optional sign, at least one digit, no overflow. */
  function ParseI64(s: string): Option<i64> {
    var negative := s != [] && s[0] == '-';
    var digits := if s != [] && (s[0] == '-' || s[0] == '+') then s[1..] else s;
    if digits == [] || !AllDigits(digits) then None
    else
      var v := if negative then -(Value(digits) as int) else Value(digits) as int;
      if I64_MIN <= v <= I64_MAX then Some(v) else None
  }

  function ParseComparison(s: string): Option<Comparison> {
    var kind := if s != [] && (s[0] == '+' || s[0] == '-') then s[0] else '=';
    var v := ParseI64(if kind == '=' then s else s[1..]);
    if v.None? then None
    else Some(if kind == '+' then Greater(v.value) else if kind == '-' then Less(v.value) else Exact(v.value))
  }

  function Decimal(n: nat): (s: string)
    ensures s != [] && AllDigits(s)
  {
    if n < 10 then ['0' + n as char] else Decimal(n / 10) + ['0' + (n % 10) as char]
  }

  lemma {:induction false} ValueOfDecimal(n: nat)
    ensures Value(Decimal(n)) == n
    decreases n
  {
    if n < 10 {
      assert Decimal(n)[..0] == [];
    } else {
      ValueOfDecimal(n / 10);
      assert Decimal(n)[..|Decimal(n)| - 1] == Decimal(n / 10);
    }
  }

  function Magnitude(n: int): nat {
    if n < 0 then -n else n
  }

  function ShowI64(n: i64): string {
    if n < 0 then "-" + Decimal(Magnitude(n)) else Decimal(n)
  }

  function Show(c: Comparison): string {
    match c
    case Exact(n) => ShowI64(n)
    case Greater(n) => "+" + ShowI64(n)
    case Less(n) => "-" + ShowI64(n)
  }

  lemma ShownI64Parses(n: i64)
    ensures ParseI64(ShowI64(n)) == Some(n)
  {
    var d := Decimal(Magnitude(n));
    ValueOfDecimal(Magnitude(n));
    assert IsDigit(d[0]);
    if n < 0 {
      assert ShowI64(n)[1..] == d;
    }
  }

  lemma SignedText(sign: char, n: i64)
    ensures ([sign] + ShowI64(n))[1..] == ShowI64(n)
    ensures n < 0 ==> ShowI64(n)[0] == '-' && ShowI64(n)[1..] == Decimal(Magnitude(n))
    ensures n >= 0 ==> IsDigit(ShowI64(n)[0])
  {
  }

  /**
   * Written and read back, a comparison is itself, unless it demands a negative number exactly:
   * the sign of `-5` is taken for "less than".
   */
  lemma ComparisonRoundTrip(c: Comparison)
    ensures ParseComparison(Show(c)) == Some(c) <==> !(c.Exact? && c.n < 0)
  {
    ShownI64Parses(c.n);
    SignedText(if c.Less? then '-' else '+', c.n);
    if c.Exact? && c.n < 0 {
      NeverExactNegative(Show(c), c);
    }
  }

  lemma NeverExactNegative(s: string, c: Comparison)
    requires c.Exact? && c.n < 0
    ensures ParseComparison(s) != Some(c)
  {
  }

  /** The comparisons some text denotes are all but the exact negative ones. */
  lemma ParsableComparisons(c: Comparison)
    ensures (exists s :: ParseComparison(s) == Some(c)) <==> !(c.Exact? && c.n < 0)
  {
    ComparisonRoundTrip(c);
    if c.Exact? && c.n < 0 {
      forall s ensures ParseComparison(s) != Some(c) {
        NeverExactNegative(s, c);
      }
    }
  }

  // ----- Sizes -----

  function DivCeil(a: nat, b: nat): nat
    requires b > 0
  {
    if a % b == 0 then a / b else a / b + 1
  }

  datatype SizePred = SizePred(cmp: Comparison, unit: nat)

  function UnitOf(suffix: char): Option<nat> {
    if suffix == 'c' then Some(1)
    else if suffix == 'k' then Some(0x400)
    else if suffix == 'M' then Some(0x10_0000)
    else if suffix == 'G' then Some(0x4000_0000)
    else if suffix == 'T' then Some(0x100_0000_0000)
    else None
  }

  predicate IsUnit(u: nat) {
    u in {1, 0x400, 0x10_0000, 0x4000_0000, 0x100_0000_0000}
  }

  function ParseSize(s: string): (r: Option<SizePred>)
    ensures r.Some? ==> IsUnit(r.value.unit)
  {
    if s == [] then None
    else
      var unit := UnitOf(s[|s| - 1]);
      if unit.None? then None
      else
        var cmp := ParseComparison(s[..|s| - 1]);
        if cmp.None? then None else Some(SizePred(cmp.value, unit.value))
  }

  const SUFFIXES := "ckMGT"

  function Kibi(k: nat): nat {
    if k == 0 then 1 else 1024 * Kibi(k - 1)
  }

  /** A comparison with the k-th suffix counts in units of 1024 to the power k. */
  lemma SizeTexts(c: Comparison, k: nat)
    requires !(c.Exact? && c.n < 0) && k < |SUFFIXES|
    ensures ParseSize(Show(c) + [SUFFIXES[k]]) == Some(SizePred(c, Kibi(k)))
  {
    var s := Show(c) + [SUFFIXES[k]];
    ComparisonRoundTrip(c);
    assert s[..|s| - 1] == Show(c) && s[|s| - 1] == SUFFIXES[k];
    UnitPowers(k);
  }

  lemma UnitPowers(k: nat)
    requires k < |SUFFIXES|
    ensures UnitOf(SUFFIXES[k]) == Some(Kibi(k))
  {
    assert Kibi(1) == 1024 && Kibi(2) == 1024 * Kibi(1) && Kibi(3) == 1024 * Kibi(2) && Kibi(4) == 1024 * Kibi(3);
  }

  predicate SizeMatches(p: SizePred, size: u64)
    requires IsUnit(p.unit)
  {
    MatchesU64(p.cmp, DivCeil(size, p.unit))
  }

  lemma Monotone(x: int, y: int, b: nat)
    requires x <= y
    ensures x * b <= y * b
  {
  }

  lemma QuotientVersus(q: int, r: int, b: nat, n: int)
    requires 0 <= r < b
    ensures q >= n <==> q * b + r >= n * b
    ensures r > 0 ==> (q >= n <==> q * b + r > n * b)
  {
    if q >= n {
      Monotone(n, q, b);
    } else {
      Monotone(q + 1, n, b);
      assert (q + 1) * b == q * b + b;
    }
  }

  lemma DivCeilBounds(a: nat, b: nat, n: int)
    requires b > 0
    ensures DivCeil(a, b) <= n <==> a <= n * b
    ensures DivCeil(a, b) <= a
  {
    var q, r := a / b, a % b;
    assert a == q * b + r;
    QuotientVersus(q, r, b, n);
    if r == 0 {
      QuotientVersus(q, r, b, n + 1);
      assert (n + 1) * b == n * b + b;
      if q <= n {
        Monotone(q, n, b);
      }
    }
    Monotone(1, b, q);
  }

  /** Rounding up, in a unit above one byte: the size tests are exactly these intervals. */
  lemma SizeIntervals(n: i64, u: nat, size: u64)
    requires IsUnit(u) && u > 1
    ensures SizeMatches(SizePred(Exact(n), u), size) <==> (n - 1) * u < size <= n * u
    ensures SizeMatches(SizePred(Greater(n), u), size) <==> size > n * u
    ensures SizeMatches(SizePred(Less(n), u), size) <==> size <= (n - 1) * u
  {
    DivCeilBounds(size, u, n);
    DivCeilBounds(size, u, n - 1);
    HalfIsPlenty(size, u);
  }

  lemma HalfIsPlenty(size: u64, u: nat)
    requires IsUnit(u) && u > 1
    ensures DivCeil(size, u) <= I64_MAX
  {
    DivCeilBounds(size, u, I64_MAX);
  }

  /** For every size and threshold exactly one of `N`, `+N`, `-N` holds, in any unit. */
  lemma SizeTrichotomy(n: i64, u: nat, size: u64)
    requires IsUnit(u)
    ensures var e, g, l := SizeMatches(SizePred(Exact(n), u), size), SizeMatches(SizePred(Greater(n), u), size),
                           SizeMatches(SizePred(Less(n), u), size);
            (e || g || l) && !(e && g) && !(e && l) && !(g && l)
  {
    DivCeilBounds(size, u, size);
  }

  // ----- Times -----

  /** Rust's signed division drops the remainder, rounding towards zero. */
  function TruncDiv(a: int, b: nat): int
    requires b > 0
  {
    if a >= 0 then a / b else -((-a) / b)
  }

  /** Signed 64-bit subtraction in a release build wraps around. */
  function WrapSub(a: i64, b: i64): i64 {
    var d := a - b;
    if d > I64_MAX then d - 0x1_0000_0000_0000_0000
    else if d < I64_MIN then d + 0x1_0000_0000_0000_0000
    else d
  }

  predicate AgeMatches(c: Comparison, now: i64, t: i64, unit: nat)
    requires unit > 0
  {
    Holds(c, TruncDiv(WrapSub(now, t), unit))
  }

  predicate NoOverflow(now: i64, t: i64) {
    I64_MIN <= now - t <= I64_MAX
  }

  lemma FloorDiv(a: nat, b: nat, n: int)
    requires b > 0
    ensures a / b >= n <==> a >= n * b
    ensures a / b >= 0
  {
    var q, r := a / b, a % b;
    assert a == q * b + r;
    QuotientVersus(q, r, b, n);
  }

  /** An age above `n`: whole units beyond it, or, in the future, not as far ahead. */
  predicate Older(n: int, elapsed: int, unit: nat) {
    if n >= 0 then elapsed >= (n + 1) * unit else elapsed > n * unit
  }

  /** An age below `n`. */
  predicate Younger(n: int, elapsed: int, unit: nat) {
    if n > 0 then elapsed < n * unit else elapsed <= (n - 1) * unit
  }

  lemma TruncDivAbove(a: int, b: nat, n: int)
    requires b > 0
    ensures TruncDiv(a, b) > n <==> Older(n, a, b)
  {
    if n >= 0 {
      FloorDiv(Magnitude(a), b, n + 1);
      Monotone(0, n + 1, b);
    } else {
      FloorDiv(Magnitude(a), b, -n);
      Monotone(1, -n, b);
      assert (-n) * b == -(n * b);
    }
  }

  lemma TruncDivBelow(a: int, b: nat, n: int)
    requires b > 0
    ensures TruncDiv(a, b) < n <==> Younger(n, a, b)
  {
    TruncDivAbove(a, b, n - 1);
    if n <= 0 {
      assert TruncDiv(a, b) < n <==> !Older(n - 1, a, b);
    }
  }

  /**
   * The age tests, without overflow, for every threshold a text denotes: `+N` is N+1 whole units
   * or more, `-N` is less than N units, `N` is the N-th unit, and age 0 is less than one unit
   * either way, so a file slightly in the future counts as new. Negative thresholds mirror this.
   */
  lemma AgeThresholds(n: i64, now: i64, t: i64, unit: nat)
    requires unit > 0 && NoOverflow(now, t)
    ensures AgeMatches(Greater(n), now, t, unit)
            <==> if n >= 0 then now - t >= (n + 1) * unit else now - t > n * unit
    ensures AgeMatches(Less(n), now, t, unit)
            <==> if n > 0 then now - t < n * unit else now - t <= (n - 1) * unit
    ensures n > 0 ==> (AgeMatches(Exact(n), now, t, unit) <==> n * unit <= now - t < (n + 1) * unit)
    ensures n < 0 ==> (AgeMatches(Exact(n), now, t, unit) <==> (n - 1) * unit < now - t <= n * unit)
    ensures AgeMatches(Exact(0), now, t, unit) <==> now - t < unit && t - now < unit
  {
    TruncDivAbove(now - t, unit, n);
    TruncDivBelow(now - t, unit, n);
    TruncDivAbove(now - t, unit, 0);
    TruncDivBelow(now - t, unit, 0);
  }

  /** The wrapped difference is the real one exactly when it fits. */
  lemma WrapBoundary(now: i64, t: i64)
    ensures WrapSub(now, t) == now - t <==> NoOverflow(now, t)
  {
  }

  const TWO_64: int := 0x1_0000_0000_0000_0000

  /** The test gives the verdict on the real age. */
  predicate JudgesAge(c: Comparison, now: i64, t: i64, unit: nat)
    requires unit > 0
  {
    AgeMatches(c, now, t, unit) == Holds(c, TruncDiv(now - t, unit))
  }

  lemma FutureByWrap(now: i64, t: i64)
    requires now >= 0 && !NoOverflow(now, t)
    ensures now - t > I64_MAX && WrapSub(now, t) == now - t - TWO_64 < 0
  {
  }

  /**
   * Exactly when a test judges the real age, for any clock reading since the epoch: without
   * overflow, or when the real age and the wrapped one, which is in the future, fall on the same
   * side of the threshold.
   */
  lemma OverflowVerdict(n: i64, now: i64, t: i64, unit: nat)
    requires 0 < unit <= I64_MAX && now >= 0
    ensures JudgesAge(Greater(n), now, t, unit) <==>
              NoOverflow(now, t) || if n >= 0 then now - t < (n + 1) * unit else now - t - TWO_64 > n * unit
    ensures JudgesAge(Less(n), now, t, unit) <==>
              NoOverflow(now, t) || if n > 0 then now - t < n * unit else now - t - TWO_64 > (n - 1) * unit
    ensures JudgesAge(Exact(n), now, t, unit) <==>
              || NoOverflow(now, t)
              || if n > 0 then now - t < n * unit || now - t >= (n + 1) * unit
                 else now - t - TWO_64 <= (n - 1) * unit || (n < 0 && now - t - TWO_64 > n * unit)
  {
    if NoOverflow(now, t) {
      assert WrapSub(now, t) == now - t;
    } else {
      FutureByWrap(now, t);
      TruncDivAbove(now - t, unit, n);
      TruncDivBelow(now - t, unit, n);
      TruncDivAbove(now - t - TWO_64, unit, n);
      TruncDivBelow(now - t - TWO_64, unit, n);
      OneSide(n, now - t, unit);
    }
  }

  /** Against a positive age and a negative one, thresholds of the other sign are no test. */
  lemma OneSide(n: int, elapsed: int, unit: nat)
    requires 0 < unit && I64_MAX < elapsed < TWO_64
    ensures n >= 0 ==> !Older(n, elapsed - TWO_64, unit)
    ensures n > 0 ==> Younger(n, elapsed - TWO_64, unit)
    ensures n < 0 ==> Older(n, elapsed, unit)
    ensures n <= 0 ==> !Younger(n, elapsed, unit)
  {
    if n >= 0 {
      Monotone(0, n, unit);
      Monotone(0, n + 1, unit);
    }
    if n <= 0 {
      Monotone(n, 0, unit);
      Monotone(n - 1, 0, unit);
    }
  }

  /** Thresholds that fit 64 bits in seconds are judged right exactly without overflow. */
  lemma OrdinaryThresholds(n: i64, now: i64, t: i64, unit: nat)
    requires 0 < unit <= I64_MAX && now >= 0 && n >= 0 && (n + 1) * unit <= I64_MAX
    ensures JudgesAge(Greater(n), now, t, unit) <==> NoOverflow(now, t)
    ensures n > 0 ==> (JudgesAge(Less(n), now, t, unit) <==> NoOverflow(now, t))
    ensures n > 0 ==> JudgesAge(Exact(n), now, t, unit)
  {
    OverflowVerdict(n, now, t, unit);
    Monotone(n, n + 1, unit);
    if !NoOverflow(now, t) {
      FutureByWrap(now, t);
    }
  }

  /** An age judged wrong: in November 2023 a time at the lower end of 64 bits is not `+1` days old. */
  lemma AgeCounterexample()
    ensures !JudgesAge(Greater(1), 1_700_000_000, I64_MIN, 86400)
    ensures !AgeMatches(Greater(1), 1_700_000_000, I64_MIN, 86400)
  {
    OrdinaryThresholds(1, 1_700_000_000, I64_MIN, 86400);
    FutureByWrap(1_700_000_000, I64_MIN);
    TruncDivAbove(1_700_000_000 - I64_MIN - TWO_64, 86400, 1);
  }

  /** `-newer`: strictly later, in whole seconds. */
  predicate NewerMatches(refMtime: i64, t: i64) {
    t > refMtime
  }
}
