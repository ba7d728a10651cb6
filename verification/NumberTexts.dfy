/** Every text of the numeric tests: which are accepted, and as what. */
module NumberTexts {
  import opened FileSystem
  import opened Comparisons

  function Zeros(k: nat): (s: string)
    ensures |s| == k && forall c | c in s :: c == '0'
  {
    seq(k, _ => '0')
  }

  lemma ZerosGrow(k: nat)
    ensures Zeros(k + 1) == Zeros(k) + "0"
  {
  }

  lemma Regroup(a: string, b: string, c: string)
    ensures (a + b) + c == a + (b + c)
  {
  }

  // ----- Digits -----

  lemma DecimalDigit(d: char)
    requires IsDigit(d)
    ensures Decimal(d as nat - '0' as nat) == [d]
  {
  }

  lemma DecimalFront(s: string)
    requires s != [] && AllDigits(s)
    ensures AllDigits(s[..|s| - 1]) && IsDigit(s[|s| - 1])
    ensures Value(s) == 10 * Value(s[..|s| - 1]) + (s[|s| - 1] as nat - '0' as nat)
  {
  }

  lemma DecimalMore(v: nat, d: char)
    requires v > 0 && IsDigit(d)
    ensures Decimal(10 * v + (d as nat - '0' as nat)) == Decimal(v) + [d]
  {
    var n := 10 * v + (d as nat - '0' as nat);
    assert n / 10 == v && n % 10 == d as nat - '0' as nat;
  }

  /** Every nonempty text of digits is some zeros before its value's own text. */
  lemma {:induction false} DecimalShape(s: string) returns (k: nat)
    requires s != [] && AllDigits(s)
    ensures s == Zeros(k) + Decimal(Value(s))
    decreases |s|
  {
    var front, d := s[..|s| - 1], s[|s| - 1];
    DecimalFront(s);
    assert s == front + [d];
    if front == [] {
      DecimalDigit(d);
      return 0;
    }
    var v := Value(front);
    var j := DecimalShape(front);
    if v == 0 {
      ZerosGrow(j);
      DecimalDigit(d);
      return j + 1;
    }
    DecimalMore(v, d);
    Regroup(Zeros(j), Decimal(v), [d]);
    return j;
  }

  lemma {:induction false} ZerosAreZero(k: nat)
    ensures AllDigits(Zeros(k)) && Value(Zeros(k)) == 0
    decreases k
  {
    if k > 0 {
      assert Zeros(k)[..k - 1] == Zeros(k - 1);
      ZerosAreZero(k - 1);
    }
  }

  lemma {:induction false} ValueOfZeros(k: nat, t: string)
    requires AllDigits(t)
    ensures AllDigits(Zeros(k) + t) && Value(Zeros(k) + t) == Value(t)
    decreases |t|
  {
    ZerosAreZero(k);
    if t == [] {
      assert Zeros(k) + t == Zeros(k);
    } else {
      var s := Zeros(k) + t;
      ValueOfZeros(k, t[..|t| - 1]);
      assert s[..|s| - 1] == Zeros(k) + t[..|t| - 1];
    }
  }

  /** The text of `n` with `k` zeros in front. */
  function Padded(k: nat, n: nat): string {
    Zeros(k) + Decimal(n)
  }

  lemma PaddedParses(k: nat, n: nat)
    ensures Padded(k, n) != [] && AllDigits(Padded(k, n)) && Value(Padded(k, n)) == n
    ensures IsDigit(Padded(k, n)[0])
  {
    ValueOfDecimal(n);
    ValueOfZeros(k, Decimal(n));
    assert Padded(k, n)[0] in Padded(k, n);
  }

  // ----- Signed numbers -----

  predicate SpellsI64(s: string, k: nat, v: i64) {
    || (v >= 0 && (s == Padded(k, v) || s == "+" + Padded(k, v)))
    || (v <= 0 && s == "-" + Padded(k, Magnitude(v)))
  }

  /** `s` is `v` in decimal: zeros in front, a plus before what is not negative, a minus before what is not positive. */
  ghost predicate I64Text(s: string, v: i64) {
    exists k :: SpellsI64(s, k, v)
  }

  lemma SpelledParses(s: string, k: nat, v: i64)
    requires SpellsI64(s, k, v)
    ensures ParseI64(s) == Some(v)
  {
    var p := Padded(k, Magnitude(v));
    PaddedParses(k, Magnitude(v));
    assert ("+" + p)[1..] == p && ("-" + p)[1..] == p;
  }

  lemma ParsedIsSpelled(s: string, v: i64) returns (k: nat)
    requires ParseI64(s) == Some(v)
    ensures SpellsI64(s, k, v)
  {
    if s[0] == '-' || s[0] == '+' {
      k := DecimalShape(s[1..]);
      assert s == [s[0]] + s[1..];
    } else {
      k := DecimalShape(s);
    }
  }

  /** Exactly these texts are numbers. */
  lemma I64Texts(s: string, v: i64)
    ensures ParseI64(s) == Some(v) <==> I64Text(s, v)
  {
    if I64Text(s, v) {
      var k :| SpellsI64(s, k, v);
      SpelledParses(s, k, v);
    } else if ParseI64(s) == Some(v) {
      var k := ParsedIsSpelled(s, v);
    }
  }

  // ----- Comparisons and sizes -----

  /** `s` is the comparison `c`: a plus, a minus, or neither, before the text of its number. */
  ghost predicate ComparisonText(s: string, c: Comparison) {
    match c
    case Greater(n) => s != [] && s[0] == '+' && I64Text(s[1..], n)
    case Less(n) => s != [] && s[0] == '-' && I64Text(s[1..], n)
    case Exact(n) => s != [] && s[0] != '+' && s[0] != '-' && I64Text(s, n)
  }

  /** Exactly these texts are comparisons; the sign before the number is taken off first. */
  lemma ComparisonTexts(s: string, c: Comparison)
    ensures ParseComparison(s) == Some(c) <==> ComparisonText(s, c)
  {
    I64Texts(s, c.n);
    if s != [] {
      I64Texts(s[1..], c.n);
    }
  }

  predicate SuffixIs(s: string, k: nat, unit: nat) {
    s != [] && k < |SUFFIXES| && s[|s| - 1] == SUFFIXES[k] && unit == Kibi(k)
  }

  lemma UnitIsSuffix(s: string, unit: nat)
    requires s != []
    ensures UnitOf(s[|s| - 1]) == Some(unit) <==> exists k :: SuffixIs(s, k, unit)
  {
    forall k | SuffixIs(s, k, unit) ensures UnitOf(s[|s| - 1]) == Some(unit) {
      UnitPowers(k);
    }
    if UnitOf(s[|s| - 1]) == Some(unit) {
      var c := s[|s| - 1];
      var k := if c == 'c' then 0 else if c == 'k' then 1 else if c == 'M' then 2 else if c == 'G' then 3 else 4;
      UnitPowers(k);
      assert SuffixIs(s, k, unit);
    }
  }

  /** A size is a comparison before one of the five suffixes, which count in powers of 1024; nothing else is. */
  lemma SizeTextsAre(s: string, p: SizePred)
    ensures ParseSize(s) == Some(p) <==>
              s != [] && (exists k :: SuffixIs(s, k, p.unit)) && ComparisonText(s[..|s| - 1], p.cmp)
  {
    if s != [] {
      UnitIsSuffix(s, p.unit);
      ComparisonTexts(s[..|s| - 1], p.cmp);
    }
  }
}
