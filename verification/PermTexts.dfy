/** Every text of -perm: which are accepted, and what each of them means. */
module PermTexts {
  import opened FileSystem
  import opened Perm
  import opened NumberTexts

  // ----- Numbers, leading zeros included -----

  lemma OctalDigit(d: char)
    requires IsOctalDigit(d)
    ensures Octal(d as nat - '0' as nat) == [d]
  {
  }

  lemma OctalFront(s: string)
    requires s != [] && IsOctal(s)
    ensures IsOctal(s[..|s| - 1]) && IsOctalDigit(s[|s| - 1])
    ensures OctalValue(s) == 8 * OctalValue(s[..|s| - 1]) + (s[|s| - 1] as nat - '0' as nat)
  {
  }

  lemma OctalMore(v: nat, d: char)
    requires v > 0 && IsOctalDigit(d)
    ensures Octal(8 * v + (d as nat - '0' as nat)) == Octal(v) + [d]
  {
    var n := 8 * v + (d as nat - '0' as nat);
    assert n / 8 == v && n % 8 == d as nat - '0' as nat;
  }

  /** Every nonempty octal text is some zeros before its value's own text. */
  lemma {:induction false} OctalShape(s: string) returns (k: nat)
    requires s != [] && IsOctal(s)
    ensures s == Zeros(k) + Octal(OctalValue(s))
    decreases |s|
  {
    var front, d := s[..|s| - 1], s[|s| - 1];
    OctalFront(s);
    assert s == front + [d];
    if front == [] {
      OctalDigit(d);
      return 0;
    }
    var v := OctalValue(front);
    var j := OctalShape(front);
    if v == 0 {
      ZerosGrow(j);
      OctalDigit(d);
      return j + 1;
    }
    OctalMore(v, d);
    Regroup(Zeros(j), Octal(v), [d]);
    return j;
  }

  lemma {:induction false} ZerosAreOctal(k: nat)
    ensures IsOctal(Zeros(k)) && OctalValue(Zeros(k)) == 0
    decreases k
  {
    if k > 0 {
      assert Zeros(k)[..k - 1] == Zeros(k - 1);
      ZerosAreOctal(k - 1);
    }
  }

  lemma {:induction false} OctalOfZeros(k: nat, t: string)
    requires IsOctal(t)
    ensures IsOctal(Zeros(k) + t) && OctalValue(Zeros(k) + t) == OctalValue(t)
    decreases |t|
  {
    ZerosAreOctal(k);
    if t == [] {
      assert Zeros(k) + t == Zeros(k);
    } else {
      var s := Zeros(k) + t;
      OctalOfZeros(k, t[..|t| - 1]);
      assert s[..|s| - 1] == Zeros(k) + t[..|t| - 1];
    }
  }

  predicate Spells(s: string, k: nat, n: nat, mode: bv32) {
    n <= 4095 && s == Zeros(k) + Octal(n) && n as bv32 == mode
  }

  /** `s` is an octal number up to 7777, leading zeros allowed, and `mode` its value. */
  ghost predicate NumberText(s: string, mode: bv32) {
    exists k, n :: Spells(s, k, n, mode)
  }

  lemma {:induction false} ValueOfOctal(n: nat)
    ensures OctalValue(Octal(n)) == n
    decreases n
  {
    if n < 8 {
      assert Octal(n)[..0] == [];
    } else {
      ValueOfOctal(n / 8);
      assert Octal(n)[..|Octal(n)| - 1] == Octal(n / 8);
    }
  }

  lemma OctalParses(s: string, n: nat)
    requires s != [] && IsOctal(s) && OctalValue(s) == n <= 4095
    ensures ParseMode(s) == Some(n as bv32)
  {
  }

  lemma NumberParses(s: string, mode: bv32, k: nat, n: nat)
    requires Spells(s, k, n, mode)
    ensures ParseMode(s) == Some(mode)
  {
    ValueOfOctal(n);
    OctalOfZeros(k, Octal(n));
    OctalParses(s, n);
  }

  lemma NumberParsed(s: string, mode: bv32)
    requires ParseMode(s) == Some(mode) && IsOctal(s)
    ensures NumberText(s, mode)
  {
    var k := OctalShape(s);
    assert Spells(s, k, OctalValue(s), mode);
  }

  // ----- Clauses -----

  /** `s` is the text of a list of clauses, and `mode` what they make of 0. */
  ghost predicate ClausesText(s: string, mode: bv32) {
    exists cs :: cs != [] && AllWellFormed(cs) && Text(cs) == s && Fold(cs, 0) == mode
  }

  lemma OperatorInside(c: Clause, rest: string)
    ensures Print(c) + rest != [] && !IsOctal(Print(c) + rest)
  {
    var s := Print(c) + rest;
    assert s[|c.who|] == OpChar(c.op);
    assert s[|c.who|] in s && !IsOctalDigit(s[|c.who|]);
  }

  /** No text of clauses is a number: it holds an operator. */
  lemma TextHasOp(cs: seq<Clause>)
    requires cs != []
    ensures !IsOctal(Text(cs)) && Text(cs) != []
  {
    if |cs| == 1 {
      OperatorInside(cs[0], []);
      assert Print(cs[0]) + [] == Print(cs[0]);
    } else {
      OperatorInside(cs[0], [','] + Text(cs[1..]));
      assert Print(cs[0]) + ([','] + Text(cs[1..])) == Text(cs);
    }
  }

  lemma ClausesParse(s: string, mode: bv32, cs: seq<Clause>)
    requires cs != [] && AllWellFormed(cs) && Text(cs) == s && Fold(cs, 0) == mode
    ensures ParseMode(s) == Some(mode)
  {
    TextHasOp(cs);
    ParserMeetsGrammar(s, mode);
  }

  lemma ClausesParsed(s: string, mode: bv32)
    requires ParseMode(s) == Some(mode) && !IsOctal(s)
    ensures ClausesText(s, mode)
  {
    ParserMeetsGrammar(s, mode);
  }

  // ----- The option -----

  /** `s` is a number or clauses, with `mode` as what it means. */
  ghost predicate ModeText(s: string, mode: bv32) {
    NumberText(s, mode) || ClausesText(s, mode)
  }

  /** A mode: exactly the octal numbers up to 7777 and the texts of clauses are accepted, as what they mean. */
  lemma ModeTexts(s: string, mode: bv32)
    ensures ParseMode(s) == Some(mode) <==> ModeText(s, mode)
  {
    if NumberText(s, mode) {
      var k, n :| Spells(s, k, n, mode);
      NumberParses(s, mode, k, n);
    } else if ClausesText(s, mode) {
      var cs :| cs != [] && AllWellFormed(cs) && Text(cs) == s && Fold(cs, 0) == mode;
      ClausesParse(s, mode, cs);
    } else if ParseMode(s) == Some(mode) {
      if IsOctal(s) {
        NumberParsed(s, mode);
      } else {
        ClausesParsed(s, mode);
      }
    }
  }

  lemma PrefixedParse(c: char, t: string, mode: bv32)
    requires c == '/' || c == '-'
    ensures var kind := if c == '/' then AnyOf else AllOf;
            ParsePerm([c] + t) == Some(PermPred(mode, kind)) <==> ParseMode(t) == Some(mode)
  {
    assert ([c] + t)[1..] == t;
  }

  lemma BareParse(s: string, mode: bv32)
    ensures ParsePerm(s) == Some(PermPred(mode, ExactBits)) <==>
              (s == [] || s[0] != '-') && ParseMode(s) == Some(mode)
  {
    if ParseMode(s) == Some(mode) {
      NoSlash(s);
    }
  }

  /** The accepted texts of the three forms: `/MODE` for any bit, `-MODE` for all bits, `MODE` for exactly these. */
  lemma PermTextsAre(t: string, mode: bv32)
    ensures ParsePerm("/" + t) == Some(PermPred(mode, AnyOf)) <==> ModeText(t, mode)
    ensures ParsePerm("-" + t) == Some(PermPred(mode, AllOf)) <==> ModeText(t, mode)
    ensures ParsePerm(t) == Some(PermPred(mode, ExactBits)) <==> (t == [] || t[0] != '-') && ModeText(t, mode)
  {
    ModeTexts(t, mode);
    PrefixedParse('/', t, mode);
    PrefixedParse('-', t, mode);
    BareParse(t, mode);
  }

  /** No other text means any bit or all bits. */
  lemma PrefixIsKind(s: string, p: PermPred)
    requires ParsePerm(s) == Some(p)
    ensures s != []
    ensures p.kind.AnyOf? <==> s[0] == '/'
    ensures p.kind.AllOf? <==> s[0] == '-'
  {
  }

  /** No accepted option exceeds twelve bits. */
  lemma PermInRange(s: string)
    ensures ParsePerm(s).Some? ==> ParsePerm(s).value.mode <= 0xfff
  {
    ModesInRange(s);
    if s != [] {
      ModesInRange(s[1..]);
    }
  }

  /** Symbolic clauses through the whole option: parsed, folded from 0 and matched bit by bit. */
  lemma SymbolicOption(cs: seq<Clause>, stMode: bv32)
    requires cs != [] && AllWellFormed(cs)
    ensures var any := ParsePerm("/" + Text(cs));
            any.Some? && (PermMatches(any.value, stMode) <==> Fold(cs, 0) == 0 || Meets(stMode, Fold(cs, 0)))
    ensures var all := ParsePerm("-" + Text(cs));
            all.Some? && (PermMatches(all.value, stMode) <==> Includes(stMode, Fold(cs, 0)))
    ensures Text(cs) != [] && (Text(cs)[0] != '-' ==>
              var exact := ParsePerm(Text(cs));
              exact.Some? && (PermMatches(exact.value, stMode) <==> Agrees(stMode, Fold(cs, 0))))
  {
    ClausesParse(Text(cs), Fold(cs, 0), cs);
    PermOption(Text(cs), Fold(cs, 0), stMode);
  }

  /** The number `s` spells, through the whole option. */
  lemma NumericOption(s: string, k: nat, n: nat, mode: bv32, stMode: bv32)
    requires Spells(s, k, n, mode)
    ensures var any := ParsePerm("/" + s);
            any.Some? && (PermMatches(any.value, stMode) <==> mode == 0 || Meets(stMode, mode))
    ensures var all := ParsePerm("-" + s);
            all.Some? && (PermMatches(all.value, stMode) <==> Includes(stMode, mode))
    ensures var exact := ParsePerm(s);
            exact.Some? && (PermMatches(exact.value, stMode) <==> Agrees(stMode, mode))
  {
    NumberParses(s, mode, k, n);
    NumberHasNoSign(s, k, n, mode);
    PermOption(s, mode, stMode);
  }

  lemma NumberHasNoSign(s: string, k: nat, n: nat, mode: bv32)
    requires Spells(s, k, n, mode)
    ensures s != [] && IsOctalDigit(s[0])
  {
    OctalOfZeros(k, Octal(n));
    assert s[0] in s;
  }
}
