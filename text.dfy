/** The Kotlin standard-library string operations the core relies on:
    base-10 integer parsing (`toByteOrNull` … `toLongOrNull`) and its inverse
    `toString`, `startsWith` and `contains`. */
module Text {
  import opened Runtime

  predicate IsDigit(c: char) {
    '0' <= c <= '9'
  }

  predicate AllDigits(s: string) {
    forall i :: 0 <= i < |s| ==> IsDigit(s[i])
  }

  /** The value of a run of decimal digits, most significant digit first. */
  function DigitsValue(ds: string): nat
    requires AllDigits(ds)
  {
    if ds == [] then 0
    else DigitsValue(ds[..|ds| - 1]) * 10 + (ds[|ds| - 1] as int - '0' as int)
  }

  /** The mathematical value of a base-10 integer literal: an optional '+' or
      '-' followed by at least one digit, as the `to*OrNull` parsers accept it.
      Anything else (empty text, a sign alone, a space, a letter) is `None`.
      The parsers' overflow check is the range test of `IntegralOrNull`. */
  function ParseDecimal(s: string): Option<int> {
    if |s| == 0 then None
    else if s[0] == '-' || s[0] == '+' then
      var ds := s[1..];
      if ds != [] && AllDigits(ds) then
        var n: int := DigitsValue(ds);
        Some(if s[0] == '-' then -n else n)
      else None
    else if AllDigits(s) then Some(DigitsValue(s))
    else None
  }

  /** `toByteOrNull`, `toShortOrNull`, `toIntOrNull`, `toLongOrNull`: the
      parsed value when it lies in [lo, hi], `null` otherwise. */
  function IntegralOrNull(s: string, lo: int, hi: int): (r: Option<int>)
    ensures r.Some? ==> lo <= r.value <= hi && ParseDecimal(s) == Some(r.value)
    ensures r.None? <==> ParseDecimal(s).None? || !(lo <= ParseDecimal(s).value <= hi)
  {
    match ParseDecimal(s)
    case Some(n) => if lo <= n <= hi then Some(n) else None
    case None => None
  }

  function DigitChar(d: nat): (c: char)
    requires d < 10
    ensures IsDigit(c) && c as int - '0' as int == d
  {
    ('0' as int + d) as char
  }

  /** `toString` of a non-negative integer: its digits, without leading zeros. */
  function FormatNat(n: nat): (s: string)
    ensures |s| >= 1 && AllDigits(s)
    ensures n >= 10 ==> s[0] != '0'
    decreases n
  {
    if n < 10 then [DigitChar(n)] else FormatNat(n / 10) + [DigitChar(n % 10)]
  }

  /** `toString` of an integer: a '-' in front of a negative one. */
  function FormatDecimal(n: int): string {
    if n < 0 then "-" + FormatNat(-n) else FormatNat(n)
  }

  lemma {:induction false} DigitsValueOfFormat(n: nat)
    ensures DigitsValue(FormatNat(n)) == n
    decreases n
  {
    var s := FormatNat(n);
    if n >= 10 {
      assert s[..|s| - 1] == FormatNat(n / 10);
      DigitsValueOfFormat(n / 10);
    }
  }

  /** Parsing what `toString` printed gives the number back. */
  lemma ParseFormatRoundTrip(n: int)
    ensures ParseDecimal(FormatDecimal(n)) == Some(n)
  {
    if n < 0 {
      var s := FormatDecimal(n);
      assert s[1..] == FormatNat(-n);
      DigitsValueOfFormat(-n);
    } else {
      DigitsValueOfFormat(n);
    }
  }

  /** `k` zero digits. */
  function Zeros(k: nat): (z: string)
    ensures |z| == k && forall i :: 0 <= i < k ==> z[i] == '0'
  {
    if k == 0 then "" else "0" + Zeros(k - 1)
  }

  /** `s` is a way of writing `n` in base 10: an optional sign, any number of
      leading zeros, then the digits `toString` prints for the magnitude; a
      '-' only in front of a number that is not positive ("-0" is 0). */
  ghost predicate SpellsInteger(s: string, n: int) {
    exists k: nat ::
      || (n >= 0 && s == Zeros(k) + FormatNat(n))
      || (n >= 0 && s == "+" + Zeros(k) + FormatNat(n))
      || (n <= 0 && s == "-" + Zeros(k) + FormatNat(-n))
  }

  /** A leading zero does not change the value of a run of digits. */
  lemma {:induction false} LeadingZeroValue(t: string)
    requires AllDigits(t)
    ensures AllDigits("0" + t) && DigitsValue("0" + t) == DigitsValue(t)
    decreases |t|
  {
    var z := "0" + t;
    if t != [] {
      assert z[..|z| - 1] == "0" + t[..|t| - 1];
      LeadingZeroValue(t[..|t| - 1]);
    }
  }

  lemma {:induction false} ZerosValue(k: nat, t: string)
    requires AllDigits(t)
    ensures AllDigits(Zeros(k) + t) && DigitsValue(Zeros(k) + t) == DigitsValue(t)
    decreases k
  {
    if k > 0 {
      assert Zeros(k) + t == "0" + (Zeros(k - 1) + t);
      ZerosValue(k - 1, t);
      LeadingZeroValue(Zeros(k - 1) + t);
    } else {
      assert Zeros(k) + t == t;
    }
  }

  /** A run of digits that does not start with '0' has a positive value. */
  lemma {:induction false} LeadingDigitPositive(ds: string)
    requires |ds| >= 1 && AllDigits(ds) && ds[0] != '0'
    ensures DigitsValue(ds) >= 1
    decreases |ds|
  {
    if |ds| > 1 {
      LeadingDigitPositive(ds[..|ds| - 1]);
    }
  }

  /** A run of digits without a leading zero is exactly what `toString`
      prints for its value. */
  lemma {:induction false} FormatOfDigits(ds: string)
    requires |ds| >= 1 && AllDigits(ds) && (|ds| == 1 || ds[0] != '0')
    ensures FormatNat(DigitsValue(ds)) == ds
    decreases |ds|
  {
    var init := ds[..|ds| - 1];
    var d := ds[|ds| - 1] as int - '0' as int;
    if |ds| == 1 {
      assert init == [];
      assert DigitChar(d) == ds[0];
    } else {
      FormatOfDigits(init);
      LeadingDigitPositive(init);
      var v := DigitsValue(ds);
      assert v / 10 == DigitsValue(init) && v % 10 == d;
      assert DigitChar(d) == ds[|ds| - 1];
      assert ds == init + [ds[|ds| - 1]];
    }
  }

  /** Every non-empty run of digits is some leading zeros followed by the
      digits of its value. */
  lemma {:induction false} DigitsCanonical(ds: string) returns (k: nat)
    requires |ds| >= 1 && AllDigits(ds)
    ensures ds == Zeros(k) + FormatNat(DigitsValue(ds))
    decreases |ds|
  {
    if |ds| == 1 || ds[0] != '0' {
      FormatOfDigits(ds);
      k := 0;
    } else {
      var t := ds[1..];
      assert ds == "0" + t;
      LeadingZeroValue(t);
      var k' := DigitsCanonical(t);
      k := k' + 1;
      assert Zeros(k) == "0" + Zeros(k');
    }
  }

  /** Every text the parser accepts spells the number it returns. */
  lemma ParsedTextSpells(s: string, n: int)
    requires ParseDecimal(s) == Some(n)
    ensures SpellsInteger(s, n)
  {
    if s[0] == '-' || s[0] == '+' {
      var ds := s[1..];
      var k := DigitsCanonical(ds);
      assert s == [s[0]] + ds;
      if s[0] == '-' {
        assert s == "-" + Zeros(k) + FormatNat(-n);
      } else {
        assert s == "+" + Zeros(k) + FormatNat(n);
      }
    } else {
      var k := DigitsCanonical(s);
      assert s == Zeros(k) + FormatNat(n);
    }
  }

  /** A run of digits worth `m` parses to `m`, to `m` after a '+' and to
      `-m` after a '-'. */
  lemma ParseOfDigits(t: string, m: int)
    requires |t| >= 1 && AllDigits(t) && DigitsValue(t) == m
    ensures ParseDecimal(t) == Some(m)
    ensures ParseDecimal("+" + t) == Some(m)
    ensures ParseDecimal("-" + t) == Some(-m)
  {
    assert t[0] != '-' && t[0] != '+' by {
      assert IsDigit(t[0]);
    }
    var plus := "+" + t;
    assert plus[0] == '+' && plus[1..] == t;
    var minus := "-" + t;
    assert minus[0] == '-' && minus[1..] == t;
  }

  /** Leading zeros and the digits of `m`, with or without a sign in front,
      parse to `m` (or to `-m` after a '-'). */
  lemma SpellingsParse(k: nat, m: nat)
    ensures ParseDecimal(Zeros(k) + FormatNat(m)) == Some(m)
    ensures ParseDecimal("+" + Zeros(k) + FormatNat(m)) == Some(m)
    ensures ParseDecimal("-" + Zeros(k) + FormatNat(m)) == Some(-(m as int))
  {
    var f := FormatNat(m);
    var t := Zeros(k) + f;
    ZerosValue(k, f);
    DigitsValueOfFormat(m);
    ParseOfDigits(t, m);
    assert "+" + Zeros(k) + f == "+" + t;
    assert "-" + Zeros(k) + f == "-" + t;
  }

  /** Every spelling of a number is accepted, with that number's value. */
  lemma SpelledTextParses(s: string, n: int)
    requires SpellsInteger(s, n)
    ensures ParseDecimal(s) == Some(n)
  {
    var k: nat :|
      || (n >= 0 && s == Zeros(k) + FormatNat(n))
      || (n >= 0 && s == "+" + Zeros(k) + FormatNat(n))
      || (n <= 0 && s == "-" + Zeros(k) + FormatNat(-n));
    if n >= 0 {
      SpellingsParse(k, n);
    } else {
      SpellingsParse(k, -n);
    }
  }

  /** The parser accepts exactly the ways of writing an integer: it returns
      `n` if and only if the text spells `n`. */
  lemma ParseDecimalSpec(s: string, n: int)
    ensures ParseDecimal(s) == Some(n) <==> SpellsInteger(s, n)
  {
    if ParseDecimal(s) == Some(n) {
      ParsedTextSpells(s, n);
    }
    if SpellsInteger(s, n) {
      SpelledTextParses(s, n);
    }
  }

  /** The range-checked parsers: `n` exactly when the text spells `n` and `n`
      lies in [lo, hi]. */
  lemma IntegralOrNullSpec(s: string, lo: int, hi: int, n: int)
    ensures IntegralOrNull(s, lo, hi) == Some(n) <==> lo <= n <= hi && SpellsInteger(s, n)
  {
    ParseDecimalSpec(s, n);
  }

  /** On the text `toString` prints, the range-checked parsers give the
      number back when it is in range and `null` when it is not. */
  lemma IntegralOrNullOfFormat(n: int, lo: int, hi: int)
    ensures IntegralOrNull(FormatDecimal(n), lo, hi) == if lo <= n <= hi then Some(n) else None
  {
    ParseFormatRoundTrip(n);
  }

  /** `startsWith(prefix)`. */
  predicate StartsWith(s: string, prefix: string) {
    |prefix| <= |s| && s[..|prefix|] == prefix
  }

  /** `sub` occurs in `s` at position `i`. */
  predicate OccursAt(s: string, sub: string, i: int) {
    0 <= i && i + |sub| <= |s| && s[i..i + |sub|] == sub
  }

  ghost predicate Occurs(s: string, sub: string) {
    exists i :: OccursAt(s, sub, i)
  }

  /** `indexOf(sub, from)`: the first position at or after `from` where `sub`
      occurs, or `None`. */
  function IndexOf(s: string, sub: string, from: nat): (r: Option<nat>)
    ensures r.Some? ==> from <= r.value && OccursAt(s, sub, r.value)
    ensures r.Some? ==> forall j :: from <= j < r.value ==> !OccursAt(s, sub, j)
    ensures r.None? ==> forall j :: from <= j ==> !OccursAt(s, sub, j)
    decreases |s| - from
  {
    if from + |sub| > |s| then None
    else if s[from..from + |sub|] == sub then Some(from)
    else IndexOf(s, sub, from + 1)
  }

  /** `contains(sub)`, which is `indexOf(sub) >= 0`. */
  function Contains(s: string, sub: string): (b: bool)
    ensures b <==> Occurs(s, sub)
  {
    IndexOf(s, sub, 0).Some?
  }
}
