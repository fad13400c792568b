/** Decimal amounts and Wei numerals (`config/fees.go`): the conversions work on text, and are exact. */
module Fees {
  import opened Wrappers

  datatype FeeError = BadSyntax | TooPrecise | Overflow

  // ---- Numerals ----

  predicate IsDigit(c: char) {
    '0' <= c <= '9'
  }

  predicate Digits(s: string) {
    forall i | 0 <= i < |s| :: IsDigit(s[i])
  }

  function Pow10(n: nat): (p: nat)
    ensures p > 0
  {
    if n == 0 then 1 else 10 * Pow10(n - 1)
  }

  function DigitValue(c: char): (d: nat)
    requires IsDigit(c)
    ensures d < 10
  {
    (c as int) - ('0' as int)
  }

  /** The number a run of digits denotes. */
  function Value(s: string): nat
    requires Digits(s)
  {
    if s == "" then 0 else Value(s[..|s| - 1]) * 10 + DigitValue(s[|s| - 1])
  }

  const UINT64_BOUND: nat := 0x1_0000_0000_0000_0000
  const MAX_UINT256: nat := UINT64_BOUND * UINT64_BOUND * UINT64_BOUND * UINT64_BOUND - 1

  /** `^(0|[1-9][0-9]*)$` */
  predicate IsNumeral(s: string) {
    s != "" && Digits(s) && (s[0] == '0' ==> s == "0")
  }

  function DotAt(s: string): (i: nat)
    ensures i <= |s| && (i < |s| ==> s[i] == '.') && forall h | 0 <= h < i :: s[h] != '.'
  {
    if s == "" || s[0] == '.' then 0 else 1 + DotAt(s[1..])
  }

  function Whole(s: string): string {
    s[..DotAt(s)]
  }

  function Fraction(s: string): string {
    if DotAt(s) < |s| then s[DotAt(s) + 1..] else ""
  }

  /** `^(0|[1-9][0-9]*)(\.[0-9]+)?$` */
  predicate IsDecimal(s: string) {
    IsNumeral(Whole(s)) && Digits(Fraction(s)) && (DotAt(s) < |s| ==> Fraction(s) != "")
  }

  /** Digits without a leading zero. */
  predicate CanonicalDigits(s: string) {
    |s| > 0 && (forall i | 0 <= i < |s| :: '0' <= s[i] <= '9') && (|s| > 1 ==> s[0] != '0')
  }

  /** The point, with digits on both sides. */
  predicate PointAt(value: string, n: int) {
    && 0 < n < |value| - 1 && CanonicalDigits(value[..n]) && value[n] == '.'
    && forall i | n < i < |value| :: '0' <= value[i] <= '9'
  }

  /** An amount is digits without a leading zero, alone or followed by a point and at least one digit. */
  lemma AmountSyntax(value: string)
    ensures IsNumeral(value) <==> CanonicalDigits(value)
    ensures IsDecimal(value) <==> CanonicalDigits(value) || exists n :: PointAt(value, n)
  {
    NumeralSyntax(value);
    var n := DotAt(value);
    if n < |value| {
      NumeralSyntax(value[..n]);
      assert !CanonicalDigits(value) by { assert value[n] == '.'; }
      if IsDecimal(value) { PointIsDecimal(value, n); }
      if m :| PointAt(value, m) { OnePoint(value, m); PointIsDecimal(value, m); }
    } else {
      assert Whole(value) == value && Fraction(value) == "";
      hide IsNumeral, CanonicalDigits;
    }
  }

  lemma NumeralSyntax(s: string)
    ensures IsNumeral(s) <==> CanonicalDigits(s)
  {
    if s != "" && s[0] == '0' && s != "0" { assert |s| > 1 by { assert |s| == 1 ==> s == "0"; } }
  }

  lemma OnePoint(value: string, m: int)
    requires PointAt(value, m)
    ensures DotAt(value) == m
  {
    assert forall h | 0 <= h < m :: value[h] == value[..m][h];
  }

  lemma PointIsDecimal(value: string, n: int)
    requires 0 <= n < |value| && n == DotAt(value)
    ensures IsDecimal(value) <==> PointAt(value, n)
  {
    var f := Fraction(value);
    NumeralSyntax(value[..n]);
    assert |f| == |value| - n - 1 && forall i | 0 <= i < |f| :: f[i] == value[n + 1 + i];
    hide IsNumeral, CanonicalDigits;
    assert Digits(f) <==> forall i | n < i < |value| :: '0' <= value[i] <= '9' by {
      if Digits(f) {
        forall i | n < i < |value|
          ensures '0' <= value[i] <= '9'
        {
          assert value[i] == f[i - n - 1];
        }
      }
    }
  }

  /** The largest amount is the largest number of 256 bits. */
  lemma LargestAmount()
    ensures MAX_UINT256 == 0xFFFF_FFFF_FFFF_FFFF_FFFF_FFFF_FFFF_FFFF_FFFF_FFFF_FFFF_FFFF_FFFF_FFFF_FFFF_FFFF
  {
  }

  // ---- The code ----

  function ValidateWei(value: string): Result<string, FeeError> {
    if !IsNumeral(value) then Err(BadSyntax)
    else if Value(value) > MAX_UINT256 then Err(Overflow)
    else Ok(value)
  }

  function Repeat0(n: nat): (s: string)
    ensures |s| == n && Digits(s)
  {
    if n == 0 then "" else Repeat0(n - 1) + "0"
  }

  function TrimLeft0(s: string): string {
    if s != "" && s[0] == '0' then TrimLeft0(s[1..]) else s
  }

  /** The digits moved eighteen places, without leading zeros. */
  function WeiText(value: string): string
    requires |Fraction(value)| <= 18
  {
    var text := TrimLeft0(Whole(value) + Fraction(value) + Repeat0(18 - |Fraction(value)|));
    if text == "" then "0" else text
  }

  function CNXToWei(value: string): Result<string, FeeError> {
    if !IsDecimal(value) then Err(BadSyntax)
    else if |Fraction(value)| > 9 then Err(TooPrecise)
    else ValidateWei(WeiText(value))
  }

  /** The decimal text of a number, as a big integer prints itself. */
  function Decimal(n: nat): (s: string)
    ensures IsNumeral(s) && Value(s) == n
  {
    if n < 10 then [(n + '0' as int) as char]
    else
      var init := Decimal(n / 10);
      var s := init + [(n % 10 + '0' as int) as char];
      assert s[..|s| - 1] == init;
      NumeralSize(init);
      s
  }

  function MultiplyWei(value: string, multiplier: nat): Result<string, FeeError>
    requires multiplier < UINT64_BOUND
  {
    if ValidateWei(value).Err? then Err(ValidateWei(value).error)
    else ValidateWei(Decimal(Value(value) * multiplier))
  }

  // ---- What the texts denote ----

  lemma ShiftedSum(x: nat, p: nat, y: nat)
    ensures (x * p + y) * 10 == x * (10 * p) + y * 10
  {
  }

  lemma {:induction false} ValueAppend(a: string, b: string)
    requires Digits(a) && Digits(b)
    ensures Digits(a + b) && Value(a + b) == Value(a) * Pow10(|b|) + Value(b)
  {
    if b == "" {
      assert a + b == a;
    } else {
      var last := |b| - 1;
      ValueAppend(a, b[..last]);
      assert (a + b)[..|a + b| - 1] == a + b[..last];
      assert Value(a + b) == Value(a + b[..last]) * 10 + DigitValue(b[last]);
      ShiftedSum(Value(a), Pow10(last), Value(b[..last]));
    }
  }

  lemma {:induction false} ZerosAreNothing(n: nat)
    ensures Value(Repeat0(n)) == 0
  {
    if n > 0 {
      ZerosAreNothing(n - 1);
      assert Repeat0(n)[..n - 1] == Repeat0(n - 1);
    }
  }

  lemma {:induction false} TrimKeepsValue(s: string)
    requires Digits(s)
    ensures var t := TrimLeft0(s); Digits(t) && Value(t) == Value(s) && (t != "" ==> t[0] != '0')
  {
    if s != "" && s[0] == '0' {
      TrimKeepsValue(s[1..]);
      assert s == "0" + s[1..];
      ValueAppend("0", s[1..]);
    }
  }

  lemma {:induction false} ValueBounds(s: string)
    requires Digits(s)
    ensures Value(s) < Pow10(|s|)
    ensures s != "" && s[0] != '0' ==> Value(s) >= Pow10(|s| - 1)
  {
    if |s| > 1 {
      ValueBounds(s[..|s| - 1]);
    } else if |s| == 1 {
      assert Value(s[..0]) == 0;
    }
  }

  lemma NumeralSize(s: string)
    requires IsNumeral(s)
    ensures Value(s) > 0 <==> s[0] != '0'
  {
    ValueBounds(s);
    if s[0] == '0' { assert s[..|s| - 1] == ""; }
  }

  lemma {:induction false} PowGrows(m: nat, n: nat)
    requires m <= n
    ensures Pow10(m) <= Pow10(n)
  {
    if m < n { PowGrows(m, n - 1); }
  }

  lemma {:induction false} SameLengthUnique(a: string, b: string)
    requires Digits(a) && Digits(b) && |a| == |b| && Value(a) == Value(b)
    ensures a == b
  {
    if a != "" {
      var last := |a| - 1;
      SameLengthUnique(a[..last], b[..last]);
      assert a == a[..last] + [a[last]] && b == b[..last] + [b[last]];
    }
  }

  /** A number has one numeral. */
  lemma NumeralIsUnique(a: string, b: string)
    requires IsNumeral(a) && IsNumeral(b) && Value(a) == Value(b)
    ensures a == b
  {
    NumeralSize(a);
    NumeralSize(b);
    if Value(a) > 0 {
      if |a| < |b| { LongerIsLarger(a, b); }
      if |b| < |a| { LongerIsLarger(b, a); }
      SameLengthUnique(a, b);
    }
  }

  lemma LongerIsLarger(a: string, b: string)
    requires Digits(a) && Digits(b) && |a| < |b| && b[0] != '0'
    ensures Value(a) < Value(b)
  {
    ValueBounds(a);
    ValueBounds(b);
    PowGrows(|a|, |b| - 1);
  }

  // ---- The results ----

  /** An amount in CNX as a fraction: all its digits, over ten to the number of fraction digits. */
  function Numerator(value: string): nat
    requires IsDecimal(value)
  {
    ValueAppend(Whole(value), Fraction(value));
    Value(Whole(value) + Fraction(value))
  }

  function Denominator(value: string): nat {
    Pow10(|Fraction(value)|)
  }

  /** The amount in Wei of a numeral with at most nine fraction digits. */
  function Wei(value: string): nat
    requires IsDecimal(value) && |Fraction(value)| <= 9
  {
    Numerator(value) * Pow10(18 - |Fraction(value)|)
  }

  lemma {:induction false} PowSum(m: nat, n: nat)
    ensures Pow10(m) * Pow10(n) == Pow10(m + n)
  {
    if m == 0 {
    } else {
      PowSum(m - 1, n);
      assert Pow10(m + n) == 10 * Pow10(m - 1 + n);
    }
  }

  /** The Wei amount is the CNX amount times ten to the eighteenth, exactly. */
  lemma WeiIsExact(value: string)
    requires IsDecimal(value) && |Fraction(value)| <= 9
    ensures Wei(value) * Denominator(value) == Numerator(value) * Pow10(18)
  {
    var f := |Fraction(value)|;
    PowSum(18 - f, f);
    Associate(Numerator(value), Pow10(18 - f), Pow10(f));
  }

  lemma Associate(a: nat, b: nat, c: nat)
    ensures a * b * c == a * (b * c)
  {
  }

  /** The conversion rejects exactly bad syntax, more than nine fraction digits, or an amount that does
      not fit; otherwise it gives the one numeral of the exact amount. */
  lemma CNXToWeiIsExact(value: string)
    ensures CNXToWei(value) == Err(BadSyntax) <==> !IsDecimal(value)
    ensures CNXToWei(value) == Err(TooPrecise) <==> IsDecimal(value) && |Fraction(value)| > 9
    ensures CNXToWei(value) == Err(Overflow) <==> IsDecimal(value) && |Fraction(value)| <= 9 && Wei(value) > MAX_UINT256
    ensures CNXToWei(value).Ok? ==>
              && IsDecimal(value) && |Fraction(value)| <= 9
              && IsNumeral(CNXToWei(value).value) && Value(CNXToWei(value).value) == Wei(value)
              && forall w | IsNumeral(w) && Value(w) == Wei(value) :: w == CNXToWei(value).value
  {
    if IsDecimal(value) && |Fraction(value)| <= 9 {
      WeiTextIsExact(value);
      hide WeiText, Wei, IsDecimal, Fraction, Value, IsNumeral;
      forall w | IsNumeral(w) && Value(w) == Wei(value)
        ensures w == WeiText(value)
      {
        NumeralIsUnique(w, WeiText(value));
      }
    }
  }

  lemma WeiTextIsExact(value: string)
    requires IsDecimal(value) && |Fraction(value)| <= 9
    ensures IsNumeral(WeiText(value)) && Value(WeiText(value)) == Wei(value)
  {
    var all := Whole(value) + Fraction(value);
    var n := 18 - |Fraction(value)|;
    ValueAppend(Whole(value), Fraction(value));
    ValueAppend(all, Repeat0(n));
    ZerosAreNothing(n);
    TrimKeepsValue(all + Repeat0(n));
    hide TrimLeft0, Repeat0, Fraction, Whole;
    assert Value("0") == 0 by { assert "0"[..0] == ""; }
  }

  /** Two accepted spellings give the same text exactly when they denote the same amount. */
  lemma SpellingsAgreeIff(a: string, b: string)
    requires CNXToWei(a).Ok? && CNXToWei(b).Ok?
    ensures IsDecimal(a) && IsDecimal(b)
    ensures CNXToWei(a) == CNXToWei(b) <==> Numerator(a) * Denominator(b) == Numerator(b) * Denominator(a)
  {
    CNXToWeiIsExact(a);
    CNXToWeiIsExact(b);
    WeiIsExact(a);
    WeiIsExact(b);
    if Wei(a) == Wei(b) { NumeralIsUnique(CNXToWei(a).value, CNXToWei(b).value); }
    CrossProducts(Wei(a), Denominator(a), Numerator(a), Wei(b), Denominator(b), Numerator(b), Pow10(18));
  }

  lemma CrossProducts(wa: nat, da: nat, na: nat, wb: nat, db: nat, nb: nat, p: nat)
    requires wa * da == na * p && wb * db == nb * p && da > 0 && db > 0 && p > 0
    ensures wa == wb <==> na * db == nb * da
  {
    var x, y := na * db, nb * da;
    assert x * p == wa * (da * db) by { Associate(wa, da, db); assert x * p == (na * p) * db; }
    assert y * p == wb * (da * db) by { Associate(wb, db, da); assert y * p == (nb * p) * da; assert db * da == da * db; }
    var d := da * db;
    assert d > 0;
    Cancel(wa, wb, d);
    Cancel(x, y, p);
  }

  lemma Cancel(a: nat, b: nat, d: nat)
    requires d > 0
    ensures a * d == b * d <==> a == b
  {
    if a < b { assert (b - a) * d > 0; }
    if b < a { assert (a - b) * d > 0; }
  }

  /** The product is exact, and rejected exactly on a bad or oversized operand or an oversized product. */
  lemma MultiplyWeiIsExact(value: string, multiplier: nat)
    requires multiplier < UINT64_BOUND
    ensures var r := MultiplyWei(value, multiplier);
            && (r == Err(BadSyntax) <==> !IsNumeral(value))
            && (r == Err(Overflow) <==>
                  IsNumeral(value) && (Value(value) > MAX_UINT256 || Value(value) * multiplier > MAX_UINT256))
            && (r.Ok? ==>
                  && IsNumeral(r.value) && Value(r.value) == Value(value) * multiplier
                  && forall w | IsNumeral(w) && Value(w) == Value(value) * multiplier :: w == r.value)
  {
    if MultiplyWei(value, multiplier).Ok? {
      var r := MultiplyWei(value, multiplier).value;
      forall w | IsNumeral(w) && Value(w) == Value(value) * multiplier
        ensures w == r
      {
        NumeralIsUnique(w, r);
      }
    }
  }
}
