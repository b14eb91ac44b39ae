/** JavaScript's `Number(s)` on strings, restricted to the forms a coordinate
    cell takes: white space only gives 0, and an optional sign followed by a
    decimal literal with an optional fraction gives its value. Every other
    string, like `undefined`, gives NaN, written None here. Values are exact
    reals rather than doubles. */
module JsNumber {
  import opened Wrappers
  import opened Text

  predicate IsDigit(c: char) {
    '0' <= c <= '9'
  }

  predicate AllDigits(s: string) {
    forall k :: 0 <= k < |s| ==> IsDigit(s[k])
  }

  /** The value of a string of decimal digits, most significant first. */
  function DigitsValue(s: string): nat
    requires AllDigits(s)
  {
    if s == [] then 0 else DigitsValue(s[..|s| - 1]) * 10 + (s[|s| - 1] as int - '0' as int)
  }

  function Pow10(n: nat): (p: nat)
    ensures p >= 1
  {
    if n == 0 then 1 else 10 * Pow10(n - 1)
  }

  /** The value of the literal `whole.frac`. */
  function DecimalValue(whole: string, frac: string): (v: real)
    requires AllDigits(whole) && AllDigits(frac)
    ensures v >= 0.0
  {
    DigitsValue(whole) as real + DigitsValue(frac) as real / Pow10(|frac|) as real
  }

  /** An unsigned decimal literal: digits, optionally a point and more
      digits, with at least one digit in all (".5" and "5." are numbers,
      "." is not). */
  function ParseUnsigned(s: string): (r: Option<real>)
    ensures r.Some? ==> r.value >= 0.0
  {
    var parts := Split(s, '.');
    if |parts| == 1 && s != [] && AllDigits(s) then
      Some(DigitsValue(s) as real)
    else if |parts| == 2 && parts[0] + parts[1] != [] && AllDigits(parts[0]) && AllDigits(parts[1]) then
      Some(DecimalValue(parts[0], parts[1]))
    else None
  }

  /** The strings ParseUnsigned accepts, defined on their characters: not
      empty, digits and at most one point, and not the point alone. */
  predicate DecimalLiteral(s: string) {
    && s != [] && s != "."
    && (forall k :: 0 <= k < |s| ==> IsDigit(s[k]) || s[k] == '.')
    && (forall i, j :: 0 <= i < j < |s| && s[i] == '.' ==> s[j] != '.')
  }

  /** A digit string of length n is worth less than 10^n. */
  lemma {:induction false} DigitsBelowPow10(s: string)
    requires AllDigits(s)
    ensures DigitsValue(s) < Pow10(|s|)
  {
    if s != [] {
      DigitsBelowPow10(s[..|s| - 1]);
    }
  }

  /** `Number` reads `a.b` as the whole part a plus b tenths, hundredths
      and so on, a value between a and a + 1; a literal without a point
      reads as its digits. */
  lemma ParseFraction(a: string, b: string)
    requires AllDigits(a) && AllDigits(b) && a + b != []
    ensures ParseUnsigned(a + ['.'] + b) == Some(DecimalValue(a, b))
    ensures DigitsValue(a) as real <= DecimalValue(a, b) < DigitsValue(a) as real + 1.0
    ensures DecimalValue(a, b) == DigitsValue(a) as real + DigitsValue(b) as real / Pow10(|b|) as real
    ensures a != [] ==> ParseUnsigned(a) == Some(DigitsValue(a) as real)
  {
    NoPoint(a);
    NoPoint(b);
    SplitAtFirst(a, '.', b);
    SplitNoSeparator(b, '.');
    SplitNoSeparator(a, '.');
    var s := a + ['.'] + b;
    var parts := Split(s, '.');
    assert parts == [a, b];
    assert |parts| != 1 && |parts| == 2;
    assert parts[0] + parts[1] != [] && AllDigits(parts[0]) && AllDigits(parts[1]);
    DigitsBelowPow10(b);
    FractionBelowOne(DigitsValue(b), Pow10(|b|));
  }

  lemma FractionBelowOne(d: nat, p: nat)
    requires d < p
    ensures 0.0 <= d as real / p as real < 1.0
  {
    var q := d as real / p as real;
    assert q * p as real == d as real;
  }

  lemma NoPoint(s: string)
    requires AllDigits(s)
    ensures '.' !in s
  {
    forall k | 0 <= k < |s| ensures s[k] != '.' { assert IsDigit(s[k]); }
  }

  /** Exactly the decimal literals are numbers: ParseUnsigned gives NaN
      for every other string. */
  lemma ParseUnsignedAccepts(s: string)
    ensures ParseUnsigned(s).Some? <==> DecimalLiteral(s)
  {
    if '.' !in s {
      SplitNoSeparator(s, '.');
    } else {
      var a := UpTo(s, '.');
      var b := After(s, '.').value;
      UpToAfter(s, '.');
      SplitAtFirst(a, '.', b);
      if '.' in b {
        UpToAfter(b, '.');
        var c := UpTo(b, '.');
        var d := After(b, '.').value;
        SplitAtFirst(c, '.', d);
        assert |Split(s, '.')| >= 3;
        assert s[|a|] == '.' && s[|a| + 1 + |c|] == '.' by {
          assert s[|a| + 1 + |c|] == b[|c|];
        }
        assert !DecimalLiteral(s);
      } else {
        SplitNoSeparator(b, '.');
        assert Split(s, '.') == [a, b];
        OnePoint(a, b);
      }
    }
  }

  /** A string with exactly one point is a literal iff the digits around
      it are digits, and there is at least one of them. */
  lemma OnePoint(a: string, b: string)
    requires '.' !in a && '.' !in b
    ensures DecimalLiteral(a + ['.'] + b) <==> AllDigits(a) && AllDigits(b) && a + b != []
  {
    var s := a + ['.'] + b;
    forall k | 0 <= k < |a| ensures s[k] == a[k] && s[k] != '.' {
    }
    forall k | |a| < k < |s| ensures s[k] == b[k - |a| - 1] && s[k] != '.' {
    }
    if AllDigits(a) && AllDigits(b) && a + b != [] {
      assert |s| >= 2;
      forall k | 0 <= k < |s| ensures IsDigit(s[k]) || s[k] == '.' {
        if k < |a| { assert IsDigit(a[k]); }
        else if k > |a| { assert IsDigit(b[k - |a| - 1]); }
      }
      assert DecimalLiteral(s);
    }
    if DecimalLiteral(s) {
      assert AllDigits(a);
      forall k | 0 <= k < |b| ensures IsDigit(b[k]) {
        var m := k + |a| + 1;
        assert s[m] == b[k];
      }
      assert s != ".";
    }
  }

  /** `Number(s)` when the result is finite; None for NaN. Blank text is
      0, and otherwise a number needs a decimal literal after an optional
      sign. */
  function ParseNum(s: string): (r: Option<real>)
    ensures Trim(s) == [] ==> r == Some(0.0)
    ensures r.Some? && Trim(s) != [] ==>
              var t := Trim(s);
              ParseUnsigned(if t[0] == '-' || t[0] == '+' then t[1..] else t).Some?
  {
    var t := Trim(s);
    if t == [] then Some(0.0)
    else if t[0] == '-' then
      match ParseUnsigned(t[1..])
      case Some(x) => Some(-x)
      case None => None
    else if t[0] == '+' then ParseUnsigned(t[1..])
    else ParseUnsigned(t)
  }

  /** White space around a number does not change it, and a sign in front
      of a decimal literal negates it or keeps it. */
  lemma ParseNumSign(t: string)
    requires DecimalLiteral(t)
    ensures ParseUnsigned(t).Some?
    ensures ParseNum(t) == ParseUnsigned(t)
    ensures ParseNum("+" + t) == ParseUnsigned(t)
    ensures ParseNum("-" + t) == Some(-ParseUnsigned(t).value)
  {
    ParseUnsignedAccepts(t);
    assert !IsSpace(t[0]) && !IsSpace(t[|t| - 1]);
    TrimUnspaced(t);
    TrimUnspaced("+" + t);
    TrimUnspaced("-" + t);
    assert ("+" + t)[1..] == t;
    assert ("-" + t)[1..] == t;
  }

  /** Leading and trailing white space is ignored. */
  lemma ParseNumTrim(s: string)
    ensures ParseNum(Trim(s)) == ParseNum(s)
  {
    TrimTwice(s, ' ');
  }

  /** The decimal digits of a natural number, as `String(n)` writes them. */
  function ShowNat(n: nat): (s: string)
    ensures s != [] && AllDigits(s)
  {
    if n < 10 then [('0' as int + n) as char]
    else ShowNat(n / 10) + [('0' as int + n % 10) as char]
  }

  lemma {:induction false} DigitsOfShowNat(n: nat)
    ensures DigitsValue(ShowNat(n)) == n
  {
    if n >= 10 {
      DigitsOfShowNat(n / 10);
      var s := ShowNat(n);
      assert s[..|s| - 1] == ShowNat(n / 10);
    }
  }

  /** Reading back a whole number written in decimal gives the number. */
  lemma ParseShowNat(n: nat)
    ensures ParseNum(ShowNat(n)) == Some(n as real)
  {
    var s := ShowNat(n);
    DigitsOfShowNat(n);
    assert '.' !in s by {
      forall k | 0 <= k < |s| ensures s[k] != '.' { assert IsDigit(s[k]); }
    }
    SplitNoSeparator(s, '.');
    assert !IsSpace(s[0]) && !IsSpace(s[|s| - 1]);
    TrimUnspaced(s);
  }
}
