/** Go's `strconv.Atoi` on a 64-bit platform, and the decimal rendering
    of an int that it inverts. `fileVersion` relies on Atoi to read the
    version prefix of a migration file name. */
module Decimal {
  import opened Errors

  /** The range of Go's `int` on a 64-bit platform. */
  const MinInt: int := -0x8000_0000_0000_0000
  const MaxInt: int := 0x7FFF_FFFF_FFFF_FFFF

  predicate IsDigit(c: char) {
    '0' <= c <= '9'
  }

  predicate AllDigits(s: string) {
    forall i :: 0 <= i < |s| ==> IsDigit(s[i])
  }

  function DigitValue(c: char): (d: nat)
    requires IsDigit(c)
    ensures d < 10
  {
    (c as int - '0' as int) as nat
  }

  function DigitChar(d: nat): (c: char)
    requires d < 10
    ensures IsDigit(c) && DigitValue(c) == d
  {
    ('0' as int + d) as char
  }

  /** The value of a run of decimal digits, most significant digit first. */
  function DigitsValue(s: string): nat
    requires AllDigits(s)
    decreases |s|
  {
    if s == [] then 0 else DigitsValue(s[..|s| - 1]) * 10 + DigitValue(s[|s| - 1])
  }

  /** The largest value of Go's `uint64`, the accumulator of `ParseUint`. */
  const MaxUint: int := 0xFFFF_FFFF_FFFF_FFFF

  function Pow10(k: nat): (p: nat)
    ensures p >= 1
  {
    if k == 0 then 1 else 10 * Pow10(k - 1)
  }

  /** The digit loop of `strconv.ParseUint` in base 10, continuing from the
      value `acc` read so far: left to right, a character that is not a
      digit is a syntax error, and a digit that takes the value past the
      largest `uint64` is a range error at once, whatever follows. */
  function ScanUint(s: string, acc: nat): (r: Result<nat>)
    ensures r.Ok? ==> AllDigits(s)
    ensures r.Err? ==> r.kind == SyntaxError || r.kind == RangeError
    decreases |s|
  {
    if s == [] then Ok(acc)
    else if !IsDigit(s[0]) then Err(SyntaxError)
    else
      var n := acc * 10 + DigitValue(s[0]);
      if n > MaxUint then Err(RangeError)
      else
        var r := ScanUint(s[1..], n);
        assert r.Ok? ==> forall i :: 0 < i < |s| ==> s[i] == s[1..][i - 1];
        r
  }

  /** `strconv.Atoi`: an optional `+` or `-`, then the digit loop of
      `ParseUint`, then the check that the value fits a 64-bit int. With
      no digits, or a character that is not a digit met before the value
      exceeds the largest `uint64`, the result is a syntax error; any
      other failure is a range error. */
  function Atoi(s: string): (r: Result<int>)
    ensures r.Ok? ==> MinInt <= r.value <= MaxInt
    ensures r.Ok? ==> |s| > 0 && (IsDigit(s[0]) || s[0] == '+' || s[0] == '-')
    ensures r.Ok? ==> forall i :: 0 < i < |s| ==> IsDigit(s[i])
    ensures r.Err? ==> r.kind == SyntaxError || r.kind == RangeError
  {
    var signed := |s| > 0 && (s[0] == '+' || s[0] == '-');
    var digits := if signed then s[1..] else s;
    if digits == [] then Err(SyntaxError)
    else match ScanUint(digits, 0)
      case Err(k) => Err(k)
      case Ok(magnitude) =>
        assert forall i :: 0 < i < |s| ==> IsDigit(s[i]) by {
          if !signed {
            assert forall i :: 0 < i < |s| ==> IsDigit(digits[i]);
          } else {
            assert forall i :: 0 < i < |s| ==> s[i] == digits[i - 1];
          }
        }
        var n := if signed && s[0] == '-' then -(magnitude as int) else magnitude;
        if n < MinInt || MaxInt < n then Err(RangeError) else Ok(n)
  }

  /** Reading a digit from the front multiplies what follows by ten. */
  lemma {:induction false} DigitsValueCons(c: char, t: string)
    requires IsDigit(c) && AllDigits(t)
    ensures AllDigits([c] + t)
    ensures DigitsValue([c] + t) == DigitValue(c) * Pow10(|t|) + DigitsValue(t)
    decreases |t|
  {
    var s := [c] + t;
    assert forall i :: 0 < i < |s| ==> s[i] == t[i - 1];
    if t != [] {
      var init := t[..|t| - 1];
      var last := DigitValue(t[|t| - 1]);
      assert s[..|s| - 1] == [c] + init;
      DigitsValueCons(c, init);
      assert DigitsValue(s) == DigitsValue([c] + init) * 10 + last;
      assert DigitsValue(t) == DigitsValue(init) * 10 + last;
      Shift(DigitValue(c), Pow10(|init|), DigitsValue(init), last);
    }
  }

  /** The arithmetic step of `DigitsValueCons`. */
  lemma Shift(c: nat, p: nat, r: nat, d: nat)
    ensures (c * p + r) * 10 + d == c * (10 * p) + (r * 10 + d)
  {
  }

  /** On a run of digits the loop gives the numeral's value, or a range
      error exactly when that value exceeds the largest `uint64`. */
  lemma {:induction false} ScanDigits(s: string, acc: nat)
    requires AllDigits(s) && acc <= MaxUint
    ensures var v := acc * Pow10(|s|) + DigitsValue(s);
            ScanUint(s, acc) == if v > MaxUint then Err(RangeError) else Ok(v)
    decreases |s|
  {
    if s != [] {
      var t := s[1..];
      assert s == [s[0]] + t;
      assert AllDigits(t) by {
        assert forall i :: 0 <= i < |t| ==> t[i] == s[i + 1];
      }
      DigitsValueCons(s[0], t);
      var n := acc * 10 + DigitValue(s[0]);
      Regroup(acc, DigitValue(s[0]), Pow10(|t|), DigitsValue(t));
      if n <= MaxUint {
        ScanDigits(t, n);
      }
    }
  }

  /** The arithmetic step of `ScanDigits`. */
  lemma Regroup(acc: nat, d: nat, p: nat, rest: nat)
    requires p >= 1
    ensures acc * (10 * p) + (d * p + rest) == (acc * 10 + d) * p + rest
    ensures (acc * 10 + d) * p + rest >= acc * 10 + d
  {
    assert (acc * 10 + d) * p == acc * 10 * p + d * p;
    assert (acc * 10 + d) * p >= (acc * 10 + d) * 1;
  }

  /** The loop stops at the first problem: a concatenation is scanned as its
      first part, then the second from where the first left off. */
  lemma {:induction false} ScanConcat(a: string, b: string, acc: nat)
    ensures ScanUint(a + b, acc) == match ScanUint(a, acc)
                                   case Ok(n) => ScanUint(b, n)
                                   case Err(k) => Err(k)
    decreases |a|
  {
    if a == [] {
      assert a + b == b;
    } else {
      assert (a + b)[0] == a[0] && (a + b)[1..] == a[1..] + b;
      if IsDigit(a[0]) && acc * 10 + DigitValue(a[0]) <= MaxUint {
        ScanConcat(a[1..], b, acc * 10 + DigitValue(a[0]));
      }
    }
  }

  /** A numeral that has already passed the largest `uint64` is a range
      error, whatever characters follow it. */
  lemma AtoiOverflowFirst(digits: string, rest: string)
    requires |digits| > 0 && AllDigits(digits) && DigitsValue(digits) > MaxUint
    ensures Atoi(digits + rest) == Err(RangeError)
  {
    assert (digits + rest)[0] == digits[0];
    assert IsDigit(digits[0]);
    ScanDigits(digits, 0);
    ScanConcat(digits, rest, 0);
  }

  /** Decimal digits of a natural number, without leading zeros. */
  function ShowNat(n: nat): (s: string)
    ensures |s| > 0 && AllDigits(s) && DigitsValue(s) == n
    ensures n >= 10 ==> s[0] != '0'
    decreases n
  {
    if n < 10 then [DigitChar(n)] else
      var prefix := ShowNat(n / 10);
      var s := prefix + [DigitChar(n % 10)];
      assert s[..|s| - 1] == prefix;
      s
  }

  /** Go's `strconv.Itoa`: a minus sign for negative numbers, then the digits. */
  function Show(n: int): (s: string)
    ensures |s| > 0
    ensures n >= 0 ==> AllDigits(s)
    ensures n < 0 ==> s[0] == '-' && AllDigits(s[1..])
  {
    if n < 0 then "-" + ShowNat(-n) else ShowNat(n)
  }

  /** Atoi reads back every 64-bit int that Show renders. */
  lemma AtoiShow(n: int)
    requires MinInt <= n <= MaxInt
    ensures Atoi(Show(n)) == Ok(n)
  {
    var m: nat := if n < 0 then -n else n;
    ScanDigits(ShowNat(m), 0);
    if n < 0 {
      assert Show(n)[1..] == ShowNat(-n);
    } else {
      assert ShowNat(m)[0] != '+' && ShowNat(m)[0] != '-' by {
        assert IsDigit(ShowNat(m)[0]);
      }
    }
  }

  /** A run of digits parses to its value when that fits an int, and is a
      range error when it does not; no digits at all is a syntax error. */
  lemma AtoiDigits(digits: string)
    requires AllDigits(digits)
    ensures digits == [] ==> Atoi(digits) == Err(SyntaxError)
    ensures digits != [] && DigitsValue(digits) <= MaxInt ==> Atoi(digits) == Ok(DigitsValue(digits))
    ensures digits != [] && DigitsValue(digits) > MaxInt ==> Atoi(digits) == Err(RangeError)
    ensures Atoi("-" + digits) == if digits == [] then Err(SyntaxError)
                                 else if DigitsValue(digits) <= -MinInt then Ok(-(DigitsValue(digits) as int))
                                 else Err(RangeError)
  {
    var neg := "-" + digits;
    assert neg[0] == '-' && neg[1..] == digits;
    if digits != [] {
      var v := DigitsValue(digits);
      ScanDigits(digits, 0);
      assert 0 * Pow10(|digits|) + v == v;
      assert ScanUint(digits, 0) == if v > MaxUint then Err(RangeError) else Ok(v);
      assert digits[0] != '+' && digits[0] != '-' by {
        assert IsDigit(digits[0]);
      }
    }
  }

  /** A leading `+` does not change the value. */
  lemma AtoiPlus(digits: string)
    requires |digits| > 0 && AllDigits(digits)
    ensures Atoi("+" + digits) == Atoi(digits)
  {
    assert digits[0] != '+' && digits[0] != '-' by {
      assert IsDigit(digits[0]);
    }
    assert ("+" + digits)[1..] == digits;
  }
}
