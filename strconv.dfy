/**
 The two conversions of Go's strconv package that age.go relies on:
 `strconv.Atoi` (reading the Age header) and `strconv.Itoa` (rendering
 an age in whole seconds). On a 64-bit platform Atoi returns exactly what
 `strconv.ParseInt(s, 10, 64)` returns: its fast path for short strings
 and its slow path through ParseInt agree on every input.
 */
module Strconv {
  import opened GoInt

  datatype NumError = NoError | ErrSyntax | ErrRange

  /** A parsed value together with the error strconv reports beside it. */
  datatype NumResult = NumResult(value: int, err: NumError)

  predicate IsDigit(c: char) {
    '0' <= c <= '9'
  }

  function DigitValue(c: char): nat
    requires IsDigit(c)
  {
    c as int - '0' as int
  }

  function DigitChar(d: nat): char
    requires d < 10
  {
    ('0' as int + d) as char
  }

  predicate AllDigits(s: string) {
    forall i :: 0 <= i < |s| ==> IsDigit(s[i])
  }

  function Pow10(n: nat): (p: nat)
    ensures p >= 1
  {
    if n == 0 then 1 else 10 * Pow10(n - 1)
  }

  /** The number a string of decimal digits denotes, read positionally from its
      most significant digit. */
  function DecimalValue(s: string): nat
    requires AllDigits(s)
    decreases |s|
  {
    if s == [] then 0
    else
      assert AllDigits(s[1..]) by {
        forall i | 0 <= i < |s| - 1 ensures IsDigit(s[1..][i]) {
          assert s[1..][i] == s[i + 1];
        }
      }
      DigitValue(s[0]) * Pow10(|s| - 1) + DecimalValue(s[1..])
  }

  /** A string stays a digit string under appending exactly a digit. */
  lemma AllDigitsAppend(s: string, c: char)
    ensures AllDigits(s + [c]) <==> AllDigits(s) && IsDigit(c)
  {
    var t := s + [c];
    assert forall i :: 0 <= i < |s| ==> t[i] == s[i];
    assert t[|s|] == c;
  }

  /** Appending a digit multiplies the value by ten and adds the digit. */
  lemma {:induction false} DecimalValueAppend(s: string, c: char)
    ensures AllDigits(s) && IsDigit(c) ==> AllDigits(s + [c]) && DecimalValue(s + [c]) == 10 * DecimalValue(s) + DigitValue(c)
    decreases |s|
  {
    AllDigitsAppend(s, c);
    if AllDigits(s) && IsDigit(c) && s != [] {
      var t := s + [c];
      var tail := s[1..];
      assert t[1..] == tail + [c];
      assert t[0] == s[0];
      assert AllDigits(tail) by {
        forall i | 0 <= i < |tail| ensures IsDigit(tail[i]) {
          assert tail[i] == s[i + 1];
        }
      }
      DecimalValueAppend(tail, c);
      var d0, p, v := DigitValue(s[0]), Pow10(|s| - 1), DecimalValue(tail);
      assert DecimalValue(s) == d0 * p + v;
      assert DecimalValue(t) == d0 * (10 * p) + (10 * v + DigitValue(c));
      assert d0 * (10 * p) == 10 * (d0 * p);
    }
  }

  /**
   The loop of `strconv.ParseUint(s, 10, 64)`, read left to right: the
   first non-digit stops it with a syntax error and value 0, the first digit
   that takes the accumulated value past 2^64-1 stops it with a range error
   and value 2^64-1. Written as a recursion on the prefix, so that the
   error met first is the one reported. A scan without error has read only
   digits and returns the number they denote; a string of digits scans
   without error exactly when that number fits in 64 bits.
   */
  function ScanDigits(s: string): (r: NumResult)
    ensures r.err == NoError ==> AllDigits(s) && r.value == DecimalValue(s) && r.value <= MAX_UINT64
    ensures AllDigits(s) ==> r.err != ErrSyntax && (r.err == NoError <==> DecimalValue(s) <= MAX_UINT64)
    ensures r.err == ErrSyntax ==> r.value == 0
    ensures r.err == ErrRange ==> r.value == MAX_UINT64
    decreases |s|
  {
    if s == [] then NumResult(0, NoError)
    else
      var p := ScanDigits(s[..|s| - 1]);
      var c := s[|s| - 1];
      assert s == s[..|s| - 1] + [c];
      DecimalValueAppend(s[..|s| - 1], c);
      if p.err != NoError then p
      else if !IsDigit(c) then NumResult(0, ErrSyntax)
      else if p.value * 10 + DigitValue(c) > MAX_UINT64 then NumResult(MAX_UINT64, ErrRange)
      else NumResult(p.value * 10 + DigitValue(c), NoError)
  }

  /** `strconv.ParseUint(s, 10, 64)`: the empty string is a syntax error. */
  function ParseUint(s: string): NumResult {
    if s == [] then NumResult(0, ErrSyntax) else ScanDigits(s)
  }

  /** The digits of a numeral: the string after an optional sign. */
  function Digits(s: string): string {
    if s != [] && (s[0] == '+' || s[0] == '-') then s[1..] else s
  }

  /** An optional sign followed by at least one decimal digit. */
  predicate WellFormedNumeral(s: string) {
    |Digits(s)| > 0 && AllDigits(Digits(s))
  }

  /** The integer a well-formed numeral denotes. */
  function NumeralValue(s: string): int
    requires WellFormedNumeral(s)
  {
    (if s[0] == '-' then -1 else 1) * DecimalValue(Digits(s))
  }

  /**
   `strconv.Atoi(s)`: an optional sign, then ParseUint. A well-formed numeral
   whose value fits in an int64 gives that value without error; one whose value
   does not gives a range error and the bound of its sign; anything that is not
   a well-formed numeral gives an error.
   */
  function Atoi(s: string): (r: NumResult)
    ensures InInt64(r.value)
    ensures r.err == NoError ==> WellFormedNumeral(s) && r.value == NumeralValue(s)
    ensures WellFormedNumeral(s) && InInt64(NumeralValue(s)) ==> r == NumResult(NumeralValue(s), NoError)
    ensures WellFormedNumeral(s) && !InInt64(NumeralValue(s)) ==> r.err == ErrRange
    ensures r.err == ErrSyntax ==> r.value == 0
    ensures r.err == ErrRange ==> s != [] && (r.value == MIN_INT64 <==> s[0] == '-') && (r.value == MAX_INT64 <==> s[0] != '-')
  {
    if s == [] then NumResult(0, ErrSyntax)
    else
      var neg := s[0] == '-';
      var u := ParseUint(Digits(s));
      if u.err == ErrSyntax then NumResult(0, ErrSyntax)
      else if !neg && u.value >= TWO_TO_63 then NumResult(MAX_INT64, ErrRange)
      else if neg && u.value > TWO_TO_63 then NumResult(MIN_INT64, ErrRange)
      else NumResult(if neg then -u.value else u.value, NoError)
  }

  /** Decimal digits of n, most significant first, without leading zeros. */
  function NatToDecimal(n: nat): (s: string)
    decreases n
  {
    if n < 10 then [DigitChar(n)] else NatToDecimal(n / 10) + [DigitChar(n % 10)]
  }

  /** `strconv.Itoa(n)`: a minus sign exactly for a negative n, then decimal digits
      without a leading zero (the digit part is "0" only for 0). */
  function Itoa(n: int): (s: string)
    ensures |s| > 0 && (s[0] == '-' <==> n < 0)
    ensures n < 0 ==> |s| > 1 && AllDigits(s[1..]) && s[1] != '0'
    ensures n >= 0 ==> AllDigits(s) && (|s| > 1 ==> s[0] != '0')
  {
    NatToDecimalDigits(if n < 0 then -n else n);
    if n < 0 then "-" + NatToDecimal(-n) else NatToDecimal(n)
  }

  /** The rendering is all digits, and canonical: it starts with '0' only for 0 itself,
      so a rendering of more than one digit has no leading zero. */
  lemma {:induction false} NatToDecimalDigits(n: nat)
    ensures |NatToDecimal(n)| > 0 && AllDigits(NatToDecimal(n))
    ensures NatToDecimal(n)[0] == '0' <==> n == 0
    ensures |NatToDecimal(n)| > 1 ==> NatToDecimal(n)[0] != '0'
    decreases n
  {
    if n >= 10 {
      NatToDecimalDigits(n / 10);
      assert NatToDecimal(n)[0] == NatToDecimal(n / 10)[0];
    }
  }

  /** Scanning the decimal rendering of a representable n gives back n. */
  lemma {:induction false} ScanDigitsOfDecimal(n: nat)
    requires n <= MAX_UINT64
    ensures ScanDigits(NatToDecimal(n)) == NumResult(n, NoError)
    decreases n
  {
    var s := NatToDecimal(n);
    if n < 10 {
      assert s[..|s| - 1] == [];
    } else {
      ScanDigitsOfDecimal(n / 10);
      assert s[..|s| - 1] == NatToDecimal(n / 10);
      assert s[|s| - 1] == DigitChar(n % 10);
    }
  }

  /** Round trip: Atoi reads back every int64 that Itoa renders, without error. */
  lemma AtoiItoa(n: int)
    requires InInt64(n)
    ensures Atoi(Itoa(n)) == NumResult(n, NoError)
  {
    var s := Itoa(n);
    var m: nat := if n < 0 then -n else n;
    NatToDecimalDigits(m);
    ScanDigitsOfDecimal(m);
    if n < 0 {
      assert Digits(s) == NatToDecimal(m);
    } else {
      assert IsDigit(s[0]);
      assert Digits(s) == NatToDecimal(m);
    }
    assert WellFormedNumeral(s) && NumeralValue(s) == n;
  }
}
