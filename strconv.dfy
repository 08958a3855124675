/**
 * The two number conversions the benchmark tool relies on: Go's
 * strconv.ParseInt(s, 10, 64), which reads the concurrency column, and fmt's
 * %d verb on a non-negative int, which numbers the result labels.
 */
module Strconv {
  import opened Base

  /** strconv.ErrSyntax and strconv.ErrRange. */
  datatype NumErr = ErrSyntax | ErrRange

  /** The *strconv.NumError that ParseInt returns: its Func is always "ParseInt" and its Num the whole input. */
  datatype NumError = NumError(num: string, err: NumErr)

  predicate IsDigit(c: char) {
    '0' <= c <= '9'
  }

  function DigitValue(c: char): (d: nat)
    requires IsDigit(c)
    ensures d < 10
  {
    c as int - '0' as int
  }

  function DigitChar(d: nat): (c: char)
    requires d < 10
    ensures IsDigit(c) && DigitValue(c) == d
  {
    ('0' as int + d) as char
  }

  predicate AllDigits(s: string) {
    forall i :: 0 <= i < |s| ==> IsDigit(s[i])
  }

  /** The number a string of decimal digits denotes, read most significant digit first. */
  function DigitsValue(s: string): nat
    requires AllDigits(s)
    decreases |s|
  {
    if s == [] then 0 else 10 * DigitsValue(s[..|s| - 1]) + DigitValue(s[|s| - 1])
  }

  /** The length of the longest prefix of s made of decimal digits. */
  function LeadingDigits(s: string): (k: nat)
    ensures k <= |s| && AllDigits(s[..k])
    ensures k < |s| ==> !IsDigit(s[k])
  {
    if s == [] || !IsDigit(s[0]) then 0
    else
      var k' := LeadingDigits(s[1..]);
      assert s[..1 + k'] == [s[0]] + s[1..][..k'];
      1 + k'
  }

  /** True when ParseInt strips a sign from s, and false when s begins otherwise. */
  predicate HasSign(s: string) {
    |s| > 0 && (s[0] == '+' || s[0] == '-')
  }

  predicate Negative(s: string) {
    |s| > 0 && s[0] == '-'
  }

  /** What ParseInt hands to ParseUint: s without its leading sign. */
  function Magnitude(s: string): string {
    if HasSign(s) then s[1..] else s
  }

  /** The cutoff ParseUint compares against before multiplying by the base. */
  const Cutoff: int := MaxUint64 / 10 + 1

  /**
   * ParseUint's digit loop for base 10 and 64 bits, from position i of m with
   * the value n read so far: the first non-digit is a syntax error, and a
   * digit that would carry the value past MaxUint64 is a range error at that
   * digit, before any later character is looked at.
   */
  function ScanUint(m: string, i: nat, n: nat): Result<nat, NumErr>
    requires i <= |m| && n <= MaxUint64
    decreases |m| - i
  {
    if i == |m| then Ok(n)
    else if !IsDigit(m[i]) then Err(ErrSyntax)
    else if n >= Cutoff then Err(ErrRange)
    else if n * 10 + DigitValue(m[i]) > MaxUint64 then Err(ErrRange)
    else ScanUint(m, i + 1, n * 10 + DigitValue(m[i]))
  }

  /** strconv.ParseUint(m, 10, 64); its error is reported by the caller. */
  function ParseUint(m: string): Result<nat, NumErr> {
    if m == "" then Err(ErrSyntax) else ScanUint(m, 0, 0)
  }

  /**
   * strconv.ParseInt(s, 10, 64). A syntax error of ParseUint is passed on; a
   * range error leaves the magnitude at MaxUint64, which fails the signed
   * check below, so both become ParseInt errors naming the whole input.
   */
  function ParseInt(s: string): Result<Int64, NumError> {
    if s == "" then Err(NumError(s, ErrSyntax))
    else
      var neg := s[0] == '-';
      match ParseUint(Magnitude(s))
      case Err(e) => Err(NumError(s, e))
      case Ok(un) =>
        if !neg && un > MaxInt64 then Err(NumError(s, ErrRange))
        else if neg && un > -MinInt64 then Err(NumError(s, ErrRange))
        else
          var v: int := if neg then -(un as int) else un;
          Ok(v)
  }

  /** An optional '+' or '-' followed by one or more decimal digits. */
  predicate IsDecimalInteger(s: string) {
    |Magnitude(s)| > 0 && AllDigits(Magnitude(s))
  }

  /** The integer a decimal integer denotes, of any size. */
  function IntegerValue(s: string): int
    requires IsDecimalInteger(s)
  {
    var v: int := DigitsValue(Magnitude(s));
    if Negative(s) then -v else v
  }

  /** The value of the leading run of digits of s, which decides whether ParseUint overflows. */
  function LeadingValue(s: string): nat {
    DigitsValue(s[..LeadingDigits(s)])
  }

  lemma {:induction false} DigitsValuePrefix(s: string, j: nat)
    requires AllDigits(s) && j <= |s|
    ensures AllDigits(s[..j]) && DigitsValue(s[..j]) <= DigitsValue(s)
  {
    if j < |s| {
      var t := s[..|s| - 1];
      assert s[..j] == t[..j];
      DigitsValuePrefix(t, j);
    } else {
      assert s[..j] == s;
    }
  }

  /** A digit prefix lies within the leading digit run. */
  lemma {:induction false} LeadingDigitsCover(s: string, i: nat)
    requires i <= |s| && AllDigits(s[..i])
    ensures i <= LeadingDigits(s)
  {
    if i > 0 {
      assert s[..i][0] == s[0];
      assert s[1..][..i - 1] == s[..i][1..];
      LeadingDigitsCover(s[1..], i - 1);
    }
  }

  /** ParseUint's loop, started on a digit prefix it has already read, ends as the leading digit run decides. */
  lemma {:induction false} ScanUintMeaning(m: string, i: nat)
    requires i <= |m| && AllDigits(m[..i]) && DigitsValue(m[..i]) <= MaxUint64
    ensures i <= LeadingDigits(m)
    ensures ScanUint(m, i, DigitsValue(m[..i])) ==
            if LeadingValue(m) > MaxUint64 then Err(ErrRange)
            else if LeadingDigits(m) < |m| then Err(ErrSyntax)
            else Ok(LeadingValue(m))
    decreases |m| - i
  {
    var k := LeadingDigits(m);
    LeadingDigitsCover(m, i);
    var n := DigitsValue(m[..i]);
    if i == |m| {
      assert m[..i] == m[..k];
    } else if !IsDigit(m[i]) {
      assert k == i;
    } else {
      assert k > i;
      var n' := n * 10 + DigitValue(m[i]);
      assert m[..i + 1][..i] == m[..i];
      assert AllDigits(m[..i + 1]);
      assert DigitsValue(m[..i + 1]) == n';
      if n' > MaxUint64 {
        assert m[..k][..i + 1] == m[..i + 1];
        DigitsValuePrefix(m[..k], i + 1);
      } else {
        ScanUintMeaning(m, i + 1);
      }
    }
  }

  /** The digit run covers the whole string exactly when the string is all digits. */
  lemma {:induction false} LeadingDigitsAll(s: string)
    ensures LeadingDigits(s) == |s| <==> AllDigits(s)
  {
    if s != [] && IsDigit(s[0]) {
      LeadingDigitsAll(s[1..]);
      assert AllDigits(s) <==> AllDigits(s[1..]) by {
        if AllDigits(s[1..]) {
          forall i | 0 <= i < |s| ensures IsDigit(s[i]) {
            if i > 0 { assert s[i] == s[1..][i - 1]; }
          }
        }
      }
    }
  }

  lemma ParseUintMeaning(m: string)
    ensures ParseUint(m) ==
            if m == "" || (LeadingValue(m) <= MaxUint64 && LeadingDigits(m) < |m|) then Err(ErrSyntax)
            else if LeadingValue(m) > MaxUint64 then Err(ErrRange)
            else Ok(LeadingValue(m))
  {
    if m != "" {
      assert m[..0] == [];
      ScanUintMeaning(m, 0);
    }
  }

  /**
   * ParseInt(s, 10, 64) succeeds exactly on an optional sign followed by one
   * or more decimal digits whose value lies in int64, and then returns that
   * value. Zero and negative numbers are accepted.
   */
  lemma ParseIntAccepts(s: string)
    ensures ParseInt(s).Ok? <==> IsDecimalInteger(s) && InInt64(IntegerValue(s))
    ensures ParseInt(s).Ok? ==> ParseInt(s).value == IntegerValue(s)
  {
    var m := Magnitude(s);
    ParseUintMeaning(m);
    LeadingDigitsAll(m);
    assert m[..|m|] == m;
  }

  /**
   * Every error names the whole input. A well-formed number outside int64 is a
   * range error; a malformed one is a syntax error unless its leading digits
   * already overflow uint64, which ParseUint reports as a range error first.
   */
  lemma ParseIntRejects(s: string)
    ensures ParseInt(s).Err? ==> ParseInt(s).error.num == s
    ensures IsDecimalInteger(s) && !InInt64(IntegerValue(s)) ==> ParseInt(s) == Err(NumError(s, ErrRange))
    ensures !IsDecimalInteger(s) && LeadingValue(Magnitude(s)) <= MaxUint64 ==> ParseInt(s) == Err(NumError(s, ErrSyntax))
    ensures !IsDecimalInteger(s) && LeadingValue(Magnitude(s)) > MaxUint64 ==> ParseInt(s) == Err(NumError(s, ErrRange))
  {
    var m := Magnitude(s);
    ParseUintMeaning(m);
    ParseIntAccepts(s);
    LeadingDigitsAll(m);
  }

  /** fmt's %d of a non-negative int: its decimal digits, without leading zeros. */
  function FormatNat(n: nat): (r: string)
    ensures |r| > 0 && AllDigits(r) && DigitsValue(r) == n
    ensures r[0] == '0' ==> n == 0
  {
    if n < 10 then [DigitChar(n)]
    else
      var p := FormatNat(n / 10);
      var r := p + [DigitChar(n % 10)];
      assert r[..|r| - 1] == p;
      r
  }

  lemma FormatNatInjective(a: nat, b: nat)
    ensures FormatNat(a) == FormatNat(b) <==> a == b
  {
  }

  /** What %d prints, ParseInt reads back. */
  lemma FormatParseRoundTrip(n: nat)
    requires n <= MaxInt64
    ensures ParseInt(FormatNat(n)) == Ok(n)
  {
    var s := FormatNat(n);
    assert !HasSign(s) && Magnitude(s) == s;
    ParseIntAccepts(s);
  }
}
