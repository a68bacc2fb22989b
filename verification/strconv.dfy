/** Base-10, 64-bit integer parsing as Go's `strconv.ParseInt(s, 10, 64)`
    does it, and the decimal formatting it inverts. The configuration code
    uses the parser for the `LIMIT` variable and the `offset` parameter. */
module StrConv {
  import opened Wrappers

  const MaxUint64: int := 0xFFFF_FFFF_FFFF_FFFF
  /** 2^63: one past the largest int64, and minus the smallest. */
  const Int64Cutoff: int := 0x8000_0000_0000_0000

  predicate IsInt64(v: int)
  {
    -Int64Cutoff <= v < Int64Cutoff
  }

  /** Why a parse failed: a character that is not allowed, or a value that
      does not fit. */
  datatype NumError = ErrSyntax | ErrRange

  predicate IsDigit(c: char) { '0' <= c <= '9' }

  function DigitValue(c: char): nat
    requires IsDigit(c)
  {
    (c - '0') as nat
  }

  function DigitChar(d: nat): (c: char)
    requires d < 10
    ensures IsDigit(c) && DigitValue(c) == d
  {
    ('0' as int + d) as char
  }

  predicate AllDigits(s: string)
  {
    forall i :: 0 <= i < |s| ==> IsDigit(s[i])
  }

  /** The number a string of decimal digits denotes; leading zeros allowed. */
  function DecimalValue(s: string): nat
    requires AllDigits(s)
  {
    if s == [] then 0 else DecimalValue(s[..|s| - 1]) * 10 + DigitValue(s[|s| - 1])
  }

  /** The digit scan of `ParseUint`, from position `i` with the value of
      `s[..i]` accumulated in `n`: a non-digit is a syntax error, and the
      scan stops with a range error at the first digit that would take the
      accumulator past 2^64 - 1 (whatever follows it). */
  function ScanDigits(s: string, i: nat, n: nat): Result<nat, NumError>
    requires i <= |s| && n <= MaxUint64
    decreases |s| - i
  {
    if i == |s| then Success(n)
    else if !IsDigit(s[i]) then Failure(ErrSyntax)
    else if n >= MaxUint64 / 10 + 1 then Failure(ErrRange)
    else if n * 10 + DigitValue(s[i]) > MaxUint64 then Failure(ErrRange)
    else ScanDigits(s, i + 1, n * 10 + DigitValue(s[i]))
  }

  /** `strconv.ParseUint(s, 10, 64)`: the empty string is a syntax error. */
  function ParseUint(s: string): (r: Result<nat, NumError>)
    ensures r.Success? <==> s != [] && AllDigits(s) && DecimalValue(s) <= MaxUint64
    ensures r.Success? ==> r.value == DecimalValue(s)
    ensures s != [] && AllDigits(s) && DecimalValue(s) > MaxUint64 ==> r == Failure(ErrRange)
    ensures !AllDigits(s) ==> r.Failure?
  {
    if s == [] then Failure(ErrSyntax)
    else
      ScanDigitsSpec(s, 0, 0);
      ScanDigits(s, 0, 0)
  }

  /** `strconv.ParseInt(s, 10, 64)`: an optional sign, then an unsigned
      decimal; a syntax error from the unsigned part is reported as is, and
      any magnitude outside the int64 range is a range error. */
  function ParseInt(s: string): (r: Result<int, NumError>)
    ensures r.Success? ==> IsInt64(r.value)
    ensures s == [] ==> r == Failure(ErrSyntax)
  {
    if s == [] then Failure(ErrSyntax)
    else
      var neg := s[0] == '-';
      var digits := if s[0] == '+' || s[0] == '-' then s[1..] else s;
      match ParseUint(digits)
      case Failure(ErrSyntax) => Failure(ErrSyntax)
      case Failure(ErrRange) => Failure(ErrRange)
      case Success(un) =>
        if !neg && un >= Int64Cutoff then Failure(ErrRange)
        else if neg && un > Int64Cutoff then Failure(ErrRange)
        else Success(if neg then -(un as int) else un)
  }

  /** The shape `ParseInt` accepts, stated without the scan: an optional
      sign followed by at least one digit, with a value in the int64 range. */
  predicate Accepted(s: string)
  {
    && s != []
    && var digits := if s[0] == '+' || s[0] == '-' then s[1..] else s;
    && digits != [] && AllDigits(digits)
    && IsInt64(if s[0] == '-' then -(DecimalValue(digits) as int) else DecimalValue(digits))
  }

  /** The value of an accepted string. */
  function SignedValue(s: string): int
    requires Accepted(s)
  {
    var digits := if s[0] == '+' || s[0] == '-' then s[1..] else s;
    if s[0] == '-' then -(DecimalValue(digits) as int) else DecimalValue(digits)
  }

  /** Decimal digits of `n`, most significant first, no leading zeros. */
  function Digits(n: nat): (s: string)
    ensures s != [] && AllDigits(s)
    decreases n
  {
    if n < 10 then [DigitChar(n)] else Digits(n / 10) + [DigitChar(n % 10)]
  }

  /** `strconv.FormatInt(v, 10)`: a minus sign for negatives, then the
      digits of the magnitude. */
  function FormatInt(v: int): (s: string)
    ensures s != [] && (v < 0 <==> s[0] == '-')
  {
    if v < 0 then "-" + Digits(-v) else Digits(v)
  }

  // ---------------------------------------------------------------------
  // Lemmas
  // ---------------------------------------------------------------------

  lemma DecimalValuePrefix(s: string, i: nat)
    requires i < |s| && AllDigits(s[..i + 1])
    ensures AllDigits(s[..i]) && IsDigit(s[i])
    ensures DecimalValue(s[..i + 1]) == DecimalValue(s[..i]) * 10 + DigitValue(s[i])
  {
    var p := s[..i + 1];
    assert p[..i] == s[..i];
    assert p[i] == s[i];
  }

  lemma PrefixDigits(s: string, i: nat)
    requires i <= |s| && AllDigits(s)
    ensures AllDigits(s[..i])
  {
  }

  /** A longer digit string never denotes a smaller number. */
  lemma {:induction false} DecimalValueGrows(s: string, i: nat)
    requires AllDigits(s) && i <= |s|
    ensures DecimalValue(s[..i]) <= DecimalValue(s)
    decreases |s| - i
  {
    if i < |s| {
      PrefixDigits(s, i + 1);
      DecimalValuePrefix(s, i);
      DecimalValueGrows(s, i + 1);
    } else {
      assert s[..i] == s;
    }
  }

  /** What the scan computes from position `i`, given the value so far. */
  lemma {:induction false} ScanDigitsSpec(s: string, i: nat, n: nat)
    requires i <= |s| && n <= MaxUint64
    requires AllDigits(s[..i]) && n == DecimalValue(s[..i])
    ensures ScanDigits(s, i, n).Success? <==> AllDigits(s) && DecimalValue(s) <= MaxUint64
    ensures ScanDigits(s, i, n).Success? ==> ScanDigits(s, i, n).value == DecimalValue(s)
    ensures AllDigits(s) && DecimalValue(s) > MaxUint64 ==> ScanDigits(s, i, n) == Failure(ErrRange)
    decreases |s| - i
  {
    if i == |s| {
      assert s[..i] == s;
    } else if !IsDigit(s[i]) {
    } else {
      var p := s[..i + 1];
      assert AllDigits(p) by {
        forall k | 0 <= k < |p| ensures IsDigit(p[k]) {
          if k < i { assert p[k] == s[..i][k]; }
        }
      }
      DecimalValuePrefix(s, i);
      var n' := n * 10 + DigitValue(s[i]);
      if n >= MaxUint64 / 10 + 1 || n' > MaxUint64 {
        if AllDigits(s) {
          DecimalValueGrows(s, i + 1);
        }
      } else {
        ScanDigitsSpec(s, i + 1, n');
      }
    }
  }

  /** `ParseInt` accepts exactly the strings of the shape `Accepted`, and
      yields their value; everything else is an error. */
  lemma ParseIntAccepts(s: string)
    ensures ParseInt(s).Success? <==> Accepted(s)
    ensures Accepted(s) ==> ParseInt(s) == Success(SignedValue(s))
  {
  }

  /** A string of digits too large for int64 is a range error, not a
      syntax error, with or without a sign. */
  lemma ParseIntRange(s: string)
    requires s != [] && var digits := if s[0] == '+' || s[0] == '-' then s[1..] else s;
      digits != [] && AllDigits(digits) && DecimalValue(digits) > Int64Cutoff
    ensures ParseInt(s) == Failure(ErrRange)
  {
  }

  /** A string with a non-digit after the optional sign is rejected. */
  lemma ParseIntSyntax(s: string)
    requires s != [] && var digits := if s[0] == '+' || s[0] == '-' then s[1..] else s;
      !AllDigits(digits)
    ensures ParseInt(s).Failure?
  {
  }

  lemma {:induction false} DigitsValue(n: nat)
    ensures DecimalValue(Digits(n)) == n
    decreases n
  {
    if n >= 10 {
      DigitsValue(n / 10);
      var s := Digits(n);
      assert s[..|s| - 1] == Digits(n / 10);
    }
  }

  /** Round trip: every int64 value formats to a string `ParseInt` reads
      back as that value. */
  lemma ParseFormat(v: int)
    requires IsInt64(v)
    ensures ParseInt(FormatInt(v)) == Success(v)
  {
    var s := FormatInt(v);
    ParseIntAccepts(s);
    if v < 0 {
      var d := Digits(-v);
      DigitsValue(-v);
      assert s == "-" + d && s[1..] == d;
      assert Accepted(s) && SignedValue(s) == v;
    } else {
      var d := Digits(v);
      DigitsValue(v);
      assert IsDigit(d[0]) && s == d;
      assert Accepted(s) && SignedValue(s) == v;
    }
  }
}
