/**
 * The integer conversions the handlers use: Go's `strconv.ParseInt(s, 10, 64)`
 * and `strconv.Atoi` on a 64-bit platform, `fmt.Sprintf("%d", n)`, and Go's
 * `%` operator, which truncates toward zero.
 */
module Strconv {

  const MaxInt64: int := 0x7FFF_FFFF_FFFF_FFFF
  const MinInt64: int := -0x8000_0000_0000_0000
  const MaxUint64: int := 0xFFFF_FFFF_FFFF_FFFF
  /** ParseUint's `cutoff` for base 10: the first value whose tenfold overflows. */
  const Cutoff10: int := MaxUint64 / 10 + 1

  predicate IsDigit(c: char)
  {
    '0' <= c <= '9'
  }

  function DigitValue(c: char): int
    requires IsDigit(c)
  {
    c as int - '0' as int
  }

  function DigitChar(d: int): (c: char)
    requires 0 <= d < 10
    ensures IsDigit(c) && DigitValue(c) == d
  {
    ('0' as int + d) as char
  }

  // ----- formatting -----

  /** The decimal digits of `n`, most significant first, without leading zeros. */
  function Digits(n: nat): (ds: string)
    ensures ds != [] && forall i :: 0 <= i < |ds| ==> IsDigit(ds[i])
    decreases n
  {
    if n < 10 then [DigitChar(n)] else Digits(n / 10) + [DigitChar(n % 10)]
  }

  /** fmt.Sprintf("%d", n). */
  function Decimal(n: int): string
  {
    if n < 0 then "-" + Digits(-n) else Digits(n)
  }

  // ----- parsing -----

  datatype UintScan = Scanned(value: int) | ScanSyntax | ScanRange

  /**
   * ParseUint's loop for base 10: each character must be a digit, and the scan
   * stops with a range error at the first digit that overflows 64 bits, even if
   * a non-digit follows it.
   */
  function ScanUint(s: string, n: int): (r: UintScan)
    ensures 0 <= n <= MaxUint64 && r.Scanned? ==> n <= r.value <= MaxUint64
    decreases |s|
  {
    if s == [] then Scanned(n)
    else if !IsDigit(s[0]) then ScanSyntax
    else if n >= Cutoff10 then ScanRange
    else
      var n1 := n * 10 + DigitValue(s[0]);
      if n1 > MaxUint64 then ScanRange else ScanUint(s[1..], n1)
  }

  /** strconv.ParseUint(s, 10, 64). */
  function ParseUint(s: string): UintScan
  {
    if s == [] then ScanSyntax else ScanUint(s, 0)
  }

  /** The three outcomes of ParseInt: a value, ErrSyntax, or ErrRange with the clamped value. */
  datatype IntParse = Parsed(value: int) | SyntaxError | RangeError(clamped: int)

  /** strconv.ParseInt(s, 10, 64). */
  function ParseInt(s: string): (r: IntParse)
    ensures r.Parsed? ==> MinInt64 <= r.value <= MaxInt64
    ensures r.RangeError? ==> s != [] && r.clamped == (if s[0] == '-' then MinInt64 else MaxInt64)
  {
    if s == [] then SyntaxError
    else
      var neg := s[0] == '-';
      var body := if s[0] == '+' || s[0] == '-' then s[1..] else s;
      match ParseUint(body)
      case ScanSyntax => SyntaxError
      case ScanRange =>
        if neg then RangeError(MinInt64) else RangeError(MaxInt64)
      case Scanned(un) =>
        if !neg && un > MaxInt64 then RangeError(MaxInt64)
        else if neg && un > -MinInt64 then RangeError(MinInt64)
        else if neg then Parsed(-un)
        else Parsed(un)
  }

  /** strconv.Atoi: 0 on a syntax error, the clamped value on a range error. */
  function Atoi(s: string): (r: (int, bool))
    ensures MinInt64 <= r.0 <= MaxInt64
    ensures r.1 <==> ParseInt(s).Parsed?
    ensures r.1 ==> r.0 == ParseInt(s).value
    ensures ParseInt(s).SyntaxError? ==> r.0 == 0
    ensures ParseInt(s).RangeError? ==> r.0 == ParseInt(s).clamped
  {
    match ParseInt(s)
    case Parsed(v) => (v, true)
    case SyntaxError => (0, false)
    case RangeError(c) => (c, false)
  }

  /** Scanning `ds + [c]` is scanning `ds` and then one more step. */
  lemma {:induction false} ScanSnoc(ds: string, c: char, n: int)
    requires IsDigit(c)
    ensures ScanUint(ds + [c], n) ==
      match ScanUint(ds, n)
      case Scanned(m) =>
        if m >= Cutoff10 then ScanRange
        else if m * 10 + DigitValue(c) > MaxUint64 then ScanRange
        else Scanned(m * 10 + DigitValue(c))
      case other => other
  {
    if ds == [] {
      assert ds + [c] == [c];
      assert [c][1..] == [];
    } else {
      assert (ds + [c])[0] == ds[0];
      assert (ds + [c])[1..] == ds[1..] + [c];
      if IsDigit(ds[0]) && n < Cutoff10 && n * 10 + DigitValue(ds[0]) <= MaxUint64 {
        ScanSnoc(ds[1..], c, n * 10 + DigitValue(ds[0]));
      }
    }
  }

  lemma {:induction false} ScanDigits(n: nat)
    requires n <= MaxUint64
    ensures ScanUint(Digits(n), 0) == Scanned(n)
    decreases n
  {
    if n < 10 {
      assert Digits(n)[1..] == [];
    } else {
      ScanDigits(n / 10);
      ScanSnoc(Digits(n / 10), DigitChar(n % 10), 0);
    }
  }

  /** Every 64-bit integer survives formatting and parsing unchanged. */
  lemma ParseDecimal(n: int)
    requires MinInt64 <= n <= MaxInt64
    ensures ParseInt(Decimal(n)) == Parsed(n)
    ensures Atoi(Decimal(n)) == (n, true)
  {
    if n < 0 {
      assert ("-" + Digits(-n))[1..] == Digits(-n);
      ScanDigits(-n);
    } else {
      assert IsDigit(Digits(n)[0]);
      ScanDigits(n);
    }
  }

  /** A scan that meets a non-digit fails: with a syntax error, or a range error if it overflowed first. */
  lemma {:induction false} ScanStopsAtNonDigit(s: string, n: int, k: nat)
    requires k < |s| && !IsDigit(s[k])
    requires forall i :: 0 <= i < k ==> IsDigit(s[i])
    requires 0 <= n
    ensures ScanUint(s, n) == ScanSyntax || ScanUint(s, n) == ScanRange
  {
    if k > 0 && n < Cutoff10 && n * 10 + DigitValue(s[0]) <= MaxUint64 {
      ScanStopsAtNonDigit(s[1..], n * 10 + DigitValue(s[0]), k - 1);
    }
  }

  /** "abc" and "" are syntax errors; the scan reports them. */
  lemma SyntaxExamples()
    ensures ParseInt("") == SyntaxError
    ensures ParseInt("abc") == SyntaxError
    ensures ParseInt("-") == SyntaxError
    ensures Atoi("12x") == (0, false)
  {
    assert "12x"[1..] == "2x";
    assert "2x"[1..] == "x";
  }

  // ----- Go's remainder -----

  /** Go's `a % b` for b > 0: the sign follows the dividend. */
  function GoRem(a: int, b: int): (r: int)
    requires b > 0
    ensures -b < r < b
    ensures a >= 0 ==> r >= 0
    ensures a < 0 ==> r <= 0
  {
    if a >= 0 then a % b else -((-a) % b)
  }
}
