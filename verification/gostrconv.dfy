/**
 * Go's strconv.Atoi and strconv.Itoa on a 64-bit platform: an optional sign,
 * decimal digits only, int64 range; a syntax error yields 0 and an
 * out-of-range value yields the nearest int64 bound, both with an error.
 */
module GoStrconv {
  const MaxUint64: int := 0xFFFF_FFFF_FFFF_FFFF
  const MaxInt64: int := 0x7FFF_FFFF_FFFF_FFFF
  const MinInt64: int := -0x8000_0000_0000_0000

  predicate IsInt64(n: int)
  {
    MinInt64 <= n <= MaxInt64
  }

  /** Go's `int` on a 64-bit platform. */
  type Int64 = n: int | MinInt64 <= n <= MaxInt64

  /** Go's int arithmetic: the result wraps around into the int64 range. */
  function Wrap64(n: int): (r: int)
    ensures IsInt64(r)
    ensures IsInt64(n) ==> r == n
  {
    (n - MinInt64) % 0x1_0000_0000_0000_0000 + MinInt64
  }

  /** A value between 2^63 and 2^64 wraps to itself minus 2^64. */
  lemma WrapOnce(n: int)
    requires MaxInt64 < n < 0x1_0000_0000_0000_0000
    ensures Wrap64(n) == n - 0x1_0000_0000_0000_0000
  {
  }

  predicate IsDigit(c: char)
  {
    '0' <= c <= '9'
  }

  function DigitValue(c: char): (d: int)
    requires IsDigit(c)
    ensures 0 <= d < 10
  {
    c as int - '0' as int
  }

  function DigitChar(d: int): (c: char)
    requires 0 <= d < 10
    ensures IsDigit(c) && DigitValue(c) == d
  {
    (d + '0' as int) as char
  }

  predicate AllDigits(s: string)
  {
    forall k :: 0 <= k < |s| ==> IsDigit(s[k])
  }

  /** Value of a digit string read left to right onto `acc`, without any bound. */
  function Fold(s: string, acc: int): int
    requires AllDigits(s)
  {
    if |s| == 0 then acc else Fold(s[1..], acc * 10 + DigitValue(s[0]))
  }

  datatype Scan = Scanned(n: int) | SyntaxError | RangeError

  /**
   * The digit loop of strconv.ParseUint(s, 10, 64): a non-digit is a syntax
   * error, and passing 2^64-1 is a range error reported at once, before the
   * remaining characters are looked at.
   */
  function ScanUint(s: string, acc: nat): (r: Scan)
    requires acc <= MaxUint64
    ensures r.Scanned? ==> AllDigits(s) && r.n == Fold(s, acc) && 0 <= r.n <= MaxUint64
    ensures AllDigits(s) && Fold(s, acc) <= MaxUint64 ==> r == Scanned(Fold(s, acc))
  {
    if |s| == 0 then Scanned(acc)
    else if !IsDigit(s[0]) then SyntaxError
    else if acc * 10 + DigitValue(s[0]) > MaxUint64 then
      assert AllDigits(s) ==> Fold(s, acc) >= acc * 10 + DigitValue(s[0]) by {
        if AllDigits(s) { FoldGrows(s[1..], acc * 10 + DigitValue(s[0])); }
      }
      RangeError
    else ScanUint(s[1..], acc * 10 + DigitValue(s[0]))
  }

  lemma {:induction false} FoldGrows(s: string, acc: nat)
    requires AllDigits(s)
    ensures Fold(s, acc) >= acc
    decreases |s|
  {
    if |s| > 0 { FoldGrows(s[1..], acc * 10 + DigitValue(s[0])); }
  }

  datatype AtoiResult = AtoiResult(value: Int64, ok: bool)

  /** strconv.Atoi(s): the value Go returns and whether the error is nil. */
  function Atoi(s: string): (r: AtoiResult)
    ensures !r.ok ==> r.value == 0 || r.value == MaxInt64 || r.value == MinInt64
    ensures r.ok ==> |s| > 0
  {
    if |s| == 0 then AtoiResult(0, false)
    else
      var neg := s[0] == '-';
      var body := if s[0] == '+' || s[0] == '-' then s[1..] else s;
      if |body| == 0 then AtoiResult(0, false)
      else
        match ScanUint(body, 0)
        case SyntaxError => AtoiResult(0, false)
        case RangeError => AtoiResult(if neg then MinInt64 else MaxInt64, false)
        case Scanned(n) =>
          if !neg && n > MaxInt64 then AtoiResult(MaxInt64, false)
          else if neg && n > -MinInt64 then AtoiResult(MinInt64, false)
          else AtoiResult(if neg then -n else n, true)
  }

  /** Atoi succeeds exactly on an optional sign followed by at least one digit, within int64. */
  lemma AtoiAccepts(s: string)
    ensures Atoi(s).ok <==>
      var body := if |s| > 0 && (s[0] == '+' || s[0] == '-') then s[1..] else s;
      |body| > 0 && AllDigits(body) && IsInt64(if s[0] == '-' then -Fold(body, 0) else Fold(body, 0))
  {
    if |s| > 0 {
      var body := if s[0] == '+' || s[0] == '-' then s[1..] else s;
      if |body| > 0 && AllDigits(body) {
        FoldGrows(body, 0);
      }
    }
  }

  /** The decimal digits of a natural number, most significant first. */
  function NatDigits(n: nat): (s: string)
    ensures |s| > 0 && AllDigits(s)
  {
    if n < 10 then [DigitChar(n)] else NatDigits(n / 10) + [DigitChar(n % 10)]
  }

  /** strconv.Itoa: decimal notation with a leading '-' for negatives. */
  function Itoa(n: int): (s: string)
    ensures |s| > 0
    ensures forall k :: 0 <= k < |s| ==> IsDigit(s[k]) || (k == 0 && s[k] == '-')
  {
    if n < 0 then "-" + NatDigits(-n) else NatDigits(n)
  }

  lemma {:induction false} FoldSnoc(s: string, c: char, acc: int)
    requires AllDigits(s) && IsDigit(c)
    ensures AllDigits(s + [c]) && Fold(s + [c], acc) == Fold(s, acc) * 10 + DigitValue(c)
    decreases |s|
  {
    if |s| == 0 {
      assert s + [c] == [c];
    } else {
      assert (s + [c])[1..] == s[1..] + [c];
      FoldSnoc(s[1..], c, acc * 10 + DigitValue(s[0]));
    }
  }

  /** Reading back the digits of n gives n. */
  lemma {:induction false} FoldNatDigits(n: nat)
    ensures Fold(NatDigits(n), 0) == n
    decreases n
  {
    if n >= 10 {
      FoldNatDigits(n / 10);
      FoldSnoc(NatDigits(n / 10), DigitChar(n % 10), 0);
    }
  }

  /** Round trip: Atoi parses back every int64 that Itoa prints. */
  lemma AtoiItoa(n: int)
    requires IsInt64(n)
    ensures Atoi(Itoa(n)) == AtoiResult(n, true)
  {
    var s := Itoa(n);
    var m: nat := if n < 0 then -n else n;
    FoldNatDigits(m);
    if n < 0 {
      assert s[1..] == NatDigits(m);
    }
  }

  /** Itoa's first character is '-' exactly for negative numbers. */
  lemma ItoaSign(n: int)
    ensures Itoa(n)[0] == '-' <==> n < 0
  {
    if n >= 0 {
      assert IsDigit(NatDigits(n)[0]);
    }
  }

  /** Itoa never prints the same text for two different numbers. */
  lemma ItoaInjective(a: int, b: int)
    requires Itoa(a) == Itoa(b)
    ensures a == b
  {
    var sa, sb := Itoa(a), Itoa(b);
    ItoaSign(a);
    ItoaSign(b);
    if a < 0 {
      assert sa[1..] == NatDigits(-a) && sb[1..] == NatDigits(-b);
      FoldNatDigits(-a);
      FoldNatDigits(-b);
    } else {
      assert sa == NatDigits(a) && sb == NatDigits(b);
      FoldNatDigits(a);
      FoldNatDigits(b);
    }
  }
}
