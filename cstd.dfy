/**
 * The few pieces of the C and C++ standard library the core relies on, in the "C" locale:
 * character classes, truncating integer division, std::stoi and the range check of std::stod.
 */
module CStd {
  import opened Common

  const INT_MIN: int := -0x8000_0000
  const INT_MAX: int := 0x7FFF_FFFF
  const UINT32: int := 0x1_0000_0000

  /**
   * The long or exponent-bearing decimal texts that std::stod converts within the range of a
   * double (glibc's strtod reports ERANGE on the others, and stod throws out_of_range). The
   * conversion to floating point is not modelled, so this set is left abstract.
   */
  const LongInRange: iset<string>

  /**
   * Whether std::stod's conversion of a decimal text stays within the range of a double. A text
   * without an exponent and shorter than 300 characters denotes zero or a magnitude between
   * 10^-299 and 10^299, well inside the range; for any other text the verdict is LongInRange's.
   */
  predicate StodInRange(w: string)
  {
    (|w| < 300 && 'e' !in w && 'E' !in w) || w in LongInRange
  }

  predicate IsDigit(c: char) { '0' <= c <= '9' }
  predicate IsAlpha(c: char) { ('a' <= c <= 'z') || ('A' <= c <= 'Z') }
  /** std::isspace: space, \t, \n, \v, \f and \r. */
  predicate IsSpace(c: char) { c == ' ' || c == '\t' || c == '\n' || c == '\U{B}' || c == '\U{C}' || c == '\r' }

  /** ::tolower in the "C" locale. */
  function ToLower(c: char): (r: char)
    ensures 'A' <= c <= 'Z' ==> 'a' <= r <= 'z' && r as int == c as int + 32
    ensures !('A' <= c <= 'Z') ==> r == c
  {
    if 'A' <= c <= 'Z' then (c as int + 32) as char else c
  }

  /** C++ `/` on int: the quotient is truncated toward zero (Dafny's `/` is Euclidean). */
  function CDiv(a: int, b: int): (q: int)
    requires b != 0
    ensures a >= 0 ==> q == a / b
  {
    if a >= 0 then a / b else -((-a) / b)
  }

  /** C++ `%` on int: the remainder takes the sign of the dividend. */
  function CRem(a: int, b: int): (r: int)
    requires b != 0
    ensures a == CDiv(a, b) * b + r
    ensures a >= 0 ==> r == a % b
    ensures a < 0 ==> -(if b > 0 then b else -b) < r <= 0
  {
    a - CDiv(a, b) * b
  }

  /** Why std::stoi throws. */
  datatype StoiError = InvalidArgument | OutOfRange

  /** Value of a string of decimal digits, most significant first. */
  function DigitsValue(d: string): (v: nat)
    requires forall k :: 0 <= k < |d| ==> IsDigit(d[k])
  {
    if d == [] then 0
    else
      assert IsDigit(d[|d| - 1]);
      10 * DigitsValue(d[..|d| - 1]) + (d[|d| - 1] as int - '0' as int)
  }

  /** Where std::stoi is in its scan of the text: leading blanks, the first digit, later digits. */
  datatype StoiStage = Leading | FirstDigit(negative: bool) | MoreDigits(negative: bool, magnitude: nat)

  function StageRank(st: StoiStage): nat
  {
    match st
    case Leading => 1
    case _ => 0
  }

  /**
   * std::stoi (strtol in base 10, then a range check against int): skip std::isspace
   * characters, take one optional sign, then the longest run of digits; no digit at all is
   * invalid_argument and a value outside int is out_of_range. Text after the digits is ignored.
   */
  function Stoi(s: string): Result<int, StoiError>
  {
    StoiAt(s, 0, Leading)
  }

  function StoiAt(s: string, i: nat, st: StoiStage): Result<int, StoiError>
    requires i <= |s|
    decreases |s| - i, StageRank(st)
  {
    match st
    case Leading =>
      if i < |s| && IsSpace(s[i]) then StoiAt(s, i + 1, Leading)
      else if i < |s| && (s[i] == '-' || s[i] == '+') then StoiAt(s, i + 1, FirstDigit(s[i] == '-'))
      else StoiAt(s, i, FirstDigit(false))
    case FirstDigit(negative) =>
      if i < |s| && IsDigit(s[i]) then StoiAt(s, i + 1, MoreDigits(negative, s[i] as int - '0' as int))
      else Err(InvalidArgument)
    case MoreDigits(negative, magnitude) =>
      if i < |s| && IsDigit(s[i]) then StoiAt(s, i + 1, MoreDigits(negative, 10 * magnitude + (s[i] as int - '0' as int)))
      else
        var m: int := magnitude;
        IntInRange(if negative then -m else m)
  }

  function IntInRange(v: int): Result<int, StoiError>
  {
    if v < INT_MIN || v > INT_MAX then Err(OutOfRange) else Ok(v)
  }

  /** The decimal numeral of a natural number, without leading zeros. */
  function NatToString(n: nat): (s: string)
    ensures |s| > 0 && forall k :: 0 <= k < |s| ==> IsDigit(s[k])
    ensures DigitsValue(s) == n
  {
    if n < 10 then [('0' as int + n) as char]
    else
      var s := NatToString(n / 10) + [('0' as int + n % 10) as char];
      assert s[..|s| - 1] == NatToString(n / 10);
      s
  }

  /** Scanning the rest of an all-digit text continues the value of the digits read so far. */
  lemma {:induction false} ScanDigits(s: string, i: nat)
    requires 0 < i <= |s|
    requires forall k :: 0 <= k < |s| ==> IsDigit(s[k])
    ensures StoiAt(s, i, MoreDigits(false, DigitsValue(s[..i]))) == IntInRange(DigitsValue(s))
    decreases |s| - i
  {
    if i == |s| {
      assert s[..i] == s;
    } else {
      assert s[..i + 1][..i] == s[..i];
      ScanDigits(s, i + 1);
    }
  }

  /** std::stoi reads back the numeral of any natural number that fits in an int. */
  lemma StoiOfNumeral(n: nat)
    requires n <= INT_MAX
    ensures Stoi(NatToString(n)) == Ok(n)
  {
    var s := NatToString(n);
    assert IsDigit(s[0]);
    assert s[..1][..0] == [];
    assert DigitsValue(s[..1]) == s[0] as int - '0' as int;
    ScanDigits(s, 1);
    assert StoiAt(s, 0, Leading) == StoiAt(s, 0, FirstDigit(false));
  }
}
