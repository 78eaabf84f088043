/**
 * The parts of Go's strconv package that Process calls with base 0:
 * ParseBool, ParseUint and ParseInt.  A failed parse (syntax or range
 * error alike) is None, since Process only asks whether err is nil.
 */
module Strconv {
  import opened Options

  /** strconv.IntSize on a 64-bit platform: the width of int and uint. */
  const IntSize: nat := 64

  function Pow2(n: nat): (r: nat)
    ensures r >= 1
  {
    if n == 0 then 1 else 2 * Pow2(n - 1)
  }

  /** The byte trick `c | ('x' - 'X')` that strconv uses; it matters only for letters. */
  function Lower(c: char): char {
    if 'A' <= c <= 'Z' then (c as int + 32) as char else c
  }

  predicate IsDecimalDigit(c: char) {
    '0' <= c <= '9'
  }

  /** The value of a digit in bases up to 36: 0-9, then a/A = 10 up to z/Z = 35. */
  function DigitValue(c: char): (r: Option<nat>)
    ensures r.Some? ==> r.value < 36
  {
    if IsDecimalDigit(c) then Some(c as int - '0' as int)
    else if 'a' <= Lower(c) <= 'z' then Some(Lower(c) as int - 'a' as int + 10)
    else None
  }

  /**
   * Base detection of a base-0 parse: "0b"/"0B", "0o"/"0O", "0x"/"0X" when
   * at least one more character follows, a lone leading "0" for octal,
   * decimal otherwise.  Returns the base and the digits after the prefix.
   */
  function Base0(s: string): (r: (nat, string))
    requires s != ""
    ensures r.0 in {2, 8, 10, 16}
    ensures |r.1| <= |s|
    ensures r.0 == 10 <==> s[0] != '0'
  {
    if s[0] == '0' then
      if |s| >= 3 && Lower(s[1]) == 'b' then (2, s[2..])
      else if |s| >= 3 && Lower(s[1]) == 'o' then (8, s[2..])
      else if |s| >= 3 && Lower(s[1]) == 'x' then (16, s[2..])
      else (8, s[1..])
    else (10, s)
  }

  /**
   * The digit loop of ParseUint: underscores are skipped (base 0 allows
   * them), every other character must be a digit below the base.
   */
  function DigitsValue(ds: string, base: nat): (r: Option<nat>)
    decreases |ds|
  {
    if ds == [] then Some(0)
    else
      match DigitsValue(ds[..|ds| - 1], base)
      case None => None
      case Some(n) =>
        var c := ds[|ds| - 1];
        if c == '_' then Some(n)
        else match DigitValue(c)
          case Some(d) => if d < base then Some(n * base + d) else None
          case None => None
  }

  /** The last kind of character seen by underscoreOK. */
  datatype Saw = Start | Digit | Underscore | Other

  /** The scanning loop of underscoreOK. */
  function UnderscoreScan(s: string, hex: bool, saw: Saw): bool
    decreases |s|
  {
    if s == [] then saw != Underscore
    else
      var c := s[0];
      if IsDecimalDigit(c) || (hex && 'a' <= Lower(c) <= 'f') then UnderscoreScan(s[1..], hex, Digit)
      else if c == '_' then saw == Digit && UnderscoreScan(s[1..], hex, Underscore)
      else if saw == Underscore then false
      else UnderscoreScan(s[1..], hex, Other)
  }

  /**
   * underscoreOK: every underscore separates two digits, where a base
   * prefix counts as a digit.
   */
  function UnderscoreOK(s: string): bool {
    var t := if |s| >= 1 && (s[0] == '-' || s[0] == '+') then s[1..] else s;
    if |t| >= 2 && t[0] == '0' && (Lower(t[1]) == 'b' || Lower(t[1]) == 'o' || Lower(t[1]) == 'x') then
      UnderscoreScan(t[2..], Lower(t[1]) == 'x', Digit)
    else
      UnderscoreScan(t, false, Start)
  }

  /** strconv.ParseUint(s, 0, bitSize). */
  function ParseUint(s: string, bitSize: nat): (r: Option<nat>)
    requires 1 <= bitSize <= 64
    ensures r.Some? ==> r.value < Pow2(bitSize)
    ensures s == "" ==> r == None
  {
    if s == "" then None
    else
      var (base, ds) := Base0(s);
      match DigitsValue(ds, base)
      case None => None
      case Some(n) =>
        if '_' in s && !UnderscoreOK(s) then None
        else if n >= Pow2(bitSize) then None
        else Some(n)
  }

  /**
   * strconv.ParseInt(s, 0, bitSize): an optional sign, then ParseUint and
   * the signed range check.  Bit size 1 is excluded: there Go's ParseInt
   * goes on with the maximum ParseUint reports on overflow and can accept
   * a negative text out of range.
   */
  function ParseInt(s: string, bitSize: nat): (r: Option<int>)
    requires 2 <= bitSize <= 64
    ensures r.Some? ==> -(Pow2(bitSize - 1) as int) <= r.value < Pow2(bitSize - 1)
    ensures s == "" ==> r == None
  {
    if s == "" then None
    else
      var neg := s[0] == '-';
      var body := if s[0] == '+' || s[0] == '-' then s[1..] else s;
      match ParseUint(body, bitSize)
      case None => None
      case Some(un) =>
        if !neg && un >= Pow2(bitSize - 1) then None
        else if neg && un > Pow2(bitSize - 1) then None
        else Some(if neg then -(un as int) else un)
  }

  /** strconv.ParseBool: the six accepted spellings of each truth value. */
  function ParseBool(s: string): (r: Option<bool>)
    ensures r == Some(true) <==> s in {"1", "t", "T", "TRUE", "true", "True"}
    ensures r == Some(false) <==> s in {"0", "f", "F", "FALSE", "false", "False"}
  {
    match s
    case "1" => Some(true)
    case "t" => Some(true)
    case "T" => Some(true)
    case "TRUE" => Some(true)
    case "true" => Some(true)
    case "True" => Some(true)
    case "0" => Some(false)
    case "f" => Some(false)
    case "F" => Some(false)
    case "FALSE" => Some(false)
    case "false" => Some(false)
    case "False" => Some(false)
    case _ => None
  }

  /** strconv.FormatBool. */
  function FormatBool(b: bool): string {
    if b then "true" else "false"
  }

  lemma BoolRoundTrip(b: bool)
    ensures ParseBool(FormatBool(b)) == Some(b)
  {
  }

  /** Decimal digits of n, most significant first, without leading zeros. */
  function FormatUint(n: nat): (r: string)
    ensures r != ""
    ensures forall i :: 0 <= i < |r| ==> IsDecimalDigit(r[i])
    ensures n > 0 ==> r[0] != '0'
    decreases n
  {
    var last := [('0' as int + n % 10) as char];
    if n < 10 then last else FormatUint(n / 10) + last
  }

  /** strconv.FormatInt in base 10. */
  function FormatInt(i: int): string {
    if i < 0 then "-" + FormatUint(-i) else FormatUint(i)
  }

  /** Reading back the decimal digits of n in base 10 gives n. */
  lemma {:induction false} DecimalDigitsValue(n: nat)
    ensures DigitsValue(FormatUint(n), 10) == Some(n)
    decreases n
  {
    var s := FormatUint(n);
    if n >= 10 {
      DecimalDigitsValue(n / 10);
      assert s[..|s| - 1] == FormatUint(n / 10);
    }
  }

  lemma Pow2Monotone(a: nat, b: nat)
    requires a <= b
    ensures Pow2(a) <= Pow2(b)
    decreases b
  {
    if a < b {
      Pow2Monotone(a, b - 1);
    }
  }

  /** ParseUint reads back FormatUint(n) exactly when n fits in bitSize bits. */
  lemma UintRoundTrip(n: nat, bitSize: nat)
    requires 1 <= bitSize <= 64
    ensures ParseUint(FormatUint(n), bitSize) == if n < Pow2(bitSize) then Some(n) else None
  {
    var s := FormatUint(n);
    assert '_' !in s;
    if n == 0 {
      assert s == "0";
      assert Base0(s) == (8, "");
    } else {
      assert Base0(s) == (10, s);
      DecimalDigitsValue(n);
    }
  }

  /** ParseInt reads back FormatInt(i) exactly when i is in the signed range of bitSize bits. */
  lemma IntRoundTrip(i: int, bitSize: nat)
    requires 2 <= bitSize <= 64
    ensures ParseInt(FormatInt(i), bitSize) ==
      if -(Pow2(bitSize - 1) as int) <= i < Pow2(bitSize - 1) then Some(i) else None
  {
    var s := FormatInt(i);
    var m: nat := if i < 0 then -i else i;
    assert Pow2(bitSize) == 2 * Pow2(bitSize - 1);
    if i < 0 {
      assert s[1..] == FormatUint(m);
    } else {
      assert s[0] != '+' && s[0] != '-' by {
        assert IsDecimalDigit(s[0]);
      }
    }
    UintRoundTrip(m, bitSize);
  }
}
