/** Go's `strconv.ParseInt(s, 10, 64)`, `strconv.FormatInt(n, 10)` and
    `strconv.ParseBool`, the number codecs every handler and scraper leans on.
    ParseInt is modelled with the value Go returns alongside an error, because
    some callers discard the error and keep the value. */
module Numbers {
  import opened Wrappers
  import opened Strings

  const MaxUint64: int := 0x1_0000_0000_0000_0000 - 1
  const MaxInt64: int := 0x7FFF_FFFF_FFFF_FFFF
  const MinInt64: int := -0x8000_0000_0000_0000

  predicate IsInt64(n: int) { MinInt64 <= n <= MaxInt64 }

  datatype NumError = ErrSyntax | ErrRange

  /** The pair Go returns: a value, and an error that may be present. */
  datatype IntResult = IntResult(value: int, err: Option<NumError>)

  /** What a left-to-right scan of an unsigned decimal string finds. */
  datatype Scan = Digits(n: nat) | BadDigit | TooLarge

  function DigitValue(c: char): nat
    requires IsDigit(c)
  {
    c as int - '0' as int
  }

  /** The value of a string of decimal digits, the reference meaning of a numeral. */
  function DecimalValue(s: string): nat
    requires forall i :: 0 <= i < |s| ==> IsDigit(s[i])
  {
    if s == [] then 0 else DecimalValue(s[..|s| - 1]) * 10 + DigitValue(s[|s| - 1])
  }

  /** The digit loop of `strconv.ParseUint(s, 10, 64)`: scanning from the left,
      the first non-digit is a syntax error and the first step that leaves
      the uint64 range is a range error; whichever comes first wins. */
  function ScanDigits(s: string): (r: Scan)
    ensures r.Digits? <==>
              (forall i :: 0 <= i < |s| ==> IsDigit(s[i])) && DecimalValue(s) <= MaxUint64
    ensures r.Digits? ==> r.n == DecimalValue(s)
    ensures r == BadDigit ==> exists i :: 0 <= i < |s| && !IsDigit(s[i])
  {
    if s == [] then Digits(0)
    else
      match ScanDigits(s[..|s| - 1])
      case Digits(n) =>
        if !IsDigit(s[|s| - 1]) then BadDigit
        else if n * 10 + DigitValue(s[|s| - 1]) > MaxUint64 then TooLarge
        else Digits(n * 10 + DigitValue(s[|s| - 1]))
      case other =>
        var init := s[..|s| - 1];
        assert forall i :: 0 <= i < |init| ==> init[i] == s[i];
        other
  }

  /** `strconv.ParseInt(s, 10, 64)`, value and error as Go returns them: 0 with
      a syntax error, the nearest int64 bound with a range error. */
  function ParseInt(s: string): (r: IntResult)
    ensures IsInt64(r.value)
    ensures r.err == Some(ErrSyntax) ==> r.value == 0
    ensures s == [] ==> r.err == Some(ErrSyntax)
  {
    if s == [] then IntResult(0, Some(ErrSyntax))
    else
      var neg := s[0] == '-';
      var body := if s[0] == '+' || s[0] == '-' then s[1..] else s;
      if body == [] then IntResult(0, Some(ErrSyntax))
      else
        match ScanDigits(body)
        case BadDigit => IntResult(0, Some(ErrSyntax))
        case TooLarge => IntResult(if neg then MinInt64 else MaxInt64, Some(ErrRange))
        case Digits(un) =>
          if !neg && un > MaxInt64 then IntResult(MaxInt64, Some(ErrRange))
          else if neg && un > -MinInt64 then IntResult(MinInt64, Some(ErrRange))
          else IntResult(if neg then -(un as int) else un, None)
  }

  /** The meaning of a successful parse: an optional sign and a non-empty run
      of digits whose signed value is an int64. */
  lemma ParseIntMeaning(s: string)
    requires ParseInt(s).err.None?
    ensures var body := if s[0] == '+' || s[0] == '-' then s[1..] else s;
            body != [] && (forall i :: 0 <= i < |body| ==> IsDigit(body[i])) &&
            ParseInt(s).value == (if s[0] == '-' then -(DecimalValue(body) as int) else DecimalValue(body))
  {
  }

  /** Any optionally signed numeral in the int64 range parses to its value. */
  lemma ParseIntDigits(sign: string, digits: string)
    requires sign == "" || sign == "+" || sign == "-"
    requires digits != [] && forall i :: 0 <= i < |digits| ==> IsDigit(digits[i])
    requires IsInt64(if sign == "-" then -(DecimalValue(digits) as int) else DecimalValue(digits))
    ensures ParseInt(sign + digits) ==
              IntResult(if sign == "-" then -(DecimalValue(digits) as int) else DecimalValue(digits), None)
  {
    var s := sign + digits;
    if sign == "" {
      assert s == digits;
    } else {
      assert s[1..] == digits;
    }
  }

  /** A numeral past the int64 range is clamped to the nearest bound and
      reported as a range error, whether or not it also leaves uint64. */
  lemma ParseIntClamps(sign: string, digits: string)
    requires sign == "" || sign == "+" || sign == "-"
    requires digits != [] && forall i :: 0 <= i < |digits| ==> IsDigit(digits[i])
    requires DecimalValue(digits) > MaxInt64 + (if sign == "-" then 1 else 0)
    ensures ParseInt(sign + digits) == IntResult(if sign == "-" then MinInt64 else MaxInt64, Some(ErrRange))
  {
    var s := sign + digits;
    if sign == "" {
      assert s == digits;
    } else {
      assert s[1..] == digits;
    }
  }

  function DigitChar(d: nat): (c: char)
    requires d < 10
    ensures IsDigit(c) && DigitValue(c) == d
  {
    ('0' as int + d) as char
  }

  /** The decimal numeral of `n`, without sign or leading zeros. */
  function FormatNat(n: nat): (s: string)
    ensures s != [] && forall i :: 0 <= i < |s| ==> IsDigit(s[i])
    ensures DecimalValue(s) == n
    ensures s[0] == '0' ==> n == 0
  {
    if n < 10 then [DigitChar(n)]
    else
      var prefix := FormatNat(n / 10);
      assert (prefix + [DigitChar(n % 10)])[..|prefix|] == prefix;
      prefix + [DigitChar(n % 10)]
  }

  /** `strconv.FormatInt(n, 10)`. */
  function FormatInt(n: int): (s: string)
    ensures s != [] && (s[0] == '-' <==> n < 0)
  {
    if n < 0 then "-" + FormatNat(-n) else FormatNat(n)
  }

  /** Formatting then parsing an int64 gives it back without error. */
  lemma ParseFormatInt(n: int)
    requires IsInt64(n)
    ensures ParseInt(FormatInt(n)) == IntResult(n, None)
  {
    if n < 0 {
      ParseIntDigits("-", FormatNat(-n));
    } else {
      ParseIntDigits("", FormatNat(n));
    }
  }

  /** `strconv.ParseBool`: the six spellings of each truth value, or nothing. */
  function ParseBool(s: string): (r: Option<bool>)
    ensures r == Some(true) <==> s in {"1", "t", "T", "TRUE", "true", "True"}
    ensures r == Some(false) <==> s in {"0", "f", "F", "FALSE", "false", "False"}
  {
    if s in {"1", "t", "T", "TRUE", "true", "True"} then Some(true)
    else if s in {"0", "f", "F", "FALSE", "false", "False"} then Some(false)
    else None
  }
}
