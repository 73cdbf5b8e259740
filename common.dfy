/** Error taxonomy, result wrappers and the string helpers (hutool StrUtil,
    Java decimal formatting and Long.parseLong) that the services rely on. */
module Common {

  /** The service's ErrorCode values, plus Uncaught for an exception that is
      not a BusinessException (a NullPointerException, an I/O failure that
      no handler catches) and so reaches the caller unchanged. */
  datatype ErrorCode =
    | ParamsError
    | NotLoginError
    | NoAuthError
    | NotFoundError
    | OperationError
    | SystemError
    | Uncaught

  datatype Error = Error(code: ErrorCode, message: string)

  datatype Option<+T> = None | Some(value: T)

  /** One column of a MyBatis updateById: a non-null update overwrites, a
      null one keeps the stored value. */
  function Pick<T>(stored: Option<T>, update: Option<T>): Option<T> {
    if update.Some? then update else stored
  }

  /** The outcome of a call that either returns a value or throws. */
  datatype Result<+T> = Ok(value: T) | Err(error: Error)

  /** The outcome of a void call that may throw. */
  datatype Outcome = Pass | Fail(error: Error)

  function Fails(code: ErrorCode, message: string): Outcome {
    Fail(Error(code, message))
  }

  /** A character hutool's CharUtil.isBlankChar treats as blank: Java's
      Character.isWhitespace or Character.isSpaceChar, and six further marks
      (the byte order mark, left-to-right embedding, NUL, the Hangul filler,
      the blank Braille pattern and the Mongolian vowel separator). */
  predicate IsBlankChar(c: char) {
    // Character.isWhitespace: tab to carriage return, the four separators
    // U+001C..U+001F, and the space separators other than no-break ones
    ('\U{0009}' <= c <= '\U{000D}') || ('\U{001C}' <= c <= '\U{001F}')
    // Character.isSpaceChar: the space, line and paragraph separators
    || c == ' ' || c == '\U{00A0}' || c == '\U{1680}' || ('\U{2000}' <= c <= '\U{200A}')
    || c == '\U{2028}' || c == '\U{2029}' || c == '\U{202F}' || c == '\U{205F}' || c == '\U{3000}'
    // hutool's own additions
    || c == '\U{FEFF}' || c == '\U{202A}' || c == '\U{0000}' || c == '\U{3164}' || c == '\U{2800}'
    || c == '\U{180E}'
  }

  /** StrUtil.isBlank: null, empty, or made only of blank characters. */
  predicate Blank(s: Option<string>) {
    match s
    case None => true
    case Some(t) => forall i :: 0 <= i < |t| ==> IsBlankChar(t[i])
  }

  /** String.length: the number of UTF-16 code units, two for a character
      outside the Basic Multilingual Plane. */
  function JavaLength(s: string): (n: nat)
    ensures n >= |s|
  {
    if s == [] then 0
    else JavaLength(s[..|s| - 1]) + (if s[|s| - 1] as int > 0xFFFF then 2 else 1)
  }

  /** Inside the Basic Multilingual Plane a character is one code unit. */
  lemma {:induction false} JavaLengthOfBmp(s: string)
    requires forall i :: 0 <= i < |s| ==> s[i] as int <= 0xFFFF
    ensures JavaLength(s) == |s|
  {
    if s != [] {
      JavaLengthOfBmp(s[..|s| - 1]);
    }
  }

  predicate StartsWith(s: string, prefix: string) {
    |prefix| <= |s| && s[..|prefix|] == prefix
  }

  /** String.toLowerCase restricted to ASCII letters. */
  function LowerChar(c: char): char {
    if 'A' <= c <= 'Z' then (c as int + 32) as char else c
  }

  function ToLower(s: string): (r: string)
    ensures |r| == |s|
    ensures forall i :: 0 <= i < |s| ==> r[i] == LowerChar(s[i])
  {
    if s == [] then [] else [LowerChar(s[0])] + ToLower(s[1..])
  }

  predicate IsDigit(c: char) {
    '0' <= c <= '9'
  }

  function DigitChar(d: nat): char
    requires d < 10
  {
    ('0' as int + d) as char
  }

  /** Decimal text of a natural number, as Java prints it. */
  function NatToString(n: nat): (r: string)
    ensures |r| >= 1
    ensures forall i :: 0 <= i < |r| ==> IsDigit(r[i])
    ensures n < 10 <==> |r| == 1
    decreases n
  {
    if n < 10 then [DigitChar(n)] else NatToString(n / 10) + [DigitChar(n % 10)]
  }

  /** Decimal text of an integer (a Long id), with a leading '-' when negative. */
  function IntToString(i: int): string {
    if i < 0 then "-" + NatToString(-i) else NatToString(i)
  }

  /** The value of a non-empty run of decimal digits. */
  function DigitsValue(s: string): nat
    requires forall i :: 0 <= i < |s| ==> IsDigit(s[i])
    decreases |s|
  {
    if s == [] then 0
    else DigitsValue(s[..|s| - 1]) * 10 + DigitValue(s[|s| - 1])
  }

  function DigitValue(c: char): (d: nat)
    requires IsDigit(c)
    ensures d < 10 && DigitChar(d) == c
  {
    c as int - '0' as int
  }

  /** A Java int: 32 bits, two's complement. */
  type Int32 = x: int | -0x8000_0000 <= x < 0x8000_0000

  const LongMin: int := -0x8000_0000_0000_0000
  const LongMax: int := 0x7FFF_FFFF_FFFF_FFFF

  predicate AllDigits(s: string) {
    forall i :: 0 <= i < |s| ==> IsDigit(s[i])
  }

  /** Long.parseLong over ASCII digits: an optional sign, at least one digit,
      and a value inside the 64-bit range; None stands for NumberFormatException. */
  function ParseLong(s: string): (r: Option<int>)
    ensures r.Some? ==> LongMin <= r.value <= LongMax
    ensures r.Some? <==>
      || (AllDigits(s) && |s| >= 1 && DigitsValue(s) <= LongMax)
      || (|s| >= 2 && s[0] == '+' && AllDigits(s[1..]) && DigitsValue(s[1..]) <= LongMax)
      || (|s| >= 2 && s[0] == '-' && AllDigits(s[1..]) && DigitsValue(s[1..]) <= -LongMin)
    ensures r.Some? && AllDigits(s) ==> r.value == DigitsValue(s)
    ensures r.Some? && s[0] == '+' ==> r.value == DigitsValue(s[1..])
    ensures r.Some? && s[0] == '-' ==> r.value == 0 - DigitsValue(s[1..]) as int
  {
    if |s| >= 1 && (s[0] == '-' || s[0] == '+') then
      var body := s[1..];
      if |body| >= 1 && AllDigits(body) then
        var v: int := if s[0] == '-' then 0 - DigitsValue(body) as int else DigitsValue(body) as int;
        if LongMin <= v <= LongMax then Some(v) else None
      else None
    else if |s| >= 1 && AllDigits(s) then
      var v := DigitsValue(s);
      if v <= LongMax then Some(v) else None
    else None
  }

  /** Printing a number and reading it back gives the number. */
  lemma {:induction false} DigitsValueOfNatToString(n: nat)
    ensures DigitsValue(NatToString(n)) == n
    decreases n
  {
    var s := NatToString(n);
    if n >= 10 {
      DigitsValueOfNatToString(n / 10);
      assert s[..|s| - 1] == NatToString(n / 10);
    }
  }

  /** Long.parseLong accepts what Java prints for a non-negative long. */
  lemma ParseLongOfNatToString(n: nat)
    requires n <= LongMax
    ensures ParseLong(NatToString(n)) == Some(n)
  {
    DigitsValueOfNatToString(n);
  }

  /** Distinct integers print differently. */
  lemma IntToStringInjective(a: int, b: int)
    requires a != b
    ensures IntToString(a) != IntToString(b)
  {
    if a >= 0 && b >= 0 {
      NatToStringDistinct(a, b);
    } else if a < 0 && b < 0 {
      NatToStringDistinct(-a, -b);
      SignedTextsDistinct(NatToString(-a), NatToString(-b));
    } else if a < 0 {
      NegativeTextHasSign(a, b);
    } else {
      NegativeTextHasSign(b, a);
    }
  }

  lemma NatToStringDistinct(a: nat, b: nat)
    requires a != b
    ensures NatToString(a) != NatToString(b)
  {
    DigitsValueOfNatToString(a);
    DigitsValueOfNatToString(b);
  }

  lemma SignedTextsDistinct(x: string, y: string)
    requires x != y
    ensures "-" + x != "-" + y
  {
    assert ("-" + x)[1..] == x;
    assert ("-" + y)[1..] == y;
  }

  lemma NegativeTextHasSign(a: int, b: int)
    requires a < 0 <= b
    ensures IntToString(a) != IntToString(b)
  {
    assert IntToString(a)[0] == '-';
    assert IsDigit(NatToString(b)[0]);
  }

  /** Distinct numbers print differently. */
  lemma {:induction false} NatToStringInjective(a: nat, b: nat)
    requires NatToString(a) == NatToString(b)
    ensures a == b
    decreases a
  {
    var s := NatToString(a);
    if a >= 10 && b >= 10 {
      assert s[..|s| - 1] == NatToString(a / 10);
      assert NatToString(b)[..|s| - 1] == NatToString(b / 10);
      NatToStringInjective(a / 10, b / 10);
      assert s[|s| - 1] == DigitChar(a % 10) == DigitChar(b % 10);
    }
  }

  /** Appending distinct numbers to one prefix gives distinct strings. */
  lemma PrefixedNumbersDistinct(prefix: string, a: nat, b: nat)
    requires a != b
    ensures prefix + NatToString(a) != prefix + NatToString(b)
  {
    if prefix + NatToString(a) == prefix + NatToString(b) {
      assert NatToString(a) == (prefix + NatToString(a))[|prefix|..];
      assert NatToString(b) == (prefix + NatToString(b))[|prefix|..];
      NatToStringInjective(a, b);
    }
  }
}
