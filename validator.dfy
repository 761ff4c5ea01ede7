/**
 * The hand-written field validators of the API service
 * (monash-api/src/utils/validator.js): pattern tests and range checks that
 * answer true or false.
 */
module Validator {
  import opened Wrappers
  import opened Json
  import opened Text

  /**
   * `validMyKadNumber`: exactly twelve digits (`^\d{12}$`), then the month
   * (digits 3-4) must lie in 1..12 and the day (digits 5-6) in 1..31, each
   * rejected by an early return.
   */
  function ValidMyKadNumber(ic: string): bool {
    if !(|ic| == 12 && AllDigits(ic)) then false
    else
      var month := DigitsValue(ic[2..4]);
      var day := DigitsValue(ic[4..6]);
      if month < 1 || month > 12 then false
      else if day < 1 || day > 31 then false
      else true
  }

  /** Two digit characters that spell a month 01..12. */
  predicate MonthDigits(a: char, b: char) {
    (a == '0' && '1' <= b <= '9') || (a == '1' && '0' <= b <= '2')
  }

  /** Two digit characters that spell a day 01..31. */
  predicate DayDigits(a: char, b: char) {
    (a == '0' && '1' <= b <= '9') || ((a == '1' || a == '2') && IsDigit(b)) || (a == '3' && (b == '0' || b == '1'))
  }

  /** The shape of a MyKad number stated on its characters: twelve digits, a month and a day; the year is free. */
  predicate MyKadShape(ic: string) {
    |ic| == 12 && AllDigits(ic) && MonthDigits(ic[2], ic[3]) && DayDigits(ic[4], ic[5])
  }

  /** `validMyKadNumber` returns true exactly for the strings of MyKad shape. */
  lemma ValidMyKadNumberIsShape(ic: string)
    ensures ValidMyKadNumber(ic) <==> MyKadShape(ic)
  {
    if |ic| == 12 && AllDigits(ic) {
      assert AllDigits(ic[2..4]) && AllDigits(ic[4..6]);
      TwoDigitsValue(ic[2..4]);
      TwoDigitsValue(ic[4..6]);
    }
  }

  /** The year digits never decide: replacing them by other digits keeps the verdict. */
  lemma MyKadYearIsUnconstrained(ic: string, y0: char, y1: char)
    requires |ic| == 12 && IsDigit(ic[0]) && IsDigit(ic[1]) && IsDigit(y0) && IsDigit(y1)
    ensures ValidMyKadNumber([y0, y1] + ic[2..]) == ValidMyKadNumber(ic)
  {
    var other := [y0, y1] + ic[2..];
    ValidMyKadNumberIsShape(ic);
    ValidMyKadNumberIsShape(other);
    assert forall i :: 2 <= i < 12 ==> other[i] == ic[i];
  }

  /** Neither white space nor `@`: the class `[^\s@]`. */
  predicate PlainChar(c: char) { !IsWhitespace(c) && c != '@' }

  predicate AllPlain(s: string) { forall i :: 0 <= i < |s| ==> PlainChar(s[i]) }

  /** The index of the first `c` in `s`, if any. */
  function IndexOf(s: string, c: char): (r: Option<nat>)
    ensures r.Some? ==> r.value < |s| && s[r.value] == c && forall i :: 0 <= i < r.value ==> s[i] != c
    ensures r.None? ==> forall i :: 0 <= i < |s| ==> s[i] != c
  {
    if s == [] then None
    else if s[0] == c then Some(0)
    else match IndexOf(s[1..], c)
      case None => None
      case Some(i) => Some(i + 1)
  }

  /**
   * `validEmail` (`^[^\s@]+@[^\s@]+\.[^\s@]+$`), matched left to right: a
   * non-empty local part up to the only `@`, then a domain without white
   * space or `@` that has a `.` which is neither its first nor its last
   * character.
   */
  predicate ValidEmail(email: string) {
    match IndexOf(email, '@')
    case None => false
    case Some(at) =>
      var domain := email[at + 1..];
      at > 0 && AllPlain(email[..at]) && AllPlain(domain) && |domain| >= 3 && '.' in domain[1..|domain| - 1]
  }

  /** One way the email pattern matches: `@` at index `at`, the chosen `.` at index `dot`. */
  ghost predicate EmailMatchAt(s: string, at: int, dot: int) {
    && 0 < at && at + 1 < dot && dot + 1 < |s|
    && s[at] == '@' && s[dot] == '.'
    && AllPlain(s[..at]) && AllPlain(s[at + 1..dot]) && AllPlain(s[dot + 1..])
  }

  /** `validEmail` accepts exactly the strings the pattern matches. */
  lemma ValidEmailMatchesPattern(s: string)
    ensures ValidEmail(s) <==> exists at, dot :: EmailMatchAt(s, at, dot)
  {
    if ValidEmail(s) {
      var at := IndexOf(s, '@').value;
      var domain := s[at + 1..];
      var j :| 0 <= j < |domain[1..|domain| - 1]| && domain[1..|domain| - 1][j] == '.';
      var dot := at + 2 + j;
      assert s[dot] == '.';
      assert EmailMatchAt(s, at, dot);
    }
    if exists at, dot :: EmailMatchAt(s, at, dot) {
      var at, dot :| EmailMatchAt(s, at, dot);
      assert forall i :: 0 <= i < at ==> s[..at][i] == s[i];
      assert IndexOf(s, '@') == Some(at);
      var domain := s[at + 1..];
      forall i | 0 <= i < |domain| ensures PlainChar(domain[i]) {
        if at + 1 + i < dot { assert domain[i] == s[at + 1..dot][i]; }
        else if at + 1 + i > dot { assert domain[i] == s[dot + 1..][at + i - dot]; }
      }
      assert domain[1..|domain| - 1][dot - at - 2] == '.';
    }
  }

  /** Every character is the digit 0. */
  predicate AllZeros(s: string) { forall i :: 0 <= i < |s| ==> s[i] == '0' }

  /** The value of the digits after a decimal point: a number in [0, 1), zero exactly when every digit is 0. */
  function Fraction(digits: string): (q: real)
    requires AllDigits(digits)
    ensures 0.0 <= q < 1.0
    ensures q == 0.0 <==> AllZeros(digits)
  {
    if digits == [] then 0.0
    else
      var rest := digits[1..];
      assert forall i :: 0 <= i < |rest| ==> rest[i] == digits[i + 1];
      (DigitValue(digits[0]) as real + Fraction(rest)) / 10.0
  }

  /**
   * The number a decimal text with a point denotes: its whole part plus the
   * fraction after the point. It is the whole part when every digit after
   * the point is 0, and no integer otherwise.
   */
  function PointValue(whole: string, fraction: string): (r: real)
    requires AllDigits(whole) && AllDigits(fraction)
    ensures r >= 0.0
    ensures AllZeros(fraction) ==> r == DigitsValue(whole) as real
    ensures !AllZeros(fraction) ==> !IsInteger(r)
  {
    var w, q := DigitsValue(whole), Fraction(fraction);
    assert (w as real + q).Floor == w;
    w as real + q
  }

  /**
   * `Number` of a trimmed text without a sign, in decimal notation: digits
   * with at most one `.` and at least one digit in all. `None` stands for a
   * result that is not a finite number (NaN, or `Infinity`).
   */
  function UnsignedDecimal(t: string): (r: Option<real>)
    ensures r.Some? ==> r.value >= 0.0
  {
    match IndexOf(t, '.')
    case None => if t != [] && AllDigits(t) then Some(DigitsValue(t) as real) else None
    case Some(p) =>
      var whole, fraction := t[..p], t[p + 1..];
      if |t| > 1 && AllDigits(whole) && AllDigits(fraction) then
        Some(PointValue(whole, fraction))
      else None
  }

  /**
   * `Number(text)` on a string in decimal notation: white space around it is
   * ignored, an empty text is 0, and a leading `+` or `-` gives the sign.
   */
  function NumberOfText(s: string): (r: Option<real>)
  {
    var t := Trim(s);
    if t == [] then Some(0.0)
    else if t[0] == '-' then
      match UnsignedDecimal(t[1..])
      case Some(n) => Some(-n)
      case None => None
    else if t[0] == '+' then UnsignedDecimal(t[1..])
    else UnsignedDecimal(t)
  }

  /** `validId`: `Number(id)` of the route parameter is an integer above zero. */
  predicate ValidId(id: string) {
    match NumberOfText(id)
    case Some(n) => IsInteger(n) && n > 0.0
    case None => false
  }

  /** A digit string is read as the number it denotes, and is a valid id exactly when that number is at least 1. */
  lemma ValidIdOfDigits(s: string)
    requires s != [] && AllDigits(s)
    ensures NumberOfText(s) == Some(DigitsValue(s) as real)
    ensures ValidId(s) <==> DigitsValue(s) >= 1
  {
    assert IsDigit(s[|s| - 1]);
    NumberOfUnsignedText(s);
    assert IndexOf(s, '.').None?;
  }

  /** Only the trimmed text counts: white space around an id changes nothing. */
  lemma ValidIdIgnoresPadding(pre: string, s: string, post: string)
    requires AllWhitespace(pre) && AllWhitespace(post)
    requires s != [] ==> !IsWhitespace(s[0]) && !IsWhitespace(s[|s| - 1])
    ensures NumberOfText(pre + s + post) == NumberOfText(s)
    ensures ValidId(pre + s + post) == ValidId(s)
  {
    TrimPadded(pre, s, post);
    TrimKeepsTrimmed(s);
  }

  /** A blank id reads as 0, which is not valid. */
  lemma BlankIdIsInvalid(s: string)
    requires AllWhitespace(s)
    ensures NumberOfText(s) == Some(0.0) && !ValidId(s)
  {
    TrimAllWhitespace(s);
  }

  /** An id whose text starts with `-` is never valid: it reads as zero, a negative number or NaN. */
  lemma NegativeIdIsInvalid(s: string)
    requires Trim(s) != [] && Trim(s)[0] == '-'
    ensures !ValidId(s)
  {
  }

  /** The first `.` of `whole + "." + fraction` is the one after the whole part. */
  lemma PointAfterWhole(whole: string, fraction: string)
    requires AllDigits(whole)
    ensures IndexOf(whole + "." + fraction, '.') == Some(|whole|)
  {
    var s := whole + "." + fraction;
    assert forall i :: 0 <= i < |whole| ==> s[i] == whole[i];
    assert s[|whole|] == '.';
  }

  /** A trimmed text that starts with a digit reads as it does without a sign. */
  lemma NumberOfUnsignedText(s: string)
    requires s != [] && IsDigit(s[0]) && !IsWhitespace(s[|s| - 1])
    ensures NumberOfText(s) == UnsignedDecimal(s)
  {
    TrimKeepsTrimmed(s);
  }

  /** A decimal text with a point reads as its whole part plus the fraction after the point. */
  lemma NumberOfPointText(whole: string, fraction: string)
    requires whole != [] && AllDigits(whole) && AllDigits(fraction)
    ensures NumberOfText(whole + "." + fraction) == Some(PointValue(whole, fraction))
  {
    var s := whole + "." + fraction;
    assert s[0] == whole[0];
    assert !IsWhitespace(s[|s| - 1]) by {
      if fraction != [] { assert s[|s| - 1] == fraction[|fraction| - 1]; }
    }
    PointAfterWhole(whole, fraction);
    assert s[..|whole|] == whole && s[|whole| + 1..] == fraction;
    NumberOfUnsignedText(s);
  }

  /** Zeros after the point change nothing: `12.00` is valid exactly when `12` is. */
  lemma ValidIdWithZeroFraction(whole: string, fraction: string)
    requires whole != [] && AllDigits(whole) && AllDigits(fraction) && AllZeros(fraction)
    ensures NumberOfText(whole + "." + fraction) == NumberOfText(whole)
    ensures ValidId(whole + "." + fraction) == ValidId(whole)
  {
    NumberOfPointText(whole, fraction);
    ValidIdOfDigits(whole);
  }

  /** A text with a non-zero digit after the point, such as `12.5`, is never a valid id. */
  lemma ValidIdWithNonZeroFraction(whole: string, fraction: string)
    requires whole != [] && AllDigits(whole) && AllDigits(fraction) && !AllZeros(fraction)
    ensures !ValidId(whole + "." + fraction)
  {
    NumberOfPointText(whole, fraction);
  }

  /** `validCourseCode`: a string of two to four capitals (`^[A-Z]{2,4}$`), nothing else. */
  predicate ValidCourseCode(code: Value) {
    code.JString? && 2 <= |code.s| <= 4 && AllUpper(code.s)
  }

  /** `validStudentNumber`: a string of two to four capitals followed by exactly four digits (`^[A-Z]{2,4}[0-9]{4}$`). */
  predicate ValidStudentNumber(studentNumber: Value) {
    studentNumber.JString? && LettersThenDigits(studentNumber.s, 4, 4)
  }

  /**
   * `validStudentNumber` accepts exactly the strings the pattern matches,
   * and each of them is six to eight characters long.
   */
  lemma ValidStudentNumberShape(studentNumber: Value)
    ensures ValidStudentNumber(studentNumber) <==>
      studentNumber.JString? && MatchesLettersDigits(studentNumber.s, 4, 4)
    ensures ValidStudentNumber(studentNumber) ==> 6 <= |studentNumber.s| <= 8
  {
    if studentNumber.JString? {
      LettersThenDigitsMatches(studentNumber.s, 4, 4);
    }
  }
}
