/**
 * Character classes and the string operations the validators rely on:
 * ASCII case mapping, JavaScript white space and `trim`, decimal digits and
 * leading runs of upper-case letters.
 */
module Text {

  predicate IsDigit(c: char) { '0' <= c <= '9' }

  predicate IsUpper(c: char) { 'A' <= c <= 'Z' }

  predicate IsLower(c: char) { 'a' <= c <= 'z' }

  /** The characters matched by `\s` in a JavaScript regular expression, which are also the ones `trim` removes. */
  predicate IsWhitespace(c: char) {
    || c == '\t' || c == '\n' || c == '\U{000B}' || c == '\U{000C}' || c == '\r' || c == ' '
    || c == '\U{00A0}' || c == '\U{1680}' || '\U{2000}' <= c <= '\U{200A}'
    || c == '\U{2028}' || c == '\U{2029}' || c == '\U{202F}' || c == '\U{205F}'
    || c == '\U{3000}' || c == '\U{FEFF}'
  }

  /** The characters `.` does not match in a JavaScript regular expression without the `s` flag. */
  predicate IsLineTerminator(c: char) {
    c == '\n' || c == '\r' || c == '\U{2028}' || c == '\U{2029}'
  }

  predicate AllDigits(s: string) { forall i :: 0 <= i < |s| ==> IsDigit(s[i]) }

  predicate AllUpper(s: string) { forall i :: 0 <= i < |s| ==> IsUpper(s[i]) }

  predicate AllWhitespace(s: string) { forall i :: 0 <= i < |s| ==> IsWhitespace(s[i]) }

  /** `toUpperCase` on one character, restricted to ASCII letters. */
  function UpperChar(c: char): (u: char)
    ensures IsLower(c) ==> IsUpper(u) && u as int == c as int - 32
    ensures !IsLower(c) ==> u == c
  {
    if IsLower(c) then (c as int - 32) as char else c
  }

  /** `toLowerCase` on one character, restricted to ASCII letters. */
  function LowerChar(c: char): (l: char)
    ensures IsUpper(c) ==> IsLower(l) && l as int == c as int + 32
    ensures !IsUpper(c) ==> l == c
  {
    if IsUpper(c) then (c as int + 32) as char else c
  }

  /** `toUpperCase`: every ASCII lower-case letter is mapped to its capital, every other character is kept. */
  function ToUpper(s: string): (r: string)
    ensures |r| == |s|
    ensures forall i :: 0 <= i < |s| ==> r[i] == UpperChar(s[i])
  {
    seq(|s|, i requires 0 <= i < |s| => UpperChar(s[i]))
  }

  /** `toLowerCase`: every ASCII capital is mapped to its lower-case letter, every other character is kept. */
  function ToLower(s: string): (r: string)
    ensures |r| == |s|
    ensures forall i :: 0 <= i < |s| ==> r[i] == LowerChar(s[i])
  {
    seq(|s|, i requires 0 <= i < |s| => LowerChar(s[i]))
  }

  /** `trimStart`: drops exactly the longest white-space prefix. */
  function TrimStart(s: string): (r: string)
    ensures |r| <= |s| && r == s[|s| - |r|..]
    ensures forall i :: 0 <= i < |s| - |r| ==> IsWhitespace(s[i])
    ensures r != [] ==> !IsWhitespace(r[0])
  {
    if s != [] && IsWhitespace(s[0]) then TrimStart(s[1..]) else s
  }

  /** `trimEnd`: drops exactly the longest white-space suffix. */
  function TrimEnd(s: string): (r: string)
    ensures |r| <= |s| && r == s[..|r|]
    ensures forall i :: |r| <= i < |s| ==> IsWhitespace(s[i])
    ensures r != [] ==> !IsWhitespace(r[|r| - 1])
  {
    if s != [] && IsWhitespace(s[|s| - 1]) then TrimEnd(s[..|s| - 1]) else s
  }

  /** `trim`: white space removed from both ends. */
  function Trim(s: string): (r: string)
    ensures |r| <= |s|
    ensures r != [] ==> !IsWhitespace(r[0]) && !IsWhitespace(r[|r| - 1])
  {
    TrimEnd(TrimStart(s))
  }

  /** A string without white space at either end is unchanged by `trim`. */
  lemma TrimKeepsTrimmed(s: string)
    requires s != [] ==> !IsWhitespace(s[0]) && !IsWhitespace(s[|s| - 1])
    ensures Trim(s) == s
  {
  }

  /** `trim` is idempotent. */
  lemma TrimIdempotent(s: string)
    ensures Trim(Trim(s)) == Trim(s)
  {
    TrimKeepsTrimmed(Trim(s));
  }

  /** A string made only of white space trims to the empty string. */
  lemma {:induction false} TrimAllWhitespace(s: string)
    requires AllWhitespace(s)
    ensures TrimStart(s) == [] && Trim(s) == []
  {
    if s != [] {
      assert AllWhitespace(s[1..]) by {
        forall i | 0 <= i < |s[1..]| ensures IsWhitespace(s[1..][i]) { assert s[1..][i] == s[i + 1]; }
      }
      TrimAllWhitespace(s[1..]);
    }
  }

  /** `trimStart` drops exactly a white-space prefix in front of a text that does not start with white space. */
  lemma {:induction false} TrimStartPadded(pre: string, x: string)
    requires AllWhitespace(pre) && (x != [] ==> !IsWhitespace(x[0]))
    ensures TrimStart(pre + x) == x
  {
    if pre != [] {
      assert (pre + x)[1..] == pre[1..] + x;
      assert AllWhitespace(pre[1..]) by {
        forall i | 0 <= i < |pre[1..]| ensures IsWhitespace(pre[1..][i]) { assert pre[1..][i] == pre[i + 1]; }
      }
      TrimStartPadded(pre[1..], x);
    } else {
      assert pre + x == x;
    }
  }

  /** `trimEnd` drops exactly a white-space suffix after a text that does not end with white space. */
  lemma {:induction false} TrimEndPadded(y: string, post: string)
    requires AllWhitespace(post) && (y != [] ==> !IsWhitespace(y[|y| - 1]))
    ensures TrimEnd(y + post) == y
  {
    if post != [] {
      var shorter := post[..|post| - 1];
      assert (y + post)[..|y + post| - 1] == y + shorter;
      assert AllWhitespace(shorter) by {
        forall i | 0 <= i < |shorter| ensures IsWhitespace(shorter[i]) { assert shorter[i] == post[i]; }
      }
      TrimEndPadded(y, shorter);
    } else {
      assert y + post == y;
    }
  }

  /** `trim` removes exactly the white space put around a trimmed text. */
  lemma TrimPadded(pre: string, s: string, post: string)
    requires AllWhitespace(pre) && AllWhitespace(post)
    requires s != [] ==> !IsWhitespace(s[0]) && !IsWhitespace(s[|s| - 1])
    ensures Trim(pre + s + post) == s
  {
    if s != [] {
      assert pre + s + post == pre + (s + post);
      TrimStartPadded(pre, s + post);
      TrimEndPadded(s, post);
    } else {
      assert pre + s + post == pre + post;
      assert AllWhitespace(pre + post) by {
        forall i | 0 <= i < |pre + post| ensures IsWhitespace((pre + post)[i]) {
          if i >= |pre| { assert (pre + post)[i] == post[i - |pre|]; }
        }
      }
      TrimAllWhitespace(pre + post);
    }
  }

  /** Upper-casing leaves white space where it was. */
  lemma ToUpperKeepsWhitespace(s: string)
    requires AllWhitespace(s)
    ensures ToUpper(s) == s
  {
    assert forall i :: 0 <= i < |s| ==> !IsLower(s[i]);
  }

  /** The value of one decimal digit. */
  function DigitValue(c: char): (d: nat)
    requires IsDigit(c)
    ensures d <= 9
  {
    c as int - '0' as int
  }

  /** The number a string of decimal digits denotes (`Number` or `parseInt(_, 10)` of it). */
  function DigitsValue(s: string): (n: nat)
    requires AllDigits(s)
  {
    if s == [] then 0 else 10 * DigitsValue(s[..|s| - 1]) + DigitValue(s[|s| - 1])
  }

  /** Two digits denote ten times the first plus the second. */
  lemma TwoDigitsValue(s: string)
    requires |s| == 2 && AllDigits(s)
    ensures DigitsValue(s) == 10 * DigitValue(s[0]) + DigitValue(s[1])
  {
    assert DigitsValue(s[..1]) == DigitValue(s[0]) by {
      assert s[..1][..0] == [];
    }
  }

  /** The length of the longest prefix of `s` made of ASCII capitals. */
  function UpperRun(s: string): (k: nat)
    ensures k <= |s| && AllUpper(s[..k])
    ensures k < |s| ==> !IsUpper(s[k])
  {
    if s != [] && IsUpper(s[0]) then
      var k := 1 + UpperRun(s[1..]);
      assert forall i :: 1 <= i < k ==> s[..k][i] == s[1..][..k - 1][i - 1];
      k
    else 0
  }

  /** The capital run is determined by any split into capitals and a non-capital. */
  lemma {:induction false} UpperRunOfSplit(s: string, k: nat)
    requires k <= |s| && AllUpper(s[..k]) && (k < |s| ==> !IsUpper(s[k]))
    ensures UpperRun(s) == k
  {
    if k > 0 {
      assert IsUpper(s[..k][0]);
      var t := s[1..];
      assert AllUpper(t[..k - 1]) by {
        forall i | 0 <= i < k - 1 ensures IsUpper(t[i]) { assert t[i] == s[..k][i + 1]; }
      }
      assert k - 1 < |t| ==> t[k - 1] == s[k];
      UpperRunOfSplit(t, k - 1);
    }
  }

  /**
   * The language of the pattern `^[A-Z]{2,4}[0-9]{m,n}$`: two to four
   * capitals followed by between `minDigits` and `maxDigits` digits.
   */
  ghost predicate MatchesLettersDigits(s: string, minDigits: nat, maxDigits: nat) {
    exists k :: LettersDigitsSplit(s, k, minDigits, maxDigits)
  }

  ghost predicate LettersDigitsSplit(s: string, k: int, minDigits: nat, maxDigits: nat) {
    2 <= k <= 4 && k <= |s| && minDigits <= |s| - k <= maxDigits && AllUpper(s[..k]) && AllDigits(s[k..])
  }

  /** The matcher for `^[A-Z]{2,4}[0-9]{m,n}$`: the capitals are the leading capital run, the rest must be digits. */
  predicate LettersThenDigits(s: string, minDigits: nat, maxDigits: nat) {
    var k := UpperRun(s);
    2 <= k <= 4 && minDigits <= |s| - k <= maxDigits && AllDigits(s[k..])
  }

  /** The matcher accepts exactly the language of the pattern, and the letters are the capital run. */
  lemma LettersThenDigitsMatches(s: string, minDigits: nat, maxDigits: nat)
    requires minDigits >= 1
    ensures LettersThenDigits(s, minDigits, maxDigits) <==> MatchesLettersDigits(s, minDigits, maxDigits)
    ensures forall k :: LettersDigitsSplit(s, k, minDigits, maxDigits) ==> k == UpperRun(s)
  {
    forall k | LettersDigitsSplit(s, k, minDigits, maxDigits) ensures k == UpperRun(s) {
      assert s[k..][0] == s[k];
      UpperRunOfSplit(s, k);
    }
    if LettersThenDigits(s, minDigits, maxDigits) {
      assert LettersDigitsSplit(s, UpperRun(s), minDigits, maxDigits);
    }
  }
}
