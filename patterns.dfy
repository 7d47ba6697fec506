/**
 * The two regular expressions of the contact form, written as recursive
 * predicates over strings, each next to an independent description of the
 * language it accepts and a lemma that the two agree.
 *
 *   email  /^[^\s@]+@[^\s@]+\.[^\s@]+$/
 *   phone  /^1[3-9]\d{9}$/
 *
 * Neither expression has the `m`, `u` or `g` flag: `^` and `$` anchor at the
 * ends of the whole input, `\d` is ASCII 0-9, and `test` keeps no state.
 */
module Patterns {

  /** JavaScript's `\s`: the WhiteSpace and LineTerminator code points of
      ECMAScript (TAB, LF, VT, FF, CR, SPACE, NBSP, the Zs separators,
      LINE SEPARATOR, PARAGRAPH SEPARATOR and the byte order mark). */
  predicate IsJsSpace(c: char) {
    || ('\t' <= c <= '\r')
    || c == ' '
    || c == '\U{00A0}'
    || c == '\U{1680}'
    || ('\U{2000}' <= c <= '\U{200A}')
    || c == '\U{2028}'
    || c == '\U{2029}'
    || c == '\U{202F}'
    || c == '\U{205F}'
    || c == '\U{3000}'
    || c == '\U{FEFF}'
  }

  /** The character class `[^\s@]`. */
  predicate IsEmailChar(c: char) {
    !IsJsSpace(c) && c != '@'
  }

  /** `\d` without the `u` flag. */
  predicate IsAsciiDigit(c: char) {
    '0' <= c <= '9'
  }

  predicate AllEmailChars(s: seq<char>) {
    forall i | 0 <= i < |s| :: IsEmailChar(s[i])
  }

  predicate AllAsciiDigits(s: seq<char>) {
    forall i | 0 <= i < |s| :: IsAsciiDigit(s[i])
  }

  // ---------------------------------------------------------------------
  // The email expression, one predicate per position in the pattern.
  // Alternatives are disjunctions, so backtracking is implicit.
  // ---------------------------------------------------------------------

  /** `[^\s@]+$` */
  predicate TopLevel(s: seq<char>) {
    |s| > 0 && IsEmailChar(s[0]) && (|s| == 1 || TopLevel(s[1..]))
  }

  /** `[^\s@]*\.[^\s@]+$` (the rest of the domain after its first character) */
  predicate DomainTail(s: seq<char>) {
    && |s| > 0
    && (|| (s[0] == '.' && TopLevel(s[1..]))
        || (IsEmailChar(s[0]) && DomainTail(s[1..])))
  }

  /** `[^\s@]+\.[^\s@]+$` */
  predicate Domain(s: seq<char>) {
    |s| > 0 && IsEmailChar(s[0]) && DomainTail(s[1..])
  }

  /** `[^\s@]*@[^\s@]+\.[^\s@]+$` (the rest of the address after its first character) */
  predicate LocalTail(s: seq<char>) {
    && |s| > 0
    && (|| (s[0] == '@' && Domain(s[1..]))
        || (IsEmailChar(s[0]) && LocalTail(s[1..])))
  }

  /** `^[^\s@]+@[^\s@]+\.[^\s@]+$` */
  predicate EmailPattern(s: seq<char>) {
    |s| > 0 && IsEmailChar(s[0]) && LocalTail(s[1..])
  }

  /** A '.' that is neither the first nor the last character. */
  ghost predicate HasInnerDot(d: seq<char>) {
    exists k | 0 < k < |d| - 1 :: d[k] == '.'
  }

  /** The accepted addresses, stated without the pattern: an '@' at position
      `at` splits the string into a non-empty local part and a domain part,
      neither holding whitespace or '@', and the domain has an inner '.'. */
  ghost predicate EmailShape(s: seq<char>) {
    exists at :: ShapeSplit(s, at)
  }

  ghost predicate ShapeSplit(s: seq<char>, at: int) {
    && 0 < at < |s|
    && s[at] == '@'
    && AllEmailChars(s[..at])
    && AllEmailChars(s[at + 1..])
    && HasInnerDot(s[at + 1..])
  }

  lemma {:induction false} TopLevelMeans(s: seq<char>)
    ensures TopLevel(s) <==> |s| > 0 && AllEmailChars(s)
  {
    if |s| > 1 {
      TopLevelMeans(s[1..]);
      assert forall i | 1 <= i < |s| :: s[1..][i - 1] == s[i];
    }
  }

  lemma {:induction false} DomainTailMeans(s: seq<char>)
    ensures DomainTail(s) <==> AllEmailChars(s) && exists k | 0 <= k < |s| - 1 :: s[k] == '.'
  {
    if |s| > 0 {
      TopLevelMeans(s[1..]);
      DomainTailMeans(s[1..]);
      assert forall i | 1 <= i < |s| :: s[1..][i - 1] == s[i];
      if DomainTail(s) && !(s[0] == '.' && TopLevel(s[1..])) {
        var k :| 0 <= k < |s[1..]| - 1 && s[1..][k] == '.';
        assert s[k + 1] == '.';
      }
      if AllEmailChars(s) && exists k | 0 <= k < |s| - 1 :: s[k] == '.' {
        var k :| 0 <= k < |s| - 1 && s[k] == '.';
        if s[0] != '.' {
          assert s[1..][k - 1] == '.';
        }
      }
    }
  }

  lemma DomainMeans(s: seq<char>)
    ensures Domain(s) <==> AllEmailChars(s) && HasInnerDot(s)
  {
    if |s| > 0 {
      DomainTailMeans(s[1..]);
      assert forall i | 1 <= i < |s| :: s[1..][i - 1] == s[i];
      if Domain(s) {
        var k :| 0 <= k < |s[1..]| - 1 && s[1..][k] == '.';
        assert s[k + 1] == '.';
      }
      if AllEmailChars(s) && HasInnerDot(s) {
        var k :| 0 < k < |s| - 1 && s[k] == '.';
        assert s[1..][k - 1] == '.';
      }
    }
  }

  lemma AllEmailCharsConcat(a: seq<char>, b: seq<char>)
    ensures AllEmailChars(a + b) <==> AllEmailChars(a) && AllEmailChars(b)
  {
    if AllEmailChars(a + b) {
      forall i | 0 <= i < |a| ensures IsEmailChar(a[i]) {
        assert (a + b)[i] == a[i];
      }
      forall i | 0 <= i < |b| ensures IsEmailChar(b[i]) {
        assert (a + b)[|a| + i] == b[i];
      }
    }
  }

  /** `at` is the position of the '@' that LocalTail's match consumes. */
  predicate LocalSplit(s: seq<char>, at: int) {
    0 <= at < |s| && s[at] == '@' && AllEmailChars(s[..at]) && Domain(s[at + 1..])
  }

  /** Moving one character from the unconsumed input to the local part. */
  lemma LocalShift(s: seq<char>, at: nat)
    requires 0 <= at < |s| - 1
    ensures LocalSplit(s, at + 1) <==> IsEmailChar(s[0]) && LocalSplit(s[1..], at)
  {
    assert s[1..][at] == s[at + 1];
    assert s[1..][at + 1..] == s[at + 2..];
    assert s[..at + 1] == [s[0]] + s[1..][..at];
    AllEmailCharsConcat([s[0]], s[1..][..at]);
  }

  lemma {:induction false} LocalTailMeans(s: seq<char>)
    ensures LocalTail(s) <==> exists at :: LocalSplit(s, at)
  {
    if |s| > 0 {
      LocalTailMeans(s[1..]);
      if LocalTail(s) {
        if s[0] == '@' && Domain(s[1..]) {
          assert s[..0] == [];
          assert LocalSplit(s, 0);
        } else {
          var at :| LocalSplit(s[1..], at);
          LocalShift(s, at);
          assert LocalSplit(s, at + 1);
        }
      }
      if exists at :: LocalSplit(s, at) {
        var at :| LocalSplit(s, at);
        if at > 0 {
          LocalShift(s, at - 1);
          assert LocalSplit(s[1..], at - 1);
        }
      }
    }
  }

  /** The email pattern accepts exactly the strings of EmailShape. */
  lemma EmailPatternMeans(s: seq<char>)
    ensures EmailPattern(s) <==> EmailShape(s)
  {
    if |s| > 0 {
      LocalTailMeans(s[1..]);
      if EmailPattern(s) {
        var at :| LocalSplit(s[1..], at);
        LocalShift(s, at);
        assert LocalSplit(s, at + 1);
        DomainMeans(s[at + 2..]);
        assert ShapeSplit(s, at + 1);
      }
      if EmailShape(s) {
        var at :| ShapeSplit(s, at);
        DomainMeans(s[at + 1..]);
        assert LocalSplit(s, at);
        LocalShift(s, at - 1);
        assert LocalSplit(s[1..], at - 1);
      }
    }
  }

  /** An accepted address holds exactly one '@'. */
  lemma EmailHasOneAt(s: seq<char>)
    requires EmailPattern(s)
    ensures multiset(s)['@'] == 1
  {
    EmailPatternMeans(s);
    var at :| ShapeSplit(s, at);
    assert s == s[..at] + [s[at]] + s[at + 1..];
    assert '@' !in s[..at];
    assert '@' !in s[at + 1..];
  }

  /** The address of the examples is accepted. */
  lemma EmailAcceptsExample()
    ensures EmailPattern("a@b.co")
  {
    var good := "a@b.co";
    assert good[..1] == "a" && good[2..] == "b.co";
    assert "b.co"[1] == '.';
    assert ShapeSplit(good, 1);
    EmailPatternMeans(good);
  }

  /** A string without '@' is rejected. */
  lemma EmailRejectsExample()
    ensures !EmailPattern("not-an-email")
  {
    var bad := "not-an-email";
    EmailPatternMeans(bad);
  }

  // ---------------------------------------------------------------------
  // The phone expression.
  // ---------------------------------------------------------------------

  /** `\d{n}$` */
  predicate Digits(s: seq<char>, n: nat)
    decreases n
  {
    if n == 0 then s == [] else |s| > 0 && IsAsciiDigit(s[0]) && Digits(s[1..], n - 1)
  }

  /** `^1[3-9]\d{9}$` */
  predicate PhonePattern(s: seq<char>) {
    |s| >= 2 && s[0] == '1' && '3' <= s[1] <= '9' && Digits(s[2..], 9)
  }

  /** The accepted mobile numbers, stated without the pattern. */
  ghost predicate PhoneShape(s: seq<char>) {
    && |s| == 11
    && s[0] == '1'
    && '3' <= s[1] <= '9'
    && forall i | 2 <= i < 11 :: IsAsciiDigit(s[i])
  }

  lemma {:induction false} DigitsMeans(s: seq<char>, n: nat)
    ensures Digits(s, n) <==> |s| == n && AllAsciiDigits(s)
    decreases n
  {
    if n > 0 && |s| > 0 {
      DigitsMeans(s[1..], n - 1);
      assert forall i | 1 <= i < |s| :: s[1..][i - 1] == s[i];
    }
  }

  /** The phone pattern accepts exactly the strings of PhoneShape. */
  lemma PhonePatternMeans(s: seq<char>)
    ensures PhonePattern(s) <==> PhoneShape(s)
  {
    if |s| >= 2 {
      DigitsMeans(s[2..], 9);
      assert forall i | 2 <= i < |s| :: s[2..][i - 2] == s[i];
    }
  }

  /** A number whose second digit is below 3 is rejected; a 138 number is accepted. */
  lemma PhoneExamples()
    ensures !PhonePattern("12345678901")
    ensures PhonePattern("13812345678")
  {
    var good := "13812345678";
    PhonePatternMeans(good);
    assert PhoneShape(good);
  }
}
