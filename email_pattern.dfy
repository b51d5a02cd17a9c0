/**
 * The language of the contact form's email regular expression, written as predicates.
 * The expression is anchored at both ends and has no flags, so a string is accepted
 * exactly when it splits as  local-part `@` domain  where
 *   - the local part is one or more dot-separated atoms, an atom being a non-empty run of
 *     characters other than  < > ( ) [ ] \ . , ; : @ "  and whitespace, or else a
 *     double quote, at least one character that is not a line terminator, and a double quote;
 *   - the domain is a bracketed dotted quad of 1-3 digit groups, or one or more labels of
 *     ASCII letters, digits and `-`, each followed by a dot, and then at least two ASCII letters.
 * Whitespace is JavaScript's `\s` class and line terminators are what `.` does not match.
 */
module EmailPattern {
  import JsString

  /** JavaScript's `\s`: the ECMAScript white-space and line-terminator characters. */
  predicate IsWhitespace(c: char) {
    c == ' ' || c == '\t' || c == '\n' || c == '\r' || c == '\U{B}' || c == '\U{C}' ||
    c == '\U{A0}' || c == '\U{1680}' || ('\U{2000}' <= c <= '\U{200A}') ||
    c == '\U{2028}' || c == '\U{2029}' || c == '\U{202F}' || c == '\U{205F}' ||
    c == '\U{3000}' || c == '\U{FEFF}'
  }

  /** The characters `.` does not match without the `s` flag. */
  predicate IsLineTerminator(c: char) {
    c == '\n' || c == '\r' || c == '\U{2028}' || c == '\U{2029}'
  }

  predicate IsAsciiDigit(c: char) { '0' <= c <= '9' }

  predicate IsAsciiLetter(c: char) { JsString.IsAsciiLower(c) || JsString.IsAsciiUpper(c) }

  /** The characters the unquoted local-part class leaves out, besides whitespace. */
  const AtomSpecials := "<>()[]\\.,;:@\""

  /** The negated class of an unquoted local-part atom. */
  predicate IsAtomChar(c: char) {
    c !in AtomSpecials && !IsWhitespace(c)
  }

  /** The class `[a-zA-Z\-0-9]` of a domain label. */
  predicate IsLabelChar(c: char) {
    IsAsciiLetter(c) || IsAsciiDigit(c) || c == '-'
  }

  /** `M+(\.M+)*` for a class `M` that excludes the dot. */
  predicate DotSeparated(s: string, member: char -> bool) {
    |s| > 0 && s[0] != '.' && s[|s| - 1] != '.' &&
    (forall i :: 0 <= i < |s| ==> s[i] == '.' || member(s[i])) &&
    (forall i :: 0 <= i < |s| - 1 && s[i] == '.' ==> s[i + 1] != '.')
  }

  /** `".+"` */
  predicate IsQuotedString(s: string) {
    |s| >= 3 && s[0] == '"' && s[|s| - 1] == '"' &&
    forall i :: 0 < i < |s| - 1 ==> !IsLineTerminator(s[i])
  }

  predicate IsLocalPart(s: string) {
    DotSeparated(s, IsAtomChar) || IsQuotedString(s)
  }

  /** `[0-9]{1,3}` */
  predicate IsDigitRun(s: string) {
    1 <= |s| <= 3 && forall i :: 0 <= i < |s| ==> IsAsciiDigit(s[i])
  }

  /** `n` digit runs separated by single dots. */
  predicate DigitGroups(s: string, n: nat)
    decreases n
  {
    if n <= 1 then n == 1 && IsDigitRun(s)
    else exists k | 1 <= k <= 3 && k < |s| :: s[k] == '.' && IsDigitRun(s[..k]) && DigitGroups(s[k + 1..], n - 1)
  }

  /** `\[[0-9]{1,3}\.[0-9]{1,3}\.[0-9]{1,3}\.[0-9]{1,3}]` */
  predicate IsAddressLiteral(s: string) {
    |s| >= 2 && s[0] == '[' && s[|s| - 1] == ']' && DigitGroups(s[1..|s| - 1], 4)
  }

  /** `[a-zA-Z]{2,}` */
  predicate IsTopLevelLabel(s: string) {
    |s| >= 2 && forall i :: 0 <= i < |s| ==> IsAsciiLetter(s[i])
  }

  /** `([a-zA-Z\-0-9]+\.)+[a-zA-Z]{2,}`: labels, then a dot, then the top-level label. */
  predicate IsHostName(s: string) {
    exists i | 0 <= i < |s| :: s[i] == '.' && DotSeparated(s[..i], IsLabelChar) && IsTopLevelLabel(s[i + 1..])
  }

  predicate IsDomain(s: string) {
    IsAddressLiteral(s) || IsHostName(s)
  }

  /** `email.match(emailRegex)` is not null. */
  predicate IsEmailAddress(s: string) {
    exists i | 0 <= i < |s| :: s[i] == '@' && IsLocalPart(s[..i]) && IsDomain(s[i + 1..])
  }

  /** `n` dotted digit runs take at least `2n - 1` characters. */
  lemma {:induction false} DigitGroupsLength(s: string, n: nat)
    requires DigitGroups(s, n)
    ensures n >= 1 && |s| >= 2 * n - 1
    decreases n
  {
    if n > 1 {
      var k :| 1 <= k <= 3 && k < |s| && s[k] == '.' && IsDigitRun(s[..k]) && DigitGroups(s[k + 1..], n - 1);
      DigitGroupsLength(s[k + 1..], n - 1);
    }
  }

  /** The shortest domains are a one-character label with a two-letter top level (`b.cd`). */
  lemma DomainLength(d: string)
    requires IsDomain(d)
    ensures |d| >= 4
  {
    if IsAddressLiteral(d) {
      DigitGroupsLength(d[1..|d| - 1], 4);
    } else {
      var j :| 0 <= j < |d| && d[j] == '.' && DotSeparated(d[..j], IsLabelChar) && IsTopLevelLabel(d[j + 1..]);
      assert |d[j + 1..]| >= 2;
    }
  }

  /**
   * Every accepted address holds an `@` and at least six characters (`a@b.cd`);
   * in particular the empty string is never accepted.
   */
  lemma AcceptedAddressShape(s: string)
    requires IsEmailAddress(s)
    ensures '@' in s && |s| >= 6
  {
    var i :| 0 <= i < |s| && s[i] == '@' && IsLocalPart(s[..i]) && IsDomain(s[i + 1..]);
    DomainLength(s[i + 1..]);
    assert |s[..i]| >= 1;
  }

  lemma LetterInBothClasses(c: char)
    requires IsAsciiLetter(c)
    ensures IsAtomChar(c) && IsLabelChar(c)
  {
  }

  /**
   * Letters, `@` at `at`, letters, a dot at `dot` and at least two letters: always
   * accepted, with the `@` as the split point and the dot as the last label's end.
   */
  lemma LettersAddressAccepted(s: string, at: nat, dot: nat)
    requires 0 < at && at + 1 < dot && dot + 2 < |s|
    requires s[at] == '@' && s[dot] == '.'
    requires forall i :: 0 <= i < |s| && i != at && i != dot ==> IsAsciiLetter(s[i])
    ensures IsEmailAddress(s)
  {
    var local, domain := s[..at], s[at + 1..];
    forall i | 0 <= i < |local|
      ensures IsAtomChar(local[i])
    {
      LetterInBothClasses(s[i]);
    }
    assert DotSeparated(local, IsAtomChar);
    var j := dot - at - 1;
    var host, tld := domain[..j], domain[j + 1..];
    forall i | 0 <= i < |host|
      ensures IsLabelChar(host[i])
    {
      LetterInBothClasses(s[at + 1 + i]);
    }
    assert DotSeparated(host, IsLabelChar);
    assert forall i :: 0 <= i < |tld| ==> tld[i] == s[dot + 1 + i];
    HostNameWitness(domain, j);
  }

  /** An ordinary address is accepted. */
  lemma ExampleAccepted()
    ensures IsEmailAddress("user@example.com")
  {
    LettersAddressAccepted("user@example.com", 4, 12);
  }

  /** `alice@example.com`, the address of the `Alice` submission, is accepted. */
  lemma ScenarioAddressAccepted()
    ensures IsEmailAddress("alice@example.com")
  {
    LettersAddressAccepted("alice@example.com", 5, 13);
  }

  /** A string without `@` is rejected, whatever else it holds. */
  lemma NoAtRejected(s: string)
    requires '@' !in s
    ensures !IsEmailAddress(s)
  {
  }

  lemma ExamplesRejected()
    ensures !IsEmailAddress("not-an-email")
    ensures !IsEmailAddress("bad")
    ensures !IsEmailAddress("")
  {
    NoAtRejected("not-an-email");
    NoAtRejected("bad");
  }

  /** A host name built from one dot-separated label run, a dot at `j` and a top-level label. */
  lemma HostNameWitness(s: string, j: nat)
    requires j < |s| && s[j] == '.'
    requires DotSeparated(s[..j], IsLabelChar) && IsTopLevelLabel(s[j + 1..])
    ensures IsHostName(s) && IsDomain(s)
  {
  }
}
