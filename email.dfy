/**
 * The address pattern both the sign-in form and the new-user form check,
 * `^[A-Z0-9._%+-]+@[A-Z0-9.-]+\.[A-Z]{2,}$` with the case-insensitive flag:
 * a simplified shape, not the address grammar of RFC 5322.
 *
 * `MatchesPattern` says what the pattern accepts as a choice of split points;
 * `Recognize` is a hand-written recognizer that finds the split points
 * itself; `RecognizeIsPattern` proves the two agree on every string.
 */
module EmailPattern {
  import opened Wrappers
  import Seqs

  predicate IsLetter(c: char) {
    'A' <= c <= 'Z' || 'a' <= c <= 'z'
  }

  predicate IsDigit(c: char) {
    '0' <= c <= '9'
  }

  /** The class `[A-Z0-9._%+-]` under the case-insensitive flag. */
  predicate IsLocalChar(c: char) {
    IsLetter(c) || IsDigit(c) || c == '.' || c == '_' || c == '%' || c == '+' || c == '-'
  }

  /** The class `[A-Z0-9.-]` under the case-insensitive flag. */
  predicate IsDomainChar(c: char) {
    IsLetter(c) || IsDigit(c) || c == '.' || c == '-'
  }

  predicate AllLocal(s: string) {
    forall i :: 0 <= i < |s| ==> IsLocalChar(s[i])
  }

  predicate AllDomain(s: string) {
    forall i :: 0 <= i < |s| ==> IsDomainChar(s[i])
  }

  predicate AllLetters(s: string) {
    forall i :: 0 <= i < |s| ==> IsLetter(s[i])
  }

  /**
   * The pattern matches `s` with its `@` at `at` and the escaped `\.` at `dot`:
   * a non-empty local part, a non-empty domain part, and at least two letters
   * running to the end.
   */
  predicate SplitsAt(s: string, at: int, dot: int) {
    && 1 <= at && at + 2 <= dot && dot + 3 <= |s|
    && s[at] == '@' && s[dot] == '.'
    && AllLocal(s[..at]) && AllDomain(s[at + 1..dot]) && AllLetters(s[dot + 1..])
  }

  /** What the regular expression accepts: some choice of split points works. */
  ghost predicate MatchesPattern(s: string) {
    exists at, dot :: SplitsAt(s, at, dot)
  }

  function IsAt(c: char): bool { c == '@' }
  function IsDot(c: char): bool { c == '.' }

  /**
   * The recognizer. Neither character class admits `@`, so the `@` must be
   * the first one; the top-level domain is letters only, so its dot must be
   * the last dot after the `@`.
   */
  function Recognize(s: string): (ok: bool)
    ensures ok ==> 6 <= |s| && IsLocalChar(s[0]) && IsLetter(s[|s| - 1])
  {
    match Seqs.FirstIndex(s, IsAt)
    case None => false
    case Some(at) =>
      match Seqs.LastIndex(s[at + 1..], IsDot)
      case None => false
      case Some(j) =>
        var dot := at + 1 + j;
        var ok := 1 <= at && AllLocal(s[..at])
          && 1 <= j && AllDomain(s[at + 1..dot])
          && |s| - dot - 1 >= 2 && AllLetters(s[dot + 1..]);
        assert ok ==> s[..at][0] == s[0] && s[dot + 1..][|s| - dot - 2] == s[|s| - 1];
        ok
  }

  /**
   * The email field of both forms: `required`, then the pattern. The pattern
   * already refuses the empty string, so the field accepts exactly what the
   * pattern matches.
   */
  function FieldAccepts(email: string): (ok: bool)
    ensures ok <==> MatchesPattern(email)
  {
    RecognizeIsPattern(email);
    email != "" && Recognize(email)
  }

  /** The recognizer accepts exactly the strings the pattern matches. */
  lemma RecognizeIsPattern(s: string)
    ensures Recognize(s) <==> MatchesPattern(s)
  {
    if Recognize(s) {
      RecognizeIsSound(s);
    }
    if MatchesPattern(s) {
      RecognizeIsComplete(s);
    }
  }

  /** What the recognizer accepts, the pattern matches: its split points are a witness. */
  lemma {:induction false} RecognizeIsSound(s: string)
    requires Recognize(s)
    ensures MatchesPattern(s)
  {
    var at := Seqs.FirstIndex(s, IsAt).value;
    var rest := s[at + 1..];
    var j := Seqs.LastIndex(rest, IsDot).value;
    assert s[at + 1 + j] == rest[j];
    assert SplitsAt(s, at, at + 1 + j);
  }

  /** What the pattern matches, the recognizer accepts: its split points are the ones it finds. */
  lemma {:induction false} RecognizeIsComplete(s: string)
    requires MatchesPattern(s)
    ensures Recognize(s)
  {
    var at', dot :| SplitsAt(s, at', dot);
    assert IsAt(s[at']);
    var at := Seqs.FirstIndex(s, IsAt).value;
    FirstAtIsSplitAt(s, at, at', dot);
    var rest := s[at + 1..];
    assert IsDot(rest[dot - at - 1]);
    var j := Seqs.LastIndex(rest, IsDot).value;
    LastDotIsSplitDot(s, at, rest, j, dot);
  }

  /** In a match, the `@` is the first `@` of the string. */
  lemma FirstAtIsSplitAt(s: string, first: nat, at: int, dot: int)
    requires SplitsAt(s, at, dot)
    requires first < |s| && IsAt(s[first])
    requires forall j :: 0 <= j < first ==> !IsAt(s[j])
    ensures first == at
  {
  }

  /** In a match, the top-level dot is the last dot after the `@`. */
  lemma LastDotIsSplitDot(s: string, at: int, rest: string, j: nat, dot: int)
    requires SplitsAt(s, at, dot) && rest == s[at + 1..]
    requires j < |rest| && IsDot(rest[j])
    requires forall k :: j < k < |rest| ==> !IsDot(rest[k])
    ensures at + 1 + j == dot
  {
    assert IsDot(rest[dot - at - 1]);
  }

  /** A concrete address the pattern accepts. */
  lemma AcceptsPlainAddress()
    ensures MatchesPattern("ana@it.es")
  {
    var s := "ana@it.es";
    assert s[..3] == "ana";
    assert s[4..6] == "it";
    assert s[7..] == "es";
    assert SplitsAt(s, 3, 6);
  }

  /** An address whose top-level domain has one letter is refused. */
  lemma {:induction false} RefusesOneLetterDomain()
    ensures !Recognize("a@b.c")
  {
  }
}
