/**
 * The username check `re.match(r"^\w+$", username)` of bot.py.
 *
 * Which characters Python's `\w` accepts (Unicode letters, digits and `_`)
 * is left abstract: every definition takes the character class as a
 * parameter. Facts about concrete names assume only that the class agrees
 * with Python on ASCII (`AgreesWithPythonOnAscii`).
 */
module WordPattern {

  /** A character class standing for `\w`. */
  type WordClass = char -> bool

  predicate AllWordChars(isWord: WordClass, s: string) {
    forall i :: 0 <= i < |s| ==> isWord(s[i])
  }

  /**
   * Python's `$` (without MULTILINE) holds at position `k` of `s` when `k`
   * is the end of `s`, or when `s` ends in a single newline at `k`.
   */
  predicate EndAnchorAt(s: string, k: int) {
    k == |s| || (k == |s| - 1 && 0 <= k && s[k] == '\n')
  }

  /**
   * `re.match(r"^\w+$", s)` succeeds: `\w+` can take some non-empty prefix
   * `s[..k]` after which `$` holds.
   */
  predicate MatchesWordPattern(isWord: WordClass, s: string): (r: bool)
    ensures r ==> |s| >= 1 && isWord(s[0])
    ensures r ==> forall i :: 0 <= i < |s| - 1 ==> isWord(s[i])
    ensures r ==> isWord(s[|s| - 1]) || s[|s| - 1] == '\n'
    ensures |s| >= 1 && AllWordChars(isWord, s) ==> r
  {
    assert s[..|s|] == s;
    exists k :: 1 <= k <= |s| && AllWordChars(isWord, s[..k]) && EndAnchorAt(s, k)
  }

  /** A non-empty run of word characters. */
  predicate IsWordRun(isWord: WordClass, s: string) {
    |s| > 0 && AllWordChars(isWord, s)
  }

  /**
   * The accepted names are exactly the non-empty runs of word characters,
   * optionally followed by one trailing newline.
   */
  lemma WordPatternIff(isWord: WordClass, s: string)
    ensures MatchesWordPattern(isWord, s) <==>
      IsWordRun(isWord, s) || (|s| >= 2 && s[|s| - 1] == '\n' && IsWordRun(isWord, s[..|s| - 1]))
  {
    if MatchesWordPattern(isWord, s) {
      var k :| 1 <= k <= |s| && AllWordChars(isWord, s[..k]) && EndAnchorAt(s, k);
      if k == |s| {
        assert s[..k] == s;
      } else {
        assert s[..k] == s[..|s| - 1];
      }
    }
    if IsWordRun(isWord, s) {
      assert s[..|s|] == s;
      assert EndAnchorAt(s, |s|);
    }
    if |s| >= 2 && s[|s| - 1] == '\n' && IsWordRun(isWord, s[..|s| - 1]) {
      assert EndAnchorAt(s, |s| - 1);
    }
  }

  /**
   * A character outside the class rejects the name, unless it is the one
   * newline that `$` allows at the very end.
   */
  lemma NonWordCharRejects(isWord: WordClass, s: string, i: int)
    requires 0 <= i < |s| && !isWord(s[i])
    requires !(i == |s| - 1 && s[i] == '\n')
    ensures !MatchesWordPattern(isWord, s)
  {
  }

  predicate IsAsciiWordChar(c: char) {
    ('a' <= c <= 'z') || ('A' <= c <= 'Z') || ('0' <= c <= '9') || c == '_'
  }

  /** On ASCII, Python's `\w` is `[A-Za-z0-9_]`. */
  predicate AgreesWithPythonOnAscii(isWord: WordClass) {
    forall c: char :: c as int < 128 ==> (isWord(c) <==> IsAsciiWordChar(c))
  }

  /** A non-empty name made of ASCII letters, digits and `_` is accepted. */
  lemma AsciiWordRunAccepted(isWord: WordClass, s: string)
    requires AgreesWithPythonOnAscii(isWord)
    requires |s| > 0 && forall i :: 0 <= i < |s| ==> IsAsciiWordChar(s[i])
    ensures MatchesWordPattern(isWord, s)
  {
    forall i | 0 <= i < |s|
      ensures isWord(s[i])
    {
      assert IsAsciiWordChar(s[i]);
      assert s[i] as int < 128;
    }
    WordPatternIff(isWord, s);
  }

  /** A name with a hyphen anywhere is rejected. */
  lemma HyphenRejected(isWord: WordClass, s: string, i: int)
    requires AgreesWithPythonOnAscii(isWord)
    requires 0 <= i < |s| && s[i] == '-'
    ensures !MatchesWordPattern(isWord, s)
  {
    NonWordCharRejects(isWord, s, i);
  }

  /** The empty name is rejected. */
  lemma EmptyRejected(isWord: WordClass)
    ensures !MatchesWordPattern(isWord, "")
  {
  }

  /** One trailing newline after a word run is accepted; two are not. */
  lemma TrailingNewline(isWord: WordClass, s: string)
    requires IsWordRun(isWord, s) && !isWord('\n')
    ensures MatchesWordPattern(isWord, s + "\n")
    ensures !MatchesWordPattern(isWord, s + "\n\n")
  {
    var t := s + "\n";
    assert t[..|t| - 1] == s;
    WordPatternIff(isWord, t);
    var u := s + "\n\n";
    NonWordCharRejects(isWord, u, |s|);
  }
}
