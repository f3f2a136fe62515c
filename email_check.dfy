/** The email-shape test `/^[^\s@]+@[^\s@]+\.[a-zA-Z]{2,}$/` used to enable
    the sign-in button. The set of characters `\s` stands for is a parameter `ws`. */
module EmailCheck {
  import opened Text

  /** One character of the class `[^\s@]`. */
  predicate IsPartChar(ws: set<char>, c: char) {
    c !in ws && c != '@'
  }

  predicate AllPartChars(ws: set<char>, t: string) {
    forall k :: 0 <= k < |t| ==> IsPartChar(ws, t[k])
  }

  predicate AllAsciiLetters(t: string) {
    forall k :: 0 <= k < |t| ==> IsAsciiLetter(t[k])
  }

  /** The regular expression matches `s` with its literal `@` at `i` and its literal `.` at `j`:
      `s[..i]` is `[^\s@]+`, `s[i+1..j]` is `[^\s@]+`, `s[j+1..]` is `[a-zA-Z]{2,}`. */
  ghost predicate MatchesAt(ws: set<char>, s: string, i: int, j: int) {
    && 0 < i && i + 1 < j && j + 3 <= |s|
    && s[i] == '@' && s[j] == '.'
    && AllPartChars(ws, s[..i])
    && AllPartChars(ws, s[i + 1..j])
    && AllAsciiLetters(s[j + 1..])
  }

  /** The regular expression, read literally: some placement of its two literals matches. */
  ghost predicate MatchesEmailPattern(ws: set<char>, s: string) {
    exists i, j :: MatchesAt(ws, s, i, j)
  }

  /** What `\s` can be: it never contains a letter, `@` or `.`, which the pattern uses literally. */
  predicate PlausibleWhitespace(ws: set<char>) {
    forall c :: c in ws ==> !IsAsciiLetter(c) && c != '@' && c != '.'
  }

  /** `isEmailValid`: decides the pattern by locating the only possible `@`
      (the first one) and the only possible final `.` (the last one). */
  function IsEmailValid(ws: set<char>, s: string): (b: bool)
    ensures b <==> MatchesEmailPattern(ws, s)
  {
    var i := IndexOf(s, '@');
    var j := LastIndexOf(s, '.');
    var b := 0 < i && i + 1 < j && j + 3 <= |s|
             && AllPartChars(ws, s[..i]) && AllPartChars(ws, s[i + 1..j]) && AllAsciiLetters(s[j + 1..]);
    MatchPlacementIsUnique(ws, s, i, j);
    assert b ==> MatchesAt(ws, s, i, j);
    b
  }

  /** The last `c` of a suffix is the last `c` of the whole string, shifted, if it lies in the suffix. */
  lemma LastIndexOfInSuffix(s: string, n: nat, c: char)
    requires n <= |s|
    ensures var k := LastIndexOf(s, c);
            LastIndexOf(s[n..], c) == if k >= n then k - n else -1
  {
  }

  /** Any match places its literals at the first `@` and the last `.`. */
  lemma MatchPlacementIsUnique(ws: set<char>, s: string, i: int, j: int)
    requires i == IndexOf(s, '@') && j == LastIndexOf(s, '.')
    ensures forall i', j' :: MatchesAt(ws, s, i', j') ==> i' == i && j' == j
  {
  }

  /** A valid address has exactly one `@`, and the text before it is non-empty
      and free of whitespace. */
  lemma ValidEmailHasExactlyOneAt(ws: set<char>, s: string)
    requires IsEmailValid(ws, s)
    ensures exists i :: 0 < i < |s| && s[i] == '@' && AllPartChars(ws, s[..i])
                        && forall k :: 0 <= k < |s| && k != i ==> s[k] != '@'
  {
    var i, j := IndexOf(s, '@'), LastIndexOf(s, '.');
    assert MatchesAt(ws, s, i, j);
    forall k | 0 <= k < |s| && k != i
      ensures s[k] != '@'
    {
      if k < i {
        assert s[..i][k] == s[k];
      } else if i < k < j {
        assert s[i + 1..j][k - i - 1] == s[k];
      } else if j < k {
        assert s[j + 1..][k - j - 1] == s[k];
      }
    }
  }

  /** With a plausible `\s`, the part after the `@` is free of whitespace and `@`,
      its last `.` is followed by at least two ASCII letters, and the text before that
      final dot is non-empty. */
  lemma ValidEmailDomainShape(ws: set<char>, s: string)
    requires PlausibleWhitespace(ws)
    requires IsEmailValid(ws, s)
    ensures var domain := s[IndexOf(s, '@') + 1..];
            var j := LastIndexOf(domain, '.');
            && AllPartChars(ws, domain)
            && 0 < j && j + 3 <= |domain|
            && AllAsciiLetters(domain[j + 1..])
  {
    var i, j := IndexOf(s, '@'), LastIndexOf(s, '.');
    assert MatchesAt(ws, s, i, j);
    DomainShapeAt(ws, s, i, j);
  }

  /** The domain shape for a match with its `@` at `i` and its `.` at `j`. */
  lemma DomainShapeAt(ws: set<char>, s: string, i: int, j: int)
    requires PlausibleWhitespace(ws)
    requires MatchesAt(ws, s, i, j)
    ensures var domain := s[i + 1..];
            && AllPartChars(ws, domain)
            && LastIndexOf(domain, '.') == j - i - 1
            && AllAsciiLetters(domain[j - i..])
  {
    var domain := s[i + 1..];
    assert AllPartChars(ws, domain) by {
      assert domain == s[i + 1..j] + ['.'] + s[j + 1..];
      LettersArePartChars(ws, s[j + 1..]);
      AllPartCharsConcat(ws, s[i + 1..j], ['.'], s[j + 1..]);
    }
    assert LastIndexOf(domain, '.') == j - i - 1 by {
      LastIndexOfInSuffix(s, i + 1, '.');
    }
    assert domain[j - i..] == s[j + 1..];
  }

  /** Letters are outside a plausible `\s` and differ from `@`. */
  lemma LettersArePartChars(ws: set<char>, t: string)
    requires PlausibleWhitespace(ws) && AllAsciiLetters(t)
    ensures AllPartChars(ws, t)
  {
  }

  lemma AllPartCharsConcat(ws: set<char>, a: string, b: string, c: string)
    requires AllPartChars(ws, a) && AllPartChars(ws, b) && AllPartChars(ws, c)
    ensures AllPartChars(ws, a + b + c)
  {
  }

  /** With a plausible `\s`, no accepted string contains a whitespace character. */
  lemma ValidEmailHasNoWhitespace(ws: set<char>, s: string)
    requires PlausibleWhitespace(ws)
    requires IsEmailValid(ws, s)
    ensures forall k :: 0 <= k < |s| ==> s[k] !in ws
  {
    var i, j := IndexOf(s, '@'), LastIndexOf(s, '.');
    assert MatchesAt(ws, s, i, j);
    forall k | 0 <= k < |s|
      ensures s[k] !in ws
    {
      if k < i {
        assert s[..i][k] == s[k];
      } else if i < k < j {
        assert s[i + 1..j][k - i - 1] == s[k];
      } else if j < k {
        assert s[j + 1..][k - j - 1] == s[k];
      }
    }
  }

  /** Examples: one accepted address and four rejected strings. */
  lemma EmailExamples(ws: set<char>)
    requires PlausibleWhitespace(ws)
    ensures IsEmailValid(ws, "a@b.co")
    ensures !IsEmailValid(ws, "a@b") && !IsEmailValid(ws, "")
    ensures !IsEmailValid(ws, "a@.co") && !IsEmailValid(ws, "a@b.c1")
  {
  }
}
