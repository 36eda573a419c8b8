/** The email shape the login and forgot-password pages check before any
    request: the regular expression /^[^\s@]+@[^\s@]+\.[^\s@]+$/, with \s
    read as JavaScript reads it. */
module EmailFormat {

  const InvalidEmailMessage := "Please enter a valid email address."

  /** JavaScript's \s: the ASCII spaces and the Unicode space separators,
      line and paragraph separators and the byte-order mark. */
  predicate IsJsSpace(c: char) {
    || c == ' ' || c == '\t' || c == '\n' || c == '\r' || c == '\U{B}' || c == '\U{C}'
    || c == '\U{A0}' || c == '\U{1680}' || ('\U{2000}' <= c <= '\U{200A}')
    || c == '\U{2028}' || c == '\U{2029}' || c == '\U{202F}' || c == '\U{205F}'
    || c == '\U{3000}' || c == '\U{FEFF}'
  }

  /** [^\s@]+ : one or more characters, none a space or '@'. */
  predicate Plain(s: string) {
    |s| > 0 && forall k :: 0 <= k < |s| ==> !IsJsSpace(s[k]) && s[k] != '@'
  }

  /** What the regular expression accepts: the whole string splits as
      plain "@" plain "." plain, for some choice of the '@' at `i` and the
      '.' at `j`. */
  ghost predicate MatchesEmailPattern(s: string) {
    exists i, j :: 0 < i && i + 1 < j && j + 1 < |s|
      && s[i] == '@' && s[j] == '.'
      && Plain(s[..i]) && Plain(s[i + 1..j]) && Plain(s[j + 1..])
  }

  /** The same test stated on the characters: no space anywhere, exactly one
      '@', not first, and a '.' at least two places after it that is not the
      last character. */
  predicate IsEmailShaped(s: string) {
    && (forall k :: 0 <= k < |s| ==> !IsJsSpace(s[k]))
    && (exists i :: 0 < i < |s| && s[i] == '@'
         && (forall k :: 0 <= k < |s| && k != i ==> s[k] != '@')
         && (exists j :: i + 1 < j < |s| - 1 && s[j] == '.'))
  }

  /** The character-level test accepts exactly what the regular expression
      accepts. */
  lemma ShapeMatchesPattern(s: string)
    ensures IsEmailShaped(s) <==> MatchesEmailPattern(s)
  {
    if IsEmailShaped(s) {
      var i :| 0 < i < |s| && s[i] == '@'
        && (forall k :: 0 <= k < |s| && k != i ==> s[k] != '@')
        && (exists j :: i + 1 < j < |s| - 1 && s[j] == '.');
      var j :| i + 1 < j < |s| - 1 && s[j] == '.';
      var local, domain, tld := s[..i], s[i + 1..j], s[j + 1..];
      forall k | 0 <= k < |local| ensures !IsJsSpace(local[k]) && local[k] != '@' {
        assert local[k] == s[k];
      }
      forall k | 0 <= k < |domain| ensures !IsJsSpace(domain[k]) && domain[k] != '@' {
        assert domain[k] == s[i + 1 + k];
      }
      forall k | 0 <= k < |tld| ensures !IsJsSpace(tld[k]) && tld[k] != '@' {
        assert tld[k] == s[j + 1 + k];
      }
    }
    if MatchesEmailPattern(s) {
      var i, j :| 0 < i && i + 1 < j && j + 1 < |s|
        && s[i] == '@' && s[j] == '.'
        && Plain(s[..i]) && Plain(s[i + 1..j]) && Plain(s[j + 1..]);
      forall k | 0 <= k < |s|
        ensures !IsJsSpace(s[k])
        ensures k != i ==> s[k] != '@'
      {
        if k < i {
          assert s[k] == s[..i][k];
        } else if i < k < j {
          assert s[k] == s[i + 1..j][k - (i + 1)];
        } else if j < k {
          assert s[k] == s[j + 1..][k - (j + 1)];
        }
      }
    }
  }
}
