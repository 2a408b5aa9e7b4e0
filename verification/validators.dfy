/** The regular expressions the form validates with, each as a predicate
    over strings that states the expression's meaning (the ways it can
    match), together with a direct description of the strings it accepts
    and a proof that the two agree. */
module Validators {
  import opened Text

  /** `/^[0-9]{10}$/` (`VALIDATION_PATTERNS.PHONE`, the contact phone rule). */
  predicate PhonePattern(s: string) {
    |s| == 10 && AllDigits(s)
  }

  /** `/^\d{5}$/` (`VALIDATION_PATTERNS.ZIP_CODE`, the ZIP rule). */
  predicate ZipCodePattern(s: string) {
    |s| == 5 && AllDigits(s)
  }

  /** `[A-Za-z\s]`. */
  predicate LetterOrSpace(c: char) {
    IsAsciiLetter(c) || IsJsWhitespace(c)
  }

  /** `/^[A-Za-z\s]+$/` (`VALIDATION_PATTERNS.LETTERS_ONLY`, the name and
      city rules). */
  predicate LettersOnlyPattern(s: string) {
    |s| >= 1 && forall i :: 0 <= i < |s| ==> LetterOrSpace(s[i])
  }

  lemma LettersOnlyRejectsDigits(s: string)
    requires ContainsDigit(s)
    ensures !LettersOnlyPattern(s)
  {
    var i :| 0 <= i < |s| && IsDigit(s[i]);
    assert !LetterOrSpace(s[i]);
  }

  lemma LettersOnlyRejectsEmpty()
    ensures !LettersOnlyPattern("")
  {
  }

  // ---------------------------------------------------------------------
  // Email: /^[^\s@]+@[^\s@]+\.[^\s@]+$/

  /** `[^\s@]`. */
  predicate EmailChar(c: char) {
    c != '@' && !IsJsWhitespace(c)
  }

  predicate AllEmailChars(s: string) {
    forall k :: 0 <= k < |s| ==> EmailChar(s[k])
  }

  /** One way the email expression can match `s`: the `@` at `i`, the
      literal `.` at `j`, and three non-empty runs of `[^\s@]` around them. */
  predicate EmailMatchAt(s: string, i: int, j: int) {
    && 1 <= i && i + 2 <= j && j + 2 <= |s|
    && s[i] == '@' && s[j] == '.'
    && AllEmailChars(s[..i])
    && AllEmailChars(s[i + 1..j])
    && AllEmailChars(s[j + 1..])
  }

  /** `VALIDATION_PATTERNS.EMAIL`, also written inline in Step 1 and in the
      contact block: the expression matches in some way. */
  predicate EmailPattern(s: string) {
    exists i, j :: 0 <= i < j < |s| && EmailMatchAt(s, i, j)
  }

  /** The domain (the text after `@`) has a `.` that is neither its first
      nor its last character. */
  predicate HasInnerDot(domain: string) {
    exists m :: 1 <= m <= |domain| - 2 && domain[m] == '.'
  }

  predicate OnlyAt(s: string, i: int) {
    0 <= i < |s| && s[i] == '@' && forall k :: 0 <= k < |s| && k != i ==> s[k] != '@'
  }

  /** The shape of an accepted address: no whitespace, exactly one `@`, a
      non-empty local part, and a dotted domain. */
  predicate EmailShape(s: string) {
    && (forall k :: 0 <= k < |s| ==> !IsJsWhitespace(s[k]))
    && exists i :: 1 <= i < |s| && OnlyAt(s, i) && HasInnerDot(s[i + 1..])
  }

  lemma EmailPatternHasShape(s: string)
    requires EmailPattern(s)
    ensures EmailShape(s)
  {
    var i, j :| 0 <= i < j < |s| && EmailMatchAt(s, i, j);
    forall k | 0 <= k < |s| ensures !IsJsWhitespace(s[k]) && (k != i ==> s[k] != '@') {
      if k < i {
        assert s[k] == s[..i][k];
      } else if i < k < j {
        assert s[k] == s[i + 1..j][k - i - 1];
      } else if j < k {
        assert s[k] == s[j + 1..][k - j - 1];
      }
    }
    assert OnlyAt(s, i);
    assert s[i + 1..][j - i - 1] == '.';
    assert HasInnerDot(s[i + 1..]);
  }

  lemma EmailShapeMatchesPattern(s: string)
    requires EmailShape(s)
    ensures EmailPattern(s)
  {
    var i :| 1 <= i < |s| && OnlyAt(s, i) && HasInnerDot(s[i + 1..]);
    var m :| 1 <= m <= |s[i + 1..]| - 2 && s[i + 1..][m] == '.';
    var j := i + 1 + m;
    assert s[j] == '.';
    assert AllEmailChars(s[..i]) by {
      forall k | 0 <= k < i ensures EmailChar(s[..i][k]) {
        assert s[..i][k] == s[k];
      }
    }
    var host := s[i + 1..j];
    assert AllEmailChars(host) by {
      forall k | 0 <= k < |host| ensures EmailChar(host[k]) {
        assert host[k] == s[i + 1 + k];
      }
    }
    var tld := s[j + 1..];
    assert AllEmailChars(tld) by {
      forall k | 0 <= k < |tld| ensures EmailChar(tld[k]) {
        assert tld[k] == s[j + 1 + k];
      }
    }
    assert EmailMatchAt(s, i, j);
  }

  /** The email expression accepts exactly the strings of that shape. */
  lemma EmailPatternIffShape(s: string)
    ensures EmailPattern(s) <==> EmailShape(s)
  {
    if EmailPattern(s) {
      EmailPatternHasShape(s);
    }
    if EmailShape(s) {
      EmailShapeMatchesPattern(s);
    }
  }

  // ---------------------------------------------------------------------
  // Step 1 work phone: /^[\+]?[1-9]?[\d\s\-\(\)]{10,}$/

  /** `[\d\s\-\(\)]`. */
  predicate WorkPhoneChar(c: char) {
    IsDigit(c) || IsJsWhitespace(c) || c == '-' || c == '(' || c == ')'
  }

  /** One way the work-phone expression can match: `p` characters for the
      optional `+`, `q` for the optional `[1-9]`, then ten or more of the
      class. */
  predicate WorkPhoneMatch(s: string, p: int, q: int) {
    && 0 <= p <= 1 && 0 <= q <= 1
    && |s| - p - q >= 10
    && (p == 1 ==> s[0] == '+')
    && (q == 1 ==> '1' <= s[p] <= '9')
    && forall k :: p + q <= k < |s| ==> WorkPhoneChar(s[k])
  }

  predicate WorkPhonePattern(s: string) {
    exists p, q :: 0 <= p <= 1 && 0 <= q <= 1 && WorkPhoneMatch(s, p, q)
  }

  /** The text after an optional leading `+`. */
  function AfterPlus(s: string): (t: string)
    ensures |s| > 0 && s[0] == '+' ==> t == s[1..]
    ensures !(|s| > 0 && s[0] == '+') ==> t == s
  {
    if |s| > 0 && s[0] == '+' then s[1..] else s
  }

  /** What the expression accepts, without its redundant `[1-9]?`: an
      optional `+` followed by ten or more digits, whitespace, `-`, `(` or
      `)`. */
  predicate WorkPhoneShape(s: string) {
    var t := AfterPlus(s);
    |t| >= 10 && forall k :: 0 <= k < |t| ==> WorkPhoneChar(t[k])
  }

  lemma WorkPhonePatternIffShape(s: string)
    ensures WorkPhonePattern(s) <==> WorkPhoneShape(s)
  {
    var t := AfterPlus(s);
    if WorkPhonePattern(s) {
      var p, q :| 0 <= p <= 1 && 0 <= q <= 1 && WorkPhoneMatch(s, p, q);
      if p == 0 {
        assert s[0] != '+' by {
          assert WorkPhoneChar(s[0]) || '1' <= s[0] <= '9';
        }
        assert t == s;
      } else {
        assert t == s[1..];
        forall k | 0 <= k < |t| ensures WorkPhoneChar(t[k]) {
          assert t[k] == s[k + 1];
        }
      }
    }
    if WorkPhoneShape(s) {
      if |s| > 0 && s[0] == '+' {
        forall k | 1 <= k < |s| ensures WorkPhoneChar(s[k]) {
          assert s[k] == t[k - 1];
        }
        assert WorkPhoneMatch(s, 1, 0);
      } else {
        assert WorkPhoneMatch(s, 0, 0);
      }
    }
  }

  /** Accepted work phones have at least ten characters, and besides a
      leading `+` only digits, whitespace, `-`, `(` and `)`. */
  lemma WorkPhoneAccepted(s: string)
    requires WorkPhonePattern(s)
    ensures |s| >= 10
    ensures forall k :: 0 <= k < |s| ==> WorkPhoneChar(s[k]) || (k == 0 && s[k] == '+')
  {
    WorkPhonePatternIffShape(s);
    var t := AfterPlus(s);
    forall k | 0 <= k < |s| ensures WorkPhoneChar(s[k]) || (k == 0 && s[k] == '+') {
      if s[0] == '+' && k > 0 {
        assert s[k] == t[k - 1];
      }
    }
  }

  /** Every ten-digit string, i.e. everything the contact phone rule
      accepts, passes the work-phone rule too. */
  lemma PhoneImpliesWorkPhone(s: string)
    requires PhonePattern(s)
    ensures WorkPhonePattern(s)
  {
    assert WorkPhoneMatch(s, 0, 0);
  }
}
