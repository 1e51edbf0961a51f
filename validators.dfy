/**
 * The form validators of `src/utils/validators.ts`. Strings are sequences of
 * Unicode scalar values; JavaScript's `length` counts UTF-16 code units,
 * which is written out where it matters (`validatePassword`).
 */
module Validators {

  /**
   * JavaScript's `\s` class, which is also the set `String.prototype.trim`
   * strips: the white space and line terminator characters.
   */
  predicate IsWhitespace(c: char)
    ensures IsWhitespace(c) ==> c != '@' && c != '.'
    ensures IsWhitespace(c) ==> c as int <= 0xFFFF
  {
    c == '\t' || c == '\n' || c == '\U{000B}' || c == '\U{000C}' || c == '\r' || c == ' '
    || c == '\U{00A0}' || c == '\U{1680}' || ('\U{2000}' <= c <= '\U{200A}')
    || c == '\U{2028}' || c == '\U{2029}' || c == '\U{202F}' || c == '\U{205F}'
    || c == '\U{3000}' || c == '\U{FEFF}'
  }

  /** A character of the class `[^\s@]`. */
  predicate IsAddressChar(c: char) {
    !IsWhitespace(c) && c != '@'
  }

  /** A non-empty run of `[^\s@]`, that is `[^\s@]+`. */
  predicate IsAddressRun(s: string) {
    |s| > 0 && forall i :: 0 <= i < |s| ==> IsAddressChar(s[i])
  }

  // ---------------------------------------------------------------------
  // validateEmail

  /**
   * The language of `/^[^\s@]+@[^\s@]+\.[^\s@]+$/`: some split of `s` into
   * a run, `@`, a run, `.`, a run.
   */
  ghost predicate MatchesEmailPattern(s: string)
    ensures MatchesEmailPattern(s) ==> |s| >= 5
    ensures MatchesEmailPattern(s) ==> !IsWhitespace(s[0]) && !IsWhitespace(s[|s| - 1])
  {
    exists i, j {:trigger s[i], s[j]} :: 0 <= i < j < |s|
      && IsAddressRun(s[..i]) && s[i] == '@'
      && IsAddressRun(s[i + 1..j]) && s[j] == '.'
      && IsAddressRun(s[j + 1..])
  }

  /** The number of `@` characters in `s`. */
  function CountAt(s: string): (r: nat)
    ensures r <= |s|
    ensures r == 0 <==> forall i :: 0 <= i < |s| ==> s[i] != '@'
  {
    if s == [] then 0 else (if s[0] == '@' then 1 else 0) + CountAt(s[1..])
  }

  /** The index of the first `@` in `s`, or `|s|` when there is none. */
  function IndexOfAt(s: string): (r: nat)
    ensures r <= |s|
    ensures r < |s| ==> s[r] == '@'
    ensures forall k :: 0 <= k < r ==> s[k] != '@'
  {
    if s == [] then 0 else if s[0] == '@' then 0 else 1 + IndexOfAt(s[1..])
  }

  /**
   * `validateEmail`, checked the way one reads the pattern: no white space,
   * exactly one `@`, something before it, and after it a `.` that is
   * neither the first nor the last character.
   */
  predicate ValidateEmail(s: string)
    ensures ValidateEmail(s) ==> |s| >= 5
    ensures ValidateEmail(s) ==> s[0] != '@' && '@' in s
  {
    && (forall i :: 0 <= i < |s| ==> !IsWhitespace(s[i]))
    && CountAt(s) == 1
    && var at := IndexOfAt(s);
       && 0 < at < |s|
       && exists k :: at + 1 < k < |s| - 1 && s[k] == '.'
  }

  /** One `@` exactly when the text before the first `@` and the text after it have none. */
  lemma {:induction false} CountAtSplit(s: string, i: nat)
    requires i < |s| && s[i] == '@'
    requires forall k :: 0 <= k < i ==> s[k] != '@'
    ensures CountAt(s) == 1 + CountAt(s[i + 1..])
  {
    if i > 0 {
      assert s[1..][i - 1] == '@';
      assert s[1..][i..] == s[i + 1..];
      CountAtSplit(s[1..], i - 1);
    }
  }

  /** `ValidateEmail` and the pattern accept the same strings. */
  lemma ValidateEmailMatchesPattern(s: string)
    ensures ValidateEmail(s) <==> MatchesEmailPattern(s)
  {
    if ValidateEmail(s) {
      CheckedEmailMatches(s);
    }
    if MatchesEmailPattern(s) {
      MatchingEmailChecks(s);
    }
  }

  lemma CheckedEmailMatches(s: string)
    requires ValidateEmail(s)
    ensures MatchesEmailPattern(s)
  {
    var at := IndexOfAt(s);
    var k :| at + 1 < k < |s| - 1 && s[k] == '.';
    CountAtSplit(s, at);
    var tail := s[at + 1..];
    assert forall m :: at + 1 <= m < |s| ==> s[m] != '@' by {
      forall m | at + 1 <= m < |s| ensures s[m] != '@' {
        assert tail[m - at - 1] == s[m];
      }
    }
    assert IsAddressRun(s[..at]);
    assert IsAddressRun(s[at + 1..k]);
    assert IsAddressRun(s[k + 1..]);
  }

  lemma MatchingEmailChecks(s: string)
    requires MatchesEmailPattern(s)
    ensures ValidateEmail(s)
  {
    var i, j :| 0 <= i < j < |s|
      && IsAddressRun(s[..i]) && s[i] == '@'
      && IsAddressRun(s[i + 1..j]) && s[j] == '.'
      && IsAddressRun(s[j + 1..]);
    SplitChecks(s, i, j);
  }

  /** The split at `i` and `j` the pattern found satisfies `ValidateEmail`. */
  lemma SplitChecks(s: string, i: nat, j: nat)
    requires i < j < |s|
    requires IsAddressRun(s[..i]) && s[i] == '@'
    requires IsAddressRun(s[i + 1..j]) && s[j] == '.'
    requires IsAddressRun(s[j + 1..])
    ensures ValidateEmail(s)
  {
    RunChars(s, 0, i);
    RunChars(s, i + 1, j);
    RunChars(s, j + 1, |s|);
    forall m | 0 <= m < |s| && m != i ensures s[m] != '@' {
      if m == j {
        assert s[j] == '.';
      }
    }
    OnlyAt(s, i);
    assert i + 1 < j < |s| - 1;
  }

  /** A string whose only `@` is at `i`. */
  lemma OnlyAt(s: string, i: nat)
    requires i < |s| && s[i] == '@'
    requires forall m :: 0 <= m < |s| && m != i ==> s[m] != '@'
    ensures IndexOfAt(s) == i && CountAt(s) == 1
  {
    CountAtSplit(s, i);
    var tail := s[i + 1..];
    forall m | 0 <= m < |tail| ensures tail[m] != '@' {
      assert tail[m] == s[i + 1 + m];
    }
  }

  /** The characters of a run `s[lo..hi]`, read in `s`. */
  lemma RunChars(s: string, lo: nat, hi: nat)
    requires lo <= hi <= |s| && IsAddressRun(s[lo..hi])
    ensures forall m :: lo <= m < hi ==> s[m] != '@'
    ensures forall m :: lo <= m < hi ==> !IsWhitespace(s[m])
  {
    forall m | lo <= m < hi ensures s[m] != '@' && !IsWhitespace(s[m]) {
      assert s[lo..hi][m - lo] == s[m];
    }
  }

  // ---------------------------------------------------------------------
  // validatePassword

  /** The shortest password accepted (`Password must be at least 6 characters long.`). */
  const MIN_PASSWORD_LENGTH: nat := 6

  /** JavaScript's `length`: characters beyond the Basic Multilingual Plane count twice. */
  function Utf16Length(s: string): (r: nat)
    ensures |s| <= r <= 2 * |s|
    ensures (forall i :: 0 <= i < |s| ==> s[i] as int <= 0xFFFF) ==> r == |s|
  {
    if s == [] then 0 else (if s[0] as int > 0xFFFF then 2 else 1) + Utf16Length(s[1..])
  }

  /** `validatePassword`: at least six UTF-16 code units. */
  predicate ValidatePassword(p: string)
    ensures |p| >= MIN_PASSWORD_LENGTH ==> ValidatePassword(p)
    ensures ValidatePassword(p) ==> |p| >= MIN_PASSWORD_LENGTH / 2
  {
    Utf16Length(p) >= MIN_PASSWORD_LENGTH
  }

  /**
   * Six characters always pass; fewer than three never do; below the Basic
   * Multilingual Plane the rule is exactly six characters.
   */
  lemma PasswordLengthBounds(p: string)
    ensures |p| >= MIN_PASSWORD_LENGTH ==> ValidatePassword(p)
    ensures |p| < MIN_PASSWORD_LENGTH / 2 ==> !ValidatePassword(p)
    ensures (forall i :: 0 <= i < |p| ==> p[i] as int <= 0xFFFF) ==> (ValidatePassword(p) <==> |p| >= MIN_PASSWORD_LENGTH)
  {
  }

  // ---------------------------------------------------------------------
  // validateTaskTitle

  /** `s` without its leading white space. */
  function TrimStart(s: string): (r: string)
    ensures |r| <= |s| && r == s[|s| - |r|..]
    ensures r != [] ==> !IsWhitespace(r[0])
    ensures forall i :: 0 <= i < |s| - |r| ==> IsWhitespace(s[i])
  {
    if s != [] && IsWhitespace(s[0]) then TrimStart(s[1..]) else s
  }

  /** `s` without its trailing white space. */
  function TrimEnd(s: string): (r: string)
    ensures |r| <= |s| && r == s[..|r|]
    ensures r != [] ==> !IsWhitespace(r[|r| - 1])
    ensures forall i :: |r| <= i < |s| ==> IsWhitespace(s[i])
  {
    if s != [] && IsWhitespace(s[|s| - 1]) then TrimEnd(s[..|s| - 1]) else s
  }

  /** `String.prototype.trim`. */
  function Trim(s: string): (r: string)
    ensures |r| <= |s|
    ensures r != [] ==> !IsWhitespace(r[0]) && !IsWhitespace(r[|r| - 1])
    ensures var a := |s| - |TrimStart(s)|;
      && a + |r| <= |s| && r == s[a..a + |r|]
      && (forall i :: 0 <= i < a ==> IsWhitespace(s[i]))
      && (forall i :: a + |r| <= i < |s| ==> IsWhitespace(s[i]))
  {
    TrimEnd(TrimStart(s))
  }

  /** A string without white space is its own trim. */
  lemma TrimWithoutWhitespace(s: string)
    requires forall i :: 0 <= i < |s| ==> !IsWhitespace(s[i])
    ensures Trim(s) == s
  {
  }

  /** `validateTaskTitle`: something is left after trimming. */
  predicate ValidateTaskTitle(title: string)
    ensures ValidateTaskTitle(title) ==> |title| > 0
    ensures |title| > 0 && !IsWhitespace(title[0]) ==> ValidateTaskTitle(title)
  {
    |Trim(title)| > 0
  }

  /** A title is valid exactly when it has a character that is not white space. */
  lemma {:induction false} TaskTitleNeedsNonBlank(title: string)
    ensures ValidateTaskTitle(title) <==> exists i :: 0 <= i < |title| && !IsWhitespace(title[i])
  {
    var a := TrimStart(title);
    var b := TrimEnd(a);
    if |b| > 0 {
      var i := |title| - |a|;
      assert title[i] == a[0] == b[0];
    } else {
      assert a == [];
    }
  }

  // ---------------------------------------------------------------------
  // validatePasswordMatch

  /** `validatePasswordMatch`: the confirmation equals the password. */
  predicate ValidatePasswordMatch(password: string, confirmPassword: string)
    ensures ValidatePasswordMatch(password, confirmPassword) ==> Utf16Length(password) == Utf16Length(confirmPassword)
    ensures password == confirmPassword ==> ValidatePasswordMatch(password, confirmPassword)
  {
    password == confirmPassword
  }

  /** Matching is an equivalence: reflexive, symmetric and transitive. */
  lemma PasswordMatchIsEquivalence(a: string, b: string, c: string)
    ensures ValidatePasswordMatch(a, a)
    ensures ValidatePasswordMatch(a, b) ==> ValidatePasswordMatch(b, a)
    ensures ValidatePasswordMatch(a, b) && ValidatePasswordMatch(b, c) ==> ValidatePasswordMatch(a, c)
  {
  }
}
