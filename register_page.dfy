/** `public/js/register.js`: the checks the registration form runs before it posts
    to `api/auth.php?action=register`. */
module RegisterPage {
  import opened Wrappers
  import opened Text
  import Seqs

  /** The raw values of the five form fields. */
  datatype Form = Form(username: string, fullName: string, email: string, password: string, confirmPassword: string)

  /** The JSON body the page posts when every check passes. */
  datatype Submission = Submission(username: string, fullName: string, email: string, password: string)

  const PasswordsDiffer := "Passwords do not match"
  const UsernameInvalid := "Username can only contain letters, numbers, and underscores"
  const PasswordTooShort := "Password must be at least 6 characters"
  const EmailInvalid := "Please enter a valid email address"

  // ---------------------------------------------------------------------------
  // isValidEmail: /^[^\s@]+@[^\s@]+\.[^\s@]+$/
  // ---------------------------------------------------------------------------

  /** `[^\s@]` */
  predicate IsEmailChar(c: char) { !IsJsSpace(c) && c != '@' }

  /** `[^\s@]+` matches the whole of `s`. */
  predicate IsEmailRun(s: string) {
    |s| > 0 && forall i :: 0 <= i < |s| ==> IsEmailChar(s[i])
  }

  /** What the regular expression accepts: the whole string splits at an `@` at index
      `i` and a `.` at index `j` into three non-empty runs of `[^\s@]`. */
  ghost predicate MatchesEmailPattern(s: string) {
    exists i, j :: 0 <= i < j < |s| && s[i] == '@' && s[j] == '.'
      && IsEmailRun(s[..i]) && IsEmailRun(s[i + 1..j]) && IsEmailRun(s[j + 1..])
  }

  /** `s` has a `.` somewhere strictly between its first and last character. */
  predicate HasInnerDot(s: string) {
    exists j :: 0 < j < |s| - 1 && s[j] == '.'
  }

  /** The index of the first `@` of `s`, if any. */
  function FirstAt(s: string): Option<nat> {
    Seqs.FirstIndex(s, (c: char) => c == '@')
  }

  /** `isValidEmail(email)`: a decision procedure for the pattern. The local part runs
      up to the first `@`; the rest must be free of whitespace and `@` and carry a dot
      that is neither its first nor its last character. */
  predicate IsValidEmail(s: string) {
    match FirstAt(s)
    case None => false
    case Some(i) => IsEmailRun(s[..i]) && IsEmailRun(s[i + 1..]) && HasInnerDot(s[i + 1..])
  }

  /** A slice of a run is a run when it is not empty. */
  lemma RunSlice(s: string, a: int, b: int)
    requires IsEmailRun(s) && 0 <= a < b <= |s|
    ensures IsEmailRun(s[a..b])
  {
    assert forall k :: 0 <= k < b - a ==> s[a..b][k] == s[a + k];
  }

  /** A string that a dot splits into two runs is a run with an inner dot. */
  lemma RunsAroundDot(d: string, m: int)
    requires 0 <= m < |d| && d[m] == '.'
    requires IsEmailRun(d[..m]) && IsEmailRun(d[m + 1..])
    ensures IsEmailRun(d) && HasInnerDot(d)
  {
    forall k | 0 <= k < |d| ensures IsEmailChar(d[k]) {
      if k < m {
        assert d[k] == d[..m][k];
      } else if k > m {
        assert d[k] == d[m + 1..][k - m - 1];
      }
    }
  }

  /** An `@` with no `@` before it is the first one. */
  lemma FirstAtIs(s: string, i: nat)
    requires i < |s| && s[i] == '@' && IsEmailRun(s[..i])
    ensures FirstAt(s) == Some(i)
  {
    assert forall k :: 0 <= k < i ==> s[k] == s[..i][k];
  }

  /** Every string the decision procedure accepts matches the pattern. */
  lemma ValidEmailMatches(s: string)
    requires IsValidEmail(s)
    ensures MatchesEmailPattern(s)
  {
    var i := FirstAt(s).value;
    var d := s[i + 1..];
    var j :| 0 < j < |d| - 1 && d[j] == '.';
    RunSlice(d, 0, j);
    RunSlice(d, j + 1, |d|);
    assert d[..j] == s[i + 1..i + 1 + j];
    assert d[j + 1..] == s[i + 1 + j + 1..];
    assert s[i + 1 + j] == '.';
  }

  /** Every string the pattern matches is accepted by the decision procedure: the `@`
      the pattern splits at is the first one, because the local part holds none. */
  lemma PatternMatchIsValid(s: string)
    requires MatchesEmailPattern(s)
    ensures IsValidEmail(s)
  {
    var i, j :| 0 <= i < j < |s| && s[i] == '@' && s[j] == '.'
      && IsEmailRun(s[..i]) && IsEmailRun(s[i + 1..j]) && IsEmailRun(s[j + 1..]);
    FirstAtIs(s, i);
    var d := s[i + 1..];
    var m := j - i - 1;
    assert d[..m] == s[i + 1..j];
    assert d[m + 1..] == s[j + 1..];
    RunsAroundDot(d, m);
  }

  /** The decision procedure accepts exactly the strings the pattern matches. */
  lemma ValidEmailMatchesPattern(s: string)
    ensures IsValidEmail(s) <==> MatchesEmailPattern(s)
  {
    if IsValidEmail(s) {
      ValidEmailMatches(s);
    }
    if MatchesEmailPattern(s) {
      PatternMatchIsValid(s);
    }
  }

  /** The pattern is anchored at both ends, so a padded address fails; the page trims
      the field before it asks. */
  lemma PaddedEmailIsRejected(s: string)
    ensures !IsValidEmail(" " + s)
    ensures !IsValidEmail(s + " ")
  {
    var p := " " + s;
    var q := s + " ";
    match FirstAt(p)
    case None =>
    case Some(i) =>
      assert p[..i][0] == ' ';
    match FirstAt(q)
    case None =>
    case Some(i) =>
      assert q[i + 1..][|q| - i - 2] == ' ';
  }

  // ---------------------------------------------------------------------------
  // handleRegister
  // ---------------------------------------------------------------------------

  /** `handleRegister`: username, full name and e-mail are trimmed, the two passwords
      are taken as typed; the first failing check shows its toast and stops, and
      otherwise the trimmed values and the raw password are posted. */
  function HandleRegister(f: Form): (r: Result<Submission, string>)
    ensures f.password != f.confirmPassword ==> r == Failure(PasswordsDiffer)
    ensures f.password == f.confirmPassword && !IsWord(JsTrim(f.username)) ==> r == Failure(UsernameInvalid)
    ensures f.password == f.confirmPassword && IsWord(JsTrim(f.username)) && Utf16Length(f.password) < 6
      ==> r == Failure(PasswordTooShort)
    ensures f.password == f.confirmPassword && IsWord(JsTrim(f.username)) && Utf16Length(f.password) >= 6
            && !IsValidEmail(JsTrim(f.email))
            ==> r == Failure(EmailInvalid)
    ensures r.Success? <==>
              f.password == f.confirmPassword && IsWord(JsTrim(f.username))
              && Utf16Length(f.password) >= 6 && IsValidEmail(JsTrim(f.email))
    ensures r.Success? ==> r.value == Submission(JsTrim(f.username), JsTrim(f.fullName), JsTrim(f.email), f.password)
  {
    var username := JsTrim(f.username);
    var fullName := JsTrim(f.fullName);
    var email := JsTrim(f.email);
    if f.password != f.confirmPassword then Failure(PasswordsDiffer)
    else if !IsWord(username) then Failure(UsernameInvalid)
    else if Utf16Length(f.password) < 6 then Failure(PasswordTooShort)
    else if !IsValidEmail(email) then Failure(EmailInvalid)
    else Success(Submission(username, fullName, email, f.password))
  }

  /** A username field holding only blanks is rejected as a bad username, since the
      pattern needs at least one character. */
  lemma BlankUsernameIsRejected(f: Form)
    requires f.password == f.confirmPassword
    requires forall i :: 0 <= i < |f.username| ==> IsJsSpace(f.username[i])
    ensures HandleRegister(f) == Failure(UsernameInvalid)
  {
    TrimByEmpty(f.username, IsJsSpace);
  }
}
