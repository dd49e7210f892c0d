/** `validate_password` of backend/validators.py: four checks in a fixed
    order, the first failing one deciding the reported error. */
module Passwords {

  datatype PasswordError = TooShort | NoLowercase | NoUppercase | NoDigit

  datatype Verdict = Accepted | Rejected(error: PasswordError)

  const MinLength: nat := 8

  /** Some character of `s` lies in `lo`..`hi`. */
  ghost predicate HasCharIn(s: string, lo: char, hi: char)
  {
    exists i :: 0 <= i < |s| && lo <= s[i] <= hi
  }

  /** `re.search("[lo-hi]", s)` finds a match. */
  function ContainsRange(s: string, lo: char, hi: char): (r: bool)
    ensures r <==> HasCharIn(s, lo, hi)
    decreases |s|
  {
    if |s| == 0 then false
    else if lo <= s[0] <= hi then true
    else
      var rest := ContainsRange(s[1..], lo, hi);
      assert forall i :: 1 <= i < |s| ==> s[i] == s[1..][i - 1];
      assert rest ==> HasCharIn(s, lo, hi) by {
        if rest {
          var k :| 0 <= k < |s[1..]| && lo <= s[1..][k] <= hi;
          assert s[k + 1] == s[1..][k];
        }
      }
      rest
  }

  function ValidatePassword(password: string): (r: Verdict)
    // length is checked first
    ensures r == Rejected(TooShort) <==> |password| < MinLength
    // then a lower-case ASCII letter, then an upper-case one, then a digit
    ensures r == Rejected(NoLowercase) <==> |password| >= MinLength && !HasCharIn(password, 'a', 'z')
    ensures r == Rejected(NoUppercase) <==>
              |password| >= MinLength && HasCharIn(password, 'a', 'z') && !HasCharIn(password, 'A', 'Z')
    ensures r == Rejected(NoDigit) <==>
              |password| >= MinLength && HasCharIn(password, 'a', 'z') && HasCharIn(password, 'A', 'Z')
              && !HasCharIn(password, '0', '9')
    // accepted exactly when every requirement holds
    ensures r == Accepted <==>
              |password| >= MinLength && HasCharIn(password, 'a', 'z') && HasCharIn(password, 'A', 'Z')
              && HasCharIn(password, '0', '9')
  {
    if |password| < MinLength then Rejected(TooShort)
    else if !ContainsRange(password, 'a', 'z') then Rejected(NoLowercase)
    else if !ContainsRange(password, 'A', 'Z') then Rejected(NoUppercase)
    else if !ContainsRange(password, '0', '9') then Rejected(NoDigit)
    else Accepted
  }

  /** Adding characters to an accepted password keeps it accepted: every check is monotone. */
  lemma AcceptedStaysAcceptedWhenExtended(password: string, extra: string)
    requires ValidatePassword(password) == Accepted
    ensures ValidatePassword(password + extra) == Accepted
  {
    var p := password + extra;
    forall lo: char, hi: char | HasCharIn(password, lo, hi) ensures HasCharIn(p, lo, hi) {
      var k :| 0 <= k < |password| && lo <= password[k] <= hi;
      assert p[k] == password[k];
    }
  }

  /** The reported error is the first failing check: a short password is
      reported as short even when it also lacks every character class. */
  lemma FirstFailingCheckReported()
    ensures ValidatePassword("!!!") == Rejected(TooShort)
    ensures ValidatePassword("ABCDEFGH") == Rejected(NoLowercase)
    ensures ValidatePassword("abcdefgh") == Rejected(NoUppercase)
    ensures ValidatePassword("abcdEFGH") == Rejected(NoDigit)
    ensures ValidatePassword("abcdEFG1") == Accepted
  {
    assert "abcdEFG1"[7] == '1';
    assert "abcdEFG1"[4] == 'E';
    assert "abcdEFG1"[0] == 'a';
    assert "abcdEFGH"[4] == 'E';
    assert "abcdEFGH"[0] == 'a';
    assert "abcdefgh"[0] == 'a';
  }
}
