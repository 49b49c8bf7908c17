/**
 * The password rules shared by registration and reset
 * (app/login/register/page.tsx and app/login/reset-password/page.tsx):
 * at least eight UTF-16 code units, an ASCII capital and an ASCII digit.
 */
module Passwords {
  import opened Strings

  predicate IsAsciiUpper(c: char) { 'A' <= c <= 'Z' }

  predicate IsAsciiDigit(c: char) { '0' <= c <= '9' }

  /** `/[A-Z]/.test(s)`, scanning from the front. */
  function HasUppercase(s: string): (r: bool)
    ensures r <==> exists k :: 0 <= k < |s| && IsAsciiUpper(s[k])
  {
    if s == [] then false
    else if IsAsciiUpper(s[0]) then true
    else
      var rest := HasUppercase(s[1..]);
      assert rest ==> exists k :: 0 <= k < |s[1..]| && IsAsciiUpper(s[1..][k]);
      assert rest ==> exists k :: 0 <= k < |s| && IsAsciiUpper(s[k]);
      assert (exists k :: 0 <= k < |s| && IsAsciiUpper(s[k])) ==> rest by {
        if exists k :: 0 <= k < |s| && IsAsciiUpper(s[k]) {
          var k :| 0 <= k < |s| && IsAsciiUpper(s[k]);
          assert k != 0 && s[1..][k - 1] == s[k];
        }
      }
      rest
  }

  /** `/[0-9]/.test(s)`, scanning from the front. */
  function HasNumber(s: string): (r: bool)
    ensures r <==> exists k :: 0 <= k < |s| && IsAsciiDigit(s[k])
  {
    if s == [] then false
    else if IsAsciiDigit(s[0]) then true
    else
      var rest := HasNumber(s[1..]);
      assert rest ==> exists k :: 0 <= k < |s[1..]| && IsAsciiDigit(s[1..][k]);
      assert rest ==> exists k :: 0 <= k < |s| && IsAsciiDigit(s[k]);
      assert (exists k :: 0 <= k < |s| && IsAsciiDigit(s[k])) ==> rest by {
        if exists k :: 0 <= k < |s| && IsAsciiDigit(s[k]) {
          var k :| 0 <= k < |s| && IsAsciiDigit(s[k]);
          assert k != 0 && s[1..][k - 1] == s[k];
        }
      }
      rest
  }

  /** `passwordRequirements` as displayed next to the field. */
  datatype Requirements = Requirements(minLength: bool, hasUppercase: bool, hasNumber: bool)

  function PasswordRequirements(password: string): (req: Requirements)
    ensures req.minLength <==> Utf16Length(password) >= 8
    ensures req.hasUppercase <==> exists k :: 0 <= k < |password| && IsAsciiUpper(password[k])
    ensures req.hasNumber <==> exists k :: 0 <= k < |password| && IsAsciiDigit(password[k])
  {
    Requirements(Utf16Length(password) >= 8, HasUppercase(password), HasNumber(password))
  }

  /** `Object.values(passwordRequirements).every(Boolean)`. */
  predicate IsPasswordValid(password: string) {
    var req := PasswordRequirements(password);
    req.minLength && req.hasUppercase && req.hasNumber
  }

  /** A valid password has at least four characters (eight code units, at most
      two per character), a capital and a digit, so at least two distinct
      characters. */
  lemma ValidPasswordShape(password: string)
    requires IsPasswordValid(password)
    ensures |password| >= 4
    ensures exists i, j :: 0 <= i < |password| && 0 <= j < |password| && i != j
              && IsAsciiUpper(password[i]) && IsAsciiDigit(password[j])
  {
    var i :| 0 <= i < |password| && IsAsciiUpper(password[i]);
    var j :| 0 <= j < |password| && IsAsciiDigit(password[j]);
    assert i != j;
  }

  /** Each rule alone can sink a password: no capital, no digit, too short. */
  lemma RuleExamples()
    ensures IsPasswordValid("Secreto1")
    ensures !IsPasswordValid("secreto1") && !IsPasswordValid("Secreto") && !IsPasswordValid("Sec1")
  {
    assert "Secreto1"[0] == 'S' && "Secreto1"[7] == '1';
    assert !IsAsciiUpper("secreto1"[0]);
  }
}
