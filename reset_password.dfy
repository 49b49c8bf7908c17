/**
 * The password-reset screen (app/login/reset-password/page.tsx): on mount it
 * decides whether the recovery link is usable (from the tokens in the URL
 * fragment or an existing session); on submit it checks both fields and
 * sends the new password.
 */
module ResetPassword {
  import opened Wrappers
  import opened Strings
  import opened Passwords
  import Register
  import Login

  // ---------------------------------------------------------------- fragment

  /** `new URLSearchParams(q).get(key)`: the value of the first `&`-separated
      pair whose name is `key` (the text after its first `=`, or empty when
      the pair has none). Empty pairs are skipped. */
  function ParamGet(q: string, key: string): (r: Option<string>)
    ensures q == "" ==> r.None?
    ensures r.Some? ==> '&' !in r.value && |r.value| < |q|
    decreases |q|
  {
    var segment := BeforeFirst(q, '&');
    var name := BeforeFirst(segment, '=');
    if segment != "" && name == key then
      Some(if |name| < |segment| then segment[|name| + 1..] else "")
    else if |segment| < |q| then ParamGet(q[|segment| + 1..], key)
    else None
  }

  /** A pair written as `key=value` at the front is what `get(key)` returns. */
  lemma ParamGetFirst(key: string, value: string, rest: string)
    requires '&' !in key && '=' !in key && '&' !in value
    requires rest == "" || rest[0] == '&'
    ensures ParamGet(key + "=" + value + rest, key) == Some(value)
  {
    var segment := key + "=" + value;
    PairShape(key, value);
    BeforeFirstOfJoin(segment, '&', rest);
    assert segment[|key| + 1..] == value;
  }

  /** A pair with another name in front is skipped. */
  lemma ParamGetSkip(other: string, key: string, rest: string)
    requires '&' !in other && other != "" && BeforeFirst(other, '=') != key
    ensures ParamGet(other + "&" + rest, key) == ParamGet(rest, key)
  {
    var q := other + "&" + rest;
    assert q == other + ("&" + rest);
    BeforeFirstOfJoin(other, '&', "&" + rest);
    assert q[|other| + 1..] == rest;
  }

  /** The two tokens a recovery fragment may carry. */
  datatype RecoveryTokens = RecoveryTokens(accessToken: Option<string>, refreshToken: Option<string>)

  /** `hash && hash.includes('type=recovery')`. */
  predicate IsRecoveryHash(hash: string) {
    hash != "" && Contains(hash, "type=recovery")
  }

  /** The tokens read from the fragment after its leading `#`. */
  function TokensOf(hash: string): RecoveryTokens
    requires hash != ""
  {
    var q := hash[1..];
    RecoveryTokens(ParamGet(q, "access_token"), ParamGet(q, "refresh_token"))
  }

  /** `accessToken && refreshToken`: both present and non-empty. */
  predicate BothTokens(t: RecoveryTokens) {
    t.accessToken.Some? && t.accessToken.value != "" && t.refreshToken.Some? && t.refreshToken.value != ""
  }

  /** A text ending in `sub` contains it. */
  lemma ContainsSuffix(s: string, sub: string)
    ensures Contains(s + sub, sub)
  {
    assert (s + sub)[|s|..|s| + |sub|] == sub;
    ContainsAt(s + sub, sub, |s|);
  }

  /** `name=value` has `name` before its first `=`, and no `&` when neither part has one. */
  lemma PairShape(name: string, value: string)
    requires '=' !in name && '&' !in name && '&' !in value
    ensures BeforeFirst(name + "=" + value, '=') == name
    ensures '&' !in name + "=" + value
  {
    assert name + "=" + value == name + ("=" + value);
    BeforeFirstOfJoin(name, '=', "=" + value);
  }

  /** In `k1=v1&k2=v2…` each name finds its own value. */
  lemma TwoPairs(k1: string, v1: string, k2: string, v2: string, rest: string)
    requires '=' !in k1 && '&' !in k1 && '=' !in k2 && '&' !in k2 && k1 != k2
    requires '&' !in v1 && '&' !in v2 && (rest == "" || rest[0] == '&')
    ensures var q := (k1 + "=" + v1) + "&" + (k2 + "=" + v2 + rest);
            ParamGet(q, k1) == Some(v1) && ParamGet(q, k2) == Some(v2)
  {
    var first := k1 + "=" + v1;
    var second := k2 + "=" + v2 + rest;
    var tail := "&" + second;
    assert first + "&" + second == first + tail;
    PairShape(k1, v1);
    ParamGetFirst(k1, v1, tail);
    ParamGetSkip(first, k2, second);
    ParamGetFirst(k2, v2, rest);
  }

  /** The fragment of a recovery e-mail's link: `#access_token=A&refresh_token=R&type=recovery`. */
  function RecoveryFragment(a: string, r: string): string {
    "#" + ((("access_token" + "=" + a) + "&" + ("refresh_token" + "=" + r + "&type=recovery")))
  }

  /** Such a fragment is recognised as a recovery link... */
  lemma FragmentIsRecovery(a: string, r: string)
    ensures IsRecoveryHash(RecoveryFragment(a, r))
  {
    var head := "#" + ("access_token" + "=" + a) + "&" + ("refresh_token" + "=" + r + "&");
    assert RecoveryFragment(a, r) == head + "type=recovery";
    ContainsSuffix(head, "type=recovery");
  }

  /** ...and, when neither token holds an `&`, yields both tokens. */
  lemma FragmentTokens(a: string, r: string)
    requires '&' !in a && '&' !in r
    ensures TokensOf(RecoveryFragment(a, r)) == RecoveryTokens(Some(a), Some(r))
  {
    var access, refresh := "access_token", "refresh_token";
    assert '=' !in access && '&' !in access && '=' !in refresh && '&' !in refresh && access != refresh;
    var q := (access + "=" + a) + "&" + (refresh + "=" + r + "&type=recovery");
    assert RecoveryFragment(a, r)[1..] == q;
    TwoPairs(access, a, refresh, r, "&type=recovery");
  }

  /** A recovery link with two non-empty tokens is one whose session is set. */
  lemma TypicalRecoveryFragment(a: string, r: string)
    requires '&' !in a && '&' !in r && a != "" && r != ""
    ensures IsRecoveryHash(RecoveryFragment(a, r)) && BothTokens(TokensOf(RecoveryFragment(a, r)))
  {
    FragmentIsRecovery(a, r);
    FragmentTokens(a, r);
  }

  // ---------------------------------------------------------------- link check

  /** The answer of `setSession` or `getSession`: fine, an error (or no
      session), or a throw. */
  datatype CallOutcome = SessionOk | SessionError | SessionThrew

  /** handleAuthSession's verdict on the link, starting from `valid`. */
  function LinkValidity(hash: string, setSession: CallOutcome, getSession: CallOutcome, valid: bool): (r: bool)
    ensures r && !valid ==> IsRecoveryHash(hash) && BothTokens(TokensOf(hash)) && setSession == SessionOk
    ensures !IsRecoveryHash(hash) && getSession != SessionOk ==> !r
  {
    if IsRecoveryHash(hash) then
      if BothTokens(TokensOf(hash)) then setSession == SessionOk
      else valid
    else valid && getSession == SessionOk
  }

  /** Both tokens present: the link is valid exactly when the session
      could be set. */
  lemma TokensDecideBySetSession(hash: string, setSession: CallOutcome, getSession: CallOutcome, valid: bool)
    requires IsRecoveryHash(hash) && BothTokens(TokensOf(hash))
    ensures LinkValidity(hash, setSession, getSession, valid) <==> setSession == SessionOk
  {
  }

  /** A recovery fragment missing a token leaves the flag as it was (true
      on a fresh screen). */
  lemma MissingTokenKeepsFlag(hash: string, setSession: CallOutcome, getSession: CallOutcome)
    requires IsRecoveryHash(hash) && !BothTokens(TokensOf(hash))
    ensures LinkValidity(hash, setSession, getSession, true)
  {
  }

  /** Without a recovery fragment a missing session makes the link invalid,
      and an existing one leaves the flag as it was. */
  lemma NoFragmentNeedsSession(hash: string, setSession: CallOutcome, getSession: CallOutcome, valid: bool)
    requires !IsRecoveryHash(hash)
    ensures LinkValidity(hash, setSession, getSession, valid) <==> valid && getSession == SessionOk
  {
  }

  // ---------------------------------------------------------------- submit

  const FillBoth := "Por favor, completa todos los campos"
  const RulesNotMet := "La contraseña no cumple con los requisitos"
  const UpdateFailed := "Error al actualizar la contraseña"

  /** handleSubmit's checks in order: a blank field, a mismatch, a rule failure. */
  function SubmitCheck(password: string, confirmPassword: string): (e: Option<string>)
    ensures IsBlank(password) || IsBlank(confirmPassword) ==> e == Some(FillBoth)
    ensures !IsBlank(password) && !IsBlank(confirmPassword) && password != confirmPassword
            ==> e == Some(Register.Mismatch)
    ensures (!IsBlank(password) && !IsBlank(confirmPassword) && password == confirmPassword
             && !IsPasswordValid(password)) ==> e == Some(RulesNotMet)
    ensures e.None? <==> !IsBlank(password) && password == confirmPassword && IsPasswordValid(password)
  {
    if IsBlank(password) || IsBlank(confirmPassword) then Some(FillBoth)
    else if password != confirmPassword then Some(Register.Mismatch)
    else if !IsPasswordValid(password) then Some(RulesNotMet)
    else None
  }

  /** A valid password always has a non-space character (its capital). */
  lemma ValidIsNotBlank(password: string)
    requires IsPasswordValid(password)
    ensures !IsBlank(password)
  {
    var i :| 0 <= i < |password| && IsAsciiUpper(password[i]);
    assert !IsSpace(password[i]);
  }

  /** The reset screen accepts exactly the pairs the sign-up screen accepts:
      the extra blank check never rejects a pair that passes the rules. */
  lemma SameRulesAsRegistration(password: string, confirmPassword: string)
    ensures SubmitCheck(password, confirmPassword).None? <==> Register.LocalCheck(password, confirmPassword).None?
  {
    if IsPasswordValid(password) {
      ValidIsNotBlank(password);
    }
  }

  /** White space alone in either box, whatever the other holds, is reported
      as a blank field; such a text would also fail the rules, so the blank
      check only changes which message is shown. */
  lemma SpacesAreBlank(password: string, confirmPassword: string)
    requires AllSpace(password) || AllSpace(confirmPassword)
    ensures SubmitCheck(password, confirmPassword) == Some(FillBoth)
    ensures AllSpace(password) ==> !IsPasswordValid(password)
    ensures AllSpace(confirmPassword) ==> !IsPasswordValid(confirmPassword)
  {
    if IsPasswordValid(password) {
      ValidIsNotBlank(password);
    }
    if IsPasswordValid(confirmPassword) {
      ValidIsNotBlank(confirmPassword);
    }
  }

  /** `disabled={isLoading || !isPasswordValid}`. */
  predicate SubmitDisabled(isLoading: bool, password: string) {
    isLoading || !IsPasswordValid(password)
  }

  /** With the button enabled, the password field is not blank and the rule
      check cannot fail; only an empty confirmation or a mismatch remains. */
  lemma EnabledButtonPassesRules(isLoading: bool, password: string, confirmPassword: string)
    requires !SubmitDisabled(isLoading, password)
    ensures !IsBlank(password)
    ensures SubmitCheck(password, confirmPassword) != Some(RulesNotMet)
    ensures SubmitCheck(password, confirmPassword).None? <==> password == confirmPassword
  {
    ValidIsNotBlank(password);
    if password == confirmPassword {
      assert !IsBlank(confirmPassword);
    }
  }

  /** What `updateUser` does: succeed, answer with an error, or throw an
      error whose message may be missing. */
  datatype UpdateOutcome = Updated | UpdateError(message: string) | UpdateThrew(thrown: Option<string>)

  /** The reset screen's state, with the calls it has made. */
  class ResetPasswordPage {
    var error: string
    var isLoading: bool
    var success: bool
    var isValidLink: bool
    var isCheckingSession: bool
    var sessionRequests: seq<(string, string)>
    var passwordUpdates: seq<string>

    constructor ()
      ensures error == "" && !isLoading && !success && isValidLink && isCheckingSession
      ensures sessionRequests == [] && passwordUpdates == []
    {
      error := "";
      isLoading := false;
      success := false;
      isValidLink := true;
      isCheckingSession := true;
      sessionRequests := [];
      passwordUpdates := [];
    }

    /** handleAuthSession, with the fragment and the two session answers supplied. */
    method HandleAuthSession(hash: string, setSession: CallOutcome, getSession: CallOutcome)
      modifies this`isValidLink, this`isCheckingSession, this`sessionRequests
      ensures !isCheckingSession
      ensures isValidLink == LinkValidity(hash, setSession, getSession, old(isValidLink))
      ensures IsRecoveryHash(hash) && BothTokens(TokensOf(hash))
              ==> sessionRequests == old(sessionRequests)
                    + [(TokensOf(hash).accessToken.value, TokensOf(hash).refreshToken.value)]
      ensures !(IsRecoveryHash(hash) && BothTokens(TokensOf(hash))) ==> sessionRequests == old(sessionRequests)
    {
      if hash != "" && Contains(hash, "type=recovery") {
        var hashParams := hash[1..];
        var accessToken := ParamGet(hashParams, "access_token");
        var refreshToken := ParamGet(hashParams, "refresh_token");
        if accessToken.Some? && accessToken.value != "" && refreshToken.Some? && refreshToken.value != "" {
          sessionRequests := sessionRequests + [(accessToken.value, refreshToken.value)];
          isValidLink := setSession == SessionOk;
        }
      } else {
        if getSession != SessionOk {
          isValidLink := false;
        }
      }
      isCheckingSession := false;
    }

    /** handleSubmit, with the update's outcome supplied. */
    method HandleSubmit(password: string, confirmPassword: string, outcome: UpdateOutcome)
      modifies this`error, this`isLoading, this`success, this`passwordUpdates
      ensures var check := SubmitCheck(password, confirmPassword);
              && (check.Some? ==> error == check.value && success == old(success)
                                  && isLoading == old(isLoading) && passwordUpdates == old(passwordUpdates))
              && (check.None? ==> !isLoading && passwordUpdates == old(passwordUpdates) + [password]
                                  && success == (old(success) || outcome == Updated)
                                  && error == UpdateMessage(outcome))
    {
      if IsBlank(password) || IsBlank(confirmPassword) {
        error := FillBoth;
        return;
      }
      if password != confirmPassword {
        error := Register.Mismatch;
        return;
      }
      if !IsPasswordValid(password) {
        error := RulesNotMet;
        return;
      }
      isLoading := true;
      error := "";
      passwordUpdates := passwordUpdates + [password];
      match outcome {
        case Updated =>
          success := true;
        case UpdateError(m) =>
          error := m;
        case UpdateThrew(m) =>
          error := Login.OrElse(m, UpdateFailed);
      }
      isLoading := false;
    }
  }

  /** The error text an update leaves: none on success, the provider's
      message, or the thrown message (the fixed text when it has none). */
  function UpdateMessage(outcome: UpdateOutcome): (e: string)
    ensures outcome == Updated ==> e == ""
    ensures outcome.UpdateError? ==> e == outcome.message
    ensures outcome.UpdateThrew? && (outcome.thrown.None? || outcome.thrown == Some(""))
            ==> e == UpdateFailed
    ensures outcome.UpdateThrew? && outcome.thrown.Some? && outcome.thrown.value != ""
            ==> e == outcome.thrown.value
  {
    match outcome
    case Updated => ""
    case UpdateError(m) => m
    case UpdateThrew(m) => Login.OrElse(m, UpdateFailed)
  }
}
