/**
 * The sign-up screen (app/login/register/page.tsx): two local checks on the
 * typed passwords, then one sign-up request whose answer becomes the
 * screen's error text or its success view.
 */
module Register {
  import opened Wrappers
  import opened Strings
  import opened Passwords
  import Login

  const Mismatch := "Las contraseñas no coinciden"
  const WeakPassword := "La contraseña no cumple los requisitos"
  const AlreadyRegistered := "Este email ya está registrado"
  const SignUpCrashed := "Error al crear la cuenta. Intenta de nuevo."

  /** The local checks, in the order handleRegister runs them: the error
      they raise, or None when the request may be sent. */
  function LocalCheck(password: string, confirmPassword: string): (e: Option<string>)
    ensures e.None? <==> password == confirmPassword && IsPasswordValid(password)
    ensures password != confirmPassword ==> e == Some(Mismatch)
    ensures password == confirmPassword && !IsPasswordValid(password) ==> e == Some(WeakPassword)
  {
    if password != confirmPassword then Some(Mismatch)
    else if !IsPasswordValid(password) then Some(WeakPassword)
    else None
  }

  /** A mismatch is reported even when the password is also weak. */
  lemma MismatchBeforeStrength(password: string, confirmPassword: string)
    requires password != confirmPassword && !IsPasswordValid(password)
    ensures LocalCheck(password, confirmPassword) == Some(Mismatch)
  {
  }

  /** A concrete weak pair: matching, but without a capital or a digit. */
  lemma LowerCaseOnlyIsWeak()
    ensures LocalCheck("abcdefgh", "abcdefgh") == Some(WeakPassword)
  {
    assert !IsAsciiUpper("abcdefgh"[0]);
    assert !HasUppercase("abcdefgh");
  }

  /** The provider's error text as displayed. */
  function ProviderMessage(message: string): (shown: string)
    ensures Contains(message, "already registered") ==> shown == AlreadyRegistered
    ensures !Contains(message, "already registered") ==> shown == message
  {
    if Contains(message, "already registered") then AlreadyRegistered else message
  }

  /** What `supabase.auth.signUp` does: answer with an error, answer with
      data (carrying a user or not), or throw. */
  datatype SignUpOutcome = ProviderError(message: string) | Answered(userReturned: bool) | Threw

  /** The request handleRegister sends. */
  datatype SignUpRequest = SignUpRequest(email: string, password: string, fullName: string)

  /** How a submit ends: the error shown, whether the success view appears,
      and whether a request went out. */
  datatype RegisterResult = RegisterResult(error: Option<string>, success: bool, requested: bool)

  function RegisterOutcome(password: string, confirmPassword: string, outcome: SignUpOutcome,
                           success: bool): (r: RegisterResult)
    ensures r.requested <==> LocalCheck(password, confirmPassword).None?
    ensures !r.requested ==> r.error == LocalCheck(password, confirmPassword) && r.success == success
    ensures r.requested ==> (r.error.None? <==> outcome.Answered?)
    ensures r.success <==> success || (r.requested && outcome.Answered? && outcome.userReturned)
  {
    var local := LocalCheck(password, confirmPassword);
    if local.Some? then RegisterResult(local, success, false)
    else match outcome
      case ProviderError(m) => RegisterResult(Some(ProviderMessage(m)), success, true)
      case Answered(user) => RegisterResult(None, success || user, true)
      case Threw => RegisterResult(Some(SignUpCrashed), success, true)
  }

  /** A request is sent exactly when both local checks pass, and a failed
      local check changes nothing but the error. */
  lemma RequestIffLocalChecksPass(password: string, confirmPassword: string, outcome: SignUpOutcome,
                                  success: bool)
    ensures RegisterOutcome(password, confirmPassword, outcome, success).requested
            <==> password == confirmPassword && IsPasswordValid(password)
    ensures !RegisterOutcome(password, confirmPassword, outcome, success).requested
            ==> RegisterOutcome(password, confirmPassword, outcome, success).success == success
  {
  }

  /** The success view appears only after an answer carrying a user, and
      then no error is shown. */
  lemma SuccessOnlyWithUser(password: string, confirmPassword: string, outcome: SignUpOutcome)
    ensures RegisterOutcome(password, confirmPassword, outcome, false).success
            <==> LocalCheck(password, confirmPassword).None? && outcome == Answered(true)
    ensures RegisterOutcome(password, confirmPassword, outcome, false).success
            ==> RegisterOutcome(password, confirmPassword, outcome, false).error.None?
  {
  }

  /** The sign-up screen's state, with the requests it has sent. */
  class RegisterPage {
    var error: Option<string>
    var isLoading: bool
    var success: bool
    var requests: seq<SignUpRequest>

    constructor ()
      ensures error.None? && !isLoading && !success && requests == []
    {
      error := None;
      isLoading := false;
      success := false;
      requests := [];
    }

    /** handleRegister with the provider's outcome supplied. */
    method HandleRegister(name: string, email: string, password: string, confirmPassword: string,
                          outcome: SignUpOutcome)
      modifies this`error, this`isLoading, this`success, this`requests
      ensures isLoading == (old(isLoading) && LocalCheck(password, confirmPassword).Some?)
      ensures var r := RegisterOutcome(password, confirmPassword, outcome, old(success));
              error == r.error && success == r.success
              && requests == old(requests) + (if r.requested then [SignUpRequest(email, password, name)] else [])
    {
      error := None;
      if password != confirmPassword {
        error := Some(Mismatch);
        return;
      }
      if !IsPasswordValid(password) {
        error := Some(WeakPassword);
        return;
      }
      isLoading := true;
      requests := requests + [SignUpRequest(email, password, name)];
      match outcome {
        case ProviderError(m) =>
          if Contains(m, "already registered") {
            error := Some(AlreadyRegistered);
          } else {
            error := Some(m);
          }
        case Answered(user) =>
          if user {
            success := true;
          }
        case Threw =>
          error := Some(SignUpCrashed);
      }
      isLoading := false;
    }

    /** handleGoogleRegister: unlike the e-mail path it does not clear an
        earlier error first, so a started redirect leaves the old text. */
    method HandleGoogleRegister(outcome: Login.GoogleStart)
      modifies this`error
      ensures outcome == Login.Started ==> error == old(error)
      ensures outcome == Login.StartError ==> error == Some("Error al conectar con Google")
      ensures outcome == Login.StartThrew ==> error == Some("Error al registrarse con Google")
    {
      match outcome {
        case Started =>
        case StartError =>
          error := Some("Error al conectar con Google");
        case StartThrew =>
          error := Some("Error al registrarse con Google");
      }
    }
  }
}
