/**
 * The forgotten-password screen (app/login/forgot-password/page.tsx): a blank
 * check, the e-mail pattern `^[^\s@]+@[^\s@]+\.[^\s@]+$`, then one request
 * for a reset e-mail.
 */
module ForgotPassword {
  import opened Wrappers
  import opened Strings
  import Login

  /** `[^\s@]`: a character the pattern's three runs may hold. */
  predicate Plain(c: char) {
    !IsSpace(c) && c != '@'
  }

  /** What the pattern matches, stated by its parts: a non-empty plain run,
      `@`, a non-empty plain run, `.`, a non-empty plain run. Since `.` is
      plain, the `.` may be any dot of the domain with text on both sides. */
  predicate EmailShape(s: string) {
    exists i, j :: 0 <= i < |s| && 0 <= j < |s| && ShapeAt(s, i, j)
  }

  /** The `@` at `i` and the domain's chosen `.` at `j`. */
  predicate ShapeAt(s: string, i: int, j: int) {
    0 < i && i + 1 < j && j + 1 < |s| && s[i] == '@' && s[j] == '.'
    && (forall k :: 0 <= k < |s| && k != i ==> Plain(s[k]))
  }

  /** `emailRegex.test(email)`, decided without search: no white space, one
      `@` with text before it, and a domain that passes DomainTest. */
  predicate EmailTest(s: string) {
    var local := BeforeFirst(s, '@');
    NoSpace(s) && local != "" && |local| < |s| && DomainTest(s[|local| + 1..])
  }

  /** The text after the `@`: no further `@`, and a dot strictly inside. */
  predicate DomainTest(domain: string) {
    '@' !in domain && |domain| >= 3 && '.' in domain[1..|domain| - 1]
  }

  /** The text before an `@` at `i` that has no `@` in front of it. */
  lemma LocalPartAt(s: string, i: nat)
    requires i < |s| && s[i] == '@' && '@' !in s[..i]
    ensures BeforeFirst(s, '@') == s[..i]
  {
    assert s == s[..i] + s[i..];
    BeforeFirstOfJoin(s[..i], '@', s[i..]);
  }

  /** A text without white space whose only `@` is at `i` is plain elsewhere. */
  lemma PlainExceptAt(s: string, i: nat)
    requires i < |s| && NoSpace(s) && '@' !in s[..i] && '@' !in s[i + 1..]
    ensures forall k :: 0 <= k < |s| && k != i ==> Plain(s[k])
  {
    forall k | 0 <= k < |s| && k != i
      ensures Plain(s[k])
    {
      if k < i {
        assert s[k] == s[..i][k];
      } else {
        assert s[k] == s[i + 1..][k - i - 1];
      }
    }
  }

  /** A text the test accepts has the pattern's shape, with its first `@`
      at `i` and a dot of the domain at `j`. */
  lemma ShapeOfTest(s: string) returns (i: nat, j: nat)
    requires EmailTest(s)
    ensures i == |BeforeFirst(s, '@')| && j < |s| && ShapeAt(s, i, j)
  {
    var local := BeforeFirst(s, '@');
    i := |local|;
    var domain := s[i + 1..];
    assert DomainTest(domain);
    var inner := domain[1..|domain| - 1];
    var m :| 0 <= m < |inner| && inner[m] == '.';
    j := i + 2 + m;
    assert s[j] == '.' by {
      assert inner[m] == domain[m + 1] == s[j];
    }
    assert s[..i] == local;
    PlainExceptAt(s, i);
  }

  /** Every text the test accepts has the pattern's shape... */
  lemma TestImpliesShape(s: string)
    requires EmailTest(s)
    ensures EmailShape(s)
  {
    var i, j := ShapeOfTest(s);
  }

  /** The shape's `@` is the first one. */
  lemma ShapeLocalPart(s: string, i: int, j: int)
    requires 0 <= i < |s| && ShapeAt(s, i, j)
    ensures BeforeFirst(s, '@') == s[..i]
  {
    assert '@' !in s[..i] by {
      forall k | 0 <= k < i
        ensures s[..i][k] != '@'
      {
        assert Plain(s[k]);
      }
    }
    LocalPartAt(s, i);
  }

  /** The shape's domain passes DomainTest. */
  lemma ShapeDomain(s: string, i: int, j: int)
    requires 0 <= i < |s| && ShapeAt(s, i, j)
    ensures DomainTest(s[i + 1..])
  {
    var domain := s[i + 1..];
    assert '@' !in domain by {
      forall k | 0 <= k < |domain|
        ensures domain[k] != '@'
      {
        assert domain[k] == s[i + 1 + k] && Plain(s[i + 1 + k]);
      }
    }
    assert domain[1..|domain| - 1][j - i - 2] == s[j];
  }

  /** ...and every text of that shape passes the test. */
  lemma ShapeImpliesTest(s: string)
    requires EmailShape(s)
    ensures EmailTest(s)
  {
    var i, j :| 0 <= i < |s| && 0 <= j < |s| && ShapeAt(s, i, j);
    ShapeLocalPart(s, i, j);
    ShapeDomain(s, i, j);
    forall k | 0 <= k < |s|
      ensures !IsSpace(s[k])
    {
      if k != i {
        assert Plain(s[k]);
      }
    }
  }

  /** The test accepts exactly the texts of the pattern's shape. */
  lemma EmailTestIffShape(s: string)
    ensures EmailTest(s) <==> EmailShape(s)
  {
    if EmailTest(s) {
      TestImpliesShape(s);
    }
    if EmailShape(s) {
      ShapeImpliesTest(s);
    }
  }

  /** An accepted address has exactly one `@`, no white space, a non-empty
      local part, and a domain with a `.` that has text on both sides. */
  lemma AcceptedAddressShape(s: string)
    requires EmailTest(s)
    ensures NoSpace(s)
    ensures exists i :: 0 < i < |s| && s[i] == '@' && (forall k :: 0 <= k < |s| && s[k] == '@' ==> k == i)
    ensures exists j :: 0 <= j < |s| && s[j] == '.' && 0 < |BeforeFirst(s, '@')| + 1 < j < |s| - 1
  {
    var i, j := ShapeOfTest(s);
    assert 0 < i && s[i] == '@' && s[j] == '.' && i + 1 < j < |s| - 1;
  }

  /** Surrounding spaces make an otherwise well-formed address fail the
      pattern: the test sees the untrimmed text. */
  lemma SurroundingSpaceRejected(s: string)
    requires s != "" && (IsSpace(s[0]) || IsSpace(s[|s| - 1]))
    ensures !EmailTest(s)
  {
  }

  const EnterEmail := "Por favor, ingresa tu correo electrónico"
  const EnterValidEmail := "Por favor, ingresa un correo electrónico válido"
  const SendFailed := "Error al enviar el correo"

  /** handleSubmit's local checks in order: blank, then the pattern. */
  function SubmitCheck(email: string): (e: Option<string>)
    ensures IsBlank(email) ==> e == Some(EnterEmail)
    ensures !IsBlank(email) && !EmailTest(email) ==> e == Some(EnterValidEmail)
    ensures e.None? ==> EmailTest(email)
  {
    if IsBlank(email) then Some(EnterEmail)
    else if !EmailTest(email) then Some(EnterValidEmail)
    else None
  }

  /** A blank address is refused first; any other is refused exactly when
      it lacks the pattern's shape. */
  lemma SubmitCheckMeaning(email: string)
    ensures IsBlank(email) ==> SubmitCheck(email) == Some(EnterEmail)
    ensures !IsBlank(email) && !EmailShape(email) ==> SubmitCheck(email) == Some(EnterValidEmail)
    ensures SubmitCheck(email).None? <==> EmailShape(email)
  {
    EmailTestIffShape(email);
  }

  /** What `resetPasswordForEmail` does: send, answer with an error, or
      throw an error whose message may be missing. */
  datatype ResetOutcome = Sent | ResetError(message: string) | ResetThrew(thrown: Option<string>)

  /** The error text a request leaves: none when sent, else the message
      (the fixed text for a throw without one). */
  function RequestMessage(outcome: ResetOutcome): (e: string)
    ensures e == "" <==> outcome == Sent || (outcome.ResetError? && outcome.message == "")
    ensures outcome.ResetError? ==> e == outcome.message
    ensures outcome.ResetThrew? && outcome.thrown.Some? && outcome.thrown.value != ""
            ==> e == outcome.thrown.value
    ensures outcome.ResetThrew? && (outcome.thrown.None? || outcome.thrown == Some(""))
            ==> e == SendFailed
  {
    match outcome
    case Sent => ""
    case ResetError(m) => m
    case ResetThrew(m) => Login.OrElse(m, SendFailed)
  }

  /** The screen's state, with the addresses it has asked a reset for. */
  class ForgotPasswordPage {
    var error: string
    var isLoading: bool
    var success: bool
    var requests: seq<string>

    constructor ()
      ensures error == "" && !isLoading && !success && requests == []
    {
      error := "";
      isLoading := false;
      success := false;
      requests := [];
    }

    /** handleSubmit with the request's outcome supplied. */
    method HandleSubmit(email: string, outcome: ResetOutcome)
      modifies this`error, this`isLoading, this`success, this`requests
      ensures SubmitCheck(email).Some? ==>
                error == SubmitCheck(email).value && isLoading == old(isLoading)
                && success == old(success) && requests == old(requests)
      ensures SubmitCheck(email).None? ==>
                !isLoading && requests == old(requests) + [email]
                && success == (old(success) || outcome == Sent) && error == RequestMessage(outcome)
    {
      var check := SubmitCheck(email);
      if check.Some? {
        error := check.value;
        return;
      }
      isLoading := true;
      error := "";
      requests := requests + [email];
      if outcome.Sent? {
        success := true;
      } else {
        error := RequestMessage(outcome);
      }
      isLoading := false;
    }
  }
}
