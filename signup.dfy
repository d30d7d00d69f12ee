/**
 * The sign-up form of app/auth/signup/page.tsx: `handleSignup` validates
 * the two password fields, creates the account, asks the claim route to
 * hand over the visitor's anonymous blogs, and redirects home. The account
 * service and the claim request are outcomes given to the handler.
 */
module Signup {
  import opened Wrappers

  const MISMATCH: string := "Passwords do not match"
  const TOO_SHORT: string := "Password must be at least 6 characters"
  const SIGNUP_FAILED: string := "Failed to sign up"
  const MIN_PASSWORD_LENGTH: int := 6
  const HOME: string := "/"

  /** What `signup(email, password)` does: resolves to the new user id, or throws (an `Error` has a message). */
  datatype SignupOutcome = SignedUp(userId: string) | SignupThrew(message: Option<string>)

  /** The call made to the account service. */
  datatype Credentials = Credentials(email: string, password: string)

  /**
   * The page state: the form fields, the shown error, the loading flag,
   * the calls made so far to the account service and the claim route, and
   * where the router was sent.
   */
  datatype Form = Form(email: string, password: string, confirmPassword: string,
                       error: string, isLoading: bool,
                       signups: seq<Credentials>, claims: seq<string>, redirectedTo: Option<string>)

  /** The error shown for a failed sign-up: the error's message, or a generic one. */
  function FailureMessage(message: Option<string>): string {
    if message.Some? then message.value else SIGNUP_FAILED
  }

  /**
   * The form after one submit. `claimThrows` says whether the claim request
   * itself throws; it is caught and changes nothing.
   */
  function Submit(f: Form, outcome: SignupOutcome, claimThrows: bool): Form {
    if f.password != f.confirmPassword then f.(error := MISMATCH)
    else if |f.password| < MIN_PASSWORD_LENGTH then f.(error := TOO_SHORT)
    else
      var called := f.(error := "", signups := f.signups + [Credentials(f.email, f.password)]);
      match outcome
      case SignedUp(userId) => called.(claims := f.claims + [userId], redirectedTo := Some(HOME), isLoading := false)
      case SignupThrew(message) => called.(error := FailureMessage(message), isLoading := false)
  }

  /** Mismatched passwords are reported, and checked before the length, and no account is requested. */
  lemma MismatchStopsFirst(f: Form, outcome: SignupOutcome, claimThrows: bool)
    requires f.password != f.confirmPassword
    ensures Submit(f, outcome, claimThrows) == f.(error := MISMATCH)
  {
  }

  /** Matching passwords shorter than 6 characters are reported and no account is requested. */
  lemma ShortPasswordStops(f: Form, outcome: SignupOutcome, claimThrows: bool)
    requires f.password == f.confirmPassword && |f.password| < MIN_PASSWORD_LENGTH
    ensures Submit(f, outcome, claimThrows) == f.(error := TOO_SHORT)
  {
  }

  /**
   * With valid passwords exactly one sign-up call is made with the form's
   * email and password; a success clears the error, claims for the new user
   * and redirects home, whether or not the claim request fails.
   */
  lemma SuccessRedirectsHome(f: Form, userId: string, claimThrows: bool)
    requires f.password == f.confirmPassword && |f.password| >= MIN_PASSWORD_LENGTH
    ensures var g := Submit(f, SignedUp(userId), claimThrows);
      && g.signups == f.signups + [Credentials(f.email, f.password)]
      && g.claims == f.claims + [userId]
      && g.error == "" && !g.isLoading && g.redirectedTo == Some(HOME)
    ensures Submit(f, SignedUp(userId), true) == Submit(f, SignedUp(userId), false)
  {
  }

  /** A failed sign-up shows an error, requests no claim and does not redirect. */
  lemma FailureStaysOnPage(f: Form, message: Option<string>, claimThrows: bool)
    requires f.password == f.confirmPassword && |f.password| >= MIN_PASSWORD_LENGTH
    ensures var g := Submit(f, SignupThrew(message), claimThrows);
      && g.error == FailureMessage(message) && !g.isLoading
      && g.claims == f.claims && g.redirectedTo == f.redirectedTo
      && |g.signups| == |f.signups| + 1
  {
  }

  /** The page component, with its state hooks as fields. */
  class SignupPage {
    var email: string
    var password: string
    var confirmPassword: string
    var error: string
    var isLoading: bool
    var signups: seq<Credentials>
    var claims: seq<string>
    var redirectedTo: Option<string>

    function State(): Form
      reads this
    {
      Form(email, password, confirmPassword, error, isLoading, signups, claims, redirectedTo)
    }

    constructor ()
      ensures State() == Form("", "", "", "", false, [], [], None)
    {
      email, password, confirmPassword := "", "", "";
      error, isLoading := "", false;
      signups, claims, redirectedTo := [], [], None;
    }

    /** The three input handlers. */
    method Type(newEmail: string, newPassword: string, newConfirm: string)
      modifies this
      ensures State() == old(State()).(email := newEmail, password := newPassword, confirmPassword := newConfirm)
    {
      email, password, confirmPassword := newEmail, newPassword, newConfirm;
    }

    /** `handleSignup`, one state update at a time. */
    method HandleSignup(outcome: SignupOutcome, claimThrows: bool)
      modifies this
      ensures State() == Submit(old(State()), outcome, claimThrows)
    {
      error := "";
      if password != confirmPassword {
        error := MISMATCH;
        return;
      }
      if |password| < MIN_PASSWORD_LENGTH {
        error := TOO_SHORT;
        return;
      }
      isLoading := true;
      signups := signups + [Credentials(email, password)];
      match outcome {
        case SignedUp(userId) =>
          claims := claims + [userId];
          redirectedTo := Some(HOME);
        case SignupThrew(message) =>
          error := if message.Some? then message.value else SIGNUP_FAILED;
      }
      isLoading := false;
    }
  }
}
