/**
 * The password reset page (pages/ResetPassword.tsx): the two checks on the
 * new password, in their order, and the submit handler that calls the auth
 * service only when both pass. The service's answer is a parameter; the
 * redirects are returned rather than performed.
 */
module ResetPassword {
  import opened Wrappers

  const Mismatch: string := "Passwords do not match"
  const TooShort: string := "Password must be at least 6 characters"
  const UpdateFailed: string := "Failed to update password"
  const MinLength: nat := 6

  /** The validation error of a password pair, if any: a mismatch is reported
      first, even for a password that is also too short. */
  function Validate(password: string, confirmPassword: string): (r: Option<string>)
    ensures r == Some(Mismatch) <==> password != confirmPassword
    ensures r == Some(TooShort) <==> password == confirmPassword && |password| < MinLength
    ensures r.None? <==> password == confirmPassword && |password| >= MinLength
  {
    if password != confirmPassword then Some(Mismatch)
    else if |password| < MinLength then Some(TooShort)
    else None
  }

  /** The session check on arrival: without a session the page sends the
      visitor to the login page. */
  function SessionRedirect(hasSession: bool): (r: Option<string>)
    ensures r.Some? <==> !hasSession
    ensures r.Some? ==> r.value == "/login"
  {
    if hasSession then None else Some("/login")
  }

  /** What `supabase.auth.updateUser` does: succeeds, or fails with an error
      whose `message` may be missing. */
  datatype UpdateOutcome = Updated | Failed(message: Option<string>)

  /** `err.message || "Failed to update password"`: an empty message counts as missing. */
  function FailureText(message: Option<string>): (r: string)
    ensures r != ""
    ensures message.Some? && message.value != "" ==> r == message.value
    ensures !(message.Some? && message.value != "") ==> r == UpdateFailed
  {
    if message.Some? && message.value != "" then message.value else UpdateFailed
  }

  /** The delay before the home page opens after a success, in milliseconds. */
  const RedirectDelay: nat := 3000

  class ResetPasswordPage {
    var password: string
    var confirmPassword: string
    var loading: bool
    var error: Option<string>
    var success: bool

    constructor ()
      ensures password == "" && confirmPassword == "" && !loading && error.None? && !success
    {
      password, confirmPassword, loading, error, success := "", "", false, None, false;
    }

    /** `handleReset`: the error is cleared, the checks run in order, the
        service is called (`called`) only when both pass, and loading ends
        false on every path. On success the page schedules the home page
        (`redirect`: the path and the delay in milliseconds). */
    method HandleReset(outcome: UpdateOutcome) returns (called: bool, redirect: Option<(string, nat)>)
      modifies this`loading, this`error, this`success
      ensures !loading
      ensures called <==> Validate(password, confirmPassword).None?
      ensures !called ==> error == Validate(password, confirmPassword) && success == old(success)
      ensures called && outcome.Updated? ==> success && error.None?
      ensures called && outcome.Failed? ==> error == Some(FailureText(outcome.message)) && success == old(success)
      ensures redirect.Some? <==> called && outcome.Updated?
      ensures redirect.Some? ==> redirect.value == ("/", RedirectDelay)
    {
      loading := true;
      error := None;
      redirect := None;
      if password != confirmPassword {
        error := Some(Mismatch);
        loading := false;
        return false, None;
      }
      if |password| < MinLength {
        error := Some(TooShort);
        loading := false;
        return false, None;
      }
      called := true;
      match outcome {
        case Updated =>
          success := true;
          redirect := Some(("/", RedirectDelay));
        case Failed(message) =>
          error := Some(FailureText(message));
      }
      loading := false;
    }
  }
}
