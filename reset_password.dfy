/** The password-reset page of `app/reset-password/page.tsx`: a form whose
    state is updated in sequence by a session check when it mounts and by
    its submit handler, and a render rule with three outcomes. The auth
    provider is an input: whether a session exists, and what the password
    update answers. */
module ResetPassword {
  import opened Wrappers
  import Signup

  const InvalidLinkMessage: string := "Invalid or expired reset link. Please request a new password reset."
  const UpdatedMessage: string := "Password updated successfully! Redirecting to login..."

  /** What the page renders. */
  datatype View = ValidatingLink | InvalidLink | PasswordForm

  class ResetForm {
    var password: string
    var confirmPassword: string
    var isLoading: bool
    var isValidating: bool
    var error: string
    var message: string
    /** The passwords handed to `auth.updateUser`, oldest first. */
    var updates: seq<string>
    /** Whether the delayed move to the login page has been scheduled. */
    var redirectScheduled: bool

    /** The initial state: validating, with empty entries and messages. */
    constructor ()
      ensures password == "" && confirmPassword == ""
      ensures !isLoading && isValidating && error == "" && message == ""
      ensures updates == [] && !redirectScheduled
    {
      password, confirmPassword := "", "";
      isLoading, isValidating := false, true;
      error, message := "", "";
      updates, redirectScheduled := [], false;
    }

    /** `checkSession`: without a session the link is reported invalid;
        validation ends either way. Nothing else changes. */
    method CheckSession(hasSession: bool)
      modifies this
      ensures !isValidating
      ensures error == (if hasSession then old(error) else InvalidLinkMessage)
      ensures password == old(password) && confirmPassword == old(confirmPassword)
      ensures isLoading == old(isLoading) && message == old(message)
      ensures updates == old(updates) && redirectScheduled == old(redirectScheduled)
    {
      if !hasSession {
        error := InvalidLinkMessage;
        isValidating := false;
      } else {
        isValidating := false;
      }
    }

    /** `handleUpdatePassword`: the sign-up password rules, in the same
        order; the update is requested only when both pass. Its error is
        shown, or the success message and the delayed redirect; `isLoading`
        is clear at the end on every path. `updateError` is the provider's
        error message, `None` when the update succeeds. */
    method HandleUpdatePassword(updateError: Option<string>)
      modifies this
      ensures !isLoading
      ensures password == old(password) && confirmPassword == old(confirmPassword)
      ensures isValidating == old(isValidating)
      ensures Signup.PasswordProblemOf(password, confirmPassword).Some? ==>
                && error == Signup.ProblemMessage(Signup.PasswordProblemOf(password, confirmPassword).value)
                && updates == old(updates) && message == old(message)
                && redirectScheduled == old(redirectScheduled)
      ensures Signup.PasswordProblemOf(password, confirmPassword).None? ==>
                updates == old(updates) + [password]
      ensures Signup.PasswordProblemOf(password, confirmPassword).None? && updateError.Some? ==>
                error == updateError.value && message == old(message)
                && redirectScheduled == old(redirectScheduled)
      ensures Signup.PasswordProblemOf(password, confirmPassword).None? && updateError.None? ==>
                error == "" && message == UpdatedMessage && redirectScheduled
    {
      isLoading := true;
      error := "";
      if password != confirmPassword {
        error := Signup.ProblemMessage(Signup.Mismatch);
        isLoading := false;
        return;
      }
      if |password| < Signup.MinPasswordLength {
        error := Signup.ProblemMessage(Signup.TooShort);
        isLoading := false;
        return;
      }
      updates := updates + [password];
      if updateError.Some? {
        error := updateError.value;
      } else {
        message := UpdatedMessage;
        redirectScheduled := true;
      }
      isLoading := false;
    }

    /** The render rule: the validating view first; then, with an error
        and nothing typed, the invalid-link view; otherwise the form. */
    function Render(): (v: View)
      reads this
      ensures v == ValidatingLink <==> isValidating
      ensures v == InvalidLink <==> !isValidating && error != "" && password == ""
      ensures v == PasswordForm <==> !isValidating && (error == "" || password != "")
    {
      if isValidating then ValidatingLink
      else if error != "" && password == "" then InvalidLink
      else PasswordForm
    }
  }

  /** A freshly mounted page after its session check: the invalid-link
      view exactly when there is no session, the form otherwise, and never
      the validating view. */
  method Mount(hasSession: bool) returns (view: View)
    ensures view == InvalidLink <==> !hasSession
    ensures view == PasswordForm <==> hasSession
  {
    var form := new ResetForm();
    form.CheckSession(hasSession);
    view := form.Render();
  }

  /** Submitting on a valid link keeps the form whenever a password was
      typed, its error shown inside the form; submitting with the password
      empty always fails a rule and, since the render rule reads an error
      with an empty password as a bad link, shows the invalid-link view.
      The page marks both fields `required`, so the browser blocks that
      empty submission: it happens only when the handler is called
      directly. */
  method SubmitOnValidLink(password: string, confirm: string, updateError: Option<string>)
    returns (view: View, updated: bool)
    ensures view == PasswordForm <==> password != ""
    ensures view == InvalidLink <==> password == ""
    ensures updated <==> password == confirm && |password| >= Signup.MinPasswordLength
  {
    var form := new ResetForm();
    form.CheckSession(true);
    form.password, form.confirmPassword := password, confirm;
    form.HandleUpdatePassword(updateError);
    view := form.Render();
    updated := form.updates != [];
  }
}
