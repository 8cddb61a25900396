/** The sign-in modal of the social clone: `onSubmit` checks the two fields,
    calls the credentials sign-in, shows a toast and closes the modal on
    success, clearing its loading flag on every path; `onToggle` switches to
    the register modal unless a submission is in flight. What the sign-in
    answers is an input. */
module LoginModal {
  import opened Common
  import ModalStore

  /** What `signIn('credentials', …)` did: resolved to a result whose
      `error` field may be absent, resolved to `undefined`, or threw. */
  datatype SignInOutcome = Answered(error: Option<string>) | Undefined | Threw

  datatype Toast = ErrorToast(message: string) | SuccessToast(message: string)

  /** `result?.error` is truthy. */
  predicate Rejected(outcome: SignInOutcome) {
    outcome.Answered? && outcome.error.Some? && outcome.error.value != ""
  }

  /** What one submission does: the toast it shows, whether it calls the
      sign-in, and whether it closes the login modal. */
  datatype Submission = Submission(toast: Toast, callsSignIn: bool, closes: bool)

  /** `onSubmit`, given the fields and what the sign-in would answer. */
  function Submit(email: string, password: string, outcome: SignInOutcome): (s: Submission)
    ensures email == "" || password == "" ==>
              s == Submission(ErrorToast("Email and password are required!"), false, false)
    ensures email != "" && password != "" && '@' !in email ==>
              s == Submission(ErrorToast("Please enter a valid email!"), false, false)
    ensures s.callsSignIn <==> email != "" && password != "" && '@' in email
    ensures s.closes <==> s.callsSignIn && !outcome.Threw? && !Rejected(outcome)
    ensures s.toast.SuccessToast? <==> s.closes
    ensures s.callsSignIn && outcome.Threw? ==> s.toast == ErrorToast("Something went wrong.")
    ensures s.callsSignIn && Rejected(outcome) ==> s.toast == ErrorToast("Invalid credentials!")
  {
    if email == "" || password == "" then Submission(ErrorToast("Email and password are required!"), false, false)
    else if '@' !in email then Submission(ErrorToast("Please enter a valid email!"), false, false)
    else if outcome.Threw? then Submission(ErrorToast("Something went wrong."), true, false)
    else if Rejected(outcome) then Submission(ErrorToast("Invalid credentials!"), true, false)
    else Submission(SuccessToast("Logged in successfully."), true, true)
  }

  /** The answer of the sign-in matters only once both checks pass. */
  lemma OutcomeIgnoredBeforeSignIn(email: string, password: string, a: SignInOutcome, b: SignInOutcome)
    requires !Submit(email, password, a).callsSignIn
    ensures Submit(email, password, a) == Submit(email, password, b)
  {
  }

  /** The form's state. */
  class Form {
    var email: string
    var password: string
    var isLoading: bool

    constructor()
      ensures email == "" && password == "" && !isLoading
    {
      email, password, isLoading := "", "", false;
    }

    /** `onSubmit`: raises the flag, runs the checks and the sign-in, and
        clears the flag in `finally`. */
    method OnSubmit(modals: ModalStore.Store, outcome: SignInOutcome) returns (toast: Toast, calledSignIn: bool)
      modifies this, modals
      ensures !isLoading && email == old(email) && password == old(password)
      ensures (toast, calledSignIn) == (Submit(email, password, outcome).toast, Submit(email, password, outcome).callsSignIn)
      ensures modals.Snapshot() == if Submit(email, password, outcome).closes
                                   then ModalStore.Apply(old(modals.Snapshot()), ModalStore.CloseLogin)
                                   else old(modals.Snapshot())
    {
      isLoading := true;
      calledSignIn := false;
      if email == "" || password == "" {
        toast := ErrorToast("Email and password are required!");
      } else if '@' !in email {
        toast := ErrorToast("Please enter a valid email!");
      } else {
        calledSignIn := true;
        if outcome.Threw? {
          toast := ErrorToast("Something went wrong.");
        } else if outcome.Answered? && outcome.error.Some? && outcome.error.value != "" {
          toast := ErrorToast("Invalid credentials!");
        } else {
          toast := SuccessToast("Logged in successfully.");
          modals.CloseLogin();
        }
      }
      isLoading := false;
    }

    /** `onToggle`: no effect while a submission is in flight. */
    method OnToggle(modals: ModalStore.Store)
      modifies modals
      ensures modals.Snapshot() == if isLoading then old(modals.Snapshot())
                                   else ModalStore.Apply(old(modals.Snapshot()), ModalStore.ToggleModals)
    {
      if isLoading {
        return;
      }
      modals.ToggleModals();
    }
  }
}
