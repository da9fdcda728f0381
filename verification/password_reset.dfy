/** The password-reset form reached from the recovery e-mail link.

    `handleReset` is modelled as the ordered list of effects it has: the
    state setters it calls, the password update it sends, and the delayed
    switch to the login view. `Apply` replays the setters on the form's
    state, so the message and the loading flag the user ends up with can
    be read off. A password's length is the number of its characters, as
    JavaScript's `length` counts them for text without surrogate pairs. */
module PasswordReset {
  import opened Ledger

  const MinLength: nat := 6
  const TooShortMessage: string := "Password must be at least 6 characters."
  const MismatchMessage: string := "Passwords don't match."
  const SuccessMessage: string := "Password reset successful! Redirecting to login..."
  const LoginView: string := "login"
  /** The delay before the login view is shown, in milliseconds. */
  const RedirectDelay: nat := 2000

  datatype Effect =
    | SetMessage(text: string)
    | SetLoading(on: bool)
    | UpdatePassword(password: string)
    | ScheduleView(view: string, delayMs: nat)

  /** The form's own state. */
  datatype FormState = FormState(message: string, loading: bool)

  const InitialForm: FormState := FormState("", false)

  /** `handleReset`: clear the message and set loading; reject a short
      password, then a mismatch, each without contacting the server;
      otherwise send the update, report its error or its success (the
      latter followed by a delayed switch to login); clear loading. */
  function HandleReset(newPassword: string, confirmPassword: string, updateError: Option<string>): (effects: seq<Effect>)
    ensures |effects| >= 4
    ensures effects[0] == SetMessage("") && effects[1] == SetLoading(true)
    ensures effects[|effects| - 1] == SetLoading(false)
    ensures (exists p :: UpdatePassword(p) in effects) <==> |newPassword| >= MinLength && newPassword == confirmPassword
    ensures forall p :: UpdatePassword(p) in effects ==> p == newPassword
    ensures (exists v, d :: ScheduleView(v, d) in effects) <==>
              |newPassword| >= MinLength && newPassword == confirmPassword && updateError.None?
  {
    var start := [SetMessage(""), SetLoading(true)];
    if |newPassword| < MinLength then
      start + [SetMessage(TooShortMessage), SetLoading(false)]
    else if newPassword != confirmPassword then
      start + [SetMessage(MismatchMessage), SetLoading(false)]
    else
      match updateError
      case Some(message) =>
        start + [UpdatePassword(newPassword), SetMessage(message), SetLoading(false)]
      case None =>
        assert ScheduleView(LoginView, RedirectDelay) in
          start + [UpdatePassword(newPassword), SetMessage(SuccessMessage), ScheduleView(LoginView, RedirectDelay), SetLoading(false)];
        start + [UpdatePassword(newPassword), SetMessage(SuccessMessage), ScheduleView(LoginView, RedirectDelay), SetLoading(false)]
  }

  /** One setter call; the update request and the scheduled view switch
      do not touch the form. */
  function Step(st: FormState, e: Effect): FormState {
    match e
    case SetMessage(text) => st.(message := text)
    case SetLoading(on) => st.(loading := on)
    case _ => st
  }

  /** Replays the effects in order. */
  function Apply(st: FormState, effects: seq<Effect>): FormState
    decreases |effects|
  {
    if effects == [] then st else Apply(Step(st, effects[0]), effects[1..])
  }

  /** The message a reset ends with: the length error first, then the
      mismatch error, then the server's error text or the success text. */
  function ExpectedMessage(newPassword: string, confirmPassword: string, updateError: Option<string>): string {
    if |newPassword| < MinLength then TooShortMessage
    else if newPassword != confirmPassword then MismatchMessage
    else if updateError.Some? then updateError.value
    else SuccessMessage
  }

  /** Replaying two lists of effects one after the other. */
  lemma {:induction false} ApplyConcat(st: FormState, a: seq<Effect>, b: seq<Effect>)
    ensures Apply(st, a + b) == Apply(Apply(st, a), b)
    decreases |a|
  {
    if a == [] {
      assert a + b == b;
    } else {
      assert (a + b)[0] == a[0];
      assert (a + b)[1..] == a[1..] + b;
      ApplyConcat(Step(st, a[0]), a[1..], b);
    }
  }

  /** After any submit the form is not loading and shows the message of
      the first check that failed, or the outcome of the update. */
  lemma ResetEndsSettled(st: FormState, newPassword: string, confirmPassword: string, updateError: Option<string>)
    ensures Apply(st, HandleReset(newPassword, confirmPassword, updateError))
            == FormState(ExpectedMessage(newPassword, confirmPassword, updateError), false)
  {
    var start := [SetMessage(""), SetLoading(true)];
    var cur := FormState("", true);
    assert Apply(st, start) == cur by {
      assert start[1..] == [SetLoading(true)];
    }
    if |newPassword| < MinLength {
      var tail := [SetMessage(TooShortMessage), SetLoading(false)];
      assert HandleReset(newPassword, confirmPassword, updateError) == start + tail;
      ApplyConcat(st, start, tail);
      assert tail[1..] == [SetLoading(false)];
      assert Apply(cur, tail) == Apply(FormState(TooShortMessage, true), [SetLoading(false)]);
      assert [SetLoading(false)][1..] == [];
    } else if newPassword != confirmPassword {
      var tail := [SetMessage(MismatchMessage), SetLoading(false)];
      assert HandleReset(newPassword, confirmPassword, updateError) == start + tail;
      ApplyConcat(st, start, tail);
      assert tail[1..] == [SetLoading(false)];
      assert Apply(cur, tail) == Apply(FormState(MismatchMessage, true), [SetLoading(false)]);
      assert [SetLoading(false)][1..] == [];
    } else if updateError.Some? {
      var tail := [UpdatePassword(newPassword), SetMessage(updateError.value), SetLoading(false)];
      assert HandleReset(newPassword, confirmPassword, updateError) == start + tail;
      ApplyConcat(st, start, tail);
      assert tail[1..] == [SetMessage(updateError.value), SetLoading(false)];
      assert [SetMessage(updateError.value), SetLoading(false)][1..] == [SetLoading(false)];
      assert [SetLoading(false)][1..] == [];
      assert Apply(cur, tail) == Apply(cur, [SetMessage(updateError.value), SetLoading(false)]);
      assert Apply(cur, tail) == Apply(FormState(updateError.value, true), [SetLoading(false)]);
    } else {
      var tail := [UpdatePassword(newPassword), SetMessage(SuccessMessage), ScheduleView(LoginView, RedirectDelay), SetLoading(false)];
      assert HandleReset(newPassword, confirmPassword, updateError) == start + tail;
      ApplyConcat(st, start, tail);
      var t1 := [SetMessage(SuccessMessage), ScheduleView(LoginView, RedirectDelay), SetLoading(false)];
      var t2 := [ScheduleView(LoginView, RedirectDelay), SetLoading(false)];
      assert tail[1..] == t1 && t1[1..] == t2 && t2[1..] == [SetLoading(false)];
      assert [SetLoading(false)][1..] == [];
      assert Apply(cur, tail) == Apply(cur, t1);
      assert Apply(cur, t1) == Apply(FormState(SuccessMessage, true), t2);
      assert Apply(cur, tail) == Apply(FormState(SuccessMessage, true), [SetLoading(false)]);
    }
  }

  /** A password shorter than six characters reports the length error even
      when the confirmation differs too: the length is checked first. */
  lemma LengthCheckedFirst(st: FormState, newPassword: string, confirmPassword: string, updateError: Option<string>)
    requires |newPassword| < MinLength
    ensures Apply(st, HandleReset(newPassword, confirmPassword, updateError)).message == TooShortMessage
    ensures forall p :: UpdatePassword(p) !in HandleReset(newPassword, confirmPassword, updateError)
  {
    ResetEndsSettled(st, newPassword, confirmPassword, updateError);
  }

  /** The parent's view changes only through the delayed switch, and only
      to the login view. */
  lemma OnlyLoginIsScheduled(newPassword: string, confirmPassword: string, updateError: Option<string>)
    ensures forall v, d :: ScheduleView(v, d) in HandleReset(newPassword, confirmPassword, updateError) ==>
              v == LoginView && d == RedirectDelay
  {
  }
}
