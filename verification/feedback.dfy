/**
  The feedback dialog and the page's submit handler: the length gate, the
  status written around the send, and what success and failure leave behind.
 */
module Feedback {
  import opened Toasts

  /** `feedbackStatus`. */
  datatype Status = Idle | Sending | Success | Error

  /** How the send ended: a successful result, an unsuccessful one, or a thrown error. */
  datatype SendResult = Delivered | Unsuccessful(error: string) | Threw(error: string)

  /** The shortest feedback the page accepts. */
  const MinLength: nat := 5

  /** The page's feedback state, with the toast queue it writes to and the number of sends awaiting their result. */
  datatype Page = Page(dialogOpen: bool, feedback: string, status: Status, toasts: Queue, inFlight: nat)

  const InitialPage: Page := Page(false, "", Idle, Empty, 0)

  const TooShortToast: Toast := Toast("Error", "Feedback must be at least 5 characters long.", Destructive)
  const ThanksToast: Toast := Toast("Thank you!", "Your feedback has been submitted successfully.", Default)
  const FailedToast: Toast := Toast("Error", "Failed to send feedback. Please try again later.", Destructive)

  /** The dialog's submit button is disabled while sending or while the text is too short. */
  predicate SubmitDisabled(status: Status, feedback: string) {
    status == Sending || |feedback| < MinLength
  }

  /** The inline warning shows for a non-empty text that is still too short. */
  predicate WarningShown(feedback: string) {
    0 < |feedback| < MinLength
  }

  /** The submit button's label. */
  function SubmitLabel(status: Status): (text: string)
    ensures text == "Sending..." <==> status == Sending
    ensures text == "Submit" <==> status != Sending
  {
    if status == Sending then "Sending..." else "Submit"
  }

  /** A visible warning always comes with a disabled button; an empty text disables it without a warning. */
  lemma WarningMeansDisabled(status: Status, feedback: string)
    ensures WarningShown(feedback) ==> SubmitDisabled(status, feedback)
    ensures feedback == "" ==> SubmitDisabled(status, feedback) && !WarningShown(feedback)
  {
  }

  /** The effect of part of a submit: the page afterwards, every status written in order, and every text sent. */
  datatype Submission = Submission(page: Page, statusWrites: seq<Status>, sent: seq<string>)

  /**
    `handleFeedbackSubmit` up to its `await`. A text shorter than five
    characters gets an error toast and nothing else. Otherwise the status
    becomes 'sending' and the text is sent.
   */
  function Begin(p: Page): (r: Submission)
    ensures |p.feedback| < MinLength ==>
      r == Submission(p.(toasts := Push(p.toasts, TooShortToast)), [], [])
    ensures |p.feedback| >= MinLength ==>
      r.sent == [p.feedback] && r.statusWrites == [Sending] &&
      r.page == p.(status := Sending, inFlight := p.inFlight + 1)
  {
    if |p.feedback| < MinLength then
      Submission(p.(toasts := Push(p.toasts, TooShortToast)), [], [])
    else
      Submission(p.(status := Sending, inFlight := p.inFlight + 1), [Sending], [p.feedback])
  }

  /**
    The rest of `handleFeedbackSubmit`, once the send settles. Success clears
    the text and closes the dialog; failure (an unsuccessful result or a throw)
    keeps both and shows an error. The 'finally' block then writes 'idle'. All
    of this runs in one go after the `await`, so 'success' and 'error' are
    written but never rendered.
   */
  function Settle(p: Page, result: SendResult): (r: Submission)
    requires p.inFlight > 0
    ensures r.sent == [] && r.page.status == Idle && r.page.inFlight == p.inFlight - 1
    ensures result.Delivered? ==>
      r.statusWrites == [Success, Idle] && r.page.feedback == "" && !r.page.dialogOpen &&
      r.page.toasts == Push(p.toasts, ThanksToast)
    ensures !result.Delivered? ==>
      r.statusWrites == [Error, Idle] && r.page.feedback == p.feedback && r.page.dialogOpen == p.dialogOpen &&
      r.page.toasts == Push(p.toasts, FailedToast)
  {
    match result
    case Delivered =>
      Submission(Page(false, "", Idle, Push(p.toasts, ThanksToast), p.inFlight - 1), [Success, Idle], [])
    case _ =>
      Submission(p.(status := Idle, toasts := Push(p.toasts, FailedToast), inFlight := p.inFlight - 1), [Error, Idle], [])
  }

  /**
    The whole of `handleFeedbackSubmit` when nothing else happens during the
    send: the length check, then 'sending', one send, the outcome and 'idle'.
   */
  function Submit(p: Page, result: SendResult): (r: Submission)
    ensures |p.feedback| < MinLength ==>
      r == Submission(p.(toasts := Push(p.toasts, TooShortToast)), [], [])
    ensures |p.feedback| >= MinLength ==>
      r.sent == [p.feedback] && |r.statusWrites| == 3 &&
      r.statusWrites[0] == Sending && r.statusWrites[2] == Idle &&
      r.page.status == Idle && r.page.inFlight == p.inFlight
    ensures |p.feedback| >= MinLength && result.Delivered? ==>
      r.statusWrites[1] == Success && r.page.feedback == "" && !r.page.dialogOpen &&
      r.page.toasts == Push(p.toasts, ThanksToast)
    ensures |p.feedback| >= MinLength && !result.Delivered? ==>
      r.statusWrites[1] == Error && r.page.feedback == p.feedback && r.page.dialogOpen == p.dialogOpen &&
      r.page.toasts == Push(p.toasts, FailedToast)
  {
    var b := Begin(p);
    if |b.sent| == 0 then b
    else
      var s := Settle(b.page, result);
      Submission(s.page, b.statusWrites + s.statusWrites, b.sent + s.sent)
  }

  /** A click the dialog lets through always reaches the send: the page's own length check never fires then. */
  lemma EnabledSubmitAlwaysSends(p: Page)
    requires !SubmitDisabled(p.status, p.feedback)
    ensures Begin(p).sent == [p.feedback]
    ensures Begin(p).page.toasts == p.toasts && Begin(p).page.status == Sending
  {
  }

  /** What the user does with the dialog, a send settling, or a toast timer firing. */
  datatype Action =
    | OpenDialog
    | Type(text: string)
    | Cancel
    | ClickSubmit
    | SendSettled(result: SendResult)
    | ToastTimer

  /**
    The page after one action. A click on a disabled button does nothing, and
    a send can only settle if one is awaiting its result.
   */
  function Act(p: Page, a: Action): (r: Page)
    ensures a.OpenDialog? ==> r == p.(dialogOpen := true)
    ensures a.Type? ==> r == p.(feedback := a.text)
    ensures a.Cancel? ==> !r.dialogOpen && r.feedback == p.feedback && r.status == p.status && r.inFlight == p.inFlight
    ensures a.ClickSubmit? && SubmitDisabled(p.status, p.feedback) ==> r == p
    ensures a.ClickSubmit? && !SubmitDisabled(p.status, p.feedback) ==>
      r.status == Sending && r.inFlight == p.inFlight + 1 && r.feedback == p.feedback && r.toasts == p.toasts
    ensures a.SendSettled? && p.inFlight == 0 ==> r == p
    ensures a.SendSettled? && p.inFlight > 0 ==> r.status == Idle && r.inFlight == p.inFlight - 1
    ensures a.ToastTimer? ==> r.toasts == Toasts.Step(p.toasts, TimerFired) && r.(toasts := p.toasts) == p
  {
    match a
    case OpenDialog => p.(dialogOpen := true)
    case Type(text) => p.(feedback := text)
    case Cancel => p.(dialogOpen := false)
    case ClickSubmit => if SubmitDisabled(p.status, p.feedback) then p else Begin(p).page
    case SendSettled(result) => if p.inFlight > 0 then Settle(p, result).page else p
    case ToastTimer => p.(toasts := Toasts.Step(p.toasts, TimerFired))
  }

  /** The texts one action sends. */
  function ActSends(p: Page, a: Action): seq<string> {
    if a == ClickSubmit && !SubmitDisabled(p.status, p.feedback) then Begin(p).sent else []
  }

  /** Cancel always closes the dialog and keeps the text. */
  lemma CancelCloses(p: Page)
    ensures !Act(p, Cancel).dialogOpen && Act(p, Cancel).feedback == p.feedback
  {
  }

  /** An enabled click followed by its result does what the whole handler does. */
  lemma ClickThenSettleIsSubmit(p: Page, result: SendResult)
    requires !SubmitDisabled(p.status, p.feedback)
    ensures Act(Act(p, ClickSubmit), SendSettled(result)) == Submit(p, result).page
    ensures ActSends(p, ClickSubmit) == Submit(p, result).sent
  {
  }

  /**
    A success clears the text box even when the user typed something new
    while the earlier text was being sent.
   */
  lemma SuccessClearsTextTypedDuringSend(p: Page, typed: string)
    requires !SubmitDisabled(p.status, p.feedback)
    ensures Act(Act(Act(p, ClickSubmit), Type(typed)), SendSettled(Delivered)).feedback == ""
    ensures Act(Act(Act(p, ClickSubmit), Type(typed)), SendSettled(Unsuccessful("x"))).feedback == typed
  {
  }

  /** The page after a history of actions. */
  function RunPage(actions: seq<Action>): Page
    decreases |actions|
  {
    if |actions| == 0 then InitialPage else Act(RunPage(actions[..|actions| - 1]), actions[|actions| - 1])
  }

  /** Every text sent over a history, in order. */
  function Sends(actions: seq<Action>): seq<string>
    decreases |actions|
  {
    if |actions| == 0 then []
    else
      var before := actions[..|actions| - 1];
      Sends(before) + ActSends(RunPage(before), actions[|actions| - 1])
  }

  /**
    At most one send is ever awaiting its result, and exactly while the status
    is 'sending'; the status seen between actions is only ever 'idle' or
    'sending'.
   */
  lemma {:induction false} AtMostOneSendInFlight(actions: seq<Action>)
    ensures RunPage(actions).inFlight <= 1
    ensures RunPage(actions).status == Sending <==> RunPage(actions).inFlight == 1
    ensures RunPage(actions).status == Idle || RunPage(actions).status == Sending
    decreases |actions|
  {
    if |actions| > 0 {
      AtMostOneSendInFlight(actions[..|actions| - 1]);
    }
  }

  /** So while a send is awaiting its result, another click neither sends nor changes the page. */
  lemma NoSecondSendWhileSending(actions: seq<Action>)
    requires RunPage(actions).inFlight > 0
    ensures RunPage(actions + [ClickSubmit]) == RunPage(actions)
    ensures Sends(actions + [ClickSubmit]) == Sends(actions)
  {
    AtMostOneSendInFlight(actions);
    var a := actions + [ClickSubmit];
    assert a[..|a| - 1] == actions;
  }

  /** Every text the page ever sends is at least five characters long. */
  lemma {:induction false} SentTextsAreLongEnough(actions: seq<Action>)
    ensures forall j :: 0 <= j < |Sends(actions)| ==> |Sends(actions)[j]| >= MinLength
    decreases |actions|
  {
    if |actions| > 0 {
      SentTextsAreLongEnough(actions[..|actions| - 1]);
    }
  }

  /** The 'sending' state is reachable: open, type five characters, click. */
  lemma SendingIsReachable()
    ensures var p := RunPage([OpenDialog, Type("hello"), ClickSubmit]);
      p.status == Sending && SubmitLabel(p.status) == "Sending..." && SubmitDisabled(p.status, p.feedback)
  {
    var a := [OpenDialog, Type("hello"), ClickSubmit];
    assert a[..2][..1] == [OpenDialog];
    assert a[..2] == [OpenDialog, Type("hello")];
  }
}
