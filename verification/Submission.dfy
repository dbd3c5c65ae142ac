/** `handleSubmit`: the session guard, payload assembly, one request, and
    the handling of its outcome. The request itself is an input: the
    outcome it produced. */
module Submission {
  import opened JsValues
  import opened IssueDraft
  import opened IssuePayload

  /** The screen's local state that a submission reads or writes: the draft
      and the visibility of the category and assigned-person menus. */
  datatype Form = Form(draft: Draft, categoryMenuVisible: bool, assignedPersonMenuVisible: bool)

  /** The form on mount and after a successful submission. */
  const InitialForm: Form := Form(Empty, false, false)

  /** What the one request produced: a 2xx response; a non-2xx response
      whose JSON body has a `message` string or none (absent or null); or
      a thrown error with its message (transport failure, a body that is not
      JSON, or a non-2xx body that is JSON `null`). */
  datatype Outcome = Ok | NotOk(bodyMessage: Option<string>) | Thrown(message: string)

  /** Feedback and diagnostics the screen emits. */
  datatype Effect =
    | Toast(notice: string)
    | AlertDialog(title: string, message: string)
    | ConsoleError(tag: string, detail: string)

  const SessionMissingNotice: string := "User session missing. Please log in again."
  const SuccessNotice: string := "Issue submitted successfully!"
  const ErrorTitle: string := "Error submitting issue:"
  const GenericFailure: string := "Submission failed"
  const LogLabel: string := "Error:"

  /** The result of one submit: the new form, the effects in the order they
      happen, and the body sent, if a request was made. */
  datatype SubmitResult = SubmitResult(form: Form, effects: seq<Effect>, sent: Option<Payload>)

  /** `err.message` in the catch block for a failed outcome: the body's
      `message` when truthy, else the generic text; or the thrown message. */
  function FailureMessage(o: Outcome): (m: string)
    requires !o.Ok?
    ensures o.NotOk? && Truthy(o.bodyMessage) ==> m == o.bodyMessage.value
    ensures o.NotOk? && !Truthy(o.bodyMessage) ==> m == GenericFailure
    ensures o.Thrown? ==> m == o.message
  {
    if o.NotOk? then OrElse(o.bodyMessage, GenericFailure) else o.message
  }

  /** Whether an effect is something the user sees. */
  predicate UserVisible(e: Effect) {
    e.Toast? || e.AlertDialog?
  }

  /** The user-visible effects of a trace, in order. */
  function Notices(effects: seq<Effect>): (r: seq<Effect>)
    ensures |r| <= |effects|
    ensures forall e :: e in r <==> e in effects && UserVisible(e)
  {
    if effects == [] then []
    else (if UserVisible(effects[0]) then [effects[0]] else []) + Notices(effects[1..])
  }

  lemma {:induction false} NoticesAppend(a: seq<Effect>, b: seq<Effect>)
    ensures Notices(a + b) == Notices(a) + Notices(b)
    decreases |a|
  {
    if a != [] {
      var head: seq<Effect> := if UserVisible(a[0]) then [a[0]] else [];
      assert (a + b)[0] == a[0];
      assert (a + b)[1..] == a[1..] + b;
      NoticesAppend(a[1..], b);
      calc {
        Notices(a + b);
        head + Notices(a[1..] + b);
        head + (Notices(a[1..]) + Notices(b));
        (head + Notices(a[1..])) + Notices(b);
        Notices(a) + Notices(b);
      }
    } else {
      assert a + b == b;
    }
  }

  lemma NoticesOfOne(e: Effect)
    requires UserVisible(e)
    ensures Notices([e]) == [e]
  {
  }

  lemma NoticesOfLogThenAlert(tag: string, m: string, title: string)
    ensures Notices([ConsoleError(tag, m), AlertDialog(title, m)]) == [AlertDialog(title, m)]
  {
  }

  /** `handleSubmit` run to completion with the request producing `o`. */
  function Submit(f: Form, s: Session, o: Outcome): (r: SubmitResult)
    // a request is made exactly when both session strings are non-empty, and it carries the draft
    ensures r.sent.Some? <==> Present(s)
    ensures r.sent == (if Present(s) then Some(BuildPayload(f.draft, s)) else None)
    ensures r.sent.Some? ==> ParsePayload(r.sent.value) == Some((f.draft, s))
    // the user is told exactly one thing per submission
    ensures |Notices(r.effects)| == 1
    ensures !Present(s) ==> r.effects == [Toast(SessionMissingNotice)]
    ensures Present(s) && o.Ok? ==> r.effects == [Toast(SuccessNotice)]
    // exactly one success notice when, and only when, the request succeeded
    ensures multiset(r.effects)[Toast(SuccessNotice)] == (if Present(s) && o.Ok? then 1 else 0)
    // success empties the draft and closes both menus; everything else keeps the form
    ensures Present(s) && o.Ok? ==>
              r.form.draft == Empty && !r.form.categoryMenuVisible && !r.form.assignedPersonMenuVisible
    ensures !(Present(s) && o.Ok?) ==> r.form == f
    // a failure is logged first, then shown in an alert with the caught message
    ensures Present(s) && !o.Ok? ==>
              r.effects == [ConsoleError(LogLabel, FailureMessage(o)), AlertDialog(ErrorTitle, FailureMessage(o))]
    ensures Present(s) && !o.Ok? ==> Notices(r.effects) == [AlertDialog(ErrorTitle, FailureMessage(o))]
  {
    if !Present(s) then
      NoticesOfOne(Toast(SessionMissingNotice));
      SubmitResult(f, [Toast(SessionMissingNotice)], None)
    else
      var body := BuildPayload(f.draft, s);
      ParseBuildRoundTrip(f.draft, s);
      match o
      case Ok =>
        NoticesOfOne(Toast(SuccessNotice));
        SubmitResult(Form(Empty, false, false), [Toast(SuccessNotice)], Some(body))
      case _ =>
        var m := FailureMessage(o);
        NoticesOfLogThenAlert(LogLabel, m, ErrorTitle);
        SubmitResult(f, [ConsoleError(LogLabel, m), AlertDialog(ErrorTitle, m)], Some(body))
  }

  /** Reset is idempotent: a second successful submission leaves the form
      exactly as the first one did, whatever the form held before. */
  lemma SuccessfulSubmitIsIdempotent(f: Form, s: Session)
    requires Present(s)
    ensures Submit(Submit(f, s, Ok).form, s, Ok).form == Submit(f, s, Ok).form == InitialForm
  {
  }

  /** A failed submission keeps the draft, so retrying sends the same body. */
  lemma RetryResendsSameBody(f: Form, s: Session, failed: Outcome, next: Outcome)
    requires !failed.Ok?
    ensures Submit(Submit(f, s, failed).form, s, next).sent == Submit(f, s, failed).sent
  {
  }
}
