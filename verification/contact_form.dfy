/** The contact form: three text fields, an ordered first-failure-wins
    validation, and the submit lifecycle around one external send whose
    outcome is a parameter of the model. */
module ContactForm {
  import opened Wrappers
  import opened JsText
  import opened EmailPattern

  /** The form's three inputs, keyed by their `name` attributes. */
  datatype Field = YourName | YourEmail | Message

  datatype FormData = FormData(yourName: string, yourEmail: string, message: string)

  const EmptyForm := FormData("", "", "")

  function Get(f: FormData, field: Field): string {
    match field
    case YourName => f.yourName
    case YourEmail => f.yourEmail
    case Message => f.message
  }

  /** A change event on one input overwrites that field and no other. */
  function HandleChange(f: FormData, field: Field, value: string): (r: FormData)
    ensures Get(r, field) == value
    ensures forall other :: other != field ==> Get(r, other) == Get(f, other)
  {
    match field
    case YourName => f.(yourName := value)
    case YourEmail => f.(yourEmail := value)
    case Message => f.(message := value)
  }

  /** The three reasons validation can reject the form. */
  datatype ValidationError = MissingName | InvalidEmail | MissingMessage {
    /** The text shown to the user. */
    function Text(): string {
      match this
      case MissingName => "Please enter your name."
      case InvalidEmail => "Please enter a valid email."
      case MissingMessage => "Please enter a message."
    }
  }

  /** The first failing check, in the order name, e-mail, message; `None`
      when the form may be sent. The name and message are trimmed; the
      e-mail is not. */
  function Validate(f: FormData): (r: Option<ValidationError>)
    ensures r == Some(MissingName) <==> IsBlank(f.yourName)
    ensures r == Some(InvalidEmail) <==> !IsBlank(f.yourName) && !MatchesPattern(f.yourEmail)
    ensures r == Some(MissingMessage) <==>
              !IsBlank(f.yourName) && MatchesPattern(f.yourEmail) && IsBlank(f.message)
    ensures r == None <==>
              !IsBlank(f.yourName) && MatchesPattern(f.yourEmail) && !IsBlank(f.message)
  {
    IsValidEmailMatchesPattern(f.yourEmail);
    if Trim(f.yourName) == [] then Some(MissingName)
    else if !IsValidEmail(f.yourEmail) then Some(InvalidEmail)
    else if Trim(f.message) == [] then Some(MissingMessage)
    else None
  }

  datatype NoticeKind = Success | Error

  /** The status line under the form (`formStatus`). */
  datatype Notice = Notice(kind: NoticeKind, text: string)

  const SentText := "Message sent successfully!"
  const SendFailedText := "Failed to send message. Please try again."

  /** The outcome of the external mail-relay call, chosen by the outside world. */
  datatype SendOutcome = Delivered | SendFailed

  /** Everything the component keeps: `formData`, `isSubmitting`, `formStatus`. */
  datatype ContactState = ContactState(form: FormData, isSubmitting: bool, status: Option<Notice>)

  const InitialState := ContactState(EmptyForm, false, None)

  /** What a submit event does up to the moment the send is awaited. The
      second component is the form data handed to the send, when one is
      started. While a send is in flight the submit button is disabled, so
      the event does not reach the handler at all. */
  function BeginSubmit(s: ContactState): (r: (ContactState, Option<FormData>))
    ensures s.isSubmitting ==> r == (s, None)
    ensures !s.isSubmitting && Validate(s.form).Some? ==>
              && r.1 == None
              && r.0 == s.(status := Some(Notice(Error, Validate(s.form).value.Text())))
    ensures !s.isSubmitting && Validate(s.form) == None ==>
              && r.1 == Some(s.form)
              && r.0 == s.(isSubmitting := true, status := None)
    ensures r.1.Some? ==> Validate(r.1.value) == None
  {
    if s.isSubmitting then (s, None)
    else
      match Validate(s.form)
      case Some(err) => (s.(status := Some(Notice(Error, err.Text()))), None)
      case None => (s.(isSubmitting := true, status := None), Some(s.form))
  }

  /** The continuation after the awaited send: on delivery the fields are
      cleared and a success notice shown; on failure the fields are kept
      and an error notice shown; in both cases submitting ends. */
  function FinishSubmit(s: ContactState, outcome: SendOutcome): (r: ContactState)
    ensures !r.isSubmitting
    ensures outcome == Delivered ==> r.form == EmptyForm && r.status == Some(Notice(Success, SentText))
    ensures outcome == SendFailed ==> r.form == s.form && r.status == Some(Notice(Error, SendFailedText))
  {
    match outcome
    case Delivered =>
      ContactState(EmptyForm, false, Some(Notice(Success, SentText)))
    case SendFailed =>
      s.(isSubmitting := false, status := Some(Notice(Error, SendFailedText)))
  }

  /** One whole submit, when nothing else happens while the send is awaited. */
  function HandleSubmit(s: ContactState, outcome: SendOutcome): (r: ContactState)
    ensures s.isSubmitting ==> r == s
    ensures !s.isSubmitting && Validate(s.form).Some? ==>
              && r.form == s.form
              && !r.isSubmitting
              && r.status == Some(Notice(Error, Validate(s.form).value.Text()))
    ensures !s.isSubmitting && Validate(s.form) == None && outcome == Delivered ==>
              && r.form == EmptyForm
              && !r.isSubmitting
              && r.status == Some(Notice(Success, SentText))
    ensures !s.isSubmitting && Validate(s.form) == None && outcome == SendFailed ==>
              && r.form == s.form
              && !r.isSubmitting
              && r.status == Some(Notice(Error, SendFailedText))
    ensures r.form != s.form ==> r.form == EmptyForm && r.status == Some(Notice(Success, SentText))
  {
    var (mid, sent) := BeginSubmit(s);
    if sent.Some? then FinishSubmit(mid, outcome) else mid
  }

  /** Worked examples: a missing name wins over everything else, an address
      without `@` is rejected, and a complete form passes. */
  lemma ValidationExamples()
    ensures Validate(FormData("", "a@b.com", "hi")) == Some(MissingName)
    ensures Validate(FormData("Jo", "not-an-email", "hi")) == Some(InvalidEmail)
    ensures Validate(FormData("Jo", "a@b.com", "hi")) == None
  {
    var bad := "not-an-email";
    assert forall k :: 0 <= k < |bad| ==> bad[k] != '@';
    var good := "a@b.com";
    assert good[1] == '@' && good[3] == '.';
    assert good[..1] == "a" && good[2..3] == "b" && good[4..] == "com";
    assert MatchesPattern(good);
    assert !IsBlank("Jo") by { assert !IsWhitespace("Jo"[0]); }
    assert !IsBlank("hi") by { assert !IsWhitespace("hi"[0]); }
  }

  /** The events the component reacts to. `Settled` is the completion of the
      send in flight; `NoticeExpired` is a notice timer firing, which clears
      whatever notice is showing. */
  datatype Event =
    | Edit(field: Field, value: string)
    | SubmitClick
    | Settled(outcome: SendOutcome)
    | NoticeExpired

  /** One event. The second component is the form data sent, when the
      event started a send. A completion only arrives for a send in flight,
      so one arriving when none is in flight is ignored. */
  function Step(s: ContactState, e: Event): (r: (ContactState, Option<FormData>))
    ensures r.1.Some? ==> e == SubmitClick && !s.isSubmitting && r.1 == Some(s.form)
    ensures r.1.Some? ==> Validate(r.1.value) == None
    ensures r.1.Some? <==> !s.isSubmitting && r.0.isSubmitting
    ensures s.isSubmitting && !r.0.isSubmitting <==> e.Settled? && s.isSubmitting
    ensures r.0.form != s.form ==> e.Edit? || e == Settled(Delivered)
  {
    match e
    case Edit(field, value) => (s.(form := HandleChange(s.form, field, value)), None)
    case SubmitClick => BeginSubmit(s)
    case Settled(outcome) => (if s.isSubmitting then FinishSubmit(s, outcome) else s, None)
    case NoticeExpired => (s.(status := None), None)
  }

  /** The outcome of a run of events: the final state, every payload sent,
      in order, and the number of sends that completed. */
  datatype Trace = Trace(last: ContactState, sent: seq<FormData>, completed: nat)

  function Run(s: ContactState, events: seq<Event>): (t: Trace)
    decreases |events|
  {
    if |events| == 0 then Trace(s, [], 0)
    else
      var prior := Run(s, events[..|events| - 1]);
      var e := events[|events| - 1];
      var (next, payload) := Step(prior.last, e);
      Trace(
        next,
        if payload.Some? then prior.sent + [payload.value] else prior.sent,
        if e.Settled? && prior.last.isSubmitting then prior.completed + 1 else prior.completed)
  }

  /** From any idle state, at most one send is ever in flight: the sends
      started are the sends completed plus one exactly while submitting,
      and every payload sent passed validation. */
  lemma {:induction false} SingleSendInFlight(s: ContactState, events: seq<Event>)
    requires !s.isSubmitting
    ensures |Run(s, events).sent| == Run(s, events).completed + (if Run(s, events).last.isSubmitting then 1 else 0)
    ensures forall k :: 0 <= k < |Run(s, events).sent| ==> Validate(Run(s, events).sent[k]) == None
    decreases |events|
  {
    if |events| > 0 {
      var init := events[..|events| - 1];
      SingleSendInFlight(s, init);
      var prior := Run(s, init);
      var step := Step(prior.last, events[|events| - 1]);
      var t := Run(s, events);
      assert t.last == step.0;
      if step.1.Some? {
        assert t.sent == prior.sent + [step.1.value];
        forall k | 0 <= k < |t.sent|
          ensures Validate(t.sent[k]) == None
        {
          if k < |prior.sent| {
            assert t.sent[k] == prior.sent[k];
          }
        }
      } else {
        assert t.sent == prior.sent;
      }
    }
  }
}
