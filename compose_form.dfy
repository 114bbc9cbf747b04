/** The compose form of `src/components/Layout/ComposeForm.tsx`: the state
    it keeps, and `sendEmail`, which checks the form, posts it to the send
    route, and then resets the form or reports why the send failed. The
    outside world is a set of inputs: the text the rejection service gives,
    what the date conversion of the schedule input gives, and what the POST
    gives back. */
module ComposeForm {
  import opened JsValue
  import SendRoute

  /** A row of `sender_identities`. */
  datatype Sender = Sender(id: int, name: string, address: string, verified: bool)

  /** The JSON the form posts; `scheduledAt` is left out when `None`. */
  datatype Payload = Payload(from: string, fromName: string, email: string, subject: string,
                             message: string, scheduledAt: Option<string>)

  /** `new Date(scheduledAt).toISOString()`: the ISO text, or the message of
      the error it throws for a date it cannot read. */
  datatype Conversion = Iso(text: string) | InvalidDate(message: string)

  /** `data?.reason` and `data?.error` of the reply's JSON. */
  datatype ReplyJson = ReplyJson(reason: Field, error: Field)

  /** What the POST gives back: a response and its JSON, or the message of
      the error thrown by `fetch` or by `res.json()`. */
  datatype FetchResult = Replied(ok: bool, data: ReplyJson) | FetchFailed(message: string)

  /** The toast shown, if any. */
  datatype Notice = NoNotice | Success(text: string) | Failure(text: string)

  datatype FormState = FormState(loading: bool, senders: seq<Sender>, from: string, to: string,
                                 subject: string, message: string, scheduledAt: string,
                                 sentCount: nat)

  /** The new state, the payload posted (if any) and the toast. */
  datatype Step = Step(state: FormState, posted: Option<Payload>, notice: Notice)

  const FailedToSend := "Failed to send email"
  const RequiredFields := " (From, To, and Message are required)"
  const EmailSent := "Email sent"

  /** `senders.find(s => s.address === from)`. */
  function FindSender(senders: seq<Sender>, from: string): (r: Option<Sender>)
    ensures r.Some? ==> exists k :: 0 <= k < |senders| && senders[k] == r.value && r.value.address == from
                                    && forall j :: 0 <= j < k ==> senders[j].address != from
    ensures r.None? <==> forall k :: 0 <= k < |senders| ==> senders[k].address != from
    decreases |senders|
  {
    if senders == [] then None
    else if senders[0].address == from then Some(senders[0])
    else
      var r := FindSender(senders[1..], from);
      assert forall k :: 1 <= k < |senders| ==> senders[k] == senders[1..][k - 1];
      r
  }

  /** `sender?.name || 'Mailico'`. */
  function FromNameOf(senders: seq<Sender>, from: string): string {
    match FindSender(senders, from)
    case None => SendRoute.DefaultFromName
    case Some(s) => if s.name != "" then s.name else SendRoute.DefaultFromName
  }

  /** The display name is the non-empty name of the first sender whose
      address is `from`, and `Mailico` when no sender has that address or
      the first such sender has no name. */
  lemma FromNameIsFirstMatch(senders: seq<Sender>, from: string, k: int)
    requires 0 <= k < |senders| && senders[k].address == from
    requires forall j :: 0 <= j < k ==> senders[j].address != from
    ensures FromNameOf(senders, from) == (if senders[k].name != "" then senders[k].name else SendRoute.DefaultFromName)
  {
    var r := FindSender(senders, from);
    var i :| 0 <= i < |senders| && senders[i] == r.value && r.value.address == from
             && forall j :: 0 <= j < i ==> senders[j].address != from;
    assert i == k;
  }

  lemma FromNameWithoutMatch(senders: seq<Sender>, from: string)
    requires forall k :: 0 <= k < |senders| ==> senders[k].address != from
    ensures FromNameOf(senders, from) == SendRoute.DefaultFromName
  {
  }

  /** The payload of a form that passed the check, with the schedule input
      converted when it is not empty. */
  function PayloadOf(s: FormState, scheduled: Option<string>): Payload {
    Payload(s.from, FromNameOf(s.senders, s.from), s.to, s.subject, s.message, scheduled)
  }

  /** `data?.reason || data?.error || 'Failed to send email'`. */
  function ApiError(data: ReplyJson): string {
    if Truthy(data.reason) then data.reason.s
    else if Truthy(data.error) then data.error.s
    else FailedToSend
  }

  /** `sendEmail` from state `s`: `rejection` is what `fetchRejectionReason`
      gives on the path that asks for it. */
  function SendStep(s: FormState, rejection: string, conversion: Conversion, reply: FetchResult): Step {
    if s.from == "" || s.to == "" || s.message == "" then
      Step(s, None, Failure(rejection + RequiredFields))
    else if s.scheduledAt != "" && conversion.InvalidDate? then
      Step(s.(loading := false), None, Failure(MessageOr(conversion.message, FailedToSend)))
    else
      var payload := PayloadOf(s, if s.scheduledAt != "" then Some(conversion.text) else None);
      match reply
      case FetchFailed(message) =>
        Step(s.(loading := false), Some(payload), Failure(MessageOr(message, FailedToSend)))
      case Replied(ok, data) =>
        if !ok then
          Step(s.(loading := false), Some(payload), Failure(rejection + " (" + ApiError(data) + ")"))
        else
          Step(s.(loading := false, to := "", subject := "", message := "", scheduledAt := "",
                  sentCount := s.sentCount + 1),
               Some(payload), Success(EmailSent))
  }

  /** A form without a sender, a recipient or a message is not posted, and
      the state, `loading` included, is left as it was. */
  lemma IncompleteFormNotPosted(s: FormState, rejection: string, conversion: Conversion, reply: FetchResult)
    ensures (s.from == "" || s.to == "" || s.message == "") ==>
              SendStep(s, rejection, conversion, reply) == Step(s, None, Failure(rejection + RequiredFields))
    ensures SendStep(s, rejection, conversion, reply).posted.None? <==>
              s.from == "" || s.to == "" || s.message == "" || (s.scheduledAt != "" && conversion.InvalidDate?)
  {
  }

  /** A posted payload carries the form's sender, recipient (unsplit),
      subject and message, the resolved display name, and a schedule
      exactly when the schedule input is not empty. */
  lemma PostedPayload(s: FormState, rejection: string, conversion: Conversion, reply: FetchResult)
    requires SendStep(s, rejection, conversion, reply).posted.Some?
    ensures var p := SendStep(s, rejection, conversion, reply).posted.value;
            && s.from != "" && s.to != "" && s.message != ""
            && p.from == s.from && p.email == s.to && p.subject == s.subject && p.message == s.message
            && p.fromName == FromNameOf(s.senders, s.from)
            && (p.scheduledAt.None? <==> s.scheduledAt == "")
  {
  }

  /** An ok reply clears recipient, subject, message and schedule, keeps the
      sender, and counts one `onSent`; any other outcome of a post changes
      no field but `loading`. */
  lemma ResetOnlyOnOk(s: FormState, rejection: string, conversion: Conversion, reply: FetchResult)
    requires SendStep(s, rejection, conversion, reply).posted.Some?
    ensures var t := SendStep(s, rejection, conversion, reply).state;
            && t.from == s.from && t.senders == s.senders
            && (reply.Replied? && reply.ok ==>
                  t.to == "" && t.subject == "" && t.message == "" && t.scheduledAt == ""
                  && t.sentCount == s.sentCount + 1)
            && (!(reply.Replied? && reply.ok) ==> t == s.(loading := false))
  {
  }

  /** A reply that is not ok is reported as the rejection text followed by
      the reply's reason, else its error, else `Failed to send email`. */
  lemma FailureText(s: FormState, rejection: string, conversion: Conversion, reply: FetchResult)
    requires SendStep(s, rejection, conversion, reply).posted.Some?
    requires reply.Replied? && !reply.ok
    ensures SendStep(s, rejection, conversion, reply).notice ==
              Failure(rejection + " (" + ApiError(reply.data) + ")")
    ensures Truthy(reply.data.reason) ==> ApiError(reply.data) == reply.data.reason.s
    ensures !Truthy(reply.data.reason) && Truthy(reply.data.error) ==> ApiError(reply.data) == reply.data.error.s
    ensures ApiError(reply.data) != ""
  {
  }

  /** `loading` is false after every run that got past the check. */
  lemma LoadingCleared(s: FormState, rejection: string, conversion: Conversion, reply: FetchResult)
    requires s.from != "" && s.to != "" && s.message != ""
    ensures !SendStep(s, rejection, conversion, reply).state.loading
  {
  }

  /** The body the send route reads from a posted payload. */
  function BodyOf(p: Payload): SendRoute.Body {
    var props := map["from" := Str(p.from), "fromName" := Str(p.fromName), "email" := Str(p.email),
                     "subject" := Str(p.subject), "message" := Str(p.message)];
    SendRoute.Json(if p.scheduledAt.Some? then props["scheduledAt" := Str(p.scheduledAt.value)] else props)
  }

  /** The reply the form reads from a route response. */
  function ReplyOf(r: SendRoute.Response): FetchResult {
    var data := match r.reply
      case ErrorText(text) => ReplyJson(Undefined, Str(text))
      case ProviderError(error) => ReplyJson(Undefined, Str(error))
      case Data(_) => ReplyJson(Undefined, Undefined);
    Replied(200 <= r.status < 300, data)
  }

  /** The form never sends the provider key the route requires: every
      payload it posts is answered 400 without an email being handed to the
      provider, whatever the provider would do. */
  lemma PayloadLacksKey(p: Payload, outcome: SendRoute.ProviderOutcome)
    ensures SendRoute.Post(BodyOf(p), outcome) ==
              SendRoute.Exchange(None, SendRoute.Response(400, SendRoute.ErrorText(SendRoute.MissingFields)))
  {
    assert "api" !in BodyOf(p).props;
  }

  /** And so every complete form the route answers ends in the failure
      toast naming the missing fields, with the form left filled in. */
  lemma EverySendFails(s: FormState, rejection: string, conversion: Conversion,
                       outcome: SendRoute.ProviderOutcome)
    requires s.from != "" && s.to != "" && s.message != ""
    requires s.scheduledAt != "" ==> conversion.Iso?
    ensures var p := PayloadOf(s, if s.scheduledAt != "" then Some(conversion.text) else None);
            var reply := ReplyOf(SendRoute.Post(BodyOf(p), outcome).response);
            SendStep(s, rejection, conversion, reply) ==
              Step(s.(loading := false), Some(p), Failure(rejection + " (" + SendRoute.MissingFields + ")"))
  {
    var p := PayloadOf(s, if s.scheduledAt != "" then Some(conversion.text) else None);
    PayloadLacksKey(p, outcome);
  }

  /** The body with the provider key the route requires added to it. */
  function KeyedBodyOf(p: Payload, key: string): SendRoute.Body {
    SendRoute.Json(BodyOf(p).props["api" := Str(key)])
  }

  /** With a non-empty key added, a payload with a sender and a recipient
      is handed to the provider as the email it describes. */
  lemma KeyedPayloadSent(p: Payload, key: string, outcome: SendRoute.ProviderOutcome)
    requires key != "" && p.from != "" && p.email != ""
    ensures SendRoute.Post(KeyedBodyOf(p, key), outcome).sent ==
              Some(SendRoute.Email(key, SendRoute.FromHeader(p.fromName, p.from), p.email,
                                   if p.subject != "" then p.subject else SendRoute.NoSubject, p.message))
  {
    var b := KeyedBodyOf(p, key);
    assert SendRoute.Prop(b, "api") == Str(key);
    assert SendRoute.Prop(b, "from") == Str(p.from);
    assert SendRoute.Prop(b, "email") == Str(p.email);
    assert SendRoute.Prop(b, "fromName") == Str(p.fromName);
    assert SendRoute.Prop(b, "subject") == Str(p.subject);
    assert SendRoute.Prop(b, "message") == Str(p.message);
  }

  /** The component's state and its handlers. */
  class ComposeForm {
    var loading: bool
    var senders: seq<Sender>
    var from: string
    var to: string
    var subject: string
    var message: string
    var scheduledAt: string
    var sentCount: nat

    function State(): FormState
      reads this
    {
      FormState(loading, senders, from, to, subject, message, scheduledAt, sentCount)
    }

    constructor()
      ensures State() == FormState(false, [], "", "", "", "", "", 0)
    {
      loading := false;
      senders := [];
      from, to, subject, message, scheduledAt := "", "", "", "", "";
      sentCount := 0;
    }

    /** `loadSenders`: nothing without a signed-in user; otherwise the rows
        the query returns, or none when it returns `null`. */
    method LoadSenders(signedIn: bool, rows: Option<seq<Sender>>)
      modifies this
      ensures signedIn ==> State() == old(State()).(senders := if rows.Some? then rows.value else [])
      ensures !signedIn ==> State() == old(State())
    {
      if !signedIn {
        return;
      }
      senders := if rows.Some? then rows.value else [];
    }

    /** `sendEmail`. */
    method SendEmail(rejection: string, conversion: Conversion, reply: FetchResult)
      returns (posted: Option<Payload>, notice: Notice)
      modifies this
      ensures Step(State(), posted, notice) == SendStep(old(State()), rejection, conversion, reply)
    {
      if from == "" || to == "" || message == "" {
        return None, Failure(rejection + RequiredFields);
      }
      var fromName := FromNameOf(senders, from);
      loading := true;
      var scheduled: Option<string> := None;
      if scheduledAt != "" {
        match conversion {
          case InvalidDate(m) =>
            loading := false;
            return None, Failure(MessageOr(m, FailedToSend));
          case Iso(text) =>
            scheduled := Some(text);
        }
      }
      posted := Some(Payload(from, fromName, to, subject, message, scheduled));
      match reply {
        case FetchFailed(m) =>
          notice := Failure(MessageOr(m, FailedToSend));
        case Replied(ok, data) =>
          if !ok {
            notice := Failure(rejection + " (" + ApiError(data) + ")");
          } else {
            notice := Success(EmailSent);
            to := "";
            subject := "";
            message := "";
            scheduledAt := "";
            sentCount := sentCount + 1;
          }
      }
      loading := false;
    }
  }
}
