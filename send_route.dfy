/** The `POST` handler of `src/app/api/send/route.ts`: it reads the provider
    key, the sender, the recipient and the text from a JSON body, refuses a
    request that lacks one of the first three, hands one email to the
    provider, and maps what the provider reports to an HTTP response. The
    provider call is an input here: its outcome is a parameter. */
module SendRoute {
  import opened JsValue
  import opened JsString

  /** The request body as `request.json()` leaves it: unparseable, or a JSON
      value whose string-or-null properties are `props` (a `null` body, an
      array or a primitive has none, and `body?.x` is then `undefined`). */
  datatype Body = Unparseable | Json(props: map<string, Field>)

  /** `body?.name`. */
  function Prop(body: Body, name: string): Field
    requires body.Json?
  {
    if name in body.props then body.props[name] else Undefined
  }

  /** The email handed to the provider, with the key the client was built with. */
  datatype Email = Email(key: string, from: string, to: string, subject: string, message: string)

  /** What `resend.emails.send` gives back: data, a reported error, or a
      thrown exception. */
  datatype ProviderOutcome = Accepted(data: string) | Rejected(error: string) | Threw

  /** The JSON of a response: `{ error: <text> }`, `{ error: <provider error> }`
      or the provider's data. */
  datatype Reply = ErrorText(text: string) | ProviderError(error: string) | Data(data: string)

  datatype Response = Response(status: int, reply: Reply)

  /** One request handled: the email sent, if any, and the response. */
  datatype Exchange = Exchange(sent: Option<Email>, response: Response)

  const MissingFields := "Missing required fields (api, from, or email)"
  const InvalidBody := "Invalid request body"
  const DefaultFromName := "Mailico"
  const NoSubject := "(no subject)"

  /** The `from` header the provider expects: `Name <address>`. */
  function FromHeader(name: string, address: string): string {
    name + " <" + address + ">"
  }

  /** Reading a `Name <address>` header back: the name is what precedes the
      first `<` (less the space before it), the address what lies between
      that `<` and the final `>`. */
  function ParseFromHeader(h: string): Option<(string, string)> {
    match IndexOf(h, "<")
    case None => None
    case Some(i) =>
      if 1 <= i && h[i - 1] == ' ' && i + 2 <= |h| && h[|h| - 1] == '>'
      then Some((h[..i - 1], h[i + 1..|h| - 1]))
      else None
  }

  /** A display name without `<` and any address are recovered from the
      header built from them. */
  lemma FromHeaderRoundTrip(name: string, address: string)
    requires !Includes(name, "<")
    ensures ParseFromHeader(FromHeader(name, address)) == Some((name, address))
  {
    var h := FromHeader(name, address);
    var i := |name| + 1;
    assert OccursAt(h, "<", i) by {
      assert h[i..i + 1] == "<";
    }
    forall j | 0 <= j < i ensures !OccursAt(h, "<", j) {
      if j < |name| {
        assert h[j..j + 1] == name[j..j + 1];
        assert !OccursAt(name, "<", j);
      } else {
        assert h[j..j + 1] == " ";
      }
    }
    assert IndexOf(h, "<") == Some(i);
    assert h[..i - 1] == name;
    assert h[i + 1..|h| - 1] == address;
  }

  /** `subject || '(no subject)'` on `body?.subject ?? ''`. */
  function SubjectOf(f: Field): string {
    var subject := Coalesce(f, "");
    if subject != "" then subject else NoSubject
  }

  /** The handler, given the body and what the provider would do with the
      email it is handed. */
  function Post(body: Body, outcome: ProviderOutcome): Exchange {
    match body
    case Unparseable => Exchange(None, Response(400, ErrorText(InvalidBody)))
    case Json(_) =>
      var api := Prop(body, "api");
      var from := Prop(body, "from");
      var to := Prop(body, "email");
      if !Truthy(api) || !Truthy(from) || !Truthy(to) then
        Exchange(None, Response(400, ErrorText(MissingFields)))
      else
        var email := Email(
          api.s,
          FromHeader(Coalesce(Prop(body, "fromName"), DefaultFromName), from.s),
          to.s,
          SubjectOf(Prop(body, "subject")),
          Coalesce(Prop(body, "message"), ""));
        match outcome
        case Threw => Exchange(Some(email), Response(400, ErrorText(InvalidBody)))
        case Rejected(error) => Exchange(Some(email), Response(500, ProviderError(error)))
        case Accepted(data) => Exchange(Some(email), Response(200, Data(data)))
  }

  /** The body carries a non-empty provider key, sender and recipient. */
  predicate HasRequiredFields(body: Body) {
    body.Json? && Truthy(Prop(body, "api")) && Truthy(Prop(body, "from")) && Truthy(Prop(body, "email"))
  }

  /** An email is handed to the provider exactly when the body parses and
      has the three required fields; otherwise the answer is 400 with the
      matching message, whatever the provider would have done. */
  lemma {:induction false} SendsOnlyWithRequiredFields(body: Body, outcome: ProviderOutcome)
    ensures Post(body, outcome).sent.Some? <==> HasRequiredFields(body)
    ensures body.Unparseable? ==> Post(body, outcome).response == Response(400, ErrorText(InvalidBody))
    ensures body.Json? && !HasRequiredFields(body) ==>
              Post(body, outcome).response == Response(400, ErrorText(MissingFields))
  {
  }

  /** The email sent carries the body's key, recipient and message (empty
      when absent), a subject that is never empty, and the header built from
      the display name (`Mailico` only when the name is absent or null) and
      the sender address; when the display name has no `<`, both read back
      from the header. */
  lemma SentEmail(body: Body, outcome: ProviderOutcome)
    requires HasRequiredFields(body)
    ensures var e := Post(body, outcome).sent.value;
            var name := if Prop(body, "fromName").Str? then Prop(body, "fromName").s else DefaultFromName;
            && e.key == Prop(body, "api").s
            && e.to == Prop(body, "email").s
            && e.message == (if Prop(body, "message").Str? then Prop(body, "message").s else "")
            && e.subject != ""
            && (Truthy(Prop(body, "subject")) ==> e.subject == Prop(body, "subject").s)
            && (!Truthy(Prop(body, "subject")) ==> e.subject == NoSubject)
            && e.from == FromHeader(name, Prop(body, "from").s)
            && (!Includes(name, "<") ==> ParseFromHeader(e.from) == Some((name, Prop(body, "from").s)))
  {
    var name := Coalesce(Prop(body, "fromName"), DefaultFromName);
    if !Includes(name, "<") {
      FromHeaderRoundTrip(name, Prop(body, "from").s);
    }
  }

  /** Once an email is sent, the status tells the provider's outcome apart:
      200 with its data, 500 with its error, 400 when it threw. */
  lemma StatusOfOutcome(body: Body, outcome: ProviderOutcome)
    requires HasRequiredFields(body)
    ensures Post(body, outcome).response.status == 200 <==> outcome.Accepted?
    ensures Post(body, outcome).response.status == 500 <==> outcome.Rejected?
    ensures Post(body, outcome).response.status == 400 <==> outcome.Threw?
    ensures outcome.Accepted? ==> Post(body, outcome).response.reply == Data(outcome.data)
    ensures outcome.Rejected? ==> Post(body, outcome).response.reply == ProviderError(outcome.error)
  {
  }
}
