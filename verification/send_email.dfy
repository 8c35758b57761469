/**
 The `POST` handler of the demo-request endpoint as a pure function of the
 environment, the outcome of reading the request body and the outcome of the
 one send it may attempt. It returns the logged configuration record, whether
 the body was read, the deliveries attempted, and the response.
 */
module SendEmail {
  import opened JsValues
  import opened SmtpConfig
  import opened DemoRequest

  /** A thrown JavaScript error: its `message` (possibly undefined) and its `JSON.stringify` text. */
  datatype Thrown = Thrown(message: Option<string>, serialized: string)

  /** `error.message || JSON.stringify(error)`: the message when non-empty, else the serialization. */
  function Details(e: Thrown): (d: string)
    ensures Truthy(e.message) ==> d == e.message.value
    ensures !Truthy(e.message) ==> d == e.serialized
  {
    Or(e.message, e.serialized)
  }

  /** What `request.json()` produced: the submitted key/value pairs, or a thrown error. */
  datatype BodyOutcome = Parsed(fields: map<string, string>) | Unparsable(error: Thrown)

  /** What the transport's `sendMail` did with the message. */
  datatype SendOutcome = Accepted | Refused(error: Thrown)

  /** The JSON payload of a response. */
  datatype Payload = Confirmation(message: string) | Problem(error: string, details: string)

  datatype Response = Response(status: nat, payload: Payload)

  /** One call of `sendMail` through a transport created with the given options. */
  datatype Delivery = Delivery(transport: Transport, mail: Mail)

  /** Everything the handler does for one request that is observable. */
  datatype Handled = Handled(
    log: ConfigLog,
    bodyRead: bool,
    deliveries: seq<Delivery>,
    response: Response)

  const ConfigErrorResponse: Response :=
    Response(500, Problem("Configuration Error", "Faltan variables de entorno SMTP en el servidor."))

  const SendErrorKind: string := "Error al enviar el correo"

  const SuccessResponse: Response := Response(200, Confirmation("Email enviado con éxito"))

  /** The response for any error thrown after the gate, from the body or from the send. */
  function SendErrorResponse(e: Thrown): (r: Response)
    ensures r.status == 500 && r.payload.Problem?
    ensures r.payload.error == SendErrorKind
    ensures Truthy(e.message) ==> r.payload.details == e.message.value
    ensures !Truthy(e.message) ==> r.payload.details == e.serialized
  {
    Response(500, Problem(SendErrorKind, Details(e)))
  }

  /**
   The handler. The configuration record is logged first; if the gate fails
   nothing else happens. Otherwise the body is read, and when it parses the
   notification is composed and sent once; a thrown error from either step
   becomes the same error response.
   */
  function Handle(env: Env, body: BodyOutcome, send: SendOutcome): (h: Handled)
    ensures h.log == Log(env)
    ensures h.bodyRead <==> ConfigPresent(h.log)
    ensures |h.deliveries| <= 1
    ensures |h.deliveries| == 1 <==> ConfigPresent(h.log) && body.Parsed?
    ensures forall d <- h.deliveries :: d.mail.to == Recipient
    ensures h.response.status == 200 <==> ConfigPresent(h.log) && body.Parsed? && send.Accepted?
    ensures h.response.status == 200 ==> h.response == SuccessResponse
    ensures h.response.status != 200 ==> h.response.status == 500 && h.response.payload.Problem?
  {
    var log := Log(env);
    if !ConfigPresent(log) then
      Handled(log, false, [], ConfigErrorResponse)
    else
      match body
      case Unparsable(e) =>
        Handled(log, true, [], SendErrorResponse(e))
      case Parsed(fields) =>
        var attempt := Delivery(TransportFor(env), Compose(env.user, ReadForm(fields)));
        match send
        case Accepted => Handled(log, true, [attempt], SuccessResponse)
        case Refused(e) => Handled(log, true, [attempt], SendErrorResponse(e))
  }

  /**
   A missing or empty host, user or password yields the configuration error;
   the body is never read and nothing is sent.
   */
  lemma ConfigGate(env: Env, body: BodyOutcome, send: SendOutcome)
    requires !Truthy(env.host) || !Truthy(env.user) || !Truthy(env.pass)
    ensures Handle(env, body, send).response == ConfigErrorResponse
    ensures !Handle(env, body, send).bodyRead
    ensures Handle(env, body, send).deliveries == []
  {
    ConfigPresentIff(env);
  }

  /**
   The record is logged before the body is read or anything is sent, so it is
   the same whatever the body and the send outcome turn out to be.
   */
  lemma LogPrecedesRequest(env: Env, body: BodyOutcome, send: SendOutcome,
                           otherBody: BodyOutcome, otherSend: SendOutcome)
    ensures Handle(env, body, send).log == Handle(env, otherBody, otherSend).log
  {
  }

  /**
   The record the handler logs is redacted: replacing the password by any
   other of the same length leaves the logged record unchanged.
   */
  lemma LoggedRecordIsRedacted(env: Env, otherPass: Option<string>, body: BodyOutcome, send: SendOutcome)
    requires PassLength(otherPass) == PassLength(env.pass)
    ensures Handle(env.(pass := otherPass), body, send).log == Handle(env, body, send).log
  {
    LogHidesPassword(env, otherPass);
  }

  /**
   With the configuration present, a parsed body and an accepted send give
   the confirmation, after exactly one delivery of the composed notification
   through a transport built from the environment.
   */
  lemma SuccessPath(env: Env, fields: map<string, string>)
    requires Truthy(env.host) && Truthy(env.user) && Truthy(env.pass)
    ensures var h := Handle(env, Parsed(fields), Accepted);
            && h.response == SuccessResponse
            && h.deliveries == [Delivery(TransportFor(env), Compose(env.user, ReadForm(fields)))]
  {
    ConfigPresentIff(env);
  }

  /**
   With the configuration present, an unreadable body and a refused send end
   in the same error response, whose details are the error's message when it
   has one; the unreadable body sends nothing.
   */
  lemma FailurePaths(env: Env, fields: map<string, string>, e: Thrown)
    requires Truthy(env.host) && Truthy(env.user) && Truthy(env.pass)
    ensures Handle(env, Unparsable(e), Accepted).response == Response(500, Problem(SendErrorKind, Details(e)))
    ensures Handle(env, Parsed(fields), Refused(e)).response == Handle(env, Unparsable(e), Accepted).response
    ensures Handle(env, Unparsable(e), Accepted).deliveries == []
    ensures |Handle(env, Parsed(fields), Refused(e)).deliveries| == 1
  {
    ConfigPresentIff(env);
  }

  /** The response to an unreadable body does not depend on what the send would have done. */
  lemma UnparsableIgnoresSend(env: Env, e: Thrown, send: SendOutcome)
    ensures Handle(env, Unparsable(e), send) == Handle(env, Unparsable(e), Accepted)
  {
  }

  /**
   The message that is sent: from the SMTP user under the fixed display name,
   to the fixed recipient, replying to the submitted work e-mail, with the
   submitter's names in the subject and a mail link to the work e-mail in the
   body.
   */
  lemma SentMessageFields(env: Env, fields: map<string, string>, send: SendOutcome)
    requires Truthy(env.host) && Truthy(env.user) && Truthy(env.pass)
    ensures var h := Handle(env, Parsed(fields), send);
            && |h.deliveries| == 1
            && h.deliveries[0].mail.to == "info@verticedigital.com.ar"
            && h.deliveries[0].mail.from == "\"Xendra Pro\" <" + env.user.value + ">"
            && h.deliveries[0].mail.replyTo == Field(fields, "work-email")
            && h.deliveries[0].mail.subject
                 == "Nueva solicitud de Demo: " + Text(Field(fields, "first-name")) + " "
                    + Text(Field(fields, "last-name"))
            && IsInfix("mailto:" + Text(Field(fields, "work-email")) + "\"", h.deliveries[0].mail.html)
  {
    ConfigPresentIff(env);
    HtmlLinksEmail(Present(ReadForm(fields)));
  }

  /** Keys other than the recognised form keys have no effect on the request's outcome. */
  lemma OtherKeysIgnored(env: Env, fields: map<string, string>, other: map<string, string>, send: SendOutcome)
    requires forall k :: k in FormKeys ==> Field(fields, k) == Field(other, k)
    ensures Handle(env, Parsed(fields), send) == Handle(env, Parsed(other), send)
  {
    ReadFormIgnoresOtherKeys(fields, other);
  }

  /**
   A submission from Ana Diaz at ana@x.com: the subject names her, replies go
   to her address and the body links to it.
   */
  lemma AnaDiazSubmission(env: Env)
    requires Truthy(env.host) && Truthy(env.user) && Truthy(env.pass)
    ensures var fields := map["first-name" := "Ana", "last-name" := "Diaz", "work-email" := "ana@x.com"];
            var mail := Handle(env, Parsed(fields), Accepted).deliveries[0].mail;
            && IsInfix("Ana Diaz", mail.subject)
            && mail.replyTo == Some("ana@x.com")
            && IsInfix("mailto:ana@x.com", mail.html)
  {
    var fields := map["first-name" := "Ana", "last-name" := "Diaz", "work-email" := "ana@x.com"];
    SentMessageFields(env, fields, Accepted);
    var mail := Handle(env, Parsed(fields), Accepted).deliveries[0].mail;
    assert Field(fields, "first-name") == Some("Ana");
    assert Field(fields, "last-name") == Some("Diaz");
    assert Field(fields, "work-email") == Some("ana@x.com");
    assert mail.subject == "Nueva solicitud de Demo: " + "Ana" + " " + "Diaz";
    assert mail.subject == "Nueva solicitud de Demo: " + "Ana Diaz" + [];
    InfixOfFrame("Nueva solicitud de Demo: ", "Ana Diaz", []);
    assert "mailto:" + "ana@x.com" == "mailto:ana@x.com";
    InfixOfPrefix("mailto:" + "ana@x.com", "\"", mail.html);
  }
}
