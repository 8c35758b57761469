# Demo-request mail endpoint, modelled in Dafny

This project models the `POST` handler of the Xendra Pro website's
`send-email` API route. The handler:

1. logs a redacted record of the SMTP configuration;
2. refuses with a configuration error unless SMTP host, user and password
   are all set;
3. reads the demo-request form;
4. composes an HTML notification to a fixed address and sends it once
   through an SMTP transport;
5. answers with a confirmation, or with one common error for a body that
   cannot be read or a send that fails.

The handler is modelled as a pure function, `SendEmail.Handle`. Its inputs
are the environment, the outcome of reading the body and the outcome of the
send. It returns everything observable about the request: the logged
record, whether the body was read, the deliveries attempted (transport
options plus message) and the response.

Modules:

- `JsValues` (`js_values.dfy`): the JavaScript semantics the handler depends on.
  - Truthiness of a possibly-undefined string, and the `||` fallback.
  - The text a template literal prints for `undefined`, which is the word itself.
  - `String.prototype.length`, which counts UTF-16 code units.
  - Substring occurrence.
- `Template` (`template.dfy`): template-literal interpolation, which inserts values verbatim.
- `SmtpConfig` (`smtp_config.dfy`): the environment, the redacted log record, the configuration gate and the transport options.
- `DemoRequest` (`demo_request.dfy`):
  - the form-key mapping;
  - the texts displayed for each field, with their fallbacks and the time-range rule;
  - the HTML body;
  - the outbound message.
- `SendEmail` (`send_email.dfy`): the handler and its outcomes.

Two behaviours worth knowing:

- Responses carry the Spanish texts `Email enviado con éxito`, `Error al enviar el correo` and `Faltan variables de entorno SMTP en el servidor.`.
- A missing `work-email` leaves `replyTo` undefined (`None`).

## Model

| member | source | states |
|---|---|---|
| JsValues.Or | src/pages/api/send-email.ts:87 | `v \|\| fallback` is the value exactly when that is defined and non-empty, otherwise the fallback; with a non-empty fallback the result is never empty |
| JsValues.Text | src/pages/api/send-email.ts:49 | a template literal prints a defined string as itself and an undefined one as the word `undefined`; it prints nothing only for the empty string |
| JsValues.Utf16Length | src/pages/api/send-email.ts:9 | a string's JavaScript length lies between its character count and twice that, and is zero only for the empty string |
| JsValues.Utf16LengthOfBasicPlane | src/pages/api/send-email.ts:9 | for a string without supplementary-plane characters the JavaScript length is the character count |
| Template.Interpolate | src/pages/api/send-email.ts:50-113 | evaluating a template literal: the pieces with the values inserted between them; the result always opens with the first literal piece |
| Template.InterpolateShowsFramedValue | src/pages/api/send-email.ts:50-113 | every value inserted into a template literal appears verbatim, unescaped, between the two literal pieces around it |
| SmtpConfig.PassLength | src/pages/api/send-email.ts:9 | the logged password length is zero exactly when the password is undefined or empty, and otherwise bounded by the password's size |
| SmtpConfig.Secure | src/pages/api/send-email.ts:10 | `Number(SMTP_PORT) === 465`: TLS only when the port number is 465, never for another number or NaN |
| SmtpConfig.Log | src/pages/api/send-email.ts:5-11 | the logged record copies host, port and user, carries the password only as its length (0 when absent), and marks `secure` exactly when the port number is 465 |
| SmtpConfig.ConfigPresent | src/pages/api/send-email.ts:16 | the gate on the logged record: host and user defined and non-empty, and a positive password length |
| SmtpConfig.ConfigPresentIff | src/pages/api/send-email.ts:16 | the gate passes exactly when host, user and password are all defined and non-empty; the port plays no part |
| SmtpConfig.LogHidesPassword | src/pages/api/send-email.ts:14 | two environments differing only in equally long passwords log the same record, so the log reveals nothing of the password but its length |
| SmtpConfig.TransportFor | src/pages/api/send-email.ts:34-42 | the transport gets the port `Number(SMTP_PORT)`, TLS exactly when that port is 465 (agreeing with the logged `secure`), the same host and user as the log, and the real password |
| DemoRequest.Field | src/pages/api/send-email.ts:27 | reading a key of the parsed body is defined exactly when the key was submitted, and then gives its value |
| DemoRequest.ReadForm | src/pages/api/send-email.ts:27-31 | `first-name`, `last-name`, `work-email` and `job-title` map to the camel-case fields; `phone`, `range`, `message` keep their names |
| DemoRequest.ReadFormIgnoresOtherKeys | src/pages/api/send-email.ts:25-31 | bodies that agree on the seven recognised keys give the same submission |
| DemoRequest.RangeText | src/pages/api/send-email.ts:97 | the time range is always shown as a non-empty text |
| DemoRequest.RangeRule | src/pages/api/send-email.ts:97 | `morning` shows `Por la mañana`, `afternoon` shows `Por la tarde`, other non-empty values are echoed, and empty or absent shows `No especificado`; nothing else can be shown |
| DemoRequest.Present | src/pages/api/send-email.ts:76-103 | full name is first and last name joined by a space (absent ones read `undefined`); phone and job title fall back to `No especificado`, the message to `Sin mensaje adicional`; the fields with a fallback are never empty |
| DemoRequest.Html | src/pages/api/send-email.ts:50-113 | the `html` template: the layout with the seven displayed texts inserted unescaped (the e-mail twice); the body opens with the document's head markup |
| DemoRequest.HtmlShowsEverySlot | src/pages/api/send-email.ts:50-113 | each displayed text appears unescaped in the HTML body inside its own labelled markup |
| DemoRequest.HtmlLinksEmail | src/pages/api/send-email.ts:81 | the body holds a `mailto:` link to exactly the displayed work e-mail |
| DemoRequest.Compose | src/pages/api/send-email.ts:45-50 | the message goes to `info@verticedigital.com.ar` whatever was submitted, from `"Xendra Pro" <user>`, replies to the work e-mail, and has subject `Nueva solicitud de Demo: ` plus first and last name |
| DemoRequest.ComposeShowsFallbacks | src/pages/api/send-email.ts:87-103 | an empty or absent phone, job title, range or message puts its fallback text into the body in that field's place |
| SendEmail.Details | src/pages/api/send-email.ts:121 | the error details are the error's message when non-empty, otherwise its serialised form |
| SendEmail.SendErrorResponse | src/pages/api/send-email.ts:117-122 | a caught error becomes status 500 with error `Error al enviar el correo`; the details are its message when non-empty, otherwise its serialised form |
| SendEmail.Handle | src/pages/api/send-email.ts:4-124 | the redacted record is always logged; the body is read exactly when the gate passes; at most one delivery, made exactly when the gate passes and the body parses, always to the fixed recipient; status 200 with the confirmation exactly when the send is also accepted, otherwise 500 with an error payload |
| SendEmail.ConfigGate | src/pages/api/send-email.ts:16-22 | a missing or empty host, user or password yields 500 `Configuration Error` without reading the body or sending |
| SendEmail.LogPrecedesRequest | src/pages/api/send-email.ts:5-14 | the record is logged before anything else, so it is the same whatever the body and the send outcome are |
| SendEmail.LoggedRecordIsRedacted | src/pages/api/send-email.ts:9-14 | the record the handler logs is unchanged when the password is replaced by any other of the same length |
| SendEmail.SuccessPath | src/pages/api/send-email.ts:34-116 | a valid configuration, a parsed body and an accepted send give 200 `Email enviado con éxito` after exactly one delivery of the composed message through the configured transport |
| SendEmail.FailurePaths | src/pages/api/send-email.ts:117-122 | an unreadable body and a refused send yield the same 500 response with the error's details; the unreadable body sends nothing, the refused send was attempted once |
| SendEmail.UnparsableIgnoresSend | src/pages/api/send-email.ts:25 | when the body cannot be read the outcome does not depend on the transport at all |
| SendEmail.SentMessageFields | src/pages/api/send-email.ts:45-49 | the sent message's recipient, sender, reply-to, subject and mail link, stated in terms of the submitted keys |
| SendEmail.OtherKeysIgnored | src/pages/api/send-email.ts:27-31 | unrecognised form keys have no effect on anything the handler does |
| SendEmail.AnaDiazSubmission | src/pages/api/send-email.ts:27-49 | a submission from Ana Diaz at `ana@x.com` gets a subject containing `Ana Diaz`, replies to `ana@x.com` and a body linking to `mailto:ana@x.com` |

## Left out

- SMTP transport: `nodemailer`'s `createTransport` and `sendMail` are not modelled. The send is an injected outcome, accepted or refused with an error. The outcome does not depend on the message, and a throwing `createTransport` is not distinguished from a refused send; both reach the same `catch`.
- Body parsing: `request.json()` is an injected outcome, either the submitted string pairs or a thrown error. JSON values that are not strings are not modelled. A `null` body throws on the first key read and is `Unparsable`. A primitive or array body reads every key as `undefined` and is `Parsed(map[])`.
- Environment reads: `import.meta.env` is read as an injected `Env` record.
- Port coercion: `Number(SMTP_PORT)` is supplied by the caller as `portNumber` (`None` for NaN). A non-integer port number cannot be represented. The caller must keep `port` and `portNumber` consistent: an undefined `port` must come with `portNumber == None`, because `Number(undefined)` is NaN; the model does not enforce this.
- Logging: the `console` calls are not modelled. Only the logged configuration record is.
- HTML body: the stylesheet, indentation, whitespace and footer text are abbreviated in `DemoRequest.Layout`. The labels, classes, the mail link, the order of the fields and the absence of escaping are kept.
- Responses: the JSON serialisation and headers are left out. The payload is a datatype.
- SendEmail.Details: treats `JSON.stringify(error)` as always producing a string. The case where it yields `undefined`, so that `details` is dropped from the payload, is not modelled. Neither is a `null` error whose `.message` would itself throw.
- Unpaired surrogates: a Dafny `string` is a sequence of Unicode scalar values, whereas a JavaScript string is a sequence of UTF-16 code units. Strings holding unpaired surrogates, in form fields or in the password, are outside the model.
- Concurrency: requests share no mutable state, so there is nothing to model.
