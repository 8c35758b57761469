/**
 The demo-request submission and the notification mail built from it: the
 mapping from the form's kebab-case keys, the subject, sender, recipient and
 reply-to address, the text shown for each field (with its fallback), and
 the HTML body those texts are inserted into without escaping.
 */
module DemoRequest {
  import opened JsValues
  import opened Template

  /** The submission fields the handler reads, each possibly absent. */
  datatype Submission = Submission(
    firstName: Option<string>,
    lastName: Option<string>,
    email: Option<string>,
    jobTitle: Option<string>,
    phone: Option<string>,
    range: Option<string>,
    message: Option<string>)

  /** `data[key]` on the parsed body: `undefined` for a missing key. */
  function Field(fields: map<string, string>, key: string): (v: Option<string>)
    ensures v.Some? <==> key in fields
    ensures key in fields ==> v.value == fields[key]
  {
    if key in fields then Some(fields[key]) else None
  }

  /** The form keys the handler reads; every other key is ignored. */
  const FormKeys: set<string> :=
    {"first-name", "last-name", "work-email", "job-title", "phone", "range", "message"}

  /** The kebab-case form keys mapped to the submission's fields. */
  function ReadForm(fields: map<string, string>): (s: Submission)
    ensures s.firstName == Field(fields, "first-name")
    ensures s.lastName == Field(fields, "last-name")
    ensures s.email == Field(fields, "work-email")
    ensures s.jobTitle == Field(fields, "job-title")
    ensures s.phone == Field(fields, "phone")
    ensures s.range == Field(fields, "range")
    ensures s.message == Field(fields, "message")
  {
    Submission(
      Field(fields, "first-name"), Field(fields, "last-name"),
      Field(fields, "work-email"), Field(fields, "job-title"),
      Field(fields, "phone"), Field(fields, "range"), Field(fields, "message"))
  }

  /** Two bodies that agree on the recognised keys yield the same submission. */
  lemma ReadFormIgnoresOtherKeys(fields: map<string, string>, other: map<string, string>)
    requires forall k :: k in FormKeys ==> Field(fields, k) == Field(other, k)
    ensures ReadForm(fields) == ReadForm(other)
  {
    assert "first-name" in FormKeys && "last-name" in FormKeys && "work-email" in FormKeys;
    assert "job-title" in FormKeys && "phone" in FormKeys && "range" in FormKeys;
    assert "message" in FormKeys;
  }

  const Recipient: string := "info@verticedigital.com.ar"
  const SenderName: string := "Xendra Pro"
  const SubjectPrefix: string := "Nueva solicitud de Demo: "
  const NotSpecified: string := "No especificado"
  const NoMessage: string := "Sin mensaje adicional"
  const Morning: string := "Por la mañana"
  const Afternoon: string := "Por la tarde"

  /** The preferred time range as shown: two known values are translated, the rest echoed. */
  function RangeText(range: Option<string>): (r: string)
    ensures r != ""
  {
    if range == Some("morning") then Morning
    else if range == Some("afternoon") then Afternoon
    else Or(range, NotSpecified)
  }

  /**
   The range rule is total and falls into exactly one of four cases:
   `morning` and `afternoon` are translated, any other non-empty value is
   shown verbatim, and an empty or absent one shows the fallback.
   */
  lemma RangeRule(range: Option<string>)
    ensures range == Some("morning") ==> RangeText(range) == Morning
    ensures range == Some("afternoon") ==> RangeText(range) == Afternoon
    ensures (Truthy(range) && range.value != "morning" && range.value != "afternoon")
              ==> RangeText(range) == range.value
    ensures !Truthy(range) ==> RangeText(range) == NotSpecified
    ensures RangeText(range) in {Morning, Afternoon, NotSpecified}
              || (Truthy(range) && RangeText(range) == range.value)
  {
  }

  /** The six texts the body shows, one per labelled field. */
  datatype Display = Display(
    fullName: string,
    email: string,
    phone: string,
    jobTitle: string,
    range: string,
    message: string)

  /**
   What each field shows: the names and e-mail as template text (an absent
   one reads `undefined`), phone, job title and message with their
   fallbacks, and the range by its rule. Every field with a fallback shows
   something non-empty.
   */
  function Present(s: Submission): (d: Display)
    ensures d.fullName == Text(s.firstName) + " " + Text(s.lastName)
    ensures d.email == Text(s.email)
    ensures Truthy(s.phone) ==> d.phone == s.phone.value
    ensures !Truthy(s.phone) ==> d.phone == NotSpecified
    ensures Truthy(s.jobTitle) ==> d.jobTitle == s.jobTitle.value
    ensures !Truthy(s.jobTitle) ==> d.jobTitle == NotSpecified
    ensures Truthy(s.message) ==> d.message == s.message.value
    ensures !Truthy(s.message) ==> d.message == NoMessage
    ensures d.range == RangeText(s.range)
    ensures d.phone != "" && d.jobTitle != "" && d.range != "" && d.message != ""
  {
    Display(
      Text(s.firstName) + " " + Text(s.lastName),
      Text(s.email),
      Or(s.phone, NotSpecified),
      Or(s.jobTitle, NotSpecified),
      RangeText(s.range),
      Or(s.message, NoMessage))
  }

  /** The opening of the e-mail field's link, up to its `href` value. */
  const EmailFieldOpen: string :=
    "</div></div><div class=\"field\"><span class=\"label\">Email Corporativo</span>"
    + "<div class=\"value\"><a href=\""
  const MailtoScheme: string := "mailto:"
  const HrefClose: string := "\""
  const LinkStyle: string := " style=\"color: #7c3aed; text-decoration: none;\">"

  /**
   The literal pieces of the body template, in order, between which the
   seven inserted texts go. The stylesheet, indentation and footer text are
   abbreviated; the labels, classes and the mail link are kept.
   */
  const Layout: seq<string> := [
    "<!DOCTYPE html><html><head><style></style></head><body><div class=\"container\">"
      + "<div class=\"header\"><h1>Nueva Solicitud de <span class=\"highlight\">Demo</span></h1></div>"
      + "<div class=\"content\"><div class=\"field\"><span class=\"label\">Nombre Completo</span>"
      + "<div class=\"value\">",
    EmailFieldOpen + MailtoScheme,
    HrefClose + LinkStyle,
    "</a></div></div><div style=\"display: flex; gap: 20px;\"><div class=\"field\" style=\"flex: 1;\">"
      + "<span class=\"label\">Teléfono</span><div class=\"value\">",
    "</div></div><div class=\"field\" style=\"flex: 1;\"><span class=\"label\">Cargo</span>"
      + "<div class=\"value\">",
    "</div></div></div><div class=\"field\"><span class=\"label\">Rango Horario Preferido</span>"
      + "<div class=\"value\">",
    "</div></div><div class=\"field\"><span class=\"label\">Mensaje Adicional</span>"
      + "<div class=\"message-box\">",
    "</div></div></div><div class=\"footer\"><p></p></div></div></body></html>"
  ]

  /** The texts inserted into the body, in template order; the e-mail goes in twice. */
  function Slots(d: Display): (vs: seq<string>)
    ensures |vs| + 1 == |Layout|
  {
    [d.fullName, d.email, d.email, d.phone, d.jobTitle, d.range, d.message]
  }

  /** The HTML body: the layout with the displayed texts inserted as they are. */
  function Html(d: Display): (html: string)
    ensures |html| >= |Layout[0]| && html[..|Layout[0]|] == Layout[0]
  {
    Interpolate(Layout, Slots(d))
  }

  /** Each displayed text appears unescaped in the body, between its own markup. */
  lemma HtmlShowsEverySlot(d: Display)
    ensures forall k :: 0 <= k < |Slots(d)| ==>
              IsInfix(Layout[k] + Slots(d)[k] + Layout[k + 1], Html(d))
  {
    forall k | 0 <= k < |Slots(d)|
      ensures IsInfix(Layout[k] + Slots(d)[k] + Layout[k + 1], Html(d))
    {
      InterpolateShowsFramedValue(Layout, Slots(d), k);
    }
  }

  /** The body holds a `mailto:` link to exactly the displayed e-mail text. */
  lemma HtmlLinksEmail(d: Display)
    ensures IsInfix(MailtoScheme + d.email + HrefClose, Html(d))
  {
    InterpolateShowsFramedValue(Layout, Slots(d), 1);
    assert Layout[1] == EmailFieldOpen + MailtoScheme && Layout[2] == HrefClose + LinkStyle;
    var framed := Layout[1] + Slots(d)[1] + Layout[2];
    assert framed == EmailFieldOpen + (MailtoScheme + d.email + HrefClose) + LinkStyle;
    InfixOfFrame(EmailFieldOpen, MailtoScheme + d.email + HrefClose, LinkStyle);
    InfixTransitive(MailtoScheme + d.email + HrefClose, framed, Html(d));
  }

  /** The outbound message as handed to the transport. */
  datatype Mail = Mail(
    from: string,
    to: string,
    replyTo: Option<string>,
    subject: string,
    html: string)

  /**
   The notification for a submission, sent on behalf of the SMTP user: it
   always goes to the fixed recipient, replies go to the submitter's work
   e-mail, and the subject names the submitter.
   */
  function Compose(user: Option<string>, s: Submission): (m: Mail)
    ensures m.to == Recipient
    ensures m.from == "\"" + SenderName + "\" <" + Text(user) + ">"
    ensures m.replyTo == s.email
    ensures m.subject == SubjectPrefix + Text(s.firstName) + " " + Text(s.lastName)
    ensures m.html == Html(Present(s))
  {
    Mail(
      "\"" + SenderName + "\" <" + Text(user) + ">",
      Recipient,
      s.email,
      SubjectPrefix + Text(s.firstName) + " " + Text(s.lastName),
      Html(Present(s)))
  }

  /**
   A field left empty or out is never shown as an empty string: the body
   carries the fallback text in that field's place.
   */
  lemma ComposeShowsFallbacks(user: Option<string>, s: Submission)
    ensures !Truthy(s.phone) ==> IsInfix(Layout[3] + NotSpecified + Layout[4], Compose(user, s).html)
    ensures !Truthy(s.jobTitle) ==> IsInfix(Layout[4] + NotSpecified + Layout[5], Compose(user, s).html)
    ensures !Truthy(s.range) ==> IsInfix(Layout[5] + NotSpecified + Layout[6], Compose(user, s).html)
    ensures !Truthy(s.message) ==> IsInfix(Layout[6] + NoMessage + Layout[7], Compose(user, s).html)
  {
    var d := Present(s);
    InterpolateShowsFramedValue(Layout, Slots(d), 3);
    InterpolateShowsFramedValue(Layout, Slots(d), 4);
    InterpolateShowsFramedValue(Layout, Slots(d), 5);
    InterpolateShowsFramedValue(Layout, Slots(d), 6);
  }
}
