/**
 * contact.php: the request-method gate, the two validation rules, the escaped placeholders,
 * the fixed template and the pass-through of EmailSender's reply.
 */
module Contact {
  import opened Wrappers
  import opened StrReplace
  import opened Template
  import TemplateShape
  import opened Html
  import opened Validation
  import opened Mailer
  import opened Sender

  /**
   * One request: its REQUEST_METHOD and the form fields after filter_input's sanitising, which is
   * not modelled. A field that was not posted reads as null, which every later step
   * (empty(), htmlspecialchars) treats as the empty string.
   */
  datatype Request = Request(requestMethod: string, fields: map<string, string>)

  function Field(req: Request, name: string): string
  {
    if name in req.fields then req.fields[name] else ""
  }

  /** The SMTP constants of config.php. */
  datatype SmtpSettings = SmtpSettings(host: string, portTls: int, username: string, password: string,
                                       from: string, fromName: string)

  /** The JSON object echoed back; `error` is there only on a validation failure. */
  datatype Reply = Reply(status: bool, message: string, error: Option<seq<string>>)

  /** The HTTP status, the text echoed before the JSON, and the JSON, if any. */
  datatype Response = Response(code: nat, notices: seq<string>, reply: Option<Reply>)

  const ContactTemplate := "home/contact-us.html"
  const ValidationFailed := "Validation failed."
  const ContactKeys := ["project_type", "name_address", "phone_number", "email_id", "sanctioned_load", "avg_monthly_bill"]

  /** The six placeholders, each the field's value through htmlspecialchars. */
  function ContactPlaceholders(req: Request): (ps: seq<Placeholder>)
    ensures |ps| == 6
    ensures forall i :: 0 <= i < 6 ==> ps[i].0 == ContactKeys[i] && ps[i].1 == Escape(Field(req, ContactKeys[i]))
    ensures forall i :: 0 <= i < 6 ==> forall j :: 0 <= j < |ps[i].1| ==> !Markup(ps[i].1[j])
    ensures TemplateShape.KeysDistinct(ps)
  {
    seq(6, i requires 0 <= i < 6 => (ContactKeys[i], Escape(Field(req, ContactKeys[i]))))
  }

  /** The $server_config array: no 'to' and no 'subject' key, so both read as null. */
  function ServerConfig(smtp: SmtpSettings): (c: MailConfig)
    ensures c.to.None? && c.subject.None?
    ensures c.replyTo == Some("") && c.smtpDebug == Some(0)
    ensures FromOf(c) == Address(Some(smtp.from), Some(smtp.fromName)) && !ReplyToSet(c)
  {
    MailConfig(Some(smtp.host), Some(smtp.portTls), Some(smtp.username), Some(smtp.password),
               Some(smtp.from), Some(smtp.fromName), Some(""), Some(0), None, None)
  }

  /** $errors for a request: the rules applied to its two fields. */
  function RequestErrors(req: Request, isValidEmail: string -> bool): seq<string>
  {
    Errors(Field(req, "phone_number"), Field(req, "email_id"), isValidEmail)
  }

  /** The mailer and the echo that constructing the contact form's EmailSender leaves. */
  function ContactSetup(smtp: SmtpSettings, t: Transport): Outcome
  {
    SetUp(ServerConfig(smtp), t)
  }

  /**
   * What a new EmailSender for a valid request does when sent. ErrorInfo is empty unless
   * setFrom threw during construction, so a missing template replies with the bare prefix
   * exactly when setFrom was accepted.
   */
  function ContactSend(req: Request, smtp: SmtpSettings, fs: Files, t: Transport): (r: SendStep)
    ensures r.result.status <==> ContactTemplate in fs && t.accepts(Transmit)
    ensures r.mail.transmissions == if ContactTemplate in fs then 1 else 0
    ensures r.mail.recipients == [] || r.mail.recipients == [None]
    ensures r.mail.attachments == []
    ensures var from := SetFrom(Address(Some(smtp.from), Some(smtp.fromName)));
      ContactTemplate !in fs ==>
        r.result == SendResult(false, FailurePrefix + if t.accepts(from) then "" else t.errorFor(from))
  {
    SendOutcome(TemplateFile(ContactTemplate, ContactPlaceholders(req)), true, ServerConfig(smtp), [],
                ContactSetup(smtp, t).mail, fs, t)
  }

  function NoticesOf(n: Option<string>): seq<string>
  {
    if n.Some? then [n.value] else []
  }

  /**
   * The whole script. `dispatched` says whether the mailer's send() was reached. A non-POST
   * request only gets status 400; a failed validation is answered before any EmailSender
   * exists; otherwise EmailSender's reply is echoed unchanged.
   */
  method HandleRequest(req: Request, smtp: SmtpSettings, fs: Files, t: Transport, isValidEmail: string -> bool)
    returns (resp: Response, dispatched: bool)
    ensures req.requestMethod != "POST" ==> resp == Response(400, [], None) && !dispatched
    ensures req.requestMethod == "POST" && RequestErrors(req, isValidEmail) != [] ==>
      resp == Response(200, [], Some(Reply(false, ValidationFailed, Some(RequestErrors(req, isValidEmail))))) && !dispatched
    ensures req.requestMethod == "POST" && RequestErrors(req, isValidEmail) == [] ==>
      var s := ContactSend(req, smtp, fs, t);
      resp == Response(200, NoticesOf(ContactSetup(smtp, t).notice) + NoticesOf(s.notice),
                       Some(Reply(s.result.status, s.result.message, None)))
      && (dispatched <==> ContactTemplate in fs)
    ensures dispatched ==> req.requestMethod == "POST" && RequestErrors(req, isValidEmail) == []
  {
    if req.requestMethod != "POST" {
      return Response(400, [], None), false;
    }
    var errors := Validate(Field(req, "phone_number"), Field(req, "email_id"), isValidEmail);
    if errors != [] {
      return Response(200, [], Some(Reply(false, ValidationFailed, Some(errors)))), false;
    }
    var placeholders := ContactPlaceholders(req);
    var config := ServerConfig(smtp);
    var body := TemplateFile(ContactTemplate, placeholders);
    var sender := new EmailSender(config, body, true, [], t);
    var r, notice := sender.Send(fs);
    dispatched := sender.mail.transmissions > 0;
    resp := Response(200, NoticesOf(sender.setupNotice) + NoticesOf(notice), Some(Reply(r.status, r.message, None)));
  }

  /** A well-formed submission, with a template on disk and a transport that delivers, is sent. */
  lemma ValidSubmissionSent(req: Request, smtp: SmtpSettings, fs: Files, t: Transport, isValidEmail: string -> bool)
    requires Field(req, "phone_number") == "9876543210" && Field(req, "email_id") == "a@b.com"
    requires isValidEmail("a@b.com") && ContactTemplate in fs && t.accepts(Transmit)
    ensures RequestErrors(req, isValidEmail) == []
    ensures ContactSend(req, smtp, fs, t).result == SendResult(true, SentMessage)
  {
    assert TenDigits("9876543210");
  }

  /**
   * The characters that can open markup or end an attribute come from the template only:
   * the rendered body holds exactly as many of each as the template.
   */
  lemma MarkupOnlyFromTemplate(template: string, req: Request, c: char)
    requires Markup(c)
    ensures CountChar(Substitute(template, ContactPlaceholders(req)), c) == CountChar(template, c)
  {
    var ps := ContactPlaceholders(req);
    KeysWithoutMarkup(c);
    assert forall i :: 0 <= i < |ps| ==> c !in ps[i].1;
    SubstituteKeepsForeignChar(template, ps, c);
  }

  lemma KeysWithoutMarkup(c: char)
    requires Markup(c)
    ensures forall i :: 0 <= i < |ContactKeys| ==> c !in ContactKeys[i]
  {
    forall i | 0 <= i < |ContactKeys| ensures c !in ContactKeys[i] {
      var k := ContactKeys[i];
      forall j | 0 <= j < |k| ensures k[j] != c {
        assert 'a' <= k[j] <= 'z' || k[j] == '_';
      }
    }
  }
}
