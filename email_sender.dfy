/**
 * EmailSender: renders the body (inline HTML, or a template file with placeholders), hands it
 * to the mailer and turns the outcome into a status/message pair. It never throws.
 */
module Sender {
  import opened Wrappers
  import opened StrReplace
  import opened Template
  import opened Mailer
  import Validation

  /** The constructor's $body: inline HTML, or ['template_file' => ..., 'placeholders' => ...]. */
  datatype Body = Inline(html: string) | TemplateFile(templateFile: string, placeholders: seq<Placeholder>)

  /** The keys of the $config array. A key the caller did not set reads as null. */
  datatype MailConfig = MailConfig(
    host: Option<string>, port: Option<int>, username: Option<string>, password: Option<string>,
    fromEmail: Option<string>, fromName: Option<string>, replyTo: Option<string>,
    smtpDebug: Option<int>, to: Option<string>, subject: Option<string>)

  datatype SendResult = SendResult(status: bool, message: string)

  const TemplateNotFound := "HTML Template file not found"
  const FailurePrefix := "Failed to send email. Error: "
  const SentMessage := "Email Sent"
  const SetupNotice := "Mailer Error: "

  /** A file system: the files that exist, with their contents. */
  type Files = map<string, string>

  /** The body field, the mailer and the reply after send(), and what formatMessage echoed. */
  datatype SendStep = SendStep(body: Body, mail: MailState, result: SendResult, notice: Option<string>)

  /** The body kind the constructor's docblock ties to isHTMLFile. */
  predicate BodyMatches(body: Body, isHTMLFile: bool)
  {
    isHTMLFile <==> body.TemplateFile?
  }

  /** The setFrom arguments: from_email and from_name, null where the key is missing. */
  function FromOf(config: MailConfig): Address
  {
    Address(config.fromEmail, config.fromName)
  }

  /** setup() calls addReplyTo only for a reply_to key that is set and not empty(). */
  predicate ReplyToSet(config: MailConfig)
  {
    config.replyTo.Some? && !Validation.PhpEmpty(config.replyTo.value)
  }

  /** What setup() echoes when a call throws: the ErrorInfo, then the exception's errorMessage(). */
  function SetupEcho(op: MailOp, t: Transport): string
  {
    SetupNotice + t.errorFor(op) + " \n " + t.thrownText(op)
  }

  /**
   * EmailConfig's constructor on a new PHPMailer: setup() sets the connection fields, which
   * cannot throw, then calls setFrom and, for a configured reply-to, addReplyTo. An exception is
   * caught and echoed, and the object is kept as it then is.
   */
  function SetUp(config: MailConfig, t: Transport): (r: Outcome)
    ensures r.mail.recipients == [] && r.mail.attachments == [] && r.mail.transmissions == 0
    ensures r.mail.body == "" && !r.mail.isHtml && r.mail.subject == Some("")
    ensures !t.accepts(SetFrom(FromOf(config))) ==>
      r.mail == FreshMail.(errorInfo := t.errorFor(SetFrom(FromOf(config))))
      && r.notice == Some(SetupEcho(SetFrom(FromOf(config)), t))
    ensures t.accepts(SetFrom(FromOf(config))) ==> r.mail.from == Some(FromOf(config))
    ensures t.accepts(SetFrom(FromOf(config))) && !ReplyToSet(config) ==>
      r.mail.replyTo == [] && r.mail.errorInfo == "" && r.notice.None?
    ensures t.accepts(SetFrom(FromOf(config))) && ReplyToSet(config) ==>
      var op := AddReplyTo(config.replyTo.value);
      && r.mail.replyTo == (if t.accepts(op) then [config.replyTo.value] else [])
      && r.mail.errorInfo == (if t.accepts(op) then "" else t.errorFor(op))
      && r.notice == (if t.accepts(op) then None else Some(SetupEcho(op, t)))
  {
    var f := Apply(FreshMail, SetFrom(FromOf(config)), t);
    if f.thrown then Outcome(f.mail, Some(SetupEcho(SetFrom(FromOf(config)), t)))
    else if !ReplyToSet(config) then Outcome(f.mail, None)
    else
      var op := AddReplyTo(config.replyTo.value);
      var g := Apply(f.mail, op, t);
      Outcome(g.mail, if g.thrown then Some(SetupEcho(op, t)) else None)
  }

  /**
   * send(). The template exception skips formatting and transmission; the reply then quotes
   * the mailer's ErrorInfo, not the exception's own message. Exceptions inside formatMessage
   * are swallowed, so transmission is still attempted.
   */
  function SendOutcome(body: Body, isHTMLFile: bool, config: MailConfig, atts: seq<Attachment>,
                       mail: MailState, fs: Files, t: Transport): (r: SendStep)
    requires BodyMatches(body, isHTMLFile)
    ensures r.result.status ==> r.result.message == SentMessage
    ensures !r.result.status ==> r.result.message == FailurePrefix + r.mail.errorInfo
    ensures var loaded := !isHTMLFile || body.templateFile in fs;
      && (r.result.status <==> loaded && t.accepts(Transmit))
      && r.mail.transmissions == mail.transmissions + (if loaded then 1 else 0)
    ensures isHTMLFile && body.templateFile !in fs ==>
      r.body == body && r.mail == mail && r.notice.None?
    ensures isHTMLFile && body.templateFile in fs ==>
      r.body == Inline(Substitute(fs[body.templateFile], body.placeholders))
    ensures !isHTMLFile ==> r.body == body
    ensures (!isHTMLFile || body.templateFile in fs) && t.accepts(AddAddress(config.to)) ==>
      r.body.Inline? && r.mail.body == r.body.html
    ensures (!isHTMLFile || body.templateFile in fs) && !t.accepts(AddAddress(config.to)) ==>
      r.mail.body == mail.body
    ensures (!isHTMLFile || body.templateFile in fs) && !t.accepts(Transmit) ==>
      r.mail.errorInfo == t.errorFor(Transmit)
  {
    if isHTMLFile && body.templateFile !in fs then
      SendStep(body, mail, SendResult(false, FailurePrefix + mail.errorInfo), None)
    else
      var html := if isHTMLFile then Substitute(fs[body.templateFile], body.placeholders) else body.html;
      var f := Formatted(mail, config.to, config.subject, html, atts, t);
      var s := Apply(f.mail, Transmit, t);
      var result := if s.thrown then SendResult(false, FailurePrefix + s.mail.errorInfo)
                    else SendResult(true, SentMessage);
      SendStep(Inline(html), s.mail, result, f.notice)
  }

  class EmailSender {
    const config: MailConfig
    var body: Body
    const isHTMLFile: bool
    const attachments: seq<Attachment>
    /** The PHPMailer object, as EmailConfig's setup() left it and later calls changed it. */
    var mail: MailState
    const transport: Transport
    /** What setup() echoed while the object was constructed. */
    const setupNotice: Option<string>

    constructor (config: MailConfig, body: Body, isHTMLFile: bool, attachments: seq<Attachment>, transport: Transport)
      ensures this.config == config && this.body == body && this.isHTMLFile == isHTMLFile
      ensures this.attachments == attachments && this.transport == transport
      ensures Outcome(mail, setupNotice) == SetUp(config, transport)
    {
      this.config := config;
      this.body := body;
      this.isHTMLFile := isHTMLFile;
      this.attachments := attachments;
      this.transport := transport;
      var setup := SetUp(config, transport);
      mail := setup.mail;
      setupNotice := setup.notice;
    }

    /** loadTemplate: a missing file throws; otherwise one str_replace pass per placeholder. */
    method LoadTemplate(fs: Files, templateFile: string, placeholders: seq<Placeholder>)
      returns (r: Result<string, string>)
      ensures templateFile !in fs ==> r == Failure(TemplateNotFound)
      ensures templateFile in fs ==> r == Success(Substitute(fs[templateFile], placeholders))
    {
      if templateFile !in fs {
        return Failure(TemplateNotFound);
      }
      var template := fs[templateFile];
      var i := 0;
      while i < |placeholders|
        invariant 0 <= i <= |placeholders|
        invariant template == Substitute(fs[templateFile], placeholders[..i])
      {
        SubstituteSplit(fs[templateFile], placeholders, i);
        template := ReplaceAll(template, Token(placeholders[i].0), placeholders[i].1);
        i := i + 1;
      }
      assert placeholders[..i] == placeholders;
      r := Success(template);
    }

    /** formatMessage: its own exceptions are caught and only echoed. */
    method FormatMessage(to: Option<string>, subject: Option<string>, html: string, atts: seq<Attachment>)
      returns (notice: Option<string>)
      modifies this`mail
      ensures Outcome(mail, notice) == Formatted(old(mail), to, subject, html, atts, transport)
    {
      var a := Apply(mail, AddAddress(to), transport);
      mail := a.mail;
      if a.thrown {
        return Some(FormatNotice + mail.errorInfo);
      }
      mail := mail.(isHtml := true, subject := subject, body := html);
      ghost var headed := mail;
      var i := 0;
      while i < |atts|
        invariant 0 <= i <= |atts|
        invariant AttachAll(mail, atts[i..], transport) == AttachAll(headed, atts, transport)
      {
        var s := Apply(mail, AddAttachment(atts[i]), transport);
        assert atts[i..][0] == atts[i] && atts[i..][1..] == atts[i + 1..];
        mail := s.mail;
        if s.thrown {
          return Some(FormatNotice + mail.errorInfo);
        }
        i := i + 1;
      }
      notice := None;
    }

    /** send(): the result is always a status and a message; nothing escapes. */
    method Send(fs: Files) returns (r: SendResult, notice: Option<string>)
      requires BodyMatches(body, isHTMLFile)
      modifies this`body, this`mail
      ensures SendStep(body, mail, r, notice) ==
        SendOutcome(old(body), isHTMLFile, config, attachments, old(mail), fs, transport)
    {
      notice := None;
      if isHTMLFile {
        var loaded := LoadTemplate(fs, body.templateFile, body.placeholders);
        if loaded.Failure? {
          return SendResult(false, FailurePrefix + mail.errorInfo), None;
        }
        body := Inline(loaded.value);
      }
      notice := FormatMessage(config.to, config.subject, body.html, attachments);
      var s := Apply(mail, Transmit, transport);
      mail := s.mail;
      if s.thrown {
        r := SendResult(false, FailurePrefix + mail.errorInfo);
      } else {
        r := SendResult(true, SentMessage);
      }
    }
  }
}
