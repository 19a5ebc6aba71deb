/**
 * The PHPMailer object that EmailSender drives, reduced to the state its calls change.
 * Whether a call throws is decided by an opaque Transport: the address and file checks and
 * the SMTP exchange happen inside the library. A call that throws records the library's
 * error text in ErrorInfo and changes nothing else.
 */
module Mailer {
  import opened Wrappers

  datatype Attachment = Attachment(path: string, name: string)

  /** The two arguments of setFrom, as the configuration gives them (None for null). */
  datatype Address = Address(address: Option<string>, name: Option<string>)

  /**
   * The PHPMailer calls that can throw. Arguments are kept as the caller passes them: a null
   * recipient stays None, and what the library makes of it is the Transport's business.
   */
  datatype MailOp =
    | SetFrom(from: Address)
    | AddReplyTo(replyTo: string)
    | AddAddress(address: Option<string>)
    | AddAttachment(attachment: Attachment)
    | Transmit

  /**
   * The library and the network: which calls succeed; for one that fails, the ErrorInfo text it
   * leaves and the text errorMessage() gives for the exception it throws.
   */
  datatype Transport = Transport(accepts: MailOp -> bool, errorFor: MailOp -> string,
                                 thrownText: MailOp -> string)

  /** The fields of the PHPMailer object that setup, formatMessage and send touch. */
  datatype MailState = MailState(
    from: Option<Address>,
    replyTo: seq<string>,
    recipients: seq<Option<string>>,
    isHtml: bool,
    subject: Option<string>,
    body: string,
    attachments: seq<Attachment>,
    errorInfo: string,
    transmissions: nat)

  /**
   * A new PHPMailer: no sender set by the caller, no reply-to and no recipient, plain text,
   * empty subject, body and ErrorInfo.
   */
  const FreshMail := MailState(None, [], [], false, Some(""), "", [], "", 0)

  const FormatNotice := "Failed to format HTML Template. Error: "

  /** The state after a call and whether it threw. */
  datatype Step = Step(mail: MailState, thrown: bool)

  /** One PHPMailer call. send() counts as a transmission attempt whether or not it succeeds. */
  function Apply(m: MailState, op: MailOp, t: Transport): (r: Step)
    ensures r.thrown <==> !t.accepts(op)
    ensures r.thrown ==> r.mail.errorInfo == t.errorFor(op)
    ensures r.mail.transmissions == m.transmissions + (if op.Transmit? then 1 else 0)
  {
    var m' := if op.Transmit? then m.(transmissions := m.transmissions + 1) else m;
    if !t.accepts(op) then Step(m'.(errorInfo := t.errorFor(op)), true)
    else match op
      case SetFrom(a) => Step(m'.(from := Some(a)), false)
      case AddReplyTo(a) => Step(m'.(replyTo := m'.replyTo + [a]), false)
      case AddAddress(a) => Step(m'.(recipients := m'.recipients + [a]), false)
      case AddAttachment(x) => Step(m'.(attachments := m'.attachments + [x]), false)
      case Transmit => Step(m', false)
  }

  /**
   * The foreach over the attachments: addAttachment in list order until one throws. Only the
   * attachments and ErrorInfo can change; when none throws, all are added and ErrorInfo is kept.
   */
  function AttachAll(m: MailState, atts: seq<Attachment>, t: Transport): (r: Step)
    ensures r.mail == m.(attachments := r.mail.attachments, errorInfo := r.mail.errorInfo)
    ensures !r.thrown ==> r.mail.attachments == m.attachments + atts && r.mail.errorInfo == m.errorInfo
    decreases |atts|
  {
    if atts == [] then Step(m, false)
    else
      var s := Apply(m, AddAttachment(atts[0]), t);
      if s.thrown then s else AttachAll(s.mail, atts[1..], t)
  }

  /** The index of the first attachment the library refuses, or the length of the list. */
  function FirstRefused(atts: seq<Attachment>, t: Transport): (k: nat)
    ensures k <= |atts|
    ensures forall j :: 0 <= j < k ==> t.accepts(AddAttachment(atts[j]))
    ensures k < |atts| ==> !t.accepts(AddAttachment(atts[k]))
    decreases |atts|
  {
    if atts == [] || !t.accepts(AddAttachment(atts[0])) then 0
    else 1 + FirstRefused(atts[1..], t)
  }

  /**
   * Attachments are added in list order, each with its own path and name, up to the first
   * one refused; the refusal is the only error recorded and nothing else changes.
   */
  lemma {:induction false} AttachAllInOrder(m: MailState, atts: seq<Attachment>, t: Transport)
    ensures var k := FirstRefused(atts, t);
      var r := AttachAll(m, atts, t);
      && (r.thrown <==> k < |atts|)
      && r.mail == m.(attachments := m.attachments + atts[..k],
                      errorInfo := if k < |atts| then t.errorFor(AddAttachment(atts[k])) else m.errorInfo)
    decreases |atts|
  {
    if atts != [] {
      var s := Apply(m, AddAttachment(atts[0]), t);
      if !s.thrown {
        assert s.mail == m.(attachments := m.attachments + [atts[0]]);
        AttachAllInOrder(s.mail, atts[1..], t);
        var k := FirstRefused(atts[1..], t);
        assert atts[..k + 1] == [atts[0]] + atts[1..][..k];
        assert (m.attachments + [atts[0]]) + atts[1..][..k] == m.attachments + atts[..k + 1];
        assert FirstRefused(atts, t) == k + 1;
        if k < |atts| - 1 {
          assert atts[1..][k] == atts[k + 1];
        }
      }
    }
  }

  /** The mailer state after a sequence of calls, and the text echoed when one of them threw. */
  datatype Outcome = Outcome(mail: MailState, notice: Option<string>)

  /**
   * formatMessage: addAddress, isHTML(true), the subject, msgHTML, then the attachments.
   * An exception stops the remaining calls and is caught here: it only produces a notice.
   * The recipient is passed on as it is, null included.
   */
  function Formatted(m: MailState, to: Option<string>, subject: Option<string>, body: string,
                     atts: seq<Attachment>, t: Transport): (r: Outcome)
    ensures r.notice.Some? ==> r.notice.value == FormatNotice + r.mail.errorInfo
    ensures r.mail.transmissions == m.transmissions
    ensures r.mail.from == m.from && r.mail.replyTo == m.replyTo
    ensures !t.accepts(AddAddress(to)) ==>
      r.mail == m.(errorInfo := t.errorFor(AddAddress(to))) && r.notice.Some?
    ensures t.accepts(AddAddress(to)) ==>
      var k := FirstRefused(atts, t);
      && r.mail.recipients == m.recipients + [to]
      && r.mail.isHtml && r.mail.subject == subject && r.mail.body == body
      && r.mail.attachments == m.attachments + atts[..k]
      && r.mail.errorInfo == (if k < |atts| then t.errorFor(AddAttachment(atts[k])) else m.errorInfo)
      && (r.notice.None? <==> k == |atts|)
  {
    var a := Apply(m, AddAddress(to), t);
    if a.thrown then Outcome(a.mail, Some(FormatNotice + a.mail.errorInfo))
    else
      var headed := a.mail.(isHtml := true, subject := subject, body := body);
      var s := AttachAll(headed, atts, t);
      AttachAllInOrder(headed, atts, t);
      Outcome(s.mail, if s.thrown then Some(FormatNotice + s.mail.errorInfo) else None)
  }
}
