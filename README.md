# Contact-form mailer, modelled in Dafny

The system is one PHP endpoint, `contact.php`, and the class `EmailSender`.
A POSTed contact form goes through four steps:

1. Two rules check the phone number and the email address. Each failing rule adds a message.
2. Each of the six form fields is escaped with `htmlspecialchars`.
3. The fields are substituted into the `{{key}}` tokens of the HTML template `home/contact-us.html`.
4. The body is handed to PHPMailer. The outcome becomes the JSON reply
   `{status, message}`, or `{status:false, message:"Validation failed.", error:[…]}`.

## Modules

- `StrReplace` (`str_replace.dfy`) models PHP's `str_replace` with one search string as `ReplaceAll`.
  Occurrences are found left to right and do not overlap. `Count` counts them with the same scan.
- `Template` (`template.dfy`) models the `foreach` of `loadTemplate` as `Substitute`.
  It folds one pass per placeholder, in array order. Each pass works on the previous pass's output.
- `TemplateShape` (`template_shape.dfy`) reads a template as text segments and `{{key}}` holes.
  It proves when the order of the placeholders does not matter, and shows that it can matter otherwise.
- `Html` (`html.dfy`) models `htmlspecialchars` under PHP 8.1's defaults (ENT_QUOTES, double encoding).
  A decoder for the five entities is its round-trip partner.
- `Validation` (`validation.dfy`) holds the phone rule `/^\d{10}$/` and PHP's `empty()`.
  It also holds the method that builds `$errors` one rule at a time.
- `Mailer` (`mailer.dfy`) is the PHPMailer object, reduced to the fields that `setup`, `formatMessage` and `send` change.
  An opaque `Transport` decides which library calls throw and what `ErrorInfo` they leave behind.
- `Sender` (`email_sender.dfy`) is the class `EmailSender`, with its `body` and `mail` fields.
  Its constructor runs the `setup()` it inherits from `EmailConfig`, specified by `SetUp`.
  `LoadTemplate` and `FormatMessage` are loops. `Send` overwrites `body` and returns the reply.
  The function `SendOutcome` specifies `Send`.
- `Contact` (`contact.dfy`) is the script: the method gate, validation, placeholders, fixed
  template, the configuration and the pass-through of the reply.

## Behaviour the code has and the model keeps

- The passes run one after another. If a value holds `{{laterKey}}`, the later pass rewrites it.
  This includes a user's own input, such as a `name_address` of `{{email_id}}`.
  So the order of the passes can matter. It does not matter under the shape condition of
  `TemplateShape.SubstituteReorder`. `TemplateShape.OrderMattersAroundStrayBraces` shows a
  template whose result depends on the order even though no value contains a brace.
- `$server_config` has no `to` key and no `subject` key, so `send` reads both as null.
  `formatMessage` hands the null recipient to `addAddress` unchanged (mailer/EmailSender.php:51,72)
  and sets a null subject. The model keeps both as `None`; what the library does with a
  null address is up to the `Transport`.
- When the template file is missing, the reply is `"Failed to send email. Error: "` followed by
  the mailer's `ErrorInfo`. The exception's own text is dropped. ErrorInfo is empty unless
  `setup()`'s `setFrom`, or its `addReplyTo` when a reply-to is configured, threw while the sender
  was constructed (`Sender.SetUp`). The contact form configures no reply-to, so its reply is
  exactly the prefix when `setFrom` was accepted, and the prefix followed by `setFrom`'s error
  otherwise (`Contact.ContactSend`).
- `setup()` catches its own exceptions (a refused `setFrom` or `addReplyTo`) and echoes
  `"Mailer Error: "`, the ErrorInfo and the exception's text. The object is kept, so sending still goes ahead.
- `formatMessage` catches its own exceptions (a refused address or attachment). It echoes a notice,
  which appears in the response before the JSON, and `send` still reaches the transmit step.
  So a refused attachment does not make `send()` fail: `formatMessage` catches it
  (mailer/EmailSender.php:61-63) and the message is still sent.
- PCRE's `$` without the `D` modifier also matches before a final newline, so `"9876543210\n"` passes the phone rule.
- `empty()` is also true of `"0"`. A field that was not posted reads as null and is treated as `""`.

## Model

| member | source | states |
|---|---|---|
| `StrReplace.ReplaceAll` | mailer/EmailSender.php:42 | str_replace with one search string, a left-to-right non-overlapping scan; an empty search string, or a replacement equal to the search string, leaves the subject unchanged |
| `StrReplace.ReplaceAllLength` | mailer/EmailSender.php:42 | one pass changes the length by the number of replaced occurrences times (the value's length minus the token's length) |
| `StrReplace.CountPositive` | mailer/EmailSender.php:42 | the left-to-right scan replaces something exactly when the token occurs somewhere in the text |
| `StrReplace.ReplaceAllAbsent` | mailer/EmailSender.php:42 | a pass whose token does not occur leaves the text unchanged |
| `StrReplace.ReplaceAllKeepsForeignChar` | mailer/EmailSender.php:42 | a character in neither the token nor the value occurs as often after the pass as before |
| `StrReplace.ReplaceAllSkipsPrefix` | mailer/EmailSender.php:42 | a prefix at none of whose positions the token starts is copied unchanged, and the scan resumes after it |
| `Template.Substitute` | mailer/EmailSender.php:41-43 | the foreach as a fold of passes in array order, each on the previous result; no placeholders, or placeholders that each map a key to its own token, leave the template unchanged |
| `Template.SubstituteSplit` | mailer/EmailSender.php:41-43 | the first i+1 passes are the (i+1)-th pass applied to the result of the first i (the loop's sequential reassignment) |
| `Template.SubstituteWithoutTokens` | mailer/EmailSender.php:41-45 | with no placeholders, or when no placeholder's token occurs in the template, the rendered body is the template exactly |
| `Template.SubstituteKeepsForeignChar` | mailer/EmailSender.php:41-43 | a character that is in no key, in no value and is not a brace occurs in the body as often as in the template |
| `Template.ValueTokenRewrittenLater` | mailer/EmailSender.php:41-43 | a value that carries a later key's token is rewritten by the later pass |
| `TemplateShape.DistinctTokens` | mailer/EmailSender.php:42 | the token of one brace-free key never starts with the token of another |
| `TemplateShape.PassRender` | mailer/EmailSender.php:42 | on a template of text without `{` and holes with brace-free keys, a pass whose own key is brace-free replaces exactly the holes of its key |
| `TemplateShape.SubstituteRender` | mailer/EmailSender.php:41-43 | on such a template, with brace-free placeholder keys and placeholder values that contain no `{`, the fold fills every hole with the value of the first placeholder that has its key, and leaves unmatched holes verbatim |
| `TemplateShape.SubstituteReorder` | mailer/EmailSender.php:41-43 | with distinct keys (a PHP array), such a template and values without `{`, any reordering of the placeholders renders the same body |
| `TemplateShape.OrderMattersAroundStrayBraces` | mailer/EmailSender.php:41-43 | for any two distinct brace-free keys, the template `{{{{a}}b}}` renders differently under the two orders although no value contains a brace |
| `Html.EscapeChar` | contact.php:37-42 | htmlspecialchars' character table under ENT_QUOTES: a character is rewritten exactly when it is one of `&`, `<`, `>`, `"`, `'`, and its replacement holds none of `<`, `>`, `"`, `'` |
| `Html.Escape` | contact.php:37-42 | the escaped text contains no `<`, `>`, `"` or `'`, and is no shorter than the input |
| `Html.UnescapeEscape` | contact.php:37-42 | decoding the five entities recovers the input, so escaping loses nothing |
| `Html.EscapeIdentity` | contact.php:37-42 | escaping leaves a string unchanged exactly when it has none of `&`, `<`, `>`, `"`, `'` |
| `Html.EscapeAppend` | contact.php:37-42 | escaping works character by character: the escape of a concatenation is the concatenation of the escapes |
| `Validation.TenDigitsShape` | contact.php:19 | the phone rule accepts exactly ten ASCII digits, optionally followed by one newline; such a number is never `empty()` |
| `Validation.DollarAcceptsFinalNewline` | contact.php:19 | ten digits with one final newline pass; nine digits, two newlines or a letter fail |
| `Validation.TenDigits` | contact.php:19 | definition: ten ASCII digits from the start of the subject, then PCRE's `$` without the D modifier (the end, or just before a final newline) |
| `Validation.Errors` | contact.php:16-24 | the phone message is present exactly when the phone is empty or fails the pattern; the email message exactly when the email is empty or invalid; nothing else, at most two entries, in the order [phone, email]; empty exactly when both rules pass |
| `Validation.Validate` | contact.php:16-24 | the statements that append to `$errors` one rule at a time build exactly `Validation.Errors` |
| `Mailer.Apply` | mailer/EmailSender.php:51-73 | a PHPMailer call (setFrom, addReplyTo, addAddress, addAttachment, send) throws exactly when the transport refuses it, and then records the transport's error text in ErrorInfo; only `send()` counts as a transmission |
| `Mailer.AttachAll` | mailer/EmailSender.php:58-60 | the attachment foreach changes only the attachments and ErrorInfo; when no call throws, every attachment is added in order and ErrorInfo is kept |
| `Mailer.FirstRefused` | mailer/EmailSender.php:58-60 | the first attachment the library refuses: every earlier one is accepted |
| `Mailer.AttachAllInOrder` | mailer/EmailSender.php:58-60 | attachments are added in list order with their own path and name up to the first refusal; the refusal's error is the only other change |
| `Mailer.Formatted` | mailer/EmailSender.php:48-64 | a refused address leaves the mailer unchanged but for ErrorInfo; otherwise the recipient (null included), HTML mode, subject and body are set and the attachments are added in order; ErrorInfo is untouched when every attachment is accepted and is the first refused attachment's error otherwise; the echoed notice quotes that ErrorInfo; sender and reply-to are untouched and nothing is transmitted |
| `Sender.SetUp` | mailer/EmailConfig.php:20-45 | a refused setFrom leaves a new mailer with only its error recorded and echoes "Mailer Error: " with the error and the exception text; an accepted one records the sender; addReplyTo is called only for a set, non-empty reply-to, and its refusal is echoed the same way; with no refusal ErrorInfo stays empty and nothing is echoed; no recipient, attachment or transmission |
| `Sender.SendOutcome` | mailer/EmailSender.php:66-84 | status is true, with message "Email Sent", exactly when the body was obtained and the transport delivered; otherwise the message is "Failed to send email. Error: " plus ErrorInfo, which after a refused send() is that call's error; a missing template changes neither body nor mailer; inline bodies are kept, rendered templates overwrite the body; once the recipient is accepted the mailer's body (msgHTML) is exactly the new body field, and after a refused recipient the mailer's body is unchanged |
| `Sender.EmailSender.constructor` | mailer/EmailSender.php:22-28 | stores the configuration, body, flag and attachments; the mailer and the echoed setup notice are those of `Sender.SetUp` |
| `Sender.EmailSender.LoadTemplate` | mailer/EmailSender.php:33-46 | a missing file fails with "HTML Template file not found"; otherwise the result is the fold of the passes over the file's contents |
| `Sender.EmailSender.FormatMessage` | mailer/EmailSender.php:48-64 | the new mailer state and echoed notice are those of `Mailer.Formatted` on the old state |
| `Sender.EmailSender.Send` | mailer/EmailSender.php:66-84 | the new body field, the new mailer state, the reply and the notice are those of `Sender.SendOutcome` on the old state |
| `Contact.ContactPlaceholders` | contact.php:36-43 | exactly the six keys, in order and distinct, each bound to the escaped field; no value contains `<`, `>`, `"` or `'` |
| `Contact.ServerConfig` | contact.php:45-54 | the configuration has no recipient and no subject; the sender is the SMTP from address and name; reply-to is empty, so setup never calls addReplyTo; the debug level is 0 |
| `Contact.ContactSend` | contact.php:56-65 | a valid submission succeeds exactly when the template exists and the transport delivers; send() is reached exactly when the template exists; the only possible recipient is the null address; no attachments; a missing template replies "Failed to send email. Error: ", followed by setFrom's error exactly when setFrom was refused during construction |
| `Contact.HandleRequest` | contact.php:6-70 | a non-POST request gets status 400 and nothing else; failed validation gets "Validation failed." with the ordered errors and no send; otherwise setup's and formatMessage's notices are echoed in that order, then the sender's reply unchanged; send() is never reached without a valid POST |
| `Contact.MarkupOnlyFromTemplate` | contact.php:36-43 | the rendered contact body holds exactly as many `<`, `>`, `"` and `'` as the template: none comes from user input |
| `Contact.ValidSubmissionSent` | contact.php:16-67 | phone 9876543210 and email a@b.com pass validation, and with the template on disk and a delivering transport the reply is status true, "Email Sent" |

## Left out

- The connection settings that `setup()` assigns (mailer/EmailConfig.php:28-36) are not part of the mailer state: isSMTP, host, port, credentials, SMTPAuth, STARTTLS and the debug level. None of them can throw and no modelled operation reads them. `ServerConfig` only carries the values.
- PHPMailer and the SMTP/TLS exchange are hidden behind `Transport`, which decides for each `setFrom`, `addReplyTo`, `addAddress`, `addAttachment` and `send()` whether it throws, what ErrorInfo it leaves and what the exception's `errorMessage()` says. PHP's handling of a null argument (`addAddress(null)`, a null sender) happens inside the library and is the Transport's decision too. `isHTML`, the subject assignment and `msgHTML` are taken never to throw. The alternative text and image embedding done by `msgHTML` are not modelled, and neither is the library's trimming and validating of addresses.
- `filter_input` with FILTER_SANITIZE_STRING / FILTER_SANITIZE_EMAIL: the request carries the fields as they are after sanitising.
- FILTER_VALIDATE_EMAIL is a predicate passed in by the caller (`isValidEmail`).
- File I/O: the file system is a map from existing paths to contents. A file that exists but cannot be read is not modelled.
- `echo`, `json_encode`, `http_response_code` and `exit` are modelled by the returned `Response` value. PHP's deprecation and undefined-key warnings are not part of it.
- Strings are sequences of characters. UTF-8 validity, which matters to ENT_SUBSTITUTE, is not modelled.
- Sender.EmailSender.Send: requires the body kind to match `isHTMLFile`, as the constructor's docblock asks. With `isHTMLFile` true and an inline body, the call at mailer/EmailSender.php:70 raises a PHP Error, not an Exception, at the latest when a string reaches `loadTemplate`'s `array $placeholders` parameter (line 33), and the Error escapes `send`. With `isHTMLFile` false and an array body, a refused `addAddress` (line 51) is caught at lines 61-63 and `send()` goes on to line 73; once the address is accepted, the array reaches `msgHTML` (line 56), whose handling of it is inside the library. Neither mismatch is modelled. After one send with a template the body is inline HTML, so a second send is outside the precondition.
- TemplateShape.SubstituteReorder: order independence is proved only for templates whose text has no `{`, brace-free keys and values without `{`. Without these conditions it does not hold (`TemplateShape.OrderMattersAroundStrayBraces`).
