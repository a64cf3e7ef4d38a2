/**
 * The contact form handler (backend/internal/handlers/contact.go): validation, the
 * short-circuit when SMTP is not configured, the recipient default and the message text.
 * Sending is left to the caller: the model yields the mail to send, and the reply takes
 * whether sending succeeded as an input.
 */
module Contact {
  import opened Wrappers
  import opened Text
  import opened Js
  import opened Patch

  datatype ContactRequest = ContactRequest(name: string, email: string, subject: string, message: string)

  /** The SMTP_HOST, SMTP_PORT, SMTP_USER, SMTP_PASS and RECIPIENT_EMAIL environment variables. */
  datatype SmtpEnv = SmtpEnv(host: string, port: string, user: string, pass: string, recipient: string)

  predicate Configured(env: SmtpEnv) {
    env.host != "" && env.port != "" && env.user != "" && env.pass != ""
  }

  /** An outgoing message: server address, envelope sender and recipients, and the message text. */
  datatype Mail = Mail(addr: string, from: string, to: seq<string>, body: string)

  datatype ContactOutcome =
    | ContactRejected(message: string)
    | ReceivedOnly
    | SendMail(mail: Mail)

  /** The lines of the message, each ending in CRLF, joined into the text that is sent. */
  function MessageLines(from: string, to: string, req: ContactRequest): seq<string> {
    [ "From: " + from + "\r\n",
      "To: " + to + "\r\n",
      "Subject: Portfolio Contact: " + req.subject + "\r\n",
      "MIME-Version: 1.0\r\n",
      "Content-Type: text/plain; charset=UTF-8\r\n",
      "\r\n",
      "You have received a new contact form submission from your portfolio:\r\n\r\n",
      "Name: " + req.name + "\r\n",
      "Email: " + req.email + "\r\n",
      "Subject: " + req.subject + "\r\n\r\n",
      "Message:\r\n" + req.message + "\r\n" ]
  }

  /** The message text: it opens with the From header and contains every submitted field. */
  function MessageBody(from: string, to: string, req: ContactRequest): (body: string)
    ensures |"From: " + from + "\r\n"| <= |body|
    ensures body[..|"From: " + from + "\r\n"|] == "From: " + from + "\r\n"
    ensures ContainsStr(body, "To: " + to + "\r\n")
    ensures ContainsStr(body, "Subject: Portfolio Contact: " + req.subject + "\r\n")
    ensures ContainsStr(body, req.name) && ContainsStr(body, req.email)
    ensures ContainsStr(body, req.subject) && ContainsStr(body, req.message)
  {
    var lines := MessageLines(from, to, req);
    ConcatPrefix(lines);
    ConcatContains(lines, 1);
    ConcatContains(lines, 2);
    ConcatContains(lines, 7);
    ContainsWithin(Concat(lines), lines[7], "Name: ", req.name, "\r\n");
    ConcatContains(lines, 8);
    ContainsWithin(Concat(lines), lines[8], "Email: ", req.email, "\r\n");
    ConcatContains(lines, 9);
    ContainsWithin(Concat(lines), lines[9], "Subject: ", req.subject, "\r\n\r\n");
    ConcatContains(lines, 10);
    ContainsWithin(Concat(lines), lines[10], "Message:\r\n", req.message, "\r\n");
    Concat(lines)
  }

  /**
   * A valid submission: only acknowledged without the four SMTP settings; otherwise a mail
   * from the SMTP user to RECIPIENT_EMAIL, or to the SMTP user when that is unset.
   */
  function Deliver(req: ContactRequest, env: SmtpEnv): (r: ContactOutcome)
    ensures r.ReceivedOnly? <==> !Configured(env)
    ensures !r.ReceivedOnly? ==>
              && r.SendMail?
              && r.mail.from == env.user
              && r.mail.to == [if env.recipient == "" then env.user else env.recipient]
              && r.mail.addr == env.host + ":" + env.port
              && r.mail.body == MessageBody(env.user, r.mail.to[0], req)
  {
    if !Configured(env) then ReceivedOnly
    else
      var recipient := if env.recipient == "" then env.user else env.recipient;
      SendMail(Mail(env.host + ":" + env.port, env.user, [recipient], MessageBody(env.user, recipient, req)))
  }

  /** Whether every field of the submission is non-empty. */
  predicate Filled(q: ContactRequest) {
    q.name != "" && q.email != "" && q.subject != "" && q.message != ""
  }

  /**
   * `SendContactEmail` up to sending: an unparsable body, an empty field, then an e-mail
   * without '@' are rejected; valid submissions go on to `Deliver`.
   */
  function HandleContact(body: Option<ContactRequest>, env: SmtpEnv): (r: ContactOutcome)
    ensures body.None? ==> r == ContactRejected("Invalid request body")
    ensures body.Some? && !Filled(body.value) ==> r == ContactRejected("All fields are required")
    ensures body.Some? && Filled(body.value) && '@' !in body.value.email ==> r == ContactRejected("Invalid email address")
    ensures !r.ContactRejected? <==> body.Some? && Filled(body.value) && '@' in body.value.email
    ensures r.ReceivedOnly? <==> body.Some? && Filled(body.value) && '@' in body.value.email && !Configured(env)
    ensures r.SendMail? ==>
              && Configured(env)
              && r.mail.from == env.user
              && r.mail.to == [if env.recipient == "" then env.user else env.recipient]
              && r.mail.addr == env.host + ":" + env.port
              && r.mail.body == MessageBody(env.user, r.mail.to[0], body.value)
  {
    match body
    case None => ContactRejected("Invalid request body")
    case Some(req) =>
      if !Filled(req) then ContactRejected("All fields are required")
      else if '@' !in req.email then ContactRejected("Invalid email address")
      else Deliver(req, env)
  }

  /** The HTTP reply; `sent` is whether the SMTP transaction succeeded. */
  function ContactReply(outcome: ContactOutcome, sent: bool): (r: Reply)
    ensures outcome.ContactRejected? ==> r == Reply(400, ErrorBody(outcome.message))
    ensures outcome.ReceivedOnly? ==> r.status == 200
    ensures outcome.SendMail? ==> (r.status == 200 <==> sent) && (r.status == 500 <==> !sent)
  {
    match outcome
    case ContactRejected(message) => Reply(400, ErrorBody(message))
    case ReceivedOnly =>
      Reply(200, JObj(map["success" := JBool(true),
                          "message" := JStr("Message received! (Note: Email sending is not configured yet)")]))
    case SendMail(_) =>
      if sent then
        Reply(200, JObj(map["success" := JBool(true),
                            "message" := JStr("Message sent successfully! I'll get back to you soon.")]))
      else
        Reply(500, ErrorBody("Failed to send email. Please try again or contact directly at jackphillips1313@gmail.com"))
  }
}
