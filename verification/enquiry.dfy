/** The enquiry endpoint `mail-sending.php`: method check, three required
    form fields, e-mail format check, phone allow-list filter, an HTML body
    with every submitted value escaped plus a plain-text alternative, one send
    to two recipients, and a single terminal `respond`. */
module EnquiryForm {

  import opened PhpStrings
  import opened PhpHtml
  import opened Mail

  /** The parts of the HTTP request the script reads. */
  datatype Request = Request(verb: string, form: map<string, string>)

  /** The SMTP account and the two recipients. The script keeps these as
      literals; here they are a parameter. */
  datatype Config = Config(
    host: string, user: string, pass: string,
    toEmail: string, toName: string, toEmailSecondary: string, toNameSecondary: string)

  /** `filter_var(..., FILTER_VALIDATE_EMAIL)` and PHPMailer's `send()`. */
  datatype Env = Env(validEmail: string -> bool, send: Message -> SendResult)

  /** What `respond` writes: the status code and the JSON object's members. */
  datatype Reply = Reply(code: int, body: map<string, string>)

  const SmtpPort: int := 587
  const Subject: string := "Website Enquiry"

  /** `respond($status, $message, $code, $extra)`: one JSON object holding
      `status` and `message`, merged with `extra` (whose entries win, as with
      `array_merge` on string keys). */
  function Respond(status: string, message: string, code: int, extra: map<string, string>): (r: Reply)
    ensures r.code == code
    ensures r.body.Keys == {"status", "message"} + extra.Keys
    ensures forall k :: k in extra ==> r.body[k] == extra[k]
    ensures "status" !in extra ==> r.body["status"] == status
    ensures "message" !in extra ==> r.body["message"] == message
  {
    Reply(code, map["status" := status, "message" := message] + extra)
  }

  datatype Fields = Fields(name: string, email: string, phone: string, message: string)

  /** The four trimmed fields of `$_POST`, '' for an absent key. */
  function Submitted(req: Request): Fields {
    Fields(Trim(FieldOr(req.form, "name", "")), Trim(FieldOr(req.form, "email", "")),
           Trim(FieldOr(req.form, "phone", "")), Trim(FieldOr(req.form, "message", "")))
  }

  /** Only name, e-mail and message are required. */
  predicate MissingField(f: Fields) {
    f.name == "" || f.email == "" || f.message == ""
  }

  /** `\s` in a PCRE pattern without the /u flag. */
  predicate IsPcreSpace(c: char) {
    c == ' ' || c == '\t' || c == '\n' || c == '\U{0B}' || c == '\U{0C}' || c == '\r'
  }

  /** The characters `[0-9+\-\s]` the phone filter keeps. */
  predicate IsPhoneChar(c: char) {
    ('0' <= c <= '9') || c == '+' || c == '-' || IsPcreSpace(c)
  }

  /** `preg_replace('/[^0-9+\-\s]/', '', $phone)` */
  function PhoneClean(s: string): (r: string)
    ensures forall i :: 0 <= i < |r| ==> IsPhoneChar(r[i])
    ensures |r| <= |s|
  {
    if s == [] then []
    else if IsPhoneChar(s[0]) then [s[0]] + PhoneClean(s[1..])
    else PhoneClean(s[1..])
  }

  /** `a` is `b` with some characters deleted. */
  predicate IsSubsequence(a: string, b: string)
    decreases |b|
  {
    if a == [] then true
    else if b == [] then false
    else if a[0] == b[0] then IsSubsequence(a[1..], b[1..])
    else IsSubsequence(a, b[1..])
  }

  /** The filter only deletes: its output keeps the input's order. */
  lemma {:induction false} PhoneCleanSubsequence(s: string)
    ensures IsSubsequence(PhoneClean(s), s)
  {
    if s != [] {
      PhoneCleanSubsequence(s[1..]);
      if !IsPhoneChar(s[0]) {
        SubsequenceOfTail(PhoneClean(s[1..]), s[1..], s[0]);
      }
    }
  }

  lemma {:induction false} SubsequenceOfTail(a: string, b: string, c: char)
    requires IsSubsequence(a, b)
    ensures IsSubsequence(a, [c] + b)
    decreases |b|, 1
  {
    var cb := [c] + b;
    assert cb[1..] == b;
    if a != [] && a[0] == c {
      // `a[1..]` is a subsequence of `b` as well, since `a` is.
      SubsequenceDropHead(a, b);
    }
  }

  lemma {:induction false} SubsequenceDropHead(a: string, b: string)
    requires a != [] && IsSubsequence(a, b)
    ensures IsSubsequence(a[1..], b)
    decreases |b|, 0
  {
    assert b != [];
    if a[0] == b[0] {
      SubsequenceOfTail(a[1..], b[1..], b[0]);
      assert [b[0]] + b[1..] == b;
    } else {
      SubsequenceDropHead(a, b[1..]);
      SubsequenceOfTail(a[1..], b[1..], b[0]);
      assert [b[0]] + b[1..] == b;
    }
  }

  /** Every allowed character survives: a phone made only of allowed
      characters is left unchanged. */
  lemma {:induction false} PhoneCleanKeepsAllowed(s: string)
    requires forall i :: 0 <= i < |s| ==> IsPhoneChar(s[i])
    ensures PhoneClean(s) == s
  {
    if s != [] {
      PhoneCleanKeepsAllowed(s[1..]);
      assert [s[0]] + s[1..] == s;
    }
  }

  lemma PhoneCleanIdempotent(s: string)
    ensures PhoneClean(PhoneClean(s)) == PhoneClean(s)
  {
    PhoneCleanKeepsAllowed(PhoneClean(s));
  }

  /** Each allowed character occurs as often in the output as in the input;
      each other character not at all. */
  lemma {:induction false} PhoneCleanCounts(s: string, c: char)
    ensures CountChar(c, PhoneClean(s)) == if IsPhoneChar(c) then CountChar(c, s) else 0
  {
    if s != [] {
      PhoneCleanCounts(s[1..], c);
    }
  }

  /** The HTML body, every submitted value escaped; the message also has
      its line breaks marked with "<br />" after escaping. */
  function EnquiryHtml(name: string, email: string, phone: string, message: string): string {
    HtmlOpen + HtmlEscape(name) + HtmlAfterName + HtmlEscape(email) + HtmlAfterEmail
    + HtmlEscape(phone) + HtmlAfterPhone + Nl2br(HtmlEscape(message)) + HtmlClose
  }

  /** The '<' characters of the template text itself. */
  function TemplateTags(): nat {
    CountChar('<', HtmlOpen) + CountChar('<', HtmlAfterName) + CountChar('<', HtmlAfterEmail)
    + CountChar('<', HtmlAfterPhone) + CountChar('<', HtmlClose)
  }

  /** No submitted value can open a tag: the body holds the template's tags
      (those of the body for an empty submission) and one "<br />" per
      line-break sequence of the message, nothing else. */
  lemma HtmlTagCount(name: string, email: string, phone: string, message: string)
    ensures CountChar('<', EnquiryHtml(name, email, phone, message)) == TemplateTags() + BreakCount(message)
  {
    HtmlTagSum(name, email, phone, message);
    var en, ee, ep, em := HtmlEscape(name), HtmlEscape(email), HtmlEscape(phone), HtmlEscape(message);
    CountCharAbsent('<', en);
    CountCharAbsent('<', ee);
    CountCharAbsent('<', ep);
    CountCharAbsent('<', em);
    CountOpenNl2br(em);
    BreakCountEscape(message);
  }

  /** A submission whose message is one line adds no tag at all: its body
      has as many '<' as the body of an empty submission, whatever the
      name, e-mail and phone hold. */
  lemma SingleLineAddsNoTags(name: string, email: string, phone: string, message: string)
    requires forall i :: 0 <= i < |message| ==> !IsLineBreak(message[i])
    ensures CountChar('<', EnquiryHtml(name, email, phone, message)) == CountChar('<', EnquiryHtml("", "", "", ""))
  {
    HtmlTagCount(name, email, phone, message);
    NoBreakSequence(message);
    EmptyBodyTags();
  }

  /** `TemplateTags` is the tag count of the body of an empty submission. */
  lemma EmptyBodyTags()
    ensures CountChar('<', EnquiryHtml("", "", "", "")) == TemplateTags()
  {
    HtmlTagSum("", "", "", "");
    assert HtmlEscape("") == "" && Nl2br("") == "";
  }

  lemma NoBreakSequence(s: string)
    requires forall i :: 0 <= i < |s| ==> !IsLineBreak(s[i])
    ensures BreakCount(s) == 0
  {
    BreakCountPlainPrefix(s, "");
    assert s + "" == s;
  }

  /** The '<' count of the body, piece by piece. */
  lemma HtmlTagSum(name: string, email: string, phone: string, message: string)
    ensures CountChar('<', EnquiryHtml(name, email, phone, message))
      == TemplateTags() + CountChar('<', HtmlEscape(name)) + CountChar('<', HtmlEscape(email))
         + CountChar('<', HtmlEscape(phone)) + CountChar('<', Nl2br(HtmlEscape(message)))
  {
    CountInterleaved('<', HtmlOpen, HtmlEscape(name), HtmlAfterName, HtmlEscape(email), HtmlAfterEmail,
                     HtmlEscape(phone), HtmlAfterPhone, Nl2br(HtmlEscape(message)), HtmlClose);
  }

  lemma CountInterleaved(c: char, p0: string, a: string, p1: string, b: string, p2: string,
                         d: string, p3: string, e: string, p4: string)
    ensures CountChar(c, p0 + a + p1 + b + p2 + d + p3 + e + p4)
      == CountChar(c, p0) + CountChar(c, p1) + CountChar(c, p2) + CountChar(c, p3) + CountChar(c, p4)
         + CountChar(c, a) + CountChar(c, b) + CountChar(c, d) + CountChar(c, e)
  {
    CountCharAppend(c, p0 + a + p1 + b + p2 + d + p3 + e, p4);
    CountCharAppend(c, p0 + a + p1 + b + p2 + d + p3, e);
    CountCharAppend(c, p0 + a + p1 + b + p2 + d, p3);
    CountCharAppend(c, p0 + a + p1 + b + p2, d);
    CountCharAppend(c, p0 + a + p1 + b, p2);
    CountCharAppend(c, p0 + a + p1, b);
    CountCharAppend(c, p0 + a, p1);
    CountCharAppend(c, p0, a);
  }

  const HtmlOpen: string := "\n  <h2>New Website Enquiry</h2>\n  <p><strong>Name:</strong> "
  const HtmlAfterName: string := "</p>\n  <p><strong>Email:</strong> "
  const HtmlAfterEmail: string := "</p>\n  <p><strong>Phone:</strong> "
  const HtmlAfterPhone: string := "</p>\n  <p><strong>Message:</strong><br>"
  const HtmlClose: string := "</p>\n"

  /** The message can be read back from the HTML body's message part. */
  lemma HtmlMessageRecoverable(message: string)
    ensures HtmlUnescape(RemoveBreakTags(Nl2br(HtmlEscape(message)))) == message
  {
    var e := HtmlEscape(message);
    assert '<' !in e by {
      forall i | 0 <= i < |e| ensures e[i] != '<' { }
    }
    RemoveBreakTagsNl2br(e);
    UnescapeEscape(message);
  }

  /** The plain-text alternative body. */
  function EnquiryText(name: string, email: string, phone: string, message: string): string {
    "New Website Enquiry\n\n" + "Name: " + name + "\n" + "Email: " + email + "\n"
    + "Phone: " + phone + "\n\n" + "Message:\n" + message + "\n"
  }

  /** Read line by line, the text body is a fixed header, the three
      single-line fields, a "Message:" line, the message's own lines and a
      final empty line. */
  lemma TextLines(name: string, email: string, phone: string, message: string)
    requires '\n' !in name && '\n' !in email && '\n' !in phone
    ensures Lines(EnquiryText(name, email, phone, message))
      == ["New Website Enquiry", "", "Name: " + name, "Email: " + email, "Phone: " + phone, "", "Message:"]
         + Lines(message) + [""]
  {
    var h, a, b, c, k := "New Website Enquiry", "Name: " + name, "Email: " + email, "Phone: " + phone, "Message:";
    assert '\n' !in a by { NoLineFeedAfter("Name: ", name); }
    assert '\n' !in b by { NoLineFeedAfter("Email: ", email); }
    assert '\n' !in c by { NoLineFeedAfter("Phone: ", phone); }
    assert EnquiryText(name, email, phone, message)
      == h + "\n" + ("\n" + (a + "\n" + (b + "\n" + (c + "\n" + ("\n" + (k + "\n" + (message + "\n")))))));
    TextLayout(h, a, b, c, k, message);
  }

  lemma NoLineFeedAfter(prefix: string, s: string)
    requires '\n' !in prefix && '\n' !in s
    ensures '\n' !in prefix + s
  {
  }

  lemma {:induction false} TextLayout(h: string, a: string, b: string, c: string, k: string, message: string)
    requires '\n' !in h && '\n' !in a && '\n' !in b && '\n' !in c && '\n' !in k
    ensures Lines(h + "\n" + ("\n" + (a + "\n" + (b + "\n" + (c + "\n" + ("\n" + (k + "\n" + (message + "\n"))))))))
      == [h, "", a, b, c, "", k] + Lines(message) + [""]
  {
    var tail := c + "\n" + ("\n" + (k + "\n" + (message + "\n")));
    TextHead(h, a, b, tail);
    TextTail(c, k, message);
  }

  lemma TextHead(h: string, a: string, b: string, t: string)
    requires '\n' !in h && '\n' !in a && '\n' !in b
    ensures Lines(h + "\n" + ("\n" + (a + "\n" + (b + "\n" + t)))) == [h, "", a, b] + Lines(t)
  {
    LinesTwo(a, b, t);
    LinesBlank(a + "\n" + (b + "\n" + t));
    LinesCons(h, "\n" + (a + "\n" + (b + "\n" + t)));
  }

  lemma TextTail(c: string, k: string, message: string)
    requires '\n' !in c && '\n' !in k
    ensures Lines(c + "\n" + ("\n" + (k + "\n" + (message + "\n")))) == [c, "", k] + Lines(message) + [""]
  {
    LinesLast(k, message);
    LinesBlank(k + "\n" + (message + "\n"));
    LinesCons(c, "\n" + (k + "\n" + (message + "\n")));
  }

  /** The SMTP connection the script configures: STARTTLS on port 587 with
      authentication, UTF-8 text. */
  function Transport(c: Config): Message {
    Fresh.(viaSmtp := true, host := c.host, smtpAuth := true, username := c.user, password := c.pass,
           encryption := StartTls, port := SmtpPort, charSet := "UTF-8")
  }

  /** The message handed to `send()`, given the filtered phone number. */
  function Compose(c: Config, name: string, email: string, phoneClean: string, message: string): Message {
    Transport(c).(
      from := Address(c.user, "Saffron International Website"),
      to := [Address(c.toEmail, c.toName), Address(c.toEmailSecondary, c.toNameSecondary)],
      replyTo := [Address(email, name)], isHtml := true, subject := Subject,
      body := EnquiryHtml(name, email, phoneClean, message),
      altBody := EnquiryText(name, email, phoneClean, message))
  }

  /** The message `send()` is given for a valid submission. */
  function Envelope(c: Config, f: Fields): Message {
    Compose(c, f.name, f.email, PhoneClean(f.phone), f.message)
  }

  /** The mail goes to both configured recipients, in order, from the
      account that authenticates; replies go to the visitor; the HTML body
      and the text body carry the same filtered phone number. */
  lemma EnvelopeAddressing(c: Config, f: Fields)
    ensures var m := Envelope(c, f);
      m.to == [Address(c.toEmail, c.toName), Address(c.toEmailSecondary, c.toNameSecondary)]
      && m.from.email == m.username == c.user
      && m.replyTo == [Address(f.email, f.name)]
      && m.encryption == StartTls && m.port == 587 && m.subject == "Website Enquiry"
      && m.isHtml && m.body == EnquiryHtml(f.name, f.email, PhoneClean(f.phone), f.message)
      && m.altBody == EnquiryText(f.name, f.email, PhoneClean(f.phone), f.message)
  {
  }

  /** `new PHPMailer(true)` and the connection fields. */
  method NewTransport(c: Config) returns (mailer: Mailer)
    ensures fresh(mailer)
    ensures mailer.Snapshot() == Transport(c)
  {
    mailer := new Mailer();
    mailer.UseSmtp();
    mailer.host := c.host;
    mailer.smtpAuth := true;
    mailer.username := c.user;
    mailer.password := c.pass;
    mailer.encryption := StartTls;
    mailer.port := SmtpPort;
    mailer.charSet := "UTF-8";
  }

  /** The body of the `try` block up to `send()`: a new mailer configured
      field by field. */
  method BuildMail(c: Config, name: string, email: string, phoneClean: string, message: string,
                   html: string, text: string)
    returns (mailer: Mailer)
    requires html == EnquiryHtml(name, email, phoneClean, message)
    requires text == EnquiryText(name, email, phoneClean, message)
    ensures fresh(mailer)
    ensures mailer.Snapshot() == Compose(c, name, email, phoneClean, message)
  {
    mailer := NewTransport(c);
    mailer.SetFrom(c.user, "Saffron International Website");
    mailer.AddAddress(c.toEmail, c.toName);
    mailer.AddAddress(c.toEmailSecondary, c.toNameSecondary);
    mailer.AddReplyTo(email, name);
    mailer.SetHtml(true);
    mailer.subject := Subject;
    mailer.body := html;
    mailer.altBody := text;
  }

  /** The reply once `send()` has returned or thrown: success; a PHPMailer
      exception caught by the handler; or any other throwable, which ends
      the script with a fatal error that the shutdown handler answers. */
  function Outcome(result: SendResult): (reply: Reply)
    ensures reply.code == 200 <==> result.Sent?
    ensures reply.body.Keys == {"status", "message"}
    ensures reply.body["status"] == (if result.Sent? then "success" else "error")
    ensures result.Sent? ==> reply.body["message"] == "Message sent successfully"
    ensures result.Threw? ==> reply.code == 500
    ensures result.Threw? && result.error.fromMailer ==> reply.body["message"] == "Failed to send message"
    ensures result.Threw? && !result.error.fromMailer ==> reply.body["message"] == ServerError
  {
    match result
    case Sent => Respond("success", "Message sent successfully", 200, map[])
    case Threw(e) =>
      if e.fromMailer then Respond("error", "Failed to send message", 500, map[])
      else Respond("error", ServerError, 500, map[])
  }

  const ServerError: string := "Server error. Please try again later."

  /** The request passes every check and reaches `send()`. */
  predicate Accepted(req: Request, env: Env) {
    var f := Submitted(req);
    req.verb == "POST" && !MissingField(f) && env.validEmail(f.email)
  }

  /** The whole script: every path ends in exactly one `respond`, and a
      message is handed to `send()` only for an accepted request, once. */
  method HandleEnquiry(req: Request, c: Config, env: Env) returns (reply: Reply, attempts: seq<Message>)
    ensures req.verb != "POST" ==> reply == Respond("error", "Method not allowed.", 405, map[])
    ensures req.verb == "POST" && MissingField(Submitted(req)) ==>
      reply == Respond("error", "Please fill all required fields.", 400, map[])
    ensures req.verb == "POST" && !MissingField(Submitted(req)) && !env.validEmail(Submitted(req).email) ==>
      reply == Respond("error", "Invalid email address.", 400, map[])
    ensures !Accepted(req, env) ==> attempts == [] && reply.code in {400, 405}
    ensures Accepted(req, env) ==>
      attempts == [Envelope(c, Submitted(req))] && reply == Outcome(env.send(attempts[0]))
  {
    attempts := [];
    if req.verb != "POST" {
      reply := Respond("error", "Method not allowed.", 405, map[]);
      return;
    }
    var name := Trim(FieldOr(req.form, "name", ""));
    var email := Trim(FieldOr(req.form, "email", ""));
    var phone := Trim(FieldOr(req.form, "phone", ""));
    var message := Trim(FieldOr(req.form, "message", ""));
    if name == "" || email == "" || message == "" {
      reply := Respond("error", "Please fill all required fields.", 400, map[]);
      return;
    }
    if !env.validEmail(email) {
      reply := Respond("error", "Invalid email address.", 400, map[]);
      return;
    }
    var phoneClean := PhoneClean(phone);
    var html := EnquiryHtml(name, email, phoneClean, message);
    var text := EnquiryText(name, email, phoneClean, message);
    var mailer := BuildMail(c, name, email, phoneClean, message, html, text);
    var sent := mailer.Snapshot();
    attempts := [sent];
    reply := Outcome(env.send(sent));
  }
}
