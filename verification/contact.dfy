/** The contact-form endpoint `contact.php`: method check, JSON-or-form body,
    trimmed required fields, e-mail format check, mail configuration with
    defaults, CR/LF collapsing of the header-bound fields, the plain-text body,
    and delivery with a single STARTTLS fallback when implicit TLS fails.
    Every early `exit` of the script is a `return` of `HandleContact`. */
module ContactForm {

  import opened Wrappers
  import opened PhpStrings
  import opened Mail

  /** The parts of the HTTP request the script reads. */
  datatype Request = Request(
    verb: string,                    // $_SERVER['REQUEST_METHOD']
    contentType: Option<string>,     // $_SERVER['CONTENT_TYPE'], if set
    rawBody: string,                 // php://input
    form: map<string, string>)       // $_POST

  /** The array returned by contact-mail-config.php; an absent key or a null
      value is `None`. `smtpPort` is the value after the `(int)` cast. */
  datatype Config = Config(
    smtpHost: Option<string>,
    smtpPort: Option<int>,
    smtpSecure: Option<string>,
    smtpUser: Option<string>,
    smtpPass: Option<string>,
    mailTo: Option<string>,
    mailFrom: Option<string>)

  /** The files the script loads: the config file (`None` when it does not
      exist) and the Composer autoloader. */
  datatype Deployment = Deployment(config: Option<Config>, libraryInstalled: bool)

  /** Library routines the model does not look into: `json_decode` (`None`
      for a null or non-array result), `filter_var(..., FILTER_VALIDATE_EMAIL)`
      and PHPMailer's `send()` for the given attempt (0 first, 1 fallback). */
  datatype Env = Env(
    jsonDecode: string -> Option<map<string, string>>,
    validEmail: string -> bool,
    send: (nat, Message) -> SendResult)

  /** The status code and the JSON object written. */
  datatype Reply = Reply(code: int, success: bool, message: string, error: Option<string>)

  datatype Fields = Fields(name: string, email: string, subject: string, phone: string, message: string)

  /** The mail settings after defaults are applied. */
  datatype Settings = Settings(
    host: string, port: int, secure: string, user: string, pass: string,
    mailTo: string, mailFrom: string)

  const SentReply: Reply := Reply(200, true, "Message sent successfully.", None)

  function FailedReply(error: string): Reply {
    Reply(500, false, "Unable to send message right now.", Some(error))
  }

  const FallbackPort: int := 587
  const FallbackNote: string := " (TLS fallback failed)"

  /** The body is read as JSON only when it is not PHP-empty and the content
      type mentions application/json anywhere. */
  predicate UsesJson(req: Request) {
    !IsPhpEmpty(req.rawBody) && Contains(req.contentType.GetOr(""), "application/json")
  }

  /** `$data`: the decoded JSON object (or [] when decoding gives null), or
      `$_POST`. */
  function Payload(req: Request, jsonDecode: string -> Option<map<string, string>>): map<string, string> {
    if UsesJson(req) then jsonDecode(req.rawBody).GetOr(map[]) else req.form
  }

  /** The body is taken from JSON only for a non-empty body (neither '' nor
      '0') under a content type that mentions application/json; a body that
      does not decode to an object gives no fields at all, and every other
      request is read from the form. */
  lemma PayloadSource(req: Request, jsonDecode: string -> Option<map<string, string>>)
    ensures UsesJson(req) <==>
      req.rawBody != "" && req.rawBody != "0" && req.contentType.Some?
      && Contains(req.contentType.value, "application/json")
    ensures UsesJson(req) && jsonDecode(req.rawBody).None? ==> Payload(req, jsonDecode) == map[]
    ensures UsesJson(req) && jsonDecode(req.rawBody).Some? ==>
      Payload(req, jsonDecode) == jsonDecode(req.rawBody).value
    ensures !UsesJson(req) ==> Payload(req, jsonDecode) == req.form
  {
    if req.contentType.None? {
      assert !Contains("", "application/json");
    }
  }

  /** `strpos` matches anywhere, so a content type with parameters or other
      text around "application/json" still selects the JSON reading. */
  lemma JsonTypeAnywhere(req: Request, pre: string, post: string)
    requires req.rawBody != "" && req.rawBody != "0"
    requires req.contentType == Some(pre + "application/json" + post)
    ensures UsesJson(req)
  {
    ContainsInfix(pre, "application/json", post);
  }

  /** The five trimmed fields, '' for an absent key. */
  function ReadFields(data: map<string, string>): Fields {
    Fields(Trim(FieldOr(data, "name", "")), Trim(FieldOr(data, "email", "")),
           Trim(FieldOr(data, "subject", "")), Trim(FieldOr(data, "phone", "")),
           Trim(FieldOr(data, "message", "")))
  }

  /** The fields the handler works on for this request. */
  function Submitted(req: Request, env: Env): Fields {
    ReadFields(Payload(req, env.jsonDecode))
  }

  predicate MissingField(f: Fields) {
    f.name == "" || f.email == "" || f.subject == "" || f.message == ""
  }

  /** The configuration with the script's defaults: port 465, mode 'ssl',
      and `mail_from` falling back to the (possibly defaulted) user. */
  function SettingsOf(c: Config): (st: Settings)
    ensures c.smtpPort.None? ==> st.port == 465
    ensures c.smtpSecure.None? ==> st.secure == "ssl"
    ensures c.mailFrom.None? ==> st.mailFrom == st.user
  {
    var user := c.smtpUser.GetOr("");
    Settings(c.smtpHost.GetOr(""), c.smtpPort.GetOr(465), c.smtpSecure.GetOr("ssl"), user,
             c.smtpPass.GetOr(""), c.mailTo.GetOr(""), c.mailFrom.GetOr(user))
  }

  predicate Complete(st: Settings) {
    st.host != "" && st.user != "" && st.pass != "" && st.mailTo != "" && st.mailFrom != ""
  }

  /** Without a `mail_from` entry the sender is the SMTP user, so the
      configuration is complete exactly when host, user, password and
      recipient are all set. */
  lemma MailFromDefaultsToUser(c: Config)
    requires c.mailFrom.None?
    ensures SettingsOf(c).mailFrom == SettingsOf(c).user
    ensures Complete(SettingsOf(c)) <==>
      c.smtpHost.GetOr("") != "" && c.smtpUser.GetOr("") != "" && c.smtpPass.GetOr("") != ""
      && c.mailTo.GetOr("") != ""
  {
  }

  /** The leading run of CR/LF characters removed. */
  function DropLineBreaks(s: string): (r: string)
    ensures |r| <= |s| && r == s[|s| - |r|..]
    ensures r == [] || !IsLineBreak(r[0])
  {
    if s != [] && IsLineBreak(s[0]) then DropLineBreaks(s[1..]) else s
  }

  /** `preg_replace('/[\r\n]+/', ' ', $s)`: every maximal run of CR/LF
      becomes one space. */
  function CollapseLineBreaks(s: string): (r: string)
    ensures forall i :: 0 <= i < |r| ==> !IsLineBreak(r[i])
    ensures |r| <= |s|
    decreases |s|
  {
    if s == [] then []
    else if IsLineBreak(s[0]) then " " + CollapseLineBreaks(DropLineBreaks(s[1..]))
    else [s[0]] + CollapseLineBreaks(s[1..])
  }

  /** Reference reading of the same replacement, one character at a time:
      a CR/LF writes a space only when it starts a run. */
  function CollapseScan(s: string, inRun: bool): string {
    if s == [] then []
    else if IsLineBreak(s[0]) then (if inRun then "" else " ") + CollapseScan(s[1..], true)
    else [s[0]] + CollapseScan(s[1..], false)
  }

  lemma {:induction false} CollapseAgreesWithScan(s: string)
    ensures CollapseLineBreaks(s) == CollapseScan(s, false)
    ensures CollapseLineBreaks(DropLineBreaks(s)) == CollapseScan(s, true)
    decreases |s|
  {
    if s != [] {
      CollapseAgreesWithScan(s[1..]);
    }
  }

  /** Text without CR/LF is left as it is. */
  lemma {:induction false} CollapsePlain(s: string)
    requires forall i :: 0 <= i < |s| ==> !IsLineBreak(s[i])
    ensures CollapseLineBreaks(s) == s
  {
    if s != [] {
      CollapsePlain(s[1..]);
      assert [s[0]] + s[1..] == s;
    }
  }

  lemma CollapseIdempotent(s: string)
    ensures CollapseLineBreaks(CollapseLineBreaks(s)) == CollapseLineBreaks(s)
  {
    CollapsePlain(CollapseLineBreaks(s));
  }

  /** "N/A" stands in for an empty phone. */
  function PhoneOrPlaceholder(phone: string): string {
    if phone != "" then phone else "N/A"
  }

  /** The plain-text body, as the script appends it line by line. */
  function ContactBody(name: string, email: string, phone: string, subject: string, message: string): string {
    "Name: " + name + "\n" + "Email: " + email + "\n" + "Phone: " + PhoneOrPlaceholder(phone) + "\n"
    + "Subject: " + subject + "\n\n" + message + "\n"
  }

  /** Four lines without line feeds, an empty line, then free text. */
  lemma {:induction false} LinesOfLayout(a: string, b: string, c: string, d: string, message: string)
    requires '\n' !in a && '\n' !in b && '\n' !in c && '\n' !in d
    ensures Lines(a + "\n" + (b + "\n" + (c + "\n" + (d + "\n" + ("\n" + (message + "\n"))))))
      == [a, b, c, d, ""] + Lines(message) + [""]
  {
    LinesTwo(a, b, c + "\n" + (d + "\n" + ("\n" + (message + "\n"))));
    LayoutTail(c, d, message);
  }

  lemma LayoutTail(c: string, d: string, message: string)
    requires '\n' !in c && '\n' !in d
    ensures Lines(c + "\n" + (d + "\n" + ("\n" + (message + "\n")))) == [c, d, ""] + Lines(message) + [""]
  {
    LinesBlank(message + "\n");
    LinesSnoc(message);
    LinesTwo(c, d, "\n" + (message + "\n"));
  }

  /** Text without CR/LF has no line feed. */
  lemma NoLineFeed(s: string)
    requires forall i :: 0 <= i < |s| ==> !IsLineBreak(s[i])
    ensures '\n' !in s
  {
  }

  /** Read line by line, the body is the four labelled header lines, an
      empty line, the message lines and a final empty line, provided the
      interpolated e-mail and phone hold no line feed (the name and subject
      never do after collapsing). */
  lemma ContactBodyLines(name: string, email: string, phone: string, subject: string, message: string)
    requires '\n' !in email && '\n' !in phone
    ensures var n, s := CollapseLineBreaks(name), CollapseLineBreaks(subject);
      Lines(ContactBody(n, email, phone, s, message))
      == ["Name: " + n, "Email: " + email, "Phone: " + (if phone == "" then "N/A" else phone),
          "Subject: " + s, ""] + Lines(message) + [""]
  {
    var n, s := CollapseLineBreaks(name), CollapseLineBreaks(subject);
    NoLineFeed(n);
    NoLineFeed(s);
    BodyLines(n, email, phone, s, message);
  }

  lemma BodyLines(n: string, email: string, phone: string, s: string, message: string)
    requires '\n' !in n && '\n' !in email && '\n' !in phone && '\n' !in s
    ensures Lines(ContactBody(n, email, phone, s, message))
      == ["Name: " + n, "Email: " + email, "Phone: " + PhoneOrPlaceholder(phone),
          "Subject: " + s, ""] + Lines(message) + [""]
  {
    var p := PhoneOrPlaceholder(phone);
    var a, b, c, d := "Name: " + n, "Email: " + email, "Phone: " + p, "Subject: " + s;
    assert ContactBody(n, email, phone, s, message)
      == a + "\n" + (b + "\n" + (c + "\n" + (d + "\n" + ("\n" + (message + "\n")))));
    LinesOfLayout(a, b, c, d, message);
  }

  /** `SMTPSecure` as the `$sendMail` closure sets it. */
  function EncryptionFor(secure: string): (e: Encryption)
    ensures e == StartTls <==> secure == "tls"
    ensures e == Smtps <==> secure == "ssl"
    ensures e == NoEncryption <==> secure != "tls" && secure != "ssl"
  {
    if secure == "tls" then StartTls else if secure == "ssl" then Smtps else NoEncryption
  }

  /** The message the `$sendMail` closure hands to `send()` for one
      (port, security mode) pair. */
  function Envelope(st: Settings, f: Fields, port: int, secure: string): Message {
    var name := CollapseLineBreaks(f.name);
    var subject := CollapseLineBreaks(f.subject);
    Transport(st, port, secure).(
      from := Address(st.mailFrom, "Saffron International"), to := [Address(st.mailTo, "")],
      replyTo := [Address(f.email, name)], isHtml := false, subject := subject,
      body := ContactBody(name, f.email, f.phone, subject, f.message))
  }

  /** The header fields taken from the submission carry no CR/LF, and every
      attempt sends the same message to the same recipient; only the port and
      the encryption differ between the first attempt and the fallback. */
  lemma EnvelopeHeadersSafe(st: Settings, f: Fields, port: int, secure: string)
    ensures var m := Envelope(st, f, port, secure);
      (forall i :: 0 <= i < |m.subject| ==> !IsLineBreak(m.subject[i]))
      && |m.replyTo| == 1
      && (forall i :: 0 <= i < |m.replyTo[0].name| ==> !IsLineBreak(m.replyTo[0].name[i]))
      && m.to == [Address(st.mailTo, "")]
      && m == Envelope(st, f, 0, "").(port := port, encryption := EncryptionFor(secure))
  {
  }

  /** The connection settings of the `$sendMail` closure's mailer. */
  function Transport(st: Settings, port: int, secure: string): Message {
    Fresh.(viaSmtp := true, host := st.host, smtpAuth := true, username := st.user,
           password := st.pass, port := port, encryption := EncryptionFor(secure), charSet := "UTF-8")
  }

  /** The first half of `$sendMail`: a new mailer with the SMTP connection
      set field by field. */
  method NewTransport(st: Settings, port: int, secure: string) returns (mailer: Mailer)
    ensures fresh(mailer)
    ensures mailer.Snapshot() == Transport(st, port, secure)
  {
    mailer := new Mailer();
    mailer.UseSmtp();
    mailer.host := st.host;
    mailer.smtpAuth := true;
    mailer.username := st.user;
    mailer.password := st.pass;
    mailer.port := port;
    mailer.charSet := "UTF-8";
    if secure == "tls" {
      mailer.encryption := StartTls;
    } else if secure == "ssl" {
      mailer.encryption := Smtps;
    }
  }

  /** `$sendMail($port, $secure)`: configures a fresh mailer field by field
      and sends it. */
  method SendMail(st: Settings, f: Fields, name: string, subject: string, body: string,
                  port: int, secure: string, send: (nat, Message) -> SendResult, attempt: nat)
    returns (result: SendResult, sent: Message)
    requires name == CollapseLineBreaks(f.name) && subject == CollapseLineBreaks(f.subject)
    requires body == ContactBody(name, f.email, f.phone, subject, f.message)
    ensures sent == Envelope(st, f, port, secure)
    ensures sent.encryption == StartTls <==> secure == "tls"
    ensures sent.encryption == Smtps <==> secure == "ssl"
    ensures result == send(attempt, sent)
  {
    var mailer := NewTransport(st, port, secure);
    mailer.SetFrom(st.mailFrom, "Saffron International");
    mailer.AddAddress(st.mailTo, "");
    mailer.AddReplyTo(f.email, name);
    mailer.subject := subject;
    mailer.body := body;
    mailer.SetHtml(false);
    sent := mailer.Snapshot();
    result := send(attempt, sent);
  }

  /** The outcome of the delivery step: the messages sent, in order, and
      the reply, for a given send oracle. */
  predicate Delivered(st: Settings, f: Fields, send: (nat, Message) -> SendResult,
                      reply: Reply, attempts: seq<Message>)
  {
    var first := Envelope(st, f, st.port, st.secure);
    var fallback := Envelope(st, f, FallbackPort, "tls");
    && (reply.success <==> reply.code == 200)
    && (send(0, first).Sent? ==> attempts == [first] && reply == SentReply)
    && (send(0, first).Threw? && st.secure == "ssl" ==>
          attempts == [first, fallback]
          && reply == (if send(1, fallback).Sent? then SentReply
                       else FailedReply(send(1, fallback).error.message + FallbackNote)))
    && (send(0, first).Threw? && st.secure != "ssl" ==>
          attempts == [first] && reply == FailedReply(send(0, first).error.message))
  }

  /** A configuration without `smtp_secure` runs in 'ssl' mode, so when its
      first attempt fails the handler always makes the STARTTLS fallback
      attempt on port 587. */
  lemma UnconfiguredModeFallsBack(c: Config, f: Fields, send: (nat, Message) -> SendResult,
                                  reply: Reply, attempts: seq<Message>)
    requires c.smtpSecure.None? && Delivered(SettingsOf(c), f, send, reply, attempts)
    requires |attempts| >= 1 && send(0, attempts[0]).Threw?
    ensures |attempts| == 2
    ensures attempts[1] == attempts[0].(port := FallbackPort, encryption := StartTls)
  {
    DeliveryShape(SettingsOf(c), f, send, reply, attempts);
  }

  /** Across all outcomes: one or two attempts; a second one exactly when
      the first failed under 'ssl', and then it is the same message on port
      587 with STARTTLS; success exactly when some attempt went through; a
      failure's error text ends in the fallback note exactly when there was
      a fallback. */
  lemma DeliveryShape(st: Settings, f: Fields, send: (nat, Message) -> SendResult,
                      reply: Reply, attempts: seq<Message>)
    requires Delivered(st, f, send, reply, attempts)
    ensures 1 <= |attempts| <= 2 && attempts[0] == Envelope(st, f, st.port, st.secure)
    ensures |attempts| == 2 <==> send(0, attempts[0]).Threw? && st.secure == "ssl"
    ensures |attempts| == 2 ==> attempts[1] == attempts[0].(port := FallbackPort, encryption := StartTls)
    ensures reply.code == 200 <==> exists i :: 0 <= i < |attempts| && send(i, attempts[i]).Sent?
    ensures reply.code != 200 ==> reply.code == 500 && reply.error.Some?
    ensures reply.code != 200 && |attempts| == 2 ==>
      reply.error.value == send(1, attempts[1]).error.message + FallbackNote
    ensures reply.code != 200 && |attempts| == 1 ==> reply.error.value == send(0, attempts[0]).error.message
  {
    var first := Envelope(st, f, st.port, st.secure);
    EnvelopeHeadersSafe(st, f, st.port, st.secure);
    EnvelopeHeadersSafe(st, f, FallbackPort, "tls");
    if |attempts| == 2 {
      assert send(0, attempts[0]).Threw?;
    }
  }

  /** The `.=` sequence that builds `$body`. */
  method ComposeBody(name: string, email: string, phone: string, subject: string, message: string)
    returns (body: string)
    ensures body == ContactBody(name, email, phone, subject, message)
  {
    body := "Name: " + name + "\n";
    body := body + "Email: " + email + "\n";
    body := body + "Phone: " + (if phone != "" then phone else "N/A") + "\n";
    body := body + "Subject: " + subject + "\n\n";
    body := body + message + "\n";
  }

  /** Sanitising, composing and the send with its one-shot fallback: a
      failed first attempt is retried once, on port 587 with STARTTLS, only
      when the configured mode is 'ssl'; the error reported is the last
      one, marked when the fallback was tried. */
  method Deliver(st: Settings, f: Fields, send: (nat, Message) -> SendResult)
    returns (reply: Reply, attempts: seq<Message>)
    ensures Delivered(st, f, send, reply, attempts)
  {
    var name := CollapseLineBreaks(f.name);
    var subject := CollapseLineBreaks(f.subject);
    var body := ComposeBody(name, f.email, f.phone, subject, f.message);

    var result, sent := SendMail(st, f, name, subject, body, st.port, st.secure, send, 0);
    attempts := [sent];
    if result.Sent? {
      return SentReply, attempts;
    }
    var errorMessage := result.error.message;
    var fallbackAttempted := false;
    if st.secure == "ssl" {
      fallbackAttempted := true;
      var retry, resent := SendMail(st, f, name, subject, body, FallbackPort, "tls", send, 1);
      attempts := attempts + [resent];
      if retry.Sent? {
        return SentReply, attempts;
      }
      errorMessage := retry.error.message;
    }
    var extra := if fallbackAttempted then FallbackNote else "";
    assert errorMessage + "" == errorMessage;
    reply := FailedReply(errorMessage + extra);
  }

  /** The request gets past every check and reaches the first send. */
  predicate ReachesSend(req: Request, dep: Deployment, env: Env) {
    var f := Submitted(req, env);
    req.verb == "POST" && !MissingField(f) && env.validEmail(f.email)
    && dep.config.Some? && dep.libraryInstalled && Complete(SettingsOf(dep.config.value))
  }

  /** The whole script: the reply it writes and the messages it tried to
      send, in order. */
  method HandleContact(req: Request, dep: Deployment, env: Env) returns (reply: Reply, attempts: seq<Message>)
    ensures req.verb != "POST" ==> reply == Reply(405, false, "Method not allowed.", None)
    ensures req.verb == "POST" && MissingField(Submitted(req, env)) ==>
      reply == Reply(400, false, "Please fill out all fields.", None)
    ensures (req.verb == "POST" && !MissingField(Submitted(req, env))
             && !env.validEmail(Submitted(req, env).email)) ==>
      reply == Reply(400, false, "Please enter a valid email address.", None)
    ensures req.verb == "POST" && !MissingField(Submitted(req, env)) && env.validEmail(Submitted(req, env).email) ==>
      (dep.config.None? ==> reply == Reply(500, false, "Mail configuration missing.", None))
      && (dep.config.Some? && !dep.libraryInstalled ==> reply == Reply(500, false, "Mail library missing.", None))
      && (dep.config.Some? && dep.libraryInstalled && !Complete(SettingsOf(dep.config.value)) ==>
            reply == Reply(500, false, "Mail configuration incomplete.", None))
    ensures !ReachesSend(req, dep, env) ==> attempts == []
    ensures ReachesSend(req, dep, env) ==>
      Delivered(SettingsOf(dep.config.value), Submitted(req, env), env.send, reply, attempts)
    ensures reply.success <==> reply.code == 200
  {
    if req.verb != "POST" {
      return Reply(405, false, "Method not allowed.", None), [];
    }
    var data := Payload(req, env.jsonDecode);
    var f := ReadFields(data);
    if f.name == "" || f.email == "" || f.subject == "" || f.message == "" {
      return Reply(400, false, "Please fill out all fields.", None), [];
    }
    if !env.validEmail(f.email) {
      return Reply(400, false, "Please enter a valid email address.", None), [];
    }
    if dep.config.None? {
      return Reply(500, false, "Mail configuration missing.", None), [];
    }
    if !dep.libraryInstalled {
      return Reply(500, false, "Mail library missing.", None), [];
    }
    var st := SettingsOf(dep.config.value);
    if st.host == "" || st.user == "" || st.pass == "" || st.mailTo == "" || st.mailFrom == "" {
      return Reply(500, false, "Mail configuration incomplete.", None), [];
    }

    reply, attempts := Deliver(st, f, env.send);
  }
}
