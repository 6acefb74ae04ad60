/** The part of PHPMailer both form handlers drive: an object whose public
    fields and setters are filled in one at a time and then handed to
    `send()`. Sending itself is not modelled; each handler receives it as an
    oracle from the finished message to a `SendResult`. */
module Mail {

  /** `SMTPSecure`: '' (none), `ENCRYPTION_STARTTLS` ('tls') or
      `ENCRYPTION_SMTPS` ('ssl'). */
  datatype Encryption = NoEncryption | StartTls | Smtps

  datatype Address = Address(email: string, name: string)

  /** Everything the handlers set on a mailer before calling `send()`. */
  datatype Message = Message(
    viaSmtp: bool,
    host: string,
    smtpAuth: bool,
    username: string,
    password: string,
    port: int,
    encryption: Encryption,
    charSet: string,
    from: Address,
    to: seq<Address>,
    replyTo: seq<Address>,
    isHtml: bool,
    subject: string,
    body: string,
    altBody: string)

  /** What a failing `send()` throws: a `PHPMailer\PHPMailer\Exception`
      (`fromMailer`) or some other `Throwable`, with its message. */
  datatype Throwable = Throwable(fromMailer: bool, message: string)

  datatype SendResult = Sent | Threw(error: Throwable)

  /** A mailer as `new PHPMailer(true)` leaves it, before any field is set. */
  const Fresh: Message := Message(false, "", false, "", "", 25, NoEncryption, "", Address("", ""),
                                  [], [], false, "", "", "")

  class Mailer {
    var viaSmtp: bool
    var host: string
    var smtpAuth: bool
    var username: string
    var password: string
    var port: int
    var encryption: Encryption
    var charSet: string
    var from: Address
    var to: seq<Address>
    var replyTo: seq<Address>
    var isHtml: bool
    var subject: string
    var body: string
    var altBody: string

    /** The message this mailer would send now. */
    function Snapshot(): Message
      reads this
    {
      Message(viaSmtp, host, smtpAuth, username, password, port, encryption, charSet, from,
              to, replyTo, isHtml, subject, body, altBody)
    }

    constructor ()
      ensures Snapshot() == Fresh
    {
      viaSmtp, host, smtpAuth, username, password := false, "", false, "", "";
      port, encryption, charSet, from := 25, NoEncryption, "", Address("", "");
      to, replyTo, isHtml := [], [], false;
      subject, body, altBody := "", "", "";
    }

    /** `isSMTP()` */
    method UseSmtp()
      modifies this
      ensures Snapshot() == old(Snapshot()).(viaSmtp := true)
    {
      viaSmtp := true;
    }

    /** `setFrom($address, $name)` */
    method SetFrom(email: string, name: string)
      modifies this
      ensures Snapshot() == old(Snapshot()).(from := Address(email, name))
    {
      from := Address(email, name);
    }

    /** `addAddress($address, $name)`: appends one recipient. */
    method AddAddress(email: string, name: string)
      modifies this
      ensures Snapshot() == old(Snapshot()).(to := old(to) + [Address(email, name)])
    {
      to := to + [Address(email, name)];
    }

    /** `addReplyTo($address, $name)`: appends one reply-to address. */
    method AddReplyTo(email: string, name: string)
      modifies this
      ensures Snapshot() == old(Snapshot()).(replyTo := old(replyTo) + [Address(email, name)])
    {
      replyTo := replyTo + [Address(email, name)];
    }

    /** `isHTML($flag)` */
    method SetHtml(flag: bool)
      modifies this
      ensures Snapshot() == old(Snapshot()).(isHtml := flag)
    {
      isHtml := flag;
    }
  }
}
