# Saffron International site: contact handlers and page script in Dafny

This project models the three pieces of a small company website that hold
logic:

- `contact.php`, the contact-form endpoint. It does the following, in order:
  - rejects anything but POST;
  - reads the fields from a JSON body or from the form;
  - requires name, e-mail, subject and message, and checks the e-mail address;
  - loads the mail configuration and applies its defaults;
  - collapses CR/LF in the name and subject;
  - builds the plain-text body;
  - sends it over SMTP. When implicit TLS (`ssl`) fails, it makes exactly one
    fallback attempt with STARTTLS on port 587.
- `mail-sending.php`, the enquiry endpoint. It:
  - requires name, e-mail and message;
  - filters the phone number down to digits, `+`, `-` and whitespace;
  - builds an HTML body with every value escaped, plus a text alternative;
  - sends one message to two recipients;
  - answers through a single `respond` function.
- `js/main.js`, the page script. It handles:
  - the header shadow threshold;
  - the testimonial carousel, a circular index with exactly one active item,
    driven by a timer and two buttons;
  - the logo track, whose children are doubled and given an animation
    duration.

Modules:

| file | module | what it holds |
|---|---|---|
| `wrappers.dfy` | `Wrappers` | `Option` and `??` |
| `php_strings.dfy` | `PhpStrings` | `trim`, `empty`, `strpos`, line splitting |
| `php_html.dfy` | `PhpHtml` | `htmlspecialchars` (PHP 8.1 defaults, ENT_QUOTES), its inverse, `nl2br` |
| `mail.dfy` | `Mail` | the PHPMailer object: a class whose fields the handlers set one by one |
| `contact.dfy` | `ContactForm` | `contact.php` |
| `enquiry.dfy` | `EnquiryForm` | `mail-sending.php` |
| `site.dfy` | `SiteScript` | `js/main.js` |

The outside world appears only as parameters:

- The request is a record.
- The configuration file and the Composer autoloader are a `Deployment` value.
- `json_decode`, `filter_var(..., FILTER_VALIDATE_EMAIL)` and PHPMailer's
  `send()` are function-valued oracles. In `contact.php` the send oracle is
  indexed by attempt number, so the first attempt and the fallback can have
  different outcomes.
- The SMTP account and recipients of `mail-sending.php` are a `Config`
  parameter, not literals.
- Each handler returns its reply together with the sequence of messages it
  handed to `send()`. Properties such as "no send before validation" and
  "exactly one retry" are therefore statements about that sequence.

`contact.php` requires name, e-mail, subject and message, and leaves the
address grammar to `filter_var`.

## Model

| member | source | states |
|---|---|---|
| PhpStrings.Trim | contact.php:20-24 | the result is empty or starts and ends with a character `trim` keeps |
| PhpStrings.TrimDecomposition | contact.php:20-24 | `trim` removes only a leading and a trailing run of " \t\n\r\0\x0B"; what remains is one contiguous piece of the input |
| PhpStrings.TrimIdempotent | mail-sending.php:41-44 | trimming twice is trimming once |
| PhpStrings.TrimEmptyIff | contact.php:26 | a required field counts as missing exactly when its raw value holds only trim characters |
| PhpStrings.ContainsInfix | contact.php:14 | `strpos(...) !== false` finds the needle wherever it sits |
| ContactForm.Payload | contact.php:11-18 | definition; its meaning is stated by `ContactForm.PayloadSource` and `ContactForm.JsonTypeAnywhere` |
| ContactForm.PayloadSource | contact.php:11-18 | JSON is read exactly when the body is neither '' nor '0' and the content type contains "application/json"; a failed decode gives no fields; otherwise the form is used |
| ContactForm.JsonTypeAnywhere | contact.php:14 | any content type with "application/json" inside it selects JSON for a non-empty body |
| ContactForm.ReadFields | contact.php:20-24 | definition; each field is `trim` of its value or of ''. `PhpStrings.TrimDecomposition` and `PhpStrings.TrimEmptyIff` state what that keeps |
| ContactForm.SettingsOf | contact.php:56-62 | without an entry the port is 465, the mode 'ssl' and the sender the SMTP user |
| ContactForm.UnconfiguredModeFallsBack | contact.php:58 | with no `smtp_secure` entry a failed first attempt is always followed by the STARTTLS attempt on port 587 |
| ContactForm.MailFromDefaultsToUser | contact.php:56-68 | with no `mail_from` the sender is the SMTP user, and the configuration is complete exactly when host, user, password and recipient are non-empty |
| ContactForm.CollapseLineBreaks | contact.php:70-71 | the sanitised name and subject contain no CR or LF and are no longer than the input |
| ContactForm.CollapseAgreesWithScan | contact.php:70-71 | the run-collapsing agrees with a character-by-character reading in which only the first CR/LF of each run writes a space |
| ContactForm.CollapsePlain | contact.php:70-71 | text without CR/LF is unchanged |
| ContactForm.CollapseIdempotent | contact.php:70-71 | sanitising twice is sanitising once |
| ContactForm.ContactBody | contact.php:73-77 | definition; its line layout is stated by `ContactForm.ContactBodyLines` and `ContactForm.BodyLines` |
| ContactForm.ComposeBody | contact.php:73-77 | the `.=` appends produce exactly the body layout, with "N/A" for an empty phone |
| ContactForm.ContactBodyLines | contact.php:73-77 | read by lines, the body is "Name: …", "Email: …", "Phone: …" (N/A only when the phone is empty), "Subject: …", an empty line, the message lines and a final empty line, provided the e-mail and phone contain no line feed |
| ContactForm.BodyLines | contact.php:73-77 | the same layout for any single-line name and subject |
| ContactForm.EncryptionFor | contact.php:101-105 | STARTTLS exactly for 'tls', SMTPS exactly for 'ssl', and no encryption exactly for any other mode |
| ContactForm.NewTransport | contact.php:90-105 | a fresh mailer with SMTP, authentication, the configured host, user, password and port, UTF-8, and STARTTLS for 'tls', SMTPS for 'ssl', no encryption otherwise |
| ContactForm.SendMail | contact.php:79-122 | one closure call sends exactly `Envelope(port, secure)`, encrypted iff the mode is 'tls' or 'ssl', and reports the oracle's outcome for that attempt |
| ContactForm.EnvelopeHeadersSafe | contact.php:115-118 | the subject and reply-to name carry no CR/LF; there is a single recipient; messages for different (port, mode) pairs differ only in port and encryption |
| ContactForm.Deliver | contact.php:124-149 | first success: one attempt and success; first failure under 'ssl': a second attempt on 587/'tls', then success, or 500 with the second error plus " (TLS fallback failed)"; first failure otherwise: 500 with the first error and no retry |
| ContactForm.DeliveryShape | contact.php:124-149 | at most two attempts; a second one exactly when the first failed under 'ssl', and then it is the same message on port 587 with STARTTLS; code 200 exactly when some attempt was sent; the fallback note appears exactly when the fallback ran |
| ContactForm.HandleContact | contact.php:5-149 | 405 for a non-POST request; 400 "Please fill out all fields." before the 400 for the e-mail address; 500 for a missing config file, a missing library or an incomplete configuration, in that order; no message is sent unless every check passes; after that the reply and attempts are those of `Deliver`; `success` exactly when the code is 200 |
| Mail.Mailer.constructor | mail-sending.php:85 | a blank mailer: port 25, no encryption, no recipients, plain text, empty host and charset (not PHPMailer's own defaults; every handler sets host and charset before sending) |
| Mail.Mailer.UseSmtp | mail-sending.php:86 | `isSMTP()` switches to SMTP and changes nothing else |
| Mail.Mailer.SetFrom | mail-sending.php:95 | `setFrom` replaces the sender and changes nothing else |
| Mail.Mailer.AddAddress | mail-sending.php:96-97 | `addAddress` appends one recipient after the existing ones |
| Mail.Mailer.AddReplyTo | mail-sending.php:98 | `addReplyTo` appends one reply-to address |
| Mail.Mailer.SetHtml | mail-sending.php:100 | `isHTML` sets the body type and changes nothing else |
| EnquiryForm.Respond | mail-sending.php:13-24 | the reply has the given code and exactly the keys status, message and those of `extra`, with `extra` winning on a clash |
| EnquiryForm.PhoneClean | mail-sending.php:53 | every character left is a digit, '+', '-' or PCRE whitespace, and the result is no longer than the input |
| EnquiryForm.PhoneCleanSubsequence | mail-sending.php:53 | the filter only deletes, so the result is a subsequence of the input |
| EnquiryForm.PhoneCleanKeepsAllowed | mail-sending.php:53 | a phone made only of allowed characters is unchanged |
| EnquiryForm.PhoneCleanIdempotent | mail-sending.php:53 | filtering twice is filtering once |
| EnquiryForm.PhoneCleanCounts | mail-sending.php:53 | each allowed character occurs as often as in the input; any other character does not occur |
| PhpHtml.Entity | mail-sending.php:71-74 | a character other than & " ' < > is kept; those five become an entity starting with '&' |
| PhpHtml.HtmlEscape | mail-sending.php:71-74 | escaped text holds no < > " or ', and gains no CR/LF |
| PhpHtml.UnescapeEscape | mail-sending.php:71-74 | escaping loses nothing: decoding it gives the original text back |
| PhpHtml.EscapePlain | mail-sending.php:71-74 | text with nothing to escape is unchanged |
| PhpHtml.Nl2br | mail-sending.php:74 | definition; stated by `PhpHtml.RemoveBreakTagsNl2br`, `PhpHtml.CountOpenNl2br` and `PhpHtml.BreakLength` |
| PhpHtml.BreakLength | mail-sending.php:74 | `nl2br` sees "\r\n" and "\n\r" as one line break and a lone CR or LF as one |
| PhpHtml.RemoveBreakTagsNl2br | mail-sending.php:74 | on escaped text, deleting the inserted "<br />" tags gives back the input |
| PhpHtml.CountOpenNl2br | mail-sending.php:74 | `nl2br` adds exactly one '<' per line-break sequence |
| PhpHtml.BreakCountEscape | mail-sending.php:74 | escaping does not change the line-break sequences the message has |
| EnquiryForm.EnquiryHtml | mail-sending.php:69-75 | definition; stated by `EnquiryForm.HtmlTagCount`, `EnquiryForm.SingleLineAddsNoTags` and `EnquiryForm.HtmlMessageRecoverable` |
| EnquiryForm.HtmlTagCount | mail-sending.php:69-75 | the HTML body's '<' characters are the template's plus one per line-break sequence of the message, so no submitted value opens a tag |
| EnquiryForm.SingleLineAddsNoTags | mail-sending.php:69-75 | any submission whose message is a single line has exactly as many '<' as an empty submission's body: no name, e-mail or phone adds a tag |
| EnquiryForm.HtmlMessageRecoverable | mail-sending.php:74 | the message part of the HTML body decodes back to the submitted message |
| EnquiryForm.EnquiryText | mail-sending.php:77-82 | definition; its line layout is stated by `EnquiryForm.TextLines` |
| EnquiryForm.TextLines | mail-sending.php:77-82 | read by lines, the text body is "New Website Enquiry", "", "Name: …", "Email: …", "Phone: …", "", "Message:", the message lines and a final empty line, provided the name, e-mail and filtered phone contain no line feed |
| EnquiryForm.NewTransport | mail-sending.php:85-94 | a fresh mailer set to SMTP with authentication, STARTTLS, port 587 and UTF-8 |
| EnquiryForm.BuildMail | mail-sending.php:84-103 | configured field by field, the mailer holds exactly the composed message |
| EnquiryForm.EnvelopeAddressing | mail-sending.php:95-103 | recipients are primary then secondary; the sender is the SMTP account; reply-to is the visitor; the subject is "Website Enquiry"; the HTML and text bodies use the filtered phone |
| EnquiryForm.Outcome | mail-sending.php:105-109 | code 200 with status "success" and "Message sent successfully" exactly when `send()` returns; a PHPMailer exception gives 500 "Failed to send message"; any other throwable reaches the shutdown handler's 500 "Server error. Please try again later." |
| EnquiryForm.HandleEnquiry | mail-sending.php:37-109 | 405 for a non-POST request; 400 for a missing name, e-mail or message, before the 400 for the e-mail address; no message is sent unless both checks pass; otherwise exactly one message, the composed one, is sent, with no retry, and the reply follows its outcome |
| SiteScript.Header.ToggleShadow | js/main.js:11-17 | the header has `scrolled` exactly when scrollY exceeds 40, whatever it had before |
| SiteScript.Carousel.Update | js/main.js:38-42 | item j is active exactly when j is the index |
| SiteScript.ExactlyOneActive | js/main.js:38-42 | after an update exactly one item is active for an index in range, and none otherwise |
| SiteScript.JsRem | js/main.js:45-51 | JavaScript `%` agrees with the mathematical remainder for a non-negative dividend and otherwise lies in (-n, 0] |
| SiteScript.NextIndex | js/main.js:44-47 | the next index stays in [0, n) and wraps from n-1 to 0 |
| SiteScript.PrevIndex | js/main.js:49-53 | the previous index stays in [0, n) and wraps from 0 to n-1 |
| SiteScript.PrevUndoesNext | js/main.js:44-53 | previous and next are inverse |
| SiteScript.Carousel.Next | js/main.js:44-47 | advances the index and leaves exactly the new current item active |
| SiteScript.Carousel.Prev | js/main.js:49-53 | steps the index back and leaves exactly the new current item active |
| SiteScript.Install | js/main.js:1-74 | the timer is installed exactly when the header exists (otherwise the script stops at its first use) and there is more than one item, and the button handlers exactly when, in addition, both buttons exist |
| SiteScript.Carousel.constructor | js/main.js:1-19 | the index starts at 0, the items keep the page's classes, and the handlers are those `Install` gives |
| SiteScript.Carousel.Dispatch | js/main.js:55-74 | an event with an installed handler moves the index one step and activates the current item; any other event changes nothing |
| SiteScript.Carousel.Run | js/main.js:55-74 | over any series of events the index follows `Replay`; after any handled event the current item is the only active one; if no event was handled the items are unchanged |
| SiteScript.Step | js/main.js:55-74 | one event keeps the index in [0, n); `SiteScript.ReplayOffset` states where a series of steps ends |
| SiteScript.Replay | js/main.js:44-74 | the index after any series of events stays in [0, n) |
| SiteScript.ReplayOffset | js/main.js:44-74 | the index ends at (start + forward moves - backward moves) mod n, whatever the order of the events |
| SiteScript.SingleItemStill | js/main.js:60-74 | with one item no handler is installed and the index never moves |
| SiteScript.AnimationDuration | js/main.js:88 | the duration is max(18, 3n): at least 18 and at least 3n |
| SiteScript.DuplicateLogos | js/main.js:76-92 | with no header (the script has already stopped), or an absent or empty track, the track is untouched; otherwise its children become the originals followed by their copies in the same order, and the duration is set |

## Left out

- Transport: SMTP, TLS, sockets, the `SMTPOptions` peer-verification settings, `SMTPDebug` and `Debugoutput` are not modelled. `send()` is an oracle.
- Address checks inside PHPMailer: the checks in `setFrom`/`addAddress`/`addReplyTo`, and their header-break stripping, are not modelled. Every failure is taken to surface from `send()`.
- `filter_var(..., FILTER_VALIDATE_EMAIL)` and `json_decode` are oracles. Their grammars are not modelled.
- Non-string field values are not modelled, from a JSON body or from `$_POST` (`name[]=x`): the fields are a map from string to string. In `contact.php` such a value makes `trim` throw a TypeError, an uncaught 500 without a JSON body. In `mail-sending.php` the `(string)` cast turns it into "Array". A JSON scalar at the top level is not modelled either.
- The `(int)` cast of `smtp_port` is not modelled: the configuration holds the port as an integer after the cast.
- `ContactForm.Deliver`: the `error` text is whatever message the oracle's throwable carries. PHPMailer's own wording is not modelled.
- Not modelled: `header()`, output buffering, `http_response_code` as a side effect, and the JSON encoding with its key order. A reply is a record.
- `register_shutdown_function`/`error_get_last` in `mail-sending.php` appear only as the 500 reply for a throwable that is not a PHPMailer exception. Other fatal errors are not modelled.
- `htmlspecialchars`: the ENT_SUBSTITUTE handling of invalid UTF-8 is not modelled; strings are sequences of characters.
- `preg_replace` returning null on error (the `?? ''` in `mail-sending.php`) is not modelled: without the `/u` flag these patterns do not fail.
- `js/main.js`, not modelled:
  - the smooth-scrolling navigation links and their 80-pixel offset (DOM and browser scrolling);
  - timer timing (`setInterval`/`clearInterval` and the 6-second period). Timer ticks and clicks are a sequence of events, and `resetTimer` changes no modelled state.
- `SiteScript.DuplicateLogos`: a clone made by `cloneNode(true)` is modelled as equal to its original. Node identity is not modelled.
- `SiteScript.DuplicateLogos`: the "s" unit suffix of the style string is not modelled; the duration is kept as a number of seconds.
- A page without `.site-header`: the script throws at its first use of the header and nothing after it runs. The model keeps only a header-present flag that gates the carousel handlers and the logo duplication. `SiteScript.Header.ToggleShadow` models a page where the header exists.
- `SiteScript.Header.ToggleShadow`: the scroll listener registration is not modelled. Each call is one scroll event.
- `SiteScript.Carousel.Next`: requires an index in range. This holds in the script, since the index starts at 0 and only these methods change it, and they are only installed when there is more than one item.
