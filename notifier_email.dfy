/**
 * The e-mail notifier of core/notifier_email.go: options validation with a
 * fallback for decoded maps, and the notification listing one text per check.
 * Sending the mail over SMTP is not part of this model.
 */
module NotifierEmail {
  import opened Support
  import opened OsemApi
  import HC = HealthChecks
  import N = Notifiers

  datatype EmailNotifier = EmailNotifier(recipients: seq<string>)

  /**
   * EmailNotifier.New: an EmailNotifier value with a non-nil recipient slice
   * is taken as it is; otherwise a decoded map's "recipients" list is copied
   * in order (an empty list is accepted); anything else is refused.
   */
  method New(options: Payload) returns (r: Result<EmailNotifier>)
    requires RecipientsAreStrings(options)
    ensures options.EmailOptions? && options.emailRecipients.Some? ==>
              r == Ok(EmailNotifier(options.emailRecipients.value))
    ensures !(options.EmailOptions? && options.emailRecipients.Some?) && HasRecipientList(options) ==>
              r == Ok(EmailNotifier(Strings(options.entries["recipients"].items)))
    ensures !(options.EmailOptions? && options.emailRecipients.Some?) && !HasRecipientList(options) ==>
              r == Err("Invalid EmailNotifier options")
  {
    if options.EmailOptions? && options.emailRecipients.Some? {
      return Ok(EmailNotifier(options.emailRecipients.value));
    }
    var recipients: Option<seq<string>> := None;
    if options.Dict? && "recipients" in options.entries && options.entries["recipients"].List? {
      var copied := CopyRecipients(options.entries["recipients"].items);
      recipients := Some(copied);
    }
    if recipients.None? {
      return Err("Invalid EmailNotifier options");
    }
    return Ok(EmailNotifier(recipients.value));
  }

  /** EmailNotifier.ComposeNotification: the shared e-mail layout over one String() per check. */
  method ComposeNotification(box: Box, checks: seq<HC.CheckResult>, stamp: string) returns (n: N.Notification)
    ensures n == N.Message(box, stamp, HC.Texts(checks))
  {
    var resultTexts: seq<string> := [];
    for i := 0 to |checks|
      invariant resultTexts == HC.Texts(checks[..i])
    {
      assert checks[..i + 1][..i] == checks[..i];
      resultTexts := resultTexts + [HC.Text(checks[i])];
    }
    assert checks[..|checks|] == checks;
    n := N.Message(box, stamp, resultTexts);
  }

  /** The body holds the String() of every check, the box name and its page. */
  lemma BodyListsEveryCheck(box: Box, checks: seq<HC.CheckResult>, stamp: string)
    ensures var body := N.Message(box, stamp, HC.Texts(checks)).body;
            Contains(body, box.name) && Contains(body, N.Explore + box.id) &&
            forall k :: 0 <= k < |checks| ==> Contains(body, HC.Text(checks[k]))
  {
    N.BodyContents(box, stamp, HC.Texts(checks));
  }
}
