/**
 * The notifier registry and the strict e-mail notifier of core/notifiers.go,
 * which goes with the five-field results of core/BoxCheckResults.go. The
 * message layout defined here is shared word for word by core/notifier_email.go.
 * Sending the mail over SMTP is not part of this model.
 */
module Notifiers {
  import opened Support
  import opened OsemApi
  import BCR = BoxCheckResults

  datatype Notification = Notification(body: string, subject: string)

  datatype NotifierKind = Email

  /** The `notifiers` map: transport name to notifier. */
  const Registry: map<string, NotifierKind> := map["email" := Email]

  lemma RegistryIsEmailOnly()
    ensures Registry.Keys == {"email"} && Registry["email"] == Email
  {
  }

  datatype EmailNotifier = EmailNotifier(recipients: seq<string>)

  /**
   * EmailNotifier.New: only an EmailNotifier value with a non-nil recipient
   * slice is accepted, returned with exactly those recipients; there is no
   * fallback for a decoded map.
   */
  function New(options: Payload): (r: Result<EmailNotifier>)
    ensures r.Ok? <==> options.EmailOptions? && options.emailRecipients.Some?
    ensures r.Ok? ==> r.value.recipients == options.emailRecipients.value
    ensures r.Err? ==> r.msg == "Invalid EmailNotifier options"
  {
    match options
    case EmailOptions(Some(rs)) => Ok(EmailNotifier(rs))
    case _ => Err("Invalid EmailNotifier options")
  }

  /** Even a decoded map with a recipient list is refused. */
  lemma NoMapFallback(options: Payload)
    requires HasRecipientList(options)
    ensures New(options) == Err("Invalid EmailNotifier options")
  {
  }

  const Explore := "https://opensensemap.org/explore/"

  const Signature := "\n\n--\nSent automatically by osem_notify (https://github.com/noerw/osem_notify)"

  /**
   * The e-mail: the subject names the box, the body lists the check texts
   * joined by newlines and links the box page. `stamp` is the minute-rounded
   * time of composition.
   */
  function Message(box: Box, stamp: string, texts: seq<string>): Notification
  {
    Notification(
      "A check at " + stamp + " identified the following issue(s) with your box " + box.name + ":\n\n" +
        Join(texts, "\n") + "\n\nYou may visit " + Explore + box.id + " for more details." + Signature,
      "Issues with your box \"" + box.name + "\" on opensensemap.org!")
  }

  /** The subject depends on nothing but the box name. */
  lemma SubjectNamesOnlyTheBox(box: Box, box': Box, stamp: string, stamp': string, texts: seq<string>, texts': seq<string>)
    requires box'.name == box.name
    ensures Message(box', stamp', texts').subject == Message(box, stamp, texts).subject
  {
  }

  /** The body names the box, links its page by id and holds every check text. */
  lemma BodyContents(box: Box, stamp: string, texts: seq<string>)
    ensures Contains(Message(box, stamp, texts).body, box.name)
    ensures Contains(Message(box, stamp, texts).body, Explore + box.id)
    ensures forall k :: 0 <= k < |texts| ==> Contains(Message(box, stamp, texts).body, texts[k])
  {
    // the body's left-nested prefixes
    var p0 := "A check at " + stamp + " identified the following issue(s) with your box ";
    var p1 := p0 + box.name;
    var p2 := p1 + ":\n\n";
    var p3 := p2 + Join(texts, "\n");
    var p4 := p3 + "\n\nYou may visit ";
    var p6 := p4 + Explore + box.id;
    var p7 := p6 + " for more details.";
    ContainsSuffix(p0, box.name);
    ContainsAppend(p1, ":\n\n", box.name);
    OnwardFromJoin(p2, texts, p4, p6, p7, box.id, box.name);
    ContainsSuffixPair(p4, Explore, box.id);
    ContainsAppend(p6, " for more details.", Explore + box.id);
    ContainsAppend(p7, Signature, Explore + box.id);
    forall k | 0 <= k < |texts| ensures Contains(p7 + Signature, texts[k]) {
      JoinContains(texts, "\n", k);
      ContainsSuffix(p2, Join(texts, "\n"));
      ContainsTrans(p3, Join(texts, "\n"), texts[k]);
      OnwardFromJoin(p2, texts, p4, p6, p7, box.id, texts[k]);
    }
  }

  /** Whatever the body holds up to the joined texts, it holds in full. */
  lemma OnwardFromJoin(p2: string, texts: seq<string>, p4: string, p6: string, p7: string, id: string, t: string)
    requires Contains(p2 + Join(texts, "\n"), t) || Contains(p2, t)
    requires p4 == p2 + Join(texts, "\n") + "\n\nYou may visit "
    requires p6 == p4 + Explore + id && p7 == p6 + " for more details."
    ensures Contains(p7 + Signature, t)
  {
    if !Contains(p2 + Join(texts, "\n"), t) {
      ContainsAppend(p2, Join(texts, "\n"), t);
    }
    ContainsAppend(p2 + Join(texts, "\n"), "\n\nYou may visit ", t);
    ContainsAppend(p4, Explore, t);
    ContainsAppend(p4 + Explore, id, t);
    ContainsAppend(p6, " for more details.", t);
    ContainsAppend(p7, Signature, t);
  }

  /** EmailNotifier.ComposeNotification: one String() per check, in order. */
  method ComposeNotification(box: Box, checks: seq<BCR.CheckResult>, stamp: string) returns (n: Notification)
    ensures n == Message(box, stamp, BCR.Texts(checks))
  {
    var resultTexts: seq<string> := [];
    for i := 0 to |checks|
      invariant resultTexts == BCR.Texts(checks[..i])
    {
      assert checks[..i + 1][..i] == checks[..i];
      resultTexts := resultTexts + [BCR.Text(checks[i])];
    }
    assert checks[..|checks|] == checks;
    n := Message(box, stamp, resultTexts);
  }
}
