/**
 * The XMPP notifier of core/notifier_xmpp.go: options validation with a
 * fallback for decoded maps, and a notification that splits the checks into
 * new issues (FAILED) and resolved ones (anything else). The XMPP session
 * that sends it is not part of this model.
 */
module NotifierXmpp {
  import opened Support
  import opened OsemApi
  import HC = HealthChecks
  import N = Notifiers

  datatype XmppNotifier = XmppNotifier(recipients: seq<string>)

  /**
   * XmppNotifier.New: an XmppNotifier value with a non-nil recipient slice
   * is taken as it is; otherwise a decoded map's "recipients" list is copied
   * in order (an empty list is accepted); anything else is refused.
   */
  method New(options: Payload) returns (r: Result<XmppNotifier>)
    requires RecipientsAreStrings(options)
    ensures options.XmppOptions? && options.xmppRecipients.Some? ==>
              r == Ok(XmppNotifier(options.xmppRecipients.value))
    ensures !(options.XmppOptions? && options.xmppRecipients.Some?) && HasRecipientList(options) ==>
              r == Ok(XmppNotifier(Strings(options.entries["recipients"].items)))
    ensures !(options.XmppOptions? && options.xmppRecipients.Some?) && !HasRecipientList(options) ==>
              r == Err("Invalid XmppNotifier options")
  {
    if options.XmppOptions? && options.xmppRecipients.Some? {
      return Ok(XmppNotifier(options.xmppRecipients.value));
    }
    var recipients: Option<seq<string>> := None;
    if options.Dict? && "recipients" in options.entries && options.entries["recipients"].List? {
      var copied := CopyRecipients(options.entries["recipients"].items);
      recipients := Some(copied);
    }
    if recipients.None? {
      return Err("Invalid XmppNotifier options");
    }
    return Ok(XmppNotifier(recipients.value));
  }

  /** The checks with status FAILED, in order. */
  function Failing(checks: seq<HC.CheckResult>): seq<HC.CheckResult>
  {
    if checks == [] then []
    else Failing(checks[..|checks| - 1]) + (if checks[|checks| - 1].status == HC.CheckErr then [checks[|checks| - 1]] else [])
  }

  /** The remaining checks, in order. */
  function Resolved(checks: seq<HC.CheckResult>): seq<HC.CheckResult>
  {
    if checks == [] then []
    else Resolved(checks[..|checks| - 1]) + (if checks[|checks| - 1].status != HC.CheckErr then [checks[|checks| - 1]] else [])
  }

  /** Every check lands in exactly one list, order kept. */
  lemma {:induction false} Partition(checks: seq<HC.CheckResult>)
    ensures |Failing(checks)| + |Resolved(checks)| == |checks|
    ensures IsSubsequence(Failing(checks), checks) && IsSubsequence(Resolved(checks), checks)
    ensures forall c :: c in Failing(checks) <==> c in checks && c.status == HC.CheckErr
    ensures forall c :: c in Resolved(checks) <==> c in checks && c.status != HC.CheckErr
  {
    if checks != [] {
      var init, last := checks[..|checks| - 1], checks[|checks| - 1];
      Partition(init);
      assert checks == init + [last];
      var failed := last.status == HC.CheckErr;
      assert Failing(checks) == if failed then Failing(init) + [last] else Failing(init);
      assert Resolved(checks) == if !failed then Resolved(init) + [last] else Resolved(init);
      SubsequenceExtend(Failing(init), init, last, failed);
      SubsequenceExtend(Resolved(init), init, last, !failed);
    }
  }

  /** A titled list of texts, or nothing when there are none. */
  function Section(title: string, texts: seq<string>): string
  {
    if texts == [] then "" else title + ":\n\n" + Join(texts, "\n") + "\n\n"
  }

  function Message(box: Box, stamp: string, errTexts: seq<string>, resolvedTexts: seq<string>): N.Notification
  {
    var resolved := if errTexts == [] then "resolved " else "";
    N.Notification(
      "A check at " + stamp + " identified the following updates for your box \"" + box.name + "\":\n\n" +
        Section("New issue(s)", errTexts) + Section("Resolved issue(s)", resolvedTexts) +
        "You may visit " + N.Explore + box.id + " for more details." + N.Signature,
      "Issues " + resolved + "with your box \"" + box.name + "\" on opensensemap.org!")
  }

  /** XmppNotifier.ComposeNotification */
  method ComposeNotification(box: Box, checks: seq<HC.CheckResult>, stamp: string) returns (n: N.Notification)
    ensures n == Message(box, stamp, HC.Texts(Failing(checks)), HC.Texts(Resolved(checks)))
  {
    var errTexts: seq<string> := [];
    var resolvedTexts: seq<string> := [];
    for i := 0 to |checks|
      invariant errTexts == HC.Texts(Failing(checks[..i]))
      invariant resolvedTexts == HC.Texts(Resolved(checks[..i]))
    {
      assert checks[..i + 1][..i] == checks[..i];
      if checks[i].status == HC.CheckErr {
        errTexts := errTexts + [HC.Text(checks[i])];
      } else {
        resolvedTexts := resolvedTexts + [HC.Text(checks[i])];
      }
    }
    assert checks[..|checks|] == checks;
    n := Message(box, stamp, errTexts, resolvedTexts);
  }

  /** The new-issues section is there iff some check is FAILED, the resolved section iff some check is not. */
  lemma SectionsPresent(checks: seq<HC.CheckResult>)
    ensures Section("New issue(s)", HC.Texts(Failing(checks))) != "" <==>
            exists k :: 0 <= k < |checks| && checks[k].status == HC.CheckErr
    ensures Section("Resolved issue(s)", HC.Texts(Resolved(checks))) != "" <==>
            exists k :: 0 <= k < |checks| && checks[k].status != HC.CheckErr
    ensures HC.Texts(Failing(checks)) == [] <==> forall k :: 0 <= k < |checks| ==> checks[k].status != HC.CheckErr
  {
    Partition(checks);
    var failing, resolved := Failing(checks), Resolved(checks);
    if exists k :: 0 <= k < |checks| && checks[k].status == HC.CheckErr {
      var k :| 0 <= k < |checks| && checks[k].status == HC.CheckErr;
      assert checks[k] in failing;
    }
    if failing != [] {
      assert failing[0] in failing;
    }
    if exists k :: 0 <= k < |checks| && checks[k].status != HC.CheckErr {
      var k :| 0 <= k < |checks| && checks[k].status != HC.CheckErr;
      assert checks[k] in resolved;
    }
    if resolved != [] {
      assert resolved[0] in resolved;
    }
  }

  /** The subject says "resolved" iff there is no new issue. */
  lemma SubjectSaysResolved(box: Box, stamp: string, errTexts: seq<string>, resolvedTexts: seq<string>)
    ensures "Issues resolved " <= Message(box, stamp, errTexts, resolvedTexts).subject <==> errTexts == []
  {
    var resolved := if errTexts == [] then "resolved " else "";
    var p0 := "Issues " + resolved;
    var p1 := p0 + "with your box \"";
    var p2 := p1 + box.name;
    var subject := p2 + "\" on opensensemap.org!";
    assert Message(box, stamp, errTexts, resolvedTexts).subject == subject;
    assert p1 <= subject by {
      assert p1 <= p2;
      assert p2 <= subject;
    }
    if errTexts != [] {
      assert p1[7] == 'w';
      assert subject[7] == 'w';
    } else {
      assert p0 == "Issues resolved ";
      assert p0 <= p1;
    }
  }

  /**
   * The new-issues section comes right before the resolved one, and the body
   * names the box and links its page.
   */
  lemma BodyLayout(box: Box, stamp: string, errTexts: seq<string>, resolvedTexts: seq<string>)
    ensures var body := Message(box, stamp, errTexts, resolvedTexts).body;
            Contains(body, Section("New issue(s)", errTexts) + Section("Resolved issue(s)", resolvedTexts)) &&
            Contains(body, box.name) && Contains(body, N.Explore + box.id)
    ensures forall k :: 0 <= k < |errTexts| ==> Contains(Message(box, stamp, errTexts, resolvedTexts).body, errTexts[k])
    ensures forall k :: 0 <= k < |resolvedTexts| ==> Contains(Message(box, stamp, errTexts, resolvedTexts).body, resolvedTexts[k])
  {
    var newList, resolvedList := Section("New issue(s)", errTexts), Section("Resolved issue(s)", resolvedTexts);
    // the body's left-nested prefixes
    var p0 := "A check at " + stamp + " identified the following updates for your box \"";
    var p1 := p0 + box.name;
    var p2 := p1 + "\":\n\n";
    var p4 := p2 + newList + resolvedList;
    var p5 := p4 + "You may visit ";
    var p7 := p5 + N.Explore + box.id;
    var p8 := p7 + " for more details.";
    assert Message(box, stamp, errTexts, resolvedTexts).body == p8 + N.Signature;
    ContainsSuffix(p0, box.name);
    ContainsAppend(p1, "\":\n\n", box.name);
    ContainsAppend(p2, newList, box.name);
    ContainsAppend(p2 + newList, resolvedList, box.name);
    ContainsSuffixPair(p2, newList, resolvedList);
    Onward(p4, p7, p8, box.id, box.name);
    Onward(p4, p7, p8, box.id, newList + resolvedList);
    ContainsSuffixPair(p5, N.Explore, box.id);
    ContainsAppend(p7, " for more details.", N.Explore + box.id);
    ContainsAppend(p8, N.Signature, N.Explore + box.id);
    var body := p8 + N.Signature;
    forall k | 0 <= k < |errTexts|
      ensures Contains(body, errTexts[k])
    {
      InSection("New issue(s)", errTexts, k);
      ContainsAppend(newList, resolvedList, errTexts[k]);
      ContainsTrans(body, newList + resolvedList, errTexts[k]);
    }
    forall k | 0 <= k < |resolvedTexts|
      ensures Contains(body, resolvedTexts[k])
    {
      InSection("Resolved issue(s)", resolvedTexts, k);
      ContainsPrepend(newList, resolvedList, resolvedTexts[k]);
      ContainsTrans(body, newList + resolvedList, resolvedTexts[k]);
    }
  }

  /** Each text of a section occurs in it. */
  lemma InSection(title: string, texts: seq<string>, k: nat)
    requires k < |texts|
    ensures Contains(Section(title, texts), texts[k])
  {
    JoinContains(texts, "\n", k);
    ContainsWithin(title + ":\n\n", Join(texts, "\n"), "\n\n", texts[k]);
  }

  lemma Onward(p4: string, p7: string, p8: string, id: string, t: string)
    requires Contains(p4, t)
    requires p7 == p4 + "You may visit " + N.Explore + id && p8 == p7 + " for more details."
    ensures Contains(p8 + N.Signature, t)
  {
    ContainsAppend(p4, "You may visit ", t);
    ContainsAppend(p4 + "You may visit ", N.Explore, t);
    ContainsAppend(p4 + "You may visit " + N.Explore, id, t);
    ContainsAppend(p7, " for more details.", t);
    ContainsAppend(p8, N.Signature, t);
  }
}
