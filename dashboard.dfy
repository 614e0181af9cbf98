/** The dashboard's decision logic (app.py): the session state the two load buttons share,
    the choice of the message to e-mail, recipient parsing and the e-mail it sends. */
module Dashboard {
  import opened Results
  import opened Seqs
  import opened Text
  import opened Json
  import opened Storage
  import opened Alerts
  import Email

  /** The banner a handler shows: `st.success`, `st.info` or `st.error`. */
  datatype Notice = Succeeded(text: string) | Informed(text: string) | Failed(text: string)

  const LatestLoaded: string := "Latest message loaded."
  const NothingFound: string := "No messages found."
  const LoadFirst: string := "Load a message first."
  const NoRecipientEntered: string := "Please enter at least one recipient email."
  const EmailSent: string := "Email sent to maintenance."
  const SubjectPrefix: string := "Caseiro 2\U{BA} \U{2014} Alert: "
  const MissingAlert: string := "\U{2014}"

  function LoadedCount(n: nat): string
  {
    "Loaded " + NatToString(n) + " message(s)."
  }

  /** `st.session_state`: the latest alert or the whole list, an absent key read as `None`. */
  class Session {
    var latestAlert: Option<AlertRecord>
    var allAlerts: Option<seq<AlertRecord>>

    /** The two views are never loaded at once. */
    predicate Valid()
      reads this
    {
      !(latestAlert.Some? && allAlerts.Some?)
    }

    constructor()
      ensures latestAlert == None && allAlerts == None
      ensures Valid()
    {
      latestAlert := None;
      allAlerts := None;
    }

    /** The message that would be e-mailed: the latest alert if one is loaded, else the
        first of a non-empty list. A record is a non-empty dictionary, so it is always truthy. */
    function Selected(): (m: Option<AlertRecord>)
      reads this
      ensures m.Some? <==> latestAlert.Some? || (allAlerts.Some? && allAlerts.value != [])
      ensures latestAlert.Some? ==> m == latestAlert
      ensures latestAlert.None? && m.Some? ==> m.value == allAlerts.value[0]
      ensures Valid() && allAlerts.Some? ==> m == (if allAlerts.value == [] then None else Some(allAlerts.value[0]))
    {
      if latestAlert.Some? then latestAlert
      else if allAlerts.Some? && allAlerts.value != [] then Some(allAlerts.value[0])
      else None
    }

    /** The "Send email" button is disabled exactly when nothing is selected. */
    predicate SendDisabled()
      reads this
    {
      Selected() == None
    }

    /** "Get latest message": on success the latest alert replaces whatever was shown and
        the list is cleared; on failure the state is left alone and the error shown. */
    method LoadLatest(outcome: Result<AlertRecord, string>) returns (notice: Notice)
      requires Valid()
      modifies this
      ensures Valid()
      ensures outcome.Success? ==> latestAlert == Some(outcome.value) && allAlerts == None
                                   && notice == Succeeded(LatestLoaded)
      ensures outcome.Success? ==> Selected() == Some(outcome.value) && !SendDisabled()
      ensures outcome.Failure? ==> latestAlert == old(latestAlert) && allAlerts == old(allAlerts)
                                   && notice == Failed(outcome.error)
    {
      if outcome.Failure? {
        return Failed(outcome.error);
      }
      latestAlert := Some(outcome.value);
      allAlerts := None;
      notice := Succeeded(LatestLoaded);
    }

    /** "Get all messages": on success the list replaces whatever was shown and the latest
        alert is cleared; the banner counts the messages or says there are none. */
    method LoadAll(outcome: Result<seq<AlertRecord>, string>) returns (notice: Notice)
      requires Valid()
      modifies this
      ensures Valid()
      ensures outcome.Success? ==> allAlerts == Some(outcome.value) && latestAlert == None
      ensures outcome.Success? && outcome.value != [] ==>
                notice == Succeeded(LoadedCount(|outcome.value|)) && Selected() == Some(outcome.value[0])
      ensures outcome.Success? && outcome.value == [] ==> notice == Informed(NothingFound) && SendDisabled()
      ensures outcome.Failure? ==> latestAlert == old(latestAlert) && allAlerts == old(allAlerts)
                                   && notice == Failed(outcome.error)
    {
      if outcome.Failure? {
        return Failed(outcome.error);
      }
      allAlerts := Some(outcome.value);
      latestAlert := None;
      if outcome.value != [] {
        notice := Succeeded(LoadedCount(|outcome.value|));
      } else {
        notice := Informed(NothingFound);
      }
    }

    /** "Send email": refuses without a selected message, then without a recipient, and
        otherwise hands the alert's subject and both bodies to the mail sender, reporting
        what it answered. */
    method SendSelected(recipientsText: string, sender: Option<string>, alertsBucket: string,
                        pretty: Json -> string, deliver: Effect -> Option<string>)
      returns (notice: Notice, effects: seq<Effect>)
      ensures Selected().None? ==> notice == Failed(LoadFirst) && effects == []
      ensures Selected().Some? && ParseRecipients(recipientsText) == [] ==>
                notice == Failed(NoRecipientEntered) && effects == []
      ensures Selected().Some? && ParseRecipients(recipientsText) != [] ==>
                var m := Selected().value;
                var sent := Email.SendEmail(sender, Some(Email.Present(ParseRecipients(recipientsText))), EmailSubject(m.data),
                                            HtmlBody(m.data, alertsBucket, m.key, m.presignedUrl, pretty(m.data)),
                                            PlainBody(m.data, alertsBucket, m.key, m.presignedUrl, pretty(m.data)), deliver);
                effects == sent.effects
                && (sent.result.Success? ==> notice == Succeeded(EmailSent))
                && (sent.result.Failure? ==> notice == Failed("Failed to send email: " + sent.result.error))
    {
      var selected := Selected();
      if selected.None? {
        return Failed(LoadFirst), [];
      }
      var recipients := ParseRecipients(recipientsText);
      if recipients == [] {
        return Failed(NoRecipientEntered), [];
      }
      var m := selected.value;
      var json := pretty(m.data);
      var subject := EmailSubject(m.data);
      var plain := PlainBody(m.data, alertsBucket, m.key, m.presignedUrl, json);
      var html := HtmlBody(m.data, alertsBucket, m.key, m.presignedUrl, json);
      var sent := Email.SendEmail(sender, Some(Email.Present(recipients)), subject, html, plain, deliver);
      effects := sent.effects;
      if sent.result.Success? {
        notice := Succeeded(EmailSent);
      } else {
        notice := Failed("Failed to send email: " + sent.result.error);
      }
    }
  }

  /** `[r.strip() for r in recips_str.split(",") if r.strip()]`: the same trimming and
      dropping of blanks that the mail sender applies, over the comma-separated pieces. */
  function ParseRecipients(s: string): (r: seq<string>)
    ensures forall k :: 0 <= k < |r| ==> Email.Clean(r[k]) && ',' !in r[k]
  {
    CommaFreeNormalise(Split(s, ','));
    Email.NormaliseClean(Email.Present(Split(s, ',')));
    Email.Normalise(Email.Present(Split(s, ',')))
  }

  /** Normalising pieces that hold no comma yields addresses that hold none. */
  lemma {:induction false} CommaFreeNormalise(pieces: seq<string>)
    requires forall k :: 0 <= k < |pieces| ==> ',' !in pieces[k]
    ensures forall k :: 0 <= k < |Email.Normalise(Email.Present(pieces))| ==> ',' !in Email.Normalise(Email.Present(pieces))[k]
  {
    if pieces != [] {
      var rs := Email.Present(pieces);
      assert rs[1..] == Email.Present(pieces[1..]);
      CommaFreeNormalise(pieces[1..]);
      StripWithin(pieces[0], ',');
      var head := if Email.Blank(rs[0]) then [] else [Strip(pieces[0])];
      var tail := Email.Normalise(rs[1..]);
      assert Email.Normalise(rs) == head + tail;
      forall k | 0 <= k < |head + tail| ensures ',' !in (head + tail)[k] {
        if k >= |head| {
          assert (head + tail)[k] == tail[k - |head|];
        }
      }
    }
  }

  /** Stripping only removes characters, so it adds none. */
  lemma StripWithin(s: string, c: char)
    requires c !in s
    ensures c !in Strip(s)
  {
    var i := LeadingSpaces(s);
    var r := Strip(s);
    StripIsSlice(s);
    assert forall k :: 0 <= k < |r| ==> r[k] == s[i + k];
  }

  /** Writing clean addresses separated by commas and parsing them again gives them back. */
  lemma ParseJoinedRecipients(addresses: seq<string>)
    requires forall k :: 0 <= k < |addresses| ==> Email.Clean(addresses[k]) && ',' !in addresses[k]
    ensures ParseRecipients(Join(addresses, ',')) == addresses
  {
    if addresses == [] {
      assert Split([], ',') == [[]];
      assert Email.Present([[]]) == [Some([])];
      assert Email.Blank(Some([]));
      assert Email.Normalise([Some([])]) == [] + Email.Normalise([]);
    } else {
      SplitJoin(addresses, ',');
      Email.NormaliseKeepsClean(addresses);
    }
  }

  /** The parsed list reaches the mail sender unchanged: its own normalisation drops and
      trims nothing more. */
  lemma ParsedRecipientsSurviveSend(s: string)
    ensures Email.Normalise(Email.Present(ParseRecipients(s))) == ParseRecipients(s)
  {
    Email.NormaliseKeepsClean(ParseRecipients(s));
  }

  /** The subject: the fixed prefix and at most the first 60 characters of the alert text,
      nothing when the alert is absent. */
  function EmailSubject(data: Json): (subject: string)
    ensures SubjectPrefix <= subject && |subject| <= |SubjectPrefix| + 60
    ensures AlertField(data).None? ==> subject == SubjectPrefix
    ensures AlertField(data).Some? ==> subject[|SubjectPrefix|..] <= AlertField(data).value
    ensures AlertField(data).Some? && |AlertField(data).value| <= 60 ==> subject == SubjectPrefix + AlertField(data).value
    ensures AlertField(data).Some? && |AlertField(data).value| > 60 ==> |subject| == |SubjectPrefix| + 60
  {
    var subject := SubjectPrefix + Take(AlertOr(data, ""), 60);
    assert subject[|SubjectPrefix|..] == Take(AlertOr(data, ""), 60);
    subject
  }

  /** The plain-text body: the alert line ("—" when the alert is absent), the file and
      link lines, then the pretty-printed document. */
  function PlainBody(data: Json, bucket: string, key: string, url: string, prettyJson: string): (body: string)
    ensures AlertField(data).Some? ==> ("Alert message:\n" + AlertField(data).value + "\n\n") <= body
    ensures AlertField(data).None? ==> ("Alert message:\n" + MissingAlert + "\n\n") <= body
    ensures Contains(body, "File: s3://" + bucket + "/" + key + "\n")
    ensures Contains(body, "Link: " + url + "\n\n")
    ensures var tail := "Full JSON:\n" + prettyJson + "\n";
            |tail| <= |body| && body[|body| - |tail|..] == tail
  {
    var parts := [
      "Alert message:\n" + AlertOr(data, MissingAlert) + "\n\n",
      "File: s3://" + bucket + "/" + key + "\n",
      "Link: " + url + "\n\n",
      "Full JSON:\n" + prettyJson + "\n"];
    FlattenStartsWith(parts);
    FlattenContains(parts, 1);
    FlattenContains(parts, 2);
    assert Flatten(parts) == Flatten(parts[..3]) + parts[3];
    Flatten(parts)
  }

  const Indent: string := "            "

  /** The HTML body, keeping the twelve-space indentation of the template: a heading, the
      message paragraph ("—" when the alert is absent), the file paragraph, the link
      and the pretty-printed document. */
  function HtmlBody(data: Json, bucket: string, key: string, url: string, prettyJson: string): (body: string)
    ensures AlertField(data).Some? ==> Contains(body, Indent + "<p><b>Message:</b><br>" + AlertField(data).value + "</p>\n")
    ensures AlertField(data).None? ==> Contains(body, Indent + "<p><b>Message:</b><br>" + MissingAlert + "</p>\n")
    ensures Contains(body, Indent + "<p><b>File:</b> s3://" + bucket + "/" + key + "</p>\n")
    ensures Contains(body, Indent + "<p><a href=\"" + url + "\">Open object (pre-signed)</a></p>\n")
    ensures Contains(body, Indent + "<pre style=\"white-space:pre-wrap\">" + prettyJson + "</pre>\n")
  {
    var parts := [
      "\n" + Indent + "<h2>Caseiro 2\U{BA} \U{2014} Alert</h2>\n",
      Indent + "<p><b>Message:</b><br>" + AlertOr(data, MissingAlert) + "</p>\n",
      Indent + "<p><b>File:</b> s3://" + bucket + "/" + key + "</p>\n",
      Indent + "<p><a href=\"" + url + "\">Open object (pre-signed)</a></p>\n",
      Indent + "<pre style=\"white-space:pre-wrap\">" + prettyJson + "</pre>\n",
      Indent];
    FlattenContains(parts, 1);
    FlattenContains(parts, 2);
    FlattenContains(parts, 3);
    FlattenContains(parts, 4);
    Flatten(parts)
  }
}
