/** Sending one e-mail through the mail service (backend/email_ses.py): the sender and
    recipient guards, recipient normalisation and the single send carrying both bodies. */
module Email {
  import opened Results
  import opened Text
  import opened Storage

  const MissingSender: string := "SES_SENDER is not set."
  const NoRecipients: string := "No recipients provided."

  /** An entry the comprehension drops: `None`, empty, or nothing but whitespace. */
  predicate Blank(o: Option<string>) {
    o.None? || Strip(o.value) == ""
  }

  /** `[r.strip() for r in (recipients or []) if r and r.strip()]`, with `None` standing
      for a missing entry. */
  function Normalise(rs: seq<Option<string>>): (r: seq<string>)
    ensures |r| <= |rs|
  {
    if rs == [] then []
    else (if Blank(rs[0]) then [] else [Strip(rs[0].value)]) + Normalise(rs[1..])
  }

  /** A usable address: non-empty, with no whitespace at either end. */
  predicate Clean(x: string) {
    x != "" && IsStripped(x)
  }

  /** Every normalised address is usable. */
  lemma {:induction false} NormaliseClean(rs: seq<Option<string>>)
    ensures forall k :: 0 <= k < |Normalise(rs)| ==> Clean(Normalise(rs)[k])
  {
    if rs != [] {
      NormaliseClean(rs[1..]);
      var head := if Blank(rs[0]) then [] else [Strip(rs[0].value)];
      var tail := Normalise(rs[1..]);
      assert Normalise(rs) == head + tail;
      forall k | 0 <= k < |head + tail| ensures Clean((head + tail)[k]) {
        if k >= |head| {
          assert (head + tail)[k] == tail[k - |head|];
        }
      }
    }
  }

  /** Normalising works entry by entry, so it keeps the input order. */
  lemma {:induction false} NormaliseConcat(a: seq<Option<string>>, b: seq<Option<string>>)
    ensures Normalise(a + b) == Normalise(a) + Normalise(b)
  {
    if a == [] {
      assert a + b == b;
    } else {
      var head := if Blank(a[0]) then [] else [Strip(a[0].value)];
      assert (a + b)[0] == a[0];
      assert (a + b)[1..] == a[1..] + b;
      NormaliseConcat(a[1..], b);
      assert Normalise(a + b) == head + Normalise(a[1..] + b);
    }
  }

  /** The result holds the stripped form of every non-blank entry and nothing else. */
  lemma {:induction false} NormaliseMembers(rs: seq<Option<string>>)
    ensures forall x :: x in Normalise(rs) <==> exists o :: o in rs && !Blank(o) && Strip(o.value) == x
  {
    if rs != [] {
      NormaliseMembers(rs[1..]);
      assert rs == [rs[0]] + rs[1..];
    }
  }

  /** The result is empty exactly when every entry is blank. */
  lemma {:induction false} NormaliseEmpty(rs: seq<Option<string>>)
    ensures Normalise(rs) == [] <==> forall k :: 0 <= k < |rs| ==> Blank(rs[k])
  {
    if rs != [] {
      NormaliseEmpty(rs[1..]);
      assert forall k :: 1 <= k < |rs| ==> rs[k] == rs[1..][k - 1];
    }
  }

  function Present(xs: seq<string>): (r: seq<Option<string>>)
    ensures |r| == |xs| && forall k :: 0 <= k < |xs| ==> r[k] == Some(xs[k])
  {
    if xs == [] then [] else [Some(xs[0])] + Present(xs[1..])
  }

  /** Addresses that are already trimmed and non-empty pass through unchanged; in
      particular normalising a normalised list changes nothing. */
  lemma {:induction false} NormaliseKeepsClean(xs: seq<string>)
    requires forall k :: 0 <= k < |xs| ==> Clean(xs[k])
    ensures Normalise(Present(xs)) == xs
  {
    if xs != [] {
      var rs := Present(xs);
      var tail := xs[1..];
      assert xs == [xs[0]] + tail;
      assert forall k :: 0 <= k < |tail| ==> Clean(tail[k]) by {
        assert forall k :: 0 <= k < |tail| ==> tail[k] == xs[k + 1];
      }
      NormaliseKeepsClean(tail);
      assert rs[1..] == Present(tail);
      assert rs[0] == Some(xs[0]);
      CleanKept(xs[0]);
      assert Normalise(rs) == [xs[0]] + Normalise(rs[1..]);
    } else {
      assert Present(xs) == [];
    }
  }

  /** A usable address is not blank, and trimming leaves it as it is. */
  lemma CleanKept(x: string)
    requires Clean(x)
    ensures !Blank(Some(x)) && Strip(x) == x
  {
    StripStripped(x);
  }

  lemma NormaliseIdempotent(rs: seq<Option<string>>)
    ensures Normalise(Present(Normalise(rs))) == Normalise(rs)
  {
    NormaliseClean(rs);
    NormaliseKeepsClean(Normalise(rs));
  }

  /** `send_email`. A missing sender fails first, then an empty recipient list; neither
      issues a request. Otherwise exactly one send goes out, to the normalised list, with
      the given subject and both bodies; `deliver` is the mail service's answer (the
      text of the exception it raises, or `None`). */
  function SendEmail(sender: Option<string>, recipients: Option<seq<Option<string>>>, subject: string,
                     htmlBody: string, textBody: string, deliver: Effect -> Option<string>): (d: Done<()>)
    ensures sender.None? || sender.value == "" ==> d == Done(Failure(MissingSender), [])
    ensures sender.Some? && sender.value != "" ==>
              var to := Normalise(if recipients.Some? then recipients.value else []);
              (to == [] ==> d == Done(Failure(NoRecipients), []))
              && (to != [] ==> d.effects == [Effect.SendEmail(sender.value, to, subject, textBody, htmlBody)]
                               && (d.result.Success? <==> deliver(d.effects[0]).None?)
                               && (d.result.Failure? ==> d.result.error == deliver(d.effects[0]).value))
    ensures d.effects != [] ==> forall k :: 0 <= k < |d.effects[0].toAddresses| ==> Clean(d.effects[0].toAddresses[k])
  {
    if sender.None? || sender.value == "" then Done(Failure(MissingSender), [])
    else
      var to := Normalise(if recipients.Some? then recipients.value else []);
      NormaliseClean(if recipients.Some? then recipients.value else []);
      if to == [] then Done(Failure(NoRecipients), [])
      else
        var request := Effect.SendEmail(sender.value, to, subject, textBody, htmlBody);
        match deliver(request)
        case Some(message) => Done(Failure(message), [request])
        case None => Done(Success(()), [request])
  }
}
