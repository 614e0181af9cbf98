/** Trigger dispatch (backend/s3_triggers.py): the fixed table of trigger labels, writing a
    timestamped text object for a chosen label, and finding the newest related message
    written by the downstream process. */
module Triggers {
  import opened Results
  import opened Seqs
  import opened Text
  import opened Storage

  /** The stable key of a trigger and the first line of the text written for it. */
  datatype TriggerDef = TriggerDef(key: string, baseMessage: string)

  /** The labels offered in the dashboard's drop-down, in display order. */
  const TriggerLabels: seq<string> := [
    "trigger low air flow",
    "trigger high humidity",
    "trigger amonia",
    "trigger low temperature",
    "trigger high temperature",
    "trigger low fan velocity",
    "trigger high fan velocity",
    "trigger variable fan speed",
    "trigger variable current"
  ]

  const TriggerMap: map<string, TriggerDef> := map[
    "trigger low air flow" := TriggerDef("low_air_flow", "sensor detected low airflow"),
    "trigger high humidity" := TriggerDef("high_humidity", "sensor detected high humidity"),
    "trigger amonia" := TriggerDef("ammonia", "sensor detected high ammonia"),
    "trigger low temperature" := TriggerDef("low_temperature", "sensor detected low temperature"),
    "trigger high temperature" := TriggerDef("high_temperature", "sensor detected high temperature"),
    "trigger low fan velocity" := TriggerDef("low_fan_velocity", "sensor detected low fan velocity"),
    "trigger high fan velocity" := TriggerDef("high_fan_velocity", "sensor detected high fan velocity"),
    "trigger variable fan speed" := TriggerDef("variable_fan_speed", "sensor detected variable fan speed"),
    "trigger variable current" := TriggerDef("variable_current", "sensor detected variable current")
  ]

  const DefaultPrefix: string := "triggers/"
  const SourceTag: string := "Caseiro-UI"

  /** Every label shown is a key of the table and every key is shown, once. */
  lemma TriggerLabelsMatchTable()
    ensures |TriggerLabels| == 9
    ensures forall l :: l in TriggerLabels <==> l in TriggerMap
    ensures forall i, j :: 0 <= i < j < |TriggerLabels| ==> TriggerLabels[i] != TriggerLabels[j]
  {
    LabelsDistinct();
    LabelsInTable();
    TableInLabels();
  }

  lemma LabelsDistinct()
    ensures forall i, j :: 0 <= i < j < |TriggerLabels| ==> TriggerLabels[i] != TriggerLabels[j]
  {
  }

  lemma LabelsInTable()
    ensures forall l :: l in TriggerLabels ==> l in TriggerMap
  {
  }

  lemma TableInLabels()
    ensures forall l :: l in TriggerMap ==> l in TriggerLabels
  {
  }

  /** Different labels map to different stable keys. */
  lemma StableKeysDistinct()
    ensures forall a, b :: a in TriggerMap && b in TriggerMap && a != b ==> TriggerMap[a].key != TriggerMap[b].key
  {
    forall a, b | a in TriggerMap && b in TriggerMap && a != b
      ensures TriggerMap[a].key != TriggerMap[b].key
    {
      TableInLabels();
      LabelKeysDistinct();
      var i :| 0 <= i < |TriggerLabels| && TriggerLabels[i] == a;
      var j :| 0 <= j < |TriggerLabels| && TriggerLabels[j] == b;
      assert i != j;
    }
  }

  lemma LabelKeysDistinct()
    ensures forall i, j :: 0 <= i < |TriggerLabels| && 0 <= j < |TriggerLabels| && i != j ==>
              TriggerMap[TriggerLabels[i]].key != TriggerMap[TriggerLabels[j]].key
  {
  }

  /** A calendar date, as `datetime` keeps it. */
  datatype Date = Date(year: nat, month: nat, day: nat)

  predicate ValidDate(d: Date) {
    1 <= d.year <= 9999 && 1 <= d.month <= 12 && 1 <= d.day <= 31
  }

  /** `f"{dt:%Y/%m/%d}"`: the year as the C library prints it, month and day with two digits. */
  function DatePath(d: Date): string
    requires ValidDate(d)
  {
    NatToString(d.year) + "/" + TwoDigits(d.month) + "/" + TwoDigits(d.day)
  }

  /** The body of the trigger object: the base message, then one `name=value` line each
      for the timestamp, the stable key and the source tag, every line ending in a newline. */
  function TriggerContent(def: TriggerDef, ts: string): (body: string)
    ensures body == Join([def.baseMessage, "generated_at=" + ts, "trigger_key=" + def.key, "source=" + SourceTag, ""], '\n')
  {
    JoinFive(def.baseMessage, "generated_at=" + ts, "trigger_key=" + def.key, "source=" + SourceTag, "", '\n');
    def.baseMessage + "\n" + "generated_at=" + ts + "\n" + "trigger_key=" + def.key + "\n" + "source=Caseiro-UI\n"
  }

  /** Reading the body back line by line recovers the base message, timestamp and key. */
  lemma TriggerContentLines(def: TriggerDef, ts: string)
    requires '\n' !in def.baseMessage && '\n' !in def.key && '\n' !in ts
    ensures Split(TriggerContent(def, ts), '\n')
            == [def.baseMessage, "generated_at=" + ts, "trigger_key=" + def.key, "source=" + SourceTag, ""]
  {
    var lines := [def.baseMessage, "generated_at=" + ts, "trigger_key=" + def.key, "source=" + SourceTag, ""];
    assert "generated_at=" + ts == "generated_at=" + ts;
    assert forall k :: 0 <= k < |lines| ==> '\n' !in lines[k] by {
      assert '\n' !in "generated_at=" && '\n' !in "trigger_key=" && '\n' !in "source=" + SourceTag;
    }
    SplitJoin(lines, '\n');
  }

  /** The object key `<prefix><stable key>/YYYY/MM/DD/<ts>.txt`. */
  function TriggerObjectKey(prefix: string, triggerKey: string, date: Date, ts: string): (key: string)
    requires ValidDate(date)
    ensures key == prefix + Join([triggerKey, NatToString(date.year), TwoDigits(date.month), TwoDigits(date.day), ts + ".txt"], '/')
    ensures prefix <= key && EndsWithIgnoringCase(key, ".txt")
  {
    var stem := prefix + triggerKey + "/" + DatePath(date) + "/" + ts;
    KeySegmentsJoined(prefix, triggerKey, date, ts);
    EndsWithLiteral(stem, ".txt");
    stem + ".txt"
  }

  /** The key written out is the prefix followed by its five segments joined by '/'. */
  lemma KeySegmentsJoined(prefix: string, triggerKey: string, date: Date, ts: string)
    requires ValidDate(date)
    ensures prefix + triggerKey + "/" + DatePath(date) + "/" + ts + ".txt"
            == prefix + Join([triggerKey, NatToString(date.year), TwoDigits(date.month), TwoDigits(date.day), ts + ".txt"], '/')
  {
    var y, m, d := NatToString(date.year), TwoDigits(date.month), TwoDigits(date.day);
    JoinFive(triggerKey, y, m, d, ts + ".txt", '/');
    Regroup(prefix, triggerKey, y, m, d, ts);
  }

  lemma Regroup(p: string, k: string, y: string, m: string, d: string, ts: string)
    ensures p + k + "/" + (y + "/" + m + "/" + d) + "/" + ts + ".txt"
            == p + (k + ['/'] + y + ['/'] + m + ['/'] + d + ['/'] + (ts + ".txt"))
  {
  }

  /** With the default prefix every trigger object lies under `triggers/<stable key>/`. */
  lemma DefaultPrefixKey(triggerKey: string, date: Date, ts: string)
    requires ValidDate(date)
    ensures "triggers/" + triggerKey + "/" <= TriggerObjectKey(DefaultPrefix, triggerKey, date, ts)
  {
    var dir := DefaultPrefix + triggerKey + "/";
    var key := TriggerObjectKey(DefaultPrefix, triggerKey, date, ts);
    assert key == dir + DatePath(date) + "/" + ts + ".txt";
    assert key[..|dir|] == dir;
  }

  /** Reading the key back segment by segment recovers the stable key, the date and the timestamp. */
  lemma TriggerObjectKeySegments(prefix: string, triggerKey: string, date: Date, ts: string)
    requires ValidDate(date) && '/' !in triggerKey && '/' !in ts
    ensures var segments := Split(TriggerObjectKey(prefix, triggerKey, date, ts)[|prefix|..], '/');
            |segments| == 5 && segments[0] == triggerKey && segments[4] == ts + ".txt"
            && AllDigits(segments[1]) && DecimalValue(segments[1]) == date.year
            && AllDigits(segments[2]) && DecimalValue(segments[2]) == date.month
            && AllDigits(segments[3]) && DecimalValue(segments[3]) == date.day
  {
    var parts := [triggerKey, NatToString(date.year), TwoDigits(date.month), TwoDigits(date.day), ts + ".txt"];
    var key := TriggerObjectKey(prefix, triggerKey, date, ts);
    assert key[|prefix|..] == Join(parts, '/');
    forall k | 0 <= k < |parts| ensures '/' !in parts[k] {
      if 1 <= k <= 3 {
        assert AllDigits(parts[k]);
      } else if k == 4 {
        assert '/' !in ".txt";
      }
    }
    SplitJoin(parts, '/');
  }

  /** What `send_trigger_txt` returns. */
  datatype TriggerSent = TriggerSent(s3Key: string, content: string, timestamp: string, triggerKey: string)

  /** `send_trigger_txt`: an unknown label fails before anything is written; a known one
      issues exactly one write of the trigger text under the trigger key, and returns the
      key, body and stable key it wrote. The timestamp `ts` and the date are read from the
      clock by the caller, separately, as the source does. */
  function SendTriggerTxt(bucket: Bucket, triggerLabel: string, prefix: string, ts: string, date: Date): (d: Done<TriggerSent>)
    requires ValidDate(date)
    ensures triggerLabel !in TriggerMap <==> d.effects == []
    ensures triggerLabel !in TriggerMap ==> d.result == Failure("Unknown trigger label: " + triggerLabel)
    ensures triggerLabel in TriggerMap ==>
              var def := TriggerMap[triggerLabel];
              var key := TriggerObjectKey(prefix, def.key, date, ts);
              var body := TriggerContent(def, ts);
              d.effects == [PutObject(bucket.name, key, body, None)]
              && (bucket.put(key, body).None? <==> d.result.Success?)
              && (d.result.Success? ==> d.result.value == TriggerSent(key, body, ts, def.key))
              && (d.result.Failure? ==> d.result.error == PutFailureText(bucket.put(key, body).value))
  {
    if triggerLabel !in TriggerMap then Done(Failure("Unknown trigger label: " + triggerLabel), [])
    else
      var def := TriggerMap[triggerLabel];
      var body := TriggerContent(def, ts);
      var key := TriggerObjectKey(prefix, def.key, date, ts);
      var effects := [PutObject(bucket.name, key, body, None)];
      match bucket.put(key, body)
      case None => Done(Success(TriggerSent(key, body, ts, def.key)), effects)
      case Some(fault) => Done(Failure(PutFailureText(fault)), effects)
  }

  /** The documented example: "trigger high temperature" writes under the stable key
      `high_temperature` a body that starts with "sensor detected high temperature". */
  lemma HighTemperatureExample(bucket: Bucket, chosen: string, prefix: string, ts: string, date: Date)
    requires ValidDate(date) && chosen == "trigger high temperature"
    ensures var d := SendTriggerTxt(bucket, chosen, prefix, ts, date);
            |d.effects| == 1 && "sensor detected high temperature\n" <= d.effects[0].body
            && (d.result.Success? ==> d.result.value.triggerKey == "high_temperature")
  {
    HighTemperatureEntry();
    var def := TriggerMap[chosen];
    var rest := "generated_at=" + ts + "\n" + "trigger_key=" + def.key + "\n" + "source=Caseiro-UI\n";
    assert TriggerContent(def, ts) == "sensor detected high temperature\n" + rest;
  }

  lemma HighTemperatureEntry()
    ensures "trigger high temperature" in TriggerMap
    ensures TriggerMap["trigger high temperature"] == TriggerDef("high_temperature", "sensor detected high temperature")
  {
  }

  /** A refused write is reported as "Failed to PUT object: ..."; any other exception passes unchanged. */
  function PutFailureText(fault: Fault): string
  {
    match fault
    case ClientError(m) => "Failed to PUT object: " + m
    case OtherError(m) => m
  }

  /** What `get_related_message` returns when it finds something. */
  datatype RelatedMessage = RelatedMessage(s3Key: string, content: string)

  /** The prefixes searched: the caller's list, or `messages/<key>/` then `info/<key>/`. */
  function SearchPrefixes(triggerKey: string, given: Option<seq<string>>): seq<string>
  {
    match given
    case None => ["messages/" + triggerKey + "/", "info/" + triggerKey + "/"]
    case Some(prefixes) => prefixes
  }

  /** Everything listed under the prefixes, prefix by prefix, in listing order. */
  function Listed(bucket: Bucket, prefixes: seq<string>): seq<Entry>
  {
    if prefixes == [] then []
    else Listed(bucket, prefixes[..|prefixes| - 1]) + bucket.list(prefixes[|prefixes| - 1])
  }

  /** A listed object that the search considers: a non-empty key ending in ".txt", in any case. */
  predicate IsTextCandidate(e: Entry) {
    e.key != "" && EndsWithIgnoringCase(e.key, ".txt")
  }

  function Candidates(bucket: Bucket, prefixes: seq<string>): seq<Entry>
  {
    Filter(Listed(bucket, prefixes), IsTextCandidate)
  }

  /** `cs[i]` is the newest candidate, and the first one seen with that timestamp. */
  ghost predicate NewestFirstSeen(cs: seq<Entry>, i: int) {
    && 0 <= i < |cs|
    && (forall j :: 0 <= j < |cs| ==> cs[j].lastModified <= cs[i].lastModified)
    && (forall j :: 0 <= j < i ==> cs[j].lastModified < cs[i].lastModified)
  }

  /** The selection rule picks a single candidate. */
  lemma NewestFirstSeenUnique(cs: seq<Entry>, i: int, j: int)
    requires NewestFirstSeen(cs, i) && NewestFirstSeen(cs, j)
    ensures i == j
  {
    assert cs[i].lastModified == cs[j].lastModified;
  }

  /** One more candidate: it becomes the choice exactly when it is strictly newer. */
  lemma KeepNewest(seen: seq<Entry>, best: int, o: Entry)
    requires NewestFirstSeen(seen, best)
    ensures o.lastModified > seen[best].lastModified ==> NewestFirstSeen(seen + [o], |seen|)
    ensures o.lastModified <= seen[best].lastModified ==> NewestFirstSeen(seen + [o], best)
  {
  }

  /** Reading the chosen object: a refused read means "nothing related"; any other exception propagates. */
  function ReadRelated(bucket: Bucket, key: string): Result<Option<RelatedMessage>, string>
  {
    match bucket.get(key)
    case Success(body) => Success(Some(RelatedMessage(key, body)))
    case Failure(ClientError(_)) => Success(None)
    case Failure(OtherError(m)) => Failure(m)
  }

  /** The choice so far: nothing when no candidate has been seen, otherwise the candidate
      at `best`, newest and first seen among `seen`. */
  ghost predicate Chosen(latest: Option<Entry>, seen: seq<Entry>, best: int) {
    && (latest.None? <==> seen == [])
    && (latest.Some? ==> NewestFirstSeen(seen, best) && seen[best] == latest.value)
  }

  /** One more candidate keeps the choice well formed: it is taken exactly when nothing
      was chosen yet or it is strictly newer. */
  lemma ScanStep(latest: Option<Entry>, seen: seq<Entry>, best: int, o: Entry)
    requires Chosen(latest, seen, best)
    ensures var newer := latest.None? || o.lastModified > latest.value.lastModified;
            Chosen(if newer then Some(o) else latest, seen + [o], if newer then |seen| else best)
  {
    if latest.Some? {
      KeepNewest(seen, best, o);
    }
  }

  /** The inner loop of `get_related_message`: one prefix's listing, in order, keeping a
      candidate only when it is strictly newer than the one kept so far. */
  method ScanListing(contents: seq<Entry>, latest0: Option<Entry>, ghost seen0: seq<Entry>, ghost best0: int)
    returns (latest: Option<Entry>, ghost seen: seq<Entry>, ghost best: int)
    requires Chosen(latest0, seen0, best0)
    ensures seen == seen0 + Filter(contents, IsTextCandidate)
    ensures Chosen(latest, seen, best)
  {
    latest, seen, best := latest0, seen0, best0;
    assert contents[..0] == [];
    var i := 0;
    while i < |contents|
      invariant 0 <= i <= |contents|
      invariant seen == seen0 + Filter(contents[..i], IsTextCandidate)
      invariant Chosen(latest, seen, best)
    {
      var o := contents[i];
      assert contents[..i + 1] == contents[..i] + [o];
      FilterSnoc(contents[..i], o, IsTextCandidate);
      if o.key != "" && EndsWithIgnoringCase(o.key, ".txt") {
        SnocAssoc(seen0, Filter(contents[..i], IsTextCandidate), o);
        ScanStep(latest, seen, best, o);
        if latest.None? || o.lastModified > latest.value.lastModified {
          latest := Some(o);
          best := |seen|;
        }
        seen := seen + [o];
      }
      i := i + 1;
    }
    assert contents[..i] == contents;
  }

  /** `get_related_message`: scans the prefixes in order and keeps the candidate whose
      timestamp is strictly newer than the best so far, so the first one seen wins a tie;
      finds nothing when no ".txt" object is listed, and otherwise reads the chosen object. */
  method GetRelatedMessage(bucket: Bucket, triggerKey: string, searchPrefixes: Option<seq<string>>)
    returns (r: Result<Option<RelatedMessage>, string>)
    ensures var cs := Candidates(bucket, SearchPrefixes(triggerKey, searchPrefixes));
            (cs == [] ==> r == Success(None))
            && (cs != [] ==> exists i :: NewestFirstSeen(cs, i) && r == ReadRelated(bucket, cs[i].key))
    ensures r.Success? && r.value.Some? ==> EndsWithIgnoringCase(r.value.value.s3Key, ".txt")
  {
    var prefixes := SearchPrefixes(triggerKey, searchPrefixes);
    var latest: Option<Entry> := None;
    ghost var seen: seq<Entry> := [];
    ghost var best := 0;
    var p := 0;
    while p < |prefixes|
      invariant 0 <= p <= |prefixes|
      invariant seen == Candidates(bucket, prefixes[..p])
      invariant Chosen(latest, seen, best)
    {
      var contents := bucket.list(prefixes[p]);
      assert prefixes[..p + 1][..p] == prefixes[..p];
      assert Listed(bucket, prefixes[..p + 1]) == Listed(bucket, prefixes[..p]) + contents;
      FilterConcat(Listed(bucket, prefixes[..p]), contents, IsTextCandidate);
      latest, seen, best := ScanListing(contents, latest, seen, best);
      p := p + 1;
    }
    assert prefixes[..p] == prefixes;
    if latest.None? {
      return Success(None);
    }
    r := ReadRelated(bucket, latest.value.key);
    assert NewestFirstSeen(seen, best) && r == ReadRelated(bucket, seen[best].key);
  }
}
