/** Alert retrieval (backend/s3_alerts.py): list the JSON objects under a prefix newest
    first, load the newest one, or load all of them (optionally capped), pairing each with
    a pre-signed link. */
module Alerts {
  import opened Results
  import opened Seqs
  import opened Text
  import opened Json
  import opened Storage

  /** A loaded alert: its key, its parsed document, a time-limited link and its timestamp. */
  datatype AlertRecord = AlertRecord(key: string, data: Json, presignedUrl: string, ts: int)

  const NoJsonMessages: string := "No JSON messages found."
  const DefaultPrefix: string := "alerts/"
  const DefaultPresignMinutes: int := 30

  /** `ExpiresIn=minutes * 60`: the link lifetime handed to the signer, in seconds. */
  function ExpirySeconds(minutes: int): int
  {
    minutes * 60
  }

  /** A listed object that `_list_json` keeps: its key ends in ".json", in any case. */
  predicate IsJsonEntry(e: Entry) {
    EndsWithIgnoringCase(e.key, ".json")
  }

  function JsonEntries(listing: seq<Entry>): seq<Entry>
  {
    Filter(listing, IsJsonEntry)
  }

  /** Timestamps never increase along the sequence. */
  predicate NewestFirst(s: seq<Entry>) {
    forall i, j :: 0 <= i < j < |s| ==> s[i].lastModified >= s[j].lastModified
  }

  /** The entries with timestamp `t`, in their order in `s`. A sort is stable exactly when
      it keeps each of these subsequences as it was. */
  function AtTime(s: seq<Entry>, t: int): seq<Entry>
  {
    if s == [] then [] else (if s[0].lastModified == t then [s[0]] else []) + AtTime(s[1..], t)
  }

  lemma {:induction false} AtTimeConcat(a: seq<Entry>, b: seq<Entry>, t: int)
    ensures AtTime(a + b, t) == AtTime(a, t) + AtTime(b, t)
  {
    if a == [] {
      assert a + b == b;
    } else {
      var head := if a[0].lastModified == t then [a[0]] else [];
      assert (a + b)[1..] == a[1..] + b;
      assert AtTime(a + b, t) == head + AtTime(a[1..] + b, t);
      AtTimeConcat(a[1..], b, t);
      assert head + (AtTime(a[1..], t) + AtTime(b, t)) == (head + AtTime(a[1..], t)) + AtTime(b, t);
    }
  }

  lemma AtTimeSingle(e: Entry, t: int)
    ensures AtTime([e], t) == if e.lastModified == t then [e] else []
  {
    assert [e][1..] == [];
  }

  lemma {:induction false} AtTimeMembers(s: seq<Entry>, t: int)
    ensures forall e :: e in AtTime(s, t) <==> e in s && e.lastModified == t
  {
    if s != [] {
      AtTimeMembers(s[1..], t);
      assert s == [s[0]] + s[1..];
    }
  }

  /** Places `x` after every entry strictly newer than it and before the rest. */
  function Insert(x: Entry, s: seq<Entry>): seq<Entry>
  {
    if s == [] || x.lastModified >= s[0].lastModified then [x] + s
    else [s[0]] + Insert(x, s[1..])
  }

  /** The newest-first stable sort (`list.sort(key=LastModified, reverse=True)`). */
  function SortNewestFirst(s: seq<Entry>): seq<Entry>
  {
    if s == [] then [] else Insert(s[0], SortNewestFirst(s[1..]))
  }

  lemma {:induction false} InsertPermutes(x: Entry, s: seq<Entry>)
    ensures multiset(Insert(x, s)) == multiset(s) + multiset{x}
  {
    if s != [] && x.lastModified < s[0].lastModified {
      InsertPermutes(x, s[1..]);
      assert s == [s[0]] + s[1..];
    }
  }

  /** An entry no older than the head of a newest-first sequence can go in front of it. */
  lemma ConsSorted(h: Entry, s: seq<Entry>)
    requires NewestFirst(s)
    requires s != [] ==> h.lastModified >= s[0].lastModified
    ensures NewestFirst([h] + s)
  {
    var r := [h] + s;
    forall i, j | 0 <= i < j < |r| ensures r[i].lastModified >= r[j].lastModified {
      if i == 0 {
        assert r[j] == s[j - 1];
      } else {
        assert r[i] == s[i - 1] && r[j] == s[j - 1];
      }
    }
  }

  /** The head of `Insert(x, s)` is `x` or the head of `s`. */
  lemma InsertHead(x: Entry, s: seq<Entry>)
    ensures Insert(x, s) != []
    ensures Insert(x, s)[0] == x || (s != [] && Insert(x, s)[0] == s[0])
  {
  }

  lemma {:induction false} InsertSorted(x: Entry, s: seq<Entry>)
    requires NewestFirst(s)
    ensures NewestFirst(Insert(x, s))
  {
    if s == [] || x.lastModified >= s[0].lastModified {
      ConsSorted(x, s);
    } else {
      var tail := s[1..];
      assert NewestFirst(tail) by {
        forall i, j | 0 <= i < j < |tail| ensures tail[i].lastModified >= tail[j].lastModified {
          assert tail[i] == s[i + 1] && tail[j] == s[j + 1];
        }
      }
      InsertSorted(x, tail);
      InsertHead(x, tail);
      assert tail != [] ==> s[0].lastModified >= tail[0].lastModified by {
        if tail != [] {
          assert tail[0] == s[1];
        }
      }
      ConsSorted(s[0], Insert(x, tail));
    }
  }

  /** Inserting `x` puts it ahead of every entry with the same timestamp and moves nothing else. */
  lemma {:induction false} InsertAtTime(x: Entry, s: seq<Entry>, t: int)
    ensures AtTime(Insert(x, s), t) == (if x.lastModified == t then [x] else []) + AtTime(s, t)
  {
    var mine := if x.lastModified == t then [x] else [];
    AtTimeSingle(x, t);
    if s == [] || x.lastModified >= s[0].lastModified {
      AtTimeConcat([x], s, t);
    } else {
      var head := if s[0].lastModified == t then [s[0]] else [];
      AtTimeSingle(s[0], t);
      InsertAtTime(x, s[1..], t);
      AtTimeConcat([s[0]], Insert(x, s[1..]), t);
      assert AtTime(Insert(x, s), t) == head + (mine + AtTime(s[1..], t));
      assert AtTime(s, t) == head + AtTime(s[1..], t);
      SwapEmpty(head, mine, AtTime(s[1..], t));
    }
  }

  /** Two pieces of which one is empty can be written in either order. */
  lemma SwapEmpty(a: seq<Entry>, b: seq<Entry>, rest: seq<Entry>)
    requires a == [] || b == []
    ensures a + (b + rest) == b + (a + rest)
  {
    if a == [] {
      assert a + (b + rest) == b + rest;
      assert a + rest == rest;
    } else {
      assert b + (a + rest) == a + rest;
      assert b + rest == rest;
    }
  }

  /** The sorted sequence is newest first. */
  lemma {:induction false} SortSorted(s: seq<Entry>)
    ensures NewestFirst(SortNewestFirst(s))
  {
    if s != [] {
      SortSorted(s[1..]);
      InsertSorted(s[0], SortNewestFirst(s[1..]));
    }
  }

  /** The sorted sequence is a permutation of the input. */
  lemma {:induction false} SortPermutes(s: seq<Entry>)
    ensures multiset(SortNewestFirst(s)) == multiset(s)
  {
    if s != [] {
      SortPermutes(s[1..]);
      InsertPermutes(s[0], SortNewestFirst(s[1..]));
      assert s == [s[0]] + s[1..];
    }
  }

  /** The sort is stable: entries with equal timestamps keep their listing order. */
  lemma {:induction false} SortStable(s: seq<Entry>, t: int)
    ensures AtTime(SortNewestFirst(s), t) == AtTime(s, t)
  {
    if s != [] {
      SortStable(s[1..], t);
      InsertAtTime(s[0], SortNewestFirst(s[1..]), t);
      AtTimeConcat([s[0]], s[1..], t);
      assert [s[0]] + s[1..] == s;
    }
  }

  /** In a newest-first sequence nothing is newer than the head. */
  lemma HeadIsNewest(s: seq<Entry>, e: Entry)
    requires NewestFirst(s) && e in s
    ensures e.lastModified <= s[0].lastModified
  {
    var k :| 0 <= k < |s| && s[k] == e;
    if k > 0 {
      assert s[0].lastModified >= s[k].lastModified;
    }
  }

  lemma AtTimeNonEmpty(s: seq<Entry>)
    ensures s != [] ==> exists t :: AtTime(s, t) != []
  {
    if s != [] {
      AtTimeMembers(s, s[0].lastModified);
      assert s[0] in AtTime(s, s[0].lastModified);
    }
  }

  /** Newest-first order plus stability pin the result down: any stable newest-first
      arrangement of the same entries is the one `SortNewestFirst` gives. */
  lemma {:induction false} StableOrderUnique(a: seq<Entry>, b: seq<Entry>)
    requires NewestFirst(a) && NewestFirst(b)
    requires forall t :: AtTime(a, t) == AtTime(b, t)
    ensures a == b
    decreases |a|
  {
    if a == [] || b == [] {
      AtTimeNonEmpty(a);
      AtTimeNonEmpty(b);
    } else {
      var t, u := a[0].lastModified, b[0].lastModified;
      assert a == [a[0]] + a[1..] && b == [b[0]] + b[1..];
      AtTimeConcat([a[0]], a[1..], t);
      AtTimeConcat([b[0]], b[1..], u);
      AtTimeMembers(a, u);
      AtTimeMembers(b, t);
      assert b[0] in AtTime(a, u);
      HeadIsNewest(a, b[0]);
      assert a[0] in AtTime(b, t);
      HeadIsNewest(b, a[0]);
      assert t == u;
      assert a[0] == AtTime(a, t)[0] == AtTime(b, t)[0] == b[0];
      forall t' ensures AtTime(a[1..], t') == AtTime(b[1..], t') {
        var head := AtTime([a[0]], t');
        AtTimeConcat([a[0]], a[1..], t');
        AtTimeConcat([b[0]], b[1..], t');
        assert AtTime(a, t') == head + AtTime(a[1..], t');
        assert AtTime(b, t') == head + AtTime(b[1..], t');
        assert (head + AtTime(a[1..], t'))[|head|..] == AtTime(a[1..], t');
        assert (head + AtTime(b[1..], t'))[|head|..] == AtTime(b[1..], t');
      }
      StableOrderUnique(a[1..], b[1..]);
    }
  }

  /** `_list_json`: keeps the listed entries whose key ends in ".json" (in any case) and
      sorts them newest first, stably. */
  method ListJson(listing: seq<Entry>) returns (objs: seq<Entry>)
    ensures objs == SortNewestFirst(JsonEntries(listing))
    ensures NewestFirst(objs)
    ensures multiset(objs) == multiset(JsonEntries(listing))
    ensures forall t :: AtTime(objs, t) == AtTime(JsonEntries(listing), t)
    ensures forall e :: e in objs <==> e in listing && IsJsonEntry(e)
  {
    objs := [];
    var i := 0;
    while i < |listing|
      invariant 0 <= i <= |listing|
      invariant objs == JsonEntries(listing[..i])
    {
      var o := listing[i];
      assert listing[..i + 1] == listing[..i] + [o];
      FilterSnoc(listing[..i], o, IsJsonEntry);
      if EndsWithIgnoringCase(o.key, ".json") {
        objs := objs + [o];
      }
      i := i + 1;
    }
    assert listing[..i] == listing;
    var kept := objs;
    objs := SortNewestFirst(kept);
    SortSorted(kept);
    SortPermutes(kept);
    forall t ensures AtTime(objs, t) == AtTime(kept, t) {
      SortStable(kept, t);
    }
    FilterMembers(listing, IsJsonEntry);
    forall e ensures e in objs <==> e in kept {
      assert e in objs <==> e in multiset(objs);
      assert e in kept <==> e in multiset(kept);
    }
  }

  /** Reading and parsing one object; any exception propagates (as in `get_latest_alert`). */
  function ReadAlert(bucket: Bucket, e: Entry, presignMins: int, parse: string -> Result<Json, string>): (r: Result<AlertRecord, string>)
    ensures bucket.get(e.key).Failure? ==> r == Failure(bucket.get(e.key).error.message)
    ensures bucket.get(e.key).Success? ==>
              var parsed := parse(bucket.get(e.key).value);
              (parsed.Failure? ==> r == Failure(parsed.error))
              && (parsed.Success? ==> r.Success? && r.value.data == parsed.value)
    ensures r.Success? ==> r.value.key == e.key && r.value.ts == e.lastModified
                           && r.value.presignedUrl == bucket.presign(e.key, presignMins * 60)
  {
    match bucket.get(e.key)
    case Failure(fault) => Failure(fault.message)
    case Success(raw) =>
      match parse(raw)
      case Failure(message) => Failure(message)
      case Success(data) => Success(AlertRecord(e.key, data, bucket.presign(e.key, ExpirySeconds(presignMins)), e.lastModified))
  }

  /** With the default of 30 minutes a loaded record's link is signed for 1800 seconds. */
  lemma DefaultLinkLifetime(bucket: Bucket, e: Entry, parse: string -> Result<Json, string>)
    requires ReadAlert(bucket, e, DefaultPresignMinutes, parse).Success?
    ensures ReadAlert(bucket, e, DefaultPresignMinutes, parse).value.presignedUrl == bucket.presign(e.key, 1800)
  {
  }

  /** The document that stands for an object that could not be read or parsed. */
  function ParseErrorDocument(message: string): Json
  {
    JObject(map["parse_error" := JString(message)])
  }

  /** Reading and parsing one object inside `get_all_alerts`: a failure becomes a
      `parse_error` document instead of an exception. */
  function ReadAlertOrMark(bucket: Bucket, e: Entry, presignMins: int, parse: string -> Result<Json, string>): (r: AlertRecord)
    ensures r.key == e.key && r.ts == e.lastModified && r.presignedUrl == bucket.presign(e.key, presignMins * 60)
    ensures bucket.get(e.key).Failure? ==> r.data == ParseErrorDocument(bucket.get(e.key).error.message)
    ensures bucket.get(e.key).Success? ==>
              var parsed := parse(bucket.get(e.key).value);
              r.data == if parsed.Success? then parsed.value else ParseErrorDocument(parsed.error)
  {
    var data := match bucket.get(e.key)
      case Failure(fault) => ParseErrorDocument(fault.message)
      case Success(raw) =>
        match parse(raw)
        case Failure(message) => ParseErrorDocument(message)
        case Success(data) => data;
    AlertRecord(e.key, data, bucket.presign(e.key, ExpirySeconds(presignMins)), e.lastModified)
  }

  /** Where reading succeeds, the batch reader and the single reader agree, so the newest
      record of `get_all_alerts` is the record `get_latest_alert` returns. */
  lemma ReadersAgree(bucket: Bucket, e: Entry, presignMins: int, parse: string -> Result<Json, string>)
    requires ReadAlert(bucket, e, presignMins, parse).Success?
    ensures ReadAlertOrMark(bucket, e, presignMins, parse) == ReadAlert(bucket, e, presignMins, parse).value
  {
  }

  /** `get_latest_alert`: fails with "No JSON messages found." when nothing is listed;
      otherwise loads the first entry of the newest-first order, whose timestamp no other
      JSON object's exceeds. */
  method GetLatestAlert(bucket: Bucket, prefix: string, presignMins: int, parse: string -> Result<Json, string>)
    returns (r: Result<AlertRecord, string>)
    ensures var objs := SortNewestFirst(JsonEntries(bucket.list(prefix)));
            (objs == [] ==> r == Failure(NoJsonMessages))
            && (objs != [] ==> r == ReadAlert(bucket, objs[0], presignMins, parse))
    ensures r.Success? ==> var listing := bucket.list(prefix);
            Entry(r.value.key, r.value.ts) in listing && EndsWithIgnoringCase(r.value.key, ".json")
            && forall e :: e in listing && IsJsonEntry(e) ==> e.lastModified <= r.value.ts
  {
    var objs := ListJson(bucket.list(prefix));
    if objs == [] {
      return Failure(NoJsonMessages);
    }
    var o := objs[0];
    r := ReadAlert(bucket, o, presignMins, parse);
    forall e | e in bucket.list(prefix) && IsJsonEntry(e) ensures e.lastModified <= o.lastModified {
      HeadIsNewest(objs, e);
    }
  }

  /** `objs[:limit]` with Python's slice rules: a negative bound counts from the end. */
  function SliceTo(s: seq<Entry>, n: int): (r: seq<Entry>)
    ensures r <= s
    ensures |r| == if n >= 0 then (if n < |s| then n else |s|) else (if |s| + n > 0 then |s| + n else 0)
  {
    if n >= 0 then (if n < |s| then s[..n] else s)
    else (if |s| + n > 0 then s[..|s| + n] else [])
  }

  /** `if limit: objs = objs[:limit]` -- None and 0 leave the list whole. */
  function Capped(objs: seq<Entry>, limit: Option<int>): (r: seq<Entry>)
    ensures r <= objs
    ensures limit.None? || limit.value == 0 ==> r == objs
    ensures limit.Some? && limit.value > 0 ==> |r| == if limit.value < |objs| then limit.value else |objs|
  {
    if limit.Some? && limit.value != 0 then SliceTo(objs, limit.value) else objs
  }

  /** What a capped newest-first listing of kept entries still guarantees. */
  lemma CappedKept(all: seq<Entry>, limit: Option<int>, listing: seq<Entry>)
    requires NewestFirst(all)
    requires forall e :: e in all ==> e in listing && IsJsonEntry(e)
    ensures NewestFirst(Capped(all, limit))
    ensures forall e :: e in Capped(all, limit) ==> e in listing && IsJsonEntry(e)
  {
    var objs := Capped(all, limit);
    assert objs == all[..|objs|];
    forall e | e in objs ensures e in all {
      var k :| 0 <= k < |objs| && objs[k] == e;
      assert all[k] == e;
    }
  }

  /** Records that carry the keys and timestamps of newest-first kept entries are
      themselves newest first and name listed ".json" objects. */
  lemma RecordsFollowEntries(objs: seq<Entry>, results: seq<AlertRecord>, listing: seq<Entry>)
    requires |results| == |objs| && NewestFirst(objs)
    requires forall k :: 0 <= k < |objs| ==> results[k].key == objs[k].key && results[k].ts == objs[k].lastModified
    requires forall e :: e in objs ==> e in listing && IsJsonEntry(e)
    ensures forall i, j :: 0 <= i < j < |results| ==> results[i].ts >= results[j].ts
    ensures forall i :: 0 <= i < |results| ==> Entry(results[i].key, results[i].ts) in listing
                                                && EndsWithIgnoringCase(results[i].key, ".json")
  {
    forall k | 0 <= k < |results|
      ensures Entry(results[k].key, results[k].ts) in listing && IsJsonEntry(objs[k])
    {
      assert Entry(results[k].key, results[k].ts) == objs[k];
      assert objs[k] in objs;
    }
  }

  /** `get_all_alerts`: one record per kept entry, newest first, a prefix of the whole
      order when capped; an object that cannot be read or parsed yields a `parse_error`
      record and the batch goes on. */
  method GetAllAlerts(bucket: Bucket, prefix: string, presignMins: int, limit: Option<int>, parse: string -> Result<Json, string>)
    returns (results: seq<AlertRecord>)
    ensures var objs := Capped(SortNewestFirst(JsonEntries(bucket.list(prefix))), limit);
            |results| == |objs|
            && forall i :: 0 <= i < |objs| ==> results[i] == ReadAlertOrMark(bucket, objs[i], presignMins, parse)
    ensures forall i, j :: 0 <= i < j < |results| ==> results[i].ts >= results[j].ts
    ensures forall i :: 0 <= i < |results| ==> Entry(results[i].key, results[i].ts) in bucket.list(prefix)
                                                && EndsWithIgnoringCase(results[i].key, ".json")
  {
    var all := ListJson(bucket.list(prefix));
    var objs := all;
    if limit.Some? && limit.value != 0 {
      objs := SliceTo(objs, limit.value);
    }
    assert objs == Capped(all, limit);
    CappedKept(all, limit, bucket.list(prefix));
    results := [];
    var i := 0;
    while i < |objs|
      invariant 0 <= i <= |objs|
      invariant |results| == i
      invariant forall k :: 0 <= k < i ==> results[k] == ReadAlertOrMark(bucket, objs[k], presignMins, parse)
    {
      results := results + [ReadAlertOrMark(bucket, objs[i], presignMins, parse)];
      i := i + 1;
    }
    RecordsFollowEntries(objs, results, bucket.list(prefix));
  }
}
