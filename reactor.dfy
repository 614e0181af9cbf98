/** The ingestion reactor (lambda_handler.py): on an object-created event it reads the new
    object, asks the agent for an alert, stores the alert as JSON under "alerts/" and sends
    the same text by SMS, answering 200, 400 or 500. */
module Reactor {
  import opened Results
  import opened Seqs
  import opened Text
  import opened Json
  import opened Storage
  import Alerts

  /** The constants at the top of the handler. */
  datatype Config = Config(
    region: string,
    agentId: string,
    agentAliasId: string,
    outputBucket: string,
    senderId: string,
    destinationNumber: string)

  const SourceConfig: Config :=
    Config("us-east-1", "QAYKR34TMW", "TSTALIASID", "alertas-caseiro", "CAISEIRO", "+351...")

  const Placeholder: string := "REPLACE_WITH"
  const AgentIdMissing: string := "AGENT_ID n\U{E3}o configurado. Preencha AGENT_ID no topo do script."
  const AgentAliasMissing: string := "AGENT_ALIAS_ID n\U{E3}o configurado. Preencha AGENT_ALIAS_ID no topo do script."
  const JsonContentType: string := "application/json; charset=utf-8"
  const SmsType: string := "Transactional"

  /** An agent identifier counts as filled in when it is non-empty and holds no placeholder. */
  predicate IdConfigured(id: string) {
    id != "" && !Contains(id, Placeholder)
  }

  /** The identifiers shipped in the handler pass both guards. */
  lemma SourceConfigPassesGuards()
    ensures IdConfigured(SourceConfig.agentId) && IdConfigured(SourceConfig.agentAliasId)
  {
    ShortNeverContains(SourceConfig.agentId, Placeholder);
    ShortNeverContains(SourceConfig.agentAliasId, Placeholder);
  }

  /** The extension rule of `_basename_no_ext`: a name with no dot after its first
      character is left whole; otherwise the result is the non-empty part before its
      last dot. */
  function DropExtension(base: string): (r: string)
    ensures r <= base
    ensures r == base ==> forall k :: 1 <= k < |base| ==> base[k] != '.'
    ensures r != base ==> 0 < |r| < |base| && base[|r|] == '.' && forall k :: |r| < k < |base| ==> base[k] != '.'
  {
    var dot := RFind(base, '.');
    if dot > 0 then base[..dot] else base
  }

  /** `_basename_no_ext`: the part after the last '/', without its extension. */
  function BasenameNoExt(key: string): (r: string)
    ensures '/' !in r && r <= Basename(key)
  {
    var base := Basename(key);
    var r := DropExtension(base);
    assert forall k :: 0 <= k < |r| ==> r[k] == base[k];
    r
  }

  /** `f"alerts/{_basename_no_ext(key)}.json"`. */
  function OutputKey(key: string): string
  {
    "alerts/" + BasenameNoExt(key) + ".json"
  }

  /** The stored alert lands where the dashboard reads: under "alerts/", with a key that
      the ".json" filter keeps, and its file name is the stem plus ".json". */
  lemma OutputKeyIsListedAlert(key: string, lastModified: int)
    ensures Alerts.DefaultPrefix <= OutputKey(key)
    ensures Alerts.IsJsonEntry(Entry(OutputKey(key), lastModified))
    ensures Basename(OutputKey(key)) == BasenameNoExt(key) + ".json"
  {
    OutputKeyIsJson(key, lastModified);
    OutputKeyBasename(key);
  }

  lemma OutputKeyIsJson(key: string, lastModified: int)
    ensures Alerts.IsJsonEntry(Entry(OutputKey(key), lastModified))
  {
    var stem := BasenameNoExt(key);
    assert OutputKey(key) == ("alerts/" + stem) + ".json";
    EndsWithLiteral("alerts/" + stem, ".json");
  }

  lemma OutputKeyBasename(key: string)
    ensures Basename(OutputKey(key)) == BasenameNoExt(key) + ".json"
  {
    var stem := BasenameNoExt(key);
    SlashFreeJson(stem);
    assert OutputKey(key) == "alerts/" + (stem + ".json");
    BasenameAfterDirectory("alerts/", stem + ".json");
  }

  /** Below a directory ending in '/', a '/'-free name is its own base name. */
  lemma BasenameAfterDirectory(dir: string, name: string)
    requires dir != [] && dir[|dir| - 1] == '/' && '/' !in name
    ensures Basename(dir + name) == name
  {
    var p := dir + name;
    assert p[|dir| - 1] == '/';
    assert p[|dir|..] == name;
    BasenameOfSuffix(p, |dir|);
  }

  lemma SlashFreeJson(stem: string)
    requires '/' !in stem
    ensures '/' !in stem + ".json"
  {
    var tail := stem + ".json";
    forall k | 0 <= k < |tail| ensures tail[k] != '/' {
      if k < |stem| {
        assert tail[k] == stem[k];
      } else {
        assert tail[k] == ".json"[k - |stem|];
      }
    }
  }

  /** When everything from position `i` on is free of '/' and position `i - 1` holds one,
      the base name is what follows it. */
  lemma BasenameOfSuffix(p: string, i: nat)
    requires 0 < i <= |p| && p[i - 1] == '/' && '/' !in p[i..]
    ensures Basename(p) == p[i..]
  {
    var d := RFind(p, '/');
    assert forall k :: i <= k < |p| ==> p[k] == p[i..][k - i];
    assert d == i - 1;
  }

  /** The documented example: the object `file_1.txt` is answered under `alerts/file_1.json`. */
  lemma ExampleOutputKey()
    ensures OutputKey("file_1.txt") == "alerts/file_1.json"
  {
    assert RFind("file_1.txt", '/') == -1;
    assert Basename("file_1.txt") == "file_1.txt";
    assert RFind("file_1.", '.') == 6;
    assert RFind("file_1.t", '.') == 6;
    assert RFind("file_1.tx", '.') == 6;
    assert "file_1.txt"[..9] == "file_1.tx";
    assert RFind("file_1.txt", '.') == 6;
  }

  /** One event of the agent's completion stream. */
  datatype AgentEvent = Chunk(text: string) | Trace | OtherEvent

  predicate IsChunk(e: AgentEvent) {
    e.Chunk?
  }

  /** The decoded chunk payloads, in stream order. */
  function ChunkPayloads(events: seq<AgentEvent>): seq<string>
  {
    if events == [] then []
    else
      var last := events[|events| - 1];
      ChunkPayloads(events[..|events| - 1]) + (if last.Chunk? then [last.text] else [])
  }

  lemma {:induction false} ChunkPayloadsConcat(a: seq<AgentEvent>, b: seq<AgentEvent>)
    ensures ChunkPayloads(a + b) == ChunkPayloads(a) + ChunkPayloads(b)
    decreases |b|
  {
    if b == [] {
      assert a + b == a;
    } else {
      assert (a + b)[..|a + b| - 1] == a + b[..|b| - 1];
      ChunkPayloadsConcat(a, b[..|b| - 1]);
    }
  }

  /** Trace and other events contribute nothing: dropping them leaves the payloads as they were. */
  lemma {:induction false} NonChunksIgnored(events: seq<AgentEvent>)
    ensures ChunkPayloads(Filter(events, IsChunk)) == ChunkPayloads(events)
  {
    if events != [] {
      var init := events[..|events| - 1];
      var last := events[|events| - 1];
      assert events == init + [last];
      NonChunksIgnored(init);
      FilterConcat(init, [last], IsChunk);
      ChunkPayloadsConcat(Filter(init, IsChunk), Filter([last], IsChunk));
      assert Filter([last], IsChunk) == if last.Chunk? then [last] else [] by {
        assert [last][1..] == [];
      }
      assert ChunkPayloads([last]) == if last.Chunk? then [last.text] else [] by {
        assert [last][..0] == [];
      }
    }
  }

  /** The chunk loop of `invoke_agent`: the payloads concatenated in order, then stripped. */
  method CollectAnswer(events: seq<AgentEvent>) returns (answer: string)
    ensures answer == Strip(Flatten(ChunkPayloads(events)))
    ensures IsStripped(answer)
  {
    var chunks: seq<string> := [];
    var i := 0;
    while i < |events|
      invariant 0 <= i <= |events|
      invariant chunks == ChunkPayloads(events[..i])
    {
      assert events[..i + 1][..i] == events[..i];
      if events[i].Chunk? {
        chunks := chunks + [events[i].text];
      }
      i := i + 1;
    }
    assert events[..i] == events;
    answer := Strip(Flatten(chunks));
  }

  /** The request `invoke_agent` sends. */
  function AgentRequest(config: Config, sessionId: string, inputText: string): Effect
  {
    InvokeAgent(config.region, config.agentId, config.agentAliasId, sessionId, inputText)
  }

  /** What the services answer, and the library behaviour the handler leans on: the object
      read (body decoded), botocore's message for a bucket or key that is not a string, the
      agent's event stream, the write, the SMS publish and `json.dumps` of the payload. */
  datatype Services = Services(
    getObject: (string, string) -> Result<string, Fault>,
    invalidParameter: (Json, Json) -> string,
    agent: Effect -> Result<seq<AgentEvent>, Fault>,
    putObject: Effect -> Option<Fault>,
    publish: Effect -> Option<Fault>,
    dump: AlertPayload -> string)

  /** `invoke_agent`: both guards run before any request; then one request, whose stream
      yields the stripped concatenation of its chunks. */
  method InvokeAgentCall(config: Config, services: Services, inputText: string, sessionId: string)
    returns (answer: Result<string, string>, effects: seq<Effect>)
    ensures !IdConfigured(config.agentId) ==> answer == Failure(AgentIdMissing) && effects == []
    ensures IdConfigured(config.agentId) && !IdConfigured(config.agentAliasId) ==>
              answer == Failure(AgentAliasMissing) && effects == []
    ensures IdConfigured(config.agentId) && IdConfigured(config.agentAliasId) ==>
              effects == [AgentRequest(config, sessionId, inputText)]
              && match services.agent(effects[0])
                 case Failure(fault) => answer == Failure(fault.message)
                 case Success(events) => answer == Success(Strip(Flatten(ChunkPayloads(events))))
  {
    if !IdConfigured(config.agentId) {
      return Failure(AgentIdMissing), [];
    }
    if !IdConfigured(config.agentAliasId) {
      return Failure(AgentAliasMissing), [];
    }
    var request := AgentRequest(config, sessionId, inputText);
    effects := [request];
    var stream := services.agent(request);
    if stream.Failure? {
      return Failure(stream.error.message), effects;
    }
    var text := CollectAnswer(stream.value);
    answer := Success(text);
  }

  /** An exception raised while reading the event: a `KeyError` (with the `repr` of the
      missing key, which is what `str(e)` gives), or the `TypeError`/`IndexError` of a
      value of the wrong shape, with its text. */
  datatype Raised = KeyError(repr: string) | TypeError(message: string) | IndexError(message: string)

  /** The `'<type>' object is not subscriptable` text for a scalar. */
  function NotSubscriptable(v: Json): string
  {
    match v
    case JNull => "'NoneType' object is not subscriptable"
    case JBool(_) => "'bool' object is not subscriptable"
    case JNumber(literal) =>
      if '.' in literal || 'e' in literal || 'E' in literal then "'float' object is not subscriptable"
      else "'int' object is not subscriptable"
    case _ => ""
  }

  /** `v[k]` for a string key. */
  function Subscript(v: Json, k: string): (r: Result<Json, Raised>)
    ensures r.Success? <==> v.JObject? && k in v.fields
    ensures r.Success? ==> r.value == v.fields[k]
    ensures r.Failure? && r.error.KeyError? <==> v.JObject? && k !in v.fields
    ensures r.Failure? && r.error.KeyError? ==> r.error.repr == "'" + k + "'"
  {
    match v
    case JObject(fields) => if k in fields then Success(fields[k]) else Failure(KeyError("'" + k + "'"))
    case JArray(_) => Failure(TypeError("list indices must be integers or slices, not str"))
    case JString(_) => Failure(TypeError("string indices must be integers, not 'str'"))
    case _ => Failure(TypeError(NotSubscriptable(v)))
  }

  /** `v[0]`. A dictionary has no key `0`, so it raises `KeyError(0)`. */
  function First(v: Json): (r: Result<Json, Raised>)
    ensures r.Failure? && r.error.KeyError? <==> v.JObject?
    ensures v.JArray? && v.items != [] ==> r == Success(v.items[0])
  {
    match v
    case JObject(_) => Failure(KeyError("0"))
    case JArray(items) => if items != [] then Success(items[0]) else Failure(IndexError("list index out of range"))
    case JString(s) => if s != [] then Success(JString([s[0]])) else Failure(IndexError("string index out of range"))
    case _ => Failure(TypeError(NotSubscriptable(v)))
  }

  /** `event["Records"][0]["s3"]["bucket"]["name"]`, then `...["object"]["key"]`. */
  function EventLocation(event: Json): Result<(Json, Json), Raised>
  {
    var records :- Subscript(event, "Records");
    var first :- First(records);
    var s3 :- Subscript(first, "s3");
    var bucket :- Subscript(s3, "bucket");
    var name :- Subscript(bucket, "name");
    var obj :- Subscript(s3, "object");
    var key :- Subscript(obj, "key");
    Success((name, key))
  }

  /** A well-formed notification yields its bucket name and key. */
  lemma WellFormedEventLocation(bucketName: string, key: string, extra: map<string, Json>)
    ensures var s3 := JObject(map["bucket" := JObject(map["name" := JString(bucketName)]),
                                  "object" := JObject(map["key" := JString(key)])]);
            var event := JObject(extra["Records" := JArray([JObject(map["s3" := s3])])]);
            EventLocation(event) == Success((JString(bucketName), JString(key)))
  {
  }

  /** The JSON document stored for an alert. */
  datatype AlertPayload = AlertPayload(
    generatedAt: string,
    agentId: string,
    agentAliasId: string,
    region: string,
    sessionId: string,
    sourceBucket: string,
    sourceKey: string,
    alert: string)

  function Payload(config: Config, utcNow: string, sessionId: string, bucket: string, key: string, answer: string): AlertPayload
  {
    AlertPayload(utcNow + "Z", config.agentId, config.agentAliasId, config.region, sessionId, bucket, key, answer)
  }

  /** The handler's response; the body is the dictionary `json.dumps` serialises. */
  datatype Body = SuccessBody(message: string, outputS3: string, preview: string) | ErrorBody(error: string, message: string)
  datatype Response = Response(statusCode: int, body: Body)

  function BadRequest(repr: string): Response
  {
    Response(400, ErrorBody("Bad Request", "Missing required parameter: " + repr))
  }

  function InternalError(message: string): Response
  {
    Response(500, ErrorBody("Internal Server Error", message))
  }

  /** The successful run for an object `key` in `bucket`: the object was read, the agent
      asked with its contents, the alert stored under `alerts/<stem>.json`, and the same
      alert text sent by SMS, each call answering without error; the response names the
      stored object and previews at most 300 characters of the alert. */
  predicate Delivered(config: Config, services: Services, bucket: string, key: string, utcNow: string, sessionId: string,
                      response: Response, effects: seq<Effect>)
  {
    var content := services.getObject(bucket, key);
    content.Success?
    && IdConfigured(config.agentId) && IdConfigured(config.agentAliasId)
    && |effects| == 3
    && effects[0] == AgentRequest(config, sessionId, content.value)
    && services.agent(effects[0]).Success?
    && var answer := Strip(Flatten(ChunkPayloads(services.agent(effects[0]).value)));
       var payload := Payload(config, utcNow, sessionId, bucket, key, answer);
       effects[1] == PutObject(config.outputBucket, OutputKey(key), services.dump(payload), Some(JsonContentType))
       && services.putObject(effects[1]).None?
       && effects[2] == PublishSms(config.destinationNumber, payload.alert, config.senderId, SmsType)
       && services.publish(effects[2]).None?
       && response == Response(200, SuccessBody("Success", "s3://" + config.outputBucket + "/" + OutputKey(key), Take(answer, 300)))
  }

  /** The request that stores the alert document under `alerts/<stem>.json`. */
  function StoreRequest(config: Config, services: Services, key: string, payload: AlertPayload): Effect
  {
    PutObject(config.outputBucket, OutputKey(key), services.dump(payload), Some(JsonContentType))
  }

  /** The request that sends the alert text by SMS. */
  function SmsRequest(config: Config, payload: AlertPayload): Effect
  {
    PublishSms(config.destinationNumber, payload.alert, config.senderId, SmsType)
  }

  /** The failed run for an object `key` in `bucket`: the first step that fails -- the read,
      either configuration guard, the agent stream, the store or the SMS -- gives a 500 with
      its exception text, and the requests issued are exactly those made before it and the
      one that failed. A run whose every step succeeds is not a failed one. */
  predicate Aborted(config: Config, services: Services, bucket: string, key: string, utcNow: string, sessionId: string,
                    response: Response, effects: seq<Effect>)
  {
    var content := services.getObject(bucket, key);
    if content.Failure? then response == InternalError(content.error.message) && effects == []
    else if !IdConfigured(config.agentId) then response == InternalError(AgentIdMissing) && effects == []
    else if !IdConfigured(config.agentAliasId) then response == InternalError(AgentAliasMissing) && effects == []
    else
      var request := AgentRequest(config, sessionId, content.value);
      match services.agent(request)
      case Failure(fault) => response == InternalError(fault.message) && effects == [request]
      case Success(events) =>
        var payload := Payload(config, utcNow, sessionId, bucket, key, Strip(Flatten(ChunkPayloads(events))));
        var put := StoreRequest(config, services, key, payload);
        match services.putObject(put)
        case Some(fault) => response == InternalError(fault.message) && effects == [request, put]
        case None =>
          var sms := SmsRequest(config, payload);
          services.publish(sms).Some?
          && response == InternalError(services.publish(sms).value.message) && effects == [request, put, sms]
  }

  /** In a successful run the SMS text is the stored alert, the stored object is one the
      dashboard lists, and the preview is a prefix of the alert. */
  lemma DeliveredConsistent(config: Config, services: Services, bucket: string, key: string, utcNow: string, sessionId: string,
                            response: Response, effects: seq<Effect>, lastModified: int)
    requires Delivered(config, services, bucket, key, utcNow, sessionId, response, effects)
    ensures var answer := Strip(Flatten(ChunkPayloads(services.agent(effects[0]).value)));
            effects[2].message == answer
            && effects[1].body == services.dump(Payload(config, utcNow, sessionId, bucket, key, effects[2].message))
            && Alerts.IsJsonEntry(Entry(effects[1].key, lastModified))
            && response.body.preview <= effects[2].message && |response.body.preview| <= 300
  {
    OutputKeyIsListedAlert(key, lastModified);
  }

  /** The handler once the event has yielded a string bucket and key: every failure is a
      500 carrying the exception's text, and the issued requests stop at the call that
      failed. */
  method HandleObject(config: Config, services: Services, bucket: string, key: string, utcNow: string, sessionId: string)
    returns (response: Response, effects: seq<Effect>)
    ensures response.statusCode == 200 || response.statusCode == 500
    ensures response.statusCode == 200 <==> Delivered(config, services, bucket, key, utcNow, sessionId, response, effects)
    ensures response.statusCode == 500 <==> Aborted(config, services, bucket, key, utcNow, sessionId, response, effects)
    ensures response.statusCode == 500 ==> response.body.ErrorBody? && response.body.error == "Internal Server Error"
    ensures services.getObject(bucket, key).Failure? ==>
              response == InternalError(services.getObject(bucket, key).error.message) && effects == []
    ensures services.getObject(bucket, key).Success? && !IdConfigured(config.agentId) ==>
              response == InternalError(AgentIdMissing) && effects == []
    ensures services.getObject(bucket, key).Success? && IdConfigured(config.agentId) && !IdConfigured(config.agentAliasId) ==>
              response == InternalError(AgentAliasMissing) && effects == []
    ensures |effects| <= 3
  {
    var content := services.getObject(bucket, key);
    if content.Failure? {
      return InternalError(content.error.message), [];
    }
    var answer;
    answer, effects := InvokeAgentCall(config, services, content.value, sessionId);
    if answer.Failure? {
      assert |effects| <= 1;
      return InternalError(answer.error), effects;
    }
    var request := AgentRequest(config, sessionId, content.value);
    assert effects == [request];
    var events := services.agent(request).value;
    assert answer.value == Strip(Flatten(ChunkPayloads(events)));
    var outKey := OutputKey(key);
    var payload := Payload(config, utcNow, sessionId, bucket, key, answer.value);
    var put := StoreRequest(config, services, key, payload);
    effects := [request, put];
    var written := services.putObject(put);
    if written.Some? {
      return InternalError(written.value.message), effects;
    }
    var sms := SmsRequest(config, payload);
    effects := [request, put, sms];
    var sent := services.publish(sms);
    if sent.Some? {
      return InternalError(sent.value.message), effects;
    }
    response := Response(200, SuccessBody("Success", "s3://" + config.outputBucket + "/" + outKey, Take(answer.value, 300)));
  }

  /** `lambda_handler`: `utcNow` is `datetime.utcnow().isoformat()` and `sessionId` the
      fresh UUID. A missing event field is a 400 with no request issued; every other
      failure is a 500; 200 means the alert was stored and sent. */
  method LambdaHandler(config: Config, services: Services, event: Json, utcNow: string, sessionId: string)
    returns (response: Response, effects: seq<Effect>)
    ensures response.statusCode == 200 || response.statusCode == 400 || response.statusCode == 500
    ensures response.statusCode == 400 <==> EventLocation(event).Failure? && EventLocation(event).error.KeyError?
    ensures response.statusCode == 400 ==> response == BadRequest(EventLocation(event).error.repr) && effects == []
    ensures response.statusCode == 500 ==> response.body.ErrorBody? && response.body.error == "Internal Server Error"
    ensures EventLocation(event).Failure? && !EventLocation(event).error.KeyError? ==>
              response == InternalError(EventLocation(event).error.message) && effects == []
    ensures EventLocation(event).Success? ==>
              var location := EventLocation(event).value;
              if location.0.JString? && location.1.JString? then
                (response.statusCode == 200 <==> Delivered(config, services, location.0.str, location.1.str, utcNow, sessionId, response, effects))
                && (response.statusCode == 500 <==> Aborted(config, services, location.0.str, location.1.str, utcNow, sessionId, response, effects))
              else
                response == InternalError(services.invalidParameter(location.0, location.1)) && effects == []
    ensures |effects| <= 3
  {
    var location := EventLocation(event);
    if location.Failure? {
      match location.error
      case KeyError(repr) => return BadRequest(repr), [];
      case TypeError(message) => return InternalError(message), [];
      case IndexError(message) => return InternalError(message), [];
    }
    var (bucket, key) := location.value;
    if !bucket.JString? || !key.JString? {
      return InternalError(services.invalidParameter(bucket, key)), [];
    }
    response, effects := HandleObject(config, services, bucket.str, key.str, utcNow, sessionId);
  }
}
