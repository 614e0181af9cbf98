/** JSON documents as values. Parsing and printing JSON are library behaviour and are
    passed into the model as functions; this module only says what a document is and
    how the dashboard reads its "alert" field. */
module Json {
  import opened Results

  /** A JSON value; numbers keep their literal text. */
  datatype Json =
    | JNull
    | JBool(b: bool)
    | JNumber(literal: string)
    | JString(str: string)
    | JArray(items: seq<Json>)
    | JObject(fields: map<string, Json>)

  /** `data.get("alert")` when `data` is an object whose "alert" member is a string. */
  function AlertField(data: Json): (r: Option<string>)
    ensures r.Some? <==> data.JObject? && "alert" in data.fields && data.fields["alert"].JString?
    ensures r.Some? ==> JString(r.value) == data.fields["alert"]
  {
    if data.JObject? && "alert" in data.fields && data.fields["alert"].JString?
    then Some(data.fields["alert"].str)
    else None
  }

  /** `data.get("alert", default)`. */
  function AlertOr(data: Json, default: string): string
  {
    match AlertField(data)
    case Some(text) => text
    case None => default
  }
}
