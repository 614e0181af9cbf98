/** The object store, the other cloud services and the log of what the program asks them
    to do. A bucket is given by what it answers: the listing under a prefix (every page
    concatenated, in the order the service returns them), the body of an object or the
    error that reading it raises, the outcome of a write, and a pre-signed link. */
module Storage {
  import opened Results

  /** One listing entry: the object key and its LastModified timestamp. */
  datatype Entry = Entry(key: string, lastModified: int)

  /** An exception raised by a client call: a `ClientError` (the service refused) or any
      other exception (network, parameter validation, decoding). */
  datatype Fault = ClientError(message: string) | OtherError(message: string)

  datatype Bucket = Bucket(
    name: string,
    list: string -> seq<Entry>,
    get: string -> Result<string, Fault>,
    put: (string, string) -> Option<Fault>,
    presign: (string, int) -> string)

  /** A request that changes the world or reaches a person, in the order it was issued. */
  datatype Effect =
    | PutObject(bucket: string, key: string, body: string, contentType: Option<string>)
    | InvokeAgent(region: string, agentId: string, agentAliasId: string, sessionId: string, inputText: string)
    | SendEmail(source: string, toAddresses: seq<string>, subject: string, textBody: string, htmlBody: string)
    | PublishSms(phoneNumber: string, message: string, senderId: string, smsType: string)

  /** What an operation returned (or the text of the exception it raised) and the requests it issued. */
  datatype Done<+T> = Done(result: Result<T, string>, effects: seq<Effect>)
}
