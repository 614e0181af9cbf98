# Caseiro 2º alerting core, modelled in Dafny

Caseiro 2º watches a poultry house. Its core has five parts:

- **Trigger dispatch** (`backend/s3_triggers.py`): a dashboard user picks one of nine trigger
  labels. The program writes a small text object to the metrics bucket under
  `triggers/<stable key>/YYYY/MM/DD/<timestamp>.txt`. Later it looks for the newest related
  `.txt` message under `messages/<key>/` and `info/<key>/`.
- **Ingestion reactor** (`lambda_handler.py`): a serverless handler runs on every new object.
  It reads the object and gives its text to a hosted agent. It stores the agent's answer as
  `alerts/<stem>.json`, then sends the same text by SMS. It answers 200, 400 or 500.
- **Alert retrieval** (`backend/s3_alerts.py`): lists the `.json` alerts newest first. It can
  load the latest one, or all of them with an optional cap. Each alert comes with a
  time-limited link.
- **Mail sender** (`backend/email_ses.py`): checks the sender and the recipients, then sends
  one message with a plain-text body and an HTML body.
- **Dashboard** (`app.py`): keeps the loaded alert or alerts in session state and picks the
  message to e-mail. It parses the recipient field and builds the subject and the bodies.

## How it is modelled

- **Storage** (`storage.dfy`) is a `Bucket` value.
  - Its fields are the service's answers, as functions: the listing under a prefix (pages
    concatenated), the body or the exception of a read, the outcome of a write, a pre-signed
    link.
  - Every write, agent call, e-mail and SMS is an `Effect`. Each operation returns the list
    of effects it issued, in order. That is how "no write before validation" and "exactly
    one send" are stated.
  - An exception becomes `Failure(text)`, where `text` is `str(e)`.
- **Python string semantics** (`text.dfy`) are written out:
  - `str.strip`, whitespace being Python's `isspace` set;
  - `split` and `join`, `rfind`, `posixpath.basename`, slicing, `in` on strings;
  - `str(n)` and two-digit padding.
- **Shared helpers** (`results.dfy`, `seqs.dfy`, `json.dfy`) hold `Option`/`Result`, sequence
  filtering and a JSON value type.
- **Python's stable sort** `list.sort(key=LastModified, reverse=True)` is modelled as a stable
  insertion sort (`Alerts.SortNewestFirst`).
  - It is proved newest first, a permutation of its input, and stable.
  - `Alerts.StableOrderUnique` proves that any stable newest-first arrangement equals it.
    So the model fixes exactly the order Python produces.
- **Imperative code stays imperative:**
  - The scanning loop of `get_related_message`, the loops of `_list_json` and
    `get_all_alerts`, and the chunk loop of `invoke_agent` are `while` loops. Each is proved
    against a specification function.
  - The dashboard's `st.session_state` is a `Session` class whose button handlers modify its
    two fields.
- **The clock, the session UUID and JSON handling** are parameters:
  - the clock's timestamp and date;
  - the session UUID;
  - `json.loads`, `json.dumps` and `_pretty_json`, given as functions.

## Behaviour worth knowing

- **`get_all_alerts` cap:** the cap is applied as `objs[:limit]` whenever `limit` is truthy. A
  negative limit therefore drops entries from the end, and the result can be longer than
  `limit`. Only for a positive limit is the result at most `limit` records, a prefix of the
  full order; that is what `Alerts.Capped` states. None and `0` leave the list whole.
- **Which event errors give 400:** only a `KeyError` while reading the event's bucket and
  key gives 400. Not every malformed event does:
  - A wrongly shaped event gives 500, because it raises `TypeError` or `IndexError`. Examples
    are `Records` that is not a list, or is an empty list.
  - A `Records` that is a dictionary gives 400 with the message
    `Missing required parameter: 0`.
- **A refused related read:** `get_related_message` returns nothing both when no candidate is
  listed and when the read of the chosen object is refused (`ClientError`). Any other read
  failure propagates.
- **Unknown trigger label:** `send_trigger_txt` raises `RuntimeError` with the text
  `Unknown trigger label: <label>`, before anything is written.
- **A failed reactor step:** the handler stops at the first failing call. The read, either
  configuration guard, the agent stream, the store or the SMS each give a 500 with that
  exception's text. The requests issued are the ones before the failure plus the failing
  one, so a refused store sends no SMS (`Reactor.Aborted`).

## Model

| member | source | states |
|---|---|---|
| `Triggers.TriggerLabelsMatchTable` | backend/s3_triggers.py:7-30 | nine labels, pairwise distinct; a string is a label exactly when it is a key of the table |
| `Triggers.LabelsDistinct` | backend/s3_triggers.py:7-17 | the dropdown labels are pairwise distinct |
| `Triggers.LabelsInTable` | backend/s3_triggers.py:7-30 | every dropdown label has a table entry |
| `Triggers.TableInLabels` | backend/s3_triggers.py:7-30 | every key of the table is a dropdown label |
| `Triggers.StableKeysDistinct` | backend/s3_triggers.py:20-30 | different labels map to different stable keys |
| `Triggers.TriggerContent` | backend/s3_triggers.py:64-69 | the body is: base message, `generated_at=<ts>`, `trigger_key=<key>`, `source=Caseiro-UI`, each line ending in a newline |
| `Triggers.TriggerContentLines` | backend/s3_triggers.py:64-69 | splitting the body at newlines gives back the base message, timestamp line, key line, source line and an empty tail |
| `Triggers.KeySegmentsJoined` | backend/s3_triggers.py:72 | the f-string key equals the prefix followed by the key, year, month, day and `<ts>.txt` joined by `/` |
| `Triggers.TriggerObjectKey` | backend/s3_triggers.py:72 | the key is the prefix, then key/year/month/day/`<ts>.txt` joined by `/`; it starts with the prefix and passes the case-insensitive `.txt` test |
| `Triggers.DefaultPrefixKey` | backend/s3_triggers.py:50-72 | with the default prefix every trigger object lies under `triggers/<stable key>/` |
| `Triggers.TriggerObjectKeySegments` | backend/s3_triggers.py:72 | after the prefix the key has exactly five `/`-segments; they read back as the stable key, the year, the month, the day and `<ts>.txt` |
| `Triggers.SendTriggerTxt` | backend/s3_triggers.py:56-80 | unknown label: fails with `Unknown trigger label: <label>` and writes nothing (no write exactly when the label is unknown); known label: exactly one write of that body under that key; success exactly when the write succeeds, returning the key, body, timestamp and stable key written; a refused write reads `Failed to PUT object: ...` |
| `Triggers.HighTemperatureExample` | backend/s3_triggers.py:56-80 | "trigger high temperature" writes once, a body starting with "sensor detected high temperature", under stable key `high_temperature` |
| `Triggers.NewestFirstSeenUnique` | backend/s3_triggers.py:114-116 | "newest, and first seen among equals" picks one candidate |
| `Triggers.KeepNewest` | backend/s3_triggers.py:114-116 | one more candidate replaces the choice exactly when its timestamp is strictly greater |
| `Triggers.ScanListing` | backend/s3_triggers.py:108-116 | scanning one listing adds exactly its non-empty `.txt` keys, in order, to the candidates seen, and keeps the choice the newest and first seen among them |
| `Triggers.GetRelatedMessage` | backend/s3_triggers.py:97-126 | searches the given prefixes, or `messages/<key>/` then `info/<key>/`; no non-empty `.txt` key means no result; otherwise the chosen candidate has the greatest timestamp over both prefixes and is the first seen at that timestamp; a refused read gives no result; other read errors propagate; a returned key ends in `.txt` |
| `Alerts.SortSorted` | backend/s3_alerts.py:29 | the sort's output is newest first |
| `Alerts.SortPermutes` | backend/s3_alerts.py:29 | the sort's output is a permutation of its input |
| `Alerts.SortStable` | backend/s3_alerts.py:29 | the sort keeps the listing order of entries with equal timestamps |
| `Alerts.StableOrderUnique` | backend/s3_alerts.py:29 | two newest-first sequences with the same entries per timestamp, in the same order, are equal, so stable sorting has one result |
| `Alerts.ListJson` | backend/s3_alerts.py:21-30 | the output holds exactly the listed entries whose key ends in `.json` in any case, as a multiset; it is newest first and stable |
| `Alerts.ReadAlert` | backend/s3_alerts.py:38-47 | a loaded record carries the entry's key and timestamp and a link signed for `minutes * 60` seconds; a read or parse error propagates |
| `Alerts.DefaultLinkLifetime` | backend/s3_alerts.py:14-46 | with the default of 30 minutes a loaded record's link is signed for 1800 seconds |
| `Alerts.ReadAlertOrMark` | backend/s3_alerts.py:57-68 | every entry yields a record with its key, timestamp and link; its data is the parsed document, or `{"parse_error": <message>}` when the read or the parse fails |
| `Alerts.ReadersAgree` | backend/s3_alerts.py:56-68 | where reading succeeds, the batch reader's record is the single reader's record |
| `Alerts.GetLatestAlert` | backend/s3_alerts.py:32-47 | no JSON entry: fails with `No JSON messages found.`; otherwise loads the head of the newest-first order; a returned record is a listed `.json` entry that no other JSON entry is newer than |
| `Alerts.SliceTo` | backend/s3_alerts.py:54 | `objs[:n]` counts a negative bound from the end; the result is a prefix of the stated length |
| `Alerts.Capped` | backend/s3_alerts.py:53-54 | the result is a prefix; None or 0 keep everything; a positive limit keeps `min(limit, n)` |
| `Alerts.CappedKept` | backend/s3_alerts.py:53-54 | a capped newest-first list of kept entries is still newest first and still holds only listed `.json` entries |
| `Alerts.GetAllAlerts` | backend/s3_alerts.py:49-69 | one record per kept entry of the capped order, the i-th from the i-th entry, failures marked rather than aborting; timestamps non-increasing; every record a listed `.json` object |
| `Email.Normalise` | backend/email_ses.py:15 | never longer than the input |
| `Email.NormaliseClean` | backend/email_ses.py:15 | every address it yields is non-empty and has no outer whitespace |
| `Email.NormaliseConcat` | backend/email_ses.py:15 | normalisation works entry by entry, keeping the input order |
| `Email.NormaliseMembers` | backend/email_ses.py:15 | the result holds exactly the stripped forms of the non-blank entries |
| `Email.NormaliseEmpty` | backend/email_ses.py:15-17 | the result is empty exactly when every entry is None, empty or whitespace |
| `Email.NormaliseKeepsClean` | backend/email_ses.py:15 | trimmed non-empty addresses pass through unchanged |
| `Email.NormaliseIdempotent` | backend/email_ses.py:15 | normalising twice is normalising once |
| `Email.SendEmail` | backend/email_ses.py:12-30 | a missing or empty sender fails first, with `SES_SENDER is not set.` and no send; then no usable recipient fails with `No recipients provided.` and no send; otherwise exactly one send, to the normalised list, with the subject, text and HTML bodies; success exactly when the service accepts; every destination address trimmed and non-empty |
| `Reactor.SourceConfigPassesGuards` | lambda_handler.py:14-15 | the identifiers in the handler pass both configuration guards |
| `Reactor.DropExtension` | lambda_handler.py:37-38 | a name with no dot after its first character is kept whole; otherwise the result is the non-empty part before the last dot |
| `Reactor.BasenameNoExt` | lambda_handler.py:35-38 | the stem has no `/` and is a prefix of the part after the last `/` |
| `Reactor.OutputKeyIsListedAlert` | lambda_handler.py:141 | the output key starts with `alerts/` and passes the `.json` filter of alert retrieval; its base name is the stem plus `.json` |
| `Reactor.ExampleOutputKey` | lambda_handler.py:141 | `file_1.txt` is answered under `alerts/file_1.json` |
| `Reactor.ChunkPayloadsConcat` | lambda_handler.py:63-68 | chunk payloads of a concatenated stream are the payloads of each part, in order |
| `Reactor.NonChunksIgnored` | lambda_handler.py:64-68 | trace and other events contribute nothing to the answer |
| `Reactor.CollectAnswer` | lambda_handler.py:62-70 | the answer is the in-order concatenation of the chunk payloads, stripped |
| `Reactor.InvokeAgentCall` | lambda_handler.py:40-70 | an unset or placeholder agent id fails before any request, then the alias likewise, with their messages; otherwise one agent request with the region, ids, session and input; a stream failure propagates, else the answer is the stripped chunk concatenation |
| `Reactor.Subscript` | lambda_handler.py:122-123 | `v[k]` succeeds exactly on a dictionary holding `k`; a `KeyError` (text `'k'`) exactly on a dictionary lacking it |
| `Reactor.First` | lambda_handler.py:122-123 | `v[0]` is a `KeyError` exactly on a dictionary; a non-empty list yields its first item |
| `Reactor.WellFormedEventLocation` | lambda_handler.py:122-123 | a well-formed notification yields its bucket name and object key |
| `Reactor.DeliveredConsistent` | lambda_handler.py:150-175 | in a successful run the SMS text is the stored payload's `alert`, the stored key is one alert retrieval lists, and the preview is a prefix of the alert of at most 300 characters |
| `Reactor.HandleObject` | lambda_handler.py:127-184 | 200 exactly when the read succeeds, both agent ids are configured, and the agent call, store and SMS all succeed in that order with the payload described; 500 exactly when a step fails, with that step's exception text and the requests issued up to and including the failing one: none for a failed read or guard, the agent request for a failed stream, agent and store requests for a refused store, all three for a refused SMS |
| `Reactor.LambdaHandler` | lambda_handler.py:118-184 | status is 200, 400 or 500; 400 exactly when reading the event raises `KeyError`, with `Missing required parameter: <repr>` and no request; other event errors and non-string fields give 500 and no request; for a string bucket and key, 200 and 500 as for the object handler, with the same failure texts and requests; at most three requests |
| `Dashboard.Session.constructor` | app.py:165-167 | a fresh session has neither view loaded |
| `Dashboard.Session.Selected` | app.py:163-172 | the latest alert if loaded, else the first of a non-empty list, else nothing; with the two views never loaded at once, a loaded list alone decides the selection; the send button is disabled exactly when nothing is selected |
| `Dashboard.Session.LoadLatest` | app.py:89-103 | success sets the latest alert, clears the list and selects that alert; failure leaves the state and shows the error |
| `Dashboard.Session.LoadAll` | app.py:106-124 | success sets the list and clears the latest alert; a non-empty list reports `Loaded N message(s).` and selects its first record, an empty one `No messages found.`; failure leaves the state |
| `Dashboard.Session.SendSelected` | app.py:173-214 | no selection: `Load a message first.`, no send; no recipient: `Please enter at least one recipient email.`, no send; otherwise the mail sender's effects with the parsed recipients, the subject and both bodies, reporting success or `Failed to send email: <e>` |
| `Dashboard.ParseRecipients` | app.py:177 | every parsed address is non-empty, trimmed and free of commas |
| `Dashboard.CommaFreeNormalise` | app.py:177 | trimming comma-free pieces yields comma-free addresses |
| `Dashboard.ParseJoinedRecipients` | app.py:177 | clean addresses written comma-separated parse back to themselves |
| `Dashboard.ParsedRecipientsSurviveSend` | app.py:177 | the mail sender's normalisation leaves the parsed list unchanged |
| `Dashboard.EmailSubject` | app.py:185 | the fixed prefix, then a prefix of the alert: the whole alert when it is at most 60 characters long, exactly its first 60 characters otherwise; only the prefix when the alert is absent |
| `Dashboard.PlainBody` | app.py:186-191 | starts with the alert line, `—` when the alert is absent; holds the `File: s3://<bucket>/<key>` and `Link: <url>` lines; ends with `Full JSON:` and the pretty-printed document |
| `Dashboard.HtmlBody` | app.py:192-198 | holds the message paragraph (`—` when the alert is absent), the file paragraph, the pre-signed link and the pretty-printed document, each on its own indented line |
| `Text.Strip` | lambda_handler.py:70 | `str.strip()` is never longer than its input and has no outer whitespace |
| `Text.StripSpec` | lambda_handler.py:70 | the result is the slice of the input that starts after its leading whitespace and is followed only by whitespace; it has no outer whitespace and is empty exactly when the input is all whitespace |
| `Text.StripUnique` | lambda_handler.py:70 | that slice is unique, so the contract determines `strip` |
| `Text.FlattenContains` | app.py:186-198 | a concatenation contains each of its parts |
| `Text.Split` | app.py:177 | `split` never returns an empty list, and no piece holds the separator |
| `Text.JoinSplit` | app.py:177 | joining the pieces of a split gives the string back |
| `Text.SplitJoin` | backend/s3_triggers.py:64-72 | splitting the join of separator-free pieces gives the pieces back |
| `Text.RFind` | lambda_handler.py:37 | `rfind` returns -1 or the index of the last occurrence |
| `Text.Basename` | lambda_handler.py:36 | `posixpath.basename` is the `/`-free tail after the last `/` |
| `Text.NatToString` | backend/s3_triggers.py:72 | `%Y` is decimal digits without a leading zero that read back as the number |
| `Text.TwoDigits` | backend/s3_triggers.py:72 | `%m`/`%d` are two digits that read back as the number |
| `Text.Take` | lambda_handler.py:173 | `s[:n]` is a prefix of length `min(n, len(s))` |

Some model functions carry no contract of their own and are stated through the members
above: `Reactor.EventLocation` (through `Reactor.LambdaHandler` and
`Reactor.WellFormedEventLocation`), `Reactor.OutputKey` (through
`Reactor.OutputKeyIsListedAlert` and `Reactor.ExampleOutputKey`), `Triggers.ReadRelated`
and `Triggers.PutFailureText` (through `Triggers.GetRelatedMessage` and
`Triggers.SendTriggerTxt`), and `Alerts.SortNewestFirst` (through the four sort lemmas).

## Left out

- **Cloud service calls.** The boto3 clients, credentials and regions are left out. Storage,
  the agent, SES and SNS answer through function parameters. Their internal behaviour is
  foreign code.
- **Pagination.** Paginator mechanics are not modelled. Each prefix's pages are one
  concatenated listing.
- **Listing failures.** An exception raised while listing is not modelled: the listing
  functions are total.
- **Clock, UUID and date format.** `datetime.now`/`utcnow`, `strftime`/`isoformat` and
  `uuid.uuid4` are parameters.
  - `send_trigger_txt` reads the clock twice, for the timestamp and the date. The model takes
    both as given. Whether they agree is not modelled.
  - The year is rendered without zero padding, as the C library does for `%Y`.
- **JSON handling.** `json.loads`, `json.dumps` and `_pretty_json` are parameters; they are
  library code.
- **Byte and text encoding.** UTF-8 encoding and decoding are left out, including
  `errors="replace"` for related messages. Objects are read as decoded text.
- **Pre-signed links.** Their contents are the service's signature. Only the
  `minutes * 60` lifetime is modelled.
- **Missing listing fields.** `get_related_message` entries without `Key` or `LastModified`
  are not modelled: S3 listings always carry both, so every entry has a key and a timestamp.
  An empty key is skipped, as in the source.
- **Reactor error sources.** Only reading the event's bucket and key can raise `KeyError`.
  - A `KeyError` from the agent stream is not modelled. In the source it too would be a 400.
  - A chunk-decoding error and a stream that fails part-way are one agent failure.
  - Logging and the SMS `MessageId` are left out.
- **Interpreter error texts.** The `TypeError` and `IndexError` texts for wrongly shaped
  events use CPython 3.12's wording.
  - A bucket or key that is not a string is rejected with botocore's parameter-validation
    message, which is a parameter.
- Dashboard.EmailSubject: it reads an `alert` member that is not a string as absent. In the
  source, an array member is sliced to its first 60 elements and formatted into the subject;
  `null`, a number, a boolean or an object member makes the page raise, and so does a
  document that is not an object.
  - Dashboard.PlainBody, Dashboard.HtmlBody: they likewise use "—" for a non-string `alert`,
    where the source formats whatever value is present (`None`, a number, a list, ...).
- **Streamlit.** Rendering, widgets, `st.secrets`, `_fmt_dt`, the display loops and the
  trigger section of `app.py` (lines 51-80) are UI and configuration I/O. The trigger
  section calls the modelled `send_trigger_txt` and `get_related_message`.
- **Partial failure of the reactor.** An alert stored before a failed SMS stays stored, and
  the effect log shows both requests. The source has no compensation to model.
- **Recipient entries the mail sender cannot handle.** Entries that are neither strings nor
  None are left out; in the source they would raise.
