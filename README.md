# okta-events-hook, modelled in Dafny

This is a model of the webhook handler of `okta-events-hook`. The handler receives a batch of Okta event records. It checks the Logz.io shipping credentials carried in the request headers. It adds the body's global fields to every event and buffers the events as newline-delimited JSON. It then ships the buffer, gzip-compressed, to the region's Logz.io listener, retrying a bounded number of times.

The model has one module per part of `handler/handler.go`:

- `Values`: bytes, decoded JSON, `Option`, and the JSON encoder and decoder taken as tables.
- `Retry`: the status classifier `shouldRetry`, the attempt count of the send loop, and the backoff schedule.
- `Region`: `setListenerURL`'s region table and its lower-casing.
- `Credentials`: `getCredentialsFromHeaders`, including the unanchored token pattern `[a-zA-Z]{32}`.
- `Events`: `extractGlobalFields` and the per-event rewrite inside `HandleRequest`.
- `Framing`: the newline framing of the log buffer, and the proof that it can be split back into its records.
- `Client`: the class `LogzioClient`, with the fields `token`, `url` and `logsBuffer` and the methods `SetListenerURL`, `WriteLog` and `Export`. Ghost fields record the buffered records and one history of every POST sent and every backoff slept, in order.
- `Handler`: `CheckOktaNewEndpointValidation` and `HandleRequest`, with `HandleOutcome` as the function that specifies it.

Collaborators the handler calls are parameters, not code:

- `json.Marshal` and `json.Unmarshal` are the tables `Encoder` and `Decoder`.
- The gzip writer is `gzip: seq<byte> -> GzipRun`. A `GzipRun` gives the outcome of the write, the compressed length before `Close`, and the outcome of `Close`.
- The listener is `respond: nat -> int`, the status returned to the k-th send of one export.
- `time.Sleep` and the POSTs become one ghost history of `Step`s, in the order the loop acts.

Two behaviours of the code are worth stating up front:

- **413 is retried:** `shouldRetry(413)` is true, so a listener that answers 413 and then 200 gets a second send, and the client reports 200 (`Client.ExportRetriesTooLarge`).
- **Building the first request can panic:** the token check at handler.go:81 is not anchored, so a token that holds 32 letters in a row and, before any `#`, a control character passes it. `http.NewRequest` then fails on the URL built at line 108, because `url.Parse` refuses a control character ahead of the fragment, and `req.Header.Add` at line 110 panics on the nil request (`Handler.ControlCharacterTokenPanics`).

Credential validation and the per-event rewrite are code in handler.go and are modelled like the rest.

## Model

| member | source | states |
|---|---|---|
| Values.Get | handler/handler.go:262-264 | Go's read of a missing key in a decoded JSON object gives nil. |
| Values.Header | handler/handler.go:47-86 | Go's read of a missing header gives the empty string. |
| Retry.ShouldRetry | handler/handler.go:128-147 | Retrying is asked for exactly when the status is none of 200, 400, 401, 403 and 404. |
| Retry.AttemptsFrom | handler/handler.go:176-188 | From attempt k on, the loop makes between k+1 and 4 sends. Every send before the last got a retryable status. The loop stops early only on a terminal status. |
| Retry.Attempts | handler/handler.go:174-188 | One export sends 1 to 4 times. Every send but the last got a retryable status. Fewer than 4 sends means the last status was terminal. |
| Retry.AttemptsUnique | handler/handler.go:176-188 | Those three properties settle the number of sends: any count that satisfies them equals `Attempts`. |
| Retry.AttemptsConstant | handler/handler.go:176-188 | A listener that always answers c gets 4 sends when c is retryable and 1 when it is terminal. |
| Retry.TerminalFirstStops | handler/handler.go:183-187 | A terminal first status stops the loop after one send. |
| Retry.BackoffSchedule | handler/handler.go:173-181 | The schedule for m retries has m sleeps. |
| Retry.BackOffIsPowerOfTwo | handler/handler.go:173-180 | The backoff after k doublings is 2^(k+1) seconds. |
| Retry.BackoffScheduleAt | handler/handler.go:177-181 | The k-th sleep, counting from zero, lasts 2^(k+1) seconds. |
| Retry.BackoffDoubles | handler/handler.go:180 | Each sleep is twice the previous one. |
| Retry.FullBackoffSchedule | handler/handler.go:173-181 | Within the 4-send budget the sleeps are 2s, 4s and 8s. |
| Region.Lower | handler/handler.go:212 | Lower-casing keeps the length and maps each character on its own. |
| Region.ListenerUrl | handler/handler.go:210-230 | The switch on the lower-cased code, with the `us` listener as the default. Its properties are stated by `ListenerUrlMatchesTable` and the lemmas after it. |
| Region.ListenerUrlMatchesTable | handler/handler.go:210-232 | The URL is the table entry of the lower-cased code. Every other code gets the `us` listener. The URL is always one of the seven listeners. |
| Region.LowerIdempotent | handler/handler.go:212 | Lower-casing twice gives the same result as once. |
| Region.CaseInsensitive | handler/handler.go:212-213 | Two codes with the same lower case resolve to the same URL. |
| Region.ResolvesAsLowerCase | handler/handler.go:212-230 | A code resolves to the same URL as its lower-cased form. |
| Region.HostsDistinct | handler/handler.go:214-227 | The seven codes name seven different listeners. |
| Region.ListenerUrlExamples | handler/handler_test.go:93-97 | `us`, `eu`, `au`, `ca` and `uk` resolve as the table test expects. |
| Region.FallbackUnlessTwoLetters | handler/handler.go:228-229 | A code that is not two characters long falls back to `us`. |
| Region.ListenerUrlFallbackExamples | handler/handler_test.go:98-99 | `not-valid` and the empty code fall back to `us`. |
| Region.ListenerUrlMixedCaseExamples | handler/handler_test.go:100-101 | `US`, `Us` and `EU` resolve as their lower-case forms do. |
| Region.KelvinSignResolvesToUk | handler/handler.go:212-221 | `u` followed by the Kelvin sign lower-cases to `uk` and gets the `uk` listener. |
| Credentials.MatchesLetterRun | handler/handler.go:81 | The scan succeeds exactly when some window of 32 consecutive characters is all ASCII letters. |
| Credentials.WindowAtEnd | handler/handler.go:81 | A window of n letters ends at position e exactly when the run of letters ending there is at least n long. |
| Credentials.ScanCorrect | handler/handler.go:81 | From any consistent scanner state, the scan's answer is whether the pattern matches. |
| Credentials.GetCredentialsFromHeaders | handler/handler.go:76-96 | No error exactly when the token holds 32 letters in a row and the region is one of the seven lower-case codes. On success the header values come back; on failure both strings are empty. Each of the four errors is stated with its exact condition, the token checked first. |
| Credentials.ErrorMessage | handler/handler.go:79-92 | The four error texts: `logzio_token header not found`, `logzio token is not valid`, `logzio_region header not found` and `logzio_region header value is not valid`. |
| Credentials.AcceptsValidCredentials | handler/handler_test.go:65 | The valid token with `us` is accepted, and both values come back. |
| Credentials.SampleTokenValid | handler/handler_test.go:65 | The test's token holds 32 letters in a row. |
| Credentials.AcceptsTabbedToken | handler/handler.go:81 | The pattern is not anchored, so a tab followed by 32 letters passes the token check. |
| Credentials.RejectsInvalidCredentials | handler/handler_test.go:66-71 | A short token is rejected as not valid. A missing token is rejected as not found, with region "" or `us`; `GetCredentialsFromHeaders` states it for every region. |
| Credentials.RejectsUnlistedRegions | handler/handler_test.go:68 | A region that is not in the list, `not-valid`, is rejected as not valid. So is `US`: the comparison at handler.go:91 is case-sensitive. |
| Credentials.RejectsMissingRegion | handler/handler_test.go:70 | A valid token with no region is rejected as not found. |
| Events.ExtractGlobalFields | handler/handler.go:66-74 | The pass over the body yields the default type, overridden by and joined with every body entry except `data`, whatever order the keys are visited in. |
| Events.GlobalFields | handler/handler.go:66-74 | The reference result of `extractGlobalFields`: the `okta` type, overridden by and joined with every body entry except `data`. `GlobalFieldsShape` states its keys and values. |
| Events.GlobalFieldsShape | handler/handler.go:66-74 | The global fields never hold `data` and hold every other body entry unchanged. Their type is the body's own `type` when there is one, and `okta` otherwise. |
| Events.RewriteEvent | handler/handler.go:263-268 | The per-event rewrite: `published` moved to `@timestamp`, then every global field written over the event. `RewriteEventFields` states its result key by key. |
| Events.RewriteEventFields | handler/handler.go:262-268 | A shipped event holds every global field. It holds the old `published` value under `@timestamp` (nil when absent) unless a global field of that name wins. It keeps every other event field that no global field shadows, and holds `published` only as a global field. |
| Events.EventsOfShape | handler/handler.go:261-262 | A body has events exactly when `data` is an object whose `events` is an array of objects. The events are then those objects, in order. |
| Events.EventsOf | handler/handler.go:261-262 | The events list of a body, or `None` where the Go type assertions would panic. `EventsOfShape` states when each case occurs. |
| Events.ObjectsOf | handler/handler.go:261-262 | The conversion succeeds exactly when every item is an object. It keeps the order and the count. |
| Framing.FrameAppend | handler/handler.go:203 | Appending a record adds that record and one newline to the end of the buffer. |
| Framing.Frame | handler/handler.go:203 | The buffer after a sequence of writes: each record followed by one newline, in write order. `FrameAppend`, `FrameTerminated` and `SplitFrame` state its properties. |
| Framing.FrameTerminated | handler/handler.go:203 | A buffer is empty exactly when it holds no records. Otherwise it ends with a newline. |
| Framing.FirstNewline | handler/handler.go:203 | The returned offset is the first newline, or the end when there is none. |
| Framing.FirstNewlineOfLine | handler/handler.go:203 | A newline-free record followed by a newline ends at that newline. |
| Framing.SplitFrame | handler/handler.go:203 | Splitting the buffer at newlines gives back exactly the buffered records, in order, when no record contains a raw newline. |
| Client.Sends | handler/handler.go:108-109 | n sends of a payload are n POSTs of that same payload to that same URL. |
| Client.Target | handler/handler.go:108 | The request URL: the listener, then `/?token=`, then the token. |
| Client.StepsAlternate | handler/handler.go:176-188 | An export history of n sends has 2n-1 entries. Its even entries are the sends and its odd entries the sleeps, the k-th sleep lasting `BackOff(k)`. So no sleep comes before the first send or after the last. |
| Client.Steps | handler/handler.go:176-188 | The history of an export that sends n times: a send, then a sleep of the current backoff and a send for each retry. `StepsAlternate` and `StepsProjections` state its shape. |
| Client.StepsProjections | handler/handler.go:176-188 | The sends of an export history are n identical POSTs, and its sleeps are the backoff schedule. |
| Client.FragmentStart | handler/handler.go:108-109 | The returned offset is the first `#`, or the end when there is none. |
| Client.UrlRejected | handler/handler.go:108-109 | `url.Parse`, as called by `http.NewRequest`, fails on a URL of this form: a control character before the first `#`, or a malformed percent-escape after it. |
| Client.ControlCharacterRejected | handler/handler.go:108-109 | A control character with no `#` before it makes the URL unparsable. |
| Client.SendPanics | handler/handler.go:150-182 | The export reaches its first send (the write succeeded, the bulk is within the ceiling, the close succeeded) and that request cannot be built. |
| Client.ExportOutcomeCases | handler/handler.go:150-195 | A failed write gives 500 with nothing sent. An oversize bulk, checked before `Close`, gives 413 with nothing sent. A failed `Close` gives 500 with nothing sent. Otherwise the close-time payload is sent `Attempts` times and the last status is returned. |
| Client.ExportOutcome | handler/handler.go:150-195 | The status, send count and payload of one export, as a function of the compressor's result and the listener's answers. `ExportOutcomeCases` states its cases. |
| Client.ExportConstantEndpoint | handler/handler_test.go:132-152 | A listener that always answers c makes the export return c, after 1 send for a terminal c and 4 otherwise. |
| Client.ExportRetriesTooLarge | handler/handler.go:128-147 | A listener that answers 413 and then 200 gets 2 sends, and the export returns 200. |
| Client.ExportSleeps | handler/handler.go:173-181 | An export sleeps once fewer times than it sends, 2s, 4s and 8s in turn. An export that sends nothing does not sleep. |
| Client.LogzioClient.constructor | handler/handler.go:247-251 | A new client has its token, an empty buffer and no listener URL. |
| Client.LogzioClient.SetListenerURL | handler/handler.go:210-232 | The URL becomes the region table's listener for the lower-cased code, and nothing else changes. |
| Client.LogzioClient.WriteLog | handler/handler.go:198-208 | A record that does not serialize is reported and leaves the buffer unchanged. Otherwise its serialization and a newline are appended, and the record log grows by that serialization. |
| Client.LogzioClient.Export | handler/handler.go:150-195 | Export panics exactly when it reaches its first send and that request's URL cannot be built; the client is then left unchanged. Otherwise the status is the one `ExportOutcome` gives for the compressor's result on the old buffer, and the buffer is emptied. The history grows by exactly `Steps` for the sends made: the first send with no sleep before it, then a sleep and a send per retry. Each send carries the close-time payload to `url/?token=token`. |
| Handler.CheckOktaNewEndpointValidation | handler/handler.go:46-64 | A body is returned exactly when the challenge header is non-empty. It is then 200 and echoes the challenge. |
| Handler.MessageText | handler/handler.go:258-278 | The reply texts: the unmarshal failure, the export failure and the success message, and a credential error's own text. |
| Handler.ApiGatewayResponse | handler/handler.go:30-45 | A reply with the given status code and a message body. The timestamp and headers are not modelled. |
| Handler.SerializedAll | handler/handler.go:261-271 | When every event serializes, the buffer receives one record per event, in order. |
| Handler.Serialized | handler/handler.go:261-272 | The records the buffer receives: each event rewritten and serialized, in order, with the ones that do not serialize dropped. `SerializedAll`, `SerializedStep` and `SerializedBound` state its properties. |
| Handler.Shipped | handler/handler.go:263-269 | One event rewritten with the global fields and marshalled, or `None` when it does not marshal. |
| Handler.SerializedStep | handler/handler.go:261-271 | Each event adds its own record, if it has one, after those of the earlier events. |
| Handler.SerializedBound | handler/handler.go:269-271 | The buffer receives at most one record per event, so a dropped record does not stop the batch. |
| Handler.ShipEvent | handler/handler.go:262-271 | One rewritten event is appended to the record log, or skipped when it does not serialize. |
| Handler.WriteEvents | handler/handler.go:261-272 | The record log grows by the serializations of the rewritten events, in order, and the buffer stays their framing. |
| Handler.HandleOutcome | handler/handler.go:234-281 | What handling a request comes to. It checks the challenge, the credentials and the body in `HandleRequest`'s order, then buffers the serialized, rewritten events and exports them. `HandleOutcomeCases` and `HandleOutcomeExport` state its results. |
| Handler.ExportReply | handler/handler.go:273-280 | The reply is a panic exactly when the first send panics. Otherwise it carries the export's status, with the success message when that status is 200 and the failure message for any other. |
| Handler.HandleOutcomeCases | handler/handler.go:236-263 | The challenge is answered first, with 200 and the echoed value. Rejected credentials get 400 and their message before the body is read. An unreadable body gets 500. A body without the expected event list panics. |
| Handler.HandleOutcomeExport | handler/handler.go:244-280 | For a request that gets as far as the export, the export works on the framed, serialized, rewritten events and posts to the region's listener with the validated token. The request panics exactly when the first send does. Otherwise the reply carries the export's status, with the success message exactly when that status is 200. |
| Handler.DeliveredRequestSucceeds | handler/handler.go:234-281 | A request with no challenge, valid credentials and a well-formed body is answered with 200 and the success message, given three more conditions: the compressor succeeds within the ceiling, the request URL can be built, and the first send is accepted. |
| Handler.TabbedTokenUrlRejected | handler/handler.go:108-109 | The `us` URL built with a tab-prefixed token cannot be parsed. |
| Handler.ControlCharacterTokenPanics | handler/handler.go:107-110 | A request whose token is a tab followed by 32 letters passes validation. Once the compressor succeeds, it panics at the first send instead of being answered. |
| Handler.HandleRequest | handler/handler.go:234-281 | The method's outcome equals `HandleOutcome`: the checks in `HandleRequest`'s order, the events written through a fresh client, then one export whose status is the reply's, or the export's panic. |

## Left out

- `makeHttpRequest`'s network I/O: the listener's answers are the parameter `respond`. The gzip `Content-Encoding` header and the 10-second client timeout are not modelled.
- Transport errors in `http.Client.Do`: when the error comes with no response, line 115 reads the status of a nil response and panics; `respond` always yields a status, so the model has no such path. A redirect-policy error comes with a response, and its status is one of the answers `respond` can give.
- Which part of the URL reaches the listener: the history records the URL string as built, so a `#` in the token, which starts a fragment that is not sent, is not modelled.
- The gzip and JSON codecs: they are oracles, so the model proves the round trip of the newline framing but not of compression or JSON encoding.
- The `BufferWriteError` branch of `writeLog`: `bytes.Buffer.Write` always returns a nil error, so that branch cannot be taken.
- `time.Sleep`: each sleep is recorded, with its duration, in the ghost history, with no clock.
- The timestamp of `ApiGatewayResponse` (`time.Now`), the reply headers and the JSON text of reply bodies: a reply is modelled as its status and its message.
- Logging (`log.Printf`) and `main.go`'s Lambda start-up.
- Region.Lower: it models `strings.ToLower` only on the characters whose lower case is an ASCII letter. Any other character keeps its case in the model, which no region code can tell apart from Go's result.
- JSON numbers are integers: floating-point values play no part in the handler's logic.
