/** The webhook entry point: the ownership challenge, credential checks,
    body parsing and one export cycle, in that order. */
module Handler {
  import opened Values
  import opened Retry
  import opened Framing
  import opened Credentials
  import opened Events
  import opened Client
  import Region

  const ChallengeHeader := "x-okta-verification-challenge"

  datatype Request = Request(headers: map<string, string>, body: string)

  /** The messages a reply can carry. */
  datatype Message =
    | CredentialsRejected(err: CredentialError)
    | UnmarshalFailed
    | ExportFailed
    | ExportSucceeded

  function MessageText(m: Message): string
  {
    match m
    case CredentialsRejected(e) => ErrorMessage(e)
    case UnmarshalFailed => "Error while unmarshalling request body:"
    case ExportFailed => "Error while exporting logs to logz.io"
    case ExportSucceeded => "Execution finished successfully, check your logz.io account to see the data"
  }

  /** The JSON body of a reply: nothing, the echoed challenge, or a message. */
  datatype ResponseBody = NoBody | Verification(challenge: string) | Text(message: Message)

  datatype Response = Response(statusCode: int, body: ResponseBody)

  /** A handled request either gets a reply or panics on a body of the wrong shape. */
  datatype Outcome = Responded(response: Response) | Panicked

  /** The reply envelope carrying a status and a message. */
  function ApiGatewayResponse(statusCode: int, message: Message): Response
  {
    Response(statusCode, Text(message))
  }

  /** A non-empty challenge header is answered with 200 and echoed back;
      otherwise the reply is the empty one, which lets the caller go on. */
  function CheckOktaNewEndpointValidation(request: Request): (r: Response)
    ensures r.body != NoBody <==> Header(request.headers, ChallengeHeader) != ""
    ensures r.body != NoBody ==>
      r.statusCode == StatusOK && r.body == Verification(Header(request.headers, ChallengeHeader))
  {
    var challenge := Header(request.headers, ChallengeHeader);
    if challenge != "" then Response(StatusOK, Verification(challenge))
    else Response(0, NoBody)
  }

  /** The serialized form of one shipped event, if it has one. */
  function Shipped(event: map<string, Json>, globals: map<string, Json>,
                   encoder: Encoder): Option<seq<byte>>
  {
    Marshal(encoder, JObject(RewriteEvent(event, globals)))
  }

  /** The records the buffer receives for `events`: each event rewritten
      with the global fields and serialized, in order; an event that cannot
      be serialized is dropped and the rest still go in. */
  function Serialized(events: seq<map<string, Json>>, globals: map<string, Json>,
                      encoder: Encoder): seq<seq<byte>>
  {
    if events == [] then []
    else
      var init := Serialized(events[..|events| - 1], globals, encoder);
      match Shipped(events[|events| - 1], globals, encoder)
      case Some(b) => init + [b]
      case None => init
  }

  /** When every event serializes, the buffer receives all of them in order. */
  lemma {:induction false} SerializedAll(events: seq<map<string, Json>>, globals: map<string, Json>,
                                         encoder: Encoder)
    requires forall i :: 0 <= i < |events| ==> Shipped(events[i], globals, encoder).Some?
    ensures |Serialized(events, globals, encoder)| == |events|
    ensures forall i :: 0 <= i < |events| ==>
      Serialized(events, globals, encoder)[i] == Shipped(events[i], globals, encoder).value
  {
    if events != [] {
      var n := |events| - 1;
      var init := events[..n];
      assert forall i :: 0 <= i < n ==> init[i] == events[i];
      SerializedAll(init, globals, encoder);
      assert Serialized(events, globals, encoder)
        == Serialized(init, globals, encoder) + [Shipped(events[n], globals, encoder).value];
    }
  }

  /** The first `i + 1` events give the records of the first `i` and then
      the record of event `i`, if it has one. */
  lemma SerializedStep(events: seq<map<string, Json>>, i: nat,
                       globals: map<string, Json>, encoder: Encoder)
    requires i < |events|
    ensures var s := Shipped(events[i], globals, encoder);
      Serialized(events[..i + 1], globals, encoder) ==
        Serialized(events[..i], globals, encoder) + (if s.Some? then [s.value] else [])
  {
    assert events[..i + 1][..i] == events[..i];
  }

  /** A dropped record does not stop the batch: the buffer receives at most
      one record per event. */
  lemma {:induction false} SerializedBound(events: seq<map<string, Json>>, globals: map<string, Json>,
                                           encoder: Encoder)
    ensures |Serialized(events, globals, encoder)| <= |events|
  {
    if events != [] {
      SerializedBound(events[..|events| - 1], globals, encoder);
    }
  }

  /** Rewrites one event with the global fields and writes it to the
      client's buffer; an event that cannot be serialized is skipped. */
  method ShipEvent(client: LogzioClient, event: map<string, Json>,
                   globals: map<string, Json>, encoder: Encoder)
    requires client.Valid()
    modifies client`logsBuffer, client`records
    ensures client.Valid()
    ensures var s := Shipped(event, globals, encoder);
      client.records == old(client.records) + (if s.Some? then [s.value] else [])
  {
    var rewritten := RewriteEvent(event, globals);
    var writeError := client.WriteLog(JObject(rewritten), encoder);
  }

  /** Rewrites every event with the global fields and writes it to the
      client's buffer, going on past events that cannot be serialized. */
  method WriteEvents(client: LogzioClient, events: seq<map<string, Json>>,
                     globals: map<string, Json>, encoder: Encoder)
    requires client.Valid()
    modifies client`logsBuffer, client`records
    ensures client.Valid()
    ensures client.records == old(client.records) + Serialized(events, globals, encoder)
  {
    var i := 0;
    while i < |events|
      invariant 0 <= i <= |events|
      invariant client.Valid()
      invariant client.records == old(client.records) + Serialized(events[..i], globals, encoder)
    {
      ShipEvent(client, events[i], globals, encoder);
      SerializedStep(events, i, globals, encoder);
      i := i + 1;
    }
    assert events[..i] == events;
  }

  /** What handling `request` comes to: the challenge first, then the
      credentials, then the body, then the export of its events. */
  function HandleOutcome(request: Request, decoder: Decoder,
                         encoder: Encoder, gzip: seq<byte> -> GzipRun,
                         respond: nat -> int): Outcome
  {
    var challenge := Header(request.headers, ChallengeHeader);
    var creds := GetCredentialsFromHeaders(request.headers);
    var parsed := Unmarshal(decoder, request.body);
    if challenge != "" then Responded(Response(StatusOK, Verification(challenge)))
    else if creds.err.Some? then Responded(ApiGatewayResponse(StatusBadRequest, CredentialsRejected(creds.err.value)))
    else if parsed.None? then Responded(ApiGatewayResponse(StatusInternalServerError, UnmarshalFailed))
    else if EventsOf(parsed.value).None? then Panicked
    else
      var records := Serialized(EventsOf(parsed.value).value, GlobalFields(parsed.value), encoder);
      ExportReply(gzip(Frame(records)), Target(Region.ListenerUrl(creds.region), creds.token), respond)
  }

  /** The reply to a request whose events were buffered: a panic when the
      first send's request cannot be built, otherwise the export's status,
      with the success message for 200 and the failure message for any
      other status. */
  function ExportReply(run: GzipRun, target: string, respond: nat -> int): (o: Outcome)
    ensures o.Panicked? <==> SendPanics(run, target)
    ensures o.Responded? ==>
      && o.response.statusCode == ExportOutcome(run, respond).status
      && o.response.body == Text(if o.response.statusCode == StatusOK then ExportSucceeded else ExportFailed)
  {
    if SendPanics(run, target) then Panicked
    else
      var status := ExportOutcome(run, respond).status;
      Responded(ApiGatewayResponse(status, if status != StatusOK then ExportFailed else ExportSucceeded))
  }

  /** The order of the checks: a challenge is answered whatever else the
      request holds; rejected credentials are answered with 400 before the
      body is looked at; an unreadable body with 500; a body without the
      expected event list panics. */
  lemma HandleOutcomeCases(request: Request, decoder: Decoder,
                           encoder: Encoder, gzip: seq<byte> -> GzipRun,
                           respond: nat -> int)
    ensures var o := HandleOutcome(request, decoder, encoder, gzip, respond);
      var challenge := Header(request.headers, ChallengeHeader);
      var creds := GetCredentialsFromHeaders(request.headers);
      var parsed := Unmarshal(decoder, request.body);
      && (challenge != "" ==> o == Responded(Response(StatusOK, Verification(challenge))))
      && (challenge == "" && creds.err.Some? ==>
            o == Responded(Response(StatusBadRequest, Text(CredentialsRejected(creds.err.value)))))
      && (challenge == "" && creds.err.None? && parsed.None? ==>
            o == Responded(Response(StatusInternalServerError, Text(UnmarshalFailed))))
      && (challenge == "" && creds.err.None? && parsed.Some? && EventsOf(parsed.value).None? ==>
            o == Panicked)
  {
  }

  /** Once the events are buffered, the request is answered by the export:
      the buffer holds the rewritten events that serialize, framed; the
      posts go to the region's listener with the validated token; and the
      reply carries the export's own status, with the success message
      exactly when that status is 200, unless the first send panics. */
  lemma {:induction false} HandleOutcomeExport(request: Request, decoder: Decoder,
                                               encoder: Encoder, gzip: seq<byte> -> GzipRun,
                                               respond: nat -> int)
    requires Header(request.headers, ChallengeHeader) == ""
    requires GetCredentialsFromHeaders(request.headers).err.None?
    requires Unmarshal(decoder, request.body).Some?
    requires EventsOf(Unmarshal(decoder, request.body).value).Some?
    ensures var o := HandleOutcome(request, decoder, encoder, gzip, respond);
      var creds := GetCredentialsFromHeaders(request.headers);
      var body := Unmarshal(decoder, request.body).value;
      var run := gzip(Frame(Serialized(EventsOf(body).value, GlobalFields(body), encoder)));
      var target := Target(Region.ListenerUrl(creds.region), creds.token);
      && (o.Panicked? <==> SendPanics(run, target))
      && (o.Responded? ==>
            var status := ExportOutcome(run, respond).status;
            o == Responded(Response(status, Text(if status == StatusOK then ExportSucceeded else ExportFailed))))
  {
    var creds := GetCredentialsFromHeaders(request.headers);
    var body := Unmarshal(decoder, request.body).value;
    var run := gzip(Frame(Serialized(EventsOf(body).value, GlobalFields(body), encoder)));
    var target := Target(Region.ListenerUrl(creds.region), creds.token);
    assert HandleOutcome(request, decoder, encoder, gzip, respond) == ExportReply(run, target, respond);
  }

  /** A well-formed request with valid credentials, a compressor that
      succeeds within the size ceiling, a request URL that can be built and
      a listener that accepts the first send is answered with success. */
  lemma DeliveredRequestSucceeds(request: Request, decoder: Decoder,
                                 encoder: Encoder, gzip: seq<byte> -> GzipRun,
                                 respond: nat -> int)
    requires Header(request.headers, ChallengeHeader) == ""
    requires GetCredentialsFromHeaders(request.headers).err.None?
    requires Unmarshal(decoder, request.body).Some?
    requires EventsOf(Unmarshal(decoder, request.body).value).Some?
    requires forall b :: gzip(b).Written? && gzip(b).pendingLen <= MaxBulkSize && gzip(b).closed.Some?
    requires var creds := GetCredentialsFromHeaders(request.headers);
      !UrlRejected(Target(Region.ListenerUrl(creds.region), creds.token))
    requires respond(0) == StatusOK
    ensures HandleOutcome(request, decoder, encoder, gzip, respond)
      == Responded(Response(StatusOK, Text(ExportSucceeded)))
  {
    HandleOutcomeExport(request, decoder, encoder, gzip, respond);
    TerminalFirstStops(respond);
  }

  /** The token check looks for 32 letters anywhere in the token, so a
      token that starts with a tab passes it; the URL built from it cannot
      be parsed, and the first send panics instead of answering. */
  lemma ControlCharacterTokenPanics(body: string, decoder: Decoder, encoder: Encoder,
                                    gzip: seq<byte> -> GzipRun, respond: nat -> int)
    requires Unmarshal(decoder, body).Some?
    requires EventsOf(Unmarshal(decoder, body).value).Some?
    requires forall b :: gzip(b).Written? && gzip(b).pendingLen <= MaxBulkSize && gzip(b).closed.Some?
    ensures var token := "\tvalidbIyXnVFJAhojiALQuKzOmQtoken";
      HandleOutcome(Request(Headers(token, "us"), body), decoder, encoder, gzip, respond) == Panicked
  {
    var token := "\tvalidbIyXnVFJAhojiALQuKzOmQtoken";
    var request := Request(Headers(token, "us"), body);
    AcceptsTabbedToken();
    TabbedTokenUrlRejected();
    HandleOutcomeExport(request, decoder, encoder, gzip, respond);
  }

  lemma TabbedTokenUrlRejected()
    ensures UrlRejected(Target(Region.ListenerUrl("us"), "\tvalidbIyXnVFJAhojiALQuKzOmQtoken"))
  {
    var token := "\tvalidbIyXnVFJAhojiALQuKzOmQtoken";
    assert Region.Lower("us") == "us";
    var u := Target(Region.UsHost, token);
    assert u == Region.UsHost + "/?token=" + token;
    ControlCharacterRejected(u, |Region.UsHost| + 8);
  }

  /** Handles one webhook request. `decoder`, `encoder` and `gzip` stand
      for the JSON decoder, the JSON encoder and the gzip writer, and
      `respond(k)` for the listener's answer to the k-th send. */
  method HandleRequest(request: Request, decoder: Decoder,
                       encoder: Encoder, gzip: seq<byte> -> GzipRun,
                       respond: nat -> int) returns (outcome: Outcome)
    ensures outcome == HandleOutcome(request, decoder, encoder, gzip, respond)
  {
    var response := CheckOktaNewEndpointValidation(request);
    if response.body != NoBody {
      return Responded(response);
    }
    var creds := GetCredentialsFromHeaders(request.headers);
    if creds.err.Some? {
      return Responded(ApiGatewayResponse(StatusBadRequest, CredentialsRejected(creds.err.value)));
    }
    var client := new LogzioClient(creds.token);
    client.SetListenerURL(creds.region);
    var parsed := Unmarshal(decoder, request.body);
    if parsed.None? {
      return Responded(ApiGatewayResponse(StatusInternalServerError, UnmarshalFailed));
    }
    var body := parsed.value;
    var globalFields := ExtractGlobalFields(body);
    var events := EventsOf(body);
    if events.None? {
      return Panicked;
    }
    WriteEvents(client, events.value, globalFields, encoder);
    ghost var records := Serialized(events.value, globalFields, encoder);
    assert client.records == records;
    assert client.logsBuffer == Frame(records);
    ghost var target := Target(client.url, client.token);
    assert target == Target(Region.ListenerUrl(creds.region), creds.token);
    var statusCode, panicked := client.Export(gzip, respond);
    if panicked {
      return Panicked;
    }
    if statusCode != StatusOK {
      return Responded(ApiGatewayResponse(statusCode, ExportFailed));
    } else {
      return Responded(ApiGatewayResponse(StatusOK, ExportSucceeded));
    }
  }
}
