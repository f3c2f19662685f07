/**
 * The webhook handler: a POST carrying a JSON upload request is checked,
 * the chart image it names is fetched with the Grafana API key, and the
 * image is uploaded to a Slack channel. The handler is a pure function from
 * the inbound call and the behaviour of its collaborators to the trace of
 * side effects it performs, the last of which is the one response it writes.
 */
module Relay {
  import opened Outcomes
  import opened Headers
  import opened Requests
  import opened Outbound
  import opened Effects

  newtype byte = x: int | 0 <= x < 256

  const MethodPost := "POST"
  const ContentTypeKey := "Content-Type"
  const JsonMediaType := "application/json"
  const StatusOk := 200
  const StatusBadRequest := 400

  /** http.Error(w, message, 400): status 400, then the message and a newline. */
  function ErrorReply(message: string): Response
  {
    Response(StatusBadRequest, message + "\n")
  }

  /** fmt.Fprintf(w, "OK\n") with no status written first, so 200 is implied. */
  const OkReply := Response(StatusOk, "OK\n")

  /** A failure reply can never be mistaken for the success reply, and it
      carries the error text unchanged. */
  lemma ErrorReplyIsNotOk(message: string, other: string)
    ensures ErrorReply(message) != OkReply
    ensures ErrorReply(message).status == StatusBadRequest
    ensures ErrorReply(message) == ErrorReply(other) ==> message == other
  {
    if ErrorReply(message) == ErrorReply(other) {
      assert message == ErrorReply(message).body[..|message|];
      assert other == ErrorReply(other).body[..|other|];
    }
  }

  /** The parts of the inbound http.Request the handler looks at before the body. */
  datatype Call = Call(httpMethod: string, header: Header)

  /** The handler's configuration. The Slack client is held by the upload
      collaborator of World; only the Grafana key is used here. */
  datatype Handler = Handler(grafanaApiKey: string)

  /**
   * The collaborators, each as a function of what the handler passes it:
   * reading the inbound body, json.Unmarshal, http.NewRequest (which can only
   * fail on the URL), http.DefaultClient.Do, and the Slack UploadFile call.
   */
  datatype World = World(
    readBody: Result<seq<byte>>,
    unmarshal: seq<byte> -> Result<Request>,
    newRequest: string -> Outcome,
    send: HttpGet -> Result<Stream>,
    uploadFile: UploadParams -> Outcome)

  /** The result of loadGrafanaImage: what it did, and the body or the error. */
  datatype Loaded = Loaded(effects: seq<Effect>, image: Result<Stream>)

  /**
   * loadGrafanaImage: builds a GET of the image URL carrying the bearer
   * header and sends it. When the request cannot be built nothing is sent.
   */
  function LoadGrafanaImage(h: Handler, request: Request, w: World): (r: Loaded)
    ensures |r.effects| <= 1 && Count(r.effects, Fetching) == |r.effects|
    ensures r.effects == [] <==> w.newRequest(request.grafanaImageUrl).Fail?
    ensures forall e | e in r.effects ::
      e.SendGet? && e.request.url == request.grafanaImageUrl
      && e.request.header == map[AuthorizationKey := [Authorization(h.grafanaApiKey)]]
    ensures r.image.Ok? <==> |r.effects| == 1 && w.send(r.effects[0].request).Ok?
    ensures r.image.Ok? ==> r.image == w.send(r.effects[0].request)
    ensures r.image.Err? ==>
      r.image.message == (match w.newRequest(request.grafanaImageUrl)
                          case Fail(m) => m
                          case Pass => w.send(r.effects[0].request).message)
  {
    match w.newRequest(request.grafanaImageUrl)
    case Fail(m) => Loaded([], Err(m))
    case Pass =>
      var get := ImageRequest(request, h.grafanaApiKey);
      CountOne(SendGet(get));
      Loaded([SendGet(get)], w.send(get))
  }

  /** The result of uploadFileToSlack: what it did, and the upload's error. */
  datatype Uploaded = Uploaded(effects: seq<Effect>, outcome: Outcome)

  /**
   * uploadFileToSlack: uploads the fetched image with parameters taken from
   * the request; the deferred Close releases the image on exit whatever the
   * upload returned.
   */
  function UploadFileToSlack(request: Request, image: Stream, w: World): (r: Uploaded)
    ensures |r.effects| == 2 && Count(r.effects, Uploading) == 1 && Count(r.effects, Closing) == 1
    ensures r.effects[0].UploadFile?
    ensures Describes(r.effects[0].params, request) && r.effects[0].params.reader == image
    ensures r.effects[1] == Close(image)
    ensures r.outcome == w.uploadFile(r.effects[0].params)
  {
    var params := UploadParameters(request, image);
    CountAppend([UploadFile(params)], [Close(image)]);
    CountOne(UploadFile(params));
    CountOne(Close(image));
    Uploaded([UploadFile(params), Close(image)], w.uploadFile(params))
  }

  /** r.Header.Get("Content-Type"): "" when the header is absent. */
  function ContentType(call: Call): string
  {
    Get(call.header, ContentTypeKey)
  }

  /** The reply a verdict calls for: OK on Pass, the error text otherwise. */
  function ReplyFor(o: Outcome): Response
  {
    match o
    case Pass => OkReply
    case Fail(m) => ErrorReply(m)
  }

  /** The response a trace ends with. */
  function Reply(trace: seq<Effect>): Response
    requires |trace| > 0 && trace[|trace| - 1].Respond?
  {
    trace[|trace| - 1].response
  }

  /**
   * Handler.ServeHTTP. The method is checked first and the content type
   * second; only then is the body read and the rest of the chain run.
   */
  function ServeHttp(h: Handler, call: Call, w: World): (trace: seq<Effect>)
    // Every path ends by writing a response.
    ensures |trace| > 0 && trace[|trace| - 1].Respond?
    // A wrong method is answered before anything else is looked at or done.
    ensures call.httpMethod != MethodPost ==>
      trace == [Respond(ErrorReply("Invalid method: " + call.httpMethod + "\n"))]
    ensures call.httpMethod == MethodPost && ContentType(call) != JsonMediaType ==>
      trace == [Respond(ErrorReply("Invalid content-type: " + ContentType(call) + "\n"))]
    // Once both pass, reading the body is the first thing done.
    ensures call.httpMethod == MethodPost && ContentType(call) == JsonMediaType ==> trace[0] == ReadBody
    // A body that cannot be read or parsed is answered without any outbound call.
    ensures call.httpMethod == MethodPost && ContentType(call) == JsonMediaType && w.readBody.Err? ==>
      trace == [ReadBody, Respond(ErrorReply("Failed to read body"))]
    ensures call.httpMethod == MethodPost && ContentType(call) == JsonMediaType && w.readBody.Ok?
            && w.unmarshal(w.readBody.value).Err? ==>
      trace == [ReadBody, Respond(ErrorReply("Failed to parse body"))]
  {
    if call.httpMethod != MethodPost then
      [Respond(ErrorReply("Invalid method: " + call.httpMethod + "\n"))]
    else if ContentType(call) != JsonMediaType then
      [Respond(ErrorReply("Invalid content-type: " + ContentType(call) + "\n"))]
    else
      [ReadBody] + ServeBody(h, w)
  }

  /** ServeHTTP from the body read on: parse, validate, then deliver. */
  function ServeBody(h: Handler, w: World): (trace: seq<Effect>)
    ensures |trace| > 0 && trace[|trace| - 1].Respond?
  {
    match w.readBody
    case Err(_) => [Respond(ErrorReply("Failed to read body"))]
    case Ok(body) =>
      match w.unmarshal(body)
      case Err(_) => [Respond(ErrorReply("Failed to parse body"))]
      case Ok(request) =>
        match Validate(request)
        case Fail(m) => [Respond(ErrorReply(m))]
        case Pass => Deliver(h, request, w)
  }

  /** ServeHTTP for a valid request: fetch the image, upload it, reply. */
  function Deliver(h: Handler, request: Request, w: World): (trace: seq<Effect>)
    ensures |trace| > 0 && trace[|trace| - 1].Respond?
    // Every image request is for this request's URL, with the bearer header.
    ensures forall e | e in trace && e.SendGet? :: e.request == ImageRequest(request, h.grafanaApiKey)
    // Every upload carries the fetched image and this request's fields, and
    // is followed at once by the Close of that image.
    ensures forall i | 0 <= i < |trace| && trace[i].UploadFile? ::
      && Describes(trace[i].params, request)
      && 0 < i && trace[i - 1].SendGet? && w.send(trace[i - 1].request) == Ok(trace[i].params.reader)
      && i + 1 < |trace| && trace[i + 1] == Close(trace[i].params.reader)
  {
    var loaded := LoadGrafanaImage(h, request, w);
    match loaded.image
    case Err(m) => loaded.effects + [Respond(ErrorReply(m))]
    case Ok(image) =>
      var uploaded := UploadFileToSlack(request, image, w);
      loaded.effects + uploaded.effects + [Respond(ReplyFor(uploaded.outcome))]
  }
}
