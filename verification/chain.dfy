/**
 * ServeHTTP read as a flat chain of checks, one per step and in the order
 * the steps run, and the proof that the handler is exactly that chain: the
 * reply is decided by the first step that fails, and a step with a side
 * effect is carried out exactly when every step before it passed.
 */
module HandlerChain {
  import opened Outcomes
  import opened Requests
  import opened Outbound
  import opened Checks
  import opened Effects
  import opened Relay

  /*
   * A step whose inputs do not exist because an earlier step failed is given
   * placeholder inputs. It is never reached, so what it says does not matter.
   */

  /** The request the handler works on once the body is read and parsed. */
  function RequestOf(w: World): Request
  {
    if w.readBody.Ok? && w.unmarshal(w.readBody.value).Ok?
    then w.unmarshal(w.readBody.value).value
    else Request("", "", "", "")
  }

  /** The image body the fetch of `request` returns, once it returned one. */
  function ImageOf(h: Handler, request: Request, w: World): Stream
  {
    var sent := w.send(ImageRequest(request, h.grafanaApiKey));
    if sent.Ok? then sent.value else Stream(0)
  }

  function OutcomeCheck(o: Outcome): Check
  {
    Check(o.Pass?, if o.Fail? then o.message else "")
  }

  function ResultCheck<T>(r: Result<T>): Check
  {
    Check(r.Ok?, if r.Err? then r.message else "")
  }

  /** The method and content-type checks. */
  function CallChecks(call: Call): seq<Check>
  {
    [ Check(call.httpMethod == MethodPost, "Invalid method: " + call.httpMethod + "\n"),
      Check(ContentType(call) == JsonMediaType, "Invalid content-type: " + ContentType(call) + "\n") ]
  }

  /** Reading and parsing the body. */
  function ParseChecks(w: World): seq<Check>
  {
    [ Check(w.readBody.Ok?, "Failed to read body"),
      Check(w.readBody.Ok? && w.unmarshal(w.readBody.value).Ok?, "Failed to parse body") ]
  }

  /** The two outbound calls for a valid request: building and sending the
      GET, then the upload. */
  function DeliveryChecks(h: Handler, request: Request, w: World): seq<Check>
  {
    [ OutcomeCheck(w.newRequest(request.grafanaImageUrl)),
      ResultCheck(w.send(ImageRequest(request, h.grafanaApiKey))),
      OutcomeCheck(w.uploadFile(UploadParameters(request, ImageOf(h, request, w)))) ]
  }

  /** Every step after the body is read, in order. */
  function BodyChecks(h: Handler, w: World): seq<Check>
  {
    var request := RequestOf(w);
    ParseChecks(w) + ValidationChecks(request) + DeliveryChecks(h, request, w)
  }

  /** Every step of ServeHTTP, in order: method, content type, body read,
      parse, the three required fields, request build, send, upload. */
  function HandlerChecks(h: Handler, call: Call, w: World): (checks: seq<Check>)
    ensures |checks| == 10
  {
    CallChecks(call) + BodyChecks(h, w)
  }

  /** Indexes of the steps with a side effect, in HandlerChecks. */
  const ReadStep := 2
  const SendStep := 8
  const UploadStep := 9

  /** The verdict of DeliveryChecks is the reply Deliver writes. */
  lemma DeliverRepliesWithVerdict(h: Handler, request: Request, w: World)
    ensures Reply(Deliver(h, request, w)) == ReplyFor(Verdict(DeliveryChecks(h, request, w)))
  {
    var checks := DeliveryChecks(h, request, w);
    var loaded := LoadGrafanaImage(h, request, w);
    if w.newRequest(request.grafanaImageUrl).Fail? {
      FirstFailingAt(checks, 0);
    } else if loaded.image.Err? {
      FirstFailingAt(checks, 1);
    } else {
      assert loaded.image.value == ImageOf(h, request, w);
      if w.uploadFile(UploadParameters(request, ImageOf(h, request, w))).Fail? {
        FirstFailingAt(checks, 2);
      } else {
        FirstFailingAt(checks, 3);
      }
    }
  }

  /** How far DeliveryChecks get: 0 when the GET cannot be built, 1 when it
      is sent and fails, 2 or more once the image is fetched. */
  lemma DeliveryReach(h: Handler, request: Request, w: World)
    ensures
      var k := FirstFailing(DeliveryChecks(h, request, w));
      && (k == 0 <==> w.newRequest(request.grafanaImageUrl).Fail?)
      && (2 <= k <==> LoadGrafanaImage(h, request, w).image.Ok?)
  {
    var checks := DeliveryChecks(h, request, w);
    var loaded := LoadGrafanaImage(h, request, w);
    if w.newRequest(request.grafanaImageUrl).Fail? {
      FirstFailingAt(checks, 0);
    } else if loaded.image.Err? {
      FirstFailingAt(checks, 1);
    } else if checks[2].passed {
      FirstFailingAt(checks, 3);
    } else {
      FirstFailingAt(checks, 2);
    }
  }

  /** The effects of Deliver when the image could not be fetched. */
  lemma DeliverWithoutImage(h: Handler, request: Request, w: World)
    requires LoadGrafanaImage(h, request, w).image.Err?
    ensures
      var trace := Deliver(h, request, w);
      var sent := if w.newRequest(request.grafanaImageUrl).Pass? then 1 else 0;
      && Count(trace, Reading) == 0 && Count(trace, Fetching) == sent
      && Count(trace, Uploading) == 0 && Count(trace, Closing) == 0
      && Count(trace, Responding) == 1
  {
    var loaded := LoadGrafanaImage(h, request, w);
    var tail := [Respond(ErrorReply(loaded.image.message))];
    assert Deliver(h, request, w) == loaded.effects + tail;
    CountAppend(loaded.effects, tail);
    CountOne(tail[0]);
  }

  /** The effects of Deliver once the image was fetched. */
  lemma DeliverWithImage(h: Handler, request: Request, w: World)
    requires LoadGrafanaImage(h, request, w).image.Ok?
    ensures
      var trace := Deliver(h, request, w);
      && Count(trace, Reading) == 0 && Count(trace, Fetching) == 1
      && Count(trace, Uploading) == 1 && Count(trace, Closing) == 1
      && Count(trace, Responding) == 1
  {
    var loaded := LoadGrafanaImage(h, request, w);
    var uploaded := UploadFileToSlack(request, loaded.image.value, w);
    var tail := [Respond(ReplyFor(uploaded.outcome))];
    assert Deliver(h, request, w) == (loaded.effects + uploaded.effects) + tail;
    CountAppend(loaded.effects + uploaded.effects, tail);
    CountAppend(loaded.effects, uploaded.effects);
    CountOne(tail[0]);
    assert loaded.effects == [loaded.effects[0]];
    CountOne(loaded.effects[0]);
    assert uploaded.effects == [uploaded.effects[0]] + [uploaded.effects[1]];
    CountAppend([uploaded.effects[0]], [uploaded.effects[1]]);
    CountOne(uploaded.effects[0]);
    CountOne(uploaded.effects[1]);
  }

  /** Deliver is the chain of DeliveryChecks: it sends the GET once the
      request is built, uploads once the GET returned a body, closes the
      image as often as it uploads it, and writes one response. */
  lemma DeliverFollowsChecks(h: Handler, request: Request, w: World)
    ensures
      var trace := Deliver(h, request, w);
      var k := FirstFailing(DeliveryChecks(h, request, w));
      && Reply(trace) == ReplyFor(Verdict(DeliveryChecks(h, request, w)))
      && Count(trace, Reading) == 0
      && Count(trace, Fetching) == (if 1 <= k then 1 else 0)
      && Count(trace, Uploading) == (if 2 <= k then 1 else 0)
      && Count(trace, Closing) == Count(trace, Uploading)
      && Count(trace, Responding) == 1
  {
    DeliverRepliesWithVerdict(h, request, w);
    DeliveryReach(h, request, w);
    if LoadGrafanaImage(h, request, w).image.Ok? {
      DeliverWithImage(h, request, w);
    } else {
      DeliverWithoutImage(h, request, w);
    }
  }

  /** Splits BodyChecks at its stages: with the body parsed, its verdict and
      how far it gets are those of validation, then those of delivery. */
  lemma BodyChecksCompose(h: Handler, w: World)
    requires w.readBody.Ok? && w.unmarshal(w.readBody.value).Ok?
    ensures
      var request := RequestOf(w);
      var validation := ValidationChecks(request);
      var delivery := DeliveryChecks(h, request, w);
      var checks := BodyChecks(h, w);
      && Verdict(checks) == (if Validate(request).Fail? then Validate(request) else Verdict(delivery))
      && FirstFailing(checks) == (if Validate(request).Fail? then 2 + FirstFailing(validation)
                                  else 5 + FirstFailing(delivery))
      && (Validate(request).Fail? ==> FirstFailing(validation) < 3)
  {
    var request := RequestOf(w);
    var parse := ParseChecks(w);
    var validation := ValidationChecks(request);
    var delivery := DeliveryChecks(h, request, w);
    assert BodyChecks(h, w) == parse + (validation + delivery);
    FirstFailingAt(parse, 2);
    ValidateReportsFirstMissing(request);
    VerdictAppend(parse, validation + delivery);
    VerdictAppend(validation, delivery);
    FirstFailingAppend(parse, validation + delivery);
    FirstFailingAppend(validation, delivery);
  }

  /** A body that cannot be read, parsed or validated is answered at once,
      with the message of the check that failed, and nothing is sent. */
  lemma ServeBodyStopsEarly(h: Handler, w: World)
    requires !(w.readBody.Ok? && w.unmarshal(w.readBody.value).Ok? && Validate(RequestOf(w)).Pass?)
    ensures
      var trace := ServeBody(h, w);
      && FirstFailing(BodyChecks(h, w)) < 5
      && trace == [Respond(ReplyFor(Verdict(BodyChecks(h, w))))]
  {
    var checks := BodyChecks(h, w);
    if w.readBody.Err? {
      FirstFailingAt(checks, 0);
    } else if w.unmarshal(w.readBody.value).Err? {
      FirstFailingAt(checks, 1);
    } else {
      BodyChecksCompose(h, w);
    }
  }

  /** A valid body is delivered, and the body checks get past validation
      exactly as far as the delivery checks do. */
  lemma ServeBodyDelivers(h: Handler, w: World)
    requires w.readBody.Ok? && w.unmarshal(w.readBody.value).Ok? && Validate(RequestOf(w)).Pass?
    ensures ServeBody(h, w) == Deliver(h, RequestOf(w), w)
    ensures Verdict(BodyChecks(h, w)) == Verdict(DeliveryChecks(h, RequestOf(w), w))
    ensures FirstFailing(BodyChecks(h, w)) == 5 + FirstFailing(DeliveryChecks(h, RequestOf(w), w))
  {
    BodyChecksCompose(h, w);
  }

  /** The effects of a body that stops before delivery: one response. */
  lemma ServeBodyEarlyCounts(h: Handler, w: World)
    requires !(w.readBody.Ok? && w.unmarshal(w.readBody.value).Ok? && Validate(RequestOf(w)).Pass?)
    ensures
      var trace := ServeBody(h, w);
      var k := FirstFailing(BodyChecks(h, w));
      && Reply(trace) == ReplyFor(Verdict(BodyChecks(h, w)))
      && k < 5
      && Count(trace, Reading) == 0 && Count(trace, Fetching) == 0
      && Count(trace, Uploading) == 0 && Count(trace, Closing) == 0
      && Count(trace, Responding) == 1
  {
    ServeBodyStopsEarly(h, w);
    CountOne(ServeBody(h, w)[0]);
  }

  /** ServeBody is the chain of BodyChecks: it replies with their verdict,
      fetches once the body is parsed and valid and the GET is built, uploads
      once the image is fetched, closes as often as it uploads, and writes one
      response. */
  lemma ServeBodyFollowsChecks(h: Handler, w: World)
    ensures
      var trace := ServeBody(h, w);
      var k := FirstFailing(BodyChecks(h, w));
      && Reply(trace) == ReplyFor(Verdict(BodyChecks(h, w)))
      && Count(trace, Reading) == 0
      && Count(trace, Fetching) == (if 6 <= k then 1 else 0)
      && Count(trace, Uploading) == (if 7 <= k then 1 else 0)
      && Count(trace, Closing) == Count(trace, Uploading)
      && Count(trace, Responding) == 1
  {
    if w.readBody.Ok? && w.unmarshal(w.readBody.value).Ok? && Validate(RequestOf(w)).Pass? {
      ServeBodyDelivers(h, w);
      DeliverFollowsChecks(h, RequestOf(w), w);
    } else {
      ServeBodyEarlyCounts(h, w);
    }
  }

  /** Splits HandlerChecks at the body read. */
  lemma HandlerChecksCompose(h: Handler, call: Call, w: World)
    requires call.httpMethod == MethodPost && ContentType(call) == JsonMediaType
    ensures Verdict(HandlerChecks(h, call, w)) == Verdict(BodyChecks(h, w))
    ensures FirstFailing(HandlerChecks(h, call, w)) == 2 + FirstFailing(BodyChecks(h, w))
  {
    FirstFailingAt(CallChecks(call), 2);
    VerdictAppend(CallChecks(call), BodyChecks(h, w));
    FirstFailingAppend(CallChecks(call), BodyChecks(h, w));
  }

  /** How far HandlerChecks get, and what ServeHTTP did, for a call that
      fails the method or the content-type check. */
  lemma RejectedCall(h: Handler, call: Call, w: World)
    requires call.httpMethod != MethodPost || ContentType(call) != JsonMediaType
    ensures
      var trace := ServeHttp(h, call, w);
      var checks := HandlerChecks(h, call, w);
      && FirstFailing(checks) < ReadStep
      && Reply(trace) == ReplyFor(Verdict(checks))
      && trace == [trace[0]] && KindOf(trace[0]) == Responding
  {
    if call.httpMethod != MethodPost {
      FirstFailingAt(CallChecks(call), 0);
    } else {
      FirstFailingAt(CallChecks(call), 1);
    }
    FirstFailingAppend(CallChecks(call), BodyChecks(h, w));
    VerdictAppend(CallChecks(call), BodyChecks(h, w));
  }

  /** ServeHTTP answers with the message of the first step that fails, or
      with OK when none does. */
  lemma ServeRepliesWithFirstFailure(h: Handler, call: Call, w: World)
    ensures Reply(ServeHttp(h, call, w)) == ReplyFor(Verdict(HandlerChecks(h, call, w)))
  {
    if call.httpMethod != MethodPost || ContentType(call) != JsonMediaType {
      RejectedCall(h, call, w);
    } else {
      var trace := ServeHttp(h, call, w);
      var rest := ServeBody(h, w);
      assert trace == [ReadBody] + rest;
      assert Reply(trace) == Reply(rest);
      HandlerChecksCompose(h, call, w);
      ServeBodyFollowsChecks(h, w);
    }
  }

  /**
   * Each step with a side effect is carried out once when every earlier step
   * passed, and not at all otherwise: the body is read after the method and
   * content-type checks, the GET is sent once it is built for a valid
   * request, the upload follows a fetched image; the image is closed as
   * often as it is uploaded, and exactly one response is written.
   */
  lemma StepsRunInOrder(h: Handler, call: Call, w: World)
    ensures
      var trace := ServeHttp(h, call, w);
      var checks := HandlerChecks(h, call, w);
      var k := FirstFailing(checks);
      && Count(trace, Reading) == (if ReadStep <= k then 1 else 0)
      && Count(trace, Fetching) == (if SendStep <= k then 1 else 0)
      && Count(trace, Uploading) == (if UploadStep <= k then 1 else 0)
      && Count(trace, Closing) == Count(trace, Uploading)
      && Count(trace, Responding) == 1
      && InOrder(trace)
  {
    var trace := ServeHttp(h, call, w);
    ServeHttpInOrder(h, call, w);
    if call.httpMethod != MethodPost || ContentType(call) != JsonMediaType {
      RejectedCall(h, call, w);
      CountOne(trace[0]);
    } else {
      var rest := ServeBody(h, w);
      assert trace == [ReadBody] + rest;
      CountAppend([ReadBody], rest);
      CountOne(ReadBody);
      HandlerChecksCompose(h, call, w);
      ServeBodyFollowsChecks(h, w);
    }
  }

  /** A step with a side effect is carried out exactly when every step
      before it passed. */
  lemma EffectsNeedEarlierPasses(h: Handler, call: Call, w: World)
    ensures
      var trace := ServeHttp(h, call, w);
      var checks := HandlerChecks(h, call, w);
      && (Count(trace, Reading) == 1 <==> forall j :: 0 <= j < ReadStep ==> checks[j].passed)
      && (Count(trace, Fetching) == 1 <==> forall j :: 0 <= j < SendStep ==> checks[j].passed)
      && (Count(trace, Uploading) == 1 <==> forall j :: 0 <= j < UploadStep ==> checks[j].passed)
  {
    var checks := HandlerChecks(h, call, w);
    StepsRunInOrder(h, call, w);
    ReachesIffPassed(checks, ReadStep);
    ReachesIffPassed(checks, SendStep);
    ReachesIffPassed(checks, UploadStep);
  }

  /** The reply is "OK" with status 200 exactly when every step passes;
      otherwise it is a 400 carrying the first failing step's message. */
  lemma SucceedsIffEveryStepPasses(h: Handler, call: Call, w: World)
    ensures
      var reply := Reply(ServeHttp(h, call, w));
      var checks := HandlerChecks(h, call, w);
      var k := FirstFailing(checks);
      && (reply == OkReply <==> forall j :: 0 <= j < |checks| ==> checks[j].passed)
      && (reply != OkReply ==> k < |checks| && reply == ErrorReply(checks[k].message))
      && (reply.status == StatusOk || reply.status == StatusBadRequest)
  {
    ServeRepliesWithFirstFailure(h, call, w);
  }

  /** A valid request whose image cannot be fetched, because the GET cannot
      be built or its send fails, gets that error back, and nothing is
      uploaded or closed. */
  lemma FetchErrorSkipsUpload(h: Handler, call: Call, w: World, request: Request)
    requires call.httpMethod == MethodPost && ContentType(call) == JsonMediaType
    requires w.readBody.Ok? && w.unmarshal(w.readBody.value) == Ok(request)
    requires Validate(request).Pass?
    requires LoadGrafanaImage(h, request, w).image.Err?
    ensures
      var trace := ServeHttp(h, call, w);
      && Reply(trace) == ErrorReply(LoadGrafanaImage(h, request, w).image.message)
      && Count(trace, Fetching) == (if w.newRequest(request.grafanaImageUrl).Pass? then 1 else 0)
      && Count(trace, Uploading) == 0 && Count(trace, Closing) == 0
  {
    assert RequestOf(w) == request;
    HandlerChecksCompose(h, call, w);
    BodyChecksCompose(h, w);
    DeliveryReach(h, request, w);
    if w.newRequest(request.grafanaImageUrl).Fail? {
      FirstFailingAt(DeliveryChecks(h, request, w), 0);
    } else {
      FirstFailingAt(DeliveryChecks(h, request, w), 1);
    }
    ServeRepliesWithFirstFailure(h, call, w);
    StepsRunInOrder(h, call, w);
  }

  /** A valid request whose upload fails gets the upload's error back, and
      the fetched image is still closed, once. */
  lemma UploadErrorStillCloses(h: Handler, call: Call, w: World, request: Request, image: Stream, message: string)
    requires call.httpMethod == MethodPost && ContentType(call) == JsonMediaType
    requires w.readBody.Ok? && w.unmarshal(w.readBody.value) == Ok(request)
    requires Validate(request).Pass?
    requires w.newRequest(request.grafanaImageUrl).Pass?
    requires w.send(ImageRequest(request, h.grafanaApiKey)) == Ok(image)
    requires w.uploadFile(UploadParameters(request, image)) == Fail(message)
    ensures
      var trace := ServeHttp(h, call, w);
      && Reply(trace) == ErrorReply(message)
      && Count(trace, Uploading) == 1 && Count(trace, Closing) == 1
  {
    assert RequestOf(w) == request;
    assert ImageOf(h, request, w) == image;
    HandlerChecksCompose(h, call, w);
    BodyChecksCompose(h, w);
    FirstFailingAt(DeliveryChecks(h, request, w), 2);
    ServeRepliesWithFirstFailure(h, call, w);
    StepsRunInOrder(h, call, w);
  }

  /** When every step succeeds the handler does exactly this, in this order:
      read the body, send the bearer GET, upload the image with the request's
      parameters, close the image, answer 200 "OK". */
  lemma SuccessTrace(h: Handler, call: Call, w: World, request: Request, image: Stream)
    requires call.httpMethod == MethodPost && ContentType(call) == JsonMediaType
    requires w.readBody.Ok? && w.unmarshal(w.readBody.value) == Ok(request)
    requires Validate(request).Pass?
    requires w.newRequest(request.grafanaImageUrl).Pass?
    requires w.send(ImageRequest(request, h.grafanaApiKey)) == Ok(image)
    requires w.uploadFile(UploadParameters(request, image)).Pass?
    ensures ServeHttp(h, call, w) == [
      ReadBody,
      SendGet(ImageRequest(request, h.grafanaApiKey)),
      UploadFile(UploadParameters(request, image)),
      Close(image),
      Respond(OkReply)]
  {
    assert ServeBody(h, w) == Deliver(h, request, w);
  }

  /** Deliver's effects come in the fixed order fetch, upload, close,
      respond, each at most once, and never include a body read. */
  lemma DeliverInOrder(h: Handler, request: Request, w: World)
    ensures InOrder(Deliver(h, request, w))
    ensures forall i | 0 <= i < |Deliver(h, request, w)| :: Rank(ReadBody) < Rank(Deliver(h, request, w)[i])
  {
    var trace := Deliver(h, request, w);
    var loaded := LoadGrafanaImage(h, request, w);
    var get := ImageRequest(request, h.grafanaApiKey);
    if w.newRequest(request.grafanaImageUrl).Fail? {
      assert trace == [Respond(ErrorReply(loaded.image.message))];
    } else if loaded.image.Err? {
      assert trace == [SendGet(get), Respond(ErrorReply(loaded.image.message))];
    } else {
      var uploaded := UploadFileToSlack(request, loaded.image.value, w);
      assert trace == [SendGet(get), uploaded.effects[0], uploaded.effects[1], Respond(ReplyFor(uploaded.outcome))];
    }
  }

  /**
   * ServeHTTP's effects always come in the fixed order read, fetch, upload,
   * close, respond, with each at most once: no step is ever taken after a
   * later one, on any path.
   */
  lemma ServeHttpInOrder(h: Handler, call: Call, w: World)
    ensures InOrder(ServeHttp(h, call, w))
  {
    var trace := ServeHttp(h, call, w);
    if call.httpMethod != MethodPost || ContentType(call) != JsonMediaType {
      assert |trace| == 1;
    } else {
      var rest := ServeBody(h, w);
      assert trace == [ReadBody] + rest;
      if w.readBody.Ok? && w.unmarshal(w.readBody.value).Ok? && Validate(RequestOf(w)).Pass? {
        ServeBodyDelivers(h, w);
        DeliverInOrder(h, RequestOf(w), w);
      } else {
        ServeBodyStopsEarly(h, w);
      }
      InOrderCons(ReadBody, rest);
    }
  }

  /**
   * A worked run: the request titled "t", commented "c", for channel "#ops"
   * and the image at "https://g/x.png", with every collaborator succeeding,
   * fetches that image with the bearer key, uploads it as "t" to "#ops",
   * closes it and answers 200 "OK".
   */
  lemma RelayScenario(key: string, call: Call, body: seq<byte>, image: Stream, w: World)
    requires call.httpMethod == "POST" && ContentType(call) == "application/json"
    requires w.readBody == Ok(body)
    requires w.unmarshal(body) == Ok(Request("t", "c", "#ops", "https://g/x.png"))
    requires w.newRequest("https://g/x.png") == Pass
    requires w.send(HttpGet("https://g/x.png", map["Authorization" := ["Bearer " + key]])) == Ok(image)
    requires w.uploadFile(UploadParams("t", "t", "c", image, ["#ops"])) == Pass
    ensures ServeHttp(Handler(key), call, w) == [
      ReadBody,
      SendGet(HttpGet("https://g/x.png", map["Authorization" := ["Bearer " + key]])),
      UploadFile(UploadParams("t", "t", "c", image, ["#ops"])),
      Close(image),
      Respond(Response(200, "OK\n"))]
  {
    var request := Request("t", "c", "#ops", "https://g/x.png");
    assert Validate(request) == Pass;
    SuccessTrace(Handler(key), call, w, request, image);
    assert ImageRequest(request, key) == HttpGet("https://g/x.png", map["Authorization" := ["Bearer " + key]]);
    assert UploadParameters(request, image) == UploadParams("t", "t", "c", image, ["#ops"]);
  }
}
