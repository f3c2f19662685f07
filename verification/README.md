# grafana-image-to-slack, modelled in Dafny

The relay is one HTTP handler. It accepts a POST whose JSON body names a
Grafana chart image and a Slack channel. It checks the call, fetches the image
with the Grafana API key as a bearer token, uploads the image to the channel,
and answers `OK`. Every failure is answered with a 400 and a message.

The model is a pure function. It takes the inbound call (its method and
header) and a `World`. A `World` gives the outcome of each collaborator for
the arguments the handler passes it: reading the body, `json.Unmarshal`,
`http.NewRequest`, `http.DefaultClient.Do` and the Slack `UploadFile`. The
function returns the trace of effects the handler performs: `ReadBody`,
`SendGet`, `UploadFile`, `Close` and, last, the one `Respond`.

A second reading of the handler is a flat chain of ten checks, in the order
the handler runs them. The checks are method, content type, body read, parse,
channel, title, image URL, building the GET, sending it, and the upload.
`Checks.Verdict` says what "the first failure wins" means. The lemmas in
`HandlerChain` prove that the handler and that chain agree on two things:
- the reply is the message of the first failing check, or `OK`;
- each step with a side effect runs exactly when every check before it passed.

They also prove that on every path the effects come in the fixed order read,
fetch, upload, close, respond, each at most once.

Modules, one per file:
- `outcomes.dfy`: Go's `error` and `(T, error)` conventions.
- `headers.dfy`: `http.Header`'s `Get` and `Add`.
- `checks.dfy`: chains of checks.
- `requests.dfy`: `Request` and `Validate`.
- `outbound.dfy`: the image GET and the Slack upload parameters.
- `effects.dfy`: the effect trace, counting, and the fixed order of effects.
- `relay.dfy`: `ServeHTTP`, `loadGrafanaImage` and `uploadFileToSlack`.
- `chain.dfy`: the ten-check chain and the lemmas relating it to the handler.

`http.Error` writes the status and then the message followed by a newline.
The method and content-type messages already end in a newline, so those two
bodies end in two newlines. The model keeps both newlines, as the code does.
The success body is `OK\n` with the implicit status 200.

## Model

| member | source | states |
|---|---|---|
| Requests.Validate | main.go:134-148 | validation passes exactly when channel, title and grafana_image_url are all non-empty |
| Requests.ValidateReportsFirstMissing | main.go:134-148 | the error is "<key> is required" for the first empty field, in the order channel, title, grafana_image_url |
| Requests.ValidateIgnoresComment | main.go:134-148 | changing the comment never changes the validation result |
| Headers.Get | main.go:58 | Header.Get returns the first value stored under the key, or "" when there is none |
| Headers.Add | main.go:100 | Add appends the value under its key and leaves every other key unchanged |
| Headers.GetAfterAdd | main.go:100 | after Add, Get on the key returns the new value if the key had none, and Get on any other key is unchanged |
| Outbound.Authorization | main.go:100 | the header value is "Bearer " followed by exactly the API key |
| Outbound.AuthorizationInjective | main.go:100 | the API key can be read back from the header value |
| Outbound.ImageRequest | main.go:96-100 | the GET targets the request's image URL, and its header has only Authorization, with the single bearer value |
| Outbound.UploadParameters | main.go:112-118 | the title is both title and filename, the comment is the initial comment, the only channel is the request's, and the reader is the fetched image |
| Outbound.DescribesDetermines | main.go:112-118 | any upload parameters that describe the request are exactly the ones built for it with that reader |
| Relay.LoadGrafanaImage | main.go:95-108 | nothing is sent when the request cannot be built; otherwise exactly one bearer-authorised GET of the URL is sent; the body is returned whatever the status; the error is the one from building or sending |
| Relay.UploadFileToSlack | main.go:110-125 | one upload with parameters that describe the request and carry the image, then one Close of that image whatever the upload returned; the result is the upload's error |
| Relay.ServeHttp | main.go:52-74 | a non-POST is rejected before anything else; then a wrong content type; once both pass the body read comes first; a failed read or parse is then rejected with nothing sent; every path ends in one response |
| Relay.ServeBody | main.go:64-92 | from the body read on (read, parse, validate, then fetch and upload), every path ends by writing a response |
| Relay.ContentType | main.go:58 | the content type is the first Content-Type header value, or "" when there is none |
| Relay.ErrorReply | main.go:54-88 | http.Error writes status 400 and the message followed by a newline |
| Relay.OkReply | main.go:92 | the success reply is the implied status 200 with the body "OK\n" |
| Relay.ErrorReplyIsNotOk | main.go:54-92 | an error reply always has status 400, is never the OK reply, and distinct messages give distinct replies |
| Relay.Deliver | main.go:81-92 | every GET is the bearer GET of the request's URL; every upload describes the request, follows the fetch of its image and is followed at once by the Close of that image |
| HandlerChain.DeliverRepliesWithVerdict | main.go:81-92 | after validation the reply is the first error among building the GET, sending it and the upload, or OK |
| HandlerChain.DeliveryReach | main.go:81-90 | the delivery chain stops at step 0 exactly when the GET cannot be built, and gets past the send exactly when the image was fetched |
| HandlerChain.DeliverWithoutImage | main.go:81-85 | when no image was fetched there is no upload and no Close; at most one GET is sent and one response is written |
| HandlerChain.DeliverWithImage | main.go:81-92 | with the image fetched there is one GET, one upload, one Close and one response |
| HandlerChain.DeliverFollowsChecks | main.go:81-92 | after validation, the GET is sent iff it was built, the upload happens iff the fetch succeeded, Closes equal uploads, and the reply is the first failure |
| HandlerChain.BodyChecksCompose | main.go:70-92 | with the body parsed, the chain fails at the first missing field, else as delivery does |
| HandlerChain.ServeBodyStopsEarly | main.go:64-79 | a body that cannot be read, parsed or validated gets only the response for the check that failed |
| HandlerChain.ServeBodyDelivers | main.go:76-92 | a valid body goes on to delivery, and the chain's verdict is then delivery's |
| HandlerChain.ServeBodyFollowsChecks | main.go:64-92 | after the read, the reply is the first failing check's; the GET and the upload happen iff every earlier check passed; Closes equal uploads; there is one response |
| HandlerChain.HandlerChecksCompose | main.go:52-63 | once method and content type pass, the handler's chain behaves as the body chain |
| HandlerChain.RejectedCall | main.go:52-62 | a wrong method or content type is answered with that check's message and nothing else happens |
| HandlerChain.ServeRepliesWithFirstFailure | main.go:52-92 | the reply is the message of the first failing check of the ten, or OK when none fails |
| HandlerChain.StepsRunInOrder | main.go:52-92 | the body is read, the GET sent and the image uploaded once each when every earlier check passed, and never otherwise; Closes equal uploads; exactly one response; the effects come in the order read, fetch, upload, close, respond |
| HandlerChain.EffectsNeedEarlierPasses | main.go:52-92 | each of read, send and upload happens iff every check before it passed |
| HandlerChain.SucceedsIffEveryStepPasses | main.go:52-92 | the reply is 200 OK iff every check passes; otherwise it is a 400 with the first failing check's message |
| HandlerChain.FetchErrorSkipsUpload | main.go:81-85 | for any POST with the JSON content type and a valid request, when the image GET cannot be built or its send fails, the reply is a 400 with that error, the GET is sent only if it was built, and there is no upload and no Close |
| HandlerChain.UploadErrorStillCloses | main.go:87-90 | for any POST with the JSON content type and a valid request whose image was fetched, when the upload fails the reply is a 400 with the upload error, and the image is still closed exactly once |
| HandlerChain.RelayScenario | main.go:52-125 | for title t, comment c, channel #ops and the image https://g/x.png, with every collaborator succeeding, the trace is read, bearer GET, upload as t to #ops, Close, then 200 OK |
| HandlerChain.SuccessTrace | main.go:52-125 | for any POST with the JSON content type and any valid request, when every collaborator succeeds the trace is exactly: read, the bearer GET, the upload of the fetched image with the request's parameters, its Close, then 200 OK |
| HandlerChain.DeliverInOrder | main.go:81-92 | after validation the effects come in the order fetch, upload, close, respond, each at most once, and no body read follows |
| HandlerChain.ServeHttpInOrder | main.go:52-92 | on every path the effects come in the order read, fetch, upload, close, respond, each at most once |
| HandlerChain.ServeBodyEarlyCounts | main.go:64-79 | a body that cannot be read, parsed or validated leads to one response and no GET, upload or Close |

## Left out

- `main`: reading the environment, `log.Fatal`, and `ListenAndServe` with its default port. It is process start-up with no decisions beyond "exit if unset".
- `ioutil.ReadAll`, `json.Unmarshal`, `http.NewRequest`, `http.DefaultClient.Do` and the Slack client: they are foreign code. Each is a field of `World`, applied to the exact argument the handler passes it. Only its success or error is modelled.
- Headers beyond `Content-Type` and `Authorization`. Header names are taken as already canonical, so the case-insensitive lookup of `Header.Get` is not modelled.
- Headers written by `http.Error` (`Content-Type: text/plain`, `X-Content-Type-Options`) and the content sniffing that `Fprintf` triggers. Only the status and the body are modelled.
- The bytes of the image. The response body is a `Stream` identified by a number. No status check is made on it, as in the code.
- Concurrency between requests. Handlers share only read-only credentials.
- The Slack client held by `Handler`: the upload collaborator of `World` stands for it.
