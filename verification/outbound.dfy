/** The two outbound calls: the image GET and the Slack file upload. */
module Outbound {
  import opened Headers
  import opened Requests

  /** The body of the image response, an io.ReadCloser, by identity. */
  datatype Stream = Stream(id: nat)

  /** An outbound GET request: target URL and request header. */
  datatype HttpGet = HttpGet(url: string, header: Header)

  const AuthorizationKey := "Authorization"
  const BearerPrefix := "Bearer "

  /** The Authorization header value for an API key. */
  function Authorization(apiKey: string): (v: string)
    ensures |v| == |BearerPrefix| + |apiKey|
    ensures v[..|BearerPrefix|] == BearerPrefix
    ensures v[|BearerPrefix|..] == apiKey
  {
    BearerPrefix + apiKey
  }

  /** Distinct keys give distinct header values: the key can be read back. */
  lemma AuthorizationInjective(k1: string, k2: string)
    ensures Authorization(k1) == Authorization(k2) ==> k1 == k2
  {
    if Authorization(k1) == Authorization(k2) {
      assert k1 == Authorization(k1)[|BearerPrefix|..];
    }
  }

  /** The image request built by loadGrafanaImage: a GET of the request's
      image URL whose header is a fresh one with the Authorization line added. */
  function ImageRequest(request: Request, apiKey: string): (g: HttpGet)
    ensures g.url == request.grafanaImageUrl
    ensures g.header.Keys == {AuthorizationKey}
    ensures g.header[AuthorizationKey] == [Authorization(apiKey)]
    ensures Get(g.header, AuthorizationKey) == Authorization(apiKey)
  {
    HttpGet(request.grafanaImageUrl, Add(map[], AuthorizationKey, Authorization(apiKey)))
  }

  /** slack.FileUploadParameters, restricted to the fields the handler sets. */
  datatype UploadParams = UploadParams(
    title: string,
    filename: string,
    initialComment: string,
    reader: Stream,
    channels: seq<string>)

  /** The parameters uploadFileToSlack builds for `request` and the fetched image. */
  function UploadParameters(request: Request, reader: Stream): (p: UploadParams)
    ensures Describes(p, request) && p.reader == reader
  {
    UploadParams(request.title, request.title, request.comment, reader, [request.channel])
  }

  /** The upload describes `request`: its title serves as title and filename,
      its comment as the initial comment, and its channel is the one target. */
  predicate Describes(p: UploadParams, request: Request)
  {
    && p.title == request.title
    && p.filename == request.title
    && p.initialComment == request.comment
    && |p.channels| == 1
    && p.channels[0] == request.channel
  }

  /** Describes pins the parameters down: the only upload that describes
      `request` with a given reader is the one uploadFileToSlack builds. */
  lemma DescribesDetermines(p: UploadParams, request: Request)
    requires Describes(p, request)
    ensures p == UploadParameters(request, p.reader)
  {
    assert p.channels == [request.channel];
  }
}
