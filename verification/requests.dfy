/** The inbound upload request and its validation. */
module Requests {
  import opened Outcomes
  import opened Checks

  /** The JSON body of an inbound call, after unmarshalling. A key that is
      absent from the JSON leaves its field as the empty string. */
  datatype Request = Request(title: string, comment: string, channel: string, grafanaImageUrl: string)

  /** The fields of a Request, named by their JSON keys. */
  datatype Field = Title | Comment | Channel | GrafanaImageUrl

  function JsonKey(f: Field): string
  {
    match f
    case Title => "title"
    case Comment => "comment"
    case Channel => "channel"
    case GrafanaImageUrl => "grafana_image_url"
  }

  function FieldValue(r: Request, f: Field): string
  {
    match f
    case Title => r.title
    case Comment => r.comment
    case Channel => r.channel
    case GrafanaImageUrl => r.grafanaImageUrl
  }

  /** The fields that must be non-empty, in the order they are checked.
      The comment is the only field left out. */
  const Required: seq<Field> := [Channel, Title, GrafanaImageUrl]

  /** The error text for a required field that is empty. */
  function MissingMessage(f: Field): string
  {
    JsonKey(f) + " is required"
  }

  /** The check that field `f` of `r` is set. */
  function FieldCheck(r: Request, f: Field): Check
  {
    Check(FieldValue(r, f) != "", MissingMessage(f))
  }

  /** Validation as a chain of checks: one per required field, in order. */
  function ValidationChecks(r: Request): (checks: seq<Check>)
    ensures |checks| == |Required|
    ensures forall i :: 0 <= i < |Required| ==> checks[i] == FieldCheck(r, Required[i])
  {
    seq(|Required|, i requires 0 <= i < |Required| => FieldCheck(r, Required[i]))
  }

  /** Request.Validate: nil when every required field is set, otherwise an
      error naming the first empty one. */
  function Validate(r: Request): (o: Outcome)
    ensures o.Pass? <==> r.channel != "" && r.title != "" && r.grafanaImageUrl != ""
  {
    if r.channel == "" then Fail("channel is required")
    else if r.title == "" then Fail("title is required")
    else if r.grafanaImageUrl == "" then Fail("grafana_image_url is required")
    else Pass
  }

  /** Validate reports the first empty required field, in the order
      channel, title, grafana_image_url: it is the verdict of the chain of
      per-field checks. */
  lemma ValidateReportsFirstMissing(r: Request)
    ensures Validate(r) == Verdict(ValidationChecks(r))
  {
    var checks := ValidationChecks(r);
    assert checks == [FieldCheck(r, Channel), FieldCheck(r, Title), FieldCheck(r, GrafanaImageUrl)];
    assert MissingMessage(Channel) == "channel is required";
    assert MissingMessage(Title) == "title is required";
    assert MissingMessage(GrafanaImageUrl) == "grafana_image_url is required";
    if r.channel == "" {
      FirstFailingAt(checks, 0);
    } else if r.title == "" {
      FirstFailingAt(checks, 1);
    } else if r.grafanaImageUrl == "" {
      FirstFailingAt(checks, 2);
    } else {
      FirstFailingAt(checks, 3);
    }
  }

  /** The comment never influences validation. */
  lemma ValidateIgnoresComment(r: Request, comment: string)
    ensures Validate(r.(comment := comment)) == Validate(r)
  {
  }
}
