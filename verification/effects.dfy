/** What the handler does that can be observed: its calls and its response. */
module Effects {
  import opened Outbound

  /** What is written back: the status code and the body text. */
  datatype Response = Response(status: int, body: string)

  /** The observable side effects of one call, in the order they happen. */
  datatype Effect =
    | ReadBody
    | SendGet(request: HttpGet)
    | UploadFile(params: UploadParams)
    | Close(stream: Stream)
    | Respond(response: Response)

  /** The kinds of effect, for counting them. */
  datatype Kind = Reading | Fetching | Uploading | Closing | Responding

  function KindOf(e: Effect): Kind
  {
    match e
    case ReadBody => Reading
    case SendGet(_) => Fetching
    case UploadFile(_) => Uploading
    case Close(_) => Closing
    case Respond(_) => Responding
  }

  /** The number of effects of kind `k` in a trace. */
  function Count(trace: seq<Effect>, k: Kind): (n: nat)
    ensures n <= |trace|
  {
    if |trace| == 0 then 0
    else (if KindOf(trace[0]) == k then 1 else 0) + Count(trace[1..], k)
  }

  /** Counting distributes over concatenation, for every kind. */
  lemma {:induction false} CountAppend(a: seq<Effect>, b: seq<Effect>)
    ensures forall k :: Count(a + b, k) == Count(a, k) + Count(b, k)
  {
    if |a| == 0 {
      assert a + b == b;
    } else {
      assert (a + b)[0] == a[0];
      assert (a + b)[1..] == a[1..] + b;
      CountAppend(a[1..], b);
    }
  }

  lemma CountOne(e: Effect)
    ensures forall k :: Count([e], k) == if KindOf(e) == k then 1 else 0
  {
    assert [e][1..] == [];
  }

  /** The position of each kind of effect in the handler's fixed sequence:
      read, fetch, upload, close, respond. */
  function Rank(e: Effect): nat
  {
    if e.ReadBody? then 0
    else if e.SendGet? then 1
    else if e.UploadFile? then 2
    else if e.Close? then 3
    else 4
  }

  /** Every effect comes strictly after the ones of lower rank, so each kind
      happens at most once and never out of the fixed sequence. */
  predicate InOrder(trace: seq<Effect>)
  {
    forall i, j | 0 <= i < j < |trace| :: Rank(trace[i]) < Rank(trace[j])
  }

  /** An effect ranked before everything in an ordered trace can go first. */
  lemma InOrderCons(e: Effect, trace: seq<Effect>)
    requires InOrder(trace)
    requires forall i | 0 <= i < |trace| :: Rank(e) < Rank(trace[i])
    ensures InOrder([e] + trace)
  {
    var t := [e] + trace;
    forall i, j | 0 <= i < j < |t|
      ensures Rank(t[i]) < Rank(t[j])
    {
      assert t[j] == trace[j - 1];
      if 0 < i {
        assert t[i] == trace[i - 1];
      }
    }
  }
}
