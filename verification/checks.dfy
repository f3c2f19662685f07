/**
 * A linear chain of checks that stops at the first one that fails. The
 * handler and the request validation are both such chains; this module says
 * once what "the first failure wins" means.
 */
module Checks {
  import opened Outcomes

  /** One step of a chain: whether it passed, and what it reports if not. */
  datatype Check = Check(passed: bool, message: string)

  /** The index of the first failing check, or |checks| when all pass. */
  function FirstFailing(checks: seq<Check>): (k: nat)
    ensures k <= |checks|
    ensures forall j :: 0 <= j < k ==> checks[j].passed
    ensures k < |checks| ==> !checks[k].passed
  {
    if |checks| == 0 then 0
    else if !checks[0].passed then 0
    else 1 + FirstFailing(checks[1..])
  }

  /** The contract of FirstFailing pins its value down. */
  lemma FirstFailingAt(checks: seq<Check>, k: nat)
    requires k <= |checks|
    requires forall j :: 0 <= j < k ==> checks[j].passed
    requires k < |checks| ==> !checks[k].passed
    ensures FirstFailing(checks) == k
  {
  }

  /** A chain gets at least as far as step `s` exactly when every check
      before `s` passes. */
  lemma ReachesIffPassed(checks: seq<Check>, s: nat)
    requires s <= |checks|
    ensures s <= FirstFailing(checks) <==> forall j :: 0 <= j < s ==> checks[j].passed
  {
    var k := FirstFailing(checks);
    if k < s {
      assert !checks[k].passed;
    }
  }

  /** The verdict of a chain: Pass when every check passes, otherwise the
      message of the earliest failing check. */
  function Verdict(checks: seq<Check>): (o: Outcome)
    ensures o.Pass? <==> forall j :: 0 <= j < |checks| ==> checks[j].passed
    ensures o.Fail? ==>
      exists k :: 0 <= k < |checks| && !checks[k].passed && o.message == checks[k].message
                  && forall j :: 0 <= j < k ==> checks[j].passed
  {
    var k := FirstFailing(checks);
    if k < |checks| then Fail(checks[k].message) else Pass
  }

  /** The first failure of a concatenation is the first failure of its front,
      or, when the front passes, the first failure of its back. */
  lemma FirstFailingAppend(a: seq<Check>, b: seq<Check>)
    ensures FirstFailing(a + b) == if FirstFailing(a) < |a| then FirstFailing(a) else |a| + FirstFailing(b)
  {
    var i := FirstFailing(a);
    if i < |a| {
      FirstFailingAt(a + b, i);
    } else {
      FirstFailingAt(a + b, |a| + FirstFailing(b));
    }
  }

  /** Chains compose: a chain followed by another fails as the first one
      does, and otherwise as the second one does. */
  lemma VerdictAppend(a: seq<Check>, b: seq<Check>)
    ensures Verdict(a + b) == if Verdict(a).Fail? then Verdict(a) else Verdict(b)
  {
    FirstFailingAppend(a, b);
  }
}
