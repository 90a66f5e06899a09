/**
 `pushChanges`: sends every queued local change to the server, one request
 per change in the order the queue was fetched. A change the server accepts
 leaves the queue and is counted; a change that fails for any reason stays,
 with its attempt count raised and the error recorded, and the loop goes on.
 */
module Push {
  import opened Values
  import opened ApiClient

  /** A row of the `sync_queue` table. `recordId` is stored but the push
      loop never reads it. */
  datatype Change = Change(
    tableName: string,
    recordId: string,
    operation: string,
    payloadJson: string,
    attempts: Option<int>,
    lastError: Option<string>)

  /** What `pushChanges` returns, plus its effect on the queue and the
      requests it sent, in order. */
  datatype PushResult = PushResult(pushed: nat, errors: seq<string>, queue: seq<Change>, sent: seq<Request>)

  /** The `TypeError` message for `${payload.id}` on a null payload. The
      wording depends on the JavaScript engine; this is V8's. */
  const NullPayloadError := "Cannot read properties of null (reading 'id')"

  /** The request parts `pushChanges` derives from a parsed payload: `update`
      and `delete` address `/{table}/{payload.id}`, anything else posts to
      `/{table}`; every operation but `delete` sends the payload as JSON. */
  function Route(rt: Runtime, tableName: string, operation: string, payload: Value): (r: Result<(Verb, Endpoint, Option<string>), string>)
    ensures r.Err? <==> (operation == "update" || operation == "delete") && payload.Null?
    ensures r.Err? ==> r.error == NullPayloadError
    ensures r.Ok? && operation == "update" ==>
              r.value == (PUT, Member(tableName, Get(payload, "id")), Some(rt.stringify(payload)))
    ensures r.Ok? && operation == "delete" ==>
              r.value == (DELETE, Member(tableName, Get(payload, "id")), None)
    ensures operation != "update" && operation != "delete" ==>
              r == Ok((POST, Collection(tableName), Some(rt.stringify(payload))))
  {
    if operation == "update" || operation == "delete" then
      if payload.Null? then Err(NullPayloadError)
      else
        var endpoint := Member(tableName, Get(payload, "id"));
        if operation == "update" then Ok((PUT, endpoint, Some(rt.stringify(payload))))
        else Ok((DELETE, endpoint, None))
    else Ok((POST, Collection(tableName), Some(rt.stringify(payload))))
  }

  /** The body of the `try` for one change: parse the payload, route it, and
      call the server. The call's value is discarded; only success matters. */
  function PushOne(rt: Runtime, token: Option<string>, c: Change, reply: Reply): (x: Exchange)
    ensures x.sent.Some? ==> HasToken(token)
    ensures x.result.Ok? ==> x.sent.Some?
    ensures rt.parse(c.payloadJson).Err? ==> x == Exchange(None, Err(rt.parse(c.payloadJson).error))
  {
    match rt.parse(c.payloadJson)
    case Err(m) => Exchange(None, Err(m))
    case Ok(payload) =>
      match Route(rt, c.tableName, c.operation, payload)
      case Err(m) => Exchange(None, Err(m))
      case Ok((verb, endpoint, body)) => Call(rt, token, verb, endpoint, body, reply)
  }

  /** The entry in `errors` for a change that failed. */
  function FailureMessage(tableName: string, message: string): string {
    "Failed to sync " + tableName + ": " + message
  }

  /** The change after a failed attempt: `attempts = (attempts || 0) + 1` and
      `lastError = message`. */
  function MarkFailed(c: Change, message: string): Change {
    c.(attempts := Some(c.attempts.GetOr(0) + 1), lastError := Some(message))
  }

  function SentList(x: Exchange): seq<Request> {
    if x.sent.Some? then [x.sent.value] else []
  }

  /** What the push of each fetched change does, position by position;
      `replies(i)` is what the network answers to the request for
      `pending[i]`, if one is sent. */
  function Outcomes(rt: Runtime, token: Option<string>, pending: seq<Change>, replies: nat -> Reply): (o: seq<Exchange>)
    ensures |o| == |pending|
    ensures forall i | 0 <= i < |pending| :: o[i] == PushOne(rt, token, pending[i], replies(i))
  {
    seq(|pending|, i requires 0 <= i < |pending| => PushOne(rt, token, pending[i], replies(i)))
  }

  /** The loop of `pushChanges` given each change's outcome: count the
      successes, collect an error and keep a marked copy of each failure. */
  function Tally(pending: seq<Change>, outcomes: seq<Exchange>): (p: PushResult)
    requires |outcomes| == |pending|
    ensures p.pushed + |p.errors| == |pending|
    ensures |p.queue| == |p.errors| && |p.sent| <= |pending|
    decreases |pending|
  {
    if |pending| == 0 then PushResult(0, [], [], [])
    else
      var i := |pending| - 1;
      var prev := Tally(pending[..i], outcomes[..i]);
      var c := pending[i];
      var x := outcomes[i];
      match x.result
      case Ok(_) => PushResult(prev.pushed + 1, prev.errors, prev.queue, prev.sent + SentList(x))
      case Err(m) =>
        PushResult(prev.pushed, prev.errors + [FailureMessage(c.tableName, m)],
                   prev.queue + [MarkFailed(c, m)], prev.sent + SentList(x))
  }

  /** `pushChanges` on the fetched queue `pending`. */
  function PushChanges(rt: Runtime, token: Option<string>, pending: seq<Change>, replies: nat -> Reply): (p: PushResult)
    ensures p.pushed + |p.errors| == |pending|
    ensures |p.queue| == |p.errors| && |p.sent| <= |pending|
  {
    Tally(pending, Outcomes(rt, token, pending, replies))
  }

  // ---------------------------------------------------------------------
  // Item by item
  // ---------------------------------------------------------------------

  /** The positions of the failed outcomes, in increasing order. */
  function FailedPositions(outcomes: seq<Exchange>): (f: seq<nat>)
    ensures forall k | 0 <= k < |f| :: f[k] < |outcomes| && outcomes[f[k]].result.Err?
    ensures forall k, l | 0 <= k < l < |f| :: f[k] < f[l]
    ensures forall i | 0 <= i < |outcomes| && outcomes[i].result.Err? :: i in f
    decreases |outcomes|
  {
    if |outcomes| == 0 then []
    else
      var i := |outcomes| - 1;
      var prev := FailedPositions(outcomes[..i]);
      if outcomes[i].result.Err? then prev + [i] else prev
  }

  /** Every change is handled exactly once: the failed ones are exactly the
      ones left in the queue, in queue order, each with its attempt count
      raised and its error recorded, and each with one entry in `errors`;
      every other change was pushed and removed. */
  lemma {:induction false} TallyFate(pending: seq<Change>, outcomes: seq<Exchange>)
    requires |outcomes| == |pending|
    ensures var p := Tally(pending, outcomes);
      var f := FailedPositions(outcomes);
      && p.pushed == |pending| - |f|
      && |p.queue| == |f|
      && forall k | 0 <= k < |f| ::
           && p.queue[k] == MarkFailed(pending[f[k]], outcomes[f[k]].result.error)
           && p.errors[k] == FailureMessage(pending[f[k]].tableName, outcomes[f[k]].result.error)
    decreases |pending|
  {
    if |pending| > 0 {
      var i := |pending| - 1;
      var init, earlier := pending[..i], outcomes[..i];
      TallyFate(init, earlier);
      var p, prev := Tally(pending, outcomes), Tally(init, earlier);
      var f, prevF := FailedPositions(outcomes), FailedPositions(earlier);
      forall k | 0 <= k < |prevF|
        ensures pending[prevF[k]] == init[prevF[k]] && outcomes[prevF[k]] == earlier[prevF[k]]
      {
      }
      if outcomes[i].result.Err? {
        assert f == prevF + [i];
        assert p.queue == prev.queue + [MarkFailed(pending[i], outcomes[i].result.error)];
        assert p.errors == prev.errors + [FailureMessage(pending[i].tableName, outcomes[i].result.error)];
      } else {
        assert f == prevF;
        assert p.queue == prev.queue && p.errors == prev.errors;
      }
    }
  }

  /** `TallyFate` for the outcomes of a push. */
  lemma PushChangesFate(rt: Runtime, token: Option<string>, pending: seq<Change>, replies: nat -> Reply)
    ensures var p := PushChanges(rt, token, pending, replies);
      var o := Outcomes(rt, token, pending, replies);
      var f := FailedPositions(o);
      && p.pushed == |pending| - |f|
      && |p.queue| == |f|
      && forall k | 0 <= k < |f| ::
           && p.queue[k] == MarkFailed(pending[f[k]], o[f[k]].result.error)
           && p.errors[k] == FailureMessage(pending[f[k]].tableName, o[f[k]].result.error)
  {
    TallyFate(pending, Outcomes(rt, token, pending, replies));
  }

  /** When every outcome sent its request, the requests went out one per
      change, in queue order. */
  lemma {:induction false} TallySentInOrder(pending: seq<Change>, outcomes: seq<Exchange>)
    requires |outcomes| == |pending|
    requires forall i | 0 <= i < |outcomes| :: outcomes[i].sent.Some?
    ensures var p := Tally(pending, outcomes);
      |p.sent| == |pending| && forall i | 0 <= i < |pending| :: p.sent[i] == outcomes[i].sent.value
    decreases |pending|
  {
    if |pending| > 0 {
      var i := |pending| - 1;
      TallySentInOrder(pending[..i], outcomes[..i]);
    }
  }

  /** When every outcome failed without sending, nothing is pushed or sent
      and every change stays, marked with its own error. */
  lemma {:induction false} TallyAllFailed(pending: seq<Change>, outcomes: seq<Exchange>)
    requires |outcomes| == |pending|
    requires forall i | 0 <= i < |outcomes| :: outcomes[i].sent.None? && outcomes[i].result.Err?
    ensures var p := Tally(pending, outcomes);
      && p.pushed == 0 && p.sent == []
      && |p.queue| == |pending|
      && forall i | 0 <= i < |pending| ::
           && p.queue[i] == MarkFailed(pending[i], outcomes[i].result.error)
           && p.errors[i] == FailureMessage(pending[i].tableName, outcomes[i].result.error)
    decreases |pending|
  {
    if |pending| > 0 {
      var i := |pending| - 1;
      TallyAllFailed(pending[..i], outcomes[..i]);
    }
  }

  /** Whether the payload of `c` parses and can be routed. */
  predicate Routable(rt: Runtime, c: Change) {
    rt.parse(c.payloadJson).Ok? && Route(rt, c.tableName, c.operation, rt.parse(c.payloadJson).value).Ok?
  }

  function RouteOf(rt: Runtime, c: Change): (Verb, Endpoint, Option<string>)
    requires Routable(rt, c)
  {
    Route(rt, c.tableName, c.operation, rt.parse(c.payloadJson).value).value
  }

  /** With a token, and a payload that parses and routes at every position,
      one request is sent per change, in queue order, with the verb, endpoint
      and body `Route` gives and the bearer token. */
  lemma PushRequestsInQueueOrder(rt: Runtime, token: Option<string>, pending: seq<Change>, replies: nat -> Reply)
    requires HasToken(token)
    requires forall i | 0 <= i < |pending| :: Routable(rt, pending[i])
    ensures var p := PushChanges(rt, token, pending, replies);
      && |p.sent| == |pending|
      && forall i | 0 <= i < |pending| ::
           var route := RouteOf(rt, pending[i]);
           p.sent[i] == Request(route.0, route.1, AuthorizationHeader(token.value), route.2)
  {
    TallySentInOrder(pending, Outcomes(rt, token, pending, replies));
  }

  /** Without a token nothing is sent and nothing is pushed: every change
      fails and stays queued with one more attempt, and a change whose
      payload parses and routes fails with "Not authenticated". */
  lemma PushWithoutToken(rt: Runtime, token: Option<string>, pending: seq<Change>, replies: nat -> Reply)
    requires !HasToken(token)
    ensures var p := PushChanges(rt, token, pending, replies);
      && p.pushed == 0 && p.sent == []
      && |p.errors| == |pending| && |p.queue| == |pending|
      && forall i | 0 <= i < |pending| ::
           && p.queue[i].attempts == Some(pending[i].attempts.GetOr(0) + 1)
           && (Routable(rt, pending[i]) ==> p.errors[i] == FailureMessage(pending[i].tableName, NotAuthenticated))
  {
    var o := Outcomes(rt, token, pending, replies);
    TallyAllFailed(pending, o);
  }

  /** The server answers a soft delete with 204 and no body. The call
      still reads the body as JSON, which throws, so a delete the server
      carried out is recorded as a failure and stays in the queue. */
  lemma PushedDeleteAnsweredWithNoContentFails(rt: Runtime, token: Option<string>, c: Change, parseError: string)
    requires HasToken(token) && c.operation == "delete"
    requires rt.parse(c.payloadJson).Ok? && rt.parse(c.payloadJson).value.Obj?
    ensures var p := PushChanges(rt, token, [c], _ => Response(204, Malformed(parseError)));
      && p.pushed == 0
      && p.sent == [Request(DELETE, Member(c.tableName, Get(rt.parse(c.payloadJson).value, "id")),
                            AuthorizationHeader(token.value), None)]
      && p.errors == [FailureMessage(c.tableName, parseError)]
      && p.queue == [MarkFailed(c, parseError)]
  {
    var o := Outcomes(rt, token, [c], _ => Response(204, Malformed(parseError)));
    assert [c][..0] == [] && o[..0] == [];
  }
}
