/**
 `SyncService.sync`: one synchronisation cycle. It refuses to start while
 another cycle runs and when the device is offline; otherwise it pushes the
 local change queue, then pulls the server's changes, and reports success
 exactly when every push went through. The in-progress flag is cleared on
 every path that set it.

 The outside world is an input: connectivity, a failure of the queue read,
 the network's replies and the clock.
 */
module SyncEngine {
  import opened Values
  import opened ApiClient
  import opened Push
  import opened Pull

  /** The service's own state: the in-progress flag and the access token. */
  datatype Engine = Engine(syncing: bool, token: Option<string>)

  /** The local database: the change queue and the synced tables. */
  datatype Store = Store(queue: seq<Change>, tables: Tables)

  /** What the world supplies to one cycle: `isConnected` as NetInfo reports
      it (`null` when unknown), the error the queue read throws if it fails,
      the network's replies and the clock. */
  datatype World = World(
    connected: Option<bool>,
    queueFault: Option<string>,
    pushReplies: nat -> Reply,
    pullReplies: Table -> Reply,
    now: int)

  datatype SyncResult = SyncResult(success: bool, pushed: nat, pulled: nat, errors: seq<string>)

  /** The state after a cycle, what `sync` resolved to, and the requests it
      sent, in order. */
  datatype Cycle = Cycle(engine: Engine, store: Store, result: SyncResult, sent: seq<Request>)

  const InProgress := "Sync already in progress"
  const NoNetwork := "No network connection"

  /** `setAccessToken(token)`. */
  function SetAccessToken(e: Engine, token: Option<string>): (r: Engine)
    ensures r.token == token && r.syncing == e.syncing
  {
    e.(token := token)
  }

  /** `isOnline()`: `state.isConnected ?? false`. */
  predicate IsOnline(w: World) {
    w.connected.GetOr(false)
  }

  /** Whether a cycle gets past both guards and sets the flag. */
  predicate Starts(e: Engine, w: World) {
    !e.syncing && IsOnline(w)
  }

  /** `sync()`. `pullChanges` is called without a timestamp, so it always
      asks for the changes since 0. */
  function Sync(rt: Runtime, e: Engine, store: Store, w: World): (c: Cycle)
    ensures e.syncing ==> c == Cycle(e, store, SyncResult(false, 0, 0, [InProgress]), [])
    ensures !e.syncing && !IsOnline(w) ==> c == Cycle(e, store, SyncResult(false, 0, 0, [NoNetwork]), [])
    ensures Starts(e, w) ==> !c.engine.syncing
    ensures c.engine.token == e.token
    ensures Starts(e, w) && w.queueFault.Some? ==>
              c.result == SyncResult(false, 0, 0, [w.queueFault.value]) && c.store == store && c.sent == []
    ensures c.result.success ==> Starts(e, w) && w.queueFault.None? && c.result.errors == []
    ensures Starts(e, w) && w.queueFault.None? ==>
              c.result.pushed + |c.result.errors| == |store.queue|
  {
    if e.syncing then Cycle(e, store, SyncResult(false, 0, 0, [InProgress]), [])
    else if !IsOnline(w) then Cycle(e, store, SyncResult(false, 0, 0, [NoNetwork]), [])
    else
      var done := e.(syncing := false);
      match w.queueFault
      case Some(m) => Cycle(done, store, SyncResult(false, 0, 0, [m]), [])
      case None =>
        var push := PushChanges(rt, e.token, store.queue, w.pushReplies);
        var pull := PullChanges(rt, e.token, None, store.tables, w.pullReplies, w.now);
        Cycle(done, Store(push.queue, pull.tables),
              SyncResult(|push.errors| == 0, push.pushed, pull.pulled, push.errors),
              push.sent + pull.sent)
  }

  /** A cycle that starts pushes first, then pulls: success means exactly
      that no push failed, the errors are the push errors, and the pull
      contributes only its count, its tables and the requests after the
      push requests. */
  lemma SyncPushesThenPulls(rt: Runtime, e: Engine, store: Store, w: World)
    requires Starts(e, w) && w.queueFault.None?
    ensures var c := Sync(rt, e, store, w);
      var push := PushChanges(rt, e.token, store.queue, w.pushReplies);
      var pull := PullChanges(rt, e.token, None, store.tables, w.pullReplies, w.now);
      && c.result.success == (push.errors == [])
      && c.result.errors == push.errors
      && c.result.pushed == push.pushed
      && c.result.pulled == pull.pulled
      && c.sent == push.sent + pull.sent
      && c.store == Store(push.queue, pull.tables)
  {
  }

  /** Pull failures never show: two worlds that differ only in the pull
      replies and the clock give the same success, errors, push count and
      queue. */
  lemma SyncOutcomeIgnoresPull(rt: Runtime, e: Engine, store: Store, w: World, pullReplies: Table -> Reply, now: int)
    ensures var c1 := Sync(rt, e, store, w);
      var c2 := Sync(rt, e, store, w.(pullReplies := pullReplies, now := now));
      && c1.result.success == c2.result.success
      && c1.result.errors == c2.result.errors
      && c1.result.pushed == c2.result.pushed
      && c1.store.queue == c2.store.queue
  {
  }

  /** With a token and a queue whose payloads all parse and route, a cycle
      sends one push request per queued change, in queue order, and then the
      three changes requests, each asking for everything since 0. */
  lemma SyncRequestOrder(rt: Runtime, e: Engine, store: Store, w: World)
    requires Starts(e, w) && w.queueFault.None? && HasToken(e.token)
    requires forall i | 0 <= i < |store.queue| :: Routable(rt, store.queue[i])
    ensures var c := Sync(rt, e, store, w);
      var auth := AuthorizationHeader(e.token.value);
      && |c.sent| == |store.queue| + 3
      && (forall i | 0 <= i < |store.queue| :: c.sent[i].verb != GET)
      && c.sent[|store.queue|..] == [Request(GET, Changes("aircraft", 0), auth, None),
                                     Request(GET, Changes("flight_entries", 0), auth, None),
                                     Request(GET, Changes("pilot_profile", 0), auth, None)]
  {
    var push := PushChanges(rt, e.token, store.queue, w.pushReplies);
    var pull := PullChanges(rt, e.token, None, store.tables, w.pullReplies, w.now);
    PushRequestsInQueueOrder(rt, e.token, store.queue, w.pushReplies);
    PullChangesRequests(rt, e.token, None, store.tables, w.pullReplies, w.now);
    forall i | 0 <= i < |store.queue|
      ensures push.sent[i].verb != GET
    {
      var route := RouteOf(rt, store.queue[i]);
      assert route.0 != GET;
    }
    assert (push.sent + pull.sent)[|store.queue|..] == pull.sent;
  }

  /** Without a token a cycle that starts sends nothing, pushes and pulls
      nothing, leaves the tables alone, and succeeds only when the queue is
      empty. */
  lemma SyncWithoutToken(rt: Runtime, e: Engine, store: Store, w: World)
    requires Starts(e, w) && w.queueFault.None? && !HasToken(e.token)
    ensures var c := Sync(rt, e, store, w);
      && c.sent == []
      && c.result.pushed == 0 && c.result.pulled == 0
      && c.store.tables == store.tables
      && |c.store.queue| == |store.queue|
      && (c.result.success <==> store.queue == [])
  {
    PushWithoutToken(rt, e.token, store.queue, w.pushReplies);
    PullChangesRequests(rt, e.token, None, store.tables, w.pullReplies, w.now);
  }
}
