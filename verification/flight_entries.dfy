/**
 The server's flight-entry endpoints: the `flight-entries` handler (list,
 create, update, soft delete) and the `flight-entries-changes` feed the
 client pulls from. The document store is a sequence of JSON documents; a
 document is addressed by its `id` together with its owner's `userId`.
 Authentication, the clock and fresh ids are inputs (`Env`).
 */
module FlightEntries {
  import opened Values
  import opened Validation
  import opened DomainSchemas
  import opened ServerAuth
  import opened Sorting

  // ---------------------------------------------------------------------
  // Input validation
  // ---------------------------------------------------------------------

  /** An approach as the endpoint accepts it: unlike the app's schema, the
      type, runway and airport are unconstrained strings. */
  const InputApproachFields: map<string, Spec> := map[
    "type" := Spec(AnyString, Required),
    "runway" := Spec(AnyString, Required),
    "airport" := Spec(AnyString, Required),
    "circleToLand" := Spec(Boolean, NoFlag)
  ]

  /** `FlightEntryInput`: the fields a client may send. The owner, creation
      and update times are not among them. */
  const InputFields: map<string, Spec> := map[
    "id" := Spec(Uuid, Optional),
    "date" := Spec(AnyString, Required),
    "aircraftId" := Spec(Uuid, Required),
    "departureAirport" := Spec(ExactLength(4), Required),
    "arrivalAirport" := Spec(ExactLength(4), Required),
    "route" := Spec(AnyString, Optional),
    "totalTime" := Spec(Hours, Required),
    "picTime" := Spec(Hours, ZeroDefault),
    "sicTime" := Spec(Hours, ZeroDefault),
    "dualReceived" := Spec(Hours, ZeroDefault),
    "dualGiven" := Spec(Hours, ZeroDefault),
    "soloTime" := Spec(Hours, ZeroDefault),
    "crossCountryTime" := Spec(Hours, ZeroDefault),
    "nightTime" := Spec(Hours, ZeroDefault),
    "actualInstrumentTime" := Spec(Hours, ZeroDefault),
    "simulatedInstrumentTime" := Spec(Hours, ZeroDefault),
    "dayLandings" := Spec(Count, ZeroDefault),
    "nightLandings" := Spec(Count, ZeroDefault),
    "dayFullStopLandings" := Spec(Count, ZeroDefault),
    "nightFullStopLandings" := Spec(Count, ZeroDefault),
    "approaches" := Spec(ListOf(Shape(InputApproachFields)), Default(Arr([]))),
    "holds" := Spec(Count, ZeroDefault),
    "remarks" := Spec(AnyString, Optional),
    "instructorName" := Spec(AnyString, Optional),
    "instructorCertNumber" := Spec(AnyString, Optional),
    "instructorSignature" := Spec(AnyString, Optional)
  ]

  lemma InputIdentityDeclared()
    ensures "id" in InputFields && InputFields["id"] == Spec(Uuid, Optional)
    ensures "date" in InputFields && InputFields["date"] == Spec(AnyString, Required)
  {
  }

  /** The server-owned fields are not input fields, so a parsed body never
      carries them. */
  lemma UserIdNotInput()
    ensures "userId" !in InputFields
  {
  }

  lemma CreatedAtNotInput()
    ensures "createdAt" !in InputFields
  {
  }

  lemma UpdatedAtNotInput()
    ensures "updatedAt" !in InputFields
  {
  }

  lemma InputAirportsDeclared()
    ensures "departureAirport" in InputFields && InputFields["departureAirport"] == Spec(ExactLength(4), Required)
    ensures "arrivalAirport" in InputFields && InputFields["arrivalAirport"] == Spec(ExactLength(4), Required)
  {
  }

  lemma InputDutyTimesDeclared()
    ensures "totalTime" in InputFields && InputFields["totalTime"] == Spec(Hours, Required)
    ensures forall f | f in DutyTimes :: f in InputFields && InputFields[f] == Spec(Hours, ZeroDefault)
  {
  }

  lemma InputConditionTimesDeclared()
    ensures forall f | f in ConditionTimes :: f in InputFields && InputFields[f] == Spec(Hours, ZeroDefault)
  {
  }

  lemma InputCountsDeclared()
    ensures forall f | f in Landings + ["holds"] :: f in InputFields && InputFields[f] == Spec(Count, ZeroDefault)
    ensures "approaches" in InputFields
    ensures InputFields["approaches"] == Spec(ListOf(Shape(InputApproachFields)), Default(Arr([])))
  {
  }

  /** A valid body has 4-character departure and arrival airports. */
  lemma InputAirports(v: Value)
    requires Parse(Shape(InputFields), v).Some?
    ensures var e := Parsed(InputFields, v);
      && "departureAirport" in e && e["departureAirport"].Str? && |e["departureAirport"].s| == 4
      && "arrivalAirport" in e && e["arrivalAirport"].Str? && |e["arrivalAirport"].s| == 4
  {
    InputAirportsDeclared();
    ParsedShape(InputFields, v, "departureAirport");
    ParsedShape(InputFields, v, "arrivalAirport");
  }

  /** Every time field of a valid body is at least zero; all but
      `totalTime` are zero when omitted, and `totalTime` must be given. */
  lemma InputTimes(v: Value)
    requires Parse(Shape(InputFields), v).Some?
    ensures var e := Parsed(InputFields, v);
      && "totalTime" in v.fields
      && "totalTime" in e && e["totalTime"].Num? && e["totalTime"].n >= 0.0
      && forall f | f in DutyTimes + ConditionTimes ::
           f in e && e[f].Num? && e[f].n >= 0.0 && (f !in v.fields ==> e[f] == Num(0.0))
  {
    InputDutyTimesDeclared();
    InputConditionTimesDeclared();
    ParsedShape(InputFields, v, "totalTime");
    HoursFields(InputFields, v, DutyTimes + ConditionTimes);
  }

  /** Landing counts and holds in a valid body are non-negative integers,
      zero when omitted, and omitted approaches are the empty list. */
  lemma InputCounts(v: Value)
    requires Parse(Shape(InputFields), v).Some?
    ensures var e := Parsed(InputFields, v);
      && (forall f | f in Landings + ["holds"] ::
            f in e && e[f].Num? && IsInteger(e[f].n) && e[f].n >= 0.0
            && (f !in v.fields ==> e[f] == Num(0.0)))
      && "approaches" in e && e["approaches"].Arr?
      && ("approaches" !in v.fields ==> e["approaches"] == Arr([]))
  {
    InputCountsDeclared();
    CountFields(InputFields, v, Landings + ["holds"]);
    EmptyListDefault(InputFields, v, "approaches", Shape(InputApproachFields));
  }

  // ---------------------------------------------------------------------
  // Documents and the store
  // ---------------------------------------------------------------------

  type Doc = map<string, Value>

  /** Whether `d` is the document `(id, userId)`. */
  predicate IsDoc(d: Doc, id: string, userId: string) {
    "id" in d && d["id"] == Str(id) && "userId" in d && d["userId"] == Str(userId)
  }

  predicate SameKey(a: Doc, b: Doc) {
    "id" in a && "id" in b && a["id"] == b["id"] && "userId" in a && "userId" in b && a["userId"] == b["userId"]
  }

  /** The fields every stored flight entry has. */
  predicate WfDoc(d: Doc) {
    && "id" in d && d["id"].Str?
    && "userId" in d && d["userId"].Str?
    && "date" in d && d["date"].Str?
    && "createdAt" in d && d["createdAt"].Num?
    && "updatedAt" in d && d["updatedAt"].Num?
  }

  /** A well-formed store: complete documents, at most one per key. */
  predicate Wf(store: seq<Doc>) {
    && (forall i | 0 <= i < |store| :: WfDoc(store[i]))
    && (forall i, j | 0 <= i < j < |store| :: !SameKey(store[i], store[j]))
  }

  /** `container.item(id, userId).read()`: the position of the document. */
  function Find(store: seq<Doc>, id: string, userId: string): (r: Option<nat>)
    ensures r.Some? ==> r.value < |store| && IsDoc(store[r.value], id, userId)
    ensures r.None? ==> forall i | 0 <= i < |store| :: !IsDoc(store[i], id, userId)
    decreases |store|
  {
    if |store| == 0 then None
    else
      var i := |store| - 1;
      if IsDoc(store[i], id, userId) then Some(i)
      else
        var r := Find(store[..i], id, userId);
        assert forall j | 0 <= j < i :: store[..i][j] == store[j];
        r
  }

  // ---------------------------------------------------------------------
  // HTTP
  // ---------------------------------------------------------------------

  datatype HttpRequest = HttpRequest(
    httpMethod: string,
    authorization: Option<string>,
    id: Option<string>,                // the `{id?}` route parameter
    query: map<string, string>,
    body: Body)

  /** A response body: none, a JSON value, `{ error: message }` sent as
      JSON (a validation failure also carries Zod's `details`, not
      modelled), or the `{ error: message }` object `handleError` puts
      under `body` rather than `jsonBody`. */
  datatype ResponseBody = NoBody | Json(value: Value) | ErrorBody(error: string) | HandledError(error: string)

  datatype HttpResponse = HttpResponse(status: Value, body: ResponseBody)

  /** The inputs a request sees besides the store: token verification, the
      id `crypto.randomUUID()` returns, and the two clock readings. */
  datatype Env = Env(verify: string -> Option<Claims>, newId: string, now: int, nowAgain: int)

  datatype Outcome = Outcome(store: seq<Doc>, response: HttpResponse)

  const MissingId := "Missing id parameter"
  const NotFound := "Flight entry not found"
  const NotAllowed := "Method not allowed"
  const ValidationFailed := "Validation failed"

  /** The message of the error the store throws when a document with the
      same key already exists (its full text is the store's own). */
  const ConflictMessage := "Entity with the specified id already exists in the system."

  /** The message of the error the store throws for a `LIMIT` that is not a
      non-negative integer. */
  const BadLimitMessage := "The LIMIT value must be a non-negative integer."

  function Failure(t: Thrown): HttpResponse {
    var reply := HandleError(t);
    HttpResponse(reply.status, HandledError(reply.message))
  }

  function AsArray(docs: seq<Doc>): (v: Value)
    ensures v.Arr? && |v.items| == |docs|
    ensures forall i | 0 <= i < |docs| :: v.items[i] == Obj(docs[i])
  {
    Arr(seq(|docs|, i requires 0 <= i < |docs| => Obj(docs[i])))
  }

  /** `request.json()` followed by `FlightEntryInput.parse`: the parsed
      fields, a 400 for a body that fails validation, or the 500 that
      `handleError` makes of the parser's `SyntaxError`. */
  function ReadInput(schema: map<string, Spec>, body: Body): (r: Result<map<string, Value>, HttpResponse>)
    ensures body.Malformed? ==> r == Err(HttpResponse(Status(500), HandledError(body.message)))
    ensures body.Decoded? && Parse(Shape(schema), body.value).None? ==>
              r == Err(HttpResponse(Status(400), ErrorBody(ValidationFailed)))
    ensures r.Ok? <==> body.Decoded? && Parse(Shape(schema), body.value).Some?
    ensures r.Ok? ==> r.value == Parsed(schema, body.value)
  {
    match body
    case Malformed(m) => Err(Failure(ErrorObject(m, None)))
    case Decoded(v) =>
      if Parse(Shape(schema), v).None? then Err(HttpResponse(Status(400), ErrorBody(ValidationFailed)))
      else Ok(Parsed(schema, v))
  }

  // ---------------------------------------------------------------------
  // Queries
  // ---------------------------------------------------------------------

  predicate Owned(d: Doc, userId: string) {
    "userId" in d && d["userId"] == Str(userId)
  }

  /** `c.updatedAt > @since`, where a `since` that is not a number (NaN,
      sent as `null`) matches nothing. */
  predicate UpdatedAfter(d: Doc, since: Option<int>) {
    since.Some? && "updatedAt" in d && d["updatedAt"].Num? && d["updatedAt"].n > since.value as real
  }

  function DateOf(d: Doc): string {
    if "date" in d && d["date"].Str? then d["date"].s else ""
  }

  function UpdatedOf(d: Doc): real {
    if "updatedAt" in d && d["updatedAt"].Num? then d["updatedAt"].n else 0.0
  }

  /** `ORDER BY c.date DESC`. */
  predicate LaterDateFirst(a: Doc, b: Doc) {
    LexLe(DateOf(b), DateOf(a))
  }

  /** `ORDER BY c.updatedAt ASC`. */
  predicate EarlierUpdateFirst(a: Doc, b: Doc) {
    UpdatedOf(a) <= UpdatedOf(b)
  }

  lemma LaterDateFirstIsTotalPreorder()
    ensures TotalPreorder(LaterDateFirst)
  {
    forall a: Doc, b: Doc
      ensures LaterDateFirst(a, b) || LaterDateFirst(b, a)
    {
      LexLeTotal(DateOf(a), DateOf(b));
    }
    forall a: Doc, b: Doc, c: Doc | LaterDateFirst(a, b) && LaterDateFirst(b, c)
      ensures LaterDateFirst(a, c)
    {
      LexLeTransitive(DateOf(c), DateOf(b), DateOf(a));
    }
  }

  function Min(a: int, b: int): int {
    if a <= b then a else b
  }

  /** The query parameter `name`, where an empty value counts as absent
      (`request.query.get(name) || fallback`). */
  function QueryOr(query: map<string, string>, name: string, fallback: string): string {
    if name in query && query[name] != "" then query[name] else fallback
  }

  /** The GET `WHERE` clause: the caller's entries, and when a `since`
      parameter is given (`Some`), only those updated after it. */
  predicate Selected(d: Doc, userId: string, since: Option<Option<int>>) {
    Owned(d, userId) && (since.Some? ==> UpdatedAfter(d, since.value))
  }

  /** The GET query once its parameters are read: the selected entries,
      latest date first, at most `limit` of them. */
  function Query(store: seq<Doc>, userId: string, since: Option<Option<int>>, limit: nat): (r: seq<Doc>)
    ensures |r| <= limit
    ensures SortedBy(r, LaterDateFirst)
    ensures forall i | 0 <= i < |r| :: Selected(r[i], userId, since)
    ensures forall d :: multiset(r)[d] <= multiset(store)[d]
    ensures |Filter(store, d => Selected(d, userId, since))| <= limit ==>
              forall d :: multiset(r)[d] == if Selected(d, userId, since) then multiset(store)[d] else 0
  {
    var matching := Filter(store, d => Selected(d, userId, since));
    LaterDateFirstIsTotalPreorder();
    var sorted := Sort(matching, LaterDateFirst);
    var n := Min(limit, |sorted|);
    TakeSorted(sorted, n, LaterDateFirst);
    assert forall i | 0 <= i < n :: sorted[..n][i] in multiset(matching);
    sorted[..n]
  }

  /** The GET `since` parameter: absent when empty, else its `parseInt`. */
  function SinceParameter(query: map<string, string>): Option<Option<int>> {
    if "since" in query && query["since"] != "" then Some(ParseInt(query["since"])) else None
  }

  /** The GET handler's query: a `limit` that is not a non-negative integer
      makes the store throw; otherwise the result of `Query`. */
  function ListEntries(store: seq<Doc>, userId: string, query: map<string, string>): (r: Result<seq<Doc>, Thrown>)
    ensures var limit := ParseInt(QueryOr(query, "limit", "100"));
      && (r.Err? <==> limit.None? || limit.value < 0)
      && (r.Ok? ==> r.value == Query(store, userId, SinceParameter(query), limit.value))
  {
    var limit := ParseInt(QueryOr(query, "limit", "100"));
    if limit.None? || limit.value < 0 then Err(ErrorObject(BadLimitMessage, None))
    else Ok(Query(store, userId, SinceParameter(query), limit.value))
  }

  /** The documents the changes feed returns for `since`. */
  function ChangedSince(store: seq<Doc>, userId: string, since: Option<int>): (r: seq<Doc>)
    ensures SortedBy(r, EarlierUpdateFirst)
    ensures since.None? ==> r == []
    ensures forall d :: multiset(r)[d] ==
              if Owned(d, userId) && UpdatedAfter(d, since) then multiset(store)[d] else 0
  {
    var matching := Filter(store, d => Owned(d, userId) && UpdatedAfter(d, since));
    Sort(matching, EarlierUpdateFirst)
  }

  /** The `flight-entries-changes` handler: the caller's entries updated
      after `since` (default 0), in the order they were updated. */
  function ChangesFeed(store: seq<Doc>, req: HttpRequest, env: Env): (r: HttpResponse)
    ensures VerifyAuth(req.authorization, env.verify).Err? ==> r.status == Status(401)
    ensures VerifyAuth(req.authorization, env.verify).Ok? ==>
              var userId := VerifyAuth(req.authorization, env.verify).value.userId;
              r == HttpResponse(Status(200), Json(AsArray(ChangedSince(store, userId, ParseInt(QueryOr(req.query, "since", "0"))))))
  {
    match VerifyAuth(req.authorization, env.verify)
    case Err(t) => Failure(t)
    case Ok(auth) =>
      var since := ParseInt(QueryOr(req.query, "since", "0"));
      HttpResponse(Status(200), Json(AsArray(ChangedSince(store, auth.userId, since))))
  }

  // ---------------------------------------------------------------------
  // Transitions
  // ---------------------------------------------------------------------

  /** The entry a successful POST stores. */
  function NewEntry(parsed: map<string, Value>, userId: string, env: Env): (e: Doc)
    ensures e.Keys == parsed.Keys + {"id", "userId", "createdAt", "updatedAt"}
    ensures e["userId"] == Str(userId)
    ensures e["createdAt"] == Num(env.now as real) && e["updatedAt"] == Num(env.now as real)
    ensures "id" in parsed && Truthy(parsed["id"]) ==> e["id"] == parsed["id"]
    ensures !("id" in parsed && Truthy(parsed["id"])) ==> e["id"] == Str(env.newId)
    ensures forall f | f in parsed && f !in {"id", "userId", "createdAt", "updatedAt"} :: e[f] == parsed[f]
  {
    var id := if "id" in parsed && Truthy(parsed["id"]) then parsed["id"] else Str(env.newId);
    parsed["id" := id]["userId" := Str(userId)]["createdAt" := Num(env.now as real)]["updatedAt" := Num(env.now as real)]
  }

  /** The entry a successful PUT stores: the parsed fields over the
      existing ones, with the id and owner of the request. */
  function Overlay(existing: Doc, parsed: map<string, Value>, id: string, userId: string, now: int): (d: Doc)
    ensures d.Keys == existing.Keys + parsed.Keys + {"id", "userId", "updatedAt"}
    ensures IsDoc(d, id, userId) && d["updatedAt"] == Num(now as real)
    ensures forall f | f in parsed && f !in {"id", "userId", "updatedAt"} :: d[f] == parsed[f]
    ensures forall f | f in existing && f !in parsed && f !in {"id", "userId", "updatedAt"} :: d[f] == existing[f]
  {
    (existing + parsed)["id" := Str(id)]["userId" := Str(userId)]["updatedAt" := Num(now as real)]
  }

  /** The entry a successful DELETE leaves: marked deleted at one clock
      reading and updated at the next. */
  function MarkDeleted(existing: Doc, now: int, nowAgain: int): (d: Doc)
    ensures d.Keys == existing.Keys + {"deletedAt", "updatedAt"}
    ensures d["deletedAt"] == Num(now as real) && d["updatedAt"] == Num(nowAgain as real)
    ensures forall f | f in existing && f !in {"deletedAt", "updatedAt"} :: d[f] == existing[f]
  {
    existing["deletedAt" := Num(now as real)]["updatedAt" := Num(nowAgain as real)]
  }

  /** POST: store the parsed entry under the given id or a fresh one, owned
      by the caller, created and updated now. */
  function Create(schema: map<string, Spec>, store: seq<Doc>, userId: string, body: Body, env: Env): (o: Outcome)
    ensures ReadInput(schema, body).Err? ==> o == Outcome(store, ReadInput(schema, body).error)
  {
    match ReadInput(schema, body)
    case Err(response) => Outcome(store, response)
    case Ok(parsed) =>
      var entry := NewEntry(parsed, userId, env);
      if exists i | 0 <= i < |store| :: SameKey(store[i], entry) then
        Outcome(store, Failure(ErrorObject(ConflictMessage, None)))
      else
        Outcome(store + [entry], HttpResponse(Status(201), Json(Obj(entry))))
  }

  /** PUT: overlay the parsed fields on the caller's existing entry, keeping
      its id and owner and stamping the update time. */
  function Update(schema: map<string, Spec>, store: seq<Doc>, userId: string, id: Option<string>, body: Body, env: Env): (o: Outcome)
    ensures id.None? || id.value == "" ==> o == Outcome(store, HttpResponse(Status(400), ErrorBody(MissingId)))
  {
    if id.None? || id.value == "" then Outcome(store, HttpResponse(Status(400), ErrorBody(MissingId)))
    else match ReadInput(schema, body)
      case Err(response) => Outcome(store, response)
      case Ok(parsed) =>
        match Find(store, id.value, userId)
        case None => Outcome(store, HttpResponse(Status(404), ErrorBody(NotFound)))
        case Some(i) =>
          var updated := Overlay(store[i], parsed, id.value, userId, env.now);
          Outcome(store[i := updated], HttpResponse(Status(200), Json(Obj(updated))))
  }

  /** DELETE: mark the caller's entry deleted; the document stays. */
  function SoftDelete(store: seq<Doc>, userId: string, id: Option<string>, env: Env): (o: Outcome)
    ensures |o.store| == |store|
    ensures id.None? || id.value == "" ==> o == Outcome(store, HttpResponse(Status(400), ErrorBody(MissingId)))
  {
    if id.None? || id.value == "" then Outcome(store, HttpResponse(Status(400), ErrorBody(MissingId)))
    else match Find(store, id.value, userId)
      case None => Outcome(store, HttpResponse(Status(404), ErrorBody(NotFound)))
      case Some(i) =>
        var deleted := MarkDeleted(store[i], env.now, env.nowAgain);
        Outcome(store[i := deleted], HttpResponse(Status(204), NoBody))
  }

  /** The handler once the caller is known, on the upper-cased method. */
  function Dispatch(schema: map<string, Spec>, store: seq<Doc>, userId: string, verb: string,
                    id: Option<string>, query: map<string, string>, body: Body, env: Env): (o: Outcome)
    ensures verb !in ["POST", "PUT", "DELETE"] ==> o.store == store
    ensures verb !in ["GET", "POST", "PUT", "DELETE"] ==> o.response == HttpResponse(Status(405), ErrorBody(NotAllowed))
  {
    if verb == "GET" then
      match ListEntries(store, userId, query)
      case Err(t) => Outcome(store, Failure(t))
      case Ok(docs) => Outcome(store, HttpResponse(Status(200), Json(AsArray(docs))))
    else if verb == "POST" then Create(schema, store, userId, body, env)
    else if verb == "PUT" then Update(schema, store, userId, id, body, env)
    else if verb == "DELETE" then SoftDelete(store, userId, id, env)
    else Outcome(store, HttpResponse(Status(405), ErrorBody(NotAllowed)))
  }

  /** The `flight-entries` handler: authenticate, then dispatch on the
      upper-cased method. */
  function HandleWith(schema: map<string, Spec>, store: seq<Doc>, req: HttpRequest, env: Env): (o: Outcome)
    ensures VerifyAuth(req.authorization, env.verify).Err? ==>
              o.store == store && o.response.status == Status(401)
    ensures ToUpperAscii(req.httpMethod) !in ["POST", "PUT", "DELETE"] ==> o.store == store
  {
    match VerifyAuth(req.authorization, env.verify)
    case Err(t) => Outcome(store, Failure(t))
    case Ok(auth) =>
      Dispatch(schema, store, auth.userId, ToUpperAscii(req.httpMethod), req.id, req.query, req.body, env)
  }

  /** The `flight-entries` function: the handler with the endpoint's input
      schema. */
  function Handle(store: seq<Doc>, req: HttpRequest, env: Env): (o: Outcome)
    ensures VerifyAuth(req.authorization, env.verify).Err? ==>
              o.store == store && o.response.status == Status(401)
  {
    HandleWith(InputFields, store, req, env)
  }

  // ---------------------------------------------------------------------
  // Properties
  // ---------------------------------------------------------------------

  /** A request that fails leaves the store as it was: only 201, 200 and
      204 answers come with a changed store. */
  lemma FailuresChangeNothing(schema: map<string, Spec>, store: seq<Doc>, req: HttpRequest, env: Env)
    ensures var o := HandleWith(schema, store, req, env);
      o.store != store ==> o.response.status in {Status(201), Status(200), Status(204)}
  {
  }

  /** A request with no valid bearer token is answered 401 and changes
      nothing, whatever its method. */
  lemma UnauthenticatedRejected(schema: map<string, Spec>, store: seq<Doc>, req: HttpRequest, env: Env)
    requires BearerToken(req.authorization).None? || env.verify(BearerToken(req.authorization).value).None?
    ensures HandleWith(schema, store, req, env).store == store
    ensures HandleWith(schema, store, req, env).response.status == Status(401)
    ensures ChangesFeed(store, req, env).status == Status(401)
  {
  }

  /** The method name is matched without regard to case. */
  lemma HandleIgnoresMethodCase(schema: map<string, Spec>, store: seq<Doc>, req: HttpRequest, env: Env)
    ensures HandleWith(schema, store, req, env) == HandleWith(schema, store, req.(httpMethod := ToUpperAscii(req.httpMethod)), env)
  {
    ToUpperAsciiIdempotent(req.httpMethod);
  }

  /** What the handler relies on in its input schema: a required string
      date, an optional UUID id, and none of the fields the server owns. */
  predicate EntrySchema(schema: map<string, Spec>) {
    && "date" in schema && schema["date"] == Spec(AnyString, Required)
    && "id" in schema && schema["id"] == Spec(Uuid, Optional)
    && "userId" !in schema && "createdAt" !in schema && "updatedAt" !in schema
  }

  lemma InputFieldsIsEntrySchema()
    ensures EntrySchema(InputFields)
  {
    InputIdentityDeclared();
    UserIdNotInput();
    CreatedAtNotInput();
    UpdatedAtNotInput();
  }

  /** A body parsed by such a schema has a string date and, if it has an
      id, a UUID string; it never carries the owner or the creation or
      update times. */
  lemma ParsedEntry(schema: map<string, Spec>, v: Value)
    requires EntrySchema(schema) && Parse(Shape(schema), v).Some?
    ensures var p := Parsed(schema, v);
      && "date" in p && p["date"].Str?
      && ("id" in p ==> p["id"].Str? && IsUuid(p["id"].s))
      && "userId" !in p && "createdAt" !in p && "updatedAt" !in p
  {
    ParsedShape(schema, v, "date");
    ParsedShape(schema, v, "id");
    ParsedShape(schema, v, "userId");
    ParsedShape(schema, v, "createdAt");
    ParsedShape(schema, v, "updatedAt");
  }

  /** A POST with a valid body either conflicts with an existing entry of
      the same id and owner, answering 500 and storing nothing, or appends
      the new entry and answers 201 with it. */
  lemma CreateStoresEntry(schema: map<string, Spec>, store: seq<Doc>, userId: string, body: Body, env: Env)
    requires ReadInput(schema, body).Ok?
    ensures var o := Create(schema, store, userId, body, env);
      var e := NewEntry(ReadInput(schema, body).value, userId, env);
      && ((exists i | 0 <= i < |store| :: SameKey(store[i], e)) ==>
            o.store == store && o.response == HttpResponse(Status(500), HandledError(ConflictMessage)))
      && (!(exists i | 0 <= i < |store| :: SameKey(store[i], e)) ==>
            o.store == store + [e] && o.response == HttpResponse(Status(201), Json(Obj(e))))
  {
  }

  /** After a PUT that succeeds, the overlaid entry sits where the old one
      was, keeping its creation time; every other entry is untouched. */
  lemma UpdateOverlaysEntry(schema: map<string, Spec>, store: seq<Doc>, userId: string, id: string, body: Body, env: Env)
    requires EntrySchema(schema)
    requires id != "" && ReadInput(schema, body).Ok? && Find(store, id, userId).Some?
    ensures var i := Find(store, id, userId).value;
      var o := Update(schema, store, userId, Some(id), body, env);
      && |o.store| == |store|
      && (forall j | 0 <= j < |store| && j != i :: o.store[j] == store[j])
      && o.store[i] == Overlay(store[i], ReadInput(schema, body).value, id, userId, env.now)
      && ("createdAt" in store[i] ==> "createdAt" in o.store[i] && o.store[i]["createdAt"] == store[i]["createdAt"])
      && o.response == HttpResponse(Status(200), Json(Obj(o.store[i])))
  {
    ParsedEntry(schema, body.value);
  }

  /** A PUT that leaves out a field with a default resets the stored value
      to that default: parsing fills the default in, and the spread then
      writes it over the existing value. */
  lemma PutResetsOmittedDefaults(store: seq<Doc>, userId: string, id: string, body: Body, env: Env)
    requires id != "" && ReadInput(InputFields, body).Ok? && Find(store, id, userId).Some?
    ensures var d := Update(InputFields, store, userId, Some(id), body, env).store[Find(store, id, userId).value];
      && (forall f | f in DutyTimes + ConditionTimes + Landings + ["holds"] && f !in body.value.fields ::
            f in d && d[f] == Num(0.0))
      && ("approaches" !in body.value.fields ==> "approaches" in d && d["approaches"] == Arr([]))
  {
    InputFieldsIsEntrySchema();
    InputTimes(body.value);
    InputCounts(body.value);
    UpdateOverlaysEntry(InputFields, store, userId, id, body, env);
  }

  /** A PUT or DELETE for an entry the caller does not own (or that does
      not exist) is answered 404 and changes nothing. */
  lemma MissingEntryNotFound(schema: map<string, Spec>, store: seq<Doc>, userId: string, id: string, body: Body, env: Env)
    requires id != "" && Find(store, id, userId).None?
    ensures SoftDelete(store, userId, Some(id), env) == Outcome(store, HttpResponse(Status(404), ErrorBody(NotFound)))
    ensures ReadInput(schema, body).Ok? ==>
              Update(schema, store, userId, Some(id), body, env) == Outcome(store, HttpResponse(Status(404), ErrorBody(NotFound)))
  {
  }

  /** DELETE is a soft delete: the entry stays in place, marked deleted,
      and the answer is 204 with no body. */
  lemma SoftDeleteKeepsEntry(store: seq<Doc>, userId: string, id: string, env: Env)
    requires id != "" && Find(store, id, userId).Some?
    ensures var i := Find(store, id, userId).value;
      var o := SoftDelete(store, userId, Some(id), env);
      && |o.store| == |store|
      && (forall j | 0 <= j < |store| && j != i :: o.store[j] == store[j])
      && o.store[i] == MarkDeleted(store[i], env.now, env.nowAgain)
      && IsDoc(o.store[i], id, userId)
      && o.response == HttpResponse(Status(204), NoBody)
  {
  }

  /** Every request keeps the store well formed: complete entries, at most
      one per id and owner. */
  lemma HandlePreservesWf(schema: map<string, Spec>, store: seq<Doc>, req: HttpRequest, env: Env)
    requires EntrySchema(schema)
    requires Wf(store)
    ensures Wf(HandleWith(schema, store, req, env).store)
  {
    var o := HandleWith(schema, store, req, env);
    if o.store != store {
      var auth := VerifyAuth(req.authorization, env.verify).value;
      var verb := ToUpperAscii(req.httpMethod);
      if verb == "POST" {
        CreatePreservesWf(schema, store, auth.userId, req.body, env);
      } else if verb == "PUT" {
        UpdatePreservesWf(schema, store, auth.userId, req.id.value, req.body, env);
      } else {
        assert verb == "DELETE";
        SoftDeletePreservesWf(store, auth.userId, req.id.value, env);
      }
    }
  }

  lemma CreatePreservesWf(schema: map<string, Spec>, store: seq<Doc>, userId: string, body: Body, env: Env)
    requires EntrySchema(schema)
    requires Wf(store)
    ensures Wf(Create(schema, store, userId, body, env).store)
  {
    if ReadInput(schema, body).Ok? {
      var parsed := ReadInput(schema, body).value;
      var e := NewEntry(parsed, userId, env);
      ParsedEntry(schema, body.value);
      assert WfDoc(e);
      var o := Create(schema, store, userId, body, env);
      if o.store != store {
        assert o.store == store + [e];
        forall j, k | 0 <= j < k < |o.store|
          ensures !SameKey(o.store[j], o.store[k])
        {
          if k < |store| {
            assert !SameKey(store[j], store[k]);
          }
        }
      }
    }
  }

  lemma UpdatePreservesWf(schema: map<string, Spec>, store: seq<Doc>, userId: string, id: string, body: Body, env: Env)
    requires EntrySchema(schema)
    requires Wf(store)
    ensures Wf(Update(schema, store, userId, Some(id), body, env).store)
  {
    if id != "" && ReadInput(schema, body).Ok? && Find(store, id, userId).Some? {
      var i := Find(store, id, userId).value;
      var o := Update(schema, store, userId, Some(id), body, env);
      ParsedEntry(schema, body.value);
      assert WfDoc(o.store[i]);
      forall j, k | 0 <= j < k < |o.store|
        ensures !SameKey(o.store[j], o.store[k])
      {
        assert !SameKey(store[j], store[k]);
      }
    }
  }

  lemma SoftDeletePreservesWf(store: seq<Doc>, userId: string, id: string, env: Env)
    requires Wf(store)
    ensures Wf(SoftDelete(store, userId, Some(id), env).store)
  {
    if id != "" && Find(store, id, userId).Some? {
      var o := SoftDelete(store, userId, Some(id), env);
      forall j, k | 0 <= j < k < |o.store|
        ensures !SameKey(o.store[j], o.store[k])
      {
        assert !SameKey(store[j], store[k]);
      }
    }
  }

  /** In a well-formed store the entry a POST stores is the one a later
      lookup of its id and owner finds. */
  lemma CreatedEntryIsFound(schema: map<string, Spec>, store: seq<Doc>, userId: string, body: Body, env: Env)
    requires EntrySchema(schema)
    requires Wf(store) && ReadInput(schema, body).Ok?
    requires Create(schema, store, userId, body, env).response.status == Status(201)
    ensures var e := NewEntry(ReadInput(schema, body).value, userId, env);
      && e["id"].Str?
      && Find(Create(schema, store, userId, body, env).store, e["id"].s, userId) == Some(|store|)
  {
    var e := NewEntry(ReadInput(schema, body).value, userId, env);
    ParsedEntry(schema, body.value);
    CreatePreservesWf(schema, store, userId, body, env);
  }

  /** Deletes reach other devices: once an entry is soft deleted at a
      second clock reading later than `since`, the changes feed for its
      owner lists the deleted entry. */
  lemma DeletedEntryInFeed(store: seq<Doc>, userId: string, id: string, env: Env, since: int)
    requires id != "" && Find(store, id, userId).Some? && env.nowAgain > since
    ensures var o := SoftDelete(store, userId, Some(id), env);
      var deleted := o.store[Find(store, id, userId).value];
      && "deletedAt" in deleted
      && deleted in ChangedSince(o.store, userId, Some(since))
  {
    var i := Find(store, id, userId).value;
    var o := SoftDelete(store, userId, Some(id), env);
    var deleted := o.store[i];
    assert Owned(deleted, userId) && UpdatedAfter(deleted, Some(since));
    assert deleted in multiset(o.store);
    assert multiset(ChangedSince(o.store, userId, Some(since)))[deleted] > 0;
  }

  /** Without a `since`, GET lists the caller's entries, all of them when
      there are no more than `limit`. */
  lemma ListAllOwned(store: seq<Doc>, userId: string, limit: nat)
    requires |Filter(store, d => Owned(d, userId))| <= limit
    ensures forall d :: multiset(Query(store, userId, None, limit))[d] == if Owned(d, userId) then multiset(store)[d] else 0
  {
    assert Filter(store, d => Selected(d, userId, None)) == Filter(store, d => Owned(d, userId)) by {
      FilterSamePredicate(store, d => Selected(d, userId, None), d => Owned(d, userId));
    }
  }

  /** The deployed handler keeps the store well formed. */
  lemma HandleKeepsStoreWf(store: seq<Doc>, req: HttpRequest, env: Env)
    requires Wf(store)
    ensures Wf(Handle(store, req, env).store)
  {
    InputFieldsIsEntrySchema();
    HandlePreservesWf(InputFields, store, req, env);
  }
}
