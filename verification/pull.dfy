/**
 `pullChanges`: asks the server for the changes of each synced table, in a
 fixed order, and applies every returned server record to the local table.
 A server record whose `id` equals a local record's `serverId` overwrites
 that record's mapped fields (the server wins); any other server record
 becomes a new local record linked to it. A table whose request fails is
 skipped without affecting the others, and the failure is not reported.
 */
module Pull {
  import opened Values
  import opened ApiClient
  import opened FieldMapper

  datatype Table = Aircraft | FlightEntries | PilotProfile

  /** The name the client uses for a table, in its URLs and its store. */
  function TableName(t: Table): string {
    match t
    case Aircraft => "aircraft"
    case FlightEntries => "flight_entries"
    case PilotProfile => "pilot_profile"
  }

  /** The tables `pullChanges` visits, in order. */
  const PullOrder: seq<Table> := [Aircraft, FlightEntries, PilotProfile]

  /** A local record: the id of the server record it is linked to (`null`
      until it is linked), when it was last synced, and the properties the
      mapper writes. */
  datatype LocalRecord = LocalRecord(serverId: Value, syncedAt: Value, props: map<string, Value>)

  /** The three synced local tables. */
  datatype Tables = Tables(aircraft: seq<LocalRecord>, flightEntries: seq<LocalRecord>, pilotProfile: seq<LocalRecord>)
  {
    function Records(t: Table): seq<LocalRecord> {
      match t
      case Aircraft => aircraft
      case FlightEntries => flightEntries
      case PilotProfile => pilotProfile
    }

    function With(t: Table, records: seq<LocalRecord>): (r: Tables)
      ensures r.Records(t) == records
      ensures forall u | u != t :: r.Records(u) == Records(u)
    {
      match t
      case Aircraft => this.(aircraft := records)
      case FlightEntries => this.(flightEntries := records)
      case PilotProfile => this.(pilotProfile := records)
    }
  }

  /** `records.find(r => r.serverId === id)`, as a position. */
  function FirstMatch(records: seq<LocalRecord>, id: Option<Value>): (r: Option<nat>)
    ensures r.Some? ==> r.value < |records| && StrictEquals(records[r.value].serverId, id)
    ensures r.Some? ==> forall j | 0 <= j < r.value :: !StrictEquals(records[j].serverId, id)
    ensures r.None? ==> forall j | 0 <= j < |records| :: !StrictEquals(records[j].serverId, id)
    decreases |records|
  {
    if |records| == 0 then None
    else if StrictEquals(records[0].serverId, id) then Some(0)
    else match FirstMatch(records[1..], id)
      case None => None
      case Some(k) => Some(k + 1)
  }

  /** What `record.serverId = id` stores: the store keeps strings in the
      optional `server_id` column and turns anything else into `null`. */
  function StoredServerId(id: Option<Value>): (v: Value)
    ensures v.Str? || v.Null?
    ensures id.Some? && id.value.Str? ==> v == id.value
  {
    if id.Some? && id.value.Str? then id.value else Null
  }

  /** Applying one server record: the first local record linked to its id
      is overwritten by the mapper and stamped with `now`; otherwise a new
      record, linked to the id, is appended. (A `null` server record throws
      instead; see `ApplyPage`.) */
  function ApplyRecord(rt: Runtime, records: seq<LocalRecord>, server: Value, now: int): (r: seq<LocalRecord>)
    ensures var m := FirstMatch(records, Get(server, "id"));
      m.Some? ==> (
        && |r| == |records|
        && r[m.value] == LocalRecord(records[m.value].serverId, Num(now as real),
                                     MapServerToLocal(rt, records[m.value].props, server))
        && forall j | 0 <= j < |records| && j != m.value :: r[j] == records[j])
    ensures var m := FirstMatch(records, Get(server, "id"));
      m.None? ==> r == records + [LocalRecord(StoredServerId(Get(server, "id")), Num(now as real),
                                              MapServerToLocal(rt, map[], server))]
  {
    var id := Get(server, "id");
    match FirstMatch(records, id)
    case Some(i) =>
      records[i := records[i].(props := MapServerToLocal(rt, records[i].props, server),
                               syncedAt := Num(now as real))]
    case None =>
      records + [LocalRecord(StoredServerId(id), Num(now as real), MapServerToLocal(rt, map[], server))]
  }

  /** The elements `for (const serverRecord of changes)` visits, for a page
      whose `length` is positive: the items of an array, or the characters of
      a string. Any other page (an object, a number, a boolean, an empty
      array or string) applies nothing: `length` is missing or zero, or the
      object is not iterable and the loop throws before its first record. */
  function PageItems(page: Value): seq<Value> {
    match page
    case Arr(items) => items
    case Str(s) => seq(|s|, i requires 0 <= i < |s| => Str([s[i]]))
    case _ => []
  }

  datatype Applied = Applied(records: seq<LocalRecord>, count: nat)

  /** The inner loop over one page. Each applied record is committed and
      counted at once; a `null` element throws, which ends the loop, and the
      records before it stay applied. */
  function ApplyPage(rt: Runtime, records: seq<LocalRecord>, items: seq<Value>, now: int): (a: Applied)
    ensures a.count <= |items|
    ensures forall j | 0 <= j < a.count :: !items[j].Null?
    ensures a.count < |items| ==> items[a.count].Null?
    ensures |records| <= |a.records| <= |records| + a.count
    ensures forall j | 0 <= j < |records| :: a.records[j].serverId == records[j].serverId
    decreases |items|
  {
    if |items| == 0 || items[0].Null? then Applied(records, 0)
    else
      var rest := ApplyPage(rt, ApplyRecord(rt, records, items[0], now), items[1..], now);
      Applied(rest.records, rest.count + 1)
  }

  /** The outcome of pulling one table. */
  datatype TablePull = TablePull(sent: Option<Request>, records: seq<LocalRecord>, count: nat)

  /** One iteration of the table loop. The request for the changes since
      `since` fails, or returns a page; a `null` page throws on `length`.
      Every error is caught and logged: a failed request changes nothing,
      and a page that throws part-way keeps what it applied. */
  function PullTable(rt: Runtime, token: Option<string>, since: int, t: Table,
                     records: seq<LocalRecord>, reply: Reply, now: int): (p: TablePull)
    ensures p.sent.Some? <==> HasToken(token)
    ensures p.sent.Some? ==> p.sent.value == Request(GET, Changes(TableName(t), since), AuthorizationHeader(token.value), None)
    ensures Call(rt, token, GET, Changes(TableName(t), since), None, reply).result.Err? ==>
              p.records == records && p.count == 0
    ensures !HasToken(token) ==> p.records == records && p.count == 0
  {
    var x := Call(rt, token, GET, Changes(TableName(t), since), None, reply);
    match x.result
    case Err(_) => TablePull(x.sent, records, 0)
    case Ok(page) =>
      if page.Null? then TablePull(x.sent, records, 0)
      else
        var a := ApplyPage(rt, records, PageItems(page), now);
        TablePull(x.sent, a.records, a.count)
  }

  datatype PullResult = PullResult(tables: Tables, pulled: nat, sent: seq<Request>)

  function SentOf(p: TablePull): seq<Request> {
    if p.sent.Some? then [p.sent.value] else []
  }

  /** The table loop over `order`; `replies(t)` answers the request for `t`. */
  function PullTables(rt: Runtime, token: Option<string>, since: int, order: seq<Table>,
                      tables: Tables, replies: Table -> Reply, now: int): PullResult
    decreases |order|
  {
    if |order| == 0 then PullResult(tables, 0, [])
    else
      var prev := PullTables(rt, token, since, order[..|order| - 1], tables, replies, now);
      var t := order[|order| - 1];
      var p := PullTable(rt, token, since, t, prev.tables.Records(t), replies(t), now);
      PullResult(prev.tables.With(t, p.records), prev.pulled + p.count, prev.sent + SentOf(p))
  }

  /** `pullChanges(lastSyncTimestamp)`: `since` is the timestamp, or 0 when
      it is missing. */
  function PullChanges(rt: Runtime, token: Option<string>, lastSync: Option<int>,
                       tables: Tables, replies: Table -> Reply, now: int): PullResult
  {
    PullTables(rt, token, lastSync.GetOr(0), PullOrder, tables, replies, now)
  }

  // ---------------------------------------------------------------------
  // Properties
  // ---------------------------------------------------------------------

  /** The outcome for table `t` on its own. */
  function TableOutcome(rt: Runtime, token: Option<string>, since: int, t: Table,
                        tables: Tables, replies: Table -> Reply, now: int): TablePull
  {
    PullTable(rt, token, since, t, tables.Records(t), replies(t), now)
  }

  /** The loop over the three tables, one step at a time. */
  lemma PullChangesSteps(rt: Runtime, token: Option<string>, lastSync: Option<int>,
                         tables: Tables, replies: Table -> Reply, now: int)
    ensures var since := lastSync.GetOr(0);
      var r1 := PullTables(rt, token, since, [Aircraft], tables, replies, now);
      var r2 := PullTables(rt, token, since, [Aircraft, FlightEntries], tables, replies, now);
      var a := TableOutcome(rt, token, since, Aircraft, tables, replies, now);
      var f := PullTable(rt, token, since, FlightEntries, r1.tables.Records(FlightEntries), replies(FlightEntries), now);
      var p := PullTable(rt, token, since, PilotProfile, r2.tables.Records(PilotProfile), replies(PilotProfile), now);
      && r1 == PullResult(tables.With(Aircraft, a.records), a.count, SentOf(a))
      && r2 == PullResult(r1.tables.With(FlightEntries, f.records), r1.pulled + f.count, r1.sent + SentOf(f))
      && PullChanges(rt, token, lastSync, tables, replies, now)
           == PullResult(r2.tables.With(PilotProfile, p.records), r2.pulled + p.count, r2.sent + SentOf(p))
  {
    var since := lastSync.GetOr(0);
    PullTablesStep(rt, token, since, [], Aircraft, tables, replies, now);
    PullTablesStep(rt, token, since, [Aircraft], FlightEntries, tables, replies, now);
    PullTablesStep(rt, token, since, [Aircraft, FlightEntries], PilotProfile, tables, replies, now);
    assert [] + [Aircraft] == [Aircraft];
    assert [Aircraft] + [FlightEntries] == [Aircraft, FlightEntries];
    assert [Aircraft, FlightEntries] + [PilotProfile] == PullOrder;
  }

  /** The tables are independent: each ends up as if pulled alone from its
      own reply, and `pulled` adds up the three counts. */
  lemma PullChangesPerTable(rt: Runtime, token: Option<string>, lastSync: Option<int>,
                            tables: Tables, replies: Table -> Reply, now: int)
    ensures var r := PullChanges(rt, token, lastSync, tables, replies, now);
      var since := lastSync.GetOr(0);
      var a := TableOutcome(rt, token, since, Aircraft, tables, replies, now);
      var f := TableOutcome(rt, token, since, FlightEntries, tables, replies, now);
      var p := TableOutcome(rt, token, since, PilotProfile, tables, replies, now);
      && r.tables == Tables(a.records, f.records, p.records)
      && r.pulled == a.count + f.count + p.count
  {
    PullChangesSteps(rt, token, lastSync, tables, replies, now);
  }

  /** The request the loop sends for table `t`. */
  function ChangesRequest(token: string, since: int, t: Table): Request {
    Request(GET, Changes(TableName(t), since), AuthorizationHeader(token), None)
  }

  lemma PullTableSent(rt: Runtime, token: Option<string>, since: int, t: Table,
                      records: seq<LocalRecord>, reply: Reply, now: int)
    requires HasToken(token)
    ensures SentOf(PullTable(rt, token, since, t, records, reply, now)) == [ChangesRequest(token.value, since, t)]
  {
  }

  /** The requests for `order`, one per table, in order. */
  function ChangesRequests(token: string, since: int, order: seq<Table>): (rs: seq<Request>)
    ensures |rs| == |order|
    decreases |order|
  {
    if |order| == 0 then []
    else ChangesRequests(token, since, order[..|order| - 1]) + [ChangesRequest(token, since, order[|order| - 1])]
  }

  /** With a token the table loop sends one GET per table, in loop order. */
  lemma {:induction false} PullTablesRequests(rt: Runtime, token: Option<string>, since: int, order: seq<Table>,
                                              tables: Tables, replies: Table -> Reply, now: int)
    requires HasToken(token)
    ensures PullTables(rt, token, since, order, tables, replies, now).sent == ChangesRequests(token.value, since, order)
    decreases |order|
  {
    if |order| > 0 {
      var init := order[..|order| - 1];
      var t := order[|order| - 1];
      PullTablesRequests(rt, token, since, init, tables, replies, now);
      var prev := PullTables(rt, token, since, init, tables, replies, now);
      PullTableSent(rt, token, since, t, prev.tables.Records(t), replies(t), now);
    }
  }

  /** Without a token the table loop sends nothing and changes nothing. */
  lemma {:induction false} PullTablesWithoutToken(rt: Runtime, token: Option<string>, since: int, order: seq<Table>,
                                                  tables: Tables, replies: Table -> Reply, now: int)
    requires !HasToken(token)
    ensures var r := PullTables(rt, token, since, order, tables, replies, now);
      r.sent == [] && r.tables == tables && r.pulled == 0
    decreases |order|
  {
    if |order| > 0 {
      var init := order[..|order| - 1];
      PullTablesWithoutToken(rt, token, since, init, tables, replies, now);
      var t := order[|order| - 1];
      var p := PullTable(rt, token, since, t, tables.Records(t), replies(t), now);
      assert p.records == tables.Records(t) && p.count == 0 && SentOf(p) == [];
      assert tables.With(t, tables.Records(t)) == tables;
    }
  }

  /** The requests for the three tables, in the loop's order. */
  lemma PullOrderRequests(token: string, since: int)
    ensures ChangesRequests(token, since, PullOrder)
         == [Request(GET, Changes("aircraft", since), AuthorizationHeader(token), None),
             Request(GET, Changes("flight_entries", since), AuthorizationHeader(token), None),
             Request(GET, Changes("pilot_profile", since), AuthorizationHeader(token), None)]
  {
    assert PullOrder[..2] == [Aircraft, FlightEntries] && PullOrder[..2][..1] == [Aircraft];
    assert ChangesRequests(token, since, [Aircraft]) == [ChangesRequest(token, since, Aircraft)];
  }

  /** With a token the three requests go out in the order aircraft, flight
      entries, pilot profile, each asking for the changes since `since`;
      without one nothing is sent and nothing changes. */
  lemma PullChangesRequests(rt: Runtime, token: Option<string>, lastSync: Option<int>,
                            tables: Tables, replies: Table -> Reply, now: int)
    ensures var r := PullChanges(rt, token, lastSync, tables, replies, now);
      var since := lastSync.GetOr(0);
      && (HasToken(token) ==>
            r.sent == [Request(GET, Changes("aircraft", since), AuthorizationHeader(token.value), None),
                       Request(GET, Changes("flight_entries", since), AuthorizationHeader(token.value), None),
                       Request(GET, Changes("pilot_profile", since), AuthorizationHeader(token.value), None)])
      && (!HasToken(token) ==> r.sent == [] && r.tables == tables && r.pulled == 0)
  {
    var since := lastSync.GetOr(0);
    if HasToken(token) {
      PullTablesRequests(rt, token, since, PullOrder, tables, replies, now);
      PullOrderRequests(token.value, since);
    } else {
      PullTablesWithoutToken(rt, token, since, PullOrder, tables, replies, now);
    }
  }

  /** One more table in the loop: its pull sees the records the earlier
      tables left, and adds to the count and the requests. */
  lemma PullTablesStep(rt: Runtime, token: Option<string>, since: int, order: seq<Table>, t: Table,
                       tables: Tables, replies: Table -> Reply, now: int)
    ensures var prev := PullTables(rt, token, since, order, tables, replies, now);
      var p := PullTable(rt, token, since, t, prev.tables.Records(t), replies(t), now);
      PullTables(rt, token, since, order + [t], tables, replies, now)
        == PullResult(prev.tables.With(t, p.records), prev.pulled + p.count, prev.sent + SentOf(p))
  {
    assert (order + [t])[..|order|] == order;
  }

  /** Re-applying a server record with a string id changes nothing: the
      first application links a local record to the id, and the second
      finds that same record and writes the same values again. */
  lemma ApplyRecordIdempotent(rt: Runtime, records: seq<LocalRecord>, server: Value, now: int)
    requires Get(server, "id").Some? && Get(server, "id").value.Str?
    ensures ApplyRecord(rt, ApplyRecord(rt, records, server, now), server, now)
         == ApplyRecord(rt, records, server, now)
  {
    var id := Get(server, "id");
    var once := ApplyRecord(rt, records, server, now);
    match FirstMatch(records, id)
    case Some(i) =>
      assert forall j | 0 <= j < i :: once[j] == records[j];
      assert FirstMatch(once, id) == Some(i);
      MapServerToLocalIdempotent(rt, records[i].props, server);
    case None =>
      var n := |records|;
      assert StrictEquals(once[n].serverId, id);
      assert forall j | 0 <= j < n :: once[j] == records[j];
      assert FirstMatch(once, id) == Some(n);
      MapServerToLocalIdempotent(rt, map[], server);
  }

  /** After a server record with a string id is applied, a local record is
      linked to it, and that record holds the server's values for every
      mapped field (the server wins over local edits). */
  lemma ApplyRecordRemoteWins(rt: Runtime, records: seq<LocalRecord>, server: Value, now: int)
    requires Get(server, "id").Some? && Get(server, "id").value.Str?
    ensures var r := ApplyRecord(rt, records, server, now);
      var m := FirstMatch(r, Get(server, "id"));
      && m.Some?
      && r[m.value].serverId == Get(server, "id").value
      && r[m.value].syncedAt == Num(now as real)
      && forall key | LastWriter(FieldTable, server, key).Some? ::
           key in r[m.value].props
           && r[m.value].props[key] == Get(server, FieldTable[LastWriter(FieldTable, server, key).value].0).value
  {
    var id := Get(server, "id");
    var r := ApplyRecord(rt, records, server, now);
    ApplyRecordIdempotent(rt, records, server, now);
    var m := FirstMatch(records, id);
    var base := if m.Some? then records[m.value].props else map[];
    var target := if m.Some? then m.value else |records|;
    if m.None? {
      assert StrictEquals(r[target].serverId, id);
    }
    assert FirstMatch(r, id) == Some(target);
    FieldTableJsonColumnsFree();
    forall key | LastWriter(FieldTable, server, key).Some?
      ensures key in r[target].props
      ensures r[target].props[key] == Get(server, FieldTable[LastWriter(FieldTable, server, key).value].0).value
    {
      MapWithSpec(FieldTable, rt, base, server, key);
    }
  }

  /** A server record without an id is never recognised: applying it twice
      creates two local records. */
  lemma ApplyRecordWithoutIdDuplicates(rt: Runtime, records: seq<LocalRecord>, server: Value, now: int)
    requires server.Obj? && "id" !in server.fields
    ensures |ApplyRecord(rt, ApplyRecord(rt, records, server, now), server, now)| == |records| + 2
  {
  }

  /** A local record linked to `id` stays findable when the records' links
      are kept and new records are only appended. */
  lemma LinkKept(before: seq<LocalRecord>, after: seq<LocalRecord>, id: Option<Value>)
    requires FirstMatch(before, id).Some?
    requires |before| <= |after|
    requires forall j | 0 <= j < |before| :: after[j].serverId == before[j].serverId
    ensures FirstMatch(after, id).Some?
  {
    var k := FirstMatch(before, id).value;
    assert StrictEquals(after[k].serverId, id);
  }

  /** After a page is applied, every applied server record with a string id
      has a local record linked to it: applying a record links it, and
      applying later records never unlinks an earlier one. */
  lemma {:induction false} ApplyPageLinksEveryId(rt: Runtime, records: seq<LocalRecord>, items: seq<Value>, now: int)
    ensures var a := ApplyPage(rt, records, items, now);
      forall j | 0 <= j < a.count && Get(items[j], "id").Some? && Get(items[j], "id").value.Str? ::
        FirstMatch(a.records, Get(items[j], "id")).Some?
    decreases |items|
  {
    if |items| > 0 && !items[0].Null? {
      var once := ApplyRecord(rt, records, items[0], now);
      var rest := ApplyPage(rt, once, items[1..], now);
      ApplyPageLinksEveryId(rt, once, items[1..], now);
      var a := ApplyPage(rt, records, items, now);
      assert a == Applied(rest.records, rest.count + 1);
      forall j | 0 <= j < a.count && Get(items[j], "id").Some? && Get(items[j], "id").value.Str?
        ensures FirstMatch(a.records, Get(items[j], "id")).Some?
      {
        if j == 0 {
          ApplyRecordRemoteWins(rt, records, items[0], now);
          LinkKept(once, rest.records, Get(items[0], "id"));
        } else {
          assert items[j] == items[1..][j - 1];
        }
      }
    }
  }

  /** A page whose second element is `null`: the first record is applied
      and counted, the loop stops, and the third is never applied. */
  lemma ApplyPageStopsAtNull(rt: Runtime, records: seq<LocalRecord>, first: Value, third: Value, now: int)
    requires !first.Null?
    ensures ApplyPage(rt, records, [first, Null, third], now) == Applied(ApplyRecord(rt, records, first, now), 1)
  {
    assert [first, Null, third][1..] == [Null, third];
  }
}
