/**
 `mapServerToLocal`: copies the properties of a server record onto a local
 record, renaming each camelCase server property to its snake_case local
 column through a fixed table, and embeds the `approaches` and `ratings`
 lists as JSON text. It only writes: a local property the server record
 does not supply keeps its value.
 */
module FieldMapper {
  import opened Values

  /** The renaming table, as (server property, local property) pairs in the
      order the copy loop visits them. */
  const FieldTable: seq<(string, string)> := [
    ("tailNumber", "tail_number"),
    ("typeRating", "type_rating"),
    ("isComplex", "is_complex"),
    ("isHighPerformance", "is_high_performance"),
    ("isTailwheel", "is_tailwheel"),
    ("isTurbine", "is_turbine"),
    ("isMultiEngine", "is_multi_engine"),
    ("userId", "user_id"),
    ("aircraftId", "aircraft_id"),
    ("departureAirport", "departure_airport"),
    ("arrivalAirport", "arrival_airport"),
    ("totalTime", "total_time"),
    ("picTime", "pic_time"),
    ("sicTime", "sic_time"),
    ("dualReceived", "dual_received"),
    ("dualGiven", "dual_given"),
    ("soloTime", "solo_time"),
    ("crossCountryTime", "cross_country_time"),
    ("nightTime", "night_time"),
    ("actualInstrumentTime", "actual_instrument_time"),
    ("simulatedInstrumentTime", "simulated_instrument_time"),
    ("dayLandings", "day_landings"),
    ("nightLandings", "night_landings"),
    ("dayFullStopLandings", "day_full_stop_landings"),
    ("nightFullStopLandings", "night_full_stop_landings"),
    ("instructorName", "instructor_name"),
    ("instructorCertNumber", "instructor_cert_number"),
    ("instructorSignature", "instructor_signature"),
    ("auth0Id", "auth0_id"),
    ("firstName", "first_name"),
    ("lastName", "last_name"),
    ("certificateNumber", "certificate_number"),
    ("certificateType", "certificate_type"),
    ("medicalClass", "medical_class"),
    ("medicalExpiry", "medical_expiry"),
    ("flightReviewDate", "flight_review_date"),
    ("defaultAircraftId", "default_aircraft_id"),
    ("homeAirport", "home_airport"),
    ("createdAt", "created_at"),
    ("updatedAt", "updated_at")
  ]

  /** Whether entry `i` of `table` writes `key` when copying from `server`:
      it targets `key` and the server property it reads is not `undefined`. */
  predicate WritesAt(table: seq<(string, string)>, server: Value, i: int, key: string)
    requires 0 <= i < |table|
  {
    table[i].1 == key && Get(server, table[i].0).Some?
  }

  /** The last entry of `table` that writes `key`, searching from the end. */
  function LastWriter(table: seq<(string, string)>, server: Value, key: string): (r: Option<nat>)
    ensures r.Some? ==> r.value < |table| && WritesAt(table, server, r.value, key)
    ensures r.Some? ==> forall j | r.value < j < |table| :: !WritesAt(table, server, j, key)
    ensures r.None? ==> forall j | 0 <= j < |table| :: !WritesAt(table, server, j, key)
  {
    if |table| == 0 then None
    else if WritesAt(table, server, |table| - 1, key) then Some(|table| - 1)
    else
      var r := LastWriter(table[..|table| - 1], server, key);
      assert forall j | 0 <= j < |table| - 1 ::
        WritesAt(table, server, j, key) == WritesAt(table[..|table| - 1], server, j, key);
      r
  }

  /** The copy loop: for each entry in order, `local[to] = server[from]`
      when `server[from] !== undefined`. */
  function CopyFields(table: seq<(string, string)>, local: map<string, Value>, server: Value): map<string, Value>
  {
    if |table| == 0 then local
    else
      var prev := CopyFields(table[..|table| - 1], local, server);
      var (from, to) := table[|table| - 1];
      match Get(server, from)
      case Some(v) => prev[to := v]
      case None => prev
  }

  /** Each local property ends up holding the server value of the last
      entry that writes it; a property no entry writes is untouched. */
  lemma {:induction false} CopyFieldsLastWrite(table: seq<(string, string)>, local: map<string, Value>, server: Value, key: string)
    ensures var r := CopyFields(table, local, server);
      match LastWriter(table, server, key)
      case Some(i) => key in r && r[key] == Get(server, table[i].0).value
      case None => (key in r <==> key in local) && (key in local ==> r[key] == local[key])
  {
    if |table| > 0 {
      var init := table[..|table| - 1];
      CopyFieldsLastWrite(init, local, server, key);
      assert forall j | 0 <= j < |init| ::
        WritesAt(table, server, j, key) == WritesAt(init, server, j, key);
      if !WritesAt(table, server, |table| - 1, key) {
        assert LastWriter(table, server, key) == LastWriter(init, server, key);
      }
    }
  }

  /** Copying the same server record twice changes nothing the first copy
      did not (no assumption on the table is needed). */
  lemma CopyFieldsIdempotent(table: seq<(string, string)>, local: map<string, Value>, server: Value)
    ensures CopyFields(table, CopyFields(table, local, server), server) == CopyFields(table, local, server)
  {
    var once := CopyFields(table, local, server);
    var twice := CopyFields(table, once, server);
    forall key
      ensures key in twice <==> key in once
      ensures key in once ==> twice[key] == once[key]
    {
      CopyFieldsLastWrite(table, local, server, key);
      CopyFieldsLastWrite(table, once, server, key);
    }
    assert twice.Keys == once.Keys;
  }

  /** The JSON columns are not targets of `table`. */
  predicate JsonColumnsFree(table: seq<(string, string)>) {
    forall i | 0 <= i < |table| :: table[i].1 != "approaches_json" && table[i].1 != "ratings_json"
  }

  lemma FieldTableJsonColumnsFree()
    ensures JsonColumnsFree(FieldTable)
  {
  }

  /** `if (server[name]) local[column] = JSON.stringify(server[name])`. */
  function EmbedJson(rt: Runtime, local: map<string, Value>, server: Value, name: string, column: string): map<string, Value>
  {
    var v := Get(server, name);
    if TruthyOpt(v) then local[column := Str(rt.stringify(v.value))] else local
  }

  /** The mapper with the renaming table as a parameter. */
  function MapWith(table: seq<(string, string)>, rt: Runtime, local: map<string, Value>, server: Value): map<string, Value>
  {
    var copied := CopyFields(table, local, server);
    var withApproaches := EmbedJson(rt, copied, server, "approaches", "approaches_json");
    EmbedJson(rt, withApproaches, server, "ratings", "ratings_json")
  }

  /** `mapServerToLocal(local, server)` on the local record's properties. */
  function MapServerToLocal(rt: Runtime, local: map<string, Value>, server: Value): map<string, Value>
  {
    MapWith(FieldTable, rt, local, server)
  }

  /** `key` is neither a column `table` copies from the server nor a JSON
      column whose source list is truthy. */
  predicate Untouched(table: seq<(string, string)>, server: Value, key: string) {
    && LastWriter(table, server, key).None?
    && !(key == "approaches_json" && TruthyOpt(Get(server, "approaches")))
    && !(key == "ratings_json" && TruthyOpt(Get(server, "ratings")))
  }

  /** The three ways a local property can come out of the mapper: it is a
      JSON column whose source list is truthy, a renamed column the server
      supplies (the last table entry that writes it wins), or it keeps what
      it had. */
  lemma MapWithSpec(table: seq<(string, string)>, rt: Runtime, local: map<string, Value>, server: Value, key: string)
    requires JsonColumnsFree(table)
    ensures var r := MapWith(table, rt, local, server);
      && (key == "approaches_json" && TruthyOpt(Get(server, "approaches")) ==>
            key in r && r[key] == Str(rt.stringify(Get(server, "approaches").value)))
      && (key == "ratings_json" && TruthyOpt(Get(server, "ratings")) ==>
            key in r && r[key] == Str(rt.stringify(Get(server, "ratings").value)))
      && (var w := LastWriter(table, server, key);
          w.Some? ==> key in r && r[key] == Get(server, table[w.value].0).value)
      && (Untouched(table, server, key) ==>
            (key in r <==> key in local) && (key in local ==> r[key] == local[key]))
  {
    CopyFieldsLastWrite(table, local, server, key);
  }

  /** Applying the same server record twice is the same as applying it once. */
  lemma MapWithIdempotent(table: seq<(string, string)>, rt: Runtime, local: map<string, Value>, server: Value)
    requires JsonColumnsFree(table)
    ensures MapWith(table, rt, MapWith(table, rt, local, server), server) == MapWith(table, rt, local, server)
  {
    var once := MapWith(table, rt, local, server);
    var twice := MapWith(table, rt, once, server);
    forall key
      ensures key in twice <==> key in once
      ensures key in once ==> twice[key] == once[key]
    {
      MapWithSpec(table, rt, local, server, key);
      MapWithSpec(table, rt, once, server, key);
    }
    assert twice.Keys == once.Keys;
  }

  lemma MapServerToLocalIdempotent(rt: Runtime, local: map<string, Value>, server: Value)
    ensures MapServerToLocal(rt, MapServerToLocal(rt, local, server), server)
         == MapServerToLocal(rt, local, server)
  {
    FieldTableJsonColumnsFree();
    MapWithIdempotent(FieldTable, rt, local, server);
  }
}
