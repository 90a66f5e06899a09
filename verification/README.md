# Pilot logbook sync, flight-entry API, wedding countdown and learning journal — a Dafny model

This project models four pieces of the `eden-logbook` repository and proves properties about them.

**The pilot logbook's offline sync engine** (`SyncService` in `pilot-logbook/src/lib/sync.ts`):
- `apiRequest` (module `ApiClient`). The network is an input: for every request the caller supplies the reply the server or the transport would give. The model records the request that would be sent and what the call resolves to or throws.
- `pushChanges` (module `Push`). It walks the local change queue in order. A change the server accepts leaves the queue; a change that fails stays, with its attempt count raised and its error recorded.
- `pullChanges` (module `Pull`). It asks for the changes of the aircraft, flight-entry and pilot-profile tables, in that order. A server record that is already linked to a local record overwrites it; any other server record becomes a new local record.
- `mapServerToLocal` (module `FieldMapper`). It renames camelCase server properties to snake_case local columns and embeds two lists as JSON text.
- `sync` (module `SyncEngine`). It runs one cycle: guards, push, then pull. Only push errors decide success.

**The server side of the logbook** (Azure Functions):
- `verifyAuth` and `handleError` (module `ServerAuth`). Bearer-token extraction and the mapping of a thrown value to a status and message.
- The `flight-entries` handler and the `flight-entries-changes` feed (module `FlightEntries`):
  - GET lists entries, newest date first, with `since` and `limit`;
  - POST creates an entry;
  - PUT overlays an entry;
  - DELETE soft-deletes an entry;
  - the changes feed lists entries updated after `since`, oldest update first.
- The document store is a sequence of JSON documents keyed by `id` and owner `userId`.

**The domain schemas of `types.ts`** (modules `Validation` and `DomainSchemas`). Zod's object parsing is modelled generically: unknown keys are stripped, defaults are filled in, and required keys are enforced. The aircraft, approach, flight-entry, pilot-profile and currency-requirement schemas are instances of it.

**The countdown of the wedding site** (`project-exodus`, module `Countdown`). One tick splits the milliseconds left until the target into days, hours, minutes and seconds.

**The learning journal's form logic** (module `LearningJournal`): `handleChange`, `saveEntry`, the energy-button highlight rule and the save button's `disabled` rule.

Supporting modules:
- `Values`: JavaScript values and truthiness, `parseInt`, template rendering of integers, `startsWith` and `toUpperCase`.
- `Sorting`: `WHERE` as a filter, `ORDER BY` as insertion sort by a total preorder, and lexicographic string order.

Clocks, random UUIDs, token verification, `JSON.stringify`/`JSON.parse` and connectivity are parameters.

Behaviours of the code as written that the model keeps, and that a reader may not expect:
- **A pushed delete is recorded as a failure** (`Push.PushedDeleteAnsweredWithNoContentFails`). The server answers a soft delete with 204 and no body, but `apiRequest` still parses the body as JSON, which throws. The change stays in the queue with one more attempt.
- **The client's table path does not match the server route.** The client addresses tables by their local names (`/flight_entries/...`), while the server's route is `flight-entries/...`. The model keeps endpoints symbolic (`ApiClient.Endpoint`) and does not model routing.
- **`handleError` puts its message under `body`** (modelled as `FlightEntries.HandledError`). The handler's own errors use `jsonBody` (`ErrorBody`).
- **`sync` calls `pullChanges()` without a timestamp,** so every pull asks for everything since 0 (`SyncEngine.SyncRequestOrder`).
- **A PUT resets omitted defaulted fields** (`FlightEntries.PutResetsOmittedDefaults`). Parsing fills in 0 or `[]` for every time, count and list field the body leaves out, and the spread then writes those over the stored values.
- **A failing pull is invisible.** Each table's failure is caught and logged, and never reaches the result (`SyncEngine.SyncOutcomeIgnoresPull`).

## Model

| member | source | states |
|---|---|---|
| Values.ParseIntOfIntToString | pilot-logbook/azure-functions/flight-entries/index.ts:167 | The `since` the client writes into the changes URL by template rendering is read back by the server's `parseInt(…, 10)` as the same integer, negative numbers included |
| Values.ToUpperAsciiIdempotent | pilot-logbook/azure-functions/flight-entries/index.ts:44 | Upper-casing a method name that is already upper case leaves it unchanged |
| ApiClient.ErrorMessage | pilot-logbook/src/lib/sync.ts:48-50 | The message of a failed response: a body that does not parse gives "Unknown error", and a `null` body makes the property read throw. A truthy string `error` property is the message. Otherwise the message is "API error: " followed by text that `parseInt` reads back as the status |
| ApiClient.Call | pilot-logbook/src/lib/sync.ts:31-54 | Without a non-empty token nothing is sent and the call throws "Not authenticated". With one, exactly one request goes out, carrying the bearer header. The call resolves if and only if the response is 2xx and its body parses, and then to that body. A network rejection or a non-ok status throws the corresponding message |
| ServerAuth.BearerToken | pilot-logbook/azure-functions/lib/auth.ts:18-26 | A token exists if and only if the header is present, non-empty and starts with "Bearer "; the header is then exactly that prefix followed by the token |
| ServerAuth.VerifyAuth | pilot-logbook/azure-functions/lib/auth.ts:17-44 | A missing or malformed header and a token that fails verification each give a 401 error with its own message. Authentication succeeds if and only if the token verifies. The user id and subject are then the token's subject, and the email falls back to "" when the claim is falsy |
| ServerAuth.HandleError | pilot-logbook/azure-functions/lib/auth.ts:46-54 | The status is the thrown value's truthy `statusCode`, else 500, so it is always truthy. The message is the error's own for an Error and "Internal server error" otherwise |
| ServerAuth.AuthFailuresAre401 | pilot-logbook/azure-functions/lib/auth.ts:17-54 | Every authentication failure reaches the client as status 401 with one of the two authentication messages |
| ServerAuth.BearerTokenRoundTrip | pilot-logbook/azure-functions/lib/auth.ts:26 | The server extracts exactly the token the client put in its `Authorization` header. Conversely, only that header form yields a given token |
| Push.Route | pilot-logbook/src/lib/sync.ts:65-83 | `update` is sent as PUT and `delete` as DELETE, both to the member path of the payload's id; everything else is POSTed to the collection. Every operation but `delete` carries the payload as JSON. Routing fails if and only if an update or delete has a `null` payload |
| Push.PushOne | pilot-logbook/src/lib/sync.ts:64-83 | A payload that does not parse fails with the parser's message and sends nothing. A request is only ever sent with a token, and success requires a sent request |
| Push.PushChanges | pilot-logbook/src/lib/sync.ts:56-106 | Every fetched change is either pushed or reported: pushed plus errors equals the queue length. One change stays queued per error, and at most one request is sent per change |
| Push.TallyFate | pilot-logbook/src/lib/sync.ts:85-101 | The changes left in the queue are exactly the failed ones, in queue order. Each is marked with one more attempt and its own error, and has one "Failed to sync <table>: <message>" entry. Every other change was pushed |
| Push.PushChangesFate | pilot-logbook/src/lib/sync.ts:63-103 | `TallyFate` for the actual per-change outcomes of a push |
| Push.TallySentInOrder | pilot-logbook/src/lib/sync.ts:63-83 | When every change sent its request, the requests went out one per change, in queue order |
| Push.TallyAllFailed | pilot-logbook/src/lib/sync.ts:91-101 | When no change could send, nothing is pushed or sent, and every change stays, marked with its own error |
| Push.PushRequestsInQueueOrder | pilot-logbook/src/lib/sync.ts:63-83 | With a token and routable payloads, exactly one request per change goes out, in queue order, with the routed verb, path and body and the bearer header |
| Push.PushWithoutToken | pilot-logbook/src/lib/sync.ts:35-37 | Without a token a push sends nothing and pushes nothing. Every change stays with one more attempt, and a routable one fails with "Not authenticated" |
| Push.PushedDeleteAnsweredWithNoContentFails | pilot-logbook/src/lib/sync.ts:75-99 | A delete answered 204 with an empty body is sent once, yet counted as a failure. It stays queued with the parser's error, because `apiRequest` parses the empty body (line 53) |
| FieldMapper.LastWriter | pilot-logbook/src/lib/sync.ts:204-208 | Finds the last entry of the renaming table that targets a column and whose server property is defined; none exists if no entry writes it |
| FieldMapper.CopyFieldsLastWrite | pilot-logbook/src/lib/sync.ts:204-208 | After the copy loop, each local column holds the server value of the last table entry that writes it. A column no entry writes keeps its presence and value |
| FieldMapper.CopyFieldsIdempotent | pilot-logbook/src/lib/sync.ts:204-208 | Copying the same server record twice gives the same result as copying it once, for any renaming table |
| FieldMapper.FieldTableJsonColumnsFree | pilot-logbook/src/lib/sync.ts:161-202 | The renaming table never targets the two JSON columns, so the renamed copy and the JSON embedding do not interfere |
| FieldMapper.MapWithSpec | pilot-logbook/src/lib/sync.ts:159-217 | Each local column comes out in one of three ways. A JSON column whose server list is truthy holds that list as JSON text. A renamed column the server supplies holds the last writer's value. Any other column is unchanged |
| FieldMapper.MapWithIdempotent | pilot-logbook/src/lib/sync.ts:159-217 | For a table that leaves the JSON columns free, mapping a server record twice equals mapping it once |
| FieldMapper.MapServerToLocalIdempotent | pilot-logbook/src/lib/sync.ts:159-217 | `mapServerToLocal` applied twice with the same server record equals applying it once |
| Pull.FirstMatch | pilot-logbook/src/lib/sync.ts:126-131 | Finds the first local record whose server id is strictly equal to the server record's id; none exists if no record matches |
| Pull.StoredServerId | pilot-logbook/src/lib/sync.ts:143 | The stored server id is the server's string id, or `null` for an id the string column cannot hold |
| Pull.ApplyRecord | pilot-logbook/src/lib/sync.ts:126-146 | A matched record is overwritten in place by the mapper and stamped with the clock, and every other record is unchanged. Without a match, exactly one new linked record is appended |
| Pull.ApplyPage | pilot-logbook/src/lib/sync.ts:125-148 | Records are applied and counted in page order up to the first `null` element, which stops the loop. Every record the table had keeps its link, the table never shrinks, and it grows by at most the count |
| Pull.ApplyPageLinksEveryId | pilot-logbook/src/lib/sync.ts:125-146 | After a page is applied, every applied server record with a string id has a local record linked to it, so nothing the loop reached is lost |
| Pull.PullTable | pilot-logbook/src/lib/sync.ts:116-153 | One GET for the table's changes since `since` is sent if and only if there is a token. A failed request leaves the table and the count unchanged |
| Pull.PullChangesSteps | pilot-logbook/src/lib/sync.ts:108-157 | The pull visits aircraft, flight entries and pilot profile in that order. Each step pulls one table from the records the earlier steps left, and adds its count and request |
| Pull.PullChangesPerTable | pilot-logbook/src/lib/sync.ts:115-154 | Tables are independent: each ends as if pulled alone from its own reply, and `pulled` is the sum of the three counts |
| Pull.PullTableSent | pilot-logbook/src/lib/sync.ts:117-119 | With a token, pulling a table sends exactly its changes request |
| Pull.PullTablesRequests | pilot-logbook/src/lib/sync.ts:115-119 | With a token, the table loop sends one changes request per table, in loop order |
| Pull.PullTablesWithoutToken | pilot-logbook/src/lib/sync.ts:115-153 | Without a token, the table loop sends nothing and changes nothing, and `pulled` is 0 |
| Pull.PullOrderRequests | pilot-logbook/src/lib/sync.ts:112-119 | The requests for the loop order are the GETs of `/aircraft`, `/flight_entries` and `/pilot_profile` changes, in that order |
| Pull.PullChangesRequests | pilot-logbook/src/lib/sync.ts:108-119 | With a token, the three changes requests go out in order, each for the changes since the timestamp or 0. Without a token, nothing is sent and nothing changes |
| Pull.PullTablesStep | pilot-logbook/src/lib/sync.ts:115-150 | Adding a table to the loop pulls it from the records the earlier tables left, and adds its count and request |
| Pull.ApplyRecordIdempotent | pilot-logbook/src/lib/sync.ts:126-146 | Applying a server record with a string id twice at the same clock reading equals applying it once, so a re-delivered change creates no duplicate |
| Pull.ApplyRecordRemoteWins | pilot-logbook/src/lib/sync.ts:133-146 | Afterwards, a local record linked to the server id exists and is stamped with the clock. It holds the server's value for every mapped column the server supplies: the server wins over local edits |
| Pull.ApplyRecordWithoutIdDuplicates | pilot-logbook/src/lib/sync.ts:126-146 | A server record without an id is never recognised, so applying it twice creates two local records |
| Pull.ApplyPageStopsAtNull | pilot-logbook/src/lib/sync.ts:125-148 | In a page whose second element is `null`, only the first record is applied and counted; the third is never reached |
| SyncEngine.SetAccessToken | pilot-logbook/src/lib/sync.ts:22-24 | Setting the token changes the token and nothing else |
| SyncEngine.Sync | pilot-logbook/src/lib/sync.ts:219-251 | A cycle already in progress and an offline device each refuse with their message and change nothing. A cycle that starts always clears the flag. A failed queue read reports its message and changes nothing. Success implies the cycle started, the queue was read and there are no errors. Pushed plus errors equals the queue length |
| SyncEngine.SyncPushesThenPulls | pilot-logbook/src/lib/sync.ts:232-244 | The cycle succeeds if and only if the push reports no error. Errors and the push count come from the push, and the pull count from the pull. Push requests precede pull requests |
| SyncEngine.SyncOutcomeIgnoresPull | pilot-logbook/src/lib/sync.ts:236-244 | Whatever the pull replies and the clock, success, errors, push count and queue are the same |
| SyncEngine.SyncRequestOrder | pilot-logbook/src/lib/sync.ts:232-237 | With a token and routable queued payloads, the cycle sends one non-GET request per queued change. Then it sends the three changes requests, each since 0 |
| SyncEngine.SyncWithoutToken | pilot-logbook/src/lib/sync.ts:219-251 | Without a token, a started cycle sends nothing, pushes and pulls nothing and keeps the tables. It succeeds if and only if the queue is empty |
| Validation.Parse | pilot-logbook/azure-functions/flight-entries/index.ts:75 | A parse succeeds if and only if the schema accepts the value. Its output is itself accepted and is its own normal form |
| Validation.ParseIdempotent | pilot-logbook/azure-functions/flight-entries/index.ts:98 | Parsing the output of a parse returns it unchanged |
| Validation.ParsedShape | pilot-logbook/azure-functions/flight-entries/index.ts:6-38 | A parsed object has exactly the declared keys that were given or have a default (unknown keys are stripped). Each key holds a value of its field's type |
| Validation.GivenField | pilot-logbook/azure-functions/flight-entries/index.ts:13 | A declared key that was given keeps its normalised value |
| Validation.DefaultedField | pilot-logbook/azure-functions/flight-entries/index.ts:14-22 | A missing key with a default holds the normalised default |
| Validation.MissingRequiredFails | pilot-logbook/azure-functions/flight-entries/index.ts:8-13 | A missing required key makes the parse fail |
| Validation.NonObjectFails | pilot-logbook/azure-functions/flight-entries/index.ts:6 | Only objects pass an object schema |
| DomainSchemas.AircraftConstraints | pilot-logbook/src/models/types.ts:38-55 | A parsed aircraft has a tail number of 1 to 10 characters, and a category and class from the closed FAA lists |
| DomainSchemas.AircraftFlagsDefaultFalse | pilot-logbook/src/models/types.ts:47-51 | The five capability flags are booleans, and false when omitted |
| DomainSchemas.ApproachConstraints | pilot-logbook/src/models/types.ts:58-63 | A parsed approach has a type from the closed list and a 4-character airport. Its `circleToLand` flag is false when omitted |
| DomainSchemas.FlightEntryAirports | pilot-logbook/src/models/types.ts:73-74 | Departure and arrival are 4-character codes |
| DomainSchemas.FlightEntryApproachAirports | pilot-logbook/src/models/types.ts:98 | Every logged approach names a 4-character airport |
| DomainSchemas.FlightEntryDutyTimes | pilot-logbook/src/models/types.ts:78-83 | `totalTime` must be given and is non-negative. The duty times are non-negative, and zero when omitted |
| DomainSchemas.FlightEntryConditionTimes | pilot-logbook/src/models/types.ts:86-89 | Cross-country, night and instrument times are non-negative, and zero when omitted |
| DomainSchemas.FlightEntryCounts | pilot-logbook/src/models/types.ts:92-99 | Landings and holds are non-negative integers, zero when omitted, and omitted approaches are the empty list |
| DomainSchemas.FlightEntryNeedsTotalTime | pilot-logbook/src/models/types.ts:78 | An entry without `totalTime` is rejected |
| DomainSchemas.PilotProfileConstraints | pilot-logbook/src/models/types.ts:115-136 | Certificate type and medical class are present exactly when given, and then from their closed lists. A home airport has 4 characters. Ratings default to the empty list |
| DomainSchemas.CurrencyRequirementConstraints | pilot-logbook/src/models/types.ts:139-146 | A currency requirement has a boolean `isCurrent` and a date `expiresAt` |
| FlightEntries.InputAirports | pilot-logbook/azure-functions/flight-entries/index.ts:10-11 | A valid request body has 4-character departure and arrival airports |
| FlightEntries.InputTimes | pilot-logbook/azure-functions/flight-entries/index.ts:13-22 | A valid request body has a given, non-negative `totalTime`. Every other time is non-negative, and zero when omitted |
| FlightEntries.InputCounts | pilot-logbook/azure-functions/flight-entries/index.ts:23-33 | In a valid request body, landings and holds are non-negative integers, zero when omitted, and approaches default to the empty list |
| FlightEntries.InputFieldsIsEntrySchema | pilot-logbook/azure-functions/flight-entries/index.ts:6-38 | The endpoint's input schema requires a string date, allows an optional UUID id, and declares none of `userId`, `createdAt` and `updatedAt` |
| FlightEntries.ParsedEntry | pilot-logbook/azure-functions/flight-entries/index.ts:6-38 | A parsed body has a string date, any id is a UUID string, and it never carries the owner or the creation or update time |
| FlightEntries.Find | pilot-logbook/azure-functions/flight-entries/index.ts:101 | A point read of `(id, userId)` finds a document with that id and owner, or shows that none exists |
| FlightEntries.ReadInput | pilot-logbook/azure-functions/flight-entries/index.ts:74-75 | A body that is not JSON gives 500 with the parser's message, through `handleError`. An invalid body gives 400 "Validation failed". Reading succeeds if and only if the body parses and validates, and then yields the normalised fields |
| FlightEntries.LaterDateFirstIsTotalPreorder | pilot-logbook/azure-functions/flight-entries/index.ts:61 | `ORDER BY c.date DESC` compares any two entries, transitively |
| FlightEntries.Query | pilot-logbook/azure-functions/flight-entries/index.ts:51-67 | At most `limit` entries, newest date first. All are the caller's, and updated after `since` when one is given. All come from the store. When no more than `limit` match, they are exactly the matching entries |
| FlightEntries.ListEntries | pilot-logbook/azure-functions/flight-entries/index.ts:47-69 | The GET fails if and only if `limit`, default 100, is not a non-negative integer. Otherwise it is the query with the parsed `since` |
| FlightEntries.ListAllOwned | pilot-logbook/azure-functions/flight-entries/index.ts:47-69 | Without `since`, a GET returns all the caller's entries when there are no more than `limit` |
| FlightEntries.ChangedSince | pilot-logbook/azure-functions/flight-entries/index.ts:169-175 | The feed is ordered by update time, ascending. It contains exactly the caller's entries updated after `since`, with their multiplicity. An unreadable `since` matches nothing |
| FlightEntries.ChangesFeed | pilot-logbook/azure-functions/flight-entries/index.ts:163-182 | Failed authentication is answered 401. Otherwise the answer is 200 with the caller's entries changed since `since`, which defaults to 0 |
| FlightEntries.NewEntry | pilot-logbook/azure-functions/flight-entries/index.ts:77-84 | The stored entry has the parsed fields plus id, owner and timestamps. The owner is the caller, and creation and update time are both now. The id is the given one if truthy, else a fresh UUID. Every other parsed field is kept |
| FlightEntries.Overlay | pilot-logbook/azure-functions/flight-entries/index.ts:106-112 | The updated entry has the parsed fields over the existing ones, the request's id and the caller as owner, and the update time now. Existing fields absent from the parsed body are kept; omitted fields that have a default are reset to it (`FlightEntries.PutResetsOmittedDefaults`) |
| FlightEntries.MarkDeleted | pilot-logbook/azure-functions/flight-entries/index.ts:131-135 | The deleted entry keeps every other field, gains a deletion time from one clock reading, and an update time from a second clock reading |
| FlightEntries.Create | pilot-logbook/azure-functions/flight-entries/index.ts:73-88 | A body that fails to read is answered with the reading error and stores nothing |
| FlightEntries.CreateStoresEntry | pilot-logbook/azure-functions/flight-entries/index.ts:73-88 | An entry with the same id and owner is a conflict: 500 with the store's message, and nothing is stored. Otherwise the entry is appended and returned with 201 |
| FlightEntries.CreatedEntryIsFound | pilot-logbook/azure-functions/flight-entries/index.ts:77-87 | In a well-formed store, the entry a successful POST stores is the one a later read of its id and owner finds |
| FlightEntries.Update | pilot-logbook/azure-functions/flight-entries/index.ts:91-95 | A PUT without an id is answered 400 "Missing id parameter" and changes nothing |
| FlightEntries.UpdateOverlaysEntry | pilot-logbook/azure-functions/flight-entries/index.ts:91-116 | A successful PUT replaces the entry in place by the overlay and keeps its creation time. It leaves every other entry alone and answers 200 with the new entry |
| FlightEntries.PutResetsOmittedDefaults | pilot-logbook/azure-functions/flight-entries/index.ts:98-112 | Given the defaults of the input schema (lines 14-33), a PUT that leaves out a time field, a landing count or `holds` resets the stored value to 0, and one that leaves out `approaches` resets it to `[]`: the parsed defaults overwrite the existing values |
| FlightEntries.MissingEntryNotFound | pilot-logbook/azure-functions/flight-entries/index.ts:101-104 | A PUT with a valid body, or a DELETE, for an entry the caller does not own or that does not exist, is answered 404 and changes nothing |
| FlightEntries.SoftDelete | pilot-logbook/azure-functions/flight-entries/index.ts:119-139 | DELETE never removes a document: the store keeps its length. A missing or empty id is answered 400 "Missing id parameter" and changes nothing |
| FlightEntries.SoftDeleteKeepsEntry | pilot-logbook/azure-functions/flight-entries/index.ts:119-139 | A successful DELETE marks the entry in place, keeping its id and owner. It leaves every other entry alone and answers 204 with no body |
| FlightEntries.DeletedEntryInFeed | pilot-logbook/azure-functions/flight-entries/index.ts:130-138 | A soft-deleted entry appears, marked deleted, in its owner's changes feed for any `since` before the deletion's update time, so deletes reach other devices |
| FlightEntries.Dispatch | pilot-logbook/azure-functions/flight-entries/index.ts:44-141 | GET and unknown methods never change the store, and an unknown method is answered 405 "Method not allowed" |
| FlightEntries.HandleWith | pilot-logbook/azure-functions/flight-entries/index.ts:40-151 | Failed authentication is answered 401 and changes nothing. A method other than POST, PUT or DELETE, in any letter case, changes nothing |
| FlightEntries.Handle | pilot-logbook/azure-functions/flight-entries/index.ts:153-157 | The deployed function rejects unauthenticated requests with 401 and no change |
| FlightEntries.FailuresChangeNothing | pilot-logbook/azure-functions/flight-entries/index.ts:40-151 | A request changes the store only when answered 201, 200 or 204 |
| FlightEntries.UnauthenticatedRejected | pilot-logbook/azure-functions/flight-entries/index.ts:42 | Without a bearer token that verifies, both endpoints answer 401, and the store is unchanged whatever the method |
| FlightEntries.HandleIgnoresMethodCase | pilot-logbook/azure-functions/flight-entries/index.ts:44 | A request and the same request with its method upper-cased get the same outcome |
| FlightEntries.HandlePreservesWf | pilot-logbook/azure-functions/flight-entries/index.ts:40-151 | Every request keeps the store well formed: complete entries, at most one per id and owner |
| FlightEntries.CreatePreservesWf | pilot-logbook/azure-functions/flight-entries/index.ts:73-88 | POST keeps the store well formed |
| FlightEntries.UpdatePreservesWf | pilot-logbook/azure-functions/flight-entries/index.ts:91-116 | PUT keeps the store well formed |
| FlightEntries.SoftDeletePreservesWf | pilot-logbook/azure-functions/flight-entries/index.ts:119-139 | DELETE keeps the store well formed |
| FlightEntries.HandleKeepsStoreWf | pilot-logbook/azure-functions/flight-entries/index.ts:153-157 | The deployed handler, with its own input schema, keeps the store well formed |
| Countdown.Decompose | project-exodus/src/app/page.tsx:177-180 | The display's hours, minutes and seconds are within their clock ranges, and the days are the whole days left. Recomposed, the display is at most the time left and less than one second below it |
| Countdown.Tick | project-exodus/src/app/page.tsx:170-182 | Once the target has passed, the display keeps its previous values. Before it, the display is in range and within one second below the time left |
| Countdown.DecomposeUnique | project-exodus/src/app/page.tsx:177-180 | The decomposition is the only in-range display within the second below the time left |
| Countdown.TotalOfDecompose | project-exodus/src/app/page.tsx:177-180 | The display is the time left rounded down to a whole second |
| Countdown.TickNeverIncreases | project-exodus/src/app/page.tsx:170-182 | As the clock advances, the displayed time never goes up, including after the target has passed |
| Countdown.LastSecondShowsZero | project-exodus/src/app/page.tsx:173-181 | In the last second before the target, a tick shows all zeros |
| LearningJournal.BlankForm | learning-journal/src/LearningJournal.jsx:6-14 | A fresh form is dated today, has energy 3, and has the five text fields empty, and nothing else |
| LearningJournal.HandleChange | learning-journal/src/LearningJournal.jsx:17-19 | Editing a field sets that field and changes no other field, the entries or the view |
| LearningJournal.SaveEntry | learning-journal/src/LearningJournal.jsx:21-35 | Without a topic and a lesson nothing changes. Otherwise the form, stamped with the clock as id, is prepended to the old entries, the form is reset, and the view switches to history |
| LearningJournal.SaveDisabledIffNoEffect | learning-journal/src/LearningJournal.jsx:213 | The save button is disabled exactly when pressing it would do nothing |
| LearningJournal.SavedFormIsBlank | learning-journal/src/LearningJournal.jsx:24-32 | After a save, the button is disabled again |
| LearningJournal.EnergyButtons | learning-journal/src/LearningJournal.jsx:41-46 | Five buttons; button n is lit when n does not exceed the level |
| LearningJournal.LitButtonsArePrefix | learning-journal/src/LearningJournal.jsx:41-46 | The lit buttons always form a prefix |
| LearningJournal.PressingEnergyButton | learning-journal/src/LearningJournal.jsx:207-210 | Pressing button n leaves exactly buttons 1 to n lit |

## Left out

- Validation.Parse: `z.string().email()` accepts any string here. Zod's e-mail pattern is not modelled, so a profile's email is only known to be a string.
- Validation.Parse: string lengths are counted in code points, where JavaScript counts UTF-16 code units. The two differ only outside the Basic Multilingual Plane.
- Values.ParseInt: the contract only says that a number needs a digit. What `parseInt` reads is characterised through `Values.ParseIntOfIntToString`, for the rendered integers the client sends.
- FlightEntries.Query: when more than `limit` entries match, the contract does not say which ones are returned. It only says they are sorted and come from the matching set. Cosmos DB's `OFFSET 0 LIMIT` returns the first `limit` in sort order.
- FlightEntries.Query: Cosmos DB orders strings by its own collation. The model uses code-point order, and equal dates may come back in any order.
- FlightEntries.CreateStoresEntry: a conflict is assumed to reach `handleError` without a truthy `statusCode`, giving 500 with the store's message. The store's real error may carry 409, and its exact text is the store's own.
- FlightEntries.ListEntries: a `limit` that is not a non-negative integer is assumed to make the store throw without a `statusCode`.
- FlightEntries.ReadInput: the Zod error `details` are not modelled.
- The Azure Functions host's encoding of the plain-object `body` that `handleError` returns (`HandledError` here) is not modelled.
- The system properties Cosmos DB adds to stored documents (`_rid`, `_etag`, `_ts`, …) are not modelled.
- Routing is not modelled: the overlap between the `flight-entries/changes` and `flight-entries/{id?}` routes, and the client's `flight_entries` paths. Endpoints stay symbolic.
- Header names are read case-insensitively by the host. That lookup is not modelled; the request carries the `Authorization` value directly.
- The JWT verification itself is an input: JWKS fetch, issuer and audience. A payload without a string `sub` is not modelled.
- ApiClient.ErrorMessage: the `TypeError` texts for reading a property of `null` (`NullBodyError`, and `Push.NullPayloadError`) are V8's wording. The engine that runs the app is not named in the source, and Hermes words them differently.
- Push.Route: how `${payload.id}` renders a non-string id in the URL is not modelled.
- `JSON.stringify`, `JSON.parse` and `String(v)` are opaque functions of the runtime. NetInfo's `fetch` cannot reject.
- Store writes (WatermelonDB `write`, `update`, `create`, `destroyPermanently`) are assumed to succeed. Only the queue read can fail, which is the path to `sync`'s catch.
- WatermelonDB's own column sanitising is not modelled, except for the `server_id` column (`Pull.StoredServerId`): local records are property maps keyed by the snake_case names.
- Pull.ApplyRecordRemoteWins: the model assumes local records expose writable properties under the snake_case column names the mapper writes, and `serverId` and `syncedAt` under their camelCase names. The WatermelonDB Model classes that declare those fields are not part of this model, so whether each write reaches a stored column is not checked.
- Pull.ApplyRecord: the source reads `Date.now()` for every record. The model uses one clock reading per pull.
- Pull.ApplyPage: a table that throws part-way through a page (at a `null` element) is not rolled back. The page's single `db.write` does not undo the updates and creates it already made, so the records applied before the throw stay.
- JavaScript numbers are IEEE-754 doubles. `Values.Value` holds exact reals and the countdown uses exact integers, so rounding beyond 2^53 is not modelled.
- SyncEngine.Sync: the cycle is one atomic step. A second call made while the first awaits is modelled only through the in-progress flag.
- The countdown's interval timer is not modelled, only one tick's arithmetic. The function the `useState` initializer returns becomes a state value, not a cleanup, so the interval is never cleared.
- The journal's dark mode, history view, markup and styling are not modelled.
