# MediConnect server core in Dafny

This project models the server side of MediConnect, a hospital dashboard back end. It has two parts.

- **The storage layer.** This is every method of `DatabaseStorage`. It is modelled over an in-memory store of one sequence per table, plus a flag saying whether a database connection exists.
- **The request handlers.** These are the read endpoints, which fall back to fixed mock records, and the write endpoints, which answer 400/500 and broadcast only on success. Also modelled are the chatbot's canned replies and the WebSocket fan-out of `{ type, data }` envelopes to open clients.

Modules:

- `Outcomes`: `Option` and `Result`.
- `Text`: the string behaviour the server relies on.
  - String order.
  - JavaScript's `toLowerCase`, modelled for ASCII plus the KELVIN SIGN.
  - `String.prototype.includes`.
  - `parseInt`. Its result is a JavaScript number (`JsNumber`): NaN, an infinity, or a finite integer. An integer beyond 2^53 in magnitude is rounded to the nearest double.
- `Ordering`: `SELECT … WHERE … ORDER BY` as a reference definition and an implementation.
  - Reference definition (`Selected`): a permutation of the rows that satisfy the condition, sorted by a total preorder. Ties are left unordered, as SQL leaves them.
  - Implementation: a filter followed by an insertion sort.
- `Schema`: the rows and the store `Db`.
- `Storage`: the storage methods. Each is gated on the connection: without one it fails with `Unavailable` ("Database not available") and changes nothing.
- `StorageFacts`: properties that relate several storage operations.
- `MockData`: the fallback records and the filters the read endpoints apply to them.
- `Chatbot`: the keyword table and its lookup.
- `Http`: what a handler sees and produces.
  - An `Env` holds the store, the positions of the storage calls the database rejects, and the fallback records.
  - A `Handled` result holds the store afterwards, the status and body, and the events to broadcast.
- `ReadHandlers`, `WriteHandlers` and `ChatHandlers`: one function per endpoint.
- `Fanout`: the subscriber set and `broadcastUpdate`.

### Donor search

The database donor search and the mock fallback match the organ type differently.

- `searchOrganDonors` compares the single `organType` column exactly (storage.ts:368-388).
- The mock fallback matches the organ type as a case-insensitive substring of the donor's organ list (routes.ts:281-285).

`StorageFacts.SearchIsExactOnOrganType` shows the difference: a search for "kidney" does not find a "Kidney" donor in the database.

## Model

| member | source | states |
|---|---|---|
| Ordering.Query | MediConnect/server/storage.ts:204-209 | Every `WHERE … ORDER BY` read returns exactly the rows satisfying the condition, each as often as in the table, sorted by the key. |
| Ordering.Sort | MediConnect/server/storage.ts:192-195 | An unfiltered ordered read returns a permutation of the table sorted by the key. |
| Ordering.Filter | MediConnect/server/routes.ts:138 | `Array.prototype.filter` keeps exactly the elements satisfying the predicate, with their multiplicities. |
| Ordering.FilterIsSubsequence | MediConnect/server/routes.ts:276-287 | A filter keeps the surviving elements in their original order. |
| Ordering.FilterDisjointSizes | MediConnect/server/storage.ts:204-209 | Two filters with disjoint conditions select at most the whole sequence between them, and exactly the whole of it when, and only when, every element meets one condition. |
| Ordering.First | MediConnect/server/storage.ts:186-190 | `const [row] = … where(id)` is the first row with the id, or `undefined` exactly when no row has it. |
| Ordering.UpdateWhere | MediConnect/server/storage.ts:211-220 | An `UPDATE … WHERE` changes the rows meeting the condition and leaves every other row and position as it was. |
| Ordering.UpdateWhereTwice | MediConnect/server/storage.ts:431-436 | An idempotent update applied twice equals applying it once. |
| Text.ContainsIffOccursAt | MediConnect/server/routes.ts:236-238 | `includes` holds exactly when the needle occurs at some offset of the haystack. |
| Text.LowerIdempotent | MediConnect/server/routes.ts:237 | `toLowerCase` applied twice is applied once. |
| Text.ParseIntDecimal | MediConnect/server/routes.ts:138 | `parseInt` of an integer written in decimal is that integer as a number. It is the integer itself when the magnitude is at most 2^53. |
| Text.ExactUpToTwoTo53 | MediConnect/server/routes.ts:138 | Every integer of magnitude at most 2^53 is a double exactly. |
| Text.RoundsAboveTwoTo53 | MediConnect/server/routes.ts:138 | Just past 2^53, integers round to the nearest even double: 2^53+1 becomes 2^53 and 2^53+3 becomes 2^53+4. |
| Text.ParseIntRoundsPastTwoTo53 | MediConnect/server/routes.ts:138 | `parseInt` of the decimal text of 2^53+1 is 2^53. |
| Text.ParseIntStopsAtNonDigit | MediConnect/server/routes.ts:138 | `parseInt("7b")` is 7: parsing stops at the first non-digit. |
| Text.StrLeTransitive | MediConnect/server/storage.ts:194 | The text order used by `ORDER BY` on text columns is transitive. |
| Text.StrLeTotal | MediConnect/server/storage.ts:117 | Any two texts are comparable under the text order. |
| Text.StrLeAntisymmetric | MediConnect/server/storage.ts:117 | Two texts each at most the other are equal. |
| Text.ParseIntOfWordIsNaN | MediConnect/server/routes.ts:138 | A text starting with a letter parses to NaN. |
| Storage.OrdersTotal | MediConnect/server/storage.ts:115-444 | Every `ORDER BY` key of the storage layer orders rows totally, so every sorted read is well defined up to ties. |
| Storage.GetUser | MediConnect/server/storage.ts:102-106 | A user with the id, or none exactly when no user has it; without a connection, `Unavailable`. |
| Storage.GetDoctor | MediConnect/server/storage.ts:109-113 | A doctor with the id, or none exactly when no doctor has it. |
| Storage.GetDoctorsByDepartment | MediConnect/server/storage.ts:120-125 | The doctors of exactly that department, ordered by id; without a connection, `Unavailable`. |
| Storage.CreateDoctor | MediConnect/server/storage.ts:127-131 | Appends and returns the row; a taken id fails and changes nothing; without a connection, nothing changes. |
| Storage.UpdateDoctorAvailability | MediConnect/server/storage.ts:133-138 | Only doctors with the id change, and only in availability. |
| Storage.GetAllDoctors | MediConnect/server/storage.ts:115-118 | Every doctor, ordered by department. |
| Storage.GetPatient | MediConnect/server/storage.ts:141-145 | A patient with the id, or none exactly when no patient has it. |
| Storage.GetAllPatients | MediConnect/server/storage.ts:147-150 | Every patient, ordered by last name. |
| Storage.CreatePatient | MediConnect/server/storage.ts:152-156 | Appends and returns the row; a taken id fails and changes nothing. |
| Storage.UpdatePatient | MediConnect/server/storage.ts:158-165 | Patches exactly the patients with the id and leaves the other rows and tables alone; returns the patched row, or none when the id is unknown. A patch that names no column is rejected with "No values to set" and changes nothing. |
| Storage.GetWard | MediConnect/server/storage.ts:168-172 | A ward with the id, or none exactly when no ward has it. |
| Storage.GetAllWards | MediConnect/server/storage.ts:174-177 | Every ward, ordered by name. |
| Storage.CreateWard | MediConnect/server/storage.ts:179-183 | Appends and returns the row; a taken id fails and changes nothing. |
| Storage.GetBed | MediConnect/server/storage.ts:186-190 | A bed with the id, or none exactly when no bed has it. |
| Storage.GetAllBeds | MediConnect/server/storage.ts:192-195 | Every bed, ordered by bed number. |
| Storage.GetBedsByWard | MediConnect/server/storage.ts:197-202 | The beds of exactly that ward, ordered by bed number. |
| Storage.GetBedsByStatus | MediConnect/server/storage.ts:204-209 | The beds of exactly that status, ordered by bed number. |
| Storage.PatientRef | MediConnect/server/storage.ts:216 | `patientId \|\| null`: an empty patient id clears the bed, any other is stored. |
| Storage.UpdateBedStatus | MediConnect/server/storage.ts:211-220 | Beds with the id get the status, patient and time; every other bed and table is unchanged; without a connection, nothing changes. |
| Storage.JoinWards | MediConnect/server/storage.ts:222-244 | The inner join holds each (bed, ward) pair with a matching ward id as often as the pair occurs in the two tables. |
| Storage.GetBedsWithWardInfo | MediConnect/server/storage.ts:222-244 | The bed/ward inner join, ordered by ward name and then bed number. |
| Storage.GetAppointment | MediConnect/server/storage.ts:247-251 | An appointment with the id, or none exactly when none has it. |
| Storage.GetAllAppointments | MediConnect/server/storage.ts:253-256 | Every appointment, latest first. |
| Storage.GetAppointmentsByDate | MediConnect/server/storage.ts:258-269 | The appointments from the day's midnight through the next midnight inclusive, earliest first. |
| Storage.GetAppointmentsByDoctor | MediConnect/server/storage.ts:271-276 | The doctor's appointments, latest first. |
| Storage.GetAppointmentsByPatient | MediConnect/server/storage.ts:278-283 | The patient's appointments, latest first. |
| Storage.CreateAppointment | MediConnect/server/storage.ts:285-289 | Appends and returns the row; a taken id fails and changes nothing. |
| Storage.UpdateAppointmentStatus | MediConnect/server/storage.ts:291-296 | Only appointments with the id change, and only in status. |
| Storage.DoctorsFor | MediConnect/server/storage.ts:339 | One appointment and one patient, joined with each doctor of the appointment's doctor id, as often as that doctor occurs. |
| Storage.PatientRows | MediConnect/server/storage.ts:338-339 | That join is empty unless the patient is the appointment's patient. |
| Storage.DetailsOf | MediConnect/server/storage.ts:337-339 | One appointment's rows: each matching patient and doctor, as often as the two occur together. |
| Storage.JoinDetails | MediConnect/server/storage.ts:298-339 | The inner join holds each (appointment, patient, doctor) triple whose ids agree, as often as its three parts occur together in their tables. |
| Storage.DetailsJoinMembers | MediConnect/server/storage.ts:298-339 | A joined row is exactly an appointment with its own patient and its own doctor. |
| Storage.GetAppointmentsWithDetails | MediConnect/server/storage.ts:298-340 | The appointment/patient/doctor inner join with multiplicities, latest appointment first. |
| Storage.GetOrganDonor | MediConnect/server/storage.ts:343-347 | A donor with the id, or none exactly when no donor has it. |
| Storage.GetAllOrganDonors | MediConnect/server/storage.ts:349-352 | Every donor, most recently updated first. |
| Storage.GetOrganDonorsByType | MediConnect/server/storage.ts:354-359 | Donors of exactly that organ type, most recently updated first. |
| Storage.GetOrganDonorsByBloodType | MediConnect/server/storage.ts:361-366 | Donors of exactly that blood type, most recently updated first. |
| Storage.SearchOrganDonors | MediConnect/server/storage.ts:368-388 | The four-way dispatch on which arguments are non-empty; each branch is an exact match, most recently updated first. |
| Storage.CreateOrganDonor | MediConnect/server/storage.ts:390-394 | Appends and returns the row; a taken id fails and changes nothing. |
| Storage.UpdateOrganDonorStatus | MediConnect/server/storage.ts:396-404 | Only donors with the id change: the new status and time. |
| Storage.GetAlert | MediConnect/server/storage.ts:407-411 | An alert with the id, or none exactly when no alert has it. |
| Storage.GetAllAlerts | MediConnect/server/storage.ts:413-416 | Every alert, newest first. |
| Storage.GetUnreadAlerts | MediConnect/server/storage.ts:418-423 | Exactly the unread alerts, newest first. |
| Storage.CreateAlert | MediConnect/server/storage.ts:425-429 | Appends and returns the row; a taken id fails and changes nothing. |
| Storage.MarkAlertAsRead | MediConnect/server/storage.ts:431-436 | Only alerts with the id change, and only to read. |
| Storage.GetChatMessages | MediConnect/server/storage.ts:439-444 | The session's messages, oldest first. |
| Storage.CreateChatMessage | MediConnect/server/storage.ts:446-450 | Appends the row, or fails and changes nothing when the id is taken or there is no connection. |
| StorageFacts.BedsByStatusPartition | MediConnect/server/storage.ts:192-209 | Beds of two statuses are disjoint and drawn from all beds; together they are all beds exactly when no bed has a third status. |
| StorageFacts.UpdatedBedIsListedUnderNewStatus | MediConnect/server/storage.ts:186-220 | After an update the bed is found with the new status, patient and time, is listed under the new status and under no other. |
| StorageFacts.MarkAlertAsReadIdempotent | MediConnect/server/storage.ts:431-436 | Marking an alert read twice stores and returns the same as once. |
| StorageFacts.ReadAlertLeavesUnreadList | MediConnect/server/storage.ts:418-436 | After marking, no alert with the id is unread and every other alert is counted in the unread list as before. |
| StorageFacts.SearchMatchesDedicatedQueries | MediConnect/server/storage.ts:349-388 | A one-argument search is the dedicated query, a no-argument one is the full list, a two-argument result lies in both dedicated queries. |
| StorageFacts.SearchIsOneCondition | MediConnect/server/storage.ts:368-388 | Every branch of the search is the single query "each given argument equals its column". |
| StorageFacts.SearchIsExactOnOrganType | MediConnect/server/storage.ts:370-376 | The database search is case-sensitive on organ type. |
| StorageFacts.MidnightAppointmentListedTwice | MediConnect/server/storage.ts:258-269 | An appointment exactly at a midnight is listed for both days that midnight bounds. |
| StorageFacts.BedsWithWardInfoMembers | MediConnect/server/storage.ts:222-244 | The bed list with wards holds exactly the beds whose ward exists, each with that ward. |
| StorageFacts.UpdatedDonorHeadsList | MediConnect/server/storage.ts:349-404 | A donor updated at the latest time heads the donor list. |
| StorageFacts.CreatedAppointmentIsFound | MediConnect/server/storage.ts:247-289 | A created appointment is then found by its id. |
| StorageFacts.CreatedDonorIsFound | MediConnect/server/storage.ts:343-394 | A created donor is then found by its id. |
| StorageFacts.CreatedPatientIsFound | MediConnect/server/storage.ts:141-156 | A created patient is then found by its id. |
| StorageFacts.CreatedDoctorIsFound | MediConnect/server/storage.ts:109-131 | A created doctor is then found by its id. |
| StorageFacts.CreatedWardIsFound | MediConnect/server/storage.ts:168-183 | A created ward is then found by its id. |
| StorageFacts.CreatedAlertIsUnread | MediConnect/server/storage.ts:407-429 | A created unread alert is found by its id and listed as unread. |
| Ordering.SelectedInOrder | MediConnect/server/storage.ts:439-444 | Two selected rows that the sort key strictly separates come out in that order. |
| StorageFacts.SavedChatMessageIsListed | MediConnect/server/storage.ts:439-450 | A saved chat message appears in its session's history. |
| StorageFacts.UpdatePatientIdempotent | MediConnect/server/storage.ts:158-165 | The same patch applied twice equals applying it once. |
| StorageFacts.UpdatedDoctorIsFound | MediConnect/server/storage.ts:109-139 | After an availability update the doctor is found with the new availability. |
| StorageFacts.UpdatedAppointmentIsFound | MediConnect/server/storage.ts:247-296 | After a status update the appointment is found with the new status. |
| MockData.DoctorsInDepartment | MediConnect/server/routes.ts:236-238 | The mock doctors whose lower-cased specialty contains the lower-cased department, with multiplicity. |
| MockData.DoctorsInDepartmentKeepOrder | MediConnect/server/routes.ts:236-238 | That fallback keeps the mock order. |
| MockData.DepartmentIgnoresCase | MediConnect/server/routes.ts:237 | The department's case does not matter. |
| MockData.EmptyDepartmentKeepsAll | MediConnect/server/routes.ts:237 | The empty department matches every doctor. |
| MockData.BedsInWard | MediConnect/server/routes.ts:138 | The mock beds whose numeric ward id equals `parseInt` of the parameter; none when it parses to NaN. |
| MockData.BedsInWardKeepOrder | MediConnect/server/routes.ts:138 | That fallback keeps the mock order. |
| MockData.BedsInWardOfDecimal | MediConnect/server/routes.ts:138 | A ward id written in decimal selects the beds whose ward id equals that integer as a number. For magnitudes up to 2^53 this is exactly the ward of that integer. |
| MockData.BedsInWardPastTwoTo53 | MediConnect/server/routes.ts:138 | The decimal text of 2^53+1 selects a bed of ward 2^53, because the number is rounded. |
| MockData.BedsInWardOfWord | MediConnect/server/routes.ts:138 | A ward id without leading digits selects no bed. |
| MockData.BedsInWardOfNumber | MediConnect/server/routes.ts:138 | A ward id written as a number, possibly followed by other text, selects the beds of that numeric ward. |
| MockData.BedsInWardTwo | MediConnect/server/routes.ts:26-32 | Ward "2" selects the last two mock beds. |
| MockData.DonorFallback | MediConnect/server/routes.ts:276-285 | The mock donors with the exact blood type, if one is given, and some organ containing the organ type case-insensitively, if one is given. |
| MockData.DonorFallbackKeepsOrder | MediConnect/server/routes.ts:276-287 | The donor fallback is an order-preserving subsequence of the mock donors. |
| MockData.OrganTypeIgnoresCase | MediConnect/server/routes.ts:283 | The organ type's case does not matter. |
| MockData.DonorFallbackByBloodType | MediConnect/server/routes.ts:38-41 | "O+" selects only the first mock donor. |
| MockData.DonorFallbackByOrganPart | MediConnect/server/routes.ts:38-41 | "liv" selects only the donor offering a liver. |
| MockData.UnreadAlerts | MediConnect/server/routes.ts:323 | Exactly the mock alerts not read, with multiplicity. |
| MockData.UnreadAlertsKeepOrder | MediConnect/server/routes.ts:323 | The unread fallback keeps the mock order. |
| MockData.UnreadMockAlertsIsFirst | MediConnect/server/routes.ts:49-52 | The unread fallback is the first mock alert alone. |
| Chatbot.FallbackReply | MediConnect/server/routes.ts:56-65 | The canned reply is the table's entry for the lower-cased message when the table has one, and the default text otherwise. |
| Chatbot.KeysAreLowerCase | MediConnect/server/routes.ts:56-65 | Every key of the table is its own lower-case form. |
| Chatbot.EveryKeywordIsRecognised | MediConnect/server/routes.ts:56-65 | Each keyword, sent as a message, gets its own entry. |
| Chatbot.FallbackIgnoresCase | MediConnect/server/routes.ts:372 | The message's case does not matter. |
| Chatbot.KeywordsAreRecognised | MediConnect/server/routes.ts:56-65 | "HeLLo" gets the greeting and "BED" the bed reply. |
| Chatbot.LookupAsWritten | MediConnect/server/routes.ts:372 | The lookup as written always yields a truthy value, which need not be a string. |
| Chatbot.InheritedKeysBreakTheReply | MediConnect/server/routes.ts:56-65 | With `message` declared outside the `try`, "Constructor" and "__proto__" find inherited properties, so the reply loses its text. The corrected lookup gives the default. |
| Http.Attempt | MediConnect/server/routes.ts:95-118 | A storage call succeeds exactly when storage serves it and the database does not reject it. |
| Http.AttemptWrite | MediConnect/server/routes.ts:143-157 | A rejected write leaves the store as it was before the call. |
| ReadHandlers.DashboardStats | MediConnect/server/routes.ts:94-119 | Always 200, no write, no event; the counts 2/2/1/1 when any of the four reads fails; emergency cases 0 otherwise. |
| ReadHandlers.DashboardCountsRows | MediConnect/server/routes.ts:96-108 | With storage serving, the counts are the available beds, today's appointments and the donors with status "available". |
| ReadHandlers.ListBeds | MediConnect/server/routes.ts:122-130 | The bed/ward join, or the mock beds on any failure; always 200. |
| ReadHandlers.BedsByWard | MediConnect/server/routes.ts:132-141 | The ward's beds, or the mock beds of `parseInt(wardId)`; always 200. |
| ReadHandlers.ListWards | MediConnect/server/routes.ts:160-168 | The wards by name, or the mock wards; always 200. |
| ReadHandlers.ListAppointments | MediConnect/server/routes.ts:171-179 | The appointment/patient/doctor join with multiplicities, latest first, or the mock appointments; always 200. |
| ReadHandlers.TodayAppointments | MediConnect/server/routes.ts:181-189 | Today's appointments, or the mock appointments; always 200. |
| ReadHandlers.ListDoctors | MediConnect/server/routes.ts:218-226 | The doctors by department, or the mock doctors; always 200. |
| ReadHandlers.DoctorsByDepartment | MediConnect/server/routes.ts:228-241 | The department's doctors, or the mock doctors whose specialty contains it; always 200. |
| ReadHandlers.ListPatients | MediConnect/server/routes.ts:244-252 | The patients by last name, or the mock patients; always 200. |
| ReadHandlers.SearchDonors | MediConnect/server/routes.ts:266-289 | The corrected donor search: the database result, or the filtered mock donors; always 200. |
| ReadHandlers.SearchDonorsAsWritten | MediConnect/server/routes.ts:266-289 | As written, a failed search throws in its error handler and sends nothing. |
| ReadHandlers.ListAlerts | MediConnect/server/routes.ts:307-315 | The alerts newest first, or the mock alerts; always 200. |
| ReadHandlers.UnreadAlertsHandler | MediConnect/server/routes.ts:317-326 | The unread alerts, or the unread mock alerts; always 200. |
| WriteHandlers.UpdateBedHandler | MediConnect/server/routes.ts:143-157 | 200 exactly when the update and the re-read both pass, and only then one `bedStatusUpdate` event; a committed update stays even when the re-read fails. |
| WriteHandlers.UpdateBedBroadcastsNewState | MediConnect/server/routes.ts:143-157 | The broadcast bed carries the new status, patient and time and is listed under that status. |
| WriteHandlers.FailedReadBackKeepsUpdate | MediConnect/server/routes.ts:146-155 | When only the re-read fails, the client gets 500 though the new status is stored. |
| WriteHandlers.CreateAppointmentHandler | MediConnect/server/routes.ts:191-204 | 201 with the row and one `newAppointment` event exactly when the body validates and the insert passes; otherwise 400, nothing stored, nothing sent. |
| WriteHandlers.CreatedAppointmentIsServed | MediConnect/server/routes.ts:191-204 | An appointment the endpoint created is then found by its id. |
| WriteHandlers.UpdateAppointmentStatusHandler | MediConnect/server/routes.ts:206-215 | 200 exactly when storage serves it, changing only that appointment's status; never broadcasts. |
| WriteHandlers.CreatePatientHandler | MediConnect/server/routes.ts:254-263 | 201 with the row exactly when the body validates and the insert passes; otherwise 400; never broadcasts. |
| WriteHandlers.CreateDonorHandler | MediConnect/server/routes.ts:291-304 | 201 with the row and one `newDonor` event exactly when the body validates and the insert passes; otherwise 400, nothing sent. |
| WriteHandlers.CreatedDonorIsServed | MediConnect/server/routes.ts:291-304 | A donor the endpoint created is then found by its id. |
| WriteHandlers.MarkAlertReadHandler | MediConnect/server/routes.ts:328-336 | 200 exactly when storage serves it. The store is then exactly what `markAlertAsRead` makes it, and no alert with the id is unread. On 500 the store is unchanged. Never broadcasts. |
| WriteHandlers.MarkAlertReadTwice | MediConnect/server/routes.ts:328-336 | Repeating the request answers and stores the same, whether or not storage serves it. |
| ChatHandlers.ChatReply | MediConnect/server/routes.ts:368-377 | The AI's answer, or the canned reply for the message stamped with the time the `catch` block reads. |
| ChatHandlers.SaveQuietly | MediConnect/server/routes.ts:344-352 | A swallowed save either appends the row or leaves the store unchanged. |
| ChatHandlers.ChatbotMessage | MediConnect/server/routes.ts:339-379 | Always 200 with the reply, whatever storage does; only the chat table changes, and it only grows. |
| ChatHandlers.ExchangeIsSaved | MediConnect/server/routes.ts:343-366 | With storage serving, the user's message and then the AI's answer are appended, each stamped with its own insert time. |
| ChatHandlers.ExchangeIsListedInOrder | MediConnect/server/routes.ts:343-366 | When the clock moved on between the two inserts, the session history lists the user's message before the AI's answer. |
| ChatHandlers.ChatbotMessageAsWritten | MediConnect/server/routes.ts:339-379 | As written, an AI failure throws in the error handler and no reply is sent. |
| ChatHandlers.ChatMessagesHandler | MediConnect/server/routes.ts:381-389 | The session's history in time order, or an empty list on failure; always 200. |
| ChatHandlers.AnalyzeSymptoms | MediConnect/server/routes.ts:391-404 | The AI's analysis, or the fixed advice; always 200. |
| Fanout.Connect | MediConnect/server/routes.ts:75-76 | A connection appends exactly its socket, keeping earlier members in order and ids distinct. A socket whose id is already present changes nothing. |
| Fanout.Disconnect | MediConnect/server/routes.ts:78-80 | A close removes exactly the clients with that id. |
| Fanout.DisconnectIds | MediConnect/server/routes.ts:78-80 | After a close the set's ids are the old ids without that one. |
| Fanout.DisconnectKeepsDistinct | MediConnect/server/routes.ts:73-81 | A close keeps the ids of the set distinct. |
| Fanout.DisconnectUndoesConnect | MediConnect/server/routes.ts:73-81 | Connecting a new socket and closing it restores the set. |
| Fanout.EachOpenClientOnce | MediConnect/server/routes.ts:84-91 | Each open client receives a broadcast exactly once, and no other client receives it. |
| Fanout.NoOpenClientNoDelivery | MediConnect/server/routes.ts:86-90 | With no open client a broadcast sends nothing. |
| Fanout.Broadcast | MediConnect/server/routes.ts:84-91 | The loop sends one identical envelope to each open client, in connection order. |
| Fanout.FailedWriteReachesNoOne | MediConnect/server/routes.ts:152-155 | A write endpoint that answers with its failure status reaches no client, since the `catch` block sends the error without broadcasting. |
| Fanout.BroadcastAll | MediConnect/server/routes.ts:150 | Broadcasting a handler's events sends only those envelopes. |

## Left out

- The SQL engine, the ORM and the connection pool: tables are sequences. Whether a connection exists is the `available` flag, set at start-up from the connection string.
- Database failures other than the missing connection: `Env.faults` names the calls the database rejects.
- The statements' own ordering of rows that tie on the sort key is not specified, because SQL does not fix it. The model's sort happens to be stable, but no contract relies on that.
- The `IStorage` interface declaration: it holds types only.
- Generated ids and `defaultNow()` timestamps: callers pass in the complete row, or the time.
- Local-time date arithmetic and `new Date()`: `getAppointmentsByDate` takes the two midnights as a `DayWindow`.
- The OpenAI calls: `processMessage` and `analyzeSymptoms` are parameters, with `None` standing for a thrown error.
- The zod request validation: a parsed body is a parameter, with `None` for a body that fails validation.
- `JSON.stringify`, the wire format of responses and envelopes, and the WebSocket transport: a broadcast yields a list of deliveries.
- Express routing, `req.query` values that arrive as arrays, and missing body fields other than an absent query value (which is "").
- Concurrency between requests, and async scheduling.
- Console logging.
- What the client receives after a handler's `catch` block throws. Express 4 leaves the request unanswered; Express 5 passes the rejection to its default error handler, which answers 500. A `Threw` outcome records only that the handler's own response is not sent.
- Storage.UpdatePatient: the patch covers four of the patient's columns. The ORM's other refusals, such as a value of the wrong type for a column, are not modelled.
- Fanout.Connect: the model does not state that nothing besides a connection and a close changes the subscriber set. The set is only changed through `Connect` and `Disconnect`, but no contract says so.
- Text.Lower: it models the lower-case mapping only for ASCII letters and the KELVIN SIGN. The Unicode mapping of other characters is not modelled.
- Text.StrLeTransitive: text keys are ordered by code point; database collations are not modelled.
- Text.ParseInt: a radix-10 numeral with more than 20 significant digits is rounded exactly to the nearest double. ECMAScript permits an implementation to approximate such a numeral, so the model may be more precise than a given engine.
- MockData.BedsInWard: the mock ward ids are small integers. A double holds them exactly, so comparing them with the parsed number loses nothing.
- ChatHandlers.ExchangeIsListedInOrder: when the two inserts read the same time, the rows tie on the sort key and the history may list them in either order. The model does not choose.

## Findings

| source | as written | input that shows it | evidently intended | confidence | as-written member | corrected member |
|---|---|---|---|---|---|---|
| MediConnect/server/routes.ts:268-283 | `bloodType` and `organType` are declared inside the `try` block, so the `catch` block's reference throws a ReferenceError and no response is sent | a GET of `/api/organ-donors` with no database connection | answer 200 with the filtered mock donors | high; not executed | ReadHandlers.SearchDonorsAsWritten | ReadHandlers.SearchDonors |
| MediConnect/server/routes.ts:341-372 | `message` is declared inside the `try` block, so when the AI call fails the `catch` block throws a ReferenceError and no reply is sent | any chat message while the AI service fails | answer 200 with the canned reply for the message | high; not executed | ChatHandlers.ChatbotMessageAsWritten | ChatHandlers.ChatbotMessage |
| MediConnect/server/routes.ts:56-65 | the keyword table is a plain object, so a lower-cased message can find inherited properties | once `message` is declared outside the `try`, as in the corrected handler of the row above: the message "Constructor" (reply without a `message` field) or "__proto__" (reply whose `message` is `{}`). As written, the row above's ReferenceError is thrown first | the default text for every message that is not a keyword | medium; not executed | Chatbot.LookupAsWritten | Chatbot.FallbackReply |
