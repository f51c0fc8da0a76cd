# ProjetoTCC help desk: ticket lifecycle and SLA engine in Dafny

This project models the core of a support-ticket system, ProjetoTCC (an Express and Sequelize
backend with a React frontend). Clients have a plan, `basic` or `premium`. A policy table maps each
(plan, priority) pair to two durations in hours:

- `startHours`: how long until work must start;
- `solveHours`: how long until the ticket must be solved.

The model covers the following.

- **Ticket creation** (`POST /tickets`): checks the required fields, finds the client, looks up the
  policy row under the trimmed, lower-cased plan and priority, and computes both deadlines as
  `now + hours · 3 600 000` ms.
- **The second create path** in `ticketController.createTicket`: it stores the deadlines the
  client sends.
- **The update state machine** (`PUT /tickets/:id`). It is a class, `HelpDesk`, holding the ticket
  store and the audit log. Its update method runs the tracking loop over
  `status, priority, category, assignedTo, sla` and covers:
  - authorisation;
  - starting work;
  - closing with the elapsed minutes;
  - one audit message per changed field.
- **The read predicates**: the list filter, "SLA expired" and the dashboard counts.
- **The policy table**: a normalised GET, and an admin-only PUT that upserts in a loop. The PUT is
  a class, `SlaConfigStore`.
- **The Sequelize schemas** of Ticket, SLAConfig, Client, User and Log: enumerations, defaults,
  nullability, and how a JavaScript value becomes a column value or is refused.
- **The frontend helpers**:
  - how a deadline is shown (`slaStatusInfo`, `getSlaColor`);
  - the label helpers (`formatStatus`, `formatPriority`, `capitalize`);
  - search, sort and `handleSort` on the three list pages;
  - the create-ticket form, as a class with its state setters;
  - the SLA grid;
  - report flattening and the table or spreadsheet built from it.

Representation choices:

- Timestamps are integer milliseconds, and `now` is a parameter.
- A request body field is a `JsValue` (`undefined`, `null`, an integer or a string). Strict
  equality `===` is equality of these values, and JavaScript truthiness is written out.
- `Math.round(d / 60000)` is `(d + 30000) / 60000` under Dafny's floor division.

Three facts about the code that the model keeps:

- `POST /tickets` writes no creation log entry.
- `sla` is one of the tracked fields of `PUT /:id`, although it is not a Ticket column, so a change
  to it is logged but never stored.
- The ticket write and the log insert of `PUT /:id` are two separate writes, not one transaction.

## Model

| member | source | states |
|---|---|---|
| Models.EnumRoundTrips | backend/models/ticket.js:11-40 | each status, priority, category, plan and role name parses back to the same enumerator |
| Models.NamesAreNormal | backend/models/SLAConfig.js:3-10 | plan and priority names are already trimmed and lower-case, so normalised lookups find them |
| Models.PolicyTableAtMostSix | backend/models/SLAConfig.js:21-26 | the unique `(plan, priority)` key allows at most 2 × 3 = 6 policy rows |
| Models.StringCell | backend/models/ticket.js:3-10 | null or undefined store as NULL; a string is stored as given |
| Models.IntCell | backend/models/ticket.js:23-26 | an integer column takes a number, a decimal string or NULL, and refuses any other text |
| Models.DateCell | backend/models/ticket.js:19-22 | a date column takes a timestamp or NULL |
| Models.EnumCell | backend/models/ticket.js:11-18 | undefined takes the default, null stays NULL, and a string is accepted iff it names an enumerator |
| Models.NotNullViolations | backend/models/ticket.js:41-48 | a store validation error lists exactly the nullish required attributes |
| Models.InsertTicket | backend/models/ticket.js:1-79 | an insert is refused by validation iff slaStart, slaSolve or clientId is nullish; an inserted row has the given id and creation time, and no start time or time spent |
| Models.InsertClient | backend/models/client.js:3-12 | validation fails iff the name is nullish or the plan is null; an omitted plan defaults to `basic` |
| Models.InsertUser | backend/models/user.js:3-9 | name, email and password are required; the email is unique; the role defaults to `user` |
| Models.InsertLog | backend/models/log.js:3-13 | message and ticketId are required; userId may be absent |
| SlaConfigRoutes.Lookup | backend/routes/slaConfigRoutes.js:12-15 | a row is found iff the trimmed, lower-cased query names a key present in the table, and it is that key's row |
| SlaConfigRoutes.DefaultPoliciesComplete | backend/server.js:44-51 | the seeded table covers all six keys, and each seeded row starts before it must be solved |
| SlaConfigRoutes.GetIsNormalized | backend/routes/slaConfigRoutes.js:10-22 | any spelling that normalises to a key's names answers that row's hours, or 404 when the key is absent |
| SlaConfigRoutes.GetCases | backend/routes/slaConfigRoutes.js:7-28 | every row is listed iff plan or priority is missing; a single answer is one of the table's rows |
| SlaConfigRoutes.UpsertRow | backend/routes/slaConfigRoutes.js:35 | an upserted row has the item's plan and priority names, and each of its hours is what the integer column makes of the item's value, number or decimal text |
| SlaConfigRoutes.UpsertFrom | backend/routes/slaConfigRoutes.js:34-36 | an aborted loop stops at an item the store refuses |
| SlaConfigRoutes.UpsertLastWins | backend/routes/slaConfigRoutes.js:33-37 | after a full loop each key in the body holds its last-supplied hours; other keys are untouched |
| SlaConfigRoutes.UpsertStopsAtFirstFailure | backend/routes/slaConfigRoutes.js:34-36 | the loop stops at the first refused item, with exactly the earlier items applied |
| SlaConfigRoutes.UpsertCompletes | backend/routes/slaConfigRoutes.js:34-36 | the loop runs to the end iff the store accepts every item |
| SlaConfigRoutes.UpsertPrefixAccepted | backend/routes/slaConfigRoutes.js:34-36 | the loop stops only after accepting every earlier item |
| SlaConfigRoutes.AdminAnswer | backend/routes/slaConfigRoutes.js:33-37 | an administrator's PUT is answered with success iff every item is accepted, and otherwise stops at the first refused item without an answer |
| SlaConfigRoutes.SlaConfigStore.Put | backend/routes/slaConfigRoutes.js:31-38 | a non-admin gets 403 and the table is unchanged; for an admin the table is the upsert loop's result, and the answer is `AdminAnswer` |
| JsValues.OrNull | backend/routes/ticketRoutes.js:190 | the `or null` fallback of `assignedTo` keeps truthy values and turns falsy ones into null |
| JsValues.ParseIntRoundTrip | frontend/src/pages/CreateTicket.js:90-91 | `parseInt(String(n), 10)` gives back n, for negative n too |
| JsValues.DecimalRoundTrip | frontend/src/pages/CreateTicket.js:90-91 | a rendered natural number is decimal text whose value is that number |
| JsValues.Trim | backend/routes/ticketRoutes.js:164-165 | `trim` removes only a run of whitespace at the start and one at the end: the result is the slice of the input between them, and neither starts nor ends with whitespace |
| JsValues.Normalize | backend/routes/ticketRoutes.js:164-165 | `trim().toLowerCase()` is the trimmed text with each character lower-cased, so it has no upper-case letter and no surrounding whitespace |
| JsValues.NormalizeIdempotent | backend/routes/slaConfigRoutes.js:13 | normalising twice is normalising once |
| JsValues.ToLowerIdempotent | frontend/src/pages/TicketList.js:100-105 | lower-casing removes every upper-case letter and is idempotent |
| JsValues.IncludesAt | frontend/src/pages/TicketList.js:100-105 | `includes` holds iff the needle occurs at some position |
| Seqs.Filter | frontend/src/pages/TicketList.js:100-105 | `filter` keeps exactly the elements that satisfy the test, in a sub-multiset of the input |
| Seqs.FilterMultiplicity | frontend/src/pages/TicketList.js:100-105 | `filter` keeps each passing element as many times as the input holds it, and drops the rest |
| Seqs.FilterAll | frontend/src/pages/TicketList.js:100-105 | filtering with a test every element passes returns the input |
| Seqs.CountDisjoint | backend/routes/ticketRoutes.js:248-255 | counts of two disjoint conditions add up to the count of their union |
| Seqs.CountMonotone | backend/routes/ticketRoutes.js:248-255 | a weaker condition counts at least as many rows |
| Seqs.KeyOrder | frontend/src/pages/TicketList.js:121-122 | the `<` comparison on one sort key is a strict total order |
| Seqs.PrecedesOrder | frontend/src/pages/TicketList.js:121-122 | the ascending or descending comparator is asymmetric and its negation is transitive |
| Seqs.InsertSorted | frontend/src/pages/TicketList.js:106-124 | inserting into a sorted list keeps it sorted and adds exactly one element |
| Seqs.SortByCorrect | frontend/src/pages/TicketList.js:106-124 | `sort` returns a sorted permutation of its input |
| Seqs.SearchAndSort | frontend/src/pages/TicketList.js:99-124 | filter then sort keeps exactly the matching rows, sorted, as a permutation of the filtered list |
| Seqs.SearchAllAndSort | frontend/src/pages/TicketList.js:99-124 | when every row matches, the result is a permutation of the input |
| TicketRoutes.Deadline | backend/routes/ticketRoutes.js:178-180 | a deadline lies exactly `hours` hours after `now` |
| TicketRoutes.ClientKey | backend/routes/ticketRoutes.js:160 | `findByPk` takes a number, or decimal text read as a number |
| TicketRoutes.CreateTicket | backend/routes/ticketRoutes.js:149-201 | a created ticket has the new id and the creation time |
| TicketRoutes.InsertCreated | backend/routes/ticketRoutes.js:183-194 | the row built by the handler is stored iff its fields fit the columns, and it is the open ticket with computed deadlines, creator = actor and assignee = given value or null |
| TicketRoutes.CreateSucceedsIff | backend/routes/ticketRoutes.js:153-194 | creation succeeds iff the required fields are truthy, the client exists, a policy exists for the normalised key and the row fits; the ticket then has exactly the computed contents |
| TicketRoutes.CreateInserts | backend/routes/ticketRoutes.js:153-194 | a successful creation passed every check and inserted the row built from the policy's hours |
| TicketRoutes.CreatedDeadlinesOrdered | backend/routes/ticketRoutes.js:178-180 | slaStart ≤ slaSolve iff startHours ≤ solveHours |
| TicketRoutes.CreateRejections | backend/routes/ticketRoutes.js:153-175 | a missing field, an unknown client and a missing policy each give their own 400; the last lists the configured keys |
| TicketRoutes.CreateIgnoresSentDeadlines | backend/routes/ticketRoutes.js:151 | deadlines sent in the body change nothing |
| TicketRoutes.PremiumHighPolicy | backend/server.js:49 | with the seeded table, premium/high is 1 h to start and 4 h to solve |
| TicketRoutes.CreatePremiumHigh | backend/routes/ticketRoutes.js:168-194 | with the seeded table, a premium client's high ticket gets deadlines now + 1 h and now + 4 h |
| TicketRoutes.ListTickets | backend/routes/ticketRoutes.js:206-226 | the list holds exactly the tickets equal on every given filter |
| TicketRoutes.ListFilters | backend/routes/ticketRoutes.js:208-213 | with no filter every ticket is listed; an assignee filter keeps only that assignee's tickets |
| TicketRoutes.ExpiredTickets | backend/routes/ticketRoutes.js:54-66 | the report holds exactly the tickets not closed whose slaSolve is before now |
| TicketRoutes.ExpiredGrowsWithTime | backend/routes/ticketRoutes.js:58-60 | a ticket expired now is still expired later |
| TicketRoutes.DashboardStatusBounds | backend/routes/ticketRoutes.js:248-274 | total (open + closed) plus in-progress is at most the ticket count; expired tickets are open or in progress |
| TicketRoutes.DashboardPriorityBounds | backend/routes/ticketRoutes.js:250-252 | the three priority counts add up to at most the ticket count |
| TicketRoutes.Current | backend/routes/ticketRoutes.js:382 | `ticket[field]` is defined for every tracked field except `sla`, which is not a column |
| TicketRoutes.Entries | backend/routes/ticketRoutes.js:393 | one audit row per message, in order, carrying the ticket id and the actor id |
| TicketRoutes.ElapsedMinutes | backend/routes/ticketRoutes.js:375 | the minutes are the elapsed time rounded to the nearest minute, halves up |
| TicketRoutes.ApplyUpdates | backend/routes/ticketRoutes.js:392 | the write succeeds iff every value fits its column; then exactly the listed columns change and id, title, description, deadlines, creator, client and creation time stay |
| TicketRoutes.Update | backend/routes/ticketRoutes.js:341-399 | an update never changes id, title, description, deadlines, creator, client or creation time |
| TicketRoutes.TrackAllEffect | backend/routes/ticketRoutes.js:380-390 | the loop logs and writes a field iff the body defines it and it differs strictly from the loaded value |
| TicketRoutes.Logged | backend/routes/ticketRoutes.js:382-389 | each field adds at most one message |
| TicketRoutes.ChangeMessages | backend/routes/ticketRoutes.js:380-390 | the loop adds at most one message per field |
| TicketRoutes.TrackAllMessages | backend/routes/ticketRoutes.js:380-390 | the loop appends its messages after the earlier ones, in field order |
| TicketRoutes.ChangeMessagesInOrder | backend/routes/ticketRoutes.js:380 | the messages follow the order status, priority, category, assignedTo, sla |
| TicketRoutes.AllTracked | backend/routes/ticketRoutes.js:380 | every tracked field is in the loop's list |
| TicketRoutes.PreparedMessages | backend/routes/ticketRoutes.js:361-378 | before the loop, the messages are start, auto-assign, closure, each only when its branch runs |
| TicketRoutes.UpdateLogOrder | backend/routes/ticketRoutes.js:361-393 | the log order is start, auto-assign, closure, then the tracked fields |
| TicketRoutes.PlannedUpdates | backend/routes/ticketRoutes.js:361-390 | the written columns are those of the branches plus the changed tracked fields; a body value overrides the auto-assignment |
| TicketRoutes.UpdateAuthorization | backend/routes/ticketRoutes.js:353-358 | 403 iff the actor is neither creator nor admin and the requested status is not `in_progress`; such an actor can only leave the ticket in progress |
| TicketRoutes.StartOpensOtherFields | backend/routes/ticketRoutes.js:356 | an example: a stranger who sends `in_progress` changes the priority too |
| TicketRoutes.StartWorkEffect | backend/routes/ticketRoutes.js:361-370 | `in_progress` stamps startedAt = now only when it is unset, and assigns the actor only when there is no assignee, each with its message |
| TicketRoutes.StartIsIdempotent | backend/routes/ticketRoutes.js:361-370 | asking for `in_progress` again changes nothing and logs nothing |
| TicketRoutes.CloseRecordsTime | backend/routes/ticketRoutes.js:373-378 | closing records the rounded elapsed minutes iff work started and no non-zero time is recorded; otherwise the time is kept |
| TicketRoutes.CloseAfterNinetyFiveMinutes | backend/routes/ticketRoutes.js:373-390 | closing 95 minutes after the start records 95 and logs the closure, then the status change |
| TicketRoutes.TrackedChangesLogged | backend/routes/ticketRoutes.js:380-390 | a field change is logged with its old and new values iff it differs strictly; a sent `sla` is always logged |
| TicketRoutes.TrackedChangesStored | backend/routes/ticketRoutes.js:380-392 | a changed tracked field is stored as sent |
| TicketRoutes.TwoChangesTwoEntries | backend/routes/ticketRoutes.js:380-393 | changing priority and category gives exactly those two changes and two messages naming both values |
| TicketRoutes.HelpDesk.Create | backend/routes/ticketRoutes.js:149-201 | a successful creation stores the ticket under the next id; a failure stores nothing; no log is written |
| TicketRoutes.HelpDesk.UpdateTicket | backend/routes/ticketRoutes.js:341-399 | 404, 403 and 500 leave store and log unchanged; otherwise the ticket is replaced and its audit rows are appended |
| TicketController.CreationLogAsWrittenNeverStored | backend/controllers/ticketController.js:31-36 | the creation log entry as written always fails validation, so it is never stored |
| TicketController.CreationLogStored | backend/utils/logHelper.js:3-5 | a creation log entry passed as a `message` is stored |
| TicketController.CreateTicketAsSent | backend/controllers/ticketController.js:4-53 | 400 iff one of the seven required fields is falsy; as written, no creation log entry is ever stored |
| TicketController.CreateTicketCorrected | backend/controllers/ticketController.js:31-36 | with the text passed as `message`: the same answer, and a creation entry, naming the ticket and the actor, iff a ticket was created |
| TicketController.ControllerStoresAsSent | backend/controllers/ticketController.js:16-38 | the controller stores slaStart, slaSolve and priority exactly as sent, open, with creator = actor and assignee = given value or null, and stores no creation entry |
| TicketController.ControllerValidationUnreachable | backend/controllers/ticketController.js:40-51 | the validation-error answer cannot occur after the field check; 500 iff the store fails |
| TicketController.CreatePathsAgree | backend/routes/ticketRoutes.js:202 | given the route's deadlines and normalised priority, the controller creates the same ticket |
| CreateTicketForm.FormId | frontend/src/pages/CreateTicket.js:90-91 | an empty id field is sent as null |
| CreateTicketForm.FormIdRoundTrip | frontend/src/pages/CreateTicket.js:90-91 | a rendered id is sent as that number |
| CreateTicketForm.ErrorReportShape | frontend/src/pages/CreateTicket.js:113-135 | the message is the base text, the server error and " (HTTP status)"; without a response, a detail is always shown |
| CreateTicketForm.TicketForm.constructor | frontend/src/pages/CreateTicket.js:8-18 | the form starts as first shown (empty fields, priority `low`, category `suporte`, no config), with no message and no detail |
| CreateTicketForm.TicketForm.RefreshSlaConfig | frontend/src/pages/CreateTicket.js:47-71 | the config is cleared when client or priority is empty, or the lookup fails; otherwise it is the GET answer; nothing else changes |
| CreateTicketForm.TicketForm.PayloadAt | frontend/src/pages/CreateTicket.js:81-94 | the form's deadlines are now + startHours and now + solveHours hours |
| CreateTicketForm.TicketForm.HandleSubmit | frontend/src/pages/CreateTicket.js:73-138 | no config: nothing is sent and only the message changes; otherwise the payload is sent, and success returns the form to how it was first shown, while an error keeps every field and shows the report |
| CreateTicketForm.TicketForm.ResetAfterCreate | frontend/src/pages/CreateTicket.js:104-111 | after success: the form as first shown, with the success message |
| CreateTicketForm.TicketForm.ShowError | frontend/src/pages/CreateTicket.js:113-135 | on error, the message and detail are shown and every field is kept |
| CreateTicketForm.ResetDefaults | frontend/src/pages/CreateTicket.js:10-11 | the form's first priority `low` differs from the schema's default `medium`; `suporte` is the schema's default |
| CreateTicketForm.FormAndServerDeadlinesAgree | frontend/src/pages/CreateTicket.js:81-83 | for the same policy, the form's and the server's deadlines differ by exactly the two clocks' difference |
| SlaStanding.ClassifyThresholds | frontend/src/pages/TicketDetails.js:66-78 | breached iff now > deadline; near iff less than one hour is left (deadline = now included); on time iff at least one hour is left |
| SlaStanding.StandingWorsens | frontend/src/pages/TicketDetails.js:66-78 | as time passes a deadline's standing never improves |
| SlaStanding.Split | frontend/src/pages/TicketDetails.js:60-61 | whole hours and minutes of a span, with minutes below 60 |
| SlaStanding.SpanTextHours | frontend/src/pages/TicketDetails.js:69-77 | the hour part is shown iff at least one hour is involved; the text ends in "min" |
| SlaStanding.SlaStatusInfoCases | frontend/src/pages/TicketDetails.js:52-80 | no deadline gives empty colour and text; otherwise the colour follows the standing and the text says "Vencido" iff now > deadline |
| SlaStanding.SlaColorAgrees | frontend/src/pages/TicketList.js:89-96 | the list's colour equals the details page's colour |
| SlaStanding.ExpiredIsBreached | backend/routes/ticketRoutes.js:58-60 | an expired ticket is breached; for an unclosed ticket, expired iff breached; a closed one is never expired |
| Labels.StatusLabelsDistinguish | frontend/src/pages/TicketList.js:311-318 | distinct statuses get distinct labels, each differing from the raw name; unknown values pass through |
| Labels.PriorityLabelsDistinguish | frontend/src/pages/TicketList.js:320-327 | distinct priorities get distinct labels, each differing from the raw name; unknown values pass through |
| Labels.PagesAgreeOnLabels | frontend/src/pages/TicketDetails.js:39-47 | both pages label statuses and priorities alike; only known statuses get an icon |
| Labels.Capitalize | frontend/src/pages/TicketList.js:329 | an absent or empty text gives ""; otherwise the first character is upper-cased and the rest is kept |
| Labels.CapitalizeFirstOnly | frontend/src/pages/TicketList.js:329 | only the first character changes, and only its case; capitalising twice is capitalising once |
| Labels.CapitalizeAsWrittenShowsNaN | frontend/src/pages/TicketDetails.js:38 | the details page's capitalize shows "NaN" for an absent text and agrees with the list's otherwise |
| Labels.CategoryText | frontend/src/pages/TicketDetails.js:138 | the category shown is empty iff there is none, and lower-cases back to the category's name |
| ListViews.HandleSort | frontend/src/pages/TicketList.js:80-86 | the clicked column becomes the key; descending iff it was the key and ascending |
| ListViews.HandleSortAlternates | frontend/src/pages/ClientList.js:79-85 | clicking a column twice flips the direction; on the active column, twice restores the config |
| ListViews.ArrowFollowsClick | frontend/src/pages/InventoryList.js:125-130 | only the clicked column shows an arrow, and it points down iff that column was ascending |
| ListViews.HitIgnoresCase | frontend/src/pages/TicketList.js:100-105 | the search ignores the query's case, and an empty query matches |
| ListViews.VisibleTickets | frontend/src/pages/TicketList.js:99-124 | exactly the tickets whose title, category, technician or client contains the query, each as many times as fetched, sorted on the chosen key |
| ListViews.EmptySearchShowsAllTickets | frontend/src/pages/TicketList.js:99-105 | an empty search shows every ticket |
| ListViews.RequestParams | frontend/src/pages/TicketList.js:44-49 | an empty filter is not sent; a non-empty one is |
| ListViews.ResetListsEverything | frontend/src/pages/TicketList.js:73-77 | after reset no filter is sent and the server lists every ticket; reset equals applying empty filters |
| ListViews.FiltersReachServer | backend/routes/ticketRoutes.js:208-213 | a ticket is listed iff it equals every non-empty filter the page sends |
| ListViews.VisibleClients | frontend/src/pages/ClientList.js:88-101 | exactly the clients whose name, cnpj, email or phone contains the query, each as many times as fetched, sorted on the chosen key |
| ListViews.EmptySearchShowsAllClients | frontend/src/pages/ClientList.js:89-94 | an empty search shows every client |
| ListViews.PlanLabels | frontend/src/pages/ClientList.js:230 | "Premium" iff the plan is `premium`, else "Básico", the same label as the default plan's |
| ListViews.FormPlanDefaults | frontend/src/pages/ClientList.js:150 | the new-client form defaults the plan to `basic`, and the edit form shows `basic` when the plan is missing |
| ListViews.VisibleItems | frontend/src/pages/InventoryList.js:104-122 | exactly the items whose name, type, serial number, status or notes contain the query, each as many times as fetched, sorted on the chosen key |
| ListViews.EmptySearchShowsAllItems | frontend/src/pages/InventoryList.js:105-111 | an empty search shows every item |
| ListViews.ItemSubmitResets | frontend/src/pages/InventoryList.js:57-68 | after a created item the page is as first shown (InventoryList.js:8-17) except for the message; after a failure only the message changes |
| ListViews.ClientSubmitResets | frontend/src/pages/ClientList.js:46 | the form set after a created client is the form first shown (ClientList.js:7-14) |
| SlaGrid.HandleChange | frontend/src/pages/SLAConfig.js:33-41 | the field changes on exactly the matching rows; other rows and the length are kept |
| SlaGrid.FindRow | frontend/src/pages/SLAConfig.js:85 | `find` returns the first matching row, or none when no row matches |
| SlaGrid.EditShowsInCell | frontend/src/pages/SLAConfig.js:85-95 | an edit shows in its cell; a cell without a row shows blanks |
| SlaGrid.GridCoversPolicyKeys | frontend/src/pages/SLAConfig.js:5-14 | the 3 × 2 grid has one cell for every policy key |
| SlaGrid.View | frontend/src/pages/SLAConfig.js:59-61 | access is restricted iff no admin is signed in |
| SlaGrid.EditedRowStores | frontend/src/pages/SLAConfig.js:95 | a start-hours edit keeps the row's key and stores the typed hours |
| SlaGrid.SaveMessage | frontend/src/pages/SLAConfig.js:43-56 | the message is cleared and stays empty iff the PUT gets no answer; the success text iff it was saved; the error prefix iff it was refused |
| SlaGrid.SaveReportsOutcome | frontend/src/pages/SLAConfig.js:43-56 | after an administrator's save the page reports success iff the store accepted every row, and shows nothing iff some row was refused |
| SlaGrid.EditThenSave | frontend/src/pages/SLAConfig.js:43-50 | editing a row's start hours and saving stores the new hours under that key |
| SlaGrid.RowKeyIsNamed | frontend/src/pages/SLAConfig.js:36 | a row is the grid's row for a key iff the store files it under that key |
| Reports.Get | frontend/src/pages/TicketReports.js:149 | `row[col]` gives the first entry under that name, and is undefined iff there is none |
| Reports.Put | frontend/src/pages/TicketReports.js:86 | assigning a new name appends it; nothing else enters the object |
| Reports.PutThenGet | frontend/src/pages/TicketReports.js:86 | reading an assigned name gives the value; other names are unchanged |
| Reports.AssignAll | frontend/src/pages/TicketReports.js:84 | `Object.assign` only brings in entries of its two arguments |
| Reports.FlattenFrom | frontend/src/pages/TicketReports.js:80-90 | the fold keeps only leaves and keeps every name under the prefix |
| Reports.Flatten | frontend/src/pages/TicketReports.js:80-90 | a flattened record holds leaves only |
| Reports.FlattenOfFlat | frontend/src/pages/TicketReports.js:85-86 | flattening a record without nested objects returns it unchanged |
| Reports.FlattenNested | frontend/src/pages/TicketReports.js:82-84 | a nested object's fields appear as `key.field`, before the following top-level fields |
| Reports.ColumnsOfReports | frontend/src/pages/TicketReports.js:115 | each report key uses its display columns; an unknown key uses the first row's names |
| Reports.LabelFallback | frontend/src/pages/TicketReports.js:139 | a header is the column's label, or the column name iff it has no label |
| Reports.ReportTable | frontend/src/pages/TicketReports.js:128-156 | no table without data; otherwise one labelled header cell per column and each row's cells are the flattened record's values |
| Reports.ExportSheet | frontend/src/pages/TicketReports.js:112-120 | no sheet without data; otherwise one header row plus one row per record, each with one cell per column |
| Reports.ExportMatchesPage | frontend/src/pages/TicketReports.js:117-151 | the sheet's rows are the page table's rows and its header row holds the same labels |
| Reports.ByClientShowsClientName | frontend/src/pages/TicketReports.js:42-48 | in the by-client report, the first column is labelled "Cliente" and shows the nested client name |

## Left out

- HTTP and persistence plumbing: routing, `findByPk`, status codes as numbers, and the Sequelize
  query builder. The stores are maps and sequences, and each answer is a datatype.
- Authentication (JWT, bcrypt): the actor `{id, role, name}` is an input. The token carries no
  name, so log messages render whatever name is given.
- Concurrency and transactions: each request runs on its own. The ticket write and the log insert
  of `PUT /:id` are two writes; a failure between them is not modelled.
- Foreign keys and their cascades, and the Client, User and Log associations: none of the modelled
  operations deletes rows.
- JavaScript floats, booleans and arbitrary objects in request bodies: a `JsValue` is undefined,
  null, an integer or a string. `Number(hours)` of a non-integer policy value is not modelled.
- Dates: ISO date text is modelled as integer milliseconds. `new Date()` is the `now` parameter,
  and `toISOString` and `toLocaleString` formatting are left out.
- Case mapping covers ASCII letters only. There is no Unicode case folding.
- Seqs.LexLess: strings are sequences of Unicode scalar values and are compared scalar by scalar.
  JavaScript's `<` compares UTF-16 code units, so the two orders differ between a character above
  U+FFFF and one in U+E000–U+FFFF. Sorting by text follows the scalar order.
- Seqs.SortBy: `Array.prototype.sort` is stable; the model's sort is proved sorted and a
  permutation of its input, but the order of rows with equal keys is not stated.
- SQL details: MySQL collation (case-insensitive filter matching) and MySQL casting a column value
  are not modelled. A value outside a cell's modelled domain (a wrong type, text that is no
  enumerator or no integer) is refused; the database's further checks are listed next.
- Models.IntCell, Models.StringCell: the cells do not model three checks the database makes. INT
  columns refuse values outside the 32-bit signed range, STRING columns (`Ticket.title`,
  `Log.message`) refuse text longer than 255 characters, and the `assignedTo` and `userId` foreign
  keys refuse ids of users that do not exist. The success conditions of
  `TicketRoutes.CreateSucceedsIff`, `TicketRoutes.ApplyUpdates`, `TicketRoutes.HelpDesk.UpdateTicket`
  and `SlaConfigRoutes.UpsertCompletes` assume them: where the source answers 500 for such a value
  (for example `PUT /:id` with an unknown `assignedTo` or a 300-character `sla`), the model
  answers with success.
- The GROUP BY, YEAR and MONTH report queries, and the dashboard's rounded average resolution time:
  these are SQL aggregates and a float.
- Comments, attachments, documents, uploads and downloads, and the client, inventory and user CRUD
  controllers: these are storage plumbing.
- Rendering, hooks and navigation of the React pages, and the XLSX library calls in
  TicketReports.js: `ExportSheet` builds the rows that are handed to the library.
- The second `router.post('/')` registration: the first handler always answers, so
  `ticketController.createTicket` is never reached through it. It is modelled as a separate path.
- TicketList sorting with null or missing values: JavaScript's `<` between null and strings is not
  modelled. Technician and client names use `''` when absent, as the source does. The other sort
  keys are modelled as present.
- `formatStatus` on TicketDetails looks a value up in an object literal, so a name such as
  `toString` would find an inherited property. Only strings that are not such property names are
  modelled.
- The JSON text of `JSON.stringify(details)` in the form's error report is modelled as opaque
  detail text.
- SLA PUT body items with extra attributes, and items the store refuses part-way: the loop aborts
  at the first refused item. An empty grid input is such an item. The request then gets no answer
  (`PutAborted`), and the page's message stays cleared.
- `Object.keys` puts integer-like keys first. Report records are modelled with their fields in
  listing order.
- Report records that are not objects: every report endpoint answers with objects.
- `flatten` passes the array index as `map`'s second argument, so the prefix is a number with no
  `length`. The model therefore flattens top-level fields without a prefix, which is what that
  index produces.
- Models.InsertUser: email uniqueness is checked against the set of existing emails only. The
  unique index's case-insensitive collation is not modelled.

## Findings

| source | as written | input that shows it | evidently intended | confidence | as-written member | corrected member |
|---|---|---|---|---|---|---|
| backend/controllers/ticketController.js:31-36 | passes `{action, description, userId, ticketId}` to `createLog`, which reads `message` (backend/utils/logHelper.js:3-5) | any successful creation through the controller: `message` is undefined, `Log.create` fails its not-null check, and the error is swallowed | the creation entry is stored with its text as `message` | high; not executed | TicketController.CreationLogAsWrittenNeverStored | TicketController.CreateTicketCorrected |
| frontend/src/pages/TicketDetails.js:38 | `text?.charAt(0).toUpperCase() + text?.slice(1)` | a ticket with no category: `undefined + undefined` renders "NaN" | an empty text, as TicketList.js:329 does | high; not executed | Labels.CapitalizeAsWrittenShowsNaN | Labels.CategoryText |
