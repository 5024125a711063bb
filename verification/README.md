# Smart PT core rules, in Dafny

This project models the rule-bearing core of the Smart PT public-transport
web app and proves properties of it.

- **Disruption reports.**
  - The disruptions page keeps a local list of reports. Submitting the report form either merges the report into the active entry for the same route and location (compared case-insensitively) as one more confirmation, or prepends a new entry.
  - A merge keeps the higher of the two severities and the longer description.
  - The `/api/disruptions` endpoint validates and stores new reports (`POST`). It refuses a repeat within 24 hours and lists reports newest first, filling in missing columns (`GET`).
  - The `/api/disruptions/confirm` endpoint records a confirmation row copied from the original report, with an escalated severity.
- **Directions.**
  - `calculateRoute` builds the request and normalises the provider's answer.
  - `calculateMultipleRoutes` asks for three transit variants in turn, keeps the first route per (summary, duration, distance) key, and sorts by duration.
- **Route cards.** The transfer counter, the badge of each route, and the "N transfer(s)" caption.
- **Classifiers.** The trip planner's crowding label and colour bands, and its planning guard. The two-hour expiry of a report. The departure-time picker: its state, and its `datetime-local` formatter.
- **Demo accounts.** The local account store: a user list plus a session token, with sign-up, sign-in, sign-out and current-user.

The model has one module per core source file. Four modules are shared:

- `Base`: `Option`, and JavaScript truthiness of optional strings.
- `Text`: ASCII case folding, substring search, decimal rendering, padding, and string length in UTF-16 units as JavaScript's `.length` counts it.
- `Records`: database rows, oracle results and HTTP replies.
- `Severity`: the severity and disruption-type names that the report endpoint validates, and the severity ranking that both the disruptions page (`getHigherSeverity`) and the confirmation endpoint apply when two reports are merged.

It replaces the program's I/O with parameters:

- **Database calls.** Every Supabase call is a parameter: the outcome that call returned (`DbResult`). A small table model (`RowsWith`, `DuplicateQuery`) shows what the lookups return for a given table.
- **Directions provider.** Each provider answer is a parameter.
- **`localStorage`.** The account store is a state value.
- **Clock and random ids.** The current time is an integer in milliseconds. `crypto.randomUUID()` is a fresh-id argument.

Behaviour of the code worth knowing:

- **POST status.** A successful report `POST` replies with status 200.
- **Retry payload.** The retry after an insert error mentioning `user_id` sends the identical payload again. The payload never contained `user_id`.
- **Anonymous reporter.** A new entry's reporter is "Anonymous" also when the email has nothing before its '@'.
- **Duplicate confirmations.** The confirmation endpoint's duplicate check can only catch a user confirming their own report; see the third row of "## Findings".

## Model

| member | source | states |
|---|---|---|
| Severity.SeverityNameRoundTrip | src/app/api/disruptions/route.ts:46-52 | exactly "low", "medium" and "high" are accepted severities, each naming its own level |
| Severity.TypeNameRoundTrip | src/app/api/disruptions/route.ts:55-61 | exactly the five type names are accepted, each naming its own type |
| Severity.Rank | src/app/disruptions/page.tsx:218-220 | levels are 1 to 3; 3 exactly for "high", 2 exactly for "medium", 1 for any unknown string |
| Severity.HigherSeverity | src/app/disruptions/page.tsx:217-223 | the result is one of the two arguments; it ranks as the maximum of both; the new one is returned (and differs) exactly when it ranks strictly higher |
| Severity.HigherSeverityNeverDowngrades | src/app/disruptions/page.tsx:218-222 | merging never lowers the level; on equal levels the current value is kept; high+low gives high, low+medium gives medium |
| Severity.MergeAllRanksAsMaximum | src/app/disruptions/page.tsx:148-152 | after any series of merges the severity ranks as the highest of the start and all reports, and is one of them |
| Severity.HigherSeverityAsWritten | src/app/disruptions/page.tsx:218-222 | the lookup as written agrees with the intended ranking on every name the level table does not inherit |
| Severity.InheritedNameBlocksEscalation | src/app/disruptions/page.tsx:218-222 | as written, a current severity "toString" is not replaced by "high" although an unknown name should rank 1 |
| DisruptionFeed.FindMatch | src/app/disruptions/page.tsx:136-141 | the first entry with equal route and location ignoring case and status "active"; none exactly when no entry matches |
| DisruptionFeed.ReporterName | src/app/disruptions/page.tsx:172 | the text of the email before its first '@' when that is non-empty, otherwise "Anonymous"; "Anonymous" without an email; never empty and never containing '@' |
| DisruptionFeed.ReporterNameOfAddress | src/app/disruptions/page.tsx:172 | for an address name@domain the reporter is name |
| DisruptionFeed.Submit | src/app/disruptions/page.tsx:118-184 | signed-out or incomplete forms are rejected in that order; a match changes only that index: confirmations +1, identity, email and creation time kept, "Just now" shown, severity at the higher level, description replaced by the form's exactly when that is longer in UTF-16 units; otherwise one active entry with one confirmation, id `String(now)`, the reporter's name and email and creation time `now` is prepended before the unchanged old list |
| DisruptionFeed.SubmitKeepsGroupsDistinct | src/app/disruptions/page.tsx:134-183 | if no two active entries share route and location before a submission, none do after |
| DisruptionFeed.InitialListHasDistinctGroups | src/app/disruptions/page.tsx:53-90 | the starting list already has at most one active entry per route and location |
| ConfirmApi.EscalatedSeverity | src/app/api/disruptions/confirm/route.ts:72-81 | the stored severity is the original or the supplied one; it changes exactly when the supplied one is present, different and ranks strictly higher; it never ranks lower than the original |
| ConfirmApi.LongerDescription | src/app/api/disruptions/confirm/route.ts:83-85 | the supplied description replaces the original exactly when it is strictly longer in UTF-16 units; the result is never shorter |
| ConfirmApi.Confirm | src/app/api/disruptions/confirm/route.ts:11-123 | a missing id or user gives 400 before any lookup; 409 exactly when the lookup found a row; a lookup error other than PGRST116 gives 500; a failed fetch gives 404; a supplied description with no original description throws (500); every other request with a found original sends the insert and replies 200 with the inserted data or 500 "Failed to confirm disruption"; the inserted row copies route, location and type from the original, carries the caller's id, and has the escalated severity and the longer description of the request |
| ConfirmApi.RowsWith | src/app/api/disruptions/confirm/route.ts:32-37 | the rows with the given id (and user, when given), and all of them |
| ConfirmApi.RepeatedConfirmationIsAccepted | src/app/api/disruptions/confirm/route.ts:31-52 | with the duplicate check as written, a user who did not report the original can confirm it twice, and both requests succeed and insert a row |
| ConfirmApi.ConfirmInAsWritten | src/app/api/disruptions/confirm/route.ts:31-66 | against a table, 409 exactly when one row has the disruption's id and the caller's user id |
| ConfirmApi.ReportsBy | src/app/api/disruptions/confirm/route.ts:88-99 | exactly the rows by the given user with the route, location and type a confirmation copies from the original |
| ConfirmApi.Existing | src/app/api/disruptions/confirm/route.ts:31-37 | the intended duplicate check finds a row exactly when the caller already has a row about the same report as the original |
| ConfirmApi.ConfirmIn | src/app/api/disruptions/confirm/route.ts:31-66 | against a table with the intended check, 409 exactly when the caller already reported or confirmed the same report; 404 when the original is not found |
| ConfirmApi.RepeatedConfirmationIsRefused | src/app/api/disruptions/confirm/route.ts:31-52 | with the intended check, the first confirmation succeeds and the same user's second one gets 409 and inserts nothing |
| ConfirmApi.OwnReportIsRefused | src/app/api/disruptions/confirm/route.ts:31-52 | with either duplicate check, confirming a row the caller reported gives 409 and inserts nothing |
| ReportApi.Submit | src/app/api/disruptions/route.ts:24-165 | a missing field gives 400, then a bad severity, then a bad type; 409 exactly when the duplicate check worked and found a row; every insert sends exactly the six validated fields with the current time and no user; there is one retry, only after an error mentioning user_id; once an insert is sent, the reply is 200 with the data or 500 with the error message of the last insert sent |
| ReportApi.InsertReply | src/app/api/disruptions/route.ts:126-155 | 200 with the data exactly for a successful insert; otherwise 500, carrying the database's message when the insert returned an error |
| ReportApi.Recent | src/app/api/disruptions/route.ts:69-74 | exactly the stored reports with the same route and location created at or after the window start |
| ReportApi.Newest | src/app/api/disruptions/route.ts:75-76 | the row kept is a newest one among the matches |
| ReportApi.DuplicateQuery | src/app/api/disruptions/route.ts:69-76 | at most one row, present exactly when a same-route, same-location report exists from the last 24 hours |
| ReportApi.DuplicateWindow | src/app/api/disruptions/route.ts:65-94 | a valid report is refused with 409 exactly when the table holds a report on its route and location from the last 24 hours |
| ReportApi.ResubmissionIsRefused | src/app/api/disruptions/route.ts:65-94 | a report stored at time t blocks any valid report on the same route and location up to t + 24 h |
| ReportApi.FailedCheckDoesNotBlock | src/app/api/disruptions/route.ts:78-86 | when the duplicate check errors, a valid report is still inserted |
| ReportApi.ListQueryFor | src/app/api/disruptions/route.ts:172-197 | limit 50 and offset 0 by default; the inclusive range [offset, offset+limit-1] has limit rows; a filter for each non-empty parameter; every filter compares one of route_number, severity and disruption with that column's own non-empty parameter, and no column is filtered twice |
| ReportApi.Normalise | src/app/api/disruptions/route.ts:213-224 | each missing or empty column takes its default: route_number falls back to route then "Unknown", disruption to type then "other", severity to "low", user_id to "anonymous"; every listed field is non-empty |
| ReportApi.NormaliseAll | src/app/api/disruptions/route.ts:213 | same length and order; element i is row i normalised |
| ReportApi.List | src/app/api/disruptions/route.ts:199-229 | a query error gives 500 with its message; otherwise total equals the list's length and the rows keep their order and count |
| ReportApi.NormaliseKeepsCompleteRows | src/app/api/disruptions/route.ts:213-224 | normalising a normalised report changes nothing, and a row with every column present is listed as stored |
| Directions.VariantOptions | src/lib/google-maps/directions.ts:274-302 | three variants, each carrying its own transit options |
| Directions.RequestAsWritten | src/lib/google-maps/directions.ts:137-153 | the request's transit options are the fixed all-modes, fewer-transfers ones whatever the caller passes; travel mode defaults to TRANSIT |
| Directions.VariantRequestsCoincideAsWritten | src/lib/google-maps/directions.ts:137-153 | as written, the three variants produce the same request |
| Directions.Request | src/lib/google-maps/directions.ts:137-153 | the caller's transit options are used when given; everything else is as written |
| Directions.VariantRequestsDiffer | src/lib/google-maps/directions.ts:274-302 | with the options honoured, the three variant requests are pairwise different |
| Directions.MeasureOf | src/lib/google-maps/directions.ts:166-173 | a missing measure, text or value reads as '' or 0; present parts are copied |
| Directions.NormaliseLeg | src/lib/google-maps/directions.ts:178-201 | one step per provider step, with its travel mode kept |
| Directions.Normalise | src/lib/google-maps/directions.ts:162-173 | the route's distance and duration are its first leg's, with '' and 0 as defaults; every leg is normalised in order |
| Directions.NormaliseRoundTrip | src/lib/google-maps/directions.ts:162-201 | a route given with every part present comes back unchanged: the defaults never overwrite a value the provider sent |
| Directions.CalculateRoute | src/lib/google-maps/directions.ts:159-265 | a non-OK status rejects with that status; a route resolves exactly when the answer has a route with a leg, and is that route normalised; an OK answer without a route or leg never settles |
| Directions.RouteIdIsKey | src/lib/google-maps/directions.ts:316 | two routes have the same string id exactly when they have the same (summary, duration, distance) key |
| Directions.FirstsKeys | src/lib/google-maps/directions.ts:307-325 | the keys kept are exactly the keys of the successful variants |
| Directions.FirstsAreDistinct | src/lib/google-maps/directions.ts:316-320 | kept routes have pairwise distinct keys, each is a success, and there are no more of them than successes |
| Directions.CollectDistinct | src/lib/google-maps/directions.ts:304-325 | the loop keeps, in arrival order, the first success for each key; failed variants are skipped |
| Directions.SortByDuration | src/lib/google-maps/directions.ts:328 | the sorted list is a permutation of its input |
| Directions.SortByDurationIsSorted | src/lib/google-maps/directions.ts:327-328 | the output is non-decreasing by duration |
| Directions.SortByDurationIsStable | src/lib/google-maps/directions.ts:328 | routes of equal duration keep their arrival order |
| Directions.CalculateMultipleRoutes | src/lib/google-maps/directions.ts:268-329 | no answer while a variant never settles; otherwise sorted by duration, a permutation of the first-per-key routes, keys pairwise distinct, every route from a successful variant, every successful key present, no more routes than successful variants; the first route is no slower than any route a variant resolved to |
| Directions.FirstIsFastest | src/lib/google-maps/directions.ts:327-328 | in a sorted list holding a route with each resolved variant's key, the first route is no slower than any of them |
| RouteOptionsView.CountTransfers | src/components/RouteOptions.tsx:74-88 | the loop computes the fold of the per-step rule; the count is at most the TRANSIT steps and at most the WALKING steps; no WALKING step means 0 transfers |
| RouteOptionsView.FirstLegModes | src/components/RouteOptions.tsx:111 | the first leg's step modes in order, or none when there is no leg |
| RouteOptionsView.CountedModesAreProviders | src/components/RouteOptions.tsx:111 | the modes counted for a resolved route are exactly the travel modes of the provider's first leg, in order |
| RouteOptionsView.TrackedModeIsLastRelevant | src/components/RouteOptions.tsx:76-84 | the tracked mode is always '', TRANSIT or WALKING: the last such step seen |
| RouteOptionsView.TransferStep | src/components/RouteOptions.tsx:79-83 | a step adds a transfer exactly when it is TRANSIT and the last relevant step was WALKING |
| RouteOptionsView.TransferBounds | src/components/RouteOptions.tsx:78-85 | transfers never exceed the TRANSIT steps, nor the WALKING steps |
| RouteOptionsView.GetRouteType | src/components/RouteOptions.tsx:19-24 | "Fastest" exactly at index 0; after that "Fewer Transfers" exactly when the summary contains "fewer transfers" ignoring case, "Less Walking" exactly when it contains "walking" but not that, "Alternative" exactly when neither |
| RouteOptionsView.BadgesAreDistinct | src/components/RouteOptions.tsx:19-24 | the four badges have pairwise different labels and colours, so the badge shown identifies the route type |
| RouteOptionsView.RouteTypeIgnoresCase | src/components/RouteOptions.tsx:21-22 | summaries equal up to letter case get the same badge |
| RouteOptionsView.TransferCaption | src/components/RouteOptions.tsx:139 | the caption starts with the number and ends in 's' exactly when the count is not 1 |
| RouteOptionsView.TransferCaptionReadsBack | src/components/RouteOptions.tsx:139 | the caption's leading digits read back as the count, so different counts get different captions |
| TripPlanner.CrowdingLabel | src/app/trip-planner/page.tsx:86-91 | "Low" exactly below 30, "Medium" exactly for 30 to 59, "High" exactly for 60 to 79, "Very High" exactly from 80 |
| TripPlanner.CrowdingColor | src/app/trip-planner/page.tsx:79-84 | green, yellow, orange and red exactly on the same four bands |
| TripPlanner.LabelAndColorAgree | src/app/trip-planner/page.tsx:79-91 | label and colour are always those of the same band |
| TripPlanner.BandsAreMonotone | src/app/trip-planner/page.tsx:79-91 | a higher level never falls in a lower band |
| TripPlanner.PlanTrip | src/app/trip-planner/page.tsx:103-110 | planning is a no-op when either location is empty; otherwise it ends showing the fixed options, no longer planning |
| DisruptionExpiry.IsExpired | src/lib/disruption-utils.ts:8-14 | a readable creation time is expired exactly when more than two hours have passed; an invalid date never is |
| DisruptionExpiry.ExpiryBoundary | src/lib/disruption-utils.ts:8-14 | a report exactly two hours old is not expired, one a millisecond older is; an invalid date never expires |
| DisruptionExpiry.ExpiryIsMonotone | src/lib/disruption-utils.ts:11-13 | once expired, a report stays expired at any later time |
| DisruptionExpiry.FilterActive | src/lib/disruption-utils.ts:49-51 | keeps exactly the reports that are not expired; never longer than the input |
| DisruptionExpiry.FilterActiveCounts | src/lib/disruption-utils.ts:49-51 | each unexpired report is kept as many times as it occurs and each expired one is dropped every time |
| DisruptionExpiry.FilterActiveKeepsOrder | src/lib/disruption-utils.ts:49-51 | the kept reports are a subsequence of the input, in the same order |
| DisruptionExpiry.FilterActiveComposes | src/lib/disruption-utils.ts:49-51 | filtering at an earlier time and then a later one equals filtering at the later one |
| DisruptionExpiry.FilterActiveIsIdempotent | src/lib/disruption-utils.ts:49-51 | filtering twice at the same time equals filtering once |
| DemoAuth.FindUserByEmail | src/lib/auth.ts:31-33 | the first user whose email equals the query ignoring case; none exactly when no user's does |
| DemoAuth.SignUp | src/lib/auth.ts:35-50 | fails exactly when the email exists ignoring case, leaving the store unchanged; otherwise appends exactly the new user and keeps the token |
| DemoAuth.SignIn | src/lib/auth.ts:52-59 | fails exactly when the user is missing or the password differs, leaving the store unchanged; otherwise the token names that user and the users are untouched |
| DemoAuth.SignOut | src/lib/auth.ts:61-64 | the token is cleared and the users are untouched |
| DemoAuth.IsSignedIn | src/lib/auth.ts:66-69 | not signed in without a token; signed in with a session token; an unreadable token counts exactly when its text is non-empty; signed in whenever there is a current user |
| DemoAuth.CurrentUser | src/lib/auth.ts:71-82 | a user only for a readable token, the stored user with the token's id; none when no stored user has that id |
| DemoAuth.SignUpKeepsValid | src/lib/auth.ts:35-50 | with a fresh id, sign-up keeps emails unique ignoring case and ids unique |
| DemoAuth.SignInThenCurrentUser | src/lib/auth.ts:52-82 | after a successful sign-in the user is signed in and the current user is the account the email names |
| DemoAuth.SignOutEndsSession | src/lib/auth.ts:61-82 | after sign-out nobody is signed in, the current user is null, and the accounts remain |
| DemoAuth.StaleSessionIsSignedIn | src/lib/auth.ts:66-82 | a session for an id no stored user has counts as signed in yet has no current user |
| DemoAuth.SecondSignUpFails | src/lib/auth.ts:37-40 | signing up again with the same email in any letter case fails with "Email đã tồn tại." |
| Text.Utf16Length | src/app/disruptions/page.tsx:154 | `.length`: at least the number of characters and at most twice it, and equal to it when every character is in the Basic Multilingual Plane |
| Text.Utf16LengthAppend | src/app/disruptions/page.tsx:154 | the length of a concatenation is the sum of the lengths |
| Text.AstralPairHasLengthFour | src/app/api/disruptions/confirm/route.ts:83 | two characters outside the Basic Multilingual Plane have `.length` 4 |
| DateTimePicker.HandleValueChange | src/components/DateTimePicker.tsx:17-25 | choosing "custom" switches to the custom field and emits the stored custom value; any other choice switches back and emits that value verbatim |
| DateTimePicker.HandleCustomChange | src/components/DateTimePicker.tsx:27-32 | an edit is always stored and emitted exactly while the custom field is active |
| DateTimePicker.CustomEmitsLastEdit | src/components/DateTimePicker.tsx:17-32 | after any run of events, choosing "custom" emits the most recent edit |
| DateTimePicker.FromMountCustomEmitsLastEdit | src/components/DateTimePicker.tsx:14-32 | from the mounted state, choosing "custom" emits the last edit so far, or the empty string before any edit |
| DateTimePicker.TwoDigits | src/components/DateTimePicker.tsx:37-40 | a field below 100 renders as exactly two digits |
| DateTimePicker.TwoDigitsValue | src/components/DateTimePicker.tsx:37-40 | the two digits read back as the field's value |
| DateTimePicker.FormatLocal | src/components/DateTimePicker.tsx:34-42 | for a four-digit year the text has length 16 with '-' at 4 and 7, 'T' at 10 and ':' at 13 |
| DateTimePicker.FormatThenParse | src/components/DateTimePicker.tsx:34-42 | the text reads back as the same year, day, hours and minutes, with the month shown as getMonth()+1 |

## Left out

- Supabase I/O. Queries, inserts and the status and test endpoints are not modelled; each call's outcome is a parameter of the handler that makes it.
- Google Maps SDK. Geocoding, places, the map component, the inspector markers and the loader are foreign calls with callbacks and floating-point coordinates.
- Directions waypoints, `duration_in_traffic`, transit details and departure/arrival times. They do not affect deduplication, sorting or the top-level measures.
- Provider errors that reject asynchronously. These are modelled as outcome parameters rather than exceptions.
- The chat relay and chat widget. They are a network call to a language model plus DOM text scraping.
- Auth provider wrappers, sign-in and sign-up pages, profile and dashboard. They delegate to an external service and hold React state.
- `autoDeleteExpiredDisruptions`. It is a loop of HTTP DELETE requests.
- Rendering, hooks, debounce timers and the two-second `setTimeout` waits. These are UI and event timing; `PlanTrip` models the state after the wait.
- The disruptions page's form reset and success-message timers.
- The `typeof window` guard in the account store. The model is the browser case only.
- A corrupt `demo_users` value reading as no users. The user list is a sequence, not JSON text.
- ISO date parsing and formatting. Times are integer milliseconds, and an unreadable date is the `InvalidDate` case. The listing's `created_at` default, the current time as ISO text, is passed in as a string.
- `parseInt` of the `limit` and `offset` query parameters, including NaN. The parameters arrive as already-read integers or as absent.
- Unicode `toLowerCase`. Case folding is ASCII only.
- JavaScript's exponent form for numbers of 1e21 and above in `Date.now().toString()` and route ids. Numbers render in plain decimal.
- The confirmation endpoint when a fetch returns no row without an error. The client library reports that as an error, which the model takes as the 404 case.
- DisruptionFeed.Submit: merges severities with the corrected ranking `Severity.HigherSeverity` of the first row of "## Findings", not the object-literal lookup of page.tsx:218-222; the two differ only for a stored severity that names an inherited `Object.prototype` member, such as "toString".
- ConfirmApi.Confirm: escalates with the same corrected ranking, through `EscalatedSeverity`, not the object-literal lookup of confirm/route.ts:74-78; the difference is the same as for `DisruptionFeed.Submit`.
- DisruptionExpiry.FilterActive: its own contract states membership only; how many times each report is kept is stated by `DisruptionExpiry.FilterActiveCounts`.
- Directions.Normalise: requires the route to have a leg. The as-written code throws inside the provider callback otherwise, which `CalculateRoute` models as the `Unsettled` outcome.

## Findings

| source | as written | input that shows it | evidently intended | confidence | as-written member | corrected member |
|---|---|---|---|---|---|---|
| src/app/disruptions/page.tsx:218-222 | `severityLevels[s] \|\| 1` on an object literal finds inherited `Object.prototype` members, so the `\|\| 1` default is skipped and `>` compares with NaN; the same lookup is in src/app/api/disruptions/confirm/route.ts:74-78 | current "toString", new "high": the current value is kept | every name outside low/medium/high ranks 1, so "high" replaces it | low: reachable only if such a string is stored as a severity; not executed | Severity.InheritedNameBlocksEscalation | Severity.HigherSeverity |
| src/lib/google-maps/directions.ts:137-153 | `calculateRoute` builds `transitOptions` itself and never reads `options.transitOptions`, so the three variants of lines 274-302 send the same request | any origin and destination: all three variant requests are equal | each variant asks for its own modes and routing preference | high; not executed | Directions.VariantRequestsCoincideAsWritten | Directions.VariantRequestsDiffer |
| src/app/api/disruptions/confirm/route.ts:31-37 | the check "has this user already confirmed this disruption" looks for a row whose own `id` is the disruption id and whose `user_id` is the caller, but a confirmation is inserted under a new id (lines 88-99), so only the original report can match | a user who did not report a disruption confirms it twice: both requests return 200 and insert a row | the caller's second confirmation of the same report is refused with 409 and inserts nothing | high; not executed | ConfirmApi.RepeatedConfirmationIsAccepted | ConfirmApi.RepeatedConfirmationIsRefused |
