# Study tracker: server request semantics and profile-page state

A model of the study-tracker backend and of the state helpers on its profile page.

The backend is a single HTTP handler over three MySQL tables:

- users: `user_id`, `username`, `email`, password hash
- tasks: `id`, `user_id`, `text`, `completed`, `flagged`
- sessions: `id`, `user_id`, `text`, `duration` in seconds, `date_added`

Requests are dispatched by method and path. Most routes sit behind a bearer-token guard. Each route runs one SQL statement scoped to the requester, then answers with a status code and a JSON body.

The profile page keeps a task list, a text field and a study timer. It updates them when the server's reply is ok.

## Modules

- `JsonValue` (json.dfy): decoded JSON bodies (`map<string, Json>`) and JavaScript truthiness.
- `Text` (text.dfy): JavaScript `split`, prefixes and decimal digits.
- `Auth` (auth.dfy)
  - The bearer-token guard.
  - Claims, and tokens as the claims signed plus the signing key.
- `Duration` (duration.dfy): `convertDurationToSeconds`.
- `Tables` (tables.dfy)
  - Rows, the store `Db`, and its key invariant `Wellformed`.
  - The owner-scoped SELECT and UPDATE statements, as functions on rows in insertion order.
- `Leaderboard` (leaderboard.dfy): the top-users aggregation.
  - Window filter, per-user sums, descending order, `LIMIT 20`.
- `Http` and `Routing` (http.dfy, routing.dfy)
  - Requests and responses.
  - The dispatch chain, with the URL segment and query-string handling it uses.
- `Api` (api.dfy)
  - One function per route, from the store before a request to the store after it and the response.
  - `Step`, the whole handler.
  - Everything outside the server comes in through `Env`:
    - `verify`: `jwt.verify` with the configured secret.
    - `hash` and `compare`: bcrypt.
    - `today`: `NOW()` / `CURRENT_DATE()`.
    - `storeError`: the driver's error when the statement fails.
- `ServerProperties` (properties.dfy): the properties the routes promise, as lemmas over `Api`.
- `Server` (store.dfy): the class `Store`.
  - It holds the tables as mutable fields.
  - It has one method per route plus `Handle`.
  - Each method is proved to leave the store and return the response exactly as the matching `Api` function says.
- `ProfilePage` (profile_page.dfy): `formatTime`, `trim`, the task-list transforms and the timer updates.
- `Sync` (sync.dfy)
  - The requests the page sends.
  - Whether the page's list and the server's tables agree after each of them.

## Decisions

Behaviour worth knowing:

- **Leaderboard windows.** For today, this month and this year, a user with no session in the window is not listed. The `WHERE` clause on the joined session row drops the group. Only all-time lists every user, at 0.
- **Query string.** The query is what follows the first '?' and comes before the first '#', as `new URL` parses it. So `/top-users?timeframe=today#x` ranks today.
- **Timeframe parameter.** A missing or empty `timeframe` means all-time, because of `|| 'all-time'`. Any other unknown value is 400.
- **Re-issued token.** The account update copies the token's old `username` claim. Sign-in tokens have no such claim. The new token is signed with the hard-coded literal, not the configured secret. The model records which key signed a token (`Auth.SigningKey`) and proves the re-issued one uses the literal.
- **`affectedRows`.** It is read as the number of rows the UPDATE matches. So rewriting a value a row already holds still answers 200.
- **Task ids in URLs.** The id segment is bound as a string and compared with the integer column. MySQL reads its leading digits: "12abc" selects 12; "" and "abc" select 0, which no row has. This holds outside MySQL's strict mode only (see Left out).
- **Truthiness.** Field checks follow JavaScript truthiness. Empty strings, `0`, `false` and `null` count as missing.

## Model

| member | source | states |
|---|---|---|
| `Text.SplitCons` | backend/server.js:319 | a piece without the separator, then the separator, starts the `split` result |
| `Text.SplitNone` | backend/server.js:62 | a string without the separator splits into itself |
| `Text.NatToString` | frontend/src/ProfilePage.js:159 | the template-literal numeral: non-empty, all digits, and starting with '0' only for 0 |
| `Text.SplitHead` | backend/server.js:435 | the first piece of a split is the prefix before the first separator |
| `Text.NatToStringRoundTrip` | frontend/src/ProfilePage.js:117 | reading back an id rendered in a template literal gives the id |
| `Text.LeadingDigits` | backend/server.js:322 | the longest all-digit prefix of the segment that MySQL compares with the id column |
| `Text.LeadingDigitsOfDigits` | backend/server.js:322 | an all-digit segment is its own leading-digit prefix |
| `Auth.BearerToken` | backend/server.js:43 | the second space-separated word of the header, when it is non-empty; it never contains a space |
| `Auth.Authenticate` | backend/server.js:42-58 | no token iff no second word; invalid iff the verifier rejects it; otherwise exactly the verifier's claims |
| `Auth.SingleWordHeaderHasNoToken` | backend/server.js:43-48 | an absent header, or a single word like "Bearer", is "No token provided" |
| `Auth.SchemeAndTokenHeader` | backend/server.js:43-52 | "scheme token" hands exactly `token` to the verifier, whatever the scheme word |
| `Auth.DoubleSpaceHasNoToken` | backend/server.js:43-48 | two spaces after the scheme leave an empty second word: no token |
| `Duration.ConvertDurationToSeconds` | backend/server.js:61-64 | a converted duration, when it is a number, is never negative |
| `Duration.ConvertDigitComponents` | backend/server.js:61-64 | three digit components h:m:s give h*3600 + m*60 + s |
| `Duration.ConvertRenderedHms` | backend/server.js:61-64 | rendered numbers H:M:S convert to H*3600 + M*60 + S |
| `Duration.ConvertExample` | backend/server.js:61-64 | "01:02:03" is 3723 seconds |
| `Duration.TwoComponentsIsNaN` | backend/server.js:62-63 | a two-component string leaves `seconds` undefined, so the total is NaN |
| `Tables.TasksWhere` | backend/server.js:249 | exactly the owner's tasks with the given flag, and no more rows than the table |
| `Tables.TasksOf` | backend/server.js:249 | exactly the owner's tasks |
| `Tables.ActiveArchivedPartition` | backend/server.js:249-268 | the flagged=false and flagged=true listings together are the owner's tasks, row for row |
| `Tables.MatchCount` | backend/server.js:331 | `affectedRows` is zero iff no row has that id and owner |
| `Tables.UpdateTasks` | backend/server.js:322 | each matching row gets the written column; every other row is unchanged; the length is kept |
| `Tables.UpdateTasksIdempotent` | backend/server.js:352-367 | repeating the same update leaves the same table |
| `Tables.UpdateTasksKeepsMatchCount` | backend/server.js:360 | after an update the same rows still match, so `affectedRows` is unchanged |
| `Tables.FindByEmail` | backend/server.js:118-131 | None iff no row has the email; otherwise a row with that email, the first one when the first row matches |
| `Tables.FindByEmailFirst` | backend/server.js:131 | `results[0]` is the first row in row order with that email |
| `Tables.ApplyChanges` | backend/server.js:210 | the SET list never changes the row's key |
| `Tables.UpdateUsers` | backend/server.js:210-212 | the requester's rows get the SET list, all other rows are unchanged |
| `Tables.UserMatchCount` | backend/server.js:220 | zero iff no row has the user id |
| `Tables.SessionsOf` | backend/server.js:408 | exactly the owner's sessions |
| `Leaderboard.ParseTimeframe` | backend/server.js:435-443 | absent or empty means all-time; each of "today", "this-month", "this-year" and "all-time" selects its window; None (400) iff the value is none of the four names |
| `Leaderboard.InWindow` | backend/server.js:455-478 | every window holds today; a bounded window holds only dates of this year |
| `Leaderboard.WindowsNest` | backend/server.js:455-478 | today lies in this month, this month in this year, this year in all time |
| `Leaderboard.WindowTotal` | backend/server.js:452 | the window sum is not negative when no duration is |
| `Leaderboard.NoSessionsSumToZero` | backend/server.js:452 | a user with no session in the window sums to 0 |
| `Leaderboard.Standings` | backend/server.js:450-493 | one row per listed user: every user for all-time, only users with a session in the window otherwise |
| `Leaderboard.StandingsDistinct` | backend/server.js:457 | grouping by user id gives one row per user |
| `Leaderboard.Insert` | backend/server.js:458 | inserting keeps the rows sorted by total and is a permutation plus the new row |
| `Leaderboard.SortDesc` | backend/server.js:458 | `ORDER BY total DESC`: sorted and a permutation of the grouped rows |
| `Leaderboard.InsertDistinct` | backend/server.js:457 | inserting a new user keeps user ids distinct |
| `Leaderboard.SortDescDistinct` | backend/server.js:457-458 | ordering keeps user ids distinct |
| `Leaderboard.TopUsers` | backend/server.js:459 | at most 20 rows |
| `Leaderboard.CutKeepsLargest` | backend/server.js:458-459 | cutting a descending list keeps rows at least as large as any row cut |
| `Leaderboard.TopUsersAreTheLargest` | backend/server.js:450-493 | sorted by total, every row a grouped row, and any grouped row left out is no larger than every row kept |
| `Leaderboard.AllTimeListsEveryUser` | backend/server.js:485-493 | all-time with at most 20 users lists every user, 0 for one without sessions |
| `Leaderboard.BoundedWindowNeedsSession` | backend/server.js:455-456 | for today, this-month and this-year every listed user has a session in the window |
| `Leaderboard.TopUsersDistinct` | backend/server.js:457 | no user appears twice |
| `Routing.TaskPathSegments` | backend/server.js:319 | "/tasks/rest" splits into "", "tasks" and the pieces of rest |
| `Routing.TaskActionSegments` | backend/server.js:348 | "/tasks/action/rest" splits into "", "tasks", action and the pieces of rest |
| `Routing.SegmentTwo` | backend/server.js:319 | `split('/')[2]` of a "/tasks/" URL is the first piece after the prefix |
| `Routing.SegmentThree` | backend/server.js:377 | `split('/')[3]` of a "/tasks/action/" URL is the first piece after the prefix |
| `Routing.Resolve` | backend/server.js:76-558 | the dispatch chain; OPTIONS is the preflight exactly when the method is OPTIONS |
| `Routing.DeletePathRoutes` | backend/server.js:315-319 | DELETE "/tasks/n" reaches the flag handler with segment n |
| `Routing.CompletePathRoutes` | backend/server.js:344-348 | PATCH "/tasks/complete/n" reaches the completion handler with segment n |
| `Routing.UnarchivePathRoutes` | backend/server.js:373-377 | PATCH "/tasks/unarchive/n" reaches the unarchive handler with segment n |
| `Routing.TogglePathIsUnmatched` | backend/server.js:555-557 | PATCH "/tasks/n" matches no route and falls to the 404 default |
| `Routing.WithoutFragment` | backend/server.js:434 | the URL up to its first '#': a prefix with no '#' |
| `Routing.QueryString` | backend/server.js:434 | None iff no '?' comes before the first '#'; otherwise what follows that '?', up to the fragment, with no '#' |
| `Routing.QueryStopsAtFragment` | backend/server.js:434 | in "path?q#f" the query is q |
| `Routing.QueryStringAfter` | backend/server.js:434 | a path without '?' or '#' followed by "?q", q without '#', has query q |
| `Routing.SearchParam` | backend/server.js:435 | a value iff some '&'-separated pair is named key; the value is that of the first such pair, has no '&' and only characters of the query |
| `Routing.ValueOf` | backend/server.js:435 | a pair's value is everything after its first '=', "" when it has none |
| `Routing.FirstParam` | backend/server.js:435 | a value iff some pair is named key; the value is `ValueOf` of the first pair named key |
| `Routing.FirstPairWins` | backend/server.js:435 | a leading pair named key decides the lookup, whatever follows |
| `Routing.OtherPairSkipped` | backend/server.js:435 | a leading pair with another name is skipped |
| `Routing.PairValue` | backend/server.js:435 | "key=v" is named key and has value v |
| `Routing.TimeframeParam` | backend/server.js:434-435 | None without a '?'; a value has no '&' or '#' |
| `Routing.TimeframeParamAfterOtherPair` | backend/server.js:434-435 | "path?a=1&timeframe=v" carries v when the first pair is not named timeframe |
| `Routing.TimeframeParamFirstWins` | backend/server.js:434-435 | with `timeframe` repeated, "path?timeframe=v&rest" carries the first value v |
| `Routing.SingleParam` | backend/server.js:435 | the query "key=v" gives v for key |
| `Routing.TimeframeParamOf` | backend/server.js:434-435 | "path?timeframe=v" carries v, for a path without '?' or '#' and a v without '&' or '#' |
| `Routing.TimeframeParamBeforeFragment` | backend/server.js:434-435 | "path?timeframe=v#f" still carries v |
| `Api.TaskIdOf` | backend/server.js:319-324 | an all-digit segment selects its decimal value; an empty segment or one not starting with a digit selects 0 |
| `Api.TaskIdOfRendered` | backend/server.js:322 | a rendered id in the URL selects that id |
| `Api.CreatedTask` | backend/server.js:309 | every body field is in the 201 body; `id` is the insert id unless the body has one |
| `Api.SignUp` | backend/server.js:84-106 | 400 iff a field is missing; 200 iff fields present and the insert succeeds, adding the hashed-password row; otherwise nothing changes; keys stay well formed |
| `Api.SignIn` | backend/server.js:109-144 | never writes; 400 iff email or password is missing; 500 iff both are present and the query fails; 200 only for the first row with that email and a matching password, with a token of `{user_id, email}` |
| `Api.Profile` | backend/server.js:147-167 | never writes; 500 iff the query fails; 404 iff no row has the token's email; 200 iff some row has it, returning a row with that email |
| `Api.ReissuedToken` | backend/server.js:227-231 | the new token keeps the caller's id and old username claim, takes the new email only if one was sent, uses the hard-coded key and lasts an hour |
| `Api.AccountChanges` | backend/server.js:185-200 | the SET list has at most the three fields |
| `Api.AccountChangesNonEmpty` | backend/server.js:202-206 | the SET list is non-empty iff some field is truthy, so the second 400 cannot happen |
| `Api.UpdateAccount` | backend/server.js:171-240 | 400 iff no field is truthy; 500 iff some field is truthy and the update fails; 404 iff no row has the requester's id; only 200 writes; other tables untouched; keys stay well formed |
| `Api.ListTasks` | backend/server.js:245-279 | never writes; 200 with exactly the requester's tasks of the requested flag |
| `Api.AddTask` | backend/server.js:283-311 | 400 iff text is falsy; only 201 writes; users and sessions untouched; keys stay well formed |
| `Api.UpdateOwnTask` | backend/server.js:322-335 | 404 iff no row matches (id, requester); 500 iff the statement fails, with the route's message; 200 writes the one column of the matching rows with the route's message; nothing else changes |
| `Api.FlagTask` | backend/server.js:315-340 | 404 iff no row matches; 200 sets `flagged` true on exactly the matching rows and answers "Task flagged successfully"; otherwise nothing changes |
| `Api.CompletedValue` | backend/server.js:350 | the sent `completed` value, false when the field is absent |
| `Api.CompleteTask` | backend/server.js:344-369 | 404 iff no row matches; 200 sets `completed` to the sent value (false if absent) on exactly the matching rows; otherwise nothing changes |
| `Api.FlaggedValue` | backend/server.js:379-383 | true iff `flagged` is sent and truthy |
| `Api.UnarchiveTask` | backend/server.js:373-399 | 404 iff no row matches; 200 sets `flagged` to the truth of the sent value on exactly the matching rows; otherwise nothing changes |
| `Api.Views` | backend/server.js:408 | one view per session row, in order |
| `Api.ListSessions` | backend/server.js:403-419 | never writes; 200 unless the query fails, with the views of the caller's sessions in row order |
| `Api.TopUsersRoute` | backend/server.js:423-515 | never writes; 400 iff the timeframe is invalid; 200 iff it is valid and the query succeeds, with the top rows of the named window, at most 20 |
| `Api.StoredDuration` | backend/server.js:532-535 | a numeric duration is bound unchanged |
| `Api.EchoedDuration` | backend/server.js:532-549 | the 201 body echoes the stored number for a string or number duration, and a boolean as it was sent |
| `Api.LogSession` | backend/server.js:519-551 | 400 iff text or duration is falsy; 201 appends one session owned by the requester with the converted duration and today's date; otherwise nothing changes |
| `Api.Serve` | backend/server.js:148-545 | every guarded handler keeps the keys well formed |
| `Api.Step` | backend/server.js:76-563 | every request keeps the keys well formed |
| `ServerProperties.GuardOutcomes` | backend/server.js:42-58 | on every guarded route: no token is 401, a rejected token is 403, both with nothing changed; otherwise the handler runs with the verifier's claims |
| `ServerProperties.PreflightChangesNothing` | backend/server.js:76-80 | OPTIONS is 204 with no body on any URL |
| `ServerProperties.UnmatchedChangesNothing` | backend/server.js:555-558 | an unmatched request is 404 "Route not found" and changes nothing |
| `ServerProperties.ServeIsolation` | backend/server.js:249-540 | a guarded handler changes no other user's row in any table, and inserts only rows owned by the requester |
| `ServerProperties.StepIsolation` | backend/server.js:42-558 | the same for any authenticated request to a guarded route |
| `ServerProperties.SignInFailuresAreUniform` | backend/server.js:125-138 | an unknown email and a wrong password give the identical 401 |
| `ServerProperties.SignInIssuesRowClaims` | backend/server.js:131-142 | the token's claims are exactly `{user_id, email}` of the first row with that email |
| `ServerProperties.FindByEmailAppend` | backend/server.js:118 | an email new to the table finds the row just appended |
| `ServerProperties.SignUpThenSignIn` | backend/server.js:84-167 | after sign-up, sign-in with the same credentials issues a token for the new row, and the profile read returns it |
| `ServerProperties.ApplyAccountChanges` | backend/server.js:188-210 | the SET list writes exactly the truthy fields, the password hashed |
| `ServerProperties.ApplyChangesConcat` | backend/server.js:210 | applying two SET lists in turn is applying their concatenation |
| `ServerProperties.UpdateAccountEffect` | backend/server.js:178-238 | 404 when no row matches; otherwise only the requester's row changes, in its supplied fields, and the re-issued token is returned |
| `ServerProperties.TaskListingsPartition` | backend/server.js:249-268 | active is exactly the unflagged tasks of the requester, archived exactly the flagged; together they are all the requester's tasks |
| `ServerProperties.AddTaskEffect` | backend/server.js:290-309 | exactly one row appended, owned by the requester, not completed, not flagged, under a fresh id; the 201 body has every body field |
| `ServerProperties.UpdateOwnTaskWritesOneColumn` | backend/server.js:322-397 | flag, complete and unarchive change only the one column of matching rows |
| `ServerProperties.ForeignTaskIsNotFound` | backend/server.js:331-335 | a task of another user, or a missing one, is 404 and nothing changes |
| `ServerProperties.AbsentValuesDefaultToFalse` | backend/server.js:350-379 | an absent `completed` or `flagged` writes false |
| `ServerProperties.UpdateIsRepeatable` | backend/server.js:352-397 | repeating a successful update succeeds again with the same store |
| `ServerProperties.FlagMovesToArchive` | backend/server.js:315-338 | after a soft delete the task is in the archived listing and not the active one |
| `ServerProperties.LogSessionConvertsHms` | backend/server.js:531-549 | a duration "H:M:S" is stored and echoed as H*3600 + M*60 + S |
| `ServerProperties.LogSessionKeepsNumbers` | backend/server.js:532-549 | a non-zero numeric duration is stored and echoed unchanged |
| `ServerProperties.LogSessionRejectsFalsyDuration` | backend/server.js:525-529 | an absent, empty, zero, false or null duration is 400 with no insert |
| `ServerProperties.SessionListingIsOwn` | backend/server.js:408-417 | every listed view is that of a session the caller owns, and every such session is listed |
| `ServerProperties.TopUsersDefaultsToAllTime` | backend/server.js:435 | a URL without a query ranks over all time |
| `ServerProperties.TopUsersRouteSelectsWindow` | backend/server.js:434-493 | "path?timeframe=v", with or without a fragment, answers 200 with the top rows of the window v names |
| `ServerProperties.TopUsersRouteRanking` | backend/server.js:450-513 | a 200 is at most 20 rows, non-increasing in total, one per user |
| `ServerProperties.RunKeepsWellformed` | backend/server.js:68-564 | any sequence of requests keeps primary keys unique and below the counters |
| `ServerProperties.EmptyStoreIsWellformed` | backend/server.js:93 | the empty store satisfies the key invariant |
| `Server.Store.constructor` | backend/server.js:14-29 | empty tables with counters at 1, well formed |
| `Server.Store.SignUp` | backend/server.js:84-106 | the tables and response are those of `Api.SignUp` |
| `Server.Store.SignIn` | backend/server.js:109-144 | the response is that of `Api.SignIn` |
| `Server.Store.Profile` | backend/server.js:147-167 | the response is that of `Api.Profile` |
| `Server.Store.UpdateAccount` | backend/server.js:171-240 | builds the SET list field by field; the tables and response are those of `Api.UpdateAccount` |
| `Server.Store.ListTasks` | backend/server.js:245-279 | the response is that of `Api.ListTasks` |
| `Server.Store.AddTask` | backend/server.js:283-311 | the tables and response are those of `Api.AddTask` |
| `Server.Store.UpdateOwnTask` | backend/server.js:322-335 | the tables and response are those of `Api.UpdateOwnTask` |
| `Server.Store.FlagTask` | backend/server.js:315-340 | the tables and response are those of `Api.FlagTask` |
| `Server.Store.CompleteTask` | backend/server.js:344-369 | the tables and response are those of `Api.CompleteTask` |
| `Server.Store.UnarchiveTask` | backend/server.js:373-399 | the tables and response are those of `Api.UnarchiveTask` |
| `Server.Store.ListSessions` | backend/server.js:403-419 | the response is that of `Api.ListSessions` |
| `Server.Store.TopUsers` | backend/server.js:423-515 | the response is that of `Api.TopUsersRoute` |
| `Server.Store.LogSession` | backend/server.js:519-551 | the tables and response are those of `Api.LogSession` |
| `Server.Store.Serve` | backend/server.js:148-545 | the tables and response are those of `Api.Serve` |
| `Server.Store.Handle` | backend/server.js:68-564 | the tables and response are those of `Api.Step`; validity is kept |
| `ProfilePage.TwoDigits` | frontend/src/ProfilePage.js:161 | the seconds field is exactly two digits |
| `ProfilePage.NatToStringOfTwoDigits` | frontend/src/ProfilePage.js:161 | below ten a number renders in one digit, below a hundred in two |
| `ProfilePage.FormatTime` | frontend/src/ProfilePage.js:158-162 | the display ends in ':' and two characters |
| `ProfilePage.DigitsValueLeadingZero` | frontend/src/ProfilePage.js:161 | the zero padding does not change the value read |
| `ProfilePage.FormatTimeRoundTrip` | frontend/src/ProfilePage.js:158-162 | the display is minutes ':' two-digit seconds; the minutes are exactly the decimal numeral of `floor(s/60)`, with no leading zero; reading both back gives `floor(s/60)`, `s % 60` and s |
| `ProfilePage.FormatTimeOfShortDurations` | frontend/src/ProfilePage.js:158-162 | 5 seconds display as "0:05" and 300 as "5:00" |
| `ProfilePage.FormatTimeOfAnHour` | frontend/src/ProfilePage.js:159 | 3600 seconds display as "60:00" |
| `ProfilePage.MinutesExceedAnHour` | frontend/src/ProfilePage.js:159 | from an hour on the minutes field exceeds 59 |
| `ProfilePage.SkipForward` | frontend/src/ProfilePage.js:83 | the index reached is the end of the run of white space from the start index: all before it are white space, the one at it is not |
| `ProfilePage.SkipBackward` | frontend/src/ProfilePage.js:83 | the index reached is the start of the run of white space before the end index: all from it are white space, the one before it is not |
| `ProfilePage.TrimStart` | frontend/src/ProfilePage.js:83 | removes exactly the leading white space |
| `ProfilePage.TrimEnd` | frontend/src/ProfilePage.js:83 | removes exactly the trailing white space |
| `ProfilePage.Trim` | frontend/src/ProfilePage.js:83 | the input with exactly its leading and trailing white space removed; a non-empty result starts and ends with other characters |
| `ProfilePage.TrimNonEmpty` | frontend/src/ProfilePage.js:83 | `trim()` is non-empty iff some character is not white space |
| `ProfilePage.TaskAdd` | frontend/src/ProfilePage.js:82-111 | a blank input or a failed reply changes nothing; otherwise the reply is appended after the unchanged tasks and the input is cleared |
| `ProfilePage.RemoveId` | frontend/src/ProfilePage.js:123 | the filter never lengthens the list |
| `ProfilePage.RemoveIdMembers` | frontend/src/ProfilePage.js:123 | the filter keeps exactly the tasks whose id differs |
| `ProfilePage.RemoveIdConcat` | frontend/src/ProfilePage.js:123 | the filter distributes over concatenation, so the kept tasks keep their order |
| `ProfilePage.RemoveIdAbsent` | frontend/src/ProfilePage.js:123 | a list without the id is unchanged |
| `ProfilePage.TaskDelete` | frontend/src/ProfilePage.js:113-130 | a failed reply changes nothing; otherwise exactly the tasks with a different id remain |
| `ProfilePage.ToggleId` | frontend/src/ProfilePage.js:146-148 | same length; matching tasks get `completed: !completed`, the others are unchanged |
| `ProfilePage.TaskToggle` | frontend/src/ProfilePage.js:132-156 | a failed reply changes nothing |
| `ProfilePage.ToggleTouchesOnlyCompleted` | frontend/src/ProfilePage.js:146-148 | only the `completed` field of matching tasks changes; all other fields and tasks are kept |
| `ProfilePage.ToggleTwiceRestoresTruth` | frontend/src/ProfilePage.js:142-147 | toggling twice restores the truth of `completed` |
| `ProfilePage.Tick` | frontend/src/ProfilePage.js:75 | adds exactly one second and keeps `isRunning` |
| `ProfilePage.Start` | frontend/src/ProfilePage.js:193 | sets running, keeps the seconds |
| `ProfilePage.Pause` | frontend/src/ProfilePage.js:202 | clears running, keeps the seconds |
| `ProfilePage.Reset` | frontend/src/ProfilePage.js:210 | zero seconds, not running |
| `ProfilePage.ElapseCounts` | frontend/src/ProfilePage.js:72-80 | n seconds advance a running timer by n and leave a paused one alone |
| `ProfilePage.StartRunPause` | frontend/src/ProfilePage.js:193-202 | start, n seconds, pause advances the display by n and stops |
| `Sync.TrimmedInputIsNonEmpty` | frontend/src/ProfilePage.js:83 | an input that is posted is non-empty, so the server accepts its text |
| `Sync.AddAgrees` | frontend/src/ProfilePage.js:82-102 | the server inserts the text under the next id, and the page appends exactly `{id, text, completed: false}` |
| `Sync.DeleteAgrees` | frontend/src/ProfilePage.js:113-123 | the task leaves the server's active listing and the page's list |
| `Sync.ToggleRequestAsWritten` | frontend/src/ProfilePage.js:136-142 | the toggle's request as sent resolves to no route |
| `Sync.ToggleRequest` | backend/server.js:344-348 | the corrected request reaches the completion handler with the id's segment |
| `Sync.ToggleAsWrittenIsLost` | frontend/src/ProfilePage.js:136-151 | the toggle as sent is 404 with the store untouched, and the page keeps its list |
| `Sync.ToggleAgrees` | backend/server.js:344-367 | sent to the completion route, the toggle succeeds, and server and page hold the same new `completed` |

## Findings

| source | as written | input that shows it | evidently intended | confidence | as-written member | corrected member |
|---|---|---|---|---|---|---|
| frontend/src/ProfilePage.js:136 | the completion toggle sends `PATCH /tasks/${id}`, which no backend route matches | any task id, e.g. `PATCH /tasks/5` with `{completed: true}`: the server answers 404 "Route not found", nothing is written, and the page leaves the checkbox as it was | `PATCH /tasks/complete/${id}`, the route the server has (backend/server.js:344) | high (not executed) | `Sync.ToggleAsWrittenIsLost` | `Sync.ToggleAgrees` |

## Left out

- I/O is not modelled: the HTTP server, the MySQL connection, CORS headers, console logging and JSON body parsing. A request arrives as a decoded object; a body that fails to parse is not modelled.
- Concurrency is not modelled. Each request is one atomic step on the store; callback interleavings are out.
- JWT signing and verification, and bcrypt, are foreign calls. They are the `Env` parameters `verify`, `hash` and `compare`. A token is the claims, the key and the lifetime that were signed. The encoded string and the expiry clock are not modelled.
- `Env.today` stands for `NOW()` and `CURRENT_DATE()`. The time of day is dropped.
- `Env.storeError` stands for every failure of the store: uniqueness violations, lost connections. MySQL may still advance an auto-increment counter on a failed insert; the model leaves it unchanged.
- MySQL type coercion and collation are not modelled.
  - Columns from the body hold the JSON value bound to them.
  - Email matching is exact, not case-insensitive.
  - Booleans are not turned into 0/1 when read back.
- `Api.TaskIdOf` reads only the leading digits of a URL segment. Signs, leading spaces, decimals and exponents are not modelled.
- `Api.TaskIdOf` assumes MySQL runs outside strict SQL mode. Under `STRICT_TRANS_TABLES` an UPDATE whose WHERE compares the id with a segment that is not all digits fails with error 1292, and the route answers 500. The model answers as the non-strict server does, matching the leading digits.
- Floating point is not modelled. Leaderboard totals are kept in integer seconds, since `total_hours` is seconds / 3600 and the division does not change the order. The `total_hours ? total_hours : 0` post-processing is therefore the identity.
- The order of leaderboard rows with equal totals is not stated.
- `Duration.ConvertDurationToSeconds`: `Number` is modelled only on strings of decimal digits ("" is 0). Signs, spaces, decimals and hex forms are treated as NaN.
- A NaN duration is answered as the store rejecting the statement. The message is MySQL's answer to the bare word `NaN`.
- `GET /sessions` returns the duration in seconds; the `SEC_TO_TIME` formatting is not modelled.
- `Routing.SearchParam` does not percent-decode, and does not read '+' as a space.
- On top-users, after the guard has answered 401 or 403 the handler attempts a second write of a 401. The response has already ended, so that write throws; the catch's own attempt to answer 500 throws again, out of the handler. What follows the guard's answer is not modelled: the response is the guard's.
- An exception inside a handler answers 500 "Internal server error". The only throws are in parsing and in the foreign calls, which are left out.
- Non-primitive JSON field values (arrays and nested objects) are not modelled.
- The page's `fetch` calls, `localStorage`, redirects, `setInterval` and the JSX are not modelled. The timer's interval is modelled as one tick per elapsed second while running.
- The other frontend files are not part of this model.
