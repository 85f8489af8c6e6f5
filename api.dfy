/**
 * What each route does to the store and what it answers, as functions from the store before
 * the request to the store after it and the response. Everything the server cannot decide by
 * itself (the token verifier, the password hash and its comparison, today's date, and whether
 * the database rejects the statement) comes in through `Env`.
 */
module Api {
  import opened JsonValue
  import opened Text
  import opened Auth
  import opened Duration
  import opened Tables
  import L = Leaderboard
  import opened Http
  import opened Routing

  /**
   * The outside world of one request: `verify` is `jwt.verify` with the configured secret,
   * `hash` is `bcrypt.hash`, `compare` is `bcrypt.compare`, `today` is `CURRENT_DATE()`/`NOW()`,
   * and `storeError` is the driver's error message when the request's statement fails
   * (a duplicate key, a lost connection), None when it succeeds.
   */
  datatype Env = Env(verify: string -> Option<Claims>, hash: Json -> Digest,
                     compare: (Json, Digest) -> bool, today: Date, storeError: Option<string>)

  datatype Outcome = Outcome(db: Db, resp: Response)

  /** What MySQL answers when the driver binds the number NaN: it is written as a bare word. */
  const NaNRejected := "Unknown column 'NaN' in 'field list'"

  // ------------------------------------------------------------------ helpers

  /**
   * The id a URL segment selects in `WHERE id = ?`: MySQL compares the integer column with
   * the string by reading the string's leading digits ("12abc" is 12, "" and "abc" are 0).
   */
  function TaskIdOf(segment: string): (id: nat)
    ensures AllDigits(segment) ==> id == DigitsValue(segment)
    ensures segment == "" || !IsDigit(segment[0]) ==> id == 0
  {
    var p := LeadingDigits(segment);
    assert AllDigits(segment) ==> p == segment by {
      if AllDigits(segment) { LeadingDigitsOfDigits(segment); }
    }
    DigitsValue(p)
  }

  /** A rendered id selects that id. */
  lemma TaskIdOfRendered(n: nat)
    ensures TaskIdOf(NatToString(n)) == n
  {
    LeadingDigitsOfDigits(NatToString(n));
    NatToStringRoundTrip(n);
  }

  /** `{ id: insertId, ...taskData }`: every body field, and `id` only where the body has none. */
  function CreatedTask(id: int, body: JsonObject): (r: JsonObject)
    ensures forall k :: k in body ==> k in r && r[k] == body[k]
    ensures "id" !in body ==> "id" in r && r["id"] == JNum(id)
    ensures r.Keys == body.Keys + {"id"}
  {
    map["id" := JNum(id)] + body
  }

  // ------------------------------------------------------------------ sign-up and sign-in

  predicate SignUpFieldsPresent(body: JsonObject) {
    Present(body, "username") && Present(body, "email") && Present(body, "password")
  }

  /** POST /SignUp: insert the user with the hashed password, or 400 / 500. */
  function SignUp(db: Db, body: JsonObject, env: Env): (o: Outcome)
    ensures Wellformed(db) ==> Wellformed(o.db)
    ensures o.resp.status == 400 <==> !SignUpFieldsPresent(body)
    ensures o.resp.status == 200 <==> SignUpFieldsPresent(body) && env.storeError.None?
    ensures o.resp.status != 200 ==> o.db == db
    ensures o.resp.status == 200 ==>
              o.db.tasks == db.tasks && o.db.sessions == db.sessions &&
              o.db.users == db.users + [User(db.nextUserId, body["username"], body["email"], env.hash(body["password"]))]
  {
    if !SignUpFieldsPresent(body) then Outcome(db, Msg(400, "Missing required fields"))
    else if env.storeError.Some? then Outcome(db, Msg(500, "Error inserting user data: " + env.storeError.value))
    else
      var u := User(db.nextUserId, body["username"], body["email"], env.hash(body["password"]));
      Outcome(db.(users := db.users + [u], nextUserId := db.nextUserId + 1),
              Msg(200, "User Information Added Successfully"))
  }

  /** The token sign-in issues: exactly `{user_id, email}` of the user row, with the configured secret. */
  function LoginTokenFor(u: User): Token {
    Token(Claims(u.userId, u.email, None), ConfiguredSecret, TokenLifetime)
  }

  /** POST /SignIn: look the user up by email and compare the password; the store is never written. */
  function SignIn(db: Db, body: JsonObject, env: Env): (o: Outcome)
    ensures o.db == db
    ensures o.resp.status == 400 <==> !Present(body, "email") || !Present(body, "password")
    ensures o.resp.status == 500 <==> Present(body, "email") && Present(body, "password") && env.storeError.Some?
    ensures o.resp.status == 200 ==>
              var u := FindByEmail(db.users, body["email"]);
              u.Some? && env.compare(body["password"], u.value.password) &&
              o.resp.body == LoginToken("Login successful", LoginTokenFor(u.value))
  {
    if !Present(body, "email") || !Present(body, "password") then
      Outcome(db, Msg(400, "Missing email or password"))
    else if env.storeError.Some? then Outcome(db, Msg(500, "Database query error"))
    else
      match FindByEmail(db.users, body["email"])
      case None => Outcome(db, Msg(401, "Invalid email or password"))
      case Some(u) =>
        if !env.compare(body["password"], u.password) then Outcome(db, Msg(401, "Invalid email or password"))
        else Outcome(db, Response(200, LoginToken("Login successful", LoginTokenFor(u))))
  }

  // ------------------------------------------------------------------ profile and account

  /** GET /ProfilePage2: the row whose email is the token's email claim. */
  function Profile(db: Db, c: Claims, env: Env): (o: Outcome)
    ensures o.db == db
    ensures o.resp.status == 500 <==> env.storeError.Some?
    ensures o.resp.status == 404 <==> env.storeError.None? && forall u :: u in db.users ==> u.email != c.email
    ensures env.storeError.None? && (exists u :: u in db.users && u.email == c.email) ==> o.resp.status == 200
    ensures o.resp.status == 200 ==>
              exists u :: u in db.users && u.email == c.email && o.resp.body == ProfileRow(u.userId, u.username, u.email)
  {
    if env.storeError.Some? then Outcome(db, Msg(500, "Database error"))
    else
      match FindByEmail(db.users, c.email)
      case None => Outcome(db, Msg(404, "User not found"))
      case Some(u) => Outcome(db, Response(200, ProfileRow(u.userId, u.username, u.email)))
  }

  predicate AnyAccountField(body: JsonObject) {
    Present(body, "username") || Present(body, "email") || Present(body, "password")
  }

  /** The SET list the update builds: each truthy field in order, the password hashed. */
  function AccountChanges(body: JsonObject, env: Env): (chs: seq<AccountChange>)
    ensures |chs| <= 3
  {
    (if Present(body, "username") then [NewUsername(body["username"])] else [])
    + (if Present(body, "email") then [NewEmail(body["email"])] else [])
    + (if Present(body, "password") then [NewPassword(env.hash(body["password"]))] else [])
  }

  /**
   * The second 400 ("No valid fields to update.") cannot be reached: once some field is
   * truthy the SET list is non-empty.
   */
  lemma AccountChangesNonEmpty(body: JsonObject, env: Env)
    ensures |AccountChanges(body, env)| > 0 <==> AnyAccountField(body)
  {
  }

  /**
   * The re-issued token: the caller's id, the new email if one was sent and the old one
   * otherwise, the old username claim (even when a new username was sent), hard-coded key.
   */
  function ReissuedToken(c: Claims, body: JsonObject): (t: Token)
    ensures t.claims.userId == c.userId
    ensures t.claims.email == if Present(body, "email") then body["email"] else c.email
    ensures t.claims.username == c.username
    ensures t.key == HardCodedSecret && t.expiresInSeconds == TokenLifetime
  {
    Token(Claims(c.userId, if Present(body, "email") then body["email"] else c.email, c.username),
          HardCodedSecret, TokenLifetime)
  }

  /** PATCH /update-account. */
  function UpdateAccount(db: Db, c: Claims, body: JsonObject, env: Env): (o: Outcome)
    ensures Wellformed(db) ==> Wellformed(o.db)
    ensures o.db.tasks == db.tasks && o.db.sessions == db.sessions
    ensures o.resp.status == 400 <==> !AnyAccountField(body)
    ensures o.resp.status == 500 <==> AnyAccountField(body) && env.storeError.Some?
    ensures o.resp.status != 200 ==> o.db == db
    ensures o.resp.status == 404 <==> AnyAccountField(body) && env.storeError.None? && UserMatchCount(db.users, c.userId) == 0
  {
    if !AnyAccountField(body) then Outcome(db, Msg(400, "No fields provided to update."))
    else
      var chs := AccountChanges(body, env);
      if |chs| == 0 then Outcome(db, Msg(400, "No valid fields to update."))
      else if env.storeError.Some? then Outcome(db, Msg(500, "Failed to update account information."))
      else if UserMatchCount(db.users, c.userId) == 0 then Outcome(db, Msg(404, "User not found."))
      else
        Outcome(db.(users := UpdateUsers(db.users, c.userId, chs)),
                Response(200, NewToken("Account information updated successfully.", ReissuedToken(c, body))))
  }

  // ------------------------------------------------------------------ tasks

  /** GET /tasks (`archived` false) and GET /archived-tasks (`archived` true). */
  function ListTasks(db: Db, c: Claims, archived: bool, env: Env): (o: Outcome)
    ensures o.db == db
    ensures o.resp.status == 200 <==> env.storeError.None?
    ensures o.resp.status == 200 ==> o.resp.body == TaskRows(TasksWhere(db.tasks, c.userId, archived))
  {
    if env.storeError.Some? then Outcome(db, Msg(500, "Database error"))
    else Outcome(db, Response(200, TaskRows(TasksWhere(db.tasks, c.userId, archived))))
  }

  /** POST /tasks. */
  function AddTask(db: Db, c: Claims, body: JsonObject, env: Env): (o: Outcome)
    ensures Wellformed(db) ==> Wellformed(o.db)
    ensures o.db.users == db.users && o.db.sessions == db.sessions
    ensures o.resp.status == 400 <==> !Present(body, "text")
    ensures o.resp.status != 201 ==> o.db == db
  {
    if !Present(body, "text") then Outcome(db, Msg(400, "Task text is required"))
    else if env.storeError.Some? then Outcome(db, Msg(500, "Error adding task: " + env.storeError.value))
    else
      var t := Task(db.nextTaskId, c.userId, body["text"], JBool(false), false);
      Outcome(db.(tasks := db.tasks + [t], nextTaskId := db.nextTaskId + 1),
              Response(201, Created(CreatedTask(db.nextTaskId, body))))
  }

  /**
   * The shared shape of the three task updates: one owner-scoped UPDATE of one column,
   * 404 when it matches no row.
   */
  function UpdateOwnTask(db: Db, c: Claims, segment: string, col: TaskColumn, env: Env,
                         failure: string, success: string): (o: Outcome)
    ensures Wellformed(db) ==> Wellformed(o.db)
    ensures o.db.users == db.users && o.db.sessions == db.sessions
    ensures o.db.nextTaskId == db.nextTaskId
    ensures o.resp.status == 404 <==> env.storeError.None? && MatchCount(db.tasks, TaskIdOf(segment), c.userId) == 0
    ensures o.resp.status == 500 <==> env.storeError.Some?
    ensures o.resp.status == 500 ==> o.resp == Msg(500, failure)
    ensures o.resp.status == 200 ==> o.db.tasks == UpdateTasks(db.tasks, TaskIdOf(segment), c.userId, col)
    ensures o.resp.status == 200 ==> o.resp == Msg(200, success)
    ensures o.resp.status != 200 ==> o.db == db
  {
    var id := TaskIdOf(segment);
    if env.storeError.Some? then Outcome(db, Msg(500, failure))
    else if MatchCount(db.tasks, id, c.userId) == 0 then Outcome(db, Msg(404, "Task not found or not authorized"))
    else
      var db1 := db.(tasks := UpdateTasks(db.tasks, id, c.userId, col));
      assert Wellformed(db) ==> Wellformed(db1) by {
        if Wellformed(db) {
          UpdateTasksKeepsKeys(db.tasks, id, c.userId, col, db.nextTaskId);
        }
      }
      Outcome(db1, Msg(200, success))
  }

  /** DELETE /tasks/<id>: a soft delete, `flagged = TRUE`. */
  function FlagTask(db: Db, c: Claims, segment: string, env: Env): (o: Outcome)
    ensures o.resp.status == 404 <==> env.storeError.None? && MatchCount(db.tasks, TaskIdOf(segment), c.userId) == 0
    ensures o.resp.status == 500 <==> env.storeError.Some?
    ensures o.resp.status == 200 ==> o.resp == Msg(200, "Task flagged successfully")
    ensures o.resp.status == 200 ==> FlaggedRows(db.tasks, o.db.tasks, TaskIdOf(segment), c.userId, true)
    ensures o.resp.status != 200 ==> o.db == db
  {
    UpdateOwnTask(db, c, segment, SetFlagged(true), env, "Error flagging task", "Task flagged successfully")
  }

  /** The value bound to `completed`: the sent one, even `null`, and false only when the field is absent. */
  function CompletedValue(body: JsonObject): (v: Json)
    ensures "completed" in body ==> v == body["completed"]
    ensures "completed" !in body ==> v == JBool(false)
  {
    if "completed" in body then body["completed"] else JBool(false)
  }

  /** PATCH /tasks/complete/<id>. */
  function CompleteTask(db: Db, c: Claims, segment: string, body: JsonObject, env: Env): (o: Outcome)
    ensures o.resp.status == 404 <==> env.storeError.None? && MatchCount(db.tasks, TaskIdOf(segment), c.userId) == 0
    ensures o.resp.status == 500 <==> env.storeError.Some?
    ensures o.resp.status == 200 ==> o.resp == Msg(200, "Task updated successfully")
    ensures o.resp.status == 200 ==>
              |o.db.tasks| == |db.tasks| &&
              forall i :: 0 <= i < |db.tasks| ==>
                o.db.tasks[i] == if Matches(db.tasks[i], TaskIdOf(segment), c.userId)
                                 then db.tasks[i].(completed := CompletedValue(body)) else db.tasks[i]
    ensures o.resp.status != 200 ==> o.db == db
  {
    UpdateOwnTask(db, c, segment, SetCompleted(CompletedValue(body)), env, "Error updating task", "Task updated successfully")
  }

  /** The value bound to `flagged`: 1 when the sent value is truthy, 0 otherwise or when absent. */
  function FlaggedValue(body: JsonObject): (f: bool)
    ensures f <==> "flagged" in body && Truthy(body["flagged"])
  {
    Present(body, "flagged")
  }

  /** PATCH /tasks/unarchive/<id>. */
  function UnarchiveTask(db: Db, c: Claims, segment: string, body: JsonObject, env: Env): (o: Outcome)
    ensures o.resp.status == 404 <==> env.storeError.None? && MatchCount(db.tasks, TaskIdOf(segment), c.userId) == 0
    ensures o.resp.status == 500 <==> env.storeError.Some?
    ensures o.resp.status == 200 ==> o.resp == Msg(200, "Task updated successfully")
    ensures o.resp.status == 200 ==> FlaggedRows(db.tasks, o.db.tasks, TaskIdOf(segment), c.userId, FlaggedValue(body))
    ensures o.resp.status != 200 ==> o.db == db
  {
    UpdateOwnTask(db, c, segment, SetFlagged(FlaggedValue(body)), env, "Error updating task", "Task updated successfully")
  }

  /** `after` is `before` with `flagged` set to `f` on the rows `WHERE id = ? AND user_id = ?` selects. */
  predicate FlaggedRows(before: seq<Task>, after: seq<Task>, id: int, owner: int, f: bool) {
    |after| == |before| &&
    forall i :: 0 <= i < |before| ==>
      after[i] == if Matches(before[i], id, owner) then before[i].(flagged := f) else before[i]
  }

  // ------------------------------------------------------------------ sessions and leaderboard

  function View(s: Session): SessionView {
    SessionView(s.id, s.text, s.duration, s.dateAdded)
  }

  function Views(ss: seq<Session>): (r: seq<SessionView>)
    ensures |r| == |ss| && forall i :: 0 <= i < |ss| ==> r[i] == View(ss[i])
  {
    seq(|ss|, i requires 0 <= i < |ss| => View(ss[i]))
  }

  /** GET /sessions: the caller's sessions. */
  function ListSessions(db: Db, c: Claims, env: Env): (o: Outcome)
    ensures o.db == db
    ensures o.resp.status == 200 <==> env.storeError.None?
    ensures o.resp.status == 200 ==> o.resp.body == SessionRows(Views(SessionsOf(db.sessions, c.userId)))
  {
    if env.storeError.Some? then Outcome(db, Msg(500, "Database error"))
    else Outcome(db, Response(200, SessionRows(Views(SessionsOf(db.sessions, c.userId)))))
  }

  /** GET /top-users[?timeframe=...]. */
  function TopUsersRoute(db: Db, url: string, env: Env): (o: Outcome)
    ensures o.db == db
    ensures o.resp.status == 400 <==> L.ParseTimeframe(TimeframeParam(url)).None?
    ensures o.resp.status == 200 ==> o.resp.body.TopUserRows? && |o.resp.body.standings| <= L.Limit
    ensures L.ParseTimeframe(TimeframeParam(url)).Some? && env.storeError.None? ==> o.resp.status == 200
    ensures o.resp.status == 200 ==>
              o.resp.body == TopUserRows(L.TopUsers(db.users, db.sessions, L.ParseTimeframe(TimeframeParam(url)).value, env.today))
  {
    match L.ParseTimeframe(TimeframeParam(url))
    case None => Outcome(db, Msg(400, "Invalid timeframe parameter"))
    case Some(tf) =>
      if env.storeError.Some? then Outcome(db, Response(500, MessageWithError("Database error", env.storeError.value)))
      else Outcome(db, Response(200, TopUserRows(L.TopUsers(db.users, db.sessions, tf, env.today))))
  }

  /**
   * The value bound to the duration column: a string goes through `convertDurationToSeconds`
   * (None is NaN), a number is bound as it is, and `true` is bound as 1.
   */
  function StoredDuration(d: Json): (r: Option<int>)
    ensures d.JNum? ==> r == Some(d.n)
  {
    match d
    case JStr(s) => ConvertDurationToSeconds(s)
    case JNum(n) => Some(n)
    case JBool(b) => Some(if b then 1 else 0)
    case JNull => None
  }

  /** The `duration` the 201 body echoes: the converted number for a string, the sent value otherwise. */
  function EchoedDuration(d: Json, seconds: int): (e: Json)
    ensures StoredDuration(d) == Some(seconds) && !d.JBool? ==> e == JNum(seconds)
    ensures d.JBool? ==> e == d
  {
    if d.JStr? then JNum(seconds) else d
  }

  predicate SessionFieldsPresent(body: JsonObject) {
    Present(body, "text") && Present(body, "duration")
  }

  /** POST /sessions. */
  function LogSession(db: Db, c: Claims, body: JsonObject, env: Env): (o: Outcome)
    ensures Wellformed(db) ==> Wellformed(o.db)
    ensures o.db.users == db.users && o.db.tasks == db.tasks
    ensures o.resp.status == 400 <==> !SessionFieldsPresent(body)
    ensures o.resp.status != 201 ==> o.db == db
    ensures o.resp.status == 201 ==>
              StoredDuration(body["duration"]).Some? &&
              o.db.sessions == db.sessions +
                [Session(db.nextSessionId, c.userId, body["text"], StoredDuration(body["duration"]).value, env.today)]
  {
    if !SessionFieldsPresent(body) then Outcome(db, Msg(400, "Study text and duration are required"))
    else
      match StoredDuration(body["duration"])
      case None => Outcome(db, Msg(500, "Error adding study session: " + NaNRejected))
      case Some(seconds) =>
        if env.storeError.Some? then Outcome(db, Msg(500, "Error adding study session: " + env.storeError.value))
        else
          var s := Session(db.nextSessionId, c.userId, body["text"], seconds, env.today);
          Outcome(db.(sessions := db.sessions + [s], nextSessionId := db.nextSessionId + 1),
                  Response(201, SessionCreated(db.nextSessionId, body["text"], EchoedDuration(body["duration"], seconds))))
  }

  // ------------------------------------------------------------------ dispatch

  /** A guarded route once the guard has let the request through. */
  function Serve(db: Db, route: Route, c: Claims, req: Request, env: Env): (o: Outcome)
    requires Guarded(route)
    ensures Wellformed(db) ==> Wellformed(o.db)
  {
    match route
    case GetProfile => Profile(db, c, env)
    case PatchAccount => UpdateAccount(db, c, req.body, env)
    case GetTasks => ListTasks(db, c, false, env)
    case GetArchivedTasks => ListTasks(db, c, true, env)
    case PostTask => AddTask(db, c, req.body, env)
    case DeleteTask(seg) => FlagTask(db, c, seg, env)
    case PatchCompleted(seg) => CompleteTask(db, c, seg, req.body, env)
    case PatchUnarchive(seg) => UnarchiveTask(db, c, seg, req.body, env)
    case GetSessions => ListSessions(db, c, env)
    case GetTopUsers => TopUsersRoute(db, req.url, env)
    case PostSession => LogSession(db, c, req.body, env)
  }

  /** The whole request handler: one request against the store. */
  function Step(db: Db, req: Request, env: Env): (o: Outcome)
    ensures Wellformed(db) ==> Wellformed(o.db)
  {
    var route := Resolve(req.verb, req.url);
    match route
    case Preflight => Outcome(db, Response(204, NoContent))
    case PostSignUp => SignUp(db, req.body, env)
    case PostSignIn => SignIn(db, req.body, env)
    case Unmatched => Outcome(db, Msg(404, "Route not found"))
    case _ =>
      match Authenticate(req.authorization, env.verify)
      case NoToken => Outcome(db, Msg(401, "No token provided"))
      case InvalidToken => Outcome(db, Msg(403, "Invalid token"))
      case Authenticated(c) => Serve(db, route, c, req, env)
  }
}
