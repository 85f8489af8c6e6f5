/**
 * The server as an object over the three tables: each route handler is a method that runs the
 * route's statement against the tables in place and returns the response, and `Handle` is
 * the dispatch chain. Every method is proved to do exactly what the matching `Api` function
 * specifies, so the properties proved there hold of the store.
 */
module Server {
  import opened JsonValue
  import opened Auth
  import opened Duration
  import opened Tables
  import L = Leaderboard
  import opened Http
  import opened Routing
  import Api

  class Store {
    var users: seq<User>
    var tasks: seq<Task>
    var sessions: seq<Session>
    var nextUserId: int
    var nextTaskId: int
    var nextSessionId: int

    /** The tables and the auto-increment counters as one value. */
    function Snapshot(): Db
      reads this
    {
      Db(users, tasks, sessions, nextUserId, nextTaskId, nextSessionId)
    }

    ghost predicate Valid()
      reads this
    {
      Wellformed(Snapshot())
    }

    /** Empty tables, every counter at 1. */
    constructor ()
      ensures Snapshot() == EmptyDb
      ensures Valid()
    {
      users, tasks, sessions := [], [], [];
      nextUserId, nextTaskId, nextSessionId := 1, 1, 1;
    }

    method SignUp(body: JsonObject, env: Api.Env) returns (resp: Response)
      modifies this
      ensures Api.Outcome(Snapshot(), resp) == Api.SignUp(old(Snapshot()), body, env)
      ensures old(Valid()) ==> Valid()
    {
      if !Api.SignUpFieldsPresent(body) {
        return Msg(400, "Missing required fields");
      }
      var hashed := env.hash(body["password"]);
      if env.storeError.Some? {
        return Msg(500, "Error inserting user data: " + env.storeError.value);
      }
      users := users + [User(nextUserId, body["username"], body["email"], hashed)];
      nextUserId := nextUserId + 1;
      resp := Msg(200, "User Information Added Successfully");
    }

    method SignIn(body: JsonObject, env: Api.Env) returns (resp: Response)
      ensures Api.Outcome(Snapshot(), resp) == Api.SignIn(Snapshot(), body, env)
    {
      if !Present(body, "email") || !Present(body, "password") {
        return Msg(400, "Missing email or password");
      }
      if env.storeError.Some? {
        return Msg(500, "Database query error");
      }
      var found := FindByEmail(users, body["email"]);
      if found.None? {
        return Msg(401, "Invalid email or password");
      }
      var user := found.value;
      var isMatch := env.compare(body["password"], user.password);
      if !isMatch {
        return Msg(401, "Invalid email or password");
      }
      var token := Token(Claims(user.userId, user.email, None), ConfiguredSecret, TokenLifetime);
      resp := Response(200, LoginToken("Login successful", token));
    }

    method Profile(c: Claims, env: Api.Env) returns (resp: Response)
      ensures Api.Outcome(Snapshot(), resp) == Api.Profile(Snapshot(), c, env)
    {
      if env.storeError.Some? {
        return Msg(500, "Database error");
      }
      var found := FindByEmail(users, c.email);
      if found.None? {
        resp := Msg(404, "User not found");
      } else {
        resp := Response(200, ProfileRow(found.value.userId, found.value.username, found.value.email));
      }
    }

    /** The SET list is built one truthy field at a time, as the handler pushes onto `fields`. */
    method UpdateAccount(c: Claims, body: JsonObject, env: Api.Env) returns (resp: Response)
      modifies this
      ensures Api.Outcome(Snapshot(), resp) == Api.UpdateAccount(old(Snapshot()), c, body, env)
      ensures old(Valid()) ==> Valid()
    {
      if !Api.AnyAccountField(body) {
        return Msg(400, "No fields provided to update.");
      }
      var fields: seq<AccountChange> := [];
      if Present(body, "username") {
        fields := fields + [NewUsername(body["username"])];
      }
      if Present(body, "email") {
        fields := fields + [NewEmail(body["email"])];
      }
      if Present(body, "password") {
        var hashed := env.hash(body["password"]);
        fields := fields + [NewPassword(hashed)];
      }
      assert fields == Api.AccountChanges(body, env);
      if |fields| == 0 {
        return Msg(400, "No valid fields to update.");
      }
      if env.storeError.Some? {
        return Msg(500, "Failed to update account information.");
      }
      if UserMatchCount(users, c.userId) == 0 {
        return Msg(404, "User not found.");
      }
      users := UpdateUsers(users, c.userId, fields);
      resp := Response(200, NewToken("Account information updated successfully.", Api.ReissuedToken(c, body)));
    }

    method ListTasks(c: Claims, archived: bool, env: Api.Env) returns (resp: Response)
      ensures Api.Outcome(Snapshot(), resp) == Api.ListTasks(Snapshot(), c, archived, env)
    {
      if env.storeError.Some? {
        return Msg(500, "Database error");
      }
      resp := Response(200, TaskRows(TasksWhere(tasks, c.userId, archived)));
    }

    method AddTask(c: Claims, body: JsonObject, env: Api.Env) returns (resp: Response)
      modifies this
      ensures Api.Outcome(Snapshot(), resp) == Api.AddTask(old(Snapshot()), c, body, env)
      ensures old(Valid()) ==> Valid()
    {
      if !Present(body, "text") {
        return Msg(400, "Task text is required");
      }
      if env.storeError.Some? {
        return Msg(500, "Error adding task: " + env.storeError.value);
      }
      var insertId := nextTaskId;
      tasks := tasks + [Task(insertId, c.userId, body["text"], JBool(false), false)];
      nextTaskId := nextTaskId + 1;
      resp := Response(201, Created(Api.CreatedTask(insertId, body)));
    }

    /** One owner-scoped UPDATE of one column; `affectedRows` is the number of rows it matches. */
    method UpdateOwnTask(c: Claims, segment: string, col: TaskColumn, env: Api.Env,
                         failure: string, success: string) returns (resp: Response)
      modifies this
      ensures Api.Outcome(Snapshot(), resp) == Api.UpdateOwnTask(old(Snapshot()), c, segment, col, env, failure, success)
      ensures old(Valid()) ==> Valid()
    {
      var taskId := Api.TaskIdOf(segment);
      if env.storeError.Some? {
        return Msg(500, failure);
      }
      var affectedRows := MatchCount(tasks, taskId, c.userId);
      if affectedRows == 0 {
        return Msg(404, "Task not found or not authorized");
      }
      tasks := UpdateTasks(tasks, taskId, c.userId, col);
      resp := Msg(200, success);
    }

    method FlagTask(c: Claims, segment: string, env: Api.Env) returns (resp: Response)
      modifies this
      ensures Api.Outcome(Snapshot(), resp) == Api.FlagTask(old(Snapshot()), c, segment, env)
      ensures old(Valid()) ==> Valid()
    {
      resp := UpdateOwnTask(c, segment, SetFlagged(true), env, "Error flagging task", "Task flagged successfully");
    }

    method CompleteTask(c: Claims, segment: string, body: JsonObject, env: Api.Env) returns (resp: Response)
      modifies this
      ensures Api.Outcome(Snapshot(), resp) == Api.CompleteTask(old(Snapshot()), c, segment, body, env)
      ensures old(Valid()) ==> Valid()
    {
      var completed := if "completed" in body then body["completed"] else JBool(false);
      resp := UpdateOwnTask(c, segment, SetCompleted(completed), env, "Error updating task", "Task updated successfully");
    }

    method UnarchiveTask(c: Claims, segment: string, body: JsonObject, env: Api.Env) returns (resp: Response)
      modifies this
      ensures Api.Outcome(Snapshot(), resp) == Api.UnarchiveTask(old(Snapshot()), c, segment, body, env)
      ensures old(Valid()) ==> Valid()
    {
      var flagged := if "flagged" in body then body["flagged"] else JBool(false);
      resp := UpdateOwnTask(c, segment, SetFlagged(Truthy(flagged)), env, "Error updating task", "Task updated successfully");
    }

    method ListSessions(c: Claims, env: Api.Env) returns (resp: Response)
      ensures Api.Outcome(Snapshot(), resp) == Api.ListSessions(Snapshot(), c, env)
    {
      if env.storeError.Some? {
        return Msg(500, "Database error");
      }
      resp := Response(200, SessionRows(Api.Views(SessionsOf(sessions, c.userId))));
    }

    method TopUsers(url: string, env: Api.Env) returns (resp: Response)
      ensures Api.Outcome(Snapshot(), resp) == Api.TopUsersRoute(Snapshot(), url, env)
    {
      var timeframe := L.ParseTimeframe(TimeframeParam(url));
      if timeframe.None? {
        return Msg(400, "Invalid timeframe parameter");
      }
      if env.storeError.Some? {
        return Response(500, MessageWithError("Database error", env.storeError.value));
      }
      resp := Response(200, TopUserRows(L.TopUsers(users, sessions, timeframe.value, env.today)));
    }

    method LogSession(c: Claims, body: JsonObject, env: Api.Env) returns (resp: Response)
      modifies this
      ensures Api.Outcome(Snapshot(), resp) == Api.LogSession(old(Snapshot()), c, body, env)
      ensures old(Valid()) ==> Valid()
    {
      if !Present(body, "text") || !Present(body, "duration") {
        return Msg(400, "Study text and duration are required");
      }
      var durationInSeconds := Api.StoredDuration(body["duration"]);
      if durationInSeconds.None? {
        return Msg(500, "Error adding study session: " + Api.NaNRejected);
      }
      if env.storeError.Some? {
        return Msg(500, "Error adding study session: " + env.storeError.value);
      }
      var insertId := nextSessionId;
      sessions := sessions + [Session(insertId, c.userId, body["text"], durationInSeconds.value, env.today)];
      nextSessionId := nextSessionId + 1;
      resp := Response(201, SessionCreated(insertId, body["text"],
                                           Api.EchoedDuration(body["duration"], durationInSeconds.value)));
    }

    /** A guarded route once the guard has accepted the token. */
    method Serve(route: Route, c: Claims, req: Request, env: Api.Env) returns (resp: Response)
      requires Guarded(route)
      modifies this
      ensures Api.Outcome(Snapshot(), resp) == Api.Serve(old(Snapshot()), route, c, req, env)
      ensures old(Valid()) ==> Valid()
    {
      match route
      case GetProfile => resp := Profile(c, env);
      case PatchAccount => resp := UpdateAccount(c, req.body, env);
      case GetTasks => resp := ListTasks(c, false, env);
      case GetArchivedTasks => resp := ListTasks(c, true, env);
      case PostTask => resp := AddTask(c, req.body, env);
      case DeleteTask(seg) => resp := FlagTask(c, seg, env);
      case PatchCompleted(seg) => resp := CompleteTask(c, seg, req.body, env);
      case PatchUnarchive(seg) => resp := UnarchiveTask(c, seg, req.body, env);
      case GetSessions => resp := ListSessions(c, env);
      case GetTopUsers => resp := TopUsers(req.url, env);
      case PostSession => resp := LogSession(c, req.body, env);
    }

    /** The request handler: preflight, the open routes, the guard, then the guarded route. */
    method Handle(req: Request, env: Api.Env) returns (resp: Response)
      modifies this
      ensures Api.Outcome(Snapshot(), resp) == Api.Step(old(Snapshot()), req, env)
      ensures old(Valid()) ==> Valid()
    {
      var route := Resolve(req.verb, req.url);
      match route
      case Preflight => resp := Response(204, NoContent);
      case PostSignUp => resp := SignUp(req.body, env);
      case PostSignIn => resp := SignIn(req.body, env);
      case Unmatched => resp := Msg(404, "Route not found");
      case _ =>
        var decoded := Authenticate(req.authorization, env.verify);
        match decoded
        case NoToken => resp := Msg(401, "No token provided");
        case InvalidToken => resp := Msg(403, "Invalid token");
        case Authenticated(c) => resp := Serve(route, c, req, env);
    }
  }
}
