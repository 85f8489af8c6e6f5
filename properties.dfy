/** What the routes promise, stated over the specification functions of `Api`. */
module ServerProperties {
  import opened JsonValue
  import opened Text
  import opened Auth
  import opened Duration
  import opened Tables
  import L = Leaderboard
  import opened Http
  import opened Routing
  import opened Api

  // ------------------------------------------------------------------ guard and dispatch

  /**
   * On every guarded route: no usable bearer token is 401 "No token provided", a token the
   * verifier rejects is 403 "Invalid token", both with the store untouched; otherwise the
   * handler runs with the verifier's claims.
   */
  lemma GuardOutcomes(db: Db, req: Request, env: Env)
    requires Guarded(Resolve(req.verb, req.url))
    ensures BearerToken(req.authorization).None? ==> Step(db, req, env) == Outcome(db, Msg(401, "No token provided"))
    ensures BearerToken(req.authorization).Some? && env.verify(BearerToken(req.authorization).value).None? ==>
              Step(db, req, env) == Outcome(db, Msg(403, "Invalid token"))
    ensures BearerToken(req.authorization).Some? && env.verify(BearerToken(req.authorization).value).Some? ==>
              Step(db, req, env) ==
                Serve(db, Resolve(req.verb, req.url), env.verify(BearerToken(req.authorization).value).value, req, env)
  {
  }

  /** OPTIONS is answered 204 with no body before any route is looked at, whatever the URL. */
  lemma PreflightChangesNothing(db: Db, req: Request, env: Env)
    requires req.verb == Options
    ensures Step(db, req, env) == Outcome(db, Response(204, NoContent))
  {
  }

  /** A request no route matches is 404 "Route not found" and changes nothing. */
  lemma UnmatchedChangesNothing(db: Db, req: Request, env: Env)
    requires Resolve(req.verb, req.url) == Unmatched
    ensures Step(db, req, env) == Outcome(db, Msg(404, "Route not found"))
  {
  }

  // ------------------------------------------------------------------ isolation

  /** Only rows of `owner` may differ, the table keeps its length and every row its key. */
  predicate UsersTouchedOnlyFor(before: seq<User>, after: seq<User>, owner: int) {
    && |after| == |before|
    && (forall i :: 0 <= i < |before| ==> after[i].userId == before[i].userId)
    && (forall i :: 0 <= i < |before| && before[i].userId != owner ==> after[i] == before[i])
  }

  /** The old rows stay as they were; rows added at the end belong to `owner`. */
  predicate SessionsTouchedOnlyFor(before: seq<Session>, after: seq<Session>, owner: int) {
    && |before| <= |after| && after[..|before|] == before
    && (forall i :: |before| <= i < |after| ==> after[i].userId == owner)
  }

  /**
   * Whatever an authenticated request to a guarded route does, it reads and writes only the
   * requester's rows: no other user's row in any table changes, and every inserted row is
   * owned by the requester.
   */
  lemma ServeIsolation(db: Db, route: Route, c: Claims, req: Request, env: Env)
    requires Guarded(route)
    ensures var o := Serve(db, route, c, req, env);
            && UsersTouchedOnlyFor(db.users, o.db.users, c.userId)
            && TasksTouchedOnlyFor(db.tasks, o.db.tasks, c.userId)
            && SessionsTouchedOnlyFor(db.sessions, o.db.sessions, c.userId)
  {
    var o := Serve(db, route, c, req, env);
    UntouchedTables(db, c.userId);
    match route {
      case PatchAccount => UpdateAccountIsolation(db, c, req.body, env);
      case PostTask => AddTaskIsolation(db, c, req.body, env);
      case DeleteTask(seg) =>
        UpdateOwnTaskIsolation(db, c, seg, SetFlagged(true), env, "Error flagging task", "Task flagged successfully");
      case PatchCompleted(seg) =>
        UpdateOwnTaskIsolation(db, c, seg, SetCompleted(CompletedValue(req.body)), env,
                               "Error updating task", "Task updated successfully");
      case PatchUnarchive(seg) =>
        UpdateOwnTaskIsolation(db, c, seg, SetFlagged(FlaggedValue(req.body)), env,
                               "Error updating task", "Task updated successfully");
      case PostSession => LogSessionIsolation(db, c, req.body, env);
      case _ =>
    }
  }

  /** A table left as it was is touched for nobody. */
  lemma UntouchedTables(db: Db, owner: int)
    ensures UsersTouchedOnlyFor(db.users, db.users, owner)
    ensures TasksTouchedOnlyFor(db.tasks, db.tasks, owner)
    ensures SessionsTouchedOnlyFor(db.sessions, db.sessions, owner)
  {
    assert db.sessions[..|db.sessions|] == db.sessions;
  }

  lemma UpdateAccountIsolation(db: Db, c: Claims, body: JsonObject, env: Env)
    ensures UsersTouchedOnlyFor(db.users, UpdateAccount(db, c, body, env).db.users, c.userId)
  {
    UntouchedTables(db, c.userId);
  }

  lemma AddTaskIsolation(db: Db, c: Claims, body: JsonObject, env: Env)
    ensures TasksTouchedOnlyFor(db.tasks, AddTask(db, c, body, env).db.tasks, c.userId)
  {
    UntouchedTables(db, c.userId);
  }

  lemma UpdateOwnTaskIsolation(db: Db, c: Claims, segment: string, col: TaskColumn, env: Env,
                               failure: string, success: string)
    ensures TasksTouchedOnlyFor(db.tasks, UpdateOwnTask(db, c, segment, col, env, failure, success).db.tasks, c.userId)
  {
    UntouchedTables(db, c.userId);
  }

  lemma LogSessionIsolation(db: Db, c: Claims, body: JsonObject, env: Env)
    ensures SessionsTouchedOnlyFor(db.sessions, LogSession(db, c, body, env).db.sessions, c.userId)
  {
    UntouchedTables(db, c.userId);
    var o := LogSession(db, c, body, env);
    if o.resp.status == 201 {
      assert o.db.sessions[..|db.sessions|] == db.sessions;
    }
  }

  /** The same at the level of the whole handler, for the claims the guard accepted. */
  lemma StepIsolation(db: Db, req: Request, env: Env, c: Claims)
    requires Guarded(Resolve(req.verb, req.url))
    requires Authenticate(req.authorization, env.verify) == Authenticated(c)
    ensures var o := Step(db, req, env);
            && UsersTouchedOnlyFor(db.users, o.db.users, c.userId)
            && TasksTouchedOnlyFor(db.tasks, o.db.tasks, c.userId)
            && SessionsTouchedOnlyFor(db.sessions, o.db.sessions, c.userId)
  {
    ServeIsolation(db, Resolve(req.verb, req.url), c, req, env);
  }

  // ------------------------------------------------------------------ sign-in

  /**
   * An unknown email and a wrong password are indistinguishable: both are the same 401
   * response, and the store is untouched.
   */
  lemma SignInFailuresAreUniform(db: Db, body: JsonObject, env: Env)
    requires Present(body, "email") && Present(body, "password") && env.storeError.None?
    requires FindByEmail(db.users, body["email"]).None? ||
             !env.compare(body["password"], FindByEmail(db.users, body["email"]).value.password)
    ensures SignIn(db, body, env) == Outcome(db, Msg(401, "Invalid email or password"))
  {
  }

  /** A correct password for the first user with that email yields `{user_id, email}` of that row. */
  lemma SignInIssuesRowClaims(db: Db, body: JsonObject, env: Env, i: nat)
    requires Present(body, "email") && Present(body, "password") && env.storeError.None?
    requires i < |db.users| && db.users[i].email == body["email"]
    requires forall j :: 0 <= j < i ==> db.users[j].email != body["email"]
    requires env.compare(body["password"], db.users[i].password)
    ensures SignIn(db, body, env).resp ==
            Response(200, LoginToken("Login successful",
                                     Token(Claims(db.users[i].userId, db.users[i].email, None), ConfiguredSecret, 3600)))
  {
    FindByEmailFirst(db.users, body["email"], i);
  }

  lemma {:induction false} FindByEmailAppend(users: seq<User>, u: User)
    requires forall v :: v in users ==> v.email != u.email
    ensures FindByEmail(users + [u], u.email) == Some(u)
  {
    if |users| > 0 {
      FindByEmailAppend(users[1..], u);
      assert (users + [u])[1..] == users[1..] + [u];
    }
  }

  /**
   * Sign-up then sign-in with the same email and password succeeds and issues a token for the
   * new row, provided no earlier row has that email and the hash verifies against itself;
   * the profile read with that token then returns the new row.
   */
  lemma SignUpThenSignIn(db: Db, body: JsonObject, env: Env)
    requires SignUpFieldsPresent(body) && env.storeError.None?
    requires forall u :: u in db.users ==> u.email != body["email"]
    requires env.compare(body["password"], env.hash(body["password"]))
    ensures var db1 := SignUp(db, body, env).db;
            var login := map["email" := body["email"], "password" := body["password"]];
            && SignIn(db1, login, env).resp ==
               Response(200, LoginToken("Login successful", Token(Claims(db.nextUserId, body["email"], None), ConfiguredSecret, TokenLifetime)))
            && Profile(db1, Claims(db.nextUserId, body["email"], None), env).resp ==
               Response(200, ProfileRow(db.nextUserId, body["username"], body["email"]))
  {
    var u := User(db.nextUserId, body["username"], body["email"], env.hash(body["password"]));
    FindByEmailAppend(db.users, u);
  }

  // ------------------------------------------------------------------ account update

  /** The row the update writes: each truthy field replaced, the password by its hash. */
  function UpdatedRow(u: User, body: JsonObject, env: Env): User {
    User(u.userId,
         if Present(body, "username") then body["username"] else u.username,
         if Present(body, "email") then body["email"] else u.email,
         if Present(body, "password") then env.hash(body["password"]) else u.password)
  }

  lemma ApplyAccountChanges(u: User, body: JsonObject, env: Env)
    ensures ApplyChanges(u, AccountChanges(body, env)) == UpdatedRow(u, body, env)
  {
    var chs := AccountChanges(body, env);
    var u1 := if Present(body, "username") then u.(username := body["username"]) else u;
    var u2 := if Present(body, "email") then u1.(email := body["email"]) else u1;
    var u3 := if Present(body, "password") then u2.(password := env.hash(body["password"])) else u2;
    var a := if Present(body, "username") then [NewUsername(body["username"])] else [];
    var b := if Present(body, "email") then [NewEmail(body["email"])] else [];
    var p := if Present(body, "password") then [NewPassword(env.hash(body["password"]))] else [];
    ApplyChangesConcat(u, a, b + p);
    ApplyChangesConcat(u1, b, p);
    assert chs == a + (b + p);
  }

  lemma {:induction false} ApplyChangesConcat(u: User, xs: seq<AccountChange>, ys: seq<AccountChange>)
    ensures ApplyChanges(u, xs + ys) == ApplyChanges(ApplyChanges(u, xs), ys)
    decreases |xs|
  {
    if |xs| > 0 {
      ApplyChangesConcat(ApplyChange(u, xs[0]), xs[1..], ys);
      assert (xs + ys)[1..] == xs[1..] + ys;
    } else {
      assert xs + ys == ys;
    }
  }

  /**
   * A successful update writes only the supplied fields of the requester's row (the password
   * hashed), leaves every other row alone, and answers with the re-issued token; when the
   * request is well formed but no row has the requester's id the answer is 404.
   */
  lemma UpdateAccountEffect(db: Db, c: Claims, body: JsonObject, env: Env)
    requires AnyAccountField(body) && env.storeError.None?
    ensures var o := UpdateAccount(db, c, body, env);
            && (UserMatchCount(db.users, c.userId) == 0 ==> o == Outcome(db, Msg(404, "User not found.")))
            && (UserMatchCount(db.users, c.userId) > 0 ==>
                  && o.resp == Response(200, NewToken("Account information updated successfully.", ReissuedToken(c, body)))
                  && |o.db.users| == |db.users|
                  && forall i :: 0 <= i < |db.users| ==>
                       o.db.users[i] == if db.users[i].userId == c.userId then UpdatedRow(db.users[i], body, env) else db.users[i])
  {
    AccountChangesNonEmpty(body, env);
    forall u: User { ApplyAccountChanges(u, body, env); }
  }

  // ------------------------------------------------------------------ task listings

  /**
   * The active listing has exactly the requester's unflagged tasks and the archived listing
   * exactly the flagged ones; together they hold every task of the requester, row for row,
   * and no task of anybody else.
   */
  lemma TaskListingsPartition(db: Db, c: Claims, env: Env)
    requires env.storeError.None?
    ensures var active := ListTasks(db, c, false, env).resp.body.tasks;
            var archived := ListTasks(db, c, true, env).resp.body.tasks;
            && (forall t :: t in active <==> t in db.tasks && t.userId == c.userId && !t.flagged)
            && (forall t :: t in archived <==> t in db.tasks && t.userId == c.userId && t.flagged)
            && multiset(active) + multiset(archived) == multiset(TasksOf(db.tasks, c.userId))
  {
    ActiveArchivedPartition(db.tasks, c.userId);
  }

  // ------------------------------------------------------------------ adding a task

  /**
   * A task with truthy text adds exactly one row at the end, owned by the requester, not
   * completed and not archived, under a fresh id; the 201 body carries every body field.
   */
  lemma AddTaskEffect(db: Db, c: Claims, body: JsonObject, env: Env)
    requires Wellformed(db) && Present(body, "text") && env.storeError.None?
    ensures var o := AddTask(db, c, body, env);
            && o.db.tasks == db.tasks + [Task(db.nextTaskId, c.userId, body["text"], JBool(false), false)]
            && (forall t :: t in db.tasks ==> t.id != db.nextTaskId)
            && o.resp.status == 201 && o.resp.body.Created?
            && (forall k :: k in body ==> k in o.resp.body.fields && o.resp.body.fields[k] == body[k])
            && ("id" !in body ==> o.resp.body.fields["id"] == JNum(db.nextTaskId))
  {
  }

  // ------------------------------------------------------------------ task updates

  /**
   * Flag, complete and unarchive change nothing but the one column of the rows that match
   * (id, requester): every other row, and every other column, is as before.
   */
  lemma UpdateOwnTaskWritesOneColumn(db: Db, c: Claims, segment: string, col: TaskColumn, env: Env,
                                     failure: string, success: string)
    ensures var o := UpdateOwnTask(db, c, segment, col, env, failure, success);
            && |o.db.tasks| == |db.tasks|
            && forall i :: 0 <= i < |db.tasks| ==>
                 o.db.tasks[i] == if o.resp.status == 200 && Matches(db.tasks[i], TaskIdOf(segment), c.userId)
                                  then Assign(db.tasks[i], col) else db.tasks[i]
  {
  }

  /** A task the requester does not own, or that does not exist, is 404 and nothing changes. */
  lemma ForeignTaskIsNotFound(db: Db, c: Claims, segment: string, col: TaskColumn, env: Env,
                              failure: string, success: string)
    requires env.storeError.None?
    requires forall t :: t in db.tasks && t.id == TaskIdOf(segment) ==> t.userId != c.userId
    ensures UpdateOwnTask(db, c, segment, col, env, failure, success) ==
            Outcome(db, Msg(404, "Task not found or not authorized"))
  {
  }

  /** An absent `completed` writes false; an absent or falsy `flagged` writes false. */
  lemma AbsentValuesDefaultToFalse(db: Db, c: Claims, segment: string, body: JsonObject, env: Env)
    requires "completed" !in body && "flagged" !in body
    ensures CompleteTask(db, c, segment, body, env) ==
            UpdateOwnTask(db, c, segment, SetCompleted(JBool(false)), env, "Error updating task", "Task updated successfully")
    ensures UnarchiveTask(db, c, segment, body, env) ==
            UpdateOwnTask(db, c, segment, SetFlagged(false), env, "Error updating task", "Task updated successfully")
  {
  }

  /**
   * Repeating a successful update succeeds again with the same response and the same store:
   * writing a value a row already holds still counts as a match.
   */
  lemma {:induction false} UpdateIsRepeatable(db: Db, c: Claims, segment: string, col: TaskColumn, env: Env,
                                              failure: string, success: string)
    requires UpdateOwnTask(db, c, segment, col, env, failure, success).resp.status == 200
    ensures var o := UpdateOwnTask(db, c, segment, col, env, failure, success);
            UpdateOwnTask(o.db, c, segment, col, env, failure, success) == o
  {
    var id := TaskIdOf(segment);
    UpdateTasksKeepsMatchCount(db.tasks, id, c.userId, col);
    UpdateTasksIdempotent(db.tasks, id, c.userId, col);
  }

  /**
   * After a successful soft delete the task is gone from the requester's active listing and
   * is in the archived one.
   */
  lemma FlagMovesToArchive(db: Db, c: Claims, segment: string, env: Env)
    requires FlagTask(db, c, segment, env).resp.status == 200 && env.storeError.None?
    ensures var db1 := FlagTask(db, c, segment, env).db;
            && (forall t :: t in ListTasks(db1, c, false, env).resp.body.tasks ==> t.id != TaskIdOf(segment))
            && (exists t :: t in ListTasks(db1, c, true, env).resp.body.tasks && t.id == TaskIdOf(segment))
  {
    var id := TaskIdOf(segment);
    var db1 := FlagTask(db, c, segment, env).db;
    forall t | t in db1.tasks && t.userId == c.userId && !t.flagged ensures t.id != id {
      var i :| 0 <= i < |db1.tasks| && db1.tasks[i] == t;
    }
    assert MatchCount(db.tasks, id, c.userId) != 0;
    var t :| t in db.tasks && Matches(t, id, c.userId);
    var i :| 0 <= i < |db.tasks| && db.tasks[i] == t;
    assert db1.tasks[i] == t.(flagged := true);
    assert db1.tasks[i] in TasksWhere(db1.tasks, c.userId, true);
  }

  // ------------------------------------------------------------------ sessions

  /** "H:M:S" with decimal components is stored as H*3600 + M*60 + S seconds and echoed as that number. */
  lemma {:induction false} LogSessionConvertsHms(db: Db, c: Claims, body: JsonObject, env: Env, h: nat, m: nat, s: nat)
    requires Present(body, "text") && env.storeError.None?
    requires "duration" in body && body["duration"] == JStr(NatToString(h) + ":" + NatToString(m) + ":" + NatToString(s))
    ensures var o := LogSession(db, c, body, env);
            && o.resp == Response(201, SessionCreated(db.nextSessionId, body["text"], JNum(h * 3600 + m * 60 + s)))
            && o.db.sessions == db.sessions + [Session(db.nextSessionId, c.userId, body["text"], h * 3600 + m * 60 + s, env.today)]
  {
    ConvertRenderedHms(h, m, s);
  }

  /** A non-zero number is stored as it is and echoed unchanged. */
  lemma LogSessionKeepsNumbers(db: Db, c: Claims, body: JsonObject, env: Env, n: int)
    requires Present(body, "text") && env.storeError.None?
    requires "duration" in body && body["duration"] == JNum(n) && n != 0
    ensures LogSession(db, c, body, env) ==
            Outcome(db.(sessions := db.sessions + [Session(db.nextSessionId, c.userId, body["text"], n, env.today)],
                        nextSessionId := db.nextSessionId + 1),
                    Response(201, SessionCreated(db.nextSessionId, body["text"], JNum(n))))
  {
  }

  /** An absent, empty or zero duration, or absent text, is 400 and nothing is inserted. */
  lemma LogSessionRejectsFalsyDuration(db: Db, c: Claims, body: JsonObject, env: Env)
    requires "duration" !in body || body["duration"] in {JNull, JBool(false), JNum(0), JStr("")}
    ensures LogSession(db, c, body, env) == Outcome(db, Msg(400, "Study text and duration are required"))
  {
  }

  // ------------------------------------------------------------------ sessions

  /**
   * The session listing shows exactly the caller's sessions: every listed view is the view of
   * a session the caller owns, and every session the caller owns is listed.
   */
  lemma SessionListingIsOwn(db: Db, c: Claims, env: Env)
    requires env.storeError.None?
    ensures ListSessions(db, c, env).resp.body.SessionRows?
    ensures var listed := ListSessions(db, c, env).resp.body.sessions;
            forall v :: v in listed <==> exists s :: s in db.sessions && s.userId == c.userId && v == View(s)
  {
    var own := SessionsOf(db.sessions, c.userId);
    var listed := Views(own);
    forall v
      ensures v in listed <==> exists s :: s in db.sessions && s.userId == c.userId && v == View(s)
    {
      if v in listed {
        var i :| 0 <= i < |listed| && listed[i] == v;
        assert own[i] in own;
      }
      if s :| s in db.sessions && s.userId == c.userId && v == View(s) {
        assert s in own;
        var i :| 0 <= i < |own| && own[i] == s;
        assert listed[i] == v;
      }
    }
  }

  // ------------------------------------------------------------------ leaderboard

  /** A URL without a query string ranks over all time. */
  lemma TopUsersDefaultsToAllTime(db: Db, url: string, env: Env)
    requires '?' !in url && env.storeError.None?
    ensures TopUsersRoute(db, url, env).resp ==
            Response(200, TopUserRows(L.TopUsers(db.users, db.sessions, L.AllTime, env.today)))
  {
  }

  /**
   * "<path>?timeframe=<v>" ranks over the window <v> names, with or without a fragment after
   * it, as long as the path carries no '?' or '#' of its own.
   */
  lemma TopUsersRouteSelectsWindow(db: Db, path: string, v: string, fragment: Option<string>, env: Env, tf: L.Timeframe)
    requires '?' !in path && '#' !in path && '&' !in v && '#' !in v
    requires env.storeError.None? && L.ParseTimeframe(Some(v)) == Some(tf)
    ensures var url := if fragment.Some? then path + "?timeframe=" + v + "#" + fragment.value
                       else path + "?timeframe=" + v;
            TopUsersRoute(db, url, env).resp == Response(200, TopUserRows(L.TopUsers(db.users, db.sessions, tf, env.today)))
  {
    if fragment.Some? {
      TimeframeParamBeforeFragment(path, v, fragment.value);
    } else {
      TimeframeParamOf(path, v);
    }
  }

  /** A 200 from the top-users route is at most 20 rows, non-increasing in time studied, one per user. */
  lemma TopUsersRouteRanking(db: Db, url: string, env: Env)
    requires Wellformed(db) && TopUsersRoute(db, url, env).resp.status == 200
    ensures var rows := TopUsersRoute(db, url, env).resp.body.standings;
            && |rows| <= L.Limit
            && L.SortedDesc(rows)
            && L.DistinctUsers(rows)
  {
    var tf := L.ParseTimeframe(TimeframeParam(url)).value;
    L.TopUsersAreTheLargest(db.users, db.sessions, tf, env.today);
    L.TopUsersDistinct(db.users, db.sessions, tf, env.today);
  }

  // ------------------------------------------------------------------ traces

  /** A sequence of requests, each with its own environment, handled one after the other. */
  function Run(db: Db, trace: seq<(Request, Env)>): Db
    decreases |trace|
  {
    if |trace| == 0 then db else Run(Step(db, trace[0].0, trace[0].1).db, trace[1..])
  }

  /** Every store reachable from the empty store keeps its primary keys unique and below the counters. */
  lemma {:induction false} RunKeepsWellformed(db: Db, trace: seq<(Request, Env)>)
    requires Wellformed(db)
    ensures Wellformed(Run(db, trace))
    decreases |trace|
  {
    if |trace| > 0 {
      RunKeepsWellformed(Step(db, trace[0].0, trace[0].1).db, trace[1..]);
    }
  }

  lemma EmptyStoreIsWellformed()
    ensures Wellformed(EmptyDb)
  {
  }
}
