/**
 * The profile page against the server: the requests its handlers send, what the server does
 * with them, and whether the list the page keeps agrees with the tables afterwards.
 */
module Sync {
  import opened JsonValue
  import opened Text
  import opened Auth
  import opened Tables
  import opened Http
  import opened Routing
  import opened Api
  import opened ServerProperties
  import opened ProfilePage

  /** The JSON object the page receives for a response. */
  function ClientReply(resp: Response): JsonObject {
    match resp.body
    case Created(fields) => fields
    case Message(m) => map["message" := JStr(m)]
    case _ => map[]
  }

  /** `POST /tasks` with `{ text: newTask, completed: false }`. */
  function AddRequest(newTask: string, auth: Option<string>): Request {
    Request(Post, "/tasks", auth, AddRequestBody(newTask))
  }

  /** `DELETE /tasks/${id}`. */
  function DeleteRequest(id: nat, auth: Option<string>): Request {
    Request(Delete, "/tasks/" + NatToString(id), auth, map[])
  }

  /** The toggle's request as the page sends it: `PATCH /tasks/${id}` with `{ completed: !completed }`. */
  function ToggleRequestAsWritten(id: nat, completed: Json, auth: Option<string>): (r: Request)
    ensures Resolve(r.verb, r.url) == Unmatched
  {
    TogglePathIsUnmatched(id);
    Request(Patch, "/tasks/" + NatToString(id), auth, map["completed" := JBool(!Truthy(completed))])
  }

  /** The toggle's request addressed to the completion route the server has. */
  function ToggleRequest(id: nat, completed: Json, auth: Option<string>): (r: Request)
    ensures Resolve(r.verb, r.url) == PatchCompleted(NatToString(id))
  {
    CompletePathRoutes(id);
    Request(Patch, "/tasks/complete/" + NatToString(id), auth, map["completed" := JBool(!Truthy(completed))])
  }

  /** An authenticated request to a guarded route is served by that route's handler. */
  lemma StepServes(db: Db, req: Request, env: Env, c: Claims)
    requires Guarded(Resolve(req.verb, req.url))
    requires Authenticate(req.authorization, env.verify) == Authenticated(c)
    ensures Step(db, req, env) == Serve(db, Resolve(req.verb, req.url), c, req, env)
  {
  }

  /** `POST /tasks` is served by the add handler. */
  lemma PostTaskServed(db: Db, req: Request, env: Env, c: Claims)
    requires req.verb == Post && req.url == "/tasks"
    requires Authenticate(req.authorization, env.verify) == Authenticated(c)
    ensures Step(db, req, env) == AddTask(db, c, req.body, env)
  {
    assert Resolve(Post, "/tasks") == PostTask;
    StepServes(db, req, env, c);
  }

  /** The add handler on the page's body: the row it inserts and the object it answers with. */
  lemma AddTaskServerEffect(db: Db, c: Claims, text: string, env: Env)
    requires text != "" && env.storeError.None?
    ensures AddTask(db, c, AddRequestBody(text), env) ==
            Outcome(db.(tasks := db.tasks + [Task(db.nextTaskId, c.userId, JStr(text), JBool(false), false)],
                        nextTaskId := db.nextTaskId + 1),
                    Response(201, Created(map["id" := JNum(db.nextTaskId), "text" := JStr(text), "completed" := JBool(false)])))
  {
    var body := AddRequestBody(text);
    assert Present(body, "text");
    assert CreatedTask(db.nextTaskId, body) ==
           map["id" := JNum(db.nextTaskId), "text" := JStr(text), "completed" := JBool(false)];
  }

  /** A 201 carrying `fields` is appended to the page's list as exactly `fields`. */
  lemma PageAppendsReply(s: TaskList, fields: JsonObject)
    requires PostsTask(s.newTask)
    ensures TaskAdd(s, 201, ClientReply(Response(201, Created(fields)))) == TaskList(s.tasks + [fields], "")
  {
  }

  lemma TrimmedInputIsNonEmpty(s: string)
    requires PostsTask(s)
    ensures s != ""
  {
  }

  /**
   * Adding a task: the server inserts the text, not completed and not archived, under the
   * next id, and the page appends exactly that row as `{id, text, completed}`.
   */
  lemma AddAgrees(db: Db, s: TaskList, auth: Option<string>, env: Env, c: Claims)
    requires PostsTask(s.newTask) && env.storeError.None?
    requires Authenticate(auth, env.verify) == Authenticated(c)
    ensures var o := Step(db, AddRequest(s.newTask, auth), env);
            && o.resp.status == 201
            && o.db.tasks == db.tasks + [Task(db.nextTaskId, c.userId, JStr(s.newTask), JBool(false), false)]
            && TaskAdd(s, o.resp.status, ClientReply(o.resp)) ==
               TaskList(s.tasks + [map["id" := JNum(db.nextTaskId), "text" := JStr(s.newTask), "completed" := JBool(false)]], "")
  {
    TrimmedInputIsNonEmpty(s.newTask);
    var req := AddRequest(s.newTask, auth);
    var reply := map["id" := JNum(db.nextTaskId), "text" := JStr(s.newTask), "completed" := JBool(false)];
    PostTaskServed(db, req, env, c);
    AddTaskServerEffect(db, c, s.newTask, env);
    PageAppendsReply(s, reply);
  }

  /**
   * Deleting a task the requester owns: the server archives it, so it leaves the active
   * listing, and the page drops every entry with that id.
   */
  lemma DeleteAgrees(db: Db, tasks: seq<ClientTask>, id: nat, auth: Option<string>, env: Env, c: Claims)
    requires env.storeError.None? && Authenticate(auth, env.verify) == Authenticated(c)
    requires MatchCount(db.tasks, id, c.userId) > 0
    ensures var o := Step(db, DeleteRequest(id, auth), env);
            && o.resp == Msg(200, "Task flagged successfully")
            && (forall t :: t in ListTasks(o.db, c, false, env).resp.body.tasks ==> t.id != id)
            && (forall t :: t in TaskDelete(tasks, JNum(id), o.resp.status) ==> IdOf(t) != Some(JNum(id)))
  {
    DeletePathRoutes(id);
    StepServes(db, DeleteRequest(id, auth), env, c);
    TaskIdOfRendered(id);
    FlagMovesToArchive(db, c, NatToString(id), env);
  }

  /**
   * As written, the toggle never completes anything: the server has no route for
   * `PATCH /tasks/<id>` and answers 404, the store is untouched, and since the reply is not
   * ok the page leaves its list as it was.
   */
  lemma ToggleAsWrittenIsLost(db: Db, tasks: seq<ClientTask>, id: nat, completed: Json, auth: Option<string>, env: Env)
    ensures var o := Step(db, ToggleRequestAsWritten(id, completed, auth), env);
            && o == Outcome(db, Msg(404, "Route not found"))
            && TaskToggle(tasks, JNum(id), completed, o.resp.status) == tasks
  {
    TogglePathIsUnmatched(id);
  }

  /**
   * Sent to the completion route, the toggle succeeds for a task the requester owns, and the
   * server's rows with that id and the page's entries with that id end up holding the same
   * `completed` value, the negation of the one the page showed.
   */
  lemma ToggleAgrees(db: Db, tasks: seq<ClientTask>, id: nat, completed: Json, auth: Option<string>, env: Env, c: Claims)
    requires env.storeError.None? && Authenticate(auth, env.verify) == Authenticated(c)
    requires MatchCount(db.tasks, id, c.userId) > 0
    ensures var o := Step(db, ToggleRequest(id, completed, auth), env);
            var value := JBool(!Truthy(completed));
            && o.resp == Msg(200, "Task updated successfully")
            && o.db.tasks == UpdateTasks(db.tasks, id, c.userId, SetCompleted(value))
            && (forall i :: 0 <= i < |o.db.tasks| && Matches(o.db.tasks[i], id, c.userId) ==> o.db.tasks[i].completed == value)
            && var r := TaskToggle(tasks, JNum(id), completed, o.resp.status);
               forall i :: 0 <= i < |r| && IdOf(r[i]) == Some(JNum(id)) ==> r[i]["completed"] == value
  {
    CompletePathRoutes(id);
    StepServes(db, ToggleRequest(id, completed, auth), env, c);
    TaskIdOfRendered(id);
    var o := Step(db, ToggleRequest(id, completed, auth), env);
    assert o.db.tasks == UpdateTasks(db.tasks, id, c.userId, SetCompleted(JBool(!Truthy(completed))));
    forall i | 0 <= i < |o.db.tasks| && Matches(o.db.tasks[i], id, c.userId)
      ensures o.db.tasks[i].completed == JBool(!Truthy(completed))
    {
      assert Matches(db.tasks[i], id, c.userId);
    }
    var r := TaskToggle(tasks, JNum(id), completed, o.resp.status);
    forall i | 0 <= i < |r| && IdOf(r[i]) == Some(JNum(id)) ensures r[i]["completed"] == JBool(!Truthy(completed)) {
      assert IdOf(tasks[i]) == Some(JNum(id));
    }
  }
}
