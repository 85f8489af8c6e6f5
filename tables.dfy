/**
 * The three tables of the store (users, tasks, sessions) and the owner-scoped statements
 * the server issues against them, as functions on rows in their natural (insertion) order.
 */
module Tables {
  import opened JsonValue

  /** The password column: the output of the slow hash, never the plaintext. */
  type Digest = string

  /** A calendar date; the time of day of `NOW()` plays no part in any query. */
  datatype Date = Date(year: int, month: int, day: int)

  /** Columns that come from a request body hold the JSON value the statement binds. */
  datatype User = User(userId: int, username: Json, email: Json, password: Digest)
  datatype Task = Task(id: int, userId: int, text: Json, completed: Json, flagged: bool)
  datatype Session = Session(id: int, userId: int, text: Json, duration: int, dateAdded: Date)

  /** The whole store, with the next auto-increment value of each table. */
  datatype Db = Db(users: seq<User>, tasks: seq<Task>, sessions: seq<Session>,
                   nextUserId: int, nextTaskId: int, nextSessionId: int)

  const EmptyDb := Db([], [], [], 1, 1, 1)

  predicate UserIdsFresh(users: seq<User>, next: int) {
    && (forall i :: 0 <= i < |users| ==> 1 <= users[i].userId < next)
    && (forall i, j :: 0 <= i < j < |users| ==> users[i].userId != users[j].userId)
  }

  predicate TaskIdsFresh(tasks: seq<Task>, next: int) {
    && (forall i :: 0 <= i < |tasks| ==> 1 <= tasks[i].id < next)
    && (forall i, j :: 0 <= i < j < |tasks| ==> tasks[i].id != tasks[j].id)
  }

  predicate SessionIdsFresh(sessions: seq<Session>, next: int) {
    && (forall i :: 0 <= i < |sessions| ==> 1 <= sessions[i].id < next)
    && (forall i, j :: 0 <= i < j < |sessions| ==> sessions[i].id != sessions[j].id)
  }

  /** Auto-increment keys: every key is unique, positive and below the table's counter. */
  predicate Wellformed(db: Db) {
    && 1 <= db.nextUserId && 1 <= db.nextTaskId && 1 <= db.nextSessionId
    && UserIdsFresh(db.users, db.nextUserId)
    && TaskIdsFresh(db.tasks, db.nextTaskId)
    && SessionIdsFresh(db.sessions, db.nextSessionId)
  }

  // ---------------------------------------------------------------- tasks

  /** `SELECT * FROM tasks WHERE user_id = owner AND flagged = <flagged>`, in row order. */
  function TasksWhere(tasks: seq<Task>, owner: int, flagged: bool): (r: seq<Task>)
    ensures forall t :: t in r <==> t in tasks && t.userId == owner && t.flagged == flagged
    ensures |r| <= |tasks|
  {
    if |tasks| == 0 then []
    else
      (if tasks[0].userId == owner && tasks[0].flagged == flagged then [tasks[0]] else [])
      + TasksWhere(tasks[1..], owner, flagged)
  }

  /** Every task of `owner`, whatever its flag. */
  function TasksOf(tasks: seq<Task>, owner: int): (r: seq<Task>)
    ensures forall t :: t in r <==> t in tasks && t.userId == owner
  {
    if |tasks| == 0 then []
    else (if tasks[0].userId == owner then [tasks[0]] else []) + TasksOf(tasks[1..], owner)
  }

  /** The active and the archived listing split the owner's tasks between them, row for row. */
  lemma {:induction false} ActiveArchivedPartition(tasks: seq<Task>, owner: int)
    ensures multiset(TasksWhere(tasks, owner, false)) + multiset(TasksWhere(tasks, owner, true))
            == multiset(TasksOf(tasks, owner))
  {
    if |tasks| > 0 {
      ActiveArchivedPartition(tasks[1..], owner);
    }
  }

  /** The row a task statement addresses: `WHERE id = ? AND user_id = ?`. */
  predicate Matches(t: Task, id: int, owner: int) {
    t.id == id && t.userId == owner
  }

  /** `affectedRows` of an owner-scoped task update: the number of rows it matches. */
  function MatchCount(tasks: seq<Task>, id: int, owner: int): (n: nat)
    ensures n == 0 <==> forall t :: t in tasks ==> !Matches(t, id, owner)
    ensures n <= |tasks|
  {
    if |tasks| == 0 then 0
    else (if Matches(tasks[0], id, owner) then 1 else 0) + MatchCount(tasks[1..], id, owner)
  }

  /** The one column a task update writes. */
  datatype TaskColumn = SetCompleted(value: Json) | SetFlagged(flag: bool)

  function Assign(t: Task, col: TaskColumn): Task {
    match col
    case SetCompleted(v) => t.(completed := v)
    case SetFlagged(f) => t.(flagged := f)
  }

  /** `UPDATE tasks SET <col> WHERE id = ? AND user_id = ?`. */
  function UpdateTasks(tasks: seq<Task>, id: int, owner: int, col: TaskColumn): (r: seq<Task>)
    ensures |r| == |tasks|
    ensures forall i :: 0 <= i < |tasks| ==>
              r[i] == if Matches(tasks[i], id, owner) then Assign(tasks[i], col) else tasks[i]
  {
    if |tasks| == 0 then []
    else
      [if Matches(tasks[0], id, owner) then Assign(tasks[0], col) else tasks[0]]
      + UpdateTasks(tasks[1..], id, owner, col)
  }

  /** Writing a column to the value it already holds changes nothing: a second identical update is a no-op. */
  lemma UpdateTasksIdempotent(tasks: seq<Task>, id: int, owner: int, col: TaskColumn)
    ensures UpdateTasks(UpdateTasks(tasks, id, owner, col), id, owner, col) == UpdateTasks(tasks, id, owner, col)
  {
    var once := UpdateTasks(tasks, id, owner, col);
    var twice := UpdateTasks(once, id, owner, col);
    assert |twice| == |once|;
    forall i | 0 <= i < |once| ensures twice[i] == once[i] {
    }
  }

  /** An update writes no key column, so the task keys stay fresh. */
  lemma UpdateTasksKeepsKeys(tasks: seq<Task>, id: int, owner: int, col: TaskColumn, next: int)
    requires TaskIdsFresh(tasks, next)
    ensures TaskIdsFresh(UpdateTasks(tasks, id, owner, col), next)
  {
    var r := UpdateTasks(tasks, id, owner, col);
    assert forall i :: 0 <= i < |tasks| ==> r[i].id == tasks[i].id;
  }

  /** An update keeps the rows it matches matched, so repeating it reports the same count. */
  lemma {:induction false} UpdateTasksKeepsMatchCount(tasks: seq<Task>, id: int, owner: int, col: TaskColumn)
    ensures MatchCount(UpdateTasks(tasks, id, owner, col), id, owner) == MatchCount(tasks, id, owner)
  {
    if |tasks| > 0 {
      UpdateTasksKeepsMatchCount(tasks[1..], id, owner, col);
      assert UpdateTasks(tasks, id, owner, col)[1..] == UpdateTasks(tasks[1..], id, owner, col);
    }
  }

  /**
   * `after` differs from `before` only in rows of `owner`: every other row is unchanged, every
   * row keeps its id and owner, and any rows added at the end belong to `owner`.
   */
  predicate TasksTouchedOnlyFor(before: seq<Task>, after: seq<Task>, owner: int) {
    && |before| <= |after|
    && (forall i :: 0 <= i < |before| ==> after[i].id == before[i].id && after[i].userId == before[i].userId)
    && (forall i :: 0 <= i < |before| && before[i].userId != owner ==> after[i] == before[i])
    && (forall i :: |before| <= i < |after| ==> after[i].userId == owner)
  }

  // ---------------------------------------------------------------- users

  /** `SELECT * FROM users WHERE email = ?` and `results[0]`: the first row with that email. */
  function FindByEmail(users: seq<User>, email: Json): (r: Option<User>)
    ensures r.None? <==> forall u :: u in users ==> u.email != email
    ensures r.Some? ==> r.value in users && r.value.email == email
    ensures r.Some? && |users| > 0 && users[0].email == email ==> r.value == users[0]
  {
    if |users| == 0 then None
    else if users[0].email == email then Some(users[0])
    else FindByEmail(users[1..], email)
  }

  /** The first user found by email is the first user with that email in row order. */
  lemma {:induction false} FindByEmailFirst(users: seq<User>, email: Json, i: nat)
    requires i < |users| && users[i].email == email
    requires forall j :: 0 <= j < i ==> users[j].email != email
    ensures FindByEmail(users, email) == Some(users[i])
  {
    if i > 0 {
      FindByEmailFirst(users[1..], email, i - 1);
    }
  }

  /** One `column = ?` of the account update's SET list. */
  datatype AccountChange = NewUsername(username: Json) | NewEmail(email: Json) | NewPassword(password: Digest)

  function ApplyChange(u: User, ch: AccountChange): User {
    match ch
    case NewUsername(n) => u.(username := n)
    case NewEmail(e) => u.(email := e)
    case NewPassword(p) => u.(password := p)
  }

  /** The SET list applied to one row, left to right. */
  function ApplyChanges(u: User, chs: seq<AccountChange>): (r: User)
    ensures r.userId == u.userId
    decreases |chs|
  {
    if |chs| == 0 then u else ApplyChanges(ApplyChange(u, chs[0]), chs[1..])
  }

  /** `UPDATE users SET ... WHERE user_id = ?`. */
  function UpdateUsers(users: seq<User>, userId: int, chs: seq<AccountChange>): (r: seq<User>)
    ensures |r| == |users|
    ensures forall i :: 0 <= i < |users| ==>
              r[i] == if users[i].userId == userId then ApplyChanges(users[i], chs) else users[i]
  {
    if |users| == 0 then []
    else
      [if users[0].userId == userId then ApplyChanges(users[0], chs) else users[0]]
      + UpdateUsers(users[1..], userId, chs)
  }

  /** `affectedRows` of the account update. */
  function UserMatchCount(users: seq<User>, userId: int): (n: nat)
    ensures n == 0 <==> forall u :: u in users ==> u.userId != userId
  {
    if |users| == 0 then 0
    else (if users[0].userId == userId then 1 else 0) + UserMatchCount(users[1..], userId)
  }

  // ---------------------------------------------------------------- sessions

  /** `SELECT ... FROM sessions WHERE user_id = ?`, in row order. */
  function SessionsOf(sessions: seq<Session>, owner: int): (r: seq<Session>)
    ensures forall s :: s in r <==> s in sessions && s.userId == owner
  {
    if |sessions| == 0 then []
    else (if sessions[0].userId == owner then [sessions[0]] else []) + SessionsOf(sessions[1..], owner)
  }
}
