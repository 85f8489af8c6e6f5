/**
 * The state updates of the profile page: the timer display, the task-list transforms applied
 * when the server's reply is ok, and the timer record. All of them build new values.
 */
module ProfilePage {
  import opened JsonValue
  import opened Text

  // ------------------------------------------------------------------ formatTime

  /** `secs` rendered in two characters: a leading "0" below ten. */
  function TwoDigits(secs: nat): (r: string)
    requires secs < 60
    ensures |r| == 2 && AllDigits(r)
  {
    NatToStringOfTwoDigits(secs);
    (if secs < 10 then "0" else "") + NatToString(secs)
  }

  lemma NatToStringOfTwoDigits(n: nat)
    requires n < 100
    ensures |NatToString(n)| == if n < 10 then 1 else 2
  {
    if n >= 10 {
      assert NatToString(n) == NatToString(n / 10) + [DigitChar(n % 10)];
    }
  }

  /** `${Math.floor(s / 60)}:${s % 60 < 10 ? "0" : ""}${s % 60}`. */
  function FormatTime(seconds: nat): (r: string)
    ensures |r| >= 4 && r[|r| - 3] == ':'
  {
    NatToString(seconds / 60) + ":" + TwoDigits(seconds % 60)
  }

  lemma {:induction false} DigitsValueLeadingZero(s: string)
    requires AllDigits(s)
    ensures DigitsValue("0" + s) == DigitsValue(s)
    decreases |s|
  {
    if |s| > 0 {
      var t := "0" + s;
      assert t[..|t| - 1] == "0" + s[..|s| - 1];
      DigitsValueLeadingZero(s[..|s| - 1]);
    } else {
      assert DigitsValue("0") == DigitsValue("") + 0;
    }
  }

  /**
   * The display is minutes, a colon and exactly two digits of seconds, and reading the two
   * numbers back gives the seconds it was made from. The minutes are the plain decimal
   * numeral, with no leading zero.
   */
  lemma {:induction false} FormatTimeRoundTrip(seconds: nat)
    ensures var parts := Split(FormatTime(seconds), ':');
            && |parts| == 2
            && |parts[1]| == 2
            && AllDigits(parts[0]) && AllDigits(parts[1])
            && DigitsValue(parts[0]) == seconds / 60
            && DigitsValue(parts[1]) == seconds % 60
            && DigitsValue(parts[0]) * 60 + DigitsValue(parts[1]) == seconds
            && parts[0] == NatToString(seconds / 60)
            && (|parts[0]| == 1 || parts[0][0] != '0')
  {
    var mins := NatToString(seconds / 60);
    var secs := TwoDigits(seconds % 60);
    NoSeparatorInDigits(mins, ':');
    NoSeparatorInDigits(secs, ':');
    SplitNone(secs, ':');
    assert FormatTime(seconds) == mins + [':'] + secs;
    SplitCons(mins, ':', secs);
    NatToStringRoundTrip(seconds / 60);
    NatToStringRoundTrip(seconds % 60);
    if seconds % 60 < 10 {
      DigitsValueLeadingZero(NatToString(seconds % 60));
    }
  }

  /** Short durations: the minutes carry no padding, the seconds always two digits. */
  lemma FormatTimeOfShortDurations()
    ensures FormatTime(5) == "0:05" && FormatTime(300) == "5:00"
  {
    assert NatToString(0) == "0" && NatToString(5) == "5";
  }

  /** There is no hours field: an hour reads "60:00". */
  lemma FormatTimeOfAnHour()
    ensures FormatTime(3600) == "60:00"
  {
    assert NatToString(60) == "60";
    assert NatToString(0) == "0";
  }

  /** From an hour on, the minutes field has more than two digits' worth: it exceeds 59. */
  lemma {:induction false} MinutesExceedAnHour(seconds: nat)
    requires seconds >= 3600
    ensures var parts := Split(FormatTime(seconds), ':'); AllDigits(parts[0]) && DigitsValue(parts[0]) > 59
  {
    FormatTimeRoundTrip(seconds);
  }

  // ------------------------------------------------------------------ trim

  /** The characters `String.prototype.trim` removes: white space and line terminators. */
  predicate IsJsWhitespace(ch: char) {
    var c := ch as int;
    || (0x09 <= c <= 0x0D) || c == 0x20 || c == 0xA0 || c == 0x1680
    || (0x2000 <= c <= 0x200A) || c == 0x2028 || c == 0x2029 || c == 0x202F
    || c == 0x205F || c == 0x3000 || c == 0xFEFF
  }

  /** Where the run of white space that starts at index `i` of `s` ends. */
  function SkipForward(s: string, i: nat): (k: nat)
    requires i <= |s|
    ensures i <= k <= |s|
    ensures forall m :: i <= m < k ==> IsJsWhitespace(s[m])
    ensures k < |s| ==> !IsJsWhitespace(s[k])
    decreases |s| - i
  {
    if i < |s| && IsJsWhitespace(s[i]) then SkipForward(s, i + 1) else i
  }

  /** Where the run of white space that ends just before index `j` of `s` starts. */
  function SkipBackward(s: string, j: nat): (k: nat)
    requires j <= |s|
    ensures k <= j
    ensures forall m :: k <= m < j ==> IsJsWhitespace(s[m])
    ensures k > 0 ==> !IsJsWhitespace(s[k - 1])
  {
    if j > 0 && IsJsWhitespace(s[j - 1]) then SkipBackward(s, j - 1) else j
  }

  function TrimStart(s: string): (r: string)
    ensures |r| <= |s| && r == s[|s| - |r|..]
    ensures |r| > 0 ==> !IsJsWhitespace(r[0])
    ensures forall i :: 0 <= i < |s| - |r| ==> IsJsWhitespace(s[i])
  {
    s[SkipForward(s, 0)..]
  }

  function TrimEnd(s: string): (r: string)
    ensures |r| <= |s| && r == s[..|r|]
    ensures |r| > 0 ==> !IsJsWhitespace(r[|r| - 1])
    ensures forall i :: |r| <= i < |s| ==> IsJsWhitespace(s[i])
  {
    s[..SkipBackward(s, |s|)]
  }

  /** `s.trim()`. */
  function Trim(s: string): (r: string)
    ensures Lead(s) + |r| <= |s| && r == s[Lead(s)..Lead(s) + |r|]
    ensures forall i :: 0 <= i < Lead(s) ==> IsJsWhitespace(s[i])
    ensures forall i :: Lead(s) + |r| <= i < |s| ==> IsJsWhitespace(s[i])
    ensures |r| > 0 ==> !IsJsWhitespace(r[0]) && !IsJsWhitespace(r[|r| - 1])
  {
    var a := TrimStart(s);
    var r := TrimEnd(a);
    var lead := Lead(s);
    assert lead == |s| - |a|;
    TrimShape(s, a, r, lead);
    r
  }

  /** Cutting trailing white space from a tail of `s` leaves a slice of `s` between white space. */
  lemma TrimShape(s: string, a: string, r: string, lead: nat)
    requires lead <= |s| && a == s[lead..]
    requires forall i :: 0 <= i < lead ==> IsJsWhitespace(s[i])
    requires |a| > 0 ==> !IsJsWhitespace(a[0])
    requires |r| <= |a| && r == a[..|r|]
    requires forall i :: |r| <= i < |a| ==> IsJsWhitespace(a[i])
    requires |r| > 0 ==> !IsJsWhitespace(r[|r| - 1])
    ensures lead + |r| <= |s| && r == s[lead..lead + |r|]
    ensures forall i :: 0 <= i < lead ==> IsJsWhitespace(s[i])
    ensures forall i :: lead + |r| <= i < |s| ==> IsJsWhitespace(s[i])
    ensures |r| > 0 ==> !IsJsWhitespace(r[0]) && !IsJsWhitespace(r[|r| - 1])
  {
    forall i | lead + |r| <= i < |s| ensures IsJsWhitespace(s[i]) {
      assert s[i] == a[i - lead];
    }
  }

  /** How many white-space characters `s` starts with. */
  function Lead(s: string): nat {
    |s| - |TrimStart(s)|
  }

  /** `newTask.trim()` is truthy exactly when the input has a character that is not white space. */
  lemma TrimNonEmpty(s: string)
    ensures Trim(s) != "" <==> exists i :: 0 <= i < |s| && !IsJsWhitespace(s[i])
  {
    var a := TrimStart(s);
    if Trim(s) == "" {
      assert |a| == 0;
    } else {
      var k := |s| - |a|;
      assert !IsJsWhitespace(s[k]) by { assert s[k] == a[0]; }
    }
  }

  // ------------------------------------------------------------------ task list

  /** A task as the client holds it: the JSON object the server sent. */
  type ClientTask = JsonObject

  /** `task.id`, None for `undefined`. */
  function IdOf(t: ClientTask): Option<Json> {
    Get(t, "id")
  }

  /** `response.ok`. */
  predicate Ok(status: int) {
    200 <= status <= 299
  }

  /** The list and the text field. */
  datatype TaskList = TaskList(tasks: seq<ClientTask>, newTask: string)

  /** The body `handleTaskAdd` posts. */
  function AddRequestBody(newTask: string): JsonObject {
    map["text" := JStr(newTask), "completed" := JBool(false)]
  }

  /** Only an input with some non-blank character is posted. */
  predicate PostsTask(newTask: string) {
    Trim(newTask) != ""
  }

  /**
   * `handleTaskAdd` after the reply (status and body): on an ok reply to a posted task the
   * returned object is appended and the field cleared; otherwise nothing changes.
   */
  function TaskAdd(s: TaskList, status: int, reply: ClientTask): (r: TaskList)
    ensures !PostsTask(s.newTask) || !Ok(status) ==> r == s
    ensures PostsTask(s.newTask) && Ok(status) ==>
              && |r.tasks| == |s.tasks| + 1
              && r.tasks[..|s.tasks|] == s.tasks
              && r.tasks[|s.tasks|] == reply
              && r.newTask == ""
  {
    if PostsTask(s.newTask) && Ok(status) then TaskList(s.tasks + [reply], "") else s
  }

  /** `tasks.filter((task) => task.id !== id)`. */
  function RemoveId(tasks: seq<ClientTask>, id: Json): (r: seq<ClientTask>)
    ensures |r| <= |tasks|
  {
    if |tasks| == 0 then []
    else (if IdOf(tasks[0]) != Some(id) then [tasks[0]] else []) + RemoveId(tasks[1..], id)
  }

  /** Filtering a concatenation filters each part: the kept tasks stay in their order. */
  lemma {:induction false} RemoveIdConcat(a: seq<ClientTask>, b: seq<ClientTask>, id: Json)
    ensures RemoveId(a + b, id) == RemoveId(a, id) + RemoveId(b, id)
  {
    if |a| == 0 {
      assert a + b == b;
    } else {
      var head := if IdOf(a[0]) != Some(id) then [a[0]] else [];
      calc {
        RemoveId(a + b, id);
      == { assert (a + b)[0] == a[0]; assert (a + b)[1..] == a[1..] + b; }
        head + RemoveId(a[1..] + b, id);
      == { RemoveIdConcat(a[1..], b, id); }
        head + (RemoveId(a[1..], id) + RemoveId(b, id));
      ==
        (head + RemoveId(a[1..], id)) + RemoveId(b, id);
      }
    }
  }

  /** A list that has no task with the id is left exactly as it is. */
  lemma {:induction false} RemoveIdAbsent(tasks: seq<ClientTask>, id: Json)
    requires forall t :: t in tasks ==> IdOf(t) != Some(id)
    ensures RemoveId(tasks, id) == tasks
  {
    if |tasks| > 0 {
      RemoveIdAbsent(tasks[1..], id);
      assert [tasks[0]] + tasks[1..] == tasks;
    }
  }

  /** The filter keeps exactly the tasks whose id differs. */
  lemma {:induction false} RemoveIdMembers(tasks: seq<ClientTask>, id: Json)
    ensures forall t :: t in RemoveId(tasks, id) <==> t in tasks && IdOf(t) != Some(id)
  {
    if |tasks| > 0 {
      RemoveIdMembers(tasks[1..], id);
      assert tasks == [tasks[0]] + tasks[1..];
    }
  }

  /** `handleTaskDelete(id)` after the reply. */
  function TaskDelete(tasks: seq<ClientTask>, id: Json, status: int): (r: seq<ClientTask>)
    ensures !Ok(status) ==> r == tasks
    ensures Ok(status) ==> forall t :: t in r <==> t in tasks && IdOf(t) != Some(id)
  {
    RemoveIdMembers(tasks, id);
    if Ok(status) then RemoveId(tasks, id) else tasks
  }

  /** `{ ...task, completed: !completed }`. */
  function WithCompleted(t: ClientTask, completed: Json): ClientTask {
    t["completed" := JBool(!Truthy(completed))]
  }

  /** `tasks.map((task) => task.id === id ? { ...task, completed: !completed } : task)`. */
  function ToggleId(tasks: seq<ClientTask>, id: Json, completed: Json): (r: seq<ClientTask>)
    ensures |r| == |tasks|
    ensures forall i :: 0 <= i < |tasks| ==>
              r[i] == if IdOf(tasks[i]) == Some(id) then WithCompleted(tasks[i], completed) else tasks[i]
  {
    seq(|tasks|, i requires 0 <= i < |tasks| =>
      if IdOf(tasks[i]) == Some(id) then WithCompleted(tasks[i], completed) else tasks[i])
  }

  /** `handleTaskCompletionToggle(id, completed)` after the reply. */
  function TaskToggle(tasks: seq<ClientTask>, id: Json, completed: Json, status: int): (r: seq<ClientTask>)
    ensures !Ok(status) ==> r == tasks
  {
    if Ok(status) then ToggleId(tasks, id, completed) else tasks
  }

  /**
   * A toggle writes only the `completed` field of the tasks with the id, and leaves every
   * other field of them, and every other task, as it was.
   */
  lemma ToggleTouchesOnlyCompleted(tasks: seq<ClientTask>, id: Json, completed: Json, status: int)
    requires Ok(status)
    ensures var r := TaskToggle(tasks, id, completed, status);
            && |r| == |tasks|
            && forall i :: 0 <= i < |tasks| ==>
                 && r[i].Keys == tasks[i].Keys + (if IdOf(tasks[i]) == Some(id) then {"completed"} else {})
                 && (forall k :: k in tasks[i] && k != "completed" ==> r[i][k] == tasks[i][k])
                 && (IdOf(tasks[i]) == Some(id) ==> r[i]["completed"] == JBool(!Truthy(completed)))
                 && (IdOf(tasks[i]) != Some(id) ==> r[i] == tasks[i])
  {
  }

  /** Toggling twice with the value each toggle saw restores the `completed` flag's truth. */
  lemma ToggleTwiceRestoresTruth(tasks: seq<ClientTask>, id: Json, completed: Json, i: nat)
    requires i < |tasks| && IdOf(tasks[i]) == Some(id)
    ensures var once := ToggleId(tasks, id, completed);
            var twice := ToggleId(once, id, once[i]["completed"]);
            Truthy(twice[i]["completed"]) == Truthy(completed)
  {
    var once := ToggleId(tasks, id, completed);
    assert IdOf(once[i]) == Some(id);
  }

  // ------------------------------------------------------------------ timer

  datatype Timer = Timer(seconds: nat, isRunning: bool)

  const InitialTimer := Timer(0, false)

  /** The interval callback: `{ ...prev, seconds: prev.seconds + 1 }`. */
  function Tick(t: Timer): (r: Timer)
    ensures r.seconds == t.seconds + 1 && r.isRunning == t.isRunning
  {
    t.(seconds := t.seconds + 1)
  }

  /** Start: `{ ...timer, isRunning: true }`. */
  function Start(t: Timer): (r: Timer)
    ensures r.isRunning && r.seconds == t.seconds
  {
    t.(isRunning := true)
  }

  /** Pause: `{ ...timer, isRunning: false }`. */
  function Pause(t: Timer): (r: Timer)
    ensures !r.isRunning && r.seconds == t.seconds
  {
    t.(isRunning := false)
  }

  /** Reset: `{ seconds: 0, isRunning: false }`. */
  function Reset(t: Timer): (r: Timer)
    ensures r == InitialTimer
  {
    Timer(0, false)
  }

  /** `n` seconds of wall clock: one tick per second while running, none while paused. */
  function Elapse(t: Timer, n: nat): Timer
    decreases n
  {
    if n == 0 || !t.isRunning then t else Elapse(Tick(t), n - 1)
  }

  /** A running timer counts exactly the seconds elapsed; a paused one does not move. */
  lemma {:induction false} ElapseCounts(t: Timer, n: nat)
    ensures Elapse(t, n) == if t.isRunning then Timer(t.seconds + n, true) else t
    decreases n
  {
    if n > 0 && t.isRunning {
      ElapseCounts(Tick(t), n - 1);
    }
  }

  /** Start, run for `n` seconds, pause: the display advanced by `n` and the timer is stopped. */
  lemma StartRunPause(t: Timer, n: nat)
    ensures Pause(Elapse(Start(t), n)) == Timer(t.seconds + n, false)
  {
    ElapseCounts(Start(t), n);
  }
}
