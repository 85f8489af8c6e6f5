/**
 * The top-users aggregation: `users LEFT JOIN sessions`, filtered to a calendar window,
 * summed per user, ordered by total descending and cut to 20 rows.
 */
module Leaderboard {
  import opened JsonValue
  import opened Tables

  datatype Timeframe = Today | ThisMonth | ThisYear | AllTime

  /** The number of rows the query returns at most (`LIMIT 20`). */
  const Limit: nat := 20

  /**
   * `searchParams.get('timeframe') || 'all-time'`, then the check against the four valid names:
   * a missing or empty parameter means all-time, any other unknown name is None (400).
   */
  function ParseTimeframe(param: Option<string>): (tf: Option<Timeframe>)
    ensures param.None? || param == Some("") ==> tf == Some(AllTime)
    ensures tf.None? <==>
            param.Some? && param.value != "" && param.value != "today" && param.value != "this-month"
            && param.value != "this-year" && param.value != "all-time"
    ensures param == Some("today") ==> tf == Some(Today)
    ensures param == Some("this-month") ==> tf == Some(ThisMonth)
    ensures param == Some("this-year") ==> tf == Some(ThisYear)
    ensures param == Some("all-time") ==> tf == Some(AllTime)
  {
    var name := if param.None? || param.value == "" then "all-time" else param.value;
    if name == "today" then Some(Today)
    else if name == "this-month" then Some(ThisMonth)
    else if name == "this-year" then Some(ThisYear)
    else if name == "all-time" then Some(AllTime)
    else None
  }

  /** The WHERE clause on `sessions.date_added` of each query, relative to `CURRENT_DATE()`. */
  predicate InWindow(tf: Timeframe, d: Date, today: Date): (b: bool)
    ensures d == today ==> b
    ensures b ==> tf == AllTime || d.year == today.year
  {
    match tf
    case Today => d == today
    case ThisMonth => d.month == today.month && d.year == today.year
    case ThisYear => d.year == today.year
    case AllTime => true
  }

  /** The windows nest: today lies in this month, this month in this year, this year in all time. */
  lemma WindowsNest(d: Date, today: Date)
    ensures InWindow(Today, d, today) ==> InWindow(ThisMonth, d, today)
    ensures InWindow(ThisMonth, d, today) ==> InWindow(ThisYear, d, today)
    ensures InWindow(ThisYear, d, today) ==> InWindow(AllTime, d, today)
  {
  }

  predicate Counts(s: Session, userId: int, tf: Timeframe, today: Date) {
    s.userId == userId && InWindow(tf, s.dateAdded, today)
  }

  /** `IFNULL(SUM(sessions.duration), 0)` over the user's sessions in the window. */
  function WindowTotal(sessions: seq<Session>, userId: int, tf: Timeframe, today: Date): (r: int)
    ensures (forall s :: s in sessions ==> s.duration >= 0) ==> r >= 0
  {
    if |sessions| == 0 then 0
    else (if Counts(sessions[0], userId, tf, today) then sessions[0].duration else 0)
         + WindowTotal(sessions[1..], userId, tf, today)
  }

  /** Some session of the user survives the WHERE clause. */
  predicate HasSessionIn(sessions: seq<Session>, userId: int, tf: Timeframe, today: Date) {
    exists s :: s in sessions && Counts(s, userId, tf, today)
  }

  /** A user with no session in the window sums to 0 (the IFNULL default). */
  lemma {:induction false} NoSessionsSumToZero(sessions: seq<Session>, userId: int, tf: Timeframe, today: Date)
    requires !HasSessionIn(sessions, userId, tf, today)
    ensures WindowTotal(sessions, userId, tf, today) == 0
  {
    if |sessions| > 0 {
      assert sessions[0] in sessions;
      assert forall s :: s in sessions[1..] ==> s in sessions;
      NoSessionsSumToZero(sessions[1..], userId, tf, today);
    }
  }

  /** One result row: `users.user_id, users.username` and the summed seconds (hours are seconds / 3600). */
  datatype Standing = Standing(userId: int, username: Json, totalSeconds: int)

  function StandingOf(u: User, sessions: seq<Session>, tf: Timeframe, today: Date): Standing {
    Standing(u.userId, u.username, WindowTotal(sessions, u.userId, tf, today))
  }

  /**
   * Whether a user's group survives. The LEFT JOIN keeps every user, but for a bounded window
   * the WHERE clause on the joined session drops users with no session in that window.
   */
  predicate Listed(u: User, sessions: seq<Session>, tf: Timeframe, today: Date) {
    tf == AllTime || HasSessionIn(sessions, u.userId, tf, today)
  }

  /** The grouped rows before ORDER BY, one per surviving user, in the users' row order. */
  function Standings(users: seq<User>, sessions: seq<Session>, tf: Timeframe, today: Date): (rows: seq<Standing>)
    ensures |rows| <= |users|
    ensures tf == AllTime ==> |rows| == |users|
    ensures forall u :: u in users && Listed(u, sessions, tf, today) ==> StandingOf(u, sessions, tf, today) in rows
    ensures forall r :: r in rows ==>
              exists u :: u in users && Listed(u, sessions, tf, today) && r == StandingOf(u, sessions, tf, today)
  {
    if |users| == 0 then []
    else
      (if Listed(users[0], sessions, tf, today) then [StandingOf(users[0], sessions, tf, today)] else [])
      + Standings(users[1..], sessions, tf, today)
  }

  /** No user id occurs twice. */
  predicate DistinctUsers(rows: seq<Standing>) {
    forall i, j :: 0 <= i < j < |rows| ==> rows[i].userId != rows[j].userId
  }

  lemma DistinctCons(x: Standing, tail: seq<Standing>)
    requires DistinctUsers(tail) && forall y :: y in tail ==> y.userId != x.userId
    ensures DistinctUsers([x] + tail)
  {
    var r := [x] + tail;
    forall i, j | 0 <= i < j < |r| ensures r[i].userId != r[j].userId {
      assert r[j] == tail[j - 1];
      if i > 0 { assert r[i] == tail[i - 1]; }
    }
  }

  /** With unique user ids, no user appears twice in the grouped rows. */
  lemma {:induction false} StandingsDistinct(users: seq<User>, sessions: seq<Session>, tf: Timeframe, today: Date)
    requires forall i, j :: 0 <= i < j < |users| ==> users[i].userId != users[j].userId
    ensures DistinctUsers(Standings(users, sessions, tf, today))
  {
    if |users| > 0 {
      var rest := users[1..];
      StandingsDistinct(rest, sessions, tf, today);
      var tail := Standings(rest, sessions, tf, today);
      forall r | r in tail ensures r.userId != users[0].userId {
        var u :| u in rest && Listed(u, sessions, tf, today) && r == StandingOf(u, sessions, tf, today);
        var k :| 0 <= k < |rest| && rest[k] == u;
        assert users[k + 1] == u;
      }
      if Listed(users[0], sessions, tf, today) {
        DistinctCons(StandingOf(users[0], sessions, tf, today), tail);
      }
    }
  }

  /** Non-increasing by total: `ORDER BY total_hours DESC`. */
  predicate SortedDesc(rows: seq<Standing>) {
    forall i, j :: 0 <= i < j < |rows| ==> rows[i].totalSeconds >= rows[j].totalSeconds
  }

  function Insert(x: Standing, rows: seq<Standing>): (r: seq<Standing>)
    requires SortedDesc(rows)
    ensures |r| == |rows| + 1
    ensures multiset(r) == multiset(rows) + multiset{x}
    ensures forall y :: y in r <==> y in rows || y == x
    ensures |rows| > 0 ==> r[0] == x || r[0] == rows[0]
    ensures SortedDesc(r)
  {
    if |rows| == 0 then [x]
    else if x.totalSeconds >= rows[0].totalSeconds then [x] + rows
    else
      assert rows == [rows[0]] + rows[1..];
      [rows[0]] + Insert(x, rows[1..])
  }

  /** The ordering step. Ties keep no contractual order; this one keeps the earlier row first. */
  function SortDesc(rows: seq<Standing>): (r: seq<Standing>)
    ensures SortedDesc(r)
    ensures |r| == |rows|
    ensures multiset(r) == multiset(rows)
    ensures forall y :: y in r <==> y in rows
  {
    if |rows| == 0 then []
    else
      assert rows == [rows[0]] + rows[1..];
      Insert(rows[0], SortDesc(rows[1..]))
  }

  lemma {:induction false} InsertDistinct(x: Standing, rows: seq<Standing>)
    requires SortedDesc(rows) && DistinctUsers(rows) && forall y :: y in rows ==> y.userId != x.userId
    ensures DistinctUsers(Insert(x, rows))
  {
    if |rows| == 0 {
    } else if x.totalSeconds >= rows[0].totalSeconds {
      DistinctCons(x, rows);
    } else {
      var rest := rows[1..];
      assert rows == [rows[0]] + rest;
      assert DistinctUsers(rest) by {
        forall i, j | 0 <= i < j < |rest| ensures rest[i].userId != rest[j].userId {
          assert rest[i] == rows[i + 1] && rest[j] == rows[j + 1];
        }
      }
      InsertDistinct(x, rest);
      forall y | y in Insert(x, rest) ensures y.userId != rows[0].userId {
        if y in rest {
          var k :| 0 <= k < |rest| && rest[k] == y;
          assert rows[k + 1] == y;
        }
      }
      DistinctCons(rows[0], Insert(x, rest));
    }
  }

  lemma {:induction false} SortDescDistinct(rows: seq<Standing>)
    requires DistinctUsers(rows)
    ensures DistinctUsers(SortDesc(rows))
  {
    if |rows| > 0 {
      var rest := rows[1..];
      assert rows == [rows[0]] + rest;
      assert DistinctUsers(rest) by {
        forall i, j | 0 <= i < j < |rest| ensures rest[i].userId != rest[j].userId {
          assert rest[i] == rows[i + 1] && rest[j] == rows[j + 1];
        }
      }
      SortDescDistinct(rest);
      forall y | y in SortDesc(rest) ensures y.userId != rows[0].userId {
        var k :| 0 <= k < |rest| && rest[k] == y;
        assert rows[k + 1] == y;
      }
      InsertDistinct(rows[0], SortDesc(rest));
    }
  }

  /** The leaderboard: the grouped rows ordered by total, cut after 20. */
  function TopUsers(users: seq<User>, sessions: seq<Session>, tf: Timeframe, today: Date): (r: seq<Standing>)
    ensures |r| <= Limit
  {
    var sorted := SortDesc(Standings(users, sessions, tf, today));
    if |sorted| <= Limit then sorted else sorted[..Limit]
  }

  /** Cutting a descending list after k rows keeps the largest: no row cut is larger than a row kept. */
  lemma CutKeepsLargest(sorted: seq<Standing>, k: nat, x: Standing)
    requires SortedDesc(sorted) && k <= |sorted|
    requires x in sorted && x !in sorted[..k]
    ensures forall y :: y in sorted[..k] ==> y.totalSeconds >= x.totalSeconds
  {
    var j :| 0 <= j < |sorted| && sorted[j] == x;
    forall y | y in sorted[..k] ensures y.totalSeconds >= x.totalSeconds {
      var i :| 0 <= i < k && sorted[..k][i] == y;
      assert sorted[i] == y;
    }
  }

  /**
   * What the leaderboard promises: ordered by total, every row a grouped row, and every grouped
   * row left out has a total no larger than any row kept (which only happens when 20 are kept).
   */
  lemma TopUsersAreTheLargest(users: seq<User>, sessions: seq<Session>, tf: Timeframe, today: Date)
    ensures var r := TopUsers(users, sessions, tf, today);
            && SortedDesc(r)
            && (forall x :: x in r ==> x in Standings(users, sessions, tf, today))
            && (forall x :: x in Standings(users, sessions, tf, today) && x !in r ==>
                  |r| == Limit && forall y :: y in r ==> y.totalSeconds >= x.totalSeconds)
  {
    var rows := Standings(users, sessions, tf, today);
    var sorted := SortDesc(rows);
    var r := TopUsers(users, sessions, tf, today);
    if |sorted| > Limit {
      assert r == sorted[..Limit];
      forall x | x in rows && x !in r ensures forall y :: y in r ==> y.totalSeconds >= x.totalSeconds {
        CutKeepsLargest(sorted, Limit, x);
      }
    } else {
      assert r == sorted;
    }
  }

  /** All-time with at most 20 users lists every user, one with no sessions at 0. */
  lemma AllTimeListsEveryUser(users: seq<User>, sessions: seq<Session>, today: Date, u: User)
    requires |users| <= Limit && u in users
    ensures StandingOf(u, sessions, AllTime, today) in TopUsers(users, sessions, AllTime, today)
    ensures !HasSessionIn(sessions, u.userId, AllTime, today) ==>
              StandingOf(u, sessions, AllTime, today).totalSeconds == 0
  {
    if !HasSessionIn(sessions, u.userId, AllTime, today) {
      NoSessionsSumToZero(sessions, u.userId, AllTime, today);
    }
  }

  /** For today, this month and this year, only users with a session in the window are listed. */
  lemma BoundedWindowNeedsSession(users: seq<User>, sessions: seq<Session>, tf: Timeframe, today: Date, x: Standing)
    requires tf != AllTime && x in TopUsers(users, sessions, tf, today)
    ensures HasSessionIn(sessions, x.userId, tf, today)
  {
    TopUsersAreTheLargest(users, sessions, tf, today);
    var u :| u in users && Listed(u, sessions, tf, today) && x == StandingOf(u, sessions, tf, today);
  }

  /** With unique user ids, no user appears twice on the leaderboard. */
  lemma TopUsersDistinct(users: seq<User>, sessions: seq<Session>, tf: Timeframe, today: Date)
    requires forall i, j :: 0 <= i < j < |users| ==> users[i].userId != users[j].userId
    ensures DistinctUsers(TopUsers(users, sessions, tf, today))
  {
    StandingsDistinct(users, sessions, tf, today);
    SortDescDistinct(Standings(users, sessions, tf, today));
  }
}
