/**
 * The server's dispatch chain: preflight first, then each route by method and exact path or
 * prefix, in source order, and the 404 default for everything else.
 */
module Routing {
  import opened JsonValue
  import opened Http
  import opened Text

  datatype Route =
    | Preflight
    | PostSignUp
    | PostSignIn
    | GetProfile
    | PatchAccount
    | GetTasks
    | GetArchivedTasks
    | PostTask
    | DeleteTask(idSegment: string)
    | PatchCompleted(idSegment: string)
    | PatchUnarchive(idSegment: string)
    | GetSessions
    | GetTopUsers
    | PostSession
    | Unmatched

  /** The routes whose handler starts with the token guard. */
  predicate Guarded(r: Route) {
    !(r.Preflight? || r.PostSignUp? || r.PostSignIn? || r.Unmatched?)
  }

  /** "/tasks/<rest>" splits on '/' into "", "tasks" and the pieces of <rest>. */
  lemma TaskPathSegments(rest: string)
    ensures Split("/tasks/" + rest, '/') == ["", "tasks"] + Split(rest, '/')
  {
    SplitCons("tasks", '/', rest);
    SplitCons("", '/', "tasks/" + rest);
    assert "/tasks/" + rest == "" + ['/'] + ("tasks/" + rest);
    assert "tasks/" + rest == "tasks" + ['/'] + rest;
  }

  /** "/tasks/<action>/<rest>" splits into "", "tasks", <action> and the pieces of <rest>. */
  lemma TaskActionSegments(action: string, rest: string)
    requires '/' !in action
    ensures Split("/tasks/" + action + "/" + rest, '/') == ["", "tasks", action] + Split(rest, '/')
  {
    SplitCons(action, '/', rest);
    TaskPathSegments(action + "/" + rest);
    assert "/tasks/" + action + "/" + rest == "/tasks/" + (action + "/" + rest);
    assert action + "/" + rest == action + ['/'] + rest;
  }

  /** `req.url.split('/')[2]` for a URL that starts with "/tasks/". */
  function SegmentTwo(url: string): (seg: string)
    requires StartsWith(url, "/tasks/")
    ensures seg == Split(url[7..], '/')[0]
  {
    assert url == "/tasks/" + url[7..];
    TaskPathSegments(url[7..]);
    Split(url, '/')[2]
  }

  /** `req.url.split('/')[3]` for a URL that starts with "/tasks/<action>/". */
  function SegmentThree(url: string, action: string): (seg: string)
    requires '/' !in action && StartsWith(url, "/tasks/" + action + "/")
    ensures seg == Split(url[8 + |action|..], '/')[0]
  {
    var rest := url[8 + |action|..];
    assert url == "/tasks/" + action + "/" + rest;
    TaskActionSegments(action, rest);
    Split(url, '/')[3]
  }

  /** The if/else-if chain of the request handler. */
  function Resolve(m: Method, url: string): (r: Route)
    ensures r == Preflight <==> m == Options
  {
    if m == Options then Preflight
    else if m == Post && url == "/SignUp" then PostSignUp
    else if m == Post && url == "/SignIn" then PostSignIn
    else if m == Get && url == "/ProfilePage2" then GetProfile
    else if m == Patch && url == "/update-account" then PatchAccount
    else if m == Get && url == "/tasks" then GetTasks
    else if m == Get && url == "/archived-tasks" then GetArchivedTasks
    else if m == Post && url == "/tasks" then PostTask
    else if m == Delete && StartsWith(url, "/tasks/") then DeleteTask(SegmentTwo(url))
    else if m == Patch && StartsWith(url, "/tasks/complete/") then PatchCompleted(SegmentThree(url, "complete"))
    else if m == Patch && StartsWith(url, "/tasks/unarchive/") then PatchUnarchive(SegmentThree(url, "unarchive"))
    else if m == Get && url == "/sessions" then GetSessions
    else if m == Get && StartsWith(url, "/top-users") then GetTopUsers
    else if m == Post && url == "/sessions" then PostSession
    else Unmatched
  }

  /**
   * `DELETE /tasks/<n>`, the client's delete request, reaches the flag handler with segment <n>.
   */
  lemma {:induction false} DeletePathRoutes(n: nat)
    ensures Resolve(Delete, "/tasks/" + NatToString(n)) == DeleteTask(NatToString(n))
  {
    var url := "/tasks/" + NatToString(n);
    assert StartsWith(url, "/tasks/");
    assert url[7..] == NatToString(n);
    NoSeparatorInDigits(NatToString(n), '/');
    SplitNone(NatToString(n), '/');
  }

  /** `PATCH /tasks/complete/<n>` reaches the completion handler with segment <n>. */
  lemma {:induction false} CompletePathRoutes(n: nat)
    ensures Resolve(Patch, "/tasks/complete/" + NatToString(n)) == PatchCompleted(NatToString(n))
  {
    var url := "/tasks/complete/" + NatToString(n);
    assert url == "/tasks/" + "complete" + "/" + NatToString(n);
    assert url[16..] == NatToString(n);
    NoSeparatorInDigits(NatToString(n), '/');
    SplitNone(NatToString(n), '/');
  }

  /** `PATCH /tasks/unarchive/<n>` reaches the unarchive handler with segment <n>. */
  lemma {:induction false} UnarchivePathRoutes(n: nat)
    ensures Resolve(Patch, "/tasks/unarchive/" + NatToString(n)) == PatchUnarchive(NatToString(n))
  {
    var url := "/tasks/unarchive/" + NatToString(n);
    assert url == "/tasks/" + "unarchive" + "/" + NatToString(n);
    assert url[17..] == NatToString(n);
    assert !StartsWith(url, "/tasks/complete/") by { assert url[7] == 'u'; }
    NoSeparatorInDigits(NatToString(n), '/');
    SplitNone(NatToString(n), '/');
  }

  /**
   * `PATCH /tasks/<n>`, the request the client's completion toggle sends, matches no route:
   * completion lives under "/tasks/complete/", so the chain falls through to the 404 default.
   */
  lemma {:induction false} TogglePathIsUnmatched(n: nat)
    ensures Resolve(Patch, "/tasks/" + NatToString(n)) == Unmatched
  {
    var url := "/tasks/" + NatToString(n);
    var digits := NatToString(n);
    assert url[7] == digits[0];
    assert IsDigit(digits[0]);
    assert !StartsWith(url, "/tasks/complete/") by {
      if |url| >= 16 { assert url[..16][7] == url[7]; }
    }
    assert !StartsWith(url, "/tasks/unarchive/") by {
      if |url| >= 17 { assert url[..17][7] == url[7]; }
    }
    assert url != "/update-account" by { assert url[1] == 't'; }
  }

  // ------------------------------------------------------------ query string

  /** The URL without its fragment: everything before the first '#'. */
  function WithoutFragment(url: string): (r: string)
    ensures '#' !in r && StartsWith(url, r)
    ensures |r| < |url| ==> url[|r|] == '#'
  {
    if |url| == 0 || url[0] == '#' then ""
    else
      var rest := WithoutFragment(url[1..]);
      assert url == [url[0]] + url[1..];
      [url[0]] + rest
  }

  /** A URL without '#' has no fragment to drop. */
  lemma {:induction false} WithoutFragmentOf(url: string)
    requires '#' !in url
    ensures WithoutFragment(url) == url
  {
    if |url| > 0 {
      WithoutFragmentOf(url[1..]);
      assert url == [url[0]] + url[1..];
    }
  }

  /** The fragment starts at the first '#'. */
  lemma {:induction false} WithoutFragmentCut(s: string, fragment: string)
    requires '#' !in s
    ensures WithoutFragment(s + "#" + fragment) == s
  {
    var url := s + "#" + fragment;
    if |s| == 0 {
      assert url[0] == '#';
    } else {
      assert url[0] == s[0] && url[0] != '#';
      assert url[1..] == s[1..] + "#" + fragment;
      WithoutFragmentCut(s[1..], fragment);
      assert s == [s[0]] + s[1..];
    }
  }

  /** What follows the first '?' of a fragment-free URL, if there is one. */
  function QueryAfterMark(s: string): (q: Option<string>)
    ensures q.Some? ==> exists i :: 0 <= i < |s| && s[i] == '?' && q.value == s[i + 1..]
    ensures q.None? <==> '?' !in s
  {
    if |s| == 0 then None
    else if s[0] == '?' then Some(s[1..])
    else
      var q := QueryAfterMark(s[1..]);
      assert forall i :: 0 <= i < |s[1..]| ==> s[1..][i] == s[i + 1];
      q
  }

  /**
   * The query of `new URL(req.url, ...)`: what follows the first '?' and comes before the
   * fragment; None when the URL has no '?' ahead of its first '#'.
   */
  function QueryString(url: string): (q: Option<string>)
    ensures q.None? <==> '?' !in WithoutFragment(url)
    ensures q.Some? ==> '#' !in q.value
    ensures q.Some? ==>
              exists i :: 0 <= i < |WithoutFragment(url)| && url[i] == '?' && q.value == WithoutFragment(url)[i + 1..]
  {
    var s := WithoutFragment(url);
    var q := QueryAfterMark(s);
    assert q.Some? ==> '#' !in q.value by {
      if q.Some? {
        var i :| 0 <= i < |s| && s[i] == '?' && q.value == s[i + 1..];
        assert forall k :: 0 <= k < |q.value| ==> q.value[k] == s[i + 1 + k];
      }
    }
    assert forall i :: 0 <= i < |s| ==> s[i] == url[i];
    q
  }

  /**
   * `URLSearchParams.get(key)`: the value of the first `name=value` pair whose name is `key`
   * ("" when the pair has no '='). Percent-decoding and '+' are not modelled.
   */
  function SearchParam(query: string, key: string): (r: Option<string>)
    ensures r.Some? <==> HasPair(Split(query, '&'), key)
    ensures r.Some? ==> exists k :: FirstNamed(Split(query, '&'), key, k) && r.value == ValueOf(Split(query, '&')[k])
    ensures r.Some? ==> '&' !in r.value && forall ch :: ch in r.value ==> ch in query
  {
    var pairs := Split(query, '&');
    var r := FirstParam(pairs, key);
    assert r.Some? ==> '&' !in r.value && forall ch :: ch in r.value ==> ch in query by {
      if r.Some? {
        var k :| FirstNamed(pairs, key, k) && r.value == ValueOf(pairs[k]);
        var i :| 0 <= i <= |pairs[k]| && r.value == pairs[k][i..];
        TailChars(pairs[k], i);
      }
    }
    r
  }

  lemma TailChars(s: string, i: nat)
    requires i <= |s|
    ensures forall ch :: ch in s[i..] ==> ch in s
  {
    forall ch | ch in s[i..] ensures ch in s {
      var j :| 0 <= j < |s[i..]| && s[i..][j] == ch;
      assert s[i + j] == ch;
    }
  }

  /** A `name=value` pair (or a bare `name`) whose name, the text before its first '=', is `key`. */
  predicate NamedPair(pair: string, key: string) {
    pair != "" && Split(pair, '=')[0] == key
  }

  /**
   * The value of a pair: everything after its first '=', so that "a=b=c" has value "b=c";
   * "" when the pair has no '='.
   */
  function ValueOf(pair: string): (v: string)
    ensures '=' !in pair ==> v == ""
    ensures '=' in pair ==>
              exists i :: 0 <= i < |pair| && pair[i] == '=' && '=' !in pair[..i] && v == pair[i + 1..]
    ensures exists i :: 0 <= i <= |pair| && v == pair[i..]
  {
    var name := Split(pair, '=')[0];
    SplitHead(pair, '=');
    if |name| < |pair| then
      assert pair[..|name|] == name;
      pair[|name| + 1..]
    else
      assert pair == name;
      assert pair[|pair|..] == "";
      ""
  }

  predicate HasPair(pairs: seq<string>, key: string) {
    exists k :: 0 <= k < |pairs| && NamedPair(pairs[k], key)
  }

  /** Pair `k` is the first pair named `key`. */
  predicate FirstNamed(pairs: seq<string>, key: string, k: int) {
    0 <= k < |pairs| && NamedPair(pairs[k], key) && forall j :: 0 <= j < k ==> !NamedPair(pairs[j], key)
  }

  /** The first pair named `key` gives the value. */
  function FirstParam(pairs: seq<string>, key: string): (r: Option<string>)
    ensures r.Some? <==> HasPair(pairs, key)
    ensures r.Some? ==> exists k :: FirstNamed(pairs, key, k) && r.value == ValueOf(pairs[k])
  {
    if |pairs| == 0 then None
    else if NamedPair(pairs[0], key) then
      assert FirstNamed(pairs, key, 0);
      Some(ValueOf(pairs[0]))
    else
      var r := FirstParam(pairs[1..], key);
      assert forall k :: 0 <= k < |pairs[1..]| ==> pairs[1..][k] == pairs[k + 1];
      assert r.Some? ==> exists k :: FirstNamed(pairs, key, k) && r.value == ValueOf(pairs[k]) by {
        if r.Some? {
          var k :| FirstNamed(pairs[1..], key, k) && r.value == ValueOf(pairs[1..][k]);
          assert FirstNamed(pairs, key, k + 1);
        }
      }
      r
  }

  /** A leading pair named `key` decides the lookup, whatever pairs follow it. */
  lemma FirstPairWins(pair: string, rest: string, key: string)
    requires '&' !in pair && NamedPair(pair, key)
    ensures SearchParam(pair + "&" + rest, key) == Some(ValueOf(pair))
  {
    SplitCons(pair, '&', rest);
    assert pair + "&" + rest == pair + ['&'] + rest;
  }

  /** A leading pair with another name is skipped: "a=1&timeframe=today" looks up "timeframe" in the rest. */
  lemma OtherPairSkipped(pair: string, rest: string, key: string)
    requires '&' !in pair && !NamedPair(pair, key)
    ensures SearchParam(pair + "&" + rest, key) == SearchParam(rest, key)
  {
    SplitCons(pair, '&', rest);
    assert pair + "&" + rest == pair + ['&'] + rest;
    var pairs := Split(pair + "&" + rest, '&');
    assert pairs[1..] == Split(rest, '&');
  }

  /** The `timeframe` parameter of a top-users URL: a value without '&' or '#', None without a query. */
  function TimeframeParam(url: string): (r: Option<string>)
    ensures '?' !in url ==> r.None?
    ensures r.Some? ==> '&' !in r.value && '#' !in r.value
  {
    assert '?' !in url ==> '?' !in WithoutFragment(url) by {
      var w := WithoutFragment(url);
      assert forall i :: 0 <= i < |w| ==> w[i] == url[i];
    }
    match QueryString(url)
    case None => None
    case Some(q) => SearchParam(q, "timeframe")
  }

  /** "<path>?timeframe=<v>" carries <v> when <v> has no '&' or '#' and the path has no '?' or '#'. */
  lemma {:induction false} TimeframeParamOf(path: string, v: string)
    requires '?' !in path && '#' !in path && '&' !in v && '#' !in v
    ensures TimeframeParam(path + "?timeframe=" + v) == Some(v)
  {
    var q := "timeframe" + "=" + v;
    Regroup(path, "?timeframe=", v, "?", q);
    TimeframeParamAfter(path, q);
    SingleParam("timeframe", v);
  }

  /** A fragment after the parameter is not part of it: "<path>?timeframe=<v>#<f>" still carries <v>. */
  lemma {:induction false} TimeframeParamBeforeFragment(path: string, v: string, fragment: string)
    requires '?' !in path && '#' !in path && '&' !in v && '#' !in v
    ensures TimeframeParam(path + "?timeframe=" + v + "#" + fragment) == Some(v)
  {
    var q := "timeframe" + "=" + v;
    Regroup(path, "?timeframe=", v, "?", q);
    TimeframeParamFragment(path, q, fragment);
    SingleParam("timeframe", v);
  }

  /** Splits the literal "?timeframe=" into the mark and the pair it begins. */
  lemma Regroup(path: string, mark: string, v: string, sep: string, q: string)
    requires mark == "?timeframe=" && sep == "?" && q == "timeframe" + "=" + v && '#' !in v
    ensures path + mark + v == path + sep + q
    ensures '#' !in q
  {
    assert mark == sep + "timeframe" + "=";
  }

  /**
   * Another pair before it does not hide the parameter: "<path>?<other>&timeframe=<v>" carries <v>
   * when <other> is not itself named "timeframe".
   */
  lemma {:induction false} TimeframeParamAfterOtherPair(path: string, other: string, v: string)
    requires '?' !in path && '#' !in path && '&' !in other && '#' !in other && '&' !in v && '#' !in v
    requires !NamedPair(other, "timeframe")
    ensures TimeframeParam(path + "?" + other + "&timeframe=" + v) == Some(v)
  {
    var pair := "timeframe" + "=" + v;
    var q := other + "&" + pair;
    RegroupAfter(path, other, "&timeframe=", v, q);
    TimeframeParamAfter(path, q);
    OtherPairSkipped(other, pair, "timeframe");
    SingleParam("timeframe", v);
  }

  /** Splits the literal "&timeframe=" into the separator and the pair it begins. */
  lemma RegroupAfter(path: string, other: string, mark: string, v: string, q: string)
    requires mark == "&timeframe=" && q == other + "&" + ("timeframe" + "=" + v)
    requires '#' !in other && '#' !in v
    ensures path + "?" + other + mark + v == path + "?" + q
    ensures '#' !in q
  {
    assert mark == "&" + "timeframe" + "=";
  }

  /** A repeated parameter: in "<path>?timeframe=<v>&<rest>" the first one, <v>, is read. */
  lemma {:induction false} TimeframeParamFirstWins(path: string, v: string, rest: string)
    requires '?' !in path && '#' !in path && '&' !in v && '#' !in v && '#' !in rest
    ensures TimeframeParam(path + "?timeframe=" + v + "&" + rest) == Some(v)
  {
    var pair := "timeframe" + "=" + v;
    var q := pair + "&" + rest;
    Regroup(path, "?timeframe=", v, "?", pair);
    assert path + "?timeframe=" + v + "&" + rest == path + "?" + q;
    assert '#' !in pair && '&' !in pair;
    TimeframeParamAfter(path, q);
    PairValue("timeframe", v);
    FirstPairWins(pair, rest, "timeframe");
  }

  /** "key=v" is named `key` and has value `v`. */
  lemma PairValue(key: string, v: string)
    requires key != "" && '=' !in key
    ensures NamedPair(key + "=" + v, key) && ValueOf(key + "=" + v) == v
  {
    var pair := key + "=" + v;
    assert pair == key + ['='] + v;
    SplitCons(key, '=', v);
    assert pair[|key| + 1..] == v;
  }

  /** The same with a fragment after the query. */
  lemma TimeframeParamFragment(path: string, q: string, fragment: string)
    requires '?' !in path && '#' !in path && '#' !in q
    ensures TimeframeParam(path + "?" + q + "#" + fragment) == SearchParam(q, "timeframe")
  {
    QueryStopsAtFragment(path, q, fragment);
  }

  /** Behind a path without '?' or '#', the parameter is looked up in what follows the '?'. */
  lemma TimeframeParamAfter(path: string, q: string)
    requires '?' !in path && '#' !in path && '#' !in q
    ensures TimeframeParam(path + "?" + q) == SearchParam(q, "timeframe")
  {
    QueryStringAfter(path, q);
  }

  /** A query of one pair `key=v` gives `v` for `key`. */
  lemma {:induction false} SingleParam(key: string, v: string)
    requires key != "" && '=' !in key && '&' !in key && '&' !in v
    ensures SearchParam(key + "=" + v, key) == Some(v)
  {
    var pair := key + "=" + v;
    assert '&' !in pair by {
      assert forall i :: 0 <= i < |pair| ==> pair[i] == if i < |key| then key[i] else if i == |key| then '=' else v[i - |key| - 1];
    }
    SplitNone(pair, '&');
    assert pair == key + ['='] + v;
    SplitCons(key, '=', v);
    assert pair[|key| + 1..] == v;
    assert FirstParam([pair], key) == Some(ValueOf(pair));
  }

  /** A fragment-free URL "<path>?<q>" has query <q>. */
  lemma QueryStringAfter(path: string, q: string)
    requires '?' !in path && '#' !in path && '#' !in q
    ensures QueryString(path + "?" + q) == Some(q)
  {
    WithoutFragmentOf(path + "?" + q);
    QueryAfterMarkAfter(path, q);
  }

  /** The query ends where the fragment begins. */
  lemma QueryStopsAtFragment(path: string, q: string, fragment: string)
    requires '?' !in path && '#' !in path && '#' !in q
    ensures QueryString(path + "?" + q + "#" + fragment) == Some(q)
  {
    WithoutFragmentCut(path + "?" + q, fragment);
    QueryAfterMarkAfter(path, q);
  }

  lemma {:induction false} QueryAfterMarkAfter(path: string, q: string)
    requires '?' !in path
    ensures QueryAfterMark(path + "?" + q) == Some(q)
  {
    var url := path + "?" + q;
    if |path| > 0 {
      assert url[0] == path[0] && url[0] != '?';
      assert url[1..] == path[1..] + "?" + q;
      QueryAfterMarkAfter(path[1..], q);
    } else {
      assert url[0] == '?' && url[1..] == q;
    }
  }
}
