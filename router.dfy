/**
 * The hand-written router of the back end (backend/src/server.js):
 * `cleanSegments` cuts a request path into its non-empty segments and
 * `matchRoute` looks the request up in an ordered table of routes, binding
 * the `:name` segments of the first route that fits.
 */
module Router {
  import opened Js

  // ---------------------------------------------------------------------------
  // cleanSegments

  /** The path without its leading run of slashes: only slashes are removed, and all of them. */
  function StripLeading(s: string): (r: string)
    ensures |r| <= |s| && r == s[|s| - |r|..]
    ensures forall k :: 0 <= k < |s| - |r| ==> s[k] == '/'
    ensures r != [] ==> r[0] != '/'
  {
    if s != [] && s[0] == '/' then StripLeading(s[1..]) else s
  }

  /** The path without its trailing run of slashes: only slashes are removed, and all of them. */
  function StripTrailing(s: string): (r: string)
    ensures |r| <= |s| && r == s[..|r|]
    ensures forall k :: |r| <= k < |s| ==> s[k] == '/'
    ensures r != [] ==> r[|r| - 1] != '/'
  {
    if s != [] && s[|s| - 1] == '/' then StripTrailing(s[..|s| - 1]) else s
  }

  predicate NonEmpty(segment: string) {
    segment != ""
  }

  /**
   * `pathname.replace(/^\/+|\/+$/g, '').split('/').filter(Boolean)`: no
   * segment of the result is empty or holds a slash.
   */
  function CleanSegments(pathname: string): (r: seq<string>)
    ensures forall k :: 0 <= k < |r| ==> IsSegment(r[k])
  {
    var pieces := Split(StripTrailing(StripLeading(pathname)), '/');
    NonEmptyPiecesAreSegments(pieces);
    Filter(pieces, NonEmpty)
  }

  /** A path made of segments, each after one slash: `PathOf(["jobs", "42"]) == "/jobs/42"`. */
  function PathOf(segments: seq<string>): string {
    if segments == [] then "" else "/" + segments[0] + PathOf(segments[1..])
  }

  /** A segment of a clean path: not empty and without a slash. */
  predicate IsSegment(segment: string) {
    segment != "" && '/' !in segment
  }

  /** The non-empty ones among slash-free pieces are segments. */
  lemma NonEmptyPiecesAreSegments(pieces: seq<string>)
    requires forall k :: 0 <= k < |pieces| ==> '/' !in pieces[k]
    ensures forall k :: 0 <= k < |Filter(pieces, NonEmpty)| ==> IsSegment(Filter(pieces, NonEmpty)[k])
  {
    var r := Filter(pieces, NonEmpty);
    forall k | 0 <= k < |r|
      ensures IsSegment(r[k])
    {
      var i :| 0 <= i < |pieces| && pieces[i] == r[k];
    }
  }

  lemma {:induction false} SplitSnoc(s: string, sep: char)
    ensures Split(s + [sep], sep) == Split(s, sep) + [""]
  {
    if s == [] {
      assert [sep][1..] == [];
    } else {
      assert (s + [sep])[1..] == s[1..] + [sep];
      SplitSnoc(s[1..], sep);
    }
  }

  lemma SplitAfterSeparator(t: string, sep: char)
    ensures Split([sep] + t, sep) == [""] + Split(t, sep)
  {
    assert ([sep] + t)[1..] == t;
  }

  lemma {:induction false} SplitAfterPrefix(a: string, t: string, sep: char)
    requires sep !in a
    ensures Split(a + t, sep) == [a + Split(t, sep)[0]] + Split(t, sep)[1..]
  {
    if a == [] {
      assert a + t == t && a + Split(t, sep)[0] == Split(t, sep)[0];
    } else {
      assert (a + t)[1..] == a[1..] + t;
      SplitAfterPrefix(a[1..], t, sep);
      assert [a[0]] + (a[1..] + Split(t, sep)[0]) == a + Split(t, sep)[0];
    }
  }

  lemma {:induction false} StripLeadingIgnored(s: string)
    ensures Filter(Split(StripLeading(s), '/'), NonEmpty) == Filter(Split(s, '/'), NonEmpty)
  {
    if s != [] && s[0] == '/' {
      StripLeadingIgnored(s[1..]);
      assert Split(s, '/') == [""] + Split(s[1..], '/');
    }
  }

  lemma {:induction false} StripTrailingIgnored(s: string)
    ensures Filter(Split(StripTrailing(s), '/'), NonEmpty) == Filter(Split(s, '/'), NonEmpty)
  {
    if s != [] && s[|s| - 1] == '/' {
      var t := s[..|s| - 1];
      StripTrailingIgnored(t);
      assert s == t + ['/'];
      SplitSnoc(t, '/');
      FilterAppend(Split(t, '/'), [""], NonEmpty);
    }
  }

  /**
   * Stripping the slash runs at either end changes nothing once the empty
   * pieces are filtered out: the segments are the non-empty pieces between slashes.
   */
  lemma CleanSegmentsAreNonEmptyPieces(pathname: string)
    ensures CleanSegments(pathname) == Filter(Split(pathname, '/'), NonEmpty)
  {
    StripTrailingIgnored(StripLeading(pathname));
    StripLeadingIgnored(pathname);
  }

  lemma {:induction false} SplitPath(segments: seq<string>)
    requires forall k :: 0 <= k < |segments| ==> '/' !in segments[k]
    ensures Split(PathOf(segments), '/') == [""] + segments
  {
    if segments != [] {
      var tail := PathOf(segments[1..]);
      SplitPath(segments[1..]);
      SplitAfterPrefix(segments[0], tail, '/');
      assert segments[0] + Split(tail, '/')[0] == segments[0];
      assert PathOf(segments) == "/" + (segments[0] + tail);
      SplitAfterSeparator(segments[0] + tail, '/');
      assert [segments[0]] + segments[1..] == segments;
    }
  }

  lemma {:induction false} FilterKeepsSegments(segments: seq<string>)
    requires forall k :: 0 <= k < |segments| ==> IsSegment(segments[k])
    ensures Filter(segments, NonEmpty) == segments
  {
    if segments != [] {
      FilterKeepsSegments(segments[1..]);
    }
  }

  /** A path built from slash-free pieces cleans to its non-empty pieces: runs of slashes act as one. */
  lemma CleanSegmentsOfPieces(pieces: seq<string>)
    requires forall k :: 0 <= k < |pieces| ==> '/' !in pieces[k]
    ensures CleanSegments(PathOf(pieces)) == Filter(pieces, NonEmpty)
  {
    CleanSegmentsAreNonEmptyPieces(PathOf(pieces));
    SplitPath(pieces);
    assert Filter([""] + pieces, NonEmpty) == Filter(pieces, NonEmpty) by {
      assert ([""] + pieces)[1..] == pieces;
    }
  }

  /** Cleaning a path built from segments gives those segments back. */
  lemma CleanSegmentsOfPath(segments: seq<string>)
    requires forall k :: 0 <= k < |segments| ==> IsSegment(segments[k])
    ensures CleanSegments(PathOf(segments)) == segments
  {
    CleanSegmentsOfPieces(segments);
    FilterKeepsSegments(segments);
  }

  /** A trailing slash does not change the segments. */
  lemma TrailingSlashIgnored(pathname: string)
    ensures CleanSegments(pathname + "/") == CleanSegments(pathname)
  {
    CleanSegmentsAreNonEmptyPieces(pathname + "/");
    CleanSegmentsAreNonEmptyPieces(pathname);
    SplitSnoc(pathname, '/');
    FilterAppend(Split(pathname, '/'), [""], NonEmpty);
  }

  lemma PathWithEmptyMiddle(first: string, second: string)
    ensures "/" + first + "//" + second + "/" == PathOf([first, "", second]) + "/"
  {
    var pieces := [first, "", second];
    assert pieces[1..] == ["", second] && ["", second][1..] == [second] && [second][1..] == [];
    assert PathOf([second]) == "/" + second + "";
    assert PathOf(["", second]) == "/" + "" + ("/" + second);
    assert PathOf(pieces) == "/" + first + ("/" + "" + ("/" + second));
  }

  lemma FilterDropsEmptyMiddle(first: string, second: string)
    requires IsSegment(first) && IsSegment(second)
    ensures Filter([first, "", second], NonEmpty) == [first, second]
  {
    assert [first, "", second][1..] == ["", second] && ["", second][1..] == [second] && [second][1..] == [];
    assert Filter([second], NonEmpty) == [second];
    assert Filter(["", second], NonEmpty) == [second];
  }

  /** Runs of slashes, at the ends or inside, do not make segments: `"/jobs//42/"` cleans to `["jobs", "42"]`. */
  lemma DoubledAndTrailingSlashes(first: string, second: string)
    requires IsSegment(first) && IsSegment(second)
    ensures CleanSegments("/" + first + "//" + second + "/") == [first, second]
  {
    var pieces := [first, "", second];
    PathWithEmptyMiddle(first, second);
    TrailingSlashIgnored(PathOf(pieces));
    CleanSegmentsOfPieces(pieces);
    FilterDropsEmptyMiddle(first, second);
  }

  // ---------------------------------------------------------------------------
  // The route table

  /** The handler a route dispatches to, in the route modules. */
  datatype Handler =
    | Healthcheck | GetJobs | CreateJob | GetJob | UpdateJob
    | GetEmployees | CreateEmployee | GetEmployee

  datatype Route = Route(httpMethod: string, pattern: seq<string>, handler: Handler)

  /** `{ handler, params }` */
  datatype Match = Match(handler: Handler, params: map<string, string>)

  const Routes: seq<Route> := [
    Route("GET", ["health"], Healthcheck),
    Route("GET", ["jobs"], GetJobs),
    Route("POST", ["jobs"], CreateJob),
    Route("GET", ["jobs", ":id"], GetJob),
    Route("PATCH", ["jobs", ":id"], UpdateJob),
    Route("GET", ["employees"], GetEmployees),
    Route("POST", ["employees"], CreateEmployee),
    Route("GET", ["employees", ":id"], GetEmployee)
  ]

  /** `expected.startsWith(':')` */
  predicate IsParam(expected: string) {
    |expected| > 0 && expected[0] == ':'
  }

  /** The segments fit the pattern: as many, and equal wherever the pattern is not a parameter. */
  predicate Fits(pattern: seq<string>, segments: seq<string>) {
    && |pattern| == |segments|
    && forall i :: 0 <= i < |pattern| && !IsParam(pattern[i]) ==> pattern[i] == segments[i]
  }

  /** The parameters bound by the first `n` pattern segments, a later binding of a name replacing an earlier one. */
  function Captures(pattern: seq<string>, segments: seq<string>, n: nat): map<string, string>
    requires n <= |pattern| && n <= |segments|
  {
    if n == 0 then map[]
    else if IsParam(pattern[n - 1]) then Captures(pattern, segments, n - 1)[pattern[n - 1][1..] := segments[n - 1]]
    else Captures(pattern, segments, n - 1)
  }

  /** The names of a pattern's parameters, without their colon. */
  function ParamNames(pattern: seq<string>): set<string> {
    set p | p in pattern && IsParam(p) :: p[1..]
  }

  predicate Applies(route: Route, httpMethod: string, segments: seq<string>) {
    route.httpMethod == httpMethod && Fits(route.pattern, segments)
  }

  /** The match of the first route that applies; none exactly when no route of the table applies. */
  function FirstMatch(routes: seq<Route>, httpMethod: string, segments: seq<string>): (r: Option<Match>)
    ensures r.None? <==> forall k :: 0 <= k < |routes| ==> !Applies(routes[k], httpMethod, segments)
  {
    if routes == [] then None
    else if Applies(routes[0], httpMethod, segments) then
      Some(Match(routes[0].handler, Captures(routes[0].pattern, segments, |segments|)))
    else
      assert forall k :: 1 <= k < |routes| ==> routes[k] == routes[1..][k - 1];
      FirstMatch(routes[1..], httpMethod, segments)
  }

  /**
   * The inner loop of `matchRoute` for a route whose pattern is as long as
   * the path: it binds the parameters and stops at the first literal that
   * differs.
   */
  method BindParams(pattern: seq<string>, segments: seq<string>) returns (matches: bool, params: map<string, string>)
    requires |pattern| == |segments|
    ensures matches == Fits(pattern, segments)
    ensures matches ==> params == Captures(pattern, segments, |segments|)
  {
    params := map[];
    matches := true;
    var i := 0;
    while i < |pattern|
      invariant 0 <= i <= |pattern|
      invariant params == Captures(pattern, segments, i)
      invariant forall j :: 0 <= j < i && !IsParam(pattern[j]) ==> pattern[j] == segments[j]
    {
      var expected := pattern[i];
      var actual := segments[i];
      if IsParam(expected) {
        params := params[expected[1..] := actual];
        i := i + 1;
        continue;
      }
      if expected != actual {
        matches := false;
        break;
      }
      i := i + 1;
    }
  }

  /** The outer loop of `matchRoute`: the routes in table order, skipping those of another method or length. */
  method MatchIn(routes: seq<Route>, httpMethod: string, segments: seq<string>) returns (matched: Option<Match>)
    ensures matched == FirstMatch(routes, httpMethod, segments)
  {
    var k := 0;
    while k < |routes|
      invariant 0 <= k <= |routes|
      invariant FirstMatch(routes, httpMethod, segments) == FirstMatch(routes[k..], httpMethod, segments)
    {
      var route := routes[k];
      assert routes[k..][1..] == routes[k + 1..];
      if route.httpMethod != httpMethod {
        k := k + 1;
        continue;
      }
      if |route.pattern| != |segments| {
        k := k + 1;
        continue;
      }
      var matches, params := BindParams(route.pattern, segments);
      if matches {
        return Some(Match(route.handler, params));
      }
      k := k + 1;
    }
    return None;
  }

  /** `matchRoute(method, pathname)` */
  method MatchRoute(httpMethod: string, pathname: string) returns (matched: Option<Match>)
    ensures matched == FirstMatch(Routes, httpMethod, CleanSegments(pathname))
  {
    var segments := CleanSegments(pathname);
    matched := MatchIn(Routes, httpMethod, segments);
  }

  // ---------------------------------------------------------------------------
  // What the router promises

  /** The first route that applies is the one matched, with its handler and its bound parameters. */
  lemma {:induction false} FirstApplyingRouteWins(routes: seq<Route>, httpMethod: string, segments: seq<string>, k: nat)
    requires k < |routes| && Applies(routes[k], httpMethod, segments)
    requires forall j :: 0 <= j < k ==> !Applies(routes[j], httpMethod, segments)
    ensures FirstMatch(routes, httpMethod, segments)
         == Some(Match(routes[k].handler, Captures(routes[k].pattern, segments, |segments|)))
  {
    if k > 0 {
      assert forall j :: 0 <= j < k - 1 ==> routes[1..][j] == routes[j + 1];
      FirstApplyingRouteWins(routes[1..], httpMethod, segments, k - 1);
    }
  }

  /**
   * A match comes from a route that applies to the request after none of
   * the routes before it did; its handler is that route's and the keys of its
   * parameters are exactly the `:`-prefixed names of that route's pattern.
   */
  lemma {:induction false} MatchedRouteApplies(routes: seq<Route>, httpMethod: string, segments: seq<string>)
    requires FirstMatch(routes, httpMethod, segments).Some?
    ensures var m := FirstMatch(routes, httpMethod, segments).value;
      exists k :: (0 <= k < |routes| && Applies(routes[k], httpMethod, segments)
        && (forall j :: 0 <= j < k ==> !Applies(routes[j], httpMethod, segments))
        && m.handler == routes[k].handler
        && m.params.Keys == ParamNames(routes[k].pattern))
  {
    if !Applies(routes[0], httpMethod, segments) {
      var m := FirstMatch(routes[1..], httpMethod, segments).value;
      MatchedRouteApplies(routes[1..], httpMethod, segments);
      var k :| 0 <= k < |routes[1..]| && Applies(routes[1..][k], httpMethod, segments)
        && (forall j :: 0 <= j < k ==> !Applies(routes[1..][j], httpMethod, segments))
        && m.handler == routes[1..][k].handler
        && m.params.Keys == ParamNames(routes[1..][k].pattern);
      assert forall j :: 1 <= j < k + 1 ==> routes[j] == routes[1..][j - 1];
      assert Applies(routes[k + 1], httpMethod, segments);
    } else {
      CapturesKeys(routes[0].pattern, segments);
      assert Applies(routes[0], httpMethod, segments);
    }
  }

  lemma {:induction false} CapturesKeysPrefix(pattern: seq<string>, segments: seq<string>, n: nat)
    requires n <= |pattern| && n <= |segments|
    ensures Captures(pattern, segments, n).Keys == ParamNames(pattern[..n])
  {
    if n > 0 {
      CapturesKeysPrefix(pattern, segments, n - 1);
      assert pattern[..n] == pattern[..n - 1] + [pattern[n - 1]];
    }
  }

  /** The keys of the bound parameters are exactly the `:`-prefixed names of the pattern. */
  lemma CapturesKeys(pattern: seq<string>, segments: seq<string>)
    requires |pattern| == |segments|
    ensures Captures(pattern, segments, |segments|).Keys == ParamNames(pattern)
  {
    CapturesKeysPrefix(pattern, segments, |segments|);
    assert pattern[..|segments|] == pattern;
  }

  /** A parameter that the rest of the pattern does not repeat is bound to the segment in its place. */
  lemma {:induction false} CapturedSegment(pattern: seq<string>, segments: seq<string>, n: nat, i: nat)
    requires n <= |pattern| && n <= |segments| && i < n && IsParam(pattern[i])
    requires forall j :: i < j < n ==> pattern[j] != pattern[i]
    ensures pattern[i][1..] in Captures(pattern, segments, n)
    ensures Captures(pattern, segments, n)[pattern[i][1..]] == segments[i]
  {
    if i < n - 1 {
      CapturedSegment(pattern, segments, n - 1, i);
      var p := pattern[n - 1];
      if IsParam(p) {
        assert p != pattern[i];
        assert p == [':'] + p[1..] && pattern[i] == [':'] + pattern[i][1..];
      }
    }
  }

  /** `GET /jobs/abc` reaches the single-job handler with `{id: "abc"}`. */
  lemma GetJobExample()
    ensures FirstMatch(Routes, "GET", ["jobs", "abc"]) == Some(Match(GetJob, map["id" := "abc"]))
  {
    FirstApplyingRouteWins(Routes, "GET", ["jobs", "abc"], 3);
    assert Captures(["jobs", ":id"], ["jobs", "abc"], 2) == map["id" := "abc"];
  }

  /** `POST /jobs/abc` matches no route. */
  lemma PostJobExample()
    ensures FirstMatch(Routes, "POST", ["jobs", "abc"]).None?
  {
    forall k | 0 <= k < |Routes|
      ensures !Applies(Routes[k], "POST", ["jobs", "abc"])
    {
      assert Routes[k].httpMethod == "POST" ==> |Routes[k].pattern| == 1;
    }
  }
}
