/**
  HTTP mounts: the checks on a configured route table, the order the middleware keeps it in,
  and the dispatch of one request.
 */
module HttpRoutes {
  import opened Options
  import LeasePaths

  /**
    A configured route. `upstream` is absent if it is not an acceptable HTTP(S) URL, `strip` if
    it is not a boolean; `methods` holds the methods the contract ends up with.
   */
  datatype RawRoute = RawRoute(
    fieldsKnown: bool, prefix: Option<string>, upstream: Option<string>, strip: Option<bool>,
    contractValid: bool, methods: set<string>)

  datatype Route = Route(prefix: string, upstream: string, strip: bool, methods: set<string>)

  datatype Error = UnsupportedFields | BadPrefix | OverlapsReserved | Duplicate | BadUpstream | BadStrip | BadContract

  datatype Result<+T> = Ok(value: T) | Err(error: Error)

  // ---------------------------------------------------------------------------------
  // Prefixes
  // ---------------------------------------------------------------------------------

  predicate PathMatches(path: string, prefix: string) {
    path == prefix || LeasePaths.StartsWith(path, prefix + "/")
  }

  predicate SafeChar(c: char) {
    'a' <= c <= 'z' || 'A' <= c <= 'Z' || '0' <= c <= '9' || c in "/:@!$&'()*+,;=-._~"
  }

  predicate HasDotSegment(path: string) {
    exists piece :: piece in LeasePaths.Split(path) && (piece == "." || piece == "..")
  }

  predicate HasDoubleSlash(s: string) {
    exists i :: 0 <= i < |s| - 1 && s[i] == '/' == s[i + 1]
  }

  predicate Absolute(prefix: string) {
    && prefix != "" && prefix[0] == '/' && (forall c :: c in prefix ==> SafeChar(c))
    && !HasDoubleSlash(prefix) && !HasDotSegment(prefix)
  }

  function Stripped(s: string): string {
    LeasePaths.RightTrim(s)
  }

  function Reserved(mcpPath: string): seq<string> {
    [if Stripped(mcpPath) == "" then "/" else Stripped(mcpPath), "/.well-known", "/snulbug"]
  }

  predicate Overlaps(prefix: string, item: string) {
    item == "/" || PathMatches(prefix, item) || PathMatches(item, prefix)
  }

  /** What is wrong with one route, given the prefixes of the routes before it. */
  function RouteError(raw: RawRoute, mcpPath: string, earlier: seq<string>): Option<Error> {
    if !raw.fieldsKnown then Some(UnsupportedFields)
    else if raw.prefix.None? || !Absolute(raw.prefix.value) then Some(BadPrefix)
    else
      var prefix := Stripped(raw.prefix.value);
      if prefix == "" || exists item :: item in Reserved(mcpPath) && Overlaps(prefix, item) then Some(OverlapsReserved)
      else if prefix in earlier then Some(Duplicate)
      else if raw.upstream.None? then Some(BadUpstream)
      else if raw.strip.None? then Some(BadStrip)
      else if !raw.contractValid then Some(BadContract)
      else None
  }

  function Built(raw: RawRoute): Route
    requires raw.prefix.Some? && raw.upstream.Some? && raw.strip.Some?
  {
    Route(Stripped(raw.prefix.value), Stripped(raw.upstream.value), raw.strip.value, raw.methods)
  }

  function Prefixes(routes: seq<Route>): (prefixes: seq<string>)
    ensures |prefixes| == |routes|
    ensures forall i :: 0 <= i < |routes| ==> prefixes[i] == routes[i].prefix
  {
    seq(|routes|, i requires 0 <= i < |routes| => routes[i].prefix)
  }

  /** A route table built from configured routes: each one acceptable and unlike those before it. */
  ghost predicate Normalized(raw: seq<RawRoute>, mcpPath: string, routes: seq<Route>) {
    && |raw| == |routes|
    && forall i :: 0 <= i < |raw| ==>
         RouteError(raw[i], mcpPath, Prefixes(routes[..i])).None? && routes[i] == Built(raw[i])
  }

  method NormalizeRoutes(raw: seq<RawRoute>, mcpPath: string) returns (r: Result<seq<Route>>)
    ensures r.Ok? ==> Normalized(raw, mcpPath, r.value)
    ensures r.Err? ==> exists i, routes ::
      0 <= i < |raw| && Normalized(raw[..i], mcpPath, routes) && RouteError(raw[i], mcpPath, Prefixes(routes)) == Some(r.error)
  {
    var result: seq<Route> := [];
    for i := 0 to |raw|
      invariant Normalized(raw[..i], mcpPath, result)
    {
      var problem := RouteError(raw[i], mcpPath, Prefixes(result));
      if problem.Some? {
        return Err(problem.value);
      }
      assert result[..i] == result;
      forall k | 0 <= k < i ensures (result + [Built(raw[i])])[..k] == result[..k] {}
      result := result + [Built(raw[i])];
    }
    assert raw[..|raw|] == raw;
    r := Ok(result);
  }

  // ---------------------------------------------------------------------------------
  // The route table
  // ---------------------------------------------------------------------------------

  /** A usable table: distinct prefixes that start with a slash and overlap nothing reserved. */
  ghost predicate Sound(routes: seq<Route>, mcpPath: string) {
    && (forall i :: 0 <= i < |routes| ==> Mountable(routes[i].prefix, mcpPath))
    && Unlike(routes)
  }

  predicate Mountable(prefix: string, mcpPath: string) {
    && prefix != "" && prefix[0] == '/' && prefix[|prefix| - 1] != '/'
    && forall item :: item in Reserved(mcpPath) ==> !Overlaps(prefix, item)
  }

  lemma {:induction false} RightTrimShape(s: string)
    ensures Stripped(s) <= s
    ensures Stripped(s) == "" || Stripped(s)[|Stripped(s)| - 1] != '/'
  {
    if s != "" && s[|s| - 1] == '/' { RightTrimShape(s[..|s| - 1]); }
  }

  lemma NormalizedIsSound(raw: seq<RawRoute>, mcpPath: string, routes: seq<Route>)
    requires Normalized(raw, mcpPath, routes)
    ensures Sound(routes, mcpPath)
  {
    forall i | 0 <= i < |routes| ensures Mountable(routes[i].prefix, mcpPath) {
      assert RouteError(raw[i], mcpPath, Prefixes(routes[..i])).None?;
      RightTrimShape(raw[i].prefix.value);
    }
    forall i, j | 0 <= i < j < |routes| ensures routes[i].prefix != routes[j].prefix {
      assert RouteError(raw[j], mcpPath, Prefixes(routes[..j])).None?;
      assert Prefixes(routes[..j])[i] == routes[i].prefix;
    }
  }

  /** Insertion into a table ordered by falling prefix length, after its equals' place is taken. */
  function Insert(route: Route, sorted: seq<Route>): seq<Route> {
    if sorted == [] || |route.prefix| >= |sorted[0].prefix| then [route] + sorted
    else [sorted[0]] + Insert(route, sorted[1..])
  }

  /** The middleware's table: stable, longest prefix first. */
  function Sorted(routes: seq<Route>): seq<Route> {
    if routes == [] then [] else Insert(routes[0], Sorted(routes[1..]))
  }

  predicate Falling(routes: seq<Route>) {
    forall i, j :: 0 <= i < j < |routes| ==> |routes[i].prefix| >= |routes[j].prefix|
  }

  lemma {:induction false} InsertKeeps(route: Route, sorted: seq<Route>)
    requires Falling(sorted)
    ensures Falling(Insert(route, sorted)) && multiset(Insert(route, sorted)) == multiset(sorted) + multiset{route}
    ensures forall r :: r in Insert(route, sorted) <==> r == route || r in sorted
  {
    if !(sorted == [] || |route.prefix| >= |sorted[0].prefix|) {
      InsertKeeps(route, sorted[1..]);
      assert sorted == [sorted[0]] + sorted[1..];
      var rest := Insert(route, sorted[1..]);
      forall j | 0 <= j < |rest| ensures |sorted[0].prefix| >= |rest[j].prefix| {
        assert rest[j] in rest;
        if rest[j] in sorted[1..] { var k :| 0 <= k < |sorted| - 1 && sorted[1..][k] == rest[j]; }
      }
    }
  }

  lemma {:induction false} SortedIsFalling(routes: seq<Route>)
    ensures Falling(Sorted(routes)) && multiset(Sorted(routes)) == multiset(routes)
  {
    if routes != [] {
      SortedIsFalling(routes[1..]);
      InsertKeeps(routes[0], Sorted(routes[1..]));
      assert routes == [routes[0]] + routes[1..];
    }
  }

  function FirstMatch(routes: seq<Route>, path: string): Option<Route> {
    if routes == [] then None
    else if PathMatches(path, routes[0].prefix) then Some(routes[0])
    else FirstMatch(routes[1..], path)
  }

  /** The route matches, and any other matching route is shorter. */
  ghost predicate LongestMatch(routes: seq<Route>, path: string, route: Route) {
    && route in routes && PathMatches(path, route.prefix)
    && forall other :: other in routes && other != route && PathMatches(path, other.prefix) ==> |other.prefix| < |route.prefix|
  }

  ghost predicate Unlike(routes: seq<Route>) {
    forall i, j :: 0 <= i < j < |routes| ==> routes[i].prefix != routes[j].prefix
  }

  /** Two prefixes that match one path are nested, or the same. */
  lemma MatchesAreNested(path: string, a: string, b: string)
    requires PathMatches(path, a) && PathMatches(path, b) && |a| <= |b|
    ensures a == b || PathMatches(b, a)
  {
    assert a <= path && b <= path by {
      assert path != a ==> a <= a + "/" <= path;
      assert path != b ==> b <= b + "/" <= path;
    }
    if |a| == |b| {
      assert a == path[..|a|] == b;
    } else {
      assert a + "/" == path[..|a| + 1] == b[..|a| + 1];
    }
  }

  lemma {:induction false} FirstMatchIsLongest(routes: seq<Route>, path: string)
    requires Falling(routes) && Unlike(routes)
    ensures FirstMatch(routes, path).Some? ==> LongestMatch(routes, path, FirstMatch(routes, path).value)
    ensures FirstMatch(routes, path).None? ==> forall r :: r in routes ==> !PathMatches(path, r.prefix)
  {
    if routes != [] {
      if PathMatches(path, routes[0].prefix) {
        forall other | other in routes && other != routes[0] && PathMatches(path, other.prefix)
          ensures |other.prefix| < |routes[0].prefix|
        {
          MatchesAreNested(path, other.prefix, routes[0].prefix);
        }
      } else {
        FirstMatchIsLongest(routes[1..], path);
      }
    }
  }

  /** Distinctness survives reordering. */
  lemma ReorderedIsUnlike(routes: seq<Route>, sorted: seq<Route>)
    requires Unlike(routes) && multiset(routes) == multiset(sorted)
    ensures Unlike(sorted)
  {
    forall i, j | 0 <= i < j < |sorted|
      ensures sorted[i].prefix != sorted[j].prefix
    {
      var a, b := sorted[i], sorted[j];
      assert a in multiset(routes) && b in multiset(routes);
      var k :| 0 <= k < |routes| && routes[k] == a;
      var m :| 0 <= m < |routes| && routes[m] == b;
      OnceInMultiset(routes, k);
      if a == b { TwiceInMultiset(sorted, i, j); }
    }
  }

  lemma TwiceInMultiset(s: seq<Route>, i: nat, j: nat)
    requires i < j < |s| && s[i] == s[j]
    ensures multiset(s)[s[i]] >= 2
  {
    assert s == s[..j] + [s[j]] + s[j + 1..];
    assert s[..j][i] == s[i];
  }

  lemma OnceInMultiset(s: seq<Route>, k: nat)
    requires k < |s| && Unlike(s)
    ensures multiset(s)[s[k]] == 1
  {
    assert s == s[..k] + [s[k]] + s[k + 1..];
    assert s[k] !in s[..k] && s[k] !in s[k + 1..];
  }

  /** In the middleware's order the first match is the one longest match, and there is none only if nothing matches. */
  lemma FirstMatchIsLongestMatch(routes: seq<Route>, path: string, route: Route)
    requires Unlike(routes)
    ensures FirstMatch(Sorted(routes), path) == Some(route) <==> LongestMatch(routes, path, route)
    ensures FirstMatch(Sorted(routes), path) == None <==> forall r :: r in routes ==> !PathMatches(path, r.prefix)
  {
    var sorted := Sorted(routes);
    SortedIsFalling(routes);
    ReorderedIsUnlike(routes, sorted);
    FirstMatchIsLongest(sorted, path);
    forall r ensures r in sorted <==> r in routes {
      assert r in multiset(sorted) <==> r in multiset(routes);
    }
  }

  /** The order in which the mounts are configured never matters. */
  lemma OrderIsIrrelevant(routes: seq<Route>, reordered: seq<Route>, path: string)
    requires Unlike(routes) && Unlike(reordered) && (forall r :: r in routes <==> r in reordered)
    ensures FirstMatch(Sorted(routes), path) == FirstMatch(Sorted(reordered), path)
  {
    var choice := FirstMatch(Sorted(routes), path);
    if choice.Some? {
      FirstMatchIsLongestMatch(routes, path, choice.value);
      FirstMatchIsLongestMatch(reordered, path, choice.value);
    } else {
      var any := Route("", "", false, {});
      FirstMatchIsLongestMatch(routes, path, any);
      FirstMatchIsLongestMatch(reordered, path, any);
    }
  }

  lemma MountSparesReserved(prefix: string, mcpPath: string, path: string, item: string)
    requires Mountable(prefix, mcpPath) && item in Reserved(mcpPath) && PathMatches(path, item)
    ensures !PathMatches(path, prefix)
  {
    assert !Overlaps(prefix, item);
    if PathMatches(path, prefix) {
      if |prefix| <= |item| { MatchesAreNested(path, prefix, item); } else { MatchesAreNested(path, item, prefix); }
    }
  }

  /** No mount captures a path that belongs to MCP or to the gateway itself; an MCP path of "/" leaves room for none. */
  lemma MountsSpareReserved(raw: seq<RawRoute>, mcpPath: string, routes: seq<Route>, path: string, item: string)
    requires Normalized(raw, mcpPath, routes) && item in Reserved(mcpPath) && PathMatches(path, item)
    ensures FirstMatch(Sorted(routes), path) == None
    ensures Stripped(mcpPath) == "" ==> routes == []
  {
    NormalizedIsSound(raw, mcpPath, routes);
    forall i | 0 <= i < |routes| ensures !PathMatches(path, routes[i].prefix) {
      MountSparesReserved(routes[i].prefix, mcpPath, path, item);
    }
    FirstMatchIsLongestMatch(routes, path, Route("", "", false, {}));
    assert routes != [] ==> Mountable(routes[0].prefix, mcpPath);
    assert Reserved(mcpPath)[0] in Reserved(mcpPath);
  }

  // ---------------------------------------------------------------------------------
  // Dispatch
  // ---------------------------------------------------------------------------------

  datatype Kind = Http | WebSocket | Lifespan

  datatype Scope = Scope(kind: Kind, path: string, rawPath: string, verb: string)

  datatype Outcome =
    | PassedOn                                  // the wrapped application answers
    | SocketClosed
    | MethodNotAllowed(allow: set<string>)
    | InvalidPath
    | Forwarded(route: Route, suffix: string)   // appended to the upstream's base path

  /** What is left of the raw path below the mount. */
  function Below(route: Route, rawPath: string): string
    requires route.prefix <= rawPath
  {
    rawPath[|route.prefix|..]
  }

  function SuffixFor(route: Route, rawPath: string): string
    requires route.prefix <= rawPath
  {
    var suffix := if route.strip then Below(route, rawPath) else rawPath;
    if suffix == "" then "/" else suffix
  }

  class HttpRoutesMiddleware {
    const routes: seq<Route>

    constructor (configured: seq<Route>)
      ensures routes == Sorted(configured)
    {
      routes := Sorted(configured);
    }

    method Call(scope: Scope) returns (o: Outcome)
      ensures o.PassedOn? <==> scope.kind.Lifespan? || FirstMatch(routes, scope.path).None?
      ensures !o.PassedOn? ==> (o.SocketClosed? <==> scope.kind.WebSocket?)
      ensures o.MethodNotAllowed? ==>
        && FirstMatch(routes, scope.path).Some? && o.allow == FirstMatch(routes, scope.path).value.methods && scope.verb !in o.allow
      ensures o.Forwarded? ==>
        && FirstMatch(routes, scope.path) == Some(o.route) && scope.verb in o.route.methods
        && !HasDotSegment(scope.path) && PathMatches(scope.rawPath, o.route.prefix)
      ensures o.Forwarded? ==> o.suffix == SuffixFor(o.route, scope.rawPath)
      ensures o.InvalidPath? ==>
        && FirstMatch(routes, scope.path).Some? && scope.verb in FirstMatch(routes, scope.path).value.methods
        && (HasDotSegment(scope.path) || !PathMatches(scope.rawPath, FirstMatch(routes, scope.path).value.prefix))
    {
      var found := FirstMatch(routes, scope.path);
      if scope.kind.Lifespan? || found.None? {
        return PassedOn;
      }
      var route := found.value;
      FirstMatchMatches(routes, scope.path);
      if scope.kind.WebSocket? {
        return SocketClosed;
      }
      if scope.verb !in route.methods {
        return MethodNotAllowed(route.methods);
      }
      if HasDotSegment(scope.path) || !PathMatches(scope.rawPath, route.prefix) {
        return InvalidPath;
      }
      var suffix := if route.strip then scope.rawPath[|route.prefix|..] else scope.rawPath;
      o := Forwarded(route, if suffix == "" then "/" else suffix);
    }
  }

  lemma {:induction false} FirstMatchMatches(routes: seq<Route>, path: string)
    ensures FirstMatch(routes, path).Some? ==> FirstMatch(routes, path).value in routes
  {
    if routes != [] { FirstMatchMatches(routes[1..], path); }
  }

  /** A forwarded request stays under its mount: an absolute suffix that gives back the raw path, and nothing reserved. */
  lemma ForwardedStaysInMount(raw: seq<RawRoute>, mcpPath: string, routes: seq<Route>, route: Route, rawPath: string, item: string)
    requires Normalized(raw, mcpPath, routes) && route in routes && PathMatches(rawPath, route.prefix)
    ensures SuffixFor(route, rawPath) != "" && SuffixFor(route, rawPath)[0] == '/'
    ensures rawPath == if !route.strip then SuffixFor(route, rawPath)
                       else if rawPath == route.prefix then route.prefix else route.prefix + SuffixFor(route, rawPath)
    ensures item in Reserved(mcpPath) ==> !PathMatches(rawPath, item)
  {
    NormalizedIsSound(raw, mcpPath, routes);
    var i :| 0 <= i < |routes| && routes[i] == route;
    assert Mountable(routes[i].prefix, mcpPath);
    if rawPath != route.prefix { assert (route.prefix + "/")[|route.prefix|] == '/'; }
    if item in Reserved(mcpPath) && PathMatches(rawPath, item) { MountSparesReserved(route.prefix, mcpPath, rawPath, item); }
  }
}
