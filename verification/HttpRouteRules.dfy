/**
  The route table character by character: which configured routes are accepted, in which order
  the others are refused, and what is kept of an accepted one.
 */
module HttpRouteRules {
  import opened Options
  import opened Rules
  import LeasePaths
  import opened HttpRoutes

  // ---------------------------------------------------------------------------------
  // Paths
  // ---------------------------------------------------------------------------------

  /** All slashes at the end are gone, and nothing else. */
  predicate Trimmed(short: string, long: string) {
    && short <= long && (short == "" || short[|short| - 1] != '/')
    && forall i :: |short| <= i < |long| ==> long[i] == '/'
  }

  lemma {:induction false} StrippedIsTrimmed(s: string)
    ensures Trimmed(Stripped(s), s)
  {
    if s != "" && s[|s| - 1] == '/' { StrippedIsTrimmed(s[..|s| - 1]); }
  }

  lemma TrimmedIsStripped(short: string, long: string)
    requires Trimmed(short, long)
    ensures short == Stripped(long)
  {
    StrippedIsTrimmed(long);
    var other := Stripped(long);
    assert other != "" ==> other[|other| - 1] == long[|other| - 1];
    assert short != "" ==> short[|short| - 1] == long[|short| - 1];
    assert short == long[..|short|] && other == long[..|other|];
  }

  /** The path is the prefix, or goes on below it with a slash. */
  predicate Under(path: string, prefix: string) {
    && |prefix| <= |path| && (forall i :: 0 <= i < |prefix| ==> path[i] == prefix[i])
    && (|path| > |prefix| ==> path[|prefix|] == '/')
  }

  lemma MatchesUnder(path: string, prefix: string)
    ensures PathMatches(path, prefix) <==> Under(path, prefix)
  {
    if Under(path, prefix) {
      assert path[..|prefix|] == prefix;
      if |path| > |prefix| { assert prefix + "/" == path[..|prefix| + 1]; }
    }
    if LeasePaths.StartsWith(path, prefix + "/") {
      assert path[|prefix|] == (prefix + "/")[|prefix|];
      assert forall i :: 0 <= i < |prefix| ==> path[i] == (prefix + "/")[i] == prefix[i];
    }
  }

  /** The characters from i to j lie between slashes, or the ends, and are none. */
  predicate Segment(path: string, i: nat, j: nat) {
    && i <= j <= |path|
    && (i > 0 ==> path[i - 1] == '/') && (j < |path| ==> path[j] == '/')
    && forall k :: i <= k < j ==> path[k] != '/'
  }

  predicate SegmentIs(path: string, i: nat, piece: string) {
    Segment(path, i, i + |piece|) && path[i..i + |piece|] == piece
  }

  ghost predicate HasSegment(path: string, piece: string) {
    exists i: nat :: SegmentIs(path, i, piece)
  }

  lemma SegmentsShift(path: string, i: nat, piece: string)
    requires path != "" && i > 0
    ensures SegmentIs(path, i + 1, piece) <==> SegmentIs(path[1..], i, piece)
    ensures path[0] == '/' ==> (SegmentIs(path, 1, piece) <==> SegmentIs(path[1..], 0, piece))
    ensures path[0] != '/' ==> !SegmentIs(path, 1, piece)
  {
    assert |piece| + i + 1 <= |path| ==> path[i + 1..i + 1 + |piece|] == path[1..][i..i + |piece|];
    assert |piece| + 1 <= |path| ==> path[1..1 + |piece|] == path[1..][0..|piece|];
  }

  /** The first piece of a split is the segment at the start. */
  lemma {:induction false} FirstPiece(path: string)
    ensures SegmentIs(path, 0, LeasePaths.Split(path)[0])
  {
    if path != "" && path[0] != '/' {
      FirstPiece(path[1..]);
      var rest := LeasePaths.Split(path[1..])[0];
      assert path[0..1 + |rest|] == [path[0]] + path[1..][0..|rest|];
    }
  }

  lemma FirstPieceIsUnique(path: string, piece: string)
    ensures SegmentIs(path, 0, piece) <==> piece == LeasePaths.Split(path)[0]
  {
    FirstPiece(path);
    var first := LeasePaths.Split(path)[0];
    if SegmentIs(path, 0, piece) {
      assert |piece| < |path| ==> path[|piece|] == '/';
      assert |first| < |path| ==> path[|first|] == '/';
    }
  }

  ghost predicate LaterSegment(path: string, piece: string) {
    exists i: nat :: i > 0 && SegmentIs(path, i, piece)
  }

  lemma {:induction false} LaterPieces(path: string, piece: string)
    ensures piece in LeasePaths.Split(path)[1..] <==> LaterSegment(path, piece)
  {
    if path == "" {
      assert LeasePaths.Split(path)[1..] == [];
    } else {
      var tail := path[1..];
      LaterPieces(tail, piece);
      FirstPieceIsUnique(tail, piece);
      if LaterSegment(tail, piece) {
        var i: nat :| i > 0 && SegmentIs(tail, i, piece);
        SegmentsShift(path, i, piece);
        assert SegmentIs(path, i + 1, piece);
      }
      if LaterSegment(path, piece) {
        var i: nat :| i > 0 && SegmentIs(path, i, piece);
        if i > 1 { SegmentsShift(path, i - 1, piece); }
      }
      SegmentsShift(path, 1, piece);
      var rest := LeasePaths.Split(tail);
      assert rest == [rest[0]] + rest[1..];
      assert LeasePaths.Split(path)[1..] == if path[0] == '/' then rest else rest[1..];
    }
  }

  /** The pieces of a split path are the segments between its slashes. */
  lemma PiecesAreSegments(path: string, piece: string)
    ensures piece in LeasePaths.Split(path) <==> HasSegment(path, piece)
  {
    LaterPieces(path, piece);
    FirstPieceIsUnique(path, piece);
    var pieces := LeasePaths.Split(path);
    assert pieces == [pieces[0]] + pieces[1..];
  }

  lemma DotSegments(path: string)
    ensures HasDotSegment(path) <==> HasSegment(path, ".") || HasSegment(path, "..")
  {
    PiecesAreSegments(path, ".");
    PiecesAreSegments(path, "..");
  }

  // ---------------------------------------------------------------------------------
  // Accepting a route
  // ---------------------------------------------------------------------------------

  predicate PathChar(c: char) {
    || 'a' <= c <= 'z' || 'A' <= c <= 'Z' || '0' <= c <= '9'
    || c in ['/', ':', '@', '!', '$', '&', '\'', '(', ')', '*', '+', ',', ';', '=', '-', '.', '_', '~']
  }

  /** An absolute, unescaped path without empty, "." or ".." segments; a slash at the end is one of its own. */
  ghost predicate GoodPrefix(p: string) {
    && p != "" && p[0] == '/' && (forall i :: 0 <= i < |p| ==> PathChar(p[i]))
    && (forall i :: 0 <= i < |p| - 1 ==> p[i] != '/' || p[i + 1] != '/')
    && !HasSegment(p, ".") && !HasSegment(p, "..")
  }

  lemma AbsoluteIsGood(p: string)
    ensures Absolute(p) <==> GoodPrefix(p)
  {
    DotSegments(p);
    if GoodPrefix(p) {
      forall c | c in p ensures SafeChar(c) { var i :| 0 <= i < |p| && p[i] == c; assert PathChar(p[i]); }
    }
    if Absolute(p) {
      forall i | 0 <= i < |p| ensures PathChar(p[i]) { assert SafeChar(p[i]); }
      forall i | 0 <= i < |p| - 1 ensures p[i] != '/' || p[i + 1] != '/' { assert !(p[i] == '/' == p[i + 1]); }
    }
  }

  /** One lies under the other. */
  predicate Crosses(a: string, b: string) {
    Under(a, b) || Under(b, a)
  }

  /** Mounts leave alone the MCP path and the two paths of the gateway; an MCP path of "/" leaves nothing. */
  predicate Free(prefix: string, mcp: string) {
    prefix != "" && mcp != "" && !Crosses(prefix, mcp) && !Crosses(prefix, "/.well-known") && !Crosses(prefix, "/snulbug")
  }

  ghost function RouteRules(raw: RawRoute, earlier: seq<string>, prefix: string, mcp: string): seq<Rule<Error>> {
    [Rule(!raw.fieldsKnown, UnsupportedFields),
     Rule(raw.prefix.None? || !GoodPrefix(raw.prefix.value), BadPrefix),
     Rule(!Free(prefix, mcp), OverlapsReserved),
     Rule(prefix in earlier, Duplicate),
     Rule(raw.upstream.None?, BadUpstream),
     Rule(raw.strip.None?, BadStrip),
     Rule(!raw.contractValid, BadContract)]
  }

  lemma CrossesIs(a: string, b: string)
    ensures Crosses(a, b) <==> PathMatches(a, b) || PathMatches(b, a)
  {
    MatchesUnder(a, b);
    MatchesUnder(b, a);
  }

  lemma FreeIsUnreserved(prefix: string, mcpPath: string)
    ensures Free(prefix, Stripped(mcpPath)) <==>
      prefix != "" && forall item :: item in Reserved(mcpPath) ==> !Overlaps(prefix, item)
  {
    var mcp := Stripped(mcpPath);
    StrippedIsTrimmed(mcpPath);
    CrossesIs(prefix, mcp);
    CrossesIs(prefix, "/.well-known");
    CrossesIs(prefix, "/snulbug");
    var items := Reserved(mcpPath);
    assert items[0] in items && items[1] in items && items[2] in items;
    assert items[0] == (if mcp == "" then "/" else mcp) && items[1] == "/.well-known" && items[2] == "/snulbug";
    assert mcp != "/";
  }

  /** A chain of checks reports the first that fails. */
  lemma ChainInOrder(fields: bool, path: bool, reserved: bool, duplicate: bool, upstream: bool, strip: bool, contract: bool)
    ensures FirstBroken(
      [Rule(fields, UnsupportedFields), Rule(path, BadPrefix), Rule(reserved, OverlapsReserved), Rule(duplicate, Duplicate),
       Rule(upstream, BadUpstream), Rule(strip, BadStrip), Rule(contract, BadContract)],
      if fields then Some(UnsupportedFields) else if path then Some(BadPrefix) else if reserved then Some(OverlapsReserved)
      else if duplicate then Some(Duplicate) else if upstream then Some(BadUpstream) else if strip then Some(BadStrip)
      else if contract then Some(BadContract) else None)
  {
    var rules := [Rule(fields, UnsupportedFields), Rule(path, BadPrefix), Rule(reserved, OverlapsReserved), Rule(duplicate, Duplicate),
                  Rule(upstream, BadUpstream), Rule(strip, BadStrip), Rule(contract, BadContract)];
    var k := if fields then 0 else if path then 1 else if reserved then 2 else if duplicate then 3 else if upstream then 4 else if strip then 5 else 6;
    assert rules[k].broken ==> BrokenFirst(rules, k);
  }

  /** A configured route is refused for the first of these rules that it breaks, and accepted if it breaks none. */
  lemma RefusedInOrder(raw: RawRoute, mcpPath: string, earlier: seq<string>, prefix: string, mcp: string)
    requires Trimmed(prefix, if raw.prefix.Some? then raw.prefix.value else "") && Trimmed(mcp, mcpPath)
    ensures FirstBroken(RouteRules(raw, earlier, prefix, mcp), RouteError(raw, mcpPath, earlier))
  {
    var path := raw.prefix.None? || !GoodPrefix(raw.prefix.value);
    if raw.prefix.Some? {
      AbsoluteIsGood(raw.prefix.value);
      TrimmedIsStripped(prefix, raw.prefix.value);
    }
    TrimmedIsStripped(mcp, mcpPath);
    FreeIsUnreserved(prefix, mcpPath);
    ChainInOrder(!raw.fieldsKnown, path, !Free(prefix, mcp), prefix in earlier, raw.upstream.None?, raw.strip.None?, !raw.contractValid);
  }

  // ---------------------------------------------------------------------------------
  // What is kept
  // ---------------------------------------------------------------------------------

  /** The built route: prefix and upstream without their last slashes, the strip flag and the methods as configured. */
  predicate BuiltFrom(route: Route, raw: RawRoute) {
    && raw.prefix.Some? && Trimmed(route.prefix, raw.prefix.value)
    && raw.upstream.Some? && Trimmed(route.upstream, raw.upstream.value)
    && raw.strip == Some(route.strip) && route.methods == raw.methods
  }

  /** Every route of an accepted table, against its own configuration. */
  lemma RoutesAreAsConfigured(raw: seq<RawRoute>, mcpPath: string, routes: seq<Route>, i: nat)
    requires Normalized(raw, mcpPath, routes) && i < |raw|
    ensures BuiltFrom(routes[i], raw[i]) && GoodPrefix(raw[i].prefix.value) && Free(routes[i].prefix, Stripped(mcpPath))
    ensures forall j :: 0 <= j < i ==> routes[j].prefix != routes[i].prefix
  {
    assert RouteError(raw[i], mcpPath, Prefixes(routes[..i])).None?;
    StrippedIsTrimmed(raw[i].prefix.value);
    StrippedIsTrimmed(raw[i].upstream.value);
    AbsoluteIsGood(raw[i].prefix.value);
    FreeIsUnreserved(routes[i].prefix, mcpPath);
    forall j | 0 <= j < i ensures routes[j].prefix != routes[i].prefix {
      assert Prefixes(routes[..i])[j] == routes[j].prefix;
    }
  }
}
