/**
  The size check told by paths: a path picks one child after another, starting at the root, and
  the limits bound how long paths are and how many there are.
 */
module SchemaSizePaths {
  import opened Options
  import opened SchemaSize

  /** The value at the end of a path, if the path leads anywhere. */
  function Reached(g: Graph, v: Value, path: seq<nat>): Option<Value>
    decreases |path|
  {
    if path == [] then Some(v)
    else if v.Atom? then None
    else
      match g(v.id)
      case Dict(_, values) => if path[0] < |values| then Reached(g, values[path[0]], path[1..]) else None
      case List(items) => if path[0] < |items| then Reached(g, items[path[0]], path[1..]) else None
  }

  predicate Leads(g: Graph, v: Value, path: seq<nat>) {
    Reached(g, v, path).Some?
  }

  // ---------------------------------------------------------------------------------
  // Depth
  // ---------------------------------------------------------------------------------

  ghost predicate NoLongerThan(g: Graph, v: Value, d: nat) {
    forall path: seq<nat> :: Leads(g, v, path) ==> |path| <= d
  }

  lemma StepLeads(g: Graph, id: nat, i: nat, path: seq<nat>)
    requires i < |Children(g(id))|
    ensures Reached(g, Ref(id), [i] + path) == Reached(g, Children(g(id))[i], path)
  {
    assert ([i] + path)[1..] == path;
  }

  lemma {:induction false} ShallowPaths(g: Graph, v: Value, d: nat, path: seq<nat>)
    requires Shallow(g, v, d) && Leads(g, v, path)
    ensures |path| <= d
    decreases d
  {
    if path != [] {
      ShallowPaths(g, Children(g(v.id))[path[0]], d - 1, path[1..]);
    }
  }

  lemma {:induction false} DeepPath(g: Graph, v: Value, d: nat) returns (path: seq<nat>)
    requires !Shallow(g, v, d)
    ensures Leads(g, v, path) && |path| == d + 1
    decreases d
  {
    var children := Children(g(v.id));
    if d == 0 {
      path := [0];
      StepLeads(g, v.id, 0, []);
      assert [0] + [] == path;
    } else {
      var i :| 0 <= i < |children| && !Shallow(g, children[i], d - 1);
      var rest := DeepPath(g, children[i], d - 1);
      StepLeads(g, v.id, i, rest);
      path := [i] + rest;
    }
  }

  lemma ShallowIsNoLonger(g: Graph, v: Value, d: nat)
    ensures Shallow(g, v, d) <==> NoLongerThan(g, v, d)
  {
    if Shallow(g, v, d) {
      forall path: seq<nat> | Leads(g, v, path) ensures |path| <= d { ShallowPaths(g, v, d, path); }
    } else {
      var path := DeepPath(g, v, d);
      assert Leads(g, v, path);
    }
  }

  // ---------------------------------------------------------------------------------
  // JSON
  // ---------------------------------------------------------------------------------

  /** A JSON value by itself: text, an integer, a truth value, null, a finite number, a list, or an object with string keys. */
  predicate PlainJson(g: Graph, v: Value) {
    match v
    case Atom(leaf) => leaf == Text || leaf == Integer || leaf == Boolean || leaf == Null || leaf == Float(true)
    case Ref(id) => g(id).List? || g(id).stringKeys
  }

  ghost predicate JsonWithin(g: Graph, v: Value, d: nat) {
    forall path: seq<nat> :: Leads(g, v, path) && |path| <= d ==> PlainJson(g, Reached(g, v, path).value)
  }

  lemma {:induction false} CleanPaths(g: Graph, v: Value, d: nat, path: seq<nat>)
    requires Clean(g, v, d) && Leads(g, v, path) && |path| <= d
    ensures PlainJson(g, Reached(g, v, path).value)
    decreases d
  {
    if path != [] { CleanPaths(g, Children(g(v.id))[path[0]], d - 1, path[1..]); }
  }

  lemma {:induction false} UncleanPath(g: Graph, v: Value, d: nat) returns (path: seq<nat>)
    requires !Clean(g, v, d)
    ensures Leads(g, v, path) && |path| <= d && !PlainJson(g, Reached(g, v, path).value)
    decreases d
  {
    if !PlainJson(g, v) {
      path := [];
    } else {
      var children := Children(g(v.id));
      var i :| 0 <= i < |children| && !Clean(g, children[i], d - 1);
      var rest := UncleanPath(g, children[i], d - 1);
      StepLeads(g, v.id, i, rest);
      path := [i] + rest;
    }
  }

  lemma CleanIsJson(g: Graph, v: Value, d: nat)
    ensures Clean(g, v, d) <==> JsonWithin(g, v, d)
  {
    if Clean(g, v, d) {
      forall path: seq<nat> | Leads(g, v, path) && |path| <= d ensures PlainJson(g, Reached(g, v, path).value) { CleanPaths(g, v, d, path); }
    } else {
      var path := UncleanPath(g, v, d);
      assert Leads(g, v, path);
    }
  }

  // ---------------------------------------------------------------------------------
  // Number
  // ---------------------------------------------------------------------------------

  /** The set of all paths up to this length. */
  ghost predicate AllPaths(g: Graph, v: Value, d: nat, paths: set<seq<nat>>) {
    forall path :: path in paths <==> Leads(g, v, path) && |path| <= d
  }

  /** The paths that begin at one of the first n children. */
  ghost predicate AllPathsBelow(g: Graph, items: seq<Value>, d: nat, paths: set<seq<nat>>) {
    forall path :: path in paths <==> path != [] && path[0] < |items| && Leads(g, items[path[0]], path[1..]) && |path| <= d + 1
  }

  function Under(i: nat, paths: set<seq<nat>>): set<seq<nat>> {
    set path | path in paths :: [i] + path
  }

  lemma UnderHas(i: nat, paths: set<seq<nat>>, path: seq<nat>)
    ensures path in Under(i, paths) <==> path != [] && path[0] == i && path[1..] in paths
  {
    if path != [] && path[0] == i { assert path == [i] + path[1..]; }
    if path in Under(i, paths) {
      var p :| p in paths && path == [i] + p;
      assert path[1..] == p;
    }
  }

  lemma {:induction false} UnderIsAsMany(i: nat, paths: set<seq<nat>>)
    ensures |Under(i, paths)| == |paths|
    decreases |paths|
  {
    if paths != {} {
      var p :| p in paths;
      UnderIsAsMany(i, paths - {p});
      assert ([i] + p)[1..] == p;
      forall path ensures path in Under(i, paths) <==> path in Under(i, paths - {p}) + {[i] + p} {
        UnderHas(i, paths, path);
        UnderHas(i, paths - {p}, path);
        if path != [] && path[0] == i { assert path == [i] + path[1..]; }
      }
      UnderHas(i, paths - {p}, [i] + p);
      assert Under(i, paths) == Under(i, paths - {p}) + {[i] + p};
    } else {
      assert Under(i, paths) == {};
    }
  }

  lemma {:induction false} PathsCounted(g: Graph, v: Value, d: nat) returns (paths: set<seq<nat>>)
    ensures AllPaths(g, v, d, paths) && |paths| == Size(g, v, d)
    decreases d, 0
  {
    if v.Ref? && d > 0 {
      var children := Children(g(v.id));
      var below := PathsBelowCounted(g, children, d - 1);
      paths := {[]} + below;
      forall path: seq<nat> | path != [] ensures Leads(g, v, path) <==> path[0] < |children| && Leads(g, children[path[0]], path[1..]) {
        if path[0] < |children| { StepLeads(g, v.id, path[0], path[1..]); assert [path[0]] + path[1..] == path; }
      }
      assert [] !in below;
    } else {
      paths := {[]};
    }
  }

  lemma {:induction false} PathsBelowCounted(g: Graph, items: seq<Value>, d: nat) returns (paths: set<seq<nat>>)
    ensures AllPathsBelow(g, items, d, paths) && |paths| == SizeOfAll(g, items, d)
    decreases d, |items| + 1
  {
    if items == [] {
      paths := {};
    } else {
      var n := |items| - 1;
      var before := PathsBelowCounted(g, items[..n], d);
      var last := PathsCounted(g, items[n], d);
      UnderIsAsMany(n, last);
      paths := before + Under(n, last);
      forall path ensures path in Under(n, last) <==> path != [] && path[0] == n && path[1..] in last { UnderHas(n, last, path); }
      assert before !! Under(n, last);
      assert |paths| == |before| + |last|;
    }
  }

  /** At most so many paths in all. */
  ghost predicate NoMoreThan(g: Graph, v: Value, n: nat) {
    exists paths: set<seq<nat>> :: Gathers(g, v, paths) && |paths| <= n
  }

  ghost predicate Gathers(g: Graph, v: Value, paths: set<seq<nat>>) {
    forall path :: path in paths <==> Leads(g, v, path)
  }

  /** A value is within the limits exactly if no path is longer than the depth and there are no more paths than nodes. */
  lemma LimitsBoundPaths(g: Graph, lim: Limits, root: Value)
    ensures WithinLimits(g, lim, root) <==> NoLongerThan(g, root, lim.depth) && NoMoreThan(g, root, lim.nodes)
  {
    ShallowIsNoLonger(g, root, lim.depth);
    if NoLongerThan(g, root, lim.depth) {
      var paths := PathsCounted(g, root, lim.depth);
      assert Gathers(g, root, paths);
      if NoMoreThan(g, root, lim.nodes) {
        var other :| Gathers(g, root, other) && |other| <= lim.nodes;
        assert paths == other;
      }
    }
  }

  /** What schemas and values are held to: paths of at most 64 steps, at most 10000 of them, and JSON at the end of each. */
  lemma SchemaLimitsAre(g: Graph, root: Value)
    ensures WithinLimits(g, SCHEMA_LIMITS, root) && Clean(g, root, SCHEMA_LIMITS.depth) <==>
      NoLongerThan(g, root, 64) && NoMoreThan(g, root, 10000) && JsonWithin(g, root, 64)
  {
    LimitsBoundPaths(g, SCHEMA_LIMITS, root);
    CleanIsJson(g, root, 64);
  }
}
