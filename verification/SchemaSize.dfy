/**
  The size check made before a schema or a value is validated: a bounded walk over an object
  graph, in which containers may be shared or contain themselves.
 */
module SchemaSize {
  datatype Limits = Limits(nodes: nat, depth: nat)

  const SCHEMA_LIMITS: Limits := Limits(10000, 64)

  datatype Leaf = Text | Integer | Boolean | Null | Float(finite: bool) | Foreign

  datatype Value = Atom(leaf: Leaf) | Ref(id: nat)

  datatype Node = Dict(stringKeys: bool, values: seq<Value>) | List(items: seq<Value>)

  /** The containers, by identity. */
  type Graph = nat -> Node

  function Children(n: Node): seq<Value> {
    if n.Dict? then n.values else n.items
  }

  predicate IsJson(leaf: Leaf) {
    !leaf.Foreign? && (leaf.Float? ==> leaf.finite)
  }

  // ---------------------------------------------------------------------------------
  // The unfolded value
  // ---------------------------------------------------------------------------------

  /** Nothing lies deeper than d below the value. */
  predicate Shallow(g: Graph, v: Value, d: nat)
    decreases d
  {
    v.Ref? ==>
      var children := Children(g(v.id));
      children == [] || (d > 0 && forall i :: 0 <= i < |children| ==> Shallow(g, children[i], d - 1))
  }

  /** Down to depth d, keys are strings and leaves are finite JSON values. */
  predicate Clean(g: Graph, v: Value, d: nat)
    decreases d
  {
    match v
    case Atom(leaf) => IsJson(leaf)
    case Ref(id) =>
      && (g(id).Dict? ==> g(id).stringKeys)
      && (d > 0 ==> forall i :: 0 <= i < |Children(g(id))| ==> Clean(g, Children(g(id))[i], d - 1))
  }

  /** The nodes of the unfolding down to depth d, each occurrence counted. */
  function Size(g: Graph, v: Value, d: nat): (n: nat)
    ensures n >= 1
    decreases d, 0
  {
    1 + if v.Ref? && d > 0 then SizeOfAll(g, Children(g(v.id)), d - 1) else 0
  }

  function SizeOfAll(g: Graph, items: seq<Value>, d: nat): (n: nat)
    ensures n >= |items|
    decreases d, |items|
  {
    if items == [] then 0
    else SizeOfAll(g, items[..|items| - 1], d) + Size(g, items[|items| - 1], d)
  }

  predicate WithinLimits(g: Graph, lim: Limits, root: Value) {
    Shallow(g, root, lim.depth) && Size(g, root, lim.depth) <= lim.nodes
  }

  // ---------------------------------------------------------------------------------
  // The walk
  // ---------------------------------------------------------------------------------

  datatype Entry = Entry(value: Value, depth: nat)

  predicate ShallowAt(g: Graph, lim: Limits, e: Entry) {
    e.depth <= lim.depth && Shallow(g, e.value, lim.depth - e.depth)
  }

  predicate CleanAt(g: Graph, lim: Limits, e: Entry) {
    e.depth <= lim.depth ==> Clean(g, e.value, lim.depth - e.depth)
  }

  function SizeAt(g: Graph, lim: Limits, e: Entry): (n: nat)
    ensures n >= 1
  {
    if e.depth <= lim.depth then Size(g, e.value, lim.depth - e.depth) else 1
  }

  function Total(g: Graph, lim: Limits, pending: seq<Entry>): (n: nat)
    ensures n >= |pending|
  {
    if pending == [] then 0 else Total(g, lim, pending[..|pending| - 1]) + SizeAt(g, lim, pending[|pending| - 1])
  }

  predicate AllShallow(g: Graph, lim: Limits, pending: seq<Entry>) {
    forall i :: 0 <= i < |pending| ==> ShallowAt(g, lim, pending[i])
  }

  predicate AllClean(g: Graph, lim: Limits, pending: seq<Entry>) {
    forall i :: 0 <= i < |pending| ==> CleanAt(g, lim, pending[i])
  }

  /** What remains to be walked is within the limits, on top of what was counted. */
  predicate RestWithinLimits(g: Graph, lim: Limits, pending: seq<Entry>, count: nat) {
    AllShallow(g, lim, pending) && count + Total(g, lim, pending) <= lim.nodes
  }

  function Entries(items: seq<Value>, depth: nat): (entries: seq<Entry>)
    ensures |entries| == |items|
  {
    seq(|items|, i requires 0 <= i < |items| => Entry(items[i], depth))
  }

  lemma {:induction false} TotalOfBoth(g: Graph, lim: Limits, a: seq<Entry>, b: seq<Entry>)
    ensures Total(g, lim, a + b) == Total(g, lim, a) + Total(g, lim, b)
  {
    if b == [] {
      assert a + b == a;
    } else {
      TotalOfBoth(g, lim, a, b[..|b| - 1]);
      assert (a + b)[..|a + b| - 1] == a + b[..|b| - 1];
    }
  }

  lemma {:induction false} TotalOfEntries(g: Graph, lim: Limits, items: seq<Value>, depth: nat)
    requires depth <= lim.depth
    ensures Total(g, lim, Entries(items, depth)) == SizeOfAll(g, items, lim.depth - depth)
  {
    if items != [] {
      TotalOfEntries(g, lim, items[..|items| - 1], depth);
      assert Entries(items, depth)[..|items| - 1] == Entries(items[..|items| - 1], depth);
    }
  }

  /** Replacing a container by its children keeps the verdict on size and depth. */
  lemma ExpandKeepsLimits(g: Graph, lim: Limits, pending: seq<Entry>, e: Entry, count: nat)
    requires e.value.Ref? && e.depth <= lim.depth
    ensures var children := Entries(Children(g(e.value.id)), e.depth + 1);
      RestWithinLimits(g, lim, pending + [e], count) <==> RestWithinLimits(g, lim, pending + children, count + 1)
  {
    var items := Children(g(e.value.id));
    var children := Entries(items, e.depth + 1);
    TotalOfBoth(g, lim, pending, [e]);
    TotalOfBoth(g, lim, pending, children);
    assert [e][..0] == [];
    assert Total(g, lim, [e]) == SizeAt(g, lim, e);
    ShallowByChildren(g, lim, e);
    AllShallowOfBoth(g, lim, pending, [e]);
    AllShallowOfBoth(g, lim, pending, children);
    if e.depth < lim.depth {
      TotalOfEntries(g, lim, items, e.depth + 1);
    }
  }

  lemma AllShallowOfBoth(g: Graph, lim: Limits, a: seq<Entry>, b: seq<Entry>)
    ensures AllShallow(g, lim, a + b) <==> AllShallow(g, lim, a) && AllShallow(g, lim, b)
  {
    if AllShallow(g, lim, a + b) {
      forall i | 0 <= i < |a| ensures ShallowAt(g, lim, a[i]) { assert (a + b)[i] == a[i]; }
      forall i | 0 <= i < |b| ensures ShallowAt(g, lim, b[i]) { assert (a + b)[|a| + i] == b[i]; }
    }
  }

  lemma AllCleanOfBoth(g: Graph, lim: Limits, a: seq<Entry>, b: seq<Entry>)
    ensures AllClean(g, lim, a + b) <==> AllClean(g, lim, a) && AllClean(g, lim, b)
  {
    if AllClean(g, lim, a + b) {
      forall i | 0 <= i < |a| ensures CleanAt(g, lim, a[i]) { assert (a + b)[i] == a[i]; }
      forall i | 0 <= i < |b| ensures CleanAt(g, lim, b[i]) { assert (a + b)[|a| + i] == b[i]; }
    }
  }

  lemma ShallowByChildren(g: Graph, lim: Limits, e: Entry)
    requires e.value.Ref? && e.depth <= lim.depth
    ensures ShallowAt(g, lim, e) <==> AllShallow(g, lim, Entries(Children(g(e.value.id)), e.depth + 1))
    ensures e.depth == lim.depth ==> (ShallowAt(g, lim, e) <==> Children(g(e.value.id)) == [])
  {
    var items := Children(g(e.value.id));
    var entries := Entries(items, e.depth + 1);
    if AllShallow(g, lim, entries) && items != [] {
      assert ShallowAt(g, lim, entries[0]);
      forall i | 0 <= i < |items| ensures Shallow(g, items[i], lim.depth - e.depth - 1) {
        assert ShallowAt(g, lim, entries[i]);
      }
    }
  }

  lemma CleanByChildren(g: Graph, lim: Limits, e: Entry)
    requires e.value.Ref? && e.depth <= lim.depth
    requires g(e.value.id).Dict? ==> g(e.value.id).stringKeys
    ensures CleanAt(g, lim, e) <==> AllClean(g, lim, Entries(Children(g(e.value.id)), e.depth + 1))
  {
    var items := Children(g(e.value.id));
    var entries := Entries(items, e.depth + 1);
    if AllClean(g, lim, entries) && e.depth < lim.depth {
      forall i | 0 <= i < |items| ensures Clean(g, items[i], lim.depth - e.depth - 1) {
        assert CleanAt(g, lim, entries[i]);
      }
    }
  }

  datatype Verdict = Accepted | LimitExceeded | NotJson

  /**
    The walk accepts exactly the values whose unfolding is within the limits and is JSON, and
    names a true reason otherwise. It takes at most as many values off its stack as nodes are
    allowed, and the stack never holds more, whatever the sharing or the cycles.
   */
  method CheckWithin(g: Graph, lim: Limits, root: Value) returns (r: Verdict, pops: nat, ghost peak: nat)
    requires lim.nodes >= 1
    ensures r.Accepted? <==> WithinLimits(g, lim, root) && Clean(g, root, lim.depth)
    ensures r.LimitExceeded? ==> !WithinLimits(g, lim, root)
    ensures r.NotJson? ==> !Clean(g, root, lim.depth)
    ensures pops <= lim.nodes && peak <= lim.nodes
  {
    var pending := [Entry(root, 0)];
    var count := 0;
    peak := 1;
    assert pending[..0] == [] && Total(g, lim, pending) == SizeAt(g, lim, pending[0]);
    while pending != []
      invariant count + |pending| <= lim.nodes && |pending| <= peak <= lim.nodes
      invariant RestWithinLimits(g, lim, pending, count) <==> WithinLimits(g, lim, root)
      invariant AllClean(g, lim, pending) <==> Clean(g, root, lim.depth)
      decreases lim.nodes - count
    {
      var e := pending[|pending| - 1];
      ghost var before := pending;
      pending := pending[..|pending| - 1];
      assert before == pending + [e];
      AllCleanOfBoth(g, lim, pending, [e]);
      count := count + 1;
      if count > lim.nodes || e.depth > lim.depth {
        assert !ShallowAt(g, lim, before[|before| - 1]);
        return LimitExceeded, count, peak;
      }
      match e.value {
        case Atom(leaf) =>
          if !IsJson(leaf) {
            assert !CleanAt(g, lim, [e][0]);
            return NotJson, count, peak;
          }
          AtomKeepsLimits(g, lim, pending, e, count - 1);
        case Ref(id) =>
          if g(id).Dict? && !g(id).stringKeys {
            assert !CleanAt(g, lim, [e][0]);
            return NotJson, count, peak;
          }
          var children := Entries(Children(g(id)), e.depth + 1);
          ExpandKeepsLimits(g, lim, pending, e, count - 1);
          CleanByChildren(g, lim, e);
          AllCleanOfBoth(g, lim, pending, children);
          if count + |pending| + |children| > lim.nodes {
            return LimitExceeded, count, peak;
          }
          pending := pending + children;
          peak := if |pending| > peak then |pending| else peak;
      }
    }
    return Accepted, count, peak;
  }

  lemma AtomKeepsLimits(g: Graph, lim: Limits, pending: seq<Entry>, e: Entry, count: nat)
    requires e.value.Atom? && e.depth <= lim.depth
    ensures RestWithinLimits(g, lim, pending + [e], count) <==> RestWithinLimits(g, lim, pending, count + 1)
  {
    TotalOfBoth(g, lim, pending, [e]);
    assert [e][..0] == [];
    assert Total(g, lim, [e]) == 1;
    AllShallowOfBoth(g, lim, pending, [e]);
  }

  /** The check with the limits that schemas and values are held to. */
  method CheckSize(g: Graph, root: Value) returns (r: Verdict)
    ensures r.Accepted? <==> WithinLimits(g, SCHEMA_LIMITS, root) && Clean(g, root, SCHEMA_LIMITS.depth)
    ensures r.LimitExceeded? ==> !WithinLimits(g, SCHEMA_LIMITS, root)
    ensures r.NotJson? ==> !Clean(g, root, SCHEMA_LIMITS.depth)
  {
    var pops: nat;
    ghost var peak: nat;
    r, pops, peak := CheckWithin(g, SCHEMA_LIMITS, root);
  }

  predicate HoldsOneOf(items: seq<Value>, ids: set<nat>) {
    exists i :: 0 <= i < |items| && items[i].Ref? && items[i].id in ids
  }

  /** Containers each of which holds one of them again: a cycle is the smallest case. */
  predicate Endless(g: Graph, ids: set<nat>) {
    forall id {:trigger HoldsOneOf(Children(g(id)), ids)} :: id in ids ==> HoldsOneOf(Children(g(id)), ids)
  }

  lemma ShallowChild(g: Graph, id: nat, d: nat, i: nat)
    requires Shallow(g, Ref(id), d) && i < |Children(g(id))|
    ensures d > 0 && Shallow(g, Children(g(id))[i], d - 1)
  {
  }

  /** A value that contains itself is shallow to no depth, so the walk rejects it. */
  lemma {:induction false} CyclesAreRejected(g: Graph, ids: set<nat>, id: nat, d: nat)
    requires Endless(g, ids) && id in ids
    ensures !Shallow(g, Ref(id), d)
    decreases d
  {
    assert HoldsOneOf(Children(g(id)), ids);
    var i :| 0 <= i < |Children(g(id))| && Children(g(id))[i].Ref? && Children(g(id))[i].id in ids;
    if Shallow(g, Ref(id), d) {
      ShallowChild(g, id, d, i);
      var next := Children(g(id))[i];
      assert next == Ref(next.id);
      CyclesAreRejected(g, ids, next.id, d - 1);
    }
  }
}
