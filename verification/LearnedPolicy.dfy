/**
  The policy learner: tables built from allowed events, the decision procedure compiled from
  them, and the round trip of the tables through the bundle manifest.
 */
module LearnedPolicy {
  import opened Options
  import opened Redactions

  // ---------------------------------------------------------------------------------
  // Requests and events
  // ---------------------------------------------------------------------------------

  /** A parameter: absent, a string, or any other JSON value. A name of false counts as absent, a uri of false does not. */
  datatype Param = Absent | Text(text: string) | Other

  /** Tool arguments: no table at all, an object with these names, or an array (null decodes as an empty one). */
  datatype Arguments = NoTable | Object(names: seq<string>) | Array(isEmpty: bool)

  /** One JSON-RPC call; `rpc` is its method, absent if it is missing or not a string. */
  datatype Call = Call(rpc: Option<string>, name: Param, uri: Param, arguments: Arguments)

  datatype Body = Invalid | Batch | Single(call: Call)

  datatype Request = Request(path: string, body: Body)

  datatype Reason =
    | PathNotObserved | InvalidJson | BatchNotObserved | MethodNotObserved | ToolNotObserved
    | ArgumentNotObserved | ArgumentsMissing | TargetNotObserved | Foreign

  /** A logged event; a field that is missing or empty is the empty string. */
  datatype Event = Event(
    allowed: bool, approved: bool, reason: Reason,
    path: string, rpc: string, tool: string, target: string, argumentKeys: seq<string>)

  const TOOLS_CALL := "tools/call"

  predicate IsResourceMethod(rpc: string) {
    rpc in {"resources/read", "resources/subscribe", "resources/unsubscribe"}
  }

  const PROMPTS_GET := "prompts/get"

  function TextOf(p: Param): string {
    if p.Text? then p.text else ""
  }

  /** The target a log records: the uri of a resource request, the name of a prompt or tool. */
  function LoggedTarget(c: Call): string {
    if c.rpc.None? then ""
    else if c.rpc.value == TOOLS_CALL || c.rpc.value == PROMPTS_GET then TextOf(c.name)
    else if IsResourceMethod(c.rpc.value) then TextOf(c.uri)
    else ""
  }

  /** The target the compiled policy checks: the name if there is one, else the uri. */
  function CheckedTarget(c: Call): Param {
    if c.name.Absent? then c.uri else c.name
  }

  /** The audit event of a request and its decision; names pass the redaction, argument keys do not. */
  function EventOf(r: Request, redact: Redaction, allowed: bool, reason: Reason): Event {
    if !r.body.Single? then Event(allowed, false, reason, redact(r.path), "", "", "", [])
    else
      var c := r.body.call;
      var isTool := c.rpc == Some(TOOLS_CALL);
      Event(allowed, false, reason, redact(r.path),
            redact(if c.rpc.Some? then c.rpc.value else ""),
            redact(if isTool then TextOf(c.name) else ""), redact(LoggedTarget(c)),
            if isTool && c.arguments.Object? then c.arguments.names else [])
  }

  // ---------------------------------------------------------------------------------
  // Tables and the compiled decision
  // ---------------------------------------------------------------------------------

  datatype Tables = Tables(
    paths: set<string>, methods: set<string>, tools: set<string>,
    resources: set<string>, prompts: set<string>, argumentKeys: map<string, set<string>>)

  const NoTables: Tables := Tables({}, {}, {}, {}, {}, map[])

  function KeysOf(t: Tables, tool: string): set<string> {
    if tool in t.argumentKeys then t.argumentKeys[tool] else {}
  }

  datatype Verdict = Accept | Reject(reason: Reason)

  predicate TargetAllowed(t: Tables, rpc: string, target: Param) {
    if IsResourceMethod(rpc) then target.Text? && target.text in t.resources
    else if rpc == PROMPTS_GET then target.Text? && target.text in t.prompts
    else true
  }

  function DecideTool(t: Tables, c: Call): Verdict {
    if !c.name.Text? || c.name.text !in t.tools then Reject(ToolNotObserved)
    else
      var allowed := KeysOf(t, c.name.text);
      match c.arguments
      case Object(names) => if exists i :: 0 <= i < |names| && names[i] !in allowed then Reject(ArgumentNotObserved) else Accept
      case Array(isEmpty) => if isEmpty then Accept else Reject(ArgumentNotObserved)
      case NoTable => if allowed != {} then Reject(ArgumentsMissing) else Accept
  }

  function Decide(t: Tables, r: Request): Verdict {
    if r.path !in t.paths then Reject(PathNotObserved)
    else if r.body.Invalid? then Reject(InvalidJson)
    else if r.body.Batch? then Reject(BatchNotObserved)
    else
      var c := r.body.call;
      if c.rpc.None? || c.rpc.value !in t.methods then Reject(MethodNotObserved)
      else if c.rpc.value == TOOLS_CALL && DecideTool(t, c).Reject? then DecideTool(t, c)
      else if !CheckedTarget(c).Absent? && !TargetAllowed(t, c.rpc.value, CheckedTarget(c)) then Reject(TargetNotObserved)
      else Accept
  }

  // ---------------------------------------------------------------------------------
  // Learning
  // ---------------------------------------------------------------------------------

  function Singleton(s: string): set<string> {
    if s == "" then {} else {s}
  }

  function Names(names: seq<string>): set<string> {
    set n | n in names
  }

  function AddKeys(keys: map<string, set<string>>, tool: string, names: seq<string>): map<string, set<string>> {
    if names == [] then keys
    else keys[tool := (if tool in keys then keys[tool] else {}) + Names(names)]
  }

  /** The tables once an allowed event is added. */
  function Learn(t: Tables, e: Event): Tables {
    if !e.allowed then t
    else
      var call := e.rpc == TOOLS_CALL;
      Tables(
        t.paths + Singleton(e.path), t.methods + Singleton(e.rpc),
        if call then t.tools + Singleton(e.tool) else t.tools,
        if IsResourceMethod(e.rpc) then t.resources + Singleton(e.target) else t.resources,
        if e.rpc == PROMPTS_GET then t.prompts + Singleton(e.target) else t.prompts,
        if call && e.tool != "" then AddKeys(t.argumentKeys, e.tool, e.argumentKeys) else t.argumentKeys)
  }

  function LearnAll(events: seq<Event>): Tables {
    if events == [] then NoTables else Learn(LearnAll(events[..|events| - 1]), events[|events| - 1])
  }

  function WithDefaultPath(t: Tables): Tables {
    if t.paths == {} then t.(paths := {"/mcp"}) else t
  }

  function LearnedFrom(events: seq<Event>): Tables {
    WithDefaultPath(LearnAll(events))
  }

  /** The learned part of a bundle manifest. */
  datatype Manifest = Manifest(eventCount: nat, allowedCount: nat, blockedCount: nat, tables: Tables)

  /** The manifest keeps an entry of argument keys only if it is not empty or its tool is known. */
  function ManifestOf(t: Tables): Tables {
    t.(argumentKeys := map tool | tool in t.argumentKeys && (t.argumentKeys[tool] != {} || tool in t.tools) :: t.argumentKeys[tool])
  }

  function Reloaded(m: Tables): Tables {
    WithDefaultPath(m)
  }

  class LearnedPolicy {
    var eventCount: nat
    var allowedCount: nat
    var blockedCount: nat
    var paths: set<string>
    var methods: set<string>
    var tools: set<string>
    var resources: set<string>
    var prompts: set<string>
    var argumentKeys: map<string, set<string>>

    function Contents(): Tables
      reads this
    {
      Tables(paths, methods, tools, resources, prompts, argumentKeys)
    }

    constructor ()
      ensures Contents() == NoTables && eventCount == allowedCount == blockedCount == 0
    {
      eventCount, allowedCount, blockedCount := 0, 0, 0;
      paths, methods, tools, resources, prompts, argumentKeys := {}, {}, {}, {}, {}, map[];
    }

    constructor FromManifest(m: Manifest)
      ensures Contents() == Reloaded(m.tables)
      ensures eventCount == m.eventCount && allowedCount == m.allowedCount && blockedCount == m.blockedCount
    {
      eventCount, allowedCount, blockedCount := m.eventCount, m.allowedCount, m.blockedCount;
      var t := m.tables;
      paths, methods, tools, resources, prompts, argumentKeys := t.paths, t.methods, t.tools, t.resources, t.prompts, t.argumentKeys;
      new;
      if paths == {} {
        paths := {"/mcp"};
      }
    }

    method AddArgumentKeys(tool: string, names: seq<string>)
      modifies `argumentKeys
      ensures argumentKeys == AddKeys(old(argumentKeys), tool, names)
    {
      for i := 0 to |names|
        invariant argumentKeys == AddKeys(old(argumentKeys), tool, names[..i])
      {
        AddKeysOneMore(old(argumentKeys), tool, names, i);
        argumentKeys := argumentKeys[tool := (if tool in argumentKeys then argumentKeys[tool] else {}) + {names[i]}];
      }
      assert names[..|names|] == names;
    }

    method Add(e: Event)
      modifies this
      ensures Contents() == Learn(old(Contents()), e)
      ensures eventCount == old(eventCount) + 1
      ensures allowedCount == old(allowedCount) + (if e.allowed then 1 else 0)
      ensures blockedCount == old(blockedCount) + (if e.allowed then 0 else 1)
    {
      eventCount := eventCount + 1;
      if !e.allowed {
        blockedCount := blockedCount + 1;
        return;
      }
      allowedCount := allowedCount + 1;
      if e.path != "" {
        paths := paths + {e.path};
      }
      if e.rpc != "" {
        methods := methods + {e.rpc};
      }
      if e.rpc == TOOLS_CALL {
        if e.tool != "" {
          tools := tools + {e.tool};
          AddArgumentKeys(e.tool, e.argumentKeys);
        }
      } else if IsResourceMethod(e.rpc) {
        if e.target != "" {
          resources := resources + {e.target};
        }
      } else if e.rpc == PROMPTS_GET {
        if e.target != "" {
          prompts := prompts + {e.target};
        }
      }
    }

    constructor FromEvents(events: seq<Event>)
      ensures Contents() == LearnedFrom(events)
      ensures eventCount == |events| == allowedCount + blockedCount
    {
      eventCount, allowedCount, blockedCount := 0, 0, 0;
      paths, methods, tools, resources, prompts, argumentKeys := {}, {}, {}, {}, {}, map[];
      new;
      for i := 0 to |events|
        invariant Contents() == LearnAll(events[..i])
        invariant eventCount == i == allowedCount + blockedCount
      {
        assert events[..i + 1][..i] == events[..i];
        Add(events[i]);
      }
      assert events[..|events|] == events;
      if paths == {} {
        paths := {"/mcp"};
      }
    }

    /** What is saved, with every entry of the tables and no other. */
    method Save() returns (m: Manifest)
      ensures m.tables == ManifestOf(Contents())
      ensures m.eventCount == eventCount && m.allowedCount == allowedCount && m.blockedCount == blockedCount
      ensures forall it :: Has(m.tables, it) <==> Has(Contents(), it)
    {
      var keys := map tool | tool in argumentKeys && (argumentKeys[tool] != {} || tool in tools) :: argumentKeys[tool];
      m := Manifest(eventCount, allowedCount, blockedCount, Tables(paths, methods, tools, resources, prompts, keys));
    }
  }

  lemma AddKeysOneMore(keys: map<string, set<string>>, tool: string, names: seq<string>, i: nat)
    requires i < |names|
    ensures AddKeys(keys, tool, names[..i + 1])
         == AddKeys(keys, tool, names[..i])[tool :=
              (if tool in AddKeys(keys, tool, names[..i]) then AddKeys(keys, tool, names[..i])[tool] else {}) + {names[i]}]
  {
    assert names[..i + 1] == names[..i] + [names[i]];
    var was := if tool in keys then keys[tool] else {};
    assert Names(names[..i + 1]) == Names(names[..i]) + {names[i]};
    assert was + Names(names[..i + 1]) == was + Names(names[..i]) + {names[i]};
    if i == 0 {
      assert names[..0] == [] && was + Names(names[..0]) == was;
    } else {
      assert names[..i] != [];
      assert AddKeys(keys, tool, names[..i])[tool] == was + Names(names[..i]);
    }
  }

  // ---------------------------------------------------------------------------------
  // Permissions
  // ---------------------------------------------------------------------------------

  /** One entry of the tables. */
  datatype Item =
    | Path(value: string) | Method(value: string) | Tool(value: string)
    | Resource(value: string) | Prompt(value: string) | ArgumentKey(tool: string, value: string)

  predicate Has(t: Tables, it: Item) {
    match it
    case Path(v) => v in t.paths
    case Method(v) => v in t.methods
    case Tool(v) => v in t.tools
    case Resource(v) => v in t.resources
    case Prompt(v) => v in t.prompts
    case ArgumentKey(tool, v) => v in KeysOf(t, tool)
  }

  /** What a request needs of the tables. */
  predicate Needs(r: Request, it: Item) {
    it == Path(r.path)
    || (r.body.Single?
        && var c := r.body.call;
           c.rpc.Some?
           && (it == Method(c.rpc.value)
               || (c.rpc.value == TOOLS_CALL && c.name.Text? && it == Tool(c.name.text))
               || (c.rpc.value == TOOLS_CALL && c.name.Text? && c.arguments.Object?
                   && it.ArgumentKey? && it.tool == c.name.text && it.value in c.arguments.names)
               || (IsResourceMethod(c.rpc.value) && CheckedTarget(c).Text? && it == Resource(CheckedTarget(c).text))
               || (c.rpc.value == PROMPTS_GET && CheckedTarget(c).Text? && it == Prompt(CheckedTarget(c).text))))
  }

  /** Requests that no table can admit, whatever it holds. */
  predicate Hopeless(r: Request) {
    !r.body.Single? || r.body.call.rpc.None?
    || var c := r.body.call;
       if c.rpc.value == TOOLS_CALL then !c.name.Text? || c.arguments == Array(false)
       else (IsResourceMethod(c.rpc.value) || c.rpc.value == PROMPTS_GET) && CheckedTarget(c).Other?
  }

  /** A call without an arguments table is admitted only while its tool has no known key. */
  predicate WantsNoKeys(r: Request) {
    r.body.Single? && r.body.call.rpc == Some(TOOLS_CALL) && r.body.call.arguments.NoTable?
  }

  /** The compiled decision is exactly: nothing hopeless, every need in the tables, and no key where none may be. */
  lemma AcceptsExactly(t: Tables, r: Request)
    ensures Decide(t, r) == Accept <==>
      && !Hopeless(r) && (forall it :: Needs(r, it) ==> Has(t, it))
      && (WantsNoKeys(r) ==> KeysOf(t, r.body.call.name.text) == {})
  {
    if Decide(t, r) != Accept && !Hopeless(r) {
      var c := r.body.call;
      assert Needs(r, Path(r.path));
      assert Needs(r, Method(c.rpc.value));
      if c.rpc.value == TOOLS_CALL {
        assert Needs(r, Tool(c.name.text));
        if c.arguments.Object? && exists i :: 0 <= i < |c.arguments.names| && c.arguments.names[i] !in KeysOf(t, c.name.text) {
          var i :| 0 <= i < |c.arguments.names| && c.arguments.names[i] !in KeysOf(t, c.name.text);
          assert Needs(r, ArgumentKey(c.name.text, c.arguments.names[i]));
        }
      } else if CheckedTarget(c).Text? {
        assert IsResourceMethod(c.rpc.value) ==> Needs(r, Resource(CheckedTarget(c).text));
        assert c.rpc.value == PROMPTS_GET ==> Needs(r, Prompt(CheckedTarget(c).text));
      }
    }
  }

  // ---------------------------------------------------------------------------------
  // What is learned
  // ---------------------------------------------------------------------------------

  /** What an event teaches. */
  predicate Teaches(e: Event, it: Item) {
    e.allowed
    && match it
       case Path(v) => v != "" && e.path == v
       case Method(v) => v != "" && e.rpc == v
       case Tool(v) => v != "" && e.rpc == TOOLS_CALL && e.tool == v
       case Resource(v) => v != "" && IsResourceMethod(e.rpc) && e.target == v
       case Prompt(v) => v != "" && e.rpc == PROMPTS_GET && e.target == v
       case ArgumentKey(tool, v) => tool != "" && e.rpc == TOOLS_CALL && e.tool == tool && v in e.argumentKeys
  }

  lemma LearnAdds(t: Tables, e: Event, it: Item)
    ensures Has(Learn(t, e), it) <==> Has(t, it) || Teaches(e, it)
  {
  }

  ghost predicate Taught(events: seq<Event>, it: Item) {
    exists i :: 0 <= i < |events| && Teaches(events[i], it)
  }

  /** The learned tables hold exactly what some allowed event teaches. */
  lemma {:induction false} LearnsExactly(events: seq<Event>, it: Item)
    ensures Has(LearnAll(events), it) <==> Taught(events, it)
  {
    if events != [] {
      var n := |events| - 1;
      LearnsExactly(events[..n], it);
      LearnAdds(LearnAll(events[..n]), events[n], it);
      if Taught(events, it) {
        var i :| 0 <= i < |events| && Teaches(events[i], it);
        assert i < n ==> events[..n][i] == events[i];
      }
      if Taught(events[..n], it) {
        var i :| 0 <= i < n && Teaches(events[..n][i], it);
        assert Teaches(events[i], it);
      }
    }
  }

  predicate NoEmptyKeys(t: Tables) {
    forall tool :: tool in t.argumentKeys ==> t.argumentKeys[tool] != {}
  }

  lemma {:induction false} LearnsNoEmptyKeys(events: seq<Event>)
    ensures NoEmptyKeys(LearnAll(events))
  {
    if events != [] {
      var e := events[|events| - 1];
      LearnsNoEmptyKeys(events[..|events| - 1]);
      if e.argumentKeys != [] { assert e.argumentKeys[0] in Names(e.argumentKeys); }
    }
  }

  lemma SameItemsSameTables(a: Tables, b: Tables)
    requires NoEmptyKeys(a) && NoEmptyKeys(b)
    requires forall it :: Has(a, it) <==> Has(b, it)
    ensures a == b
  {
    forall v ensures v in a.paths <==> v in b.paths { assert Has(a, Path(v)) <==> Has(b, Path(v)); }
    forall v ensures v in a.methods <==> v in b.methods { assert Has(a, Method(v)) <==> Has(b, Method(v)); }
    forall v ensures v in a.tools <==> v in b.tools { assert Has(a, Tool(v)) <==> Has(b, Tool(v)); }
    forall v ensures v in a.resources <==> v in b.resources { assert Has(a, Resource(v)) <==> Has(b, Resource(v)); }
    forall v ensures v in a.prompts <==> v in b.prompts { assert Has(a, Prompt(v)) <==> Has(b, Prompt(v)); }
    forall tool ensures KeysOf(a, tool) == KeysOf(b, tool) {
      forall v ensures v in KeysOf(a, tool) <==> v in KeysOf(b, tool) {
        assert Has(a, ArgumentKey(tool, v)) <==> Has(b, ArgumentKey(tool, v));
      }
    }
    forall tool ensures tool in a.argumentKeys <==> tool in b.argumentKeys {
      assert KeysOf(a, tool) == KeysOf(b, tool);
    }
    assert a.argumentKeys == b.argumentKeys by {
      forall tool | tool in a.argumentKeys ensures a.argumentKeys[tool] == b.argumentKeys[tool] {
        assert KeysOf(a, tool) == KeysOf(b, tool);
      }
    }
  }

  /** Order and repetition are irrelevant: the same allowed events give the same policy. */
  lemma OrderIsIrrelevant(log: seq<Event>, other: seq<Event>)
    requires forall e: Event :: e.allowed ==> (e in log <==> e in other)
    ensures LearnedFrom(log) == LearnedFrom(other)
  {
    LearnsNoEmptyKeys(log);
    LearnsNoEmptyKeys(other);
    forall it ensures Has(LearnAll(log), it) <==> Has(LearnAll(other), it) {
      LearnsExactly(log, it);
      LearnsExactly(other, it);
      if Taught(log, it) {
        var i :| 0 <= i < |log| && Teaches(log[i], it);
        assert log[i] in other;
      }
      if Taught(other, it) {
        var i :| 0 <= i < |other| && Teaches(other[i], it);
        assert other[i] in log;
      }
    }
    SameItemsSameTables(LearnAll(log), LearnAll(other));
  }

  // ---------------------------------------------------------------------------------
  // Learning exactness
  // ---------------------------------------------------------------------------------

  /** One logged request with its decision. */
  datatype Logged = Logged(request: Request, allowed: bool, reason: Reason)

  function Events(log: seq<Logged>, redact: Redaction): (events: seq<Event>)
    ensures |events| == |log|
  {
    seq(|log|, i requires 0 <= i < |log| => EventOf(log[i].request, redact, log[i].allowed, log[i].reason))
  }

  /** A single request with a path and a method, and a named tool if it is a call. */
  predicate WellFormed(r: Request) {
    && r.path != "" && r.body.Single? && r.body.call.rpc.Some? && r.body.call.rpc.value != ""
    && (r.body.call.rpc.value == TOOLS_CALL ==> r.body.call.name.Text? && r.body.call.name.text != "")
  }

  /** The redaction leaves path, method and tool as they are. */
  predicate Legible(r: Request, redact: Redaction)
    requires WellFormed(r)
  {
    var c := r.body.call;
    redact(r.path) == r.path && redact(c.rpc.value) == c.rpc.value && (c.rpc.value == TOOLS_CALL ==> redact(c.name.text) == c.name.text)
  }

  predicate HasTarget(c: Call) {
    c.rpc.Some? && (IsResourceMethod(c.rpc.value) || c.rpc.value == PROMPTS_GET) && !CheckedTarget(c).Absent?
  }

  /** The log shows the very target that the policy checks. */
  predicate TargetsAgree(r: Request, redact: Redaction)
    requires WellFormed(r)
  {
    var c := r.body.call;
    HasTarget(c) ==> CheckedTarget(c) == Text(redact(LoggedTarget(c))) && LoggedTarget(c) != ""
  }

  predicate ObjectArguments(r: Request)
    requires WellFormed(r)
  {
    r.body.call.rpc.value == TOOLS_CALL ==> r.body.call.arguments.Object?
  }

  predicate WellLogged(log: seq<Logged>) {
    forall i :: 0 <= i < |log| ==> WellFormed(log[i].request)
  }

  lemma TeachesWhatItNeeds(r: Request, redact: Redaction, reason: Reason, it: Item)
    requires WellFormed(r) && Legible(r, redact) && TargetsAgree(r, redact)
    ensures Needs(r, it) <==> Teaches(EventOf(r, redact, true, reason), it)
  {
  }

  ghost predicate TeachesNoPath(events: seq<Event>) {
    forall v :: !Taught(events, Path(v))
  }

  /** What the log must show of a call's arguments, or must not. */
  ghost predicate ArgumentsSupported(events: seq<Event>, tool: string, arguments: Arguments) {
    match arguments
    case Object(names) => forall i :: 0 <= i < |names| ==> Taught(events, ArgumentKey(tool, names[i]))
    case Array(isEmpty) => isEmpty
    case NoTable => forall key :: !Taught(events, ArgumentKey(tool, key))
  }

  ghost predicate TargetSupported(events: seq<Event>, c: Call) {
    HasTarget(c) ==>
      CheckedTarget(c).Text?
      && Taught(events, if c.rpc.value == PROMPTS_GET then Prompt(CheckedTarget(c).text) else Resource(CheckedTarget(c).text))
  }

  /** The log's allowed events teach all that the request needs, and no key where it has no arguments. */
  ghost predicate Supported(events: seq<Event>, r: Request) {
    && (Taught(events, Path(r.path)) || (r.path == "/mcp" && TeachesNoPath(events)))
    && r.body.Single? && r.body.call.rpc.Some? && Taught(events, Method(r.body.call.rpc.value))
    && var c := r.body.call;
       if c.rpc.value == TOOLS_CALL then
         c.name.Text? && Taught(events, Tool(c.name.text)) && ArgumentsSupported(events, c.name.text, c.arguments)
       else TargetSupported(events, c)
  }

  lemma LearnedPaths(events: seq<Event>, path: string)
    ensures path in LearnedFrom(events).paths <==> Taught(events, Path(path)) || (path == "/mcp" && TeachesNoPath(events))
  {
    LearnsExactly(events, Path(path));
    if LearnAll(events).paths == {} {
      forall v ensures !Taught(events, Path(v)) { LearnsExactly(events, Path(v)); }
    } else {
      var v :| v in LearnAll(events).paths;
      LearnsExactly(events, Path(v));
      assert Has(LearnAll(events), Path(v));
    }
  }

  lemma LearnedArguments(events: seq<Event>, c: Call)
    requires c.name.Text?
    ensures DecideTool(LearnedFrom(events), c) == Accept <==>
      Taught(events, Tool(c.name.text)) && ArgumentsSupported(events, c.name.text, c.arguments)
  {
    var t, tool := LearnedFrom(events), c.name.text;
    LearnsExactly(events, Tool(tool));
    forall key ensures key in KeysOf(t, tool) <==> Taught(events, ArgumentKey(tool, key)) {
      LearnsExactly(events, ArgumentKey(tool, key));
    }
  }

  /**
    On every log and every request: the learned policy accepts if and only if the allowed events
    of the log support the request.
   */
  lemma LearnedAcceptsExactly(events: seq<Event>, r: Request)
    ensures Decide(LearnedFrom(events), r) == Accept <==> Supported(events, r)
  {
    LearnedPaths(events, r.path);
    if r.body.Single? && r.body.call.rpc.Some? {
      var c := r.body.call;
      LearnsExactly(events, Method(c.rpc.value));
      if c.rpc.value == TOOLS_CALL {
        if c.name.Text? { LearnedArguments(events, c); }
      } else if HasTarget(c) && CheckedTarget(c).Text? {
        LearnsExactly(events, Prompt(CheckedTarget(c).text));
        LearnsExactly(events, Resource(CheckedTarget(c).text));
      }
    }
  }

  /** What of its own request an allowed event always teaches, if the log shows it legibly. */
  lemma OwnEventTeaches(log: seq<Logged>, redact: Redaction, k: nat)
    requires k < |log| && log[k].allowed && WellFormed(log[k].request) && Legible(log[k].request, redact)
    ensures var (r, events) := (log[k].request, Events(log, redact));
      && Taught(events, Path(r.path)) && Taught(events, Method(r.body.call.rpc.value))
      && (r.body.call.rpc.value == TOOLS_CALL ==> Taught(events, Tool(r.body.call.name.text)))
      && (r.body.call.rpc.value == TOOLS_CALL && r.body.call.arguments.Object? ==>
            ArgumentsSupported(events, r.body.call.name.text, r.body.call.arguments))
  {
    var r, e := log[k].request, Events(log, redact)[k];
    assert Teaches(e, Path(r.path)) && Teaches(e, Method(r.body.call.rpc.value));
    if r.body.call.rpc.value == TOOLS_CALL {
      var tool := r.body.call.name.text;
      assert Teaches(e, Tool(tool));
      if r.body.call.arguments.Object? {
        var names := r.body.call.arguments.names;
        forall i | 0 <= i < |names| ensures Taught(Events(log, redact), ArgumentKey(tool, names[i])) {
          assert Teaches(e, ArgumentKey(tool, names[i]));
        }
      }
    }
  }

  /**
    When a policy accepts an allowed request of its own log, over every log: a call with an
    arguments object always, one with an empty array always, one without arguments if and only if
    no allowed event taught its tool a key, a resource or prompt if and only if some allowed
    event taught the target that is checked.
   */
  lemma OwnRequestAcceptedExactly(log: seq<Logged>, redact: Redaction, k: nat)
    requires k < |log| && log[k].allowed && WellFormed(log[k].request) && Legible(log[k].request, redact)
    ensures var (c, events) := (log[k].request.body.call, Events(log, redact));
      Decide(LearnedFrom(events), log[k].request) == Accept <==>
        if c.rpc.value == TOOLS_CALL then c.arguments.Object? || ArgumentsSupported(events, c.name.text, c.arguments)
        else TargetSupported(events, c)
  {
    LearnedAcceptsExactly(Events(log, redact), log[k].request);
    OwnEventTeaches(log, redact, k);
  }

  /** In particular it accepts every legible allowed request with object arguments whose targets agree. */
  lemma LearnedAccepts(log: seq<Logged>, redact: Redaction, k: nat)
    requires k < |log| && log[k].allowed && WellFormed(log[k].request) && Legible(log[k].request, redact)
    requires ObjectArguments(log[k].request) && TargetsAgree(log[k].request, redact)
    ensures Decide(LearnedFrom(Events(log, redact)), log[k].request) == Accept
  {
    OwnRequestAcceptedExactly(log, redact, k);
    var c := log[k].request.body.call;
    if HasTarget(c) {
      var need := if c.rpc.value == PROMPTS_GET then Prompt(CheckedTarget(c).text) else Resource(CheckedTarget(c).text);
      assert Teaches(Events(log, redact)[k], need);
    }
  }

  /** Both conditions are needed: alone in its log, a request is accepted if and only if it is legible and its targets agree. */
  lemma LoneRequestNeedsAgreement(r: Request, redact: Redaction, reason: Reason)
    requires WellFormed(r) && ObjectArguments(r)
    ensures Decide(LearnedFrom(Events([Logged(r, true, reason)], redact)), r) == Accept <==>
      Legible(r, redact) && TargetsAgree(r, redact)
  {
    var log := [Logged(r, true, reason)];
    var events := Events(log, redact);
    if Legible(r, redact) && TargetsAgree(r, redact) {
      LearnedAccepts(log, redact, 0);
    } else {
      LearnedAcceptsExactly(events, r);
      assert Teaches(events[0], Path(redact(r.path)));
      assert !TeachesNoPath(events) by { assert Taught(events, Path(redact(r.path))); }
    }
  }

  /** A tool whose name no event ever shows is rejected by every policy learned from any log. */
  lemma UnshownToolIsRejected(log: seq<Logged>, redact: Redaction, r: Request)
    requires r.body.Single? && r.body.call.rpc == Some(TOOLS_CALL) && r.body.call.name.Text?
    requires forall s :: redact(s) != r.body.call.name.text
    ensures Decide(LearnedFrom(Events(log, redact)), r) != Accept
  {
    var events := Events(log, redact);
    LearnedAcceptsExactly(events, r);
    assert !Taught(events, Tool(r.body.call.name.text));
  }

  /** Such names are common: no log admits a tool called get-secret, even one that allowed it throughout. */
  lemma GetSecretIsNeverLearned(log: seq<Logged>, path: string, arguments: Arguments)
    ensures KeepsEmptiness(MaskName)
    ensures Decide(LearnedFrom(Events(log, MaskName)), ToolCall(path, "get-secret", arguments)) != Accept
  {
    MaskNameIsRedaction();
    GetSecretIsMasked();
    MaskedIsNeverShown("get-secret");
    UnshownToolIsRejected(log, MaskName, ToolCall(path, "get-secret", arguments));
  }

  function ToolCall(path: string, tool: string, arguments: Arguments): Request {
    Request(path, Single(Call(Some(TOOLS_CALL), Text(tool), Absent, arguments)))
  }

  /** A resource read that also has a name teaches its uri and is checked by its name. */
  lemma NamedReadIsRejected(path: string, name: string, uri: string, redact: Redaction, reason: Reason)
    requires path != "" && uri != "" && redact(uri) != name
    ensures var r := Request(path, Single(Call(Some("resources/read"), Text(name), Text(uri), NoTable)));
      Decide(LearnedFrom(Events([Logged(r, true, reason)], redact)), r) != Accept
  {
    var r := Request(path, Single(Call(Some("resources/read"), Text(name), Text(uri), NoTable)));
    var events := Events([Logged(r, true, reason)], redact);
    LearnedAcceptsExactly(events, r);
  }

  /**
    Everything an accepted request needs is witnessed by an allowed event of the log; a log
    that taught no path admits the default path only.
   */
  lemma AcceptedIsWitnessed(log: seq<Event>, r: Request, it: Item)
    requires Decide(LearnedFrom(log), r) == Accept && Needs(r, it)
    ensures Taught(log, it) || (it == Path("/mcp") && TeachesNoPath(log))
  {
    AcceptsExactly(LearnedFrom(log), r);
    LearnsExactly(log, it);
    if it.Path? { LearnedPaths(log, it.value); }
  }

  /**
    Tables that accept the allowed requests of a log hold whatever a legible one of them with
    agreeing targets taught; so where all are such, the learned tables are the smallest.
   */
  lemma LearnedIsSmallest(log: seq<Logged>, redact: Redaction, t: Tables, k: nat, it: Item)
    requires k < |log| && WellFormed(log[k].request) && Legible(log[k].request, redact) && TargetsAgree(log[k].request, redact)
    requires Decide(t, log[k].request) == Accept && Teaches(Events(log, redact)[k], it)
    ensures Has(t, it)
  {
    TeachesWhatItNeeds(log[k].request, redact, log[k].reason, it);
    AcceptsExactly(t, log[k].request);
  }

  /** Every entry of the tables learned from a log with an allowed request was taught by one of its events. */
  lemma LearnedWasTaught(log: seq<Logged>, redact: Redaction, it: Item) returns (k: nat)
    requires (exists i :: 0 <= i < |log| && log[i].allowed && log[i].request.path != "")
    requires Has(LearnedFrom(Events(log, redact)), it)
    ensures k < |log| && log[k].allowed && Teaches(Events(log, redact)[k], it)
  {
    var events := Events(log, redact);
    var i :| 0 <= i < |log| && log[i].allowed && log[i].request.path != "";
    assert Teaches(events[i], Path(redact(log[i].request.path)));
    assert Taught(events, Path(redact(log[i].request.path)));
    LearnsExactly(events, it);
    if it.Path? { LearnedPaths(events, it.value); }
    assert Taught(events, it);
    k :| 0 <= k < |events| && Teaches(events[k], it);
  }

  /** A log whose policy rejects an allowed call of its own: another call has taught the tool a key. */
  lemma MissingArgumentsAreNotCovered()
    ensures var plain, keyed := ToolCall("/mcp", "t", NoTable), ToolCall("/mcp", "t", Object(["k"]));
      Decide(LearnedFrom(Events([Logged(plain, true, Foreign), Logged(keyed, true, Foreign)], s => s)), plain) != Accept
  {
    var plain, keyed := ToolCall("/mcp", "t", NoTable), ToolCall("/mcp", "t", Object(["k"]));
    var log := [Logged(plain, true, Foreign), Logged(keyed, true, Foreign)];
    var events := Events(log, s => s);
    OwnRequestAcceptedExactly(log, s => s, 0);
    assert Teaches(events[1], ArgumentKey("t", "k"));
    assert Taught(events, ArgumentKey("t", "k"));
  }

  // ---------------------------------------------------------------------------------
  // Round trip
  // ---------------------------------------------------------------------------------

  /** Saving a compiled policy to its manifest and loading it loses no entry and adds none. */
  lemma RoundTripKeepsItems(t: Tables, it: Item)
    requires t.paths != {}
    ensures Has(Reloaded(ManifestOf(t)), it) <==> Has(t, it)
    ensures Reloaded(ManifestOf(t)).paths != {}
  {
  }

  /** The reloaded policy decides every request alike. */
  lemma RoundTripDecidesAlike(t: Tables, r: Request)
    requires t.paths != {}
    ensures Decide(Reloaded(ManifestOf(t)), r) == Decide(t, r)
  {
    if r.body.Single? && r.body.call.name.Text? {
      var tool := r.body.call.name.text;
      assert KeysOf(ManifestOf(t), tool) == KeysOf(t, tool);
    }
  }
}
