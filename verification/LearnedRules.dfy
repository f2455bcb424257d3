/**
  The learner's vocabulary told in the methods' own names: what an event shows, and what the
  compiled decision asks of a request and in which order.
 */
module LearnedRules {
  import opened Options
  import opened Rules
  import opened Redactions
  import opened LearnedPolicy

  predicate ReadsResource(rpc: string) {
    rpc == "resources/read" || rpc == "resources/subscribe" || rpc == "resources/unsubscribe"
  }

  // ---------------------------------------------------------------------------------
  // What events show
  // ---------------------------------------------------------------------------------

  /** The entry can be read off the fields of the event. */
  predicate Shows(e: Event, it: Item) {
    match it
    case Path(v) => v != "" && e.path == v
    case Method(v) => v != "" && e.rpc == v
    case Tool(v) => v != "" && e.rpc == "tools/call" && e.tool == v
    case Resource(v) => v != "" && ReadsResource(e.rpc) && e.target == v
    case Prompt(v) => v != "" && e.rpc == "prompts/get" && e.target == v
    case ArgumentKey(tool, v) => tool != "" && e.rpc == "tools/call" && e.tool == tool && v in e.argumentKeys
  }

  ghost predicate ShownByAllowed(events: seq<Event>, it: Item) {
    exists i :: 0 <= i < |events| && events[i].allowed && Shows(events[i], it)
  }

  /**
    A policy learned from any log holds exactly what the allowed events show; it holds the path
    "/mcp" besides if they show none.
   */
  lemma LearnsWhatIsShown(events: seq<Event>, it: Item)
    ensures Has(LearnedFrom(events), it) <==>
      ShownByAllowed(events, it) || (it == Path("/mcp") && forall v :: !ShownByAllowed(events, Path(v)))
  {
    TaughtIsShown(events, it);
    if it.Path? {
      LearnedPaths(events, it.value);
      forall v ensures Taught(events, Path(v)) <==> ShownByAllowed(events, Path(v)) { TaughtIsShown(events, Path(v)); }
    } else {
      LearnsExactly(events, it);
    }
  }

  lemma TaughtIsShown(events: seq<Event>, it: Item)
    ensures Taught(events, it) <==> ShownByAllowed(events, it)
  {
    forall i | 0 <= i < |events| ensures Teaches(events[i], it) <==> events[i].allowed && Shows(events[i], it) {}
  }

  /** What the event of a request shows, by the request's own fields as the redaction leaves them. */
  predicate Displays(r: Request, redact: Redaction, it: Item) {
    match it
    case Path(v) => v != "" && v == redact(r.path)
    case Method(v) => v != "" && r.body.Single? && r.body.call.rpc.Some? && v == redact(r.body.call.rpc.value)
    case _ => r.body.Single? && r.body.call.rpc.Some? && DisplaysCall(r.body.call, redact, it)
  }

  predicate DisplaysCall(c: Call, redact: Redaction, it: Item)
    requires c.rpc.Some?
  {
    match it
    case Tool(v) => DisplaysTool(c, redact, v)
    case ArgumentKey(tool, v) => DisplaysTool(c, redact, tool) && c.arguments.Object? && v in c.arguments.names
    case Resource(v) => v != "" && ReadsResource(redact(c.rpc.value)) && DisplaysTarget(c, redact, v)
    case Prompt(v) => v != "" && redact(c.rpc.value) == "prompts/get" && DisplaysTarget(c, redact, v)
    case _ => false
  }

  predicate DisplaysTool(c: Call, redact: Redaction, v: string)
    requires c.rpc.Some?
  {
    v != "" && c.rpc.value == redact(c.rpc.value) == "tools/call" && c.name.Text? && v == redact(c.name.text)
  }

  /** A read shows its uri, a prompt or a call its name. */
  predicate DisplaysTarget(c: Call, redact: Redaction, v: string)
    requires c.rpc.Some?
  {
    if ReadsResource(c.rpc.value) then c.uri.Text? && v == redact(c.uri.text)
    else (c.rpc.value == "prompts/get" || c.rpc.value == "tools/call") && c.name.Text? && v == redact(c.name.text)
  }

  lemma KindsDiffer(rpc: string)
    ensures ReadsResource(rpc) ==> rpc[0] == 'r'
    ensures rpc == "prompts/get" ==> rpc[0] == 'p'
    ensures rpc == "tools/call" ==> rpc[0] == 't'
  {
  }

  lemma TargetDisplayed(c: Call, redact: Redaction, v: string)
    requires c.rpc.Some? && v != ""
    ensures redact(LoggedTarget(c)) == v <==> DisplaysTarget(c, redact, v)
  {
    KindsDiffer(c.rpc.value);
    assert redact("") == "" && (c.name == Text("") ==> redact(c.name.text) == "") && (c.uri == Text("") ==> redact(c.uri.text) == "");
  }

  lemma CallDisplayed(c: Call, redact: Redaction, e: Event, it: Item)
    requires c.rpc.Some? && !it.Path? && !it.Method?
    requires e.rpc == redact(c.rpc.value) && e.target == redact(LoggedTarget(c))
    requires e.tool == redact(if c.rpc.value == TOOLS_CALL then TextOf(c.name) else "")
    requires e.argumentKeys == if c.rpc.value == TOOLS_CALL && c.arguments.Object? then c.arguments.names else []
    ensures Shows(e, it) <==> DisplaysCall(c, redact, it)
  {
    assert redact("") == "";
    if (it.Resource? || it.Prompt?) && it.value != "" {
      TargetDisplayed(c, redact, it.value);
    }
  }

  /** What an audit event shows of its request. */
  lemma EventsDisplay(r: Request, redact: Redaction, allowed: bool, reason: Reason, it: Item)
    ensures Shows(EventOf(r, redact, allowed, reason), it) <==> Displays(r, redact, it)
    ensures EventOf(r, redact, allowed, reason).allowed == allowed && EventOf(r, redact, allowed, reason).reason == reason
  {
    assert redact("") == "";
    if !it.Path? && !it.Method? && r.body.Single? && r.body.call.rpc.Some? {
      CallDisplayed(r.body.call, redact, EventOf(r, redact, allowed, reason), it);
    }
  }

  // ---------------------------------------------------------------------------------
  // The decision
  // ---------------------------------------------------------------------------------

  predicate Holds(t: Tables, tool: string, key: string) {
    tool in t.argumentKeys && key in t.argumentKeys[tool]
  }

  function CallRules(t: Tables, name: Param, arguments: Arguments): seq<Rule<Reason>> {
    var tool := if name.Text? then name.text else "";
    [Rule(!name.Text? || name.text !in t.tools, ToolNotObserved),
     Rule((arguments.Object? && exists i :: 0 <= i < |arguments.names| && !Holds(t, tool, arguments.names[i]))
          || arguments == Array(false), ArgumentNotObserved),
     Rule(arguments == NoTable && tool in t.argumentKeys && t.argumentKeys[tool] != {}, ArgumentsMissing)]
  }

  function TargetRule(table: set<string>, name: Param, uri: Param): Rule<Reason> {
    Rule(if name.Absent? then !uri.Absent? && (uri.Other? || uri.text !in table) else name.Other? || name.text !in table, TargetNotObserved)
  }

  function MethodRules(t: Tables, c: Call): seq<Rule<Reason>> {
    if c.rpc == Some("tools/call") then CallRules(t, c.name, c.arguments)
    else if c.rpc == Some("prompts/get") then [TargetRule(t.prompts, c.name, c.uri)]
    else if c.rpc.Some? && ReadsResource(c.rpc.value) then [TargetRule(t.resources, c.name, c.uri)]
    else []
  }

  /** What the compiled policy checks of a request, in order. */
  function DecisionRules(t: Tables, r: Request): seq<Rule<Reason>> {
    [Rule(r.path !in t.paths, PathNotObserved),
     Rule(r.body.Invalid?, InvalidJson),
     Rule(r.body.Batch?, BatchNotObserved),
     Rule(r.body.Single? && (r.body.call.rpc.None? || r.body.call.rpc.value !in t.methods), MethodNotObserved)]
    + if r.body.Single? then MethodRules(t, r.body.call) else []
  }

  function ReasonIn(v: Verdict): Option<Reason> {
    if v.Reject? then Some(v.reason) else None
  }

  lemma CallsRefusedInOrder(t: Tables, c: Call)
    ensures FirstBroken(CallRules(t, c.name, c.arguments), ReasonIn(DecideTool(t, c)))
  {
    var v := DecideTool(t, c);
    if v.Reject? {
      var k := match v.reason case ToolNotObserved => 0 case ArgumentNotObserved => 1 case _ => 2;
      assert BrokenFirst(CallRules(t, c.name, c.arguments), k);
    }
  }

  /** The decision on every request: the first rule it breaks gives the reason, and one that breaks none is accepted. */
  lemma DecidedInOrder(t: Tables, r: Request)
    ensures FirstBroken(DecisionRules(t, r), ReasonIn(Decide(t, r)))
  {
    var front := DecisionRules(t, r)[..4];
    var first :=
      if r.path !in t.paths then Some(PathNotObserved) else if r.body.Invalid? then Some(InvalidJson)
      else if r.body.Batch? then Some(BatchNotObserved)
      else if r.body.call.rpc.None? || r.body.call.rpc.value !in t.methods then Some(MethodNotObserved) else None;
    if first.Some? {
      var k := match first.value case PathNotObserved => 0 case InvalidJson => 1 case BatchNotObserved => 2 case _ => 3;
      assert BrokenFirst(DecisionRules(t, r), k);
    } else {
      MethodRefusedInOrder(t, r.body.call);
      var second := MethodReason(t, r.body.call);
      FirstOfBoth(front, MethodRules(t, r.body.call), first, second);
      assert DecisionRules(t, r) == front + MethodRules(t, r.body.call);
    }
  }

  function MethodReason(t: Tables, c: Call): Option<Reason>
    requires c.rpc.Some?
  {
    if c.rpc.value == TOOLS_CALL && DecideTool(t, c).Reject? then Some(DecideTool(t, c).reason)
    else if !CheckedTarget(c).Absent? && !TargetAllowed(t, c.rpc.value, CheckedTarget(c)) then Some(TargetNotObserved)
    else None
  }

  lemma MethodRefusedInOrder(t: Tables, c: Call)
    requires c.rpc.Some?
    ensures FirstBroken(MethodRules(t, c), MethodReason(t, c))
  {
    CallsRefusedInOrder(t, c);
    if MethodReason(t, c) == Some(TargetNotObserved) {
      assert BrokenFirst(MethodRules(t, c), 0);
    }
  }
}
