/**
  Amending a policy on its own rejection of one request, round after round: when that ends in
  acceptance.
 */
module AmendmentRounds {
  import opened Options
  import opened LearnedPolicy
  import opened PolicyAmendment
  import opened Redactions

  /** One round: run the compiled policy on the request and amend the reloaded tables on its own rejection. */
  function Round(t: Tables, r: Request, redact: Redaction, allowRisky: bool): Tables {
    match Decide(t, r)
    case Accept => t
    case Reject(reason) =>
      Amend(Draft(Reloaded(ManifestOf(t)), []), EventOf(r, redact, false, reason), allowRisky, BlockedEvents).tables
  }

  function Rounds(t: Tables, r: Request, redact: Redaction, allowRisky: bool, n: nat): Tables {
    if n == 0 then t else Round(Rounds(t, r, redact, allowRisky, n - 1), r, redact, allowRisky)
  }

  /** The redaction shows this name as it is. */
  predicate Shown(name: string, redact: Redaction) {
    name != "" && redact(name) == name
  }

  /** Each obstacle to the request is one that amendment can remove, read off the request and the tables at hand. */
  predicate Amendable(t: Tables, r: Request, redact: Redaction, allowRisky: bool) {
    && (r.path in t.paths || Shown(r.path, redact))
    && r.body.Single? && r.body.call.rpc.Some?
    && var c := r.body.call;
       && (c.rpc.value in t.methods || Shown(c.rpc.value, redact))
       && if c.rpc.value == TOOLS_CALL then ToolAmendable(t, c, redact, allowRisky) else TargetAmendable(t, c, redact)
  }

  predicate ToolAmendable(t: Tables, c: Call, redact: Redaction, allowRisky: bool) {
    && c.name.Text?
    && (c.name.text in t.tools || (Shown(c.name.text, redact) && (allowRisky || !Risky(c.name.text))))
    && match c.arguments
       case Object(names) => Shown(c.name.text, redact) || Names(names) <= KeysOf(t, c.name.text)
       case Array(isEmpty) => isEmpty
       case NoTable => KeysOf(t, c.name.text) == {}
  }

  /** The log shows the target that is checked, under a method of the same kind. */
  predicate TargetShown(c: Call, redact: Redaction)
    requires c.rpc.Some?
  {
    && CheckedTarget(c) == Text(redact(LoggedTarget(c))) && LoggedTarget(c) != ""
    && (IsResourceMethod(c.rpc.value) ==> IsResourceMethod(redact(c.rpc.value)))
    && (c.rpc.value == PROMPTS_GET ==> redact(c.rpc.value) == PROMPTS_GET)
  }

  predicate TargetAmendable(t: Tables, c: Call, redact: Redaction)
    requires c.rpc.Some?
  {
    CheckedTarget(c).Absent? || TargetAllowed(t, c.rpc.value, CheckedTarget(c)) || TargetShown(c, redact)
  }

  /** How many of the three checks still fail. */
  function Lack(t: Tables, r: Request): nat {
    (if r.path in t.paths then 0 else 1)
    + if !r.body.Single? || r.body.call.rpc.None? then 2
      else
        var c := r.body.call;
        (if c.rpc.value in t.methods then 0 else 1)
        + (if c.rpc.value == TOOLS_CALL then (if DecideTool(t, c).Accept? then 0 else 1)
           else if CheckedTarget(c).Absent? || TargetAllowed(t, c.rpc.value, CheckedTarget(c)) then 0 else 1)
  }

  /** What the entries asked for by an event are, on tables that agree with the ones at hand. */
  function Wanted(t: Tables, r: Request, redact: Redaction, reason: Reason, allowRisky: bool): seq<Item> {
    BlockedItems(Reloaded(ManifestOf(t)), EventOf(r, redact, false, reason), allowRisky)
  }

  lemma RoundHas(t: Tables, r: Request, redact: Redaction, allowRisky: bool, it: Item)
    requires t.paths != {}
    ensures Has(Round(t, r, redact, allowRisky), it) <==>
      Has(t, it) || (Decide(t, r).Reject? && it in Wanted(t, r, redact, Decide(t, r).reason, allowRisky))
  {
    if Decide(t, r).Reject? {
      var reason := Decide(t, r).reason;
      RoundTripKeepsItems(t, it);
      GrantAllHas(Draft(Reloaded(ManifestOf(t)), []), Wanted(t, r, redact, reason, allowRisky), reason, it);
    }
  }

  /** A round takes entries away from no request, and brings only entries of this one. */
  lemma RoundGrows(t: Tables, r: Request, redact: Redaction, allowRisky: bool)
    requires t.paths != {}
    ensures forall it :: Has(t, it) ==> Has(Round(t, r, redact, allowRisky), it)
    ensures Round(t, r, redact, allowRisky).paths != {}
  {
    forall it ensures Has(t, it) ==> Has(Round(t, r, redact, allowRisky), it) {
      RoundHas(t, r, redact, allowRisky, it);
    }
    var p :| p in t.paths;
    assert Has(t, Path(p));
    RoundHas(t, r, redact, allowRisky, Path(p));
  }

  predicate NamedKey(c: Call, redact: Redaction, tool: string, key: string) {
    c.name.Text? && tool == redact(c.name.text) && tool != "" && c.arguments.Object? && key in c.arguments.names
  }

  /** The entries a round can bring are ones that amendment is free to grant to this request, as the log shows it. */
  predicate Grantable(t: Tables, r: Request, redact: Redaction, allowRisky: bool, it: Item) {
    if it.Path? then it.value == redact(r.path) && r.path != ""
    else r.body.Single? && r.body.call.rpc.Some? && CallGrantable(t, r.body.call, redact, allowRisky, it)
  }

  predicate CallGrantable(t: Tables, c: Call, redact: Redaction, allowRisky: bool, it: Item)
    requires c.rpc.Some?
  {
    match it
    case Method(v) => (v == redact(c.rpc.value) && v != "") || v in t.methods
    case Tool(v) =>
      c.rpc == Some(TOOLS_CALL) && c.name.Text? && v == redact(c.name.text) && v != "" && (v in t.tools || allowRisky || !Risky(v))
    case ArgumentKey(tool, v) => c.rpc == Some(TOOLS_CALL) && NamedKey(c, redact, tool, v)
    case Resource(v) => IsResourceMethod(redact(c.rpc.value)) && v == redact(LoggedTarget(c)) && v != ""
    case Prompt(v) => redact(c.rpc.value) == PROMPTS_GET && v == redact(LoggedTarget(c)) && v != ""
    case Path(_) => false
  }

  lemma WantedIsGrantable(t: Tables, r: Request, redact: Redaction, reason: Reason, allowRisky: bool, it: Item)
    requires it in Wanted(t, r, redact, reason, allowRisky) && Decide(t, r) == Reject(reason)
    ensures Grantable(t, r, redact, allowRisky, it)
  {
    var e := EventOf(r, redact, false, reason);
    var keys := KeyItems(e.tool, e.argumentKeys);
    if it.ArgumentKey? {
      assert it in keys;
      var i :| 0 <= i < |keys| && keys[i] == it;
      assert it == ArgumentKey(e.tool, e.argumentKeys[i]);
    }
  }

  lemma NoKeysStayAway(t: Tables, r: Request, redact: Redaction, allowRisky: bool)
    requires t.paths != {} && WantsNoKeys(r)
    ensures forall tool :: KeysOf(Round(t, r, redact, allowRisky), tool) == KeysOf(t, tool)
  {
    forall tool, v
      ensures v in KeysOf(Round(t, r, redact, allowRisky), tool) <==> v in KeysOf(t, tool)
    {
      RoundHas(t, r, redact, allowRisky, ArgumentKey(tool, v));
      if Decide(t, r).Reject? && ArgumentKey(tool, v) in Wanted(t, r, redact, Decide(t, r).reason, allowRisky) {
        WantedIsGrantable(t, r, redact, Decide(t, r).reason, allowRisky, ArgumentKey(tool, v));
      }
    }
  }

  ghost predicate Larger(t: Tables, u: Tables, r: Request) {
    && t.paths <= u.paths && t.methods <= u.methods && t.tools <= u.tools
    && t.resources <= u.resources && t.prompts <= u.prompts
    && (forall tool :: KeysOf(t, tool) <= KeysOf(u, tool))
    && (WantsNoKeys(r) ==> forall tool :: KeysOf(u, tool) == KeysOf(t, tool))
  }

  lemma RoundIsLarger(t: Tables, r: Request, redact: Redaction, allowRisky: bool)
    requires t.paths != {}
    ensures Larger(t, Round(t, r, redact, allowRisky), r) && Round(t, r, redact, allowRisky).paths != {}
  {
    RoundGrows(t, r, redact, allowRisky);
    var u := Round(t, r, redact, allowRisky);
    forall v | v in t.paths ensures v in u.paths { assert Has(t, Path(v)); }
    forall v | v in t.methods ensures v in u.methods { assert Has(t, Method(v)); }
    forall v | v in t.tools ensures v in u.tools { assert Has(t, Tool(v)); }
    forall v | v in t.resources ensures v in u.resources { assert Has(t, Resource(v)); }
    forall v | v in t.prompts ensures v in u.prompts { assert Has(t, Prompt(v)); }
    forall tool, v | v in KeysOf(t, tool) ensures v in KeysOf(u, tool) { assert Has(t, ArgumentKey(tool, v)); }
    if WantsNoKeys(r) { NoKeysStayAway(t, r, redact, allowRisky); }
  }

  lemma LargerKeepsAmendable(t: Tables, u: Tables, r: Request, redact: Redaction, allowRisky: bool)
    requires Larger(t, u, r) && Amendable(t, r, redact, allowRisky)
    ensures Amendable(u, r, redact, allowRisky) && Lack(u, r) <= Lack(t, r)
    ensures r.path in u.paths && r.path !in t.paths ==> Lack(u, r) < Lack(t, r)
    ensures r.body.call.rpc.value in u.methods && r.body.call.rpc.value !in t.methods ==> Lack(u, r) < Lack(t, r)
  {
  }

  lemma HiddenToolIsDecided(t: Tables, r: Request, redact: Redaction, allowRisky: bool)
    requires Amendable(t, r, redact, allowRisky) && r.body.call.rpc.value == TOOLS_CALL
    ensures !Shown(r.body.call.name.text, redact) ==> DecideTool(t, r.body.call).Accept?
  {
    assert r.body.call.arguments.Object? ==>
      forall i :: 0 <= i < |r.body.call.arguments.names| ==> r.body.call.arguments.names[i] in Names(r.body.call.arguments.names);
  }

  /** A rejected call of an amendable tool gets each of its argument names granted. */
  lemma KeyRound(t: Tables, r: Request, redact: Redaction, allowRisky: bool, i: nat)
    requires t.paths != {} && Amendable(t, r, redact, allowRisky) && r.body.call.rpc.value == TOOLS_CALL
    requires Decide(t, r).Reject? && DecideTool(t, r.body.call) == Decide(t, r)
    requires r.body.call.arguments.Object? && i < |r.body.call.arguments.names|
    ensures r.body.call.arguments.names[i] in KeysOf(Round(t, r, redact, allowRisky), r.body.call.name.text)
  {
    var c := r.body.call;
    var reason := Decide(t, r).reason;
    var it := ArgumentKey(c.name.text, c.arguments.names[i]);
    RoundHas(t, r, redact, allowRisky, it);
    HiddenToolIsDecided(t, r, redact, allowRisky);
    if Shown(c.name.text, redact) {
      assert Wanted(t, r, redact, reason, allowRisky)[if reason == ToolNotObserved then 2 + i else 1 + i] == it;
    }
  }

  lemma ToolRound(t: Tables, r: Request, redact: Redaction, allowRisky: bool)
    requires t.paths != {} && Amendable(t, r, redact, allowRisky) && r.body.call.rpc.value == TOOLS_CALL
    requires Decide(t, r).Reject? && DecideTool(t, r.body.call) == Decide(t, r)
    ensures DecideTool(Round(t, r, redact, allowRisky), r.body.call).Accept?
  {
    var c, u := r.body.call, Round(t, r, redact, allowRisky);
    var reason := Decide(t, r).reason;
    RoundIsLarger(t, r, redact, allowRisky);
    RoundHas(t, r, redact, allowRisky, Tool(c.name.text));
    if reason == ToolNotObserved {
      assert Wanted(t, r, redact, reason, allowRisky)[1] == Tool(c.name.text);
    }
    if c.arguments.Object? {
      forall i | 0 <= i < |c.arguments.names|
        ensures c.arguments.names[i] in KeysOf(u, c.name.text)
      {
        KeyRound(t, r, redact, allowRisky, i);
      }
    }
  }

  lemma TargetRound(t: Tables, r: Request, redact: Redaction, allowRisky: bool)
    requires t.paths != {} && Amendable(t, r, redact, allowRisky) && Decide(t, r) == Reject(TargetNotObserved)
    ensures TargetAllowed(Round(t, r, redact, allowRisky), r.body.call.rpc.value, CheckedTarget(r.body.call))
    ensures r.body.call.rpc.value != TOOLS_CALL
  {
    var target := redact(LoggedTarget(r.body.call));
    var it := if IsResourceMethod(r.body.call.rpc.value) then Resource(target) else Prompt(target);
    RoundHas(t, r, redact, allowRisky, it);
    assert Wanted(t, r, redact, TargetNotObserved, allowRisky)[0] == it;
  }

  lemma RoundMakesProgress(t: Tables, r: Request, redact: Redaction, allowRisky: bool)
    requires t.paths != {} && Amendable(t, r, redact, allowRisky) && Decide(t, r) != Accept
    ensures Lack(Round(t, r, redact, allowRisky), r) < Lack(t, r)
    ensures Amendable(Round(t, r, redact, allowRisky), r, redact, allowRisky) && Round(t, r, redact, allowRisky).paths != {}
  {
    RoundIsLarger(t, r, redact, allowRisky);
    LargerKeepsAmendable(t, Round(t, r, redact, allowRisky), r, redact, allowRisky);
    match Decide(t, r).reason {
      case PathNotObserved =>
        RoundHas(t, r, redact, allowRisky, Path(r.path));
        assert Wanted(t, r, redact, PathNotObserved, allowRisky)[0] == Path(r.path);
      case MethodNotObserved =>
        var m := r.body.call.rpc.value;
        RoundHas(t, r, redact, allowRisky, Method(m));
        assert Wanted(t, r, redact, MethodNotObserved, allowRisky)[0] == Method(m);
      case TargetNotObserved => TargetRound(t, r, redact, allowRisky);
      case _ => ToolRound(t, r, redact, allowRisky);
    }
  }

  lemma {:induction false} WithinThreeRounds(t: Tables, r: Request, redact: Redaction, allowRisky: bool, n: nat)
    requires t.paths != {} && Amendable(t, r, redact, allowRisky)
    ensures var u := Rounds(t, r, redact, allowRisky, n);
      && u.paths != {} && Amendable(u, r, redact, allowRisky)
      && (Decide(u, r) == Accept || Lack(u, r) + n <= Lack(t, r))
  {
    if n > 0 {
      WithinThreeRounds(t, r, redact, allowRisky, n - 1);
      var u := Rounds(t, r, redact, allowRisky, n - 1);
      if Decide(u, r) != Accept { RoundMakesProgress(u, r, redact, allowRisky); }
    }
  }

  lemma RoundKeepsUnamendable(t: Tables, r: Request, redact: Redaction, allowRisky: bool)
    requires t.paths != {} && !Amendable(t, r, redact, allowRisky)
    ensures !Amendable(Round(t, r, redact, allowRisky), r, redact, allowRisky)
  {
    if Amendable(Round(t, r, redact, allowRisky), r, redact, allowRisky) {
      var c := r.body.call;
      BroughtIsGrantable(t, r, redact, allowRisky, Path(r.path));
      BroughtIsGrantable(t, r, redact, allowRisky, Method(c.rpc.value));
      if c.rpc.value == TOOLS_CALL {
        ToolWasAmendable(t, r, redact, allowRisky);
      } else if CheckedTarget(c).Text? {
        BroughtIsGrantable(t, r, redact, allowRisky, Resource(CheckedTarget(c).text));
        BroughtIsGrantable(t, r, redact, allowRisky, Prompt(CheckedTarget(c).text));
      }
    }
  }

  lemma BroughtIsGrantable(t: Tables, r: Request, redact: Redaction, allowRisky: bool, it: Item)
    requires t.paths != {}
    ensures Has(Round(t, r, redact, allowRisky), it) ==> Has(t, it) || Grantable(t, r, redact, allowRisky, it)
  {
    RoundHas(t, r, redact, allowRisky, it);
    if Decide(t, r).Reject? && it in Wanted(t, r, redact, Decide(t, r).reason, allowRisky) {
      WantedIsGrantable(t, r, redact, Decide(t, r).reason, allowRisky, it);
    }
  }

  lemma ToolWasAmendable(t: Tables, r: Request, redact: Redaction, allowRisky: bool)
    requires t.paths != {} && r.body.Single? && r.body.call.rpc == Some(TOOLS_CALL)
    requires ToolAmendable(Round(t, r, redact, allowRisky), r.body.call, redact, allowRisky)
    ensures ToolAmendable(t, r.body.call, redact, allowRisky)
  {
    var c := r.body.call;
    BroughtIsGrantable(t, r, redact, allowRisky, Tool(c.name.text));
    match c.arguments
    case Object(names) =>
      forall v | v in Names(names) && !Shown(c.name.text, redact)
        ensures v in KeysOf(t, c.name.text)
      {
        BroughtIsGrantable(t, r, redact, allowRisky, ArgumentKey(c.name.text, v));
      }
    case Array(_) =>
    case NoTable => NoKeysStayAway(t, r, redact, allowRisky);
  }

  lemma {:induction false} NeverWithoutAmendable(t: Tables, r: Request, redact: Redaction, allowRisky: bool, n: nat)
    requires t.paths != {} && !Amendable(t, r, redact, allowRisky)
    ensures var u := Rounds(t, r, redact, allowRisky, n);
      u.paths != {} && !Amendable(u, r, redact, allowRisky) && Decide(u, r) != Accept
  {
    if n > 0 {
      NeverWithoutAmendable(t, r, redact, allowRisky, n - 1);
      var u := Rounds(t, r, redact, allowRisky, n - 1);
      RoundIsLarger(u, r, redact, allowRisky);
      RoundKeepsUnamendable(u, r, redact, allowRisky);
    }
    if Decide(Rounds(t, r, redact, allowRisky, n), r) == Accept { AcceptedIsAmendable(Rounds(t, r, redact, allowRisky, n), r, redact, allowRisky); }
  }

  lemma AcceptedIsAmendable(t: Tables, r: Request, redact: Redaction, allowRisky: bool)
    requires Decide(t, r) == Accept
    ensures Amendable(t, r, redact, allowRisky)
  {
    AcceptsExactly(t, r);
    var c := r.body.call;
    if c.rpc.value == TOOLS_CALL && c.arguments.Object? {
      forall v | v in Names(c.arguments.names) ensures v in KeysOf(t, c.name.text) {
        assert Needs(r, ArgumentKey(c.name.text, v));
      }
    }
  }

  /**
    Convergence: running the policy on a request and amending on its own rejection, through the
    manifest each time, reaches acceptance within three rounds, and stays there, if and only if
    every obstacle is one that amendment can remove; otherwise no number of rounds does.
   */
  lemma Converges(t: Tables, r: Request, redact: Redaction, allowRisky: bool, n: nat)
    requires t.paths != {}
    ensures Amendable(t, r, redact, allowRisky) && n >= 3 ==> Decide(Rounds(t, r, redact, allowRisky, n), r) == Accept
    ensures !Amendable(t, r, redact, allowRisky) ==> Decide(Rounds(t, r, redact, allowRisky, n), r) != Accept
  {
    if Amendable(t, r, redact, allowRisky) {
      WithinThreeRounds(t, r, redact, allowRisky, n);
      var u := Rounds(t, r, redact, allowRisky, n);
      assert Lack(u, r) == 0 ==> Decide(u, r) == Accept;
    } else {
      NeverWithoutAmendable(t, r, redact, allowRisky, n);
    }
  }

  /** In particular every well-formed, legible request with agreeing targets and a tool that may be granted converges. */
  lemma WellFormedConverges(t: Tables, r: Request, redact: Redaction, allowRisky: bool)
    requires t.paths != {} && WellFormed(r) && Legible(r, redact) && ObjectArguments(r) && TargetsAgree(r, redact)
    requires r.body.call.rpc.value == TOOLS_CALL ==> allowRisky || !Risky(r.body.call.name.text)
    ensures Decide(Rounds(t, r, redact, allowRisky, 3), r) == Accept
  {
    Converges(t, r, redact, allowRisky, 3);
  }

  /** A tool whose name the log does not show, and that is not in the tables yet, is never admitted by amending. */
  lemma HiddenToolNeverConverges(t: Tables, path: string, tool: string, arguments: Arguments, redact: Redaction, allowRisky: bool, n: nat)
    requires t.paths != {} && tool !in t.tools && redact(tool) != tool
    ensures Decide(Rounds(t, ToolCall(path, tool, arguments), redact, allowRisky, n), ToolCall(path, tool, arguments)) != Accept
  {
    Converges(t, ToolCall(path, tool, arguments), redact, allowRisky, n);
  }

  /** For one, a tool called get-secret. */
  lemma GetSecretNeverConverges(t: Tables, path: string, arguments: Arguments, allowRisky: bool, n: nat)
    requires t.paths != {} && "get-secret" !in t.tools
    ensures KeepsEmptiness(MaskName)
    ensures var r := ToolCall(path, "get-secret", arguments); Decide(Rounds(t, r, MaskName, allowRisky, n), r) != Accept
  {
    MaskNameIsRedaction();
    GetSecretIsMasked();
    HiddenToolNeverConverges(t, path, "get-secret", arguments, MaskName, allowRisky, n);
  }

  /** A resource read whose name is not the uri the log shows is never admitted either, unless its name is allowed already. */
  lemma NamedReadNeverConverges(t: Tables, path: string, name: string, uri: string, redact: Redaction, allowRisky: bool, n: nat)
    requires t.paths != {} && name !in t.resources && redact(uri) != name
    ensures var r := Request(path, Single(Call(Some("resources/read"), Text(name), Text(uri), NoTable)));
      Decide(Rounds(t, r, redact, allowRisky, n), r) != Accept
  {
    Converges(t, Request(path, Single(Call(Some("resources/read"), Text(name), Text(uri), NoTable))), redact, allowRisky, n);
  }
}
