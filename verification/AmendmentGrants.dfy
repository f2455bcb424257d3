/**
  What an amendment grants, over whole logs, by what the events show: an entry is new if and only
  if some event of the log asks for it.
 */
module AmendmentGrants {
  import opened Options
  import opened Redactions
  import opened LearnedPolicy
  import opened LearnedRules
  import opened PolicyAmendment

  // ---------------------------------------------------------------------------------
  // Dangerous names
  // ---------------------------------------------------------------------------------

  /** The same letter in either case, or a dash for an underscore. */
  predicate SameLetter(c: char, letter: char) {
    c == letter || ('A' <= c <= 'Z' && c - 'A' + 'a' == letter) || (c == '-' && letter == '_')
  }

  predicate ReadsAt(tool: string, term: string, k: nat) {
    k + |term| <= |tool| && forall i :: 0 <= i < |term| ==> SameLetter(tool[k + i], term[i])
  }

  predicate Mentions(tool: string, term: string) {
    exists k :: 0 <= k <= |tool| && ReadsAt(tool, term, k)
  }

  predicate Dangerous(tool: string) {
    Mentions(tool, "shell") || Mentions(tool, "exec") || Mentions(tool, "command")
    || Mentions(tool, "terminal") || Mentions(tool, "subprocess") || Mentions(tool, "process_spawn")
  }

  predicate Plain(term: string) {
    forall i :: 0 <= i < |term| ==> 'a' <= term[i] <= 'z' || term[i] == '_'
  }

  function NormalName(tool: string): (s: string)
    ensures |s| == |tool|
  {
    seq(|tool|, i requires 0 <= i < |tool| => Normalized(tool[i]))
  }

  predicate OccursAt(s: string, term: string, k: nat) {
    k + |term| <= |s| && s[k..k + |term|] == term
  }

  lemma {:induction false} ContainsIs(s: string, term: string)
    ensures Contains(s, term) <==> exists k :: 0 <= k <= |s| && OccursAt(s, term, k)
  {
    if term <= s {
      assert OccursAt(s, term, 0);
    } else if s != "" {
      ContainsIs(s[1..], term);
      if Contains(s, term) {
        var k :| 0 <= k <= |s[1..]| && OccursAt(s[1..], term, k);
        assert s[1 + k..1 + k + |term|] == s[1..][k..k + |term|];
        assert OccursAt(s, term, 1 + k);
      } else {
        forall k | 0 <= k <= |s| ensures !OccursAt(s, term, k) {
          if OccursAt(s, term, k) {
            assert k > 0 || term <= s;
            assert s[1..][k - 1..k - 1 + |term|] == s[k..k + |term|];
            assert OccursAt(s[1..], term, k - 1);
          }
        }
      }
    }
  }

  lemma OccursWhereItReads(tool: string, term: string, k: nat)
    requires Plain(term)
    ensures OccursAt(NormalName(tool), term, k) <==> ReadsAt(tool, term, k)
  {
    var s := NormalName(tool);
    if k + |term| <= |tool| {
      forall i | 0 <= i < |term| ensures s[k..k + |term|][i] == term[i] <==> SameLetter(tool[k + i], term[i]) {}
    }
  }

  lemma MentionsIs(tool: string, term: string)
    requires Plain(term)
    ensures Contains(NormalName(tool), term) <==> Mentions(tool, term)
  {
    ContainsIs(NormalName(tool), term);
    forall k: nat | k <= |tool| ensures OccursAt(NormalName(tool), term, k) <==> ReadsAt(tool, term, k) {
      OccursWhereItReads(tool, term, k);
    }
  }

  /** A tool is risky exactly if its name mentions one of six terms, in any case and with dashes for underscores. */
  lemma RiskyIsDangerous(tool: string)
    ensures Risky(tool) <==> Dangerous(tool)
  {
    MentionsIs(tool, "shell");
    MentionsIs(tool, "exec");
    MentionsIs(tool, "command");
    MentionsIs(tool, "terminal");
    MentionsIs(tool, "subprocess");
    MentionsIs(tool, "process_spawn");
  }

  // ---------------------------------------------------------------------------------
  // What an event asks for
  // ---------------------------------------------------------------------------------

  predicate Free(tool: string, allowRisky: bool) {
    allowRisky || !Dangerous(tool)
  }

  predicate AboutArguments(reason: Reason) {
    reason == ArgumentNotObserved || reason == ArgumentsMissing
  }

  /** An approved confirmation asks for all that it shows, but for a dangerous tool only with consent. */
  predicate ApprovalAsks(e: Event, it: Item, allowRisky: bool) {
    e.approved && Shows(e, it) && (it.Tool? ==> Free(it.value, allowRisky)) && (it.ArgumentKey? ==> Free(it.tool, allowRisky))
  }

  /** A blocked event asks for what its reason names, and for no dangerous tool, new to the policy, without consent. */
  predicate BlockAsks(before: Tables, e: Event, it: Item, allowRisky: bool) {
    !e.allowed
    && match it
       case Path(v) => e.reason == PathNotObserved && v != "" && e.path == v
       case Method(v) =>
         || (e.reason == MethodNotObserved && v != "" && e.rpc == v)
         || (e.reason == ToolNotObserved && v == "tools/call" && e.tool != "" && Free(e.tool, allowRisky))
       case Tool(v) => v != "" && e.tool == v && Free(v, allowRisky) && (e.reason == ToolNotObserved || AboutArguments(e.reason))
       case ArgumentKey(tool, v) =>
         && tool != "" && e.tool == tool && v in e.argumentKeys
         && ((e.reason == ToolNotObserved && Free(tool, allowRisky))
             || (AboutArguments(e.reason) && (tool in before.tools || Free(tool, allowRisky))))
       case Resource(v) => e.reason == TargetNotObserved && v != "" && e.target == v && ReadsResource(e.rpc)
       case Prompt(v) => e.reason == TargetNotObserved && v != "" && e.target == v && e.rpc == "prompts/get"
  }

  predicate Asks(before: Tables, e: Event, it: Item, allowRisky: bool, source: Source) {
    if source.ApprovedConfirmations? then ApprovalAsks(e, it, allowRisky) else BlockAsks(before, e, it, allowRisky)
  }

  ghost predicate AskedFor(before: Tables, events: seq<Event>, it: Item, allowRisky: bool, source: Source) {
    exists i :: 0 <= i < |events| && Asks(before, events[i], it, allowRisky, source)
  }

  lemma KeyItemsHave(tool: string, names: seq<string>, it: Item)
    ensures it in KeyItems(tool, names) <==> it.ArgumentKey? && it.tool == tool && it.value in names
  {
    var items := KeyItems(tool, names);
    if it in items {
      var i :| 0 <= i < |items| && items[i] == it;
    }
    if it.ArgumentKey? && it.tool == tool && it.value in names {
      var i :| 0 <= i < |names| && names[i] == it.value;
      assert items[i] == it;
    }
  }

  /** The tables at hand agree with the first ones on dangerous tools, unless there is consent. */
  predicate AgreeOnDanger(before: Tables, t: Tables, tool: string, allowRisky: bool) {
    (tool in before.tools ==> tool in t.tools) && (!allowRisky && tool in t.tools ==> tool in before.tools || !Risky(tool))
  }

  lemma ApprovedItemsAre(before: Tables, e: Event, it: Item, allowRisky: bool)
    ensures it in ApprovedItems(e, allowRisky) <==> ApprovalAsks(e, it, allowRisky)
  {
    KeyItemsHave(e.tool, e.argumentKeys, it);
    RiskyIsDangerous(e.tool);
    KindsDiffer(e.rpc);
  }

  /** Either the event asks for an entry that is there, or for just what it is said to ask for. */
  lemma BlockedItemsAre(before: Tables, t: Tables, e: Event, it: Item, allowRisky: bool)
    requires AgreeOnDanger(before, t, e.tool, allowRisky)
    ensures Has(t, it) || (it in BlockedItems(t, e, allowRisky) <==> BlockAsks(before, e, it, allowRisky))
  {
    KeyItemsHave(e.tool, e.argumentKeys, it);
    RiskyIsDangerous(e.tool);
    KindsDiffer(e.rpc);
  }

  lemma AskedOneMore(before: Tables, events: seq<Event>, it: Item, allowRisky: bool, source: Source)
    requires events != []
    ensures AskedFor(before, events, it, allowRisky, source) <==>
      AskedFor(before, events[..|events| - 1], it, allowRisky, source) || Asks(before, events[|events| - 1], it, allowRisky, source)
  {
    var n := |events| - 1;
    if AskedFor(before, events, it, allowRisky, source) {
      var i :| 0 <= i < |events| && Asks(before, events[i], it, allowRisky, source);
      assert i < n ==> events[..n][i] == events[i];
    }
    if AskedFor(before, events[..n], it, allowRisky, source) {
      var i :| 0 <= i < n && Asks(before, events[..n][i], it, allowRisky, source);
      assert Asks(before, events[i], it, allowRisky, source);
    }
  }

  /** After a whole log the tables hold what they held and what the log asks for. */
  lemma {:induction false} AmendedHolds(before: Tables, events: seq<Event>, allowRisky: bool, source: Source, it: Item)
    ensures Has(AmendAll(Draft(before, []), events, allowRisky, source).tables, it) <==>
      Has(before, it) || AskedFor(before, events, it, allowRisky, source)
  {
    if events != [] {
      var front, e := events[..|events| - 1], events[|events| - 1];
      var d := AmendAll(Draft(before, []), front, allowRisky, source);
      AmendedHolds(before, front, allowRisky, source, it);
      GrantAllHas(d, Items(d.tables, e, allowRisky, source), e.reason, it);
      AskedOneMore(before, events, it, allowRisky, source);
      if source.ApprovedConfirmations? {
        ApprovedItemsAre(before, e, it, allowRisky);
      } else {
        DangerStays(before, front, allowRisky, source, e.tool);
        BlockedItemsAre(before, d.tables, e, it, allowRisky);
      }
    }
  }

  lemma DangerStays(before: Tables, events: seq<Event>, allowRisky: bool, source: Source, tool: string)
    ensures AgreeOnDanger(before, AmendAll(Draft(before, []), events, allowRisky, source).tables, tool, allowRisky)
  {
    AdditionsAreTheDifference(before, events, allowRisky, source);
    assert tool in before.tools ==> Has(before, Tool(tool));
    if !allowRisky { RiskyToolsNeedConsent(before, events, source, tool); }
  }

  /**
    What an amendment adds, on every log of either kind: an entry is reported as added if and only
    if it was not there and some event of the log asks for it.
   */
  lemma AddedExactly(before: Tables, events: seq<Event>, allowRisky: bool, source: Source, it: Item)
    ensures Listed(AmendAll(Draft(before, []), events, allowRisky, source).additions, it) <==>
      !Has(before, it) && AskedFor(before, events, it, allowRisky, source)
  {
    AdditionsAreTheDifference(before, events, allowRisky, source);
    AmendedHolds(before, events, allowRisky, source, it);
  }

  predicate ReasonOf(before: Tables, e: Event, a: Addition, allowRisky: bool, source: Source) {
    Asks(before, e, a.item, allowRisky, source) && e.reason == a.reason
  }

  ghost predicate Explained(before: Tables, events: seq<Event>, a: Addition, allowRisky: bool, source: Source) {
    exists i :: 0 <= i < |events| && ReasonOf(before, events[i], a, allowRisky, source)
  }

  lemma {:induction false} GrantedFor(d: Draft, items: seq<Item>, reason: Reason, a: Addition)
    requires a in GrantAll(d, items, reason).additions
    ensures a in d.additions || (a.item in items && a.reason == reason && !Has(d.tables, a.item))
  {
    if items != [] {
      var front, last := items[..|items| - 1], items[|items| - 1];
      var was := GrantAll(d, front, reason);
      assert items == front + [last];
      GrantAllHas(d, front, reason, last);
      if a in was.additions { GrantedFor(d, front, reason, a); }
    }
  }

  /** The reason reported with an addition is that of an event asking for it. */
  lemma {:induction false} AdditionsAreExplained(before: Tables, events: seq<Event>, allowRisky: bool, source: Source, a: Addition)
    requires a in AmendAll(Draft(before, []), events, allowRisky, source).additions
    ensures Explained(before, events, a, allowRisky, source)
  {
    if events != [] {
      var front, e := events[..|events| - 1], events[|events| - 1];
      var d := AmendAll(Draft(before, []), front, allowRisky, source);
      GrantedFor(d, Items(d.tables, e, allowRisky, source), e.reason, a);
      if a in d.additions {
        AdditionsAreExplained(before, front, allowRisky, source, a);
        var i :| 0 <= i < |front| && ReasonOf(before, front[i], a, allowRisky, source);
        assert ReasonOf(before, events[i], a, allowRisky, source);
      } else {
        DangerStays(before, front, allowRisky, source, e.tool);
        ApprovedItemsAre(before, e, a.item, allowRisky);
        BlockedItemsAre(before, d.tables, e, a.item, allowRisky);
        assert ReasonOf(before, events[|events| - 1], a, allowRisky, source);
      }
    }
  }

  /** The event asks for this dangerous tool and nobody has consented. */
  predicate AsksInVain(before: Tables, e: Event, tool: string, allowRisky: bool, source: Source) {
    && e.tool == tool != "" && !Free(tool, allowRisky)
    && if source.ApprovedConfirmations? then e.approved && e.rpc == "tools/call"
       else !e.allowed && (e.reason == ToolNotObserved || (AboutArguments(e.reason) && tool !in before.tools))
  }

  ghost predicate AskedInVain(before: Tables, events: seq<Event>, tool: string, allowRisky: bool, source: Source) {
    exists i :: 0 <= i < |events| && AsksInVain(before, events[i], tool, allowRisky, source)
  }

  lemma RefusedIs(before: Tables, t: Tables, e: Event, tool: string, allowRisky: bool, source: Source)
    requires AgreeOnDanger(before, t, e.tool, allowRisky)
    ensures Refused(t, e, allowRisky, source) == Some(tool) <==> AsksInVain(before, e, tool, allowRisky, source)
  {
    RiskyIsDangerous(e.tool);
  }

  predicate NoRepeats(names: seq<string>) {
    forall i, j :: 0 <= i < j < |names| ==> names[i] != names[j]
  }

  lemma NotedHas(rejected: seq<string>, noted: Option<string>, tool: string)
    requires NoRepeats(rejected)
    ensures tool in Noted(rejected, noted) <==> tool in rejected || noted == Some(tool)
    ensures NoRepeats(Noted(rejected, noted))
  {
  }

  lemma VainOneMore(before: Tables, events: seq<Event>, tool: string, allowRisky: bool, source: Source)
    requires events != []
    ensures AskedInVain(before, events, tool, allowRisky, source) <==>
      AskedInVain(before, events[..|events| - 1], tool, allowRisky, source) || AsksInVain(before, events[|events| - 1], tool, allowRisky, source)
  {
    var front := events[..|events| - 1];
    if AskedInVain(before, front, tool, allowRisky, source) {
      var i :| 0 <= i < |front| && AsksInVain(before, front[i], tool, allowRisky, source);
      assert AsksInVain(before, events[i], tool, allowRisky, source);
    }
    if AskedInVain(before, events, tool, allowRisky, source) {
      var i :| 0 <= i < |events| && AsksInVain(before, events[i], tool, allowRisky, source);
      assert i < |front| ==> front[i] == events[i];
    }
  }

  /** The tools reported as refused are, once each, the dangerous ones that some event asks for without consent. */
  lemma {:induction false} RejectedExactly(before: Tables, events: seq<Event>, allowRisky: bool, source: Source, tool: string)
    ensures tool in RejectedBy(before, events, allowRisky, source) <==> AskedInVain(before, events, tool, allowRisky, source)
    ensures NoRepeats(RejectedBy(before, events, allowRisky, source))
  {
    if events != [] {
      var front, e := events[..|events| - 1], events[|events| - 1];
      var t := AmendAll(Draft(before, []), front, allowRisky, source).tables;
      RejectedExactly(before, front, allowRisky, source, tool);
      DangerStays(before, front, allowRisky, source, e.tool);
      RefusedIs(before, t, e, tool, allowRisky, source);
      NotedHas(RejectedBy(before, front, allowRisky, source), Refused(t, e, allowRisky, source), tool);
      VainOneMore(before, events, tool, allowRisky, source);
    }
  }

  // ---------------------------------------------------------------------------------
  // What an approval achieves
  // ---------------------------------------------------------------------------------

  /** The log of approvals shows no argument key of the tool, and the tables had none. */
  ghost predicate NoKeyShown(before: Tables, events: seq<Event>, tool: string, allowRisky: bool) {
    forall key :: !Has(before, ArgumentKey(tool, key)) && !AskedFor(before, events, ArgumentKey(tool, key), allowRisky, ApprovedConfirmations)
  }

  /**
    An approved request that the log shows legibly, with agreeing targets and a tool that may be
    granted, is accepted afterwards; a call without an arguments object exactly if its array is
    empty, or, where it has no arguments at all, if neither the tables nor the log have a key.
   */
  lemma ApprovedIsAccepted(before: Tables, events: seq<Event>, allowRisky: bool, k: nat, r: Request, redact: Redaction, allowed: bool, reason: Reason)
    requires k < |events| && events[k] == EventOf(r, redact, allowed, reason).(approved := true)
    requires WellFormed(r) && Legible(r, redact) && TargetsAgree(r, redact)
    requires r.body.call.rpc.value == "tools/call" ==> Free(r.body.call.name.text, allowRisky)
    ensures var c := r.body.call;
      Decide(AmendAll(Draft(before, []), events, allowRisky, ApprovedConfirmations).tables, r) == Accept <==>
        (c.rpc.value == "tools/call" ==>
           c.arguments.Object? || c.arguments == Array(true)
           || (c.arguments.NoTable? && NoKeyShown(before, events, c.name.text, allowRisky)))
  {
    var after := AmendAll(Draft(before, []), events, allowRisky, ApprovedConfirmations).tables;
    forall it | Needs(r, it) ensures Has(after, it) {
      ApprovedNeedIsHeld(before, events, allowRisky, k, r, redact, allowed, reason, it);
    }
    if r.body.call.name.Text? { NoKeyHeld(before, events, r.body.call.name.text, allowRisky); }
    AcceptsExactly(after, r);
  }

  lemma ApprovedNeedIsHeld(before: Tables, events: seq<Event>, allowRisky: bool, k: nat, r: Request, redact: Redaction, allowed: bool, reason: Reason, it: Item)
    requires k < |events| && events[k] == EventOf(r, redact, allowed, reason).(approved := true)
    requires WellFormed(r) && Legible(r, redact) && TargetsAgree(r, redact) && Needs(r, it)
    requires r.body.call.rpc.value == "tools/call" ==> Free(r.body.call.name.text, allowRisky)
    ensures Has(AmendAll(Draft(before, []), events, allowRisky, ApprovedConfirmations).tables, it)
  {
    ApprovalAsksForNeeds(r, redact, allowed, reason, allowRisky, it);
    assert Asks(before, events[k], it, allowRisky, ApprovedConfirmations);
    AmendedHolds(before, events, allowRisky, ApprovedConfirmations, it);
  }

  lemma NoKeyHeld(before: Tables, events: seq<Event>, tool: string, allowRisky: bool)
    ensures KeysOf(AmendAll(Draft(before, []), events, allowRisky, ApprovedConfirmations).tables, tool) == {} <==>
      NoKeyShown(before, events, tool, allowRisky)
  {
    var after := AmendAll(Draft(before, []), events, allowRisky, ApprovedConfirmations).tables;
    forall key ensures key in KeysOf(after, tool) <==>
      Has(before, ArgumentKey(tool, key)) || AskedFor(before, events, ArgumentKey(tool, key), allowRisky, ApprovedConfirmations)
    {
      AmendedHolds(before, events, allowRisky, ApprovedConfirmations, ArgumentKey(tool, key));
    }
  }

  lemma ApprovalAsksForNeeds(r: Request, redact: Redaction, allowed: bool, reason: Reason, allowRisky: bool, it: Item)
    requires WellFormed(r) && Legible(r, redact) && TargetsAgree(r, redact) && Needs(r, it)
    requires r.body.call.rpc.value == "tools/call" ==> Free(r.body.call.name.text, allowRisky)
    ensures ApprovalAsks(EventOf(r, redact, allowed, reason).(approved := true), it, allowRisky)
  {
    var e := EventOf(r, redact, true, reason);
    TeachesWhatItNeeds(r, redact, reason, it);
    assert Teaches(e, it) ==> Shows(e, it);
  }
}
