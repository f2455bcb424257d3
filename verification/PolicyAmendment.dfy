/**
  Policy amendment: blocked events, or approved confirmations, feed entries back into the
  learned tables, with a ledger of what was added.
 */
module PolicyAmendment {
  import opened Options
  import opened LearnedPolicy
  import opened Redactions

  // ---------------------------------------------------------------------------------
  // Risky tools
  // ---------------------------------------------------------------------------------

  /** ASCII lower case, with dashes as underscores. */
  function Normalized(c: char): char {
    if 'A' <= c <= 'Z' then c - 'A' + 'a' else if c == '-' then '_' else c
  }

  predicate Risky(tool: string) {
    var s := seq(|tool|, i requires 0 <= i < |tool| => Normalized(tool[i]));
    || Contains(s, "shell") || Contains(s, "exec") || Contains(s, "command")
    || Contains(s, "terminal") || Contains(s, "subprocess") || Contains(s, "process_spawn")
  }

  // ---------------------------------------------------------------------------------
  // What an event asks for
  // ---------------------------------------------------------------------------------

  datatype Source = BlockedEvents | ApprovedConfirmations

  datatype Addition = Addition(item: Item, reason: Reason)

  /** Tables under amendment, with the entries added so far. */
  datatype Draft = Draft(tables: Tables, additions: seq<Addition>)

  function KeyItems(tool: string, names: seq<string>): (items: seq<Item>)
    ensures |items| == |names|
  {
    seq(|names|, i requires 0 <= i < |names| => ArgumentKey(tool, names[i]))
  }

  function BlockedItems(t: Tables, e: Event, allowRisky: bool): seq<Item> {
    if e.allowed then []
    else
      match e.reason
      case PathNotObserved => if e.path == "" then [] else [Path(e.path)]
      case MethodNotObserved => if e.rpc == "" then [] else [Method(e.rpc)]
      case ToolNotObserved =>
        if e.tool == "" || (Risky(e.tool) && !allowRisky) then []
        else [Method(TOOLS_CALL), Tool(e.tool)] + KeyItems(e.tool, e.argumentKeys)
      case ArgumentNotObserved => ArgumentItems(t, e, allowRisky)
      case ArgumentsMissing => ArgumentItems(t, e, allowRisky)
      case TargetNotObserved =>
        if e.rpc == "" || e.target == "" then []
        else if IsResourceMethod(e.rpc) then [Resource(e.target)]
        else if e.rpc == PROMPTS_GET then [Prompt(e.target)]
        else []
      case _ => []
  }

  function ArgumentItems(t: Tables, e: Event, allowRisky: bool): seq<Item> {
    if e.tool == "" || (e.tool !in t.tools && Risky(e.tool) && !allowRisky) then []
    else [Tool(e.tool)] + KeyItems(e.tool, e.argumentKeys)
  }

  function ApprovedItems(e: Event, allowRisky: bool): seq<Item> {
    if !e.approved then []
    else
      var path := if e.path == "" then [] else [Path(e.path)];
      if e.rpc == "" then path else path + [Method(e.rpc)] + CapabilityItems(e, allowRisky)
  }

  function CapabilityItems(e: Event, allowRisky: bool): seq<Item> {
    if e.rpc == TOOLS_CALL then
      if e.tool == "" || (Risky(e.tool) && !allowRisky) then []
      else [Tool(e.tool)] + KeyItems(e.tool, e.argumentKeys)
    else if e.target == "" then []
    else if IsResourceMethod(e.rpc) then [Resource(e.target)]
    else if e.rpc == PROMPTS_GET then [Prompt(e.target)]
    else []
  }

  function Items(t: Tables, e: Event, allowRisky: bool, source: Source): seq<Item> {
    if source.BlockedEvents? then BlockedItems(t, e, allowRisky) else ApprovedItems(e, allowRisky)
  }

  /** The risky tool that an event asks for in vain. */
  function Refused(t: Tables, e: Event, allowRisky: bool, source: Source): Option<string> {
    var refused :=
      if source.BlockedEvents? then
        !e.allowed && (e.reason == ToolNotObserved || ((e.reason == ArgumentNotObserved || e.reason == ArgumentsMissing) && e.tool !in t.tools))
      else e.approved && e.rpc == TOOLS_CALL;
    if refused && e.tool != "" && Risky(e.tool) && !allowRisky then Some(e.tool) else None
  }

  /** Each refused tool is noted once. */
  function Noted(rejected: seq<string>, tool: Option<string>): seq<string> {
    if tool.None? || tool.value in rejected then rejected else rejected + [tool.value]
  }

  // ---------------------------------------------------------------------------------
  // Granting
  // ---------------------------------------------------------------------------------

  function Put(t: Tables, it: Item): Tables {
    match it
    case Path(v) => t.(paths := t.paths + {v})
    case Method(v) => t.(methods := t.methods + {v})
    case Tool(v) => t.(tools := t.tools + {v})
    case Resource(v) => t.(resources := t.resources + {v})
    case Prompt(v) => t.(prompts := t.prompts + {v})
    case ArgumentKey(tool, v) => t.(argumentKeys := t.argumentKeys[tool := KeysOf(t, tool) + {v}])
  }

  predicate Listed(additions: seq<Addition>, it: Item) {
    exists i :: 0 <= i < |additions| && additions[i].item == it
  }

  function Granted(d: Draft, it: Item, reason: Reason): Draft {
    if Has(d.tables, it) then d
    else Draft(Put(d.tables, it), if Listed(d.additions, it) then d.additions else d.additions + [Addition(it, reason)])
  }

  function GrantAll(d: Draft, items: seq<Item>, reason: Reason): Draft {
    if items == [] then d
    else Granted(GrantAll(d, items[..|items| - 1], reason), items[|items| - 1], reason)
  }

  function Amend(d: Draft, e: Event, allowRisky: bool, source: Source): Draft {
    GrantAll(d, Items(d.tables, e, allowRisky, source), e.reason)
  }

  function AmendAll(d: Draft, events: seq<Event>, allowRisky: bool, source: Source): Draft {
    if events == [] then d
    else Amend(AmendAll(d, events[..|events| - 1], allowRisky, source), events[|events| - 1], allowRisky, source)
  }

  /** The tools refused over a log. */
  function RejectedBy(t: Tables, events: seq<Event>, allowRisky: bool, source: Source): seq<string> {
    if events == [] then []
    else
      var front, e := events[..|events| - 1], events[|events| - 1];
      Noted(RejectedBy(t, front, allowRisky, source),
            Refused(AmendAll(Draft(t, []), front, allowRisky, source).tables, e, allowRisky, source))
  }

  lemma GrantOneMore(d: Draft, items: seq<Item>, it: Item, reason: Reason)
    ensures GrantAll(d, items + [it], reason) == Granted(GrantAll(d, items, reason), it, reason)
  {
    assert (items + [it])[..|items|] == items;
  }

  class Amendment {
    const allowRisky: bool
    const source: Source
    var eventCount: nat
    var additions: seq<Addition>
    var seen: set<Item>
    var rejected: seq<string>

    ghost predicate Valid()
      reads this
    {
      forall it :: it in seen <==> Listed(additions, it)
    }

    function DraftOf(model: LearnedPolicy): Draft
      reads this, model
    {
      Draft(model.Contents(), additions)
    }

    constructor (allowRisky: bool, source: Source)
      ensures Valid() && additions == [] && rejected == [] && this.allowRisky == allowRisky && this.source == source && eventCount == 0
    {
      this.allowRisky, this.source := allowRisky, source;
      eventCount, additions, seen, rejected := 0, [], {}, [];
    }

    method Record(it: Item, reason: Reason)
      requires Valid()
      modifies `additions, `seen
      ensures Valid()
      ensures additions == if Listed(old(additions), it) then old(additions) else old(additions) + [Addition(it, reason)]
    {
      if it in seen {
        return;
      }
      seen := seen + {it};
      additions := additions + [Addition(it, reason)];
      forall other ensures other in seen <==> Listed(additions, other) {
        if Listed(old(additions), other) {
          var i :| 0 <= i < |old(additions)| && old(additions)[i].item == other;
          assert additions[i].item == other;
        }
        if other == it { assert additions[|additions| - 1].item == it; }
      }
    }

    /** Adds one entry unless the tables have it, and records it. */
    method Grant(model: LearnedPolicy, it: Item, reason: Reason)
      requires Valid()
      modifies `additions, `seen, model`paths, model`methods, model`tools, model`resources, model`prompts, model`argumentKeys
      ensures Valid()
      ensures DraftOf(model) == Granted(old(DraftOf(model)), it, reason)
    {
      var present := Has(model.Contents(), it);
      if present {
        return;
      }
      match it {
        case Path(v) => model.paths := model.paths + {v};
        case Method(v) => model.methods := model.methods + {v};
        case Tool(v) => model.tools := model.tools + {v};
        case Resource(v) => model.resources := model.resources + {v};
        case Prompt(v) => model.prompts := model.prompts + {v};
        case ArgumentKey(tool, v) =>
          model.argumentKeys := model.argumentKeys[tool := (if tool in model.argumentKeys then model.argumentKeys[tool] else {}) + {v}];
      }
      Record(it, reason);
    }

    method GrantKeys(model: LearnedPolicy, tool: string, names: seq<string>, reason: Reason, ghost start: Draft, ghost before: seq<Item>)
      requires Valid() && DraftOf(model) == GrantAll(start, before, reason)
      modifies `additions, `seen, model`paths, model`methods, model`tools, model`resources, model`prompts, model`argumentKeys
      ensures Valid()
      ensures DraftOf(model) == GrantAll(start, before + KeyItems(tool, names), reason)
    {
      assert before + KeyItems(tool, names[..0]) == before;
      for i := 0 to |names|
        invariant Valid()
        invariant DraftOf(model) == GrantAll(start, before + KeyItems(tool, names[..i]), reason)
      {
        GrantOneMore(start, before + KeyItems(tool, names[..i]), ArgumentKey(tool, names[i]), reason);
        assert before + KeyItems(tool, names[..i]) + [ArgumentKey(tool, names[i])] == before + KeyItems(tool, names[..i + 1]);
        Grant(model, ArgumentKey(tool, names[i]), reason);
      }
      assert names[..|names|] == names;
    }

    /** The same for an event that asks for one entry alone. */
    method GrantOnly(model: LearnedPolicy, it: Item, reason: Reason)
      requires Valid()
      modifies `additions, `seen, model`paths, model`methods, model`tools, model`resources, model`prompts, model`argumentKeys
      ensures Valid()
      ensures DraftOf(model) == GrantAll(old(DraftOf(model)), [it], reason)
    {
      GrantOneMore(DraftOf(model), [], it, reason);
      Grant(model, it, reason);
    }

    method AddBlockedEvent(model: LearnedPolicy, e: Event)
      requires Valid()
      modifies `additions, `seen, `rejected, model`paths, model`methods, model`tools, model`resources, model`prompts, model`argumentKeys
      ensures Valid()
      ensures DraftOf(model) == GrantAll(old(DraftOf(model)), BlockedItems(old(model.Contents()), e, allowRisky), e.reason)
      ensures rejected == Noted(old(rejected), Refused(old(model.Contents()), e, allowRisky, BlockedEvents))
    {
      if e.allowed {
        return;
      }
      match e.reason {
        case PathNotObserved =>
          if e.path != "" {
            GrantOnly(model, Path(e.path), e.reason);
          }
        case MethodNotObserved =>
          if e.rpc != "" {
            GrantOnly(model, Method(e.rpc), e.reason);
          }
        case ToolNotObserved => AddToolEvent(model, e);
        case ArgumentNotObserved => AddArgumentsEvent(model, e);
        case ArgumentsMissing => AddArgumentsEvent(model, e);
        case TargetNotObserved =>
          if e.rpc != "" && e.target != "" {
            if IsResourceMethod(e.rpc) {
              GrantOnly(model, Resource(e.target), e.reason);
            } else if e.rpc == PROMPTS_GET {
              GrantOnly(model, Prompt(e.target), e.reason);
            }
          }
        case _ =>
      }
    }

    method AddToolEvent(model: LearnedPolicy, e: Event)
      requires Valid() && !e.allowed && e.reason == ToolNotObserved
      modifies `additions, `seen, `rejected, model`paths, model`methods, model`tools, model`resources, model`prompts, model`argumentKeys
      ensures Valid()
      ensures DraftOf(model) == GrantAll(old(DraftOf(model)), BlockedItems(old(model.Contents()), e, allowRisky), e.reason)
      ensures rejected == Noted(old(rejected), Refused(old(model.Contents()), e, allowRisky, BlockedEvents))
    {
      ghost var start := DraftOf(model);
      if e.tool != "" {
        if Risky(e.tool) && !allowRisky {
          Reject(e.tool);
        } else {
          GrantOneMore(start, [], Method(TOOLS_CALL), e.reason);
          Grant(model, Method(TOOLS_CALL), e.reason);
          GrantOneMore(start, [Method(TOOLS_CALL)], Tool(e.tool), e.reason);
          Grant(model, Tool(e.tool), e.reason);
          GrantKeys(model, e.tool, e.argumentKeys, e.reason, start, [Method(TOOLS_CALL), Tool(e.tool)]);
        }
      }
    }

    method AddArgumentsEvent(model: LearnedPolicy, e: Event)
      requires Valid() && !e.allowed && (e.reason == ArgumentNotObserved || e.reason == ArgumentsMissing)
      modifies `additions, `seen, `rejected, model`paths, model`methods, model`tools, model`resources, model`prompts, model`argumentKeys
      ensures Valid()
      ensures DraftOf(model) == GrantAll(old(DraftOf(model)), ArgumentItems(old(model.Contents()), e, allowRisky), e.reason)
      ensures rejected == Noted(old(rejected), Refused(old(model.Contents()), e, allowRisky, BlockedEvents))
    {
      ghost var start := DraftOf(model);
      if e.tool != "" {
        GrantOneMore(start, [], Tool(e.tool), e.reason);
        if e.tool !in model.tools {
          if Risky(e.tool) && !allowRisky {
            Reject(e.tool);
            return;
          }
          Grant(model, Tool(e.tool), e.reason);
        }
        GrantKeys(model, e.tool, e.argumentKeys, e.reason, start, [Tool(e.tool)]);
      }
    }

    method AddApprovedEvent(model: LearnedPolicy, e: Event)
      requires Valid()
      modifies `additions, `seen, `rejected, model`paths, model`methods, model`tools, model`resources, model`prompts, model`argumentKeys
      ensures Valid()
      ensures DraftOf(model) == GrantAll(old(DraftOf(model)), ApprovedItems(e, allowRisky), e.reason)
      ensures rejected == Noted(old(rejected), Refused(old(model.Contents()), e, allowRisky, ApprovedConfirmations))
    {
      ghost var start := DraftOf(model);
      if !e.approved {
        return;
      }
      ghost var done: seq<Item> := [];
      if e.path != "" {
        GrantOneMore(start, done, Path(e.path), e.reason);
        Grant(model, Path(e.path), e.reason);
        done := [Path(e.path)];
      }
      if e.rpc == "" {
        return;
      }
      GrantOneMore(start, done, Method(e.rpc), e.reason);
      Grant(model, Method(e.rpc), e.reason);
      AddCapability(model, e, start, done + [Method(e.rpc)]);
    }

    method AddCapability(model: LearnedPolicy, e: Event, ghost start: Draft, ghost done: seq<Item>)
      requires Valid() && e.approved && DraftOf(model) == GrantAll(start, done, e.reason)
      modifies `additions, `seen, `rejected, model`paths, model`methods, model`tools, model`resources, model`prompts, model`argumentKeys
      ensures Valid()
      ensures DraftOf(model) == GrantAll(start, done + CapabilityItems(e, allowRisky), e.reason)
      ensures rejected == Noted(old(rejected), Refused(start.tables, e, allowRisky, ApprovedConfirmations))
    {
      assert done + [] == done;
      if e.rpc == TOOLS_CALL {
        if e.tool != "" {
          if Risky(e.tool) && !allowRisky {
            Reject(e.tool);
          } else {
            AddTool(model, e, start, done);
          }
        }
      } else if e.target != "" {
        if IsResourceMethod(e.rpc) {
          GrantOneMore(start, done, Resource(e.target), e.reason);
          Grant(model, Resource(e.target), e.reason);
        } else if e.rpc == PROMPTS_GET {
          GrantOneMore(start, done, Prompt(e.target), e.reason);
          Grant(model, Prompt(e.target), e.reason);
        }
      }
    }

    method AddTool(model: LearnedPolicy, e: Event, ghost start: Draft, ghost done: seq<Item>)
      requires Valid() && DraftOf(model) == GrantAll(start, done, e.reason)
      modifies `additions, `seen, model`paths, model`methods, model`tools, model`resources, model`prompts, model`argumentKeys
      ensures Valid()
      ensures DraftOf(model) == GrantAll(start, done + ([Tool(e.tool)] + KeyItems(e.tool, e.argumentKeys)), e.reason)
    {
      GrantOneMore(start, done, Tool(e.tool), e.reason);
      Grant(model, Tool(e.tool), e.reason);
      GrantKeys(model, e.tool, e.argumentKeys, e.reason, start, done + [Tool(e.tool)]);
      assert done + [Tool(e.tool)] + KeyItems(e.tool, e.argumentKeys) == done + ([Tool(e.tool)] + KeyItems(e.tool, e.argumentKeys));
    }

    method Reject(tool: string)
      modifies `rejected
      ensures rejected == Noted(old(rejected), Some(tool))
    {
      if tool !in rejected {
        rejected := rejected + [tool];
      }
    }

    method AddEvent(model: LearnedPolicy, e: Event)
      requires Valid()
      modifies this, model`paths, model`methods, model`tools, model`resources, model`prompts, model`argumentKeys
      ensures Valid() && eventCount == old(eventCount) + 1
      ensures DraftOf(model) == Amend(old(DraftOf(model)), e, allowRisky, source)
      ensures rejected == Noted(old(rejected), Refused(old(model.Contents()), e, allowRisky, source))
    {
      eventCount := eventCount + 1;
      if source.ApprovedConfirmations? {
        AddApprovedEvent(model, e);
      } else {
        AddBlockedEvent(model, e);
      }
    }
  }

  /** Amends the policy of a manifest with a whole log; gives the new manifest, what was added and which tools were refused. */
  method AmendPolicy(manifest: Manifest, events: seq<Event>, allowRisky: bool, source: Source)
    returns (m: Manifest, additions: seq<Addition>, rejected: seq<string>)
    ensures var d := AmendAll(Draft(Reloaded(manifest.tables), []), events, allowRisky, source);
      m == manifest.(tables := ManifestOf(d.tables)) && additions == d.additions
    ensures rejected == RejectedBy(Reloaded(manifest.tables), events, allowRisky, source)
  {
    var model := new LearnedPolicy.FromManifest(manifest);
    var amendment := new Amendment(allowRisky, source);
    for i := 0 to |events|
      invariant amendment.Valid()
      invariant amendment.DraftOf(model) == AmendAll(Draft(Reloaded(manifest.tables), []), events[..i], allowRisky, source)
      invariant amendment.rejected == RejectedBy(Reloaded(manifest.tables), events[..i], allowRisky, source)
      invariant model.eventCount == manifest.eventCount && model.allowedCount == manifest.allowedCount
      invariant model.blockedCount == manifest.blockedCount
    {
      assert events[..i + 1][..i] == events[..i];
      amendment.AddEvent(model, events[i]);
    }
    assert events[..|events|] == events;
    m := model.Save();
    additions, rejected := amendment.additions, amendment.rejected;
  }

  // ---------------------------------------------------------------------------------
  // The ledger
  // ---------------------------------------------------------------------------------

  lemma PutAdds(t: Tables, it: Item, other: Item)
    ensures Has(Put(t, it), other) <==> Has(t, other) || other == it
  {
  }

  /** The tables hold what they held before, and the list is exactly what is new in them, once each. */
  ghost predicate Ledger(before: Tables, d: Draft) {
    && (forall it :: Has(before, it) ==> Has(d.tables, it))
    && (forall it :: Listed(d.additions, it) <==> Has(d.tables, it) && !Has(before, it))
    && (forall i, j :: 0 <= i < j < |d.additions| ==> d.additions[i].item != d.additions[j].item)
  }

  lemma ListedAfter(additions: seq<Addition>, a: Addition, it: Item)
    ensures Listed(additions + [a], it) <==> Listed(additions, it) || a.item == it
  {
    if Listed(additions, it) {
      var i :| 0 <= i < |additions| && additions[i].item == it;
      assert (additions + [a])[i].item == it;
    }
    assert (additions + [a])[|additions|] == a;
  }

  lemma GrantKeepsLedger(before: Tables, d: Draft, it: Item, reason: Reason)
    requires Ledger(before, d)
    ensures Ledger(before, Granted(d, it, reason))
  {
    if !Has(d.tables, it) {
      assert !Listed(d.additions, it);
      var a := Addition(it, reason);
      forall other
        ensures Has(before, other) ==> Has(Put(d.tables, it), other)
        ensures Listed(d.additions + [a], other) <==> Has(Put(d.tables, it), other) && !Has(before, other)
      {
        PutAdds(d.tables, it, other);
        ListedAfter(d.additions, a, other);
      }
      forall i | 0 <= i < |d.additions| ensures d.additions[i].item != it {
        assert Listed(d.additions, d.additions[i].item);
      }
    }
  }

  lemma {:induction false} GrantAllKeepsLedger(before: Tables, d: Draft, items: seq<Item>, reason: Reason)
    requires Ledger(before, d)
    ensures Ledger(before, GrantAll(d, items, reason))
  {
    if items != [] {
      GrantAllKeepsLedger(before, d, items[..|items| - 1], reason);
      GrantKeepsLedger(before, GrantAll(d, items[..|items| - 1], reason), items[|items| - 1], reason);
    }
  }

  /** The additions an amendment reports are, without duplicates, exactly the difference of the tables after and before. */
  lemma {:induction false} AdditionsAreTheDifference(before: Tables, events: seq<Event>, allowRisky: bool, source: Source)
    ensures Ledger(before, AmendAll(Draft(before, []), events, allowRisky, source))
  {
    if events != [] {
      var front := events[..|events| - 1];
      AdditionsAreTheDifference(before, front, allowRisky, source);
      var d := AmendAll(Draft(before, []), front, allowRisky, source);
      var e := events[|events| - 1];
      GrantAllKeepsLedger(before, d, Items(d.tables, e, allowRisky, source), e.reason);
    }
  }

  lemma {:induction false} GrantAllHas(d: Draft, items: seq<Item>, reason: Reason, it: Item)
    ensures Has(GrantAll(d, items, reason).tables, it) <==> Has(d.tables, it) || it in items
  {
    if items != [] {
      var front, last := items[..|items| - 1], items[|items| - 1];
      GrantAllHas(d, front, reason, it);
      PutAdds(GrantAll(d, front, reason).tables, last, it);
      assert items == front + [last];
    }
  }

  // ---------------------------------------------------------------------------------
  // Growth
  // ---------------------------------------------------------------------------------

  /** The event asks for an argument key of a tool that is allowed. */
  predicate AsksKey(e: Event, tool: string, allowRisky: bool, source: Source) {
    e.tool == tool && tool != "" && e.argumentKeys != []
    && if source.BlockedEvents? then
         !e.allowed
         && (e.reason == ArgumentNotObserved || e.reason == ArgumentsMissing
             || (e.reason == ToolNotObserved && (allowRisky || !Risky(tool))))
       else e.approved && e.rpc == TOOLS_CALL && (allowRisky || !Risky(tool))
  }

  lemma KeyInItems(tool: string, names: seq<string>, it: Item)
    ensures it in KeyItems(tool, names) ==> it.ArgumentKey? && it.tool == tool && names != []
    ensures names != [] ==> ArgumentKey(tool, names[0]) in KeyItems(tool, names)
  {
    var items := KeyItems(tool, names);
    if it in items {
      var i :| 0 <= i < |items| && items[i] == it;
    }
    if names != [] { assert items[0] == ArgumentKey(tool, names[0]); }
  }

  lemma ItemsAskKey(t: Tables, e: Event, allowRisky: bool, source: Source, tool: string, key: string)
    requires tool in t.tools
    ensures ArgumentKey(tool, key) in Items(t, e, allowRisky, source) ==> AsksKey(e, tool, allowRisky, source)
    ensures AsksKey(e, tool, allowRisky, source) ==> ArgumentKey(tool, e.argumentKeys[0]) in Items(t, e, allowRisky, source)
  {
    KeyInItems(e.tool, e.argumentKeys, ArgumentKey(tool, key));
  }

  predicate NoneAsks(events: seq<Event>, tool: string, allowRisky: bool, source: Source) {
    forall i :: 0 <= i < |events| ==> !AsksKey(events[i], tool, allowRisky, source)
  }

  lemma NoneAsksOneMore(events: seq<Event>, tool: string, allowRisky: bool, source: Source)
    requires events != []
    ensures NoneAsks(events, tool, allowRisky, source) <==>
      NoneAsks(events[..|events| - 1], tool, allowRisky, source) && !AsksKey(events[|events| - 1], tool, allowRisky, source)
  {
  }

  /** A tool that has no key yet gets one if and only if some event asks for one. */
  lemma {:induction false} KeysAfter(before: Tables, events: seq<Event>, allowRisky: bool, source: Source, tool: string)
    requires tool in before.tools && KeysOf(before, tool) == {}
    ensures var after := AmendAll(Draft(before, []), events, allowRisky, source).tables;
      && tool in after.tools
      && (KeysOf(after, tool) == {} <==> NoneAsks(events, tool, allowRisky, source))
  {
    if events != [] {
      var front, e := events[..|events| - 1], events[|events| - 1];
      KeysAfter(before, front, allowRisky, source, tool);
      var d := AmendAll(Draft(before, []), front, allowRisky, source);
      KeysAfterOne(d, e, allowRisky, source, tool);
      NoneAsksOneMore(events, tool, allowRisky, source);
    }
  }

  lemma KeysAfterOne(d: Draft, e: Event, allowRisky: bool, source: Source, tool: string)
    requires tool in d.tables.tools
    ensures var after := Amend(d, e, allowRisky, source).tables;
      tool in after.tools && (KeysOf(after, tool) == {} <==> KeysOf(d.tables, tool) == {} && !AsksKey(e, tool, allowRisky, source))
  {
    var items := Items(d.tables, e, allowRisky, source);
    var after := Amend(d, e, allowRisky, source).tables;
    GrantAllHas(d, items, e.reason, Tool(tool));
    assert Has(d.tables, Tool(tool));
    forall key ensures key in KeysOf(after, tool) <==> key in KeysOf(d.tables, tool) || ArgumentKey(tool, key) in items {
      GrantAllHas(d, items, e.reason, ArgumentKey(tool, key));
    }
    forall key ensures ArgumentKey(tool, key) in items ==> AsksKey(e, tool, allowRisky, source) {
      ItemsAskKey(d.tables, e, allowRisky, source, tool, key);
    }
    ItemsAskKey(d.tables, e, allowRisky, source, tool, "");
  }

  /**
    Amending only enlarges what is accepted: a request accepted before is accepted after, unless
    it is a call without arguments and the log asks for an argument key of its tool.
   */
  lemma AmendmentGrows(before: Tables, events: seq<Event>, allowRisky: bool, source: Source, r: Request)
    requires Decide(before, r) == Accept
    ensures Decide(AmendAll(Draft(before, []), events, allowRisky, source).tables, r) == Accept <==>
      (WantsNoKeys(r) ==> NoneAsks(events, TextOf(r.body.call.name), allowRisky, source))
  {
    AdditionsAreTheDifference(before, events, allowRisky, source);
    AcceptsExactly(before, r);
    AcceptsExactly(AmendAll(Draft(before, []), events, allowRisky, source).tables, r);
    if WantsNoKeys(r) {
      KeysAfter(before, events, allowRisky, source, r.body.call.name.text);
    }
  }

  // ---------------------------------------------------------------------------------
  // Risky tools
  // ---------------------------------------------------------------------------------

  lemma ItemsAreNotRisky(t: Tables, e: Event, source: Source, tool: string)
    ensures Tool(tool) in Items(t, e, false, source) ==> tool in t.tools || !Risky(tool)
  {
    KeyInItems(e.tool, e.argumentKeys, Tool(tool));
  }

  /** Without consent no risky tool is added, by any log of either kind. */
  lemma {:induction false} RiskyToolsNeedConsent(before: Tables, events: seq<Event>, source: Source, tool: string)
    ensures var after := AmendAll(Draft(before, []), events, false, source).tables;
      tool in after.tools ==> tool in before.tools || !Risky(tool)
  {
    if events != [] {
      var front, e := events[..|events| - 1], events[|events| - 1];
      RiskyToolsNeedConsent(before, front, source, tool);
      var d := AmendAll(Draft(before, []), front, false, source);
      GrantAllHas(d, Items(d.tables, e, false, source), e.reason, Tool(tool));
      ItemsAreNotRisky(d.tables, e, source, tool);
    }
  }
}
