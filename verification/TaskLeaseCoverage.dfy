/**
  The coverage preview of a sequence of calls: which lease would cover each call, with the
  calls planned so far counted against the leases' limits, and without touching the store.
 */
module TaskLeaseCoverage {
  import opened Options
  import opened TaskLeases
  import opened TaskLeaseRuns

  /** Calls planned so far, by lease id. */
  type Plan = map<string, nat>

  function Planned(plan: Plan, id: string): nat {
    if id in plan then plan[id] else 0
  }

  function PlannedDenial(l: Lease, r: Request, plan: Plan, auth: Option<Auth>, now: Time): Option<Reason>
    requires r.ToolsCall?
  {
    CallDenial(l, r, l.useCount + Planned(plan, l.id), auth, now)
  }

  predicate Covers(l: Lease, r: Request, plan: Plan, auth: Option<Auth>, now: Time) {
    r.ToolsCall? && PlannedDenial(l, r, plan, auth, now).None?
  }

  /** The first lease that covers the call on top of the plan, or the store's length. */
  function Chosen(leases: seq<Lease>, r: Request, plan: Plan, auth: Option<Auth>, now: Time): (i: nat)
    requires r.ToolsCall?
    ensures i <= |leases|
    ensures i < |leases| ==> PlannedDenial(leases[i], r, plan, auth, now).None?
    ensures forall j :: 0 <= j < i ==> PlannedDenial(leases[j], r, plan, auth, now).Some?
  {
    if leases == [] || PlannedDenial(leases[0], r, plan, auth, now).None? then 0
    else 1 + Chosen(leases[1..], r, plan, auth, now)
  }

  /** The plan once the call is counted against the lease chosen for it. */
  function PlanWith(leases: seq<Lease>, r: Request, plan: Plan, auth: Option<Auth>, now: Time): Plan {
    if !r.ToolsCall? then plan
    else
      var i := Chosen(leases, r, plan, auth, now);
      if i < |leases| && leases[i].id != "" then plan[leases[i].id := Planned(plan, leases[i].id) + 1] else plan
  }

  /** The leases that cover the call, in the order of the store and as often as it holds them. */
  function MatchesOf(leases: seq<Lease>, r: Request, plan: Plan, auth: Option<Auth>, now: Time): seq<Lease> {
    if leases == [] then []
    else
      var last := leases[|leases| - 1];
      MatchesOf(leases[..|leases| - 1], r, plan, auth, now) + if Covers(last, r, plan, auth, now) then [last] else []
  }

  /** The denials of the others, in the same order. */
  function DenialsOf(leases: seq<Lease>, r: Request, plan: Plan, auth: Option<Auth>, now: Time): seq<Reason>
    requires r.ToolsCall?
  {
    if leases == [] then []
    else
      var denial := PlannedDenial(leases[|leases| - 1], r, plan, auth, now);
      DenialsOf(leases[..|leases| - 1], r, plan, auth, now) + if denial.Some? then [denial.value] else []
  }

  /** There is a match if and only if a lease is chosen, which then is the first match; every lease matches or is denied. */
  lemma {:induction false} MatchesMean(leases: seq<Lease>, r: Request, plan: Plan, auth: Option<Auth>, now: Time)
    requires r.ToolsCall?
    ensures var (matches, c) := (MatchesOf(leases, r, plan, auth, now), Chosen(leases, r, plan, auth, now));
      && (matches == [] <==> c == |leases|)
      && (matches != [] ==> c < |leases| && matches[0] == leases[c])
      && |matches| + |DenialsOf(leases, r, plan, auth, now)| == |leases|
  {
    if leases != [] {
      var front := leases[..|leases| - 1];
      MatchesMean(front, r, plan, auth, now);
      ChosenOfLonger(leases, r, plan, auth, now);
      assert Covers(leases[|leases| - 1], r, plan, auth, now) <==> PlannedDenial(leases[|leases| - 1], r, plan, auth, now).None?;
    }
  }

  lemma ChosenOfLonger(leases: seq<Lease>, r: Request, plan: Plan, auth: Option<Auth>, now: Time)
    requires r.ToolsCall? && leases != []
    ensures var front := leases[..|leases| - 1];
      Chosen(leases, r, plan, auth, now) ==
        if Chosen(front, r, plan, auth, now) < |front| then Chosen(front, r, plan, auth, now)
        else if Covers(leases[|front|], r, plan, auth, now) then |front| else |leases|
  {
    var front := leases[..|leases| - 1];
    assert forall k :: 0 <= k < |front| ==> front[k] == leases[k];
  }

  datatype Coverage = NotToolCall | Covered(matches: seq<Lease>) | Uncovered(denials: seq<Reason>)

  function CoverageOf(leases: seq<Lease>, r: Request, plan: Plan, auth: Option<Auth>, now: Time): Coverage {
    if !r.ToolsCall? then NotToolCall
    else
      var matches := MatchesOf(leases, r, plan, auth, now);
      if matches != [] then Covered(matches) else Uncovered(DenialsOf(leases, r, plan, auth, now))
  }

  /** The charge goes to the first match: what is planned for any lease grows by one exactly if it is that one. */
  lemma FirstMatchIsCharged(leases: seq<Lease>, r: Request, plan: Plan, auth: Option<Auth>, now: Time, id: string)
    requires id != ""
    ensures var c := CoverageOf(leases, r, plan, auth, now);
      Planned(PlanWith(leases, r, plan, auth, now), id) == Planned(plan, id) + if c.Covered? && c.matches[0].id == id then 1 else 0
  {
    if r.ToolsCall? { MatchesMean(leases, r, plan, auth, now); }
  }

  /** Every lease is tried, in the order of the store. */
  method Scan(leases: seq<Lease>, r: Request, plan: Plan, auth: Option<Auth>, now: Time)
    returns (matches: seq<Lease>, denials: seq<Reason>)
    requires r.ToolsCall?
    ensures matches == MatchesOf(leases, r, plan, auth, now) && denials == DenialsOf(leases, r, plan, auth, now)
  {
    matches, denials := [], [];
    for k := 0 to |leases|
      invariant matches == MatchesOf(leases[..k], r, plan, auth, now) && denials == DenialsOf(leases[..k], r, plan, auth, now)
    {
      assert leases[..k + 1][..k] == leases[..k];
      var denial := CallDenial(leases[k], r, leases[k].useCount + Planned(plan, leases[k].id), auth, now);
      if denial.None? {
        matches := matches + [leases[k]];
      } else {
        denials := denials + [denial.value];
      }
    }
    assert leases[..|leases|] == leases;
  }

  /** The preview's consumption table, filled in from call to call. */
  class Consumption {
    var plan: Plan

    constructor ()
      ensures plan == map[]
    {
      plan := map[];
    }

    method PreviewCoverage(store: LeaseStore, r: Request, auth: Option<Auth>, now: Time) returns (c: Coverage)
      modifies this
      ensures c == CoverageOf(store.leases, r, old(plan), auth, now)
      ensures plan == PlanWith(store.leases, r, old(plan), auth, now)
    {
      if !r.ToolsCall? {
        return NotToolCall;
      }
      var matches, denials := Scan(store.leases, r, plan, auth, now);
      MatchesMean(store.leases, r, plan, auth, now);
      if matches == [] {
        return Uncovered(denials);
      }
      var id := matches[0].id;
      if id != "" {
        plan := plan[id := Planned(plan, id) + 1];
      }
      c := Covered(matches);
    }
  }

  // ---------------------------------------------------------------------------------
  // The preview simulates enforcement
  // ---------------------------------------------------------------------------------

  /** The plan after the first k calls. */
  function PlanAt(leases: seq<Lease>, calls: seq<Request>, k: nat, auth: Option<Auth>, now: Time): Plan
    requires k <= |calls|
  {
    if k == 0 then map[] else PlanWith(leases, calls[k - 1], PlanAt(leases, calls, k - 1, auth, now), auth, now)
  }

  function Choice(leases: seq<Lease>, calls: seq<Request>, k: nat, auth: Option<Auth>, now: Time): nat
    requires k < |calls| && calls[k].ToolsCall?
  {
    Chosen(leases, calls[k], PlanAt(leases, calls, k, auth, now), auth, now)
  }

  function BySelection(id: string): Presented {
    Presented(Selected(id), [])
  }

  /** Enforcing one call by trusted selection of the lease chosen for it, if there is one. */
  function Enforced(leases: seq<Lease>, store: seq<Lease>, r: Request, plan: Plan, auth: Option<Auth>, now: Time): seq<Lease> {
    if r.ToolsCall? && Chosen(leases, r, plan, auth, now) < |leases| then
      var p := BySelection(leases[Chosen(leases, r, plan, auth, now)].id);
      Consumed(store, Evaluate(store, p, r, auth, true, now), r, now)
    else store
  }

  /** The store after enforcing the first k calls. */
  function StoreAt(leases: seq<Lease>, calls: seq<Request>, k: nat, auth: Option<Auth>, now: Time): seq<Lease>
    requires k <= |calls|
  {
    if k == 0 then leases
    else
      Enforced(leases, StoreAt(leases, calls, k - 1, auth, now), calls[k - 1], PlanAt(leases, calls, k - 1, auth, now), auth, now)
  }

  ghost predicate NamedApart(leases: seq<Lease>) {
    && (forall i :: 0 <= i < |leases| ==> leases[i].id != "")
    && (forall i, j :: 0 <= i < j < |leases| ==> leases[i].id != leases[j].id)
  }

  /** A lease that has only been used, a given number of times. */
  predicate UsedUp(before: Lease, after: Lease, uses: nat) {
    && after == before.(useCount := before.useCount + uses, lastUsedAt := after.lastUsedAt, lastTool := after.lastTool)
  }

  ghost predicate Spent(before: seq<Lease>, after: seq<Lease>, plan: Plan) {
    && |before| == |after|
    && forall i :: 0 <= i < |before| ==> UsedUp(before[i], after[i], Planned(plan, before[i].id))
  }

  lemma SelectionResolves(leases: seq<Lease>, i: nat, now: Time)
    requires NamedApart(leases) && i < |leases|
    ensures Resolve(leases, BySelection(leases[i].id), now) == Found(i)
  {
    OccursOnce(leases, leases[i].id);
    assert exists k :: 0 <= k < |leases| && leases[k].id == leases[i].id;
  }

  lemma SpentKeepsNames(before: seq<Lease>, after: seq<Lease>, plan: Plan)
    requires NamedApart(before) && Spent(before, after, plan)
    ensures NamedApart(after)
  {
    forall i | 0 <= i < |before| ensures after[i].id == before[i].id {
      assert UsedUp(before[i], after[i], Planned(plan, before[i].id));
    }
  }

  /** Selecting a lease on the spent store answers as planning on the original one. */
  lemma SelectionAgrees(before: seq<Lease>, after: seq<Lease>, plan: Plan, r: Request, auth: Option<Auth>, now: Time, i: nat)
    requires NamedApart(before) && Spent(before, after, plan) && r.ToolsCall? && i < |before|
    ensures after[i].id == before[i].id
    ensures var v := Evaluate(after, BySelection(before[i].id), r, auth, true, now);
      var denial := PlannedDenial(before[i], r, plan, auth, now);
      v == if denial.None? then Admitted(i) else Blocked(denial.value)
  {
    SpentKeepsNames(before, after, plan);
    assert UsedUp(before[i], after[i], Planned(plan, before[i].id));
    SelectionResolves(after, i, now);
  }

  lemma CallKeepsSpent(before: seq<Lease>, after: seq<Lease>, plan: Plan, r: Request, auth: Option<Auth>, now: Time)
    requires NamedApart(before) && Spent(before, after, plan)
    ensures Spent(before, Enforced(before, after, r, plan, auth, now), PlanWith(before, r, plan, auth, now))
  {
    if r.ToolsCall? && Chosen(before, r, plan, auth, now) < |before| {
      var c := Chosen(before, r, plan, auth, now);
      SelectionAgrees(before, after, plan, r, auth, now, c);
      var next := after[c := Used(after[c], r.tool, now)];
      var plan' := PlanWith(before, r, plan, auth, now);
      forall i | 0 <= i < |before|
        ensures UsedUp(before[i], next[i], Planned(plan', before[i].id))
      {
        assert UsedUp(before[i], after[i], Planned(plan, before[i].id));
        if i < c { assert before[i].id != before[c].id; }
        if i > c { assert before[c].id != before[i].id; }
      }
    }
  }

  lemma {:induction false} PreviewSpends(leases: seq<Lease>, calls: seq<Request>, k: nat, auth: Option<Auth>, now: Time)
    requires NamedApart(leases) && k <= |calls|
    ensures Spent(leases, StoreAt(leases, calls, k, auth, now), PlanAt(leases, calls, k, auth, now))
  {
    if k > 0 {
      PreviewSpends(leases, calls, k - 1, auth, now);
      CallKeepsSpent(leases, StoreAt(leases, calls, k - 1, auth, now), PlanAt(leases, calls, k - 1, auth, now),
                     calls[k - 1], auth, now);
    }
  }

  /**
    At a fixed clock reading and identity, the preview of any sequence of calls simulates its
    enforcement. A covered call is admitted on the lease chosen for it once the calls before it
    are enforced on theirs; an uncovered call is refused on every lease at that point; and the
    use counts in the end are the initial ones plus the preview's consumption.
   */
  lemma PreviewSimulatesEnforcement(leases: seq<Lease>, calls: seq<Request>, k: nat, auth: Option<Auth>, now: Time)
    requires NamedApart(leases) && k < |calls| && calls[k].ToolsCall?
    ensures var store, c := StoreAt(leases, calls, k, auth, now), Choice(leases, calls, k, auth, now);
      && |store| == |leases|
      && (c < |leases| ==> Evaluate(store, BySelection(leases[c].id), calls[k], auth, true, now) == Admitted(c))
      && (c == |leases| ==>
            forall i :: 0 <= i < |leases| ==> Evaluate(store, BySelection(leases[i].id), calls[k], auth, true, now).Blocked?)
    ensures var end := StoreAt(leases, calls, |calls|, auth, now);
      && |end| == |leases|
      && forall i :: 0 <= i < |leases| ==>
           end[i].useCount == leases[i].useCount + Planned(PlanAt(leases, calls, |calls|, auth, now), leases[i].id)
  {
    PreviewSpends(leases, calls, k, auth, now);
    PreviewSpends(leases, calls, |calls|, auth, now);
    var plan := PlanAt(leases, calls, k, auth, now);
    forall i | 0 <= i < |leases|
      ensures var v := Evaluate(StoreAt(leases, calls, k, auth, now), BySelection(leases[i].id), calls[k], auth, true, now);
        var denial := PlannedDenial(leases[i], calls[k], plan, auth, now);
        v == if denial.None? then Admitted(i) else Blocked(denial.value)
    {
      SelectionAgrees(leases, StoreAt(leases, calls, k, auth, now), plan, calls[k], auth, now, i);
    }
  }
}
