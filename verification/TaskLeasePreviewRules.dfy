/**
  The coverage preview by the fields of the leases: which leases it names for a call, which
  denials it lists for the others, and what it counts.
 */
module TaskLeasePreviewRules {
  import opened Options
  import opened Rules
  import opened TaskLeases
  import opened TaskLeaseRules
  import opened TaskLeaseCoverage

  /** The lease as if the planned calls had been made. */
  function Charged(l: Lease, plan: Plan): Lease {
    l.(useCount := l.useCount + if l.id in plan then plan[l.id] else 0)
  }

  /** The call could be made on the lease after the planned ones. */
  predicate CanServe(l: Lease, r: Request, plan: Plan, auth: Option<Auth>, now: Time)
    requires r.ToolsCall?
  {
    Usable(Charged(l, plan), auth, now) && InScope(l.scope, r)
  }

  lemma CoversExactly(l: Lease, r: Request, plan: Plan, auth: Option<Auth>, now: Time)
    requires r.ToolsCall?
    ensures Covers(l, r, plan, auth, now) <==> CanServe(l, r, plan, auth, now)
  {
    AuthAcceptsExactly(l.binding, auth);
    ScopeAllowsExactly(l.scope, r);
  }

  lemma DeniedExactly(l: Lease, r: Request, plan: Plan, auth: Option<Auth>, now: Time)
    requires r.ToolsCall?
    ensures PlannedDenial(l, r, plan, auth, now).Some? <==> !CanServe(l, r, plan, auth, now)
  {
    CoversExactly(l, r, plan, auth, now);
  }

  lemma PlannedInOrder(l: Lease, r: Request, plan: Plan, auth: Option<Auth>, now: Time)
    requires r.ToolsCall?
    ensures FirstBroken(RulesFor(Charged(l, plan), r, auth, now), PlannedDenial(l, r, plan, auth, now))
  {
    DeniedInOrder(Charged(l, plan), r, auth, now);
    assert PlannedDenial(l, r, plan, auth, now) == DenialFor(Charged(l, plan), r, auth, now);
  }

  /** Rising places in the store, and just those of the leases that can, or cannot, serve the call. */
  predicate Picks(places: seq<nat>, leases: seq<Lease>, r: Request, plan: Plan, auth: Option<Auth>, now: Time, can: bool)
    requires r.ToolsCall?
  {
    && (forall i, j :: 0 <= i < j < |places| ==> places[i] < places[j])
    && (forall j :: 0 <= j < |places| ==> places[j] < |leases|)
    && (forall i: nat :: i < |leases| ==> (i in places <==> CanServe(leases[i], r, plan, auth, now) == can))
  }

  lemma PicksMore(places: seq<nat>, leases: seq<Lease>, r: Request, plan: Plan, auth: Option<Auth>, now: Time, can: bool)
    requires r.ToolsCall? && leases != [] && Picks(places, leases[..|leases| - 1], r, plan, auth, now, can)
    ensures var n := |leases| - 1;
      Picks(if CanServe(leases[n], r, plan, auth, now) == can then places + [n] else places, leases, r, plan, auth, now, can)
  {
    var n := |leases| - 1;
    forall i: nat | i < n ensures i in places <==> CanServe(leases[i], r, plan, auth, now) == can {
      assert leases[..n][i] == leases[i];
    }
    assert n !in places;
  }

  /** The matches are, in the order of the store, all leases that can serve the call. */
  lemma {:induction false} MatchesServe(leases: seq<Lease>, r: Request, plan: Plan, auth: Option<Auth>, now: Time) returns (places: seq<nat>)
    requires r.ToolsCall?
    ensures var matches := MatchesOf(leases, r, plan, auth, now);
      && Picks(places, leases, r, plan, auth, now, true)
      && |matches| == |places| && forall j :: 0 <= j < |places| ==> matches[j] == leases[places[j]]
  {
    places := [];
    if leases != [] {
      var n := |leases| - 1;
      places := MatchesServe(leases[..n], r, plan, auth, now);
      PicksMore(places, leases, r, plan, auth, now, true);
      CoversExactly(leases[n], r, plan, auth, now);
      if CanServe(leases[n], r, plan, auth, now) { places := places + [n]; }
    }
  }

  predicate DeniedAt(l: Lease, r: Request, plan: Plan, auth: Option<Auth>, now: Time, reason: Reason)
    requires r.ToolsCall?
  {
    PlannedDenial(l, r, plan, auth, now) == Some(reason)
  }

  predicate AllDenied(places: seq<nat>, leases: seq<Lease>, denials: seq<Reason>, r: Request, plan: Plan, auth: Option<Auth>, now: Time)
    requires r.ToolsCall?
  {
    && |denials| == |places|
    && forall j :: 0 <= j < |places| ==> places[j] < |leases| && DeniedAt(leases[places[j]], r, plan, auth, now, denials[j])
  }

  lemma AllDeniedMore(places: seq<nat>, leases: seq<Lease>, denials: seq<Reason>, r: Request, plan: Plan, auth: Option<Auth>, now: Time)
    requires r.ToolsCall? && leases != [] && AllDenied(places, leases[..|leases| - 1], denials, r, plan, auth, now)
    ensures AllDenied(places, leases, denials, r, plan, auth, now)
    ensures var (n, denial) := (|leases| - 1, PlannedDenial(leases[|leases| - 1], r, plan, auth, now));
      denial.Some? ==> AllDenied(places + [n], leases, denials + [denial.value], r, plan, auth, now)
  {
    forall j | 0 <= j < |places| ensures DeniedAt(leases[places[j]], r, plan, auth, now, denials[j]) {
      assert leases[..|leases| - 1][places[j]] == leases[places[j]];
    }
  }

  lemma {:induction false} DenialsStand(leases: seq<Lease>, r: Request, plan: Plan, auth: Option<Auth>, now: Time) returns (places: seq<nat>)
    requires r.ToolsCall?
    ensures Picks(places, leases, r, plan, auth, now, false)
    ensures AllDenied(places, leases, DenialsOf(leases, r, plan, auth, now), r, plan, auth, now)
  {
    places := [];
    if leases != [] {
      var n := |leases| - 1;
      places := DenialsStand(leases[..n], r, plan, auth, now);
      PicksMore(places, leases, r, plan, auth, now, false);
      AllDeniedMore(places, leases, DenialsOf(leases[..n], r, plan, auth, now), r, plan, auth, now);
      DeniedExactly(leases[n], r, plan, auth, now);
      if PlannedDenial(leases[n], r, plan, auth, now).Some? { places := places + [n]; }
    }
  }

  /** The denials are, in the order of the store, the first rule that each of the other leases has broken. */
  lemma DenialsAreFirstRules(leases: seq<Lease>, r: Request, plan: Plan, auth: Option<Auth>, now: Time) returns (places: seq<nat>)
    requires r.ToolsCall?
    ensures var denials := DenialsOf(leases, r, plan, auth, now);
      && Picks(places, leases, r, plan, auth, now, false) && |denials| == |places|
      && forall j :: 0 <= j < |places| ==>
           FirstBroken(RulesFor(Charged(leases[places[j]], plan), r, auth, now), Some(denials[j]))
  {
    places := DenialsStand(leases, r, plan, auth, now);
    var denials := DenialsOf(leases, r, plan, auth, now);
    forall j | 0 <= j < |places| ensures FirstBroken(RulesFor(Charged(leases[places[j]], plan), r, auth, now), Some(denials[j])) {
      assert DeniedAt(leases[places[j]], r, plan, auth, now, denials[j]);
      PlannedInOrder(leases[places[j]], r, plan, auth, now);
    }
  }
}
