/**
  Renewal arithmetic: how often a lease can be renewed inside its authorization, and when a
  second renewal at the same instant is a no-op.
 */
module TaskLeaseRenewal {
  import opened Options
  import opened TaskLeases
  import opened TaskLeaseRuns
  import opened TaskLeaseHistory

  /**
    Each renewal buys at least half a life less the slack that truncation to whole seconds
    takes, so the number of renewals is bounded by the authorization window.
   */
  predicate Paced(l: Lease, slack: int)
    requires l.renewal.Some?
  {
    var n, c := l.renewal.value, l.createdAt;
    var half := n.ttl - 2 * slack;
    && (l.expiresAt == n.until || 2 * l.expiresAt >= 2 * c + n.generation * half + 2 * (n.ttl - slack))
    && (n.generation >= 1 ==> n.generation * half + n.ttl < 2 * (n.until - c))
  }

  ghost predicate AllPaced(leases: seq<Lease>, ttl: int, slack: int) {
    forall l :: l in leases && l.renewal.Some? && l.renewal.value.ttl == ttl ==> Paced(l, slack)
  }

  /** Storing an expiry one life after any reading of the run loses at most the slack. */
  predicate Steady(events: seq<Event>, ttl: int, slack: int) {
    forall i :: 0 <= i < |events| ==> (events[i].at + ttl) % SECOND <= slack
  }

  lemma RolledIsPaced(l: Lease, secret: string, now: Time, slack: int)
    requires l.renewal.Some? && Due(l, now) && l.expiresAt <= l.renewal.value.until && l.renewal.value.until % SECOND == 0
    requires Paced(l, slack) && (now + l.renewal.value.ttl) % SECOND <= slack
    ensures Paced(Rolled(l, secret, now), slack)
  {
    var n := l.renewal.value;
    var half := n.ttl - 2 * slack;
    assert (n.generation + 1) * half == n.generation * half + half;
    FloorFacts(n.until);
  }

  lemma EffectIsPaced(s: System, e: Event, i: nat, slack: int)
    requires Inv(s) && Enabled(s, e) && i < |s.leases| && s.leases[i].renewal.Some?
    requires Paced(s.leases[i], slack) && (e.at + s.leases[i].renewal.value.ttl) % SECOND <= slack
    ensures Effect(s.leases[i], e.op, e.at).renewal.Some?
    ensures Paced(Effect(s.leases[i], e.op, e.at), slack)
  {
    var l := s.leases[i];
    assert Chronicled(s, l);
    if Renews(e.op, l, e.at) && Due(l, e.at) {
      RolledIsPaced(l, e.op.query.secret, e.at, slack);
    }
  }

  lemma CreatedIsPaced(a: NewLease, now: Time, slack: int)
    requires Creatable(a) && a.renewalTtl.Some? && (now + a.ttl) % SECOND <= slack
    ensures Created(a, now).renewal.Some? && Paced(Created(a, now), slack)
  {
    FloorFacts(now);
    FloorFacts(now + a.ttl);
  }

  /** A step in place leaves each lease paced. */
  lemma InPlaceKeepsPace(s: System, e: Event, ttl: int, slack: int, l: Lease)
    requires Inv(s) && Enabled(s, e) && AllPaced(s.leases, ttl, slack) && InPlace(e.op)
    requires (e.at + ttl) % SECOND <= slack
    requires l in Step(s, e).leases && l.renewal.Some? && l.renewal.value.ttl == ttl
    ensures Paced(l, slack)
  {
    var i := FromBefore(s.leases, e.op, e.at, l);
    EffectGrows(s, e, i);
    EffectIsPaced(s, e, i, slack);
  }

  lemma StepKeepsPace(s: System, e: Event, ttl: int, slack: int)
    requires Inv(s) && Enabled(s, e) && AllPaced(s.leases, ttl, slack)
    requires (e.at + ttl) % SECOND <= slack
    ensures AllPaced(Step(s, e).leases, ttl, slack)
  {
    forall l | l in Step(s, e).leases && l.renewal.Some? && l.renewal.value.ttl == ttl
      ensures Paced(l, slack)
    {
      match e.op {
        case Create(a) =>
          if l !in s.leases { CreatedIsPaced(a, e.at, slack); }
        case Cleanup => KeptIs(s.leases, e.at, l);
        case _ => InPlaceKeepsPace(s, e, ttl, slack, l);
      }
    }
  }

  lemma {:induction false} RunKeepsPace(s: System, events: seq<Event>, ttl: int, slack: int)
    requires Inv(s) && ValidRun(s, events) && AllPaced(s.leases, ttl, slack) && Steady(events, ttl, slack)
    ensures AllPaced(After(s, events).leases, ttl, slack)
    decreases |events|
  {
    if events != [] {
      StepKeepsInv(s, events[0]);
      StepKeepsPace(s, events[0], ttl, slack);
      RunKeepsPace(Step(s, events[0]), events[1..], ttl, slack);
    }
  }

  /**
    Over every run a renewable lease never expires past the end of its authorization, and its
    generation g, once renewed, satisfies g * (ttl - 2 * slack) + ttl < 2 * window.
   */
  lemma GenerationBound(events: seq<Event>, l: Lease, slack: int)
    requires ValidRun(Empty, events) && l in After(Empty, events).leases && l.renewal.Some?
    requires Steady(events, l.renewal.value.ttl, slack)
    ensures l.expiresAt <= l.renewal.value.until
    ensures var n := l.renewal.value;
      n.generation >= 1 ==> n.generation * (n.ttl - 2 * slack) + n.ttl < 2 * (n.until - l.createdAt)
  {
    EmptyInv();
    RunKeepsInv(Empty, events);
    assert Chronicled(After(Empty, events), l);
    RunKeepsPace(Empty, events, l.renewal.value.ttl, slack);
  }

  predicate WholeSeconds(events: seq<Event>) {
    forall i :: 0 <= i < |events| ==> events[i].at % SECOND == 0
  }

  /** On whole-second readings and lifetimes the generation stays below twice window over lifetime. */
  lemma WholeSecondGenerationBound(events: seq<Event>, l: Lease)
    requires ValidRun(Empty, events) && l in After(Empty, events).leases && l.renewal.Some?
    requires WholeSeconds(events) && l.renewal.value.ttl % SECOND == 0
    ensures var n := l.renewal.value;
      n.generation >= 1 ==> (n.generation + 1) * n.ttl < 2 * (n.until - l.createdAt)
  {
    SteadyOnWholeSeconds(events, l.renewal.value.ttl);
    GenerationBound(events, l, 0);
    OneMoreLife(l.renewal.value.generation, l.renewal.value.ttl);
  }

  lemma SteadyOnWholeSeconds(events: seq<Event>, ttl: int)
    requires WholeSeconds(events) && ttl % SECOND == 0
    ensures Steady(events, ttl, 0)
  {
    forall i | 0 <= i < |events|
      ensures (events[i].at + ttl) % SECOND <= 0
    {
      WholeSum(events[i].at, ttl);
    }
  }

  lemma OneMoreLife(g: nat, ttl: int)
    ensures g * (ttl - 2 * 0) + ttl == (g + 1) * ttl
  {
  }

  /** On any readings at all, the bound holds with two seconds taken off the lifetime. */
  lemma AnyClockGenerationBound(events: seq<Event>, l: Lease)
    requires ValidRun(Empty, events) && l in After(Empty, events).leases && l.renewal.Some?
    ensures var n := l.renewal.value;
      n.generation >= 1 ==> n.generation * (n.ttl - 2 * (SECOND - 1)) + n.ttl < 2 * (n.until - l.createdAt)
  {
    GenerationBound(events, l, SECOND - 1);
  }

  // ---------------------------------------------------------------------------------
  // Two renewals at one instant
  // ---------------------------------------------------------------------------------

  /** The lease is due, and truncating its new expiry leaves it due again at once. */
  predicate Churns(l: Lease, now: Time)
    requires l.renewal.Some?
  {
    var end := now + l.renewal.value.ttl;
    && Due(l, now) && end < l.renewal.value.until && end % SECOND != 0
    && 2 * (Floor(end) - now) <= l.renewal.value.ttl
  }

  lemma RolledIsDueWhenChurning(l: Lease, secret: string, now: Time)
    requires l.renewal.Some? && l.renewal.value.until % SECOND == 0
    ensures Rolled(l, secret, now).renewal.Some?
    ensures Due(Rolled(l, secret, now), now) <==> Churns(l, now)
  {
    var n := l.renewal.value;
    FloorFacts(n.until);
    FloorFacts(now + n.ttl);
  }

  lemma RolledIsStillGranted(l: Lease, q: RenewRequest, now: Time)
    requires RenewalDenial(l, q, now).None?
    ensures RenewalDenial(Rolled(l, q.secret, now), q, now).None?
  {
    assert Rolled(l, q.secret, now).capabilities == l.capabilities;
  }

  lemma RenewOnce(leases: seq<Lease>, q: RenewRequest, now: Time)
    requires Distinct(leases) && Renew(leases, q, now).1.Ok?
    ensures var i := First(leases, ByInvite(q.inviteId));
      && i < |leases| && RenewalDenial(leases[i], q, now).None? && leases[i].renewal.Some?
      && Renew(leases, q, now).0 == leases[i := Rolled(leases[i], q.secret, now)]
      && Distinct(Renew(leases, q, now).0)
      && First(Renew(leases, q, now).0, ByInvite(q.inviteId)) == i
  {
    var i := First(leases, ByInvite(q.inviteId));
    StepKeepsDistinct(leases, RenewBy(q), now);
    FirstIsTheOne(Renew(leases, q, now).0, ByInvite(q.inviteId), i);
  }

  /**
    A second renewal at the same instant returns the same token and leaves the store as it is,
    if and only if the lease does not churn.
   */
  lemma SecondRenewal(s: System, q: RenewRequest, now: Time)
    requires Inv(s) && Renew(s.leases, q, now).1.Ok?
    ensures var (once, ok) := Renew(s.leases, q, now);
      var i := First(s.leases, ByInvite(q.inviteId));
      && i < |s.leases| && s.leases[i].renewal.Some?
      && (Renew(once, q, now) == (once, Ok(ok.token, false)) <==> !Churns(s.leases[i], now))
  {
    var i := First(s.leases, ByInvite(q.inviteId));
    var once := Renew(s.leases, q, now).0;
    RenewOnce(s.leases, q, now);
    assert Chronicled(s, s.leases[i]);
    RolledIsDueWhenChurning(s.leases[i], q.secret, now);
    RolledIsStillGranted(s.leases[i], q, now);
    if !Churns(s.leases[i], now) {
      assert once[i := once[i]] == once;
    }
  }

  /** Lifetimes of two seconds or more do not churn, nor do whole-second readings and lifetimes. */
  lemma LongLivesDoNotChurn(l: Lease, now: Time)
    requires l.renewal.Some?
    requires l.renewal.value.ttl >= 2 * SECOND || (now % SECOND == 0 && l.renewal.value.ttl % SECOND == 0)
    ensures !Churns(l, now)
  {
    var ttl := l.renewal.value.ttl;
    if ttl >= 2 * SECOND {
      FloorFacts(now + ttl);
    } else {
      WholeSum(now, ttl);
    }
  }

  lemma WholeSum(a: Time, b: Time)
    requires a % SECOND == 0 && b % SECOND == 0
    ensures (a + b) % SECOND == 0
  {
    assert a == SECOND * (a / SECOND) && b == SECOND * (b / SECOND);
    assert a + b == SECOND * (a / SECOND + b / SECOND);
  }

  function RenewTimes(leases: seq<Lease>, q: RenewRequest, now: Time, n: nat): seq<Lease> {
    if n == 0 then leases else Renew(RenewTimes(leases, q, now, n - 1), q, now).0
  }

  /** The request is granted on lease i, which churns. */
  ghost predicate Churning(leases: seq<Lease>, q: RenewRequest, now: Time, i: nat) {
    && Distinct(leases) && i == First(leases, ByInvite(q.inviteId)) < |leases| && RenewalDenial(leases[i], q, now).None?
    && leases[i].renewal.value.until % SECOND == 0 && Churns(leases[i], now)
  }

  lemma ChurnsOnceMore(leases: seq<Lease>, q: RenewRequest, now: Time, i: nat)
    requires Churning(leases, q, now, i)
    ensures var after := Renew(leases, q, now).0;
      Churning(after, q, now, i) && after[i].renewal.value.generation == leases[i].renewal.value.generation + 1
  {
    RenewOnce(leases, q, now);
    RolledIsStillGranted(leases[i], q, now);
    RolledIsDueWhenChurning(leases[i], q.secret, now);
  }

  /** A churning lease takes a new generation at every renewal, without the clock moving. */
  lemma {:induction false} ChurningIsUnbounded(leases: seq<Lease>, q: RenewRequest, now: Time, i: nat, n: nat)
    requires Churning(leases, q, now, i)
    ensures var after := RenewTimes(leases, q, now, n);
      Churning(after, q, now, i) && after[i].renewal.value.generation == leases[i].renewal.value.generation + n
  {
    if n > 0 {
      ChurningIsUnbounded(leases, q, now, i, n - 1);
      ChurnsOnceMore(RenewTimes(leases, q, now, n - 1), q, now, i);
    }
  }

  /** A one-second lifetime read half a second past the second churns from its creation on. */
  lemma OneSecondLifeChurns(a: NewLease)
    requires a.ttl == SECOND && a.renewalTtl == Some(10 * SECOND)
    ensures var l := Created(a, SECOND / 2); l.renewal.Some? && Churns(l, SECOND / 2)
  {
    assert Floor(SECOND / 2 + SECOND) == SECOND;
    assert Floor(SECOND / 2 + 10 * SECOND) == 10 * SECOND;
  }
}
