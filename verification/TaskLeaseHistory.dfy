/**
  Whole runs of a lease store: renewal arithmetic, the lifetime of each token, and the call
  budget across all generations of a lease.
 */
module TaskLeaseHistory {
  import opened Options
  import opened TaskLeases
  import opened TaskLeaseRuns

  /** When a token of some generation was minted, and the expiry stored with it. */
  datatype Mint = Mint(at: Time, expiresAt: Time)

  /**
    The store and three histories: every id ever used, every (id, generation) ever minted, and
    for each id the uses admitted since its creation or last reactivation.
   */
  datatype System = System(
    leases: seq<Lease>, now: Time,
    ids: set<string>, minted: map<(string, nat), Mint>, admitted: map<string, nat>)

  datatype Event = Event(op: Op, at: Time)

  const Empty: System := System([], 0, {}, map[], map[])

  /** The clock does not go back, and what an operation draws at random is new. */
  ghost predicate Enabled(s: System, e: Event) {
    && s.now <= e.at && DrawsFresh(s.leases, e.op)
    && (e.op.Create? ==> e.op.args.id !in s.ids)
  }

  function MintedBy(s: System, e: Event): map<(string, nat), Mint> {
    match e.op
    case Create(a) =>
      if Creatable(a) && a.renewalTtl.Some? then map[(a.id, 0) := Mint(e.at, Created(a, e.at).expiresAt)] else map[]
    case RenewBy(q) =>
      var i := First(s.leases, ByInvite(q.inviteId));
      if i < |s.leases| && Renews(e.op, s.leases[i], e.at) && Due(s.leases[i], e.at) then
        var l := Rolled(s.leases[i], q.secret, e.at);
        map[(l.id, l.renewal.value.generation) := Mint(e.at, l.expiresAt)]
      else map[]
    case _ => map[]
  }

  function CountedBy(s: System, e: Event): map<string, nat> {
    match e.op
    case Create(a) => if Creatable(a) then map[a.id := 0] else map[]
    case Reactivate(id, ttl, maxCalls, _) => if Reactivatable(s.leases, id, ttl, maxCalls) then map[id := 0] else map[]
    case Enforce(p, r, auth, required) =>
      var v := Evaluate(s.leases, p, r, auth, required, e.at);
      if v.Admitted? && r.ToolsCall? then
        var id := s.leases[v.index].id;
        map[id := (if id in s.admitted then s.admitted[id] else 0) + 1]
      else map[]
    case _ => map[]
  }

  function Step(s: System, e: Event): System {
    System(StepStore(s.leases, e.op, e.at), e.at,
           s.ids + (if e.op.Create? then {e.op.args.id} else {}),
           s.minted + MintedBy(s, e), s.admitted + CountedBy(s, e))
  }

  ghost predicate ValidRun(s: System, events: seq<Event>)
    decreases |events|
  {
    events == [] || (Enabled(s, events[0]) && ValidRun(Step(s, events[0]), events[1..]))
  }

  function After(s: System, events: seq<Event>): System
    decreases |events|
  {
    if events == [] then s else After(Step(s, events[0]), events[1..])
  }

  // ---------------------------------------------------------------------------------
  // What every operation keeps
  // ---------------------------------------------------------------------------------

  /** The record agrees with the history of its tokens; only the current and the last one can be live. */
  ghost predicate Chronicled(s: System, l: Lease) {
    && l.id in s.ids && l.id in s.admitted && l.useCount == s.admitted[l.id]
    && (l.maxCalls.Some? ==> l.useCount <= l.maxCalls.value)
    && (l.renewal.Some? ==> Minted(s.minted, s.now, l))
    && (l.renewal.None? ==> forall g :: (l.id, g) !in s.minted)
  }

  ghost predicate Minted(minted: map<(string, nat), Mint>, now: Time, l: Lease)
    requires l.renewal.Some?
  {
    var n := l.renewal.value;
    && n.ttl > 0 && n.until % SECOND == 0 && l.expiresAt % SECOND == 0 && l.expiresAt <= n.until
    && (forall g: nat :: (l.id, g) in minted <==> g <= n.generation)
    && minted[(l.id, n.generation)].expiresAt == l.expiresAt
    && minted[(l.id, n.generation)].at <= now
    && (n.previous.Some? ==> n.generation >= 1)
    && (n.previous.Some? ==>
          && n.previous.value.until <= minted[(l.id, n.generation - 1)].expiresAt
          && n.previous.value.until <= minted[(l.id, n.generation)].at + OVERLAP)
  }

  ghost predicate MintsAreKnown(s: System) {
    forall id: string, g: nat :: (id, g) in s.minted ==> id in s.ids
  }

  ghost predicate Inv(s: System) {
    && Distinct(s.leases)
    && (forall l :: l in s.leases ==> Chronicled(s, l))
    && MintsAreKnown(s)
  }

  lemma FloorFacts(t: Time)
    ensures t - SECOND < Floor(t) <= t && Floor(t) % SECOND == 0
    ensures t % SECOND == 0 ==> Floor(t) == t
  {
  }

  lemma FloorMonotone(a: Time, b: Time)
    requires a <= b
    ensures Floor(a) <= Floor(b)
  {
  }

  lemma CreatedIsChronicled(s: System, e: Event)
    requires Inv(s) && Enabled(s, e) && e.op.Create? && Creatable(e.op.args)
    ensures Chronicled(Step(s, e), Created(e.op.args, e.at))
  {
    var a := e.op.args;
    if a.renewalTtl.Some? {
      CreatedTimes(a, e.at);
      CreatedIsMinted(s.minted, a, e.at);
    }
  }

  lemma CreatedTimes(a: NewLease, now: Time)
    requires Creatable(a) && a.renewalTtl.Some?
    ensures var l := Created(a, now);
      && l.renewal.Some? && l.renewal.value.until % SECOND == 0 && l.expiresAt % SECOND == 0
      && l.expiresAt <= l.renewal.value.until
  {
    FloorFacts(now + a.ttl);
    FloorFacts(now + a.renewalTtl.value);
    FloorMonotone(now + a.ttl, now + a.renewalTtl.value);
  }

  lemma CreatedIsMinted(minted: map<(string, nat), Mint>, a: NewLease, now: Time)
    requires Creatable(a) && a.renewalTtl.Some? && forall g: nat :: (a.id, g) !in minted
    ensures Created(a, now).renewal.Some?
    ensures Minted(minted + map[(a.id, 0) := Mint(now, Created(a, now).expiresAt)], now, Created(a, now))
  {
    CreatedTimes(a, now);
  }

  lemma OthersHaveOtherIds(leases: seq<Lease>, i: nat, j: nat)
    requires Distinct(leases) && i < |leases| && j < |leases| && i != j
    ensures leases[i].id != leases[j].id
  {
    if i < j { assert Apart(leases[i], leases[j]); } else { assert Apart(leases[j], leases[i]); }
  }

  /** What an in-place operation mints for one lease. */
  lemma MintsArePointwise(s: System, e: Event, i: nat)
    requires Inv(s) && InPlace(e.op) && i < |s.leases|
    ensures forall g: nat :: (s.leases[i].id, g) in MintedBy(s, e) <==>
              Renews(e.op, s.leases[i], e.at) && Due(s.leases[i], e.at) && g == s.leases[i].renewal.value.generation + 1
    ensures Renews(e.op, s.leases[i], e.at) && Due(s.leases[i], e.at) ==>
              MintedBy(s, e)[(s.leases[i].id, s.leases[i].renewal.value.generation + 1)]
              == Mint(e.at, Effect(s.leases[i], e.op, e.at).expiresAt)
  {
    if e.op.RenewBy? {
      var j := First(s.leases, ByInvite(e.op.query.inviteId));
      FirstIsTheOne(s.leases, ByInvite(e.op.query.inviteId), i);
      if j < |s.leases| && j != i { OthersHaveOtherIds(s.leases, i, j); }
    }
  }

  /** What an in-place operation counts for one lease. */
  lemma CountsArePointwise(s: System, e: Event, i: nat)
    requires Inv(s) && InPlace(e.op) && i < |s.leases| && s.leases[i].id in s.admitted
    ensures s.leases[i].id in CountedBy(s, e) <==> Uses(e.op, s.leases[i], e.at) || Reactivates(e.op, s.leases[i])
    ensures s.leases[i].id in CountedBy(s, e) ==>
              CountedBy(s, e)[s.leases[i].id] == if e.op.Reactivate? then 0 else s.admitted[s.leases[i].id] + 1
  {
    match e.op
    case Enforce(p, r, auth, required) =>
      ResolvesToPresented(s.leases, p, e.at, i);
      var v := Evaluate(s.leases, p, r, auth, required, e.at);
      if v.Admitted? && v.index != i { OthersHaveOtherIds(s.leases, i, v.index); }
    case Reactivate(id, _, _, _) => FirstIsTheOne(s.leases, ById(id), i);
    case _ =>
  }

  /** The next generation, minted at `at`, continues the chronicle. */
  lemma RolledIsMinted(minted: map<(string, nat), Mint>, more: map<(string, nat), Mint>, now: Time, l: Lease, secret: string, at: Time)
    requires l.renewal.Some? && Minted(minted, now, l) && now <= at && Due(l, at)
    requires forall g: nat :: (l.id, g) in more <==> g == l.renewal.value.generation + 1
    requires more[(l.id, l.renewal.value.generation + 1)] == Mint(at, Rolled(l, secret, at).expiresAt)
    ensures Minted(minted + more, at, Rolled(l, secret, at))
  {
    var n := l.renewal.value;
    FloorFacts(Min(n.until, at + n.ttl));
    FloorFacts(Min(l.expiresAt, at + OVERLAP));
    assert (l.id, n.generation) !in more;
  }

  lemma MintedCarriesOver(minted: map<(string, nat), Mint>, more: map<(string, nat), Mint>, now: Time, l: Lease, at: Time)
    requires l.renewal.Some? && Minted(minted, now, l) && now <= at
    requires forall g: nat :: (l.id, g) !in more
    ensures Minted(minted + more, at, l)
  {
  }

  lemma EffectIsMinted(s: System, e: Event, i: nat)
    requires Inv(s) && Enabled(s, e) && InPlace(e.op) && i < |s.leases| && s.leases[i].renewal.Some?
    ensures Effect(s.leases[i], e.op, e.at).renewal.Some?
    ensures Minted(s.minted + MintedBy(s, e), e.at, Effect(s.leases[i], e.op, e.at))
  {
    var l := s.leases[i];
    assert Chronicled(s, l);
    MintsArePointwise(s, e, i);
    if Renews(e.op, l, e.at) && Due(l, e.at) {
      RolledIsMinted(s.minted, MintedBy(s, e), s.now, l, e.op.query.secret, e.at);
    } else {
      MintedCarriesOver(s.minted, MintedBy(s, e), s.now, l, e.at);
    }
  }

  /** Where an in-place operation leaves a lease in the histories. */
  lemma EffectIsChronicled(s: System, e: Event, i: nat)
    requires Inv(s) && Enabled(s, e) && InPlace(e.op) && i < |s.leases|
    ensures Chronicled(Step(s, e), Effect(s.leases[i], e.op, e.at))
  {
    var l := s.leases[i];
    assert Chronicled(s, l);
    EffectKeepsIdentity(l, e.op, e.at);
    CountsArePointwise(s, e, i);
    MintsArePointwise(s, e, i);
    if l.renewal.Some? { EffectIsMinted(s, e, i); }
  }

  lemma StepKeepsChronicles(s: System, e: Event, l: Lease)
    requires Inv(s) && Enabled(s, e) && l in Step(s, e).leases
    ensures Chronicled(Step(s, e), l)
  {
    var t := Step(s, e);
    match e.op {
      case Create(a) =>
        if l in s.leases {
          assert Chronicled(s, l);
        } else {
          CreatedIsChronicled(s, e);
        }
      case Cleanup =>
        KeptIs(s.leases, e.at, l);
        assert Chronicled(s, l);
      case _ =>
        var i := FromBefore(s.leases, e.op, e.at, l);
        EffectIsChronicled(s, e, i);
    }
  }

  lemma StepKeepsKnownMints(s: System, e: Event)
    requires Inv(s)
    ensures MintsAreKnown(Step(s, e))
  {
    if e.op.RenewBy? {
      var i := First(s.leases, ByInvite(e.op.query.inviteId));
      if i < |s.leases| { assert Chronicled(s, s.leases[i]); }
    }
  }

  lemma StepKeepsInv(s: System, e: Event)
    requires Inv(s) && Enabled(s, e)
    ensures Inv(Step(s, e))
  {
    StepKeepsDistinct(s.leases, e.op, e.at);
    StepKeepsKnownMints(s, e);
    forall l | l in Step(s, e).leases
      ensures Chronicled(Step(s, e), l)
    {
      StepKeepsChronicles(s, e, l);
    }
  }

  lemma {:induction false} RunKeepsInv(s: System, events: seq<Event>)
    requires Inv(s) && ValidRun(s, events)
    ensures Inv(After(s, events)) && s.now <= After(s, events).now
    decreases |events|
  {
    if events != [] {
      StepKeepsInv(s, events[0]);
      RunKeepsInv(Step(s, events[0]), events[1..]);
    }
  }

  // ---------------------------------------------------------------------------------
  // One lease over a run
  // ---------------------------------------------------------------------------------

  /**
    How a lease may change while it stays in the store: never its permissions, its binding or
    its invite, and if it is renewable only forward within its authorization and its budget.
   */
  predicate Grew(a: Lease, b: Lease) {
    && a.id == b.id && a.createdAt == b.createdAt && a.inviteId == b.inviteId
    && a.capabilities == b.capabilities && a.scope == b.scope && a.binding == b.binding
    && (a.revokedAt.Some? && a.renewal.Some? ==> b.revokedAt == a.revokedAt)
    && (a.renewal.Some? <==> b.renewal.Some?)
    && (a.renewal.Some? ==>
          && a.maxCalls == b.maxCalls && a.useCount <= b.useCount && a.expiresAt <= b.expiresAt
          && b.renewal.value.until == a.renewal.value.until && b.renewal.value.ttl == a.renewal.value.ttl
          && b.renewal.value.secretDigest == a.renewal.value.secretDigest
          && a.renewal.value.generation <= b.renewal.value.generation
          && (a.renewal.value.generation == b.renewal.value.generation ==> a.expiresAt == b.expiresAt && a.digest == b.digest))
  }

  lemma EffectGrows(s: System, e: Event, i: nat)
    requires Inv(s) && Enabled(s, e) && i < |s.leases|
    ensures Grew(s.leases[i], Effect(s.leases[i], e.op, e.at))
    ensures !(e.op.Reactivate? && e.op.id == s.leases[i].id) ==> Effect(s.leases[i], e.op, e.at).maxCalls == s.leases[i].maxCalls
  {
    var l := s.leases[i];
    assert Chronicled(s, l);
    if Renews(e.op, l, e.at) && Due(l, e.at) {
      FloorMonotone(l.expiresAt, Min(l.renewal.value.until, e.at + l.renewal.value.ttl));
    }
  }

  lemma StepDescent(s: System, e: Event, l: Lease) returns (l0: Lease)
    requires Inv(s) && Enabled(s, e) && l in Step(s, e).leases && l.id in s.ids
    ensures l0 in s.leases && Grew(l0, l)
    ensures !(e.op.Reactivate? && e.op.id == l.id) ==> l.maxCalls == l0.maxCalls
  {
    var t := Step(s, e);
    match e.op {
      case Create(a) =>
        l0 := l;
        assert l in s.leases;
        assert Chronicled(s, l);
      case Cleanup =>
        KeptIs(s.leases, e.at, l);
        l0 := l;
      case _ =>
        var i := FromBefore(s.leases, e.op, e.at, l);
        EffectGrows(s, e, i);
        l0 := s.leases[i];
    }
  }

  lemma GrewTransitive(a: Lease, b: Lease, c: Lease)
    requires Grew(a, b) && Grew(b, c)
    ensures Grew(a, c)
  {
  }

  /**
    A lease found in the store under an id known earlier was there then, and has only grown:
    the stored expiry of a renewable lease never decreases and its authorization never moves.
   */
  lemma {:induction false} Descent(s: System, events: seq<Event>, l: Lease) returns (l0: Lease)
    requires Inv(s) && ValidRun(s, events) && l in After(s, events).leases && l.id in s.ids
    ensures l0 in s.leases && Grew(l0, l)
    decreases |events|
  {
    if events == [] {
      l0 := l;
    } else {
      StepKeepsInv(s, events[0]);
      var l1 := Descent(Step(s, events[0]), events[1..], l);
      l0 := StepDescent(s, events[0], l1);
      GrewTransitive(l0, l1, l);
    }
  }

  lemma EmptyInv()
    ensures Inv(Empty)
  {
  }

  // ---------------------------------------------------------------------------------
  // Tokens
  // ---------------------------------------------------------------------------------

  /**
    A header token of generation g is admitted only before the expiry stored with it, only
    within the overlap after generation g + 1 was minted, and never once g + 2 was.
   */
  lemma TokenLifetime(events: seq<Event>, secret: string, id: string, g: nat,
                      trusted: Trusted, r: Request, auth: Option<Auth>, required: bool, now: Time)
    requires ValidRun(Empty, events) && After(Empty, events).now <= now
    requires Evaluate(After(Empty, events).leases, Presented(trusted, [Derived(secret, id, g)]), r, auth, required, now).Admitted?
    ensures var minted := After(Empty, events).minted;
      && (id, g) in minted && now < minted[(id, g)].expiresAt
      && ((id, g + 1) in minted ==> now < minted[(id, g + 1)].at + 30 * SECOND)
      && (id, g + 2) !in minted
  {
    EmptyInv();
    RunKeepsInv(Empty, events);
    var s := After(Empty, events);
    var p := Presented(trusted, [Derived(secret, id, g)]);
    var v := Evaluate(s.leases, p, r, auth, required, now);
    ResolvesToPresented(s.leases, p, now, v.index);
    assert Chronicled(s, s.leases[v.index]);
  }

  /** The token a successful renewal returns resolves back to the renewed lease, whenever presented. */
  lemma RenewedTokenResolves(s: System, q: RenewRequest, now: Time, later: Time)
    requires Inv(s) && s.now <= now && Renew(s.leases, q, now).1.Ok? && q.secret != ""
    ensures var (leases, ok) := Renew(s.leases, q, now);
      var i := First(s.leases, ByInvite(q.inviteId));
      && i < |leases| && leases[i].id == s.leases[i].id
      && Resolve(leases, Presented(NoSelection, [ok.token]), later) == Found(i)
  {
    var e := Event(RenewBy(q), now);
    StepKeepsInv(s, e);
    var leases := Renew(s.leases, q, now).0;
    var i := First(s.leases, ByInvite(q.inviteId));
    assert Chronicled(s, s.leases[i]);
    assert OwnDigests(leases[i]);
    ResolvesToPresented(leases, Presented(NoSelection, [Renew(s.leases, q, now).1.token]), later, i);
  }

  /** The current token of any stored lease is derived for its generation, and resolves to it. */
  lemma CurrentTokenResolves(events: seq<Event>, i: nat, later: Time)
    requires ValidRun(Empty, events) && i < |After(Empty, events).leases|
    requires After(Empty, events).leases[i].renewal.Some?
    ensures var l := After(Empty, events).leases[i];
      && l.digest.token.Derived? && l.digest.token.leaseId == l.id
      && l.digest.token.generation == l.renewal.value.generation
      && Resolve(After(Empty, events).leases, Presented(NoSelection, [l.digest.token]), later) == Found(i)
  {
    EmptyInv();
    RunKeepsInv(Empty, events);
    var s := After(Empty, events);
    var l := s.leases[i];
    assert OwnDigests(l);
    ResolvesToPresented(s.leases, Presented(NoSelection, [l.digest.token]), later, i);
  }

  // ---------------------------------------------------------------------------------
  // Call budget
  // ---------------------------------------------------------------------------------

  /** Does the event admit a consuming tools/call on the lease with this id? */
  predicate Admits(s: System, e: Event, id: string) {
    e.op.Enforce? && e.op.request.ToolsCall?
    && var v := Evaluate(s.leases, e.op.presented, e.op.request, e.op.auth, e.op.required, e.at);
       v.Admitted? && s.leases[v.index].id == id
  }

  /** Consuming calls admitted on one id over a run, by whatever token or selection. */
  function AdmittedCalls(s: System, events: seq<Event>, id: string): nat
    decreases |events|
  {
    if events == [] then 0
    else (if Admits(s, events[0], id) then 1 else 0) + AdmittedCalls(Step(s, events[0]), events[1..], id)
  }

  function Counted(s: System, id: string): nat {
    if id in s.admitted then s.admitted[id] else 0
  }

  ghost predicate CountsAreKnown(s: System) {
    forall id :: id in s.admitted ==> id in s.ids
  }

  lemma StepKeepsKnownCounts(s: System, e: Event)
    requires Inv(s) && CountsAreKnown(s)
    ensures CountsAreKnown(Step(s, e))
  {
    match e.op
    case Reactivate(id, _, _, _) =>
      var i := First(s.leases, ById(id));
      if i < |s.leases| { assert Chronicled(s, s.leases[i]); }
    case Enforce(p, r, auth, required) =>
      var v := Evaluate(s.leases, p, r, auth, required, e.at);
      if v.Admitted? { assert Chronicled(s, s.leases[v.index]); }
    case _ =>
  }

  predicate Restarts(s: System, e: Event, id: string) {
    e.op.Reactivate? && e.op.id == id && Reactivatable(s.leases, id, e.op.ttl, e.op.maxCalls)
  }

  predicate NeverReactivates(events: seq<Event>, id: string) {
    forall i :: 0 <= i < |events| ==> events[i].op.Reactivate? ==> events[i].op.id != id
  }

  lemma StepCounts(s: System, e: Event, id: string)
    requires Inv(s) && CountsAreKnown(s) && Enabled(s, e) && !Restarts(s, e, id)
    ensures Counted(Step(s, e), id) == Counted(s, id) + if Admits(s, e, id) then 1 else 0
  {
  }

  /** A renewable lease cannot have been reactivated while it was in the store. */
  lemma RenewableNeverRestarts(s: System, events: seq<Event>, l: Lease)
    requires Inv(s) && ValidRun(s, events) && events != []
    requires l in After(s, events).leases && l.renewal.Some?
    ensures !Restarts(s, events[0], l.id)
  {
    var i := First(s.leases, ById(l.id));
    if i < |s.leases| {
      assert Chronicled(s, s.leases[i]);
      var l0 := Descent(s, events, l);
      var k :| 0 <= k < |s.leases| && s.leases[k] == l0;
      FirstIsTheOne(s.leases, ById(l.id), k);
    }
  }

  lemma {:induction false} CountOverRun(s: System, events: seq<Event>, l: Lease)
    requires Inv(s) && CountsAreKnown(s) && ValidRun(s, events) && l in After(s, events).leases
    requires l.renewal.Some? || NeverReactivates(events, l.id)
    ensures Counted(After(s, events), l.id) == Counted(s, l.id) + AdmittedCalls(s, events, l.id)
    decreases |events|
  {
    if events != [] {
      StepKeepsInv(s, events[0]);
      StepKeepsKnownCounts(s, events[0]);
      CountOverRun(Step(s, events[0]), events[1..], l);
      if l.renewal.Some? { RenewableNeverRestarts(s, events, l); }
      StepCounts(s, events[0], l.id);
    }
  }

  /**
    Call budget: in every run, the consuming calls ever admitted on a renewable lease, summed
    over all its generations and tokens, are its use count and never exceed its limit.
   */
  lemma CallBudget(events: seq<Event>, l: Lease)
    requires ValidRun(Empty, events) && l in After(Empty, events).leases && l.renewal.Some?
    ensures l.useCount == AdmittedCalls(Empty, events, l.id)
    ensures l.maxCalls.Some? ==> AdmittedCalls(Empty, events, l.id) <= l.maxCalls.value
  {
    EmptyInv();
    RunKeepsInv(Empty, events);
    assert Chronicled(After(Empty, events), l);
    CountOverRun(Empty, events, l);
  }

  /** For any other lease the same holds from its last reactivation on, or from its creation. */
  lemma CallBudgetSinceReactivation(before: seq<Event>, e: Event, events: seq<Event>, l: Lease)
    requires ValidRun(Empty, before) && Enabled(After(Empty, before), e)
    requires ValidRun(Step(After(Empty, before), e), events) && NeverReactivates(events, l.id)
    requires Restarts(After(Empty, before), e, l.id)
             || (e.op.Create? && e.op.args.id == l.id && Creatable(e.op.args))
    requires l in After(Step(After(Empty, before), e), events).leases
    ensures l.useCount == AdmittedCalls(Step(After(Empty, before), e), events, l.id)
    ensures l.maxCalls.Some? ==> l.useCount <= l.maxCalls.value
  {
    EmptyInv();
    RunKeepsInv(Empty, before);
    KnownCountsOverRun(Empty, before);
    var s := After(Empty, before);
    StepKeepsInv(s, e);
    StepKeepsKnownCounts(s, e);
    var t := Step(s, e);
    RunKeepsInv(t, events);
    assert Chronicled(After(t, events), l);
    CountOverRun(t, events, l);
  }

  lemma {:induction false} KnownCountsOverRun(s: System, events: seq<Event>)
    requires Inv(s) && CountsAreKnown(s) && ValidRun(s, events)
    ensures CountsAreKnown(After(s, events))
    decreases |events|
  {
    if events != [] {
      StepKeepsInv(s, events[0]);
      StepKeepsKnownCounts(s, events[0]);
      KnownCountsOverRun(Step(s, events[0]), events[1..]);
    }
  }

  predicate InStore(s: System, id: string) {
    exists l :: l in s.leases && l.id == id
  }

  lemma RemovedStaysRemoved(s: System, e: Event, id: string)
    requires Inv(s) && Enabled(s, e) && id in s.ids && !InStore(s, id)
    ensures !InStore(Step(s, e), id) && !Admits(s, e, id)
  {
    if InStore(Step(s, e), id) {
      var l :| l in Step(s, e).leases && l.id == id;
      var l0 := StepDescent(s, e, l);
    }
  }

  /** Once a lease is gone from the store, nothing is admitted on its id again. */
  lemma {:induction false} NothingAfterRemoval(s: System, events: seq<Event>, id: string)
    requires Inv(s) && ValidRun(s, events) && id in s.ids && !InStore(s, id)
    ensures AdmittedCalls(s, events, id) == 0
    decreases |events|
  {
    if events != [] {
      RemovedStaysRemoved(s, events[0], id);
      StepKeepsInv(s, events[0]);
      NothingAfterRemoval(Step(s, events[0]), events[1..], id);
    }
  }

  /** What was admitted on an id is within a limit, and its leases keep to that limit. */
  ghost predicate Budgeted(s: System, id: string, limit: int, renewable: bool) {
    && Counted(s, id) <= limit
    && forall l :: l in s.leases && l.id == id ==> l.maxCalls == Some(limit) && (renewable ==> l.renewal.Some?)
  }

  /** The id is created, if at all, with this limit. */
  predicate CreatedWithin(e: Event, id: string, limit: int, renewable: bool) {
    e.op.Create? && e.op.args.id == id ==> e.op.args.maxCalls == Some(limit) && (renewable ==> e.op.args.renewalTtl.Some?)
  }

  lemma BudgetedNeverRestarts(s: System, e: Event, id: string, limit: int, renewable: bool)
    requires Budgeted(s, id, limit, renewable) && (renewable || !(e.op.Reactivate? && e.op.id == id))
    ensures !Restarts(s, e, id)
  {
    var i := First(s.leases, ById(id));
    if i < |s.leases| { assert s.leases[i] in s.leases; }
  }

  lemma StoredIsKnown(s: System, id: string)
    requires Inv(s)
    ensures InStore(s, id) ==> id in s.ids
  {
    if InStore(s, id) {
      var l :| l in s.leases && l.id == id;
      assert Chronicled(s, l);
    }
  }

  lemma RenewableIsNotReactivated(s: System, e: Event, l: Lease, l0: Lease)
    requires Inv(s) && l in Step(s, e).leases && l0 in s.leases && l0.id == l.id && l0.renewal.Some?
    requires e.op.Reactivate? && e.op.id == l.id
    ensures l == l0
  {
    var i := FromBefore(s.leases, e.op, e.at, l);
    var k :| 0 <= k < |s.leases| && s.leases[k] == l0;
    KeyIsUnique(s.leases, ById(l.id), i, k);
  }

  lemma OnlyCreateAdds(s: System, e: Event, l: Lease)
    requires Inv(s) && l in Step(s, e).leases && !(e.op.Create? && l == Created(e.op.args, e.at))
    ensures InStore(s, l.id)
  {
    match e.op {
      case Create(_) => assert l in s.leases;
      case Cleanup => KeptIs(s.leases, e.at, l);
      case _ =>
        var i := FromBefore(s.leases, e.op, e.at, l);
        assert s.leases[i] in s.leases;
    }
  }

  lemma LeaseKeepsLimit(s: System, e: Event, id: string, limit: int, renewable: bool, l: Lease)
    requires Inv(s) && Enabled(s, e) && Budgeted(s, id, limit, renewable) && (id in s.ids || CreatedWithin(e, id, limit, renewable))
    requires renewable || !(e.op.Reactivate? && e.op.id == id)
    requires l in Step(s, e).leases && l.id == id
    ensures l.maxCalls == Some(limit) && (renewable ==> l.renewal.Some?)
  {
    StoredIsKnown(s, id);
    if !(e.op.Create? && l == Created(e.op.args, e.at)) {
      OnlyCreateAdds(s, e, l);
      var l0 := StepDescent(s, e, l);
      if e.op.Reactivate? && e.op.id == id { RenewableIsNotReactivated(s, e, l, l0); }
    }
  }

  lemma StepKeepsBudget(s: System, e: Event, id: string, limit: int, renewable: bool)
    requires Inv(s) && CountsAreKnown(s) && Enabled(s, e) && Budgeted(s, id, limit, renewable)
    requires (id in s.ids || CreatedWithin(e, id, limit, renewable)) && (renewable || !(e.op.Reactivate? && e.op.id == id))
    ensures Budgeted(Step(s, e), id, limit, renewable)
    ensures Counted(Step(s, e), id) == Counted(s, id) + if Admits(s, e, id) then 1 else 0
  {
    BudgetedNeverRestarts(s, e, id, limit, renewable);
    StepCounts(s, e, id);
    forall l | l in Step(s, e).leases && l.id == id
      ensures l.maxCalls == Some(limit) && (renewable ==> l.renewal.Some?)
    {
      LeaseKeepsLimit(s, e, id, limit, renewable, l);
    }
    if Admits(s, e, id) {
      var v := Evaluate(s.leases, e.op.presented, e.op.request, e.op.auth, e.op.required, e.at);
      assert Chronicled(s, s.leases[v.index]);
    }
  }

  lemma {:induction false} BudgetOverRun(s: System, events: seq<Event>, id: string, limit: int, renewable: bool)
    requires Inv(s) && CountsAreKnown(s) && ValidRun(s, events) && Budgeted(s, id, limit, renewable)
    requires id in s.ids || forall i :: 0 <= i < |events| ==> CreatedWithin(events[i], id, limit, renewable)
    requires renewable || NeverReactivates(events, id)
    ensures Counted(s, id) + AdmittedCalls(s, events, id) <= limit
    decreases |events|
  {
    if events != [] {
      StepKeepsInv(s, events[0]);
      StepKeepsKnownCounts(s, events[0]);
      StepKeepsBudget(s, events[0], id, limit, renewable);
      BudgetOverRun(Step(s, events[0]), events[1..], id, limit, renewable);
    }
  }

  /**
    Call budget of every id, whether its lease is still in the store or was removed: over a
    whole run no more calls are admitted on it than the limit it was created with.
   */
  lemma CallBudgetOfEveryId(events: seq<Event>, id: string, limit: nat, renewable: bool)
    requires ValidRun(Empty, events) && (forall i :: 0 <= i < |events| ==> CreatedWithin(events[i], id, limit, renewable))
    requires renewable || NeverReactivates(events, id)
    ensures AdmittedCalls(Empty, events, id) <= limit
  {
    EmptyInv();
    BudgetOverRun(Empty, events, id, limit, renewable);
  }

  /** From a reactivation on, the same holds with the limit the lease has then. */
  lemma CallBudgetOfReactivatedId(before: seq<Event>, e: Event, events: seq<Event>, id: string, limit: nat)
    requires ValidRun(Empty, before) && Enabled(After(Empty, before), e) && Restarts(After(Empty, before), e, id)
    requires ValidRun(Step(After(Empty, before), e), events) && NeverReactivates(events, id)
    requires forall l :: l in Step(After(Empty, before), e).leases && l.id == id ==> l.maxCalls == Some(limit)
    ensures AdmittedCalls(Step(After(Empty, before), e), events, id) <= limit
  {
    EmptyInv();
    RunKeepsInv(Empty, before);
    KnownCountsOverRun(Empty, before);
    var s := After(Empty, before);
    StepKeepsInv(s, e);
    StepKeepsKnownCounts(s, e);
    StoredIsKnown(s, id);
    var i := First(s.leases, ById(id));
    assert s.leases[i] in s.leases && InStore(s, id);
    BudgetOverRun(Step(s, e), events, id, limit, false);
  }
}
