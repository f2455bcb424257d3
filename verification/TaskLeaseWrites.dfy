/**
  What each operation of the lease store writes, field by field, and exactly when a renewal is
  granted. Stored times are whole seconds at or before the time meant.
 */
module TaskLeaseWrites {
  import opened Options
  import opened Rules
  import opened TaskLeases
  import opened TaskLeaseRuns
  import opened TaskLeaseRules

  /** The stored form of a time, told without computing it. */
  predicate Stands(stored: Time, meant: Time) {
    stored % 1_000_000 == 0 && stored <= meant < stored + 1_000_000
  }

  predicate StandsFor(stored: Option<Time>, meant: Time) {
    stored.Some? && Stands(stored.value, meant)
  }

  // ---------------------------------------------------------------------------------
  // Renewal: who may
  // ---------------------------------------------------------------------------------

  predicate Verified(auth: Option<Auth>) {
    auth.Some? && auth.value.enabled
  }

  /**
    The caller holds the renewal secret, nothing is revoked, the authorization has time left,
    the caller is verified or holds the bearer, is one the binding accepts, and neither the
    policy nor the call budget stands against it.
   */
  predicate MayRenew(l: Lease, q: RenewRequest, now: Time) {
    && l.renewal.Some?
    && var n := l.renewal.value;
       && q.secret != "" && n.secretDigest == Sha256(Opaque(q.secret))
       && l.revokedAt.None? && n.revokedAt.None? && now < n.until
       && (Verified(q.auth) || (q.bearer != "" && n.bearerDigest == Some(Sha256(Opaque(q.bearer)))))
       && Accepts(l.binding, q.auth)
       && (q.policy.Some? ==> forall c :: c in l.capabilities ==> c in q.policy.value)
       && (l.maxCalls.Some? ==> l.useCount < l.maxCalls.value)
  }

  /** The invite's first lease in the store. */
  predicate IsFirst(leases: seq<Lease>, inviteId: string, i: nat) {
    i < |leases| && leases[i].inviteId == Some(inviteId) && forall j :: 0 <= j < i ==> leases[j].inviteId != Some(inviteId)
  }

  function AccessRules(l: Lease, n: Renewal, q: RenewRequest, now: Time): seq<Rule<Reason>> {
    [Rule(q.secret == "" || n.secretDigest != Sha256(Opaque(q.secret)), RenewalInvalid),
     Rule(l.revokedAt.Some? || n.revokedAt.Some?, RevokedLease),
     Rule(n.until <= now, RenewalExpired),
     Rule(n.bearerDigest.Some? && !Verified(q.auth) && (q.bearer == "" || n.bearerDigest.value != Sha256(Opaque(q.bearer))), RenewalAuthRequired),
     Rule(n.bearerDigest.None? && !Verified(q.auth), AuthMissing)]
  }

  function BudgetRules(l: Lease, q: RenewRequest): seq<Rule<Reason>> {
    [Rule(q.policy.Some? && exists c :: c in l.capabilities && c !in q.policy.value, CapabilityRemoved),
     Rule(l.maxCalls.Some? && l.maxCalls.value <= l.useCount, MaxCallsExceeded)]
  }

  function DenialOf(r: Renewed): Option<Reason> {
    if r.Denied? then Some(r.reason) else None
  }

  /** A renewal is granted if and only if the invite's first lease may be renewed. */
  lemma RenewalGrantedExactly(leases: seq<Lease>, q: RenewRequest, now: Time, i: nat)
    ensures IsFirst(leases, q.inviteId, i) ==> (Renew(leases, q, now).1.Ok? <==> MayRenew(leases[i], q, now))
    ensures (forall j :: 0 <= j < |leases| ==> leases[j].inviteId != Some(q.inviteId)) ==>
              Renew(leases, q, now) == (leases, Denied(RenewalInvalid))
  {
    if IsFirst(leases, q.inviteId, i) {
      FirstOfInvite(leases, q.inviteId, i);
      AuthAcceptsExactly(leases[i].binding, q.auth);
    }
  }

  lemma FirstOfInvite(leases: seq<Lease>, inviteId: string, i: nat)
    requires IsFirst(leases, inviteId, i)
    ensures First(leases, ByInvite(inviteId)) == i
  {
  }

  /** A refused renewal names the first rule it breaks, and changes nothing. */
  lemma RenewalRefusedInOrder(leases: seq<Lease>, q: RenewRequest, now: Time, i: nat)
    requires IsFirst(leases, q.inviteId, i)
    ensures leases[i].renewal.None? ==> Renew(leases, q, now).1 == Denied(RenewalInvalid)
    ensures leases[i].renewal.Some? ==>
      var l := leases[i];
      FirstBroken(AccessRules(l, l.renewal.value, q, now) + IdentityRules(l.binding, q.auth) + BudgetRules(l, q), DenialOf(Renew(leases, q, now).1))
    ensures Renew(leases, q, now).1.Denied? ==> Renew(leases, q, now).0 == leases
  {
    FirstOfInvite(leases, q.inviteId, i);
    var l := leases[i];
    if l.renewal.Some? {
      var access, identity, budget := AccessDenial(l, q, now), AuthDenial(l.binding, q.auth), BudgetDenial(l, q);
      AccessRefusedInOrder(l, q, now);
      IdentityRefusedInOrder(l.binding, q.auth);
      BudgetRefusedInOrder(l, q);
      FirstOfBoth(AccessRules(l, l.renewal.value, q, now), IdentityRules(l.binding, q.auth), access, identity);
      FirstOfBoth(AccessRules(l, l.renewal.value, q, now) + IdentityRules(l.binding, q.auth), BudgetRules(l, q),
                  if access.Some? then access else identity, budget);
    }
  }

  function AccessDenial(l: Lease, q: RenewRequest, now: Time): Option<Reason>
    requires l.renewal.Some?
  {
    RenewalDenial(l.(binding := Binding([], [], [], [], [], []), capabilities := [], maxCalls := None), q, now)
  }

  function BudgetDenial(l: Lease, q: RenewRequest): Option<Reason> {
    if q.policy.Some? && exists c :: c in l.capabilities && c !in q.policy.value then Some(CapabilityRemoved)
    else if Exhausted(l, l.useCount) then Some(MaxCallsExceeded)
    else None
  }

  lemma AccessRefusedInOrder(l: Lease, q: RenewRequest, now: Time)
    requires l.renewal.Some?
    ensures FirstBroken(AccessRules(l, l.renewal.value, q, now), AccessDenial(l, q, now))
  {
    var denial := AccessDenial(l, q, now);
    if denial.Some? {
      var k := match denial.value
        case RenewalInvalid => 0 case RevokedLease => 1 case RenewalExpired => 2 case RenewalAuthRequired => 3 case _ => 4;
      assert BrokenFirst(AccessRules(l, l.renewal.value, q, now), k);
    }
  }

  lemma BudgetRefusedInOrder(l: Lease, q: RenewRequest)
    ensures FirstBroken(BudgetRules(l, q), BudgetDenial(l, q))
  {
    var denial := BudgetDenial(l, q);
    if denial.Some? {
      assert BrokenFirst(BudgetRules(l, q), if denial.value == CapabilityRemoved then 0 else 1);
    }
  }

  // ---------------------------------------------------------------------------------
  // Renewal: what it writes
  // ---------------------------------------------------------------------------------

  /** Half a life or less is left, and both the lifetime and the authorization reach further. */
  predicate HalfGone(l: Lease, n: Renewal, now: Time) {
    2 * (l.expiresAt - now) <= n.ttl && l.expiresAt < now + n.ttl && l.expiresAt < n.until
  }

  /** The next generation of a lease, as a renewal writes it. */
  predicate NextGeneration(l: Lease, n: Renewal, after: Lease, token: Token, now: Time) {
    && after.renewal.Some?
    && var m := after.renewal.value;
       && after == l.(expiresAt := after.expiresAt, digest := Sha256(token), renewal := Some(m))
       && m == n.(generation := n.generation + 1, renewals := n.renewals + 1, lastRenewed := m.lastRenewed, previous := m.previous)
       && StandsFor(m.lastRenewed, now)
       && Stands(after.expiresAt, if n.until <= now + n.ttl then n.until else now + n.ttl)
       && if l.expiresAt <= now then m.previous == None
          else
            && m.previous.Some? && m.previous.value.digest == l.digest
            && Stands(m.previous.value.until, if l.expiresAt <= now + 30_000_000 then l.expiresAt else now + 30_000_000)
  }

  /**
    What a granted renewal writes: nothing while more than half a life is left or nothing more is
    to be had, else the next generation; the token answers for the generation that is then current.
   */
  lemma RenewalWrites(leases: seq<Lease>, q: RenewRequest, now: Time, i: nat)
    requires IsFirst(leases, q.inviteId, i) && MayRenew(leases[i], q, now)
    ensures var (after, r) := Renew(leases, q, now);
      var (l, n) := (leases[i], leases[i].renewal.value);
      && |after| == |leases| && (forall j :: 0 <= j < |leases| && j != i ==> after[j] == leases[j])
      && r.Ok? && (r.changed <==> HalfGone(l, n, now))
      && r.token == Derived(q.secret, l.id, if r.changed then n.generation + 1 else n.generation)
      && if r.changed then NextGeneration(l, n, after[i], r.token, now) else after[i] == l
  {
    FirstOfInvite(leases, q.inviteId, i);
    AuthAcceptsExactly(leases[i].binding, q.auth);
    assert RenewalDenial(leases[i], q, now).None?;
    FloorStands(now);
    FloorStands(Min(leases[i].renewal.value.until, now + leases[i].renewal.value.ttl));
    FloorStands(Min(leases[i].expiresAt, now + OVERLAP));
  }

  lemma FloorStands(t: Time)
    ensures Stands(Floor(t), t)
  {
  }

  // ---------------------------------------------------------------------------------
  // The other writers
  // ---------------------------------------------------------------------------------

  /** What create asks of its arguments. */
  predicate Acceptable(a: NewLease) {
    && (exists i :: 0 <= i < |a.task| && a.task[i] != ' ' && a.task[i] != '\t' && a.task[i] != '\n' && a.task[i] != '\r')
    && a.scope.tools != [] && a.ttl > 0 && (a.maxCalls.Some? ==> a.maxCalls.value > 0)
    && (a.renewalTtl.Some? ==>
          && a.inviteId.Some? && a.ttl <= a.renewalTtl.value
          && ((a.bearer.Some? && a.bearer.value != "")
              || (a.binding.issuers != [] && (a.binding.subjects != [] || a.binding.clientIds != []))))
  }

  /** What create stores. */
  predicate StoredFor(a: NewLease, l: Lease, now: Time) {
    && l.id == a.id && l.task == a.task && l.capabilities == a.capabilities && l.scope == a.scope && l.binding == a.binding
    && l.maxCalls == a.maxCalls && l.inviteId == a.inviteId
    && l.revokedAt.None? && l.useCount == 0 && l.lastUsedAt.None? && l.lastTool.None? && l.reactivatedAt.None?
    && Stands(l.createdAt, now) && Stands(l.expiresAt, now + a.ttl)
    && l.digest == Sha256(if a.renewalTtl.Some? then Derived(a.secret, a.id, 0) else Opaque(a.token))
    && (l.renewal.Some? <==> a.renewalTtl.Some?)
    && (a.renewalTtl.Some? ==>
          var n := l.renewal.value;
          && n.ttl == a.ttl && Stands(n.until, now + a.renewalTtl.value) && n.secretDigest == Sha256(Opaque(a.secret))
          && n.bearerDigest == (if a.bearer.Some? && a.bearer.value != "" then Some(Sha256(Opaque(a.bearer.value))) else None)
          && n.generation == 0 && n.renewals == 0 && n.lastRenewed.None? && n.revokedAt.None? && n.previous.None?)
  }

  /** Create appends the lease that was asked for, exactly if its arguments are acceptable. */
  lemma CreateWrites(leases: seq<Lease>, a: NewLease, now: Time)
    ensures var after := StepStore(leases, Create(a), now);
      if Acceptable(a) then
        |after| == |leases| + 1 && after[..|leases|] == leases && StoredFor(a, after[|leases|], now)
      else after == leases
  {
    FloorStands(now);
    FloorStands(now + a.ttl);
    if a.renewalTtl.Some? { FloorStands(now + a.renewalTtl.value); }
    assert Acceptable(a) <==> Creatable(a);
  }

  /** A first revocation sets its time, a later one keeps it; no other field and no other lease changes. */
  lemma RevokeWrites(leases: seq<Lease>, id: string, now: Time, i: nat)
    requires Identified(leases) && i < |leases|
    ensures var after := StepStore(leases, Revoke(id), now);
      && |after| == |leases|
      && if leases[i].id == id && leases[i].revokedAt.None? then
           after[i] == leases[i].(revokedAt := after[i].revokedAt) && StandsFor(after[i].revokedAt, now)
         else after[i] == leases[i]
  {
    StepIsPointwise(leases, Revoke(id), now, i);
    FloorStands(now);
  }

  /** The same for the renewal of every renewable lease of an invite. */
  lemma RevokeInviteWrites(leases: seq<Lease>, inviteId: string, now: Time, i: nat)
    requires i < |leases|
    ensures var after := StepStore(leases, RevokeInvite(inviteId), now);
      && |after| == |leases|
      && if leases[i].inviteId == Some(inviteId) && leases[i].renewal.Some? && leases[i].renewal.value.revokedAt.None? then
           && after[i].renewal.Some?
           && after[i] == leases[i].(renewal := Some(leases[i].renewal.value.(revokedAt := after[i].renewal.value.revokedAt)))
           && StandsFor(after[i].renewal.value.revokedAt, now)
         else after[i] == leases[i]
  {
    FloorStands(now);
  }

  /** Reactivation clears revocation and use, sets a new end and a new token, and may set a new limit; renewable leases stay as they are. */
  lemma ReactivateWrites(leases: seq<Lease>, id: string, ttl: int, maxCalls: Option<int>, token: string, now: Time, i: nat)
    requires Identified(leases) && i < |leases|
    ensures var after := StepStore(leases, Reactivate(id, ttl, maxCalls, token), now);
      && |after| == |leases|
      && if leases[i].id == id && leases[i].renewal.None? && ttl > 0 && (maxCalls.Some? ==> maxCalls.value > 0) then
           && after[i].revokedAt.None? && after[i].useCount == 0 && after[i].lastUsedAt.None? && after[i].lastTool.None?
           && after[i].digest == Sha256(Opaque(token))
           && Stands(after[i].expiresAt, now + ttl) && StandsFor(after[i].reactivatedAt, now)
           && after[i].maxCalls == (if maxCalls.Some? then maxCalls else leases[i].maxCalls)
           && after[i].id == id && after[i].task == leases[i].task && after[i].createdAt == leases[i].createdAt
           && after[i].capabilities == leases[i].capabilities && after[i].scope == leases[i].scope
           && after[i].binding == leases[i].binding && after[i].inviteId == leases[i].inviteId && after[i].renewal.None?
         else after[i] == leases[i]
  {
    StepIsPointwise(leases, Reactivate(id, ttl, maxCalls, token), now, i);
    FloorStands(now);
    FloorStands(now + ttl);
  }

  /** An enforced request records one use on the lease that admits its call, and nothing anywhere else. */
  lemma EnforceWrites(leases: seq<Lease>, p: Presented, r: Request, auth: Option<Auth>, required: bool, now: Time, i: nat)
    requires Identified(leases) && i < |leases|
    ensures var after := StepStore(leases, Enforce(p, r, auth, required), now);
      && |after| == |leases|
      && if r.ToolsCall? && Shows(p, leases[i], now) && Usable(leases[i], auth, now) && InScope(leases[i].scope, r) then
           && after[i] == leases[i].(useCount := leases[i].useCount + 1, lastUsedAt := after[i].lastUsedAt, lastTool := r.tool)
           && StandsFor(after[i].lastUsedAt, now)
         else after[i] == leases[i]
  {
    StepIsPointwise(leases, Enforce(p, r, auth, required), now, i);
    AuthAcceptsExactly(leases[i].binding, auth);
    if r.ToolsCall? { ScopeAllowsExactly(leases[i].scope, r); }
    FloorStands(now);
  }

  /** Cleanup keeps a lease exactly if it is not revoked and either has time left or can still be renewed. */
  lemma CleanupKeepsExactly(leases: seq<Lease>, now: Time, l: Lease)
    ensures l in StepStore(leases, Cleanup, now) <==>
      && l in leases && l.revokedAt.None?
      && (now < l.expiresAt || (l.renewal.Some? && l.renewal.value.revokedAt.None? && now < l.renewal.value.until))
  {
    KeptIs(leases, now, l);
  }
}
