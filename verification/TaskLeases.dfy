/**
  Task-scoped leases: the records of the lease store and the operations on it.

  Times are whole microseconds, as the clock reads them; stored times are truncated to whole
  seconds, as the source formats them. Tokens are values and their digests are injective.
 */
module TaskLeases {
  import opened Options
  import LeasePaths

  type Time = int

  const SECOND: int := 1_000_000
  const OVERLAP: int := 30 * SECOND

  /** The stored form of a time: whole seconds. */
  function Floor(t: Time): Time {
    t - t % SECOND
  }

  /** A random or caller-supplied token, or one derived by keyed hashing from a renewal secret. */
  datatype Token = Opaque(text: string) | Derived(secret: string, leaseId: string, generation: nat)

  datatype Digest = Sha256(token: Token)

  datatype Previous = Previous(digest: Digest, until: Time)

  datatype Renewal = Renewal(
    until: Time, ttl: int,
    secretDigest: Digest, bearerDigest: Option<Digest>,
    generation: nat, renewals: nat, lastRenewed: Option<Time>, revokedAt: Option<Time>,
    previous: Option<Previous>)

  datatype Scope = Scope(tools: seq<string>, paths: seq<string>, hosts: seq<string>, commands: seq<string>)

  datatype Binding = Binding(
    subjects: seq<string>, issuers: seq<string>, tenants: seq<string>,
    clientIds: seq<string>, groups: seq<string>, profiles: seq<string>)

  datatype Lease = Lease(
    id: string, task: string, createdAt: Time, expiresAt: Time, revokedAt: Option<Time>, digest: Digest,
    capabilities: seq<string>, scope: Scope, binding: Binding,
    maxCalls: Option<int>, useCount: nat, lastUsedAt: Option<Time>, lastTool: Option<string>,
    reactivatedAt: Option<Time>, inviteId: Option<string>, renewal: Option<Renewal>)

  /** The verified identity of a request; absent fields are empty. */
  datatype Auth = Auth(
    enabled: bool, subject: string, issuer: string, tenant: string, clientId: string,
    groups: seq<string>, profile: string)

  datatype Reason =
    | RenewalInvalid | RevokedLease | RenewalExpired | RenewalAuthRequired | AuthMissing
    | SubjectNotAllowed | IssuerNotAllowed | TenantNotAllowed | ClientIdNotAllowed | GroupNotAllowed | ProfileNotAllowed
    | CapabilityRemoved | MaxCallsExceeded | ExpiredLease
    | ToolNotAllowed | PathNotAllowed | HostNotAllowed | CommandNotAllowed
    | SelectionInvalid | SelectionConflict | LeaseInvalid | LeaseMissing

  /** A command argument with the program name parsed out of it. */
  datatype Command = Command(name: string, text: string)

  /** A tools/call with the strings collected from its arguments, or any other request. */
  datatype Request = ToolsCall(tool: Option<string>, paths: seq<string>, hosts: seq<string>, commands: seq<Command>) | OtherMethod

  // ---------------------------------------------------------------------------------
  // Denials
  // ---------------------------------------------------------------------------------

  predicate Bound(b: Binding) {
    b.subjects != [] || b.issuers != [] || b.tenants != [] || b.clientIds != [] || b.groups != [] || b.profiles != []
  }

  function AuthDenial(b: Binding, auth: Option<Auth>): Option<Reason> {
    if !Bound(b) then None
    else if auth.None? || !auth.value.enabled then Some(AuthMissing)
    else
      var a := auth.value;
      if b.subjects != [] && a.subject !in b.subjects then Some(SubjectNotAllowed)
      else if b.issuers != [] && a.issuer !in b.issuers then Some(IssuerNotAllowed)
      else if b.tenants != [] && a.tenant !in b.tenants then Some(TenantNotAllowed)
      else if b.clientIds != [] && a.clientId !in b.clientIds then Some(ClientIdNotAllowed)
      else if b.groups != [] && (forall g :: g in a.groups ==> g !in b.groups) then Some(GroupNotAllowed)
      else if b.profiles != [] && a.profile !in b.profiles then Some(ProfileNotAllowed)
      else None
  }

  predicate Exhausted(l: Lease, useCount: int) {
    l.maxCalls.Some? && useCount >= l.maxCalls.value
  }

  function CatalogDenial(l: Lease, auth: Option<Auth>, now: Time): Option<Reason> {
    if l.revokedAt.Some? then Some(RevokedLease)
    else if l.expiresAt <= now then Some(ExpiredLease)
    else if Exhausted(l, l.useCount) then Some(MaxCallsExceeded)
    else AuthDenial(l.binding, auth)
  }

  function ScopeDenial(s: Scope, r: Request): Option<Reason>
    requires r.ToolsCall?
  {
    if r.tool.None? || !("*" in s.tools || r.tool.value in s.tools) then Some(ToolNotAllowed)
    else if s.paths != [] && exists i :: 0 <= i < |r.paths| && !LeasePaths.PathAllowed(r.paths[i], s.paths) then
      Some(PathNotAllowed)
    else if s.hosts != [] && exists h :: h in r.hosts && h !in s.hosts then Some(HostNotAllowed)
    else if s.commands != [] && exists c :: c in r.commands && c.name !in s.commands && c.text !in s.commands then
      Some(CommandNotAllowed)
    else None
  }

  /** `useCount` is the stored count, or the stored count and what a preview has already planned. */
  function CallDenial(l: Lease, r: Request, useCount: int, auth: Option<Auth>, now: Time): Option<Reason>
    requires r.ToolsCall?
  {
    if l.revokedAt.Some? then Some(RevokedLease)
    else if l.expiresAt <= now then Some(ExpiredLease)
    else if Exhausted(l, useCount) then Some(MaxCallsExceeded)
    else
      var denial := AuthDenial(l.binding, auth);
      if denial.Some? then denial else ScopeDenial(l.scope, r)
  }

  // ---------------------------------------------------------------------------------
  // Lookup
  // ---------------------------------------------------------------------------------

  datatype Key = ById(id: string) | ByInvite(inviteId: string) | ByToken(token: Token, now: Time)

  predicate Fits(l: Lease, key: Key) {
    match key
    case ById(id) => l.id == id
    case ByInvite(inviteId) => l.inviteId == Some(inviteId)
    case ByToken(token, now) =>
      l.digest == Sha256(token)
      || (l.renewal.Some? && l.renewal.value.previous.Some?
          && now < l.renewal.value.previous.value.until
          && l.renewal.value.previous.value.digest == Sha256(token))
  }

  /** The first lease of the store that the key fits, or the store's length. */
  function First(leases: seq<Lease>, key: Key): (i: nat)
    ensures i <= |leases|
    ensures i < |leases| ==> Fits(leases[i], key)
    ensures forall j :: 0 <= j < i ==> !Fits(leases[j], key)
  {
    if leases == [] || Fits(leases[0], key) then 0 else 1 + First(leases[1..], key)
  }

  function Occurrences(leases: seq<Lease>, id: string): nat {
    if leases == [] then 0 else (if leases[0].id == id then 1 else 0) + Occurrences(leases[1..], id)
  }

  /** What trusted gateway code put in the request scope, if anything. */
  datatype Trusted = NoSelection | BadSelection | Selected(id: string)

  /** How a request presents a lease: a trusted selection and the values of the lease header. */
  datatype Presented = Presented(trusted: Trusted, headers: seq<Token>)

  datatype Resolution = Skipped | Refused(reason: Reason) | Found(index: nat)

  function Resolve(leases: seq<Lease>, p: Presented, now: Time): (r: Resolution)
    ensures r.Found? ==> r.index < |leases|
  {
    if p.trusted.BadSelection? then Refused(SelectionInvalid)
    else if |p.headers| > 1 then Refused(SelectionConflict)
    else if |p.headers| == 1 && p.headers[0] == Opaque("") then Refused(LeaseInvalid)
    else if p.headers == [] && p.trusted.NoSelection? then Skipped
    else if p.trusted.Selected? then
      var i := First(leases, ById(p.trusted.id));
      if Occurrences(leases, p.trusted.id) != 1 || i == |leases| then Refused(LeaseInvalid)
      else if p.headers != [] && First(leases, ByToken(p.headers[0], now)) != i then Refused(SelectionConflict)
      else Found(i)
    else
      var i := First(leases, ByToken(p.headers[0], now));
      if i == |leases| then Refused(LeaseInvalid) else Found(i)
  }

  // ---------------------------------------------------------------------------------
  // Enforcement
  // ---------------------------------------------------------------------------------

  datatype Verdict = Unleased | Admitted(index: nat) | Blocked(reason: Reason)

  function Evaluate(leases: seq<Lease>, p: Presented, r: Request, auth: Option<Auth>, required: bool, now: Time): (v: Verdict)
    ensures v.Admitted? ==> v.index < |leases|
  {
    match Resolve(leases, p, now)
    case Skipped => if required && r.ToolsCall? then Blocked(LeaseMissing) else Unleased
    case Refused(reason) => Blocked(reason)
    case Found(i) =>
      var l := leases[i];
      var denial := if r.ToolsCall? then CallDenial(l, r, l.useCount, auth, now) else CatalogDenial(l, auth, now);
      if denial.Some? then Blocked(denial.value) else Admitted(i)
  }

  function Used(l: Lease, tool: Option<string>, now: Time): Lease {
    l.(useCount := l.useCount + 1, lastUsedAt := Some(Floor(now)), lastTool := tool)
  }

  /** The store after an enforced request: one use is recorded for an admitted tools/call. */
  function Consumed(leases: seq<Lease>, v: Verdict, r: Request, now: Time): seq<Lease>
    requires v.Admitted? ==> v.index < |leases|
  {
    if v.Admitted? && r.ToolsCall? then leases[v.index := Used(leases[v.index], r.tool, now)] else leases
  }

  // ---------------------------------------------------------------------------------
  // Renewal
  // ---------------------------------------------------------------------------------

  datatype RenewRequest = RenewRequest(
    inviteId: string, secret: string, bearer: string, auth: Option<Auth>, policy: Option<set<string>>)

  datatype Renewed = Denied(reason: Reason) | Ok(token: Token, changed: bool)

  function RenewalDenial(l: Lease, q: RenewRequest, now: Time): Option<Reason> {
    if l.renewal.None? || q.secret == "" || l.renewal.value.secretDigest != Sha256(Opaque(q.secret)) then Some(RenewalInvalid)
    else
      var n := l.renewal.value;
      var enabled := q.auth.Some? && q.auth.value.enabled;
      if l.revokedAt.Some? || n.revokedAt.Some? then Some(RevokedLease)
      else if n.until <= now then Some(RenewalExpired)
      else if n.bearerDigest.Some? && !enabled && (q.bearer == "" || n.bearerDigest.value != Sha256(Opaque(q.bearer))) then
        Some(RenewalAuthRequired)
      else if n.bearerDigest.None? && !enabled then Some(AuthMissing)
      else
        var denial := AuthDenial(l.binding, q.auth);
        if denial.Some? then denial
        else if q.policy.Some? && exists c :: c in l.capabilities && c !in q.policy.value then Some(CapabilityRemoved)
        else if Exhausted(l, l.useCount) then Some(MaxCallsExceeded)
        else None
  }

  function Min(a: int, b: int): int {
    if a <= b then a else b
  }

  /** Past half of its life, and a later expiry is to be had. */
  predicate Due(l: Lease, now: Time)
    requires l.renewal.Some?
  {
    var n := l.renewal.value;
    2 * (l.expiresAt - now) <= n.ttl && Min(n.until, now + n.ttl) > l.expiresAt
  }

  /** The lease after a granted renewal: untouched, or one generation on. */
  function Rolled(l: Lease, secret: string, now: Time): Lease
    requires l.renewal.Some?
  {
    if !Due(l, now) then l
    else
      var n := l.renewal.value;
      var previous :=
        if now < l.expiresAt then Some(Previous(l.digest, Floor(Min(l.expiresAt, now + OVERLAP)))) else None;
      l.(expiresAt := Floor(Min(n.until, now + n.ttl)),
         digest := Sha256(Derived(secret, l.id, n.generation + 1)),
         renewal := Some(n.(generation := n.generation + 1, renewals := n.renewals + 1,
                            lastRenewed := Some(Floor(now)), previous := previous)))
  }

  function Renew(leases: seq<Lease>, q: RenewRequest, now: Time): (seq<Lease>, Renewed) {
    var i := First(leases, ByInvite(q.inviteId));
    if i == |leases| then (leases, Denied(RenewalInvalid))
    else
      var l := leases[i];
      var denial := RenewalDenial(l, q, now);
      if denial.Some? then (leases, Denied(denial.value))
      else
        var l' := Rolled(l, q.secret, now);
        (leases[i := l'], Ok(Derived(q.secret, l.id, l'.renewal.value.generation), Due(l, now)))
  }

  // ---------------------------------------------------------------------------------
  // Creation, revocation, reactivation, cleanup
  // ---------------------------------------------------------------------------------

  /** Arguments of create, with the drawn id; `token` is drawn or supplied, `secret` likewise. */
  datatype NewLease = NewLease(
    id: string, task: string, token: string, capabilities: seq<string>, scope: Scope, binding: Binding,
    ttl: int, maxCalls: Option<int>, inviteId: Option<string>,
    renewalTtl: Option<int>, secret: string, bearer: Option<string>)

  predicate Blank(s: string) {
    forall i :: 0 <= i < |s| ==> s[i] in {' ', '\t', '\n', '\r'}
  }

  predicate HasBearer(a: NewLease) {
    a.bearer.Some? && a.bearer.value != ""
  }

  /** The arguments that create accepts; it raises on all others. */
  predicate Creatable(a: NewLease) {
    && !Blank(a.task) && a.scope.tools != [] && a.ttl > 0
    && (a.maxCalls.Some? ==> a.maxCalls.value > 0)
    && (a.renewalTtl.Some? ==>
          a.inviteId.Some? && a.renewalTtl.value >= a.ttl
          && (HasBearer(a) || (a.binding.issuers != [] && (a.binding.subjects != [] || a.binding.clientIds != []))))
  }

  function Created(a: NewLease, now: Time): Lease {
    var renewal :=
      if a.renewalTtl.None? then None
      else Some(Renewal(
        Floor(now + a.renewalTtl.value), a.ttl, Sha256(Opaque(a.secret)),
        if HasBearer(a) then Some(Sha256(Opaque(a.bearer.value))) else None, 0, 0, None, None, None));
    Lease(a.id, a.task, Floor(now), Floor(now + a.ttl), None,
          Sha256(if renewal.Some? then Derived(a.secret, a.id, 0) else Opaque(a.token)),
          a.capabilities, a.scope, a.binding, a.maxCalls, 0, None, None, None, a.inviteId, renewal)
  }

  /** A revocation keeps the time of the first one. */
  function RevokedAt(earlier: Option<Time>, now: Time): Option<Time> {
    if earlier.Some? then earlier else Some(Floor(now))
  }

  function Revoked(leases: seq<Lease>, id: string, now: Time): seq<Lease> {
    var i := First(leases, ById(id));
    if i == |leases| then leases else leases[i := leases[i].(revokedAt := RevokedAt(leases[i].revokedAt, now))]
  }

  function RenewalRevoked(l: Lease, inviteId: string, now: Time): Lease {
    if l.inviteId == Some(inviteId) && l.renewal.Some? then
      l.(renewal := Some(l.renewal.value.(revokedAt := RevokedAt(l.renewal.value.revokedAt, now))))
    else l
  }

  function InviteRevoked(leases: seq<Lease>, inviteId: string, now: Time): seq<Lease> {
    seq(|leases|, i requires 0 <= i < |leases| => RenewalRevoked(leases[i], inviteId, now))
  }

  /** Reactivation raises on a renewable lease and on a non-positive limit or ttl. */
  predicate Reactivatable(leases: seq<Lease>, id: string, ttl: int, maxCalls: Option<int>) {
    var i := First(leases, ById(id));
    ttl > 0 && (maxCalls.Some? ==> maxCalls.value > 0) && i < |leases| && leases[i].renewal.None?
  }

  function Reactivated(leases: seq<Lease>, id: string, ttl: int, maxCalls: Option<int>, token: string, now: Time): seq<Lease> {
    if !Reactivatable(leases, id, ttl, maxCalls) then leases
    else
      var i := First(leases, ById(id));
      leases[i := leases[i].(revokedAt := None, expiresAt := Floor(now + ttl), reactivatedAt := Some(Floor(now)),
                             digest := Sha256(Opaque(token)), useCount := 0, lastUsedAt := None, lastTool := None,
                             maxCalls := if maxCalls.Some? then maxCalls else leases[i].maxCalls)]
  }

  predicate Live(l: Lease, now: Time) {
    l.revokedAt.None? && now < l.expiresAt
  }

  predicate RenewalLive(l: Lease, now: Time) {
    l.renewal.Some? && l.revokedAt.None? && l.renewal.value.revokedAt.None? && now < l.renewal.value.until
  }

  function Kept(leases: seq<Lease>, now: Time): seq<Lease> {
    if leases == [] then []
    else
      var l := leases[|leases| - 1];
      var front := Kept(leases[..|leases| - 1], now);
      if Live(l, now) || RenewalLive(l, now) then front + [l] else front
  }

  // ---------------------------------------------------------------------------------
  // The store
  // ---------------------------------------------------------------------------------

  /** The lease file; every method is one locked read, change and write. */
  class LeaseStore {
    var leases: seq<Lease>

    constructor ()
      ensures leases == []
    {
      leases := [];
    }

    method Find(key: Key) returns (i: nat)
      ensures i == First(leases, key)
    {
      i := 0;
      while i < |leases| && !Fits(leases[i], key)
        invariant i <= |leases| && First(leases, key) == i + First(leases[i..], key)
      {
        i := i + 1;
      }
    }

    method CreateLease(a: NewLease, now: Time) returns (token: Option<Token>)
      modifies this
      ensures leases == if Creatable(a) then old(leases) + [Created(a, now)] else old(leases)
      ensures token == if Creatable(a) then Some(Created(a, now).digest.token) else None
    {
      if !Creatable(a) {
        return None;
      }
      var lease := Created(a, now);
      leases := leases + [lease];
      token := Some(if a.renewalTtl.Some? then Derived(a.secret, a.id, 0) else Opaque(a.token));
    }

    method RevokeLease(id: string, now: Time) returns (found: bool)
      modifies this
      ensures leases == Revoked(old(leases), id, now)
      ensures found == exists i :: 0 <= i < |leases| && leases[i].id == id
    {
      var i := Find(ById(id));
      found := i < |leases|;
      if found {
        leases := leases[i := leases[i].(revokedAt := RevokedAt(leases[i].revokedAt, now))];
        assert leases[i].id == id;
      }
    }

    method RevokeInviteRenewal(inviteId: string, now: Time)
      modifies this
      ensures leases == InviteRevoked(old(leases), inviteId, now)
    {
      var i := 0;
      while i < |leases|
        invariant i <= |leases| == |old(leases)|
        invariant forall j :: 0 <= j < i ==> leases[j] == RenewalRevoked(old(leases)[j], inviteId, now)
        invariant forall j :: i <= j < |leases| ==> leases[j] == old(leases)[j]
      {
        if leases[i].inviteId == Some(inviteId) && leases[i].renewal.Some? {
          var n := leases[i].renewal.value;
          leases := leases[i := leases[i].(renewal := Some(n.(revokedAt := RevokedAt(n.revokedAt, now))))];
        }
        i := i + 1;
      }
    }

    method ReactivateLease(id: string, ttl: int, maxCalls: Option<int>, token: string, now: Time) returns (ok: bool)
      modifies this
      ensures ok == Reactivatable(old(leases), id, ttl, maxCalls)
      ensures leases == Reactivated(old(leases), id, ttl, maxCalls, token, now)
    {
      if ttl <= 0 || (maxCalls.Some? && maxCalls.value <= 0) {
        return false;
      }
      var i := Find(ById(id));
      if i == |leases| || leases[i].renewal.Some? {
        return false;
      }
      var l := leases[i].(revokedAt := None, expiresAt := Floor(now + ttl), reactivatedAt := Some(Floor(now)),
                          digest := Sha256(Opaque(token)), useCount := 0, lastUsedAt := None, lastTool := None);
      if maxCalls.Some? {
        l := l.(maxCalls := maxCalls);
      }
      leases := leases[i := l];
      ok := true;
    }

    method RenewLease(q: RenewRequest, now: Time) returns (r: Renewed)
      modifies this
      ensures (leases, r) == Renew(old(leases), q, now)
    {
      var i := Find(ByInvite(q.inviteId));
      if i == |leases| {
        return Denied(RenewalInvalid);
      }
      var l := leases[i];
      var denial := RenewalDenial(l, q, now);
      if denial.Some? {
        return Denied(denial.value);
      }
      var n := l.renewal.value;
      var next := Min(n.until, now + n.ttl);
      var changed := 2 * (l.expiresAt - now) <= n.ttl && next > l.expiresAt;
      if changed {
        if now < l.expiresAt {
          n := n.(previous := Some(Previous(l.digest, Floor(Min(l.expiresAt, now + OVERLAP)))));
        } else {
          n := n.(previous := None);
        }
        n := n.(generation := n.generation + 1, renewals := n.renewals + 1, lastRenewed := Some(Floor(now)));
        l := l.(expiresAt := Floor(next), digest := Sha256(Derived(q.secret, l.id, n.generation)), renewal := Some(n));
        leases := leases[i := l];
      }
      assert leases == old(leases)[i := l] && l == Rolled(old(leases)[i], q.secret, now);
      r := Ok(Derived(q.secret, l.id, n.generation), changed);
    }

    method Enforce(p: Presented, r: Request, auth: Option<Auth>, required: bool, now: Time) returns (v: Verdict)
      modifies this
      ensures v == Evaluate(old(leases), p, r, auth, required, now)
      ensures leases == Consumed(old(leases), v, r, now)
    {
      v := Evaluate(leases, p, r, auth, required, now);
      if v.Admitted? && r.ToolsCall? {
        var l := leases[v.index];
        leases := leases[v.index := l.(useCount := l.useCount + 1, lastUsedAt := Some(Floor(now)), lastTool := r.tool)];
      }
    }

    /** The same verdict without recording a use; the store is not in the method's frame. */
    method Preview(p: Presented, r: Request, auth: Option<Auth>, required: bool, now: Time) returns (v: Verdict)
      ensures v == Evaluate(leases, p, r, auth, required, now)
    {
      v := Evaluate(leases, p, r, auth, required, now);
    }

    method CleanupInactive(now: Time) returns (removed: nat)
      modifies this
      ensures leases == Kept(old(leases), now)
      ensures removed == |old(leases)| - |leases|
    {
      var kept := [];
      for i := 0 to |leases|
        invariant leases == old(leases)
        invariant kept == Kept(leases[..i], now) && |kept| <= i
      {
        assert leases[..i + 1][..i] == leases[..i];
        if Live(leases[i], now) || RenewalLive(leases[i], now) {
          kept := kept + [leases[i]];
        }
      }
      assert leases[..|leases|] == leases;
      removed := |leases| - |kept|;
      leases := kept;
    }
  }
}
