/**
  The rules of the lease store on the fields of its records: who is admitted and who is not and
  why, who may renew, and what each operation writes.
 */
module TaskLeaseRules {
  import opened Options
  import opened Rules
  import LeasePaths
  import opened TaskLeases
  import opened TaskLeaseRuns

  // ---------------------------------------------------------------------------------
  // Identities
  // ---------------------------------------------------------------------------------

  /** A list that binds nothing, or that holds the value. */
  predicate Listed(values: seq<string>, value: string) {
    values == [] || value in values
  }

  /** The binding asks for nothing, or the identity is verified and within every list that is not empty. */
  predicate Accepts(b: Binding, auth: Option<Auth>) {
    || (b.subjects == b.issuers == b.tenants == b.clientIds == b.groups == b.profiles == [])
    || (auth.Some? && auth.value.enabled
        && Listed(b.subjects, auth.value.subject) && Listed(b.issuers, auth.value.issuer)
        && Listed(b.tenants, auth.value.tenant) && Listed(b.clientIds, auth.value.clientId)
        && Listed(b.profiles, auth.value.profile)
        && (b.groups == [] || exists g :: g in auth.value.groups && g in b.groups))
  }

  lemma AuthAcceptsExactly(b: Binding, auth: Option<Auth>)
    ensures AuthDenial(b, auth).None? <==> Accepts(b, auth)
  {
  }

  // ---------------------------------------------------------------------------------
  // Admission
  // ---------------------------------------------------------------------------------

  /** Not revoked, time left, calls left, and the identity accepted. */
  predicate Usable(l: Lease, auth: Option<Auth>, now: Time) {
    l.revokedAt.None? && now < l.expiresAt && (l.maxCalls.Some? ==> l.useCount < l.maxCalls.value) && Accepts(l.binding, auth)
  }

  /** Containment on roots and components, as in LeasePaths.AcceptsExactly. */
  predicate Within(path: string, prefix: string) {
    var c, a := LeasePaths.Components(path), LeasePaths.Components(prefix);
    if a == [] then
      if LeasePaths.Root(prefix) == 0 then LeasePaths.Root(path) == 0 && (c == [] || c[0] != "..") else LeasePaths.Root(path) > 0
    else LeasePaths.Root(path) == LeasePaths.Root(prefix) && a <= c
  }

  predicate WithinSome(path: string, prefixes: seq<string>) {
    exists i :: 0 <= i < |prefixes| && Within(path, prefixes[i])
  }

  /** The tool, and every path, host and command the call mentions, is one the scope lists; an empty list lists all. */
  predicate InScope(s: Scope, r: Request)
    requires r.ToolsCall?
  {
    && r.tool.Some? && ("*" in s.tools || r.tool.value in s.tools)
    && (s.paths == [] || forall i :: 0 <= i < |r.paths| ==> WithinSome(r.paths[i], s.paths))
    && (s.hosts == [] || forall h :: h in r.hosts ==> h in s.hosts)
    && (s.commands == [] || forall c :: c in r.commands ==> c.name in s.commands || c.text in s.commands)
  }

  lemma PathAllowedExactly(path: string, prefixes: seq<string>)
    ensures LeasePaths.PathAllowed(path, prefixes) <==> WithinSome(path, prefixes)
  {
    forall i | 0 <= i < |prefixes|
      ensures LeasePaths.AcceptsNormal(LeasePaths.NormalizePath(path), LeasePaths.NormalizePath(prefixes[i])) <==> Within(path, prefixes[i])
    {
      LeasePaths.AcceptsExactly(path, prefixes[i]);
    }
  }

  lemma ScopeAllowsExactly(s: Scope, r: Request)
    requires r.ToolsCall?
    ensures ScopeDenial(s, r).None? <==> InScope(s, r)
  {
    forall i | 0 <= i < |r.paths| ensures LeasePaths.PathAllowed(r.paths[i], s.paths) <==> WithinSome(r.paths[i], s.paths) {
      PathAllowedExactly(r.paths[i], s.paths);
    }
  }

  /** The lease is the one the header token stands for: its own, or the one before within its overlap. */
  predicate Answers(l: Lease, token: Token, now: Time) {
    || l.digest == Sha256(token)
    || (l.renewal.Some? && l.renewal.value.previous.Some?
        && l.renewal.value.previous.value.digest == Sha256(token) && now < l.renewal.value.previous.value.until)
  }

  /** The request carries one selection of this lease, one header token of it, or both, and nothing else. */
  predicate Shows(p: Presented, l: Lease, now: Time) {
    match p.trusted
    case BadSelection => false
    case NoSelection => |p.headers| == 1 && p.headers[0] != Opaque("") && Answers(l, p.headers[0], now)
    case Selected(id) => l.id == id && (p.headers == [] || (|p.headers| == 1 && p.headers[0] != Opaque("") && Answers(l, p.headers[0], now)))
  }

  /**
    Admission, exactly: on a store of distinct ids and digests a request is admitted on a lease if
    and only if it shows that lease, the lease is usable by the identity, and a call is in scope.
   */
  lemma AdmittedExactly(leases: seq<Lease>, p: Presented, r: Request, auth: Option<Auth>, required: bool, now: Time, i: nat)
    requires Identified(leases) && i < |leases|
    ensures Evaluate(leases, p, r, auth, required, now) == Admitted(i) <==>
      Shows(p, leases[i], now) && Usable(leases[i], auth, now) && (r.ToolsCall? ==> InScope(leases[i].scope, r))
  {
    ResolvesToPresented(leases, p, now, i);
    AuthAcceptsExactly(leases[i].binding, auth);
    if r.ToolsCall? { ScopeAllowsExactly(leases[i].scope, r); }
    assert Presents(leases[i], p, now) <==> Shows(p, leases[i], now);
  }

  /** Without a lease: only a request that carries neither selection nor header passes, unless a lease is required for its call. */
  lemma UnleasedExactly(leases: seq<Lease>, p: Presented, r: Request, auth: Option<Auth>, required: bool, now: Time)
    ensures Evaluate(leases, p, r, auth, required, now) == Unleased <==>
      p.trusted.NoSelection? && p.headers == [] && !(required && r.ToolsCall?)
    ensures p.trusted.NoSelection? && p.headers == [] && required && r.ToolsCall? ==>
      Evaluate(leases, p, r, auth, required, now) == Blocked(LeaseMissing)
  {
  }

  // ---------------------------------------------------------------------------------
  // Refusals
  // ---------------------------------------------------------------------------------

  function IdentityRules(b: Binding, auth: Option<Auth>): seq<Rule<Reason>> {
    var bound := b.subjects + b.issuers + b.tenants + b.clientIds + b.groups + b.profiles != [];
    var a := if auth.Some? then auth.value else Auth(false, "", "", "", "", [], "");
    [Rule(bound && !a.enabled, AuthMissing),
     Rule(b.subjects != [] && a.subject !in b.subjects, SubjectNotAllowed),
     Rule(b.issuers != [] && a.issuer !in b.issuers, IssuerNotAllowed),
     Rule(b.tenants != [] && a.tenant !in b.tenants, TenantNotAllowed),
     Rule(b.clientIds != [] && a.clientId !in b.clientIds, ClientIdNotAllowed),
     Rule(b.groups != [] && forall g :: g in a.groups ==> g !in b.groups, GroupNotAllowed),
     Rule(b.profiles != [] && a.profile !in b.profiles, ProfileNotAllowed)]
  }

  lemma IdentityRefusedInOrder(b: Binding, auth: Option<Auth>)
    ensures FirstBroken(IdentityRules(b, auth), AuthDenial(b, auth))
  {
    var rules := IdentityRules(b, auth);
    var denial := AuthDenial(b, auth);
    assert (b.subjects + b.issuers + b.tenants + b.clientIds + b.groups + b.profiles != []) <==> Bound(b);
    if denial.Some? {
      var k := match denial.value
        case AuthMissing => 0 case SubjectNotAllowed => 1 case IssuerNotAllowed => 2 case TenantNotAllowed => 3
        case ClientIdNotAllowed => 4 case GroupNotAllowed => 5 case _ => 6;
      assert BrokenFirst(rules, k);
    }
  }

  function LeaseRules(l: Lease, now: Time): seq<Rule<Reason>> {
    [Rule(l.revokedAt.Some?, RevokedLease),
     Rule(l.expiresAt <= now, ExpiredLease),
     Rule(l.maxCalls.Some? && l.maxCalls.value <= l.useCount, MaxCallsExceeded)]
  }

  function CallRules(s: Scope, r: Request): seq<Rule<Reason>>
    requires r.ToolsCall?
  {
    [Rule(r.tool.None? || ("*" !in s.tools && r.tool.value !in s.tools), ToolNotAllowed),
     Rule(s.paths != [] && exists i :: 0 <= i < |r.paths| && !WithinSome(r.paths[i], s.paths), PathNotAllowed),
     Rule(s.hosts != [] && exists h :: h in r.hosts && h !in s.hosts, HostNotAllowed),
     Rule(s.commands != [] && exists c :: c in r.commands && c.name !in s.commands && c.text !in s.commands, CommandNotAllowed)]
  }

  lemma ScopeRefusedInOrder(s: Scope, r: Request)
    requires r.ToolsCall?
    ensures FirstBroken(CallRules(s, r), ScopeDenial(s, r))
  {
    forall i | 0 <= i < |r.paths| ensures LeasePaths.PathAllowed(r.paths[i], s.paths) <==> WithinSome(r.paths[i], s.paths) {
      PathAllowedExactly(r.paths[i], s.paths);
    }
    var denial := ScopeDenial(s, r);
    if denial.Some? {
      var k := match denial.value case ToolNotAllowed => 0 case PathNotAllowed => 1 case HostNotAllowed => 2 case _ => 3;
      assert BrokenFirst(CallRules(s, r), k);
    }
  }

  function RulesFor(l: Lease, r: Request, auth: Option<Auth>, now: Time): seq<Rule<Reason>> {
    LeaseRules(l, now) + IdentityRules(l.binding, auth) + if r.ToolsCall? then CallRules(l.scope, r) else []
  }

  function DenialIn(v: Verdict): Option<Reason> {
    if v.Blocked? then Some(v.reason) else None
  }

  /** The denial of a lease for a request. */
  function DenialFor(l: Lease, r: Request, auth: Option<Auth>, now: Time): Option<Reason> {
    if r.ToolsCall? then CallDenial(l, r, l.useCount, auth, now) else CatalogDenial(l, auth, now)
  }

  lemma DeniedInOrder(l: Lease, r: Request, auth: Option<Auth>, now: Time)
    ensures FirstBroken(RulesFor(l, r, auth, now), DenialFor(l, r, auth, now))
  {
    var state :=
      if l.revokedAt.Some? then Some(RevokedLease) else if l.expiresAt <= now then Some(ExpiredLease)
      else if Exhausted(l, l.useCount) then Some(MaxCallsExceeded) else None;
    LeaseRefusedInOrder(l, now, state);
    IdentityRefusedInOrder(l.binding, auth);
    var identity := AuthDenial(l.binding, auth);
    FirstOfBoth(LeaseRules(l, now), IdentityRules(l.binding, auth), state, identity);
    var scope: Option<Reason> := if r.ToolsCall? then ScopeDenial(l.scope, r) else None;
    if r.ToolsCall? { ScopeRefusedInOrder(l.scope, r); }
    FirstOfBoth(LeaseRules(l, now) + IdentityRules(l.binding, auth), if r.ToolsCall? then CallRules(l.scope, r) else [],
                if state.Some? then state else identity, scope);
  }

  /** A request that shows a lease is blocked for the first rule of that lease that it breaks, and for no other. */
  lemma RefusedInOrder(leases: seq<Lease>, p: Presented, r: Request, auth: Option<Auth>, required: bool, now: Time, i: nat)
    requires Identified(leases) && i < |leases| && Shows(p, leases[i], now)
    ensures FirstBroken(RulesFor(leases[i], r, auth, now), DenialIn(Evaluate(leases, p, r, auth, required, now)))
  {
    ResolvesToPresented(leases, p, now, i);
    DeniedInOrder(leases[i], r, auth, now);
  }

  lemma LeaseRefusedInOrder(l: Lease, now: Time, denial: Option<Reason>)
    requires denial ==
      if l.revokedAt.Some? then Some(RevokedLease) else if l.expiresAt <= now then Some(ExpiredLease)
      else if Exhausted(l, l.useCount) then Some(MaxCallsExceeded) else None
    ensures FirstBroken(LeaseRules(l, now), denial)
  {
    if denial.Some? {
      var k := if l.revokedAt.Some? then 0 else if l.expiresAt <= now then 1 else 2;
      assert BrokenFirst(LeaseRules(l, now), k);
    }
  }

  /** A request that shows no lease of the store is blocked for how it presents one. */
  lemma NotShownIsRefused(leases: seq<Lease>, p: Presented, r: Request, auth: Option<Auth>, required: bool, now: Time)
    requires Identified(leases) && !(p.trusted.NoSelection? && p.headers == [])
    requires forall i :: 0 <= i < |leases| ==> !Shows(p, leases[i], now)
    ensures var v := Evaluate(leases, p, r, auth, required, now);
      v == Blocked(
        if p.trusted.BadSelection? then SelectionInvalid
        else if |p.headers| > 1 then SelectionConflict
        else if |p.headers| == 1 && p.headers[0] == Opaque("") then LeaseInvalid
        else if p.trusted.Selected? && exists i :: 0 <= i < |leases| && leases[i].id == p.trusted.id then SelectionConflict
        else LeaseInvalid)
  {
    if p.trusted.Selected? {
      SelectionFinds(leases, p.trusted.id);
    } else if p.trusted.NoSelection? && |p.headers| == 1 {
      var i := First(leases, ByToken(p.headers[0], now));
      if i < |leases| && p.headers[0] != Opaque("") { assert Shows(p, leases[i], now); }
    }
    forall i | 0 <= i < |leases| && p.trusted.Selected? && leases[i].id == p.trusted.id && |p.headers| == 1
      ensures First(leases, ByToken(p.headers[0], now)) != i || p.headers[0] == Opaque("")
    {
      assert !Shows(p, leases[i], now);
    }
  }

  /** A selection finds the one lease of its id, if there is one. */
  lemma SelectionFinds(leases: seq<Lease>, id: string)
    requires Identified(leases)
    ensures var i := First(leases, ById(id));
      if exists k :: 0 <= k < |leases| && leases[k].id == id then
        i < |leases| && leases[i].id == id && Occurrences(leases, id) == 1
      else i == |leases| && Occurrences(leases, id) == 0
  {
    forall a, b | 0 <= a < b < |leases| ensures leases[a].id != leases[b].id { assert Unlike(leases[a], leases[b]); }
    OccursOnce(leases, id);
  }
}
