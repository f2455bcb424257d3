/**
  Runs of operations on one lease store under a non-decreasing clock: what every operation
  does to each single lease, and the invariants of the store.
 */
module TaskLeaseRuns {
  import opened Options
  import opened TaskLeases

  datatype Op =
    | Create(args: NewLease)
    | Revoke(id: string)
    | RevokeInvite(inviteId: string)
    | Reactivate(id: string, ttl: int, maxCalls: Option<int>, token: string)
    | RenewBy(query: RenewRequest)
    | Enforce(presented: Presented, request: Request, auth: Option<Auth>, required: bool)
    | Cleanup

  function StepStore(leases: seq<Lease>, op: Op, now: Time): seq<Lease> {
    match op
    case Create(args) => if Creatable(args) then leases + [Created(args, now)] else leases
    case Revoke(id) => Revoked(leases, id, now)
    case RevokeInvite(inviteId) => InviteRevoked(leases, inviteId, now)
    case Reactivate(id, ttl, maxCalls, token) => Reactivated(leases, id, ttl, maxCalls, token, now)
    case RenewBy(query) => Renew(leases, query, now).0
    case Enforce(p, r, auth, required) => Consumed(leases, Evaluate(leases, p, r, auth, required, now), r, now)
    case Cleanup => Kept(leases, now)
  }

  // ---------------------------------------------------------------------------------
  // Distinct leases
  // ---------------------------------------------------------------------------------

  /** The digests a lease answers to are its own: drawn, or derived from its id. */
  predicate OwnDigests(l: Lease) {
    if l.renewal.None? then l.digest.token.Opaque?
    else
      var n := l.renewal.value;
      && n.secretDigest.token.Opaque?
      && l.digest == Sha256(Derived(n.secretDigest.token.text, l.id, n.generation))
      && (n.previous.Some? ==> n.generation >= 1)
      && (n.previous.Some? ==>
            n.previous.value.digest == Sha256(Derived(n.secretDigest.token.text, l.id, n.generation - 1)))
  }

  /** Leases that no id and no token confuses. */
  predicate Unlike(a: Lease, b: Lease) {
    a.id != b.id && (a.renewal.None? && b.renewal.None? ==> a.digest != b.digest)
  }

  predicate Apart(a: Lease, b: Lease) {
    Unlike(a, b) && (a.inviteId.Some? ==> a.inviteId != b.inviteId)
  }

  /** Ids and digests are distinct; create draws them. */
  ghost predicate Identified(leases: seq<Lease>) {
    && (forall i :: 0 <= i < |leases| ==> OwnDigests(leases[i]))
    && (forall i, j :: 0 <= i < j < |leases| ==> Unlike(leases[i], leases[j]))
  }

  /** Ids, digests and invites are distinct; invites are the caller's. */
  ghost predicate Distinct(leases: seq<Lease>) {
    && (forall i :: 0 <= i < |leases| ==> OwnDigests(leases[i]))
    && (forall i, j :: 0 <= i < j < |leases| ==> Apart(leases[i], leases[j]))
  }

  lemma DistinctIsIdentified(leases: seq<Lease>)
    requires Distinct(leases)
    ensures Identified(leases)
  {
    forall i, j | 0 <= i < j < |leases| ensures Unlike(leases[i], leases[j]) {
      assert Apart(leases[i], leases[j]);
    }
  }

  lemma FitsOnlyOne(a: Lease, b: Lease, key: Key)
    requires OwnDigests(a) && OwnDigests(b) && Unlike(a, b) && (key.ByInvite? ==> Apart(a, b))
    ensures !Fits(a, key) || !Fits(b, key)
  {
  }

  lemma KeyIsUnique(leases: seq<Lease>, key: Key, i: nat, j: nat)
    requires Identified(leases) && (key.ByInvite? ==> Distinct(leases)) && i < |leases| && j < |leases|
    requires Fits(leases[i], key) && Fits(leases[j], key)
    ensures i == j
  {
    if i < j { FitsOnlyOne(leases[i], leases[j], key); } else if j < i { FitsOnlyOne(leases[j], leases[i], key); }
  }

  lemma FirstIsTheOne(leases: seq<Lease>, key: Key, i: nat)
    requires Identified(leases) && (key.ByInvite? ==> Distinct(leases)) && i < |leases|
    ensures First(leases, key) == i <==> Fits(leases[i], key)
  {
    if Fits(leases[i], key) {
      KeyIsUnique(leases, key, First(leases, key), i);
    }
  }

  lemma {:induction false} OccursOnce(leases: seq<Lease>, id: string)
    requires forall i, j :: 0 <= i < j < |leases| ==> leases[i].id != leases[j].id
    ensures Occurrences(leases, id) == if exists i :: 0 <= i < |leases| && leases[i].id == id then 1 else 0
  {
    if leases != [] {
      OccursOnce(leases[1..], id);
      if exists i :: 0 <= i < |leases| && leases[i].id == id {
        var i :| 0 <= i < |leases| && leases[i].id == id;
        if i > 0 { assert leases[1..][i - 1].id == id; }
      }
    }
  }

  /** What it takes for a request to present a given lease. */
  predicate Presents(l: Lease, p: Presented, now: Time) {
    && !p.trusted.BadSelection? && |p.headers| <= 1
    && (p.headers != [] || p.trusted.Selected?)
    && (p.trusted.Selected? ==> l.id == p.trusted.id)
    && (p.headers != [] ==> p.headers[0] != Opaque("") && Fits(l, ByToken(p.headers[0], now)))
  }

  /** Resolution finds exactly the lease that the request presents. */
  lemma ResolvesToPresented(leases: seq<Lease>, p: Presented, now: Time, i: nat)
    requires Identified(leases) && i < |leases|
    ensures Resolve(leases, p, now) == Found(i) <==> Presents(leases[i], p, now)
  {
    if p.trusted.Selected? {
      forall a, b | 0 <= a < b < |leases|
        ensures leases[a].id != leases[b].id
      {
        assert Unlike(leases[a], leases[b]);
      }
      OccursOnce(leases, p.trusted.id);
      FirstIsTheOne(leases, ById(p.trusted.id), i);
      if leases[i].id == p.trusted.id { assert exists k :: 0 <= k < |leases| && leases[k].id == p.trusted.id; }
    }
    if p.headers != [] {
      FirstIsTheOne(leases, ByToken(p.headers[0], now), i);
    }
  }

  // ---------------------------------------------------------------------------------
  // One operation, one lease
  // ---------------------------------------------------------------------------------

  function VerdictOn(l: Lease, r: Request, auth: Option<Auth>, now: Time): Option<Reason> {
    if r.ToolsCall? then CallDenial(l, r, l.useCount, auth, now) else CatalogDenial(l, auth, now)
  }

  /** Does the operation record a use of the lease? */
  predicate Uses(op: Op, l: Lease, now: Time) {
    op.Enforce? && op.request.ToolsCall? && Presents(l, op.presented, now)
    && VerdictOn(l, op.request, op.auth, now).None?
  }

  predicate Renews(op: Op, l: Lease, now: Time) {
    op.RenewBy? && l.inviteId == Some(op.query.inviteId) && RenewalDenial(l, op.query, now).None?
  }

  predicate Reactivates(op: Op, l: Lease) {
    op.Reactivate? && l.id == op.id && l.renewal.None? && op.ttl > 0 && (op.maxCalls.Some? ==> op.maxCalls.value > 0)
  }

  /** What the operation makes of a lease that is in the store. */
  function Effect(l: Lease, op: Op, now: Time): Lease {
    match op
    case Revoke(id) => if l.id == id then l.(revokedAt := RevokedAt(l.revokedAt, now)) else l
    case RevokeInvite(inviteId) => RenewalRevoked(l, inviteId, now)
    case Reactivate(_, ttl, maxCalls, token) =>
      if Reactivates(op, l) then
        l.(revokedAt := None, expiresAt := Floor(now + ttl), reactivatedAt := Some(Floor(now)),
           digest := Sha256(Opaque(token)), useCount := 0, lastUsedAt := None, lastTool := None,
           maxCalls := if maxCalls.Some? then maxCalls else l.maxCalls)
      else l
    case RenewBy(query) => if Renews(op, l, now) then Rolled(l, query.secret, now) else l
    case Enforce(_, r, _, _) => if Uses(op, l, now) then Used(l, r.tool, now) else l
    case _ => l
  }

  predicate InPlace(op: Op) {
    !op.Create? && !op.Cleanup?
  }

  /** The in-place operations act on each lease by itself; a renewal only if no invite is shared. */
  lemma StepIsPointwise(leases: seq<Lease>, op: Op, now: Time, i: nat)
    requires Identified(leases) && (op.RenewBy? ==> Distinct(leases)) && InPlace(op) && i < |leases|
    ensures |StepStore(leases, op, now)| == |leases|
    ensures StepStore(leases, op, now)[i] == Effect(leases[i], op, now)
  {
    match op
    case Revoke(id) => FirstIsTheOne(leases, ById(id), i);
    case RevokeInvite(_) =>
    case Reactivate(id, _, _, _) => FirstIsTheOne(leases, ById(id), i);
    case RenewBy(query) => FirstIsTheOne(leases, ByInvite(query.inviteId), i);
    case Enforce(_, _, _, _) => EnforceIsPointwise(leases, op, now, i);
  }

  lemma EnforceIsPointwise(leases: seq<Lease>, op: Op, now: Time, i: nat)
    requires Identified(leases) && op.Enforce? && i < |leases|
    ensures |StepStore(leases, op, now)| == |leases|
    ensures StepStore(leases, op, now)[i] == Effect(leases[i], op, now)
  {
    ResolvesToPresented(leases, op.presented, now, i);
  }

  /** Where a lease of the store after an operation in place comes from. */
  lemma FromBefore(leases: seq<Lease>, op: Op, now: Time, l: Lease) returns (i: nat)
    requires Identified(leases) && (op.RenewBy? ==> Distinct(leases)) && InPlace(op) && l in StepStore(leases, op, now)
    ensures i < |leases| && l == Effect(leases[i], op, now) && l.id == leases[i].id
  {
    var after := StepStore(leases, op, now);
    i :| 0 <= i < |after| && after[i] == l;
    if leases != [] {
      StepIsPointwise(leases, op, now, 0);
      StepIsPointwise(leases, op, now, i);
      EffectKeepsIdentity(leases[i], op, now);
    }
  }

  lemma {:induction false} KeptIs(leases: seq<Lease>, now: Time, l: Lease)
    ensures l in Kept(leases, now) <==> l in leases && (Live(l, now) || RenewalLive(l, now))
    ensures |Kept(leases, now)| <= |leases|
  {
    if leases != [] {
      KeptIs(leases[..|leases| - 1], now, l);
      assert leases == leases[..|leases| - 1] + [leases[|leases| - 1]];
    }
  }

  lemma {:induction false} KeptKeepsIdentified(leases: seq<Lease>, now: Time)
    requires Identified(leases)
    ensures Identified(Kept(leases, now))
  {
    if leases != [] {
      var front, last := leases[..|leases| - 1], leases[|leases| - 1];
      KeptKeepsIdentified(front, now);
      var kept := Kept(front, now);
      forall i | 0 <= i < |kept|
        ensures Unlike(kept[i], last)
      {
        KeptIs(front, now, kept[i]);
        var k :| 0 <= k < |front| && front[k] == kept[i];
        assert Unlike(leases[k], leases[|leases| - 1]);
      }
    }
  }

  lemma {:induction false} KeptKeepsDistinct(leases: seq<Lease>, now: Time)
    requires Distinct(leases)
    ensures Distinct(Kept(leases, now))
  {
    if leases != [] {
      var front, last := leases[..|leases| - 1], leases[|leases| - 1];
      KeptKeepsDistinct(front, now);
      var kept := Kept(front, now);
      forall i | 0 <= i < |kept|
        ensures Apart(kept[i], last)
      {
        KeptIs(front, now, kept[i]);
        var k :| 0 <= k < |front| && front[k] == kept[i];
        assert Apart(leases[k], leases[|leases| - 1]);
      }
    }
  }

  /** Ids and drawn tokens are new: they are drawn at random. */
  ghost predicate DrawsNew(leases: seq<Lease>, op: Op) {
    match op
    case Create(a) => forall l :: l in leases ==> l.id != a.id && l.digest != Sha256(Opaque(a.token))
    case Reactivate(_, _, _, token) => forall l :: l in leases ==> l.digest != Sha256(Opaque(token))
    case _ => true
  }

  /** The invite of a new lease is new as well. */
  ghost predicate DrawsFresh(leases: seq<Lease>, op: Op) {
    && DrawsNew(leases, op)
    && (op.Create? && op.args.inviteId.Some? ==> forall l :: l in leases ==> l.inviteId != op.args.inviteId)
  }

  lemma EffectKeepsIdentity(l: Lease, op: Op, now: Time)
    requires OwnDigests(l)
    ensures OwnDigests(Effect(l, op, now))
    ensures Effect(l, op, now).id == l.id && Effect(l, op, now).inviteId == l.inviteId
    ensures Effect(l, op, now).renewal.Some? <==> l.renewal.Some?
    ensures l.renewal.None? && Effect(l, op, now).digest != l.digest ==>
              Reactivates(op, l) && Effect(l, op, now).digest == Sha256(Opaque(op.token))
  {
  }

  /** Ids and digests stay apart under every operation, whatever invites are shared. */
  lemma StepKeepsIdentified(leases: seq<Lease>, op: Op, now: Time)
    requires Identified(leases) && DrawsNew(leases, op)
    ensures Identified(StepStore(leases, op, now))
  {
    var after := StepStore(leases, op, now);
    match op {
      case Cleanup => KeptKeepsIdentified(leases, now);
      case Create(_) =>
      case RenewBy(query) => RenewalKeepsIdentified(leases, query, now);
      case _ => InPlaceKeepsIdentified(leases, op, now);
    }
  }

  lemma InPlaceKeepsIdentified(leases: seq<Lease>, op: Op, now: Time)
    requires Identified(leases) && DrawsNew(leases, op) && InPlace(op) && !op.RenewBy?
    ensures Identified(StepStore(leases, op, now))
  {
    var after := StepStore(leases, op, now);
    forall i | 0 <= i < |leases|
      ensures |after| == |leases| && after[i] == Effect(leases[i], op, now) && OwnDigests(after[i])
    {
      StepIsPointwise(leases, op, now, i);
      EffectKeepsIdentity(leases[i], op, now);
    }
    if leases == [] {
      assert after == [];
    }
    forall i, j | 0 <= i < j < |after|
      ensures Unlike(after[i], after[j])
    {
      assert Unlike(leases[i], leases[j]);
      EffectKeepsIdentity(leases[i], op, now);
      EffectKeepsIdentity(leases[j], op, now);
      assert leases[i] in leases && leases[j] in leases;
    }
  }

  lemma RenewalKeepsIdentified(leases: seq<Lease>, q: RenewRequest, now: Time)
    requires Identified(leases)
    ensures Identified(Renew(leases, q, now).0)
  {
    var i := First(leases, ByInvite(q.inviteId));
    var after := Renew(leases, q, now).0;
    if i < |leases| && RenewalDenial(leases[i], q, now).None? {
      EffectKeepsIdentity(leases[i], RenewBy(q), now);
      assert after[i] == Effect(leases[i], RenewBy(q), now);
      forall a, b | 0 <= a < b < |after|
        ensures Unlike(after[a], after[b])
      {
        assert Unlike(leases[a], leases[b]);
      }
    }
  }

  lemma StepKeepsDistinct(leases: seq<Lease>, op: Op, now: Time)
    requires Distinct(leases) && DrawsFresh(leases, op)
    ensures Distinct(StepStore(leases, op, now))
  {
    DistinctIsIdentified(leases);
    StepKeepsIdentified(leases, op, now);
    var after := StepStore(leases, op, now);
    if op.Cleanup? {
      KeptKeepsDistinct(leases, now);
    } else {
      forall i, j | 0 <= i < j < |after|
        ensures Apart(after[i], after[j])
      {
        assert Unlike(after[i], after[j]);
        SameInvite(leases, op, now, i);
        SameInvite(leases, op, now, j);
        if j < |leases| { assert Apart(leases[i], leases[j]); } else { assert leases[i] in leases; }
      }
    }
  }

  /** Operations other than cleanup keep leases where they are, with their invites. */
  lemma SameInvite(leases: seq<Lease>, op: Op, now: Time, i: nat)
    requires Identified(leases) && (op.RenewBy? ==> Distinct(leases)) && !op.Cleanup? && i < |StepStore(leases, op, now)|
    ensures i < |leases| ==> StepStore(leases, op, now)[i].inviteId == leases[i].inviteId
    ensures |leases| <= i ==> op.Create? && i == |leases| && StepStore(leases, op, now)[i].inviteId == op.args.inviteId
  {
    if InPlace(op) {
      if i < |leases| {
        StepIsPointwise(leases, op, now, i);
        EffectKeepsIdentity(leases[i], op, now);
      } else if leases != [] {
        StepIsPointwise(leases, op, now, 0);
      }
    }
  }
}
