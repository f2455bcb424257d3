/**
  What single operations promise about later requests: the tokens they hand out, the tokens
  they retire, and what an admitted call may touch.
 */
module TaskLeaseAdmission {
  import opened Options
  import LeasePaths
  import opened TaskLeases
  import opened TaskLeaseRuns
  import opened TaskLeaseHistory

  /** The token create returns resolves to the new lease, whenever it is presented. */
  lemma CreatedTokenResolves(leases: seq<Lease>, a: NewLease, now: Time, later: Time)
    requires Distinct(leases) && Creatable(a) && DrawsFresh(leases, Create(a)) && a.token != ""
    ensures var after := StepStore(leases, Create(a), now);
      Resolve(after, Presented(NoSelection, [Created(a, now).digest.token]), later) == Found(|leases|)
  {
    StepKeepsDistinct(leases, Create(a), now);
    ResolvesToPresented(StepStore(leases, Create(a), now), Presented(NoSelection, [Created(a, now).digest.token]), later, |leases|);
  }

  /** Reactivation switches tokens: the new one resolves to the lease, the old one to nothing. */
  lemma ReactivatedTokenResolves(leases: seq<Lease>, op: Op, now: Time, later: Time, i: nat)
    requires Distinct(leases) && DrawsFresh(leases, op) && i < |leases| && Reactivates(op, leases[i])
    requires op.token != "" && leases[i].digest.token != Opaque("")
    ensures var after := StepStore(leases, op, now);
      && Resolve(after, Presented(NoSelection, [Opaque(op.token)]), later) == Found(i)
      && Resolve(after, Presented(NoSelection, [leases[i].digest.token]), later) == Refused(LeaseInvalid)
  {
    var after := StepStore(leases, op, now);
    var retired := Presented(NoSelection, [leases[i].digest.token]);
    StepKeepsDistinct(leases, op, now);
    StepIsPointwise(leases, op, now, i);
    ResolvesToPresented(after, Presented(NoSelection, [Opaque(op.token)]), later, i);
    if Resolve(after, retired, later).Found? {
      var j := Resolve(after, retired, later).index;
      ResolvesToPresented(after, retired, later, j);
      StepIsPointwise(leases, op, now, j);
      TokenIsNotHeld(leases, op, i, j, now);
    }
  }

  /** A drawn token of one lease is held by no other, nor by itself once reactivated. */
  lemma TokenIsNotHeld(leases: seq<Lease>, op: Op, i: nat, j: nat, now: Time)
    requires Distinct(leases) && DrawsFresh(leases, op) && i < |leases| && j < |leases| && Reactivates(op, leases[i])
    ensures Effect(leases[j], op, now).digest != leases[i].digest
    ensures forall later: Time :: !Fits(Effect(leases[j], op, now), ByToken(leases[i].digest.token, later))
  {
    assert OwnDigests(leases[i]) && OwnDigests(leases[j]) && leases[i] in leases;
    if i != j {
      OthersHaveOtherIds(leases, i, j);
      if i < j { assert Apart(leases[i], leases[j]); } else { assert Apart(leases[j], leases[i]); }
    }
  }

  /** Once revoked, a lease admits nothing, by any token or selection. */
  lemma RevokedAdmitsNothing(leases: seq<Lease>, id: string, now: Time,
                             p: Presented, r: Request, auth: Option<Auth>, required: bool, later: Time)
    requires Distinct(leases)
    ensures var after := StepStore(leases, Revoke(id), now);
      var v := Evaluate(after, p, r, auth, required, later);
      v.Admitted? ==> after[v.index].id != id && |after| == |leases| && after[v.index] == leases[v.index]
  {
    var after := StepStore(leases, Revoke(id), now);
    var v := Evaluate(after, p, r, auth, required, later);
    if v.Admitted? {
      StepIsPointwise(leases, Revoke(id), now, v.index);
    }
  }

  /** The overlap is honoured: until it ends, the token of the generation before still resolves. */
  lemma OverlapIsHonoured(s: System, q: RenewRequest, now: Time, later: Time)
    requires Inv(s) && s.now <= now && Renew(s.leases, q, now).1.Ok? && Renew(s.leases, q, now).1.changed
    requires var l := s.leases[First(s.leases, ByInvite(q.inviteId))];
      now < l.expiresAt && later < Floor(Min(l.expiresAt, now + 30 * SECOND))
    ensures var i := First(s.leases, ByInvite(q.inviteId));
      Resolve(Renew(s.leases, q, now).0, Presented(NoSelection, [s.leases[i].digest.token]), later) == Found(i)
  {
    var i := First(s.leases, ByInvite(q.inviteId));
    assert OwnDigests(s.leases[i]);
    StepKeepsDistinct(s.leases, RenewBy(q), now);
    ResolvesToPresented(Renew(s.leases, q, now).0, Presented(NoSelection, [s.leases[i].digest.token]), later, i);
  }

  /** A granted renewal leaves the lease more than half a life, short of the time truncation takes, or all its authorization. */
  lemma RenewalLeavesHalfALife(s: System, q: RenewRequest, now: Time)
    requires Inv(s) && Renew(s.leases, q, now).1.Ok?
    ensures var l := Renew(s.leases, q, now).0[First(s.leases, ByInvite(q.inviteId))];
      && l.renewal.Some? && l.expiresAt <= l.renewal.value.until
      && (l.expiresAt == l.renewal.value.until || 2 * (l.expiresAt - now) > l.renewal.value.ttl - 2 * SECOND)
  {
    var l := s.leases[First(s.leases, ByInvite(q.inviteId))];
    assert Chronicled(s, l);
    FloorFacts(Min(l.renewal.value.until, now + l.renewal.value.ttl));
    FloorFacts(l.renewal.value.until);
  }

  /**
    An admitted call stays within its lease: a live lease of an identity it is bound to, a tool
    it names, and paths whose components extend those of one of its prefixes, if these do not climb.
   */
  lemma AdmittedStaysInScope(leases: seq<Lease>, p: Presented, r: Request, auth: Option<Auth>, required: bool, now: Time, k: nat)
    requires r.ToolsCall? && k < |r.paths|
    requires Evaluate(leases, p, r, auth, required, now).Admitted?
    ensures var l := leases[Evaluate(leases, p, r, auth, required, now).index];
      && Live(l, now) && AuthDenial(l.binding, auth).None? && r.tool.Some?
      && ("*" in l.scope.tools || r.tool.value in l.scope.tools)
      && (l.scope.paths != [] && (forall i :: 0 <= i < |l.scope.paths| ==> Downward(l.scope.paths[i])) ==>
            ".." !in LeasePaths.Components(r.paths[k])
            && exists i :: 0 <= i < |l.scope.paths| && Under(r.paths[k], l.scope.paths[i]))
  {
    var l := leases[Evaluate(leases, p, r, auth, required, now).index];
    assert ScopeDenial(l.scope, r).None?;
    if l.scope.paths != [] && forall i :: 0 <= i < |l.scope.paths| ==> Downward(l.scope.paths[i]) {
      assert LeasePaths.PathAllowed(r.paths[k], l.scope.paths);
      var i :| 0 <= i < |l.scope.paths|
        && LeasePaths.AcceptsNormal(LeasePaths.NormalizePath(r.paths[k]), LeasePaths.NormalizePath(l.scope.paths[i]));
      assert Downward(l.scope.paths[i]);
      LeasePaths.Contained(r.paths[k], l.scope.paths[i]);
      assert Under(r.paths[k], l.scope.paths[i]);
    }
  }

  /** A prefix whose normal form has no leading "..". */
  predicate Downward(prefix: string) {
    LeasePaths.Components(prefix) == [] || LeasePaths.Components(prefix)[0] != ".."
  }

  predicate Under(path: string, prefix: string) {
    LeasePaths.Components(prefix) <= LeasePaths.Components(path) && (LeasePaths.Root(path) > 0 <==> LeasePaths.Root(prefix) > 0)
  }
}
