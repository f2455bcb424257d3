/**
  What the runtime lease store writes and answers, field by field: the terms of every lease a
  swap stores, of every call that runs alone, and of the contended answer.
 */
module FabricTerms {
  import opened Options
  import opened FabricLease
  import opened FabricRuns
  import opened FabricRefinement

  // ---------------------------------------------------------------------------------
  // Swaps
  // ---------------------------------------------------------------------------------

  /** A lease runs from a reading for its ttl. */
  predicate RunsFrom(lease: Lease, reading: Time, ttl: real) {
    lease.heartbeatAt == reading && lease.expiresAt == reading + ttl && lease.ttl == ttl && lease.releasedAt == None
  }

  predicate SameHolding(lease: Lease, before: Lease) {
    && lease.owner == before.owner && lease.token == before.token
    && lease.acquiredAt == before.acquiredAt && lease.metadata == before.metadata
  }

  /**
    What a successful swap stores, in any run: a call takes its own reading; an acquisition over
    nothing or over a lease that has ended starts a lease under a new token; the owner's
    acquisition or renewal carries its lease on from the reading for the ttl of this call; a
    release ends it there.
   */
  lemma SwapStores(start: Time, actions: seq<Action>, id: nat)
    requires ValidRun(start, actions) && Enabled(After(start, actions), Act(id))
    requires After(start, actions).installs != Step(After(start, actions), Act(id)).installs
    ensures var (s, t) := (After(start, actions), Step(After(start, actions), Act(id)));
      && |t.installs| == |s.installs| + 1 && t.record == Some(t.installs[|s.installs|].lease)
      && t.installs[|s.installs|].at == s.now && t.calls[id].pc.Done?
    ensures var (s, t) := (After(start, actions), Step(After(start, actions), Act(id)));
      var (lease, call) := (t.installs[|s.installs|].lease, s.calls[id]);
      && call.beganAt <= lease.heartbeatAt <= s.now
      && match call.op
         case Acquire(owner, ttl, metadata) =>
           && RunsFrom(lease, lease.heartbeatAt, ttl) && lease.owner == owner
           && t.calls[id].pc.result == Granted(lease, t.installs[|s.installs|].acquired)
           && if t.installs[|s.installs|].acquired then
                lease.acquiredAt == lease.heartbeatAt && lease.metadata == metadata
                && (s.record.Some? ==>
                      s.record.value.token < lease.token
                      && (s.record.value.releasedAt.Some? || s.record.value.expiresAt <= s.now))
              else s.record.Some? && SameHolding(lease, s.record.value)
         case Renew(owner, token, ttl) =>
           && RunsFrom(lease, lease.heartbeatAt, ttl) && lease.owner == owner && lease.token == token
           && s.record.Some? && SameHolding(lease, s.record.value) && t.calls[id].pc.result == Extended(lease)
         case Release(owner, token) =>
           && lease.owner == owner && lease.token == token && s.record.Some? && SameHolding(lease, s.record.value)
           && lease.releasedAt == Some(lease.heartbeatAt) && lease.expiresAt == lease.heartbeatAt
           && lease.ttl == s.record.value.ttl && t.calls[id].pc.result == Freed(true)
  {
    RunSimulates(start, actions);
    RunInv(start, actions);
    var s := After(start, actions);
    assert Remembers(s, s.calls[id]);
    assert PcInv(s.calls[id].pc, s.generation, s.now);
  }

  // ---------------------------------------------------------------------------------
  // Calls that run alone
  // ---------------------------------------------------------------------------------

  /** The record is unreleased and has time left. */
  predicate Held(record: Record, now: Time) {
    record.Some? && record.value.releasedAt.None? && now < record.value.expiresAt
  }

  /** A renewal alone extends exactly the caller's own lease while it is held, for the full ttl from now. */
  lemma RenewalExtends(start: Time, actions: seq<Action>, id: nat, owner: string, token: int, ttl: real)
    returns (longer: seq<Action>)
    requires ValidRun(start, actions) && id !in After(start, actions).calls && owner != "" && ttl > 0.0
    ensures ValidRun(start, longer) && actions <= longer
    ensures var (s, t) := (After(start, actions), After(start, longer));
      && id in t.calls && t.calls[id].pc.Done? && t.generation == s.generation
      && if Held(s.record, s.now) && s.record.value.owner == owner && s.record.value.token == token then
           && t.record.Some? && t.calls[id].pc.result == Extended(t.record.value)
           && RunsFrom(t.record.value, s.now, ttl) && SameHolding(t.record.value, s.record.value)
           && forall at :: s.now <= at < s.now + ttl ==> Held(t.record, at)
         else t.calls[id].pc.result == NotExtended && t.record == s.record
  {
    longer := SoloCall(start, actions, id, Renew(owner, token, ttl));
  }

  /** An acquisition alone: the holder carries on, another is refused, and a lease that has ended is followed by a new one. */
  lemma AcquisitionGrants(start: Time, actions: seq<Action>, id: nat, owner: string, ttl: real, metadata: map<string, string>)
    returns (longer: seq<Action>)
    requires ValidRun(start, actions) && id !in After(start, actions).calls && owner != "" && ttl > 0.0
    ensures ValidRun(start, longer) && actions <= longer
    ensures var (s, t) := (After(start, actions), After(start, longer));
      && id in t.calls && t.calls[id].pc.Done?
      && if Held(s.record, s.now) && s.record.value.owner != owner then
           t.calls[id].pc.result == OwnedByOther(s.record.value) && t.record == s.record && t.generation == s.generation
         else
           && t.record.Some? && RunsFrom(t.record.value, s.now, ttl) && t.record.value.owner == owner
           && (forall at :: s.now <= at < s.now + ttl ==> Held(t.record, at))
           && if Held(s.record, s.now) then
                t.calls[id].pc.result == Granted(t.record.value, false) && SameHolding(t.record.value, s.record.value)
                && t.generation == s.generation
              else
                t.calls[id].pc.result == Granted(t.record.value, true) && t.record.value.acquiredAt == s.now
                && t.record.value.metadata == metadata && t.record.value.token == t.generation == s.generation + 1
  {
    longer := SoloCall(start, actions, id, Acquire(owner, ttl, metadata));
  }

  /** A release alone ends exactly a record of this owner and token, expired or not. */
  lemma ReleaseEnds(start: Time, actions: seq<Action>, id: nat, owner: string, token: int)
    returns (longer: seq<Action>)
    requires ValidRun(start, actions) && id !in After(start, actions).calls
    ensures ValidRun(start, longer) && actions <= longer
    ensures var (s, t) := (After(start, actions), After(start, longer));
      && id in t.calls && t.calls[id].pc.Done? && t.generation == s.generation
      && if s.record.Some? && s.record.value.owner == owner && s.record.value.token == token then
           && t.calls[id].pc.result == Freed(true) && t.record.Some? && SameHolding(t.record.value, s.record.value)
           && t.record.value.releasedAt == Some(s.now) && t.record.value.heartbeatAt == t.record.value.expiresAt == s.now
           && t.record.value.ttl == s.record.value.ttl && forall at :: s.now <= at ==> !Held(t.record, at)
         else t.calls[id].pc.result == Freed(false) && t.record == s.record
  {
    longer := SoloCall(start, actions, id, Release(owner, token));
  }

  /** An acquisition or renewal without an owner or a positive ttl is refused as invalid and leaves the store alone. */
  lemma BadInputIsRefused(start: Time, actions: seq<Action>, id: nat, op: Op) returns (longer: seq<Action>)
    requires ValidRun(start, actions) && id !in After(start, actions).calls
    requires !op.Release? && (op.owner == "" || op.ttl <= 0.0)
    ensures ValidRun(start, longer) && actions <= longer
    ensures var (s, t) := (After(start, actions), After(start, longer));
      id in t.calls && t.calls[id].pc == Done(InvalidInput, false) && t.record == s.record && t.generation == s.generation
  {
    longer := OneMore(start, actions, Start(id, op));
  }

  // ---------------------------------------------------------------------------------
  // Exclusion on the stored fields
  // ---------------------------------------------------------------------------------

  /** The last record stored under its token, unreleased and with time left. */
  ghost predicate Stands(s: System, i: nat) {
    && i < |s.installs| && s.installs[i].lease.releasedAt.None? && s.now < s.installs[i].lease.expiresAt
    && forall j :: i < j < |s.installs| ==> s.installs[j].lease.token != s.installs[i].lease.token
  }

  /** At most one stored lease stands, it is the stored record, and each change of owner came when the record before had ended. */
  lemma OneLeaseStands(start: Time, actions: seq<Action>, i: nat)
    requires ValidRun(start, actions)
    ensures var s := After(start, actions);
      Stands(s, i) ==> i == |s.installs| - 1 && s.record == Some(s.installs[i].lease)
    ensures var s := After(start, actions);
      0 < i < |s.installs| && s.installs[i - 1].lease.owner != s.installs[i].lease.owner ==>
        s.installs[i - 1].lease.releasedAt.Some? || s.installs[i - 1].lease.expiresAt <= s.installs[i].at
  {
    RunInv(start, actions);
    var s := After(start, actions);
    if Stands(s, i) && i < |s.installs| - 1 { OvertakenIsInactive(s, i); }
    if 0 < i < |s.installs| { assert FollowsAt(s.installs, i); }
  }

  // ---------------------------------------------------------------------------------
  // Contention
  // ---------------------------------------------------------------------------------

  /** How many attempts lie behind a call, and the record it works on. */
  function Behind(pc: Pc): nat {
    match pc
    case Reload => 8
    case Done(_, contended) => if contended then 8 else 0
    case _ => pc.attempt
  }

  function Read(pc: Pc): Option<Record> {
    match pc
    case CheckClock(_, seen) => Some(Some(seen))
    case DrawToken(_, raw, _) => Some(raw)
    case StampNew(_, raw, _, _) => Some(raw)
    case StampRenewed(_, seen, _) => Some(Some(seen))
    case StampReleased(_, seen) => Some(Some(seen))
    case Swap(_, raw, _, _, _, _) => Some(raw)
    case _ => None
  }

  /** Every attempt behind the call was lost to a write of its own. */
  predicate LostToWrites(s: System, id: nat, since: nat) {
    id in s.calls
    && var pc := s.calls[id].pc;
       && since + Behind(pc) <= |s.installs|
       && (Read(pc).Some? && since + Behind(pc) == |s.installs| ==> s.record == Read(pc).value)
       && (!pc.Reload? && !pc.Done? ==> pc.attempt < 8)
  }

  lemma StepKeepsLost(s: System, action: Action, id: nat, since: nat)
    requires LostToWrites(s, id, since) && Enabled(s, action)
    ensures LostToWrites(Step(s, action), id, since)
  {
    if action == Act(id) {
      match s.calls[id].pc
      case ReadRecord(_) =>
      case CheckClock(_, _) =>
      case Swap(_, _, _, _, _, _) =>
      case _ =>
    }
  }

  lemma {:induction false} RunKeepsLost(start: Time, actions: seq<Action>, more: seq<Action>, id: nat, since: nat)
    requires ValidRun(start, actions) && ValidRun(start, actions + more) && LostToWrites(After(start, actions), id, since)
    ensures LostToWrites(After(start, actions + more), id, since)
    decreases |more|
  {
    if more == [] {
      assert actions + more == actions;
    } else {
      var front := more[..|more| - 1];
      assert (actions + more)[..|actions + more| - 1] == actions + front;
      RunKeepsLost(start, actions, front, id, since);
      StepKeepsLost(After(start, actions + front), more[|more| - 1], id, since);
    }
  }

  /** A call gives up as contended only after eight writes by other calls since it began. */
  lemma ContendedNeedsEightWrites(start: Time, actions: seq<Action>, more: seq<Action>, id: nat, op: Op)
    requires ValidRun(start, actions) && Enabled(After(start, actions), Start(id, op))
    requires ValidRun(start, actions + [Start(id, op)] + more)
    requires var t := After(start, actions + [Start(id, op)] + more); id in t.calls && t.calls[id].pc.Done? && t.calls[id].pc.contended
    ensures |After(start, actions).installs| + 8 <= |After(start, actions + [Start(id, op)] + more).installs|
  {
    var begun := OneMore(start, actions, Start(id, op));
    RunKeepsLost(start, begun, more, id, |After(start, actions).installs|);
  }
}
