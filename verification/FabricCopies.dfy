/**
  The copies of a lease that calls hand to their callers: when a caller may trust its copy's
  own expiry, and exactly when it may not.
 */
module FabricCopies {
  import opened Options
  import opened FabricLease
  import opened FabricRuns

  /** The lease a finished call handed to its caller, if any. */
  function Grant(pc: Pc): Record {
    if !pc.Done? then None
    else match pc.result
      case Granted(lease, _) => Some(lease)
      case Extended(lease) => Some(lease)
      case _ => None
  }

  ghost predicate WasStored(s: System, lease: Lease) {
    exists i :: 0 <= i < |s.installs| && s.installs[i].lease == lease
  }

  lemma {:induction false} GrantsWereStored(start: Time, actions: seq<Action>, id: nat)
    requires ValidRun(start, actions) && id in After(start, actions).calls
    requires Grant(After(start, actions).calls[id].pc).Some?
    ensures WasStored(After(start, actions), Grant(After(start, actions).calls[id].pc).value)
  {
    var front := actions[..|actions| - 1];
    var s, t := After(start, front), After(start, actions);
    if id in s.calls && Grant(s.calls[id].pc).Some? {
      GrantsWereStored(start, front, id);
      var i :| 0 <= i < |s.installs| && s.installs[i].lease == Grant(s.calls[id].pc).value;
      assert t.installs[i] == s.installs[i];
    } else {
      assert t.installs[|s.installs|].lease == Grant(t.calls[id].pc).value;
    }
  }

  /** The last record stored under the same token as record i. */
  lemma {:induction false} LastOfToken(s: System, i: nat) returns (k: nat)
    requires i < |s.installs|
    ensures i <= k < |s.installs| && LatestOfToken(s, k)
    ensures s.installs[k].lease.token == s.installs[i].lease.token
    decreases |s.installs| - i
  {
    k := i;
    if j :| i < j < |s.installs| && s.installs[j].lease.token == s.installs[i].lease.token {
      k := LastOfToken(s, j);
    }
  }

  /** The call's caller holds a copy that looks unexpired and unreleased. */
  predicate HoldsCopy(s: System, id: nat) {
    id in s.calls && IsActive(Grant(s.calls[id].pc), s.now)
  }

  function Copy(s: System, id: nat): Lease
    requires HoldsCopy(s, id)
  {
    Grant(s.calls[id].pc).value
  }

  /** The last record stored under the copy's token is released, or ends before the copy says. */
  ghost predicate CutShort(s: System, copy: Lease) {
    exists k: nat :: k < |s.installs| && LatestOfToken(s, k) && Undercuts(s.installs[k].lease, copy)
  }

  predicate Undercuts(record: Lease, copy: Lease) {
    record.token == copy.token && (record.releasedAt.Some? || record.expiresAt < copy.expiresAt)
  }

  /** Another copy with a later token is active beside this one. */
  ghost predicate Overtaken(s: System, id: nat)
    requires HoldsCopy(s, id)
  {
    exists other :: HoldsCopy(s, other) && Copy(s, id).token < Copy(s, other).token
  }

  /** Where a copy was stored, and the last record of its token. */
  lemma CopyWasStored(start: Time, actions: seq<Action>, id: nat) returns (i: nat, k: nat)
    requires ValidRun(start, actions) && HoldsCopy(After(start, actions), id)
    ensures var s := After(start, actions);
      && i <= k < |s.installs| && s.installs[i].lease == Copy(s, id)
      && LatestOfToken(s, k) && s.installs[k].lease.token == Copy(s, id).token
  {
    GrantsWereStored(start, actions, id);
    var s := After(start, actions);
    i :| 0 <= i < |s.installs| && s.installs[i].lease == Copy(s, id);
    k := LastOfToken(s, i);
  }

  /** In every interleaving a copy is overtaken only if its record was cut short. */
  lemma OvertakenCopyWasCut(start: Time, actions: seq<Action>, id: nat)
    requires ValidRun(start, actions) && HoldsCopy(After(start, actions), id) && Overtaken(After(start, actions), id)
    ensures CutShort(After(start, actions), Copy(After(start, actions), id))
  {
    RunInv(start, actions);
    var s := After(start, actions);
    var other :| HoldsCopy(s, other) && Copy(s, id).token < Copy(s, other).token;
    var i, k := CopyWasStored(start, actions, id);
    var j, m := CopyWasStored(start, actions, other);
    if j < k { Chain(s, j, k); }
    OvertakenIsInactive(s, k);
    assert Undercuts(s.installs[k].lease, Copy(s, id));
  }

  /** The copies handed to callers are exclusive as well, as long as neither record was cut short. */
  lemma GrantsAreExclusive(start: Time, actions: seq<Action>, a: nat, b: nat)
    requires ValidRun(start, actions)
    requires HoldsCopy(After(start, actions), a) && !CutShort(After(start, actions), Copy(After(start, actions), a))
    requires HoldsCopy(After(start, actions), b) && !CutShort(After(start, actions), Copy(After(start, actions), b))
    ensures Copy(After(start, actions), a).token == Copy(After(start, actions), b).token
    ensures Copy(After(start, actions), a).owner == Copy(After(start, actions), b).owner
  {
    RunInv(start, actions);
    var s := After(start, actions);
    if Overtaken(s, a) { OvertakenCopyWasCut(start, actions, a); }
    if Overtaken(s, b) { OvertakenCopyWasCut(start, actions, b); }
    assert Copy(s, a).token == Copy(s, b).token;
    SameTokenSameOwner(start, actions, a, b);
  }

  lemma SameTokenSameOwner(start: Time, actions: seq<Action>, a: nat, b: nat)
    requires ValidRun(start, actions) && HoldsCopy(After(start, actions), a) && HoldsCopy(After(start, actions), b)
    requires Copy(After(start, actions), a).token == Copy(After(start, actions), b).token
    ensures Copy(After(start, actions), a).owner == Copy(After(start, actions), b).owner
  {
    RunInv(start, actions);
    var s := After(start, actions);
    var i, _ := CopyWasStored(start, actions, a);
    var j, _ := CopyWasStored(start, actions, b);
    OneOwnerPerToken(s, i, j);
  }

  lemma OneOwnerPerToken(s: System, i: nat, j: nat)
    requires History(s) && i < |s.installs| && j < |s.installs| && s.installs[i].lease.token == s.installs[j].lease.token
    ensures s.installs[i].lease.owner == s.installs[j].lease.owner
  {
    if i < j { Chain(s, i, j); } else if j < i { Chain(s, j, i); }
  }

  // ---------------------------------------------------------------------------------
  // The condition is exact
  // ---------------------------------------------------------------------------------

  /** A later state of the run in which nothing more was stored under the token. */
  ghost predicate Continues(start: Time, actions: seq<Action>, longer: seq<Action>, token: int)
    requires ValidRun(start, actions)
  {
    && actions <= longer && ValidRun(start, longer)
    && forall i :: |After(start, actions).installs| <= i < |After(start, longer).installs| ==>
         After(start, longer).installs[i].lease.token != token
  }

  /** The other calls' copies when one call has run alone after a pause. */
  lemma PauseAndAcquire(start: Time, actions: seq<Action>, pause: real, id: nat, owner: string) returns (longer: seq<Action>)
    requires ValidRun(start, actions) && pause >= 0.0 && owner != "" && id !in After(start, actions).calls
    ensures ValidRun(start, longer) && actions <= longer
    ensures var s, t := After(start, actions), After(start, longer);
      && t.now == s.now + pause && id in t.calls && t.calls[id].pc.Done? && |t.installs| <= |s.installs| + 1
      && (forall other :: other in s.calls ==> other in t.calls && t.calls[other] == s.calls[other])
      && (Mem(t.record, t.generation), t.calls[id].pc.result)
         == MemStep(Mem(s.record, s.generation), Acquire(owner, 1.0, map[]), t.now, t.now)
  {
    longer := OneMore(start, actions, Tick(pause));
    var paused := longer;
    longer := SoloCall(start, paused, id, Acquire(owner, 1.0, map[]));
    LongerThan(start, paused, longer);
  }

  /** A call that ran alone only extended the run. */
  lemma LongerThan(start: Time, actions: seq<Action>, longer: seq<Action>)
    requires ValidRun(start, actions) && ValidRun(start, longer) && actions <= longer
    ensures After(start, actions).installs <= After(start, longer).installs
  {
    assert longer == actions + longer[|actions|..];
    LongerRun(start, actions, longer[|actions|..]);
  }

  /** Over a record that is released, or ends before the copy does, any owner can be granted the lease beside the copy. */
  lemma CutRecordIsOpenToAnyone(start: Time, actions: seq<Action>, id: nat, other: nat, owner: string) returns (longer: seq<Action>)
    requires ValidRun(start, actions) && HoldsCopy(After(start, actions), id) && other !in After(start, actions).calls && owner != ""
    requires var s := After(start, actions); s.record.Some? && Undercuts(s.record.value, Copy(s, id))
    ensures Continues(start, actions, longer, Copy(After(start, actions), id).token)
    ensures var s, t := After(start, actions), After(start, longer);
      && HoldsCopy(t, id) && Copy(t, id) == Copy(s, id)
      && HoldsCopy(t, other) && Copy(t, other).owner == owner && Copy(t, id).token < Copy(t, other).token
  {
    RunInv(start, actions);
    var s := After(start, actions);
    var r := s.record.value;
    var pause := if r.releasedAt.None? && s.now < r.expiresAt then r.expiresAt - s.now else 0.0;
    longer := PauseAndAcquire(start, actions, pause, other, owner);
    RunInv(start, longer);
    LongerThan(start, actions, longer);
  }

  predicate NamedRecord(record: Record) {
    record.Some? ==> record.value.owner != ""
  }

  /** Every lease a call has read or is about to store has an owner, and only valid calls go on. */
  predicate NamedPc(op: Op, pc: Pc) {
    && (pc.Done? || op.Valid())
    && match pc
       case CheckClock(_, seen) => seen.owner != ""
       case StampRenewed(_, seen, _) => seen.owner != ""
       case StampReleased(_, seen) => seen.owner != ""
       case Swap(_, _, lease, _, _, _) => lease.owner != ""
       case _ => true
  }

  ghost predicate Named(s: System) {
    NamedRecord(s.record) && forall id :: id in s.calls ==> NamedPc(s.calls[id].op, s.calls[id].pc)
  }

  /** What is stored always has an owner. */
  lemma {:induction false} OwnersAreNamed(start: Time, actions: seq<Action>)
    requires ValidRun(start, actions)
    ensures Named(After(start, actions))
  {
    if actions != [] {
      OwnersAreNamed(start, actions[..|actions| - 1]);
      var s, action := After(start, actions[..|actions| - 1]), actions[|actions| - 1];
      if action.Act? {
        assert NamedPc(s.calls[action.id].op, s.calls[action.id].pc);
      }
    }
  }

  /** A copy whose record was replaced already is overtaken as soon as the present holder, or anyone, asks again. */
  lemma ReplacedCopyIsOvertaken(start: Time, actions: seq<Action>, id: nat, other: nat) returns (longer: seq<Action>)
    requires ValidRun(start, actions) && HoldsCopy(After(start, actions), id) && other !in After(start, actions).calls
    requires var s := After(start, actions); s.record.Some? && Copy(s, id).token < s.record.value.token
    ensures Continues(start, actions, longer, Copy(After(start, actions), id).token)
    ensures var s, t := After(start, actions), After(start, longer);
      HoldsCopy(t, id) && Copy(t, id) == Copy(s, id) && HoldsCopy(t, other) && Copy(t, id).token < Copy(t, other).token
  {
    RunInv(start, actions);
    var s := After(start, actions);
    OwnersAreNamed(start, actions);
    longer := PauseAndAcquire(start, actions, 0.0, other, s.record.value.owner);
    RunInv(start, longer);
    LongerThan(start, actions, longer);
  }

  lemma CutCopyCanBeOvertaken(start: Time, actions: seq<Action>, id: nat, other: nat) returns (longer: seq<Action>)
    requires ValidRun(start, actions) && HoldsCopy(After(start, actions), id) && other !in After(start, actions).calls
    requires CutShort(After(start, actions), Copy(After(start, actions), id))
    ensures Continues(start, actions, longer, Copy(After(start, actions), id).token)
    ensures var s, t := After(start, actions), After(start, longer);
      HoldsCopy(t, id) && Copy(t, id) == Copy(s, id) && HoldsCopy(t, other) && Copy(t, id).token < Copy(t, other).token
  {
    var s := After(start, actions);
    RunInv(start, actions);
    CutIsCutOrReplaced(s, Copy(s, id));
    if Undercuts(s.record.value, Copy(s, id)) {
      longer := CutRecordIsOpenToAnyone(start, actions, id, other, "other");
    } else {
      longer := ReplacedCopyIsOvertaken(start, actions, id, other);
    }
  }

  lemma CutIsCutOrReplaced(s: System, copy: Lease)
    requires History(s) && CutShort(s, copy)
    ensures s.record.Some? && (Undercuts(s.record.value, copy) || copy.token < s.record.value.token)
  {
    var k: nat :| k < |s.installs| && LatestOfToken(s, k) && Undercuts(s.installs[k].lease, copy);
    var last := |s.installs| - 1;
    if k < last {
      Chain(s, k, last);
      assert s.installs[last].lease.token != s.installs[k].lease.token;
    }
  }

  /** Some continuation in which nothing more is stored under the copy's token overtakes the copy while it looks active. */
  ghost predicate CanBeOvertaken(start: Time, actions: seq<Action>, id: nat)
    requires ValidRun(start, actions) && HoldsCopy(After(start, actions), id)
  {
    exists longer ::
      && Continues(start, actions, longer, Copy(After(start, actions), id).token)
      && HoldsCopy(After(start, longer), id) && Copy(After(start, longer), id) == Copy(After(start, actions), id)
      && Overtaken(After(start, longer), id)
  }

  lemma LaterCutIsPresentCut(start: Time, actions: seq<Action>, longer: seq<Action>, copy: Lease)
    requires ValidRun(start, actions) && Continues(start, actions, longer, copy.token)
    requires CutShort(After(start, longer), copy)
    ensures CutShort(After(start, actions), copy)
  {
    LongerThan(start, actions, longer);
    var s, t := After(start, actions), After(start, longer);
    var k: nat :| k < |t.installs| && LatestOfToken(t, k) && Undercuts(t.installs[k].lease, copy);
    assert k < |s.installs| && s.installs[k] == t.installs[k];
    assert LatestOfToken(s, k);
  }

  /**
    When a copy can be trusted: in every run, a copy that looks active can be overtaken without
    anything more being stored under its token if and only if its record was cut short, by a
    release or by a renewal that ends earlier.
   */
  lemma CopyIsExclusiveExactly(start: Time, actions: seq<Action>, id: nat, other: nat)
    requires ValidRun(start, actions) && HoldsCopy(After(start, actions), id) && other !in After(start, actions).calls
    ensures CutShort(After(start, actions), Copy(After(start, actions), id)) <==> CanBeOvertaken(start, actions, id)
  {
    var copy := Copy(After(start, actions), id);
    if CutShort(After(start, actions), copy) {
      var longer := CutCopyCanBeOvertaken(start, actions, id, other);
      assert Overtaken(After(start, longer), id);
    }
    if CanBeOvertaken(start, actions, id) {
      var longer :| Continues(start, actions, longer, copy.token)
        && HoldsCopy(After(start, longer), id) && Copy(After(start, longer), id) == copy && Overtaken(After(start, longer), id);
      OvertakenCopyWasCut(start, longer, id);
      LaterCutIsPresentCut(start, actions, longer, copy);
    }
  }

  /** Such copies occur: one renewal with a shorter ttl is enough. */
  lemma ShortenedRenewalLeavesStaleCopy() returns (actions: seq<Action>)
    ensures ValidRun(0.0, actions)
    ensures var s := After(0.0, actions);
      && 0 in s.calls && 2 in s.calls
      && IsActive(Grant(s.calls[0].pc), s.now) && IsActive(Grant(s.calls[2].pc), s.now)
      && Grant(s.calls[0].pc).value.owner != Grant(s.calls[2].pc).value.owner
  {
    actions := SoloCall(0.0, [], 0, Acquire("a", 100.0, map[]));
    actions := SoloCall(0.0, actions, 1, Renew("a", 1, 1.0));
    actions := OneMore(0.0, actions, Tick(2.0));
    actions := SoloCall(0.0, actions, 2, Acquire("b", 100.0, map[]));
  }
}
