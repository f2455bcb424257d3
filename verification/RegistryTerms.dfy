/**
  What registry updates store, field by field, over every run: which are accepted, what each
  accepted one leaves, and what stands until the next write.
 */
module RegistryTerms {
  import opened Options
  import opened MemberNames
  import opened MemberRegistry
  import opened RegistryRuns

  // ---------------------------------------------------------------------------------
  // Which updates are accepted
  // ---------------------------------------------------------------------------------

  /** The stored spelling has underscores for the dashes of what was asked for. */
  predicate Respells(stored: string, asked: string) {
    |stored| == |asked| && forall i :: 0 <= i < |asked| ==> stored[i] == if asked[i] == '-' then '_' else asked[i]
  }

  predicate Acceptable(op: Op) {
    match op
    case Register(_, role, upstreams, ttl, status, _) =>
      && ttl > 0.0
      && (Respells("active", status) || Respells("draining", status) || Respells("left", status))
      && (Respells("observer", role) || Respells("control_plane", role) || (Respells("data_plane", role) && upstreams != []))
    case Heartbeat(_, _, status) => status == "active" || status == "draining" || status == "left"
    case Unregister(_) => true
  }

  lemma RespellsOne(stored: string, asked: string)
    ensures Respells(stored, asked) <==> stored == Underscored(asked)
  {
  }

  lemma RolesDiffer()
    ensures "data_plane" != "observer" && "data_plane" != "control_plane"
  {
    assert |"data_plane"| != |"observer"| && |"data_plane"| != |"control_plane"|;
  }

  lemma ValidIsAcceptable(op: Op)
    ensures op.Valid() <==> Acceptable(op)
  {
    if op.Register? {
      RespellsOne("active", op.status);
      RespellsOne("draining", op.status);
      RespellsOne("left", op.status);
      RespellsOne("observer", op.role);
      RespellsOne("control_plane", op.role);
      RespellsOne("data_plane", op.role);
      RolesDiffer();
    }
  }

  /** Only acceptable calls come to a swap, and only the others end in bad input; every attempt is one of eight. */
  predicate Judged(c: Call) {
    match c.pc
    case ReadRecord(k) => k < 8
    case Compute(k, _) => k < 8
    case Swap(k, _, _) => k < 8 && c.op.Valid()
    case Done(outcome) => outcome.BadInput? <==> !c.op.Valid()
  }

  lemma {:induction false} RunJudges(initial: Stored, start: Time, actions: seq<Action>, id: nat)
    requires ValidRun(initial, start, actions) && id in After(initial, start, actions).calls
    ensures Judged(After(initial, start, actions).calls[id])
  {
    if actions != [] {
      var front := actions[..|actions| - 1];
      if id in After(initial, start, front).calls { RunJudges(initial, start, front, id); }
    }
  }

  /** In every run a finished call was refused as bad input if and only if its arguments are not acceptable. */
  lemma BadInputExactly(initial: Stored, start: Time, actions: seq<Action>, id: nat)
    requires ValidRun(initial, start, actions) && id in After(initial, start, actions).calls
    requires After(initial, start, actions).calls[id].pc.Done?
    ensures var c := After(initial, start, actions).calls[id]; c.pc.outcome.BadInput? <==> !Acceptable(c.op)
  {
    RunJudges(initial, start, actions, id);
    ValidIsAcceptable(After(initial, start, actions).calls[id].op);
  }

  /** A lost swap leads to the next of eight attempts, and the eighth to the contended error. */
  lemma EightAttempts(initial: Stored, start: Time, actions: seq<Action>, id: nat)
    requires ValidRun(initial, start, actions) && Enabled(After(initial, start, actions), Act(id))
    requires var s := After(initial, start, actions); s.calls[id].pc.Swap? && s.stored != s.calls[id].pc.raw
    ensures var s := After(initial, start, actions);
      var (k, t) := (s.calls[id].pc.attempt, Step(s, Act(id)));
      && k < 8 && t.stored == s.stored && t.log == s.log
      && t.calls[id].pc == if k < 7 then ReadRecord(k + 1) else Done(Contended)
  {
    RunJudges(initial, start, actions, id);
  }

  // ---------------------------------------------------------------------------------
  // What one write stores
  // ---------------------------------------------------------------------------------

  predicate KeepsUpstream(u: Upstream, asked: Upstream, id: string) {
    && u.rest == asked.rest && u.name == SafeName(if asked.name == "" then id else asked.name)
    && u.toolPrefix == (if asked.toolPrefix.Some? then asked.toolPrefix else Some(u.name + "."))
  }

  predicate KeepsUpstreams(us: seq<Upstream>, asked: seq<Upstream>, id: string) {
    |us| == |asked| && forall i :: 0 <= i < |us| ==> KeepsUpstream(us[i], asked[i], id)
  }

  /** A registration stores what was asked for, alive for one ttl, and keeps a creation time there was. */
  predicate Registers(op: Op, before: Option<Member>, m: Member, now: Time)
    requires op.Register?
  {
    && m.id == SafeName(op.memberId)
    && Respells(m.role, op.role) && Respells(m.status, op.status)
    && m.heartbeatAt == Some(now) && m.expiresAt == Some(now + op.ttl) && m.leftAt == None && m.ttl == op.ttl
    && m.createdAt == (if before.Some? && before.value.createdAt.Some? then before.value.createdAt else Some(now))
    && m.details == op.details && KeepsUpstreams(m.upstreams, op.upstreams, m.id)
  }

  predicate SameIdentity(a: Member, b: Member) {
    a.id == b.id && a.role == b.role && a.createdAt == b.createdAt && a.details == b.details && a.upstreams == b.upstreams
  }

  /** A heartbeat extends the member by one ttl and sets its status. */
  predicate Extends(op: Op, before: Member, m: Member, now: Time)
    requires op.Heartbeat?
  {
    && SameIdentity(before, m) && m.leftAt == before.leftAt && m.status == op.status
    && m.heartbeatAt == Some(now) && m.expiresAt == Some(now + op.ttl) && m.ttl == op.ttl
  }

  /** Leaving ends the member at once. */
  predicate Leaves(before: Member, m: Member, now: Time) {
    SameIdentity(before, m) && m.status == "left" && m.leftAt == m.heartbeatAt == m.expiresAt == Some(now) && m.ttl == before.ttl
  }

  /** One write of the log: what it found under its member's name, what it left, and what it returned. */
  predicate WritesAsAsked(e: Entry, before: Option<Member>, after: Option<Member>) {
    match e.op
    case Register(_, _, _, _, _, _) =>
      after.Some? && Registers(e.op, before, after.value, e.now) && e.outcome == Recorded(after.value)
    case Heartbeat(memberId, _, _) =>
      if before.None? then after.None? && e.outcome == NotRegistered(SafeName(memberId))
      else after.Some? && Extends(e.op, before.value, after.value, e.now) && e.outcome == Recorded(after.value)
    case Unregister(memberId) =>
      && e.outcome == Unregistered(SafeName(memberId), before.Some?)
      && if before.None? then after.None? else after.Some? && Leaves(before.value, after.value, e.now)
  }

  predicate Names(e: Entry, id: string) {
    SafeName(e.op.memberId) == id
  }

  lemma ApplyWritesAsAsked(e: Entry, r: Registry, id: string)
    requires e.op.Valid() && Names(e, id) && Apply(e.op, r, e.now).1 == e.outcome
    ensures WritesAsAsked(e, Lookup(r, id), Lookup(Apply(e.op, r, e.now).0, id))
    ensures (Lookup(Apply(e.op, r, e.now).0, id).Some? ==> Apply(e.op, r, e.now).0.updatedAt == Some(e.now))
  {
    if e.op.Register? {
      RespellsOne(Underscored(e.op.role), e.op.role);
      RespellsOne(Underscored(e.op.status), e.op.status);
    }
  }

  /** Every write of every run, against the member as the writes before it left it. */
  lemma WritesStoreWhatWasAsked(initial: Stored, start: Time, actions: seq<Action>, i: nat, id: string)
    requires ValidRun(initial, start, actions) && WellStored(initial)
    requires i < |After(initial, start, actions).log| && Names(After(initial, start, actions).log[i], id)
    ensures var (r, log) := (Decode(initial), After(initial, start, actions).log);
      WritesAsAsked(log[i], Lookup(Serial(r, log, i), id), Lookup(Serial(r, log, i + 1), id))
  {
    RunInv(initial, start, actions);
    var r, log := Decode(initial), After(initial, start, actions).log;
    assert OutcomeAt(r, log, i);
    ApplyWritesAsAsked(log[i], Serial(r, log, i), id);
  }

  // ---------------------------------------------------------------------------------
  // What stands
  // ---------------------------------------------------------------------------------

  lemma OtherLeavesIt(initial: Registry, log: seq<Entry>, k: nat, id: string)
    requires 0 < k <= |log| && Normal(initial) && !Names(log[k - 1], id)
    ensures Lookup(Serial(initial, log, k), id) == Lookup(Serial(initial, log, k - 1), id)
  {
    SerialIsPerMember(initial, log, k - 1, id);
    ApplyTouchesOneMember(log[k - 1].op, Serial(initial, log, k - 1), log[k - 1].now);
  }

  lemma {:induction false} OthersLeaveIt(initial: Registry, log: seq<Entry>, i: nat, k: nat, id: string)
    requires i <= k <= |log| && Normal(initial)
    requires forall j :: i <= j < k ==> !Names(log[j], id)
    ensures Lookup(Serial(initial, log, k), id) == Lookup(Serial(initial, log, i), id)
  {
    if i < k {
      OthersLeaveIt(initial, log, i, k - 1, id);
      OtherLeavesIt(initial, log, k, id);
    }
  }

  lemma LastWriteIsFinal(initial: Registry, log: seq<Entry>, i: nat, id: string)
    requires Normal(initial) && i < |log| && OutcomeAt(initial, log, i) && Names(log[i], id)
    requires forall j :: i + 1 <= j < |log| ==> !Names(log[j], id)
    ensures WritesAsAsked(log[i], Lookup(Serial(initial, log, i), id), Lookup(Serial(initial, log, |log|), id))
  {
    ApplyWritesAsAsked(log[i], Serial(initial, log, i), id);
    OthersLeaveIt(initial, log, i + 1, |log|, id);
  }

  /** At any moment of any run the store holds of a member what the last write naming it left. */
  lemma LastWriteStands(initial: Stored, start: Time, actions: seq<Action>, i: nat, id: string)
    requires ValidRun(initial, start, actions) && WellStored(initial)
    requires i < |After(initial, start, actions).log| && Names(After(initial, start, actions).log[i], id)
    requires forall j :: i + 1 <= j < |After(initial, start, actions).log| ==> !Names(After(initial, start, actions).log[j], id)
    ensures var s := After(initial, start, actions);
      WritesAsAsked(s.log[i], Lookup(Serial(Decode(initial), s.log, i), id), Lookup(Decode(s.stored), id))
  {
    RunInv(initial, start, actions);
    DecodeIsNormal(initial);
    LastWriteIsFinal(Decode(initial), After(initial, start, actions).log, i, id);
  }

  predicate RegistersIt(e: Entry, id: string) {
    e.op.Register? && Names(e, id)
  }

  /** The first registration of a member that had no creation time. */
  predicate FirstRegistration(log: seq<Entry>, i: nat, id: string) {
    i < |log| && RegistersIt(log[i], id) && forall j :: 0 <= j < i ==> !RegistersIt(log[j], id)
  }

  predicate Created(m: Option<Member>, at: Option<Time>) {
    if at.Some? then m.Some? && m.value.createdAt == at else m.Some? ==> m.value.createdAt.None?
  }

  lemma CreatedByOne(initial: Registry, log: seq<Entry>, k: nat, id: string, at: Option<Time>)
    requires 0 < k <= |log| && Normal(initial) && OutcomeAt(initial, log, k - 1)
    requires at.Some? || !RegistersIt(log[k - 1], id)
    requires Created(Lookup(Serial(initial, log, k - 1), id), at)
    ensures Created(Lookup(Serial(initial, log, k), id), at)
  {
    if Names(log[k - 1], id) {
      ApplyWritesAsAsked(log[k - 1], Serial(initial, log, k - 1), id);
    } else {
      OtherLeavesIt(initial, log, k, id);
    }
  }

  lemma {:induction false} CreatedBySerial(initial: Registry, log: seq<Entry>, i: nat, k: nat, id: string, at: Option<Time>)
    requires i <= k <= |log| && Normal(initial)
    requires forall j :: 0 <= j < |log| ==> OutcomeAt(initial, log, j)
    requires at.Some? || forall j :: i <= j < k ==> !RegistersIt(log[j], id)
    requires Created(Lookup(Serial(initial, log, i), id), at)
    ensures Created(Lookup(Serial(initial, log, k), id), at)
  {
    if i < k {
      CreatedBySerial(initial, log, i, k - 1, id, at);
      CreatedByOne(initial, log, k, id, at);
    }
  }

  lemma CreatedHere(initial: Registry, log: seq<Entry>, i: nat, id: string)
    requires i < |log| && RegistersIt(log[i], id) && OutcomeAt(initial, log, i)
    requires Created(Lookup(Serial(initial, log, i), id), None)
    ensures Created(Lookup(Serial(initial, log, i + 1), id), Some(log[i].now))
  {
    ApplyWritesAsAsked(log[i], Serial(initial, log, i), id);
  }

  lemma CreatedFirst(initial: Registry, log: seq<Entry>, i: nat, id: string)
    requires Normal(initial) && FirstRegistration(log, i, id)
    requires forall j :: 0 <= j < |log| ==> OutcomeAt(initial, log, j)
    requires Created(Lookup(initial, id), None)
    ensures Created(Lookup(Serial(initial, log, |log|), id), Some(log[i].now))
  {
    CreatedBySerial(initial, log, 0, i, id, None);
    CreatedHere(initial, log, i, id);
    CreatedBySerial(initial, log, i + 1, |log|, id, Some(log[i].now));
  }

  /**
    The creation time over every run: one that was stored at the start stays for good; otherwise
    it is the reading of the member's first registration, whatever is registered later.
   */
  lemma CreatedOnce(initial: Stored, start: Time, actions: seq<Action>, i: nat, id: string)
    requires ValidRun(initial, start, actions) && WellStored(initial)
    ensures var (s, was) := (After(initial, start, actions), Lookup(Decode(initial), id));
      && (was.Some? && was.value.createdAt.Some? ==> Created(Lookup(Decode(s.stored), id), was.value.createdAt))
      && (Created(was, None) && FirstRegistration(s.log, i, id) ==>
            Created(Lookup(Decode(s.stored), id), Some(s.log[i].now)))
  {
    RunInv(initial, start, actions);
    DecodeIsNormal(initial);
    var r, log := Decode(initial), After(initial, start, actions).log;
    var was := Lookup(r, id);
    if was.Some? && was.value.createdAt.Some? {
      CreatedBySerial(r, log, 0, |log|, id, was.value.createdAt);
    } else if FirstRegistration(log, i, id) {
      CreatedFirst(r, log, i, id);
    }
  }

  // ---------------------------------------------------------------------------------
  // Documents written elsewhere
  // ---------------------------------------------------------------------------------

  /** Names are made safe, unknown roles and statuses become the usual ones, and the rest stays. */
  predicate NormalizedFrom(n: Member, m: Member, key: string) {
    && n.id == SafeName(if m.id == "" then key else m.id)
    && n.role == (if Respells("observer", m.role) then "observer" else if Respells("control_plane", m.role) then "control_plane" else "data_plane")
    && n.status == (if Respells("draining", m.status) then "draining" else if Respells("left", m.status) then "left" else "active")
    && n.createdAt == m.createdAt && n.heartbeatAt == m.heartbeatAt && n.expiresAt == m.expiresAt && n.leftAt == m.leftAt
    && n.ttl == m.ttl && n.details == m.details && KeepsUpstreams(n.upstreams, m.upstreams, n.id)
  }

  lemma NormalizesFrom(m: Member, key: string)
    ensures NormalizedFrom(NormalizeMember(m, key), m, key)
  {
    RespellsOne("observer", m.role);
    RespellsOne("control_plane", m.role);
    RespellsOne("draining", m.status);
    RespellsOne("left", m.status);
  }

  predicate FiledUnder(entry: (string, Member), id: string) {
    SafeName(if entry.1.id == "" then entry.0 else entry.1.id) == id
  }

  predicate LastUnder(entries: seq<(string, Member)>, i: nat, id: string) {
    i < |entries| && FiledUnder(entries[i], id) && forall j :: i < j < |entries| ==> !FiledUnder(entries[j], id)
  }

  predicate ReadAt(entries: seq<(string, Member)>, i: nat, id: string, m: Member) {
    LastUnder(entries, i, id) && NormalizedFrom(m, entries[i].1, entries[i].0)
  }

  /** What is read under a name, if anything, is the last entry with that name, normalised. */
  ghost predicate ReadsLast(entries: seq<(string, Member)>, id: string, m: Option<Member>) {
    if m.None? then forall i :: 0 <= i < |entries| ==> !FiledUnder(entries[i], id)
    else exists i: nat :: ReadAt(entries, i, id, m.value)
  }

  lemma LastUnderMore(entries: seq<(string, Member)>, i: nat, id: string)
    requires entries != [] && !FiledUnder(entries[|entries| - 1], id) && LastUnder(entries[..|entries| - 1], i, id)
    ensures LastUnder(entries, i, id) && entries[i] == entries[..|entries| - 1][i]
  {
    forall j | i < j < |entries| - 1 ensures !FiledUnder(entries[j], id) { assert entries[..|entries| - 1][j] == entries[j]; }
  }

  lemma ReadsLastMore(entries: seq<(string, Member)>, id: string, m: Option<Member>)
    requires entries != [] && !FiledUnder(entries[|entries| - 1], id)
    requires ReadsLast(entries[..|entries| - 1], id, m)
    ensures ReadsLast(entries, id, m)
  {
    var front := entries[..|entries| - 1];
    if m.Some? {
      var i: nat :| ReadAt(front, i, id, m.value);
      LastUnderMore(entries, i, id);
      assert ReadAt(entries, i, id, m.value);
    } else {
      forall i | 0 <= i < |front| ensures !FiledUnder(entries[i], id) { assert front[i] == entries[i]; }
    }
  }

  lemma {:induction false} EntriesReadLast(entries: seq<(string, Member)>, id: string)
    ensures ReadsLast(entries, id, if id in FromEntries(entries) then Some(FromEntries(entries)[id]) else None)
  {
    if entries != [] {
      var n := |entries| - 1;
      var m := NormalizeMember(entries[n].1, entries[n].0);
      NormalizesFrom(entries[n].1, entries[n].0);
      if m.id == id {
        assert ReadAt(entries, n, id, m);
      } else {
        EntriesReadLast(entries[..n], id);
        ReadsLastMore(entries, id, if id in FromEntries(entries[..n]) then Some(FromEntries(entries[..n])[id]) else None);
      }
    }
  }

  /** A document written elsewhere is read as its last entry under each safe name, normalised. */
  lemma LastEntryCounts(at: Option<Time>, entries: seq<(string, Member)>, id: string)
    ensures ReadsLast(entries, id, Lookup(Decode(Foreign(at, entries)), id))
    ensures Decode(Foreign(at, entries)).updatedAt == at
  {
    EntriesReadLast(entries, id);
  }
}
