/** The fabric member registry: normal form, the three updates, and the update loop. */
module MemberRegistry {
  import opened Options
  import opened MemberNames

  type Time = real

  datatype Upstream = Upstream(name: string, toolPrefix: Option<string>, rest: map<string, string>)

  /** An absent string field is the empty string. */
  datatype Member = Member(
    id: string, role: string, status: string,
    createdAt: Option<Time>, heartbeatAt: Option<Time>, expiresAt: Option<Time>, leftAt: Option<Time>,
    ttl: real, details: map<string, string>, upstreams: seq<Upstream>)

  datatype Registry = Registry(updatedAt: Option<Time>, members: map<string, Member>)

  predicate IsRole(s: string) { s == "data_plane" || s == "control_plane" || s == "observer" }
  predicate IsStatus(s: string) { s == "active" || s == "draining" || s == "left" }

  function Underscored(s: string): string {
    seq(|s|, i requires 0 <= i < |s| => if s[i] == '-' then '_' else s[i])
  }

  function NormalizeUpstream(u: Upstream, memberId: string): Upstream {
    var name := SafeName(if u.name != "" then u.name else memberId);
    u.(name := name, toolPrefix := if u.toolPrefix.Some? then u.toolPrefix else Some(name + "."))
  }

  function NormalizeUpstreams(us: seq<Upstream>, memberId: string): seq<Upstream> {
    seq(|us|, i requires 0 <= i < |us| => NormalizeUpstream(us[i], memberId))
  }

  function NormalizeMember(m: Member, fallback: string): Member {
    var id := SafeName(if m.id != "" then m.id else fallback);
    m.(id := id,
       role := if IsRole(Underscored(m.role)) then Underscored(m.role) else "data_plane",
       status := if IsStatus(Underscored(m.status)) then Underscored(m.status) else "active",
       upstreams := NormalizeUpstreams(m.upstreams, id))
  }

  predicate NormalUpstream(u: Upstream) {
    IsSafeName(u.name) && u.toolPrefix.Some?
  }

  predicate NormalMember(m: Member) {
    IsSafeName(m.id) && IsRole(m.role) && IsStatus(m.status) && forall u :: u in m.upstreams ==> NormalUpstream(u)
  }

  /** Members are filed under their own, safe id. */
  ghost predicate Normal(r: Registry) {
    forall k :: k in r.members ==> r.members[k].id == k && NormalMember(r.members[k])
  }

  lemma NormalizeMemberFixes(m: Member, fallback: string)
    ensures NormalMember(NormalizeMember(m, fallback))
    ensures NormalMember(m) ==> NormalizeMember(m, fallback) == m
  {
    var id := if m.id != "" then m.id else fallback;
    SafeNameFixes(id);
    forall i | 0 <= i < |m.upstreams|
      ensures NormalUpstream(NormalizeUpstream(m.upstreams[i], SafeName(id)))
      ensures NormalUpstream(m.upstreams[i]) ==> NormalizeUpstream(m.upstreams[i], SafeName(id)) == m.upstreams[i]
    {
      var u := m.upstreams[i];
      SafeNameFixes(if u.name != "" then u.name else SafeName(id));
    }
    if NormalMember(m) {
      assert NormalizeUpstreams(m.upstreams, m.id) == m.upstreams;
      assert Underscored(m.role) == m.role && Underscored(m.status) == m.status;
    }
  }

  // ---------------------------------------------------------------------------------
  // The stored document
  // ---------------------------------------------------------------------------------

  /** Nothing, a document this code wrote, or any other document with its entries in order. */
  datatype Stored = Absent | Own(registry: Registry) | Foreign(updatedAt: Option<Time>, entries: seq<(string, Member)>)

  /** Later entries with the same normalised id win. */
  function FromEntries(entries: seq<(string, Member)>): map<string, Member> {
    if entries == [] then map[]
    else
      var (key, member) := entries[|entries| - 1];
      var normalized := NormalizeMember(member, key);
      FromEntries(entries[..|entries| - 1])[normalized.id := normalized]
  }

  function Decode(s: Stored): Registry {
    match s
    case Absent => Registry(None, map[])
    case Own(r) => Registry(r.updatedAt, map k | k in r.members :: NormalizeMember(r.members[k], k))
    case Foreign(at, entries) => Registry(at, FromEntries(entries))
  }

  /** Writing normalises too; on a registry filed under safe ids no two members collide. */
  function Encode(r: Registry): Stored {
    Own(Registry(r.updatedAt, map k | k in r.members :: NormalizeMember(r.members[k], k)))
  }

  lemma RoundTrip(r: Registry)
    requires Normal(r)
    ensures Encode(r) == Own(r) && Decode(Encode(r)) == r
  {
    forall k | k in r.members
      ensures NormalizeMember(r.members[k], k) == r.members[k]
    {
      NormalizeMemberFixes(r.members[k], k);
    }
  }

  lemma {:induction false} FromEntriesIsNormal(entries: seq<(string, Member)>)
    ensures Normal(Registry(None, FromEntries(entries)))
  {
    if entries != [] {
      FromEntriesIsNormal(entries[..|entries| - 1]);
      NormalizeMemberFixes(entries[|entries| - 1].1, entries[|entries| - 1].0);
    }
  }

  /** A stored value that decodes to a normal registry: any foreign document does. */
  ghost predicate WellStored(s: Stored) {
    s.Own? ==> Normal(s.registry)
  }

  lemma DecodeIsNormal(s: Stored)
    requires WellStored(s)
    ensures Normal(Decode(s))
  {
    match s
    case Absent =>
    case Own(r) => RoundTrip(r);
    case Foreign(_, entries) => FromEntriesIsNormal(entries);
  }

  // ---------------------------------------------------------------------------------
  // The updates
  // ---------------------------------------------------------------------------------

  datatype Op =
    | Register(memberId: string, role: string, upstreams: seq<Upstream>, ttl: real, status: string, details: map<string, string>)
    | Heartbeat(memberId: string, ttl: real, status: string)
    | Unregister(memberId: string)
  {
    predicate Valid() {
      match this
      case Register(_, role, upstreams, ttl, status, _) =>
        IsRole(Underscored(role)) && IsStatus(Underscored(status)) && ttl > 0.0
        && (Underscored(role) == "data_plane" ==> upstreams != [])
      case Heartbeat(_, _, status) => IsStatus(status)
      case Unregister(_) => true
    }
  }

  datatype Outcome =
    | BadInput
    | Recorded(member: Member)
    | NotRegistered(memberId: string)
    | Unregistered(memberId: string, removed: bool)
    | Contended

  /** What one valid update does to the record of the member it names. */
  function MemberStep(op: Op, current: Option<Member>, now: Time): Option<Member> {
    var id := SafeName(op.memberId);
    match op
    case Register(_, role, upstreams, ttl, status, details) =>
      var created := if current.Some? && current.value.createdAt.Some? then current.value.createdAt else Some(now);
      Some(Member(id, Underscored(role), Underscored(status), created, Some(now), Some(now + ttl), None,
                  ttl, details, NormalizeUpstreams(upstreams, id)))
    case Heartbeat(_, ttl, status) =>
      if current.None? then None
      else Some(current.value.(status := status, heartbeatAt := Some(now), ttl := ttl, expiresAt := Some(now + ttl)))
    case Unregister(_) =>
      if current.None? then None
      else Some(current.value.(status := "left", leftAt := Some(now), heartbeatAt := Some(now), expiresAt := Some(now)))
  }

  function Lookup(r: Registry, id: string): Option<Member> {
    if id in r.members then Some(r.members[id]) else None
  }

  function Apply(op: Op, r: Registry, now: Time): (Registry, Outcome) {
    var id := SafeName(op.memberId);
    var next := MemberStep(op, Lookup(r, id), now);
    var r' := if next.Some? then Registry(Some(now), r.members[id := next.value]) else r;
    if !op.Valid() then (r, BadInput)
    else if op.Unregister? then (r', Unregistered(id, next.Some?))
    else if next.Some? then (r', Recorded(next.value))
    else (r', NotRegistered(id))
  }

  /** An update keeps the registry normal, changes no other member, and forgets none. */
  lemma ApplyTouchesOneMember(op: Op, r: Registry, now: Time)
    requires Normal(r)
    ensures var r' := Apply(op, r, now).0;
      && Normal(r')
      && (forall k :: k != SafeName(op.memberId) ==> Lookup(r', k) == Lookup(r, k))
      && Lookup(r', SafeName(op.memberId)) == (if op.Valid() then MemberStep(op, Lookup(r, SafeName(op.memberId)), now)
                                               else Lookup(r, SafeName(op.memberId)))
      && r.members.Keys <= r'.members.Keys
  {
    var id := SafeName(op.memberId);
    SafeNameFixes(op.memberId);
    if op.Register? && op.Valid() {
      forall i | 0 <= i < |op.upstreams|
        ensures NormalUpstream(NormalizeUpstream(op.upstreams[i], id))
      {
        SafeNameFixes(if op.upstreams[i].name != "" then op.upstreams[i].name else id);
      }
    }
  }

  /** The decoded registry that the update closures change in place. */
  class Document {
    var updatedAt: Option<Time>
    var members: map<string, Member>

    constructor (r: Registry)
      ensures updatedAt == r.updatedAt && members == r.members
    {
      updatedAt, members := r.updatedAt, r.members;
    }

    method Update(op: Op, now: Time) returns (result: Outcome)
      modifies this
      ensures (Registry(updatedAt, members), result) == Apply(op, old(Registry(updatedAt, members)), now)
    {
      if !op.Valid() {
        return BadInput;
      }
      var id := SafeName(op.memberId);
      match op {
        case Register(_, role, upstreams, ttl, status, details) =>
          var created := Some(now);
          if id in members && members[id].createdAt.Some? {
            created := members[id].createdAt;
          }
          var member := Member(id, Underscored(role), Underscored(status), created, Some(now), Some(now + ttl), None,
                               ttl, details, NormalizeUpstreams(upstreams, id));
          members := members[id := member];
          updatedAt := Some(now);
          result := Recorded(member);
        case Heartbeat(_, ttl, status) =>
          if id !in members {
            return NotRegistered(id);
          }
          var updated := members[id].(status := status, heartbeatAt := Some(now), ttl := ttl, expiresAt := Some(now + ttl));
          members := members[id := updated];
          updatedAt := Some(now);
          result := Recorded(updated);
        case Unregister(_) =>
          if id !in members {
            return Unregistered(id, false);
          }
          members := members[id := members[id].(status := "left", leftAt := Some(now), heartbeatAt := Some(now), expiresAt := Some(now))];
          updatedAt := Some(now);
          result := Unregistered(id, true);
      }
    }
  }

  // ---------------------------------------------------------------------------------
  // The update loop as a program of separate accesses
  // ---------------------------------------------------------------------------------

  const ATTEMPTS: nat := 8

  datatype Pc =
    | ReadRecord(attempt: nat)
    | Compute(attempt: nat, raw: Stored)
    | Swap(attempt: nat, raw: Stored, now: Time)
    | Done(outcome: Outcome)

  datatype Reply = GotRecord(raw: Stored) | Clock(now: Time) | Swapped(ok: bool)

  function Begin(op: Op): Pc {
    if op.Heartbeat? && !op.Valid() then Done(BadInput) else ReadRecord(0)
  }

  function Next(op: Op, pc: Pc, reply: Reply): Pc {
    match (pc, reply)
    case (ReadRecord(k), GotRecord(raw)) => Compute(k, raw)
    case (Compute(k, raw), Clock(now)) => if op.Valid() then Swap(k, raw, now) else Done(BadInput)
    case (Swap(k, raw, now), Swapped(ok)) =>
      if ok then Done(Apply(op, Decode(raw), now).1)
      else if k + 1 < ATTEMPTS then ReadRecord(k + 1)
      else Done(Contended)
    case _ => pc
  }

  /**
    The shared store as one caller meets it; `schedule` holds what other writers do meanwhile.
    Every access must be the one that the ghost program `pc` names, with its arguments.
   */
  class SharedRegistry {
    var stored: Stored
    var clock: Time
    var schedule: seq<(Stored, real)>
    ghost var op: Op
    ghost var pc: Pc

    ghost method Call(op: Op)
      modifies this
      ensures this.op == op && pc == Begin(op)
      ensures unchanged(`stored, `clock, `schedule)
    {
      this.op, pc := op, Begin(op);
    }

    method Interfere()
      modifies this
      ensures op == old(op) && pc == old(pc)
    {
      if schedule != [] {
        stored := schedule[0].0;
        clock := clock + if schedule[0].1 < 0.0 then 0.0 else schedule[0].1;
        schedule := schedule[1..];
      }
    }

    method Get() returns (raw: Stored)
      requires pc.ReadRecord?
      modifies this
      ensures raw == stored
      ensures op == old(op) && pc == Next(op, old(pc), GotRecord(raw))
    {
      Interfere();
      raw := stored;
      pc := Next(op, pc, GotRecord(raw));
    }

    method Now() returns (now: Time)
      requires pc.Compute?
      modifies this
      ensures now == clock
      ensures op == old(op) && pc == Next(op, old(pc), Clock(now))
    {
      Interfere();
      now := clock;
      pc := Next(op, pc, Clock(now));
    }

    method Cas(expected: Stored, replacement: Stored) returns (ok: bool)
      requires pc.Swap? && pc.raw == expected && replacement == Encode(Apply(op, Decode(pc.raw), pc.now).0)
      modifies this
      ensures if ok then stored == replacement else stored != expected
      ensures op == old(op) && pc == Next(op, old(pc), Swapped(ok))
    {
      Interfere();
      ok := stored == expected;
      if ok {
        stored := replacement;
      }
      pc := Next(op, pc, Swapped(ok));
    }
  }

  /** The retry loop, whatever other writers do: a complete run of the program with its result. */
  method UpdateRegistry(store: SharedRegistry, op: Op) returns (result: Outcome)
    modifies store
    ensures store.op == op && store.pc == Done(result)
  {
    store.Call(op);
    if op.Heartbeat? && !op.Valid() {
      return BadInput;
    }
    for k := 0 to ATTEMPTS
      invariant store.op == op
      invariant store.pc == if k < ATTEMPTS then ReadRecord(k) else Done(Contended)
    {
      var raw := store.Get();
      var decoded := Decode(raw);
      var current := new Document(decoded);
      var now := store.Now();
      result := current.Update(op, now);
      if result.BadInput? {
        return;
      }
      var replacement := Encode(Registry(current.updatedAt, current.members));
      var swapped := store.Cas(raw, replacement);
      if swapped {
        return;
      }
    }
    result := Contended;
  }
}
