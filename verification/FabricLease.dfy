/**
  The runtime ownership lease of a fabric controller: the lease record, the lock-based
  memory store, and the compare-and-swap store with its bounded retry loops.

  Clock readings are reals. A stored record is the decoded lease, so comparing two stored
  strings is comparing two leases.
 */
module FabricLease {
  import opened Options

  type Time = real

  datatype Lease = Lease(
    owner: string,
    token: int,
    acquiredAt: Time,
    heartbeatAt: Time,
    expiresAt: Time,
    ttl: real,
    releasedAt: Option<Time>,
    metadata: map<string, string>)

  type Record = Option<Lease>

  predicate IsActive(record: Record, now: Time) {
    record.Some? && record.value.releasedAt.None? && now < record.value.expiresAt
  }

  predicate Matches(record: Record, owner: string, token: int) {
    record.Some? && record.value.owner == owner && record.value.token == token
  }

  function NewLease(owner: string, token: int, ttl: real, metadata: map<string, string>, now: Time): Lease {
    Lease(owner, token, now, now, now + ttl, ttl, None, metadata)
  }

  function RenewedLease(lease: Lease, ttl: real, now: Time): Lease {
    lease.(heartbeatAt := now, expiresAt := now + ttl, ttl := ttl, releasedAt := None)
  }

  function ReleasedLease(lease: Lease, now: Time): Lease {
    lease.(heartbeatAt := now, expiresAt := now, releasedAt := Some(now))
  }

  /** One call on a store. */
  datatype Op =
    | Acquire(owner: string, ttl: real, metadata: map<string, string>)
    | Renew(owner: string, token: int, ttl: real)
    | Release(owner: string, token: int)
  {
    /** The input check that acquire and renew make before touching the store. */
    predicate Valid() {
      Release? || (owner != "" && ttl > 0.0)
    }
  }

  datatype Result =
    | InvalidInput
    | Granted(lease: Lease, acquired: bool)
    | OwnedByOther(lease: Lease)
    | Contended(found: Record)
    | Extended(lease: Lease)
    | NotExtended
    | Freed(ok: bool)

  // ---------------------------------------------------------------------------------
  // The lock-based store: one call is one atomic step.
  // ---------------------------------------------------------------------------------

  datatype Mem = Mem(lease: Record, generation: int)

  /**
    What one call does to a memory store, given the reading used by the activity check, the
    reading used to stamp the written lease, and the token a fresh acquisition takes.
   */
  function MemStepWith(m: Mem, op: Op, checked: Time, stamped: Time, drawn: int): (Mem, Result) {
    if !op.Valid() then (m, InvalidInput)
    else match op
      case Acquire(owner, ttl, metadata) =>
        if IsActive(m.lease, checked) then
          if m.lease.value.owner != owner then (m, OwnedByOther(m.lease.value))
          else
            var renewed := RenewedLease(m.lease.value, ttl, stamped);
            (m.(lease := Some(renewed)), Granted(renewed, false))
        else
          var lease := NewLease(owner, drawn, ttl, metadata, stamped);
          (Mem(Some(lease), drawn), Granted(lease, true))
      case Renew(owner, token, ttl) =>
        if Matches(m.lease, owner, token) && IsActive(m.lease, checked) then
          var renewed := RenewedLease(m.lease.value, ttl, stamped);
          (m.(lease := Some(renewed)), Extended(renewed))
        else (m, NotExtended)
      case Release(owner, token) =>
        if Matches(m.lease, owner, token) then
          (m.(lease := Some(ReleasedLease(m.lease.value, stamped))), Freed(true))
        else (m, Freed(false))
  }

  /** The memory store itself draws the next generation. */
  function MemStep(m: Mem, op: Op, checked: Time, stamped: Time): (Mem, Result) {
    MemStepWith(m, op, checked, stamped, m.generation + 1)
  }

  /** The lock-based store; `checked` and `stamped` are the two clock readings of a call. */
  class MemoryFabricRuntimeStateStore {
    var lease: Record
    var generation: int

    constructor ()
      ensures lease == None && generation == 0
    {
      lease, generation := None, 0;
    }

    method AcquireLease(owner: string, ttl: real, metadata: map<string, string>, checked: Time, stamped: Time)
      returns (r: Result)
      modifies this
      ensures (Mem(lease, generation), r)
           == MemStep(old(Mem(lease, generation)), Acquire(owner, ttl, metadata), checked, stamped)
    {
      if owner == "" || ttl <= 0.0 {
        return InvalidInput;
      }
      var current := lease;
      if IsActive(current, checked) {
        if current.value.owner != owner {
          return OwnedByOther(current.value);
        }
        var renewed := RenewedLease(current.value, ttl, stamped);
        lease := Some(renewed);
        return Granted(renewed, false);
      }
      generation := generation + 1;
      var granted := NewLease(owner, generation, ttl, metadata, stamped);
      lease := Some(granted);
      return Granted(granted, true);
    }

    method RenewLease(owner: string, token: int, ttl: real, checked: Time, stamped: Time) returns (r: Result)
      modifies this
      ensures (Mem(lease, generation), r)
           == MemStep(old(Mem(lease, generation)), Renew(owner, token, ttl), checked, stamped)
    {
      if owner == "" || ttl <= 0.0 {
        return InvalidInput;
      }
      if !Matches(lease, owner, token) {
        return NotExtended;
      }
      if !IsActive(lease, checked) {
        return NotExtended;
      }
      var renewed := RenewedLease(lease.value, ttl, stamped);
      lease := Some(renewed);
      return Extended(renewed);
    }

    method ReleaseLease(owner: string, token: int, stamped: Time) returns (r: Result)
      modifies this
      ensures (Mem(lease, generation), r)
           == MemStep(old(Mem(lease, generation)), Release(owner, token), stamped, stamped)
    {
      if !Matches(lease, owner, token) {
        return Freed(false);
      }
      lease := Some(ReleasedLease(lease.value, stamped));
      return Freed(true);
    }
  }

  // ---------------------------------------------------------------------------------
  // The compare-and-swap store: a call is a small program whose every access to the
  // shared store or the clock is a separate step.
  // ---------------------------------------------------------------------------------

  const ATTEMPTS: nat := 8

  /** Where a call is; each constructor but the last names the access it is about to make. */
  datatype Pc =
    | ReadRecord(attempt: nat)
    | CheckClock(attempt: nat, seen: Lease)
    | DrawToken(attempt: nat, raw: Record, checked: Option<Time>)
    | StampNew(attempt: nat, raw: Record, checked: Option<Time>, token: int)
    | StampRenewed(attempt: nat, seen: Lease, reading: Time)
    | StampReleased(attempt: nat, seen: Lease)
    | Swap(attempt: nat, raw: Record, lease: Lease, checked: Option<Time>, stamped: Time, acquired: bool)
    | Reload
    | Done(result: Result, contended: bool)

  /** The answer to one access. */
  datatype Reply = GotRecord(record: Record) | Clock(now: Time) | Counter(value: int) | Swapped(ok: bool)

  function Begin(op: Op): Pc {
    if op.Valid() then ReadRecord(0) else Done(InvalidInput, false)
  }

  function AfterLostSwap(op: Op, attempt: nat): Pc {
    if attempt + 1 < ATTEMPTS then ReadRecord(attempt + 1)
    else match op
      case Acquire(_, _, _) => Reload
      case Renew(_, _, _) => Done(NotExtended, true)
      case Release(_, _) => Done(Freed(false), true)
  }

  function AfterRead(op: Op, attempt: nat, raw: Record): Pc {
    match op
    case Acquire(_, _, _) =>
      if raw.Some? && raw.value.releasedAt.None? then CheckClock(attempt, raw.value)
      else DrawToken(attempt, raw, None)
    case Renew(owner, token, _) =>
      if !Matches(raw, owner, token) || raw.value.releasedAt.Some? then Done(NotExtended, false)
      else CheckClock(attempt, raw.value)
    case Release(owner, token) =>
      if !Matches(raw, owner, token) then Done(Freed(false), false)
      else StampReleased(attempt, raw.value)
  }

  function AfterCheck(op: Op, attempt: nat, seen: Lease, now: Time): Pc {
    if IsActive(Some(seen), now) then
      if op.Acquire? && seen.owner != op.owner then Done(OwnedByOther(seen), false)
      else StampRenewed(attempt, seen, now)
    else if op.Acquire? then DrawToken(attempt, Some(seen), Some(now))
    else Done(NotExtended, false)
  }

  function SwapResult(op: Op, lease: Lease, acquired: bool): Result {
    match op
    case Acquire(_, _, _) => Granted(lease, acquired)
    case Renew(_, _, _) => Extended(lease)
    case Release(_, _) => Freed(true)
  }

  /** The program: how a call goes on once its pending access is answered. */
  function Next(op: Op, pc: Pc, reply: Reply): Pc {
    match (pc, reply)
    case (ReadRecord(k), GotRecord(raw)) => AfterRead(op, k, raw)
    case (CheckClock(k, seen), Clock(now)) => AfterCheck(op, k, seen, now)
    case (DrawToken(k, raw, checked), Counter(value)) => StampNew(k, raw, checked, value)
    case (StampNew(k, raw, checked, token), Clock(now)) =>
      if op.Acquire? then Swap(k, raw, NewLease(op.owner, token, op.ttl, op.metadata, now), checked, now, true) else pc
    case (StampRenewed(k, seen, reading), Clock(now)) =>
      if op.Release? then pc
      else Swap(k, Some(seen), RenewedLease(seen, op.ttl, now), Some(reading), now, false)
    case (StampReleased(k, seen), Clock(now)) => Swap(k, Some(seen), ReleasedLease(seen, now), None, now, false)
    case (Swap(k, _, lease, _, _, acquired), Swapped(ok)) =>
      if ok then Done(SwapResult(op, lease, acquired), false) else AfterLostSwap(op, k)
    case (Reload, GotRecord(raw)) => Done(Contended(raw), true)
    case _ => pc
  }

  /** What the other clients of a shared store may do between two accesses of this one. */
  datatype Move = Put(record: Record) | Bump(count: nat) | Wait(span: real)

  /**
    The shared store as one client meets it: before each of its accesses an arbitrary batch of
    foreign moves takes effect. The ghost fields `op` and `pc` shadow the client: every access
    must be the one that `pc` names, with the arguments it names, and advances `pc` by the
    program `Next` on the answer that was actually given.
   */
  class SharedStore {
    var record: Record
    var generation: int
    var clock: Time
    var schedule: seq<seq<Move>>
    ghost var op: Op
    ghost var pc: Pc

    ghost method Call(op: Op)
      modifies this
      ensures this.op == op && pc == Begin(op)
      ensures unchanged(`record, `generation, `clock, `schedule)
    {
      this.op, pc := op, Begin(op);
    }

    method Interfere()
      modifies this
      ensures op == old(op) && pc == old(pc)
    {
      if schedule != [] {
        var moves := schedule[0];
        schedule := schedule[1..];
        for i := 0 to |moves|
          invariant op == old(op) && pc == old(pc)
        {
          match moves[i]
          case Put(r) => record := r;
          case Bump(n) => generation := generation + n;
          case Wait(d) => clock := clock + if d < 0.0 then 0.0 else d;
        }
      }
    }

    method Get() returns (raw: Record)
      requires pc.ReadRecord? || pc.Reload?
      modifies this
      ensures raw == record
      ensures op == old(op) && pc == Next(op, old(pc), GotRecord(raw))
    {
      Interfere();
      raw := record;
      pc := Next(op, pc, GotRecord(raw));
    }

    method Incr() returns (value: int)
      requires pc.DrawToken?
      modifies this
      ensures value == generation
      ensures op == old(op) && pc == Next(op, old(pc), Counter(value))
    {
      Interfere();
      generation := generation + 1;
      value := generation;
      pc := Next(op, pc, Counter(value));
    }

    method Cas(expected: Record, lease: Lease) returns (ok: bool)
      requires pc.Swap? && pc.raw == expected && pc.lease == lease
      modifies this
      ensures if ok then record == Some(lease) else record != expected
      ensures op == old(op) && pc == Next(op, old(pc), Swapped(ok))
    {
      Interfere();
      ok := record == expected;
      if ok {
        record := Some(lease);
      }
      pc := Next(op, pc, Swapped(ok));
    }

    method Now() returns (now: Time)
      requires pc.CheckClock? || pc.StampNew? || pc.StampRenewed? || pc.StampReleased?
      modifies this
      ensures now == clock
      ensures op == old(op) && pc == Next(op, old(pc), Clock(now))
    {
      Interfere();
      now := clock;
      pc := Next(op, pc, Clock(now));
    }
  }

  /**
    The compare-and-swap store. Each method is the source's retry loop; its contract says that,
    whatever the other clients do, the call takes the program above from its beginning to its
    end, access by access, with the result returned. The whole-system properties are proved about that program.
   */
  class PolicyFabricRuntimeStateStore {
    const store: SharedStore

    constructor (store: SharedStore)
      ensures this.store == store
    {
      this.store := store;
    }

    method AcquireLease(owner: string, ttl: real, metadata: map<string, string>) returns (r: Result)
      modifies store
      ensures store.op == Acquire(owner, ttl, metadata)
      ensures store.pc == Done(r, r.Contended?)
    {
      store.Call(Acquire(owner, ttl, metadata));
      if owner == "" || ttl <= 0.0 {
        return InvalidInput;
      }
      for k := 0 to ATTEMPTS
        invariant store.op == Acquire(owner, ttl, metadata)
        invariant store.pc == if k < ATTEMPTS then ReadRecord(k) else Reload
      {
        var raw := store.Get();
        var active := false;
        if raw.Some? && raw.value.releasedAt.None? {
          var checked := store.Now();
          active := checked < raw.value.expiresAt;
        }
        if active {
          if raw.value.owner != owner {
            return OwnedByOther(raw.value);
          }
          var now := store.Now();
          var lease := RenewedLease(raw.value, ttl, now);
          var swapped := store.Cas(raw, lease);
          if swapped {
            return Granted(lease, false);
          }
        } else {
          var taken := TryTake(raw, owner, ttl, metadata);
          if taken.Some? {
            return Granted(taken.value, true);
          }
        }
      }
      var found := store.Get();
      r := Contended(found);
    }

    /** The second half of an acquire attempt: draw a token, stamp a new lease, try to store it. */
    method TryTake(raw: Record, owner: string, ttl: real, metadata: map<string, string>) returns (r: Option<Lease>)
      requires store.op == Acquire(owner, ttl, metadata)
      requires store.pc.DrawToken? && store.pc.raw == raw
      modifies store
      ensures store.op == old(store.op)
      ensures store.pc == if r.Some? then Done(Granted(r.value, true), false)
                          else AfterLostSwap(store.op, old(store.pc.attempt))
    {
      var token := store.Incr();
      var now := store.Now();
      var lease := NewLease(owner, token, ttl, metadata, now);
      var swapped := store.Cas(raw, lease);
      r := if swapped then Some(lease) else None;
    }

    method RenewLease(owner: string, token: int, ttl: real) returns (r: Result)
      modifies store
      ensures store.op == Renew(owner, token, ttl)
      ensures store.pc.Done? && store.pc.result == r
    {
      store.Call(Renew(owner, token, ttl));
      if owner == "" || ttl <= 0.0 {
        return InvalidInput;
      }
      for k := 0 to ATTEMPTS
        invariant store.op == Renew(owner, token, ttl)
        invariant store.pc == if k < ATTEMPTS then ReadRecord(k) else Done(NotExtended, true)
      {
        var raw := store.Get();
        if !Matches(raw, owner, token) || raw.value.releasedAt.Some? {
          return NotExtended;
        }
        var checked := store.Now();
        if !IsActive(raw, checked) {
          return NotExtended;
        }
        var now := store.Now();
        var lease := RenewedLease(raw.value, ttl, now);
        var swapped := store.Cas(raw, lease);
        if swapped {
          return Extended(lease);
        }
      }
      r := NotExtended;
    }

    method ReleaseLease(owner: string, token: int) returns (r: Result)
      modifies store
      ensures store.op == Release(owner, token)
      ensures store.pc.Done? && store.pc.result == r
    {
      store.Call(Release(owner, token));
      for k := 0 to ATTEMPTS
        invariant store.op == Release(owner, token)
        invariant store.pc == if k < ATTEMPTS then ReadRecord(k) else Done(Freed(false), true)
      {
        var raw := store.Get();
        if !Matches(raw, owner, token) {
          return Freed(false);
        }
        var now := store.Now();
        var lease := ReleasedLease(raw.value, now);
        var swapped := store.Cas(raw, lease);
        if swapped {
          return Freed(true);
        }
      }
      r := Freed(false);
    }
  }
}
