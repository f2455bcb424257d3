/**
  Every interleaving of any number of acquire, renew and release calls on one shared
  compare-and-swap store under one non-decreasing clock: fencing and mutual exclusion.
 */
module FabricRuns {
  import opened Options
  import opened FabricLease

  /** A call in flight or finished; `beganStep` and `beganAt` say when it started. */
  datatype Call = Call(op: Op, pc: Pc, beganStep: nat, beganAt: Time)

  /** A successful swap, kept as history: what was written, when, and whether it took a new token. */
  datatype Install = Install(lease: Lease, at: Time, acquired: bool)

  datatype System = System(
    record: Record,
    generation: int,
    now: Time,
    steps: nat,
    calls: map<nat, Call>,
    installs: seq<Install>)

  datatype Action = Tick(span: real) | Start(id: nat, op: Op) | Act(id: nat)

  function Init(now: Time): System {
    System(None, 0, now, 0, map[], [])
  }

  predicate Enabled(s: System, action: Action) {
    match action
    case Tick(d) => d >= 0.0
    case Start(id, _) => id !in s.calls
    case Act(id) => id in s.calls && !s.calls[id].pc.Done?
  }

  /** The answer the shared store or the clock gives to the access a call is about to make. */
  function ReplyTo(s: System, pc: Pc): Reply {
    match pc
    case ReadRecord(_) => GotRecord(s.record)
    case Reload => GotRecord(s.record)
    case DrawToken(_, _, _) => Counter(s.generation + 1)
    case Swap(_, raw, _, _, _, _) => Swapped(s.record == raw)
    case _ => Clock(s.now)
  }

  function Step(s: System, action: Action): System
    requires Enabled(s, action)
  {
    match action
    case Tick(d) => s.(now := s.now + d, steps := s.steps + 1)
    case Start(id, op) => s.(calls := s.calls[id := Call(op, Begin(op), s.steps, s.now)], steps := s.steps + 1)
    case Act(id) =>
      var call := s.calls[id];
      var reply := ReplyTo(s, call.pc);
      var moved := s.(calls := s.calls[id := call.(pc := Next(call.op, call.pc, reply))], steps := s.steps + 1);
      if call.pc.DrawToken? then moved.(generation := s.generation + 1)
      else if call.pc.Swap? && s.record == call.pc.raw then
        moved.(record := Some(call.pc.lease),
               installs := s.installs + [Install(call.pc.lease, s.now, call.pc.acquired)])
      else moved
  }

  predicate ValidRun(start: Time, actions: seq<Action>)
    decreases |actions|, 0
  {
    actions == [] ||
    var front := actions[..|actions| - 1];
    ValidRun(start, front) && Enabled(After(start, front), actions[|actions| - 1])
  }

  function After(start: Time, actions: seq<Action>): System
    requires ValidRun(start, actions)
    decreases |actions|, 1
  {
    if actions == [] then Init(start)
    else Step(After(start, actions[..|actions| - 1]), actions[|actions| - 1])
  }

  // ---------------------------------------------------------------------------------
  // What every step keeps
  // ---------------------------------------------------------------------------------

  /** How one successful swap follows another. */
  ghost predicate Handover(a: Install, b: Install) {
    && a.at <= b.at
    && if b.acquired then a.lease.token < b.lease.token && !IsActive(Some(a.lease), b.at)
       else a.lease.token == b.lease.token && a.lease.owner == b.lease.owner
            && (a.lease.releasedAt.Some? ==> b.lease.releasedAt.Some?)
  }

  ghost predicate FollowsAt(installs: seq<Install>, i: int)
    requires 0 < i < |installs|
  {
    Handover(installs[i - 1], installs[i])
  }

  ghost predicate History(s: System) {
    && 0 <= s.generation
    && (if s.installs == [] then s.record == None
        else s.installs[0].acquired && s.record == Some(s.installs[|s.installs| - 1].lease))
    && (forall i {:trigger s.installs[i]} :: 0 <= i < |s.installs| ==>
          1 <= s.installs[i].lease.token <= s.generation && s.installs[i].at <= s.now)
    && (forall i :: 0 < i < |s.installs| ==> FollowsAt(s.installs, i))
  }

  /** The token a call has drawn and not yet stored. */
  function Pending(pc: Pc): Option<int> {
    match pc
    case StampNew(_, _, _, token) => Some(token)
    case Swap(_, _, lease, _, _, acquired) => if acquired then Some(lease.token) else None
    case _ => None
  }

  /** A record that a newly drawn token may replace: it is inactive now, hence from now on. */
  ghost predicate Replaceable(raw: Record, generation: int, now: Time) {
    !IsActive(raw, now) && (raw.Some? ==> raw.value.token <= generation)
  }

  /** What a call knows about the record it has read. */
  ghost predicate PcInv(pc: Pc, generation: int, now: Time) {
    match pc
    case CheckClock(_, seen) => seen.token <= generation && seen.releasedAt.None?
    case DrawToken(_, raw, _) => Replaceable(raw, generation, now)
    case StampNew(_, raw, _, token) =>
      Replaceable(raw, generation, now) && 1 <= token <= generation && (raw.Some? ==> raw.value.token < token)
    case StampRenewed(_, seen, _) => seen.releasedAt.None?
    case Swap(_, raw, lease, _, _, acquired) =>
      if acquired then
        Replaceable(raw, generation, now) && 1 <= lease.token <= generation
        && (raw.Some? ==> raw.value.token < lease.token)
      else
        raw.Some? && raw.value.token == lease.token && raw.value.owner == lease.owner
        && (raw.value.releasedAt.Some? ==> lease.releasedAt.Some?)
    case _ => true
  }

  ghost predicate PendingFresh(s: System) {
    && (forall a, b :: a in s.calls && b in s.calls && a != b && Pending(s.calls[a].pc).Some?
          ==> Pending(s.calls[a].pc) != Pending(s.calls[b].pc))
    && (forall a, i :: a in s.calls && 0 <= i < |s.installs| && Pending(s.calls[a].pc).Some?
          ==> s.installs[i].lease.token != Pending(s.calls[a].pc).value)
    && (forall a :: a in s.calls && Pending(s.calls[a].pc).Some? ==> Pending(s.calls[a].pc).value <= s.generation)
  }

  ghost predicate Inv(s: System) {
    && History(s)
    && (forall id :: id in s.calls ==> PcInv(s.calls[id].pc, s.generation, s.now))
    && PendingFresh(s)
  }

  lemma PcInvLater(pc: Pc, g: int, now: Time, g': int, now': Time)
    requires PcInv(pc, g, now) && g <= g' && now <= now'
    ensures PcInv(pc, g', now')
  {
  }

  lemma AnswerKeepsPcInv(s: System, op: Op, pc: Pc)
    requires History(s) && PcInv(pc, s.generation, s.now)
    ensures PcInv(Next(op, pc, ReplyTo(s, pc)), s.generation + if pc.DrawToken? then 1 else 0, s.now)
  {
    if s.installs != [] {
      var last := s.installs[|s.installs| - 1];
    }
    match pc
    case ReadRecord(_) =>
    case CheckClock(_, _) =>
    case DrawToken(_, _, _) =>
    case StampNew(_, _, _, _) =>
    case _ =>
  }

  lemma StepKeepsPcInv(s: System, action: Action, id: nat)
    requires Inv(s) && Enabled(s, action) && id in Step(s, action).calls
    ensures PcInv(Step(s, action).calls[id].pc, Step(s, action).generation, Step(s, action).now)
  {
    var t := Step(s, action);
    if action.Act? && action.id == id {
      AnswerKeepsPcInv(s, s.calls[id].op, s.calls[id].pc);
    } else if id in s.calls {
      PcInvLater(s.calls[id].pc, s.generation, s.now, t.generation, t.now);
    }
  }

  lemma ActKeepsHistory(s: System, id: nat)
    requires Inv(s) && Enabled(s, Act(id))
    ensures History(Step(s, Act(id)))
  {
    var t := Step(s, Act(id));
    var call := s.calls[id];
    assert PcInv(call.pc, s.generation, s.now);
    if call.pc.Swap? && s.record == call.pc.raw {
      var n := |s.installs|;
      assert t.installs[n] == Install(call.pc.lease, s.now, call.pc.acquired);
      if n > 0 {
        assert Handover(s.installs[n - 1], t.installs[n]);
      } else {
        assert call.pc.acquired;
      }
      assert 1 <= t.installs[n].lease.token by {
        if !call.pc.acquired {
          var last := s.installs[n - 1];
        }
      }
      forall i | 0 < i < |t.installs|
        ensures FollowsAt(t.installs, i)
      {
        if i < n {
          assert FollowsAt(s.installs, i);
        }
      }
    }
  }

  lemma ActKeepsPending(s: System, id: nat)
    requires Inv(s) && Enabled(s, Act(id))
    ensures PendingFresh(Step(s, Act(id)))
  {
    var t := Step(s, Act(id));
    var pc, pc' := s.calls[id].pc, t.calls[id].pc;
    assert Pending(pc').Some? ==> pc.DrawToken? || Pending(pc') == Pending(pc);
    forall a, i | a in t.calls && 0 <= i < |t.installs| && Pending(t.calls[a].pc).Some?
      ensures t.installs[i].lease.token != Pending(t.calls[a].pc).value
    {
      if i < |s.installs| {
        assert t.installs[i] == s.installs[i];
      } else if !pc.acquired {
        assert PcInv(pc, s.generation, s.now);
        assert s.installs[|s.installs| - 1].lease.token == t.installs[i].lease.token;
      }
    }
  }

  lemma StepKeepsInv(s: System, action: Action)
    requires Inv(s) && Enabled(s, action)
    ensures Inv(Step(s, action))
  {
    var t := Step(s, action);
    forall id | id in t.calls
      ensures PcInv(t.calls[id].pc, t.generation, t.now)
    {
      StepKeepsPcInv(s, action, id);
    }
    if action.Act? {
      ActKeepsHistory(s, action.id);
      ActKeepsPending(s, action.id);
    }
  }

  lemma {:induction false} RunInv(start: Time, actions: seq<Action>)
    requires ValidRun(start, actions)
    ensures Inv(After(start, actions))
  {
    if actions != [] {
      RunInv(start, actions[..|actions| - 1]);
      StepKeepsInv(After(start, actions[..|actions| - 1]), actions[|actions| - 1]);
    }
  }

  // ---------------------------------------------------------------------------------
  // Fencing
  // ---------------------------------------------------------------------------------

  /** Two successful swaps, however far apart. */
  lemma {:induction false} Chain(s: System, i: nat, j: nat)
    requires History(s) && i < j < |s.installs|
    ensures s.installs[i].at <= s.installs[j].at
    ensures s.installs[i].lease.token <= s.installs[j].lease.token
    ensures s.installs[j].acquired ==> s.installs[i].lease.token < s.installs[j].lease.token
    ensures s.installs[i].lease.token == s.installs[j].lease.token ==>
              s.installs[i].lease.owner == s.installs[j].lease.owner
              && (s.installs[i].lease.releasedAt.Some? ==> s.installs[j].lease.releasedAt.Some?)
    decreases j - i
  {
    assert FollowsAt(s.installs, j);
    if i < j - 1 {
      Chain(s, i, j - 1);
    }
  }

  /**
    Fencing over every run: stored tokens never decrease, each acquisition takes a token larger
    than every token stored before it (so none is handed out twice), and none passes the counter.
   */
  lemma FencingTokens(start: Time, actions: seq<Action>, i: nat, j: nat)
    requires ValidRun(start, actions) && i < j < |After(start, actions).installs|
    ensures var s := After(start, actions);
      && 1 <= s.installs[i].lease.token <= s.installs[j].lease.token <= s.generation
      && (s.installs[j].acquired ==> s.installs[i].lease.token < s.installs[j].lease.token)
      && (!s.installs[j].acquired ==> Matches(Some(s.installs[j - 1].lease), s.installs[j].lease.owner, s.installs[j].lease.token))
  {
    RunInv(start, actions);
    var s := After(start, actions);
    Chain(s, i, j);
    assert FollowsAt(s.installs, j);
  }

  lemma {:induction false} LongerRun(start: Time, actions: seq<Action>, more: seq<Action>)
    requires ValidRun(start, actions + more)
    ensures ValidRun(start, actions)
    ensures After(start, actions).installs <= After(start, actions + more).installs
    ensures After(start, actions).now <= After(start, actions + more).now
    ensures After(start, actions).generation <= After(start, actions + more).generation
    decreases |more|
  {
    if more == [] {
      assert actions + more == actions;
    } else {
      var front := more[..|more| - 1];
      assert (actions + more)[..|actions + more| - 1] == actions + front;
      LongerRun(start, actions, front);
    }
  }

  /** The pair was stored once, and the stored record is now another acquisition or a release. */
  ghost predicate Retired(s: System, owner: string, token: int) {
    && (exists i :: 0 <= i < |s.installs| && Matches(Some(s.installs[i].lease), owner, token))
    && s.record.Some?
    && (s.record.value.token != token || s.record.value.releasedAt.Some?)
  }

  /**
    Once a (owner, token) pair has been taken over or released, no continuation of the run,
    with any stale calls still in flight, makes it the active lease again.
   */
  lemma RetiredStaysRetired(start: Time, actions: seq<Action>, more: seq<Action>, owner: string, token: int)
    requires ValidRun(start, actions + more) && ValidRun(start, actions)
    requires Retired(After(start, actions), owner, token)
    ensures Retired(After(start, actions + more), owner, token)
    ensures !(Matches(After(start, actions + more).record, owner, token)
              && IsActive(After(start, actions + more).record, After(start, actions + more).now))
  {
    LongerRun(start, actions, more);
    RunInv(start, actions);
    RunInv(start, actions + more);
    RetiredLater(After(start, actions), After(start, actions + more), owner, token);
  }

  lemma RetiredLater(s: System, t: System, owner: string, token: int)
    requires History(s) && History(t) && s.installs <= t.installs && Retired(s, owner, token)
    ensures Retired(t, owner, token)
  {
    var i :| 0 <= i < |s.installs| && Matches(Some(s.installs[i].lease), owner, token);
    var m, n := |s.installs| - 1, |t.installs| - 1;
    assert t.installs[i] == s.installs[i] && t.installs[m] == s.installs[m];
    if i < m { Chain(s, i, m); }
    if m < n { Chain(t, m, n); }
  }

  // ---------------------------------------------------------------------------------
  // Mutual exclusion
  // ---------------------------------------------------------------------------------

  /** The last record stored under a token says who holds it and until when. */
  ghost predicate LatestOfToken(s: System, i: nat)
    requires i < |s.installs|
  {
    forall j :: i < j < |s.installs| ==> s.installs[j].lease.token != s.installs[i].lease.token
  }

  ghost predicate Holds(s: System, owner: string, token: int) {
    exists i: nat :: i < |s.installs| && LatestOfToken(s, i)
      && Matches(Some(s.installs[i].lease), owner, token) && IsActive(Some(s.installs[i].lease), s.now)
  }

  /** A token that is not the stored one has run out or was released, as its last record says. */
  lemma OvertakenIsInactive(s: System, i: nat)
    requires Inv(s) && i < |s.installs| && LatestOfToken(s, i) && i < |s.installs| - 1
    ensures !IsActive(Some(s.installs[i].lease), s.installs[i + 1].at)
    ensures !IsActive(Some(s.installs[i].lease), s.now)
  {
    assert FollowsAt(s.installs, i + 1);
  }

  lemma HeldIsStored(s: System, owner: string, token: int)
    requires Inv(s) && Holds(s, owner, token)
    ensures Matches(s.record, owner, token)
  {
    var i: nat :| i < |s.installs| && LatestOfToken(s, i)
      && Matches(Some(s.installs[i].lease), owner, token) && IsActive(Some(s.installs[i].lease), s.now);
    if i < |s.installs| - 1 {
      OvertakenIsInactive(s, i);
    }
  }

  /** The owner changed with swap i, over a record that was inactive at that instant. */
  ghost predicate FairTakeover(s: System, i: int)
    requires 0 < i < |s.installs|
  {
    s.installs[i - 1].lease.owner != s.installs[i].lease.owner ==> !IsActive(Some(s.installs[i - 1].lease), s.installs[i].at)
  }

  /**
    Mutual exclusion: in every interleaving, at every instant, at most one pair holds an
    unexpired, unreleased lease; and the owner changes only over a record that is expired or
    released at the instant of the swap.
   */
  lemma MutualExclusion(start: Time, actions: seq<Action>)
    requires ValidRun(start, actions)
    ensures var s := After(start, actions);
      && (forall o1, t1, o2, t2 :: Holds(s, o1, t1) && Holds(s, o2, t2) ==> o1 == o2 && t1 == t2)
      && (forall i :: 0 < i < |s.installs| ==> FairTakeover(s, i))
  {
    RunInv(start, actions);
    var s := After(start, actions);
    forall o, t | Holds(s, o, t)
      ensures Matches(s.record, o, t)
    {
      HeldIsStored(s, o, t);
    }
    forall i | 0 < i < |s.installs|
      ensures FairTakeover(s, i)
    {
      assert FollowsAt(s.installs, i);
    }
  }

  lemma OneMore(start: Time, actions: seq<Action>, action: Action) returns (longer: seq<Action>)
    requires ValidRun(start, actions) && Enabled(After(start, actions), action)
    ensures longer == actions + [action]
    ensures ValidRun(start, longer) && After(start, longer) == Step(After(start, actions), action)
  {
    longer := actions + [action];
    assert longer[..|actions|] == actions;
  }

  /** What a call leaves behind when no other call moves between its first step and its last. */
  ghost predicate RanAlone(s: System, t: System, id: nat, op: Op) {
    && id in t.calls && t.calls[id].pc.Done? && t.now == s.now && |t.installs| <= |s.installs| + 1
    && (Mem(t.record, t.generation), t.calls[id].pc.result) == MemStep(Mem(s.record, s.generation), op, s.now, s.now)
    && (forall other :: other in s.calls ==> other in t.calls && t.calls[other] == s.calls[other])
    && (forall other :: other in t.calls ==> other == id || other in s.calls)
  }

  /**
    A call that runs alone does exactly what the memory store does: it never retries, and it
    reads the generation the memory store would.
   */
  lemma SoloCall(start: Time, actions: seq<Action>, id: nat, op: Op) returns (longer: seq<Action>)
    requires ValidRun(start, actions) && id !in After(start, actions).calls
    ensures ValidRun(start, longer) && actions <= longer
    ensures RanAlone(After(start, actions), After(start, longer), id, op)
  {
    longer := OneMore(start, actions, Start(id, op));
    if op.Valid() {
      longer := OneMore(start, longer, Act(id));
      longer := SoloRead(start, actions, id, op, longer);
    }
  }

  /** The rest of the call once it has read the record. */
  lemma SoloRead(start: Time, actions: seq<Action>, id: nat, op: Op, halfway: seq<Action>) returns (longer: seq<Action>)
    requires ValidRun(start, actions) && ValidRun(start, halfway)
    requires id !in After(start, actions).calls && op.Valid()
    requires var s := After(start, actions);
      After(start, halfway) == s.(calls := s.calls[id := Call(op, AfterRead(op, 0, s.record), s.steps, s.now)], steps := s.steps + 2)
    ensures ValidRun(start, longer) && halfway <= longer
    ensures RanAlone(After(start, actions), After(start, longer), id, op)
  {
    longer := halfway;
    match After(start, halfway).calls[id].pc
    case Done(_, _) =>
    case StampReleased(_, _) => longer := SoloSwap(start, halfway, id);
    case CheckClock(_, _) => longer := SoloChecked(start, actions, id, op, halfway);
    case DrawToken(_, _, _) => longer := SoloTake(start, halfway, id);
  }

  lemma SoloChecked(start: Time, actions: seq<Action>, id: nat, op: Op, halfway: seq<Action>) returns (longer: seq<Action>)
    requires ValidRun(start, actions) && ValidRun(start, halfway)
    requires id !in After(start, actions).calls && op.Valid() && !op.Release?
    requires var s := After(start, actions);
      s.record.Some? && s.record.value.releasedAt.None? && (op.Renew? ==> Matches(s.record, op.owner, op.token))
      && After(start, halfway) == s.(calls := s.calls[id := Call(op, CheckClock(0, s.record.value), s.steps, s.now)],
                                     steps := s.steps + 2)
    ensures ValidRun(start, longer) && halfway <= longer
    ensures RanAlone(After(start, actions), After(start, longer), id, op)
  {
    longer := OneMore(start, halfway, Act(id));
    match After(start, longer).calls[id].pc
    case Done(_, _) =>
    case StampRenewed(_, _, _) => longer := SoloSwap(start, longer, id);
    case DrawToken(_, _, _) => longer := SoloTake(start, longer, id);
  }

  /** Stamp and swap an owned record with nothing in between. */
  lemma SoloSwap(start: Time, actions: seq<Action>, id: nat) returns (longer: seq<Action>)
    requires ValidRun(start, actions) && id in After(start, actions).calls
    requires var c := After(start, actions).calls[id];
      (c.pc.StampReleased? || (c.pc.StampRenewed? && !c.op.Release?)) && Some(c.pc.seen) == After(start, actions).record
    ensures ValidRun(start, longer) && actions <= longer
    ensures var s, t := After(start, actions), After(start, longer);
      var (op, seen) := (s.calls[id].op, s.calls[id].pc.seen);
      var lease := if s.calls[id].pc.StampReleased? then ReleasedLease(seen, s.now) else RenewedLease(seen, op.ttl, s.now);
      t.now == s.now && t.record == Some(lease) && t.generation == s.generation && |t.installs| <= |s.installs| + 1
      && t.calls == s.calls[id := s.calls[id].(pc := Done(SwapResult(op, lease, false), false))]
  {
    longer := OneMore(start, actions, Act(id));
    longer := OneMore(start, longer, Act(id));
  }

  /** Draw, stamp and swap with nothing in between. */
  lemma SoloTake(start: Time, actions: seq<Action>, id: nat) returns (longer: seq<Action>)
    requires ValidRun(start, actions) && id in After(start, actions).calls
    requires var c := After(start, actions).calls[id];
      c.op.Acquire? && c.pc.DrawToken? && c.pc.raw == After(start, actions).record
    ensures ValidRun(start, longer) && actions <= longer
    ensures var s, t := After(start, actions), After(start, longer);
      var op := s.calls[id].op;
      var lease := NewLease(op.owner, s.generation + 1, op.ttl, op.metadata, s.now);
      t.now == s.now && t.record == Some(lease) && t.generation == s.generation + 1 && |t.installs| <= |s.installs| + 1
      && t.calls == s.calls[id := s.calls[id].(pc := Done(Granted(lease, true), false))]
  {
    longer := OneMore(start, actions, Act(id));
    longer := OneMore(start, longer, Act(id));
    longer := OneMore(start, longer, Act(id));
  }
}
