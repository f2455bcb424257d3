/**
  Every interleaving of registry updates on one shared store: each run equals a serial order of
  the updates, and the contended error needs eight foreign writes during the call.
 */
module RegistryRuns {
  import opened Options
  import opened MemberNames
  import opened MemberRegistry

  /** `beganLog` and `readLog` are the lengths of the log when the call began and last read. */
  datatype Call = Call(op: Op, pc: Pc, beganLog: nat, readLog: nat)

  /** A successful write: whose, with which clock reading, with which outcome. */
  datatype Entry = Entry(id: nat, op: Op, now: Time, outcome: Outcome)

  datatype System = System(stored: Stored, now: Time, calls: map<nat, Call>, log: seq<Entry>)

  datatype Action = Tick(span: real) | Start(id: nat, op: Op) | Act(id: nat)

  function Init(initial: Stored, now: Time): System {
    System(initial, now, map[], [])
  }

  predicate Enabled(s: System, action: Action) {
    match action
    case Tick(d) => d >= 0.0
    case Start(id, _) => id !in s.calls
    case Act(id) => id in s.calls && !s.calls[id].pc.Done?
  }

  function ReplyTo(s: System, pc: Pc): Reply {
    match pc
    case ReadRecord(_) => GotRecord(s.stored)
    case Swap(_, raw, _) => Swapped(s.stored == raw)
    case _ => Clock(s.now)
  }

  function Step(s: System, action: Action): System
    requires Enabled(s, action)
  {
    match action
    case Tick(d) => s.(now := s.now + d)
    case Start(id, op) => s.(calls := s.calls[id := Call(op, Begin(op), |s.log|, |s.log|)])
    case Act(id) =>
      var call := s.calls[id];
      var pc' := Next(call.op, call.pc, ReplyTo(s, call.pc));
      var readLog := if call.pc.ReadRecord? then |s.log| else call.readLog;
      var moved := s.(calls := s.calls[id := call.(pc := pc', readLog := readLog)]);
      if call.pc.Swap? && s.stored == call.pc.raw then
        var (after, outcome) := Apply(call.op, Decode(call.pc.raw), call.pc.now);
        moved.(stored := Encode(after), log := s.log + [Entry(id, call.op, call.pc.now, outcome)])
      else moved
  }

  predicate ValidRun(initial: Stored, start: Time, actions: seq<Action>)
    decreases |actions|, 0
  {
    actions == [] ||
    var front := actions[..|actions| - 1];
    ValidRun(initial, start, front) && Enabled(After(initial, start, front), actions[|actions| - 1])
  }

  function After(initial: Stored, start: Time, actions: seq<Action>): System
    requires ValidRun(initial, start, actions)
    decreases |actions|, 1
  {
    if actions == [] then Init(initial, start)
    else Step(After(initial, start, actions[..|actions| - 1]), actions[|actions| - 1])
  }

  /** The registry after the first k writes of the log, executed one after the other. */
  function Serial(initial: Registry, log: seq<Entry>, k: nat): Registry
    requires k <= |log|
  {
    if k == 0 then initial else Apply(log[k - 1].op, Serial(initial, log, k - 1), log[k - 1].now).0
  }

  ghost predicate OutcomeAt(initial: Registry, log: seq<Entry>, i: int)
    requires 0 <= i < |log|
  {
    Apply(log[i].op, Serial(initial, log, i), log[i].now).1 == log[i].outcome && log[i].op.Valid()
  }

  lemma {:induction false} SamePrefix(initial: Registry, a: seq<Entry>, b: seq<Entry>, k: nat)
    requires k <= |a| && k <= |b| && forall i :: 0 <= i < k ==> a[i] == b[i]
    ensures Serial(initial, a, k) == Serial(initial, b, k)
  {
    if k > 0 { SamePrefix(initial, a, b, k - 1); }
  }

  // ---------------------------------------------------------------------------------
  // Serialisability
  // ---------------------------------------------------------------------------------

  /** The store holds what the log, executed serially, leaves; and the log's outcomes are serial ones. */
  ghost predicate Serialised(initial: Registry, s: System) {
    && WellStored(s.stored) && Normal(Decode(s.stored))
    && Decode(s.stored) == Serial(initial, s.log, |s.log|)
    && (forall i :: 0 <= i < |s.log| ==> OutcomeAt(initial, s.log, i))
  }

  /** An update that wrote is in the log once, with the outcome it returned, after all it began after. */
  ghost predicate Logged(s: System) {
    && (forall i :: 0 <= i < |s.log| ==> LoggedAt(s, i))
    && (forall i, j :: 0 <= i < j < |s.log| ==> s.log[i].id != s.log[j].id)
    && (forall id :: id in s.calls && Wrote(s.calls[id]) ==> Covers(s.log, id))
  }

  predicate Wrote(c: Call) {
    c.pc.Done? && !c.pc.outcome.BadInput? && !c.pc.outcome.Contended?
  }

  ghost predicate LoggedAt(s: System, i: int)
    requires 0 <= i < |s.log|
  {
    var e := s.log[i];
    e.id in s.calls && Wrote(s.calls[e.id]) && s.calls[e.id].op == e.op && s.calls[e.id].pc == Done(e.outcome)
    && s.calls[e.id].beganLog <= i
  }

  ghost predicate Covers(log: seq<Entry>, id: nat) {
    exists i :: 0 <= i < |log| && log[i].id == id
  }

  /** Attempts count foreign writes: a lost swap means the log grew since the read. */
  ghost predicate Counted(s: System, c: Call) {
    && c.beganLog <= c.readLog <= |s.log|
    && match c.pc
       case ReadRecord(k) => k < ATTEMPTS && c.beganLog + k <= |s.log|
       case Compute(k, raw) => k < ATTEMPTS && c.beganLog + k <= c.readLog && (|s.log| == c.readLog ==> s.stored == raw)
       case Swap(k, raw, _) =>
         c.op.Valid() && k < ATTEMPTS && c.beganLog + k <= c.readLog && (|s.log| == c.readLog ==> s.stored == raw)
       case Done(outcome) => outcome.Contended? ==> c.beganLog + ATTEMPTS <= |s.log|
  }

  ghost predicate Inv(initial: Registry, s: System) {
    Serialised(initial, s) && Logged(s) && forall id :: id in s.calls ==> Counted(s, s.calls[id])
  }

  lemma StepKeepsCounted(initial: Registry, s: System, action: Action, id: nat)
    requires Inv(initial, s) && Enabled(s, action) && id in Step(s, action).calls
    ensures Counted(Step(s, action), Step(s, action).calls[id])
  {
    if id in s.calls { assert Counted(s, s.calls[id]); }
  }

  lemma WriteKeepsSerialised(initial: Registry, s: System, id: nat)
    requires Inv(initial, s) && Enabled(s, Act(id)) && s.calls[id].pc.Swap? && s.stored == s.calls[id].pc.raw
    ensures Serialised(initial, Step(s, Act(id)))
  {
    var c, t := s.calls[id], Step(s, Act(id));
    assert Counted(s, c);
    var e := Entry(id, c.op, c.pc.now, Apply(c.op, Decode(s.stored), c.pc.now).1);
    assert t.log == s.log + [e];
    assert t.stored == Encode(Apply(c.op, Decode(s.stored), c.pc.now).0);
    ApplyTouchesOneMember(c.op, Decode(s.stored), c.pc.now);
    RoundTrip(Apply(c.op, Decode(s.stored), c.pc.now).0);
    SamePrefix(initial, s.log, t.log, |s.log|);
    OutcomesOneMore(initial, s.log, e);
  }

  lemma OutcomesOneMore(initial: Registry, log: seq<Entry>, e: Entry)
    requires forall i :: 0 <= i < |log| ==> OutcomeAt(initial, log, i)
    requires e.op.Valid() && Apply(e.op, Serial(initial, log, |log|), e.now).1 == e.outcome
    ensures forall i :: 0 <= i < |log| + 1 ==> OutcomeAt(initial, log + [e], i)
  {
    forall i | 0 <= i < |log| + 1
      ensures OutcomeAt(initial, log + [e], i)
    {
      SamePrefix(initial, log, log + [e], i);
      if i < |log| { assert OutcomeAt(initial, log, i); }
    }
  }

  lemma WriteKeepsLogged(initial: Registry, s: System, id: nat)
    requires Inv(initial, s) && Enabled(s, Act(id)) && s.calls[id].pc.Swap? && s.stored == s.calls[id].pc.raw
    ensures Logged(Step(s, Act(id)))
  {
    var c, t, n := s.calls[id], Step(s, Act(id)), |s.log|;
    assert Counted(s, c);
    forall i | 0 <= i < |t.log|
      ensures LoggedAt(t, i) && (i < n ==> t.log[i].id != id)
    {
      if i < n { assert LoggedAt(s, i); }
    }
    forall k | k in t.calls && Wrote(t.calls[k])
      ensures Covers(t.log, k)
    {
      if k == id {
        assert t.log[n].id == id;
      } else {
        var i :| 0 <= i < n && s.log[i].id == k;
        assert t.log[i].id == k;
      }
    }
  }

  lemma QuietKeepsLogged(initial: Registry, s: System, action: Action)
    requires Inv(initial, s) && Enabled(s, action) && Step(s, action).log == s.log
    ensures Logged(Step(s, action))
  {
    var t := Step(s, action);
    forall i | 0 <= i < |t.log|
      ensures LoggedAt(t, i)
    {
      assert LoggedAt(s, i);
    }
    forall k | k in t.calls && Wrote(t.calls[k])
      ensures Covers(t.log, k)
    {
      assert k in s.calls && Wrote(s.calls[k]);
    }
  }

  lemma StepKeepsInv(initial: Registry, s: System, action: Action)
    requires Inv(initial, s) && Enabled(s, action)
    ensures Inv(initial, Step(s, action))
  {
    forall id | id in Step(s, action).calls
      ensures Counted(Step(s, action), Step(s, action).calls[id])
    {
      StepKeepsCounted(initial, s, action, id);
    }
    if action.Act? && s.calls[action.id].pc.Swap? && s.stored == s.calls[action.id].pc.raw {
      WriteKeepsSerialised(initial, s, action.id);
      WriteKeepsLogged(initial, s, action.id);
    } else {
      QuietKeepsLogged(initial, s, action);
    }
  }

  lemma {:induction false} RunInv(initial: Stored, start: Time, actions: seq<Action>)
    requires ValidRun(initial, start, actions) && WellStored(initial)
    ensures Inv(Decode(initial), After(initial, start, actions))
  {
    if actions == [] {
      DecodeIsNormal(initial);
    } else {
      var front := actions[..|actions| - 1];
      RunInv(initial, start, front);
      StepKeepsInv(Decode(initial), After(initial, start, front), actions[|actions| - 1]);
    }
  }

  // ---------------------------------------------------------------------------------
  // What one member sees
  // ---------------------------------------------------------------------------------

  /** The record of one member, folding only the writes that name it. */
  function History(id: string, initial: Option<Member>, log: seq<Entry>, k: nat): Option<Member>
    requires k <= |log|
  {
    if k == 0 then initial
    else
      var before := History(id, initial, log, k - 1);
      if SafeName(log[k - 1].op.memberId) == id && log[k - 1].op.Valid() then MemberStep(log[k - 1].op, before, log[k - 1].now)
      else before
  }

  lemma {:induction false} SerialIsPerMember(initial: Registry, log: seq<Entry>, k: nat, id: string)
    requires k <= |log| && Normal(initial)
    ensures Normal(Serial(initial, log, k))
    ensures Lookup(Serial(initial, log, k), id) == History(id, Lookup(initial, id), log, k)
  {
    if k > 0 {
      SerialIsPerMember(initial, log, k - 1, id);
      ApplyTouchesOneMember(log[k - 1].op, Serial(initial, log, k - 1), log[k - 1].now);
    }
  }

  /** The stored registry is the log executed serially, and the log holds every write with its outcome. */
  ghost predicate SerialOutcome(initial: Registry, s: System) {
    && Decode(s.stored) == Serial(initial, s.log, |s.log|)
    && (forall i :: 0 <= i < |s.log| ==> OutcomeAt(initial, s.log, i))
    && Logged(s)
  }

  /**
    Serialisability: the stored registry is the log executed serially, every update that wrote
    is in the log once with the outcome it returned, in an order that respects real time, and
    what is stored for a member is exactly the effect of the writes that name it.
   */
  lemma Serialisable(initial: Stored, start: Time, actions: seq<Action>, id: string)
    requires ValidRun(initial, start, actions) && WellStored(initial)
    ensures SerialOutcome(Decode(initial), After(initial, start, actions))
    ensures var s := After(initial, start, actions);
      Lookup(Decode(s.stored), id) == History(id, Lookup(Decode(initial), id), s.log, |s.log|)
  {
    RunInv(initial, start, actions);
    DecodeIsNormal(initial);
    var s := After(initial, start, actions);
    SerialIsPerMember(Decode(initial), s.log, |s.log|, id);
  }

  /** The contended error is raised only after eight writes by other calls since the call began. */
  lemma ContendedNeedsEightWrites(initial: Stored, start: Time, actions: seq<Action>, id: nat)
    requires ValidRun(initial, start, actions) && WellStored(initial)
    requires id in After(initial, start, actions).calls
    requires After(initial, start, actions).calls[id].pc == Done(Contended)
    ensures var s := After(initial, start, actions);
      var began := s.calls[id].beganLog;
      && began + 8 <= |s.log|
      && (forall i {:trigger s.log[i]} :: began <= i < |s.log| ==> s.log[i].id != id)
      && (forall i, j :: began <= i < j < |s.log| ==> s.log[i].id != s.log[j].id)
  {
    RunInv(initial, start, actions);
    var s := After(initial, start, actions);
    assert Counted(s, s.calls[id]);
    forall i | s.calls[id].beganLog <= i < |s.log|
      ensures s.log[i].id != id
    {
      assert LoggedAt(s, i);
    }
  }
}
