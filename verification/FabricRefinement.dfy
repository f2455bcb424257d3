/**
  Every concurrent run of the compare-and-swap store is explained by a serial run of the
  memory store: same results, same stored lease, real-time order respected, clock readings
  taken inside each call, up to an order-preserving renaming of tokens.
 */
module FabricRefinement {
  import opened Options
  import opened FabricLease
  import opened FabricRuns

  /** One call of the serial order, with the readings it is given there. */
  datatype Entry = Entry(
    id: nat, op: Op,
    beganStep: nat, endedStep: nat, beganAt: Time, endedAt: Time,
    checked: Time, stamped: Time,
    result: Result)

  function TokenOf(r: Result): int {
    if r.Granted? && r.acquired then r.lease.token else 0
  }

  /** One entry on a memory store whose acquisitions take the token the entry says. */
  function Apply(m: Mem, e: Entry): (Mem, Result) {
    MemStepWith(m, e.op, e.checked, e.stamped, TokenOf(e.result))
  }

  /** The store after the first k entries. */
  function Serial(log: seq<Entry>, k: nat): Mem
    requires k <= |log|
  {
    if k == 0 then Mem(None, 0) else Apply(Serial(log, k - 1), log[k - 1]).0
  }

  /** Executed after `m`, the entry gives the result it claims, and draws a larger token if any. */
  ghost predicate Explains(m: Mem, e: Entry) {
    && Apply(m, e).1 == e.result
    && (e.result.Granted? && e.result.acquired ==> m.generation < e.result.lease.token)
  }

  ghost predicate ExplainedAt(log: seq<Entry>, i: int)
    requires 0 <= i < |log|
  {
    Explains(Serial(log, i), log[i])
  }

  ghost predicate Explained(log: seq<Entry>) {
    forall i :: 0 <= i < |log| ==> ExplainedAt(log, i)
  }

  lemma {:induction false} SamePrefix(a: seq<Entry>, b: seq<Entry>, k: nat)
    requires k <= |a| && k <= |b| && forall i :: 0 <= i < k ==> a[i] == b[i]
    ensures Serial(a, k) == Serial(b, k)
  {
    if k > 0 { SamePrefix(a, b, k - 1); }
  }

  function Insert(log: seq<Entry>, p: nat, e: Entry): (r: seq<Entry>)
    requires p <= |log|
    ensures |r| == |log| + 1
    ensures forall i :: 0 <= i < |r| ==> r[i] == if i < p then log[i] else if i == p then e else log[i - 1]
  {
    log[..p] + [e] + log[p..]
  }

  /** An entry that changes nothing where it is inserted changes nothing afterwards either. */
  lemma {:induction false} InsertedNoop(log: seq<Entry>, p: nat, e: Entry, k: nat)
    requires p <= k <= |log| && Apply(Serial(log, p), e).0 == Serial(log, p)
    ensures Serial(Insert(log, p, e), k + 1) == Serial(log, k)
  {
    var ins := Insert(log, p, e);
    if k == p {
      SamePrefix(ins, log, p);
    } else {
      InsertedNoop(log, p, e, k - 1);
    }
  }

  lemma ExplainedInsert(log: seq<Entry>, p: nat, e: Entry)
    requires p <= |log| && Explained(log)
    requires Explains(Serial(log, p), e) && Apply(Serial(log, p), e).0 == Serial(log, p)
    ensures Explained(Insert(log, p, e))
  {
    var ins := Insert(log, p, e);
    forall i | 0 <= i < |ins|
      ensures ExplainedAt(ins, i)
    {
      if i <= p {
        SamePrefix(ins, log, i);
        if i < p { assert ExplainedAt(log, i); }
      } else {
        InsertedNoop(log, p, e, i - 1);
        assert ExplainedAt(log, i - 1);
      }
    }
  }

  lemma ExplainedAppend(log: seq<Entry>, e: Entry)
    requires Explained(log) && Explains(Serial(log, |log|), e)
    ensures Explained(Insert(log, |log|, e))
    ensures Serial(Insert(log, |log|, e), |log| + 1) == Apply(Serial(log, |log|), e).0
  {
    var longer := Insert(log, |log|, e);
    forall i | 0 <= i <= |log|
      ensures ExplainedAt(longer, i)
    {
      SamePrefix(longer, log, i);
      if i < |log| { assert ExplainedAt(log, i); }
    }
    SamePrefix(longer, log, |log|);
  }

  // ---------------------------------------------------------------------------------
  // The serial order is built along the run
  // ---------------------------------------------------------------------------------

  /**
    `log` is the serial order so far. `mark[id]` is where a call that has read an unreleased
    record and is about to check the clock would go if the check ends it: the log had that
    length when it read.
   */
  datatype Order = Order(log: seq<Entry>, mark: map<nat, nat>)

  function Finished(s: System, id: nat, call: Call, checked: Time, stamped: Time, result: Result): Entry {
    Entry(id, call.op, call.beganStep, s.steps, call.beganAt, s.now, checked, stamped, result)
  }

  function Without(mark: map<nat, nat>, id: nat): map<nat, nat> {
    map k | k in mark && k != id :: mark[k]
  }

  /** Where a place in the log is after an insertion at p. */
  function MovedUp(place: nat, p: nat): nat {
    if p < place then place + 1 else place
  }

  function Shifted(mark: map<nat, nat>, p: nat): map<nat, nat> {
    map k | k in mark :: MovedUp(mark[k], p)
  }

  /** Put a call's entry at p; the calls waiting at later places move up with the log. */
  function Grow(o: Order, p: nat, e: Entry): Order
    requires p <= |o.log|
  {
    Order(Insert(o.log, p, e), Shifted(Without(o.mark, e.id), p))
  }

  /** How one step of the run extends the serial order. */
  function Extend(s: System, o: Order, action: Action): Order
    requires Enabled(s, action)
  {
    match action
    case Tick(_) => o
    case Start(id, op) =>
      if op.Valid() then o
      else Grow(o, |o.log|, Finished(s, id, Call(op, Begin(op), s.steps, s.now), s.now, s.now, InvalidInput))
    case Act(id) =>
      var call := s.calls[id];
      var pc' := Next(call.op, call.pc, ReplyTo(s, call.pc));
      match call.pc
      case ReadRecord(_) =>
        if pc'.CheckClock? then o.(mark := o.mark[id := |o.log|])
        else if pc'.Done? then Grow(o, |o.log|, Finished(s, id, call, s.now, s.now, pc'.result))
        else o
      case CheckClock(_, _) =>
        var p := if id in o.mark && o.mark[id] <= |o.log| then o.mark[id] else |o.log|;
        if pc'.Done? then Grow(o, p, Finished(s, id, call, s.now, s.now, pc'.result))
        else o.(mark := Without(o.mark, id))
      case Swap(_, _, _, checked, stamped, _) =>
        if pc'.Done? && !pc'.contended then
          var reading := if checked.Some? then checked.value else stamped;
          Grow(o, |o.log|, Finished(s, id, call, reading, stamped, pc'.result))
        else o
      case _ => o
  }

  function Linearized(start: Time, actions: seq<Action>): Order
    requires ValidRun(start, actions)
    decreases |actions|
  {
    if actions == [] then Order([], map[])
    else
      var front := actions[..|actions| - 1];
      Extend(After(start, front), Linearized(start, front), actions[|actions| - 1])
  }

  /** What a call remembers of its own readings, enough to replay it at the swap. */
  ghost predicate Remembers(s: System, c: Call) {
    && c.beganStep < s.steps && c.beganAt <= s.now
    && (c.pc.Done? || c.op.Valid())
    && match c.pc
       case CheckClock(_, seen) => !c.op.Release? && (c.op.Renew? ==> Matches(Some(seen), c.op.owner, c.op.token))
       case DrawToken(_, raw, checked) => c.op.Acquire? && InactiveFor(s, c, raw, checked)
       case StampNew(_, raw, checked, _) => c.op.Acquire? && InactiveFor(s, c, raw, checked)
       case StampRenewed(_, seen, reading) => HeldFor(s, c, seen, reading)
       case StampReleased(_, seen) => c.op.Release? && Matches(Some(seen), c.op.owner, c.op.token)
       case Swap(_, raw, lease, checked, stamped, acquired) =>
         && c.beganAt <= stamped <= s.now && (checked.Some? ==> checked.value <= stamped)
         && if acquired then
              c.op.Acquire? && InactiveFor(s, c, raw, checked)
              && lease == NewLease(c.op.owner, lease.token, c.op.ttl, c.op.metadata, stamped)
            else if c.op.Release? then
              raw.Some? && checked.None? && Matches(raw, c.op.owner, c.op.token)
              && lease == ReleasedLease(raw.value, stamped)
            else
              raw.Some? && checked.Some? && HeldFor(s, c, raw.value, checked.value)
              && lease == RenewedLease(raw.value, c.op.ttl, stamped)
       case _ => true
  }

  /** The record was seen inactive, by the clock if it carried no release. */
  ghost predicate InactiveFor(s: System, c: Call, raw: Record, checked: Option<Time>) {
    if checked.Some? then c.beganAt <= checked.value <= s.now && !IsActive(raw, checked.value)
    else raw.None? || raw.value.releasedAt.Some?
  }

  ghost predicate HeldFor(s: System, c: Call, seen: Lease, reading: Time) {
    && c.beganAt <= reading <= s.now && IsActive(Some(seen), reading)
    && !c.op.Release? && seen.owner == c.op.owner && (c.op.Renew? ==> seen.token == c.op.token)
  }

  lemma StepKeepsRemembers(s: System, action: Action, id: nat)
    requires Enabled(s, action) && id in Step(s, action).calls
    requires id in s.calls ==> Remembers(s, s.calls[id])
    ensures Remembers(Step(s, action), Step(s, action).calls[id])
  {
    if action == Act(id) {
      AnswerKeepsRemembers(s, s.calls[id], id);
    }
  }

  lemma AnswerKeepsRemembers(s: System, c: Call, id: nat)
    requires Enabled(s, Act(id)) && s.calls[id] == c && Remembers(s, c)
    ensures Remembers(Step(s, Act(id)), c.(pc := Next(c.op, c.pc, ReplyTo(s, c.pc))))
  {
    match c.pc
    case ReadRecord(_) =>
    case CheckClock(_, _) =>
    case StampNew(_, _, _, _) =>
    case StampRenewed(_, _, _) =>
    case Swap(_, _, _, _, _, _) =>
    case _ =>
  }

  // ---------------------------------------------------------------------------------
  // Bookkeeping: entries are the finished, uncontended calls, in a real-time order
  // ---------------------------------------------------------------------------------

  ghost predicate Settled(c: Call) {
    c.pc.Done? && !c.pc.contended
  }

  ghost predicate Covers(log: seq<Entry>, id: nat) {
    exists i :: 0 <= i < |log| && log[i].id == id
  }

  /** The entry reports a finished call, its result, and readings taken while it ran, the check before the stamp. */
  ghost predicate Reports(s: System, e: Entry) {
    && e.id in s.calls
    && s.calls[e.id] == Call(e.op, Done(e.result, false), e.beganStep, e.beganAt)
    && e.beganStep <= e.endedStep < s.steps
    && e.beganAt <= e.checked <= e.stamped <= e.endedAt <= s.now
  }

  /** No call is put before one that had already ended when it began. */
  ghost predicate RealTime(log: seq<Entry>) {
    forall i, j :: 0 <= i < j < |log| ==> log[i].beganStep <= log[j].endedStep
  }

  ghost predicate Books(s: System, log: seq<Entry>) {
    && (forall i :: 0 <= i < |log| ==> Reports(s, log[i]))
    && (forall id :: id in s.calls && Settled(s.calls[id]) ==> Covers(log, id))
    && (forall i, j :: 0 <= i < j < |log| ==> log[i].id != log[j].id)
    && RealTime(log)
  }

  /** A step that settles no call and forgets none keeps the books. */
  lemma BooksCarryOver(s: System, t: System, log: seq<Entry>)
    requires Books(s, log) && s.steps <= t.steps && s.now <= t.now
    requires forall id :: id in s.calls && Settled(s.calls[id]) ==> id in t.calls && t.calls[id] == s.calls[id]
    requires forall id :: id in t.calls && Settled(t.calls[id]) ==> id in s.calls && Settled(s.calls[id])
    ensures Books(t, log)
  {
    forall i | 0 <= i < |log|
      ensures Reports(t, log[i])
    {
      assert Reports(s, log[i]);
      assert Settled(s.calls[log[i].id]);
    }
  }

  lemma RealTimeGrows(log: seq<Entry>, p: nat, e: Entry)
    requires p <= |log| && RealTime(log)
    requires forall i :: 0 <= i < |log| ==> log[i].beganStep <= e.endedStep
    requires forall j :: p <= j < |log| ==> e.beganStep <= log[j].endedStep
    ensures RealTime(Insert(log, p, e))
  {
  }

  lemma CoversGrows(log: seq<Entry>, p: nat, e: Entry, id: nat)
    requires p <= |log| && (Covers(log, id) || id == e.id)
    ensures Covers(Insert(log, p, e), id)
  {
    var r := Insert(log, p, e);
    if id == e.id {
      assert r[p].id == id;
    } else {
      var i :| 0 <= i < |log| && log[i].id == id;
      assert r[if i < p then i else i + 1].id == id;
    }
  }

  lemma DistinctGrows(log: seq<Entry>, p: nat, e: Entry)
    requires p <= |log| && !Covers(log, e.id)
    requires forall i, j :: 0 <= i < j < |log| ==> log[i].id != log[j].id
    ensures var r := Insert(log, p, e); forall i, j :: 0 <= i < j < |r| ==> r[i].id != r[j].id
  {
    var r := Insert(log, p, e);
    forall i, j | 0 <= i < j < |r|
      ensures r[i].id != r[j].id
    {
      var i', j' := if i < p then i else i - 1, if j < p then j else j - 1;
      if i == p {
        assert log[j'].id == r[j].id;
      } else if j == p {
        assert log[i'].id == r[i].id;
      }
    }
  }

  lemma BooksGrow(s: System, t: System, log: seq<Entry>, p: nat, e: Entry)
    requires Books(s, log) && s.steps < t.steps && s.now <= t.now && p <= |log|
    requires forall id :: id in s.calls && Settled(s.calls[id]) ==> id != e.id && id in t.calls && t.calls[id] == s.calls[id]
    requires forall id :: id in t.calls && id != e.id && Settled(t.calls[id]) ==> id in s.calls && Settled(s.calls[id])
    requires Reports(t, e) && e.endedStep == s.steps
    requires forall j :: p <= j < |log| ==> e.beganStep <= log[j].endedStep
    ensures Books(t, Insert(log, p, e))
  {
    forall i | 0 <= i < |log|
      ensures Reports(t, log[i]) && log[i].id != e.id && log[i].beganStep <= e.endedStep
    {
      assert Reports(s, log[i]);
      assert Settled(s.calls[log[i].id]);
    }
    forall id | id in t.calls && Settled(t.calls[id])
      ensures Covers(Insert(log, p, e), id)
    {
      CoversGrows(log, p, e, id);
    }
    RealTimeGrows(log, p, e);
    DistinctGrows(log, p, e);
  }

  // ---------------------------------------------------------------------------------
  // The simulation
  // ---------------------------------------------------------------------------------

  /** The serial store ends where the shared one is. */
  ghost predicate Mirrors(s: System, log: seq<Entry>) {
    Serial(log, |log|) == Mem(s.record, if s.record.Some? then s.record.value.token else 0)
  }

  /** Inserting a call's check at its mark meets the record it read, and no call that ended before it began. */
  ghost predicate Marked(s: System, log: seq<Entry>, id: nat, p: nat) {
    && id in s.calls && s.calls[id].pc.CheckClock?
    && p <= |log| && Serial(log, p).lease == Some(s.calls[id].pc.seen)
    && (forall j :: p <= j < |log| ==> s.calls[id].beganStep <= log[j].endedStep)
  }

  ghost predicate Marks(s: System, o: Order) {
    && (forall id :: id in o.mark ==> Marked(s, o.log, id, o.mark[id]))
    && (forall id :: id in s.calls && s.calls[id].pc.CheckClock? ==> id in o.mark)
  }

  ghost predicate Simulates(s: System, o: Order) {
    Explained(o.log) && Mirrors(s, o.log) && Books(s, o.log) && Marks(s, o)
  }

  ghost predicate AllRemember(s: System) {
    forall id :: id in s.calls ==> Remembers(s, s.calls[id])
  }

  ghost predicate OthersSame(s: System, t: System, id: nat) {
    && s.steps < t.steps && s.now <= t.now
    && (forall k :: k in s.calls && k != id ==> k in t.calls && t.calls[k] == s.calls[k])
    && (forall k :: k in t.calls && k != id ==> k in s.calls)
  }

  ghost predicate Unsettled(s: System, id: nat) {
    id in s.calls ==> !Settled(s.calls[id])
  }

  lemma MarkCarriesOver(s: System, t: System, log: seq<Entry>, id: nat, p: nat)
    requires Marked(s, log, id, p) && id in t.calls && t.calls[id] == s.calls[id]
    ensures Marked(t, log, id, p)
  {
  }

  /** A step that settles no call and stores nothing; the acting call may gain or drop its mark. */
  lemma QuietStep(s: System, t: System, o: Order, id: nat)
    requires Simulates(s, o) && OthersSame(s, t, id) && t.record == s.record
    requires Unsettled(s, id) && Unsettled(t, id)
    requires id in t.calls && t.calls[id].pc.CheckClock? ==> s.record == Some(t.calls[id].pc.seen)
    ensures id in t.calls && t.calls[id].pc.CheckClock? ==> Simulates(t, o.(mark := o.mark[id := |o.log|]))
    ensures !(id in t.calls && t.calls[id].pc.CheckClock?) ==> Simulates(t, o.(mark := Without(o.mark, id)))
  {
    BooksCarryOver(s, t, o.log);
    forall k | k in o.mark && k != id
      ensures Marked(t, o.log, k, o.mark[k])
    {
      MarkCarriesOver(s, t, o.log, k, o.mark[k]);
    }
  }

  lemma MarkGrows(s: System, t: System, log: seq<Entry>, p: nat, e: Entry, id: nat, q: nat)
    requires Marked(s, log, id, q) && id in t.calls && t.calls[id] == s.calls[id]
    requires s.calls[id].beganStep <= e.endedStep
    requires p <= |log| && (p < q ==> Apply(Serial(log, p), e).0 == Serial(log, p))
    ensures Marked(t, Insert(log, p, e), id, MovedUp(q, p))
  {
    if p < q {
      InsertedNoop(log, p, e, q);
    } else {
      SamePrefix(Insert(log, p, e), log, q);
    }
  }

  /** The entry is either the newest, or changes nothing where it is inserted. */
  ghost predicate Fits(s: System, t: System, log: seq<Entry>, p: nat, e: Entry) {
    && p <= |log| && Explains(Serial(log, p), e)
    && (forall j :: p <= j < |log| ==> e.beganStep <= log[j].endedStep)
    && var after := Apply(Serial(log, p), e).0;
       if p == |log| then after == Mem(t.record, if t.record.Some? then t.record.value.token else 0)
       else after == Serial(log, p) && t.record == s.record
  }

  lemma SettlingMark(s: System, t: System, o: Order, p: nat, e: Entry, k: nat)
    requires k in s.calls && Marks(s, o) && Remembers(s, s.calls[k]) && OthersSame(s, t, e.id)
    requires e.endedStep == s.steps && Fits(s, t, o.log, p, e)
    requires k in o.mark && k != e.id
    ensures Marked(t, Insert(o.log, p, e), k, MovedUp(o.mark[k], p))
  {
    assert Marked(s, o.log, k, o.mark[k]);
    MarkGrows(s, t, o.log, p, e, k, o.mark[k]);
  }

  lemma MovedMarks(s: System, t: System, o: Order, p: nat, e: Entry)
    requires Marks(s, o) && OthersSame(s, t, e.id) && p <= |o.log|
    requires e.id in t.calls && t.calls[e.id].pc.Done?
    requires forall k :: k in o.mark && k != e.id ==>
               Marked(t, Insert(o.log, p, e), k, MovedUp(o.mark[k], p))
    ensures Marks(t, Grow(o, p, e))
  {
    var grown := Grow(o, p, e);
    forall k | k in grown.mark
      ensures Marked(t, grown.log, k, grown.mark[k])
    {
      assert k in o.mark && k != e.id && grown.mark[k] == MovedUp(o.mark[k], p);
    }
  }

  lemma SettlingMarks(s: System, t: System, o: Order, p: nat, e: Entry)
    requires Marks(s, o) && AllRemember(s) && OthersSame(s, t, e.id)
    requires e.endedStep == s.steps && Fits(s, t, o.log, p, e)
    requires e.id in t.calls && t.calls[e.id].pc.Done?
    ensures Marks(t, Grow(o, p, e))
  {
    forall k | k in o.mark && k != e.id
      ensures Marked(t, Insert(o.log, p, e), k, MovedUp(o.mark[k], p))
    {
      assert Marked(s, o.log, k, o.mark[k]);
      SettlingMark(s, t, o, p, e, k);
    }
    MovedMarks(s, t, o, p, e);
  }

  lemma SettlingLog(s: System, t: System, log: seq<Entry>, p: nat, e: Entry)
    requires Explained(log) && Mirrors(s, log) && Fits(s, t, log, p, e)
    ensures Explained(Insert(log, p, e)) && Mirrors(t, Insert(log, p, e))
  {
    if p == |log| {
      ExplainedAppend(log, e);
    } else {
      ExplainedInsert(log, p, e);
      InsertedNoop(log, p, e, |log|);
    }
  }

  lemma SettlingStep(s: System, t: System, o: Order, p: nat, e: Entry)
    requires Simulates(s, o) && AllRemember(s) && OthersSame(s, t, e.id)
    requires Unsettled(s, e.id) && Reports(t, e) && e.endedStep == s.steps && Fits(s, t, o.log, p, e)
    ensures Simulates(t, Grow(o, p, e))
  {
    SettlingLog(s, t, o.log, p, e);
    BooksGrow(s, t, o.log, p, e);
    SettlingMarks(s, t, o, p, e);
  }

  lemma NotMarked(s: System, o: Order, id: nat)
    requires Marks(s, o) && (id in s.calls ==> !s.calls[id].pc.CheckClock?)
    ensures id !in o.mark && o.(mark := Without(o.mark, id)) == o
  {
    assert Without(o.mark, id) == o.mark;
  }

  lemma StartStep(s: System, o: Order, id: nat, op: Op)
    requires Enabled(s, Start(id, op)) && Simulates(s, o) && AllRemember(s)
    ensures Simulates(Step(s, Start(id, op)), Extend(s, o, Start(id, op)))
  {
    var t := Step(s, Start(id, op));
    NotMarked(s, o, id);
    if op.Valid() {
      QuietStep(s, t, o, id);
    } else {
      SettlingStep(s, t, o, |o.log|, Finished(s, id, Call(op, Begin(op), s.steps, s.now), s.now, s.now, InvalidInput));
    }
  }

  lemma ReadStep(s: System, o: Order, id: nat)
    requires Enabled(s, Act(id)) && Simulates(s, o) && AllRemember(s) && s.calls[id].pc.ReadRecord?
    ensures Simulates(Step(s, Act(id)), Extend(s, o, Act(id)))
  {
    var t, call := Step(s, Act(id)), s.calls[id];
    NotMarked(s, o, id);
    assert Remembers(s, call);
    var pc' := t.calls[id].pc;
    if pc'.Done? {
      SettlingStep(s, t, o, |o.log|, Finished(s, id, call, s.now, s.now, pc'.result));
    } else {
      QuietStep(s, t, o, id);
    }
  }

  /** A check that ends the call: the record it read refuses the call, now as when it was read. */
  lemma RefusalFits(s: System, t: System, o: Order, id: nat)
    requires Enabled(s, Act(id)) && Marks(s, o) && Explained(o.log) && Mirrors(s, o.log) && t == Step(s, Act(id))
    requires s.calls[id].pc.CheckClock? && t.calls[id].pc.Done? && Remembers(s, s.calls[id])
    ensures id in o.mark && o.mark[id] <= |o.log|
    ensures Fits(s, t, o.log, o.mark[id], Finished(s, id, s.calls[id], s.now, s.now, t.calls[id].pc.result))
  {
    assert Marked(s, o.log, id, o.mark[id]);
  }

  lemma RefusalSettles(s: System, t: System, o: Order, id: nat)
    requires Enabled(s, Act(id)) && Simulates(s, o) && AllRemember(s) && t == Step(s, Act(id))
    requires s.calls[id].pc.CheckClock? && t.calls[id].pc.Done?
    ensures Simulates(t, Extend(s, o, Act(id)))
  {
    assert Remembers(s, s.calls[id]);
    RefusalFits(s, t, o, id);
    var e := Finished(s, id, s.calls[id], s.now, s.now, t.calls[id].pc.result);
    assert Reports(t, e);
    SettlingStep(s, t, o, o.mark[id], e);
  }

  lemma CheckStep(s: System, o: Order, id: nat)
    requires Enabled(s, Act(id)) && Simulates(s, o) && AllRemember(s) && s.calls[id].pc.CheckClock?
    ensures Simulates(Step(s, Act(id)), Extend(s, o, Act(id)))
  {
    var t := Step(s, Act(id));
    if t.calls[id].pc.Done? {
      RefusalSettles(s, t, o, id);
    } else {
      QuietStep(s, t, o, id);
    }
  }

  function SwapEntry(s: System, id: nat): Entry
    requires id in s.calls && s.calls[id].pc.Swap?
  {
    var call := s.calls[id];
    var reading := if call.pc.checked.Some? then call.pc.checked.value else call.pc.stamped;
    Finished(s, id, call, reading, call.pc.stamped, SwapResult(call.op, call.pc.lease, call.pc.acquired))
  }

  /** A successful swap does what the memory store does with the readings the call took. */
  lemma SuccessFits(s: System, t: System, o: Order, id: nat)
    requires Enabled(s, Act(id)) && Mirrors(s, o.log) && Inv(s) && t == Step(s, Act(id))
    requires s.calls[id].pc.Swap? && s.record == s.calls[id].pc.raw && Remembers(s, s.calls[id])
    ensures Fits(s, t, o.log, |o.log|, SwapEntry(s, id))
  {
    assert PcInv(s.calls[id].pc, s.generation, s.now);
  }

  lemma SwapStep(s: System, o: Order, id: nat)
    requires Enabled(s, Act(id)) && Simulates(s, o) && AllRemember(s) && Inv(s) && s.calls[id].pc.Swap?
    ensures Simulates(Step(s, Act(id)), Extend(s, o, Act(id)))
  {
    var t := Step(s, Act(id));
    NotMarked(s, o, id);
    if s.record == s.calls[id].pc.raw {
      assert Remembers(s, s.calls[id]);
      SuccessFits(s, t, o, id);
      SettlingStep(s, t, o, |o.log|, SwapEntry(s, id));
    } else {
      QuietStep(s, t, o, id);
    }
  }

  lemma OtherStep(s: System, o: Order, id: nat)
    requires Enabled(s, Act(id)) && Simulates(s, o) && AllRemember(s)
    requires var pc := s.calls[id].pc; !pc.ReadRecord? && !pc.CheckClock? && !pc.Swap?
    ensures Simulates(Step(s, Act(id)), Extend(s, o, Act(id)))
  {
    NotMarked(s, o, id);
    QuietStep(s, Step(s, Act(id)), o, id);
  }

  lemma {:induction false} RunSimulates(start: Time, actions: seq<Action>)
    requires ValidRun(start, actions)
    ensures Simulates(After(start, actions), Linearized(start, actions)) && AllRemember(After(start, actions))
  {
    if actions != [] {
      var front, action := actions[..|actions| - 1], actions[|actions| - 1];
      RunSimulates(start, front);
      RunInv(start, front);
      StepSimulates(After(start, front), Linearized(start, front), action);
    }
  }

  lemma StepSimulates(s: System, o: Order, action: Action)
    requires Enabled(s, action) && Inv(s) && Simulates(s, o) && AllRemember(s)
    ensures Simulates(Step(s, action), Extend(s, o, action)) && AllRemember(Step(s, action))
  {
    forall id | id in Step(s, action).calls
      ensures Remembers(Step(s, action), Step(s, action).calls[id])
    {
      StepKeepsRemembers(s, action, id);
    }
    match action
    case Tick(_) => TickStep(s, o, action);
    case Start(id, op) => StartStep(s, o, id, op);
    case Act(id) =>
      match s.calls[id].pc
      case ReadRecord(_) => ReadStep(s, o, id);
      case CheckClock(_, _) => CheckStep(s, o, id);
      case Swap(_, _, _, _, _, _) => SwapStep(s, o, id);
      case _ => OtherStep(s, o, id);
  }

  lemma TickStep(s: System, o: Order, action: Action)
    requires Enabled(s, action) && action.Tick? && Simulates(s, o)
    ensures Simulates(Step(s, action), o)
  {
    var t := Step(s, action);
    BooksCarryOver(s, t, o.log);
    forall k | k in o.mark
      ensures Marked(t, o.log, k, o.mark[k])
    {
      MarkCarriesOver(s, t, o.log, k, o.mark[k]);
    }
  }

  // ---------------------------------------------------------------------------------
  // From the tokens of the shared counter to those of the memory store
  // ---------------------------------------------------------------------------------

  function Acquisitions(log: seq<Entry>, k: nat): nat
    requires k <= |log|
  {
    if k == 0 then 0
    else Acquisitions(log, k - 1) + if TokenOf(log[k - 1].result) != 0 then 1 else 0
  }

  /** The n-th token ever stored is renamed n; a token never stored is renamed 0. */
  function Renaming(log: seq<Entry>, k: nat): map<int, int>
    requires k <= |log|
  {
    if k == 0 then map[]
    else
      var token := TokenOf(log[k - 1].result);
      if token == 0 then Renaming(log, k - 1)
      else Renaming(log, k - 1)[token := Acquisitions(log, k)]
  }

  function Renamed(names: map<int, int>, token: int): int {
    if token in names then names[token] else 0
  }

  function RenamedLease(names: map<int, int>, lease: Lease): Lease {
    lease.(token := Renamed(names, lease.token))
  }

  function RenamedRecord(names: map<int, int>, record: Record): Record {
    if record.Some? then Some(RenamedLease(names, record.value)) else None
  }

  function RenamedOp(names: map<int, int>, op: Op): Op {
    match op
    case Acquire(_, _, _) => op
    case Renew(_, token, _) => op.(token := Renamed(names, token))
    case Release(_, token) => op.(token := Renamed(names, token))
  }

  function RenamedResult(names: map<int, int>, r: Result): Result {
    match r
    case Granted(lease, acquired) => Granted(RenamedLease(names, lease), acquired)
    case OwnedByOther(lease) => OwnedByOther(RenamedLease(names, lease))
    case Contended(found) => Contended(RenamedRecord(names, found))
    case Extended(lease) => Extended(RenamedLease(names, lease))
    case _ => r
  }

  ghost predicate OrderPreserving(names: map<int, int>) {
    && (forall a :: a in names ==> 1 <= names[a])
    && (forall a, b :: a in names && b in names && a < b ==> names[a] < names[b])
  }

  /** The memory store itself, run on the renamed calls of the log. */
  function MemoryRun(log: seq<Entry>, names: map<int, int>, k: nat): Mem
    requires k <= |log|
  {
    if k == 0 then Mem(None, 0)
    else
      var e := log[k - 1];
      MemStep(MemoryRun(log, names, k - 1), RenamedOp(names, e.op), e.checked, e.stamped).0
  }

  ghost predicate MemoryGives(log: seq<Entry>, names: map<int, int>, i: int)
    requires 0 <= i < |log|
  {
    var e := log[i];
    MemStep(MemoryRun(log, names, i), RenamedOp(names, e.op), e.checked, e.stamped).1 == RenamedResult(names, e.result)
  }

  /** The counter of the log's store is the stored token. */
  predicate Counts(m: Mem) {
    m.generation == if m.lease.Some? then m.lease.value.token else 0
  }

  /** An entry that takes a token stores it; any other keeps the stored token. */
  lemma EntryCounts(m: Mem, e: Entry)
    requires Counts(m) && 0 <= m.generation && Explains(m, e)
    ensures Counts(Apply(m, e).0)
    ensures if TokenOf(e.result) != 0 then Apply(m, e).0.lease.Some? && Apply(m, e).0.generation == TokenOf(e.result) > m.generation
            else Apply(m, e).0.generation == m.generation && (Apply(m, e).0.lease.Some? <==> m.lease.Some?)
  {
  }

  lemma OneMoreName(names: map<int, int>, token: int, name: int)
    requires OrderPreserving(names) && 1 <= name
    requires forall t :: t in names ==> t < token && names[t] < name
    ensures OrderPreserving(names[token := name])
  {
  }

  lemma {:induction false} RenamingSound(log: seq<Entry>, k: nat)
    requires k <= |log| && Explained(log)
    ensures OrderPreserving(Renaming(log, k))
    ensures forall t :: t in Renaming(log, k) ==>
              1 <= t <= Serial(log, k).generation && Renaming(log, k)[t] <= Acquisitions(log, k)
    ensures Counts(Serial(log, k)) && 0 <= Serial(log, k).generation
    ensures Serial(log, k).lease.Some? ==>
              Serial(log, k).generation in Renaming(log, k)
              && Renaming(log, k)[Serial(log, k).generation] == Acquisitions(log, k)
  {
    if k > 0 {
      RenamingSound(log, k - 1);
      assert ExplainedAt(log, k - 1);
      EntryCounts(Serial(log, k - 1), log[k - 1]);
      var token := TokenOf(log[k - 1].result);
      if token != 0 { OneMoreName(Renaming(log, k - 1), token, Acquisitions(log, k)); }
    }
  }

  /** Later acquisitions leave earlier names alone. */
  lemma {:induction false} NamesStay(log: seq<Entry>, k: nat, n: nat)
    requires k <= n <= |log| && Explained(log)
    ensures forall t :: t in Renaming(log, k) ==> t in Renaming(log, n) && Renaming(log, n)[t] == Renaming(log, k)[t]
    ensures forall t :: t in Renaming(log, n) && t <= Serial(log, k).generation ==> t in Renaming(log, k)
    ensures Serial(log, k).generation <= Serial(log, n).generation
    decreases n - k
  {
    if k < n {
      NamesStay(log, k, n - 1);
      RenamingSound(log, n - 1);
      RenamingSound(log, k);
      assert ExplainedAt(log, n - 1);
    }
  }

  lemma {:induction false} MemoryRunMatches(log: seq<Entry>, k: nat)
    requires k <= |log| && Explained(log)
    ensures MemoryRun(log, Renaming(log, |log|), k)
         == Mem(RenamedRecord(Renaming(log, |log|), Serial(log, k).lease), Acquisitions(log, k))
    ensures k < |log| ==> MemoryGives(log, Renaming(log, |log|), k)
  {
    var names := Renaming(log, |log|);
    if k > 0 {
      MemoryRunMatches(log, k - 1);
      MemoryStepMatches(log, k - 1);
    }
    if k < |log| {
      MemoryStepMatches(log, k);
    }
  }

  /** One call on a store and, renamed, on the memory store whose counter has made `count` names. */
  lemma RenamedStep(names: map<int, int>, m: Mem, count: nat, e: Entry)
    requires OrderPreserving(names) && Counts(m) && 0 <= m.generation && Explains(m, e)
    requires m.lease.Some? ==> m.generation in names
    requires TokenOf(e.result) != 0 ==> TokenOf(e.result) in names && names[TokenOf(e.result)] == count + 1
    ensures MemStep(Mem(RenamedRecord(names, m.lease), count), RenamedOp(names, e.op), e.checked, e.stamped)
         == (Mem(RenamedRecord(names, Apply(m, e).0.lease), count + if TokenOf(e.result) != 0 then 1 else 0), RenamedResult(names, e.result))
  {
  }

  /** One entry, executed by the log's store and, renamed, by the memory store. */
  lemma MemoryStepMatches(log: seq<Entry>, i: nat)
    requires i < |log| && Explained(log)
    ensures var names, e := Renaming(log, |log|), log[i];
      MemStep(Mem(RenamedRecord(names, Serial(log, i).lease), Acquisitions(log, i)), RenamedOp(names, e.op), e.checked, e.stamped)
      == (Mem(RenamedRecord(names, Serial(log, i + 1).lease), Acquisitions(log, i + 1)), RenamedResult(names, e.result))
  {
    var names, e := Renaming(log, |log|), log[i];
    assert ExplainedAt(log, i);
    RenamingSound(log, i);
    RenamingSound(log, |log|);
    NamesStay(log, i, |log|);
    NamesStay(log, i + 1, |log|);
    var token := TokenOf(e.result);
    assert token != 0 ==> token in Renaming(log, i + 1) && Renaming(log, i + 1)[token] == Acquisitions(log, i + 1);
    RenamedStep(names, Serial(log, i), Acquisitions(log, i), e);
  }

  /**
    The memory store explains the state: run on the renamed calls of the log it gives every
    finished, uncontended call its result and ends with the stored lease.
   */
  ghost predicate ExplainedByMemory(s: System, log: seq<Entry>, names: map<int, int>) {
    && Books(s, log)
    && OrderPreserving(names)
    && (forall i :: 0 <= i < |log| ==> MemoryGives(log, names, i))
    && MemoryRun(log, names, |log|).lease == RenamedRecord(names, s.record)
    && (s.record.Some? ==> s.record.value.token in names)
  }

  /**
    The main result. Every concurrent run has a serial order of its finished, uncontended calls
    that respects real time and in which the memory store, given readings taken inside each
    call, returns the same results and ends with the same lease, tokens renamed in order.
   */
  lemma Linearizable(start: Time, actions: seq<Action>) returns (log: seq<Entry>, names: map<int, int>)
    requires ValidRun(start, actions)
    ensures ExplainedByMemory(After(start, actions), log, names)
  {
    RunSimulates(start, actions);
    log := Linearized(start, actions).log;
    names := Renaming(log, |log|);
    RenamingSound(log, |log|);
    MemoryRunMatches(log, |log|);
    forall i | 0 <= i < |log|
      ensures MemoryGives(log, names, i)
    {
      MemoryRunMatches(log, i);
    }
  }
}
