/**
  Cleanup transparency: a run that removes inactive leases along the way answers every later
  request and renewal as the same run with its cleanups left out.
 */
module TaskLeaseCleanup {
  import opened Options
  import opened TaskLeases
  import opened TaskLeaseRuns

  datatype Event = Event(op: Op, at: Time)

  predicate Dead(l: Lease, now: Time) {
    !Live(l, now) && !RenewalLive(l, now)
  }

  function StepUnless(leases: seq<Lease>, e: Event, cleaning: bool): seq<Lease> {
    if e.op.Cleanup? && !cleaning then leases else StepStore(leases, e.op, e.at)
  }

  /** The store after a run, with its cleanups performed or left out. */
  function Run(leases: seq<Lease>, events: seq<Event>, cleaning: bool): seq<Lease>
    decreases |events|
  {
    if events == [] then leases else Run(StepUnless(leases, events[0], cleaning), events[1..], cleaning)
  }

  predicate Holds(leases: seq<Lease>, id: string) {
    exists l :: l in leases && l.id == id
  }

  /**
    The renewal finds a removed lease first in the full store, and in the cleaned one a lease
    behind it on which it is granted.
   */
  predicate Shadowed(full: seq<Lease>, cleaned: seq<Lease>, q: RenewRequest, now: Time) {
    var i, j := First(full, ByInvite(q.inviteId)), First(cleaned, ByInvite(q.inviteId));
    i < |full| && full[i] !in cleaned && j < |cleaned| && RenewalDenial(cleaned[j], q, now).None?
  }

  /**
    Along the two runs the clock does not go back, drawn ids and tokens are new, no
    reactivation names an id that a cleanup has removed, and no renewal is shadowed. Leases may
    share an invite.
   */
  ghost predicate Undisturbed(full: seq<Lease>, cleaned: seq<Lease>, now: Time, events: seq<Event>)
    decreases |events|
  {
    events == []
    || (var e := events[0];
        && now <= e.at && DrawsNew(full, e.op)
        && (e.op.Reactivate? && Holds(full, e.op.id) ==> Holds(cleaned, e.op.id))
        && (e.op.RenewBy? ==> !Shadowed(full, cleaned, e.op.query, e.at))
        && Undisturbed(StepUnless(full, e, false), StepUnless(cleaned, e, true), e.at, events[1..]))
  }

  function EndOf(now: Time, events: seq<Event>): Time {
    if events == [] then now else events[|events| - 1].at
  }

  /** If the first lease of the invite is still there, it is still the first. */
  predicate HeadKept(full: seq<Lease>, cleaned: seq<Lease>, inviteId: string) {
    var i, j := First(full, ByInvite(inviteId)), First(cleaned, ByInvite(inviteId));
    i < |full| && full[i] in cleaned ==> j < |cleaned| && cleaned[j] == full[i]
  }

  /** The cleaned store lacks only leases that are dead, and keeps the order of the others. */
  ghost predicate Thinned(full: seq<Lease>, cleaned: seq<Lease>, now: Time) {
    && Identified(full) && Identified(cleaned)
    && (forall l :: l in cleaned ==> l in full)
    && (forall l :: l in full && l !in cleaned ==> Dead(l, now) && !Holds(cleaned, l.id))
    && (forall inviteId :: HeadKept(full, cleaned, inviteId))
  }

  // ---------------------------------------------------------------------------------
  // First leases
  // ---------------------------------------------------------------------------------

  lemma SameFirst(a: seq<Lease>, b: seq<Lease>, key: Key)
    requires |a| == |b| && forall i :: 0 <= i < |a| ==> (Fits(a[i], key) <==> Fits(b[i], key))
    ensures First(a, key) == First(b, key)
  {
  }

  lemma FirstOfAppended(leases: seq<Lease>, l: Lease, key: Key)
    ensures First(leases + [l], key) ==
      if First(leases, key) < |leases| then First(leases, key) else if Fits(l, key) then |leases| else |leases| + 1
  {
    var longer := leases + [l];
    assert forall k :: 0 <= k < |leases| ==> longer[k] == leases[k];
    assert longer[|leases|] == l;
  }

  lemma KeptWasThere(leases: seq<Lease>, now: Time, key: Key)
    ensures First(Kept(leases, now), key) < |Kept(leases, now)| ==> First(leases, key) < |leases|
  {
    var kept := Kept(leases, now);
    if First(kept, key) < |kept| {
      KeptIs(leases, now, kept[First(kept, key)]);
      var k :| 0 <= k < |leases| && leases[k] == kept[First(kept, key)];
    }
  }

  /** A kept lease that was first under a key stays first. */
  lemma {:induction false} KeptKeepsFirst(leases: seq<Lease>, now: Time, key: Key)
    requires First(leases, key) < |leases| && !Dead(leases[First(leases, key)], now)
    ensures First(Kept(leases, now), key) < |Kept(leases, now)|
    ensures Kept(leases, now)[First(Kept(leases, now), key)] == leases[First(leases, key)]
  {
    var front, last := leases[..|leases| - 1], leases[|leases| - 1];
    assert leases == front + [last];
    FirstOfAppended(front, last, key);
    var kept := Kept(front, now);
    if First(front, key) < |front| {
      KeptKeepsFirst(front, now, key);
    }
    KeptWasThere(front, now, key);
    FirstOfAppended(kept, last, key);
  }

  // ---------------------------------------------------------------------------------
  // Steps
  // ---------------------------------------------------------------------------------

  lemma DeadStaysDead(l: Lease, op: Op, before: Time, now: Time)
    requires Dead(l, before) && before <= now && InPlace(op) && !Reactivates(op, l)
    ensures Dead(Effect(l, op, now), now)
  {
  }

  lemma SameIdSameLease(leases: seq<Lease>, a: Lease, b: Lease)
    requires Identified(leases) && a in leases && b in leases && a.id == b.id
    ensures a == b
  {
    var i :| 0 <= i < |leases| && leases[i] == a;
    var j :| 0 <= j < |leases| && leases[j] == b;
    KeyIsUnique(leases, ById(a.id), i, j);
  }

  /** The second store is the first with one change made to every lease. */
  ghost predicate Changed(leases: seq<Lease>, after: seq<Lease>, change: Lease -> Lease) {
    |leases| == |after| && forall i :: 0 <= i < |leases| ==> after[i] == change(leases[i])
  }

  ghost predicate KeepsNames(change: Lease -> Lease) {
    forall l :: change(l).id == l.id && change(l).inviteId == l.inviteId
  }

  lemma ChangedHolds(leases: seq<Lease>, after: seq<Lease>, change: Lease -> Lease, id: string)
    requires Changed(leases, after, change) && KeepsNames(change)
    ensures Holds(after, id) <==> Holds(leases, id)
  {
    if Holds(after, id) {
      var m :| m in after && m.id == id;
      var i :| 0 <= i < |after| && after[i] == m;
      assert leases[i] in leases && leases[i].id == id;
    }
    if Holds(leases, id) {
      var m :| m in leases && m.id == id;
      var i :| 0 <= i < |leases| && leases[i] == m;
      assert after[i] in after && after[i].id == id;
    }
  }

  lemma ChangedHas(leases: seq<Lease>, after: seq<Lease>, change: Lease -> Lease, l: Lease)
    requires Changed(leases, after, change) && l in leases
    ensures change(l) in after
  {
    var i :| 0 <= i < |leases| && leases[i] == l;
    assert after[i] in after;
  }

  /** A lease of the changed full store whose original is missing is missing too. */
  lemma ChangedIsMissing(full: seq<Lease>, cleaned: seq<Lease>, full': seq<Lease>, cleaned': seq<Lease>,
                         change: Lease -> Lease, before: Time, k: nat)
    requires Thinned(full, cleaned, before) && KeepsNames(change) && k < |full|
    requires Changed(full, full', change) && Changed(cleaned, cleaned', change)
    ensures full'[k] in cleaned' <==> full[k] in cleaned
    ensures full[k] !in cleaned ==> !Holds(cleaned', full'[k].id)
  {
    if full[k] in cleaned {
      ChangedHas(cleaned, cleaned', change, full[k]);
    } else {
      ChangedHolds(cleaned, cleaned', change, full[k].id);
      assert full[k] in full;
    }
  }

  /** One change made to both stores keeps them alike, as long as what is missing stays dead. */
  lemma ChangeKeepsThinned(full: seq<Lease>, cleaned: seq<Lease>, full': seq<Lease>, cleaned': seq<Lease>,
                           change: Lease -> Lease, before: Time, now: Time)
    requires Thinned(full, cleaned, before) && KeepsNames(change) && Identified(full') && Identified(cleaned')
    requires Changed(full, full', change) && Changed(cleaned, cleaned', change)
    requires forall l :: l in full && l !in cleaned ==> Dead(change(l), now)
    ensures Thinned(full', cleaned', now)
  {
    forall l | l in cleaned' ensures l in full' {
      var j :| 0 <= j < |cleaned'| && cleaned'[j] == l;
      assert cleaned[j] in cleaned;
      ChangedHas(full, full', change, cleaned[j]);
    }
    forall l | l in full' && l !in cleaned' ensures Dead(l, now) && !Holds(cleaned', l.id) {
      var k :| 0 <= k < |full'| && full'[k] == l;
      ChangedIsMissing(full, cleaned, full', cleaned', change, before, k);
      assert full[k] in full;
    }
    forall inviteId ensures HeadKept(full', cleaned', inviteId) {
      SameFirst(full, full', ByInvite(inviteId));
      SameFirst(cleaned, cleaned', ByInvite(inviteId));
      assert HeadKept(full, cleaned, inviteId);
      var i := First(full, ByInvite(inviteId));
      if i < |full| { ChangedIsMissing(full, cleaned, full', cleaned', change, before, i); }
    }
  }

  lemma InPlaceKeepsThinned(full: seq<Lease>, cleaned: seq<Lease>, op: Op, before: Time, now: Time)
    requires Thinned(full, cleaned, before) && before <= now && InPlace(op) && !op.RenewBy? && DrawsNew(full, op)
    requires op.Reactivate? && Holds(full, op.id) ==> Holds(cleaned, op.id)
    ensures Thinned(StepStore(full, op, now), StepStore(cleaned, op, now), now)
  {
    StepKeepsIdentified(full, op, now);
    StepKeepsIdentified(cleaned, op, now);
    var change := (l: Lease) => Effect(l, op, now);
    InPlaceChanges(full, op, now, change);
    InPlaceChanges(cleaned, op, now, change);
    forall l | l in full && l !in cleaned ensures Dead(change(l), now) {
      assert Holds(full, l.id);
      DeadStaysDead(l, op, before, now);
    }
    ChangeKeepsThinned(full, cleaned, StepStore(full, op, now), StepStore(cleaned, op, now), change, before, now);
  }

  lemma InPlaceChanges(leases: seq<Lease>, op: Op, now: Time, change: Lease -> Lease)
    requires Identified(leases) && InPlace(op) && !op.RenewBy?
    requires forall l :: change(l) == Effect(l, op, now)
    ensures Changed(leases, StepStore(leases, op, now), change)
  {
    forall i | 0 <= i < |leases|
      ensures |StepStore(leases, op, now)| == |leases| && StepStore(leases, op, now)[i] == change(leases[i])
    {
      StepIsPointwise(leases, op, now, i);
    }
  }

  lemma StillThinned(full: seq<Lease>, cleaned: seq<Lease>, before: Time, now: Time)
    requires Thinned(full, cleaned, before) && before <= now
    ensures Thinned(full, cleaned, now)
  {
  }

  function RollOnly(l: Lease, rolled: Lease): Lease {
    if l.id == rolled.id then rolled.(inviteId := l.inviteId) else l
  }

  /** A granted renewal changes only the lease of that id. */
  lemma RenewalChanges(leases: seq<Lease>, q: RenewRequest, now: Time, i: nat)
    requires Identified(leases) && i == First(leases, ByInvite(q.inviteId)) < |leases| && RenewalDenial(leases[i], q, now).None?
    ensures Changed(leases, Renew(leases, q, now).0, l => RollOnly(l, Rolled(leases[i], q.secret, now)))
  {
    forall k | 0 <= k < |leases| && leases[k].id == leases[i].id ensures k == i {
      KeyIsUnique(leases, ById(leases[i].id), k, i);
    }
  }

  /** A renewal granted on a lease that both stores hold rolls it in both. */
  lemma RenewedKeepsThinned(full: seq<Lease>, cleaned: seq<Lease>, q: RenewRequest, now: Time, i: nat, j: nat)
    requires Thinned(full, cleaned, now)
    requires i == First(full, ByInvite(q.inviteId)) < |full| && j == First(cleaned, ByInvite(q.inviteId)) < |cleaned|
    requires full[i] == cleaned[j] && RenewalDenial(full[i], q, now).None?
    ensures Thinned(Renew(full, q, now).0, Renew(cleaned, q, now).0, now)
  {
    RenewalKeepsIdentified(full, q, now);
    RenewalKeepsIdentified(cleaned, q, now);
    RenewalChanges(full, q, now, i);
    RenewalChanges(cleaned, q, now, j);
    var rolled := Rolled(full[i], q.secret, now);
    forall l | l in full && l !in cleaned ensures Dead(RollOnly(l, rolled), now) {
      assert cleaned[j] in cleaned && !Holds(cleaned, l.id);
    }
    ChangeKeepsThinned(full, cleaned, Renew(full, q, now).0, Renew(cleaned, q, now).0, l => RollOnly(l, rolled), now, now);
  }

  /** The first leases of an invite in the two stores, and whom a renewal reaches. */
  lemma RenewalReaches(full: seq<Lease>, cleaned: seq<Lease>, q: RenewRequest, now: Time)
    requires Thinned(full, cleaned, now)
    ensures var i, j := First(full, ByInvite(q.inviteId)), First(cleaned, ByInvite(q.inviteId));
      && (i < |full| && full[i] in cleaned ==> j < |cleaned| && cleaned[j] == full[i])
      && (i < |full| && full[i] !in cleaned ==> RenewalDenial(full[i], q, now).Some?)
      && (i == |full| ==> j == |cleaned|)
  {
    assert HeadKept(full, cleaned, q.inviteId);
    var i, j := First(full, ByInvite(q.inviteId)), First(cleaned, ByInvite(q.inviteId));
    if i < |full| && full[i] !in cleaned {
      assert full[i] in full;
      assert Dead(full[i], now);
    }
    CleanedWasThere(full, cleaned, now, ByInvite(q.inviteId));
  }

  lemma RenewalKeepsThinned(full: seq<Lease>, cleaned: seq<Lease>, q: RenewRequest, before: Time, now: Time)
    requires Thinned(full, cleaned, before) && before <= now && !Shadowed(full, cleaned, q, now)
    ensures Thinned(Renew(full, q, now).0, Renew(cleaned, q, now).0, now)
  {
    StillThinned(full, cleaned, before, now);
    RenewalReaches(full, cleaned, q, now);
    var i, j := First(full, ByInvite(q.inviteId)), First(cleaned, ByInvite(q.inviteId));
    if i < |full| && full[i] in cleaned && RenewalDenial(full[i], q, now).None? {
      RenewedKeepsThinned(full, cleaned, q, now, i, j);
    }
  }

  lemma CreateKeepsThinned(full: seq<Lease>, cleaned: seq<Lease>, op: Op, before: Time, now: Time)
    requires Thinned(full, cleaned, before) && before <= now && op.Create? && DrawsNew(full, op)
    ensures Thinned(StepStore(full, op, now), StepStore(cleaned, op, now), now)
  {
    StillThinned(full, cleaned, before, now);
    if Creatable(op.args) {
      StepKeepsIdentified(full, op, now);
      StepKeepsIdentified(cleaned, op, now);
      var l := Created(op.args, now);
      forall inviteId ensures HeadKept(full + [l], cleaned + [l], inviteId) {
        assert HeadKept(full, cleaned, inviteId);
        AppendKeepsHead(full, cleaned, now, l, inviteId);
      }
    }
  }

  lemma AppendKeepsHead(full: seq<Lease>, cleaned: seq<Lease>, now: Time, l: Lease, inviteId: string)
    requires Thinned(full, cleaned, now) && forall m :: m in full ==> m.id != l.id
    ensures HeadKept(full + [l], cleaned + [l], inviteId)
  {
    var key := ByInvite(inviteId);
    assert HeadKept(full, cleaned, inviteId);
    FirstOfAppended(full, l, key);
    FirstOfAppended(cleaned, l, key);
    CleanedWasThere(full, cleaned, now, key);
    var i := First(full, key);
    if i < |full| { assert full[i] in full && (full + [l])[i] == full[i]; }
  }

  lemma CleanedWasThere(full: seq<Lease>, cleaned: seq<Lease>, now: Time, key: Key)
    requires Thinned(full, cleaned, now)
    ensures First(cleaned, key) < |cleaned| ==> First(full, key) < |full|
  {
    var j := First(cleaned, key);
    if j < |cleaned| {
      assert cleaned[j] in cleaned;
      var k :| 0 <= k < |full| && full[k] == cleaned[j];
    }
  }

  lemma CleanupKeepsThinned(full: seq<Lease>, cleaned: seq<Lease>, before: Time, now: Time)
    requires Thinned(full, cleaned, before) && before <= now
    ensures Thinned(full, Kept(cleaned, now), now)
  {
    KeptKeepsIdentified(cleaned, now);
    forall l | l in Kept(cleaned, now)
      ensures l in full
    {
      KeptIs(cleaned, now, l);
    }
    forall l | l in full && l !in Kept(cleaned, now)
      ensures Dead(l, now) && !Holds(Kept(cleaned, now), l.id)
    {
      KeptIs(cleaned, now, l);
      CleanedIsGone(full, cleaned, before, now, l);
    }
    forall inviteId ensures HeadKept(full, Kept(cleaned, now), inviteId) {
      KeptKeepsHead(full, cleaned, before, now, inviteId);
    }
  }

  lemma CleanedIsGone(full: seq<Lease>, cleaned: seq<Lease>, before: Time, now: Time, l: Lease)
    requires Thinned(full, cleaned, before) && l in full && l !in Kept(cleaned, now)
    ensures !Holds(Kept(cleaned, now), l.id)
  {
    if Holds(Kept(cleaned, now), l.id) {
      var m :| m in Kept(cleaned, now) && m.id == l.id;
      KeptIs(cleaned, now, m);
      SameIdSameLease(full, l, m);
    }
  }

  lemma KeptKeepsHead(full: seq<Lease>, cleaned: seq<Lease>, before: Time, now: Time, inviteId: string)
    requires Thinned(full, cleaned, before)
    ensures HeadKept(full, Kept(cleaned, now), inviteId)
  {
    assert HeadKept(full, cleaned, inviteId);
    var i := First(full, ByInvite(inviteId));
    if i < |full| && full[i] in Kept(cleaned, now) {
      KeptIs(cleaned, now, full[i]);
      KeptKeepsFirst(cleaned, now, ByInvite(inviteId));
    }
  }

  lemma {:induction false} RunKeepsThinned(full: seq<Lease>, cleaned: seq<Lease>, now: Time, events: seq<Event>)
    requires Thinned(full, cleaned, now) && Undisturbed(full, cleaned, now, events)
    ensures Thinned(Run(full, events, false), Run(cleaned, events, true), EndOf(now, events))
    ensures now <= EndOf(now, events)
    decreases |events|
  {
    if events != [] {
      StepKeepsThinned(full, cleaned, now, events[0]);
      RunKeepsThinned(StepUnless(full, events[0], false), StepUnless(cleaned, events[0], true), events[0].at, events[1..]);
    }
  }

  lemma StepKeepsThinned(full: seq<Lease>, cleaned: seq<Lease>, now: Time, e: Event)
    requires Thinned(full, cleaned, now) && now <= e.at && DrawsNew(full, e.op)
    requires e.op.Reactivate? && Holds(full, e.op.id) ==> Holds(cleaned, e.op.id)
    requires e.op.RenewBy? ==> !Shadowed(full, cleaned, e.op.query, e.at)
    ensures Thinned(StepUnless(full, e, false), StepUnless(cleaned, e, true), e.at)
  {
    match e.op {
      case Cleanup => CleanupKeepsThinned(full, cleaned, now, e.at);
      case Create(_) => CreateKeepsThinned(full, cleaned, e.op, now, e.at);
      case RenewBy(query) => RenewalKeepsThinned(full, cleaned, query, now, e.at);
      case _ => InPlaceKeepsThinned(full, cleaned, e.op, now, e.at);
    }
  }

  // ---------------------------------------------------------------------------------
  // Answers
  // ---------------------------------------------------------------------------------

  /** What a request learns: it passes without a lease, passes on a certain lease, or is refused. */
  datatype Answer = Unrestricted | Passes(lease: Lease) | Refusal

  function AnswerTo(leases: seq<Lease>, p: Presented, r: Request, auth: Option<Auth>, required: bool, now: Time): Answer {
    match Evaluate(leases, p, r, auth, required, now)
    case Unleased => Unrestricted
    case Admitted(i) => Passes(leases[i])
    case Blocked(_) => Refusal
  }

  lemma PassesExactly(leases: seq<Lease>, p: Presented, r: Request, auth: Option<Auth>, required: bool, now: Time, l: Lease)
    requires Identified(leases)
    ensures AnswerTo(leases, p, r, auth, required, now) == Passes(l) <==> l in leases && Presents(l, p, now) && VerdictOn(l, r, auth, now).None?
  {
    var v := Evaluate(leases, p, r, auth, required, now);
    if v.Admitted? { ResolvesToPresented(leases, p, now, v.index); }
    if l in leases {
      var i :| 0 <= i < |leases| && leases[i] == l;
      ResolvesToPresented(leases, p, now, i);
    }
  }

  lemma SameAnswer(full: seq<Lease>, cleaned: seq<Lease>, p: Presented, r: Request, auth: Option<Auth>, required: bool, now: Time)
    requires Thinned(full, cleaned, now)
    ensures AnswerTo(full, p, r, auth, required, now) == AnswerTo(cleaned, p, r, auth, required, now)
  {
    var a, b := AnswerTo(full, p, r, auth, required, now), AnswerTo(cleaned, p, r, auth, required, now);
    if a.Passes? {
      PassesExactly(full, p, r, auth, required, now, a.lease);
      assert Live(a.lease, now);
      PassesExactly(cleaned, p, r, auth, required, now, a.lease);
    } else if b.Passes? {
      PassesExactly(cleaned, p, r, auth, required, now, b.lease);
      PassesExactly(full, p, r, auth, required, now, b.lease);
    }
  }

  /** A renewal is answered alike unless it is shadowed; then it is denied in full and granted once cleaned. */
  lemma SameRenewal(full: seq<Lease>, cleaned: seq<Lease>, q: RenewRequest, now: Time)
    requires Thinned(full, cleaned, now)
    ensures var (a, b) := (Renew(full, q, now).1, Renew(cleaned, q, now).1);
      if Shadowed(full, cleaned, q, now) then a.Denied? && b.Ok? else (a.Ok? || b.Ok?) ==> a == b
  {
    RenewalReaches(full, cleaned, q, now);
  }

  /**
    Cleanup is transparent: after any undisturbed run, with or without its cleanups, every
    request by header or trusted selection gets the same answer on the same lease; and a renewal
    gets the same token or is denied in both if and only if it is not shadowed.
   */
  lemma CleanupIsTransparent(leases: seq<Lease>, start: Time, events: seq<Event>, now: Time,
                             p: Presented, r: Request, auth: Option<Auth>, required: bool, q: RenewRequest)
    requires Identified(leases) && Undisturbed(leases, leases, start, events) && EndOf(start, events) <= now
    ensures AnswerTo(Run(leases, events, true), p, r, auth, required, now)
         == AnswerTo(Run(leases, events, false), p, r, auth, required, now)
    ensures var (full, cleaned) := (Run(leases, events, false), Run(leases, events, true));
      var (a, b) := (Renew(full, q, now).1, Renew(cleaned, q, now).1);
      Shadowed(full, cleaned, q, now) <==> !((a.Ok? || b.Ok?) ==> a == b)
  {
    RunKeepsThinned(leases, leases, start, events);
    var full, cleaned := Run(leases, events, false), Run(leases, events, true);
    StillThinned(full, cleaned, EndOf(start, events), now);
    SameAnswer(full, cleaned, p, r, auth, required, now);
    SameRenewal(full, cleaned, q, now);
  }

  // ---------------------------------------------------------------------------------
  // One cleanup and one renewal
  // ---------------------------------------------------------------------------------

  /**
    On any store at all, a cleanup changes whether a renewal is granted if and only if the
    first lease of its invite is dead and the first one kept would be renewed. It is then
    granted where it was denied.
   */
  lemma CleanupChangesRenewal(leases: seq<Lease>, q: RenewRequest, now: Time)
    ensures var kept := Kept(leases, now);
      var (i, j) := (First(leases, ByInvite(q.inviteId)), First(kept, ByInvite(q.inviteId)));
      var hidden := i < |leases| && Dead(leases[i], now) && j < |kept| && RenewalDenial(kept[j], q, now).None?;
      var (a, b) := (Renew(leases, q, now).1, Renew(kept, q, now).1);
      && (hidden <==> a.Ok? != b.Ok?) && (hidden ==> b.Ok?) && (!hidden ==> ((a.Ok? || b.Ok?) ==> a == b))
  {
    var kept := Kept(leases, now);
    var i, j := First(leases, ByInvite(q.inviteId)), First(kept, ByInvite(q.inviteId));
    KeptWasThere(leases, now, ByInvite(q.inviteId));
    if i < |leases| && !Dead(leases[i], now) { KeptKeepsFirst(leases, now, ByInvite(q.inviteId)); }
  }

  const NoScope: Scope := Scope(["*"], [], [], [])
  const NoBinding: Binding := Binding([], [], [], [], [], [])

  /** Arguments that create accepts: an hour, renewable for a day with a bearer. */
  function Share(id: string, token: string, inviteId: string): NewLease {
    NewLease(id, "task", token, [], NoScope, NoBinding, 3600 * SECOND, None, Some(inviteId),
             Some(24 * 3600 * SECOND), "secret", Some("bearer"))
  }

  function FourSteps(leases: seq<Lease>, events: seq<Event>, cleaning: bool): seq<Lease>
    requires |events| == 4
  {
    var one := StepUnless(leases, events[0], cleaning);
    var two := StepUnless(one, events[1], cleaning);
    StepUnless(StepUnless(two, events[2], cleaning), events[3], cleaning)
  }

  lemma RunOfFour(leases: seq<Lease>, events: seq<Event>, cleaning: bool)
    requires |events| == 4
    ensures Run(leases, events, cleaning) == FourSteps(leases, events, cleaning)
  {
    var one := StepUnless(leases, events[0], cleaning);
    var two := StepUnless(one, events[1], cleaning);
    var three := StepUnless(two, events[2], cleaning);
    assert Run(leases, events, cleaning) == Run(one, events[1..], cleaning);
    assert events[1..][1..] == events[2..] && events[2..][1..] == events[3..] && events[3..][1..] == [];
    assert Run(one, events[1..], cleaning) == Run(two, events[2..], cleaning);
    assert Run(two, events[2..], cleaning) == Run(three, events[3..], cleaning);
    assert Run(three, events[3..], cleaning) == Run(StepUnless(three, events[3], cleaning), events[3..][1..], cleaning);
  }

  function SharedRun(inviteId: string): seq<Event> {
    [Event(Create(Share("a", "one", inviteId)), 0), Event(Create(Share("b", "two", inviteId)), 0),
     Event(Revoke("a"), 0), Event(Cleanup, 0)]
  }

  lemma SharesAreCreatable(id: string, token: string, inviteId: string)
    ensures Creatable(Share(id, token, inviteId))
  {
    assert "task"[0] == 't';
  }

  /** The stores along that run. */
  lemma SharedStores(inviteId: string)
    ensures var (a, b) := (Created(Share("a", "one", inviteId), 0), Created(Share("b", "two", inviteId), 0));
      && StepStore([], Create(Share("a", "one", inviteId)), 0) == [a]
      && StepStore([a], Create(Share("b", "two", inviteId)), 0) == [a, b]
      && StepStore([a, b], Revoke("a"), 0) == [a.(revokedAt := Some(0)), b]
      && StepStore([a.(revokedAt := Some(0)), b], Cleanup, 0) == [b]
  {
    SharesAreCreatable("a", "one", inviteId);
    SharesAreCreatable("b", "two", inviteId);
    var a, b := Created(Share("a", "one", inviteId), 0), Created(Share("b", "two", inviteId), 0);
    var gone := a.(revokedAt := Some(0));
    assert [a] + [b] == [a, b];
    assert [a, b][0 := gone] == [gone, b];
    assert [gone, b][..1] == [gone] && [gone][..0] == [];
    assert Kept([gone], 0) == [];
    assert Live(b, 0) by { assert Floor(0 + 3600 * SECOND) == 3600 * SECOND; }
  }

  lemma SharedRunIsUndisturbed(inviteId: string)
    ensures Undisturbed([], [], 0, SharedRun(inviteId))
  {
    SharedStores(inviteId);
    var events := SharedRun(inviteId);
    var a, b := Created(Share("a", "one", inviteId), 0), Created(Share("b", "two", inviteId), 0);
    var gone := a.(revokedAt := Some(0));
    assert events[1..][1..] == events[2..] && events[2..][1..] == events[3..] && events[3..][1..] == [];
    assert Undisturbed([gone, b], [b], 0, []);
    assert Undisturbed([gone, b], [gone, b], 0, events[3..]);
    assert Undisturbed([a, b], [a, b], 0, events[2..]);
    assert Undisturbed([a], [a], 0, events[1..]);
  }

  /** The two leases of the invite, asked for at once. */
  lemma SharedRenewals(inviteId: string)
    ensures var (a, b) := (Created(Share("a", "one", inviteId), 0), Created(Share("b", "two", inviteId), 0));
      var q := RenewRequest(inviteId, "secret", "bearer", None, None);
      Renew([a.(revokedAt := Some(0)), b], q, 0).1 == Denied(RevokedLease) && Renew([b], q, 0).1.Ok?
  {
    assert Floor(0 + 24 * 3600 * SECOND) == 24 * 3600 * SECOND;
  }

  /**
    Such stores are reached: two leases created for one invite, the first one revoked, and a
    cleanup. The renewal is denied without the cleanup and granted with it.
   */
  lemma SharedInviteIsNotTransparent(inviteId: string)
    ensures var q := RenewRequest(inviteId, "secret", "bearer", None, None);
      && Undisturbed([], [], 0, SharedRun(inviteId))
      && Renew(Run([], SharedRun(inviteId), false), q, 0).1 == Denied(RevokedLease)
      && Renew(Run([], SharedRun(inviteId), true), q, 0).1.Ok?
  {
    SharedRunIsUndisturbed(inviteId);
    SharedStores(inviteId);
    RunOfFour([], SharedRun(inviteId), false);
    RunOfFour([], SharedRun(inviteId), true);
    SharedRenewals(inviteId);
  }
}
