/**
  The two tasks of a forwarded request that share one `receive`: the forwarder, whose body
  generator relays the request chunks upstream, and the watcher that waits for the client to
  disconnect. The steps of the two tasks, of the HTTP client driving the generator, and of the
  supervisor interleave freely; each step runs from one await to the next.
 */
module HttpBodyRelay {
  type Bytes = seq<bv8>

  datatype Message = Chunk(body: Bytes, more: bool) | Disconnect

  /**
    Where the forwarder is. `Opening`: the first message is in hand and the generator has not
    started. `Suspended`: the generator has yielded the body of its message. `Drained`: the
    generator has returned, or there was no body to generate.
   */
  datatype Forwarder = AwaitFirst | Opening(first: Message) | Suspended(last: Message) | AwaitNext | Drained | Ended

  datatype Watcher = AwaitBodyDone | AwaitMessage | Finished

  /** `taken` and `watched` are what each task received, `delivered` is both in order of arrival. */
  datatype State = State(
    forwarder: Forwarder, watcher: Watcher, bodyDone: bool, cancelled: bool,
    yielded: seq<Bytes>, taken: seq<Message>, watched: seq<Message>, delivered: seq<Message>)

  const Start: State := State(AwaitFirst, AwaitBodyDone, false, false, [], [], [], [])

  datatype Event =
    | ToForwarder(message: Message)   // `receive` answers the forwarder
    | ToWatcher(message: Message)     // `receive` answers the watcher
    | Pull                            // the client asks the generator for the next chunk
    | Close                           // the exchange ends: response complete, or upstream failure
    | Wake                            // the watcher sees the event set
    | Cancel                          // one task is done, the supervisor cancels the other

  predicate ForwarderWaits(s: State) {
    s.forwarder.AwaitFirst? || s.forwarder.AwaitNext?
  }

  predicate WatcherWaits(s: State) {
    s.watcher.AwaitMessage?
  }

  predicate Enabled(s: State, e: Event) {
    match e
    case ToForwarder(_) => ForwarderWaits(s)
    case ToWatcher(_) => WatcherWaits(s)
    case Pull => s.forwarder.Opening? || s.forwarder.Suspended?
    case Close => s.forwarder.Opening? || s.forwarder.Suspended? || s.forwarder.Drained?
    case Wake => s.watcher.AwaitBodyDone? && s.bodyDone
    case Cancel => !s.cancelled && (s.forwarder.Ended? || s.watcher.Finished?)
  }

  /** The generator with a message in hand: it raises on a disconnect, else sets the event on the last chunk and yields. */
  function Generate(s: State, m: Message): State {
    match m
    case Disconnect => s.(forwarder := Ended)
    case Chunk(body, more) =>
      s.(forwarder := Suspended(m), bodyDone := s.bodyDone || !more, yielded := s.yielded + [body])
  }

  function Step(s: State, e: Event): State
    requires Enabled(s, e)
  {
    match e
    case ToForwarder(m) =>
      var t := s.(taken := s.taken + [m], delivered := s.delivered + [m]);
      if s.forwarder.AwaitNext? then Generate(t, m)
      else if m.Disconnect? then t.(forwarder := Ended)
      else if m == Chunk([], false) then t.(forwarder := Drained, bodyDone := true)
      else t.(forwarder := Opening(m))
    case ToWatcher(m) =>
      s.(watched := s.watched + [m], delivered := s.delivered + [m], watcher := if m.Disconnect? then Finished else AwaitMessage)
    case Pull =>
      if s.forwarder.Opening? then Generate(s, s.forwarder.first)
      else if s.forwarder.last == Disconnect || !s.forwarder.last.more then s.(forwarder := Drained)
      else s.(forwarder := AwaitNext)
    case Close => s.(forwarder := Ended)
    case Wake => s.(watcher := AwaitMessage)
    case Cancel => s.(forwarder := Ended, watcher := Finished, cancelled := true)
  }

  predicate ValidRun(s: State, events: seq<Event>)
    decreases |events|
  {
    events == [] || (Enabled(s, events[0]) && ValidRun(Step(s, events[0]), events[1..]))
  }

  function After(s: State, events: seq<Event>): State
    requires ValidRun(s, events)
    decreases |events|
  {
    if events == [] then s else After(Step(s, events[0]), events[1..])
  }

  // ---------------------------------------------------------------------------------
  // The invariant
  // ---------------------------------------------------------------------------------

  /** Chunks with more to come. */
  predicate Partial(messages: seq<Message>) {
    forall i :: 0 <= i < |messages| ==> messages[i].Chunk? && messages[i].more
  }

  /** A whole request body: chunks of which only the last has nothing after it. */
  predicate Complete(messages: seq<Message>) {
    var n := |messages|;
    n > 0 && Partial(messages[..n - 1]) && messages[n - 1].Chunk? && !messages[n - 1].more
  }

  function Bodies(messages: seq<Message>): seq<Bytes> {
    if messages == [] then []
    else
      var last := messages[|messages| - 1];
      Bodies(messages[..|messages| - 1]) + if last.Chunk? then [last.body] else []
  }

  function Flat(chunks: seq<Bytes>): Bytes {
    if chunks == [] then [] else Flat(chunks[..|chunks| - 1]) + chunks[|chunks| - 1]
  }

  predicate LastIs(messages: seq<Message>, m: Message) {
    messages != [] && messages[|messages| - 1] == m
  }

  /** What the forwarder has done with the messages it took. */
  predicate Relayed(s: State) {
    match s.forwarder
    case AwaitFirst => s.taken == [] && s.yielded == [] && !s.bodyDone
    case Opening(first) => first.Chunk? && s.taken == [first] && s.yielded == [] && !s.bodyDone
    case Suspended(last) =>
      last.Chunk? && LastIs(s.taken, last) && s.yielded == Bodies(s.taken) && (if last.more then Partial(s.taken) else s.bodyDone)
    case AwaitNext => s.taken != [] && Partial(s.taken) && s.yielded == Bodies(s.taken)
    case Drained => s.bodyDone && Sent(s)
    case Ended => Sent(s) || (|s.taken| == 1 && s.yielded == [])
  }

  /** Every chunk taken was yielded, but for the lone empty body, which needs no chunk. */
  predicate Sent(s: State) {
    s.yielded == Bodies(s.taken) || (s.taken == [Chunk([], false)] && s.yielded == [])
  }

  predicate Inv(s: State) {
    && s.delivered == s.taken + s.watched
    && (s.bodyDone ==> Complete(s.taken))
    && (!s.bodyDone ==> s.watched == [] && (s.watcher.AwaitBodyDone? || s.cancelled))
    && (s.bodyDone ==> !ForwarderWaits(s))
    && Relayed(s)
    && (s.cancelled ==> s.forwarder.Ended? && s.watcher.Finished?)
  }

  lemma BodiesOneMore(messages: seq<Message>, m: Message)
    ensures Bodies(messages + [m]) == Bodies(messages) + if m.Chunk? then [m.body] else []
  {
    assert (messages + [m])[..|messages|] == messages;
  }

  lemma PartialOneMore(messages: seq<Message>, m: Message)
    requires Partial(messages) && m.Chunk?
    ensures if m.more then Partial(messages + [m]) else Complete(messages + [m])
  {
    assert (messages + [m])[..|messages|] == messages;
  }

  lemma FirstKeepsInv(s: State, m: Message)
    requires Inv(s) && s.forwarder.AwaitFirst?
    ensures Inv(Step(s, ToForwarder(m)))
  {
    assert s.taken + [m] == [m] == s.delivered + [m] == [m] + [];
    assert [m][..0] == [];
    if m.Chunk? && m.body == [] && !m.more { assert Complete([m]); }
  }

  lemma NextKeepsInv(s: State, m: Message)
    requires Inv(s) && s.forwarder.AwaitNext?
    ensures Inv(Step(s, ToForwarder(m)))
  {
    assert s.delivered + [m] == (s.taken + [m]) + [];
    BodiesOneMore(s.taken, m);
    if m.Chunk? { PartialOneMore(s.taken, m); }
  }

  lemma StepKeepsInv(s: State, e: Event)
    requires Inv(s) && Enabled(s, e)
    ensures Inv(Step(s, e))
  {
    match e
    case ToForwarder(m) => if s.forwarder.AwaitFirst? { FirstKeepsInv(s, m); } else { NextKeepsInv(s, m); }
    case ToWatcher(m) => assert s.delivered + [m] == s.taken + (s.watched + [m]);
    case Pull =>
      if s.forwarder.Opening? {
        BodiesOneMore([], s.forwarder.first);
        assert [] + [s.forwarder.first] == s.taken;
        PartialOneMore([], s.forwarder.first);
      }
    case _ =>
  }

  lemma {:induction false} RunKeepsInv(s: State, events: seq<Event>)
    requires Inv(s) && ValidRun(s, events)
    ensures Inv(After(s, events))
    decreases |events|
  {
    if events != [] {
      StepKeepsInv(s, events[0]);
      RunKeepsInv(Step(s, events[0]), events[1..]);
    }
  }

  // ---------------------------------------------------------------------------------
  // The protocol
  // ---------------------------------------------------------------------------------

  /** In no interleaving do both tasks wait on `receive`. */
  lemma NeverBothWaiting(events: seq<Event>)
    requires ValidRun(Start, events)
    ensures !(ForwarderWaits(After(Start, events)) && WatcherWaits(After(Start, events)))
  {
    RunKeepsInv(Start, events);
  }

  /** The watcher receives nothing before the forwarder has the whole body, and the forwarder nothing after. */
  lemma WatcherComesAfterTheBody(events: seq<Event>)
    requires ValidRun(Start, events)
    ensures var s := After(Start, events);
      && s.delivered == s.taken + s.watched
      && (s.watched != [] || WatcherWaits(s) ==> Complete(s.taken))
  {
    RunKeepsInv(Start, events);
  }

  lemma {:induction false} FlatBodies(messages: seq<Message>)
    requires Partial(messages) || Complete(messages)
    ensures |Bodies(messages)| == |messages|
    ensures forall i :: 0 <= i < |messages| ==> messages[i].Chunk? && Bodies(messages)[i] == messages[i].body
  {
    if messages != [] {
      var n := |messages| - 1;
      assert Partial(messages[..n]);
      FlatBodies(messages[..n]);
      forall i | 0 <= i < n ensures messages[i].Chunk? && Bodies(messages)[i] == messages[i].body {
        assert messages[..n][i] == messages[i];
      }
    }
  }

  /**
    While the generator runs, what was yielded upstream is what was received, chunk by chunk in
    order; once it has drained, the upstream body is the client's whole body; and after the
    exchange has ended, all that was received was relayed, or only a first message was received
    and the generator never started.
   */
  lemma BytesAreRelayed(events: seq<Event>)
    requires ValidRun(Start, events)
    ensures var s := After(Start, events);
      s.forwarder.Suspended? || s.forwarder.AwaitNext? ==>
        && |s.yielded| == |s.taken|
        && forall i :: 0 <= i < |s.taken| ==> s.taken[i].Chunk? && s.yielded[i] == s.taken[i].body
    ensures var s := After(Start, events);
      s.forwarder.Drained? ==> Complete(s.taken) && Flat(s.yielded) == Flat(Bodies(s.taken))
    ensures var s := After(Start, events);
      s.forwarder.Ended? ==> Flat(s.yielded) == Flat(Bodies(s.taken)) || (|s.taken| == 1 && s.yielded == [])
  {
    RunKeepsInv(Start, events);
    var s := After(Start, events);
    if s.forwarder.Suspended? || s.forwarder.AwaitNext? {
      FlatBodies(s.taken);
    }
    if s.taken == [Chunk([], false)] {
      assert s.taken[..0] == [];
      assert Bodies(s.taken) == [[]];
      var lone: seq<Bytes> := [[]];
      assert lone[..0] == [] && Flat(lone) == [];
    }
  }

  /** Once the last chunk is taken and the generator has passed it, the watcher is awake or can wake. */
  lemma WatcherIsNotForgotten(events: seq<Event>)
    requires ValidRun(Start, events) && Complete(After(Start, events).taken)
    ensures var s := After(Start, events);
      s.forwarder.Suspended? || s.forwarder.Drained? ==> !s.watcher.AwaitBodyDone? || Enabled(s, Wake)
  {
    RunKeepsInv(Start, events);
    var s := After(Start, events);
    if s.forwarder.Suspended? { assert s.taken[|s.taken| - 1] == s.forwarder.last; }
  }

  // ---------------------------------------------------------------------------------
  // How the tasks end
  // ---------------------------------------------------------------------------------

  /** A disconnect can only be the last of these. */
  predicate DisconnectsLast(messages: seq<Message>) {
    forall i :: 0 <= i < |messages| - 1 ==> messages[i].Chunk?
  }

  /** Who has heard of a disconnect, and what an empty request leaves. */
  predicate Heard(s: State) {
    && DisconnectsLast(s.taken) && DisconnectsLast(s.watched)
    && (LastIs(s.taken, Disconnect) ==> s.forwarder.Ended?)
    && (LastIs(s.watched, Disconnect) ==> s.watcher.Finished?)
    && (s.watcher.Finished? && !s.cancelled ==> LastIs(s.watched, Disconnect))
    && (LastIs(s.taken, Disconnect) ==> s.watched == [])
    && (s.taken != [] && s.taken[0] == Chunk([], false) ==> s.yielded == [] && (s.forwarder.Drained? || s.forwarder.Ended?))
  }

  lemma HeardOneMore(messages: seq<Message>, m: Message)
    requires DisconnectsLast(messages) && !LastIs(messages, Disconnect)
    ensures DisconnectsLast(messages + [m])
  {
  }

  lemma StepKeepsHeard(s: State, e: Event)
    requires Inv(s) && Heard(s) && Enabled(s, e)
    ensures Heard(Step(s, e))
  {
    match e
    case ToForwarder(m) =>
      if s.forwarder.AwaitNext? { FlatBodies(s.taken); }
      HeardOneMore(s.taken, m);
    case ToWatcher(m) => HeardOneMore(s.watched, m);
    case Pull => assert s.forwarder.Opening? ==> s.taken[0] == s.forwarder.first;
    case _ =>
  }

  lemma {:induction false} RunKeepsHeard(s: State, events: seq<Event>)
    requires Inv(s) && Heard(s) && ValidRun(s, events)
    ensures Heard(After(s, events))
    decreases |events|
  {
    if events != [] {
      StepKeepsInv(s, events[0]);
      StepKeepsHeard(s, events[0]);
      RunKeepsHeard(Step(s, events[0]), events[1..]);
    }
  }

  /**
    The watcher ends by itself if and only if it was told of a disconnect, and then at once; a
    forwarder told of one ends at once as well, and leaves nothing for the watcher to hear.
   */
  lemma DisconnectEndsTheTasks(events: seq<Event>)
    requires ValidRun(Start, events)
    ensures var s := After(Start, events);
      && (!s.cancelled ==> (s.watcher.Finished? <==> Disconnect in s.watched))
      && (Disconnect in s.watched ==> LastIs(s.watched, Disconnect) && Disconnect !in s.taken)
      && (Disconnect in s.taken ==> LastIs(s.taken, Disconnect) && s.forwarder.Ended? && s.watched == [])
  {
    RunKeepsHeard(Start, events);
  }

  /** A request without a body is forwarded without a chunk; any other first chunk is the first one yielded. */
  lemma EmptyRequestYieldsNothing(events: seq<Event>)
    requires ValidRun(Start, events) && After(Start, events).taken != []
    ensures var s := After(Start, events);
      if s.taken[0] == Chunk([], false) then s.yielded == []
      else s.yielded != [] ==> s.taken[0].Chunk? && s.yielded[0] == s.taken[0].body
    ensures var s := After(Start, events);
      s.taken[0] != Chunk([], false) && s.forwarder.Drained? ==> s.yielded == Bodies(s.taken)
  {
    RunKeepsInv(Start, events);
    RunKeepsHeard(Start, events);
    var s := After(Start, events);
    if s.yielded != [] && s.yielded == Bodies(s.taken) { BodiesBegin(s.taken); }
  }

  lemma {:induction false} BodiesBegin(messages: seq<Message>)
    requires DisconnectsLast(messages) && Bodies(messages) != []
    ensures messages[0].Chunk? && Bodies(messages)[0] == messages[0].body
  {
    var front := messages[..|messages| - 1];
    if |messages| > 1 {
      assert front[0] == messages[0] && messages[0].Chunk?;
      BodiesOfChunk(front);
      BodiesBegin(front);
    }
  }

  lemma {:induction false} BodiesOfChunk(messages: seq<Message>)
    requires messages != [] && messages[0].Chunk?
    ensures Bodies(messages) != []
  {
    if |messages| > 1 { BodiesOfChunk(messages[..|messages| - 1]); }
  }

  /** A run never gets stuck: something can happen until one task is done and the other cancelled, and nothing after. */
  lemma RunsUntilCancelled(events: seq<Event>)
    requires ValidRun(Start, events)
    ensures var s := After(Start, events);
      s.cancelled <==> forall e :: !Enabled(s, e)
  {
    RunKeepsInv(Start, events);
    var s := After(Start, events);
    if !s.cancelled {
      assert Enabled(s, if s.forwarder.Ended? || s.watcher.Finished? then Cancel
                        else if ForwarderWaits(s) then ToForwarder(Disconnect) else Close);
    }
  }
}
