/**
  The cache sealer of the gateway: JSON responses are buffered message by message and replaced
  by one body whose cache hints are private; anything too large becomes one 502.

  Byte strings are strings of their bytes; JSON coding is a parameter.
 */
module CacheSealer {
  import opened Options
  import opened JsonValues

  datatype Codec = Codec(decode: Bytes -> Option<Json>, encode: Json -> Bytes)

  // ---------------------------------------------------------------------------------
  // The whole-body function
  // ---------------------------------------------------------------------------------

  predicate Cacheable(rpc: Option<string>) {
    rpc.Some? && rpc.value in
      {"server/discover", "tools/list", "prompts/list", "resources/list", "resources/templates/list", "resources/read"}
  }

  datatype Metadata = Metadata(hintsValid: bool, hintsChanged: bool, cacheable: bool)

  datatype Sealed = Sealed(body: Bytes, metadata: Option<Metadata>)

  /** The result object of a plain JSON-RPC response. */
  function ResultOf(payload: Option<Json>): Option<map<string, Json>> {
    if payload.Some? && payload.value.Object?
       && "result" in payload.value.fields && payload.value.fields["result"].Object?
       && "error" !in payload.value.fields && "method" !in payload.value.fields
    then Some(payload.value.fields["result"].fields)
    else None
  }

  predicate IsComplete(result: map<string, Json>, rpc: Option<string>) {
    "resultType" in result && result["resultType"] == Str("complete") && Cacheable(rpc)
  }

  predicate HasHints(result: map<string, Json>) {
    "ttlMs" in result || "cacheScope" in result
  }

  /** Sealing changes the body: there is a result, and it is to be hinted or has hints to lose. */
  predicate Seals(codec: Codec, body: Bytes, rpc: Option<string>) {
    var found := ResultOf(codec.decode(body));
    found.Some? && (IsComplete(found.value, rpc) || HasHints(found.value))
  }

  /** The result with its hints made private, or taken out. */
  function Hinted(result: map<string, Json>, complete: bool): map<string, Json> {
    if complete then result["ttlMs" := Int(0)]["cacheScope" := Str("private")]
    else result - {"ttlMs", "cacheScope"}
  }

  /** The payload that is sealed, from a body that decodes to one. */
  function SealedPayload(codec: Codec, body: Bytes, rpc: Option<string>): Json
    requires Seals(codec, body, rpc)
  {
    var fields := codec.decode(body).value.fields;
    var result := fields["result"].fields;
    Object(fields["result" := Object(Hinted(result, IsComplete(result, rpc)))])
  }

  /** What is sealed from a decoded body can be decoded again. */
  ghost predicate Faithful(codec: Codec) {
    forall body, rpc :: Seals(codec, body, rpc) ==>
      codec.decode(codec.encode(SealedPayload(codec, body, rpc))) == Some(SealedPayload(codec, body, rpc))
  }

  function PrivateResult(codec: Codec, body: Bytes, rpc: Option<string>): Sealed {
    if !Seals(codec, body, rpc) then Sealed(body, None)
    else
      var result := ResultOf(codec.decode(body)).value;
      var complete := IsComplete(result, rpc);
      var ttlIsInt := "ttlMs" in result && result["ttlMs"].Int?;
      var private := "cacheScope" in result && result["cacheScope"] == Str("private");
      var public := "cacheScope" in result && result["cacheScope"] == Str("public");
      Sealed(codec.encode(SealedPayload(codec, body, rpc)),
             Some(Metadata(ttlIsInt && result["ttlMs"].n >= 0 && (private || public),
                           !complete || !ttlIsInt || result["ttlMs"].n != 0 || !private,
                           complete)))
  }

  /**
    What sealing does to a response: a cacheable complete result carries a zero lifetime and
    private scope, any other carries no hint, and every other key and field is untouched.
   */
  lemma SealedIsPrivate(codec: Codec, body: Bytes, rpc: Option<string>)
    requires Faithful(codec) && ResultOf(codec.decode(body)).Some?
    ensures var before := ResultOf(codec.decode(body)).value;
      var sealed := codec.decode(PrivateResult(codec, body, rpc).body);
      var after := ResultOf(sealed);
      && after.Some?
      && (if IsComplete(before, rpc) then
            "ttlMs" in after.value && after.value["ttlMs"] == Int(0)
            && "cacheScope" in after.value && after.value["cacheScope"] == Str("private")
          else "ttlMs" !in after.value && "cacheScope" !in after.value)
      && after.value - {"ttlMs", "cacheScope"} == before - {"ttlMs", "cacheScope"}
      && sealed.value.fields - {"result"} == codec.decode(body).value.fields - {"result"}
  {
    var fields := codec.decode(body).value.fields;
    var before := ResultOf(codec.decode(body)).value;
    var hinted := Hinted(before, IsComplete(before, rpc));
    assert hinted - {"ttlMs", "cacheScope"} == before - {"ttlMs", "cacheScope"};
    assert fields["result" := Object(hinted)] - {"result"} == fields - {"result"};
  }

  /** Sealing twice is sealing once, and the second time nothing changes. */
  lemma SealingIsIdempotent(codec: Codec, body: Bytes, rpc: Option<string>)
    requires Faithful(codec)
    ensures var once := PrivateResult(codec, body, rpc);
      var twice := PrivateResult(codec, once.body, rpc);
      twice.body == once.body && (twice.metadata.Some? ==> !twice.metadata.value.hintsChanged)
  {
    var found := ResultOf(codec.decode(body));
    if Seals(codec, body, rpc) {
      var complete := IsComplete(found.value, rpc);
      var hinted := Hinted(found.value, complete);
      var fields := codec.decode(body).value.fields["result" := Object(hinted)];
      assert ResultOf(Some(Object(fields))) == Some(hinted);
      assert IsComplete(hinted, rpc) == complete;
      if complete {
        assert Hinted(hinted, true) == hinted;
        assert fields["result" := Object(hinted)] == fields;
      }
    }
  }

  /** The metadata says truly whether sealing changes the payload. */
  lemma HintsChangedIsTrue(codec: Codec, body: Bytes, rpc: Option<string>)
    requires Faithful(codec) && PrivateResult(codec, body, rpc).metadata.Some?
    ensures PrivateResult(codec, body, rpc).metadata.value.hintsChanged
        <==> codec.decode(PrivateResult(codec, body, rpc).body) != codec.decode(body)
  {
    var fields := codec.decode(body).value.fields;
    var result := ResultOf(codec.decode(body)).value;
    var complete := IsComplete(result, rpc);
    var hinted := Hinted(result, complete);
    assert fields["result" := Object(hinted)]["result"] == Object(hinted);
    if hinted == result {
      assert fields["result" := Object(hinted)] == fields;
    }
    if complete {
      assert hinted["ttlMs"] == Int(0) && hinted["cacheScope"] == Str("private");
    } else {
      assert "ttlMs" !in hinted && "cacheScope" !in hinted;
    }
  }

  /** Such codecs exist: any that takes back every value it encodes. */
  lemma PlainCodecIsFaithful()
    ensures Faithful(Codec(Decoded, Encoded))
  {
    forall j: Json ensures Decoded(Encoded(j)) == Some(j) { EncodedRoundTrip(j); }
  }

  // ---------------------------------------------------------------------------------
  // Messages and headers
  // ---------------------------------------------------------------------------------

  datatype Header = Header(name: string, value: string)

  datatype Message = Start(status: nat, headers: seq<Header>) | Body(body: Bytes, more: bool) | Other(kind: string)

  function Lower(s: string): string {
    seq(|s|, i requires 0 <= i < |s| => if 'A' <= s[i] <= 'Z' then s[i] - 'A' + 'a' else s[i])
  }

  const CACHE_HEADERS: set<string> :=
    {"cache-control", "expires", "age", "etag", "last-modified", "surrogate-control", "cdn-cache-control"}

  const NO_STORE: Header := Header("cache-control", "no-store")

  /** The headers, in order, whose names are not among these. */
  function Without(headers: seq<Header>, names: set<string>): seq<Header> {
    if headers == [] then []
    else (if Lower(headers[0].name) in names then [] else [headers[0]]) + Without(headers[1..], names)
  }

  function UpToSemicolon(s: string): string {
    if s == "" || s[0] == ';' then "" else [s[0]] + UpToSemicolon(s[1..])
  }

  function ContentType(headers: seq<Header>): string {
    if headers == [] then ""
    else if Lower(headers[0].name) == "content-type" then UpToSemicolon(Lower(headers[0].value))
    else ContentType(headers[1..])
  }

  function Guarded(headers: seq<Header>): seq<Header> {
    Without(headers, CACHE_HEADERS) + [NO_STORE]
  }

  function Decimal(n: nat): (s: string)
    ensures s != ""
  {
    (if n < 10 then "" else Decimal(n / 10)) + [('0' as int + n % 10) as char]
  }

  function Value(s: string): int {
    if s == "" then 0 else 10 * Value(s[..|s| - 1]) + (s[|s| - 1] as int - '0' as int)
  }

  lemma {:induction false} DecimalRoundTrip(n: nat)
    ensures Value(Decimal(n)) == n
  {
    if n >= 10 {
      DecimalRoundTrip(n / 10);
      assert Decimal(n)[..|Decimal(n)| - 1] == Decimal(n / 10);
    }
  }

  function WithLength(headers: seq<Header>, body: Bytes): seq<Header> {
    Without(headers, {"content-length"}) + [Header("content-length", Decimal(|body|))]
  }

  lemma {:induction false} WithoutIs(headers: seq<Header>, names: set<string>, h: Header)
    ensures h in Without(headers, names) <==> h in headers && Lower(h.name) !in names
  {
    if headers != [] { WithoutIs(headers[1..], names, h); }
  }

  const TOO_LARGE: Bytes := "{\"error\":\"MCP JSON result exceeds the gateway response limit\"}"

  const Rejection: seq<Message> :=
    [Start(502, [Header("content-type", "application/json"), NO_STORE, Header("content-length", Decimal(|TOO_LARGE|))]),
     Body(TOO_LARGE, false)]

  // ---------------------------------------------------------------------------------
  // The stream
  // ---------------------------------------------------------------------------------

  /** The variables one request and response share. */
  datatype State = State(
    request: Bytes, requestOverflow: bool, response: Bytes, start: Option<Message>, rejected: bool, sent: seq<Message>)

  const Fresh: State := State("", false, "", None, false, [])

  function Captured(s: State, body: Bytes, limit: nat): State {
    if s.requestOverflow then s
    else if |s.request| + |body| <= limit then s.(request := s.request + body)
    else s.(request := "", requestOverflow := true)
  }

  function Rejected(s: State): State {
    s.(rejected := true, response := "", sent := s.sent + Rejection)
  }

  function MethodOf(codec: Codec, request: Bytes): Option<string> {
    var parsed := codec.decode(request);
    if parsed.Some? && parsed.value.Object? && "method" in parsed.value.fields && parsed.value.fields["method"].Str?
    then Some(parsed.value.fields["method"].s)
    else None
  }

  function SealedBody(codec: Codec, request: Bytes, body: Bytes): Bytes {
    PrivateResult(codec, body, MethodOf(codec, request)).body
  }

  function SafelySent(s: State, m: Message, codec: Codec, limit: nat): State {
    if s.rejected then s
    else
      match m
      case Start(status, headers) =>
        var guarded := Start(status, Guarded(headers));
        if ContentType(guarded.headers) == "application/json" then s.(start := Some(guarded))
        else s.(sent := s.sent + [guarded])
      case Body(body, more) =>
        if s.start.None? then s.(sent := s.sent + [m])
        else if |s.response| + |body| > limit then Rejected(s)
        else if more then s.(response := s.response + body)
        else
          var sealed := SealedBody(codec, s.request, s.response + body);
          if |sealed| > limit then Rejected(s)
          else
            s.(start := None, response := "",
               sent := s.sent + [WithContentLength(s.start.value, sealed), Body(sealed, false)])
      case Other(_) => s.(sent := s.sent + [m])
  }

  function WithContentLength(start: Message, body: Bytes): Message {
    if start.Start? then Start(start.status, WithLength(start.headers, body)) else start
  }

  class Exchange {
    const limit: nat
    const codec: Codec
    var requestBody: Bytes
    var requestOverflow: bool
    var responseBody: Bytes
    var start: Option<Message>
    var rejected: bool
    var sent: seq<Message>

    function Contents(): State
      reads this
    {
      State(requestBody, requestOverflow, responseBody, start, rejected, sent)
    }

    constructor (codec: Codec, limit: nat)
      ensures Contents() == Fresh && this.limit == limit && this.codec == codec
    {
      this.codec, this.limit := codec, limit;
      requestBody, requestOverflow, responseBody, start, rejected, sent := "", false, "", None, false, [];
    }

    method CaptureReceive(body: Bytes)
      modifies `requestBody, `requestOverflow
      ensures Contents() == Captured(old(Contents()), body, limit)
    {
      if !requestOverflow {
        if |requestBody| + |body| <= limit {
          requestBody := requestBody + body;
        } else {
          requestOverflow := true;
          requestBody := "";
        }
      }
    }

    method Send(m: Message)
      modifies `sent
      ensures sent == old(sent) + [m]
    {
      sent := sent + [m];
    }

    method RejectOversized()
      modifies `rejected, `responseBody, `sent
      ensures Contents() == Rejected(old(Contents()))
    {
      rejected := true;
      responseBody := "";
      Send(Rejection[0]);
      Send(Rejection[1]);
      assert old(sent) + Rejection == old(sent) + [Rejection[0]] + [Rejection[1]];
    }

    method CacheSafeSend(m: Message)
      modifies this
      ensures Contents() == SafelySent(old(Contents()), m, codec, limit)
    {
      if rejected {
        return;
      }
      var message := m;
      if m.Start? {
        message := Start(m.status, Guarded(m.headers));
        if ContentType(message.headers) == "application/json" {
          start := Some(message);
          return;
        }
      } else if m.Body? && start.Some? {
        if |responseBody| + |m.body| > limit {
          RejectOversized();
          return;
        }
        responseBody := responseBody + m.body;
        if m.more {
          return;
        }
        var body := PrivateResult(codec, responseBody, MethodOf(codec, requestBody)).body;
        if |body| > limit {
          RejectOversized();
          return;
        }
        ghost var before := sent;
        Send(WithContentLength(start.value, body));
        start := None;
        responseBody := "";
        message := Body(body, false);
        assert before + [sent[|sent| - 1], message] == sent + [message];
      }
      Send(message);
    }
  }

  // ---------------------------------------------------------------------------------
  // Whole runs
  // ---------------------------------------------------------------------------------

  /** The application receives a piece of the request, or sends a message of the response. */
  datatype Event = Receives(body: Bytes) | Sends(message: Message)

  function After(s: State, events: seq<Event>, codec: Codec, limit: nat): State {
    if events == [] then s
    else
      var before := After(s, events[..|events| - 1], codec, limit);
      match events[|events| - 1]
      case Receives(body) => Captured(before, body, limit)
      case Sends(m) => SafelySent(before, m, codec, limit)
  }

  /** In every run both buffers stay within the limit. */
  lemma {:induction false} BuffersStayBounded(events: seq<Event>, codec: Codec, limit: nat)
    ensures var s := After(Fresh, events, codec, limit); |s.request| <= limit && |s.response| <= limit
  {
    if events != [] { BuffersStayBounded(events[..|events| - 1], codec, limit); }
  }

  predicate EndsInRejection(sent: seq<Message>) {
    |Rejection| <= |sent| && sent[|sent| - |Rejection|..] == Rejection
  }

  lemma RejectionEndsIt(s: State, m: Message, codec: Codec, limit: nat)
    requires s.rejected ==> EndsInRejection(s.sent)
    ensures var t := SafelySent(s, m, codec, limit);
      t.rejected ==> EndsInRejection(t.sent)
  {
    if !s.rejected && SafelySent(s, m, codec, limit).rejected {
      assert (s.sent + Rejection)[|s.sent|..] == Rejection;
    }
  }

  /** In every run a rejection is the last thing sent. */
  lemma {:induction false} RejectionIsLast(events: seq<Event>, codec: Codec, limit: nat)
    ensures var s := After(Fresh, events, codec, limit);
      s.rejected ==> EndsInRejection(s.sent)
  {
    if events != [] {
      RejectionIsLast(events[..|events| - 1], codec, limit);
      if events[|events| - 1].Sends? {
        RejectionEndsIt(After(Fresh, events[..|events| - 1], codec, limit), events[|events| - 1].message, codec, limit);
      }
    }
  }

  /** Once rejected, a run stays rejected and sends nothing more, whatever the application does. */
  lemma {:induction false} NothingFollowsRejection(events: seq<Event>, more: seq<Event>, codec: Codec, limit: nat)
    requires After(Fresh, events, codec, limit).rejected
    ensures After(Fresh, events + more, codec, limit).rejected
    ensures After(Fresh, events + more, codec, limit).sent == After(Fresh, events, codec, limit).sent
  {
    if more == [] {
      assert events + more == events;
    } else {
      NothingFollowsRejection(events, more[..|more| - 1], codec, limit);
      assert (events + more)[..|events + more| - 1] == events + more[..|more| - 1];
    }
  }

  // ---------------------------------------------------------------------------------
  // Stream equals whole
  // ---------------------------------------------------------------------------------

  /** All request bytes received. */
  function Requested(events: seq<Event>): Bytes {
    if events == [] then ""
    else
      var e := events[|events| - 1];
      Requested(events[..|events| - 1]) + if e.Receives? then e.body else ""
  }

  /** All response bytes sent in body messages. */
  function Responded(events: seq<Event>): Bytes {
    if events == [] then ""
    else
      var e := events[|events| - 1];
      Responded(events[..|events| - 1]) + if e.Sends? && e.message.Body? then e.message.body else ""
  }

  /** The request as the sealer sees it: all of it, or nothing if it is over the limit. */
  function Visible(request: Bytes, limit: nat): Bytes {
    if |request| <= limit then request else ""
  }

  lemma {:induction false} RequestIsVisible(events: seq<Event>, codec: Codec, limit: nat)
    ensures var s := After(Fresh, events, codec, limit);
      s.request == Visible(Requested(events), limit) && (s.requestOverflow <==> |Requested(events)| > limit)
  {
    if events != [] { RequestIsVisible(events[..|events| - 1], codec, limit); }
  }

  /** A JSON response under way: its start comes first, then only body messages with more to come, requests in between. */
  predicate Streaming(events: seq<Event>, start: Message) {
    && start.Start? && ContentType(Guarded(start.headers)) == "application/json"
    && exists k :: 0 <= k < |events| && StartsAt(events, start, k)
  }

  predicate StartsAt(events: seq<Event>, start: Message, k: nat)
    requires k < |events|
  {
    && events[k] == Sends(start)
    && (forall i :: 0 <= i < k ==> events[i].Receives?)
    && (forall i :: k < i < |events| ==> events[i].Receives? || (events[i].message.Body? && events[i].message.more))
  }

  /** What a client gets for a whole JSON response: one start and one sealed body, or one 502. */
  function Whole(start: Message, request: Bytes, body: Bytes, codec: Codec, limit: nat): seq<Message>
    requires start.Start?
  {
    var sealed := SealedBody(codec, Visible(request, limit), body);
    if |body| > limit || |sealed| > limit then Rejection
    else [Start(start.status, WithLength(Guarded(start.headers), sealed)), Body(sealed, false)]
  }

  lemma {:induction false} BeforeTheStart(events: seq<Event>, codec: Codec, limit: nat)
    requires forall i :: 0 <= i < |events| ==> events[i].Receives?
    ensures var s := After(Fresh, events, codec, limit);
      s.response == "" && s.start == None && !s.rejected && s.sent == [] && Responded(events) == ""
  {
    if events != [] {
      assert events[|events| - 1].Receives?;
      BeforeTheStart(events[..|events| - 1], codec, limit);
    }
  }

  /** While it streams, everything so far is in the buffer and nothing was sent, or it was rejected for its size. */
  lemma {:induction false} StreamingBuffers(events: seq<Event>, start: Message, k: nat, codec: Codec, limit: nat)
    requires k < |events| && start.Start? && ContentType(Guarded(start.headers)) == "application/json"
    requires StartsAt(events, start, k)
    ensures var s := After(Fresh, events, codec, limit);
      if |Responded(events)| > limit then s.rejected && s.sent == Rejection
      else !s.rejected && s.sent == [] && s.start == Some(Start(start.status, Guarded(start.headers)))
           && s.response == Responded(events)
  {
    var front := events[..|events| - 1];
    if k == |events| - 1 {
      BeforeTheStart(front, codec, limit);
    } else {
      assert front[k] == events[k];
      StreamingBuffers(front, start, k, codec, limit);
      var last := events[|events| - 1];
    }
  }

  /**
    Stream equals whole: however a completed JSON response is cut into messages, and however the
    request is received in between, what is sent is a function of the start, the whole request
    and the whole body alone.
   */
  lemma StreamEqualsWhole(events: seq<Event>, start: Message, last: Bytes, codec: Codec, limit: nat)
    requires Streaming(events, start)
    ensures After(Fresh, events + [Sends(Body(last, false))], codec, limit).sent
         == Whole(start, Requested(events), Responded(events) + last, codec, limit)
  {
    var k :| 0 <= k < |events| && StartsAt(events, start, k);
    StreamingBuffers(events, start, k, codec, limit);
    RequestIsVisible(events, codec, limit);
    assert (events + [Sends(Body(last, false))])[..|events|] == events;
  }

  lemma LowerNames()
    ensures Lower("content-length") == "content-length" && Lower(NO_STORE.name) == NO_STORE.name
  {
  }

  /** The start that is sent announces the true length, and forbids caching once and for all. */
  lemma SentHeaders(start: Message, body: Bytes, h: Header)
    requires start.Start? && h in WithLength(Guarded(start.headers), body)
    ensures Lower(h.name) == "content-length" ==> Value(h.value) == |body|
    ensures Lower(h.name) in CACHE_HEADERS ==> h == NO_STORE
    ensures NO_STORE in WithLength(Guarded(start.headers), body)
  {
    var guarded, own := Guarded(start.headers), Header("content-length", Decimal(|body|));
    LowerNames();
    DecimalRoundTrip(|body|);
    WithoutIs(guarded, {"content-length"}, h);
    WithoutIs(guarded, {"content-length"}, NO_STORE);
    WithoutIs(start.headers, CACHE_HEADERS, h);
    InAppended(Without(start.headers, CACHE_HEADERS), NO_STORE, h);
    InAppended(Without(start.headers, CACHE_HEADERS), NO_STORE, NO_STORE);
    InAppended(Without(guarded, {"content-length"}), own, h);
    InAppended(Without(guarded, {"content-length"}), own, NO_STORE);
  }

  lemma InAppended(headers: seq<Header>, last: Header, h: Header)
    ensures h in headers + [last] <==> h in headers || h == last
  {
  }
}
