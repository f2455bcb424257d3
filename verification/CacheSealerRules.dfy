/**
  The cache sealer by the names on the wire: which answers are made private, which headers stay,
  which responses are buffered, and what is sent in the end.
 */
module CacheSealerRules {
  import opened Options
  import opened JsonValues
  import opened CacheSealer

  // ---------------------------------------------------------------------------------
  // Answers
  // ---------------------------------------------------------------------------------

  /** A JSON-RPC answer with this result object, and neither an error nor a method. */
  predicate Answers(payload: Option<Json>, result: map<string, Json>) {
    && payload.Some? && payload.value.Object?
    && var fields := payload.value.fields;
       "result" in fields && fields["result"] == Object(result) && "error" !in fields && "method" !in fields
  }

  /** The request names this method. */
  predicate Names(codec: Codec, request: Bytes, rpc: string) {
    && var parsed := codec.decode(request);
    && parsed.Some? && parsed.value.Object? && "method" in parsed.value.fields && parsed.value.fields["method"] == Str(rpc)
  }

  /** The request lists, discovers or reads. */
  predicate AsksCacheable(codec: Codec, request: Bytes) {
    || Names(codec, request, "server/discover") || Names(codec, request, "tools/list") || Names(codec, request, "prompts/list")
    || Names(codec, request, "resources/list") || Names(codec, request, "resources/templates/list")
    || Names(codec, request, "resources/read")
  }

  predicate IsCompleteResult(result: map<string, Json>) {
    "resultType" in result && result["resultType"] == Str("complete")
  }

  predicate SameBut(before: map<string, Json>, after: map<string, Json>, keys: set<string>) {
    && (forall key :: key in before && key !in keys ==> key in after && after[key] == before[key])
    && (forall key :: key in after && key !in keys ==> key in before)
  }

  /** Both hints set to private, or both gone. */
  predicate HintedAs(result: map<string, Json>, private: bool) {
    if private then
      "ttlMs" in result && result["ttlMs"] == Int(0) && "cacheScope" in result && result["cacheScope"] == Str("private")
    else "ttlMs" !in result && "cacheScope" !in result
  }

  /** What a client reads for an answer: the same answer, with its hints made private or taken out. */
  predicate ReadsSealed(before: Option<Json>, after: Option<Json>, result: map<string, Json>, private: bool)
    requires Answers(before, result)
  {
    && after.Some? && after.value.Object?
    && SameBut(before.value.fields, after.value.fields, {"result"})
    && "result" in after.value.fields && after.value.fields["result"].Object?
    && SameBut(result, after.value.fields["result"].fields, {"ttlMs", "cacheScope"})
    && HintedAs(after.value.fields["result"].fields, private)
  }

  lemma MethodIsNamed(codec: Codec, request: Bytes)
    ensures Cacheable(MethodOf(codec, request)) <==> AsksCacheable(codec, request)
  {
  }

  /**
    Every answer to every request: a complete answer to one of the six methods is read with a
    zero lifetime and private scope, any other without hints, and nothing else of it changes.
   */
  lemma AnswersAreSealed(codec: Codec, request: Bytes, body: Bytes, result: map<string, Json>)
    requires Faithful(codec) && Answers(codec.decode(body), result)
    ensures ReadsSealed(codec.decode(body), codec.decode(SealedBody(codec, request, body)), result,
                        IsCompleteResult(result) && AsksCacheable(codec, request))
  {
    var rpc := MethodOf(codec, request);
    MethodIsNamed(codec, request);
    assert ResultOf(codec.decode(body)) == Some(result);
    if Seals(codec, body, rpc) {
      assert codec.decode(SealedBody(codec, request, body)) == Some(SealedPayload(codec, body, rpc));
    }
  }

  /** A body that is no such answer is sent as it is. */
  lemma OthersAreNotSealed(codec: Codec, request: Bytes, body: Bytes)
    requires forall result :: !Answers(codec.decode(body), result)
    ensures SealedBody(codec, request, body) == body
  {
    var payload := codec.decode(body);
    if payload.Some? && payload.value.Object? && "result" in payload.value.fields && payload.value.fields["result"].Object? {
      assert !Answers(payload, payload.value.fields["result"].fields);
    }
  }

  /** What is recorded of a sealed answer: nothing if it stays as it is, else whether its hints were usable and its method cacheable. */
  lemma RecordedOfAnswers(codec: Codec, request: Bytes, body: Bytes, result: map<string, Json>)
    requires Answers(codec.decode(body), result)
    ensures var (m, private) := (PrivateResult(codec, body, MethodOf(codec, request)).metadata, IsCompleteResult(result) && AsksCacheable(codec, request));
      && (m.Some? <==> private || "ttlMs" in result || "cacheScope" in result)
      && (m.Some? ==>
            && m.value.cacheable == private
            && (m.value.hintsValid <==>
                  && "ttlMs" in result && result["ttlMs"].Int? && result["ttlMs"].n >= 0
                  && "cacheScope" in result && (result["cacheScope"] == Str("private") || result["cacheScope"] == Str("public"))))
  {
    MethodIsNamed(codec, request);
    assert ResultOf(codec.decode(body)) == Some(result);
  }

  // ---------------------------------------------------------------------------------
  // Headers
  // ---------------------------------------------------------------------------------

  /** The lower-case name, in any case. */
  predicate SpelledLike(s: string, name: string) {
    |s| == |name| && forall i :: 0 <= i < |s| ==> s[i] == name[i] || ('A' <= s[i] <= 'Z' && s[i] - 'A' + 'a' == name[i])
  }

  predicate NoCapital(name: string) {
    forall i :: 0 <= i < |name| ==> !('A' <= name[i] <= 'Z')
  }

  lemma LowerIs(s: string, name: string)
    requires NoCapital(name)
    ensures Lower(s) == name <==> SpelledLike(s, name)
  {
    if Lower(s) == name {
      forall i | 0 <= i < |s| ensures s[i] == name[i] || ('A' <= s[i] <= 'Z' && s[i] - 'A' + 'a' == name[i]) {
        assert Lower(s)[i] == name[i];
      }
    }
  }

  predicate IsCacheHeader(h: Header) {
    || SpelledLike(h.name, "cache-control") || SpelledLike(h.name, "expires") || SpelledLike(h.name, "age")
    || SpelledLike(h.name, "etag") || SpelledLike(h.name, "last-modified") || SpelledLike(h.name, "surrogate-control")
    || SpelledLike(h.name, "cdn-cache-control")
  }

  lemma CacheHeadersAre(h: Header)
    ensures Lower(h.name) in CACHE_HEADERS <==> IsCacheHeader(h)
  {
    LowerIs(h.name, "cache-control");
    LowerIs(h.name, "expires");
    LowerIs(h.name, "age");
    LowerIs(h.name, "etag");
    LowerIs(h.name, "last-modified");
    LowerIs(h.name, "surrogate-control");
    LowerIs(h.name, "cdn-cache-control");
  }

  predicate Rising(places: seq<nat>) {
    forall i, j :: 0 <= i < j < |places| ==> places[i] < places[j]
  }

  /** The kept headers stand in the whole list at rising places. */
  predicate At(places: seq<nat>, kept: seq<Header>, headers: seq<Header>) {
    |places| == |kept| && Rising(places) && forall j :: 0 <= j < |places| ==> places[j] < |headers| && headers[places[j]] == kept[j]
  }

  /** The places are those of the headers that are not named. */
  predicate Outside(places: seq<nat>, headers: seq<Header>, names: set<string>) {
    forall i: nat :: i < |headers| ==> (i in places <==> Lower(headers[i].name) !in names)
  }

  function Shifted(places: seq<nat>): (shifted: seq<nat>)
    ensures |shifted| == |places| && forall j :: 0 <= j < |places| ==> shifted[j] == places[j] + 1
  {
    seq(|places|, j requires 0 <= j < |places| => places[j] + 1)
  }

  lemma ShiftedHas(places: seq<nat>, i: nat)
    ensures i in Shifted(places) <==> i > 0 && i - 1 in places
  {
    if i in Shifted(places) { var j :| 0 <= j < |places| && Shifted(places)[j] == i; assert places[j] == i - 1; }
    if i > 0 && i - 1 in places { var j :| 0 <= j < |places| && places[j] == i - 1; assert Shifted(places)[j] == i; }
  }

  lemma AtShifted(places: seq<nat>, kept: seq<Header>, headers: seq<Header>)
    requires headers != [] && At(places, kept, headers[1..])
    ensures At(Shifted(places), kept, headers)
    ensures At([0] + Shifted(places), [headers[0]] + kept, headers)
  {
  }

  lemma OutsideShifted(places: seq<nat>, headers: seq<Header>, names: set<string>)
    requires headers != [] && Outside(places, headers[1..], names)
    ensures Outside(if Lower(headers[0].name) in names then Shifted(places) else [0] + Shifted(places), headers, names)
  {
    forall i: nat | i < |headers| ensures i in Shifted(places) <==> i > 0 && Lower(headers[i].name) !in names {
      ShiftedHas(places, i);
      if i > 0 { assert headers[1..][i - 1] == headers[i]; }
    }
  }

  lemma {:induction false} WithoutAt(headers: seq<Header>, names: set<string>) returns (places: seq<nat>)
    ensures At(places, Without(headers, names), headers) && Outside(places, headers, names)
  {
    places := [];
    if headers != [] {
      var later := WithoutAt(headers[1..], names);
      AtShifted(later, Without(headers[1..], names), headers);
      OutsideShifted(later, headers, names);
      places := if Lower(headers[0].name) in names then Shifted(later) else [0] + Shifted(later);
    }
  }

  /** A guarded start keeps, in order, just the headers that say nothing of caching, and ends by forbidding it. */
  lemma GuardedKeeps(headers: seq<Header>) returns (places: seq<nat>)
    ensures var kept := Guarded(headers);
      && kept != [] && kept[|kept| - 1] == Header("cache-control", "no-store")
      && At(places, kept[..|kept| - 1], headers)
      && forall i: nat :: i < |headers| ==> (i in places <==> !IsCacheHeader(headers[i]))
  {
    places := WithoutAt(headers, CACHE_HEADERS);
    forall i: nat | i < |headers| ensures Lower(headers[i].name) in CACHE_HEADERS <==> IsCacheHeader(headers[i]) {
      CacheHeadersAre(headers[i]);
    }
    assert Guarded(headers)[..|Guarded(headers)| - 1] == Without(headers, CACHE_HEADERS);
  }

  /** The start that goes with a sealed body keeps, in order, all but the old length, and ends with the true one. */
  lemma LengthReplaced(headers: seq<Header>, body: Bytes) returns (places: seq<nat>)
    ensures var kept := WithLength(headers, body);
      && kept != [] && kept[|kept| - 1].name == "content-length" && Value(kept[|kept| - 1].value) == |body|
      && At(places, kept[..|kept| - 1], headers)
      && forall i: nat :: i < |headers| ==> (i in places <==> !SpelledLike(headers[i].name, "content-length"))
  {
    places := WithoutAt(headers, {"content-length"});
    forall i: nat | i < |headers| ensures Lower(headers[i].name) == "content-length" <==> SpelledLike(headers[i].name, "content-length") {
      LowerIs(headers[i].name, "content-length");
    }
    DecimalRoundTrip(|body|);
    assert WithLength(headers, body)[..|WithLength(headers, body)| - 1] == Without(headers, {"content-length"});
  }

  // ---------------------------------------------------------------------------------
  // Which responses are buffered
  // ---------------------------------------------------------------------------------

  /** The media type, in any case, alone or with parameters behind a semicolon. */
  predicate SaysJson(value: string) {
    |value| >= 16 && SpelledLike(value[..16], "application/json") && (|value| > 16 ==> value[16] == ';')
  }

  predicate FirstTyped(headers: seq<Header>, i: nat) {
    i < |headers| && SpelledLike(headers[i].name, "content-type") && forall j :: 0 <= j < i ==> !SpelledLike(headers[j].name, "content-type")
  }

  /** The first content type of the response is JSON. */
  ghost predicate IsJsonResponse(headers: seq<Header>) {
    exists i :: 0 <= i < |headers| && FirstTyped(headers, i) && SaysJson(headers[i].value)
  }

  lemma {:induction false} BeforeSemicolon(s: string, word: string)
    requires ';' !in word
    ensures UpToSemicolon(s) == word <==> |s| >= |word| && s[..|word|] == word && (|s| > |word| ==> s[|word|] == ';')
  {
    if s == "" || s[0] == ';' {
      assert |s| >= |word| > 0 ==> s[..|word|][0] == s[0];
    } else if word != "" {
      BeforeSemicolon(s[1..], word[1..]);
      assert word == [word[0]] + word[1..];
      assert |s| >= |word| ==> s[..|word|] == [s[0]] + s[1..][..|word| - 1];
    }
  }

  lemma JsonTypeIs(value: string)
    ensures UpToSemicolon(Lower(value)) == "application/json" <==> SaysJson(value)
  {
    var s := Lower(value);
    BeforeSemicolon(s, "application/json");
    if |value| >= 16 {
      assert s[..16] == Lower(value[..16]);
      LowerIs(value[..16], "application/json");
    }
  }

  lemma {:induction false} ContentTypeIs(headers: seq<Header>)
    ensures ContentType(headers) == "application/json" <==> IsJsonResponse(headers)
  {
    if headers != [] {
      var tail := headers[1..];
      LowerIs(headers[0].name, "content-type");
      JsonTypeIs(headers[0].value);
      ContentTypeIs(tail);
      if SpelledLike(headers[0].name, "content-type") {
        assert FirstTyped(headers, 0);
      } else {
        if IsJsonResponse(tail) {
          var i :| 0 <= i < |tail| && FirstTyped(tail, i) && SaysJson(tail[i].value);
          assert FirstTyped(headers, i + 1) && SaysJson(headers[i + 1].value);
        }
        if IsJsonResponse(headers) {
          var i :| 0 <= i < |headers| && FirstTyped(headers, i) && SaysJson(headers[i].value);
          assert FirstTyped(tail, i - 1) && SaysJson(tail[i - 1].value);
        }
      }
    }
  }

  lemma {:induction false} WithoutKeepsType(headers: seq<Header>, names: set<string>, last: Header)
    requires "content-type" !in names && Lower(last.name) != "content-type"
    ensures ContentType(Without(headers, names) + [last]) == ContentType(headers)
  {
    if headers == [] {
      assert Without(headers, names) + [last] == [last];
    } else {
      WithoutKeepsType(headers[1..], names, last);
      var rest := Without(headers[1..], names) + [last];
      assert Without(headers, names) + [last] == if Lower(headers[0].name) in names then rest else [headers[0]] + rest;
    }
  }

  /** A response is buffered exactly if its first content type is JSON. */
  lemma BufferedIsJson(headers: seq<Header>)
    ensures ContentType(Guarded(headers)) == "application/json" <==> IsJsonResponse(headers)
  {
    assert "content-type" !in CACHE_HEADERS && Lower(NO_STORE.name) != "content-type" by {
      LowerNames();
      assert |"content-type"| == 12;
    }
    WithoutKeepsType(headers, CACHE_HEADERS, NO_STORE);
    ContentTypeIs(headers);
  }

  // ---------------------------------------------------------------------------------
  // What is sent
  // ---------------------------------------------------------------------------------

  /** The rejection in full. */
  lemma RejectionIs()
    ensures Rejection ==
      [Start(502, [Header("content-type", "application/json"), Header("cache-control", "no-store"), Header("content-length", "62")]),
       Body("{\"error\":\"MCP JSON result exceeds the gateway response limit\"}", false)]
  {
    assert |TOO_LARGE| == 62;
    assert ('0' as int + 2) as char == '2' && ('0' as int + 6) as char == '6';
    assert Decimal(6) == "6" && Decimal(62) == Decimal(6) + "2";
    assert Decimal(62) == "62";
  }

  function GuardedMessage(m: Message): Message {
    if m.Start? then Start(m.status, Guarded(m.headers)) else m
  }

  function PassedOn(events: seq<Event>): seq<Message> {
    if events == [] then []
    else
      var e := events[|events| - 1];
      PassedOn(events[..|events| - 1]) + if e.Sends? then [GuardedMessage(e.message)] else []
  }

  ghost predicate NoJson(events: seq<Event>) {
    forall i :: 0 <= i < |events| && events[i].Sends? && events[i].message.Start? ==> !IsJsonResponse(events[i].message.headers)
  }

  /** Whatever is not JSON goes through message by message, of any size, with only its headers guarded. */
  lemma {:induction false} OtherResponsesPass(events: seq<Event>, codec: Codec, limit: nat)
    requires NoJson(events)
    ensures var s := After(Fresh, events, codec, limit);
      s.sent == PassedOn(events) && !s.rejected && s.start.None?
  {
    if events != [] {
      var last := events[|events| - 1];
      OtherResponsesPass(events[..|events| - 1], codec, limit);
      if last.Sends? && last.message.Start? { BufferedIsJson(last.message.headers); }
    }
  }

  /** One start and one body, both within the rules above, or the one rejection, for the sizes alone. */
  predicate Delivered(sent: seq<Message>, status: nat, headers: seq<Header>, sealed: Bytes, size: nat, limit: nat) {
    if size > limit || |sealed| > limit then sent == Rejection
    else sent == [Start(status, WithLength(Guarded(headers), sealed)), Body(sealed, false)]
  }

  /**
    Over every run that completes a JSON answer, however it is cut: it is delivered whole, and
    what the client reads is private if it is complete and the request was within the limit and
    names one of the six methods, and unhinted otherwise. The empty string is no JSON text.
   */
  lemma StreamedAnswersAreSealed(
      events: seq<Event>, start: Message, last: Bytes, codec: Codec, limit: nat, result: map<string, Json>) returns (sealed: Bytes)
    requires Streaming(events, start) && Faithful(codec) && codec.decode("").None?
    requires Answers(codec.decode(Responded(events) + last), result)
    ensures Delivered(After(Fresh, events + [Sends(Body(last, false))], codec, limit).sent,
                      start.status, start.headers, sealed, |Responded(events)| + |last|, limit)
    ensures ReadsSealed(codec.decode(Responded(events) + last), codec.decode(sealed), result,
                        IsCompleteResult(result) && |Requested(events)| <= limit && AsksCacheable(codec, Requested(events)))
  {
    StreamEqualsWhole(events, start, last, codec, limit);
    var request := Visible(Requested(events), limit);
    sealed := SealedBody(codec, request, Responded(events) + last);
    AnswersAreSealed(codec, request, Responded(events) + last, result);
  }
}
