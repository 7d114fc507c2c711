/** The stream handler of budget enforcement: one gRPC stream per request, whose bodies arrive in
chunks. It checks the budget when the request body is complete and charges the actual cost when
the response body is complete. */
module BudgetStream {
  import opened Model
  import Ledger
  import LedgerService
  import PriceCache
  import SpendLaws

  newtype Byte = x: int | 0 <= x < 256
  type Bytes = seq<Byte>

  datatype Tokens = Tokens(input: int, output: int)

  datatype Message =
    | RequestHeaders(requestId: RequestId, headers: map<string, string>, context: map<string, string>)
    | RequestBody(chunk: Bytes, endOfStream: bool)
    | ResponseHeaders
    | ResponseBody(chunk: Bytes, endOfStream: bool)
    | Unsupported

  /** The two service calls a stream makes. */
  datatype Call =
    | CheckAndReserve(context: map<string, string>, modelId: string, requestId: RequestId)
    | Decrement(requestId: RequestId, modelId: string, tokens: Tokens, limitedAt: Option<Id>)

  datatype Receipt = Receipt(actualCost: Money, remaining: Money)

  datatype Reason = CheckFailed | BudgetExceeded

  datatype Output =
    | ContinueWithId(requestId: RequestId)
    | Continue
    | ForwardRequest(chunk: Bytes, endOfStream: bool)
    | ForwardResponse(chunk: Bytes, endOfStream: bool, receipt: Option<Receipt>)
    | Reject(reason: Reason)

  /** The parts the handler only calls: the JSON fields it looks for, and the service, whose
      answer may depend on everything it was asked so far. */
  datatype Env = Env(
    modelField: Bytes -> string,
    openaiUsage: Bytes -> Tokens,
    anthropicUsage: Bytes -> Tokens,
    modelHeader: string,
    check: seq<Call> -> LedgerService.CheckResult,
    settle: seq<Call> -> Option<Receipt>)

  datatype RequestState = RequestState(
    requestId: RequestId,
    modelId: string,
    headers: map<string, string>,
    context: map<string, string>,
    limitedAt: Option<Id>,
    streamingBuffer: Bytes,
    budgetChecked: bool,
    requestBody: Bytes)

  /** A stream's state together with the calls it made and the messages it sent. */
  datatype Session = Session(state: Option<RequestState>, calls: seq<Call>, sent: seq<Output>)

  const IDLE := Session(None, [], [])

  /** The body's "model" field, else the configured header, else nothing. */
  function ExtractModel(env: Env, body: Bytes, headers: map<string, string>): string {
    if |body| > 0 && env.modelField(body) != "" then env.modelField(body)
    else if env.modelHeader != "" && env.modelHeader in headers then headers[env.modelHeader]
    else ""
  }

  predicate AnyPositive(t: Tokens) {
    t.input > 0 || t.output > 0
  }

  function TokenUsage(env: Env, body: Bytes): Tokens {
    if AnyPositive(env.openaiUsage(body)) then env.openaiUsage(body)
    else if AnyPositive(env.anthropicUsage(body)) then env.anthropicUsage(body)
    else Tokens(0, 0)
  }

  /** RateLimitedAt of a check's answer. */
  function LimitOf(r: LedgerService.CheckResult): Option<Id> {
    if r.RateLimited? then Some(r.at) else None
  }

  predicate Allowed(r: LedgerService.CheckResult) {
    r.NoBudgets? || r.Reserved?
  }

  // ---------- what one message does ----------

  function OnRequestBody(env: Env, s: Session, chunk: Bytes, endOfStream: bool): Session {
    var forward := ForwardRequest(chunk, endOfStream);
    if s.state.None? then s.(sent := s.sent + [forward])
    else
      var st := s.state.value.(requestBody := s.state.value.requestBody + chunk);
      if !endOfStream || st.budgetChecked then s.(state := Some(st), sent := s.sent + [forward])
      else
        var model := if st.modelId == "" then ExtractModel(env, st.requestBody, st.headers) else st.modelId;
        var calls := s.calls + [CheckAndReserve(st.context, model, st.requestId)];
        match env.check(calls)
        case CommitFailed => Session(Some(st.(modelId := model)), calls, s.sent + [Reject(CheckFailed)])
        case RateLimited(_, _) =>
          Session(Some(st.(modelId := model, budgetChecked := true)), calls, s.sent + [Reject(BudgetExceeded)])
        case _ =>
          Session(Some(st.(modelId := model, budgetChecked := true, limitedAt := LimitOf(env.check(calls)))),
                  calls, s.sent + [forward])
  }

  function OnResponseBody(env: Env, s: Session, chunk: Bytes, endOfStream: bool): Session {
    if s.state.None? then s.(sent := s.sent + [ForwardResponse(chunk, endOfStream, None)])
    else
      var st := s.state.value.(streamingBuffer := s.state.value.streamingBuffer + chunk);
      if !endOfStream then s.(state := Some(st), sent := s.sent + [ForwardResponse(chunk, false, None)])
      else
        var model := if st.modelId == "" then env.modelField(st.streamingBuffer) else st.modelId;
        var calls := s.calls
          + [Decrement(st.requestId, model, TokenUsage(env, st.streamingBuffer), st.limitedAt)];
        Session(Some(st.(modelId := model)), calls, s.sent + [ForwardResponse(chunk, true, env.settle(calls))])
  }

  function OnMessage(env: Env, s: Session, m: Message): Session {
    match m
    case RequestHeaders(id, headers, context) =>
      Session(Some(RequestState(id, "", headers, context, None, [], false, [])), s.calls,
              s.sent + [ContinueWithId(id)])
    case RequestBody(chunk, endOfStream) => OnRequestBody(env, s, chunk, endOfStream)
    case ResponseHeaders => s.(sent := s.sent + [Continue])
    case ResponseBody(chunk, endOfStream) => OnResponseBody(env, s, chunk, endOfStream)
    case Unsupported => s
  }

  /** A stream from session `s` on. */
  function Handle(env: Env, s: Session, ms: seq<Message>): Session
    decreases ms
  {
    if ms == [] then s else Handle(env, OnMessage(env, s, ms[0]), ms[1..])
  }

  lemma {:induction false} HandleAppend(env: Env, s: Session, ms: seq<Message>, ns: seq<Message>)
    ensures Handle(env, s, ms + ns) == Handle(env, Handle(env, s, ms), ns)
    decreases ms
  {
    if ms == [] {
      assert ms + ns == ns;
    } else {
      assert (ms + ns)[1..] == ms[1..] + ns;
      HandleAppend(env, OnMessage(env, s, ms[0]), ms[1..], ns);
    }
  }

  // ---------- bytes in and out ----------

  function Concat(chunks: seq<Bytes>): Bytes {
    if chunks == [] then [] else chunks[0] + Concat(chunks[1..])
  }

  function RequestBytesIn(ms: seq<Message>): Bytes {
    if ms == [] then []
    else (if ms[0].RequestBody? then ms[0].chunk else []) + RequestBytesIn(ms[1..])
  }

  function ResponseBytesIn(ms: seq<Message>): Bytes {
    if ms == [] then []
    else (if ms[0].ResponseBody? then ms[0].chunk else []) + ResponseBytesIn(ms[1..])
  }

  function RequestBytesOut(os: seq<Output>): Bytes {
    if os == [] then []
    else RequestBytesOut(os[..|os| - 1])
         + if os[|os| - 1].ForwardRequest? then os[|os| - 1].chunk else []
  }

  function ResponseBytesOut(os: seq<Output>): Bytes {
    if os == [] then []
    else ResponseBytesOut(os[..|os| - 1])
         + if os[|os| - 1].ForwardResponse? then os[|os| - 1].chunk else []
  }

  ghost predicate Rejects(os: seq<Output>) {
    exists i :: 0 <= i < |os| && os[i].Reject?
  }

  lemma SentGrows(env: Env, s: Session, m: Message)
    ensures var t := OnMessage(env, s, m);
      && (Rejects(s.sent) ==> Rejects(t.sent))
      && ResponseBytesOut(t.sent) == ResponseBytesOut(s.sent) + (if m.ResponseBody? then m.chunk else [])
      && (!Rejects(t.sent) ==>
            RequestBytesOut(t.sent) == RequestBytesOut(s.sent) + (if m.RequestBody? then m.chunk else []))
  {
    var t := OnMessage(env, s, m);
    if !m.Unsupported? {
      var n := |s.sent|;
      assert |t.sent| == n + 1 && t.sent[..n] == s.sent;
    }
  }

  /** A stream is transparent: whatever the messages, it forwards exactly the response bytes it
      received, and exactly the request bytes unless it rejected something. */
  lemma {:induction false} BytesPassThrough(env: Env, s: Session, ms: seq<Message>)
    ensures var t := Handle(env, s, ms);
      && (Rejects(s.sent) ==> Rejects(t.sent))
      && ResponseBytesOut(t.sent) == ResponseBytesOut(s.sent) + ResponseBytesIn(ms)
      && (!Rejects(t.sent) ==> RequestBytesOut(t.sent) == RequestBytesOut(s.sent) + RequestBytesIn(ms))
    decreases ms
  {
    hide OnMessage, RequestBytesOut, ResponseBytesOut, Rejects;
    if ms == [] {
      assert ResponseBytesOut(s.sent) + [] == ResponseBytesOut(s.sent);
      assert RequestBytesOut(s.sent) + [] == RequestBytesOut(s.sent);
    } else {
      SentGrows(env, s, ms[0]);
      BytesPassThrough(env, OnMessage(env, s, ms[0]), ms[1..]);
      Joined(ResponseBytesOut(s.sent), if ms[0].ResponseBody? then ms[0].chunk else [], ResponseBytesIn(ms[1..]));
      Joined(RequestBytesOut(s.sent), if ms[0].RequestBody? then ms[0].chunk else [], RequestBytesIn(ms[1..]));
      hide RequestBytesIn, ResponseBytesIn;
    }
  }

  lemma Joined(xs: Bytes, ys: Bytes, zs: Bytes)
    ensures xs + ys + zs == xs + (ys + zs)
  {}

  // ---------- one exchange, however it is chunked ----------

  /** A body in chunks, with end-of-stream on the last one only. */
  function RequestBodies(chunks: seq<Bytes>): (ms: seq<Message>)
    ensures |ms| == |chunks|
  {
    seq(|chunks|, i requires 0 <= i < |chunks| => RequestBody(chunks[i], i == |chunks| - 1))
  }

  function ResponseBodies(chunks: seq<Bytes>): (ms: seq<Message>)
    ensures |ms| == |chunks|
  {
    seq(|chunks|, i requires 0 <= i < |chunks| => ResponseBody(chunks[i], i == |chunks| - 1))
  }

  /** The request half of an exchange. */
  function Request(id: RequestId, headers: map<string, string>, context: map<string, string>, chunks: seq<Bytes>): seq<Message> {
    [RequestHeaders(id, headers, context)] + RequestBodies(chunks)
  }

  function Response(chunks: seq<Bytes>): seq<Message> {
    [ResponseHeaders] + ResponseBodies(chunks)
  }

  function RequestForwards(chunks: seq<Bytes>, whole: bool): (os: seq<Output>)
    ensures |os| == |chunks|
  {
    seq(|chunks|, i requires 0 <= i < |chunks| => ForwardRequest(chunks[i], whole && i == |chunks| - 1))
  }

  lemma {:induction false} ConcatLast(chunks: seq<Bytes>)
    requires chunks != []
    ensures Concat(chunks) == Concat(chunks[..|chunks| - 1]) + chunks[|chunks| - 1]
  {
    if |chunks| > 1 {
      ConcatLast(chunks[1..]);
      assert chunks[1..][..|chunks| - 2] == chunks[..|chunks| - 1][1..];
    } else {
      assert chunks[1..] == [];
    }
  }

  /** A session that has collected some chunks of a request body and forwarded them. */
  function Collected(s: Session, chunks: seq<Bytes>): Session
    requires s.state.Some?
  {
    var st := s.state.value;
    Session(Some(st.(requestBody := st.requestBody + Concat(chunks))), s.calls, s.sent + RequestForwards(chunks, false))
  }

  /** Up to its last chunk a request body is only collected and forwarded. */
  lemma {:induction false} RequestIsCollected(env: Env, s: Session, chunks: seq<Bytes>)
    requires chunks != [] && s.state.Some?
    ensures Handle(env, s, RequestBodies(chunks))
      == OnRequestBody(env, Collected(s, chunks[..|chunks| - 1]), chunks[|chunks| - 1], true)
    decreases chunks
  {
    var n, ms := |chunks|, RequestBodies(chunks);
    var first := OnMessage(env, s, ms[0]);
    if n == 1 {
      assert ms[1..] == [];
      assert Collected(s, chunks[..0]) == s by {
        assert s.state.value.requestBody + Concat([]) == s.state.value.requestBody;
        assert s.sent + RequestForwards([], false) == s.sent;
      }
    } else {
      assert ms[1..] == RequestBodies(chunks[1..]);
      RequestIsCollected(env, first, chunks[1..]);
      var init := chunks[..n - 1];
      assert chunks[1..][..n - 2] == init[1..];
      assert Collected(first, init[1..]) == Collected(s, init) by {
        assert first.state.value.requestBody + Concat(init[1..]) == s.state.value.requestBody + Concat(init);
        assert first.sent + RequestForwards(init[1..], false) == s.sent + RequestForwards(init, false);
      }
    }
  }

  /** The call a request half makes, whatever its chunks. */
  function CheckOf(env: Env, id: RequestId, headers: map<string, string>, context: map<string, string>, body: Bytes): Call {
    CheckAndReserve(context, ExtractModel(env, body, headers), id)
  }

  /** The request half of an exchange in closed form. One check is made, for the model of the
      whole body. An admitted request is forwarded chunk by chunk; of a rejected one all but the
      last chunk has already been forwarded. */
  lemma {:induction false} RequestHalf(env: Env, s: Session, id: RequestId,
                                       headers: map<string, string>, context: map<string, string>,
                                       chunks: seq<Bytes>)
    requires chunks != []
    ensures var t := Handle(env, s, Request(id, headers, context, chunks));
      var body := Concat(chunks);
      var calls := s.calls + [CheckOf(env, id, headers, context, body)];
      var answer := env.check(calls);
      var before := s.sent + [ContinueWithId(id)];
      && t.calls == calls
      && t.state == Some(RequestState(id, ExtractModel(env, body, headers), headers, context, None, [],
                                      !answer.CommitFailed?, body))
      && t.sent == (
           if Allowed(answer) then before + RequestForwards(chunks, true)
           else before + RequestForwards(chunks[..|chunks| - 1], false)
                + [Reject(if answer.CommitFailed? then CheckFailed else BudgetExceeded)])
  {
    var ms := Request(id, headers, context, chunks);
    var begun := OnMessage(env, s, ms[0]);
    assert ms[1..] == RequestBodies(chunks);
    RequestIsCollected(env, begun, chunks);
    ConcatLast(chunks);
    var init, last := chunks[..|chunks| - 1], chunks[|chunks| - 1];
    var before := s.sent + [ContinueWithId(id)];
    assert [] + Concat(init) + last == Concat(chunks);
    assert before + RequestForwards(init, false) + [ForwardRequest(last, true)]
        == before + RequestForwards(chunks, true);
  }

  lemma {:induction false} ForwardedBytes(os: seq<Output>, chunks: seq<Bytes>, whole: bool)
    ensures RequestBytesOut(os + RequestForwards(chunks, whole)) == RequestBytesOut(os) + Concat(chunks)
    decreases chunks
  {
    var all := os + RequestForwards(chunks, whole);
    if chunks == [] {
      assert all == os;
    } else {
      var init := chunks[..|chunks| - 1];
      assert all[..|all| - 1] == os + RequestForwards(init, false);
      ForwardedBytes(os, init, false);
      ConcatLast(chunks);
    }
  }

  /** The bytes sent upstream: all of an admitted body, all but the last chunk of a rejected one. */
  lemma {:induction false} BytesUpstream(env: Env, s: Session, id: RequestId,
                                         headers: map<string, string>, context: map<string, string>,
                                         chunks: seq<Bytes>)
    requires chunks != []
    ensures var t := Handle(env, s, Request(id, headers, context, chunks));
      var admitted := Allowed(env.check(s.calls + [CheckOf(env, id, headers, context, Concat(chunks))]));
      RequestBytesOut(t.sent) == RequestBytesOut(s.sent)
                                 + Concat(if admitted then chunks else chunks[..|chunks| - 1])
  {
    hide Handle, Concat, ExtractModel, Request, RequestForwards, RequestBytesOut;
    var t := Handle(env, s, Request(id, headers, context, chunks));
    var before := s.sent + [ContinueWithId(id)];
    var init := chunks[..|chunks| - 1];
    RequestHalf(env, s, id, headers, context, chunks);
    OneMore(s.sent, ContinueWithId(id));
    if Allowed(env.check(t.calls)) {
      ForwardedBytes(before, chunks, true);
    } else {
      ForwardedBytes(before, init, false);
      OneMore(before + RequestForwards(init, false), t.sent[|t.sent| - 1]);
    }
  }

  lemma OneMore(os: seq<Output>, o: Output)
    ensures RequestBytesOut(os + [o]) == RequestBytesOut(os) + if o.ForwardRequest? then o.chunk else []
  {
    assert (os + [o])[..|os|] == os;
  }

  /** A session that has collected some chunks of a response body and forwarded them. */
  function Buffered(s: Session, chunks: seq<Bytes>): Session
    requires s.state.Some?
  {
    var st := s.state.value;
    Session(Some(st.(streamingBuffer := st.streamingBuffer + Concat(chunks))), s.calls,
            s.sent + seq(|chunks|, i requires 0 <= i < |chunks| => ForwardResponse(chunks[i], false, None)))
  }

  lemma {:induction false} ResponseIsBuffered(env: Env, s: Session, chunks: seq<Bytes>)
    requires chunks != [] && s.state.Some?
    ensures Handle(env, s, ResponseBodies(chunks))
      == OnResponseBody(env, Buffered(s, chunks[..|chunks| - 1]), chunks[|chunks| - 1], true)
    decreases chunks
  {
    var n, ms := |chunks|, ResponseBodies(chunks);
    var first := OnMessage(env, s, ms[0]);
    if n == 1 {
      assert ms[1..] == [];
      assert Buffered(s, chunks[..0]) == s by {
        assert s.state.value.streamingBuffer + Concat([]) == s.state.value.streamingBuffer;
        assert Buffered(s, []).sent == s.sent;
      }
    } else {
      assert ms[1..] == ResponseBodies(chunks[1..]);
      ResponseIsBuffered(env, first, chunks[1..]);
      var init := chunks[..n - 1];
      assert chunks[1..][..n - 2] == init[1..];
      assert Buffered(first, init[1..]) == Buffered(s, init) by {
        assert first.state.value.streamingBuffer + Concat(init[1..]) == s.state.value.streamingBuffer + Concat(init);
        assert Buffered(first, init[1..]).sent == Buffered(s, init).sent;
      }
    }
  }

  /** The response half in closed form: one charge, for the usage reported in the whole body. */
  lemma {:induction false} ResponseHalf(env: Env, s: Session, chunks: seq<Bytes>)
    requires chunks != [] && s.state.Some? && s.state.value.streamingBuffer == []
    ensures var t := Handle(env, s, Response(chunks));
      var st, body := s.state.value, Concat(chunks);
      var model := if st.modelId == "" then env.modelField(body) else st.modelId;
      && t.calls == s.calls + [Decrement(st.requestId, model, TokenUsage(env, body), st.limitedAt)]
      && t.state == Some(st.(modelId := model, streamingBuffer := body))
  {
    var ms := Response(chunks);
    assert ms[1..] == ResponseBodies(chunks);
    ResponseIsBuffered(env, OnMessage(env, s, ms[0]), chunks);
    ConcatLast(chunks);
    assert [] + Concat(chunks[..|chunks| - 1]) + chunks[|chunks| - 1] == Concat(chunks);
  }

  // ---------- both halves over what came in ----------

  /** `model` is the body's model field, else the configured header, else nothing. */
  ghost predicate ModelFrom(env: Env, body: Bytes, headers: map<string, string>, model: string) {
    && (body != [] && env.modelField(body) != "" ==> model == env.modelField(body))
    && (body == [] || env.modelField(body) == "" ==>
          if env.modelHeader != "" && env.modelHeader in headers then model == headers[env.modelHeader] else model == "")
  }

  /** The request half, message by message: one check for the model of the whole body; every chunk
      but the last is forwarded at once, and the last is forwarded or answered with a rejection. */
  lemma {:induction false} RequestMeans(env: Env, s: Session, id: RequestId,
                                        headers: map<string, string>, context: map<string, string>,
                                        chunks: seq<Bytes>)
    requires chunks != []
    ensures var t := Handle(env, s, Request(id, headers, context, chunks));
      var n, m := |chunks|, |s.sent| + 1;
      && |t.calls| == |s.calls| + 1 && s.calls <= t.calls
      && (var call := t.calls[|s.calls|];
          && call.CheckAndReserve? && call.context == context && call.requestId == id
          && ModelFrom(env, Concat(chunks), headers, call.modelId))
      && |t.sent| == m + n && s.sent + [ContinueWithId(id)] <= t.sent
      && (forall i :: 0 <= i < n - 1 ==> t.sent[m + i] == ForwardRequest(chunks[i], false))
      && t.sent[m + n - 1] == (
           match env.check(t.calls)
           case NoBudgets => ForwardRequest(chunks[n - 1], true)
           case Reserved(_, _) => ForwardRequest(chunks[n - 1], true)
           case RateLimited(_, _) => Reject(BudgetExceeded)
           case CommitFailed => Reject(CheckFailed))
  {
    RequestHalf(env, s, id, headers, context, chunks);
    ModelIsFrom(env, Concat(chunks), headers);
    var t := Handle(env, s, Request(id, headers, context, chunks));
    assert t.calls[..|s.calls|] == s.calls;
    SentMeans(s.sent + [ContinueWithId(id)], chunks, env.check(t.calls), t.sent);
    hide Handle, Concat, Request, ModelFrom, ExtractModel, RequestForwards;
  }

  lemma {:induction false} SentMeans(before: seq<Output>, chunks: seq<Bytes>, answer: LedgerService.CheckResult, sent: seq<Output>)
    requires chunks != []
    requires sent ==
      if Allowed(answer) then before + RequestForwards(chunks, true)
      else before + RequestForwards(chunks[..|chunks| - 1], false)
           + [Reject(if answer.CommitFailed? then CheckFailed else BudgetExceeded)]
    ensures var n, m := |chunks|, |before|;
      && |sent| == m + n && before <= sent
      && (forall i :: 0 <= i < n - 1 ==> sent[m + i] == ForwardRequest(chunks[i], false))
      && sent[m + n - 1] == (
           match answer
           case NoBudgets => ForwardRequest(chunks[n - 1], true)
           case Reserved(_, _) => ForwardRequest(chunks[n - 1], true)
           case RateLimited(_, _) => Reject(BudgetExceeded)
           case CommitFailed => Reject(CheckFailed))
  {
    if Allowed(answer) {
      AllForwarded(before, chunks);
    } else {
      AllButLast(before, chunks, Reject(if answer.CommitFailed? then CheckFailed else BudgetExceeded));
    }
    hide RequestForwards;
  }

  lemma ModelIsFrom(env: Env, body: Bytes, headers: map<string, string>)
    ensures ModelFrom(env, body, headers, ExtractModel(env, body, headers))
  {}

  lemma AllForwarded(before: seq<Output>, chunks: seq<Bytes>)
    ensures var sent := before + RequestForwards(chunks, true);
      && |sent| == |before| + |chunks| && before <= sent
      && forall i :: 0 <= i < |chunks| ==> sent[|before| + i] == ForwardRequest(chunks[i], i == |chunks| - 1)
  {}

  lemma AllButLast(before: seq<Output>, chunks: seq<Bytes>, last: Output)
    requires chunks != []
    ensures var sent := before + RequestForwards(chunks[..|chunks| - 1], false) + [last];
      && |sent| == |before| + |chunks| && before <= sent
      && (forall i :: 0 <= i < |chunks| - 1 ==> sent[|before| + i] == ForwardRequest(chunks[i], false))
      && sent[|before| + |chunks| - 1] == last
  {}

  /** The response half: one charge, when the response ends, for the usage the whole body reports:
      in OpenAI's fields if either count is positive, else in Anthropic's, else none. Every chunk
      is forwarded, the last with the receipt of the charge. */
  lemma {:induction false} ResponseMeans(env: Env, s: Session, chunks: seq<Bytes>)
    requires chunks != [] && s.state.Some? && s.state.value.streamingBuffer == []
    ensures var t := Handle(env, s, Response(chunks));
      var st, body := s.state.value, Concat(chunks);
      var n, m := |chunks|, |s.sent| + 1;
      var openai, anthropic := env.openaiUsage(body), env.anthropicUsage(body);
      && |t.calls| == |s.calls| + 1 && s.calls <= t.calls
      && (var call := t.calls[|s.calls|];
          && call.Decrement? && call.requestId == st.requestId && call.limitedAt == st.limitedAt
          && call.modelId == (if st.modelId == "" then env.modelField(body) else st.modelId)
          && (openai.input > 0 || openai.output > 0 ==> call.tokens == openai)
          && (openai.input <= 0 && openai.output <= 0 && (anthropic.input > 0 || anthropic.output > 0)
              ==> call.tokens == anthropic)
          && (openai.input <= 0 && openai.output <= 0 && anthropic.input <= 0 && anthropic.output <= 0
              ==> call.tokens == Tokens(0, 0)))
      && |t.sent| == m + n && s.sent + [Continue] <= t.sent
      && (forall i :: 0 <= i < n - 1 ==> t.sent[m + i] == ForwardResponse(chunks[i], false, None))
      && t.sent[m + n - 1] == ForwardResponse(chunks[n - 1], true, env.settle(t.calls))
  {
    ResponseHalf(env, s, chunks);
    var ms := Response(chunks);
    assert ms[1..] == ResponseBodies(chunks);
    ResponseIsBuffered(env, OnMessage(env, s, ms[0]), chunks);
    hide Concat, Response, ResponseBodies;
  }

  /** Before any request headers a stream makes no call. */
  lemma {:induction false} NothingWithoutHeaders(env: Env, s: Session, ms: seq<Message>)
    requires s.state.None? && forall i :: 0 <= i < |ms| ==> !ms[i].RequestHeaders?
    ensures Handle(env, s, ms).calls == s.calls && Handle(env, s, ms).state.None?
    decreases ms
  {
    if ms != [] {
      NothingWithoutHeaders(env, OnMessage(env, s, ms[0]), ms[1..]);
    }
  }

  /** Chunking independence: for any two splittings of the same bodies the stream picks the same
      model, asks for the same reservation and, once the response ends, for the same charge. */
  lemma {:induction false} ChunkingIndependence(env: Env, s: Session, id: RequestId,
                                                headers: map<string, string>, context: map<string, string>,
                                                request1: seq<Bytes>, response1: seq<Bytes>,
                                                request2: seq<Bytes>, response2: seq<Bytes>)
    requires request1 != [] && request2 != [] && response1 != [] && response2 != []
    requires Concat(request1) == Concat(request2) && Concat(response1) == Concat(response2)
    ensures var t1 := Handle(env, s, Request(id, headers, context, request1) + Response(response1));
      var t2 := Handle(env, s, Request(id, headers, context, request2) + Response(response2));
      t1.calls == t2.calls && t1.state == t2.state
  {
    var half1 := Handle(env, s, Request(id, headers, context, request1));
    var half2 := Handle(env, s, Request(id, headers, context, request2));
    RequestHalf(env, s, id, headers, context, request1);
    RequestHalf(env, s, id, headers, context, request2);
    ResponseHalf(env, half1, response1);
    ResponseHalf(env, half2, response2);
    HandleAppend(env, s, Request(id, headers, context, request1), Response(response1));
    HandleAppend(env, s, Request(id, headers, context, request2), Response(response2));
  }

  // ---------- laws of every stream ----------

  ghost predicate Unlimited(s: Session) {
    && (s.state.Some? ==> s.state.value.limitedAt.None?)
    && forall i :: 0 <= i < |s.calls| && s.calls[i].Decrement? ==> s.calls[i].limitedAt.None?
  }

  /** No stream ever passes a rate-limited budget to DecrementBudgets. */
  lemma {:induction false} NeverRateLimited(env: Env, s: Session, ms: seq<Message>)
    requires Unlimited(s)
    ensures Unlimited(Handle(env, s, ms))
    decreases ms
  {
    if ms != [] {
      NeverRateLimited(env, OnMessage(env, s, ms[0]), ms[1..]);
    }
  }

  /** Checks that the service answered, with yes or no. */
  ghost function Answered(env: Env, calls: seq<Call>): nat {
    if calls == [] then 0
    else Answered(env, calls[..|calls| - 1])
         + if calls[|calls| - 1].CheckAndReserve? && !env.check(calls).CommitFailed? then 1 else 0
  }

  function Decrements(calls: seq<Call>): nat {
    if calls == [] then 0
    else Decrements(calls[..|calls| - 1]) + if calls[|calls| - 1].Decrement? then 1 else 0
  }

  function Begun(ms: seq<Message>): nat {
    if ms == [] then 0 else (if ms[0].RequestHeaders? then 1 else 0) + Begun(ms[1..])
  }

  function ResponsesEnded(ms: seq<Message>): nat {
    if ms == [] then 0
    else (if ms[0].ResponseBody? && ms[0].endOfStream then 1 else 0) + ResponsesEnded(ms[1..])
  }

  /** 1 while the current request may still be checked. */
  function Unchecked(s: Session): nat {
    if s.state.Some? && !s.state.value.budgetChecked then 1 else 0
  }

  lemma OneMessageCounts(env: Env, s: Session, m: Message)
    ensures var t := OnMessage(env, s, m);
      && Answered(env, t.calls) + Unchecked(t) <= Answered(env, s.calls) + Unchecked(s) + Begun([m])
      && (s.state.Some? ==> t.state.Some? && Decrements(t.calls) == Decrements(s.calls) + ResponsesEnded([m]))
  {
    hide ExtractModel, TokenUsage;
    var t := OnMessage(env, s, m);
    assert [m][1..] == [];
    if |t.calls| > |s.calls| {
      assert t.calls[..|t.calls| - 1] == s.calls;
    }
  }

  /** However often end-of-stream is repeated, a request is checked with an answer at most
      once, and each end of a response asks for one charge. */
  lemma {:induction false} ChecksAndCharges(env: Env, s: Session, ms: seq<Message>)
    ensures var t := Handle(env, s, ms);
      && Answered(env, t.calls) + Unchecked(t) <= Answered(env, s.calls) + Unchecked(s) + Begun(ms)
      && (s.state.Some? ==> Decrements(t.calls) == Decrements(s.calls) + ResponsesEnded(ms))
    decreases ms
  {
    if ms != [] {
      OneMessageCounts(env, s, ms[0]);
      assert [ms[0]][1..] == [];
      ChecksAndCharges(env, OnMessage(env, s, ms[0]), ms[1..]);
    }
  }

  // ---------- the streams drive the ledger ----------

  /** CalculateCost: the model's price per million tokens, or the default price. */
  function CostOf(price: Option<PriceCache.Cost>, t: Tokens): Money {
    var p := if price.Some? then price.value else PriceCache.Cost(1.0, 3.0);
    t.input as real * p.inputPerMillion / 1000000.0 + t.output as real * p.outputPerMillion / 1000000.0
  }

  /** What fixes the cost: a million input tokens cost the input price, a million output tokens
      the output price, and costs add up. Without a price they are 1 and 3. */
  lemma {:induction false} CostIsLinear(price: PriceCache.Cost, t: Tokens, u: Tokens)
    ensures CostOf(Some(price), Tokens(1000000, 0)) == price.inputPerMillion
    ensures CostOf(Some(price), Tokens(0, 1000000)) == price.outputPerMillion
    ensures CostOf(Some(price), Tokens(t.input + u.input, t.output + u.output))
      == CostOf(Some(price), t) + CostOf(Some(price), u)
    ensures CostOf(None, t) == CostOf(Some(PriceCache.Cost(1.0, 3.0)), t)
  {
    var p, q := price.inputPerMillion, price.outputPerMillion;
    Distributes(t.input as real, u.input as real, p);
    Distributes(t.output as real, u.output as real, q);
  }

  lemma Distributes(x: real, y: real, p: real)
    ensures (x + y) * p / 1000000.0 == x * p / 1000000.0 + y * p / 1000000.0
  {
    assert (x + y) * p == x * p + y * p;
  }

  /** Where a completion in the ledger comes from: the call a stream made as its `call`-th, and
      the price found for its model. */
  datatype Origin = Origin(env: Env, messages: seq<Message>, call: nat, price: Option<PriceCache.Cost>)
  {
    function Calls(): seq<Call> {
      Handle(env, IDLE, messages).calls
    }

    predicate IsCharge() {
      call < |Calls()| && Calls()[call].Decrement?
    }
  }

  ghost predicate MadeBy(s: Ledger.Step, o: Origin) {
    s.Complete? ==>
      && o.IsCharge()
      && o.Calls()[o.call].requestId == s.requestId && o.Calls()[o.call].limitedAt == s.limitedAt
      && s.cost == CostOf(o.price, o.Calls()[o.call].tokens)
  }

  /** Neither the counts in the response nor the price are negative. */
  ghost predicate CountsArePlain(o: Origin) {
    && (o.IsCharge() ==> o.Calls()[o.call].tokens.input >= 0 && o.Calls()[o.call].tokens.output >= 0)
    && (o.price.Some? ==> o.price.value.inputPerMillion >= 0.0 && o.price.value.outputPerMillion >= 0.0)
  }

  lemma PlainCountsCost(price: PriceCache.Cost, t: Tokens)
    requires t.input >= 0 && t.output >= 0 && price.inputPerMillion >= 0.0 && price.outputPerMillion >= 0.0
    ensures CostOf(Some(price), t) >= 0.0
  {
    assert t.input as real * price.inputPerMillion >= 0.0;
    assert t.output as real * price.outputPerMillion >= 0.0;
  }

  /** In every run whose completions were all asked for by streams the two ledgers agree iff
      nothing was misrecorded; and nothing was if no response reports a negative count and no
      price is negative. */
  lemma {:induction false} StreamsKeepLedgersEqual(steps: seq<Ledger.Step>, origins: seq<Origin>, b: Id)
    requires |origins| == |steps|
    requires forall i :: 0 <= i < |steps| ==> MadeBy(steps[i], origins[i])
    requires b in Ledger.Run(steps).budgets
    ensures Ledger.Run(steps).budgets[b].usage
        == SpendLaws.Recorded(Ledger.Run(steps).usage, b) - SpendLaws.RecordedAtReset(steps, b)
      <==> !SpendLaws.Misrecorded(steps, b)
    ensures (forall i :: 0 <= i < |steps| && steps[i].Complete? ==> CountsArePlain(origins[i])) ==>
      !SpendLaws.Misrecorded(steps, b)
  {
    forall i | 0 <= i < |steps|
      ensures SpendLaws.Unlimited(steps[i])
      ensures steps[i].Complete? && CountsArePlain(origins[i]) ==> steps[i].cost >= 0.0
    {
      var o := origins[i];
      NeverRateLimited(o.env, IDLE, o.messages);
      if steps[i].Complete? && CountsArePlain(o) {
        PlainCountsCost(if o.price.Some? then o.price.value else PriceCache.Cost(1.0, 3.0), o.Calls()[o.call].tokens);
      }
    }
    SpendLaws.LedgersAgreeIff(steps, b);
    if forall i :: 0 <= i < |steps| && steps[i].Complete? ==> CountsArePlain(origins[i]) {
      SpendLaws.NothingMisrecorded(steps, b);
    }
  }

  /** The handler accepts usage with one positive and one negative count, and then the cost can
      be negative. */
  lemma NegativeCountsPass(env: Env, body: Bytes)
    requires env.openaiUsage(body) == Tokens(1, -1000)
    ensures TokenUsage(env, body) == Tokens(1, -1000) && CostOf(None, TokenUsage(env, body)) < 0.0
  {}

  // ---------- the handler ----------

  class Stream {
    const env: Env
    var started: bool
    var requestId: RequestId
    var modelId: string
    var headers: map<string, string>
    var context: map<string, string>
    var limitedAt: Option<Id>
    var streamingBuffer: Bytes
    var budgetChecked: bool
    var requestBody: Bytes
    var calls: seq<Call>
    var sent: seq<Output>

    ghost function Contents(): Session
      reads this
    {
      Session(if started then Some(RequestState(requestId, modelId, headers, context, limitedAt,
                                                streamingBuffer, budgetChecked, requestBody))
              else None, calls, sent)
    }

    constructor (env: Env)
      ensures this.env == env && Contents() == IDLE
    {
      this.env := env;
      started, requestId, modelId, headers, context := false, "", "", map[], map[];
      limitedAt, streamingBuffer, budgetChecked, requestBody := None, [], false, [];
      calls, sent := [], [];
    }

    /** doBudgetCheckAndRespond: the rejection to send, or nothing. */
    method CheckAndRespond() returns (rejection: Option<Reason>)
      requires started
      modifies this`calls, this`budgetChecked, this`limitedAt
      ensures calls == old(calls) + [CheckAndReserve(context, modelId, requestId)]
      ensures rejection.None? <==> env.check(calls).NoBudgets? || env.check(calls).Reserved?
      ensures rejection == Some(CheckFailed) <==> env.check(calls).CommitFailed?
      ensures rejection == Some(BudgetExceeded) <==> env.check(calls).RateLimited?
      ensures budgetChecked == (old(budgetChecked) || rejection != Some(CheckFailed))
      ensures limitedAt == if rejection.None? then None else old(limitedAt)
    {
      calls := calls + [CheckAndReserve(context, modelId, requestId)];
      var result := env.check(calls);
      if result.CommitFailed? {
        return Some(CheckFailed);
      }
      budgetChecked := true;
      if !Allowed(result) {
        return Some(BudgetExceeded);
      }
      limitedAt := LimitOf(result);
      return None;
    }

    method ReceiveRequestBody(chunk: Bytes, endOfStream: bool)
      modifies this
      ensures Contents() == OnRequestBody(env, old(Contents()), chunk, endOfStream)
    {
      if started {
        requestBody := requestBody + chunk;
      }
      if endOfStream && started && !budgetChecked {
        if modelId == "" {
          modelId := ExtractModel(env, requestBody, headers);
        }
        var rejection := CheckAndRespond();
        if rejection.Some? {
          sent := sent + [Reject(rejection.value)];
          return;
        }
      }
      sent := sent + [ForwardRequest(chunk, endOfStream)];
    }

    method ReceiveResponseBody(chunk: Bytes, endOfStream: bool)
      modifies this
      ensures Contents() == OnResponseBody(env, old(Contents()), chunk, endOfStream)
    {
      if started {
        streamingBuffer := streamingBuffer + chunk;
      }
      var receipt := None;
      if endOfStream && started {
        var tokens := TokenUsage(env, streamingBuffer);
        if modelId == "" {
          modelId := env.modelField(streamingBuffer);
        }
        calls := calls + [Decrement(requestId, modelId, tokens, limitedAt)];
        receipt := env.settle(calls);
      }
      sent := sent + [ForwardResponse(chunk, endOfStream, receipt)];
    }

    method Receive(m: Message)
      modifies this
      ensures Contents() == OnMessage(env, old(Contents()), m)
    {
      hide OnRequestBody, OnResponseBody;
      match m {
        case RequestHeaders(id, hs, ctx) =>
          started, requestId, modelId, headers, context := true, id, "", hs, ctx;
          limitedAt, streamingBuffer, budgetChecked, requestBody := None, [], false, [];
          sent := sent + [ContinueWithId(id)];
        case RequestBody(chunk, endOfStream) => ReceiveRequestBody(chunk, endOfStream);
        case ResponseHeaders => sent := sent + [Continue];
        case ResponseBody(chunk, endOfStream) => ReceiveResponseBody(chunk, endOfStream);
        case Unsupported =>
      }
    }

    /** The loop of Process. */
    method Process(messages: seq<Message>)
      modifies this
      ensures Contents() == Handle(env, old(Contents()), messages)
    {
      assert messages[0..] == messages;
      for k := 0 to |messages|
        invariant Handle(env, Contents(), messages[k..]) == Handle(env, old(Contents()), messages)
      {
        hide OnMessage, Contents;
        assert messages[k..][1..] == messages[k + 1..];
        Receive(messages[k]);
      }
    }
  }
}
