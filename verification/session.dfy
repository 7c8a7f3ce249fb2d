/** The chat session: the request body, the loop that consumes one streamed response, the
    history update once a ready response arrives, and the function-call recursion of a turn.
    The HTTP transport, JSON decoding and the command manager's execution are parameters. */
module Session {
  import opened Wrappers
  import opened Text
  import opened Json
  import opened Errors
  import opened Messages
  import opened Chunks
  import opened StreamDecoder

  /** What one event payload decodes to: invalid JSON (or a shape `from_dict` rejects), an object
      with a truthy `error` field, or a completion chunk. */
  datatype Event = Malformed | ErrorObject(message: string) | ChunkObject(chunk: Chunk)

  /** The answer of the completions endpoint: its status, its text (read only on failure) and
      its body lines. */
  datatype HttpResponse = HttpResponse(status: int, text: string, lines: seq<string>)

  /** The collaborators of a session. `connected` is whether the HTTP session was opened; `post`
      answers a request body; `decodeEvent` and `decodeArguments` stand for JSON decoding;
      `execute` is the manager running a named function, failing with the exception's text. */
  datatype Service = Service(
    connected: bool,
    post: Json -> HttpResponse,
    decodeEvent: string -> Event,
    decodeArguments: string -> Option<map<string, string>>,
    execute: (string, map<string, string>) -> Result<Option<string>, string>)

  /** The client's configuration and its conversation history. */
  datatype Client = Client(model: string, systemPrompt: string, maxTokens: int, messages: seq<Message>)

  /** A new client's history holds only the system prompt. */
  function NewClient(model: string, systemPrompt: string, maxTokens: int): (c: Client)
    ensures c.messages == [Message(System, systemPrompt, None)]
    ensures c.model == model && c.systemPrompt == systemPrompt && c.maxTokens == maxTokens
  {
    Client(model, systemPrompt, maxTokens, [Message(System, systemPrompt, None)])
  }

  /** The history as the request's `messages` array: one entry per message, in order. */
  function MessagesJson(history: seq<Message>): (items: seq<Json>)
    ensures |items| == |history|
    ensures forall k :: 0 <= k < |history| ==> items[k] == ToRequest(history[k])
  {
    seq(|history|, k requires 0 <= k < |history| => ToRequest(history[k]))
  }

  /** The completions request: the whole history in order, the manager's schemas, one choice,
      streaming on. */
  function RequestBody(client: Client, history: seq<Message>, manager: Manager): (j: Json)
    ensures j.JObject? && j.fields.Keys == {"model", "messages", "functions", "max_tokens", "n", "stream"}
    ensures j.fields["model"] == JString(client.model)
    ensures j.fields["messages"].JArray? && |j.fields["messages"].items| == |history|
    ensures forall k :: 0 <= k < |history| ==> j.fields["messages"].items[k] == ToRequest(history[k])
    ensures j.fields["functions"] == JArray(manager.schemas)
    ensures j.fields["max_tokens"] == JInt(client.maxTokens)
    ensures j.fields["n"] == JInt(1) && j.fields["stream"] == JBool(true)
  {
    JObject(map[
      "model" := JString(client.model),
      "messages" := JArray(MessagesJson(history)),
      "functions" := JArray(manager.schemas),
      "max_tokens" := JInt(client.maxTokens),
      "n" := JInt(1),
      "stream" := JBool(true)
    ])
  }

  // ---------------------------------------------------------------------------------------
  // Consuming one streamed response

  /** The text fragments shown to the caller and how the stream ended: the last folded response
      (`None` when nothing was folded), or the error that was raised. */
  datatype StreamOutcome = StreamOutcome(yielded: seq<string>, result: Result<Option<ResponseData>, ChatError>)

  predicate IsReady(response: Option<ResponseData>) {
    response.Some? && response.value.ready
  }

  /** True when a stream ended in an error or in a ready response, so that nothing after it is read. */
  predicate Stopped(o: StreamOutcome) {
    o.result.Failure? || IsReady(o.result.value)
  }

  function Prepend(shown: seq<string>, o: StreamOutcome): StreamOutcome {
    StreamOutcome(shown + o.yielded, o.result)
  }

  /** The choice a payload contributes: the first choice of a chunk that has one. */
  function FirstChoice(e: Event): Option<Choice> {
    if e.ChunkObject? && |e.chunk.choices| > 0 then Some(e.chunk.choices[0]) else None
  }

  /** What handling one payload leads to: the stream stops with the given outcome, or it goes on
      with the fragments shown so far and the response folded so far. */
  datatype StepResult = Halt(outcome: StreamOutcome) | Go(shown: seq<string>, response: ResponseData)

  /** One pass of the payload loop of `__send_message`: decode the payload, raise on an error
      object, fold the chunk, show its display fragment when it is non-empty, and stop after a
      ready chunk. */
  function Step(payload: string, decode: string -> Event, response: Option<ResponseData>): (s: StepResult)
    ensures s.Halt? ==> Stopped(s.outcome)
    ensures s.Halt? ==> forall k :: 0 <= k < |s.outcome.yielded| ==> |s.outcome.yielded[k]| > 0
    ensures s.Halt? && s.outcome.result.Success? ==>
      s.outcome.result.value.Some? && s.outcome.result.value.value.content == PreviousContent(response) + Concat(s.outcome.yielded)
    ensures s.Go? ==> !s.response.ready && s.response.content == PreviousContent(response) + Concat(s.shown)
    ensures s.Go? ==> forall k :: 0 <= k < |s.shown| ==> |s.shown[k]| > 0
    ensures s.Go? ==> |s.shown| <= 1
    ensures s.Halt? ==> |s.outcome.yielded| <= 1
  {
    match decode(payload)
    case Malformed => Halt(StreamOutcome([], Failure(MalformedPayload)))
    case ErrorObject(m) => Halt(StreamOutcome([], Failure(UpstreamError(m))))
    case ChunkObject(c) =>
      match ProcessChunk(c, response)
      case Failure(e) => Halt(StreamOutcome([], Failure(e)))
      case Success(r) =>
        var shown := NonEmptyParts(DeltaText(r));
        if r.ready then Halt(StreamOutcome(shown, Success(Some(r)))) else Go(shown, r)
  }

  /** The response a payload leads to is the first choice of its chunk folded onto the previous
      response, and the stream raises exactly when the payload is not a chunk with a choice. */
  lemma StepFolds(payload: string, decode: string -> Event, response: Option<ResponseData>)
    ensures var s := Step(payload, decode, response);
      && (s.Halt? && s.outcome.result.Failure? <==> FirstChoice(decode(payload)).None?)
      && (s.Go? ==> s.response == ProcessChoice(FirstChoice(decode(payload)).value, response))
      && (s.Halt? && s.outcome.result.Success? ==>
            s.outcome.result.value == Some(ProcessChoice(FirstChoice(decode(payload)).value, response)))
  {
    match decode(payload)
    case ChunkObject(c) =>
      if |c.choices| > 0 {
        assert ProcessChunk(c, response) == Success(ProcessChoice(c.choices[0], response));
      }
    case _ =>
  }

  /** The payload loop of `__send_message` over all payloads of one response. The content of the
      final response is exactly what was shown to the caller, appended to the starting content. */
  function Consume(payloads: seq<string>, decode: string -> Event, response: Option<ResponseData>): (o: StreamOutcome)
    ensures forall k :: 0 <= k < |o.yielded| ==> |o.yielded[k]| > 0
    ensures o.result.Success? && o.result.value.Some? ==>
      o.result.value.value.content == PreviousContent(response) + Concat(o.yielded)
    ensures o.result.Success? && o.result.value.None? ==> response.None? && o.yielded == []
    ensures |o.yielded| <= |payloads|
    decreases |payloads|
  {
    if |payloads| == 0 then StreamOutcome([], Success(response))
    else
      match Step(payloads[0], decode, response)
      case Halt(o) => o
      case Go(shown, r) =>
        var rest := Consume(payloads[1..], decode, Some(r));
        ConcatAppend(shown, rest.yielded);
        Prepend(shown, rest)
  }

  /** When every payload is a chunk with choices and only the last of them may be ready, the
      payload loop folds their first choices, in order, onto the starting response. */
  lemma {:induction false} ConsumeIsFold(payloads: seq<string>, decode: string -> Event, response: Option<ResponseData>, choices: seq<Choice>)
    requires |choices| == |payloads|
    requires forall i :: 0 <= i < |payloads| ==> FirstChoice(decode(payloads[i])) == Some(choices[i])
    requires forall i :: 0 <= i < |choices| - 1 ==> !Truthy(choices[i].finishReason)
    ensures Consume(payloads, decode, response).result == Success(Fold(choices, response))
    decreases |payloads|
  {
    if |payloads| > 0 {
      assert FirstChoice(decode(payloads[0])) == Some(choices[0]);
      var r := ProcessChoice(choices[0], response);
      assert Fold(choices, response) == Fold(choices[1..], Some(r));
      StepFolds(payloads[0], decode, response);
      match Step(payloads[0], decode, response)
      case Halt(o) =>
        assert o.result == Success(Some(r));
        if |payloads| > 1 {
          assert false;
        }
      case Go(shown, next) =>
        assert next == r;
        DropFirstPayload(payloads, decode, choices);
        ConsumeIsFold(payloads[1..], decode, Some(r), choices[1..]);
    }
  }

  /** Dropping the first payload and its choice keeps `ConsumeIsFold`'s preconditions for the rest. */
  lemma DropFirstPayload(payloads: seq<string>, decode: string -> Event, choices: seq<Choice>)
    requires 0 < |choices| == |payloads|
    requires forall i :: 0 <= i < |payloads| ==> FirstChoice(decode(payloads[i])) == Some(choices[i])
    requires forall i :: 0 <= i < |choices| - 1 ==> !Truthy(choices[i].finishReason)
    ensures forall i :: 0 <= i < |payloads[1..]| ==> FirstChoice(decode(payloads[1..][i])) == Some(choices[1..][i])
    ensures forall i :: 0 <= i < |choices[1..]| - 1 ==> !Truthy(choices[1..][i].finishReason)
  {
    forall i | 0 <= i < |payloads[1..]| ensures FirstChoice(decode(payloads[1..][i])) == Some(choices[1..][i]) {
      assert payloads[1..][i] == payloads[i + 1];
    }
  }

  /** Once the stream has stopped, at a ready chunk or an error, later payloads are never folded. */
  lemma {:induction false} ConsumeIgnoresAfterStop(payloads: seq<string>, later: seq<string>, decode: string -> Event, response: Option<ResponseData>)
    requires !IsReady(response)
    requires Stopped(Consume(payloads, decode, response))
    ensures Consume(payloads + later, decode, response) == Consume(payloads, decode, response)
    decreases |payloads|
  {
    assert |payloads| > 0;
    assert (payloads + later)[0] == payloads[0];
    assert (payloads + later)[1..] == payloads[1..] + later;
    match Step(payloads[0], decode, response)
    case Halt(_) =>
    case Go(_, r) =>
      ConsumeIgnoresAfterStop(payloads[1..], later, decode, Some(r));
  }

  /** A stream that has not stopped continues from its last response: consuming two parts one
      after the other is the same as consuming them together. */
  lemma {:induction false} ConsumeAppend(payloads: seq<string>, later: seq<string>, decode: string -> Event, response: Option<ResponseData>)
    requires !Stopped(Consume(payloads, decode, response))
    ensures Consume(payloads + later, decode, response) ==
      Prepend(Consume(payloads, decode, response).yielded, Consume(later, decode, Consume(payloads, decode, response).result.value))
    decreases |payloads|
  {
    if |payloads| == 0 {
      assert payloads + later == later;
    } else {
      assert (payloads + later)[0] == payloads[0];
      assert (payloads + later)[1..] == payloads[1..] + later;
      match Step(payloads[0], decode, response)
      case Halt(_) =>
      case Go(shown, r) =>
        ConsumeAppend(payloads[1..], later, decode, Some(r));
        var tail := Consume(payloads[1..], decode, Some(r));
        var after := Consume(later, decode, tail.result.value);
        AppendAssociative(shown, tail.yielded, after.yielded);
    }
  }

  /** The payload loop written as the source writes it, with a `break` at the first ready chunk. */
  method StreamResponse(payloads: seq<string>, decode: string -> Event) returns (yielded: seq<string>, result: Result<Option<ResponseData>, ChatError>)
    ensures StreamOutcome(yielded, result) == Consume(payloads, decode, None)
  {
    yielded := [];
    var response: Option<ResponseData> := None;
    var i := 0;
    while i < |payloads|
      invariant 0 <= i <= |payloads|
      invariant Consume(payloads, decode, None) == Prepend(yielded, Consume(payloads[i..], decode, response))
    {
      ghost var step := Step(payloads[i], decode, response);
      ghost var before := yielded;
      assert payloads[i..][0] == payloads[i] && payloads[i..][1..] == payloads[i + 1..];
      assert step.Halt? ==> Consume(payloads[i..], decode, response) == step.outcome;
      assert step.Go? ==> (Consume(payloads[i..], decode, response) ==
        Prepend(step.shown, Consume(payloads[i + 1..], decode, Some(step.response))));
      match decode(payloads[i]) {
        case Malformed =>
          return yielded, Failure(MalformedPayload);
        case ErrorObject(m) =>
          return yielded, Failure(UpstreamError(m));
        case ChunkObject(c) =>
          var processed := ProcessChunk(c, response);
          if processed.Failure? {
            return yielded, Failure(processed.error);
          }
          var r := processed.value;
          ghost var shown := if |DeltaText(r)| > 0 then [DeltaText(r)] else [];
          if |DeltaText(r)| > 0 {
            yielded := yielded + [DeltaText(r)];
          }
          assert yielded == before + shown;
          response := Some(r);
          if r.ready {
            return yielded, Success(response);
          }
          assert step == Go(shown, r);
          AppendAssociative(before, shown, Consume(payloads[i + 1..], decode, response).yielded);
      }
      i := i + 1;
    }
    assert payloads[i..] == [];
    result := Success(response);
  }

  // ---------------------------------------------------------------------------------------
  // One request / response exchange

  /** Posting the request for `sent` and consuming the answer; a status other than 200 raises
      before anything is read. */
  function Receive(client: Client, sent: seq<Message>, manager: Manager, svc: Service): (o: StreamOutcome)
    ensures forall k :: 0 <= k < |o.yielded| ==> |o.yielded[k]| > 0
    ensures o.result.Success? && o.result.value.Some? ==> o.result.value.value.content == Concat(o.yielded)
  {
    var resp := svc.post(RequestBody(client, sent, manager));
    if resp.status != 200 then StreamOutcome([], Failure(HttpStatus(resp.status, resp.text)))
    else Consume(ParseStream(resp.lines), svc.decodeEvent, None)
  }

  /** What happens after one exchange: the turn ends, it fails, or the given function-result
      message is sent next. */
  datatype Next = Stop | Fail(error: ChatError) | Continue(message: Message)

  datatype Exchanged = Exchanged(history: seq<Message>, yielded: seq<string>, next: Next)

  /** The message reporting a function's result; an absent or empty result is sent as `null`. */
  function FunctionResult(name: string, result: Option<string>): (m: Message)
    ensures m.role == Function && m.name == Some(name)
    ensures m.content == if Truthy(result) then result.value else "null"
    ensures |m.content| > 0
  {
    Message(Function, if Truthy(result) then result.value else "null", Some(name))
  }

  /** The assistant message of a ready response, as a zero- or one-element list. */
  function Stored(r: ResponseData): seq<Message> {
    match GetMessage(r)
    case Some(m) => [m]
    case None => []
  }

  /** The handling of a ready response: store the assistant message, then run the requested call
      (if any) and continue with its result only when the function is known to return a value. */
  function Complete(sent: seq<Message>, r: ResponseData, yielded: seq<string>, manager: Manager, svc: Service): (x: Exchanged)
    requires r.ready
    ensures x.history == sent + (if |r.content| > 0 then [Message(Assistant, r.content, None)] else [])
    ensures x.yielded == yielded
    ensures x.next.Continue? <==>
      && GetFunctionExecution(r, svc.decodeArguments).Success?
      && GetFunctionExecution(r, svc.decodeArguments).value.Some?
      && var call := GetFunctionExecution(r, svc.decodeArguments).value.value;
         svc.execute(call.name, call.arguments).Success? && HasReturn(call, manager)
    ensures x.next.Continue? ==> (
      && Truthy(r.functionName) && |r.functionArguments| > 0
      && x.next.message == FunctionResult(r.functionName.value,
           svc.execute(r.functionName.value, GetFunctionExecution(r, svc.decodeArguments).value.value.arguments).value))
    ensures x.next.Fail? <==>
      GetFunctionExecution(r, svc.decodeArguments).Failure? ||
      (GetFunctionExecution(r, svc.decodeArguments).value.Some? &&
       var call := GetFunctionExecution(r, svc.decodeArguments).value.value;
       svc.execute(call.name, call.arguments).Failure?)
  {
    var stored := sent + Stored(r);
    match GetFunctionExecution(r, svc.decodeArguments)
    case Failure(e) => Exchanged(stored, yielded, Fail(e))
    case Success(None) => Exchanged(stored, yielded, Stop)
    case Success(Some(call)) =>
      match svc.execute(call.name, call.arguments)
      case Failure(cause) => Exchanged(stored, yielded, Fail(ExecutionFailed(call.name, cause)))
      case Success(result) =>
        if HasReturn(call, manager) then Exchanged(stored, yielded, Continue(FunctionResult(call.name, result)))
        else Exchanged(stored, yielded, Stop)
  }

  /** One call of `__send_message` up to its recursive call: the outgoing message is appended
      first, then the streamed answer is consumed, and a ready answer is completed. */
  function Exchange(client: Client, history: seq<Message>, outgoing: Message, manager: Manager, svc: Service): (x: Exchanged)
    ensures StartsWith(x.history, history + [outgoing])
    ensures x.history == history + [outgoing] ||
      x.history == history + [outgoing, Message(Assistant, x.history[|x.history| - 1].content, None)]
    ensures forall k :: 0 <= k < |x.yielded| ==> |x.yielded[k]| > 0
    ensures x.next.Continue? ==> x.next.message.role == Function && HasName(x.next.message)
  {
    var sent := history + [outgoing];
    if !svc.connected then Exchanged(sent, [], Stop)
    else
      var o := Receive(client, sent, manager, svc);
      match o.result
      case Failure(e) => Exchanged(sent, o.yielded, Fail(e))
      case Success(response) =>
        if IsReady(response) then
          var x := Complete(sent, response.value, o.yielded, manager, svc);
          assert StartsWith(x.history, sent) by {
            assert x.history[..|sent|] == sent;
          }
          x
        else Exchanged(sent, o.yielded, Stop)
  }

  /** An exchange whose stream ends without a ready response (or without any response at all)
      ends the turn with only the outgoing message appended. */
  lemma ExchangeNotReady(client: Client, history: seq<Message>, outgoing: Message, manager: Manager, svc: Service)
    requires svc.connected
    requires Receive(client, history + [outgoing], manager, svc).result.Success?
    requires !IsReady(Receive(client, history + [outgoing], manager, svc).result.value)
    ensures Exchange(client, history, outgoing, manager, svc) ==
      Exchanged(history + [outgoing], Receive(client, history + [outgoing], manager, svc).yielded, Stop)
  {
  }

  // ---------------------------------------------------------------------------------------
  // A whole turn

  /** How a turn ended. `OutOfFuel` is the model's own bound on the function-call recursion,
      which the client itself does not have; it carries the message that would be sent next. */
  datatype Status = Completed | Failed(error: ChatError) | OutOfFuel(pending: Message)

  datatype Turn = Turn(history: seq<Message>, yielded: seq<string>, status: Status)

  /** `__send_message` with its recursion bounded by `fuel` further requests. */
  function SendMessage(fuel: nat, client: Client, history: seq<Message>, outgoing: Message, manager: Manager, svc: Service): (t: Turn)
    ensures StartsWith(t.history, history + [outgoing])
    ensures forall k :: 0 <= k < |t.yielded| ==> |t.yielded[k]| > 0
    ensures var x := Exchange(client, history, outgoing, manager, svc);
      && StartsWith(t.yielded, x.yielded)
      && (x.next.Stop? ==> t == Turn(x.history, x.yielded, Completed))
      && (x.next.Fail? ==> t == Turn(x.history, x.yielded, Failed(x.next.error)))
      && (x.next.Continue? && fuel == 0 ==> t == Turn(x.history, x.yielded, OutOfFuel(x.next.message)))
      && (x.next.Continue? && fuel > 0 ==> StartsWith(t.history, x.history + [x.next.message]))
    decreases fuel
  {
    var x := Exchange(client, history, outgoing, manager, svc);
    match x.next
    case Stop => Turn(x.history, x.yielded, Completed)
    case Fail(e) => Turn(x.history, x.yielded, Failed(e))
    case Continue(m) =>
      if fuel == 0 then Turn(x.history, x.yielded, OutOfFuel(m))
      else
        var rest := SendMessage(fuel - 1, client, x.history, m, manager, svc);
        StartsWithTransitive(rest.history, x.history + [m], x.history);
        StartsWithTransitive(rest.history, x.history, history + [outgoing]);
        Turn(rest.history, x.yielded + rest.yielded, rest.status)
  }

  /** `chat_stream`: send the prompt as a user message. The client's history becomes the turn's. */
  function ChatStream(fuel: nat, client: Client, prompt: string, manager: Manager, svc: Service): (r: (Client, Turn))
    ensures r.0.messages == r.1.history
    ensures StartsWith(r.1.history, client.messages + [Message(User, prompt, None)])
    ensures r.0.model == client.model && r.0.maxTokens == client.maxTokens && r.0.systemPrompt == client.systemPrompt
  {
    var t := SendMessage(fuel, client, client.messages, Message(User, prompt, None), manager, svc);
    (client.(messages := t.history), t)
  }

  /** `chat`: the concatenation of every fragment of the turn, or how the turn failed to complete. */
  function Chat(fuel: nat, client: Client, prompt: string, manager: Manager, svc: Service): (r: (Client, Result<string, Status>))
    ensures r.1.Success? <==> ChatStream(fuel, client, prompt, manager, svc).1.status == Completed
    ensures r.1.Success? ==> r.1.value == Concat(ChatStream(fuel, client, prompt, manager, svc).1.yielded)
    ensures StartsWith(r.0.messages, client.messages + [Message(User, prompt, None)])
  {
    var (c, t) := ChatStream(fuel, client, prompt, manager, svc);
    (c, if t.status == Completed then Success(Concat(t.yielded)) else Failure(t.status))
  }

  /** For a turn whose first ready answer requests no function call, `chat` returns exactly the
      assembled content of that answer, and the history gains the user message followed by the
      assistant message when the content is non-empty. */
  lemma ChatSingleTurnReturnsContent(fuel: nat, client: Client, prompt: string, manager: Manager, svc: Service)
    requires svc.connected
    requires var o := Receive(client, client.messages + [Message(User, prompt, None)], manager, svc);
      && o.result.Success? && IsReady(o.result.value)
      && GetFunctionExecution(o.result.value.value, svc.decodeArguments) == Success(None)
    ensures var r := Receive(client, client.messages + [Message(User, prompt, None)], manager, svc).result.value.value;
      && Chat(fuel, client, prompt, manager, svc).1 == Success(r.content)
      && Chat(fuel, client, prompt, manager, svc).0.messages ==
           client.messages + [Message(User, prompt, None)] + (if |r.content| > 0 then [Message(Assistant, r.content, None)] else [])
  {
  }

  /** A ready answer that calls a function the manager does not know to return a value ends the
      turn after that exchange: no function-result message is appended and no further request
      is made. */
  lemma NoReturnEndsTurn(fuel: nat, client: Client, history: seq<Message>, outgoing: Message, manager: Manager, svc: Service)
    requires svc.connected
    requires var o := Receive(client, history + [outgoing], manager, svc);
      && o.result.Success? && IsReady(o.result.value)
      && var e := GetFunctionExecution(o.result.value.value, svc.decodeArguments);
         && e.Success? && e.value.Some?
         && svc.execute(e.value.value.name, e.value.value.arguments).Success?
         && !HasReturn(e.value.value, manager)
    ensures var t := SendMessage(fuel, client, history, outgoing, manager, svc);
      && t.status == Completed
      && t.history == Exchange(client, history, outgoing, manager, svc).history
      && forall k :: |history| + 1 <= k < |t.history| ==> t.history[k].role == Assistant
  {
  }
}
