# gpt-commands: streaming chat assembly and function descriptors, in Dafny

This project models the core of a Python chat client that exposes a command object's
methods to a function-calling chat-completions service. Two pieces are modelled.

- **Streaming response assembly** (`client.py`):
  - the server-sent-events line decoder;
  - the fold of streamed completion chunks into a `ResponseData` accumulator;
  - the projections of a ready response to an assistant message and to a function execution;
  - the request dictionary of a message and the request body;
  - the conversation-history update and function-call recursion of one chat turn, plus `chat`.
- **Function-descriptor generation** (`introspection.py`):
  - the Python-type to JSON-Schema-type mapping;
  - the parameter and function schemas with their `required` list;
  - `get_functions`, run over an explicit list of already-parsed members instead of Python
    reflection.

Modules, one per concern:

| file | module | models |
|---|---|---|
| `wrappers.dfy` | `Wrappers` | `Optional[...]` and raised exceptions as `Option` / `Result` |
| `text.dfy` | `Text` | `startswith`, `bytes.strip()`, `rstrip("\n")`, concatenation, subsequences |
| `json.dfy` | `Json` | JSON values built by the client |
| `errors.dfy` | `Errors` | the exceptions that end a turn |
| `messages.dfy` | `Messages` | `Role`, `Message.to_request`, `FunctionExecution.has_return` |
| `stream.dfy` | `StreamDecoder` | `__parse_stream_helper`, `__parse_stream_async` |
| `chunks.dfy` | `Chunks` | chunk datatypes, `__process_chunk`, `ResponseData` projections |
| `session.dfy` | `Session` | request body, payload loop, `__send_message`, `chat_stream`, `chat` |
| `introspection.dfy` | `Introspection` | `Parameter`, `Function`, `get_functions` |

The HTTP transport, JSON decoding and the command manager are parameters of the model.
They are bundled in `Session.Service`:
- `post` maps a request body to a status, an error text and the body lines;
- `decodeEvent` decodes one event payload;
- `decodeArguments` parses the assembled function arguments;
- `execute` runs a named function.

Behaviour of the code worth knowing, as the model states it:
- The `data: [DONE]` sentinel is only skipped by the line decoder. It does not end decoding,
  and payload lines after it are still decoded (`StreamDecoder.DoneLineDoesNotTerminate`).
  What stops consumption is the first ready chunk.
- Each later non-empty function name overwrites the earlier one. The last non-empty name wins,
  not the first (`Chunks.FoldNameIsLastNonEmpty`).
- Readiness is the truthiness of `finish_reason`: an empty finish reason is not ready.
- A ready response whose call names a function without a return value still executes it. The
  turn then ends without a function-result message.
- `introspection.py` is the flat version: every type name outside `str`, `int`, `float` and
  `bool` maps to `"object"`. There is no recursive type translation and no argument decoding.

## Model

| member | source | states |
|---|---|---|
| `Text.Strip` | src/gpt_commands/openai/client.py:148 | the stripped line is empty or starts and ends with a non-whitespace byte |
| `Text.StripSurrounded` | src/gpt_commands/openai/client.py:148 | stripping any whitespace around a text without outer whitespace gives back exactly that text |
| `Text.TrimStartRemovesSpace` | src/gpt_commands/openai/client.py:148 | the front-trimmed line is the suffix left after a whitespace-only front |
| `Text.TrimEndRemovesSpace` | src/gpt_commands/openai/client.py:148 | the back-trimmed line is the prefix left before a whitespace-only back |
| `Text.RStripNewlines` | src/gpt_commands/openai/client.py:174 | the result is a prefix of the fragment that does not end in a newline |
| `Text.RStripRemovesNewlines` | src/gpt_commands/openai/client.py:174 | everything removed after the kept prefix is a newline |
| `Text.NonEmptyParts` | src/gpt_commands/openai/client.py:230-231 | a fragment is shown at most once and only when non-empty, and what is shown concatenates back to the fragment |
| `Messages.RoleValue` | src/gpt_commands/openai/client.py:15-19 | every role has one of the four wire values |
| `Messages.RoleOf` | src/gpt_commands/openai/client.py:15-19 | exactly the four wire values name a role |
| `Messages.RoleValueRoundTrip` | src/gpt_commands/openai/client.py:15-19 | `system`, `user`, `assistant` and `function` name exactly the role whose wire value they are |
| `Messages.RoleValueInjective` | src/gpt_commands/openai/client.py:15-19 | distinct roles have distinct wire values |
| `Messages.ToRequest` | src/gpt_commands/openai/client.py:31-40 | the dictionary always carries `role` and `content`, and carries `name` iff the name is non-empty, with no other keys |
| `Messages.HasReturn` | src/gpt_commands/openai/client.py:58-62 | an unknown function has no return value; a known one reports its own flag |
| `StreamDecoder.ParseLine` | src/gpt_commands/openai/client.py:146-155 | a line yields a payload iff it starts with `data: ` and does not strip to the sentinel, and then `data: ` followed by the payload is the line |
| `StreamDecoder.DoneLineIsNoPayload` | src/gpt_commands/openai/client.py:147-149 | the sentinel with any surrounding whitespace yields no payload |
| `StreamDecoder.PayloadLineYieldsRemainder` | src/gpt_commands/openai/client.py:150-152 | a non-sentinel `data: ` line yields exactly its remainder |
| `StreamDecoder.ParseStream` | src/gpt_commands/openai/client.py:157-161 | the decoder yields at most one payload per line |
| `StreamDecoder.ParseStreamAppend` | src/gpt_commands/openai/client.py:157-161 | payloads come out in line order: decoding a split body is decoding each part in turn |
| `StreamDecoder.ParseStreamMembership` | src/gpt_commands/openai/client.py:157-161 | a payload is yielded iff some line carries it |
| `StreamDecoder.BlankLineIsNoPayload` | src/gpt_commands/openai/client.py:147-155 | an empty or whitespace-only line yields no payload |
| `StreamDecoder.DoneLineDoesNotTerminate` | src/gpt_commands/openai/client.py:146-161 | the sentinel, with any whitespace around it, is skipped and lines after it are still decoded |
| `StreamDecoder.PayloadLineThen` | src/gpt_commands/openai/client.py:146-161 | a non-sentinel `data: ` line in front of a body puts exactly its remainder in front of the body's payloads |
| `StreamDecoder.SentinelThenBlank` | src/gpt_commands/openai/client.py:146-161 | the sentinel followed by a blank line decodes to no payloads |
| `StreamDecoder.BlankLineDecodesToNothing` | src/gpt_commands/openai/client.py:146-161 | a body of one blank line decodes to no payloads |
| `StreamDecoder.DecodeLines` | src/gpt_commands/openai/client.py:157-161 | the filtering loop computes the decoder's payload sequence |
| `Chunks.ProcessChoice` | src/gpt_commands/openai/client.py:163-193 | ready iff the finish reason is non-empty; the fragment is the content without trailing newlines; content extends the previous content; the name is the new non-empty name or the previous one; the arguments extend the previous ones |
| `Chunks.ProcessChunk` | src/gpt_commands/openai/client.py:166-168 | only the first choice is read; a chunk without choices raises |
| `Chunks.FoldContent` | src/gpt_commands/openai/client.py:170-175 | after folding chunks the content is the starting content followed by every stripped fragment in order |
| `Chunks.FoldArguments` | src/gpt_commands/openai/client.py:177-185 | after folding chunks the arguments are the starting arguments followed by every fragment in order |
| `Chunks.FoldReadyIsLast` | src/gpt_commands/openai/client.py:168 | a fold is ready iff its last chunk has a non-empty finish reason |
| `Chunks.FoldNameKeptWithoutNames` | src/gpt_commands/openai/client.py:177-182 | when no folded chunk carries a non-empty name, the starting name is kept |
| `Chunks.FoldNameIsLastNonEmpty` | src/gpt_commands/openai/client.py:177-182 | the folded name is that of the last chunk carrying a non-empty name |
| `Chunks.HelloExample` | src/gpt_commands/openai/client.py:163-193 | `Hello` then `!` plus newline with a finish reason assemble to ready content `Hello!` |
| `Chunks.GetMessage` | src/gpt_commands/openai/client.py:99-103 | an assistant message with the content exists iff the response is ready and its content non-empty |
| `Chunks.GetFunctionExecution` | src/gpt_commands/openai/client.py:105-110 | a call exists only for a ready response with non-empty name and arguments; it carries that name and the parsed arguments; unparsable arguments raise |
| `Session.NewClient` | src/gpt_commands/openai/client.py:128-134 | a new client's history is just the system prompt |
| `Session.MessagesJson` | src/gpt_commands/openai/client.py:201 | one request dictionary per history message, in history order |
| `Session.RequestBody` | src/gpt_commands/openai/client.py:201-211 | the body carries the model, every history message's dictionary in order, the manager's schemas, `max_tokens`, `n` = 1 and `stream` = true |
| `Session.Step` | src/gpt_commands/openai/client.py:222-235 | a payload either stops the stream (error or ready chunk) or goes on with a not-ready response; it shows at most one non-empty fragment, by which the content grows exactly |
| `Session.StepFolds` | src/gpt_commands/openai/client.py:222-235 | the response after a payload is its chunk's first choice folded onto the previous response, and the loop raises exactly when the payload is not a chunk with a choice |
| `Session.Consume` | src/gpt_commands/openai/client.py:222-235 | at most one fragment per payload, every one non-empty, and the final content is the starting content followed by all shown fragments |
| `Session.ConsumeIsFold` | src/gpt_commands/openai/client.py:222-235 | when every payload is a chunk with a choice and only the last may be ready, the final response is the fold of their first choices in order |
| `Session.ConsumeIgnoresAfterStop` | src/gpt_commands/openai/client.py:222-235 | once a ready chunk or an error is reached, no later payload changes the outcome |
| `Session.ConsumeAppend` | src/gpt_commands/openai/client.py:222-235 | a stream not yet stopped continues from its last response |
| `Session.StreamResponse` | src/gpt_commands/openai/client.py:222-235 | the loop with `break` computes the payload-loop outcome |
| `Session.Receive` | src/gpt_commands/openai/client.py:214-235 | the content of the response received is exactly the concatenation of the fragments shown |
| `Session.FunctionResult` | src/gpt_commands/openai/client.py:250 | a function-result message has role `function`, the call's name, and the result or `null` |
| `Session.Complete` | src/gpt_commands/openai/client.py:237-251 | an assistant message is appended iff the content is non-empty; the turn continues iff a call exists, executes, and the function has a return value |
| `Session.Exchange` | src/gpt_commands/openai/client.py:195-251 | the outgoing message is appended first and at most one assistant message after it |
| `Session.ExchangeNotReady` | src/gpt_commands/openai/client.py:237 | a stream ending without a ready response appends only the outgoing message and ends the turn |
| `Session.SendMessage` | src/gpt_commands/openai/client.py:195-252 | history is append-only from the outgoing message on and every fragment is non-empty; a turn that stops or fails keeps the exchange's history and fragments; a function result is sent next, after the exchange's history, with the exchange's fragments first |
| `Session.ChatStream` | src/gpt_commands/openai/client.py:254-267 | the prompt is sent as a user message and the client's history becomes the turn's |
| `Session.Chat` | src/gpt_commands/openai/client.py:269-283 | the reply is the concatenation of all yielded fragments, and exists iff the turn completed |
| `Session.ChatSingleTurnReturnsContent` | src/gpt_commands/openai/client.py:237-244 | for a ready answer without a call, `chat` returns exactly its content and the history gains the user and, if non-empty, the assistant message |
| `Session.NoReturnEndsTurn` | src/gpt_commands/openai/client.py:244-252 | a call to a function without a return value ends the turn with no function-result message |
| `Introspection.JsonSchemaType` | src/gpt_commands/openai/introspection.py:12-22 | the schema type is one of five names and is `object` iff the type is not one of the four primitives |
| `Introspection.JsonSchemaTypeInverse` | src/gpt_commands/openai/introspection.py:12-22 | a primitive schema type reads back to the parameter's own Python type |
| `Introspection.ParameterSchema` | src/gpt_commands/openai/introspection.py:24-28 | exactly the keys `type` and `description`, holding the schema type and the description |
| `Introspection.Properties` | src/gpt_commands/openai/introspection.py:42-45 | one key per parameter name |
| `Introspection.PropertiesLastWins` | src/gpt_commands/openai/introspection.py:42-45 | a name maps to the schema of the last parameter of that name |
| `Introspection.Required` | src/gpt_commands/openai/introspection.py:46 | a name is required iff some parameter of that name is not optional |
| `Introspection.RequiredIsSubsequence` | src/gpt_commands/openai/introspection.py:46 | the required names keep declaration order |
| `Introspection.RequiredEmptyIffAllOptional` | src/gpt_commands/openai/introspection.py:46 | nothing is required iff every parameter is optional |
| `Introspection.RequiredAllWhenNoneOptional` | src/gpt_commands/openai/introspection.py:46 | with no optional parameter, every name is required, in order |
| `Introspection.RequiredSnoc` | src/gpt_commands/openai/introspection.py:46 | the list is built in declaration order: a further parameter adds its name at the end exactly when it is not optional, so order and repeated names are kept |
| `Introspection.NameArray` | src/gpt_commands/openai/introspection.py:46 | the required names become a JSON array of the same strings in the same order |
| `Introspection.ParametersSchema` | src/gpt_commands/openai/introspection.py:40-47 | exactly the keys `type`, `properties`, `required`, with type `object`, the properties dictionary and the required list |
| `Introspection.FunctionSchema` | src/gpt_commands/openai/introspection.py:36-48 | exactly the keys `name`, `description`, `parameters`, holding the name, the description or `null`, and the parameters schema |
| `Introspection.Public` | src/gpt_commands/openai/introspection.py:52-53 | the kept members are exactly those whose name does not start with `_`, in member order |
| `Introspection.BuildParameters` | src/gpt_commands/openai/introspection.py:55-64 | one parameter per documented parameter in docstring order, typed by its annotation, optional only when the docstring says so; otherwise the error names the first documented parameter without an annotation |
| `Introspection.BuildFunctions` | src/gpt_commands/openai/introspection.py:52-69 | every member becomes the function it describes, in order; fails iff some member lacks an annotation, naming the first such member and its first such parameter |
| `Introspection.GetFunctions` | src/gpt_commands/openai/introspection.py:50-70 | one function per public member in member order, each built from its docstring; fails iff a public member lacks an annotation, naming the first such member and parameter |

## Left out

- HTTP session lifecycle (`__aenter__`, `__aexit__`, `ClientSession.post`): the open session is
  the `connected` flag and the endpoint is the `post` parameter.
- The API key, organisation, `load_dotenv`, `getenv` and logging: environment and side effects.
- `temperature`: a floating-point pass-through; the request body omits it.
- UTF-8 decoding of body lines: a byte is modelled as one character and the payload is passed on
  as it is.
- JSON decoding (`json.loads`, `from_dict`, the `error` field test, `json.dumps` of argument
  values): these are the `decodeEvent` and `decodeArguments` parameters.
- Key order of JSON objects: dictionaries are maps.
- `create_manager`, `Manager.execute` and `Manager.get_function`: they are not part of this
  model. The manager is reduced to its schemas, a name-to-has-return map and the `execute`
  parameter.
- `Session.Service`: `execute` is a function of the name and arguments alone. Effects on the
  command object are not modelled.
- Laziness of the async generators: a turn's fragments are produced as one finished sequence,
  and a caller abandoning consumption early is not modelled.
- Python reflection (`__class__.__dict__`, `__annotations__`, `__name__`) and `docstring_parser`:
  `get_functions` takes already-parsed members.
- Recursive schema translation, argument decoding and the registry errors of the newer
  introspection module: they are not in the modelled `introspection.py`.
- Session.SendMessage: the function-call recursion is bounded by a `fuel` count of further
  requests, ending in `OutOfFuel`. The client itself has no bound.
