/** Streamed completion chunks and their assembly into one response: the content text, the
    requested function call and the readiness flag. */
module Chunks {
  import opened Wrappers
  import opened Text
  import opened Errors
  import opened Messages

  datatype FunctionCall = FunctionCall(name: Option<string>, arguments: Option<string>)

  datatype Delta = Delta(role: Option<Role>, content: Option<string>, functionCall: Option<FunctionCall>)

  datatype Choice = Choice(index: int, delta: Delta, finishReason: Option<string>)

  datatype Chunk = Chunk(id: string, object: string, created: int, model: string, choices: seq<Choice>)

  /** The response assembled so far. `deltaText` is the display fragment of the latest chunk. */
  datatype ResponseData = ResponseData(
    ready: bool,
    content: string,
    functionName: Option<string>,
    functionArguments: string,
    deltaText: Option<string>)

  /** Python truthiness of an `Optional[str]`: present and non-empty. */
  predicate Truthy(o: Option<string>) {
    o.Some? && |o.value| > 0
  }

  /** The non-empty function name a delta carries, if any. */
  function DeltaName(d: Delta): Option<string> {
    if d.functionCall.Some? && Truthy(d.functionCall.value.name) then d.functionCall.value.name else None
  }

  /** The arguments fragment a delta carries, `""` when there is none. */
  function DeltaArguments(d: Delta): string {
    if d.functionCall.Some? && Truthy(d.functionCall.value.arguments) then d.functionCall.value.arguments.value else ""
  }

  function PreviousContent(previous: Option<ResponseData>): string {
    if previous.Some? then previous.value.content else ""
  }

  function PreviousName(previous: Option<ResponseData>): Option<string> {
    if previous.Some? then previous.value.functionName else None
  }

  function PreviousArguments(previous: Option<ResponseData>): string {
    if previous.Some? then previous.value.functionArguments else ""
  }

  /** The display fragment of a response, `""` when it has none. */
  function DeltaText(r: ResponseData): string {
    r.deltaText.GetOr("")
  }

  /** `__process_chunk` applied to the chunk's first choice. */
  function ProcessChoice(choice: Choice, previous: Option<ResponseData>): (r: ResponseData)
    ensures r.ready <==> Truthy(choice.finishReason)
    ensures r.deltaText.Some? <==> Truthy(choice.delta.content)
    ensures r.deltaText.Some? ==> r.deltaText.value == RStripNewlines(choice.delta.content.value)
    ensures r.content == PreviousContent(previous) + DeltaText(r)
    ensures StartsWith(r.content, PreviousContent(previous))
    ensures r.functionName == if DeltaName(choice.delta).Some? then DeltaName(choice.delta) else PreviousName(previous)
    ensures r.functionArguments == PreviousArguments(previous) + DeltaArguments(choice.delta)
  {
    var delta := choice.delta;
    var ready := Truthy(choice.finishReason);
    var text := if Truthy(delta.content) then Some(RStripNewlines(delta.content.value)) else None;
    var content := PreviousContent(previous) + text.GetOr("");
    var name := PreviousName(previous);
    var arguments := PreviousArguments(previous);
    var name' := if delta.functionCall.Some? && Truthy(delta.functionCall.value.name) then delta.functionCall.value.name else name;
    var arguments' := if delta.functionCall.Some? && Truthy(delta.functionCall.value.arguments) then arguments + delta.functionCall.value.arguments.value else arguments;
    assert content[..|PreviousContent(previous)|] == PreviousContent(previous);
    ResponseData(ready, content, name', arguments', text)
  }

  /** `__process_chunk`: only the first choice is read; a chunk without choices raises. */
  function ProcessChunk(chunk: Chunk, previous: Option<ResponseData>): (r: Result<ResponseData, ChatError>)
    ensures r.Failure? <==> |chunk.choices| == 0
    ensures r.Failure? ==> r.error == NoChoices
    ensures r.Success? ==> r.value == ProcessChoice(chunk.choices[0], previous)
  {
    if |chunk.choices| == 0 then Failure(NoChoices) else Success(ProcessChoice(chunk.choices[0], previous))
  }

  /** Folding a sequence of choices, in arrival order, onto a starting response. */
  function Fold(choices: seq<Choice>, start: Option<ResponseData>): Option<ResponseData>
    decreases |choices|
  {
    if |choices| == 0 then start else Fold(choices[1..], Some(ProcessChoice(choices[0], start)))
  }

  /** The content a choice contributes: its content without trailing newlines, `""` when absent. */
  function ContentFragment(choice: Choice): string {
    var c := choice.delta.content;
    if Truthy(c) then RStripNewlines(c.value) else ""
  }

  /** The stripped content fragments of a sequence of choices, concatenated in order. */
  function ContentFragments(choices: seq<Choice>): string
    decreases |choices|
  {
    if |choices| == 0 then "" else ContentFragment(choices[0]) + ContentFragments(choices[1..])
  }

  /** The argument fragments of a sequence of choices, concatenated in order. */
  function ArgumentFragments(choices: seq<Choice>): string
    decreases |choices|
  {
    if |choices| == 0 then "" else DeltaArguments(choices[0].delta) + ArgumentFragments(choices[1..])
  }

  /** After a fold, the content is the starting content followed by every stripped content
      fragment in arrival order. */
  lemma {:induction false} FoldContent(choices: seq<Choice>, start: Option<ResponseData>)
    requires |choices| > 0
    ensures Fold(choices, start).Some?
    ensures Fold(choices, start).value.content == PreviousContent(start) + ContentFragments(choices)
    decreases |choices|
  {
    var first := ProcessChoice(choices[0], start);
    var fragment := ContentFragment(choices[0]);
    var rest := choices[1..];
    assert first.content == PreviousContent(start) + fragment;
    assert ContentFragments(choices) == fragment + ContentFragments(rest);
    assert Fold(choices, start) == Fold(rest, Some(first));
    if |rest| == 0 {
      assert ContentFragments(rest) == "" && fragment + "" == fragment;
    } else {
      FoldContent(rest, Some(first));
      AppendAssociative(PreviousContent(start), fragment, ContentFragments(rest));
    }
  }

  /** After a fold, the arguments are the starting arguments followed by every arguments fragment
      in arrival order, so they never shrink. */
  lemma {:induction false} FoldArguments(choices: seq<Choice>, start: Option<ResponseData>)
    requires |choices| > 0
    ensures Fold(choices, start).Some?
    ensures Fold(choices, start).value.functionArguments == PreviousArguments(start) + ArgumentFragments(choices)
    decreases |choices|
  {
    var first := ProcessChoice(choices[0], start);
    var fragment := DeltaArguments(choices[0].delta);
    var rest := choices[1..];
    assert first.functionArguments == PreviousArguments(start) + fragment;
    assert ArgumentFragments(choices) == fragment + ArgumentFragments(rest);
    assert Fold(choices, start) == Fold(rest, Some(first));
    if |rest| == 0 {
      assert ArgumentFragments(rest) == "" && fragment + "" == fragment;
    } else {
      FoldArguments(rest, Some(first));
      AppendAssociative(PreviousArguments(start), fragment, ArgumentFragments(rest));
    }
  }

  /** The fold is ready exactly when the last folded choice has a non-empty finish reason. */
  lemma {:induction false} FoldReadyIsLast(choices: seq<Choice>, start: Option<ResponseData>)
    requires |choices| > 0
    ensures Fold(choices, start).Some?
    ensures Fold(choices, start).value.ready <==> Truthy(choices[|choices| - 1].finishReason)
    decreases |choices|
  {
    if |choices| > 1 {
      FoldReadyIsLast(choices[1..], Some(ProcessChoice(choices[0], start)));
    }
  }

  /** When no folded choice carries a function name, the starting name is kept. */
  lemma {:induction false} FoldNameKeptWithoutNames(choices: seq<Choice>, start: Option<ResponseData>)
    requires |choices| > 0
    requires forall i :: 0 <= i < |choices| ==> DeltaName(choices[i].delta).None?
    ensures Fold(choices, start).Some?
    ensures Fold(choices, start).value.functionName == PreviousName(start)
    decreases |choices|
  {
    var next := ProcessChoice(choices[0], start);
    assert next.functionName == PreviousName(start);
    if |choices| > 1 {
      var tail := choices[1..];
      assert Fold(choices, start) == Fold(tail, Some(next));
      assert forall i :: 0 <= i < |tail| ==> DeltaName(tail[i].delta).None? by {
        forall i | 0 <= i < |tail| ensures DeltaName(tail[i].delta).None? {
          assert tail[i] == choices[i + 1];
        }
      }
      FoldNameKeptWithoutNames(tail, Some(next));
    }
  }

  /** The last non-empty function name wins: the folded name is the name of the last choice that
      carries one. */
  lemma {:induction false} FoldNameIsLastNonEmpty(choices: seq<Choice>, start: Option<ResponseData>, i: nat)
    requires i < |choices| && DeltaName(choices[i].delta).Some?
    requires forall j :: i < j < |choices| ==> DeltaName(choices[j].delta).None?
    ensures Fold(choices, start).Some?
    ensures Fold(choices, start).value.functionName == DeltaName(choices[i].delta)
    decreases |choices|
  {
    if i == 0 {
      NameAfterFirst(choices, start);
    } else {
      var tail, next := choices[1..], Some(ProcessChoice(choices[0], start));
      FoldStep(choices, start);
      TailKeepsLast(choices, i);
      FoldNameIsLastNonEmpty(tail, next, i - 1);
      assert tail[i - 1] == choices[i];
    }
  }

  /** Folding a non-empty sequence folds the first choice, then the rest. */
  lemma FoldStep(choices: seq<Choice>, start: Option<ResponseData>)
    requires |choices| > 0
    ensures Fold(choices, start) == Fold(choices[1..], Some(ProcessChoice(choices[0], start)))
  {
  }

  /** When the first choice is the last one carrying a name, that name is the folded one. */
  lemma NameAfterFirst(choices: seq<Choice>, start: Option<ResponseData>)
    requires |choices| > 0 && DeltaName(choices[0].delta).Some?
    requires forall j :: 0 < j < |choices| ==> DeltaName(choices[j].delta).None?
    ensures Fold(choices, start).Some?
    ensures Fold(choices, start).value.functionName == DeltaName(choices[0].delta)
  {
    var next := ProcessChoice(choices[0], start);
    var tail := choices[1..];
    assert Fold(choices, start) == Fold(tail, Some(next));
    assert next.functionName == DeltaName(choices[0].delta);
    if |tail| > 0 {
      TailKeepsLast(choices, 0);
      FoldNameKeptWithoutNames(tail, Some(next));
    }
  }

  /** Dropping the first choice keeps "no name after position `i`" at position `i - 1`. */
  lemma TailKeepsLast(choices: seq<Choice>, i: nat)
    requires i < |choices|
    requires forall j :: i < j < |choices| ==> DeltaName(choices[j].delta).None?
    ensures i > 0 ==> choices[1..][i - 1] == choices[i]
    ensures forall j :: i - 1 < j < |choices| - 1 ==> DeltaName(choices[1..][j].delta).None?
  {
    forall j | i - 1 < j < |choices| - 1 ensures DeltaName(choices[1..][j].delta).None? {
      assert choices[1..][j] == choices[j + 1];
    }
  }

  /** `ResponseData.get_message`: an assistant message exactly when the response is ready and has
      non-empty content. */
  function GetMessage(r: ResponseData): (m: Option<Message>)
    ensures m.Some? <==> r.ready && |r.content| > 0
    ensures m.Some? ==> m.value.role == Assistant && m.value.content == r.content && m.value.name.None?
  {
    if r.ready && |r.content| > 0 then Some(Message(Assistant, r.content, None)) else None
  }

  /** `ResponseData.get_function_execution`: a call exists only for a ready response with both a
      non-empty name and non-empty arguments. `decodeArguments` stands for parsing the arguments
      text as a JSON object and re-serialising each value; `None` means that parsing raised. */
  function GetFunctionExecution(r: ResponseData, decodeArguments: string -> Option<map<string, string>>): (e: Result<Option<FunctionExecution>, ChatError>)
    ensures (e.Success? && e.value.Some?) ==> r.ready && Truthy(r.functionName) && |r.functionArguments| > 0
    ensures !(r.ready && Truthy(r.functionName) && |r.functionArguments| > 0) ==> e == Success(None)
    ensures e.Failure? <==> r.ready && Truthy(r.functionName) && |r.functionArguments| > 0 && decodeArguments(r.functionArguments).None?
    ensures e.Failure? ==> e.error == MalformedArguments
    ensures (e.Success? && e.value.Some?) ==>
      e.value.value.name == r.functionName.value && Some(e.value.value.arguments) == decodeArguments(r.functionArguments)
  {
    if r.ready && Truthy(r.functionName) && |r.functionArguments| > 0 then
      match decodeArguments(r.functionArguments)
      case Some(arguments) => Success(Some(FunctionExecution(r.functionName.value, arguments)))
      case None => Failure(MalformedArguments)
    else Success(None)
  }

  /** Two chunks, "Hello" and then "!\n" with a finish reason, assemble to the ready content
      "Hello!": the trailing newline of the second fragment is dropped. */
  lemma HelloExample()
    ensures var none := Delta(None, None, None);
      var first := Choice(0, none.(content := Some("Hello")), None);
      var second := Choice(0, none.(content := Some("!\n")), Some("stop"));
      var r := Fold([first, second], None);
      r.Some? && r.value.ready && r.value.content == "Hello!" && r.value.deltaText == Some("!")
  {
    var none := Delta(None, None, None);
    var first := Choice(0, none.(content := Some("Hello")), None);
    var second := Choice(0, none.(content := Some("!\n")), Some("stop"));
    assert RStripNewlines("Hello") == "Hello";
    assert RStripNewlines("!\n") == "!" by {
      assert "!\n"[..1] == "!";
    }
    var p1 := ProcessChoice(first, None);
    var p2 := ProcessChoice(second, Some(p1));
    assert p1.content == "Hello";
    assert p2.content == "Hello" + "!";
    assert [first, second][1..] == [second] && [second][1..] == [];
    assert Fold([first, second], None) == Fold([second], Some(p1));
    assert Fold([second], Some(p1)) == Fold([], Some(p2));
  }
}
