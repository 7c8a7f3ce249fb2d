/** Conversation messages, their request dictionaries, and function executions against the
    command manager. */
module Messages {
  import opened Wrappers
  import opened Json

  datatype Role = System | User | Assistant | Function

  /** The wire value of a role. */
  function RoleValue(r: Role): (v: string)
    ensures v in {"system", "user", "assistant", "function"}
  {
    match r
    case System => "system"
    case User => "user"
    case Assistant => "assistant"
    case Function => "function"
  }

  /** The role a wire value names, as looking the value up in the `Role` enum does; `None` for
      a value that names no role. */
  function RoleOf(v: string): (r: Option<Role>)
    ensures r.Some? <==> v in {"system", "user", "assistant", "function"}
  {
    if v == "system" then Some(System)
    else if v == "user" then Some(User)
    else if v == "assistant" then Some(Assistant)
    else if v == "function" then Some(Function)
    else None
  }

  /** Each role's wire value names that role and no other: `system`, `user`, `assistant` and
      `function` in turn. */
  lemma RoleValueRoundTrip(r: Role, v: string)
    ensures RoleOf(RoleValue(r)) == Some(r)
    ensures RoleOf(v) == Some(r) <==> RoleValue(r) == v
  {
  }

  /** Distinct roles have distinct wire values, so a request dictionary determines the role. */
  lemma RoleValueInjective(a: Role, b: Role)
    ensures RoleValue(a) == RoleValue(b) ==> a == b
  {
  }

  /** One conversation turn; function-result messages carry the invoked function's name. */
  datatype Message = Message(role: Role, content: string, name: Option<string>)

  /** True for a present, non-empty name (Python truthiness of an `Optional[str]`). */
  predicate HasName(m: Message) {
    m.name.Some? && |m.name.value| > 0
  }

  /** The request dictionary of a message: always `role` and `content`, and `name` exactly when the
      message has a non-empty name. */
  function ToRequest(m: Message): (j: Json)
    ensures j.JObject?
    ensures "role" in j.fields && j.fields["role"] == JString(RoleValue(m.role))
    ensures "content" in j.fields && j.fields["content"] == JString(m.content)
    ensures "name" in j.fields <==> HasName(m)
    ensures HasName(m) ==> j.fields["name"] == JString(m.name.value)
    ensures j.fields.Keys <= {"role", "content", "name"}
  {
    var base := map["role" := JString(RoleValue(m.role)), "content" := JString(m.content)];
    if HasName(m) then JObject(base["name" := JString(m.name.value)]) else JObject(base)
  }

  /** A function call requested by the model, with its arguments as name to JSON text. */
  datatype FunctionExecution = FunctionExecution(name: string, arguments: map<string, string>)

  /** What the client sees of the command manager: the schemas it sends with each request and,
      per registered function name, whether that function returns a value. How the manager is
      built from the command object is not part of this model. */
  datatype Manager = Manager(schemas: seq<Json>, hasReturn: map<string, bool>)

  /** `FunctionExecution.has_return`: an unknown function has no return value. */
  function HasReturn(call: FunctionExecution, manager: Manager): (b: bool)
    ensures call.name !in manager.hasReturn ==> !b
    ensures b <==> call.name in manager.hasReturn && manager.hasReturn[call.name]
  {
    if call.name in manager.hasReturn then manager.hasReturn[call.name] else false
  }
}
