/** The function-descriptor builder: turns the public members of a command object into
    `Function` records and renders them as JSON-Schema function descriptors. Python reflection
    and docstring parsing are replaced by an explicit list of already-parsed members. */
module Introspection {
  import opened Wrappers
  import opened Text
  import opened Json

  /** One documented parameter: its name, the `__name__` of its annotated type, whether the
      docstring marks it optional, and its docstring description. */
  datatype Parameter = Parameter(name: string, typeName: string, optional: bool, description: Option<string>)

  /** One callable operation with its parameters in docstring order. */
  datatype Function = Function(name: string, description: Option<string>, parameters: seq<Parameter>)

  const JsonTypes: set<string> := {"string", "integer", "number", "boolean", "object"}

  /** The JSON-Schema type name of a parameter; every type name other than the four Python
      primitives is an object. */
  function JsonSchemaType(p: Parameter): (t: string)
    ensures t in JsonTypes
    ensures t == "object" <==> p.typeName !in {"str", "int", "float", "bool"}
  {
    if p.typeName == "str" then "string"
    else if p.typeName == "int" then "integer"
    else if p.typeName == "float" then "number"
    else if p.typeName == "bool" then "boolean"
    else "object"
  }

  /** The Python primitive that a JSON-Schema primitive type name stands for. */
  function PythonPrimitive(t: string): Option<string> {
    match t
    case "string" => Some("str")
    case "integer" => Some("int")
    case "number" => Some("float")
    case "boolean" => Some("bool")
    case _ => None
  }

  /** The mapping is injective on the primitives: reading a non-object schema type back gives the
      parameter's own Python type name, and an object schema type reads back as no primitive. */
  lemma JsonSchemaTypeInverse(p: Parameter)
    ensures JsonSchemaType(p) != "object" ==> PythonPrimitive(JsonSchemaType(p)) == Some(p.typeName)
    ensures JsonSchemaType(p) == "object" ==> PythonPrimitive(JsonSchemaType(p)) == None
  {
  }

  /** The schema of one parameter: exactly a `type` and a `description` key. */
  function ParameterSchema(p: Parameter): (j: Json)
    ensures j.JObject? && j.fields.Keys == {"type", "description"}
    ensures j.fields["type"] == JString(JsonSchemaType(p))
    ensures j.fields["description"] == OptString(p.description)
  {
    JObject(map["type" := JString(JsonSchemaType(p)), "description" := OptString(p.description)])
  }

  function Names(ps: seq<Parameter>): (names: seq<string>)
    ensures |names| == |ps|
    ensures forall i :: 0 <= i < |ps| ==> names[i] == ps[i].name
  {
    seq(|ps|, i requires 0 <= i < |ps| => ps[i].name)
  }

  /** The `properties` dictionary: one key per parameter name; when a name repeats, the later
      parameter's schema is the one kept, as in a Python dictionary comprehension. */
  function Properties(ps: seq<Parameter>): (m: map<string, Json>)
    ensures forall n :: n in m <==> n in Names(ps)
    decreases |ps|
  {
    if |ps| == 0 then map[]
    else
      var init := ps[..|ps| - 1];
      var last := ps[|ps| - 1];
      assert Names(ps) == Names(init) + [last.name];
      Properties(init)[last.name := ParameterSchema(last)]
  }

  /** The schema kept under a name is that of the last parameter with that name. */
  lemma {:induction false} PropertiesLastWins(ps: seq<Parameter>, i: nat)
    requires i < |ps|
    requires forall j :: i < j < |ps| ==> ps[j].name != ps[i].name
    ensures ps[i].name in Properties(ps)
    ensures Properties(ps)[ps[i].name] == ParameterSchema(ps[i])
    decreases |ps|
  {
    assert Names(ps)[i] == ps[i].name;
    var init := ps[..|ps| - 1];
    if i < |ps| - 1 {
      assert init[i] == ps[i];
      assert forall j :: i < j < |init| ==> init[j].name != init[i].name by {
        forall j | i < j < |init| ensures init[j].name != init[i].name {
          assert init[j] == ps[j];
        }
      }
      PropertiesLastWins(init, i);
    }
  }

  /** The names of the non-optional parameters, in declaration order. */
  function Required(ps: seq<Parameter>): (names: seq<string>)
    ensures forall n :: n in names <==> exists i :: 0 <= i < |ps| && ps[i].name == n && !ps[i].optional
    decreases |ps|
  {
    if |ps| == 0 then []
    else
      var rest := Required(ps[1..]);
      assert forall i :: 1 <= i < |ps| ==> ps[1..][i - 1] == ps[i];
      if ps[0].optional then rest else [ps[0].name] + rest
  }

  /** `required` keeps the declaration order: it is a subsequence of the parameter names. */
  lemma {:induction false} RequiredIsSubsequence(ps: seq<Parameter>)
    ensures IsSubsequence(Required(ps), Names(ps))
    decreases |ps|
  {
    if |ps| > 0 {
      RequiredIsSubsequence(ps[1..]);
      assert Names(ps)[1..] == Names(ps[1..]);
      SubsequenceOfTail(Required(ps[1..]), Names(ps));
    }
  }

  lemma {:induction false} SubsequenceOfTail<T>(a: seq<T>, b: seq<T>)
    requires |b| > 0 && IsSubsequence(a, b[1..])
    ensures IsSubsequence(a, b)
  {
  }

  /** `required` is empty exactly when every parameter is optional. */
  lemma RequiredEmptyIffAllOptional(ps: seq<Parameter>)
    ensures |Required(ps)| == 0 <==> forall i :: 0 <= i < |ps| ==> ps[i].optional
  {
    if |Required(ps)| != 0 {
      assert Required(ps)[0] in Required(ps);
    }
  }

  /** When no parameter is optional, `required` lists every parameter name in order. */
  lemma {:induction false} RequiredAllWhenNoneOptional(ps: seq<Parameter>)
    requires forall i :: 0 <= i < |ps| ==> !ps[i].optional
    ensures Required(ps) == Names(ps)
    decreases |ps|
  {
    if |ps| > 0 {
      RequiredAllWhenNoneOptional(ps[1..]);
      assert Names(ps) == [ps[0].name] + Names(ps[1..]);
    }
  }

  /** `required` is built one parameter at a time in declaration order: appending a parameter
      appends its name exactly when it is not optional, so a repeated name appears once per
      non-optional occurrence. */
  lemma {:induction false} RequiredSnoc(ps: seq<Parameter>, p: Parameter)
    ensures Required(ps + [p]) == Required(ps) + (if p.optional then [] else [p.name])
    decreases |ps|
  {
    if |ps| == 0 {
      assert ps + [p] == [p];
      assert [p][1..] == [];
    } else {
      assert (ps + [p])[0] == ps[0];
      assert (ps + [p])[1..] == ps[1..] + [p];
      RequiredSnoc(ps[1..], p);
    }
  }

  /** A list of names as a JSON array of strings, in order. */
  function NameArray(names: seq<string>): (j: Json)
    ensures j.JArray? && |j.items| == |names|
    ensures forall k :: 0 <= k < |names| ==> j.items[k] == JString(names[k])
  {
    JArray(seq(|names|, k requires 0 <= k < |names| => JString(names[k])))
  }

  /** The object-typed `parameters` schema, whose `properties` and `required` come from the
      parameter list. */
  function ParametersSchema(ps: seq<Parameter>): (j: Json)
    ensures j.JObject? && j.fields.Keys == {"type", "properties", "required"}
    ensures j.fields["type"] == JString("object")
    ensures j.fields["properties"] == JObject(Properties(ps))
    ensures j.fields["required"] == NameArray(Required(ps))
  {
    JObject(map[
      "type" := JString("object"),
      "properties" := JObject(Properties(ps)),
      "required" := NameArray(Required(ps))
    ])
  }

  /** The function descriptor: `name`, `description` and the `parameters` schema. */
  function FunctionSchema(f: Function): (j: Json)
    ensures j.JObject? && j.fields.Keys == {"name", "description", "parameters"}
    ensures j.fields["name"] == JString(f.name)
    ensures j.fields["description"] == OptString(f.description)
    ensures j.fields["parameters"] == ParametersSchema(f.parameters)
  {
    JObject(map[
      "name" := JString(f.name),
      "description" := OptString(f.description),
      "parameters" := ParametersSchema(f.parameters)
    ])
  }

  // ---------------------------------------------------------------------------------------
  // Collecting the functions of a command object

  /** One parameter entry of a parsed docstring; `isOptional` is `None` when the docstring says
      nothing about optionality. */
  datatype DocParam = DocParam(argName: string, isOptional: Option<bool>, description: Option<string>)

  datatype Docstring = Docstring(shortDescription: Option<string>, params: seq<DocParam>)

  /** One entry of the command object's class dictionary: its name, its parsed docstring and its
      annotations as parameter name to type name. */
  datatype Member = Member(name: string, doc: Docstring, annotations: map<string, string>)

  /** Looking up a documented parameter that has no annotation raises a `KeyError`. */
  datatype IntrospectionError = MissingAnnotation(functionName: string, parameter: string)

  predicate IsInternal(name: string) {
    StartsWith(name, "_")
  }

  /** The members that `get_functions` turns into functions, in class-dictionary order. */
  function Public(members: seq<Member>): (ps: seq<Member>)
    ensures forall i :: 0 <= i < |ps| ==> !IsInternal(ps[i].name)
    ensures forall m :: m in ps <==> m in members && !IsInternal(m.name)
    ensures IsSubsequence(ps, members)
    decreases |members|
  {
    if |members| == 0 then []
    else
      var rest := Public(members[1..]);
      assert forall m :: m in members <==> m == members[0] || m in members[1..];
      if IsInternal(members[0].name) then rest else [members[0]] + rest
  }

  /** True when every documented parameter of `m` has an annotation. */
  predicate Annotated(m: Member) {
    forall j :: 0 <= j < |m.doc.params| ==> m.doc.params[j].argName in m.annotations
  }

  /** `f` is the function built from `m`: same name, the docstring's short description, and one
      parameter per documented parameter in docstring order, typed by its annotation and optional
      only when the docstring says so. */
  predicate Describes(f: Function, m: Member) {
    && f.name == m.name
    && f.description == m.doc.shortDescription
    && |f.parameters| == |m.doc.params|
    && forall j :: 0 <= j < |f.parameters| ==>
         var d := m.doc.params[j];
         && d.argName in m.annotations
         && f.parameters[j] == Parameter(d.argName, m.annotations[d.argName], d.isOptional == Some(true), d.description)
  }

  /** `j` is the first documented parameter without an annotation: where the loop raises. */
  predicate FirstUnannotated(doc: seq<DocParam>, annotations: map<string, string>, j: int) {
    && 0 <= j < |doc|
    && doc[j].argName !in annotations
    && forall k :: 0 <= k < j ==> doc[k].argName in annotations
  }

  function BuildParameters(fname: string, doc: seq<DocParam>, annotations: map<string, string>): (r: Result<seq<Parameter>, IntrospectionError>)
    ensures r.Success? <==> forall j :: 0 <= j < |doc| ==> doc[j].argName in annotations
    ensures r.Success? ==> (
      && |r.value| == |doc|
      && forall j :: 0 <= j < |doc| ==>
           doc[j].argName in annotations &&
           r.value[j] == Parameter(doc[j].argName, annotations[doc[j].argName], doc[j].isOptional == Some(true), doc[j].description))
    ensures r.Failure? ==> (
      && r.error.functionName == fname
      && exists j :: FirstUnannotated(doc, annotations, j) && doc[j].argName == r.error.parameter)
    decreases |doc|
  {
    if |doc| == 0 then Success([])
    else
      var d := doc[0];
      if d.argName !in annotations then Failure(MissingAnnotation(fname, d.argName))
      else
        match BuildParameters(fname, doc[1..], annotations)
        case Failure(e) =>
          assert forall j :: 1 <= j < |doc| ==> doc[1..][j - 1] == doc[j];
          Failure(e)
        case Success(rest) =>
          assert forall j :: 1 <= j < |doc| ==> doc[1..][j - 1] == doc[j];
          Success([Parameter(d.argName, annotations[d.argName], d.isOptional == Some(true), d.description)] + rest)
  }

  /** The first member that is not annotated aborts the collection with its error; otherwise
      every member becomes the function it describes, in order. */
  function BuildFunctions(ms: seq<Member>): (r: Result<seq<Function>, IntrospectionError>)
    ensures r.Success? <==> forall i :: 0 <= i < |ms| ==> Annotated(ms[i])
    ensures r.Success? ==> (
      && |r.value| == |ms|
      && forall i :: 0 <= i < |ms| ==> Describes(r.value[i], ms[i]))
    ensures r.Failure? ==> (
      exists i :: 0 <= i < |ms| && ms[i].name == r.error.functionName &&
        (forall k :: 0 <= k < i ==> Annotated(ms[k])) &&
        exists j :: FirstUnannotated(ms[i].doc.params, ms[i].annotations, j) && ms[i].doc.params[j].argName == r.error.parameter)
    decreases |ms|
  {
    if |ms| == 0 then Success([])
    else
      var m := ms[0];
      assert forall i :: 1 <= i < |ms| ==> ms[1..][i - 1] == ms[i];
      match BuildParameters(m.name, m.doc.params, m.annotations)
      case Failure(e) => Failure(e)
      case Success(ps) =>
        match BuildFunctions(ms[1..])
        case Failure(e) => Failure(e)
        case Success(fs) =>
          var f := Function(m.name, m.doc.shortDescription, ps);
          assert Describes(f, m);
          Success([f] + fs)
  }

  /** `get_functions` over an explicit member list: members whose name starts with `_` are
      skipped, every other member becomes one function, in member order. The first documented
      parameter without an annotation aborts the whole collection. */
  function GetFunctions(members: seq<Member>): (r: Result<seq<Function>, IntrospectionError>)
    ensures r.Success? <==> forall m :: m in Public(members) ==> Annotated(m)
    ensures r.Success? ==> (
      && |r.value| == |Public(members)|
      && forall i :: 0 <= i < |r.value| ==> Describes(r.value[i], Public(members)[i]))
    ensures r.Failure? ==> (
      var ps := Public(members);
      exists i :: 0 <= i < |ps| && ps[i].name == r.error.functionName &&
        (forall k :: 0 <= k < i ==> Annotated(ps[k])) &&
        exists j :: FirstUnannotated(ps[i].doc.params, ps[i].annotations, j) && ps[i].doc.params[j].argName == r.error.parameter)
  {
    BuildFunctions(Public(members))
  }
}
