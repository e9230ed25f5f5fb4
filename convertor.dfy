/** Model of misc/convertor.js: a JSON-Schema-like document, whose fields are
    grouped through `allOf` references into `definitions`, becomes a "v3"
    workflow descriptor with a flat `inputs` object and a `ui` layout.

    The output objects are records whose fields, in declaration order, are the
    members the source puts into each object literal, in the same order.
    Preconditions exclude every shape on which the source would throw a
    TypeError, and a few more on which it would not; README's "Left out"
    section lists those.
 */
module Convertor {
  import opened JsValue

  // ---------------------------------------------------------------------
  // Output records

  /** `{id: option, name: option}`: one choice of an enumerated string. */
  datatype EnumOption = EnumOption(id: Json, name: Json)

  /** The members a normalised input carries after its six base members. */
  datatype TypeSpec =
    | EnumString(options: seq<EnumOption>)        // type "string", format "enum", enum
    | FileString                                  // type "string", format "file"
    | DirString                                   // type "string", format "dir-path"
    | IntegerRange(minimum: Json, maximum: Json)  // type "integer", minimum, maximum
    | BooleanFlag                                 // type "boolean"
    | PatternString(pattern: Json)                // type "string", pattern
  {
    /** The value of the `type` member. */
    function TypeName(): string {
      match this
      case IntegerRange(_, _) => "integer"
      case BooleanFlag => "boolean"
      case _ => "string"
    }

    /** The value of the `format` member, when there is one. */
    function Format(): Option<string> {
      match this
      case EnumString(_) => Some("enum")
      case FileString => Some("file")
      case DirString => Some("dir-path")
      case _ => None
    }
  }

  /** A normalised input: `title`, `required`, `description`, `default`,
      `help_text`, `hidden`, then the members of `spec`. */
  datatype Input = Input(
    title: Json,
    required: bool,
    description: Json,
    default: Json,
    helpText: Json,
    hidden: Json,
    spec: TypeSpec)

  /** One UI section: `{id, title, description, fields}`. */
  datatype Section = Section(id: string, title: Json, description: Json, fields: seq<string>)

  /** `{inputs: [...sections]}`. */
  datatype Ui = Ui(inputs: seq<Section>)

  /** The value `getInputsAndUI` returns: `{inputs, ui}`. */
  datatype InputsAndUI = InputsAndUI(inputs: seq<(string, Input)>, ui: Ui)

  /** The assembled v3 document, members in the order they are emitted. */
  datatype Document = Document(
    schema: string,
    id: string,
    displayName: string,
    title: Json,
    workflowVersion: string,
    categories: seq<Json>,
    description: Json,
    inputs: seq<(string, Input)>,
    ui: Ui)

  const EmptyInputsAndUI := InputsAndUI([], Ui([]))

  /** What a resolved group adds: its inputs and its UI section. */
  datatype Contribution = Contribution(inputs: seq<(string, Input)>, section: Section)

  // ---------------------------------------------------------------------
  // Shapes on which the source does not throw

  predicate IsArray(v: Option<Json>) {
    v.Some? && v.value.JArr?
  }

  predicate IsType(property: Json, t: string) {
    Member(property, "type") == Some(JStr(t))
  }

  /** `property.enum.map` (line 108) exists only on an array. */
  predicate PropertyOk(property: Json) {
    IsType(property, "string") && HasKey(property, "enum") ==> IsArray(Member(property, "enum"))
  }

  /** A value of `properties` that passes `typeof property === 'object'`
      (line 70) must not be `null`, whose members cannot be read. */
  predicate PropertyValueOk(v: Json) {
    !v.JNull? && PropertyOk(v)
  }

  /** `Object.entries(properties || {})` is taken on an object here: any other
      truthy value (a string or array, whose characters or indices the source
      would list, or a number or `true`, which have no entries) is left out. */
  predicate PropertiesOk(properties: Option<Json>) {
    Truthy(properties) ==>
      && properties.value.JObj?
      && forall i :: 0 <= i < |properties.value.members| ==>
           PropertyValueOk(properties.value.members[i].1)
  }

  /** `required.includes` (line 71) is called on an array. */
  predicate RequiredOk(required: Option<Json>) {
    Truthy(required) ==> IsArray(required)
  }

  /** A group that passes `typeof group === 'object'` (line 45). */
  predicate GroupOk(group: Json) {
    && !group.JNull?
    && PropertiesOk(Member(group, "properties"))
    && RequiredOk(Member(group, "required"))
  }

  /** `ref.$ref` (line 37) is read from a non-null entry and split only if it
      is a string. */
  predicate RefOk(ref: Json) {
    && !ref.JNull?
    && (Truthy(Member(ref, "$ref")) ==> Member(ref, "$ref").value.JStr?)
  }

  /** `groupName in jsonSchema.definitions` (line 40) needs an object on the right. */
  predicate DefinitionsOk(definitions: Option<Json>, name: string) {
    name != "" && Truthy(definitions) ==> definitions.value.JObj?
  }

  predicate EntryOk(definitions: Option<Json>, ref: Json) {
    && RefOk(ref)
    && DefinitionsOk(definitions, GroupName(ref))
    && match ResolveGroup(definitions, GroupName(ref))
       case Some(group) => GroupOk(group)
       case None => true
  }

  predicate EntriesOk(definitions: Option<Json>, refs: seq<Json>) {
    forall i :: 0 <= i < |refs| ==> EntryOk(definitions, refs[i])
  }

  /** A schema the converter runs on without throwing. */
  predicate SchemaOk(schema: Json) {
    && !schema.JNull?
    && (Truthy(Member(schema, "allOf")) ==>
          && IsArray(Member(schema, "allOf"))
          && EntriesOk(Member(schema, "definitions"), Member(schema, "allOf").value.items))
  }

  // ---------------------------------------------------------------------
  // Property normaliser: getInputFromProperty

  function EnumOptions(items: seq<Json>): (r: seq<EnumOption>)
    ensures |r| == |items|
    ensures forall i :: 0 <= i < |items| ==> r[i] == EnumOption(items[i], items[i])
  {
    seq(|items|, i requires 0 <= i < |items| => EnumOption(items[i], items[i]))
  }

  /** One property plus its `required` flag, normalised. The branches are tried
      in order: string with an `enum` key, string with format `file-path`,
      string with format `directory-path`, integer, boolean, and otherwise a
      string with a pattern. */
  function InputFromProperty(property: Json, required: bool): (r: Input)
    requires PropertyOk(property)
    ensures r.title == Or(Member(property, "title"), JStr(""))
    ensures r.required == required
    ensures r.description == Or(Member(property, "description"), JStr(""))
    ensures r.default == Or(Member(property, "default"), JStr(""))
    ensures r.helpText == Or(Member(property, "help_text"), JStr(""))
    ensures r.hidden == Or(Member(property, "hidden"), JBool(false))
    ensures r.spec.EnumString? <==> IsType(property, "string") && HasKey(property, "enum")
    ensures r.spec.EnumString? ==>
      var items := Member(property, "enum").value.items;
      && |r.spec.options| == |items|
      && forall i :: 0 <= i < |items| ==> r.spec.options[i] == EnumOption(items[i], items[i])
    ensures r.spec.FileString? <==>
      IsType(property, "string") && !HasKey(property, "enum")
      && Member(property, "format") == Some(JStr("file-path"))
    ensures r.spec.DirString? <==>
      IsType(property, "string") && !HasKey(property, "enum")
      && Member(property, "format") == Some(JStr("directory-path"))
    ensures r.spec.IntegerRange? <==> IsType(property, "integer")
    ensures r.spec.IntegerRange? ==>
      && r.spec.minimum == Or(Member(property, "minimum"), JStr(""))
      && r.spec.maximum == Or(Member(property, "maximum"), JStr(""))
    ensures r.spec.BooleanFlag? <==> IsType(property, "boolean")
    ensures r.spec.PatternString? <==>
      && !IsType(property, "integer")
      && !IsType(property, "boolean")
      && !(IsType(property, "string") && HasKey(property, "enum"))
      && !(IsType(property, "string") && Member(property, "format") in {Some(JStr("file-path")), Some(JStr("directory-path"))})
    ensures r.spec.PatternString? ==> r.spec.pattern == Or(Member(property, "pattern"), JStr(""))
  {
    var spec :=
      if IsType(property, "string") && HasKey(property, "enum") then
        EnumString(EnumOptions(Member(property, "enum").value.items))
      else if IsType(property, "string") && Member(property, "format") == Some(JStr("file-path")) then
        FileString
      else if IsType(property, "string") && Member(property, "format") == Some(JStr("directory-path")) then
        DirString
      else if IsType(property, "integer") then
        IntegerRange(Or(Member(property, "minimum"), JStr("")), Or(Member(property, "maximum"), JStr("")))
      else if IsType(property, "boolean") then
        BooleanFlag
      else
        PatternString(Or(Member(property, "pattern"), JStr("")));
    Input(
      Or(Member(property, "title"), JStr("")),
      required,
      Or(Member(property, "description"), JStr("")),
      Or(Member(property, "default"), JStr("")),
      Or(Member(property, "help_text"), JStr("")),
      Or(Member(property, "hidden"), JBool(false)),
      spec)
  }

  // ---------------------------------------------------------------------
  // Group extractor: getInputsFromGroup and getUIFromGroup

  /** `required ? required.includes(name) : false`. */
  predicate IsRequired(required: Option<Json>, name: string)
    requires RequiredOk(required)
  {
    Truthy(required) && Includes(required.value.items, name)
  }

  /** `Object.entries(properties || {})`. */
  function Entries(properties: Option<Json>): seq<(string, Json)>
    requires PropertiesOk(properties)
  {
    if Truthy(properties) then properties.value.members else []
  }

  predicate ValuesOk(entries: seq<(string, Json)>) {
    forall i :: 0 <= i < |entries| ==> PropertyValueOk(entries[i].1)
  }

  /** One step of the reduce: an object-valued entry is normalised and
      assigned under its name, anything else is ignored. */
  function AddProperty(acc: seq<(string, Input)>, entry: (string, Json), required: Option<Json>): seq<(string, Input)>
    requires PropertyValueOk(entry.1) && RequiredOk(required)
  {
    if TypeofObject(entry.1) then
      AssignMember(acc, entry.0, InputFromProperty(entry.1, IsRequired(required, entry.0)))
    else acc
  }

  /** The reduce over the first `n` entries. */
  function InputsOf(entries: seq<(string, Json)>, n: nat, required: Option<Json>): seq<(string, Input)>
    requires ValuesOk(entries) && RequiredOk(required) && n <= |entries|
  {
    if n == 0 then []
    else AddProperty(InputsOf(entries, n - 1, required), entries[n - 1], required)
  }

  /** What `getInputsFromGroup(properties, required)` returns. */
  function GroupInputs(properties: Option<Json>, required: Option<Json>): seq<(string, Input)>
    requires PropertiesOk(properties) && RequiredOk(required)
  {
    InputsOf(Entries(properties), |Entries(properties)|, required)
  }

  /** `getInputsFromGroup`: the reduce of lines 69-76, with its accumulator
      object updated in place one entry at a time. */
  method GetInputsFromGroup(properties: Option<Json>, required: Option<Json>) returns (acc: seq<(string, Input)>)
    requires PropertiesOk(properties) && RequiredOk(required)
    ensures acc == GroupInputs(properties, required)
  {
    var entries := Entries(properties);
    acc := [];
    var i := 0;
    while i < |entries|
      invariant 0 <= i <= |entries|
      invariant acc == InputsOf(entries, i, required)
    {
      var (name, property) := entries[i];
      if TypeofObject(property) {
        var requiredValue := IsRequired(required, name);
        var input := InputFromProperty(property, requiredValue);
        acc := AssignMember(acc, name, input);
      }
      i := i + 1;
    }
  }

  /** `getUIFromGroup`: the section lists every property key, object-valued
      or not, in declaration order. */
  function UIFromGroup(groupName: string, group: Json): (r: Section)
    requires PropertiesOk(Member(group, "properties"))
    ensures r.id == groupName
    ensures r.title == Or(Member(group, "title"), JStr(groupName))
    ensures r.description == Or(Member(group, "description"), JStr(""))
    ensures r.fields == Keys(Entries(Member(group, "properties")))
  {
    Section(
      groupName,
      Or(Member(group, "title"), JStr(groupName)),
      Or(Member(group, "description"), JStr("")),
      Keys(Entries(Member(group, "properties"))))
  }

  /** The inputs a resolved group contributes (line 47). */
  function GroupInputsOf(group: Json): seq<(string, Input)>
    requires GroupOk(group)
  {
    GroupInputs(Member(group, "properties"), Member(group, "required"))
  }

  // ---------------------------------------------------------------------
  // Schema flattener: getInputsAndUI

  /** `ref.$ref ? ref.$ref.split('/').pop() : ''`. */
  function GroupName(ref: Json): (name: string)
    requires RefOk(ref)
    ensures !Truthy(Member(ref, "$ref")) ==> name == ""
    ensures Truthy(Member(ref, "$ref")) ==> name == LastSegment(Member(ref, "$ref").value.s, '/')
  {
    var r := Member(ref, "$ref");
    if Truthy(r) then LastSegment(r.value.s, '/') else ""
  }

  /** `jsonSchema.definitions[name]` for a name the `in` test of line 40
      accepts: an own member, or one inherited from `Object.prototype`. Of the
      inherited members only `__proto__` is an object (`Object.prototype`
      itself, none of whose members this program reads, so it stands here as
      the empty object); the others are functions, shown as `None`. */
  function Lookup(definitions: Json, name: string): Option<Json>
    requires definitions.JObj?
  {
    if name in Keys(definitions.members) then Get(definitions.members, name)
    else if name == ProtoKey then Some(JObj([]))
    else None
  }

  /** Lines 40-45: the group an entry names, when it is found and is an object. */
  function ResolveGroup(definitions: Option<Json>, name: string): (g: Option<Json>)
    requires DefinitionsOk(definitions, name)
    ensures g.Some? <==>
      && name != ""
      && Truthy(definitions)
      && (|| (name in Keys(definitions.value.members) && TypeofObject(Get(definitions.value.members, name).value))
          || (name == ProtoKey && ProtoKey !in Keys(definitions.value.members)))
    ensures g.Some? && name in Keys(definitions.value.members) ==> g == Get(definitions.value.members, name)
  {
    if name != "" && Truthy(definitions) && (name in Keys(definitions.value.members) || name in ObjectPrototypeMembers) then
      match Lookup(definitions.value, name)
      case Some(group) => if TypeofObject(group) then Some(group) else None
      case None => None
    else None
  }

  /** Lines 37-45 and 47-51 for one entry: the group it names, when that
      resolves, contributes `getInputsFromGroup` of its properties and
      `getUIFromGroup` of itself. */
  function ContributionOf(definitions: Option<Json>, ref: Json): Option<Contribution>
    requires EntryOk(definitions, ref)
  {
    var name := GroupName(ref);
    match ResolveGroup(definitions, name)
    case None => None
    case Some(group) => Some(Contribution(GroupInputsOf(group), UIFromGroup(name, group)))
  }

  /** Lines 47-51: `Object.assign` of the contributed inputs into the
      accumulated ones, and the section pushed onto the accumulated list. */
  function Merge(acc: InputsAndUI, c: Option<Contribution>): (r: InputsAndUI)
    ensures c.None? ==> r == acc
    ensures c.Some? ==> r.ui.inputs == acc.ui.inputs + [c.value.section]
  {
    match c
    case None => acc
    case Some(Contribution(inputs, section)) =>
      InputsAndUI(Assign(acc.inputs, inputs), Ui(acc.ui.inputs + [section]))
  }

  /** One step of the reduce at lines 35-60. */
  function Step(definitions: Option<Json>, acc: InputsAndUI, ref: Json): InputsAndUI
    requires EntryOk(definitions, ref)
  {
    Merge(acc, ContributionOf(definitions, ref))
  }

  /** The reduce over the first `n` entries of `allOf`. */
  function FoldRefs(definitions: Option<Json>, refs: seq<Json>, n: nat): (r: InputsAndUI)
    requires EntriesOk(definitions, refs) && n <= |refs|
    ensures |r.ui.inputs| <= n
  {
    if n == 0 then EmptyInputsAndUI
    else Step(definitions, FoldRefs(definitions, refs, n - 1), refs[n - 1])
  }

  /** What `getInputsAndUI(jsonSchema)` returns. */
  function Flatten(schema: Json): (r: InputsAndUI)
    requires SchemaOk(schema)
    ensures !Truthy(Member(schema, "allOf")) ==> r == EmptyInputsAndUI
    ensures Truthy(Member(schema, "allOf")) ==> |r.ui.inputs| <= |Member(schema, "allOf").value.items|
  {
    var allOf := Member(schema, "allOf");
    if Truthy(allOf) then FoldRefs(Member(schema, "definitions"), allOf.value.items, |allOf.value.items|)
    else EmptyInputsAndUI
  }

  /** The callback of the reduce at lines 36-59: resolve the entry's group
      and, when it is found, merge its inputs and append its section. */
  method ReduceStep(definitions: Option<Json>, acc: InputsAndUI, ref: Json) returns (result: InputsAndUI)
    requires EntryOk(definitions, ref)
    ensures result == Step(definitions, acc, ref)
  {
    result := acc;
    var groupName := GroupName(ref);
    var found := ResolveGroup(definitions, groupName);
    if found.Some? {
      var group := found.value;
      var groupInputs := GetInputsFromGroup(Member(group, "properties"), Member(group, "required"));
      var mergedInputs := Assign(result.inputs, groupInputs);
      var groupUI := UIFromGroup(groupName, group);
      result := InputsAndUI(mergedInputs, Ui(result.ui.inputs + [groupUI]));
    }
  }

  /** `getInputsAndUI`: the reduce of lines 35-60 over `allOf`, starting from
      empty `inputs` and `ui` lists. */
  method GetInputsAndUI(schema: Json) returns (result: InputsAndUI)
    requires SchemaOk(schema)
    ensures result == Flatten(schema)
  {
    result := EmptyInputsAndUI;
    var allOf := Member(schema, "allOf");
    if Truthy(allOf) {
      var definitions := Member(schema, "definitions");
      var refs := allOf.value.items;
      var i := 0;
      while i < |refs|
        invariant 0 <= i <= |refs|
        invariant result == FoldRefs(definitions, refs, i)
      {
        result := ReduceStep(definitions, result, refs[i]);
        i := i + 1;
      }
    }
  }

  // ---------------------------------------------------------------------
  // Document assembler: convertJsonSchemaToV3

  /** The fixed metadata defaults with the flattened `inputs` and `ui`. */
  function ConvertJsonSchemaToV3(schema: Json): (d: Document)
    requires SchemaOk(schema)
    ensures d.schema == "v3" && d.id == "" && d.displayName == "" && d.workflowVersion == ""
    ensures d.categories == []
    ensures d.title == Or(Member(schema, "title"), JStr(""))
    ensures d.description == Or(Member(schema, "description"), JStr(""))
    ensures d.inputs == Flatten(schema).inputs && d.ui == Flatten(schema).ui
  {
    var flat := Flatten(schema);
    Document(
      "v3", "", "",
      Or(Member(schema, "title"), JStr("")),
      "", [],
      Or(Member(schema, "description"), JStr("")),
      flat.inputs, flat.ui)
  }
}
