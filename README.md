# convertor.js in Dafny

This project models the conversion in `misc/convertor.js`. The converter
takes a JSON-Schema-like document whose fields are grouped through `allOf`
references into `definitions`. It produces a "v3" workflow descriptor with
three parts:

- fixed metadata;
- a flat `inputs` object, with one normalised input per distinct name of an
  object-valued property (other than `__proto__`) across the resolved
  groups; on a collision the last defining group's input wins;
- a `ui` layout, with one section per resolved group, in `allOf` order.

The model has three modules:

- `JsValue` (`js_value.dfy`) covers the JavaScript values and operators the
  converter relies on:
  - JSON values, with objects as ordered association lists;
  - truthiness and `||`, member access and the `in` test;
  - `typeof … === 'object'`;
  - `Object.assign`, including the special treatment of the key `__proto__`;
  - `Array.prototype.includes`;
  - `split('/').pop()`.
- `Convertor` (`convertor.dfy`) defines:
  - the output records;
  - the shapes on which the converter does not throw, used as preconditions;
  - the four converter functions.

  The two reduces, `getInputsFromGroup` and `getInputsAndUI`, are methods with
  loops. Each is proved equal to a specification function (`GroupInputs`,
  `Flatten`). The reduce callback of `getInputsAndUI` is its own method,
  `ReduceStep`.
- `ConvertorProperties` (`convertor_properties.dfy`) proves what the
  converter promises:
  - exactly which properties a group turns into inputs, and with what values;
  - that every input is listed in its group's section;
  - that the sections follow the `allOf` order, one per resolved entry;
  - that `inputs` holds exactly the names the resolved groups define, each
    once;
  - that on a collision the last defining group's normalisation wins, while
    every defining group's section still lists the name.

  These are stated over a generic "contribution" view: each `allOf` entry
  contributes its group's inputs and section, or nothing.
  `FlattenMergesContributions` connects that view to `Flatten`.

Two behaviours of the code are worth stating on their own, since a reader
might expect otherwise:

- `fields` lists every property key (line 85), but only object-valued keys
  other than `__proto__` become inputs (lines 70 and 73). So a name in a
  section's `fields` need not be a key of `inputs`.
  `NonObjectFieldHasNoInput` gives an instance; `InputsListedInFields`
  proves the direction that does hold.
- The `||` fallbacks (lines 96 and 124) turn `0` and `false` into `""`: a
  `minimum: 0` or a `default: false` is emitted as `""`.
  `FalsyValuesBecomeEmpty` states this.

## Model

| member | source | states |
|---|---|---|
| JsValue.Keys | misc/convertor.js:85 | `Object.keys`: the member names in order, one per member |
| JsValue.Get | misc/convertor.js:42 | own-member lookup is absent exactly when the name is not a key |
| JsValue.Put | misc/convertor.js:73 | after assigning `o[k] = v`, `k` holds `v` and every other name keeps its value |
| JsValue.PutKeys | misc/convertor.js:73 | assigning an existing key keeps the key order; a new key goes last |
| JsValue.PutUnique | misc/convertor.js:73 | assigning a member keeps the member names distinct |
| JsValue.AssignMember | misc/convertor.js:73 | `Object.assign(acc, {[k]: v})`: no change for `__proto__`; otherwise `k` holds `v` and other names are unchanged |
| JsValue.Assign | misc/convertor.js:48 | `Object.assign(target, source)` assigns the source's members one by one; a name the source does not carry, and `__proto__`, keep the target's value |
| JsValue.AssignGet | misc/convertor.js:48 | `Object.assign(target, source)`: each name not `__proto__` that source has takes source's value; other names keep target's |
| JsValue.AssignUnique | misc/convertor.js:48 | `Object.assign` keeps the target's member names distinct |
| JsValue.Or | misc/convertor.js:93-98 | the or-default `v` or `d` is `v` when `v` is truthy, `d` otherwise |
| JsValue.Truthy | misc/convertor.js:93-98 | JavaScript truthiness of a possibly absent value: `undefined`, `null`, `false`, `0` and `""` are falsy; every other number and string, `true`, and every array and object are truthy |
| JsValue.HasKey | misc/convertor.js:104 | `'enum' in property`: the name is an own member of an object (`Object.prototype` has no member named `enum`); false for anything else |
| JsValue.TypeofObject | misc/convertor.js:70 | `typeof v === 'object'` holds for `null`, arrays and objects, and for no boolean, number or string |
| JsValue.Includes | misc/convertor.js:71 | `required.includes(name)`: some item is the string `name` |
| JsValue.LastSegment | misc/convertor.js:37 | `s.split(sep).pop()`: the last piece of `Split` (characterised by `LastSegmentIsSuffix`) |
| JsValue.Member | misc/convertor.js:37 | `j.k` is the own member for an object, absent for anything else |
| JsValue.Split | misc/convertor.js:37 | `split` yields at least one piece |
| JsValue.JoinSplit | misc/convertor.js:37 | joining the pieces of `split` with the separator gives back the string |
| JsValue.LastSegmentSuffix | misc/convertor.js:37 | the string is some prefix followed by the last piece |
| JsValue.LastSegmentFree | misc/convertor.js:37 | the last piece contains no separator |
| JsValue.LastSegmentAfterSep | misc/convertor.js:37 | a last piece shorter than the string is preceded by a separator |
| JsValue.LastSegmentIsSuffix | misc/convertor.js:37 | `split(sep).pop()` is the suffix after the last separator, or the whole string when there is none |
| Convertor.EnumOptions | misc/convertor.js:108 | the enum options are `{id: o, name: o}` for each option `o`, in order |
| Convertor.GroupName | misc/convertor.js:37 | the group name is `split('/').pop()` of a truthy `$ref`, `""` otherwise (its meaning is stated by `GroupNameIsLastSegment`) |
| Convertor.Lookup | misc/convertor.js:40-42 | `definitions[name]`: an own member as is; the inherited `__proto__` as an object with no members; any other inherited name as no object |
| Convertor.ContributionOf | misc/convertor.js:37-51 | one `allOf` entry: when its group resolves, that group's `getInputsFromGroup` result and `getUIFromGroup` section; otherwise nothing |
| Convertor.InputFromProperty | misc/convertor.js:90-134 | base members with their or-default fallbacks; `required` as passed; the type branch taken, with both directions of each branch condition and each branch's extra members |
| Convertor.IsType | misc/convertor.js:102 | `property.type === t`: the property is an object whose `type` member is the string `t` |
| Convertor.IsRequired | misc/convertor.js:71 | `required ? required.includes(name) : false` |
| Convertor.Entries | misc/convertor.js:69 | `Object.entries` of `properties`, falling back to `{}`: the members of a truthy `properties` object in order, none for a falsy one |
| Convertor.AddProperty | misc/convertor.js:70-75 | the reduce callback: an object-valued entry is normalised with its `required` flag and assigned under its name; any other entry leaves the accumulator unchanged |
| Convertor.GetInputsFromGroup | misc/convertor.js:68-77 | the loop over the entries of `properties` (none when it is falsy) computes `GroupInputs` |
| Convertor.UIFromGroup | misc/convertor.js:80-87 | the section's id is the group name; title falls back to the name, description to `""`; fields are all property keys in order |
| Convertor.ResolveGroup | misc/convertor.js:40-45 | a group is found exactly when the name is non-empty, `definitions` is truthy, and the name is an own member holding an object or is the inherited `__proto__`; an own member is returned as is |
| Convertor.Merge | misc/convertor.js:47-55 | an unresolved entry leaves the accumulator unchanged; a resolved one appends its section to the accumulated sections |
| Convertor.FoldRefs | misc/convertor.js:35-60 | the reduce over `n` entries produces at most `n` sections |
| Convertor.Flatten | misc/convertor.js:28-65 | a falsy `allOf` gives empty `inputs` and `ui`; otherwise at most one section per entry |
| Convertor.ReduceStep | misc/convertor.js:36-59 | the reduce callback computes one `Step` of the fold |
| Convertor.GetInputsAndUI | misc/convertor.js:28-65 | the reduce loop computes `Flatten(schema)` |
| Convertor.ConvertJsonSchemaToV3 | misc/convertor.js:8-25 | the fixed metadata (`schema: "v3"`, empty id, name, version and categories); title and description with `""` fallbacks; `inputs` and `ui` from `Flatten` |
| ConvertorProperties.EmittedTypeAndFormat | misc/convertor.js:102-133 | the emitted `type` is `"integer"` or `"boolean"` exactly for those property types and `"string"` otherwise; `format` is `"enum"`, `"file"` or `"dir-path"` exactly under the string branches' conditions, and absent in the other branches |
| ConvertorProperties.InputsOfUnique | misc/convertor.js:69-76 | the group reduce yields distinct names |
| ConvertorProperties.InputsOfKeys | misc/convertor.js:69-76 | a name is in the group reduce's result exactly when an object-valued entry other than `__proto__` has it |
| ConvertorProperties.InputsOfValue | misc/convertor.js:69-76 | such an entry's name maps to the entry normalised with its `required` flag |
| ConvertorProperties.GroupInputsExactly | misc/convertor.js:68-77 | `getInputsFromGroup` has distinct names; a name is present exactly for each object-valued property other than `__proto__`; its value is that property normalised; it is required exactly when `required` lists the name; without `required`, nothing is required |
| ConvertorProperties.InputsListedInFields | misc/convertor.js:68-87 | every name the group contributes to `inputs` is in its section's `fields` |
| ConvertorProperties.NonObjectFieldHasNoInput | misc/convertor.js:68-87 | an instance: a group whose only property `x` is the number 5 lists `x` in `fields` and contributes no input |
| ConvertorProperties.FalsyValuesBecomeEmpty | misc/convertor.js:92-126 | `default: false` and `minimum: 0` both become `""` |
| ConvertorProperties.GroupNameIsLastSegment | misc/convertor.js:37 | the group name is empty for a falsy `$ref`; otherwise it is the suffix of `$ref` after its last `/`, and contains no `/` |
| ConvertorProperties.NonDefinersKeep | misc/convertor.js:48 | entries whose groups do not define a name leave its value in `inputs` unchanged |
| ConvertorProperties.LastDefinerWins | misc/convertor.js:48 | after several merges, a name holds the value from the last contribution that defines it |
| ConvertorProperties.NoDefinerNoInput | misc/convertor.js:35-60 | a name no contribution defines is absent from `inputs` |
| ConvertorProperties.DefinedNameIsInput | misc/convertor.js:35-60 | a name some contribution defines is present in `inputs` |
| ConvertorProperties.MergeAllUnique | misc/convertor.js:48 | merging keeps the names in `inputs` distinct |
| ConvertorProperties.SectionsInOrder | misc/convertor.js:52 | the sections are those of the present contributions, each taken once, in order |
| ConvertorProperties.FoldIsMergeAll | misc/convertor.js:35-60 | the reduce over `allOf` equals the merge of the entries' contributions |
| ConvertorProperties.ContributionOfOk | misc/convertor.js:47 | a group contributes inputs with distinct names, none of them `__proto__` |
| ConvertorProperties.FlattenMergesContributions | misc/convertor.js:35-60 | `getInputsAndUI` merges the contributions of the `allOf` entries in order; all of them are well formed |
| ConvertorProperties.FlattenInputsUnique | misc/convertor.js:28-65 | the flattened `inputs` has distinct names, none of them `__proto__` |
| ConvertorProperties.SectionsFollowAllOf | misc/convertor.js:33-64 | the UI sections are those of the resolvable `allOf` entries, one each, in `allOf` order |
| ConvertorProperties.InputNamesFromGroups | misc/convertor.js:35-60 | a name is in `inputs` exactly when the group of some resolvable `allOf` entry defines it |
| ConvertorProperties.LaterGroupWins | misc/convertor.js:48 | on a name collision, `inputs` holds the normalisation from the last group that defines the name |
| ConvertorProperties.SectionListsDefinedName | misc/convertor.js:47-51 | a group's section lists every name the group contributes |
| ConvertorProperties.CollisionKeepsBothSections | misc/convertor.js:47-52 | on a collision between an earlier group and the last defining group, `inputs` holds the later group's value, and both groups' sections, in that order, list the name |

## Left out

- The command-line wrapper (lines 4-5 and 136-146) is not modelled: reading
  the argument, reading the file, `JSON.parse`, `JSON.stringify` and writing
  `workflow.json`. The model starts from a parsed value and ends at the
  converted value.
- Numbers are integers. Floating point, `NaN` and `-0` are not modelled;
  they matter only for truthiness.
- Object key order is insertion order. JavaScript lists integer-like keys
  (such as `"1"`) first, in numeric order. That ordering is not modelled
  for `inputs` and `fields`.
- GetInputsFromGroup: its precondition excludes a truthy `properties` that
  is not an object, where the source would list a string's characters or an
  array's indices as entries, and none for a number or `true`. The same exclusion applies to GetInputsAndUI
  and ConvertJsonSchemaToV3 through `SchemaOk`.
- GetInputsFromGroup: its precondition excludes a truthy `required` that is
  a string, where the source would do a substring test. It also excludes a
  truthy non-array `required` in a group with no object-valued property,
  where `includes` is never called.
- GetInputsAndUI: its precondition excludes a truthy `definitions` that is
  an array, where the source would find indices with `in`.
- Inherited members: of all the names `Object.prototype` provides, only
  `__proto__` names an object. It is modelled as an object with no members,
  because the converter reads none of `Object.prototype`'s members. The
  other inherited names are functions, so their groups are skipped.
- `Object.assign` with the key `__proto__` replaces the accumulator's
  prototype, and that prototype is not modelled. The converter only ever
  copies own members afterwards, so it has no visible effect.
- The order of the keys in the merged `inputs` follows from `Put` and
  `Assign`. Only `PutKeys` states that order; no lemma states it for a whole
  group or schema.
- Duplicate member names: `Json` admits objects with a repeated name, which
  `JSON.parse` never produces (it keeps the last occurrence), and `Get`
  returns the first. Only `GroupInputsExactly` and the lemmas it uses
  require distinct names; the other contracts hold for any object.
