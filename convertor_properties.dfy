/** Properties of the converter: what one group contributes, which `allOf`
    entries produce UI sections and in what order, and which group's
    normalisation ends up in `inputs` when field names collide. */
module ConvertorProperties {
  import opened JsValue
  import opened Convertor

  /** An entry that `getInputsFromGroup` turns into an own member of its
      result: object-valued, under a name other than `__proto__`. */
  predicate Normalised(entry: (string, Json)) {
    entry.0 != ProtoKey && TypeofObject(entry.1)
  }

  // ---------------------------------------------------------------------
  // Group extractor

  lemma {:induction false} InputsOfUnique(entries: seq<(string, Json)>, n: nat, required: Option<Json>)
    requires ValuesOk(entries) && RequiredOk(required) && n <= |entries|
    ensures UniqueKeys(InputsOf(entries, n, required))
  {
    if n > 0 {
      InputsOfUnique(entries, n - 1, required);
      AddPropertyUnique(InputsOf(entries, n - 1, required), entries[n - 1], required);
    }
  }

  lemma AddPropertyUnique(acc: seq<(string, Input)>, entry: (string, Json), required: Option<Json>)
    requires PropertyValueOk(entry.1) && RequiredOk(required) && UniqueKeys(acc)
    ensures UniqueKeys(AddProperty(acc, entry, required))
  {
    if Normalised(entry) {
      PutUnique(acc, entry.0, InputFromProperty(entry.1, IsRequired(required, entry.0)));
    }
  }

  lemma AddPropertyKeys(acc: seq<(string, Input)>, entry: (string, Json), required: Option<Json>, k: string)
    requires PropertyValueOk(entry.1) && RequiredOk(required)
    ensures k in Keys(AddProperty(acc, entry, required)) <==>
      k in Keys(acc) || (k == entry.0 && Normalised(entry))
  {
    var r := AddProperty(acc, entry, required);
    assert Get(r, k).Some? <==> Get(acc, k).Some? || (k == entry.0 && Normalised(entry));
  }

  lemma AddPropertySets(acc: seq<(string, Input)>, entry: (string, Json), required: Option<Json>)
    requires PropertyValueOk(entry.1) && RequiredOk(required) && Normalised(entry)
    ensures Get(AddProperty(acc, entry, required), entry.0) ==
      Some(InputFromProperty(entry.1, IsRequired(required, entry.0)))
  {
  }

  lemma AddPropertyOther(acc: seq<(string, Input)>, entry: (string, Json), required: Option<Json>, k: string)
    requires PropertyValueOk(entry.1) && RequiredOk(required) && k != entry.0
    ensures Get(AddProperty(acc, entry, required), k) == Get(acc, k)
  {
  }

  /** One of the first `n` entries is named `k` and normalised. */
  predicate HasNormalised(entries: seq<(string, Json)>, n: nat, k: string)
    requires n <= |entries|
  {
    exists i :: 0 <= i < n && entries[i].0 == k && Normalised(entries[i])
  }

  lemma HasNormalisedStep(entries: seq<(string, Json)>, n: nat, k: string)
    requires 0 < n <= |entries|
    ensures HasNormalised(entries, n, k) <==>
      HasNormalised(entries, n - 1, k) || (entries[n - 1].0 == k && Normalised(entries[n - 1]))
  {
    if HasNormalised(entries, n, k) && !(entries[n - 1].0 == k && Normalised(entries[n - 1])) {
      var i :| 0 <= i < n && entries[i].0 == k && Normalised(entries[i]);
      assert i < n - 1;
    }
  }

  lemma {:induction false} InputsOfKeys(entries: seq<(string, Json)>, n: nat, required: Option<Json>, k: string)
    requires ValuesOk(entries) && RequiredOk(required) && n <= |entries|
    ensures k in Keys(InputsOf(entries, n, required)) <==> HasNormalised(entries, n, k)
  {
    if n > 0 {
      InputsOfKeys(entries, n - 1, required, k);
      AddPropertyKeys(InputsOf(entries, n - 1, required), entries[n - 1], required, k);
      HasNormalisedStep(entries, n, k);
    }
  }

  lemma {:induction false} InputsOfValue(entries: seq<(string, Json)>, n: nat, required: Option<Json>, i: nat)
    requires ValuesOk(entries) && RequiredOk(required) && n <= |entries|
    requires UniqueKeys(entries) && i < n && Normalised(entries[i])
    ensures Get(InputsOf(entries, n, required), entries[i].0) ==
      Some(InputFromProperty(entries[i].1, IsRequired(required, entries[i].0)))
  {
    if i < n - 1 {
      InputsOfValue(entries, n - 1, required, i);
      assert entries[n - 1].0 != entries[i].0;
      AddPropertyOther(InputsOf(entries, n - 1, required), entries[n - 1], required, entries[i].0);
    } else {
      AddPropertySets(InputsOf(entries, n - 1, required), entries[n - 1], required);
    }
  }

  /** `getInputsFromGroup` yields an entry exactly for each object-valued
      property (other than `__proto__`), holding that property normalised, and
      marked required exactly when its name is in the group's `required` list. */
  lemma GroupInputsExactly(properties: Option<Json>, required: Option<Json>)
    requires PropertiesOk(properties) && RequiredOk(required)
    requires Truthy(properties) ==> UniqueKeys(properties.value.members)
    ensures UniqueKeys(GroupInputs(properties, required))
    ensures forall k :: k in Keys(GroupInputs(properties, required)) <==>
      HasNormalised(Entries(properties), |Entries(properties)|, k)
    ensures forall i :: 0 <= i < |Entries(properties)| && Normalised(Entries(properties)[i]) ==>
      var (name, property) := Entries(properties)[i];
      && Get(GroupInputs(properties, required), name) == Some(InputFromProperty(property, IsRequired(required, name)))
      && (Get(GroupInputs(properties, required), name).value.required <==>
            Truthy(required) && Includes(required.value.items, name))
    ensures !Truthy(required) ==>
      forall i :: 0 <= i < |GroupInputs(properties, required)| ==> !GroupInputs(properties, required)[i].1.required
  {
    var entries := Entries(properties);
    var n := |entries|;
    InputsOfUnique(entries, n, required);
    forall k ensures k in Keys(GroupInputs(properties, required)) <==> HasNormalised(entries, n, k) {
      InputsOfKeys(entries, n, required, k);
    }
    forall i | 0 <= i < n && Normalised(entries[i])
      ensures Get(GroupInputs(properties, required), entries[i].0) ==
        Some(InputFromProperty(entries[i].1, IsRequired(required, entries[i].0)))
    {
      InputsOfValue(entries, n, required, i);
    }
    if !Truthy(required) {
      var r := GroupInputs(properties, required);
      forall j | 0 <= j < |r| ensures !r[j].1.required {
        GetAt(r, j);
        InputsOfKeys(entries, n, required, r[j].0);
        var i :| 0 <= i < n && entries[i].0 == r[j].0 && Normalised(entries[i]);
        InputsOfValue(entries, n, required, i);
      }
    }
  }

  /** Every name `getInputsFromGroup` produces is listed in the group's UI section. */
  lemma InputsListedInFields(groupName: string, group: Json)
    requires GroupOk(group)
    ensures forall k :: k in Keys(GroupInputsOf(group)) ==> k in UIFromGroup(groupName, group).fields
  {
    var entries := Entries(Member(group, "properties"));
    forall k | k in Keys(GroupInputsOf(group)) ensures k in Keys(entries) {
      InputsOfKeys(entries, |entries|, Member(group, "required"), k);
      var i :| 0 <= i < |entries| && entries[i].0 == k && Normalised(entries[i]);
      assert Keys(entries)[i] == k;
    }
  }

  /** The converse fails: a non-object property value is listed in `fields`
      but contributes no input. */
  lemma NonObjectFieldHasNoInput()
    ensures var group := JObj([("properties", JObj([("x", JNum(5))]))]);
      && UIFromGroup("G", group).fields == ["x"]
      && GroupInputsOf(group) == []
  {
    var props := JObj([("x", JNum(5))]);
    var group := JObj([("properties", props)]);
    assert Member(group, "properties") == Some(props);
    assert Entries(Some(props)) == [("x", JNum(5))];
  }

  /** The `type` and `format` members a normalised input is emitted with. */
  lemma EmittedTypeAndFormat(property: Json, required: bool)
    requires PropertyOk(property)
    ensures var spec := InputFromProperty(property, required).spec;
      && (spec.TypeName() == "integer" <==> IsType(property, "integer"))
      && (spec.TypeName() == "boolean" <==> IsType(property, "boolean"))
      && (spec.TypeName() == "string" <==> !IsType(property, "integer") && !IsType(property, "boolean"))
      && (spec.Format() == Some("enum") <==> IsType(property, "string") && HasKey(property, "enum"))
      && (spec.Format() == Some("file") <==>
            IsType(property, "string") && !HasKey(property, "enum")
            && Member(property, "format") == Some(JStr("file-path")))
      && (spec.Format() == Some("dir-path") <==>
            IsType(property, "string") && !HasKey(property, "enum")
            && Member(property, "format") == Some(JStr("directory-path")))
      && (spec.Format().None? <==> spec.IntegerRange? || spec.BooleanFlag? || spec.PatternString?)
  {
  }

  /** The `||` fallbacks replace every falsy value: an integer property with
      `minimum: 0` and `default: false` gets `""` for both. */
  lemma FalsyValuesBecomeEmpty()
    ensures var r := InputFromProperty(
        JObj([("type", JStr("integer")), ("minimum", JNum(0)), ("default", JBool(false))]), false);
      && r.default == JStr("")
      && r.spec == IntegerRange(JStr(""), JStr(""))
  {
    var p := JObj([("type", JStr("integer")), ("minimum", JNum(0)), ("default", JBool(false))]);
    assert Member(p, "type") == Some(JStr("integer"));
    assert Member(p, "minimum") == Some(JNum(0));
    assert Member(p, "default") == Some(JBool(false));
    assert Member(p, "maximum") == None;
  }

  // ---------------------------------------------------------------------
  // Group names

  /** The group name is the part of `$ref` after its last `/` (all of it when
      there is none), and empty when `$ref` is falsy. */
  lemma GroupNameIsLastSegment(ref: Json)
    requires RefOk(ref)
    ensures !Truthy(Member(ref, "$ref")) ==> GroupName(ref) == ""
    ensures Truthy(Member(ref, "$ref")) ==>
      var s := Member(ref, "$ref").value.s;
      var name := GroupName(ref);
      && '/' !in name
      && |name| <= |s| && name == s[|s| - |name|..]
      && (|name| < |s| ==> s[|s| - |name| - 1] == '/')
  {
    if Truthy(Member(ref, "$ref")) {
      LastSegmentIsSuffix(Member(ref, "$ref").value.s, '/');
    }
  }

  // ---------------------------------------------------------------------
  // Merging contributions

  /** The contribution adds its inputs under `name`. */
  predicate Defines(c: Option<Contribution>, name: string) {
    c.Some? && name in Keys(c.value.inputs)
  }

  /** A contribution whose inputs have distinct names, none `__proto__`, as
      every group's do. */
  predicate ContributionOk(c: Option<Contribution>) {
    c.Some? ==> UniqueKeys(c.value.inputs) && ProtoKey !in Keys(c.value.inputs)
  }

  predicate ContributionsOk(cs: seq<Option<Contribution>>) {
    forall i :: 0 <= i < |cs| ==> ContributionOk(cs[i])
  }

  /** The reduce over the first `n` contributions. */
  function MergeAll(cs: seq<Option<Contribution>>, n: nat): InputsAndUI
    requires n <= |cs|
  {
    if n == 0 then EmptyInputsAndUI else Merge(MergeAll(cs, n - 1), cs[n - 1])
  }

  /** How one contribution changes the value under `name`. */
  lemma MergeGet(acc: InputsAndUI, c: Option<Contribution>, name: string)
    requires ContributionOk(c)
    ensures Get(Merge(acc, c).inputs, name) ==
      if Defines(c, name) then Get(c.value.inputs, name) else Get(acc.inputs, name)
  {
    if c.Some? {
      AssignGet(acc.inputs, c.value.inputs, name);
    }
  }

  /** How contribution `n - 1` changes the value under `name`. */
  lemma MergeAllGet(cs: seq<Option<Contribution>>, n: nat, name: string)
    requires 0 < n <= |cs| && ContributionOk(cs[n - 1])
    ensures Get(MergeAll(cs, n).inputs, name) ==
      if Defines(cs[n - 1], name) then Get(cs[n - 1].value.inputs, name)
      else Get(MergeAll(cs, n - 1).inputs, name)
  {
    MergeGet(MergeAll(cs, n - 1), cs[n - 1], name);
  }

  /** Contribution `n - 1`, when it defines `name`, sets its value. */
  lemma DefinerSets(cs: seq<Option<Contribution>>, n: nat, name: string)
    requires 0 < n <= |cs| && ContributionOk(cs[n - 1]) && Defines(cs[n - 1], name)
    ensures Get(MergeAll(cs, n).inputs, name) == Get(cs[n - 1].value.inputs, name)
  {
    MergeAllGet(cs, n, name);
  }

  /** Contribution `n - 1`, when it does not define `name`, keeps its value. */
  lemma NonDefinerStepKeeps(cs: seq<Option<Contribution>>, n: nat, name: string)
    requires 0 < n <= |cs| && ContributionOk(cs[n - 1]) && !Defines(cs[n - 1], name)
    ensures Get(MergeAll(cs, n).inputs, name) == Get(MergeAll(cs, n - 1).inputs, name)
  {
    MergeAllGet(cs, n, name);
  }

  /** Contributions `m` to `n - 1` that do not define `name` leave its value alone. */
  lemma {:induction false} NonDefinersKeep(cs: seq<Option<Contribution>>, m: nat, n: nat, name: string)
    requires ContributionsOk(cs) && m <= n <= |cs|
    requires forall l :: m <= l < n ==> !Defines(cs[l], name)
    ensures Get(MergeAll(cs, n).inputs, name) == Get(MergeAll(cs, m).inputs, name)
  {
    if m < n {
      NonDefinersKeep(cs, m, n - 1, name);
      assert ContributionOk(cs[n - 1]) && !Defines(cs[n - 1], name);
      NonDefinerStepKeeps(cs, n, name);
    }
  }

  /** After the first `n` contributions, `inputs` holds under `name` the value
      of the last of them that defines it. */
  lemma LastDefinerWins(cs: seq<Option<Contribution>>, n: nat, name: string, j: nat)
    requires ContributionsOk(cs) && j < n <= |cs|
    requires Defines(cs[j], name)
    requires forall l :: j < l < n ==> !Defines(cs[l], name)
    ensures Get(MergeAll(cs, n).inputs, name) == Get(cs[j].value.inputs, name)
  {
    DefinerSets(cs, j + 1, name);
    NonDefinersKeep(cs, j + 1, n, name);
  }

  /** After the first `n` contributions, a name none of them defines is not in
      `inputs`. */
  lemma NoDefinerNoInput(cs: seq<Option<Contribution>>, n: nat, name: string)
    requires ContributionsOk(cs) && n <= |cs|
    requires forall l :: 0 <= l < n ==> !Defines(cs[l], name)
    ensures Get(MergeAll(cs, n).inputs, name).None?
  {
    NonDefinersKeep(cs, 0, n, name);
  }

  /** Merging keeps the names in `inputs` distinct. */
  lemma {:induction false} MergeAllUnique(cs: seq<Option<Contribution>>, n: nat)
    requires n <= |cs|
    ensures UniqueKeys(MergeAll(cs, n).inputs)
  {
    if n > 0 {
      MergeAllUnique(cs, n - 1);
      if cs[n - 1].Some? {
        AssignUnique(MergeAll(cs, n - 1).inputs, cs[n - 1].value.inputs);
      }
    }
  }

  /** A name some of the first `n` contributions define is in `inputs`. */
  lemma {:induction false} DefinedNameIsInput(cs: seq<Option<Contribution>>, n: nat, name: string, j: nat)
    requires ContributionsOk(cs) && j < n <= |cs|
    requires Defines(cs[j], name)
    ensures Get(MergeAll(cs, n).inputs, name).Some?
  {
    if !Defines(cs[n - 1], name) {
      NonDefinerStepKeeps(cs, n, name);
      DefinedNameIsInput(cs, n - 1, name, j);
    } else {
      DefinerSets(cs, n, name);
      assert Get(cs[n - 1].value.inputs, name).Some?;
    }
  }

  /** `out` lists the sections among the first `n` contributions, in order,
      `idx[k]` being the position `out[k]` was taken from; every section among
      them is taken. */
  predicate Picks(cs: seq<Option<Contribution>>, n: nat, out: seq<Section>, idx: seq<nat>) {
    && n <= |cs|
    && |idx| == |out|
    && (forall k :: 0 <= k < |idx| ==> idx[k] < n && cs[idx[k]].Some? && cs[idx[k]].value.section == out[k])
    && (forall k, l :: 0 <= k < l < |idx| ==> idx[k] < idx[l])
    && (forall i :: 0 <= i < n && cs[i].Some? ==> i in idx)
  }

  /** The sections after the first `n` contributions are theirs, one for each
      present contribution, in order. */
  lemma {:induction false} SectionsInOrder(cs: seq<Option<Contribution>>, n: nat) returns (idx: seq<nat>)
    requires n <= |cs|
    ensures Picks(cs, n, MergeAll(cs, n).ui.inputs, idx)
  {
    if n == 0 {
      idx := [];
    } else {
      var prev := SectionsInOrder(cs, n - 1);
      var before := MergeAll(cs, n - 1).ui.inputs;
      if cs[n - 1].Some? {
        idx := prev + [n - 1];
        var out := before + [cs[n - 1].value.section];
        assert MergeAll(cs, n).ui.inputs == out;
        forall k | 0 <= k < |idx|
          ensures idx[k] < n && cs[idx[k]].Some? && cs[idx[k]].value.section == out[k]
        {
          if k < |prev| {
            assert idx[k] == prev[k] && out[k] == before[k];
          }
        }
        forall i | 0 <= i < n && cs[i].Some? ensures i in idx {
          if i < n - 1 {
            var k :| 0 <= k < |prev| && prev[k] == i;
            assert idx[k] == i;
          } else {
            assert idx[|prev|] == i;
          }
        }
      } else {
        idx := prev;
      }
    }
  }

  /** Two present contributions have their sections in `out` in the same order. */
  lemma PicksOrder(cs: seq<Option<Contribution>>, n: nat, out: seq<Section>, idx: seq<nat>, j: nat, l: nat)
    returns (kj: nat, kl: nat)
    requires Picks(cs, n, out, idx)
    requires j < l < n && cs[j].Some? && cs[l].Some?
    ensures kj < kl < |out| && out[kj] == cs[j].value.section && out[kl] == cs[l].value.section
  {
    kj :| 0 <= kj < |idx| && idx[kj] == j;
    kl :| 0 <= kl < |idx| && idx[kl] == l;
    assert kj != kl;
  }

  // ---------------------------------------------------------------------
  // Schema flattener

  /** The contribution of each `allOf` entry. */
  function Contributions(definitions: Option<Json>, refs: seq<Json>): (cs: seq<Option<Contribution>>)
    requires EntriesOk(definitions, refs)
    ensures |cs| == |refs|
    ensures forall i :: 0 <= i < |refs| ==> cs[i] == ContributionOf(definitions, refs[i])
  {
    seq(|refs|, i requires 0 <= i < |refs| => ContributionOf(definitions, refs[i]))
  }

  lemma {:induction false} FoldIsMergeAll(definitions: Option<Json>, refs: seq<Json>, n: nat)
    requires EntriesOk(definitions, refs) && n <= |refs|
    ensures FoldRefs(definitions, refs, n) == MergeAll(Contributions(definitions, refs), n)
  {
    if n > 0 {
      FoldIsMergeAll(definitions, refs, n - 1);
    }
  }

  /** Every group contributes inputs with distinct names, none `__proto__`. */
  lemma ContributionOfOk(definitions: Option<Json>, ref: Json)
    requires EntryOk(definitions, ref)
    ensures ContributionOk(ContributionOf(definitions, ref))
  {
    match ResolveGroup(definitions, GroupName(ref))
    case None =>
    case Some(group) =>
      var entries := Entries(Member(group, "properties"));
      InputsOfUnique(entries, |entries|, Member(group, "required"));
      InputsOfKeys(entries, |entries|, Member(group, "required"), ProtoKey);
  }

  lemma ContributionsAreOk(definitions: Option<Json>, refs: seq<Json>)
    requires EntriesOk(definitions, refs)
    ensures ContributionsOk(Contributions(definitions, refs))
  {
    forall i | 0 <= i < |refs| ensures ContributionOk(ContributionOf(definitions, refs[i])) {
      ContributionOfOk(definitions, refs[i]);
    }
  }

  /** The `allOf` entries of a schema, empty when `allOf` is falsy. */
  function AllOf(schema: Json): seq<Json>
    requires SchemaOk(schema)
  {
    var allOf := Member(schema, "allOf");
    if Truthy(allOf) then allOf.value.items else []
  }

  /** The contribution of each `allOf` entry of a schema. */
  function SchemaContributions(schema: Json): (cs: seq<Option<Contribution>>)
    requires SchemaOk(schema)
    ensures |cs| == |AllOf(schema)|
  {
    Contributions(Member(schema, "definitions"), AllOf(schema))
  }

  /** `getInputsAndUI` merges the contributions of the `allOf` entries in order. */
  lemma FlattenMergesContributions(schema: Json)
    requires SchemaOk(schema)
    ensures ContributionsOk(SchemaContributions(schema))
    ensures Flatten(schema) == MergeAll(SchemaContributions(schema), |AllOf(schema)|)
  {
    FoldIsMergeAll(Member(schema, "definitions"), AllOf(schema), |AllOf(schema)|);
    ContributionsAreOk(Member(schema, "definitions"), AllOf(schema));
  }

  /** The flattened `inputs` has distinct names, none of them `__proto__`. */
  lemma FlattenInputsUnique(schema: Json)
    requires SchemaOk(schema)
    ensures UniqueKeys(Flatten(schema).inputs)
    ensures ProtoKey !in Keys(Flatten(schema).inputs)
  {
    FlattenMergesContributions(schema);
    MergeAllUnique(SchemaContributions(schema), |AllOf(schema)|);
    forall j | 0 <= j < |AllOf(schema)| ensures !Defines(SchemaContributions(schema)[j], ProtoKey) {
    }
    NoDefinerNoInput(SchemaContributions(schema), |AllOf(schema)|, ProtoKey);
  }

  /** The UI sections are the sections of the resolvable `allOf` entries, one
      each, in `allOf` order; unresolvable entries produce nothing. `idx` gives,
      for each section, the entry it comes from. */
  lemma SectionsFollowAllOf(schema: Json) returns (idx: seq<nat>)
    requires SchemaOk(schema)
    ensures Picks(SchemaContributions(schema), |AllOf(schema)|, Flatten(schema).ui.inputs, idx)
  {
    FlattenMergesContributions(schema);
    idx := SectionsInOrder(SchemaContributions(schema), |AllOf(schema)|);
  }

  /** The names in `inputs` are exactly the names the groups of the resolvable
      `allOf` entries define. */
  lemma InputNamesFromGroups(schema: Json, name: string)
    requires SchemaOk(schema)
    ensures name in Keys(Flatten(schema).inputs) <==>
      exists j :: 0 <= j < |AllOf(schema)| && Defines(SchemaContributions(schema)[j], name)
  {
    var cs, n := SchemaContributions(schema), |AllOf(schema)|;
    FlattenMergesContributions(schema);
    if exists j :: 0 <= j < n && Defines(cs[j], name) {
      var j :| 0 <= j < n && Defines(cs[j], name);
      DefinedNameIsInput(cs, n, name, j);
    } else {
      NoDefinerNoInput(cs, n, name);
    }
  }

  /** On a collision of field names, `inputs` holds the normalisation from the
      last group that defines the name. */
  lemma LaterGroupWins(schema: Json, name: string, j: nat)
    requires SchemaOk(schema)
    requires j < |AllOf(schema)| && Defines(SchemaContributions(schema)[j], name)
    requires forall l :: j < l < |AllOf(schema)| ==> !Defines(SchemaContributions(schema)[l], name)
    ensures Get(Flatten(schema).inputs, name) == Get(SchemaContributions(schema)[j].value.inputs, name)
  {
    FlattenMergesContributions(schema);
    LastDefinerWins(SchemaContributions(schema), |AllOf(schema)|, name, j);
  }

  /** The section of a group lists every name the group defines. */
  lemma SectionListsDefinedName(definitions: Option<Json>, ref: Json, name: string)
    requires EntryOk(definitions, ref) && Defines(ContributionOf(definitions, ref), name)
    ensures name in ContributionOf(definitions, ref).value.section.fields
  {
    InputsListedInFields(GroupName(ref), ResolveGroup(definitions, GroupName(ref)).value);
  }

  /** On a collision between an earlier group `j` and the last defining group
      `l`, `inputs` holds group `l`'s normalisation while both groups' sections,
      in this order, still list the name. */
  lemma CollisionKeepsBothSections(schema: Json, name: string, j: nat, l: nat)
    requires SchemaOk(schema)
    requires j < l < |AllOf(schema)|
    requires Defines(SchemaContributions(schema)[j], name) && Defines(SchemaContributions(schema)[l], name)
    requires forall m :: l < m < |AllOf(schema)| ==> !Defines(SchemaContributions(schema)[m], name)
    ensures Get(Flatten(schema).inputs, name) == Get(SchemaContributions(schema)[l].value.inputs, name)
    ensures var sections := Flatten(schema).ui.inputs;
      var cs := SchemaContributions(schema);
      exists kj, kl :: 0 <= kj < kl < |sections|
        && sections[kj] == cs[j].value.section && name in sections[kj].fields
        && sections[kl] == cs[l].value.section && name in sections[kl].fields
  {
    var definitions, refs, cs := Member(schema, "definitions"), AllOf(schema), SchemaContributions(schema);
    LaterGroupWins(schema, name, l);
    SectionListsDefinedName(definitions, refs[j], name);
    SectionListsDefinedName(definitions, refs[l], name);
    var idx := SectionsFollowAllOf(schema);
    var kj, kl := PicksOrder(cs, |refs|, Flatten(schema).ui.inputs, idx, j, l);
  }
}
