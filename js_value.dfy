/** The JavaScript values and operators the converter relies on: JSON values
    (a superset of the values `JSON.parse` produces: duplicate names are
    allowed), ordered objects (association lists in insertion order),
    truthiness and `||`, member access, the `in` operator, `Object.assign`,
    `Array.prototype.includes` of a string name and `String.prototype.split`
    followed by `pop`.
 */
module JsValue {

  datatype Option<+T> = None | Some(value: T)

  /** A JSON value. Numbers are integers (floating point is not modelled);
      an object is its list of members in declaration order. */
  datatype Json =
    | JNull
    | JBool(b: bool)
    | JNum(n: int)
    | JStr(s: string)
    | JArr(items: seq<Json>)
    | JObj(members: seq<(string, Json)>)

  /** The key JavaScript treats specially on assignment and lookup. */
  const ProtoKey: string := "__proto__"

  // ---------------------------------------------------------------------
  // Ordered objects

  /** `Object.keys`: the member names in order. */
  function Keys<V>(o: seq<(string, V)>): (ks: seq<string>)
    ensures |ks| == |o|
    ensures forall i :: 0 <= i < |o| ==> ks[i] == o[i].0
  {
    if o == [] then [] else [o[0].0] + Keys(o[1..])
  }

  predicate UniqueKeys<V>(o: seq<(string, V)>) {
    forall i, j :: 0 <= i < j < |o| ==> o[i].0 != o[j].0
  }

  /** Own-member lookup; absent members are `None` (JavaScript's `undefined`). */
  function Get<V>(o: seq<(string, V)>, k: string): (r: Option<V>)
    ensures r.None? <==> k !in Keys(o)
  {
    if o == [] then None
    else if o[0].0 == k then Some(o[0].1)
    else Get(o[1..], k)
  }

  /** Assigning `o[k] = v` on a data object: an existing member keeps its
      position and takes the new value, a new member goes last. */
  function Put<V>(o: seq<(string, V)>, k: string, v: V): (r: seq<(string, V)>)
    ensures Get(r, k) == Some(v)
    ensures forall k' :: k' != k ==> Get(r, k') == Get(o, k')
  {
    if o == [] then [(k, v)]
    else if o[0].0 == k then [(k, v)] + o[1..]
    else
      var r := [o[0]] + Put(o[1..], k, v);
      assert r[1..] == Put(o[1..], k, v);
      r
  }

  /** Putting a new key appends it; putting an existing one keeps the order. */
  lemma {:induction false} PutKeys<V>(o: seq<(string, V)>, k: string, v: V)
    ensures Keys(Put(o, k, v)) == if k in Keys(o) then Keys(o) else Keys(o) + [k]
  {
    if o != [] {
      var r := Put(o, k, v);
      if o[0].0 != k {
        PutKeys(o[1..], k, v);
        assert r[1..] == Put(o[1..], k, v);
        assert Keys(r) == [o[0].0] + Keys(Put(o[1..], k, v));
        assert k in Keys(o) <==> k in Keys(o[1..]);
      } else {
        assert r[1..] == o[1..];
      }
    }
  }

  lemma TailUnique<V>(o: seq<(string, V)>)
    requires o != [] && UniqueKeys(o)
    ensures UniqueKeys(o[1..]) && o[0].0 !in Keys(o[1..])
  {
    forall a, b | 0 <= a < b < |o[1..]| ensures o[1..][a].0 != o[1..][b].0 {
      assert o[1..][a] == o[a + 1] && o[1..][b] == o[b + 1];
    }
    forall j | 0 <= j < |o[1..]| ensures Keys(o[1..])[j] != o[0].0 {
      assert o[1..][j] == o[j + 1];
    }
  }

  lemma ConsUnique<V>(p: (string, V), o: seq<(string, V)>)
    requires UniqueKeys(o) && p.0 !in Keys(o)
    ensures UniqueKeys([p] + o)
  {
    var r := [p] + o;
    forall a, b | 0 <= a < b < |r| ensures r[a].0 != r[b].0 {
      assert r[b] == o[b - 1];
      if a > 0 { assert r[a] == o[a - 1]; } else { assert Keys(o)[b - 1] == o[b - 1].0; }
    }
  }

  /** Putting keeps the keys distinct. */
  lemma {:induction false} PutUnique<V>(o: seq<(string, V)>, k: string, v: V)
    requires UniqueKeys(o)
    ensures UniqueKeys(Put(o, k, v))
  {
    if o != [] {
      TailUnique(o);
      if o[0].0 != k {
        PutUnique(o[1..], k, v);
        PutKeys(o[1..], k, v);
        ConsUnique(o[0], Put(o[1..], k, v));
      } else {
        ConsUnique((k, v), o[1..]);
      }
    }
  }

  /** `Object.assign(target, {[k]: v})` on a plain object. Assigning the key
      `"__proto__"` goes through the inherited accessor and replaces the
      target's prototype, so no own member appears. */
  function AssignMember<V>(o: seq<(string, V)>, k: string, v: V): (r: seq<(string, V)>)
    ensures k == ProtoKey ==> r == o
    ensures k != ProtoKey ==> Get(r, k) == Some(v)
    ensures forall k' :: k' != k ==> Get(r, k') == Get(o, k')
  {
    if k == ProtoKey then o else Put(o, k, v)
  }

  /** `Object.assign(target, source)`: the members of `source` assigned one by
      one, in order. A name the source does not carry, and `__proto__`, keep
      the target's value. */
  function Assign<V>(target: seq<(string, V)>, source: seq<(string, V)>): (r: seq<(string, V)>)
    ensures forall k :: k == ProtoKey || k !in Keys(source) ==> Get(r, k) == Get(target, k)
  {
    if source == [] then target
    else
      var n := |source| - 1;
      assert Keys(source) == Keys(source[..n]) + [source[n].0];
      AssignMember(Assign(target, source[..n]), source[n].0, source[n].1)
  }

  // ---------------------------------------------------------------------
  // Truthiness and member access

  /** JavaScript truthiness of a possibly absent value: `undefined`, `null`,
      `false`, `0` and `""` are falsy, every array and object is truthy. */
  predicate Truthy(v: Option<Json>) {
    match v
    case None => false
    case Some(JNull) => false
    case Some(JBool(b)) => b
    case Some(JNum(n)) => n != 0
    case Some(JStr(s)) => s != ""
    case Some(JArr(_)) => true
    case Some(JObj(_)) => true
  }

  /** `v || d`. */
  function Or(v: Option<Json>, d: Json): (r: Json)
    ensures Truthy(v) ==> r == v.value
    ensures !Truthy(v) ==> r == d
  {
    if Truthy(v) then v.value else d
  }

  /** `j.k` for the member names this program reads. Only objects own them:
      arrays, strings, numbers and booleans carry none of those names, and
      `Object.prototype` defines none of them. */
  function Member(j: Json, k: string): (r: Option<Json>)
    ensures j.JObj? ==> r == Get(j.members, k)
    ensures !j.JObj? ==> r == None
  {
    if j.JObj? then Get(j.members, k) else None
  }

  /** The members every plain object inherits from `Object.prototype`. */
  const ObjectPrototypeMembers: set<string> := {
    "constructor", "hasOwnProperty", "isPrototypeOf", "propertyIsEnumerable",
    "toLocaleString", "toString", "valueOf", "__defineGetter__",
    "__defineSetter__", "__lookupGetter__", "__lookupSetter__", ProtoKey
  }

  /** `k in j` for a name that `Object.prototype` does not define. */
  predicate HasKey(j: Json, k: string) {
    j.JObj? && k in Keys(j.members)
  }

  /** `typeof j === 'object'` (true of `null` as well). */
  predicate TypeofObject(j: Json) {
    j.JNull? || j.JArr? || j.JObj?
  }

  /** `items.includes(name)`: SameValueZero on a string is plain equality. */
  predicate Includes(items: seq<Json>, name: string) {
    JStr(name) in items
  }

  // ---------------------------------------------------------------------
  // Strings

  /** `s.split(sep)` for a one-character separator: the maximal pieces between
      separators, an empty piece on either side of a separator at an end. */
  function Split(s: string, sep: char): (parts: seq<string>)
    ensures |parts| >= 1
  {
    if s == [] then [""]
    else
      var n := |s| - 1;
      var parts := Split(s[..n], sep);
      if s[n] == sep then parts + [""]
      else parts[..|parts| - 1] + [parts[|parts| - 1] + [s[n]]]
  }

  /** `parts.join(sep)`. */
  function Join(parts: seq<string>, sep: char): string
    requires |parts| >= 1
  {
    if |parts| == 1 then parts[0]
    else Join(parts[..|parts| - 1], sep) + [sep] + parts[|parts| - 1]
  }

  /** `s.split(sep).pop()`. */
  function LastSegment(s: string, sep: char): string {
    var parts := Split(s, sep);
    parts[|parts| - 1]
  }

  // ---------------------------------------------------------------------
  // Lemmas about ordered objects

  lemma {:induction false} GetSnoc<V>(o: seq<(string, V)>, k: string, v: V, k': string)
    ensures Get(o + [(k, v)], k') ==
      if k' in Keys(o) then Get(o, k') else if k' == k then Some(v) else None
  {
    if o != [] {
      assert (o + [(k, v)])[1..] == o[1..] + [(k, v)];
      assert Keys(o) == [o[0].0] + Keys(o[1..]);
      GetSnoc(o[1..], k, v, k');
    }
  }

  /** With distinct keys, each member is found by its own name. */
  lemma {:induction false} GetAt<V>(o: seq<(string, V)>, i: nat)
    requires UniqueKeys(o) && i < |o|
    ensures Get(o, o[i].0) == Some(o[i].1)
  {
    if i > 0 {
      assert UniqueKeys(o[1..]) by {
        forall a, b | 0 <= a < b < |o[1..]| ensures o[1..][a].0 != o[1..][b].0 {
          assert o[1..][a] == o[a + 1] && o[1..][b] == o[b + 1];
        }
      }
      assert o[1..][i - 1] == o[i];
      GetAt(o[1..], i - 1);
    }
  }

  /** `Object.assign` with a source of distinct keys other than `"__proto__"`:
      source members win, the target's others stay, and new keys are appended
      in the source's order. */
  lemma {:induction false} AssignGet<V>(target: seq<(string, V)>, source: seq<(string, V)>, k: string)
    requires UniqueKeys(source)
    ensures Get(Assign(target, source), k) ==
      if k == ProtoKey || k !in Keys(source) then Get(target, k) else Get(source, k)
  {
    if source != [] {
      var n := |source| - 1;
      var pre := source[..n];
      assert source == pre + [source[n]];
      assert UniqueKeys(pre);
      AssignGet(target, pre, k);
      GetSnoc(pre, source[n].0, source[n].1, k);
      assert source[n].0 !in Keys(pre) by {
        forall i | 0 <= i < |pre| ensures Keys(pre)[i] != source[n].0 {
          assert pre[i] == source[i];
        }
      }
      assert Keys(source) == Keys(pre) + [source[n].0];
    }
  }

  lemma {:induction false} AssignUnique<V>(target: seq<(string, V)>, source: seq<(string, V)>)
    requires UniqueKeys(target)
    ensures UniqueKeys(Assign(target, source))
  {
    if source != [] {
      var n := |source| - 1;
      AssignUnique(target, source[..n]);
      if source[n].0 != ProtoKey {
        PutUnique(Assign(target, source[..n]), source[n].0, source[n].1);
      }
    }
  }

  // ---------------------------------------------------------------------
  // Lemmas about splitting

  /** Joining the pieces again gives back the string. */
  lemma {:induction false} JoinSplit(s: string, sep: char)
    ensures Join(Split(s, sep), sep) == s
  {
    if s != [] {
      var n := |s| - 1;
      var parts := Split(s[..n], sep);
      JoinSplit(s[..n], sep);
      assert s[..n] + [s[n]] == s;
      if s[n] == sep {
        SplitAtSep(s, sep);
        JoinEmptyLast(parts, sep);
        assert Join(Split(s, sep), sep) == s[..n] + [sep];
      } else {
        SplitAtOther(s, sep);
        JoinLast(parts, sep, s[n]);
        assert Join(Split(s, sep), sep) == s[..n] + [s[n]];
      }
    }
  }

  lemma SplitAtSep(s: string, sep: char)
    requires s != [] && s[|s| - 1] == sep
    ensures Split(s, sep) == Split(s[..|s| - 1], sep) + [""]
  {
  }

  lemma SplitAtOther(s: string, sep: char)
    requires s != [] && s[|s| - 1] != sep
    ensures var parts := Split(s[..|s| - 1], sep);
      Split(s, sep) == parts[..|parts| - 1] + [parts[|parts| - 1] + [s[|s| - 1]]]
  {
  }

  lemma JoinEmptyLast(parts: seq<string>, sep: char)
    requires |parts| >= 1
    ensures Join(parts + [""], sep) == Join(parts, sep) + [sep]
  {
    assert (parts + [""])[..|parts|] == parts;
  }

  lemma {:induction false} JoinLast(parts: seq<string>, sep: char, c: char)
    requires |parts| >= 1
    ensures Join(parts[..|parts| - 1] + [parts[|parts| - 1] + [c]], sep) == Join(parts, sep) + [c]
  {
    var m := |parts| - 1;
    var q := parts[..m] + [parts[m] + [c]];
    if m > 0 {
      assert q[..m] == parts[..m];
    }
  }

  lemma LastSegmentStep(s: string, sep: char)
    requires s != []
    ensures LastSegment(s, sep) ==
      if s[|s| - 1] == sep then "" else LastSegment(s[..|s| - 1], sep) + [s[|s| - 1]]
  {
  }

  /** The string is the last piece with something before it. */
  lemma {:induction false} LastSegmentSuffix(s: string, sep: char) returns (before: string)
    ensures s == before + LastSegment(s, sep)
  {
    if s == [] {
      before := [];
    } else {
      var n := |s| - 1;
      var prev := LastSegmentSuffix(s[..n], sep);
      LastSegmentStep(s, sep);
      assert s == s[..n] + [s[n]];
      if s[n] == sep {
        before := s;
      } else {
        before := prev;
        assert s == before + (LastSegment(s[..n], sep) + [s[n]]);
      }
    }
  }

  /** The last piece holds no separator. */
  lemma {:induction false} LastSegmentFree(s: string, sep: char)
    ensures sep !in LastSegment(s, sep)
  {
    if s != [] {
      LastSegmentFree(s[..|s| - 1], sep);
      LastSegmentStep(s, sep);
    }
  }

  /** A last piece shorter than the string follows a separator. */
  lemma {:induction false} LastSegmentAfterSep(s: string, sep: char)
    ensures var r := LastSegment(s, sep);
      |r| < |s| ==> s[|s| - |r| - 1] == sep
  {
    if s != [] {
      var n := |s| - 1;
      LastSegmentAfterSep(s[..n], sep);
      LastSegmentStep(s, sep);
      if s[n] != sep {
        var p := LastSegment(s[..n], sep);
        if |p| < n {
          assert s[n - |p| - 1] == s[..n][n - |p| - 1];
        }
      }
    }
  }

  /** The last piece is the suffix after the last separator (all of the string
      when there is none). */
  lemma LastSegmentIsSuffix(s: string, sep: char)
    ensures var r := LastSegment(s, sep);
      && |r| <= |s|
      && r == s[|s| - |r|..]
      && sep !in r
      && (|r| < |s| ==> s[|s| - |r| - 1] == sep)
  {
    var before := LastSegmentSuffix(s, sep);
    assert s[|before|..] == LastSegment(s, sep);
    LastSegmentFree(s, sep);
    LastSegmentAfterSep(s, sep);
  }
}
