/** The flattener/extractor of the record processor: `flattenMap`,
    `extractNonListFields` and `extractArrayFields` of
    folder1/demo/src/main/java/com/example/demo/service/CsvRecordProcessor.java,
    as functions over the parsed tree. The Java code fills fresh
    `LinkedHashMap`s in loops; each loop is a left fold here, with the
    accumulator an insertion-ordered map from the LinkedMap module. */
module Flatten {
  import opened Json
  import opened LinkedMap

  const Separator: string := "_"

  /** A flattened record: an insertion-ordered map from joined key to value. */
  type FlatRecord = seq<Entry<JsonValue>>

  /** The array groups of a record: group name to its flattened items. */
  type Groups = seq<Entry<seq<FlatRecord>>>

  /** The key of a member under a parent: an empty parent key adds no prefix
      (this applies at any depth, not only at the top). */
  function JoinKey(parentKey: string, key: string): string
  {
    if parentKey == "" then key else parentKey + Separator + key
  }

  /** The flattened key of a path of object keys below `parentKey`. */
  function PathKey(parentKey: string, path: seq<string>): string
    decreases |path|
  {
    if path == [] then parentKey else PathKey(JoinKey(parentKey, path[0]), path[1..])
  }

  /** Following `path` through nested objects of `members` ends at the
      non-object value `v`. Arrays are not entered. */
  ghost predicate Reaches(members: seq<Entry<JsonValue>>, path: seq<string>, v: JsonValue)
    decreases |path|, 1
  {
    exists i :: 0 <= i < |members| && EntryReaches(members[i], path, v)
  }

  ghost predicate EntryReaches(e: Entry<JsonValue>, path: seq<string>, v: JsonValue)
    decreases |path|, 0
  {
    && |path| > 0
    && e.key == path[0]
    && if |path| == 1 then e.value == v && !v.JObject?
       else e.value.JObject? && Reaches(e.value.members, path[1..], v)
  }

  lemma ReachesCons(members: seq<Entry<JsonValue>>, path: seq<string>, v: JsonValue)
    requires members != []
    ensures Reaches(members, path, v) <==>
              EntryReaches(members[0], path, v) || Reaches(members[1..], path, v)
  {
    if Reaches(members[1..], path, v) {
      var i :| 0 <= i < |members[1..]| && EntryReaches(members[1..][i], path, v);
      assert members[i + 1] == members[1..][i];
    }
    if Reaches(members, path, v) && !EntryReaches(members[0], path, v) {
      var i :| 0 <= i < |members| && EntryReaches(members[i], path, v);
      assert members[1..][i - 1] == members[i];
    }
  }

  /** `e` is the value at the end of some path below `parentKey` whose joined
      key is `e`'s key. */
  ghost predicate FromPath(members: seq<Entry<JsonValue>>, parentKey: string, e: Entry<JsonValue>)
  {
    exists p :: Reaches(members, p, e.value) && PathKey(parentKey, p) == e.key
  }

  lemma PathKeyCons(parentKey: string, k: string, path: seq<string>)
    ensures PathKey(parentKey, [k] + path) == PathKey(JoinKey(parentKey, k), path)
  {
    assert ([k] + path)[1..] == path;
  }

  // ---------- flattenMap ----------

  /** `flattenMap(map)`: nested objects are merged into one level, their
      keys joined with "_". Lists and scalars are kept as values. */
  function FlattenMap(members: seq<Entry<JsonValue>>): seq<Entry<JsonValue>>
  {
    FlattenWithPrefix(members, "")
  }

  /** `flattenMap(map, parentKey, "_")`: a fresh map filled by one pass. */
  function FlattenWithPrefix(members: seq<Entry<JsonValue>>, parentKey: string): seq<Entry<JsonValue>>
    decreases members, 1
  {
    FlattenLoop([], members, parentKey)
  }

  /** The loop of `flattenMap`: a nested object's flattening is `putAll`ed,
      anything else is `put` under the joined key. */
  function FlattenLoop(acc: seq<Entry<JsonValue>>, members: seq<Entry<JsonValue>>, parentKey: string): seq<Entry<JsonValue>>
    decreases members, 0
  {
    if members == [] then acc
    else
      var key := JoinKey(parentKey, members[0].key);
      var value := members[0].value;
      var acc' := if value.JObject? then PutAll(acc, FlattenWithPrefix(value.members, key))
                  else Put(acc, key, value);
      FlattenLoop(acc', members[1..], parentKey)
  }

  /** Keys: the flattening has distinct keys, keeps those already collected,
      and holds the joined key of every path to a non-object value. */
  lemma {:induction false} FlattenLoopKeys(acc: seq<Entry<JsonValue>>, members: seq<Entry<JsonValue>>, parentKey: string)
    ensures DistinctKeys(acc) ==> DistinctKeys(FlattenLoop(acc, members, parentKey))
    ensures forall k :: k in Keys(acc) ==> k in Keys(FlattenLoop(acc, members, parentKey))
    ensures forall p, v :: Reaches(members, p, v) ==> PathKey(parentKey, p) in Keys(FlattenLoop(acc, members, parentKey))
    decreases members, 0
  {
    if members != [] {
      var k0, v0, rest := members[0].key, members[0].value, members[1..];
      var key := JoinKey(parentKey, k0);
      var acc' := if v0.JObject? then PutAll(acc, FlattenWithPrefix(v0.members, key)) else Put(acc, key, v0);
      var r := FlattenLoop(acc', rest, parentKey);
      assert r == FlattenLoop(acc, members, parentKey);
      FlattenLoopKeys(acc', rest, parentKey);
      if v0.JObject? {
        var sub := FlattenWithPrefix(v0.members, key);
        FlattenWithPrefixKeys(v0.members, key);
        PutAllKeys(acc, sub);
        if DistinctKeys(acc) { PutAllDistinct(acc, sub); }
      } else {
        if DistinctKeys(acc) { PutDistinct(acc, key, v0); }
      }
      forall p, v | Reaches(members, p, v) ensures PathKey(parentKey, p) in Keys(r) {
        ReachesCons(members, p, v);
        if !Reaches(rest, p, v) {
          PathKeyCons(parentKey, k0, p[1..]);
          assert [k0] + p[1..] == p;
          if |p| > 1 {
            assert Reaches(v0.members, p[1..], v);
          }
        }
      }
    }
  }

  lemma {:induction false} FlattenWithPrefixKeys(members: seq<Entry<JsonValue>>, parentKey: string)
    ensures DistinctKeys(FlattenWithPrefix(members, parentKey))
    ensures forall p, v :: Reaches(members, p, v) ==> PathKey(parentKey, p) in Keys(FlattenWithPrefix(members, parentKey))
    decreases members, 1
  {
    FlattenLoopKeys([], members, parentKey);
    assert FlattenWithPrefix(members, parentKey) == FlattenLoop([], members, parentKey);
  }

  /** Values: every entry of the flattening was collected before or is the
      value at the end of a path whose joined key is the entry's key. */
  lemma {:induction false} FlattenLoopSound(acc: seq<Entry<JsonValue>>, members: seq<Entry<JsonValue>>, parentKey: string)
    ensures forall e :: e in FlattenLoop(acc, members, parentKey) ==>
              e in acc || FromPath(members, parentKey, e)
    decreases members, 0
  {
    if members != [] {
      var k0, v0, rest := members[0].key, members[0].value, members[1..];
      var key := JoinKey(parentKey, k0);
      var acc' := if v0.JObject? then PutAll(acc, FlattenWithPrefix(v0.members, key)) else Put(acc, key, v0);
      var r := FlattenLoop(acc', rest, parentKey);
      assert r == FlattenLoop(acc, members, parentKey);
      FlattenLoopSound(acc', rest, parentKey);
      if v0.JObject? {
        var sub := FlattenWithPrefix(v0.members, key);
        FlattenWithPrefixSound(v0.members, key);
        PutAllEntries(acc, sub);
      } else {
        PutEntries(acc, key, v0);
      }
      forall e | e in FlattenLoop(acc, members, parentKey) && e !in acc
        ensures FromPath(members, parentKey, e)
      {
        assert e in r;
        if e in acc' {
          if v0.JObject? {
            assert FromPath(v0.members, key, e);
            var q :| Reaches(v0.members, q, e.value) && PathKey(key, q) == e.key;
            var p := [k0] + q;
            assert p[1..] == q;
            assert EntryReaches(members[0], p, e.value);
            ReachesCons(members, p, e.value);
            PathKeyCons(parentKey, k0, q);
          } else {
            assert e == Entry(key, v0);
            assert EntryReaches(members[0], [k0], v0);
            ReachesCons(members, [k0], v0);
            assert PathKey(parentKey, [k0]) == PathKey(key, []);
          }
        } else {
          assert FromPath(rest, parentKey, e);
          var p :| Reaches(rest, p, e.value) && PathKey(parentKey, p) == e.key;
          ReachesCons(members, p, e.value);
        }
      }
    }
  }

  lemma {:induction false} FlattenWithPrefixSound(members: seq<Entry<JsonValue>>, parentKey: string)
    ensures forall e :: e in FlattenWithPrefix(members, parentKey) ==>
              FromPath(members, parentKey, e)
    decreases members, 1
  {
    FlattenLoopSound([], members, parentKey);
    forall e | e in FlattenWithPrefix(members, parentKey)
      ensures FromPath(members, parentKey, e)
    {
      assert e in FlattenLoop([], members, parentKey);
      assert e !in [];
    }
  }

  /** The end of a path is never an object. */
  lemma {:induction false} ReachesLeaf(members: seq<Entry<JsonValue>>, path: seq<string>, v: JsonValue)
    requires Reaches(members, path, v)
    ensures !v.JObject?
    decreases |path|
  {
    var i :| 0 <= i < |members| && EntryReaches(members[i], path, v);
    if |path| > 1 {
      ReachesLeaf(members[i].value.members, path[1..], v);
    }
  }

  /** The shape of `flattenMap`: its keys are distinct, each entry is the
      value at the end of a path of object keys joined with "_" (so no value
      is an object), and every such path's joined key is present. */
  lemma FlattenMapShape(members: seq<Entry<JsonValue>>)
    ensures DistinctKeys(FlattenMap(members))
    ensures forall e :: e in FlattenMap(members) ==> FromPath(members, "", e) && !e.value.JObject?
    ensures forall p, v :: Reaches(members, p, v) ==> PathKey("", p) in Keys(FlattenMap(members))
  {
    FlattenWithPrefixKeys(members, "");
    FlattenWithPrefixSound(members, "");
    forall e | e in FlattenMap(members) ensures !e.value.JObject? {
      var p :| Reaches(members, p, e.value) && PathKey("", p) == e.key;
      ReachesLeaf(members, p, e.value);
    }
  }

  /** Every entry `e` of `m` is a non-object value. */
  predicate NoObjects(m: seq<Entry<JsonValue>>)
  {
    forall i :: 0 <= i < |m| ==> !m[i].value.JObject?
  }

  lemma {:induction false} FlattenLoopFlat(acc: seq<Entry<JsonValue>>, members: seq<Entry<JsonValue>>)
    requires DistinctKeys(members) && NoObjects(members) && KeysDisjoint(acc, members)
    ensures FlattenLoop(acc, members, "") == acc + members
    decreases members
  {
    if members != [] {
      DisjointShift(acc, members);
      PutFresh(acc, members[0].key, members[0].value);
      assert NoObjects(members[1..]) by {
        assert forall j :: 0 <= j < |members[1..]| ==> members[1..][j] == members[j + 1];
      }
      FlattenLoopFlat(acc + [members[0]], members[1..]);
      ConsShift(acc, members);
    }
  }

  /** On a map with distinct keys and no object values, `flattenMap` is the
      identity: same keys, same values, same order. */
  lemma FlattenMapFlat(members: seq<Entry<JsonValue>>)
    requires DistinctKeys(members) && NoObjects(members)
    ensures FlattenMap(members) == members
  {
    FlattenLoopFlat([], members);
  }

  /** Flattening twice is flattening once. */
  lemma FlattenMapIdempotent(members: seq<Entry<JsonValue>>)
    ensures FlattenMap(FlattenMap(members)) == FlattenMap(members)
  {
    var flat := FlattenMap(members);
    FlattenMapShape(members);
    assert NoObjects(flat) by {
      forall i | 0 <= i < |flat| ensures !flat[i].value.JObject? {
        assert flat[i] in flat;
      }
    }
    FlattenMapFlat(flat);
  }

  // ---------- extractNonListFields ----------

  /** `extractNonListFields(data)`: the flattened record without its list
      (and map) values. */
  function ExtractNonListFields(data: seq<Entry<JsonValue>>): FlatRecord
  {
    NonListLoop([], FlattenMap(data))
  }

  /** The `forEach` of `extractNonListFields`: scalar entries are `put`. */
  function NonListLoop(acc: FlatRecord, flat: FlatRecord): FlatRecord
    decreases flat
  {
    if flat == [] then acc
    else
      var acc' := if IsScalar(flat[0].value) then Put(acc, flat[0].key, flat[0].value) else acc;
      NonListLoop(acc', flat[1..])
  }

  /** Reference definition: the scalar entries of `m`, in order. */
  function ScalarEntries(m: FlatRecord): FlatRecord
  {
    if m == [] then []
    else (if IsScalar(m[0].value) then [m[0]] else []) + ScalarEntries(m[1..])
  }

  lemma {:induction false} ScalarEntriesMembers(m: FlatRecord)
    ensures forall e :: e in ScalarEntries(m) <==> e in m && IsScalar(e.value)
  {
    if m != [] {
      ScalarEntriesMembers(m[1..]);
      assert forall e :: e in m <==> e == m[0] || e in m[1..];
    }
  }

  lemma {:induction false} NonListLoopFilter(acc: FlatRecord, flat: FlatRecord)
    requires DistinctKeys(flat) && KeysDisjoint(acc, flat)
    ensures NonListLoop(acc, flat) == acc + ScalarEntries(flat)
    decreases flat
  {
    if flat != [] {
      var e, rest := flat[0], flat[1..];
      DisjointShift(acc, flat);
      if IsScalar(e.value) {
        PutFresh(acc, e.key, e.value);
        NonListLoopFilter(acc + [e], rest);
        AppendAssoc(acc, [e], ScalarEntries(rest));
      } else {
        NonListLoopFilter(acc, rest);
      }
    }
  }

  lemma AppendAssoc<T>(a: seq<T>, b: seq<T>, c: seq<T>)
    ensures (a + b) + c == a + (b + c)
  {
  }

  /** `extractNonListFields` is a filter: exactly the entries of the
      flattened record whose value is neither a list nor a map, in the same
      order, with the same values and distinct keys. */
  lemma ExtractNonListFieldsFilter(data: seq<Entry<JsonValue>>)
    ensures ExtractNonListFields(data) == ScalarEntries(FlattenMap(data))
    ensures forall e :: e in ExtractNonListFields(data) <==> e in FlattenMap(data) && IsScalar(e.value)
    ensures DistinctKeys(ExtractNonListFields(data))
  {
    var flat := FlattenMap(data);
    FlattenMapShape(data);
    NonListLoopFilter([], flat);
    ScalarEntriesMembers(flat);
    NonListLoopDistinct([], flat);
  }

  lemma {:induction false} NonListLoopDistinct(acc: FlatRecord, flat: FlatRecord)
    requires DistinctKeys(acc)
    ensures DistinctKeys(NonListLoop(acc, flat))
    decreases flat
  {
    if flat != [] {
      if IsScalar(flat[0].value) {
        PutDistinct(acc, flat[0].key, flat[0].value);
        NonListLoopDistinct(Put(acc, flat[0].key, flat[0].value), flat[1..]);
      } else {
        NonListLoopDistinct(acc, flat[1..]);
      }
    }
  }

  // ---------- extractArrayFields ----------

  /** One array element as a row record: an object is flattened (with no
      prefix), anything else becomes the one-entry record `{"value": item}`. */
  function ItemRecord(item: JsonValue): FlatRecord
  {
    if item.JObject? then FlattenMap(item.members) else [Entry("value", item)]
  }

  function Items(elems: seq<JsonValue>): seq<FlatRecord>
  {
    seq(|elems|, i requires 0 <= i < |elems| => ItemRecord(elems[i]))
  }

  /** `extractArrayFields(data)`. */
  function ExtractArrayFields(data: seq<Entry<JsonValue>>): Groups
  {
    ExtractLoop([], data, "")
  }

  /** `extractArrayFieldsRecursive`: a list is `put` under its joined key,
      a nested object is searched with the joined key as parent, anything
      else is skipped; elements of lists are never searched. */
  function ExtractLoop(acc: Groups, members: seq<Entry<JsonValue>>, parentKey: string): Groups
    decreases members
  {
    if members == [] then acc
    else
      var key := JoinKey(parentKey, members[0].key);
      var acc' := match members[0].value
        case JArray(elems) => Put(acc, key, Items(elems))
        case JObject(nested) => ExtractLoop(acc, nested, key)
        case _ => acc;
      ExtractLoop(acc', members[1..], parentKey)
  }

  /** Some path through objects ends at a list whose joined key is `e`'s key
      and whose items, as row records, are `e`'s value. */
  ghost predicate GroupFromPath(members: seq<Entry<JsonValue>>, parentKey: string, e: Entry<seq<FlatRecord>>)
  {
    exists p, elems :: Reaches(members, p, JArray(elems)) && PathKey(parentKey, p) == e.key && e.value == Items(elems)
  }

  /** Some path through objects ends at a list. */
  ghost predicate HasReachableArray(members: seq<Entry<JsonValue>>)
  {
    exists p, elems :: Reaches(members, p, JArray(elems))
  }

  lemma {:induction false} ExtractLoopKeys(acc: Groups, members: seq<Entry<JsonValue>>, parentKey: string)
    ensures DistinctKeys(acc) ==> DistinctKeys(ExtractLoop(acc, members, parentKey))
    ensures forall k :: k in Keys(acc) ==> k in Keys(ExtractLoop(acc, members, parentKey))
    ensures forall p, elems :: Reaches(members, p, JArray(elems)) ==>
              PathKey(parentKey, p) in Keys(ExtractLoop(acc, members, parentKey))
    decreases members, 1
  {
    if members != [] {
      var k0, v0, rest := members[0].key, members[0].value, members[1..];
      var key := JoinKey(parentKey, k0);
      var acc' := match v0
        case JArray(elems) => Put(acc, key, Items(elems))
        case JObject(nested) => ExtractLoop(acc, nested, key)
        case _ => acc;
      var r := ExtractLoop(acc', rest, parentKey);
      assert r == ExtractLoop(acc, members, parentKey);
      ExtractLoopKeys(acc', rest, parentKey);
      ExtractHeadKeys(acc, members, parentKey);
      forall p, elems | Reaches(members, p, JArray(elems)) ensures PathKey(parentKey, p) in Keys(r) {
        ReachesCons(members, p, JArray(elems));
      }
    }
  }

  /** The step of `ExtractLoopKeys` for the first member. */
  lemma {:induction false} ExtractHeadKeys(acc: Groups, members: seq<Entry<JsonValue>>, parentKey: string)
    requires members != []
    ensures var key := JoinKey(parentKey, members[0].key);
      var acc' := match members[0].value
        case JArray(elems) => Put(acc, key, Items(elems))
        case JObject(nested) => ExtractLoop(acc, nested, key)
        case _ => acc;
      && (DistinctKeys(acc) ==> DistinctKeys(acc'))
      && (forall k :: k in Keys(acc) ==> k in Keys(acc'))
      && (forall p, elems :: EntryReaches(members[0], p, JArray(elems)) ==> PathKey(parentKey, p) in Keys(acc'))
    decreases members, 0
  {
    var k0, v0 := members[0].key, members[0].value;
    var key := JoinKey(parentKey, k0);
    match v0 {
      case JArray(elems) =>
        if DistinctKeys(acc) { PutDistinct(acc, key, Items(elems)); }
      case JObject(nested) =>
        ExtractLoopKeys(acc, nested, key);
      case _ =>
    }
    forall p, elems | EntryReaches(members[0], p, JArray(elems))
      ensures PathKey(parentKey, p) in Keys(match v0
        case JArray(es) => Put(acc, key, Items(es))
        case JObject(nested) => ExtractLoop(acc, nested, key)
        case _ => acc)
    {
      PathKeyCons(parentKey, k0, p[1..]);
      assert [k0] + p[1..] == p;
    }
  }

  lemma {:induction false} ExtractLoopSound(acc: Groups, members: seq<Entry<JsonValue>>, parentKey: string)
    ensures forall e :: e in ExtractLoop(acc, members, parentKey) ==> e in acc || GroupFromPath(members, parentKey, e)
    decreases members
  {
    if members != [] {
      var k0, v0, rest := members[0].key, members[0].value, members[1..];
      var key := JoinKey(parentKey, k0);
      var acc' := match v0
        case JArray(elems) => Put(acc, key, Items(elems))
        case JObject(nested) => ExtractLoop(acc, nested, key)
        case _ => acc;
      var r := ExtractLoop(acc', rest, parentKey);
      assert r == ExtractLoop(acc, members, parentKey);
      ExtractLoopSound(acc', rest, parentKey);
      match v0 {
        case JArray(elems) => PutEntries(acc, key, Items(elems));
        case JObject(nested) => ExtractLoopSound(acc, nested, key);
        case _ =>
      }
      forall e | e in ExtractLoop(acc, members, parentKey) && e !in acc
        ensures GroupFromPath(members, parentKey, e)
      {
        assert e in r;
        if e in acc' {
          if v0.JObject? {
            assert GroupFromPath(v0.members, key, e);
            var q, elems :| Reaches(v0.members, q, JArray(elems)) && PathKey(key, q) == e.key && e.value == Items(elems);
            var p := [k0] + q;
            assert p[1..] == q;
            assert EntryReaches(members[0], p, JArray(elems));
            ReachesCons(members, p, JArray(elems));
            PathKeyCons(parentKey, k0, q);
          } else {
            assert e == Entry(key, Items(v0.elems));
            assert EntryReaches(members[0], [k0], v0);
            ReachesCons(members, [k0], v0);
            assert PathKey(parentKey, [k0]) == PathKey(key, []);
          }
        } else {
          assert GroupFromPath(rest, parentKey, e);
          var p, elems :| Reaches(rest, p, JArray(elems)) && PathKey(parentKey, p) == e.key && e.value == Items(elems);
          ReachesCons(members, p, JArray(elems));
        }
      }
    }
  }

  /** `extractArrayFields` finds exactly the lists reachable through nested
      objects: one group per list, named by its joined path (distinct names),
      holding one row record per element; and a group name is present for
      every such list. */
  lemma ExtractArrayFieldsGroups(data: seq<Entry<JsonValue>>)
    ensures DistinctKeys(ExtractArrayFields(data))
    ensures forall e :: e in ExtractArrayFields(data) ==> GroupFromPath(data, "", e)
    ensures forall p, elems :: Reaches(data, p, JArray(elems)) ==> PathKey("", p) in Keys(ExtractArrayFields(data))
  {
    ExtractLoopKeys([], data, "");
    ExtractLoopSound([], data, "");
  }

  /** No list reachable through objects means no groups, and conversely. */
  lemma NoArraysNoGroups(data: seq<Entry<JsonValue>>)
    ensures ExtractArrayFields(data) == [] <==> !HasReachableArray(data)
  {
    ExtractArrayFieldsGroups(data);
    var groups := ExtractArrayFields(data);
    if HasReachableArray(data) {
      var p, elems :| Reaches(data, p, JArray(elems));
      assert PathKey("", p) in Keys(groups);
    }
    if groups != [] {
      assert groups[0] in groups;
      assert GroupFromPath(data, "", groups[0]);
    }
  }

  /** A group has one row record per list element. An object element's
      record has distinct keys and holds exactly the element's non-object
      leaves, each keyed by the `_`-join of its path from the element
      itself, so without the group's name as prefix. Any other element's
      record is the single entry `"value"`, holding the element. */
  lemma ItemsShape(elems: seq<JsonValue>, i: nat)
    requires i < |elems|
    ensures |Items(elems)| == |elems|
    ensures elems[i].JObject? ==>
      && DistinctKeys(Items(elems)[i])
      && (forall e :: e in Items(elems)[i] ==> FromPath(elems[i].members, "", e) && !e.value.JObject?)
      && (forall p, v :: Reaches(elems[i].members, p, v) ==> PathKey("", p) in Keys(Items(elems)[i]))
    ensures !elems[i].JObject? ==>
      Keys(Items(elems)[i]) == ["value"] && Lookup(Items(elems)[i], "value") == Some(elems[i])
  {
    if elems[i].JObject? {
      FlattenMapShape(elems[i].members);
    }
  }
}
