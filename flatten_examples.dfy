/** The `LinkedHashMap` behaviour of `flattenMap` and the filter of
    `extractNonListFields`, on small records: colliding keys, an empty
    parent key, and the fourth unit test's record. */
module FlattenExamples {
  import opened Json
  import opened LinkedMap
  import opened Flatten

  /** The loop of `flattenMap` over `a + b` is the loop over `a`, then the
      loop over `b` from where it left off. */
  lemma {:induction false} FlattenLoopAppend(acc: seq<Entry<JsonValue>>, a: seq<Entry<JsonValue>>,
                                             b: seq<Entry<JsonValue>>, parentKey: string)
    ensures FlattenLoop(acc, a + b, parentKey) == FlattenLoop(FlattenLoop(acc, a, parentKey), b, parentKey)
    decreases a
  {
    if a == [] {
      assert a + b == b;
    } else {
      var key := JoinKey(parentKey, a[0].key);
      var value := a[0].value;
      var acc' := if value.JObject? then PutAll(acc, FlattenWithPrefix(value.members, key))
                  else Put(acc, key, value);
      assert (a + b)[0] == a[0];
      assert (a + b)[1..] == a[1..] + b;
      FlattenLoopAppend(acc', a[1..], b, parentKey);
    }
  }

  /** The scalar entries of `a + b` are those of `a`, then those of `b`. */
  lemma {:induction false} ScalarEntriesAppend(a: FlatRecord, b: FlatRecord)
    ensures ScalarEntries(a + b) == ScalarEntries(a) + ScalarEntries(b)
    decreases a
  {
    if a == [] {
      assert a + b == b;
    } else {
      var head: FlatRecord := if IsScalar(a[0].value) then [a[0]] else [];
      assert (a + b)[0] == a[0];
      assert (a + b)[1..] == a[1..] + b;
      assert ScalarEntries(a + b) == head + ScalarEntries(a[1..] + b);
      ScalarEntriesAppend(a[1..], b);
      assert ScalarEntries(a) == head + ScalarEntries(a[1..]);
      assert head + (ScalarEntries(a[1..]) + ScalarEntries(b)) == (head + ScalarEntries(a[1..])) + ScalarEntries(b);
    }
  }

  /** The flattening of a one-member object under a parent key. */
  lemma FlattenOne(parentKey: string, key: string, v: JsonValue)
    requires !v.JObject?
    ensures FlattenWithPrefix([Entry(key, v)], parentKey) == [Entry(JoinKey(parentKey, key), v)]
  {
    var e := Entry(JoinKey(parentKey, key), v);
    assert [Entry(key, v)][1..] == [];
    assert Put([], e.key, v) == [e];
    assert FlattenLoop([], [Entry(key, v)], parentKey) == FlattenLoop([e], [], parentKey);
  }

  // ---------- a key collision ----------

  const Plain: seq<Entry<JsonValue>> := [Entry("a_b", JInt(1)), Entry("c", JInt(3))]
  const Nesting: Entry<JsonValue> := Entry("a", JObject([Entry("b", JInt(2))]))

  /** `{"a_b": 1, "c": 3, "a": {"b": 2}}`: the nested `b` joins to `a_b`,
      which is already a key. */
  const Colliding: seq<Entry<JsonValue>> := Plain + [Nesting]

  lemma PlainFlat()
    ensures FlattenLoop([], Plain, "") == Plain
  {
    assert |"a_b"| != |"c"|;
    FlattenLoopFlat([], Plain);
    assert [] + Plain == Plain;
  }

  lemma NestingFlattened()
    ensures FlattenWithPrefix(Nesting.value.members, "a") == [Entry("a_b", JInt(2))]
  {
    FlattenOne("a", "b", JInt(2));
    assert JoinKey("a", "b") == "a_b";
  }

  /** The nested member's flattening is `putAll`ed onto the plain ones. */
  lemma CollidingLoop()
    ensures FlattenMap(Colliding) == PutAll(Plain, [Entry("a_b", JInt(2))])
  {
    FlattenLoopAppend([], Plain, [Nesting], "");
    PlainFlat();
    NestingFlattened();
    assert [Nesting][1..] == [];
  }

  /** The later value wins and the key keeps its first position. */
  lemma CollidingKeysLastWins()
    ensures FlattenMap(Colliding) == [Entry("a_b", JInt(2)), Entry("c", JInt(3))]
  {
    CollidingLoop();
    assert Put(Plain, "a_b", JInt(2)) == [Entry("a_b", JInt(2)), Entry("c", JInt(3))];
  }

  // ---------- an empty key ----------

  /** `{"": {"b": 1}}`. */
  const EmptyKeyed: seq<Entry<JsonValue>> := [Entry("", JObject([Entry("b", JInt(1))]))]

  /** An empty key adds no prefix to the keys of the object under it. */
  lemma EmptyKeyNoPrefix()
    ensures FlattenMap(EmptyKeyed) == [Entry("b", JInt(1))]
  {
    FlattenOne("", "b", JInt(1));
    assert PutAll([], [Entry("b", JInt(1))]) == [Entry("b", JInt(1))];
    assert EmptyKeyed[1..] == [];
  }

  // ---------- the fourth unit test's record ----------

  const TagsList: JsonValue := JArray([JString("a"), JString("b")])
  const TaggedFront: seq<Entry<JsonValue>> := [Entry("id", JInt(1)), Entry("name", JString("John")), Entry("tags", TagsList)]
  const Meta: Entry<JsonValue> := Entry("meta", JObject([Entry("inner", JString("value"))]))

  /** `{"id": 1, "name": "John", "tags": ["a", "b"], "meta": {"inner": "value"}}`. */
  const Tagged: seq<Entry<JsonValue>> := TaggedFront + [Meta]

  const MetaInner: Entry<JsonValue> := Entry("meta_inner", JString("value"))

  lemma TaggedFrontKeys()
    ensures DistinctKeys(TaggedFront) && NoObjects(TaggedFront)
    ensures KeysDisjoint(TaggedFront, [MetaInner])
  {
    assert |"id"| != |"name"| && |"id"| != |"tags"| && "name"[0] != "tags"[0];
    assert |"meta_inner"| != |"id"| && |"meta_inner"| != |"name"| && |"meta_inner"| != |"tags"|;
  }

  lemma MetaInnerKey()
    ensures JoinKey("meta", "inner") == MetaInner.key
  {
  }

  /** The nested scalar is kept under its joined key, after the others. */
  lemma TaggedFlattened()
    ensures FlattenMap(Tagged) == TaggedFront + [MetaInner]
  {
    FlattenLoopAppend([], TaggedFront, [Meta], "");
    TaggedFrontKeys();
    FlattenLoopFlat([], TaggedFront);
    assert [] + TaggedFront == TaggedFront;
    FlattenOne("meta", "inner", JString("value"));
    MetaInnerKey();
    assert [Meta][1..] == [];
    assert FlattenLoop(TaggedFront, [Meta], "") == PutAll(TaggedFront, [MetaInner]);
    PutAllDisjoint(TaggedFront, [MetaInner]);
  }

  /** Of the three front entries only the list is dropped. */
  lemma TaggedFrontScalars()
    ensures ScalarEntries(TaggedFront) == [Entry("id", JInt(1)), Entry("name", JString("John"))]
  {
    var t1 := TaggedFront[1..];
    var t2 := t1[1..];
    assert t2 == [Entry("tags", TagsList)] && t2[1..] == [];
    assert ScalarEntries(t2) == [];
  }

  /** Lists are left out; scalars, nested ones included, are kept in order. */
  lemma TaggedNonListFields()
    ensures ExtractNonListFields(Tagged) == [Entry("id", JInt(1)), Entry("name", JString("John")), MetaInner]
  {
    TaggedFlattened();
    ExtractNonListFieldsFilter(Tagged);
    ScalarEntriesAppend(TaggedFront, [MetaInner]);
    TaggedFrontScalars();
    assert [MetaInner][1..] == [];
    assert ScalarEntries([MetaInner]) == [MetaInner];
  }
}
