/** The record of the processor's first unit test, carried through the
    model: what it extracts from the parsed record and the lines it
    writes to `employees.csv`. */
module Scenarios {
  import opened Json
  import opened LinkedMap
  import opened Flatten
  import opened CsvText
  import opened CsvSink

  const Employee101: seq<Entry<JsonValue>> :=
    [Entry("id", JInt(101)), Entry("department", JString("Engineering")), Entry("salary", JInt(75000))]
  const Employee102: seq<Entry<JsonValue>> :=
    [Entry("id", JInt(102)), Entry("department", JString("Marketing")), Entry("salary", JInt(65000))]
  const Project1: seq<Entry<JsonValue>> :=
    [Entry("project_id", JString("P001")), Entry("status", JString("completed"))]
  const Project2: seq<Entry<JsonValue>> :=
    [Entry("project_id", JString("P002")), Entry("status", JString("in_progress"))]

  /** The parsed test record. */
  const Record: seq<Entry<JsonValue>> := [
    Entry("name", JString("John Doe")),
    Entry("age", JInt(30)),
    Entry("employees", JArray([JObject(Employee101), JObject(Employee102)])),
    Entry("projects", JArray([JObject(Project1), JObject(Project2)]))]

  const Scalars: seq<Entry<JsonValue>> := [Entry("name", JString("John Doe")), Entry("age", JInt(30))]

  const Header: seq<string> := ["name", "age", "id", "department", "salary"]

  /** Records with no nested objects flatten to themselves. */
  lemma FlatEmployees()
    ensures FlattenMap(Employee101) == Employee101 && FlattenMap(Employee102) == Employee102
  {
    assert |"id"| != |"department"| && |"id"| != |"salary"| && |"department"| != |"salary"|;
    FlattenMapFlat(Employee101);
    FlattenMapFlat(Employee102);
  }

  lemma FlatProjects()
    ensures FlattenMap(Project1) == Project1 && FlattenMap(Project2) == Project2
  {
    assert |"project_id"| != |"status"|;
    FlattenMapFlat(Project1);
    FlattenMapFlat(Project2);
  }

  lemma RecordIsFlat()
    ensures FlattenMap(Record) == Record
  {
    assert DistinctKeys(Record) by {
      assert |"name"| != |"age"| && |"name"| != |"employees"| && |"name"| != |"projects"|;
      assert |"age"| != |"employees"| && |"age"| != |"projects"| && |"employees"| != |"projects"|;
    }
    FlattenMapFlat(Record);
  }

  lemma ScalarsOfRecord()
    ensures ScalarEntries(Record) == Scalars
  {
    assert ScalarEntries([Record[3]]) == [] by {
      assert [Record[3]][1..] == [];
    }
    assert ScalarEntries(Record[2..]) == [] by {
      assert Record[2..][1..] == [Record[3]];
    }
    assert ScalarEntries(Record[1..]) == [Record[1]] by {
      assert Record[1..][1..] == Record[2..];
    }
  }

  /** The record's scalars are `name` and `age`. */
  lemma RecordScalars()
    ensures ExtractNonListFields(Record) == Scalars
  {
    RecordIsFlat();
    ExtractNonListFieldsFilter(Record);
    ScalarsOfRecord();
  }

  lemma EmployeeItems()
    ensures Items([JObject(Employee101), JObject(Employee102)]) == [Employee101, Employee102]
  {
    var elems := [JObject(Employee101), JObject(Employee102)];
    FlatEmployees();
    assert Items(elems)[0] == Employee101 && Items(elems)[1] == Employee102;
  }

  lemma ProjectItems()
    ensures Items([JObject(Project1), JObject(Project2)]) == [Project1, Project2]
  {
    var elems := [JObject(Project1), JObject(Project2)];
    FlatProjects();
    assert Items(elems)[0] == Project1 && Items(elems)[1] == Project2;
  }

  /** The record's groups are `employees` and `projects`, one row record
      per element. */
  lemma RecordGroups()
    ensures ExtractArrayFields(Record) == [
      Entry("employees", [Employee101, Employee102]),
      Entry("projects", [Project1, Project2])]
  {
    var employees := [Employee101, Employee102];
    var projects := [Project1, Project2];
    EmployeeItems();
    ProjectItems();
    var one := [Entry("employees", employees)];
    var two := one + [Entry("projects", projects)];
    assert JoinKey("", "projects") == "projects";
    assert "projects" !in Keys(one) by {
      assert |"projects"| != |"employees"|;
    }
    PutFresh(one, "projects", projects);
    assert ExtractLoop(one, [Record[3]], "") == two by {
      assert [Record[3]][1..] == [];
    }
    assert JoinKey("", "employees") == "employees";
    PutFresh([], "employees", employees);
    assert ExtractLoop([], Record[2..], "") == two by {
      assert Record[2..][1..] == [Record[3]];
    }
    assert ExtractLoop([], Record[1..], "") == two by {
      assert Record[1..][1..] == Record[2..];
    }
  }

  /** The header of `employees.csv`: the scalar keys, then the employee
      keys. */
  lemma EmployeesHeader()
    ensures DeriveHeader(Scalars, Employee101) == Header
  {
    var keys := ["id", "department", "salary"];
    assert Keys(Scalars) == ["name", "age"];
    assert Keys(Employee101) == keys;
    assert AppendNew(["name", "age"], keys[..1]) == ["name", "age", "id"] by {
      assert keys[..1][..0] == [];
      assert |"id"| != |"name"| && |"id"| != |"age"|;
    }
    assert AppendNew(["name", "age"], keys[..2]) == ["name", "age", "id", "department"] by {
      assert keys[..2][..1] == keys[..1];
      assert |"department"| != |"name"| && |"department"| != |"age"| && |"department"| != |"id"|;
    }
    assert AppendNew(["name", "age"], keys) == Header by {
      assert keys[..2] == keys[..|keys| - 1];
      assert |"salary"| != |"name"| && |"salary"| != |"age"| && |"salary"| != |"id"| && |"salary"| != |"department"|;
    }
  }

  lemma Numbers()
    ensures NatToString(75000) == "75000" && NatToString(101) == "101" && NatToString(30) == "30"
  {
    assert NatToString(7500) == "7500" by {
      assert NatToString(75) == "75";
    }
    assert NatToString(10) == "10";
  }

  /** Each cell of the first employee's row: the record's own fields
      first, then the employee's. */
  lemma FirstEmployeeCells()
    ensures Cell("name", Scalars, Employee101) == JString("John Doe")
    ensures Cell("age", Scalars, Employee101) == JInt(30)
    ensures Cell("id", Scalars, Employee101) == JInt(101)
    ensures Cell("department", Scalars, Employee101) == JString("Engineering")
    ensures Cell("salary", Scalars, Employee101) == JInt(75000)
  {
    assert Keys(Scalars) == ["name", "age"];
    assert |"id"| != |"name"| && |"id"| != |"age"|;
    assert |"department"| != |"name"| && |"department"| != |"age"| && |"department"| != |"id"|;
    assert |"salary"| != |"name"| && |"salary"| != |"age"| && |"salary"| != |"id"| && |"salary"| != |"department"|;
    assert Employee101[1..][1..] == [Employee101[2]];
  }

  /** The first employee's row reads back as
      `John Doe`, `30`, `101`, `Engineering`, `75000`. */
  lemma FirstEmployeeRow()
    ensures ParseRecord(RowLine(Header, Scalars, Employee101)) ==
              Some(["John Doe", "30", "101", "Engineering", "75000"])
  {
    FirstEmployeeCells();
    Numbers();
    var texts := seq(|Header|, i requires 0 <= i < |Header| => CellText(Cell(Header[i], Scalars, Employee101)));
    assert texts == ["John Doe", "30", "101", "Engineering", "75000"];
    assert !NeedsQuoting("");
    forall i | 0 <= i < |Header|
      ensures RowFields(Header, Scalars, Employee101)[i] == EscapeCsvFields(texts)[i]
    {
      RowFieldsAt(Header, Scalars, Employee101, i);
    }
    assert RowFields(Header, Scalars, Employee101) == EscapeCsvFields(texts);
    ParseJoinedRecord(texts);
  }

  /** Processing the test record on a fresh processor creates
      `employees.csv` holding the header line, which reads back as
      `name,age,id,department,salary`, then one row per employee. */
  lemma EmployeesFile(json: string)
    requires !IsBlank(json)
    ensures var r := ProcessRecord(EmptySink, Some(json), _ => Some(JObject(Record)), {});
      && "employees" in r.files
      && r.files["employees"] == [HeaderLine(Header)] + RowLines(Header, Scalars, [Employee101, Employee102])
      && ParseRecord(r.files["employees"][0]) == Some(Header)
  {
    RecordScalars();
    RecordGroups();
    var g := Entry("employees", [Employee101, Employee102]);
    assert g in ExtractArrayFields(Record);
    ProcessRecordNewGroup(EmptySink, json, Record, {}, g);
    EmployeesHeader();
    HeaderReadsBack(Header);
  }

  /** The second test's record: no lists at all. */
  const NoArrays: seq<Entry<JsonValue>> := [Entry("id", JInt(1)), Entry("name", JString("No Arrays Here"))]

  /** Processing it, on any state, creates no file and changes nothing. */
  lemma NoArraysRecord(s: Sink, json: string, unwritable: set<string>)
    ensures ProcessRecord(s, Some(json), _ => Some(JObject(NoArrays)), unwritable) == s
  {
    assert ExtractLoop([], NoArrays[1..], "") == [] by {
      assert NoArrays[1..][1..] == [];
    }
  }

  /** The fifth test's record: one top-level list and one list inside a
      nested object. */
  const Staff: JsonValue := JArray([JObject([Entry("id", JInt(1)), Entry("dept", JString("A"))]),
                                    JObject([Entry("id", JInt(2)), Entry("dept", JString("B"))])])
  const Codes: JsonValue := JArray([JObject([Entry("code", JString("P1"))]), JObject([Entry("code", JString("P2"))])])
  const Nested: seq<Entry<JsonValue>> := [
    Entry("name", JString("John")),
    Entry("employees", Staff),
    Entry("details", JObject([Entry("projects", Codes)]))]

  lemma NestedPaths()
    ensures Reaches(Nested, ["details", "projects"], Codes)
    ensures Reaches(Nested, ["employees"], Staff)
  {
    var details := [Entry("projects", Codes)];
    assert EntryReaches(details[0], ["projects"], Codes);
    assert Reaches(details, ["projects"], Codes);
    assert ["details", "projects"][1..] == ["projects"];
    assert EntryReaches(Nested[2], ["details", "projects"], Codes);
    assert EntryReaches(Nested[1], ["employees"], Staff);
  }

  lemma NestedPathKeys()
    ensures PathKey("", ["details", "projects"]) == "details_projects"
    ensures PathKey("", ["employees"]) == "employees"
  {
    PathKeyCons("details", "projects", []);
    PathKeyCons("", "details", ["projects"]);
    PathKeyCons("", "employees", []);
  }

  /** Both lists are found: the nested one under its joined name
      `details_projects`. */
  lemma NestedGroupsFound()
    ensures "employees" in Keys(ExtractArrayFields(Nested))
    ensures "details_projects" in Keys(ExtractArrayFields(Nested))
  {
    ExtractArrayFieldsGroups(Nested);
    NestedPaths();
    NestedPathKeys();
  }

  /** The third test's record: objects nested two deep. */
  const Geo: seq<Entry<JsonValue>> := [Entry("lat", JNumber("1.23")), Entry("lon", JNumber("4.56"))]
  const Address: seq<Entry<JsonValue>> :=
    [Entry("street", JString("Main St")), Entry("city", JString("London")), Entry("geo", JObject(Geo))]
  const Person: seq<Entry<JsonValue>> := [Entry("name", JString("John")), Entry("address", JObject(Address))]

  lemma PersonPaths()
    ensures Reaches(Person, ["address", "geo", "lat"], JNumber("1.23"))
    ensures Reaches(Person, ["address", "street"], JString("Main St"))
  {
    assert EntryReaches(Geo[0], ["lat"], JNumber("1.23"));
    assert ["geo", "lat"][1..] == ["lat"];
    assert EntryReaches(Address[2], ["geo", "lat"], JNumber("1.23"));
    assert ["address", "geo", "lat"][1..] == ["geo", "lat"];
    assert EntryReaches(Person[1], ["address", "geo", "lat"], JNumber("1.23"));
    assert EntryReaches(Address[0], ["street"], JString("Main St"));
    assert ["address", "street"][1..] == ["street"];
    assert EntryReaches(Person[1], ["address", "street"], JString("Main St"));
  }

  lemma PersonPathKeys()
    ensures PathKey("", ["address", "geo", "lat"]) == "address_geo_lat"
    ensures PathKey("", ["address", "street"]) == "address_street"
  {
    PathKeyCons("address_geo", "lat", []);
    PathKeyCons("address", "geo", ["lat"]);
    PathKeyCons("", "address", ["geo", "lat"]);
    PathKeyCons("address", "street", []);
    PathKeyCons("", "address", ["street"]);
  }

  /** Flattening joins nested keys with "_" at every depth. */
  lemma PersonFlattened()
    ensures "address_geo_lat" in Keys(FlattenMap(Person))
    ensures "address_street" in Keys(FlattenMap(Person))
  {
    PersonPaths();
    PersonPathKeys();
    FlattenedPath(Person, ["address", "geo", "lat"], JNumber("1.23"));
    FlattenedPath(Person, ["address", "street"], JString("Main St"));
  }

  lemma FlattenedPath(members: seq<Entry<JsonValue>>, path: seq<string>, v: JsonValue)
    requires Reaches(members, path, v)
    ensures PathKey("", path) in Keys(FlattenMap(members))
  {
    FlattenMapShape(members);
  }
}
