# JSON-to-CSV record processor, modelled in Dafny

`CsvRecordProcessor` takes one JSON message at a time. It splits the message into
two parts:

- the record's scalar fields, with nested objects flattened and their keys joined
  with `_`;
- its array groups: every list reachable through nested objects, named by the
  `_`-joined path to it.

It then appends one CSV row per item of each non-empty group to the file
`<group>.csv`. The column header of a group is fixed by the first record that
brings the group. It is made of the scalar keys followed by the first item's new
keys. The header line is written once per group; later records only append rows.

The model has one module per part of the processor:

| file | module | what it holds |
|---|---|---|
| `json.dfy` | `Json` | the parsed JSON tree; objects are ordered member lists |
| `linked_map.dfy` | `LinkedMap` | `LinkedHashMap` as an ordered entry list: `put` keeps a key's first position and takes the last value |
| `flatten.dfy` | `Flatten` | `flattenMap`, `extractNonListFields`, `extractArrayFields` as functions over the tree, with their shape lemmas |
| `csv_text.dfy` | `CsvText` | `escapeCsvField(s)`, `String.join(",", …)`, Java `toString` of parsed values, and a reader for one record in the format of section 2 of RFC 4180, the reader that escaping is proved to invert |
| `csv_sink.dfy` | `CsvSink` | the sink's state (`headersByFile`, `headersWritten`, the files) and what `writeArrayToCsv` and `processJsonRecord` do to it, as functions; the sink invariant and lemmas about runs of calls |
| `csv_record_processor.dfy` | `RecordProcessor` | the class `CsvRecordProcessor`, whose fields are updated in place by loops. Each method is proved to change the fields exactly as the `CsvSink` functions say |
| `scenarios.dfy`, `flatten_examples.dfy` | `Scenarios`, `FlattenExamples` | the records of the unit tests, carried through the model |

Files are the class's `files` field: group name ↦ the file's lines. A failed
`Files.newBufferedWriter` is the `canOpen = false` case of `WriteArrayToCsv`.
In `ProcessJsonRecord`, the `unwritable` set names the groups whose file cannot
be opened during that record. The JSON parser is the parameter `parse`;
`None` stands for a parse failure and for any other exception thrown before
the group loop.

Some behaviours of the code are kept as they are:

- The header is marked as written before the file is opened
  (`CsvRecordProcessor.java:215`). A group whose first open fails therefore
  never gets a header line (`CsvSink.HeaderLostAfterFailedOpen`).
- A flattened key that collides with an earlier one keeps its first position
  and takes the later value (`FlattenExamples.CollidingKeysLastWins`).
- An empty parent key adds no prefix below it (`FlattenExamples.EmptyKeyNoPrefix`).
- Lists stay as values inside flattened items, where they are printed by
  their `toString`. Only `extractNonListFields` drops them.

Three further points on what the code does:

- A parse failure is logged and swallowed (`CsvRecordProcessor.java:88-90`); it
  is not reported to the caller. `ProcessRecord` leaves the state unchanged.
- A group name is the `_`-joined path from the root of the record
  (`CsvRecordProcessor.java:149`, `:160-162`).
- A file can lack its header line after a failed first open (above), and
  a file left by an earlier run gets a second header line
  (`CsvSink.HeaderRepeatedAfterRestart`).

## Model

| member | source | states |
|---|---|---|
| `LinkedMap.Put` | folder1/demo/src/main/java/com/example/demo/service/CsvRecordProcessor.java:117 | `put` keeps the keys in place (a new key goes last), the key now maps to the new value, and every other key keeps its value |
| `LinkedMap.PutAllKeys` | folder1/demo/src/main/java/com/example/demo/service/CsvRecordProcessor.java:115 | after `putAll` the keys are those of both maps, the old keys keep their positions, and keys the added map lacks keep their values |
| `LinkedMap.PutAllLookup` | folder1/demo/src/main/java/com/example/demo/service/CsvRecordProcessor.java:115 | after `putAll` every key of the added map has the added map's value |
| `Flatten.FlattenMapShape` | folder1/demo/src/main/java/com/example/demo/service/CsvRecordProcessor.java:99-122 | the flattening has distinct keys; each entry is a non-object value at the end of a path of object keys, keyed by the `_`-join of that path; every such path's joined key is present |
| `Flatten.FlattenMapFlat` | folder1/demo/src/main/java/com/example/demo/service/CsvRecordProcessor.java:104-122 | a map with distinct keys and no object values flattens to itself: same keys, values and order |
| `Flatten.FlattenMapIdempotent` | folder1/demo/src/main/java/com/example/demo/service/CsvRecordProcessor.java:99-122 | flattening twice is flattening once |
| `Flatten.ExtractNonListFieldsFilter` | folder1/demo/src/main/java/com/example/demo/service/CsvRecordProcessor.java:127-139 | the result is exactly the entries of the flattening whose value is neither a list nor a map, in the same order; its keys are distinct |
| `Flatten.ExtractArrayFieldsGroups` | folder1/demo/src/main/java/com/example/demo/service/CsvRecordProcessor.java:146-190 | group keys are distinct; every group comes from a list reached through objects only, is keyed by the `_`-join of its path and holds that list's items; every such list has a group |
| `Flatten.NoArraysNoGroups` | folder1/demo/src/main/java/com/example/demo/service/CsvRecordProcessor.java:154-190 | there are no groups exactly when no list is reachable through objects |
| `Flatten.ItemsShape` | folder1/demo/src/main/java/com/example/demo/service/CsvRecordProcessor.java:169-179 | a group has one record per list element; an object element's record has distinct keys and holds exactly the element's non-object leaves, each keyed by the `_`-join of its path from the element itself (no group prefix); any other element's record is the single entry `value` holding the element |
| `CsvText.EscapeUnchanged` | folder1/demo/src/main/java/com/example/demo/service/CsvRecordProcessor.java:278-285 | a field is left as it is exactly when it holds no comma, quote, CR or LF; otherwise it is wrapped in quotes |
| `CsvText.EscapeRoundTrip` | folder1/demo/src/main/java/com/example/demo/service/CsvRecordProcessor.java:273-286 | reading an escaped field back under RFC 4180 (unquote, undouble quotes) gives the original text |
| `CsvText.ParseJoinedRecord` | folder1/demo/src/main/java/com/example/demo/service/CsvRecordProcessor.java:265-271 | any non-empty list of fields, escaped and comma-joined, reads back as the same list |
| `CsvSink.AppendNewShape` | folder1/demo/src/main/java/com/example/demo/service/CsvRecordProcessor.java:200-208 | the header starts with the scalar keys; a name is in it exactly when it is a scalar key or a first-item key; every added name is an item key not among the scalar keys |
| `CsvSink.AppendNewOrder` | folder1/demo/src/main/java/com/example/demo/service/CsvRecordProcessor.java:204-208 | the added item keys appear in the order of their first occurrence in the first item |
| `CsvSink.AppendNewDistinct` | folder1/demo/src/main/java/com/example/demo/service/CsvRecordProcessor.java:199-211 | the derived header has no duplicate names |
| `CsvSink.RowFields` | folder1/demo/src/main/java/com/example/demo/service/CsvRecordProcessor.java:248-258 | a row has exactly one field per header name |
| `CsvSink.RowLines` | folder1/demo/src/main/java/com/example/demo/service/CsvRecordProcessor.java:226-228 | one row line per item |
| `CsvSink.RowReadsBack` | folder1/demo/src/main/java/com/example/demo/service/CsvRecordProcessor.java:242-263 | a row reads back as one field per header: the scalar field's text when the record has that key (even if the item has it too), else the item's, else empty; null is empty; item keys outside the header are dropped |
| `CsvSink.HeaderReadsBack` | folder1/demo/src/main/java/com/example/demo/service/CsvRecordProcessor.java:236-240 | the header line reads back as the header names |
| `CsvSink.EmptySinkInv` | folder1/demo/src/main/java/com/example/demo/service/CsvRecordProcessor.java:26-29 | the empty initial state satisfies the sink invariant |
| `CsvSink.WriteGroupEffect` | folder1/demo/src/main/java/com/example/demo/service/CsvRecordProcessor.java:194-234 | one call caches the group's header if absent and never changes a cached one, marks it written, and changes no other group; on a failed open no file changes; otherwise the old lines stay a prefix and exactly one header line (first call only) plus one line per item are added |
| `CsvSink.WriteGroupInv` | folder1/demo/src/main/java/com/example/demo/service/CsvRecordProcessor.java:194-234 | a call keeps the invariant: cached groups are the marked groups, every file belongs to one, and every line of a file has as many fields as the group's header |
| `CsvSink.HeaderWrittenAtMostOnce` | folder1/demo/src/main/java/com/example/demo/service/CsvRecordProcessor.java:213-224 | over any run of calls a group's header line is written at most once, and never after the group is marked |
| `CsvSink.HeaderStable` | folder1/demo/src/main/java/com/example/demo/service/CsvRecordProcessor.java:199-211 | once cached, a group's header is never recomputed by later calls, whatever scalars or items they bring |
| `CsvSink.RunAppendOnly` | folder1/demo/src/main/java/com/example/demo/service/CsvRecordProcessor.java:217-228 | over any run of calls an existing file's lines stay a prefix of its later lines |
| `CsvSink.HeaderLostAfterFailedOpen` | folder1/demo/src/main/java/com/example/demo/service/CsvRecordProcessor.java:213-221 | if a group's first call cannot open its file, the next call's file holds only rows: the header line is lost |
| `CsvSink.WriteGroupHeaderFirst` | folder1/demo/src/main/java/com/example/demo/service/CsvRecordProcessor.java:213-228 | while every open succeeds, each file starts with its group's header line |
| `CsvSink.WriteGroupFresh` | folder1/demo/src/main/java/com/example/demo/service/CsvRecordProcessor.java:194-234 | a new group's file is its derived header line followed by one row per item |
| `CsvSink.WriteGroupsInv` | folder1/demo/src/main/java/com/example/demo/service/CsvRecordProcessor.java:76-86 | the loop over the groups keeps the sink invariant |
| `CsvSink.WriteGroupsOthers` | folder1/demo/src/main/java/com/example/demo/service/CsvRecordProcessor.java:76-86 | a name that is not one of the record's groups is untouched: its file, mark and header |
| `CsvSink.WriteGroupsNewGroup` | folder1/demo/src/main/java/com/example/demo/service/CsvRecordProcessor.java:76-86 | every new, non-empty, openable group of the record ends up with its header line and one row per item |
| `CsvSink.EmptyGroupsNoOutput` | folder1/demo/src/main/java/com/example/demo/service/CsvRecordProcessor.java:80-83 | empty groups are skipped: groups that are all empty leave the state unchanged |
| `CsvSink.ProcessRecordInv` | folder1/demo/src/main/java/com/example/demo/service/CsvRecordProcessor.java:53-91 | processing any record (null, blank, unparsable or an object) keeps the sink invariant |
| `CsvSink.ProcessRecordAppendOnly` | folder1/demo/src/main/java/com/example/demo/service/CsvRecordProcessor.java:53-91 | processing a record only appends to existing files and never changes a cached header |
| `CsvSink.ProcessRecordNewGroup` | folder1/demo/src/main/java/com/example/demo/service/CsvRecordProcessor.java:53-91 | for a parsed object, each new non-empty group's file is the header derived from the record's scalars and the group's first item, then one row per item |
| `CsvSink.NoArraysNoOutput` | folder1/demo/src/main/java/com/example/demo/service/CsvRecordProcessor.java:65-71 | a record with no list reachable through objects changes nothing |
| `LinkedMap.PutAll` | folder1/demo/src/main/java/com/example/demo/service/CsvRecordProcessor.java:115 | definition: the entries of the added map `put` one by one, in order; its properties are `PutAllKeys` and `PutAllLookup` |
| `Flatten.FlattenMap` | folder1/demo/src/main/java/com/example/demo/service/CsvRecordProcessor.java:99-101 | definition: flattening from the empty parent key; its properties are `FlattenMapShape`, `FlattenMapFlat` and `FlattenMapIdempotent` |
| `Flatten.FlattenWithPrefix` | folder1/demo/src/main/java/com/example/demo/service/CsvRecordProcessor.java:104-105 | definition: a fresh map filled by the loop under a parent key |
| `Flatten.FlattenLoop` | folder1/demo/src/main/java/com/example/demo/service/CsvRecordProcessor.java:107-121 | definition: the loop of `flattenMap`, a nested object `putAll`ed, anything else `put` under the joined key; its properties are `FlattenLoopKeys`, `FlattenLoopSound` and `FlattenExamples.FlattenLoopAppend` |
| `Flatten.ExtractNonListFields` | folder1/demo/src/main/java/com/example/demo/service/CsvRecordProcessor.java:127-139 | definition: the flattening fed to the filter loop; its properties are `ExtractNonListFieldsFilter` |
| `Flatten.NonListLoop` | folder1/demo/src/main/java/com/example/demo/service/CsvRecordProcessor.java:132-136 | definition: the `forEach` that `put`s scalar entries; its properties are `NonListLoopFilter` and `NonListLoopDistinct` |
| `Flatten.ExtractArrayFields` | folder1/demo/src/main/java/com/example/demo/service/CsvRecordProcessor.java:146-151 | definition: the recursive search from the empty parent key into a fresh map; its properties are `ExtractArrayFieldsGroups` and `NoArraysNoGroups` |
| `Flatten.ExtractLoop` | folder1/demo/src/main/java/com/example/demo/service/CsvRecordProcessor.java:154-190 | definition: a list is `put` under its joined key, a nested object is searched under the joined key, anything else is skipped; its properties are `ExtractLoopKeys` and `ExtractLoopSound` |
| `Flatten.ItemRecord` | folder1/demo/src/main/java/com/example/demo/service/CsvRecordProcessor.java:169-178 | definition: an element's row record; its properties are `ItemsShape` |
| `CsvText.JavaText` | folder1/demo/src/main/java/com/example/demo/service/CsvRecordProcessor.java:278 | definition: Java's `toString` of a parsed value (lists as `[a, b]`, maps as `{k=v}`) |
| `CsvText.Escape` | folder1/demo/src/main/java/com/example/demo/service/CsvRecordProcessor.java:278-285 | definition: quoting with doubled quotes when needed; its properties are `EscapeUnchanged` and `EscapeRoundTrip` |
| `CsvText.EscapeCsvField` | folder1/demo/src/main/java/com/example/demo/service/CsvRecordProcessor.java:273-286 | definition: null is empty, anything else its escaped `toString` |
| `CsvText.EscapeCsvFields` | folder1/demo/src/main/java/com/example/demo/service/CsvRecordProcessor.java:265-271 | definition: each field escaped, in order; its properties are `ParseJoinedRecord` |
| `CsvText.JoinComma` | folder1/demo/src/main/java/com/example/demo/service/CsvRecordProcessor.java:237 | definition: `String.join(",", …)`; its properties are `ParseJoinedRecord` |
| `CsvSink.AppendNew` | folder1/demo/src/main/java/com/example/demo/service/CsvRecordProcessor.java:204-208 | definition: each key not yet present appended, in order; its properties are `AppendNewShape`, `AppendNewOrder` and `AppendNewDistinct` |
| `CsvSink.DeriveHeader` | folder1/demo/src/main/java/com/example/demo/service/CsvRecordProcessor.java:199-211 | definition: the scalar keys, then the first item's new keys; its properties are the `AppendNew` lemmas |
| `CsvSink.Cell` | folder1/demo/src/main/java/com/example/demo/service/CsvRecordProcessor.java:251-256 | definition: the scalar field when the record has the key, else the item's value, else `""`; its properties are `RowReadsBack` |
| `CsvSink.RowLine` | folder1/demo/src/main/java/com/example/demo/service/CsvRecordProcessor.java:248-260 | definition: the escaped cells joined by commas; its properties are `RowReadsBack` and `RowFits` |
| `CsvSink.HeaderLine` | folder1/demo/src/main/java/com/example/demo/service/CsvRecordProcessor.java:237 | definition: the escaped header names joined by commas; its properties are `HeaderReadsBack` |
| `CsvSink.WriteGroup` | folder1/demo/src/main/java/com/example/demo/service/CsvRecordProcessor.java:194-234 | definition of one `writeArrayToCsv` call on the state; its properties are `WriteGroupEffect`, `WriteGroupInv`, `HeaderWrittenAtMostOnce`, `HeaderStable` and `RunAppendOnly` |
| `CsvSink.IsBlank` | folder1/demo/src/main/java/com/example/demo/service/CsvRecordProcessor.java:54 | definition: `String.isBlank`, every character Java whitespace |
| `CsvSink.WriteGroups` | folder1/demo/src/main/java/com/example/demo/service/CsvRecordProcessor.java:76-86 | definition: the group loop of `processJsonRecord`, empty groups skipped; its properties are `WriteGroupsInv`, `WriteGroupsOthers` and `WriteGroupsNewGroup` |
| `CsvSink.ProcessRecord` | folder1/demo/src/main/java/com/example/demo/service/CsvRecordProcessor.java:53-91 | definition of `processJsonRecord` on the state; its properties are `ProcessRecordInv`, `ProcessRecordAppendOnly`, `ProcessRecordNewGroup` and `NoArraysNoOutput` |
| `CsvSink.HeaderRepeatedAfterRestart` | folder1/demo/src/main/java/com/example/demo/service/CsvRecordProcessor.java:215-228 | a file left by an earlier run is outside the sink invariant, and the group's first call appends a second header line and the rows after its old lines |
| `RecordProcessor.CsvRecordProcessor.constructor` | folder1/demo/src/main/java/com/example/demo/service/CsvRecordProcessor.java:26-36 | a new processor has no cached headers, no marks and no files, and satisfies the invariant |
| `RecordProcessor.CsvRecordProcessor.ProcessJsonRecord` | folder1/demo/src/main/java/com/example/demo/service/CsvRecordProcessor.java:53-91 | the loop over the groups keeps the invariant and leaves the fields as `ProcessRecord` of the old state |
| `RecordProcessor.CsvRecordProcessor.WriteArrayToCsv` | folder1/demo/src/main/java/com/example/demo/service/CsvRecordProcessor.java:194-234 | keeps the invariant and leaves the fields as `WriteGroup` of the old state |
| `RecordProcessor.CsvRecordProcessor.AppendLines` | folder1/demo/src/main/java/com/example/demo/service/CsvRecordProcessor.java:217-229 | the file gets its old lines, then the header line when asked for, then one row per item; other files are unchanged |
| `RecordProcessor.CsvRecordProcessor.WriteRows` | folder1/demo/src/main/java/com/example/demo/service/CsvRecordProcessor.java:226-228 | the loop appends one row per item, in order |
| `RecordProcessor.CsvRecordProcessor.DeriveHeaderList` | folder1/demo/src/main/java/com/example/demo/service/CsvRecordProcessor.java:199-211 | the loop builds the scalar keys followed by the new first-item keys (`DeriveHeader`, whose properties are the `AppendNew` lemmas) |
| `RecordProcessor.CsvRecordProcessor.WriteHeaderLine` | folder1/demo/src/main/java/com/example/demo/service/CsvRecordProcessor.java:236-240 | appends exactly the escaped, comma-joined header line |
| `RecordProcessor.CsvRecordProcessor.WriteRow` | folder1/demo/src/main/java/com/example/demo/service/CsvRecordProcessor.java:242-263 | the loop over the headers appends exactly the row line: scalar value, else item value, else `""`, each escaped |
| `RecordProcessor.AppendWriter.constructor` | folder1/demo/src/main/java/com/example/demo/service/CsvRecordProcessor.java:217-221 | a file opened for appending starts with its existing lines |
| `RecordProcessor.AppendWriter.WriteLine` | folder1/demo/src/main/java/com/example/demo/service/CsvRecordProcessor.java:238-239 | a write adds exactly one line after the existing ones |
| `Scenarios.RecordScalars` | folder1/demo/src/test/java/com/example/demo/service/CsvRecordProcessorTest.java:36-49 | the first test's record has the scalar fields `name` and `age` |
| `Scenarios.RecordGroups` | folder1/demo/src/test/java/com/example/demo/service/CsvRecordProcessorTest.java:36-49 | the first test's record has the groups `employees` and `projects`, in that order, with their two items each |
| `Scenarios.EmployeesHeader` | folder1/demo/src/test/java/com/example/demo/service/CsvRecordProcessorTest.java:62-64 | the `employees` header is `name,age,id,department,salary` |
| `Scenarios.FirstEmployeeRow` | folder1/demo/src/test/java/com/example/demo/service/CsvRecordProcessorTest.java:70 | the first employee's row reads back as `John Doe,30,101,Engineering,75000` |
| `Scenarios.EmployeesFile` | folder1/demo/src/test/java/com/example/demo/service/CsvRecordProcessorTest.java:51-71 | after the record, `employees.csv` is the header line, which reads back as the header, then the two rows |
| `Scenarios.NoArraysRecord` | folder1/demo/src/test/java/com/example/demo/service/CsvRecordProcessorTest.java:77-91 | a record without lists creates no file and changes nothing |
| `Scenarios.PersonFlattened` | folder1/demo/src/test/java/com/example/demo/service/CsvRecordProcessorTest.java:93-111 | nested keys are joined at every depth: `address_geo_lat`, `address_street` |
| `Scenarios.NestedGroupsFound` | folder1/demo/src/test/java/com/example/demo/service/CsvRecordProcessorTest.java:133-153 | a top-level list and a list inside an object are both found: `employees` and `details_projects` |
| `FlattenExamples.FlattenLoopAppend` | folder1/demo/src/main/java/com/example/demo/service/CsvRecordProcessor.java:107-119 | the flattening loop processes members in order: the loop over `a + b` is the loop over `b` resumed after `a` |
| `FlattenExamples.CollidingKeysLastWins` | folder1/demo/src/main/java/com/example/demo/service/CsvRecordProcessor.java:114-117 | a nested key that joins to an existing key takes the later value at the first position |
| `FlattenExamples.EmptyKeyNoPrefix` | folder1/demo/src/main/java/com/example/demo/service/CsvRecordProcessor.java:108-110 | an empty key adds no prefix to the keys of the object under it |
| `FlattenExamples.TaggedFlattened` | folder1/demo/src/test/java/com/example/demo/service/CsvRecordProcessorTest.java:116-121 | the fourth test's record flattens to `id`, `name`, `tags`, `meta_inner` |
| `FlattenExamples.TaggedNonListFields` | folder1/demo/src/test/java/com/example/demo/service/CsvRecordProcessorTest.java:113-130 | its non-list fields are `id`, `name` and `meta_inner`; `tags` is left out |

## Left out

- JSON text parsing (`objectMapper.readValue`) is a foreign call: it is the parameter `parse`. Duplicate keys and number formats are the parser's business.
- Jackson's rendering of floating-point numbers: a non-integral number keeps its text (`JNumber`), which stands for Java's `toString` of the parsed `Double`.
- The output directory is taken to hold no `<group>.csv` file when the processor starts: the constructor starts with no files, and the sink invariant (every file belongs to a group marked in this run, every line fits its header) and `CsvSink.WriteGroupHeaderFirst` cover only files created in this run. After a restart over the same directory the code appends to the old file and writes a second header line; `CsvSink.HeaderRepeatedAfterRestart` shows this, but the class does not accept existing files.
- `init` and `Files.createDirectories`, `outputDir.resolve` and path normalisation. A file is keyed by its group name, so two names that resolve to the same path are two files here.
- I/O failures are modelled only as a failed open of a group's file. A failure after part of a file was written is not modelled, and a failed open leaves no trace.
- The platform line separator written by `newLine()`: a file is a sequence of lines.
- Concurrency of `ConcurrentHashMap` and `newKeySet`: `computeIfAbsent` and `add` are sequential steps, and calls do not interleave.
- Logging.
- Runtime exceptions other than a parse failure or a failed open. The code's `catch (Exception e)` would stop the group loop where one is thrown; the model has no such exception.
- The `arrayItems == null` test: the extractor never produces a null list.
- The iteration order of `Map.of` in the unit tests is unspecified in Java; the test records are modelled in the order the tests write them.
- `flattenMap` and `extractNonListFields` are called by the unit tests on maps that are not parsed JSON (`Map.of` with `Double` values); these are the same trees here.
- The Kafka producer, the Kafka Streams topology, the web controller, the Spring configuration classes, `Space-Invaders-with-Python-main/Code/Main.py`, `matrix.js` and `bitbucket_task.py` are not part of this model.
