/** The CSV sink of the record processor, as a function of its state:
    the cached header per group (`headersByFile`), the set of groups whose
    header line has been written (`headersWritten`) and the lines of each
    group's append-only output file `<group>.csv`. The class in
    csv_record_processor.dfy is proved to change its fields exactly as these
    functions say. */
module CsvSink {
  import opened Json
  import opened LinkedMap
  import opened Flatten
  import opened CsvText

  datatype Sink = Sink(
    headersByFile: map<string, seq<string>>,
    headersWritten: set<string>,
    files: map<string, seq<string>>)

  const EmptySink: Sink := Sink(map[], {}, map[])

  // ---------- header derivation ----------

  predicate Distinct(s: seq<string>)
  {
    forall i, j :: 0 <= i < j < |s| ==> s[i] != s[j]
  }

  /** The header loop: each key not yet in the list is appended. */
  function AppendNew(headers: seq<string>, keys: seq<string>): seq<string>
    decreases |keys|
  {
    if keys == [] then headers
    else
      var prev := AppendNew(headers, keys[..|keys| - 1]);
      var k := keys[|keys| - 1];
      if k in prev then prev else prev + [k]
  }

  /** The header of a new group: the scalar keys, then the keys of the first
      item that are not already present. */
  function DeriveHeader(scalars: FlatRecord, firstItem: FlatRecord): seq<string>
  {
    AppendNew(Keys(scalars), Keys(firstItem))
  }

  /** Position of the first occurrence of `k` in `keys`. */
  function FirstIndex(keys: seq<string>, k: string): nat
    requires k in keys
    ensures FirstIndex(keys, k) < |keys| && keys[FirstIndex(keys, k)] == k
    ensures forall i :: 0 <= i < FirstIndex(keys, k) ==> keys[i] != k
  {
    if keys[0] == k then 0 else 1 + FirstIndex(keys[1..], k)
  }

  lemma FirstIndexPrefix(keys: seq<string>, n: nat, k: string)
    requires n <= |keys| && k in keys[..n]
    ensures FirstIndex(keys, k) == FirstIndex(keys[..n], k)
  {
    var i := FirstIndex(keys[..n], k);
    assert keys[i] == k;
    var j := FirstIndex(keys, k);
    assert j <= i;
    assert keys[..n][j] == k;
  }

  /** The header starts with the given keys and holds exactly the given
      keys and the new keys; each key it adds is new. */
  lemma {:induction false} AppendNewShape(headers: seq<string>, keys: seq<string>)
    ensures headers <= AppendNew(headers, keys)
    ensures forall k :: k in AppendNew(headers, keys) <==> k in headers || k in keys
    ensures forall i :: |headers| <= i < |AppendNew(headers, keys)| ==>
              AppendNew(headers, keys)[i] in keys && AppendNew(headers, keys)[i] !in headers
    decreases |keys|
  {
    if keys != [] {
      var init := keys[..|keys| - 1];
      AppendNewShape(headers, init);
      assert keys == init + [keys[|keys| - 1]];
    }
  }

  /** The keys the header adds follow the order in which they first occur. */
  lemma {:induction false} AppendNewOrder(headers: seq<string>, keys: seq<string>)
    ensures forall i :: |headers| <= i < |AppendNew(headers, keys)| ==> AppendNew(headers, keys)[i] in keys
    ensures forall i, j :: |headers| <= i < j < |AppendNew(headers, keys)| ==>
              FirstIndex(keys, AppendNew(headers, keys)[i]) < FirstIndex(keys, AppendNew(headers, keys)[j])
    decreases |keys|
  {
    AppendNewShape(headers, keys);
    if keys != [] {
      var init := keys[..|keys| - 1];
      var k := keys[|keys| - 1];
      var prev := AppendNew(headers, init);
      AppendNewOrder(headers, init);
      AppendNewShape(headers, init);
      assert keys == init + [k];
      forall i | |headers| <= i < |prev|
        ensures FirstIndex(keys, prev[i]) < |init|
      {
        FirstIndexPrefix(keys, |init|, prev[i]);
      }
      if k !in prev {
        assert k !in init;
        assert FirstIndex(keys, k) == |init|;
      }
    }
  }

  /** A header derived from distinct scalar keys has no duplicates. */
  lemma AppendNewDistinct(headers: seq<string>, keys: seq<string>)
    requires Distinct(headers)
    ensures Distinct(AppendNew(headers, keys))
  {
    AppendNewShape(headers, keys);
    AppendNewOrder(headers, keys);
    var r := AppendNew(headers, keys);
    forall i, j | 0 <= i < j < |r| ensures r[i] != r[j] {
      if j < |headers| {
        assert r[i] == headers[i] && r[j] == headers[j];
      } else if i < |headers| {
        assert r[i] in headers;
      } else {
        assert FirstIndex(keys, r[i]) < FirstIndex(keys, r[j]);
      }
    }
  }

  // ---------- rows ----------

  /** `Map.get`: null when absent. */
  function Get(m: FlatRecord, k: string): JsonValue
  {
    match Lookup(m, k)
    case Some(v) => v
    case None => JNull
  }

  /** `getOrDefault`. */
  function GetOrDefault(m: FlatRecord, k: string, default: JsonValue): JsonValue
  {
    match Lookup(m, k)
    case Some(v) => v
    case None => default
  }

  /** The value of one cell: the record's scalar field when it has that key,
      else the item's value, else the empty string. */
  function Cell(header: string, scalars: FlatRecord, item: FlatRecord): JsonValue
  {
    if header in Keys(scalars) then Get(scalars, header) else GetOrDefault(item, header, JString(""))
  }

  /** The escaped cells of a row, one per header. */
  function RowFields(headers: seq<string>, scalars: FlatRecord, item: FlatRecord): (fields: seq<string>)
    ensures |fields| == |headers|
    decreases |headers|
  {
    if headers == [] then []
    else RowFields(headers[..|headers| - 1], scalars, item) + [EscapeCsvField(Cell(headers[|headers| - 1], scalars, item))]
  }

  lemma RowFieldsSnoc(headers: seq<string>, scalars: FlatRecord, item: FlatRecord, i: nat)
    requires i < |headers|
    ensures RowFields(headers[..i + 1], scalars, item) ==
              RowFields(headers[..i], scalars, item) + [EscapeCsvField(Cell(headers[i], scalars, item))]
  {
    assert headers[..i + 1][..i] == headers[..i];
  }

  /** The `i`-th field is the escaped cell of the `i`-th header. */
  lemma {:induction false} RowFieldsAt(headers: seq<string>, scalars: FlatRecord, item: FlatRecord, i: nat)
    requires i < |headers|
    ensures RowFields(headers, scalars, item)[i] == EscapeCsvField(Cell(headers[i], scalars, item))
    decreases |headers|
  {
    var init := headers[..|headers| - 1];
    if i < |init| {
      RowFieldsAt(init, scalars, item, i);
    }
  }

  function RowLine(headers: seq<string>, scalars: FlatRecord, item: FlatRecord): string
  {
    JoinComma(RowFields(headers, scalars, item))
  }

  /** One row per item, in order. */
  function RowLines(headers: seq<string>, scalars: FlatRecord, items: seq<FlatRecord>): (lines: seq<string>)
    ensures |lines| == |items|
    decreases |items|
  {
    if items == [] then []
    else RowLines(headers, scalars, items[..|items| - 1]) + [RowLine(headers, scalars, items[|items| - 1])]
  }

  /** Writing the rows one by one: the rows of one more item are the
      earlier rows and that item's row. */
  lemma RowLinesSnoc(headers: seq<string>, scalars: FlatRecord, items: seq<FlatRecord>, j: nat)
    requires j < |items|
    ensures RowLines(headers, scalars, items[..j + 1]) ==
              RowLines(headers, scalars, items[..j]) + [RowLine(headers, scalars, items[j])]
  {
    assert items[..j + 1][..j] == items[..j];
  }

  /** The `t`-th row is the `t`-th item's row. */
  lemma {:induction false} RowLinesAt(headers: seq<string>, scalars: FlatRecord, items: seq<FlatRecord>, t: nat)
    requires t < |items|
    ensures RowLines(headers, scalars, items)[t] == RowLine(headers, scalars, items[t])
    decreases |items|
  {
    var init := items[..|items| - 1];
    if t < |init| {
      RowLinesAt(headers, scalars, init, t);
    } else if init != [] {
      RowLinesAt(headers, scalars, init, 0);
    }
  }

  function HeaderLine(headers: seq<string>): string
  {
    JoinComma(EscapeCsvFields(headers))
  }

  /** The text a cell reads back as: nothing for null, else its `toString`. */
  function CellText(v: JsonValue): string
  {
    if v.JNull? then "" else JavaText(v)
  }

  /** A row read back under RFC 4180 has one field per header, holding the
      scalar field's text when the record has that key (even if the item
      has it too), else the item's, else nothing; item keys outside the
      header are dropped. */
  lemma RowReadsBack(headers: seq<string>, scalars: FlatRecord, item: FlatRecord)
    requires headers != []
    ensures ParseRecord(RowLine(headers, scalars, item)) ==
              Some(seq(|headers|, i requires 0 <= i < |headers| =>
                if headers[i] in Keys(scalars) then CellText(Get(scalars, headers[i]))
                else if headers[i] in Keys(item) then CellText(Get(item, headers[i]))
                else ""))
  {
    var texts := seq(|headers|, i requires 0 <= i < |headers| => CellText(Cell(headers[i], scalars, item)));
    var expected := seq(|headers|, i requires 0 <= i < |headers| =>
                      if headers[i] in Keys(scalars) then CellText(Get(scalars, headers[i]))
                      else if headers[i] in Keys(item) then CellText(Get(item, headers[i]))
                      else "");
    assert !NeedsQuoting("");
    forall i | 0 <= i < |headers|
      ensures RowFields(headers, scalars, item)[i] == EscapeCsvFields(texts)[i]
    {
      RowFieldsAt(headers, scalars, item, i);
    }
    assert RowFields(headers, scalars, item) == EscapeCsvFields(texts);
    ParseJoinedRecord(texts);
    forall i | 0 <= i < |headers|
      ensures texts[i] == expected[i]
    {
      if headers[i] !in Keys(scalars) && headers[i] !in Keys(item) {
        LookupPresent(item, headers[i]);
      }
    }
    assert texts == expected;
  }

  /** The header line reads back as the header names. */
  lemma HeaderReadsBack(headers: seq<string>)
    requires headers != []
    ensures ParseRecord(HeaderLine(headers)) == Some(headers)
  {
    ParseJoinedRecord(headers);
  }

  // ---------- writing one group ----------

  /** `writeArrayToCsv(name, scalars, items)`; `canOpen` says whether the
      file could be opened for appending (an IOException otherwise). */
  function WriteGroup(s: Sink, name: string, scalars: FlatRecord, items: seq<FlatRecord>, canOpen: bool): Sink
    requires items != []
  {
    var headers := if name in s.headersByFile then s.headersByFile[name] else DeriveHeader(scalars, items[0]);
    var shouldWriteHeader := name !in s.headersWritten;
    var cached := s.(headersByFile := s.headersByFile[name := headers],
                     headersWritten := s.headersWritten + {name});
    if !canOpen then cached
    else
      var prev := if name in s.files then s.files[name] else [];
      var header := if shouldWriteHeader then [HeaderLine(headers)] else [];
      cached.(files := s.files[name := prev + header + RowLines(headers, scalars, items)])
  }

  /** The lines of a group's file, empty if it does not exist. */
  function FileLines(s: Sink, name: string): seq<string>
  {
    if name in s.files then s.files[name] else []
  }

  /** A line read back has one field per header name. */
  ghost predicate Fits(line: string, headers: seq<string>)
  {
    headers != [] ==> ParseRecord(line).Some? && |ParseRecord(line).value| == |headers|
  }

  /** The sink's invariant: a group is cached exactly when its header was
      marked written, every file belongs to such a group, and every line of
      a file has as many fields as its group's header. */
  ghost predicate SinkInv(s: Sink)
  {
    && s.headersWritten == s.headersByFile.Keys
    && s.files.Keys <= s.headersWritten
    && forall g :: g in s.files ==> AllFit(s.files[g], s.headersByFile[g])
  }

  lemma EmptySinkInv()
    ensures SinkInv(EmptySink)
  {
  }

  /** One call: the header is cached once and then reused; the file of
      `name` gets the header line only on the group's first call, then one
      row per item; earlier lines and other groups are untouched; a failed
      open changes no file. */
  lemma WriteGroupEffect(s: Sink, name: string, scalars: FlatRecord, items: seq<FlatRecord>, canOpen: bool)
    requires items != []
    ensures var r := WriteGroup(s, name, scalars, items, canOpen);
      && name in r.headersByFile && name in r.headersWritten
      && (name in s.headersByFile ==> r.headersByFile[name] == s.headersByFile[name])
      && (forall g :: g != name ==> (g in r.headersByFile <==> g in s.headersByFile))
      && (forall g :: g != name && g in s.headersByFile ==> r.headersByFile[g] == s.headersByFile[g])
      && (forall g :: g != name ==> (g in r.files <==> g in s.files))
      && (forall g :: g != name && g in s.files ==> r.files[g] == s.files[g])
      && (!canOpen ==> r.files == s.files)
      && (canOpen ==>
            && name in r.files
            && FileLines(s, name) <= r.files[name]
            && |r.files[name]| == |FileLines(s, name)| + |items| + (if name in s.headersWritten then 0 else 1))
  {
  }

  /** Every line fits the header. */
  ghost predicate AllFit(lines: seq<string>, headers: seq<string>)
  {
    forall j :: 0 <= j < |lines| ==> Fits(lines[j], headers)
  }

  lemma RowFits(headers: seq<string>, scalars: FlatRecord, item: FlatRecord)
    ensures Fits(RowLine(headers, scalars, item), headers)
  {
    if headers != [] {
      RowReadsBack(headers, scalars, item);
    }
  }

  lemma HeaderFits(headers: seq<string>)
    ensures Fits(HeaderLine(headers), headers)
  {
    if headers != [] {
      HeaderReadsBack(headers);
    }
  }

  /** Every row written for a group fits its header. */
  lemma RowLinesFit(headers: seq<string>, scalars: FlatRecord, items: seq<FlatRecord>)
    ensures AllFit(RowLines(headers, scalars, items), headers)
  {
    var rows := RowLines(headers, scalars, items);
    forall t | 0 <= t < |rows| ensures Fits(rows[t], headers) {
      RowLinesAt(headers, scalars, items, t);
      RowFits(headers, scalars, items[t]);
    }
  }

  /** Appending lines that fit keeps every line of the file fitting. */
  lemma AppendFits(prev: seq<string>, more: seq<string>, headers: seq<string>)
    requires AllFit(prev, headers) && AllFit(more, headers)
    ensures AllFit(prev + more, headers)
  {
    forall j | 0 <= j < |prev + more| ensures Fits((prev + more)[j], headers) {
      if j >= |prev| {
        assert (prev + more)[j] == more[j - |prev|];
      }
    }
  }

  lemma WriteGroupInv(s: Sink, name: string, scalars: FlatRecord, items: seq<FlatRecord>, canOpen: bool)
    requires SinkInv(s) && items != []
    ensures SinkInv(WriteGroup(s, name, scalars, items, canOpen))
  {
    var r := WriteGroup(s, name, scalars, items, canOpen);
    var headers := r.headersByFile[name];
    if canOpen {
      var prev := FileLines(s, name);
      var header := if name !in s.headersWritten then [HeaderLine(headers)] else [];
      var rows := RowLines(headers, scalars, items);
      assert r.files[name] == prev + header + rows;
      assert AllFit(prev, headers);
      HeaderFits(headers);
      assert AllFit(header, headers);
      AppendFits(prev, header, headers);
      RowLinesFit(headers, scalars, items);
      AppendFits(prev + header, rows, headers);
    }
  }

  // ---------- runs of calls ----------

  datatype Call = Call(name: string, scalars: FlatRecord, items: seq<FlatRecord>, canOpen: bool)

  predicate ValidCalls(calls: seq<Call>)
  {
    forall i :: 0 <= i < |calls| ==> calls[i].items != []
  }

  function Apply(s: Sink, c: Call): Sink
    requires c.items != []
  {
    WriteGroup(s, c.name, c.scalars, c.items, c.canOpen)
  }

  function Run(s: Sink, calls: seq<Call>): Sink
    requires ValidCalls(calls)
    decreases |calls|
  {
    if calls == [] then s else Run(Apply(s, calls[0]), calls[1..])
  }

  /** The call appended more lines to `g`'s file than it has items: it
      wrote `g`'s header line. */
  predicate WroteHeader(s: Sink, c: Call, g: string)
    requires c.items != []
  {
    var r := Apply(s, c);
    c.name == g && g in r.files && |r.files[g]| > |FileLines(s, g)| + |c.items|
  }

  function HeaderWrites(s: Sink, calls: seq<Call>, g: string): nat
    requires ValidCalls(calls)
    decreases |calls|
  {
    if calls == [] then 0
    else (if WroteHeader(s, calls[0], g) then 1 else 0) + HeaderWrites(Apply(s, calls[0]), calls[1..], g)
  }

  /** Over any run of calls, a group's header line is written at most once,
      and never once the group is marked as written. */
  lemma {:induction false} HeaderWrittenAtMostOnce(s: Sink, calls: seq<Call>, g: string)
    requires ValidCalls(calls)
    ensures HeaderWrites(s, calls, g) <= if g in s.headersWritten then 0 else 1
    decreases |calls|
  {
    if calls != [] {
      var c := calls[0];
      WriteGroupEffect(s, c.name, c.scalars, c.items, c.canOpen);
      var s' := Apply(s, c);
      HeaderWrittenAtMostOnce(s', calls[1..], g);
      if WroteHeader(s, c, g) {
        assert g !in s.headersWritten;
        assert g in s'.headersWritten;
      } else if g in s.headersWritten {
        assert g in s'.headersWritten;
      }
    }
  }

  /** Once a group's header is cached, no later call changes it, whatever
      scalars or items those calls bring. */
  lemma {:induction false} HeaderStable(s: Sink, calls: seq<Call>, g: string)
    requires ValidCalls(calls) && g in s.headersByFile
    ensures g in Run(s, calls).headersByFile && Run(s, calls).headersByFile[g] == s.headersByFile[g]
    decreases |calls|
  {
    if calls != [] {
      var c := calls[0];
      WriteGroupEffect(s, c.name, c.scalars, c.items, c.canOpen);
      HeaderStable(Apply(s, c), calls[1..], g);
    }
  }

  /** Files only grow: every earlier line stays where it was. */
  lemma {:induction false} RunAppendOnly(s: Sink, calls: seq<Call>, g: string)
    requires ValidCalls(calls) && g in s.files
    ensures g in Run(s, calls).files && s.files[g] <= Run(s, calls).files[g]
    decreases |calls|
  {
    if calls != [] {
      var c := calls[0];
      WriteGroupEffect(s, c.name, c.scalars, c.items, c.canOpen);
      var s' := Apply(s, c);
      RunAppendOnly(s', calls[1..], g);
      assert s.files[g] <= s'.files[g];
    }
  }

  /** When the first open of a group's file fails, the group is still
      marked as written, so the file that a later call creates has rows and
      no header line. */
  lemma HeaderLostAfterFailedOpen(s: Sink, name: string, scalars: FlatRecord, items: seq<FlatRecord>)
    requires items != [] && name !in s.headersWritten && name !in s.files
    ensures var s1 := WriteGroup(s, name, scalars, items, false);
      var s2 := WriteGroup(s1, name, scalars, items, true);
      s2.files[name] == RowLines(s1.headersByFile[name], scalars, items)
  {
  }

  /** The model starts with no files. A `<name>.csv` left in the output
      directory by an earlier run is outside the sink invariant; the code
      appends to it, so the group's first call writes a second header line
      after the old lines. */
  lemma HeaderRepeatedAfterRestart(earlier: seq<string>, name: string, scalars: FlatRecord, items: seq<FlatRecord>)
    requires items != []
    ensures var s := Sink(map[], {}, map[name := earlier]);
      var h := DeriveHeader(scalars, items[0]);
      && !SinkInv(s)
      && WriteGroup(s, name, scalars, items, true).files[name] == earlier + [HeaderLine(h)] + RowLines(h, scalars, items)
  {
    var s := Sink(map[], {}, map[name := earlier]);
    assert name in s.files.Keys && name !in s.headersWritten;
  }

  /** When every open succeeds, each file starts with its group's header
      line and every marked group has a file. */
  ghost predicate HeaderFirst(s: Sink)
  {
    && s.files.Keys == s.headersWritten
    && forall g :: g in s.files ==>
         g in s.headersByFile && s.files[g] != [] && s.files[g][0] == HeaderLine(s.headersByFile[g])
  }

  lemma WriteGroupHeaderFirst(s: Sink, name: string, scalars: FlatRecord, items: seq<FlatRecord>)
    requires SinkInv(s) && HeaderFirst(s) && items != []
    ensures HeaderFirst(WriteGroup(s, name, scalars, items, true))
  {
    var r := WriteGroup(s, name, scalars, items, true);
    if name in s.files {
      assert r.files[name][0] == s.files[name][0];
    }
  }

  // ---------- one record ----------

  /** `Character.isWhitespace`. */
  predicate IsJavaWhitespace(c: char)
  {
    || c == ' '
    || ('\t' <= c <= '\r')
    || ('\U{1C}' <= c <= '\U{1F}')
    || c == '\U{1680}'
    || ('\U{2000}' <= c <= '\U{2006}')
    || ('\U{2008}' <= c <= '\U{200A}')
    || c == '\U{2028}' || c == '\U{2029}' || c == '\U{205F}' || c == '\U{3000}'
  }

  /** `String.isBlank`. */
  predicate IsBlank(s: string)
  {
    forall i :: 0 <= i < |s| ==> IsJavaWhitespace(s[i])
  }

  /** The loop of `processJsonRecord` over the groups, in order: empty groups
      are skipped; `unwritable` names the groups whose file cannot be opened
      during this record. */
  function WriteGroups(s: Sink, scalars: FlatRecord, groups: Groups, unwritable: set<string>): Sink
    decreases |groups|
  {
    if groups == [] then s
    else
      var before := WriteGroups(s, scalars, groups[..|groups| - 1], unwritable);
      var g := groups[|groups| - 1];
      if g.value == [] then before
      else WriteGroup(before, g.key, scalars, g.value, g.key !in unwritable)
  }

  /** `processJsonRecord(jsonRecord)`: `None` is a null record; `parse` stands
      for the JSON parser, `None` being a parse failure. Only an object is
      processed. */
  function ProcessRecord(s: Sink, record: Option<string>, parse: string -> Option<JsonValue>, unwritable: set<string>): Sink
  {
    if record.None? || IsBlank(record.value) then s
    else
      match parse(record.value)
      case Some(JObject(data)) =>
        var groups := ExtractArrayFields(data);
        if groups == [] then s else WriteGroups(s, ExtractNonListFields(data), groups, unwritable)
      case _ => s
  }

  lemma {:induction false} WriteGroupsInv(s: Sink, scalars: FlatRecord, groups: Groups, unwritable: set<string>)
    requires SinkInv(s)
    ensures SinkInv(WriteGroups(s, scalars, groups, unwritable))
    decreases |groups|
  {
    if groups != [] {
      var before := WriteGroups(s, scalars, groups[..|groups| - 1], unwritable);
      WriteGroupsInv(s, scalars, groups[..|groups| - 1], unwritable);
      var g := groups[|groups| - 1];
      if g.value != [] {
        WriteGroupInv(before, g.key, scalars, g.value, g.key !in unwritable);
      }
    }
  }

  /** Processing a record keeps the sink's invariant. */
  lemma ProcessRecordInv(s: Sink, record: Option<string>, parse: string -> Option<JsonValue>, unwritable: set<string>)
    requires SinkInv(s)
    ensures SinkInv(ProcessRecord(s, record, parse, unwritable))
  {
    if record.Some? && !IsBlank(record.value) {
      match parse(record.value)
      case Some(JObject(data)) =>
        WriteGroupsInv(s, ExtractNonListFields(data), ExtractArrayFields(data), unwritable);
      case _ =>
    }
  }

  lemma {:induction false} WriteGroupsAppendOnly(s: Sink, scalars: FlatRecord, groups: Groups, unwritable: set<string>)
    ensures var r := WriteGroups(s, scalars, groups, unwritable);
      && (forall g :: g in s.files ==> g in r.files && s.files[g] <= r.files[g])
      && (forall g :: g in s.headersByFile ==> g in r.headersByFile && r.headersByFile[g] == s.headersByFile[g])
      && (forall g :: g in r.files && g !in s.files ==> g in Keys(groups))
    decreases |groups|
  {
    if groups != [] {
      var init := groups[..|groups| - 1];
      var before := WriteGroups(s, scalars, init, unwritable);
      WriteGroupsAppendOnly(s, scalars, init, unwritable);
      var g := groups[|groups| - 1];
      assert Keys(groups) == Keys(init) + [g.key] by {
        assert groups == init + [g];
      }
      if g.value != [] {
        WriteGroupEffect(before, g.key, scalars, g.value, g.key !in unwritable);
      }
    }
  }

  /** Processing a record only appends lines and never changes a cached
      header. */
  lemma ProcessRecordAppendOnly(s: Sink, record: Option<string>, parse: string -> Option<JsonValue>, unwritable: set<string>)
    ensures var r := ProcessRecord(s, record, parse, unwritable);
      && (forall g :: g in s.files ==> g in r.files && s.files[g] <= r.files[g])
      && (forall g :: g in s.headersByFile ==> g in r.headersByFile && r.headersByFile[g] == s.headersByFile[g])
  {
    if record.Some? && !IsBlank(record.value) {
      match parse(record.value)
      case Some(JObject(data)) =>
        WriteGroupsAppendOnly(s, ExtractNonListFields(data), ExtractArrayFields(data), unwritable);
      case _ =>
    }
  }

  /** Groups the record does not name keep their header, their mark and
      their file. */
  lemma {:induction false} WriteGroupsOthers(s: Sink, scalars: FlatRecord, groups: Groups, unwritable: set<string>, k: string)
    requires k !in Keys(groups)
    ensures var r := WriteGroups(s, scalars, groups, unwritable);
      && (k in r.files <==> k in s.files)
      && (k in s.files ==> r.files[k] == s.files[k])
      && (k in r.headersWritten <==> k in s.headersWritten)
      && (k in r.headersByFile <==> k in s.headersByFile)
      && (k in s.headersByFile ==> r.headersByFile[k] == s.headersByFile[k])
    decreases |groups|
  {
    if groups != [] {
      var init := groups[..|groups| - 1];
      var g := groups[|groups| - 1];
      assert groups == init + [g];
      assert Keys(groups) == Keys(init) + [g.key];
      WriteGroupsOthers(s, scalars, init, unwritable, k);
      if g.value != [] {
        WriteGroupEffect(WriteGroups(s, scalars, init, unwritable), g.key, scalars, g.value, g.key !in unwritable);
      }
    }
  }

  /** A prefix of a map with distinct keys has distinct keys, none of them
      the last key. */
  lemma DistinctInit(groups: Groups)
    requires DistinctKeys(groups) && groups != []
    ensures DistinctKeys(groups[..|groups| - 1])
    ensures groups[|groups| - 1].key !in Keys(groups[..|groups| - 1])
  {
  }

  /** The first call for a group whose file opens writes the header line
      and then the rows. */
  lemma WriteGroupFresh(s: Sink, name: string, scalars: FlatRecord, items: seq<FlatRecord>)
    requires items != []
    requires name !in s.headersWritten && name !in s.headersByFile && name !in s.files
    ensures var r := WriteGroup(s, name, scalars, items, true);
      var h := DeriveHeader(scalars, items[0]);
      && name in r.files && name in r.headersByFile
      && r.headersByFile[name] == h
      && r.files[name] == [HeaderLine(h)] + RowLines(h, scalars, items)
  {
    var h := DeriveHeader(scalars, items[0]);
    assert [] + [HeaderLine(h)] == [HeaderLine(h)];
  }

  /** A group the sink has not seen, with items and a file that opens, gets
      a file holding its header line and then one row per item, in order;
      its header is the record's scalar keys followed by the new keys of its
      first item. */
  lemma {:induction false} WriteGroupsNewGroup(s: Sink, scalars: FlatRecord, groups: Groups, unwritable: set<string>, i: nat)
    requires DistinctKeys(groups) && i < |groups|
    requires groups[i].value != [] && groups[i].key !in unwritable
    requires groups[i].key !in s.headersWritten && groups[i].key !in s.headersByFile && groups[i].key !in s.files
    ensures var r := WriteGroups(s, scalars, groups, unwritable);
      var h := DeriveHeader(scalars, groups[i].value[0]);
      && groups[i].key in r.files && groups[i].key in r.headersByFile
      && r.headersByFile[groups[i].key] == h
      && r.files[groups[i].key] == [HeaderLine(h)] + RowLines(h, scalars, groups[i].value)
    decreases |groups|
  {
    var init := groups[..|groups| - 1];
    var g := groups[|groups| - 1];
    var before := WriteGroups(s, scalars, init, unwritable);
    DistinctInit(groups);
    if i == |groups| - 1 {
      WriteGroupsOthers(s, scalars, init, unwritable, g.key);
      WriteGroupFresh(before, g.key, scalars, g.value);
    } else {
      WriteGroupsNewGroup(s, scalars, init, unwritable, i);
      assert groups[i].key != g.key by {
        assert Keys(init)[i] == groups[i].key;
      }
      if g.value != [] {
        WriteGroupEffect(before, g.key, scalars, g.value, g.key !in unwritable);
      }
    }
  }

  /** The first record that brings a non-empty list creates that list's
      file with the header line first, then one row per element. */
  lemma ProcessRecordNewGroup(s: Sink, record: string, data: seq<Entry<JsonValue>>, unwritable: set<string>, g: Entry<seq<FlatRecord>>)
    requires !IsBlank(record)
    requires g in ExtractArrayFields(data) && g.value != [] && g.key !in unwritable
    requires g.key !in s.headersWritten && g.key !in s.headersByFile && g.key !in s.files
    ensures var r := ProcessRecord(s, Some(record), _ => Some(JObject(data)), unwritable);
      var scalars := ExtractNonListFields(data);
      var h := DeriveHeader(scalars, g.value[0]);
      && g.key in r.files
      && r.files[g.key] == [HeaderLine(h)] + RowLines(h, scalars, g.value)
  {
    var groups := ExtractArrayFields(data);
    ExtractArrayFieldsGroups(data);
    var i :| 0 <= i < |groups| && groups[i] == g;
    WriteGroupsNewGroup(s, ExtractNonListFields(data), groups, unwritable, i);
  }

  /** A record with no list reachable through nested objects writes nothing
      and changes no state. */
  lemma NoArraysNoOutput(s: Sink, record: string, data: seq<Entry<JsonValue>>, unwritable: set<string>)
    requires !HasReachableArray(data)
    ensures ProcessRecord(s, Some(record), _ => Some(JObject(data)), unwritable) == s
  {
    NoArraysNoGroups(data);
  }

  /** Only non-empty groups can create a file. */
  lemma {:induction false} EmptyGroupsNoOutput(s: Sink, scalars: FlatRecord, groups: Groups, unwritable: set<string>)
    requires forall i :: 0 <= i < |groups| ==> groups[i].value == []
    ensures WriteGroups(s, scalars, groups, unwritable) == s
    decreases |groups|
  {
    if groups != [] {
      EmptyGroupsNoOutput(s, scalars, groups[..|groups| - 1], unwritable);
    }
  }
}
