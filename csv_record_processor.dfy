/** The processor object: its three fields are updated in place by its
    methods, each proved to leave them exactly as the CsvSink functions
    say. Files are the `files` field, one sequence of lines per group. */
module RecordProcessor {
  import opened Json
  import opened LinkedMap
  import opened Flatten
  import opened CsvText
  import opened CsvSink

  class CsvRecordProcessor {
    /** The header of each group, fixed by the group's first record. */
    var headersByFile: map<string, seq<string>>
    /** The groups whose header line has been written (or attempted). */
    var headersWritten: set<string>
    /** The lines of each `<group>.csv` file. */
    var files: map<string, seq<string>>

    function State(): Sink
      reads this
    {
      Sink(headersByFile, headersWritten, files)
    }

    ghost predicate Valid()
      reads this
    {
      SinkInv(State())
    }

    constructor ()
      ensures State() == EmptySink && Valid()
    {
      headersByFile := map[];
      headersWritten := {};
      files := map[];
    }

    /** `processJsonRecord`: a null or blank record, a record that does not
        parse to an object and a record with no array group change nothing;
        otherwise every non-empty group is written in order. */
    method ProcessJsonRecord(record: Option<string>, parse: string -> Option<JsonValue>, unwritable: set<string>)
      requires Valid()
      modifies this
      ensures Valid()
      ensures State() == ProcessRecord(old(State()), record, parse, unwritable)
    {
      if record.None? || IsBlank(record.value) {
        return;
      }
      var parsed := parse(record.value);
      if !(parsed.Some? && parsed.value.JObject?) {
        return;
      }
      var data := parsed.value.members;
      var nonListFields := ExtractNonListFields(data);
      var arrayFields := ExtractArrayFields(data);
      if arrayFields == [] {
        return;
      }
      ghost var s0 := State();
      for i := 0 to |arrayFields|
        invariant Valid()
        invariant State() == WriteGroups(s0, nonListFields, arrayFields[..i], unwritable)
      {
        assert arrayFields[..i + 1][..i] == arrayFields[..i];
        var group := arrayFields[i];
        if group.value != [] {
          WriteArrayToCsv(group.key, nonListFields, group.value, group.key !in unwritable);
        }
      }
      assert arrayFields[..|arrayFields|] == arrayFields;
    }

    /** `writeArrayToCsv`: caches the group's header on its first call,
        marks the header as written, and, when the file opens, appends the
        header line (first call only) and one row per item. */
    method WriteArrayToCsv(fileName: string, nonListFields: FlatRecord, arrayItems: seq<FlatRecord>, canOpen: bool)
      requires Valid() && arrayItems != []
      modifies this
      ensures Valid()
      ensures State() == WriteGroup(old(State()), fileName, nonListFields, arrayItems, canOpen)
    {
      ghost var s0 := State();
      WriteGroupInv(s0, fileName, nonListFields, arrayItems, canOpen);
      var headers: seq<string>;
      if fileName in headersByFile {
        headers := headersByFile[fileName];
      } else {
        headers := DeriveHeaderList(nonListFields, arrayItems[0]);
        headersByFile := headersByFile[fileName := headers];
      }
      var shouldWriteHeader := fileName !in headersWritten;
      headersWritten := headersWritten + {fileName};
      if !canOpen {
        return;
      }
      AppendLines(fileName, headers, shouldWriteHeader, nonListFields, arrayItems);
    }

    /** The body of the `try` block of `writeArrayToCsv`: the file is
        opened for appending, the header line is written when asked for,
        then one row per item, and the file is closed. */
    method AppendLines(fileName: string, headers: seq<string>, shouldWriteHeader: bool,
                       nonListFields: FlatRecord, arrayItems: seq<FlatRecord>)
      modifies this`files
      ensures files == old(files)[fileName := (if fileName in old(files) then old(files)[fileName] else [])
                + (if shouldWriteHeader then [HeaderLine(headers)] else [])
                + RowLines(headers, nonListFields, arrayItems)]
    {
      var writer := new AppendWriter(if fileName in files then files[fileName] else []);
      if shouldWriteHeader {
        WriteHeaderLine(writer, headers);
      }
      ghost var start := writer.lines;
      assert start == (if fileName in files then files[fileName] else [])
                      + (if shouldWriteHeader then [HeaderLine(headers)] else []);
      WriteRows(writer, headers, nonListFields, arrayItems);
      files := files[fileName := writer.lines];
    }

    /** The loop of `writeArrayToCsv` over the items: one row each, in order. */
    method WriteRows(writer: AppendWriter, headers: seq<string>, nonListFields: FlatRecord, arrayItems: seq<FlatRecord>)
      modifies writer
      ensures writer.lines == old(writer.lines) + RowLines(headers, nonListFields, arrayItems)
    {
      ghost var start := writer.lines;
      assert arrayItems[..0] == [];
      for j := 0 to |arrayItems|
        invariant writer.lines == start + RowLines(headers, nonListFields, arrayItems[..j])
      {
        WriteRow(writer, headers, nonListFields, arrayItems[j]);
        RowLinesSnoc(headers, nonListFields, arrayItems, j);
      }
      assert arrayItems[..|arrayItems|] == arrayItems;
    }

    /** The mapping function given to `computeIfAbsent`: the scalar keys,
        then each key of the first item not already in the list. */
    method DeriveHeaderList(nonListFields: FlatRecord, firstItem: FlatRecord) returns (headerList: seq<string>)
      ensures headerList == DeriveHeader(nonListFields, firstItem)
    {
      headerList := Keys(nonListFields);
      var itemKeys := Keys(firstItem);
      for i := 0 to |itemKeys|
        invariant headerList == AppendNew(Keys(nonListFields), itemKeys[..i])
      {
        assert itemKeys[..i + 1][..i] == itemKeys[..i];
        if itemKeys[i] !in headerList {
          headerList := headerList + [itemKeys[i]];
        }
      }
      assert itemKeys[..|itemKeys|] == itemKeys;
    }

    /** `writeHeaderLine`: writes the escaped header names, comma-joined. */
    method WriteHeaderLine(writer: AppendWriter, headers: seq<string>)
      modifies writer
      ensures writer.lines == old(writer.lines) + [HeaderLine(headers)]
    {
      writer.WriteLine(JoinComma(EscapeCsvFields(headers)));
    }

    /** `writeRow`: one cell per header, the record's scalar field taking
        precedence over the item's, escaped and comma-joined. */
    method WriteRow(writer: AppendWriter, headers: seq<string>, nonListFields: FlatRecord, arrayItem: FlatRecord)
      modifies writer
      ensures writer.lines == old(writer.lines) + [RowLine(headers, nonListFields, arrayItem)]
    {
      var values: seq<string> := [];
      assert headers[..0] == [];
      for i := 0 to |headers|
        invariant values == RowFields(headers[..i], nonListFields, arrayItem)
        invariant writer.lines == old(writer.lines)
      {
        RowFieldsSnoc(headers, nonListFields, arrayItem, i);
        var header := headers[i];
        var value: JsonValue;
        if header in Keys(nonListFields) {
          value := Get(nonListFields, header);
        } else {
          value := GetOrDefault(arrayItem, header, JString(""));
        }
        values := values + [EscapeCsvField(value)];
      }
      assert headers[..|headers|] == headers;
      assert JoinComma(values) == RowLine(headers, nonListFields, arrayItem);
      writer.WriteLine(JoinComma(values));
    }
  }

  /** A file opened for appending: the lines it holds, the existing ones
      first; each write adds a line and its line separator. */
  class AppendWriter {
    var lines: seq<string>

    constructor (existing: seq<string>)
      ensures lines == existing
    {
      lines := existing;
    }

    method WriteLine(line: string)
      modifies this
      ensures lines == old(lines) + [line]
    {
      lines := lines + [line];
    }
  }
}
