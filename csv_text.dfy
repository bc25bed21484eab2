/** The text of CSV lines: how the record processor renders a value
    (`escapeCsvField`, `escapeCsvFields`, `String.join(",", ...)`), and a
    reader for one record in the format of section 2 of RFC 4180: the
    reader that escaping is proved to invert. */
module CsvText {
  import opened Json

  // ---------- Java's toString of parsed values ----------

  function DigitChar(d: nat): char
    requires d < 10
  {
    "0123456789"[d]
  }

  function NatToString(n: nat): string
    decreases n
  {
    if n < 10 then [DigitChar(n)] else NatToString(n / 10) + [DigitChar(n % 10)]
  }

  /** Decimal rendering of an integral number (Integer, Long, BigInteger). */
  function IntToString(i: int): string
  {
    if i < 0 then "-" + NatToString(-i) else NatToString(i)
  }

  /** `String.valueOf` of a parsed value: lists print as `[a, b]`, maps as
      `{k=v, ...}`, null as `null`. */
  function JavaText(v: JsonValue): string
  {
    match v
    case JNull => "null"
    case JBool(b) => if b then "true" else "false"
    case JInt(i) => IntToString(i)
    case JNumber(text) => text
    case JString(s) => s
    case JArray(elems) => "[" + ElementsText(elems) + "]"
    case JObject(members) => "{" + MembersText(members) + "}"
  }

  function ElementsText(elems: seq<JsonValue>): string
    decreases elems
  {
    if elems == [] then ""
    else if |elems| == 1 then JavaText(elems[0])
    else JavaText(elems[0]) + ", " + ElementsText(elems[1..])
  }

  function MembersText(members: seq<Entry<JsonValue>>): string
    decreases members
  {
    if members == [] then ""
    else
      var first := members[0].key + "=" + JavaText(members[0].value);
      if |members| == 1 then first else first + ", " + MembersText(members[1..])
  }

  // ---------- escaping ----------

  /** A field must be quoted when it holds a comma, a double quote, CR or LF. */
  predicate NeedsQuoting(s: string)
  {
    ',' in s || '"' in s || '\n' in s || '\r' in s
  }

  /** `s.replace("\"", "\"\"")`. */
  function DoubleQuotes(s: string): string
  {
    if s == [] then []
    else (if s[0] == '"' then "\"\"" else [s[0]]) + DoubleQuotes(s[1..])
  }

  /** `escapeCsvField` of a string. */
  function Escape(s: string): string
  {
    if NeedsQuoting(s) then "\"" + DoubleQuotes(s) + "\"" else s
  }

  /** `escapeCsvField(Object)`: null is the empty field, anything else is
      its `toString`, escaped. */
  function EscapeCsvField(v: JsonValue): string
  {
    if v.JNull? then "" else Escape(JavaText(v))
  }

  /** `escapeCsvFields(fields)`. */
  function EscapeCsvFields(fields: seq<string>): seq<string>
  {
    seq(|fields|, i requires 0 <= i < |fields| => Escape(fields[i]))
  }

  /** `String.join(",", fields)`. */
  function JoinComma(fields: seq<string>): string
  {
    if fields == [] then ""
    else if |fields| == 1 then fields[0]
    else fields[0] + "," + JoinComma(fields[1..])
  }

  // ---------- reading a record (section 2 of RFC 4180) ----------

  /** An unquoted field: everything up to the next comma. Returns the field
      and the rest of the line, which is empty or starts with the comma. */
  function ReadPlain(s: string): (r: (string, string))
    ensures r.0 + r.1 == s
    ensures r.1 == [] || r.1[0] == ','
  {
    if s == [] || s[0] == ',' then ("", s)
    else
      var t := ReadPlain(s[1..]);
      ([s[0]] + t.0, t.1)
  }

  /** The body of a quoted field, after its opening quote: a doubled quote
      stands for one quote; a single quote closes the field and must be
      followed by a comma or the end of the line. */
  function ReadQuoted(s: string): (r: Option<(string, string)>)
    ensures r.Some? ==> |r.value.1| < |s| && (r.value.1 == [] || r.value.1[0] == ',')
    decreases |s|
  {
    if s == [] then None
    else if s[0] == '"' then
      if |s| > 1 && s[1] == '"' then
        match ReadQuoted(s[2..])
        case None => None
        case Some(t) => Some(("\"" + t.0, t.1))
      else if |s| == 1 || s[1] == ',' then Some(("", s[1..]))
      else None
    else
      match ReadQuoted(s[1..])
      case None => None
      case Some(t) => Some(([s[0]] + t.0, t.1))
  }

  function ReadField(s: string): (r: Option<(string, string)>)
    ensures r.Some? ==> |r.value.1| <= |s| && (r.value.1 == [] || r.value.1[0] == ',')
  {
    if s != [] && s[0] == '"' then ReadQuoted(s[1..]) else Some(ReadPlain(s))
  }

  /** The fields of one record, or None if a quoted field is malformed. */
  function ParseRecord(s: string): Option<seq<string>>
    decreases |s|
  {
    match ReadField(s)
    case None => None
    case Some(t) =>
      if t.1 == [] then Some([t.0])
      else
        match ParseRecord(t.1[1..])
        case None => None
        case Some(fs) => Some([t.0] + fs)
  }

  // ---------- properties ----------

  lemma {:induction false} ReadPlainField(x: string, tail: string)
    requires ',' !in x
    requires tail == [] || tail[0] == ','
    ensures ReadPlain(x + tail) == (x, tail)
  {
    if x == [] {
      assert x + tail == tail;
    } else {
      assert x[0] in x;
      assert (x + tail)[1..] == x[1..] + tail;
      ReadPlainField(x[1..], tail);
      assert [x[0]] + x[1..] == x;
    }
  }

  lemma {:induction false} ReadQuotedDoubled(x: string, tail: string)
    requires tail == [] || tail[0] == ','
    ensures ReadQuoted(DoubleQuotes(x) + "\"" + tail) == Some((x, tail))
  {
    var s := DoubleQuotes(x) + "\"" + tail;
    if x == [] {
      assert s == "\"" + tail;
    } else {
      var rest := DoubleQuotes(x[1..]) + "\"" + tail;
      ReadQuotedDoubled(x[1..], tail);
      if x[0] == '"' {
        assert s == "\"\"" + rest;
        assert s[2..] == rest;
      } else {
        assert s == [x[0]] + rest;
        assert s[1..] == rest;
      }
      assert [x[0]] + x[1..] == x;
    }
  }

  /** Reading an escaped field back gives the original string and stops at
      the same place. */
  lemma ReadFieldEscaped(x: string, tail: string)
    requires tail == [] || tail[0] == ','
    ensures ReadField(Escape(x) + tail) == Some((x, tail))
  {
    if NeedsQuoting(x) {
      ReadFieldQuoted(x, tail);
    } else {
      ReadFieldPlain(x, tail);
    }
  }

  lemma ReadFieldQuoted(x: string, tail: string)
    requires tail == [] || tail[0] == ','
    ensures ReadField("\"" + DoubleQuotes(x) + "\"" + tail) == Some((x, tail))
  {
    var body := DoubleQuotes(x) + "\"" + tail;
    var s := "\"" + DoubleQuotes(x) + "\"" + tail;
    assert s == "\"" + body;
    assert s[0] == '"' && s[1..] == body;
    assert ReadField(s) == ReadQuoted(body);
    ReadQuotedDoubled(x, tail);
  }

  lemma ReadFieldPlain(x: string, tail: string)
    requires ',' !in x && '"' !in x
    requires tail == [] || tail[0] == ','
    ensures ReadField(x + tail) == Some((x, tail))
  {
    ReadPlainField(x, tail);
    if x != [] {
      assert x[0] in x;
      assert (x + tail)[0] == x[0];
    } else {
      assert x + tail == tail;
    }
  }

  /** Unquoting and un-doubling a single escaped field gives the original. */
  lemma EscapeRoundTrip(x: string)
    ensures ParseRecord(Escape(x)) == Some([x])
  {
    ReadFieldEscaped(x, "");
    assert Escape(x) + "" == Escape(x);
  }

  /** A string is left as it is exactly when it needs no quoting; otherwise
      it is wrapped in quotes. */
  lemma EscapeUnchanged(s: string)
    ensures Escape(s) == s <==> !NeedsQuoting(s)
    ensures NeedsQuoting(s) ==> |Escape(s)| >= 2 && Escape(s)[0] == '"' && Escape(s)[|Escape(s)| - 1] == '"'
  {
    if NeedsQuoting(s) {
      DoubleQuotesLength(s);
    }
  }

  lemma {:induction false} DoubleQuotesLength(s: string)
    ensures |DoubleQuotes(s)| >= |s|
  {
    if s != [] {
      DoubleQuotesLength(s[1..]);
    }
  }

  /** The comma-joined escaped fields read back as the same fields: section
      2 of RFC 4180 round trip, for any field contents. */
  lemma {:induction false} ParseJoinedRecord(fields: seq<string>)
    requires fields != []
    ensures ParseRecord(JoinComma(EscapeCsvFields(fields))) == Some(fields)
  {
    var escaped := EscapeCsvFields(fields);
    if |fields| == 1 {
      assert escaped == [Escape(fields[0])];
      assert JoinComma(escaped) == Escape(fields[0]);
      EscapeRoundTrip(fields[0]);
      assert fields == [fields[0]];
    } else {
      var rest := fields[1..];
      assert EscapeCsvFields(rest) == escaped[1..];
      var tail := "," + JoinComma(escaped[1..]);
      assert JoinComma(escaped) == Escape(fields[0]) + tail;
      ReadFieldEscaped(fields[0], tail);
      assert tail[1..] == JoinComma(EscapeCsvFields(rest));
      ParseJoinedRecord(rest);
      var line := Escape(fields[0]) + tail;
      assert ReadField(line) == Some((fields[0], tail));
      assert ParseRecord(line) == Some([fields[0]] + rest);
      assert [fields[0]] + rest == fields;
    }
  }
}
