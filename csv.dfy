/** CSV export: a header line and one line per todo, joined with `\n`, with the description
    escaped as in section 2 (rules 6 and 7) of RFC 4180. Two departures from RFC 4180: lines
    are separated by LF rather than CRLF, and a carriage return alone does not force quoting.
    A reader for exactly this dialect is defined below, and reading the generated text back
    gives the header and the raw field values. */
module CsvGenerator {
  import opened Types
  import opened Strings

  const HeaderFields: seq<string> :=
    ["ID", "Description", "Due Date", "Priority", "Status", "Created At", "Updated At"]

  /** A field must be quoted when it holds a comma, a line feed or a double quote. */
  predicate NeedsQuoting(field: string) {
    ',' in field || '\n' in field || '"' in field
  }

  /** `field.replace(/"/g, '""')`: every double quote doubled, everything else kept. */
  function DoubleQuotes(s: string): (r: string)
    ensures |r| >= |s|
    ensures '"' !in s ==> r == s
  {
    if |s| == 0 then ""
    else (if s[0] == '"' then "\"\"" else [s[0]]) + DoubleQuotes(s[1..])
  }

  /** `escapeCSVField`. */
  function EscapeField(field: string): (r: string)
    ensures r == field <==> !NeedsQuoting(field)
    ensures NeedsQuoting(field) <==> (|r| >= 2 && r[0] == '"' && r[|r| - 1] == '"')
  {
    if NeedsQuoting(field) then "\"" + DoubleQuotes(field) + "\"" else field
  }

  /** The inverse of `DoubleQuotes`: each `""` becomes `"`. */
  function HalveQuotes(s: string): string {
    if |s| == 0 then ""
    else if |s| >= 2 && s[0] == '"' && s[1] == '"' then "\"" + HalveQuotes(s[2..])
    else [s[0]] + HalveQuotes(s[1..])
  }

  /** Reading one escaped field back: strip the enclosing quotes, halve the inner ones. */
  function UnescapeField(s: string): string {
    if |s| >= 2 && s[0] == '"' && s[|s| - 1] == '"' then HalveQuotes(s[1..|s| - 1]) else s
  }

  lemma {:induction false} HalveDoubled(s: string)
    ensures HalveQuotes(DoubleQuotes(s)) == s
  {
    if |s| > 0 {
      HalveDoubled(s[1..]);
      var d := DoubleQuotes(s[1..]);
      if s[0] == '"' {
        assert DoubleQuotes(s) == "\"\"" + d;
        assert (("\"\"" + d)[2..]) == d;
      } else {
        assert DoubleQuotes(s) == [s[0]] + d;
        assert ([s[0]] + d)[1..] == d;
      }
      assert s == [s[0]] + s[1..];
    }
  }

  /** Unescaping an escaped field gives back the original. */
  lemma EscapeRoundTrip(field: string)
    ensures UnescapeField(EscapeField(field)) == field
  {
    if NeedsQuoting(field) {
      var d := DoubleQuotes(field);
      var r := "\"" + d + "\"";
      assert r[1..|r| - 1] == d;
      HalveDoubled(field);
    }
  }

  /** A carriage return does not trigger quoting (a departure from RFC 4180). */
  lemma CarriageReturnNotQuoted()
    ensures EscapeField("\r") == "\r"
    ensures EscapeField("a\rb") == "a\rb"
  {
  }

  /** `date-fns` parsing and formatting as `yyyy-MM-dd HH:mm:ss`; `None` when it throws. */
  type DateFormatter = string -> Option<string>

  /** `formatDate`: the formatted date, or the input unchanged when formatting throws. */
  function FormatDate(dateString: string, format: DateFormatter): (r: string)
    ensures format(dateString).None? ==> r == dateString
    ensures format(dateString).Some? ==> r == format(dateString).value
  {
    match format(dateString)
    case None => dateString
    case Some(formatted) => formatted
  }

  /** The seven cells of a todo's line; only the description is escaped. */
  function RowFields(todo: TodoItem, format: DateFormatter): seq<string> {
    [ todo.id,
      EscapeField(todo.description),
      FormatDate(todo.dueDate, format),
      PriorityName(todo.priority),
      StatusName(todo.status),
      FormatDate(todo.createdAt, format),
      FormatDate(todo.updatedAt, format) ]
  }

  function Row(todo: TodoItem, format: DateFormatter): string {
    Join(RowFields(todo, format), ",")
  }

  function Rows(todos: seq<TodoItem>, format: DateFormatter): (r: seq<string>)
    ensures |r| == |todos|
  {
    seq(|todos|, i requires 0 <= i < |todos| => Row(todos[i], format))
  }

  /** `generateCSV`. */
  function GenerateCsv(todos: seq<TodoItem>, format: DateFormatter): string {
    Join([Join(HeaderFields, ",")] + Rows(todos, format), "\n")
  }

  lemma {:induction false} JoinAppend(parts: seq<string>, last: string, sep: string)
    requires |parts| > 0
    ensures Join(parts + [last], sep) == Join(parts, sep) + sep + last
  {
    if |parts| > 1 {
      assert (parts + [last])[1..] == parts[1..] + [last];
      JoinAppend(parts[1..], last, sep);
    } else {
      assert parts + [last] == [parts[0], last];
      assert [parts[0], last][1..] == [last];
    }
  }

  /** An empty list exports only the header line. */
  lemma GenerateEmpty(format: DateFormatter)
    ensures GenerateCsv([], format) == Join(HeaderFields, ",")
  {
    assert [Join(HeaderFields, ",")] + Rows([], format) == [Join(HeaderFields, ",")];
  }

  /** One more todo adds exactly one `\n` and its line at the end: lines keep the input
      order and there is no trailing newline. */
  lemma GenerateAppend(todos: seq<TodoItem>, todo: TodoItem, format: DateFormatter)
    ensures GenerateCsv(todos + [todo], format) == GenerateCsv(todos, format) + "\n" + Row(todo, format)
  {
    var h := [Join(HeaderFields, ",")];
    assert h + Rows(todos + [todo], format) == (h + Rows(todos, format)) + [Row(todo, format)];
    JoinAppend(h + Rows(todos, format), Row(todo, format), "\n");
  }

  // ---------------------------------------------------------------------------------
  // A reader for this dialect: quoted fields with doubled quotes, `,` between fields,
  // `\n` between records.

  predicate FieldEnd(rest: string) {
    |rest| == 0 || rest[0] == ',' || rest[0] == '\n'
  }

  predicate LineEnd(rest: string) {
    |rest| == 0 || rest[0] == '\n'
  }

  /** An unquoted field runs to the next `,` or `\n`. */
  function ParseUnquoted(s: string): (r: (string, string))
    ensures |r.1| <= |s|
  {
    if |s| == 0 || s[0] == ',' || s[0] == '\n' then ("", s)
    else
      var (f, rest) := ParseUnquoted(s[1..]);
      ([s[0]] + f, rest)
  }

  /** The body of a quoted field, after the opening quote, up to the lone closing quote. */
  function ParseQuoted(s: string): (r: (string, string))
    ensures |r.1| <= |s|
  {
    if |s| == 0 then ("", "")
    else if s[0] == '"' then
      if |s| >= 2 && s[1] == '"' then
        var (f, rest) := ParseQuoted(s[2..]);
        ("\"" + f, rest)
      else ("", s[1..])
    else
      var (f, rest) := ParseQuoted(s[1..]);
      ([s[0]] + f, rest)
  }

  function ParseField(s: string): (r: (string, string))
    ensures |r.1| <= |s|
  {
    if |s| > 0 && s[0] == '"' then ParseQuoted(s[1..]) else ParseUnquoted(s)
  }

  function ParseRecord(s: string): (r: (seq<string>, string))
    ensures |r.1| <= |s|
    decreases |s|
  {
    var (f, rest) := ParseField(s);
    if |rest| > 0 && rest[0] == ',' then
      var (fs, rest') := ParseRecord(rest[1..]);
      ([f] + fs, rest')
    else ([f], rest)
  }

  /** Reads a whole text into records of fields. */
  function ParseCsv(s: string): seq<seq<string>>
    decreases |s|
  {
    var (record, rest) := ParseRecord(s);
    if |rest| > 0 && rest[0] == '\n' then [record] + ParseCsv(rest[1..]) else [record]
  }

  function EscapeAll(fields: seq<string>): (r: seq<string>)
    ensures |r| == |fields|
  {
    seq(|fields|, i requires 0 <= i < |fields| => EscapeField(fields[i]))
  }

  function EncodeRecord(fields: seq<string>): string {
    Join(EscapeAll(fields), ",")
  }

  function EncodeAll(records: seq<seq<string>>): (r: seq<string>)
    ensures |r| == |records|
  {
    seq(|records|, i requires 0 <= i < |records| => EncodeRecord(records[i]))
  }

  function EncodeCsv(records: seq<seq<string>>): string {
    Join(EncodeAll(records), "\n")
  }

  // Small facts about sequences, kept apart so that each proof below sees only the ones
  // it needs.

  lemma Assoc(a: string, b: string, c: string)
    ensures (a + b) + c == a + (b + c)
  {
  }

  lemma SplitFirst<T>(s: seq<T>)
    requires |s| > 0
    ensures s == [s[0]] + s[1..]
  {
  }

  lemma DropFirst(c: char, x: string)
    ensures ([c] + x)[1..] == x
  {
  }

  lemma JoinCons(parts: seq<string>, sep: string)
    requires |parts| > 1
    ensures Join(parts, sep) == parts[0] + (sep + Join(parts[1..], sep))
  {
    Assoc(parts[0], sep, Join(parts[1..], sep));
  }

  lemma {:induction false} ParseUnquotedPlain(f: string, rest: string)
    requires ',' !in f && '\n' !in f
    requires FieldEnd(rest)
    ensures ParseUnquoted(f + rest) == (f, rest)
  {
    if |f| == 0 {
      assert f + rest == rest;
    } else {
      assert (f + rest)[1..] == f[1..] + rest;
      ParseUnquotedPlain(f[1..], rest);
      SplitFirst(f);
    }
  }

  lemma ParseQuotedClose(rest: string)
    requires |rest| == 0 || rest[0] != '"'
    ensures ParseQuoted("\"" + rest) == ("", rest)
  {
    DropFirst('"', rest);
  }

  lemma ParseQuotedPair(x: string)
    ensures ParseQuoted("\"\"" + x) == ("\"" + ParseQuoted(x).0, ParseQuoted(x).1)
  {
    assert ("\"\"" + x)[2..] == x;
  }

  lemma ParseQuotedChar(c: char, x: string)
    requires c != '"'
    ensures ParseQuoted([c] + x) == ([c] + ParseQuoted(x).0, ParseQuoted(x).1)
  {
    DropFirst(c, x);
  }

  /** The inductive step of `ParseQuotedDoubled` for a leading quote, which was doubled. */
  lemma ParseDoubledQuoteStep(f: string, rest: string)
    requires |f| > 0 && f[0] == '"'
    requires ParseQuoted(DoubleQuotes(f[1..]) + ("\"" + rest)) == (f[1..], rest)
    ensures ParseQuoted(DoubleQuotes(f) + ("\"" + rest)) == (f, rest)
  {
    var x := DoubleQuotes(f[1..]) + ("\"" + rest);
    Assoc("\"\"", DoubleQuotes(f[1..]), "\"" + rest);
    ParseQuotedPair(x);
    SplitFirst(f);
  }

  /** The inductive step of `ParseQuotedDoubled` for any other leading character. */
  lemma ParseDoubledCharStep(f: string, rest: string)
    requires |f| > 0 && f[0] != '"'
    requires ParseQuoted(DoubleQuotes(f[1..]) + ("\"" + rest)) == (f[1..], rest)
    ensures ParseQuoted(DoubleQuotes(f) + ("\"" + rest)) == (f, rest)
  {
    var x := DoubleQuotes(f[1..]) + ("\"" + rest);
    Assoc([f[0]], DoubleQuotes(f[1..]), "\"" + rest);
    ParseQuotedChar(f[0], x);
    SplitFirst(f);
  }

  /** The body of a quoted field, its quotes doubled, reads back up to the closing quote. */
  lemma {:induction false} ParseQuotedDoubled(f: string, rest: string)
    requires |rest| == 0 || rest[0] != '"'
    ensures ParseQuoted(DoubleQuotes(f) + ("\"" + rest)) == (f, rest)
  {
    if |f| == 0 {
      assert DoubleQuotes(f) + ("\"" + rest) == "\"" + rest;
      ParseQuotedClose(rest);
    } else {
      ParseQuotedDoubled(f[1..], rest);
      if f[0] == '"' {
        ParseDoubledQuoteStep(f, rest);
      } else {
        ParseDoubledCharStep(f, rest);
      }
    }
  }

  lemma QuotedLayout(f: string, rest: string)
    requires NeedsQuoting(f)
    ensures EscapeField(f) + rest == "\"" + (DoubleQuotes(f) + ("\"" + rest))
  {
    var d := DoubleQuotes(f);
    Assoc("\"" + d, "\"", rest);
    Assoc("\"", d, "\"" + rest);
  }

  lemma ParseQuotedField(f: string, rest: string)
    requires NeedsQuoting(f) && FieldEnd(rest)
    ensures ParseField(EscapeField(f) + rest) == (f, rest)
  {
    var body := DoubleQuotes(f) + ("\"" + rest);
    QuotedLayout(f, rest);
    DropFirst('"', body);
    ParseQuotedDoubled(f, rest);
  }

  lemma ParsePlainField(f: string, rest: string)
    requires !NeedsQuoting(f) && FieldEnd(rest)
    ensures ParseField(EscapeField(f) + rest) == (f, rest)
  {
    if |f| > 0 { assert f[0] != '"'; }
    ParseUnquotedPlain(f, rest);
  }

  /** Any field, once escaped, reads back as itself up to the next separator. */
  lemma ParseEscapedField(f: string, rest: string)
    requires FieldEnd(rest)
    ensures ParseField(EscapeField(f) + rest) == (f, rest)
  {
    if NeedsQuoting(f) {
      ParseQuotedField(f, rest);
    } else {
      ParsePlainField(f, rest);
    }
  }

  lemma EncodeRecordCons(fields: seq<string>)
    requires |fields| > 1
    ensures EncodeRecord(fields) == EscapeField(fields[0]) + ("," + EncodeRecord(fields[1..]))
  {
    assert EscapeAll(fields)[1..] == EscapeAll(fields[1..]);
    JoinCons(EscapeAll(fields), ",");
  }

  /** The text of a record of several fields followed by `rest`, cut after its first field. */
  lemma RecordLayout(fields: seq<string>, rest: string)
    requires |fields| > 1
    ensures EncodeRecord(fields) + rest
         == EscapeField(fields[0]) + ("," + (EncodeRecord(fields[1..]) + rest))
  {
    var head, tail := EscapeField(fields[0]), EncodeRecord(fields[1..]);
    EncodeRecordCons(fields);
    Assoc(head, "," + tail, rest);
    Assoc(",", tail, rest);
  }

  /** A field, a comma and a record that reads as the remaining fields read as all of them. */
  lemma ParseRecordStep(fields: seq<string>, x: string, rest: string)
    requires |fields| > 0
    requires ParseRecord(x) == (fields[1..], rest)
    ensures ParseRecord(EscapeField(fields[0]) + ("," + x)) == (fields, rest)
  {
    ParseEscapedField(fields[0], "," + x);
    DropFirst(',', x);
    SplitFirst(fields);
  }

  /** A one-field record reads back as itself. */
  lemma ParseEncodedSingle(fields: seq<string>, rest: string)
    requires |fields| == 1 && LineEnd(rest)
    ensures ParseRecord(EncodeRecord(fields) + rest) == (fields, rest)
  {
    assert EncodeRecord(fields) == EscapeField(fields[0]);
    ParseEscapedField(fields[0], rest);
    assert fields == [fields[0]];
  }

  /** The inductive step of `ParseEncodedRecord`: the first field, a comma, the others. */
  lemma ParseEncodedCons(fields: seq<string>, rest: string)
    requires |fields| > 1
    requires ParseRecord(EncodeRecord(fields[1..]) + rest) == (fields[1..], rest)
    ensures ParseRecord(EncodeRecord(fields) + rest) == (fields, rest)
  {
    RecordLayout(fields, rest);
    ParseRecordStep(fields, EncodeRecord(fields[1..]) + rest, rest);
  }

  /** An encoded record reads back as its fields, up to the end of its line. */
  lemma {:induction false} ParseEncodedRecord(fields: seq<string>, rest: string)
    requires |fields| > 0
    requires LineEnd(rest)
    ensures ParseRecord(EncodeRecord(fields) + rest) == (fields, rest)
  {
    if |fields| == 1 {
      ParseEncodedSingle(fields, rest);
    } else {
      ParseEncodedRecord(fields[1..], rest);
      ParseEncodedCons(fields, rest);
    }
  }

  lemma EncodeCsvCons(records: seq<seq<string>>)
    requires |records| > 1
    ensures EncodeCsv(records) == EncodeRecord(records[0]) + ("\n" + EncodeCsv(records[1..]))
  {
    assert EncodeAll(records)[1..] == EncodeAll(records[1..]);
    JoinCons(EncodeAll(records), "\n");
  }

  lemma ParseCsvStep(record: seq<string>, line: string, tail: string)
    requires ParseRecord(line + ("\n" + tail)) == (record, "\n" + tail)
    ensures ParseCsv(line + ("\n" + tail)) == [record] + ParseCsv(tail)
  {
    DropFirst('\n', tail);
  }

  /** Reading an encoded text gives back its records, when none of them is empty. */
  lemma {:induction false} ParseEncodedCsv(records: seq<seq<string>>)
    requires |records| > 0
    requires forall i :: 0 <= i < |records| ==> |records[i]| > 0
    ensures ParseCsv(EncodeCsv(records)) == records
  {
    if |records| == 1 {
      assert EncodeCsv(records) == EncodeRecord(records[0]) + "";
      ParseEncodedRecord(records[0], "");
    } else {
      var line, tail := EncodeRecord(records[0]), EncodeCsv(records[1..]);
      EncodeCsvCons(records);
      ParseEncodedRecord(records[0], "\n" + tail);
      ParseCsvStep(records[0], line, tail);
      ParseEncodedCsv(records[1..]);
      SplitFirst(records);
    }
  }

  // ---------------------------------------------------------------------------------
  // Reading an export back.

  /** The values a todo's line stands for, before escaping. */
  function RawRow(todo: TodoItem, format: DateFormatter): seq<string> {
    [ todo.id,
      todo.description,
      FormatDate(todo.dueDate, format),
      PriorityName(todo.priority),
      StatusName(todo.status),
      FormatDate(todo.createdAt, format),
      FormatDate(todo.updatedAt, format) ]
  }

  /** The cells written raw hold no character that would need quoting. */
  predicate RawCellsPlain(todo: TodoItem, format: DateFormatter) {
    && !NeedsQuoting(todo.id)
    && !NeedsQuoting(FormatDate(todo.dueDate, format))
    && !NeedsQuoting(FormatDate(todo.createdAt, format))
    && !NeedsQuoting(FormatDate(todo.updatedAt, format))
  }

  // The names written raw hold no character that needs quoting; the facts come in small
  // groups because the solver checks each literal character by character.
  lemma IdentityNamesPlain()
    ensures !NeedsQuoting("ID") && !NeedsQuoting("Description") && !NeedsQuoting("Due Date")
  {
  }

  lemma ColumnNamesPlain()
    ensures !NeedsQuoting("Priority") && !NeedsQuoting("Status")
  {
  }

  lemma TimestampNamesPlain()
    ensures !NeedsQuoting("Created At") && !NeedsQuoting("Updated At")
  {
  }

  lemma HeaderNamesPlain()
    ensures forall i :: 0 <= i < |HeaderFields| ==> !NeedsQuoting(HeaderFields[i])
  {
    IdentityNamesPlain();
    ColumnNamesPlain();
    TimestampNamesPlain();
  }

  lemma PriorityNamesPlain()
    ensures !NeedsQuoting("High") && !NeedsQuoting("Medium") && !NeedsQuoting("Low")
  {
  }

  lemma OpenStatusNamesPlain()
    ensures !NeedsQuoting("Not Started") && !NeedsQuoting("In Progress")
  {
  }

  lemma ClosedStatusNamesPlain()
    ensures !NeedsQuoting("Done") && !NeedsQuoting("Canceled")
  {
  }

  lemma NamesPlain(p: Priority, st: Status)
    ensures !NeedsQuoting(PriorityName(p)) && !NeedsQuoting(StatusName(st))
  {
    PriorityNamesPlain();
    OpenStatusNamesPlain();
    ClosedStatusNamesPlain();
  }

  lemma EscapeAllPlain(fields: seq<string>)
    requires forall i :: 0 <= i < |fields| ==> !NeedsQuoting(fields[i])
    ensures EscapeAll(fields) == fields
  {
  }

  lemma HeaderIsEncoded()
    ensures EncodeRecord(HeaderFields) == Join(HeaderFields, ",")
  {
    HeaderNamesPlain();
    EscapeAllPlain(HeaderFields);
  }

  /** Escaping seven cells of which only the second may need quoting. */
  lemma EscapeSevenPlain(a: string, b: string, c: string, d: string, e: string, f: string, g: string)
    requires !NeedsQuoting(a) && !NeedsQuoting(c) && !NeedsQuoting(d) && !NeedsQuoting(e)
    requires !NeedsQuoting(f) && !NeedsQuoting(g)
    ensures EscapeAll([a, b, c, d, e, f, g]) == [a, EscapeField(b), c, d, e, f, g]
  {
  }

  lemma RowIsEncoded(todo: TodoItem, format: DateFormatter)
    requires RawCellsPlain(todo, format)
    ensures Row(todo, format) == EncodeRecord(RawRow(todo, format))
  {
    NamesPlain(todo.priority, todo.status);
    EscapeSevenPlain(todo.id, todo.description, FormatDate(todo.dueDate, format),
                     PriorityName(todo.priority), StatusName(todo.status),
                     FormatDate(todo.createdAt, format), FormatDate(todo.updatedAt, format));
  }

  function RawRows(todos: seq<TodoItem>, format: DateFormatter): (r: seq<seq<string>>)
    ensures |r| == |todos|
    ensures forall i :: 0 <= i < |todos| ==> r[i] == RawRow(todos[i], format) && |r[i]| == 7
  {
    seq(|todos|, i requires 0 <= i < |todos| => RawRow(todos[i], format))
  }

  /** The generated rows are the encodings of the raw rows. */
  lemma RowsAreEncoded(todos: seq<TodoItem>, format: DateFormatter)
    requires forall i :: 0 <= i < |todos| ==> RawCellsPlain(todos[i], format)
    ensures Rows(todos, format) == EncodeAll(RawRows(todos, format))
  {
    var rows, encoded := Rows(todos, format), EncodeAll(RawRows(todos, format));
    forall i | 0 <= i < |todos| ensures rows[i] == encoded[i] {
      RowIsEncoded(todos[i], format);
    }
  }

  /** A header line followed by encoded lines is the encoding of the header and the records. */
  lemma EncodeWithHeader(header: seq<string>, raw: seq<seq<string>>, rows: seq<string>)
    requires EncodeRecord(header) == Join(header, ",")
    requires rows == EncodeAll(raw)
    ensures Join([Join(header, ",")] + rows, "\n") == EncodeCsv([header] + raw)
  {
    var records, lines := [header] + raw, [Join(header, ",")] + rows;
    forall i | 0 <= i < |lines| ensures EncodeAll(records)[i] == lines[i] {
      if i > 0 { assert records[i] == raw[i - 1]; }
    }
    assert EncodeAll(records) == lines;
  }

  lemma GeneratedIsEncoded(todos: seq<TodoItem>, format: DateFormatter)
    requires forall i :: 0 <= i < |todos| ==> RawCellsPlain(todos[i], format)
    ensures GenerateCsv(todos, format) == EncodeCsv([HeaderFields] + RawRows(todos, format))
  {
    HeaderIsEncoded();
    RowsAreEncoded(todos, format);
    EncodeWithHeader(HeaderFields, RawRows(todos, format), Rows(todos, format));
  }

  /** Reading a generated export gives the header names, then for each todo in order its
      id, its description as it was before escaping, its formatted dates, and its priority
      and status names, provided the cells written raw need no quoting. */
  lemma ReadBackExport(todos: seq<TodoItem>, format: DateFormatter)
    requires forall i :: 0 <= i < |todos| ==> RawCellsPlain(todos[i], format)
    ensures ParseCsv(GenerateCsv(todos, format)) == [HeaderFields] + RawRows(todos, format)
  {
    GeneratedIsEncoded(todos, format);
    RecordsNonEmpty(todos, format);
    ParseEncodedCsv([HeaderFields] + RawRows(todos, format));
  }

  lemma RecordsNonEmpty(todos: seq<TodoItem>, format: DateFormatter)
    ensures forall i :: 0 <= i < 1 + |todos| ==> |([HeaderFields] + RawRows(todos, format))[i]| > 0
  {
    var raw := RawRows(todos, format);
    var records := [HeaderFields] + raw;
    forall i | 0 <= i < |records| ensures |records[i]| > 0 {
      if i > 0 { assert records[i] == raw[i - 1]; }
    }
  }
}
