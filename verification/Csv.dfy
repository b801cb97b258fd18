/**
 The CSV export of audit logs, and a reader for it with the quoting rules of section 2 of RFC 4180
 (rows end with a line feed). The export quotes the description only.
 */
module Csv {
  import opened Wrappers
  import Decimal

  datatype AuditLog = AuditLog(
    id: string,
    createdAt: string,
    userId: Option<string>,
    username: Option<string>,
    userRole: Option<string>,
    action: string,
    resource: string,
    resourceId: Option<string>,
    description: string,
    status: string,
    ipAddress: Option<string>,
    duration: Option<int>)

  const HEADERS: seq<string> := [
    "ID", "Timestamp", "User ID", "Username", "Role", "Action", "Resource", "Resource ID", "Description",
    "Status", "IP Address", "Duration (ms)"]

  // ---------- The writer ----------

  /** `replace(/"/g, '""')`. */
  function EscapeQuotes(s: string): string {
    if s == "" then "" else (if s[0] == '"' then "\"\"" else [s[0]]) + EscapeQuotes(s[1..])
  }

  function Join(parts: seq<string>, separator: char): string {
    if parts == [] then ""
    else if |parts| == 1 then parts[0]
    else parts[0] + [separator] + Join(parts[1..], separator)
  }

  /** `duration || ''`: zero is written as nothing, like a missing duration. */
  function DurationText(duration: Option<int>): string {
    if duration.Some? && duration.value != 0 then Decimal.Dec(duration.value) else ""
  }

  function RowTexts(log: AuditLog): seq<string> {
    [log.id, log.createdAt, log.userId.GetOr(""), log.username.GetOr(""), log.userRole.GetOr(""), log.action,
     log.resource, log.resourceId.GetOr(""), "\"" + EscapeQuotes(log.description) + "\"", log.status,
     log.ipAddress.GetOr(""), DurationText(log.duration)]
  }

  function RowLines(logs: seq<AuditLog>): seq<string> {
    if logs == [] then [] else [Join(RowTexts(logs[0]), ',')] + RowLines(logs[1..])
  }

  function Table(headers: seq<string>, logs: seq<AuditLog>): string {
    Join([Join(headers, ',')] + RowLines(logs), '\n')
  }

  function ConvertToCSV(logs: seq<AuditLog>): string {
    if |logs| == 0 then "" else Table(HEADERS, logs)
  }

  // ---------- The reader ----------

  predicate EndsField(s: string) {
    s == "" || s[0] == ',' || s[0] == '\n'
  }

  /** An unquoted field: up to a comma or line end; it may hold no quote and no carriage return. */
  function ReadPlain(s: string): Option<(string, string)> {
    if EndsField(s) then Some(("", s))
    else if s[0] == '"' || s[0] == '\r' then None
    else
      match ReadPlain(s[1..])
      case None => None
      case Some((field, rest)) => Some(([s[0]] + field, rest))
  }

  /** The inside of a quoted field: two quotes stand for one, a single quote ends it. */
  function ReadQuoted(s: string): Option<(string, string)> {
    if s == "" then None
    else if s[0] != '"' then
      match ReadQuoted(s[1..])
      case None => None
      case Some((field, rest)) => Some(([s[0]] + field, rest))
    else if |s| > 1 && s[1] == '"' then
      match ReadQuoted(s[2..])
      case None => None
      case Some((field, rest)) => Some((['"'] + field, rest))
    else if EndsField(s[1..]) then Some(("", s[1..]))
    else None
  }

  function ReadField(s: string): (r: Option<(string, string)>)
    ensures r.Some? ==> |r.value.1| <= |s| && EndsField(r.value.1)
  {
    var r := if s != "" && s[0] == '"' then ReadQuoted(s[1..]) else ReadPlain(s);
    ReadConsumes(s);
    r
  }

  lemma ReadConsumes(s: string)
    ensures ReadPlain(s).Some? ==> |ReadPlain(s).value.1| <= |s| && EndsField(ReadPlain(s).value.1)
    ensures s != "" && ReadQuoted(s[1..]).Some? ==>
              |ReadQuoted(s[1..]).value.1| <= |s| && EndsField(ReadQuoted(s[1..]).value.1)
  {
    PlainConsumes(s);
    if s != "" {
      QuotedConsumes(s[1..]);
    }
  }

  lemma {:induction false} PlainConsumes(s: string)
    ensures ReadPlain(s).Some? ==> |ReadPlain(s).value.1| <= |s| && EndsField(ReadPlain(s).value.1)
  {
    if !EndsField(s) {
      PlainConsumes(s[1..]);
    }
  }

  lemma {:induction false} QuotedConsumes(s: string)
    ensures ReadQuoted(s).Some? ==> |ReadQuoted(s).value.1| <= |s| && EndsField(ReadQuoted(s).value.1)
  {
    if s != "" {
      QuotedConsumes(s[1..]);
      if |s| > 1 {
        QuotedConsumes(s[2..]);
      }
    }
  }

  function ReadRecord(s: string): (r: Option<(seq<string>, string)>)
    ensures r.Some? ==> |r.value.1| <= |s| && (r.value.1 == "" || r.value.1[0] == '\n')
    decreases |s|
  {
    match ReadField(s)
    case None => None
    case Some((field, rest)) =>
      if rest == "" || rest[0] == '\n' then Some(([field], rest))
      else
        match ReadRecord(rest[1..])
        case None => None
        case Some((fields, rest')) => Some(([field] + fields, rest'))
  }

  function ReadFile(s: string): Option<seq<seq<string>>>
    decreases |s|
  {
    match ReadRecord(s)
    case None => None
    case Some((fields, rest)) =>
      if rest == "" then Some([fields])
      else
        match ReadFile(rest[1..])
        case None => None
        case Some(records) => Some([fields] + records)
  }

  // ---------- Reading back one field ----------

  /** Text that needs no quoting. */
  predicate Plain(s: string) {
    forall c | c in s :: c != ',' && c != '"' && c != '\n' && c != '\r'
  }

  lemma {:induction false} PlainReadsBack(s: string, tail: string)
    requires Plain(s) && EndsField(tail)
    ensures ReadPlain(s + tail) == Some((s, tail))
  {
    if s == "" {
      assert s + tail == tail;
    } else {
      assert (s + tail)[1..] == s[1..] + tail;
      assert (s + tail)[0] == s[0] && s[0] in s && forall c | c in s[1..] :: c in s;
      PlainReadsBack(s[1..], tail);
      assert [s[0]] + s[1..] == s;
    }
  }

  lemma {:induction false} QuotedReadsBack(s: string, tail: string)
    requires EndsField(tail)
    ensures ReadQuoted(EscapeQuotes(s) + "\"" + tail) == Some((s, tail))
  {
    if s == "" {
      assert EscapeQuotes(s) + "\"" + tail == "\"" + tail;
      assert ("\"" + tail)[1..] == tail;
    } else {
      QuotedReadsBack(s[1..], tail);
      var inner := EscapeQuotes(s[1..]) + "\"" + tail;
      if s[0] == '"' {
        var text := "\"\"" + inner;
        assert EscapeQuotes(s) + "\"" + tail == text;
        assert text[0] == '"' && text[1] == '"' && text[2..] == inner;
        assert ['"'] + s[1..] == s;
      } else {
        assert EscapeQuotes(s) + "\"" + tail == [s[0]] + inner;
        assert ([s[0]] + inner)[1..] == inner;
        assert [s[0]] + s[1..] == s;
      }
    }
  }

  lemma {:induction false} UnquotedValuesArePlain(s: string)
    ensures ReadPlain(s).Some? ==> Plain(ReadPlain(s).value.0)
  {
    if !EndsField(s) {
      UnquotedValuesArePlain(s[1..]);
    }
  }

  function LeadingQuotes(s: string): nat {
    if s == "" || s[0] != '"' then 0 else 1 + LeadingQuotes(s[1..])
  }

  lemma {:induction false} LeadingQuotesStop(s: string, tail: string)
    requires EndsField(tail)
    ensures LeadingQuotes(s + tail) == LeadingQuotes(s)
  {
    if s == "" {
      assert s + tail == tail;
    } else {
      assert (s + tail)[1..] == s[1..] + tail;
      LeadingQuotesStop(s[1..], tail);
    }
  }

  /** A quoted field spends two quotes for each one in its value. */
  lemma {:induction false} QuotesAreDoubled(s: string)
    ensures ReadQuoted(s).Some? ==> LeadingQuotes(s) >= 2 * LeadingQuotes(ReadQuoted(s).value.0)
  {
    if |s| > 1 && s[0] == '"' && s[1] == '"' {
      QuotesAreDoubled(s[2..]);
      assert s[1..][1..] == s[2..];
      if ReadQuoted(s[2..]).Some? {
        var v := ReadQuoted(s[2..]).value.0;
        assert (['"'] + v)[1..] == v;
      }
    }
  }

  /** Text that needs quoting is never read as itself when it is written without. */
  lemma UnquotedIsMisread(s: string, tail: string)
    requires !Plain(s) && EndsField(tail)
    ensures ReadField(s + tail).Some? ==> ReadField(s + tail).value.0 != s
  {
    assert s != "" && (s + tail)[0] == s[0];
    assert (s + tail)[1..] == s[1..] + tail;
    if s[0] == '"' {
      QuotesAreDoubled(s[1..] + tail);
      LeadingQuotesStop(s[1..], tail);
    } else {
      UnquotedValuesArePlain(s + tail);
    }
  }

  // ---------- Reading back one row ----------

  /** A cell of a row: written as it is, or quoted. */
  datatype Cell = Raw(text: string) | Quoted(text: string)

  function CellText(c: Cell): string {
    if c.Raw? then c.text else "\"" + EscapeQuotes(c.text) + "\""
  }

  predicate Readable(c: Cell) {
    c.Raw? ==> Plain(c.text)
  }

  predicate ReadableRow(cells: seq<Cell>) {
    forall c | c in cells :: Readable(c)
  }

  function CellTexts(cells: seq<Cell>): (r: seq<string>)
    ensures |r| == |cells|
  {
    seq(|cells|, i requires 0 <= i < |cells| => CellText(cells[i]))
  }

  function Values(cells: seq<Cell>): (r: seq<string>)
    ensures |r| == |cells|
  {
    seq(|cells|, i requires 0 <= i < |cells| => cells[i].text)
  }

  lemma CellReadsExactlyWhen(c: Cell, tail: string)
    requires EndsField(tail)
    ensures Readable(c) ==> ReadField(CellText(c) + tail) == Some((c.text, tail))
    ensures !Readable(c) ==> ReadField(CellText(c) + tail).Some? ==> ReadField(CellText(c) + tail).value.0 != c.text
  {
    if c.Quoted? {
      var inside := EscapeQuotes(c.text) + "\"" + tail;
      assert CellText(c) + tail == "\"" + inside;
      assert ("\"" + inside)[1..] == inside;
      QuotedReadsBack(c.text, tail);
    } else if Plain(c.text) {
      PlainReadsBack(c.text, tail);
      assert c.text != "" ==> (c.text + tail)[0] == c.text[0] && c.text[0] in c.text;
      assert c.text == "" ==> c.text + tail == tail;
    } else {
      UnquotedIsMisread(c.text, tail);
    }
  }

  /** The text of a row with its end is its first cell's text, then a comma and the rest of the row. */
  lemma RowUnfolds(cells: seq<Cell>, tail: string)
    requires |cells| > 1
    ensures Join(CellTexts(cells), ',') + tail == CellText(cells[0]) + ("," + (Join(CellTexts(cells[1..]), ',') + tail))
    ensures Values(cells) == [cells[0].text] + Values(cells[1..])
    ensures ReadableRow(cells) <==> Readable(cells[0]) && ReadableRow(cells[1..])
  {
    assert CellTexts(cells)[1..] == CellTexts(cells[1..]);
    assert cells == [cells[0]] + cells[1..];
  }

  predicate EndsRow(s: string) {
    s == "" || s[0] == '\n'
  }

  /** A row reads back as its values, up to its end, exactly when each of its cells is clean. */
  lemma {:induction false} RowReadsExactlyWhen(cells: seq<Cell>, tail: string)
    requires cells != [] && EndsRow(tail)
    ensures ReadableRow(cells) ==> ReadRecord(Join(CellTexts(cells), ',') + tail) == Some((Values(cells), tail))
    ensures !ReadableRow(cells) ==> ReadRecord(Join(CellTexts(cells), ',') + tail).Some? ==>
              ReadRecord(Join(CellTexts(cells), ',') + tail).value.0 != Values(cells)
  {
    if |cells| == 1 {
      assert cells == [cells[0]];
      assert CellTexts(cells) == [CellText(cells[0])] && Values(cells) == [cells[0].text];
      CellReadsExactlyWhen(cells[0], tail);
    } else {
      var rest := Join(CellTexts(cells[1..]), ',') + tail;
      RowUnfolds(cells, tail);
      RowReadsExactlyWhen(cells[1..], tail);
      CellReadsExactlyWhen(cells[0], "," + rest);
      assert ("," + rest)[1..] == rest;
      StepReads(cells, tail, rest);
    }
  }

  lemma StepReads(cells: seq<Cell>, tail: string, rest: string)
    requires |cells| > 1 && EndsRow(tail) && ("," + rest)[1..] == rest
    requires ReadableRow(cells[1..]) ==> ReadRecord(rest) == Some((Values(cells[1..]), tail))
    requires !ReadableRow(cells[1..]) && ReadRecord(rest).Some? ==> ReadRecord(rest).value.0 != Values(cells[1..])
    requires Readable(cells[0]) ==> ReadField(CellText(cells[0]) + ("," + rest)) == Some((cells[0].text, "," + rest))
    requires !Readable(cells[0]) && ReadField(CellText(cells[0]) + ("," + rest)).Some? ==>
               ReadField(CellText(cells[0]) + ("," + rest)).value.0 != cells[0].text
    ensures var r := ReadRecord(CellText(cells[0]) + ("," + rest));
            var values := [cells[0].text] + Values(cells[1..]);
            && (Readable(cells[0]) && ReadableRow(cells[1..]) ==> r == Some((values, tail)))
            && (!(Readable(cells[0]) && ReadableRow(cells[1..])) && r.Some? ==> r.value.0 != values)
  {
    var r := ReadRecord(CellText(cells[0]) + ("," + rest));
    if r.Some? && r.value.0 == [cells[0].text] + Values(cells[1..]) {
      assert r.value.0[0] == cells[0].text;
      assert r.value.0[1..] == Values(cells[1..]);
    }
  }

  // ---------- Reading back a file ----------

  function RowTextLines(rows: seq<seq<Cell>>): (r: seq<string>)
    ensures |r| == |rows|
  {
    seq(|rows|, i requires 0 <= i < |rows| => Join(CellTexts(rows[i]), ','))
  }

  function RowValues(rows: seq<seq<Cell>>): (r: seq<seq<string>>)
    ensures |r| == |rows|
  {
    seq(|rows|, i requires 0 <= i < |rows| => Values(rows[i]))
  }

  lemma FileUnfolds(rows: seq<seq<Cell>>)
    requires |rows| > 1
    ensures Join(RowTextLines(rows), '\n') ==
            Join(CellTexts(rows[0]), ',') + ("\n" + Join(RowTextLines(rows[1..]), '\n'))
    ensures RowValues(rows) == [Values(rows[0])] + RowValues(rows[1..])
  {
    assert RowTextLines(rows)[1..] == RowTextLines(rows[1..]);
  }

  lemma {:induction false} FileReadsExactlyWhen(rows: seq<seq<Cell>>)
    requires rows != [] && forall i | 0 <= i < |rows| :: |rows[i]| > 0
    ensures ReadFile(Join(RowTextLines(rows), '\n')) == Some(RowValues(rows)) <==>
            forall row | row in rows :: ReadableRow(row)
  {
    var text := Join(CellTexts(rows[0]), ',');
    assert rows == [rows[0]] + rows[1..];
    if |rows| == 1 {
      assert RowTextLines(rows) == [text] && RowValues(rows) == [Values(rows[0])];
      assert text + "" == text;
      RowReadsExactlyWhen(rows[0], "");
      if ReadFile(text) == Some(RowValues(rows)) {
        FirstRecord(text, RowValues(rows));
      }
    } else {
      var rest := Join(RowTextLines(rows[1..]), '\n');
      FileUnfolds(rows);
      FileReadsExactlyWhen(rows[1..]);
      RowReadsExactlyWhen(rows[0], "\n" + rest);
      assert ("\n" + rest)[1..] == rest;
      if ReadFile(text + ("\n" + rest)) == Some(RowValues(rows)) {
        FirstRecord(text + ("\n" + rest), RowValues(rows));
        assert ([Values(rows[0])] + RowValues(rows[1..]))[1..] == RowValues(rows[1..]);
      }
    }
  }

  lemma FirstRecord(s: string, records: seq<seq<string>>)
    requires ReadFile(s) == Some(records)
    ensures records != [] && ReadRecord(s).Some? && ReadRecord(s).value.0 == records[0]
    ensures ReadRecord(s).value.1 != "" ==> ReadFile(ReadRecord(s).value.1[1..]) == Some(records[1..])
  {
  }

  // ---------- Reading back the export ----------

  function RawCells(texts: seq<string>): (r: seq<Cell>)
    ensures |r| == |texts|
  {
    seq(|texts|, i requires 0 <= i < |texts| => Raw(texts[i]))
  }

  /** The values a reader should get back: the twelve fields, with nothing in place of what is missing. */
  function LogValues(log: AuditLog): seq<string> {
    [log.id, log.createdAt, log.userId.GetOr(""), log.username.GetOr(""), log.userRole.GetOr(""), log.action,
     log.resource, log.resourceId.GetOr(""), log.description, log.status,
     log.ipAddress.GetOr(""), DurationText(log.duration)]
  }

  /** The description is the one quoted column. */
  const DESCRIPTION := 8

  function LogCells(log: AuditLog): (r: seq<Cell>)
    ensures |r| == 12
  {
    seq(12, i requires 0 <= i < 12 => if i == DESCRIPTION then Quoted(LogValues(log)[i]) else Raw(LogValues(log)[i]))
  }

  function TableRows(headers: seq<string>, logs: seq<AuditLog>): (r: seq<seq<Cell>>)
    ensures |r| == 1 + |logs|
  {
    [RawCells(headers)] + seq(|logs|, i requires 0 <= i < |logs| => LogCells(logs[i]))
  }

  /** What a faithful reading gives: the header, then each log's values. */
  function TableValues(headers: seq<string>, logs: seq<AuditLog>): (r: seq<seq<string>>)
    ensures |r| == 1 + |logs|
  {
    [headers] + seq(|logs|, i requires 0 <= i < |logs| => LogValues(logs[i]))
  }

  /** No field other than the description needs quoting. */
  predicate PlainLog(log: AuditLog) {
    && Plain(log.id) && Plain(log.createdAt) && Plain(log.userId.GetOr("")) && Plain(log.username.GetOr(""))
    && Plain(log.userRole.GetOr("")) && Plain(log.action) && Plain(log.resource) && Plain(log.resourceId.GetOr(""))
    && Plain(log.status) && Plain(log.ipAddress.GetOr(""))
  }

  lemma DurationIsPlain(duration: Option<int>)
    ensures Plain(DurationText(duration))
  {
  }

  /** The duration column is empty for no duration and for zero, and otherwise the number in decimal notation. */
  lemma DurationReadsBack(duration: Option<int>)
    ensures duration.GetOr(0) < 0 ==> var text := DurationText(duration);
              && text[0] == '-' && Decimal.AllDigits(text[1..]) && Decimal.Value(text[1..]) == -duration.value
    ensures DurationText(duration) == "" <==> duration.GetOr(0) == 0
    ensures duration.GetOr(0) > 0 ==>
              && Decimal.AllDigits(DurationText(duration))
              && Decimal.Value(DurationText(duration)) == duration.value
  {
    Decimal.DecChars(duration.GetOr(0));
    if duration.GetOr(0) != 0 {
      Decimal.DigitsReadBack(if duration.value > 0 then duration.value else -duration.value);
    }
  }

  /** Only an export of nothing is empty. */
  lemma EmptyExactlyWhen(logs: seq<AuditLog>)
    ensures ConvertToCSV(logs) == "" <==> logs == []
  {
    if logs != [] {
      assert |Join(HEADERS, ',')| > 0;
    }
  }

  /** What each column holds, by the name in the header. */
  lemma HeadersNameTheColumns(log: AuditLog)
    ensures |HEADERS| == |LogValues(log)| == 12
    ensures var v := LogValues(log);
            && HEADERS[0] == "ID" && v[0] == log.id
            && HEADERS[1] == "Timestamp" && v[1] == log.createdAt
            && HEADERS[2] == "User ID" && v[2] == log.userId.GetOr("")
            && HEADERS[3] == "Username" && v[3] == log.username.GetOr("")
            && HEADERS[4] == "Role" && v[4] == log.userRole.GetOr("")
            && HEADERS[5] == "Action" && v[5] == log.action
            && HEADERS[6] == "Resource" && v[6] == log.resource
            && HEADERS[7] == "Resource ID" && v[7] == log.resourceId.GetOr("")
            && HEADERS[8] == "Description" && v[8] == log.description
            && HEADERS[9] == "Status" && v[9] == log.status
            && HEADERS[10] == "IP Address" && v[10] == log.ipAddress.GetOr("")
            && HEADERS[11] == "Duration (ms)" && v[11] == DurationText(log.duration)
  {
  }

  lemma LogRow(log: AuditLog)
    ensures CellTexts(LogCells(log)) == RowTexts(log)
    ensures Values(LogCells(log)) == LogValues(log)
  {
    assert RowTexts(log) == LogValues(log)[DESCRIPTION := "\"" + EscapeQuotes(log.description) + "\""];
    assert LogValues(log)[DESCRIPTION] == log.description;
  }

  lemma PlainLogExactlyWhen(log: AuditLog)
    ensures PlainLog(log) <==> ReadableRow(LogCells(log))
  {
    var cells, values := LogCells(log), LogValues(log);
    DurationIsPlain(log.duration);
    assert forall i | 0 <= i < 12 :: cells[i] in cells && cells[i].text == values[i];
    assert ReadableRow(cells) <==> forall i | 0 <= i < 12 :: Readable(cells[i]);
    assert PlainLog(log) <==> forall i | 0 <= i < 12 && i != DESCRIPTION :: Plain(values[i]) by {
      assert values[0] == log.id && values[1] == log.createdAt && values[2] == log.userId.GetOr("");
      assert values[3] == log.username.GetOr("") && values[4] == log.userRole.GetOr("") && values[5] == log.action;
      assert values[6] == log.resource && values[7] == log.resourceId.GetOr("") && values[9] == log.status;
      assert values[10] == log.ipAddress.GetOr("");
    }
  }

  lemma RawRow(texts: seq<string>)
    ensures CellTexts(RawCells(texts)) == texts && Values(RawCells(texts)) == texts
    ensures ReadableRow(RawCells(texts)) <==> forall text | text in texts :: Plain(text)
  {
    var cells := RawCells(texts);
    assert forall i | 0 <= i < |texts| :: cells[i] == Raw(texts[i]) && cells[i] in cells && texts[i] in texts;
  }

  lemma {:induction false} RowLinesAt(logs: seq<AuditLog>)
    ensures |RowLines(logs)| == |logs|
    ensures forall i | 0 <= i < |logs| :: RowLines(logs)[i] == Join(RowTexts(logs[i]), ',')
  {
    if logs != [] {
      RowLinesAt(logs[1..]);
    }
  }

  lemma TableRowsAreLogs(headers: seq<string>, logs: seq<AuditLog>)
    ensures var rows := TableRows(headers, logs);
            forall i | 0 < i < |rows| ::
              CellTexts(rows[i]) == RowTexts(logs[i - 1]) && Values(rows[i]) == LogValues(logs[i - 1])
  {
    var rows := TableRows(headers, logs);
    forall i | 0 < i < |rows|
      ensures CellTexts(rows[i]) == RowTexts(logs[i - 1]) && Values(rows[i]) == LogValues(logs[i - 1])
    {
      LogRow(logs[i - 1]);
    }
  }

  lemma TableIsItsRows(headers: seq<string>, logs: seq<AuditLog>)
    ensures Table(headers, logs) == Join(RowTextLines(TableRows(headers, logs)), '\n')
  {
    RawRow(headers);
    RowLinesAt(logs);
    TableRowsAreLogs(headers, logs);
    assert RowTextLines(TableRows(headers, logs)) == [Join(headers, ',')] + RowLines(logs);
  }

  lemma TableHasItsValues(headers: seq<string>, logs: seq<AuditLog>)
    ensures RowValues(TableRows(headers, logs)) == TableValues(headers, logs)
  {
    RawRow(headers);
    TableRowsAreLogs(headers, logs);
  }

  lemma ReadableTableExactlyWhen(headers: seq<string>, logs: seq<AuditLog>)
    requires forall header | header in headers :: Plain(header)
    ensures (forall row | row in TableRows(headers, logs) :: ReadableRow(row)) <==>
            forall log | log in logs :: PlainLog(log)
  {
    var rows := TableRows(headers, logs);
    RawRow(headers);
    forall i | 0 <= i < |logs|
      ensures rows[i + 1] == LogCells(logs[i]) && (PlainLog(logs[i]) <==> ReadableRow(LogCells(logs[i])))
    {
      PlainLogExactlyWhen(logs[i]);
    }
    if forall row | row in rows :: ReadableRow(row) {
      forall i | 0 <= i < |logs|
        ensures PlainLog(logs[i])
      {
        assert rows[i + 1] in rows;
      }
    }
  }

  lemma TableReadsExactlyWhen(headers: seq<string>, logs: seq<AuditLog>)
    requires headers != [] && forall header | header in headers :: Plain(header)
    ensures ReadFile(Table(headers, logs)) == Some(TableValues(headers, logs)) <==>
            forall log | log in logs :: PlainLog(log)
  {
    TableIsItsRows(headers, logs);
    TableHasItsValues(headers, logs);
    FileReadsExactlyWhen(TableRows(headers, logs));
    ReadableTableExactlyWhen(headers, logs);
  }

  /**
   Round trip. The export of a non-empty list of logs reads back as the header and every log's values,
   with arbitrary descriptions, if and only if no field other than a description holds a comma, a
   quote or a line break.
   */
  lemma RoundTripExactlyWhen(logs: seq<AuditLog>)
    requires logs != []
    ensures ReadFile(ConvertToCSV(logs)) == Some(TableValues(HEADERS, logs)) <==>
            forall log | log in logs :: PlainLog(log)
  {
    assert forall i | 0 <= i < |HEADERS| :: Plain(HEADERS[i]);
    TableReadsExactlyWhen(HEADERS, logs);
  }
}
