/**
 * The CSV text the scraper downloads at the end of a run (`createCSV`): a header line of sixteen
 * column names, then one line per record. Every string cell is quoted with inner quotes doubled,
 * as rules 5 to 7 of section 2 of RFC 4180 describe; records are separated by a bare line feed.
 * A reader for that format is given beside the writer, and reading the written text back is
 * proved to give the header and every cell's text.
 */
module Csv {
  import opened Wrappers
  import opened Text
  import opened Json

  const Headers: seq<string> := [
    "id", "email", "firstName", "lastName", "postId", "postText", "postAuthor", "postAuthorId",
    "postAuthorUrl", "commentId", "commentText", "commentAuthorName", "commentAuthorId",
    "commentAuthorUrl", "timestamp", "commentUrl"
  ]

  /** `value.replace(/"/g, '""')`. */
  function DoubleQuotes(s: string): (r: string)
    ensures |r| == |s| + Count(s, '"')
  {
    if s == [] then []
    else (if s[0] == '"' then "\"\"" else [s[0]]) + DoubleQuotes(s[1..])
  }

  /** A string cell: wrapped in quotes, inner quotes doubled. */
  function Quote(s: string): string {
    "\"" + DoubleQuotes(s) + "\""
  }

  /** The text `Array.prototype.join` gives a value: `null` inside an array becomes empty. */
  function ToText(v: Json): string {
    match v
    case JNull => ""
    case JBool(b) => if b then "true" else "false"
    case JNum(n) => IntToString(n)
    case JStr(s) => s
    case JArr(xs) => Join(seq(|xs|, k requires 0 <= k < |xs| => ToText(xs[k])), ",")
    case JObj(_) => "[object Object]"
  }

  /** One cell of a row: undefined is empty, `null` is the word null, a string is quoted. */
  function RenderCell(v: Option<Json>): string {
    match v
    case None => ""
    case Some(JNull) => "null"
    case Some(JStr(s)) => Quote(s)
    case Some(j) => ToText(j)
  }

  /** The cells of a record, one per header, in header order. */
  function RowCells(headers: seq<string>, r: Record): seq<string> {
    seq(|headers|, k requires 0 <= k < |headers| => RenderCell(Field(r, headers[k])))
  }

  function RenderRow(headers: seq<string>, r: Record): string {
    Join(RowCells(headers, r), ",")
  }

  /** The header line, then one line per record in order, separated by line feeds. */
  function CsvText(headers: seq<string>, data: seq<Record>): string {
    Join([Join(headers, ",")] + seq(|data|, i requires 0 <= i < |data| => RenderRow(headers, data[i])), "\n")
  }

  /** The whole CSV text for the accumulated records. */
  function CreateCsv(data: seq<Record>): string {
    CsvText(Headers, data)
  }

  // ---------------------------------------------------------------------------------------------
  // A reader for the format: fields separated by commas, records by line feeds, a field that
  // starts with a quote runs to the next lone quote and reads a doubled quote as one quote.

  /** An unquoted field: everything up to the next comma or line feed. */
  function ParseBare(t: string): (res: (string, string))
    ensures |res.1| <= |t|
  {
    if t == [] || t[0] == ',' || t[0] == '\n' then ([], t)
    else var (v, rest) := ParseBare(t[1..]); ([t[0]] + v, rest)
  }

  /** A quoted field after its opening quote, up to and including the closing quote. */
  function ParseQuoted(t: string): (res: (string, string))
    ensures |res.1| <= |t|
  {
    if t == [] then ([], [])
    else if t[0] == '"' then
      if |t| > 1 && t[1] == '"' then var (v, rest) := ParseQuoted(t[2..]); (['"'] + v, rest)
      else ([], t[1..])
    else var (v, rest) := ParseQuoted(t[1..]); ([t[0]] + v, rest)
  }

  function ParseField(t: string): (res: (string, string))
    ensures |res.1| <= |t|
  {
    if t != [] && t[0] == '"' then ParseQuoted(t[1..]) else ParseBare(t)
  }

  /** The fields of one record, and the text after it (empty, or starting at its line feed). */
  function ParseRecord(t: string): (res: (seq<string>, string))
    ensures |res.1| <= |t|
    decreases |t|
  {
    var (f, rest) := ParseField(t);
    if rest != [] && rest[0] == ',' then
      var (fs, rest') := ParseRecord(rest[1..]);
      ([f] + fs, rest')
    else ([f], rest)
  }

  function ParseDocument(t: string): seq<seq<string>>
    decreases |t|
  {
    var (fs, rest) := ParseRecord(t);
    if rest == [] then [fs] else [fs] + ParseDocument(rest[1..])
  }

  // ---------------------------------------------------------------------------------------------
  // Round trip.

  /** Text that can stand unquoted in a cell. */
  predicate BareSafe(s: string) {
    forall k | 0 <= k < |s| :: s[k] != ',' && s[k] != '\n' && s[k] != '"'
  }

  /** `c` is the written form of a cell whose text is `v`. */
  predicate Encodes(c: string, v: string) {
    c == Quote(v) || (c == v && BareSafe(v))
  }

  /** What follows a field: nothing, or the comma or line feed that ends it. */
  predicate Delimited(rest: string) {
    rest == [] || rest[0] == ',' || rest[0] == '\n'
  }

  /** Values that are written as one cell (an array is written unquoted, with its own commas). */
  predicate Flat(v: Option<Json>) {
    v.None? || !v.value.JArr?
  }

  /** The text a reader recovers from the cell written for `v`. */
  function CellText(v: Option<Json>): string {
    match v
    case None => ""
    case Some(JNull) => "null"
    case Some(JStr(s)) => s
    case Some(j) => ToText(j)
  }

  /**
   * Reading a quoted field whose text was written with its quotes doubled stops at the closing
   * quote `q` starts with, and gives back the text.
   */
  lemma {:induction false} ParseQuotedDoubled(s: string, q: string)
    requires q != [] && q[0] == '"' && (|q| == 1 || q[1] != '"')
    ensures ParseQuoted(DoubleQuotes(s) + q) == (s, q[1..])
  {
    if s == [] {
      assert DoubleQuotes(s) + q == q;
    } else {
      ParseQuotedDoubled(s[1..], q);
      DoubleQuotesFirst(s, q);
      var tail := DoubleQuotes(s[1..]) + q;
      if s[0] == '"' {
        ParseQuotedPair(tail, s[1..], q[1..]);
      } else {
        ParseQuotedOther(s[0], tail, s[1..], q[1..]);
      }
      assert s == [s[0]] + s[1..];
    }
  }

  /** The written form of a text's first character, then that of the rest. */
  lemma DoubleQuotesFirst(s: string, after: string)
    requires s != []
    ensures DoubleQuotes(s) + after == (if s[0] == '"' then "\"\"" else [s[0]]) + (DoubleQuotes(s[1..]) + after)
  {
  }

  /** A doubled quote inside a quoted field reads as one quote. */
  lemma ParseQuotedPair(tail: string, v: string, rest: string)
    requires ParseQuoted(tail) == (v, rest)
    ensures ParseQuoted("\"\"" + tail) == (['"'] + v, rest)
  {
    assert ("\"\"" + tail)[2..] == tail;
  }

  /** Any other character inside a quoted field reads as itself. */
  lemma ParseQuotedOther(c: char, tail: string, v: string, rest: string)
    requires c != '"' && ParseQuoted(tail) == (v, rest)
    ensures ParseQuoted([c] + tail) == ([c] + v, rest)
  {
    assert ([c] + tail)[1..] == tail;
  }

  lemma {:induction false} ParseBareSafe(u: string, rest: string)
    requires BareSafe(u) && Delimited(rest)
    ensures ParseBare(u + rest) == (u, rest)
  {
    if u == [] {
      assert u + rest == rest;
    } else {
      assert (u + rest)[1..] == u[1..] + rest;
      ParseBareSafe(u[1..], rest);
      assert u == [u[0]] + u[1..];
    }
  }

  lemma ParseFieldEncoded(c: string, v: string, rest: string)
    requires Encodes(c, v) && Delimited(rest)
    ensures ParseField(c + rest) == (v, rest)
  {
    if c == Quote(v) {
      assert (c + rest)[1..] == DoubleQuotes(v) + ("\"" + rest);
      ParseQuotedDoubled(v, "\"" + rest);
    } else {
      ParseBareSafe(v, rest);
    }
  }

  lemma {:induction false} ParseRecordJoin(cs: seq<string>, vs: seq<string>, rest: string)
    requires |cs| >= 1 && |cs| == |vs|
    requires forall k | 0 <= k < |cs| :: Encodes(cs[k], vs[k])
    requires rest == [] || rest[0] == '\n'
    ensures ParseRecord(Join(cs, ",") + rest) == (vs, rest)
  {
    if |cs| == 1 {
      ParseFieldEncoded(cs[0], vs[0], rest);
      assert vs == [vs[0]];
    } else {
      var tail := Join(cs[1..], ",") + rest;
      JoinFirst(cs, ",");
      assert Join(cs, ",") + rest == cs[0] + ("," + tail);
      ParseFieldEncoded(cs[0], vs[0], "," + tail);
      ParseRecordJoin(cs[1..], vs[1..], rest);
      ParseRecordNext(cs[0], vs[0], tail, vs[1..], rest);
      assert vs == [vs[0]] + vs[1..];
    }
  }

  /** A field followed by a comma continues the record with the fields after the comma. */
  lemma ParseRecordNext(c: string, v: string, tail: string, fs: seq<string>, rest: string)
    requires ParseField(c + ("," + tail)) == (v, "," + tail)
    requires ParseRecord(tail) == (fs, rest)
    ensures ParseRecord(c + ("," + tail)) == ([v] + fs, rest)
  {
    assert ("," + tail)[1..] == tail;
  }

  lemma {:induction false} ParseDocumentJoin(lines: seq<string>, cells: seq<seq<string>>, values: seq<seq<string>>)
    requires |cells| >= 1 && |lines| == |cells| == |values|
    requires forall i | 0 <= i < |cells| :: lines[i] == Join(cells[i], ",")
    requires forall i | 0 <= i < |cells| :: |cells[i]| >= 1 && |cells[i]| == |values[i]|
    requires forall i, k | 0 <= i < |cells| && 0 <= k < |cells[i]| :: Encodes(cells[i][k], values[i][k])
    ensures ParseDocument(Join(lines, "\n")) == values
  {
    if |cells| == 1 {
      ParseRecordJoin(cells[0], values[0], []);
      assert lines[0] + [] == lines[0];
    } else {
      var tail := Join(lines[1..], "\n");
      JoinFirst(lines, "\n");
      ParseRecordJoin(cells[0], values[0], "\n" + tail);
      ParseDocumentJoin(lines[1..], cells[1..], values[1..]);
      ParseDocumentNext(lines[0], tail, values[0]);
      assert values == [values[0]] + values[1..];
    }
  }

  /** A record ended by a line feed is followed by the records of the rest of the text. */
  lemma ParseDocumentNext(line: string, tail: string, fs: seq<string>)
    requires ParseRecord(line + ("\n" + tail)) == (fs, "\n" + tail)
    ensures ParseDocument(line + ("\n" + tail)) == [fs] + ParseDocument(tail)
  {
    assert ("\n" + tail)[1..] == tail;
  }

  lemma RenderCellEncodes(v: Option<Json>)
    requires Flat(v)
    ensures Encodes(RenderCell(v), CellText(v))
  {
    match v
    case None =>
    case Some(j) =>
      match j
      case JNum(n) => NumberBareSafe(n);
      case JBool(b) => BoolBareSafe(b);
      case JObj(_) => ObjectBareSafe();
      case _ =>
  }

  /** A number is written with digits and a leading minus sign at most. */
  lemma NumberBareSafe(n: int)
    ensures BareSafe(IntToString(n))
  {
    var t := IntToString(n);
    if n < 0 {
      assert t == "-" + NatToString(-n);
      assert forall k | 1 <= k < |t| :: t[k] == NatToString(-n)[k - 1];
    }
  }

  lemma BoolBareSafe(b: bool)
    ensures BareSafe(if b then "true" else "false")
  {
  }

  lemma ObjectBareSafe()
    ensures BareSafe("[object Object]")
  {
  }

  /** A string cell reads back as the original string; `null` is written as the word null. */
  lemma QuoteRoundTrip(s: string)
    ensures RenderCell(Some(JStr(s))) == Quote(s)
    ensures ParseField(RenderCell(Some(JStr(s)))) == (s, [])
    ensures RenderCell(Some(JNull)) == "null"
  {
    ParseFieldEncoded(Quote(s), s, []);
    assert Quote(s) + [] == Quote(s);
  }

  /** The cell texts a reader recovers from one record. */
  function RowTexts(headers: seq<string>, r: Record): seq<string> {
    seq(|headers|, k requires 0 <= k < |headers| => CellText(Field(r, headers[k])))
  }

  predicate IsAsciiLetter(c: char) { 'a' <= c <= 'z' || 'A' <= c <= 'Z' }

  /** Column names made of letters only, as all sixteen of the scraper's are. */
  predicate PlainNames(headers: seq<string>) {
    forall k, j | 0 <= k < |headers| && 0 <= j < |headers[k]| :: IsAsciiLetter(headers[k][j])
  }

  lemma RowEncodes(headers: seq<string>, r: Record)
    requires forall k | 0 <= k < |headers| :: Flat(Field(r, headers[k]))
    ensures forall k | 0 <= k < |headers| :: Encodes(RowCells(headers, r)[k], RowTexts(headers, r)[k])
  {
    forall k | 0 <= k < |headers| ensures Encodes(RowCells(headers, r)[k], RowTexts(headers, r)[k]) {
      RenderCellEncodes(Field(r, headers[k]));
    }
  }

  lemma CsvTextLines(headers: seq<string>, data: seq<Record>, cells: seq<seq<string>>)
    requires cells == [headers] + seq(|data|, i requires 0 <= i < |data| => RowCells(headers, data[i]))
    ensures CsvText(headers, data) == Join(seq(|cells|, i requires 0 <= i < |cells| => Join(cells[i], ",")), "\n")
  {
    var lines := seq(|cells|, i requires 0 <= i < |cells| => Join(cells[i], ","));
    var rows := seq(|data|, i requires 0 <= i < |data| => RenderRow(headers, data[i]));
    assert lines == [Join(headers, ",")] + rows by {
      forall i | 1 <= i < |lines| ensures lines[i] == ([Join(headers, ",")] + rows)[i] {
        assert cells[i] == RowCells(headers, data[i - 1]);
      }
    }
  }

  /** Every written cell, names and records alike, encodes the text read back from it. */
  lemma CellsEncode(headers: seq<string>, data: seq<Record>, cells: seq<seq<string>>, values: seq<seq<string>>)
    requires PlainNames(headers)
    requires forall i, k | 0 <= i < |data| && 0 <= k < |headers| :: Flat(Field(data[i], headers[k]))
    requires cells == [headers] + seq(|data|, i requires 0 <= i < |data| => RowCells(headers, data[i]))
    requires values == [headers] + seq(|data|, i requires 0 <= i < |data| => RowTexts(headers, data[i]))
    ensures |cells| == |values| == |data| + 1
    ensures forall i | 0 <= i < |cells| :: |cells[i]| == |values[i]| == |headers|
    ensures forall i, k | 0 <= i < |cells| && 0 <= k < |cells[i]| :: Encodes(cells[i][k], values[i][k])
  {
    HeadersEncode(headers);
    forall i | 1 <= i < |cells|
      ensures forall k | 0 <= k < |cells[i]| :: Encodes(cells[i][k], values[i][k])
    {
      assert cells[i] == RowCells(headers, data[i - 1]) && values[i] == RowTexts(headers, data[i - 1]);
      RowEncodes(headers, data[i - 1]);
    }
  }

  /** Letter-only column names are written bare and read back unchanged. */
  lemma HeadersEncode(headers: seq<string>)
    requires PlainNames(headers)
    ensures forall k | 0 <= k < |headers| :: Encodes(headers[k], headers[k])
  {
    forall k | 0 <= k < |headers| ensures BareSafe(headers[k]) {
      assert forall j | 0 <= j < |headers[k]| :: IsAsciiLetter(headers[k][j]);
    }
  }

  lemma CsvTextRoundTrip(headers: seq<string>, data: seq<Record>)
    requires |headers| >= 1 && PlainNames(headers)
    requires forall i, k | 0 <= i < |data| && 0 <= k < |headers| :: Flat(Field(data[i], headers[k]))
    ensures ParseDocument(CsvText(headers, data)) ==
      [headers] + seq(|data|, i requires 0 <= i < |data| => RowTexts(headers, data[i]))
  {
    var cells := [headers] + seq(|data|, i requires 0 <= i < |data| => RowCells(headers, data[i]));
    var values := [headers] + seq(|data|, i requires 0 <= i < |data| => RowTexts(headers, data[i]));
    CellsEncode(headers, data, cells, values);
    var lines := seq(|cells|, i requires 0 <= i < |cells| => Join(cells[i], ","));
    ParseDocumentJoin(lines, cells, values);
    CsvTextLines(headers, data, cells);
  }

  /**
   * Reading the written text back gives the sixteen column names and, per record in order,
   * sixteen cells holding each field's text in header order.
   */
  lemma CreateCsvRoundTrip(data: seq<Record>)
    requires forall i, k | 0 <= i < |data| && 0 <= k < |Headers| :: Flat(Field(data[i], Headers[k]))
    ensures ParseDocument(CreateCsv(data)) ==
      [Headers] + seq(|data|, i requires 0 <= i < |data| => RowTexts(Headers, data[i]))
  {
    assert PlainNames(Headers);
    CsvTextRoundTrip(Headers, data);
  }
}
