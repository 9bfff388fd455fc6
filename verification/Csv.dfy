/** The CSV export of a conversation, read back with the grammar of section 2 of RFC 4180. */
module Csv {
  import opened Options

  // ----- the writer -----

  predicate StartsFormula(text: string) {
    text != "" && text[0] in {'=', '+', '-', '@', '\t', '\r'}
  }

  /** The text a cell shows: empty for null, and never one a spreadsheet would run. */
  function Guarded(value: Option<string>): string {
    var text := if value.None? then "" else value.value;
    if StartsFormula(text) then "'" + text else text
  }

  /**
   The six characters that a spreadsheet may take for the start of a formula, an empty cell for
   null, and nothing else changed.
   */
  lemma GuardMeans(value: Option<string>)
    ensures value == None ==> Guarded(value) == ""
    ensures value.Some? ==>
              Guarded(value) == if value.value != "" && value.value[0] in "=+-@\t\r" then ['\''] + value.value
                  else value.value
  {
    assert "=+-@\t\r" == ['=', '+', '-', '@', '\t', '\r'];
  }

  predicate IsSpecial(c: char) {
    c in {'\"', ',', '\r', '\n'}
  }

  predicate IsPlain(text: string) {
    forall i :: 0 <= i < |text| ==> !IsSpecial(text[i])
  }

  function Doubled(text: string): string {
    if text == "" then ""
    else (if text[0] == '\"' then "\"\"" else [text[0]]) + Doubled(text[1..])
  }

  function Quoted(text: string): string {
    if !IsPlain(text) then "\"" + Doubled(text) + "\"" else text
  }

  function CsvCell(value: Option<string>): string {
    Quoted(Guarded(value))
  }

  /** Cells separated by commas. */
  function Joined(cells: seq<string>): string {
    if cells == [] then ""
    else if |cells| == 1 then cells[0]
    else cells[0] + "," + Joined(cells[1..])
  }

  datatype ExportedMessage = ExportedMessage(
    id: string, createdAt: string, senderId: string, senderName: string,
    text: string, status: string, deliveredAt: Option<string>, readAt: Option<string>)

  const COLUMNS := ["id", "createdAt", "senderId", "senderName", "text", "status", "deliveredAt", "readAt"]

  /** The values of a message in the order of `COLUMNS`. */
  function Values(m: ExportedMessage): (values: seq<Option<string>>)
    ensures |values| == |COLUMNS|
  {
    [Some(m.id), Some(m.createdAt), Some(m.senderId), Some(m.senderName), Some(m.text), Some(m.status),
        m.deliveredAt, m.readAt]
  }

  /** Every column shows the field it is named after. */
  lemma ColumnsNameFields(m: ExportedMessage)
    ensures COLUMNS[0] == "id" && Values(m)[0] == Some(m.id)
    ensures COLUMNS[1] == "createdAt" && Values(m)[1] == Some(m.createdAt)
    ensures COLUMNS[2] == "senderId" && Values(m)[2] == Some(m.senderId)
    ensures COLUMNS[3] == "senderName" && Values(m)[3] == Some(m.senderName)
    ensures COLUMNS[4] == "text" && Values(m)[4] == Some(m.text)
    ensures COLUMNS[5] == "status" && Values(m)[5] == Some(m.status)
    ensures COLUMNS[6] == "deliveredAt" && Values(m)[6] == m.deliveredAt
    ensures COLUMNS[7] == "readAt" && Values(m)[7] == m.readAt
    ensures |COLUMNS| == 8
  {
  }

  function CellsOf(values: seq<Option<string>>): (cells: seq<string>)
    ensures |cells| == |values|
    ensures forall i :: 0 <= i < |values| ==> cells[i] == CsvCell(values[i])
  {
    if values == [] then [] else [CsvCell(values[0])] + CellsOf(values[1..])
  }

  function Line(cells: seq<string>): string {
    Joined(cells) + "\r\n"
  }

  function Row(m: ExportedMessage): string {
    Line(CellsOf(Values(m)))
  }

  function Body(messages: seq<ExportedMessage>): string {
    if messages == [] then ""
    else Row(messages[0]) + Body(messages[1..])
  }

  const BYTE_ORDER_MARK := "\U{FEFF}"

  class Response {
    var body: string

    constructor ()
      ensures body == ""
    {
      body := "";
    }

    method Write(text: string)
      modifies this
      ensures body == old(body) + text
    {
      body := body + text;
    }
  }

  lemma NextRow(written: string, messages: seq<ExportedMessage>, k: nat)
    requires k < |messages|
    ensures written + Body(messages[k..]) == (written + Row(messages[k])) + Body(messages[k + 1..])
  {
    assert messages[k..][1..] == messages[k + 1..];
  }

  class ChatExportService {
    constructor () {}

    method WriteCsv(messages: seq<ExportedMessage>, response: Response)
      modifies response
      ensures response.body == old(response.body) + "\U{FEFF}" + Line(COLUMNS) + Body(messages)
    {
      response.Write(BYTE_ORDER_MARK);
      response.Write(Line(COLUMNS));
      WriteRows(messages, response);
    }

    method WriteRows(messages: seq<ExportedMessage>, response: Response)
      modifies response
      ensures response.body == old(response.body) + Body(messages)
    {
      for k := 0 to |messages|
        invariant response.body + Body(messages[k..]) == old(response.body) + Body(messages)
      {
        NextRow(response.body, messages, k);
        response.Write(Row(messages[k]));
      }
    }
  }

  // ----- a reader for the grammar of section 2 of RFC 4180 -----

  /** What was read, and what is left. */
  datatype Parsed<T> = Parsed(value: T, rest: string)

  /** After an opening quote: the text up to the closing one, where two quotes stand for one. */
  function ParseEscaped(s: string): (r: Option<Parsed<string>>)
    ensures r.Some? ==> |r.value.rest| < |s|
    decreases |s|
  {
    if s == "" then None
    else if s[0] != '\"' then
      var r := ParseEscaped(s[1..]);
      if r.None? then None else Some(Parsed([s[0]] + r.value.value, r.value.rest))
    else if |s| >= 2 && s[1] == '\"' then
      var r := ParseEscaped(s[2..]);
      if r.None? then None else Some(Parsed("\"" + r.value.value, r.value.rest))
    else Some(Parsed("", s[1..]))
  }

  function ParsePlain(s: string): (r: Parsed<string>)
    ensures |r.rest| <= |s|
    decreases |s|
  {
    if s == "" || IsSpecial(s[0]) then Parsed("", s)
    else
      var r := ParsePlain(s[1..]);
      Parsed([s[0]] + r.value, r.rest)
  }

  function ParseField(s: string): (r: Option<Parsed<string>>)
    ensures r.Some? ==> |r.value.rest| <= |s|
  {
    if s != "" && s[0] == '\"' then ParseEscaped(s[1..]) else Some(ParsePlain(s))
  }

  /** One record, with the line break that ends it unless the text ends first. */
  function ParseRecord(s: string): (r: Option<Parsed<seq<string>>>)
    ensures r.Some? ==> |r.value.rest| < |s| || s == ""
    decreases |s|
  {
    var field := ParseField(s);
    if field.None? then None
    else
      var rest := field.value.rest;
      if rest == "" then Some(Parsed([field.value.value], ""))
      else if rest[0] == ',' then
        var more := ParseRecord(rest[1..]);
        if more.None? then None else Some(Parsed([field.value.value] + more.value.value, more.value.rest))
      else if |rest| >= 2 && rest[..2] == "\r\n" then Some(Parsed([field.value.value], rest[2..]))
      else None
  }

  function ParseFile(s: string): Option<seq<seq<string>>>
    decreases |s|
  {
    if s == "" then Some([])
    else
      var r := ParseRecord(s);
      if r.None? then None
      else
        var more := ParseFile(r.value.rest);
        if more.None? then None else Some([r.value.value] + more.value)
  }

  // ----- reading back what was written -----

  /** What may follow a cell. */
  predicate EndsCell(rest: string) {
    rest == "" || rest[0] == ',' || rest[0] == '\r'
  }

  lemma {:induction false} EscapedRoundTrip(text: string, rest: string)
    requires EndsCell(rest)
    ensures ParseEscaped(Doubled(text) + "\"" + rest) == Some(Parsed(text, rest))
    decreases |text|
  {
    var s := Doubled(text) + "\"" + rest;
    if text == "" {
      assert s == "\"" + rest;
      assert s[1..] == rest;
    } else {
      EscapedRoundTrip(text[1..], rest);
      var tail := Doubled(text[1..]) + "\"" + rest;
      if text[0] == '\"' {
        assert s == "\"\"" + tail;
        assert s[2..] == tail;
      } else {
        assert s == [text[0]] + tail;
        assert s[1..] == tail;
      }
      assert text == [text[0]] + text[1..];
    }
  }

  /** A quoted field that is never closed is not read. */
  lemma {:induction false} UnclosedIsRefused(text: string)
    ensures ParseEscaped(Doubled(text)) == None
    decreases |text|
  {
    if text != "" {
      UnclosedIsRefused(text[1..]);
      var s := Doubled(text);
      if text[0] == '\"' {
        assert s[2..] == Doubled(text[1..]);
      } else {
        assert s[1..] == Doubled(text[1..]);
      }
    }
  }

  lemma {:induction false} PlainRoundTrip(text: string, rest: string)
    requires EndsCell(rest) && IsPlain(text)
    ensures ParsePlain(text + rest) == Parsed(text, rest)
    decreases |text|
  {
    if text == "" {
      assert text + rest == rest;
    } else {
      assert (text + rest)[1..] == text[1..] + rest;
      PlainRoundTrip(text[1..], rest);
      assert text == [text[0]] + text[1..];
    }
  }

  lemma PlainField(text: string, rest: string)
    requires EndsCell(rest) && IsPlain(text)
    ensures ParseField(text + rest) == Some(Parsed(text, rest))
  {
    PlainRoundTrip(text, rest);
    if text == "" {
      assert text + rest == rest;
    } else {
      assert IsSpecial('\"') && (text + rest)[0] == text[0];
    }
  }

  lemma EscapedField(text: string, rest: string)
    requires EndsCell(rest)
    ensures ParseField("\"" + (Doubled(text) + "\"" + rest)) == Some(Parsed(text, rest))
  {
    var inner := Doubled(text) + "\"" + rest;
    EscapedRoundTrip(text, rest);
    assert ("\"" + inner)[1..] == inner;
  }

  /** Every text, whatever quotes, commas and line breaks it holds, is read back as one field. */
  lemma FieldRoundTrip(text: string, rest: string)
    requires EndsCell(rest)
    ensures ParseField(Quoted(text) + rest) == Some(Parsed(text, rest))
  {
    if IsPlain(text) {
      PlainField(text, rest);
    } else {
      EscapedField(text, rest);
      assert Quoted(text) + rest == "\"" + (Doubled(text) + "\"" + rest);
    }
  }

  function QuotedAll(texts: seq<string>): (cells: seq<string>)
    ensures |cells| == |texts|
  {
    if texts == [] then [] else [Quoted(texts[0])] + QuotedAll(texts[1..])
  }

  lemma {:induction false} RecordRoundTrip(texts: seq<string>, rest: string)
    requires texts != []
    ensures ParseRecord(Line(QuotedAll(texts)) + rest) == Some(Parsed(texts, rest))
    decreases |texts|
  {
    var cells := QuotedAll(texts);
    var s := Line(cells) + rest;
    if |texts| == 1 {
      var after := "\r\n" + rest;
      assert s == Quoted(texts[0]) + after;
      FieldRoundTrip(texts[0], after);
      assert after[..2] == "\r\n" && after[2..] == rest;
      assert texts == [texts[0]];
    } else {
      var more := Line(QuotedAll(texts[1..])) + rest;
      var after := "," + more;
      assert cells[1..] == QuotedAll(texts[1..]);
      assert s == Quoted(texts[0]) + after;
      FieldRoundTrip(texts[0], after);
      assert after[1..] == more;
      RecordRoundTrip(texts[1..], rest);
      assert texts == [texts[0]] + texts[1..];
    }
  }

  function GuardedAll(values: seq<Option<string>>): (texts: seq<string>)
    ensures |texts| == |values|
    ensures forall i :: 0 <= i < |values| ==> texts[i] == Guarded(values[i])
  {
    if values == [] then [] else [Guarded(values[0])] + GuardedAll(values[1..])
  }

  lemma {:induction false} CellsAreQuoted(values: seq<Option<string>>)
    ensures CellsOf(values) == QuotedAll(GuardedAll(values))
  {
    if values != [] {
      CellsAreQuoted(values[1..]);
      assert GuardedAll(values)[1..] == GuardedAll(values[1..]);
    }
  }

  lemma {:induction false} PlainIsUnquoted(texts: seq<string>)
    requires forall i :: 0 <= i < |texts| ==> IsPlain(texts[i])
    ensures QuotedAll(texts) == texts
  {
    if texts != [] {
      PlainIsUnquoted(texts[1..]);
    }
  }

  lemma HeaderIsPlain()
    ensures forall i :: 0 <= i < |COLUMNS| ==> IsPlain(COLUMNS[i])
  {
    assert IsPlain("id") && IsPlain("createdAt") && IsPlain("senderId") && IsPlain("senderName");
    assert IsPlain("text") && IsPlain("status") && IsPlain("deliveredAt") && IsPlain("readAt");
  }

  /** One record per message, its fields the guarded values. */
  function Records(messages: seq<ExportedMessage>): (records: seq<seq<string>>)
    ensures |records| == |messages|
    ensures forall k :: 0 <= k < |messages| ==> records[k] == GuardedAll(Values(messages[k]))
  {
    if messages == [] then [] else [GuardedAll(Values(messages[0]))] + Records(messages[1..])
  }

  lemma {:induction false} BodyRoundTrip(messages: seq<ExportedMessage>)
    ensures ParseFile(Body(messages)) == Some(Records(messages))
  {
    if messages != [] {
      var values := Values(messages[0]);
      CellsAreQuoted(values);
      RecordRoundTrip(GuardedAll(values), Body(messages[1..]));
      BodyRoundTrip(messages[1..]);
    }
  }

  lemma TableRoundTrip(header: seq<string>, messages: seq<ExportedMessage>)
    requires header != [] && forall i :: 0 <= i < |header| ==> IsPlain(header[i])
    ensures ParseFile(Line(header) + Body(messages)) == Some([header] + Records(messages))
  {
    PlainIsUnquoted(header);
    RecordRoundTrip(header, Body(messages));
    BodyRoundTrip(messages);
  }

  /**
   Everything written after the byte order mark reads back as the header and one record of eight
   fields per message, each the guarded value; and no field of a message starts a formula.
   */
  lemma CsvRoundTrip(messages: seq<ExportedMessage>)
    ensures ParseFile(Line(COLUMNS) + Body(messages)) == Some([COLUMNS] + Records(messages))
    ensures forall k, i :: 0 <= k < |messages| && 0 <= i < |COLUMNS| ==>
              && |Records(messages)[k]| == |COLUMNS|
              && !StartsFormula(Records(messages)[k][i])
  {
    HeaderIsPlain();
    TableRoundTrip(COLUMNS, messages);
  }

  /** The guard forgets one thing only: whether the leading apostrophe was there before. */
  lemma GuardCollisions(a: string, b: string)
    ensures Guarded(Some(a)) == Guarded(Some(b))
            <==> a == b || (StartsFormula(b) && a == "'" + b) || (StartsFormula(a) && b == "'" + a)
  {
    if StartsFormula(a) && StartsFormula(b) && Guarded(Some(a)) == Guarded(Some(b)) {
      assert ("'" + a)[1..] == a && ("'" + b)[1..] == b;
    }
  }
}
