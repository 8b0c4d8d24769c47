/** toCSV: the export format, and a decoder for it under which the export
    loses nothing. Fields follow the quoting rules of RFC 4180, section 2
    (rules 5 to 7); records are separated by a single line feed. */
module Csv {
  import opened Wrappers
  import opened Text

  /** A stored record as a JavaScript object: property name to text. A
      property that is missing (or null) is not a key. */
  type Object = map<string, string>

  /** The exported columns, in order; `id` is not exported. */
  const Headers: seq<string> :=
    ["appName", "company", "website", "domain", "isFree", "summary", "logoUrl", "audioUrl", "videoUrl", "createdAt"]

  /** `a[h] ?? ''`. */
  function Cell(row: Object, h: string): (c: string)
    ensures h in row ==> c == row[h]
    ensures h !in row ==> c == ""
  {
    if h in row then row[h] else ""
  }

  /** The cells of one record, one per header. */
  function Values(row: Object): (r: seq<string>)
    ensures |r| == |Headers|
    ensures forall i :: 0 <= i < |r| ==> r[i] == Cell(row, Headers[i])
  {
    seq(|Headers|, i requires 0 <= i < |Headers| => Cell(row, Headers[i]))
  }

  /** `.replace(/"/g, '""')`. */
  function DoubleQuotes(v: string): (r: string)
    ensures |r| >= |v|
    ensures '"' !in v ==> r == v
    ensures '"' in v ==> '"' in r && |r| > |v|
  {
    if v == [] then [] else (if v[0] == '"' then "\"\"" else [v[0]]) + DoubleQuotes(v[1..])
  }

  /** One exported field: the value in double quotes, its quotes doubled. */
  function Quote(v: string): (r: string)
    ensures |r| >= |v| + 2 && r[0] == '"' && r[|r| - 1] == '"'
    ensures '"' !in v ==> r == "\"" + v + "\""
  {
    "\"" + DoubleQuotes(v) + "\""
  }

  function QuoteAll(vals: seq<string>): (r: seq<string>)
    ensures |r| == |vals|
  {
    if vals == [] then [] else [Quote(vals[0])] + QuoteAll(vals[1..])
  }

  /** Each exported field is its own cell, quoted. */
  lemma {:induction false} QuoteAllCells(vals: seq<string>)
    ensures forall i :: 0 <= i < |vals| ==> QuoteAll(vals)[i] == Quote(vals[i])
    decreases |vals|
  {
    if vals != [] {
      QuoteAllCells(vals[1..]);
      forall i | 0 < i < |vals| ensures QuoteAll(vals)[i] == Quote(vals[i]) {
        assert QuoteAll(vals)[i] == QuoteAll(vals[1..])[i - 1];
        assert vals[1..][i - 1] == vals[i];
      }
    }
  }

  /** One record line: the quoted fields joined by commas. */
  function RecordLine(vals: seq<string>): (r: string)
    ensures vals == [] ==> r == ""
    ensures |vals| == 1 ==> r == Quote(vals[0])
  {
    Join(QuoteAll(vals), ",")
  }

  /** The first line of the export: the header names joined by commas. */
  function HeaderLine(): string {
    Join(Headers, ",")
  }

  /** The cells of every record. */
  function Table(list: seq<Object>): (r: seq<seq<string>>)
    ensures |r| == |list|
  {
    seq(|list|, i requires 0 <= i < |list| => Values(list[i]))
  }

  function Encode(recs: seq<seq<string>>): (r: seq<string>)
    ensures |r| == |recs|
  {
    seq(|recs|, i requires 0 <= i < |recs| => RecordLine(recs[i]))
  }

  /** The whole export: the header line, then one line per record. */
  function Document(list: seq<Object>): (doc: string)
    ensures list == [] ==> doc == HeaderLine()
    ensures list != [] ==> |doc| > |HeaderLine()| && doc[..|HeaderLine()| + 1] == HeaderLine() + "\n"
  {
    var lines := [HeaderLine()] + Encode(Table(list));
    assert lines[0] == HeaderLine() && lines[1..] == Encode(Table(list));
    Join(lines, "\n")
  }

  /** toCSV, as the loop that pushes one line per record. */
  method ToCSV(list: seq<Object>) returns (csv: string)
    ensures csv == Document(list)
    ensures Decode(csv) == Some(Table(list))
  {
    var rows := [HeaderLine()];
    for i := 0 to |list|
      invariant rows == [HeaderLine()] + Encode(Table(list[..i]))
    {
      EncodeSnoc(list, i);
      rows := rows + [RecordLine(Values(list[i]))];
    }
    assert list[..|list|] == list;
    csv := Join(rows, "\n");
    DecodeDocument(list);
  }

  lemma EncodeSnoc(list: seq<Object>, i: int)
    requires 0 <= i < |list|
    ensures Encode(Table(list[..i + 1])) == Encode(Table(list[..i])) + [RecordLine(Values(list[i]))]
  {
  }

  /** The decoder: the text of a quoted field after its opening quote, up to
      the closing quote, with each doubled quote read as one; and the text
      after the closing quote. */
  function QuotedBody(t: string): (r: Option<(string, string)>)
    ensures r.Some? ==> |r.value.1| < |t|
    decreases |t|
  {
    if t == [] then None
    else if t[0] == '"' then
      if |t| >= 2 && t[1] == '"' then
        match QuotedBody(t[2..])
        case None => None
        case Some((v, rest)) => Some(("\"" + v, rest))
      else Some(([], t[1..]))
    else
      match QuotedBody(t[1..])
      case None => None
      case Some((v, rest)) => Some(([t[0]] + v, rest))
  }

  /** A quoted field at the front of `t`. */
  function ParseField(t: string): (r: Option<(string, string)>)
    ensures r.Some? ==> |r.value.1| < |t|
  {
    if t != [] && t[0] == '"' then QuotedBody(t[1..]) else None
  }

  /** `n` quoted fields separated by commas at the front of `t`. */
  function ParseFields(t: string, n: nat): (r: Option<(seq<string>, string)>)
    requires n >= 1
    ensures r.Some? ==> |r.value.0| == n && |r.value.1| < |t|
    decreases n
  {
    match ParseField(t)
    case None => None
    case Some((v, rest)) =>
      if n == 1 then Some(([v], rest))
      else if rest != [] && rest[0] == ',' then
        match ParseFields(rest[1..], n - 1)
        case None => None
        case Some((vs, rest')) => Some(([v] + vs, rest'))
      else None
  }

  /** Record lines separated by line feeds, up to the end of the text. */
  function ParseRecords(t: string): (r: Option<seq<seq<string>>>)
    decreases |t|
  {
    match ParseFields(t, |Headers|)
    case None => None
    case Some((vals, rest)) =>
      if rest == [] then Some([vals])
      else if rest[0] == '\n' then
        match ParseRecords(rest[1..])
        case None => None
        case Some(more) => Some([vals] + more)
      else None
  }

  /** Reads an export back: the header line, then the records if any. */
  function Decode(doc: string): Option<seq<seq<string>>> {
    var h := HeaderLine();
    if doc == h then Some([])
    else if |doc| > |h| && doc[..|h| + 1] == h + "\n" then ParseRecords(doc[|h| + 1..])
    else None
  }

  /** Unquoting recovers the value, and stops right after the closing quote
      provided no quote follows it. */
  lemma {:induction false} QuotedBodyRoundTrip(v: string, rest: string)
    requires rest == [] || rest[0] != '"'
    ensures QuotedBody(DoubleQuotes(v) + "\"" + rest) == Some((v, rest))
    decreases |v|
  {
    var t := DoubleQuotes(v) + "\"" + rest;
    if v == [] {
      assert t == "\"" + rest;
      assert t[1..] == rest;
    } else {
      QuotedBodyRoundTrip(v[1..], rest);
      var tail := DoubleQuotes(v[1..]) + "\"" + rest;
      if v[0] == '"' {
        assert t == "\"\"" + tail;
        assert t[2..] == tail;
        assert "\"" + v[1..] == v;
      } else {
        assert t == [v[0]] + tail;
        assert t[1..] == tail;
        assert [v[0]] + v[1..] == v;
      }
    }
  }

  /** The field-level round trip of the quoting rule. */
  lemma FieldRoundTrip(v: string, rest: string)
    requires rest == [] || rest[0] != '"'
    ensures ParseField(Quote(v) + rest) == Some((v, rest))
  {
    var t := Quote(v) + rest;
    assert t[1..] == DoubleQuotes(v) + "\"" + rest;
    QuotedBodyRoundTrip(v, rest);
  }

  /** A single exported field unquotes to the original value. */
  lemma UnquoteQuote(v: string)
    ensures ParseField(Quote(v)) == Some((v, ""))
  {
    assert Quote(v) + "" == Quote(v);
    FieldRoundTrip(v, "");
  }

  /** The record-level round trip: a record line reads back as its cells. */
  lemma {:induction false} FieldsRoundTrip(vals: seq<string>, rest: string)
    requires |vals| >= 1
    requires rest == [] || rest[0] != '"'
    ensures ParseFields(RecordLine(vals) + rest, |vals|) == Some((vals, rest))
    decreases |vals|
  {
    if |vals| == 1 {
      LastFieldRoundTrip(vals, rest);
    } else {
      var tail := RecordLine(vals[1..]) + rest;
      RecordLineCons(vals);
      assert RecordLine(vals) + rest == Quote(vals[0]) + ("," + tail);
      FieldRoundTrip(vals[0], "," + tail);
      ParseFieldsCons(RecordLine(vals) + rest, |vals|, vals[0], tail);
      FieldsRoundTrip(vals[1..], rest);
      assert [vals[0]] + vals[1..] == vals;
    }
  }

  lemma LastFieldRoundTrip(vals: seq<string>, rest: string)
    requires |vals| == 1
    requires rest == [] || rest[0] != '"'
    ensures ParseFields(RecordLine(vals) + rest, 1) == Some((vals, rest))
  {
    assert RecordLine(vals) == Quote(vals[0]);
    FieldRoundTrip(vals[0], rest);
    assert vals == [vals[0]];
  }

  /** A field followed by a comma, then the remaining fields. */
  lemma ParseFieldsCons(t: string, n: nat, v: string, tail: string)
    requires n >= 2
    requires ParseField(t) == Some((v, "," + tail))
    ensures ParseFields(t, n) ==
      match ParseFields(tail, n - 1)
      case None => None
      case Some((vs, rest)) => Some(([v] + vs, rest))
  {
    assert ("," + tail)[1..] == tail;
  }

  lemma RecordLineCons(vals: seq<string>)
    requires |vals| >= 2
    ensures RecordLine(vals) == Quote(vals[0]) + "," + RecordLine(vals[1..])
  {
    assert QuoteAll(vals)[1..] == QuoteAll(vals[1..]);
  }

  /** The lines of several records read back as those records. */
  lemma {:induction false} RecordsRoundTrip(recs: seq<seq<string>>)
    requires |recs| >= 1
    requires forall i :: 0 <= i < |recs| ==> |recs[i]| == |Headers|
    ensures ParseRecords(Join(Encode(recs), "\n")) == Some(recs)
    decreases |recs|
  {
    var e := Encode(recs);
    if |recs| == 1 {
      assert Join(e, "\n") == RecordLine(recs[0]) + "";
      FieldsRoundTrip(recs[0], "");
      assert recs == [recs[0]];
    } else {
      var tail := Join(e[1..], "\n");
      assert e[1..] == Encode(recs[1..]);
      assert Join(e, "\n") == RecordLine(recs[0]) + ("\n" + tail);
      FieldsRoundTrip(recs[0], "\n" + tail);
      assert ("\n" + tail)[1..] == tail;
      RecordsRoundTrip(recs[1..]);
      assert [recs[0]] + recs[1..] == recs;
    }
  }

  /** The document-level round trip: decoding an export gives back the cells
      of every record, in order. */
  lemma DecodeDocument(list: seq<Object>)
    ensures Decode(Document(list)) == Some(Table(list))
  {
    var h := HeaderLine();
    var e := Encode(Table(list));
    if list == [] {
      assert [h] + e == [h];
    } else {
      var body := Join(e, "\n");
      assert ([h] + e)[1..] == e;
      var doc := h + "\n" + body;
      assert Document(list) == doc;
      assert doc[..|h| + 1] == h + "\n";
      assert doc[|h| + 1..] == body;
      RecordsRoundTrip(Table(list));
    }
  }
}
