/** The CSV text that exportToCSV builds from a list of plain objects before
    handing it to the browser as a download: a header record of the first
    object's keys, then one record per object with one cell per header.
    String cells are quoted with the scheme of section 2 (rules 6 and 7) of
    RFC 4180; every other cell goes out as JavaScript's Array.join renders
    it. An object is a sequence of key/value pairs in key order. */
module CsvExport {
  import opened Wrappers
  import opened Text
  import opened Numbers

  /** A JavaScript value as it can sit in a transaction record. */
  datatype Value = Str(s: string) | Num(n: int) | Bool(b: bool) | Null | Undefined

  /** A plain object: its own enumerable keys in order, with their values. */
  type Row = seq<(string, Value)>

  /** Object.keys(row). */
  function Keys(row: Row): (ks: seq<string>)
    ensures |ks| == |row|
    ensures forall i :: 0 <= i < |row| ==> ks[i] == row[i].0
  {
    seq(|row|, i requires 0 <= i < |row| => row[i].0)
  }

  /** `row[key]`: the value stored under key, or undefined. */
  function Lookup(row: Row, key: string): (v: Value)
    ensures (forall i :: 0 <= i < |row| ==> row[i].0 != key) ==> v == Undefined
    ensures |row| > 0 && row[0].0 == key ==> v == row[0].1
  {
    if |row| == 0 then Undefined
    else if row[0].0 == key then row[0].1
    else Lookup(row[1..], key)
  }

  /** `s.replace(/"/g, '""')`. */
  function DoubleQuotes(s: string): (r: string)
    ensures '\n' !in s ==> '\n' !in r
  {
    if s == [] then ""
    else (if s[0] == '"' then "\"\"" else [s[0]]) + DoubleQuotes(s[1..])
  }

  /** A string cell: wrapped in '"' with every inner '"' doubled. */
  function QuoteCell(s: string): (r: string)
    ensures |r| >= 2 && r[0] == '"' && r[|r| - 1] == '"'
    ensures '\n' !in s ==> '\n' !in r
  {
    "\"" + DoubleQuotes(s) + "\""
  }

  /** The text Array.join produces for one cell: a string is quoted, a number
      is printed in decimal, a boolean as "true"/"false", and null or
      undefined as the empty string. */
  function RenderCell(v: Value): (r: string)
    ensures v.Str? ==> r == QuoteCell(v.s)
    ensures !v.Str? ==> '"' !in r && ',' !in r && '\n' !in r
  {
    match v
    case Str(s) => QuoteCell(s)
    case Num(n) =>
      NatToStringDigits(if n < 0 then -n else n);
      IntToString(n)
    case Bool(b) => if b then "true" else "false"
    case Null => ""
    case Undefined => ""
  }

  /** The cells of one data record, in header order. */
  function Cells(headers: seq<string>, row: Row): (cs: seq<string>)
    ensures |cs| == |headers|
    ensures forall j :: 0 <= j < |headers| ==> cs[j] == RenderCell(Lookup(row, headers[j]))
  {
    seq(|headers|, j requires 0 <= j < |headers| => RenderCell(Lookup(row, headers[j])))
  }

  /** All records: the header record, then one record per object. */
  function Records(data: seq<Row>): (recs: seq<string>)
    requires |data| > 0
    ensures |recs| == |data| + 1
  {
    var headers := Keys(data[0]);
    [Join(headers, ",")] + seq(|data|, i requires 0 <= i < |data| => Join(Cells(headers, data[i]), ","))
  }

  /** exportToCSV's text: nothing at all for an empty list (the function
      returns before any download), otherwise the records joined by '\n'. */
  function ExportToCsv(data: seq<Row>): (r: Option<string>)
    ensures r.None? <==> |data| == 0
  {
    if |data| == 0 then None else Some(Join(Records(data), "\n"))
  }

  // ---------------------------------------------------------------------
  // Reading the quoting back
  // ---------------------------------------------------------------------

  /** Collapses every '""' of a quoted field's inside to '"'; None when a
      lone '"' is found, which the quoting never produces. */
  function Collapse(t: string): (r: Option<string>)
  {
    if t == [] then Some("")
    else if t[0] != '"' then
      match Collapse(t[1..])
      case Some(rest) => Some([t[0]] + rest)
      case None => None
    else if |t| >= 2 && t[1] == '"' then
      match Collapse(t[2..])
      case Some(rest) => Some("\"" + rest)
      case None => None
    else None
  }

  /** Reads a quoted field: strips the outer quotes and collapses the
      doubled ones. */
  function Unquote(t: string): (r: Option<string>)
  {
    if |t| >= 2 && t[0] == '"' && t[|t| - 1] == '"' then Collapse(t[1..|t| - 1]) else None
  }

  lemma {:induction false} CollapseDoubleQuotes(s: string)
    ensures Collapse(DoubleQuotes(s)) == Some(s)
  {
    if s != [] {
      CollapseDoubleQuotes(s[1..]);
      var t := DoubleQuotes(s);
      if s[0] == '"' {
        assert t[2..] == DoubleQuotes(s[1..]);
      } else {
        assert t[1..] == DoubleQuotes(s[1..]);
      }
      assert s == [s[0]] + s[1..];
    }
  }

  /** Reading a quoted string cell back gives the original string, so two
      different strings never give the same cell. */
  lemma QuoteRoundTrip(s: string)
    ensures Unquote(QuoteCell(s)) == Some(s)
  {
    var t := QuoteCell(s);
    assert t[1..|t| - 1] == DoubleQuotes(s);
    CollapseDoubleQuotes(s);
  }

  lemma QuoteCellInjective(s: string, u: string)
    ensures QuoteCell(s) == QuoteCell(u) <==> s == u
  {
    QuoteRoundTrip(s);
    QuoteRoundTrip(u);
  }

  /** The number of '"' in a string. */
  function QuoteCount(s: string): nat {
    if s == [] then 0 else (if s[0] == '"' then 1 else 0) + QuoteCount(s[1..])
  }

  /** Doubling: the inside of a quoted cell holds exactly twice as many '"'
      as the string, and one more character per '"'. */
  lemma {:induction false} DoubleQuotesCounts(s: string)
    ensures QuoteCount(DoubleQuotes(s)) == 2 * QuoteCount(s)
    ensures |DoubleQuotes(s)| == |s| + QuoteCount(s)
  {
    if s != [] {
      DoubleQuotesCounts(s[1..]);
      var head := if s[0] == '"' then "\"\"" else [s[0]];
      QuoteCountConcat(head, DoubleQuotes(s[1..]));
    }
  }

  lemma {:induction false} QuoteCountConcat(a: string, b: string)
    ensures QuoteCount(a + b) == QuoteCount(a) + QuoteCount(b)
  {
    if a == [] {
      assert a + b == b;
    } else {
      assert (a + b)[0] == a[0];
      assert (a + b)[1..] == a[1..] + b;
      QuoteCountConcat(a[1..], b);
    }
  }

  // ---------------------------------------------------------------------
  // Shape of the text
  // ---------------------------------------------------------------------

  /** No header and no string value holds a line break. */
  predicate NoLineBreaks(data: seq<Row>) {
    forall i, k :: 0 <= i < |data| && 0 <= k < |data[i]| ==>
      '\n' !in data[i][k].0 && (data[i][k].1.Str? ==> '\n' !in data[i][k].1.s)
  }

  lemma LookupNoLineBreak(data: seq<Row>, i: nat, key: string)
    requires NoLineBreaks(data) && i < |data|
    ensures var v := Lookup(data[i], key); v.Str? ==> '\n' !in v.s
  {
    LookupIn(data[i], key);
  }

  lemma {:induction false} LookupIn(row: Row, key: string)
    ensures Lookup(row, key) == Undefined || exists k :: 0 <= k < |row| && row[k] == (key, Lookup(row, key))
  {
    if |row| > 0 && row[0].0 != key {
      LookupIn(row[1..], key);
      if Lookup(row[1..], key) != Undefined {
        var k :| 0 <= k < |row[1..]| && row[1..][k] == (key, Lookup(row, key));
        assert row[k + 1] == (key, Lookup(row, key));
      }
    }
  }

  lemma JoinNoLineBreak(parts: seq<string>)
    requires forall i :: 0 <= i < |parts| ==> '\n' !in parts[i]
    ensures '\n' !in Join(parts, ",")
  {
    if |parts| > 1 {
      JoinNoLineBreak(parts[1..]);
    }
  }

  lemma RecordNoLineBreak(data: seq<Row>, i: nat)
    requires |data| > 0 && NoLineBreaks(data) && i <= |data|
    ensures '\n' !in Records(data)[i]
  {
    var headers := Keys(data[0]);
    if i == 0 {
      JoinNoLineBreak(headers);
    } else {
      var cs := Cells(headers, data[i - 1]);
      forall j | 0 <= j < |cs| ensures '\n' !in cs[j] {
        LookupNoLineBreak(data, i - 1, headers[j]);
      }
      JoinNoLineBreak(cs);
    }
  }

  /** Reading the text back line by line: when no header and no string
      holds a line break, the text splits at '\n' into exactly
      |data| + 1 records, the first the first object's keys joined by ','
      without quoting, record i + 1 the cells of object i for the headers in
      order. */
  lemma ExportLines(data: seq<Row>)
    requires |data| > 0 && NoLineBreaks(data)
    ensures var lines := SplitJs(ExportToCsv(data).value, '\n');
            var headers := Keys(data[0]);
            |lines| == |data| + 1
            && lines[0] == Join(headers, ",")
            && forall i :: 0 <= i < |data| ==> lines[i + 1] == Join(Cells(headers, data[i]), ",")
  {
    var recs := Records(data);
    forall i | 0 <= i < |recs| ensures '\n' !in recs[i] {
      RecordNoLineBreak(data, i);
    }
    SplitJoin(recs, '\n');
  }

  /** When the first object's keys hold no ',', the header record splits back
      into those keys. */
  lemma HeaderRecord(data: seq<Row>)
    requires |data| > 0
    requires forall k :: 0 <= k < |data[0]| ==> ',' !in data[0][k].0
    requires |data[0]| > 0
    ensures SplitJs(Records(data)[0], ',') == Keys(data[0])
  {
    SplitJoin(Keys(data[0]), ',');
  }

  /** A record whose cells are all non-strings splits back into its cells:
      numbers, booleans and empty values are written without quotes. */
  lemma PlainRecord(headers: seq<string>, row: Row)
    requires |headers| > 0
    requires forall j :: 0 <= j < |headers| ==> !Lookup(row, headers[j]).Str?
    ensures var cs := Cells(headers, row);
            SplitJs(Join(cs, [',']), ',') == cs
            && forall j :: 0 <= j < |cs| ==> '"' !in cs[j]
  {
    SplitJoin(Cells(headers, row), ',');
  }
}
