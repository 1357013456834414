// scripts/csv.js: `parseRow`, the quote-aware comma tokenizer, and
// `parseCsvText`, which turns a CSV export into a list of missions.

module Csv {
  import opened Wrappers
  import opened JsString
  import opened Helpers
  import opened Data

  // ---------------------------------------------------------------------------
  // parseRow

  /** The tokenizer's state: the finished fields, the field being read, and
      whether a quote is open. */
  datatype Scan = Scan(parts: seq<string>, current: string, inQuotes: bool)

  /** One iteration of the `parseRow` loop: a quote toggles quoted mode and
      is dropped; a comma outside quotes ends the field; any other character
      is appended to the field. */
  function Step(st: Scan, ch: char): Scan {
    if ch == '"' then st.(inQuotes := !st.inQuotes)
    else if ch == ',' && !st.inQuotes then Scan(st.parts + [st.current], "", false)
    else st.(current := st.current + [ch])
  }

  /** The tokenizer's state after reading `row` from its start. */
  function Run(row: string): Scan {
    if row == [] then Scan([], "", false)
    else Step(Run(row[..|row| - 1]), row[|row| - 1])
  }

  /** The fields `parseRow` returns: the finished ones and the last one. */
  function RowFields(row: string): (r: seq<string>)
    ensures |r| == |Run(row).parts| + 1
  {
    Run(row).parts + [Run(row).current]
  }

  /** `parseRow(row)`. */
  method ParseRow(row: string) returns (parts: seq<string>)
    ensures parts == RowFields(row)
  {
    parts := [];
    var current := "";
    var inQuotes := false;
    for i := 0 to |row|
      invariant Scan(parts, current, inQuotes) == Run(row[..i])
    {
      assert row[..i + 1][..i] == row[..i];
      var ch := row[i];
      if ch == '"' {
        inQuotes := !inQuotes;
      } else if ch == ',' && !inQuotes {
        parts := parts + [current];
        current := "";
      } else {
        current := current + [ch];
      }
    }
    assert row[..|row|] == row;
    parts := parts + [current];
  }

  /** Number of commas of `row` preceded by an even number of quotes. */
  function UnquotedCommas(row: string): nat {
    if row == [] then 0
    else
      var front := row[..|row| - 1];
      UnquotedCommas(front) + (if row[|row| - 1] == ',' && Count(front, '"') % 2 == 0 then 1 else 0)
  }

  lemma FrontLast(row: string)
    requires row != []
    ensures row == row[..|row| - 1] + [row[|row| - 1]]
  {
  }

  /** Quoted mode is open exactly when an odd number of quotes has been read. */
  lemma {:induction false} QuoteParity(row: string)
    ensures Run(row).inQuotes <==> Count(row, '"') % 2 == 1
  {
    if row != [] {
      var front := row[..|row| - 1];
      QuoteParity(front);
      FrontLast(row);
      CountAppend(front, [row[|row| - 1]], '"');
    }
  }

  /** `parseRow` returns one field more than there are commas outside quotes. */
  lemma {:induction false} FieldCount(row: string)
    ensures |RowFields(row)| == UnquotedCommas(row) + 1
  {
    PartsCount(row);
  }

  lemma {:induction false} PartsCount(row: string)
    ensures |Run(row).parts| == UnquotedCommas(row)
  {
    if row != [] {
      var front := row[..|row| - 1];
      PartsCount(front);
      QuoteParity(front);
    }
  }

  /** No field of the tokenizer's state holds a quote. */
  predicate QuoteFree(st: Scan) {
    '"' !in st.current && forall k :: 0 <= k < |st.parts| ==> '"' !in st.parts[k]
  }

  lemma {:induction false} RunQuoteFree(row: string)
    ensures QuoteFree(Run(row))
  {
    if row != [] {
      RunQuoteFree(row[..|row| - 1]);
      var st := Run(row[..|row| - 1]);
      var ch := row[|row| - 1];
      if ch != '"' && !(ch == ',' && !st.inQuotes) {
        NotInAppend(st.current, [ch], '"');
      }
    }
  }

  /** A quote never reaches a field, so doubled quotes are not collapsed into one. */
  lemma FieldsHaveNoQuote(row: string)
    ensures forall k :: 0 <= k < |RowFields(row)| ==> '"' !in RowFields(row)[k]
  {
    RunQuoteFree(row);
  }

  /** The fields joined back with commas are the row with its quotes deleted:
      every other character survives, in order. */
  lemma {:induction false} FieldsJoinToRowWithoutQuotes(row: string)
    ensures Join(RowFields(row), ",") == ReplaceAll(row, '"', "")
  {
    if row != [] {
      var front := row[..|row| - 1];
      var ch := row[|row| - 1];
      var st := Run(front);
      FieldsJoinToRowWithoutQuotes(front);
      FrontLast(row);
      ReplaceAllAppend(front, [ch], '"', "");
      ReplaceAllSingle(ch, '"', "");
      if ch == '"' {
      } else if ch == ',' && !st.inQuotes {
        JoinSnoc(st.parts + [st.current], "", ",");
      } else {
        JoinExtendLast(st.parts, st.current, ch, ",");
      }
    }
  }

  /** Without quotes, no field holds a comma. */
  lemma {:induction false} PlainRunHasNoComma(row: string)
    requires '"' !in row
    ensures !Run(row).inQuotes
    ensures ',' !in Run(row).current
    ensures forall k :: 0 <= k < |Run(row).parts| ==> ',' !in Run(row).parts[k]
  {
    if row != [] {
      var front := row[..|row| - 1];
      var ch := row[|row| - 1];
      assert '"' !in front by { FrontLast(row); }
      PlainRunHasNoComma(front);
      var st := Run(front);
      if ch != ',' {
        NotInAppend(st.current, [ch], ',');
      }
    }
  }

  /** On a row without quotes, `parseRow` is `row.split(',')`. */
  lemma PlainRowIsSplit(row: string)
    requires '"' !in row
    ensures RowFields(row) == Split(row, ',')
  {
    PlainRunHasNoComma(row);
    FieldsJoinToRowWithoutQuotes(row);
    JoinSplit(RowFields(row), ',');
  }

  /** Fields free of commas and quotes, joined with commas, are read back unchanged. */
  lemma ParseRowOfJoin(fields: seq<string>)
    requires fields != []
    requires forall k :: 0 <= k < |fields| ==> ',' !in fields[k] && '"' !in fields[k]
    ensures RowFields(Join(fields, ",")) == fields
  {
    JoinWithout(fields, ",", '"');
    PlainRowIsSplit(Join(fields, ","));
    JoinSplit(fields, ',');
  }

  // ---------------------------------------------------------------------------
  // parseCsvText

  /** `text.split(/\r?\n/)`: split on line feeds and drop the carriage return
      that immediately precedes a line feed. */
  function SplitLines(text: string): (r: seq<string>)
    ensures |r| == Count(text, '\n') + 1
  {
    DropCRs(Split(text, '\n'))
  }

  /** Drop one trailing `\r` from every piece but the last. */
  function DropCRs(pieces: seq<string>): (r: seq<string>)
    ensures |r| == |pieces|
    ensures pieces != [] ==> r[|r| - 1] == pieces[|pieces| - 1]
    ensures forall k :: 0 <= k < |pieces| - 1 ==> r[k] == DropCR(pieces[k])
  {
    if |pieces| <= 1 then pieces
    else [DropCR(pieces[0])] + DropCRs(pieces[1..])
  }

  function DropCR(s: string): (r: string)
    ensures s == r || s == r + ['\r']
  {
    if s != [] && s[|s| - 1] == '\r' then s[..|s| - 1] else s
  }

  /** `filter(Boolean)`: the non-empty lines, in order. */
  function NonEmpty(lines: seq<string>): (r: seq<string>)
    ensures |r| <= |lines|
    ensures forall k :: 0 <= k < |r| ==> r[k] != []
    ensures (forall k :: 0 <= k < |lines| ==> lines[k] != []) ==> r == lines
  {
    if lines == [] then []
    else if lines[0] == [] then NonEmpty(lines[1..])
    else [lines[0]] + NonEmpty(lines[1..])
  }

  /** The lines the importer works on. */
  function Lines(text: string): seq<string> {
    NonEmpty(SplitLines(text))
  }

  /** Trim every string. */
  function TrimAll(ss: seq<string>): (r: seq<string>)
    ensures |r| == |ss|
    ensures forall k :: 0 <= k < |ss| ==> r[k] == Trim(ss[k])
  {
    if ss == [] then [] else [Trim(ss[0])] + TrimAll(ss[1..])
  }

  /** Header names: the first line split on every comma (quotes are not
      honoured here), each trimmed. */
  function Headers(line: string): seq<string> {
    TrimAll(Split(line, ','))
  }

  /** The trimmed fields of a data line. */
  function Columns(line: string): seq<string> {
    TrimAll(RowFields(line))
  }

  /** The last position of `name` among the headers: later columns of the same
      name overwrite earlier ones in the `record` object. */
  function LastIndexOf(headers: seq<string>, name: string): (r: Option<nat>)
    ensures r.None? <==> name !in headers
    ensures r.Some? ==> r.value < |headers| && headers[r.value] == name
    ensures r.Some? ==> forall j :: r.value < j < |headers| ==> headers[j] != name
  {
    if headers == [] then None
    else if headers[|headers| - 1] == name then Some(|headers| - 1)
    else LastIndexOf(headers[..|headers| - 1], name)
  }

  /** `record[name] || ''`: the column under the last header called `name`,
      or the empty string when there is no such header or the line is short. */
  function Column(headers: seq<string>, columns: seq<string>, name: string): string {
    match LastIndexOf(headers, name)
    case None => ""
    case Some(i) => if i < |columns| then columns[i] else ""
  }

  /** The id derived from a title: lower-cased, each run of white space turned into `-`. */
  function Slug(title: string): (r: string)
    ensures title != [] ==> r != []
    ensures forall i :: 0 <= i < |r| ==> !IsSpace(r[i])
  {
    ReplaceSpaceRuns(ToLowerCase(title), "-")
  }

  /** The mission built from one data line; `token` stands for the random
      digits used when neither an id nor a title is present. */
  function ToMission(headers: seq<string>, line: string, token: string): Mission {
    var cols := Columns(line);
    Mission(
      Or(Column(headers, cols, "id"), Or(Slug(Column(headers, cols, "title")), token)),
      Column(headers, cols, "title"),
      Column(headers, cols, "subtitle"),
      Column(headers, cols, "focus"),
      Column(headers, cols, "involved"),
      Column(headers, cols, "contact"),
      Column(headers, cols, "body"),
      Column(headers, cols, "image"),
      ParseLinks(Column(headers, cols, "links")))
  }

  /** `parseCsvText(text)`: nothing for a text without non-empty lines,
      otherwise one mission per non-empty line after the header line; the
      k-th record gets `token(k)` as its random id digits. */
  function ParseCsvText(text: string, token: nat -> string): (r: seq<Mission>)
    ensures Lines(text) == [] ==> r == []
    ensures Lines(text) != [] ==> |r| == |Lines(text)| - 1
  {
    var lines := Lines(text);
    if lines == [] then []
    else
      var headers, rows := Headers(lines[0]), lines[1..];
      seq(|rows|, k requires 0 <= k < |rows| => ToMission(headers, rows[k], token(k)))
  }

  /** Every field read from a line is trimmed; a missing header gives the empty string. */
  lemma ColumnTrimmed(headers: seq<string>, line: string, name: string)
    ensures Trimmed(Column(headers, Columns(line), name))
    ensures name !in headers ==> Column(headers, Columns(line), name) == ""
  {
  }

  /** The column under the last header called `name`. */
  lemma ColumnAt(headers: seq<string>, columns: seq<string>, name: string, i: nat)
    requires i < |headers| && headers[i] == name
    requires forall j :: i < j < |headers| ==> headers[j] != name
    ensures Column(headers, columns, name) == if i < |columns| then columns[i] else ""
  {
    var r := LastIndexOf(headers, name);
    assert r.Some?;
    if r.value < i {
    } else if r.value > i {
    }
  }

  /** The id fallback chain: the id column when non-empty; otherwise the slug
      of the title, which is non-empty and free of white space; otherwise the
      random token. */
  lemma MissionIdChain(headers: seq<string>, line: string, token: string)
    ensures var cols := Columns(line);
            var m := ToMission(headers, line, token);
            var idc := Column(headers, cols, "id");
            var t := Column(headers, cols, "title");
            (idc != [] ==> m.id == idc)
            && (idc == [] && t != [] ==> m.id == Slug(t) && m.id != [] && forall i :: 0 <= i < |m.id| ==> !IsSpace(m.id[i]))
            && (idc == [] && t == [] ==> m.id == token)
  {
  }

  /** Every text field of an imported mission is trimmed, whatever the line
      holds, and every parsed link has a caption. */
  lemma MissionFields(headers: seq<string>, line: string, token: string)
    ensures var m := ToMission(headers, line, token);
            Trimmed(m.title) && Trimmed(m.subtitle) && Trimmed(m.focus) && Trimmed(m.involved)
            && Trimmed(m.contact) && Trimmed(m.body) && Trimmed(m.image) && Labelled(m.links)
  {
    forall name | name in {"title", "subtitle", "focus", "involved", "contact", "body", "image"} {
      ColumnTrimmed(headers, line, name);
    }
  }

  /** The k-th imported mission is built from the (k+1)-th non-empty line
      under the names of the header line, with the k-th random token. */
  lemma ImportedMission(text: string, token: nat -> string, k: nat)
    requires Lines(text) != [] && k < |ParseCsvText(text, token)|
    ensures k + 1 < |Lines(text)|
    ensures ParseCsvText(text, token)[k] == ToMission(Headers(Lines(text)[0]), Lines(text)[k + 1], token(k))
  {
    var lines := Lines(text);
    assert lines[1..][k] == lines[k + 1];
  }

  /** Header names split on every comma, quotes included, while data lines
      honour quotes: the two agree exactly on lines without quotes. */
  lemma HeadersOfPlainLine(line: string)
    requires '"' !in line
    ensures Headers(line) == Columns(line)
  {
    PlainRowIsSplit(line);
  }

  /** The header line yields one name per comma plus one, quoted or not,
      while a data line yields one column per comma outside quotes plus one. */
  lemma HeaderAndColumnCounts(line: string)
    ensures |Headers(line)| == Count(line, ',') + 1
    ensures |Columns(line)| == UnquotedCommas(line) + 1
  {
    FieldCount(line);
  }
}
