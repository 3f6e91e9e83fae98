/**
 * The naive CSV reader of the two prediction test scripts (`parseCSV` in
 * test_prediction_flow.js and its copy `csvToJson` in test_early_life_prediction.js).
 * It splits the text on every '\n' and every line on every ',', trims each piece and
 * deletes every '"'. There is no quoting as in section 2 of RFC 4180: a comma inside
 * quotes still splits the field.
 */
module CsvRows {
  import opened JsText

  /** A row object: header name to cell text. */
  type Row = map<string, string>

  /** One header name or cell: `.trim().replace(/"/g, '')`. */
  function CleanField(f: string): string {
    RemoveAll(Trim(f), '"')
  }

  /** A line cut at every ',' and each piece cleaned. */
  function Cells(line: string): seq<string> {
    var parts := Split(line, ',');
    seq(|parts|, k requires 0 <= k < |parts| => CleanField(parts[k]))
  }

  /** `values[index] || ''`: the cell at `index`, or '' past the end of the line. */
  function CellAt(values: seq<string>, index: int): (r: string)
    requires 0 <= index
    ensures index < |values| ==> r == values[index]
    ensures index >= |values| ==> r == []
  {
    if index < |values| && values[index] != [] then values[index] else []
  }

  /** The row object after the `forEach` has visited the first `n` headers. */
  function BuildRow(headers: seq<string>, values: seq<string>, n: nat): Row
    requires n <= |headers|
  {
    if n == 0 then map[] else BuildRow(headers, values, n - 1)[headers[n - 1] := CellAt(values, n - 1)]
  }

  /** The row a non-blank line yields. */
  function RowOf(headers: seq<string>, line: string): Row {
    BuildRow(headers, Cells(line), |headers|)
  }

  /** The rows the lines after the header yield: one per non-blank line, in order. */
  function RowsOf(headers: seq<string>, lines: seq<string>): seq<Row>
  {
    if lines == [] then []
    else
      var last := lines[|lines| - 1];
      RowsOf(headers, lines[..|lines| - 1]) + (if IsBlank(last) then [] else [RowOf(headers, last)])
  }

  /** The header names: the first line's cells. */
  function Headers(text: string): seq<string> {
    Cells(Split(text, '\n')[0])
  }

  /** What the reader returns for a whole text. */
  function ParsedRows(text: string): seq<Row> {
    var lines := Split(text, '\n');
    RowsOf(Headers(text), lines[1..])
  }

  /** One more line: its row, if it is not blank, goes after the rows of the lines before it. */
  lemma RowsOfStep(headers: seq<string>, lines: seq<string>, i: int)
    requires 1 <= i < |lines|
    ensures RowsOf(headers, lines[1..i + 1]) ==
            RowsOf(headers, lines[1..i]) + (if IsBlank(lines[i]) then [] else [RowOf(headers, lines[i])])
  {
    var seen := lines[1..i + 1];
    assert seen[..|seen| - 1] == lines[1..i] && seen[|seen| - 1] == lines[i];
  }

  /** `parseCSV` / `csvToJson`: the loop over lines and, per kept line, over the headers. */
  method ParseCsv(text: string) returns (data: seq<Row>)
    ensures data == ParsedRows(text)
  {
    var lines := Split(text, '\n');
    var headers := Cells(lines[0]);
    data := [];
    for i := 1 to |lines|
      invariant data == RowsOf(headers, lines[1..i])
    {
      RowsOfStep(headers, lines, i);
      if !IsBlank(lines[i]) {
        var row := MakeRow(headers, Cells(lines[i]));
        data := data + [row];
      }
    }
    assert lines[1..|lines|] == lines[1..];
  }

  /** The `headers.forEach` that fills one row object key by key. */
  method MakeRow(headers: seq<string>, values: seq<string>) returns (row: Row)
    ensures row == BuildRow(headers, values, |headers|)
  {
    row := map[];
    for index := 0 to |headers|
      invariant row == BuildRow(headers, values, index)
    {
      row := row[headers[index] := CellAt(values, index)];
    }
  }

  /** The non-blank lines, in order. */
  function NonBlank(lines: seq<string>): seq<string> {
    if lines == [] then []
    else
      var last := lines[|lines| - 1];
      NonBlank(lines[..|lines| - 1]) + (if IsBlank(last) then [] else [last])
  }

  /** Row `k` is the row of the `k`-th non-blank line, and there are no other rows. */
  lemma {:induction false} RowsFollowNonBlankLines(headers: seq<string>, lines: seq<string>)
    ensures |RowsOf(headers, lines)| == |NonBlank(lines)|
    ensures forall k :: 0 <= k < |RowsOf(headers, lines)| ==>
              RowsOf(headers, lines)[k] == RowOf(headers, NonBlank(lines)[k])
  {
    if lines != [] {
      var init, last := lines[..|lines| - 1], lines[|lines| - 1];
      RowsFollowNonBlankLines(headers, init);
      if !IsBlank(last) {
        var rows, kept := RowsOf(headers, lines), NonBlank(lines);
        assert rows == RowsOf(headers, init) + [RowOf(headers, last)];
        assert kept == NonBlank(init) + [last];
        forall k | 0 <= k < |rows| ensures rows[k] == RowOf(headers, kept[k]) {
          if k == |rows| - 1 {
            assert rows[k] == RowOf(headers, last) && kept[k] == last;
          }
        }
      }
    }
  }

  /** Only non-blank lines are kept, and every non-blank line is. */
  lemma {:induction false} NonBlankKeeps(lines: seq<string>)
    ensures forall k :: 0 <= k < |NonBlank(lines)| ==> !IsBlank(NonBlank(lines)[k])
    ensures forall k :: 0 <= k < |lines| && !IsBlank(lines[k]) ==> lines[k] in NonBlank(lines)
  {
    if lines != [] {
      var init := lines[..|lines| - 1];
      NonBlankKeeps(init);
      forall k | 0 <= k < |lines| - 1 && !IsBlank(lines[k]) ensures lines[k] in NonBlank(lines) {
        assert init[k] == lines[k];
      }
    }
  }

  /** A text yields one row per non-blank line after the first, and row `k` comes from the `k`-th of them. */
  lemma RowCount(text: string)
    ensures var lines := Split(text, '\n');
            |ParsedRows(text)| == |NonBlank(lines[1..])| &&
            forall k :: 0 <= k < |ParsedRows(text)| ==>
              ParsedRows(text)[k] == RowOf(Headers(text), NonBlank(lines[1..])[k])
  {
    RowsFollowNonBlankLines(Headers(text), Split(text, '\n')[1..]);
  }

  /** Occurrences of the header `x` among the first `n` headers; `i` is the last of them. */
  predicate LastAmong(headers: seq<string>, n: int, x: string, i: int) {
    0 <= i < n <= |headers| && headers[i] == x && forall j :: i < j < n ==> headers[j] != x
  }

  lemma {:induction false} BuildRowKeys(headers: seq<string>, values: seq<string>, n: nat)
    requires n <= |headers|
    ensures BuildRow(headers, values, n).Keys == set k | 0 <= k < n :: headers[k]
  {
    if n > 0 {
      BuildRowKeys(headers, values, n - 1);
      assert (set k | 0 <= k < n :: headers[k]) == (set k | 0 <= k < n - 1 :: headers[k]) + {headers[n - 1]};
    }
  }

  lemma {:induction false} BuildRowValue(headers: seq<string>, values: seq<string>, n: nat, x: string, i: int)
    requires n <= |headers| && LastAmong(headers, n, x, i)
    ensures x in BuildRow(headers, values, n) && BuildRow(headers, values, n)[x] == CellAt(values, i)
  {
    if i < n - 1 {
      BuildRowValue(headers, values, n - 1, x, i);
    }
  }

  /**
   * Every row has exactly the header names as keys (cells past the last header are
   * dropped), and a header's value comes from the last column with that name: its cell
   * cleaned, or '' where the line is short.
   */
  lemma RowShape(headers: seq<string>, line: string, x: string, i: int)
    requires LastAmong(headers, |headers|, x, i)
    ensures RowOf(headers, line).Keys == set k | 0 <= k < |headers| :: headers[k]
    ensures var parts := Split(line, ',');
            RowOf(headers, line)[x] == if i < |parts| then CleanField(parts[i]) else []
  {
    BuildRowKeys(headers, Cells(line), |headers|);
    BuildRowValue(headers, Cells(line), |headers|, x, i);
  }

  /** The line `"x,y",z` falls apart at both commas. */
  lemma QuotedLineSplit()
    ensures Split("\"x,y\",z", ',') == ["\"x", "y\"", "z"]
  {
    assert Split("z", ',') == ["z"] by {
      assert "z"[1..] == "";
      assert ['z'] + "" == "z";
    }
    assert Split(",z", ',') == ["", "z"] by { assert ",z"[1..] == "z"; }
    assert Split("\",z", ',') == ["\"", "z"] by {
      assert "\",z"[1..] == ",z";
      assert ['"'] + "" == "\"";
    }
    assert Split("y\",z", ',') == ["y\"", "z"] by {
      assert "y\",z"[1..] == "\",z";
      assert ['y'] + "\"" == "y\"";
    }
    assert Split(",y\",z", ',') == ["", "y\"", "z"] by { assert ",y\",z"[1..] == "y\",z"; }
    assert Split("x,y\",z", ',') == ["x", "y\"", "z"] by {
      assert "x,y\",z"[1..] == ",y\",z";
      assert ['x'] + "" == "x";
    }
    assert "\"x,y\",z"[1..] == "x,y\",z";
    assert ['"'] + "x" == "\"x";
  }

  lemma CleanOpeningQuote()
    ensures CleanField("\"x") == "x"
  {
    TrimUnchanged("\"x");
    assert "\"x"[1..] == "x";
  }

  lemma CleanClosingQuote()
    ensures CleanField("y\"") == "y"
  {
    TrimUnchanged("y\"");
    assert "y\""[1..] == "\"";
    assert RemoveAll("\"", '"') == [];
    assert ['y'] + [] == "y";
  }

  lemma CleanPlain()
    ensures CleanField("z") == "z"
  {
    TrimUnchanged("z");
  }

  lemma CellsOfThree(line: string, p0: string, p1: string, p2: string)
    requires Split(line, ',') == [p0, p1, p2]
    ensures Cells(line) == [CleanField(p0), CleanField(p1), CleanField(p2)]
  {
    var r := Cells(line);
    assert |r| == 3;
  }

  lemma QuotedLineCells()
    ensures Cells("\"x,y\",z") == ["x", "y", "z"]
  {
    QuotedLineSplit();
    CleanOpeningQuote();
    CleanClosingQuote();
    CleanPlain();
    CellsOfThree("\"x,y\",z", "\"x", "y\"", "z");
  }

  lemma RowOfTwoHeaders(h0: string, h1: string, v: seq<string>)
    requires |v| >= 2
    ensures BuildRow([h0, h1], v, 2) == map[h0 := v[0]][h1 := v[1]]
  {
    var h := [h0, h1];
    assert BuildRow(h, v, 1) == map[h0 := v[0]] by {
      assert BuildRow(h, v, 0) == map[];
    }
  }

  /** A quoted comma splits the cell: header `a,b` and line `"x,y",z` give a = x and b = y. */
  lemma QuotedCommaSplits()
    ensures RowOf(["a", "b"], "\"x,y\",z") == map["a" := "x", "b" := "y"]
  {
    QuotedLineCells();
    RowOfTwoHeaders("a", "b", ["x", "y", "z"]);
    assert RowOf(["a", "b"], "\"x,y\",z") == BuildRow(["a", "b"], ["x", "y", "z"], 2);
  }
}

/** The checks the two test scripts run on the parsed rows. */
module PredictionScripts {
  import opened Wrappers
  import opened CsvRows
  import opened JsText

  const RequiredFields: seq<string> := ["Barcode", "Cycle", "Capacity", "Voltage", "Temperature"]

  datatype FieldReport = Present(field: string, value: string) | Missing(field: string)

  /**
   * The presence check on the first row of test_prediction_flow.js. With no rows the first
   * row is `undefined` and reading a field of it throws: `None`.
   */
  function CheckRequired(rows: seq<Row>): (r: Option<seq<FieldReport>>)
    ensures r.None? <==> rows == []
    ensures r.Some? ==>
              |r.value| == |RequiredFields| &&
              forall k :: 0 <= k < |RequiredFields| ==>
                r.value[k].field == RequiredFields[k] &&
                (r.value[k].Present? <==> RequiredFields[k] in rows[0]) &&
                (r.value[k].Present? ==> r.value[k].value == rows[0][RequiredFields[k]])
  {
    if rows == [] then None
    else
      var first := rows[0];
      Some(seq(|RequiredFields|, k requires 0 <= k < |RequiredFields| =>
        if RequiredFields[k] in first then Present(RequiredFields[k], first[RequiredFields[k]])
        else Missing(RequiredFields[k])))
  }

  /** The first row's keys are exactly the header names. */
  lemma FirstRowKeys(text: string)
    requires ParsedRows(text) != []
    ensures ParsedRows(text)[0].Keys == set j | 0 <= j < |Headers(text)| :: Headers(text)[j]
  {
    var lines := Split(text, '\n');
    var headers := Headers(text);
    RowCount(text);
    var line := NonBlank(lines[1..])[0];
    assert ParsedRows(text)[0] == RowOf(headers, line);
    BuildRowKeys(headers, Cells(line), |headers|);
  }

  /** Since every row carries every header, a required field is reported present iff it is a header name. */
  lemma RequiredPresentIffHeader(text: string, k: int)
    requires 0 <= k < |RequiredFields| && ParsedRows(text) != []
    ensures CheckRequired(ParsedRows(text)).value[k].Present? <==> RequiredFields[k] in Headers(text)
  {
    FirstRowKeys(text);
    PresentIffKey(ParsedRows(text), Headers(text), k);
  }

  lemma PresentIffKey(rows: seq<Row>, headers: seq<string>, k: int)
    requires 0 <= k < |RequiredFields| && rows != []
    requires rows[0].Keys == set j | 0 <= j < |headers| :: headers[j]
    ensures CheckRequired(rows).value[k].Present? <==> RequiredFields[k] in headers
  {
    var x := RequiredFields[k];
    if x in headers {
      var i :| 0 <= i < |headers| && headers[i] == x;
      assert x in (set j | 0 <= j < |headers| :: headers[j]);
    }
  }

  datatype Colour = Green | Yellow | Red

  /** The colour mark for an integer confidence percentage in test_early_life_prediction.js. */
  function ConfidenceColour(percent: int): (c: Colour)
    ensures c == Green <==> percent >= 80
    ensures c == Yellow <==> 60 <= percent < 80
    ensures c == Red <==> percent < 60
  {
    if percent >= 80 then Green else if percent >= 60 then Yellow else Red
  }

  function Rank(c: Colour): nat {
    match c
    case Red => 0
    case Yellow => 1
    case Green => 2
  }

  /** A higher confidence never gets a worse colour. */
  lemma ColourMonotone(p: int, q: int)
    requires p <= q
    ensures Rank(ConfidenceColour(p)) <= Rank(ConfidenceColour(q))
  {
  }
}
