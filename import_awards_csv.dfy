/** scripts/import-awards-csv.js: the naive CSV reader (`parseCSV`) and the
    per-month summary `main` prints before saving.  Reading the file and
    posting the awards are I/O and stay outside the model. */
module ImportAwardsCsv {
  import opened Wrappers
  import opened Text
  import opened Domain
  import opened Grouping
  import ExportAwards

  /** One award as `parseCSV` builds it.  The first field is always there
      (a split yields at least one piece); a missing later field is
      `undefined` (`None`), and `parseInt` of a missing or malformed field
      is `NaN` (`None`). */
  datatype ParsedAward = ParsedAward(
    playerId: string, category: Option<string>,
    month: Option<int>, year: Option<int>, monthName: Option<string>)

  /** `values[i]`, `undefined` past the end. */
  function Field(values: seq<string>, i: nat): (r: Option<string>)
    ensures r.Some? <==> i < |values|
    ensures r.Some? ==> r.value == values[i]
  {
    if i < |values| then Some(values[i]) else None
  }

  /** `parseInt(values[i])`. */
  function NumberField(values: seq<string>, i: nat): Option<int> {
    match Field(values, i)
    case None => None
    case Some(s) => ParseInt(s)
  }

  /** One data line: the comma-separated fields by position. */
  function ParseLine(line: string): ParsedAward {
    var values := Split(line, ',');
    ParsedAward(values[0], Field(values, 1), NumberField(values, 2), NumberField(values, 3), Field(values, 4))
  }

  /** `csvContent.trim().split('\n')`. */
  function CsvLines(content: string): (lines: seq<string>)
    ensures |lines| >= 1
  {
    Split(Trim(content), '\n')
  }

  /** `parseCSV`: the first line is taken as the header and dropped, every
      further line becomes one award, in order. */
  method ParseCsv(content: string) returns (awards: seq<ParsedAward>)
    ensures |awards| == |CsvLines(content)| - 1
    ensures forall i :: 0 <= i < |awards| ==> awards[i] == ParseLine(CsvLines(content)[i + 1])
  {
    awards := ParseLines(CsvLines(content), ParseLine);
  }

  /** The `for` loop over the lines after the header, with the line
      parser as `parse`. */
  method ParseLines(lines: seq<string>, parse: string -> ParsedAward) returns (awards: seq<ParsedAward>)
    requires |lines| >= 1
    ensures |awards| == |lines| - 1
    ensures forall i :: 0 <= i < |awards| ==> awards[i] == parse(lines[i + 1])
  {
    awards := [];
    var i := 1;
    while i < |lines|
      invariant 1 <= i <= |lines|
      invariant |awards| == i - 1
      invariant forall j :: 0 <= j < |awards| ==> awards[j] == parse(lines[j + 1])
    {
      awards := awards + [parse(lines[i])];
      i := i + 1;
    }
  }

  // ---------------------------------------------------------------------
  // Round trip with the exporter.

  /** What reading back a row of the export gives: the printed id (the
      text `undefined` for a row without one) and the other four fields. */
  function ReadBack(r: AwardRow): ParsedAward {
    ParsedAward(ExportAwards.IdText(r.playerId), Some(r.category), Some(r.month), Some(r.year), Some(r.monthName))
  }

  /** A row the unquoted format can carry: its text fields hold neither a
      comma nor a line break, and its month name is not empty and does not
      end in white space (the reader trims the whole text). */
  predicate Carriable(r: AwardRow) {
    && ',' !in ExportAwards.IdText(r.playerId) && '\n' !in ExportAwards.IdText(r.playerId)
    && ',' !in r.category && '\n' !in r.category
    && ',' !in r.monthName && '\n' !in r.monthName
    && r.monthName != [] && !IsWhite(r.monthName[|r.monthName| - 1])
  }

  function Fields(r: AwardRow): seq<string> {
    [ExportAwards.IdText(r.playerId), r.category, IntToString(r.month), IntToString(r.year), r.monthName]
  }

  /** A line of the export splits back into its five fields. */
  lemma LineSplits(r: AwardRow)
    requires Carriable(r)
    ensures Split(ExportAwards.CsvLine(r), ',') == Fields(r)
  {
    IntToStringClean(r.month, ',');
    IntToStringClean(r.year, ',');
    SplitOfJoin(Fields(r), ',');
  }

  /** A line of the export holds no line break and ends visibly. */
  lemma LineWhole(r: AwardRow)
    requires Carriable(r)
    ensures LineOk(ExportAwards.CsvLine(r))
  {
    var fs := Fields(r);
    IntToStringClean(r.month, '\n');
    IntToStringClean(r.year, '\n');
    JoinAvoids(fs, ',', '\n');
    JoinLast(fs, ',');
  }

  /** Parsing a line of the export gives back the row's fields. */
  lemma LineRoundTrip(r: AwardRow)
    requires Carriable(r)
    ensures ParseLine(ExportAwards.CsvLine(r)) == ReadBack(r)
    ensures LineOk(ExportAwards.CsvLine(r))
  {
    LineSplits(r);
    ParseIntOfIntToString(r.month);
    ParseIntOfIntToString(r.year);
    LineWhole(r);
  }

  lemma HeaderFacts()
    ensures LineOk(ExportAwards.Header) && !IsWhite(ExportAwards.Header[0])
  {
  }

  /** Lines free of line breaks whose text starts and ends with a visible
      character are what `trim().split('\n')` recovers from their join. */
  lemma {:induction false} LinesBack(ls: seq<string>)
    requires |ls| >= 1
    requires forall i :: 0 <= i < |ls| ==> LineOk(ls[i])
    requires ls[0] != [] && !IsWhite(ls[0][0])
    ensures CsvLines(Join(ls, '\n')) == ls
  {
    var s := Join(ls, '\n');
    assert LineOk(ls[0]) && LineOk(ls[|ls| - 1]);
    JoinFirst(ls, '\n');
    JoinLast(ls, '\n');
    assert Trimmed(s);
    assert Trim(s) == s;
    SplitOfJoin(ls, '\n');
  }

  /** A line the reader keeps whole: no line break, and a visible last
      character. */
  predicate LineOk(l: string) {
    '\n' !in l && l != [] && !IsWhite(l[|l| - 1])
  }

  /** A header line that is visible at both ends, followed by such lines, is
      read back line for line. */
  lemma HeadedLinesBack(h: string, body: seq<string>)
    requires LineOk(h) && !IsWhite(h[0])
    requires forall i :: 0 <= i < |body| ==> LineOk(body[i])
    ensures CsvLines(Join([h] + body, '\n')) == [h] + body
  {
    var ls := [h] + body;
    forall i | 0 <= i < |ls| ensures LineOk(ls[i]) {
      if i > 0 {
        assert ls[i] == body[i - 1];
      }
    }
    LinesBack(ls);
  }

  lemma PrintedLinesOk(rows: seq<AwardRow>, body: seq<string>)
    requires forall i :: 0 <= i < |rows| ==> Carriable(rows[i])
    requires |body| == |rows| && forall i :: 0 <= i < |rows| ==> body[i] == ExportAwards.CsvLine(rows[i])
    ensures forall i :: 0 <= i < |body| ==> LineOk(body[i])
  {
    forall i | 0 <= i < |rows| ensures LineOk(body[i]) {
      LineRoundTrip(rows[i]);
    }
  }

  /** The header followed by lines the reader keeps whole is read back line
      for line. */
  lemma HeaderAndLinesBack(body: seq<string>)
    requires forall i :: 0 <= i < |body| ==> LineOk(body[i])
    ensures CsvLines(Join([ExportAwards.Header] + body, '\n')) == [ExportAwards.Header] + body
  {
    HeaderFacts();
    HeadedLinesBack(ExportAwards.Header, body);
  }

  lemma PrintedBack(rows: seq<AwardRow>, body: seq<string>)
    requires forall i :: 0 <= i < |rows| ==> Carriable(rows[i])
    requires |body| == |rows| && forall i :: 0 <= i < |rows| ==> body[i] == ExportAwards.CsvLine(rows[i])
    ensures CsvLines(Join([ExportAwards.Header] + body, '\n')) == [ExportAwards.Header] + body
  {
    PrintedLinesOk(rows, body);
    HeaderAndLinesBack(body);
  }

  /** The text the exporter writes is already trimmed and splits back into
      the header and its lines. */
  lemma CsvTextLines(rows: seq<AwardRow>)
    requires forall i :: 0 <= i < |rows| ==> Carriable(rows[i])
    ensures CsvLines(Join([ExportAwards.Header] + ExportAwards.Lines(rows), '\n'))
         == [ExportAwards.Header] + ExportAwards.Lines(rows)
  {
    PrintedBack(rows, ExportAwards.Lines(rows));
  }

  /** Reading back the export recovers every row, in order, when each row
      can be carried without quoting. */
  lemma RoundTrip(rows: seq<AwardRow>)
    requires forall i :: 0 <= i < |rows| ==> Carriable(rows[i])
    ensures var lines := CsvLines(Join([ExportAwards.Header] + ExportAwards.Lines(rows), '\n'));
      && |lines| - 1 == |rows|
      && forall i :: 0 <= i < |rows| ==> ParseLine(lines[i + 1]) == ReadBack(rows[i])
  {
    CsvTextLines(rows);
    forall i | 0 <= i < |rows| ensures ParseLine(ExportAwards.CsvLine(rows[i])) == ReadBack(rows[i]) {
      LineRoundTrip(rows[i]);
    }
  }

  /** A comma inside a field shifts the later fields: the unquoted format
      does not carry such a row. */
  lemma CommaBreaksRoundTrip()
    ensures var r := AwardRow(Some("a,b"), "c", 7, 2025, "August");
      ParseLine(ExportAwards.CsvLine(r)) != ReadBack(r)
  {
    var r := AwardRow(Some("a,b"), "c", 7, 2025, "August");
    var l := ExportAwards.CsvLine(r);
    assert ',' !in Split(l, ',')[0];
    assert ReadBack(r).playerId[1] == ',';
  }

  // ---------------------------------------------------------------------
  // The per-month summary.

  /** `${month_name} ${year}`: template literals print `undefined` and
      `NaN` for the missing values. */
  function MonthLabel(a: ParsedAward): string {
    (match a.monthName case None => "undefined" case Some(n) => n)
    + " "
    + (match a.year case None => "NaN" case Some(y) => IntToString(y))
  }

  /** The grouping in `main` and the count it prints per month: one entry
      per distinct label in first-seen order, and the counts add up to the
      number of awards read. */
  method MonthCounts(awards: seq<ParsedAward>) returns (summary: seq<(string, nat)>)
    ensures |summary| == |KeysOf(awards, MonthLabel)|
    ensures forall i :: 0 <= i < |summary| ==>
      summary[i].0 == KeysOf(awards, MonthLabel)[i]
      && summary[i].1 == |Members(awards, MonthLabel, summary[i].0)|
    ensures CountsTotal(summary) == |awards|
  {
    summary := GroupCounts(awards, MonthLabel);
  }
}
