/**
  The renderer of the k6 report generator: the four fixed test cases, the
  cell formatters, one table row per case and the page around the rows.
 */
module Report {
  import opened Wrappers
  import opened NumberText
  import opened Metrics

  /** One summary file the report knows about, with the name and description its row shows. */
  datatype Case = Case(file: string, name: string, description: string)

  const Cases: seq<Case> := [
    Case("smoke.json", "Smoke", "3 VUs, 10s"),
    Case("load.json", "Load (50 VUs)", "10→50 VUs, ~1.5 min"),
    Case("load-500.json", "Load (500 VUs)", "100→500 VUs, ~2 min"),
    Case("load-7000.json", "Load (7000 VUs)", "1000→7000 VUs, ~4.5 min")
  ]

  /** What a cell shows when there is no number. */
  const Placeholder: string := "—"

  predicate IsIntegral(x: real) { x.Floor as real == x }

  predicate EndsWith(s: string, suffix: string) {
    |suffix| <= |s| && s[|s| - |suffix|..] == suffix
  }

  /** Appending a unit leaves the number as the prefix and the unit as the suffix. */
  /** `formatNum`: the placeholder, two decimals, or the plain integer. */
  function FormatNum(n: Option<real>): (s: string)
    ensures s == Placeholder <==> n.None?
    ensures n.Some? ==> ('.' in s <==> !IsIntegral(n.value) || n.value > 1000000.0)
    ensures n.Some? && (!IsIntegral(n.value) || n.value > 1000000.0) ==> ReadsAsHundredths(s, n.value)
    ensures n.Some? && IsIntegral(n.value) && n.value <= 1000000.0 ==> ParseInt(s) == Some(n.value.Floor)
    ensures n.Some? && (!IsIntegral(n.value) || n.value > 1000000.0) ==> s == ToFixed2(n.value)
    ensures n.Some? && IsIntegral(n.value) && n.value <= 1000000.0 ==> s == IntToString(n.value.Floor)
  {
    match n
    case None => Placeholder
    case Some(x) =>
      if !IsIntegral(x) || x > 1000000.0 then ToFixed2(x) else IntToString(x.Floor)
  }

  /** `formatMs`: the placeholder, seconds to two decimals from 1000 up, whole milliseconds below. */
  function FormatMs(n: Option<real>): (s: string)
    ensures s == Placeholder <==> n.None?
    ensures n.Some? ==> (EndsWith(s, " s") <==> n.value >= 1000.0)
    ensures n.Some? && n.value >= 1000.0 ==> ReadsAsHundredths(s[..|s| - 2], n.value / 1000.0)
    ensures n.Some? && n.value < 1000.0 ==>
      EndsWith(s, " ms") &&
      var k := ParseInt(s[..|s| - 3]);
      k.Some? && k.value as real - 0.5 <= n.value < k.value as real + 0.5
    ensures n.Some? && n.value >= 1000.0 ==> s == ToFixed2(n.value / 1000.0) + " s"
    ensures n.Some? && n.value < 1000.0 ==> s == IntToString(RoundHalfUp(n.value)) + " ms"
  {
    match n
    case None => Placeholder
    case Some(x) =>
      if x >= 1000.0 then
        var t := ToFixed2(x / 1000.0);
        assert (t + " s")[..|t|] == t;
        t + " s"
      else
        var t := IntToString(RoundHalfUp(x));
        assert (t + " ms")[..|t|] == t;
        assert (t + " ms")[|t| + 1..] == "ms";
        t + " ms"
  }

  /** The failed-rate cell: the placeholder, or the rate as a percentage to two decimals. */
  function FormatRate(rate: Option<real>): (s: string)
    ensures s == Placeholder <==> rate.None?
    ensures rate.Some? ==> EndsWith(s, "%") && ReadsAsHundredths(s[..|s| - 1], rate.value * 100.0)
    ensures rate.Some? ==> s == ToFixed2(rate.value * 100.0) + "%"
  {
    if rate.None? then Placeholder
    else
      var t := ToFixed2(rate.value * 100.0);
      var s := t + "%";
      assert s[..|s| - 1] == t;
      assert s[|s| - 1..] == "%";
      assert |s| != |Placeholder|;
      s
  }

  // ---------------------------------------------------------------------
  // The table: its columns as the header declares them, and the rows.

  /** What a column shows: a part of the case, or one field under one formatter. */
  datatype Kind = CaseName | CaseDescription | Count(f: Field) | Duration(f: Field) | Percent(f: Field)

  datatype Column = Column(title: string, kind: Kind)

  const Columns: seq<Column> := [
    Column("Case", CaseName),
    Column("Description", CaseDescription),
    Column("Iterations", Count(Iterations)),
    Column("HTTP requests", Count(HttpReqsCount)),
    Column("Req/s", Count(HttpReqsRate)),
    Column("Duration avg", Duration(DurationAvg)),
    Column("Duration p95", Duration(DurationP95)),
    Column("Duration min", Duration(DurationMin)),
    Column("Duration max", Duration(DurationMax)),
    Column("Failed rate", Percent(FailedRate)),
    Column("VUs max", Count(VusMax))
  ]

  /** `r.metrics && r.metrics.<field>`: nothing when the whole record is missing. */
  function Project(m: Option<Extracted>, f: Field): (v: Option<real>)
    ensures m.None? ==> v.None?
    ensures m.Some? ==> v == Get(m.value, f)
  {
    if m.Some? then Get(m.value, f) else None
  }

  /** The text of the cell of kind `k` in the row of case `c`. */
  function Cell(c: Case, m: Option<Extracted>, k: Kind): string {
    match k
    case CaseName => c.name
    case CaseDescription => c.description
    case Count(f) => FormatNum(Project(m, f))
    case Duration(f) => FormatMs(Project(m, f))
    case Percent(f) => FormatRate(Project(m, f))
  }

  /** The eleven cell texts of one row, in the order the row template writes them. */
  function RowCells(c: Case, m: Option<Extracted>): (cells: seq<string>)
    ensures |cells| == |Columns| == 11
  {
    [ c.name,
      c.description,
      FormatNum(Project(m, Iterations)),
      FormatNum(Project(m, HttpReqsCount)),
      FormatNum(Project(m, HttpReqsRate)),
      FormatMs(Project(m, DurationAvg)),
      FormatMs(Project(m, DurationP95)),
      FormatMs(Project(m, DurationMin)),
      FormatMs(Project(m, DurationMax)),
      FormatRate(Project(m, FailedRate)),
      FormatNum(Project(m, VusMax)) ]
  }

  /** Cell `i` of every row is what the header's column `i` announces. */
  lemma RowFollowsHeader(c: Case, m: Option<Extracted>, i: nat)
    requires i < |Columns|
    ensures RowCells(c, m)[i] == Cell(c, m, Columns[i].kind)
  {
    var cells := RowCells(c, m);
    var k := Columns[i].kind;
    if i == 0 { assert k == CaseName; }
    else if i == 1 { assert k == CaseDescription; }
    else if i == 2 { assert k == Count(Iterations); }
    else if i == 3 { assert k == Count(HttpReqsCount); }
    else if i == 4 { assert k == Count(HttpReqsRate); }
    else if i == 5 { assert k == Duration(DurationAvg); }
    else if i == 6 { assert k == Duration(DurationP95); }
    else if i == 7 { assert k == Duration(DurationMin); }
    else if i == 8 { assert k == Duration(DurationMax); }
    else if i == 9 { assert k == Percent(FailedRate); }
    else { assert k == Count(VusMax); }
  }

  /** A case joined with what was extracted from its file. */
  datatype Run = Run(c: Case, metrics: Option<Extracted>)

  function Td(cell: string): string { "<td>" + cell + "</td>" }

  /** The markup of one row; the case name is set in bold. */
  function RowHtml(run: Run): string {
    var cells := RowCells(run.c, run.metrics);
    "<tr>" + "<td><strong>" + cells[0] + "</strong></td>"
      + Td(cells[1]) + Td(cells[2]) + Td(cells[3]) + Td(cells[4]) + Td(cells[5])
      + Td(cells[6]) + Td(cells[7]) + Td(cells[8]) + Td(cells[9]) + Td(cells[10])
      + "</tr>"
  }

  /** `parts.join('')`. */
  function Concat(parts: seq<string>): string {
    if |parts| == 0 then "" else parts[0] + Concat(parts[1..])
  }

  /** The joined text is the parts before `i`, then part `i`, then the parts after it. */
  lemma {:induction false} ConcatSplit(parts: seq<string>, i: nat)
    requires i < |parts|
    ensures Concat(parts) == Concat(parts[..i]) + parts[i] + Concat(parts[i + 1..])
    decreases i
  {
    if i == 0 {
      assert parts[..0] == [];
    } else {
      ConcatSplit(parts[1..], i - 1);
      assert parts[1..][..i - 1] == parts[..i][1..];
      assert parts[1..][i..] == parts[i + 1..];
    }
  }

  /** `CASES.map(...)`: each case with its file loaded (None on any failure) and extracted. */
  function Runs(load: string -> Option<Document>): (runs: seq<Run>)
    ensures |runs| == |Cases|
    ensures forall i :: 0 <= i < |Cases| ==> runs[i].c == Cases[i] && runs[i].metrics == ExtractMetrics(load(Cases[i].file))
  {
    seq(|Cases|, i requires 0 <= i < |Cases| => Run(Cases[i], ExtractMetrics(load(Cases[i].file))))
  }

  /** `runs.map(...)`: one row of markup per run, in the same order. */
  function RowMarkups(runs: seq<Run>): (rows: seq<string>)
    ensures |rows| == |runs|
    ensures forall i :: 0 <= i < |runs| ==> rows[i] == RowHtml(runs[i])
  {
    seq(|runs|, i requires 0 <= i < |runs| => RowHtml(runs[i]))
  }

  function HeaderCells(): seq<string> {
    seq(|Columns|, i requires 0 <= i < |Columns| => "<th>" + Columns[i].title + "</th>")
  }

  /** The page up to and including the opening of the table body. */
  function Head(): string {
    "<!DOCTYPE html><html lang=\"en\"><head><meta charset=\"UTF-8\">"
      + "<title>AMMA-Stress k6 Report</title></head><body><h1>AMMA-Stress k6 Report</h1>"
      + "<p class=\"meta\">Generated from pipeline run. All cases and metrics below.</p>"
      + "<table><thead><tr>" + Concat(HeaderCells()) + "</tr></thead><tbody>"
  }

  /** The page from the closing of the table body on. */
  function Tail(): string {
    "</tbody></table><footer>AMMA / Cage Calls API · k6 stress tests · "
      + "stress/smoke.js, load.js, load-500.js, load-7000.js</footer></body></html>"
  }

  /** `buildHtml`, with the results directory given as the document each file name loads to. */
  function BuildHtml(load: string -> Option<Document>): string {
    Head() + Concat(RowMarkups(Runs(load))) + Tail()
  }

  // ---------------------------------------------------------------------
  // Properties of the report.

  /** The page holds one row per case, in the order of `Cases`, and row `i` shows case `i` with its own file's figures. */
  lemma RowsFollowCases(load: string -> Option<Document>, i: nat)
    requires i < |Cases|
    ensures |RowMarkups(Runs(load))| == |Cases| == 4
    ensures RowMarkups(Runs(load))[i] == RowHtml(Run(Cases[i], ExtractMetrics(load(Cases[i].file))))
    ensures
      var cells := RowCells(Cases[i], ExtractMetrics(load(Cases[i].file)));
      cells[0] == Cases[i].name && cells[1] == Cases[i].description
  {
  }

  /** On the page, row `i` stands right after rows `..i` and right before rows `i+1..`. */
  lemma PageSplitsAtRow(load: string -> Option<Document>, i: nat)
    requires i < |Cases|
    ensures
      var rows := RowMarkups(Runs(load));
      BuildHtml(load) == Head() + (Concat(rows[..i]) + rows[i] + Concat(rows[i + 1..])) + Tail()
  {
    ConcatSplit(RowMarkups(Runs(load)), i);
  }

  /** Each case reads a file of its own. */
  lemma CaseFilesDistinct(i: nat, j: nat)
    requires i < |Cases| && j < |Cases| && i != j
    ensures Cases[i].file != Cases[j].file
  {
  }

  /** What one file holds changes no other case's row. */
  lemma OtherRowsIgnoreFile(load1: string -> Option<Document>, load2: string -> Option<Document>, i: nat)
    requires i < |Cases|
    requires forall j :: 0 <= j < |Cases| && j != i ==> load1(Cases[j].file) == load2(Cases[j].file)
    ensures Runs(load1)[..i] == Runs(load2)[..i]
    ensures Runs(load1)[i + 1..] == Runs(load2)[i + 1..]
  {
  }

  /** The page depends on nothing but what the four case files load to, so generating it twice gives the same text. */
  lemma PageDependsOnlyOnCaseFiles(load1: string -> Option<Document>, load2: string -> Option<Document>)
    requires forall j :: 0 <= j < |Cases| ==> load1(Cases[j].file) == load2(Cases[j].file)
    ensures BuildHtml(load1) == BuildHtml(load2)
  {
    assert Runs(load1) == Runs(load2);
  }

  /** A missing or unreadable file gives a row of placeholders after the name and the description. */
  lemma MissingFileRow(c: Case)
    ensures
      var cells := RowCells(c, ExtractMetrics(None));
      cells[0] == c.name && cells[1] == c.description &&
      forall k :: 2 <= k < |cells| ==> cells[k] == Placeholder
  {
  }

  /** A document without `metrics` renders exactly like a missing file. */
  lemma NoMetricsRowLikeMissing(c: Case)
    ensures RowCells(c, ExtractMetrics(Some(Document(None)))) == RowCells(c, ExtractMetrics(None))
  {
    NoMetricsMemberAllAbsent(Iterations);
    NoMetricsMemberAllAbsent(HttpReqsCount);
    NoMetricsMemberAllAbsent(HttpReqsRate);
    NoMetricsMemberAllAbsent(DurationAvg);
    NoMetricsMemberAllAbsent(DurationP95);
    NoMetricsMemberAllAbsent(DurationMin);
    NoMetricsMemberAllAbsent(DurationMax);
    NoMetricsMemberAllAbsent(FailedRate);
    NoMetricsMemberAllAbsent(VusMax);
  }

  // Worked examples, one per lemma.

  lemma DurationExampleMs()
    ensures FormatMs(Some(500.0)) == "500 ms"
  {
  }

  lemma DurationExampleSeconds()
    ensures FormatMs(Some(1500.0)) == "1.50 s"
  {
  }

  /** Just below the switch to seconds, rounding shows 1000 ms. */
  lemma DurationExampleRoundsUp()
    ensures FormatMs(Some(999.5)) == "1000 ms"
  {
  }

  lemma DurationExampleThreshold()
    ensures FormatMs(Some(1000.0)) == "1.00 s"
  {
  }

  lemma CountExampleInteger()
    ensures FormatNum(Some(42.0)) == "42"
  {
  }

  lemma CountExampleFraction()
    ensures FormatNum(Some(42.5)) == "42.50"
  {
  }

  /** Above one million even an integer gets two decimals. */
  lemma CountExampleLarge()
    ensures FormatNum(Some(2000001.0)) == "2000001.00"
  {
    Fixed2ExampleLarge();
    assert FormatNum(Some(2000001.0)) == ToFixed2(2000001.0);
  }

  /** One million itself is still a plain integer. */
  lemma CountExampleMillion()
    ensures FormatNum(Some(1000000.0)) == "1000000"
  {
  }

  lemma RateExample()
    ensures FormatRate(Some(0.0567)) == "5.67%"
  {
  }

  /** A zero rate is a number, not a missing one. */
  lemma RateExampleZero()
    ensures FormatRate(Some(0.0)) == "0.00%"
  {
  }

  lemma NoneExamples()
    ensures FormatNum(None) == Placeholder && FormatMs(None) == Placeholder && FormatRate(None) == Placeholder
  {
  }
}
