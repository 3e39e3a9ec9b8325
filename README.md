# AMMA-Stress report generator, in Dafny

A model of the report generator of the AMMA-Stress k6 load tests
(`scripts/generate-report.js`). The generator reads up to four k6
summary-export files (`smoke.json`, `load.json`, `load-500.json`,
`load-7000.json`), pulls eleven figures out of each (request count and rate,
request duration avg/min/max/p95, failure rate and count, iterations, maximum
VUs, iteration duration avg) and writes one HTML table with one row per test
case.

The model has four modules:

- `Wrappers` (`wrappers.dfy`): the `Option` type that stands for JavaScript's
  `null`/`undefined`.
- `NumberText` (`number_text.dfy`): the number-to-text steps the formatters
  use, on exact values. These are `String(n)` for an integer, `Math.round`
  (nearest integer, ties towards +infinity) and `toFixed(2)` (sign, then the
  magnitude rounded to the nearest hundredth, the larger one on a tie). Each
  comes with a reader that turns the text back into a number. The contracts
  prove that the reader gets back exactly the rounded value, ties included,
  for negative `toFixed(2)` arguments as well. The contracts also fix the
  written form: no leading zeros, and a minus sign exactly for negative
  numbers. The three cell formatters are stated as exactly one of these
  texts followed by its unit, chosen by the same branches as the script.
- `Metrics` (`metrics.dfy`): `getMetric`, the `m` helper and
  `extractMetrics`. The same extraction is also written as a table. For each
  field the table gives its primary statistic and, for p95, failed count and
  VUs max, a fallback statistic. A lemma proves that the record constructor
  and the table agree. The fallback, missing-group and no-document properties
  are proved from that.
- `Report` (`report.dfy`): the fixed `CASES` list, `formatNum`, `formatMs`,
  the failed-rate cell, the eleven-cell row template, the column header,
  `join('')` and the page.

Numbers are exact `real`s. A number in the export is a `Stat` (a number or
JSON `null`). The `values` member of a metric group is `Absent` (missing or
falsy), `Scalar` (truthy but not an object) or `Object(stats)`. A
document's `metrics` member is optional. Reading and parsing a file is not
modelled. Its outcome is an `Option<Document>`: `None` stands for a missing
file, a read error, a JSON syntax error, and a document that is JSON `null`
(reading `.metrics` of it throws, and the `catch` turns that into `null`).
The file system is a parameter `load: string -> Option<Document>` from file
name to loaded document.

A missing or unreadable file gives a `null` record
(`generate-report.js:38,57`), and `ExtractMetrics(None)` is `None`. A
document without `metrics` gives a record of nulls (line 41).
`NoMetricsRowLikeMissing` proves that the two cases render the same row.

## Model

| member | source | states |
|---|---|---|
| `Metrics.GetMetric` | scripts/generate-report.js:19-23 | A number is returned exactly when `values` is an object holding a non-null number under `key`. That number is returned unchanged, 0 included. |
| `Metrics.GroupValues` | scripts/generate-report.js:43 | A group that is missing or without `values` reads as an empty object. Otherwise the group's own `values` is returned. |
| `Metrics.Coalesce` | scripts/generate-report.js:49-53 | `a ?? b` is `a` whenever `a` is present, and `b` only when `a` is absent. |
| `Metrics.ExtractMetrics` | scripts/generate-report.js:37-59 | The record is null exactly when no document was loaded or parsed. |
| `Metrics.ExtractAgreesWithTable` | scripts/generate-report.js:44-54 | Every one of the eleven fields is its primary statistic from its group, else its fallback statistic, else absent. |
| `Metrics.FallbackOnlyWhenPrimaryAbsent` | scripts/generate-report.js:49-53 | For p95, failed count and VUs max, a stored primary value (even 0) is used. The fallback is read only when the primary is null or missing. |
| `Metrics.FieldDependsOnlyOnItsSources` | scripts/generate-report.js:44-54 | Two documents that agree on a field's primary statistic, and on its fallback when it has one, give the same value for that field, whatever else they hold. |
| `Metrics.MissingStatNullsItsField` | scripts/generate-report.js:44-54 | A field whose statistic, and fallback if it has one, is missing or null is absent. |
| `Metrics.FallbackFields` | scripts/generate-report.js:49-53 | Exactly those three fields have a fallback. Only VUs max falls back to a different group (`vus`). |
| `Metrics.MissingGroupNullsItsFields` | scripts/generate-report.js:43-54 | When a group holds no statistics, every field drawn only from that group is absent. |
| `Metrics.DropGroupKeepsOtherFields` | scripts/generate-report.js:43-54 | Removing a group changes no field that does not draw on it. |
| `Metrics.NoMetricsMemberAllAbsent` | scripts/generate-report.js:41 | A document without `metrics` still gives a record, and every field of that record is absent. |
| `Metrics.P95StoredExamples` | scripts/generate-report.js:49 | A stored `p(95)` of 123.4, and a stored 0, are taken as they are even when `med` is present. |
| `Metrics.P95FallbackExamples` | scripts/generate-report.js:49 | With `p(95)` missing or null and `med` = 88, the p95 field is 88. |
| `NumberText.NatToString` | scripts/generate-report.js:28 | A non-negative integer is written as a non-empty run of decimal digits with no leading zero. |
| `NumberText.ParseNatToString` | scripts/generate-report.js:28 | Reading the digits back gives the original integer. |
| `NumberText.IntToString` | scripts/generate-report.js:28 | The text of an integer reads back as that integer and contains no decimal point. It starts with a minus exactly when the integer is negative, and its digits have no leading zero. |
| `NumberText.RoundHalfUp` | scripts/generate-report.js:34 | `Math.round` gives the integer `r` with `r - 1/2 <= x < r + 1/2`. |
| `NumberText.Hundredths` | scripts/generate-report.js:27 | The count of hundredths `n` with `n - 1/2 <= 100x < n + 1/2`. |
| `NumberText.UnsignedFixed2` | scripts/generate-report.js:27 | Digits, a point and two digits that read back as exactly the given count of hundredths. The whole part has no leading zero. |
| `NumberText.ToFixed2` | scripts/generate-report.js:27 | `toFixed(2)` contains a point and reads back as the hundredths nearest `x`. On a tie the magnitude rounds up: the larger count for non-negative `x`, and away from zero for negative `x`. A negative `x` gets a leading minus. The whole part after any sign has no leading zero. |
| `NumberText.Fixed2ExampleLarge` | scripts/generate-report.js:27 | `toFixed(2)` of 2000001 is `2000001.00`. |
| `Report.FormatNum` | scripts/generate-report.js:25-29 | The placeholder exactly for null. Exactly when the number is non-integral or above one million, the text is `toFixed(2)` of it, a point included. Otherwise it is the plain integer, which reads back exactly. |
| `Report.FormatMs` | scripts/generate-report.js:31-35 | The placeholder exactly for null. From 1000 up, exactly `toFixed(2)` of the seconds followed by ` s`. Below 1000, exactly the rounded whole milliseconds followed by ` ms`, within half a millisecond of the input. |
| `Report.FormatRate` | scripts/generate-report.js:79 | The placeholder exactly for a null rate. Otherwise exactly `toFixed(2)` of `rate*100` followed by `%`, reading back within half a hundredth. |
| `Report.RowCells` | scripts/generate-report.js:68-81 | Each row has eleven cells, one per header column. |
| `Report.RowFollowsHeader` | scripts/generate-report.js:110-120 | Cell `i` of the row template is what header column `i` announces: the case name, the description, or the named field under the matching formatter. |
| `Report.ConcatSplit` | scripts/generate-report.js:82 | The joined rows are the rows before `i`, then row `i`, then the rows after it. |
| `Report.RowsFollowCases` | scripts/generate-report.js:62-82 | There are exactly four rows, in the order of `CASES`. Row `i` shows case `i`'s name and description and the figures from case `i`'s own file. |
| `Report.PageSplitsAtRow` | scripts/generate-report.js:123 | On the page, row `i` comes right after rows `0..i-1` and right before rows `i+1..`. |
| `Report.CaseFilesDistinct` | scripts/generate-report.js:12-17 | The four cases of the constant `Cases` (`CASES`) read four different files. |
| `Report.OtherRowsIgnoreFile` | scripts/generate-report.js:62-65 | What one case's file holds changes no other case's row. |
| `Report.PageDependsOnlyOnCaseFiles` | scripts/generate-report.js:61-128 | The page depends only on what the four case files load to. Identical inputs therefore give identical output. |
| `Report.MissingFileRow` | scripts/generate-report.js:72-80 | With no document, the row keeps the case name and description, and every other cell is the placeholder. |
| `Report.NoMetricsRowLikeMissing` | scripts/generate-report.js:41 | A document without `metrics` renders the same row as a missing file. |
| `Report.Project` | scripts/generate-report.js:72-80 | `r.metrics && r.metrics.<field>`: absent when the whole record is null, otherwise the record's field. |
| `Report.Runs` | scripts/generate-report.js:62-65 | `CASES.map(...)`: one run per case, in order, each carrying the record extracted from that case's own file. |
| `Report.RowMarkups` | scripts/generate-report.js:67-81 | `runs.map(...)`: one row of markup per run, in the same order. |
| `Report.RowHtml` | scripts/generate-report.js:68-81 | The row template: the name in bold, then the other ten cells. It has no ensures. `RowFollowsHeader` and `RowsFollowCases` carry what it shows. |
| `Report.Concat` | scripts/generate-report.js:82 | `join('')`. It has no ensures. `ConcatSplit` carries its property. |
| `Report.Head` | scripts/generate-report.js:84-123 | The page up to the table body: title, heading, note and the header row from `Columns`. It has no ensures. |
| `Report.Tail` | scripts/generate-report.js:124-128 | The page after the table body, with the footer. It has no ensures. |
| `Report.BuildHtml` | scripts/generate-report.js:61-128 | `buildHtml`. It has no ensures. `PageSplitsAtRow`, `RowsFollowCases` and `PageDependsOnlyOnCaseFiles` carry its properties. |
| `Report.DurationExampleMs` | scripts/generate-report.js:34 | 500 renders as `500 ms`. |
| `Report.DurationExampleSeconds` | scripts/generate-report.js:33 | 1500 renders as `1.50 s`. |
| `Report.DurationExampleRoundsUp` | scripts/generate-report.js:33-34 | 999.5 is below the seconds threshold and rounds to `1000 ms`. |
| `Report.DurationExampleThreshold` | scripts/generate-report.js:33 | 1000 renders as `1.00 s`. |
| `Report.CountExampleInteger` | scripts/generate-report.js:28 | 42 renders as `42`. |
| `Report.CountExampleFraction` | scripts/generate-report.js:27 | 42.5 renders as `42.50`. |
| `Report.CountExampleLarge` | scripts/generate-report.js:27 | 2000001 renders as `2000001.00`. |
| `Report.CountExampleMillion` | scripts/generate-report.js:28 | 1000000 is not above one million and renders as `1000000`. |
| `Report.RateExample` | scripts/generate-report.js:79 | A failure rate of 0.0567 renders as `5.67%`. |
| `Report.RateExampleZero` | scripts/generate-report.js:79 | A zero rate renders as `0.00%`, not as the placeholder. |
| `Report.NoneExamples` | scripts/generate-report.js:25-35 | All three formatters render null as the placeholder. |

## Left out

- The k6 test scripts under `stress/`. They are options, endpoint lists and calls into the external load tool, so they are not part of this model.
- File-system effects: `existsSync`, `readFileSync`, `mkdirSync`, `writeFileSync`, and the console line. The input is a loaded document per file name and the output a returned string.
- `JSON.parse`. Its failure, like a missing or unreadable file, is the `None` document.
- Statistic values that are not numbers or `null` (strings, booleans, objects), and with them the `typeof n === 'number'` test in `formatNum`.
- IEEE-754 floating point. Numbers are exact rationals, so binary rounding (a product such as `rate*100` landing just off a tie) is not modelled. A number beyond the double range (such as `1e999`) parses to `Infinity`, which the model cannot represent (`formatNum` would print `Infinity`). `NaN` cannot arise from JSON.
- NumberText.IntToString: does not model the exponent notation that `String` uses at magnitudes of 10^21 and above, because such figures do not arise in a k6 summary.
- NumberText.ToFixed2: does not model the exponent notation that `toFixed` falls back to at magnitudes of 10^21 and above, for the same reason.
- The stylesheet, the `viewport` meta tag and the whitespace of the page. The page keeps its title, heading, note, header, rows and footer in order, without the whitespace between tags.
