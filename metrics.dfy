/**
  The extractor of the k6 report generator: from a parsed summary export to
  the eleven figures the report shows, each absent when the export does not
  carry it.
 */
module Metrics {
  import opened Wrappers

  /** A statistic as the export stores it: a number, or JSON `null`. */
  datatype Stat = Null | Number(n: real)

  /**
    The `values` member of one metric group, as `m` and `getMetric` see it:
    Absent when the group or its `values` is missing or falsy, Scalar when
    `values` is truthy but not an object, Object otherwise (an array reads as
    an object holding none of the statistic names).
   */
  datatype Values = Absent | Scalar | Object(stats: map<string, Stat>)

  /**
    A parsed export. `metrics` maps each metric group name to its `values`;
    it is None when the document has no usable `metrics` member, which
    `data.metrics || {}` treats as an empty one.
   */
  datatype Document = Document(metrics: Option<map<string, Values>>)

  /** The record `extractMetrics` fills, one optional number per field. */
  datatype Extracted = Extracted(
    httpReqsCount: Option<real>,
    httpReqsRate: Option<real>,
    durationAvg: Option<real>,
    durationMin: Option<real>,
    durationMax: Option<real>,
    durationP95: Option<real>,
    failedRate: Option<real>,
    failedCount: Option<real>,
    iterations: Option<real>,
    vusMax: Option<real>,
    iterationDurationAvg: Option<real>)

  /** `getMetric(values, key)`: the stored number, or None. */
  function GetMetric(values: Values, key: string): (r: Option<real>)
    ensures r.Some? <==> values.Object? && key in values.stats && values.stats[key].Number?
    ensures r.Some? ==> values.stats[key] == Number(r.value)
  {
    match values
    case Absent => None
    case Scalar => None
    case Object(stats) =>
      if key in stats then
        match stats[key]
        case Number(n) => Some(n)
        case Null => None
      else None
  }

  /** The helper `m(name)`: a group's `values`, or an empty object in its place. */
  function GroupValues(metrics: map<string, Values>, name: string): (v: Values)
    ensures !v.Absent?
    ensures name in metrics && !metrics[name].Absent? ==> v == metrics[name]
    ensures name !in metrics || metrics[name].Absent? ==> v == Object(map[])
  {
    if name in metrics && !metrics[name].Absent? then metrics[name] else Object(map[])
  }

  /** JavaScript's `a ?? b` on optional numbers. */
  function Coalesce(a: Option<real>, b: Option<real>): (r: Option<real>)
    ensures a.Some? ==> r == a
    ensures a.None? ==> r == b
  {
    if a.Some? then a else b
  }

  /** `extractMetrics`, given what reading and parsing the file produced (None on any failure). */
  function ExtractMetrics(doc: Option<Document>): (r: Option<Extracted>)
    ensures r.None? <==> doc.None?
  {
    match doc
    case None => None
    case Some(d) =>
      var metrics := if d.metrics.Some? then d.metrics.value else map[];
      Some(Extracted(
        httpReqsCount := GetMetric(GroupValues(metrics, "http_reqs"), "count"),
        httpReqsRate := GetMetric(GroupValues(metrics, "http_reqs"), "rate"),
        durationAvg := GetMetric(GroupValues(metrics, "http_req_duration"), "avg"),
        durationMin := GetMetric(GroupValues(metrics, "http_req_duration"), "min"),
        durationMax := GetMetric(GroupValues(metrics, "http_req_duration"), "max"),
        durationP95 := Coalesce(GetMetric(GroupValues(metrics, "http_req_duration"), "p(95)"), GetMetric(GroupValues(metrics, "http_req_duration"), "med")),
        failedRate := GetMetric(GroupValues(metrics, "http_req_failed"), "rate"),
        failedCount := Coalesce(GetMetric(GroupValues(metrics, "http_req_failed"), "passes"), GetMetric(GroupValues(metrics, "http_req_failed"), "fails")),
        iterations := GetMetric(GroupValues(metrics, "iterations"), "count"),
        vusMax := Coalesce(GetMetric(GroupValues(metrics, "vus_max"), "value"), GetMetric(GroupValues(metrics, "vus"), "value")),
        iterationDurationAvg := GetMetric(GroupValues(metrics, "iteration_duration"), "avg")))
  }

  // ---------------------------------------------------------------------
  // The same extraction stated as a table: for each field, the statistic it
  // reads and, for three of them, the statistic it falls back to.

  datatype Field =
    | HttpReqsCount | HttpReqsRate | DurationAvg | DurationMin | DurationMax | DurationP95
    | FailedRate | FailedCount | Iterations | VusMax | IterationDurationAvg

  /** A statistic named by its metric group and its key inside `values`. */
  datatype Source = Source(group: string, stat: string)

  function Primary(f: Field): Source {
    match f
    case HttpReqsCount => Source("http_reqs", "count")
    case HttpReqsRate => Source("http_reqs", "rate")
    case DurationAvg => Source("http_req_duration", "avg")
    case DurationMin => Source("http_req_duration", "min")
    case DurationMax => Source("http_req_duration", "max")
    case DurationP95 => Source("http_req_duration", "p(95)")
    case FailedRate => Source("http_req_failed", "rate")
    case FailedCount => Source("http_req_failed", "passes")
    case Iterations => Source("iterations", "count")
    case VusMax => Source("vus_max", "value")
    case IterationDurationAvg => Source("iteration_duration", "avg")
  }

  function Fallback(f: Field): Option<Source> {
    match f
    case DurationP95 => Some(Source("http_req_duration", "med"))
    case FailedCount => Some(Source("http_req_failed", "fails"))
    case VusMax => Some(Source("vus", "value"))
    case _ => None
  }

  /** The field `f` of a record. */
  function Get(e: Extracted, f: Field): Option<real> {
    match f
    case HttpReqsCount => e.httpReqsCount
    case HttpReqsRate => e.httpReqsRate
    case DurationAvg => e.durationAvg
    case DurationMin => e.durationMin
    case DurationMax => e.durationMax
    case DurationP95 => e.durationP95
    case FailedRate => e.failedRate
    case FailedCount => e.failedCount
    case Iterations => e.iterations
    case VusMax => e.vusMax
    case IterationDurationAvg => e.iterationDurationAvg
  }

  /** The number a document stores at `metrics[group].values[stat]`, if it stores one there. */
  function Lookup(d: Document, s: Source): Option<real> {
    if d.metrics.Some? && s.group in d.metrics.value && d.metrics.value[s.group].Object?
       && s.stat in d.metrics.value[s.group].stats && d.metrics.value[s.group].stats[s.stat].Number?
    then Some(d.metrics.value[s.group].stats[s.stat].n)
    else None
  }

  /** What field `f` should hold: its primary statistic, else its fallback's. */
  function FieldValue(d: Document, f: Field): Option<real> {
    match Lookup(d, Primary(f))
    case Some(v) => Some(v)
    case None => if Fallback(f).Some? then Lookup(d, Fallback(f).value) else None
  }

  /** Field `f` draws on metric group `g`. */
  predicate DrawsOn(f: Field, g: string) {
    Primary(f).group == g || (Fallback(f).Some? && Fallback(f).value.group == g)
  }

  /** The document's group `g` holds no statistics: missing, without `values`, or with a `values` that is not an object. */
  predicate NoStats(d: Document, g: string) {
    d.metrics.None? || g !in d.metrics.value || !d.metrics.value[g].Object?
  }

  /** The document with metric group `g` removed. */
  function DropGroup(d: Document, g: string): (d': Document)
    ensures NoStats(d', g)
  {
    match d.metrics
    case None => d
    case Some(ms) => Document(Some(ms - {g}))
  }

  /** Every field of an extracted record is what the table says. */
  lemma ExtractAgreesWithTable(d: Document, f: Field)
    ensures ExtractMetrics(Some(d)).Some?
    ensures Get(ExtractMetrics(Some(d)).value, f) == FieldValue(d, f)
  {
  }

  /** A fallback is consulted only when the primary statistic is absent or null; a stored 0 is kept. */
  lemma FallbackOnlyWhenPrimaryAbsent(d: Document, f: Field)
    requires Fallback(f).Some?
    ensures Lookup(d, Primary(f)).Some? ==> Get(ExtractMetrics(Some(d)).value, f) == Lookup(d, Primary(f))
    ensures Lookup(d, Primary(f)).None? ==> Get(ExtractMetrics(Some(d)).value, f) == Lookup(d, Fallback(f).value)
  {
  }

  /** Exactly the 95th percentile, the failed count and the VUs maximum have a fallback. */
  lemma FallbackFields(f: Field)
    ensures Fallback(f).Some? <==> f == DurationP95 || f == FailedCount || f == VusMax
    ensures Fallback(f).Some? ==> Fallback(f).value.group == Primary(f).group || f == VusMax
  {
  }

  /** A group without statistics leaves every field drawn only from it absent. */
  lemma MissingGroupNullsItsFields(d: Document, g: string, f: Field)
    requires NoStats(d, g)
    requires Primary(f).group == g
    requires Fallback(f).None? || Fallback(f).value.group == g
    ensures Get(ExtractMetrics(Some(d)).value, f).None?
  {
  }

  /** A field whose statistic, and fallback if it has one, are missing or null is absent. */
  lemma MissingStatNullsItsField(d: Document, f: Field)
    requires Lookup(d, Primary(f)).None?
    requires Fallback(f).Some? ==> Lookup(d, Fallback(f).value).None?
    ensures Get(ExtractMetrics(Some(d)).value, f).None?
  {
  }

  /** Removing a group changes no field that does not draw on it. */
  lemma DropGroupKeepsOtherFields(d: Document, g: string, f: Field)
    requires !DrawsOn(f, g)
    ensures Get(ExtractMetrics(Some(DropGroup(d, g))).value, f) == Get(ExtractMetrics(Some(d)).value, f)
  {
    ExtractAgreesWithTable(d, f);
    ExtractAgreesWithTable(DropGroup(d, g), f);
  }

  /** A field depends on nothing but the statistics it reads: two documents that agree on them agree on the field, whatever else is missing, null or changed. */
  lemma FieldDependsOnlyOnItsSources(d1: Document, d2: Document, f: Field)
    requires Lookup(d1, Primary(f)) == Lookup(d2, Primary(f))
    requires Fallback(f).Some? ==> Lookup(d1, Fallback(f).value) == Lookup(d2, Fallback(f).value)
    ensures Get(ExtractMetrics(Some(d1)).value, f) == Get(ExtractMetrics(Some(d2)).value, f)
  {
    ExtractAgreesWithTable(d1, f);
    ExtractAgreesWithTable(d2, f);
  }

  /** A document without a `metrics` member still yields a record, with every field absent. */
  lemma NoMetricsMemberAllAbsent(f: Field)
    ensures ExtractMetrics(Some(Document(None))).Some?
    ensures Get(ExtractMetrics(Some(Document(None))).value, f).None?
  {
  }

  /** A duration group holding the given statistics and nothing else. */
  function DurationDoc(stats: map<string, Stat>): Document {
    Document(Some(map["http_req_duration" := Object(stats)]))
  }

  /** The 95th percentile is `p(95)` when stored, 123.4 or even 0. */
  lemma P95StoredExamples()
    ensures ExtractMetrics(Some(DurationDoc(map["p(95)" := Number(123.4), "med" := Number(88.0)]))).value.durationP95 == Some(123.4)
    ensures ExtractMetrics(Some(DurationDoc(map["p(95)" := Number(0.0), "med" := Number(88.0)]))).value.durationP95 == Some(0.0)
  {
  }

  /** The 95th percentile falls back to `med` (88) when `p(95)` is absent or null. */
  lemma P95FallbackExamples()
    ensures ExtractMetrics(Some(DurationDoc(map["med" := Number(88.0)]))).value.durationP95 == Some(88.0)
    ensures ExtractMetrics(Some(DurationDoc(map["p(95)" := Null, "med" := Number(88.0)]))).value.durationP95 == Some(88.0)
  {
  }
}
