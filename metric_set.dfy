/**
 * set.go: the per-query metric registry. A round turns a record set into
 * series keys and gauge values (SetMetrics); reconciliation then retires the
 * series the round did not produce and publishes the new ones
 * (RegisterMetrics).
 *
 * The pure functions first give the meaning of one round; the class
 * QueryResult below carries the state and is proved against them.
 */
module MetricSet {
  import opened Wrappers
  import opened Text
  import opened Values
  import opened QueryConfig

  /** Whether a key was already held when the round met it. */
  datatype Status = Registered | Unregistered

  /** A result row: its columns, listed in the order Go's range visits them. */
  type Column = (string, Value)
  type Record = seq<Column>

  /** The label columns of a row: lower-cased column name to value. */
  type Facet = map<string, Value>

  /**
   * The key of one series: the metric name and the facet. Go concatenates
   * the metric name with json.Marshal(facet), which lists the labels sorted
   * by name, so two keys are the same text exactly when name and facet agree.
   */
  datatype SeriesKey = SeriesKey(metricName: string, facet: Facet)

  /** A gauge as created by prometheus.NewGauge, with its current value. */
  datatype Gauge = Gauge(name: string, help: string, labels: map<string, string>, value: real)

  const Help: string := "Result of an SQL query"

  datatype SetError =
    | MultiRowSingleColumn
    | SubMetricsWithDataField
    | DataFieldNotSpecified
    | DataFieldNotFound
    | BadValue(cause: CoerceError)

  /** The calls the registry makes on Prometheus' default registerer. */
  datatype RegistryEvent = Publish(key: SeriesKey) | Retire(key: SeriesKey)

  /** The query name, followed by "_" and the suffix when there is one. */
  function MetricName(queryName: string, suffix: string): (r: string)
    ensures |r| >= |queryName| && r[..|queryName|] == queryName
    ensures suffix == "" ==> r == queryName
    ensures suffix != "" ==> |r| == |queryName| + 1 + |suffix| && r[|queryName|] == '_' && r[|queryName| + 1..] == suffix
  {
    if suffix == "" then queryName else queryName + "_" + suffix
  }

  function KeyFor(queryName: string, suffix: string, facet: Facet): SeriesKey
  {
    SeriesKey(MetricName(queryName, suffix), facet)
  }

  /**
   * Within one query, two (suffix, facet) pairs share a series key exactly
   * when they are the same pair: sub-metrics never collide.
   */
  lemma KeyForInjective(queryName: string, s1: string, s2: string, f1: Facet, f2: Facet)
    ensures KeyFor(queryName, s1, f1) == KeyFor(queryName, s2, f2) <==> s1 == s2 && f1 == f2
  {
    var n1, n2 := MetricName(queryName, s1), MetricName(queryName, s2);
    if n1 == n2 && s1 != "" && s2 != "" {
      assert s1 == n1[|queryName| + 1..] == n2[|queryName| + 1..] == s2;
    }
  }

  /** The constant labels of a gauge: each facet value rendered and lower-cased. */
  function Labels(floats: FloatFormat, facet: Facet): (labels: map<string, string>)
    ensures labels.Keys == facet.Keys
    ensures forall n :: n in facet ==> labels[n] == Lower(Render(floats, facet[n]))
    ensures forall n :: n in labels ==> Lower(labels[n]) == labels[n]
  {
    var labels := map n | n in facet :: Lower(Render(floats, facet[n]));
    assert forall n :: n in labels ==> Lower(labels[n]) == labels[n] by {
      forall n | n in labels ensures Lower(labels[n]) == labels[n] {
        LowerIdempotent(Render(floats, facet[n]));
      }
    }
    labels
  }

  /** The gauge registerMetric creates for a key it has not seen. */
  function NewGauge(floats: FloatFormat, key: SeriesKey): (g: Gauge)
    ensures g.name == "query_result_" + key.metricName && g.help == Help && g.value == 0.0
    ensures g.labels == Labels(floats, key.facet)
  {
    Gauge("query_result_" + key.metricName, Help, Labels(floats, key.facet), 0.0)
  }

  /** The gauge held under `key` after registerMetric. */
  function Create(floats: FloatFormat, held: map<SeriesKey, Gauge>, key: SeriesKey): (r: map<SeriesKey, Gauge>)
    ensures r.Keys == held.Keys + {key}
    ensures key in held ==> r == held
    ensures key !in held ==> |r| == |held| + 1 && r == held[key := NewGauge(floats, key)]
  {
    if key in held then held else held[key := NewGauge(floats, key)]
  }

  // ---------------------------------------------------------------- columns

  /** Progress of the column loop of SetMetrics for one (row, sub-metric). */
  datatype Scan = Scan(facet: Facet, value: Option<Value>, ambiguous: bool)

  /**
   * One column: in a row of several columns, a column whose lower-cased name
   * is not the data field is a facet, unless it is the value column of some
   * sub-metric; every other column is a value, and a second value makes the
   * row ambiguous.
   */
  function ScanColumn(s: Scan, col: Column, multi: bool, dataField: string, fields: set<string>): Scan
  {
    var name := Lower(col.0);
    if multi && name != dataField then
      if name in fields then s else s.(facet := s.facet[name := col.1])
    else if s.value.Some? then s.(ambiguous := true)
    else s.(value := Some(col.1))
  }

  function ScanFrom(s: Scan, cols: seq<Column>, multi: bool, dataField: string, fields: set<string>): Scan
    decreases |cols|
  {
    if cols == [] || s.ambiguous then s
    else ScanFrom(ScanColumn(s, cols[0], multi, dataField, fields), cols[1..], multi, dataField, fields)
  }

  datatype Split = Split(facet: Facet, value: Value)

  /** How SetMetrics splits a row into the value and the facet for one sub-metric. */
  function SplitRow(row: Record, dataField: string, fields: set<string>): Result<Split, SetError>
  {
    var s := ScanFrom(Scan(map[], None, false), row, |row| > 1, dataField, fields);
    if s.ambiguous then Failure(DataFieldNotSpecified)
    else if s.value.None? then Failure(DataFieldNotFound)
    else Success(Split(s.facet, s.value.value))
  }

  /** The number of columns whose lower-cased name is the data field. */
  function MatchCount(cols: seq<Column>, dataField: string): nat
  {
    if cols == [] then 0
    else (if Lower(cols[0].0) == dataField then 1 else 0) + MatchCount(cols[1..], dataField)
  }

  /** The value of the first column whose lower-cased name is the data field. */
  function MatchValue(cols: seq<Column>, dataField: string): Value
    requires MatchCount(cols, dataField) > 0
  {
    if Lower(cols[0].0) == dataField then cols[0].1 else MatchValue(cols[1..], dataField)
  }

  predicate IsFacetColumn(col: Column, dataField: string, fields: set<string>)
  {
    Lower(col.0) != dataField && Lower(col.0) !in fields
  }

  /** The label names a row of several columns contributes. */
  function FacetNames(cols: seq<Column>, dataField: string, fields: set<string>): set<string>
  {
    if cols == [] then {}
    else
      (if IsFacetColumn(cols[0], dataField, fields) then {Lower(cols[0].0)} else {})
      + FacetNames(cols[1..], dataField, fields)
  }

  /** The value of the last facet column named `n` (after lower-casing). */
  function LastFacetValue(cols: seq<Column>, dataField: string, fields: set<string>, n: string): Value
    requires n in FacetNames(cols, dataField, fields)
  {
    if n in FacetNames(cols[1..], dataField, fields) then LastFacetValue(cols[1..], dataField, fields, n)
    else cols[0].1
  }

  /** The column loop over a row of several columns, with what it started from. */
  lemma {:induction false} ScanMultiColumn(s: Scan, cols: seq<Column>, dataField: string, fields: set<string>)
    requires !s.ambiguous
    decreases |cols|
    ensures var r := ScanFrom(s, cols, true, dataField, fields);
      && (r.ambiguous <==> MatchCount(cols, dataField) + (if s.value.Some? then 1 else 0) >= 2)
      && (!r.ambiguous ==>
           && (r.value.Some? <==> s.value.Some? || MatchCount(cols, dataField) == 1)
           && (s.value.None? && r.value.Some? ==> r.value.value == MatchValue(cols, dataField))
           && (s.value.Some? ==> r.value == s.value)
           && r.facet.Keys == s.facet.Keys + FacetNames(cols, dataField, fields)
           && (forall n :: n in FacetNames(cols, dataField, fields) ==>
                r.facet[n] == LastFacetValue(cols, dataField, fields, n))
           && (forall n :: n in s.facet && n !in FacetNames(cols, dataField, fields) ==>
                r.facet[n] == s.facet[n]))
  {
    if cols != [] {
      var s1 := ScanColumn(s, cols[0], true, dataField, fields);
      if !s1.ambiguous {
        ScanMultiColumn(s1, cols[1..], dataField, fields);
      }
    }
  }

  /** A row of one column: that column is the value, and there are no labels. */
  lemma SplitSingleColumn(col: Column, dataField: string, fields: set<string>)
    ensures SplitRow([col], dataField, fields) == Success(Split(map[], col.1))
  {
    var s0 := Scan(map[], None, false);
    assert [col][1..] == [];
    assert ScanColumn(s0, col, false, dataField, fields) == Scan(map[], Some(col.1), false);
    assert ScanFrom(s0, [col], false, dataField, fields) == Scan(map[], Some(col.1), false);
  }

  /**
   * A row of several columns: no column named after the data field is
   * "not found", two or more are "not specified", exactly one is the value
   * and every other column that is no sub-metric's value column is a label.
   */
  lemma SplitMultiColumn(row: Record, dataField: string, fields: set<string>)
    requires |row| > 1
    ensures SplitRow(row, dataField, fields) == Failure(DataFieldNotFound) <==> MatchCount(row, dataField) == 0
    ensures SplitRow(row, dataField, fields) == Failure(DataFieldNotSpecified) <==> MatchCount(row, dataField) >= 2
    ensures SplitRow(row, dataField, fields).Success? ==>
      && MatchCount(row, dataField) == 1
      && SplitRow(row, dataField, fields).value.value == MatchValue(row, dataField)
      && SplitRow(row, dataField, fields).value.facet.Keys == FacetNames(row, dataField, fields)
      && forall n :: n in FacetNames(row, dataField, fields) ==>
           SplitRow(row, dataField, fields).value.facet[n] == LastFacetValue(row, dataField, fields, n)
  {
    ScanMultiColumn(Scan(map[], None, false), row, dataField, fields);
  }

  // ------------------------------------------------------------ sub-metrics

  /** The sub-metrics a round uses: SubMetrics, or the data field under the empty suffix. */
  function EffectiveSubMetrics(q: Query): (subs: seq<(string, string)>)
    ensures |subs| > 0
    ensures |q.subMetrics| > 0 ==> subs == q.subMetrics
    ensures |q.subMetrics| == 0 ==> subs == [("", q.dataField)]
  {
    if |q.subMetrics| > 0 then q.subMetrics else [("", q.dataField)]
  }

  /** The value columns of all sub-metrics. */
  function ValueFields(subs: seq<(string, string)>): set<string>
  {
    set p | p in subs :: p.1
  }

  // ------------------------------------------------------------------ round

  /** The state of a round: the held gauges, the keys seen so far, the error that ended it. */
  datatype Round = Round(held: map<SeriesKey, Gauge>, seen: map<SeriesKey, Status>, err: Option<SetError>)

  datatype Write = Write(key: SeriesKey, value: real)

  /** registerMetric followed by setting the value and recording the status. */
  function WriteOne(floats: FloatFormat, rd: Round, w: Write): Round
  {
    var status := if w.key in rd.held then Registered else Unregistered;
    var held := Create(floats, rd.held, w.key);
    Round(held[w.key := held[w.key].(value := w.value)], rd.seen[w.key := status], rd.err)
  }

  /** One (row, sub-metric) pair of the loop of SetMetrics. */
  function Step(name: string, floats: FloatFormat, fields: set<string>, rd: Round, row: Record,
                sub: (string, string)): Round
  {
    match SplitRow(row, sub.1, fields)
    case Failure(e) => rd.(err := Some(e))
    case Success(sp) =>
      var key := KeyFor(name, sub.0, sp.facet);
      match Coerce(floats, sp.value)
      case Failure(ce) => rd.(held := Create(floats, rd.held, key), err := Some(BadValue(ce)))
      case Success(f) => WriteOne(floats, rd, Write(key, f))
  }

  /** The sub-metric loop for one row; an error ends the round. */
  function RunSubs(name: string, floats: FloatFormat, fields: set<string>, rd: Round, row: Record,
                   subs: seq<(string, string)>): Round
    decreases |subs|
  {
    if subs == [] || rd.err.Some? then rd
    else RunSubs(name, floats, fields, Step(name, floats, fields, rd, row, subs[0]), row, subs[1..])
  }

  /** The row loop; an error ends the round. */
  function RunRows(name: string, floats: FloatFormat, subs: seq<(string, string)>, rd: Round,
                   recs: seq<Record>): Round
    decreases |recs|
  {
    if recs == [] || rd.err.Some? then rd
    else RunRows(name, floats, subs, RunSubs(name, floats, ValueFields(subs), rd, recs[0], subs), recs[1..])
  }

  /** What SetMetrics does to the held gauges and what it returns, for one record set. */
  function SetMetricsSpec(q: Query, floats: FloatFormat, held: map<SeriesKey, Gauge>, recs: seq<Record>): (rd: Round)
    ensures held.Keys <= rd.held.Keys
  {
    if |recs| > 1 && |recs[0]| == 1 then Round(held, map[], Some(MultiRowSingleColumn))
    else if q.dataField != "" && |q.subMetrics| > 0 then Round(held, map[], Some(SubMetricsWithDataField))
    else
      RunRowsKeepsHeld(q.name, floats, EffectiveSubMetrics(q), Round(held, map[], None), recs);
      RunRows(q.name, floats, EffectiveSubMetrics(q), Round(held, map[], None), recs)
  }

  /**
   * The two shape checks run before any gauge is created: a record set that
   * fails one leaves the held gauges as they were and reports no status.
   */
  lemma ShapeChecksComeFirst(q: Query, floats: FloatFormat, held: map<SeriesKey, Gauge>, recs: seq<Record>)
    requires (|recs| > 1 && |recs[0]| == 1) || (q.dataField != "" && |q.subMetrics| > 0)
    ensures var rd := SetMetricsSpec(q, floats, held, recs);
      && rd.held == held && rd.seen == map[]
      && rd.err == Some(if |recs| > 1 && |recs[0]| == 1 then MultiRowSingleColumn else SubMetricsWithDataField)
  {
  }

  /** A round keeps every gauge it started with, whether or not it fails. */
  lemma {:induction false} RunSubsKeepsHeld(name: string, floats: FloatFormat, fields: set<string>, rd: Round,
                                           row: Record, subs: seq<(string, string)>)
    decreases |subs|
    ensures rd.held.Keys <= RunSubs(name, floats, fields, rd, row, subs).held.Keys
  {
    if subs != [] && rd.err.None? {
      RunSubsKeepsHeld(name, floats, fields, Step(name, floats, fields, rd, row, subs[0]), row, subs[1..]);
    }
  }

  lemma {:induction false} RunRowsKeepsHeld(name: string, floats: FloatFormat, subs: seq<(string, string)>,
                                           rd: Round, recs: seq<Record>)
    decreases |recs|
    ensures rd.held.Keys <= RunRows(name, floats, subs, rd, recs).held.Keys
  {
    if recs != [] && rd.err.None? {
      var fields := ValueFields(subs);
      RunSubsKeepsHeld(name, floats, fields, rd, recs[0], subs);
      RunRowsKeepsHeld(name, floats, subs, RunSubs(name, floats, fields, rd, recs[0], subs), recs[1..]);
    }
  }

  // ------------------------------------------------------------ writes

  /*
   * Whether a pair fails and, if not, which key gets which value depends
   * only on the record set, never on the registry: a round is a list of
   * writes (Emit) landing on the held gauges (ApplyWrites).
   */

  /** The writes of one row, one per sub-metric, or the first error. */
  function EmitSubs(name: string, floats: FloatFormat, fields: set<string>, row: Record,
                    subs: seq<(string, string)>): Result<seq<Write>, SetError>
    decreases |subs|
  {
    if subs == [] then Success([])
    else
      match SplitRow(row, subs[0].1, fields)
      case Failure(e) => Failure(e)
      case Success(sp) =>
        match Coerce(floats, sp.value)
        case Failure(ce) => Failure(BadValue(ce))
        case Success(f) =>
          match EmitSubs(name, floats, fields, row, subs[1..])
          case Failure(e) => Failure(e)
          case Success(ws) => Success([Write(KeyFor(name, subs[0].0, sp.facet), f)] + ws)
  }

  function EmitRows(name: string, floats: FloatFormat, subs: seq<(string, string)>,
                    recs: seq<Record>): Result<seq<Write>, SetError>
    decreases |recs|
  {
    if recs == [] then Success([])
    else
      match EmitSubs(name, floats, ValueFields(subs), recs[0], subs)
      case Failure(e) => Failure(e)
      case Success(ws) =>
        match EmitRows(name, floats, subs, recs[1..])
        case Failure(e) => Failure(e)
        case Success(rest) => Success(ws + rest)
  }

  /** The writes of a whole record set, or the error SetMetrics reports. */
  function Emit(q: Query, floats: FloatFormat, recs: seq<Record>): Result<seq<Write>, SetError>
  {
    if |recs| > 1 && |recs[0]| == 1 then Failure(MultiRowSingleColumn)
    else if q.dataField != "" && |q.subMetrics| > 0 then Failure(SubMetricsWithDataField)
    else EmitRows(q.name, floats, EffectiveSubMetrics(q), recs)
  }

  function ApplyWrites(floats: FloatFormat, rd: Round, ws: seq<Write>): (r: Round)
    decreases |ws|
    ensures r.err == rd.err
  {
    if ws == [] then rd else ApplyWrites(floats, WriteOne(floats, rd, ws[0]), ws[1..])
  }

  function WrittenKeys(ws: seq<Write>): set<SeriesKey>
  {
    if ws == [] then {} else {ws[0].key} + WrittenKeys(ws[1..])
  }

  function Occurrences(ws: seq<Write>, k: SeriesKey): (n: nat)
    ensures n > 0 <==> k in WrittenKeys(ws)
  {
    if ws == [] then 0 else (if ws[0].key == k then 1 else 0) + Occurrences(ws[1..], k)
  }

  /** The value of the last write to `k`. */
  function LastValue(ws: seq<Write>, k: SeriesKey): real
    requires k in WrittenKeys(ws)
  {
    if k in WrittenKeys(ws[1..]) then LastValue(ws[1..], k) else ws[0].value
  }

  /** The gauge a write to `k` starts from: the held one, or a new one. */
  function Base(floats: FloatFormat, held: map<SeriesKey, Gauge>, k: SeriesKey): Gauge
  {
    if k in held then held[k] else NewGauge(floats, k)
  }

  lemma {:induction false} ApplyWritesAppend(floats: FloatFormat, rd: Round, ws1: seq<Write>, ws2: seq<Write>)
    decreases |ws1|
    ensures ApplyWrites(floats, rd, ws1 + ws2) == ApplyWrites(floats, ApplyWrites(floats, rd, ws1), ws2)
  {
    if ws1 == [] {
      assert ws1 + ws2 == ws2;
    } else {
      assert (ws1 + ws2)[0] == ws1[0] && (ws1 + ws2)[1..] == ws1[1..] + ws2;
      ApplyWritesAppend(floats, WriteOne(floats, rd, ws1[0]), ws1[1..], ws2);
    }
  }

  /** The written keys are added to both the held gauges and the statuses. */
  lemma {:induction false} ApplyWritesKeys(floats: FloatFormat, rd: Round, ws: seq<Write>, k: SeriesKey)
    decreases |ws|
    ensures k in ApplyWrites(floats, rd, ws).held <==> k in rd.held || k in WrittenKeys(ws)
    ensures k in ApplyWrites(floats, rd, ws).seen <==> k in rd.seen || k in WrittenKeys(ws)
  {
    if ws != [] {
      ApplyWritesKeys(floats, WriteOne(floats, rd, ws[0]), ws[1..], k);
    }
  }

  /** A key nobody writes keeps its gauge and its status. */
  lemma {:induction false} ApplyWritesOther(floats: FloatFormat, rd: Round, ws: seq<Write>, k: SeriesKey)
    requires k !in WrittenKeys(ws)
    decreases |ws|
    ensures var r := ApplyWrites(floats, rd, ws);
      && (k in rd.held ==> k in r.held && r.held[k] == rd.held[k])
      && (k in rd.seen ==> k in r.seen && r.seen[k] == rd.seen[k])
  {
    if ws != [] {
      ApplyWritesOther(floats, WriteOne(floats, rd, ws[0]), ws[1..], k);
    }
  }

  /** One write changes only the gauge it writes, and only its value. */
  lemma WriteOneBase(floats: FloatFormat, rd: Round, w: Write, k: SeriesKey)
    ensures w.key in WriteOne(floats, rd, w).held
    ensures Base(floats, WriteOne(floats, rd, w).held, k)
         == if k == w.key then Base(floats, rd.held, k).(value := w.value) else Base(floats, rd.held, k)
  {
  }

  /** A written key's gauge holds the last value written to it. */
  lemma {:induction false} ApplyWritesValue(floats: FloatFormat, rd: Round, ws: seq<Write>, k: SeriesKey)
    requires k in WrittenKeys(ws)
    decreases |ws|
    ensures var r := ApplyWrites(floats, rd, ws);
      k in r.held && r.held[k] == Base(floats, rd.held, k).(value := LastValue(ws, k))
  {
    var rd1 := WriteOne(floats, rd, ws[0]);
    WriteOneBase(floats, rd, ws[0], k);
    if k in WrittenKeys(ws[1..]) {
      ApplyWritesValue(floats, rd1, ws[1..], k);
    } else {
      assert ws[0].key == k;
      ApplyWritesOther(floats, rd1, ws[1..], k);
    }
  }

  /**
   * A written key is reported Unregistered exactly when it was not held
   * before and is written once.
   */
  lemma {:induction false} ApplyWritesStatus(floats: FloatFormat, rd: Round, ws: seq<Write>, k: SeriesKey)
    requires k in WrittenKeys(ws)
    decreases |ws|
    ensures var r := ApplyWrites(floats, rd, ws);
      k in r.seen && r.seen[k] == if k in rd.held || Occurrences(ws, k) > 1 then Registered else Unregistered
  {
    var rd1 := WriteOne(floats, rd, ws[0]);
    if k in WrittenKeys(ws[1..]) {
      ApplyWritesStatus(floats, rd1, ws[1..], k);
    } else {
      ApplyWritesOther(floats, rd1, ws[1..], k);
    }
  }

  /** A pair that splits and coerces writes its value and the round goes on. */
  lemma RunSubsStep(name: string, floats: FloatFormat, fields: set<string>, rd: Round, row: Record,
                    subs: seq<(string, string)>, sp: Split, f: real)
    requires subs != [] && rd.err.None?
    requires SplitRow(row, subs[0].1, fields) == Success(sp) && Coerce(floats, sp.value) == Success(f)
    ensures RunSubs(name, floats, fields, rd, row, subs)
         == RunSubs(name, floats, fields, WriteOne(floats, rd, Write(KeyFor(name, subs[0].0, sp.facet), f)), row, subs[1..])
  {
  }

  lemma {:induction false} RunSubsIsEmitSubs(name: string, floats: FloatFormat, fields: set<string>, rd: Round,
                                            row: Record, subs: seq<(string, string)>)
    requires rd.err.None?
    decreases |subs|
    ensures var e := EmitSubs(name, floats, fields, row, subs);
      && (e.Success? ==> RunSubs(name, floats, fields, rd, row, subs) == ApplyWrites(floats, rd, e.value))
      && (e.Failure? ==> RunSubs(name, floats, fields, rd, row, subs).err == Some(e.error))
  {
    if subs != [] {
      var rd1 := Step(name, floats, fields, rd, row, subs[0]);
      if rd1.err.None? {
        RunSubsIsEmitSubs(name, floats, fields, rd1, row, subs[1..]);
      }
    }
  }

  lemma {:induction false} RunRowsIsEmitRows(name: string, floats: FloatFormat, subs: seq<(string, string)>,
                                            rd: Round, recs: seq<Record>)
    requires rd.err.None?
    decreases |recs|
    ensures var e := EmitRows(name, floats, subs, recs);
      && (e.Success? ==> RunRows(name, floats, subs, rd, recs) == ApplyWrites(floats, rd, e.value))
      && (e.Failure? ==> RunRows(name, floats, subs, rd, recs).err == Some(e.error))
  {
    if recs != [] {
      var fields := ValueFields(subs);
      RunSubsIsEmitSubs(name, floats, fields, rd, recs[0], subs);
      var rd1 := RunSubs(name, floats, fields, rd, recs[0], subs);
      var e1 := EmitSubs(name, floats, fields, recs[0], subs);
      if e1.Success? {
        RunRowsIsEmitRows(name, floats, subs, rd1, recs[1..]);
        var e2 := EmitRows(name, floats, subs, recs[1..]);
        if e2.Success? {
          ApplyWritesAppend(floats, rd, e1.value, e2.value);
        }
      }
    }
  }

  /**
   * SetMetrics, seen as writes: it fails exactly when Emit does, with the
   * same error, and otherwise applies Emit's writes to the held gauges,
   * starting from an empty status map.
   */
  lemma SetMetricsIsEmit(q: Query, floats: FloatFormat, held: map<SeriesKey, Gauge>, recs: seq<Record>)
    ensures var rd := SetMetricsSpec(q, floats, held, recs);
      && (Emit(q, floats, recs).Success? <==> rd.err.None?)
      && (Emit(q, floats, recs).Failure? ==> rd.err == Some(Emit(q, floats, recs).error))
      && (Emit(q, floats, recs).Success? ==>
            rd == ApplyWrites(floats, Round(held, map[], None), Emit(q, floats, recs).value))
  {
    if !(|recs| > 1 && |recs[0]| == 1) && !(q.dataField != "" && |q.subMetrics| > 0) {
      RunRowsIsEmitRows(q.name, floats, EffectiveSubMetrics(q), Round(held, map[], None), recs);
    }
  }

  /**
   * Writes applied from an empty status map: the seen keys are exactly the
   * written ones, each held gauge is kept, a key is Unregistered exactly
   * when it is new and written once, and every gauge written holds its last
   * written value.
   */
  lemma ApplyOutcome(floats: FloatFormat, held: map<SeriesKey, Gauge>, ws: seq<Write>)
    ensures var rd := ApplyWrites(floats, Round(held, map[], None), ws);
      && rd.err.None?
      && rd.seen.Keys == WrittenKeys(ws)
      && rd.held.Keys == held.Keys + WrittenKeys(ws)
      && (forall k :: k in held && k !in WrittenKeys(ws) ==> rd.held[k] == held[k])
      && (forall k :: k in WrittenKeys(ws) ==>
            rd.seen[k] == if k in held || Occurrences(ws, k) > 1 then Registered else Unregistered)
      && (forall k :: k in WrittenKeys(ws) ==>
            rd.held[k] == Base(floats, held, k).(value := LastValue(ws, k)))
  {
    ApplyOutcomeKeys(floats, held, ws);
    ApplyOutcomeOthers(floats, held, ws);
    ApplyOutcomeWritten(floats, held, ws);
  }

  lemma ApplyOutcomeKeys(floats: FloatFormat, held: map<SeriesKey, Gauge>, ws: seq<Write>)
    ensures var rd := ApplyWrites(floats, Round(held, map[], None), ws);
      rd.seen.Keys == WrittenKeys(ws) && rd.held.Keys == held.Keys + WrittenKeys(ws)
  {
    var rd0 := Round(held, map[], None);
    forall k
      ensures k in ApplyWrites(floats, rd0, ws).held <==> k in held || k in WrittenKeys(ws)
      ensures k in ApplyWrites(floats, rd0, ws).seen <==> k in WrittenKeys(ws)
    {
      ApplyWritesKeys(floats, rd0, ws, k);
    }
  }

  lemma ApplyOutcomeOthers(floats: FloatFormat, held: map<SeriesKey, Gauge>, ws: seq<Write>)
    ensures var rd := ApplyWrites(floats, Round(held, map[], None), ws);
      forall k :: k in held && k !in WrittenKeys(ws) ==> k in rd.held && rd.held[k] == held[k]
  {
    var rd0 := Round(held, map[], None);
    forall k | k in held && k !in WrittenKeys(ws)
      ensures k in ApplyWrites(floats, rd0, ws).held && ApplyWrites(floats, rd0, ws).held[k] == held[k]
    {
      ApplyWritesOther(floats, rd0, ws, k);
    }
  }

  lemma ApplyOutcomeWritten(floats: FloatFormat, held: map<SeriesKey, Gauge>, ws: seq<Write>)
    ensures var rd := ApplyWrites(floats, Round(held, map[], None), ws);
      forall k :: k in WrittenKeys(ws) ==>
        && k in rd.seen && k in rd.held
        && rd.seen[k] == (if k in held || Occurrences(ws, k) > 1 then Registered else Unregistered)
        && rd.held[k] == Base(floats, held, k).(value := LastValue(ws, k))
  {
    var rd0 := Round(held, map[], None);
    forall k | k in WrittenKeys(ws)
      ensures var rd := ApplyWrites(floats, rd0, ws);
        && k in rd.seen && k in rd.held
        && rd.seen[k] == (if k in held || Occurrences(ws, k) > 1 then Registered else Unregistered)
        && rd.held[k] == Base(floats, held, k).(value := LastValue(ws, k))
    {
      ApplyWritesStatus(floats, rd0, ws, k);
      ApplyWritesValue(floats, rd0, ws, k);
    }
  }

  /** ApplyOutcome, for the writes of a successful SetMetrics round. */
  lemma RoundOutcome(q: Query, floats: FloatFormat, held: map<SeriesKey, Gauge>, recs: seq<Record>)
    requires SetMetricsSpec(q, floats, held, recs).err.None?
    ensures Emit(q, floats, recs).Success?
    ensures var rd := SetMetricsSpec(q, floats, held, recs); var ws := Emit(q, floats, recs).value;
      && rd.seen.Keys == WrittenKeys(ws)
      && rd.held.Keys == held.Keys + WrittenKeys(ws)
      && (forall k :: k in held && k !in WrittenKeys(ws) ==> rd.held[k] == held[k])
      && (forall k :: k in WrittenKeys(ws) ==>
            rd.seen[k] == if k in held || Occurrences(ws, k) > 1 then Registered else Unregistered)
      && (forall k :: k in WrittenKeys(ws) ==>
            rd.held[k] == Base(floats, held, k).(value := LastValue(ws, k)))
  {
    SetMetricsIsEmit(q, floats, held, recs);
    ApplyOutcome(floats, held, Emit(q, floats, recs).value);
  }

  /**
   * Writes landing on exactly the keys they write, each already holding its
   * last written value, report every key Registered and change nothing.
   */
  lemma ApplyToSettled(floats: FloatFormat, h1: map<SeriesKey, Gauge>, ws: seq<Write>)
    requires h1.Keys == WrittenKeys(ws)
    requires forall k :: k in h1 ==> h1[k].value == LastValue(ws, k)
    ensures ApplyWrites(floats, Round(h1, map[], None), ws) == Round(h1, map k | k in h1 :: Registered, None)
  {
    var rd0 := Round(h1, map[], None);
    var r2 := ApplyWrites(floats, rd0, ws);
    assert r2.held == h1 by {
      forall k
        ensures k in r2.held <==> k in h1
      {
        ApplyWritesKeys(floats, rd0, ws, k);
      }
      forall k | k in h1
        ensures r2.held[k] == h1[k]
      {
        ApplyWritesValue(floats, rd0, ws, k);
      }
    }
    assert r2.seen == map k | k in h1 :: Registered by {
      forall k
        ensures k in r2.seen <==> k in h1
      {
        ApplyWritesKeys(floats, rd0, ws, k);
      }
      forall k | k in h1
        ensures r2.seen[k] == Registered
      {
        ApplyWritesStatus(floats, rd0, ws, k);
      }
    }
  }

  /** Applying the same writes to what a reconciled round kept changes nothing. */
  lemma ApplyAgainIsQuiet(floats: FloatFormat, held: map<SeriesKey, Gauge>, ws: seq<Write>)
    ensures var r1 := ApplyWrites(floats, Round(held, map[], None), ws);
      var h1 := Kept(r1.held, r1.seen);
      ApplyWrites(floats, Round(h1, map[], None), ws) == Round(h1, map k | k in h1 :: Registered, None)
  {
    var r1 := ApplyWrites(floats, Round(held, map[], None), ws);
    var h1 := Kept(r1.held, r1.seen);
    ApplyOutcome(floats, held, ws);
    ApplyToSettled(floats, h1, ws);
  }

  /**
   * Re-applying the record set after a successful round and its
   * reconciliation reports every key Registered and changes nothing, so the
   * second reconciliation retires and publishes nothing.
   */
  lemma ReapplyIsQuiet(q: Query, floats: FloatFormat, held: map<SeriesKey, Gauge>, recs: seq<Record>)
    requires SetMetricsSpec(q, floats, held, recs).err.None?
    ensures var r1 := SetMetricsSpec(q, floats, held, recs);
      var h1 := Kept(r1.held, r1.seen);
      var r2 := SetMetricsSpec(q, floats, h1, recs);
      && r2 == Round(h1, map k | k in h1 :: Registered, None)
      && Retired(h1, r2.seen) == {}
      && Pending(h1, r2.seen) == {}
      && Kept(h1, r2.seen) == h1
  {
    var r1 := SetMetricsSpec(q, floats, held, recs);
    var h1 := Kept(r1.held, r1.seen);
    var r2 := SetMetricsSpec(q, floats, h1, recs);
    assert r2 == Round(h1, map k | k in h1 :: Registered, None) by {
      SetMetricsIsEmit(q, floats, held, recs);
      SetMetricsIsEmit(q, floats, h1, recs);
      ApplyAgainIsQuiet(floats, held, Emit(q, floats, recs).value);
    }
    assert Pending(h1, r2.seen) == {};
  }

  /** Keys held when a successful round starts are reported Registered if met. */
  lemma HeldKeysReportedRegistered(q: Query, floats: FloatFormat, held: map<SeriesKey, Gauge>, recs: seq<Record>)
    requires SetMetricsSpec(q, floats, held, recs).err.None?
    ensures var rd := SetMetricsSpec(q, floats, held, recs);
      forall k :: k in held && k in rd.seen ==> rd.seen[k] == Registered
  {
    RoundOutcome(q, floats, held, recs);
  }

  /**
   * A gauge created in a round that then failed is never published by a
   * later successful round: that round finds it held and reports it
   * Registered.
   */
  lemma OrphanNeverPublished(q: Query, floats: FloatFormat, held: map<SeriesKey, Gauge>, published: set<SeriesKey>,
                             failed: seq<Record>, next: seq<Record>, k: SeriesKey)
    requires published <= held.Keys
    requires SetMetricsSpec(q, floats, held, failed).err.Some?
    requires SetMetricsSpec(q, floats, SetMetricsSpec(q, floats, held, failed).held, next).err.None?
    requires k in SetMetricsSpec(q, floats, held, failed).held && k !in held
    ensures var h1 := SetMetricsSpec(q, floats, held, failed).held;
      var r2 := SetMetricsSpec(q, floats, h1, next);
      k !in (published - Retired(r2.held, r2.seen)) + Pending(r2.held, r2.seen)
  {
    HeldKeysReportedRegistered(q, floats, SetMetricsSpec(q, floats, held, failed).held, next);
  }

  /**
   * A new key met twice in one successful round is kept but reported
   * Registered, so reconciliation never publishes it; its gauge holds the
   * last value written.
   */
  lemma RepeatedNewKeyNotPublished(q: Query, floats: FloatFormat, held: map<SeriesKey, Gauge>,
                                   published: set<SeriesKey>, recs: seq<Record>, k: SeriesKey)
    requires published <= held.Keys
    requires SetMetricsSpec(q, floats, held, recs).err.None?
    requires Emit(q, floats, recs).Success? && Occurrences(Emit(q, floats, recs).value, k) > 1
    requires k !in held
    ensures var rd := SetMetricsSpec(q, floats, held, recs);
      && k in Kept(rd.held, rd.seen)
      && rd.held[k].value == LastValue(Emit(q, floats, recs).value, k)
      && k !in (published - Retired(rd.held, rd.seen)) + Pending(rd.held, rd.seen)
  {
    RoundOutcome(q, floats, held, recs);
  }

  /** The record Fetch applies after a failed attempt. */
  function ErrorRecord(valueOnError: string): (recs: seq<Record>)
    ensures |recs| == 1 && recs[0] == [("error", VString(valueOnError))]
  {
    [[("error", VString(valueOnError))]]
  }

  /** The series of the error record: one per sub-metric, without labels. */
  function ErrorKeys(q: Query): set<SeriesKey>
  {
    set p | p in EffectiveSubMetrics(q) :: KeyFor(q.name, p.0, map[])
  }

  lemma {:induction false} EmitSubsSingleColumn(name: string, floats: FloatFormat, fields: set<string>,
                                                col: Column, subs: seq<(string, string)>, f: real)
    requires Coerce(floats, col.1) == Success(f)
    decreases |subs|
    ensures EmitSubs(name, floats, fields, [col], subs).Success?
    ensures WrittenKeys(EmitSubs(name, floats, fields, [col], subs).value)
         == set p | p in subs :: KeyFor(name, p.0, map[])
    ensures forall w :: w in EmitSubs(name, floats, fields, [col], subs).value ==> w.value == f
  {
    if subs != [] {
      SplitSingleColumn(col, subs[0].1, fields);
      EmitSubsSingleColumn(name, floats, fields, col, subs[1..], f);
      assert forall p :: p in subs <==> p == subs[0] || p in subs[1..];
    }
  }

  lemma {:induction false} LastValueIsSomeWrite(ws: seq<Write>, k: SeriesKey)
    requires k in WrittenKeys(ws)
    ensures exists w :: w in ws && w.value == LastValue(ws, k)
  {
    if k in WrittenKeys(ws[1..]) {
      LastValueIsSomeWrite(ws[1..], k);
    } else {
      assert ws[0] in ws;
    }
  }

  /** The error record emits one write per sub-metric, all of the parsed value. */
  lemma ErrorRecordWrites(q: Query, floats: FloatFormat, valueOnError: string)
    requires !(q.dataField != "" && |q.subMetrics| > 0)
    requires floats.parse(valueOnError).Some?
    ensures Emit(q, floats, ErrorRecord(valueOnError)).Success?
    ensures WrittenKeys(Emit(q, floats, ErrorRecord(valueOnError)).value) == ErrorKeys(q)
    ensures forall w :: w in Emit(q, floats, ErrorRecord(valueOnError)).value ==>
              w.value == floats.parse(valueOnError).value
  {
    var col := ("error", VString(valueOnError));
    var subs := EffectiveSubMetrics(q);
    EmitSubsSingleColumn(q.name, floats, ValueFields(subs), col, subs, floats.parse(valueOnError).value);
    var ws := EmitSubs(q.name, floats, ValueFields(subs), [col], subs).value;
    assert ErrorRecord(valueOnError)[0] == [col] && ErrorRecord(valueOnError)[1..] == [];
    assert EmitRows(q.name, floats, subs, []) == Success([]);
    assert ws + [] == ws;
    assert EmitRows(q.name, floats, subs, ErrorRecord(valueOnError)) == Success(ws);
  }

  /**
   * The error record, once reconciled, leaves exactly one series per
   * sub-metric suffix, without labels, holding the parsed value on error;
   * every other series is retired.
   */
  lemma ErrorRecordLeavesErrorSeries(q: Query, floats: FloatFormat, held: map<SeriesKey, Gauge>, valueOnError: string)
    requires !(q.dataField != "" && |q.subMetrics| > 0)
    requires floats.parse(valueOnError).Some?
    ensures var rd := SetMetricsSpec(q, floats, held, ErrorRecord(valueOnError));
      && rd.err.None?
      && rd.seen.Keys == ErrorKeys(q)
      && Kept(rd.held, rd.seen).Keys == ErrorKeys(q)
      && Retired(rd.held, rd.seen) == held.Keys - ErrorKeys(q)
      && forall k :: k in ErrorKeys(q) ==> rd.held[k].value == floats.parse(valueOnError).value
  {
    var recs := ErrorRecord(valueOnError);
    ErrorRecordWrites(q, floats, valueOnError);
    SetMetricsIsEmit(q, floats, held, recs);
    ApplyUniform(floats, held, Emit(q, floats, recs).value, floats.parse(valueOnError).value);
  }

  /**
   * Writes all of one value, applied from an empty status map, keep exactly
   * the written keys, each holding that value, and retire the rest.
   */
  lemma ApplyUniform(floats: FloatFormat, held: map<SeriesKey, Gauge>, ws: seq<Write>, f: real)
    requires forall w :: w in ws ==> w.value == f
    ensures var rd := ApplyWrites(floats, Round(held, map[], None), ws);
      && rd.err.None?
      && rd.seen.Keys == WrittenKeys(ws)
      && Kept(rd.held, rd.seen).Keys == WrittenKeys(ws)
      && Retired(rd.held, rd.seen) == held.Keys - WrittenKeys(ws)
      && forall k :: k in WrittenKeys(ws) ==> rd.held[k].value == f
  {
    var rd0 := Round(held, map[], None);
    var rd := ApplyWrites(floats, rd0, ws);
    forall k
      ensures k in rd.held <==> k in held || k in WrittenKeys(ws)
      ensures k in rd.seen <==> k in WrittenKeys(ws)
    {
      ApplyWritesKeys(floats, rd0, ws, k);
    }
    forall k | k in WrittenKeys(ws)
      ensures rd.held[k].value == f
    {
      ApplyWritesValue(floats, rd0, ws, k);
      LastValueIsSomeWrite(ws, k);
    }
    assert rd.seen.Keys == WrittenKeys(ws);
    assert Kept(rd.held, rd.seen).Keys == WrittenKeys(ws);
    assert Retired(rd.held, rd.seen) == held.Keys - WrittenKeys(ws);
  }

  // ------------------------------------------------------ reconciliation

  /** The gauges RegisterMetrics keeps: those seen this round. */
  function Kept(held: map<SeriesKey, Gauge>, seen: map<SeriesKey, Status>): (r: map<SeriesKey, Gauge>)
    ensures r.Keys == held.Keys * seen.Keys
    ensures forall k :: k in r ==> r[k] == held[k]
  {
    map k | k in held && k in seen :: held[k]
  }

  /** The held keys RegisterMetrics unregisters and deletes. */
  function Retired(held: map<SeriesKey, Gauge>, seen: map<SeriesKey, Status>): (r: set<SeriesKey>)
    ensures forall k :: k in r <==> k in held && k !in seen
    ensures r !! Kept(held, seen).Keys && r + Kept(held, seen).Keys == held.Keys
  {
    held.Keys - seen.Keys
  }

  /** The held keys RegisterMetrics registers, once it returns. */
  function Pending(held: map<SeriesKey, Gauge>, seen: map<SeriesKey, Status>): (r: set<SeriesKey>)
    ensures forall k :: k in r <==> k in held && k in seen && seen[k] == Unregistered
    ensures r <= Kept(held, seen).Keys && r !! Retired(held, seen)
  {
    set k | k in held && k in seen && seen[k] == Unregistered
  }

  /** The keys a registry event sequence leaves published. */
  function PublishedBy(log: seq<RegistryEvent>): set<SeriesKey>
  {
    if log == [] then {}
    else
      var before := PublishedBy(log[..|log| - 1]);
      match log[|log| - 1]
      case Publish(k) => before + {k}
      case Retire(k) => before - {k}
  }

  /** The keys an event sequence retires. */
  function RetiredIn(ev: seq<RegistryEvent>): set<SeriesKey>
  {
    if ev == [] then {}
    else RetiredIn(ev[..|ev| - 1]) + (if ev[|ev| - 1].Retire? then {ev[|ev| - 1].key} else {})
  }

  /** The keys an event sequence publishes. */
  function PublishedIn(ev: seq<RegistryEvent>): set<SeriesKey>
  {
    if ev == [] then {}
    else PublishedIn(ev[..|ev| - 1]) + (if ev[|ev| - 1].Publish? then {ev[|ev| - 1].key} else {})
  }

  /** No publication comes before a retirement. */
  predicate RetiresFirst(ev: seq<RegistryEvent>)
  {
    forall i, j :: 0 <= i < j < |ev| && ev[i].Publish? ==> ev[j].Publish?
  }

  lemma EventsAppend(ev: seq<RegistryEvent>, e: RegistryEvent)
    ensures RetiredIn(ev + [e]) == RetiredIn(ev) + (if e.Retire? then {e.key} else {})
    ensures PublishedIn(ev + [e]) == PublishedIn(ev) + (if e.Publish? then {e.key} else {})
  {
    assert (ev + [e])[..|ev + [e]| - 1] == ev;
  }

  /**
   * Events that retire first and publish afterwards take the retired keys
   * out of the published set and then add the published ones.
   */
  lemma {:induction false} PublishedAfterReconcile(log: seq<RegistryEvent>, ev: seq<RegistryEvent>)
    requires RetiresFirst(ev)
    ensures PublishedBy(log + ev) == (PublishedBy(log) - RetiredIn(ev)) + PublishedIn(ev)
  {
    if ev == [] {
      assert log + ev == log;
    } else {
      var init := ev[..|ev| - 1];
      assert RetiresFirst(init);
      PublishedAfterReconcile(log, init);
      assert (log + ev)[..|log + ev| - 1] == log + init;
      if ev[|ev| - 1].Retire? {
        assert PublishedIn(init) == {} by {
          assert forall i :: 0 <= i < |init| ==> !init[i].Publish?;
          NoPublications(init);
        }
      }
    }
  }

  lemma {:induction false} NoPublications(ev: seq<RegistryEvent>)
    requires forall i :: 0 <= i < |ev| ==> !ev[i].Publish?
    ensures PublishedIn(ev) == {}
  {
    if ev != [] {
      NoPublications(ev[..|ev| - 1]);
    }
  }

  /** The publications the deferred registrations make, in the order they run. */
  function Publications(keys: seq<SeriesKey>): (ev: seq<RegistryEvent>)
    ensures |ev| == |keys|
    ensures forall i :: 0 <= i < |keys| ==> ev[i] == Publish(keys[i])
  {
    if keys == [] then [] else Publications(keys[..|keys| - 1]) + [Publish(keys[|keys| - 1])]
  }

  /** Appending the deferred registrations publishes exactly their keys and retires nothing more. */
  lemma {:induction false} DeferredRegistrations(ev: seq<RegistryEvent>, keys: seq<SeriesKey>)
    decreases |keys|
    ensures RetiredIn(ev + Publications(keys)) == RetiredIn(ev)
    ensures PublishedIn(ev + Publications(keys)) == PublishedIn(ev) + set k | k in keys
  {
    if keys != [] {
      var last := keys[|keys| - 1];
      var init := keys[..|keys| - 1];
      DeferredRegistrations(ev, init);
      assert ev + Publications(keys) == (ev + Publications(init)) + [Publish(last)];
      EventsAppend(ev + Publications(init), Publish(last));
      assert keys == init + [last];
    } else {
      assert ev + Publications(keys) == ev;
    }
  }

  /**
   * The events of a reconciliation, retirements followed by the deferred
   * registrations, retire and publish exactly the given keys.
   */
  lemma ReconcileEvents(log: seq<RegistryEvent>, retires: seq<RegistryEvent>, deferred: seq<SeriesKey>,
                        retired: set<SeriesKey>, pending: set<SeriesKey>)
    requires forall i :: 0 <= i < |retires| ==> retires[i].Retire?
    requires RetiredIn(retires) == retired
    requires forall k :: k in deferred <==> k in pending
    ensures var ev := retires + Publications(deferred);
      && RetiresFirst(ev)
      && RetiredIn(ev) == retired
      && PublishedIn(ev) == pending
      && PublishedBy(log + ev) == (PublishedBy(log) - retired) + pending
  {
    var ev := retires + Publications(deferred);
    DeferredRegistrations(retires, deferred);
    NoPublications(retires);
    assert (set k | k in deferred) == pending;
    PublishedAfterReconcile(log, ev);
  }

  /** Reconciliation keeps every series it leaves published. */
  lemma PublishedStayHeld(held: map<SeriesKey, Gauge>, seen: map<SeriesKey, Status>, published: set<SeriesKey>)
    requires published <= held.Keys
    ensures (published - Retired(held, seen)) + Pending(held, seen) <= Kept(held, seen).Keys
  {
  }

  // ------------------------------------------------------------- registry

  /**
   * QueryResult: the gauges of one query, keyed by series, and the events
   * it has sent to Prometheus' default registerer. Every published series
   * is held.
   */
  class QueryResult {
    const query: Query
    const floats: FloatFormat
    var result: map<SeriesKey, Gauge>
    ghost var log: seq<RegistryEvent>

    ghost predicate Valid()
      reads this
    {
      PublishedBy(log) <= result.Keys
    }

    /** The series currently registered with Prometheus. */
    ghost function Published(): set<SeriesKey>
      reads this
    {
      PublishedBy(log)
    }

    /** NewQueryResult: no gauges, nothing published. */
    constructor (q: Query, floats: FloatFormat)
      ensures query == q && this.floats == floats
      ensures result == map[] && Published() == {}
      ensures Valid()
    {
      query := q;
      this.floats := floats;
      result := map[];
      log := [];
    }

    /**
     * registerMetric: the key of the series named after the query and the
     * suffix with these labels, creating its gauge (unpublished) unless it
     * is already held.
     */
    method RegisterMetric(facet: Facet, suffix: string) returns (key: SeriesKey, status: Status)
      modifies this
      ensures key == KeyFor(query.name, suffix, facet)
      ensures status == Registered <==> key in old(result)
      ensures result == Create(floats, old(result), key)
      ensures log == old(log)
    {
      key := KeyFor(query.name, suffix, facet);
      if key in result {
        return key, Registered;
      }
      result := result[key := NewGauge(floats, key)];
      status := Unregistered;
    }

    /** setValueForResult: set the held gauge `key` from a decoded value. */
    method SetValueForResult(key: SeriesKey, v: Value) returns (err: Option<SetError>)
      requires key in result
      modifies this
      ensures log == old(log)
      ensures err.None? <==> Coerce(floats, v).Success?
      ensures err.Some? ==> err.value == BadValue(Coerce(floats, v).error) && result == old(result)
      ensures err.None? ==> result == old(result)[key := old(result)[key].(value := Coerce(floats, v).value)]
    {
      match Coerce(floats, v) {
        case Failure(e) =>
          return Some(BadValue(e));
        case Success(f) =>
          result := result[key := result[key].(value := f)];
          return None;
      }
    }

    /** Whether a lower-cased column name is the value column of some sub-metric. */
    static method IsValueColumn(name: string, subs: seq<(string, string)>) returns (b: bool)
      ensures b <==> name in ValueFields(subs)
    {
      b := false;
      var m := 0;
      while m < |subs|
        invariant 0 <= m <= |subs|
        invariant b <==> exists p :: p in subs[..m] && p.1 == name
      {
        if name == subs[m].1 {
          b := true;
        }
        assert subs[..m + 1] == subs[..m] + [subs[m]];
        m := m + 1;
      }
      assert subs[..m] == subs;
    }

    /**
     * The column loop of SetMetrics for one sub-metric: the facet and the
     * value of a row, or why the row has no single value.
     */
    static method SplitColumns(row: Record, dataField: string, subs: seq<(string, string)>)
      returns (r: Result<Split, SetError>)
      ensures r == SplitRow(row, dataField, ValueFields(subs))
    {
      var multi := |row| > 1;
      var facet: Facet := map[];
      var dataVal: Option<Value> := None;
      var c := 0;
      while c < |row|
        invariant 0 <= c <= |row|
        invariant ScanFrom(Scan(map[], None, false), row, multi, dataField, ValueFields(subs))
               == ScanFrom(Scan(facet, dataVal, false), row[c..], multi, dataField, ValueFields(subs))
      {
        var name := Lower(row[c].0);
        if multi && name != dataField {
          var submetric := IsValueColumn(name, subs);
          if !submetric {
            facet := facet[name := row[c].1];
          }
        } else {
          if dataVal.Some? {
            return Failure(DataFieldNotSpecified);
          }
          dataVal := Some(row[c].1);
        }
        c := c + 1;
      }
      assert row[c..] == [];
      if dataVal.None? {
        return Failure(DataFieldNotFound);
      }
      return Success(Split(facet, dataVal.value));
    }

    /**
     * The sub-metric loop of SetMetrics for one row: register and set one
     * gauge per sub-metric, stopping at the first error.
     */
    method SetRow(row: Record, subs: seq<(string, string)>, seen: map<SeriesKey, Status>)
      returns (seen': map<SeriesKey, Status>, err: Option<SetError>)
      modifies this
      ensures log == old(log) && old(result).Keys <= result.Keys
      ensures RunSubs(query.name, floats, ValueFields(subs), Round(old(result), seen, None), row, subs)
           == Round(result, seen', err)
    {
      ghost var fields := ValueFields(subs);
      seen' := seen;
      var j := 0;
      while j < |subs|
        invariant 0 <= j <= |subs|
        invariant log == old(log) && old(result).Keys <= result.Keys
        invariant RunSubs(query.name, floats, fields, Round(old(result), seen, None), row, subs)
               == RunSubs(query.name, floats, fields, Round(result, seen', None), row, subs[j..])
      {
        var split := SplitColumns(row, subs[j].1, subs);
        if split.Failure? {
          return seen', Some(split.error);
        }
        ghost var before := Round(result, seen', None);
        var key, status := RegisterMetric(split.value.facet, subs[j].0);
        var e := SetValueForResult(key, split.value.value);
        if e.Some? {
          return seen', e;
        }
        seen' := seen'[key := status];
        assert RunSubs(query.name, floats, fields, before, row, subs[j..])
            == RunSubs(query.name, floats, fields, Round(result, seen', None), row, subs[j + 1..]) by {
          var f := Coerce(floats, split.value.value).value;
          assert Round(result, seen', None) == WriteOne(floats, before, Write(key, f));
          RunSubsStep(query.name, floats, fields, before, row, subs[j..], split.value, f);
          assert subs[j..][1..] == subs[j + 1..];
        }
        j := j + 1;
      }
      assert subs[j..] == [];
      return seen', None;
    }

    /**
     * SetMetrics: one round over a record set. It ends at the first error,
     * keeping the gauges created until then, and otherwise returns the
     * status of every series it met.
     */
    method SetMetrics(recs: seq<Record>) returns (r: Result<map<SeriesKey, Status>, SetError>)
      requires Valid()
      modifies this
      ensures Valid()
      ensures log == old(log)
      ensures var spec := SetMetricsSpec(query, floats, old(result), recs);
        && result == spec.held
        && (r.Success? <==> spec.err.None?)
        && (r.Success? ==> r.value == spec.seen)
        && (r.Failure? ==> spec.err == Some(r.error))
    {
      if |recs| > 1 && |recs[0]| == 1 {
        return Failure(MultiRowSingleColumn);
      }
      if query.dataField != "" && |query.subMetrics| > 0 {
        return Failure(SubMetricsWithDataField);
      }
      var subs: seq<(string, string)>;
      if |query.subMetrics| > 0 {
        subs := query.subMetrics;
      } else {
        subs := [("", query.dataField)];
      }
      var seen, err := SetRows(recs, subs);
      if err.Some? {
        return Failure(err.value);
      }
      return Success(seen);
    }

    /** The row loop of SetMetrics, from no statuses until the first error. */
    method SetRows(recs: seq<Record>, subs: seq<(string, string)>)
      returns (seen: map<SeriesKey, Status>, err: Option<SetError>)
      modifies this
      ensures log == old(log) && old(result).Keys <= result.Keys
      ensures RunRows(query.name, floats, subs, Round(old(result), map[], None), recs) == Round(result, seen, err)
    {
      ghost var start := Round(result, map[], None);
      seen := map[];
      var i := 0;
      while i < |recs|
        invariant 0 <= i <= |recs|
        invariant log == old(log) && old(result).Keys <= result.Keys
        invariant RunRows(query.name, floats, subs, start, recs)
               == RunRows(query.name, floats, subs, Round(result, seen, None), recs[i..])
      {
        seen, err := SetRow(recs[i], subs, seen);
        assert recs[i..][0] == recs[i] && recs[i..][1..] == recs[i + 1..];
        if err.Some? {
          return;
        }
        i := i + 1;
      }
      assert recs[i..] == [];
      return seen, None;
    }

    /**
     * RegisterMetrics: reconcile the held gauges with the statuses of a
     * round. A held series the round did not meet is unregistered and
     * deleted at once; a series it reported Unregistered is registered by a
     * deferred call, so after every retirement.
     */
    method RegisterMetrics(seen: map<SeriesKey, Status>)
      requires Valid()
      modifies this
      ensures Valid()
      ensures result == Kept(old(result), seen)
      ensures |log| >= |old(log)| && log[..|old(log)|] == old(log)
      ensures var ev := log[|old(log)|..];
        && RetiresFirst(ev)
        && RetiredIn(ev) == Retired(old(result), seen)
        && PublishedIn(ev) == Pending(old(result), seen)
      ensures Published() == (old(Published()) - Retired(old(result), seen)) + Pending(old(result), seen)
    {
      ghost var log0 := log;
      var deferred;
      ghost var retires;
      deferred, retires := RetireUnseen(seen);
      log := log + Publications(deferred);
      assert log == log0 + (retires + Publications(deferred));
      ReconcileEvents(log0, retires, deferred, Retired(old(result), seen), Pending(old(result), seen));
      assert log[|log0|..] == retires + Publications(deferred);
      PublishedStayHeld(old(result), seen, old(Published()));
    }

    /**
     * The loop of RegisterMetrics: unregister and delete each held series
     * the round did not meet, and collect, last first, the series whose
     * registration is deferred.
     */
    method RetireUnseen(seen: map<SeriesKey, Status>) returns (deferred: seq<SeriesKey>, ghost retires: seq<RegistryEvent>)
      modifies this
      ensures result == Kept(old(result), seen)
      ensures log == old(log) + retires
      ensures forall i :: 0 <= i < |retires| ==> retires[i].Retire?
      ensures RetiredIn(retires) == Retired(old(result), seen)
      ensures forall k :: k in deferred <==> k in Pending(old(result), seen)
    {
      retires := [];
      deferred := [];
      var todo := result.Keys;
      while todo != {}
        decreases todo
        invariant todo <= old(result).Keys
        invariant forall k :: k in result <==> k in old(result) && (k in seen || k in todo)
        invariant forall k :: k in result ==> result[k] == old(result)[k]
        invariant log == old(log) + retires
        invariant forall i :: 0 <= i < |retires| ==> retires[i].Retire?
        invariant RetiredIn(retires) == old(result).Keys - seen.Keys - todo
        invariant forall k :: k in deferred <==> k in old(result) && k in seen && seen[k] == Unregistered && k !in todo
      {
        var key :| key in todo;
        todo := todo - {key};
        if key !in seen {
          EventsAppend(retires, Retire(key));
          retires := retires + [Retire(key)];
          log := log + [Retire(key)];
          result := result - {key};
        } else if seen[key] == Unregistered {
          deferred := [key] + deferred;
        }
      }
    }
  }
}
