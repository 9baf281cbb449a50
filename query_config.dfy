/**
 * config.go: the parsed configuration and query descriptors, the defaults
 * they are filled from, their validation, and the loading of a query
 * directory. YAML parsing and file reading are not modelled: their results
 * are inputs.
 */
module QueryConfig {
  import opened Wrappers
  import opened Text
  import opened Values

  /** time.Duration: a signed count of nanoseconds. */
  type Duration = int

  const Second: Duration := 1_000_000_000
  const Minute: Duration := 60 * Second
  const DefaultTimeout: Duration := Minute
  const DefaultInterval: Duration := 5 * Minute

  datatype DefaultsData = DefaultsData(
    dataSourceRef: string,
    queryInterval: Duration,
    queryTimeout: Duration,
    queryValueOnError: string)

  datatype DataSource = DataSource(driver: string, properties: map<string, Value>)

  datatype Config = Config(defaults: DefaultsData, dataSources: map<string, DataSource>)

  /**
   * A query descriptor. SubMetrics (suffix to value column) is listed in the
   * order Go's range visits the map.
   */
  datatype Query = Query(
    name: string,
    dataSourceRef: string,
    driver: string,
    connection: map<string, Value>,
    sql: string,
    params: map<string, Value>,
    interval: Duration,
    timeout: Duration,
    dataField: string,
    subMetrics: seq<(string, string)>,
    valueOnError: string)

  datatype ConfigError =
    | DataSourceWithoutDriver(source: string)
    | DataSourceWithoutProperties(source: string)
    | QueryNotNamed
    | QueryWithoutDriver(query: string)
    | QueryWithoutSql(query: string)
    | TimeoutNotPositive(query: string)
    | IntervalNotPositive(query: string)
    | ConfigMissing
    | UnreadableInput
    | UnparsableInput
    | UnreadableDirectory
    | CannotOpen(path: string)

  function CreateDefaultsData(): (d: DefaultsData)
    ensures d.queryInterval == 5 * Minute && d.queryTimeout == Minute
    ensures d.dataSourceRef == "" && d.queryValueOnError == ""
  {
    DefaultsData("", DefaultInterval, DefaultTimeout, "")
  }

  /** The configuration used when no configuration file is given. */
  function NewConfig(): (c: Config)
    ensures c.defaults == CreateDefaultsData() && c.dataSources == map[]
    ensures c.defaults.queryInterval != 0 && c.defaults.queryTimeout != 0
  {
    Config(CreateDefaultsData(), map[])
  }

  /** appendDefaults: a zero interval or timeout in the defaults is replaced. */
  function AppendDefaults(c: Config): (r: Config)
    ensures r.defaults.queryInterval != 0 && r.defaults.queryTimeout != 0
    ensures c.defaults.queryInterval != 0 ==> r.defaults.queryInterval == c.defaults.queryInterval
    ensures c.defaults.queryTimeout != 0 ==> r.defaults.queryTimeout == c.defaults.queryTimeout
    ensures c.defaults.queryInterval == 0 ==> r.defaults.queryInterval == 5 * Minute
    ensures c.defaults.queryTimeout == 0 ==> r.defaults.queryTimeout == Minute
    ensures r.dataSources == c.dataSources
    ensures r.defaults.dataSourceRef == c.defaults.dataSourceRef
    ensures r.defaults.queryValueOnError == c.defaults.queryValueOnError
  {
    var d := c.defaults;
    var d1 := if d.queryInterval == 0 then d.(queryInterval := DefaultInterval) else d;
    var d2 := if d1.queryTimeout == 0 then d1.(queryTimeout := DefaultTimeout) else d1;
    c.(defaults := d2)
  }

  /** A data source is usable when it names a driver and has properties. */
  predicate UsableSource(ds: DataSource)
  {
    ds.driver != "" && |ds.properties| > 0
  }

  /**
   * validateConfig: walks the data sources (in whatever order the map yields
   * them) and reports the first unusable one.
   */
  method ValidateConfig(c: Config) returns (err: Option<ConfigError>)
    ensures err.None? <==> forall n :: n in c.dataSources ==> UsableSource(c.dataSources[n])
    ensures err.Some? ==>
      || (exists n :: n in c.dataSources && c.dataSources[n].driver == ""
            && err.value == DataSourceWithoutDriver(n))
      || (exists n :: n in c.dataSources && c.dataSources[n].driver != ""
            && |c.dataSources[n].properties| == 0 && err.value == DataSourceWithoutProperties(n))
  {
    var todo := c.dataSources.Keys;
    while todo != {}
      invariant todo <= c.dataSources.Keys
      invariant forall n :: n in c.dataSources && n !in todo ==> UsableSource(c.dataSources[n])
      decreases todo
    {
      var name :| name in todo;
      var ds := c.dataSources[name];
      if ds.driver == "" {
        return Some(DataSourceWithoutDriver(name));
      }
      if |ds.properties| == 0 {
        return Some(DataSourceWithoutProperties(name));
      }
      todo := todo - {name};
    }
    return None;
  }

  /** The five checks of validateQuery, in the order they are made. */
  function ValidateQuery(q: Query): (err: Option<ConfigError>)
    ensures err.None? <==>
      q.name != "" && q.driver != "" && q.sql != "" && q.timeout != 0 && q.interval != 0
    ensures err == Some(QueryNotNamed) <==> q.name == ""
    ensures err == Some(QueryWithoutDriver(q.name)) <==> q.name != "" && q.driver == ""
    ensures err == Some(QueryWithoutSql(q.name)) <==> q.name != "" && q.driver != "" && q.sql == ""
    ensures err == Some(TimeoutNotPositive(q.name)) <==>
      q.name != "" && q.driver != "" && q.sql != "" && q.timeout == 0
    ensures err == Some(IntervalNotPositive(q.name)) <==>
      q.name != "" && q.driver != "" && q.sql != "" && q.timeout != 0 && q.interval == 0
  {
    if q.name == "" then Some(QueryNotNamed)
    else if q.driver == "" then Some(QueryWithoutDriver(q.name))
    else if q.sql == "" then Some(QueryWithoutSql(q.name))
    else if q.timeout == 0 then Some(TimeoutNotPositive(q.name))
    else if q.interval == 0 then Some(IntervalNotPositive(q.name))
    else None
  }

  /** The data source a query ends up referring to. */
  function EffectiveSourceRef(c: Config, q: Query): string
  {
    if q.dataSourceRef == "" then c.defaults.dataSourceRef else q.dataSourceRef
  }

  /**
   * The body of decodeQueries' loop for one query named `name`: its name is
   * the map key, the data source, driver, connection, interval, timeout and
   * value-on-error are filled from the configuration where the query leaves
   * them empty, and the data field is lower-cased.
   */
  function FillQuery(c: Config, name: string, q: Query): (r: Query)
    ensures r.name == name && r.dataField == Lower(q.dataField)
    ensures r.dataSourceRef == EffectiveSourceRef(c, q)
    ensures q.driver != "" ==> r.driver == q.driver && r.connection == q.connection
    ensures q.driver == "" && r.dataSourceRef != "" && |c.dataSources| > 0 ==>
      if r.dataSourceRef in c.dataSources
      then r.driver == c.dataSources[r.dataSourceRef].driver
        && r.connection == c.dataSources[r.dataSourceRef].properties
      else r.driver == "" && r.connection == map[]
    ensures q.driver == "" && (r.dataSourceRef == "" || |c.dataSources| == 0) ==>
      r.driver == "" && r.connection == q.connection
    ensures r.interval == if q.interval == 0 then c.defaults.queryInterval else q.interval
    ensures r.timeout == if q.timeout == 0 then c.defaults.queryTimeout else q.timeout
    ensures q.valueOnError != "" ==> r.valueOnError == q.valueOnError
    ensures q.valueOnError == "" ==> r.valueOnError == c.defaults.queryValueOnError
    ensures r.sql == q.sql && r.params == q.params && r.subMetrics == q.subMetrics
  {
    var ref := EffectiveSourceRef(c, q);
    var q1 := q.(name := name, dataSourceRef := ref);
    var q2 :=
      if q1.driver == "" && ref != "" && |c.dataSources| > 0 then
        var ds := if ref in c.dataSources then c.dataSources[ref] else DataSource("", map[]);
        q1.(driver := ds.driver, connection := ds.properties)
      else q1;
    var q3 := if q2.interval == 0 then q2.(interval := c.defaults.queryInterval) else q2;
    var q4 := if q3.timeout == 0 then q3.(timeout := c.defaults.queryTimeout) else q3;
    var q5 :=
      if q4.valueOnError == "" && c.defaults.queryValueOnError != ""
      then q4.(valueOnError := c.defaults.queryValueOnError) else q4;
    q5.(dataField := Lower(q5.dataField))
  }

  /** Filling a query a second time changes nothing. */
  lemma FillQueryIdempotent(c: Config, name: string, q: Query)
    ensures FillQuery(c, name, FillQuery(c, name, q)) == FillQuery(c, name, q)
  {
    LowerIdempotent(q.dataField);
  }

  /**
   * Under defaults with a non-zero interval and timeout (as NewConfig and
   * AppendDefaults give), validation of a filled query never fails on its
   * timing.
   */
  lemma FilledTimingAlwaysValid(c: Config, name: string, q: Query)
    requires c.defaults.queryInterval != 0 && c.defaults.queryTimeout != 0
    ensures ValidateQuery(FillQuery(c, name, q)) != Some(TimeoutNotPositive(name))
    ensures ValidateQuery(FillQuery(c, name, q)) != Some(IntervalNotPositive(name))
  {
  }

  /**
   * A query without a driver whose data source is not among the configured
   * ones gets an empty driver and is rejected (if it is named).
   */
  lemma UnknownSourceRejected(c: Config, name: string, q: Query)
    requires name != "" && q.driver == ""
    requires EffectiveSourceRef(c, q) !in c.dataSources
    ensures ValidateQuery(FillQuery(c, name, q)) == Some(QueryWithoutDriver(name))
  {
  }

  /** The parsed content of one queries file: a list of name-to-query maps. */
  datatype Document =
    | ReadFailed
    | Malformed
    | Parsed(entries: seq<seq<(string, Query)>>)

  /** Appending two outcomes that may have failed; the first failure wins. */
  function Concat(a: Result<seq<Query>, ConfigError>, b: Result<seq<Query>, ConfigError>): Result<seq<Query>, ConfigError>
  {
    match a
    case Failure(e) => Failure(e)
    case Success(xs) =>
      match b
      case Failure(e) => Failure(e)
      case Success(ys) => Success(xs + ys)
  }

  /** The filled queries of one name-to-query map, listed in iteration order. */
  function FillEntry(c: Config, entry: seq<(string, Query)>): Result<seq<Query>, ConfigError>
  {
    if entry == [] then Success([])
    else
      var q := FillQuery(c, entry[0].0, entry[0].1);
      match ValidateQuery(q)
      case Some(e) => Failure(e)
      case None => Concat(Success([q]), FillEntry(c, entry[1..]))
  }

  /** The queries decodeQueries builds from all maps, in iteration order. */
  function FillAll(c: Config, entries: seq<seq<(string, Query)>>): Result<seq<Query>, ConfigError>
  {
    if entries == [] then Success([]) else Concat(FillEntry(c, entries[0]), FillAll(c, entries[1..]))
  }

  /** decodeQueries, on an already read and parsed input. */
  function DecodeSpec(config: Option<Config>, doc: Document): Result<seq<Query>, ConfigError>
  {
    if config.None? then Failure(ConfigMissing)
    else match doc
      case ReadFailed => Failure(UnreadableInput)
      case Malformed => Failure(UnparsableInput)
      case Parsed(entries) => FillAll(config.value, entries)
  }

  /**
   * decodeQueries: every query of every map is filled and validated in turn
   * and appended to the list; the first invalid one aborts the whole call.
   */
  method DecodeQueries(config: Option<Config>, doc: Document) returns (r: Result<seq<Query>, ConfigError>)
    ensures r == DecodeSpec(config, doc)
  {
    if config.None? {
      return Failure(ConfigMissing);
    }
    var c := config.value;
    if doc.ReadFailed? {
      return Failure(UnreadableInput);
    }
    if doc.Malformed? {
      return Failure(UnparsableInput);
    }
    var entries := doc.entries;
    var queries: seq<Query> := [];
    assert entries[0..] == entries;
    ConcatUnit(FillAll(c, entries));
    var i := 0;
    while i < |entries|
      invariant 0 <= i <= |entries|
      invariant FillAll(c, entries) == Concat(Success(queries), FillAll(c, entries[i..]))
    {
      var entry := entries[i];
      assert entries[i..][1..] == entries[i + 1..];
      var j := 0;
      while j < |entry|
        invariant 0 <= j <= |entry|
        invariant FillAll(c, entries)
               == Concat(Success(queries), Concat(FillEntry(c, entry[j..]), FillAll(c, entries[i + 1..])))
      {
        assert entry[j..][1..] == entry[j + 1..];
        var (name, parsed) := entry[j];
        var q := FillQuery(c, name, parsed);
        var err := ValidateQuery(q);
        if err.Some? {
          return Failure(err.value);
        }
        ghost var rest := FillAll(c, entries[i + 1..]);
        ConcatAssoc(Success([q]), FillEntry(c, entry[j + 1..]), rest);
        ConcatAssoc(Success(queries), Success([q]), Concat(FillEntry(c, entry[j + 1..]), rest));
        queries := queries + [q];
        j := j + 1;
      }
      assert entry[j..] == [];
      ConcatUnit(FillAll(c, entries[i + 1..]));
      i := i + 1;
    }
    assert entries[i..] == [];
    ConcatUnit(Success(queries));
    return Success(queries);
  }

  /** The queries of a list of (name, query) pairs, each filled. */
  function FillEach(c: Config, pairs: seq<(string, Query)>): (qs: seq<Query>)
    ensures |qs| == |pairs|
    ensures forall i :: 0 <= i < |pairs| ==> qs[i] == FillQuery(c, pairs[i].0, pairs[i].1)
  {
    seq(|pairs|, i requires 0 <= i < |pairs| => FillQuery(c, pairs[i].0, pairs[i].1))
  }

  /** All pairs of all maps, in iteration order. */
  function Flatten(entries: seq<seq<(string, Query)>>): seq<(string, Query)>
  {
    if entries == [] then [] else entries[0] + Flatten(entries[1..])
  }

  predicate FillsValid(c: Config, pairs: seq<(string, Query)>)
  {
    forall i :: 0 <= i < |pairs| ==> ValidateQuery(FillQuery(c, pairs[i].0, pairs[i].1)).None?
  }

  lemma FillsValidCons(c: Config, pairs: seq<(string, Query)>)
    requires pairs != []
    ensures FillsValid(c, pairs) <==>
      ValidateQuery(FillQuery(c, pairs[0].0, pairs[0].1)).None? && FillsValid(c, pairs[1..])
  {
    assert forall i :: 0 < i < |pairs| ==> pairs[i] == pairs[1..][i - 1];
  }

  /**
   * One map: it decodes exactly when every filled query is valid, to the
   * filled queries in order.
   */
  lemma {:induction false} FillEntryOutcome(c: Config, entry: seq<(string, Query)>)
    ensures FillEntry(c, entry).Success? <==> FillsValid(c, entry)
    ensures FillEntry(c, entry).Success? ==> FillEntry(c, entry).value == FillEach(c, entry)
  {
    if entry != [] {
      FillEntryOutcome(c, entry[1..]);
      FillsValidCons(c, entry);
      if FillEntry(c, entry).Success? {
        assert FillEach(c, entry) == [FillQuery(c, entry[0].0, entry[0].1)] + FillEach(c, entry[1..]);
      }
    }
  }

  /** When a map fails to decode, the error is that of its first invalid query. */
  lemma FillEntryFirstError(c: Config, entry: seq<(string, Query)>)
    requires FillEntry(c, entry).Failure?
    ensures exists k ::
              && 0 <= k < |entry| && FillsValid(c, entry[..k])
              && ValidateQuery(FillQuery(c, entry[k].0, entry[k].1)) == Some(FillEntry(c, entry).error)
  {
    var k := FirstInvalid(c, entry);
  }

  /** The index of the first invalid query of a map that fails to decode. */
  lemma {:induction false} FirstInvalid(c: Config, entry: seq<(string, Query)>) returns (k: nat)
    requires FillEntry(c, entry).Failure?
    ensures k < |entry| && FillsValid(c, entry[..k])
    ensures ValidateQuery(FillQuery(c, entry[k].0, entry[k].1)) == Some(FillEntry(c, entry).error)
  {
    if ValidateQuery(FillQuery(c, entry[0].0, entry[0].1)).None? {
      var k' := FirstInvalid(c, entry[1..]);
      FillsValidPrefix(c, entry, k');
      k := k' + 1;
    } else {
      k := 0;
    }
  }

  lemma FillsValidPrefix(c: Config, entry: seq<(string, Query)>, k: nat)
    requires k < |entry| - 1
    requires ValidateQuery(FillQuery(c, entry[0].0, entry[0].1)).None? && FillsValid(c, entry[1..][..k])
    ensures FillsValid(c, entry[..k + 1]) && entry[k + 1] == entry[1..][k]
  {
    assert entry[..k + 1][1..] == entry[1..][..k];
    FillsValidCons(c, entry[..k + 1]);
  }

  lemma ConcatUnit(x: Result<seq<Query>, ConfigError>)
    ensures Concat(Success([]), x) == x
    ensures Concat(x, Success([])) == x
  {
    if x.Success? {
      assert [] + x.value == x.value && x.value + [] == x.value;
    }
  }

  lemma {:induction false} ConcatAssoc(a: Result<seq<Query>, ConfigError>, b: Result<seq<Query>, ConfigError>, d: Result<seq<Query>, ConfigError>)
    ensures Concat(Concat(a, b), d) == Concat(a, Concat(b, d))
  {
    if a.Success? && b.Success? && d.Success? {
      assert (a.value + b.value) + d.value == a.value + (b.value + d.value);
    }
  }

  lemma {:induction false} FillEntryAppend(c: Config, e1: seq<(string, Query)>, e2: seq<(string, Query)>)
    ensures FillEntry(c, e1 + e2) == Concat(FillEntry(c, e1), FillEntry(c, e2))
  {
    if e1 == [] {
      assert e1 + e2 == e2;
      if FillEntry(c, e2).Success? { assert [] + FillEntry(c, e2).value == FillEntry(c, e2).value; }
    } else {
      assert (e1 + e2)[1..] == e1[1..] + e2;
      FillEntryAppend(c, e1[1..], e2);
      var q := FillQuery(c, e1[0].0, e1[0].1);
      ConcatAssoc(Success([q]), FillEntry(c, e1[1..]), FillEntry(c, e2));
    }
  }

  /**
   * The nested loop of decodeQueries behaves as one loop over all pairs: the
   * whole input decodes exactly when every filled query is valid, to all of
   * them in order.
   */
  lemma {:induction false} FillAllOutcome(c: Config, entries: seq<seq<(string, Query)>>)
    ensures FillAll(c, entries) == FillEntry(c, Flatten(entries))
    ensures FillAll(c, entries).Success? <==> FillsValid(c, Flatten(entries))
    ensures FillAll(c, entries).Success? ==> FillAll(c, entries).value == FillEach(c, Flatten(entries))
  {
    if entries != [] {
      FillAllOutcome(c, entries[1..]);
      FillEntryAppend(c, entries[0], Flatten(entries[1..]));
    }
    FillEntryOutcome(c, Flatten(entries));
  }

  /** The path loadQueriesInDir opens for a file of the directory. */
  function JoinPath(dir: string, name: string): (r: string)
    ensures |r| > |name| && r[|r| - |name|..] == name && r[|r| - |name| - 1] == '/'
    ensures var d := r[..|r| - |name| - 1];
      && |d| <= |dir| && d == dir[..|d|]
      && (d == [] || d[|d| - 1] != '/')
      && forall i :: |d| <= i < |dir| ==> dir[i] == '/'
  {
    var d := TrimRight(dir, '/');
    var r := d + "/" + name;
    assert r[..|r| - |name| - 1] == d;
    r
  }

  /** Trailing slashes on the directory do not change the paths opened. */
  lemma {:induction false} JoinPathIgnoresTrailingSlash(dir: string, name: string)
    ensures JoinPath(dir + "/", name) == JoinPath(dir, name)
  {
    assert (dir + "/")[..|dir + "/"| - 1] == dir;
  }

  predicate IsQueryFile(name: string)
  {
    HasSuffix(name, ".yml")
  }

  /** Only the ".yml" extension is loaded: a ".yaml" file is skipped. */
  lemma QueryFileExtension(stem: string)
    ensures IsQueryFile(stem + ".yml")
    ensures !IsQueryFile(stem + ".yaml")
  {
    HasSuffixAppended(stem, ".yml");
    var s := stem + ".yaml";
    assert s[|s| - 4..][1] == 'a';
  }

  /**
   * The loop of loadQueriesInDir over the directory listing. `files` maps
   * each path that opens to its content; a path absent from it fails to open.
   */
  function LoadFiles(dir: string, config: Option<Config>, allowFileErrors: bool,
                     names: seq<string>, files: map<string, Document>): Result<seq<Query>, ConfigError>
  {
    if names == [] then Success([])
    else if !IsQueryFile(names[0]) then LoadFiles(dir, config, allowFileErrors, names[1..], files)
    else
      var path := JoinPath(dir, names[0]);
      if path !in files then Failure(CannotOpen(path))
      else
        match DecodeSpec(config, files[path])
        case Success(qs) => Concat(Success(qs), LoadFiles(dir, config, allowFileErrors, names[1..], files))
        case Failure(e) =>
          if allowFileErrors then LoadFiles(dir, config, allowFileErrors, names[1..], files)
          else Failure(e)
  }

  /** loadQueriesInDir; `listing` is None when the directory cannot be read. */
  function LoadSpec(dir: string, config: Option<Config>, allowFileErrors: bool,
                    listing: Option<seq<string>>, files: map<string, Document>): Result<seq<Query>, ConfigError>
  {
    match listing
    case None => Failure(UnreadableDirectory)
    case Some(names) => LoadFiles(dir, config, allowFileErrors, names, files)
  }

  /**
   * loadQueriesInDir: every .yml file of the directory is opened and decoded
   * and its queries are appended; a file that cannot be opened aborts the
   * call, a file that fails to decode is skipped when allowFileErrors is set
   * and aborts the call otherwise.
   */
  method LoadQueriesInDir(dir: string, config: Option<Config>, allowFileErrors: bool,
                          listing: Option<seq<string>>, files: map<string, Document>)
    returns (r: Result<seq<Query>, ConfigError>)
    ensures r == LoadSpec(dir, config, allowFileErrors, listing, files)
  {
    if listing.None? {
      return Failure(UnreadableDirectory);
    }
    var names := listing.value;
    var queries: seq<Query> := [];
    assert names[0..] == names;
    ConcatUnit(LoadFiles(dir, config, allowFileErrors, names, files));
    var i := 0;
    while i < |names|
      invariant 0 <= i <= |names|
      invariant LoadFiles(dir, config, allowFileErrors, names, files)
             == Concat(Success(queries), LoadFiles(dir, config, allowFileErrors, names[i..], files))
    {
      assert names[i..][1..] == names[i + 1..];
      var fn := names[i];
      if HasSuffix(fn, ".yml") {
        var path := JoinPath(dir, fn);
        if path !in files {
          return Failure(CannotOpen(path));
        }
        var q := DecodeQueries(config, files[path]);
        if q.Success? {
          ConcatAssoc(Success(queries), Success(q.value), LoadFiles(dir, config, allowFileErrors, names[i + 1..], files));
          queries := queries + q.value;
        } else if !allowFileErrors {
          return Failure(q.error);
        }
      }
      i := i + 1;
    }
    assert names[i..] == [];
    ConcatUnit(Success(queries));
    return Success(queries);
  }

  /** The .yml names of a listing, in order. */
  function QueryFiles(names: seq<string>): (r: seq<string>)
    ensures forall n :: n in r <==> n in names && IsQueryFile(n)
  {
    if names == [] then []
    else if IsQueryFile(names[0]) then [names[0]] + QueryFiles(names[1..])
    else QueryFiles(names[1..])
  }

  /** Only the .yml entries of the directory matter. */
  lemma {:induction false} OnlyQueryFilesMatter(dir: string, config: Option<Config>, allow: bool,
                                                names: seq<string>, files: map<string, Document>)
    ensures LoadFiles(dir, config, allow, names, files) == LoadFiles(dir, config, allow, QueryFiles(names), files)
  {
    if names != [] {
      OnlyQueryFilesMatter(dir, config, allow, names[1..], files);
      if IsQueryFile(names[0]) {
        assert ([names[0]] + QueryFiles(names[1..]))[1..] == QueryFiles(names[1..]);
      }
    }
  }

  /**
   * With allowFileErrors set, loading fails only on a .yml path that cannot
   * be opened; decoding and validation errors never make it fail.
   */
  lemma {:induction false} LaxLoadFailsOnlyOnOpen(dir: string, config: Option<Config>,
                                                   names: seq<string>, files: map<string, Document>)
    ensures LoadFiles(dir, config, true, names, files).Failure? <==>
      exists n :: n in names && IsQueryFile(n) && JoinPath(dir, n) !in files
    ensures LoadFiles(dir, config, true, names, files).Failure? ==>
      LoadFiles(dir, config, true, names, files).error.CannotOpen?
  {
    if names != [] {
      LaxLoadFailsOnlyOnOpen(dir, config, names[1..], files);
      assert forall n :: n in names <==> n == names[0] || n in names[1..];
    }
  }

  /**
   * Without allowFileErrors, loading succeeds exactly when every .yml file
   * opens and decodes.
   */
  lemma {:induction false} StrictLoadNeedsEveryFile(dir: string, config: Option<Config>,
                                                     names: seq<string>, files: map<string, Document>)
    ensures LoadFiles(dir, config, false, names, files).Success? <==>
      forall n :: n in names && IsQueryFile(n) ==>
        JoinPath(dir, n) in files && DecodeSpec(config, files[JoinPath(dir, n)]).Success?
  {
    if names != [] {
      StrictLoadNeedsEveryFile(dir, config, names[1..], files);
      assert forall n :: n in names <==> n == names[0] || n in names[1..];
    }
  }
}
