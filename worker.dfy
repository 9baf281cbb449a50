/**
 * worker.go: the part of a query worker that decides what a fetch does to
 * the query's registry. HTTP is not modelled: a fetch is a sequence of
 * attempts, each an abstract reply and, for a failed one, whether the
 * backoff wait that follows it was cancelled.
 */
module FetchWorker {
  import opened Wrappers
  import opened Values
  import opened QueryConfig
  import opened MetricSet

  /** The decoded body of a successful reply. */
  datatype Body = Decodes(recs: seq<Record>) | Undecodable

  datatype Reply = TransportError | Response(statusCode: int, body: Body)

  /** One attempt: its reply and, if it fails, whether the backoff wait is cancelled. */
  datatype Attempt = Attempt(reply: Reply, waitCancelled: bool)

  datatype FetchOutcome = Fetched(recs: seq<Record>) | Canceled | DecodeFailed

  /** A transport error or any status code but 200 fails the attempt. */
  predicate Failed(r: Reply)
    ensures !Failed(r) <==> r.Response? && r.statusCode == 200
  {
    r.TransportError? || r.statusCode != 200
  }

  /** An attempt after which Fetch makes no further attempt. */
  predicate Final(a: Attempt)
  {
    !Failed(a.reply) || a.waitCancelled
  }

  /** Some attempt ends the fetch. */
  predicate Ends(attempts: seq<Attempt>)
  {
    |attempts| > 0 && (Final(attempts[0]) || Ends(attempts[1..]))
  }

  /** The index of the attempt that ends the fetch. */
  function FirstFinal(attempts: seq<Attempt>): (k: nat)
    requires Ends(attempts)
    ensures k < |attempts| && Final(attempts[k])
    ensures forall j :: 0 <= j < k ==> !Final(attempts[j])
  {
    if Final(attempts[0]) then 0 else 1 + FirstFinal(attempts[1..])
  }

  /** What a fetch sees of the worker: the held gauges, the published series, the backoff attempt count. */
  datatype State = State(held: map<SeriesKey, Gauge>, published: set<SeriesKey>, attempt: nat)

  /** Worker.SetMetrics: apply a record set and reconcile only if that succeeded. */
  function Apply(q: Query, floats: FloatFormat, s: State, recs: seq<Record>): (r: State)
    ensures r.attempt == s.attempt
    ensures var rd := SetMetricsSpec(q, floats, s.held, recs);
      && (rd.err.Some? ==> s.held.Keys <= r.held.Keys && r.published == s.published)
      && (rd.err.None? ==> r.held.Keys == rd.held.Keys * rd.seen.Keys
                           && r.published !! Retired(rd.held, rd.seen)
                           && Pending(rd.held, rd.seen) <= r.published)
  {
    var rd := SetMetricsSpec(q, floats, s.held, recs);
    if rd.err.Some? then s.(held := rd.held)
    else s.(held := Kept(rd.held, rd.seen),
            published := (s.published - Retired(rd.held, rd.seen)) + Pending(rd.held, rd.seen))
  }

  /** A failed attempt: the error record if ValueOnError is set, then one backoff step. */
  function FailOnce(q: Query, floats: FloatFormat, s: State): (r: State)
    ensures r.attempt == s.attempt + 1
    ensures q.valueOnError == "" ==> r == s.(attempt := s.attempt + 1)
  {
    var s1 := if q.valueOnError != "" then Apply(q, floats, s, ErrorRecord(q.valueOnError)) else s;
    s1.(attempt := s1.attempt + 1)
  }

  /** The fetch loop over its attempts. */
  function FetchSpec(q: Query, floats: FloatFormat, s: State, attempts: seq<Attempt>): (r: (FetchOutcome, State))
    requires Ends(attempts)
    decreases |attempts|
    ensures r.0.Canceled? ==> r.1.attempt > s.attempt
    ensures !r.0.Canceled? ==> r.1.attempt == 0
    ensures r.0.Fetched? || r.0.DecodeFailed? ==> exists k :: 0 <= k < |attempts| && !Failed(attempts[k].reply)
  {
    var a := attempts[0];
    if !Failed(a.reply) then
      var s1 := s.(attempt := 0);
      match a.reply.body
      case Undecodable => (DecodeFailed, s1)
      case Decodes(recs) => (Fetched(recs), Apply(q, floats, s1, recs))
    else
      var s2 := FailOnce(q, floats, s);
      if a.waitCancelled then (Canceled, s2) else FetchSpec(q, floats, s2, attempts[1..])
  }

  /** n failed attempts in a row. */
  function AfterFailures(q: Query, floats: FloatFormat, s: State, n: nat): State
    decreases n
  {
    if n == 0 then s else AfterFailures(q, floats, FailOnce(q, floats, s), n - 1)
  }

  /**
   * A fetch, in closed form: the attempts before the one that ends it all
   * fail; a failed last attempt means its wait was cancelled; otherwise the
   * backoff is reset and the body decides between a decode failure and the
   * records, which are then applied once.
   */
  lemma {:induction false} FetchClosedForm(q: Query, floats: FloatFormat, s: State, attempts: seq<Attempt>)
    requires Ends(attempts)
    decreases |attempts|
    ensures var k := FirstFinal(attempts); var a := attempts[k];
      && (Failed(a.reply) ==>
            FetchSpec(q, floats, s, attempts) == (Canceled, AfterFailures(q, floats, s, k + 1)))
      && (!Failed(a.reply) && a.reply.body.Undecodable? ==>
            FetchSpec(q, floats, s, attempts) == (DecodeFailed, AfterFailures(q, floats, s, k).(attempt := 0)))
      && (!Failed(a.reply) && a.reply.body.Decodes? ==>
            FetchSpec(q, floats, s, attempts)
            == (Fetched(a.reply.body.recs), Apply(q, floats, AfterFailures(q, floats, s, k).(attempt := 0), a.reply.body.recs)))
  {
    if !Final(attempts[0]) {
      FetchClosedForm(q, floats, FailOnce(q, floats, s), attempts[1..]);
    } else if Failed(attempts[0].reply) {
      assert AfterFailures(q, floats, s, 1) == AfterFailures(q, floats, FailOnce(q, floats, s), 0);
    }
  }

  /** Each failed attempt advances the backoff once. */
  lemma {:induction false} AfterFailuresAttempt(q: Query, floats: FloatFormat, s: State, n: nat)
    decreases n
    ensures AfterFailures(q, floats, s, n).attempt == s.attempt + n
  {
    if n > 0 {
      AfterFailuresAttempt(q, floats, FailOnce(q, floats, s), n - 1);
    }
  }

  /** Without ValueOnError, failed attempts leave the registry alone. */
  lemma {:induction false} AfterFailuresQuiet(q: Query, floats: FloatFormat, s: State, n: nat)
    requires q.valueOnError == ""
    decreases n
    ensures AfterFailures(q, floats, s, n) == s.(attempt := s.attempt + n)
  {
    if n > 0 {
      AfterFailuresQuiet(q, floats, FailOnce(q, floats, s), n - 1);
    }
  }

  /**
   * The backoff after a fetch: reset whenever an attempt got a 200 reply,
   * otherwise advanced once per attempt made.
   */
  lemma BackoffAfterFetch(q: Query, floats: FloatFormat, s: State, attempts: seq<Attempt>)
    requires Ends(attempts)
    ensures FetchSpec(q, floats, s, attempts).0.Canceled? ==>
              FetchSpec(q, floats, s, attempts).1.attempt == s.attempt + FirstFinal(attempts) + 1
    ensures !FetchSpec(q, floats, s, attempts).0.Canceled? ==> FetchSpec(q, floats, s, attempts).1.attempt == 0
  {
    FetchClosedForm(q, floats, s, attempts);
    AfterFailuresAttempt(q, floats, s, FirstFinal(attempts) + 1);
  }

  /**
   * Records reach the registry only through a 200 reply that decodes: a
   * cancelled fetch or a decode failure, without ValueOnError, leaves the
   * gauges and the published series as they were.
   */
  lemma OnlyFetchedRecordsApply(q: Query, floats: FloatFormat, s: State, attempts: seq<Attempt>)
    requires Ends(attempts) && q.valueOnError == ""
    ensures var (outcome, s') := FetchSpec(q, floats, s, attempts);
      && (outcome.Fetched? <==> !Failed(attempts[FirstFinal(attempts)].reply)
                                && attempts[FirstFinal(attempts)].reply.body.Decodes?)
      && (!outcome.Fetched? ==> s'.held == s.held && s'.published == s.published)
  {
    FetchClosedForm(q, floats, s, attempts);
    AfterFailuresQuiet(q, floats, s, FirstFinal(attempts));
    AfterFailuresQuiet(q, floats, s, FirstFinal(attempts) + 1);
  }

  /** Worker.SetMetrics keeps every published series held. */
  lemma ApplyKeepsPublishedHeld(q: Query, floats: FloatFormat, s: State, recs: seq<Record>)
    requires s.published <= s.held.Keys
    ensures Apply(q, floats, s, recs).published <= Apply(q, floats, s, recs).held.Keys
  {
    var rd := SetMetricsSpec(q, floats, s.held, recs);
    RunRowsKeepsHeld(q.name, floats, EffectiveSubMetrics(q), Round(s.held, map[], None), recs);
    if rd.err.None? {
      PublishedStayHeld(rd.held, rd.seen, s.published);
    }
  }

  /**
   * After a failed attempt with a usable ValueOnError, the registry holds
   * and publishes only the error series, one per sub-metric suffix, without
   * labels, each holding the value on error.
   */
  lemma FailureLeavesErrorSeries(q: Query, floats: FloatFormat, s: State)
    requires q.valueOnError != "" && floats.parse(q.valueOnError).Some?
    requires !(q.dataField != "" && |q.subMetrics| > 0)
    requires s.published <= s.held.Keys
    ensures var s' := FailOnce(q, floats, s);
      && s'.held.Keys == ErrorKeys(q)
      && s'.published <= ErrorKeys(q)
      && (forall k :: k in s'.held ==> s'.held[k].value == floats.parse(q.valueOnError).value)
      && s'.attempt == s.attempt + 1
  {
    ErrorRecordLeavesErrorSeries(q, floats, s.held, q.valueOnError);
    ApplyKeepsPublishedHeld(q, floats, s, ErrorRecord(q.valueOnError));
  }

  /**
   * Worker: one query's registry and the attempt count of its backoff
   * (jpillora/backoff's attempt field, which Duration advances and Reset
   * clears).
   */
  class Worker {
    const query: Query
    const registry: QueryResult
    var attempt: nat

    ghost predicate Valid()
      reads this, registry
    {
      registry.Valid() && registry.query == query
    }

    ghost function Snapshot(): State
      reads this, registry
    {
      State(registry.result, registry.Published(), attempt)
    }

    /** NewWorker: a fresh, empty registry and a reset backoff. */
    constructor (q: Query, floats: FloatFormat)
      ensures Valid() && fresh(registry)
      ensures query == q && registry.floats == floats
      ensures Snapshot() == State(map[], {}, 0)
    {
      query := q;
      registry := new QueryResult(q, floats);
      attempt := 0;
    }

    /** Worker.SetMetrics: apply the records, and reconcile only if that succeeded. */
    method SetMetrics(recs: seq<Record>)
      requires Valid()
      modifies registry
      ensures Valid()
      ensures Snapshot() == Apply(query, registry.floats, old(Snapshot()), recs)
    {
      var list := registry.SetMetrics(recs);
      if list.Failure? {
        return;
      }
      registry.RegisterMetrics(list.value);
    }

    /**
     * Worker.Fetch: attempt until one gets a 200 reply or a backoff wait is
     * cancelled. A failed attempt applies the error record when
     * ValueOnError is set and advances the backoff; a 200 reply resets it
     * and applies its records if the body decodes.
     */
    method Fetch(attempts: seq<Attempt>) returns (outcome: FetchOutcome)
      requires Valid() && Ends(attempts)
      modifies this, registry
      ensures Valid()
      ensures (outcome, Snapshot()) == FetchSpec(query, registry.floats, old(Snapshot()), attempts)
    {
      var i := 0;
      while Failed(attempts[i].reply)
        invariant 0 <= i < |attempts| && Ends(attempts[i..])
        invariant Valid()
        invariant FetchSpec(query, registry.floats, old(Snapshot()), attempts)
               == FetchSpec(query, registry.floats, Snapshot(), attempts[i..])
        decreases |attempts| - i
      {
        if query.valueOnError != "" {
          SetMetrics(ErrorRecord(query.valueOnError));
        }
        attempt := attempt + 1;
        if attempts[i].waitCancelled {
          return Canceled;
        }
        assert attempts[i..][1..] == attempts[i + 1..];
        i := i + 1;
      }
      attempt := 0;
      match attempts[i].reply.body {
        case Undecodable =>
          return DecodeFailed;
        case Decodes(recs) =>
          SetMetrics(recs);
          return Fetched(recs);
      }
    }
  }
}
