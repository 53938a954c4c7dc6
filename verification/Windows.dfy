/** Window accounting: what one row adds, how windows add up, and the relations every
    window keeps between its counters. */
module Windows {
  import opened Common

  // ----- one row's usage

  /** One source attribute: not there, not a number, too large, or a count. */
  datatype Reading = Absent | Bad | TooLarge | Count(n: nat)

  /** A token field as observed over its sources. */
  datatype Usage = Usage(value: nat, reported: bool, invalid: bool, conflict: bool)

  datatype Observation = Observation(input: Usage, output: Usage, read: Usage, write: Usage, reasoning: Usage, total: nat)

  predicate Reports(sources: seq<Reading>, n: nat) {
    exists k :: 0 <= k < |sources| && sources[k] == Count(n)
  }

  /** Source `k` is the first that has a count. */
  predicate FirstAt(sources: seq<Reading>, k: nat) {
    k < |sources| && sources[k].Count? && forall j :: 0 <= j < k ==> !sources[j].Count?
  }

  /** The field's value is the first count; others that differ are a conflict. */
  ghost predicate Observed(sources: seq<Reading>, u: Usage) {
    && (u.reported <==> exists n :: Reports(sources, n))
    && (u.reported ==> exists k: nat :: FirstAt(sources, k) && sources[k].n == u.value)
    && (!u.reported ==> u.value == 0)
    && (u.invalid <==> exists k :: 0 <= k < |sources| && sources[k].Bad?)
    && (u.conflict <==> exists n :: Reports(sources, n) && n != u.value)
  }

  /** Fails when a count is too large, as it cannot be kept exactly. */
  method Observe(sources: seq<Reading>) returns (u: Option<Usage>)
    requires forall k :: 0 <= k < |sources| && sources[k].Count? ==> sources[k].n <= MAX_INT64
    ensures u.None? <==> exists k :: 0 <= k < |sources| && sources[k].TooLarge?
    ensures u.Some? ==> Observed(sources, u.value) && u.value.value <= MAX_INT64
  {
    var v := Usage(0, false, false, false);
    ghost var first := 0;
    for i := 0 to |sources|
      invariant forall k :: 0 <= k < i ==> !sources[k].TooLarge?
      invariant v.value <= MAX_INT64 && (!v.reported ==> v.value == 0 && !v.conflict)
      invariant v.reported ==> first < i && FirstAt(sources, first) && sources[first].n == v.value
      invariant v.reported <==> exists k :: 0 <= k < i && sources[k].Count?
      invariant v.invalid <==> exists k :: 0 <= k < i && sources[k].Bad?
      invariant v.conflict <==> exists k :: 0 <= k < i && sources[k].Count? && sources[k].n != v.value
    {
      match sources[i]
      case Absent =>
      case TooLarge =>
        return None;
      case Bad =>
        v := v.(invalid := true);
      case Count(n) =>
        if !v.reported {
          v, first := v.(value := n, reported := true), i;
        } else if v.value != n {
          v := v.(conflict := true);
        }
    }
    forall k | 0 <= k < |sources| && sources[k].Count? ensures Reports(sources, sources[k].n) {
    }
    return Some(v);
  }

  predicate Violates(part: Usage, whole: Usage) {
    whole.reported && part.reported && part.value > whole.value
  }

  /** A field whose value can be relied on. */
  predicate Clean(u: Usage) {
    u.reported && !u.invalid && !u.conflict
  }

  predicate ObservationOk(o: Observation) {
    o.total == o.input.value + o.output.value <= MAX_INT64
  }

  /** Input and output may be declared unavailable, which discards what was observed. */
  function Available(u: Usage, unavailable: bool): Usage {
    if unavailable then u.(value := 0, reported := false) else u
  }

  predicate AnyTooLarge(sources: seq<seq<Reading>>) {
    exists f, k :: 0 <= f < |sources| && 0 <= k < |sources[f]| && sources[f][k].TooLarge?
  }

  /** What input and output amount to cannot be counted together. */
  ghost predicate TooMany(input: seq<Reading>, output: seq<Reading>, noInput: bool, noOutput: bool) {
    exists i, o :: Observed(input, i) && Observed(output, o)
      && Available(i, noInput).value + Available(o, noOutput).value > MAX_INT64
  }

  /** The sources decide what is observed. */
  lemma ObservedOnce(sources: seq<Reading>, u: Usage, v: Usage)
    requires Observed(sources, u) && Observed(sources, v)
    ensures u == v
  {
    if u.reported {
      var j: nat :| FirstAt(sources, j) && sources[j].n == u.value;
      var k: nat :| FirstAt(sources, k) && sources[k].n == v.value;
      assert j == k;
    }
  }

  lemma TooManyMeans(input: seq<Reading>, output: seq<Reading>, noInput: bool, noOutput: bool, i: Usage, o: Usage)
    requires Observed(input, i) && Observed(output, o)
    ensures TooMany(input, output, noInput, noOutput)
       <==> Available(i, noInput).value + Available(o, noOutput).value > MAX_INT64
  {
    hide Observed;
    if TooMany(input, output, noInput, noOutput) {
      var i', o' :| Observed(input, i') && Observed(output, o')
        && Available(i', noInput).value + Available(o', noOutput).value > MAX_INT64;
      ObservedOnce(input, i, i');
      ObservedOnce(output, o, o');
    }
  }

  /** One row's token fields; fails when a value or the total is too large. */
  method Tokens(sources: seq<seq<Reading>>, noInput: bool, noOutput: bool) returns (o: Option<Observation>)
    requires |sources| == 5
    requires forall f, k :: 0 <= f < 5 && 0 <= k < |sources[f]| && sources[f][k].Count? ==> sources[f][k].n <= MAX_INT64
    ensures o.None? <==> AnyTooLarge(sources) || TooMany(sources[0], sources[1], noInput, noOutput)
    ensures o.Some? ==> ObservationOk(o.value)
    ensures o.Some? && !noInput ==> Observed(sources[0], o.value.input)
    ensures o.Some? && !noOutput ==> Observed(sources[1], o.value.output)
    ensures o.Some? ==>
      (Observed(sources[2], o.value.read) && Observed(sources[3], o.value.write) && Observed(sources[4], o.value.reasoning))
    ensures o.Some? && noInput ==> !o.value.input.reported && o.value.input.value == 0
    ensures o.Some? && noOutput ==> !o.value.output.reported && o.value.output.value == 0
  {
    hide Observed;
    var fields: seq<Usage> := [];
    for f := 0 to 5
      invariant |fields| == f && forall g :: 0 <= g < f ==> Observed(sources[g], fields[g]) && fields[g].value <= MAX_INT64
      invariant forall g, k :: 0 <= g < f && 0 <= k < |sources[g]| ==> !sources[g][k].TooLarge?
    {
      var u := Observe(sources[f]);
      if u.None? {
        return None;
      }
      fields := fields + [u.value];
    }
    var input, output := Available(fields[0], noInput), Available(fields[1], noOutput);
    TooManyMeans(sources[0], sources[1], noInput, noOutput, fields[0], fields[1]);
    if output.value > MAX_INT64 - input.value {
      return None;
    }
    return Some(Observation(input, output, fields[2], fields[3], fields[4], input.value + output.value));
  }

  // ----- what rows measure

  datatype Spend = NoSpend | BadSpend | Amount(usd: real)

  datatype Fallback = UnknownFallback | Attempts(n: nat)

  datatype Id = Unknown | Known(digest: nat)

  datatype Cohort = Cohort(route: Id, agent: Id)

  /** To whom a row's agent source attributes it. */
  datatype Agent = NoAgent | Ambiguous | Agent(digest: nat)

  /** Counts of what is unclear about rows. */
  datatype Quality = Quality(missing: nat, invalid: nat, mismatch: nat, totalMissing: nat, zero: nat, failed: nat,
                             unknownStatus: nat, errors: nat, unclear: nat, identity: nat, spendMissing: nat, spendInvalid: nat,
                             spendZero: nat) {
    function Plus(q: Quality): Quality {
      Quality(missing + q.missing, invalid + q.invalid, mismatch + q.mismatch, totalMissing + q.totalMissing, zero + q.zero,
              failed + q.failed, unknownStatus + q.unknownStatus, errors + q.errors, unclear + q.unclear, identity + q.identity,
              spendMissing + q.spendMissing, spendInvalid + q.spendInvalid, spendZero + q.spendZero)
    }
  }

  const NO_QUALITY := Quality(0, 0, 0, 0, 0, 0, 0, 0, 0, 0, 0, 0, 0)

  datatype Row = Row(after: bool, number: nat, o: Observation, q: Quality, spend: Spend, fallback: Fallback,
                     cohort: Cohort, model: Id, agent: Agent, readPresent: bool, writePresent: bool)

  /** The rows that reach a window: classified, with spend still to be judged. */
  predicate RowOk(r: Row) {
    && ObservationOk(r.o) && r.q.spendMissing == 0 && r.q.spendInvalid == 0 && r.q.spendZero == 0
    && (r.spend.Amount? ==> r.spend.usd >= 0.0)
  }

  datatype Rows = Rows(requests: nat, unknownModel: nat, zeroFallbacks: nat, someFallbacks: nat, unknownFallbacks: nat) {
    function Plus(r: Rows): Rows {
      Rows(requests + r.requests, unknownModel + r.unknownModel, zeroFallbacks + r.zeroFallbacks,
           someFallbacks + r.someFallbacks, unknownFallbacks + r.unknownFallbacks)
    }

    predicate AtMost(n: int) {
      requests <= n && unknownModel <= n && zeroFallbacks <= n && someFallbacks <= n && unknownFallbacks <= n
    }
  }

  /** `tokens` is the window's own total; the others are the merged counters, among them
      the requests and those without both token fields. */
  datatype Counters = Counters(tokens: nat, total: nat, input: nat, output: nat, read: nat, write: nat, reasoning: nat,
                               requests: nat, missing: nat) {
    function Plus(c: Counters): Counters {
      Counters(tokens + c.tokens, total + c.total, input + c.input, output + c.output,
               read + c.read, write + c.write, reasoning + c.reasoning, requests + c.requests, missing + c.missing)
    }

    predicate Fit() {
      && tokens <= MAX_INT64 && total <= MAX_UINT64 && input <= MAX_UINT64 && output <= MAX_UINT64
      && read <= MAX_UINT64 && write <= MAX_UINT64 && reasoning <= MAX_UINT64
      && requests <= MAX_UINT64 && missing <= MAX_UINT64
    }
  }

  datatype Failures = Failures(records: nat, input: nat, output: nat, total: nat) {
    function Plus(f: Failures): Failures {
      Failures(records + f.records, input + f.input, output + f.output, total + f.total)
    }

    predicate Fit() {
      records <= MAX_INT64 && input <= MAX_INT64 && output <= MAX_INT64 && total <= MAX_INT64
    }
  }

  /** The tokens of some of the rows. */
  predicate PartOf(f: Failures, c: Counters, requests: nat) {
    && f.input + f.output == f.total <= c.tokens && f.input <= c.input && f.output <= c.output
    && f.records <= requests && f.records <= f.total
  }

  datatype Measures = Measures(rows: Rows, counters: Counters, failures: Failures, quality: Quality, cost: real) {
    function Plus(m: Measures): Measures {
      Measures(rows.Plus(m.rows), counters.Plus(m.counters), failures.Plus(m.failures), quality.Plus(m.quality), cost + m.cost)
    }

    /** Within the ranges every addition checks; rows never exceed `n`. */
    predicate Fit(n: int) {
      rows.AtMost(n) && counters.Fit() && failures.Fit()
    }

    /** The relations between a window's counters. */
    predicate Consistent() {
      && counters.tokens == counters.total == counters.input + counters.output
      && counters.missing <= counters.requests == rows.requests && PartOf(failures, counters, rows.requests)
      && rows.zeroFallbacks + rows.someFallbacks + rows.unknownFallbacks == rows.requests && rows.unknownModel <= rows.requests
      && quality.spendMissing + quality.spendInvalid <= rows.requests && quality.spendZero <= rows.requests
      && cost >= 0.0
    }
  }

  const NO_FAILURES := Failures(0, 0, 0, 0)

  const NOTHING := Measures(Rows(0, 0, 0, 0, 0), Counters(0, 0, 0, 0, 0, 0, 0, 0, 0), NO_FAILURES, NO_QUALITY, 0.0)

  function One(b: bool): nat { if b then 1 else 0 }

  /** One request, which may lack a token field. */
  function CountersOf(o: Observation): Counters {
    Counters(o.total, o.total, o.input.value, o.output.value, o.read.value, o.write.value, o.reasoning.value,
             1, One(!o.input.reported || !o.output.reported))
  }

  /** A row's tokens, if it is of a kind and has any. */
  function TokensIf(kind: bool, o: Observation): Failures {
    if kind && o.total > 0 then Failures(1, o.input.value, o.output.value, o.total) else NO_FAILURES
  }

  /** What one row adds. */
  function Of(r: Row): Measures {
    var o := r.o;
    Measures(
      Rows(1, One(r.model.Unknown?), One(r.fallback == Attempts(0)),
           One(r.fallback.Attempts? && r.fallback.n > 0), One(r.fallback.UnknownFallback?)),
      CountersOf(o), TokensIf(r.q.failed > 0, o),
      r.q.Plus(NO_QUALITY.(spendMissing := One(r.spend.NoSpend?), spendInvalid := One(r.spend.BadSpend?),
                           spendZero := One(r.spend == Amount(0.0)))),
      if r.spend.Amount? then r.spend.usd else 0.0)
  }

  lemma OfConsistent(r: Row)
    requires RowOk(r)
    ensures Of(r).Consistent()
  {
  }

  lemma PlusConsistent(a: Measures, b: Measures)
    requires a.Consistent() && b.Consistent()
    ensures a.Plus(b).Consistent()
  {
  }

  // ----- sums over rows

  /** Which rows count. */
  datatype Select =
    | Everything
    | InCohorts(cohorts: set<Cohort>)
    | InCells(cells: set<(Cohort, Id)>)
    | Identified
    | Attributed(agents: set<Agent>)
  {
    predicate Has(r: Row) {
      match this
      case Everything => true
      case InCohorts(cohorts) => r.cohort in cohorts
      case InCells(cells) => (r.cohort, r.model) in cells
      case Identified => r.agent.Agent?
      case Attributed(agents) => r.agent in agents
    }
  }

  /** The sum over the selected rows of one side. */
  ghost function Sum(log: seq<Row>, s: Select, side: bool): Measures {
    if log == [] then NOTHING
    else
      var before, r := Sum(log[..|log| - 1], s, side), log[|log| - 1];
      if s.Has(r) && r.after == side then before.Plus(Of(r)) else before
  }

  lemma SumNext(log: seq<Row>, r: Row, s: Select, side: bool)
    ensures Sum(log + [r], s, side) == if s.Has(r) && r.after == side then Sum(log, s, side).Plus(Of(r)) else Sum(log, s, side)
  {
    hide Of, Select.Has, Measures.Plus;
    assert (log + [r])[..|log|] == log;
  }

  lemma PlusShuffle(a: Measures, b: Measures, c: Measures)
    ensures a.Plus(b).Plus(c) == a.Plus(b.Plus(c)) && a.Plus(c).Plus(b) == a.Plus(b).Plus(c)
  {
  }

  lemma PlusNothing(a: Measures)
    ensures a.Plus(NOTHING) == a && NOTHING.Plus(a) == a
  {
  }

  /** Every row of `whole` counts in exactly one of two parts. */
  ghost predicate Splits(log: seq<Row>, whole: Select, a: Select, b: Select) {
    forall r :: r in log ==> (whole.Has(r) <==> a.Has(r) || b.Has(r)) && !(a.Has(r) && b.Has(r))
  }

  /** Whatever is split in two adds up again. */
  lemma {:induction false} SumSplits(log: seq<Row>, whole: Select, a: Select, b: Select, side: bool)
    requires Splits(log, whole, a, b)
    ensures Sum(log, whole, side) == Sum(log, a, side).Plus(Sum(log, b, side))
  {
    hide Of, Select.Has, Measures.Plus;
    if log == [] {
      PlusNothing(NOTHING);
    } else {
      var before, r := log[..|log| - 1], log[|log| - 1];
      assert r in log;
      SumSplits(before, whole, a, b, side);
      PlusShuffle(Sum(before, a, side), Sum(before, b, side), Of(r));
    }
  }

  lemma {:induction false} SumNone(log: seq<Row>, s: Select, side: bool)
    requires forall r :: r in log ==> !s.Has(r)
    ensures Sum(log, s, side) == NOTHING
  {
    hide Of, Select.Has;
    if log != [] {
      assert log[|log| - 1] in log;
      SumNone(log[..|log| - 1], s, side);
    }
  }

  lemma NoPart(f: Failures, c: Counters, n: nat)
    requires f.records == f.input == f.output == f.total == 0
    ensures PartOf(f, c, n) && f.Fit()
  {
  }

  lemma NothingConsistent()
    ensures NOTHING.Consistent()
  {
  }

  lemma NothingFits()
    ensures NOTHING.counters.Fit() && NOTHING.rows.requests == 0
  {
  }

  lemma {:induction false} SumConsistent(log: seq<Row>, s: Select, side: bool)
    requires forall r :: r in log ==> RowOk(r)
    ensures Sum(log, s, side).Consistent()
  {
    hide Of, Select.Has, RowOk, Measures.Plus, Measures.Consistent;
    NothingConsistent();
    if log != [] {
      var r := log[|log| - 1];
      assert r in log;
      SumConsistent(log[..|log| - 1], s, side);
      OfConsistent(r);
      PlusConsistent(Sum(log[..|log| - 1], s, side), Of(r));
    }
  }

  /** No part exceeds the whole. */
  lemma {:induction false} SumBelow(log: seq<Row>, a: Select, b: Select, side: bool)
    requires forall r :: r in log ==> a.Has(r) ==> b.Has(r)
    ensures Below(Sum(log, a, side), Sum(log, b, side))
  {
    hide Of, Select.Has;
    if log != [] {
      var r := log[|log| - 1];
      assert r in log;
      SumBelow(log[..|log| - 1], a, b, side);
    }
  }

  /** No component of a part exceeds that of the whole. */
  predicate Below(a: Measures, b: Measures) {
    && a.rows.requests <= b.rows.requests && a.rows.unknownModel <= b.rows.unknownModel && a.rows.zeroFallbacks <= b.rows.zeroFallbacks
    && a.rows.someFallbacks <= b.rows.someFallbacks && a.rows.unknownFallbacks <= b.rows.unknownFallbacks
    && a.counters.tokens <= b.counters.tokens && a.counters.total <= b.counters.total && a.counters.input <= b.counters.input
    && a.counters.output <= b.counters.output && a.counters.read <= b.counters.read && a.counters.write <= b.counters.write
    && a.counters.reasoning <= b.counters.reasoning && a.counters.requests <= b.counters.requests
    && a.counters.missing <= b.counters.missing
    && a.failures.records <= b.failures.records && a.failures.input <= b.failures.input && a.failures.output <= b.failures.output
    && a.failures.total <= b.failures.total
  }

  // ----- adding and merging

  method AddBounded(a: nat, b: nat) returns (r: Option<nat>)
    ensures r == if a + b <= MAX_INT64 then Some(a + b) else None
  {
    if b > MAX_INT64 || a > MAX_INT64 - b {
      return None;
    }
    return Some(a + b);
  }

  datatype Metric = TotalTokens | InputTokens | OutputTokens | ReadTokens | WriteTokens | ReasoningTokens | Requests | MissingUsage

  function AsMap(c: Counters): map<Metric, nat> {
    map[TotalTokens := c.total, InputTokens := c.input, OutputTokens := c.output,
        ReadTokens := c.read, WriteTokens := c.write, ReasoningTokens := c.reasoning,
        Requests := c.requests, MissingUsage := c.missing]
  }

  lemma AsMapHasAll(c: Counters, k: Metric)
    ensures k in AsMap(c)
    ensures AsMap(c)[k] == match k
      case TotalTokens => c.total case InputTokens => c.input case OutputTokens => c.output
      case ReadTokens => c.read case WriteTokens => c.write case ReasoningTokens => c.reasoning
      case Requests => c.requests case MissingUsage => c.missing
  {
  }

  /** Adds every counter, in any order; fails if one would wrap around. */
  method MergeCounts(dst: map<Metric, nat>, src: map<Metric, nat>) returns (ok: bool, sum: map<Metric, nat>)
    ensures ok <==> forall k :: k in src ==> (if k in dst then dst[k] else 0) + src[k] <= MAX_UINT64
    ensures ok ==> forall k :: Lookup(sum, k) == if k in src then Some((if k in dst then dst[k] else 0) + src[k]) else Lookup(dst, k)
  {
    sum := dst;
    var left := src.Keys;
    while left != {}
      invariant left <= src.Keys
      invariant forall k :: k in src.Keys - left ==> (if k in dst then dst[k] else 0) + src[k] <= MAX_UINT64
      invariant forall k ::
        Lookup(sum, k) == if k in src.Keys - left then Some((if k in dst then dst[k] else 0) + src[k]) else Lookup(dst, k)
    {
      var k :| k in left;
      assert Lookup(sum, k) == Lookup(dst, k);
      var old_ := if k in sum then sum[k] else 0;
      left := left - {k};
      if MAX_UINT64 - old_ < src[k] {
        return false, sum;
      }
      sum := sum[k := old_ + src[k]];
    }
    ok := true;
  }

  /** The counters of a window after more are merged in. */
  method MergeCounters(c: Counters, more: Counters) returns (ok: bool, sum: Counters)
    ensures ok <==> c.Plus(more).(tokens := 0).Fit()
    ensures ok ==> sum == c.Plus(more).(tokens := c.tokens)
  {
    forall k: Metric ensures k in AsMap(c) && k in AsMap(more) { AsMapHasAll(c, k); AsMapHasAll(more, k); }
    var m;
    ok, m := MergeCounts(AsMap(c), AsMap(more));
    MergedFits(c, more);
    if !ok {
      return false, c;
    }
    forall k: Metric ensures k in m && m[k] == AsMap(c)[k] + AsMap(more)[k] {
      assert Lookup(m, k) == Some(AsMap(c)[k] + AsMap(more)[k]);
    }
    hide AsMap;
    AsMapHasAll(c, TotalTokens); AsMapHasAll(c, InputTokens); AsMapHasAll(c, OutputTokens);
    AsMapHasAll(c, ReadTokens); AsMapHasAll(c, WriteTokens); AsMapHasAll(c, ReasoningTokens);
    AsMapHasAll(c, Requests); AsMapHasAll(c, MissingUsage);
    AsMapHasAll(more, TotalTokens); AsMapHasAll(more, InputTokens); AsMapHasAll(more, OutputTokens);
    AsMapHasAll(more, ReadTokens); AsMapHasAll(more, WriteTokens); AsMapHasAll(more, ReasoningTokens);
    AsMapHasAll(more, Requests); AsMapHasAll(more, MissingUsage);
    sum := Counters(c.tokens, m[TotalTokens], m[InputTokens], m[OutputTokens], m[ReadTokens], m[WriteTokens],
                    m[ReasoningTokens], m[Requests], m[MissingUsage]);
  }

  lemma MergedFits(c: Counters, more: Counters)
    ensures c.Plus(more).(tokens := 0).Fit()
       <==> forall k: Metric :: k in AsMap(more) ==> (if k in AsMap(c) then AsMap(c)[k] else 0) + AsMap(more)[k] <= MAX_UINT64
  {
    forall k: Metric ensures k in AsMap(c) && k in AsMap(more) { AsMapHasAll(c, k); AsMapHasAll(more, k); }
    assert TotalTokens in AsMap(more) && InputTokens in AsMap(more) && OutputTokens in AsMap(more);
    assert ReadTokens in AsMap(more) && WriteTokens in AsMap(more) && ReasoningTokens in AsMap(more);
    assert Requests in AsMap(more) && MissingUsage in AsMap(more);
    if c.Plus(more).(tokens := 0).Fit() {
      forall k: Metric | k in AsMap(more) ensures (if k in AsMap(c) then AsMap(c)[k] else 0) + AsMap(more)[k] <= MAX_UINT64 {
        AsMapHasAll(c, k);
        AsMapHasAll(more, k);
      }
    }
  }
}
