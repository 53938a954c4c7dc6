/** Adding rows to windows, merging windows, and the window object with its cache
    coverage. */
module WindowCounts {
  import opened Common
  import opened Windows

  /** A row fits when no checked addition overflows. */
  predicate RowFits(a: Measures, r: Row) {
    a.counters.Plus(Of(r).counters).Fit() && a.failures.Plus(Of(r).failures).Fit()
  }

  /** Adds one row's tokens, if it is of the kind that is counted and has any. */
  method AddTokensIf(f: Failures, kind: bool, r: Row) returns (ok: bool, f': Failures)
    requires f.Fit()
    ensures ok <==> f.Plus(TokensIf(kind, r.o)).Fit()
    ensures ok ==> f' == f.Plus(TokensIf(kind, r.o))
  {
    if !kind || r.o.total == 0 {
      return true, f;
    }
    var records := AddBounded(f.records, 1);
    var input := AddBounded(f.input, r.o.input.value);
    var output := AddBounded(f.output, r.o.output.value);
    var total := AddBounded(f.total, r.o.total);
    if records.None? || input.None? || output.None? || total.None? {
      return false, f;
    }
    return true, Failures(records.value, input.value, output.value, total.value);
  }

  /** Adds one row to a window's totals. */
  method AddRow(a: Measures, r: Row) returns (ok: bool, a': Measures)
    requires RowOk(r) && a.failures.Fit()
    ensures ok <==> RowFits(a, r)
    ensures ok ==> a' == a.Plus(Of(r))
  {
    a' := a;
    var o := r.o;
    var counters;
    ok, counters := MergeCounters(a.counters, CountersOf(o));
    if !ok {
      return;
    }
    var tokens := AddBounded(a.counters.tokens, o.total);
    if tokens.None? {
      return false, a;
    }
    var failures;
    ok, failures := AddTokensIf(a.failures, r.q.failed > 0, r);
    if !ok {
      return;
    }
    var q, cost := JudgeSpend(r);
    var rows := CountRow(a.rows, r);
    hide Quality.Plus, Rows.Plus;
    a' := Measures(rows, counters.(tokens := tokens.value), failures, a.quality.Plus(q), a.cost + cost);
  }

  /** A row's quality, with its spend judged, and the cost that can be added. */
  method JudgeSpend(r: Row) returns (q: Quality, cost: real)
    requires RowOk(r)
    ensures q == Of(r).quality && cost == Of(r).cost
  {
    q, cost := r.q, 0.0;
    match r.spend {
      case NoSpend =>
        q := q.(spendMissing := 1);
      case BadSpend =>
        q := q.(spendInvalid := 1);
      case Amount(usd) =>
        cost := usd;
        if usd == 0.0 {
          q := q.(spendZero := 1);
        }
    }
  }

  method CountRow(rows: Rows, r: Row) returns (rows': Rows)
    ensures rows' == rows.Plus(Of(r).rows)
  {
    rows' := rows.(requests := rows.requests + 1);
    if r.model.Unknown? {
      rows' := rows'.(unknownModel := rows.unknownModel + 1);
    }
    if r.fallback.UnknownFallback? {
      rows' := rows'.(unknownFallbacks := rows.unknownFallbacks + 1);
    } else if r.fallback.n == 0 {
      rows' := rows'.(zeroFallbacks := rows.zeroFallbacks + 1);
    } else {
      rows' := rows'.(someFallbacks := rows.someFallbacks + 1);
    }
  }

  /** What merging two windows checks. */
  predicate MergeFits(a: Measures, b: Measures) {
    a.Plus(b).rows.AtMost(MAX_INT64) && a.Plus(b).counters.Fit() && a.Plus(b).failures.Fit()
  }

  method MergeRows(a: Rows, b: Rows) returns (ok: bool, sum: Rows)
    ensures ok <==> a.Plus(b).AtMost(MAX_INT64)
    ensures ok ==> sum == a.Plus(b)
  {
    var requests := AddBounded(a.requests, b.requests);
    var unknown := AddBounded(a.unknownModel, b.unknownModel);
    var zero := AddBounded(a.zeroFallbacks, b.zeroFallbacks);
    var some := AddBounded(a.someFallbacks, b.someFallbacks);
    var none := AddBounded(a.unknownFallbacks, b.unknownFallbacks);
    if requests.None? || unknown.None? || zero.None? || some.None? || none.None? {
      return false, a;
    }
    return true, Rows(requests.value, unknown.value, zero.value, some.value, none.value);
  }

  method MergeFailures(a: Failures, b: Failures) returns (ok: bool, sum: Failures)
    ensures ok <==> a.Plus(b).Fit()
    ensures ok ==> sum == a.Plus(b)
  {
    var records := AddBounded(a.records, b.records);
    var input := AddBounded(a.input, b.input);
    var output := AddBounded(a.output, b.output);
    var total := AddBounded(a.total, b.total);
    if records.None? || input.None? || output.None? || total.None? {
      return false, a;
    }
    return true, Failures(records.value, input.value, output.value, total.value);
  }

  /** Adds another window's totals to this one's. */
  method Merge(a: Measures, b: Measures) returns (ok: bool, sum: Measures)
    ensures ok <==> MergeFits(a, b)
    ensures ok ==> sum == a.Plus(b)
  {
    sum := a;
    var rows, counters, failures;
    ok, rows := MergeRows(a.rows, b.rows);
    if !ok {
      return;
    }
    var tokens := AddBounded(a.counters.tokens, b.counters.tokens);
    if tokens.None? {
      return false, a;
    }
    ok, counters := MergeCounters(a.counters, b.counters);
    if !ok {
      return;
    }
    ok, failures := MergeFailures(a.failures, b.failures);
    if !ok {
      return;
    }
    sum := Measures(rows, counters.(tokens := tokens.value), failures, a.quality.Plus(b.quality), a.cost + b.cost);
  }

  // ----- cache coverage

  /** Coverage of one cache component: rows with usable counts, and their input. */
  datatype Detail = Detail(covered: nat, missing: nat, invalid: nat, zero: nat, input: nat, tokens: nat) {
    predicate Consistent(requests: nat, input': nat) {
      covered + missing + invalid == requests && zero <= covered && tokens <= input <= input'
    }
  }

  const NO_DETAIL := Detail(0, 0, 0, 0, 0, 0)

  predicate Covered(r: Row, part: Usage, present: bool) {
    present && Clean(r.o.input) && Clean(part) && !Violates(part, r.o.input)
  }

  function DetailNext(d: Detail, r: Row, part: Usage, present: bool): Detail {
    if !present then d.(missing := d.missing + 1)
    else if !Covered(r, part, present) then d.(invalid := d.invalid + 1)
    else Detail(d.covered + 1, d.missing, d.invalid, d.zero + One(part.value == 0), d.input + r.o.input.value, d.tokens + part.value)
  }

  method AddDetail(d: Detail, r: Row, part: Usage, present: bool) returns (ok: bool, d': Detail)
    requires RowOk(r) && d.tokens <= d.input
    ensures ok <==> Covered(r, part, present) ==> d.input + r.o.input.value <= MAX_INT64
    ensures ok ==> d' == DetailNext(d, r, part, present)
  {
    if !present {
      return true, d.(missing := d.missing + 1);
    }
    if !Covered(r, part, present) {
      return true, d.(invalid := d.invalid + 1);
    }
    d' := d;
    if part.value == 0 {
      d' := d'.(zero := d.zero + 1);
    }
    var input := AddBounded(d.input, r.o.input.value);
    var tokens := AddBounded(d.tokens, part.value);
    if input.None? || tokens.None? {
      return false, d;
    }
    return true, d'.(covered := d.covered + 1, input := input.value, tokens := tokens.value);
  }

  // ----- the window object

  /** The relations every window keeps, whatever rows it was given. */
  ghost predicate Keeps(log: seq<Row>, totals: Measures, attributed: nat, errors: Failures, read: Detail, write: Detail) {
    && totals == SumAll(log) && totals.Consistent() && totals.rows.requests == |log|
    && totals.counters.Fit() && totals.failures.Fit()
    && read.Consistent(|log|, totals.counters.input) && write.Consistent(|log|, totals.counters.input)
    && attributed <= totals.counters.tokens
    && errors == ErrorSum(log) && PartOf(errors, totals.counters, |log|)
    && read == DetailSum(log, true) && write == DetailSum(log, false)
  }

  /** The cache coverage of some rows, of reads or of writes. */
  ghost function DetailSum(log: seq<Row>, read: bool): Detail {
    if log == [] then NO_DETAIL
    else
      var before, r := DetailSum(log[..|log| - 1], read), log[|log| - 1];
      if read then DetailNext(before, r, r.o.read, r.readPresent) else DetailNext(before, r, r.o.write, r.writePresent)
  }

  lemma DetailSumNext(log: seq<Row>, r: Row)
    ensures DetailSum(log + [r], true) == DetailNext(DetailSum(log, true), r, r.o.read, r.readPresent)
    ensures DetailSum(log + [r], false) == DetailNext(DetailSum(log, false), r, r.o.write, r.writePresent)
  {
    hide DetailNext;
    assert (log + [r])[..|log|] == log;
  }

  /** The tokens of the rows observed as errors. */
  ghost function ErrorSum(log: seq<Row>): Failures {
    if log == [] then NO_FAILURES
    else ErrorSum(log[..|log| - 1]).Plus(TokensIf(log[|log| - 1].q.errors > 0, log[|log| - 1].o))
  }

  lemma ErrorsNext(log: seq<Row>, errors: Failures, c: Counters, c': Counters, r: Row)
    requires errors == ErrorSum(log) && PartOf(errors, c, |log|) && RowOk(r) && c' == c.Plus(CountersOf(r.o))
    ensures var next := errors.Plus(TokensIf(r.q.errors > 0, r.o)); next == ErrorSum(log + [r]) && PartOf(next, c', |log| + 1)
  {
    assert (log + [r])[..|log|] == log;
  }

  function Attribution(r: Row, identified: bool): nat {
    if identified && r.o.input.reported && r.o.output.reported then r.o.total else 0
  }

  lemma KeepsNext(log: seq<Row>, totals: Measures, attributed: nat, errors: Failures, read: Detail, write: Detail, r: Row,
      identified: bool)
    requires Keeps(log, totals, attributed, errors, read, write) && RowOk(r) && RowFits(totals, r)
    ensures Keeps(log + [r], totals.Plus(Of(r)), attributed + Attribution(r, identified),
                  errors.Plus(TokensIf(r.q.errors > 0, r.o)),
                  DetailNext(read, r, r.o.read, r.readPresent), DetailNext(write, r, r.o.write, r.writePresent))
  {
    var next, n := totals.Plus(Of(r)), |log + [r]|;
    var input, input' := totals.counters.input, next.counters.input;
    TotalsNext(log, totals, r);
    ErrorsNext(log, errors, totals.counters, next.counters, r);
    DetailSumNext(log, r);
    hide ErrorSum, TokensIf, PartOf, Failures.Plus, DetailSum;
    hide Measures.Consistent, Measures.Plus, SumAll, DetailNext, Of, Counters.Fit, Failures.Fit, Detail.Consistent,
        RowOk, RowFits;
    DetailConsistent(read, r, r.o.read, r.readPresent, |log|, n, input, input');
    DetailConsistent(write, r, r.o.write, r.writePresent, |log|, n, input, input');
  }

  lemma TotalsNext(log: seq<Row>, totals: Measures, r: Row)
    requires totals == SumAll(log) && totals.Consistent()
    requires totals.rows.requests == |log| && RowOk(r) && RowFits(totals, r)
    ensures var next := totals.Plus(Of(r));
      && next == SumAll(log + [r]) && next.Consistent() && next.rows.requests == |log| + 1
      && next.counters.Fit() && next.failures.Fit()
      && next.counters.input == totals.counters.input + r.o.input.value && next.counters.tokens == totals.counters.tokens + r.o.total
  {
    OfConsistent(r);
    PlusConsistent(totals, Of(r));
    SumAllNext(log, r);
    hide Measures.Consistent, SumAll, Counters.Fit, Failures.Fit;
  }

  lemma NothingKept(log: seq<Row>, m: Measures, f: Failures, d: Detail)
    requires log == [] && m == NOTHING && f == NO_FAILURES && d == NO_DETAIL
    ensures Keeps(log, m, 0, f, d, d)
  {
    hide Measures.Consistent, Counters.Fit, Failures.Fit, PartOf, SumAll, DetailSum, ErrorSum;
    NothingConsistent();
    NothingFits();
    NoPart(f, m.counters, 0);
    NothingSummed();
  }

  lemma NothingSummed()
    ensures SumAll([]) == NOTHING && ErrorSum([]) == NO_FAILURES && DetailSum([], true) == DetailSum([], false) == NO_DETAIL
  {
  }

  class Window {
    var totals: Measures
    var attributed: nat
    var errors: Failures
    var read: Detail
    var write: Detail
    ghost var log: seq<Row>

    ghost predicate Valid()
      reads this
    {
      Keeps(log, totals, attributed, errors, read, write)
    }

    constructor ()
      ensures Valid() && log == [] && totals == NOTHING
    {
      hide Keeps;
      totals, attributed, errors, read, write, log := NOTHING, 0, NO_FAILURES, NO_DETAIL, NO_DETAIL, [];
      new;
      NothingKept(log, totals, errors, read);
    }

    /** Adds a row, whose group may be identified. It is refused exactly when a counter
        would leave its range. */
    method Add(r: Row, identified: bool) returns (ok: bool)
      requires Valid() && RowOk(r)
      modifies this
      ensures ok <==> RowFits(old(totals), r)
      ensures ok ==> Valid() && log == old(log) + [r] && totals == old(totals).Plus(Of(r))
      ensures ok ==>
        (read == DetailNext(old(read), r, r.o.read, r.readPresent) && write == DetailNext(old(write), r, r.o.write, r.writePresent))
      ensures ok ==>
        attributed == old(attributed) + if identified && r.o.input.reported && r.o.output.reported then r.o.total else 0
      ensures ok ==> errors == old(errors).Plus(TokensIf(r.q.errors > 0, r.o))
    {
      hide Keeps, DetailNext, RowFits, Of, Measures.Plus, RowOk, TokensIf, Failures.Plus;
      var read', write', totals', errors';
      ok, read', write', totals', errors' := Next(r);
      if !ok {
        return;
      }
      KeepsNext(log, totals, attributed, errors, read, write, r, identified);
      read, write, totals, errors, log := read', write', totals', errors', log + [r];
      if identified && r.o.input.reported && r.o.output.reported {
        attributed := attributed + r.o.total;
      }
    }

    /** The counters after one more row. Neither the cache counters nor the error tokens
        ever refuse a row the token counters take. */
    method Next(r: Row) returns (ok: bool, read': Detail, write': Detail, totals': Measures, errors': Failures)
      requires Valid() && RowOk(r)
      ensures ok <==> RowFits(totals, r)
      ensures ok ==> totals' == totals.Plus(Of(r)) && errors' == errors.Plus(TokensIf(r.q.errors > 0, r.o))
      ensures ok ==>
        (read' == DetailNext(read, r, r.o.read, r.readPresent) && write' == DetailNext(write, r, r.o.write, r.writePresent))
    {
      assert totals.failures.Fit() && read.tokens <= read.input <= totals.counters.input
          && write.tokens <= write.input <= totals.counters.input;
      TokensFit(totals, r);
      ErrorsFit(totals, errors, |log|, r);
      hide Keeps, DetailNext, RowFits, Of, Measures.Consistent, Measures.Plus, TokensIf, Failures.Plus, Failures.Fit;
      write', totals', errors' := write, totals, errors;
      ok, read' := AddDetail(read, r, r.o.read, r.readPresent);
      if !ok {
        return;
      }
      ok, write' := AddDetail(write, r, r.o.write, r.writePresent);
      if !ok {
        return;
      }
      ok, totals' := AddRow(totals, r);
      if !ok {
        return;
      }
      ok, errors' := AddTokensIf(errors, r.q.errors > 0, r);
    }

    /** Input that was not read from the cache; the subtraction never wraps around. */
    method Uncached() returns (n: nat)
      requires Valid()
      ensures n == read.input - read.tokens
    {
      n := read.input - read.tokens;
    }
  }

  /** The weight of a row in the uncached ranking; it never wraps around. */
  method UncachedWeight(r: Row) returns (w: Option<nat>)
    requires RowOk(r)
    ensures w.Some? <==> Covered(r, r.o.read, true)
    ensures w.Some? ==> w.value + r.o.read.value == r.o.input.value
  {
    if !Clean(r.o.input) || !Clean(r.o.read) || Violates(r.o.read, r.o.input) {
      return None;
    }
    return Some(r.o.input.value - r.o.read.value);
  }

  ghost function SumAll(log: seq<Row>): Measures {
    if log == [] then NOTHING else SumAll(log[..|log| - 1]).Plus(Of(log[|log| - 1]))
  }

  lemma SumAllNext(log: seq<Row>, r: Row)
    ensures SumAll(log + [r]) == SumAll(log).Plus(Of(r))
  {
    hide Of, Measures.Plus;
    assert (log + [r])[..|log|] == log;
  }

  /** The tokens of some rows fit where all tokens and requests do. */
  lemma ErrorsFit(a: Measures, errors: Failures, n: nat, r: Row)
    requires a.Consistent() && a.counters.Fit() && PartOf(errors, a.counters, n) && RowOk(r)
    ensures errors.Fit() && (RowFits(a, r) ==> errors.Plus(TokensIf(r.q.errors > 0, r.o)).Fit())
  {
  }

  /** If the input alone is too much, so are all tokens. */
  lemma TokensFit(a: Measures, r: Row)
    requires a.Consistent() && RowOk(r)
    ensures a.counters.input + r.o.input.value > MAX_INT64 ==> !RowFits(a, r)
  {
  }

  lemma DetailConsistent(d: Detail, r: Row, part: Usage, present: bool, n: nat, n': nat, input: nat, input': nat)
    requires d.Consistent(n, input) && n' == n + 1 && input' == input + r.o.input.value
    ensures DetailNext(d, r, part, present).Consistent(n', input')
  {
  }
}
