/** What the counters of a window count: each is a number of rows, or a total of one of
    their fields, whatever the rows and in whatever order they came. */
module WindowMeanings {
  import opened Common
  import opened Windows
  import opened WindowCounts
  import opened Routing
  import Agents

  /** What may be said of a row. */
  datatype Feature =
    | Anything
    | UnknownModel
    | KnownZero
    | KnownPositive
    | FallbackUnknown
    | LacksUsage
    | FailedWithTokens
    | ErrorWithTokens
    | SpendMissing
    | SpendInvalid
    | SpendZero
    | CacheMissing(read: bool)
    | CacheCovered(read: bool)
    | CacheInvalid(read: bool)
    | CacheZero(read: bool)

  predicate Shows(r: Row, f: Feature) {
    match f
    case Anything => true
    case UnknownModel => r.model == Unknown
    case KnownZero => r.fallback == Attempts(0)
    case KnownPositive => r.fallback != UnknownFallback && r.fallback != Attempts(0)
    case FallbackUnknown => r.fallback == UnknownFallback
    case LacksUsage => !(r.o.input.reported && r.o.output.reported)
    case FailedWithTokens => r.q.failed != 0 && r.o.total != 0
    case ErrorWithTokens => r.q.errors != 0 && r.o.total != 0
    case SpendMissing => r.spend == NoSpend
    case SpendInvalid => r.spend == BadSpend
    case SpendZero => r.spend == Amount(0.0)
    case CacheMissing(read) => !Present(r, read)
    case CacheCovered(read) => Present(r, read) && Reliable(r, read)
    case CacheInvalid(read) => Present(r, read) && !Reliable(r, read)
    case CacheZero(read) => Present(r, read) && Reliable(r, read) && Cache(r, read).value == 0
  }

  predicate Present(r: Row, read: bool) { if read then r.readPresent else r.writePresent }

  function Cache(r: Row, read: bool): Usage { if read then r.o.read else r.o.write }

  /** The cache count and the input it is part of were observed, without contradiction. */
  predicate Reliable(r: Row, read: bool) {
    var i, c := r.o.input, Cache(r, read);
    i.reported && !i.invalid && !i.conflict && c.reported && !c.invalid && !c.conflict && c.value <= i.value
  }

  datatype Field = Input | Output | CacheRead | CacheWrite | Reasoning | Total

  function ValueOf(r: Row, x: Field): nat {
    match x
    case Input => r.o.input.value
    case Output => r.o.output.value
    case CacheRead => r.o.read.value
    case CacheWrite => r.o.write.value
    case Reasoning => r.o.reasoning.value
    case Total => r.o.total
  }

  /** How many rows show a feature. */
  ghost function Number(rows: seq<Row>, f: Feature): nat {
    if rows == [] then 0 else Number(rows[..|rows| - 1], f) + if Shows(rows[|rows| - 1], f) then 1 else 0
  }

  /** The total of a field over the rows that show a feature. */
  ghost function TotalOf(rows: seq<Row>, f: Feature, x: Field): nat {
    if rows == [] then 0
    else TotalOf(rows[..|rows| - 1], f, x) + if Shows(rows[|rows| - 1], f) then ValueOf(rows[|rows| - 1], x) else 0
  }

  ghost function Spent(rows: seq<Row>): real {
    if rows == [] then 0.0
    else
      var spend := rows[|rows| - 1].spend;
      Spent(rows[..|rows| - 1]) + match spend case Amount(usd) => usd case _ => 0.0
  }

  // ----- counters

  ghost predicate RowsMean(m: Rows, rows: seq<Row>) {
    && m.requests == |rows| && m.unknownModel == Number(rows, UnknownModel)
    && m.zeroFallbacks == Number(rows, KnownZero) && m.someFallbacks == Number(rows, KnownPositive)
    && m.unknownFallbacks == Number(rows, FallbackUnknown)
  }

  ghost predicate CountersMean(m: Counters, rows: seq<Row>) {
    && m.requests == |rows| && m.missing == Number(rows, LacksUsage)
    && m.input == TotalOf(rows, Anything, Input) && m.output == TotalOf(rows, Anything, Output)
    && m.read == TotalOf(rows, Anything, CacheRead) && m.write == TotalOf(rows, Anything, CacheWrite)
    && m.reasoning == TotalOf(rows, Anything, Reasoning)
    && m.tokens == m.total == TotalOf(rows, Anything, Total)
  }

  /** The tokens of the rows of one kind. */
  ghost predicate PartMeans(m: Failures, rows: seq<Row>, kind: Feature) {
    && m.records == Number(rows, kind) && m.total == TotalOf(rows, kind, Total)
    && m.input == TotalOf(rows, kind, Input) && m.output == TotalOf(rows, kind, Output)
  }

  ghost predicate SpendMeans(q: Quality, cost: real, rows: seq<Row>) {
    && q.spendMissing == Number(rows, SpendMissing) && q.spendInvalid == Number(rows, SpendInvalid)
    && q.spendZero == Number(rows, SpendZero) && cost == Spent(rows)
  }

  /** Every counter of a window is what its name says of these rows. */
  ghost predicate Means(m: Measures, rows: seq<Row>) {
    && RowsMean(m.rows, rows) && CountersMean(m.counters, rows)
    && PartMeans(m.failures, rows, FailedWithTokens) && SpendMeans(m.quality, m.cost, rows)
  }

  ghost predicate DetailMeans(d: Detail, rows: seq<Row>, read: bool) {
    && d.missing == Number(rows, CacheMissing(read)) && d.invalid == Number(rows, CacheInvalid(read))
    && d.covered == Number(rows, CacheCovered(read)) && d.zero == Number(rows, CacheZero(read))
    && d.input == TotalOf(rows, CacheCovered(read), Input)
    && d.tokens == TotalOf(rows, CacheCovered(read), if read then CacheRead else CacheWrite)
  }

  lemma {:induction false} AllRowsMean(rows: seq<Row>)
    ensures RowsMean(SumAll(rows).rows, rows) && CountersMean(SumAll(rows).counters, rows)
  {
    if rows != [] {
      AllRowsMean(rows[..|rows| - 1]);
    }
  }

  lemma {:induction false} FailuresMean(rows: seq<Row>)
    ensures PartMeans(SumAll(rows).failures, rows, FailedWithTokens)
  {
    if rows != [] {
      FailuresMean(rows[..|rows| - 1]);
    }
  }

  lemma {:induction false} ErrorsMean(rows: seq<Row>)
    ensures PartMeans(ErrorSum(rows), rows, ErrorWithTokens)
  {
    if rows != [] {
      ErrorsMean(rows[..|rows| - 1]);
    }
  }

  lemma {:induction false} AllSpendMeans(rows: seq<Row>)
    requires forall r :: r in rows ==> RowOk(r)
    ensures SpendMeans(SumAll(rows).quality, SumAll(rows).cost, rows)
  {
    hide Counters.Plus, Rows.Plus, Failures.Plus, CountersOf, TokensIf, ObservationOk;
    if rows != [] {
      assert rows[|rows| - 1] in rows;
      AllSpendMeans(rows[..|rows| - 1]);
    }
  }

  lemma {:induction false} CacheMeans(rows: seq<Row>, read: bool)
    ensures DetailMeans(DetailSum(rows, read), rows, read)
  {
    if rows != [] {
      CacheMeans(rows[..|rows| - 1], read);
    }
  }

  /** Every counter of a window object is what its name says of the rows it was given. */
  lemma WindowMeans(w: Window)
    requires w.Valid() && forall r :: r in w.log ==> RowOk(r)
    ensures Means(w.totals, w.log) && PartMeans(w.errors, w.log, ErrorWithTokens)
    ensures DetailMeans(w.read, w.log, true) && DetailMeans(w.write, w.log, false)
  {
    AllRowsMean(w.log);
    FailuresMean(w.log);
    ErrorsMean(w.log);
    AllSpendMeans(w.log);
    CacheMeans(w.log, true);
    CacheMeans(w.log, false);
    hide SumAll, RowsMean, CountersMean, PartMeans, SpendMeans, DetailMeans, DetailSum, ErrorSum;
  }

  // ----- selections

  /** The selected rows of one side, in order. */
  ghost function Chosen(log: seq<Row>, s: Select, side: bool): seq<Row> {
    if log == [] then []
    else
      var before, r := Chosen(log[..|log| - 1], s, side), log[|log| - 1];
      if s.Has(r) && r.after == side then before + [r] else before
  }

  lemma {:induction false} ChosenRows(log: seq<Row>, s: Select, side: bool, r: Row)
    ensures multiset(Chosen(log, s, side))[r] == if s.Has(r) && r.after == side then multiset(log)[r] else 0
  {
    hide Select.Has;
    if log != [] {
      var before, last := log[..|log| - 1], log[|log| - 1];
      ChosenRows(before, s, side, r);
      assert log == before + [last];
    }
  }

  lemma {:induction false} SumIsAll(log: seq<Row>, s: Select, side: bool)
    ensures Sum(log, s, side) == SumAll(Chosen(log, s, side))
  {
    hide Of, Select.Has, Measures.Plus;
    if log != [] {
      var before, r := log[..|log| - 1], log[|log| - 1];
      SumIsAll(before, s, side);
      SumAllNext(Chosen(before, s, side), r);
    }
  }

  /** Every counter of a sum is what its name says of the selected rows. */
  lemma SumMeans(log: seq<Row>, s: Select, side: bool)
    requires forall r :: r in log ==> RowOk(r)
    ensures Means(Sum(log, s, side), Chosen(log, s, side))
  {
    var rows := Chosen(log, s, side);
    hide RowOk, Select.Has, Sum, Chosen, RowsMean, CountersMean, PartMeans, SpendMeans;
    forall r | r in rows ensures RowOk(r) {
      ChosenRows(log, s, side, r);
      assert multiset(rows)[r] > 0;
      assert r in multiset(log);
    }
    SumIsAll(log, s, side);
    AllRowsMean(rows);
    FailuresMean(rows);
    AllSpendMeans(rows);
  }

  /** The rows of one cohort, or of one model in it. */
  ghost function RowsOf(log: seq<Row>, c: Cohort, side: bool): seq<Row> { Chosen(log, InCohorts({c}), side) }

  ghost function CellRows(log: seq<Row>, c: Cohort, m: Id, side: bool): seq<Row> { Chosen(log, InCells({(c, m)}), side) }

  /** The counters of the routing audit, of each of its cohorts and of each cell are what
      their names say of the rows, those of the cohort, and those of the cell. */
  lemma RoutingMeans(a: Accumulator, c: Cohort, m: Id, side: bool)
    requires a.Valid()
    ensures Means(a.totals.At(side), Chosen(a.log, Everything, side))
    ensures c in a.cohorts ==> Means(a.cohorts[c].totals.At(side), RowsOf(a.log, c, side))
    ensures c in a.cohorts && m in a.cohorts[c].models ==>
              Means(a.cohorts[c].models[m].totals.At(side), CellRows(a.log, c, m, side))
    ensures c !in a.cohorts ==> RowsOf(a.log, c, side) == []
    ensures c in a.cohorts && m !in a.cohorts[c].models ==> CellRows(a.log, c, m, side) == []
  {
    hide RowOk, Sum, Means, InRange, CellCount;
    SumMeans(a.log, Everything, side);
    SumMeans(a.log, InCohorts({c}), side);
    SumMeans(a.log, InCells({(c, m)}), side);
    if c !in a.cohorts {
      NoneChosen(a.log, InCohorts({c}), side);
    } else if m !in a.cohorts[c].models {
      assert forall r :: r in a.log ==> r.cohort == c ==> r.model in ModelsIn(a.log, c);
      NoneChosen(a.log, InCells({(c, m)}), side);
    }
  }

  lemma {:induction false} NoneChosen(log: seq<Row>, s: Select, side: bool)
    requires forall r :: r in log ==> !s.Has(r)
    ensures Chosen(log, s, side) == []
  {
    hide Select.Has;
    if log != [] {
      assert log[|log| - 1] in log;
      NoneChosen(log[..|log| - 1], s, side);
    }
  }

  /** The counters of the agent windows and of each agent are what their names say. */
  lemma AgentsMean(a: Agents.AgentAccumulator, d: nat, side: bool)
    requires a.Valid()
    ensures Means(a.known.At(side), Chosen(a.log, Identified, side))
    ensures Means(a.unknown.At(side), Chosen(a.log, Attributed({NoAgent}), side))
    ensures Means(a.ambiguous.At(side), Chosen(a.log, Attributed({Ambiguous}), side))
    ensures d in a.entries ==> Means(a.entries[d].totals.At(side), Chosen(a.log, Attributed({Agent(d)}), side))
  {
    hide RowOk, Sum, Means, InRange;
    SumMeans(a.log, Identified, side);
    SumMeans(a.log, Attributed({NoAgent}), side);
    SumMeans(a.log, Attributed({Ambiguous}), side);
    SumMeans(a.log, Attributed({Agent(d)}), side);
  }
}
