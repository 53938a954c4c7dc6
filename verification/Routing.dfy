/** The routing audit: totals over cohorts and model cells, and a report that shows the
    largest of them and merges the rest. */
module Routing {
  import opened Common
  import opened Windows
  import opened WindowCounts

  const MAX_ROUTES: nat := 128
  const MAX_AGENTS: nat := 1024
  const MAX_MODELS: nat := 128
  const MAX_COHORTS: nat := 4096
  const MAX_CELLS: nat := 16384
  const MAX_ROWS: nat := 10_000_000

  datatype Pair = Pair(before: Measures, after: Measures) {
    function At(side: bool): Measures { if side then after else before }

    function With(side: bool, m: Measures): Pair { if side then this.(after := m) else this.(before := m) }

    function Plus(p: Pair): Pair { Pair(before.Plus(p.before), after.Plus(p.after)) }

    function Requests(): nat { before.rows.requests + after.rows.requests }
  }

  const NO_PAIR := Pair(NOTHING, NOTHING)

  datatype Cell = Cell(totals: Pair, ordinal: nat)

  datatype CohortState = CohortState(totals: Pair, models: map<Id, Cell>, ordinal: nat)

  // ----- sums of pairs

  ghost function Sums(log: seq<Row>, s: Select): Pair {
    Pair(Sum(log, s, false), Sum(log, s, true))
  }

  function Grown(p: Pair, r: Row): Pair {
    p.With(r.after, p.At(r.after).Plus(Of(r)))
  }

  lemma SumsNext(log: seq<Row>, r: Row, s: Select)
    ensures Sums(log + [r], s) == if s.Has(r) then Grown(Sums(log, s), r) else Sums(log, s)
  {
    hide Sum, Of, Measures.Plus, Select.Has;
    SumNext(log, r, s, false);
    SumNext(log, r, s, true);
  }

  lemma SumsSplit(log: seq<Row>, whole: Select, a: Select, b: Select)
    requires Splits(log, whole, a, b)
    ensures Sums(log, whole) == Sums(log, a).Plus(Sums(log, b))
  {
    hide Sum, Measures.Plus, Splits;
    SumSplits(log, whole, a, b, false);
    SumSplits(log, whole, a, b, true);
  }

  lemma SumsNone(log: seq<Row>, s: Select)
    requires forall r :: r in log ==> !s.Has(r)
    ensures Sums(log, s) == NO_PAIR
  {
    hide Sum, Select.Has;
    SumNone(log, s, false);
    SumNone(log, s, true);
  }

  predicate PairBelow(a: Pair, b: Pair) { Below(a.before, b.before) && Below(a.after, b.after) }

  lemma SumsBelow(log: seq<Row>, a: Select, b: Select)
    requires forall r :: r in log ==> a.Has(r) ==> b.Has(r)
    ensures PairBelow(Sums(log, a), Sums(log, b))
  {
    hide Sum, Below, Select.Has;
    SumBelow(log, a, b, false);
    SumBelow(log, a, b, true);
  }

  // ----- what the accumulator keeps

  ghost function CohortsIn(log: seq<Row>): set<Cohort> { set r | r in log :: r.cohort }

  ghost function ModelsIn(log: seq<Row>, c: Cohort): set<Id> { set r | r in log && r.cohort == c :: r.model }

  ghost predicate CellKept(log: seq<Row>, c: Cohort, m: Id, cell: Cell) {
    cell.totals == Sums(log, InCells({(c, m)}))
  }

  ghost predicate CohortKept(log: seq<Row>, c: Cohort, s: CohortState) {
    && s.totals == Sums(log, InCohorts({c})) && s.models.Keys == ModelsIn(log, c)
    && forall m :: m in s.models ==> CellKept(log, c, m, s.models[m])
  }

  ghost predicate Kept(log: seq<Row>, totals: Pair, cohorts: map<Cohort, CohortState>) {
    && totals == Sums(log, Everything) && cohorts.Keys == CohortsIn(log)
    && forall c :: c in cohorts ==> CohortKept(log, c, cohorts[c])
  }

  ghost predicate InRange(p: Pair, rows: nat) {
    p.before.Fit(rows) && p.after.Fit(rows)
  }

  predicate CanRegister(ids: set<Id>, id: Id, limit: nat) {
    id.Unknown? || id in ids || |ids| < limit
  }

  function Registered(ids: set<Id>, id: Id): set<Id> {
    if id.Unknown? then ids else ids + {id}
  }

  function CellCount(cohorts: map<Cohort, CohortState>): map<Cohort, int> {
    map c | c in cohorts :: |cohorts[c].models|
  }

  /** No more identities, cohorts and cells than the limits allow. */
  ghost predicate Limited(routes: set<Id>, agents: set<Id>, models: set<Id>, cohorts: map<Cohort, CohortState>, cells: nat) {
    && |routes| <= MAX_ROUTES && |agents| <= MAX_AGENTS && |models| <= MAX_MODELS
    && |cohorts| <= MAX_COHORTS && cells <= MAX_CELLS
  }

  /** An identity is refused exactly when it would be one too many. */
  lemma RegisteredFits(ids: set<Id>, id: Id, limit: nat)
    requires |ids| <= limit
    ensures CanRegister(ids, id, limit) <==> |Registered(ids, id)| <= limit
  {
    if id in ids {
      assert ids + {id} == ids;
    }
  }

  lemma LimitedNext(routes: set<Id>, agents: set<Id>, models: set<Id>, cohorts: map<Cohort, CohortState>, cells: nat,
      r: Row, s: CohortState, cells': nat)
    requires Limited(routes, agents, models, cohorts, cells) && (cells' == cells || cells < cells' <= MAX_CELLS)
    requires CanRegister(routes, r.cohort.route, MAX_ROUTES) && CanRegister(agents, r.cohort.agent, MAX_AGENTS)
    requires CanRegister(models, r.model, MAX_MODELS) && (r.cohort in cohorts || |cohorts| < MAX_COHORTS)
    ensures Limited(Registered(routes, r.cohort.route), Registered(agents, r.cohort.agent), Registered(models, r.model),
                    cohorts[r.cohort := s], cells')
  {
    RegisteredFits(routes, r.cohort.route, MAX_ROUTES);
    RegisteredFits(agents, r.cohort.agent, MAX_AGENTS);
    RegisteredFits(models, r.model, MAX_MODELS);
    UpdateSize(cohorts, r.cohort, s);
  }

  class Accumulator {
    var totals: Pair
    var routes: set<Id>
    var agents: set<Id>
    var models: set<Id>
    var cohorts: map<Cohort, CohortState>
    var cells: nat
    ghost var log: seq<Row>

    ghost predicate Valid()
      reads this
    {
      && (forall r :: r in log ==> RowOk(r)) && Kept(log, totals, cohorts) && InRange(totals, |log|) && cells == Total(CellCount(cohorts))
      && Limited(routes, agents, models, cohorts, cells)
    }

    /** Whether the row's identities and counts still fit. */
    ghost predicate Accepts(r: Row)
      reads this
    {
      && CanRegister(routes, r.cohort.route, MAX_ROUTES) && CanRegister(agents, r.cohort.agent, MAX_AGENTS)
      && CanRegister(models, r.model, MAX_MODELS)
      && (r.cohort in cohorts || |cohorts| < MAX_COHORTS)
      && ((r.cohort in cohorts && r.model in cohorts[r.cohort].models) || cells < MAX_CELLS)
      && RowFits(totals.At(r.after), r)
    }

    constructor ()
      ensures Valid() && log == []
    {
      totals, routes, agents, models, cohorts, cells, log := NO_PAIR, {}, {}, {}, map[], 0, [];
    }

    /** Adds one model row to the whole, its cohort and its cell; the parts never refuse
        what the whole accepts. */
    method Add(r: Row) returns (ok: bool)
      requires Valid() && RowOk(r)
      modifies this
      ensures ok <==> old(Accepts(r))
      ensures ok ==> Valid() && log == old(log) + [r]
      ensures ok ==>
        && routes == Registered(old(routes), r.cohort.route)
        && agents == Registered(old(agents), r.cohort.agent)
        && models == Registered(old(models), r.model)
    {
      hide Kept, InRange, RowFits, Grown, CohortNext, CellCount, Registered, CanRegister, Limited, RowOk,
          Failures.Fit, Pair.With;
      if !CanRegister(routes, r.cohort.route, MAX_ROUTES) || !CanRegister(agents, r.cohort.agent, MAX_AGENTS)
         || !CanRegister(models, r.model, MAX_MODELS) {
        return false;
      }
      routes, agents, models := Registered(routes, r.cohort.route), Registered(agents, r.cohort.agent), Registered(models, r.model);
      if r.cohort !in cohorts && |cohorts| >= MAX_COHORTS {
        return false;
      }
      var c := if r.cohort in cohorts then cohorts[r.cohort] else CohortState(NO_PAIR, map[], r.number);
      if r.model !in c.models && cells >= MAX_CELLS {
        return false;
      }
      var m := if r.model in c.models then c.models[r.model] else Cell(NO_PAIR, r.number);
      LimitedNext(old(routes), old(agents), old(models), cohorts, cells, r, CohortNext(c, m, r),
                  if r.model in c.models then cells else cells + 1);
      ok := Count(r, c, m);
    }

    /** Counts a row in the whole, in its cohort and in its cell. */
    method Count(r: Row, c: CohortState, m: Cell) returns (ok: bool)
      requires Kept(log, totals, cohorts) && InRange(totals, |log|) && cells == Total(CellCount(cohorts))
      requires RowOk(r) && c == CohortOf(cohorts, r) && m == CellOf(c, r)
      modifies this`totals, this`cohorts, this`cells, this`log
      ensures ok <==> RowFits(old(totals).At(r.after), r)
      ensures ok ==> Kept(log, totals, cohorts) && InRange(totals, |log|) && cells == Total(CellCount(cohorts))
      ensures ok ==> log == old(log) + [r] && cohorts == old(cohorts)[r.cohort := CohortNext(c, m, r)]
      ensures ok ==> cells == old(cells) + if r.model in c.models then 0 else 1
    {
      hide Kept, InRange, RowFits, Grown, CohortNext, CellCount, RowOk, CohortOf, CellOf;
      PartsFit(log, totals, cohorts, r, c, m);
      var total;
      ok, total := AddTo(totals, r);
      if !ok {
        return;
      }
      KeptNext(log, totals, cohorts, r, c, m);
      NextModels(c, m, r);
      CellsNext(cohorts, r, c, CohortNext(c, m, r));
      InRangeNext(log, totals, r);
      var cohort, cell;
      ok, cohort := AddTo(c.totals, r);
      ok, cell := AddTo(m.totals, r);
      if r.model !in c.models {
        cells := cells + 1;
      }
      NextIs(c, m, r, cohort, cell);
      totals, cohorts := total, cohorts[r.cohort := c.(totals := cohort, models := c.models[r.model := m.(totals := cell)])];
      log := log + [r];
    }
  }

  lemma NextIs(c: CohortState, m: Cell, r: Row, cohort: Pair, cell: Pair)
    requires cohort == Grown(c.totals, r) && cell == Grown(m.totals, r)
    ensures c.(totals := cohort, models := c.models[r.model := m.(totals := cell)]) == CohortNext(c, m, r)
  {
  }

  /** Adds a row to the side it belongs to. */
  method AddTo(p: Pair, r: Row) returns (ok: bool, p': Pair)
    requires RowOk(r) && p.At(r.after).failures.Fit()
    ensures ok <==> RowFits(p.At(r.after), r)
    ensures ok ==> p' == Grown(p, r)
  {
    var m;
    ok, m := AddRow(p.At(r.after), r);
    p' := p.With(r.after, m);
  }

  function CohortOf(cohorts: map<Cohort, CohortState>, r: Row): CohortState {
    if r.cohort in cohorts then cohorts[r.cohort] else CohortState(NO_PAIR, map[], r.number)
  }

  function CellOf(c: CohortState, r: Row): Cell {
    if r.model in c.models then c.models[r.model] else Cell(NO_PAIR, r.number)
  }

  /** A row's cohort and cell, even if new, are what has been summed for them so far. */
  lemma PartsKept(log: seq<Row>, totals: Pair, cohorts: map<Cohort, CohortState>, r: Row, c: CohortState, m: Cell)
    requires Kept(log, totals, cohorts) && c == CohortOf(cohorts, r) && m == CellOf(c, r)
    ensures CohortKept(log, r.cohort, c) && CellKept(log, r.cohort, r.model, m)
  {
    hide Sums;
    if r.cohort !in cohorts {
      SumsNone(log, InCohorts({r.cohort}));
    }
    if r.model !in c.models {
      assert forall x :: x in log ==> x.cohort == r.cohort ==> x.model in ModelsIn(log, r.cohort);
      SumsNone(log, InCells({(r.cohort, r.model)}));
    }
  }

  lemma PartsFit(log: seq<Row>, totals: Pair, cohorts: map<Cohort, CohortState>, r: Row, c: CohortState, m: Cell)
    requires Kept(log, totals, cohorts) && InRange(totals, |log|) && c == CohortOf(cohorts, r) && m == CellOf(c, r)
    ensures totals.At(r.after).failures.Fit() && c.totals.At(r.after).failures.Fit()
    ensures m.totals.At(r.after).failures.Fit()
    ensures RowFits(totals.At(r.after), r) ==> RowFits(c.totals.At(r.after), r) && RowFits(m.totals.At(r.after), r)
  {
    PartsKept(log, totals, cohorts, r, c, m);
    SumsBelow(log, InCohorts({r.cohort}), Everything);
    SumsBelow(log, InCells({(r.cohort, r.model)}), Everything);
    assert totals == Sums(log, Everything);
    hide Sums, CohortOf, CellOf, Of, Kept, CohortKept, ModelsIn;
    BelowRowFits(c.totals.At(r.after), totals.At(r.after), r);
    BelowRowFits(m.totals.At(r.after), totals.At(r.after), r);
    hide RowFits, Below;
  }

  lemma BelowRowFits(a: Measures, b: Measures, r: Row)
    requires Below(a, b) && b.failures.Fit()
    ensures a.failures.Fit() && (RowFits(b, r) ==> RowFits(a, r))
  {
    hide Of;
  }

  function CellNext(m: Cell, r: Row): Cell { m.(totals := Grown(m.totals, r)) }

  function CohortNext(c: CohortState, m: Cell, r: Row): CohortState {
    c.(totals := Grown(c.totals, r), models := c.models[r.model := CellNext(m, r)])
  }

  lemma KeptNext(log: seq<Row>, totals: Pair, cohorts: map<Cohort, CohortState>, r: Row, c: CohortState, m: Cell)
    requires Kept(log, totals, cohorts) && c == CohortOf(cohorts, r) && m == CellOf(c, r)
    ensures Kept(log + [r], Grown(totals, r), cohorts[r.cohort := CohortNext(c, m, r)])
  {
    PartsKept(log, totals, cohorts, r, c, m);
    SumsNext(log, r, Everything);
    CohortGrows(log, r, c, m);
    InNext(log, r);
    OneMore(cohorts, r.cohort, CohortNext(c, m, r));
    forall k | k in cohorts && k != r.cohort ensures CohortKept(log + [r], k, cohorts[k]) {
      CohortUnchanged(log, r, k, cohorts[k]);
    }
    hide Sums, Grown, CohortsIn, ModelsIn, CohortKept, CohortNext, CohortOf, CellOf;
  }

  lemma CohortGrows(log: seq<Row>, r: Row, c: CohortState, m: Cell)
    requires CohortKept(log, r.cohort, c) && CellKept(log, r.cohort, r.model, m)
    ensures CohortKept(log + [r], r.cohort, CohortNext(c, m, r))
  {
    SumsNext(log, r, InCohorts({r.cohort}));
    SumsNext(log, r, InCells({(r.cohort, r.model)}));
    InNext(log, r);
    OneMore(c.models, r.model, CellNext(m, r));
    hide Sums, Grown, CohortsIn, ModelsIn;
    forall x | x in c.models && x != r.model ensures CellKept(log + [r], r.cohort, x, c.models[x]) {
      SumsNext(log, r, InCells({(r.cohort, x)}));
    }
  }

  lemma CohortUnchanged(log: seq<Row>, r: Row, k: Cohort, s: CohortState)
    requires CohortKept(log, k, s) && k != r.cohort
    ensures CohortKept(log + [r], k, s)
  {
    SumsNext(log, r, InCohorts({k}));
    InNext(log, r);
    hide Sums, CohortsIn, ModelsIn;
    forall x | x in s.models ensures CellKept(log + [r], k, x, s.models[x]) {
      SumsNext(log, r, InCells({(k, x)}));
    }
  }

  lemma InNext(log: seq<Row>, r: Row)
    ensures CohortsIn(log + [r]) == CohortsIn(log) + {r.cohort}
    ensures ModelsIn(log + [r], r.cohort) == ModelsIn(log, r.cohort) + {r.model}
    ensures forall k :: k != r.cohort ==> ModelsIn(log + [r], k) == ModelsIn(log, k)
  {
    assert forall x :: x in log + [r] <==> x in log || x == r;
    assert r in log + [r];
  }

  lemma InRangeNext(log: seq<Row>, totals: Pair, r: Row)
    requires InRange(totals, |log|) && RowFits(totals.At(r.after), r)
    ensures InRange(Grown(totals, r), |log + [r]|)
  {
  }

  lemma CellsNext(cohorts: map<Cohort, CohortState>, r: Row, c: CohortState, c': CohortState)
    requires c == CohortOf(cohorts, r) && c'.models.Keys == c.models.Keys + {r.model}
    ensures Total(CellCount(cohorts[r.cohort := c'])) == Total(CellCount(cohorts)) + if r.model in c.models then 0 else 1
  {
    assert |c'.models| == |c.models| + if r.model in c.models then 0 else 1 by {
      assert |c'.models| == |c'.models.Keys| && |c.models| == |c.models.Keys|;
      if r.model in c.models {
        assert c'.models.Keys == c.models.Keys;
      }
    }
    assert CellCount(cohorts[r.cohort := c']) == CellCount(cohorts)[r.cohort := |c'.models|];
    TotalInsert(CellCount(cohorts), r.cohort, |c'.models|);
  }

  lemma NextModels(c: CohortState, m: Cell, r: Row)
    ensures CohortNext(c, m, r).models.Keys == c.models.Keys + {r.model}
  {
    OneMore(c.models, r.model, CellNext(m, r));
  }
}
