/** The routing report: the largest cohorts and cells are shown, the rest is merged
    into one remainder, and nothing is lost or counted twice. */
module RoutingReport {
  import opened Common
  import opened Windows
  import opened WindowCounts
  import opened Ordering
  import opened Routing

  datatype ShownModel = ShownModel(id: Id, totals: Pair)

  datatype ShownCohort = ShownCohort(cohort: Cohort, totals: Pair, models: seq<ShownModel>)

  datatype Audit = Audit(modelRows: Pair, cohorts: seq<ShownCohort>, remainder: Pair, remainderCohorts: nat, remainderCells: nat)

  // ----- what is shown

  ghost function ModelsTotal(models: seq<ShownModel>): Pair {
    if models == [] then NO_PAIR else ModelsTotal(models[..|models| - 1]).Plus(models[|models| - 1].totals)
  }

  ghost function ShownTotal(cohorts: seq<ShownCohort>): Pair {
    if cohorts == [] then NO_PAIR else ShownTotal(cohorts[..|cohorts| - 1]).Plus(ModelsTotal(cohorts[|cohorts| - 1].models))
  }

  function ModelsShown(cohorts: seq<ShownCohort>): nat {
    if cohorts == [] then 0 else ModelsShown(cohorts[..|cohorts| - 1]) + |cohorts[|cohorts| - 1].models|
  }

  lemma ModelsMore(models: seq<ShownModel>, m: ShownModel)
    ensures ModelsTotal(models + [m]) == ModelsTotal(models).Plus(m.totals)
  {
    hide Pair.Plus;
    assert (models + [m])[..|models|] == models;
  }

  lemma ShownMore(cohorts: seq<ShownCohort>, c: ShownCohort)
    ensures ShownTotal(cohorts + [c]) == ShownTotal(cohorts).Plus(ModelsTotal(c.models))
    ensures ModelsShown(cohorts + [c]) == ModelsShown(cohorts) + |c.models|
  {
    hide Pair.Plus, ModelsTotal;
    assert (cohorts + [c])[..|cohorts|] == cohorts;
  }

  // ----- merging never overflows

  /** Parts of what was counted merge without leaving any range. */
  lemma PartsMerge(log: seq<Row>, totals: Pair, s: Select, a: Pair, b: Pair)
    requires totals == Sums(log, Everything) && InRange(totals, |log|) && |log| <= MAX_INT64
    requires a.Plus(b) == Sums(log, s)
    ensures MergeFits(a.before, b.before) && MergeFits(a.after, b.after)
  {
    SumsBelow(log, s, Everything);
    BelowMerge(a.before, b.before, totals.before, |log|);
    BelowMerge(a.after, b.after, totals.after, |log|);
    hide Sums, Below, MergeFits, Measures.Fit;
  }

  lemma BelowMerge(a: Measures, b: Measures, whole: Measures, n: int)
    requires n <= MAX_INT64 && whole.Fit(n)
    ensures Below(a.Plus(b), whole) ==> MergeFits(a, b)
  {
    hide Measures.Plus;
  }

  method MergePair(ghost log: seq<Row>, ghost totals: Pair, ghost s: Select, a: Pair, b: Pair)
    returns (ok: bool, sum: Pair)
    requires totals == Sums(log, Everything) && InRange(totals, |log|) && |log| <= MAX_INT64
    requires a.Plus(b) == Sums(log, s)
    ensures ok && sum == Sums(log, s)
  {
    PartsMerge(log, totals, s, a, b);
    var before, after;
    ok, before := Merge(a.before, b.before);
    if !ok {
      return false, a;
    }
    ok, after := Merge(a.after, b.after);
    sum := Pair(before, after);
  }

  // ----- one cohort

  function CellsOf(c: Cohort, models: set<Id>): set<(Cohort, Id)> {
    set m | m in models :: (c, m)
  }

  lemma CellsMore(c: Cohort, models: set<Id>, m: Id)
    ensures CellsOf(c, models + {m}) == CellsOf(c, models) + {(c, m)}
    ensures (c, m) in CellsOf(c, models) <==> m in models
  {
  }

  /** Adding one cell that was not counted yet. */
  lemma AddCell(log: seq<Row>, cells: set<(Cohort, Id)>, c: Cohort, m: Id)
    requires (c, m) !in cells
    ensures Sums(log, InCells(cells + {(c, m)})) == Sums(log, InCells(cells)).Plus(Sums(log, InCells({(c, m)})))
  {
    SumsSplit(log, InCells(cells + {(c, m)}), InCells(cells), InCells({(c, m)}));
    hide Sums, Pair.Plus;
  }

  /** All these cells belong to the given cohorts. */
  ghost predicate Inside(cells: set<(Cohort, Id)>, cohorts: set<Cohort>) {
    forall p :: p in cells ==> p.0 in cohorts
  }

  function CellRanks(s: CohortState): map<Id, Rank> {
    map m | m in s.models :: Rank(true, s.models[m].totals.Requests() as real, s.models[m].ordinal)
  }

  function CellTotals(s: CohortState, m: Id): Pair {
    if m in s.models then s.models[m].totals else NO_PAIR
  }

  /** The first `top` cells in order are shown. */
  ghost predicate ShowsFirst(s: CohortState, top: nat, models: seq<ShownModel>, keys: seq<Id>) {
    && |models| == Least(|keys|, top)
    && forall i :: 0 <= i < |models| ==> models[i] == ShownModel(keys[i], CellTotals(s, keys[i]))
  }

  ghost predicate ShowsTop(s: CohortState, top: nat, models: seq<ShownModel>) {
    exists keys: seq<Id> :: Ordered(CellRanks(s), keys) && ShowsFirst(s, top, models, keys)
  }

  /** The cells of a cohort handled so far: `shown` and `merged`, on top of what was
      merged `before`. */
  ghost predicate Showing(log: seq<Row>, c: Cohort, before: set<(Cohort, Id)>, done: set<Id>, models: seq<ShownModel>,
      remainder: Pair,
                          shown: set<(Cohort, Id)>, merged: set<(Cohort, Id)>) {
    && ModelsTotal(models) == Sums(log, InCells(shown)) && remainder == Sums(log, InCells(before + merged))
    && shown + merged == CellsOf(c, done) && shown !! merged
  }

  lemma ShowOne(log: seq<Row>, c: Cohort, s: CohortState, before: set<(Cohort, Id)>, done: set<Id>,
      models: seq<ShownModel>, remainder: Pair,
                shown: set<(Cohort, Id)>, merged: set<(Cohort, Id)>, m: Id)
    requires CohortKept(log, c, s) && m in s.models && m !in done
    requires Showing(log, c, before, done, models, remainder, shown, merged)
    ensures Showing(log, c, before, done + {m}, models + [ShownModel(m, s.models[m].totals)], remainder, shown + {(c, m)}, merged)
  {
    CellsMore(c, done, m);
    assert CellKept(log, c, m, s.models[m]);
    hide Sums, Pair.Plus, ModelsTotal, CellsOf, ModelsIn;
    AddCell(log, shown, c, m);
    ModelsMore(models, ShownModel(m, s.models[m].totals));
  }

  lemma MergeOne(log: seq<Row>, c: Cohort, s: CohortState, before: set<(Cohort, Id)>, done: set<Id>,
      models: seq<ShownModel>, remainder: Pair,
                 shown: set<(Cohort, Id)>, merged: set<(Cohort, Id)>, m: Id)
    requires CohortKept(log, c, s) && m in s.models && m !in done
    requires Showing(log, c, before, done, models, remainder, shown, merged)
    requires (c, m) !in before
    ensures remainder.Plus(s.models[m].totals) == Sums(log, InCells(before + (merged + {(c, m)})))
    ensures Showing(log, c, before, done + {m}, models, remainder.Plus(s.models[m].totals), shown, merged + {(c, m)})
  {
    CellsMore(c, done, m);
    assert CellKept(log, c, m, s.models[m]);
    hide Sums, Pair.Plus, ModelsTotal, CellsOf, ModelsIn;
    AddCell(log, before + merged, c, m);
    assert before + merged + {(c, m)} == before + (merged + {(c, m)});
  }

  /** Shows a cohort's largest cells and merges its other cells into the remainder. */
  method ShowCohort(ghost log: seq<Row>, ghost totals: Pair, c: Cohort, s: CohortState, top: nat, remainder: Pair,
      ghost before: set<(Cohort, Id)>)
    returns (ok: bool, models: seq<ShownModel>, hidden: nat, remainder': Pair,
             ghost shown: set<(Cohort, Id)>, ghost merged: set<(Cohort, Id)>)
    requires totals == Sums(log, Everything) && InRange(totals, |log|) && |log| <= MAX_INT64
    requires CohortKept(log, c, s) && remainder == Sums(log, InCells(before)) && forall m :: (c, m) !in before
    ensures ok && ShowsTop(s, top, models) && |models| + hidden == |s.models|
    ensures Showing(log, c, before, s.models.Keys, models, remainder', shown, merged)
  {
    hide Sums, InRange, Pair.Plus, CohortKept, CellsOf, Showing, ModelsTotal, Ranked;
    var keys := Order(CellRanks(s));
    assert CellRanks(s).Keys == s.models.Keys && |CellRanks(s).Keys| == |CellRanks(s)| && |s.models.Keys| == |s.models|;
    models, hidden, remainder', shown, merged, ok := [], 0, remainder, {}, {}, true;
    ghost var done: set<Id> := {};
    ShowingNone(log, c, before, remainder);
    for j := 0 to |keys|
      invariant ok && |models| + hidden == j && |models| == Least(j, top) && done == SetOf(keys[..j])
      invariant forall i :: 0 <= i < |models| ==> models[i] == ShownModel(keys[i], CellTotals(s, keys[i]))
      invariant Showing(log, c, before, done, models, remainder', shown, merged)
    {
      var m := keys[j];
      NextKey(keys, j);
      assert m in s.models;
      if j >= top {
        hidden := hidden + 1;
        MergeOne(log, c, s, before, done, models, remainder', shown, merged, m);
        merged := merged + {(c, m)};
        ok, remainder' := MergePair(log, totals, InCells(before + merged), remainder', s.models[m].totals);
      } else {
        ShowOne(log, c, s, before, done, models, remainder', shown, merged, m);
        models := models + [ShownModel(m, s.models[m].totals)];
        shown := shown + {(c, m)};
      }
      done := done + {m};
    }
    assert keys[..|keys|] == keys;
    assert ShowsFirst(s, top, models, keys);
  }

  lemma ShowingNone(log: seq<Row>, c: Cohort, before: set<(Cohort, Id)>, remainder: Pair)
    requires remainder == Sums(log, InCells(before))
    ensures Showing(log, c, before, {}, [], remainder, {}, {})
  {
    SumsNone(log, InCells({}));
    assert before + {} == before;
    hide Sums;
  }

  // ----- the whole report

  function CohortRanks(cohorts: map<Cohort, CohortState>): map<Cohort, Rank> {
    map c | c in cohorts :: Rank(true, cohorts[c].totals.Requests() as real, cohorts[c].ordinal)
  }

  /** A shown cohort is one of the accumulator's, with its own totals and largest cells. */
  ghost predicate ShowsCohort(cohorts: map<Cohort, CohortState>, top: nat, shown: ShownCohort) {
    && shown.cohort in cohorts && shown.totals == cohorts[shown.cohort].totals
    && ShowsTop(cohorts[shown.cohort], top, shown.models)
  }

  /** The first `top` cohorts in order are shown. */
  ghost predicate ShowsCohorts(cohorts: map<Cohort, CohortState>, top: nat, shown: seq<ShownCohort>,
      keys: seq<Cohort>) {
    && |shown| == Least(|keys|, top)
    && forall i :: 0 <= i < |shown| ==> shown[i].cohort == keys[i] && ShowsCohort(cohorts, top, shown[i])
  }

  /** The cells of the cohorts handled so far are either shown or merged. */
  ghost predicate Handled(log: seq<Row>, shown: set<(Cohort, Id)>, merged: set<(Cohort, Id)>, done: set<Cohort>) {
    && shown !! merged && Inside(shown, done) && Inside(merged, done)
    && forall r :: r in log && r.cohort in done ==> (r.cohort, r.model) in shown + merged
  }

  /** What they add up to. */
  ghost predicate Adds(log: seq<Row>, cohorts: seq<ShownCohort>, remainder: Pair, shown: set<(Cohort, Id)>,
      merged: set<(Cohort, Id)>) {
    ShownTotal(cohorts) == Sums(log, InCells(shown)) && remainder == Sums(log, InCells(merged))
  }

  lemma HandledNext(log: seq<Row>, shown: set<(Cohort, Id)>, merged: set<(Cohort, Id)>, done: set<Cohort>,
                    c: Cohort, models: set<Id>, more: set<(Cohort, Id)>, rest: set<(Cohort, Id)>)
    requires Handled(log, shown, merged, done) && c !in done && models == ModelsIn(log, c)
    requires more + rest == CellsOf(c, models) && more !! rest
    ensures shown !! more && Handled(log, shown + more, merged + rest, done + {c})
  {
    forall p | p in more + rest ensures p.0 == c {
    }
    forall r | r in log && r.cohort == c ensures (r.cohort, r.model) in more + rest {
      assert r.model in models;
    }
  }

  /** Merging a whole cohort merges all its cells. */
  lemma CohortMerged(log: seq<Row>, merged: set<(Cohort, Id)>, c: Cohort, s: CohortState)
    requires CohortKept(log, c, s) && forall m :: (c, m) !in merged
    ensures Sums(log, InCells(merged + CellsOf(c, s.models.Keys))) == Sums(log, InCells(merged)).Plus(s.totals)
  {
    var whole := InCells(merged + CellsOf(c, s.models.Keys));
    forall r | r in log
      ensures (whole.Has(r) <==> InCells(merged).Has(r) || InCohorts({c}).Has(r))
      ensures !(InCells(merged).Has(r) && InCohorts({c}).Has(r))
    {
      if r.cohort == c {
        assert r.model in ModelsIn(log, c);
      }
    }
    SumsSplit(log, whole, InCells(merged), InCohorts({c}));
    hide Sums, Pair.Plus;
  }

  /** One more cohort shown. */
  lemma CohortShown(log: seq<Row>, cohorts: seq<ShownCohort>, remainder: Pair, shown: set<(Cohort, Id)>,
      merged: set<(Cohort, Id)>,
                    entry: ShownCohort, remainder': Pair, done: set<Id>, more: set<(Cohort, Id)>, rest: set<(Cohort, Id)>)
    requires Adds(log, cohorts, remainder, shown, merged) && shown !! more
    requires Showing(log, entry.cohort, merged, done, entry.models, remainder', more, rest)
    ensures Adds(log, cohorts + [entry], remainder', shown + more, merged + rest)
  {
    SumsSplit(log, InCells(shown + more), InCells(shown), InCells(more));
    ShownMore(cohorts, entry);
    hide Sums, Pair.Plus, ShownTotal, ModelsTotal;
  }

  /** The state of the report after some cohorts. */
  ghost predicate Reporting(log: seq<Row>, a: Audit, shown: set<(Cohort, Id)>, merged: set<(Cohort, Id)>,
      done: set<Cohort>) {
    Handled(log, shown, merged, done) && Adds(log, a.cohorts, a.remainder, shown, merged)
  }

  lemma NotMerged(log: seq<Row>, a: Audit, shown: set<(Cohort, Id)>, merged: set<(Cohort, Id)>, done: set<Cohort>,
      c: Cohort)
    requires Reporting(log, a, shown, merged, done) && c !in done
    ensures a.remainder == Sums(log, InCells(merged)) && forall m :: (c, m) !in merged
  {
    hide Sums, ShownTotal;
    forall m ensures (c, m) !in merged {
      assert (c, m) in merged ==> (c, m).0 in done;
    }
  }

  lemma MergedNext(log: seq<Row>, a: Audit, shown: set<(Cohort, Id)>, merged: set<(Cohort, Id)>, done: set<Cohort>,
      c: Cohort, s: CohortState, a': Audit)
    requires Reporting(log, a, shown, merged, done) && c !in done && CohortKept(log, c, s)
    requires a'.cohorts == a.cohorts && a'.remainder == Sums(log, InCells(merged + CellsOf(c, s.models.Keys)))
    ensures Reporting(log, a', shown, merged + CellsOf(c, s.models.Keys), done + {c})
  {
    var cells := CellsOf(c, s.models.Keys);
    assert {} + cells == cells && shown + {} == shown;
    HandledNext(log, shown, merged, done, c, s.models.Keys, {}, cells);
    hide Sums, ShownTotal, Handled, CellsOf;
  }

  lemma ShownNext(log: seq<Row>, a: Audit, shown: set<(Cohort, Id)>, merged: set<(Cohort, Id)>, done: set<Cohort>,
      s: CohortState,
                  entry: ShownCohort, more: set<(Cohort, Id)>, rest: set<(Cohort, Id)>, a': Audit)
    requires Reporting(log, a, shown, merged, done) && entry.cohort !in done && CohortKept(log, entry.cohort, s)
    requires Showing(log, entry.cohort, merged, s.models.Keys, entry.models, a'.remainder, more, rest)
    requires a'.cohorts == a.cohorts + [entry]
    ensures Reporting(log, a', shown + more, merged + rest, done + {entry.cohort})
  {
    HandledNext(log, shown, merged, done, entry.cohort, s.models.Keys, more, rest);
    CohortShown(log, a.cohorts, a.remainder, shown, merged, entry, a'.remainder, s.models.Keys, more, rest);
    hide Sums, ShownTotal, Handled, CellsOf, Showing, Adds;
  }

  lemma ReportingNothing(log: seq<Row>, a: Audit)
    requires a.cohorts == [] && a.remainder == NO_PAIR
    ensures Reporting(log, a, {}, {}, {})
  {
    SumsNone(log, InCells({}));
    hide Sums;
  }

  /** When every cohort is handled, shown and merged make up everything. */
  lemma Conserved(log: seq<Row>, a: Audit, shown: set<(Cohort, Id)>, merged: set<(Cohort, Id)>, done: set<Cohort>)
    requires Reporting(log, a, shown, merged, done) && CohortsIn(log) <= done
    ensures ShownTotal(a.cohorts).Plus(a.remainder) == Sums(log, Everything)
  {
    forall r | r in log ensures r.cohort in CohortsIn(log) {
    }
    SumsSplit(log, Everything, InCells(shown), InCells(merged));
    hide Sums, Pair.Plus, ShownTotal;
  }

  /** Shown cohorts, and the models shown of each, have ever fewer requests, and none that
      is not shown has more. */
  ghost predicate LargestShown(cohorts: map<Cohort, CohortState>, shown: seq<ShownCohort>) {
    && (forall i, j :: 0 <= i < j < |shown| ==> Requests(shown[i].totals) >= Requests(shown[j].totals))
    && (forall c, i :: c in cohorts && 0 <= i < |shown| && Unshown(c, shown) ==>
          Requests(shown[i].totals) >= Requests(cohorts[c].totals))
    && (forall i :: 0 <= i < |shown| ==> shown[i].cohort in cohorts && LargestModels(cohorts[shown[i].cohort], shown[i].models))
  }

  ghost predicate LargestModels(s: CohortState, shown: seq<ShownModel>) {
    && (forall i, j :: 0 <= i < j < |shown| ==> Requests(shown[i].totals) >= Requests(shown[j].totals))
    && (forall m, i :: m in s.models && 0 <= i < |shown| && (forall k :: 0 <= k < |shown| ==> shown[k].id != m) ==>
          Requests(shown[i].totals) >= Requests(s.models[m].totals))
  }

  ghost predicate Unshown(c: Cohort, shown: seq<ShownCohort>) {
    forall k :: 0 <= k < |shown| ==> shown[k].cohort != c
  }

  function Requests(p: Pair): nat { p.before.rows.requests + p.after.rows.requests }

  lemma KeyPlace<K>(ranks: map<K, Rank>, keys: seq<K>, k: K) returns (i: nat)
    requires Ordered(ranks, keys) && k in ranks
    ensures i < |keys| && keys[i] == k
  {
    assert k in SetOf(keys);
    i :| 0 <= i < |keys| && keys[i] == k;
  }

  lemma ModelsDescend(s: CohortState, top: nat, shown: seq<ShownModel>)
    requires ShowsTop(s, top, shown)
    ensures LargestModels(s, shown)
  {
    hide Ordered;
    var keys :| Ordered(CellRanks(s), keys) && ShowsFirst(s, top, shown, keys);
    assert forall j :: 0 <= j < |shown| ==> shown[j].id == keys[j];
    forall i, j | 0 <= i < j < |shown| ensures Requests(shown[i].totals) >= Requests(shown[j].totals) {
      Descends(CellRanks(s), keys, i, j);
    }
    forall m, i | m in s.models && 0 <= i < |shown| && forall k :: 0 <= k < |shown| ==> shown[k].id != m
      ensures Requests(shown[i].totals) >= Requests(s.models[m].totals)
    {
      var j := KeyPlace(CellRanks(s), keys, m);
      Descends(CellRanks(s), keys, i, j);
    }
  }

  lemma CohortsDescend(cohorts: map<Cohort, CohortState>, top: nat, shown: seq<ShownCohort>, keys: seq<Cohort>)
    requires Ordered(CohortRanks(cohorts), keys) && ShowsCohorts(cohorts, top, shown, keys)
    ensures LargestShown(cohorts, shown)
  {
    hide Ordered, ShowsTop, LargestModels;
    assert forall j :: 0 <= j < |shown| ==> shown[j].cohort == keys[j];
    forall i, j | 0 <= i < j < |shown| ensures Requests(shown[i].totals) >= Requests(shown[j].totals) {
      Descends(CohortRanks(cohorts), keys, i, j);
    }
    forall c, i | c in cohorts && 0 <= i < |shown| && Unshown(c, shown)
      ensures Requests(shown[i].totals) >= Requests(cohorts[c].totals)
    {
      var j := KeyPlace(CohortRanks(cohorts), keys, c);
      Descends(CohortRanks(cohorts), keys, i, j);
    }
    forall i | 0 <= i < |shown| ensures shown[i].cohort in cohorts && LargestModels(cohorts[shown[i].cohort], shown[i].models) {
      assert ShowsCohort(cohorts, top, shown[i]);
      ModelsDescend(cohorts[shown[i].cohort], top, shown[i].models);
    }
  }

  /** The report shows the largest cohorts and cells, and merges the others without
      ever overflowing: what is shown and the remainder add up to all model rows. */
  method Result(a: Accumulator, top: nat) returns (ok: bool, r: Audit, ghost keys: seq<Cohort>)
    requires a.Valid() && |a.log| <= MAX_ROWS
    ensures ok && r.modelRows == a.totals == Sums(a.log, Everything)
    ensures ShownTotal(r.cohorts).Plus(r.remainder) == r.modelRows
    ensures Ordered(CohortRanks(a.cohorts), keys) && ShowsCohorts(a.cohorts, top, r.cohorts, keys)
    ensures LargestShown(a.cohorts, r.cohorts)
    ensures |r.cohorts| + r.remainderCohorts == |a.cohorts| && ModelsShown(r.cohorts) + r.remainderCells == a.cells
  {
    assert a.cells == Total(CellCount(a.cohorts));
    ghost var log := a.log;
    hide Sums, InRange, Pair.Plus, CohortKept, ShownTotal, Progress, Ordered, CellCount, CohortRanks, ModelsShown;
    RankKeys(a.cohorts);
    var order := Order(CohortRanks(a.cohorts));
    keys := order;
    OrderedKeys(CohortRanks(a.cohorts), order);
    r := Audit(a.totals, [], NO_PAIR, 0, 0);
    ghost var g := Ghosts({}, {}, {}, map[]);
    ProgressNothing(log, a.cohorts, top, order, r);
    ok := true;
    for i := 0 to |order|
      invariant ok && r.modelRows == a.totals && Progress(log, a.cohorts, top, order, i, r, g)
    {
      assert order[i] in SetOf(order);
      ok, r, g := ReportNext(log, a.totals, a.cohorts, top, order, i, r, g);
    }
    ProgressDone(log, a.cohorts, top, order, r, g);
    CohortsDescend(a.cohorts, top, r.cohorts, order);
    hide LargestShown;
  }

  /** What the report has handled: cells shown, cells merged, cohorts, and their sizes. */
  datatype Ghosts = Ghosts(shown: set<(Cohort, Id)>, merged: set<(Cohort, Id)>, done: set<Cohort>, counts: map<Cohort, int>)

  ghost predicate Progress(log: seq<Row>, cohorts: map<Cohort, CohortState>, top: nat, keys: seq<Cohort>, i: nat,
      r: Audit, g: Ghosts) {
    && i <= |keys| && g.done == SetOf(keys[..i])
    && Reporting(log, r, g.shown, g.merged, g.done) && Shape(cohorts, top, keys, i, r) && Counted(cohorts, r, g.counts, g.done)
  }

  lemma ProgressNothing(log: seq<Row>, cohorts: map<Cohort, CohortState>, top: nat, keys: seq<Cohort>, r: Audit)
    requires r.cohorts == [] && r.remainder == NO_PAIR && r.remainderCohorts == 0 && r.remainderCells == 0
    ensures Progress(log, cohorts, top, keys, 0, r, Ghosts({}, {}, {}, map[]))
  {
    ReportingNothing(log, r);
    hide Reporting;
  }

  lemma ProgressDone(log: seq<Row>, cohorts: map<Cohort, CohortState>, top: nat, keys: seq<Cohort>, r: Audit, g: Ghosts)
    requires Progress(log, cohorts, top, keys, |keys|, r, g) && SetOf(keys) == cohorts.Keys == CohortsIn(log)
    ensures ShownTotal(r.cohorts).Plus(r.remainder) == Sums(log, Everything)
    ensures ShowsCohorts(cohorts, top, r.cohorts, keys) && |r.cohorts| + r.remainderCohorts == |keys|
    ensures ModelsShown(r.cohorts) + r.remainderCells == Total(CellCount(cohorts))
  {
    hide Reporting, ShowsCohort, Sums, ShownTotal, Pair.Plus, ModelsShown;
    assert keys[..|keys|] == keys;
    Conserved(log, r, g.shown, g.merged, g.done);
    assert g.counts == CellCount(cohorts);
  }

  /** Handles cohort `i`. */
  method ReportNext(ghost log: seq<Row>, ghost totals: Pair, cohorts: map<Cohort, CohortState>, top: nat,
      keys: seq<Cohort>, i: nat, r: Audit, ghost g: Ghosts)
    returns (ok: bool, r': Audit, ghost g': Ghosts)
    requires totals == Sums(log, Everything) && InRange(totals, |log|) && |log| <= MAX_INT64
    requires i < |keys| && Distinct(keys) && keys[i] in cohorts && CohortKept(log, keys[i], cohorts[keys[i]])
    requires Progress(log, cohorts, top, keys, i, r, g)
    ensures ok && r'.modelRows == r.modelRows && Progress(log, cohorts, top, keys, i + 1, r', g')
  {
    hide Sums, InRange, CohortKept, Reporting, Shape, Counted, ShowsTop;
    var c := keys[i];
    NextKey(keys, i);
    ghost var shown, merged;
    ok, r', shown, merged := ReportCohort(log, totals, c, cohorts[c], i >= top, top, r, g.shown, g.merged, g.done);
    ShapeNext(cohorts, top, keys, i, r, r');
    CountedNext(cohorts, r, r', g.counts, g.done, c);
    g' := Ghosts(shown, merged, g.done + {c}, g.counts[c := |cohorts[c].models|]);
  }

  /** Every handled cohort's cells are shown or counted as merged. */
  ghost predicate Counted(cohorts: map<Cohort, CohortState>, r: Audit, counts: map<Cohort, int>, done: set<Cohort>) {
    && counts.Keys == done && (forall c :: c in done ==> c in cohorts && counts[c] == |cohorts[c].models|)
    && ModelsShown(r.cohorts) + r.remainderCells == Total(counts)
  }

  lemma CountedNext(cohorts: map<Cohort, CohortState>, r: Audit, r': Audit, counts: map<Cohort, int>,
      done: set<Cohort>, c: Cohort)
    requires Counted(cohorts, r, counts, done) && c !in done && c in cohorts
    requires r'.cohorts == r.cohorts || (|r'.cohorts| == |r.cohorts| + 1 && r'.cohorts[..|r.cohorts|] == r.cohorts)
    requires r'.remainderCells - r.remainderCells
          == |cohorts[c].models| - if r'.cohorts == r.cohorts then 0 else |r'.cohorts[|r.cohorts|].models|
    ensures Counted(cohorts, r', counts[c := |cohorts[c].models|], done + {c})
  {
    TotalInsert(counts, c, |cohorts[c].models|);
    OneMore(counts, c, |cohorts[c].models|);
  }

  /** The first `i` cohorts are shown or counted as merged. */
  ghost predicate Shape(cohorts: map<Cohort, CohortState>, top: nat, keys: seq<Cohort>, i: nat, r: Audit)
    requires i <= |keys|
  {
    && |r.cohorts| + r.remainderCohorts == i && |r.cohorts| == Least(i, top)
    && forall k :: 0 <= k < |r.cohorts| ==> r.cohorts[k].cohort == keys[k] && ShowsCohort(cohorts, top, r.cohorts[k])
  }

  lemma ShapeNext(cohorts: map<Cohort, CohortState>, top: nat, keys: seq<Cohort>, i: nat, r: Audit, r': Audit)
    requires i < |keys| && keys[i] in cohorts && Shape(cohorts, top, keys, i, r)
    requires i >= top ==> r'.cohorts == r.cohorts && r'.remainderCohorts == r.remainderCohorts + 1
    requires i < top ==>
      (|r'.cohorts| == |r.cohorts| + 1 && r'.cohorts[..|r.cohorts|] == r.cohorts && r'.remainderCohorts == r.remainderCohorts)
    requires i < top ==>
      var e := r'.cohorts[|r.cohorts|];
      e.cohort == keys[i] && e.totals == cohorts[keys[i]].totals && ShowsTop(cohorts[keys[i]], top, e.models)
    ensures Shape(cohorts, top, keys, i + 1, r')
  {
    hide ShowsTop;
    forall k | 0 <= k < |r'.cohorts| ensures r'.cohorts[k].cohort == keys[k] && ShowsCohort(cohorts, top, r'.cohorts[k]) {
      if k < |r.cohorts| {
        assert r'.cohorts[k] == r'.cohorts[..|r.cohorts|][k] == r.cohorts[k];
      }
    }
  }

  lemma RankKeys(cohorts: map<Cohort, CohortState>)
    ensures CohortRanks(cohorts).Keys == cohorts.Keys && |CohortRanks(cohorts)| == |cohorts|
  {
    assert |CohortRanks(cohorts).Keys| == |CohortRanks(cohorts)| && |cohorts.Keys| == |cohorts|;
    assert CohortRanks(cohorts).Keys == cohorts.Keys;
  }

  /** Shows or merges one cohort. */
  method ReportCohort(ghost log: seq<Row>, ghost totals: Pair, c: Cohort, s: CohortState, folded: bool, top: nat,
      r: Audit,
                      ghost shown: set<(Cohort, Id)>, ghost merged: set<(Cohort, Id)>, ghost done: set<Cohort>)
    returns (ok: bool, r': Audit, ghost shown': set<(Cohort, Id)>, ghost merged': set<(Cohort, Id)>)
    requires totals == Sums(log, Everything) && InRange(totals, |log|) && |log| <= MAX_INT64
    requires CohortKept(log, c, s) && Reporting(log, r, shown, merged, done) && c !in done
    ensures ok && Reporting(log, r', shown', merged', done + {c}) && r'.modelRows == r.modelRows
    ensures folded ==>
      (r'.cohorts == r.cohorts && r'.remainderCohorts == r.remainderCohorts + 1 && r'.remainderCells == r.remainderCells + |s.models|)
    ensures !folded ==>
      (|r'.cohorts| == |r.cohorts| + 1 && r'.cohorts[..|r.cohorts|] == r.cohorts && r'.remainderCohorts == r.remainderCohorts)
    ensures !folded ==> r'.remainderCells == r.remainderCells + |s.models| - |r'.cohorts[|r.cohorts|].models|
    ensures !folded ==> var e := r'.cohorts[|r.cohorts|]; e.cohort == c && e.totals == s.totals && ShowsTop(s, top, e.models)
  {
    NotMerged(log, r, shown, merged, done, c);
    hide Sums, InRange, Pair.Plus, CohortKept, ShownTotal, Reporting, Showing, ShowsTop, CellsOf;
    if folded {
      CohortMerged(log, merged, c, s);
      var remainder;
      ok, remainder := MergePair(log, totals, InCells(merged + CellsOf(c, s.models.Keys)), r.remainder, s.totals);
      r' := r.(remainder := remainder, remainderCohorts := r.remainderCohorts + 1, remainderCells := r.remainderCells + |s.models|);
      MergedNext(log, r, shown, merged, done, c, s, r');
      shown', merged' := shown, merged + CellsOf(c, s.models.Keys);
    } else {
      var models, hidden, remainder;
      ghost var more, rest;
      ok, models, hidden, remainder, more, rest := ShowCohort(log, totals, c, s, top, r.remainder, merged);
      var entry := ShownCohort(c, s.totals, models);
      r' := r.(cohorts := r.cohorts + [entry], remainder := remainder, remainderCells := r.remainderCells + hidden);
      ShownNext(log, r, shown, merged, done, s, entry, more, rest, r');
      shown', merged' := shown + more, merged + rest;
    }
  }
}
