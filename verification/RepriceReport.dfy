/** The report: the scenario totals, priced from the buckets. */
module RepriceReport {
  import opened Common
  import opened RepriceSpec
  import opened RepriceSums
  import opened Calculators

  datatype Triple = Triple(mean: real, low: real, high: real)

  datatype Line = Line(workload: string, cost: Triple)

  // ----- from buckets to sums over records

  lemma {:induction false} NothingCovered(c: Config, log: seq<Record>, q: Quantity)
    requires !q.Baseline? && Count(c, log, MoveCovered(q.move)) == 0 && Accepted(c, log)
    ensures Sum(c, log, q) == 0.0
  {
    if log != [] {
      var r := log[|log| - 1];
      assert Admissible(c, r) && r.count > 0;
      hide Cost, Accepts;
      NothingCovered(c, log[..|log| - 1], q);
    }
  }

  /** One more bucket priced. */
  lemma NextBucket(c: Config, log: seq<Record>, i: nat, w: string, done: set<string>, q: Quantity, p: Price,
      input: real, output: real)
    requires Accepted(c, log) && w !in done && PricesBucket(c, i, w, q, p, input, output)
    ensures Sum(c, log, WithWorkloads(q, Only(done + {w})))
         == Sum(c, log, WithWorkloads(q, Only(done))) + Cost(Bucket(c, log, i, w), p, input, output)
  {
    hide Cost, Sum;
    BucketFits(c, log, i, w);
    BucketCost(c, log, i, w, q, p, input, output);
    AddWorkload(c, log, q, done, w);
  }

  ghost predicate BucketsAre(c: Config, log: seq<Record>, i: nat, buckets: map<string, Tokens>) {
    && (forall w :: w in buckets <==> BucketUsed(c, log, i, w))
    && (forall w :: w in buckets ==> buckets[w] == Bucket(c, log, i, w))
  }

  /** Prices everything a move took, before and after it. */
  method PriceMove(c: Config, ghost log: seq<Record>, i: nat, buckets: map<string, Tokens>)
    returns (before: real, next: real)
    requires c.Valid() && Accepted(c, log) && i < |c.moves| && BucketsAre(c, log, i, buckets)
    ensures before == Sum(c, log, AtSource(i, All)) && next == Sum(c, log, AtTarget(i, All))
  {
    hide Accepted, Cost, Sum, Bucket, BucketUsed;
    var m := c.moves[i];
    var source, target := c.PriceOf(m.from), c.PriceOf(m.to);
    before, next := 0.0, 0.0;
    NoWorkloads(c, log, AtSource(i, All));
    NoWorkloads(c, log, AtTarget(i, All));
    ghost var done: set<string> := {};
    var left := buckets.Keys;
    while left != {}
      invariant left <= buckets.Keys && done == buckets.Keys - left
      invariant before == Sum(c, log, AtSource(i, Only(done)))
      invariant next == Sum(c, log, AtTarget(i, Only(done)))
    {
      var w :| w in left;
      NextBucket(c, log, i, w, done, AtSource(i, Only({w})), source, 1.0, 1.0);
      NextBucket(c, log, i, w, done, AtTarget(i, Only({w})), target, m.input, 1.0);
      OneLess(buckets.Keys, left, w);
      before := before + Cost(buckets[w], source, 1.0, 1.0);
      next := next + Cost(buckets[w], target, m.input, 1.0);
      done := done + {w};
      left := left - {w};
    }
    assert done == buckets.Keys;
    AllWorkloads(c, log, AtSource(i, All), done);
    AllWorkloads(c, log, AtTarget(i, All), done);
  }

  /** Every bucket has a measured factor for this variant. */
  ghost predicate MoveSupports(c: Config, log: seq<Record>, i: nat, variant: string)
    requires i < |c.moves|
  {
    forall w :: BucketUsed(c, log, i, w) ==> c.Measured(i, Effective(w, variant))
  }

  ghost function VariantSums(c: Config, log: seq<Record>, i: nat, ws: Workloads, variant: string): Triple {
    Triple(Sum(c, log, AtVariant(i, ws, variant, Mean)), Sum(c, log, AtVariant(i, ws, variant, Low)),
           Sum(c, log, AtVariant(i, ws, variant, High)))
  }

  lemma NoVariants(c: Config, log: seq<Record>, i: nat, variant: string)
    ensures VariantSums(c, log, i, Only({}), variant) == Triple(0.0, 0.0, 0.0)
  {
    hide Sum;
    NoWorkloads(c, log, AtVariant(i, All, variant, Mean));
    NoWorkloads(c, log, AtVariant(i, All, variant, Low));
    NoWorkloads(c, log, AtVariant(i, All, variant, High));
  }

  lemma AllVariants(c: Config, log: seq<Record>, i: nat, variant: string, ws: set<string>)
    requires forall w :: BucketUsed(c, log, i, w) ==> w in ws
    ensures VariantSums(c, log, i, Only(ws), variant) == VariantSums(c, log, i, All, variant)
  {
    hide Sum;
    AllWorkloads(c, log, AtVariant(i, All, variant, Mean), ws);
    AllWorkloads(c, log, AtVariant(i, All, variant, Low), ws);
    AllWorkloads(c, log, AtVariant(i, All, variant, High), ws);
  }

  lemma NextVariant(c: Config, log: seq<Record>, i: nat, w: string, done: set<string>, variant: string)
    requires c.Valid() && Accepted(c, log) && i < |c.moves| && w !in done && c.Measured(i, Effective(w, variant))
    ensures var m, f := c.moves[i], FirstFactor(c.factors, c.moves[i], Effective(w, variant));
      var b, p, v := Bucket(c, log, i, w), c.PriceOf(m.to), VariantSums(c, log, i, Only(done), variant);
      VariantSums(c, log, i, Only(done + {w}), variant) ==
        Triple(v.mean + Cost(b, p, m.input, f.mean), v.low + Cost(b, p, m.input, f.low), v.high + Cost(b, p, m.input, f.high))
  {
    hide Sum, Accepted, Cost;
    var m, f := c.moves[i], FirstFactor(c.factors, c.moves[i], Effective(w, variant));
    var p := c.PriceOf(m.to);
    NextBucket(c, log, i, w, done, AtVariant(i, Only({w}), variant, Mean), p, m.input, f.mean);
    NextBucket(c, log, i, w, done, AtVariant(i, Only({w}), variant, Low), p, m.input, f.low);
    NextBucket(c, log, i, w, done, AtVariant(i, Only({w}), variant, High), p, m.input, f.high);
  }

  /** Prices everything a move took with a variant's output factors, if all are known. */
  method PriceVariant(c: Config, ghost log: seq<Record>, i: nat, buckets: map<string, Tokens>, variant: string)
    returns (r: Option<Triple>)
    requires c.Valid() && Accepted(c, log) && i < |c.moves| && BucketsAre(c, log, i, buckets)
    ensures r.Some? <==> MoveSupports(c, log, i, variant)
    ensures r.Some? ==> r.value == VariantSums(c, log, i, All, variant)
  {
    hide Accepted, Cost, Sum, Bucket, BucketUsed;
    var m := c.moves[i];
    var target := c.PriceOf(m.to);
    var v := Triple(0.0, 0.0, 0.0);
    NoVariants(c, log, i, variant);
    ghost var done: set<string> := {};
    var left := buckets.Keys;
    while left != {}
      invariant left <= buckets.Keys && done == buckets.Keys - left
      invariant forall w :: w in done ==> c.Measured(i, Effective(w, variant))
      invariant v == VariantSums(c, log, i, Only(done), variant)
    {
      var w :| w in left;
      var workload := Effective(w, variant);
      if !c.Measured(i, workload) {
        return None;
      }
      var f := FirstFactor(c.factors, m, workload);
      NextVariant(c, log, i, w, done, variant);
      OneLess(buckets.Keys, left, w);
      v := Triple(v.mean + Cost(buckets[w], target, m.input, f.mean),
                  v.low + Cost(buckets[w], target, m.input, f.low),
                  v.high + Cost(buckets[w], target, m.input, f.high));
      done := done + {w};
      left := left - {w};
    }
    assert done == buckets.Keys;
    AllVariants(c, log, i, variant, done);
    return Some(v);
  }

  // ----- one move's part of the report

  /** What is reported about one move. */
  datatype MoveReport = MoveReport(covered: nat, excluded: nat, before: Option<real>, level1: Option<real>,
                                   level2: seq<Line>, gap: string)

  function Scale(ratio: real, t: Triple): Triple {
    Triple(Share(ratio, t.mean), Share(ratio, t.low), Share(ratio, t.high))
  }

  /** The lines of the variants whose factors are all measured. */
  ghost function MoveLines(c: Config, log: seq<Record>, i: nat, variants: seq<string>): seq<Line>
    requires i < |c.moves|
  {
    if variants == [] then []
    else
      var last := variants[|variants| - 1];
      MoveLines(c, log, i, variants[..|variants| - 1])
      + if MoveSupports(c, log, i, last) then [Line(last, Scale(c.moves[i].ratio, VariantSums(c, log, i, All, last)))] else []
  }

  ghost predicate SupportsAll(c: Config, log: seq<Record>, i: nat, variants: seq<string>)
    requires i < |c.moves|
  {
    forall v :: 0 <= v < |variants| ==> MoveSupports(c, log, i, variants[v])
  }

  ghost function MoveReportOf(c: Config, log: seq<Record>, i: nat, variants: seq<string>): MoveReport
    requires i < |c.moves|
  {
    var covered, excluded := Count(c, log, MoveCovered(i)), Count(c, log, MoveExcluded(i));
    if covered == 0 then MoveReport(0, excluded, None, None, [], "no covered matching usage")
    else
      var ratio := c.moves[i].ratio;
      MoveReport(covered, excluded, Some(Share(ratio, Sum(c, log, AtSource(i, All)))), Some(Share(ratio, Sum(c, log, AtTarget(i, All)))),
                 MoveLines(c, log, i, variants), if SupportsAll(c, log, i, variants) then "" else "no measured verbosity factor")
  }

  /** The totals of all variants after one more move; a variant without factors is
      left behind. */
  method AddVariants(c: Config, ghost log: seq<Record>, i: nat, buckets: map<string, Tokens>, variants: seq<string>,
                     before: real, totals: seq<Triple>)
    returns (lines: seq<Line>, supported: bool, totals': seq<Triple>)
    requires c.Valid() && Accepted(c, log) && i < |c.moves| && BucketsAre(c, log, i, buckets) && |totals| == |variants|
    ensures lines == MoveLines(c, log, i, variants) && (supported <==> SupportsAll(c, log, i, variants))
    ensures |totals'| == |variants|
    ensures supported ==> forall v :: 0 <= v < |variants| ==>
              totals'[v] == Raise(totals[v], Scale(c.moves[i].ratio, VariantSums(c, log, i, All, variants[v])), before)
  {
    hide Accepted, BucketsAre, Share, VariantSums, MoveSupports;
    lines, supported, totals' := [], true, totals;
    for v := 0 to |variants|
      invariant lines == MoveLines(c, log, i, variants[..v]) && |totals'| == |variants|
      invariant supported <==> forall u :: 0 <= u < v ==> MoveSupports(c, log, i, variants[u])
      invariant supported ==> forall u :: 0 <= u < v ==>
                  totals'[u] == Raise(totals[u], Scale(c.moves[i].ratio, VariantSums(c, log, i, All, variants[u])), before)
      invariant forall u :: v <= u < |variants| ==> totals'[u] == totals[u]
    {
      assert variants[..v+1][..v] == variants[..v];
      var t := PriceVariant(c, log, i, buckets, variants[v]);
      if t.None? {
        supported := false;
      } else {
        var moved := Scale(c.moves[i].ratio, t.value);
        lines := lines + [Line(variants[v], moved)];
        totals' := totals'[v := Raise(totals'[v], moved, before)];
      }
    }
    assert variants[..|variants|] == variants;
  }

  /** A total with what moved counted at its new cost instead of its old one. */
  function Raise(total: Triple, moved: Triple, before: real): Triple {
    Triple(total.mean + (moved.mean - before), total.low + (moved.low - before), total.high + (moved.high - before))
  }

  // ----- the scenario totals

  ghost function VariantTotals(c: Config, log: seq<Record>, k: nat, variant: string): Triple
    requires k <= |c.moves|
  {
    var base := Sum(c, log, Baseline);
    Triple(base + Shifts(c, log, k, Level2(variant, Mean)), base + Shifts(c, log, k, Level2(variant, Low)),
           base + Shifts(c, log, k, Level2(variant, High)))
  }

  /** A move adds its share of the difference to every total. */
  lemma RaiseIsShift(c: Config, log: seq<Record>, i: nat, variant: string)
    requires i < |c.moves|
    ensures Raise(VariantTotals(c, log, i, variant), Scale(c.moves[i].ratio, VariantSums(c, log, i, All, variant)),
                  Share(c.moves[i].ratio, Sum(c, log, AtSource(i, All)))) == VariantTotals(c, log, i + 1, variant)
  {
    hide Sum, Share;
    var ratio, source := c.moves[i].ratio, Sum(c, log, AtSource(i, All));
    ShareMinus(ratio, Sum(c, log, AtVariant(i, All, variant, Mean)), source);
    ShareMinus(ratio, Sum(c, log, AtVariant(i, All, variant, Low)), source);
    ShareMinus(ratio, Sum(c, log, AtVariant(i, All, variant, High)), source);
  }

  lemma Level1Shift(c: Config, log: seq<Record>, i: nat)
    requires i < |c.moves|
    ensures Shifts(c, log, i + 1, Level1) == Shifts(c, log, i, Level1)
      + (Share(c.moves[i].ratio, Sum(c, log, AtTarget(i, All))) - Share(c.moves[i].ratio, Sum(c, log, AtSource(i, All))))
  {
    hide Sum, Share;
    ShareMinus(c.moves[i].ratio, Sum(c, log, AtTarget(i, All)), Sum(c, log, AtSource(i, All)));
  }

  /** A move that took nothing changes nothing. */
  lemma IdleShift(c: Config, log: seq<Record>, i: nat, s: Scenario)
    requires i < |c.moves| && Accepted(c, log) && Count(c, log, MoveCovered(i)) == 0
    ensures Shifts(c, log, i + 1, s) == Shifts(c, log, i, s)
  {
    hide Sum, Share, Accepted;
    NothingCovered(c, log, Target(i, s));
    NothingCovered(c, log, AtSource(i, All));
    ShareOfSum(c.moves[i].ratio, 0.0, 0.0);
  }

  /** Does move `i` let the report show every variant? A move that took nothing
      blocks the totals, unless such moves are left out. */
  ghost predicate MoveComplete(c: Config, log: seq<Record>, i: nat, variants: seq<string>, skipIdle: bool)
    requires i < |c.moves|
  {
    if Count(c, log, MoveCovered(i)) == 0 then skipIdle else SupportsAll(c, log, i, variants)
  }

  ghost predicate ScenarioComplete(c: Config, log: seq<Record>, variants: seq<string>, skipIdle: bool) {
    forall i: nat :: i < |c.moves| ==> MoveComplete(c, log, i, variants, skipIdle)
  }

  ghost function MoveReports(c: Config, log: seq<Record>, k: nat, variants: seq<string>,
      skipIdle: bool): seq<MoveReport>
    requires k <= |c.moves|
  {
    if k == 0 then []
    else MoveReports(c, log, k - 1, variants, skipIdle)
         + if skipIdle && Count(c, log, MoveCovered(k - 1)) == 0 then [] else [MoveReportOf(c, log, k - 1, variants)]
  }

  /** The running totals after the first `i` moves. */
  ghost predicate PricedTo(c: Config, log: seq<Record>, i: nat, variants: seq<string>, skipIdle: bool,
                           level1: real, complete: bool, totals: seq<Triple>, reports: seq<MoveReport>)
    requires i <= |c.moves|
  {
    && level1 == Sum(c, log, Baseline) + Shifts(c, log, i, Level1)
    && |totals| == |variants|
    && (complete <==> CompleteTo(c, log, i, variants, skipIdle))
    && (complete ==> TotalsAre(c, log, i, variants, totals))
    && reports == MoveReports(c, log, i, variants, skipIdle)
  }

  ghost predicate CompleteTo(c: Config, log: seq<Record>, i: nat, variants: seq<string>, skipIdle: bool)
    requires i <= |c.moves|
  {
    i == 0 || (CompleteTo(c, log, i - 1, variants, skipIdle) && MoveComplete(c, log, i - 1, variants, skipIdle))
  }

  lemma {:induction false} CompleteToAll(c: Config, log: seq<Record>, i: nat, variants: seq<string>, skipIdle: bool)
    requires i <= |c.moves|
    ensures CompleteTo(c, log, i, variants, skipIdle) <==> forall j: nat :: j < i ==> MoveComplete(c, log, j, variants, skipIdle)
  {
    hide MoveComplete;
    if i > 0 {
      CompleteToAll(c, log, i - 1, variants, skipIdle);
    }
  }

  ghost predicate TotalsAre(c: Config, log: seq<Record>, i: nat, variants: seq<string>, totals: seq<Triple>)
    requires i <= |c.moves| && |totals| == |variants|
  {
    forall v :: 0 <= v < |variants| ==> totals[v] == VariantTotals(c, log, i, variants[v])
  }

  lemma StartTotals(c: Config, log: seq<Record>, variants: seq<string>, totals: seq<Triple>)
    requires |totals| == |variants|
    requires forall v :: 0 <= v < |variants| ==> totals[v] == Triple(Sum(c, log, Baseline), Sum(c, log, Baseline), Sum(c, log, Baseline))
    ensures TotalsAre(c, log, 0, variants, totals)
  {
    hide Sum;
  }

  lemma PricedStart(c: Config, log: seq<Record>, variants: seq<string>, skipIdle: bool, totals: seq<Triple>)
    requires |totals| == |variants|
    requires forall v :: 0 <= v < |variants| ==> totals[v] == Triple(Sum(c, log, Baseline), Sum(c, log, Baseline), Sum(c, log, Baseline))
    ensures PricedTo(c, log, 0, variants, skipIdle, Sum(c, log, Baseline), true, totals, [])
  {
    hide Sum;
    StartTotals(c, log, variants, totals);
  }

  lemma PricedIdle(c: Config, log: seq<Record>, i: nat, variants: seq<string>, skipIdle: bool,
                   level1: real, complete: bool, totals: seq<Triple>, reports: seq<MoveReport>)
    requires i < |c.moves| && Accepted(c, log) && Count(c, log, MoveCovered(i)) == 0
    requires PricedTo(c, log, i, variants, skipIdle, level1, complete, totals, reports)
    ensures PricedTo(c, log, i + 1, variants, skipIdle, level1, complete && skipIdle, totals,
                     if skipIdle then reports else reports + [MoveReportOf(c, log, i, variants)])
  {
    hide Accepted, Share, Sum, Count, VariantTotals, SupportsAll, MoveLines, TotalsAre, Shifts;
    IdleMove(c, log, i, variants, totals);
    AppendNil(reports);
  }

  lemma PricedMove(c: Config, log: seq<Record>, i: nat, variants: seq<string>, skipIdle: bool,
                   level1: real, complete: bool, totals: seq<Triple>, reports: seq<MoveReport>,
                   level1': real, supported: bool, totals': seq<Triple>)
    requires i < |c.moves| && Count(c, log, MoveCovered(i)) != 0
    requires PricedTo(c, log, i, variants, skipIdle, level1, complete, totals, reports)
    requires level1' - level1 == Shifts(c, log, i + 1, Level1) - Shifts(c, log, i, Level1)
    requires (supported <==> SupportsAll(c, log, i, variants)) && |totals'| == |variants|
    requires supported && TotalsAre(c, log, i, variants, totals) ==> TotalsAre(c, log, i + 1, variants, totals')
    ensures PricedTo(c, log, i + 1, variants, skipIdle, level1', complete && supported, totals',
                     reports + [MoveReportOf(c, log, i, variants)])
  {
    hide Accepted, Share, Sum, Count, VariantTotals, SupportsAll, MoveLines, TotalsAre, Shifts;
  }

  /** Prices one move that took something. */
  method PriceNext(k: Calculator, i: nat, variants: seq<string>, level1: real, totals: seq<Triple>)
    returns (level1': real, supported: bool, totals': seq<Triple>, report: MoveReport)
    requires k.c.Valid() && Accepted(k.c, k.log) && k.Counted() && i < |k.c.moves| && |totals| == |variants|
    requires Count(k.c, k.log, MoveCovered(i)) != 0
    ensures level1' - level1 == Shifts(k.c, k.log, i + 1, Level1) - Shifts(k.c, k.log, i, Level1)
    ensures supported <==> SupportsAll(k.c, k.log, i, variants)
    ensures |totals'| == |variants|
    ensures supported && TotalsAre(k.c, k.log, i, variants, totals) ==> TotalsAre(k.c, k.log, i + 1, variants, totals')
    ensures report == MoveReportOf(k.c, k.log, i, variants)
  {
    CountedMoves(k);
    hide Accepted, Describes, Share, Sum, Count, VariantSums, VariantTotals, BucketUsed, SupportsAll, BucketsAre,
        MoveLines, Shifts;
    var c, m := k.c, k.moves[i];
    var before, next := PriceMove(c, k.log, i, m.buckets);
    var ratio := c.moves[i].ratio;
    before, next := Share(ratio, before), Share(ratio, next);
    Level1Shift(c, k.log, i);
    level1' := level1 + (next - before);
    var lines;
    lines, supported, totals' := AddVariants(c, k.log, i, m.buckets, variants, before, totals);
    RaiseAll(c, k.log, i, variants);
    report := MoveReport(m.covered, m.excluded, Some(before), Some(next), lines,
                         if supported then "" else "no measured verbosity factor");
  }

  /** The scenario over all moves, priced from the buckets. */
  method PriceScenario(k: Calculator, variants: seq<string>, skipIdle: bool)
    returns (level1: real, complete: bool, totals: seq<Triple>, reports: seq<MoveReport>)
    requires k.c.Valid() && Accepted(k.c, k.log) && k.Counted()
    ensures level1 == RepricedTotal(k.c, k.log, Level1)
    ensures complete <==> ScenarioComplete(k.c, k.log, variants, skipIdle)
    ensures |totals| == |variants|
    ensures complete ==> TotalsAre(k.c, k.log, |k.c.moves|, variants, totals)
    ensures reports == MoveReports(k.c, k.log, |k.c.moves|, variants, skipIdle)
  {
    CountedMoves(k);
    hide Accepted, Describes, Share, Sum, Count, VariantTotals, SupportsAll, BucketsAre, MoveLines, TotalsAre, Shifts,
        PricedTo, ScenarioComplete, RepricedTotal, MoveReports;
    var base := k.baseline;
    level1, complete, reports := base, true, [];
    totals := seq(|variants|, _ => Triple(base, base, base));
    PricedStart(k.c, k.log, variants, skipIdle, totals);
    for i := 0 to |k.c.moves|
      invariant |totals| == |variants|
      invariant PricedTo(k.c, k.log, i, variants, skipIdle, level1, complete, totals, reports)
    {
      var m := k.moves[i];
      if m.covered == 0 {
        PricedIdle(k.c, k.log, i, variants, skipIdle, level1, complete, totals, reports);
        if !skipIdle {
          reports := reports + [MoveReport(0, m.excluded, None, None, [], "no covered matching usage")];
          complete := false;
        }
      } else {
        var next, supported, totals', report := PriceNext(k, i, variants, level1, totals);
        PricedMove(k.c, k.log, i, variants, skipIdle, level1, complete, totals, reports, next, supported, totals');
        level1, totals := next, totals';
        reports := reports + [report];
        complete := complete && supported;
      }
    }
    PricedAll(k.c, k.log, variants, skipIdle, level1, complete, totals, reports);
  }

  lemma PricedAll(c: Config, log: seq<Record>, variants: seq<string>, skipIdle: bool,
                  level1: real, complete: bool, totals: seq<Triple>, reports: seq<MoveReport>)
    requires PricedTo(c, log, |c.moves|, variants, skipIdle, level1, complete, totals, reports)
    ensures level1 == RepricedTotal(c, log, Level1) && |totals| == |variants|
    ensures complete <==> ScenarioComplete(c, log, variants, skipIdle)
    ensures complete ==> TotalsAre(c, log, |c.moves|, variants, totals)
    ensures reports == MoveReports(c, log, |c.moves|, variants, skipIdle)
  {
    hide Sum, Count, TotalsAre, MoveComplete;
    CompleteToAll(c, log, |c.moves|, variants, skipIdle);
    MovesRepriceRecords(c, log, Level1);
  }

  lemma CountedMoves(k: Calculator)
    requires k.Counted()
    ensures k.baseline == Sum(k.c, k.log, Baseline) && |k.moves| == |k.c.moves|
    ensures forall i :: 0 <= i < |k.moves| ==>
              && k.moves[i].covered == Count(k.c, k.log, MoveCovered(i)) && k.moves[i].excluded == Count(k.c, k.log, MoveExcluded(i))
              && BucketsAre(k.c, k.log, i, k.moves[i].buckets)
  {
    forall i | 0 <= i < |k.moves| ensures BucketsAre(k.c, k.log, i, k.moves[i].buckets) {
      assert MoveDescribes(k.c, k.log, i, k.moves[i]);
      assert forall w :: w in k.moves[i].buckets ==> BucketOf(k.moves[i], w) == k.moves[i].buckets[w];
    }
  }

  lemma IdleMove(c: Config, log: seq<Record>, i: nat, variants: seq<string>, totals: seq<Triple>)
    requires i < |c.moves| && Accepted(c, log) && Count(c, log, MoveCovered(i)) == 0 && |totals| == |variants|
    ensures Shifts(c, log, i + 1, Level1) == Shifts(c, log, i, Level1)
    ensures TotalsAre(c, log, i, variants, totals) ==> TotalsAre(c, log, i + 1, variants, totals)
  {
    hide Shifts, Sum, Count, Accepted;
    IdleShift(c, log, i, Level1);
    forall v | 0 <= v < |variants| ensures VariantTotals(c, log, i + 1, variants[v]) == VariantTotals(c, log, i, variants[v]) {
      IdleShift(c, log, i, Level2(variants[v], Mean));
      IdleShift(c, log, i, Level2(variants[v], Low));
      IdleShift(c, log, i, Level2(variants[v], High));
    }
  }

  lemma RaiseAll(c: Config, log: seq<Record>, i: nat, variants: seq<string>)
    requires i < |c.moves|
    ensures forall v :: 0 <= v < |variants| ==>
              Raise(VariantTotals(c, log, i, variants[v]), Scale(c.moves[i].ratio, VariantSums(c, log, i, All, variants[v])),
                    Share(c.moves[i].ratio, Sum(c, log, AtSource(i, All)))) == VariantTotals(c, log, i + 1, variants[v])
  {
    hide VariantTotals, VariantSums, Share, Sum;
    forall v | 0 <= v < |variants|
      ensures Raise(VariantTotals(c, log, i, variants[v]), Scale(c.moves[i].ratio, VariantSums(c, log, i, All, variants[v])),
                    Share(c.moves[i].ratio, Sum(c, log, AtSource(i, All)))) == VariantTotals(c, log, i + 1, variants[v])
    {
      RaiseIsShift(c, log, i, variants[v]);
    }
  }

  // ----- the report

  datatype Envelope = Envelope(low: real, high: real)

  /** Costs are None when nothing is covered. */
  datatype Report = Report(covered: nat, excluded: map<string, nat>, unmapped: nat, before: Option<real>, level1: Option<real>,
                           level2: seq<Line>, envelope: Option<Envelope>, moves: seq<MoveReport>, failures: Option<Failures>)

  datatype Failures = Failures(records: nat, tokens: Tokens, before: Option<real>, level1: Option<real>,
                               level2: seq<Line>, envelope: Option<Envelope>)

  /** One record at a time, under every level of one variant. */
  ghost function RepricedTriple(c: Config, log: seq<Record>, variant: string): Triple {
    Triple(RepricedTotal(c, log, Level2(variant, Mean)), RepricedTotal(c, log, Level2(variant, Low)),
           RepricedTotal(c, log, Level2(variant, High)))
  }

  /** The lines show each variant's total, record by record. */
  ghost predicate ShowsVariants(c: Config, log: seq<Record>, variants: seq<string>, lines: seq<Line>) {
    |lines| == |variants| && forall v :: 0 <= v < |lines| ==> lines[v] == Line(variants[v], RepricedTriple(c, log, variants[v]))
  }

  /** The envelope reaches exactly from the lowest to the highest endpoint. */
  ghost predicate Encloses(e: Envelope, lines: seq<Line>) {
    && (forall v :: 0 <= v < |lines| ==> e.low <= lines[v].cost.low && lines[v].cost.high <= e.high)
    && (exists v :: 0 <= v < |lines| && e.low == lines[v].cost.low)
    && (exists v :: 0 <= v < |lines| && e.high == lines[v].cost.high)
  }

  method FindEnvelope(lines: seq<Line>) returns (e: Envelope)
    requires lines != []
    ensures Encloses(e, lines)
  {
    e := Envelope(lines[0].cost.low, lines[0].cost.high);
    for v := 1 to |lines|
      invariant forall u :: 0 <= u < v ==> e.low <= lines[u].cost.low && lines[u].cost.high <= e.high
      invariant exists u :: 0 <= u < v && e.low == lines[u].cost.low
      invariant exists u :: 0 <= u < v && e.high == lines[u].cost.high
    {
      e := Envelope(if lines[v].cost.low < e.low then lines[v].cost.low else e.low,
                    if lines[v].cost.high > e.high then lines[v].cost.high else e.high);
    }
  }

  const WORKLOADS := ["qa", "extraction", "coding"]

  /** The variants shown: traffic without a workload could be any of them. */
  ghost function VariantsFor(c: Config, log: seq<Record>): seq<string> {
    if Count(c, log, UnmappedRecords) == 0 then ["mapped"] else WORKLOADS
  }

  /** The report of one calculator for given variants; `failures` is left out here. */
  method Summarize(k: Calculator, variants: seq<string>, skipIdle: bool) returns (r: Report)
    requires k.c.Valid() && Accepted(k.c, k.log) && k.Counted()
    ensures r.covered == k.covered && r.excluded == k.excluded && r.unmapped == k.unmapped && r.failures == None
    ensures k.covered == 0 ==> r.before == None && r.level1 == None && r.level2 == []
    ensures k.covered > 0 ==>
      (r.before == Some(Sum(k.c, k.log, Baseline)) && r.level1 == Some(RepricedTotal(k.c, k.log, Level1)))
    ensures k.covered == 0 ==> |r.moves| == |k.c.moves| && forall i :: 0 <= i < |r.moves| ==>
              r.moves[i] == MoveReport(0, Count(k.c, k.log, MoveExcluded(i)), None, None, [], "no covered matching usage")
    ensures k.covered > 0 ==> r.moves == MoveReports(k.c, k.log, |k.c.moves|, variants, skipIdle)
    ensures r.level2 != [] <==> k.covered > 0 && variants != [] && ScenarioComplete(k.c, k.log, variants, skipIdle)
    ensures r.level2 != [] ==> ShowsVariants(k.c, k.log, variants, r.level2)
    ensures if r.level2 == [] then r.envelope == None else r.envelope.Some? && Encloses(r.envelope.value, r.level2)
  {
    CountedMoves(k);
    hide Accepted, Describes, Share, Sum, Count, VariantTotals, Encloses, MoveReports;
    if k.covered == 0 {
      var idle := seq(|k.moves|, i requires 0 <= i < |k.moves| reads k =>
                        MoveReport(0, k.moves[i].excluded, None, None, [], "no covered matching usage"));
      return Report(0, k.excluded, k.unmapped, None, None, [], None, idle, None);
    }
    var level1, complete, totals, reports := PriceScenario(k, variants, skipIdle);
    var lines, envelope := [], None;
    if complete && variants != [] {
      lines := seq(|variants|, v requires 0 <= v < |variants| && |totals| == |variants| => Line(variants[v], totals[v]));
      VariantsReprice(k.c, k.log, variants);
      var e := FindEnvelope(lines);
      envelope := Some(e);
    }
    return Report(k.covered, k.excluded, k.unmapped, Some(k.baseline), Some(level1), lines, envelope, reports, None);
  }

  lemma VariantsReprice(c: Config, log: seq<Record>, variants: seq<string>)
    ensures forall v :: 0 <= v < |variants| ==> VariantTotals(c, log, |c.moves|, variants[v]) == RepricedTriple(c, log, variants[v])
  {
    hide Sum, Shifts, RepricedTotal;
    forall v | 0 <= v < |variants| ensures VariantTotals(c, log, |c.moves|, variants[v]) == RepricedTriple(c, log, variants[v]) {
      MovesRepriceRecords(c, log, Level2(variants[v], Mean));
      MovesRepriceRecords(c, log, Level2(variants[v], Low));
      MovesRepriceRecords(c, log, Level2(variants[v], High));
    }
  }
}
