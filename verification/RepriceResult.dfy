/** The whole report: what the parent shows, what its failure shadow shows, and how
    the two fit together. */
module RepriceResult {
  import opened Common
  import opened RepriceSpec
  import opened RepriceSums
  import opened Calculators
  import opened RepriceReport

  // ----- the failed part of the report

  /** A bucket the failed records use is used by the whole. */
  lemma {:induction false} FailedPartUsed(c: Config, log: seq<Record>, i: nat, w: string)
    requires BucketUsed(c, FailedPart(c, log), i, w)
    ensures BucketUsed(c, log, i, w)
  {
    if log != [] {
      var before, r := log[..|log| - 1], log[|log| - 1];
      FlagIgnored(c, r);
      hide Config.Covers, Config.Workload, Config.Enters;
      assert before + [r] == log;
      UsedNext(c, before, r, i, w);
      if c.Covers(r) && r.failed {
        UsedNext(c, FailedPart(c, before), Shadowed(r), i, w);
      }
      if BucketUsed(c, FailedPart(c, before), i, w) {
        FailedPartUsed(c, before, i, w);
      }
    }
  }

  /** Whenever the whole supports its variants, so does the failed part: a move with
      no failures is left out instead of blocking the totals. */
  lemma FailedPartComplete(c: Config, log: seq<Record>, variants: seq<string>)
    requires ScenarioComplete(c, log, variants, false)
    ensures ScenarioComplete(c, FailedPart(c, log), variants, true)
  {
    var part := FailedPart(c, log);
    hide Count, BucketUsed, FailedPart;
    forall i: nat | i < |c.moves| ensures MoveComplete(c, part, i, variants, true) {
      assert MoveComplete(c, log, i, variants, false);
      FailedPartCounts(c, log, MoveCovered(i));
      forall v, w | 0 <= v < |variants| && BucketUsed(c, part, i, w) ensures c.Measured(i, Effective(w, variants[v])) {
        FailedPartUsed(c, log, i, w);
        assert MoveSupports(c, log, i, variants[v]);
      }
    }
  }

  lemma {:induction false} FailedPartCovered(c: Config, log: seq<Record>)
    requires Accepted(c, log) && FailedPart(c, log) != []
    ensures Count(c, FailedPart(c, log), CoveredRecords) > 0
  {
    if log != [] {
      var before, r := log[..|log| - 1], log[|log| - 1];
      FlagIgnored(c, r);
      hide Config.Covers;
      if c.Covers(r) && r.failed {
        Append(FailedPart(c, before), Shadowed(r));
      } else {
        FailedPartCovered(c, before);
      }
    }
  }

  function WorkloadsOf(lines: seq<Line>): (ws: seq<string>)
    ensures |ws| == |lines| && forall v :: 0 <= v < |ws| ==> ws[v] == lines[v].workload
  {
    if lines == [] then [] else WorkloadsOf(lines[..|lines| - 1]) + [lines[|lines| - 1].workload]
  }

  /** What the failed records contributed. */
  ghost predicate ReportsFailures(c: Config, log: seq<Record>, variants: seq<string>, f: Failures) {
    var part := FailedPart(c, log);
    && f.records == Count(c, part, CoveredRecords) && f.tokens == FailureTokens(c, log)
    && f.before == Some(Sum(c, part, Baseline)) && f.level1 == Some(RepricedTotal(c, part, Level1))
    && ShowsVariants(c, part, variants, f.level2)
    && (if variants == [] then f.envelope == None else f.envelope.Some? && Encloses(f.envelope.value, f.level2))
  }

  method PricedFailures(k: Calculator, level2: seq<Line>) returns (f: Failures)
    requires k.Valid() && k.failures != null
    requires level2 != [] ==> ScenarioComplete(k.c, k.log, WorkloadsOf(level2), false)
    ensures ReportsFailures(k.c, k.log, WorkloadsOf(level2), f)
  {
    var variants := WorkloadsOf(level2);
    ghost var part := FailedPart(k.c, k.log);
    FailedPartAccepted(k.c, k.log);
    FailedPartCovered(k.c, k.log);
    assert k.failures.covered == Count(k.c, part, CoveredRecords);
    if variants != [] {
      FailedPartComplete(k.c, k.log, variants);
    }
    hide Accepted, Describes, FailedPart, Count, Sum, RepricedTotal, ScenarioComplete, Encloses, FailureTokens,
        WorkloadsOf;
    var r := Summarize(k.failures, variants, true);
    return Failures(k.failures.covered, k.failureTokens, r.before, r.level1, r.level2, r.envelope);
  }

  /** The totals and every variant's total, record by record; costs only where
      something is covered, variants only where every move supports them. */
  ghost predicate ReportsTotals(c: Config, log: seq<Record>, r: Report) {
    var variants := VariantsFor(c, log);
    && r.covered == Count(c, log, CoveredRecords) && r.unmapped == Count(c, log, UnmappedRecords)
    && r.before == (if r.covered == 0 then None else Some(Sum(c, log, Baseline)))
    && r.level1 == (if r.covered == 0 then None else Some(RepricedTotal(c, log, Level1)))
    && (r.level2 != [] <==> r.covered > 0 && ScenarioComplete(c, log, variants, false))
    && (r.level2 != [] ==> ShowsVariants(c, log, variants, r.level2))
    && (if r.level2 == [] then r.envelope == None else r.envelope.Some? && Encloses(r.envelope.value, r.level2))
  }

  lemma {:induction false} CoveredByMove(c: Config, log: seq<Record>, i: nat)
    ensures Count(c, log, MoveCovered(i)) <= Count(c, log, CoveredRecords)
  {
    if log != [] {
      CoveredByMove(c, log[..|log| - 1], i);
    }
  }

  /** Where nothing is covered, every move is reported as idle. */
  lemma {:induction false} IdleReports(c: Config, log: seq<Record>, k: nat, variants: seq<string>)
    requires k <= |c.moves| && Count(c, log, CoveredRecords) == 0
    ensures |MoveReports(c, log, k, variants, false)| == k
    ensures forall i :: 0 <= i < k ==>
              MoveReports(c, log, k, variants, false)[i]
              == MoveReport(0, Count(c, log, MoveExcluded(i)), None, None, [], "no covered matching usage")
  {
    hide Count;
    if k > 0 {
      IdleReports(c, log, k - 1, variants);
      CoveredByMove(c, log, k - 1);
    }
  }

  /** Every bucketed figure is the figure of repricing record by record. The failed
      part is reported exactly when something failed, and for the same workloads. */
  method Result(k: Calculator) returns (r: Report)
    requires k.Valid()
    ensures ReportsTotals(k.c, k.log, r)
    ensures forall reason :: ExcludedCount(r.excluded, reason) == Count(k.c, k.log, ExcludedFor(reason))
    ensures r.moves == MoveReports(k.c, k.log, |k.c.moves|, VariantsFor(k.c, k.log), false)
    ensures r.failures.Some? <==> FailedPart(k.c, k.log) != []
    ensures r.failures.Some? ==> ReportsFailures(k.c, k.log, WorkloadsOf(r.level2), r.failures.value)
  {
    assert k.covered == Count(k.c, k.log, CoveredRecords) && k.unmapped == Count(k.c, k.log, UnmappedRecords);
    assert forall reason :: ExcludedCount(k.excluded, reason) == Count(k.c, k.log, ExcludedFor(reason));
    hide Accepted, Describes, FailedPart, Count, Sum, RepricedTotal, ScenarioComplete, Encloses, MoveReports,
        ReportsFailures, ExcludedCount;
    var variants := if k.unmapped == 0 then ["mapped"] else WORKLOADS;
    r := Summarize(k, variants, false);
    if k.covered == 0 {
      IdleReports(k.c, k.log, |k.c.moves|, variants);
      assert r.moves == MoveReports(k.c, k.log, |k.c.moves|, variants, false);
    }
    if k.failures != null {
      if r.level2 != [] {
        assert WorkloadsOf(r.level2) == variants;
      }
      var f := PricedFailures(k, r.level2);
      r := r.(failures := Some(f));
    }
  }

  // ----- conservation

  /** Covered and excluded counts add up to everything that was added. */
  lemma {:induction false} CoveredPlusExcluded(c: Config, log: seq<Record>, excluded: map<string, nat>)
    requires forall reason :: ExcludedCount(excluded, reason) == Count(c, log, ExcludedFor(reason))
    ensures Count(c, log, CoveredRecords) + Total(excluded) == Count(c, log, Everything)
  {
    if log == [] {
      forall reason | reason in excluded ensures excluded[reason] == 0 {
        assert ExcludedCount(excluded, reason) == Count(c, log, ExcludedFor(reason));
      }
      AllZero(excluded);
    } else {
      var before, r := log[..|log| - 1], log[|log| - 1];
      hide Config.Covers, Config.Reason;
      if c.Covers(r) {
        assert forall reason :: ExcludedCount(excluded, reason) == Count(c, before, ExcludedFor(reason));
        CoveredPlusExcluded(c, before, excluded);
      } else {
        var reason := c.Reason(r);
        var less := excluded[reason := Count(c, before, ExcludedFor(reason))];
        assert ExcludedCount(excluded, reason) == Count(c, before, ExcludedFor(reason)) + r.count;
        assert forall other :: other != reason ==> ExcludedCount(less, other) == ExcludedCount(excluded, other);
        CoveredPlusExcluded(c, before, less);
        TotalInsert(excluded, reason, less[reason]);
      }
    }
  }

  lemma {:induction false} AllZero<K>(m: map<K, int>)
    requires forall k :: k in m ==> m[k] == 0
    ensures Total(m) == 0
    decreases |m|
  {
    if m != map[] {
      var k :| k in m;
      TotalPick(m, k);
      assert |m - {k}| < |m| by { assert m.Keys == (m - {k}).Keys + {k}; }
      AllZero(m - {k});
    }
  }

  /** The records that did not fail. */
  ghost function SucceededPart(c: Config, log: seq<Record>): seq<Record> {
    if log == [] then []
    else
      var before, r := SucceededPart(c, log[..|log| - 1]), log[|log| - 1];
      if c.Covers(r) && r.failed then before else before + [r]
  }

  lemma FlagIgnoredAmount(c: Config, r: Record, q: Quantity)
    ensures c.Amount(Shadowed(r), q) == c.Amount(r, q)
  {
    FlagIgnored(c, r);
    assert forall i: nat :: i < |c.moves| ==> c.Selects(Shadowed(r), i) == c.Selects(r, i);
    hide Cost, Config.Covers, Config.Workload, Config.Selects, Config.Enters;
  }

  lemma {:induction false} FlagIgnoredMoved(c: Config, r: Record, k: nat, s: Scenario)
    requires k <= |c.moves|
    ensures Moved(c, Shadowed(r), k, s) == Moved(c, r, k, s)
  {
    hide Share, Config.Amount;
    if k > 0 {
      FlagIgnoredMoved(c, r, k - 1, s);
      FlagIgnoredAmount(c, r, Target(k - 1, s));
    }
  }

  lemma FlagIgnoredRepriced(c: Config, r: Record, s: Scenario)
    ensures Repriced(c, Shadowed(r), s) == Repriced(c, r, s)
  {
    FlagIgnored(c, r);
    FlagIgnoredRatio(c, r, |c.moves|);
    FlagIgnoredAmount(c, r, Baseline);
    FlagIgnoredMoved(c, r, |c.moves|, s);
    hide Share, Config.Amount, Config.Covers, Config.RatioSum, Moved;
  }

  /** The failed and the other records share every total exactly. */
  lemma {:induction false} FailuresPlusSuccesses(c: Config, log: seq<Record>, s: Scenario)
    ensures RepricedTotal(c, log, s) == RepricedTotal(c, FailedPart(c, log), s) + RepricedTotal(c, SucceededPart(c, log), s)
    ensures Sum(c, log, Baseline) == Sum(c, FailedPart(c, log), Baseline) + Sum(c, SucceededPart(c, log), Baseline)
  {
    if log != [] {
      var before, r := log[..|log| - 1], log[|log| - 1];
      FailuresPlusSuccesses(c, before, s);
      FlagIgnoredRepriced(c, r, s);
      FlagIgnoredAmount(c, r, Baseline);
      hide Config.Covers, Config.Amount, Repriced;
      Append(FailedPart(c, before), Shadowed(r));
      Append(SucceededPart(c, before), r);
    }
  }

  /** The reported failure tokens are those of the shadow's records. */
  lemma {:induction false} FailureTokensOfPart(c: Config, log: seq<Record>)
    ensures FailureTokens(c, log) == CoveredTokens(c, FailedPart(c, log))
  {
    if log != [] {
      var before, r := log[..|log| - 1], log[|log| - 1];
      FailureTokensOfPart(c, before);
      FlagIgnored(c, r);
      Append(FailedPart(c, before), Shadowed(r));
    }
  }

  ghost function CoveredTokens(c: Config, log: seq<Record>): Tokens {
    if log == [] then NO_TOKENS
    else
      var before, r := CoveredTokens(c, log[..|log| - 1]), log[|log| - 1];
      if c.Covers(r) then before.Plus(TokensOf(r)) else before
  }

  // ----- bounds

  lemma CostBounds(t: Tokens, p: Price, input: real, low: real, high: real)
    requires p.input >= 0.0 && p.output >= 0.0 && p.read >= 0.0 && p.write >= 0.0 && input >= 0.0 && 0.0 <= low <= high
    ensures 0.0 <= Cost(t, p, input, low) <= Cost(t, p, input, high)
  {
    var prompt := Uncached(t) as real * p.input + t.read as real * p.read + t.write as real * p.write;
    var answer := t.output as real * p.output;
    Nonnegative(Uncached(t) as real, p.input);
    Nonnegative(t.read as real, p.read);
    Nonnegative(t.write as real, p.write);
    Nonnegative(prompt, input);
    Nonnegative(t.output as real, p.output);
    Nonnegative(answer, low);
    Nonnegative(answer, high - low);
    hide Uncached;
  }

  lemma Nonnegative(a: real, b: real)
    requires a >= 0.0 && b >= 0.0
    ensures a * b >= 0.0
  {
  }

  lemma AmountBounds(c: Config, r: Record, i: nat, variant: string)
    requires c.Valid() && i < |c.moves|
    ensures 0.0 <= c.Amount(r, Baseline)
    ensures 0.0 <= c.Amount(r, AtTarget(i, All))
    ensures 0.0 <= c.Amount(r, AtVariant(i, All, variant, Low)) <= c.Amount(r, AtVariant(i, All, variant, Mean))
                <= c.Amount(r, AtVariant(i, All, variant, High))
  {
    BaselineBound(c, r);
    hide Cost;
    if c.Covers(r) && c.Selects(r, i) {
      var m, w := c.moves[i], Effective(c.Workload(r), variant);
      var t, p := TokensOf(r), c.PriceOf(m.to);
      var low, mean, high := c.OutputChange(i, w, Low), c.OutputChange(i, w, Mean), c.OutputChange(i, w, High);
      assert 0.0 < low <= mean <= high;
      CostBounds(t, p, m.input, 1.0, 1.0);
      CostBounds(t, p, m.input, low, mean);
      CostBounds(t, p, m.input, mean, high);
    }
  }

  lemma BaselineBound(c: Config, r: Record)
    requires c.Valid()
    ensures 0.0 <= c.Amount(r, Baseline)
  {
    hide Cost;
    if c.Covers(r) {
      CostBounds(TokensOf(r), c.PriceOf(r.model), 1.0, 1.0, 1.0);
    }
  }

  lemma ShareBounds(f: real, low: real, high: real)
    requires f >= 0.0 && 0.0 <= low <= high
    ensures 0.0 <= Share(f, low) <= Share(f, high)
  {
  }

  lemma {:induction false} MovedBounds(c: Config, r: Record, k: nat, variant: string)
    requires c.Valid() && k <= |c.moves|
    ensures 0.0 <= Moved(c, r, k, Level1)
    ensures 0.0 <= Moved(c, r, k, Level2(variant, Low)) <= Moved(c, r, k, Level2(variant, Mean)) <= Moved(c, r, k, Level2(variant, High))
  {
    hide Share, Config.Amount;
    if k > 0 {
      MovedBounds(c, r, k - 1, variant);
      AmountBounds(c, r, k - 1, variant);
      var f := c.moves[k-1].ratio;
      ShareBounds(f, c.Amount(r, Target(k - 1, Level1)), c.Amount(r, Target(k - 1, Level1)));
      ShareBounds(f, c.Amount(r, Target(k - 1, Level2(variant, Low))), c.Amount(r, Target(k - 1, Level2(variant, Mean))));
      ShareBounds(f, c.Amount(r, Target(k - 1, Level2(variant, Mean))), c.Amount(r, Target(k - 1, Level2(variant, High))));
    }
  }

  lemma RepricedBounds(c: Config, log: seq<Record>, r: Record, variant: string)
    requires c.Valid() && Accepts(c, log, r)
    ensures 0.0 <= Repriced(c, r, Level1)
    ensures 0.0 <= Repriced(c, r, Level2(variant, Low)) <= Repriced(c, r, Level2(variant, Mean)) <= Repriced(c, r, Level2(variant, High))
  {
    if c.Covers(r) {
      CoveredOverlap(c, log, r);
      BaselineBound(c, r);
      MovedBounds(c, r, |c.moves|, variant);
      hide Share, Config.Amount, Config.RatioSum, Moved, Accepts;
      ShareBounds(1.0 - c.RatioSum(r, |c.moves|), c.Amount(r, Baseline), c.Amount(r, Baseline));
    }
  }

  /** No total is negative, and every variant's endpoints are in order. */
  lemma {:induction false} TotalsOrdered(c: Config, log: seq<Record>, variant: string)
    requires c.Valid() && Accepted(c, log)
    ensures 0.0 <= Sum(c, log, Baseline) && 0.0 <= RepricedTotal(c, log, Level1)
    ensures var t := RepricedTriple(c, log, variant); 0.0 <= t.low <= t.mean <= t.high
  {
    if log != [] {
      hide Config.Amount, Repriced, Accepts;
      TotalsOrdered(c, log[..|log| - 1], variant);
      RepricedBounds(c, log[..|log| - 1], log[|log| - 1], variant);
      BaselineBound(c, log[|log| - 1]);
    }
  }

  /** What moves from and to costs nothing negative, with every variant's endpoints in order. */
  lemma {:induction false} MoveSumsOrdered(c: Config, log: seq<Record>, i: nat, variant: string)
    requires c.Valid() && i < |c.moves|
    ensures 0.0 <= Sum(c, log, AtSource(i, All)) && 0.0 <= Sum(c, log, AtTarget(i, All))
    ensures var t := VariantSums(c, log, i, All, variant); 0.0 <= t.low <= t.mean <= t.high
  {
    if log != [] {
      var r := log[|log| - 1];
      MoveSumsOrdered(c, log[..|log| - 1], i, variant);
      AmountBounds(c, r, i, variant);
      if c.Covers(r) {
        MoveAmounts(c, r, i, Level1);
      } else {
        ExcludedNothing(c, r, AtSource(i, All));
      }
      hide Config.Amount, Config.Covers, Config.Selects;
    }
  }

  predicate InOrder(t: Triple) { 0.0 <= t.low <= t.mean <= t.high }

  /** One move's figures: nothing negative, and every line in order. */
  predicate MoveInOrder(m: MoveReport) {
    && (m.before.Some? ==> 0.0 <= m.before.value) && (m.level1.Some? ==> 0.0 <= m.level1.value)
    && forall l :: l in m.level2 ==> InOrder(l.cost)
  }

  lemma ScaleBounds(ratio: real, t: Triple)
    requires 0.0 <= ratio && InOrder(t)
    ensures InOrder(Scale(ratio, t))
  {
    ShareBounds(ratio, t.low, t.mean);
    ShareBounds(ratio, t.mean, t.high);
    hide Share;
  }

  lemma {:induction false} LinesInOrder(c: Config, log: seq<Record>, i: nat, variants: seq<string>)
    requires c.Valid() && i < |c.moves|
    ensures forall l :: l in MoveLines(c, log, i, variants) ==> InOrder(l.cost)
  {
    hide Sum, MoveSupports, Scale;
    if variants != [] {
      var last := variants[|variants| - 1];
      LinesInOrder(c, log, i, variants[..|variants| - 1]);
      MoveSumsOrdered(c, log, i, last);
      ScaleBounds(c.moves[i].ratio, VariantSums(c, log, i, All, last));
    }
  }

  lemma {:induction false} MovesInOrder(c: Config, log: seq<Record>, k: nat, variants: seq<string>, skipIdle: bool)
    requires c.Valid() && k <= |c.moves|
    ensures forall m :: m in MoveReports(c, log, k, variants, skipIdle) ==> MoveInOrder(m)
  {
    hide Sum, Count, MoveLines, InOrder;
    if k > 0 {
      MovesInOrder(c, log, k - 1, variants, skipIdle);
      MoveSumsOrdered(c, log, k - 1, "");
      LinesInOrder(c, log, k - 1, variants);
      var ratio := c.moves[k-1].ratio;
      ShareBounds(ratio, Sum(c, log, AtSource(k - 1, All)), Sum(c, log, AtSource(k - 1, All)));
      ShareBounds(ratio, Sum(c, log, AtTarget(k - 1, All)), Sum(c, log, AtTarget(k - 1, All)));
      hide Share;
      assert MoveInOrder(MoveReportOf(c, log, k - 1, variants));
    }
  }

  /** A report's figures: nothing negative, each line in order, in the totals and in every
      move's part, and all total lines within the envelope. */
  lemma ReportBounds(c: Config, log: seq<Record>, r: Report)
    requires c.Valid() && Accepted(c, log) && ReportsTotals(c, log, r)
    requires r.moves == MoveReports(c, log, |c.moves|, VariantsFor(c, log), false)
    ensures forall m :: m in r.moves ==> MoveInOrder(m)
    ensures r.level1.Some? ==> 0.0 <= r.level1.value
    ensures forall v :: 0 <= v < |r.level2| ==>
              var t := r.level2[v].cost; 0.0 <= r.envelope.value.low <= t.low <= t.mean <= t.high <= r.envelope.value.high
  {
    hide Accepted, Sum, Count, RepricedTotal, ScenarioComplete, MoveReports, MoveInOrder;
    MovesInOrder(c, log, |c.moves|, VariantsFor(c, log), false);
    TotalsOrdered(c, log, "");
    forall v | 0 <= v < |r.level2| ensures var t := r.level2[v].cost; 0.0 <= t.low <= t.mean <= t.high {
      TotalsOrdered(c, log, r.level2[v].workload);
    }
  }

  /** The failed part costs no more than the whole, at every level. */
  lemma FailuresWithin(c: Config, log: seq<Record>, variant: string)
    requires c.Valid() && Accepted(c, log)
    ensures RepricedTotal(c, FailedPart(c, log), Level1) <= RepricedTotal(c, log, Level1)
    ensures Sum(c, FailedPart(c, log), Baseline) <= Sum(c, log, Baseline)
    ensures var f, t := RepricedTriple(c, FailedPart(c, log), variant), RepricedTriple(c, log, variant);
      f.low <= t.low && f.mean <= t.mean && f.high <= t.high
  {
    FailuresPlusSuccesses(c, log, Level1);
    FailuresPlusSuccesses(c, log, Level2(variant, Low));
    FailuresPlusSuccesses(c, log, Level2(variant, Mean));
    FailuresPlusSuccesses(c, log, Level2(variant, High));
    SuccessesBounded(c, log, variant);
  }

  lemma {:induction false} SuccessesBounded(c: Config, log: seq<Record>, variant: string)
    requires c.Valid() && Accepted(c, log)
    ensures var part := SucceededPart(c, log); var t := RepricedTriple(c, part, variant);
      0.0 <= Sum(c, part, Baseline) && 0.0 <= RepricedTotal(c, part, Level1) && 0.0 <= t.low && 0.0 <= t.mean && 0.0 <= t.high
  {
    if log != [] {
      var before, r := log[..|log| - 1], log[|log| - 1];
      SuccessesBounded(c, before, variant);
      RepricedBounds(c, before, r, variant);
      BaselineBound(c, r);
      hide Config.Amount, Repriced, Accepts, Config.Covers;
      Append(SucceededPart(c, before), r);
    }
  }
}
