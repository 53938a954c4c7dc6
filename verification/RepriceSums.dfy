/** Summing records: buckets add up to records, and moves add up to repricing each
    record on its own. */
module RepriceSums {
  import opened Common
  import opened RepriceSpec

  // ----- sums over a log of accepted records

  ghost function Sum(c: Config, log: seq<Record>, q: Quantity): real {
    if log == [] then 0.0 else Sum(c, log[..|log| - 1], q) + c.Amount(log[|log| - 1], q)
  }

  /** What is counted: records, by why they count. */
  datatype Tally =
    | Everything
    | CoveredRecords
    | UnmappedRecords
    | ExcludedFor(reason: string)
    | Entering(move: nat)
    | MoveCovered(move: nat)
    | MoveExcluded(move: nat)

  predicate Counts(c: Config, r: Record, t: Tally) {
    match t
    case Everything => true
    case CoveredRecords => c.Covers(r)
    case UnmappedRecords => c.Covers(r) && c.EntersAny(r) && c.Workload(r) == ""
    case ExcludedFor(reason) => !c.Covers(r) && c.Reason(r) == reason
    case Entering(i) => i < |c.moves| && c.Enters(r, i)
    case MoveCovered(i) => i < |c.moves| && c.Enters(r, i) && c.Covers(r)
    case MoveExcluded(i) => i < |c.moves| && c.Enters(r, i) && !c.Covers(r)
  }

  ghost function Count(c: Config, log: seq<Record>, t: Tally): nat {
    if log == [] then 0
    else Count(c, log[..|log| - 1], t) + if Counts(c, log[|log| - 1], t) then log[|log| - 1].count else 0
  }

  predicate InBucket(c: Config, r: Record, i: nat, w: string) {
    c.Covers(r) && i < |c.moves| && c.Enters(r, i) && c.Workload(r) == w
  }

  /** The tokens of the covered records that move `i` takes for workload `w`. */
  ghost function Bucket(c: Config, log: seq<Record>, i: nat, w: string): Tokens {
    if log == [] then NO_TOKENS
    else
      var before, r := Bucket(c, log[..|log| - 1], i, w), log[|log| - 1];
      if InBucket(c, r, i, w) then before.Plus(TokensOf(r)) else before
  }

  ghost predicate BucketUsed(c: Config, log: seq<Record>, i: nat, w: string) {
    exists k :: 0 <= k < |log| && InBucket(c, log[k], i, w)
  }

  /** The covered failed records, as the shadow calculation sees them. */
  ghost function FailedPart(c: Config, log: seq<Record>): seq<Record> {
    if log == [] then []
    else
      var before, r := FailedPart(c, log[..|log| - 1]), log[|log| - 1];
      if c.Covers(r) && r.failed then before + [r.(failed := false)] else before
  }

  lemma Append<T>(log: seq<T>, r: T)
    ensures (log + [r])[..|log|] == log && (log + [r])[|log|] == r
  {
  }

  // ----- coverage

  /** Exclusion reasons and coverage agree. */
  lemma ReasonMeansCovered(c: Config, r: Record)
    ensures c.Reason(r) == "" <==> c.Covers(r)
  {
  }

  /** A covered record has every scope decided: it enters exactly the moves that
      select it. */
  /** A reason for exclusion is true of the record. */
  lemma ReasonTrue(c: Config, r: Record)
    ensures var why := c.Reason(r);
      && (why == "unsupported_call_type" <==> r.issue == "unsupported_call_type")
      && (why == "unusable_usage" ==> r.issue !in USAGE_ISSUES)
      && (why in {"invalid_usage", "zero_origin_unknown", "unpriced_reserved_bucket"} ==> r.issue == why)
      && (why == "missing_split" ==> r.issue == "missing_split" || !Complete(r))
      && (why == "unknown_served_identity" ==> c.routing && !r.served)
      && (why == "unknown_model_price" ==> !c.Priced(r.model))
      && (why == "outside_price_tier" ==> c.Priced(r.model) && c.OutsideTier(r, r.model))
      && (why == "missing_scope_identity" ==> exists i: nat :: i < |c.moves| && c.ScopeUnknown(r, i))
      && (why == "invalid_cache_partition" ==> Complete(r) && r.read.value + r.write.value > r.input.value)
  {
    hide Config.Priced, Config.OutsideTier, Config.ScopeUnknown;
  }

  /** Without a conflict, every mapped identity of a record that enters a move says which
      workload it is, and without one there is none. */
  lemma WorkloadMeans(c: Config, r: Record)
    requires c.Valid() && c.EntersAny(r) && !c.WorkloadConflict(r)
    ensures forall k: Kind :: c.Known(r, k) && Selector(k, r.ids[k]) in c.mapping ==>
      c.Workload(r) == c.mapping[Selector(k, r.ids[k])]
    ensures c.Workload(r) == "" <==> forall k: Kind :: c.Known(r, k) ==> Selector(k, r.ids[k]) !in c.mapping
  {
    hide Config.EntersAny;
    forall k: Kind | c.Known(r, k) && Selector(k, r.ids[k]) in c.mapping
      ensures c.Workload(r) == c.mapping[Selector(k, r.ids[k])]
    {
      assert !c.MapsBoth(r, k, Key) && !c.MapsBoth(r, k, Team) && !c.MapsBoth(r, k, Route) && !c.MapsBoth(r, k, Agent);
    }
  }

  lemma CoveredScopesKnown(c: Config, r: Record, i: nat)
    requires c.Covers(r) && i < |c.moves|
    ensures c.Enters(r, i) <==> c.Selects(r, i)
  {
    assert !c.ScopeUnknown(r, i);
  }

  /** Every count is either covered or excluded, overall and for each move. */
  lemma {:induction false} CountsPartition(c: Config, log: seq<Record>, i: nat)
    ensures Count(c, log, Entering(i)) == Count(c, log, MoveCovered(i)) + Count(c, log, MoveExcluded(i))
  {
    if log != [] {
      CountsPartition(c, log[..|log| - 1], i);
    }
  }

  // ----- buckets

  /** A partitioned total small enough for a machine word subtracts exactly. */
  lemma PartitionedUncached(t: Tokens)
    requires t.Partitioned() && t.input <= MAX_UINT64
    ensures Uncached(t) == t.input - t.read - t.write
  {
  }

  lemma {:induction false} BucketPartitioned(c: Config, log: seq<Record>, i: nat, w: string)
    ensures Bucket(c, log, i, w).Partitioned()
  {
    if log != [] {
      BucketPartitioned(c, log[..|log| - 1], i, w);
    }
  }

  lemma Distribute3(u: real, v: real, x: real, y: real, s: real, t: real, pu: real, px: real, ps: real)
    ensures (u + v) * pu + (x + y) * px + (s + t) * ps == (u * pu + x * px + s * ps) + (v * pu + y * px + t * ps)
  {
  }

  lemma Distribute2(a: real, b: real, f: real, x: real, y: real, p: real, g: real)
    ensures ((a + b) * f + (x + y) * p * g) / 1_000_000.0 == (a * f + x * p * g) / 1_000_000.0 + (b * f + y * p * g) / 1_000_000.0
  {
    var one, two := a * f + x * p * g, b * f + y * p * g;
    assert (x + y) * p * g == (x * p + y * p) * g == x * p * g + y * p * g;
    assert (a + b) * f + (x + y) * p * g == one + two;
    assert (one + two) / 1_000_000.0 == one / 1_000_000.0 + two / 1_000_000.0;
  }

  /** Pricing is additive. */
  lemma CostPlus(a: Tokens, b: Tokens, p: Price, input: real, output: real)
    requires a.Partitioned() && b.Partitioned() && a.input + b.input <= MAX_UINT64
    ensures Cost(a.Plus(b), p, input, output) == Cost(a, p, input, output) + Cost(b, p, input, output)
  {
    var t := a.Plus(b);
    PartitionedUncached(a);
    PartitionedUncached(b);
    PartitionedUncached(t);
    var u, v := Uncached(a) as real, Uncached(b) as real;
    assert Uncached(t) as real == u + v;
    Distribute3(u, v, a.read as real, b.read as real, a.write as real, b.write as real, p.input, p.read, p.write);
    Distribute2(u * p.input + a.read as real * p.read + a.write as real * p.write,
                v * p.input + b.read as real * p.read + b.write as real * p.write, input,
                a.output as real, b.output as real, p.output, output);
  }

  lemma CostNothing(p: Price, input: real, output: real)
    ensures Cost(NO_TOKENS, p, input, output) == 0.0
  {
    assert Uncached(NO_TOKENS) == 0;
    assert 0.0 * p.input + 0.0 * p.read + 0.0 * p.write == 0.0;
    assert 0.0 * input + 0.0 * p.output * output == 0.0;
  }

  /** How a move prices the records of one workload. */
  ghost predicate PricesBucket(c: Config, i: nat, w: string, q: Quantity, p: Price, input: real, output: real) {
    && i < |c.moves|
    && match q
       case Baseline => false
       case AtSource(j, ws) =>
         j == i && ws == Only({w}) && c.Priced(c.moves[i].from) && p == c.PriceOf(c.moves[i].from) && input == 1.0 && output == 1.0
       case AtTarget(j, ws) =>
         j == i && ws == Only({w}) && c.Priced(c.moves[i].to) && p == c.PriceOf(c.moves[i].to) && input == c.moves[i].input && output == 1.0
       case AtVariant(j, ws, variant, level) =>
         && j == i && ws == Only({w}) && c.Priced(c.moves[i].to) && p == c.PriceOf(c.moves[i].to) && input == c.moves[i].input
         && output == c.OutputChange(i, Effective(w, variant), level)
  }

  /** Pricing a bucket's total is pricing its records one by one. */
  lemma {:induction false} BucketCost(c: Config, log: seq<Record>, i: nat, w: string, q: Quantity, p: Price,
      input: real, output: real)
    requires PricesBucket(c, i, w, q, p, input, output) && Bucket(c, log, i, w).input <= MAX_UINT64
    ensures Cost(Bucket(c, log, i, w), p, input, output) == Sum(c, log, q)
  {
    if log == [] {
      CostNothing(p, input, output);
    } else {
      var before, r := log[..|log| - 1], log[|log| - 1];
      BucketCost(c, before, i, w, q, p, input, output);
      if c.Covers(r) {
        CoveredScopesKnown(c, r, i);
        if InBucket(c, r, i, w) {
          BucketPartitioned(c, before, i, w);
          CostPlus(Bucket(c, before, i, w), TokensOf(r), p, input, output);
        }
      }
    }
  }

  // ----- workloads and moves

  function WithWorkloads(q: Quantity, ws: Workloads): Quantity {
    match q
    case Baseline => q
    case AtSource(i, _) => AtSource(i, ws)
    case AtTarget(i, _) => AtTarget(i, ws)
    case AtVariant(i, _, variant, level) => AtVariant(i, ws, variant, level)
  }

  /** One more workload adds its bucket. */
  lemma {:induction false} AddWorkload(c: Config, log: seq<Record>, q: Quantity, ws: set<string>, w: string)
    requires !q.Baseline? && w !in ws
    ensures Sum(c, log, WithWorkloads(q, Only(ws + {w})))
         == Sum(c, log, WithWorkloads(q, Only(ws))) + Sum(c, log, WithWorkloads(q, Only({w})))
  {
    if log != [] {
      AddWorkload(c, log[..|log| - 1], q, ws, w);
    }
  }

  lemma {:induction false} NoWorkloads(c: Config, log: seq<Record>, q: Quantity)
    requires !q.Baseline?
    ensures Sum(c, log, WithWorkloads(q, Only({}))) == 0.0
  {
    if log != [] {
      NoWorkloads(c, log[..|log| - 1], q);
    }
  }

  /** The workloads that occur are all of them. */
  lemma {:induction false} AllWorkloads(c: Config, log: seq<Record>, q: Quantity, ws: set<string>)
    requires !q.Baseline? && forall w :: BucketUsed(c, log, q.move, w) ==> w in ws
    ensures Sum(c, log, WithWorkloads(q, Only(ws))) == Sum(c, log, WithWorkloads(q, All))
  {
    hide Cost, Share;
    if log != [] {
      var before, r := log[..|log| - 1], log[|log| - 1];
      forall w | BucketUsed(c, before, q.move, w) ensures w in ws {
        var k :| 0 <= k < |before| && InBucket(c, before[k], q.move, w);
        assert InBucket(c, log[k], q.move, w);
      }
      AllWorkloads(c, before, q, ws);
      if c.Covers(r) && q.move < |c.moves| && c.Selects(r, q.move) {
        assert InBucket(c, log[|log| - 1], q.move, c.Workload(r));
        assert BucketUsed(c, log, q.move, c.Workload(r));
      }
    }
  }

  /** Which scenario: output length as it was, or changed by a variant's factors. */
  datatype Scenario = Level1 | Level2(variant: string, level: Level)

  function Target(i: nat, s: Scenario): Quantity {
    match s
    case Level1 => AtTarget(i, All)
    case Level2(variant, level) => AtVariant(i, All, variant, level)
  }

  function Share(fraction: real, amount: real): real {
    fraction * amount
  }

  lemma ShareMinus(f: real, a: real, b: real)
    ensures Share(f, a - b) == Share(f, a) - Share(f, b)
  {
  }

  lemma ShareSum(f: real, a: real, b: real)
    ensures Share(f, a + b) == Share(f, a) + Share(f, b)
  {
  }

  lemma ShareOfSum(f: real, g: real, a: real)
    ensures Share(f + g, a) == Share(f, a) + Share(g, a) && Share(0.0, a) == 0.0 && Share(f, 0.0) == 0.0
  {
  }

  /** What the first `k` moves change for one record: each moves its fraction of the
      original, never of another move's result. */
  function Shift(c: Config, r: Record, k: nat, s: Scenario): real
    requires k <= |c.moves|
  {
    if k == 0 then 0.0
    else Shift(c, r, k - 1, s) + Share(c.moves[k-1].ratio, c.Amount(r, Target(k - 1, s)) - c.Amount(r, AtSource(k - 1, All)))
  }

  ghost function Shifts(c: Config, log: seq<Record>, k: nat, s: Scenario): real
    requires k <= |c.moves|
  {
    if k == 0 then 0.0
    else Shifts(c, log, k - 1, s)
         + Share(c.moves[k-1].ratio, Sum(c, log, Target(k - 1, s)) - Sum(c, log, AtSource(k - 1, All)))
  }

  /** One record repriced on its own: the unmoved share at the source price, and
      each selected fraction at its target's price. */
  function Repriced(c: Config, r: Record, s: Scenario): real {
    if !c.Covers(r) then 0.0
    else Share(1.0 - c.RatioSum(r, |c.moves|), c.Amount(r, Baseline)) + Moved(c, r, |c.moves|, s)
  }

  function Moved(c: Config, r: Record, k: nat, s: Scenario): real
    requires k <= |c.moves|
  {
    if k == 0 then 0.0
    else Moved(c, r, k - 1, s) + if c.Selects(r, k - 1) then Share(c.moves[k-1].ratio, c.Amount(r, Target(k - 1, s))) else 0.0
  }

  ghost function RepricedTotal(c: Config, log: seq<Record>, s: Scenario): real {
    if log == [] then 0.0 else RepricedTotal(c, log[..|log| - 1], s) + Repriced(c, log[|log| - 1], s)
  }

  lemma MoveAmounts(c: Config, r: Record, i: nat, s: Scenario)
    requires c.Covers(r) && i < |c.moves|
    ensures c.Amount(r, AtSource(i, All)) == if c.Selects(r, i) then c.Amount(r, Baseline) else 0.0
    ensures !c.Selects(r, i) ==> c.Amount(r, Target(i, s)) == 0.0
  {
    hide Cost;
  }

  lemma {:induction false} ShiftIsMove(c: Config, r: Record, k: nat, s: Scenario)
    requires c.Covers(r) && k <= |c.moves|
    ensures Shift(c, r, k, s) == Moved(c, r, k, s) - Share(c.RatioSum(r, k), c.Amount(r, Baseline))
  {
    hide Share, Config.Amount;
    var source := c.Amount(r, Baseline);
    ShareOfSum(0.0, 0.0, source);
    if k > 0 {
      ShiftIsMove(c, r, k - 1, s);
      MoveAmounts(c, r, k - 1, s);
      var ratio, target := c.moves[k-1].ratio, c.Amount(r, Target(k - 1, s));
      ShareMinus(ratio, target, source);
      ShareOfSum(c.RatioSum(r, k - 1), ratio, source);
      ShareOfSum(ratio, 0.0, 0.0);
    }
  }

  lemma {:induction false} ShiftsNone(c: Config, k: nat, s: Scenario)
    requires k <= |c.moves|
    ensures Shifts(c, [], k, s) == 0.0
  {
    hide Share;
    if k > 0 {
      ShiftsNone(c, k - 1, s);
      ShareOfSum(c.moves[k-1].ratio, 0.0, 0.0);
    }
  }

  lemma {:induction false} ShiftsAppend(c: Config, log: seq<Record>, k: nat, s: Scenario)
    requires k <= |c.moves| && log != []
    ensures Shifts(c, log, k, s) == Shifts(c, log[..|log| - 1], k, s) + Shift(c, log[|log| - 1], k, s)
  {
    hide Share, Config.Amount;
    if k > 0 {
      ShiftsAppend(c, log, k - 1, s);
      var before, r := log[..|log| - 1], log[|log| - 1];
      ShareSum(c.moves[k-1].ratio,
               Sum(c, before, Target(k - 1, s)) - Sum(c, before, AtSource(k - 1, All)),
               c.Amount(r, Target(k - 1, s)) - c.Amount(r, AtSource(k - 1, All)));
    }
  }

  lemma {:induction false} ShiftExcluded(c: Config, r: Record, k: nat, s: Scenario)
    requires k <= |c.moves| && !c.Covers(r)
    ensures Shift(c, r, k, s) == 0.0
  {
    hide Share, Cost;
    if k > 0 {
      ShiftExcluded(c, r, k - 1, s);
      ShareOfSum(c.moves[k-1].ratio, 0.0, 0.0);
    }
  }

  /** The total over buckets and moves is the total over records, repriced one by one. */
  lemma {:induction false} MovesRepriceRecords(c: Config, log: seq<Record>, s: Scenario)
    ensures Sum(c, log, Baseline) + Shifts(c, log, |c.moves|, s) == RepricedTotal(c, log, s)
  {
    hide Share, Config.Amount;
    if log == [] {
      ShiftsNone(c, |c.moves|, s);
    } else {
      var before, r := log[..|log| - 1], log[|log| - 1];
      MovesRepriceRecords(c, before, s);
      ShiftsAppend(c, log, |c.moves|, s);
      var source, ratios := c.Amount(r, Baseline), c.RatioSum(r, |c.moves|);
      if c.Covers(r) {
        ShiftIsMove(c, r, |c.moves|, s);
        ShareOfSum(1.0 - ratios, ratios, source);
        ShareWhole(source);
      } else {
        ShiftExcluded(c, r, |c.moves|, s);
        ExcludedNothing(c, r, Baseline);
      }
    }
  }

  lemma ShareWhole(a: real)
    ensures Share(1.0, a) == a
  {
  }

  lemma ExcludedNothing(c: Config, r: Record, q: Quantity)
    requires !c.Covers(r)
    ensures c.Amount(r, q) == 0.0
  {
    hide Cost;
  }

  // ----- what is accepted

  /** A cohort's total must be reachable between its smallest and largest request. */
  predicate ExtremaOk(r: Record) {
    && (r.inputMin.None? <==> r.inputMax.None?)
    && (r.inputMin.Some? && r.inputMax.Some? ==>
          && r.input.Some? && r.inputMin.value <= r.inputMax.value
          && (r.count > 0 ==>
                r.inputMin.value * (r.count - 1) + r.inputMax.value <= r.input.value
                  <= r.inputMax.value * (r.count - 1) + r.inputMin.value))
  }

  /** The moves must not take more than all of a record they can all see. */
  predicate OverlapOk(c: Config, r: Record) {
    c.AnyScopeUnknown(r) || c.RatioSum(r, |c.moves|) <= 1.0
  }

  /** The largest request must fit the target's priced tier after conversion. */
  predicate TargetTierOk(c: Config, r: Record, i: nat)
    requires i < |c.moves|
  {
    c.Priced(c.moves[i].to) && c.PriceOf(c.moves[i].to).tierMax > 0 && RequestInput(r).Some? ==>
      RequestInput(r).value as real * c.moves[i].input <= c.PriceOf(c.moves[i].to).tierMax as real
  }

  predicate Fits(total: nat, more: nat) {
    total + more <= MAX_INT64
  }

  predicate TokensFit(total: Tokens, more: Tokens) {
    Fits(total.input, more.input) && Fits(total.output, more.output) && Fits(total.read, more.read) && Fits(total.write, more.write)
  }

  /** What must hold of the record itself. */
  ghost predicate Admissible(c: Config, r: Record) {
    && r.count > 0 && ExtremaOk(r) && OverlapOk(c, r)
    && !(c.EntersAny(r) && c.WorkloadConflict(r))
    && (c.Covers(r) ==> forall i: nat :: i < |c.moves| && c.Enters(r, i) ==> TargetTierOk(c, r, i))
  }

  ghost predicate RoomInMove(c: Config, log: seq<Record>, r: Record, i: nat)
    requires Complete(r)
  {
    TokensFit(Bucket(c, log, i, c.Workload(r)), TokensOf(r)) && Fits(Count(c, log, MoveCovered(i)), r.count)
  }

  ghost predicate RoomForCovered(c: Config, log: seq<Record>, r: Record)
    requires Complete(r)
  {
    && Fits(Count(c, log, CoveredRecords), r.count)
    && (c.EntersAny(r) && c.Workload(r) == "" ==> Fits(Count(c, log, UnmappedRecords), r.count))
    && forall i: nat :: i < |c.moves| && c.Enters(r, i) ==> RoomInMove(c, log, r, i)
  }

  ghost predicate RoomForExcluded(c: Config, log: seq<Record>, r: Record) {
    && Fits(Count(c, log, ExcludedFor(c.Reason(r))), r.count)
    && forall i: nat :: i < |c.moves| && c.Enters(r, i) ==> Fits(Count(c, log, MoveExcluded(i)), r.count)
  }

  /** A record is accepted when it is well-formed and no counter would overflow. */
  ghost predicate Accepts(c: Config, log: seq<Record>, r: Record) {
    Admissible(c, r) && if c.Covers(r) then RoomForCovered(c, log, r) else RoomForExcluded(c, log, r)
  }

  /** Every record of the log was accepted when it came. */
  ghost predicate Accepted(c: Config, log: seq<Record>) {
    log == [] || (Accepted(c, log[..|log| - 1]) && Accepts(c, log[..|log| - 1], log[|log| - 1]))
  }

  /** No bucket of an accepted log outgrows a machine word. */
  lemma {:induction false} BucketFits(c: Config, log: seq<Record>, i: nat, w: string)
    requires Accepted(c, log)
    ensures var b := Bucket(c, log, i, w);
      b.input <= MAX_INT64 && b.output <= MAX_INT64 && b.read <= MAX_INT64 && b.write <= MAX_INT64
  {
    if log != [] {
      BucketFits(c, log[..|log| - 1], i, w);
    }
  }

  /** The moves of a covered record never take more than all of it, although the
      overlap check is skipped for records with an unknown scope. */
  lemma CoveredOverlap(c: Config, log: seq<Record>, r: Record)
    requires Accepts(c, log, r) && c.Covers(r)
    ensures c.RatioSum(r, |c.moves|) <= 1.0
  {
  }

  /** No request of an accepted covered record is larger than its model's priced tier, nor,
      after conversion, than the tier of a model it moves to. */
  lemma TiersHold(c: Config, log: seq<Record>, r: Record, i: nat)
    requires Accepts(c, log, r) && c.Covers(r)
    ensures var tier := c.PriceOf(r.model).tierMax;
      tier > 0 ==> (r.inputMax.Some? ==> r.inputMax.value <= tier) && (r.inputMax.None? ==> r.input.value <= tier)
    ensures i < |c.moves| && c.Selects(r, i) && c.Priced(c.moves[i].to) && c.PriceOf(c.moves[i].to).tierMax > 0 ==>
      var largest := if r.inputMax.Some? then r.inputMax.value else r.input.value;
      largest as real * c.moves[i].input <= c.PriceOf(c.moves[i].to).tierMax as real
  {
    hide RoomForCovered;
    if i < |c.moves| && c.Selects(r, i) {
      assert c.Enters(r, i);
      assert TargetTierOk(c, r, i);
    }
  }

  // ----- the failed records

  function Shadowed(r: Record): Record {
    r.(failed := false)
  }

  /** Nothing but the failure shadow looks at the failed flag. */
  lemma FlagIgnored(c: Config, r: Record)
    ensures var q := Shadowed(r);
      && c.Covers(q) == c.Covers(r) && c.EntersAny(q) == c.EntersAny(r) && c.Workload(q) == c.Workload(r)
      && c.WorkloadConflict(q) == c.WorkloadConflict(r) && OverlapOk(c, q) == OverlapOk(c, r)
    ensures forall i: nat :: i < |c.moves| ==> c.Enters(Shadowed(r), i) == c.Enters(r, i)
  {
    FlagIgnoredScopes(c, r);
    FlagIgnoredConflict(c, r);
    FlagIgnoredRatio(c, r, |c.moves|);
    hide Config.ScopeUnknown, Config.AnyScopeUnknown, Config.EntersAny, Config.Enters, Config.WorkloadConflict,
        Config.RatioSum;
  }

  lemma FlagIgnoredScopes(c: Config, r: Record)
    ensures var q := Shadowed(r); c.AnyScopeUnknown(q) == c.AnyScopeUnknown(r) && c.EntersAny(q) == c.EntersAny(r)
    ensures forall i: nat :: i < |c.moves| ==> c.Enters(Shadowed(r), i) == c.Enters(r, i)
  {
    var q := Shadowed(r);
    assert forall i: nat :: i < |c.moves| ==> c.Enters(q, i) == c.Enters(r, i) && c.ScopeUnknown(q, i) == c.ScopeUnknown(r, i);
  }

  lemma FlagIgnoredConflict(c: Config, r: Record)
    ensures c.WorkloadConflict(Shadowed(r)) == c.WorkloadConflict(r)
  {
    assert forall a: Kind, b: Kind :: c.MapsBoth(Shadowed(r), a, b) == c.MapsBoth(r, a, b);
  }

  lemma {:induction false} FlagIgnoredRatio(c: Config, r: Record, k: nat)
    requires k <= |c.moves|
    ensures c.RatioSum(Shadowed(r), k) == c.RatioSum(r, k)
  {
    if k > 0 {
      FlagIgnoredRatio(c, r, k - 1);
    }
  }

  predicate OfCovered(t: Tally) {
    t.CoveredRecords? || t.UnmappedRecords? || t.MoveCovered?
  }

  /** The shadow counts no more than the whole, and exactly the failed part of it. */
  lemma {:induction false} FailedPartCounts(c: Config, log: seq<Record>, t: Tally)
    requires OfCovered(t)
    ensures Count(c, FailedPart(c, log), t) <= Count(c, log, t)
  {
    if log != [] {
      var before, r := log[..|log| - 1], log[|log| - 1];
      FailedPartCounts(c, before, t);
      FlagIgnored(c, r);
      Append(FailedPart(c, before), Shadowed(r));
    }
  }

  lemma {:induction false} FailedPartBucket(c: Config, log: seq<Record>, i: nat, w: string)
    ensures Bucket(c, FailedPart(c, log), i, w).AtMost(Bucket(c, log, i, w))
  {
    if log != [] {
      var before, r := log[..|log| - 1], log[|log| - 1];
      FailedPartBucket(c, before, i, w);
      FlagIgnored(c, r);
      Append(FailedPart(c, before), Shadowed(r));
    }
  }

  lemma ShadowAdmissible(c: Config, r: Record)
    requires Admissible(c, r)
    ensures Admissible(c, Shadowed(r))
  {
    FlagIgnored(c, r);
    hide Config.Covers, Config.EntersAny, Config.Enters, Config.WorkloadConflict, OverlapOk;
  }

  lemma ShadowRoom(c: Config, log: seq<Record>, r: Record)
    requires Complete(r) && RoomForCovered(c, log, r)
    ensures RoomForCovered(c, FailedPart(c, log), Shadowed(r))
  {
    FlagIgnored(c, r);
    hide Config.Covers, Config.EntersAny, Config.Enters, Config.Workload;
    var part := FailedPart(c, log);
    FailedPartCounts(c, log, CoveredRecords);
    FailedPartCounts(c, log, UnmappedRecords);
    forall i: nat | i < |c.moves| && c.Enters(r, i)
      ensures RoomInMove(c, part, Shadowed(r), i)
    {
      assert RoomInMove(c, log, r, i);
      FailedPartCounts(c, log, MoveCovered(i));
      FailedPartBucket(c, log, i, c.Workload(r));
    }
  }

  /** Whatever failed record the whole accepts, its shadow accepts too. */
  lemma ShadowAccepts(c: Config, log: seq<Record>, r: Record)
    requires Accepts(c, log, r) && c.Covers(r)
    ensures Accepts(c, FailedPart(c, log), Shadowed(r))
  {
    assert Complete(r);
    FlagIgnored(c, r);
    ShadowAdmissible(c, r);
    ShadowRoom(c, log, r);
    hide Config.Covers, Admissible, RoomForCovered;
  }

  lemma {:induction false} FailedPartAccepted(c: Config, log: seq<Record>)
    requires Accepted(c, log)
    ensures Accepted(c, FailedPart(c, log))
  {
    if log != [] {
      var before, r := log[..|log| - 1], log[|log| - 1];
      FailedPartAccepted(c, before);
      if c.Covers(r) && r.failed {
        ShadowAccepts(c, before, r);
        Append(FailedPart(c, before), Shadowed(r));
      }
    }
  }

  lemma {:induction false} NothingFailedTwice(c: Config, log: seq<Record>)
    ensures FailedPart(c, FailedPart(c, log)) == []
  {
    if log != [] {
      var before, r := log[..|log| - 1], log[|log| - 1];
      NothingFailedTwice(c, before);
      Append(FailedPart(c, before), Shadowed(r));
    }
  }
}
