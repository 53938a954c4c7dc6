/** What each price is charged for: how every total answers to one price of one model. */
module RepricePrices {
  import opened Common
  import opened RepriceSpec
  import opened RepriceSums

  /** The tokens a price table prices separately. */
  datatype Part = Plain | CacheRead | CacheWrite | Output

  function TokensIn(t: Tokens, part: Part): int {
    match part
    case Plain => t.input - t.read - t.write
    case CacheRead => t.read
    case CacheWrite => t.write
    case Output => t.output
  }

  function Raise(p: Price, part: Part, d: real): (r: Price)
    ensures r.id == p.id && r.tierMax == p.tierMax
  {
    match part
    case Plain => p.(input := p.input + d)
    case CacheRead => p.(read := p.read + d)
    case CacheWrite => p.(write := p.write + d)
    case Output => p.(output := p.output + d)
  }

  lemma Grown(x: real, p: real, d: real)
    ensures x * (p + d) == x * p + x * d
  {
  }

  lemma GrownSum(a: real, b: real, x: real, input: real, rest: real)
    ensures ((a + x + b) * input + rest) / 1_000_000.0 == ((a + b) * input + rest) / 1_000_000.0 + x * input / 1_000_000.0
  {
    assert (a + x + b) * input == (a + b) * input + x * input;
  }

  /** Raising one price raises the cost of some tokens by that much for each million of the
      tokens it is charged for, converted as input or as output. */
  lemma PriceCharged(t: Tokens, p: Price, part: Part, d: real, input: real, output: real)
    requires t.Partitioned() && t.input <= MAX_UINT64
    ensures Cost(t, Raise(p, part, d), input, output)
         == Cost(t, p, input, output) + TokensIn(t, part) as real * d * (if part.Output? then output else input) / 1_000_000.0
  {
    PartitionedUncached(t);
    var u, r, w, o := Uncached(t) as real, t.read as real, t.write as real, t.output as real;
    match part
    case Plain =>
      Grown(u, p.input, d);
      GrownSum(u * p.input, r * p.read + w * p.write, u * d, input, o * p.output * output);
    case CacheRead =>
      Grown(r, p.read, d);
      GrownSum(u * p.input + r * p.read, w * p.write, r * d, input, o * p.output * output);
    case CacheWrite =>
      Grown(w, p.write, d);
      GrownSum(u * p.input + r * p.read + w * p.write, 0.0, w * d, input, o * p.output * output);
    case Output =>
      Grown(o, p.output, d);
      var inputs := (u * p.input + r * p.read + w * p.write) * input;
      assert (o * p.output + o * d) * output == o * p.output * output + o * d * output;
      GrownSum(0.0, 0.0, o * d, output, inputs + o * p.output * output);
  }

  predicate Free(p: Price) { p.input == p.output == p.read == p.write == 0.0 }

  lemma FreeCostsNothing(t: Tokens, p: Price, input: real, output: real)
    requires Free(p)
    ensures Cost(t, p, input, output) == 0.0
  {
    assert Uncached(t) as real * 0.0 + t.read as real * 0.0 + t.write as real * 0.0 == 0.0;
    assert 0.0 * input + t.output as real * 0.0 * output == 0.0;
  }

  // ----- the price table

  function RaiseIn(prices: seq<Price>, id: string, part: Part, d: real): (r: seq<Price>)
    ensures |r| == |prices|
    ensures forall k :: 0 <= k < |prices| ==> r[k] == if prices[k].id == id then Raise(prices[k], part, d) else prices[k]
  {
    if prices == [] then []
    else [if prices[0].id == id then Raise(prices[0], part, d) else prices[0]] + RaiseIn(prices[1..], id, part, d)
  }

  function WithRaise(c: Config, id: string, part: Part, d: real): Config {
    c.(prices := RaiseIn(c.prices, id, part, d))
  }

  lemma {:induction false} FirstRaised(prices: seq<Price>, model: string, id: string, part: Part, d: real)
    requires exists k :: 0 <= k < |prices| && prices[k].id == model
    ensures exists k :: 0 <= k < |prices| && RaiseIn(prices, id, part, d)[k].id == model
    ensures FirstPrice(RaiseIn(prices, id, part, d), model)
         == if model == id then Raise(FirstPrice(prices, model), part, d) else FirstPrice(prices, model)
  {
    hide Raise;
    var r := RaiseIn(prices, id, part, d);
    var k :| 0 <= k < |prices| && prices[k].id == model;
    assert r[k].id == model && r[0].id == prices[0].id;
    if prices[0].id == model {
      assert r[0] == if model == id then Raise(prices[0], part, d) else prices[0];
      assert FirstPrice(prices, model) == prices[0] && FirstPrice(r, model) == r[0];
    } else {
      assert prices[1..][k-1].id == model;
      FirstRaised(prices[1..], model, id, part, d);
      assert r[1..] == RaiseIn(prices[1..], id, part, d);
      assert FirstPrice(r, model) == FirstPrice(r[1..], model);
    }
  }

  lemma PricedAlike(c: Config, model: string, id: string, part: Part, d: real)
    ensures var c' := WithRaise(c, id, part, d);
      && (c'.Priced(model) <==> c.Priced(model))
      && (c.Priced(model) ==>
            && c'.PriceOf(model) == (if model == id then Raise(c.PriceOf(model), part, d) else c.PriceOf(model))
            && c'.PriceOf(model).tierMax == c.PriceOf(model).tierMax)
  {
    var c' := WithRaise(c, id, part, d);
    if c'.Priced(model) {
      var k :| 0 <= k < |c'.prices| && c'.prices[k].id == model;
      assert c.prices[k].id == model;
    }
    if c.Priced(model) {
      FirstRaised(c.prices, model, id, part, d);
    }
  }

  /** A price has no part in what is covered, selected or mapped. */
  lemma CoversAlike(c: Config, r: Record, id: string, part: Part, d: real)
    ensures var c' := WithRaise(c, id, part, d); (c'.Covers(r) <==> c.Covers(r)) && c'.Workload(r) == c.Workload(r)
  {
    var c' := WithRaise(c, id, part, d);
    PricedAlike(c, r.model, id, part, d);
    assert forall i: nat :: i < |c.moves| ==> (c'.ScopeUnknown(r, i) <==> c.ScopeUnknown(r, i));
    assert forall i: nat :: i < |c.moves| ==> (c'.Enters(r, i) <==> c.Enters(r, i));
    assert c'.AnyScopeUnknown(r) <==> c.AnyScopeUnknown(r);
    assert c'.EntersAny(r) <==> c.EntersAny(r);
    hide FirstPrice, RaiseIn;
  }

  // ----- totals

  /** Move `i` takes the covered record, for one of these workloads. */
  predicate Takes(c: Config, r: Record, i: nat, ws: Workloads) {
    i < |c.moves| && c.Selects(r, i) && ws.Holds(c.Workload(r))
  }

  /** The tokens of a record that a total charges at one price of model `id`: at the source
      as they are; at the target the input converted, and the output as the variant's
      measured factor says. */
  function Billed(c: Config, r: Record, q: Quantity, id: string, part: Part): real {
    if !c.Covers(r) then 0.0
    else
      var n := TokensIn(TokensOf(r), part) as real;
      match q
      case Baseline => if r.model == id then n else 0.0
      case AtSource(i, ws) => if Takes(c, r, i, ws) && c.moves[i].from == id then n else 0.0
      case AtTarget(i, ws) =>
        if Takes(c, r, i, ws) && c.moves[i].to == id then Converted(n, part, c.moves[i].input, 1.0) else 0.0
      case AtVariant(i, ws, variant, level) =>
        var workload := if c.Workload(r) == "" then variant else c.Workload(r);
        if Takes(c, r, i, ws) && c.moves[i].to == id
        then Converted(n, part, c.moves[i].input, c.OutputChange(i, workload, level)) else 0.0
  }

  ghost function BilledSum(c: Config, log: seq<Record>, q: Quantity, id: string, part: Part): real {
    if log == [] then 0.0 else BilledSum(c, log[..|log| - 1], q, id, part) + Billed(c, log[|log| - 1], q, id, part)
  }

  /** Tokens of one part after a move; input and output tokens convert differently. */
  function Converted(n: real, part: Part, input: real, output: real): real {
    n * if part.Output? then output else input
  }

  function PerMillion(tokens: real, price: real): real { tokens * price / 1_000_000.0 }

  lemma NoneBilled(d: real)
    ensures PerMillion(0.0, d) == 0.0
  {
  }

  lemma Factored(n: real, d: real, f: real)
    ensures n * d * f / 1_000_000.0 == PerMillion(n * f, d)
  {
    assert n * d * f == n * f * d;
  }

  lemma SourceRaised(c: Config, r: Record, q: Quantity, id: string, part: Part, d: real)
    requires c.Priced(id) && c.Covers(r) && (q.Baseline? || (q.AtSource? && Takes(c, r, q.move, q.workloads)))
    ensures WithRaise(c, id, part, d).Amount(r, q) == c.Amount(r, q) + PerMillion(Billed(c, r, q, id, part), d)
  {
    CoversAlike(c, r, id, part, d);
    CoveredTokens(c, r);
    hide Config.Covers, Config.Workload, Cost, Config.Priced, Config.PriceOf, TokensIn, Raise, RaiseIn, PerMillion;
    SourceCharged(c, TokensOf(r), r.model, id, part, d);
  }

  lemma TargetRaised(c: Config, r: Record, q: Quantity, id: string, part: Part, d: real)
    requires c.Priced(id) && c.Covers(r) && (q.AtTarget? || q.AtVariant?) && Takes(c, r, q.move, q.workloads)
    ensures WithRaise(c, id, part, d).Amount(r, q) == c.Amount(r, q) + PerMillion(Billed(c, r, q, id, part), d)
  {
    CoversAlike(c, r, id, part, d);
    CoveredTokens(c, r);
    NoneBilled(d);
    hide Config.Covers, Config.Workload, Cost, Config.Priced, Config.PriceOf, TokensIn, Raise, Config.OutputChange, RaiseIn,
        PerMillion, Converted;
    match q
    case AtTarget(i, _) =>
      TargetCharged(c, TokensOf(r), i, 1.0, id, part, d);
    case AtVariant(i, _, variant, level) =>
      SameChange(c, i, Effective(c.Workload(r), variant), level, id, part, d);
      TargetCharged(c, TokensOf(r), i, c.OutputChange(i, Effective(c.Workload(r), variant), level), id, part, d);
  }

  lemma AmountRaised(c: Config, r: Record, q: Quantity, id: string, part: Part, d: real)
    requires c.Priced(id)
    ensures WithRaise(c, id, part, d).Amount(r, q) == c.Amount(r, q) + PerMillion(Billed(c, r, q, id, part), d)
  {
    CoversAlike(c, r, id, part, d);
    NoneBilled(d);
    hide Config.Covers, Config.Workload, Cost, Config.Priced, Config.PriceOf, TokensIn, Raise, Config.OutputChange, RaiseIn,
        PerMillion;
    if c.Covers(r) {
      if q.Baseline? || (q.AtSource? && Takes(c, r, q.move, q.workloads)) {
        SourceRaised(c, r, q, id, part, d);
      } else if (q.AtTarget? || q.AtVariant?) && Takes(c, r, q.move, q.workloads) {
        TargetRaised(c, r, q, id, part, d);
      }
    }
  }

  lemma {:induction false} FactorGiven(factors: seq<Factor>, m: Move, workload: string, k: nat)
    requires k < |factors| && Applies(factors[k], m, workload)
    requires forall j :: 0 <= j < k ==> !Applies(factors[j], m, workload)
    ensures FirstFactor(factors, m, workload) == factors[k]
  {
    if k > 0 {
      assert factors[1..][k-1] == factors[k];
      FactorGiven(factors[1..], m, workload, k - 1);
    }
  }

  /** The output of a move changes by the first factor measured from its model to its target
      on that kind of work; where there is none, not at all. */
  lemma OutputMeans(c: Config, i: nat, workload: string, level: Level, k: nat)
    requires i < |c.moves| && k <= |c.factors|
    requires forall f :: f in c.factors[..k] ==>
      f.from != c.moves[i].from || f.to != c.moves[i].to || f.workload != workload
    ensures k < |c.factors| && c.factors[k].from == c.moves[i].from && c.factors[k].to == c.moves[i].to
            && c.factors[k].workload == workload
      ==> c.OutputChange(i, workload, level)
          == if level.Low? then c.factors[k].low else if level.High? then c.factors[k].high else c.factors[k].mean
    ensures k == |c.factors| ==> c.OutputChange(i, workload, level) == 1.0
  {
    assert forall j :: 0 <= j < k ==> c.factors[j] in c.factors[..k];
    if k < |c.factors| && Applies(c.factors[k], c.moves[i], workload) {
      FactorGiven(c.factors, c.moves[i], workload, k);
    }
  }

  lemma SameChange(c: Config, i: nat, w: string, level: Level, id: string, part: Part, d: real)
    requires i < |c.moves|
    ensures WithRaise(c, id, part, d).OutputChange(i, w, level) == c.OutputChange(i, w, level)
  {
    assert WithRaise(c, id, part, d).Measured(i, w) <==> c.Measured(i, w);
  }

  lemma SourceCharged(c: Config, t: Tokens, model: string, id: string, part: Part, d: real)
    requires c.Priced(model) && t.Partitioned() && t.input <= MAX_UINT64
    ensures WithRaise(c, id, part, d).Priced(model)
    ensures Cost(t, WithRaise(c, id, part, d).PriceOf(model), 1.0, 1.0)
         == Cost(t, c.PriceOf(model), 1.0, 1.0) + PerMillion(if model == id then TokensIn(t, part) as real else 0.0, d)
  {
    hide Cost, TokensIn, Raise, WithRaise, Config.Priced, Config.PriceOf;
    PricedAlike(c, model, id, part, d);
    NoneBilled(d);
    PriceCharged(t, c.PriceOf(model), part, d, 1.0, 1.0);
  }

  lemma TargetCharged(c: Config, t: Tokens, i: nat, output: real, id: string, part: Part, d: real)
    requires i < |c.moves| && t.Partitioned() && t.input <= MAX_UINT64
    ensures var c', to, n := WithRaise(c, id, part, d), c.moves[i].to, TokensIn(t, part) as real;
      && (c'.Priced(to) <==> c.Priced(to))
      && (c.Priced(to) ==>
            Cost(t, c'.PriceOf(to), c.moves[i].input, output)
            == Cost(t, c.PriceOf(to), c.moves[i].input, output)
               + PerMillion(if to == id then Converted(n, part, c.moves[i].input, output) else 0.0, d))
  {
    hide Cost, TokensIn, Raise, WithRaise, Config.Priced, Config.PriceOf;
    var to := c.moves[i].to;
    PricedAlike(c, to, id, part, d);
    NoneBilled(d);
    Factored(TokensIn(t, part) as real, d, if part.Output? then output else c.moves[i].input);
    if c.Priced(to) {
      PriceCharged(t, c.PriceOf(to), part, d, c.moves[i].input, output);
    }
  }

  lemma CoveredTokens(c: Config, r: Record)
    requires c.Covers(r)
    ensures c.Priced(r.model) && Complete(r) && TokensOf(r).Partitioned() && TokensOf(r).input <= MAX_UINT64
  {
  }

  /** Every total answers to one price of one model by the tokens charged at it, and by
      nothing else. */
  lemma {:induction false} PriceRaised(c: Config, log: seq<Record>, q: Quantity, id: string, part: Part, d: real)
    requires c.Priced(id)
    ensures Sum(WithRaise(c, id, part, d), log, q) == Sum(c, log, q) + PerMillion(BilledSum(c, log, q, id, part), d)
  {
    hide Billed, Config.Amount, WithRaise;
    if log != [] {
      var before, r := log[..|log| - 1], log[|log| - 1];
      PriceRaised(c, before, q, id, part, d);
      AmountRaised(c, r, q, id, part, d);
      var a, b := BilledSum(c, before, q, id, part), Billed(c, r, q, id, part);
      assert (a + b) * d == a * d + b * d;
    }
  }

  /** With nothing to pay for, nothing costs anything. */
  lemma {:induction false} FreeTotals(c: Config, log: seq<Record>, q: Quantity)
    requires forall p :: p in c.prices ==> Free(p)
    ensures Sum(c, log, q) == 0.0
  {
    if log != [] {
      FreeTotals(c, log[..|log| - 1], q);
      FreeAmount(c, log[|log| - 1], q);
      hide Config.Amount, Free;
    }
  }

  lemma FreeAmount(c: Config, r: Record, q: Quantity)
    requires forall p :: p in c.prices ==> Free(p)
    ensures c.Amount(r, q) == 0.0
  {
    forall t, p, input, output | p in c.prices ensures Cost(t, p, input, output) == 0.0 {
      FreeCostsNothing(t, p, input, output);
    }
    hide Cost, Free;
  }
}
