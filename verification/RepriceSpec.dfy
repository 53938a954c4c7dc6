/** What-if repricing, one record at a time: which records count, where each one
    goes, and what it costs before and after the moves. */
module RepriceSpec {
  import opened Common

  /** USD per million tokens; `tierMax` bounds a request's input, 0 meaning no bound. */
  datatype Price = Price(id: string, provider: string, input: real, output: real, read: real, write: real, tierMax: uint64)

  datatype Kind = Key | Team | Route | Agent

  /** A keyed identity: equal digests mean equal canonical values. */
  datatype Selector = Selector(kind: Kind, digest: nat)

  /** Part of one model's traffic moves to another; `input` converts token counts. */
  datatype Move = Move(from: string, to: string, ratio: real, input: real, scope: Option<Selector>)

  datatype Level = Mean | Low | High

  /** How output length changes on a kind of work, with its interval. */
  datatype Factor = Factor(from: string, to: string, workload: string, mean: real, low: real, high: real) {
    function At(level: Level): real {
      match level case Mean => mean case Low => low case High => high
    }
  }

  datatype Record = Record(model: string, ids: map<Kind, nat>, served: bool,
                           input: Option<uint64>, output: Option<uint64>, read: Option<uint64>, write: Option<uint64>,
                           inputMin: Option<uint64>, inputMax: Option<uint64>,
                           count: uint64, issue: string, failed: bool)

  datatype Tokens = Tokens(input: nat, output: nat, read: nat, write: nat) {
    function Plus(t: Tokens): Tokens {
      Tokens(input + t.input, output + t.output, read + t.read, write + t.write)
    }

    predicate AtMost(t: Tokens) {
      input <= t.input && output <= t.output && read <= t.read && write <= t.write
    }

    /** Cache reads and writes are disjoint parts of the input. */
    predicate Partitioned() {
      read + write <= input
    }
  }

  const NO_TOKENS := Tokens(0, 0, 0, 0)

  datatype Config = Config(prices: seq<Price>, factors: seq<Factor>, mapping: map<Selector, string>, moves: seq<Move>, routing: bool) {

    ghost predicate Valid() {
      && (forall p :: p in prices ==> p.input >= 0.0 && p.output >= 0.0 && p.read >= 0.0 && p.write >= 0.0)
      && (forall f :: f in factors ==> 0.0 < f.low <= f.mean <= f.high)
      && (forall m :: m in moves ==>
            && 0.0 < m.ratio <= 1.0 && m.input > 0.0 && Priced(m.from) && Priced(m.to)
            && (m.scope.Some? ==> Considered(m.scope.value.kind)))
      && (forall s :: s in mapping ==> mapping[s] != "" && Considered(s.kind))
    }

    /** Route and agent identities are only looked at in routing mode. */
    predicate Considered(kind: Kind) {
      routing || kind.Key? || kind.Team?
    }

    predicate Priced(id: string) {
      exists k :: 0 <= k < |prices| && prices[k].id == id
    }

    function PriceOf(id: string): (p: Price)
      requires Priced(id)
      ensures p in prices && p.id == id
    {
      FirstPrice(prices, id)
    }

    predicate Known(r: Record, kind: Kind) {
      Considered(kind) && kind in r.ids
    }

    /** The record may fall into move `i`'s scope, but its identity is missing. */
    predicate ScopeUnknown(r: Record, i: nat)
      requires i < |moves|
    {
      moves[i].from == r.model && moves[i].scope.Some? && !Known(r, moves[i].scope.value.kind)
    }

    predicate Selects(r: Record, i: nat)
      requires i < |moves|
    {
      && moves[i].from == r.model
      && (moves[i].scope.Some? ==>
            Known(r, moves[i].scope.value.kind) && r.ids[moves[i].scope.value.kind] == moves[i].scope.value.digest)
    }

    predicate Enters(r: Record, i: nat)
      requires i < |moves|
    {
      Selects(r, i) || ScopeUnknown(r, i)
    }

    predicate AnyScopeUnknown(r: Record) {
      exists i: nat :: i < |moves| && ScopeUnknown(r, i)
    }

    predicate EntersAny(r: Record) {
      exists i: nat :: i < |moves| && Enters(r, i)
    }

    /** The fractions of the first `k` moves that select the record. */
    function RatioSum(r: Record, k: nat): real
      requires k <= |moves|
    {
      if k == 0 then 0.0 else RatioSum(r, k - 1) + if Selects(r, k - 1) then moves[k-1].ratio else 0.0
    }

    predicate WorkloadConflict(r: Record) {
      exists a: Kind, b: Kind :: MapsBoth(r, a, b)
    }

    predicate MapsBoth(r: Record, a: Kind, b: Kind) {
      && Known(r, a) && Selector(a, r.ids[a]) in mapping && Known(r, b) && Selector(b, r.ids[b]) in mapping
      && mapping[Selector(a, r.ids[a])] != mapping[Selector(b, r.ids[b])]
    }

    /** The workload a record that enters a move is mapped to, or "". */
    function Workload(r: Record): string {
      if !EntersAny(r) then ""
      else if Known(r, Key) && Selector(Key, r.ids[Key]) in mapping then mapping[Selector(Key, r.ids[Key])]
      else if Known(r, Team) && Selector(Team, r.ids[Team]) in mapping then mapping[Selector(Team, r.ids[Team])]
      else if Known(r, Route) && Selector(Route, r.ids[Route]) in mapping then mapping[Selector(Route, r.ids[Route])]
      else if Known(r, Agent) && Selector(Agent, r.ids[Agent]) in mapping then mapping[Selector(Agent, r.ids[Agent])]
      else ""
    }

    // ----- coverage

    predicate OutsideTier(r: Record, id: string)
      requires Priced(id)
    {
      && PriceOf(id).tierMax > 0 && RequestInput(r).Some? && RequestInput(r).value > PriceOf(id).tierMax
    }

    /** A record can be priced when its usage is usable and complete, its model is
        priced for its size, its identities decide every scope, and its cache
        counts are parts of its input. */
    predicate Covers(r: Record) {
      && r.issue == "" && Complete(r) && (routing ==> r.served)
      && Priced(r.model) && !OutsideTier(r, r.model)
      && !AnyScopeUnknown(r)
      && r.read.value + r.write.value <= r.input.value
    }

    /** Why a record is excluded, "" if it is not. */
    function Reason(r: Record): string {
      var usage := if r.issue in USAGE_ISSUES then r.issue else "unusable_usage";
      var split := if usage == "" && !Complete(r) then "missing_split" else usage;
      var served := if routing && split == "" && !r.served then "unknown_served_identity" else split;
      var priced := if (!routing || served == "") && served != "unpriced_reserved_bucket" && !Priced(r.model)
                    then "unknown_model_price" else served;
      var tier := if (!routing || priced == "") && Priced(r.model) && OutsideTier(r, r.model)
                  then "outside_price_tier" else priced;
      var kind := if r.issue == "unsupported_call_type" then "unsupported_call_type" else tier;
      var scope := if kind == "" && AnyScopeUnknown(r) then "missing_scope_identity" else kind;
      if scope == "" && r.read.value + r.write.value > r.input.value then "invalid_cache_partition" else scope
    }

    // ----- prices of one record

    /** One covered record's contribution to a total; an excluded one adds nothing. */
    function Amount(r: Record, q: Quantity): real {
      if !Covers(r) then 0.0
      else match q
      case Baseline => Cost(TokensOf(r), PriceOf(r.model), 1.0, 1.0)
      case AtSource(i, ws) =>
        if i < |moves| && Selects(r, i) && ws.Holds(Workload(r)) then Cost(TokensOf(r), PriceOf(r.model), 1.0, 1.0) else 0.0
      case AtTarget(i, ws) =>
        if i < |moves| && Selects(r, i) && ws.Holds(Workload(r)) && Priced(moves[i].to)
        then Cost(TokensOf(r), PriceOf(moves[i].to), moves[i].input, 1.0) else 0.0
      case AtVariant(i, ws, variant, level) =>
        if i < |moves| && Selects(r, i) && ws.Holds(Workload(r)) && Priced(moves[i].to)
        then Cost(TokensOf(r), PriceOf(moves[i].to), moves[i].input, OutputChange(i, Effective(Workload(r), variant), level)) else 0.0
    }

    predicate Measured(i: nat, workload: string)
      requires i < |moves|
    {
      exists k :: 0 <= k < |factors| && Applies(factors[k], moves[i], workload)
    }

    /** The measured output factor, or 1 where nothing was measured. */
    function OutputChange(i: nat, workload: string, level: Level): real
      requires i < |moves|
    {
      if Measured(i, workload) then FirstFactor(factors, moves[i], workload).At(level) else 1.0
    }
  }

  /** Unmapped traffic takes on each variant's workload in turn. */
  function Effective(workload: string, variant: string): string {
    if workload == "" then variant else workload
  }

  predicate Applies(f: Factor, m: Move, workload: string) {
    f.from == m.from && f.to == m.to && f.workload == workload
  }

  function FirstFactor(factors: seq<Factor>, m: Move, workload: string): (f: Factor)
    requires exists k :: 0 <= k < |factors| && Applies(factors[k], m, workload)
    ensures f in factors && Applies(f, m, workload)
  {
    if Applies(factors[0], m, workload) then factors[0] else FirstFactor(factors[1..], m, workload)
  }

  /** What is summed over records: the source cost of everything, or, for the
      records of some workloads that one move selects, their cost before the move,
      after it, or after it with a variant's output factors. */
  datatype Quantity =
    | Baseline
    | AtSource(move: nat, workloads: Workloads)
    | AtTarget(move: nat, workloads: Workloads)
    | AtVariant(move: nat, workloads: Workloads, variant: string, level: Level)

  datatype Workloads = All | Only(names: set<string>) {
    predicate Holds(w: string) {
      All? || w in names
    }
  }

  const USAGE_ISSUES := {"", "invalid_usage", "missing_split", "zero_origin_unknown", "unpriced_reserved_bucket"}

  predicate Complete(r: Record) {
    r.input.Some? && r.output.Some? && r.read.Some? && r.write.Some?
  }

  /** A cohort is sized by its largest request. */
  function RequestInput(r: Record): Option<uint64> {
    if r.inputMax.Some? then r.inputMax else r.input
  }

  function TokensOf(r: Record): Tokens
    requires Complete(r)
  {
    Tokens(r.input.value, r.output.value, r.read.value, r.write.value)
  }

  /** Machine subtraction wraps; PartitionedUncached shows when it does not. */
  function Uncached(t: Tokens): nat {
    (t.input - t.read - t.write) % (MAX_UINT64 + 1)
  }

  function Cost(t: Tokens, p: Price, input: real, output: real): real {
    ((Uncached(t) as real * p.input + t.read as real * p.read + t.write as real * p.write) * input
     + t.output as real * p.output * output) / 1_000_000.0
  }

  function FirstPrice(prices: seq<Price>, id: string): (p: Price)
    requires exists k :: 0 <= k < |prices| && prices[k].id == id
    ensures p in prices && p.id == id
  {
    if prices[0].id == id then prices[0] else FirstPrice(prices[1..], id)
  }
}
