/** The streaming calculator: counters and per-move, per-workload token buckets,
    with a shadow calculator over the failed records. */
module Calculators {
  import opened Common
  import opened RepriceSpec
  import opened RepriceSums

  datatype MoveState = MoveState(buckets: map<string, Tokens>, covered: nat, excluded: nat)

  method AddBounded(a: nat, b: nat) returns (r: Option<nat>)
    ensures r == if Fits(a, b) then Some(a + b) else None
  {
    if b > MAX_INT64 || a > MAX_INT64 - b {
      return None;
    }
    return Some(a + b);
  }

  function BucketOf(m: MoveState, w: string): Tokens {
    if w in m.buckets then m.buckets[w] else NO_TOKENS
  }

  /** A move's state describes the log. */
  ghost predicate MoveDescribes(c: Config, log: seq<Record>, i: nat, m: MoveState) {
    && m.covered == Count(c, log, MoveCovered(i)) && m.excluded == Count(c, log, MoveExcluded(i))
    && (forall w :: w in m.buckets <==> BucketUsed(c, log, i, w))
    && (forall w :: BucketOf(m, w) == Bucket(c, log, i, w))
  }

  /** The calculator's counters as a value. */
  datatype Counters = Counters(baseline: real, covered: nat, unmapped: nat, excluded: map<string, nat>, moves: seq<MoveState>)

  ghost predicate Describes(c: Config, log: seq<Record>, s: Counters) {
    && s.baseline == Sum(c, log, Baseline)
    && s.covered == Count(c, log, CoveredRecords) && s.unmapped == Count(c, log, UnmappedRecords)
    && (forall reason :: ExcludedCount(s.excluded, reason) == Count(c, log, ExcludedFor(reason)))
    && |s.moves| == |c.moves|
    && (forall i :: 0 <= i < |s.moves| ==> MoveDescribes(c, log, i, s.moves[i]))
  }

  lemma UsedNext(c: Config, log: seq<Record>, r: Record, i: nat, w: string)
    ensures BucketUsed(c, log + [r], i, w) <==> BucketUsed(c, log, i, w) || InBucket(c, r, i, w)
  {
    hide InBucket;
    var next := log + [r];
    if k :| 0 <= k < |log| && InBucket(c, log[k], i, w) {
      assert next[k] == log[k];
    }
    if InBucket(c, r, i, w) {
      assert next[|log|] == r;
    }
    if k :| 0 <= k < |next| && InBucket(c, next[k], i, w) {
      assert k < |log| ==> log[k] == next[k];
    }
  }

  lemma CountNext(c: Config, log: seq<Record>, r: Record, t: Tally)
    ensures Count(c, log + [r], t) == Count(c, log, t) + if Counts(c, r, t) then r.count else 0
  {
    hide Counts;
    Append(log, r);
  }

  lemma BucketNext(c: Config, log: seq<Record>, r: Record, i: nat, w: string)
    ensures Bucket(c, log + [r], i, w) == if InBucket(c, r, i, w) then Bucket(c, log, i, w).Plus(TokensOf(r)) else Bucket(c, log, i, w)
  {
    Append(log, r);
  }

  lemma SumNext(c: Config, log: seq<Record>, r: Record, q: Quantity)
    ensures Sum(c, log + [r], q) == Sum(c, log, q) + c.Amount(r, q)
  {
    hide Config.Amount;
    Append(log, r);
  }

  function MoveNext(c: Config, m: MoveState, r: Record, i: nat): MoveState
    requires i < |c.moves|
  {
    if !c.Enters(r, i) then m else if c.Covers(r) then CoverIn(m, r, c.Workload(r)) else ExcludeFrom(m, r)
  }

  /** A move's state after one more record. */
  lemma MoveDescribesNext(c: Config, log: seq<Record>, i: nat, m: MoveState, r: Record)
    requires MoveDescribes(c, log, i, m) && i < |c.moves|
    ensures MoveDescribes(c, log + [r], i, MoveNext(c, m, r, i))
  {
    assert c.Covers(r) ==> Complete(r);
    hide Config.Covers, Config.Workload, Config.Enters, Count;
    CountNext(c, log, r, MoveCovered(i));
    CountNext(c, log, r, MoveExcluded(i));
    var m' := MoveNext(c, m, r, i);
    forall w
      ensures w in m'.buckets <==> BucketUsed(c, log + [r], i, w)
      ensures BucketOf(m', w) == Bucket(c, log + [r], i, w)
    {
      UsedNext(c, log, r, i, w);
      BucketNext(c, log, r, i, w);
    }
  }

  /** The counters after one more record. */
  ghost predicate Follows(c: Config, s: Counters, s': Counters, r: Record) {
    && s'.baseline == s.baseline + c.Amount(r, Baseline)
    && s'.covered == s.covered + (if c.Covers(r) then r.count else 0)
    && s'.unmapped == s.unmapped + (if c.Covers(r) && c.EntersAny(r) && c.Workload(r) == "" then r.count else 0)
    && s'.excluded == (if c.Covers(r) then s.excluded
                       else s.excluded[c.Reason(r) := ExcludedCount(s.excluded, c.Reason(r)) + r.count])
    && |s'.moves| == |s.moves| == |c.moves|
    && forall i :: 0 <= i < |s.moves| ==> s'.moves[i] == MoveNext(c, s.moves[i], r, i)
  }

  lemma DescribesNext(c: Config, log: seq<Record>, s: Counters, s': Counters, r: Record)
    requires Describes(c, log, s) && Follows(c, s, s', r)
    ensures Describes(c, log + [r], s')
  {
    hide Config.Covers, Config.Workload, Config.Enters, Config.EntersAny, Config.Reason, Config.Amount, Count, Sum,
        MoveDescribes, MoveNext;
    SumNext(c, log, r, Baseline);
    CountNext(c, log, r, CoveredRecords);
    CountNext(c, log, r, UnmappedRecords);
    forall reason ensures ExcludedCount(s'.excluded, reason) == Count(c, log + [r], ExcludedFor(reason)) {
      CountNext(c, log, r, ExcludedFor(reason));
    }
    forall i | 0 <= i < |s'.moves| ensures MoveDescribes(c, log + [r], i, s'.moves[i]) {
      MoveDescribesNext(c, log, i, s.moves[i], r);
    }
  }

  class Calculator {
    const c: Config
    var baseline: real
    var covered: nat
    var unmapped: nat
    var excluded: map<string, nat>
    var moves: seq<MoveState>
    var failures: Calculator?
    var failureTokens: Tokens
    ghost var log: seq<Record>

    /** The counters describe the records accepted so far. */
    ghost predicate Counted()
      reads this
    {
      Describes(c, log, Counters(baseline, covered, unmapped, excluded, moves))
    }

    /** The failure shadow is a calculator over the covered failed records of `past`. */
    ghost predicate Shadows(past: seq<Record>)
      reads this, if failures == null then {} else {failures}
    {
      && failureTokens == FailureTokens(c, past)
      && (failures == null ==> FailedPart(c, past) == [])
      && (failures != null ==>
            && failures != this && failures.failures == null && failures.c == c && failures.Counted()
            && failures.log == FailedPart(c, past) && failures.log != []
            && failures.failureTokens == NO_TOKENS)
    }

    ghost predicate Valid()
      reads this, if failures == null then {} else {failures}
    {
      c.Valid() && Accepted(c, log) && Counted() && Shadows(log)
    }

    constructor (c: Config)
      requires c.Valid()
      ensures Valid() && this.c == c && log == [] && failures == null
    {
      this.c := c;
      baseline, covered, unmapped, excluded := 0.0, 0, 0, map[];
      moves := seq(|c.moves|, _ => MoveState(map[], 0, 0));
      failures, failureTokens, log := null, NO_TOKENS, [];
    }

    ghost function View(): Counters
      reads this
    {
      Counters(baseline, covered, unmapped, excluded, moves)
    }

    /** Adds one record. It is accepted exactly when it is admissible and there is
        room for it; the failure shadow never has a say. */
    method Add(r: Record) returns (ok: bool)
      requires Valid()
      modifies this, if failures == null then {} else {failures}
      ensures ok <==> Accepts(c, old(log), r)
      ensures ok ==> Valid() && log == old(log) + [r]
      ensures ok ==> failures == old(failures) || (old(failures) == null && fresh(failures))
      decreases r.failed
    {
      hide Config.Covers, Config.Reason, Config.Workload, Admissible, RoomForCovered, RoomForExcluded, Describes,
          Follows, Lists;
      hide Accepted, FailedPart;
      var admissible, indices, workload, issue := Inspect(r);
      ReasonMeansCovered(c, r);
      if !admissible {
        return false;
      }
      ghost var past, before := log, View();
      AcceptedNow(c, past, r);
      if issue != "" {
        ok := Exclude(r, issue, indices);
        if ok {
          DescribesNext(c, past, before, View(), r);
          log := log + [r];
          ExcludedNotShadowed(c, past, r);
        }
        return;
      }
      ok := Cover(r, workload, indices);
      if !ok {
        return;
      }
      DescribesNext(c, past, before, View(), r);
      if r.failed {
        ok := AddFailure(r, past);
      } else {
        CoveredShadow(c, past, r);
      }
      log := log + [r];
    }

    /** The moves a record enters, and the fractions of those that select it. */
    method Match(r: Record) returns (indices: seq<nat>, unknownScope: bool, sum: real)
      ensures Lists(c, r, indices)
      ensures unknownScope == c.AnyScopeUnknown(r) && sum == c.RatioSum(r, |c.moves|)
    {
      indices, unknownScope, sum := [], false, 0.0;
      for i := 0 to |c.moves|
        invariant forall k :: 0 <= k < |indices| ==> indices[k] < i && c.Enters(r, indices[k])
        invariant forall j: nat :: j < i && c.Enters(r, j) ==> j in indices
        invariant forall k, l :: 0 <= k < l < |indices| ==> indices[k] < indices[l]
        invariant unknownScope <==> exists j: nat :: j < i && c.ScopeUnknown(r, j)
        invariant sum == c.RatioSum(r, i)
      {
        var m := c.moves[i];
        if m.from == r.model && m.scope.Some? && !c.Known(r, m.scope.value.kind) {
          assert c.ScopeUnknown(r, i);
          unknownScope := true;
          indices := indices + [i];
        } else if m.from == r.model
               && (m.scope.None? || (c.Known(r, m.scope.value.kind) && r.ids[m.scope.value.kind] == m.scope.value.digest)) {
          assert c.Selects(r, i);
          indices := indices + [i];
          sum := sum + m.ratio;
        } else {
          assert !c.Enters(r, i);
        }
      }
    }

    /** The one workload the record's identities map to; None if they disagree. */
    method MappedWorkload(r: Record) returns (w: Option<string>)
      requires c.Valid() && c.EntersAny(r)
      ensures w.None? <==> c.WorkloadConflict(r)
      ensures w.Some? ==> w.value == c.Workload(r)
    {
      var workload := "";
      ghost var from := Key;
      var left := {Key, Team, Route, Agent};
      forall k: Kind ensures k in left { AllKinds(k); }
      while left != {}
        invariant forall k: Kind :: k !in left && Mapped(c, r, k) ==> workload == MappedTo(c, r, k)
        invariant workload != "" ==> Mapped(c, r, from) && workload == MappedTo(c, r, from)
      {
        var kind :| kind in left;
        left := left - {kind};
        if c.Known(r, kind) && Selector(kind, r.ids[kind]) in c.mapping {
          var mapped := c.mapping[Selector(kind, r.ids[kind])];
          if workload != "" && workload != mapped {
            assert c.MapsBoth(r, from, kind);
            return None;
          }
          workload, from := mapped, kind;
        }
      }
      OneWorkload(c, r, workload);
      return Some(workload);
    }

    /** Why the record cannot be priced, following the order of the checks. */
    method Classify(r: Record, unknownScope: bool) returns (issue: string)
      requires unknownScope == c.AnyScopeUnknown(r)
      ensures issue == c.Reason(r)
    {
      issue := r.issue;
      if issue !in USAGE_ISSUES {
        issue := "unusable_usage";
      }
      if issue == "" && !Complete(r) {
        issue := "missing_split";
      }
      if c.routing && issue == "" && !r.served {
        issue := "unknown_served_identity";
      }
      if (!c.routing || issue == "") && issue != "unpriced_reserved_bucket" && !c.Priced(r.model) {
        issue := "unknown_model_price";
      }
      if (!c.routing || issue == "") && c.Priced(r.model) && c.OutsideTier(r, r.model) {
        issue := "outside_price_tier";
      }
      if r.issue == "unsupported_call_type" {
        issue := "unsupported_call_type";
      }
      if issue == "" && unknownScope {
        issue := "missing_scope_identity";
      }
      if issue == "" && (r.read.value > r.input.value || r.write.value > r.input.value - r.read.value) {
        issue := "invalid_cache_partition";
      }
    }

    /** Everything that does not depend on earlier records. */
    method Inspect(r: Record) returns (ok: bool, indices: seq<nat>, workload: string, issue: string)
      requires c.Valid()
      ensures ok <==> Admissible(c, r)
      ensures ok ==> Lists(c, r, indices) && workload == c.Workload(r) && issue == c.Reason(r)
    {
      indices, workload, issue := [], "", "";
      ok := CheckExtrema(r);
      if !ok {
        return;
      }
      var unknownScope, sum;
      indices, unknownScope, sum := Match(r);
      if !unknownScope && sum > 1.0 {
        return false, indices, workload, issue;
      }
      ListsAny(c, r, indices);
      if indices != [] {
        var mapped := MappedWorkload(r);
        if mapped.None? {
          return false, indices, workload, issue;
        }
        workload := mapped.value;
      }
      issue := Classify(r, unknownScope);
      ReasonMeansCovered(c, r);
      if issue == "" {
        ok := CheckTargets(r, indices);
      }
    }

    method CheckExtrema(r: Record) returns (ok: bool)
      ensures ok <==> r.count > 0 && ExtremaOk(r)
    {
      if r.count == 0 {
        return false;
      }
      if r.inputMin.None? != r.inputMax.None? {
        return false;
      }
      if r.inputMin.Some? {
        if r.input.None? || r.inputMin.value > r.inputMax.value {
          return false;
        }
        var n := r.count - 1;
        var lo := r.inputMin.value * n + r.inputMax.value;
        var hi := r.inputMax.value * n + r.inputMin.value;
        if r.input.value < lo || r.input.value > hi {
          return false;
        }
      }
      return true;
    }

    method CheckTargets(r: Record, indices: seq<nat>) returns (ok: bool)
      requires c.Valid() && Lists(c, r, indices) && Complete(r)
      ensures ok <==> forall i: nat :: i < |c.moves| && c.Enters(r, i) ==> TargetTierOk(c, r, i)
    {
      for k := 0 to |indices|
        invariant forall l :: 0 <= l < k ==> TargetTierOk(c, r, indices[l])
      {
        var m := c.moves[indices[k]];
        var p := c.PriceOf(m.to);
        if p.tierMax > 0 && RequestInput(r).value as real * m.input > p.tierMax as real {
          return false;
        }
      }
      return true;
    }

    method Cover(r: Record, workload: string, indices: seq<nat>) returns (ok: bool)
      requires c.Valid() && Counted() && c.Covers(r) && Lists(c, r, indices) && workload == c.Workload(r)
      modifies this`covered, this`baseline, this`unmapped, this`moves
      ensures ok <==> RoomForCovered(c, log, r)
      ensures ok ==> Follows(c, old(View()), View(), r)
    {
      assert |moves| == |c.moves| && Complete(r) && c.Amount(r, Baseline) == Cost(TokensOf(r), c.PriceOf(r.model), 1.0, 1.0);
      RoomMeansCovered(c, log, View(), r, indices);
      ListsAny(c, r, indices);
      hide Cost, Config.Covers, Config.Workload, Config.EntersAny, Describes, RoomForCovered, Config.Amount;
      var n := AddBounded(covered, r.count);
      if n.None? {
        return false;
      }
      covered := n.value;
      baseline := baseline + Cost(TokensOf(r), c.PriceOf(r.model), 1.0, 1.0);
      if indices != [] && workload == "" {
        n := AddBounded(unmapped, r.count);
        if n.None? {
          return false;
        }
        unmapped := n.value;
      }
      ok := FillBuckets(r, workload, indices);
    }

    /** Passes a covered failed record on to the shadow, creating it when needed.
        The shadow cannot refuse what this calculator has accepted. */
    method AddFailure(r: Record, ghost past: seq<Record>) returns (ok: bool)
      requires c.Valid() && Accepted(c, past) && Accepts(c, past, r) && c.Covers(r) && r.failed
      requires Shadows(past)
      modifies this`failures, this`failureTokens, if failures == null then {} else {failures}
      ensures ok && Shadows(past + [r])
      ensures failures == old(failures) || (old(failures) == null && fresh(failures))
      decreases r.failed, 0
    {
      if failures == null {
        failures := new Calculator(c);
      }
      FailedPartAccepted(c, past);
      NothingFailedTwice(c, past);
      NoTokensLeft(c, FailedPart(c, past));
      ShadowAccepts(c, past, r);
      ok := failures.Add(Shadowed(r));
      failureTokens := failureTokens.Plus(TokensOf(r));
      Append(past, r);
    }

    method Exclude(r: Record, issue: string, indices: seq<nat>) returns (ok: bool)
      requires Counted() && !c.Covers(r) && Lists(c, r, indices) && issue == c.Reason(r)
      modifies this`excluded, this`moves
      ensures ok <==> RoomForExcluded(c, log, r)
      ensures ok ==> Follows(c, old(View()), View(), r)
    {
      RoomMeansExcluded(c, log, View(), r, indices);
      assert |moves| == |c.moves|;
      hide Config.Covers, Config.Reason, Config.Amount, Describes, RoomForExcluded;
      var n := AddBounded(ExcludedCount(excluded, issue), r.count);
      if n.None? {
        return false;
      }
      excluded := excluded[issue := n.value];
      ok := ExcludeMoves(r, indices);
      if ok {
        ExcludedNothing(c, r, Baseline);
      }
    }

    method ExcludeMoves(r: Record, indices: seq<nat>) returns (ok: bool)
      requires |moves| == |c.moves| && Lists(c, r, indices) && !c.Covers(r)
      modifies this`moves
      ensures ok <==> forall k :: 0 <= k < |indices| ==> Fits(old(moves)[indices[k]].excluded, r.count)
      ensures ok ==> |moves| == |c.moves| && forall i :: 0 <= i < |moves| ==>
                moves[i] == MoveNext(c, old(moves)[i], r, i)
    {
      for k := 0 to |indices|
        invariant |moves| == |c.moves| == |old(moves)|
        invariant forall l :: 0 <= l < k ==> Fits(old(moves)[indices[l]].excluded, r.count)
        invariant forall i :: 0 <= i < |moves| ==>
                    moves[i] == if i in indices[..k] then ExcludeFrom(old(moves)[i], r) else old(moves)[i]
      {
        var i := indices[k];
        ListedNext(c, r, indices, k);
        var n := AddBounded(moves[i].excluded, r.count);
        if n.None? {
          return false;
        }
        moves := moves[i := moves[i].(excluded := n.value)];
      }
      assert indices[..|indices|] == indices;
      return true;
    }

    /** Adds a record's tokens to one bucket, field by field. */
    method AddTokens(total: Tokens, more: Tokens) returns (sum: Option<Tokens>)
      ensures sum == if TokensFit(total, more) then Some(total.Plus(more)) else None
    {
      var input := AddBounded(total.input, more.input);
      if input.None? { return None; }
      var output := AddBounded(total.output, more.output);
      if output.None? { return None; }
      var read := AddBounded(total.read, more.read);
      if read.None? { return None; }
      var write := AddBounded(total.write, more.write);
      if write.None? { return None; }
      return Some(Tokens(input.value, output.value, read.value, write.value));
    }

    method FillBuckets(r: Record, workload: string, indices: seq<nat>) returns (ok: bool)
      requires |moves| == |c.moves| && Lists(c, r, indices) && c.Covers(r) && workload == c.Workload(r)
      modifies this`moves
      ensures ok <==> forall k :: 0 <= k < |indices| ==>
                TokensFit(BucketOf(old(moves)[indices[k]], workload), TokensOf(r)) && Fits(old(moves)[indices[k]].covered, r.count)
      ensures ok ==> |moves| == |c.moves| && forall i :: 0 <= i < |moves| ==>
                moves[i] == MoveNext(c, old(moves)[i], r, i)
    {
      for k := 0 to |indices|
        invariant |moves| == |c.moves| == |old(moves)|
        invariant forall l :: 0 <= l < k ==>
                    TokensFit(BucketOf(old(moves)[indices[l]], workload), TokensOf(r)) && Fits(old(moves)[indices[l]].covered, r.count)
        invariant forall i :: 0 <= i < |moves| ==>
                    moves[i] == if i in indices[..k] then CoverIn(old(moves)[i], r, workload) else old(moves)[i]
      {
        var i := indices[k];
        ListedNext(c, r, indices, k);
        var m := moves[i];
        var v := AddTokens(BucketOf(m, workload), TokensOf(r));
        if v.None? {
          return false;
        }
        var n := AddBounded(m.covered, r.count);
        if n.None? {
          return false;
        }
        moves := moves[i := MoveState(m.buckets[workload := v.value], n.value, m.excluded)];
      }
      assert indices[..|indices|] == indices;
      return true;
    }
  }

  /** The moves a record enters, in order. */
  ghost predicate Lists(c: Config, r: Record, indices: seq<nat>) {
    && (forall k :: 0 <= k < |indices| ==> indices[k] < |c.moves| && c.Enters(r, indices[k]))
    && (forall i: nat :: i < |c.moves| && c.Enters(r, i) ==> i in indices)
    && (forall k, l :: 0 <= k < l < |indices| ==> indices[k] < indices[l])
  }

  lemma ListedNext(c: Config, r: Record, indices: seq<nat>, k: nat)
    requires Lists(c, r, indices) && k < |indices|
    ensures indices[k] !in indices[..k] && indices[k] in indices
    ensures forall i :: i in indices[..k+1] <==> i in indices[..k] || i == indices[k]
  {
    assert indices[..k+1] == indices[..k] + [indices[k]];
  }

  predicate Mapped(c: Config, r: Record, kind: Kind) {
    c.Known(r, kind) && Selector(kind, r.ids[kind]) in c.mapping
  }

  function MappedTo(c: Config, r: Record, kind: Kind): string
    requires Mapped(c, r, kind)
  {
    c.mapping[Selector(kind, r.ids[kind])]
  }

  lemma AllKinds(k: Kind)
    ensures k in {Key, Team, Route, Agent}
  {
    match k { case Key => case Team => case Route => case Agent => }
  }

  /** If all mapped identities agree on `w`, that is the record's workload. */
  lemma OneWorkload(c: Config, r: Record, w: string)
    requires c.Valid() && c.EntersAny(r)
    requires forall k: Kind :: Mapped(c, r, k) ==> w == MappedTo(c, r, k)
    requires w != "" ==> exists k: Kind :: Mapped(c, r, k)
    ensures !c.WorkloadConflict(r) && c.Workload(r) == w
  {
    forall a: Kind, b: Kind ensures !c.MapsBoth(r, a, b) {
      if Mapped(c, r, a) && Mapped(c, r, b) {
        assert MappedTo(c, r, a) == MappedTo(c, r, b);
      }
    }
    if k: Kind :| Mapped(c, r, k) {
      assert MappedTo(c, r, k) == w;
      AllKinds(k);
      assert Mapped(c, r, Key) || Mapped(c, r, Team) || Mapped(c, r, Route) || Mapped(c, r, Agent);
    } else {
      assert !Mapped(c, r, Key) && !Mapped(c, r, Team) && !Mapped(c, r, Route) && !Mapped(c, r, Agent);
    }
  }

  function ExcludeFrom(m: MoveState, r: Record): MoveState {
    m.(excluded := m.excluded + r.count)
  }

  function CoverIn(m: MoveState, r: Record, workload: string): MoveState
    requires Complete(r)
  {
    MoveState(m.buckets[workload := BucketOf(m, workload).Plus(TokensOf(r))], m.covered + r.count, m.excluded)
  }

  lemma ListsAny(c: Config, r: Record, indices: seq<nat>)
    requires Lists(c, r, indices)
    ensures indices != [] <==> c.EntersAny(r)
  {
    if indices != [] {
      assert c.Enters(r, indices[0]);
    }
  }

  lemma AcceptedNow(c: Config, log: seq<Record>, r: Record)
    requires Accepted(c, log)
    ensures Accepts(c, log, r) ==> Accepted(c, log + [r])
  {
    hide Accepts;
    Append(log, r);
  }

  lemma RoomMeansExcluded(c: Config, log: seq<Record>, s: Counters, r: Record, indices: seq<nat>)
    requires Describes(c, log, s) && Lists(c, r, indices)
    ensures RoomForExcluded(c, log, r) <==>
              && Fits(ExcludedCount(s.excluded, c.Reason(r)), r.count)
              && forall k :: 0 <= k < |indices| ==> Fits(s.moves[indices[k]].excluded, r.count)
  {
    hide Config.Reason, Config.Enters;
    assert forall i :: 0 <= i < |s.moves| ==> s.moves[i].excluded == Count(c, log, MoveExcluded(i));
  }

  lemma RoomMeansCovered(c: Config, log: seq<Record>, s: Counters, r: Record, indices: seq<nat>)
    requires Describes(c, log, s) && Lists(c, r, indices) && Complete(r)
    ensures RoomForCovered(c, log, r) <==>
              && Fits(s.covered, r.count)
              && (c.EntersAny(r) && c.Workload(r) == "" ==> Fits(s.unmapped, r.count))
              && forall k :: 0 <= k < |indices| ==>
                   TokensFit(BucketOf(s.moves[indices[k]], c.Workload(r)), TokensOf(r)) && Fits(s.moves[indices[k]].covered, r.count)
  {
    hide Config.Workload, Config.Enters, Config.EntersAny;
    forall i: nat | i < |s.moves|
      ensures RoomInMove(c, log, r, i) <==>
                TokensFit(BucketOf(s.moves[i], c.Workload(r)), TokensOf(r)) && Fits(s.moves[i].covered, r.count)
    {
      assert MoveDescribes(c, log, i, s.moves[i]);
    }
  }

  lemma ExcludedNotShadowed(c: Config, log: seq<Record>, r: Record)
    requires !c.Covers(r)
    ensures FailedPart(c, log + [r]) == FailedPart(c, log) && FailureTokens(c, log + [r]) == FailureTokens(c, log)
  {
    Append(log, r);
  }

  lemma CoveredShadow(c: Config, log: seq<Record>, r: Record)
    requires c.Covers(r) && !r.failed
    ensures FailedPart(c, log + [r]) == FailedPart(c, log) && FailureTokens(c, log + [r]) == FailureTokens(c, log)
  {
    Append(log, r);
  }

  lemma {:induction false} NoTokensLeft(c: Config, log: seq<Record>)
    requires FailedPart(c, log) == []
    ensures FailureTokens(c, log) == NO_TOKENS
  {
    if log != [] {
      NoTokensLeft(c, log[..|log| - 1]);
    }
  }

  function ExcludedCount(excluded: map<string, nat>, reason: string): nat {
    if reason in excluded then excluded[reason] else 0
  }

  /** The tokens of the covered failed records. */
  ghost function FailureTokens(c: Config, log: seq<Record>): Tokens {
    if log == [] then NO_TOKENS
    else
      var before, r := FailureTokens(c, log[..|log| - 1]), log[|log| - 1];
      if c.Covers(r) && r.failed then before.Plus(TokensOf(r)) else before
  }
}
