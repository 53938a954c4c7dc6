/** Rankings over frequent-items sketches: what the recorded intervals say about the
    true change of every key. */
module Rankings {
  import opened Common

  type Key = nat

  datatype Interval = Interval(lower: int, upper: int) {
    predicate Has(x: int) { lower <= x <= upper }
  }

  /** A sketch tracks some keys with bounds; any other key weighs at most `maxError`. */
  datatype Sketch = Sketch(total: int, maxError: int, tracked: map<Key, Interval>) {
    function LowerBound(k: Key): int { if k in tracked then tracked[k].lower else 0 }

    function UpperBound(k: Key): int { if k in tracked then tracked[k].upper else maxError }

    /** The keys returned when no heavy key may be missed. */
    function Frequent(): set<Key> {
      set k | k in tracked && tracked[k].upper > maxError
    }
  }

  function Weight(truth: map<Key, nat>, k: Key): nat { if k in truth then truth[k] else 0 }

  /** The sketch summarizes the true weights `truth`. */
  ghost predicate Summarizes(s: Sketch, truth: map<Key, nat>) {
    && Total(truth) == s.total <= MAX_INT64 && 0 <= s.maxError <= MAX_INT64
    && (forall k :: k in s.tracked ==> 0 <= s.tracked[k].lower && s.tracked[k].upper <= MAX_INT64)
    && (forall k :: s.LowerBound(k) <= Weight(truth, k) <= s.UpperBound(k))
  }

  datatype Direction = Increased | Decreased | Unchanged | Uncertain

  datatype Mover = Mover(key: Key, before: Interval, after: Interval, delta: Interval, direction: Direction)

  function MoverOf(x: Sketch, y: Sketch, k: Key): Mover {
    var before, after := Interval(x.LowerBound(k), x.UpperBound(k)), Interval(y.LowerBound(k), y.UpperBound(k));
    var delta := Interval(after.lower - before.upper, after.upper - before.lower);
    Mover(k, before, after, delta,
          if delta.lower > 0 then Increased else if delta.upper < 0 then Decreased
          else if delta.lower == 0 && delta.upper == 0 then Unchanged else Uncertain)
  }

  /** A key's true weights and its true change lie in their intervals, the change's
      interval fits a signed word, and a stated direction is never wrong. */
  lemma ChangeBracketed(x: Sketch, y: Sketch, before: map<Key, nat>, after: map<Key, nat>, k: Key)
    requires Summarizes(x, before) && Summarizes(y, after)
    ensures var m, change := MoverOf(x, y, k), Weight(after, k) - Weight(before, k);
      && m.before.Has(Weight(before, k)) && m.after.Has(Weight(after, k))
      && m.delta.Has(change) && -MAX_INT64 <= m.delta.lower && m.delta.upper <= MAX_INT64
      && match m.direction
         case Increased => change > 0
         case Decreased => change < 0
         case Unchanged => change == 0
         case Uncertain => !(m.delta.lower > 0) && !(m.delta.upper < 0) && m.delta.lower < m.delta.upper
  {
    assert x.LowerBound(k) <= Weight(before, k) <= x.UpperBound(k);
    assert y.LowerBound(k) <= Weight(after, k) <= y.UpperBound(k);
  }

  /** A key no candidate list mentions changed by no more than the stated bound. */
  lemma UntrackedBounded(x: Sketch, y: Sketch, before: map<Key, nat>, after: map<Key, nat>, k: Key)
    requires Summarizes(x, before) && Summarizes(y, after) && k !in x.Frequent() + y.Frequent()
    ensures -x.maxError <= Weight(after, k) - Weight(before, k) <= y.maxError
  {
    assert Weight(before, k) <= x.UpperBound(k) && Weight(after, k) <= y.UpperBound(k);
  }

  // ----- sorting

  datatype Order = ByStrength | ByLower

  function Abs(x: int): nat { if x < 0 then -x else x }

  function Strength(i: Interval): int { if Abs(i.lower) > Abs(i.upper) then Abs(i.lower) else Abs(i.upper) }

  /** `a` may stand before `b`. */
  predicate Precedes(order: Order, a: Mover, b: Mover) {
    match order
    case ByStrength => Strength(a.delta) > Strength(b.delta) || (Strength(a.delta) == Strength(b.delta) && a.key <= b.key)
    case ByLower => a.delta.lower >= b.delta.lower
  }

  predicate Sorted(order: Order, s: seq<Mover>) {
    forall i, j :: 0 <= i < j < |s| ==> Precedes(order, s[i], s[j])
  }

  lemma PrecedesTotal(order: Order, a: Mover, b: Mover, c: Mover)
    ensures Precedes(order, a, b) || Precedes(order, b, a)
    ensures Precedes(order, a, b) && Precedes(order, b, c) ==> Precedes(order, a, c)
  {
  }

  method Sort(order: Order, movers: seq<Mover>) returns (s: seq<Mover>)
    ensures Sorted(order, s) && multiset(s) == multiset(movers)
  {
    hide Precedes;
    s := [];
    for i := 0 to |movers|
      invariant Sorted(order, s) && multiset(s) == multiset(movers[..i])
    {
      assert movers[..i+1] == movers[..i] + [movers[i]];
      s := Insert(order, s, movers[i]);
    }
    assert movers[..|movers|] == movers;
  }

  method Insert(order: Order, s: seq<Mover>, m: Mover) returns (t: seq<Mover>)
    requires Sorted(order, s)
    ensures Sorted(order, t) && multiset(t) == multiset(s) + multiset{m}
  {
    hide Precedes;
    var k := 0;
    while k < |s| && Precedes(order, s[k], m)
      invariant 0 <= k <= |s| && forall i :: 0 <= i < k ==> Precedes(order, s[i], m)
    {
      k := k + 1;
    }
    t := s[..k] + [m] + s[k..];
    assert s == s[..k] + s[k..];
    forall j | k <= j < |s| ensures Precedes(order, m, s[j]) {
      PrecedesTotal(order, m, s[k], s[j]);
      PrecedesTotal(order, s[k], m, m);
    }
    InsertedSorted(order, s, m, k, t);
  }

  lemma InsertedSorted(order: Order, s: seq<Mover>, m: Mover, k: nat, t: seq<Mover>)
    requires Sorted(order, s) && k <= |s| && t == s[..k] + [m] + s[k..]
    requires forall i :: 0 <= i < k ==> Precedes(order, s[i], m)
    requires forall j :: k <= j < |s| ==> Precedes(order, m, s[j])
    ensures Sorted(order, t)
  {
    hide Precedes;
    forall i, j | 0 <= i < j < |t| ensures Precedes(order, t[i], t[j]) {
      var i', j' := if i <= k then i else i - 1, if j <= k then j else j - 1;
      assert i != k ==> t[i] == s[i'];
      assert j != k ==> t[j] == s[j'];
    }
  }

  // ----- the candidates

  /** Each candidate exactly once. */
  ghost predicate Lists(x: Sketch, y: Sketch, keys: set<Key>, movers: seq<Mover>) {
    && (forall m :: m in movers ==> m.key in keys && m == MoverOf(x, y, m.key))
    && (forall k :: k in keys ==> MoverOf(x, y, k) in movers)
    && Distinct(movers)
  }

  ghost predicate Distinct(movers: seq<Mover>) {
    forall i, j :: 0 <= i < j < |movers| ==> movers[i].key != movers[j].key
  }

  /** Ranks every key either window returned, strongest possible change first. */
  method RankCandidates(x: Sketch, y: Sketch) returns (movers: seq<Mover>, untracked: Interval)
    ensures Lists(x, y, x.Frequent() + y.Frequent(), movers) && Sorted(ByStrength, movers)
    ensures untracked == Interval(-x.maxError, y.maxError)
  {
    hide MoverOf, Precedes;
    var candidates := x.Frequent() + y.Frequent();
    var items: seq<Mover> := [];
    var left := candidates;
    while left != {}
      invariant left <= candidates && Lists(x, y, candidates - left, items)
    {
      var k :| k in left;
      MoverKey(x, y, k);
      assert forall m :: m in items ==> m.key != k;
      OneLess(candidates, left, k);
      items := items + [MoverOf(x, y, k)];
      left := left - {k};
    }
    assert candidates - left == candidates;
    movers := Sort(ByStrength, items);
    SameMovers(x, y, candidates, items, movers);
    untracked := Interval(-x.maxError, y.maxError);
  }

  lemma MoverKey(x: Sketch, y: Sketch, k: Key)
    ensures MoverOf(x, y, k).key == k
  {
  }

  lemma SameMovers(x: Sketch, y: Sketch, keys: set<Key>, items: seq<Mover>, movers: seq<Mover>)
    requires Lists(x, y, keys, items) && multiset(items) == multiset(movers)
    ensures Lists(x, y, keys, movers)
  {
    hide MoverOf;
    forall m ensures m in movers <==> m in items {
      assert m in multiset(movers) <==> m in multiset(items);
    }
    assert Distinct(items);
    forall i, j | 0 <= i < j < |movers| && movers[i].key == movers[j].key ensures movers[i] == movers[j] {
      assert movers[i] in movers && movers[j] in movers;
    }
    DistinctKept(items, movers);
  }

  /** Sorting keeps keys distinct. */
  lemma DistinctKept(items: seq<Mover>, movers: seq<Mover>)
    requires Distinct(items) && multiset(items) == multiset(movers)
    requires forall i, j :: 0 <= i < j < |movers| && movers[i].key == movers[j].key ==> movers[i] == movers[j]
    ensures Distinct(movers)
  {
    forall i, j | 0 <= i < j < |movers| ensures movers[i].key != movers[j].key {
      Once(items, movers[i]);
      if movers[i] == movers[j] {
        Twice(movers, i, j);
      }
    }
  }

  lemma SameKey(items: seq<Mover>, movers: seq<Mover>)
    requires Distinct(items) && multiset(items) == multiset(movers)
    ensures Distinct(movers)
  {
    forall i, j | 0 <= i < j < |movers| && movers[i].key == movers[j].key ensures movers[i] == movers[j] {
      assert movers[i] in multiset(items) && movers[j] in multiset(items);
      var k, l :| 0 <= k < |items| && 0 <= l < |items| && items[k] == movers[i] && items[l] == movers[j];
      KeyOnce(items, k, l);
    }
    DistinctKept(items, movers);
  }

  lemma KeyOnce(s: seq<Mover>, k: nat, l: nat)
    requires Distinct(s) && k < |s| && l < |s| && s[k].key == s[l].key
    ensures k == l
  {
  }

  lemma Twice(s: seq<Mover>, i: nat, j: nat)
    requires i < j < |s| && s[i] == s[j]
    ensures multiset(s)[s[i]] >= 2
  {
    assert s == s[..j] + s[j..] && s[..j][i] == s[i] && s[j..][0] == s[j];
    assert s[i] in multiset(s[..j]) && s[i] in multiset(s[j..]);
  }

  lemma {:induction false} Once(s: seq<Mover>, m: Mover)
    requires Distinct(s)
    ensures multiset(s)[m] <= 1
  {
    if s != [] {
      var last := s[|s| - 1];
      assert s == s[..|s| - 1] + [last];
      Once(s[..|s| - 1], m);
      assert forall i :: 0 <= i < |s| - 1 ==> s[i].key != last.key;
      assert last !in s[..|s| - 1];
    }
  }

  /** What ranks earlier may have changed at least as much, either way, as anything that
      ranks later did. */
  lemma StrongestFirst(x: Sketch, y: Sketch, before: map<Key, nat>, after: map<Key, nat>, movers: seq<Mover>,
      i: nat, j: nat)
    requires Summarizes(x, before) && Summarizes(y, after) && i < j < |movers|
    requires Lists(x, y, x.Frequent() + y.Frequent(), movers) && Sorted(ByStrength, movers)
    ensures var d, change := movers[i].delta, Weight(after, movers[j].key) - Weight(before, movers[j].key);
      && (change <= d.upper || change <= -d.lower) && (-change <= d.upper || -change <= -d.lower)
  {
    assert movers[j] in movers && movers[i] in movers;
    assert Precedes(ByStrength, movers[i], movers[j]);
    ChangeBracketed(x, y, before, after, movers[j].key);
    ChangeBracketed(x, y, before, after, movers[i].key);
    hide Summarizes, Sorted, Lists;
  }

  // ----- the leading increases

  datatype Leaders = Leaders(count: nat, delta: Interval)

  /** The combined increase of up to two keys that certainly increased the most;
      `chosen` are their movers. */
  method Increase(movers: seq<Mover>, before: nat, after: nat) returns (r: Option<Leaders>, ghost chosen: seq<Mover>)
    requires Distinct(movers)
    ensures r.Some? ==> after > before && LeadersOf(movers, chosen, after, r.value)
    ensures r.None? <==> after <= before || forall m :: m in movers ==> m.delta.lower <= 0
  {
    chosen := [];
    if after <= before {
      return None, [];
    }
    var candidates := Sort(ByLower, movers);
    SameKey(movers, candidates);
    SameMembers(candidates, movers);
    var count, lo, hi;
    count, lo, hi, chosen := Choose(candidates);
    hide Sorted, SumLower, SumUpper, Distinct;
    if count == 0 {
      NoneIncreased(candidates);
      return None, chosen;
    }
    assert candidates[0] in candidates && candidates[0] == chosen[0];
    r := Some(Leaders(count, Interval(lo, if hi > after then after else hi)));
    LeadersChosen(movers, candidates, chosen, after, r.value);
  }

  lemma SameMembers(a: seq<Mover>, b: seq<Mover>)
    requires multiset(a) == multiset(b)
    ensures forall m :: m in a <==> m in b
  {
    forall m ensures m in a <==> m in b {
      assert m in multiset(a) <==> m in multiset(b);
    }
  }

  lemma NoneIncreased(s: seq<Mover>)
    requires Sorted(ByLower, s) && (s != [] ==> s[0].delta.lower <= 0)
    ensures forall m :: m in s ==> m.delta.lower <= 0
  {
    forall k | 0 <= k < |s| ensures s[k].delta.lower <= 0 {
      LowerSorted(s, 0, k);
    }
  }

  /** Takes the first two that increased, from those sorted by lower bound. */
  method Choose(candidates: seq<Mover>) returns (count: nat, lo: int, hi: int, ghost chosen: seq<Mover>)
    requires Sorted(ByLower, candidates)
    ensures count == |chosen| <= 2 && count <= |candidates| && chosen == candidates[..count]
    ensures forall c :: 0 <= c < count ==> chosen[c].delta.lower > 0
    ensures count < |candidates| && count < 2 ==> candidates[count].delta.lower <= 0
    ensures lo == SumLower(chosen) && hi == SumUpper(chosen)
  {
    hide Precedes, SumLower, SumUpper, Sorted;
    SumNone();
    count, lo, hi, chosen := 0, 0, 0, [];
    for i := 0 to |candidates|
      invariant count == |chosen| <= i && |chosen| <= 2 && chosen == candidates[..count]
      invariant forall c :: 0 <= c < count ==> chosen[c].delta.lower > 0
      invariant count < i && count < 2 ==> candidates[count].delta.lower <= 0
      invariant lo == SumLower(chosen) && hi == SumUpper(chosen)
    {
      var m := candidates[i];
      if m.delta.lower <= 0 || count == 2 {
        continue;
      }
      LowerSorted(candidates, count, i);
      assert candidates[..count + 1] == chosen + [m];
      SumMore(chosen, m);
      count, chosen, lo, hi := count + 1, chosen + [m], lo + m.delta.lower, hi + m.delta.upper;
    }
  }

  function SumLower(s: seq<Mover>): int { if s == [] then 0 else SumLower(s[..|s| - 1]) + s[|s| - 1].delta.lower }

  function SumUpper(s: seq<Mover>): int { if s == [] then 0 else SumUpper(s[..|s| - 1]) + s[|s| - 1].delta.upper }

  lemma LowerSorted(s: seq<Mover>, i: nat, j: nat)
    requires Sorted(ByLower, s) && i <= j < |s|
    ensures s[i].delta.lower >= s[j].delta.lower
  {
    if i < j {
      assert Precedes(ByLower, s[i], s[j]);
    }
  }

  /** The reported leaders: one or two movers that certainly increased, no other mover
      with a larger lower bound, and their bounds added up. */
  ghost predicate LeadersOf(movers: seq<Mover>, chosen: seq<Mover>, after: nat, r: Leaders) {
    && 1 <= r.count == |chosen| <= 2 && Distinct(chosen)
    && (forall c :: 0 <= c < |chosen| ==> chosen[c] in movers && chosen[c].delta.lower > 0)
    && (forall m :: m in movers && m !in chosen ==> NoLarger(m, chosen))
    && r.delta == Interval(SumLower(chosen), if SumUpper(chosen) > after then after else SumUpper(chosen))
  }

  predicate NoLarger(m: Mover, chosen: seq<Mover>) {
    (forall c :: 0 <= c < |chosen| ==> m.delta.lower <= chosen[c].delta.lower) && (|chosen| == 1 ==> m.delta.lower <= 0)
  }

  lemma LeadersChosen(movers: seq<Mover>, candidates: seq<Mover>, chosen: seq<Mover>, after: nat, r: Leaders)
    requires Sorted(ByLower, candidates) && Distinct(candidates) && forall m :: m in candidates <==> m in movers
    requires 1 <= |chosen| == r.count <= 2 && |chosen| <= |candidates| && chosen == candidates[..|chosen|]
    requires forall c :: 0 <= c < |chosen| ==> chosen[c].delta.lower > 0
    requires |chosen| < |candidates| && |chosen| < 2 ==> candidates[|chosen|].delta.lower <= 0
    requires r.delta == Interval(SumLower(chosen), if SumUpper(chosen) > after then after else SumUpper(chosen))
    ensures LeadersOf(movers, chosen, after, r)
  {
    hide Precedes, SumLower, SumUpper;
    forall m | m in movers && m !in chosen ensures NoLarger(m, chosen) {
      var others := candidates[|chosen|..];
      assert candidates == chosen + others && m in candidates;
      var i :| 0 <= i < |others| && others[i] == m;
      var k := |chosen| + i;
      LowerSorted(candidates, |chosen|, k);
      forall c | 0 <= c < |chosen| ensures m.delta.lower <= chosen[c].delta.lower {
        LowerSorted(candidates, c, k);
      }
    }
    forall c | 0 <= c < |chosen| ensures chosen[c] in movers {
      assert chosen[c] == candidates[c];
    }
  }

  function Change(before: map<Key, nat>, after: map<Key, nat>, k: Key): int { Weight(after, k) - Weight(before, k) }

  /** The true combined change of the movers' keys. */
  function Changes(before: map<Key, nat>, after: map<Key, nat>, movers: seq<Mover>): int {
    if movers == [] then 0 else Changes(before, after, movers[..|movers| - 1]) + Change(before, after, movers[|movers| - 1].key)
  }

  /** The reported interval brackets the true combined change of the reported keys,
      and fits a signed word, although the upper end is cut off at all recorded tokens. */
  lemma LeadersBracketed(x: Sketch, y: Sketch, before: map<Key, nat>, after: map<Key, nat>,
                         movers: seq<Mover>, chosen: seq<Mover>, tokens: nat, r: Leaders)
    requires Summarizes(x, before) && Summarizes(y, after) && y.total <= tokens <= MAX_INT64
    requires Lists(x, y, x.Frequent() + y.Frequent(), movers) && LeadersOf(movers, chosen, tokens, r)
    ensures r.delta.Has(Changes(before, after, chosen))
    ensures 0 < r.delta.lower && r.delta.upper <= MAX_INT64
  {
    var first := chosen[0];
    hide MoverOf, Summarizes;
    ChangeBracketed(x, y, before, after, first.key);
    WeightWithin(y, after, first.key, first.key);
    SumOne(chosen[..1], before, after);
    if |chosen| == 1 {
      assert chosen[..1] == chosen;
    } else {
      var second := chosen[1];
      ChangeBracketed(x, y, before, after, second.key);
      WeightWithin(y, after, first.key, second.key);
      SumTwo(chosen, before, after);
    }
  }

  lemma SumNone()
    ensures SumLower([]) == 0 && SumUpper([]) == 0
  {
  }

  lemma SumMore(s: seq<Mover>, m: Mover)
    ensures SumLower(s + [m]) == SumLower(s) + m.delta.lower && SumUpper(s + [m]) == SumUpper(s) + m.delta.upper
  {
    assert (s + [m])[..|s|] == s;
  }

  lemma SumOne(s: seq<Mover>, before: map<Key, nat>, after: map<Key, nat>)
    requires |s| == 1
    ensures SumLower(s) == s[0].delta.lower && SumUpper(s) == s[0].delta.upper
    ensures Changes(before, after, s) == Change(before, after, s[0].key)
  {
    assert s[..0] == [];
  }

  lemma SumTwo(s: seq<Mover>, before: map<Key, nat>, after: map<Key, nat>)
    requires |s| == 2
    ensures SumLower(s) == s[0].delta.lower + s[1].delta.lower && SumUpper(s) == s[0].delta.upper + s[1].delta.upper
    ensures Changes(before, after, s) == Change(before, after, s[0].key) + Change(before, after, s[1].key)
  {
    SumOne(s[..1], before, after);
  }

  /** One or two keys together weigh no more than everything. */
  lemma WeightWithin(s: Sketch, truth: map<Key, nat>, a: Key, b: Key)
    requires Summarizes(s, truth)
    ensures Weight(truth, a) <= s.total
    ensures a != b ==> Weight(truth, a) + Weight(truth, b) <= s.total
  {
    TwoWithin(truth, a, b);
    if a in truth {
      TwoWithin(truth, a, a);
    }
    hide Total;
  }

  lemma TwoWithin(m: map<Key, nat>, a: Key, b: Key)
    ensures Weight(m, a) <= Total(m)
    ensures a != b ==> Weight(m, a) + Weight(m, b) <= Total(m)
  {
    TotalNonnegative(m);
    if a in m {
      TotalPick(m, a);
      TotalNonnegative(m - {a});
      if b in m && b != a {
        TotalPick(m - {a}, b);
        TotalNonnegative(m - {a} - {b});
      }
    } else if b in m {
      TotalPick(m, b);
      TotalNonnegative(m - {b});
    }
  }

  lemma TotalNonnegative(m: map<Key, nat>)
    ensures 0 <= Total(m)
  {
    TotalMonotone(map[], m);
  }
}
