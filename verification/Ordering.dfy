/** Ranking finitely many keys in a total order. */
module Ordering {
  /** Who is ranked first: those that count, then the larger weight, then whoever came
      first. */
  datatype Rank = Rank(counts: bool, weight: real, ordinal: nat) {
    predicate Before(r: Rank) {
      if counts != r.counts then counts
      else weight > r.weight || (weight == r.weight && ordinal <= r.ordinal)
    }
  }

  function RankOf<K>(ranks: map<K, Rank>, k: K): Rank {
    if k in ranks then ranks[k] else Rank(false, 0.0, 0)
  }

  ghost predicate Distinct<K>(keys: seq<K>) {
    forall i, j :: 0 <= i < j < |keys| ==> keys[i] != keys[j]
  }

  ghost predicate Ranked<K>(ranks: map<K, Rank>, keys: seq<K>) {
    forall i, j :: 0 <= i < j < |keys| ==> RankOf(ranks, keys[i]).Before(RankOf(ranks, keys[j]))
  }

  ghost predicate Ordered<K>(ranks: map<K, Rank>, keys: seq<K>) {
    SetOf(keys) == ranks.Keys && Distinct(keys) && Ranked(ranks, keys)
  }

  ghost function SetOf<K>(keys: seq<K>): set<K> { set k | k in keys }

  lemma SetOfMore<K>(keys: seq<K>, k: K)
    ensures SetOf(keys + [k]) == SetOf(keys) + {k}
  {
  }

  /** What stands first counts if anything behind it does, and then weighs no less; of equal
      weights the one that came first stands first. */
  lemma Descends<K>(ranks: map<K, Rank>, keys: seq<K>, i: nat, j: nat)
    requires Ordered(ranks, keys) && i <= j < |keys|
    ensures keys[i] in ranks && keys[j] in ranks
    ensures ranks[keys[j]].counts ==> ranks[keys[i]].counts && ranks[keys[i]].weight >= ranks[keys[j]].weight
    ensures ranks[keys[i]].counts == ranks[keys[j]].counts && ranks[keys[i]].weight == ranks[keys[j]].weight ==>
              ranks[keys[i]].ordinal <= ranks[keys[j]].ordinal
  {
    assert keys[i] in SetOf(keys) && keys[j] in SetOf(keys);
    if i < j {
      assert RankOf(ranks, keys[i]).Before(RankOf(ranks, keys[j]));
    }
  }

  method Order<K(==)>(ranks: map<K, Rank>) returns (keys: seq<K>)
    ensures Ordered(ranks, keys) && |keys| == |ranks|
  {
    keys := [];
    var left := ranks.Keys;
    while left != {}
      invariant left <= ranks.Keys && SetOf(keys) == ranks.Keys - left && |keys| + |left| == |ranks|
      invariant Distinct(keys) && Ranked(ranks, keys)
      invariant forall i, k :: 0 <= i < |keys| && k in left ==> RankOf(ranks, keys[i]).Before(RankOf(ranks, k))
    {
      var first := First(ranks, left);
      assert |left - {first}| == |left| - 1;
      assert first !in SetOf(keys);
      SetOfMore(keys, first);
      keys, left := keys + [first], left - {first};
    }
  }

  method First<K(==)>(ranks: map<K, Rank>, from: set<K>) returns (first: K)
    requires from != {} && from <= ranks.Keys
    ensures first in from && forall k :: k in from ==> RankOf(ranks, first).Before(RankOf(ranks, k))
  {
    first :| first in from;
    var left := from - {first};
    while left != {}
      invariant first in from && left <= from && forall k :: k in from - left ==> RankOf(ranks, first).Before(RankOf(ranks, k))
    {
      var k :| k in left;
      left := left - {k};
      if !ranks[first].Before(ranks[k]) {
        first := k;
      }
    }
  }

  lemma NextKey<K>(keys: seq<K>, j: nat)
    requires j < |keys| && Distinct(keys)
    ensures SetOf(keys[..j+1]) == SetOf(keys[..j]) + {keys[j]} && keys[j] !in SetOf(keys[..j]) && keys[j] in SetOf(keys)
  {
    assert keys[..j+1] == keys[..j] + [keys[j]];
    assert forall i :: 0 <= i < j ==> keys[i] != keys[j];
  }

  lemma OrderedKeys<K>(ranks: map<K, Rank>, keys: seq<K>)
    requires Ordered(ranks, keys)
    ensures SetOf(keys) == ranks.Keys && Distinct(keys)
  {
  }

  function Least(a: nat, b: nat): nat { if a <= b then a else b }
}
