/** Exact duplicate detection over request digests kept in fixed-size blocks. */
module Duplicates {
  import opened Common

  const BLOCK: nat := 0x8000

  /** A digest, ordered as its bytes are. */
  type Digest = int

  function Flat(blocks: seq<seq<Digest>>): seq<Digest> {
    if blocks == [] then [] else blocks[0] + Flat(blocks[1..])
  }

  /** Every block but the last is full, and the last one is not empty. */
  predicate Blocked(blocks: seq<seq<Digest>>) {
    && (forall b :: 0 <= b < |blocks| - 1 ==> |blocks[b]| == BLOCK)
    && (blocks != [] ==> 0 < |blocks[|blocks| - 1]| <= BLOCK)
  }

  function Count(blocks: seq<seq<Digest>>): nat {
    if blocks == [] then 0 else (|blocks| - 1) * BLOCK + |blocks[|blocks| - 1]|
  }

  lemma {:induction false} FlatAppend(a: seq<seq<Digest>>, b: seq<seq<Digest>>)
    ensures Flat(a + b) == Flat(a) + Flat(b)
  {
    if a == [] {
      assert a + b == b;
    } else {
      assert (a + b)[1..] == a[1..] + b;
      FlatAppend(a[1..], b);
      Append3(a[0], Flat(a[1..]), Flat(b));
    }
  }

  lemma FlatOne(s: seq<Digest>)
    ensures Flat([s]) == s
  {
    AppendNil(s);
  }

  lemma {:induction false} FlatLength(blocks: seq<seq<Digest>>)
    requires Blocked(blocks)
    ensures |Flat(blocks)| == Count(blocks)
  {
    if |blocks| == 1 {
      assert blocks == [blocks[0]];
      FlatOne(blocks[0]);
    } else if blocks != [] {
      RestBlocked(blocks);
      FlatLength(blocks[1..]);
    }
  }

  lemma RestBlocked(blocks: seq<seq<Digest>>)
    requires Blocked(blocks) && |blocks| > 1
    ensures Blocked(blocks[1..]) && |blocks[0]| == BLOCK
  {
    var rest := blocks[1..];
    forall b | 0 <= b < |rest| - 1 ensures |rest[b]| == BLOCK {
      assert rest[b] == blocks[b + 1];
    }
    assert rest[|rest| - 1] == blocks[|blocks| - 1];
  }

  /** Index arithmetic reaches the digest in place `i`. */
  lemma {:induction false} FlatAt(blocks: seq<seq<Digest>>, i: nat)
    requires Blocked(blocks) && i < Count(blocks)
    ensures i / BLOCK < |blocks| && i % BLOCK < |blocks[i / BLOCK]| && i < |Flat(blocks)|
    ensures Flat(blocks)[i] == blocks[i / BLOCK][i % BLOCK]
  {
    FlatLength(blocks);
    if |blocks| == 1 {
      assert blocks == [blocks[0]];
      FlatOne(blocks[0]);
    } else {
      RestBlocked(blocks);
      if i >= BLOCK {
        FlatAt(blocks[1..], i - BLOCK);
        assert (i - BLOCK) / BLOCK == i / BLOCK - 1 && (i - BLOCK) % BLOCK == i % BLOCK;
      }
    }
  }

  /** Replacing one digest in its block replaces it in place. */
  lemma FlatUpdate(blocks: seq<seq<Digest>>, i: nat, h: Digest)
    requires Blocked(blocks) && i < Count(blocks) && i / BLOCK < |blocks| && i % BLOCK < |blocks[i / BLOCK]|
    ensures var next := blocks[i / BLOCK := blocks[i / BLOCK][i % BLOCK := h]];
      Blocked(next) && Count(next) == Count(blocks) == |Flat(blocks)| && Flat(next) == Flat(blocks)[i := h]
  {
    var next := blocks[i / BLOCK := blocks[i / BLOCK][i % BLOCK := h]];
    FlatLength(blocks);
    FlatLength(next);
    forall j | 0 <= j < Count(blocks) ensures Flat(next)[j] == Flat(blocks)[i := h][j] {
      FlatAt(blocks, j);
      FlatAt(next, j);
      SamePlace(i, j);
    }
  }

  lemma SamePlace(i: nat, j: nat)
    ensures i / BLOCK == j / BLOCK && i % BLOCK == j % BLOCK ==> i == j
  {
  }

  predicate Sorted(s: seq<Digest>) {
    forall i, j :: 0 <= i < j < |s| ==> s[i] <= s[j]
  }

  predicate Repeats(s: seq<Digest>) {
    exists i, j :: 0 <= i < j < |s| && s[i] == s[j]
  }

  class RequestDigests {
    var blocks: seq<seq<Digest>>

    ghost predicate Valid()
      reads this
    {
      Blocked(blocks)
    }

    /** All digests in the order they were added. */
    ghost function Contents(): seq<Digest>
      reads this
    {
      Flat(blocks)
    }

    constructor ()
      ensures Valid() && Contents() == []
    {
      blocks := [];
    }

    method Add(h: Digest)
      requires Valid()
      modifies this
      ensures Valid() && Contents() == old(Contents()) + [h]
    {
      var last: seq<Digest> := if blocks == [] then [] else blocks[|blocks| - 1];
      if blocks == [] || |last| == BLOCK {
        FlatAppend(blocks, [[h]]);
        FlatOne([h]);
        blocks := blocks + [[h]];
      } else {
        var full := blocks[..|blocks| - 1];
        assert blocks == full + [last];
        FlatAppend(full, [last]);
        FlatAppend(full, [last + [h]]);
        FlatOne(last);
        FlatOne(last + [h]);
        Append3(Flat(full), last, [h]);
        blocks := full + [last + [h]];
      }
    }

    method Len() returns (n: nat)
      requires Valid()
      ensures n == |Contents()|
    {
      FlatLength(blocks);
      n := if blocks == [] then 0 else (|blocks| - 1) * BLOCK + |blocks[|blocks| - 1]|;
    }

    method At(i: nat) returns (h: Digest)
      requires Valid() && i < |Contents()|
      ensures h == Contents()[i]
    {
      FlatLength(blocks);
      FlatAt(blocks, i);
      h := blocks[i / BLOCK][i % BLOCK];
    }

    method Set(i: nat, h: Digest)
      requires Valid() && i < |Contents()|
      modifies this
      ensures Valid() && Contents() == old(Contents())[i := h]
    {
      FlatLength(blocks);
      FlatAt(blocks, i);
      FlatUpdate(blocks, i, h);
      blocks := blocks[i / BLOCK := blocks[i / BLOCK][i % BLOCK := h]];
    }

    /** Swaps two digests in place. */
    method Swap(i: nat, j: nat)
      requires Valid() && i < |Contents()| && j < |Contents()|
      modifies this
      ensures Valid() && Contents() == old(Contents())[i := old(Contents())[j]][j := old(Contents())[i]]
      ensures multiset(Contents()) == multiset(old(Contents()))
    {
      var a := At(i);
      var b := At(j);
      Set(i, b);
      Set(j, a);
    }

    /** Sorts in place by swaps. */
    method Sort()
      requires Valid()
      modifies this
      ensures Valid() && Sorted(Contents()) && multiset(Contents()) == multiset(old(Contents()))
    {
      hide Blocked, Flat;
      var n := Len();
      for i := 0 to n
        invariant Valid() && |Contents()| == n && multiset(Contents()) == multiset(old(Contents()))
        invariant Sorted(Contents()[..i])
        invariant forall a, b :: 0 <= a < i <= b < n ==> Contents()[a] <= Contents()[b]
      {
        var least := Least(i, n);
        ghost var before := Contents();
        Swap(i, least);
        Placed(before, Contents(), i, least);
      }
      assert Contents()[..n] == Contents();
    }

    method Least(i: nat, n: nat) returns (k: nat)
      requires Valid() && i < n == |Contents()|
      ensures i <= k < n && forall b :: i <= b < n ==> Contents()[k] <= Contents()[b]
    {
      k := i;
      for j := i + 1 to n
        invariant i <= k < j && forall b :: i <= b < j ==> Contents()[k] <= Contents()[b]
      {
        var x := At(j);
        var y := At(k);
        if x < y {
          k := j;
        }
      }
    }

    /** Looks for equal neighbours. */
    method Adjacent() returns (r: bool)
      requires Valid() && Sorted(Contents())
      ensures r <==> Repeats(Contents())
    {
      hide Blocked, Flat;
      var n := Len();
      var i := 1;
      while i < n
        invariant 1 <= i && (n > 0 ==> i <= n) && forall j :: 1 <= j < i && j < n ==> Contents()[j - 1] < Contents()[j]
      {
        var a := At(i);
        var b := At(i - 1);
        if a == b {
          return true;
        }
        assert Contents()[i - 1] <= Contents()[i];
        i := i + 1;
      }
      Strict(Contents());
      r := false;
    }

    /** True exactly when some digest was added twice; the digests stay the same. */
    method Duplicated() returns (r: bool)
      requires Valid()
      modifies this
      ensures Valid() && multiset(Contents()) == multiset(old(Contents()))
      ensures r <==> Repeats(old(Contents()))
    {
      hide Blocked, Flat, Repeats, Sorted;
      ghost var before := Contents();
      Sort();
      SameRepeats(before, Contents());
      r := Adjacent();
    }
  }

  lemma SameRepeats(s: seq<Digest>, t: seq<Digest>)
    requires multiset(s) == multiset(t)
    ensures Repeats(s) <==> Repeats(t)
  {
    RepeatsAsMultiset(s);
    RepeatsAsMultiset(t);
  }

  /** The least of the rest is put in place. */
  lemma Placed(s: seq<Digest>, t: seq<Digest>, i: nat, k: nat)
    requires i <= k < |s| && t == s[i := s[k]][k := s[i]]
    requires Sorted(s[..i]) && forall a, b :: 0 <= a < i <= b < |s| ==> s[a] <= s[b]
    requires forall b :: i <= b < |s| ==> s[k] <= s[b]
    ensures Sorted(t[..i+1]) && forall a, b :: 0 <= a < i + 1 <= b < |t| ==> t[a] <= t[b]
  {
    assert t[i] == s[k];
    forall a, b | 0 <= a < b < i + 1 ensures t[a] <= t[b] {
      if b < i {
        assert s[..i][a] <= s[..i][b];
      }
    }
    forall a, b | 0 <= a < i + 1 <= b < |t| ensures t[a] <= t[b] {
      assert t[b] == s[b] || t[b] == s[i];
    }
  }

  lemma Strict(s: seq<Digest>)
    requires forall j :: 1 <= j < |s| ==> s[j - 1] < s[j]
    ensures !Repeats(s)
  {
    forall i, j | 0 <= i < j < |s| ensures s[i] < s[j] {
      Increasing(s, i, j);
    }
  }

  lemma {:induction false} Increasing(s: seq<Digest>, i: nat, j: nat)
    requires i < j < |s| && forall k :: 1 <= k < |s| ==> s[k - 1] < s[k]
    ensures s[i] < s[j]
  {
    if i < j - 1 {
      Increasing(s, i, j - 1);
    }
  }

  /** Repetition does not depend on the order. */
  lemma RepeatsAsMultiset(s: seq<Digest>)
    ensures Repeats(s) <==> exists h :: multiset(s)[h] >= 2
  {
    if i, j :| 0 <= i < j < |s| && s[i] == s[j] {
      Twice(s, i, j);
    }
    if h :| multiset(s)[h] >= 2 {
      Occurrences(s, h);
    }
  }

  lemma Twice(s: seq<Digest>, i: nat, j: nat)
    requires i < j < |s| && s[i] == s[j]
    ensures multiset(s)[s[i]] >= 2
  {
    assert s == s[..j] + s[j..] && s[..j][i] == s[i] && s[j..][0] == s[j];
    assert s[i] in multiset(s[..j]) && s[i] in multiset(s[j..]);
  }

  lemma {:induction false} Occurrences(s: seq<Digest>, h: Digest)
    requires multiset(s)[h] >= 2
    ensures Repeats(s)
  {
    var n := |s| - 1;
    assert s == s[..n] + [s[n]];
    if s[n] == h {
      assert h in multiset(s[..n]) && h in s[..n];
      var i :| 0 <= i < n && s[i] == h;
      assert s[i] == s[n];
    } else {
      Occurrences(s[..n], h);
      var i, j :| 0 <= i < j < n && s[..n][i] == s[..n][j];
      assert s[i] == s[j];
    }
  }
}
