/** Flags on rankings: a flagged share exceeds, in truth and not only in estimate, what
    it is compared with in every baseline window. */
module ScanFlags {
  import opened Common
  import opened Rankings

  /** A baseline window's ranking, with the bound computed when it was loaded. */
  datatype Baseline = Baseline(sketch: Sketch, upper: int)

  /** No key weighs more than this: the least bound the sketch supports for all keys. */
  ghost predicate UpperIs(s: Sketch, upper: int) {
    && Min(s.total, s.maxError) <= upper
    && (forall k :: k in s.Frequent() ==> Min(s.total, s.UpperBound(k)) <= upper)
    && (upper == Min(s.total, s.maxError) || exists k :: k in s.Frequent() && upper == Min(s.total, s.UpperBound(k)))
  }

  method UpperOfAll(s: Sketch) returns (upper: int)
    ensures UpperIs(s, upper)
  {
    upper := Min(s.total, s.maxError);
    var left := s.Frequent();
    while left != {}
      invariant left <= s.Frequent() && Min(s.total, s.maxError) <= upper
      invariant forall k :: k in s.Frequent() - left ==> Min(s.total, s.UpperBound(k)) <= upper
      invariant upper == Min(s.total, s.maxError) || exists k :: k in s.Frequent() && upper == Min(s.total, s.UpperBound(k))
    {
      var k :| k in left;
      left := left - {k};
      if Min(s.total, s.UpperBound(k)) > upper {
        upper := Min(s.total, s.UpperBound(k));
      }
    }
  }

  lemma UpperBoundsAll(s: Sketch, upper: int, truth: map<Key, nat>, k: Key)
    requires Summarizes(s, truth) && UpperIs(s, upper)
    ensures Weight(truth, k) <= upper
  {
    WeightWithin(s, truth, k, k);
    assert Weight(truth, k) <= s.UpperBound(k);
    hide Summarizes;
  }

  datatype Kind = Leaders | Prompts | Errors

  datatype Flag = TopShare(key: Key) | NewlyProminent(key: Key) | ErrorSurge(key: Key)

  /** The key's certain share now exceeds every key's possible share in the window. */
  predicate ClearsAll(b: Baseline, s: Sketch, k: Key) {
    s.LowerBound(k) * b.sketch.total > b.upper * s.total
  }

  /** The key's certain share, or for errors its count, now exceeds what it can have
      been in the window. */
  predicate ClearsOwn(kind: Kind, b: Baseline, s: Sketch, k: Key) {
    var upper := Min(b.sketch.total, b.sketch.UpperBound(k));
    if kind.Errors? then s.LowerBound(k) > upper else s.LowerBound(k) * b.sketch.total > upper * s.total
  }

  predicate StrictlyAbove(lower: int, total: int, floor: real) {
    total > 0 && lower as real / total as real > floor
  }

  predicate ProminentIn(kind: Kind, base: seq<Baseline>, s: Sketch, floor: real, above: Key -> bool, k: Key) {
    && k in s.Frequent() && (kind.Errors? || StrictlyAbove(s.LowerBound(k), s.total, floor)) && above(k)
    && forall i :: 0 <= i < |base| ==> ClearsOwn(kind, base[i], s, k)
  }

  /** The key with the largest certain weight, the smallest one of equals. */
  predicate IsTop(s: Sketch, k: Key) {
    && k in s.Frequent() && s.LowerBound(k) > 0
    && forall j :: j in s.Frequent() ==> AtLeast(s, k, j)
  }

  predicate AtLeast(s: Sketch, k: Key, j: Key) {
    s.LowerBound(j) < s.LowerBound(k) || (s.LowerBound(j) == s.LowerBound(k) && k <= j)
  }

  predicate TopIn(kind: Kind, base: seq<Baseline>, s: Sketch, floor: real, topAbove: bool, k: Key) {
    && kind.Leaders? && IsTop(s, k) && StrictlyAbove(s.LowerBound(k), s.total, floor) && topAbove
    && forall i :: 0 <= i < |base| ==> ClearsAll(base[i], s, k)
  }

  function Prominence(kind: Kind, k: Key): Flag { if kind.Errors? then ErrorSurge(k) else NewlyProminent(k) }

  /** Flags one measurement. The floating-point score of a candidate is taken as it
      comes; the exact comparisons decide beside it. A newly prominent key explains a
      top share, which is then not flagged twice. */
  method FlagRanking(kind: Kind, base: seq<Baseline>, s: Sketch, floor: real, topAbove: bool, above: Key -> bool)
    returns (flags: set<Flag>)
    requires floor > 0.0
    ensures forall f :: f in flags <==>
              match f
              case TopShare(k) => TopIn(kind, base, s, floor, topAbove, k) && !ProminentIn(kind, base, s, floor, above, k)
              case NewlyProminent(k) => !kind.Errors? && ProminentIn(kind, base, s, floor, above, k)
              case ErrorSurge(k) => kind.Errors? && ProminentIn(kind, base, s, floor, above, k)
  {
    hide IsTop, StrictlyAbove, ClearsAll, ClearsOwn;
    var top := FindTop(s);
    flags := {};
    if kind.Leaders? && top.Some? {
      var clears := true;
      for i := 0 to |base|
        invariant clears <==> forall j :: 0 <= j < i ==> ClearsAll(base[j], s, top.value)
      {
        clears := clears && ClearsAll(base[i], s, top.value);
      }
      if clears && topAbove && StrictlyAbove(s.LowerBound(top.value), s.total, floor) {
        flags := {TopShare(top.value)};
      }
    }
    ghost var first := flags;
    assert forall k :: TopShare(k) in first <==> TopIn(kind, base, s, floor, topAbove, k) by { OneTop(s); }
    var prominent := {};
    var left := s.Frequent();
    while left != {}
      invariant left <= s.Frequent()
      invariant forall k :: k in prominent <==> k in s.Frequent() - left && ProminentIn(kind, base, s, floor, above, k)
      invariant flags == first + set k | k in prominent :: Prominence(kind, k)
    {
      var k :| k in left;
      left := left - {k};
      var clears := FlagOwn(kind, base, s, k);
      if (kind.Errors? || StrictlyAbove(s.LowerBound(k), s.total, floor)) && clears && above(k) {
        MoreProminent(kind, prominent, k);
        prominent, flags := prominent + {k}, flags + {Prominence(kind, k)};
      }
    }
    flags := set f | f in flags && !(f.TopShare? && NewlyProminent(f.key) in flags);
    hide TopIn, ProminentIn;
    FlagsAre(kind, first, prominent, flags);
  }

  lemma MoreProminent(kind: Kind, prominent: set<Key>, k: Key)
    ensures (set j | j in prominent + {k} :: Prominence(kind, j)) == (set j | j in prominent :: Prominence(kind, j)) + {Prominence(kind, k)}
  {
  }

  lemma FlagsAre(kind: Kind, first: set<Flag>, prominent: set<Key>, flags: set<Flag>)
    requires forall f :: f in first ==> f.TopShare?
    requires first != {} ==> kind.Leaders?
    requires var all := first + set k | k in prominent :: Prominence(kind, k);
      flags == set f | f in all && !(f.TopShare? && NewlyProminent(f.key) in all)
    ensures forall f :: f in flags <==>
              match f
              case TopShare(k) => f in first && k !in prominent
              case NewlyProminent(k) => !kind.Errors? && k in prominent
              case ErrorSurge(k) => kind.Errors? && k in prominent
  {
    var all := first + set k | k in prominent :: Prominence(kind, k);
    forall k ensures Prominence(kind, k) in all <==> k in prominent {
      if k in prominent {
        assert Prominence(kind, k) in set j | j in prominent :: Prominence(kind, j);
      }
    }
    forall k ensures NewlyProminent(k) in all <==> !kind.Errors? && k in prominent {
      assert !kind.Errors? ==> NewlyProminent(k) == Prominence(kind, k);
    }
    forall k ensures ErrorSurge(k) in all <==> kind.Errors? && k in prominent {
      assert kind.Errors? ==> ErrorSurge(k) == Prominence(kind, k);
    }
  }

  method FlagOwn(kind: Kind, base: seq<Baseline>, s: Sketch, k: Key) returns (clears: bool)
    ensures clears <==> forall i :: 0 <= i < |base| ==> ClearsOwn(kind, base[i], s, k)
  {
    clears := true;
    for i := 0 to |base|
      invariant clears <==> forall j :: 0 <= j < i ==> ClearsOwn(kind, base[j], s, k)
    {
      clears := clears && ClearsOwn(kind, base[i], s, k);
    }
  }

  method FindTop(s: Sketch) returns (top: Option<Key>)
    ensures top.Some? ==> IsTop(s, top.value)
    ensures top.None? ==> forall k :: k in s.Frequent() ==> s.LowerBound(k) <= 0
  {
    top := None;
    var left := s.Frequent();
    while left != {}
      invariant left <= s.Frequent()
      invariant top.None? ==> forall k :: k in s.Frequent() - left ==> s.LowerBound(k) <= 0
      invariant top.Some? ==> top.value in s.Frequent() && s.LowerBound(top.value) > 0
      invariant top.Some? ==> forall j :: j in s.Frequent() - left ==> AtLeast(s, top.value, j)
    {
      var k :| k in left;
      left := left - {k};
      if s.LowerBound(k) > 0
         && (top.None? || s.LowerBound(k) > s.LowerBound(top.value) || (s.LowerBound(k) == s.LowerBound(top.value) && k < top.value)) {
        forall j | j in s.Frequent() - left ensures AtLeast(s, k, j) {
          assert top.Some? && j != k ==> AtLeast(s, top.value, j);
        }
        top := Some(k);
      }
    }
  }

  lemma OneTop(s: Sketch)
    ensures forall a, b :: IsTop(s, a) && IsTop(s, b) ==> a == b
    ensures forall a :: IsTop(s, a) ==> a in s.Frequent() && s.LowerBound(a) > 0
  {
  }

  // ----- what a flag says about the true weights

  lemma Product(a: int, b: int, c: int)
    requires a <= b && 0 <= c
    ensures a * c <= b * c
  {
  }

  /** A baseline window's true weights are within what its ranking says of them. */
  ghost predicate Records(b: Baseline, past: map<Key, nat>) {
    Summarizes(b.sketch, past) && UpperIs(b.sketch, b.upper)
  }

  lemma ClearsAllTrue(b: Baseline, s: Sketch, truth: map<Key, nat>, past: map<Key, nat>, top: Key, k: Key)
    requires Summarizes(s, truth) && Records(b, past) && ClearsAll(b, s, top)
    ensures Weight(past, k) * s.total < Weight(truth, top) * b.sketch.total
  {
    UpperBoundsAll(b.sketch, b.upper, past, k);
    WeightWithin(s, truth, top, top);
    WeightWithin(b.sketch, past, k, k);
    assert s.LowerBound(top) <= Weight(truth, top);
    Product(Weight(past, k), b.upper, s.total);
    Product(s.LowerBound(top), Weight(truth, top), b.sketch.total);
    hide Summarizes, UpperIs;
  }

  lemma ClearsOwnTrue(kind: Kind, b: Baseline, s: Sketch, truth: map<Key, nat>, past: map<Key, nat>, k: Key)
    requires Summarizes(s, truth) && Summarizes(b.sketch, past) && ClearsOwn(kind, b, s, k)
    ensures if kind.Errors? then Weight(past, k) < Weight(truth, k)
            else Weight(past, k) * s.total < Weight(truth, k) * b.sketch.total
  {
    WeightWithin(s, truth, k, k);
    WeightWithin(b.sketch, past, k, k);
    assert s.LowerBound(k) <= Weight(truth, k) && Weight(past, k) <= b.sketch.UpperBound(k);
    Product(Weight(past, k), Min(b.sketch.total, b.sketch.UpperBound(k)), s.total);
    Product(s.LowerBound(k), Weight(truth, k), b.sketch.total);
    hide Summarizes;
  }

  lemma ShareAbove(part: real, total: real, floor: real)
    requires total > 0.0 && part / total > floor
    ensures part > floor * total
  {
    var share := part / total;
    assert share * total == part;
    assert (share - floor) * total > 0.0;
  }

  lemma FloorTrue(s: Sketch, truth: map<Key, nat>, floor: real, k: Key)
    requires Summarizes(s, truth) && StrictlyAbove(s.LowerBound(k), s.total, floor)
    ensures s.total > 0 && Weight(truth, k) as real > floor * s.total as real
  {
    WeightWithin(s, truth, k, k);
    ShareAbove(s.LowerBound(k) as real, s.total as real, floor);
    hide Summarizes;
  }

  /** A key flagged as top share is, in truth, above the floor, and its share strictly
      exceeds the share of every key in every baseline window (shares compared by
      cross-multiplication). */
  lemma TopShareTrue(kind: Kind, base: seq<Baseline>, s: Sketch, floor: real, topAbove: bool, top: Key,
      truth: map<Key, nat>, pasts: seq<map<Key, nat>>)
    requires TopIn(kind, base, s, floor, topAbove, top)
    requires Summarizes(s, truth) && |pasts| == |base| && forall i :: 0 <= i < |base| ==> Records(base[i], pasts[i])
    ensures s.total > 0 && Weight(truth, top) as real > floor * s.total as real
    ensures forall i, k :: 0 <= i < |base| ==> Weight(pasts[i], k) * s.total < Weight(truth, top) * base[i].sketch.total
  {
    hide Summarizes, UpperIs, IsTop, StrictlyAbove, Weight;
    FloorTrue(s, truth, floor, top);
    forall i, k | 0 <= i < |base| ensures Weight(pasts[i], k) * s.total < Weight(truth, top) * base[i].sketch.total {
      ClearsAllTrue(base[i], s, truth, pasts[i], top, k);
    }
  }

  /** A newly prominent key is, in truth, above the floor, and its share strictly exceeds
      its own in every baseline window; an error surge exceeds its own count. */
  lemma ProminenceTrue(kind: Kind, base: seq<Baseline>, s: Sketch, floor: real, above: Key -> bool, k: Key,
      truth: map<Key, nat>, pasts: seq<map<Key, nat>>)
    requires ProminentIn(kind, base, s, floor, above, k)
    requires Summarizes(s, truth) && |pasts| == |base| && forall i :: 0 <= i < |base| ==> Summarizes(base[i].sketch, pasts[i])
    ensures !kind.Errors? ==> s.total > 0 && Weight(truth, k) as real > floor * s.total as real
    ensures forall i :: 0 <= i < |base| ==>
              if kind.Errors? then Weight(pasts[i], k) < Weight(truth, k)
              else Weight(pasts[i], k) * s.total < Weight(truth, k) * base[i].sketch.total
  {
    hide Summarizes, StrictlyAbove, Weight;
    if !kind.Errors? {
      FloorTrue(s, truth, floor, k);
    }
    forall i | 0 <= i < |base|
      ensures if kind.Errors? then Weight(pasts[i], k) < Weight(truth, k)
              else Weight(pasts[i], k) * s.total < Weight(truth, k) * base[i].sketch.total
    {
      ClearsOwnTrue(kind, base[i], s, truth, pasts[i], k);
    }
  }

  // ----- what must be flagged

  /** A sketch that knows every key's weight: nothing was lost. */
  ghost predicate Exact(s: Sketch, truth: map<Key, nat>) {
    && Summarizes(s, truth) && s.maxError == 0
    && forall k :: s.LowerBound(k) == Weight(truth, k) == s.UpperBound(k)
  }

  lemma ExactFacts(s: Sketch, truth: map<Key, nat>, k: Key)
    requires Exact(s, truth)
    ensures s.LowerBound(k) == Weight(truth, k) == s.UpperBound(k) <= s.total
    ensures k in s.Frequent() <==> Weight(truth, k) > 0
  {
    WeightWithin(s, truth, k, k);
    assert s.LowerBound(k) == Weight(truth, k) == s.UpperBound(k);
  }

  /** The bound computed for all keys is the largest weight. */
  lemma ExactUpper(b: Baseline, past: map<Key, nat>)
    requires Exact(b.sketch, past) && UpperIs(b.sketch, b.upper)
    ensures b.upper == 0 || exists k :: b.upper == Weight(past, k)
  {
    ExactFacts(b.sketch, past, 0);
    if b.upper != Min(b.sketch.total, b.sketch.maxError) {
      var k :| k in b.sketch.Frequent() && b.upper == Min(b.sketch.total, b.sketch.UpperBound(k));
      ExactFacts(b.sketch, past, k);
    }
    hide Summarizes;
  }

  /** If nothing was lost, the heaviest key is flagged as top share whenever its share is
      above the floor and exceeds the share of every key in every baseline window. */
  lemma TopShareComplete(base: seq<Baseline>, s: Sketch, floor: real, top: Key, truth: map<Key, nat>,
      pasts: seq<map<Key, nat>>)
    requires Exact(s, truth) && |pasts| == |base|
    requires forall i :: 0 <= i < |base| ==> Exact(base[i].sketch, pasts[i]) && UpperIs(base[i].sketch, base[i].upper)
    requires Weight(truth, top) > 0 && s.total > 0 && Weight(truth, top) as real > floor * s.total as real
    requires forall k :: Weight(truth, k) < Weight(truth, top) || (Weight(truth, k) == Weight(truth, top) && top <= k)
    requires forall i, k :: 0 <= i < |base| ==> Weight(pasts[i], k) * s.total < Weight(truth, top) * base[i].sketch.total
    ensures TopIn(Kind.Leaders, base, s, floor, true, top)
  {
    hide Summarizes, UpperIs, Weight;
    ExactFacts(s, truth, top);
    forall j | j in s.Frequent() ensures AtLeast(s, top, j) {
      ExactFacts(s, truth, j);
    }
    AboveShare(Weight(truth, top) as real, s.total as real, floor);
    forall i | 0 <= i < |base| ensures ClearsAll(base[i], s, top) {
      ExactUpper(base[i], pasts[i]);
      NoOneWeighs(pasts[i], s.total, Weight(truth, top) * base[i].sketch.total);
      if base[i].upper != 0 {
        var k :| base[i].upper == Weight(pasts[i], k);
        assert Weight(pasts[i], k) * s.total < Weight(truth, top) * base[i].sketch.total;
      }
    }
  }

  /** Where every key's weight is too small, so is none at all. */
  lemma NoOneWeighs(past: map<Key, nat>, total: int, bound: int)
    requires total > 0 && forall k :: Weight(past, k) * total < bound
    ensures 0 < bound
  {
    Product(0, Weight(past, 0), total);
  }

  lemma AboveShare(part: real, total: real, floor: real)
    requires total > 0.0 && part > floor * total
    ensures part / total > floor
  {
    var share := part / total;
    assert share * total == part;
    assert (share - floor) * total > 0.0;
  }

  /** If nothing was lost, a key with a high enough score is prominent whenever its share is
      above the floor and exceeds its own in every baseline window, or for errors its count
      does. */
  lemma ProminenceComplete(kind: Kind, base: seq<Baseline>, s: Sketch, floor: real, above: Key -> bool, k: Key,
      truth: map<Key, nat>, pasts: seq<map<Key, nat>>)
    requires Exact(s, truth) && |pasts| == |base| && forall i :: 0 <= i < |base| ==> Exact(base[i].sketch, pasts[i])
    requires Weight(truth, k) > 0 && above(k)
    requires kind.Errors? || Weight(truth, k) as real > floor * s.total as real
    requires forall i :: 0 <= i < |base| ==>
               if kind.Errors? then Weight(pasts[i], k) < Weight(truth, k)
               else Weight(pasts[i], k) * s.total < Weight(truth, k) * base[i].sketch.total
    ensures ProminentIn(kind, base, s, floor, above, k)
  {
    hide Summarizes, Weight;
    ExactFacts(s, truth, k);
    if !kind.Errors? {
      AboveShare(Weight(truth, k) as real, s.total as real, floor);
    }
    forall i | 0 <= i < |base| ensures ClearsOwn(kind, base[i], s, k) {
      assert Exact(base[i].sketch, pasts[i]);
      ExactFacts(base[i].sketch, pasts[i], k);
    }
  }
}
