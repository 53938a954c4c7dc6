/** The session report: the period, clipped sessions, counts and nearest ranks. */
module SessionReport {
  import opened Common
  import opened Ordering
  import opened Sessions

  // ----- the period

  const DAY: int := 86_400_000_000_000

  function DayOf(t: int): int { t / DAY * DAY }

  /** The period option as it is read: left out, not a period, or one. */
  datatype Choice = Automatic | Malformed | Chosen(period: Period)

  /** The first and the last start time of the file's rows. */
  datatype Span = Span(first: int, last: int)

  /** A chosen period that has ended. Without one, the whole days inside the file's span,
      or the span itself when it holds no whole day. Times are nanoseconds. */
  method SessionPeriod(choice: Choice, span: Option<Span>, now: int) returns (p: Option<Period>)
    requires span.Some? ==> span.value.first <= span.value.last
    ensures choice.Malformed? || (choice.Automatic? && span.None?) ==> p == None
    ensures choice.Chosen? ==> p == if choice.period.end > now then None else Some(choice.period)
    ensures choice.Automatic? && span.Some? ==> SpanPeriod(span.value, now, p)
  {
    hide SpanPeriod;
    match choice
    case Malformed =>
      p := None;
    case Chosen(period) =>
      p := if period.end > now then None else Some(period);
    case Automatic =>
      if span.None? {
        return None;
      }
      p := AutomaticPeriod(span.value.first, span.value.last, now);
  }

  /** Inside the span: all whole days that have passed, if there is one. */
  ghost predicate SpanPeriod(span: Span, now: int, p: Option<Period>) {
    var first, last := span.first, span.last;
    && (p.Some? ==> p.value.start < p.value.end && first <= p.value.start && p.value.end <= last + 1)
    && (HoldsDay(first, last, now) ==> p.Some? && AllDays(p.value, first, last, now))
    && (!HoldsDay(first, last, now) ==> p == if last > now then None else Some(Period(first, last + 1)))
  }

  method AutomaticPeriod(first: int, last: int, now: int) returns (p: Option<Period>)
    requires first <= last
    ensures SpanPeriod(Span(first, last), now, p)
  {
    hide DayOf, HoldsDay, AllDays, PassedDay;
    var start := DayOf(first);
    if start != first {
      start := start + DAY;
    }
    var end := DayOf(last);
    if end > DayOf(now) {
      end := DayOf(now);
    }
    DaysHeld(first, last, now, start, end);
    if start >= end {
      if last > now {
        return None;
      }
      return Some(Period(first, last + 1));
    }
    return Some(Period(start, end));
  }

  lemma DayFacts(t: int)
    ensures DayOf(t) <= t < DayOf(t) + DAY
    ensures DayOf(DayOf(t)) == DayOf(t) && DayOf(DayOf(t) + DAY) == DayOf(t) + DAY
  {
  }

  /** Days begin a whole number of days apart. */
  lemma DaysApart(d: int, e: int)
    requires d == DayOf(d) && e == DayOf(e) && d < e
    ensures d + DAY <= e && DayOf(d + DAY) == d + DAY
  {
  }

  lemma DaysHeld(first: int, last: int, now: int, start: int, end: int)
    requires start == if DayOf(first) == first then first else DayOf(first) + DAY
    requires end == if DayOf(last) > DayOf(now) then DayOf(now) else DayOf(last)
    ensures HoldsDay(first, last, now) <==> start < end
    ensures start < end ==> AllDays(Period(start, end), first, last, now) && first <= start && end <= last
  {
    hide DayOf;
    DayFacts(first);
    DayFacts(last);
    DayFacts(now);
    if HoldsDay(first, last, now) {
      var d :| PassedDay(d, first, last, now);
      DayFacts(d);
      if d < start {
        DaysApart(DayOf(first), d);
      }
      if end < d + DAY {
        DaysApart(end, d + DAY);
      }
    }
    if start < end {
      DaysApart(start, end);
      assert PassedDay(start, first, last, now);
    }
  }

  /** A whole day inside the span that has passed. */
  predicate PassedDay(d: int, first: int, last: int, now: int) {
    d == DayOf(d) && first <= d && d + DAY <= last && d + DAY <= now
  }

  ghost predicate HoldsDay(first: int, last: int, now: int) {
    exists d :: PassedDay(d, first, last, now)
  }

  /** Whole days, all those of the span that have passed. */
  predicate AllDays(p: Period, first: int, last: int, now: int) {
    && p.start == DayOf(p.start) && p.end == DayOf(p.end) && p.end <= now
    && p.start < first + DAY && (p.end + DAY > last || p.end + DAY > now)
  }

  // ----- clipped sessions

  /** Some row outside the period has the session's ID. */
  ghost predicate SharedOutside(rows: seq<Row>, p: Period, id: nat) {
    exists k :: 0 <= k < |rows| && !p.Contains(rows[k].time) && rows[k].session == Some(id)
  }

  function MarkedState(s: State, clipped: bool): State { s.(clipped := clipped) }

  /** Rows outside the period are only looked for if the file's span leaves it; a
      session is clipped exactly when such a row shares its ID. */
  method MarkClipped(rows: seq<Row>, p: Period, states: map<nat, State>, first: int, last: int)
    returns (marked: map<nat, State>)
    requires forall k :: 0 <= k < |rows| ==> first <= rows[k].time <= last
    requires forall id :: id in states ==> !states[id].clipped
    ensures marked.Keys == states.Keys
    ensures forall id :: id in states ==> marked[id] == MarkedState(states[id], SharedOutside(rows, p, id))
  {
    marked := states;
    if first < p.start || !(last < p.end) {
      for i := 0 to |rows|
        invariant marked.Keys == states.Keys
        invariant forall id :: id in states ==> marked[id] == MarkedState(states[id], SharedOutside(rows[..i], p, id))
      {
        var r := rows[i];
        forall id: nat
          ensures SharedOutside(rows[..i+1], p, id) <==>
            SharedOutside(rows[..i], p, id) || (!p.Contains(r.time) && r.session == Some(id))
        {
          OutsideNext(rows, p, id, i);
        }
        if !p.Contains(r.time) && r.session.Some? && r.session.value in marked {
          marked := marked[r.session.value := marked[r.session.value].(clipped := true)];
        }
      }
      assert rows[..|rows|] == rows;
    }
  }

  lemma OutsideNext(rows: seq<Row>, p: Period, id: nat, i: nat)
    requires i < |rows|
    ensures SharedOutside(rows[..i+1], p, id) <==>
      (SharedOutside(rows[..i], p, id) || (!p.Contains(rows[i].time) && rows[i].session == Some(id)))
  {
    if SharedOutside(rows[..i], p, id) {
      var k :| 0 <= k < i && !p.Contains(rows[..i][k].time) && rows[..i][k].session == Some(id);
      assert rows[..i+1][k] == rows[..i][k];
    }
    assert rows[..i+1][i] == rows[i];
    if SharedOutside(rows[..i+1], p, id) {
      var k :| 0 <= k < i + 1 && !p.Contains(rows[..i+1][k].time) && rows[..i+1][k].session == Some(id);
      if k < i {
        assert rows[..i][k] == rows[..i+1][k];
      }
    }
  }

  ghost function Selected(rows: seq<Row>, p: Period): seq<Row> {
    if rows == [] then []
    else Selected(rows[..|rows| - 1], p) + if p.Contains(rows[|rows| - 1].time) then [rows[|rows| - 1]] else []
  }

  /** Every row was taken after the ones before it. */
  ghost predicate AllAdmitted(log: seq<Row>) {
    log == [] || (AllAdmitted(log[..|log| - 1]) && Admits(log[..|log| - 1], log[|log| - 1]))
  }

  lemma AdmittedMore(log: seq<Row>, r: Row)
    ensures AllAdmitted(log + [r]) <==> AllAdmitted(log) && Admits(log, r)
  {
    hide Admits;
    assert (log + [r])[..|log|] == log;
  }

  lemma SelectedMore(rows: seq<Row>, p: Period, i: nat)
    requires i < |rows|
    ensures var log := Selected(rows[..i], p);
      && Selected(rows[..i+1], p) == (if p.Contains(rows[i].time) then log + [rows[i]] else log)
      && (AllAdmitted(Selected(rows[..i+1], p)) <==> AllAdmitted(log) && (p.Contains(rows[i].time) ==> Admits(log, rows[i])))
  {
    hide Admits, AllAdmitted;
    assert rows[..i+1][..i] == rows[..i];
    AppendNil(Selected(rows[..i], p));
    AdmittedMore(Selected(rows[..i], p), rows[i]);
  }

  /** A row that is refused makes the whole file refused. */
  lemma {:induction false} AdmittedBefore(rows: seq<Row>, p: Period, i: nat)
    requires i <= |rows|
    ensures AllAdmitted(Selected(rows, p)) ==> AllAdmitted(Selected(rows[..i], p))
    decreases |rows|
  {
    hide AllAdmitted, Selected, Admits;
    assert rows[..|rows|] == rows;
    if i < |rows| {
      var n := |rows| - 1;
      AdmittedBefore(rows[..n], p, i);
      assert rows[..n][..i] == rows[..i];
      SelectedMore(rows, p, n);
    }
  }

  /** Reviews a whole file: the rows of the period in one pass, the others only for
      clipping. The result is the group-by of the selected rows. */
  method ReviewRows(rows: seq<Row>, p: Period, first: int, last: int)
    returns (ok: bool, r: Review, states: map<nat, State>)
    requires forall k :: 0 <= k < |rows| ==> Usable(rows[k]) && first <= rows[k].time <= last
    ensures fresh(r) && r.period == p && (ok <==> AllAdmitted(Selected(rows, p)))
    ensures ok ==> var log := Selected(rows, p);
      && r.totals == TotalsOf(log) && r.unattributed == Sum(log, Nobody) && states.Keys == IdsIn(log)
      && forall id :: id in states ==> Grouped(log, id, states[id]) && Timed(log, id, states[id])
                                       && (states[id].clipped <==> SharedOutside(rows, p, id))
  {
    r := new Review(p);
    states, ok := map[], true;
    for i := 0 to |rows|
      invariant fresh(r) && r.Valid() && r.period == p && r.log == Selected(rows[..i], p) && AllAdmitted(r.log)
    {
      assert rows[..i+1][..i] == rows[..i];
      SelectedMore(rows, p, i);
      ok := r.Add(rows[i]);
      if !ok {
        AdmittedBefore(rows, p, i + 1);
        return;
      }
    }
    assert rows[..|rows|] == rows;
    ok := true;
    ghost var log := r.log;
    forall id | id in r.states ensures Stated(log, id, r.states[id]) {
    }
    hide Grouped, Timed, SharedOutside;
    states := MarkClipped(rows, p, r.states, first, last);
    forall id | id in states ensures Grouped(log, id, states[id]) && Timed(log, id, states[id]) {
      MarkedStated(log, id, r.states[id], SharedOutside(rows, p, id));
    }
  }

  lemma MarkedStated(log: seq<Row>, id: nat, s: State, clipped: bool)
    requires Stated(log, id, s)
    ensures Grouped(log, id, MarkedState(s, clipped)) && Timed(log, id, MarkedState(s, clipped))
  {
    hide Sum, Members, FirstIs, LastIs;
  }

  // ----- counts

  datatype Flag =
    | HasCalls | RejectionOnly | UnanalyzedOnly | Singleton | Clipped | CensoredAny | CensoredCalls | CensoredSpend
    | Exceeding(cap: Option<real>) | Unrejected(cap: Option<real>) | PartlyExceeding(cap: Option<real>)
    | Spanning(window: int) | Shared | PricedCalls

  predicate Over(s: State, cap: Option<real>) { cap.Some? && s.sums.cost > cap.value }

  predicate Flagged(s: State, f: Flag) {
    match f
    case HasCalls => s.sums.calls > 0
    case RejectionOnly => s.sums.calls == 0 && s.sums.unanalyzed == 0
    case UnanalyzedOnly => s.sums.calls == 0 && s.sums.unanalyzed != 0
    case Singleton => s.sums.calls == 1
    case Clipped => s.clipped
    case CensoredAny => s.censored
    case CensoredCalls => s.censored && s.sums.calls > 0
    case CensoredSpend => s.censored && s.sums.calls > 0 && s.complete
    case Exceeding(cap) => Over(s, cap) && s.complete
    case Unrejected(cap) => Over(s, cap) && s.complete && s.sums.budget == 0
    case PartlyExceeding(cap) => Over(s, cap) && !s.complete
    case Spanning(window) => s.first.Some? && s.last.Some? && s.last.value - s.first.value > window
    case Shared => exists k :: k in s.counts && s.counts[k] > 1
    case PricedCalls => s.sums.calls > 0 && s.complete
  }

  /** The flagged sessions, in order. */
  function Pick(states: map<nat, State>, keys: seq<nat>, f: Flag): seq<nat> {
    if keys == [] then []
    else
      var k := keys[|keys| - 1];
      Pick(states, keys[..|keys| - 1], f) + if k in states && Flagged(states[k], f) then [k] else []
  }

  lemma PickMore(states: map<nat, State>, keys: seq<nat>, f: Flag, i: nat)
    requires i < |keys|
    ensures Pick(states, keys[..i+1], f) ==
      Pick(states, keys[..i], f) + if keys[i] in states && Flagged(states[keys[i]], f) then [keys[i]] else []
  {
    hide Flagged;
    assert keys[..i+1][..i] == keys[..i];
  }

  function First(s: seq<nat>, top: nat): seq<nat> { if |s| <= top then s else s[..top] }

  lemma FirstMore(s: seq<nat>, k: nat, top: nat)
    ensures First(s + [k], top) == if |First(s, top)| < top then First(s, top) + [k] else First(s, top)
  {
  }

  /** How a count moves with one more session. */
  lemma PickCount(states: map<nat, State>, keys: seq<nat>, f: Flag, i: nat)
    requires i < |keys| && keys[i] in states
    ensures |Pick(states, keys[..i+1], f)| == |Pick(states, keys[..i], f)| + One(Flagged(states[keys[i]], f))
  {
    hide Flagged, Pick;
    PickMore(states, keys, f, i);
  }

  function Ranks(states: map<nat, State>): map<nat, Rank> {
    map id | id in states :: Rank(true, states[id].sums.cost, states[id].order)
  }

  datatype Summary = Summary(sessions: nat, rejectionOnly: nat, unanalyzedOnly: nat, singletons: nat, clipped: nat, censored: nat,
                             censoredCalls: nat, censoredSpend: nat, exceeding: nat, unrejected: nat, partlyExceeding: nat,
                             spanning: nat, shared: nat, largest: seq<nat>)

  /** The counts of the sessions in `keys`, and the first few of them. */
  ghost predicate Summarizes(states: map<nat, State>, keys: seq<nat>, cap: Option<real>, window: int, top: nat,
      s: Summary) {
    && s.sessions == |Pick(states, keys, HasCalls)| && s.rejectionOnly == |Pick(states, keys, RejectionOnly)|
    && s.unanalyzedOnly == |Pick(states, keys, UnanalyzedOnly)| && s.singletons == |Pick(states, keys, Singleton)|
    && s.clipped == |Pick(states, keys, Clipped)| && s.censored == |Pick(states, keys, CensoredAny)|
    && s.censoredCalls == |Pick(states, keys, CensoredCalls)| && s.censoredSpend == |Pick(states, keys, CensoredSpend)|
    && s.exceeding == |Pick(states, keys, Exceeding(cap))| && s.unrejected == |Pick(states, keys, Unrejected(cap))|
    && s.partlyExceeding == |Pick(states, keys, PartlyExceeding(cap))|
    && s.spanning == |Pick(states, keys, Spanning(window))| && s.shared == |Pick(states, keys, Shared)|
    && s.largest == First(Pick(states, keys, HasCalls), top)
  }

  /** Every session has calls, or only rejections, or only unanalyzed rows. */
  lemma {:induction false} SessionKinds(states: map<nat, State>, keys: seq<nat>)
    requires forall k :: k in keys ==> k in states
    ensures |Pick(states, keys, HasCalls)| + |Pick(states, keys, RejectionOnly)| + |Pick(states, keys, UnanalyzedOnly)| == |keys|
    ensures |Pick(states, keys, Singleton)| <= |Pick(states, keys, HasCalls)|
  {
    if keys != [] {
      assert keys[|keys| - 1] in keys;
      SessionKinds(states, keys[..|keys| - 1]);
    }
  }

  // ----- nearest ranks

  function Below(values: seq<real>, v: real): nat {
    if values == [] then 0 else Below(values[..|values| - 1], v) + One(values[|values| - 1] < v)
  }

  function AtMost(values: seq<real>, v: real): nat {
    if values == [] then 0 else AtMost(values[..|values| - 1], v) + One(values[|values| - 1] <= v)
  }

  /** `v` is the nearest rank of percentile `p`: the smallest value that at least `p`
      percent of the values do not exceed. */
  ghost predicate NearestRank(values: seq<real>, p: nat, v: real) {
    v in values && 100 * Below(values, v) < p * |values| <= 100 * AtMost(values, v)
  }

  predicate SortedReals(s: seq<real>) {
    forall i, j :: 0 <= i < j < |s| ==> s[i] <= s[j]
  }

  lemma {:induction false} CountsAppend(a: seq<real>, b: seq<real>, v: real)
    ensures Below(a + b, v) == Below(a, v) + Below(b, v) && AtMost(a + b, v) == AtMost(a, v) + AtMost(b, v)
  {
    if b == [] {
      AppendNil(a);
    } else {
      assert (a + b)[..|a + b| - 1] == a + b[..|b| - 1];
      CountsAppend(a, b[..|b| - 1], v);
    }
  }

  lemma {:induction false} CountsRange(s: seq<real>, v: real)
    ensures Below(s, v) <= |s| && AtMost(s, v) <= |s|
    ensures (forall k :: 0 <= k < |s| ==> s[k] <= v) ==> AtMost(s, v) == |s|
    ensures (forall k :: 0 <= k < |s| ==> v <= s[k]) ==> Below(s, v) == 0
  {
    if s != [] {
      CountsRange(s[..|s| - 1], v);
    }
  }

  /** In sorted values, the value in place `k` has at most `k` below it and at least
      `k + 1` not above it. */
  lemma SortedCounts(s: seq<real>, k: nat)
    requires SortedReals(s) && k < |s|
    ensures Below(s, s[k]) <= k < AtMost(s, s[k])
  {
    hide Below, AtMost;
    var low, high := s[..k+1], s[k..];
    assert s == low + s[k+1..] && s == s[..k] + high;
    CountsAppend(low, s[k+1..], s[k]);
    CountsAppend(s[..k], high, s[k]);
    CountsRange(low, s[k]);
    CountsRange(high, s[k]);
    CountsRange(s[..k], s[k]);
  }

  method SortValues(values: seq<real>) returns (s: seq<real>)
    ensures SortedReals(s) && multiset(s) == multiset(values) && |s| == |values|
    ensures SameCounts(s, values)
  {
    hide Below, AtMost;
    s := [];
    for i := 0 to |values|
      invariant SortedReals(s) && multiset(s) == multiset(values[..i]) && |s| == i
      invariant SameCounts(s, values[..i])
    {
      assert values[..i+1] == values[..i] + [values[i]];
      var t := InsertValue(s, values[i]);
      CountsJoin(s, values[..i], values[i], t);
      s := t;
    }
    assert values[..|values|] == values;
  }

  ghost predicate SameCounts(a: seq<real>, b: seq<real>) {
    forall v :: Below(a, v) == Below(b, v) && AtMost(a, v) == AtMost(b, v)
  }

  lemma CountsJoin(s: seq<real>, values: seq<real>, x: real, t: seq<real>)
    requires SameCounts(s, values) && SameCounts(t, s + [x])
    ensures SameCounts(t, values + [x])
  {
    hide Below, AtMost;
    forall v ensures Below(t, v) == Below(values + [x], v) && AtMost(t, v) == AtMost(values + [x], v) {
      CountsAppend(s, [x], v);
      CountsAppend(values, [x], v);
    }
  }

  method InsertValue(s: seq<real>, x: real) returns (t: seq<real>)
    requires SortedReals(s)
    ensures SortedReals(t) && multiset(t) == multiset(s) + multiset{x} && |t| == |s| + 1
    ensures SameCounts(t, s + [x])
  {
    hide Below, AtMost;
    var k := 0;
    while k < |s| && s[k] <= x
      invariant 0 <= k <= |s| && forall j :: 0 <= j < k ==> s[j] <= x
    {
      k := k + 1;
    }
    t := s[..k] + [x] + s[k..];
    assert s == s[..k] + s[k..];
    forall v ensures Below(t, v) == Below(s + [x], v) && AtMost(t, v) == AtMost(s + [x], v) {
      InsertCounts(s, k, x, v);
      CountsAppend(s, [x], v);
    }
  }

  lemma InsertCounts(s: seq<real>, k: nat, x: real, v: real)
    requires k <= |s|
    ensures Below(s[..k] + [x] + s[k..], v) == Below(s, v) + Below([x], v)
    ensures AtMost(s[..k] + [x] + s[k..], v) == AtMost(s, v) + AtMost([x], v)
  {
    hide Below, AtMost;
    assert s == s[..k] + s[k..];
    CountsAppend(s[..k], s[k..], v);
    CountsAppend(s[..k] + [x], s[k..], v);
    CountsAppend(s[..k], [x], v);
  }

  datatype Distribution = Distribution(n: nat, p50: Option<real>, p95: Option<real>, max: Option<real>)

  /** `d` gives the number of values, their nearest ranks and their maximum. */
  ghost predicate Distributes(values: seq<real>, d: Distribution) {
    && d.n == |values|
    && (values == [] ==> d.p50 == d.p95 == d.max == None)
    && (values != [] ==>
          && d.p50.Some? && NearestRank(values, 50, d.p50.value) && d.p95.Some? && NearestRank(values, 95, d.p95.value)
          && d.max.Some? && d.max.value in values && forall x :: x in values ==> x <= d.max.value)
  }

  method Distribute(values: seq<real>) returns (d: Distribution)
    ensures Distributes(values, d)
  {
    if values == [] {
      return Distribution(0, None, None, None);
    }
    var s := SortValues(values);
    var n := |s|;
    Ranked(values, s, 50);
    Ranked(values, s, 95);
    forall x | x in values ensures x <= s[n - 1] {
      assert x in multiset(s);
      var k :| 0 <= k < n && s[k] == x;
    }
    assert s[n - 1] in multiset(values);
    return Distribution(n, Some(s[(n * 50 + 99) / 100 - 1]), Some(s[(n * 95 + 99) / 100 - 1]), Some(s[n - 1]));
  }

  lemma Ranked(values: seq<real>, s: seq<real>, p: nat)
    requires SortedReals(s) && s != [] && 0 < p <= 100 && multiset(s) == multiset(values) && |s| == |values|
    requires SameCounts(s, values)
    ensures var k := (|s| * p + 99) / 100 - 1; 0 <= k < |s| && NearestRank(values, p, s[k])
  {
    Places(|s|, p);
    var k := (|s| * p + 99) / 100 - 1;
    SortedCounts(s, k);
    assert s[k] in multiset(values);
  }

  lemma Places(n: nat, p: nat)
    requires n > 0 && 0 < p <= 100
    ensures var k := (n * p + 99) / 100 - 1; 0 <= k < n && 100 * k < n * p <= 100 * (k + 1)
  {
    assert 0 < n * p <= n * 100;
  }

  // ----- the summary

  /** The spend of some sessions, in order. */
  function Costs(states: map<nat, State>, ids: seq<nat>): seq<real> {
    if ids == [] then []
    else
      var k := ids[|ids| - 1];
      Costs(states, ids[..|ids| - 1]) + if k in states then [states[k].sums.cost] else []
  }

  /** Their calls. */
  function Calls(states: map<nat, State>, ids: seq<nat>): seq<real> {
    if ids == [] then []
    else
      var k := ids[|ids| - 1];
      Calls(states, ids[..|ids| - 1]) + if k in states then [states[k].sums.calls as real] else []
  }

  lemma {:induction false} ValuesOfAll(states: map<nat, State>, ids: seq<nat>)
    requires forall k :: k in ids ==> k in states
    ensures |Costs(states, ids)| == |Calls(states, ids)| == |ids|
  {
    if ids != [] {
      assert ids[|ids| - 1] in ids;
      ValuesOfAll(states, ids[..|ids| - 1]);
    }
  }

  lemma ValuesMore(states: map<nat, State>, keys: seq<nat>, i: nat)
    requires i < |keys| && keys[i] in states
    ensures var x := states[keys[i]];
      && Costs(states, Pick(states, keys[..i+1], PricedCalls))
         == Costs(states, Pick(states, keys[..i], PricedCalls)) + (if x.sums.calls > 0 && x.complete then [x.sums.cost] else [])
      && Calls(states, Pick(states, keys[..i+1], HasCalls))
         == Calls(states, Pick(states, keys[..i], HasCalls)) + (if x.sums.calls > 0 then [x.sums.calls as real] else [])
  {
    hide Pick;
    var a, b := Pick(states, keys[..i], PricedCalls), Pick(states, keys[..i], HasCalls);
    PickMore(states, keys, PricedCalls, i);
    PickMore(states, keys, HasCalls, i);
    assert (a + [keys[i]])[..|a|] == a && (b + [keys[i]])[..|b|] == b;
    AppendNil(a);
    AppendNil(b);
    AppendNil(Costs(states, a));
    AppendNil(Calls(states, b));
  }

  /** Sessions with complete spend are among those with calls. */
  lemma {:induction false} PricedAmong(states: map<nat, State>, keys: seq<nat>)
    ensures |Pick(states, keys, PricedCalls)| <= |Pick(states, keys, HasCalls)|
    ensures forall k :: k in Pick(states, keys, PricedCalls) || k in Pick(states, keys, HasCalls) ==> k in states
  {
    if keys != [] {
      PricedAmong(states, keys[..|keys| - 1]);
    }
  }

  /** The report: the counts, how many sessions over the cap have no budget rejection on
      record, if every row says so, and the distributions of spend and calls. */
  datatype SessionFigures = SessionFigures(summary: Summary, unrejected: Option<nat>, spend: Distribution, calls: Distribution)

  /** The sessions with a flag, in no order. */
  ghost function WithFlag(states: map<nat, State>, f: Flag): set<nat> {
    set k | k in states && Flagged(states[k], f)
  }

  /** Each count is a number of sessions. */
  ghost predicate CountsSessions(states: map<nat, State>, cap: Option<real>, window: int, s: Summary) {
    && s.sessions == |WithFlag(states, HasCalls)| && s.rejectionOnly == |WithFlag(states, RejectionOnly)|
    && s.unanalyzedOnly == |WithFlag(states, UnanalyzedOnly)| && s.singletons == |WithFlag(states, Singleton)|
    && s.clipped == |WithFlag(states, Clipped)| && s.censored == |WithFlag(states, CensoredAny)|
    && s.censoredCalls == |WithFlag(states, CensoredCalls)| && s.censoredSpend == |WithFlag(states, CensoredSpend)|
    && s.exceeding == |WithFlag(states, Exceeding(cap))| && s.unrejected == |WithFlag(states, Unrejected(cap))|
    && s.partlyExceeding == |WithFlag(states, PartlyExceeding(cap))|
    && s.spanning == |WithFlag(states, Spanning(window))| && s.shared == |WithFlag(states, Shared)|
  }

  ghost function Picked(states: map<nat, State>, keys: seq<nat>, f: Flag): set<nat> {
    set k | k in keys && k in states && Flagged(states[k], f)
  }

  lemma PickedMore(states: map<nat, State>, rest: seq<nat>, k: nat, f: Flag)
    requires k in states
    ensures Picked(states, rest + [k], f) == Picked(states, rest, f) + if Flagged(states[k], f) then {k} else {}
    ensures k !in rest ==> k !in Picked(states, rest, f)
  {
    hide Flagged;
  }

  lemma {:induction false} PickSet(states: map<nat, State>, keys: seq<nat>, f: Flag)
    requires Distinct(keys) && forall k :: k in keys ==> k in states
    ensures SetOf(Pick(states, keys, f)) == Picked(states, keys, f)
    ensures |Pick(states, keys, f)| == |Picked(states, keys, f)|
  {
    hide Flagged, Pick, SetOf, Picked;
    if keys == [] {
      NothingInOrder(states, keys, f);
    } else {
      var rest, last := keys[..|keys| - 1], keys[|keys| - 1];
      assert keys == rest + [last] && keys[..|keys|] == keys;
      PickSet(states, rest, f);
      PickMore(states, keys, f, |keys| - 1);
      PickedMore(states, rest, last, f);
      SetOfMore(Pick(states, rest, f), last);
      AppendNil(Pick(states, rest, f));
    }
  }

  lemma NothingInOrder(states: map<nat, State>, keys: seq<nat>, f: Flag)
    requires keys == []
    ensures Pick(states, keys, f) == [] && SetOf(Pick(states, keys, f)) == Picked(states, keys, f) == {}
  {
  }

  lemma PickMembers(states: map<nat, State>, keys: seq<nat>, f: Flag, k: nat)
    requires Distinct(keys) && forall k :: k in keys ==> k in states
    ensures k in Pick(states, keys, f) <==> k in keys && Flagged(states[k], f)
  {
    hide Flagged, Pick;
    PickSet(states, keys, f);
    assert k in Pick(states, keys, f) <==> k in SetOf(Pick(states, keys, f));
  }

  /** A count over the sorted sessions is one over all sessions. */
  lemma PickAll(states: map<nat, State>, keys: seq<nat>, f: Flag)
    requires Ordered(Ranks(states), keys)
    ensures |Pick(states, keys, f)| == |WithFlag(states, f)|
  {
    hide Flagged, Pick, Ordering.Ranked;
    SortedKeys(states, keys);
    PickSet(states, keys, f);
    assert Picked(states, keys, f) == WithFlag(states, f);
  }

  lemma SortedKeys(states: map<nat, State>, keys: seq<nat>)
    requires Ordered(Ranks(states), keys)
    ensures Distinct(keys) && forall k :: k in keys <==> k in states
    ensures forall a, b :: 0 <= a < b < |keys| ==> states[keys[a]].sums.cost >= states[keys[b]].sums.cost
  {
    forall k ensures k in keys <==> k in states {
      assert k in keys <==> k in SetOf(keys);
    }
    forall a, b | 0 <= a < b < |keys| ensures states[keys[a]].sums.cost >= states[keys[b]].sums.cost {
      Descends(Ranks(states), keys, a, b);
    }
  }

  lemma SummaryCounts(states: map<nat, State>, keys: seq<nat>, cap: Option<real>, window: int, top: nat, s: Summary)
    requires Ordered(Ranks(states), keys) && Summarizes(states, keys, cap, window, top, s)
    ensures CountsSessions(states, cap, window, s)
  {
    hide Ordered, Pick, First, WithFlag;
    PickAll(states, keys, HasCalls);
    PickAll(states, keys, RejectionOnly);
    PickAll(states, keys, UnanalyzedOnly);
    PickAll(states, keys, Singleton);
    PickAll(states, keys, Clipped);
    PickAll(states, keys, CensoredAny);
    PickAll(states, keys, CensoredCalls);
    PickAll(states, keys, CensoredSpend);
    PickAll(states, keys, Exceeding(cap));
    PickAll(states, keys, PartlyExceeding(cap));
    PickAll(states, keys, Unrejected(cap));
    PickAll(states, keys, Spanning(window));
    PickAll(states, keys, Shared);
  }

  /** Sessions with calls, of ever lower cost, and none that is left out cost more. */
  ghost predicate LargestSessions(states: map<nat, State>, top: nat, s: Summary) {
    && |s.largest| == Least(s.sessions, top) && Distinct(s.largest)
    && (forall k :: k in s.largest ==> k in states && states[k].sums.calls > 0)
    && (forall i, j :: 0 <= i < j < |s.largest| ==> states[s.largest[i]].sums.cost >= states[s.largest[j]].sums.cost)
    && (forall k, i :: k in states && states[k].sums.calls > 0 && k !in s.largest && 0 <= i < |s.largest| ==>
          states[s.largest[i]].sums.cost >= states[k].sums.cost)
  }

  /** What is picked keeps its order. */
  lemma {:induction false} PickDescends(states: map<nat, State>, keys: seq<nat>, f: Flag, i: nat, j: nat)
    requires Distinct(keys) && (forall k :: k in keys ==> k in states)
    requires forall a, b :: 0 <= a < b < |keys| ==> states[keys[a]].sums.cost >= states[keys[b]].sums.cost
    requires i < j < |Pick(states, keys, f)|
    ensures var p := Pick(states, keys, f);
      p[i] in keys && p[j] in keys && p[i] != p[j] && states[p[i]].sums.cost >= states[p[j]].sums.cost
  {
    hide Flagged;
    var rest, last := keys[..|keys| - 1], keys[|keys| - 1];
    assert keys == rest + [last] && last !in rest;
    var p, q := Pick(states, keys, f), Pick(states, rest, f);
    assert forall a :: 0 <= a < |q| ==> q[a] == p[a];
    if j < |q| {
      PickDescends(states, rest, f, i, j);
    } else {
      assert p[j] == last && p[i] in q;
      hide Pick;
      PickMembers(states, rest, f, p[i]);
      var a :| 0 <= a < |rest| && rest[a] == p[i];
      assert keys[a] == p[i];
    }
  }

  lemma SessionsDescend(states: map<nat, State>, keys: seq<nat>, cap: Option<real>, window: int, top: nat, s: Summary)
    requires Ordered(Ranks(states), keys) && Summarizes(states, keys, cap, window, top, s)
    ensures LargestSessions(states, top, s)
  {
    var p := Pick(states, keys, HasCalls);
    assert s.largest == First(p, top) && |p| == s.sessions;
    hide Summarizes, Ordered, Pick, Ranks, First;
    SortedKeys(states, keys);
    FirstOf(p, top);
    forall k ensures k in p <==> k in states && states[k].sums.calls > 0 {
      PickMembers(states, keys, HasCalls, k);
    }
    hide Flagged;
    forall i, j | 0 <= i < j < |p| ensures p[i] != p[j] && states[p[i]].sums.cost >= states[p[j]].sums.cost {
      PickDescends(states, keys, HasCalls, i, j);
    }
    forall k, i | k in states && states[k].sums.calls > 0 && k !in s.largest && 0 <= i < |s.largest|
      ensures states[s.largest[i]].sums.cost >= states[k].sums.cost
    {
      var j :| 0 <= j < |p| && p[j] == k;
      assert p[i] == s.largest[i];
    }
  }

  lemma FirstOf(p: seq<nat>, top: nat)
    ensures |First(p, top)| == Least(|p|, top) && forall i :: 0 <= i < |First(p, top)| ==> First(p, top)[i] == p[i]
    ensures forall j :: 0 <= j < |p| && p[j] !in First(p, top) ==> j >= |First(p, top)|
  {
    assert forall i :: 0 <= i < |First(p, top)| ==> First(p, top)[i] in First(p, top);
  }

  method FinishSessions(totals: Totals, states: map<nat, State>, cap: Option<real>, window: int, top: nat)
    returns (r: SessionFigures, ghost keys: seq<nat>)
    ensures Ordered(Ranks(states), keys) && Summarizes(states, keys, cap, window, top, r.summary)
    ensures CountsSessions(states, cap, window, r.summary)
    ensures LargestSessions(states, top, r.summary)
    ensures r.summary.sessions + r.summary.rejectionOnly + r.summary.unanalyzedOnly == |states|
    ensures r.unrejected == if cap.Some? && totals.classified == totals.selected
                            then Some(|Pick(states, keys, Unrejected(cap))|) else None
    ensures Distributes(Costs(states, Pick(states, keys, PricedCalls)), r.spend)
    ensures Distributes(Calls(states, Pick(states, keys, HasCalls)), r.calls)
    ensures r.spend.n <= r.calls.n == r.summary.sessions
  {
    hide Ranks, Pick, Distributes, Flagged;
    var summary, spends, calls;
    summary, spends, calls, keys := SummarizeSessions(states, cap, window, top);
    var spend := Distribute(spends);
    var called := Distribute(calls);
    PricedAmong(states, keys);
    ValuesOfAll(states, Pick(states, keys, PricedCalls));
    ValuesOfAll(states, Pick(states, keys, HasCalls));
    DistributedCount(spends, spend);
    DistributedCount(calls, called);
    SummaryCounts(states, keys, cap, window, top, summary);
    SessionsDescend(states, keys, cap, window, top, summary);
    hide CountsSessions, LargestSessions, Ordered;
    r := SessionFigures(summary, if cap.Some? && totals.classified == totals.selected then Some(summary.unrejected) else None, spend, called);
  }

  lemma DistributedCount(values: seq<real>, d: Distribution)
    requires Distributes(values, d)
    ensures d.n == |values|
  {
  }

  /** If every selected row was classified, a session without a budget rejection on record
      had none among its rows. */
  lemma {:induction false} ClassifiedMeans(log: seq<Row>)
    ensures TotalsOf(log).classified <= TotalsOf(log).selected == |log|
    ensures TotalsOf(log).classified == TotalsOf(log).selected <==> forall r :: r in log ==> !r.rejection.NoColumn?
  {
    if log != [] {
      var rest, last := log[..|log| - 1], log[|log| - 1];
      ClassifiedMeans(rest);
      assert log == rest + [last];
    }
  }

  /** Sorts the sessions and counts them one by one. */
  method SummarizeSessions(states: map<nat, State>, cap: Option<real>, window: int, top: nat)
    returns (s: Summary, spends: seq<real>, calls: seq<real>, ghost keys: seq<nat>)
    ensures Ordered(Ranks(states), keys) && Summarizes(states, keys, cap, window, top, s)
    ensures s.sessions + s.rejectionOnly + s.unanalyzedOnly == |states| && s.singletons <= s.sessions
    ensures spends == Costs(states, Pick(states, keys, PricedCalls)) && calls == Calls(states, Pick(states, keys, HasCalls))
  {
    hide Flagged, Ranks, SummaryNext, Pick, First;
    NothingValued(states);
    spends, calls := [], [];
    NothingPicked(states, cap, window, top);
    var order := Order(Ranks(states));
    keys := order;
    RankedStates(states);
    OrderedKeys(Ranks(states), order);
    s := Summary(0, 0, 0, 0, 0, 0, 0, 0, 0, 0, 0, 0, 0, []);
    for i := 0 to |order|
      invariant Summarizes(states, order[..i], cap, window, top, s)
      invariant spends == Costs(states, Pick(states, order[..i], PricedCalls))
      invariant calls == Calls(states, Pick(states, order[..i], HasCalls))
    {
      assert order[i] in SetOf(order);
      var x := states[order[i]];
      SummarizesNext(states, order, cap, window, top, i, s);
      ValuesMore(states, order, i);
      s := SummarizeOne(order[i], x, cap, window, top, s);
      if x.sums.calls > 0 {
        calls := calls + [x.sums.calls as real];
        if x.complete {
          spends := spends + [x.sums.cost];
        }
      }
    }
    assert order[..|order|] == order;
    forall k | k in order ensures k in states {
      assert k in SetOf(order);
    }
    SessionKinds(states, order);
  }

  lemma NothingValued(states: map<nat, State>)
    ensures Costs(states, Pick(states, [], PricedCalls)) == [] && Calls(states, Pick(states, [], HasCalls)) == []
  {
  }

  lemma NothingPicked(states: map<nat, State>, cap: Option<real>, window: int, top: nat)
    ensures Summarizes(states, [], cap, window, top, Summary(0, 0, 0, 0, 0, 0, 0, 0, 0, 0, 0, 0, 0, []))
  {
  }

  lemma RankedStates(states: map<nat, State>)
    ensures Ranks(states).Keys == states.Keys && |Ranks(states)| == |states|
  {
    assert |Ranks(states).Keys| == |Ranks(states)| && |states.Keys| == |states|;
    assert Ranks(states).Keys == states.Keys;
  }

  /** A summary with one more session. */
  function SummaryNext(s: Summary, k: nat, x: State, cap: Option<real>, window: int, top: nat): Summary {
    Summary(s.sessions + One(Flagged(x, HasCalls)), s.rejectionOnly + One(Flagged(x, RejectionOnly)),
            s.unanalyzedOnly + One(Flagged(x, UnanalyzedOnly)), s.singletons + One(Flagged(x, Singleton)),
            s.clipped + One(Flagged(x, Clipped)), s.censored + One(Flagged(x, CensoredAny)),
            s.censoredCalls + One(Flagged(x, CensoredCalls)), s.censoredSpend + One(Flagged(x, CensoredSpend)),
            s.exceeding + One(Flagged(x, Exceeding(cap))), s.unrejected + One(Flagged(x, Unrejected(cap))),
            s.partlyExceeding + One(Flagged(x, PartlyExceeding(cap))), s.spanning + One(Flagged(x, Spanning(window))),
            s.shared + One(Flagged(x, Shared)), if x.sums.calls > 0 && |s.largest| < top then s.largest + [k] else s.largest)
  }

  lemma SummarizesNext(states: map<nat, State>, keys: seq<nat>, cap: Option<real>, window: int, top: nat, i: nat,
      s: Summary)
    requires i < |keys| && keys[i] in states && Summarizes(states, keys[..i], cap, window, top, s)
    ensures Summarizes(states, keys[..i+1], cap, window, top, SummaryNext(s, keys[i], states[keys[i]], cap, window, top))
  {
    hide Pick, First, Flagged;
    PickCount(states, keys, HasCalls, i);
    PickCount(states, keys, RejectionOnly, i);
    PickCount(states, keys, UnanalyzedOnly, i);
    PickCount(states, keys, Singleton, i);
    PickCount(states, keys, Clipped, i);
    PickCount(states, keys, CensoredAny, i);
    PickCount(states, keys, CensoredCalls, i);
    PickCount(states, keys, CensoredSpend, i);
    PickCount(states, keys, Exceeding(cap), i);
    PickCount(states, keys, Unrejected(cap), i);
    PickCount(states, keys, PartlyExceeding(cap), i);
    PickCount(states, keys, Spanning(window), i);
    PickCount(states, keys, Shared, i);
    LargestMore(states, keys, top, i);
  }

  /** Counts one session. */
  method SummarizeOne(k: nat, x: State, cap: Option<real>, window: int, top: nat, s: Summary) returns (s': Summary)
    ensures s' == SummaryNext(s, k, x, cap, window, top)
  {
    s' := SummarizeCalls(k, x, top, s);
    s' := SummarizeMarks(x, s');
    hide Flagged;
    s' := SummarizeLimits(x, cap, window, s');
  }

  /** The counts by kind of session, and the largest sessions. */
  method SummarizeCalls(k: nat, x: State, top: nat, s: Summary) returns (s': Summary)
    ensures s' == s.(sessions := s.sessions + One(Flagged(x, HasCalls)), rejectionOnly := s.rejectionOnly + One(Flagged(x, RejectionOnly)),
                     unanalyzedOnly := s.unanalyzedOnly + One(Flagged(x, UnanalyzedOnly)),
                     singletons := s.singletons + One(Flagged(x, Singleton)),
                     largest := if x.sums.calls > 0 && |s.largest| < top then s.largest + [k] else s.largest)
  {
    s' := s;
    if x.sums.calls == 0 {
      if x.sums.unanalyzed != 0 {
        s' := s'.(unanalyzedOnly := s.unanalyzedOnly + 1);
      } else {
        s' := s'.(rejectionOnly := s.rejectionOnly + 1);
      }
    } else {
      s' := s'.(sessions := s.sessions + 1);
      if x.sums.calls == 1 {
        s' := s'.(singletons := s.singletons + 1);
      }
      if |s.largest| < top {
        s' := s'.(largest := s.largest + [k]);
      }
    }
  }

  /** The counts of clipped and censored sessions. */
  method SummarizeMarks(x: State, s: Summary) returns (s': Summary)
    ensures s' == s.(clipped := s.clipped + One(Flagged(x, Clipped)), censored := s.censored + One(Flagged(x, CensoredAny)),
                     censoredCalls := s.censoredCalls + One(Flagged(x, CensoredCalls)),
                     censoredSpend := s.censoredSpend + One(Flagged(x, CensoredSpend)))
  {
    s' := s;
    if x.clipped {
      s' := s'.(clipped := s.clipped + 1);
    }
    if x.censored {
      s' := s'.(censored := s.censored + 1);
      if x.sums.calls > 0 {
        s' := s'.(censoredCalls := s.censoredCalls + 1);
        if x.complete {
          s' := s'.(censoredSpend := s.censoredSpend + 1);
        }
      }
    }
  }

  /** The counts against the cap, the counter window and shared identities. */
  method SummarizeLimits(x: State, cap: Option<real>, window: int, s: Summary) returns (s': Summary)
    ensures s' == s.(exceeding := s.exceeding + One(Flagged(x, Exceeding(cap))),
                     unrejected := s.unrejected + One(Flagged(x, Unrejected(cap))),
                     partlyExceeding := s.partlyExceeding + One(Flagged(x, PartlyExceeding(cap))),
                     spanning := s.spanning + One(Flagged(x, Spanning(window))), shared := s.shared + One(Flagged(x, Shared)))
  {
    s' := s;
    if cap.Some? && x.sums.cost > cap.value {
      if x.complete {
        s' := s'.(exceeding := s.exceeding + 1);
        if x.sums.budget == 0 {
          s' := s'.(unrejected := s.unrejected + 1);
        }
      } else {
        s' := s'.(partlyExceeding := s.partlyExceeding + 1);
      }
    }
    if x.first.Some? && x.last.Some? && x.last.value - x.first.value > window {
      s' := s'.(spanning := s.spanning + 1);
    }
    if exists f: Field :: f in x.counts && x.counts[f] > 1 {
      s' := s'.(shared := s.shared + 1);
    }
  }

  lemma LargestMore(states: map<nat, State>, keys: seq<nat>, top: nat, i: nat)
    requires i < |keys| && keys[i] in states
    ensures First(Pick(states, keys[..i+1], HasCalls), top) ==
      var before := First(Pick(states, keys[..i], HasCalls), top);
      if states[keys[i]].sums.calls > 0 && |before| < top then before + [keys[i]] else before
  {
    PickMore(states, keys, HasCalls, i);
    FirstMore(Pick(states, keys[..i], HasCalls), keys[i], top);
    hide Pick, First;
    AppendNil(Pick(states, keys[..i], HasCalls));
  }
}
