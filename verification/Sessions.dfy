/** The session review: one pass over the rows of a period, against the group-by it
    stands for. */
module Sessions {
  import opened Common

  const MAX_SESSIONS: nat := 250_000
  const MAX_MEMBERSHIPS: nat := 1_000_000

  datatype Rejection = NoColumn | Blank | SessionBudget | SessionIterations | OtherBudget | OtherText

  datatype Spend = NoSpend | BadSpend | Amount(usd: real)

  datatype Field = ApiKey | Team | Agent

  datatype Row = Row(number: nat, time: int, session: Option<nat>, rejection: Rejection, failed: bool, supported: bool,
                     tokens: nat, spend: Spend, identities: map<Field, nat>)

  predicate Rejected(r: Row) {
    r.rejection.SessionBudget? || r.rejection.SessionIterations? || r.rejection.OtherBudget?
  }

  /** A logged model call whose usage is analyzed. */
  predicate Analyzed(r: Row) { !Rejected(r) && r.supported }

  predicate Unsupported(r: Row) { !Rejected(r) && !r.supported }

  /** A rejection must be a known one of a failed row. */
  predicate RejectionOk(r: Row) {
    !r.rejection.OtherText? && (Rejected(r) ==> r.failed)
  }

  predicate Usable(r: Row) {
    r.tokens <= MAX_INT64 && (r.spend.Amount? ==> r.spend.usd >= 0.0)
  }

  // ----- sums

  datatype Sums = Sums(rows: nat, calls: nat, tokens: nat, priced: nat, missing: nat, invalid: nat, unanalyzed: nat,
                       budget: nat, iterations: nat, other: nat, cost: real) {
    function Plus(s: Sums): Sums {
      Sums(rows + s.rows, calls + s.calls, tokens + s.tokens, priced + s.priced, missing + s.missing, invalid + s.invalid,
           unanalyzed + s.unanalyzed, budget + s.budget, iterations + s.iterations, other + s.other, cost + s.cost)
    }
  }

  const NOTHING := Sums(0, 0, 0, 0, 0, 0, 0, 0, 0, 0, 0.0)

  function One(b: bool): nat { if b then 1 else 0 }

  /** What one row adds to its session, or to the unattributed rows. */
  function Of(r: Row): Sums {
    if Rejected(r) then
      Sums(1, 0, 0, 0, 0, 0, 0, One(r.rejection.SessionBudget?), One(r.rejection.SessionIterations?), One(r.rejection.OtherBudget?), 0.0)
    else if !r.supported then NOTHING.(rows := 1, unanalyzed := 1)
    else
      Sums(1, 1, r.tokens, One(r.spend.Amount?), One(r.spend.NoSpend?), One(r.spend.BadSpend?), 0, 0, 0, 0,
           if r.spend.Amount? then r.spend.usd else 0.0)
  }

  datatype Who = Everyone | Nobody | Among(ids: set<nat>) {
    predicate Has(r: Row) {
      match this
      case Everyone => true
      case Nobody => r.session.None?
      case Among(ids) => r.session.Some? && r.session.value in ids
    }
  }

  ghost function Sum(log: seq<Row>, w: Who): Sums {
    if log == [] then NOTHING
    else
      var before, r := Sum(log[..|log| - 1], w), log[|log| - 1];
      if w.Has(r) then before.Plus(Of(r)) else before
  }

  lemma SumNext(log: seq<Row>, r: Row, w: Who)
    ensures Sum(log + [r], w) == if w.Has(r) then Sum(log, w).Plus(Of(r)) else Sum(log, w)
  {
    hide Of, Who.Has, Sums.Plus;
    assert (log + [r])[..|log|] == log;
  }

  lemma PlusShuffle(a: Sums, b: Sums, c: Sums)
    ensures a.Plus(b).Plus(c) == a.Plus(b.Plus(c)) && a.Plus(c).Plus(b) == a.Plus(b).Plus(c)
    ensures NOTHING.Plus(a) == a && a.Plus(NOTHING) == a
  {
  }

  lemma {:induction false} SumSplits(log: seq<Row>, whole: Who, a: Who, b: Who)
    requires forall r :: r in log ==> (whole.Has(r) <==> a.Has(r) || b.Has(r)) && !(a.Has(r) && b.Has(r))
    ensures Sum(log, whole) == Sum(log, a).Plus(Sum(log, b))
  {
    hide Of, Who.Has, Sums.Plus;
    if log == [] {
      PlusShuffle(NOTHING, NOTHING, NOTHING);
    } else {
      var before, r := log[..|log| - 1], log[|log| - 1];
      assert r in log;
      SumSplits(before, whole, a, b);
      PlusShuffle(Sum(before, a), Sum(before, b), Of(r));
    }
  }

  lemma {:induction false} SumNone(log: seq<Row>, w: Who)
    requires forall r :: r in log ==> !w.Has(r)
    ensures Sum(log, w) == NOTHING
  {
    hide Of, Who.Has;
    if log != [] {
      assert log[|log| - 1] in log;
      SumNone(log[..|log| - 1], w);
    }
  }

  lemma {:induction false} TokensWithin(log: seq<Row>, a: Who, b: Who)
    requires forall r :: r in log ==> a.Has(r) ==> b.Has(r)
    ensures Sum(log, a).tokens <= Sum(log, b).tokens
  {
    hide Of, Who.Has;
    if log != [] {
      assert log[|log| - 1] in log;
      TokensWithin(log[..|log| - 1], a, b);
    }
  }

  ghost function IdsIn(log: seq<Row>): set<nat> { set r | r in log && r.session.Some? :: r.session.value }

  /** Sessions and unattributed rows are all rows: every count, every token and every
      valid amount is in exactly one place. */
  lemma SessionsConserve(log: seq<Row>)
    ensures Sum(log, Everyone) == Sum(log, Nobody).Plus(Sum(log, Among(IdsIn(log))))
  {
    forall r | r in log && r.session.Some? ensures r.session.value in IdsIn(log) {
    }
    SumSplits(log, Everyone, Nobody, Among(IdsIn(log)));
    hide Sum, Sums.Plus;
  }

  // ----- one session's group

  predicate In(r: Row, id: nat) { r.session == Some(id) }

  /** The distinct identities of one kind a session was used with. */
  ghost function Members(log: seq<Row>, id: nat, f: Field): set<nat> {
    set r | r in log && In(r, id) && f in r.identities :: r.identities[f]
  }

  predicate Positive(r: Row) { Analyzed(r) && r.spend.Amount? && r.spend.usd > 0.0 }

  /** The first and last time of a session's rows, or of those with positive spend. */
  ghost predicate FirstIs(log: seq<Row>, id: nat, positive: bool, t: Option<int>) {
    && (t.None? <==> forall r :: r in log && In(r, id) ==> !(positive ==> Positive(r)))
    && (t.Some? ==> exists r :: r in log && In(r, id) && (positive ==> Positive(r)) && r.time == t.value)
    && (t.Some? ==> forall r :: r in log && In(r, id) && (positive ==> Positive(r)) ==> t.value <= r.time)
  }

  ghost predicate LastIs(log: seq<Row>, id: nat, positive: bool, t: Option<int>) {
    && (t.None? <==> forall r :: r in log && In(r, id) ==> !(positive ==> Positive(r)))
    && (t.Some? ==> exists r :: r in log && In(r, id) && (positive ==> Positive(r)) && r.time == t.value)
    && (t.Some? ==> forall r :: r in log && In(r, id) && (positive ==> Positive(r)) ==> r.time <= t.value)
  }

  datatype State = State(sums: Sums, complete: bool, coverage: bool, censored: bool, counts: map<Field, nat>,
                         first: Option<int>, last: Option<int>, firstActivity: Option<int>, lastActivity: Option<int>,
                         clipped: bool, order: nat)

  function Fresh(order: nat): State {
    State(NOTHING, true, true, false, map[ApiKey := 0, Team := 0, Agent := 0], None, None, None, None, false, order)
  }

  /** The sums, flags and distinct counts of one session. */
  ghost predicate Grouped(log: seq<Row>, id: nat, s: State) {
    && s.sums == Sum(log, Among({id}))
    && (s.complete <==> s.sums.missing + s.sums.invalid + s.sums.unanalyzed == 0)
    && (s.coverage <==> forall r :: r in log && In(r, id) ==> !r.rejection.NoColumn?)
    && (s.censored <==> s.sums.budget + s.sums.iterations + s.sums.other > 0)
    && (forall f: Field :: f in s.counts && s.counts[f] == |Members(log, id, f)|)
  }

  ghost predicate Timed(log: seq<Row>, id: nat, s: State) {
    && FirstIs(log, id, true, s.first) && LastIs(log, id, true, s.last)
    && FirstIs(log, id, false, s.firstActivity) && LastIs(log, id, false, s.lastActivity)
  }

  function Earlier(t: Option<int>, x: int): Option<int> {
    if t.None? || x < t.value then Some(x) else t
  }

  function Later(t: Option<int>, x: int): Option<int> {
    if t.None? || x > t.value then Some(x) else t
  }

  lemma LogNext(log: seq<Row>, r: Row)
    ensures forall x :: x in log + [r] <==> x in log || x == r
  {
  }

  lemma TimesNext(log: seq<Row>, id: nat, positive: bool, first: Option<int>, last: Option<int>, r: Row)
    requires FirstIs(log, id, positive, first) && LastIs(log, id, positive, last)
    ensures var counted := In(r, id) && (positive ==> Positive(r));
      && FirstIs(log + [r], id, positive, if counted then Earlier(first, r.time) else first)
      && LastIs(log + [r], id, positive, if counted then Later(last, r.time) else last)
  {
    LogNext(log, r);
    hide Positive;
    if first.Some? {
      var a :| a in log && In(a, id) && (positive ==> Positive(a)) && a.time == first.value;
      var b :| b in log && In(b, id) && (positive ==> Positive(b)) && b.time == last.value;
      assert a in log + [r] && b in log + [r];
    }
    assert r in log + [r];
  }

  lemma MembersNext(log: seq<Row>, id: nat, f: Field, r: Row)
    ensures Members(log + [r], id, f) == Members(log, id, f) + if In(r, id) && f in r.identities then {r.identities[f]} else {}
  {
    LogNext(log, r);
    assert r in log + [r];
  }

  // ----- the pass over the selected rows

  datatype Period = Period(start: int, end: int) {
    predicate Contains(t: int) { start <= t < end }
  }

  type Membership = (nat, Field, nat)

  ghost function MembershipsIn(log: seq<Row>): set<Membership> {
    set r, f | r in log && r.session.Some? && f in r.identities :: (r.session.value, f, r.identities[f])
  }

  function RowMemberships(r: Row): set<Membership> {
    if r.session.None? then {} else set f | f in r.identities :: (r.session.value, f, r.identities[f])
  }

  lemma MembershipsNext(log: seq<Row>, r: Row)
    ensures MembershipsIn(log + [r]) == MembershipsIn(log) + RowMemberships(r)
  {
    LogNext(log, r);
    assert r in log + [r];
  }

  /** Whether an identity of a session has been seen is whether it is a membership. */
  lemma MembershipMeans(log: seq<Row>, id: nat, f: Field, who: nat)
    ensures (id, f, who) in MembershipsIn(log) <==> who in Members(log, id, f)
  {
    if (id, f, who) in MembershipsIn(log) {
      var r :| r in log && r.session == Some(id) && f in r.identities && r.identities[f] == who;
      assert In(r, id);
    }
    if who in Members(log, id, f) {
      var r :| r in log && In(r, id) && f in r.identities && r.identities[f] == who;
      assert (r.session.value, f, r.identities[f]) in MembershipsIn(log);
    }
  }

  /** Counts over all selected rows. */
  datatype Totals = Totals(selected: nat, classified: nat, unclassifiedFailures: nat, unsupported: nat, modelCalls: nat, tokens: nat)

  function TotalsNext(t: Totals, r: Row): Totals {
    Totals(t.selected + 1, t.classified + One(!r.rejection.NoColumn?), t.unclassifiedFailures + One(!Rejected(r) && r.failed),
           t.unsupported + One(Unsupported(r)), t.modelCalls + One(Analyzed(r)), t.tokens + if Analyzed(r) then r.tokens else 0)
  }

  ghost function TotalsOf(log: seq<Row>): Totals {
    if log == [] then Totals(0, 0, 0, 0, 0, 0) else TotalsNext(TotalsOf(log[..|log| - 1]), log[|log| - 1])
  }

  lemma TotalsMore(log: seq<Row>, r: Row)
    ensures TotalsOf(log + [r]) == TotalsNext(TotalsOf(log), r)
  {
    hide TotalsNext;
    assert (log + [r])[..|log|] == log;
  }

  lemma {:induction false} TokensAreSums(log: seq<Row>)
    ensures TotalsOf(log).tokens == Sum(log, Everyone).tokens && TotalsOf(log).modelCalls == Sum(log, Everyone).calls
    ensures TotalsOf(log).selected == Sum(log, Everyone).rows == |log|
    ensures TotalsOf(log).unsupported == Sum(log, Everyone).unanalyzed
  {
    if log != [] {
      TokensAreSums(log[..|log| - 1]);
    }
  }

  ghost predicate Stated(log: seq<Row>, id: nat, s: State) {
    Grouped(log, id, s) && Timed(log, id, s) && !s.clipped
  }

  /** The review equals its group-by. */
  ghost predicate Reviewed(log: seq<Row>, states: map<nat, State>, members: set<Membership>, unattributed: Sums) {
    && states.Keys == IdsIn(log) && members == MembershipsIn(log) && unattributed == Sum(log, Nobody)
    && forall id :: id in states ==> Stated(log, id, states[id])
  }

  /** What the review takes after some rows: known rejection kinds, and no more tokens,
      sessions or memberships than can be counted. */
  ghost predicate Admits(log: seq<Row>, r: Row) {
    && RejectionOk(r) && TotalsNext(TotalsOf(log), r).tokens <= MAX_INT64
    && (r.session.Some? && r.session.value !in IdsIn(log) ==> |IdsIn(log)| < MAX_SESSIONS)
    && |MembershipsIn(log) + RowMemberships(r)| <= MAX_MEMBERSHIPS
  }

  class Review {
    const period: Period
    var totals: Totals
    var unattributed: Sums
    var states: map<nat, State>
    var members: set<Membership>
    ghost var log: seq<Row>

    ghost predicate Valid()
      reads this
    {
      totals == TotalsOf(log) && totals.tokens <= MAX_INT64 && Reviewed(log, states, members, unattributed) && |members| <= MAX_MEMBERSHIPS
      && |states| <= MAX_SESSIONS
    }

    constructor (period: Period)
      ensures Valid() && log == [] && this.period == period
    {
      this.period := period;
      totals, unattributed, states, members, log := Totals(0, 0, 0, 0, 0, 0), NOTHING, map[], {}, [];
    }

    /** One row of the file; only rows of the period are selected. */
    method Add(r: Row) returns (ok: bool)
      requires Valid() && Usable(r)
      modifies this
      ensures ok <==> (period.Contains(r.time) ==> Admits(old(log), r))
      ensures ok ==> Valid() && log == if period.Contains(r.time) then old(log) + [r] else old(log)
    {
      hide Admits;
      if !period.Contains(r.time) {
        return true;
      }
      ok := Select(r);
    }

    /** A row of the period. */
    method Select(r: Row) returns (ok: bool)
      requires Valid() && Usable(r)
      modifies this
      ensures ok <==> Admits(old(log), r)
      ensures ok ==> Valid() && log == old(log) + [r]
    {
      hide Reviewed, TotalsOf, TotalsNext, Of, Sum, RowMemberships, RejectionOk, Usable, Sums.Plus, IdsIn, MembershipsIn;
      ReviewedSets(log, states, members, unattributed);
      var totals';
      ok, totals' := Tally(r);
      if !ok {
        return;
      }
      TotalsMore(log, r);
      if r.session.None? {
        NobodyNext(log, states, members, unattributed, r);
        AppendMembers(members, r);
        unattributed := unattributed.Plus(Of(r));
      } else {
        ok := AddToSession(r, r.session.value);
        if !ok {
          return;
        }
      }
      totals, log := totals', log + [r];
    }

    /** A row with a session joins its group. */
    method AddToSession(r: Row, id: nat) returns (ok: bool)
      requires r.session == Some(id) && RejectionOk(r) && Usable(r)
      requires Reviewed(log, states, members, unattributed) && |members| <= MAX_MEMBERSHIPS
      requires TotalsNext(TotalsOf(log), r).tokens <= MAX_INT64 && TotalsOf(log).tokens <= MAX_INT64
      modifies this`states, this`members
      ensures ok <==>
        ((id !in old(states) ==> |old(states)| < MAX_SESSIONS) && |old(members) + RowMemberships(r)| <= MAX_MEMBERSHIPS)
      ensures ok ==> Reviewed(log + [r], states, members, unattributed) && |members| <= MAX_MEMBERSHIPS
      ensures ok && |old(states)| <= MAX_SESSIONS ==> |states| <= MAX_SESSIONS
    {
      hide Reviewed, TotalsOf, TotalsNext, Of, Sum, RowMemberships, RejectionOk, Usable, Stated, MembershipsIn;
      if id !in states && |states| >= MAX_SESSIONS {
        return false;
      }
      var s := if id in states then states[id] else Fresh(r.number);
      StateKept(log, states, members, unattributed, id, r.number);
      SessionTokens(log, id, r);
      var members', s';
      ok, s', members' := Group(log, id, s, members, r);
      if !ok {
        return;
      }
      SessionNext(log, states, members, unattributed, r, s', members');
      UpdateSize(states, id, s');
      states, members := states[id := s'], members';
    }

    /** The counts over all selected rows. */
    method Tally(r: Row) returns (ok: bool, t: Totals)
      requires Usable(r) && totals.tokens <= MAX_INT64
      ensures ok <==> RejectionOk(r) && TotalsNext(totals, r).tokens <= MAX_INT64
      ensures ok ==> t == TotalsNext(totals, r)
    {
      t := totals.(selected := totals.selected + 1);
      if !r.rejection.NoColumn? {
        t := t.(classified := t.classified + 1);
      }
      if !Rejected(r) && r.failed {
        t := t.(unclassifiedFailures := t.unclassifiedFailures + 1);
      }
      if r.rejection.OtherText? || (Rejected(r) && !r.failed) {
        return false, t;
      }
      if Unsupported(r) {
        t := t.(unsupported := t.unsupported + 1);
      }
      ok := true;
      if Analyzed(r) {
        if t.tokens > MAX_INT64 - r.tokens {
          return false, t;
        }
        t := t.(modelCalls := t.modelCalls + 1, tokens := t.tokens + r.tokens);
      }
    }
  }

  const FIELDS: seq<Field> := [ApiKey, Team, Agent]

  /** The memberships of a row's first `i` identity fields. */
  ghost function Partial(r: Row, id: nat, i: nat): set<Membership>
    requires i <= |FIELDS|
  {
    set f | f in FIELDS[..i] && f in r.identities :: (id, f, r.identities[f])
  }

  lemma PartialNext(r: Row, id: nat, i: nat)
    requires i < |FIELDS|
    ensures var f := FIELDS[i];
      && Partial(r, id, i + 1) == Partial(r, id, i) + (if f in r.identities then {(id, f, r.identities[f])} else {})
      && f !in FIELDS[..i] && f in FIELDS[..i+1] && (forall g :: g in FIELDS[..i+1] <==> g in FIELDS[..i] || g == f)
      && forall who :: (id, f, who) !in Partial(r, id, i)
  {
    assert FIELDS[..i+1] == FIELDS[..i] + [FIELDS[i]];
  }

  lemma PartialAll(r: Row, id: nat)
    requires In(r, id)
    ensures Partial(r, id, |FIELDS|) == RowMemberships(r) && Partial(r, id, 0) == {} && forall f: Field :: f in FIELDS[..|FIELDS|]
  {
    forall f: Field ensures f in FIELDS[..|FIELDS|] {
      match f { case ApiKey => assert FIELDS[0] == f; case Team => assert FIELDS[1] == f; case Agent => assert FIELDS[2] == f; }
    }
  }

  lemma PartialWithin(r: Row, id: nat, i: nat)
    requires In(r, id) && i <= |FIELDS|
    ensures Partial(r, id, i) <= RowMemberships(r)
  {
  }

  /** The distinct counts after a row's first `i` identity fields. */
  ghost predicate CountedTo(log: seq<Row>, id: nat, r: Row, i: nat, counts: map<Field, nat>)
    requires i <= |FIELDS|
  {
    forall f: Field :: f in counts && counts[f] == |Members(if f in FIELDS[..i] then log + [r] else log, id, f)|
  }

  /** Identities not seen in the session yet are counted, up to the limit. */
  method CountMembers(ghost log: seq<Row>, id: nat, counts: map<Field, nat>, members: set<Membership>, r: Row)
    returns (ok: bool, counts': map<Field, nat>, members': set<Membership>)
    requires In(r, id) && members == MembershipsIn(log) && |members| <= MAX_MEMBERSHIPS
    requires CountedTo(log, id, r, 0, counts)
    ensures ok <==> |members + RowMemberships(r)| <= MAX_MEMBERSHIPS
    ensures ok ==> members' == members + RowMemberships(r) && CountedTo(log, id, r, |FIELDS|, counts')
  {
    hide MembershipsIn, Members, CountedTo, Partial, RowMemberships;
    counts', members', ok := counts, members, true;
    PartialAll(r, id);
    for i := 0 to |FIELDS|
      invariant members' == members + Partial(r, id, i)
      invariant |members'| <= MAX_MEMBERSHIPS && CountedTo(log, id, r, i, counts')
    {
      var f := FIELDS[i];
      PartialNext(r, id, i);
      PartialWithin(r, id, i + 1);
      CountNext(log, id, r, i, counts', members);
      if f in r.identities {
        var m := (id, f, r.identities[f]);
        if m !in members' {
          if |members'| == MAX_MEMBERSHIPS {
            MoreMembers(members', m, members + RowMemberships(r));
            return false, counts', members';
          }
          counts', members' := counts'[f := counts'[f] + 1], members' + {m};
        }
      }
    }
  }

  lemma CountNext(log: seq<Row>, id: nat, r: Row, i: nat, counts: map<Field, nat>, members: set<Membership>)
    requires In(r, id) && i < |FIELDS| && members == MembershipsIn(log) && CountedTo(log, id, r, i, counts)
    ensures FIELDS[i] in counts
    ensures var f := FIELDS[i];
      if f in r.identities && (id, f, r.identities[f]) !in members then CountedTo(log, id, r, i + 1, counts[f := counts[f] + 1])
      else CountedTo(log, id, r, i + 1, counts)
  {
    var f := FIELDS[i];
    PartialNext(r, id, i);
    SizeNext(log, id, f, r, members);
    hide Members, MembershipsIn, Partial;
  }

  lemma SizeNext(log: seq<Row>, id: nat, f: Field, r: Row, members: set<Membership>)
    requires In(r, id) && members == MembershipsIn(log)
    ensures |Members(log + [r], id, f)| == |Members(log, id, f)| +
              if f in r.identities && (id, f, r.identities[f]) !in members then 1 else 0
  {
    MembersNext(log, id, f, r);
    var before := Members(log, id, f);
    if f in r.identities {
      MembershipMeans(log, id, f, r.identities[f]);
      hide Members, MembershipsIn;
      if r.identities[f] in before {
        assert before + {r.identities[f]} == before;
      }
    } else {
      assert before + {} == before;
    }
  }

  lemma MoreMembers(a: set<Membership>, m: Membership, b: set<Membership>)
    requires a <= b && m in b && m !in a
    ensures |a| < |b|
  {
    SubsetSize(a + {m}, b);
  }

  /** A session's amounts after one more row. */
  method AddAmounts(s: State, r: Row) returns (ok: bool, s': State)
    requires RejectionOk(r) && Usable(r)
    requires s.complete <==> s.sums.missing + s.sums.invalid + s.sums.unanalyzed == 0
    requires s.censored <==> s.sums.budget + s.sums.iterations + s.sums.other > 0
    ensures ok <==> s.sums.tokens + Of(r).tokens <= MAX_INT64 || !Analyzed(r)
    ensures ok ==>
      (s'.sums == s.sums.Plus(Of(r)) && (s'.complete <==> s'.sums.missing + s'.sums.invalid + s'.sums.unanalyzed == 0))
    ensures ok ==> (s'.censored <==> s'.sums.budget + s'.sums.iterations + s'.sums.other > 0)
    ensures ok ==> s' == s.(sums := s'.sums, complete := s'.complete, censored := s'.censored,
                            first := if Positive(r) then Earlier(s.first, r.time) else s.first,
                            last := if Positive(r) then Later(s.last, r.time) else s.last)
  {
    s', ok := s.(sums := s.sums.(rows := s.sums.rows + 1)), true;
    if Rejected(r) {
      s' := s'.(censored := true, sums := Reject(s'.sums, r.rejection));
      return;
    }
    if !r.supported {
      s' := s'.(complete := false, sums := s'.sums.(unanalyzed := s'.sums.unanalyzed + 1));
      return;
    }
    if s.sums.tokens > MAX_INT64 - r.tokens {
      return false, s';
    }
    hide Earlier, Later;
    var sums := s'.sums.(calls := s'.sums.calls + 1, tokens := s'.sums.tokens + r.tokens);
    match r.spend {
      case NoSpend =>
        sums := sums.(missing := sums.missing + 1);
      case BadSpend =>
        sums := sums.(invalid := sums.invalid + 1);
      case Amount(usd) =>
        sums := sums.(priced := sums.priced + 1, cost := sums.cost + usd);
        if usd > 0.0 {
          s' := s'.(first := Earlier(s.first, r.time), last := Later(s.last, r.time));
        }
    }
    s' := s'.(sums := sums, complete := sums.missing + sums.invalid + sums.unanalyzed == 0);
  }

  /** One more row of a session. */
  method Group(ghost log: seq<Row>, id: nat, s: State, members: set<Membership>, r: Row)
    returns (ok: bool, s': State, members': set<Membership>)
    requires In(r, id) && RejectionOk(r) && Usable(r) && Stated(log, id, s)
    requires members == MembershipsIn(log) && |members| <= MAX_MEMBERSHIPS
    requires Sum(log, Among({id})).tokens + Of(r).tokens <= MAX_INT64
    ensures ok <==> |members + RowMemberships(r)| <= MAX_MEMBERSHIPS
    ensures ok ==> Stated(log + [r], id, s') && members' == members + RowMemberships(r)
  {
    CountsStart(log, id, s, r);
    var counts;
    ok, counts, members' := CountMembers(log, id, s.counts, members, r);
    s' := s;
    if !ok {
      return;
    }
    assert s.sums == Sum(log, Among({id}));
    hide MembershipsIn, Members, RowMemberships, Sum, FirstIs, LastIs, Of, RejectionOk, Usable, Analyzed, Positive,
        CountedTo;
    ok, s' := AddAmounts(s, r);
    ghost var amounts := s';
    s' := s'.(firstActivity := Earlier(s.firstActivity, r.time), lastActivity := Later(s.lastActivity, r.time),
              coverage := s.coverage && !r.rejection.NoColumn?, counts := counts);
    Joined(log, id, s, r, amounts, s');
  }

  lemma CountsStart(log: seq<Row>, id: nat, s: State, r: Row)
    requires Grouped(log, id, s)
    ensures CountedTo(log, id, r, 0, s.counts)
  {
    hide Members, Sum;
  }

  /** A session's state after a row describes the rows with it. */
  lemma Joined(log: seq<Row>, id: nat, s: State, r: Row, amounts: State, s': State)
    requires In(r, id) && Stated(log, id, s) && CountedTo(log, id, r, |FIELDS|, s'.counts)
    requires amounts.sums == s.sums.Plus(Of(r))
    requires (amounts.complete <==> amounts.sums.missing + amounts.sums.invalid + amounts.sums.unanalyzed == 0)
    requires amounts.censored <==> amounts.sums.budget + amounts.sums.iterations + amounts.sums.other > 0
    requires amounts == s.(sums := amounts.sums, complete := amounts.complete, censored := amounts.censored,
                           first := if Positive(r) then Earlier(s.first, r.time) else s.first,
                           last := if Positive(r) then Later(s.last, r.time) else s.last)
    requires s' == amounts.(firstActivity := Earlier(s.firstActivity, r.time), lastActivity := Later(s.lastActivity, r.time),
                            coverage := s.coverage && !r.rejection.NoColumn?, counts := s'.counts)
    ensures Stated(log + [r], id, s')
  {
    PartialAll(r, id);
    hide Members, Sum, FirstIs, LastIs, Of, Positive, Sums.Plus;
    SumNext(log, r, Among({id}));
    TimesNext(log, id, true, s.first, s.last, r);
    TimesNext(log, id, false, s.firstActivity, s.lastActivity, r);
    CoverageNext(log, id, s.coverage, r);
  }

  function Reject(s: Sums, k: Rejection): Sums {
    match k
    case SessionBudget => s.(budget := s.budget + 1)
    case SessionIterations => s.(iterations := s.iterations + 1)
    case _ => s.(other := s.other + 1)
  }

  lemma CoverageNext(log: seq<Row>, id: nat, coverage: bool, r: Row)
    requires In(r, id) && (coverage <==> forall x :: x in log && In(x, id) ==> !x.rejection.NoColumn?)
    ensures coverage && !r.rejection.NoColumn? <==> forall x :: x in log + [r] && In(x, id) ==> !x.rejection.NoColumn?
  {
    LogNext(log, r);
    if !coverage {
      var x :| x in log && In(x, id) && x.rejection.NoColumn?;
      assert x in log + [r];
    }
    assert r in log + [r];
  }

  /** A session of the states, or a new one, describes its rows so far. */
  lemma StateKept(log: seq<Row>, states: map<nat, State>, members: set<Membership>, unattributed: Sums, id: nat,
      order: nat)
    requires Reviewed(log, states, members, unattributed)
    ensures Stated(log, id, if id in states then states[id] else Fresh(order)) && members == MembershipsIn(log)
  {
    if id !in states {
      forall r | r in log ensures !In(r, id) {
        assert r.session.Some? ==> r.session.value in IdsIn(log);
      }
      SumNone(log, Among({id}));
      forall f: Field ensures f in Fresh(order).counts && Fresh(order).counts[f] == |Members(log, id, f)| {
        assert Members(log, id, f) == {};
        match f { case ApiKey => case Team => case Agent => }
      }
    }
    hide Sum;
  }

  /** A session's tokens never outgrow those of all rows. */
  lemma SessionTokens(log: seq<Row>, id: nat, r: Row)
    requires TotalsNext(TotalsOf(log), r).tokens <= MAX_INT64
    ensures Sum(log, Among({id})).tokens + Of(r).tokens <= MAX_INT64
  {
    TokensWithin(log, Among({id}), Everyone);
    TokensAreSums(log);
    hide Sum, TotalsOf;
  }

  lemma StateUnchanged(log: seq<Row>, id: nat, s: State, r: Row)
    requires Stated(log, id, s) && !In(r, id)
    ensures Stated(log + [r], id, s)
  {
    hide Sum, Members, FirstIs, LastIs, Positive, Of;
    SumNext(log, r, Among({id}));
    TimesNext(log, id, true, s.first, s.last, r);
    TimesNext(log, id, false, s.firstActivity, s.lastActivity, r);
    CoverageStays(log, id, r);
    forall f: Field ensures Members(log + [r], id, f) == Members(log, id, f) {
      MembersNext(log, id, f, r);
    }
  }

  lemma CoverageStays(log: seq<Row>, id: nat, r: Row)
    requires !In(r, id)
    ensures (forall x :: x in log + [r] && In(x, id) ==> !x.rejection.NoColumn?) <==>
      (forall x :: x in log && In(x, id) ==> !x.rejection.NoColumn?)
  {
    LogNext(log, r);
  }

  lemma IdsNext(log: seq<Row>, r: Row)
    ensures IdsIn(log + [r]) == IdsIn(log) + if r.session.Some? then {r.session.value} else {}
  {
    LogNext(log, r);
    assert r in log + [r];
  }

  lemma ReviewedSets(log: seq<Row>, states: map<nat, State>, members: set<Membership>, unattributed: Sums)
    requires Reviewed(log, states, members, unattributed)
    ensures states.Keys == IdsIn(log) && |states| == |IdsIn(log)| && members == MembershipsIn(log)
  {
  }

  lemma AppendMembers(members: set<Membership>, r: Row)
    requires r.session.None?
    ensures members + RowMemberships(r) == members
  {
  }

  lemma NobodyNext(log: seq<Row>, states: map<nat, State>, members: set<Membership>, unattributed: Sums, r: Row)
    requires Reviewed(log, states, members, unattributed) && r.session.None?
    ensures Reviewed(log + [r], states, members, unattributed.Plus(Of(r))) && RowMemberships(r) == {}
  {
    IdsNext(log, r);
    MembershipsNext(log, r);
    SumNext(log, r, Nobody);
    hide Sum, Sums.Plus, IdsIn, MembershipsIn, Stated;
    forall id | id in states ensures Stated(log + [r], id, states[id]) {
      StateUnchanged(log, id, states[id], r);
    }
  }

  lemma SessionNext(log: seq<Row>, states: map<nat, State>, members: set<Membership>, unattributed: Sums, r: Row,
      s: State, members': set<Membership>)
    requires Reviewed(log, states, members, unattributed) && r.session.Some?
    requires Stated(log + [r], r.session.value, s) && members' == members + RowMemberships(r)
    ensures Reviewed(log + [r], states[r.session.value := s], members', unattributed)
  {
    hide Sum, IdsIn, MembershipsIn, Stated, RowMemberships, Of;
    var id := r.session.value;
    IdsNext(log, r);
    MembershipsNext(log, r);
    SumNext(log, r, Nobody);
    OneMore(states, id, s);
    forall k | k in states && k != id ensures Stated(log + [r], k, states[k]) {
      StateUnchanged(log, k, states[k], r);
    }
  }
}
