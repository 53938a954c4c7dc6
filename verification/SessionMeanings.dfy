/** What the session review counts: every counter and every flag of a session in terms of
    the rows that have its ID. */
module SessionMeanings {
  import opened Common
  import opened Sessions
  import opened SessionReport

  /** What may be said of a row. */
  datatype Feature =
    | Anything
    | Call
    | Unclear
    | Priced
    | Unpriced
    | BadlyPriced
    | BudgetRejected
    | IterationsRejected
    | OtherRejected
    | Classified
    | UnclassifiedFailure

  const REJECTIONS: set<Rejection> := {SessionBudget, SessionIterations, OtherBudget}

  predicate IsCall(r: Row) { r.rejection !in REJECTIONS && r.supported }

  predicate Shows(r: Row, f: Feature) {
    match f
    case Anything => true
    case Call => IsCall(r)
    case Unclear => r.rejection !in REJECTIONS && !r.supported
    case Priced => IsCall(r) && r.spend != NoSpend && r.spend != BadSpend
    case Unpriced => IsCall(r) && r.spend == NoSpend
    case BadlyPriced => IsCall(r) && r.spend == BadSpend
    case BudgetRejected => r.rejection == SessionBudget
    case IterationsRejected => r.rejection == SessionIterations
    case OtherRejected => r.rejection == OtherBudget
    case Classified => r.rejection != NoColumn
    case UnclassifiedFailure => r.rejection !in REJECTIONS && r.failed
  }

  ghost function Number(log: seq<Row>, w: Who, f: Feature): nat {
    if log == [] then 0
    else Number(log[..|log| - 1], w, f) + if w.Has(log[|log| - 1]) && Shows(log[|log| - 1], f) then 1 else 0
  }

  /** The tokens of all calls. */
  ghost function Tokens(log: seq<Row>, w: Who): nat {
    if log == [] then 0
    else Tokens(log[..|log| - 1], w) + if w.Has(log[|log| - 1]) && IsCall(log[|log| - 1]) then log[|log| - 1].tokens else 0
  }

  /** The amounts of all calls that have one. */
  ghost function Spent(log: seq<Row>, w: Who): real {
    if log == [] then 0.0
    else
      var r := log[|log| - 1];
      Spent(log[..|log| - 1], w) + if w.Has(r) && IsCall(r) && r.spend.Amount? then r.spend.usd else 0.0
  }

  ghost predicate Means(s: Sums, log: seq<Row>, w: Who) {
    && s.rows == Number(log, w, Anything) && s.calls == Number(log, w, Call) && s.unanalyzed == Number(log, w, Unclear)
    && s.priced == Number(log, w, Priced) && s.missing == Number(log, w, Unpriced) && s.invalid == Number(log, w, BadlyPriced)
    && s.budget == Number(log, w, BudgetRejected) && s.iterations == Number(log, w, IterationsRejected)
    && s.other == Number(log, w, OtherRejected) && s.tokens == Tokens(log, w) && s.cost == Spent(log, w)
  }

  /** Every counter of a session, or of the unattributed rows, is what its name says. */
  lemma {:induction false} SumMeans(log: seq<Row>, w: Who)
    ensures Means(Sum(log, w), log, w)
  {
    hide Who.Has;
    if log != [] {
      SumMeans(log[..|log| - 1], w);
    }
  }

  /** So is every counter over all selected rows. */
  lemma {:induction false} TotalsMean(log: seq<Row>)
    ensures var t := TotalsOf(log);
      && t.selected == |log| && t.classified == Number(log, Everyone, Classified)
      && t.unclassifiedFailures == Number(log, Everyone, UnclassifiedFailure)
      && t.unsupported == Number(log, Everyone, Unclear) && t.modelCalls == Number(log, Everyone, Call)
      && t.tokens == Tokens(log, Everyone)
  {
    if log != [] {
      TotalsMean(log[..|log| - 1]);
    }
  }

  /** The review takes exactly the rows of a known kind, rejections only if they failed, as
      long as tokens, sessions and memberships can be counted. */
  lemma AdmissionMeans(log: seq<Row>, r: Row)
    ensures Admits(log, r) <==>
      && r.rejection != OtherText && (r.rejection in REJECTIONS ==> r.failed)
      && Tokens(log, Everyone) + (if IsCall(r) then r.tokens else 0) <= MAX_INT64
      && (r.session.Some? && r.session.value !in IdsIn(log) ==> |IdsIn(log)| < MAX_SESSIONS)
      && |MembershipsIn(log) + RowMemberships(r)| <= MAX_MEMBERSHIPS
  {
    TotalsMean(log);
    hide Tokens, TotalsOf, IdsIn, MembershipsIn, RowMemberships;
  }

  // ----- flags

  ghost predicate Some(log: seq<Row>, id: nat, f: Feature) {
    exists r :: r in log && In(r, id) && Shows(r, f)
  }

  lemma {:induction false} NumberSome(log: seq<Row>, id: nat, f: Feature)
    ensures Number(log, Among({id}), f) > 0 <==> Some(log, id, f)
  {
    hide Shows;
    if log != [] {
      var before, r := log[..|log| - 1], log[|log| - 1];
      assert log == before + [r];
      NumberSome(before, id, f);
      assert Some(log, id, f) <==> Some(before, id, f) || (In(r, id) && Shows(r, f));
      hide Some;
    }
  }

  ghost predicate Rejections(log: seq<Row>, id: nat) {
    exists r :: r in log && In(r, id) && r.rejection in REJECTIONS
  }

  /** All that was spent on the session is known. */
  ghost predicate Complete(log: seq<Row>, id: nat) {
    !Some(log, id, Unpriced) && !Some(log, id, BadlyPriced) && !Some(log, id, Unclear)
  }

  ghost predicate OverCap(log: seq<Row>, id: nat, cap: Option<real>) {
    cap.Some? && Spent(log, Among({id})) > cap.value
  }

  /** Calls with positive spend lie further apart than the window. */
  ghost predicate FarApart(log: seq<Row>, id: nat, window: int) {
    exists a, b :: a in log && b in log && Paid(a, id) && Paid(b, id) && b.time - a.time > window
  }

  predicate Paid(r: Row, id: nat) {
    r.session == Option.Some(id) && IsCall(r) && r.spend.Amount? && r.spend.usd > 0.0
  }

  /** Two rows of the session have different identities of one kind. */
  ghost predicate Shares(log: seq<Row>, id: nat) {
    exists f: Field :: SharesField(log, id, f)
  }

  ghost predicate SharesField(log: seq<Row>, id: nat, f: Field) {
    exists a, b :: a in log && b in log && Differ(a, b, id, f)
  }

  predicate Differ(a: Row, b: Row, id: nat, f: Field) {
    In(a, id) && In(b, id) && f in a.identities && f in b.identities && a.identities[f] != b.identities[f]
  }

  lemma SessionFacts(log: seq<Row>, id: nat, s: State)
    requires Grouped(log, id, s)
    ensures s.sums.calls == Number(log, Among({id}), Call) && (s.sums.calls > 0 <==> Some(log, id, Call))
    ensures s.sums.unanalyzed > 0 <==> Some(log, id, Unclear)
    ensures s.sums.budget > 0 <==> Some(log, id, BudgetRejected)
    ensures s.complete <==> Complete(log, id)
    ensures s.censored <==> Rejections(log, id)
    ensures s.sums.cost == Spent(log, Among({id}))
  {
    SumMeans(log, Among({id}));
    NumberSome(log, id, Call);
    NumberSome(log, id, Unclear);
    NumberSome(log, id, Unpriced);
    NumberSome(log, id, BadlyPriced);
    NumberSome(log, id, BudgetRejected);
    NumberSome(log, id, IterationsRejected);
    NumberSome(log, id, OtherRejected);
    RejectionKinds(log, id);
    hide Some, Number, Sum, Spent, Tokens, Members, Rejections;
  }

  lemma RejectionKinds(log: seq<Row>, id: nat)
    ensures Rejections(log, id) <==>
      Some(log, id, BudgetRejected) || Some(log, id, IterationsRejected) || Some(log, id, OtherRejected)
  {
    if Rejections(log, id) {
      var r :| r in log && In(r, id) && r.rejection in REJECTIONS;
      assert Shows(r, BudgetRejected) || Shows(r, IterationsRejected) || Shows(r, OtherRejected);
    }
  }

  lemma SpansFar(log: seq<Row>, id: nat, s: State, window: int)
    requires Timed(log, id, s)
    ensures Flagged(s, Spanning(window)) <==> FarApart(log, id, window)
  {
    assert forall r :: Paid(r, id) <==> In(r, id) && Positive(r);
    hide Paid, Positive;
    if Flagged(s, Spanning(window)) {
      var a :| a in log && In(a, id) && Positive(a) && a.time == s.first.value;
      var b :| b in log && In(b, id) && Positive(b) && b.time == s.last.value;
      assert Paid(a, id) && Paid(b, id);
    }
    if FarApart(log, id, window) {
      var a, b :| a in log && b in log && Paid(a, id) && Paid(b, id) && b.time - a.time > window;
      assert In(a, id) && Positive(a) && In(b, id) && Positive(b);
    }
  }

  lemma SharedDiffer(log: seq<Row>, id: nat, s: State)
    requires Grouped(log, id, s)
    ensures Flagged(s, Shared) <==> Shares(log, id)
  {
    hide Sum, Members, SharesField;
    forall f: Field ensures f in s.counts && (s.counts[f] > 1 <==> SharesField(log, id, f)) {
      MembersDiffer(log, id, f);
    }
  }

  lemma MembersDiffer(log: seq<Row>, id: nat, f: Field)
    ensures |Members(log, id, f)| > 1 <==> SharesField(log, id, f)
  {
    var all := Members(log, id, f);
    if |all| > 1 {
      var x :| x in all;
      assert |all - {x}| > 0;
      var y :| y in all - {x};
      var a :| a in log && In(a, id) && f in a.identities && a.identities[f] == x;
      var b :| b in log && In(b, id) && f in b.identities && b.identities[f] == y;
      assert Differ(a, b, id, f);
    }
    if a, b :| a in log && b in log && Differ(a, b, id, f) {
      assert {a.identities[f], b.identities[f]} <= all;
      SubsetSize({a.identities[f], b.identities[f]}, all);
    }
  }

  lemma KindFlags(log: seq<Row>, id: nat, s: State)
    requires Grouped(log, id, s)
    ensures Flagged(s, HasCalls) <==> Some(log, id, Call)
    ensures Flagged(s, RejectionOnly) <==> !Some(log, id, Call) && !Some(log, id, Unclear)
    ensures Flagged(s, UnanalyzedOnly) <==> !Some(log, id, Call) && Some(log, id, Unclear)
    ensures Flagged(s, Singleton) <==> Number(log, Among({id}), Call) == 1
    ensures Flagged(s, CensoredAny) <==> Rejections(log, id)
    ensures Flagged(s, CensoredCalls) <==> Rejections(log, id) && Some(log, id, Call)
    ensures Flagged(s, CensoredSpend) <==> Rejections(log, id) && Some(log, id, Call) && Complete(log, id)
    ensures Flagged(s, PricedCalls) <==> Some(log, id, Call) && Complete(log, id)
  {
    SessionFacts(log, id, s);
    hide Some, Number, Complete, Rejections, Grouped;
  }

  lemma CapFlags(log: seq<Row>, id: nat, s: State, cap: Option<real>)
    requires Grouped(log, id, s)
    ensures Flagged(s, Exceeding(cap)) <==> OverCap(log, id, cap) && Complete(log, id)
    ensures Flagged(s, PartlyExceeding(cap)) <==> OverCap(log, id, cap) && !Complete(log, id)
    ensures Flagged(s, Unrejected(cap)) <==> OverCap(log, id, cap) && Complete(log, id) && !Some(log, id, BudgetRejected)
  {
    SessionFacts(log, id, s);
    hide Some, Spent, Complete, Rejections, Grouped;
  }

  /** Every flag of a session, but the one for clipping, is what its rows say. */
  lemma FlagsMean(log: seq<Row>, id: nat, s: State, cap: Option<real>, window: int)
    requires Grouped(log, id, s) && Timed(log, id, s)
    ensures Flagged(s, HasCalls) <==> Some(log, id, Call)
    ensures Flagged(s, RejectionOnly) <==> !Some(log, id, Call) && !Some(log, id, Unclear)
    ensures Flagged(s, UnanalyzedOnly) <==> !Some(log, id, Call) && Some(log, id, Unclear)
    ensures Flagged(s, Singleton) <==> Number(log, Among({id}), Call) == 1
    ensures Flagged(s, CensoredAny) <==> Rejections(log, id)
    ensures Flagged(s, CensoredCalls) <==> Rejections(log, id) && Some(log, id, Call)
    ensures Flagged(s, CensoredSpend) <==> Rejections(log, id) && Some(log, id, Call) && Complete(log, id)
    ensures Flagged(s, PricedCalls) <==> Some(log, id, Call) && Complete(log, id)
    ensures Flagged(s, Exceeding(cap)) <==> OverCap(log, id, cap) && Complete(log, id)
    ensures Flagged(s, PartlyExceeding(cap)) <==> OverCap(log, id, cap) && !Complete(log, id)
    ensures Flagged(s, Unrejected(cap)) <==> OverCap(log, id, cap) && Complete(log, id) && !Some(log, id, BudgetRejected)
    ensures Flagged(s, Spanning(window)) <==> FarApart(log, id, window)
    ensures Flagged(s, Shared) <==> Shares(log, id)
  {
    hide Some, Number, OverCap, Complete, Rejections, FarApart, Shares, Grouped, Timed, Flagged;
    KindFlags(log, id, s);
    CapFlags(log, id, s, cap);
    SpansFar(log, id, s, window);
    SharedDiffer(log, id, s);
  }
}
