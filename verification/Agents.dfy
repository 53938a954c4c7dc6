/** Agent attribution: every row is known, unknown or ambiguous, and the known rows are
    shown, set aside for lack of costs, or merged into a remainder. */
module Agents {
  import opened Common
  import opened Windows
  import opened WindowCounts
  import opened Ordering
  import opened Routing
  import RoutingReport

  datatype Entry = Entry(totals: Pair, order: nat)

  const ANYONE := Identified

  function Nobody(): Select { Attributed({NoAgent}) }

  function Several(): Select { Attributed({Ambiguous}) }

  function Only(digest: nat): Select { Attributed({Agent(digest)}) }

  /** Known, unknown and ambiguous rows are all rows. */
  lemma AgentsPartition(log: seq<Row>)
    ensures Sums(log, Everything) == Sums(log, ANYONE).Plus(Sums(log, Nobody()).Plus(Sums(log, Several())))
  {
    hide Sums, Pair.Plus;
    var others := Attributed({NoAgent, Ambiguous});
    assert Splits(log, Everything, ANYONE, others);
    SumsSplit(log, Everything, ANYONE, others);
    assert Splits(log, others, Nobody(), Several());
    SumsSplit(log, others, Nobody(), Several());
  }

  // ----- accumulation

  ghost function DigestsIn(log: seq<Row>): set<nat> { set r | r in log && r.agent.Agent? :: r.agent.digest }

  ghost predicate EntriesKept(log: seq<Row>, entries: map<nat, Entry>) {
    && entries.Keys == DigestsIn(log)
    && forall d :: d in entries ==> entries[d].totals == Sums(log, Only(d))
  }

  ghost predicate AllOk(log: seq<Row>) {
    forall r :: r in log ==> RowOk(r)
  }

  lemma AllOkNext(log: seq<Row>, r: Row)
    requires AllOk(log) && RowOk(r)
    ensures AllOk(log + [r])
  {
    hide RowOk;
  }

  class AgentAccumulator {
    var known: Pair
    var unknown: Pair
    var ambiguous: Pair
    var entries: map<nat, Entry>
    ghost var log: seq<Row>

    ghost predicate Valid()
      reads this
    {
      && AllOk(log)
      && known == Sums(log, ANYONE) && unknown == Sums(log, Nobody()) && ambiguous == Sums(log, Several())
      && InRange(known, |log|) && InRange(unknown, |log|) && InRange(ambiguous, |log|)
      && EntriesKept(log, entries) && |entries| <= MAX_AGENTS
    }

    constructor ()
      ensures Valid() && log == []
    {
      known, unknown, ambiguous, entries, log := NO_PAIR, NO_PAIR, NO_PAIR, map[], [];
    }

    /** Adds a row to the window its agent source puts it in, and a known agent's row to
        that agent as well; the agent never refuses what the window accepts. */
    method Add(r: Row) returns (ok: bool)
      requires Valid() && RowOk(r)
      modifies this
      ensures ok <==> match r.agent
                      case NoAgent => RowFits(old(unknown).At(r.after), r)
                      case Ambiguous => RowFits(old(ambiguous).At(r.after), r)
                      case Agent(d) => (d in old(entries) || |old(entries)| < MAX_AGENTS) && RowFits(old(known).At(r.after), r)
      ensures ok ==> Valid() && log == old(log) + [r]
    {
      hide Sums, RowFits, Grown, InRange, EntriesKept, Only, RowOk, AllOk, Nobody, Several, Failures.Fit;
      WindowsNext(log, r);
      AllOkNext(log, r);
      Ranges(known, unknown, ambiguous, |log|, |log + [r]|, r);
      match r.agent {
        case Agent(d) =>
          ok := AddKnown(r, d);
        case Ambiguous =>
          EntriesStay(log, entries, r);
          ok, ambiguous := AddTo(ambiguous, r);
        case NoAgent =>
          EntriesStay(log, entries, r);
          ok, unknown := AddTo(unknown, r);
      }
      if ok {
        log := log + [r];
      }
    }

    /** A known agent's row counts for the window and for the agent. */
    method AddKnown(r: Row, d: nat) returns (ok: bool)
      requires r.agent == Agent(d) && RowOk(r) && EntriesKept(log, entries)
      requires known == Sums(log, ANYONE) && known.At(r.after).failures.Fit()
      modifies this`known, this`entries
      ensures ok <==> (d in old(entries) || |old(entries)| < MAX_AGENTS) && RowFits(old(known).At(r.after), r)
      ensures ok ==> known == Grown(old(known), r) && EntriesKept(log + [r], entries)
      ensures ok && |old(entries)| <= MAX_AGENTS ==> |entries| <= MAX_AGENTS
    {
      hide Sums, RowFits, Grown, EntriesKept, Only, RowOk;
      if d !in entries && |entries| >= MAX_AGENTS {
        return false;
      }
      var e := if d in entries then entries[d] else Entry(NO_PAIR, |entries|);
      EntryFits(log, entries, known, r, d, e);
      EntriesGrow(log, entries, r, d, e);
      var window, agent;
      ok, window := AddTo(known, r);
      if !ok {
        return;
      }
      ok, agent := AddTo(e.totals, r);
      UpdateSize(entries, d, Entry(agent, e.order));
      known, entries := window, entries[d := Entry(agent, e.order)];
    }
  }

  lemma WindowsNext(log: seq<Row>, r: Row)
    ensures Sums(log + [r], ANYONE) == if r.agent.Agent? then Grown(Sums(log, ANYONE), r) else Sums(log, ANYONE)
    ensures Sums(log + [r], Nobody()) == if r.agent.NoAgent? then Grown(Sums(log, Nobody()), r) else Sums(log, Nobody())
    ensures Sums(log + [r], Several()) == if r.agent.Ambiguous? then Grown(Sums(log, Several()), r) else Sums(log, Several())
  {
    hide Sums, Grown;
    SumsNext(log, r, ANYONE);
    SumsNext(log, r, Nobody());
    SumsNext(log, r, Several());
  }

  lemma Ranges(known: Pair, unknown: Pair, ambiguous: Pair, n: nat, n': nat, r: Row)
    requires n' == n + 1 && InRange(known, n) && InRange(unknown, n) && InRange(ambiguous, n)
    ensures known.At(r.after).failures.Fit() && unknown.At(r.after).failures.Fit()
    ensures ambiguous.At(r.after).failures.Fit()
    ensures InRange(known, n') && InRange(unknown, n') && InRange(ambiguous, n')
    ensures RowFits(known.At(r.after), r) ==> InRange(Grown(known, r), n')
    ensures RowFits(unknown.At(r.after), r) ==> InRange(Grown(unknown, r), n')
    ensures RowFits(ambiguous.At(r.after), r) ==> InRange(Grown(ambiguous, r), n')
  {
    hide Counters.Fit, Failures.Fit;
  }

  lemma DigestIn(log: seq<Row>, r: Row)
    requires r in log && r.agent.Agent?
    ensures r.agent.digest in DigestsIn(log)
  {
  }

  lemma DigestsNext(log: seq<Row>, r: Row)
    ensures DigestsIn(log + [r]) == DigestsIn(log) + if r.agent.Agent? then {r.agent.digest} else {}
  {
    assert forall x :: x in log + [r] <==> x in log || x == r;
    assert r in log + [r];
  }

  /** An agent not seen yet has no rows. */
  lemma NoRows(log: seq<Row>, d: nat)
    requires d !in DigestsIn(log)
    ensures Sums(log, Only(d)) == NO_PAIR
  {
    forall r | r in log ensures !Only(d).Has(r) {
      if r.agent.Agent? {
        DigestIn(log, r);
      }
    }
    hide Sums;
    SumsNone(log, Only(d));
  }

  lemma EntriesStay(log: seq<Row>, entries: map<nat, Entry>, r: Row)
    requires EntriesKept(log, entries) && !r.agent.Agent?
    ensures EntriesKept(log + [r], entries)
  {
    hide Sums, Grown, DigestsIn;
    DigestsNext(log, r);
    forall d | d in entries ensures entries[d].totals == Sums(log + [r], Only(d)) {
      SumsNext(log, r, Only(d));
    }
  }

  lemma EntriesGrow(log: seq<Row>, entries: map<nat, Entry>, r: Row, d: nat, e: Entry)
    requires EntriesKept(log, entries) && r.agent == Agent(d)
    requires e == if d in entries then entries[d] else Entry(NO_PAIR, |entries|)
    ensures EntriesKept(log + [r], entries[d := Entry(Grown(e.totals, r), e.order)])
  {
    hide Sums, Grown, DigestsIn;
    DigestsNext(log, r);
    if d !in entries {
      NoRows(log, d);
    }
    SumsNext(log, r, Only(d));
    forall k | k in entries && k != d ensures entries[k].totals == Sums(log + [r], Only(k)) {
      SumsNext(log, r, Only(k));
    }
    OneMore(entries, d, Entry(Grown(e.totals, r), e.order));
  }

  lemma EntryFits(log: seq<Row>, entries: map<nat, Entry>, known: Pair, r: Row, d: nat, e: Entry)
    requires EntriesKept(log, entries) && known == Sums(log, ANYONE) && known.At(r.after).failures.Fit()
    requires e == if d in entries then entries[d] else Entry(NO_PAIR, |entries|)
    ensures e.totals.At(r.after).failures.Fit()
    ensures RowFits(known.At(r.after), r) ==> RowFits(e.totals.At(r.after), r)
  {
    hide Sums, RowFits, DigestsIn, Below;
    if d !in entries {
      NoRows(log, d);
    }
    assert e.totals == Sums(log, Only(d));
    SumsBelow(log, Only(d), ANYONE);
    BelowRowFits(e.totals.At(r.after), known.At(r.after), r);
  }

  // ----- values and order

  /** What is shown of one side: the cost only if some of it is usable. */
  datatype Values = Values(requests: nat, tokens: nat, usable: nat, usd: Option<real>)

  method AgentValues(m: Measures) returns (v: Values)
    requires m.Consistent()
    ensures v.requests == m.rows.requests && v.tokens == m.counters.tokens
    ensures v.usable + m.quality.spendMissing + m.quality.spendInvalid == m.rows.requests
    ensures v.usd == if Priced(m) then Some(m.cost) else None
  {
    var usable := m.rows.requests - m.quality.spendMissing - m.quality.spendInvalid;
    v := Values(m.rows.requests, m.counters.tokens, usable, if usable > 0 || m.rows.requests == 0 then Some(m.cost) else None);
  }

  /** Some row has a usable cost, or there is no row. */
  predicate Priced(m: Measures) {
    !(m.rows.requests > 0 && m.quality.spendMissing + m.quality.spendInvalid == m.rows.requests)
  }

  /** Whether an agent's costs can be compared between the windows. */
  predicate Available(p: Pair) {
    Priced(p.before) && Priced(p.after)
  }

  function AgentRank(e: Entry, bySpend: bool): Rank {
    if !bySpend then Rank(true, (e.totals.after.counters.tokens - e.totals.before.counters.tokens) as real, e.order)
    else if Available(e.totals) then Rank(true, e.totals.after.cost - e.totals.before.cost, e.order)
    else Rank(false, 0.0, e.order)
  }

  function AgentRanks(entries: map<nat, Entry>, bySpend: bool): map<nat, Rank> {
    map d | d in entries :: AgentRank(entries[d], bySpend)
  }

  predicate Counts(entries: map<nat, Entry>, bySpend: bool, d: nat) {
    d in entries && (bySpend ==> Available(entries[d].totals))
  }

  /** Those that count come first. */
  lemma {:induction false} CountingFirst(entries: map<nat, Entry>, bySpend: bool, keys: seq<nat>) returns (n: nat)
    requires Ordered(AgentRanks(entries, bySpend), keys)
    ensures n <= |keys| && (forall i :: 0 <= i < n ==> Counts(entries, bySpend, keys[i]))
    ensures forall i :: n <= i < |keys| ==> !Counts(entries, bySpend, keys[i])
  {
    var ranks := AgentRanks(entries, bySpend);
    assert forall i :: 0 <= i < |keys| ==> keys[i] in SetOf(keys);
    n := |keys|;
    while n > 0 && !Counts(entries, bySpend, keys[n - 1])
      invariant n <= |keys| && forall i :: n <= i < |keys| ==> !Counts(entries, bySpend, keys[i])
    {
      n := n - 1;
    }
    if n > 0 {
      forall i | 0 <= i < n ensures Counts(entries, bySpend, keys[i]) {
        if i < n - 1 {
          assert RankOf(ranks, keys[i]).Before(RankOf(ranks, keys[n - 1]));
        }
      }
    }
  }

  // ----- the report

  datatype Contributor = Contributor(digest: nat, totals: Pair, before: Values, after: Values, delta: Option<real>)

  datatype AgentReport = AgentReport(contributors: seq<Contributor>, unavailable: seq<Contributor>, undisplayed: Pair)

  ghost function ListTotal(list: seq<Contributor>): Pair {
    if list == [] then NO_PAIR else ListTotal(list[..|list| - 1]).Plus(list[|list| - 1].totals)
  }

  lemma ListMore(list: seq<Contributor>, c: Contributor)
    ensures ListTotal(list + [c]) == ListTotal(list).Plus(c.totals)
  {
    hide Pair.Plus;
    assert (list + [c])[..|list|] == list;
  }

  /** A contributor is an entry with its values; the change is known exactly when both
      sides' costs are. */
  ghost predicate Describes(entries: map<nat, Entry>, d: nat, c: Contributor) {
    && d in entries && c.digest == d && c.totals == entries[d].totals
    && c.before.usd == (if Priced(c.totals.before) then Some(c.totals.before.cost) else None)
    && c.after.usd == (if Priced(c.totals.after) then Some(c.totals.after.cost) else None)
    && c.before.tokens == c.totals.before.counters.tokens && c.after.tokens == c.totals.after.counters.tokens
    && c.delta == if Available(c.totals) then Some(c.totals.after.cost - c.totals.before.cost) else None
  }

  method Contribute(entries: map<nat, Entry>, d: nat) returns (c: Contributor)
    requires d in entries && entries[d].totals.before.Consistent() && entries[d].totals.after.Consistent()
    ensures Describes(entries, d, c)
  {
    var p := entries[d].totals;
    var before := AgentValues(p.before);
    var after := AgentValues(p.after);
    c := Contributor(d, p, before, after, if before.usd.Some? && after.usd.Some? then Some(p.after.cost - p.before.cost) else None);
  }

  ghost function AgentsOf(digests: set<nat>): set<Agent> { set d | d in digests :: Agent(d) }

  lemma AddAgent(log: seq<Row>, digests: set<nat>, d: nat)
    requires d !in digests
    ensures Sums(log, Attributed(AgentsOf(digests + {d}))) == Sums(log, Attributed(AgentsOf(digests))).Plus(Sums(log, Only(d)))
  {
    assert AgentsOf(digests + {d}) == AgentsOf(digests) + {Agent(d)} && Agent(d) !in AgentsOf(digests);
    SumsSplit(log, Attributed(AgentsOf(digests + {d})), Attributed(AgentsOf(digests)), Only(d));
    hide Sums, Pair.Plus;
  }

  /** The digests handled so far, split three ways. */
  datatype Parts = Parts(shown: set<nat>, aside: set<nat>, merged: set<nat>)

  ghost predicate Tallies(log: seq<Row>, r: AgentReport, p: Parts) {
    && ListTotal(r.contributors) == Sums(log, Attributed(AgentsOf(p.shown)))
    && ListTotal(r.unavailable) == Sums(log, Attributed(AgentsOf(p.aside)))
    && r.undisplayed == Sums(log, Attributed(AgentsOf(p.merged)))
    && p.shown !! p.aside && p.shown !! p.merged && p.aside !! p.merged
  }

  function All(p: Parts): set<nat> { p.shown + p.aside + p.merged }

  lemma TalliesNothing(log: seq<Row>)
    ensures Tallies(log, AgentReport([], [], NO_PAIR), Parts({}, {}, {}))
  {
    assert AgentsOf({}) == {};
    SumsNone(log, Attributed({}));
    hide Sums;
  }

  lemma TalliesShown(log: seq<Row>, r: AgentReport, p: Parts, c: Contributor)
    requires Tallies(log, r, p) && c.digest !in All(p) && c.totals == Sums(log, Only(c.digest))
    ensures Tallies(log, r.(contributors := r.contributors + [c]), p.(shown := p.shown + {c.digest}))
    ensures Tallies(log, r.(unavailable := r.unavailable + [c]), p.(aside := p.aside + {c.digest}))
    ensures r.undisplayed.Plus(c.totals) == Sums(log, Attributed(AgentsOf(p.merged + {c.digest})))
    ensures Tallies(log, r.(undisplayed := r.undisplayed.Plus(c.totals)), p.(merged := p.merged + {c.digest}))
  {
    hide Sums, Pair.Plus, ListTotal, AgentsOf, Only;
    AddAgent(log, p.shown, c.digest);
    AddAgent(log, p.aside, c.digest);
    AddAgent(log, p.merged, c.digest);
    ListMore(r.contributors, c);
    ListMore(r.unavailable, c);
  }

  /** When every agent is handled, the three parts make up the known rows. */
  lemma AgentsConserved(log: seq<Row>, r: AgentReport, p: Parts)
    requires Tallies(log, r, p) && DigestsIn(log) <= All(p)
    ensures ListTotal(r.contributors).Plus(ListTotal(r.unavailable).Plus(r.undisplayed)) == Sums(log, ANYONE)
  {
    hide Sums, Pair.Plus, ListTotal;
    var rest := Attributed(AgentsOf(p.aside) + AgentsOf(p.merged));
    forall x | x in log && x.agent.Agent? ensures x.agent.digest in All(p) {
      DigestIn(log, x);
    }
    hide DigestsIn;
    assert Splits(log, ANYONE, Attributed(AgentsOf(p.shown)), rest);
    SumsSplit(log, ANYONE, Attributed(AgentsOf(p.shown)), rest);
    assert Splits(log, rest, Attributed(AgentsOf(p.aside)), Attributed(AgentsOf(p.merged)));
    SumsSplit(log, rest, Attributed(AgentsOf(p.aside)), Attributed(AgentsOf(p.merged)));
  }

  /** The first `top` agents that count are shown, those whose costs are unavailable
      are set aside, in order. */
  ghost predicate ShowsAgents(entries: map<nat, Entry>, keys: seq<nat>, n: nat, top: nat, i: nat, r: AgentReport)
    requires n <= |keys| && i <= |keys|
  {
    && |r.contributors| == Least(Least(i, n), top)
    && (forall k :: 0 <= k < |r.contributors| ==> Describes(entries, keys[k], r.contributors[k]))
    && |r.unavailable| == i - Least(i, n)
    && (forall k :: 0 <= k < |r.unavailable| ==> Describes(entries, keys[n + k], r.unavailable[k]))
  }

  /** The change an agent is ranked by, if it is known. */
  function Change(p: Pair, bySpend: bool): Option<real> {
    if bySpend && !(Usable(p.before) && Usable(p.after)) then None
    else if bySpend then Some(p.after.cost - p.before.cost)
    else Some((p.after.counters.tokens - p.before.counters.tokens) as real)
  }

  /** There are no rows, or not all of them lack a usable spend. */
  predicate Usable(m: Measures) {
    m.rows.requests == 0 || m.quality.spendMissing + m.quality.spendInvalid != m.rows.requests
  }

  /** Shown agents have ever smaller changes, and no known change that is not shown is
      larger. */
  ghost predicate LargestChanges(entries: map<nat, Entry>, bySpend: bool, shown: seq<Contributor>) {
    && (forall i :: 0 <= i < |shown| ==> Change(shown[i].totals, bySpend).Some?)
    && (forall i, j :: 0 <= i < j < |shown| ==>
          Change(shown[i].totals, bySpend).value >= Change(shown[j].totals, bySpend).value)
    && (forall d, i :: d in entries && 0 <= i < |shown| && NotShown(d, shown) && Change(entries[d].totals, bySpend).Some? ==>
          Change(shown[i].totals, bySpend).value >= Change(entries[d].totals, bySpend).value)
  }

  ghost predicate NotShown(d: nat, shown: seq<Contributor>) {
    forall k :: 0 <= k < |shown| ==> shown[k].digest != d
  }

  lemma RankIsChange(entries: map<nat, Entry>, bySpend: bool, d: nat)
    requires d in entries
    ensures var change, rank := Change(entries[d].totals, bySpend), AgentRank(entries[d], bySpend);
      && (rank.counts <==> change.Some?) && (change.Some? ==> rank.weight == change.value)
      && (Counts(entries, bySpend, d) <==> change.Some?) && d in AgentRanks(entries, bySpend)
      && AgentRanks(entries, bySpend)[d] == rank
  {
  }

  lemma ChangesDescend(entries: map<nat, Entry>, bySpend: bool, keys: seq<nat>, n: nat, top: nat, r: AgentReport)
    requires Ordered(AgentRanks(entries, bySpend), keys) && n <= |keys|
    requires forall i :: 0 <= i < |keys| ==> (i < n <==> Counts(entries, bySpend, keys[i]))
    requires ShowsAgents(entries, keys, n, top, |keys|, r)
    ensures LargestChanges(entries, bySpend, r.contributors)
  {
    var ranks, shown := AgentRanks(entries, bySpend), r.contributors;
    hide Ordered, AgentRank, Change, Counts;
    forall i | 0 <= i < |shown|
      ensures shown[i].digest == keys[i] && keys[i] in entries && shown[i].totals == entries[keys[i]].totals && Counts(entries, bySpend, keys[i])
    {
      DescribesKey(entries, keys[i], shown[i]);
    }
    hide Describes, ShowsAgents, AgentRanks;
    forall i | 0 <= i < |shown| ensures Change(shown[i].totals, bySpend).Some? {
      RankIsChange(entries, bySpend, keys[i]);
    }
    forall i, j | 0 <= i < j < |shown|
      ensures Change(shown[i].totals, bySpend).value >= Change(shown[j].totals, bySpend).value
    {
      Descends(ranks, keys, i, j);
      RankIsChange(entries, bySpend, keys[i]);
      RankIsChange(entries, bySpend, keys[j]);
    }
    forall d, i | d in entries && 0 <= i < |shown| && NotShown(d, shown) && Change(entries[d].totals, bySpend).Some?
      ensures Change(shown[i].totals, bySpend).value >= Change(entries[d].totals, bySpend).value
    {
      RankIsChange(entries, bySpend, d);
      RankIsChange(entries, bySpend, keys[i]);
      var j := RoutingReport.KeyPlace(ranks, keys, d);
      Descends(ranks, keys, i, j);
    }
  }

  /** The agent report. `n` agents count: all of them, or under ranking by spend those
      with usable costs in both windows. */
  method Finish(a: AgentAccumulator, bySpend: bool, top: nat)
    returns (ok: bool, r: AgentReport, ghost keys: seq<nat>, ghost n: nat)
    requires a.Valid() && |a.log| <= MAX_ROWS
    ensures ok && Ordered(AgentRanks(a.entries, bySpend), keys) && n <= |keys|
    ensures forall i :: 0 <= i < |keys| ==> (i < n <==> Counts(a.entries, bySpend, keys[i]))
    ensures ShowsAgents(a.entries, keys, n, top, |keys|, r) && LargestChanges(a.entries, bySpend, r.contributors)
    ensures ListTotal(r.contributors).Plus(ListTotal(r.unavailable).Plus(r.undisplayed)) == a.known
  {
    ghost var log := a.log;
    assert EntriesKept(log, a.entries) && InRange(a.known, |log|) && a.known == Sums(log, ANYONE);
    var order := Order(AgentRanks(a.entries, bySpend));
    keys := order;
    n := CountingFirst(a.entries, bySpend, order);
    OrderedKeys(AgentRanks(a.entries, bySpend), order);
    KnownDigests(log, a.entries, bySpend);
    hide Sums, InRange, Ranked, ListTotal, Tallies, Describes, Only, AgentRanks, Available, Priced, EntriesKept,
        DigestsIn, All, Counts, ShowsAgents, Pair.Plus, AllOk, Ordered;
    r := AgentReport([], [], NO_PAIR);
    ghost var p := Parts({}, {}, {});
    TalliesNothing(log);
    StartAgents(a.entries, order, n, top);
    ok := true;
    for i := 0 to |order|
      invariant ok && ShowsAgents(a.entries, order, n, top, i, r) && Tallies(log, r, p) && All(p) == SetOf(order[..i])
    {
      NextKey(order, i);
      ok, r, p := FinishOne(log, a.known, a.entries, bySpend, order, n, top, i, r, p);
    }
    assert order[..|order|] == order;
    AgentsConserved(log, r, p);
    ChangesDescend(a.entries, bySpend, order, n, top, r);
    hide LargestChanges;
  }

  lemma StartAgents(entries: map<nat, Entry>, keys: seq<nat>, n: nat, top: nat)
    requires n <= |keys|
    ensures ShowsAgents(entries, keys, n, top, 0, AgentReport([], [], NO_PAIR)) && All(Parts({}, {}, {})) == {}
  {
  }

  lemma KnownDigests(log: seq<Row>, entries: map<nat, Entry>, bySpend: bool)
    requires EntriesKept(log, entries)
    ensures AgentRanks(entries, bySpend).Keys == DigestsIn(log) == entries.Keys
  {
  }

  lemma EntryKept(log: seq<Row>, entries: map<nat, Entry>, d: nat)
    requires EntriesKept(log, entries) && d in entries && AllOk(log)
    ensures entries[d].totals == Sums(log, Only(d)) && entries[d].totals.before.Consistent()
    ensures entries[d].totals.after.Consistent()
  {
    SumConsistent(log, Only(d), false);
    SumConsistent(log, Only(d), true);
    hide Measures.Consistent, Sum;
  }

  /** Handles the agent in place `i`. */
  method FinishOne(ghost log: seq<Row>, ghost known: Pair, entries: map<nat, Entry>, bySpend: bool, keys: seq<nat>,
      ghost n: nat,
                   top: nat, i: nat, r: AgentReport, ghost p: Parts)
    returns (ok: bool, r': AgentReport, ghost p': Parts)
    requires known == Sums(log, ANYONE) && InRange(known, |log|) && |log| <= MAX_INT64 && AllOk(log)
    requires EntriesKept(log, entries) && i < |keys| && n <= |keys| && keys[i] in entries
    requires forall k :: 0 <= k < |keys| ==> (k < n <==> Counts(entries, bySpend, keys[k]))
    requires ShowsAgents(entries, keys, n, top, i, r) && Tallies(log, r, p) && keys[i] !in All(p)
    ensures ok && ShowsAgents(entries, keys, n, top, i + 1, r') && Tallies(log, r', p') && All(p') == All(p) + {keys[i]}
  {
    var d := keys[i];
    EntryKept(log, entries, d);
    hide Sums, InRange, ListTotal, Tallies, Available, Priced, EntriesKept, Only, Measures.Consistent, Pair.Plus,
        RowOk, ShowsAgents, AgentsOf;
    var c := Contribute(entries, d);
    DescribesKey(entries, d, c);
    TalliesShown(log, r, p, c);
    ShowsNext(entries, bySpend, keys, n, top, i, r, c);
    hide Describes, All;
    AllMore(p, d);
    ok := true;
    if bySpend && c.delta.None? {
      r' := r.(unavailable := r.unavailable + [c]);
      p' := p.(aside := p.aside + {d});
    } else if i >= top {
      var undisplayed;
      AgentsOnly(p.merged + {d});
      ok, undisplayed := MergeAgent(log, known, AgentsOf(p.merged + {d}), r.undisplayed, c.totals);
      r' := r.(undisplayed := undisplayed);
      p' := p.(merged := p.merged + {d});
    } else {
      r' := r.(contributors := r.contributors + [c]);
      p' := p.(shown := p.shown + {d});
    }
  }

  lemma DescribesKey(entries: map<nat, Entry>, d: nat, c: Contributor)
    requires Describes(entries, d, c)
    ensures c.digest == d && c.totals == entries[d].totals && (c.delta.Some? <==> Available(entries[d].totals))
  {
  }

  lemma AgentsOnly(digests: set<nat>)
    ensures forall x :: x in AgentsOf(digests) ==> x.Agent?
  {
  }

  lemma AllMore(p: Parts, d: nat)
    ensures All(p.(shown := p.shown + {d})) == All(p) + {d} && All(p.(aside := p.aside + {d})) == All(p) + {d}
    ensures All(p.(merged := p.merged + {d})) == All(p) + {d}
  {
  }

  lemma ShowsNext(entries: map<nat, Entry>, bySpend: bool, keys: seq<nat>, n: nat, top: nat, i: nat, r: AgentReport,
      c: Contributor)
    requires i < |keys| && n <= |keys| && ShowsAgents(entries, keys, n, top, i, r) && Describes(entries, keys[i], c)
    requires forall k :: 0 <= k < |keys| ==> (k < n <==> Counts(entries, bySpend, keys[k]))
    ensures bySpend && c.delta.None? ==>
      ShowsAgents(entries, keys, n, top, i + 1, r.(unavailable := r.unavailable + [c]))
    ensures !(bySpend && c.delta.None?) && i < top ==>
      ShowsAgents(entries, keys, n, top, i + 1, r.(contributors := r.contributors + [c]))
    ensures !(bySpend && c.delta.None?) && i >= top ==> forall m :: ShowsAgents(entries, keys, n, top, i + 1, r.(undisplayed := m))
  {
    DescribesKey(entries, keys[i], c);
    assert i < n <==> Counts(entries, bySpend, keys[i]);
    hide Describes, Available;
  }

  /** Merging an agent into the remainder never overflows. */
  method MergeAgent(ghost log: seq<Row>, ghost known: Pair, ghost agents: set<Agent>, a: Pair, b: Pair)
    returns (ok: bool, sum: Pair)
    requires known == Sums(log, ANYONE) && InRange(known, |log|) && |log| <= MAX_INT64
    requires a.Plus(b) == Sums(log, Attributed(agents)) && forall x :: x in agents ==> x.Agent?
    ensures ok && sum == Sums(log, Attributed(agents))
  {
    SumsBelow(log, Attributed(agents), ANYONE);
    RoutingReport.BelowMerge(a.before, b.before, known.before, |log|);
    RoutingReport.BelowMerge(a.after, b.after, known.after, |log|);
    hide Sums, Below, MergeFits, Measures.Fit;
    var before, after;
    ok, before := Merge(a.before, b.before);
    if !ok {
      return false, a;
    }
    ok, after := Merge(a.after, b.after);
    sum := Pair(before, after);
  }
}
