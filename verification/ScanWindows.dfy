/** The scan over closed windows: which windows form the baseline, and when a repeated
    candidate becomes a finding. */
module ScanWindows {
  import opened Common

  const MIN_BASELINE: nat := 6

  /** A window of summaries. */
  datatype Frame = Frame(start: int, end: int, emitted: int, complete: bool)

  /** What a finding is about: the same identity in adjacent windows is a streak. */
  datatype Identity = Identity(signal: string, measurement: string, key: nat, direction: string)

  datatype Finding = Finding(id: Identity, score: real)

  datatype Options = Options(baseline: nat, recent: nat, persist: nat, top: nat, now: int, maxAge: int) {
    predicate Valid() {
      MIN_BASELINE <= baseline <= 384 && 1 <= recent <= 128 && 1 <= persist <= 32 && 1 <= top <= 100
    }
  }

  datatype Window = Window(start: int, end: int, complete: bool, findings: seq<Finding>, omitted: nat, pending: nat)

  /** Indices into the closed windows: the baseline is [from, check), findings are
      looked for from `check` on, and windows from `recent` on are reported. */
  datatype Split = Split(from: nat, check: nat, recent: nat)

  datatype Report = NotReady(windows: seq<Window>) | Evaluated(base: seq<Frame>, windows: seq<Window>, unusual: nat)

  type Detector = (seq<Frame>, Frame) -> seq<Finding>

  /** Windows of one length; nothing is said of their order or of gaps between them. */
  ghost predicate Regular(frames: seq<Frame>, duration: int) {
    duration > 0 && forall i :: 0 <= i < |frames| ==> frames[i].end == frames[i].start + duration
  }

  function Floor(x: int): nat { if x < 0 then 0 else x }

  function SplitOf(n: nat, o: Options): (s: Split)
    requires o.Valid()
    ensures s.from <= s.check <= s.recent <= n
    ensures n > 0 ==> s.recent < n
  {
    var recent := Floor(n - o.recent);
    var check := Floor(recent - o.persist + 1);
    Split(Floor(check - o.baseline), check, recent)
  }

  /** The selected history supports a comparison. */
  ghost predicate Ready(closed: seq<Frame>, o: Options)
    requires o.Valid()
  {
    var s := SplitOf(|closed|, o);
    && s.check - s.from >= MIN_BASELINE
    && o.now - closed[|closed| - 1].end <= o.maxAge
    && forall i :: s.from <= i < |closed| ==> Usable(closed, o, s, i)
  }

  /** Nothing is wrong with window `i`. */
  predicate Usable(closed: seq<Frame>, o: Options, s: Split, i: nat)
    requires i < |closed|
  {
    && closed[i].emitted <= o.now
    && (i > s.from ==> closed[i-1].end == closed[i].start)
    && (i < s.check ==> closed[i].complete)
  }

  /** From the baseline's first window on, windows follow each other without a gap. */
  lemma {:induction false} Adjoining(closed: seq<Frame>, o: Options, duration: int, i: nat, j: nat)
    requires o.Valid() && Regular(closed, duration) && Ready(closed, o)
    requires SplitOf(|closed|, o).from <= i <= j < |closed|
    ensures closed[j].start == closed[i].start + (j - i) * duration
    decreases j - i
  {
    if i < j {
      Adjoining(closed, o, duration, i, j - 1);
      assert Usable(closed, o, SplitOf(|closed|, o), j);
      Longer(j - 1 - i, duration);
    }
  }

  lemma Longer(n: int, duration: int)
    ensures (n + 1) * duration == n * duration + duration
  {
  }

  lemma NotLonger(m: int, n: int, duration: int)
    requires m <= n && duration > 0
    ensures m * duration <= n * duration
  {
  }

  /** Every baseline window ends before any checked window starts, and together they cover
      one stretch of time without a gap: both follow from adjacent windows adjoining. */
  lemma BaselineSound(closed: seq<Frame>, o: Options, duration: int)
    requires o.Valid() && Regular(closed, duration) && Ready(closed, o)
    ensures var s := SplitOf(|closed|, o);
      && MIN_BASELINE <= s.check - s.from <= o.baseline && s.recent == s.check + o.persist - 1
      && (forall b, c :: s.from <= b < s.check <= c < |closed| ==> closed[b].end <= closed[c].start)
      && closed[|closed| - 1].end == closed[s.from].start + (|closed| - s.from) * duration
  {
    var s := SplitOf(|closed|, o);
    forall b, c | s.from <= b < s.check <= c < |closed| ensures closed[b].end <= closed[c].start {
      Adjoining(closed, o, duration, b, c);
      NotLonger(1, c - b, duration);
    }
    Adjoining(closed, o, duration, s.from, |closed| - 1);
    Longer(|closed| - 1 - s.from, duration);
  }

  /** What an evaluated report can be relied on for: a long enough baseline of complete
      windows, one after the other, that ends before any reported window starts and reaches,
      with the windows that are only checked, exactly up to the first reported one. */
  ghost predicate Grounded(r: Report, o: Options, duration: int)
    requires r.Evaluated?
  {
    && MIN_BASELINE <= |r.base| <= o.baseline
    && (forall i :: 0 <= i < |r.base| ==> r.base[i].complete && r.base[i].start == r.base[0].start + i * duration)
    && (forall b, w :: b in r.base && w in r.windows ==> b.end <= w.start)
    && r.windows != [] && r.windows[0].start == r.base[0].start + (|r.base| + o.persist - 1) * duration
    && o.now - r.windows[|r.windows| - 1].end <= o.maxAge && forall b :: b in r.base ==> b.emitted <= o.now
  }

  lemma BaseGrounded(closed: seq<Frame>, o: Options, duration: int, i: nat)
    requires o.Valid() && Regular(closed, duration) && Ready(closed, o)
    requires var s := SplitOf(|closed|, o); s.from + i < s.check
    ensures var f := closed[SplitOf(|closed|, o).from + i];
      f.complete && f.emitted <= o.now && f.start == closed[SplitOf(|closed|, o).from].start + i * duration
  {
    var s := SplitOf(|closed|, o);
    assert Usable(closed, o, s, s.from + i);
    Adjoining(closed, o, duration, s.from, s.from + i);
  }

  lemma ShownStart(closed: seq<Frame>, base: seq<Frame>, detect: Detector, o: Options, s: Split, windows: seq<Window>, w: Window)
    requires Shows(closed, base, detect, o, s, |closed|, windows) && w in windows
    ensures exists k :: s.recent <= k < |closed| && w.start == closed[k].start
  {
    hide FindingsAt, CandidatesAt;
    var k :| 0 <= k < |windows| && windows[k] == w;
    assert w.start == closed[s.recent + k].start;
  }

  lemma ReportGrounded(closed: seq<Frame>, o: Options, duration: int, detect: Detector, r: Report)
    requires o.Valid() && Regular(closed, duration) && closed != [] && Ready(closed, o) && r.Evaluated?
    requires var s := SplitOf(|closed|, o); r.base == closed[s.from..s.check] && Shows(closed, r.base, detect, o, s, |closed|, r.windows)
    ensures Grounded(r, o, duration)
  {
    hide Ready, Regular, Shows;
    var s := SplitOf(|closed|, o);
    BaselineSound(closed, o, duration);
    forall i | 0 <= i < |r.base| ensures r.base[i].complete && r.base[i].emitted <= o.now && r.base[i].start == r.base[0].start + i * duration {
      BaseGrounded(closed, o, duration, i);
    }
    forall b, w | b in r.base && w in r.windows ensures b.end <= w.start {
      var i :| 0 <= i < |r.base| && r.base[i] == b;
      ShownStart(closed, r.base, detect, o, s, r.windows, w);
    }
    FirstShown(closed, r.base, detect, o, s, r.windows);
    LastFresh(closed, o);
    Adjoining(closed, o, duration, s.from, s.recent);
  }

  lemma FirstShown(closed: seq<Frame>, base: seq<Frame>, detect: Detector, o: Options, s: Split, windows: seq<Window>)
    requires Shows(closed, base, detect, o, s, |closed|, windows) && s.recent < |closed|
    ensures windows != [] && windows[0].start == closed[s.recent].start
    ensures windows[|windows| - 1].end == closed[|closed| - 1].end
  {
    hide FindingsAt, CandidatesAt;
  }

  lemma LastFresh(closed: seq<Frame>, o: Options)
    requires o.Valid() && closed != [] && Ready(closed, o)
    ensures o.now - closed[|closed| - 1].end <= o.maxAge
  {
  }

  // ----- streaks

  /** Window `i` is complete and has a candidate with this identity. */
  ghost predicate Candidate(closed: seq<Frame>, base: seq<Frame>, detect: Detector, i: nat, id: Identity)
    requires i < |closed|
  {
    closed[i].complete && exists f :: f in detect(base, closed[i]) && f.id == id
  }

  /** How many adjacent windows up to `i`, from `check` on, had the candidate. */
  ghost function Streak(closed: seq<Frame>, base: seq<Frame>, detect: Detector, check: nat, i: int, id: Identity): nat
    requires i < |closed|
    decreases i - check
  {
    if i < check || !Candidate(closed, base, detect, i, id) then 0 else Streak(closed, base, detect, check, i - 1, id) + 1
  }

  /** A streak is long enough exactly when the last windows all had the candidate. */
  lemma {:induction false} StreakMeans(closed: seq<Frame>, base: seq<Frame>, detect: Detector, check: nat, i: int,
      id: Identity, n: nat)
    requires check - 1 <= i < |closed|
    ensures Streak(closed, base, detect, check, i, id) >= n
       <==> i - n + 1 >= check && forall j :: i - n < j <= i && 0 <= j ==> Candidate(closed, base, detect, j, id)
    decreases n
  {
    hide Candidate;
    if n > 0 && i >= check {
      StreakMeans(closed, base, detect, check, i - 1, id, n - 1);
    }
  }

  ghost predicate StreaksAre(closed: seq<Frame>, base: seq<Frame>, detect: Detector, check: nat, i: int,
      streaks: map<Identity, nat>)
    requires i < |closed|
  {
    forall id :: (if id in streaks then streaks[id] else 0) == Streak(closed, base, detect, check, i, id)
  }

  // ----- one window

  /** The candidates that have lasted long enough, in order. */
  ghost function Lasting(candidates: seq<Finding>, persist: nat, streak: Identity -> nat): seq<Finding> {
    if candidates == [] then []
    else
      var f := candidates[|candidates| - 1];
      Lasting(candidates[..|candidates| - 1], persist, streak) + if streak(f.id) >= persist then [f] else []
  }

  lemma {:induction false} LastingMembers(candidates: seq<Finding>, persist: nat, streak: Identity -> nat, f: Finding)
    ensures f in Lasting(candidates, persist, streak) <==> f in candidates && streak(f.id) >= persist
  {
    if candidates != [] {
      LastingMembers(candidates[..|candidates| - 1], persist, streak, f);
      assert candidates == candidates[..|candidates| - 1] + [candidates[|candidates| - 1]];
    }
  }

  ghost function StreakOf(closed: seq<Frame>, base: seq<Frame>, detect: Detector, check: nat, i: nat): Identity -> nat
    requires i < |closed|
  {
    id => if i < |closed| then Streak(closed, base, detect, check, i, id) else 0
  }

  ghost function CandidatesAt(closed: seq<Frame>, base: seq<Frame>, detect: Detector, i: nat): seq<Finding>
    requires i < |closed|
  {
    if closed[i].complete then detect(base, closed[i]) else []
  }

  /** Everything window `i` finds, before the display is cut off. */
  ghost function FindingsAt(closed: seq<Frame>, base: seq<Frame>, detect: Detector, check: nat, persist: nat,
      i: nat): seq<Finding>
    requires i < |closed|
  {
    Lasting(CandidatesAt(closed, base, detect, i), persist, StreakOf(closed, base, detect, check, i))
  }

  /** A reported window finds a candidate exactly when the same signal, measurement,
      key and direction was a candidate in each of the last `persist` windows. */
  lemma PersistenceMeans(closed: seq<Frame>, base: seq<Frame>, detect: Detector, o: Options, i: nat, f: Finding)
    requires o.Valid() && Ready(closed, o) && SplitOf(|closed|, o).recent <= i < |closed|
    ensures var s := SplitOf(|closed|, o);
      f in FindingsAt(closed, base, detect, s.check, o.persist, i)
      <==> && f in CandidatesAt(closed, base, detect, i)
           && forall j: nat :: i - o.persist < j <= i ==> Candidate(closed, base, detect, j, f.id)
  {
    var s := SplitOf(|closed|, o);
    assert i - o.persist + 1 >= s.check;
    LastingMembers(CandidatesAt(closed, base, detect, i), o.persist, StreakOf(closed, base, detect, s.check, i), f);
    StreakMeans(closed, base, detect, s.check, i, f.id, o.persist);
    hide Candidate, Lasting, CandidatesAt, Streak;
  }

  /** Matches one window's candidates against the streaks so far. */
  method Persist(candidates: seq<Finding>, streaks: map<Identity, nat>, persist: nat)
    returns (findings: seq<Finding>, pending: nat, next: map<Identity, nat>)
    ensures next == NextStreaks(candidates, streaks)
    ensures findings == Lasting(candidates, persist, id => if id in next then next[id] else 0)
    ensures |findings| + pending == |candidates|
  {
    findings, pending, next := [], 0, map[];
    ghost var full := NextStreaks(candidates, streaks);
    ghost var streak := id => if id in full then full[id] else 0;
    hide NextStreaks, Lasting, Identities;
    NextNone(streaks);
    LastingNone(persist, streak);
    for k := 0 to |candidates|
      invariant next == NextStreaks(candidates[..k], streaks)
      invariant findings == Lasting(candidates[..k], persist, streak) && |findings| + pending == k
    {
      var f := candidates[k];
      LastingMore(candidates, persist, streak, k);
      NextOne(candidates, streaks, k);
      var count := Length(streaks, f.id) + 1;
      next := next[f.id := count];
      if count < persist {
        pending := pending + 1;
        AppendNil(findings);
      } else {
        findings := findings + [f];
      }
    }
    assert candidates[..|candidates|] == candidates;
  }

  lemma LastingNone(persist: nat, streak: Identity -> nat)
    ensures Lasting([], persist, streak) == []
  {
  }

  lemma LastingMore(candidates: seq<Finding>, persist: nat, streak: Identity -> nat, k: nat)
    requires k < |candidates|
    ensures Lasting(candidates[..k+1], persist, streak)
         == Lasting(candidates[..k], persist, streak) + if streak(candidates[k].id) >= persist then [candidates[k]] else []
  {
    assert candidates[..k+1][..k] == candidates[..k];
  }

  function Length(streaks: map<Identity, nat>, id: Identity): nat {
    if id in streaks then streaks[id] else 0
  }

  function Identities(candidates: seq<Finding>): set<Identity> {
    set f | f in candidates :: f.id
  }

  /** Every candidate's streak grows by one; the others end. */
  function NextStreaks(candidates: seq<Finding>, streaks: map<Identity, nat>): map<Identity, nat> {
    map id | id in Identities(candidates) :: Length(streaks, id) + 1
  }

  lemma NextNone(streaks: map<Identity, nat>)
    ensures NextStreaks([], streaks) == map[]
  {
  }

  lemma NextOne(candidates: seq<Finding>, streaks: map<Identity, nat>, k: nat)
    requires k < |candidates|
    ensures var id := candidates[k].id;
      && NextStreaks(candidates[..k+1], streaks) == NextStreaks(candidates[..k], streaks)[id := Length(streaks, id) + 1]
      && id in NextStreaks(candidates, streaks) && NextStreaks(candidates, streaks)[id] == Length(streaks, id) + 1
  {
    var f := candidates[k];
    assert candidates[..k+1] == candidates[..k] + [f] && f in candidates;
    assert Identities(candidates[..k+1]) == Identities(candidates[..k]) + {f.id} by {
      forall id ensures id in Identities(candidates[..k+1]) <==> id in Identities(candidates[..k]) || id == f.id {
        if id in Identities(candidates[..k]) {
          var g :| g in candidates[..k] && g.id == id;
          assert g in candidates[..k+1];
        }
        assert f in candidates[..k+1];
      }
    }
  }

  /** The next window's streaks continue the last one's. */
  lemma StreaksContinue(closed: seq<Frame>, base: seq<Frame>, detect: Detector, check: nat, i: nat,
      streaks: map<Identity, nat>)
    requires check <= i < |closed| && StreaksAre(closed, base, detect, check, i - 1, streaks)
    ensures StreaksAre(closed, base, detect, check, i, NextStreaks(CandidatesAt(closed, base, detect, i), streaks))
  {
    var candidates := CandidatesAt(closed, base, detect, i);
    forall id ensures Length(NextStreaks(candidates, streaks), id) == Streak(closed, base, detect, check, i, id) {
      assert Length(streaks, id) == Streak(closed, base, detect, check, i - 1, id);
      assert id in Identities(candidates) <==> Candidate(closed, base, detect, i, id);
    }
  }

  lemma {:induction false} SameStreaks(candidates: seq<Finding>, persist: nat, a: Identity -> nat, b: Identity -> nat)
    requires forall id :: a(id) == b(id)
    ensures Lasting(candidates, persist, a) == Lasting(candidates, persist, b)
  {
    if candidates != [] {
      SameStreaks(candidates[..|candidates| - 1], persist, a, b);
    }
  }

  // ----- the scan

  /** What the report shows of window `i`. */
  ghost function WindowAt(closed: seq<Frame>, base: seq<Frame>, detect: Detector, o: Options, check: nat,
      i: nat): Window
    requires i < |closed|
  {
    var f, all := closed[i], FindingsAt(closed, base, detect, check, o.persist, i);
    Window(f.start, f.end, f.complete, if |all| > o.top then all[..o.top] else all, Floor(|all| - o.top),
           Floor(|CandidatesAt(closed, base, detect, i)| - |all|))
  }

  ghost predicate Shows(closed: seq<Frame>, base: seq<Frame>, detect: Detector, o: Options, s: Split, i: nat,
      windows: seq<Window>)
    requires i <= |closed|
  {
    && |windows| == Floor(i - s.recent)
    && forall k :: 0 <= k < |windows| ==> s.recent + k < i && windows[k] == WindowAt(closed, base, detect, o, s.check, s.recent + k)
  }

  /** How many reported windows found something. */
  function Unusual(windows: seq<Window>): nat {
    if windows == [] then 0 else Unusual(windows[..|windows| - 1]) + if windows[|windows| - 1].findings != [] then 1 else 0
  }

  function ClosedOf(frames: seq<Frame>, now: int): seq<Frame> {
    if frames == [] then []
    else ClosedOf(frames[..|frames| - 1], now) + if frames[|frames| - 1].end <= now then [frames[|frames| - 1]] else []
  }

  /** The closed windows are those that have ended, as often as they occur. */
  lemma {:induction false} ClosedMembers(frames: seq<Frame>, now: int, f: Frame)
    ensures multiset(ClosedOf(frames, now))[f] == if f.end <= now then multiset(frames)[f] else 0
  {
    if frames != [] {
      var before, last := frames[..|frames| - 1], frames[|frames| - 1];
      ClosedMembers(before, now, f);
      assert frames == before + [last];
    }
  }

  /** How far a report reaches back: it shows as many of the last closed windows as were
      asked for, in order, and its baseline is as many as were asked for of those before the
      windows that are only checked. */
  ghost predicate Reaches(closed: seq<Frame>, o: Options, r: Report) {
    var n, m := |closed|, |r.windows|;
    && m == Min(o.recent, n)
    && (forall k :: 0 <= k < m ==> r.windows[k].start == closed[n - m + k].start && r.windows[k].end == closed[n - m + k].end)
    && (r.Evaluated? ==> Precedes(closed, o, r.base, n - m - (o.persist - 1)))
  }

  /** The last windows before `check`. */
  ghost predicate Precedes(closed: seq<Frame>, o: Options, base: seq<Frame>, check: int) {
    |base| == Min(o.baseline, check) && check <= |closed| && base == closed[check - |base|..check]
  }

  /** A history nothing is wrong with. */
  ghost predicate Healthy(closed: seq<Frame>, o: Options) {
    && |closed| >= MIN_BASELINE + o.recent + o.persist - 1 && o.now - closed[|closed| - 1].end <= o.maxAge
    && (forall f :: f in closed ==> f.complete && f.emitted <= o.now)
    && (forall i, j :: 0 <= i < |closed| && j == i + 1 < |closed| ==> closed[i].end == closed[j].start)
  }

  lemma HealthyReady(closed: seq<Frame>, o: Options)
    requires o.Valid() && Healthy(closed, o)
    ensures Ready(closed, o)
  {
    var s := SplitOf(|closed|, o);
    forall i | s.from <= i < |closed| ensures Usable(closed, o, s, i) {
      assert closed[i] in closed;
      if i > 0 {
        assert closed[i-1].end == closed[i].start;
      }
    }
  }

  lemma ReportReaches(closed: seq<Frame>, o: Options, detect: Detector, r: Report)
    requires o.Valid() && closed != []
    requires Ready(closed, o) && r.Evaluated?
    requires var s := SplitOf(|closed|, o);
      r.base == closed[s.from..s.check] && Shows(closed, r.base, detect, o, s, |closed|, r.windows)
    ensures Reaches(closed, o, r)
  {
    hide FindingsAt, CandidatesAt;
    var n, m := |closed|, |r.windows|;
    var check := n - m - (o.persist - 1);
    assert check == SplitOf(n, o).check;
    assert |r.base| == Min(o.baseline, check);
  }

  /** Scans the closed windows. Without a usable history nothing is compared. */
  method Scan(frames: seq<Frame>, o: Options, detect: Detector, ghost duration: int) returns (r: Report)
    requires o.Valid() && Regular(frames, duration)
    ensures r.Evaluated? ==> Grounded(r, o, duration)
    ensures Reaches(ClosedOf(frames, o.now), o, r)
    ensures Healthy(ClosedOf(frames, o.now), o) ==> r.Evaluated?
    ensures var closed := ClosedOf(frames, o.now);
      var s := SplitOf(|closed|, o);
      && (r.Evaluated? <==> closed != [] && Ready(closed, o))
      && (r.Evaluated? ==>
            && r.base == closed[s.from..s.check] && Shows(closed, r.base, detect, o, s, |closed|, r.windows)
            && r.unusual == Unusual(r.windows))
      && (r.NotReady? ==> |r.windows| == |closed| - s.recent && forall k :: 0 <= k < |r.windows| ==> r.windows[k].findings == [])
  {
    var closed := [];
    for i := 0 to |frames|
      invariant closed == ClosedOf(frames[..i], o.now) && Regular(closed, duration)
    {
      assert frames[..i+1][..i] == frames[..i];
      AppendNil(closed);
      if frames[i].end <= o.now {
        closed := closed + [frames[i]];
      }
    }
    assert frames[..|frames|] == frames;
    if closed == [] {
      return NotReady([]);
    }
    var s := SplitOf(|closed|, o);
    var ready := Check(closed, o, s);
    if Healthy(closed, o) {
      HealthyReady(closed, o);
    }
    if !ready {
      return NotReady(seq(|closed| - s.recent, k requires 0 <= k < |closed| - s.recent =>
                            Window(closed[s.recent + k].start, closed[s.recent + k].end, false, [], 0, 0)));
    }
    var windows, unusual := ScanChecked(closed, closed[s.from..s.check], o, s, detect);
    r := Evaluated(closed[s.from..s.check], windows, unusual);
    ReportGrounded(closed, o, duration, detect, r);
    ReportReaches(closed, o, detect, r);
  }

  method Check(closed: seq<Frame>, o: Options, s: Split) returns (ready: bool)
    requires o.Valid() && closed != [] && s == SplitOf(|closed|, o)
    ensures ready <==> Ready(closed, o)
  {
    var problem := false;
    if s.check - s.from < MIN_BASELINE {
      problem := true;
    } else if o.now - closed[|closed| - 1].end > o.maxAge {
      problem := true;
    }
    ghost var early := problem;
    for i := s.from to |closed|
      invariant problem <==> early || exists j: nat :: s.from <= j < i && !Usable(closed, o, s, j)
    {
      ghost var before := problem;
      if closed[i].emitted > o.now {
        problem := true;
      }
      if i > s.from && closed[i-1].end != closed[i].start {
        problem := true;
      }
      if i < s.check && !closed[i].complete {
        problem := true;
      }
      assert problem <==> before || !Usable(closed, o, s, i);
    }
    ready := !problem;
  }

  method ScanChecked(closed: seq<Frame>, base: seq<Frame>, o: Options, s: Split, detect: Detector)
    returns (windows: seq<Window>, unusual: nat)
    requires o.Valid() && closed != [] && s == SplitOf(|closed|, o)
    ensures Shows(closed, base, detect, o, s, |closed|, windows) && unusual == Unusual(windows)
  {
    hide Candidate, Lasting, Streak, NextStreaks, CandidatesAt, Unusual;
    windows, unusual := [], 0;
    var streaks: map<Identity, nat> := map[];
    NothingYet(closed, base, detect, s.check, s.check - 1);
    UnusualNone();
    for i := s.check to |closed|
      invariant StreaksAre(closed, base, detect, s.check, i - 1, streaks)
      invariant Shows(closed, base, detect, o, s, i, windows) && unusual == Unusual(windows)
    {
      var f := closed[i];
      var findings, pending, next;
      findings, pending, next := PersistWindow(closed, base, detect, o, s, i, streaks);
      streaks := next;
      if i < s.recent {
        continue;
      }
      if |findings| > 0 {
        unusual := unusual + 1;
      }
      var omitted := 0;
      if |findings| > o.top {
        omitted := |findings| - o.top;
        findings := findings[..o.top];
      }
      UnusualMore(windows, Window(f.start, f.end, f.complete, findings, omitted, pending));
      windows := windows + [Window(f.start, f.end, f.complete, findings, omitted, pending)];
    }
  }

  /** One checked window: an incomplete one has no candidates, which ends all streaks. */
  method PersistWindow(closed: seq<Frame>, base: seq<Frame>, detect: Detector, o: Options, s: Split, i: nat,
      streaks: map<Identity, nat>)
    returns (findings: seq<Finding>, pending: nat, next: map<Identity, nat>)
    requires s.check <= i < |closed| && StreaksAre(closed, base, detect, s.check, i - 1, streaks)
    ensures StreaksAre(closed, base, detect, s.check, i, next)
    ensures findings == FindingsAt(closed, base, detect, s.check, o.persist, i)
    ensures pending == |CandidatesAt(closed, base, detect, i)| - |findings|
  {
    hide Candidate, Lasting, Streak, NextStreaks;
    var candidates := if closed[i].complete then detect(base, closed[i]) else [];
    findings, pending, next := Persist(candidates, streaks, o.persist);
    StreaksContinue(closed, base, detect, s.check, i, streaks);
    SameStreaks(candidates, o.persist, id => if id in next then next[id] else 0, StreakOf(closed, base, detect, s.check, i));
  }

  lemma NothingYet(closed: seq<Frame>, base: seq<Frame>, detect: Detector, check: nat, i: int)
    requires i < check && i < |closed|
    ensures StreaksAre(closed, base, detect, check, i, map[])
  {
  }

  lemma UnusualNone()
    ensures Unusual([]) == 0
  {
  }

  lemma UnusualMore(windows: seq<Window>, w: Window)
    ensures Unusual(windows + [w]) == Unusual(windows) + if w.findings != [] then 1 else 0
  {
    assert (windows + [w])[..|windows|] == windows;
  }
}
