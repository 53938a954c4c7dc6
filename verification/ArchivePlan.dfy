/** Choosing what to archive: the newest sequence per slot, the newest windows,
    and the budgets for staging the change. */
module ArchivePlan {
  import opened Common
  import opened ArchiveDisk

  const MAX_ENTRIES: int := 1024
  const MAX_FILES: int := 512
  const MAX_INPUT_BYTES: int := 0x200_0000

  /** A summary document; `encoding` is its canonical form, if it has one. */
  datatype Envelope = Envelope(producer: string, epoch: string, start: nat, duration: nat,
                               emitted: int, sequence: nat, encoding: Option<Bytes>)

  datatype Snapshot = Snapshot(doc: Envelope, data: Bytes)

  type Files = map<FileName, Snapshot>

  /** The archive as listed: recognised snapshots, and entry and byte counts that
      include unrelated files. */
  datatype Inventory = Inventory(files: Files, entries: nat, bytes: nat) {
    ghost predicate Valid() {
      forall n :: n in files ==> n == ArchiveName(files[n].doc)
    }
  }

  /** The producer and epoch behind one unambiguous text. */
  function SlotText(producer: string, epoch: string): string {
    producer + ['\0'] + epoch
  }

  function ArchiveName(doc: Envelope): FileName {
    Archived(doc.start, SlotText(doc.producer, doc.epoch))
  }

  /** The producer ends at the first NUL. */
  lemma SlotTextSplit(producer: string, epoch: string)
    requires '\0' !in producer
    ensures var t := SlotText(producer, epoch);
      && |producer| < |t| && t[|producer|] == '\0' && (forall i :: 0 <= i < |producer| ==> t[i] != '\0')
      && producer == t[..|producer|] && epoch == t[|producer| + 1..]
  {
  }

  /** Identifiers cannot contain NUL, so two documents share an archive name only
      if they share the window, the producer and the epoch. */
  lemma ArchiveNameInjective(a: Envelope, b: Envelope)
    requires '\0' !in a.producer && '\0' !in b.producer
    requires ArchiveName(a) == ArchiveName(b)
    ensures a.start == b.start && a.producer == b.producer && a.epoch == b.epoch
  {
    SlotTextSplit(a.producer, a.epoch);
    SlotTextSplit(b.producer, b.epoch);
    assert |a.producer| == |b.producer|;
  }

  predicate Closed(doc: Envelope, now: int) {
    doc.start + doc.duration <= now && doc.emitted <= now
  }

  // ----- the newest snapshot of each slot

  /** Does this input document replace what is selected so far? */
  predicate Refreshes(sel: Files, doc: Envelope, now: int) {
    && Closed(doc, now)
    && (ArchiveName(doc) in sel ==> sel[ArchiveName(doc)].doc.sequence < doc.sequence)
  }

  function Encoded(doc: Envelope): Snapshot {
    Snapshot(doc, if doc.encoding.Some? then doc.encoding.value else [])
  }

  function Selected(files: Files, input: seq<Envelope>, now: int): Files {
    if input == [] then files
    else
      var sel, doc := Selected(files, input[..|input| - 1], now), input[|input| - 1];
      if Refreshes(sel, doc, now) then sel[ArchiveName(doc) := Encoded(doc)] else sel
  }

  /** `s` is what slot `n` should hold: an archived file, or a closed input
      document, that no archived or closed input document of that slot exceeds;
      an archived file wins a tie, then the earliest input. */
  ghost predicate Newest(files: Files, input: seq<Envelope>, now: int, n: FileName, s: Snapshot) {
    && (n in files ==> files[n].doc.sequence <= s.doc.sequence)
    && (forall k :: 0 <= k < |input| && Closed(input[k], now) && ArchiveName(input[k]) == n ==>
          input[k].sequence <= s.doc.sequence)
    && (if n in files && files[n].doc.sequence == s.doc.sequence then s == files[n]
        else exists k :: 0 <= k < |input| && FirstAt(input, now, n, s, k))
  }

  ghost predicate FirstAt(input: seq<Envelope>, now: int, n: FileName, s: Snapshot, k: int)
    requires 0 <= k < |input|
  {
    && Closed(input[k], now) && ArchiveName(input[k]) == n && s == Encoded(input[k])
    && forall j :: 0 <= j < k && Closed(input[j], now) && ArchiveName(input[j]) == n ==> input[j].sequence < input[k].sequence
  }

  ghost predicate Offered(files: Files, input: seq<Envelope>, now: int, n: FileName) {
    n in files || exists k :: 0 <= k < |input| && Closed(input[k], now) && ArchiveName(input[k]) == n
  }

  lemma {:induction false} SelectedNewest(files: Files, input: seq<Envelope>, now: int, n: FileName)
    ensures n in Selected(files, input, now) <==> Offered(files, input, now, n)
    ensures n in Selected(files, input, now) ==> Newest(files, input, now, n, Selected(files, input, now)[n])
  {
    if input != [] {
      var last := |input| - 1;
      var before, doc := input[..last], input[last];
      SelectedNewest(files, before, now, n);
      var sel := Selected(files, before, now);
      if Refreshes(sel, doc, now) && ArchiveName(doc) == n {
        assert Closed(input[last], now);
        assert FirstAt(input, now, n, Encoded(doc), last) by {
          forall j | 0 <= j < last && Closed(input[j], now) && ArchiveName(input[j]) == n
            ensures input[j].sequence < doc.sequence
          {
            assert before[j] == input[j];
          }
        }
      } else if n in sel {
        if !(n in files && files[n].doc.sequence == sel[n].doc.sequence) {
          var k :| 0 <= k < |before| && FirstAt(before, now, n, sel[n], k);
          assert FirstAt(input, now, n, sel[n], k) by {
            assert forall j :: 0 <= j < k ==> before[j] == input[j];
          }
        }
        if n !in files {
          var k :| 0 <= k < |before| && Closed(before[k], now) && ArchiveName(before[k]) == n;
          assert input[k] == before[k];
        }
      }
    }
  }

  /** The requirement has one answer, so any selection that meets it is the same. */
  lemma NewestUnique(files: Files, input: seq<Envelope>, now: int, n: FileName, s: Snapshot, t: Snapshot)
    requires Newest(files, input, now, n, s) && Newest(files, input, now, n, t)
    ensures s == t
  {
    if !(n in files && files[n].doc.sequence == s.doc.sequence) && !(n in files && files[n].doc.sequence == t.doc.sequence) {
      var j :| 0 <= j < |input| && FirstAt(input, now, n, s, j);
      var k :| 0 <= k < |input| && FirstAt(input, now, n, t, k);
      assert j == k;
    }
  }

  // ----- the newest windows

  ghost function Starts(sel: Files): set<nat> {
    set n | n in sel :: sel[n].doc.start
  }

  ghost function LaterThan(starts: set<nat>, s: nat): set<nat> {
    set t | t in starts && s < t
  }

  /** The newest `keep` window starts. */
  ghost function NewestStarts(starts: set<nat>, keep: nat): set<nat> {
    set s | s in starts && |LaterThan(starts, s)| < keep
  }

  lemma {:induction false} Least(starts: set<nat>) returns (m: nat)
    requires starts != {}
    ensures m in starts && forall s :: s in starts ==> m <= s
    decreases |starts|
  {
    m :| m in starts;
    var rest := starts - {m};
    assert starts == rest + {m};
    if rest != {} {
      var r := Least(rest);
      m := if r < m then r else m;
    }
  }

  /** As many windows are kept as there are, at most `keep`; everything kept is
      newer than everything dropped. */
  lemma {:induction false} NewestStartsCount(starts: set<nat>, keep: nat)
    ensures |NewestStarts(starts, keep)| == if |starts| < keep then |starts| else keep
    ensures forall s, t :: s in NewestStarts(starts, keep) && t in starts && t !in NewestStarts(starts, keep) ==> t < s
    decreases |starts|
  {
    if starts == {} {
      assert NewestStarts(starts, keep) == {};
    } else {
      var m := Least(starts);
      var rest := starts - {m};
      NewestStartsCount(rest, keep);
      forall s | s in rest ensures LaterThan(starts, s) == LaterThan(rest, s) {
      }
      assert LaterThan(starts, m) == rest;
      assert |rest| == |starts| - 1;
      if |rest| < keep {
        assert NewestStarts(starts, keep) == NewestStarts(rest, keep) + {m};
      } else {
        assert NewestStarts(starts, keep) == NewestStarts(rest, keep);
      }
      forall s, t | s in NewestStarts(starts, keep) && t in starts && t !in NewestStarts(starts, keep)
        ensures t < s
      {
        if s < t {
          LaterShrinks(starts, s, t);
        }
      }
    }
  }

  lemma LaterShrinks(starts: set<nat>, s: nat, t: nat)
    requires s <= t
    ensures |LaterThan(starts, t)| <= |LaterThan(starts, s)|
  {
    SubsetSize(LaterThan(starts, t), LaterThan(starts, s));
  }

  /** Dropping starts that are not among the newest, and nothing else, does not
      change which starts are the newest. */
  lemma NewestStartsStable(starts: set<nat>, fewer: set<nat>, keep: nat)
    requires NewestStarts(starts, keep) <= fewer <= starts
    ensures NewestStarts(fewer, keep) == NewestStarts(starts, keep)
  {
    forall s | s in fewer ensures s in NewestStarts(fewer, keep) <==> s in NewestStarts(starts, keep) {
      SubsetSize(LaterThan(fewer, s), LaterThan(starts, s));
      if s !in NewestStarts(starts, keep) {
        NewestStartsCount(starts, keep);
        SubsetSize(LaterThan(starts, s), starts);
        assert NewestStarts(starts, keep) <= LaterThan(fewer, s);
        SubsetSize(NewestStarts(starts, keep), LaterThan(fewer, s));
      }
    }
  }

  /** The archive the rules ask for: the newest snapshot of every slot in the
      newest windows. */
  ghost function Kept(files: Files, input: seq<Envelope>, keep: nat, now: int): Files {
    var sel := Selected(files, input, now);
    map n | n in sel && sel[n].doc.start in NewestStarts(Starts(sel), keep) :: sel[n]
  }

  // ----- the plan

  datatype Plan = Plan(writes: Files, remove: set<FileName>) {
    ghost function Install(files: Files): Files {
      (files - remove) + writes
    }
  }

  function Data(files: Files): Listing {
    map n | n in files :: files[n].data
  }

  ghost predicate SameData(files: Files, n: FileName, s: Snapshot) {
    n in files && files[n].data == s.data
  }

  ghost function PlanOf(files: Files, input: seq<Envelope>, keep: nat, now: int): Plan {
    var kept := Kept(files, input, keep, now);
    Plan(map n | n in kept && !SameData(files, n, kept[n]) :: kept[n], files.Keys - kept.Keys)
  }

  /** Nothing is archived before its window has ended and it has been emitted, and what is
      archived is an input document in its own encoding. */
  lemma WritesClosed(files: Files, input: seq<Envelope>, keep: nat, now: int, n: FileName)
    requires n in PlanOf(files, input, keep, now).writes
    ensures var w := PlanOf(files, input, keep, now).writes[n];
      && w.doc in input && w.doc.start + w.doc.duration <= now && w.doc.emitted <= now
      && (w.doc.encoding.Some? ==> w.data == w.doc.encoding.value)
  {
    SelectedNewest(files, input, now, n);
    var s := Selected(files, input, now)[n];
    assert n in files ==> s != files[n];
    var k :| 0 <= k < |input| && FirstAt(input, now, n, s, k);
    hide Selected;
  }

  /** Some closed input document is older than what the archive holds. */
  ghost predicate Stale(files: Files, input: seq<Envelope>, now: int) {
    exists k :: 0 <= k < |input| && OlderThanArchived(files, input[k], now)
  }

  predicate OlderThanArchived(files: Files, doc: Envelope, now: int) {
    Closed(doc, now) && ArchiveName(doc) in files && doc.sequence < files[ArchiveName(doc)].doc.sequence
  }

  ghost predicate Encodable(files: Files, input: seq<Envelope>, now: int) {
    forall k :: 0 <= k < |input| && Refreshes(Selected(files, input[..k], now), input[k], now) ==> input[k].encoding.Some?
  }

  ghost function Documents(files: Files, input: seq<Envelope>): set<Envelope> {
    (set d | d in input) + set n | n in files :: files[n].doc
  }

  /** The budgets, in terms of the archive before, the archive after, and the
      batch that has to be staged beside the prior files. */
  ghost predicate WithinBudget(current: Inventory, plan: Plan) {
    var final := plan.Install(current.files);
    && |final| <= MAX_FILES
    && |current.files.Keys + plan.writes.Keys| <= MAX_FILES
    && current.entries + |plan.writes| <= MAX_ENTRIES
    && current.bytes - Size(Data(current.files)) + Size(Data(final)) <= MAX_INPUT_BYTES
    && current.bytes + Size(Data(plan.writes)) <= MAX_INPUT_BYTES
  }

  ghost predicate Acceptable(current: Inventory, input: seq<Envelope>, keep: nat, now: int,
      valid: set<Envelope> -> bool) {
    && (forall n :: n in current.files ==> Closed(current.files[n].doc, now))
    && valid(Documents(current.files, input))
    && !Stale(current.files, input, now)
    && Encodable(current.files, input, now)
    && WithinBudget(current, PlanOf(current.files, input, keep, now))
  }

  // ----- the planner

  /** The document set, unless some archived document is not closed yet. */
  method CollectArchived(files: Files, input: seq<Envelope>, now: int) returns (r: Option<set<Envelope>>)
    ensures r == if forall n :: n in files ==> Closed(files[n].doc, now) then Some(Documents(files, input)) else None
  {
    var all := set d | d in input;
    var left := files.Keys;
    while left != {}
      invariant left <= files.Keys
      invariant forall n :: n in files && n !in left ==> Closed(files[n].doc, now)
      invariant all == (set d | d in input) + set n | n in files && n !in left :: files[n].doc
    {
      var name :| name in left;
      if !Closed(files[name].doc, now) {
        return None;
      }
      all := all + {files[name].doc};
      left := left - {name};
    }
    assert all == Documents(files, input);
    return Some(all);
  }

  /** The newest snapshot per slot; fails on a stale or unencodable document. */
  method SelectNewest(files: Files, input: seq<Envelope>, now: int) returns (r: Option<Files>)
    ensures r.Some? <==> !Stale(files, input, now) && Encodable(files, input, now)
    ensures r.Some? ==> r.value == Selected(files, input, now)
  {
    var sel := files;
    for k := 0 to |input|
      invariant sel == Selected(files, input[..k], now)
      invariant forall j :: 0 <= j < k ==> FineSoFar(files, input, now, j)
    {
      assert input[..k+1][..k] == input[..k];
      var doc := input[k];
      if Closed(doc, now) {
        var name := ArchiveName(doc);
        if name in files && doc.sequence < files[name].doc.sequence {
          assert !FineSoFar(files, input, now, k);
          return None;
        }
        if !(name in sel && doc.sequence <= sel[name].doc.sequence) {
          if doc.encoding.None? {
            assert !FineSoFar(files, input, now, k);
            return None;
          }
          sel := sel[name := Snapshot(doc, doc.encoding.value)];
        }
      }
    }
    assert input[..|input|] == input;
    forall k | 0 <= k < |input|
      ensures !OlderThanArchived(files, input[k], now)
      ensures Refreshes(Selected(files, input[..k], now), input[k], now) ==> input[k].encoding.Some?
    {
      assert FineSoFar(files, input, now, k);
    }
    return Some(sel);
  }

  ghost predicate FineSoFar(files: Files, input: seq<Envelope>, now: int, k: int)
    requires 0 <= k < |input|
  {
    && !OlderThanArchived(files, input[k], now)
    && (Refreshes(Selected(files, input[..k], now), input[k], now) ==> input[k].encoding.Some?)
  }

  ghost predicate Ascending(w: seq<nat>) {
    forall i, j :: 0 <= i < j < |w| ==> w[i] < w[j]
  }

  lemma AscendingAppend(w: seq<nat>, x: nat)
    requires Ascending(w) && forall s :: s in w ==> s < x
    ensures Ascending(w + [x])
  {
    forall i, j | 0 <= i < j < |w| + 1 ensures (w + [x])[i] < (w + [x])[j] {
      assert w[i] in w;
    }
  }

  method SortedStarts(starts: set<nat>) returns (w: seq<nat>)
    ensures Ascending(w) && (set s | s in w) == starts
  {
    w := [];
    var left := starts;
    while left != {}
      invariant left <= starts && Ascending(w)
      invariant (set s | s in w) == starts - left
      invariant forall s, t :: s in w && t in left ==> s < t
    {
      var least: nat :| least in left;
      var rest := left - {least};
      while rest != {}
        invariant least in left && rest <= left
        invariant forall t :: t in left && t !in rest ==> least <= t
      {
        var t: nat :| t in rest;
        least := if t < least then t else least;
        rest := rest - {t};
      }
      AscendingAppend(w, least);
      assert (set s | s in w + [least]) == (set s | s in w) + {least};
      OneLess(starts, left, least);
      w := w + [least];
      left := left - {least};
    }
  }

  lemma {:induction false} LaterInSorted(starts: set<nat>, w: seq<nat>, i: nat)
    requires Ascending(w) && (set s | s in w) == starts && i < |w|
    ensures |LaterThan(starts, w[i])| == |w| - 1 - i
    decreases |w| - i
  {
    if i == |w| - 1 {
      assert LaterThan(starts, w[i]) == {};
    } else {
      LaterInSorted(starts, w, i + 1);
      assert LaterThan(starts, w[i]) == LaterThan(starts, w[i+1]) + {w[i+1]};
    }
  }

  /** The newest windows: sort the starts and drop the oldest. */
  method RetainedStarts(sel: Files, keep: nat) returns (kept: set<nat>)
    ensures kept == NewestStarts(Starts(sel), keep)
  {
    kept := set n | n in sel :: sel[n].doc.start;
    ghost var starts := kept;
    var windows := SortedStarts(kept);
    var dropped := if keep < |windows| then |windows| - keep else 0;
    for i := 0 to dropped
      invariant kept == set s | s in starts && s !in windows[..i]
    {
      kept := kept - {windows[i]};
    }
    forall s | s in starts ensures s in kept <==> |LaterThan(starts, s)| < keep {
      var i :| 0 <= i < |windows| && windows[i] == s;
      LaterInSorted(starts, windows, i);
      if s in windows[..dropped] {
        var j :| 0 <= j < dropped && windows[j] == s;
        assert i == j;
      }
    }
  }

  // ----- counting the change

  datatype Counts = Counts(finalBytes: int, finalFiles: int, stagingBytes: int, newFiles: int)

  /** The running counts describe `partly`, the archive with the names dealt with
      so far, and the files staged for it. */
  ghost predicate Counted(current: Inventory, partly: Files, writes: Files, c: Counts) {
    && c.finalBytes == current.bytes - Size(Data(current.files)) + Size(Data(partly))
    && c.finalFiles == |partly|
    && c.stagingBytes == Size(Data(writes))
    && c.newFiles == |writes.Keys - current.files.Keys|
  }

  function Counting(c: Counts, prior: Option<Snapshot>, file: Option<Snapshot>): Counts {
    match file
    case None => if prior.Some? then c.(finalBytes := c.finalBytes - |prior.value.data|, finalFiles := c.finalFiles - 1) else c
    case Some(s) =>
      c.(finalBytes := c.finalBytes + |s.data| - (if prior.Some? then |prior.value.data| else 0),
         stagingBytes := c.stagingBytes + |s.data|,
         finalFiles := c.finalFiles + (if prior.Some? then 0 else 1),
         newFiles := c.newFiles + (if prior.Some? then 0 else 1))
  }

  lemma DataInsert(files: Files, n: FileName, s: Snapshot)
    ensures Size(Data(files[n := s])) == Size(Data(files)) + |s.data| - if n in files then |files[n].data| else 0
  {
    var sizes := Sizes(Data(files));
    assert Sizes(Data(files[n := s])) == sizes[n := |s.data|];
    TotalInsert(sizes, n, |s.data|);
  }

  lemma CountInsert<K, V>(m: map<K, V>, k: K, v: V)
    ensures |m[k := v]| == |m| + if k in m then 0 else 1
  {
    OneMore(m, k, v);
    assert |m[k := v]| == |m[k := v].Keys| && |m| == |m.Keys|;
    if k in m { assert m.Keys + {k} == m.Keys; }
  }

  lemma DataRemove(files: Files, n: FileName)
    requires n in files
    ensures Size(Data(files - {n})) == Size(Data(files)) - |files[n].data|
    ensures |files - {n}| == |files| - 1
  {
    assert Sizes(Data(files - {n})) == Sizes(Data(files)) - {n};
    TotalPick(Sizes(Data(files)), n);
    assert (files - {n}).Keys == files.Keys - {n};
  }

  lemma CountedWrite(current: Inventory, partly: Files, writes: Files, c: Counts, n: FileName, file: Snapshot)
    requires Counted(current, partly, writes, c) && Lookup(partly, n) == Lookup(current.files, n) && n !in writes
    ensures Counted(current, partly[n := file], writes[n := file], Counting(c, Lookup(current.files, n), Some(file)))
  {
    DataInsert(partly, n, file);
    CountInsert(partly, n, file);
    DataInsert(writes, n, file);
    NewKeys(writes, n, file, current.files.Keys);
  }

  lemma CountedRemove(current: Inventory, partly: Files, writes: Files, c: Counts, n: FileName)
    requires Counted(current, partly, writes, c) && Lookup(partly, n) == Lookup(current.files, n) && n in partly
    ensures Counted(current, partly - {n}, writes, Counting(c, Lookup(current.files, n), None))
  {
    DataRemove(partly, n);
  }

  lemma NewKeys(w: Files, n: FileName, s: Snapshot, known: set<FileName>)
    requires n !in w
    ensures |w[n := s].Keys - known| == |w.Keys - known| + if n in known then 0 else 1
  {
    OneMore(w, n, s);
    if n in known {
      assert (w.Keys + {n}) - known == w.Keys - known;
    } else {
      assert (w.Keys + {n}) - known == (w.Keys - known) + {n};
    }
  }

  lemma CountedStart(current: Inventory)
    ensures Counted(current, current.files, map[], Counts(current.bytes, |current.files|, 0, 0))
    ensures Plan(map[], {}).Install(current.files) == current.files
  {
    assert Sizes(Data(map[])) == map[];
  }

  predicate Fits(current: Inventory, plan: Plan, c: Counts) {
    && c.finalFiles <= MAX_FILES && |current.files| + c.newFiles <= MAX_FILES
    && current.entries + |plan.writes| <= MAX_ENTRIES
    && c.finalBytes <= MAX_INPUT_BYTES && current.bytes + c.stagingBytes <= MAX_INPUT_BYTES
  }

  /** The counters decide the budget. */
  lemma FitsMeans(current: Inventory, plan: Plan, c: Counts)
    requires Counted(current, plan.Install(current.files), plan.writes, c)
    ensures Fits(current, plan, c) <==> WithinBudget(current, plan)
  {
    UnionSize(current.files.Keys, plan.writes.Keys);
    assert |current.files| == |current.files.Keys|;
  }

  lemma UnionSize<T>(a: set<T>, b: set<T>)
    ensures |a + b| == |a| + |b - a|
  {
    assert a + b == a + (b - a);
  }

  ghost predicate Planned(files: Files, sel: Files, starts: set<nat>, plan: Plan) {
    && plan.writes == (map n | n in sel && sel[n].doc.start in starts && !SameData(files, n, sel[n]) :: sel[n])
    && plan.remove == set n | n in files && n in sel && sel[n].doc.start !in starts
  }

  /** Every name but those in `left` is settled. */
  ghost predicate SettledBut(files: Files, sel: Files, starts: set<nat>, left: set<FileName>, writes: Files,
      remove: set<FileName>) {
    && left <= sel.Keys
    && (forall n :: n in left ==> n !in writes && n !in remove)
    && (forall n :: n !in left ==> Settled(files, sel, starts, writes, remove, n))
  }

  lemma SettledRemove(files: Files, sel: Files, starts: set<nat>, left: set<FileName>, writes: Files,
      remove: set<FileName>, n: FileName)
    requires SettledBut(files, sel, starts, left, writes, remove)
    requires n in left && sel[n].doc.start !in starts && n in files
    ensures SettledBut(files, sel, starts, left - {n}, writes, remove + {n})
  {
    forall k | k !in left - {n} ensures Settled(files, sel, starts, writes, remove + {n}, k) {
      assert k !in left ==> Settled(files, sel, starts, writes, remove, k);
    }
  }

  lemma SettledWrite(files: Files, sel: Files, starts: set<nat>, left: set<FileName>, writes: Files,
      remove: set<FileName>, n: FileName)
    requires SettledBut(files, sel, starts, left, writes, remove)
    requires n in left && sel[n].doc.start in starts && !SameData(files, n, sel[n])
    ensures SettledBut(files, sel, starts, left - {n}, writes[n := sel[n]], remove)
  {
    forall k | k !in left - {n} ensures Settled(files, sel, starts, writes[n := sel[n]], remove, k) {
      assert k !in left ==> Settled(files, sel, starts, writes, remove, k);
    }
  }

  lemma SettledSkip(files: Files, sel: Files, starts: set<nat>, left: set<FileName>, writes: Files,
      remove: set<FileName>, n: FileName)
    requires SettledBut(files, sel, starts, left, writes, remove) && n in left
    requires if sel[n].doc.start in starts then SameData(files, n, sel[n]) else n !in files
    ensures SettledBut(files, sel, starts, left - {n}, writes, remove)
  {
    forall k | k !in left - {n} ensures Settled(files, sel, starts, writes, remove, k) {
      assert k !in left ==> Settled(files, sel, starts, writes, remove, k);
    }
  }

  lemma SettledAll(files: Files, sel: Files, starts: set<nat>, writes: Files, remove: set<FileName>)
    requires SettledBut(files, sel, starts, {}, writes, remove)
    ensures Planned(files, sel, starts, Plan(writes, remove))
  {
    var want: Files := map n | n in sel && sel[n].doc.start in starts && !SameData(files, n, sel[n]) :: sel[n];
    forall n: FileName ensures Lookup(writes, n) == Lookup(want, n) {
      assert Settled(files, sel, starts, writes, remove, n);
    }
    SameLookup(writes, want);
    forall n ensures n in remove <==> n in files && n in sel && sel[n].doc.start !in starts {
      assert Settled(files, sel, starts, writes, remove, n);
    }
  }

  lemma CountRemoval(current: Inventory, sel: Files, starts: set<nat>, left: set<FileName>, batch: Plan, c: Counts,
      n: FileName)
    requires SettledBut(current.files, sel, starts, left, batch.writes, batch.remove) && n in left && n in current.files
    requires Counted(current, batch.Install(current.files), batch.writes, c)
    ensures Counted(current, batch.(remove := batch.remove + {n}).Install(current.files), batch.writes,
                    Counting(c, Lookup(current.files, n), None))
  {
    InstallRemoves(current.files, batch.writes, batch.remove, n);
    CountedRemove(current, batch.Install(current.files), batch.writes, c, n);
  }

  lemma CountWrite(current: Inventory, sel: Files, starts: set<nat>, left: set<FileName>, batch: Plan, c: Counts,
      n: FileName)
    requires SettledBut(current.files, sel, starts, left, batch.writes, batch.remove) && n in left
    requires Counted(current, batch.Install(current.files), batch.writes, c)
    ensures Counted(current, batch.(writes := batch.writes[n := sel[n]]).Install(current.files), batch.writes[n := sel[n]],
                    Counting(c, Lookup(current.files, n), Some(sel[n])))
  {
    InstallWrites(current.files, batch.writes, batch.remove, n, sel[n]);
    CountedWrite(current, batch.Install(current.files), batch.writes, c, n, sel[n]);
  }

  /** Compares the selection with the archive, counting what the change costs. */
  method PlanChanges(current: Inventory, sel: Files, starts: set<nat>) returns (counts: Counts, plan: Plan)
    requires current.files.Keys <= sel.Keys
    ensures Planned(current.files, sel, starts, plan)
    ensures Counted(current, plan.Install(current.files), plan.writes, counts)
  {
    plan := Plan(map[], {});
    counts := Counts(current.bytes, |current.files|, 0, 0);
    CountedStart(current);
    var left := sel.Keys;
    while left != {}
      invariant SettledBut(current.files, sel, starts, left, plan.writes, plan.remove)
      invariant Counted(current, plan.Install(current.files), plan.writes, counts)
    {
      var name :| name in left;
      var file, prior := sel[name], Lookup(current.files, name);
      if file.doc.start !in starts {
        if prior.Some? {
          SettledRemove(current.files, sel, starts, left, plan.writes, plan.remove, name);
          CountRemoval(current, sel, starts, left, plan, counts, name);
          plan := plan.(remove := plan.remove + {name});
          counts := Counting(counts, prior, None);
        } else {
          SettledSkip(current.files, sel, starts, left, plan.writes, plan.remove, name);
        }
      } else if !(prior.Some? && prior.value.data == file.data) {
        SettledWrite(current.files, sel, starts, left, plan.writes, plan.remove, name);
        CountWrite(current, sel, starts, left, plan, counts, name);
        plan := plan.(writes := plan.writes[name := file]);
        counts := Counting(counts, prior, Some(file));
      } else {
        SettledSkip(current.files, sel, starts, left, plan.writes, plan.remove, name);
      }
      left := left - {name};
    }
    SettledAll(current.files, sel, starts, plan.writes, plan.remove);
  }

  /** Name `n` is in the batch exactly as the rules say. */
  ghost predicate Settled(files: Files, sel: Files, starts: set<nat>, writes: Files, remove: set<FileName>,
      n: FileName) {
    && Lookup(writes, n) == (if n in sel && sel[n].doc.start in starts && !SameData(files, n, sel[n]) then Some(sel[n]) else None)
    && (n in remove <==> n in files && n in sel && sel[n].doc.start !in starts)
  }

  lemma InstallRemoves(files: Files, writes: Files, remove: set<FileName>, n: FileName)
    requires n !in writes
    ensures Plan(writes, remove + {n}).Install(files) == Plan(writes, remove).Install(files) - {n}
  {
  }

  lemma InstallWrites(files: Files, writes: Files, remove: set<FileName>, n: FileName, file: Snapshot)
    ensures Plan(writes[n := file], remove).Install(files) == Plan(writes, remove).Install(files)[n := file]
  {
  }

  lemma PlannedAll(files: Files, input: seq<Envelope>, keep: nat, now: int, starts: set<nat>, plan: Plan)
    requires var sel := Selected(files, input, now);
      files.Keys <= sel.Keys && starts == NewestStarts(Starts(sel), keep) && Planned(files, sel, starts, plan)
    ensures plan == PlanOf(files, input, keep, now)
  {
    var want := PlanOf(files, input, keep, now);
    forall n: FileName ensures Lookup(plan.writes, n) == Lookup(want.writes, n) {
    }
    SameLookup(plan.writes, want.writes);
    assert forall n :: n in plan.remove <==> n in want.remove;
  }

  /** Plans the archive: accepted exactly when everything is acceptable, and then
      the plan leads to the kept snapshots. */
  method PlanArchive(current: Inventory, input: seq<Envelope>, keep: nat, now: int, valid: set<Envelope> -> bool)
    returns (r: Option<Plan>)
    requires current.Valid()
    ensures r.Some? <==> Acceptable(current, input, keep, now, valid)
    ensures r.Some? ==> r.value == PlanOf(current.files, input, keep, now)
  {
    var all := CollectArchived(current.files, input, now);
    if all.None? || !valid(all.value) {
      return None;
    }
    var selection := SelectNewest(current.files, input, now);
    if selection.None? {
      return None;
    }
    SelectionKeepsNames(current.files, input, now);
    var starts := RetainedStarts(selection.value, keep);
    var counts, plan := PlanChanges(current, selection.value, starts);
    PlannedAll(current.files, input, keep, now, starts, plan);
    FitsMeans(current, plan, counts);
    if !Fits(current, plan, counts) {
      return None;
    }
    return Some(plan);
  }

  lemma {:induction false} SelectionKeepsNames(files: Files, input: seq<Envelope>, now: int)
    requires forall n :: n in files ==> n == ArchiveName(files[n].doc)
    ensures files.Keys <= Selected(files, input, now).Keys
    ensures forall n :: n in Selected(files, input, now) ==> n == ArchiveName(Selected(files, input, now)[n].doc)
  {
    if input != [] {
      SelectionKeepsNames(files, input[..|input| - 1], now);
    }
  }
}
